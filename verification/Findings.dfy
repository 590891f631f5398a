/** Where the engine misses what it is for, with the exact condition under which it does not.

    The stores are those that the contracts of the engine promise: `PodMade` and `EnsuredStore` for a successful ensure
    command, `TakenDown` for a completed deletion, `Dropped` for a removal by a listing. */
module Findings {
  import opened Labels
  import opened PodStore
  import opened Status
  import opened Outcomes
  import opened Deletion
  import opened Ensuring

  // ----- the host network mark -----

  /** The mark comes from the command's switch or from a label of the caller's own. */
  lemma HostMarkMeaning(cmd: EnsureCmd, container: string)
    ensures IsHostNetwork(ContainerLabels(cmd, container)) <==> cmd.hostNetwork || HostNetwork in cmd.labels
  {
  }

  /** What `PodMade` adds to a good store: one pod, one container, and an attachment unless the switch is set. */
  lemma PodMadeParts(s: Store, cmd: EnsureCmd)
    requires Inv(s)
    ensures var u, pause := PodMade(s, cmd), NewCtr(s.(next := s.next + 1), cmd, NewPodRef(s, cmd), PauseSpec());
            && u.pods == s.pods[s.next := NewPodRef(s, cmd).rec] && u.ctrs == s.ctrs[s.next + 1 := pause.rec]
            && u.nets == (if cmd.hostNetwork then s.nets else s.nets + {s.next + 1}) && u.next == s.next + 2
    ensures s.next !in s.pods && s.next + 1 !in s.ctrs && s.next + 1 !in s.nets
    ensures forall x | x in s.ctrs :: s.ctrs[x].pod != s.next
  {
    var c: Id := s.next + 1;
    assert !ClusterPause(s, c);
    forall x | x in s.ctrs ensures s.ctrs[x].pod != s.next { assert CtrFits(s, x); }
  }

  /** The containers after a pod was created: the old ones and its pause container. */
  lemma PodMadeCtrs(t: Store, cmd: EnsureCmd)
    ensures var pause := NewCtr(t.(next := t.next + 1), cmd, NewPodRef(t, cmd), PauseSpec());
            PodMade(t, cmd).ctrs == t.ctrs[pause.id := pause.rec] && pause.id == t.next + 1 && pause.rec.pod == t.next
  {
  }

  lemma NamesOfCtr(cmd: EnsureCmd, container: string)
    ensures var l := ContainerLabels(cmd, container);
            Managed(l) && l[PodUid] == cmd.uid && Read(l, PodContainer) == container
  {
  }

  /** A created pod of a command without containers is what that command leaves. */
  lemma CreatedIsEnsured(s: Store, cmd: EnsureCmd)
    requires NoPodOf(s, cmd.uid) && NoNamesake(s, cmd) && cmd.containers == []
    ensures var pod := NewPodRef(s, cmd);
            EnsuredStore(s, PodMade(s, cmd), cmd, pod, NewCtr(s.(next := s.next + 1), cmd, pod, PauseSpec()))
  {
    var pod := NewPodRef(s, cmd);
    var t := PodMade(s, cmd);
    assert Cleared(s, s, cmd);
    assert ReadiedFrom(s, t, cmd, pod, NewCtr(s.(next := s.next + 1), cmd, pod, PauseSpec()));
    assert t == Grow(t, cmd, pod, 0);
  }

  /** Only the new pause container has the uid of the new pod. */
  lemma NewPauseOnly(s: Store, cmd: EnsureCmd, c: Id)
    requires Inv(s) && NoPodOf(s, cmd.uid) && CtrNamed(PodMade(s, cmd), c, cmd.uid, PAUSE)
    ensures c == s.next + 1
  {
    PodMadeParts(s, cmd);
    NoPodNoCtr(s, c, cmd.uid, PAUSE);
  }

  /** Taking out what was added leaves the attachment exactly if only setup touches the network. */
  lemma DropAdded(s: Store, u: Store, t: Store, pod: PodRec, c: Id, ctr: CtrRec, attach: bool)
    requires s.next !in s.pods && c !in s.ctrs && c !in s.nets
    requires (forall x | x in s.ctrs :: s.ctrs[x].pod != s.next) && ctr.pod == s.next
    requires u.pods == s.pods[s.next := pod] && u.ctrs == s.ctrs[c := ctr]
    requires u.nets == if attach then s.nets + {c} else s.nets
    requires t == Dropped(Detached(u, c), s.next)
    ensures t == Store(s.pods, s.ctrs, if attach && IsHostNetwork(ctr.labels) then s.nets + {c} else s.nets, u.next)
  {
    assert t.ctrs == s.ctrs;
    assert t.pods == s.pods;
  }

  /** Taking a pod down undoes bringing it up exactly if the caller sets the host network label only together with
      the host network switch. Otherwise the attachment stays without a container, because setup looks at the switch
      and takedown at the label. */
  lemma TakedownIsExact(s: Store, cmd: EnsureCmd, t: Store)
    requires Inv(s) && Creatable(s, cmd) && TakenDown(PodMade(s, cmd), t, s.next, cmd.uid)
    ensures (HostNetwork in cmd.labels ==> cmd.hostNetwork) <==> t == s.(next := s.next + 2)
    ensures (HostNetwork in cmd.labels ==> cmd.hostNetwork) <==> NoLeakedNetwork(t)
  {
    var u := PodMade(s, cmd);
    var c :| CtrNamed(u, c, cmd.uid, PAUSE) && t == Dropped(Detached(u, c), s.next);
    NewPauseOnly(s, cmd, c);
    PodMadeParts(s, cmd);
    HostMarkMeaning(cmd, PAUSE);
    var pause := NewCtr(s.(next := s.next + 1), cmd, NewPodRef(s, cmd), PauseSpec());
    DropAdded(s, u, t, NewPodRef(s, cmd).rec, c, pause.rec, !cmd.hostNetwork);
    LeakIsLeft(s, t, c);
  }

  lemma LeakIsLeft(s: Store, t: Store, c: Id)
    requires Inv(s) && c !in s.ctrs && c !in s.nets && t.ctrs == s.ctrs && (t.nets == s.nets || t.nets == s.nets + {c})
    ensures NoLeakedNetwork(t) <==> t.nets == s.nets
  {
    forall x | x in s.nets ensures ClusterPause(t, x) { assert ClusterPause(s, x); }
    assert !ClusterPause(t, c);
    assert c in s.nets + {c};
  }

  // ----- one uid with two label sets -----

  /** Creating a container of a command in a stored pod of its uid and name keeps the invariant exactly if it is no
      abbot container or the pod is an abbot pod. */
  lemma CreationIsExact(s: Store, cmd: EnsureCmd, p: Id, spec: CtrSpec)
    requires Inv(s) && Addable(s, cmd, p, spec)
    ensures Inv(WithCtr(s, NewCtr(s, cmd, PodRef(p, s.pods[p]), spec))) <==>
              (IsAbbotContainer(ContainerLabels(cmd, spec.name)) ==> IsAbbotPod(s.pods[p].labels))
  {
    var c := NewCtr(s, cmd, PodRef(p, s.pods[p]), spec);
    if IsAbbotContainer(c.rec.labels) ==> IsAbbotPod(s.pods[p].labels) {
      HostsCtr(cmd, s.pods[p].labels, spec.name);
      CreationAllowed(s, cmd, p, spec.name);
      StepKeeps(s, CtrNew(c.id, p, c.rec.name, c.rec.labels));
    } else {
      assert !CtrFits(WithCtr(s, c), c.id);
    }
  }

  lemma SameTail(a: string, b: string, tail: string)
    ensures CtrName(a, tail) == CtrName(b, tail) <==> a == b
  {
    if CtrName(a, tail) == CtrName(b, tail) {
      assert |a| == |b|;
      assert CtrName(a, tail)[..|a|] == a && CtrName(b, tail)[..|b|] == b;
    }
  }

  /** Why the names must agree: a pod may have one container of each name. A spec that asks for a second pause container
      would break that, and the pause container that is there stands in its way exactly if the command has the full
      name of the pod. */
  lemma NameCheckIsExact(s: Store, cmd: EnsureCmd, p: Id, c: Id)
    requires Inv(s) && PodOfUid(s, p, cmd.uid) && IsPauseOf(s, c, p)
    ensures s.ctrs[c].name == FullName(cmd.namespace, cmd.name, PAUSE) <==> NameIn(s.pods[p].labels) == PodFullName(cmd)
    ensures !NamesDistinct(WithCtr(s, NewCtr(s, cmd, PodRef(p, s.pods[p]), PauseSpec())))
  {
    assert CtrFits(s, c);
    SameTail(NameIn(s.pods[p].labels), PodFullName(cmd), PAUSE);
    NamesOfCtr(cmd, PAUSE);
    var t := WithCtr(s, NewCtr(s, cmd, PodRef(p, s.pods[p]), PauseSpec()));
    assert SameName(t, c, s.next);
  }

  /** The container of a spec can be added to a stored pod of the uid and name of its command. */
  ghost predicate Addable(s: Store, cmd: EnsureCmd, p: Id, spec: CtrSpec) {
    && PodOfUid(s, p, cmd.uid) && HasPause(s, p) && spec.name != PAUSE
    && NameIn(s.pods[p].labels) == PodFullName(cmd)
    && forall c | c in s.ctrs :: s.ctrs[c].name != FullName(cmd.namespace, cmd.name, spec.name)
  }

  /** What is found as the pause container of the pod is the one that was there before a container was added to
      the pod and another pod was created. */
  lemma PauseIsOld(s: Store, cmd: EnsureCmd, p: Id, spec: CtrSpec, cluster: EnsureCmd, c: Id)
    requires Inv(s) && Addable(s, cmd, p, spec)
    requires var t := WithCtr(s, NewCtr(s, cmd, PodRef(p, s.pods[p]), spec));
             NoPodOf(t, cluster.uid) && CtrNamed(PodMade(t, cluster), c, cmd.uid, PAUSE)
    ensures var t := WithCtr(s, NewCtr(s, cmd, PodRef(p, s.pods[p]), spec));
            IsPauseOf(s, c, p) && PodMade(t, cluster).ctrs[c] == s.ctrs[c]
  {
    var t := WithCtr(s, NewCtr(s, cmd, PodRef(p, s.pods[p]), spec));
    assert PodOfUid(t, p, cmd.uid);
    PodMadeCtrs(t, cluster);
    NamesOfCtr(cluster, PAUSE);
    NamesOfCtr(cmd, spec.name);
    NamedIsInPod(s, c, cmd.uid, PAUSE, p);
  }

  /** Taking down pod `p`, to which a container was added and beside which a cluster pause container came up, keeps
      abbot safety exactly if there was an abbot container before. */
  lemma OldAbbotDecides(s: Store, u: Store, v: Store, p: Id, added: CtrRef, pause: CtrRef, c: Id)
    requires Inv(s) && ManagedPod(s, p) && IsPauseOf(s, c, p) && added.id == s.next && added.rec.pod == p
    requires u.ctrs == s.ctrs[added.id := added.rec][pause.id := pause.rec] && pause.id > s.next && pause.rec.pod != p
    requires IsInfra(pause.rec.labels) && !IsHostNetwork(pause.rec.labels) && !Guarded(u, s.ctrs[c].labels)
    requires c in u.ctrs && v == Dropped(Detached(u, c), p)
    ensures AbbotSafe(v) <==> exists a :: AbbotCtr(s, a)
    ensures !IsAbbotPod(s.pods[p].labels)
  {
    assert CtrFits(s, c);
    assert ClusterPause(u, pause.id) && ClusterPause(v, pause.id);
    forall a ensures AbbotCtr(v, a) <==> AbbotCtr(s, a) { assert CtrFits(s, a); }
  }

  lemma AddedOrOld(s: Store, added: CtrRef, a: Id)
    requires AbbotCtr(WithCtr(s, added), a)
    ensures a == added.id || AbbotCtr(s, a)
  {
  }

  /** The new pause container of a command without a host network label or switch is on the cluster network. */
  lemma NewPauseOnCluster(t: Store, cluster: EnsureCmd)
    requires !cluster.hostNetwork && HostNetwork !in cluster.labels
    ensures var pause := NewCtr(t.(next := t.next + 1), cluster, NewPodRef(t, cluster), PauseSpec());
            && IsInfra(pause.rec.labels) && !IsHostNetwork(pause.rec.labels) && pause.rec.pod == t.next
            && PodMade(t, cluster).ctrs == t.ctrs[pause.id := pause.rec]
  {
    PodMadeCtrs(t, cluster);
  }

  /** Three commands: one adds a container to the stored pod of its uid, one creates a pod on the cluster network,
      and one takes the first pod down. Whichever pods and labels they are about, abbot safety survives them exactly
      if the added container is no abbot container, or the pod is an abbot pod, or there was an abbot container
      before. */
  lemma MisplacedAbbotIsExact(s: Store, cmd: EnsureCmd, p: Id, spec: CtrSpec, cluster: EnsureCmd, v: Store)
    requires Inv(s) && Addable(s, cmd, p, spec) && !cluster.hostNetwork && HostNetwork !in cluster.labels
    requires var t := WithCtr(s, NewCtr(s, cmd, PodRef(p, s.pods[p]), spec));
             Creatable(t, cluster) && TakenDown(PodMade(t, cluster), v, p, cmd.uid)
    ensures AbbotSafe(v) <==>
              || (IsAbbotContainer(ContainerLabels(cmd, spec.name)) ==> IsAbbotPod(s.pods[p].labels))
              || exists a :: AbbotCtr(s, a)
  {
    var added := NewCtr(s, cmd, PodRef(p, s.pods[p]), spec);
    var t := WithCtr(s, added);
    var u := PodMade(t, cluster);
    var pause := NewCtr(t.(next := t.next + 1), cluster, NewPodRef(t, cluster), PauseSpec());
    var c :| CtrNamed(u, c, cmd.uid, PAUSE) && !Guarded(u, u.ctrs[c].labels) && v == Dropped(Detached(u, c), p);
    PauseIsOld(s, cmd, p, spec, cluster, c);
    NewPauseOnCluster(t, cluster);
    OldAbbotDecides(s, u, v, p, added, pause, c);
    var a :| AbbotCtr(t, a);
    AddedOrOld(s, added, a);
  }

  /** A plain pod on the host network, the same uid asked for as the abbot pod, and a pod on the cluster network. */
  const PLAIN := EnsureCmd("u", "ns", "a", map[], true, false, [])
  const AGENT := EnsureCmd("u", "ns", "a", map[PodRole := ROLE_ABBOT], true, false, [CtrSpec(ABBOT, false, {})])
  const CLUSTER := EnsureCmd("v", "ns", "b", map[], false, false, [])

  const EMPTY := Store(map[], map[], {}, 0)

  /** The first command, on an empty store: one plain pod on the host network. */
  lemma PlainPod() returns (s: Store, pod: PodRef, pause: CtrRef)
    ensures pod == NewPodRef(EMPTY, PLAIN) && pause == NewCtr(EMPTY.(next := 1), PLAIN, pod, PauseSpec())
    ensures s == Store(map[0 := pod.rec], map[1 := pause.rec], {}, 2) && s == PodMade(EMPTY, PLAIN) && Inv(s)
    ensures EnsuredStore(EMPTY, s, PLAIN, pod, pause)
  {
    EmptyStoreIsGood();
    PodMadeKeeps(EMPTY, PLAIN);
    s, pod := PodMade(EMPTY, PLAIN), NewPodRef(EMPTY, PLAIN);
    pause := NewCtr(EMPTY.(next := 1), PLAIN, pod, PauseSpec());
    CreatedIsEnsured(EMPTY, PLAIN);
  }

  lemma PlainLabels()
    ensures PLAIN.uid == AGENT.uid && Suits(PLAIN, PodLabels(PLAIN))
    ensures !IsAbbotPod(PodLabels(PLAIN)) && !IsAbbotPod(ContainerLabels(PLAIN, PAUSE))
    ensures IsPauseContainer(ContainerLabels(PLAIN, PAUSE)) && !IsAbbotContainer(ContainerLabels(PLAIN, PAUSE))
    ensures Read(ContainerLabels(PLAIN, PAUSE), PodUid) == "u" && PodUid in ContainerLabels(PLAIN, PAUSE)
    ensures IsAbbotContainer(ContainerLabels(AGENT, ABBOT))
    ensures FullName("ns", "a", PAUSE) == "ns.a._pause" && FullName("ns", "a", ABBOT) == "ns.a.abbot"
    ensures PodFullName(PLAIN) == "ns.a" && PodFullName(CLUSTER) == "ns.b"
    ensures FullName("ns", "b", PAUSE) == "ns.b._pause"
  {
    OwnPodSuits(PLAIN);
  }

  /** The second command finds the pod of its uid and only adds its abbot container. */
  lemma AgentAdded(s: Store, pod: PodRef, pause: CtrRef) returns (t: Store)
    requires pod == NewPodRef(EMPTY, PLAIN) && pause == NewCtr(EMPTY.(next := 1), PLAIN, pod, PauseSpec())
    requires s == Store(map[0 := pod.rec], map[1 := pause.rec], {}, 2)
    ensures t == WithCtr(s, NewCtr(s, AGENT, pod, AGENT.containers[0])) && EnsuredStore(s, t, AGENT, pod, pause)
    ensures Addable(s, AGENT, 0, AGENT.containers[0])
  {
    PlainLabels();
    assert PodOfUid(s, 0, "u");
    assert IsPauseOf(s, 1, 0);
    t := Grow(s, AGENT, pod, 1);
    assert Grow(s, AGENT, pod, 0) == s;
    assert ReadiedFrom(s, s, AGENT, pod, pause);
  }

  /** The third command finds that abbot container and may create its pod on the cluster network. */
  lemma ClusterCreatable(s: Store, t: Store, pod: PodRef, pause: CtrRef)
    requires pod == NewPodRef(EMPTY, PLAIN) && pause == NewCtr(EMPTY.(next := 1), PLAIN, pod, PauseSpec())
    requires s == Store(map[0 := pod.rec], map[1 := pause.rec], {}, 2)
    requires t == WithCtr(s, NewCtr(s, AGENT, pod, AGENT.containers[0]))
    ensures Creatable(t, CLUSTER) && 1 in t.ctrs && t.ctrs[1] == pause.rec && t.next == 3
  {
    PlainLabels();
    assert AbbotCtr(t, 2);
  }

  /** The guard takes the pod of the first command for a plain one. */
  lemma PlainGoes(u: Store, v: Store)
    requires 1 in u.ctrs && u.ctrs[1].labels == ContainerLabels(PLAIN, PAUSE) && v == Dropped(Detached(u, 1), 0)
    ensures TakenDown(u, v, 0, "u")
  {
    PlainLabels();
    assert CtrNamed(u, 1, "u", PAUSE) && !Guarded(u, u.ctrs[1].labels);
  }

  lemma PlainHasNoAbbot(s: Store, pod: PodRef, pause: CtrRef)
    requires s == Store(map[0 := pod.rec], map[1 := pause.rec], {}, 2)
    requires pod.rec.labels == PodLabels(PLAIN) && pause.rec.labels == ContainerLabels(PLAIN, PAUSE)
    ensures !(exists a :: AbbotCtr(s, a)) && !IsAbbotPod(s.pods[0].labels)
    ensures IsAbbotContainer(ContainerLabels(AGENT, AGENT.containers[0].name))
  {
    PlainLabels();
  }

  /** The failing case happens: three ensure commands succeed one after the other, from an empty store, and the deletion
      of the first pod succeeds as well and takes the abbot away from a pod that needs it. */
  lemma MixedLabelsLoseAbbot() returns (s: Store, t: Store, u: Store, v: Store, pod: PodRef, pause: CtrRef)
    ensures EnsuredStore(EMPTY, s, PLAIN, pod, pause) && EnsuredStore(s, t, AGENT, pod, pause)
    ensures exists pod', pause' :: EnsuredStore(t, u, CLUSTER, pod', pause')
    ensures TakenDown(u, v, pod.id, "u") && Inv(s) && !AbbotSafe(v)
  {
    s, pod, pause := PlainPod();
    t := AgentAdded(s, pod, pause);
    ClusterCreatable(s, t, pod, pause);
    u := PodMade(t, CLUSTER);
    PodMadeCtrs(t, CLUSTER);
    CreatedIsEnsured(t, CLUSTER);
    v := Dropped(Detached(u, 1), 0);
    PlainGoes(u, v);
    MisplacedAbbotIsExact(s, AGENT, 0, AGENT.containers[0], CLUSTER, v);
    PlainHasNoAbbot(s, pod, pause);
  }

  /** A cluster pod with a host network label of the caller's own. */
  const LEAKY := EnsureCmd("v", "ns", "b", map[HostNetwork := "x"], false, false, [])

  lemma LeakyLabels()
    ensures PodFullName(AGENT) == "ns.a" && PodFullName(LEAKY) == "ns.b"
    ensures FullName("ns", "a", PAUSE) == "ns.a._pause" && FullName("ns", "a", ABBOT) == "ns.a.abbot"
    ensures FullName("ns", "b", PAUSE) == "ns.b._pause"
    ensures IsAbbotContainer(ContainerLabels(AGENT, ABBOT))
    ensures Managed(PodLabels(AGENT)) && PodLabels(AGENT)[PodUid] == "u"
    ensures !IsAbbotPod(ContainerLabels(LEAKY, PAUSE))
  {
  }

  /** The store with the abbot pod and its two containers. */
  lemma AbbotPodUp() returns (s: Store, pod: PodRef, pause: CtrRef)
    ensures pod == NewPodRef(EMPTY, AGENT) && pause == NewCtr(EMPTY.(next := 1), AGENT, pod, PauseSpec())
    ensures var made := Store(map[0 := pod.rec], map[1 := pause.rec], {}, 2);
            s == WithCtr(made, NewCtr(made, AGENT, pod, AGENT.containers[0]))
    ensures EnsuredStore(EMPTY, s, AGENT, pod, pause) && Inv(s)
  {
    LeakyLabels();
    EmptyStoreIsGood();
    PodMadeKeeps(EMPTY, AGENT);
    pod := NewPodRef(EMPTY, AGENT);
    pause := NewCtr(EMPTY.(next := 1), AGENT, pod, PauseSpec());
    var made := PodMade(EMPTY, AGENT);
    assert made == Store(map[0 := pod.rec], map[1 := pause.rec], {}, 2);
    s := Grow(made, AGENT, pod, 1);
    assert Grow(made, AGENT, pod, 0) == made;
    assert Cleared(EMPTY, EMPTY, AGENT);
    assert ReadiedFrom(EMPTY, made, AGENT, pod, pause);
    AbbotJoins(made, pod, pause);
  }

  lemma AbbotJoins(made: Store, pod: PodRef, pause: CtrRef)
    requires pod == NewPodRef(EMPTY, AGENT) && pause == NewCtr(EMPTY.(next := 1), AGENT, pod, PauseSpec())
    requires made == Store(map[0 := pod.rec], map[1 := pause.rec], {}, 2) && Inv(made)
    ensures Inv(WithCtr(made, NewCtr(made, AGENT, pod, AGENT.containers[0])))
  {
    LeakyLabels();
    OwnPodSuits(AGENT);
    NamesOfCtr(AGENT, PAUSE);
    assert IsPauseOf(made, 1, 0);
    assert PodReady(made, AGENT, pod);
    SpecAllowed(made, AGENT, pod, AGENT.containers[0]);
    var c := NewCtr(made, AGENT, pod, AGENT.containers[0]);
    StepKeeps(made, CtrNew(c.id, pod.id, c.rec.name, c.rec.labels));
  }

  /** The leak happens: beside a running abbot the pod of a command with the label and without the switch is created and
      attached, its deletion is completed, and the attachment is left. */
  lemma LabelWithoutSwitchLeaks() returns (s: Store, t: Store)
    ensures Inv(s) && Creatable(s, LEAKY) && TakenDown(PodMade(s, LEAKY), t, s.next, LEAKY.uid)
    ensures exists pod, pause :: EnsuredStore(EMPTY, s, AGENT, pod, pause)
    ensures !NoLeakedNetwork(t)
  {
    var pod, pause;
    s, pod, pause := AbbotPodUp();
    LeakyFits(s, pod, pause);
    CreatedIsEnsured(s, LEAKY);
    var u, c := PodMade(s, LEAKY), s.next + 1;
    PodMadeCtrs(s, LEAKY);
    NamesOfCtr(LEAKY, PAUSE);
    LeakyLabels();
    t := Dropped(Detached(u, c), s.next);
    assert CtrNamed(u, c, LEAKY.uid, PAUSE) && !Guarded(u, u.ctrs[c].labels);
    TakedownIsExact(s, LEAKY, t);
  }

  lemma LeakyFits(s: Store, pod: PodRef, pause: CtrRef)
    requires pod == NewPodRef(EMPTY, AGENT) && pause == NewCtr(EMPTY.(next := 1), AGENT, pod, PauseSpec())
    requires var made := Store(map[0 := pod.rec], map[1 := pause.rec], {}, 2);
             s == WithCtr(made, NewCtr(made, AGENT, pod, AGENT.containers[0]))
    ensures Creatable(s, LEAKY)
  {
    LeakyLabels();
    assert AbbotCtr(s, 2);
  }

  // ----- removal without a network delete -----

  /** A pod is removed without knowing that its network is deleted: by a listing when the lookup of its pause container
      fails for any reason, and by an ensure command when the failure to delete the network of the previous pod of its
      name is lost. That keeps the invariant exactly if the pod has no attached container and holds no abbot container
      that is still needed. */
  lemma BlindRemovalIsExact(s: Store, p: Id)
    requires Inv(s) && p in s.pods
    ensures Inv(Dropped(s, p)) <==>
              && (forall c | c in s.nets :: !InPod(s, c, p))
              && ((exists d :: !InPod(s, d, p) && ClusterPause(s, d)) ==>
                    exists a :: !InPod(s, a, p) && AbbotCtr(s, a))
  {
    var t, u := Emptied(s, p), Dropped(s, p);
    if Admissible(s, PodEmptied(p)) {
      StepKeeps(s, PodEmptied(p));
      StepKeeps(t, PodGone(p));
    } else if c :| c in s.nets && InPod(s, c, p) {
      assert c in u.nets && !ClusterPause(u, c);
    } else {
      var d :| !InPod(s, d, p) && ClusterPause(s, d);
      assert ClusterPause(u, d);
      forall a ensures !AbbotCtr(u, a) {
        assert AbbotCtr(u, a) ==> !InPod(s, a, p) && AbbotCtr(s, a);
      }
    }
  }

  /** A pod on the cluster network whose lookup fails once is therefore lost together with its attachment. */
  lemma BlindRemovalLeaks(s: Store, c: Id)
    requires Inv(s) && c in s.nets
    ensures c in s.ctrs && !NoLeakedNetwork(Dropped(s, s.ctrs[c].pod))
  {
    assert ClusterPause(s, c);
    var u := Dropped(s, s.ctrs[c].pod);
    assert c in u.nets && !ClusterPause(u, c);
  }

  // ----- a pod without its network -----

  /** A deletion that deleted the network and then failed to remove the pod leaves the pod detached. The next ensure
      command for its uid succeeds without attaching it again: the pause container is attached afterwards exactly if
      it was attached before. */
  lemma FoundPodKeepsItsNetwork(s: Store, u: Store, cmd: EnsureCmd, pod: PodRef, pause: CtrRef)
    requires Inv(s) && !NoPodOf(s, cmd.uid) && EnsuredStore(s, u, cmd, pod, pause)
    ensures IsPauseOf(s, pause.id, pod.id) && PodOfUid(s, pod.id, cmd.uid)
    ensures pause.id in u.nets <==> pause.id in s.nets
  {
    NamedIsInPod(s, pause.id, cmd.uid, PAUSE, pod.id);
    GrowFrame(s, cmd, pod, |cmd.containers|);
  }

  lemma DetachedPodStaysDetached(s: Store, c: Id, u: Store, cmd: EnsureCmd, pod: PodRef, pause: CtrRef)
    requires Inv(s) && c in s.nets && PodOfUid(s, s.ctrs[c].pod, cmd.uid)
    requires EnsuredStore(Apply(s, NetDown(c)), u, cmd, pod, pause)
    ensures Explains(RemoveFault, s, Apply(s, NetDown(c)), PodRef(s.ctrs[c].pod, s.pods[s.ctrs[c].pod]))
    ensures pause.id == c && ClusterPause(u, c) && c !in u.nets
  {
    var t := Apply(s, NetDown(c));
    assert ClusterPause(s, c);
    StepKeeps(s, NetDown(c));
    assert PodOfUid(t, s.ctrs[c].pod, cmd.uid);
    FoundPodKeepsItsNetwork(t, u, cmd, pod, pause);
    OneOfUid(t, s.ctrs[c].pod, cmd.uid);
    assert CtrFits(s, c) && SameName(t, c, pause.id);
    GrowFacts(t, cmd, pod, |cmd.containers|);
  }
}
