/** The store of pods, containers and network attachments as a value, the events that change it,
    and the invariant that every admissible event keeps. */
module PodStore {
  import opened Labels

  type Id = nat

  datatype PodRec = PodRec(name: string, labels: LabelSet)

  datatype CtrRec = CtrRec(pod: Id, name: string, labels: LabelSet)

  datatype RunState =
    | Configured | Created | Stopped | Exited | Paused | Running | Unknown | Removing | Invalid

  /** `nets` holds the containers that have a network attachment; `next` is the next unused id. */
  datatype Store = Store(pods: map<Id, PodRec>, ctrs: map<Id, CtrRec>, nets: set<Id>, next: Id)

  /** The client call that failed. */
  datatype Op =
    | ListCtrsOp | ListPodsOp | LookupPodOp | PodCtrsOp | ImageOp | ConfigOp | NewPodOp | NewCtrOp | StartOp | UnpauseOp
    | ExitCodeOp | StateOp | AbbotExecOp | RemovePodOp | RemoveCtrOp | MountOp | HookOp | WaitOp | InspectOp

  datatype Event =
    | PodNew(pod: Id, name: string, labels: LabelSet)
    | CtrNew(ctr: Id, pod: Id, name: string, labels: LabelSet)
    | CtrGone(ctr: Id)
    | PodEmptied(pod: Id)
    | PodGone(pod: Id)
    | NetUp(ctr: Id)
    | NetDown(ctr: Id)
      // observations and actions that leave the store as it is
    | Started(ctr: Id)
    | Unpaused(ctr: Id)
    | Seen(ctr: Id, state: RunState)
    | AbbotStarted(ctr: Id)
    | Hooked(ctr: Id)
    | Waited(ctr: Id)
    | Alive(ctr: Id)
    | Mounted(uid: string, volume: string)
    | PodStart(pod: Id, ok: bool)
    | RemoveTry(pod: Id, blind: bool)
    | RestoreTry(ctr: Id)
    | QueryTry(ctr: Id)
    | Lost(ctr: Id)
    | Cleaned(uid: string)
    | Fault(op: Op)

  function WithoutCtrsOf(s: Store, p: Id): map<Id, CtrRec> {
    map c | c in s.ctrs && s.ctrs[c].pod != p :: s.ctrs[c]
  }

  function Apply(s: Store, e: Event): Store {
    match e
    case PodNew(p, name, labels) => s.(pods := s.pods[p := PodRec(name, labels)], next := p + 1)
    case CtrNew(c, p, name, labels) => s.(ctrs := s.ctrs[c := CtrRec(p, name, labels)], next := c + 1)
    case CtrGone(c) => s.(ctrs := s.ctrs - {c})
    case PodEmptied(p) => s.(ctrs := WithoutCtrsOf(s, p))
    case PodGone(p) => s.(pods := s.pods - {p})
    case NetUp(c) => s.(nets := s.nets + {c})
    case NetDown(c) => s.(nets := s.nets - {c})
    case _ => s
  }

  /** What has happened so far, oldest first; every prefix of a history is a moment of the run. */
  datatype History = Start | Then(prev: History, event: Event)

  function Replay(s: Store, h: History): Store {
    match h
    case Start => s
    case Then(prev, e) => Apply(Replay(s, prev), e)
  }

  function Faults(h: History): nat {
    match h
    case Start => 0
    case Then(prev, e) => Faults(prev) + if e.Fault? then 1 else 0
  }

  /** How often exactly this happened. */
  function Count(e: Event, h: History): nat {
    match h
    case Start => 0
    case Then(prev, last) => Count(e, prev) + if last == e then 1 else 0
  }

  /** The last thing that happened is that a client call failed. */
  predicate EndsWithFault(h: History) { h.Then? && h.event.Fault? }

  /** How often a command in the abbot container failed and the failure was lost, so that it passed for a success. */
  function Losses(h: History): nat {
    match h
    case Start => 0
    case Then(prev, e) => Losses(prev) + if e.Lost? then 1 else 0
  }

  /** What makes a removal blind: the lookup of the pause container failed, or the failure of the network delete was
      lost. */
  predicate EndsBlind(h: History) { h.Then? && (h.event == Fault(ListCtrsOp) || h.event.Lost?) }

  /** The last thing that happened is an attempt to remove a pod without knowing that its network is deleted. */
  predicate BlindTry(h: History) { h.Then? && h.event.RemoveTry? && h.event.blind && EndsBlind(h.prev) }

  function Blinds(h: History): nat {
    match h
    case Start => 0
    case Then(prev, e) => Blinds(prev) + if BlindTry(h) then 1 else 0
  }

  /** How often such an attempt was not admissible, so that it could do harm. */
  ghost function Harms(s: Store, h: History): nat {
    match h
    case Start => 0
    case Then(prev, e) =>
      Harms(s, prev) + if BlindTry(h) && !Admissible(Replay(s, prev), PodEmptied(e.pod)) then 1 else 0
  }

  // ----- the invariant -----

  /** Container `c` is stored in pod `p`. */
  predicate InPod(s: Store, c: Id, p: Id) { c in s.ctrs && s.ctrs[c].pod == p }

  predicate IsPauseOf(s: Store, c: Id, p: Id) { InPod(s, c, p) && IsPauseContainer(s.ctrs[c].labels) }

  /** A pause container of a pod on the cluster network, as the abbot guard sees it. */
  predicate ClusterPause(s: Store, c: Id) {
    c in s.ctrs && IsInfra(s.ctrs[c].labels) && !IsHostNetwork(s.ctrs[c].labels)
  }

  predicate AbbotCtr(s: Store, c: Id) { c in s.ctrs && IsAbbotContainer(s.ctrs[c].labels) }

  predicate ManagedPod(s: Store, p: Id) { p in s.pods && Managed(s.pods[p].labels) }

  predicate PodOfUid(s: Store, p: Id, uid: string) { ManagedPod(s, p) && s.pods[p].labels[PodUid] == uid }

  ghost predicate HasPause(s: Store, p: Id) { exists c :: IsPauseOf(s, c, p) }

  ghost predicate IdsFresh(s: Store) {
    && (forall p | p in s.pods :: p < s.next)
    && (forall c | c in s.ctrs :: c < s.next)
  }

  predicate SameUid(s: Store, p: Id, q: Id) {
    ManagedPod(s, p) && ManagedPod(s, q) && s.pods[p].labels[PodUid] == s.pods[q].labels[PodUid]
  }

  ghost predicate UidsUnique(s: Store) {
    && (forall p :: !PodOfUid(s, p, ""))
    && (forall p, q {:trigger SameUid(s, p, q)} | SameUid(s, p, q) :: p == q)
  }

  /** How the labels of a container fit the labels of the pod that holds it. */
  predicate Fits(r: CtrRec, pod: LabelSet) {
    if Managed(pod) then
      && Hosts(pod, r.labels)
      && r.name == CtrName(NameIn(pod), Read(r.labels, PodContainer))
    else
      !Managed(r.labels) && !IsInfra(r.labels) && !IsAbbotContainer(r.labels)
  }

  predicate CtrFits(s: Store, c: Id) {
    c in s.ctrs ==> s.ctrs[c].pod in s.pods && Fits(s.ctrs[c], s.pods[s.ctrs[c].pod].labels)
  }

  /** Two containers of one managed pod that carry the same container name. */
  predicate SameName(s: Store, c: Id, d: Id) {
    && c in s.ctrs && d in s.ctrs && s.ctrs[c].pod == s.ctrs[d].pod && ManagedPod(s, s.ctrs[c].pod)
    && Read(s.ctrs[c].labels, PodContainer) == Read(s.ctrs[d].labels, PodContainer)
  }

  ghost predicate NamesDistinct(s: Store) {
    forall c, d {:trigger SameName(s, c, d)} | SameName(s, c, d) :: c == d
  }

  /** If `c` is in a managed pod, that pod has a pause container. */
  ghost predicate Accompanied(s: Store, c: Id) {
    c in s.ctrs && ManagedPod(s, s.ctrs[c].pod) ==> HasPause(s, s.ctrs[c].pod)
  }

  ghost predicate NoLeakedNetwork(s: Store) {
    forall c | c in s.nets :: ClusterPause(s, c)
  }

  ghost predicate AbbotSafe(s: Store) {
    (exists c :: ClusterPause(s, c)) ==> exists a :: AbbotCtr(s, a)
  }

  ghost predicate Inv(s: Store) {
    && IdsFresh(s)
    && UidsUnique(s)
    && (forall c {:trigger CtrFits(s, c)} :: CtrFits(s, c))
    && NamesDistinct(s)
    && (forall c {:trigger Accompanied(s, c)} :: Accompanied(s, c))
    && NoLeakedNetwork(s)
    && AbbotSafe(s)
  }

  /** The invariant can be met: an engine that starts without pods is in a good state. */
  lemma EmptyStoreIsGood()
    ensures Inv(Store(map[], map[], {}, 0))
  {
  }

  // ----- admissible events -----

  ghost predicate Admissible(s: Store, e: Event) {
    match e
    case PodNew(p, _, labels) =>
      p == s.next && Managed(labels) && labels[PodUid] != "" && forall q :: !PodOfUid(s, q, labels[PodUid])
    case CtrNew(c, p, name, labels) =>
      && c == s.next
      && ManagedPod(s, p)
      && Fits(CtrRec(p, name, labels), s.pods[p].labels)
      && (forall d | InPod(s, d, p) :: Read(s.ctrs[d].labels, PodContainer) != Read(labels, PodContainer))
      && (IsPauseContainer(labels) || HasPause(s, p))
      && (IsInfra(labels) && !IsHostNetwork(labels) ==> exists a :: AbbotCtr(s, a))
    case CtrGone(c) =>
      && c !in s.nets
      && (c in s.ctrs && ManagedPod(s, s.ctrs[c].pod) && IsPauseContainer(s.ctrs[c].labels) ==>
            forall d | InPod(s, d, s.ctrs[c].pod) :: d == c)
      && ((exists d :: d != c && ClusterPause(s, d)) ==> exists a :: a != c && AbbotCtr(s, a))
    case PodEmptied(p) =>
      && (forall c | c in s.nets :: !InPod(s, c, p))
      && ((exists d :: !InPod(s, d, p) && ClusterPause(s, d)) ==> exists a :: !InPod(s, a, p) && AbbotCtr(s, a))
    case PodGone(p) => forall c :: !InPod(s, c, p)
    case NetUp(c) => ClusterPause(s, c)
    case _ => true
  }

  ghost predicate Legal(s: Store, h: History) {
    match h
    case Start => true
    case Then(prev, e) => Legal(s, prev) && Admissible(Replay(s, prev), e)
  }

  // ----- every admissible event keeps the invariant -----

  lemma CtrNewKeeps(s: Store, e: Event)
    requires e.CtrNew? && Inv(s) && Admissible(s, e)
    ensures Inv(Apply(s, e))
  {
    var t := Apply(s, e);
    forall p, q | SameUid(t, p, q) ensures p == q { assert SameUid(s, p, q); }
    forall p ensures !PodOfUid(t, p, "") { assert !PodOfUid(s, p, ""); }
    forall c ensures CtrFits(t, c) { assert CtrFits(s, c); }
    forall c, d | SameName(t, c, d) ensures c == d {
      if c != e.ctr && d != e.ctr {
        assert SameName(s, c, d);
      } else {
        assert c != e.ctr ==> InPod(s, c, e.pod);
        assert d != e.ctr ==> InPod(s, d, e.pod);
      }
    }
    forall c ensures Accompanied(t, c) { CtrNewAccompanies(s, e, c); }
    forall c | c in t.nets ensures ClusterPause(t, c) { assert ClusterPause(s, c); }
    forall a | AbbotCtr(s, a) ensures AbbotCtr(t, a) {}
    forall c | ClusterPause(t, c) && c != e.ctr ensures ClusterPause(s, c) {}
  }

  lemma CtrNewAccompanies(s: Store, e: Event, c: Id)
    requires e.CtrNew? && Inv(s) && Admissible(s, e)
    ensures Accompanied(Apply(s, e), c)
  {
    var t := Apply(s, e);
    assert Accompanied(s, c);
    if c in t.ctrs && ManagedPod(t, t.ctrs[c].pod) {
      if HasPause(s, t.ctrs[c].pod) {
        var d :| IsPauseOf(s, d, t.ctrs[c].pod);
        assert IsPauseOf(t, d, t.ctrs[c].pod);
      } else {
        assert IsPauseOf(t, e.ctr, t.ctrs[c].pod);
      }
    }
  }

  /** `t` is `s` with some containers taken out. */
  ghost predicate Fewer(s: Store, t: Store) {
    && t.pods == s.pods && t.nets == s.nets && t.next == s.next
    && forall c | c in t.ctrs :: c in s.ctrs && t.ctrs[c] == s.ctrs[c]
  }

  /** Taking containers out keeps the invariant if no attached container, no abbot that is still
      needed and no pause container of a remaining container goes. */
  lemma FewerKeeps(s: Store, t: Store)
    requires Inv(s) && Fewer(s, t)
    requires forall c | c in s.nets :: c in t.ctrs
    requires forall c {:trigger Accompanied(t, c)} :: Accompanied(t, c)
    requires AbbotSafe(t)
    ensures Inv(t)
  {
    forall p, q | SameUid(t, p, q) ensures p == q { assert SameUid(s, p, q); }
    forall p ensures !PodOfUid(t, p, "") { assert !PodOfUid(s, p, ""); }
    forall c ensures CtrFits(t, c) { assert CtrFits(s, c); }
    forall c, d | SameName(t, c, d) ensures c == d { assert SameName(s, c, d); }
    forall c | c in t.nets ensures ClusterPause(t, c) { assert ClusterPause(s, c); }
  }

  lemma PodEmptiedKeeps(s: Store, p: Id)
    requires Inv(s) && Admissible(s, PodEmptied(p))
    ensures Inv(Apply(s, PodEmptied(p)))
  {
    var t := Apply(s, PodEmptied(p));
    forall c ensures Accompanied(t, c) {
      assert Accompanied(s, c);
      if c in t.ctrs && ManagedPod(t, t.ctrs[c].pod) {
        var d :| IsPauseOf(s, d, s.ctrs[c].pod);
        assert IsPauseOf(t, d, t.ctrs[c].pod);
      }
    }
    forall a | !InPod(s, a, p) && AbbotCtr(s, a) ensures AbbotCtr(t, a) {}
    forall c | ClusterPause(t, c) ensures ClusterPause(s, c) && !InPod(s, c, p) {}
    forall c | c in s.nets ensures c in t.ctrs { assert ClusterPause(s, c); }
    FewerKeeps(s, t);
  }

  lemma CtrGoneKeeps(s: Store, c: Id)
    requires Inv(s) && Admissible(s, CtrGone(c))
    ensures Inv(Apply(s, CtrGone(c)))
  {
    var t := Apply(s, CtrGone(c));
    forall x ensures Accompanied(t, x) {
      assert Accompanied(s, x);
      if x in t.ctrs && ManagedPod(t, t.ctrs[x].pod) {
        var d :| IsPauseOf(s, d, s.ctrs[x].pod);
        assert InPod(s, x, s.ctrs[x].pod);
        assert IsPauseOf(t, d, t.ctrs[x].pod);
      }
    }
    forall a | a != c && AbbotCtr(s, a) ensures AbbotCtr(t, a) {}
    forall x | ClusterPause(t, x) ensures ClusterPause(s, x) && x != c {}
    forall x | x in s.nets ensures x in t.ctrs { assert ClusterPause(s, x); }
    FewerKeeps(s, t);
  }

  lemma PodChangeKeeps(s: Store, e: Event)
    requires (e.PodNew? || e.PodGone?) && Inv(s) && Admissible(s, e)
    ensures Inv(Apply(s, e))
  {
    var t := Apply(s, e);
    var uid := if e.PodNew? then e.labels[PodUid] else "";
    forall p ensures !PodOfUid(s, p, uid) {}
    forall p, q | SameUid(t, p, q) ensures p == q {
      var known := PodOfUid(s, p, uid) || PodOfUid(s, q, uid) || SameUid(s, p, q);
    }
    forall p ensures !PodOfUid(t, p, "") { assert !PodOfUid(s, p, ""); }
    forall c ensures CtrFits(t, c) {
      assert CtrFits(s, c);
      assert c in s.ctrs ==> InPod(s, c, s.ctrs[c].pod);
    }
    forall c, d | SameName(t, c, d) ensures c == d { assert CtrFits(s, c); assert SameName(s, c, d); }
    forall c ensures Accompanied(t, c) {
      assert CtrFits(s, c) && Accompanied(s, c);
      if c in t.ctrs && ManagedPod(t, t.ctrs[c].pod) {
        var d :| IsPauseOf(s, d, s.ctrs[c].pod);
        assert IsPauseOf(t, d, t.ctrs[c].pod);
      }
    }
    forall c | c in t.nets ensures ClusterPause(t, c) { assert ClusterPause(s, c); }
    forall a | AbbotCtr(s, a) ensures AbbotCtr(t, a) {}
    forall c | ClusterPause(t, c) ensures ClusterPause(s, c) {}
  }

  /** Network events and observations leave pods and containers as they are. */
  lemma NetChangeKeeps(s: Store, t: Store)
    requires Inv(s) && t.pods == s.pods && t.ctrs == s.ctrs && t.next == s.next
    requires NoLeakedNetwork(t)
    ensures Inv(t)
  {
    forall p, q | SameUid(t, p, q) ensures p == q { assert SameUid(s, p, q); }
    forall p ensures !PodOfUid(t, p, "") { assert !PodOfUid(s, p, ""); }
    forall c ensures CtrFits(t, c) { assert CtrFits(s, c); }
    forall c, d | SameName(t, c, d) ensures c == d { assert SameName(s, c, d); }
    forall c ensures Accompanied(t, c) {
      assert Accompanied(s, c);
      if c in t.ctrs && ManagedPod(t, t.ctrs[c].pod) {
        var d :| IsPauseOf(s, d, s.ctrs[c].pod);
        assert IsPauseOf(t, d, t.ctrs[c].pod);
      }
    }
    forall a | AbbotCtr(s, a) ensures AbbotCtr(t, a) {}
    forall c | ClusterPause(t, c) ensures ClusterPause(s, c) {}
  }

  /** Every admissible event keeps the invariant. */
  lemma StepKeeps(s: Store, e: Event)
    requires Inv(s) && Admissible(s, e)
    ensures Inv(Apply(s, e))
  {
    match e
    case PodNew(_, _, _) => PodChangeKeeps(s, e);
    case PodGone(_) => PodChangeKeeps(s, e);
    case CtrNew(_, _, _, _) => CtrNewKeeps(s, e);
    case CtrGone(c) => CtrGoneKeeps(s, c);
    case PodEmptied(p) => PodEmptiedKeeps(s, p);
    case NetUp(c) =>
      var t := Apply(s, e);
      forall x | x in t.nets ensures ClusterPause(t, x) { assert x != c ==> ClusterPause(s, x); }
      NetChangeKeeps(s, t);
    case NetDown(c) =>
      var t := Apply(s, e);
      forall x | x in t.nets ensures ClusterPause(t, x) { assert ClusterPause(s, x); }
      NetChangeKeeps(s, t);
    case _ =>
  }

  // ----- whole runs -----

  /** `m` is a moment of the run `h`. */
  predicate Moment(m: History, h: History) {
    m == h || (h.Then? && Moment(m, h.prev))
  }

  /** Safety over whole runs: the invariant holds at every moment of a legal run, not only at its end. */
  lemma {:induction false} SafeAtEveryMoment(s: Store, h: History, m: History)
    requires Inv(s) && Legal(s, h) && Moment(m, h)
    ensures Legal(s, m) && Inv(Replay(s, m))
  {
    if m != h {
      SafeAtEveryMoment(s, h.prev, m);
    } else if h.Then? {
      SafeAtEveryMoment(s, h.prev, h.prev);
      StepKeeps(Replay(s, h.prev), h.event);
    }
  }

  /** No leaked network, as a statement about runs: a container that was attached at one moment and is
      no longer stored at a later one was detached by a network delete in between. */
  lemma {:induction false} DetachedBeforeRemoved(s: Store, h: History, m: History, c: Id) returns (d: History)
    requires Inv(s) && Legal(s, h) && Moment(m, h)
    requires c in Replay(s, m).nets && c !in Replay(s, h).ctrs
    ensures d.Then? && d.event == NetDown(c) && Moment(d, h) && Moment(m, d.prev)
    decreases h
  {
    SafeAtEveryMoment(s, h, m);
    assert ClusterPause(Replay(s, m), c);
    var before := Replay(s, h.prev);
    SafeAtEveryMoment(s, h, h.prev);
    if h.event == NetDown(c) {
      d := h;
    } else if c in before.ctrs {
      // the last event took the container out, so it was not attached before that event
      assert InPod(before, c, before.ctrs[c].pod);
      d := DetachedWhileStored(s, h.prev, m, c);
    } else {
      d := DetachedBeforeRemoved(s, h.prev, m, c);
    }
  }

  lemma {:induction false} DetachedWhileStored(s: Store, h: History, m: History, c: Id) returns (d: History)
    requires Moment(m, h) && c in Replay(s, m).nets && c !in Replay(s, h).nets
    ensures d.Then? && d.event == NetDown(c) && Moment(d, h) && Moment(m, d.prev)
    decreases h
  {
    if c in Replay(s, h.prev).nets {
      d := h;
      MomentOfSelf(m, h);
    } else {
      d := DetachedWhileStored(s, h.prev, m, c);
    }
  }

  lemma {:induction false} MomentTrans(a: History, b: History, c: History)
    requires Moment(a, b) && Moment(b, c)
    ensures Moment(a, c)
    decreases c
  {
    if b != c {
      MomentTrans(a, b, c.prev);
    }
  }

  /** The history has grown from `base` to `h`. */
  predicate Extends(base: History, h: History) { h == base || (h.Then? && Extends(base, h.prev)) }

  lemma {:induction false} ExtendsIsMoment(base: History, h: History)
    requires Extends(base, h)
    ensures Moment(base, h)
    decreases h
  {
    if h != base {
      ExtendsIsMoment(base, h.prev);
    }
  }

  lemma {:induction false} CountsGrow(m: History, h: History)
    requires Moment(m, h)
    ensures Faults(m) <= Faults(h) && Losses(m) <= Losses(h)
  {
    if m != h {
      CountsGrow(m, h.prev);
    }
  }

  lemma MomentOfSelf(m: History, h: History)
    requires Moment(m, h) && m != h
    ensures Moment(m, h.prev)
  {
  }

  /** Emptying a pod is admissible exactly when it keeps the invariant: the guard is not stronger than needed. */
  lemma EmptyingIsExact(s: Store, p: Id)
    requires Inv(s)
    ensures Admissible(s, PodEmptied(p)) <==> Inv(Apply(s, PodEmptied(p)))
  {
    var t := Apply(s, PodEmptied(p));
    if Admissible(s, PodEmptied(p)) {
      PodEmptiedKeeps(s, p);
    } else if c :| c in s.nets && InPod(s, c, p) {
      assert !ClusterPause(t, c);
      assert c in t.nets;
    } else {
      var d :| !InPod(s, d, p) && ClusterPause(s, d);
      assert ClusterPause(t, d);
      forall a ensures !AbbotCtr(t, a) {
        assert AbbotCtr(t, a) ==> !InPod(s, a, p) && AbbotCtr(s, a);
      }
    }
  }

  // ----- stretches of a history -----

  datatype Kind = AbbotKind | LossyKind | UndoKind | SetupKind | CreateKind | CheckKind | RemoveKind | AwakeKind

  predicate IsAbbotEvent(e: Event) { e.Seen? || e.AbbotStarted? || e.Fault? }

  predicate IsUndoEvent(e: Event) {
    IsAbbotEvent(e) || e.NetDown? || (e.RemoveTry? && !e.blind) || e.PodEmptied? || e.PodGone?
  }

  /** Abbot events come from running a command in the abbot container, where lossy ones include a lost failure; undo
      events from taking a pod down, where nothing is created and only the abbot may be started; setup events from
      bringing a pod and its pause container up; create events from creating the other containers; check events from
      looking at them; remove events from the removal of one pod; awake events from starting the abbot at startup. */
  predicate IsKind(k: Kind, e: Event) {
    match k
    case AbbotKind => IsAbbotEvent(e)
    case LossyKind => IsAbbotEvent(e) || e.Lost?
    case UndoKind => IsUndoEvent(e)
    case SetupKind =>
      || IsUndoEvent(e) || e.Lost? || e.RemoveTry? || e.PodNew? || e.NetUp? || e.Started? || e.Unpaused? || e.Alive?
      || (e.CtrNew? && IsPauseContainer(e.labels))
    case CreateKind => e.CtrNew? || e.Mounted? || e.Fault?
    case CheckKind => e.Alive? || e.Seen? || e.Fault?
    case RemoveKind => e.PodEmptied? || e.PodGone? || e.Fault?
    case AwakeKind => e.Seen? || e.AbbotStarted? || e.Unpaused? || e.Fault?
  }

  /** Taking a pod down is undoing, unless the call can be cancelled: then failures can be lost. */
  function TakeKind(cancellable: bool): Kind { if cancellable then SetupKind else UndoKind }

  /** Only events of kind `k` lie between the moment `base` and the moment `h`. */
  predicate Since(k: Kind, base: History, h: History) {
    h == base || (h.Then? && IsKind(k, h.event) && Since(k, base, h.prev))
  }

  lemma {:induction false} SinceTrans(k: Kind, a: History, b: History, c: History)
    requires Since(k, a, b) && Since(k, b, c)
    ensures Since(k, a, c)
    decreases c
  {
    if c != b {
      SinceTrans(k, a, b, c.prev);
    }
  }

  /** What is not of the kind does not happen. */
  lemma {:induction false} CountSince(k: Kind, a: History, b: History, e: Event)
    requires Since(k, a, b) && !IsKind(k, e)
    ensures Count(e, b) == Count(e, a)
    decreases b
  {
    if b != a {
      CountSince(k, a, b.prev, e);
    }
  }

  lemma {:induction false} SinceWeaken(k: Kind, l: Kind, a: History, b: History)
    requires Since(k, a, b) && forall e :: IsKind(k, e) ==> IsKind(l, e)
    ensures Since(l, a, b)
    decreases b
  {
    if b != a {
      SinceWeaken(k, l, a, b.prev);
    }
  }

  // ----- whose containers are woken -----

  /** Whose containers a command may start, unpause, hook and wait for: those of one uid, or nobody's. */
  datatype Topic = About(uid: string) | Nobody | Anybody

  predicate PodIn(s: Store, topic: Topic, p: Id) {
    topic.Anybody? || (topic.About? && PodOfUid(s, p, topic.uid))
  }

  /** Container `c` sits in a pod of the topic. */
  predicate Wakeable(s: Store, topic: Topic, c: Id) {
    topic.Anybody? || (c in s.ctrs && PodIn(s, topic, s.ctrs[c].pod))
  }

  /** Only containers of the topic are woken; an abbot container may be started or unpaused besides. */
  predicate WakeOk(s: Store, topic: Topic, e: Event) {
    match e
    case Started(c) => Wakeable(s, topic, c)
    case Hooked(c) => Wakeable(s, topic, c)
    case Waited(c) => Wakeable(s, topic, c)
    case Unpaused(c) => Wakeable(s, topic, c) || AbbotCtr(s, c)
    case AbbotStarted(c) => AbbotCtr(s, c)
    case _ => true
  }

  /** Since `base` only containers of the topic were woken, and abbot containers. */
  predicate WakesOnly(s: Store, base: History, h: History, topic: Topic) {
    h == base || (h.Then? && WakeOk(Replay(s, h.prev), topic, h.event) && WakesOnly(s, base, h.prev, topic))
  }

  /** What this says about one event of the stretch. */
  lemma {:induction false} WokenAt(s: Store, base: History, h: History, topic: Topic, m: History)
    requires WakesOnly(s, base, h, topic) && Moment(m, h) && !Moment(m, base) && m.Then?
    ensures WakeOk(Replay(s, m.prev), topic, m.event)
    decreases h
  {
    if m != h {
      WokenAt(s, base, h.prev, topic, m);
    }
  }

  /** Ids are never used again. */
  lemma {:induction false} NextGrows(s: Store, h: History, m: History)
    requires Inv(s) && Legal(s, h) && Moment(m, h)
    ensures Replay(s, m).next <= Replay(s, h).next
  {
    if m != h {
      NextGrows(s, h.prev, m);
    }
  }

  /** A container keeps its record for as long as it is stored. */
  lemma {:induction false} CtrStays(s: Store, h: History, m: History, c: Id)
    requires Inv(s) && Legal(s, h) && Moment(m, h) && c in Replay(s, m).ctrs && c in Replay(s, h).ctrs
    ensures Replay(s, h).ctrs[c] == Replay(s, m).ctrs[c]
  {
    if m != h {
      SafeAtEveryMoment(s, h, m);
      NextGrows(s, h.prev, m);
      CtrStays(s, h.prev, m, c);
    }
  }

  /** So does a pod. */
  lemma {:induction false} PodStays(s: Store, h: History, m: History, p: Id)
    requires Inv(s) && Legal(s, h) && Moment(m, h) && p in Replay(s, m).pods && p in Replay(s, h).pods
    ensures Replay(s, h).pods[p] == Replay(s, m).pods[p]
  {
    if m != h {
      SafeAtEveryMoment(s, h, m);
      NextGrows(s, h.prev, m);
      PodStays(s, h.prev, m, p);
    }
  }

  // ----- what an operation leaves alone -----

  /** Outside the pods in `touched`, the two stores hold the same pods, containers and attachments. */
  ghost predicate SameOutside(s: Store, t: Store, touched: set<Id>) {
    && (forall p | p !in touched :: SamePod(s, t, p))
    && (forall c :: SameCtr(s, t, touched, c))
  }

  predicate SamePod(s: Store, t: Store, p: Id) {
    (p in s.pods <==> p in t.pods) && (p in s.pods ==> s.pods[p] == t.pods[p])
  }

  predicate SameCtr(s: Store, t: Store, touched: set<Id>, c: Id) {
    && (c in s.ctrs && s.ctrs[c].pod !in touched ==>
          c in t.ctrs && t.ctrs[c] == s.ctrs[c] && (c in s.nets <==> c in t.nets))
    && (c in t.ctrs && t.ctrs[c].pod !in touched ==> c in s.ctrs && s.ctrs[c] == t.ctrs[c])
  }

  lemma SameOutsideRefl(s: Store, touched: set<Id>)
    ensures SameOutside(s, s, touched)
  {
  }

  lemma SameOutsideTrans(s: Store, t: Store, u: Store, a: set<Id>, b: set<Id>)
    requires SameOutside(s, t, a) && SameOutside(t, u, b)
    ensures SameOutside(s, u, a + b)
  {
    forall p | p !in a + b ensures SamePod(s, u, p) { assert SamePod(s, t, p) && SamePod(t, u, p); }
    forall c ensures SameCtr(s, u, a + b, c) { assert SameCtr(s, t, a, c) && SameCtr(t, u, b, c); }
  }

  /** Every pod of `t` is a pod of `s`, unchanged. */
  ghost predicate NoNewPods(s: Store, t: Store) {
    forall p | p in t.pods :: p in s.pods && t.pods[p] == s.pods[p]
  }

  // ----- creating containers -----

  /** A container of a command may be created in a pod of its uid and name whose labels go with its own, if its
      name is free, and if a pause container for the cluster network comes after an abbot container. */
  lemma CreationAllowed(s: Store, cmd: EnsureCmd, p: Id, container: string)
    requires Inv(s) && ManagedPod(s, p) && Hosts(s.pods[p].labels, ContainerLabels(cmd, container))
    requires NameIn(s.pods[p].labels) == PodFullName(cmd)
    requires forall c | c in s.ctrs :: s.ctrs[c].name != FullName(cmd.namespace, cmd.name, container)
    requires container == PAUSE || HasPause(s, p)
    requires container == PAUSE && !IsHostNetwork(ContainerLabels(cmd, PAUSE)) ==> exists a :: AbbotCtr(s, a)
    ensures var name := FullName(cmd.namespace, cmd.name, container);
            Admissible(s, CtrNew(s.next, p, name, ContainerLabels(cmd, container)))
  {
    var labels := ContainerLabels(cmd, container);
    assert Read(labels, PodContainer) == container;
    forall d | InPod(s, d, p) ensures Read(s.ctrs[d].labels, PodContainer) != container {
      assert CtrFits(s, d);
    }
  }

  // ----- lookups by labels -----

  predicate CtrNamed(s: Store, c: Id, uid: string, name: string) {
    && c in s.ctrs && Managed(s.ctrs[c].labels) && s.ctrs[c].labels[PodUid] == uid
    && Read(s.ctrs[c].labels, PodContainer) == name
  }

  /** A container found by uid and name sits in the pod of that uid. */
  lemma NamedIsInPod(s: Store, c: Id, uid: string, name: string, p: Id)
    requires Inv(s) && PodOfUid(s, p, uid)
    ensures CtrNamed(s, c, uid, name) <==> InPod(s, c, p) && Read(s.ctrs[c].labels, PodContainer) == name
  {
    assert CtrFits(s, c);
    if CtrNamed(s, c, uid, name) {
      var q := s.ctrs[c].pod;
      assert SameUid(s, p, q);
    }
  }

  /** Without a pod of the uid there is no container of the uid. */
  lemma NoPodNoCtr(s: Store, c: Id, uid: string, name: string)
    requires Inv(s) && forall p :: !PodOfUid(s, p, uid)
    ensures !CtrNamed(s, c, uid, name)
  {
    assert CtrFits(s, c);
    if CtrNamed(s, c, uid, name) {
      assert PodOfUid(s, s.ctrs[c].pod, uid);
    }
  }
}
