/** Bringing a pod up: creating the pod and its pause container, creating and running its containers, and what a
    command promises about success, failure and order. */
module Ensuring {
  import opened Labels
  import opened PodStore
  import opened Status
  import opened Plan
  import opened Outcomes
  import opened Deletion

  /** `pod` is the new, empty pod of the command, whose labels tell the truth about the network and for
      which an abbot container is there when it is needed. */
  ghost predicate NewPodFor(s: Store, cmd: EnsureCmd, pod: PodRef) {
    && Live(s, pod) && pod.rec.labels == PodLabels(cmd) && (forall c :: !InPod(s, c, pod.id))
    && (HostNetwork in cmd.labels ==> cmd.hostNetwork)
    && (!cmd.hostNetwork ==> exists a :: AbbotCtr(s, a))
  }

  /** `pause` was just created in the pod of the command. */
  ghost predicate PauseNew(s: Store, cmd: EnsureCmd, pod: PodRef, pause: CtrRef) {
    && Live(s, pod) && LiveCtr(s, pause) && IsPauseOf(s, pause.id, pod.id) && pause.id !in s.nets
    && (forall c | InPod(s, c, pod.id) :: c == pause.id)
    && (cmd.hostNetwork || ClusterPause(s, pause.id))
  }

  lemma FreshPause(s: Store, t: Store, cmd: EnsureCmd, pod: PodRef, pause: CtrRef)
    requires Inv(s) && NewPodFor(s, cmd, pod)
    requires pause == NewCtr(s, cmd, pod, PauseSpec())
    requires t == Apply(s, CtrNew(s.next, pod.id, pause.rec.name, pause.rec.labels))
    ensures PauseNew(t, cmd, pod, pause) && SameOutside(s, t, {pod.id})
  {
    assert pause.id in s.nets ==> ClusterPause(s, pause.id);
    forall c | InPod(t, c, pod.id) ensures c == pause.id { assert !InPod(s, c, pod.id); }
  }

  lemma AttachOutside(s: Store, t: Store, p: Id, c: Id)
    requires InPod(s, c, p) && (t == s || t == Apply(s, NetUp(c)))
    ensures SameOutside(s, t, {p})
    ensures forall d | InPod(t, d, p) :: InPod(s, d, p)
  {
  }

  /** The pause container of a new pod may be created in it. */
  lemma PauseAllowed(s: Store, cmd: EnsureCmd, pod: PodRef)
    requires Inv(s) && NewPodFor(s, cmd, pod)
    requires forall c | c in s.ctrs :: s.ctrs[c].name != FullName(cmd.namespace, cmd.name, PAUSE)
    ensures var c := NewCtr(s, cmd, pod, PauseSpec()); Admissible(s, CtrNew(c.id, pod.id, c.rec.name, c.rec.labels))
  {
    OwnPodSuits(cmd);
    CreationAllowed(s, cmd, pod.id, PAUSE);
  }

  /** The new pause container of a command is one that the command may wake. */
  lemma PauseTopic(s: Store, t: Store, cmd: EnsureCmd, pod: PodRef, pause: CtrRef)
    requires Live(s, pod) && pod.rec.labels == PodLabels(cmd) && pause == NewCtr(s, cmd, pod, PauseSpec())
    requires t == Apply(s, CtrNew(pause.id, pod.id, pause.rec.name, pause.rec.labels))
    ensures PodIn(t, TopicOf(cmd), pod.id) && Wakeable(t, TopicOf(cmd), pause.id)
  {
    OwnPodSuits(cmd);
  }

  lemma AttachKeepsTopic(s: Store, t: Store, topic: Topic, c: Id, p: Id)
    requires t == s || t == Apply(s, NetUp(c))
    ensures Wakeable(s, topic, c) ==> Wakeable(t, topic, c)
    ensures PodIn(s, topic, p) ==> PodIn(t, topic, p)
  {
  }

  /** `pause` is the only container of the pod of the command, attached unless the pod is on the host network. This
      is certain only if no failure of the network setup was lost. */
  ghost predicate PauseUp(s: Store, cmd: EnsureCmd, pod: PodRef, pause: CtrRef, certain: bool) {
    && Live(s, pod) && LiveCtr(s, pause) && IsPauseOf(s, pause.id, pod.id)
    && (forall c | InPod(s, c, pod.id) :: c == pause.id)
    && (certain ==> (pause.id in s.nets <==> !cmd.hostNetwork))
  }

  /** Attaching the new pause container, or leaving it on the host network, brings it up. */
  lemma PauseComesUp(s: Store, t: Store, cmd: EnsureCmd, pod: PodRef, pause: CtrRef, certain: bool)
    requires PauseNew(s, cmd, pod, pause) && (t == s || t == Apply(s, NetUp(pause.id)))
    requires certain ==> t == if cmd.hostNetwork then s else Apply(s, NetUp(pause.id))
    ensures PauseUp(t, cmd, pod, pause, certain)
  {
    AttachOutside(s, t, pod.id, pause.id);
  }

  /** A command that names its pod truthfully: it has a uid; if the pod is yet to be created, its labels do not claim
      the host network without asking for it; and a stored pod of its uid can take its containers. */
  ghost predicate CmdOk(s: Store, cmd: EnsureCmd) {
    && cmd.uid != ""
    && (NoPodOf(s, cmd.uid) && HostNetwork in cmd.labels ==> cmd.hostNetwork)
    && forall p | PodOfUid(s, p, cmd.uid) :: Suits(cmd, s.pods[p].labels)
  }

  /** What is left of a uid after a failed command: nothing, or a pod that no attempt took down and the
      last attempt says why. */
  ghost predicate LeftOver(t: Store, uid: string, undo: seq<DeleteOutcome>, clean: bool) {
    forall p | PodOfUid(t, p, uid) ::
      undo != [] && Deleted !in undo && Remains(undo[|undo| - 1], t, PodRef(p, t.pods[p]), clean)
  }

  /** Deleting the previous pod of the name touches no pod of the uid and no orphan. */
  lemma PrevPodGone(s: Store, t: Store, prev: PodRef, uid: string)
    requires Live(s, prev) && SameOutside(s, t, {prev.id}) && (prev.id in t.pods ==> Live(t, prev))
    requires NoPodOf(s, uid) && (Orphan(s, prev.id) ==> t == s)
    ensures NoPodOf(t, uid) && OrphansKept(s, t)
  {
    forall p ensures !PodOfUid(t, p, uid) {
      assert p != prev.id ==> SamePod(s, t, p);
      assert !PodOfUid(s, p, uid);
    }
    if !Orphan(s, prev.id) {
      OrphansOutside(s, t, {prev.id});
    }
  }

  /** Nothing stands in the way of creating the pod of the command. */
  ghost predicate WayIsClear(s: Store, cmd: EnsureCmd) {
    && NoPodOf(s, cmd.uid) && cmd.uid != "" && (HostNetwork in cmd.labels ==> cmd.hostNetwork)
    && (!cmd.hostNetwork ==> exists a :: AbbotCtr(s, a))
  }

  /** Every pod of `t` is an unchanged pod of `s` or carries the labels of the command. */
  ghost predicate PodsOf(s: Store, t: Store, cmd: EnsureCmd) {
    forall p | p in t.pods :: (p in s.pods && t.pods[p] == s.pods[p]) || t.pods[p].labels == PodLabels(cmd)
  }

  /** No orphan holds the pod name of the command. */
  ghost predicate NameFree(s: Store, cmd: EnsureCmd) {
    forall p | Orphan(s, p) :: s.pods[p].name != PodFullName(cmd)
  }

  /** `touched` holds new pods and previous pods of the command's name only. */
  ghost predicate OnlyNamed(s: Store, touched: set<Id>, cmd: EnsureCmd) {
    forall p | p in touched :: p >= s.next || (p in s.pods && s.pods[p].name == PodFullName(cmd))
  }

  lemma FreshPod(s: Store, cmd: EnsureCmd)
    requires Inv(s) && WayIsClear(s, cmd)
    ensures var e := PodNew(s.next, PodFullName(cmd), PodLabels(cmd)); var u := Apply(s, e);
            && Admissible(s, e)
            && NewPodFor(u, cmd, PodRef(s.next, PodRec(e.name, e.labels)))
            && SameOutside(s, u, {s.next})
            && (forall p | PodOfUid(u, p, cmd.uid) :: p == s.next)
  {
    var u := Apply(s, PodNew(s.next, PodFullName(cmd), PodLabels(cmd)));
    forall c ensures !InPod(u, c, s.next) { assert CtrFits(s, c); }
    forall p | PodOfUid(u, p, cmd.uid) ensures p == s.next { assert !PodOfUid(s, p, cmd.uid); }
    forall a | AbbotCtr(s, a) ensures AbbotCtr(u, a) {}
  }

  /** Nothing that the code checks before it creates the pod of a command is in the way: the uid and both names
      are free, and there is an abbot container for the cluster network. */
  ghost predicate Creatable(s: Store, cmd: EnsureCmd) {
    && cmd.uid != "" && NoPodOf(s, cmd.uid) && NoNamesake(s, cmd)
    && (forall p | p in s.pods :: s.pods[p].name != FullName(cmd.namespace, cmd.name, PAUSE))
    && (forall c | c in s.ctrs :: s.ctrs[c].name != PodFullName(cmd))
    && (forall c | c in s.ctrs :: s.ctrs[c].name != FullName(cmd.namespace, cmd.name, PAUSE))
    && (!cmd.hostNetwork ==> exists a :: AbbotCtr(s, a))
  }

  /** Creating the pod of a command whose labels tell the truth about the network keeps the invariant. */
  lemma PodMadeKeeps(s: Store, cmd: EnsureCmd)
    requires Inv(s) && Creatable(s, cmd) && (HostNetwork in cmd.labels ==> cmd.hostNetwork)
    ensures Inv(PodMade(s, cmd))
  {
    var pod := NewPodRef(s, cmd);
    var e := PodNew(s.next, PodFullName(cmd), PodLabels(cmd));
    FreshPod(s, cmd);
    StepKeeps(s, e);
    var t := Apply(s, e);
    var pause := NewCtr(t, cmd, pod, PauseSpec());
    OwnPodSuits(cmd);
    CreationAllowed(t, cmd, pod.id, PAUSE);
    StepKeeps(t, CtrNew(pause.id, pod.id, pause.rec.name, pause.rec.labels));
    var u := Apply(t, CtrNew(pause.id, pod.id, pause.rec.name, pause.rec.labels));
    FreshPause(t, u, cmd, pod, pause);
    if !cmd.hostNetwork {
      StepKeeps(u, NetUp(pause.id));
    }
  }

  /** If one pod has the uid, what is left of the uid after its rollback is what is left of that pod. */
  lemma OnlyPodOf(u: Store, t: Store, pod: PodRef, uid: string, undo: seq<DeleteOutcome>, clean: bool)
    requires SameOutside(u, t, {pod.id}) && RolledBack(t, pod, undo, clean)
    requires forall p | PodOfUid(u, p, uid) :: p == pod.id
    ensures LeftOver(t, uid, undo, clean)
  {
    forall p | PodOfUid(t, p, uid) ensures p == pod.id {
      if p != pod.id {
        assert SamePod(u, t, p);
        assert PodOfUid(u, p, uid);
      }
    }
  }

  /** What is done in a new pod touches nothing else, and what is left after a rollback is what is left of that pod. */
  lemma NewPodFrame(s: Store, u: Store, t: Store, pod: PodRef, uid: string, r: PauseOutcome, clean: bool)
    requires Inv(s) && pod.id == s.next && SameOutside(s, u, {pod.id}) && SameOutside(u, t, {pod.id})
    requires forall p | PodOfUid(u, p, uid) :: p == pod.id
    requires r.PauseFailed? ==> RolledBack(t, pod, r.undo, clean)
    ensures SameOutside(s, t, {pod.id}) && OrphansKept(s, t)
    ensures r.PauseFailed? ==> LeftOver(t, uid, r.undo, clean)
  {
    SameOutsideTrans(s, u, t, {pod.id}, {pod.id});
    assert {pod.id} + {pod.id} == {pod.id};
    OrphansOutside(s, t, {pod.id});
    if r.PauseFailed? {
      OnlyPodOf(u, t, pod, uid, r.undo, clean);
    }
  }

  /** What bringing the pause container of a pod up comes to: it is up, or something is to blame and the pod was rolled
      back. Nothing outside the pod is touched. */
  ghost predicate PauseWork(s: Store, u: Store, cmd: EnsureCmd, pod: PodRef,
                            r: PauseOutcome, stop: History, clean: bool, certain: bool) {
    && SameOutside(s, u, {pod.id}) && s.next <= u.next
    && match r
       case PauseReady(_, pause) => PauseUp(u, cmd, pod, pause, certain)
       case PauseFailed(stage, undo) => EventToBlame(stage, stop) && RolledBack(u, pod, undo, clean)
  }

  /** A new pause container that came up. */
  lemma PauseWorkDone(s: Store, t: Store, cmd: EnsureCmd, pod: PodRef, pause: CtrRef,
                      stop: History, clean: bool, certain: bool)
    requires PauseNew(s, cmd, pod, pause) && (t == s || t == Apply(s, NetUp(pause.id)))
    requires certain ==> t == if cmd.hostNetwork then s else Apply(s, NetUp(pause.id))
    ensures PauseWork(s, t, cmd, pod, PauseReady(pod, pause), stop, clean, certain)
  {
    AttachOutside(s, t, pod.id, pause.id);
    PauseComesUp(s, t, cmd, pod, pause, certain);
  }

  /** A pause container that could not be created, after the rollback. */
  lemma PauseWorkRefused(s: Store, u: Store, cmd: EnsureCmd, pod: PodRef,
                         stage: Stage, undo: DeleteOutcome, stop: History, clean: bool, certain: bool)
    requires SameOutside(s, u, {pod.id}) && s.next == u.next && EndsWithFault(stop) && RolledBack(u, pod, [undo], clean)
    ensures PauseWork(s, u, cmd, pod, PauseFailed(stage, [undo]), stop, clean, certain)
  {
  }

  /** A new pause container that did not come up, after the rollback. */
  lemma PauseWorkUndone(s: Store, t: Store, u: Store, cmd: EnsureCmd, pod: PodRef, pause: CtrRef,
                        stage: Stage, undo: seq<DeleteOutcome>, stop: History, clean: bool, certain: bool)
    requires PauseNew(s, cmd, pod, pause) && (t == s || t == Apply(s, NetUp(pause.id)))
    requires SameOutside(t, u, {pod.id}) && t.next == u.next
    requires EventToBlame(stage, stop) && RolledBack(u, pod, undo, clean)
    ensures PauseWork(s, u, cmd, pod, PauseFailed(stage, undo), stop, clean, certain)
  {
    AttachOutside(s, t, pod.id, pause.id);
    SameOutsideTrans(s, t, u, {pod.id}, {pod.id});
    assert {pod.id} + {pod.id} == {pod.id};
  }

  lemma PauseWorkAfter(s: Store, t: Store, u: Store, cmd: EnsureCmd, pod: PodRef,
                       r: PauseOutcome, stop: History, clean: bool, certain: bool)
    requires SameOutside(s, t, {pod.id}) && s.next <= t.next && PauseWork(t, u, cmd, pod, r, stop, clean, certain)
    ensures PauseWork(s, u, cmd, pod, r, stop, clean, certain)
  {
    SameOutsideTrans(s, t, u, {pod.id}, {pod.id});
    assert {pod.id} + {pod.id} == {pod.id};
  }

  /** What creating a pod with its pause container comes to. */
  ghost predicate PodWork(s: Store, u: Store, cmd: EnsureCmd, id: Id,
                          r: PauseOutcome, stop: History, clean: bool, certain: bool) {
    && SameOutside(s, u, {id}) && id == s.next <= u.next && OrphansKept(s, u)
    && match r
       case PauseReady(pod, pause) => PauseUp(u, cmd, pod, pause, certain)
       case PauseFailed(stage, undo) => EventToBlame(stage, stop) && LeftOver(u, cmd.uid, undo, clean)
  }

  lemma PodWorkFrom(s: Store, t: Store, u: Store, cmd: EnsureCmd, pod: PodRef,
                    r: PauseOutcome, stop: History, clean: bool, certain: bool)
    requires Inv(s) && pod.id == s.next < t.next && SameOutside(s, t, {pod.id})
    requires PauseWork(t, u, cmd, pod, r, stop, clean, certain) && (r.PauseReady? ==> r.pod == pod)
    requires forall p | PodOfUid(t, p, cmd.uid) :: p == pod.id
    ensures PodWork(s, u, cmd, pod.id, r, stop, clean, certain)
  {
    NewPodFrame(s, t, u, pod, cmd.uid, r, clean);
  }

  /** The pod could not be created, and nothing was done. */
  lemma PodWorkRefused(s: Store, cmd: EnsureCmd, stop: History, clean: bool, certain: bool)
    requires NoPodOf(s, cmd.uid) && EndsWithFault(stop)
    ensures PodWork(s, s, cmd, s.next, PauseFailed(NewPodStage, []), stop, clean, certain)
  {
    SameOutsideRefl(s, {});
    SameOutsideRefl(s, {s.next});
    OrphansOutside(s, s, {});
  }

  /** What the whole creation comes to, the deletion of a previous pod of the name included. */
  ghost predicate CreateWork(s: Store, u: Store, cmd: EnsureCmd, touched: set<Id>,
                             r: PauseOutcome, stop: History, clean: bool, certain: bool) {
    && SameOutside(s, u, touched) && s.next <= u.next && OnlyNamed(s, touched, cmd) && OrphansKept(s, u)
    && match r
       case PauseReady(pod, pause) => PauseUp(u, cmd, pod, pause, certain) && pod.id in touched && NameFree(s, cmd)
       case PauseFailed(stage, undo) => Blamed(s, u, cmd, stage, stop) && LeftOver(u, cmd.uid, undo, clean)
  }

  /** `touched` holds only stored pods with the name of the command. */
  ghost predicate Namesakes(s: Store, touched: set<Id>, cmd: EnsureCmd) {
    forall p | p in touched :: p in s.pods && s.pods[p].name == PodFullName(cmd)
  }

  lemma CreateWorkFrom(s: Store, t: Store, u: Store, cmd: EnsureCmd, touched: set<Id>, id: Id,
                       r: PauseOutcome, stop: History, clean: bool, certain: bool)
    requires SameOutside(s, t, touched) && s.next == t.next && OrphansKept(s, t) && Namesakes(s, touched, cmd)
    requires PodWork(t, u, cmd, id, r, stop, clean, certain)
    requires r.PauseReady? ==> NoNamesake(t, cmd) && r.pod.id == id
    ensures CreateWork(s, u, cmd, touched + {id}, r, stop, clean, certain)
  {
    SameOutsideTrans(s, t, u, touched, {id});
  }

  /** The last thing that happened is that container `c` was seen running, or seen in a state from which it can be
      started or unpaused and then started or unpaused. */
  predicate BroughtUp(h: History, c: Id) {
    && h.Then?
    && (|| h.event == Seen(c, Running)
        || (h.event == Unpaused(c) && h.prev.Then? && h.prev.event == Seen(c, Paused))
        || (&& h.event == Started(c) && h.prev.Then? && h.prev.event.Seen? && h.prev.event.ctr == c
            && h.prev.event.state in {Configured, Created, Stopped, Exited}))
  }

  /** The last two events are the start of container `c` and the check that it has not exited. */
  predicate StartedAlive(h: History, c: Id) {
    h.Then? && h.event == Alive(c) && h.prev.Then? && h.prev.event == Started(c)
  }

  /** A new pause container came up: it was started and found alive, and only then was its network set up. */
  ghost predicate CameUp(cmd: EnsureCmd, h: History, c: Id) {
    if cmd.hostNetwork then StartedAlive(h, c)
    else h.Then? && h.event == NetUp(c) && exists m :: StartedAlive(m, c) && Since(AbbotKind, m, h.prev)
  }

  /** The containers that a command may wake: those of its uid. */
  function TopicOf(cmd: EnsureCmd): Topic { if cmd.uid == "" then Anybody else About(cmd.uid) }

  /** The pod can take the containers of the command and has a pause container. */
  ghost predicate PodReady(s: Store, cmd: EnsureCmd, pod: PodRef) {
    ManagedPod(s, pod.id) && Suits(cmd, s.pods[pod.id].labels) && HasPause(s, pod.id)
  }

  function PauseSpec(): CtrSpec { CtrSpec(PAUSE, false, {}) }

  /** The store after the pause container of the command was created in `pod` and brought up. */
  function PauseMade(s: Store, cmd: EnsureCmd, pod: PodRef): Store {
    var pause := NewCtr(s, cmd, pod, PauseSpec());
    var made := Apply(s, CtrNew(pause.id, pod.id, pause.rec.name, pause.rec.labels));
    if cmd.hostNetwork then made else Apply(made, NetUp(pause.id))
  }

  function NewPodRef(s: Store, cmd: EnsureCmd): PodRef { PodRef(s.next, PodRec(PodFullName(cmd), PodLabels(cmd))) }

  /** The store after the pod of the command was created with its pause container. */
  function PodMade(s: Store, cmd: EnsureCmd): Store {
    PauseMade(Apply(s, PodNew(s.next, PodFullName(cmd), PodLabels(cmd))), cmd, NewPodRef(s, cmd))
  }

  ghost predicate NoNamesake(s: Store, cmd: EnsureCmd) {
    forall p | p in s.pods :: s.pods[p].name != PodFullName(cmd)
  }

  /** A previous pod with the name of the command was deleted. */
  ghost predicate NamesakeGone(s: Store, t: Store, cmd: EnsureCmd, p: Id) {
    p in s.pods && s.pods[p].name == PodFullName(cmd) && Gone(s, t, PodRef(p, s.pods[p]))
  }

  /** The name of the command is free in `t`, because it was free or because its holder was deleted. */
  ghost predicate Cleared(s: Store, t: Store, cmd: EnsureCmd) {
    NoNamesake(t, cmd) && (t == s || exists p :: NamesakeGone(s, t, cmd, p))
  }

  /** How the store came to have the pod of the command with its pause container: it had them, or they were created. */
  ghost predicate ReadiedFrom(s: Store, t: Store, cmd: EnsureCmd, pod: PodRef, pause: CtrRef) {
    if !NoPodOf(s, cmd.uid) then
      && t == s && Live(s, pod) && PodOfUid(s, pod.id, cmd.uid)
      && LiveCtr(s, pause) && CtrNamed(s, pause.id, cmd.uid, PAUSE)
    else exists m :: Cleared(s, m, cmd) && t == PodMade(m, cmd) && pod == NewPodRef(m, cmd) && pause.id == m.next + 1
  }

  /** What a successful command leaves, in a good store or not: its containers in the stored pod of its uid, or in a pod
      of its own. */
  ghost predicate EnsuredStore(s: Store, u: Store, cmd: EnsureCmd, pod: PodRef, pause: CtrRef) {
    exists t :: ReadiedFrom(s, t, cmd, pod, pause) && u == Grow(t, cmd, pod, |cmd.containers|)
  }

  /** The pause container of a successful command is attached if the pod was created for the cluster network, and as
      it was before if the pod was there. */
  ghost predicate NetworkOf(s: Store, t: Store, cmd: EnsureCmd, pause: CtrRef) {
    pause.id in t.nets <==> if NoPodOf(s, cmd.uid) then !cmd.hostNetwork else pause.id in s.nets
  }

  function NewCtr(s: Store, cmd: EnsureCmd, pod: PodRef, spec: CtrSpec): CtrRef {
    CtrRef(s.next, CtrRec(pod.id, FullName(cmd.namespace, cmd.name, spec.name), ContainerLabels(cmd, spec.name)))
  }

  function WithCtr(s: Store, c: CtrRef): Store { s.(ctrs := s.ctrs[c.id := c.rec], next := c.id + 1) }

  /** Between two moments each of the volumes was mounted once for the uid, and nothing else was mounted. */
  ghost predicate MountedOnce(a: History, b: History, uid: string, volumes: set<string>) {
    forall u, v ::
      Count(Mounted(u, v), b) == Count(Mounted(u, v), a) + (if u == uid && v in volumes then 1 else 0)
  }

  /** In a ready pod the name of the pause container is taken. */
  lemma PauseNameTaken(s: Store, cmd: EnsureCmd, pod: PodRef)
    requires Inv(s) && PodReady(s, cmd, pod)
    ensures exists c :: c in s.ctrs && s.ctrs[c].name == FullName(cmd.namespace, cmd.name, PAUSE)
  {
    var c :| IsPauseOf(s, c, pod.id);
    assert CtrFits(s, c);
    assert c in s.ctrs && s.ctrs[c].name == FullName(cmd.namespace, cmd.name, PAUSE);
  }

  lemma SpecAllowed(s: Store, cmd: EnsureCmd, pod: PodRef, spec: CtrSpec)
    requires Inv(s) && PodReady(s, cmd, pod) && spec in cmd.containers
    requires forall c | c in s.ctrs :: s.ctrs[c].name != FullName(cmd.namespace, cmd.name, spec.name)
    ensures var c := NewCtr(s, cmd, pod, spec); Admissible(s, CtrNew(c.id, pod.id, c.rec.name, c.rec.labels))
  {
    PauseNameTaken(s, cmd, pod);
    HostsCtr(cmd, s.pods[pod.id].labels, spec.name);
    CreationAllowed(s, cmd, pod.id, spec.name);
  }

  /** `c` is the stored container of the `i`th spec of the command. */
  predicate CtrOfSpec(s: Store, cmd: EnsureCmd, pod: PodRef, c: CtrRef, i: nat)
    requires i < |cmd.containers|
  {
    var name := cmd.containers[i].name;
    LiveCtr(s, c) && c.rec == CtrRec(pod.id, FullName(cmd.namespace, cmd.name, name), ContainerLabels(cmd, name))
  }

  /** The store after the containers of the first `n` specs were created in `pod`. */
  function Grow(s: Store, cmd: EnsureCmd, pod: PodRef, n: nat): Store
    requires n <= |cmd.containers|
  {
    if n == 0 then s
    else var t := Grow(s, cmd, pod, n - 1); WithCtr(t, NewCtr(t, cmd, pod, cmd.containers[n - 1]))
  }

  /** One new container for each of the first `n` specs, in the order of the specs. */
  function NewCtrs(s: Store, cmd: EnsureCmd, pod: PodRef, n: nat): seq<CtrRef>
    requires n <= |cmd.containers|
  {
    seq(n, i requires 0 <= i < n => NewCtr(s.(next := s.next + i), cmd, pod, cmd.containers[i]))
  }

  /** The containers belong to the first specs of the command, in the order of the specs and of their creation. */
  ghost predicate OfSpecs(cmd: EnsureCmd, ctrs: seq<CtrRef>) {
    && |ctrs| <= |cmd.containers|
    && (forall i | 0 <= i < |ctrs| :: ctrs[i].rec.labels == ContainerLabels(cmd, cmd.containers[i].name))
    && (forall i, j | 0 <= i < j < |ctrs| :: ctrs[i].id < ctrs[j].id)
  }

  lemma NewCtrsOfSpecs(s: Store, cmd: EnsureCmd, pod: PodRef, n: nat)
    requires n <= |cmd.containers|
    ensures OfSpecs(cmd, NewCtrs(s, cmd, pod, n))
  {
  }

  lemma {:induction false} GrowFrame(s: Store, cmd: EnsureCmd, pod: PodRef, n: nat)
    requires n <= |cmd.containers|
    ensures var t := Grow(s, cmd, pod, n); t.next == s.next + n && t.pods == s.pods && t.nets == s.nets
  {
    if n > 0 {
      GrowFrame(s, cmd, pod, n - 1);
    }
  }

  /** One more container. */
  lemma GrowStep(s: Store, cmd: EnsureCmd, pod: PodRef, n: nat)
    requires n < |cmd.containers|
    ensures var t := Grow(s, cmd, pod, n); var c := NewCtr(t, cmd, pod, cmd.containers[n]);
            && Grow(s, cmd, pod, n + 1) == WithCtr(t, c)
            && NewCtrs(s, cmd, pod, n + 1) == NewCtrs(s, cmd, pod, n) + [c]
  {
    GrowFrame(s, cmd, pod, n);
  }

  /** What was stored stays, and what is new has a new id. */
  lemma {:induction false} GrowOld(s: Store, cmd: EnsureCmd, pod: PodRef, n: nat)
    requires n <= |cmd.containers| && forall c | c in s.ctrs :: c < s.next
    ensures var t := Grow(s, cmd, pod, n);
            && (forall c | c in s.ctrs :: c in t.ctrs && t.ctrs[c] == s.ctrs[c])
            && (forall c | c in t.ctrs :: c in s.ctrs || s.next <= c < s.next + n)
  {
    GrowFrame(s, cmd, pod, n);
    if n > 0 {
      GrowFrame(s, cmd, pod, n - 1);
      GrowOld(s, cmd, pod, n - 1);
    }
  }

  /** The container of the `i`th spec is stored. */
  lemma {:induction false} GrowNew(s: Store, cmd: EnsureCmd, pod: PodRef, n: nat, i: nat)
    requires i < n <= |cmd.containers|
    ensures CtrOfSpec(Grow(s, cmd, pod, n), cmd, pod, NewCtr(s.(next := s.next + i), cmd, pod, cmd.containers[i]), i)
  {
    GrowFrame(s, cmd, pod, n - 1);
    if i < n - 1 {
      GrowNew(s, cmd, pod, n - 1, i);
    }
  }

  /** The new containers are stored and are the only difference. */
  lemma GrowFacts(s: Store, cmd: EnsureCmd, pod: PodRef, n: nat)
    requires n <= |cmd.containers| && forall c | c in s.ctrs :: c < s.next
    ensures var t := Grow(s, cmd, pod, n);
            && t.pods == s.pods && t.nets == s.nets && t.next == s.next + n
            && (forall c | c in s.ctrs :: c in t.ctrs && t.ctrs[c] == s.ctrs[c])
            && (forall i | 0 <= i < n :: CtrOfSpec(t, cmd, pod, NewCtrs(s, cmd, pod, n)[i], i))
            && (forall i | 0 <= i < n :: NewCtrs(s, cmd, pod, n)[i].id == s.next + i)
            && (forall c | c in t.ctrs :: c in s.ctrs || s.next <= c < s.next + n)
  {
    GrowFrame(s, cmd, pod, n);
    GrowOld(s, cmd, pod, n);
    forall i | 0 <= i < n ensures CtrOfSpec(Grow(s, cmd, pod, n), cmd, pod, NewCtrs(s, cmd, pod, n)[i], i) {
      GrowNew(s, cmd, pod, n, i);
    }
  }

  /** The new containers may be woken like the pod that they are in. */
  lemma GrowWakeable(s: Store, cmd: EnsureCmd, pod: PodRef, n: nat, topic: Topic)
    requires n <= |cmd.containers| && PodIn(s, topic, pod.id)
    ensures PodIn(Grow(s, cmd, pod, n), topic, pod.id)
    ensures forall i | 0 <= i < n :: Wakeable(Grow(s, cmd, pod, n), topic, NewCtrs(s, cmd, pod, n)[i].id)
  {
    GrowFrame(s, cmd, pod, n);
    forall i | 0 <= i < n ensures Wakeable(Grow(s, cmd, pod, n), topic, NewCtrs(s, cmd, pod, n)[i].id) {
      GrowNew(s, cmd, pod, n, i);
    }
  }

  /** Creating containers in a pod touches only that pod and keeps it ready. */
  lemma GrowKeeps(s: Store, cmd: EnsureCmd, pod: PodRef, n: nat)
    requires n <= |cmd.containers| && forall c | c in s.ctrs :: c < s.next
    ensures SameOutside(s, Grow(s, cmd, pod, n), {pod.id})
    ensures PodReady(s, cmd, pod) ==> PodReady(Grow(s, cmd, pod, n), cmd, pod)
  {
    GrowFacts(s, cmd, pod, n);
    var t := Grow(s, cmd, pod, n);
    forall c: Id ensures SameCtr(s, t, {pod.id}, c) {
      if c in t.ctrs && c !in s.ctrs {
        assert s.next <= c < s.next + n;
        assert CtrOfSpec(t, cmd, pod, NewCtrs(s, cmd, pod, n)[c - s.next], c - s.next);
      }
    }
    if PodReady(s, cmd, pod) {
      var c :| IsPauseOf(s, c, pod.id);
      assert IsPauseOf(t, c, pod.id);
    }
  }

  /** The run stopped with a fault at a moment between `base` and the end of `all`. */
  ghost predicate StoppedWithin(base: History, h: History, all: History) {
    h.Then? && h.event.Fault? && Moment(base, h.prev) && Moment(h.prev, all) && h.prev != all
  }

  /** `m` lies inside a block, before its end. */
  predicate BlockPart(h: History, c: Id, hook: bool, wait: bool, m: History) {
    || m == h
    || (m == Then(h, Started(c)) && (hook || wait))
    || (m == Then(Then(h, Started(c)), Hooked(c)) && hook && wait)
  }

  /** Every moment inside a block but its end lies strictly within any run that completes the block. */
  lemma BlockStops(base: History, h: History, c: Id, hook: bool, wait: bool, m: History, all: History)
    requires Moment(base, h) && Moment(Block(h, c, hook, wait), all)
    requires BlockPart(h, c, hook, wait, m)
    ensures Moment(base, m) && Moment(m, all) && m != all
  {
    var b := Block(h, c, hook, wait);
    var started := Then(h, Started(c));
    var hooked := if hook then Then(started, Hooked(c)) else started;
    assert Moment(h, started) && Moment(started, hooked) && Moment(hooked, b);
    MomentTrans(h, started, hooked);
    MomentTrans(m, hooked, b);
    MomentTrans(m, b, all);
    MomentTrans(base, h, started);
    MomentIsShorter(b, all);
    assert Length(started) == Length(h) + 1 && Length(hooked) == Length(started) + if hook then 1 else 0;
    assert Length(b) == Length(hooked) + if wait then 1 else 0;
  }

  /** The created containers were started, hooked and waited for as planned, and then seen alive. */
  ghost predicate RanInOrder(base: History, h: History, ran: History, cmd: EnsureCmd, ctrs: seq<CtrRef>) {
    && |ctrs| == |cmd.containers|
    && ran == Planned(base, ctrs, cmd.containers, cmd.wait, |ctrs|)
    && h == if cmd.wait then ran else AllAlive(ran, ctrs, |ctrs|)
  }

  /** The run of the created containers stopped inside the plan, or after it in the checks. */
  ghost predicate RunStopped(base: History, h: History, ran: History, cmd: EnsureCmd, ctrs: seq<CtrRef>, stage: Stage) {
    && |ctrs| == |cmd.containers|
    && var all := Planned(base, ctrs, cmd.containers, cmd.wait, |ctrs|);
       if stage == CtrRun then StoppedWithin(base, h, all)
       else (stage == CtrExit || stage == StatusStage) && ran == all && Since(CheckKind, ran, h)
  }

  /** A completed command: setup, then all creations, then the planned starts, hooks and waits, then the checks. */
  ghost predicate DoneInOrder(base: History, h: History, w: Phases, cmd: EnsureCmd, pause: CtrRef) {
    && Since(SetupKind, base, w.ready) && BroughtUp(w.ready, pause.id)
    && Since(CreateKind, w.ready, w.created)
    && OfSpecs(cmd, w.ctrs) && RanInOrder(w.created, h, w.ran, cmd, w.ctrs)
  }

  /** A failed command: the phases before the failing one are complete and nothing of a later one has happened. */
  ghost predicate StoppedInOrder(base: History, h: History, w: Phases, cmd: EnsureCmd, stage: Stage) {
    && OfSpecs(cmd, w.ctrs) && Since(SetupKind, base, w.ready)
    && if stage == PauseState then h == w.ready
       else
         && Since(CreateKind, w.ready, w.created)
         && if stage == CtrCreate then h == w.created
            else RunStopped(w.created, h, w.ran, cmd, w.ctrs, stage)
  }

  /** The event at the end of `h` is the reason for a failure in this stage: a client call failed, or a container was
      seen in a state that does not do. */
  predicate EventToBlame(stage: Stage, h: History) {
    || EndsWithFault(h)
    || (stage == NetworkSetup && h.Then? && h.event.NetUp? && EndsWithFault(h.prev))
    || ((stage == PauseExit || stage == CtrExit) && h.Then? && h.event.Seen? && h.event.state == Exited)
    || (stage == PauseState && h.Then? && h.event.Seen? && h.event.state in {Unknown, Removing, Invalid})
  }

  /** What was stored is the reason for a failure in this stage: an orphan of the uid, a previous pod of the name that
      cannot be deleted, or no abbot container for the cluster network. */
  ghost predicate StoreToBlame(s: Store, t: Store, cmd: EnsureCmd, stage: Stage) {
    match stage
    case NoPauseFound => exists p :: PodOfUid(s, p, cmd.uid) && Orphan(s, p)
    case PrevPod(outcome) => outcome != Deleted && exists p :: NamesakeKept(s, t, cmd, p, outcome)
    case AbbotCheck => !cmd.hostNetwork && forall c :: !AbbotCtr(t, c)
    case _ => false
  }

  /** The deletion of pod `p`, which has the name of the command, came to `outcome`. */
  ghost predicate NamesakeKept(s: Store, t: Store, cmd: EnsureCmd, p: Id, outcome: DeleteOutcome) {
    p in s.pods && s.pods[p].name == PodFullName(cmd) && Explains(outcome, s, t, PodRef(p, s.pods[p]))
  }

  ghost predicate Blamed(s: Store, t: Store, cmd: EnsureCmd, stage: Stage, stop: History) {
    EventToBlame(stage, stop) || StoreToBlame(s, t, cmd, stage)
  }

  /** The phases came in order up to the failure, and then came the rollback. */
  ghost predicate UndoneInOrder(base: History, h: History, w: Phases, stop: History, cmd: EnsureCmd, stage: Stage) {
    Since(UndoKind, stop, h) && (Since(SetupKind, base, stop) || StoppedInOrder(base, stop, w, cmd, stage))
  }

  /** A failed command ends with the data cleanup, after the rollback; before the rollback the phases came in
      order up to the failure. */
  ghost predicate FailedInOrder(base: History, h: History, w: Phases, stop: History, cmd: EnsureCmd, stage: Stage) {
    h.Then? && h.event == Cleaned(cmd.uid) && UndoneInOrder(base, h.prev, w, stop, cmd, stage)
  }

  /** `touched` holds new pods, previous pods of the command's name, and the pod of its uid only. */
  ghost predicate OnlyOf(s: Store, touched: set<Id>, cmd: EnsureCmd) {
    forall p | p in touched ::
      p >= s.next || (p in s.pods && s.pods[p].name == PodFullName(cmd)) || PodOfUid(s, p, cmd.uid)
  }

  /** The pod of the command is there, with its pause container. */
  ghost predicate ReadyFor(s: Store, cmd: EnsureCmd, pod: PodRef, pause: CtrRef) {
    && Live(s, pod) && PodOfUid(s, pod.id, cmd.uid) && PodReady(s, cmd, pod)
    && LiveCtr(s, pause) && IsPauseOf(s, pause.id, pod.id)
  }

  /** A pod whose pause container has come up is ready, and it was no orphan before. */
  lemma NewPodIsReady(s: Store, t: Store, cmd: EnsureCmd, pod: PodRef, pause: CtrRef)
    requires PauseUp(t, cmd, pod, pause, false) && pod.rec.labels == PodLabels(cmd) && OrphansKept(s, t)
    ensures ReadyFor(t, cmd, pod, pause) && !Orphan(s, pod.id)
  {
    OwnPodSuits(cmd);
    assert InPod(t, pause.id, pod.id);
  }

  /** What is left alone from `u` on leaves the orphans of `s` alone. */
  lemma OrphansBeside(s: Store, u: Store, t: Store, pod: Id)
    requires OrphansKept(s, u) && SameOutside(u, t, {pod}) && (!Orphan(s, pod) || !Orphan(u, pod))
    ensures OrphansKept(s, t)
  {
    forall p | Orphan(s, p) ensures Orphan(t, p) && t.pods[p] == s.pods[p] {
      assert Orphan(u, p) && SamePod(u, t, p);
      forall c ensures !InPod(t, c, p) {
        assert SameCtr(u, t, {pod}, c);
        assert !InPod(u, c, p);
      }
    }
  }

  /** The command has succeeded: one pod has the uid, its pause container is stored, and there is one container
      for each spec with the labels of the command; the status reports them. */
  ghost predicate UpAndRunning(s: Store, cmd: EnsureCmd,
                               pod: PodRef, pause: CtrRef, ctrs: seq<CtrRef>, status: PodStatus) {
    && Live(s, pod) && PodOfUid(s, pod.id, cmd.uid) && (forall q | PodOfUid(s, q, cmd.uid) :: q == pod.id)
    && Suits(cmd, pod.rec.labels)
    && LiveCtr(s, pause) && IsPauseOf(s, pause.id, pod.id)
    && |ctrs| == |cmd.containers|
    && (forall i | 0 <= i < |ctrs| :: CtrOfSpec(s, cmd, pod, ctrs[i], i))
    && status == PodStatus(cmd.uid, StatusMap(cmd.uid, ctrs))
  }

  lemma PauseUid(t: Store, cmd: EnsureCmd, pod: PodRef, pause: CtrRef)
    requires Inv(t) && ReadyFor(t, cmd, pod, pause)
    ensures Read(pause.rec.labels, PodUid) == cmd.uid
  {
    assert CtrFits(t, pause.id);
  }

  lemma AllUp(t: Store, cmd: EnsureCmd, pod: PodRef, pause: CtrRef, status: PodStatus)
    requires Inv(t) && ReadyFor(t, cmd, pod, pause)
    requires status == PodStatus(cmd.uid, StatusMap(cmd.uid, NewCtrs(t, cmd, pod, |cmd.containers|)))
    ensures var n, ctrs := |cmd.containers|, NewCtrs(t, cmd, pod, |cmd.containers|);
            && UpAndRunning(Grow(t, cmd, pod, n), cmd, pod, pause, ctrs, status)
            && (forall i | 0 <= i < n :: ctrs[i].id >= t.next)
  {
    GrowFacts(t, cmd, pod, |cmd.containers|);
    OneOfUid(t, pod.id, cmd.uid);
    var s := Grow(t, cmd, pod, |cmd.containers|);
    forall q | PodOfUid(s, q, cmd.uid) ensures q == pod.id { assert PodOfUid(t, q, cmd.uid); }
    assert IsPauseOf(s, pause.id, pod.id);
  }

  /** What an ensure command promises for a good store and a truthful command: it touches only pods of its own,
      leaves orphans in place, and either everything is up or what is left of the uid is explained. */
  ghost predicate EnsureKeeps(s: Store, t: Store, cmd: EnsureCmd, touched: set<Id>, r: EnsureOutcome, clean: bool) {
    && SameOutside(s, t, touched) && OnlyOf(s, touched, cmd) && OrphansKept(s, t)
    && match r
       case Ensured(pod, pause, ctrs, status) =>
         && UpAndRunning(t, cmd, pod, pause, ctrs, status) && (forall i | 0 <= i < |ctrs| :: ctrs[i].id >= s.next)
         && (NoPodOf(s, cmd.uid) ==> NameFree(s, cmd))
       case EnsureFailed(stage, undo) =>
         (stage == PodLookup && t == s) || LeftOver(t, cmd.uid, undo, clean)
  }

  /** What finding or creating the pod of a command touches. */
  ghost predicate Framed(s: Store, t: Store, cmd: EnsureCmd, touched: set<Id>) {
    s.next <= t.next && SameOutside(s, t, touched) && OnlyOf(s, touched, cmd) && OrphansKept(s, t)
  }

  /** The pod of the command was found or created and is ready for its containers. */
  ghost predicate Readied(s: Store, t: Store, cmd: EnsureCmd, touched: set<Id>, pod: PodRef, pause: CtrRef) {
    && Framed(s, t, cmd, touched) && ReadyFor(t, cmd, pod, pause) && pod.id in touched && !Orphan(s, pod.id)
    && (NoPodOf(s, cmd.uid) ==> NameFree(s, cmd))
  }

  /** A failure has something to blame, and a success tells the network of the pause container if no failure was
      lost. */
  ghost predicate Accounts(s: Store, t: Store, cmd: EnsureCmd, r: EnsureOutcome, stop: History, certain: bool) {
    match r
    case Ensured(_, pause, _, _) => certain ==> NetworkOf(s, t, cmd, pause)
    case EnsureFailed(stage, _) => Blamed(s, t, cmd, stage, stop)
  }

  /** A command that fails before its containers are created keeps what was promised so far. */
  lemma EnsureStops(s: Store, t: Store, cmd: EnsureCmd, touched: set<Id>,
                    stage: Stage, undo: seq<DeleteOutcome>, clean: bool, stop: History)
    requires Framed(s, t, cmd, touched)
    requires (stage == PodLookup && t == s) || LeftOver(t, cmd.uid, undo, clean)
    requires Blamed(s, t, cmd, stage, stop)
    ensures EnsureKeeps(s, t, cmd, touched, EnsureFailed(stage, undo), clean)
    ensures forall certain :: Accounts(s, t, cmd, EnsureFailed(stage, undo), stop, certain)
  {
  }

  /** Creating the containers leaves the network as it is. */
  lemma EnsuredFrom(s: Store, t: Store, u: Store, cmd: EnsureCmd, pod: PodRef, pause: CtrRef)
    requires u == Grow(t, cmd, pod, |cmd.containers|)
    ensures ReadiedFrom(s, t, cmd, pod, pause) ==> EnsuredStore(s, u, cmd, pod, pause)
    ensures NetworkOf(s, t, cmd, pause) ==> NetworkOf(s, u, cmd, pause)
  {
    GrowFrame(t, cmd, pod, |cmd.containers|);
  }

  /** Running the containers in the ready pod keeps what finding or creating it has promised. */
  lemma EnsureEnds(s: Store, t: Store, u: Store, cmd: EnsureCmd, touched: set<Id>,
                   pod: PodRef, pause: CtrRef, r: EnsureOutcome, clean: bool)
    requires Inv(t) && Readied(s, t, cmd, touched, pod, pause) && SameOutside(t, u, {pod.id})
    requires r.Ensured? ==> && r.pod == pod && r.pause == pause && u == Grow(t, cmd, pod, |cmd.containers|)
                            && r.ctrs == NewCtrs(t, cmd, pod, |cmd.containers|)
                            && r.status == StatusFrom(pause, r.ctrs)
    requires r.EnsureFailed? ==> RolledBack(u, pod, r.undo, clean)
    ensures EnsureKeeps(s, u, cmd, touched, r, clean)
  {
    SameOutsideTrans(s, t, u, touched, {pod.id});
    assert touched + {pod.id} == touched;
    OrphansBeside(s, t, u, pod.id);
    if r.Ensured? {
      PauseUid(t, cmd, pod, pause);
      AllUp(t, cmd, pod, pause, r.status);
    } else {
      OneOfUid(t, pod.id, cmd.uid);
      OnlyPodOf(t, u, pod, cmd.uid, r.undo, clean);
    }
  }
}
