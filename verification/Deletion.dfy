/** Taking pods and containers down: what each outcome means, when a removal is admissible, and what it leaves alone. */
module Deletion {
  import opened Labels
  import opened PodStore
  import opened Status
  import opened Outcomes

  function Emptied(s: Store, p: Id): Store { Apply(s, PodEmptied(p)) }

  function Dropped(s: Store, p: Id): Store { Apply(Emptied(s, p), PodGone(p)) }

  /** What each outcome of a pod deletion says about the store before and after it. */
  ghost predicate Explains(r: DeleteOutcome, s: Store, t: Store, p: PodRef) {
    match r
    case Deleted => p.id !in t.pods && forall c :: !InPod(t, c, p.id)
    case NoPause => t == s && Managed(p.rec.labels) && forall c :: !InPod(s, c, p.id)
    case LookupFault => t == s && Managed(p.rec.labels)
    case NetworkFault =>
      Managed(p.rec.labels) && !IsHostNetwork(p.rec.labels) && t.pods == s.pods && t.ctrs == s.ctrs
    case GuardRefused => t == s && IsAbbotPod(p.rec.labels) && exists c :: ClusterPause(s, c)
    case GuardFault => t == s && IsAbbotPod(p.rec.labels)
    case RemoveFault => p.id in t.pods || forall c :: !InPod(t, c, p.id)
  }

  /** What the deletion of a stored pod keeps: it touches nothing else, does not change the pod's record, and its
      outcome is explained. */
  ghost predicate DeletionKeeps(s: Store, t: Store, p: PodRef, r: DeleteOutcome) {
    && SameOutside(s, t, {p.id}) && t.next == s.next && (p.id in t.pods ==> Live(t, p))
    && Explains(r, s, t, p)
  }

  /** What a deletion without client faults comes to. */
  ghost function ExpectedDelete(s: Store, p: PodRef): DeleteOutcome {
    if !Managed(p.rec.labels) then Deleted
    else if !HasPause(s, p.id) then NoPause
    else if IsAbbotPod(p.rec.labels) && exists c :: ClusterPause(s, c) then GuardRefused
    else Deleted
  }

  /** What the last attempt to take a pod down says when the pod is still there; `clean` means that no client call
      failed during the attempts. */
  ghost predicate Remains(r: DeleteOutcome, t: Store, p: PodRef, clean: bool) {
    match r
    case Deleted => false
    case NoPause => forall c :: !InPod(t, c, p.id)
    case GuardRefused => IsAbbotPod(p.rec.labels) && exists c :: ClusterPause(t, c)
    case LookupFault => !clean
    case NetworkFault => !clean && !IsHostNetwork(p.rec.labels)
    case GuardFault => !clean && IsAbbotPod(p.rec.labels)
    case RemoveFault => !clean
  }

  /** The attempts `undo` to take `p` down ended in `t`: the pod is gone, or none of them succeeded and
      the last one says why. */
  ghost predicate RolledBack(t: Store, p: PodRef, undo: seq<DeleteOutcome>, clean: bool) {
    && undo != []
    && (p.id in t.pods ==> Live(t, p) && Deleted !in undo && Remains(undo[|undo| - 1], t, p, clean))
  }

  /** The store after the network of container `c` was deleted, if it is not on the host network. */
  function Detached(s: Store, c: Id): Store
    requires c in s.ctrs
  {
    if IsHostNetwork(s.ctrs[c].labels) then s else Apply(s, NetDown(c))
  }

  /** The abbot guard refuses to let anything with these labels go. */
  ghost predicate Guarded(s: Store, labels: LabelSet) { IsAbbotPod(labels) && exists c :: ClusterPause(s, c) }

  /** `c` is the pause container that stands for the uid, it was detached, and the guard lets it go. */
  ghost predicate Prepared(s: Store, t: Store, uid: string, c: Id) {
    CtrNamed(s, c, uid, PAUSE) && t == Detached(s, c) && !Guarded(s, s.ctrs[c].labels)
  }

  /** What a completed deletion of a managed pod leaves, in a good store or not. */
  ghost predicate TakenDown(s: Store, t: Store, p: Id, uid: string) {
    exists c :: CtrNamed(s, c, uid, PAUSE) && !Guarded(s, s.ctrs[c].labels) && t == Dropped(Detached(s, c), p)
  }

  /** Between two moments the network of the pause container of pod `p` was deleted, and only undo events happened. */
  ghost predicate NetworkDeleted(s: Store, p: Id, base: History, h: History) {
    exists c, m :: IsPauseOf(s, c, p) && Since(UndoKind, base, m) && Since(UndoKind, Then(m, NetDown(c)), h)
  }

  /** What a completed deletion of any pod leaves. */
  ghost predicate Gone(s: Store, t: Store, p: PodRef) {
    if !Managed(p.rec.labels) then t == Dropped(s, p.id)
    else p.rec.labels[PodUid] != "" ==> TakenDown(s, t, p.id, p.rec.labels[PodUid])
  }

  /** Emptying a pod is admissible once its pause container is detached and the abbot guard has passed. */
  lemma EmptyingAllowed(s: Store, p: PodRef, pause: Id)
    requires Inv(s) && Live(s, p) && Managed(p.rec.labels) && IsPauseOf(s, pause, p.id) && pause !in s.nets
    requires IsAbbotPod(p.rec.labels) ==> !exists c :: ClusterPause(s, c)
    ensures Admissible(s, PodEmptied(p.id))
  {
    forall c | c in s.nets ensures !InPod(s, c, p.id) {
      assert ClusterPause(s, c) && CtrFits(s, c);
      if InPod(s, c, p.id) {
        assert SameName(s, c, pause);
      }
    }
    if d :| !InPod(s, d, p.id) && ClusterPause(s, d) {
      var a :| AbbotCtr(s, a);
      assert CtrFits(s, a);
      assert !InPod(s, a, p.id) && AbbotCtr(s, a);
    }
  }

  /** Emptying a pod that is not managed is always admissible. */
  lemma EmptyingForeignAllowed(s: Store, p: Id)
    requires Inv(s) && p in s.pods && !Managed(s.pods[p].labels)
    ensures Admissible(s, PodEmptied(p))
  {
    forall c ensures c in s.nets || AbbotCtr(s, c) ==> !InPod(s, c, p) {
      assert CtrFits(s, c);
      assert c in s.nets ==> ClusterPause(s, c);
    }
    if d :| !InPod(s, d, p) && ClusterPause(s, d) {
      var a :| AbbotCtr(s, a);
      assert !InPod(s, a, p) && AbbotCtr(s, a);
    }
  }

  /** In a good store the pause lookup of a pod finds its own pause container, or there is no container in it. */
  lemma PauseLookup(s: Store, p: PodRef, found: Found<CtrRef>)
    requires Inv(s) && Live(s, p) && Managed(p.rec.labels) && !found.Multiple?
    requires found.Found? ==> LiveCtr(s, found.value)
    requires p.rec.labels[PodUid] != "" ==>
               && (found.Found? ==> CtrNamed(s, found.value.id, p.rec.labels[PodUid], PAUSE))
               && (found.NotFound? ==> forall c :: !CtrNamed(s, c, p.rec.labels[PodUid], PAUSE))
    ensures p.rec.labels[PodUid] != "" && PodOfUid(s, p.id, p.rec.labels[PodUid])
    ensures found.Found? ==> && IsPauseOf(s, found.value.id, p.id) && HasPause(s, p.id)
                             && (IsHostNetwork(found.value.rec.labels) <==> IsHostNetwork(p.rec.labels))
                             && (IsAbbotPod(found.value.rec.labels) <==> IsAbbotPod(p.rec.labels))
                             && (!IsHostNetwork(p.rec.labels) ==> ClusterPause(s, found.value.id))
    ensures found.NotFound? ==> !HasPause(s, p.id) && forall c :: !InPod(s, c, p.id)
  {
    var uid := p.rec.labels[PodUid];
    assert !PodOfUid(s, p.id, "");
    forall c ensures CtrNamed(s, c, uid, PAUSE) <==> IsPauseOf(s, c, p.id) { NamedIsInPod(s, c, uid, PAUSE, p.id); }
    if found.Found? {
      assert CtrFits(s, found.value.id);
    }
    if found.NotFound? {
      forall c ensures !InPod(s, c, p.id) { assert Accompanied(s, c); }
    }
  }

  /** `pause` is the pause container of the pod, and they say the same about the network and the abbot. */
  predicate PauseAgrees(s: Store, p: PodRef, pause: CtrRef) {
    && Managed(p.rec.labels) && LiveCtr(s, pause) && IsPauseOf(s, pause.id, p.id)
    && (IsHostNetwork(pause.rec.labels) <==> IsHostNetwork(p.rec.labels))
    && (IsAbbotPod(pause.rec.labels) <==> IsAbbotPod(p.rec.labels))
    && (!IsHostNetwork(p.rec.labels) ==> ClusterPause(s, pause.id))
  }

  /** Detaching a container does not change what the guard sees. */
  lemma SameClusters(s: Store, t: Store, c: Id)
    requires t == s || t == Apply(s, NetDown(c))
    ensures forall d :: ClusterPause(t, d) <==> ClusterPause(s, d)
    ensures forall l :: Guarded(t, l) <==> Guarded(s, l)
  {
    forall d ensures ClusterPause(t, d) <==> ClusterPause(s, d) {}
  }

  /** After the network delete and the guard, emptying the pod is admissible. */
  lemma ReadyToEmpty(s: Store, t: Store, p: PodRef, pause: Id)
    requires Inv(s) && Live(s, p) && Managed(p.rec.labels) && IsPauseOf(s, pause, p.id)
    requires t == if IsHostNetwork(p.rec.labels) then s else Apply(s, NetDown(pause))
    requires IsAbbotPod(p.rec.labels) ==> forall c :: !ClusterPause(t, c)
    ensures Admissible(t, PodEmptied(p.id))
  {
    StepKeeps(s, NetDown(pause));
    assert CtrFits(s, pause);
    assert IsPauseOf(t, pause, p.id);
    assert pause in t.nets ==> ClusterPause(t, pause);
    EmptyingAllowed(t, p, pause);
  }

  /** At most the container `c` of the pod was detached. */
  predicate DetachedAtMost(s: Store, t: Store, p: Id, c: Id) {
    t == s || (InPod(s, c, p) && t == Apply(s, NetDown(c)))
  }

  /** The removal of a stored pod stopped before, between or after its two steps, or was completed. */
  predicate RemovedAsFar(t: Store, u: Store, p: Id, removed: bool) {
    if removed then u == Dropped(t, p) else u == t || u == Emptied(t, p) || u == Dropped(t, p)
  }

  /** Detaching a container of a pod and removing the pod touch nothing outside that pod. */
  lemma TakeDownOutside(s: Store, t: Store, p: Id, c: Id)
    requires DetachedAtMost(s, t, p, c)
    ensures SameOutside(s, t, {p}) && SameOutside(s, Emptied(t, p), {p}) && SameOutside(s, Dropped(t, p), {p})
  {
  }

  /** Wherever the removal of a pod stops, its outcome is explained and nothing outside the pod is touched. */
  lemma RemovalExplained(s: Store, t: Store, u: Store, p: PodRef, c: Id, removed: bool)
    requires Live(s, p) && DetachedAtMost(s, t, p.id, c) && Live(t, p) && RemovedAsFar(t, u, p.id, removed)
    ensures DeletionKeeps(s, u, p, if removed then Deleted else RemoveFault)
  {
    TakeDownOutside(s, t, p.id, c);
  }

  lemma StoppedDeletionKeeps(s: Store, t: Store, p: PodRef, c: Id, r: DeleteOutcome)
    requires Live(s, p) && DetachedAtMost(s, t, p.id, c) && Explains(r, s, t, p)
    ensures DeletionKeeps(s, t, p, r)
  {
    TakeDownOutside(s, t, p.id, c);
  }

  lemma TakenDownFrom(s: Store, t: Store, u: Store, p: Id, uid: string, c: Id)
    requires Prepared(s, t, uid, c) && u == Dropped(t, p)
    ensures TakenDown(s, u, p, uid)
  {
  }

  lemma NetworkDeletedFrom(s: Store, p: Id, c: Id, base: History, before: History, h: History)
    requires IsPauseOf(s, c, p) && before.Then? && before.event == NetDown(c) && Since(UndoKind, base, before.prev)
    requires Since(UndoKind, before, h)
    ensures NetworkDeleted(s, p, base, h)
  {
    assert before == Then(before.prev, NetDown(c));
  }

  /** A managed pod without any container. */
  ghost predicate Orphan(s: Store, p: Id) { ManagedPod(s, p) && forall c :: !InPod(s, c, p) }

  ghost predicate OrphansKept(s: Store, t: Store) {
    forall p | Orphan(s, p) :: Orphan(t, p) && t.pods[p] == s.pods[p]
  }

  /** What leaves a pod alone leaves it an orphan. */
  lemma OrphansOutside(s: Store, t: Store, touched: set<Id>)
    requires SameOutside(s, t, touched) && forall p | p in touched :: !Orphan(s, p)
    ensures OrphansKept(s, t)
  {
    forall p | Orphan(s, p) ensures Orphan(t, p) && t.pods[p] == s.pods[p] {
      assert SamePod(s, t, p);
      forall c ensures !InPod(t, c, p) {
        assert SameCtr(s, t, touched, c);
        assert !InPod(s, c, p);
      }
    }
  }

  /** The pod of this handle has no container in the store: it is gone or it is an orphan. */
  ghost predicate Pauseless(s: Store, p: PodRef) { Absent(s, p) || (Live(s, p) && Orphan(s, p.id)) }

  /** The pod of this handle is gone and no other pod has its uid. */
  ghost predicate Absent(s: Store, p: PodRef) {
    p.id !in s.pods && Managed(p.rec.labels) && p.rec.labels[PodUid] != ""
    && forall q :: !PodOfUid(s, q, p.rec.labels[PodUid])
  }

  lemma GoneIsAbsent(s: Store, t: Store, p: PodRef)
    requires Inv(s) && Live(s, p) && Managed(p.rec.labels) && SameOutside(s, t, {p.id}) && p.id !in t.pods
    ensures Absent(t, p)
  {
    var uid := p.rec.labels[PodUid];
    assert !PodOfUid(s, p.id, "");
    forall q ensures !PodOfUid(t, q, uid) {
      if PodOfUid(t, q, uid) {
        assert SamePod(s, t, q);
        assert SameUid(s, p.id, q);
      }
    }
  }

  /** An explained failure says why the pod is still there. */
  lemma StillThere(s: Store, t: Store, p: PodRef, r: DeleteOutcome, clean: bool)
    requires Explains(r, s, t, p) && (clean ==> r == ExpectedDelete(s, p))
    ensures p.id in t.pods ==> Remains(r, t, p, clean)
  {
  }

  ghost predicate NoPodOf(s: Store, uid: string) { forall p :: !PodOfUid(s, p, uid) }

  lemma OneOfUid(s: Store, p: Id, uid: string)
    requires Inv(s) && PodOfUid(s, p, uid)
    ensures forall q | PodOfUid(s, q, uid) :: q == p
  {
    forall q | PodOfUid(s, q, uid) ensures q == p { assert SameUid(s, q, p); }
  }

  ghost predicate HasNamed(s: Store, uid: string, name: string) { exists c :: CtrNamed(s, c, uid, name) }

  /** A container that is no pause container may go once the abbot guard has passed for it. */
  lemma CtrRemovalAllowed(s: Store, ctr: CtrRef)
    requires Inv(s) && LiveCtr(s, ctr) && !IsPauseContainer(ctr.rec.labels)
    requires IsAbbotPod(ctr.rec.labels) ==> forall c :: !ClusterPause(s, c)
    ensures Admissible(s, CtrGone(ctr.id))
  {
    assert CtrFits(s, ctr.id);
    assert ctr.id in s.nets ==> ClusterPause(s, ctr.id);
    AbbotLookupMeaning(ctr.rec.labels);
    if d :| d != ctr.id && ClusterPause(s, d) {
      var a :| AbbotCtr(s, a);
      assert a != ctr.id && AbbotCtr(s, a);
    }
  }

  /** What deleting the pod of a uid comes to without client faults. */
  ghost function ExpectedPodDelete(s: Store, uid: string): DeletePodOutcome {
    if exists p :: PodOfUid(s, p, uid) && ExpectedDelete(s, PodRef(p, s.pods[p])) == Deleted then PodDeleted
    else PodNotDeleted
  }

  /** What deleting named containers of a pod comes to without client faults. */
  ghost function ExpectedNamedDelete(s: Store, p: Id, uid: string, names: seq<string>): DeletePodOutcome
  {
    if !HasPause(s, p) then PodNotDeleted
    else
      match ExpectedNames(s, uid, names)
      case NamesDone => CtrsDeleted
      case NamesFailed => PodNotDeleted
      case NilDereferenced => Panicked
  }

  ghost predicate GuardedNamed(s: Store, uid: string, name: string) {
    exists c :: CtrNamed(s, c, uid, name) && Guarded(s, s.ctrs[c].labels)
  }

  /** What deleting one named container comes to without client faults, with the uid check as the code has it. */
  ghost function ExpectedName(s: Store, uid: string, name: string): NamedOutcome {
    if !HasNamed(s, uid, name) then NilDereferenced
    else if GuardedNamed(s, uid, name) then NamesFailed
    else NamesDone
  }

  /** The first name that cannot be deleted decides. */
  ghost function ExpectedNames(s: Store, uid: string, names: seq<string>): NamedOutcome {
    if names == [] then NamesDone
    else if ExpectedName(s, uid, names[0]) != NamesDone then ExpectedName(s, uid, names[0])
    else ExpectedNames(s, uid, names[1..])
  }

  /** What the expected outcome of deleting the pod of a uid is: it is deleted exactly if it is stored with a pause
      container and the guard lets it go. */
  lemma ExpectedPodDeleteMeaning(s: Store, p: Id, uid: string)
    requires Inv(s)
    ensures PodOfUid(s, p, uid) && HasPause(s, p) && !Guarded(s, s.pods[p].labels) ==>
              ExpectedPodDelete(s, uid) == PodDeleted
    ensures PodOfUid(s, p, uid) && (!HasPause(s, p) || Guarded(s, s.pods[p].labels)) ==>
              ExpectedPodDelete(s, uid) == PodNotDeleted
    ensures NoPodOf(s, uid) ==> ExpectedPodDelete(s, uid) == PodNotDeleted
  {
    if PodOfUid(s, p, uid) {
      OneOfUid(s, p, uid);
    }
  }

  /** What the deletion of one pod is expected to come to. */
  lemma ExpectedDeleteMeaning(s: Store, p: PodRef)
    ensures !Managed(p.rec.labels) ==> ExpectedDelete(s, p) == Deleted
    ensures Managed(p.rec.labels) && !HasPause(s, p.id) ==> ExpectedDelete(s, p) == NoPause
    ensures Managed(p.rec.labels) && HasPause(s, p.id) ==>
              ExpectedDelete(s, p) == if Guarded(s, p.rec.labels) then GuardRefused else Deleted
  {
  }

  /** What the expected outcome of deleting named containers is: without a pause container nothing is deleted; if no
      name is guarded, the names are done or a missing one is dereferenced; a guarded name among present ones
      refuses. */
  lemma {:induction false} ExpectedNamesMeaning(s: Store, p: Id, uid: string, names: seq<string>)
    ensures !HasPause(s, p) ==> ExpectedNamedDelete(s, p, uid, names) == PodNotDeleted
    ensures HasPause(s, p) && (forall n | n in names :: !GuardedNamed(s, uid, n)) ==>
              ExpectedNamedDelete(s, p, uid, names) ==
              if forall n | n in names :: HasNamed(s, uid, n) then CtrsDeleted else Panicked
    ensures && HasPause(s, p) && (forall n | n in names :: HasNamed(s, uid, n))
            && (exists n :: n in names && GuardedNamed(s, uid, n)) ==>
              ExpectedNamedDelete(s, p, uid, names) == PodNotDeleted
  {
    if names != [] {
      ExpectedNamesMeaning(s, p, uid, names[1..]);
      assert names == [names[0]] + names[1..];
      assert forall n :: n in names <==> n == names[0] || n in names[1..];
    }
  }

  /** At most one container has a given uid and name. */
  lemma OneNamed(s: Store, c: Id, d: Id, uid: string, name: string)
    requires Inv(s) && CtrNamed(s, c, uid, name) && CtrNamed(s, d, uid, name)
    ensures c == d
  {
    assert CtrFits(s, c) && CtrFits(s, d);
    assert SameUid(s, s.ctrs[c].pod, s.ctrs[d].pod);
    assert SameName(s, c, d);
  }

  /** The container found for a name decides whether the name is guarded. */
  lemma NamedDecides(s: Store, c: Id, uid: string, name: string)
    requires Inv(s) && CtrNamed(s, c, uid, name)
    ensures HasNamed(s, uid, name) && (GuardedNamed(s, uid, name) <==> Guarded(s, s.ctrs[c].labels))
  {
    forall d | CtrNamed(s, d, uid, name) ensures d == c { OneNamed(s, c, d, uid, name); }
  }

  lemma PodDeletionKeeps(s: Store, t: Store, pod: PodRef, uid: string, r: DeleteOutcome)
    requires Inv(s) && Live(s, pod) && PodOfUid(s, pod.id, uid) && SameOutside(s, t, {pod.id}) && Explains(r, s, t, pod)
    requires Pauseless(s, pod) ==> t == s
    ensures OrphansKept(s, t) && (r == Deleted ==> NoPodOf(t, uid) && !NoPodOf(s, uid))
    ensures ExpectedPodDelete(s, uid) == if ExpectedDelete(s, pod) == Deleted then PodDeleted else PodNotDeleted
  {
    OneOfUid(s, pod.id, uid);
    if !Orphan(s, pod.id) {
      OrphansOutside(s, t, {pod.id});
    }
    forall p ensures p != pod.id ==> !PodOfUid(t, p, uid) {
      assert p != pod.id ==> SamePod(s, t, p);
      assert p != pod.id ==> !PodOfUid(s, p, uid);
    }
    assert PodRef(pod.id, s.pods[pod.id]) == pod;
  }

  /** `t` is `s` with some containers of the uid taken out. */
  ghost predicate FewerOf(s: Store, t: Store, uid: string) {
    && Fewer(s, t)
    && (uid != "" ==>
          forall c | c in s.ctrs && c !in t.ctrs :: Managed(s.ctrs[c].labels) && s.ctrs[c].labels[PodUid] == uid)
  }

  lemma FewerOfTrans(s: Store, t: Store, u: Store, uid: string)
    requires FewerOf(s, t, uid) && FewerOf(t, u, uid)
    ensures FewerOf(s, u, uid)
  {
  }

  lemma StillNamed(s: Store, t: Store, uid: string, name: string)
    requires FewerOf(s, t, uid) && HasNamed(t, uid, name)
    ensures HasNamed(s, uid, name)
  {
    var c :| CtrNamed(t, c, uid, name);
    assert CtrNamed(s, c, uid, name);
  }

  /** Deleting named containers of a uid touches only the pod of that uid. */
  lemma NamedDeletionKeeps(s: Store, t: Store, pod: PodRef, uid: string)
    requires Inv(s) && PodOfUid(s, pod.id, uid) && FewerOf(s, t, uid)
    ensures SameOutside(s, t, {pod.id}) && OrphansKept(s, t)
  {
    assert !PodOfUid(s, pod.id, "");
    forall c ensures SameCtr(s, t, {pod.id}, c) {
      if c in s.ctrs && c !in t.ctrs {
        NamedIsInPod(s, c, uid, Read(s.ctrs[c].labels, PodContainer), pod.id);
      }
    }
    forall p | Orphan(s, p) ensures Orphan(t, p) {
      forall c ensures !InPod(t, c, p) { assert !InPod(s, c, p); }
    }
  }
}
