/** What the contracts of the engine's operations mean for its callers: which pods an ensure command leaves
    alone, what a failed command leaves behind, and which pods stand in a command's way. */
module Guarantees {
  import opened Labels
  import opened PodStore
  import opened Status
  import opened Plan
  import opened Outcomes
  import opened Deletion
  import opened Ensuring
  import opened Listing

  /** Pod `p`, its containers and their attachments are the same in both stores. */
  ghost predicate Untouched(s: Store, t: Store, p: Id) {
    && SamePod(s, t, p)
    && forall c: Id ::
         && (InPod(s, c, p) <==> InPod(t, c, p))
         && (InPod(s, c, p) ==> s.ctrs[c] == t.ctrs[c] && (c in s.nets <==> c in t.nets))
  }

  /** Frame theorem: an ensure command leaves alone every stored pod of another uid and another name. */
  lemma EnsureLeavesOthersAlone(
    s: Store, t: Store, cmd: EnsureCmd, touched: set<Id>, r: EnsureOutcome, clean: bool, p: Id)
    requires Inv(s) && EnsureKeeps(s, t, cmd, touched, r, clean)
    requires p in s.pods && !PodOfUid(s, p, cmd.uid) && s.pods[p].name != PodFullName(cmd)
    ensures Untouched(s, t, p)
  {
    assert p !in touched;
    forall c: Id
      ensures InPod(s, c, p) <==> InPod(t, c, p)
      ensures InPod(s, c, p) ==> s.ctrs[c] == t.ctrs[c] && (c in s.nets <==> c in t.nets)
    {
      assert SameCtr(s, t, touched, c);
    }
  }

  /** A store without a pod of the uid has no container and no attachment of the uid. */
  ghost predicate NothingOf(s: Store, uid: string) {
    && NoPodOf(s, uid)
    && (forall c | c in s.ctrs :: Read(s.ctrs[c].labels, PodUid) != uid)
    && (forall c | c in s.nets :: c in s.ctrs && Read(s.ctrs[c].labels, PodUid) != uid)
  }

  lemma NoPodMeansNothing(s: Store, uid: string)
    requires Inv(s) && NoPodOf(s, uid) && uid != ""
    ensures NothingOf(s, uid)
  {
    forall c | c in s.ctrs ensures Read(s.ctrs[c].labels, PodUid) != uid {
      NoPodNoCtr(s, c, uid, Read(s.ctrs[c].labels, PodContainer));
    }
    forall c | c in s.nets ensures c in s.ctrs { assert ClusterPause(s, c); }
  }

  /** Why pod `p` of a failed command is still stored: every attempt to take it down failed. It has no pause container,
      or the abbot guard refused, or a client call of the rollback failed: a lookup, the network delete of a pod on the
      cluster network, the guard's listing for an abbot pod, or the removal itself. */
  ghost predicate LeftBehind(t: Store, p: Id, undo: seq<DeleteOutcome>, clean: bool)
    requires p in t.pods
  {
    && undo != [] && Deleted !in undo
    && match undo[|undo| - 1]
       case Deleted => false
       case NoPause => Orphan(t, p)
       case GuardRefused => Guarded(t, t.pods[p].labels)
       case LookupFault => !clean
       case NetworkFault => !clean && !IsHostNetwork(t.pods[p].labels)
       case GuardFault => !clean && IsAbbotPod(t.pods[p].labels)
       case RemoveFault => !clean
  }

  ghost predicate OneLeftBehind(t: Store, uid: string, undo: seq<DeleteOutcome>, clean: bool) {
    exists p :: PodOfUid(t, p, uid) && LeftBehind(t, p, undo, clean) && forall q | PodOfUid(t, q, uid) :: q == p
  }

  /** Failure atomicity: after a failed command nothing of its uid remains, or the store is as it was because the
      pod lookup failed, or the one pod of the uid remains for one of the listed reasons. `clean` means that no client
      call failed in the rollback; then only an orphan or a guarded abbot pod can remain. */
  lemma FailureIsAtomicOrExplained(
    s: Store, t: Store, cmd: EnsureCmd, touched: set<Id>, r: EnsureOutcome, clean: bool)
    requires Inv(t) && cmd.uid != "" && EnsureKeeps(s, t, cmd, touched, r, clean) && r.EnsureFailed?
    ensures || NothingOf(t, cmd.uid)
            || (r.stage == PodLookup && t == s)
            || OneLeftBehind(t, cmd.uid, r.undo, clean)
    ensures r.stage != PodLookup && r.undo == [] ==> NothingOf(t, cmd.uid)
    ensures r.stage != PodLookup && clean ==>
              || NothingOf(t, cmd.uid)
              || exists p :: PodOfUid(t, p, cmd.uid) && (Orphan(t, p) || Guarded(t, t.pods[p].labels))
  {
    if NoPodOf(t, cmd.uid) {
      NoPodMeansNothing(t, cmd.uid);
    } else if !(r.stage == PodLookup && t == s) {
      var p :| PodOfUid(t, p, cmd.uid);
      OneOfUid(t, p, cmd.uid);
      assert LeftBehind(t, p, r.undo, clean);
    }
  }

  /** An orphan stands in the way of its uid, and of its name for a uid that has no pod yet: no ensure command
      for them succeeds, and the orphan is still there afterwards. */
  lemma OrphanBlocksEnsure(
    s: Store, t: Store, cmd: EnsureCmd, touched: set<Id>, r: EnsureOutcome, clean: bool, p: Id)
    requires EnsureKeeps(s, t, cmd, touched, r, clean) && Orphan(s, p)
    requires PodOfUid(s, p, cmd.uid) || (s.pods[p].name == PodFullName(cmd) && NoPodOf(s, cmd.uid))
    ensures r.EnsureFailed? && Orphan(t, p) && t.pods[p] == s.pods[p]
  {
    assert PodOfUid(s, p, cmd.uid) ==> PodOfUid(t, p, cmd.uid);
  }

  /** A listing that removed nothing blindly leaves alone every pod that it reports and every pod that it does not
      select. */
  lemma ListingLeavesTheRestAlone(s: Store, t: Store, sel: seq<PodRef>, p: Id)
    requires SameOutside(s, t, Dismissed(s, sel)) && Distinct(sel) && p in s.pods
    requires forall q | q in sel && q.id == p :: Managed(q.rec.labels) && HasPause(s, p)
    ensures Untouched(s, t, p)
  {
    assert p !in Dismissed(s, sel);
    forall c: Id
      ensures InPod(s, c, p) <==> InPod(t, c, p)
      ensures InPod(s, c, p) ==> s.ctrs[c] == t.ctrs[c] && (c in s.nets <==> c in t.nets)
    {
      assert SameCtr(s, t, Dismissed(s, sel), c);
    }
  }

  /** A listing without faults that selects an orphan removes it, so that the next ensure command for its uid finds
      the way free. */
  lemma ListingClearsOrphan(s: Store, t: Store, filters: LabelSet, sel: seq<PodRef>, uids: seq<string>, p: Id)
    requires Inv(s) && ListedClean(s, t, filters, sel, uids) && Orphan(s, p) && Matches(filters, s.pods[p].labels)
    ensures p !in t.pods && NoPodOf(t, s.pods[p].labels[PodUid])
  {
    var pod := PodRef(p, s.pods[p]);
    KeptIsNoOrphan(s, pod);
    assert pod in sel;
    assert p in Dismissed(s, sel);
    forall q ensures !PodOfUid(t, q, s.pods[p].labels[PodUid]) {
      if PodOfUid(t, q, s.pods[p].labels[PodUid]) {
        assert SameUid(s, q, p);
      }
    }
  }

  // ----- order -----

  /** In a completed command every creation of a pod or container, and every change of the network, comes before the
      first start of a container of the specs. */
  lemma CreationsComeFirst(base: History, h: History, w: Phases, cmd: EnsureCmd, pause: CtrRef, m: History)
    requires DoneInOrder(base, h, w, cmd, pause) && Moment(m, h) && m.Then? && !IsRunEvent(m.event)
    ensures Moment(m, w.created)
  {
    if !cmd.wait {
      AliveOnlyRuns(w.ran, w.ctrs, |w.ctrs|, m);
    }
    PlanOnlyRuns(w.created, w.ctrs, cmd.containers, cmd.wait, |w.ctrs|, m);
  }

  /** In a completed command, after the creations, every container is started exactly once, hooked exactly once if its
      spec has a hook and never otherwise, waited for exactly once if the command says so and never otherwise, and seen
      alive exactly once if it is not waited for. */
  lemma EveryContainerRuns(base: History, h: History, w: Phases, cmd: EnsureCmd, pause: CtrRef, j: nat)
    requires DoneInOrder(base, h, w, cmd, pause) && j < |cmd.containers|
    ensures |w.ctrs| == |cmd.containers|
    ensures var c, a := w.ctrs[j].id, w.created;
            && Count(Started(c), h) == Count(Started(c), a) + 1
            && Count(Hooked(c), h) == Count(Hooked(c), a) + (if cmd.containers[j].hook then 1 else 0)
            && Count(Waited(c), h) == Count(Waited(c), a) + (if cmd.wait then 1 else 0)
            && Count(Alive(c), h) == Count(Alive(c), a) + (if cmd.wait then 0 else 1)
  {
    var n := |w.ctrs|;
    var c := w.ctrs[j].id;
    forall e | e in {Started(c), Hooked(c), Waited(c), Alive(c)}
      ensures Count(e, w.ran) == Count(e, w.created) + Due(e, cmd.containers[j].hook, cmd.wait)
      ensures Count(e, h) == Count(e, w.ran) + if e.Alive? && !cmd.wait then 1 else 0
    {
      PlanCount(w.created, w.ctrs, cmd.containers, cmd.wait, n, j, e);
      if !cmd.wait {
        AliveCounts(w.ran, w.ctrs, n, j, e);
      }
    }
  }

  /** The run of container `j` as moments: it starts after the creations, its hook directly follows, and the wait is the
      end of its run. */
  lemma RunOf(base: History, h: History, w: Phases, cmd: EnsureCmd, pause: CtrRef, j: nat)
    returns (started: History, hooked: History, last: History)
    requires DoneInOrder(base, h, w, cmd, pause) && j < |w.ctrs|
    ensures started.Then? && started.event == Started(w.ctrs[j].id) && Moment(w.created, started.prev)
    ensures if cmd.containers[j].hook then hooked == Then(started, Hooked(w.ctrs[j].id)) else hooked == started
    ensures if cmd.wait then last == Then(hooked, Waited(w.ctrs[j].id)) else last == hooked
    ensures Moment(last, h)
    ensures last == Planned(w.created, w.ctrs, cmd.containers, cmd.wait, j + 1)
    ensures started.prev == Planned(w.created, w.ctrs, cmd.containers, cmd.wait, j)
  {
    var first;
    first, started, hooked, last := RunMoments(w.created, w.ctrs, cmd.containers, cmd.wait, j);
    PlannedGrows(w.created, w.ctrs, cmd.containers, cmd.wait, 0, j);
    PlannedGrows(w.created, w.ctrs, cmd.containers, cmd.wait, j + 1, |w.ctrs|);
    if !cmd.wait {
      AliveGrows(w.ran, w.ctrs, |w.ctrs|);
      MomentTrans(last, w.ran, h);
    }
  }

  /** The runs follow the order of the specs: container `j` starts after the run of every container before it has
      ended. */
  lemma RunsFollowEachOther(base: History, h: History, w: Phases, cmd: EnsureCmd, pause: CtrRef, i: nat, j: nat)
    returns (first: History, last: History, next: History)
    requires DoneInOrder(base, h, w, cmd, pause) && i < j < |w.ctrs|
    ensures first.Then? && first.event == Started(w.ctrs[i].id) && Moment(w.created, first.prev)
    ensures last.Then? && last.event == (if cmd.wait then Waited(w.ctrs[i].id)
                                         else if cmd.containers[i].hook then Hooked(w.ctrs[i].id)
                                         else Started(w.ctrs[i].id))
    ensures Moment(first, last)
    ensures next.Then? && next.event == Started(w.ctrs[j].id) && Moment(last, next.prev) && Moment(next, h)
  {
    var hooked, end;
    first, hooked, last := RunOf(base, h, w, cmd, pause, i);
    next, hooked, end := RunOf(base, h, w, cmd, pause, j);
    PlannedGrows(w.created, w.ctrs, cmd.containers, cmd.wait, i + 1, j);
    assert Moment(next, hooked) && Moment(hooked, end);
    MomentTrans(next, hooked, end);
    MomentTrans(next, end, h);
  }

  /** How the pause container of a completed command came to run: it was seen running, or it was seen paused and
      unpaused, or it was seen in a state from which it can be started and started. */
  lemma PauseBroughtUpByItsState(base: History, h: History, w: Phases, cmd: EnsureCmd, pause: CtrRef)
    requires DoneInOrder(base, h, w, cmd, pause)
    ensures var c := pause.id;
            || (w.ready.Then? && w.ready.event == Seen(c, Running))
            || (exists a :: w.ready == Then(Then(a, Seen(c, Paused)), Unpaused(c)))
            || (exists a, state :: w.ready == Then(Then(a, Seen(c, state)), Started(c))
                                   && state in {Configured, Created, Stopped, Exited})
  {
    var r, c := w.ready, pause.id;
    if r.event == Unpaused(c) {
      assert r == Then(Then(r.prev.prev, Seen(c, Paused)), Unpaused(c));
    } else if r.event == Started(c) {
      assert r == Then(Then(r.prev.prev, Seen(c, r.prev.event.state)), Started(c));
    }
  }

  /** In a completed command container `j` starts when exactly the start, hook and wait of each container
      before it have happened after the creations. */
  lemma StartsFollowTheSpecs(base: History, h: History, w: Phases, cmd: EnsureCmd, pause: CtrRef, m: History, j: nat)
    requires DoneInOrder(base, h, w, cmd, pause) && Moment(m, w.ran) && m.Then? && Moment(w.created, m.prev)
    requires j < |w.ctrs| && m.event == Started(w.ctrs[j].id)
    ensures m.prev == Planned(w.created, w.ctrs, cmd.containers, cmd.wait, j)
  {
    StartComesAfterEarlierBlocks(w.created, w.ctrs, cmd.containers, cmd.wait, |w.ctrs|, m, j);
  }

  /** After the failure of a command nothing is created, attached, started, hooked or waited for any more, except
      that the abbot container may be started for taking a network down. */
  lemma NothingStartsAfterFailure(
    base: History, h: History, w: Phases, stop: History, cmd: EnsureCmd, stage: Stage, m: History)
    requires FailedInOrder(base, h, w, stop, cmd, stage) && Moment(m, h) && m.Then?
    requires IsRunEvent(m.event) || m.event.CtrNew? || m.event.PodNew? || m.event.NetUp? || m.event.Unpaused?
    ensures Moment(m, stop)
  {
    UndoStartsNothing(stop, h.prev, m);
  }

  lemma {:induction false} UndoStartsNothing(stop: History, h: History, m: History)
    requires Since(UndoKind, stop, h) && Moment(m, h) && m.Then? && !IsUndoEvent(m.event)
    ensures Moment(m, stop)
    decreases h
  {
    if h != stop {
      UndoStartsNothing(stop, h.prev, m);
    }
  }

  // ----- whose containers are woken -----

  /** The container that an event wakes, if it wakes one. */
  predicate Wakes(e: Event, c: Id) {
    e == Started(c) || e == Unpaused(c) || e == Hooked(c) || e == Waited(c) || e == AbbotStarted(c)
  }

  /** The frame theorem for run states: a container that was stored when a command for a uid began, in a pod of another
      uid, is not started, unpaused, hooked or waited for during the command, unless it is an abbot container. */
  lemma OthersAreNotWoken(s: Store, begin: History, h: History, uid: string, m: History, c: Id)
    requires Inv(s) && Legal(s, h) && Moment(begin, h) && WakesOnly(s, begin, h, About(uid))
    requires Moment(m, h) && m.Then? && Moment(begin, m.prev) && !Moment(m, begin) && Wakes(m.event, c)
    requires c in Replay(s, begin).ctrs && !PodOfUid(Replay(s, begin), Replay(s, begin).ctrs[c].pod, uid)
    ensures AbbotCtr(Replay(s, m.prev), c) && (m.event.Unpaused? || m.event.AbbotStarted?)
  {
    WokenAt(s, begin, h, About(uid), m);
    SafeAtEveryMoment(s, h, m);
    SafeAtEveryMoment(s, h, begin);
    var t := Replay(s, begin);
    var u := Replay(s, m.prev);
    if c in u.ctrs {
      CtrStays(s, m.prev, begin, c);
      assert CtrFits(t, c);
      if t.ctrs[c].pod in u.pods {
        PodStays(s, m.prev, begin, t.ctrs[c].pod);
      }
    }
  }

  /** A command without a topic wakes nothing but abbot containers. */
  lemma NobodyIsWoken(s: Store, begin: History, h: History, m: History, c: Id)
    requires WakesOnly(s, begin, h, Nobody) && Moment(m, h) && m.Then? && !Moment(m, begin) && Wakes(m.event, c)
    ensures AbbotCtr(Replay(s, m.prev), c) && (m.event.Unpaused? || m.event.AbbotStarted?)
  {
    WokenAt(s, begin, h, Nobody, m);
  }
}
