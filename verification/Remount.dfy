/** Remote volumes: mounter processes, what the storage client knows about them, and the handler that mounts a
    volume again when its mounter exits.

    A run is any interleaving of mounts, exits, bookkeeping, handlers and changes of the pod. */
module Remount {

  /** One remote volume of a pod at one mount point. The handler keeps all three when it mounts again. */
  datatype Job = Job(uid: string, remote: string, point: string)

  datatype Lookup = PauseFound | PauseNotFound | LookupFailed

  /** Live mounters are `young` until the client has seen them survive the initial wait, then `settled`. A settled
      mounter that has exited is `exited` until the client takes note, and then its handler is `pending`.
      `started` holds every mounter that container creation started and `ended` every one that is given up.
      `mounted` holds the mount points that the client takes for mounted, `pauses` the uids with a pause container. */
  datatype State = State(
    young: multiset<Job>,
    settled: multiset<Job>,
    exited: multiset<Job>,
    pending: multiset<Job>,
    started: multiset<Job>,
    ended: multiset<Job>,
    mounted: set<string>,
    pauses: set<string>)

  datatype Step =
    | Create(job: Job, spawned: bool)
    | Settle(job: Job)
    | FailYoung(job: Job)
    | Exit(job: Job)
    | TakeNote(job: Job)
    | Handle(job: Job, lookup: Lookup, spawned: bool)
    | Unregister(point: string)
    | PauseUp(uid: string)
    | PauseDown(uid: string)

  /** A mounter at this point is in its initial wait. */
  predicate InWait(s: State, point: string) { exists k | k in s.young :: k.point == point }

  /** A mount call spawns a process only at a point that is not taken for mounted and where no mounter is in its initial
      wait; it may always fail. */
  predicate Enabled(s: State, step: Step) {
    match step
    case Create(j, spawned) => spawned ==> j.point !in s.mounted && !InWait(s, j.point)
    case Settle(j) => j in s.young
    case FailYoung(j) => j in s.young
    case Exit(j) => j in s.settled
    case TakeNote(j) => j in s.exited
    case Handle(j, lookup, spawned) =>
      && j in s.pending
      && (lookup == PauseFound ==> j.uid in s.pauses)
      && (lookup == PauseNotFound ==> j.uid !in s.pauses)
      && (spawned ==> lookup != PauseNotFound && j.point !in s.mounted && !InWait(s, j.point))
    case Unregister(_) => true
    case PauseUp(_) => true
    case PauseDown(_) => true
  }

  function Add(m: multiset<Job>, j: Job): multiset<Job> { m[j := m[j] + 1] }

  function Take(m: multiset<Job>, j: Job): multiset<Job>
    requires j in m
  {
    m[j := m[j] - 1]
  }

  function Do(s: State, step: Step): State
    requires Enabled(s, step)
  {
    match step
    case Create(j, spawned) =>
      if spawned then s.(young := Add(s.young, j), started := Add(s.started, j), mounted := s.mounted + {j.point})
      else s
    case Settle(j) => s.(young := Take(s.young, j), settled := Add(s.settled, j))
    case FailYoung(j) =>
      s.(young := Take(s.young, j), ended := Add(s.ended, j), mounted := s.mounted - {j.point})
    case Exit(j) => s.(settled := Take(s.settled, j), exited := Add(s.exited, j))
    case TakeNote(j) =>
      s.(exited := Take(s.exited, j), pending := Add(s.pending, j), mounted := s.mounted - {j.point})
    case Handle(j, lookup, spawned) =>
      if spawned then s.(pending := Take(s.pending, j), young := Add(s.young, j), mounted := s.mounted + {j.point})
      else s.(pending := Take(s.pending, j), ended := Add(s.ended, j))
    case Unregister(point) => s.(mounted := s.mounted - {point})
    case PauseUp(uid) => s.(pauses := s.pauses + {uid})
    case PauseDown(uid) => s.(pauses := s.pauses - {uid})
  }

  function Live(s: State): multiset<Job> { s.young + s.settled }

  predicate Possible(s: State, steps: seq<Step>)
    decreases |steps|, 0
  {
    steps == [] || (Possible(s, steps[..|steps| - 1]) && Enabled(After(s, steps[..|steps| - 1]), steps[|steps| - 1]))
  }

  function After(s: State, steps: seq<Step>): State
    requires Possible(s, steps)
    decreases |steps|, 1
  {
    if steps == [] then s else Do(After(s, steps[..|steps| - 1]), steps[|steps| - 1])
  }

  function Begin(pauses: set<string>): State {
    State(multiset{}, multiset{}, multiset{}, multiset{}, multiset{}, multiset{}, {}, pauses)
  }

  // ----- conservation -----

  function Total(s: State, j: Job): nat { s.young[j] + s.settled[j] + s.exited[j] + s.pending[j] + s.ended[j] }

  /** Nothing is lost and nothing is duplicated: every started mounter is live, on its way back, or given up. */
  ghost predicate Conserved(s: State) {
    forall j :: Total(s, j) == s.started[j]
  }

  lemma ConservedStep(s: State, step: Step, j: Job)
    requires Enabled(s, step)
    ensures Total(Do(s, step), j) - Do(s, step).started[j] == Total(s, j) - s.started[j]
  {
  }

  lemma {:induction false} ConservedAlways(s: State, steps: seq<Step>)
    requires Conserved(s) && Possible(s, steps)
    ensures Conserved(After(s, steps))
  {
    if steps != [] {
      var t := After(s, steps[..|steps| - 1]);
      ConservedAlways(s, steps[..|steps| - 1]);
      forall j ensures Total(After(s, steps), j) == After(s, steps).started[j] {
        ConservedStep(t, steps[|steps| - 1], j);
      }
    }
  }

  /** How many jobs of `m` belong to the pod. */
  ghost function CountOf(m: multiset<Job>, uid: string): nat {
    if m == multiset{} then 0
    else var j :| j in m; CountOf(m - multiset{j}, uid) + if j.uid == uid then 1 else 0
  }

  lemma {:induction false} CountPick(m: multiset<Job>, uid: string, k: Job)
    requires k in m
    ensures CountOf(m, uid) == CountOf(m - multiset{k}, uid) + if k.uid == uid then 1 else 0
    decreases |m|
  {
    var j :| j in m && CountOf(m, uid) == CountOf(m - multiset{j}, uid) + if j.uid == uid then 1 else 0;
    if j != k {
      CountPick(m - multiset{j}, uid, k);
      CountPick(m - multiset{k}, uid, j);
      assert m - multiset{j} - multiset{k} == m - multiset{k} - multiset{j};
    }
  }

  lemma {:induction false} CountMonotone(a: multiset<Job>, b: multiset<Job>, uid: string)
    requires a <= b
    ensures CountOf(a, uid) <= CountOf(b, uid)
    decreases |a|
  {
    if a != multiset{} {
      var j :| j in a;
      CountPick(a, uid, j);
      CountPick(b, uid, j);
      CountMonotone(a - multiset{j}, b - multiset{j}, uid);
    }
  }

  /** Over any run, failure handling never raises the number of live mounters of a pod above the number that
      container creation started. */
  lemma LiveNeverExceedsStarted(pauses: set<string>, steps: seq<Step>, uid: string)
    requires Possible(Begin(pauses), steps)
    ensures var s := After(Begin(pauses), steps);
            CountOf(Live(s), uid) <= CountOf(s.started, uid) && Live(s) <= s.started
  {
    ConservedAlways(Begin(pauses), steps);
    var s := After(Begin(pauses), steps);
    CountMonotone(Live(s), s.started, uid);
  }

  // ----- after the pod is gone -----

  /** Mount calls that failure handling issues for the pod. */
  function Issued(steps: seq<Step>, uid: string): nat {
    if steps == [] then 0
    else
      var last := steps[|steps| - 1];
      Issued(steps[..|steps| - 1], uid) +
      if last.Handle? && last.job.uid == uid && last.lookup != PauseNotFound then 1 else 0
  }

  /** Handlers of the pod whose lookup failed for a reason other than not-found. */
  function FailedLookups(steps: seq<Step>, uid: string): nat {
    if steps == [] then 0
    else
      var last := steps[|steps| - 1];
      FailedLookups(steps[..|steps| - 1], uid) +
      if last.Handle? && last.job.uid == uid && last.lookup == LookupFailed then 1 else 0
  }

  lemma StaysAway(s: State, step: Step, uid: string)
    requires Enabled(s, step) && uid !in s.pauses && step != PauseUp(uid)
    ensures uid !in Do(s, step).pauses
    ensures step.Handle? && step.job.uid == uid ==> step.lookup != PauseFound
  {
  }

  /** Once the pause container is gone and while the uid is not created again, the mount calls that are still issued
      are exactly those of handlers whose lookup failed: none at all if and only if every lookup worked. */
  lemma {:induction false} NoMountAfterRemoval(s: State, steps: seq<Step>, uid: string)
    requires uid !in s.pauses && Possible(s, steps) && PauseUp(uid) !in steps
    ensures uid !in After(s, steps).pauses && Issued(steps, uid) == FailedLookups(steps, uid)
  {
    if steps != [] {
      NoMountAfterRemoval(s, steps[..|steps| - 1], uid);
      StaysAway(After(s, steps[..|steps| - 1]), steps[|steps| - 1], uid);
    }
  }

  /** How many mounters of the job are live or may still come back. */
  function Active(s: State, j: Job): nat { s.young[j] + s.settled[j] + s.exited[j] + s.pending[j] }

  predicate Creates(step: Step, uid: string) { step.Create? && step.job.uid == uid }

  lemma ActiveStep(s: State, step: Step, j: Job)
    requires Enabled(s, step) && !Creates(step, j.uid)
    ensures Active(Do(s, step), j) <= Active(s, j)
  {
  }

  /** Without new containers the mounters of a pod only ever get fewer. */
  lemma {:induction false} MountersOnlyGoAway(s: State, steps: seq<Step>, j: Job)
    requires Possible(s, steps) && forall i | 0 <= i < |steps| :: !Creates(steps[i], j.uid)
    ensures Active(After(s, steps), j) <= Active(s, j)
  {
    if steps != [] {
      MountersOnlyGoAway(s, steps[..|steps| - 1], j);
      ActiveStep(After(s, steps[..|steps| - 1]), steps[|steps| - 1], j);
    }
  }

  // ----- one mounter for each mount point -----

  /** How many mounters of the job keep its mount point from being taken again. */
  function Busy(s: State, j: Job): nat { s.young[j] + s.settled[j] + s.exited[j] }

  ghost predicate Exclusive(s: State) {
    && (forall j | Busy(s, j) > 0 :: Busy(s, j) == 1 && j.point in s.mounted)
    && (forall j, k | Busy(s, j) > 0 && Busy(s, k) > 0 && j.point == k.point :: j == k)
  }

  /** How a step changes the number of mounters at a mount point. */
  function Change(step: Step, j: Job): int {
    match step
    case Create(k, spawned) => if spawned && j == k then 1 else 0
    case Handle(k, _, spawned) => if spawned && j == k then 1 else 0
    case FailYoung(k) => if j == k then -1 else 0
    case TakeNote(k) => if j == k then -1 else 0
    case _ => 0
  }

  lemma BusyStep(s: State, step: Step, j: Job)
    requires Enabled(s, step)
    ensures Busy(Do(s, step), j) == Busy(s, j) + Change(step, j)
  {
  }

  lemma ExclusiveStep(s: State, step: Step)
    requires Exclusive(s) && Enabled(s, step) && !step.Unregister?
    ensures Exclusive(Do(s, step))
  {
    var t := Do(s, step);
    forall j ensures Busy(t, j) == Busy(s, j) + Change(step, j) { BusyStep(s, step, j); }
    assert (step.FailYoung? || step.TakeNote?) ==> Busy(s, step.job) > 0;
    assert t.mounted ==
      match step
      case Create(j, spawned) => if spawned then s.mounted + {j.point} else s.mounted
      case Handle(j, _, spawned) => if spawned then s.mounted + {j.point} else s.mounted
      case FailYoung(j) => s.mounted - {j.point}
      case TakeNote(j) => s.mounted - {j.point}
      case _ => s.mounted;
  }

  /** As long as no entry is taken away from outside, by an unmount or by the late bookkeeping of a mounter that failed
      early, a mount point has at most one live mounter, whatever exits and is mounted again. */
  lemma {:induction false} OneMounterPerPoint(pauses: set<string>, steps: seq<Step>)
    requires Possible(Begin(pauses), steps) && forall i | 0 <= i < |steps| :: !steps[i].Unregister?
    ensures Exclusive(After(Begin(pauses), steps))
  {
    if steps != [] {
      OneMounterPerPoint(pauses, steps[..|steps| - 1]);
      ExclusiveStep(After(Begin(pauses), steps[..|steps| - 1]), steps[|steps| - 1]);
    }
  }

  lemma Extend(s: State, steps: seq<Step>, step: Step)
    requires Possible(s, steps) && Enabled(After(s, steps), step)
    ensures Possible(s, steps + [step]) && After(s, steps + [step]) == Do(After(s, steps), step)
  {
    assert (steps + [step])[..|steps|] == steps;
  }

  lemma IssuedStep(steps: seq<Step>, step: Step, uid: string)
    ensures Issued(steps + [step], uid) ==
            Issued(steps, uid) + if step.Handle? && step.job.uid == uid && step.lookup != PauseNotFound then 1 else 0
  {
    assert (steps + [step])[..|steps|] == steps;
  }

  /** A settled mounter that exits comes back through its handler, if the lookup does not say not-found. */
  lemma ComesBack(s: State, steps: seq<Step>, j: Job, lookup: Lookup)
    requires Possible(s, steps) && j in After(s, steps).settled && After(s, steps).young == multiset{}
    requires lookup != PauseNotFound && (lookup == PauseFound ==> j.uid in After(s, steps).pauses)
    ensures var more := steps + [Exit(j)] + [TakeNote(j)] + [Handle(j, lookup, true)];
            && Possible(s, more) && Live(After(s, more))[j] == Live(After(s, steps))[j]
            && After(s, more).pauses == After(s, steps).pauses && Issued(more, j.uid) == Issued(steps, j.uid) + 1
  {
    var a := steps + [Exit(j)];
    var b := a + [TakeNote(j)];
    Extend(s, steps, Exit(j));
    Extend(s, a, TakeNote(j));
    assert After(s, b).young == multiset{};
    Extend(s, b, Handle(j, lookup, true));
    IssuedStep(steps, Exit(j), j.uid);
    IssuedStep(a, TakeNote(j), j.uid);
    IssuedStep(b, Handle(j, lookup, true), j.uid);
  }

  /** A new mounter survives its initial wait. */
  lemma Settles(s: State, steps: seq<Step>, j: Job)
    requires Possible(s, steps) && After(s, steps).young == multiset{} && j.point !in After(s, steps).mounted
    ensures var more, t := steps + [Create(j, true)] + [Settle(j)], After(s, steps);
            && Possible(s, more) && After(s, more).young == multiset{} && Issued(more, j.uid) == Issued(steps, j.uid)
            && After(s, more).settled[j] == t.settled[j] + 1 && After(s, more).pauses == t.pauses
  {
    var a := steps + [Create(j, true)];
    Extend(s, steps, Create(j, true));
    Extend(s, a, Settle(j));
    assert After(s, a + [Settle(j)]).young == multiset{};
    IssuedStep(steps, Create(j, true), j.uid);
    IssuedStep(a, Settle(j), j.uid);
  }

  /** A lookup that fails for another reason is taken for a pod that is still there: the volume of a removed pod, which
      had its pause container when the volume was first mounted, is mounted again. */
  lemma FailedLookupMountsForRemovedPod(j: Job) returns (steps: seq<Step>)
    ensures var s := Begin({j.uid});
            && Possible(s, steps) && |steps| > 3 && steps[2] == PauseDown(j.uid)
            && Possible(s, steps[..2]) && j.uid in After(s, steps[..2]).pauses && j in After(s, steps[..2]).settled
            && Issued(steps, j.uid) == 1 && j.uid !in After(s, steps).pauses && Live(After(s, steps))[j] == 1
  {
    var s := Begin({j.uid});
    Settles(s, [], j);
    var a: seq<Step> := [] + [Create(j, true)] + [Settle(j)];
    Extend(s, a, PauseDown(j.uid));
    var b := a + [PauseDown(j.uid)];
    IssuedStep(a, PauseDown(j.uid), j.uid);
    ComesBack(s, b, j, LookupFailed);
    steps := b + [Exit(j)] + [TakeNote(j)] + [Handle(j, LookupFailed, true)];
    assert steps[..2] == a;
  }

  /** After an unmount a successor settles beside the old mounter, the exit of the old one takes the entry of the
      successor away, and its handler mounts the volume once more. */
  lemma MountedBeside(s: State, steps: seq<Step>, j: Job) returns (more: seq<Step>)
    requires Possible(s, steps) && After(s, steps).settled[j] == 1 && After(s, steps).young == multiset{}
    requires j.uid in After(s, steps).pauses
    ensures Possible(s, more) && Live(After(s, more))[j] == 2
  {
    Extend(s, steps, Unregister(j.point));
    var a := steps + [Unregister(j.point)];
    Settles(s, a, j);
    var b := a + [Create(j, true)] + [Settle(j)];
    ComesBack(s, b, j, PauseFound);
    more := b + [Exit(j)] + [TakeNote(j)] + [Handle(j, PauseFound, true)];
  }

  /** So an unmount breaks the rule of one mounter for each mount point. */
  lemma UnmountAllowsTwoMounters(j: Job)
    ensures exists steps :: Possible(Begin({j.uid}), steps) && Live(After(Begin({j.uid}), steps))[j] == 2
  {
    var s := Begin({j.uid});
    Settles(s, [], j);
    var steps := MountedBeside(s, [] + [Create(j, true)] + [Settle(j)], j);
  }
}
