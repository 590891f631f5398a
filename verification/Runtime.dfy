/** The pod lifecycle engine: one object whose operations change the store step by step.

    Every client call may fail; a failure is recorded as a `Fault` event. The ghost `log` records
    what happened, and `store` is always the replay of that log. No operation asks for a valid
    store: what it promises about valid stores is said in its postconditions. */
module Lifecycle {
  import opened Wrappers
  import opened Labels
  import opened PodStore
  import opened Status
  import opened Plan
  import opened Outcomes
  import opened Deletion
  import opened Ensuring
  import opened Listing
  import opened Startup

  /** The ensure commands are truthful about the store and go with each other: what one of them creates can take the
      containers of the others of its uid. This can be seen from the commands before the run. */
  ghost predicate Truthful(s: Store, cmds: seq<Command>) {
    && (forall c | c in cmds && c.Ensure? :: CmdOk(s, c.cmd) && (HostNetwork in c.cmd.labels ==> c.cmd.hostNetwork))
    && (forall c, d | c in cmds && d in cmds && c.Ensure? && d.Ensure? && c.cmd.uid == d.cmd.uid ::
          Suits(d.cmd, PodLabels(c.cmd)))
  }

  /** An ensure command is truthful about the store. */
  ghost predicate Honest(s: Store, c: Command) { c.Ensure? ==> CmdOk(s, c.cmd) }

  /** Commands that leave every orphan in place: all but listings and deletions without a uid. */
  predicate KeepsOrphans(c: Command) { !c.List? && (c.Delete? ==> c.uid != "") }

  /** What happens from the moment `a`, when a command begins, to the moment `b`, when it ends. An ensure command is
      completed or fails in order and adds only its own pods; any other command adds none; a deletion ends with the
      cleanup; only a listing in which a call failed and an ensure command in which a failure was lost do harm. */
  ghost predicate Span(s: Store, c: Command, a: History, b: History) {
    && Moment(a, b) && Harms(s, a) <= Harms(s, b)
    && (if c.Ensure? then PodsOf(Replay(s, a), Replay(s, b), c.cmd) && EnsureSpan(c.cmd, a, b)
        else NoNewPods(Replay(s, a), Replay(s, b)))
    && (c.Delete? ==> b.Then? && b.event == Cleaned(c.uid))
    && (Harms(s, a) < Harms(s, b) ==>
          (c.List? && Faults(a) < Faults(b)) || (c.Ensure? && Losses(a) < Losses(b)))
  }

  ghost predicate EnsureSpan(cmd: EnsureCmd, a: History, b: History) {
    || (exists w, pause :: DoneInOrder(a, b, w, cmd, pause))
    || (exists w, stop, stage :: FailedInOrder(a, b, w, stop, cmd, stage))
  }

  /** One moment before each command and one after it: the marks divide the run into the spans of the commands. */
  ghost predicate SpansUpTo(s: Store, cmds: seq<Command>, marks: seq<History>, n: nat) {
    n <= |cmds| && n < |marks| && forall i | 0 <= i < n :: Span(s, cmds[i], marks[i], marks[i + 1])
  }

  ghost predicate MarksOf(s: Store, cmds: seq<Command>, marks: seq<History>) {
    |marks| == |cmds| + 1 && SpansUpTo(s, cmds, marks, |cmds|)
  }

  /** The first `n` commands were truthful about the store when their turn came. */
  ghost predicate HonestUpTo(s: Store, cmds: seq<Command>, marks: seq<History>, n: nat) {
    n <= |cmds| && n < |marks| && forall i | 0 <= i < n :: Honest(Replay(s, marks[i]), cmds[i])
  }

  ghost predicate AllHonest(s: Store, cmds: seq<Command>, marks: seq<History>) { HonestUpTo(s, cmds, marks, |cmds|) }

  lemma MarksAppend(s: Store, cmds: seq<Command>, marks: seq<History>, h: History, n: nat)
    requires |marks| == n + 1 && n < |cmds| && Span(s, cmds[n], marks[n], h)
    ensures SpansUpTo(s, cmds, marks, n) ==> SpansUpTo(s, cmds, marks + [h], n + 1)
    ensures HonestUpTo(s, cmds, marks + [h], n + 1) <==>
              HonestUpTo(s, cmds, marks, n) && Honest(Replay(s, marks[n]), cmds[n])
  {
    var more := marks + [h];
    assert forall i | 0 <= i <= n :: more[i] == marks[i];
  }

  /** Harm done by a run is done by one of its commands. */
  lemma {:induction false} HarmHasACommand(s: Store, cmds: seq<Command>, marks: seq<History>, n: nat) returns (i: nat)
    requires SpansUpTo(s, cmds, marks, n) && Harms(s, marks[0]) < Harms(s, marks[n])
    ensures i < n && Harms(s, marks[i]) < Harms(s, marks[i + 1])
    ensures || (cmds[i].List? && Faults(marks[i]) < Faults(marks[i + 1]))
            || (cmds[i].Ensure? && Losses(marks[i]) < Losses(marks[i + 1]))
  {
    if Harms(s, marks[n - 1]) < Harms(s, marks[n]) {
      i := n - 1;
    } else {
      i := HarmHasACommand(s, cmds, marks, n - 1);
    }
  }

  /** Along the marks of a run every count grows. */
  lemma {:induction false} MarksGrow(s: Store, cmds: seq<Command>, marks: seq<History>, i: nat, n: nat)
    requires SpansUpTo(s, cmds, marks, n) && i <= n
    ensures Moment(marks[i], marks[n]) && Harms(s, marks[i]) <= Harms(s, marks[n])
    ensures Faults(marks[i]) <= Faults(marks[n]) && Losses(marks[i]) <= Losses(marks[n])
  {
    if i < n {
      MarksGrow(s, cmds, marks, i, n - 1);
      MomentTrans(marks[i], marks[n - 1], marks[n]);
      CountsGrow(marks[n - 1], marks[n]);
    }
  }

  /** So a run does no harm if no call fails in its listings and no failure is lost in its ensure commands. */
  lemma NoHarmWithoutCause(s: Store, cmds: seq<Command>, marks: seq<History>)
    requires MarksOf(s, cmds, marks)
    requires forall i | 0 <= i < |cmds| ::
               && (cmds[i].List? ==> Faults(marks[i]) == Faults(marks[i + 1]))
               && (cmds[i].Ensure? ==> Losses(marks[i]) == Losses(marks[i + 1]))
    ensures Harms(s, marks[|cmds|]) == Harms(s, marks[0])
  {
    MarksGrow(s, cmds, marks, 0, |cmds|);
    if Harms(s, marks[0]) < Harms(s, marks[|cmds|]) {
      var i := HarmHasACommand(s, cmds, marks, |cmds|);
    }
  }

  /** In particular a run without a fault and without a loss does none. */
  lemma QuietRunDoesNoHarm(s: Store, cmds: seq<Command>, marks: seq<History>)
    requires MarksOf(s, cmds, marks)
    requires Faults(marks[|cmds|]) == Faults(marks[0]) && Losses(marks[|cmds|]) == Losses(marks[0])
    ensures Harms(s, marks[|cmds|]) == Harms(s, marks[0])
  {
    var n := |cmds|;
    forall i | 0 <= i < n
      ensures Faults(marks[i]) == Faults(marks[i + 1]) && Losses(marks[i]) == Losses(marks[i + 1])
    {
      assert SpansUpTo(s, cmds, marks, i) && SpansUpTo(s, cmds, marks, i + 1);
      MarksGrow(s, cmds, marks, 0, i);
      MarksGrow(s, cmds, marks, i, i + 1);
      MarksGrow(s, cmds, marks, i + 1, n);
    }
    NoHarmWithoutCause(s, cmds, marks);
  }

  lemma StaysTruthful(s: Store, t: Store, cmds: seq<Command>, c: Command)
    requires Truthful(s, cmds) && c in cmds
    requires if c.Ensure? then PodsOf(s, t, c.cmd) else NoNewPods(s, t)
    ensures Truthful(t, cmds)
  {
    forall d | d in cmds && d.Ensure? ensures CmdOk(t, d.cmd) {
      assert CmdOk(s, d.cmd);
      forall p | PodOfUid(t, p, d.cmd.uid) ensures Suits(d.cmd, t.pods[p].labels) {
        if p in s.pods && t.pods[p] == s.pods[p] {
          assert PodOfUid(s, p, d.cmd.uid);
        } else {
          OwnPodSuits(c.cmd);
        }
      }
    }
  }

  /** The containers that pass the filter, in the order of a walk over the store that nobody fixes. */
  method SelectCtrs(ctrs: map<Id, CtrRec>, filters: LabelSet) returns (refs: seq<CtrRef>)
    ensures forall r | r in refs :: r.id in ctrs && ctrs[r.id] == r.rec && Matches(filters, r.rec.labels)
    ensures forall c | c in ctrs && Matches(filters, ctrs[c].labels) :: CtrRef(c, ctrs[c]) in refs
  {
    refs := [];
    var rest := ctrs.Keys;
    while rest != {}
      invariant rest <= ctrs.Keys
      invariant forall r | r in refs :: r.id in ctrs && ctrs[r.id] == r.rec && Matches(filters, r.rec.labels)
      invariant forall c | c in ctrs && Matches(filters, ctrs[c].labels) :: c in rest || CtrRef(c, ctrs[c]) in refs
      decreases rest
    {
      var c :| c in rest;
      rest := rest - {c};
      var keep := FilterLabels(filters, ctrs[c].labels);
      if keep {
        refs := refs + [CtrRef(c, ctrs[c])];
      }
    }
  }

  method SelectPods(pods: map<Id, PodRec>, filters: LabelSet) returns (refs: seq<PodRef>)
    ensures EnumeratesPods(pods, filters, refs)
  {
    refs := [];
    var rest := pods.Keys;
    while rest != {}
      invariant rest <= pods.Keys
      invariant forall r | r in refs ::
                  r.id in pods && r.id !in rest && pods[r.id] == r.rec && Matches(filters, r.rec.labels)
      invariant forall i, j | 0 <= i < j < |refs| :: refs[i].id != refs[j].id
      invariant forall p | p in pods && Matches(filters, pods[p].labels) :: p in rest || PodRef(p, pods[p]) in refs
      decreases rest
    {
      var p :| p in rest;
      rest := rest - {p};
      var keep := FilterLabels(filters, pods[p].labels);
      if keep {
        refs := refs + [PodRef(p, pods[p])];
      }
    }
  }

  /** The first pause container of a list. */
  method PauseAmong(ctrs: seq<CtrRef>) returns (r: Option<CtrRef>)
    ensures r.Some? ==> r.value in ctrs && IsPauseContainer(r.value.rec.labels)
    ensures r.None? ==> forall c | c in ctrs :: !IsPauseContainer(c.rec.labels)
  {
    for i := 0 to |ctrs|
      invariant forall j | 0 <= j < i :: !IsPauseContainer(ctrs[j].rec.labels)
    {
      if IsPauseContainer(ctrs[i].rec.labels) {
        return Some(ctrs[i]);
      }
    }
    return None;
  }

  class Runtime {
    var store: Store
    ghost const init: Store
    ghost var log: History

    /** The run started from a good store and has had only admissible events so far. */
    ghost var sound: bool

    /** How many failures were lost, how many pods were removed blindly, and how often that was not admissible. */
    ghost var losses: nat
    ghost var blinds: nat
    ghost var harms: nat

    /** When the current command began, and whose containers it may wake. */
    ghost var base: History
    ghost var topic: Topic

    ghost predicate Valid()
      reads this
    {
      && store == Replay(init, log)
      && losses == Losses(log) && blinds == Blinds(log) && harms == Harms(init, log) && Extends(base, log)
      && (sound ==> Inv(init) && Legal(init, log) && WakesOnly(init, base, log, topic))
    }

    /** In a sound run the store is good. */
    lemma Good()
      requires Valid() && sound
      ensures Inv(store)
    {
      SafeAtEveryMoment(init, log, log);
    }

    constructor (s: Store)
      ensures Valid() && store == s && init == s && log == Start
      ensures sound <==> Inv(s)
    {
      store := s;
      init := s;
      log := Start;
      sound := Inv(s);
      losses, blinds, harms := 0, 0, 0;
      base, topic := Start, Nobody;
    }

    method Emit(e: Event)
      requires Valid() && !IsNote(e)
      modifies this`store, this`log, this`sound
      ensures Valid() && store == Apply(old(store), e) && log == Then(old(log), e)
      ensures sound <==> old(sound) && Admissible(old(store), e)
      ensures Faults(log) == Faults(old(log))
      ensures forall k, b {:trigger Since(k, b, log)} :: Since(k, b, old(log)) && IsKind(k, e) ==> Since(k, b, log)
    {
      sound := sound && Admissible(store, e);
      store := Apply(store, e);
      log := Then(log, e);
    }

    /** Records an observation or a fault: the store stays as it is. Only containers of the topic are woken. */
    method Note(e: Event)
      requires Valid() && IsNote(e) && !e.Lost? && !e.RemoveTry? && (sound ==> WakeOk(store, topic, e))
      modifies this`log
      ensures Valid() && log == Then(old(log), e)
      ensures Faults(log) == Faults(old(log)) + if e.Fault? then 1 else 0
      ensures forall k, b {:trigger Since(k, b, log)} :: Since(k, b, old(log)) && IsKind(k, e) ==> Since(k, b, log)
    {
      log := Then(log, e);
    }

    /** Records that a failure of a command in the abbot container was lost. */
    method NoteLost(ghost c: Id)
      requires Valid()
      modifies this`log, this`losses
      ensures Valid() && log == Then(old(log), Lost(c)) && losses == old(losses) + 1 && Faults(log) == Faults(old(log))
      ensures forall k, b {:trigger Since(k, b, log)} ::
                Since(k, b, old(log)) && IsKind(k, Lost(c)) ==> Since(k, b, log)
    {
      log := Then(log, Lost(c));
      losses := losses + 1;
    }

    /** Records an attempt to remove a pod. */
    method NoteRemove(p: Id, ghost blind: bool)
      requires Valid() && (blind ==> EndsBlind(log))
      modifies this`log, this`blinds, this`harms
      ensures Valid() && log == Then(old(log), RemoveTry(p, blind)) && Faults(log) == Faults(old(log))
      ensures blinds == old(blinds) + if blind then 1 else 0
      ensures harms == old(harms) + if blind && !Admissible(store, PodEmptied(p)) then 1 else 0
      ensures forall k, b {:trigger Since(k, b, log)} ::
                Since(k, b, old(log)) && IsKind(k, RemoveTry(p, blind)) ==> Since(k, b, log)
    {
      log := Then(log, RemoveTry(p, blind));
      blinds, harms := Blinds(log), Harms(init, log);
    }

    method ListContainersByLabels(filters: LabelSet) returns (r: Option<seq<CtrRef>>)
      requires Valid()
      modifies this`log
      ensures Valid()
      ensures log == if r.None? then Then(old(log), Fault(ListCtrsOp)) else old(log)
      ensures r.Some? ==> forall c | c in r.value :: LiveCtr(store, c) && Matches(filters, c.rec.labels)
      ensures r.Some? ==>
                forall c | c in store.ctrs && Matches(filters, store.ctrs[c].labels) ::
                  CtrRef(c, store.ctrs[c]) in r.value
    {
      var fault: bool := *;
      if fault {
        Note(Fault(ListCtrsOp));
        return None;
      }
      var refs := SelectCtrs(store.ctrs, filters);
      return Some(refs);
    }

    method FindContainerByLabels(filters: LabelSet) returns (r: Found<CtrRef>)
      requires Valid()
      modifies this`log
      ensures Valid()
      ensures !r.Multiple?
      ensures log == if r.LookupFailed? then Then(old(log), Fault(ListCtrsOp)) else old(log)
      ensures r.Found? ==> LiveCtr(store, r.value) && Matches(filters, r.value.rec.labels)
      ensures r.NotFound? ==> forall c | c in store.ctrs :: !Matches(filters, store.ctrs[c].labels)
    {
      var ctrs := ListContainersByLabels(filters);
      if ctrs.None? {
        return LookupFailed;
      }
      if |ctrs.value| == 0 {
        return NotFound;
      }
      return Found(ctrs.value[0]);
    }

    method FindContainer(uid: string, name: string) returns (r: Found<CtrRef>)
      requires Valid()
      modifies this`log
      ensures Valid()
      ensures !r.Multiple?
      ensures log == if r.LookupFailed? then Then(old(log), Fault(ListCtrsOp)) else old(log)
      ensures r.Found? ==> LiveCtr(store, r.value)
      ensures uid != "" && r.Found? ==> Managed(r.value.rec.labels) && r.value.rec.labels[PodUid] == uid
      ensures uid != "" && name != "" && r.Found? ==> CtrNamed(store, r.value.id, uid, name)
      ensures uid != "" && name != "" && r.NotFound? ==> forall c :: !CtrNamed(store, c, uid, name)
    {
      var filters: LabelSet := map[PodUid := uid, PodContainer := name];
      r := FindContainerByLabels(filters);
      if uid != "" && name != "" {
        forall c | c in store.ctrs
          ensures Matches(filters, store.ctrs[c].labels) <==> CtrNamed(store, c, uid, name)
        {
          MatchesIsInclusion(filters, store.ctrs[c].labels);
          assert PodUid in filters && PodContainer in filters;
        }
      }
    }

    method FindAbbotContainer() returns (r: Found<CtrRef>)
      requires Valid()
      modifies this`log
      ensures Valid()
      ensures !r.Multiple?
      ensures log == if r.LookupFailed? then Then(old(log), Fault(ListCtrsOp)) else old(log)
      ensures r.Found? ==> LiveCtr(store, r.value) && AbbotCtr(store, r.value.id)
      ensures r.NotFound? ==> forall c :: !AbbotCtr(store, c)
    {
      r := FindContainerByLabels(AbbotMatchLabels());
      forall c | c in store.ctrs
        ensures Matches(AbbotMatchLabels(), store.ctrs[c].labels) <==> AbbotCtr(store, c)
      {
        AbbotLookupMeaning(store.ctrs[c].labels);
      }
    }

    /** The pods whose labels match, in an unknown order. */
    method ListPodsByLabels(filters: LabelSet) returns (r: Option<seq<PodRef>>)
      requires Valid()
      modifies this`log
      ensures Valid()
      ensures log == if r.None? then Then(old(log), Fault(ListPodsOp)) else old(log)
      ensures r.Some? ==> EnumeratesPods(store.pods, filters, r.value)
    {
      var fault: bool := *;
      if fault {
        Note(Fault(ListPodsOp));
        return None;
      }
      var refs := SelectPods(store.pods, filters);
      return Some(refs);
    }

    method FindPod(uid: string) returns (r: Found<PodRef>)
      requires Valid()
      modifies this`log
      ensures Valid()
      ensures log == if r.LookupFailed? then Then(old(log), Fault(ListPodsOp)) else old(log)
      ensures r.Found? ==> Live(store, r.value)
      ensures uid != "" && r.Found? ==> PodOfUid(store, r.value.id, uid)
      ensures uid != "" && r.NotFound? ==> forall p :: !PodOfUid(store, p, uid)
      ensures uid != "" && sound ==> !r.Multiple?
    {
      var filters: LabelSet := map[PodUid := uid];
      var pods := ListPodsByLabels(filters);
      if pods.None? {
        return LookupFailed;
      }
      if uid != "" {
        forall p | p in store.pods
          ensures Matches(filters, store.pods[p].labels) <==> PodOfUid(store, p, uid)
        {
          MatchesIsInclusion(filters, store.pods[p].labels);
          assert PodUid in filters;
        }
      }
      if |pods.value| == 0 {
        return NotFound;
      } else if |pods.value| == 1 {
        return Found(pods.value[0]);
      } else {
        if uid != "" && sound {
          Good();
          assert pods.value[0] in pods.value && pods.value[1] in pods.value;
          assert SameUid(store, pods.value[0].id, pods.value[1].id);
        }
        return Multiple;
      }
    }

    /** Refuses while any pause container is on the cluster network. */
    method AbbotGuard() returns (r: GuardOutcome)
      requires Valid()
      modifies this`log
      ensures Valid()
      ensures log == if r == GuardFailed then Then(old(log), Fault(ListCtrsOp)) else old(log)
      ensures r == Refused ==> exists c :: ClusterPause(store, c)
      ensures r == Allowed ==> forall c :: !ClusterPause(store, c)
    {
      var filters: LabelSet := map[ContainerRole := INFRA];
      var ctrs := ListContainersByLabels(filters);
      if ctrs.None? {
        return GuardFailed;
      }
      forall c | c in store.ctrs
        ensures Matches(filters, store.ctrs[c].labels) <==> IsInfra(store.ctrs[c].labels)
      {
        MatchesIsInclusion(filters, store.ctrs[c].labels);
        assert ContainerRole in filters;
      }
      for i := 0 to |ctrs.value|
        invariant forall j | 0 <= j < i :: IsHostNetwork(ctrs.value[j].rec.labels)
      {
        if !IsHostNetwork(ctrs.value[i].rec.labels) {
          assert ctrs.value[i] in ctrs.value;
          assert ClusterPause(store, ctrs.value[i].id);
          return Refused;
        }
      }
      return Allowed;
    }

    /** The guard as deletions use it: it stands only before the pod or container of the abbot. */
    method GuardIfAbbot(labels: LabelSet) returns (r: GuardOutcome)
      requires Valid()
      modifies this`log
      ensures Valid()
      ensures log == if r == GuardFailed then Then(old(log), Fault(ListCtrsOp)) else old(log)
      ensures r == GuardFailed ==> IsAbbotPod(labels)
      ensures r == Refused ==> IsAbbotPod(labels) && exists c :: ClusterPause(store, c)
      ensures r == Allowed && IsAbbotPod(labels) ==> forall c :: !ClusterPause(store, c)
    {
      if !IsAbbotPod(labels) {
        return Allowed;
      }
      r := AbbotGuard();
    }

    /** Runs a command in the abbot container, starting that container first if it is not running. */
    method AbbotRun() returns (r: ExecOutcome, ghost c: Id, ghost seen: RunState)
      requires Valid()
      modifies this`log
      ensures Valid() && r != ExecLost
      ensures r == ExecDone ==>
                && AbbotCtr(store, c)
                && (seen == Running ==> log == Then(old(log), Seen(c, Running)))
                && (seen != Running ==> log == Then(Then(old(log), Seen(c, seen)), AbbotStarted(c)))
      ensures Since(AbbotKind, old(log), log)
      ensures r == AbbotMissing ==> forall c :: !AbbotCtr(store, c)
      ensures r == ExecFailed <==> Faults(log) > Faults(old(log))
      ensures r == ExecFailed ==> EndsWithFault(log)
      ensures Faults(log) >= Faults(old(log))
    {
      c, seen := 0, Unknown;
      var found := FindAbbotContainer();
      if found.NotFound? {
        return AbbotMissing, c, seen;
      }
      if !found.Found? {
        return ExecFailed, c, seen;
      }
      c := found.value.id;
      var state, stateFault: bool := *, *;
      if stateFault {
        Note(Fault(StateOp));
        return ExecFailed, c, seen;
      }
      Note(Seen(found.value.id, state));
      seen := state;
      if state != Running {
        var startFault: bool := *;
        if startFault {
          Note(Fault(StartOp));
          return ExecFailed, c, seen;
        }
        Note(AbbotStarted(found.value.id));
        stateFault := *;
        if stateFault {
          Note(Fault(StateOp));
          return ExecFailed, c, seen;
        }
      }
      var execFault: bool := *;
      if execFault {
        Note(Fault(AbbotExecOp));
        return ExecFailed, c, seen;
      }
      return ExecDone, c, seen;
    }

    /** Runs a command in the abbot container. If the call can be cancelled, the failure of the command can be lost on
        the way: what the caller gets then is the result of a success. */
    method AbbotExec(cancellable: bool) returns (r: ExecOutcome)
      requires Valid()
      modifies this`log, this`losses
      ensures Valid()
      ensures Since(LossyKind, old(log), log) && (r != ExecLost ==> Since(AbbotKind, old(log), log))
      ensures losses == old(losses) + if r == ExecLost then 1 else 0
      ensures r == ExecLost ==> cancellable && log.Then? && log.event.Lost?
      ensures r == AbbotMissing ==> forall c :: !AbbotCtr(store, c)
      ensures sound && (exists c :: ClusterPause(store, c)) ==> r != AbbotMissing
      ensures r == ExecFailed <==> Faults(log) > Faults(old(log))
      ensures r == ExecFailed ==> EndsWithFault(log)
      ensures Faults(log) >= Faults(old(log))
    {
      if sound {
        Good();
      }
      ghost var c, seen;
      r, c, seen := AbbotRun();
      SinceWeaken(AbbotKind, LossyKind, old(log), log);
      var lost: bool := *;
      if r == ExecDone && cancellable && lost {
        NoteLost(c);
        r := ExecLost;
      }
    }

    /** Deletes the network of a container. A failed call may or may not have detached it, and `lost` says that it has
        not although it passed for a success. */
    method NetworkDelete(c: Id, cancellable: bool) returns (ok: bool, ghost lost: bool)
      requires Valid()
      modifies this`store, this`log, this`sound, this`losses
      ensures NoNewPods(old(store), store)
      ensures Valid() && sound == old(sound)
      ensures Since(TakeKind(cancellable), old(log), log)
      ensures losses >= old(losses) && (!cancellable ==> losses == old(losses))
      ensures store == old(store) || store == Apply(old(store), NetDown(c))
      ensures ok && !lost ==> store == Apply(old(store), NetDown(c))
      ensures lost ==> ok && losses > old(losses) && EndsBlind(log)
      ensures ok && losses == old(losses) ==>
                log.Then? && log.event == NetDown(c) && Since(UndoKind, old(log), log.prev)
      ensures old(sound) && (exists d :: ClusterPause(old(store), d)) ==> (ok <==> Faults(log) == Faults(old(log)))
      ensures Faults(log) >= Faults(old(log))
    {
      var r := AbbotExec(cancellable);
      SinceWeaken(LossyKind, SetupKind, old(log), log);
      if r != ExecLost {
        SinceWeaken(AbbotKind, UndoKind, old(log), log);
      }
      var done: bool := *;
      if r == ExecDone || (r != AbbotMissing && done) {
        Emit(NetDown(c));
      }
      return r == ExecDone || r == ExecLost, r == ExecLost && !done;
    }

    /** Deletes the network of a pause container, unless it is on the host network. */
    method DetachPause(pause: CtrRef, cancellable: bool) returns (ok: bool, ghost lost: bool)
      requires Valid()
      modifies this`store, this`log, this`sound, this`losses
      ensures Valid() && sound == old(sound) && Faults(log) >= Faults(old(log))
      ensures Since(TakeKind(cancellable), old(log), log)
      ensures losses >= old(losses) && (!cancellable ==> losses == old(losses))
      ensures store == old(store) || store == Apply(old(store), NetDown(pause.id))
      ensures IsHostNetwork(pause.rec.labels) ==> ok && !lost && log == old(log) && store == old(store)
      ensures ok && !lost && !IsHostNetwork(pause.rec.labels) ==> store == Apply(old(store), NetDown(pause.id))
      ensures lost ==> ok && losses > old(losses) && EndsBlind(log)
      ensures ok && losses == old(losses) && !IsHostNetwork(pause.rec.labels) ==>
                log.Then? && log.event == NetDown(pause.id) && Since(UndoKind, old(log), log.prev)
      ensures old(sound) && (exists d :: ClusterPause(old(store), d)) ==> (ok <==> Faults(log) == Faults(old(log)))
    {
      if IsHostNetwork(pause.rec.labels) {
        return true, false;
      }
      ok, lost := NetworkDelete(pause.id, cancellable);
    }

    /** The containers of a pod go in one step and the pod in another, and the call may fail before, between or after
        them. */
    method RemoveSteps(p: PodRef) returns (ok: bool)
      requires Valid() && p.id in store.pods
      modifies this`store, this`log, this`sound
      ensures NoNewPods(old(store), store)
      ensures Valid() && Since(RemoveKind, old(log), log)
      ensures old(sound) && Admissible(old(store), PodEmptied(p.id)) ==> sound
      ensures RemovedAsFar(old(store), store, p.id, ok) && (ok <==> Faults(log) == Faults(old(log)))
      ensures Faults(log) >= Faults(old(log))
    {
      var stage: nat :| 0 <= stage <= 3;
      if stage == 0 {
        Note(Fault(RemovePodOp));
        return false;
      }
      Emit(PodEmptied(p.id));
      if stage == 1 {
        Note(Fault(RemovePodOp));
        return false;
      }
      Emit(PodGone(p.id));
      if stage == 2 {
        Note(Fault(RemovePodOp));
        return false;
      }
      return true;
    }

    /** Removes a pod and its containers. `blind` says that nobody knows whether its network is deleted. */
    method RemovePod(p: PodRef, ghost blind: bool) returns (ok: bool)
      requires Valid() && (blind ==> EndsBlind(log))
      modifies this`store, this`log, this`sound, this`blinds, this`harms
      ensures NoNewPods(old(store), store)
      ensures Valid()
      ensures Since(RemoveKind, Then(old(log), RemoveTry(p.id, blind)), log)
      ensures Since(SetupKind, old(log), log) && (!blind ==> Since(UndoKind, old(log), log))
      ensures blinds == old(blinds) + if blind then 1 else 0
      ensures harms == old(harms) + if blind && !Admissible(old(store), PodEmptied(p.id)) then 1 else 0
      ensures old(sound) && Admissible(old(store), PodEmptied(p.id)) ==> sound
      ensures p.id !in old(store).pods ==> store == old(store) && sound == old(sound)
      ensures p.id in old(store).pods ==>
                RemovedAsFar(old(store), store, p.id, ok) && (ok <==> Faults(log) == Faults(old(log)))
      ensures Faults(log) >= Faults(old(log))
    {
      NoteRemove(p.id, blind);
      ghost var tried := log;
      if p.id !in store.pods {
        ok := *;
        return;
      }
      ok := RemoveSteps(p);
      SinceWeaken(RemoveKind, UndoKind, tried, log);
      SinceWeaken(UndoKind, SetupKind, tried, log);
      SinceTrans(SetupKind, old(log), tried, log);
      if !blind {
        SinceTrans(UndoKind, old(log), tried, log);
      }
    }

    /** The pause container of a managed pod. */
    method FindPauseOf(p: PodRef) returns (r: Found<CtrRef>)
      requires Valid() && Managed(p.rec.labels)
      modifies this`log
      ensures Valid() && !r.Multiple? && (r.Found? ==> LiveCtr(store, r.value))
      ensures log == if r.LookupFailed? then Then(old(log), Fault(ListCtrsOp)) else old(log)
      ensures p.rec.labels[PodUid] != "" && r.Found? ==> CtrNamed(store, r.value.id, p.rec.labels[PodUid], PAUSE)
      ensures sound && Live(store, p) && r.Found? ==>
                PauseAgrees(store, p, r.value) && HasPause(store, p.id)
      ensures sound && Live(store, p) && r.NotFound? ==> !HasPause(store, p.id) && forall c :: !InPod(store, c, p.id)
      ensures sound && Pauseless(store, p) ==> !r.Found?
    {
      var uid := p.rec.labels[PodUid];
      r := FindContainer(uid, PAUSE);
      if sound {
        Good();
        if Live(store, p) {
          PauseLookup(store, p, r);
        }
        if Absent(store, p) {
          forall c { NoPodNoCtr(store, c, uid, PAUSE); }
        }
      }
    }

    /** Deletes the network of the pause container and asks the abbot guard. `None` means that the removal may go on,
        and `lost` that it does so blindly. */
    method LetGo(p: PodRef, pause: CtrRef, cancellable: bool) returns (r: Option<DeleteOutcome>, ghost lost: bool)
      requires Valid() && LiveCtr(store, pause)
      modifies this`store, this`log, this`sound, this`losses
      ensures Valid() && Faults(log) >= Faults(old(log)) && sound == old(sound)
      ensures store == old(store) || store == Apply(old(store), NetDown(pause.id))
      ensures Since(TakeKind(cancellable), old(log), log)
      ensures losses >= old(losses) && (!cancellable ==> losses == old(losses))
      ensures r in {None, Some(NetworkFault), Some(GuardFault), Some(GuardRefused)}
      ensures lost ==> r.None? && losses > old(losses) && EndsBlind(log)
      ensures r.None? ==> !Guarded(store, pause.rec.labels) && (!lost ==> store == Detached(old(store), pause.id))
      ensures r.None? && losses == old(losses) && !IsHostNetwork(pause.rec.labels) ==>
                log.Then? && log.event == NetDown(pause.id) && Since(UndoKind, old(log), log.prev)
      ensures sound && PauseAgrees(old(store), p, pause) ==>
                && (r.Some? ==> Explains(r.value, old(store), store, p))
                && (r.Some? && Faults(log) == Faults(old(log)) ==>
                      r == Some(GuardRefused) && Guarded(old(store), p.rec.labels))
    {
      lost := false;
      var ok;
      ghost var blind;
      ok, blind := DetachPause(pause, cancellable);
      if !ok {
        return Some(NetworkFault), lost;
      }
      var guard := GuardIfAbbot(pause.rec.labels);
      if guard == GuardFailed {
        return Some(GuardFault), lost;
      }
      if guard == Refused {
        return Some(GuardRefused), lost;
      }
      return None, blind;
    }

    /** The part of a pod deletion before the pod is removed: look up the pause container, delete its
        network, ask the abbot guard. `None` means that the removal may go on, and `lost` that it does so blindly. */
    method PrepareDelete(p: PodRef, cancellable: bool) returns (r: Option<DeleteOutcome>, ghost c: Id, ghost lost: bool)
      requires Valid() && Managed(p.rec.labels)
      modifies this`store, this`log, this`sound, this`losses
      ensures NoNewPods(old(store), store)
      ensures Valid() && Faults(log) >= Faults(old(log)) && sound == old(sound)
      ensures Since(TakeKind(cancellable), old(log), log)
      ensures losses >= old(losses) && (!cancellable ==> losses == old(losses))
      ensures r != Some(Deleted) && (lost ==> r.None? && losses > old(losses) && EndsBlind(log))
      ensures r.None? && losses == old(losses) && p.rec.labels[PodUid] != "" ==>
                Prepared(old(store), store, p.rec.labels[PodUid], c)
      ensures sound && Live(old(store), p) && r.None? && losses == old(losses) && !IsHostNetwork(p.rec.labels) ==>
                && IsPauseOf(old(store), c, p.id)
                && log.Then? && log.event == NetDown(c) && Since(UndoKind, old(log), log.prev)
      ensures sound && Live(old(store), p) ==>
                && DetachedAtMost(old(store), store, p.id, c)
                && (r.None? && !lost ==> Admissible(store, PodEmptied(p.id)))
                && (r.None? ==> ExpectedDelete(old(store), p) == Deleted)
                && (r.Some? ==> Explains(r.value, old(store), store, p))
                && (r.Some? && Faults(log) == Faults(old(log)) ==> r.value == ExpectedDelete(old(store), p))
      ensures sound && Pauseless(old(store), p) ==>
                store == old(store) && (r == Some(NoPause) || r == Some(LookupFault))
    {
      ghost var s := store;
      c, lost := 0, false;
      if sound {
        Good();
      }
      var found := FindPauseOf(p);
      if found.NotFound? {
        return Some(NoPause), c, lost;
      }
      if !found.Found? {
        return Some(LookupFault), c, lost;
      }
      c := found.value.id;
      r, lost := LetGo(p, found.value, cancellable);
      if sound && Live(s, p) && r.None? {
        SameClusters(s, store, c);
        if !lost {
          ReadyToEmpty(s, store, p, c);
        }
      }
    }

    /** Removes a pod after the preparations, which led from `first` to the present store. */
    method RemovePrepared(p: PodRef, ghost lost: bool, ghost first: Store, ghost c: Id, ghost begin: History)
      returns (r: DeleteOutcome)
      requires Valid() && Managed(p.rec.labels) && (lost ==> EndsBlind(log))
      modifies this`store, this`log, this`sound, this`blinds, this`harms
      ensures NoNewPods(old(store), store)
      ensures Valid() && Faults(log) >= Faults(old(log)) && (r == Deleted || r == RemoveFault)
      ensures Since(SetupKind, old(log), log) && (!lost ==> Since(UndoKind, old(log), log))
      ensures harms >= old(harms) && (!lost ==> blinds == old(blinds) && harms == old(harms))
      ensures old(sound) && (!lost ==> Admissible(old(store), PodEmptied(p.id))) && harms == old(harms) ==> sound
      ensures p.id in old(store).pods ==> (r == Deleted <==> Faults(log) == Faults(old(log)))
      ensures Live(first, p) && Live(old(store), p) && DetachedAtMost(first, old(store), p.id, c) ==>
                DeletionKeeps(first, store, p, r)
      ensures && r == Deleted && p.id in old(store).pods
              && Prepared(first, old(store), p.rec.labels[PodUid], c) ==>
                TakenDown(first, store, p.id, p.rec.labels[PodUid])
      ensures && !lost && IsPauseOf(first, c, p.id) && old(log).Then? && old(log).event == NetDown(c)
              && Since(UndoKind, begin, old(log).prev) ==>
                NetworkDeleted(first, p.id, begin, log)
    {
      ghost var t := store;
      var removed := RemovePod(p, lost);
      if Live(first, p) && Live(t, p) && DetachedAtMost(first, t, p.id, c) {
        RemovalExplained(first, t, store, p, c, removed);
      }
      if removed && p.id in t.pods && Prepared(first, t, p.rec.labels[PodUid], c) {
        TakenDownFrom(first, t, store, p.id, p.rec.labels[PodUid], c);
      }
      if && !lost && IsPauseOf(first, c, p.id) && old(log).Then? && old(log).event == NetDown(c)
         && Since(UndoKind, begin, old(log).prev) {
        NetworkDeletedFrom(first, p.id, c, begin, old(log), log);
      }
      return if removed then Deleted else RemoveFault;
    }

    /** Takes a managed pod down: network first, then the abbot guard, then the pod itself. */
    method DeleteManaged(p: PodRef, cancellable: bool) returns (r: DeleteOutcome)
      requires Valid() && Managed(p.rec.labels)
      modifies this`store, this`log, this`sound, this`losses, this`blinds, this`harms
      ensures NoNewPods(old(store), store)
      ensures Valid() && Since(TakeKind(cancellable), old(log), log) && Faults(log) >= Faults(old(log))
      ensures losses >= old(losses) && harms >= old(harms) && (harms > old(harms) ==> losses > old(losses))
      ensures !cancellable ==> losses == old(losses) && blinds == old(blinds) && harms == old(harms)
      ensures old(sound) && Live(old(store), p) ==>
                && (harms == old(harms) ==> sound)
                && DeletionKeeps(old(store), store, p, r)
                && (Faults(log) == Faults(old(log)) ==> r == ExpectedDelete(old(store), p))
      ensures && old(sound) && Live(old(store), p) && !IsHostNetwork(p.rec.labels) && p.id !in store.pods
              && losses == old(losses) ==>
                NetworkDeleted(old(store), p.id, old(log), log)
      ensures r == Deleted && losses == old(losses) && p.id in old(store).pods && p.rec.labels[PodUid] != "" ==>
                TakenDown(old(store), store, p.id, p.rec.labels[PodUid])
      ensures old(sound) && Pauseless(old(store), p) ==>
                sound && store == old(store) && (r == NoPause || r == LookupFault)
    {
      ghost var s := store;
      var stop, c, lost := PrepareDelete(p, cancellable);
      ghost var t, before := store, log;
      if stop.Some? {
        if sound && Live(s, p) {
          StoppedDeletionKeeps(s, t, p, c, stop.value);
        }
        return stop.value;
      }
      r := RemovePrepared(p, lost, s, c, old(log));
      SinceTrans(TakeKind(cancellable), old(log), before, log);
    }

    /** Takes a pod down; one that is not managed is removed at once. */
    method DeletePodByRef(p: PodRef, cancellable: bool) returns (r: DeleteOutcome)
      requires Valid()
      modifies this`store, this`log, this`sound, this`losses, this`blinds, this`harms
      ensures !Managed(p.rec.labels) ==> Since(RemoveKind, Then(old(log), RemoveTry(p.id, false)), log)
      ensures !Managed(p.rec.labels) && Live(old(store), p) ==> SameOutside(old(store), store, {p.id})
      ensures NoNewPods(old(store), store)
      ensures Valid() && Since(TakeKind(cancellable), old(log), log) && Faults(log) >= Faults(old(log))
      ensures losses >= old(losses) && harms >= old(harms) && (harms > old(harms) ==> losses > old(losses))
      ensures !cancellable ==> losses == old(losses) && blinds == old(blinds) && harms == old(harms)
      ensures old(sound) && Live(old(store), p) ==>
                && (harms == old(harms) ==> sound)
                && DeletionKeeps(old(store), store, p, r)
                && (Faults(log) == Faults(old(log)) ==> r == ExpectedDelete(old(store), p))
      ensures && old(sound) && Live(old(store), p) && Managed(p.rec.labels) && !IsHostNetwork(p.rec.labels)
              && p.id !in store.pods && losses == old(losses) ==>
                NetworkDeleted(old(store), p.id, old(log), log)
      ensures r == Deleted && losses == old(losses) && p.id in old(store).pods ==> Gone(old(store), store, p)
      ensures old(sound) && Pauseless(old(store), p) ==>
                sound && store == old(store) && (r == NoPause || r == LookupFault)
    {
      if Managed(p.rec.labels) {
        r := DeleteManaged(p, cancellable);
        return;
      }
      ghost var s := store;
      if sound && Live(s, p) {
        Good();
        EmptyingForeignAllowed(s, p.id);
      }
      var removed := RemovePod(p, false);
      if Live(s, p) {
        RemovalExplained(s, s, store, p, 0, removed);
      }
      return if removed then Deleted else RemoveFault;
    }

    method LookupPod(name: string) returns (r: Option<PodRef>)
      requires Valid()
      modifies this`log
      ensures Valid() && Faults(log) >= Faults(old(log)) && Since(UndoKind, old(log), log)
      ensures r.Some? ==> Live(store, r.value) && r.value.rec.name == name && log == old(log)
      ensures r.None? && Faults(log) == Faults(old(log)) ==> forall p | p in store.pods :: store.pods[p].name != name
    {
      var fault: bool := *;
      if fault {
        Note(Fault(LookupPodOp));
        return None;
      }
      if p :| p in store.pods && store.pods[p].name == name {
        return Some(PodRef(p, store.pods[p]));
      }
      return None;
    }

    /** Pods and containers share one set of names. */
    predicate NameInUse(name: string)
      reads this
    {
      || (exists p :: p in store.pods && store.pods[p].name == name)
      || (exists c :: c in store.ctrs && store.ctrs[c].name == name)
    }

    method NewPod(name: string, labels: LabelSet) returns (r: Option<PodRef>)
      requires Valid()
      modifies this`store, this`log, this`sound
      ensures Valid()
      ensures r.Some? ==> && r.value == PodRef(old(store).next, PodRec(name, labels)) && !old(NameInUse(name))
                          && store == Apply(old(store), PodNew(r.value.id, name, labels))
                          && log == Then(old(log), PodNew(r.value.id, name, labels))
                          && (sound <==> old(sound) && Admissible(old(store), PodNew(r.value.id, name, labels)))
      ensures r.None? ==> store == old(store) && sound == old(sound) && log == Then(old(log), Fault(NewPodOp))
    {
      var fault: bool := *;
      if fault || NameInUse(name) {
        Note(Fault(NewPodOp));
        return None;
      }
      var id := store.next;
      Emit(PodNew(id, name, labels));
      return Some(PodRef(id, PodRec(name, labels)));
    }

    method NewContainer(pod: PodRef, name: string, labels: LabelSet) returns (r: Option<CtrRef>)
      requires Valid()
      modifies this`store, this`log, this`sound
      ensures Valid()
      ensures r.Some? ==> && r.value == CtrRef(old(store).next, CtrRec(pod.id, name, labels)) && !old(NameInUse(name))
                          && store == Apply(old(store), CtrNew(r.value.id, pod.id, name, labels))
                          && log == Then(old(log), CtrNew(r.value.id, pod.id, name, labels))
                          && (sound <==> old(sound) && Admissible(old(store), CtrNew(r.value.id, pod.id, name, labels)))
      ensures r.None? ==> store == old(store) && sound == old(sound) && log == Then(old(log), Fault(NewCtrOp))
    {
      var fault: bool := *;
      if fault || NameInUse(name) || pod.id !in store.pods {
        Note(Fault(NewCtrOp));
        return None;
      }
      var id := store.next;
      Emit(CtrNew(id, pod.id, name, labels));
      return Some(CtrRef(id, CtrRec(pod.id, name, labels)));
    }

    /** Both rollbacks of a failed pause container: the same pod is deleted twice, and after a successful
        first deletion the second one changes nothing. */
    method UndoTwice(p: PodRef) returns (first: DeleteOutcome, second: DeleteOutcome)
      requires Valid() && Managed(p.rec.labels)
      modifies this`store, this`log, this`sound, this`losses, this`blinds, this`harms
      ensures NoNewPods(old(store), store)
      ensures Valid() && Since(UndoKind, old(log), log)
      ensures losses == old(losses) && blinds == old(blinds) && harms == old(harms)
      ensures old(sound) && Live(old(store), p) ==>
                && sound && SameOutside(old(store), store, {p.id}) && old(store).next == store.next
                && RolledBack(store, p, [first, second], Faults(log) == Faults(old(log)))
                && (first == Deleted ==> second == NoPause || second == LookupFault)
    {
      ghost var s := store;
      if sound {
        Good();
      }
      first := DeletePodByRef(p, false);
      ghost var t, mid := store, log;
      if old(sound) && Live(s, p) && p.id !in t.pods {
        GoneIsAbsent(s, t, p);
      }
      second := DeletePodByRef(p, false);
      SinceTrans(UndoKind, old(log), mid, log);
      if old(sound) && Live(s, p) && p.id in t.pods {
        SameOutsideTrans(s, t, store, {p.id}, {p.id});
        assert {p.id} + {p.id} == {p.id};
        StillThere(t, store, p, second, Faults(log) == Faults(old(log)));
      }
    }

    /** Sets up the network of a container. A failed call may or may not have attached it, and its failure may be
        lost. */
    method NetworkDo(c: Id) returns (ok: bool)
      requires Valid()
      modifies this`store, this`log, this`sound, this`losses
      ensures NoNewPods(old(store), store)
      ensures Valid() && Since(SetupKind, old(log), log) && losses >= old(losses)
      ensures store == old(store) || store == Apply(old(store), NetUp(c))
      ensures ok && losses == old(losses) ==>
                && store == Apply(old(store), NetUp(c))
                && log.Then? && log.event == NetUp(c) && Since(AbbotKind, old(log), log.prev)
      ensures old(sound) && ClusterPause(old(store), c) ==> sound && (!ok ==> EventToBlame(NetworkSetup, log))
    {
      var r := AbbotExec(true);
      SinceWeaken(LossyKind, SetupKind, old(log), log);
      var done: bool := *;
      if r == ExecDone || (r != AbbotMissing && done) {
        Emit(NetUp(c));
      }
      return r == ExecDone || r == ExecLost;
    }

    /** Starts a new pause container, checks that it runs and sets up its network. */
    method StartPause(cmd: EnsureCmd, pause: CtrRef) returns (failed: Option<Stage>)
      requires Valid() && (sound ==> Wakeable(store, topic, pause.id))
      modifies this`store, this`log, this`sound, this`losses
      ensures NoNewPods(old(store), store)
      ensures Valid() && Since(SetupKind, old(log), log) && losses >= old(losses)
      ensures store == old(store) || (!cmd.hostNetwork && store == Apply(old(store), NetUp(pause.id)))
      ensures failed.None? && losses == old(losses) ==>
                && (!cmd.hostNetwork ==> store == Apply(old(store), NetUp(pause.id)))
                && CameUp(cmd, log, pause.id)
      ensures old(sound) && (cmd.hostNetwork || ClusterPause(old(store), pause.id)) ==>
                sound && (failed.Some? ==> EventToBlame(failed.value, log))
    {
      var startFault: bool := *;
      if startFault {
        Note(Fault(StartOp));
        return Some(PauseStart);
      }
      Note(Started(pause.id));
      var exitFault, exited: bool := *, *;
      if exitFault {
        Note(Fault(ExitCodeOp));
        return Some(PauseExit);
      }
      if exited {
        Note(Seen(pause.id, Exited));
        return Some(PauseExit);
      }
      Note(Alive(pause.id));
      if !cmd.hostNetwork {
        ghost var mid := log;
        assert StartedAlive(mid, pause.id);
        var ok := NetworkDo(pause.id);
        SinceTrans(SetupKind, old(log), mid, log);
        if !ok {
          return Some(NetworkSetup);
        }
      }
      return None;
    }

    /** Takes a pod down after a failure. */
    method UndoOnce(p: PodRef) returns (r: DeleteOutcome)
      requires Valid()
      modifies this`store, this`log, this`sound, this`losses, this`blinds, this`harms
      ensures NoNewPods(old(store), store)
      ensures Valid() && Since(UndoKind, old(log), log)
      ensures losses == old(losses) && blinds == old(blinds) && harms == old(harms)
      ensures old(sound) && Live(old(store), p) ==>
                && sound && SameOutside(old(store), store, {p.id}) && old(store).next == store.next
                && RolledBack(store, p, [r], Faults(log) == Faults(old(log)))
      ensures old(sound) && Pauseless(old(store), p) ==> store == old(store)
    {
      ghost var s := store;
      r := DeletePodByRef(p, false);
      if old(sound) && Live(s, p) {
        StillThere(s, store, p, r, Faults(log) == Faults(old(log)));
      }
    }

    /** Starts the pause container; on failure the pod is taken down twice. */
    method FinishPause(cmd: EnsureCmd, pod: PodRef, pause: CtrRef) returns (r: PauseOutcome, ghost stop: History)
      requires Valid() && Managed(pod.rec.labels) && (sound ==> Wakeable(store, topic, pause.id))
      modifies this`store, this`log, this`sound, this`losses, this`blinds, this`harms
      ensures NoNewPods(old(store), store)
      ensures Valid() && Since(SetupKind, old(log), stop)
      ensures harms == old(harms) && losses >= old(losses)
      ensures if r.PauseReady? then stop == log else Since(UndoKind, stop, log)
      ensures r.PauseReady? ==> r.pod == pod && r.pause == pause
      ensures r.PauseReady? ==> Wakeable(old(store), topic, pause.id) ==> Wakeable(store, topic, pause.id)
      ensures r.PauseReady? ==> PodIn(old(store), topic, pod.id) ==> PodIn(store, topic, pod.id)
      ensures r.PauseReady? && losses == old(losses) ==>
                && CameUp(cmd, stop, pause.id)
                && store == if cmd.hostNetwork then old(store) else Apply(old(store), NetUp(pause.id))
      ensures old(sound) && PauseNew(old(store), cmd, pod, pause) ==>
                && sound
                && PauseWork(old(store), store, cmd, pod, r, stop, Faults(log) == Faults(stop), losses == old(losses))
    {
      ghost var s := store;
      var failed := StartPause(cmd, pause);
      stop := log;
      ghost var t := store;
      ghost var fits := old(sound) && PauseNew(s, cmd, pod, pause);
      if failed.Some? {
        var first, second := UndoTwice(pod);
        if fits {
          PauseWorkUndone(s, t, store, cmd, pod, pause, failed.value, [first, second], stop,
                          Faults(log) == Faults(stop), losses == old(losses));
        }
        return PauseFailed(failed.value, [first, second]), stop;
      }
      AttachKeepsTopic(s, t, topic, pause.id, pod.id);
      if fits {
        PauseWorkDone(s, t, cmd, pod, pause, stop, Faults(log) == Faults(stop), losses == old(losses));
      }
      return PauseReady(pod, pause), stop;
    }

    /** Creates the pause container of a new pod. */
    method NewPause(cmd: EnsureCmd, pod: PodRef) returns (r: Option<CtrRef>, stage: Stage)
      requires Valid() && pod.rec.labels == PodLabels(cmd) && Live(store, pod)
      modifies this`store, this`log, this`sound
      ensures Valid()
      ensures r.Some? ==> && r.value == NewCtr(old(store), cmd, pod, PauseSpec())
                          && !old(NameInUse(r.value.rec.name))
                          && log == Then(old(log), CtrNew(r.value.id, pod.id, r.value.rec.name, r.value.rec.labels))
                          && store == Apply(old(store), log.event)
                          && (sound ==> old(sound))
      ensures NoNewPods(old(store), store) && Since(SetupKind, old(log), log)
      ensures r.Some? ==> PodIn(store, TopicOf(cmd), pod.id) && Wakeable(store, TopicOf(cmd), r.value.id)
      ensures r.Some? && old(sound) && NewPodFor(old(store), cmd, pod) ==>
                sound && PauseNew(store, cmd, pod, r.value) && SameOutside(old(store), store, {pod.id})
      ensures r.None? ==> && store == old(store) && sound == old(sound)
                          && log.Then? && log.event.Fault? && log.prev == old(log)
      ensures r.None? ==> stage == PauseConfig || stage == PauseCreate
    {
      stage := PauseConfig;
      var configFault: bool := *;
      if configFault {
        Note(Fault(ConfigOp));
        return None, stage;
      }
      stage := PauseCreate;
      ghost var s, fits := store, sound && NewPodFor(store, cmd, pod);
      if fits {
        Good();
      }
      r := NewContainer(pod, FullName(cmd.namespace, cmd.name, PAUSE), ContainerLabels(cmd, PAUSE));
      if r.Some? {
        OwnPodSuits(cmd);
        assert IsKind(SetupKind, log.event);
        PauseTopic(s, store, cmd, pod, r.value);
        if fits {
          PauseAllowed(s, cmd, pod);
          FreshPause(s, store, cmd, pod, r.value);
        }
      }
    }

    /** Creates and starts the pause container in a new pod; on failure the pod is taken down again,
        once if the container could not be created and twice if it could. */
    method BuildPause(cmd: EnsureCmd, pod: PodRef) returns (r: PauseOutcome, ghost stop: History)
      requires Valid() && pod.rec.labels == PodLabels(cmd) && Live(store, pod) && topic == TopicOf(cmd)
      modifies this`store, this`log, this`sound, this`losses, this`blinds, this`harms
      ensures NoNewPods(old(store), store)
      ensures Valid() && Since(SetupKind, old(log), stop)
      ensures harms == old(harms) && losses >= old(losses)
      ensures if r.PauseReady? then stop == log else Since(UndoKind, stop, log)
      ensures r.PauseReady? ==> r.pod == pod && r.pause.id == old(store).next
      ensures r.PauseReady? ==> PodIn(store, topic, pod.id) && Wakeable(store, topic, r.pause.id)
      ensures r.PauseReady? && losses == old(losses) ==>
                store == PauseMade(old(store), cmd, pod) && CameUp(cmd, stop, r.pause.id)
      ensures old(sound) && NewPodFor(old(store), cmd, pod) ==>
                && sound
                && PauseWork(old(store), store, cmd, pod, r, stop, Faults(log) == Faults(stop), losses == old(losses))
    {
      ghost var s, fits := store, sound && NewPodFor(store, cmd, pod);
      OwnPodSuits(cmd);
      var created, stage := NewPause(cmd, pod);
      stop := log;
      if created.None? {
        var undo := UndoOnce(pod);
        if fits {
          PauseWorkRefused(s, store, cmd, pod, stage, undo, stop, Faults(log) == Faults(stop), losses == old(losses));
        }
        return PauseFailed(stage, [undo]), stop;
      }
      ghost var t := store;
      ghost var mid := log;
      r, stop := FinishPause(cmd, pod, created.value);
      SinceTrans(SetupKind, old(log), mid, stop);
      if fits {
        PauseWorkAfter(s, t, store, cmd, pod, r, stop, Faults(log) == Faults(stop), losses == old(losses));
      }
    }

    /** Deletes a previous pod with the name of the command. `Deleted` also stands for no such pod. */
    method DeleteNamesake(cmd: EnsureCmd) returns (r: DeleteOutcome, ghost touched: set<Id>)
      requires Valid()
      modifies this`store, this`log, this`sound, this`losses, this`blinds, this`harms
      ensures NoNewPods(old(store), store)
      ensures Valid() && Since(SetupKind, old(log), log)
      ensures losses >= old(losses) && harms >= old(harms) && (harms > old(harms) ==> losses > old(losses))
      ensures old(sound) && NoPodOf(old(store), cmd.uid) ==>
                && (harms == old(harms) ==> sound)
                && SameOutside(old(store), store, touched) && old(store).next == store.next
                && Namesakes(old(store), touched, cmd)
                && NoPodOf(store, cmd.uid) && OrphansKept(old(store), store)
                && (r != Deleted ==> StoreToBlame(old(store), store, cmd, PrevPod(r)))
      ensures r == Deleted && losses == old(losses) ==>
                store == old(store) || exists p :: NamesakeGone(old(store), store, cmd, p)
    {
      ghost var s := store;
      touched := {};
      var prev := LookupPod(PodFullName(cmd));
      SinceWeaken(UndoKind, SetupKind, old(log), log);
      if prev.None? {
        SameOutsideRefl(s, {});
        OrphansOutside(s, s, {});
        return Deleted, touched;
      }
      touched := {prev.value.id};
      r := DeletePodByRef(prev.value, true);
      if r == Deleted && losses == old(losses) {
        assert NamesakeGone(s, store, cmd, prev.value.id);
      }
      if old(sound) && NoPodOf(s, cmd.uid) {
        PrevPodGone(s, store, prev.value, cmd.uid);
        assert NamesakeKept(s, store, cmd, prev.value.id, r);
      }
    }

    /** Before a pod is created: delete a previous pod of the same name, and insist on an abbot container
        for the cluster network. */
    method ClearWay(cmd: EnsureCmd) returns (failed: Option<Stage>, ghost touched: set<Id>)
      requires Valid()
      modifies this`store, this`log, this`sound, this`losses, this`blinds, this`harms
      ensures NoNewPods(old(store), store)
      ensures Valid() && Since(SetupKind, old(log), log)
      ensures losses >= old(losses) && harms >= old(harms) && (harms > old(harms) ==> losses > old(losses))
      ensures old(sound) && NoPodOf(old(store), cmd.uid) ==>
                && (harms == old(harms) ==> sound)
                && SameOutside(old(store), store, touched) && old(store).next == store.next
                && Namesakes(old(store), touched, cmd)
                && NoPodOf(store, cmd.uid) && OrphansKept(old(store), store)
                && (failed.Some? ==> Blamed(old(store), store, cmd, failed.value, log))
      ensures failed.None? && losses == old(losses) ==>
                store == old(store) || exists p :: NamesakeGone(old(store), store, cmd, p)
      ensures failed.None? && !cmd.hostNetwork ==> exists a :: AbbotCtr(store, a)
    {
      var deleted;
      deleted, touched := DeleteNamesake(cmd);
      if deleted != Deleted {
        return Some(PrevPod(deleted)), touched;
      }
      if !cmd.hostNetwork {
        var abbot := FindAbbotContainer();
        if !abbot.Found? {
          return Some(AbbotCheck), touched;
        }
      }
      var imageFault: bool := *;
      if imageFault {
        Note(Fault(ImageOp));
        return Some(ImageStage), touched;
      }
      return None, touched;
    }

    /** Brings up the pause container of the pod that was just created in the store `first`. */
    method FillPod(cmd: EnsureCmd, pod: PodRef, ghost first: Store) returns (r: PauseOutcome, ghost stop: History)
      requires Valid() && pod == NewPodRef(first, cmd) && topic == TopicOf(cmd)
      requires store == Apply(first, PodNew(first.next, PodFullName(cmd), PodLabels(cmd)))
      modifies this`store, this`log, this`sound, this`losses, this`blinds, this`harms
      ensures NoNewPods(old(store), store)
      ensures Valid() && Since(SetupKind, old(log), stop)
      ensures harms == old(harms) && losses >= old(losses)
      ensures if r.PauseReady? then stop == log else Since(UndoKind, stop, log)
      ensures r.PauseReady? ==> r.pod == pod && r.pause.id == first.next + 1
      ensures r.PauseReady? ==> PodIn(store, topic, pod.id) && Wakeable(store, topic, r.pause.id)
      ensures r.PauseReady? && losses == old(losses) ==> store == PodMade(first, cmd) && CameUp(cmd, stop, r.pause.id)
      ensures old(sound) && Inv(first) && WayIsClear(first, cmd) ==>
                && sound
                && PodWork(first, store, cmd, pod.id, r, stop, Faults(log) == Faults(stop), losses == old(losses))
    {
      ghost var u := store;
      if Inv(first) && WayIsClear(first, cmd) {
        FreshPod(first, cmd);
      }
      r, stop := BuildPause(cmd, pod);
      if old(sound) && Inv(first) && WayIsClear(first, cmd) {
        PodWorkFrom(first, u, store, cmd, pod, r, stop, Faults(log) == Faults(stop), losses == old(losses));
      }
    }

    /** Creates the pod of a command and its pause container, once nothing stands in the way. */
    method MakePod(cmd: EnsureCmd) returns (r: PauseOutcome, ghost id: Id, ghost stop: History)
      requires Valid() && topic == TopicOf(cmd)
      modifies this`store, this`log, this`sound, this`losses, this`blinds, this`harms
      ensures PodsOf(old(store), store, cmd)
      ensures Valid() && Since(SetupKind, old(log), stop)
      ensures if r.PauseReady? then stop == log else Since(UndoKind, stop, log)
      ensures harms == old(harms) && losses >= old(losses)
      ensures r.PauseReady? ==> && r.pod == NewPodRef(old(store), cmd) && r.pause.id == old(store).next + 1
                                && NoNamesake(old(store), cmd)
      ensures r.PauseReady? ==> PodIn(store, topic, r.pod.id) && Wakeable(store, topic, r.pause.id)
      ensures r.PauseReady? && losses == old(losses) ==>
                store == PodMade(old(store), cmd) && CameUp(cmd, stop, r.pause.id)
      ensures old(sound) && WayIsClear(old(store), cmd) ==>
                && sound
                && PodWork(old(store), store, cmd, id, r, stop, Faults(log) == Faults(stop), losses == old(losses))
    {
      ghost var s, fits := store, sound && WayIsClear(store, cmd);
      id := store.next;
      if fits {
        Good();
        FreshPod(s, cmd);
      }
      var created := NewPod(PodFullName(cmd), PodLabels(cmd));
      stop := log;
      if created.None? {
        r := PauseFailed(NewPodStage, []);
        if fits {
          PodWorkRefused(s, cmd, stop, Faults(log) == Faults(stop), losses == old(losses));
        }
        return;
      }
      ghost var mid := log;
      r, stop := FillPod(cmd, created.value, s);
      SinceTrans(SetupKind, old(log), mid, stop);
    }

    /** Creates the pod of a command together with its running pause container. */
    method CreatePauseContainer(cmd: EnsureCmd) returns (r: PauseOutcome, ghost touched: set<Id>, ghost stop: History)
      requires Valid() && topic == TopicOf(cmd)
      modifies this`store, this`log, this`sound, this`losses, this`blinds, this`harms
      ensures PodsOf(old(store), store, cmd)
      ensures Valid() && Since(SetupKind, old(log), stop)
      ensures if r.PauseReady? then stop == log else Since(UndoKind, stop, log)
      ensures losses >= old(losses) && harms >= old(harms) && (harms > old(harms) ==> losses > old(losses))
      ensures r.PauseReady? ==> r.pod.rec == PodRec(PodFullName(cmd), PodLabels(cmd))
      ensures r.PauseReady? ==> PodIn(store, topic, r.pod.id) && Wakeable(store, topic, r.pause.id)
      ensures r.PauseReady? && losses == old(losses) ==> CameUp(cmd, stop, r.pause.id)
      ensures r.PauseReady? && losses == old(losses) && NoPodOf(old(store), cmd.uid) ==>
                ReadiedFrom(old(store), store, cmd, r.pod, r.pause)
      ensures && old(sound) && CmdOk(old(store), cmd) && NoPodOf(old(store), cmd.uid)
              && harms == old(harms) ==>
                && sound
                && CreateWork(old(store), store, cmd, touched, r, stop,
                              Faults(log) == Faults(stop), losses == old(losses))
    {
      var failed;
      failed, touched := ClearWay(cmd);
      stop := log;
      if failed.Some? {
        return PauseFailed(failed.value, []), touched, stop;
      }
      ghost var t, mid := store, log;
      ghost var id;
      r, id, stop := MakePod(cmd);
      SinceTrans(SetupKind, old(log), mid, stop);
      if r.PauseReady? && losses == old(losses) {
        assert Cleared(old(store), t, cmd);
      }
      if old(sound) && CmdOk(old(store), cmd) && NoPodOf(old(store), cmd.uid) && harms == old(harms) {
        CreateWorkFrom(old(store), t, store, cmd, touched, id, r, stop,
                       Faults(log) == Faults(stop), losses == old(losses));
      }
      touched := touched + {id};
    }

    /** Brings an existing pause container to the running state, from any state that allows it; `seen` is the state
        that it was seen in. */
    method BringUp(pause: CtrRef) returns (ok: bool, ghost seen: Option<RunState>)
      requires Valid() && (sound ==> Wakeable(store, topic, pause.id))
      modifies this`log
      ensures Valid() && Since(SetupKind, old(log), log)
      ensures seen.None? ==> !ok && log == Then(old(log), Fault(StateOp))
      ensures seen.Some? && seen.value in {Configured, Created, Stopped, Exited} ==>
                log == Then(Then(old(log), Seen(pause.id, seen.value)),
                            if ok then Started(pause.id) else Fault(StartOp))
      ensures seen == Some(Paused) ==>
                log == Then(Then(old(log), Seen(pause.id, Paused)),
                            if ok then Unpaused(pause.id) else Fault(UnpauseOp))
      ensures seen == Some(Running) ==> ok && log == Then(old(log), Seen(pause.id, Running))
      ensures seen.Some? && seen.value in {Unknown, Removing, Invalid} ==>
                !ok && log == Then(old(log), Seen(pause.id, seen.value))
      ensures if ok then BroughtUp(log, pause.id) else EventToBlame(PauseState, log)
    {
      seen := None;
      var state, fault: bool := *, *;
      if fault {
        Note(Fault(StateOp));
        return false, seen;
      }
      Note(Seen(pause.id, state));
      seen := Some(state);
      match state {
        case Configured | Created | Stopped | Exited =>
          fault := *;
          if fault {
            Note(Fault(StartOp));
            return false, seen;
          }
          Note(Started(pause.id));
        case Paused =>
          fault := *;
          if fault {
            Note(Fault(UnpauseOp));
            return false, seen;
          }
          Note(Unpaused(pause.id));
        case Unknown | Removing | Invalid =>
          return false, seen;
        case Running =>
      }
      return true, seen;
    }

    /** Mounts the remote volumes of a spec in any order, each once, stopping at the first failure. */
    method MountRemote(uid: string, volumes: set<string>) returns (ok: bool)
      requires Valid()
      modifies this`log
      ensures Valid() && Since(CreateKind, old(log), log)
      ensures ok ==> MountedOnce(old(log), log, uid, volumes)
      ensures if ok then Faults(log) == Faults(old(log)) else EndsWithFault(log)
    {
      var rest := volumes;
      while rest != {}
        invariant rest <= volumes && Valid() && Since(CreateKind, old(log), log) && Faults(log) == Faults(old(log))
        invariant MountedOnce(old(log), log, uid, volumes - rest)
        decreases rest
      {
        var v :| v in rest;
        rest := rest - {v};
        var fault: bool := *;
        if fault {
          Note(Fault(MountOp));
          return false;
        }
        Note(Mounted(uid, v));
      }
      return true;
    }

    /** Mounts the remote volumes of a spec and creates its container. */
    method CreateContainer(cmd: EnsureCmd, pod: PodRef, spec: CtrSpec) returns (r: Option<CtrRef>)
      requires Valid()
      modifies this`store, this`log, this`sound
      ensures NoNewPods(old(store), store)
      ensures Valid() && Since(CreateKind, old(log), log)
      ensures r.None? ==> store == old(store) && sound == old(sound) && EndsWithFault(log)
      ensures r.Some? ==> && r.value == NewCtr(old(store), cmd, pod, spec) && store == WithCtr(old(store), r.value)
                          && (old(sound) && PodReady(old(store), cmd, pod) && spec in cmd.containers ==> sound)
      ensures r.Some? ==>
                && log.Then? && log.event == CtrNew(r.value.id, pod.id, r.value.rec.name, r.value.rec.labels)
                && MountedOnce(old(log), log.prev, cmd.uid, spec.remoteVolumes)
    {
      var ok := MountRemote(cmd.uid, spec.remoteVolumes);
      if !ok {
        return None;
      }
      var configFault: bool := *;
      if configFault {
        Note(Fault(ConfigOp));
        return None;
      }
      if sound && PodReady(store, cmd, pod) {
        Good();
      }
      r := NewContainer(pod, FullName(cmd.namespace, cmd.name, spec.name), ContainerLabels(cmd, spec.name));
      if r.Some? && old(sound) && PodReady(old(store), cmd, pod) && spec in cmd.containers {
        SpecAllowed(old(store), cmd, pod, spec);
      }
    }

    /** Creates the containers of a command one after the other. */
    method CreateAll(cmd: EnsureCmd, pod: PodRef) returns (ok: bool, ctrs: seq<CtrRef>)
      requires Valid()
      modifies this`store, this`log, this`sound
      ensures Valid() && Since(CreateKind, old(log), log)
      ensures |ctrs| <= |cmd.containers| && (ok <==> |ctrs| == |cmd.containers|) && (!ok ==> EndsWithFault(log))
      ensures ctrs == NewCtrs(old(store), cmd, pod, |ctrs|) && store == Grow(old(store), cmd, pod, |ctrs|)
      ensures old(sound) && PodReady(old(store), cmd, pod) ==> sound
    {
      ctrs := [];
      ghost var s := store;
      if sound {
        Good();
      }
      for i := 0 to |cmd.containers|
        invariant Valid() && Since(CreateKind, old(log), log)
        invariant |ctrs| == i && ctrs == NewCtrs(s, cmd, pod, i) && store == Grow(s, cmd, pod, i)
        invariant old(sound) && PodReady(s, cmd, pod) ==> sound
      {
        ghost var mid := log;
        if old(sound) {
          GrowKeeps(s, cmd, pod, i);
        }
        var created := CreateContainer(cmd, pod, cmd.containers[i]);
        SinceTrans(CreateKind, old(log), mid, log);
        if created.None? {
          return false, ctrs;
        }
        GrowStep(s, cmd, pod, i);
        ctrs := ctrs + [created.value];
      }
      return true, ctrs;
    }

    /** Starts a container, runs its hook and, if asked for, waits for it. */
    method StartOne(c: Id, hook: bool, wait: bool) returns (ok: bool)
      requires Valid() && Wakeable(store, topic, c)
      modifies this`log
      ensures Valid()
      ensures ok ==> log == Block(old(log), c, hook, wait)
      ensures !ok ==> EndsWithFault(log) && BlockPart(old(log), c, hook, wait, log.prev)
    {
      var fault: bool := *;
      if fault {
        Note(Fault(StartOp));
        return false;
      }
      Note(Started(c));
      if hook {
        fault := *;
        if fault {
          Note(Fault(HookOp));
          return false;
        }
        Note(Hooked(c));
      }
      if wait {
        fault := *;
        if fault {
          Note(Fault(WaitOp));
          return false;
        }
        Note(Waited(c));
      }
      return true;
    }

    /** Starts the containers one by one, each followed by its hook and, if asked for, by a wait. */
    method StartAll(ctrs: seq<CtrRef>, specs: seq<CtrSpec>, wait: bool) returns (ok: bool)
      requires Valid() && |ctrs| == |specs| && forall i | 0 <= i < |ctrs| :: Wakeable(store, topic, ctrs[i].id)
      modifies this`log
      ensures Valid()
      ensures ok ==> log == Planned(old(log), ctrs, specs, wait, |ctrs|)
      ensures !ok ==> StoppedWithin(old(log), log, Planned(old(log), ctrs, specs, wait, |ctrs|))
    {
      for i := 0 to |ctrs|
        invariant Valid() && log == Planned(old(log), ctrs, specs, wait, i)
      {
        ghost var h := log;
        ok := StartOne(ctrs[i].id, specs[i].hook, wait);
        if !ok {
          PlannedGrows(old(log), ctrs, specs, wait, 0, i);
          PlannedGrows(old(log), ctrs, specs, wait, i + 1, |ctrs|);
          BlockStops(old(log), h, ctrs[i].id, specs[i].hook, wait, log.prev,
                     Planned(old(log), ctrs, specs, wait, |ctrs|));
          return;
        }
      }
      return true;
    }

    /** Unless they were waited for, checks that the containers have not exited. */
    method CheckAll(ctrs: seq<CtrRef>, wait: bool) returns (ok: bool)
      requires Valid()
      modifies this`log
      ensures Valid() && Since(CheckKind, old(log), log)
      ensures ok ==> log == if wait then old(log) else AllAlive(old(log), ctrs, |ctrs|)
      ensures !ok ==> EventToBlame(CtrExit, log)
    {
      for i := 0 to |ctrs|
        invariant Valid() && Since(CheckKind, old(log), log)
        invariant log == if wait then old(log) else AllAlive(old(log), ctrs, i)
      {
        if wait {
          continue;
        }
        var fault, exited: bool := *, *;
        if fault {
          Note(Fault(ExitCodeOp));
          return false;
        }
        if exited {
          Note(Seen(ctrs[i].id, Exited));
          return false;
        }
        Note(Alive(ctrs[i].id));
      }
      return true;
    }

    /** Builds the status of a pod from a list of its containers. */
    method TranslatePodStatus(pause: CtrRef, ctrs: seq<CtrRef>) returns (r: Option<PodStatus>)
      requires Valid()
      modifies this`log
      ensures Valid()
      ensures log == if r.None? then Then(old(log), Fault(InspectOp)) else old(log)
      ensures r.Some? ==> r.value == StatusFrom(pause, ctrs)
    {
      var uid := Read(pause.rec.labels, PodUid);
      var statuses: map<string, Id> := map[];
      for i := 0 to |ctrs|
        invariant Valid() && log == old(log) && statuses == StatusMap(uid, ctrs[..i])
      {
        assert ctrs[..i + 1][..i] == ctrs[..i];
        var labels := ctrs[i].rec.labels;
        if Read(labels, PodContainer) == "" || Read(labels, PodUid) != uid {
          continue;
        }
        var fault: bool := *;
        if fault {
          Note(Fault(InspectOp));
          return None;
        }
        statuses := statuses[Read(labels, PodContainer) := ctrs[i].id];
      }
      assert ctrs[..|ctrs|] == ctrs;
      return Some(PodStatus(uid, statuses));
    }

    /** Starts and checks the created containers and reports their status. */
    method RunCreated(cmd: EnsureCmd, pause: CtrRef, ctrs: seq<CtrRef>) returns (r: RunOutcome, ghost ran: History)
      requires Valid() && |ctrs| == |cmd.containers|
      requires forall i | 0 <= i < |ctrs| :: Wakeable(store, topic, ctrs[i].id)
      modifies this`log
      ensures Valid()
      ensures r.RunDone? ==> r.ctrs == ctrs && RanInOrder(old(log), log, ran, cmd, ctrs)
      ensures r.RunDone? ==> r.status == StatusFrom(pause, ctrs)
      ensures r.RunFailed? ==> RunStopped(old(log), log, ran, cmd, ctrs, r.stage) && EventToBlame(r.stage, log)
    {
      var ok := StartAll(ctrs, cmd.containers, cmd.wait);
      ran := log;
      if !ok {
        return RunFailed(CtrRun), ran;
      }
      ok := CheckAll(ctrs, cmd.wait);
      if !ok {
        return RunFailed(CtrExit), ran;
      }
      var status := TranslatePodStatus(pause, ctrs);
      if status.None? {
        return RunFailed(StatusStage), ran;
      }
      return RunDone(ctrs, status.value), ran;
    }

    /** What an ensure command does once the pod and its pause container are there, without the rollback. */
    method RunForward(cmd: EnsureCmd, pod: PodRef, pause: CtrRef) returns (r: RunOutcome, ghost n: nat, ghost w: Phases)
      requires Valid() && PodIn(store, topic, pod.id) && (sound ==> Wakeable(store, topic, pause.id))
      modifies this`store, this`log, this`sound
      ensures Valid() && n <= |cmd.containers|
      ensures store == Grow(old(store), cmd, pod, n)
      ensures r.RunDone? ==> n == |cmd.containers| && r.ctrs == NewCtrs(old(store), cmd, pod, n)
      ensures old(sound) && PodReady(old(store), cmd, pod) ==> sound
      ensures r.RunDone? ==> DoneInOrder(old(log), log, w, cmd, pause) && w.ctrs == r.ctrs
      ensures r.RunFailed? ==> StoppedInOrder(old(log), log, w, cmd, r.stage) && EventToBlame(r.stage, log)
      ensures r.RunDone? ==> r.status == StatusFrom(pause, r.ctrs)
    {
      n := 0;
      var up, _ := BringUp(pause);
      w := Phases(log, log, log, []);
      if !up {
        return RunFailed(PauseState), n, w;
      }
      var ok, ctrs := CreateAll(cmd, pod);
      n := |ctrs|;
      NewCtrsOfSpecs(old(store), cmd, pod, n);
      w := Phases(w.ready, log, log, ctrs);
      if !ok {
        return RunFailed(CtrCreate), n, w;
      }
      GrowWakeable(old(store), cmd, pod, n, topic);
      ghost var ran;
      r, ran := RunCreated(cmd, pause, ctrs);
      w := Phases(w.ready, w.created, ran, ctrs);
    }

    /** Looks for the pause container of an existing pod, and takes the pod down if there is none. */
    method CheckPause(cmd: EnsureCmd, pod: PodRef) returns (r: PauseOutcome, ghost stop: History)
      requires Valid()
      modifies this`store, this`log, this`sound, this`losses, this`blinds, this`harms
      ensures NoNewPods(old(store), store)
      ensures Valid() && Since(SetupKind, old(log), stop)
      ensures if r.PauseReady? then stop == log else Since(UndoKind, stop, log)
      ensures old(sound) && CmdOk(old(store), cmd) && Live(old(store), pod) && PodOfUid(old(store), pod.id, cmd.uid) ==>
                && sound && SameOutside(old(store), store, {pod.id}) && OrphansKept(old(store), store)
                && old(store).next == store.next
                && (r.PauseReady? ==> r.pod == pod && ReadyFor(store, cmd, pod, r.pause) && !Orphan(old(store), pod.id))
                && (r.PauseFailed? ==> Blamed(old(store), store, cmd, r.stage, stop))
                && (r.PauseFailed? ==> LeftOver(store, cmd.uid, r.undo, Faults(log) == Faults(stop)))
      ensures r.PauseReady? ==> r.pod == pod && store == old(store) && LiveCtr(store, r.pause)
      ensures r.PauseReady? && cmd.uid != "" ==> CtrNamed(store, r.pause.id, cmd.uid, PAUSE)
      ensures losses == old(losses) && blinds == old(blinds) && harms == old(harms)
      ensures r.PauseReady? && sound && cmd.uid != "" && PodOfUid(store, pod.id, cmd.uid) ==>
                IsPauseOf(store, r.pause.id, pod.id)
    {
      ghost var s := store;
      ghost var fits := sound && CmdOk(s, cmd) && Live(s, pod) && PodOfUid(s, pod.id, cmd.uid);
      var pause := FindContainer(cmd.uid, PAUSE);
      if fits {
        Good();
        PauseLookup(s, pod, pause);
        OneOfUid(s, pod.id, cmd.uid);
        OrphansOutside(s, s, {});
      }
      stop := log;
      if pause.Found? {
        if sound && cmd.uid != "" && PodOfUid(s, pod.id, cmd.uid) {
          Good();
          NamedIsInPod(s, pause.value.id, cmd.uid, PAUSE, pod.id);
        }
        return PauseReady(pod, pause.value), stop;
      }
      var undo := UndoOnce(pod);
      if fits {
        OnlyPodOf(s, store, pod, cmd.uid, [undo], Faults(log) == Faults(stop));
        if !Orphan(s, pod.id) {
          OrphansOutside(s, store, {pod.id});
        }
      }
      return PauseFailed(NoPauseFound, [undo]), stop;
    }

    /** Finds the pod of a command with its pause container, or creates both. */
    method FindOrCreate(cmd: EnsureCmd) returns (r: PauseOutcome, ghost touched: set<Id>, ghost stop: History)
      requires Valid() && topic == TopicOf(cmd)
      modifies this`store, this`log, this`sound, this`losses, this`blinds, this`harms
      ensures PodsOf(old(store), store, cmd)
      ensures Valid() && Since(SetupKind, old(log), stop)
      ensures if r.PauseReady? then stop == log else Since(UndoKind, stop, log)
      ensures losses >= old(losses) && harms >= old(harms) && (harms > old(harms) ==> losses > old(losses))
      ensures r.PauseReady? ==> PodIn(store, topic, r.pod.id) && (sound ==> Wakeable(store, topic, r.pause.id))
      ensures old(sound) && CmdOk(old(store), cmd) && harms == old(harms) ==>
                && sound && Framed(old(store), store, cmd, touched)
                && (r.PauseReady? ==> Readied(old(store), store, cmd, touched, r.pod, r.pause))
                && (r.PauseReady? && losses == old(losses) ==> NetworkOf(old(store), store, cmd, r.pause))
                && (r.PauseFailed? ==> Blamed(old(store), store, cmd, r.stage, stop))
                && (r.PauseFailed? ==> || (r.stage == PodLookup && store == old(store))
                                       || LeftOver(store, cmd.uid, r.undo, Faults(log) == Faults(stop)))
      ensures r.PauseReady? && cmd.uid != "" && losses == old(losses) ==>
                ReadiedFrom(old(store), store, cmd, r.pod, r.pause)
    {
      ghost var s, fits := store, sound && CmdOk(store, cmd);
      touched := {};
      var found := FindPod(cmd.uid);
      stop := log;
      match found {
        case LookupFailed | Multiple =>
          return PauseFailed(PodLookup, []), touched, stop;
        case NotFound =>
          r, touched, stop := CreatePauseContainer(cmd);
          if fits && r.PauseReady? && harms == old(harms) {
            NewPodIsReady(s, store, cmd, r.pod, r.pause);
          }
        case Found(pod) =>
          touched := {pod.id};
          r, stop := CheckPause(cmd, pod);
      }
    }

    /** Runs the containers of a command in a ready pod; on failure the pod is taken down. */
    method RunPod(cmd: EnsureCmd, pod: PodRef, pause: CtrRef, ghost first: Store, ghost touched: set<Id>)
      returns (r: EnsureOutcome, ghost w: Phases, ghost stop: History)
      requires Valid() && PodIn(store, topic, pod.id) && (sound ==> Wakeable(store, topic, pause.id))
      modifies this`store, this`log, this`sound, this`losses, this`blinds, this`harms
      ensures NoNewPods(old(store), store)
      ensures Valid()
      ensures losses == old(losses) && blinds == old(blinds) && harms == old(harms)
      ensures r.Ensured? ==> && r.pod == pod && r.pause == pause && r.status == StatusFrom(pause, r.ctrs)
                             && r.ctrs == NewCtrs(old(store), cmd, pod, |cmd.containers|)
                             && store == Grow(old(store), cmd, pod, |cmd.containers|)
      ensures r.Ensured? ==> DoneInOrder(old(log), log, w, cmd, pause) && w.ctrs == r.ctrs
      ensures r.EnsureFailed? ==>
                && Since(UndoKind, stop, log) && EventToBlame(r.stage, stop)
                && StoppedInOrder(old(log), stop, w, cmd, r.stage)
      ensures old(sound) && Readied(first, old(store), cmd, touched, pod, pause) ==>
                sound && EnsureKeeps(first, store, cmd, touched, r, Faults(log) == Faults(stop))
    {
      ghost var s, fits := store, sound && Readied(first, store, cmd, touched, pod, pause);
      if sound {
        Good();
      }
      var run;
      ghost var n;
      run, n, w := RunForward(cmd, pod, pause);
      stop := log;
      GrowFrame(s, cmd, pod, n);
      if fits {
        GrowFacts(s, cmd, pod, n);
        GrowKeeps(s, cmd, pod, n);
      }
      if run.RunFailed? {
        ghost var t := store;
        var undo := UndoOnce(pod);
        if fits {
          SameOutsideTrans(s, t, store, {pod.id}, {pod.id});
          assert {pod.id} + {pod.id} == {pod.id};
          EnsureEnds(first, s, store, cmd, touched, pod, pause, EnsureFailed(run.stage, [undo]),
                     Faults(log) == Faults(stop));
        }
        return EnsureFailed(run.stage, [undo]), w, stop;
      }
      r := Ensured(pod, pause, run.ctrs, run.status);
      if fits {
        EnsureEnds(first, s, store, cmd, touched, pod, pause, r, Faults(log) == Faults(stop));
      }
    }

    /** The steps of an ensure command without the data cleanup: find or create the pod, run its containers. */
    method EnsureSteps(cmd: EnsureCmd)
      returns (r: EnsureOutcome, ghost touched: set<Id>, ghost w: Phases, ghost stop: History)
      requires Valid() && topic == TopicOf(cmd)
      modifies this`store, this`log, this`sound, this`losses, this`blinds, this`harms
      ensures PodsOf(old(store), store, cmd)
      ensures Valid()
      ensures r.Ensured? ==> DoneInOrder(old(log), log, w, cmd, r.pause) && w.ctrs == r.ctrs
      ensures r.EnsureFailed? ==> UndoneInOrder(old(log), log, w, stop, cmd, r.stage)
      ensures losses >= old(losses) && harms >= old(harms) && (harms > old(harms) ==> losses > old(losses))
      ensures r.Ensured? && cmd.uid != "" && losses == old(losses) ==>
                EnsuredStore(old(store), store, cmd, r.pod, r.pause)
      ensures old(sound) && CmdOk(old(store), cmd) && harms == old(harms) ==>
                && sound && EnsureKeeps(old(store), store, cmd, touched, r, Faults(log) == Faults(stop))
                && Accounts(old(store), store, cmd, r, stop, losses == old(losses))
    {
      ghost var s, fits := store, sound && CmdOk(store, cmd);
      var ready;
      ready, touched, stop := FindOrCreate(cmd);
      fits := fits && harms == old(harms);
      ghost var t, mid := store, log;
      w := Phases(log, log, log, []);
      if ready.PauseFailed? {
        if fits {
          EnsureStops(s, t, cmd, touched, ready.stage, ready.undo, Faults(log) == Faults(stop), stop);
        }
        return EnsureFailed(ready.stage, ready.undo), touched, w, stop;
      }
      r, w, stop := RunPod(cmd, ready.pod, ready.pause, s, touched);
      if r.Ensured? {
        EnsuredFrom(s, t, store, cmd, ready.pod, ready.pause);
      }
      SinceTrans(SetupKind, old(log), mid, w.ready);
    }

    /** Makes sure that the pod of a command exists and runs all its containers. */
    method EnsurePod(cmd: EnsureCmd)
      returns (r: EnsureOutcome, ghost touched: set<Id>, ghost w: Phases, ghost stop: History)
      requires Valid()
      modifies this
      ensures PodsOf(old(store), store, cmd)
      ensures Valid()
      ensures r.Ensured? ==> DoneInOrder(old(log), log, w, cmd, r.pause) && w.ctrs == r.ctrs
      ensures r.EnsureFailed? ==> FailedInOrder(old(log), log, w, stop, cmd, r.stage)
      ensures losses >= old(losses) && harms >= old(harms) && (harms > old(harms) ==> losses > old(losses))
      ensures r.Ensured? && cmd.uid != "" && losses == old(losses) ==>
                EnsuredStore(old(store), store, cmd, r.pod, r.pause)
      ensures old(sound) && CmdOk(old(store), cmd) && harms == old(harms) ==>
                && sound && EnsureKeeps(old(store), store, cmd, touched, r, Faults(log) == Faults(stop))
                && Accounts(old(store), store, cmd, r, stop, losses == old(losses))
      ensures base == old(log) && (sound && cmd.uid != "" ==> WakesOnly(init, base, log, About(cmd.uid)))
    {
      base, topic := log, TopicOf(cmd);
      r, touched, w, stop := EnsureSteps(cmd);
      if r.EnsureFailed? {
        Note(Cleaned(cmd.uid));
      }
    }

    /** Deletes one container that is not a pause container. */
    method DeleteContainer(ctr: CtrRef, check: UidCheck) returns (r: CtrDeletion)
      requires Valid()
      modifies this`store, this`log, this`sound
      ensures Valid() && store.pods == old(store).pods && store.nets == old(store).nets && store.next == old(store).next
      ensures store == old(store) || store == Apply(old(store), CtrGone(ctr.id))
      ensures old(sound) && LiveCtr(old(store), ctr) ==> sound
      ensures Faults(log) >= Faults(old(log))
      ensures check == AsWritten && Managed(ctr.rec.labels) ==> store == old(store) && (r == CtrOk || r == CtrRefused)
      ensures check == AsWritten && Managed(ctr.rec.labels) && Faults(log) == Faults(old(log)) ==>
                (r == CtrRefused <==> Guarded(old(store), ctr.rec.labels))
      ensures r == CtrOk && check == AsIntended && Managed(ctr.rec.labels) && PodContainer in ctr.rec.labels ==>
                !IsPauseContainer(ctr.rec.labels) && store == Apply(old(store), CtrGone(ctr.id))
    {
      if sound {
        Good();
      }
      var guard := GuardIfAbbot(ctr.rec.labels);
      if guard != Allowed {
        return CtrRefused;
      }
      if (PodUid in ctr.rec.labels) == (check == AsWritten) {
        return CtrOk;
      }
      if PodContainer !in ctr.rec.labels {
        return CtrOk;
      } else if ctr.rec.labels[PodContainer] == PAUSE {
        return CtrRefused;
      }
      if sound && LiveCtr(store, ctr) {
        CtrRemovalAllowed(store, ctr);
      }
      var stage: nat :| 0 <= stage <= 2;
      if stage == 0 {
        Note(Fault(RemoveCtrOp));
        return CtrFault;
      }
      Emit(CtrGone(ctr.id));
      if stage == 1 {
        Note(Fault(RemoveCtrOp));
        return CtrFault;
      }
      return CtrOk;
    }

    /** The containers of a pod, in an unknown order. */
    method AllContainers(p: PodRef) returns (r: Option<seq<CtrRef>>)
      requires Valid()
      modifies this`log
      ensures Valid()
      ensures log == if r.None? then Then(old(log), Fault(PodCtrsOp)) else old(log)
      ensures r.Some? ==> forall c | c in r.value :: LiveCtr(store, c) && c.rec.pod == p.id
      ensures r.Some? ==> forall c | InPod(store, c, p.id) :: CtrRef(c, store.ctrs[c]) in r.value
    {
      var fault: bool := *;
      if fault {
        Note(Fault(PodCtrsOp));
        return None;
      }
      var inPod := map c | c in store.ctrs && store.ctrs[c].pod == p.id :: store.ctrs[c];
      var refs := SelectCtrs(inPod, map[]);
      forall c | InPod(store, c, p.id) ensures CtrRef(c, store.ctrs[c]) in refs {
        assert c in inPod && Matches(map[], inPod[c].labels);
      }
      return Some(refs);
    }

    /** Deletes one named container. A name without a container makes the source dereference a nil handle. */
    method DeleteOne(uid: string, name: string, check: UidCheck) returns (r: NamedOutcome)
      requires Valid()
      modifies this`store, this`log, this`sound
      ensures Valid() && Faults(log) >= Faults(old(log)) && (old(sound) ==> sound)
      ensures FewerOf(old(store), store, uid) && (uid != "" && check == AsWritten ==> store == old(store))
      ensures uid != "" && name != "" && r == NamesDone ==> HasNamed(old(store), uid, name)
      ensures uid != "" && name != "" && r == NilDereferenced ==> !HasNamed(old(store), uid, name)
      ensures && old(sound) && uid != "" && name != "" && check == AsWritten
              && Faults(log) == Faults(old(log)) ==>
                r == ExpectedName(old(store), uid, name)
    {
      ghost var s := store;
      var found := FindContainer(uid, name);
      if found.LookupFailed? {
        return NamesFailed;
      }
      if !found.Found? {
        assert uid != "" && name != "" ==> !HasNamed(s, uid, name);
        return NilDereferenced;
      }
      if uid != "" && name != "" {
        assert CtrNamed(s, found.value.id, uid, name);
        if sound {
          Good();
          NamedDecides(s, found.value.id, uid, name);
        }
      }
      var deleted := DeleteContainer(found.value, check);
      return if deleted == CtrOk then NamesDone else NamesFailed;
    }

    /** Deletes the named containers of a pod, stopping at the first failure. */
    method DeleteNamed(uid: string, names: seq<string>, check: UidCheck) returns (r: NamedOutcome)
      requires Valid()
      modifies this`store, this`log, this`sound
      ensures Valid() && Faults(log) >= Faults(old(log)) && (old(sound) ==> sound)
      ensures FewerOf(old(store), store, uid) && (uid != "" && check == AsWritten ==> store == old(store))
      ensures uid != "" && "" !in names && r == NamesDone ==>
                forall name | name in names :: HasNamed(old(store), uid, name)
      ensures uid != "" && "" !in names && check == AsWritten && r == NilDereferenced ==>
                exists name :: name in names && !HasNamed(old(store), uid, name)
      ensures && old(sound) && uid != "" && "" !in names && check == AsWritten
              && Faults(log) == Faults(old(log)) ==>
                r == ExpectedNames(old(store), uid, names)
    {
      ghost var s := store;
      ghost var exact := sound && uid != "" && "" !in names && check == AsWritten;
      for i := 0 to |names|
        invariant Valid() && Faults(log) >= Faults(old(log)) && (old(sound) ==> sound)
        invariant FewerOf(s, store, uid) && (uid != "" && check == AsWritten ==> store == s)
        invariant uid != "" && "" !in names ==> forall j | 0 <= j < i :: HasNamed(s, uid, names[j])
        invariant exact && Faults(log) == Faults(old(log)) ==>
                    ExpectedNames(s, uid, names) == ExpectedNames(s, uid, names[i..])
      {
        assert names[i] in names && names[i..][0] == names[i] && names[i..][1..] == names[i + 1..];
        ghost var t := store;
        r := DeleteOne(uid, names[i], check);
        FewerOfTrans(s, t, store, uid);
        if r != NamesDone {
          return;
        }
        if uid != "" && "" !in names {
          StillNamed(s, t, uid, names[i]);
        }
      }
      return NamesDone;
    }

    /** Deletes the named containers of a pod that has a pause container, and reports its status. */
    method DeleteSome(pod: PodRef, uid: string, names: seq<string>, check: UidCheck) returns (r: DeletePodOutcome)
      requires Valid()
      modifies this`store, this`log, this`sound
      ensures Valid() && NoNewPods(old(store), store) && Faults(log) >= Faults(old(log))
      ensures r != PodDeleted && (old(sound) ==> sound)
      ensures !HasPause(old(store), pod.id) ==> r == PodNotDeleted
      ensures uid != "" && check == AsWritten ==> store == old(store)
      ensures uid != "" && "" !in names && r == CtrsDeleted ==>
                forall name | name in names :: HasNamed(old(store), uid, name)
      ensures uid != "" && "" !in names && check == AsWritten && r == Panicked ==>
                exists name :: name in names && !HasNamed(old(store), uid, name)
      ensures old(sound) && PodOfUid(old(store), pod.id, uid) ==>
                SameOutside(old(store), store, {pod.id}) && OrphansKept(old(store), store)
      ensures && old(sound) && PodOfUid(old(store), pod.id, uid) && "" !in names && check == AsWritten
              && Faults(log) == Faults(old(log)) ==>
                r == ExpectedNamedDelete(old(store), pod.id, uid, names)
    {
      ghost var s := store;
      if sound && PodOfUid(s, pod.id, uid) {
        Good();
        assert !PodOfUid(s, pod.id, "");
        NamedDeletionKeeps(s, s, pod, uid);
      }
      var ctrs := AllContainers(pod);
      if ctrs.None? {
        return PodNotDeleted;
      }
      var pause := PauseAmong(ctrs.value);
      if pause.None? {
        forall c ensures !IsPauseOf(s, c, pod.id) {
          assert InPod(s, c, pod.id) ==> CtrRef(c, s.ctrs[c]) in ctrs.value;
        }
        return PodNotDeleted;
      }
      assert IsPauseOf(s, pause.value.id, pod.id);
      var done := DeleteNamed(uid, names, check);
      if old(sound) && PodOfUid(s, pod.id, uid) {
        NamedDeletionKeeps(s, store, pod, uid);
      }
      if done == NamesDone {
        var status := TranslatePodStatus(pause.value, ctrs.value);
        return if status.Some? then CtrsDeleted else PodNotDeleted;
      }
      return if done == NilDereferenced then Panicked else PodNotDeleted;
    }

    /** Deletes the pod of a uid. */
    method DeleteWhole(pod: PodRef, uid: string) returns (r: DeletePodOutcome)
      requires Valid()
      modifies this`store, this`log, this`sound, this`losses, this`blinds, this`harms
      ensures Valid() && NoNewPods(old(store), store) && Faults(log) >= Faults(old(log))
      ensures r == PodDeleted || r == PodNotDeleted
      ensures losses == old(losses) && blinds == old(blinds) && harms == old(harms)
      ensures old(sound) && Live(old(store), pod) ==> sound
      ensures old(sound) && Live(old(store), pod) && PodOfUid(old(store), pod.id, uid) ==>
                && SameOutside(old(store), store, {pod.id}) && OrphansKept(old(store), store)
                && (r == PodDeleted ==> NoPodOf(store, uid) && !NoPodOf(old(store), uid))
                && (Faults(log) == Faults(old(log)) ==> r == ExpectedPodDelete(old(store), uid))
      ensures r == PodDeleted && uid != "" && Live(old(store), pod) && PodOfUid(old(store), pod.id, uid) ==>
                TakenDown(old(store), store, pod.id, uid)
    {
      ghost var s := store;
      if sound {
        Good();
      }
      var deleted := DeletePodByRef(pod, false);
      if old(sound) && Live(s, pod) && PodOfUid(s, pod.id, uid) {
        PodDeletionKeeps(s, store, pod, uid, deleted);
      }
      return if deleted == Deleted then PodDeleted else PodNotDeleted;
    }

    /** The steps of a deletion, without the cleanup of the data. */
    method DeleteSteps(uid: string, names: seq<string>, check: UidCheck)
      returns (r: DeletePodOutcome, ghost touched: set<Id>)
      requires Valid()
      modifies this`store, this`log, this`sound, this`losses, this`blinds, this`harms
      ensures Valid() && NoNewPods(old(store), store)
      ensures old(sound) ==> sound
      ensures Faults(log) >= Faults(old(log))
      ensures losses == old(losses) && blinds == old(blinds) && harms == old(harms)
      ensures uid != "" && check == AsWritten && names != [] ==> store == old(store)
      ensures uid != "" && "" !in names && r == CtrsDeleted ==>
                forall name | name in names :: HasNamed(old(store), uid, name)
      ensures uid != "" && "" !in names && check == AsWritten && r == Panicked ==>
                exists name :: name in names && !HasNamed(old(store), uid, name)
      ensures old(sound) && uid != "" ==>
                && sound && SameOutside(old(store), store, touched) && OrphansKept(old(store), store)
                && (forall p | p in touched :: PodOfUid(old(store), p, uid))
                && (r == PodDeleted ==> NoPodOf(store, uid) && !NoPodOf(old(store), uid))
                && (names == [] && Faults(log) == Faults(old(log)) ==> r == ExpectedPodDelete(old(store), uid))
      ensures r == PodDeleted && uid != "" ==>
                exists p :: PodOfUid(old(store), p, uid) && TakenDown(old(store), store, p, uid)
      ensures && old(sound) && uid != "" && names != [] && "" !in names && check == AsWritten
              && Faults(log) == Faults(old(log)) ==>
                if NoPodOf(old(store), uid) then r == PodNotDeleted
                else forall p | PodOfUid(old(store), p, uid) :: r == ExpectedNamedDelete(old(store), p, uid, names)
    {
      ghost var s := store;
      touched := {};
      if sound {
        Good();
        OrphansOutside(s, s, {});
      }
      var found := FindPod(uid);
      if !found.Found? {
        return PodNotDeleted, touched;
      }
      var pod := found.value;
      touched := {pod.id};
      if sound && uid != "" {
        OneOfUid(s, pod.id, uid);
      }
      if names == [] {
        r := DeleteWhole(pod, uid);
      } else {
        r := DeleteSome(pod, uid, names, check);
      }
    }

    /** Deletes a pod, or only the named containers of it. The data of the pod is cleaned up in every case. */
    method DeletePod(uid: string, names: seq<string>, check: UidCheck)
      returns (r: DeletePodOutcome, ghost touched: set<Id>)
      requires Valid()
      modifies this
      ensures Valid() && NoNewPods(old(store), store)
      ensures old(sound) ==> sound
      ensures log.Then? && log.event == Cleaned(uid)
      ensures losses == old(losses) && blinds == old(blinds) && harms == old(harms)
      ensures base == old(log) && (sound ==> WakesOnly(init, base, log, Nobody))
      ensures uid != "" && check == AsWritten && names != [] ==> store == old(store)
      ensures uid != "" && "" !in names && r == CtrsDeleted ==>
                forall name | name in names :: HasNamed(old(store), uid, name)
      ensures uid != "" && "" !in names && check == AsWritten && r == Panicked ==>
                exists name :: name in names && !HasNamed(old(store), uid, name)
      ensures old(sound) && uid != "" ==>
                && sound && SameOutside(old(store), store, touched) && OrphansKept(old(store), store)
                && (forall p | p in touched :: PodOfUid(old(store), p, uid))
                && (r == PodDeleted ==> NoPodOf(store, uid) && !NoPodOf(old(store), uid))
                && (names == [] && Faults(log) == Faults(old(log)) ==> r == ExpectedPodDelete(old(store), uid))
      ensures r == PodDeleted && uid != "" ==>
                exists p :: PodOfUid(old(store), p, uid) && TakenDown(old(store), store, p, uid)
      ensures && old(sound) && uid != "" && names != [] && "" !in names && check == AsWritten
              && Faults(log) == Faults(old(log)) ==>
                if NoPodOf(old(store), uid) then r == PodNotDeleted
                else forall p | PodOfUid(old(store), p, uid) :: r == ExpectedNamedDelete(old(store), p, uid, names)
    {
      base, topic := log, Nobody;
      r, touched := DeleteSteps(uid, names, check);
      Note(Cleaned(uid));
    }

    /** Reports one pod with a pause container. The network is queried if the pod is on the host network. */
    method ReportPod(pod: PodRef, pause: CtrRef) returns (r: Option<PodStatus>)
      requires Valid()
      modifies this`log, this`losses
      ensures Valid() && Faults(log) >= Faults(old(log))
      ensures r.Some? && !IsHostNetwork(pause.rec.labels) ==> log == old(log)
      ensures r.Some? && IsHostNetwork(pause.rec.labels) ==>
                Since(LossyKind, Then(old(log), QueryTry(pause.id)), log)
      ensures r.Some? ==> r.value.uid == Read(pause.rec.labels, PodUid)
      ensures && sound && r.Some? && Live(store, pod) && Managed(pod.rec.labels)
              && Read(pause.rec.labels, PodUid) == pod.rec.labels[PodUid] ==>
                StatusOf(store, pod.id, r.value)
      ensures r.None? ==> Faults(log) > Faults(old(log))
    {
      if IsHostNetwork(pause.rec.labels) {
        Note(QueryTry(pause.id));
        var _ := AbbotExec(true);
      }
      var ctrs := AllContainers(pod);
      if ctrs.None? {
        return None;
      }
      if sound && Live(store, pod) && Managed(pod.rec.labels) {
        Good();
        StatusIsExact(store, pod, ctrs.value);
      }
      r := TranslatePodStatus(pause, ctrs.value);
    }

    /** Removes a listed pod for which no pause container was found. */
    method RemoveInvalid(pod: PodRef, ghost blind: bool) returns (r: ListStep)
      requires Valid() && (blind ==> EndsBlind(log))
      modifies this`store, this`log, this`sound, this`blinds, this`harms
      ensures Valid() && Faults(log) >= Faults(old(log)) && NoNewPods(old(store), store) && !r.Listed?
      ensures blinds == old(blinds) + if blind then 1 else 0
      ensures harms == old(harms) + if blind && !Admissible(old(store), PodEmptied(pod.id)) then 1 else 0
      ensures Since(RemoveKind, Then(old(log), RemoveTry(pod.id, blind)), log)
      ensures old(sound) && Admissible(old(store), PodEmptied(pod.id)) ==> sound
      ensures Live(old(store), pod) ==>
                && SameOutside(old(store), store, {pod.id}) && old(store).next == store.next
                && (r.Skipped? ==> store == Dropped(old(store), pod.id))
                && (Faults(log) == Faults(old(log)) ==> r.Skipped?)
    {
      TakeDownOutside(store, store, pod.id, 0);
      var ok := RemovePod(pod, blind);
      return if ok then Skipped else ListFault;
    }

    /** Reports a listed pod whose pause container was found. */
    method ReportOne(pod: PodRef, pause: CtrRef) returns (r: ListStep)
      requires Valid() && Managed(pod.rec.labels)
      modifies this`log, this`losses
      ensures Valid() && Faults(log) >= Faults(old(log)) && !r.Skipped?
      ensures sound && Live(store, pod) && PauseAgrees(store, pod, pause) ==>
                && SameOutside(store, store, {pod.id})
                && StepPromise(store, store, pod, r, Faults(log) == Faults(old(log)))
    {
      if sound && Live(store, pod) && PauseAgrees(store, pod, pause) {
        Good();
        FoundUid(store, pod, pause);
        assert IsPauseOf(store, pause.id, pod.id);
      }
      var status := ReportPod(pod, pause);
      r := if status.Some? then Listed(status.value) else ListFault;
      if sound && Live(store, pod) && PauseAgrees(store, pod, pause) {
        StepReported(store, pod, r, Faults(log) == Faults(old(log)));
      }
    }

    /** Handles one listed pod: a pod that is not managed is deleted, a managed pod without a pause container is
        removed, and any other is reported. A pod whose lookup fails is removed blindly. */
    method ListOne(pod: PodRef) returns (r: ListStep)
      requires Valid()
      modifies this`store, this`log, this`sound, this`losses, this`blinds, this`harms
      ensures Valid() && Faults(log) >= Faults(old(log)) && NoNewPods(old(store), store)
      ensures blinds == old(blinds) || blinds == old(blinds) + 1
      ensures harms == old(harms) + if blinds > old(blinds) && !Admissible(old(store), PodEmptied(pod.id)) then 1 else 0
      ensures blinds > old(blinds) ==>
                && Faults(log) > Faults(old(log)) && Managed(pod.rec.labels)
                && Since(RemoveKind, Then(Then(old(log), Fault(ListCtrsOp)), RemoveTry(pod.id, true)), log)
                && (r.Skipped? && Live(old(store), pod) ==> store == Dropped(old(store), pod.id))
      ensures old(sound) && Live(old(store), pod) && harms == old(harms) ==>
                sound && SameOutside(old(store), store, {pod.id})
      ensures old(sound) && Live(old(store), pod) && blinds == old(blinds) ==>
                StepPromise(old(store), store, pod, r, Faults(log) == Faults(old(log)))
    {
      ghost var s := store;
      if !Managed(pod.rec.labels) {
        var deleted := DeletePodByRef(pod, false);
        if old(sound) && Live(s, pod) {
          StepForeign(s, store, pod, Faults(log) == Faults(old(log)));
        }
        return Skipped;
      }
      if sound {
        Good();
      }
      var found := FindPauseOf(pod);
      if !found.Found? {
        if sound && Live(s, pod) && found.NotFound? {
          OrphanRemovable(s, pod.id);
        }
        r := RemoveInvalid(pod, found.LookupFailed?);
        if old(sound) && Live(s, pod) && found.NotFound? {
          StepRemoved(s, store, pod, r, Faults(log) == Faults(old(log)));
        }
        return;
      }
      r := ReportOne(pod, found.value);
    }

    /** Handles the selected pods one by one; `n` pods were handled. */
    method ListAll(sel: seq<PodRef>) returns (r: Option<seq<PodStatus>>, ghost n: nat)
      requires Valid() && RestLive(store, sel, 0) && Distinct(sel)
      modifies this`store, this`log, this`sound, this`losses, this`blinds, this`harms
      ensures Valid() && Faults(log) >= Faults(old(log)) && NoNewPods(old(store), store)
      ensures blinds >= old(blinds) && harms >= old(harms) && (harms > old(harms) ==> blinds > old(blinds))
      ensures blinds > old(blinds) ==> Faults(log) > Faults(old(log))
      ensures n <= |sel| && (r.Some? ==> n == |sel|)
      ensures old(sound) && harms == old(harms) ==> sound
      ensures old(sound) && blinds == old(blinds) ==>
                && SameOutside(old(store), store, Dismissed(old(store), sel[..n]))
                && (r.Some? ==> ListedSoFar(old(store), store, sel, n, r.value, Faults(log) == Faults(old(log))))
                && (Faults(log) == Faults(old(log)) ==> r.Some?)
    {
      ghost var s := store;
      n := 0;
      SameOutsideRefl(s, {});
      var results: seq<PodStatus> := [];
      for i := 0 to |sel|
        invariant Valid() && Faults(log) >= Faults(old(log)) && NoNewPods(s, store) && n == i
        invariant blinds >= old(blinds) && harms >= old(harms) && (harms > old(harms) ==> blinds > old(blinds))
        invariant blinds > old(blinds) ==> Faults(log) > Faults(old(log))
        invariant old(sound) && harms == old(harms) ==> sound && RestLive(store, sel, i)
        invariant old(sound) && blinds == old(blinds) ==>
                    ListedSoFar(s, store, sel, i, results, Faults(log) == Faults(old(log)))
      {
        ghost var t, faults := store, Faults(log);
        var step := ListOne(sel[i]);
        n := i + 1;
        if old(sound) && harms == old(harms) {
          RestIsLive(t, store, sel, i);
        }
        if old(sound) && blinds == old(blinds) {
          ListStepKeeps(s, t, store, sel, i, results, step, faults == Faults(old(log)), Faults(log) == faults);
        }
        if step.ListFault? {
          return None, n;
        }
        results := if step.Listed? then results + [step.status] else results;
      }
      return Some(results), n;
    }

    /** Lists the selected pods. */
    method ListPods(all: bool, names: seq<string>) returns (r: Option<seq<PodStatus>>, ghost sel: seq<PodRef>)
      requires Valid()
      modifies this
      ensures Valid() && Faults(log) >= Faults(old(log)) && NoNewPods(old(store), store)
      ensures blinds >= old(blinds) && harms >= old(harms) && (harms > old(harms) ==> blinds > old(blinds))
      ensures blinds > old(blinds) ==> Faults(log) > Faults(old(log))
      ensures old(sound) && harms == old(harms) ==> sound
      ensures forall p | p in sel :: Live(old(store), p)
      ensures !all && names != [] && names[0] != "" ==>
                forall p | p in sel :: PodName in p.rec.labels && p.rec.labels[PodName] == names[0]
      ensures !all && names != [] && names[0] == "" ==>
                forall p | p in sel :: |p.rec.labels| >= 1 && (PodName in p.rec.labels ==> p.rec.labels[PodName] == "")
      ensures r.Some? && (all || names == []) ==> forall p | Live(old(store), p) :: p in sel
      ensures r.Some? && !all && names != [] && names[0] != "" ==>
                forall p | Live(old(store), p) && PodName in p.rec.labels && p.rec.labels[PodName] == names[0] ::
                  p in sel
      ensures r.Some? && !all && names != [] && names[0] == "" ==>
                forall p | && Live(old(store), p) && |p.rec.labels| >= 1
                           && (PodName in p.rec.labels ==> p.rec.labels[PodName] == "") :: p in sel
      ensures old(sound) && blinds == old(blinds) ==>
                && SameOutside(old(store), store, Dismissed(old(store), sel))
                && (r.Some? ==>
                      && EnumeratesPods(old(store).pods, ListFilter(all, names), sel)
                      && Uids(r.value) == Reported(old(store), sel)
                      && (forall status | status in r.value :: TrueStatus(old(store), status))
                      && (forall p | p in sel && Orphan(old(store), p.id) :: p.id !in store.pods))
                && (Faults(log) == Faults(old(log)) ==>
                      r.Some? && ListedClean(old(store), store, ListFilter(all, names), sel, Uids(r.value)))
      ensures base == old(log) && (sound ==> WakesOnly(init, base, log, Nobody))
    {
      base, topic := log, Nobody;
      sel := [];
      SameOutsideRefl(store, {});
      var pods := ListPodsByLabels(ListFilter(all, names));
      if pods.None? {
        return None, sel;
      }
      ghost var s := store;
      ghost var n;
      r, n := ListAll(pods.value);
      forall p | Live(s, p)
        ensures (p in pods.value <==> Matches(ListFilter(all, names), p.rec.labels)) && PodRef(p.id, s.pods[p.id]) == p
      {
        assert PodRef(p.id, s.pods[p.id]) == p;
      }
      forall l { FilterMeaning(all, names, l); }
      sel := pods.value[..n];
      assert n == |pods.value| ==> sel == pods.value;
    }

    /** If there is an abbot container, brings it to the running state. */
    method StartAbbot() returns (ok: bool, ghost abbot: Option<Id>, ghost seen: RunState)
      requires Valid()
      modifies this`log
      ensures Valid() && Since(AwakeKind, old(log), log)
      ensures Faults(log) >= Faults(old(log))
      ensures abbot.Some? ==> AbbotCtr(store, abbot.value)
      ensures ok && abbot.Some? ==>
                && AbbotIsUp(log, abbot.value)
                && (seen == Running ==> log == Then(old(log), Seen(abbot.value, Running)))
                && (seen == Paused ==> log == Then(Then(old(log), Seen(abbot.value, Paused)), Unpaused(abbot.value)))
                && (seen != Running && seen != Paused ==>
                      log == Then(Then(old(log), Seen(abbot.value, seen)), AbbotStarted(abbot.value)))
      ensures !ok ==> EndsWithFault(log)
      ensures abbot.None? && Faults(log) == Faults(old(log)) ==> forall c :: !AbbotCtr(store, c)
    {
      abbot, seen := None, Unknown;
      var found := FindAbbotContainer();
      if !found.Found? {
        return true, abbot, seen;
      }
      var c := found.value.id;
      abbot := Some(c);
      var state, fault: bool := *, *;
      if fault {
        Note(Fault(StateOp));
        return false, abbot, seen;
      }
      Note(Seen(c, state));
      seen := state;
      fault := *;
      if state == Paused {
        if fault {
          Note(Fault(UnpauseOp));
          return false, abbot, seen;
        }
        Note(Unpaused(c));
      } else if state != Running {
        if fault {
          Note(Fault(StartOp));
          return false, abbot, seen;
        }
        Note(AbbotStarted(c));
      }
      return true, abbot, seen;
    }

    /** Restores the network of the first infra container of a started pod. */
    method RestoreNetwork(pod: PodRef)
      requires Valid()
      modifies this`log, this`losses
      ensures Valid() && Restored(store, pod, old(log), log) && Faults(log) >= Faults(old(log))
    {
      var ctrs := AllContainers(pod);
      if ctrs.None? {
        return;
      }
      for i := 0 to |ctrs.value|
        invariant Valid() && log == old(log)
        invariant forall j | 0 <= j < i :: !IsInfra(ctrs.value[j].rec.labels)
      {
        if IsInfra(ctrs.value[i].rec.labels) {
          assert ctrs.value[i] in ctrs.value;
          assert InfraOf(store, ctrs.value[i].id, pod.id);
          Note(RestoreTry(ctrs.value[i].id));
          var _ := AbbotExec(true);
          return;
        }
      }
      forall c ensures !InfraOf(store, c, pod.id) {
        assert InPod(store, c, pod.id) ==> CtrRef(c, store.ctrs[c]) in ctrs.value;
      }
    }

    /** Handles one pod at startup: a managed pod is started and its network restored, any other is deleted. */
    method InitOne(pod: PodRef)
      requires Valid()
      modifies this`store, this`log, this`sound, this`losses, this`blinds, this`harms
      ensures Valid() && NoNewPods(old(store), store)
      ensures InitBlock(old(store), pod, old(log), log) && blinds == old(blinds) && harms == old(harms)
      ensures Managed(pod.rec.labels) ==> store == old(store) && sound == old(sound)
      ensures old(sound) && Live(old(store), pod) ==> sound
      ensures Live(old(store), pod) && !Managed(pod.rec.labels) ==> SameOutside(old(store), store, {pod.id})
      ensures Faults(log) >= Faults(old(log))
    {
      if !Managed(pod.rec.labels) {
        var _ := DeletePodByRef(pod, false);
        return;
      }
      var ok: bool := *;
      Note(PodStart(pod.id, ok));
      if !ok || IsHostNetwork(pod.rec.labels) {
        return;
      }
      RestoreNetwork(pod);
    }

    /** Handles all listed pods at startup. */
    method InitAll(pods: seq<PodRef>) returns (ghost marks: seq<History>)
      requires Valid() && forall a, b | 0 <= a < b < |pods| :: pods[a].id != pods[b].id
      requires forall p | p in pods :: Live(store, p)
      modifies this`store, this`log, this`sound, this`losses, this`blinds, this`harms
      ensures Valid() && NoNewPods(old(store), store) && Faults(log) >= Faults(old(log))
      ensures blinds == old(blinds) && harms == old(harms)
      ensures |marks| == |pods| + 1 && marks[0] == old(log) && marks[|pods|] == log
      ensures (old(sound) ==> sound) && OrphansKept(old(store), store) && InitBlocks(old(store), pods, marks)
    {
      ghost var s := store;
      marks := [log];
      SameOutsideRefl(s, {});
      for i := 0 to |pods|
        invariant Valid() && NoNewPods(s, store) && Faults(log) >= Faults(old(log))
        invariant blinds == old(blinds) && harms == old(harms)
        invariant |marks| == i + 1 && marks[0] == old(log) && marks[i] == log
        invariant (old(sound) ==> sound) && SameOutside(s, store, Foreign(pods[..i])) && BlocksUpTo(s, pods, marks, i)
      {
        ghost var t, before := store, log;
        assert pods[i] in pods;
        NextIsThere(s, t, pods, i);
        InitOne(pods[i]);
        ForeignStep(s, t, store, pods, i);
        SameBlock(s, t, pods[i], before, log);
        BlocksAppend(s, pods, marks, i, log);
        marks := marks + [log];
      }
      assert pods[..|pods|] == pods;
      ForeignOrphans(s, store, pods);
    }

    /** Starts everything that is stored, the abbot container first. */
    method InitRuntime() returns (ok: bool, ghost abbot: Option<Id>, ghost pods: seq<PodRef>, ghost marks: seq<History>)
      requires Valid()
      modifies this
      ensures Valid() && NoNewPods(old(store), store) && blinds == old(blinds) && harms == old(harms)
      ensures base == old(log) && (sound ==> WakesOnly(init, base, log, Nobody))
      ensures !ok ==> && store == old(store) && sound == old(sound)
                      && Since(AwakeKind, old(log), log) && EndsWithFault(log)
      ensures ok ==> && EnumeratesPods(old(store).pods, map[], pods) && |marks| == |pods| + 1
                     && Since(AwakeKind, old(log), marks[0]) && marks[|pods|] == log
                     && (abbot.Some? ==> AbbotCtr(old(store), abbot.value) && AbbotIsUp(marks[0], abbot.value))
      ensures ok && abbot.None? && Faults(marks[0]) == Faults(old(log)) ==> forall c :: !AbbotCtr(old(store), c)
      ensures (old(sound) ==> sound) && OrphansKept(old(store), store) && (ok ==> InitBlocks(old(store), pods, marks))
    {
      base, topic := log, Nobody;
      pods, marks := [], [];
      SameOutsideRefl(store, {});
      OrphansOutside(store, store, {});
      ghost var seen;
      ok, abbot, seen := StartAbbot();
      if !ok {
        return;
      }
      var all := ListPodsByLabels(map[]);
      if all.None? {
        ok := false;
        return;
      }
      pods := all.value;
      marks := InitAll(all.value);
    }

    /** Carries one command out. */
    method Perform(c: Command)
      requires Valid()
      modifies this
      ensures Valid() && Span(init, c, old(log), log)
      ensures old(sound) && harms == old(harms) && Honest(old(store), c) ==> sound
      ensures old(sound) && harms == old(harms) && Honest(old(store), c) && KeepsOrphans(c) ==>
                OrphansKept(old(store), store)
    {
      match c {
        case Ensure(cmd) =>
          var r, _, w, stop := EnsurePod(cmd);
          assert EnsureSpan(cmd, old(log), log);
        case Delete(uid, names, check) =>
          var _, _ := DeletePod(uid, names, check);
        case List(all, names) =>
          var _, _ := ListPods(all, names);
        case Init =>
          var _, _, _, _ := InitRuntime();
      }
      ExtendsIsMoment(base, log);
    }

    /** Any sequence of commands, with any faults; `marks` are the moments between the commands. From a good store, if
        every ensure command is truthful about the store when its turn comes and no blind removal does harm, the
        invariant holds at every moment of the run, and without listings every orphan is still in place at the end.
        Commands that go with each other are truthful. */
    method Run(cmds: seq<Command>) returns (ghost marks: seq<History>)
      requires Valid()
      modifies this
      ensures Valid() && MarksOf(init, cmds, marks) && marks[0] == old(log) && marks[|cmds|] == log
      ensures old(sound) && AllHonest(init, cmds, marks) && Harms(init, log) == Harms(init, old(log)) ==>
                && sound && (forall m | Moment(m, log) :: Inv(Replay(init, m)))
                && ((forall c | c in cmds :: KeepsOrphans(c)) ==> OrphansKept(old(store), store))
      ensures Truthful(old(store), cmds) ==> AllHonest(init, cmds, marks)
    {
      ghost var s := store;
      marks := [log];
      SameOutsideRefl(s, {});
      OrphansOutside(s, s, {});
      for i := 0 to |cmds|
        invariant Valid() && |marks| == i + 1 && marks[0] == old(log) && marks[i] == log && harms >= old(harms)
        invariant SpansUpTo(init, cmds, marks, i)
        invariant Truthful(s, cmds) ==> Truthful(store, cmds) && HonestUpTo(init, cmds, marks, i)
        invariant old(sound) && HonestUpTo(init, cmds, marks, i) && harms == old(harms) ==>
                    sound && ((forall c | c in cmds :: KeepsOrphans(c)) ==> OrphansKept(s, store))
      {
        ghost var t, before := store, marks;
        assert cmds[i] in cmds;
        Perform(cmds[i]);
        marks := marks + [log];
        MarksAppend(init, cmds, before, log, i);
        if Truthful(t, cmds) {
          StaysTruthful(t, store, cmds, cmds[i]);
        }
      }
      if sound {
        forall m | Moment(m, log) ensures Inv(Replay(init, m)) { SafeAtEveryMoment(init, log, m); }
      }
    }
  }
}
