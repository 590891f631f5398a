/** The order in which the containers of a pod are started, hooked and waited for. */
module Plan {
  import opened Labels
  import opened PodStore
  import opened Status

  /** Start a container, run its hook if it has one, and wait for it if asked to. */
  function Block(h: History, c: Id, hook: bool, wait: bool): History {
    var started := Then(h, Started(c));
    var hooked := if hook then Then(started, Hooked(c)) else started;
    if wait then Then(hooked, Waited(c)) else hooked
  }

  /** The first `n` blocks, one after the other. */
  function Planned(base: History, ctrs: seq<CtrRef>, specs: seq<CtrSpec>, wait: bool, n: nat): History
    requires n <= |ctrs| == |specs|
  {
    if n == 0 then base
    else Block(Planned(base, ctrs, specs, wait, n - 1), ctrs[n - 1].id, specs[n - 1].hook, wait)
  }

  /** Every container seen alive, in order. */
  function AllAlive(base: History, ctrs: seq<CtrRef>, n: nat): History
    requires n <= |ctrs|
  {
    if n == 0 then base else Then(AllAlive(base, ctrs, n - 1), Alive(ctrs[n - 1].id))
  }

  lemma {:induction false} PlannedGrows(
    base: History, ctrs: seq<CtrRef>, specs: seq<CtrSpec>, wait: bool, k: nat, n: nat)
    requires k <= n <= |ctrs| == |specs|
    ensures Moment(Planned(base, ctrs, specs, wait, k), Planned(base, ctrs, specs, wait, n))
  {
    if k < n {
      PlannedGrows(base, ctrs, specs, wait, k, n - 1);
      var h := Planned(base, ctrs, specs, wait, n - 1);
      var b := Block(h, ctrs[n - 1].id, specs[n - 1].hook, wait);
      assert Moment(h, Then(h, Started(ctrs[n - 1].id)));
      assert Moment(Then(h, Started(ctrs[n - 1].id)), b);
      MomentTrans(h, Then(h, Started(ctrs[n - 1].id)), b);
      MomentTrans(Planned(base, ctrs, specs, wait, k), h, b);
    }
  }

  /** A moment of a block lies before the block or is one of its events. */
  lemma BlockMoments(m: History, h: History, c: Id, hook: bool, wait: bool)
    requires Moment(m, Block(h, c, hook, wait))
    ensures var started := Then(h, Started(c)); var hooked := if hook then Then(started, Hooked(c)) else started;
            Moment(m, h) || m == started || m == hooked || m == Block(h, c, hook, wait)
  {
    var started := Then(h, Started(c));
    var hooked := if hook then Then(started, Hooked(c)) else started;
    assert Moment(m, Block(h, c, hook, wait)) ==> m == Block(h, c, hook, wait) || Moment(m, hooked);
    assert Moment(m, hooked) ==> m == hooked || Moment(m, started);
  }

  function Length(h: History): nat {
    match h
    case Start => 0
    case Then(prev, _) => Length(prev) + 1
  }

  lemma {:induction false} MomentIsShorter(m: History, h: History)
    requires Moment(m, h)
    ensures Length(m) <= Length(h) && (m != h ==> Length(m) < Length(h))
  {
    if m != h {
      MomentIsShorter(m, h.prev);
    }
  }

  /** Starts follow the order of the specs: whenever container `j` is started, exactly the complete blocks
      of the containers before it have happened, so every earlier hook and wait lies before this start and
      everything of the later containers after it. */
  lemma {:induction false} StartComesAfterEarlierBlocks(
    base: History, ctrs: seq<CtrRef>, specs: seq<CtrSpec>, wait: bool, n: nat, m: History, j: nat)
    requires n <= |ctrs| == |specs| && j < |ctrs|
    requires forall a, b | 0 <= a < b < |ctrs| :: ctrs[a].id != ctrs[b].id
    requires m.Then? && m.event == Started(ctrs[j].id)
    requires Moment(m, Planned(base, ctrs, specs, wait, n)) && Moment(base, m.prev)
    ensures j < n && m.prev == Planned(base, ctrs, specs, wait, j)
  {
    if n == 0 {
      MomentIsShorter(m, base);
      MomentIsShorter(base, m.prev);
    } else {
      var h := Planned(base, ctrs, specs, wait, n - 1);
      if Moment(m, h) {
        StartComesAfterEarlierBlocks(base, ctrs, specs, wait, n - 1, m, j);
      } else {
        BlockMoments(m, h, ctrs[n - 1].id, specs[n - 1].hook, wait);
      }
    }
  }

  /** Within a block the hook comes directly after the start and the wait comes last. */
  lemma {:induction false} HookAndWaitFollowTheirStart(
    base: History, ctrs: seq<CtrRef>, specs: seq<CtrSpec>, wait: bool, n: nat, m: History, j: nat)
    requires n <= |ctrs| == |specs| && j < |ctrs|
    requires forall a, b | 0 <= a < b < |ctrs| :: ctrs[a].id != ctrs[b].id
    requires m.Then? && (m.event == Hooked(ctrs[j].id) || m.event == Waited(ctrs[j].id))
    requires Moment(m, Planned(base, ctrs, specs, wait, n)) && Moment(base, m.prev)
    ensures j < n
    ensures var started := Then(Planned(base, ctrs, specs, wait, j), Started(ctrs[j].id));
            if m.event.Hooked? then specs[j].hook && m.prev == started
            else wait && m.prev == if specs[j].hook then Then(started, Hooked(ctrs[j].id)) else started
  {
    if n == 0 {
      MomentIsShorter(m, base);
      MomentIsShorter(base, m.prev);
    } else {
      var h := Planned(base, ctrs, specs, wait, n - 1);
      if Moment(m, h) {
        HookAndWaitFollowTheirStart(base, ctrs, specs, wait, n - 1, m, j);
      } else {
        BlockMoments(m, h, ctrs[n - 1].id, specs[n - 1].hook, wait);
      }
    }
  }

  /** How often an event is due in the run of its container. */
  function Due(e: Event, hook: bool, wait: bool): nat {
    match e
    case Started(_) => 1
    case Hooked(_) => if hook then 1 else 0
    case Waited(_) => if wait then 1 else 0
    case _ => 0
  }

  lemma BlockCount(h: History, c: Id, hook: bool, wait: bool, e: Event)
    ensures e == Started(c) || e == Hooked(c) || e == Waited(c) ==>
              Count(e, Block(h, c, hook, wait)) == Count(e, h) + Due(e, hook, wait)
    ensures e != Started(c) && e != Hooked(c) && e != Waited(c) ==> Count(e, Block(h, c, hook, wait)) == Count(e, h)
  {
    var started := Then(h, Started(c));
    var hooked := if hook then Then(started, Hooked(c)) else started;
    assert Count(e, started) == Count(e, h) + if e == Started(c) then 1 else 0;
    assert Count(e, hooked) == Count(e, started) + if hook && e == Hooked(c) then 1 else 0;
  }

  lemma {:induction false} PlanCount(
    base: History, ctrs: seq<CtrRef>, specs: seq<CtrSpec>, wait: bool, n: nat, j: nat, e: Event)
    requires n <= |ctrs| == |specs| && j < |ctrs|
    requires forall a, b | 0 <= a < b < |ctrs| :: ctrs[a].id != ctrs[b].id
    requires var c := ctrs[j].id; e == Started(c) || e == Hooked(c) || e == Waited(c) || e == Alive(c)
    ensures Count(e, Planned(base, ctrs, specs, wait, n))
         == Count(e, base) + if j < n then Due(e, specs[j].hook, wait) else 0
  {
    if n > 0 {
      PlanCount(base, ctrs, specs, wait, n - 1, j, e);
      BlockCount(Planned(base, ctrs, specs, wait, n - 1), ctrs[n - 1].id, specs[n - 1].hook, wait, e);
    }
  }

  /** Every container is seen alive once. */
  lemma {:induction false} AliveCounts(base: History, ctrs: seq<CtrRef>, n: nat, j: nat, e: Event)
    requires n <= |ctrs| && j < |ctrs|
    requires forall a, b | 0 <= a < b < |ctrs| :: ctrs[a].id != ctrs[b].id
    ensures var h := AllAlive(base, ctrs, n);
            && Count(Alive(ctrs[j].id), h) == Count(Alive(ctrs[j].id), base) + (if j < n then 1 else 0)
            && (!e.Alive? ==> Count(e, h) == Count(e, base))
  {
    if n > 0 {
      AliveCounts(base, ctrs, n - 1, j, e);
    }
  }

  /** The moments at which container `j` is started, hooked and waited for, in this order; `first` is where its run
      begins and `last` where it ends. */
  lemma RunMoments(base: History, ctrs: seq<CtrRef>, specs: seq<CtrSpec>, wait: bool, j: nat)
    returns (first: History, started: History, hooked: History, last: History)
    requires j < |ctrs| == |specs|
    ensures first == Planned(base, ctrs, specs, wait, j) && last == Planned(base, ctrs, specs, wait, j + 1)
    ensures started == Then(first, Started(ctrs[j].id))
    ensures if specs[j].hook then hooked == Then(started, Hooked(ctrs[j].id)) else hooked == started
    ensures if wait then last == Then(hooked, Waited(ctrs[j].id)) else last == hooked
  {
    first, last := Planned(base, ctrs, specs, wait, j), Planned(base, ctrs, specs, wait, j + 1);
    started := Then(first, Started(ctrs[j].id));
    hooked := if specs[j].hook then Then(started, Hooked(ctrs[j].id)) else started;
  }

  lemma {:induction false} AliveGrows(base: History, ctrs: seq<CtrRef>, n: nat)
    requires n <= |ctrs|
    ensures Moment(base, AllAlive(base, ctrs, n))
  {
    if n > 0 {
      AliveGrows(base, ctrs, n - 1);
    }
  }

  /** An event that belongs to the run of created containers. */
  predicate IsRunEvent(e: Event) { e.Started? || e.Hooked? || e.Waited? || e.Alive? }

  /** After `base` a plan has only run events. */
  lemma {:induction false} PlanOnlyRuns(
    base: History, ctrs: seq<CtrRef>, specs: seq<CtrSpec>, wait: bool, n: nat, m: History)
    requires n <= |ctrs| == |specs| && Moment(m, Planned(base, ctrs, specs, wait, n)) && m.Then?
    ensures IsRunEvent(m.event) || Moment(m, base)
  {
    if n > 0 {
      var h := Planned(base, ctrs, specs, wait, n - 1);
      BlockMoments(m, h, ctrs[n - 1].id, specs[n - 1].hook, wait);
      if Moment(m, h) {
        PlanOnlyRuns(base, ctrs, specs, wait, n - 1, m);
      }
    }
  }

  lemma {:induction false} AliveOnlyRuns(base: History, ctrs: seq<CtrRef>, n: nat, m: History)
    requires n <= |ctrs| && Moment(m, AllAlive(base, ctrs, n)) && m.Then?
    ensures IsRunEvent(m.event) || Moment(m, base)
  {
    if n > 0 && m != AllAlive(base, ctrs, n) {
      AliveOnlyRuns(base, ctrs, n - 1, m);
    }
  }
}
