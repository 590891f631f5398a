/** Waiting for a command that runs in a container: a goroutine runs it and reports over a channel with room
    for one message, and the caller selects between that channel and the cancellation of its context.

    A run is any interleaving of the steps of the two and of the cancellation. */
module ExecProtocol {
  import opened Wrappers

  datatype ExecResult = ExecOk | ExecErr(code: int)

  /** Running the command; at the select with an error to report; about to close the channel; gone. */
  datatype Producer = Executing | Choosing(code: int) | Closing | Finished

  datatype Consumer = Waiting | GotNil | GotError(code: int) | GotCancelled

  datatype Sys = Sys(
    producer: Producer,
    consumer: Consumer,
    exec: Option<ExecResult>,
    buffer: seq<int>,
    closed: bool,
    cancelled: bool)

  datatype Step =
    | ExecReturns(result: ExecResult)
    | Send
    | GiveUp
    | Close
    | Receive
    | ReceiveClosed
    | Leave
    | Cancel

  const CAPACITY: nat := 1

  function Begin(cancelled: bool): Sys { Sys(Executing, Waiting, None, [], false, cancelled) }

  /** The step can be taken: a send needs room, a receive needs a message or a closed channel. */
  predicate Enabled(s: Sys, step: Step) {
    match step
    case ExecReturns(_) => s.producer == Executing
    case Send => s.producer.Choosing? && |s.buffer| < CAPACITY
    case GiveUp => s.producer.Choosing? && s.cancelled
    case Close => s.producer == Closing
    case Receive => s.consumer == Waiting && s.buffer != []
    case ReceiveClosed => s.consumer == Waiting && s.buffer == [] && s.closed
    case Leave => s.consumer == Waiting && s.cancelled
    case Cancel => !s.cancelled
  }

  /** A send on a closed channel and a second close are what the language punishes with a panic. */
  predicate Panics(s: Sys, step: Step) { s.closed && (step == Send || step == Close) }

  function Do(s: Sys, step: Step): Sys
    requires Enabled(s, step)
  {
    match step
    case ExecReturns(r) => s.(exec := Some(r), producer := if r.ExecErr? then Choosing(r.code) else Closing)
    case Send => s.(buffer := s.buffer + [s.producer.code], producer := Closing)
    case GiveUp => s.(producer := Closing)
    case Close => s.(closed := true, producer := Finished)
    case Receive => s.(consumer := GotError(s.buffer[0]), buffer := s.buffer[1..])
    case ReceiveClosed => s.(consumer := GotNil)
    case Leave => s.(consumer := GotCancelled)
    case Cancel => s.(cancelled := true)
  }

  /** `steps` can be taken one after the other. */
  predicate Possible(cancelled: bool, steps: seq<Step>)
    decreases |steps|, 0
  {
    steps == [] ||
    (Possible(cancelled, steps[..|steps| - 1]) && Enabled(After(cancelled, steps[..|steps| - 1]), steps[|steps| - 1]))
  }

  function After(cancelled: bool, steps: seq<Step>): Sys
    requires Possible(cancelled, steps)
    decreases |steps|, 1
  {
    if steps == [] then Begin(cancelled) else Do(After(cancelled, steps[..|steps| - 1]), steps[|steps| - 1])
  }

  function Count(steps: seq<Step>, step: Step): nat {
    if steps == [] then 0
    else Count(steps[..|steps| - 1], step) + if steps[|steps| - 1] == step then 1 else 0
  }

  /** What holds between any two steps; `sends` and `closes` count the steps taken so far. */
  predicate Consistent(s: Sys, sends: nat, closes: nat) {
    && (s.producer == Executing <==> s.exec.None?)
    && (s.producer.Choosing? ==> s.exec == Some(ExecErr(s.producer.code)))
    && (s.closed <==> s.producer == Finished)
    && closes == (if s.closed then 1 else 0)
    && sends <= 1
    && (sends == 1 ==> s.exec.Some? && s.exec.value.ExecErr? && !s.producer.Choosing?)
    && (s.buffer != [] ==> sends == 1 && s.buffer == [s.exec.value.code])
    && (sends == 1 && s.buffer == [] <==> s.consumer.GotError?)
    && (s.consumer.GotError? ==> s.consumer.code == s.exec.value.code)
    && (s.exec.Some? && s.exec.value.ExecErr? && !s.producer.Choosing? && sends == 0 ==> s.cancelled)
    && (s.consumer == GotNil ==> s.closed && sends == 0)
    && (s.consumer == GotCancelled ==> s.cancelled)
  }

  lemma StepIsConsistent(s: Sys, step: Step, sends: nat, closes: nat)
    requires Consistent(s, sends, closes) && Enabled(s, step)
    ensures Consistent(Do(s, step), sends + if step == Send then 1 else 0, closes + if step == Close then 1 else 0)
    ensures !Panics(s, step)
  {
  }

  lemma {:induction false} AlwaysConsistent(cancelled: bool, steps: seq<Step>)
    requires Possible(cancelled, steps)
    ensures Consistent(After(cancelled, steps), Count(steps, Send), Count(steps, Close))
  {
    if steps != [] {
      var n := |steps| - 1;
      AlwaysConsistent(cancelled, steps[..n]);
      StepIsConsistent(After(cancelled, steps[..n]), steps[n], Count(steps[..n], Send), Count(steps[..n], Close));
    }
  }

  /** In every interleaving: at most one send and one close, never a panic, and whenever there is something to
      report there is room for it, so the goroutine never waits for the caller. */
  lemma ChannelDiscipline(cancelled: bool, steps: seq<Step>)
    requires Possible(cancelled, steps)
    ensures Count(steps, Send) <= 1 && Count(steps, Close) <= 1
    ensures var s := After(cancelled, steps);
            && (s.producer.Choosing? ==> Enabled(s, Send))
            && (s.producer == Finished <==> Count(steps, Close) == 1)
            && (forall step | Enabled(s, step) :: !Panics(s, step))
  {
    AlwaysConsistent(cancelled, steps);
    var s := After(cancelled, steps);
    forall step | Enabled(s, step) ensures !Panics(s, step) {
      StepIsConsistent(s, step, Count(steps, Send), Count(steps, Close));
    }
  }

  /** What the caller may have received, over every interleaving: an error is the error of the command; nothing
      means that the command succeeded, or that it failed and the context was cancelled before the report. */
  lemma ResultIsHonest(cancelled: bool, steps: seq<Step>)
    requires Possible(cancelled, steps)
    ensures var s := After(cancelled, steps);
            match s.consumer
            case Waiting => true
            case GotError(code) => s.exec == Some(ExecErr(code))
            case GotCancelled => s.cancelled
            case GotNil => s.exec == Some(ExecOk) || (s.exec.Some? && s.cancelled && Count(steps, Send) == 0)
  {
    AlwaysConsistent(cancelled, steps);
  }

  /** Without a cancellation the caller gets exactly the result of the command. */
  lemma WithoutCancelResultIsExact(steps: seq<Step>, code: int)
    requires Possible(false, steps) && Cancel !in steps && After(false, steps).consumer != Waiting
    ensures var s := After(false, steps);
            && (s.consumer == GotNil <==> s.exec == Some(ExecOk))
            && (s.consumer == GotError(code) <==> s.exec == Some(ExecErr(code)))
  {
    AlwaysConsistent(false, steps);
    NotCancelled(steps);
  }

  lemma {:induction false} NotCancelled(steps: seq<Step>)
    requires Possible(false, steps) && Cancel !in steps
    ensures !After(false, steps).cancelled
  {
    if steps != [] {
      NotCancelled(steps[..|steps| - 1]);
    }
  }

  /** With a cancellation a failed command can pass for a successful one: the goroutine drops the error and
      closes the channel, and the caller's select takes the closed channel. */
  lemma CancelledFailureCanLookLikeSuccess(code: int)
    ensures var steps := [ExecReturns(ExecErr(code)), Cancel, GiveUp, Close, ReceiveClosed];
            && Possible(false, steps) && After(false, steps).exec == Some(ExecErr(code))
            && After(false, steps).consumer == GotNil
  {
    var a: seq<Step> := [ExecReturns(ExecErr(code))];
    assert [] + a == a;
    Extend(false, [], a[0]);
    Extend(false, a, Cancel);
    Extend(false, a + [Cancel], GiveUp);
    Extend(false, a + [Cancel] + [GiveUp], Close);
    Extend(false, a + [Cancel] + [GiveUp] + [Close], ReceiveClosed);
    assert a + [Cancel] + [GiveUp] + [Close] + [ReceiveClosed]
        == [ExecReturns(ExecErr(code)), Cancel, GiveUp, Close, ReceiveClosed];
  }

  // ----- nobody is left behind -----

  predicate IsProducerStep(step: Step) { step.ExecReturns? || step == Send || step == GiveUp || step == Close }

  function Rank(p: Producer): nat {
    match p case Executing => 3 case Choosing(_) => 2 case Closing => 1 case Finished => 0
  }

  /** What the goroutine still has to do once the command has returned. */
  function Rest(p: Producer): seq<Step> {
    match p
    case Choosing(_) => [Send, Close]
    case Closing => [Close]
    case _ => []
  }

  /** Every step of the goroutine brings it closer to its end and nobody else's step moves it, so any run has at
      most three of its steps. */
  lemma {:induction false} ProducerStepsAreBounded(cancelled: bool, steps: seq<Step>)
    requires Possible(cancelled, steps)
    ensures CountProducer(steps) + Rank(After(cancelled, steps).producer) <= 3
  {
    if steps != [] {
      ProducerStepsAreBounded(cancelled, steps[..|steps| - 1]);
    }
  }

  function CountProducer(steps: seq<Step>): nat {
    if steps == [] then 0
    else CountProducer(steps[..|steps| - 1]) + if IsProducerStep(steps[|steps| - 1]) then 1 else 0
  }

  lemma Extend(cancelled: bool, steps: seq<Step>, step: Step)
    requires Possible(cancelled, steps) && Enabled(After(cancelled, steps), step)
    ensures Possible(cancelled, steps + [step]) && After(cancelled, steps + [step]) == Do(After(cancelled, steps), step)
  {
    assert (steps + [step])[..|steps|] == steps;
  }

  /** Once the command has returned, the goroutine can finish by its own steps alone, from any reachable
      state, even if the caller has left: the channel is then closed. */
  lemma ProducerFinishesAlone(cancelled: bool, steps: seq<Step>)
    requires Possible(cancelled, steps) && After(cancelled, steps).producer != Executing
    ensures var rest := Rest(After(cancelled, steps).producer);
            && Possible(cancelled, steps + rest)
            && After(cancelled, steps + rest).producer == Finished && After(cancelled, steps + rest).closed
            && After(cancelled, steps + rest).consumer == After(cancelled, steps).consumer
  {
    AlwaysConsistent(cancelled, steps);
    var s := After(cancelled, steps);
    match s.producer {
      case Choosing(_) =>
        Extend(cancelled, steps, Send);
        Extend(cancelled, steps + [Send], Close);
        assert steps + [Send] + [Close] == steps + Rest(s.producer);
      case Closing =>
        Extend(cancelled, steps, Close);
      case Finished =>
        assert steps + [] == steps;
    }
  }

  /** Once the goroutine is gone, a caller that still waits can go on: it never waits for ever. */
  lemma ConsumerNeverStuck(cancelled: bool, steps: seq<Step>)
    requires Possible(cancelled, steps)
    ensures var s := After(cancelled, steps);
            s.consumer == Waiting && (s.producer == Finished || s.cancelled) ==>
              Enabled(s, Receive) || Enabled(s, ReceiveClosed) || Enabled(s, Leave)
  {
    AlwaysConsistent(cancelled, steps);
  }

  // ----- the callers -----

  datatype Hook = ExecHook(command: seq<string>) | HttpHook | SocketHook

  datatype HookResult = HookNil | HookError(code: int) | HookCancelled

  function ConsumerResult(c: Consumer): HookResult
    requires c != Waiting
  {
    match c
    case GotNil => HookNil
    case GotError(code) => HookError(code)
    case GotCancelled => HookCancelled
  }

  /** What a hook action comes to if its command, when there is one, was run as in `steps`. */
  function HookAction(hook: Hook, cancelled: bool, steps: seq<Step>): HookResult
    requires Possible(cancelled, steps) && After(cancelled, steps).consumer != Waiting
  {
    match hook
    case ExecHook(command) => if |command| > 0 then ConsumerResult(After(cancelled, steps).consumer) else HookNil
    case HttpHook => HookNil
    case SocketHook => HookNil
  }

  /** A hook succeeds only if there was no command to run, the command succeeded or the context was cancelled. */
  lemma HookSucceedsOnlyIf(hook: Hook, cancelled: bool, steps: seq<Step>)
    requires Possible(cancelled, steps) && After(cancelled, steps).consumer != Waiting
    requires HookAction(hook, cancelled, steps) == HookNil
    ensures || !hook.ExecHook? || hook.command == []
            || After(cancelled, steps).exec == Some(ExecOk)
            || After(cancelled, steps).cancelled
  {
    ResultIsHonest(cancelled, steps);
  }

  /** Without a cancellation the result of a hook is exact: nil if there is no command or it succeeded, and otherwise
      the error of the command. */
  lemma HookIsExact(hook: Hook, steps: seq<Step>, code: int)
    requires Possible(false, steps) && Cancel !in steps && After(false, steps).consumer != Waiting
    ensures HookAction(hook, false, steps) == HookNil <==>
              !hook.ExecHook? || hook.command == [] || After(false, steps).exec == Some(ExecOk)
    ensures HookAction(hook, false, steps) == HookError(code) <==>
              hook.ExecHook? && hook.command != [] && After(false, steps).exec == Some(ExecErr(code))
    ensures HookAction(hook, false, steps) != HookCancelled
  {
    WithoutCancelResultIsExact(steps, code);
    AlwaysConsistent(false, steps);
    NotCancelled(steps);
  }

  /** With a cancelled context the result is that of the select: the caller leaves with the cancellation, or takes what
      came over the channel. */
  lemma HookFollowsTheCaller(hook: Hook, cancelled: bool, steps: seq<Step>)
    requires Possible(cancelled, steps) && After(cancelled, steps).consumer != Waiting
    requires hook.ExecHook? && hook.command != []
    ensures HookAction(hook, cancelled, steps) == HookCancelled <==> After(cancelled, steps).consumer == GotCancelled
    ensures HookAction(hook, cancelled, steps) == HookNil <==> After(cancelled, steps).consumer == GotNil
  {
  }
}
