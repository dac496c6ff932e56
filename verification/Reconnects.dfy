/**
 * The NATS callbacks, which the client runs one at a time, against the loop of the route fetcher: a goroutine
 * reports each disconnection until the reconnect callback acknowledges it, and the loop announces itself again.
 */
module Reconnects {
  import opened Options

  /** Where the callback now running is blocked, if one is. */
  datatype Dispatcher = Idle | Acking | Signalling

  datatype Loop = Starting | Looping | Returned

  datatype State = State(
    connected: bool, dispatcher: Dispatcher, loop: Loop,
    tickers: int,                // live "still disconnected" goroutines
    starts: nat,                 // start messages attempted
    disconnects: nat, acks: nat, signals: nat)

  const INIT := State(true, Idle, Starting, 0, 0, 0, 0, 0)

  datatype Step =
    | Disconnect                 // the callback starts a goroutine and returns
    | Reconnect                  // the callback begins by offering an acknowledgement
    | Acknowledge                // a goroutine takes it and ends; the callback goes on to signal the loop
    | TakeSignal                 // the loop takes the signal and sends a start message
    | StartLoop                  // the loop sends its first start message
    | EndLoop                    // the loop takes a process signal

  predicate Enabled(s: State, step: Step) {
    match step
    case Disconnect => s.dispatcher == Idle && s.connected
    case Reconnect => s.dispatcher == Idle && !s.connected
    case Acknowledge => s.dispatcher == Acking && s.tickers > 0
    case TakeSignal => s.dispatcher == Signalling && s.loop == Looping
    case StartLoop => s.loop == Starting
    case EndLoop => s.loop == Looping
  }

  function Apply(s: State, step: Step): State
    requires Enabled(s, step)
  {
    match step
    case Disconnect => s.(connected := false, tickers := s.tickers + 1, disconnects := s.disconnects + 1)
    case Reconnect => s.(connected := true, dispatcher := Acking)
    case Acknowledge => s.(dispatcher := Signalling, tickers := s.tickers - 1, acks := s.acks + 1)
    case TakeSignal => s.(dispatcher := Idle, starts := s.starts + 1, signals := s.signals + 1)
    case StartLoop => s.(loop := Looping, starts := s.starts + 1)
    case EndLoop => s.(loop := Returned)
  }

  /** The state after a run from `s`, if every step of it was enabled. */
  function Exec(s: State, steps: seq<Step>): Option<State> {
    if steps == [] then Some(s)
    else
      match Exec(s, steps[..|steps| - 1])
      case None => None
      case Some(t) => if Enabled(t, steps[|steps| - 1]) then Some(Apply(t, steps[|steps| - 1])) else None
  }

  ghost predicate Inv(s: State) {
    && s.tickers == (if s.dispatcher == Acking || (s.dispatcher == Idle && !s.connected) then 1 else 0)
    && s.tickers == s.disconnects - s.acks
    && s.acks == s.signals + (if s.dispatcher == Signalling then 1 else 0)
    && s.starts == s.signals + (if s.loop == Starting then 0 else 1)
    && (s.dispatcher != Idle ==> s.connected)
  }

  lemma {:induction false} RunsKeepInv(steps: seq<Step>)
    requires Exec(INIT, steps).Some?
    ensures Inv(Exec(INIT, steps).value)
  {
    if steps != [] {
      RunsKeepInv(steps[..|steps| - 1]);
    }
  }

  /** Some run leads to `s`. */
  ghost predicate Reachable(s: State) {
    exists steps :: Exec(INIT, steps) == Some(s)
  }

  lemma ReachableInv(s: State)
    requires Reachable(s)
    ensures Inv(s)
  {
    var steps :| Exec(INIT, steps) == Some(s);
    RunsKeepInv(steps);
  }

  /**
   * In every run there is never more than one reporting goroutine, one per disconnection not yet
   * acknowledged, and the loop has announced itself once plus once for each signal it took.
   */
  lemma GoroutinesAndStarts(s: State)
    requires Reachable(s)
    ensures 0 <= s.tickers == s.disconnects - s.acks <= 1
    ensures s.signals <= s.acks <= s.signals + 1
    ensures s.starts == s.signals + (if s.loop == Starting then 0 else 1)
  {
    ReachableInv(s);
  }

  /** The callback now running can still end. */
  ghost predicate CanReturn(s: State) {
    exists more :: Exec(s, more).Some? && Exec(s, more).value.dispatcher == Idle
  }

  lemma {:induction false} StuckForGood(s: State, more: seq<Step>)
    requires s.dispatcher != Idle && s.loop == Returned && Exec(s, more).Some?
    ensures Exec(s, more).value.dispatcher != Idle && Exec(s, more).value.loop == Returned
  {
    if more != [] {
      StuckForGood(s, more[..|more| - 1]);
    }
  }

  lemma ExecAppend(s: State, steps: seq<Step>, step: Step)
    requires Exec(s, steps).Some? && Enabled(Exec(s, steps).value, step)
    ensures Exec(s, steps + [step]) == Some(Apply(Exec(s, steps).value, step))
  {
    assert (steps + [step])[..|steps|] == steps;
  }

  /** Steps the callback has yet to see before it returns, one of them possibly the loop's start. */
  function ToReturn(s: State): nat {
    match s.dispatcher
    case Idle => 0
    case Signalling => if s.loop == Starting then 2 else 1
    case Acking => if s.loop == Starting then 3 else 2
  }

  lemma Returns(s: State, steps: seq<Step>) returns (more: seq<Step>)
    requires Exec(s, steps).Some? && Inv(Exec(s, steps).value) && Exec(s, steps).value.loop != Returned
    ensures Exec(s, more).Some? && Exec(s, more).value.dispatcher == Idle
    decreases ToReturn(Exec(s, steps).value)
  {
    var t := Exec(s, steps).value;
    if t.dispatcher == Idle {
      return steps;
    }
    var step := if t.dispatcher == Acking then Acknowledge else if t.loop == Starting then StartLoop else TakeSignal;
    ExecAppend(s, steps, step);
    more := Returns(s, steps + [step]);
  }

  /** A running callback can end exactly as long as the loop has not returned: after that it hangs for good. */
  lemma CallbackCanReturnIff(s: State)
    requires Reachable(s) && !s.dispatcher.Idle?
    ensures CanReturn(s) <==> s.loop != Returned
  {
    ReachableInv(s);
    if s.loop != Returned {
      var more := Returns(s, []);
    } else if CanReturn(s) {
      var more :| Exec(s, more).Some? && Exec(s, more).value.dispatcher == Idle;
      StuckForGood(s, more);
    }
  }

  /**
   * A blocked callback waits for at most three steps: every run that does not take the signal it ends with,
   * and in which the loop does not return, is exactly as long as the callback has come nearer to its end.
   */
  lemma {:induction false} BlockedRunsAreShort(s: State, more: seq<Step>)
    requires s.dispatcher != Idle && Exec(s, more).Some? && TakeSignal !in more
    requires Exec(s, more).value.loop != Returned
    ensures Exec(s, more).value.dispatcher != Idle
    ensures |more| + ToReturn(Exec(s, more).value) == ToReturn(s) <= 3
  {
    if more != [] {
      var n := |more| - 1;
      assert more[n] in more;
      BlockedRunsAreShort(s, more[..n]);
    }
  }

  /** While the loop runs, the blocked callback's next step is enabled in every reachable state. */
  lemma NoCallbackWaitsForNothing(s: State)
    requires Reachable(s) && s.loop.Looping?
    ensures s.dispatcher == Acking ==> Enabled(s, Acknowledge)
    ensures s.dispatcher == Signalling ==> Enabled(s, TakeSignal)
  {
    ReachableInv(s);
  }
}
