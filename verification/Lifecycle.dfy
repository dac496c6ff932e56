/**
 * Start-up and shutdown: a one-slot signal channel with two readers, the route fetcher and the shutdown
 * goroutine, and the health writes they race with.
 */
module Lifecycle {
  import opened Options
  import opened HealthChecks

  datatype Signal = Usr1 | Terminate

  datatype Fetcher = Starting | Looping | Returned

  datatype Shutdown = Waiting | Took(sig: Signal) | Cancelling | Cancelled

  datatype Main = AwaitingReady | SettingHealthy | AwaitingDone | ShuttingDown

  datatype State = State(
    slot: Option<Signal>, fetcher: Fetcher, shutdown: Shutdown, main: Main, health: Status,
    delivered: nat,              // signals that entered the channel
    byFetcher: nat, byShutdown: nat)

  const INIT := State(None, Starting, Waiting, AwaitingReady, Initializing, 0, 0, 0)

  datatype Step =
    | Notify(sig: Signal)        // the runtime delivers a signal, or drops it if the slot is taken
    | FetcherStarts              // subscribed; closes the ready channel
    | FetcherTakes | ShutdownTakes
    | ShutdownReacts             // marks the process degraded on USR1
    | Cancel
    | MainSeesReady | MainSetsHealthy | MainSeesDone

  predicate Enabled(s: State, step: Step) {
    match step
    case Notify(_) => true
    case FetcherStarts => s.fetcher == Starting
    case FetcherTakes => s.fetcher == Looping && s.slot.Some?
    case ShutdownTakes => s.shutdown == Waiting && s.slot.Some?
    case ShutdownReacts => s.shutdown.Took?
    case Cancel => s.shutdown == Cancelling
    case MainSeesReady => s.main == AwaitingReady && s.fetcher != Starting
    case MainSetsHealthy => s.main == SettingHealthy
    case MainSeesDone => s.main == AwaitingDone && s.shutdown == Cancelled
  }

  function Apply(s: State, step: Step): State
    requires Enabled(s, step)
  {
    match step
    case Notify(sig) => if s.slot.Some? then s else s.(slot := Some(sig), delivered := s.delivered + 1)
    case FetcherStarts => s.(fetcher := Looping)
    case FetcherTakes => s.(fetcher := Returned, slot := None, byFetcher := s.byFetcher + 1)
    case ShutdownTakes => s.(shutdown := Took(s.slot.value), slot := None, byShutdown := s.byShutdown + 1)
    case ShutdownReacts =>
      s.(shutdown := Cancelling, health := if s.shutdown.sig == Usr1 then Settle(s.health, Degraded) else s.health)
    case Cancel => s.(shutdown := Cancelled)
    case MainSeesReady => s.(main := SettingHealthy)
    case MainSetsHealthy => s.(main := AwaitingDone, health := Settle(s.health, Healthy))
    case MainSeesDone => s.(main := ShuttingDown)
  }

  function Exec(s: State, steps: seq<Step>): Option<State> {
    if steps == [] then Some(s)
    else
      match Exec(s, steps[..|steps| - 1])
      case None => None
      case Some(t) => if Enabled(t, steps[|steps| - 1]) then Some(Apply(t, steps[|steps| - 1])) else None
  }

  ghost predicate Inv(s: State) {
    && s.delivered == s.byFetcher + s.byShutdown + (if s.slot.Some? then 1 else 0)
    && s.byFetcher == (if s.fetcher == Returned then 1 else 0)
    && s.byShutdown == (if s.shutdown == Waiting then 0 else 1)
    && (s.main != AwaitingReady ==> s.fetcher != Starting)
    && (s.main == ShuttingDown ==> s.shutdown == Cancelled)
    && (s.health == Healthy ==> s.main == AwaitingDone || s.main == ShuttingDown)
    && (s.health == Degraded ==> s.shutdown == Cancelling || s.shutdown == Cancelled)
  }

  /**
   * In every run each delivered signal is consumed by exactly one of the two readers or is still in the slot,
   * and each reader consumes at most one.
   */
  lemma {:induction false} RunsKeepInv(steps: seq<Step>)
    requires Exec(INIT, steps).Some?
    ensures Inv(Exec(INIT, steps).value)
  {
    if steps != [] {
      RunsKeepInv(steps[..|steps| - 1]);
    }
  }

  lemma {:induction false} ExecJoins(s: State, steps: seq<Step>, more: seq<Step>)
    requires Exec(s, steps).Some?
    ensures Exec(s, steps + more) == Exec(Exec(s, steps).value, more)
  {
    if more == [] {
      assert steps + more == steps;
    } else {
      var n := |more| - 1;
      ExecJoins(s, steps, more[..n]);
      assert (steps + more)[..|steps| + n] == steps + more[..n];
    }
  }

  ghost predicate NoSignals(steps: seq<Step>) {
    forall step <- steps :: !step.Notify?
  }

  /** Without further signals a state can still lead to cancellation. */
  ghost predicate CanCancel(s: State) {
    exists more :: NoSignals(more) && Exec(s, more).Some? && Exec(s, more).value.shutdown == Cancelled
  }

  lemma {:induction false} LostForGood(s: State, more: seq<Step>)
    requires s.shutdown == Waiting && s.slot == None && NoSignals(more) && Exec(s, more).Some?
    ensures Exec(s, more).value.shutdown == Waiting && Exec(s, more).value.slot == None
  {
    if more != [] {
      assert more[|more| - 1] in more;
      LostForGood(s, more[..|more| - 1]);
    }
  }

  lemma ExecAppend(s: State, steps: seq<Step>, step: Step)
    requires Exec(s, steps).Some? && Enabled(Exec(s, steps).value, step)
    ensures Exec(s, steps + [step]) == Some(Apply(Exec(s, steps).value, step))
  {
    assert (steps + [step])[..|steps|] == steps;
  }

  /** The shutdown goroutine needs at most its own three steps. */
  lemma CancelsFrom(s: State) returns (more: seq<Step>)
    requires s.shutdown != Waiting || s.slot.Some?
    ensures NoSignals(more) && Exec(s, more).Some? && Exec(s, more).value.shutdown == Cancelled
    ensures |more| == match s.shutdown case Waiting => 3 case Took(_) => 2 case Cancelling => 1 case Cancelled => 0
    decreases match s.shutdown case Waiting => 3 case Took(_) => 2 case Cancelling => 1 case Cancelled => 0
  {
    if s.shutdown == Cancelled {
      return [];
    }
    var step := match s.shutdown case Waiting => ShutdownTakes case Took(_) => ShutdownReacts case _ => Cancel;
    ExecAppend(s, [], step);
    more := CancelsFrom(Apply(s, step));
    ExecJoins(s, [] + [step], more);
    more := [] + [step] + more;
  }

  /** Cancellation can still happen exactly when the shutdown goroutine has a signal or can take one. */
  lemma CanCancelIff(s: State)
    ensures CanCancel(s) <==> s.shutdown != Waiting || s.slot.Some?
  {
    if s.shutdown != Waiting || s.slot.Some? {
      var more := CancelsFrom(s);
    } else if CanCancel(s) {
      var more :| NoSignals(more) && Exec(s, more).Some? && Exec(s, more).value.shutdown == Cancelled;
      LostForGood(s, more);
    }
  }

  // ---- when cancellation is certain ----

  /** The program can do nothing more unless another signal comes. */
  ghost predicate Stuck(s: State) {
    forall step :: Enabled(s, step) ==> step.Notify?
  }

  /** Without further signals, however the goroutines take their turns, the run ends in cancellation. */
  ghost predicate MustCancel(s: State) {
    forall more :: NoSignals(more) && Exec(s, more).Some? && Stuck(Exec(s, more).value) ==>
      Exec(s, more).value.shutdown == Cancelled
  }

  /** The number of steps the program itself still takes at most. */
  function Remaining(s: State): nat {
    (match s.fetcher case Starting => 2 case Looping => 1 case Returned => 0)
    + (match s.shutdown case Waiting => 3 case Took(_) => 2 case Cancelling => 1 case Cancelled => 0)
    + (match s.main case AwaitingReady => 3 case SettingHealthy => 2 case AwaitingDone => 1 case ShuttingDown => 0)
  }

  /** The steps that are not signals. */
  function Moves(steps: seq<Step>): nat {
    if steps == [] then 0 else Moves(steps[..|steps| - 1]) + if steps[|steps| - 1].Notify? then 0 else 1
  }

  lemma StepCountsDown(s: State, step: Step)
    requires Enabled(s, step)
    ensures Remaining(Apply(s, step)) == Remaining(s) - if step.Notify? then 0 else 1
  {
  }

  /** Every run, whatever signals arrive, takes at most the remaining steps, at most eight from the start. */
  lemma {:induction false} RunsAreShort(s: State, more: seq<Step>)
    requires Exec(s, more).Some?
    ensures Moves(more) + Remaining(Exec(s, more).value) == Remaining(s) <= 8
    ensures NoSignals(more) ==> Moves(more) == |more|
  {
    if more == [] {
      assert Remaining(s) <= 8;
    } else {
      var n := |more| - 1;
      hide Remaining, Enabled, Apply;
      RunsAreShort(s, more[..n]);
      StepCountsDown(Exec(s, more[..n]).value, more[n]);
      assert more[n] in more;
    }
  }

  /** Left alone, every state reaches one in which the program is stuck. */
  lemma {:induction false} RunsToStuck(s: State, steps: seq<Step>) returns (more: seq<Step>)
    requires NoSignals(steps) && Exec(s, steps).Some?
    ensures NoSignals(more) && Exec(s, more).Some? && Stuck(Exec(s, more).value)
    ensures steps <= more
    decreases Remaining(Exec(s, steps).value)
  {
    var t := Exec(s, steps).value;
    if Stuck(t) {
      return steps;
    }
    var step :| Enabled(t, step) && !step.Notify?;
    ExecAppend(s, steps, step);
    StepCountsDown(t, step);
    more := RunsToStuck(s, steps + [step]);
  }

  /** The shutdown goroutine has a signal, or one that the fetcher can no longer take. */
  predicate Certain(s: State) {
    s.shutdown != Waiting || (s.slot.Some? && s.fetcher == Returned)
  }

  /** Nothing that happens, signals included, takes the certainty away. */
  lemma {:induction false} StaysCertain(s: State, more: seq<Step>)
    requires Certain(s) && Exec(s, more).Some?
    ensures Certain(Exec(s, more).value)
  {
    if more != [] {
      StaysCertain(s, more[..|more| - 1]);
    }
  }

  lemma StuckAndCertain(s: State)
    requires Stuck(s) && Certain(s)
    ensures s.shutdown == Cancelled
  {
    assert !Enabled(s, ShutdownTakes) && !Enabled(s, ShutdownReacts) && !Enabled(s, Cancel);
  }

  /** The fetcher may take the signal in the slot. */
  lemma FetcherMayTake(s: State) returns (steps: seq<Step>)
    requires !Certain(s)
    ensures NoSignals(steps) && Exec(s, steps).Some?
    ensures Exec(s, steps).value.shutdown == Waiting && Exec(s, steps).value.slot == None
  {
    hide Exec;
    assert Exec(s, []) == Some(s) by { NoSteps(s); }
    steps := [];
    if s.slot == None {
      return;
    }
    if s.fetcher == Starting {
      ExecAppend(s, steps, FetcherStarts);
      steps := steps + [FetcherStarts];
    }
    ExecAppend(s, steps, FetcherTakes);
    steps := steps + [FetcherTakes];
  }

  lemma NoSteps(s: State)
    ensures Exec(s, []) == Some(s)
  {
  }

  /**
   * Cancellation is certain exactly when the shutdown goroutine has a signal or the fetcher, having taken one
   * already, must leave it the one in the slot.
   */
  lemma MustCancelIff(s: State)
    ensures MustCancel(s) <==> Certain(s)
  {
    hide Stuck;
    if Certain(s) {
      forall more | NoSignals(more) && Exec(s, more).Some? && Stuck(Exec(s, more).value)
        ensures Exec(s, more).value.shutdown == Cancelled
      {
        StaysCertain(s, more);
        StuckAndCertain(Exec(s, more).value);
      }
    } else {
      var steps := FetcherMayTake(s);
      var t := Exec(s, steps).value;
      var more := RunsToStuck(t, []);
      LostForGood(t, more);
      ExecJoins(s, steps, more);
      assert NoSignals(steps + more);
    }
  }

  /**
   * After two delivered signals every run ends in cancellation. After one it does exactly if the shutdown
   * goroutine got it, and after none it does not.
   */
  lemma SignalsShutTheServerDown(steps: seq<Step>)
    requires Exec(INIT, steps).Some?
    ensures var s := Exec(INIT, steps).value;
            && (s.delivered >= 2 ==> MustCancel(s))
            && (s.delivered == 1 ==> (MustCancel(s) <==> s.shutdown != Waiting))
            && (s.delivered == 0 ==> !MustCancel(s))
            && (s.delivered == 1 ==> (CanCancel(s) <==> s.fetcher != Returned))
  {
    hide MustCancel, CanCancel;
    RunsKeepInv(steps);
    MustCancelIff(Exec(INIT, steps).value);
    CanCancelIff(Exec(INIT, steps).value);
  }

  /** A single signal may be lost: the fetcher takes it and the server keeps running until another one comes. */
  lemma OneSignalMayBeLost(sig: Signal)
    ensures var steps := [] + [FetcherStarts] + [Notify(sig)] + [FetcherTakes];
            Exec(INIT, steps).Some? && Exec(INIT, steps).value.delivered == 1 && !CanCancel(Exec(INIT, steps).value)
  {
    ExecAppend(INIT, [], FetcherStarts);
    ExecAppend(INIT, [] + [FetcherStarts], Notify(sig));
    ExecAppend(INIT, [] + [FetcherStarts] + [Notify(sig)], FetcherTakes);
    CanCancelIff(Exec(INIT, [] + [FetcherStarts] + [Notify(sig)] + [FetcherTakes]).value);
  }

  /** The shutdown goroutine reacted to a USR1 in this run. */
  ghost predicate ReactedToUsr1(steps: seq<Step>) {
    exists n :: 0 <= n < |steps| && steps[n] == ShutdownReacts &&
      Exec(INIT, steps[..n]).Some? && Exec(INIT, steps[..n]).value.shutdown == Took(Usr1)
  }

  /**
   * The health after any run: degraded if the shutdown goroutine reacted to a USR1, before or after readiness,
   * otherwise healthy once main has said so, otherwise still initializing; and 200 is served in between only.
   */
  lemma {:induction false} HealthOfRun(steps: seq<Step>)
    requires Exec(INIT, steps).Some?
    ensures var health := Exec(INIT, steps).value.health;
            && health == (if ReactedToUsr1(steps) then Degraded
                          else if MainSetsHealthy in steps then Healthy else Initializing)
            && (StatusCode(health) == 200 <==> MainSetsHealthy in steps && !ReactedToUsr1(steps))
  {
    if steps != [] {
      var n := |steps| - 1;
      var before := steps[..n];
      HealthOfRun(before);
      ReactedSoFar(steps);
      assert steps == before + [steps[n]];
    }
  }

  lemma ReactedSoFar(steps: seq<Step>)
    requires steps != [] && Exec(INIT, steps).Some?
    ensures var n := |steps| - 1;
            ReactedToUsr1(steps) <==>
              || ReactedToUsr1(steps[..n])
              || (steps[n] == ShutdownReacts && Exec(INIT, steps[..n]).value.shutdown == Took(Usr1))
  {
    hide Exec;
    var n := |steps| - 1;
    var before := steps[..n];
    assert Exec(INIT, before).Some? by { ExecOfPrefix(steps); }
    forall i | 0 <= i < n
      ensures steps[..i] == before[..i] && steps[i] == before[i]
    {
    }
    if ReactedToUsr1(before) {
      var i :| 0 <= i < n && before[i] == ShutdownReacts && Exec(INIT, before[..i]).Some? &&
               Exec(INIT, before[..i]).value.shutdown == Took(Usr1);
      assert steps[..i] == before[..i];
    }
  }

  lemma ExecOfPrefix(steps: seq<Step>)
    requires steps != [] && Exec(INIT, steps).Some?
    ensures Exec(INIT, steps[..|steps| - 1]).Some?
  {
  }

  /** Once degraded, always degraded, so never again a 200, whenever readiness is reported. */
  lemma {:induction false} DegradedForGood(s: State, more: seq<Step>)
    requires s.health == Degraded && Exec(s, more).Some?
    ensures Exec(s, more).value.health == Degraded && StatusCode(Exec(s, more).value.health) == 503
  {
    if more != [] {
      DegradedForGood(s, more[..|more| - 1]);
    }
  }

  /** A USR1 the shutdown goroutine has reacted to leaves the process degraded in every run. */
  lemma {:induction false} Usr1Degrades(steps: seq<Step>, more: seq<Step>)
    requires Exec(INIT, steps).Some? && Exec(INIT, steps).value.shutdown == Took(Usr1)
    requires Exec(INIT, steps + more).Some? && Exec(INIT, steps + more).value.shutdown in {Cancelling, Cancelled}
    ensures Exec(INIT, steps + more).value.health == Degraded
  {
    var s := Exec(INIT, steps).value;
    ExecJoins(INIT, steps, more);
    ReactsToUsr1(s, more);
  }

  lemma {:induction false} ReactsToUsr1(s: State, more: seq<Step>)
    requires s.shutdown == Took(Usr1) && Exec(s, more).Some?
    ensures var t := Exec(s, more).value;
            t.shutdown == Took(Usr1) || (t.shutdown in {Cancelling, Cancelled} && t.health == Degraded)
  {
    if more != [] {
      ReactsToUsr1(s, more[..|more| - 1]);
    }
  }
}
