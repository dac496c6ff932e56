/** What holds in every schedule of the worker pool. */
module WorkerPoolProofs {
  import opened Options
  import opened RouteModel
  import opened WorkerPool

  /** How many jobs have left the channel. */
  ghost function Received(s: State): int {
    s.sent - |s.queue|
  }

  predicate Holds(w: Worker, j: nat) {
    match w.pc
    case Fetching(job) => job == j
    case Recording(scrape) => scrape.job == j
    case Acking(job) => job == j
    case _ => false
  }

  ghost function JobsOf(scrapes: seq<Scrape>): set<nat> {
    set scrape <- scrapes :: scrape.job
  }

  ghost predicate DistinctJobs(scrapes: seq<Scrape>) {
    forall i, k :: 0 <= i < k < |scrapes| ==> scrapes[i].job != scrapes[k].job
  }

  /** The channel holds the jobs last sent, in order, within its capacity. */
  ghost predicate Flow(c: Config, s: State) {
    && |s.workers| == WORKERS
    && |s.queue| <= s.sent <= |c.jobs|
    && |s.queue| <= c.found
    && forall i :: 0 <= i < |s.queue| ==> s.queue[i] == Received(s) + i
  }

  /** Jobs in hand are received and not finished. */
  ghost predicate HeldAreOpen(s: State) {
    forall w: nat, j: nat {:trigger Holds(s.workers[w], j)} ::
      w < |s.workers| && Holds(s.workers[w], j) ==> j < Received(s) && j !in s.finished
  }

  ghost predicate HeldOnce(s: State) {
    forall v: nat, w: nat, j: nat :: v < w < |s.workers| && Holds(s.workers[v], j) ==> !Holds(s.workers[w], j)
  }

  ghost predicate FinishedAreReceived(s: State) {
    forall j <- s.finished :: j < Received(s)
  }

  ghost predicate NoneIsLost(s: State) {
    forall j: nat :: j < Received(s) && j !in s.finished ==>
      exists w: nat :: w < |s.workers| && Holds(s.workers[w], j)
  }

  /** Each received job is finished or in the hands of exactly one worker. */
  ghost predicate Custody(c: Config, s: State) {
    HeldAreOpen(s) && HeldOnce(s) && FinishedAreReceived(s) && NoneIsLost(s)
  }

  /** The wait group counts the unfinished jobs; the channel is closed only when there is none. */
  ghost predicate Counting(c: Config, s: State) {
    && s.wg == |c.jobs| - |s.finished|
    && (s.closed ==> s.sent == |c.jobs| && s.wg == 0)
    && (forall w :: 0 <= w < |s.workers| && s.workers[w].pc.Exited? ==> s.closed && s.queue == [])
  }

  /** No job is scraped twice, and every job past that point was scraped. */
  ghost predicate ScrapedOnce(s: State) {
    && DistinctJobs(s.scrapes)
    && (forall scrape <- s.scrapes :: scrape.job < Received(s))
    && (forall w :: 0 <= w < |s.workers| && s.workers[w].pc.Fetching? ==> s.workers[w].pc.job !in JobsOf(s.scrapes))
    && (forall w :: 0 <= w < |s.workers| && s.workers[w].pc.Recording? ==> s.workers[w].pc.scrape in s.scrapes)
    && (forall w :: 0 <= w < |s.workers| && s.workers[w].pc.Acking? ==> s.workers[w].pc.job in JobsOf(s.scrapes))
  }

  /** What the workers' progress says about the record. */
  ghost predicate RecordedInStep(s: State) {
    && (forall w :: 0 <= w < |s.workers| && s.workers[w].pc.Fetching? ==>
          s.workers[w].pc.job !in JobsOf(s.recorded))
    && (forall w :: 0 <= w < |s.workers| && s.workers[w].pc.Recording? ==>
          s.workers[w].pc.scrape.job !in JobsOf(s.recorded))
    && (forall w :: 0 <= w < |s.workers| && s.workers[w].pc.Acking? ==> s.workers[w].pc.job in JobsOf(s.recorded))
    && (forall j <- s.finished :: j in JobsOf(s.recorded))
  }

  /** No outcome is recorded twice, and every job past that point was recorded as scraped. */
  ghost predicate RecordedOnce(s: State) {
    && DistinctJobs(s.recorded)
    && (forall scrape <- s.recorded :: scrape in s.scrapes)
    && RecordedInStep(s)
  }

  /** Results and error cell are those of recording the same scrapes one after the other. */
  ghost predicate AsIfSequential(c: Config, s: State) {
    s.results == SequentialResults(c, s.recorded) && s.err == SequentialError(c, s.recorded)
  }

  /** Headers are the caller's or nil, and nil for exporters. */
  ghost predicate HeadersKnown(c: Config, s: State) {
    && (forall w :: 0 <= w < |s.workers| ==> s.workers[w].headers == None || s.workers[w].headers == c.headers)
    && (forall scrape <- s.scrapes :: scrape.headers == None || scrape.headers == c.headers)
    && (forall scrape <- s.scrapes ::
          scrape.job < |c.jobs| && IsExporter(c.jobs[scrape.job]) ==> scrape.headers == None)
  }

  /** A worker that has dropped its headers will only ever see jobs from the first exporter on. */
  ghost predicate HeadersKept(c: Config, s: State) {
    var n := FirstExporter(c.jobs);
    && (forall w :: 0 <= w < |s.workers| && s.workers[w].headers != c.headers ==>
          Received(s) > n && (s.workers[w].pc.Fetching? ==> s.workers[w].pc.job >= n))
    && (forall scrape <- s.scrapes :: scrape.job < n ==> scrape.headers == c.headers)
  }

  ghost predicate Inv(c: Config, s: State) {
    && Flow(c, s) && Custody(c, s) && Counting(c, s)
    && ScrapedOnce(s) && RecordedOnce(s) && AsIfSequential(c, s)
    && HeadersKnown(c, s) && HeadersKept(c, s)
  }

  // ---- every step keeps the invariant ----

  lemma StepKeepsFlow(c: Config, s: State, step: Step)
    requires Flow(c, s) && Enabled(c, s, step)
    ensures Flow(c, Apply(c, s, step))
    ensures Received(Apply(c, s, step)) == Received(s) + if step.Receive? then 1 else 0
  {
  }

  lemma StepKeepsHeldAreOpen(c: Config, s: State, step: Step)
    requires Flow(c, s) && HeldAreOpen(s) && HeldOnce(s) && FinishedAreReceived(s) && Enabled(c, s, step)
    ensures HeldAreOpen(Apply(c, s, step)) && FinishedAreReceived(Apply(c, s, step))
  {
    var t := Apply(c, s, step);
    StepKeepsFlow(c, s, step);
    assert step.Done? ==> Holds(s.workers[step.w], s.workers[step.w].pc.job);
    forall w: nat, j: nat {:trigger Holds(t.workers[w], j)} | w < |t.workers| && Holds(t.workers[w], j)
      ensures j < Received(t) && j !in t.finished
    {
      if !(step.Receive? && step.w == w) {
        assert Holds(s.workers[w], j);
        assert step.Done? ==> j != s.workers[step.w].pc.job;
      }
    }
  }

  lemma StepKeepsHeldOnce(c: Config, s: State, step: Step)
    requires Flow(c, s) && HeldAreOpen(s) && HeldOnce(s) && Enabled(c, s, step)
    ensures HeldOnce(Apply(c, s, step))
  {
    var t := Apply(c, s, step);
    forall v: nat, w: nat, j: nat | v < w < |t.workers| && Holds(t.workers[v], j)
      ensures !Holds(t.workers[w], j)
    {
      if step.Receive? && step.w == v {
        assert Holds(s.workers[w], j) ==> j < Received(s);
      } else {
        assert Holds(s.workers[v], j);
      }
    }
  }

  lemma StepKeepsNoneIsLost(c: Config, s: State, step: Step)
    requires Flow(c, s) && NoneIsLost(s) && Enabled(c, s, step)
    ensures NoneIsLost(Apply(c, s, step))
  {
    var t := Apply(c, s, step);
    StepKeepsFlow(c, s, step);
    forall j: nat | j < Received(t) && j !in t.finished
      ensures exists w: nat :: w < |t.workers| && Holds(t.workers[w], j)
    {
      if step.Receive? && j == Received(s) {
        assert Holds(t.workers[step.w], j);
      } else {
        var w: nat :| w < |s.workers| && Holds(s.workers[w], j);
        assert Holds(t.workers[w], j);
      }
    }
  }

  lemma StepKeepsCustody(c: Config, s: State, step: Step)
    requires Flow(c, s) && Custody(c, s) && Enabled(c, s, step)
    ensures Custody(c, Apply(c, s, step))
  {
    hide Apply, HeldAreOpen, HeldOnce, FinishedAreReceived, NoneIsLost;
    StepKeepsHeldAreOpen(c, s, step);
    StepKeepsHeldOnce(c, s, step);
    StepKeepsNoneIsLost(c, s, step);
  }

  lemma StepKeepsCounting(c: Config, s: State, step: Step)
    requires Flow(c, s) && Custody(c, s) && Counting(c, s) && Enabled(c, s, step)
    ensures Counting(c, Apply(c, s, step))
  {
    if step.Done? {
      assert Holds(s.workers[step.w], s.workers[step.w].pc.job);
      StepKeepsCustody(c, s, step);
      FinishedAtMostAll(c, Apply(c, s, step));
    }
  }

  lemma JobsOfAppend(scrapes: seq<Scrape>, scrape: Scrape)
    ensures JobsOf(scrapes + [scrape]) == JobsOf(scrapes) + {scrape.job}
    ensures DistinctJobs(scrapes) && scrape.job !in JobsOf(scrapes) ==> DistinctJobs(scrapes + [scrape])
  {
    var more := scrapes + [scrape];
    forall j <- JobsOf(scrapes) + {scrape.job}
      ensures j in JobsOf(more)
    {
      if j == scrape.job {
        assert more[|scrapes|] == scrape;
      } else {
        var i :| 0 <= i < |scrapes| && scrapes[i].job == j;
        assert more[i] == scrapes[i];
      }
    }
    if scrape.job !in JobsOf(scrapes) {
      assert forall i :: 0 <= i < |scrapes| ==> scrapes[i] in scrapes && scrapes[i].job in JobsOf(scrapes);
    }
  }

  /** Two different workers never hold the same job. */
  lemma ApartHands(c: Config, s: State, v: nat, w: nat, j: nat, k: nat)
    requires Flow(c, s) && Custody(c, s) && v < |s.workers| && w < |s.workers| && v != w
    requires Holds(s.workers[v], j) && Holds(s.workers[w], k)
    ensures j != k
  {
  }

  lemma FetchIsNew(c: Config, s: State, w: nat)
    requires Flow(c, s) && Custody(c, s) && Enabled(c, s, Fetch(w))
    ensures forall v :: 0 <= v < |s.workers| && v != w && s.workers[v].pc.Fetching? ==>
              s.workers[v].pc.job != s.workers[w].pc.job
    ensures s.workers[w].pc.job < Received(s)
  {
    var job := s.workers[w].pc.job;
    assert Holds(s.workers[w], job);
    assert job < Received(s);
    forall v | 0 <= v < |s.workers| && v != w && s.workers[v].pc.Fetching?
      ensures s.workers[v].pc.job != job
    {
      ApartHands(c, s, v, w, s.workers[v].pc.job, job);
    }
  }

  lemma StepKeepsScrapedOnce(c: Config, s: State, step: Step)
    requires Flow(c, s) && Custody(c, s) && ScrapedOnce(s) && Enabled(c, s, step)
    ensures ScrapedOnce(Apply(c, s, step))
  {
    var t := Apply(c, s, step);
    StepKeepsFlow(c, s, step);
    hide Flow, Custody, JobsOf, DistinctJobs;
    match step
    case Fetch(w) =>
      FetchIsNew(c, s, w);
      JobsOfAppend(s.scrapes, t.scrapes[|s.scrapes|]);
      assert t.workers[w].pc.scrape in t.scrapes;
    case Receive(w) =>
      ReceivesFresh(c, s);
    case Record(w) =>
      assert s.workers[w].pc.scrape in s.scrapes;
      InJobsOf(s.scrapes, s.workers[w].pc.scrape);
    case _ =>
  }

  lemma InJobsOf(scrapes: seq<Scrape>, scrape: Scrape)
    requires scrape in scrapes
    ensures scrape.job in JobsOf(scrapes)
  {
  }

  /** The next job to leave the channel has not been scraped, recorded or finished. */
  lemma ReceivesFresh(c: Config, s: State)
    requires Flow(c, s) && Custody(c, s) && ScrapedOnce(s) && s.queue != []
    ensures s.queue[0] == Received(s) && s.queue[0] !in JobsOf(s.scrapes)
  {
  }

  lemma RecordIsNew(c: Config, s: State, w: nat)
    requires Flow(c, s) && Custody(c, s) && Enabled(c, s, Record(w))
    ensures forall v :: 0 <= v < |s.workers| && v != w && s.workers[v].pc.Fetching? ==>
              s.workers[v].pc.job != s.workers[w].pc.scrape.job
    ensures forall v :: 0 <= v < |s.workers| && v != w && s.workers[v].pc.Recording? ==>
              s.workers[v].pc.scrape.job != s.workers[w].pc.scrape.job
  {
    var job := s.workers[w].pc.scrape.job;
    assert Holds(s.workers[w], job);
    forall v | 0 <= v < |s.workers| && v != w && s.workers[v].pc.Fetching?
      ensures s.workers[v].pc.job != job
    {
      ApartHands(c, s, v, w, s.workers[v].pc.job, job);
    }
    forall v | 0 <= v < |s.workers| && v != w && s.workers[v].pc.Recording?
      ensures s.workers[v].pc.scrape.job != job
    {
      ApartHands(c, s, v, w, s.workers[v].pc.scrape.job, job);
    }
  }

  lemma RecordedWereScraped(s: State)
    requires RecordedOnce(s)
    ensures JobsOf(s.recorded) <= JobsOf(s.scrapes)
  {
  }

  lemma RecordKeepsRecordedInStep(c: Config, s: State, w: nat)
    requires Flow(c, s) && Custody(c, s) && Enabled(c, s, Record(w)) && RecordedInStep(s)
    ensures RecordedInStep(Apply(c, s, Record(w)))
  {
    RecordIsNew(c, s, w);
    JobsOfAppend(s.recorded, s.workers[w].pc.scrape);
    hide Flow, Custody, JobsOf, Fatal, FamiliesOf;
  }

  lemma StepKeepsRecordedInStep(c: Config, s: State, step: Step)
    requires Flow(c, s) && Custody(c, s) && ScrapedOnce(s) && Enabled(c, s, step)
    requires RecordedInStep(s) && JobsOf(s.recorded) <= JobsOf(s.scrapes)
    ensures RecordedInStep(Apply(c, s, step))
  {
    if step.Record? {
      RecordKeepsRecordedInStep(c, s, step.w);
    } else {
      if step.Receive? {
        ReceivesFresh(c, s);
      }
      hide Flow, Custody, JobsOf, ScrapedOnce, HeadersFor;
    }
  }

  lemma StepKeepsRecordedOnce(c: Config, s: State, step: Step)
    requires Flow(c, s) && Custody(c, s) && ScrapedOnce(s) && RecordedOnce(s) && Enabled(c, s, step)
    ensures RecordedOnce(Apply(c, s, step))
  {
    RecordedWereScraped(s);
    StepKeepsRecordedInStep(c, s, step);
    hide Flow, Custody, JobsOf, DistinctJobs;
    if step.Record? {
      JobsOfAppend(s.recorded, s.workers[step.w].pc.scrape);
    }
  }

  lemma StepKeepsAsIfSequential(c: Config, s: State, step: Step)
    requires AsIfSequential(c, s) && Enabled(c, s, step)
    ensures AsIfSequential(c, Apply(c, s, step))
  {
    if step.Record? {
      assert Apply(c, s, step).recorded[..|s.recorded|] == s.recorded;
    }
  }

  lemma StepKeepsHeadersKnown(c: Config, s: State, step: Step)
    requires HeadersKnown(c, s) && Enabled(c, s, step)
    ensures HeadersKnown(c, Apply(c, s, step))
  {
    hide Fatal, FamiliesOf;
  }

  lemma FetchKeepsHeaders(c: Config, s: State, w: nat)
    requires Flow(c, s) && Custody(c, s) && HeadersKept(c, s) && Enabled(c, s, Fetch(w))
    ensures HeadersKept(c, Apply(c, s, Fetch(w)))
  {
    FetchIsNew(c, s, w);
    hide Flow, Custody, FirstExporter;
    assert Received(Apply(c, s, Fetch(w))) == Received(s);
  }

  lemma StepKeepsHeadersKept(c: Config, s: State, step: Step)
    requires Flow(c, s) && Custody(c, s) && HeadersKept(c, s) && Enabled(c, s, step)
    ensures HeadersKept(c, Apply(c, s, step))
  {
    if step.Fetch? {
      FetchKeepsHeaders(c, s, step.w);
    } else {
      StepKeepsFlow(c, s, step);
      hide Custody, FirstExporter, Fatal, FamiliesOf;
    }
  }

  function Range(n: nat): (r: set<nat>)
    ensures forall j: nat :: j in r <==> j < n
  {
    if n == 0 then {} else Range(n - 1) + {n - 1}
  }

  lemma {:induction false} RangeSize(n: nat)
    ensures |Range(n)| == n
  {
    if n > 0 {
      RangeSize(n - 1);
    }
  }

  lemma SubsetSize<T>(a: set<T>, b: set<T>)
    requires a <= b
    ensures |a| <= |b| && (|a| == |b| ==> a == b)
  {
    assert b == a + (b - a);
  }

  lemma FinishedAtMostAll(c: Config, s: State)
    requires Flow(c, s) && Custody(c, s)
    ensures |s.finished| <= |c.jobs|
    ensures |s.finished| == |c.jobs| ==> s.finished == Range(|c.jobs|)
  {
    RangeSize(|c.jobs|);
    forall j <- s.finished
      ensures j in Range(|c.jobs|)
    {
      assert j < Received(s);
    }
    SubsetSize(s.finished, Range(|c.jobs|));
  }

  lemma InitInv(c: Config)
    requires WellFormed(c)
    ensures Inv(c, Init(c))
  {
  }

  /** Safety: every state of every schedule satisfies the invariant. */
  lemma {:induction false} SchedulesKeepInv(c: Config, steps: seq<Step>)
    requires WellFormed(c) && Exec(c, steps).Some?
    ensures Inv(c, Exec(c, steps).value)
  {
    if steps == [] {
      InitInv(c);
    } else {
      var s, step := Exec(c, steps[..|steps| - 1]).value, steps[|steps| - 1];
      SchedulesKeepInv(c, steps[..|steps| - 1]);
      hide Flow, Custody, Counting, ScrapedOnce, RecordedOnce, AsIfSequential, HeadersKnown, HeadersKept, Apply;
      StepKeepsFlow(c, s, step);
      StepKeepsCustody(c, s, step);
      StepKeepsCounting(c, s, step);
      StepKeepsScrapedOnce(c, s, step);
      StepKeepsRecordedOnce(c, s, step);
      StepKeepsAsIfSequential(c, s, step);
      StepKeepsHeadersKnown(c, s, step);
      StepKeepsHeadersKept(c, s, step);
    }
  }

  /**
   * The wait group never goes negative, nothing is left to send or acknowledge once the channel is closed,
   * and the channel is closed once.
   */
  lemma WaitGroupAndChannelAreUsedRight(c: Config, steps: seq<Step>, step: Step)
    requires WellFormed(c) && Exec(c, steps).Some? && Enabled(c, Exec(c, steps).value, step)
    ensures var s := Exec(c, steps).value;
            && 0 <= s.wg <= |c.jobs|
            && (step.Done? ==> s.wg > 0)
            && (s.closed ==> !step.Send? && !step.Close? && !step.Fetch? && !step.Record? && !step.Done?)
  {
    var s := Exec(c, steps).value;
    SchedulesKeepInv(c, steps);
    FinishedAtMostAll(c, s);
    if step.Done? || step.Fetch? || step.Record? {
      var j := match step case Done(w) => s.workers[w].pc.job
                          case Fetch(w) => s.workers[w].pc.job
                          case Record(w) => s.workers[w].pc.scrape.job;
      assert Holds(s.workers[step.w], j);
    }
  }

  // ---- liveness ----

  /** In every reachable state that is not final some step is enabled, however small the channel. */
  lemma NoDeadlock(c: Config, s: State) returns (step: Step)
    requires WellFormed(c) && Inv(c, s) && !Final(s)
    ensures Enabled(c, s, step)
  {
    if w: nat :| w < |s.workers| && !s.workers[w].pc.Receiving? && !s.workers[w].pc.Exited? {
      if s.workers[w].pc.Fetching? {
        return Fetch(w);
      } else if s.workers[w].pc.Recording? {
        return Record(w);
      } else {
        return Done(w);
      }
    }
    assert forall w: nat, j: nat {:trigger Holds(s.workers[w], j)} :: w < |s.workers| ==> !Holds(s.workers[w], j);
    if s.queue != [] {
      return Receive(0);
    } else if s.sent < |c.jobs| {
      return Send;
    }
    assert forall j: nat :: j < |c.jobs| ==> j in s.finished;
    FinishedAtMostAll(c, s);
    RangeSize(|c.jobs|);
    assert s.finished == Range(|c.jobs|);
    if !s.closed {
      return Close;
    }
    var w: nat :| w < |s.workers| && s.workers[w].pc.Receiving?;
    return Exit(w);
  }

  function Weight(w: Worker): nat {
    match w.pc
    case Receiving => 1
    case Fetching(_) => 4
    case Recording(_) => 3
    case Acking(_) => 2
    case Exited => 0
  }

  function Weights(ws: seq<Worker>): nat {
    if ws == [] then 0 else Weight(ws[0]) + Weights(ws[1..])
  }

  lemma {:induction false} WeightsUpdate(ws: seq<Worker>, i: nat, w: Worker)
    requires i < |ws|
    ensures Weights(ws[i := w]) == Weights(ws) - Weight(ws[i]) + Weight(w)
  {
    if i > 0 {
      WeightsUpdate(ws[1..], i - 1, w);
      assert ws[i := w][1..] == ws[1..][i - 1 := w];
    } else {
      assert ws[0 := w][1..] == ws[1..];
    }
  }

  /** The number of steps still to come. */
  function Remaining(c: Config, s: State): int {
    5 * (|c.jobs| - s.sent) + 4 * |s.queue| + Weights(s.workers) + if s.closed then 0 else 1
  }

  lemma StepCountsDown(c: Config, s: State, step: Step)
    requires Enabled(c, s, step)
    ensures Remaining(c, Apply(c, s, step)) == Remaining(c, s) - 1
  {
    if step.Receive? || step.Fetch? || step.Record? || step.Done? || step.Exit? {
      WeightsUpdate(s.workers, step.w, Apply(c, s, step).workers[step.w]);
    }
  }

  lemma {:induction false} EvenWeights(ws: seq<Worker>, weight: nat)
    requires forall w <- ws :: Weight(w) == weight
    ensures Weights(ws) == |ws| * weight
  {
    if ws != [] {
      EvenWeights(ws[1..], weight);
    }
  }

  /** Termination, with the exact count: whatever the schedule, steps taken and steps to come are 5n + 6. */
  lemma {:induction false} EveryScheduleCountsDown(c: Config, steps: seq<Step>)
    requires Exec(c, steps).Some?
    ensures |steps| + Remaining(c, Exec(c, steps).value) == 5 * |c.jobs| + 6
  {
    if steps == [] {
      EvenWeights(Init(c).workers, 1);
    } else {
      EveryScheduleCountsDown(c, steps[..|steps| - 1]);
      StepCountsDown(c, Exec(c, steps[..|steps| - 1]).value, steps[|steps| - 1]);
    }
  }

  /** A reachable state is final exactly when no step remains to be taken. */
  lemma FinalIsTheEnd(c: Config, s: State)
    requires WellFormed(c) && Inv(c, s)
    ensures Remaining(c, s) >= 0
    ensures Final(s) <==> Remaining(c, s) == 0
    ensures Final(s) ==> forall step :: !Enabled(c, s, step)
  {
    if Final(s) {
      EvenWeights(s.workers, 0);
      assert forall w: nat :: w < |s.workers| ==> s.workers[w] in s.workers;
    } else {
      var step := NoDeadlock(c, s);
      hide Custody, Counting, ScrapedOnce, RecordedOnce, AsIfSequential, HeadersKnown, HeadersKept;
      StepCountsDown(c, s, step);
      StepKeepsFlow(c, s, step);
      assert Apply(c, s, step).sent <= |c.jobs|;
    }
  }

  /** A schedule cannot go on exactly when all workers have left, which takes exactly 5n + 6 steps. */
  lemma CompleteSchedules(c: Config, steps: seq<Step>)
    requires WellFormed(c) && Exec(c, steps).Some?
    ensures (forall step :: !Enabled(c, Exec(c, steps).value, step)) <==> Final(Exec(c, steps).value)
    ensures Final(Exec(c, steps).value) <==> |steps| == 5 * |c.jobs| + 6
    ensures |steps| <= 5 * |c.jobs| + 6
  {
    hide Inv, Final, Enabled, Exec, Remaining;
    var s := Exec(c, steps).value;
    SchedulesKeepInv(c, steps);
    EveryScheduleCountsDown(c, steps);
    FinalIsTheEnd(c, s);
    if !Final(s) {
      var step := NoDeadlock(c, s);
    }
  }

  lemma ExecAppend(c: Config, steps: seq<Step>, step: Step)
    requires Exec(c, steps).Some? && Enabled(c, Exec(c, steps).value, step)
    ensures Exec(c, steps + [step]) == Some(Apply(c, Exec(c, steps).value, step))
  {
    assert (steps + [step])[..|steps|] == steps;
  }

  /** Every schedule can be completed. */
  lemma {:induction false} EveryScheduleCompletes(c: Config, steps: seq<Step>) returns (rest: seq<Step>)
    requires WellFormed(c) && Exec(c, steps).Some?
    ensures Exec(c, steps + rest).Some? && Final(Exec(c, steps + rest).value)
    decreases 5 * |c.jobs| + 6 - |steps|
  {
    hide Inv, Final, Enabled, Exec, Apply;
    var s := Exec(c, steps).value;
    CompleteSchedules(c, steps);
    if Final(s) {
      rest := [];
      assert steps + rest == steps;
    } else {
      SchedulesKeepInv(c, steps);
      var step := NoDeadlock(c, s);
      ExecAppend(c, steps, step);
      CompleteSchedules(c, steps + [step]);
      rest := EveryScheduleCompletes(c, steps + [step]);
      assert steps + ([step] + rest) == steps + [step] + rest;
      rest := [step] + rest;
    }
  }

  // ---- the outcome ----

  /** `order` lists each of the first `n` jobs once. */
  ghost predicate IsPermutation(order: seq<Scrape>, n: nat) {
    DistinctJobs(order) && JobsOf(order) == Range(n) && |order| == n
  }

  lemma {:induction false} DistinctSize(order: seq<Scrape>)
    requires DistinctJobs(order)
    ensures |JobsOf(order)| == |order|
  {
    if order == [] {
      assert JobsOf(order) == {};
    } else {
      var before := order[..|order| - 1];
      DistinctSize(before);
      JobsOfAppend(before, order[|order| - 1]);
      assert before + [order[|order| - 1]] == order;
    }
  }

  lemma AllAtTheClose(c: Config, s: State)
    requires Flow(c, s) && Custody(c, s) && Counting(c, s) && ScrapedOnce(s) && RecordedOnce(s) && s.closed
    ensures JobsOf(s.scrapes) == Range(|c.jobs|) == JobsOf(s.recorded)
  {
    FinishedAtMostAll(c, s);
    RecordedWereScraped(s);
    hide Custody;
    assert s.finished == Range(|c.jobs|);
    assert JobsOf(s.scrapes) <= Range(|c.jobs|);
  }

  /**
   * At the close, whatever the schedule: each route has been scraped exactly once and recorded exactly once,
   * and results and error cell are those of doing so one route after the other in completion order.
   */
  lemma EachRouteOnce(c: Config, steps: seq<Step>)
    requires WellFormed(c) && Exec(c, steps).Some? && Exec(c, steps).value.closed
    ensures var s := Exec(c, steps).value;
            && IsPermutation(s.scrapes, |c.jobs|)
            && IsPermutation(s.recorded, |c.jobs|)
            && (forall scrape <- s.recorded :: scrape in s.scrapes)
            && s.results == SequentialResults(c, s.recorded)
            && s.err == SequentialError(c, s.recorded)
  {
    var s := Exec(c, steps).value;
    SchedulesKeepInv(c, steps);
    AllAtTheClose(c, s);
    hide Exec, Flow, Custody, Counting, Range, JobsOf, SequentialResults, SequentialError;
    RangeSize(|c.jobs|);
    DistinctSize(s.scrapes);
    DistinctSize(s.recorded);
  }

  /**
   * Every found route is scraped with the caller's headers, although workers never restore theirs, exactly
   * when no found route is tagged as an exporter; exporters are always scraped without.
   */
  lemma CallersHeadersIff(c: Config, steps: seq<Step>)
    requires WellFormed(c) && Exec(c, steps).Some? && Exec(c, steps).value.closed && c.headers != None
    ensures (forall scrape <- Exec(c, steps).value.scrapes :: scrape.job < c.found ==> scrape.headers == c.headers)
            <==> Untagged(c)
    ensures forall scrape <- Exec(c, steps).value.scrapes :: scrape.job >= c.found ==> scrape.headers == None
  {
    var s := Exec(c, steps).value;
    SchedulesKeepInv(c, steps);
    EachRouteOnce(c, steps);
    forall scrape <- s.scrapes
      ensures scrape.job < |c.jobs|
    {
      assert scrape.job in JobsOf(s.scrapes);
    }
    if !Untagged(c) {
      var j: nat :| j < c.found && IsExporter(c.jobs[j]);
      assert j in JobsOf(s.scrapes);
      var scrape :| scrape in s.scrapes && scrape.job == j;
    }
  }

  // ---- one worker doing everything ----

  /** The headers a worker has left after the first `n` jobs. */
  function HeadersAfter(c: Config, n: nat): Headers {
    if n > FirstExporter(c.jobs) then None else c.headers
  }

  /** The first worker has done the first `n` jobs, the others none. */
  ghost predicate Alone(c: Config, s: State, n: nat) {
    && s.sent == n <= |c.jobs| && s.queue == [] && !s.closed && s.wg == |c.jobs| - n
    && |s.workers| == WORKERS && s.workers[0] == Worker(HeadersAfter(c, n), Receiving)
    && |s.recorded| == n && forall j :: 0 <= j < n ==> s.recorded[j] == Scrape(j, HeadersAfter(c, j + 1))
  }

  /** The five steps of the next job. */
  lemma NextJobAlone(c: Config, steps: seq<Step>, n: nat) returns (steps': seq<Step>)
    requires WellFormed(c) && Exec(c, steps).Some? && Alone(c, Exec(c, steps).value, n) && n < |c.jobs|
    ensures Exec(c, steps').Some? && Alone(c, Exec(c, steps').value, n + 1)
  {
    hide Exec, Fatal, FamiliesOf;
    ExecAppend(c, steps, Send);
    steps' := steps + [Send];
    ExecAppend(c, steps', Receive(0));
    steps' := steps' + [Receive(0)];
    ExecAppend(c, steps', Fetch(0));
    steps' := steps' + [Fetch(0)];
    ExecAppend(c, steps', Record(0));
    steps' := steps' + [Record(0)];
    ExecAppend(c, steps', Done(0));
    steps' := steps' + [Done(0)];
  }

  lemma {:induction false} AllJobsAlone(c: Config, n: nat) returns (steps: seq<Step>)
    requires WellFormed(c) && n <= |c.jobs|
    ensures Exec(c, steps).Some? && Alone(c, Exec(c, steps).value, n)
  {
    if n == 0 {
      steps := [];
    } else {
      steps := AllJobsAlone(c, n - 1);
      steps := NextJobAlone(c, steps, n - 1);
    }
  }

  /** A schedule in which the first worker does every job. */
  lemma OneWorker(c: Config) returns (steps: seq<Step>)
    requires WellFormed(c)
    ensures Exec(c, steps).Some? && Exec(c, steps).value.closed
    ensures |Exec(c, steps).value.recorded| == |c.jobs|
    ensures forall j :: 0 <= j < |c.jobs| ==> Exec(c, steps).value.recorded[j] == Scrape(j, HeadersAfter(c, j + 1))
  {
    hide Exec;
    steps := AllJobsAlone(c, |c.jobs|);
    ExecAppend(c, steps, Close);
    steps := steps + [Close];
  }
}
