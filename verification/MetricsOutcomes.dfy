/** What the worker pool of a call of Metrics answers, whatever the schedule. */
module MetricsOutcomes {
  import opened Options
  import opened RouteModel
  import opened Labels
  import opened WorkerPool
  import opened WorkerPoolProofs
  import opened Permutations
  import opened FamilyMerge

  /** The error, or else the list handed to the merge. */
  datatype Answer = Answer(err: Option<ErrFetch>, parts: seq<Families>)

  /** The end of Metrics, after the channel is closed. */
  function AnswerOf(s: State): Answer {
    if s.err.Some? && s.err.value.code != 0 then Answer(s.err, []) else Answer(None, s.results)
  }

  /** Each job once, in turn, each with the headers it is due. */
  function InTurn(c: Config): (due: seq<Scrape>)
    ensures |due| == |c.jobs|
  {
    seq(|c.jobs|, j requires 0 <= j < |c.jobs| => Scrape(j, HeadersFor(c, j, c.headers)))
  }

  /** Metrics as a sequential program: scrape each route, record each outcome. */
  function SequentialAnswer(c: Config): Answer {
    match SequentialError(c, InTurn(c))
    case Some(err) => Answer(Some(err), [])
    case None => Answer(None, SequentialResults(c, InTurn(c)))
  }

  // ---- recording in another order ----

  lemma {:induction false} ErrorIff(c: Config, order: seq<Scrape>)
    ensures SequentialError(c, order).Some? <==> exists scrape <- order :: Fatal(c, scrape)
    ensures SequentialError(c, order).Some? ==> exists scrape <- order ::
              Fatal(c, scrape) && c.scrape(scrape.job, scrape.headers).err == SequentialError(c, order).value
  {
    if order != [] {
      var before, last := order[..|order| - 1], order[|order| - 1];
      ErrorIff(c, before);
      assert order == before + [last] && last in order;
    }
  }

  /** The error cell ends with the last error recorded. */
  lemma {:induction false} LastErrorStays(c: Config, order: seq<Scrape>) returns (i: nat)
    requires SequentialError(c, order).Some?
    ensures i < |order| && Fatal(c, order[i])
    ensures c.scrape(order[i].job, order[i].headers).err == SequentialError(c, order).value
    ensures forall k :: i < k < |order| ==> !Fatal(c, order[k])
  {
    hide Fatal;
    var n := |order| - 1;
    if Fatal(c, order[n]) {
      i := n;
    } else {
      i := LastErrorStays(c, order[..n]);
    }
  }

  /** What one scrape adds to the results. */
  function Added(c: Config, scrape: Scrape): multiset<Families> {
    if Fatal(c, scrape) then multiset{} else multiset{FamiliesOf(c, scrape)}
  }

  lemma ResultsLast(c: Config, order: seq<Scrape>)
    requires order != []
    ensures multiset(SequentialResults(c, order)) ==
            multiset(SequentialResults(c, order[..|order| - 1])) + Added(c, order[|order| - 1])
  {
  }

  lemma {:induction false} ResultsWithout(c: Config, order: seq<Scrape>, i: nat)
    requires i < |order|
    ensures multiset(SequentialResults(c, order)) ==
            multiset(SequentialResults(c, Without(order, i))) + Added(c, order[i])
  {
    hide Added, SequentialResults, Without;
    var n, rest := |order| - 1, Without(order, i);
    ResultsLast(c, order);
    if i == n {
      assert rest == order[..n] by { WithoutLast(order); }
    } else {
      ResultsWithout(c, order[..n], i);
      WithoutKeepsLast(order, i);
      ResultsLast(c, rest);
    }
  }

  lemma {:induction false} ResultsIgnoreOrder(c: Config, order: seq<Scrape>, order': seq<Scrape>)
    requires multiset(order) == multiset(order')
    ensures multiset(SequentialResults(c, order)) == multiset(SequentialResults(c, order'))
  {
    hide Added, SequentialResults;
    SameElements(order, order');
    if order != [] {
      ResultsLast(c, order);
      var i := MatchLast(order, order');
      ResultsIgnoreOrder(c, order[..|order| - 1], Without(order', i));
      ResultsWithout(c, order', i);
    } else {
      assert order' == [];
    }
  }

  lemma {:induction false} ResultsCount(c: Config, order: seq<Scrape>)
    requires forall scrape <- order :: !Fatal(c, scrape)
    ensures |SequentialResults(c, order)| == |c.initial| + |order|
  {
    if order != [] {
      ResultsCount(c, order[..|order| - 1]);
      assert order[|order| - 1] in order;
    }
  }

  // ---- every schedule ----

  /** In a steady pool every scrape is made with the headers it is due. */
  lemma ScrapedAsDue(c: Config, s: State, scrape: Scrape)
    requires WellFormed(c) && Steady(c) && HeadersKnown(c, s) && HeadersKept(c, s)
    requires scrape in s.scrapes && scrape.job < |c.jobs|
    ensures scrape == InTurn(c)[scrape.job]
  {
  }

  /** Once all jobs are recorded, each as it is due, the record is a permutation of what is due. */
  lemma RecordOfTheDue(c: Config, recorded: seq<Scrape>)
    requires DistinctJobs(recorded) && JobsOf(recorded) == Range(|c.jobs|)
    requires forall scrape <- recorded :: scrape.job < |c.jobs| && scrape == InTurn(c)[scrape.job]
    ensures multiset(recorded) == multiset(InTurn(c))
  {
    var due := InTurn(c);
    forall scrape <- due
      ensures scrape in recorded
    {
      var j :| 0 <= j < |due| && due[j] == scrape;
      assert j in JobsOf(recorded);
    }
    DistinctPermutations(recorded, due);
  }

  lemma RecordedInSteadyPool(c: Config, steps: seq<Step>)
    requires WellFormed(c) && Steady(c) && Exec(c, steps).Some? && Exec(c, steps).value.closed
    ensures multiset(Exec(c, steps).value.recorded) == multiset(InTurn(c))
  {
    var s := Exec(c, steps).value;
    SchedulesKeepInv(c, steps);
    EachRouteOnce(c, steps);
    hide Exec, Flow, Custody, Counting, ScrapedOnce, RecordedOnce, AsIfSequential, HeadersKnown, HeadersKept, Steady;
    hide InTurn;
    forall scrape <- s.recorded
      ensures scrape.job < |c.jobs| && scrape == InTurn(c)[scrape.job]
    {
      assert scrape.job in JobsOf(s.recorded) && scrape in s.scrapes;
      ScrapedAsDue(c, s, scrape);
    }
    RecordOfTheDue(c, s.recorded);
  }

  /** Otherwise one worker doing everything drops headers that are due. */
  lemma LostHeaders(c: Config) returns (steps: seq<Step>)
    requires WellFormed(c) && !Steady(c)
    ensures Exec(c, steps).Some? && Exec(c, steps).value.closed
    ensures multiset(Exec(c, steps).value.recorded) != multiset(InTurn(c))
  {
    steps := OneWorker(c);
    var s, due := Exec(c, steps).value, InTurn(c);
    var j :| FirstExporter(c.jobs) <= j < |c.jobs| && !IsExporter(c.jobs[j]);
    assert s.recorded[j] == Scrape(j, None) && s.recorded[j] in s.recorded;
    assert forall i :: 0 <= i < |due| ==> due[i].job == i && due[i] != Scrape(j, None);
    if multiset(s.recorded) == multiset(due) {
      SameElements(s.recorded, due);
    }
  }

  /**
   * Every schedule records exactly the scrapes of the sequential program, in some order, if and only if the
   * pool is steady: no untagged route stands behind one tagged as an exporter.
   */
  lemma RecordedAreTheScrapesDueIff(c: Config)
    requires WellFormed(c)
    ensures Steady(c) <==>
            forall steps :: Exec(c, steps).Some? && Exec(c, steps).value.closed ==>
                              multiset(Exec(c, steps).value.recorded) == multiset(InTurn(c))
  {
    hide Exec, Steady;
    if Steady(c) {
      forall steps | Exec(c, steps).Some? && Exec(c, steps).value.closed
        ensures multiset(Exec(c, steps).value.recorded) == multiset(InTurn(c))
      {
        RecordedInSteadyPool(c, steps);
      }
    } else {
      var steps := LostHeaders(c);
    }
  }

  /** Some route, scraped with the headers it is due, has no endpoint, and this is the error. */
  ghost predicate EndpointMissing(c: Config, err: ErrFetch) {
    exists j: nat :: j < |c.jobs| && c.scrape(j, HeadersFor(c, j, c.headers)) == NoEndpoint(err)
  }

  lemma FatalInTurn(c: Config, scrape: Scrape)
    requires scrape in InTurn(c) && Fatal(c, scrape)
    ensures EndpointMissing(c, c.scrape(scrape.job, scrape.headers).err)
  {
    var j :| 0 <= j < |InTurn(c)| && InTurn(c)[j] == scrape;
    assert c.scrape(j, HeadersFor(c, j, c.headers)) == NoEndpoint(c.scrape(scrape.job, scrape.headers).err);
  }

  lemma MissingIsFatal(c: Config, err: ErrFetch) returns (scrape: Scrape)
    requires EndpointMissing(c, err) && !c.exporters
    ensures scrape in InTurn(c) && Fatal(c, scrape)
  {
    var j: nat :| j < |c.jobs| && c.scrape(j, HeadersFor(c, j, c.headers)) == NoEndpoint(err);
    scrape := InTurn(c)[j];
  }

  /** Recording the due scrapes in any order gives an error exactly when one is fatal. */
  lemma AnyOrderErrs(c: Config, order: seq<Scrape>)
    requires multiset(order) == multiset(InTurn(c))
    ensures SequentialError(c, order).Some? <==> !c.exporters && exists err :: EndpointMissing(c, err)
    ensures SequentialError(c, order).Some? ==> EndpointMissing(c, SequentialError(c, order).value)
  {
    hide SequentialError, SequentialResults, EndpointMissing;
    SameElements(order, InTurn(c));
    ErrorIff(c, order);
    if SequentialError(c, order).Some? {
      var scrape :| scrape in order && Fatal(c, scrape) &&
                    c.scrape(scrape.job, scrape.headers).err == SequentialError(c, order).value;
      FatalInTurn(c, scrape);
    } else if err :| EndpointMissing(c, err) && !c.exporters {
      var scrape := MissingIsFatal(c, err);
    }
  }

  /** What a scrape leaves in the list: its families if it succeeded, otherwise one family that reports it. */
  ghost predicate Accounts(c: Config, scrape: Scrape, part: Families) {
    match c.scrape(scrape.job, scrape.headers)
    case Scraped(families) => part == families
    case NoEndpoint(err) => ReportsError(c, scrape.job, err.message, part)
    case Failed(message) => ReportsError(c, scrape.job, message, part)
  }

  /** One metric of value one, labelled with the error and the tags of the route. */
  ghost predicate ReportsError(c: Config, job: nat, message: string, part: Families) {
    && job < |c.jobs| && part.Keys == {"promfetcher_scrape_error"} && |part["promfetcher_scrape_error"]| == 1
    && var sample := part["promfetcher_scrape_error"][0];
       && sample.payload == "1"
       && forall name :: Values(sample.labels, name) == ErrorValue(c.jobs[job], message, name)
  }

  /** The values of a label of the reporting metric. */
  function ErrorValue(route: Route, message: string, name: Option<string>): seq<string> {
    match name
    case None => []
    case Some("organization_id") => [route.tags.organizationId]
    case Some("space_id") => [route.tags.spaceId]
    case Some("app_id") => [route.tags.appId]
    case Some("organization_name") => [route.tags.organizationName]
    case Some("space_name") => [route.tags.spaceName]
    case Some("app_name") => [route.tags.appName]
    case Some("index") => [route.tags.instanceId]
    case Some("instance_id") => [route.tags.instanceId]
    case Some("instance") => [route.address]
    case Some("error") => [message]
    case _ => []
  }

  lemma ErrorLabelAt(route: Route, message: string, k: nat)
    requires k < 10
    ensures var labels := ErrorLabels(route, message);
            |labels| == 10 && ErrorValue(route, message, labels[k].name) == [labels[k].value]
  {
    if k == 0 {
    } else if k == 1 {
    } else if k == 2 {
    } else if k == 3 {
    } else if k == 4 {
    } else if k == 5 {
    } else if k == 6 {
    } else if k == 7 {
    } else if k == 8 {
    } else {
    }
  }

  /** The names in the order in which the labels are sorted. */
  const ERROR_NAMES := [
    "app_id", "app_name", "error", "index", "instance", "instance_id", "organization_id", "organization_name",
    "space_id", "space_name"]

  lemma ErrorLabelNames(route: Route, message: string)
    ensures forall k :: 0 <= k < 10 ==> ErrorLabels(route, message)[k].name == Some(ERROR_NAMES[k])
    ensures forall j, k :: 0 <= j < k < 10 ==> ERROR_NAMES[j] != ERROR_NAMES[k]
    ensures forall name: Option<string> :: name.None? || name.value !in ERROR_NAMES ==>
              ErrorValue(route, message, name) == []
  {
    assert ERROR_NAMES[0] == "app_id" && ERROR_NAMES[1] == "app_name" && ERROR_NAMES[2] == "error";
    assert ERROR_NAMES[3] == "index" && ERROR_NAMES[4] == "instance" && ERROR_NAMES[5] == "instance_id";
    assert ERROR_NAMES[6] == "organization_id" && ERROR_NAMES[7] == "organization_name";
    assert ERROR_NAMES[8] == "space_id" && ERROR_NAMES[9] == "space_name";
  }

  lemma ErrorLabelValues(route: Route, message: string, name: Option<string>)
    ensures Values(ErrorLabels(route, message), name) == ErrorValue(route, message, name)
  {
    hide ErrorLabels, ErrorValue, Values;
    var labels := ErrorLabels(route, message);
    ErrorLabelNames(route, message);
    ErrorLabelAt(route, message, 0);
    if k: nat :| k < 10 && labels[k].name == name {
      ErrorLabelAt(route, message, k);
      ValuesOfDistinct(labels, k);
    } else {
      ValuesOfNone(labels, name);
    }
  }

  lemma FamiliesAccount(c: Config, scrape: Scrape)
    requires scrape.job < |c.jobs|
    ensures Accounts(c, scrape, FamiliesOf(c, scrape))
  {
    hide ErrorLabels, ErrorValue, Values;
    forall name: Option<string>, message: string
      ensures Values(ErrorLabels(c.jobs[scrape.job], message), name) == ErrorValue(c.jobs[scrape.job], message, name)
    {
      ErrorLabelValues(c.jobs[scrape.job], message, name);
    }
  }

  lemma {:induction false} ResultsAccount(c: Config, order: seq<Scrape>)
    requires forall scrape <- order :: scrape.job < |c.jobs| && !Fatal(c, scrape)
    ensures var parts := SequentialResults(c, order);
            && |parts| == |c.initial| + |order| && parts[..|c.initial|] == c.initial
            && forall i :: 0 <= i < |order| ==> Accounts(c, order[i], parts[|c.initial| + i])
  {
    hide Accounts, FamiliesOf, Fatal;
    if order != [] {
      var n := |order| - 1;
      assert order[n] in order;
      ResultsAccount(c, order[..n]);
      FamiliesAccount(c, order[n]);
    }
  }

  /**
   * What is in an answer without error, in every schedule: the failed conversions reported at the set-up, then
   * for each job in the order of recording exactly what its scrape returned, or the report of its failure.
   */
  lemma ContentsOfTheAnswer(c: Config, steps: seq<Step>)
    requires WellFormed(c) && Exec(c, steps).Some? && Exec(c, steps).value.closed
    requires AnswerOf(Exec(c, steps).value).err.None?
    ensures var s := Exec(c, steps).value;
            var parts := AnswerOf(s).parts;
            && |s.recorded| == |c.jobs| && JobsOf(s.recorded) == Range(|c.jobs|)
            && |parts| == |c.initial| + |c.jobs| && parts[..|c.initial|] == c.initial
            && forall i :: 0 <= i < |c.jobs| ==> Accounts(c, s.recorded[i], parts[|c.initial| + i])
  {
    hide Exec, Accounts, SequentialResults;
    EverySchedule(c, steps);
    EachRouteOnce(c, steps);
    var s := Exec(c, steps).value;
    assert forall scrape <- s.recorded :: scrape.job in JobsOf(s.recorded) by { JobsAreListed(s.recorded); }
    ResultsAccount(c, s.recorded);
  }

  lemma JobsAreListed(scrapes: seq<Scrape>)
    ensures forall scrape <- scrapes :: scrape.job in JobsOf(scrapes)
  {
  }

  // ---- what the merged answer holds under a name ----

  /** The metrics under a name that a scrape returned; none if it failed. */
  ghost function ReturnedBy(c: Config, scrape: Scrape, name: string): multiset<Sample> {
    match c.scrape(scrape.job, scrape.headers)
    case Scraped(families) => if name in families then multiset(families[name]) else multiset{}
    case _ => multiset{}
  }

  ghost function Returned(c: Config, order: seq<Scrape>, name: string): multiset<Sample> {
    if order == [] then multiset{}
    else Returned(c, order[..|order| - 1], name) + ReturnedBy(c, order[|order| - 1], name)
  }

  /** One for a failed scrape. */
  ghost function Failure(c: Config, scrape: Scrape): nat {
    if c.scrape(scrape.job, scrape.headers).Scraped? then 0 else 1
  }

  ghost function Failures(c: Config, order: seq<Scrape>): nat {
    if order == [] then 0 else Failures(c, order[..|order| - 1]) + Failure(c, order[|order| - 1])
  }

  lemma PartUnderAName(c: Config, scrape: Scrape, part: Families, name: string)
    requires Accounts(c, scrape, part)
    ensures |At(part, name)| == |ReturnedBy(c, scrape, name)| +
                                (if name == "promfetcher_scrape_error" then Failure(c, scrape) else 0)
    ensures name != "promfetcher_scrape_error" ==> multiset(At(part, name)) == ReturnedBy(c, scrape, name)
  {
    hide ErrorValue, Values;
  }

  lemma {:induction false} ResultsUnderAName(c: Config, order: seq<Scrape>, name: string)
    requires forall scrape <- order :: scrape.job < |c.jobs| && !Fatal(c, scrape)
    ensures var parts := SequentialResults(c, order);
            && |Joined(parts, name)| == |Joined(c.initial, name)| + |Returned(c, order, name)| +
                                        (if name == "promfetcher_scrape_error" then Failures(c, order) else 0)
            && (name != "promfetcher_scrape_error" ==>
                  multiset(Joined(parts, name)) == multiset(Joined(c.initial, name)) + Returned(c, order, name))
  {
    hide FamiliesOf, Fatal, Accounts, ReturnedBy, Failure, At;
    if order != [] {
      var n := |order| - 1;
      assert order[n] in order;
      ResultsUnderAName(c, order[..n], name);
      FamiliesAccount(c, order[n]);
      PartUnderAName(c, order[n], FamiliesOf(c, order[n]), name);
      var before := SequentialResults(c, order[..n]);
      JoinedMore(before, FamiliesOf(c, order[n]), name);
    }
  }

  lemma JoinedMore(parts: seq<Families>, part: Families, name: string)
    ensures Joined(parts + [part], name) == Joined(parts, name) + At(part, name)
  {
    hide At;
    assert (parts + [part])[..|parts|] == parts;
  }

  /**
   * The merged answer of every schedule: under each name the metrics that successful scrapes returned and those
   * that report failed conversions, and under the name for errors one metric for each failed scrape besides.
   */
  lemma MetricsUnderAName(c: Config, steps: seq<Step>, name: string)
    requires WellFormed(c) && Exec(c, steps).Some? && Exec(c, steps).value.closed
    requires AnswerOf(Exec(c, steps).value).err.None?
    ensures var s := Exec(c, steps).value;
            var metrics := Joined(AnswerOf(s).parts, name);
            && |metrics| == |Joined(c.initial, name)| + |Returned(c, s.recorded, name)| +
                            (if name == "promfetcher_scrape_error" then Failures(c, s.recorded) else 0)
            && (name != "promfetcher_scrape_error" ==>
                  multiset(metrics) == multiset(Joined(c.initial, name)) + Returned(c, s.recorded, name))
  {
    hide Exec, SequentialResults, Joined, Returned, Failures;
    EverySchedule(c, steps);
    EachRouteOnce(c, steps);
    var s := Exec(c, steps).value;
    assert forall scrape <- s.recorded :: scrape.job in JobsOf(s.recorded) by { JobsAreListed(s.recorded); }
    ResultsUnderAName(c, s.recorded, name);
  }

  /**
   * What every schedule answers, tagged routes or not: an error exactly when no exporter is configured and
   * some scrape found no endpoint, and then the last of those errors to be recorded; otherwise one entry for
   * each route and each failed exporter conversion.
   */
  lemma EverySchedule(c: Config, steps: seq<Step>)
    requires WellFormed(c) && Exec(c, steps).Some? && Exec(c, steps).value.closed
    ensures var s := Exec(c, steps).value;
            var answer := AnswerOf(s);
            && (answer.err.Some? <==> !c.exporters && exists scrape <- s.recorded ::
                  c.scrape(scrape.job, scrape.headers).NoEndpoint?)
            && (answer.err.Some? ==> exists i ::
                  && 0 <= i < |s.recorded|
                  && c.scrape(s.recorded[i].job, s.recorded[i].headers) == NoEndpoint(answer.err.value)
                  && forall k :: i < k < |s.recorded| ==>
                       !c.scrape(s.recorded[k].job, s.recorded[k].headers).NoEndpoint?)
            && (answer.err.None? ==> |answer.parts| == |c.initial| + |c.jobs|)
  {
    hide Exec, SequentialError, SequentialResults;
    var s := Exec(c, steps).value;
    EachRouteOnce(c, steps);
    ErrorIff(c, s.recorded);
    if s.err.Some? {
      var i := LastErrorStays(c, s.recorded);
      assert s.recorded[i] in s.recorded;
      assert s.err.value.code != 0;
    } else {
      ResultsCount(c, s.recorded);
    }
  }

  /**
   * Every schedule of a steady pool answers like the sequential program: an error in the same cases, namely
   * when no exporter is configured and some route has no endpoint, otherwise the same list up to order.
   */
  lemma SteadySchedule(c: Config, steps: seq<Step>)
    requires WellFormed(c) && Steady(c) && Exec(c, steps).Some? && Exec(c, steps).value.closed
    ensures var answer := AnswerOf(Exec(c, steps).value);
            && (answer.err.Some? <==> !c.exporters && exists err :: EndpointMissing(c, err))
            && (answer.err.Some? <==> SequentialAnswer(c).err.Some?)
            && (answer.err.Some? ==> EndpointMissing(c, answer.err.value))
            && multiset(answer.parts) == multiset(SequentialAnswer(c).parts)
  {
    hide Exec, SequentialError, SequentialResults, EndpointMissing, Steady;
    var s := Exec(c, steps).value;
    EachRouteOnce(c, steps);
    RecordedInSteadyPool(c, steps);
    AnyOrderErrs(c, s.recorded);
    AnyOrderErrs(c, InTurn(c));
    ResultsIgnoreOrder(c, s.recorded, InTurn(c));
    if s.err.Some? {
      CodesAreSet(c, s.err.value);
    }
  }

  lemma CodesAreSet(c: Config, err: ErrFetch)
    requires WellFormed(c) && EndpointMissing(c, err)
    ensures err.code != 0
  {
    var j: nat :| j < |c.jobs| && c.scrape(j, HeadersFor(c, j, c.headers)) == NoEndpoint(err);
  }

  /** What a job returns under a name, scraped with the caller's headers, or without if it is an exporter. */
  ghost function ReturnedByJob(c: Config, j: nat, name: string): multiset<Sample>
    requires j < |c.jobs|
  {
    match c.scrape(j, if c.jobs[j].tags.processType == "external_exporter" then None else c.headers)
    case Scraped(families) => if name in families then multiset(families[name]) else multiset{}
    case _ => multiset{}
  }

  /** The same for the first `n` jobs. */
  ghost function ReturnedByJobs(c: Config, n: nat, name: string): multiset<Sample>
    requires n <= |c.jobs|
  {
    if n == 0 then multiset{} else ReturnedByJobs(c, n - 1, name) + ReturnedByJob(c, n - 1, name)
  }

  lemma ReturnedAsDue(c: Config, j: nat, name: string)
    requires j < |c.jobs|
    ensures ReturnedBy(c, InTurn(c)[j], name) == ReturnedByJob(c, j, name)
  {
  }

  lemma {:induction false} ReturnedInTurn(c: Config, n: nat, name: string)
    requires n <= |c.jobs|
    ensures Returned(c, InTurn(c)[..n], name) == ReturnedByJobs(c, n, name)
  {
    hide InTurn, ReturnedBy, ReturnedByJob;
    if n > 0 {
      ReturnedInTurn(c, n - 1, name);
      ReturnedAsDue(c, n - 1, name);
      assert InTurn(c)[..n][..n - 1] == InTurn(c)[..n - 1];
    }
  }

  /**
   * In a steady pool this is the same for every schedule: under each name what all jobs return when each is
   * scraped once, app routes with the caller's headers and exporters without.
   */
  lemma SteadyMetricsUnderAName(c: Config, steps: seq<Step>, name: string)
    requires WellFormed(c) && Steady(c) && Exec(c, steps).Some? && Exec(c, steps).value.closed
    requires AnswerOf(Exec(c, steps).value).err.None? && name != "promfetcher_scrape_error"
    ensures multiset(Joined(AnswerOf(Exec(c, steps).value).parts, name)) ==
            multiset(Joined(c.initial, name)) + ReturnedByJobs(c, |c.jobs|, name)
  {
    hide Exec, Joined, Steady, AnswerOf, SequentialResults, SequentialError, InTurn;
    var parts := AnswerOf(Exec(c, steps).value).parts;
    SteadySchedule(c, steps);
    MergeIgnoresOrder(parts, SequentialAnswer(c).parts, name);
    NoneIsFatal(c);
    ResultsUnderAName(c, InTurn(c), name);
    ReturnedInTurn(c, |c.jobs|, name);
    assert InTurn(c)[..|c.jobs|] == InTurn(c);
  }

  lemma NoneIsFatal(c: Config)
    requires SequentialAnswer(c).err.None?
    ensures forall scrape <- InTurn(c) :: scrape.job < |c.jobs| && !Fatal(c, scrape)
    ensures SequentialAnswer(c).parts == SequentialResults(c, InTurn(c))
  {
    hide SequentialError, Fatal;
    ErrorIff(c, InTurn(c));
  }

  /** The body of the response is the same for every two schedules, up to the order of metrics in a family. */
  lemma SchedulesMergeAlike(c: Config, steps: seq<Step>, steps': seq<Step>, name: string)
    requires WellFormed(c) && Steady(c)
    requires Exec(c, steps).Some? && Exec(c, steps).value.closed
    requires Exec(c, steps').Some? && Exec(c, steps').value.closed
    ensures var parts, parts' := AnswerOf(Exec(c, steps).value).parts, AnswerOf(Exec(c, steps').value).parts;
            && (name in Names(parts) <==> name in Names(parts'))
            && multiset(Joined(parts, name)) == multiset(Joined(parts', name))
  {
    SteadySchedule(c, steps);
    SteadySchedule(c, steps');
    hide Exec, AnswerOf;
    MergeIgnoresOrder(AnswerOf(Exec(c, steps).value).parts, AnswerOf(Exec(c, steps').value).parts, name);
  }

  // ---- the metric that reports a failed scrape ----

  lemma ErrorLabelsKept(route: Route, message: string)
    ensures var labels := ErrorLabels(route, message);
            Kept(labels, ["error"]) == labels[..2] + labels[3..]
  {
    hide Kept, IsNamed;
    var labels := ErrorLabels(route, message);
    assert labels == labels[..2] + [labels[2]] + labels[3..];
    KeptAppend(labels[..2] + [labels[2]], labels[3..], ["error"]);
    KeptAppend(labels[..2], [labels[2]], ["error"]);
    OnlyErrorIsNamed(labels[2]);
    KeptNone([labels[2]], ["error"]);
    forall k: nat | k < 10 && k != 2
      ensures !IsNamed(labels[k], ["error"])
    {
      OnlyErrorIsNamed(labels[k]);
    }
    KeptAllOf(labels[..2], ["error"]);
    KeptAllOf(labels[3..], ["error"]);
  }

  lemma OnlyErrorIsNamed(pair: LabelPair)
    ensures IsNamed(pair, ["error"]) <==> pair.name == Some("error")
  {
  }

  function One<T(==)>(x: T, y: T): nat {
    if x == y then 1 else 0
  }

  lemma CountOfThree<T>(a: T, b: T, c: T, x: T)
    ensures multiset([a, b, c])[x] == One(a, x) + One(b, x) + One(c, x)
  {
  }

  lemma CountOfNine<T>(s: seq<T>, x: T)
    requires |s| == 9
    ensures multiset(s)[x] == One(s[0], x) + One(s[1], x) + One(s[2], x) + One(s[3], x) + One(s[4], x) +
                              One(s[5], x) + One(s[6], x) + One(s[7], x) + One(s[8], x)
  {
    hide One;
    assert s == [s[0], s[1], s[2]] + [s[3], s[4], s[5]] + [s[6], s[7], s[8]];
    CountOfThree(s[0], s[1], s[2], x);
    CountOfThree(s[3], s[4], s[5], x);
    CountOfThree(s[6], s[7], s[8], x);
  }

  lemma Rearranged<T>(s: seq<T>, t: seq<T>)
    requires |s| == 9 && t == [s[5], s[7], s[0], s[6], s[8], s[1], s[2], s[4], s[3]]
    ensures multiset(s) == multiset(t)
  {
    hide One;
    forall x
      ensures multiset(s)[x] == multiset(t)[x]
    {
      CountOfNine(s, x);
      CountOfNine(t, x);
    }
  }

  lemma ErrorLabelsIff(route: Route, message: string)
    ensures multiset(Kept(ErrorLabels(route, message), ["error"])) == multiset(RouteLabels(route)) <==>
            route.tags.instanceId != ""
  {
    var labels, added := ErrorLabels(route, message), RouteLabels(route);
    ErrorLabelsKept(route, message);
    var kept := labels[..2] + labels[3..];
    if route.tags.instanceId != "" {
      assert added == [kept[5], kept[7], kept[0], kept[6], kept[8], kept[1], kept[2], kept[4], kept[3]];
      hide *;
      Rearranged(kept, added);
    } else {
      hide *;
      assert |multiset(kept)| == 9 && |multiset(added)| == 6;
    }
  }

  /**
   * The metric standing in for a failed instance carries, besides the error, the labels its metrics would have
   * got, exactly when the route has an instance id; without one it still names an empty instance.
   */
  lemma ErrorMetricIsLabelledIff(c: Config, scrape: Scrape)
    requires scrape.job < |c.jobs| && !c.scrape(scrape.job, scrape.headers).Scraped?
    ensures var route := c.jobs[scrape.job];
            var families: Families := FamiliesOf(c, scrape);
            && families.Keys == {"promfetcher_scrape_error"}
            && |families["promfetcher_scrape_error"]| == 1
            && var labels := families["promfetcher_scrape_error"][0].labels;
               (multiset(Kept(labels, ["error"])) == multiset(RouteLabels(route)) <==> route.tags.instanceId != "")
  {
    hide Kept, ErrorLabels, RouteLabels;
    var route := c.jobs[scrape.job];
    match c.scrape(scrape.job, scrape.headers)
    case NoEndpoint(err) => ErrorLabelsIff(route, err.message);
    case Failed(message) => ErrorLabelsIff(route, message);
  }

  lemma {:induction false} KeptAllOf(labels: seq<LabelPair>, names: seq<string>)
    requires forall pair <- labels :: !IsNamed(pair, names)
    ensures Kept(labels, names) == labels
  {
    hide IsNamed;
    if labels != [] {
      var n := |labels| - 1;
      assert labels[n] in labels && labels == labels[..n] + [labels[n]];
      KeptAllOf(labels[..n], names);
    }
  }
}
