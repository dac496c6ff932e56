/**
 * The scrape worker pool: one producer, a bounded first-in first-out channel, five workers sharing a result
 * list and an error cell under a mutex, and a wait group, as a relation between states. The scheduler may
 * take any enabled step. What a scrape yields is an arbitrary function of the job and the headers sent.
 */
module WorkerPool {
  import opened Options
  import opened RouteModel
  import opened Labels

  const WORKERS: nat := 5

  /** A metric with its labels; the rest of it is of no interest here. */
  datatype Sample = Sample(labels: seq<LabelPair>, payload: string)

  /** Metric families by name. */
  type Families = map<string, seq<Sample>>

  type Headers = Option<map<string, seq<string>>>

  /** An error with an HTTP status; the scraper only makes ones with status 406. */
  datatype ErrFetch = ErrFetch(code: int, message: string)

  datatype Outcome = Scraped(families: Families) | NoEndpoint(err: ErrFetch) | Failed(message: string)

  /** What one call of Metrics starts its workers with. */
  datatype Config = Config(
    jobs: seq<Route>,            // the found routes, then the exporter routes
    found: nat,                  // how many were found, which is also the channel's capacity
    headers: Headers,            // the caller's headers
    exporters: bool,             // is any exporter configured
    initial: seq<Families>,      // results already listed for failed exporter conversions
    scrape: (nat, Headers) -> Outcome)

  predicate IsExporter(r: Route) {
    r.tags.processType == PROCESS_EXTERNAL_EXPORTER
  }

  ghost predicate WellFormed(c: Config) {
    && 1 <= c.found <= |c.jobs|
    && (forall j :: c.found <= j < |c.jobs| ==> IsExporter(c.jobs[j]))
    && (forall j: nat, h :: c.scrape(j, h).NoEndpoint? ==> c.scrape(j, h).err.code != 0)
  }

  /** No found route passes itself off as an exporter. */
  predicate Untagged(c: Config) {
    forall j :: 0 <= j < |c.jobs| && j < c.found ==> !IsExporter(c.jobs[j])
  }

  /** Index of the first job tagged as an exporter, or the number of jobs. */
  function FirstExporter(jobs: seq<Route>): (n: nat)
    ensures n <= |jobs|
    ensures forall j :: 0 <= j < n ==> !IsExporter(jobs[j])
    ensures n < |jobs| ==> IsExporter(jobs[n])
  {
    if jobs == [] || IsExporter(jobs[0]) then 0 else 1 + FirstExporter(jobs[1..])
  }

  /** There are no headers to lose, or no job that should have them comes after one that drops them. */
  predicate Steady(c: Config) {
    c.headers == None || forall j :: FirstExporter(c.jobs) <= j < |c.jobs| ==> IsExporter(c.jobs[j])
  }

  /** A job together with the headers it was scraped with. */
  datatype Scrape = Scrape(job: nat, headers: Headers)

  datatype Pc =
    | Receiving
    | Fetching(job: nat)
    | Recording(scrape: Scrape)
    | Acking(job: nat)
    | Exited

  /** A worker keeps its own copy of the headers from one job to the next. */
  datatype Worker = Worker(headers: Headers, pc: Pc)

  datatype State = State(
    sent: nat,                   // jobs given to the channel so far
    queue: seq<nat>,             // the channel's content
    closed: bool,
    workers: seq<Worker>,
    wg: int,
    results: seq<Families>,
    err: Option<ErrFetch>,
    scrapes: seq<Scrape>,        // history: every scrape made, in order
    recorded: seq<Scrape>,       // history: every outcome recorded, in order
    finished: set<nat>)          // history: every job counted down

  function Init(c: Config): State {
    State(0, [], false, seq(WORKERS, _ => Worker(c.headers, Receiving)), |c.jobs|, c.initial, None, [], [], {})
  }

  datatype Step = Send | Close | Receive(w: nat) | Fetch(w: nat) | Record(w: nat) | Done(w: nat) | Exit(w: nat)

  predicate Enabled(c: Config, s: State, step: Step) {
    match step
    case Send => s.sent < |c.jobs| && |s.queue| < c.found
    case Close => s.sent == |c.jobs| && s.wg == 0 && !s.closed
    case Receive(w) => w < |s.workers| && s.workers[w].pc.Receiving? && s.queue != []
    case Fetch(w) => w < |s.workers| && s.workers[w].pc.Fetching?
    case Record(w) => w < |s.workers| && s.workers[w].pc.Recording?
    case Done(w) => w < |s.workers| && s.workers[w].pc.Acking?
    case Exit(w) => w < |s.workers| && s.workers[w].pc.Receiving? && s.queue == [] && s.closed
  }

  function SetPc(s: State, w: nat, pc: Pc): State
    requires w < |s.workers|
  {
    s.(workers := s.workers[w := s.workers[w].(pc := pc)])
  }

  /** The headers a worker holding `h` uses for the job, and from then on. */
  function HeadersFor(c: Config, job: nat, h: Headers): Headers {
    if job < |c.jobs| && IsExporter(c.jobs[job]) then None else h
  }

  /** An outcome that sets the error cell instead of yielding families. */
  predicate Fatal(c: Config, scrape: Scrape) {
    c.scrape(scrape.job, scrape.headers).NoEndpoint? && !c.exporters
  }

  /** What is appended to the results: scraped families, or one that reports the error. */
  function FamiliesOf(c: Config, scrape: Scrape): Families {
    match c.scrape(scrape.job, scrape.headers)
    case Scraped(families) => families
    case NoEndpoint(err) => ErrorFamilies(if scrape.job < |c.jobs| then Some(c.jobs[scrape.job]) else None, err.message)
    case Failed(message) => ErrorFamilies(if scrape.job < |c.jobs| then Some(c.jobs[scrape.job]) else None, message)
  }

  /** The metric that reports an error; the Prometheus client sorts its labels by name. */
  function ErrorFamilies(r: Option<Route>, message: string): Families {
    match r
    case None => map[]
    case Some(route) => map["promfetcher_scrape_error" := [Sample(ErrorLabels(route, message), "1")]]
  }

  function ErrorLabels(route: Route, message: string): seq<LabelPair> {
    [Pair("app_id", route.tags.appId), Pair("app_name", route.tags.appName), Pair("error", message),
     Pair("index", route.tags.instanceId), Pair("instance", route.address),
     Pair("instance_id", route.tags.instanceId), Pair("organization_id", route.tags.organizationId),
     Pair("organization_name", route.tags.organizationName), Pair("space_id", route.tags.spaceId),
     Pair("space_name", route.tags.spaceName)]
  }

  function Apply(c: Config, s: State, step: Step): State
    requires Enabled(c, s, step)
  {
    match step
    case Send => s.(sent := s.sent + 1, queue := s.queue + [s.sent])
    case Close => s.(closed := true)
    case Receive(w) => SetPc(s, w, Fetching(s.queue[0])).(queue := s.queue[1..])
    case Fetch(w) =>
      var job := s.workers[w].pc.job;
      var h := HeadersFor(c, job, s.workers[w].headers);
      s.(workers := s.workers[w := Worker(h, Recording(Scrape(job, h)))], scrapes := s.scrapes + [Scrape(job, h)])
    case Record(w) =>
      var scrape := s.workers[w].pc.scrape;
      var t := SetPc(s, w, Acking(scrape.job)).(recorded := s.recorded + [scrape]);
      if Fatal(c, scrape) then t.(err := Some(c.scrape(scrape.job, scrape.headers).err))
      else t.(results := s.results + [FamiliesOf(c, scrape)])
    case Done(w) =>
      SetPc(s, w, Receiving).(wg := s.wg - 1, finished := s.finished + {s.workers[w].pc.job})
    case Exit(w) => SetPc(s, w, Exited)
  }

  /** The state after a schedule, if every step of it was enabled. */
  function Exec(c: Config, steps: seq<Step>): Option<State> {
    if steps == [] then Some(Init(c))
    else
      match Exec(c, steps[..|steps| - 1])
      case None => None
      case Some(s) =>
        if Enabled(c, s, steps[|steps| - 1]) then Some(Apply(c, s, steps[|steps| - 1])) else None
  }

  /** Everything is over: the channel is closed and empty and all workers have left. */
  predicate Final(s: State) {
    s.closed && s.queue == [] && forall w <- s.workers :: w.pc.Exited?
  }

  // ---- the sequential form ----

  /** Results and error of recording these scrapes one after the other. */
  function SequentialResults(c: Config, order: seq<Scrape>): seq<Families> {
    if order == [] then c.initial
    else
      var last := order[|order| - 1];
      var before := SequentialResults(c, order[..|order| - 1]);
      if Fatal(c, last) then before else before + [FamiliesOf(c, last)]
  }

  function SequentialError(c: Config, order: seq<Scrape>): Option<ErrFetch> {
    if order == [] then None
    else
      var last := order[|order| - 1];
      if Fatal(c, last) then Some(c.scrape(last.job, last.headers).err)
      else SequentialError(c, order[..|order| - 1])
  }
}
