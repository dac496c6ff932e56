/** A whole call of Metrics: the lookup, the set-up of the pool, and the answer. */
module MetricsCalls {
  import opened Options
  import opened Uris
  import opened RouteModel
  import opened RouteStore
  import opened RoutingTables
  import opened WorkerPool
  import opened Exporters
  import opened WorkerPoolProofs
  import opened MetricsOutcomes

  /** The pool a call starts for these routes, once its exporter routes are appended. */
  ghost function PoolOf(found: seq<Route>, exporters: seq<ExternalExporter>, onlyAppMetrics: bool, order: seq<string>,
                        execute: Execute, headers: Headers, scrape: (nat, Headers) -> Outcome): Config
  {
    var added := if onlyAppMetrics then Expansion([], []) else ExpandAll(order, TagsByApp(found), exporters, execute);
    Config(found + added.routes, |found|, headers, exporters != [], added.failures, scrape)
  }

  /** How the first part of a call ends. Dereferencing a nil pointer takes the request down. */
  datatype Setup = NotFound(err: ErrFetch) | Crash | Started(pool: Config)

  /**
   * The pool starts with the found routes, which are also all that its channel holds, and gets the headers of
   * the call, the scraper, and whether exporters are configured.
   */
  ghost predicate HandsOn(pool: Config, found: seq<Route>, exporters: seq<ExternalExporter>, headers: Headers,
                          scrape: (nat, Headers) -> Outcome)
  {
    && pool.headers == headers && pool.scrape == scrape && (pool.exporters <==> exporters != [])
    && pool.found == |found| <= |pool.jobs| && pool.jobs[..|found|] == found
  }

  /** From the found slice to the pool, with the apps in whatever order the map of their tags is ranged over. */
  method Prepare(name: string, found: Slots, exporters: seq<ExternalExporter>, onlyAppMetrics: bool,
                 execute: Execute, headers: Headers, scrape: (nat, Headers) -> Outcome)
    returns (setup: Setup)
    ensures setup.NotFound? <==> found == []
    ensures setup.NotFound? ==> setup.err.code == 404
    ensures setup.Crash? <==> !NilFree(found)
    ensures setup.Started? ==> exists order: seq<string> ::
              && RangesOver(order, TagsByApp(Pointees(found)).Keys)
              && setup.pool == PoolOf(Pointees(found), exporters, onlyAppMetrics, order, execute, headers, scrape)
    ensures setup.Started? ==> HandsOn(setup.pool, Pointees(found), exporters, headers, scrape)
  {
    hide ExpandAll, TagsByApp;
    if |found| == 0 {
      return NotFound(ErrFetch(404, "Cannot found app with id or path " + name));
    }
    var mapTagsRoute := CollectTags(found);
    if mapTagsRoute == None {
      return Crash;
    }
    var order := RangeOver(mapTagsRoute.value.Keys);
    var routes, metricsUnmerged :=
      Expand(Pointees(found), mapTagsRoute.value, exporters, onlyAppMetrics, order, execute);
    return Started(Config(routes, |found|, headers, |exporters| > 0, metricsUnmerged, scrape));
  }

  /**
   * The lookup and the set-up together. Lookups by id and by org, space and name never crash, start exactly
   * when there is a matching web route, and start a steady pool in which all found routes are scraped with the
   * caller's headers; a lookup by route crashes exactly on a nil slot.
   */
  method StartMetrics(table: RoutingTable, text: string, unescape: string -> Option<string>, isUuid: string -> bool,
                      order: seq<Uri>, exporters: seq<ExternalExporter>, onlyAppMetrics: bool,
                      execute: Execute, headers: Headers, scrape: (nat, Headers) -> Outcome)
    returns (setup: Setup)
    requires table.Valid() && IsOrderOf(order, table.entries.Keys)
    modifies table.Objects()`url
    ensures table.Valid()
    ensures var name := Unescaped(text, unescape);
            match LookupKind(name, isUuid)
            case RouteName =>
              var slots := Read(table.store, RouteKey(name));
              && (setup.Crash? <==> !NilFree(slots)) && (setup.NotFound? <==> slots == [])
              && (setup.Started? ==> HandsOn(setup.pool, Pointees(slots), exporters, headers, scrape))
            case AppId => StartsForWeb(setup, table.store, ById(name), exporters, headers, scrape)
            case OrgSpaceName(o, s, n) =>
              StartsForWeb(setup, table.store, ByName(o, s, n), exporters, headers, scrape)
  {
    hide RouteKey, WebAddresses, TagsByApp, PoolOf, Split;
    var name := Unescaped(text, unescape);
    var found := table.Find(text, unescape, isUuid, order);
    setup := Prepare(name, Views(found), exporters, onlyAppMetrics, execute, headers, scrape);
    match LookupKind(name, isUuid)
    case RouteName =>
    case AppId =>
      WebRoutesStart(table, found, ById(name), setup, exporters, onlyAppMetrics, execute, headers, scrape);
    case OrgSpaceName(o, s, n) =>
      WebRoutesStart(table, found, ByName(o, s, n), setup, exporters, onlyAppMetrics, execute, headers, scrape);
  }

  /**
   * What a lookup of the matching web routes starts: one job for each of their addresses, if there are any, all
   * of them to be scraped with the caller's headers.
   */
  ghost predicate StartsForWeb(setup: Setup, s: Store, matches: Route -> bool, exporters: seq<ExternalExporter>,
                               headers: Headers, scrape: (nat, Headers) -> Outcome)
    requires RouteStore.WellFormed(s)
  {
    var addresses := WebAddresses(s, matches);
    && !setup.Crash?
    && (setup.NotFound? <==> addresses == {})
    && (setup.Started? ==>
          && 0 < setup.pool.found <= |setup.pool.jobs|
          && HandsOn(setup.pool, setup.pool.jobs[..setup.pool.found], exporters, headers, scrape)
          && (forall j :: setup.pool.found <= j < |setup.pool.jobs| ==> IsExporter(setup.pool.jobs[j]))
          && OnePerAddress(setup.pool.jobs[..setup.pool.found], addresses, matches)
          && Untagged(setup.pool) && Steady(setup.pool))
  }

  /** Without tagged routes among the found ones, only the appended routes drop headers. */
  lemma UntaggedIsSteady(c: Config)
    requires Untagged(c) && forall j :: c.found <= j < |c.jobs| ==> IsExporter(c.jobs[j])
    ensures Steady(c)
  {
  }

  lemma AppendedAreExporters(found: seq<Route>, exporters: seq<ExternalExporter>, onlyAppMetrics: bool,
                             order: seq<string>, execute: Execute, headers: Headers,
                             scrape: (nat, Headers) -> Outcome)
    ensures var c := PoolOf(found, exporters, onlyAppMetrics, order, execute, headers, scrape);
            && c.found == |found| <= |c.jobs| && c.jobs[..|found|] == found
            && (forall j :: c.found <= j < |c.jobs| ==> IsExporter(c.jobs[j]))
            && (Untagged(c) <==> forall r <- found :: !IsExporter(r))
            && HandsOn(c, found, exporters, headers, scrape)
  {
    ExpandAllTags(order, TagsByApp(found), exporters, execute);
    hide ExpandAll, TagsByApp, IsExporter;
    var c := PoolOf(found, exporters, onlyAppMetrics, order, execute, headers, scrape);
    assert forall j :: 0 <= j < |found| ==> c.jobs[j] == found[j];
  }

  /** The routes are web routes that match, one for each of the addresses. */
  ghost predicate OnePerAddress(routes: seq<Route>, addresses: set<string>, matches: Route -> bool) {
    && |routes| == |addresses| && Addresses(routes) == addresses
    && forall j :: 0 <= j < |routes| ==> routes[j].tags.processType == PROCESS_WEB && matches(routes[j])
  }

  function Addresses(routes: seq<Route>): set<string> {
    set j | 0 <= j < |routes| :: routes[j].address
  }

  lemma DistinctAddresses(routes: seq<Route>)
    requires forall i, j :: 0 <= i < j < |routes| ==> routes[i].address != routes[j].address
    ensures |Addresses(routes)| == |routes|
  {
    var listed := seq(|routes|, i requires 0 <= i < |routes| => routes[i].address);
    forall a <- Addresses(routes)
      ensures a in listed
    {
      var i :| 0 <= i < |routes| && routes[i].address == a;
      assert listed[i] == a;
    }
    DistinctAsSet(listed, Addresses(routes));
  }

  lemma FoundAddresses(found: seq<RouteObject>)
    ensures NilFree(Views(found)) && |Pointees(Views(found))| == |found|
    ensures forall i :: 0 <= i < |found| ==> Pointees(Views(found))[i] == found[i].route
    ensures Addresses(Pointees(Views(found))) == set o <- found :: o.route.address
  {
    var routes := Pointees(Views(found));
    forall o <- found
      ensures o.route.address in Addresses(routes)
    {
      var i :| 0 <= i < |found| && found[i] == o;
      assert routes[i] == o.route;
    }
    assert forall i :: 0 <= i < |found| ==> found[i] in found;
  }

  lemma WebRoutes(table: RoutingTable, found: seq<RouteObject>, matches: Route -> bool)
    requires table.Valid() && table.AreTheWebRoutes(found, matches)
    ensures NilFree(Views(found))
    ensures OnePerAddress(Pointees(Views(found)), WebAddresses(table.store, matches), matches)
  {
    hide WebAddresses, Views, Pointees, Addresses;
    FoundAddresses(found);
    DistinctAddresses(Pointees(Views(found)));
    assert forall i :: 0 <= i < |found| ==> found[i] in found;
  }

  /** Web routes are never tagged as exporters. */
  lemma WebPool(pool: Config, routes: seq<Route>, addresses: set<string>, matches: Route -> bool)
    requires OnePerAddress(routes, addresses, matches)
    requires pool.found == |routes| <= |pool.jobs| && pool.jobs[..|routes|] == routes
    requires Untagged(pool) <==> forall r <- routes :: !IsExporter(r)
    ensures pool.found == |addresses| && Untagged(pool)
    ensures OnePerAddress(pool.jobs[..pool.found], addresses, matches)
  {
  }

  lemma WebRoutesStart(table: RoutingTable, found: seq<RouteObject>, matches: Route -> bool, setup: Setup,
                       exporters: seq<ExternalExporter>, onlyAppMetrics: bool, execute: Execute, headers: Headers,
                       scrape: (nat, Headers) -> Outcome)
    requires table.Valid() && table.AreTheWebRoutes(found, matches)
    requires setup.Crash? <==> !NilFree(Views(found))
    requires setup.NotFound? <==> Views(found) == []
    requires setup.Started? ==> exists order: seq<string> ::
               setup.pool == PoolOf(Pointees(Views(found)), exporters, onlyAppMetrics, order, execute, headers, scrape)
    ensures StartsForWeb(setup, table.store, matches, exporters, headers, scrape)
  {
    WebRoutes(table, found, matches);
    hide PoolOf, WebAddresses, Steady, Untagged, IsExporter, OnePerAddress;
    var routes, addresses := Pointees(Views(found)), WebAddresses(table.store, matches);
    assert |routes| == |addresses| by { SameNumber(routes, addresses, matches); }
    if setup.Started? {
      var order: seq<string> :|
        setup.pool == PoolOf(routes, exporters, onlyAppMetrics, order, execute, headers, scrape);
      AppendedAreExporters(routes, exporters, onlyAppMetrics, order, execute, headers, scrape);
      WebPool(setup.pool, routes, addresses, matches);
      UntaggedIsSteady(setup.pool);
    }
  }

  lemma SameNumber(routes: seq<Route>, addresses: set<string>, matches: Route -> bool)
    requires OnePerAddress(routes, addresses, matches)
    ensures |routes| == |addresses|
  {
  }

  lemma PoolSize(found: seq<Route>, exporters: seq<ExternalExporter>, onlyAppMetrics: bool,
                 order: seq<string>, execute: Execute, headers: Headers,
                 scrape: (nat, Headers) -> Outcome)
    requires RangesOver(order, TagsByApp(found).Keys)
    ensures var c := PoolOf(found, exporters, onlyAppMetrics, order, execute, headers, scrape);
            |c.initial| + |c.jobs| ==
              |found| + if onlyAppMetrics then 0 else |set r <- found :: r.tags.appId| * |exporters|
  {
    ExpandAllCounts(order, TagsByApp(found), exporters, execute);
    DistinctAsSet(order, TagsByApp(found).Keys);
    hide ExpandAll, TagsByApp, RangesOver;
  }

  /**
   * What the call's caller sent with it reaches every instance: in every complete schedule of a pool started by
   * id or by name each found route is scraped once, with the headers of the call, and each exporter without.
   */
  lemma EveryInstanceGetsTheHeaders(setup: Setup, s: Store, matches: Route -> bool, exporters: seq<ExternalExporter>,
                                    headers: Headers, scrape: (nat, Headers) -> Outcome,
                                    steps: seq<WorkerPool.Step>, j: nat)
    requires RouteStore.WellFormed(s) && setup.Started?
    requires StartsForWeb(setup, s, matches, exporters, headers, scrape)
    requires forall i: nat, h :: scrape(i, h).NoEndpoint? ==> scrape(i, h).err.code != 0
    requires Exec(setup.pool, steps).Some? && Exec(setup.pool, steps).value.closed && j < |setup.pool.jobs|
    ensures var scrapes := Exec(setup.pool, steps).value.scrapes;
            && Scrape(j, if j < setup.pool.found then headers else None) in scrapes
            && forall other <- scrapes :: other.job == j ==>
                 other.headers == if j < setup.pool.found then headers else None
  {
    var c := setup.pool;
    assert WorkerPool.WellFormed(c);
    hide StartsForWeb;
    EachRouteOnce(c, steps);
    var state := Exec(c, steps).value;
    SchedulesKeepInv(c, steps);
    assert j in JobsOf(state.scrapes);
    var done :| done in state.scrapes && done.job == j;
    if headers != None {
      CallersHeadersIff(c, steps);
    }
  }

  /** Which jobs and reports a pool has besides the found routes. */
  lemma WhatThePoolAdds(found: seq<Route>, exporters: seq<ExternalExporter>, onlyAppMetrics: bool,
                        order: seq<string>, execute: Execute, headers: Headers,
                        scrape: (nat, Headers) -> Outcome)
    requires RangesOver(order, TagsByApp(found).Keys)
    ensures var c := PoolOf(found, exporters, onlyAppMetrics, order, execute, headers, scrape);
            var tags := TagsByApp(found);
            var all := Expansion(c.jobs[c.found..], c.initial);
            if onlyAppMetrics then all == Expansion([], [])
            else
              && (forall r <- all.routes :: exists app <- tags :: StandsForSome(r, exporters, tags[app], execute))
              && (forall part <- all.failures :: exists app <- tags :: ReportsSome(part, exporters, tags[app]))
              && (forall app <- tags :: exists one: Expansion ::
                    Includes(all, one) && AddedForApp(one, tags[app], exporters, execute))
  {
    var c := PoolOf(found, exporters, onlyAppMetrics, order, execute, headers, scrape);
    var added := ExpandAll(order, TagsByApp(found), exporters, execute);
    if !onlyAppMetrics {
      ExpandedRoutes(order, TagsByApp(found), exporters, execute);
      assert c.jobs[c.found..] == added.routes;
    }
    hide ExpandAll, TagsByApp, StandsForSome, ReportsSome, AddedForApp, Includes;
  }

  /**
   * Whatever was found, tagged or not, and in whatever order apps and workers take their turns: the pool is
   * well formed, so all that is proved of pools applies, and a merged answer has one part for each found route
   * and, unless only app metrics were asked for, one for each pair of a distinct app and an exporter.
   */
  lemma PartsOfTheAnswer(found: Slots, exporters: seq<ExternalExporter>, onlyAppMetrics: bool,
                         order: seq<string>, execute: Execute, headers: Headers,
                         scrape: (nat, Headers) -> Outcome, steps: seq<WorkerPool.Step>)
    requires found != [] && NilFree(found) && RangesOver(order, TagsByApp(Pointees(found)).Keys)
    requires forall j: nat, h :: scrape(j, h).NoEndpoint? ==> scrape(j, h).err.code != 0
    ensures var routes := Pointees(found);
            var c := PoolOf(routes, exporters, onlyAppMetrics, order, execute, headers, scrape);
            && WorkerPool.WellFormed(c)
            && (Exec(c, steps).Some? && Exec(c, steps).value.closed && AnswerOf(Exec(c, steps).value).err.None? ==>
                  |AnswerOf(Exec(c, steps).value).parts| ==
                    |found| + if onlyAppMetrics then 0 else |set r <- routes :: r.tags.appId| * |exporters|)
  {
    var routes := Pointees(found);
    var c := PoolOf(routes, exporters, onlyAppMetrics, order, execute, headers, scrape);
    AppendedAreExporters(routes, exporters, onlyAppMetrics, order, execute, headers, scrape);
    PoolSize(routes, exporters, onlyAppMetrics, order, execute, headers, scrape);
    assert c.scrape == scrape;
    hide PoolOf, ExpandAll, TagsByApp, Exec, AnswerOf;
    assert WorkerPool.WellFormed(c);
    if Exec(c, steps).Some? && Exec(c, steps).value.closed {
      EverySchedule(c, steps);
    }
  }

  lemma {:induction false} DistinctAsSet<T>(s: seq<T>, keys: set<T>)
    requires forall k :: k in s <==> k in keys
    requires forall i, j :: 0 <= i < j < |s| ==> s[i] != s[j]
    ensures |keys| == |s|
  {
    if s == [] {
      assert keys == {};
    } else {
      var n := |s| - 1;
      assert s[n] in s && s[n] in keys;
      forall k
        ensures k in s[..n] <==> k in keys - {s[n]}
      {
        assert s == s[..n] + [s[n]];
      }
      DistinctAsSet(s[..n], keys - {s[n]});
    }
  }
}
