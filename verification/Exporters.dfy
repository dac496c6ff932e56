/** External exporters: each found app is given one extra route per configured exporter. */
module Exporters {
  import opened Options
  import opened RouteModel
  import opened RouteStore
  import opened Labels
  import opened WorkerPool
  import opened Permutations

  datatype ValueTemplate = ValueTemplate(raw: string, parsed: bool)

  datatype ExternalExporter = ExternalExporter(
    name: string, host: string, metricsPath: string, isTls: bool, params: map<string, seq<ValueTemplate>>)

  /** Template execution: the text for these tags, or nothing if it fails. */
  type Execute = (string, Tags) -> Option<string>

  function ResolveTags(vt: ValueTemplate, tags: Tags, execute: Execute): Option<string> {
    if vt.parsed then execute(vt.raw, tags) else Some(vt.raw)
  }

  /** No parameter template of the exporter fails on these tags. */
  ghost predicate Resolvable(params: map<string, seq<ValueTemplate>>, tags: Tags, execute: Execute) {
    forall key :: key in params ==> ResolvableAll(params[key], tags, execute)
  }

  ghost predicate ResolvableAll(values: seq<ValueTemplate>, tags: Tags, execute: Execute) {
    forall vt <- values :: ResolveTags(vt, tags, execute).Some?
  }

  /** `urlValues` is `params` with every template replaced by its text. */
  ghost predicate Resolves(params: map<string, seq<ValueTemplate>>, tags: Tags, execute: Execute,
                           urlValues: map<string, seq<string>>)
  {
    && urlValues.Keys == params.Keys
    && forall key :: key in params ==> ResolvesAll(params[key], tags, execute, urlValues[key])
  }

  ghost predicate ResolvesAll(values: seq<ValueTemplate>, tags: Tags, execute: Execute, texts: seq<string>) {
    && |texts| == |values|
    && forall i :: 0 <= i < |values| ==> ResolveTags(values[i], tags, execute) == Some(texts[i])
  }

  method ResolveValues(values: seq<ValueTemplate>, tags: Tags, execute: Execute) returns (texts: Option<seq<string>>)
    ensures texts.Some? <==> ResolvableAll(values, tags, execute)
    ensures texts.Some? ==> ResolvesAll(values, tags, execute, texts.value)
  {
    var finalValues := [];
    var i := 0;
    while i < |values|
      invariant 0 <= i <= |values| == |finalValues| + |values| - i
      invariant ResolvesAll(values[..i], tags, execute, finalValues)
    {
      var text := ResolveTags(values[i], tags, execute);
      if text == None {
        return None;
      }
      finalValues := finalValues + [text.value];
      i := i + 1;
    }
    assert forall vt <- values :: exists j :: 0 <= j < |values| && values[j] == vt;
    return Some(finalValues);
  }

  /** Succeeds exactly when every template does, in whatever order the map is ranged over. */
  method ParamsToURLValues(params: map<string, seq<ValueTemplate>>, tags: Tags, execute: Execute)
    returns (urlValues: Option<map<string, seq<string>>>)
    ensures urlValues.Some? <==> Resolvable(params, tags, execute)
    ensures urlValues.Some? ==> Resolves(params, tags, execute, urlValues.value)
  {
    hide ResolvableAll, ResolvesAll;
    var urlValue: map<string, seq<string>> := map[];
    var rest := params.Keys;
    while rest != {}
      invariant rest <= params.Keys && urlValue.Keys == params.Keys - rest
      invariant forall key :: key in urlValue ==>
                  ResolvableAll(params[key], tags, execute) && ResolvesAll(params[key], tags, execute, urlValue[key])
    {
      var key :| key in rest;
      var finalValues := ResolveValues(params[key], tags, execute);
      if finalValues == None {
        return None;
      }
      urlValue := urlValue[key := finalValues.value];
      rest := rest - {key};
    }
    return Some(urlValue);
  }

  function ResolvedText(vt: ValueTemplate, tags: Tags, execute: Execute): string {
    match ResolveTags(vt, tags, execute)
    case Some(text) => text
    case None => ""
  }

  function UrlValues(params: map<string, seq<ValueTemplate>>, tags: Tags, execute: Execute): map<string, seq<string>> {
    map key | key in params :: Texts(params[key], tags, execute)
  }

  function Texts(values: seq<ValueTemplate>, tags: Tags, execute: Execute): seq<string> {
    seq(|values|, i requires 0 <= i < |values| => ResolvedText(values[i], tags, execute))
  }

  lemma ResolvesIsUnique(params: map<string, seq<ValueTemplate>>, tags: Tags, execute: Execute,
                         urlValues: map<string, seq<string>>)
    requires Resolves(params, tags, execute, urlValues)
    ensures urlValues == UrlValues(params, tags, execute)
  {
    forall key | key in params
      ensures urlValues[key] == Texts(params[key], tags, execute)
    {
      assert ResolvesAll(params[key], tags, execute, urlValues[key]);
    }
  }

  /** The route of an exporter for an app, if its parameters resolve. */
  ghost function RouteOf(ee: ExternalExporter, tags: Tags, execute: Execute): Option<Route> {
    if Resolvable(ee.params, tags, execute) then
      Some(Route(ee.name, tags, "", ee.host, ee.isTls, 0, UrlValues(ee.params, tags, execute), ee.metricsPath, ee.host))
    else None
  }

  method ToRoute(ee: ExternalExporter, tags: Tags, execute: Execute) returns (route: Option<Route>)
    ensures route == RouteOf(ee, tags, execute)
  {
    var urlValues := ParamsToURLValues(ee.params, tags, execute);
    if urlValues == None {
      return None;
    }
    ResolvesIsUnique(ee.params, tags, execute, urlValues.value);
    return Some(Route(ee.name, tags, "", ee.host, ee.isTls, 0, urlValues.value, ee.metricsPath, ee.host));
  }

  /** The tags an exporter route gets from the app it stands for. */
  function ExporterTags(t: Tags): Tags {
    Tags(PROCESS_EXTERNAL_EXPORTER, "", "promfetcher", "", t.spaceName, t.organizationId, "", t.organizationName,
         t.sourceId, t.appId, t.appName, t.spaceId)
  }

  /** The metric reporting that an exporter could not be set up for an app. */
  function FailureFamilies(tags: Tags, ee: ExternalExporter): Families {
    map["promfetcher_scrape_external_exporter_error" := [Sample(FailureLabels(tags, ee), "1")]]
  }

  function FailureLabels(tags: Tags, ee: ExternalExporter): seq<LabelPair> {
    [Pair("app_id", tags.appId), Pair("app_name", tags.appName), Pair("index", tags.instanceId),
     Pair("instance", ee.host), Pair("instance_id", tags.instanceId), Pair("name", ee.name),
     Pair("organization_id", tags.organizationId), Pair("organization_name", tags.organizationName),
     Pair("space_id", tags.spaceId), Pair("space_name", tags.spaceName)]
  }

  /** The tags of each found app; of several instances the last one counts. */
  function TagsByApp(found: seq<Route>): (tags: map<string, Tags>)
    ensures tags.Keys == set r <- found :: r.tags.appId
    ensures forall app :: app in tags ==> tags[app].appId == app
  {
    if found == [] then map[]
    else
      var last := found[|found| - 1];
      assert found == found[..|found| - 1] + [last];
      TagsByApp(found[..|found| - 1])[last.tags.appId := last.tags]
  }

  /** Routes added, and failures reported, for the first exporters of one app. */
  datatype Expansion = Expansion(routes: seq<Route>, failures: seq<Families>)

  ghost function ExpandApp(tags: Tags, exporters: seq<ExternalExporter>, execute: Execute): Expansion {
    if exporters == [] then Expansion([], [])
    else
      var before := ExpandApp(tags, exporters[..|exporters| - 1], execute);
      var ee := exporters[|exporters| - 1];
      match RouteOf(ee, tags, execute)
      case Some(route) => before.(routes := before.routes + [route])
      case None => before.(failures := before.failures + [FailureFamilies(tags, ee)])
  }

  ghost function ExpandNamed(app: string, tags: map<string, Tags>, exporters: seq<ExternalExporter>,
                             execute: Execute): Expansion
  {
    if app in tags then ExpandApp(ExporterTags(tags[app]), exporters, execute) else Expansion([], [])
  }

  ghost function ExpandAll(order: seq<string>, tags: map<string, Tags>, exporters: seq<ExternalExporter>,
                           execute: Execute): Expansion
  {
    if order == [] then Expansion([], [])
    else
      var before := ExpandAll(order[..|order| - 1], tags, exporters, execute);
      var one := ExpandNamed(order[|order| - 1], tags, exporters, execute);
      Expansion(before.routes + one.routes, before.failures + one.failures)
  }

  /** `order` is one order in which a range over a map with these keys may go. */
  ghost predicate RangesOver(order: seq<string>, keys: set<string>) {
    && (forall k :: k in order <==> k in keys)
    && (forall i, j :: 0 <= i < j < |order| ==> order[i] != order[j])
  }

  /** The routes behind the pointers of a found slice. */
  function Pointees(found: Slots): seq<Route>
    requires NilFree(found)
  {
    seq(|found|, i requires 0 <= i < |found| => found[i].value)
  }

  /** Nothing if a nil pointer is met, which the source dereferences. */
  method CollectTags(found: Slots) returns (mapTagsRoute: Option<map<string, Tags>>)
    ensures mapTagsRoute == if NilFree(found) then Some(TagsByApp(Pointees(found))) else None
  {
    var tags := map[];
    var n := 0;
    while n < |found|
      invariant 0 <= n <= |found| && NilFree(found[..n]) && tags == TagsByApp(Pointees(found[..n]))
    {
      if found[n] == None {
        return None;
      }
      tags := tags[found[n].value.tags.appId := found[n].value.tags];
      assert Pointees(found[..n + 1])[..n] == Pointees(found[..n]);
      n := n + 1;
    }
    assert found[..|found|] == found;
    return Some(tags);
  }

  /** Some order in which a range over a map with these keys may go. */
  method RangeOver(keys: set<string>) returns (order: seq<string>)
    ensures RangesOver(order, keys)
  {
    order := [];
    var rest := keys;
    while rest != {}
      invariant rest <= keys && RangesOver(order, keys - rest)
    {
      var key :| key in rest;
      order := order + [key];
      rest := rest - {key};
    }
  }

  /** The inner set-up loop: all exporters for one app. */
  method ExpandOne(tags: Tags, exporters: seq<ExternalExporter>, execute: Execute)
    returns (routes: seq<Route>, failures: seq<Families>)
    ensures Expansion(routes, failures) == ExpandApp(tags, exporters, execute)
  {
    hide RouteOf;
    routes, failures := [], [];
    var e := 0;
    while e < |exporters|
      invariant 0 <= e <= |exporters| && Expansion(routes, failures) == ExpandApp(tags, exporters[..e], execute)
    {
      assert exporters[..e + 1][..e] == exporters[..e];
      var route := ToRoute(exporters[e], tags, execute);
      match route {
        case None => failures := failures + [FailureFamilies(tags, exporters[e])];
        case Some(r) => routes := routes + [r];
      }
      e := e + 1;
    }
    assert exporters[..|exporters|] == exporters;
  }

  /** The set-up loops of Metrics: exporter routes are appended to the found ones. */
  method Expand(found: seq<Route>, mapTagsRoute: map<string, Tags>, exporters: seq<ExternalExporter>,
                onlyAppMetrics: bool, order: seq<string>, execute: Execute)
    returns (routes: seq<Route>, metricsUnmerged: seq<Families>)
    requires RangesOver(order, mapTagsRoute.Keys)
    ensures var added := if onlyAppMetrics then Expansion([], [])
                         else ExpandAll(order, mapTagsRoute, exporters, execute);
            routes == found + added.routes && metricsUnmerged == added.failures
  {
    hide ExpandApp;
    routes, metricsUnmerged := found, [];
    if !onlyAppMetrics && |exporters| > 0 {
      var a := 0;
      while a < |order|
        invariant 0 <= a <= |order|
        invariant var done := ExpandAll(order[..a], mapTagsRoute, exporters, execute);
                  routes == found + done.routes && metricsUnmerged == done.failures
      {
        assert order[a] in mapTagsRoute;
        assert order[..a + 1][..a] == order[..a];
        var more, failures := ExpandOne(ExporterTags(mapTagsRoute[order[a]]), exporters, execute);
        routes, metricsUnmerged := routes + more, metricsUnmerged + failures;
        a := a + 1;
      }
      assert order[..|order|] == order;
    } else if !onlyAppMetrics {
      NoExporters(order, mapTagsRoute, execute);
    }
  }

  lemma {:induction false} NoExporters(order: seq<string>, tags: map<string, Tags>, execute: Execute)
    ensures ExpandAll(order, tags, [], execute) == Expansion([], [])
  {
    if order != [] {
      NoExporters(order[..|order| - 1], tags, execute);
    }
  }

  lemma {:induction false} ExpandAppCounts(tags: Tags, exporters: seq<ExternalExporter>, execute: Execute)
    requires tags.processType == PROCESS_EXTERNAL_EXPORTER
    ensures var one := ExpandApp(tags, exporters, execute);
            && |one.routes| + |one.failures| == |exporters|
            && forall r <- one.routes :: IsExporter(r) && r.tags == tags
  {
    if exporters != [] {
      ExpandAppCounts(tags, exporters[..|exporters| - 1], execute);
    }
  }

  /**
   * Every app is combined with every exporter: converted routes and reported failures together are the apps
   * times the exporters.
   */
  lemma {:induction false} ExpandAllCounts(order: seq<string>, tags: map<string, Tags>,
                                           exporters: seq<ExternalExporter>, execute: Execute)
    requires forall app <- order :: app in tags
    ensures var all := ExpandAll(order, tags, exporters, execute);
            |all.routes| + |all.failures| == |order| * |exporters|
  {
    hide ExpandApp, ExporterTags;
    if order != [] {
      var n := |order| - 1;
      ExpandAllCounts(order[..n], tags, exporters, execute);
      ExportersAreTagged(tags[order[n]]);
      ExpandAppCounts(ExporterTags(tags[order[n]]), exporters, execute);
      assert |order| * |exporters| == n * |exporters| + |exporters|;
    }
  }

  lemma ExportersAreTagged(tags: Tags)
    ensures ExporterTags(tags).processType == PROCESS_EXTERNAL_EXPORTER
  {
  }

  /** All added routes are tagged as exporters. */
  lemma {:induction false} ExpandAllTags(order: seq<string>, tags: map<string, Tags>,
                                         exporters: seq<ExternalExporter>, execute: Execute)
    ensures forall r <- ExpandAll(order, tags, exporters, execute).routes :: IsExporter(r)
  {
    hide ExpandApp, ExporterTags;
    if order != [] {
      var n := |order| - 1;
      ExpandAllTags(order[..n], tags, exporters, execute);
      if order[n] in tags {
        ExportersAreTagged(tags[order[n]]);
        ExpandAppCounts(ExporterTags(tags[order[n]]), exporters, execute);
      }
    }
  }

  lemma {:induction false} ExpandWithout(order: seq<string>, i: nat, tags: map<string, Tags>,
                                         exporters: seq<ExternalExporter>, execute: Execute)
    requires i < |order|
    ensures var all := ExpandAll(order, tags, exporters, execute);
            var rest := ExpandAll(Without(order, i), tags, exporters, execute);
            var one := ExpandNamed(order[i], tags, exporters, execute);
            && multiset(all.routes) == multiset(rest.routes) + multiset(one.routes)
            && multiset(all.failures) == multiset(rest.failures) + multiset(one.failures)
  {
    hide ExpandNamed, ExpandAll, Without;
    var n, rest := |order| - 1, Without(order, i);
    ExpandAllLast(order, tags, exporters, execute);
    if i == n {
      assert rest == order[..n] by { WithoutLast(order); }
    } else {
      ExpandWithout(order[..n], i, tags, exporters, execute);
      WithoutKeepsLast(order, i);
      ExpandAllLast(rest, tags, exporters, execute);
    }
  }

  lemma ExpandAllLast(order: seq<string>, tags: map<string, Tags>, exporters: seq<ExternalExporter>, execute: Execute)
    requires order != []
    ensures var all, before := ExpandAll(order, tags, exporters, execute),
                               ExpandAll(order[..|order| - 1], tags, exporters, execute);
            var one := ExpandNamed(order[|order| - 1], tags, exporters, execute);
            && multiset(all.routes) == multiset(before.routes) + multiset(one.routes)
            && multiset(all.failures) == multiset(before.failures) + multiset(one.failures)
  {
  }

  /** The order in which the apps are ranged over does not matter, except to the order of the routes. */
  lemma {:induction false} ExpansionIgnoresOrder(order: seq<string>, order': seq<string>, tags: map<string, Tags>,
                                                 exporters: seq<ExternalExporter>, execute: Execute)
    requires multiset(order) == multiset(order')
    ensures var all, all' := ExpandAll(order, tags, exporters, execute), ExpandAll(order', tags, exporters, execute);
            multiset(all.routes) == multiset(all'.routes) && multiset(all.failures) == multiset(all'.failures)
  {
    hide ExpandNamed;
    SameElements(order, order');
    if order != [] {
      ExpandAllLast(order, tags, exporters, execute);
      var i := MatchLast(order, order');
      ExpansionIgnoresOrder(order[..|order| - 1], Without(order', i), tags, exporters, execute);
      ExpandWithout(order', i, tags, exporters, execute);
    }
  }

  // ---- what an exporter route is ----

  /** Each parameter value is the raw text, or what its template yields for these tags if it is one. */
  ghost predicate ParamsStandFor(urlParams: map<string, seq<string>>, ee: ExternalExporter, tags: Tags,
                                 execute: Execute)
  {
    && urlParams.Keys == ee.params.Keys
    && forall key :: key in ee.params ==>
         && |urlParams[key]| == |ee.params[key]|
         && forall i :: 0 <= i < |ee.params[key]| ==>
              ValueStandsFor(urlParams[key][i], ee.params[key][i], tags, execute)
  }

  ghost predicate ValueStandsFor(value: string, vt: ValueTemplate, tags: Tags, execute: Execute) {
    if vt.parsed then execute(vt.raw, tags) == Some(value) else value == vt.raw
  }

  /** The tags of an exporter route: the app's owner, and nothing of its instance. */
  ghost predicate TagsStandFor(tags: Tags, app: Tags) {
    && tags.processType == "external_exporter" && tags.component == "promfetcher"
    && tags.appId == app.appId && tags.appName == app.appName && tags.sourceId == app.sourceId
    && tags.organizationId == app.organizationId && tags.organizationName == app.organizationName
    && tags.spaceId == app.spaceId && tags.spaceName == app.spaceName
    && tags.instanceId == "" && tags.processInstanceId == "" && tags.processId == ""
  }

  /** The route by which an exporter is scraped for an app. */
  ghost predicate StandsFor(r: Route, ee: ExternalExporter, app: Tags, execute: Execute) {
    && TagsStandFor(r.tags, app)
    && r.address == ee.host && r.host == ee.host && r.privateInstanceId == ee.name && r.tls == ee.isTls
    && r.metricsPath == ee.metricsPath && r.serverCertDomainSan == "" && r.ttl == 0
    && ParamsStandFor(r.urlParams, ee, r.tags, execute)
  }

  lemma TextsStandFor(values: seq<ValueTemplate>, tags: Tags, execute: Execute)
    requires ResolvableAll(values, tags, execute)
    ensures forall i :: 0 <= i < |values| ==> ValueStandsFor(Texts(values, tags, execute)[i], values[i], tags, execute)
  {
    assert forall i :: 0 <= i < |values| ==> values[i] in values;
  }

  lemma TagsStandForIff(tags: Tags, app: Tags)
    ensures TagsStandFor(tags, app) <==> tags == ExporterTags(app)
  {
  }

  lemma ConvertsForIff(ee: ExternalExporter, app: Tags, execute: Execute)
    ensures ConvertsFor(ee, app, execute) <==> Resolvable(ee.params, ExporterTags(app), execute)
  {
    hide ExporterTags, TagsStandFor;
    var stand := ExporterTags(app);
    forall tags
      ensures TagsStandFor(tags, app) <==> tags == stand
    {
      TagsStandForIff(tags, app);
    }
    if ConvertsFor(ee, app, execute) {
      forall key, vt | key in ee.params && vt in ee.params[key]
        ensures ResolveTags(vt, stand, execute).Some?
      {
        assert TagsStandFor(stand, app);
      }
    } else {
      var key, vt, tags :| key in ee.params && vt in ee.params[key] && TagsStandFor(tags, app) && vt.parsed &&
                           execute(vt.raw, tags).None?;
      assert !ResolvableAll(ee.params[key], stand, execute);
    }
  }

  lemma RouteStandsFor(ee: ExternalExporter, app: Tags, execute: Execute)
    ensures RouteOf(ee, ExporterTags(app), execute).Some? <==> ConvertsFor(ee, app, execute)
    ensures ConvertsFor(ee, app, execute) ==>
              StandsFor(RouteOf(ee, ExporterTags(app), execute).value, ee, app, execute)
  {
    var tags := ExporterTags(app);
    ConvertsForIff(ee, app, execute);
    TagsStandForIff(tags, app);
    hide ConvertsFor, TagsStandFor, ValueStandsFor, ResolvableAll;
    if Resolvable(ee.params, tags, execute) {
      forall key | key in ee.params
        ensures forall i :: 0 <= i < |ee.params[key]| ==>
                  ValueStandsFor(Texts(ee.params[key], tags, execute)[i], ee.params[key][i], tags, execute)
      {
        TextsStandFor(ee.params[key], tags, execute);
      }
    }
  }

  /** Every template of the exporter's parameters can be executed on the tags that stand for the app. */
  ghost predicate ConvertsFor(ee: ExternalExporter, app: Tags, execute: Execute) {
    forall key, vt, tags :: key in ee.params && vt in ee.params[key] && TagsStandFor(tags, app) && vt.parsed ==>
      execute(vt.raw, tags).Some?
  }

  /** The report of a failed conversion: one metric of value one, with the app's owner and the exporter. */
  ghost predicate ReportsFailure(part: Families, ee: ExternalExporter, app: Tags) {
    && part.Keys == {"promfetcher_scrape_external_exporter_error"}
    && |part["promfetcher_scrape_external_exporter_error"]| == 1
    && var sample := part["promfetcher_scrape_external_exporter_error"][0];
       && sample.payload == "1"
       && forall name :: Values(sample.labels, name) == FailureValue(ee, app, name)
  }

  function FailureValue(ee: ExternalExporter, app: Tags, name: Option<string>): seq<string> {
    match name
    case None => []
    case Some("organization_id") => [app.organizationId]
    case Some("space_id") => [app.spaceId]
    case Some("app_id") => [app.appId]
    case Some("organization_name") => [app.organizationName]
    case Some("space_name") => [app.spaceName]
    case Some("app_name") => [app.appName]
    case Some("index") => [""]
    case Some("instance_id") => [""]
    case Some("instance") => [ee.host]
    case Some("name") => [ee.name]
    case _ => []
  }

  const FAILURE_NAMES := [
    "app_id", "app_name", "index", "instance", "instance_id", "name", "organization_id", "organization_name",
    "space_id", "space_name"]

  lemma FailureLabelAt(ee: ExternalExporter, app: Tags, k: nat)
    requires k < 10
    ensures var labels := FailureLabels(ExporterTags(app), ee);
            && |labels| == 10 && labels[k].name == Some(FAILURE_NAMES[k])
            && FailureValue(ee, app, labels[k].name) == [labels[k].value]
  {
    if k == 0 {
    } else if k == 1 {
    } else if k == 2 {
    } else if k == 3 {
    } else if k == 4 {
    } else if k == 5 {
    } else if k == 6 {
    } else if k == 7 {
    } else if k == 8 {
    } else {
    }
  }

  lemma FailureNames(ee: ExternalExporter, app: Tags)
    ensures forall j, k :: 0 <= j < k < 10 ==> FAILURE_NAMES[j] != FAILURE_NAMES[k]
    ensures forall name: Option<string> :: name.None? || name.value !in FAILURE_NAMES ==>
              FailureValue(ee, app, name) == []
  {
    assert FAILURE_NAMES[0] == "app_id" && FAILURE_NAMES[1] == "app_name" && FAILURE_NAMES[2] == "index";
    assert FAILURE_NAMES[3] == "instance" && FAILURE_NAMES[4] == "instance_id" && FAILURE_NAMES[5] == "name";
    assert FAILURE_NAMES[6] == "organization_id" && FAILURE_NAMES[7] == "organization_name";
    assert FAILURE_NAMES[8] == "space_id" && FAILURE_NAMES[9] == "space_name";
  }

  lemma FailureLabelValues(ee: ExternalExporter, app: Tags, name: Option<string>)
    ensures Values(FailureLabels(ExporterTags(app), ee), name) == FailureValue(ee, app, name)
  {
    hide FailureLabels, FailureValue, Values, ExporterTags;
    var labels := FailureLabels(ExporterTags(app), ee);
    FailureNames(ee, app);
    forall k: nat | k < 10
      ensures |labels| == 10 && labels[k].name == Some(FAILURE_NAMES[k])
      ensures FailureValue(ee, app, labels[k].name) == [labels[k].value]
    {
      FailureLabelAt(ee, app, k);
    }
    FailureLabelAt(ee, app, 0);
    if k: nat :| k < 10 && labels[k].name == name {
      ValuesOfDistinct(labels, k);
    } else {
      ValuesOfNone(labels, name);
    }
  }

  lemma FailureIsReported(ee: ExternalExporter, app: Tags)
    ensures ReportsFailure(FailureFamilies(ExporterTags(app), ee), ee, app)
  {
    hide FailureLabels, FailureValue, Values, ExporterTags;
    forall name: Option<string>
      ensures Values(FailureLabels(ExporterTags(app), ee), name) == FailureValue(ee, app, name)
    {
      FailureLabelValues(ee, app, name);
    }
  }

  /** The route stands for one of the exporters. */
  ghost predicate StandsForSome(r: Route, exporters: seq<ExternalExporter>, app: Tags, execute: Execute) {
    exists ee <- exporters :: StandsFor(r, ee, app, execute)
  }

  ghost predicate ReportsSome(part: Families, exporters: seq<ExternalExporter>, app: Tags) {
    exists ee <- exporters :: ReportsFailure(part, ee, app)
  }

  /** What is added for one app: for each exporter its route or its report, and nothing else. */
  ghost predicate AddedForApp(one: Expansion, app: Tags, exporters: seq<ExternalExporter>, execute: Execute) {
    && (forall r <- one.routes :: StandsForSome(r, exporters, app, execute))
    && (forall part <- one.failures :: ReportsSome(part, exporters, app))
    && (forall ee <- exporters :: ConvertsFor(ee, app, execute) ==>
          exists r <- one.routes :: StandsFor(r, ee, app, execute))
    && (forall ee <- exporters :: !ConvertsFor(ee, app, execute) ==>
          exists part <- one.failures :: ReportsFailure(part, ee, app))
  }

  lemma OneMoreRoute(one: Expansion, app: Tags, exporters: seq<ExternalExporter>, ee: ExternalExporter,
                     execute: Execute, r: Route)
    requires AddedForApp(one, app, exporters, execute)
    requires ConvertsFor(ee, app, execute) && StandsFor(r, ee, app, execute)
    ensures AddedForApp(one.(routes := one.routes + [r]), app, exporters + [ee], execute)
  {
    hide StandsFor, ReportsFailure, ConvertsFor;
    assert ee in exporters + [ee] && r in one.routes + [r];
    forall e <- exporters
      ensures e in exporters + [ee]
    {
    }
    forall s <- one.routes
      ensures s in one.routes + [r] && StandsForSome(s, exporters + [ee], app, execute)
    {
    }
    forall part <- one.failures
      ensures ReportsSome(part, exporters + [ee], app)
    {
    }
  }

  lemma OneMoreReport(one: Expansion, app: Tags, exporters: seq<ExternalExporter>, ee: ExternalExporter,
                      execute: Execute, part: Families)
    requires AddedForApp(one, app, exporters, execute)
    requires !ConvertsFor(ee, app, execute) && ReportsFailure(part, ee, app)
    ensures AddedForApp(one.(failures := one.failures + [part]), app, exporters + [ee], execute)
  {
    hide StandsFor, ReportsFailure, ConvertsFor;
    assert ee in exporters + [ee] && part in one.failures + [part];
    forall e <- exporters
      ensures e in exporters + [ee]
    {
    }
    forall r <- one.routes
      ensures StandsForSome(r, exporters + [ee], app, execute)
    {
    }
    forall other <- one.failures
      ensures other in one.failures + [part] && ReportsSome(other, exporters + [ee], app)
    {
    }
  }

  lemma {:induction false} ExpandedApp(app: Tags, exporters: seq<ExternalExporter>, execute: Execute)
    ensures AddedForApp(ExpandApp(ExporterTags(app), exporters, execute), app, exporters, execute)
  {
    hide StandsFor, ReportsFailure, ConvertsFor, RouteOf, FailureFamilies, ExporterTags;
    if exporters != [] {
      var n := |exporters| - 1;
      var ee, before := exporters[n], ExpandApp(ExporterTags(app), exporters[..n], execute);
      ExpandedApp(app, exporters[..n], execute);
      RouteStandsFor(ee, app, execute);
      FailureIsReported(ee, app);
      assert exporters == exporters[..n] + [ee];
      hide AddedForApp;
      match RouteOf(ee, ExporterTags(app), execute)
      case Some(r) => OneMoreRoute(before, app, exporters[..n], ee, execute, r);
      case None =>
        OneMoreReport(before, app, exporters[..n], ee, execute, FailureFamilies(ExporterTags(app), ee));
    }
  }

  /** The parts of an expansion that one app contributes. */
  ghost predicate Includes(all: Expansion, one: Expansion) {
    (forall r <- one.routes :: r in all.routes) && (forall part <- one.failures :: part in all.failures)
  }

  /** Which routes and reports the set-up adds: for each app what stands for it, and nothing else. */
  lemma {:induction false} ExpandedRoutes(order: seq<string>, tags: map<string, Tags>, exporters: seq<ExternalExporter>,
                                          execute: Execute)
    requires forall app <- order :: app in tags
    ensures var all := ExpandAll(order, tags, exporters, execute);
            && (forall r <- all.routes :: exists app <- order :: StandsForSome(r, exporters, tags[app], execute))
            && (forall part <- all.failures :: exists app <- order :: ReportsSome(part, exporters, tags[app]))
            && (forall app <- order :: exists one: Expansion ::
                  Includes(all, one) && AddedForApp(one, tags[app], exporters, execute))
  {
    hide StandsForSome, ReportsSome, ExpandApp, ExporterTags;
    if order != [] {
      var n := |order| - 1;
      var all, before := ExpandAll(order, tags, exporters, execute), ExpandAll(order[..n], tags, exporters, execute);
      var one := ExpandApp(ExporterTags(tags[order[n]]), exporters, execute);
      ExpandedRoutes(order[..n], tags, exporters, execute);
      ExpandedApp(tags[order[n]], exporters, execute);
      assert order == order[..n] + [order[n]];
      assert Includes(all, one) && AddedForApp(one, tags[order[n]], exporters, execute);
      forall app <- order[..n]
        ensures exists some: Expansion :: Includes(all, some) && AddedForApp(some, tags[app], exporters, execute)
      {
        var some: Expansion :| Includes(before, some) && AddedForApp(some, tags[app], exporters, execute);
        assert Includes(all, some);
      }
    }
  }

  function Then(one: Expansion, next: Expansion): Expansion {
    Expansion(one.routes + next.routes, one.failures + next.failures)
  }

  /** The exporters of an app are converted in the order of the configuration. */
  lemma {:induction false} ExpandAppInTurn(tags: Tags, exporters: seq<ExternalExporter>, more: seq<ExternalExporter>,
                                           execute: Execute)
    ensures ExpandApp(tags, exporters + more, execute) ==
            Then(ExpandApp(tags, exporters, execute), ExpandApp(tags, more, execute))
  {
    hide RouteOf, FailureFamilies;
    if more == [] {
      assert exporters + more == exporters;
    } else {
      var n := |more| - 1;
      ExpandAppInTurn(tags, exporters, more[..n], execute);
      assert (exporters + more)[..|exporters + more| - 1] == exporters + more[..n];
    }
  }

  /** The apps are expanded in the order of the range. */
  lemma {:induction false} ExpandAllInTurn(order: seq<string>, more: seq<string>, tags: map<string, Tags>,
                                           exporters: seq<ExternalExporter>, execute: Execute)
    ensures ExpandAll(order + more, tags, exporters, execute) ==
            Then(ExpandAll(order, tags, exporters, execute), ExpandAll(more, tags, exporters, execute))
  {
    hide ExpandNamed;
    if more == [] {
      assert order + more == order;
    } else {
      var n := |more| - 1;
      ExpandAllInTurn(order, more[..n], tags, exporters, execute);
      assert (order + more)[..|order + more| - 1] == order + more[..n];
    }
  }

  /** Of several instances of an app the last one gives the tags. */
  lemma {:induction false} LastInstanceGivesTheTags(found: seq<Route>, i: nat)
    requires i < |found| && forall j :: i < j < |found| ==> found[j].tags.appId != found[i].tags.appId
    ensures found[i].tags.appId in TagsByApp(found)
    ensures TagsByApp(found)[found[i].tags.appId] == found[i].tags
  {
    if i < |found| - 1 {
      LastInstanceGivesTheTags(found[..|found| - 1], i);
    }
  }
}
