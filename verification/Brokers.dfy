/** The service broker's endpoint table and the path that scraping takes from it. */
module Brokers {
  import opened Options
  import opened RouteModel
  import opened RoutesFetchers

  /** A row of the table, filed under its binding id, which is the primary key. */
  datatype AppEndpoint = AppEndpoint(appGuid: string, endpoint: string)

  type Rows = map<string, AppEndpoint>

  /** How a bind request ends. */
  datatype BindResult = Bound | NoDatabase | BadParameters | BadEndpoint | CreateFailed

  predicate IsPath(s: string) {
    |s| > 0 && s[0] == '/'
  }

  /** The endpoint parameter of a request: empty if there is none, nothing if it cannot be read. */
  function EndpointParam(raw: string, decode: string -> Option<string>): Option<string> {
    match decode(raw)
    case Some(endpoint) => Some(endpoint)
    case None => if |raw| > 0 then None else Some("")
  }

  /** All rows but those of one app. */
  function Cleared(rows: Rows, appGuid: string): Rows {
    map guid | guid in rows && rows[guid].appGuid != appGuid :: rows[guid]
  }

  class Broker {
    const hasDb: bool
    var rows: Rows
    /** All requests that reached a database so far. */
    ghost var history: seq<Request>

    ghost predicate Valid()
      reads this
    {
      rows == RowsAfterAll(history) && (!hasDb ==> history == [])
    }

    constructor (hasDb: bool)
      ensures Valid() && this.hasDb == hasDb && history == []
    {
      this.hasDb := hasDb;
      rows, history := map[], [];
    }

    /** The app's rows are deleted first, and stay deleted if the row cannot be created. */
    method Bind(bindingId: string, appGuid: string, raw: string, decode: string -> Option<string>)
      returns (result: BindResult)
      requires Valid() && bindingId != ""
      modifies this
      ensures Valid()
      ensures (result, rows) == BindRows(hasDb, old(rows), bindingId, appGuid, EndpointParam(raw, decode))
      ensures var request := BindRequest(bindingId, appGuid, EndpointParam(raw, decode));
              history == old(history) + if hasDb then [request] else []
    {
      ghost var request := BindRequest(bindingId, appGuid, EndpointParam(raw, decode));
      RowsAfterOne(history, request);
      if hasDb {
        history := history + [request];
      }
      if !hasDb {
        return NoDatabase;
      }
      var endpoint := "";
      match decode(raw) {
        case None =>
          if |raw| > 0 {
            return BadParameters;
          }
        case Some(value) => endpoint := value;
      }
      if endpoint != "" && endpoint[0] != '/' {
        return BadEndpoint;
      }
      rows := Cleared(rows, appGuid);
      if endpoint == "" {
        return Bound;
      }
      if bindingId in rows {
        return CreateFailed;
      }
      rows := rows[bindingId := AppEndpoint(appGuid, endpoint)];
      return Bound;
    }

    method Unbind(bindingId: string)
      requires Valid()
      modifies this
      ensures Valid()
      ensures rows == if hasDb then old(rows) - {bindingId} else old(rows)
      ensures history == old(history) + if hasDb then [UnbindRequest(bindingId)] else []
    {
      if !hasDb {
        return;
      }
      RowsAfterOne(history, UnbindRequest(bindingId));
      history := history + [UnbindRequest(bindingId)];
      rows := rows - {bindingId};
    }

    /** The endpoint of the app that the requests so far have left bound by this id. */
    method GetBinding(bindingId: string) returns (endpoint: Option<string>)
      requires Valid()
      ensures endpoint.Some? <==>
              exists app :: app in AppsAfterAll(history) && AppsAfterAll(history)[app].id == bindingId
      ensures forall app :: app in AppsAfterAll(history) && AppsAfterAll(history)[app].id == bindingId ==>
                endpoint == Some(AppsAfterAll(history)[app].endpoint)
    {
      EveryHistoryRefines(history);
      assert bindingId in rows ==> AppsAfterAll(history)[rows[bindingId].appGuid].id == bindingId;
      if !hasDb || bindingId !in rows {
        return None;
      }
      return Some(rows[bindingId].endpoint);
    }

    /**
     * The endpoint Scrape requests: the caller's default, unless the route has its own path, unless the
     * table has a row for the app. A query that matches several rows may yield any of them.
     */
    method SelectEndpoint(route: Route, metricPathDefault: string) returns (endpoint: string)
      ensures route.metricsPath != "" ==> endpoint == route.metricsPath
      ensures route.metricsPath == "" && (!hasDb || RowsOf(rows, route.tags.appId) == {}) ==>
                endpoint == metricPathDefault
      ensures route.metricsPath == "" && hasDb && RowsOf(rows, route.tags.appId) != {} ==>
                exists guid <- RowsOf(rows, route.tags.appId) :: endpoint == rows[guid].endpoint
    {
      endpoint := metricPathDefault;
      if route.metricsPath != "" {
        endpoint := route.metricsPath;
      }
      if hasDb && route.metricsPath == "" {
        var matching := RowsOf(rows, route.tags.appId);
        if matching != {} {
          var guid :| guid in matching;
          endpoint := rows[guid].endpoint;
        }
      }
    }
  }

  function RowsOf(rows: Rows, appGuid: string): set<string> {
    set guid <- rows.Keys | rows[guid].appGuid == appGuid
  }

  function BindRows(hasDb: bool, rows: Rows, bindingId: string, appGuid: string, endpoint: Option<string>)
    : (BindResult, Rows)
  {
    if !hasDb then (NoDatabase, rows)
    else if endpoint.None? then (BadParameters, rows)
    else if endpoint.value != "" && !IsPath(endpoint.value) then (BadEndpoint, rows)
    else
      var cleared := Cleared(rows, appGuid);
      if endpoint.value == "" then (Bound, cleared)
      else if bindingId in cleared then (CreateFailed, cleared)
      else (Bound, cleared[bindingId := AppEndpoint(appGuid, endpoint.value)])
  }

  // ---- the table as a map from apps ----

  datatype Binding = Binding(id: string, endpoint: string)

  type Apps = map<string, Binding>

  /** The rows are one for one the bindings of the apps, and each endpoint is a path. */
  ghost predicate Refines(rows: Rows, apps: Apps) {
    && (forall guid :: guid in rows ==>
          && rows[guid].appGuid in apps
          && apps[rows[guid].appGuid] == Binding(guid, rows[guid].endpoint)
          && IsPath(rows[guid].endpoint))
    && (forall app :: app in apps ==> apps[app].id in rows && rows[apps[app].id].appGuid == app)
  }

  /** A binding id in use by another app. */
  ghost predicate Taken(apps: Apps, bindingId: string, appGuid: string) {
    exists other :: other in apps && other != appGuid && apps[other].id == bindingId
  }

  /** Bind and unbind as they affect the apps. */
  datatype Request =
    | BindRequest(bindingId: string, appGuid: string, endpoint: Option<string>)
    | UnbindRequest(bindingId: string)

  ghost function AppsAfter(apps: Apps, request: Request): Apps {
    match request
    case BindRequest(bindingId, appGuid, endpoint) =>
      if endpoint.None? || (endpoint.value != "" && !IsPath(endpoint.value)) then apps
      else if endpoint.value == "" || Taken(apps, bindingId, appGuid) then apps - {appGuid}
      else apps[appGuid := Binding(bindingId, endpoint.value)]
    case UnbindRequest(bindingId) =>
      map app | app in apps && apps[app].id != bindingId :: apps[app]
  }

  function RowsAfter(rows: Rows, request: Request): Rows {
    match request
    case BindRequest(bindingId, appGuid, endpoint) => BindRows(true, rows, bindingId, appGuid, endpoint).1
    case UnbindRequest(bindingId) => rows - {bindingId}
  }

  lemma RequestRefines(rows: Rows, apps: Apps, request: Request)
    requires Refines(rows, apps)
    ensures Refines(RowsAfter(rows, request), AppsAfter(apps, request))
  {
    if request.BindRequest? {
      var cleared := Cleared(rows, request.appGuid);
      assert request.bindingId in cleared <==> Taken(apps, request.bindingId, request.appGuid);
    }
  }

  function RowsAfterAll(requests: seq<Request>): Rows {
    if requests == [] then map[] else RowsAfter(RowsAfterAll(requests[..|requests| - 1]), requests[|requests| - 1])
  }

  lemma RowsAfterOne(requests: seq<Request>, request: Request)
    ensures RowsAfterAll(requests + [request]) == RowsAfter(RowsAfterAll(requests), request)
  {
    assert (requests + [request])[..|requests|] == requests;
  }

  ghost function AppsAfterAll(requests: seq<Request>): Apps {
    if requests == [] then map[] else AppsAfter(AppsAfterAll(requests[..|requests| - 1]), requests[|requests| - 1])
  }

  /** In every reachable state the table is a map from app to binding: at most one row per app and per binding. */
  lemma {:induction false} EveryHistoryRefines(requests: seq<Request>)
    ensures Refines(RowsAfterAll(requests), AppsAfterAll(requests))
  {
    if requests != [] {
      var before := requests[..|requests| - 1];
      EveryHistoryRefines(before);
      RequestRefines(RowsAfterAll(before), AppsAfterAll(before), requests[|requests| - 1]);
    }
  }

  lemma AtMostOneRow(requests: seq<Request>, app: string)
    ensures var rows, apps := RowsAfterAll(requests), AppsAfterAll(requests);
            RowsOf(rows, app) == if app in apps then {apps[app].id} else {}
  {
    EveryHistoryRefines(requests);
  }

  /**
   * A bind of a path ends in a row for the app exactly when the binding id is not another app's; otherwise it
   * fails, the other app keeps its row, and this app is left with none, even if it had one.
   */
  lemma BindOutcome(requests: seq<Request>, bindingId: string, appGuid: string, path: string)
    requires IsPath(path)
    ensures var rows, apps := RowsAfterAll(requests), AppsAfterAll(requests);
            var (result, rows') := BindRows(true, rows, bindingId, appGuid, Some(path));
            && (result == Bound <==> !Taken(apps, bindingId, appGuid))
            && (result == CreateFailed <==> Taken(apps, bindingId, appGuid))
            && RowsOf(rows', appGuid) == (if result == Bound then {bindingId} else {})
            && (result == Bound ==> rows'[bindingId] == AppEndpoint(appGuid, path))
            && (forall other :: other != appGuid ==> RowsOf(rows', other) == RowsOf(rows, other))
  {
    var rows, apps := RowsAfterAll(requests), AppsAfterAll(requests);
    EveryHistoryRefines(requests);
    var cleared := Cleared(rows, appGuid);
    assert bindingId in cleared <==> Taken(apps, bindingId, appGuid);
  }

  /**
   * The other answers to a bind: without a database, with parameters that cannot be read, or with an endpoint
   * that is not a path nothing changes; an empty endpoint, or no parameters, only removes the app's rows.
   */
  lemma BindErrors(hasDb: bool, rows: Rows, bindingId: string, appGuid: string, raw: string,
                   decode: string -> Option<string>)
    ensures var (result, rows') := BindRows(hasDb, rows, bindingId, appGuid, EndpointParam(raw, decode));
            && (result == NoDatabase <==> !hasDb)
            && (result == BadParameters <==> hasDb && decode(raw) == None && raw != "")
            && (result == BadEndpoint <==>
                  hasDb && decode(raw).Some? && decode(raw).value != "" && decode(raw).value[0] != '/')
            && (result in {NoDatabase, BadParameters, BadEndpoint} ==> rows' == rows)
            && (hasDb && (decode(raw) == Some("") || (decode(raw) == None && raw == "")) ==>
                  && result == Bound
                  && forall guid :: guid in rows' <==> guid in rows && rows[guid].appGuid != appGuid)
            && (forall path :: hasDb && decode(raw) == Some("/" + path) ==>
                  BindRows(hasDb, rows, bindingId, appGuid, EndpointParam(raw, decode)) ==
                  BindRows(true, rows, bindingId, appGuid, Some("/" + path)))
            && (forall guid :: guid in rows' && guid in rows && guid != bindingId ==> rows'[guid] == rows[guid])
  {
  }

  // ---- the path of a scrape ----

  /** Unicode white space, as strings.TrimSpace sees it. */
  predicate IsSpace(c: char) {
    || c in {'\t', '\n', '\U{0B}', '\U{0C}', '\r', ' ', '\U{85}', '\U{A0}', '\U{1680}',
             '\U{2028}', '\U{2029}', '\U{202F}', '\U{205F}', '\U{3000}'}
    || '\U{2000}' <= c <= '\U{200A}'
  }

  /** White space by code points, as the White_Space property of Unicode lists it. */
  lemma IsSpaceIff(c: char)
    ensures var n := c as int;
            IsSpace(c) <==>
              || 9 <= n <= 13 || n in {32, 133, 160, 5760} || 8192 <= n <= 8202
              || n in {8232, 8233, 8239, 8287, 12288}
  {
  }

  ghost predicate AllSpaces(s: string) {
    forall i :: 0 <= i < |s| ==> IsSpace(s[i])
  }

  function TrimLeft(s: string): string {
    if s != "" && IsSpace(s[0]) then TrimLeft(s[1..]) else s
  }

  function TrimRight(s: string): string {
    if s != "" && IsSpace(s[|s| - 1]) then TrimRight(s[..|s| - 1]) else s
  }

  /** The default path of a request: the trimmed parameter, or /metrics, with a leading slash. */
  function DefaultPath(param: string): string {
    var trimmed := TrimRight(TrimLeft(param));
    if trimmed == "" then "/metrics" else if IsPath(trimmed) then trimmed else "/" + trimmed
  }

  lemma {:induction false} TrimmedLeft(before: string, s: string)
    requires AllSpaces(before) && (s == "" || !IsSpace(s[0]))
    ensures TrimLeft(before + s) == s
  {
    if before == "" {
      assert before + s == s;
    } else {
      TrimmedLeft(before[1..], s);
      assert (before + s)[1..] == before[1..] + s;
    }
  }

  lemma {:induction false} TrimmedRight(s: string, after: string)
    requires AllSpaces(after) && (s == "" || !IsSpace(s[|s| - 1]))
    ensures TrimRight(s + after) == s
  {
    if after == "" {
      assert s + after == s;
    } else {
      TrimmedRight(s, after[..|after| - 1]);
      assert (s + after)[..|s + after| - 1] == s + after[..|after| - 1];
    }
  }

  /**
   * Of the parameter only what is between white space counts: nothing means /metrics, and a slash is put in
   * front where there is none.
   */
  lemma DefaultPathOf(before: string, path: string, after: string)
    requires AllSpaces(before) && AllSpaces(after)
    requires path != "" ==> !IsSpace(path[0]) && !IsSpace(path[|path| - 1])
    ensures DefaultPath(before + path + after) ==
            if path == "" then "/metrics" else if path[0] == '/' then path else "/" + path
  {
    if path == "" {
      assert before + path + after == (before + after) + "";
      TrimmedLeft(before + after, "");
    } else {
      assert before + path + after == before + (path + after);
      TrimmedLeft(before, path + after);
      TrimmedRight(path, after);
    }
  }

  method NormalisePath(param: string) returns (metricPathDefault: string)
    ensures IsPath(metricPathDefault) && metricPathDefault == DefaultPath(param)
  {
    metricPathDefault := TrimRight(TrimLeft(param));
    if metricPathDefault == "" {
      metricPathDefault := "/metrics";
    }
    if metricPathDefault[0] != '/' {
      metricPathDefault := "/" + metricPathDefault;
    }
  }

  /** The endpoint chosen for a route when the table is that of a history of requests. */
  ghost function ChosenEndpoint(requests: seq<Request>, route: Route, metricPathDefault: string): string {
    var apps := AppsAfterAll(requests);
    if route.metricsPath != "" then route.metricsPath
    else if route.tags.appId in apps then apps[route.tags.appId].endpoint
    else metricPathDefault
  }

  /**
   * With the table of any history, the chosen endpoint starts with a slash exactly when the route has no path
   * of its own or that path does; so it does for every route made from a bus message.
   */
  lemma ChosenEndpointIsAPath(requests: seq<Request>, route: Route, metricPathDefault: string, m: Message)
    requires IsPath(metricPathDefault)
    ensures IsPath(ChosenEndpoint(requests, route, metricPathDefault)) <==>
            route.metricsPath == "" || IsPath(route.metricsPath)
    ensures IsPath(ChosenEndpoint(requests, MakeRoute(m), metricPathDefault))
  {
    EveryHistoryRefines(requests);
  }

  /** Scraping as a whole: normalise the parameter, then select with the broker's table, if there is one. */
  method ScrapePath(broker: Broker, route: Route, param: string) returns (endpoint: string)
    requires broker.Valid()
    ensures endpoint == ChosenEndpoint(broker.history, route, DefaultPath(param))
    ensures IsPath(endpoint) <==> route.metricsPath == "" || IsPath(route.metricsPath)
  {
    var metricPathDefault := NormalisePath(param);
    endpoint := broker.SelectEndpoint(route, metricPathDefault);
    AtMostOneRow(broker.history, route.tags.appId);
    EveryHistoryRefines(broker.history);
  }
}
