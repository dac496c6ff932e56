/** Rewriting the labels of scraped metrics with the tags of the route they were scraped from. */
module Labels {
  import opened Options
  import opened RouteModel

  datatype LabelPair = LabelPair(name: Option<string>, value: string)

  const RESERVED := [
    "organization_id", "space_id", "app_id",
    "organization_name", "space_name", "app_name",
    "index", "instance_id", "instance"]

  predicate IsNamed(pair: LabelPair, names: seq<string>) {
    pair.name.Some? && pair.name.value in names
  }

  /** The labels not named by `names`, in order. */
  function Kept(labels: seq<LabelPair>, names: seq<string>): seq<LabelPair> {
    if labels == [] then []
    else
      var last := labels[|labels| - 1];
      Kept(labels[..|labels| - 1], names) + if IsNamed(last, names) then [] else [last]
  }

  method CleanMetricLabels(labels: seq<LabelPair>, names: seq<string>) returns (finalLabels: seq<LabelPair>)
    ensures finalLabels == Kept(labels, names)
  {
    finalLabels := [];
    var i := 0;
    while i < |labels|
      invariant 0 <= i <= |labels| && finalLabels == Kept(labels[..i], names)
    {
      var pair := labels[i];
      var toAdd := true;
      var j := 0;
      while j < |names|
        invariant 0 <= j <= |names| && toAdd
        invariant pair.name.Some? ==> pair.name.value !in names[..j]
      {
        if pair.name.Some? && pair.name.value == names[j] {
          toAdd := false;
          break;
        }
        j := j + 1;
      }
      if toAdd {
        finalLabels := finalLabels + [pair];
      }
      assert labels[..i + 1][..i] == labels[..i];
      i := i + 1;
    }
    assert labels[..|labels|] == labels;
  }

  function Pair(name: string, value: string): LabelPair {
    LabelPair(Some(name), value)
  }

  /** The labels added for a route; those of the instance only if it has an instance id. */
  function RouteLabels(route: Route): seq<LabelPair> {
    [Pair("organization_id", route.tags.organizationId),
     Pair("space_id", route.tags.spaceId),
     Pair("app_id", route.tags.appId),
     Pair("organization_name", route.tags.organizationName),
     Pair("space_name", route.tags.spaceName),
     Pair("app_name", route.tags.appName)] +
    if route.tags.instanceId == "" then []
    else [Pair("index", route.tags.instanceId),
          Pair("instance_id", route.tags.instanceId),
          Pair("instance", route.address)]
  }

  function Relabelled(labels: seq<LabelPair>, route: Route): seq<LabelPair> {
    Kept(labels, RESERVED) + RouteLabels(route)
  }

  /** A metric behind a pointer; its label list is replaced. */
  class Metric {
    var labels: seq<LabelPair>
    const payload: string

    constructor (labels: seq<LabelPair>, payload: string)
      ensures this.labels == labels && this.payload == payload
    {
      this.labels, this.payload := labels, payload;
    }
  }

  method RelabelOne(metric: Metric, route: Route)
    modifies metric
    ensures metric.labels == Relabelled(old(metric.labels), route)
  {
    var kept := CleanMetricLabels(metric.labels, RESERVED);
    metric.labels := kept;
    metric.labels := metric.labels +
      [Pair("organization_id", route.tags.organizationId),
       Pair("space_id", route.tags.spaceId),
       Pair("app_id", route.tags.appId),
       Pair("organization_name", route.tags.organizationName),
       Pair("space_name", route.tags.spaceName),
       Pair("app_name", route.tags.appName)];
    if route.tags.instanceId != "" {
      metric.labels := metric.labels +
        [Pair("index", route.tags.instanceId),
         Pair("instance_id", route.tags.instanceId),
         Pair("instance", route.address)];
    }
  }

  /** The metrics of one family; a metric listed twice ends as if listed once. */
  method RelabelFamily(metrics: seq<Metric>, route: Route)
    modifies metrics
    ensures forall m <- metrics :: m.labels == Relabelled(old(m.labels), route)
  {
    hide Relabelled;
    var i := 0;
    while i < |metrics|
      invariant 0 <= i <= |metrics|
      invariant forall m <- metrics ::
                  m.labels == if m in metrics[..i] then Relabelled(old(m.labels), route) else old(m.labels)
    {
      var metric := metrics[i];
      assert metrics[..i + 1] == metrics[..i] + [metric];
      RelabelTwice(old(metric.labels), route, route);
      RelabelOne(metric, route);
      i := i + 1;
    }
  }

  ghost function AllMetrics(groups: map<string, seq<Metric>>): set<Metric> {
    set name, m | name in groups && m in groups[name] :: m
  }

  /** All metrics of a scrape are rewritten with its route. */
  method RelabelAll(groups: map<string, seq<Metric>>, route: Route)
    modifies AllMetrics(groups)
    ensures forall m <- AllMetrics(groups) :: m.labels == Relabelled(old(m.labels), route)
  {
    hide Relabelled;
    ghost var done: set<Metric> := {};
    var rest := groups.Keys;
    while rest != {}
      invariant done <= AllMetrics(groups) && rest <= groups.Keys
      invariant forall name, m | name in groups && name !in rest && m in groups[name] :: m in done
      invariant forall m <- AllMetrics(groups) ::
                  m.labels == if m in done then Relabelled(old(m.labels), route) else old(m.labels)
    {
      var name :| name in rest;
      forall m <- groups[name]
        ensures Relabelled(Relabelled(old(m.labels), route), route) == Relabelled(old(m.labels), route)
      {
        RelabelTwice(old(m.labels), route, route);
      }
      assert forall m <- groups[name] :: m in AllMetrics(groups);
      RelabelFamily(groups[name], route);
      done := done + set m | m in groups[name];
      rest := rest - {name};
    }
  }

  // ---- what rewriting means for each name ----

  /** The values carried by the labels of one name, in order. */
  function Values(labels: seq<LabelPair>, name: Option<string>): seq<string> {
    if labels == [] then []
    else
      var last := labels[|labels| - 1];
      Values(labels[..|labels| - 1], name) + if last.name == name then [last.value] else []
  }

  lemma KeptLast(labels: seq<LabelPair>, last: LabelPair, names: seq<string>)
    ensures Kept(labels + [last], names) == Kept(labels, names) + if IsNamed(last, names) then [] else [last]
  {
    hide IsNamed;
    assert (labels + [last])[..|labels|] == labels;
  }

  lemma {:induction false} KeptAppend(a: seq<LabelPair>, b: seq<LabelPair>, names: seq<string>)
    ensures Kept(a + b, names) == Kept(a, names) + Kept(b, names)
  {
    if b == [] {
      assert a + b == a;
    } else {
      hide IsNamed, Kept;
      var n := |b| - 1;
      var head, last := b[..n], b[n];
      assert b == head + [last];
      assert a + b == (a + head) + [last];
      KeptAppend(a, head, names);
      KeptLast(a + head, last, names);
      KeptLast(head, last, names);
    }
  }

  lemma {:induction false} ValuesAppend(a: seq<LabelPair>, b: seq<LabelPair>, name: Option<string>)
    ensures Values(a + b, name) == Values(a, name) + Values(b, name)
  {
    if b == [] {
      assert a + b == a;
    } else {
      var n := |b| - 1;
      ValuesAppend(a, b[..n], name);
      assert (a + b)[..|a| + n] == a + b[..n];
      assert (a + b)[|a| + n] == b[n] && |a + b| == |a| + n + 1;
    }
  }

  lemma {:induction false} KeptTwice(labels: seq<LabelPair>, names: seq<string>)
    ensures Kept(Kept(labels, names), names) == Kept(labels, names)
  {
    if labels != [] {
      var n := |labels| - 1;
      KeptTwice(labels[..n], names);
      if !IsNamed(labels[n], names) {
        KeptAppend(Kept(labels[..n], names), [labels[n]], names);
        assert Kept([labels[n]], names) == [labels[n]];
      } else {
        assert Kept(labels, names) == Kept(labels[..n], names);
      }
    }
  }

  lemma {:induction false} KeptNone(labels: seq<LabelPair>, names: seq<string>)
    requires forall pair <- labels :: IsNamed(pair, names)
    ensures Kept(labels, names) == []
  {
    if labels != [] {
      KeptNone(labels[..|labels| - 1], names);
    }
  }

  lemma RouteLabelsAreReserved(route: Route)
    ensures forall pair <- RouteLabels(route) :: IsNamed(pair, RESERVED)
  {
    assert RESERVED[0] == "organization_id" && RESERVED[1] == "space_id" && RESERVED[2] == "app_id";
    assert RESERVED[3] == "organization_name" && RESERVED[4] == "space_name" && RESERVED[5] == "app_name";
    assert RESERVED[6] == "index" && RESERVED[7] == "instance_id" && RESERVED[8] == "instance";
  }

  /** The last rewriting wins; rewriting twice with one route is rewriting once. */
  lemma RelabelTwice(labels: seq<LabelPair>, first: Route, second: Route)
    ensures Relabelled(Relabelled(labels, first), second) == Relabelled(labels, second)
  {
    hide Kept, RouteLabels, IsNamed;
    KeptAppend(Kept(labels, RESERVED), RouteLabels(first), RESERVED);
    KeptTwice(labels, RESERVED);
    RouteLabelsAreReserved(first);
    KeptNone(RouteLabels(first), RESERVED);
  }

  lemma {:induction false} KeptValues(labels: seq<LabelPair>, names: seq<string>, name: Option<string>)
    ensures Values(Kept(labels, names), name) ==
            if name.Some? && name.value in names then [] else Values(labels, name)
  {
    if labels != [] {
      var n := |labels| - 1;
      KeptValues(labels[..n], names, name);
      if IsNamed(labels[n], names) {
        assert Kept(labels, names) == Kept(labels[..n], names);
      } else {
        ValuesAppend(Kept(labels[..n], names), [labels[n]], name);
        assert Values([labels[n]], name) == if labels[n].name == name then [labels[n].value] else [];
      }
    }
  }

  /** The value a route gives to a reserved name, if it gives one. */
  function RouteValue(route: Route, name: string): seq<string> {
    match name
    case "organization_id" => [route.tags.organizationId]
    case "space_id" => [route.tags.spaceId]
    case "app_id" => [route.tags.appId]
    case "organization_name" => [route.tags.organizationName]
    case "space_name" => [route.tags.spaceName]
    case "app_name" => [route.tags.appName]
    case "index" => if route.tags.instanceId == "" then [] else [route.tags.instanceId]
    case "instance_id" => if route.tags.instanceId == "" then [] else [route.tags.instanceId]
    case "instance" => if route.tags.instanceId == "" then [] else [route.address]
    case _ => []
  }

  /** The names that scraped metrics may not bring along. */
  ghost predicate IsReserved(name: Option<string>) {
    name.Some? && name.value in {
      "organization_id", "space_id", "app_id", "organization_name", "space_name", "app_name",
      "index", "instance_id", "instance"}
  }

  lemma ReservedIff(name: Option<string>)
    ensures IsReserved(name) <==> name.Some? && name.value in RESERVED
  {
    assert RESERVED[0] == "organization_id" && RESERVED[1] == "space_id" && RESERVED[2] == "app_id";
    assert RESERVED[3] == "organization_name" && RESERVED[4] == "space_name" && RESERVED[5] == "app_name";
    assert RESERVED[6] == "index" && RESERVED[7] == "instance_id" && RESERVED[8] == "instance";
  }

  /**
   * Name by name: a reserved name carries the route's value and nothing else, the three instance names are
   * there exactly when the route has an instance id, and any other name keeps its values in order.
   */
  lemma RelabelledValues(labels: seq<LabelPair>, route: Route, name: Option<string>)
    ensures Values(Relabelled(labels, route), name) ==
            if IsReserved(name) then RouteValue(route, name.value) else Values(labels, name)
  {
    var added := RouteLabels(route);
    ReservedIff(name);
    ValuesAppend(Kept(labels, RESERVED), added, name);
    KeptValues(labels, RESERVED, name);
    RouteLabelValues(route, name);
  }

  /** The survivors come first, in their order, and the route's labels follow in a fixed order. */
  lemma LabelsInOrder(labels: seq<LabelPair>, more: seq<LabelPair>, route: Route)
    ensures var all, n := Relabelled(labels, route), if route.tags.instanceId == "" then 6 else 9;
            && |all| >= n
            && (forall i :: 0 <= i < |all| - n ==> !IsReserved(all[i].name))
            && (forall k :: 0 <= k < n ==>
                  all[|all| - n + k].name == Some([
                    "organization_id", "space_id", "app_id", "organization_name", "space_name", "app_name",
                    "index", "instance_id", "instance"][k]))
            && Relabelled(labels + more, route) == all[..|all| - n] + Relabelled(more, route)
  {
    KeptAppend(labels, more, RESERVED);
    SurvivorsAreNotNamed(labels, RESERVED);
    hide Kept, RouteLabels;
    var all, added := Relabelled(labels, route), RouteLabels(route);
    RouteValueAt(route, 0);
    assert all[..|all| - |added|] == Kept(labels, RESERVED);
    forall i | 0 <= i < |all| - |added|
      ensures !IsReserved(all[i].name)
    {
      assert all[i] in Kept(labels, RESERVED);
      ReservedIff(all[i].name);
    }
    forall k: nat | k < |added|
      ensures added[k].name == Some(RESERVED[k])
    {
      RouteValueAt(route, k);
    }
  }

  lemma {:induction false} SurvivorsAreNotNamed(labels: seq<LabelPair>, names: seq<string>)
    ensures forall pair <- Kept(labels, names) :: !IsNamed(pair, names)
  {
    if labels != [] {
      SurvivorsAreNotNamed(labels[..|labels| - 1], names);
    }
  }

  lemma {:induction false} ValuesOfNone(pairs: seq<LabelPair>, name: Option<string>)
    requires forall pair <- pairs :: pair.name != name
    ensures Values(pairs, name) == []
  {
    if pairs != [] {
      ValuesOfNone(pairs[..|pairs| - 1], name);
    }
  }

  lemma ValuesOfOne(pair: LabelPair)
    ensures Values([pair], pair.name) == [pair.value]
  {
    assert [pair][..0] == [];
  }

  lemma ValuesOfDistinct(pairs: seq<LabelPair>, i: nat)
    requires i < |pairs|
    requires forall j, k :: 0 <= j < k < |pairs| ==> pairs[j].name != pairs[k].name
    ensures Values(pairs, pairs[i].name) == [pairs[i].value]
  {
    hide Values;
    var name := pairs[i].name;
    assert pairs == pairs[..i] + [pairs[i]] + pairs[i + 1..];
    ValuesAppend(pairs[..i] + [pairs[i]], pairs[i + 1..], name);
    ValuesAppend(pairs[..i], [pairs[i]], name);
    ValuesOfNone(pairs[..i], name);
    ValuesOfNone(pairs[i + 1..], name);
    ValuesOfOne(pairs[i]);
  }

  lemma RouteValueAt(route: Route, k: nat)
    requires k < |RESERVED|
    ensures var added := RouteLabels(route);
            && |added| == (if route.tags.instanceId == "" then 6 else 9)
            && (k < |added| ==> added[k].name == Some(RESERVED[k]))
            && RouteValue(route, RESERVED[k]) == if k < |added| then [added[k].value] else []
  {
    if k == 0 {
    } else if k == 1 {
    } else if k == 2 {
    } else if k == 3 {
    } else if k == 4 {
    } else if k == 5 {
    } else if k == 6 {
    } else if k == 7 {
    } else {
    }
  }

  lemma RouteLabelValues(route: Route, name: Option<string>)
    ensures Values(RouteLabels(route), name) ==
            if name.Some? && name.value in RESERVED then RouteValue(route, name.value) else []
  {
    hide RouteLabels, RouteValue, Values;
    var added := RouteLabels(route);
    forall k: nat | k < |RESERVED|
      ensures |added| <= |RESERVED| && (k < |added| ==> added[k].name == Some(RESERVED[k]))
      ensures RouteValue(route, RESERVED[k]) == if k < |added| then [added[k].value] else []
    {
      RouteValueAt(route, k);
    }
    RouteValueAt(route, 0);
    ReservedAreDistinct();
    if i: nat :| i < |added| && added[i].name == name {
      ValuesOfDistinct(added, i);
    } else {
      ValuesOfNone(added, name);
    }
  }

  lemma ReservedAreDistinct()
    ensures forall j, k :: 0 <= j < k < |RESERVED| ==> RESERVED[j] != RESERVED[k]
  {
  }
}
