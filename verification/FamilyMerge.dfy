/** The in-place merge of per-instance metric families into the first map of the list. */
module FamilyMerge {
  import opened Permutations

  /** A metric family behind a pointer: its list of metrics is extended in place. */
  class Family<M> {
    const name: string
    var metric: seq<M>

    constructor (name: string, metric: seq<M>)
      ensures this.name == name && this.metric == metric
    {
      this.name, this.metric := name, metric;
    }
  }

  // ---- the merge on values ----

  function At<M>(part: map<string, seq<M>>, name: string): seq<M> {
    if name in part then part[name] else []
  }

  /** The metrics of `name` in all parts, in order. */
  function Joined<M>(parts: seq<map<string, seq<M>>>, name: string): seq<M> {
    if parts == [] then [] else Joined(parts[..|parts| - 1], name) + At(parts[|parts| - 1], name)
  }

  /** The names occurring in any part. */
  function Names<M>(parts: seq<map<string, seq<M>>>): set<string> {
    if parts == [] then {} else Names(parts[..|parts| - 1]) + parts[|parts| - 1].Keys
  }

  lemma {:induction false} NamesOccur<M>(parts: seq<map<string, seq<M>>>, name: string)
    ensures name in Names(parts) <==> exists part <- parts :: name in part
  {
    if parts != [] {
      var before := parts[..|parts| - 1];
      NamesOccur(before, name);
      assert parts == before + [parts[|parts| - 1]];
    }
  }

  /** The metrics of the parts follow each other: the merge of two lists of parts is the two merges in turn. */
  lemma {:induction false} JoinedInTurn<M>(parts: seq<map<string, seq<M>>>, more: seq<map<string, seq<M>>>,
                                           name: string)
    ensures Joined(parts + more, name) == Joined(parts, name) + Joined(more, name)
    ensures |parts| == 1 ==> Joined(parts, name) == if name in parts[0] then parts[0][name] else []
  {
    if |parts| == 1 {
      assert parts[..0] == [];
    }
    if more == [] {
      assert parts + more == parts;
    } else {
      hide At;
      var n := |more| - 1;
      JoinedInTurn(parts, more[..n], name);
      assert (parts + more)[..|parts + more| - 1] == parts + more[..n];
    }
  }

  lemma JoinedLast<M>(parts: seq<map<string, seq<M>>>, name: string)
    requires parts != []
    ensures multiset(Joined(parts, name)) ==
            multiset(Joined(parts[..|parts| - 1], name)) + multiset(At(parts[|parts| - 1], name))
  {
    hide At;
  }

  /** Taking one part out of the list takes exactly its metrics out of the merge. */
  lemma {:induction false} JoinedWithout<M>(parts: seq<map<string, seq<M>>>, i: nat, name: string)
    requires i < |parts|
    ensures multiset(Joined(parts, name)) == multiset(Joined(Without(parts, i), name)) + multiset(At(parts[i], name))
  {
    hide At, Joined, Without;
    var n, rest := |parts| - 1, Without(parts, i);
    JoinedLast(parts, name);
    if i == n {
      assert rest == parts[..n] by { WithoutLast(parts); }
    } else {
      JoinedWithout(parts[..n], i, name);
      WithoutKeepsLast(parts, i);
      JoinedLast(rest, name);
    }
  }

  /** The order of the parts affects neither which names there are nor the multiset of metrics under each. */
  lemma {:induction false} MergeIgnoresOrder<M>(parts: seq<map<string, seq<M>>>, parts': seq<map<string, seq<M>>>,
                                                name: string)
    requires multiset(parts) == multiset(parts')
    ensures name in Names(parts) <==> name in Names(parts')
    ensures multiset(Joined(parts, name)) == multiset(Joined(parts', name))
  {
    hide At, Names, Joined;
    SameElements(parts, parts');
    NamesOccur(parts, name);
    NamesOccur(parts', name);
    if parts != [] {
      JoinedLast(parts, name);
      var i := MatchLast(parts, parts');
      MergeIgnoresOrder(parts[..|parts| - 1], Without(parts', i), name);
      JoinedWithout(parts', i, name);
    } else {
      assert parts' == [];
    }
  }

  // ---- the merge on the heap ----

  ghost predicate Injective<M>(m: map<string, Family<M>>) {
    forall k, l :: k in m && l in m && m[k] == m[l] ==> k == l
  }

  ghost predicate NamedByKey<M>(m: map<string, Family<M>>) {
    forall k :: k in m ==> m[k].name == k
  }

  ghost predicate Apart<M>(a: map<string, Family<M>>, b: map<string, Family<M>>) {
    forall k, l :: k in a && l in b ==> a[k] != b[l]
  }

  /** All families of the list are different objects: each scrape made its own. */
  ghost predicate FreshlyScraped<M>(unmerged: seq<map<string, Family<M>>>) {
    && (forall i :: 0 <= i < |unmerged| ==> Injective(unmerged[i]) && NamedByKey(unmerged[i]))
    && (forall i, j :: 0 <= i < j < |unmerged| ==> Apart(unmerged[i], unmerged[j]))
  }

  ghost function Families<M>(m: map<string, Family<M>>): set<Family<M>> {
    set k | k in m :: m[k]
  }

  /** The families of `m` by value. */
  ghost function Contents<M>(m: map<string, Family<M>>): (part: map<string, seq<M>>)
    reads Families(m)
    ensures part.Keys == m.Keys && forall k :: k in m ==> part[k] == m[k].metric
  {
    map k | k in m :: m[k].metric
  }

  /**
   * One turn of the inner loop: a new name takes the family over, a known one takes its metrics in. `first`
   * is the base as it was before the loop.
   */
  method MergeFamily<M>(base: map<string, Family<M>>, metricKV: map<string, Family<M>>, k: string,
                        ghost first: map<string, Family<M>>)
    returns (merged: map<string, Family<M>>)
    requires k in metricKV && Injective(first) && Apart(first, metricKV)
    requires k in base <==> k in first
    requires k in base ==> base[k] == first[k]
    modifies Families(first)
    ensures merged == if k in base then base else base[k := metricKV[k]]
    ensures Contents(metricKV) == old(Contents(metricKV))
    ensures Contents(first) ==
            if k in base then old(Contents(first))[k := old(first[k].metric) + metricKV[k].metric]
            else old(Contents(first))
  {
    var metricFamily := metricKV[k];
    if k !in base {
      return base[k := metricFamily];
    }
    var baseMetricFamily := base[k];
    assert baseMetricFamily in Families(first);
    baseMetricFamily.metric := baseMetricFamily.metric + metricFamily.metric;
    return base;
  }

  /** The inner loop: the families of one instance, in whatever order the map yields them. */
  method MergeOne<M>(base: map<string, Family<M>>, metricKV: map<string, Family<M>>)
    returns (merged: map<string, Family<M>>)
    requires Injective(base) && Apart(base, metricKV)
    modifies Families(base)
    ensures merged.Keys == base.Keys + metricKV.Keys
    ensures forall k :: k in merged ==> merged[k] == if k in base then base[k] else metricKV[k]
    ensures Contents(base) == Grown(old(Contents(base)), old(Contents(metricKV)), {})
    ensures Contents(metricKV) == old(Contents(metricKV))
  {
    hide Injective, Apart, Families, Taken, Grown;
    merged := base;
    ghost var before := Contents(base);
    ghost var part := Contents(metricKV);
    var rest := metricKV.Keys;
    NoneTaken(base, metricKV);
    NoneGrown(before, part);
    while rest != {}
      invariant rest <= metricKV.Keys && merged == Taken(base, metricKV, rest)
      invariant Contents(metricKV) == part && Contents(base) == Grown(before, part, rest)
    {
      var k :| k in rest;
      TakenOne(base, metricKV, rest, k);
      GrownOne(before, part, rest, k);
      merged := MergeFamily(merged, metricKV, k, base);
      rest := rest - {k};
    }
    AllTaken(base, metricKV);
  }

  /** The base with the families of `metricKV` taken over, but for those in `rest` and those it had. */
  ghost function Taken<M>(base: map<string, Family<M>>, metricKV: map<string, Family<M>>, rest: set<string>)
    : map<string, Family<M>>
  {
    map k | k in base.Keys + (metricKV.Keys - rest) :: if k in base then base[k] else metricKV[k]
  }

  lemma NoneTaken<M>(base: map<string, Family<M>>, metricKV: map<string, Family<M>>)
    ensures Taken(base, metricKV, metricKV.Keys) == base
  {
  }

  lemma AllTaken<M>(base: map<string, Family<M>>, metricKV: map<string, Family<M>>)
    ensures var merged := Taken(base, metricKV, {});
            && merged.Keys == base.Keys + metricKV.Keys
            && forall k :: k in merged ==> merged[k] == if k in base then base[k] else metricKV[k]
  {
  }

  lemma TakenOne<M>(base: map<string, Family<M>>, metricKV: map<string, Family<M>>, rest: set<string>, k: string)
    requires k in rest && rest <= metricKV.Keys
    ensures var taken := Taken(base, metricKV, rest);
            && (k in taken <==> k in base) && (k in base ==> taken[k] == base[k])
            && Taken(base, metricKV, rest - {k}) == if k in base then taken else taken[k := metricKV[k]]
  {
  }

  lemma NoneGrown<M>(before: map<string, seq<M>>, part: map<string, seq<M>>)
    ensures Grown(before, part, part.Keys) == before
  {
  }

  lemma GrownOne<M>(before: map<string, seq<M>>, part: map<string, seq<M>>, rest: set<string>, k: string)
    requires k in rest && rest <= part.Keys
    ensures var grown := Grown(before, part, rest);
            && grown.Keys == before.Keys && (k in before ==> grown[k] == before[k])
            && Grown(before, part, rest - {k}) == if k in before then grown[k := before[k] + part[k]] else grown
  {
  }

  /** The contents of the base once all names of `part` but those in `rest` are merged into it. */
  ghost function Grown<M>(before: map<string, seq<M>>, part: map<string, seq<M>>, rest: set<string>)
    : map<string, seq<M>>
  {
    map k | k in before :: if k in part && k !in rest then before[k] + part[k] else before[k]
  }

  /** All objects of a list of families. */
  ghost function Objects<M>(unmerged: seq<map<string, Family<M>>>): set<Family<M>> {
    set i, k | 0 <= i < |unmerged| && k in unmerged[i] :: unmerged[i][k]
  }

  ghost function Snapshot<M>(unmerged: seq<map<string, Family<M>>>): (parts: seq<map<string, seq<M>>>)
    reads Objects(unmerged)
    ensures |parts| == |unmerged|
    ensures forall i :: 0 <= i < |parts| ==> parts[i] == map k | k in unmerged[i] :: unmerged[i][k].metric
  {
    if unmerged == [] then []
    else
      var n := |unmerged| - 1;
      Snapshot(unmerged[..n]) + [map k | k in unmerged[n] :: unmerged[n][k].metric]
  }

  /**
   * No name is lost or invented, each name holds the metrics of all instances and nothing else, and map keys
   * stay family names.
   */
  method Merge<M>(unmerged: seq<map<string, Family<M>>>) returns (base: map<string, Family<M>>)
    requires FreshlyScraped(unmerged)
    modifies Objects(unmerged)
    ensures base.Keys == Names(old(Snapshot(unmerged))) && NamedByKey(base)
    ensures forall k :: k in base ==> base[k].metric == Joined(old(Snapshot(unmerged)), k)
  {
    if |unmerged| == 0 {
      return map[];
    }
    ghost var parts := Snapshot(unmerged);
    base := unmerged[0];
    var i := 1;
    MergedPartsFirst(parts);
    while i < |unmerged|
      invariant 1 <= i <= |unmerged| && Merged(base, unmerged, i, parts)
    {
      base := MergeNext(base, unmerged, i, parts);
      i := i + 1;
    }
    assert parts[..|unmerged|] == parts;
  }

  /** The merge of all parts as one map. */
  ghost function MergedParts<M>(parts: seq<map<string, seq<M>>>): map<string, seq<M>> {
    map name | name in Names(parts) :: Joined(parts, name)
  }

  /** `base` is the merge of the first `i` maps; the others are as scraped. */
  ghost predicate Merged<M>(base: map<string, Family<M>>, unmerged: seq<map<string, Family<M>>>, i: nat,
                            parts: seq<map<string, seq<M>>>)
    requires i <= |unmerged| == |parts|
    reads Families(base), Objects(unmerged)
  {
    && NamedByKey(base) && ApartFromLater(base, unmerged, i)
    && (forall j :: i <= j < |unmerged| ==> Contents(unmerged[j]) == parts[j])
    && Contents(base) == MergedParts(parts[..i])
  }

  /** The families of `base` are different objects, taken from the list but not from `i` on. */
  ghost predicate ApartFromLater<M>(base: map<string, Family<M>>, unmerged: seq<map<string, Family<M>>>, i: nat) {
    && Injective(base) && Families(base) <= Objects(unmerged)
    && forall j :: i <= j < |unmerged| ==> Apart(base, unmerged[j])
  }

  lemma ApartFamilies<M>(a: map<string, Family<M>>, b: map<string, Family<M>>)
    requires Apart(a, b)
    ensures Families(a) !! Families(b)
  {
  }

  lemma {:induction false} NoMetrics<M>(parts: seq<map<string, seq<M>>>, name: string)
    requires name !in Names(parts)
    ensures Joined(parts, name) == []
  {
    if parts != [] {
      NoMetrics(parts[..|parts| - 1], name);
    }
  }

  /** On values, merging one more part grows known names and takes new ones over. */
  lemma MergedPartsStep<M>(parts: seq<map<string, seq<M>>>, i: nat)
    requires i < |parts|
    ensures MergedParts(parts[..i + 1]) == parts[i] + Grown(MergedParts(parts[..i]), parts[i], {})
  {
    assert parts[..i + 1][..i] == parts[..i];
    assert Names(parts[..i + 1]) == Names(parts[..i]) + parts[i].Keys;
    forall name | name in Names(parts[..i + 1])
      ensures Joined(parts[..i + 1], name) == (parts[i] + Grown(MergedParts(parts[..i]), parts[i], {}))[name]
    {
      if name !in Names(parts[..i]) {
        NoMetrics(parts[..i], name);
      }
    }
  }

  lemma MergedPartsFirst<M>(parts: seq<map<string, seq<M>>>)
    requires parts != []
    ensures MergedParts(parts[..1]) == parts[0]
  {
    assert parts[..1][..0] == [];
    assert parts[..1][0] == parts[0];
    assert Names(parts[..1]) == parts[0].Keys;
    forall name | name in parts[0]
      ensures Joined(parts[..1], name) == parts[0][name]
    {
      assert Joined(parts[..1], name) == [] + At(parts[0], name);
    }
  }

  lemma TakenOver<M>(base: map<string, Family<M>>, metricKV: map<string, Family<M>>, merged: map<string, Family<M>>)
    requires merged.Keys == base.Keys + metricKV.Keys
    requires forall k :: k in merged ==> merged[k] == if k in base then base[k] else metricKV[k]
    ensures merged == metricKV + base
    ensures Contents(merged) == Contents(metricKV) + Contents(base)
  {
  }

  lemma StillApart<M>(base: map<string, Family<M>>, unmerged: seq<map<string, Family<M>>>, i: nat)
    requires i < |unmerged| && FreshlyScraped(unmerged) && ApartFromLater(base, unmerged, i)
    ensures ApartFromLater(unmerged[i] + base, unmerged, i + 1)
  {
    var merged := unmerged[i] + base;
    assert Apart(base, unmerged[i]);
    forall f | f in Families(merged)
      ensures f in Objects(unmerged)
    {
      var k :| k in merged && merged[k] == f;
      if k in base {
        assert f in Families(base);
      } else {
        assert unmerged[i][k] == f;
      }
    }
  }

  /** One turn of the outer loop. */
  method MergeNext<M>(base: map<string, Family<M>>, unmerged: seq<map<string, Family<M>>>, i: nat,
                      ghost parts: seq<map<string, seq<M>>>)
    returns (merged: map<string, Family<M>>)
    requires i < |unmerged| == |parts| && FreshlyScraped(unmerged) && Merged(base, unmerged, i, parts)
    modifies Objects(unmerged)
    ensures Merged(merged, unmerged, i + 1, parts)
  {
    hide Objects, Contents, Injective, Apart, Grown, MergedParts, FreshlyScraped, Names;
    assert Injective(unmerged[i]) && NamedByKey(unmerged[i]) by { FreshlyScrapedOne(unmerged, i); }
    forall j | i + 1 <= j < |unmerged|
      ensures Families(base) !! Families(unmerged[j])
    {
      ApartFamilies(base, unmerged[j]);
    }
    label turn:
    merged := MergeOne(base, unmerged[i]);
    TakenOver(base, unmerged[i], merged);
    StillApart(base, unmerged, i);
    MergedPartsStep(parts, i);
    forall j | i + 1 <= j < |unmerged|
      ensures Contents(unmerged[j]) == parts[j]
    {
      SameContents@turn(unmerged[j]);
    }
  }

  twostate lemma SameContents<M>(m: map<string, Family<M>>)
    requires forall f <- Families(m) :: f.metric == old(f.metric)
    ensures Contents(m) == old(Contents(m))
  {
    forall k | k in m
      ensures m[k].metric == old(m[k].metric)
    {
      assert m[k] in Families(m);
    }
  }

  lemma FreshlyScrapedOne<M>(unmerged: seq<map<string, Family<M>>>, i: nat)
    requires FreshlyScraped(unmerged) && i < |unmerged|
    ensures Injective(unmerged[i]) && NamedByKey(unmerged[i])
  {
  }
}
