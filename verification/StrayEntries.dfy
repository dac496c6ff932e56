/**
 * What lookups and scans can show, and for which URIs slices filed under a foreign URI cannot spoil it. Go's
 * growth of a slice that is still short is exact, so the histories that spoil it leave no room until the end.
 */
module StrayEntries {
  import opened Options
  import opened Uris
  import opened RouteModel
  import opened RouteStore
  import opened RouteStoreProofs

  // ---- what a scan of all entries can show ----

  /** Every route a scan of the whole table meets. */
  ghost function Visible(s: Store): set<Route>
    requires WellFormed(s)
  {
    set u, i | u in s.entries && 0 <= i < |Read(s, u)| && Read(s, u)[i].Some? :: Read(s, u)[i].value
  }

  /** The live routes of all keys of a history. */
  ghost function LiveRoutes(ops: seq<Op>): set<Route> {
    set key, id | key in KeysOf(ops) && id in LiveAt(ops, key) :: LiveAt(ops, key)[id]
  }

  lemma ExactIsVisible(ops: seq<Op>, key: Uri, id: Identity)
    requires Exact(Run(ops), ops, key) && id in LiveAt(ops, key)
    ensures LiveAt(ops, key)[id] in Visible(Run(ops))
  {
    hide RouteKey, Run, LiveAt;
    var slots := Read(Run(ops), key);
    var i :| 0 <= i < |slots| && slots[i] == Some(LiveAt(ops, key)[id]);
  }

  lemma ExactIsLive(ops: seq<Op>, u: Uri, i: nat)
    requires Exact(Run(ops), ops, u) && u in KeysOf(ops)
    requires i < |Read(Run(ops), u)| && Read(Run(ops), u)[i].Some?
    ensures Read(Run(ops), u)[i].value in LiveRoutes(ops)
  {
    hide RouteKey, Run, LiveAt, Read, KeysOf;
    var r := Read(Run(ops), u)[i].value;
    assert r == LiveAt(ops, u)[IdentityOf(r)];
  }

  lemma LiveRoutesAreVisible(ops: seq<Op>)
    requires Contained(KeysOf(ops), ops)
    ensures LiveRoutes(ops) <= Visible(Run(ops))
  {
    hide RouteKey, Run, LiveAt, WellFormed, Exact, Visible, Read, Step, KeysOf, Contained, Isolated;
    ContainedRunsAreExact(KeysOf(ops), ops);
    forall key, id | key in KeysOf(ops) && id in LiveAt(ops, key)
      ensures LiveAt(ops, key)[id] in Visible(Run(ops))
    {
      ExactIsVisible(ops, key, id);
    }
  }

  lemma VisibleRoutesAreLive(ops: seq<Op>)
    requires UnregistersByKey(ops)
    ensures Contained(KeysOf(ops), ops) && Visible(Run(ops)) <= LiveRoutes(ops)
  {
    hide RouteKey, Run, LiveAt, WellFormed, Exact, LiveRoutes, Read, Step;
    assert Contained(KeysOf(ops), ops);
    KeyedRunsAreClean(ops);
    forall r <- Visible(Run(ops))
      ensures r in LiveRoutes(ops)
    {
      var u, i: nat :| u in Run(ops).entries && i < |Read(Run(ops), u)| && Read(Run(ops), u)[i] == Some(r);
      ExactIsLive(ops, u, i);
    }
  }

  /** A scan misses no live route in contained histories, and meets only live ones when all are by key. */
  lemma ScansMeetTheLiveRoutes(ops: seq<Op>)
    ensures Contained(KeysOf(ops), ops) ==> LiveRoutes(ops) <= Visible(Run(ops))
    ensures UnregistersByKey(ops) ==> LiveRoutes(ops) == Visible(Run(ops))
  {
    hide RouteKey, LiveAt, Exact, LiveRoutes, Visible, Contained, UnregistersByKey, KeysOf;
    if UnregistersByKey(ops) {
      VisibleRoutesAreLive(ops);
    }
    if Contained(KeysOf(ops), ops) {
      LiveRoutesAreVisible(ops);
    }
  }

  // ---- over which URIs lookups are nil-free ----

  /** Every URI is filed under itself. */
  ghost predicate OwnKeys(uris: set<Uri>) {
    forall u <- uris :: RouteKey(u) == u
  }

  lemma OwnKeysUnregisterByKey(uris: set<Uri>, ops: seq<Op>)
    requires OwnKeys(uris) && Over(uris, ops)
    ensures UnregistersByKey(ops)
  {
    hide RouteKey;
  }

  const SOME_ROUTE :=
    Route("", Tags(PROCESS_WEB, "", "", "", "", "", "", "", "", "", "", ""), "", "", false, 0, map[], "", "")

  lemma RunOfTwo(op0: Op, op1: Op)
    ensures Run([op0]) == Step(EMPTY, op0)
    ensures Run([op0, op1]) == Step(Run([op0]), op1)
  {
    hide Step;
    assert [op0][..0] == [] && [op0, op1][..1] == [op0];
    assert Run([op0]) == Step(Run([op0][..0]), op0);
  }

  lemma RunOfThree(op0: Op, op1: Op, op2: Op)
    ensures Run([op0, op1, op2]) == Step(Run([op0, op1]), op2)
  {
    hide Step;
    assert [op0, op1, op2][..2] == [op0, op1];
  }

  lemma NoRoom(slots: Slots)
    ensures slots + Nils(0) == slots
  {
  }

  /** A route not yet under its key: in a new array if the slice fills its own, or if there is none. */
  lemma RegisterAnew(s: Store, u: Uri, r: Route, spare: nat)
    requires WellFormed(s)
    requires var key := RouteKey(u);
             && FirstEqual(Read(s, key), r) == |Read(s, key)|
             && (key in s.entries ==> s.entries[key].len == |s.backings[s.entries[key].id]|)
    ensures var slots := Read(s, RouteKey(u));
            Register(s, u, r, spare) ==
            Store(s.backings + [slots + [Some(r)] + Nils(spare)],
                  s.entries[RouteKey(u) := Span(|s.backings|, |slots| + 1)])
  {
    hide RouteKey;
    var slots := Read(s, RouteKey(u));
    assert FirstStale(slots, r) == |slots|;
    if RouteKey(u) in s.entries {
      assert slots == s.backings[s.entries[RouteKey(u)].id];
    } else {
      assert slots + [Some(r)] == [Some(r)];
    }
  }

  /** Unregistering from a slice that fills its array. */
  lemma UnregisterFromFull(s: Store, u: Uri, r: Route)
    requires WellFormed(s) && RouteKey(u) in s.entries
    requires FirstEqual(Read(s, RouteKey(u)), r) < |Read(s, RouteKey(u))|
    requires var span := s.entries[RouteKey(u)]; span.len == |s.backings[span.id]|
    ensures var span, slots := s.entries[RouteKey(u)], Read(s, RouteKey(u));
            Unregister(s, u, r) ==
            Store(s.backings[span.id := SlotsAfterSwap(slots, FirstEqual(slots, r))],
                  s.entries[u := Span(span.id, |slots| - 1)])
  {
    hide RouteKey;
    var span, slots := s.entries[RouteKey(u)], Read(s, RouteKey(u));
    assert slots == s.backings[span.id];
  }

  lemma FirstRegister(u: Uri, r: Route, spare: nat)
    ensures Run([Reg(u, r, spare)]) == Store([[Some(r)] + Nils(spare)], map[RouteKey(u) := Span(0, 1)])
    ensures Read(Run([Reg(u, r, spare)]), RouteKey(u)) == [Some(r)]
  {
    hide RouteKey;
    RunOfTwo(Reg(u, r, spare), Reg(u, r, spare));
  }

  /** Unregistering the only route by a URI that is not its own key leaves a single nil slot under the key. */
  lemma ForeignUnregisterLeavesNil(u: Uri, r: Route, spare: nat)
    requires RouteKey(u) != u
    ensures Read(Run([Reg(u, r, spare), Unreg(u, r)]), RouteKey(u)) == [None]
  {
    hide RouteKey;
    var reg, unreg := Reg(u, r, spare), Unreg(u, r);
    RunOfTwo(reg, unreg);
    FirstRegister(u, r, spare);
    var s := Run([reg]);
    assert FirstEqual([Some(r)], r) == 0;
    UnregisterRead(s, u, r);
  }

  /**
   * Over a vocabulary of URIs no lookup by name ever yields a nil slot if and only if every URI of it is its
   * own route key.
   */
  lemma LookupsAreNilFreeIff(uris: set<Uri>)
    ensures OwnKeys(uris) <==> forall ops: seq<Op>, key: Uri :: Over(uris, ops) ==> NilFree(Read(Run(ops), key))
  {
    hide RouteKey, Run, WellFormed;
    if OwnKeys(uris) {
      forall ops: seq<Op>, key: Uri | Over(uris, ops)
        ensures NilFree(Read(Run(ops), key))
      {
        OwnKeysUnregisterByKey(uris, ops);
        KeyedRunsAreClean(ops);
      }
    } else {
      var u :| u in uris && RouteKey(u) != u;
      ForeignUnregisterLeavesNil(u, SOME_ROUTE, 0);
      var ops := [Reg(u, SOME_ROUTE, 0), Unreg(u, SOME_ROUTE)];
      assert Over(uris, ops);
      assert Read(Run(ops), RouteKey(u))[0].None?;
    }
  }

  // ---- over which URIs scans miss no live route ----

  lemma ConfusionFillsTheTable(u: Uri, v: Uri, r: Route)
    requires RouteKey(u) != u && RouteKey(v) == u
    ensures Run([Reg(v, r, 0), Reg(u, r, 0)]) ==
            Store([[Some(r)], [Some(r)]], map[u := Span(0, 1), RouteKey(u) := Span(1, 1)])
  {
    hide RouteKey, Register, Run;
    RunOfTwo(Reg(v, r, 0), Reg(u, r, 0));
    FirstRegister(v, r, 0);
    NoRoom([Some(r)]);
    var s := Store([[Some(r)]], map[u := Span(0, 1)]);
    assert Run([Reg(v, r, 0)]) == s;
    RegisterAnew(s, u, r, 0);
    assert [] + [Some(r)] == [Some(r)];
  }

  lemma ConfusionEmptiesTheSlice(u: Uri, r: Route)
    requires RouteKey(u) != u
    ensures var s := Store([[Some(r)], [Some(r)]], map[u := Span(0, 1), RouteKey(u) := Span(1, 1)]);
            Unregister(s, u, r) == Store([[Some(r)], [None]], map[u := Span(1, 0), RouteKey(u) := Span(1, 1)])
  {
    hide RouteKey, Unregister;
    var s := Store([[Some(r)], [Some(r)]], map[u := Span(0, 1), RouteKey(u) := Span(1, 1)]);
    assert Read(s, RouteKey(u)) == [Some(r)] && FirstEqual([Some(r)], r) == 0;
    UnregisterFromFull(s, u, r);
    assert [Some(r)][0 := Some(r)][0 := None] == [None];
  }

  lemma NothingIsVisible(u: Uri, key: Uri, r: Route)
    requires u != key
    ensures Visible(Store([[Some(r)], [None]], map[u := Span(1, 0), key := Span(1, 1)])) == {}
  {
  }

  lemma ConfusionHidesALiveRoute(u: Uri, v: Uri, r: Route)
    requires RouteKey(u) != u && RouteKey(v) == u
    ensures var ops := [Reg(v, r, 0), Reg(u, r, 0), Unreg(u, r)];
            Visible(Run(ops)) == {} && r in LiveRoutes(ops)
  {
    hide RouteKey, LiveAt, LiveRoutes, Run, Unregister, Visible;
    var ops := [Reg(v, r, 0), Reg(u, r, 0), Unreg(u, r)];
    RunOfThree(ops[0], ops[1], ops[2]);
    ConfusionFillsTheTable(u, v, r);
    ConfusionEmptiesTheSlice(u, r);
    NothingIsVisible(u, RouteKey(u), r);
    ConfusionLosesALiveRoute(u, v, r);
    assert ops[0] in ops && u in KeysOf(ops);
    IsLive(ops, u, IdentityOf(r));
  }

  lemma IsLive(ops: seq<Op>, key: Uri, id: Identity)
    requires key in KeysOf(ops) && id in LiveAt(ops, key)
    ensures LiveAt(ops, key)[id] in LiveRoutes(ops)
  {
  }

  /** Over a vocabulary no scan ever misses a live route if and only if the vocabulary is unambiguous. */
  lemma ScansMissNoneIff(uris: set<Uri>)
    ensures Unambiguous(uris) <==> forall ops: seq<Op> :: Over(uris, ops) ==> LiveRoutes(ops) <= Visible(Run(ops))
  {
    hide RouteKey, Run, WellFormed, LiveRoutes, Visible;
    if Unambiguous(uris) {
      forall ops: seq<Op> | Over(uris, ops)
        ensures LiveRoutes(ops) <= Visible(Run(ops))
      {
        assert Contained(KeysOf(ops), ops);
        LiveRoutesAreVisible(ops);
      }
    } else {
      var u :| u in uris && u in Keys(uris) && RouteKey(u) != u;
      var v :| v in uris && RouteKey(v) == u;
      ConfusionHidesALiveRoute(u, v, SOME_ROUTE);
      var ops := [Reg(v, SOME_ROUTE, 0), Reg(u, SOME_ROUTE, 0), Unreg(u, SOME_ROUTE)];
      assert Over(uris, ops) && !(LiveRoutes(ops) <= Visible(Run(ops)));
    }
  }

  // ---- over which URIs scans show live routes only ----

  /** Two routes, the second of them unregistered by `u`, then a third one that outgrows the array. */
  function Straying(u: Uri, a: Route, b: Route, c: Route, spare: nat): seq<Op> {
    [Reg(u, a, 0), Reg(u, b, 0), Unreg(u, b), Reg(u, c, spare)]
  }

  lemma StrayingFills(u: Uri, a: Route, b: Route)
    requires IdentityOf(a) != IdentityOf(b)
    ensures Run([Reg(u, a, 0), Reg(u, b, 0)]) == Store([[Some(a)], [Some(a), Some(b)]], map[RouteKey(u) := Span(1, 2)])
  {
    hide RouteKey, Register, Run;
    RunOfTwo(Reg(u, a, 0), Reg(u, b, 0));
    FirstRegister(u, a, 0);
    var s := Store([[Some(a)]], map[RouteKey(u) := Span(0, 1)]);
    assert Run([Reg(u, a, 0)]) == s by { NoRoom([Some(a)]); }
    assert FirstEqual([Some(a)], b) == 1;
    RegisterAnew(s, u, b, 0);
    assert [Some(a)] + [Some(b)] == [Some(a), Some(b)];
    NoRoom([Some(a), Some(b)]);
  }

  lemma StrayingSplits(u: Uri, a: Route, b: Route)
    requires RouteKey(u) != u && IdentityOf(a) != IdentityOf(b)
    ensures Unregister(Store([[Some(a)], [Some(a), Some(b)]], map[RouteKey(u) := Span(1, 2)]), u, b) ==
            Store([[Some(a)], [Some(a), None]], map[RouteKey(u) := Span(1, 2), u := Span(1, 1)])
  {
    hide RouteKey, Unregister;
    var s := Store([[Some(a)], [Some(a), Some(b)]], map[RouteKey(u) := Span(1, 2)]);
    assert Read(s, RouteKey(u)) == [Some(a), Some(b)];
    assert FirstEqual([Some(a), Some(b)], b) == 1;
    UnregisterFromFull(s, u, b);
    assert [Some(a), Some(b)][1 := Some(b)][1 := None] == [Some(a), None];
  }

  lemma StrayingMovesOn(u: Uri, a: Route, c: Route, spare: nat)
    requires RouteKey(u) != u && IdentityOf(a) != IdentityOf(c)
    ensures var s := Store([[Some(a)], [Some(a), None]], map[RouteKey(u) := Span(1, 2), u := Span(1, 1)]);
            Register(s, u, c, spare) ==
            Store([[Some(a)], [Some(a), None], [Some(a), None, Some(c)] + Nils(spare)],
                  map[RouteKey(u) := Span(2, 3), u := Span(1, 1)])
  {
    hide RouteKey, Register;
    var s := Store([[Some(a)], [Some(a), None]], map[RouteKey(u) := Span(1, 2), u := Span(1, 1)]);
    assert Read(s, RouteKey(u)) == [Some(a), None];
    assert FirstEqual([Some(a), None], c) == 2;
    RegisterAnew(s, u, c, spare);
    assert [Some(a), None] + [Some(c)] == [Some(a), None, Some(c)];
  }

  /** The slice under the key has moved to a larger array; the one under `u` stays behind with the first route. */
  lemma StrayingRun(u: Uri, a: Route, b: Route, c: Route, spare: nat)
    requires RouteKey(u) != u && IdentityOf(a) != IdentityOf(b) && IdentityOf(a) != IdentityOf(c)
    ensures var s := Run(Straying(u, a, b, c, spare));
            u in s.entries && Read(s, u) == [Some(a)] && Apart(s, u, RouteKey(u))
  {
    hide RouteKey, Register, Unregister;
    var ops := Straying(u, a, b, c, spare);
    RunOfThree(ops[0], ops[1], ops[2]);
    assert ops[..3] == [ops[0], ops[1], ops[2]];
    StrayingFills(u, a, b);
    StrayingSplits(u, a, b);
    StrayingMovesOn(u, a, c, spare);
  }

  lemma StaysVisible(u: Uri, a: Route, b: Route, c: Route, spare: nat, op: Op)
    requires RouteKey(u) != u && IdentityOf(a) != IdentityOf(b) && IdentityOf(a) != IdentityOf(c)
    requires RouteKey(op.uri) == RouteKey(u) && (op.Unreg? ==> op.uri != u)
    ensures var s := Run(Straying(u, a, b, c, spare) + [op]);
            Read(s, u) == [Some(a)] && a in Visible(s)
  {
    hide RouteKey, Step, Straying;
    var ops := Straying(u, a, b, c, spare);
    StrayingRun(u, a, b, c, spare);
    assert (ops + [op])[..|ops|] == ops;
    StepElsewhere(Run(ops), op, u);
    assert Read(Run(ops + [op]), u)[0] == Some(a);
  }

  lemma LatestIsLast(ops: seq<Op>, op: Op)
    ensures Latest(ops + [op], RouteKey(op.uri), IdentityOf(op.route)) == if op.Reg? then Some(op.route) else None
  {
  }

  /** A route replaced by one with other tags goes on being met by scans. */
  lemma ReplacedRouteStaysVisible(u: Uri, a: Route, b: Route, c: Route, spare: nat, newer: Route)
    requires RouteKey(u) != u && IdentityOf(a) != IdentityOf(b) && IdentityOf(a) != IdentityOf(c)
    requires IdentityOf(newer) == IdentityOf(a) && OwnershipOf(newer) != OwnershipOf(a)
    ensures var ops := Straying(u, a, b, c, spare) + [Reg(u, newer, 0)];
            a in Visible(Run(ops)) && a !in LiveRoutes(ops)
  {
    hide RouteKey, Run, LiveAt, Latest, Visible;
    var op := Reg(u, newer, 0);
    var ops := Straying(u, a, b, c, spare) + [op];
    StaysVisible(u, a, b, c, spare, op);
    LatestIsLast(Straying(u, a, b, c, spare), op);
    forall key, id | key in KeysOf(ops) && id in LiveAt(ops, key)
      ensures LiveAt(ops, key)[id] != a
    {
      LastWriteWins(ops, key, id);
    }
  }

  /** The same for a route that is unregistered everywhere, by its key. */
  lemma UnregisteredRouteStaysVisible(u: Uri, a: Route, b: Route, c: Route, spare: nat)
    requires RouteKey(u) != u && RouteKey(RouteKey(u)) == RouteKey(u)
    requires IdentityOf(a) != IdentityOf(b) && IdentityOf(a) != IdentityOf(c)
    ensures var ops := Straying(u, a, b, c, spare) + [Unreg(RouteKey(u), a)];
            && a in Visible(Run(ops)) && Read(Run(ops), u) == [Some(a)]
            && forall key :: IdentityOf(a) !in LiveAt(ops, key)
  {
    hide RouteKey, Run, LiveAt, Latest, Visible;
    var op := Unreg(RouteKey(u), a);
    var ops := Straying(u, a, b, c, spare) + [op];
    StaysVisible(u, a, b, c, spare, op);
    LatestIsLast(Straying(u, a, b, c, spare), op);
    forall key
      ensures IdentityOf(a) !in LiveAt(ops, key)
    {
      LastWriteWins(ops, key, IdentityOf(a));
      if key != RouteKey(u) {
        NeverAbout(ops, key, IdentityOf(a));
      }
    }
  }

  lemma {:induction false} NeverAbout(ops: seq<Op>, key: Uri, id: Identity)
    requires forall op <- ops :: RouteKey(op.uri) != key
    ensures Latest(ops, key, id) == None
  {
    hide RouteKey;
    if ops != [] {
      assert ops[|ops| - 1] in ops;
      NeverAbout(ops[..|ops| - 1], key, id);
    }
  }

  function Named(address: string, appId: string): Route {
    SOME_ROUTE.(address := address, tags := SOME_ROUTE.tags.(appId := appId))
  }

  /**
   * Over a vocabulary of URIs scans meet live routes only if and only if every URI of it is its own route
   * key; any other URI has a history after which they meet a route that was replaced.
   */
  lemma ScansShowLiveOnlyIff(uris: set<Uri>)
    ensures OwnKeys(uris) <==> forall ops: seq<Op> :: Over(uris, ops) ==> Visible(Run(ops)) <= LiveRoutes(ops)
  {
    hide RouteKey, Run, WellFormed, LiveRoutes, Visible;
    if OwnKeys(uris) {
      forall ops: seq<Op> | Over(uris, ops)
        ensures Visible(Run(ops)) <= LiveRoutes(ops)
      {
        OwnKeysUnregisterByKey(uris, ops);
        VisibleRoutesAreLive(ops);
      }
    } else {
      var u :| u in uris && RouteKey(u) != u;
      var a, b, c, newer := Named("1", "app"), Named("2", "app"), Named("3", "app"), Named("1", "other");
      ReplacedRouteStaysVisible(u, a, b, c, 1, newer);
      var ops := Straying(u, a, b, c, 1) + [Reg(u, newer, 0)];
      assert Over(uris, ops) && !(Visible(Run(ops)) <= LiveRoutes(ops));
    }
  }
}
