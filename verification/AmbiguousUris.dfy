/**
 * What holds of every history over a vocabulary of URIs exactly when no URI of it is the route key of another
 * one without being its own.
 */
module AmbiguousUris {
  import opened Options
  import opened Uris
  import opened RouteModel
  import opened RouteStore
  import opened RouteStoreProofs
  import opened StrayEntries

  // ---- registering and unregistering again ----

  /** Registering a route that its key does not have yet and unregistering it changes no slice but for nils. */
  ghost predicate RoundTrips(s: Store, uri: Uri, route: Route, spare: nat, key: Uri)
    requires WellFormed(s)
  {
    FirstEqual(Read(s, RouteKey(uri)), route) == |Read(s, RouteKey(uri))| ==>
      Routes(Read(Unregister(Register(s, uri, route, spare), uri, route), key)) == Routes(Read(s, key))
  }

  lemma ConfusionEmptiesAnotherKey(u: Uri, v: Uri, r: Route)
    requires RouteKey(u) != u && RouteKey(v) == u
    ensures !RoundTrips(Run([Reg(v, r, 0)]), u, r, 0, u)
  {
    hide RouteKey, Run, Register, Unregister;
    FirstRegister(v, r, 0);
    RunOfTwo(Reg(v, r, 0), Reg(u, r, 0));
    RunOfThree(Reg(v, r, 0), Reg(u, r, 0), Unreg(u, r));
    ConfusionLosesALiveRoute(u, v, r);
    assert FirstEqual([], r) == 0;
    assert r in Routes([Some(r)]);
  }

  /**
   * Over a vocabulary, unregistering what was freshly registered restores the routes of every key, in every
   * state, if and only if the vocabulary is unambiguous.
   */
  lemma UnregisterUndoesRegisterIff(uris: set<Uri>)
    ensures Unambiguous(uris) <==>
            forall ops: seq<Op>, uri: Uri, route: Route, spare: nat, key: Uri ::
              Over(uris, ops) && uri in uris && key in Keys(uris) ==> RoundTrips(Run(ops), uri, route, spare, key)
  {
    hide RouteKey, Run, WellFormed, RoundTrips, Isolated;
    if Unambiguous(uris) {
      forall ops: seq<Op>, uri: Uri, route: Route, spare: nat, key: Uri |
        Over(uris, ops) && uri in uris && key in Keys(uris)
        ensures RoundTrips(Run(ops), uri, route, spare, key)
      {
        UnambiguousIsContained(uris, ops);
        ContainedRunsAreExact(Keys(uris), ops);
        RoundTripsWhenIsolated(Keys(uris), Run(ops), uri, route, spare, key);
      }
    } else {
      var u :| u in uris && u in Keys(uris) && RouteKey(u) != u;
      var v :| v in uris && RouteKey(v) == u;
      ConfusionEmptiesAnotherKey(u, v, SOME_ROUTE);
      var ops := [Reg(v, SOME_ROUTE, 0)];
      assert Over(uris, ops) && !RoundTrips(Run(ops), u, SOME_ROUTE, 0, u);
    }
  }

  lemma RoundTripsWhenIsolated(keys: set<Uri>, s: Store, uri: Uri, route: Route, spare: nat, key: Uri)
    requires WellFormed(s) && Isolated(keys, s) && key in keys && RouteKey(uri) in keys
    requires uri != RouteKey(uri) ==> uri !in keys
    ensures RoundTrips(s, uri, route, spare, key)
  {
    hide RouteKey, Read, Register, Unregister, Isolated;
    if FirstEqual(Read(s, RouteKey(uri)), route) == |Read(s, RouteKey(uri))| {
      UnregisterUndoesRegister(keys, s, uri, route, spare, key);
    }
  }

  // ---- registering the same again ----

  /** A register of the identity and tags that the latest event for its key had. */
  ghost predicate RepeatsLatest(ops: seq<Op>, op: Op) {
    && op.Reg?
    && var latest := Latest(ops, RouteKey(op.uri), IdentityOf(op.route));
       latest.Some? && OwnershipOf(latest.value) == OwnershipOf(op.route)
  }

  lemma ConfusionIsNotRepeatable(u: Uri, v: Uri, r: Route)
    requires RouteKey(u) != u && RouteKey(v) == u
    ensures var ops := [Reg(v, r, 0), Reg(u, r, 0), Unreg(u, r)];
            RepeatsLatest(ops, Reg(v, r, 0)) && Run(ops + [Reg(v, r, 0)]) != Run(ops)
  {
    hide RouteKey, Run, Register, Read, LiveAt, Latest;
    var ops := [Reg(v, r, 0), Reg(u, r, 0), Unreg(u, r)];
    ConfusionLosesALiveRoute(u, v, r);
    LatestInConfusion(u, v, r);
    RunAppend(ops, Reg(v, r, 0));
    RegisterRead(Run(ops), v, r, 0);
    assert FirstStale([], r) == 0 == FirstEqual([], r);
  }

  lemma LatestInConfusion(u: Uri, v: Uri, r: Route)
    requires RouteKey(u) != u && RouteKey(v) == u
    ensures Latest([Reg(v, r, 0), Reg(u, r, 0), Unreg(u, r)], u, IdentityOf(r)) == Some(r)
  {
    hide RouteKey;
    var ops1, ops2 := [Reg(v, r, 0)], [Reg(v, r, 0), Reg(u, r, 0)];
    assert ops2[..1] == ops1 && [Reg(v, r, 0), Reg(u, r, 0), Unreg(u, r)][..2] == ops2;
    assert Latest(ops1, u, IdentityOf(r)) == Some(r);
    assert Latest(ops2, u, IdentityOf(r)) == Some(r);
  }

  lemma RunAppend(ops: seq<Op>, op: Op)
    ensures Run(ops + [op]) == Step(Run(ops), op)
  {
    hide Step;
    assert (ops + [op])[..|ops|] == ops;
  }

  /** Over a vocabulary, repeating the latest register never changes the table if and only if it is unambiguous. */
  lemma RepeatedRegisterIsNoOpIff(uris: set<Uri>)
    ensures Unambiguous(uris) <==>
            forall ops: seq<Op>, op: Op ::
              Over(uris, ops) && op.uri in uris && RepeatsLatest(ops, op) ==> Run(ops + [op]) == Run(ops)
  {
    hide RouteKey, Run, WellFormed, Latest;
    if Unambiguous(uris) {
      forall ops: seq<Op>, op: Op | Over(uris, ops) && op.uri in uris && RepeatsLatest(ops, op)
        ensures Run(ops + [op]) == Run(ops)
      {
        UnambiguousIsContained(uris, ops);
        RepeatedRegisterIsNoOp(Keys(uris), ops, op);
      }
    } else {
      var u :| u in uris && u in Keys(uris) && RouteKey(u) != u;
      var v :| v in uris && RouteKey(v) == u;
      ConfusionIsNotRepeatable(u, v, SOME_ROUTE);
      var ops, op := [Reg(v, SOME_ROUTE, 0), Reg(u, SOME_ROUTE, 0), Unreg(u, SOME_ROUTE)], Reg(v, SOME_ROUTE, 0);
      assert Over(uris, ops) && op.uri in uris && RepeatsLatest(ops, op) && Run(ops + [op]) != Run(ops);
    }
  }

  // ---- the tags of stored routes ----

  /** The slot, if it holds a route, holds one with the tags of the latest register of its identity. */
  ghost predicate TagsAreTheLatest(ops: seq<Op>, key: Uri, slot: Option<Route>) {
    slot.Some? ==>
      var latest := Latest(ops, key, IdentityOf(slot.value));
      latest.Some? && OwnershipOf(slot.value) == OwnershipOf(latest.value)
  }

  /** The entry under `u` shows a route that was never registered under the key `u`. */
  lemma ConfusionShowsAForeignRoute(u: Uri, a: Route, b: Route)
    requires RouteKey(u) != u && IdentityOf(a) != IdentityOf(b)
    ensures var ops := [Reg(u, a, 0), Reg(u, b, 0), Unreg(u, b)];
            && Read(Run(ops), u) == [Some(a)]
            && !TagsAreTheLatest(ops, u, Some(a))
  {
    hide RouteKey, Run, Register, Unregister, Latest;
    var ops := [Reg(u, a, 0), Reg(u, b, 0), Unreg(u, b)];
    RunOfThree(ops[0], ops[1], ops[2]);
    StrayingFills(u, a, b);
    StrayingSplits(u, a, b);
    assert [Some(a), None][..1] == [Some(a)];
    NeverAbout(ops, u, IdentityOf(a));
  }

  /**
   * The slice that a lookup hands out may have room in the table's own array. Appending a route to it in place
   * then puts that route under the key with which the slice shares the array.
   */
  lemma AppendingToAFoundSliceReachesTheTable(u: Uri, name: Uri, a: Route, b: Route, added: Route)
    requires RouteKey(u) != u && RouteKey(name) == u && IdentityOf(a) != IdentityOf(b)
    ensures var s := Run([Reg(u, a, 0), Reg(u, b, 0), Unreg(u, b)]);
            && Read(s, RouteKey(name)) == [Some(a)]
            && u in s.entries && s.entries[u].id < |s.backings|
            && s.entries[u].len < |s.backings[s.entries[u].id]|
            && Read(Poke(s, s.entries[u].id, s.entries[u].len, Some(added)), RouteKey(u)) == [Some(a), Some(added)]
  {
    hide RouteKey, Run, Register, Unregister;
    var ops := [Reg(u, a, 0), Reg(u, b, 0), Unreg(u, b)];
    RunOfThree(ops[0], ops[1], ops[2]);
    StrayingFills(u, a, b);
    StrayingSplits(u, a, b);
    assert [Some(a), None][1 := Some(added)] == [Some(a), Some(added)];
  }

  /** Over a vocabulary, stored tags are always the latest if and only if it is unambiguous. */
  lemma FiledTagsAreTheLatestIff(uris: set<Uri>)
    ensures Unambiguous(uris) <==>
            forall ops: seq<Op>, key: Uri, slot: Option<Route> ::
              Over(uris, ops) && key in Keys(uris) && slot in Read(Run(ops), key) ==> TagsAreTheLatest(ops, key, slot)
  {
    hide RouteKey, Run, WellFormed, Latest, TagsAreTheLatest;
    if Unambiguous(uris) {
      forall ops: seq<Op>, key: Uri, slot: Option<Route> |
        Over(uris, ops) && key in Keys(uris) && slot in Read(Run(ops), key)
        ensures TagsAreTheLatest(ops, key, slot)
      {
        UnambiguousIsContained(uris, ops);
        SlotTagsAreTheLatest(Keys(uris), ops, key, slot);
      }
    } else {
      var u :| u in uris && u in Keys(uris) && RouteKey(u) != u;
      var a, b := Named("1", "app"), Named("2", "app");
      ConfusionShowsAForeignRoute(u, a, b);
      var ops := [Reg(u, a, 0), Reg(u, b, 0), Unreg(u, b)];
      assert Over(uris, ops) && Some(a) in Read(Run(ops), u) && !TagsAreTheLatest(ops, u, Some(a));
    }
  }

  lemma SlotTagsAreTheLatest(keys: set<Uri>, ops: seq<Op>, key: Uri, slot: Option<Route>)
    requires Contained(keys, ops) && key in keys && slot in Read(Run(ops), key)
    ensures TagsAreTheLatest(ops, key, slot)
  {
    hide RouteKey, Run, Latest, Read;
    var i :| 0 <= i < |Read(Run(ops), key)| && Read(Run(ops), key)[i] == slot;
    if slot.Some? {
      FiledTagsAreTheLatest(keys, ops, key, i);
    }
  }

  // ---- listing a URI twice in one message ----

  /** The events of one register message, the last of which has a key that an earlier one has. */
  ghost predicate Relists(events: seq<Op>, again: Op) {
    && again.Reg?
    && (forall op <- events :: op.Reg? && op.route == again.route)
    && (exists op <- events :: RouteKey(op.uri) == RouteKey(again.uri))
  }

  lemma FirstEqualIs(slots: Slots, r: Route, n: nat)
    requires n <= |slots| && forall j :: 0 <= j < n ==> !Equal(r, slots[j])
    requires n < |slots| ==> Equal(r, slots[n])
    ensures FirstEqual(slots, r) == n
  {
    hide FirstEqual;
  }

  lemma FirstStaleIs(slots: Slots, r: Route, n: nat)
    requires n < |slots| && forall j :: 0 <= j < n ==> !(Equal(r, slots[j]) && NeedUpdate(r, slots[j]))
    requires Equal(r, slots[n]) && NeedUpdate(r, slots[n])
    ensures FirstStale(slots, r) == n
  {
    hide FirstStale;
  }

  /** A route not yet under its key, with room in the array of its slice. */
  lemma RegisterInPlace(s: Store, u: Uri, r: Route, spare: nat)
    requires WellFormed(s) && RouteKey(u) in s.entries
    requires FirstEqual(Read(s, RouteKey(u)), r) == |Read(s, RouteKey(u))|
    requires var span := s.entries[RouteKey(u)]; span.len < |s.backings[span.id]|
    ensures var span := s.entries[RouteKey(u)];
            Register(s, u, r, spare) ==
            Store(s.backings[span.id := s.backings[span.id][span.len := Some(r)]],
                  s.entries[RouteKey(u) := Span(span.id, span.len + 1)])
  {
    hide RouteKey;
    assert FirstStale(Read(s, RouteKey(u)), r) == |Read(s, RouteKey(u))|;
  }

  /** Two outgrown arrays and a third one. */
  function Third(a: Route, b: Route, slots: Slots, entries: map<Uri, Span>): Store {
    Store([[Some(a)], [Some(a), Some(b)], slots], entries)
  }

  /**
   * The third register leaves room for one more, as Go's append does; the unregister splits off a slice under
   * `u` that is one slot shorter, and the fourth register fills the array through the slice under the key.
   */
  function Splitting(u: Uri, a: Route, b: Route, c: Route, d: Route): seq<Op> {
    [Reg(u, a, 0), Reg(u, b, 0)] + [Reg(u, c, 1)] + [Unreg(u, c)] + [Reg(u, d, 0)]
  }

  lemma SplittingGrows(u: Uri, a: Route, b: Route, c: Route)
    requires IdentityOf(a) != IdentityOf(c) && IdentityOf(b) != IdentityOf(c)
    ensures Register(Store([[Some(a)], [Some(a), Some(b)]], map[RouteKey(u) := Span(1, 2)]), u, c, 1) ==
            Third(a, b, [Some(a), Some(b), Some(c), None], map[RouteKey(u) := Span(2, 3)])
  {
    hide RouteKey, Register, FirstEqual;
    var s := Store([[Some(a)], [Some(a), Some(b)]], map[RouteKey(u) := Span(1, 2)]);
    assert Read(s, RouteKey(u)) == [Some(a), Some(b)];
    FirstEqualIs([Some(a), Some(b)], c, 2);
    RegisterAnew(s, u, c, 1);
    assert [Some(a), Some(b)] + [Some(c)] + Nils(1) == [Some(a), Some(b), Some(c), None];
  }

  lemma SplittingSplits(u: Uri, a: Route, b: Route, c: Route)
    requires RouteKey(u) != u && IdentityOf(a) != IdentityOf(c) && IdentityOf(b) != IdentityOf(c)
    ensures Unregister(Third(a, b, [Some(a), Some(b), Some(c), None], map[RouteKey(u) := Span(2, 3)]), u, c) ==
            Third(a, b, [Some(a), Some(b), None, None], map[RouteKey(u) := Span(2, 3), u := Span(2, 2)])
  {
    hide RouteKey, FirstEqual;
    var slots := [Some(a), Some(b), Some(c), None];
    var s := Third(a, b, slots, map[RouteKey(u) := Span(2, 3)]);
    assert Read(s, RouteKey(u)) == [Some(a), Some(b), Some(c)];
    FirstEqualIs([Some(a), Some(b), Some(c)], c, 2);
    assert slots[2 := Some(c)][2 := None] == [Some(a), Some(b), None, None];
  }

  lemma SplittingFills(u: Uri, a: Route, b: Route, d: Route)
    requires RouteKey(u) != u && IdentityOf(a) != IdentityOf(d) && IdentityOf(b) != IdentityOf(d)
    ensures var s := Third(a, b, [Some(a), Some(b), None, None], map[RouteKey(u) := Span(2, 3), u := Span(2, 2)]);
            Register(s, u, d, 0) ==
            Third(a, b, [Some(a), Some(b), None, Some(d)], map[RouteKey(u) := Span(2, 4), u := Span(2, 2)])
  {
    hide RouteKey, Register, FirstEqual;
    var s := Third(a, b, [Some(a), Some(b), None, None], map[RouteKey(u) := Span(2, 3), u := Span(2, 2)]);
    assert Read(s, RouteKey(u)) == [Some(a), Some(b), None];
    FirstEqualIs([Some(a), Some(b), None], d, 3);
    RegisterInPlace(s, u, d, 0);
    hide FirstEqual, Read, WellFormed, Equal, IdentityOf;
    assert [Some(a), Some(b), None, None][3 := Some(d)] == [Some(a), Some(b), None, Some(d)];
    SecondEntryStays(RouteKey(u), Span(2, 3), Span(2, 4), u, Span(2, 2));
  }

  lemma SecondEntryStays(key: Uri, from: Span, to: Span, u: Uri, span: Span)
    requires key != u
    ensures map[key := from, u := span][key := to] == map[key := to, u := span]
  {
  }

  lemma SplittingRun(u: Uri, a: Route, b: Route, c: Route, d: Route)
    requires RouteKey(u) != u && IdentityOf(a) != IdentityOf(b)
    requires IdentityOf(a) != IdentityOf(c) && IdentityOf(b) != IdentityOf(c)
    requires IdentityOf(a) != IdentityOf(d) && IdentityOf(b) != IdentityOf(d)
    ensures Run(Splitting(u, a, b, c, d)) ==
            Third(a, b, [Some(a), Some(b), None, Some(d)], map[RouteKey(u) := Span(2, 4), u := Span(2, 2)])
  {
    hide RouteKey, Run, Register, Unregister, Third;
    var ops := [Reg(u, a, 0), Reg(u, b, 0)];
    RunAppend(ops, Reg(u, c, 1));
    RunAppend(ops + [Reg(u, c, 1)], Unreg(u, c));
    RunAppend(ops + [Reg(u, c, 1)] + [Unreg(u, c)], Reg(u, d, 0));
    StrayingFills(u, a, b);
    SplittingGrows(u, a, b, c);
    SplittingSplits(u, a, b, c);
    SplittingFills(u, a, b, d);
  }

  /** Registering by the other URI writes into the array between, so the key shows two Equal routes. */
  lemma TwiceUnderOneKey(u: Uri, v: Uri, a: Route, b: Route, c: Route, d: Route, d': Route)
    requires RouteKey(u) != u && RouteKey(v) == u && IdentityOf(a) != IdentityOf(b)
    requires IdentityOf(a) != IdentityOf(c) && IdentityOf(b) != IdentityOf(c)
    requires IdentityOf(a) != IdentityOf(d) && IdentityOf(b) != IdentityOf(d) && IdentityOf(d) == IdentityOf(d')
    ensures Read(Run(Splitting(u, a, b, c, d) + [Reg(v, d', 0)]), RouteKey(u)) == [Some(a), Some(b), Some(d'), Some(d)]
  {
    hide RouteKey, Run, Register, Splitting, FirstEqual;
    var s := Third(a, b, [Some(a), Some(b), None, Some(d)], map[RouteKey(u) := Span(2, 4), u := Span(2, 2)]);
    SplittingRun(u, a, b, c, d);
    RunAppend(Splitting(u, a, b, c, d), Reg(v, d', 0));
    assert Read(s, u) == [Some(a), Some(b)];
    FirstEqualIs([Some(a), Some(b)], d', 2);
    RegisterInPlace(s, v, d', 0);
  }

  /** Of two Equal routes under a key, each register of a third version replaces one. */
  lemma TwiceIsNotOnce(ops: seq<Op>, u: Uri, a: Route, b: Route, d: Route, d': Route, newer: Route)
    requires Read(Run(ops), RouteKey(u)) == [Some(a), Some(b), Some(d'), Some(d)]
    requires IdentityOf(a) != IdentityOf(newer) && IdentityOf(b) != IdentityOf(newer)
    requires IdentityOf(d) == IdentityOf(newer) && IdentityOf(d') == IdentityOf(newer)
    requires OwnershipOf(d) != OwnershipOf(newer) && OwnershipOf(d') != OwnershipOf(newer)
    ensures Run(ops + [Reg(u, newer, 0)] + [Reg(u, newer, 0)]) != Run(ops + [Reg(u, newer, 0)])
  {
    hide RouteKey, Run, Register, FirstEqual, FirstStale, Read;
    var event := Reg(u, newer, 0);
    RunAppend(ops, event);
    RunAppend(ops + [event], event);
    RegisterRead(Run(ops), u, newer, 0);
    RegisterRead(Run(ops + [event]), u, newer, 0);
    FirstStaleIs([Some(a), Some(b), Some(d'), Some(d)], newer, 2);
    assert [Some(a), Some(b), Some(d'), Some(d)][2 := Some(newer)] == [Some(a), Some(b), Some(newer), Some(d)];
    FirstStaleIs([Some(a), Some(b), Some(newer), Some(d)], newer, 3);
    assert Read(Run(ops + [event]), RouteKey(u))[3] == Some(d);
    assert Read(Run(ops + [event] + [event]), RouteKey(u))[3] == Some(newer);
  }

  /**
   * Over a vocabulary, a URI that a message lists twice, in one spelling or two, always counts once if and
   * only if the vocabulary is unambiguous.
   */
  lemma ListedTwiceIsListedOnceIff(uris: set<Uri>)
    ensures Unambiguous(uris) <==>
            forall before: seq<Op>, events: seq<Op>, again: Op, after: seq<Op> ::
              Over(uris, before + events) && again.uri in uris && Relists(events, again) ==>
                Run(before + events + [again] + after) == Run(before + events + after)
  {
    hide RouteKey, Run, WellFormed, Relists;
    if Unambiguous(uris) {
      forall before: seq<Op>, events: seq<Op>, again: Op, after: seq<Op> |
        Over(uris, before + events) && again.uri in uris && Relists(events, again)
        ensures Run(before + events + [again] + after) == Run(before + events + after)
      {
        UnambiguousIsContained(uris, before + events);
        RelistedWhenContained(Keys(uris), before, events, again, after);
      }
    } else {
      var u :| u in uris && u in Keys(uris) && RouteKey(u) != u;
      var v :| v in uris && RouteKey(v) == u;
      ListedTwiceAfterConfusion(uris, u, v);
    }
  }

  lemma RelistedWhenContained(keys: set<Uri>, before: seq<Op>, events: seq<Op>, again: Op, after: seq<Op>)
    requires Contained(keys, before + events) && Relists(events, again)
    ensures Run(before + events + [again] + after) == Run(before + events + after)
  {
    hide RouteKey, Run, Contained;
    ListedTwiceIsListedOnce(keys, before, events, again, after);
  }

  lemma ListedTwiceAfterConfusion(uris: set<Uri>, u: Uri, v: Uri)
    requires u in uris && v in uris && RouteKey(u) != u && RouteKey(v) == u
    ensures exists before: seq<Op>, events: seq<Op>, again: Op, after: seq<Op> ::
              && Over(uris, before + events) && again.uri in uris && Relists(events, again)
              && Run(before + events + [again] + after) != Run(before + events + after)
  {
    hide RouteKey, Run;
    var a, b, c := Named("1", "app"), Named("2", "app"), Named("3", "app");
    var d, d', newer := Named("4", "app"), Named("4", "other"), Named("4", "third");
    var before := Splitting(u, a, b, c, d) + [Reg(v, d', 0)];
    var again := Reg(u, newer, 0);
    TwiceUnderOneKey(u, v, a, b, c, d, d');
    TwiceIsNotOnce(before, u, a, b, d, d', newer);
    assert again in [again] && Relists([again], again);
    assert Over(uris, before + [again]);
    assert before + [again] + [again] + [] == before + [again] + [again] && before + [again] + [] == before + [again];
  }
}
