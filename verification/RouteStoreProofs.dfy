/** What histories of register and unregister events leave in the table. */
module RouteStoreProofs {
  import opened Options
  import opened Uris
  import opened RouteModel
  import opened RouteStore

  // ---- one slice ----

  ghost function SlotsAfterRegister(slots: Slots, route: Route): Slots {
    var stale := FirstStale(slots, route);
    if stale < |slots| then slots[stale := Some(route)]
    else if FirstEqual(slots, route) < |slots| then slots
    else slots + [Some(route)]
  }

  /** The swap with the last slot; the slice keeps its length and ends in nil. */
  ghost function SlotsAfterSwap(slots: Slots, i: nat): Slots
    requires i < |slots|
  {
    slots[i := slots[|slots| - 1]][|slots| - 1 := None]
  }

  lemma RegisterRead(s: Store, uri: Uri, route: Route, spare: nat)
    requires WellFormed(s)
    ensures Read(Register(s, uri, route, spare), RouteKey(uri)) == SlotsAfterRegister(Read(s, RouteKey(uri)), route)
  {
    hide RouteKey;
    var key := RouteKey(uri);
    if key !in s.entries {
      assert FirstStale([], route) == 0 == FirstEqual([], route);
    }
  }

  /** Slot by slot: the first stale Equal route is replaced, or a new route is added at the end. */
  lemma RegisterPlaces(s: Store, uri: Uri, route: Route, spare: nat)
    requires WellFormed(s)
    ensures var slots := Read(s, RouteKey(uri));
            var slots' := Read(Register(s, uri, route, spare), RouteKey(uri));
            if exists i :: 0 <= i < |slots| && Equal(route, slots[i]) && NeedUpdate(route, slots[i]) then
              exists i :: && 0 <= i < |slots| && Equal(route, slots[i]) && NeedUpdate(route, slots[i])
                          && (forall j :: 0 <= j < i ==> !(Equal(route, slots[j]) && NeedUpdate(route, slots[j])))
                          && |slots'| == |slots| && slots'[i] == Some(route)
                          && (forall j :: 0 <= j < |slots| && j != i ==> slots'[j] == slots[j])
            else if exists i :: 0 <= i < |slots| && Equal(route, slots[i]) then slots' == slots
            else |slots'| == |slots| + 1 && slots'[..|slots|] == slots && slots'[|slots|] == Some(route)
  {
    hide RouteKey, Register, Read, FirstEqual, FirstStale, Equal, NeedUpdate;
    RegisterRead(s, uri, route, spare);
  }

  lemma UnregisterRead(s: Store, uri: Uri, route: Route)
    requires WellFormed(s)
    ensures var key := RouteKey(uri);
            var slots := Read(s, key);
            var i := FirstEqual(slots, route);
            Read(Unregister(s, uri, route), key) ==
              if i == |slots| then slots
              else if uri == key then SlotsAfterSwap(slots, i)[..|slots| - 1]
              else SlotsAfterSwap(slots, i)
  {
    hide RouteKey;
  }

  /** Slot by slot: the last slot moves to the place of the first Equal one; its own place is cut off or nil. */
  lemma UnregisterPlaces(s: Store, uri: Uri, route: Route)
    requires WellFormed(s)
    ensures var slots := Read(s, RouteKey(uri));
            var slots' := Read(Unregister(s, uri, route), RouteKey(uri));
            if exists i :: 0 <= i < |slots| && Equal(route, slots[i]) then
              exists i :: && 0 <= i < |slots| && Equal(route, slots[i])
                          && (forall j :: 0 <= j < i ==> !Equal(route, slots[j]))
                          && |slots'| == (if uri == RouteKey(uri) then |slots| - 1 else |slots|)
                          && (i < |slots| - 1 ==> slots'[i] == slots[|slots| - 1])
                          && (forall j :: 0 <= j < |slots| - 1 && j != i ==> slots'[j] == slots[j])
                          && (uri != RouteKey(uri) ==> slots'[|slots| - 1] == None)
            else slots' == slots
  {
    hide RouteKey, Unregister, Read, FirstEqual, Equal;
    UnregisterRead(s, uri, route);
  }

  ghost predicate Apart(s: Store, u: Uri, v: Uri) {
    u in s.entries && v in s.entries ==> s.entries[u].id != s.entries[v].id
  }

  lemma StepElsewhere(s: Store, op: Op, k: Uri)
    requires WellFormed(s)
    requires k != RouteKey(op.uri) && Apart(s, k, RouteKey(op.uri))
    requires op.Unreg? ==> k != op.uri
    ensures Read(Step(s, op), k) == Read(s, k)
    ensures k in Step(s, op).entries <==> k in s.entries
    ensures k in s.entries ==> Step(s, op).entries[k] == s.entries[k]
  {
    hide RouteKey;
  }

  // ---- one key ----

  lemma NotLive(slots: Slots, live: Live, route: Route)
    requires Complete(slots, live) && FirstEqual(slots, route) == |slots|
    ensures IdentityOf(route) !in live
  {
    assert forall i :: 0 <= i < |slots| ==> !Equal(route, slots[i]);
  }

  lemma ReplaceRepresents(slots: Slots, live: Live, route: Route, i: nat)
    requires Represents(slots, live) && i < |slots| && Equal(route, slots[i])
    ensures Represents(slots[i := Some(route)], live[IdentityOf(route) := route])
  {
    var slots', live' := slots[i := Some(route)], live[IdentityOf(route) := route];
    assert slots'[i] == Some(live'[IdentityOf(route)]);
    forall other <- live'
      ensures IdentityOf(live'[other]) == other && Some(live'[other]) in slots'
    {
      if other != IdentityOf(route) {
        var k :| 0 <= k < |slots| && slots[k] == Some(live[other]);
        assert slots'[k] == slots[k];
      }
    }
  }

  lemma AddRepresents(slots: Slots, live: Live, route: Route)
    requires Represents(slots, live) && IdentityOf(route) !in live
    ensures Represents(slots + [Some(route)], live[IdentityOf(route) := route])
  {
    var slots', live' := slots + [Some(route)], live[IdentityOf(route) := route];
    assert slots'[|slots|] == Some(live'[IdentityOf(route)]);
    forall other <- live'
      ensures IdentityOf(live'[other]) == other && Some(live'[other]) in slots'
    {
      if other != IdentityOf(route) {
        var k :| 0 <= k < |slots| && slots[k] == Some(live[other]);
        assert slots'[k] == slots[k];
      }
    }
  }

  lemma RegisterRepresents(slots: Slots, live: Live, op: Op)
    requires op.Reg? && Represents(slots, live)
    ensures Represents(SlotsAfterRegister(slots, op.route), LiveAfter(live, op))
  {
    var route := op.route;
    var stale, equal := FirstStale(slots, route), FirstEqual(slots, route);
    if stale < |slots| {
      ReplaceRepresents(slots, live, route, stale);
      hide Represents;
      assert IdentityOf(route) in live && live[IdentityOf(route)] == slots[stale].value;
    } else if equal < |slots| {
      assert LiveAfter(live, op) == live;
    } else {
      NotLive(slots, live, route);
      AddRepresents(slots, live, route);
    }
  }

  lemma SwapMoves(slots: Slots, i: nat, j: nat)
    requires i < |slots| && j < |slots|
    ensures SlotsAfterSwap(slots, i)[j] ==
            if j == |slots| - 1 then None else if j == i then slots[|slots| - 1] else slots[j]
  {
  }

  lemma SwapIsSound(slots: Slots, live: Live, i: nat)
    requires Sound(slots, live) && Distinct(slots) && i < |slots| && slots[i].Some?
    ensures Sound(SlotsAfterSwap(slots, i), live - {IdentityOf(slots[i].value)})
  {
    var slots' := SlotsAfterSwap(slots, i);
    forall j | 0 <= j < |slots'| && slots'[j].Some?
      ensures IdentityOf(slots'[j].value) in live - {IdentityOf(slots[i].value)}
      ensures live[IdentityOf(slots'[j].value)] == slots'[j].value
    {
      SwapMoves(slots, i, j);
      var from := if j == i then |slots| - 1 else j;
      assert slots'[j] == slots[from] && from != i;
    }
  }

  lemma SwapIsComplete(slots: Slots, live: Live, i: nat)
    requires Sound(slots, live) && Complete(slots, live) && i < |slots| && slots[i].Some?
    ensures Complete(SlotsAfterSwap(slots, i), live - {IdentityOf(slots[i].value)})
  {
    var slots', live' := SlotsAfterSwap(slots, i), live - {IdentityOf(slots[i].value)};
    forall id <- live'
      ensures Some(live'[id]) in slots'
    {
      var j :| 0 <= j < |slots| && slots[j] == Some(live[id]);
      assert IdentityOf(slots[j].value) == id;
      var to := if j == |slots| - 1 then i else j;
      SwapMoves(slots, i, to);
      assert slots'[to] == slots[j];
    }
  }

  lemma SwapIsDistinct(slots: Slots, i: nat)
    requires Distinct(slots) && i < |slots|
    ensures Distinct(SlotsAfterSwap(slots, i))
  {
    var slots' := SlotsAfterSwap(slots, i);
    forall j, k | 0 <= j < k < |slots'| && slots'[j].Some? && slots'[k].Some?
      ensures IdentityOf(slots'[j].value) != IdentityOf(slots'[k].value)
    {
      SwapMoves(slots, i, j);
      SwapMoves(slots, i, k);
    }
  }

  lemma SwapRepresents(slots: Slots, live: Live, i: nat)
    requires Represents(slots, live) && i < |slots| && slots[i].Some?
    ensures var slots', live' := SlotsAfterSwap(slots, i), live - {IdentityOf(slots[i].value)};
            Represents(slots', live') && Represents(slots'[..|slots| - 1], live')
  {
    SwapIsSound(slots, live, i);
    SwapIsComplete(slots, live, i);
    SwapIsDistinct(slots, i);
    var slots', live' := SlotsAfterSwap(slots, i), live - {IdentityOf(slots[i].value)};
    forall id <- live'
      ensures Some(live'[id]) in slots'[..|slots| - 1]
    {
      var j :| 0 <= j < |slots'| && slots'[j] == Some(live'[id]);
      assert slots'[..|slots| - 1][j] == slots'[j];
    }
  }

  lemma UnregisterRepresents(slots: Slots, live: Live, op: Op)
    requires op.Unreg? && Represents(slots, live)
    ensures var i := FirstEqual(slots, op.route);
            if i == |slots| then Represents(slots, LiveAfter(live, op))
            else Represents(SlotsAfterSwap(slots, i), LiveAfter(live, op)) &&
                 Represents(SlotsAfterSwap(slots, i)[..|slots| - 1], LiveAfter(live, op))
  {
    hide Sound, Complete, Distinct, SlotsAfterSwap;
    var i := FirstEqual(slots, op.route);
    if i < |slots| {
      SwapRepresents(slots, live, i);
      assert IdentityOf(slots[i].value) == IdentityOf(op.route);
    } else {
      NotLive(slots, live, op.route);
      assert LiveAfter(live, op) == live;
    }
  }

  lemma StepRepresents(s: Store, op: Op, live: Live)
    requires WellFormed(s) && Represents(Read(s, RouteKey(op.uri)), live)
    ensures Represents(Read(Step(s, op), RouteKey(op.uri)), LiveAfter(live, op))
  {
    hide RouteKey, Register, Unregister, Read, WellFormed, Represents, LiveAfter, SlotsAfterRegister, SlotsAfterSwap;
    var slots := Read(s, RouteKey(op.uri));
    match op
    case Reg(uri, route, spare) =>
      RegisterRead(s, uri, route, spare);
      RegisterRepresents(slots, live, op);
    case Unreg(uri, route) =>
      UnregisterRead(s, uri, route);
      UnregisterRepresents(slots, live, op);
  }

  // ---- whole histories ----

  ghost function KeysOf(ops: seq<Op>): set<Uri> {
    set op <- ops :: RouteKey(op.uri)
  }

  /** Every event uses a key of `keys`, and no unregister files its slice under a foreign key of `keys`. */
  ghost predicate Contained(keys: set<Uri>, ops: seq<Op>) {
    forall op <- ops ::
      RouteKey(op.uri) in keys && (op.Unreg? && op.uri != RouteKey(op.uri) ==> op.uri !in keys)
  }

  /** The key on whose backing arrays the entry at `u` may lie. */
  ghost function Owner(keys: set<Uri>, u: Uri): Uri {
    if u in keys then u else RouteKey(u)
  }

  /** Entries sharing a backing array have the same owner. */
  ghost predicate Isolated(keys: set<Uri>, s: Store) {
    forall u, v :: u in s.entries && v in s.entries && s.entries[u].id == s.entries[v].id ==>
      Owner(keys, u) == Owner(keys, v)
  }

  ghost predicate Exact(s: Store, ops: seq<Op>, key: Uri)
    requires WellFormed(s)
  {
    Represents(Read(s, key), LiveAt(ops, key))
  }

  /** Where the entries of the table lie after a step. */
  lemma StepEntries(s: Store, op: Op, v: Uri)
    requires WellFormed(s) && v in Step(s, op).entries
    ensures var key, t := RouteKey(op.uri), Step(s, op);
            || (v in s.entries && t.entries[v].id == s.entries[v].id)
            || (v == key && t.entries[v].id == |s.backings|)
            || (op.Unreg? && v == op.uri && key in s.entries && t.entries[v].id == s.entries[key].id)
  {
    hide RouteKey;
  }

  /** After a step, an entry on an array of before shares it with an entry of before with the same owner. */
  lemma StepKeepsOwner(keys: set<Uri>, s: Store, op: Op, u: Uri) returns (old_u: Uri)
    requires WellFormed(s) && Contained(keys, [op]) && u in Step(s, op).entries
    ensures Step(s, op).entries[u].id == |s.backings| ==> u == RouteKey(op.uri)
    ensures Step(s, op).entries[u].id != |s.backings| ==>
              && old_u in s.entries && s.entries[old_u].id == Step(s, op).entries[u].id
              && Owner(keys, old_u) == Owner(keys, u)
  {
    hide RouteKey, Step;
    assert op in [op];
    StepEntries(s, op, u);
    old_u := if u in s.entries && s.entries[u].id == Step(s, op).entries[u].id then u else RouteKey(op.uri);
  }

  lemma StepIsolated(keys: set<Uri>, s: Store, op: Op)
    requires WellFormed(s) && Isolated(keys, s) && Contained(keys, [op])
    ensures Isolated(keys, Step(s, op))
  {
    hide RouteKey, Step, Owner, Contained;
    var t := Step(s, op);
    forall u, v | u in t.entries && v in t.entries && t.entries[u].id == t.entries[v].id
      ensures Owner(keys, u) == Owner(keys, v)
    {
      var old_u := StepKeepsOwner(keys, s, op, u);
      var old_v := StepKeepsOwner(keys, s, op, v);
    }
  }

  lemma StepExact(keys: set<Uri>, ops: seq<Op>, op: Op, key: Uri)
    requires key in keys && Contained(keys, [op]) && Isolated(keys, Run(ops)) && Exact(Run(ops), ops, key)
    ensures Exact(Run(ops + [op]), ops + [op], key)
  {
    hide RouteKey, Represents, WellFormed, Step;
    assert op in [op] && (ops + [op])[..|ops|] == ops;
    if key == RouteKey(op.uri) {
      StepRepresents(Run(ops), op, LiveAt(ops, key));
    } else {
      StepElsewhere(Run(ops), op, key);
    }
  }

  /**
   * In every contained history each key's slice holds, nil slots aside, exactly the live routes of that key,
   * in spite of slices filed under foreign URIs, nil tails and shared backing arrays.
   */
  lemma {:induction false} ContainedRunsAreExact(keys: set<Uri>, ops: seq<Op>)
    requires Contained(keys, ops)
    ensures Isolated(keys, Run(ops))
    ensures forall key <- keys :: Exact(Run(ops), ops, key)
  {
    hide RouteKey, Represents, WellFormed, Step, Isolated;
    if ops == [] {
      EmptyIsExact(keys);
    } else {
      var before, op := ops[..|ops| - 1], ops[|ops| - 1];
      assert op in ops && ops == before + [op];
      ContainedRunsAreExact(keys, before);
      StepIsolated(keys, Run(before), op);
      forall key <- keys
        ensures Exact(Run(ops), ops, key)
      {
        StepExact(keys, before, op, key);
      }
    }
  }

  lemma EmptyIsExact(keys: set<Uri>)
    ensures Isolated(keys, Run([])) && forall key :: Exact(Run([]), [], key)
  {
  }

  /** All events of the history are about URIs of `uris`. */
  ghost predicate Over(uris: set<Uri>, ops: seq<Op>) {
    forall op <- ops :: op.uri in uris
  }

  ghost function Keys(uris: set<Uri>): set<Uri> {
    set u <- uris :: RouteKey(u)
  }

  /** No URI of the vocabulary is the route key of another one without being its own. */
  ghost predicate Unambiguous(uris: set<Uri>) {
    forall u <- uris :: u in Keys(uris) ==> RouteKey(u) == u
  }

  lemma ConfusionLosesALiveRoute(u: Uri, v: Uri, r: Route)
    requires RouteKey(u) != u && RouteKey(v) == u
    ensures var ops := [Reg(v, r, 0), Reg(u, r, 0), Unreg(u, r)];
            Read(Run(ops), u) == [] && LiveAt(ops, u) == map[IdentityOf(r) := r] && !Exact(Run(ops), ops, u)
  {
    hide RouteKey;
    var op0, op1, op2 := Reg(v, r, 0), Reg(u, r, 0), Unreg(u, r);
    var ops := [op0, op1, op2];
    assert ops[..2] == [op0, op1] && [op0, op1][..1] == [op0] && [op0][..0] == [];
    assert Run([]) == EMPTY;
    var s1 := Run([op0]);
    var s2 := Run([op0, op1]);
    assert Nils(0) == [];
    assert s1.entries == map[u := Span(0, 1)];
    assert Read(s2, RouteKey(u)) == [Some(r)];
    assert FirstEqual([Some(r)], r) == 0;
    assert Run(ops) == Unregister(s2, u, r);
    assert LiveAt([op0, op1], u) == LiveAt([op0], u) == map[IdentityOf(r) := r];
    assert IdentityOf(r) in LiveAt(ops, u);
  }

  lemma UnambiguousIsContained(uris: set<Uri>, ops: seq<Op>)
    requires Unambiguous(uris) && Over(uris, ops)
    ensures Contained(Keys(uris), ops)
  {
    hide RouteKey;
  }

  /**
   * Over a vocabulary of URIs every history is exact at every key if and only if the vocabulary is
   * unambiguous. The failing family: a URI which ends in a slash and is itself the key of another URI.
   */
  lemma ExactIffUnambiguous(uris: set<Uri>)
    ensures Unambiguous(uris) <==>
            forall ops: seq<Op>, key: Uri :: Over(uris, ops) && key in Keys(uris) ==> Exact(Run(ops), ops, key)
  {
    hide RouteKey;
    hide Exact, Run, WellFormed;
    if Unambiguous(uris) {
      forall ops: seq<Op>, key: Uri | Over(uris, ops) && key in Keys(uris)
        ensures Exact(Run(ops), ops, key)
      {
        UnambiguousIsContained(uris, ops);
        ContainedRunsAreExact(Keys(uris), ops);
      }
    } else {
      var u :| u in uris && u in Keys(uris) && RouteKey(u) != u;
      var v :| v in uris && RouteKey(v) == u;
      var r := Route("", Tags("", "", "", "", "", "", "", "", "", "", "", ""), "", "", false, 0, map[], "", "");
      ConfusionLosesALiveRoute(u, v, r);
      var ops := [Reg(v, r, 0), Reg(u, r, 0), Unreg(u, r)];
      assert Over(uris, ops) && !Exact(Run(ops), ops, u);
    }
  }

  /** Vocabularies none of whose route keys ends in a slash are unambiguous. */
  lemma SlashFreeKeysAreUnambiguous(uris: set<Uri>)
    requires forall u <- uris :: !EndsInSlash(RouteKey(u))
    ensures Unambiguous(uris)
  {
    hide RouteKey;
    forall u <- uris | u in Keys(uris)
      ensures RouteKey(u) == u
    {
      var v :| v in uris && RouteKey(v) == u;
      RouteKeyIsKeyShaped(v);
      OwnKeyIff(u);
    }
  }

  // ---- histories that unregister under route keys only ----

  ghost predicate UnregistersByKey(ops: seq<Op>) {
    forall op <- ops :: op.Unreg? ==> op.uri == RouteKey(op.uri)
  }

  ghost function RegisteredKeys(ops: seq<Op>): set<Uri> {
    set op <- ops | op.Reg? :: RouteKey(op.uri)
  }

  /** No nil slot, no shared array, and no entry but those of registered keys. */
  ghost predicate Clean(s: Store, ops: seq<Op>)
    requires WellFormed(s)
  {
    && (forall u <- s.entries :: NilFree(Read(s, u)))
    && (forall u <- s.entries :: u in RegisteredKeys(ops))
    && (forall u, v :: u in s.entries && v in s.entries && u != v ==> Apart(s, u, v))
  }

  lemma StepKeepsNilFree(s: Store, op: Op)
    requires WellFormed(s) && NilFree(Read(s, RouteKey(op.uri)))
    requires op.Unreg? ==> op.uri == RouteKey(op.uri)
    ensures NilFree(Read(Step(s, op), RouteKey(op.uri)))
  {
    hide RouteKey, Read, Register, Unregister, WellFormed, Equal, NeedUpdate;
    match op {
      case Reg(uri, route, spare) => RegisterRead(s, uri, route, spare);
      case Unreg(uri, route) => UnregisterRead(s, uri, route);
    }
  }

  /** An unregister by key files nothing new. */
  lemma UnregisterKeepsEntries(s: Store, uri: Uri, route: Route)
    requires WellFormed(s) && uri == RouteKey(uri)
    ensures Unregister(s, uri, route).entries.Keys == s.entries.Keys
  {
    hide RouteKey;
  }

  lemma StepFilesRegistered(s: Store, ops: seq<Op>, op: Op)
    requires WellFormed(s) && s.entries.Keys <= RegisteredKeys(ops)
    requires op.Unreg? ==> op.uri == RouteKey(op.uri)
    ensures Step(s, op).entries.Keys <= RegisteredKeys(ops + [op])
  {
    hide RouteKey, Register, Unregister;
    assert forall o <- ops :: o in ops + [op];
    assert op in ops + [op];
    match op
    case Reg(uri, route, spare) =>
      forall u <- Step(s, op).entries
        ensures u in RegisteredKeys(ops + [op])
      {
        StepEntries(s, op, u);
      }
    case Unreg(uri, route) =>
      UnregisterKeepsEntries(s, uri, route);
  }

  lemma StepKeepsClean(s: Store, ops: seq<Op>, op: Op)
    requires WellFormed(s) && Clean(s, ops)
    requires op.Unreg? ==> op.uri == RouteKey(op.uri)
    ensures Clean(Step(s, op), ops + [op])
  {
    hide RouteKey, Step, NilFree, Read, RegisteredKeys;
    var key, t := RouteKey(op.uri), Step(s, op);
    StepFilesRegistered(s, ops, op);
    forall u <- t.entries
      ensures NilFree(Read(t, u))
    {
      StepEntries(s, op, u);
      if u != key {
        StepElsewhere(s, op, u);
      } else {
        NilFreeRead(s, ops, key);
        StepKeepsNilFree(s, op);
      }
    }
    forall u, v | u in t.entries && v in t.entries && u != v
      ensures Apart(t, u, v)
    {
      StepEntries(s, op, u);
      StepEntries(s, op, v);
    }
  }

  lemma EmptyIsClean()
    ensures Clean(Run([]), [])
  {
  }

  lemma NilFreeRead(s: Store, ops: seq<Op>, key: Uri)
    requires WellFormed(s) && Clean(s, ops)
    ensures NilFree(Read(s, key))
  {
  }

  /**
   * When every URI that is unregistered is its own route key, the whole table is a map from keys to their
   * live routes: every lookup at any name yields exactly these, without nil slots.
   */
  lemma {:induction false} KeyedRunsAreClean(ops: seq<Op>)
    requires UnregistersByKey(ops)
    ensures Clean(Run(ops), ops)
    ensures forall key :: Exact(Run(ops), ops, key) && NilFree(Read(Run(ops), key))
  {
    hide RouteKey, Step, Clean, Represents, NilFree, Read, WellFormed;
    if ops != [] {
      var before, op := ops[..|ops| - 1], ops[|ops| - 1];
      KeyedRunsAreClean(before);
      assert op in ops && ops == before + [op];
      StepKeepsClean(Run(before), before, op);
    } else {
      EmptyIsClean();
    }
    forall key
      ensures Exact(Run(ops), ops, key) && NilFree(Read(Run(ops), key))
    {
      ContainedRunsAreExact(KeysOf(ops) + {key}, ops);
      NilFreeRead(Run(ops), ops, key);
    }
  }

  /** One unregister leaves a clean table clean exactly when it is by key or finds nothing to remove. */
  lemma UnregisterKeepsCleanIff(s: Store, ops: seq<Op>, uri: Uri, route: Route)
    requires WellFormed(s) && Clean(s, ops)
    ensures Clean(Unregister(s, uri, route), ops + [Unreg(uri, route)]) <==>
            uri == RouteKey(uri) || FirstEqual(Read(s, RouteKey(uri)), route) == |Read(s, RouteKey(uri))|
  {
    hide RouteKey;
    var key, op := RouteKey(uri), Unreg(uri, route);
    var slots, t := Read(s, key), Unregister(s, uri, route);
    UnregisterRead(s, uri, route);
    if uri == key {
      StepKeepsClean(s, ops, op);
    } else if FirstEqual(slots, route) == |slots| {
      assert forall o <- ops :: o in ops + [op];
    } else {
      assert Read(t, key)[|slots| - 1] == None;
      assert key in t.entries;
    }
  }

  // ---- only registered routes are ever filed ----

  /** Every route stored anywhere, even in arrays no entry uses any more, satisfies `ok`. */
  ghost predicate Holds(s: Store, ok: Route -> bool) {
    forall b, i :: 0 <= b < |s.backings| && 0 <= i < |s.backings[b]| && s.backings[b][i].Some? ==>
      ok(s.backings[b][i].value)
  }

  lemma PokeHolds(s: Store, id: nat, i: nat, slot: Option<Route>, ok: Route -> bool)
    requires id < |s.backings| && i < |s.backings[id]|
    requires Holds(s, ok) && (slot.Some? ==> ok(slot.value))
    ensures Holds(Poke(s, id, i, slot), ok)
  {
  }

  lemma StepHolds(s: Store, op: Op, ok: Route -> bool)
    requires WellFormed(s) && Holds(s, ok) && (op.Reg? ==> ok(op.route))
    ensures Holds(Step(s, op), ok)
  {
    hide RouteKey, FirstEqual, FirstStale;
    var key := RouteKey(op.uri);
    if key in s.entries {
      var slots, span := Read(s, key), s.entries[key];
      match op
      case Reg(_, route, spare) =>
        var stale := FirstStale(slots, route);
        if stale < |slots| {
          PokeHolds(s, span.id, stale, Some(route), ok);
        } else if span.len < |s.backings[span.id]| {
          PokeHolds(s, span.id, span.len, Some(route), ok);
        }
      case Unreg(_, route) =>
        var i := FirstEqual(slots, route);
        if i < |slots| {
          PokeHolds(s, span.id, i, slots[span.len - 1], ok);
          PokeHolds(Poke(s, span.id, i, slots[span.len - 1]), span.id, span.len - 1, None, ok);
        }
    }
  }

  lemma {:induction false} OnlyRegisteredRoutesAreFiled(ops: seq<Op>, ok: Route -> bool)
    requires forall op <- ops :: op.Reg? ==> ok(op.route)
    ensures Holds(Run(ops), ok)
  {
    hide RouteKey, Step, WellFormed;
    if ops != [] {
      var before, op := ops[..|ops| - 1], ops[|ops| - 1];
      assert op in ops && forall o <- before :: o in ops;
      OnlyRegisteredRoutesAreFiled(before, ok);
      StepHolds(Run(before), op, ok);
    }
  }

  // ---- last write wins ----

  /** The route of the latest event about this identity under this key, if that was a register. */
  function Latest(ops: seq<Op>, key: Uri, id: Identity): Option<Route> {
    if ops == [] then None
    else
      var op := ops[|ops| - 1];
      if RouteKey(op.uri) == key && IdentityOf(op.route) == id then
        if op.Reg? then Some(op.route) else None
      else Latest(ops[..|ops| - 1], key, id)
  }

  lemma {:induction false} LastWriteWins(ops: seq<Op>, key: Uri, id: Identity)
    ensures id in LiveAt(ops, key) <==> Latest(ops, key, id).Some?
    ensures id in LiveAt(ops, key) ==>
              && IdentityOf(LiveAt(ops, key)[id]) == id
              && OwnershipOf(LiveAt(ops, key)[id]) == OwnershipOf(Latest(ops, key, id).value)
  {
    hide RouteKey;
    if ops != [] {
      LastWriteWins(ops[..|ops| - 1], key, id);
    }
  }

  /** The stored slot for an identity carries the tags of its latest register message. */
  lemma FiledTagsAreTheLatest(keys: set<Uri>, ops: seq<Op>, key: Uri, i: nat)
    requires Contained(keys, ops) && key in keys
    requires i < |Read(Run(ops), key)| && Read(Run(ops), key)[i].Some?
    ensures var route := Read(Run(ops), key)[i].value;
            var latest := Latest(ops, key, IdentityOf(route));
            latest.Some? && OwnershipOf(route) == OwnershipOf(latest.value)
  {
    hide RouteKey;
    ContainedRunsAreExact(keys, ops);
    assert Exact(Run(ops), ops, key);
    LastWriteWins(ops, key, IdentityOf(Read(Run(ops), key)[i].value));
  }

  /**
   * A register whose identity and tags repeat the latest event for its key changes nothing at all, so a
   * message may be delivered twice, or list a URI twice, without effect.
   */
  lemma RepeatedRegisterIsNoOp(keys: set<Uri>, ops: seq<Op>, op: Op)
    requires op.Reg? && Contained(keys, ops) && RouteKey(op.uri) in keys
    requires var latest := Latest(ops, RouteKey(op.uri), IdentityOf(op.route));
             latest.Some? && OwnershipOf(latest.value) == OwnershipOf(op.route)
    ensures Run(ops + [op]) == Run(ops)
  {
    hide RouteKey;
    var key := RouteKey(op.uri);
    var slots, live := Read(Run(ops), key), LiveAt(ops, key);
    ContainedRunsAreExact(keys, ops);
    assert Exact(Run(ops), ops, key);
    LastWriteWins(ops, key, IdentityOf(op.route));
    var i :| 0 <= i < |slots| && slots[i] == Some(live[IdentityOf(op.route)]);
    assert (ops + [op])[..|ops|] == ops;
  }

  lemma {:induction false} RunContinues(ops: seq<Op>, ops': seq<Op>, after: seq<Op>)
    requires Run(ops) == Run(ops')
    ensures Run(ops + after) == Run(ops' + after)
  {
    hide RouteKey, Step;
    if after == [] {
      assert ops + after == ops && ops' + after == ops';
    } else {
      var n := |after| - 1;
      RunContinues(ops, ops', after[..n]);
      assert (ops + after)[..|ops| + n] == ops + after[..n];
      assert (ops' + after)[..|ops'| + n] == ops' + after[..n];
    }
  }

  lemma {:induction false} LatestOfMessage(before: seq<Op>, events: seq<Op>, route: Route, key: Uri)
    requires forall op <- events :: op.Reg? && op.route == route
    requires exists op <- events :: RouteKey(op.uri) == key
    ensures Latest(before + events, key, IdentityOf(route)) == Some(route)
  {
    hide RouteKey;
    var n := |events| - 1;
    assert (before + events)[..|before| + n] == before + events[..n];
    if RouteKey(events[n].uri) != key {
      LatestOfMessage(before, events[..n], route, key);
    } else {
      assert events[n] in events;
    }
  }

  /**
   * In the events of one register message, one whose key an earlier URI of the message already had may be
   * dropped: listing a URI twice, or two spellings of it, is the same as listing it once.
   */
  lemma ListedTwiceIsListedOnce(keys: set<Uri>, before: seq<Op>, events: seq<Op>, again: Op, after: seq<Op>)
    requires Contained(keys, before + events) && again.Reg?
    requires forall op <- events :: op.Reg? && op.route == again.route
    requires exists op <- events :: RouteKey(op.uri) == RouteKey(again.uri)
    ensures Run(before + events + [again] + after) == Run(before + events + after)
  {
    hide RouteKey;
    LatestOfMessage(before, events, again.route, RouteKey(again.uri));
    var op :| op in events && RouteKey(op.uri) == RouteKey(again.uri);
    assert op in before + events;
    RepeatedRegisterIsNoOp(keys, before + events, again);
    RunContinues(before + events + [again], before + events, after);
  }

  // ---- register, look up, unregister ----

  /** Right after registering `route` under `uri`, any name with the same key finds a route Equal to it. */
  lemma RegisteredRouteIsFound(s: Store, uri: Uri, route: Route, spare: nat, name: Uri)
    requires WellFormed(s) && RouteKey(name) == RouteKey(uri)
    ensures exists i :: 0 <= i < |Read(Register(s, uri, route, spare), RouteKey(name))| &&
              Equal(route, Read(Register(s, uri, route, spare), RouteKey(name))[i])
  {
    hide RouteKey;
    RegisterRead(s, uri, route, spare);
    var slots := Read(s, RouteKey(uri));
    var slots' := Read(Register(s, uri, route, spare), RouteKey(name));
    var stale, equal := FirstStale(slots, route), FirstEqual(slots, route);
    var i := if stale < |slots| then stale else equal;
    assert Equal(route, slots'[i]);
  }

  /** So a route registered in one spelling, with or without a query, is found in any other. */
  lemma FoundInAnySpelling(s: Store, uri: Uri, route: Route, spare: nat, name: Uri, key: Uri)
    requires WellFormed(s) && KeyShaped(key) && Variant(uri, key) && Variant(name, key)
    ensures exists i :: 0 <= i < |Read(Register(s, uri, route, spare), RouteKey(name))| &&
              Equal(route, Read(Register(s, uri, route, spare), RouteKey(name))[i])
    ensures key in Register(s, uri, route, spare).entries
  {
    hide Variant, RouteKey;
    HasKeyIff(uri, key);
    HasKeyIff(name, key);
    RegisteredRouteIsFound(s, uri, route, spare, name);
  }

  /** The routes in a slice with their multiplicities, nil slots dropped. */
  function Routes(slots: Slots): multiset<Route> {
    if slots == [] then multiset{}
    else Routes(slots[..|slots| - 1]) +
         (if slots[|slots| - 1].Some? then multiset{slots[|slots| - 1].value} else multiset{})
  }

  lemma UndoneSlots(s: Store, uri: Uri, route: Route, spare: nat)
    requires WellFormed(s)
    requires FirstEqual(Read(s, RouteKey(uri)), route) == |Read(s, RouteKey(uri))|
    ensures var slots := Read(s, RouteKey(uri));
            Read(Unregister(Register(s, uri, route, spare), uri, route), RouteKey(uri)) ==
              if uri == RouteKey(uri) then slots else slots + [None]
  {
    hide RouteKey, Register, Unregister, Read;
    var slots, t := Read(s, RouteKey(uri)), Register(s, uri, route, spare);
    RegisterRead(s, uri, route, spare);
    UnregisterRead(t, uri, route);
    assert SlotsAfterRegister(slots, route) == slots + [Some(route)] by {
      assert forall j :: 0 <= j < |slots| ==> !Equal(route, slots[j]);
    }
    var i := FirstEqual(slots + [Some(route)], route);
    assert i == |slots| by {
      assert forall j :: 0 <= j < |slots| ==> !Equal(route, slots[j]);
      assert (slots + [Some(route)])[|slots|] == Some(route);
    }
    assert SlotsAfterSwap(slots + [Some(route)], |slots|) == slots + [None];
    assert (slots + [None])[..|slots|] == slots;
  }

  /** Registering a route that is not there and unregistering it again by the same URI restores every key. */
  lemma UnregisterUndoesRegister(keys: set<Uri>, s: Store, uri: Uri, route: Route, spare: nat, key: Uri)
    requires WellFormed(s) && Isolated(keys, s) && key in keys
    requires Contained(keys, [Reg(uri, route, spare), Unreg(uri, route)])
    requires FirstEqual(Read(s, RouteKey(uri)), route) == |Read(s, RouteKey(uri))|
    ensures Routes(Read(Unregister(Register(s, uri, route, spare), uri, route), key)) == Routes(Read(s, key))
  {
    hide RouteKey, Register, Unregister, Read, FirstEqual;
    var reg, unreg := Reg(uri, route, spare), Unreg(uri, route);
    assert reg in [reg, unreg] && unreg in [reg, unreg];
    assert Contained(keys, [reg]) && Contained(keys, [unreg]);
    if key == RouteKey(uri) {
      UndoneSlots(s, uri, route, spare);
      assert (Read(s, key) + [None])[..|Read(s, key)|] == Read(s, key);
    } else {
      StepIsolated(keys, s, reg);
      StepElsewhere(s, reg, key);
      StepElsewhere(Register(s, uri, route, spare), unreg, key);
    }
  }
}
