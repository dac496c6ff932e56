/**
 * The routing table as a value: Go slices are spans of numbered backing arrays, so two entries may share
 * an array. Growth of a full slice is decided by the Go runtime and is a parameter (`spare`) here.
 */
module RouteStore {
  import opened Options
  import opened Uris
  import opened RouteModel

  type Slots = seq<Option<Route>>

  /** A Go slice: the first `len` elements of backing array number `id`. */
  datatype Span = Span(id: nat, len: nat)

  datatype Store = Store(backings: seq<Slots>, entries: map<Uri, Span>)

  const EMPTY := Store([], map[])

  predicate WellFormed(s: Store) {
    forall u <- s.entries ::
      s.entries[u].id < |s.backings| && s.entries[u].len <= |s.backings[s.entries[u].id]|
  }

  /** What reading the table at `u` yields; a missing entry reads as an empty slice. */
  function Read(s: Store, u: Uri): Slots
    requires WellFormed(s)
  {
    if u in s.entries then s.backings[s.entries[u].id][..s.entries[u].len] else []
  }

  function Nils(n: nat): Slots {
    seq(n, _ => None)
  }

  /** Index of the first slot Equal to `route`, or the length. */
  function FirstEqual(slots: Slots, route: Route): (i: nat)
    ensures i <= |slots|
    ensures forall j :: 0 <= j < i ==> !Equal(route, slots[j])
    ensures i < |slots| ==> Equal(route, slots[i])
  {
    if slots == [] || Equal(route, slots[0]) then 0 else 1 + FirstEqual(slots[1..], route)
  }

  /** Index of the first slot Equal to `route` whose tags differ from it, or the length. */
  function FirstStale(slots: Slots, route: Route): (i: nat)
    ensures i <= |slots|
    ensures forall j :: 0 <= j < i ==> !(Equal(route, slots[j]) && NeedUpdate(route, slots[j]))
    ensures i < |slots| ==> Equal(route, slots[i]) && NeedUpdate(route, slots[i])
  {
    if slots == [] || (Equal(route, slots[0]) && NeedUpdate(route, slots[0])) then 0
    else 1 + FirstStale(slots[1..], route)
  }

  /** Writes one element of one backing array. */
  function Poke(s: Store, id: nat, i: nat, slot: Option<Route>): (t: Store)
    requires id < |s.backings| && i < |s.backings[id]|
    ensures t.entries == s.entries && (WellFormed(s) ==> WellFormed(t))
  {
    s.(backings := s.backings[id := s.backings[id][i := slot]])
  }

  /** Go's append of one route to the slice at `span`: in place while there is room, else in a new array. */
  function Append(s: Store, key: Uri, span: Span, route: Route, spare: nat): (t: Store)
    requires WellFormed(s) && span.id < |s.backings| && span.len <= |s.backings[span.id]|
    ensures WellFormed(t)
  {
    if span.len < |s.backings[span.id]| then
      var p := Poke(s, span.id, span.len, Some(route));
      p.(entries := p.entries[key := Span(span.id, span.len + 1)])
    else
      Store(s.backings + [s.backings[span.id] + [Some(route)] + Nils(spare)],
            s.entries[key := Span(|s.backings|, span.len + 1)])
  }

  function Register(s: Store, uri: Uri, route: Route, spare: nat): (t: Store)
    requires WellFormed(s)
    ensures WellFormed(t)
  {
    var key := RouteKey(uri);
    if key in s.entries then
      var slots := Read(s, key);
      var stale := FirstStale(slots, route);
      if stale < |slots| then Poke(s, s.entries[key].id, stale, Some(route))
      else if FirstEqual(slots, route) < |slots| then s
      else Append(s, key, s.entries[key], route, spare)
    else
      Store(s.backings + [[Some(route)] + Nils(spare)], s.entries[key := Span(|s.backings|, 1)])
  }

  /** The shortened slice is filed under the URI itself, not under its key. */
  function Unregister(s: Store, uri: Uri, route: Route): (t: Store)
    requires WellFormed(s)
    ensures WellFormed(t)
  {
    var key := RouteKey(uri);
    var slots := Read(s, key);
    var i := FirstEqual(slots, route);
    if i < |slots| then
      var span := s.entries[key];
      var last := span.len - 1;
      var p := Poke(Poke(s, span.id, i, slots[last]), span.id, last, None);
      p.(entries := p.entries[uri := Span(span.id, last)])
    else s
  }

  /** One bus event for one URI, together with the growth the runtime would choose. */
  datatype Op =
    | Reg(uri: Uri, route: Route, spare: nat)
    | Unreg(uri: Uri, route: Route)

  function Step(s: Store, op: Op): (t: Store)
    requires WellFormed(s)
    ensures WellFormed(t)
  {
    match op
    case Reg(uri, route, spare) => Register(s, uri, route, spare)
    case Unreg(uri, route) => Unregister(s, uri, route)
  }

  function Run(ops: seq<Op>): (s: Store)
    ensures WellFormed(s)
  {
    if ops == [] then EMPTY else Step(Run(ops[..|ops| - 1]), ops[|ops| - 1])
  }

  // ---- the abstract table: for each key a map from identity to route ----

  type Live = map<Identity, Route>

  function LiveAfter(live: Live, op: Op): Live {
    var id := IdentityOf(op.route);
    match op
    case Reg(_, route, _) =>
      if id in live && OwnershipOf(live[id]) == OwnershipOf(route) then live else live[id := route]
    case Unreg(_, _) => live - {id}
  }

  /** The live routes of one key after a history. */
  function LiveAt(ops: seq<Op>, key: Uri): Live {
    if ops == [] then map[]
    else
      var before := LiveAt(ops[..|ops| - 1], key);
      var op := ops[|ops| - 1];
      if RouteKey(op.uri) == key then LiveAfter(before, op) else before
  }

  /** Every non-nil slot holds a live route. */
  ghost predicate Sound(slots: Slots, live: Live) {
    forall i :: 0 <= i < |slots| && slots[i].Some? ==>
      IdentityOf(slots[i].value) in live && live[IdentityOf(slots[i].value)] == slots[i].value
  }

  /** Every live route is listed under its own identity and has a slot. */
  ghost predicate Complete(slots: Slots, live: Live) {
    forall id <- live :: IdentityOf(live[id]) == id && Some(live[id]) in slots
  }

  /** No two slots hold Equal routes. */
  ghost predicate Distinct(slots: Slots) {
    forall i, j :: 0 <= i < j < |slots| && slots[i].Some? && slots[j].Some? ==>
      IdentityOf(slots[i].value) != IdentityOf(slots[j].value)
  }

  /** The non-nil slots are, one for one, the live routes. */
  ghost predicate Represents(slots: Slots, live: Live) {
    Sound(slots, live) && Complete(slots, live) && Distinct(slots)
  }

  predicate NilFree(slots: Slots) {
    forall i :: 0 <= i < |slots| ==> slots[i].Some?
  }
}
