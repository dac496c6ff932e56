/** The routing table on the heap: a map of slices over shared backing arrays of route pointers. */
module RoutingTables {
  import opened Options
  import opened Uris
  import opened RouteModel
  import opened RouteStore
  import opened RouteStoreProofs
  import opened StrayEntries

  /** A route behind a pointer. Lookups overwrite its URL; nothing else is assigned after construction. */
  class RouteObject {
    const route: Route
    var url: Uri

    constructor (route: Route)
      ensures this.route == route && url == ""
    {
      this.route := route;
      url := "";
    }
  }

  datatype Slice = Slice(backing: array<RouteObject?>, len: nat)

  function View(o: RouteObject?): Option<Route> {
    if o == null then None else Some(o.route)
  }

  function Views(os: seq<RouteObject?>): Slots {
    seq(|os|, i requires 0 <= i < |os| => View(os[i]))
  }

  /** The backing array `a` holds the routes `slots`. */
  ghost predicate Mirrors(a: array<RouteObject?>, slots: Slots)
    reads a
  {
    |slots| == a.Length && forall i :: 0 <= i < a.Length ==> slots[i] == View(a[i])
  }

  /** `order` lists each element of `keys` once: one order in which Go may range over a map. */
  ghost predicate IsOrderOf(order: seq<Uri>, keys: set<Uri>) {
    && (forall u :: u in order <==> u in keys)
    && (forall i, j :: 0 <= i < j < |order| ==> order[i] != order[j])
  }

  /** The parts of `s` between slashes; one more than there are slashes. */
  function Split(s: string): (parts: seq<string>)
    ensures |parts| >= 1
  {
    if s == "" then [""]
    else
      var rest := Split(s[1..]);
      if s[0] == '/' then [""] + rest else [[s[0]] + rest[0]] + rest[1..]
  }

  /** Three texts without slashes, and a slash between each two. */
  ghost predicate ThreeParts(s: string, org: string, space: string, name: string) {
    '/' !in org && '/' !in space && '/' !in name && s == org + "/" + space + "/" + name
  }

  lemma {:induction false} SplitFirst(first: string, rest: string)
    requires '/' !in first
    ensures Split(first) == [first]
    ensures Split(first + "/" + rest) == [first] + Split(rest)
  {
    if first == "" {
      assert "" + "/" + rest == "/" + rest;
      assert ("/" + rest)[1..] == rest;
    } else {
      SplitFirst(first[1..], rest);
      assert (first + "/" + rest)[1..] == first[1..] + "/" + rest;
      assert first == [first[0]] + first[1..];
    }
  }

  lemma ThreePartsSplit(s: string, org: string, space: string, name: string)
    requires ThreeParts(s, org, space, name)
    ensures Split(s) == [org, space, name]
  {
    hide Split;
    SplitFirst(org, space + "/" + name);
    SplitFirst(space, name);
    SplitFirst(name, "");
    assert s == org + "/" + (space + "/" + name);
  }

  lemma {:induction false} SplitCounts(s: string)
    ensures |Split(s)| == multiset(s)['/'] + 1
  {
    if s != "" {
      SplitCounts(s[1..]);
      assert s == [s[0]] + s[1..];
    }
  }

  lemma {:induction false} SplitJoins(s: string) returns (first: string, rest: string)
    requires '/' in s
    ensures '/' !in first && s == first + "/" + rest
  {
    if s[0] == '/' {
      first, rest := "", s[1..];
    } else {
      first, rest := SplitJoins(s[1..]);
      first := [s[0]] + first;
    }
  }

  /** A text is looked up by names exactly when it has two slashes, by its parts; else by id if it is a UUID. */
  lemma LookupKindIff(s: string, isUuid: string -> bool)
    ensures forall org, space, name ::
              LookupKind(s, isUuid) == OrgSpaceName(org, space, name) <==> ThreeParts(s, org, space, name)
    ensures LookupKind(s, isUuid).OrgSpaceName? <==> multiset(s)['/'] == 2
    ensures LookupKind(s, isUuid).AppId? <==> multiset(s)['/'] != 2 && isUuid(s)
  {
    hide Split;
    SplitCounts(s);
    forall org, space, name | ThreeParts(s, org, space, name)
      ensures LookupKind(s, isUuid) == OrgSpaceName(org, space, name)
    {
      ThreePartsSplit(s, org, space, name);
    }
    if multiset(s)['/'] == 2 {
      var org, more := SplitJoins(s);
      assert multiset(s) == multiset(org) + multiset("/") + multiset(more);
      var space, name := SplitJoins(more);
      assert multiset(more) == multiset(space) + multiset("/") + multiset(name);
      assert s == org + "/" + space + "/" + name;
      assert ThreeParts(s, org, space, name);
    }
  }

  function Unescaped(text: string, unescape: string -> Option<string>): string {
    match unescape(text)
    case Some(plain) => plain
    case None => text
  }

  datatype Lookup = OrgSpaceName(org: string, space: string, name: string) | AppId | RouteName

  function LookupKind(name: string, isUuid: string -> bool): Lookup {
    var split := Split(name);
    if |split| == 3 then OrgSpaceName(split[0], split[1], split[2])
    else if isUuid(name) then AppId
    else RouteName
  }

  function ById(appId: string): Route -> bool {
    (r: Route) => r.tags.appId == appId
  }

  function ByName(org: string, space: string, name: string): Route -> bool {
    (r: Route) => r.tags.organizationName == org && r.tags.spaceName == space && r.tags.appName == name
  }

  predicate NonNil(found: seq<RouteObject?>) {
    null !in found
  }

  class RoutingTable {
    var entries: map<Uri, Slice>
    ghost var backings: seq<array<RouteObject?>>
    ghost var store: Store

    ghost predicate Valid()
      reads this, backings
      ensures Valid() ==> WellFormed(store) && entries.Keys == store.entries.Keys
    {
      && WellFormed(store)
      && |backings| == |store.backings|
      && (forall i, j :: 0 <= i < j < |backings| ==> backings[i] != backings[j])
      && (forall i :: 0 <= i < |backings| ==> Mirrors(backings[i], store.backings[i]))
      && entries.Keys == store.entries.Keys
      && (forall u <- entries :: entries[u] == Slice(backings[store.entries[u].id], store.entries[u].len))
    }

    constructor ()
      ensures Valid() && store == EMPTY && backings == []
    {
      entries, backings, store := map[], [], EMPTY;
    }

    /** A slot read through an entry is the slot of the value model. */
    lemma SlotRead(u: Uri, i: nat)
      requires Valid() && u in entries && i < entries[u].len
      ensures WellFormed(store)
      ensures entries[u].len == |Read(store, u)| <= entries[u].backing.Length
      ensures Read(store, u)[i] == View(entries[u].backing[i])
    {
    }

    lemma ArrayRead(u: Uri)
      requires Valid() && u in entries
      ensures Views(entries[u].backing[..]) == store.backings[store.entries[u].id]
      ensures entries[u].backing.Length == |store.backings[store.entries[u].id]|
      ensures entries[u].len == store.entries[u].len <= entries[u].backing.Length
      ensures entries[u].backing in backings && u in store.entries && store.entries[u].id < |store.backings|
      ensures WellFormed(store) && entries[u].len == |Read(store, u)|
    {
      assert Mirrors(entries[u].backing, store.backings[store.entries[u].id]);
    }

    /** The search loop of RegisterRoute: stops at the first route to update, remembering any Equal one. */
    method FindStale(key: Uri, route: Route) returns (found: bool, idx: nat)
      requires Valid() && key in entries
      ensures idx == FirstStale(Read(store, key), route)
      ensures found <==> FirstEqual(Read(store, key), route) < |Read(store, key)|
    {
      var slice := entries[key];
      ghost var slots := Read(store, key);
      found, idx := false, 0;
      while idx < slice.len
        invariant 0 <= idx <= slice.len == |slots| && slice.len <= slice.backing.Length
        invariant found <==> FirstEqual(slots, route) < idx
        invariant idx <= FirstStale(slots, route)
      {
        SlotRead(key, idx);
        if Equal(route, View(slice.backing[idx])) {
          found := true;
          if NeedUpdate(route, View(slice.backing[idx])) {
            return;
          }
        }
        idx := idx + 1;
      }
    }

    /** The search loop of UnregisterRoute. */
    method FindEqual(key: Uri, route: Route) returns (idx: nat)
      requires Valid() && key in entries
      ensures idx == FirstEqual(Read(store, key), route)
    {
      var slice := entries[key];
      ghost var slots := Read(store, key);
      idx := 0;
      while idx < slice.len
        invariant 0 <= idx <= slice.len == |slots| && slice.len <= slice.backing.Length
        invariant idx <= FirstEqual(slots, route)
      {
        SlotRead(key, idx);
        if Equal(route, View(slice.backing[idx])) {
          return;
        }
        idx := idx + 1;
      }
    }

    method RegisterRoute(uri: Uri, route: RouteObject?, spare: nat)
      requires Valid()
      modifies this, backings
      ensures Valid()
      ensures store == if route == null then old(store) else Register(old(store), uri, route.route, spare)
      ensures old(backings) <= backings && forall i :: |old(backings)| <= i < |backings| ==> fresh(backings[i])
    {
      hide RouteKey, FirstStale, FirstEqual, Valid, Mirrors, WellFormed, Read;
      if route == null {
        return;
      }
      var key := RouteKey(uri);
      if key in entries {
        ArrayRead(key);
        var found, idx := FindStale(key, route.route);
        if idx < entries[key].len {
          SlotRead(key, idx);
          WriteSlot(key, idx, route);
        } else if !found {
          AppendTo(key, route, spare);
        }
      } else {
        FileNew(key, [], route, spare);
        assert Views([]) + [Some(route.route)] == [Some(route.route)];
      }
    }

    /** Element assignment through a slice; entries sharing the array see it too. */
    method WriteSlot(u: Uri, i: nat, o: RouteObject?)
      requires Valid() && u in entries && i < entries[u].backing.Length
      modifies this`store, entries[u].backing
      ensures backings == old(backings) && entries == old(entries)
      ensures Valid() && store == Poke(old(store), old(store).entries[u].id, i, View(o))
    {
      var backing := entries[u].backing;
      ghost var id := store.entries[u].id;
      assert backing == backings[id] && Mirrors(backing, store.backings[id]);
      backing[i] := o;
      store := Poke(store, id, i, View(o));
      assert Mirrors(backing, store.backings[id]);
      forall j | 0 <= j < |backings| && j != id
        ensures Mirrors(backings[j], store.backings[j])
      {
        assert Mirrors(backings[j], old(store).backings[j]);
      }
    }

    /** Files under `u` the first `len` elements of the array of the slice at `key`. */
    method Reslice(key: Uri, u: Uri, len: nat)
      requires Valid() && key in entries && len <= entries[key].backing.Length
      modifies this`entries, this`store
      ensures Valid()
      ensures store == old(store).(entries := old(store).entries[u := Span(old(store).entries[key].id, len)])
    {
      assert Mirrors(entries[key].backing, store.backings[store.entries[key].id]);
      entries := entries[u := Slice(entries[key].backing, len)];
      store := store.(entries := store.entries[u := Span(store.entries[key].id, len)]);
    }

    method AppendInPlace(key: Uri, o: RouteObject)
      requires Valid() && key in entries && entries[key].len < entries[key].backing.Length
      modifies this`entries, this`store, entries[key].backing
      ensures Valid() && store == Append(old(store), key, old(store).entries[key], o.route, 0)
    {
      hide Poke, Valid, Mirrors, WellFormed;
      var len := entries[key].len;
      ArrayRead(key);
      WriteSlot(key, len, o);
      Reslice(key, key, len + 1);
    }

    method AppendTo(key: Uri, o: RouteObject, spare: nat)
      requires Valid() && key in entries
      modifies this, backings
      ensures Valid() && store == Append(old(store), key, old(store).entries[key], o.route, spare)
      ensures old(backings) <= backings && forall i :: |old(backings)| <= i < |backings| ==> fresh(backings[i])
    {
      hide Valid, Mirrors, WellFormed;
      var slice := entries[key];
      ArrayRead(key);
      if slice.len < slice.backing.Length {
        AppendInPlace(key, o);
      } else {
        FileNew(key, slice.backing[..], o, spare);
      }
    }

    /** Files under `key` a slice over a new array: `first`, then `o`, then `spare` free slots. */
    method FileNew(key: Uri, first: seq<RouteObject?>, o: RouteObject, spare: nat)
      requires Valid()
      modifies this
      ensures Valid() && |backings| == |old(backings)| + 1 && backings[..|old(backings)|] == old(backings)
      ensures fresh(backings[|old(backings)|])
      ensures store == Store(old(store).backings + [Views(first) +
                                                     [Some(o.route)] + Nils(spare)],
                             old(store).entries[key := Span(|old(store).backings|, |first| + 1)])
    {
      var content := first + [o] + seq(spare, _ => null);
      var backing := new RouteObject?[|content|](i requires 0 <= i < |content| => content[i]);
      ghost var slots := Views(first) + [Some(o.route)] + Nils(spare);
      assert Mirrors(backing, slots);
      entries := entries[key := Slice(backing, |first| + 1)];
      store := Store(store.backings + [slots], store.entries[key := Span(|store.backings|, |first| + 1)]);
      backings := backings + [backing];
      forall j | 0 <= j < |backings|
        ensures Mirrors(backings[j], store.backings[j])
      {
        if j < |old(backings)| {
          assert Mirrors(old(backings)[j], old(store).backings[j]);
        }
      }
    }

    method UnregisterRoute(uri: Uri, route: RouteObject?)
      requires Valid()
      modifies this, backings
      ensures Valid() && backings == old(backings)
      ensures store == if route == null then old(store) else Unregister(old(store), uri, route.route)
    {
      hide RouteKey, FirstEqual, Valid, Mirrors, WellFormed, Read;
      if route == null {
        return;
      }
      var key := RouteKey(uri);
      if key in entries {
        var slice := entries[key];
        ArrayRead(key);
        var idx := FindEqual(key, route.route);
        if idx < slice.len {
          var size := slice.len;
          SlotRead(key, size - 1);
          WriteSlot(key, idx, slice.backing[size - 1]);
          WriteSlot(key, size - 1, null);
          Reslice(key, uri, size - 1);
        }
      } else {
        MissingRead(store, key);
      }
    }

    /** `o` is in the slice filed under `u`. */
    ghost predicate FiledUnder(o: RouteObject, u: Uri)
      reads this, backings
      requires Valid()
    {
      u in entries && o in entries[u].backing[..entries[u].len]
    }

    ghost function Objects(): set<RouteObject>
      reads this, backings
      requires Valid()
    {
      set u, i | u in entries && 0 <= i < entries[u].len && entries[u].backing[i] != null :: entries[u].backing[i]
    }

    /** The routes found so far are web matches with distinct addresses, which `exist` lists. */
    ghost predicate Collected(found: seq<RouteObject>, exist: set<string>, matches: Route -> bool)
      requires Valid()
      reads this, backings
    {
      && (forall i, j :: 0 <= i < j < |found| ==> found[i].route.address != found[j].route.address)
      && (forall o <- found :: o in Objects() && o.route.tags.processType == PROCESS_WEB && matches(o.route))
      && (forall o <- found :: o.route.address in exist)
      && (forall a <- exist :: exists o <- found :: o.route.address == a)
    }

    /** All matching addresses among the first `len` slots of the entry at `u` have been seen. */
    ghost predicate Scanned(u: Uri, len: nat, exist: set<string>, matches: Route -> bool)
      requires Valid() && u in entries && len <= entries[u].len
      reads this, backings
    {
      forall i :: 0 <= i < len && entries[u].backing[i] != null ==>
        var r := entries[u].backing[i].route;
        r.tags.processType == PROCESS_WEB && matches(r) ==> r.address in exist
    }

    /** The same for the first `n` entries of an order. */
    ghost predicate ScannedUpTo(order: seq<Uri>, n: nat, exist: set<string>, matches: Route -> bool)
      requires Valid() && IsOrderOf(order, entries.Keys) && n <= |order|
      reads this, backings
    {
      forall m :: 0 <= m < n ==> Scanned(order[m], entries[order[m]].len, exist, matches)
    }

    /** The inner loop of the scan: one entry. */
    method ScanEntry(u: Uri, matches: Route -> bool, found0: seq<RouteObject>, exist0: set<string>)
      returns (found: seq<RouteObject>, exist: set<string>)
      requires Valid() && u in entries && Collected(found0, exist0, matches)
      modifies Objects()`url
      ensures Collected(found, exist, matches) && exist0 <= exist && Scanned(u, entries[u].len, exist, matches)
      ensures forall o <- Objects() :: o.url == if FiledUnder(o, u) then u else old(o.url)
    {
      hide Collected, Scanned, Valid, Objects, WellFormed, Read, FiledUnder;
      ghost var objects := Objects();
      ghost var urls := map o <- objects :: o.url;
      found, exist := found0, exist0;
      var slice := entries[u];
      ArrayRead(u);
      ghost var content := slice.backing[..slice.len];
      assert Scanned(u, 0, exist, matches) by { NothingScanned(u, exist, matches); }
      var i := 0;
      while i < slice.len
        invariant 0 <= i <= slice.len
        invariant Collected(found, exist, matches) && exist0 <= exist && Scanned(u, i, exist, matches)
        invariant Objects() == objects
        invariant forall o <- objects :: o.url == if o in content[..i] then u else urls[o]
      {
        ghost var before := exist;
        var route := slice.backing[i];
        assert content[..i + 1] == content[..i] + [route];
        if route != null {
          InObjects(u, i);
          route.url := u;
          if route.route.tags.processType == PROCESS_WEB && route.route.address !in exist && matches(route.route) {
            CollectOne(found, exist, route, matches);
            exist := exist + {route.route.address};
            found := found + [route];
          }
        }
        ScanOne(u, i, before, exist, matches);
        i := i + 1;
      }
      assert content[..slice.len] == content == slice.backing[..slice.len];
      forall o <- objects
        ensures o.url == if FiledUnder(o, u) then u else urls[o]
      {
        FiledUnderIs(o, u);
      }
    }

    /**
     * The scan shared by FindById and FindByOrgSpaceName, which differ in `matches` only: all entries in the
     * order of `order`, web routes only, each address once. Every route met has its URL overwritten.
     */
    method FindWeb(matches: Route -> bool, order: seq<Uri>) returns (found: seq<RouteObject>)
      requires Valid() && IsOrderOf(order, entries.Keys)
      modifies Objects()`url
      ensures Valid() && AreTheWebRoutes(found, matches)
      ensures forall o <- Objects() :: FiledUnder(o, o.url)
    {
      hide AreTheWebRoutes, Valid, Objects, WellFormed, Read, Collected, Scanned, ScannedUpTo, FiledUnder, WebAddresses;
      hide IsOrderOf;
      found := [];
      var exist: set<string> := {};
      var n := 0;
      NothingCollected(order, matches);
      while n < |order|
        invariant 0 <= n <= |order|
        invariant Collected(found, exist, matches) && ScannedUpTo(order, n, exist, matches)
        invariant forall o <- Objects(), m | 0 <= m < n && FiledUnder(o, order[m]) :: FiledUnder(o, o.url)
      {
        ghost var before := exist;
        OrderedAreFiled(order, n);
        found, exist := ScanEntry(order[n], matches, found, exist);
        ScannedMore(order, n, before, exist, matches);
        n := n + 1;
      }
      AllScanned(order, found, exist, matches);
      forall o <- Objects()
        ensures FiledUnder(o, o.url)
      {
        var m := FiledSomewhere(o, order);
      }
    }

    /** The found web routes of an app id: all of them are, and every other one's address is among theirs. */
    ghost predicate FoundForId(found: seq<RouteObject>, appId: string)
      requires Valid()
      reads this, backings
    {
      && (forall o <- found :: o.route in Visible(store) && o.route.tags.processType == "web" &&
            o.route.tags.appId == appId)
      && (forall r <- Visible(store) :: r.tags.processType == "web" && r.tags.appId == appId ==>
            exists o <- found :: o.route.address == r.address)
    }

    /** The same for the names of organization, space and app. */
    ghost predicate FoundForNames(found: seq<RouteObject>, org: string, space: string, name: string)
      requires Valid()
      reads this, backings
    {
      && (forall o <- found :: o.route in Visible(store) && o.route.tags.processType == "web" &&
            o.route.tags.organizationName == org && o.route.tags.spaceName == space && o.route.tags.appName == name)
      && (forall r <- Visible(store) ::
            (r.tags.processType == "web" && r.tags.organizationName == org && r.tags.spaceName == space &&
             r.tags.appName == name) ==>
            exists o <- found :: o.route.address == r.address)
    }

    lemma WebRoutesAreVisible(found: seq<RouteObject>, matches: Route -> bool)
      requires Valid() && AreTheWebRoutes(found, matches)
      ensures forall o <- found :: o.route in Visible(store)
      ensures forall r <- Visible(store) :: r.tags.processType == PROCESS_WEB && matches(r) ==>
                exists o <- found :: o.route.address == r.address
    {
      hide Valid;
      forall o <- found
        ensures o.route in Visible(store)
      {
        ObjectIsVisible(o);
      }
      forall r <- Visible(store) | r.tags.processType == PROCESS_WEB && matches(r)
        ensures exists o <- found :: o.route.address == r.address
      {
        assert r.address in WebAddresses(store, matches);
      }
    }

    lemma WebRoutesMatch(found: seq<RouteObject>, matches: Route -> bool)
      requires Valid() && AreTheWebRoutes(found, matches)
      ensures forall o <- found :: o.route.tags.processType == PROCESS_WEB && matches(o.route)
    {
    }

    lemma ObjectIsVisible(o: RouteObject)
      requires Valid() && o in Objects()
      ensures o.route in Visible(store)
    {
      var u, i :| u in entries && 0 <= i < entries[u].len && entries[u].backing[i] == o;
      ArrayRead(u);
      SlotRead(u, i);
    }

    method FindById(appId: string, order: seq<Uri>) returns (found: seq<RouteObject>)
      requires Valid() && IsOrderOf(order, entries.Keys)
      modifies Objects()`url
      ensures Valid() && AreTheWebRoutes(found, ById(appId)) && FoundForId(found, appId)
      ensures forall o <- Objects() :: FiledUnder(o, o.url)
    {
      hide AreTheWebRoutes, Valid, Objects, WellFormed, Visible;
      found := FindWeb(ById(appId), order);
      WebRoutesAreVisible(found, ById(appId));
      WebRoutesMatch(found, ById(appId));
    }

    method FindByOrgSpaceName(org: string, space: string, name: string, order: seq<Uri>)
      returns (found: seq<RouteObject>)
      requires Valid() && IsOrderOf(order, entries.Keys)
      modifies Objects()`url
      ensures Valid() && AreTheWebRoutes(found, ByName(org, space, name)) && FoundForNames(found, org, space, name)
      ensures forall o <- Objects() :: FiledUnder(o, o.url)
    {
      hide AreTheWebRoutes, Valid, Objects, WellFormed, Visible;
      found := FindWeb(ByName(org, space, name), order);
      WebRoutesAreVisible(found, ByName(org, space, name));
      WebRoutesMatch(found, ByName(org, space, name));
    }

    /** Hands out the slice of the key as it is, nil slots included. */
    method FindByRouteName(name: string) returns (found: seq<RouteObject?>)
      requires Valid()
      ensures Views(found) == Read(store, RouteKey(name))
    {
      hide RouteKey;
      var key := RouteKey(name);
      if key !in entries {
        return [];
      }
      found := entries[key].backing[..entries[key].len];
      forall i | 0 <= i < |found|
        ensures Views(found)[i] == Read(store, key)[i]
      {
        SlotRead(key, i);
      }
      ArrayRead(key);
    }

    /** One lookup text serves three kinds of names. */
    method Find(text: string, unescape: string -> Option<string>, isUuid: string -> bool, order: seq<Uri>)
      returns (found: seq<RouteObject?>)
      requires Valid() && IsOrderOf(order, entries.Keys)
      modifies Objects()`url
      ensures Valid()
      ensures var name := Unescaped(text, unescape);
              match LookupKind(name, isUuid)
              case OrgSpaceName(o, s, n) => NonNil(found) && AreTheWebRoutes(found, ByName(o, s, n))
              case AppId => NonNil(found) && AreTheWebRoutes(found, ById(name))
              case RouteName => Views(found) == Read(store, RouteKey(name))
      ensures var plain := if unescape(text).Some? then unescape(text).value else text;
              && (forall org, space, name | ThreeParts(plain, org, space, name) ::
                    NonNil(found) && FoundForNames(found, org, space, name))
              && (multiset(plain)['/'] != 2 && isUuid(plain) ==> NonNil(found) && FoundForId(found, plain))
              && (multiset(plain)['/'] != 2 && !isUuid(plain) ==> Views(found) == Read(store, RouteKey(plain)))
    {
      hide RouteKey, AreTheWebRoutes, FoundForNames, FoundForId, ThreeParts, Split, Valid;
      var name := Unescaped(text, unescape);
      var split := Split(name);
      SplitCounts(name);
      forall org, space, app | ThreeParts(name, org, space, app)
        ensures split == [org, space, app]
      {
        ThreePartsSplit(name, org, space, app);
      }
      if |split| == 3 {
        found := FindByOrgSpaceName(split[0], split[1], split[2], order);
      } else if isUuid(name) {
        found := FindById(name, order);
      } else {
        found := FindByRouteName(name);
      }
    }

    /** Web routes of this table satisfying `matches`: each of their addresses once, and no other address. */
    ghost predicate AreTheWebRoutes(found: seq<RouteObject>, matches: Route -> bool)
      requires Valid()
      reads this, backings
    {
      && (forall i, j :: 0 <= i < j < |found| ==> found[i].route.address != found[j].route.address)
      && (forall o <- found :: o in Objects() && o.route.tags.processType == PROCESS_WEB && matches(o.route))
      && (set o <- found :: o.route.address) == WebAddresses(store, matches)
    }

    lemma InObjects(u: Uri, i: nat)
      requires Valid() && u in entries && i < entries[u].len && entries[u].backing[i] != null
      ensures entries[u].backing[i] in Objects()
    {
    }

    lemma FiledSomewhere(o: RouteObject, order: seq<Uri>) returns (m: nat)
      requires Valid() && o in Objects() && IsOrderOf(order, entries.Keys)
      ensures m < |order| && FiledUnder(o, order[m])
    {
      var u, i :| u in entries && 0 <= i < entries[u].len && entries[u].backing[i] == o;
      var j :| 0 <= j < |order| && order[j] == u;
      m := j;
    }

    lemma OrderedAreFiled(order: seq<Uri>, n: nat)
      requires IsOrderOf(order, entries.Keys) && n < |order|
      ensures order[n] in entries
    {
    }

    lemma CollectOne(found: seq<RouteObject>, exist: set<string>, o: RouteObject, matches: Route -> bool)
      requires Valid() && Collected(found, exist, matches)
      requires o in Objects() && o.route.tags.processType == PROCESS_WEB && matches(o.route)
      requires o.route.address !in exist
      ensures Collected(found + [o], exist + {o.route.address}, matches)
    {
      hide Objects, Valid;
      forall a <- exist + {o.route.address}
        ensures exists p <- found + [o] :: p.route.address == a
      {
        if a in exist {
          var p :| p in found && p.route.address == a;
          assert p in found + [o];
        } else {
          assert o in found + [o];
        }
      }
    }

    lemma FiledUnderIs(o: RouteObject, u: Uri)
      requires Valid() && u in entries && entries[u].len <= entries[u].backing.Length
      ensures FiledUnder(o, u) <==> o in entries[u].backing[..entries[u].len]
    {
    }

    lemma NothingScanned(u: Uri, exist: set<string>, matches: Route -> bool)
      requires Valid() && u in entries
      ensures Scanned(u, 0, exist, matches)
    {
    }

    lemma ScanOne(u: Uri, i: nat, before: set<string>, exist: set<string>, matches: Route -> bool)
      requires Valid() && u in entries && i < entries[u].len && Scanned(u, i, before, matches) && before <= exist
      requires entries[u].backing[i] != null ==>
                 var r := entries[u].backing[i].route;
                 r.tags.processType == PROCESS_WEB && matches(r) ==> r.address in exist
      ensures Scanned(u, i + 1, exist, matches)
    {
    }

    lemma NothingCollected(order: seq<Uri>, matches: Route -> bool)
      requires Valid() && IsOrderOf(order, entries.Keys)
      ensures Collected([], {}, matches) && ScannedUpTo(order, 0, {}, matches)
    {
    }

    lemma ScannedMore(order: seq<Uri>, n: nat, before: set<string>, exist: set<string>, matches: Route -> bool)
      requires Valid() && IsOrderOf(order, entries.Keys) && n < |order| && before <= exist
      requires ScannedUpTo(order, n, before, matches)
      requires Scanned(order[n], entries[order[n]].len, exist, matches)
      ensures ScannedUpTo(order, n + 1, exist, matches)
    {
      hide Valid, IsOrderOf;
    }

    lemma CollectedAreWeb(found: seq<RouteObject>, exist: set<string>, matches: Route -> bool, o: RouteObject)
      requires Valid() && Collected(found, exist, matches) && o in found
      ensures o.route.address in WebAddresses(store, matches)
    {
      var u, i :| u in entries && 0 <= i < entries[u].len && entries[u].backing[i] == o;
      ArrayRead(u);
      SlotRead(u, i);
      assert o.route in Visible(store);
    }

    lemma WebAreCollected(order: seq<Uri>, exist: set<string>, matches: Route -> bool, r: Route)
      requires Valid() && IsOrderOf(order, entries.Keys) && ScannedUpTo(order, |order|, exist, matches)
      requires r in Visible(store) && r.tags.processType == PROCESS_WEB && matches(r)
      ensures r.address in exist
    {
      var u, i :| u in store.entries && 0 <= i < |Read(store, u)| && Read(store, u)[i] == Some(r);
      ArrayRead(u);
      SlotRead(u, i);
      var m :| 0 <= m < |order| && order[m] == u;
      assert Scanned(order[m], entries[order[m]].len, exist, matches);
      assert entries[u].backing[i] != null && entries[u].backing[i].route == r;
    }

    /** Once all entries are scanned the collected addresses are those of the visible web matches. */
    lemma AllScanned(order: seq<Uri>, found: seq<RouteObject>, exist: set<string>, matches: Route -> bool)
      requires Valid() && IsOrderOf(order, entries.Keys) && Collected(found, exist, matches)
      requires ScannedUpTo(order, |order|, exist, matches)
      ensures AreTheWebRoutes(found, matches)
    {
      hide Visible, ScannedUpTo, IsOrderOf;
      var addresses := set o <- found :: o.route.address;
      forall a <- addresses
        ensures a in WebAddresses(store, matches)
      {
        var o :| o in found && o.route.address == a;
        CollectedAreWeb(found, exist, matches, o);
      }
      forall a <- WebAddresses(store, matches)
        ensures a in addresses
      {
        var r :| r in Visible(store) && r.tags.processType == PROCESS_WEB && matches(r) && r.address == a;
        WebAreCollected(order, exist, matches, r);
        var o :| o in found && o.route.address == a;
      }
    }
  }

  lemma MissingRead(s: Store, u: Uri)
    requires WellFormed(s) && u !in s.entries
    ensures Read(s, u) == []
  {
  }

  /** The addresses of matching web routes anywhere in the table. */
  ghost function WebAddresses(s: Store, matches: Route -> bool): set<string>
    requires WellFormed(s)
  {
    set r <- Visible(s) | r.tags.processType == PROCESS_WEB && matches(r) :: r.address
  }
}
