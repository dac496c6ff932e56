/** Bus messages and the handler that turns them into table events. */
module RoutesFetchers {
  import opened Options
  import opened Uris
  import opened RouteModel
  import opened RouteStore
  import opened RouteStoreProofs
  import opened StrayEntries
  import opened RoutingTables

  newtype Port = p: int | 0 <= p < 0x1_0000

  datatype Message = Message(
    host: string, port: Port, tlsPort: Port, privateInstanceId: string, serverCertDomainSan: string,
    staleThresholdInSeconds: int, routeServiceUrl: string, tags: Tags, uris: seq<Uri>)

  function Decimal(n: nat): string {
    var digit := ['0' + (n % 10) as char];
    if n < 10 then digit else Decimal(n / 10) + digit
  }

  /** The TLS port wins over the plain one. */
  function PortOf(m: Message): (Port, bool) {
    if m.tlsPort != 0 then (m.tlsPort, true) else (m.port, false)
  }

  function MakeRoute(m: Message): Route {
    var (port, useTls) := PortOf(m);
    Route(m.privateInstanceId, m.tags, m.serverCertDomainSan, m.host + ":" + Decimal(port as nat),
          useTls, m.staleThresholdInSeconds, map[], "", m.host)
  }

  predicate ValidMessage(m: Message) {
    m.routeServiceUrl == "" || (|m.routeServiceUrl| >= 5 && m.routeServiceUrl[..5] == "https")
  }

  /** The events of a message: none unless it is decodable, valid, of a known subject and for an app. */
  function EventsOf(subject: string, decoded: Option<Message>, growth: nat -> nat): seq<Op> {
    match decoded
    case None => []
    case Some(m) =>
      var route := MakeRoute(m);
      if !ValidMessage(m) || route.tags.appId == "" then []
      else if subject == "router.register" then
        seq(|m.uris|, i requires 0 <= i < |m.uris| => Reg(m.uris[i], route, growth(i)))
      else if subject == "router.unregister" then
        seq(|m.uris|, i requires 0 <= i < |m.uris| => Unreg(m.uris[i], route))
      else []
  }

  class RoutesFetcher {
    const table: RoutingTable
    /** All events handled so far. */
    ghost var history: seq<Op>

    /** The table is what its history of events makes it, and only app routes were ever filed. */
    ghost predicate Valid()
      reads this, table, table.backings
    {
      && table.Valid()
      && table.store == Run(history)
      && forall op <- history :: op.route.tags.appId != ""
    }

    constructor ()
      ensures Valid() && history == [] && fresh(table) && table.backings == []
    {
      table := new RoutingTable();
      history := [];
    }

    /**
     * The subscription callback: `growth` is what append chooses for each URI. A message that is dropped for
     * want of an app id must list a URI, since the source logs the first one.
     */
    method Handle(subject: string, decoded: Option<Message>, growth: nat -> nat)
      requires Valid()
      requires (subject in {"router.register", "router.unregister"} && decoded.Some? &&
                ValidMessage(decoded.value) && decoded.value.tags.appId == "") ==> decoded.value.uris != []
      modifies this`history, table, table.backings
      ensures Valid() && history == old(history) + EventsOf(subject, decoded, growth)
      ensures old(table.backings) <= table.backings
      ensures forall i :: |old(table.backings)| <= i < |table.backings| ==> fresh(table.backings[i])
    {
      if decoded == None || !ValidMessage(decoded.value) {
        assert EventsOf(subject, decoded, growth) == [];
        return;
      }
      if subject == "router.register" {
        RegisterMessage(decoded.value, growth);
      } else if subject == "router.unregister" {
        UnregisterMessage(decoded.value);
      }
    }

    method RegisterOne(uri: Uri, route: RouteObject, spare: nat)
      requires Valid() && route.route.tags.appId != ""
      modifies this`history, table, table.backings
      ensures Valid() && history == old(history) + [Reg(uri, route.route, spare)]
      ensures old(table.backings) <= table.backings
      ensures forall i :: |old(table.backings)| <= i < |table.backings| ==> fresh(table.backings[i])
    {
      hide Step, Register, WellFormed;
      table.RegisterRoute(uri, route, spare);
      ghost var event := Reg(uri, route.route, spare);
      StepOfRun(history, event);
      history := history + [event];
    }

    method UnregisterOne(uri: Uri, endpoint: RouteObject)
      requires Valid() && endpoint.route.tags.appId != ""
      modifies this`history, table, table.backings
      ensures Valid() && history == old(history) + [Unreg(uri, endpoint.route)]
      ensures table.backings == old(table.backings)
    {
      hide Step, Unregister, WellFormed;
      table.UnregisterRoute(uri, endpoint);
      ghost var event := Unreg(uri, endpoint.route);
      StepOfRun(history, event);
      history := history + [event];
    }

    method RegisterMessage(m: Message, growth: nat -> nat)
      requires Valid() && ValidMessage(m) && (m.tags.appId == "" ==> m.uris != [])
      modifies this`history, table, table.backings
      ensures Valid() && history == old(history) + EventsOf("router.register", Some(m), growth)
      ensures old(table.backings) <= table.backings
      ensures forall i :: |old(table.backings)| <= i < |table.backings| ==> fresh(table.backings[i])
    {
      hide EventsOf, Valid;
      ghost var events := EventsOf("router.register", Some(m), growth);
      EventsOfMessage(m, growth);
      if m.tags.appId == "" {
        return;
      }
      var route := new RouteObject(MakeRoute(m));
      var i := 0;
      while i < |m.uris|
        invariant 0 <= i <= |m.uris| == |events|
        invariant Valid() && history == old(history) + events[..i]
        invariant old(table.backings) <= table.backings
        invariant forall j :: |old(table.backings)| <= j < |table.backings| ==> fresh(table.backings[j])
      {
        RegisterOne(m.uris[i], route, growth(i));
        assert events[..i + 1] == events[..i] + [events[i]];
        i := i + 1;
      }
      assert events[..|events|] == events;
    }

    method UnregisterMessage(m: Message)
      requires Valid() && ValidMessage(m) && (m.tags.appId == "" ==> m.uris != [])
      modifies this`history, table, table.backings
      ensures Valid() && history == old(history) + EventsOf("router.unregister", Some(m), _ => 0)
      ensures table.backings == old(table.backings)
    {
      hide EventsOf, Valid;
      ghost var events := EventsOf("router.unregister", Some(m), _ => 0);
      EventsOfMessage(m, _ => 0);
      if m.tags.appId == "" {
        return;
      }
      var endpoint := new RouteObject(MakeRoute(m));
      var i := 0;
      while i < |m.uris|
        invariant 0 <= i <= |m.uris| == |events|
        invariant Valid() && history == old(history) + events[..i]
        invariant table.backings == old(table.backings)
      {
        UnregisterOne(m.uris[i], endpoint);
        assert events[..i + 1] == events[..i] + [events[i]];
        i := i + 1;
      }
      assert events[..|events|] == events;
    }
  }

  lemma StepOfRun(ops: seq<Op>, op: Op)
    ensures Run(ops + [op]) == Step(Run(ops), op)
    ensures op.Reg? ==> Step(Run(ops), op) == Register(Run(ops), op.uri, op.route, op.spare)
    ensures op.Unreg? ==> Step(Run(ops), op) == Unregister(Run(ops), op.uri, op.route)
  {
    hide RouteKey;
    assert (ops + [op])[..|ops|] == ops;
  }

  lemma EventsOfMessage(m: Message, growth: nat -> nat)
    requires ValidMessage(m)
    ensures var regs := EventsOf("router.register", Some(m), growth);
            var unregs := EventsOf("router.unregister", Some(m), growth);
            if m.tags.appId == "" then regs == [] == unregs
            else && |regs| == |unregs| == |m.uris|
                 && (forall i :: 0 <= i < |m.uris| ==> regs[i] == Reg(m.uris[i], MakeRoute(m), growth(i)))
                 && (forall i :: 0 <= i < |m.uris| ==> unregs[i] == Unreg(m.uris[i], MakeRoute(m)))
  {
  }

  lemma AppIdsInTheTable(f: RoutesFetcher)
    requires f.Valid()
    ensures forall r <- Visible(f.table.store) :: r.tags.appId != ""
  {
    OnlyRegisteredRoutesAreFiled(f.history, (r: Route) => r.tags.appId != "");
  }

  /**
   * As long as every unregister is by route key, a lookup of any name finds exactly its live routes, all of
   * them app routes, with no nil among them, so reading the tags of what was found cannot fail.
   */
  lemma LookupsAreExact(f: RoutesFetcher, name: string)
    requires f.Valid() && UnregistersByKey(f.history)
    ensures NilFree(Read(f.table.store, RouteKey(name)))
    ensures Represents(Read(f.table.store, RouteKey(name)), LiveAt(f.history, RouteKey(name)))
    ensures forall matches :: WebAddresses(f.table.store, matches) ==
              LiveWebAddresses(f.history, matches)
  {
    hide RouteKey;
    KeyedRunsAreClean(f.history);
    assert Exact(Run(f.history), f.history, RouteKey(name));
    ScansMeetTheLiveRoutes(f.history);
  }

  /** The addresses of the live web routes that match. */
  ghost function LiveWebAddresses(ops: seq<Op>, matches: Route -> bool): set<string> {
    set r <- LiveRoutes(ops) | r.tags.processType == PROCESS_WEB && matches(r) :: r.address
  }

  lemma {:induction false} LatestIsAnEvent(ops: seq<Op>, key: Uri, id: Identity)
    requires Latest(ops, key, id).Some?
    ensures IdentityOf(Latest(ops, key, id).value) == id
    ensures exists op <- ops :: op.Reg? && op.route == Latest(ops, key, id).value
  {
    hide RouteKey;
    var n := |ops| - 1;
    assert ops[n] in ops;
    if !(RouteKey(ops[n].uri) == key && IdentityOf(ops[n].route) == id) {
      LatestIsAnEvent(ops[..n], key, id);
    }
  }

  /** A history after which the app is looked up with an instance that has become another app's. */
  function HandedOver(u: Uri, spare: nat): seq<Op> {
    Straying(u, Named("1", "app"), Named("2", "app"), Named("3", "app"), spare) + [Reg(u, Named("1", "other"), 0)]
  }

  lemma HandedOverStaysVisible(u: Uri, spare: nat)
    requires RouteKey(u) != u
    ensures "1" in WebAddresses(Run(HandedOver(u, spare)), ById("app"))
    ensures "1" !in LiveWebAddresses(HandedOver(u, spare), ById("app"))
  {
    hide RouteKey, Run, LiveAt, Latest, Visible, LiveRoutes;
    var ops := HandedOver(u, spare);
    var a, newer := Named("1", "app"), Named("1", "other");
    ReplacedRouteStaysVisible(u, a, Named("2", "app"), Named("3", "app"), spare, newer);
    assert ById("app")(a);
    forall r <- LiveRoutes(ops)
      ensures r.address == "1" ==> r.tags.appId == "other"
    {
      LiveInHandedOver(u, spare, r);
    }
  }

  lemma EventsOfHandedOver(u: Uri, spare: nat)
    ensures forall op <- HandedOver(u, spare) ::
              && RouteKey(op.uri) == RouteKey(u)
              && (op.route.address == "1" ==> IdentityOf(op.route) == IdentityOf(Named("1", "other")))
  {
    hide RouteKey;
  }

  lemma LatestOfHandedOver(u: Uri, spare: nat)
    ensures Latest(HandedOver(u, spare), RouteKey(u), IdentityOf(Named("1", "other"))) == Some(Named("1", "other"))
  {
    hide RouteKey, Latest;
    LatestIsLast(Straying(u, Named("1", "app"), Named("2", "app"), Named("3", "app"), spare),
                 Reg(u, Named("1", "other"), 0));
  }

  lemma LiveInHandedOver(u: Uri, spare: nat, r: Route)
    requires r in LiveRoutes(HandedOver(u, spare))
    ensures r.address == "1" ==> r.tags.appId == "other"
  {
    hide RouteKey, LiveAt, Latest, HandedOver;
    var ops := HandedOver(u, spare);
    var key, id :| key in KeysOf(ops) && id in LiveAt(ops, key) && LiveAt(ops, key)[id] == r;
    LastWriteWins(ops, key, id);
    LatestIsAnEvent(ops, key, id);
    EventsOfHandedOver(u, spare);
    LatestOfHandedOver(u, spare);
  }

  /**
   * Over a vocabulary of URIs a lookup by id yields only addresses of the app's live web routes, in every
   * history, if and only if every URI of it is its own route key.
   */
  lemma LookupsByIdShowLiveOnlyIff(uris: set<Uri>)
    ensures (forall u <- uris :: RouteKey(u) == u) <==>
            forall ops: seq<Op>, appId: string :: Over(uris, ops) ==>
              WebAddresses(Run(ops), ById(appId)) <= LiveWebAddresses(ops, ById(appId))
  {
    hide RouteKey, Run, WellFormed, LiveRoutes, Visible;
    if OwnKeys(uris) {
      ScansShowLiveOnlyIff(uris);
    } else {
      var u :| u in uris && RouteKey(u) != u;
      HandedOverStaysVisible(u, 1);
      var ops := HandedOver(u, 1);
      assert Over(uris, ops);
      assert !(WebAddresses(Run(ops), ById("app")) <= LiveWebAddresses(ops, ById("app")));
    }
  }

  /** A message as the subscription hands it over. */
  datatype Delivery = Delivery(subject: string, decoded: Option<Message>, growth: nat -> nat)

  /** The events of a run of deliveries, which is what Handle makes the history of. */
  function HistoryOf(deliveries: seq<Delivery>): seq<Op> {
    if deliveries == [] then []
    else
      var last := deliveries[|deliveries| - 1];
      HistoryOf(deliveries[..|deliveries| - 1]) + EventsOf(last.subject, last.decoded, last.growth)
  }

  ghost predicate About(deliveries: seq<Delivery>, uris: set<Uri>) {
    forall d <- deliveries :: d.decoded.Some? ==> forall u <- d.decoded.value.uris :: u in uris
  }

  lemma {:induction false} HistoryIsOver(deliveries: seq<Delivery>, uris: set<Uri>)
    requires About(deliveries, uris)
    ensures Over(uris, HistoryOf(deliveries))
  {
    hide MakeRoute, ValidMessage;
    if deliveries != [] {
      assert deliveries[|deliveries| - 1] in deliveries;
      HistoryIsOver(deliveries[..|deliveries| - 1], uris);
    }
  }

  function AppMessage(uri: Uri): Message {
    Message("host", 8080, 0, "", "", 0, "", SOME_ROUTE.tags.(appId := "app"), [uri])
  }

  /** An app that registers one URI and unregisters it again. */
  function ComesAndGoes(uri: Uri): seq<Delivery> {
    [Delivery("router.register", Some(AppMessage(uri)), _ => 0),
     Delivery("router.unregister", Some(AppMessage(uri)), _ => 0)]
  }

  lemma ComesAndGoesHistory(uri: Uri)
    ensures var r := MakeRoute(AppMessage(uri));
            HistoryOf(ComesAndGoes(uri)) == [Reg(uri, r, 0), Unreg(uri, r)]
  {
    hide MakeRoute;
    var ds, r := ComesAndGoes(uri), MakeRoute(AppMessage(uri));
    assert ds[..1] == [ds[0]] && [ds[0]][..0] == [];
    assert r.tags.appId == "app" by { AppOfMessage(uri); }
    assert EventsOf(ds[0].subject, ds[0].decoded, ds[0].growth) == [Reg(uri, r, 0)];
    assert EventsOf(ds[1].subject, ds[1].decoded, ds[1].growth) == [Unreg(uri, r)];
    assert HistoryOf(ds[..1]) == HistoryOf([]) + [Reg(uri, r, 0)];
    assert [] + [Reg(uri, r, 0)] + [Unreg(uri, r)] == [Reg(uri, r, 0), Unreg(uri, r)];
  }

  lemma AppOfMessage(uri: Uri)
    ensures MakeRoute(AppMessage(uri)).tags.appId == "app"
  {
  }

  /**
   * Over a vocabulary of URIs no run of bus messages ever makes a lookup by name yield a nil pointer if and
   * only if every URI of it is its own route key. For any other URI it is enough that an app comes and goes.
   */
  lemma LookupsNeverYieldNilIff(uris: set<Uri>)
    ensures (forall u <- uris :: RouteKey(u) == u) <==>
            forall ds: seq<Delivery>, name: Uri :: About(ds, uris) ==> NilFree(Read(Run(HistoryOf(ds)), RouteKey(name)))
  {
    hide RouteKey, Run, WellFormed, HistoryOf, EventsOf, MakeRoute;
    if OwnKeys(uris) {
      LookupsAreNilFreeIff(uris);
      forall ds: seq<Delivery>, name: Uri | About(ds, uris)
        ensures NilFree(Read(Run(HistoryOf(ds)), RouteKey(name)))
      {
        HistoryIsOver(ds, uris);
      }
    } else {
      var u :| u in uris && RouteKey(u) != u;
      ComesAndGoesHistory(u);
      ForeignUnregisterLeavesNil(u, MakeRoute(AppMessage(u)), 0);
      var ds := ComesAndGoes(u);
      assert About(ds, uris);
      assert Read(Run(HistoryOf(ds)), RouteKey(u))[0].None?;
    }
  }

  // ---- messages and routes ----

  const DIGITS := "0123456789"

  /** The number written in decimal digits, without leading zeros. */
  ghost function NumberOf(digits: string): Option<nat> {
    if |digits| == 0 || (|digits| > 1 && digits[0] == '0') then None
    else ValueOf(digits)
  }

  ghost function ValueOf(digits: string): Option<nat> {
    if digits == "" then Some(0)
    else
      match ValueOf(digits[..|digits| - 1])
      case None => None
      case Some(n) =>
        if d: nat :| d < 10 && DIGITS[d] == digits[|digits| - 1] then Some(10 * n + d) else None
  }

  lemma DigitsAreDistinct(d: nat, e: nat)
    requires d < 10 && e < 10 && DIGITS[d] == DIGITS[e]
    ensures d == e
  {
    assert DIGITS[d] == '0' + d as char && DIGITS[e] == '0' + e as char;
  }

  lemma {:induction false} DecimalHasValue(n: nat)
    ensures ValueOf(Decimal(n)) == Some(n)
  {
    var s := Decimal(n);
    assert DIGITS[n % 10] == '0' + (n % 10) as char == s[|s| - 1];
    forall d: nat | d < 10 && DIGITS[d] == s[|s| - 1]
      ensures d == n % 10
    {
      DigitsAreDistinct(d, n % 10);
    }
    if n >= 10 {
      DecimalHasValue(n / 10);
      assert s[..|s| - 1] == Decimal(n / 10);
    } else {
      assert s[..|s| - 1] == "";
    }
  }

  lemma {:induction false} NoLeadingZero(n: nat)
    ensures |Decimal(n)| >= 1 && (|Decimal(n)| == 1 <==> n < 10) && (n > 0 ==> Decimal(n)[0] != '0')
  {
    if n >= 10 {
      NoLeadingZero(n / 10);
    }
  }

  lemma DecimalReadsBack(n: nat)
    ensures NumberOf(Decimal(n)) == Some(n)
  {
    DecimalHasValue(n);
    NoLeadingZero(n);
  }

  /**
   * The route of a message: TLS if there is a TLS port, which is then the one in the address; all else is the
   * message's own, and parameters and path are left empty.
   */
  lemma RouteOfMessage(m: Message)
    ensures var r := MakeRoute(m);
            && (r.tls <==> m.tlsPort != 0)
            && |r.address| > |m.host| && r.address[..|m.host| + 1] == m.host + ":"
            && NumberOf(r.address[|m.host| + 1..]) == Some((if m.tlsPort != 0 then m.tlsPort else m.port) as nat)
            && r.host == m.host && r.privateInstanceId == m.privateInstanceId
            && r.serverCertDomainSan == m.serverCertDomainSan && r.tags == m.tags
            && r.ttl == m.staleThresholdInSeconds && r.urlParams == map[] && r.metricsPath == ""
  {
    var (port, _) := PortOf(m);
    DecimalReadsBack(port as nat);
    assert MakeRoute(m).address[|m.host| + 1..] == Decimal(port as nat);
  }

  /** A message is valid without a route service, or with one whose address starts with "https". */
  lemma ValidMessageIff(m: Message)
    ensures ValidMessage(m) <==> m.routeServiceUrl == "" || exists rest :: m.routeServiceUrl == "https" + rest
  {
    if |m.routeServiceUrl| >= 5 && m.routeServiceUrl[..5] == "https" {
      assert m.routeServiceUrl == "https" + m.routeServiceUrl[5..];
    }
  }

  /** Which messages have events at all: register and unregister messages that are valid and about an app. */
  lemma MessageIsHandledIff(subject: string, decoded: Option<Message>, growth: nat -> nat)
    ensures EventsOf(subject, decoded, growth) != [] <==>
            && subject in {"router.register", "router.unregister"}
            && decoded.Some? && ValidMessage(decoded.value)
            && decoded.value.tags.appId != "" && decoded.value.uris != []
  {
    hide ValidMessage;
  }

  lemma {:induction false} DecimalIsInjective(m: nat, n: nat)
    requires Decimal(m) == Decimal(n)
    ensures m == n
  {
    assert Decimal(m)[|Decimal(m)| - 1] == '0' + (m % 10) as char;
    assert Decimal(n)[|Decimal(n)| - 1] == '0' + (n % 10) as char;
    if m >= 10 && n >= 10 {
      assert Decimal(m)[..|Decimal(m)| - 1] == Decimal(m / 10);
      assert Decimal(n)[..|Decimal(n)| - 1] == Decimal(n / 10);
      DecimalIsInjective(m / 10, n / 10);
    } else {
      DecimalIsNotEmpty(m / 10);
      DecimalIsNotEmpty(n / 10);
    }
  }

  lemma DecimalIsNotEmpty(n: nat)
    ensures Decimal(n) != ""
  {
  }

  /**
   * Two messages are about the same route exactly when they agree on these fields; the ports count only
   * through the one in use, and the tags that NeedUpdate compares do not count at all.
   */
  lemma SameRouteIff(m: Message, n: Message)
    ensures Equal(MakeRoute(m), Some(MakeRoute(n))) <==>
            && m.privateInstanceId == n.privateInstanceId
            && m.serverCertDomainSan == n.serverCertDomainSan
            && m.host == n.host
            && (if m.tlsPort != 0 then m.tlsPort else m.port) == (if n.tlsPort != 0 then n.tlsPort else n.port)
            && m.tags.instanceId == n.tags.instanceId
            && m.tags.processInstanceId == n.tags.processInstanceId
  {
    var (p, _) := PortOf(m);
    var (q, _) := PortOf(n);
    if m.host == n.host && MakeRoute(m).address == MakeRoute(n).address {
      assert MakeRoute(m).address[|m.host| + 1..] == Decimal(p as nat);
      assert MakeRoute(n).address[|n.host| + 1..] == Decimal(q as nat);
      DecimalIsInjective(p as nat, q as nat);
    }
  }
}
