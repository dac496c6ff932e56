/** The JSON text of the routing table, built by appending and trimming commas. */
module TableTexts {
  import opened Options
  import opened Uris
  import opened RouteModel
  import opened RouteStore
  import opened RouteStoreProofs
  import opened StrayEntries

  /** Removes all trailing commas. */
  function TrimCommas(s: string): string {
    if s != "" && s[|s| - 1] == ',' then TrimCommas(s[..|s| - 1]) else s
  }

  function Join(parts: seq<string>): string {
    if parts == [] then "" else if |parts| == 1 then parts[0] else parts[0] + "," + Join(parts[1..])
  }

  /** Each part followed by a comma. */
  function Listed(parts: seq<string>): string {
    if parts == [] then "" else Listed(parts[..|parts| - 1]) + parts[|parts| - 1] + ","
  }

  predicate EndsPlainly(s: string) {
    s != "" && s[|s| - 1] != ','
  }

  lemma {:induction false} JoinSnoc(parts: seq<string>, last: string)
    ensures Join(parts + [last]) == if parts == [] then last else Join(parts) + "," + last
  {
    if |parts| == 1 {
      assert (parts + [last])[1..] == [last];
    } else if |parts| > 1 {
      JoinSnoc(parts[1..], last);
      assert (parts + [last])[1..] == parts[1..] + [last];
    }
  }

  lemma {:induction false} ListedIsJoined(parts: seq<string>)
    requires parts != []
    ensures Listed(parts) == Join(parts) + ","
  {
    var n := |parts| - 1;
    var before := parts[..n];
    assert before + [parts[n]] == parts;
    JoinSnoc(before, parts[n]);
    if before != [] {
      hide Join;
      ListedIsJoined(before);
    } else {
      assert Listed(before) == "";
    }
  }

  lemma TrimOneComma(s: string)
    requires EndsPlainly(s)
    ensures TrimCommas(s) == s && TrimCommas(s + ",") == s
  {
    assert (s + ",")[..|s|] == s;
  }

  lemma JoinEndsPlainly(head: string, parts: seq<string>)
    requires EndsPlainly(head) && forall p <- parts :: EndsPlainly(p)
    ensures EndsPlainly(head + Join(parts))
  {
    if parts != [] {
      var n := |parts| - 1;
      assert parts[..n] + [parts[n]] == parts;
      JoinSnoc(parts[..n], parts[n]);
      assert EndsPlainly(parts[n]);
      assert EndsPlainly(Join(parts));
    }
  }

  lemma TrimListed(head: string, parts: seq<string>)
    requires EndsPlainly(head) && forall p <- parts :: EndsPlainly(p)
    ensures TrimCommas(head + Listed(parts)) == head + Join(parts)
  {
    JoinEndsPlainly(head, parts);
    TrimOneComma(head + Join(parts));
    if parts == [] {
      assert head + Listed(parts) == head + Join(parts);
    } else {
      ListedIsJoined(parts);
      assert head + Listed(parts) == (head + Join(parts)) + ",";
    }
  }

  // ---- the text of a table ----

  /** The JSON text of a pointer, or nothing if marshalling fails; nil marshals too. */
  type Marshal = Option<Route> -> Option<string>

  const MARSHAL_ERROR := "Error to generate Json"

  /** A key is printed by the String method of Uri, which drops one trailing slash. */
  function Opening(u: Uri): string {
    "\"" + TrimSlash(u) + "\": ["
  }

  /** A key with the texts of its list. */
  datatype Entry = Entry(key: Uri, items: seq<string>)

  function EntryText(e: Entry): string {
    Opening(e.key) + Join(e.items) + "]"
  }

  function EntryTexts(entries: seq<Entry>): seq<string> {
    seq(|entries|, i requires 0 <= i < |entries| => EntryText(entries[i]))
  }

  /** The plain comma-join form. */
  function TableText(entries: seq<Entry>): string {
    "{" + Join(EntryTexts(entries)) + "}"
  }

  /** The entries as their text names them. */
  function AsNamed(entries: seq<Entry>): seq<Entry> {
    seq(|entries|, i requires 0 <= i < |entries| => NamedEntry(entries[i]))
  }

  function NamedEntry(e: Entry): Entry {
    e.(key := TrimSlash(e.key))
  }

  /** The texts of a slice; nothing if one fails. */
  function Marshalled(slots: Slots, marshal: Marshal): Option<seq<string>> {
    if slots == [] then Some([])
    else
      match (Marshalled(slots[..|slots| - 1], marshal), marshal(slots[|slots| - 1]))
      case (Some(texts), Some(text)) => Some(texts + [text])
      case _ => None
  }

  /** The entries of a table in the order of `order`. */
  function Entries(order: seq<Uri>, table: map<Uri, Slots>, marshal: Marshal): Option<seq<Entry>> {
    if order == [] then Some([])
    else
      var u := order[|order| - 1];
      match (Entries(order[..|order| - 1], table, marshal), Marshalled(if u in table then table[u] else [], marshal))
      case (Some(entries), Some(texts)) => Some(entries + [Entry(u, texts)])
      case _ => None
  }

  ghost predicate EndsPlainlyAlways(marshal: Marshal) {
    forall slot :: marshal(slot).Some? ==> EndsPlainly(marshal(slot).value)
  }

  lemma {:induction false} MarshalledPrefix(slots: Slots, n: nat, marshal: Marshal)
    requires n <= |slots| && Marshalled(slots[..n], marshal).None?
    ensures Marshalled(slots, marshal).None?
    decreases |slots| - n
  {
    if n < |slots| {
      assert slots[..n + 1][..n] == slots[..n];
      MarshalledPrefix(slots, n + 1, marshal);
    } else {
      assert slots[..n] == slots;
    }
  }

  lemma {:induction false} MarshalledEndPlainly(slots: Slots, marshal: Marshal)
    requires EndsPlainlyAlways(marshal) && Marshalled(slots, marshal).Some?
    ensures forall text <- Marshalled(slots, marshal).value :: EndsPlainly(text)
  {
    if slots != [] {
      MarshalledEndPlainly(slots[..|slots| - 1], marshal);
    }
  }

  lemma MarshalledNext(slots: Slots, n: nat, marshal: Marshal)
    requires n < |slots|
    ensures Marshalled(slots[..n + 1], marshal) ==
            match (Marshalled(slots[..n], marshal), marshal(slots[n]))
            case (Some(texts), Some(text)) => Some(texts + [text])
            case _ => None
  {
    assert slots[..n + 1][..n] == slots[..n];
  }

  /** The inner loop of String: one entry appended to the text so far. */
  method AppendEntry(before: string, u: Uri, routes: Slots, marshal: Marshal) returns (finalStr: Option<string>)
    requires EndsPlainlyAlways(marshal)
    ensures finalStr == match Marshalled(routes, marshal)
                        case None => None
                        case Some(texts) => Some(before + EntryText(Entry(u, texts)) + ",")
  {
    hide Listed, Join, TrimCommas, Marshalled;
    var text := before + Opening(u);
    ghost var head := text;
    ghost var texts: seq<string> := [];
    var i := 0;
    NothingListed(routes, marshal);
    assert head + Listed([]) == head;
    while i < |routes|
      invariant 0 <= i <= |routes| && Marshalled(routes[..i], marshal) == Some(texts)
      invariant text == head + Listed(texts)
    {
      var jsonRoute := marshal(routes[i]);
      MarshalledNext(routes, i, marshal);
      if jsonRoute == None {
        MarshalledPrefix(routes, i + 1, marshal);
        return None;
      }
      text := text + jsonRoute.value + ",";
      ListedSnoc(texts, jsonRoute.value);
      texts := texts + [jsonRoute.value];
      assert text == head + Listed(texts);
      i := i + 1;
    }
    assert routes[..|routes|] == routes;
    MarshalledEndPlainly(routes, marshal);
    TrimListed(head, texts);
    assert head + Join(texts) + "]," == before + EntryText(Entry(u, texts)) + ",";
    return Some(TrimCommas(text) + "],");
  }

  lemma ListedSnoc(parts: seq<string>, last: string)
    ensures Listed(parts + [last]) == Listed(parts) + last + ","
  {
    assert (parts + [last])[..|parts|] == parts;
  }

  lemma NothingListed(slots: Slots, marshal: Marshal)
    ensures Listed([]) == "" && Marshalled(slots[..0], marshal) == Some([])
  {
  }

  lemma {:induction false} EntriesPrefix(order: seq<Uri>, n: nat, table: map<Uri, Slots>, marshal: Marshal)
    requires n <= |order| && Entries(order[..n], table, marshal).None?
    ensures Entries(order, table, marshal).None?
    decreases |order| - n
  {
    if n < |order| {
      assert order[..n + 1][..n] == order[..n];
      EntriesPrefix(order, n + 1, table, marshal);
    } else {
      assert order[..n] == order;
    }
  }

  lemma EntriesNext(order: seq<Uri>, n: nat, table: map<Uri, Slots>, marshal: Marshal)
    requires n < |order| && order[n] in table
    ensures Entries(order[..n + 1], table, marshal) ==
            match (Entries(order[..n], table, marshal), Marshalled(table[order[n]], marshal))
            case (Some(entries), Some(texts)) => Some(entries + [Entry(order[n], texts)])
            case _ => None
  {
    assert order[..n + 1][..n] == order[..n];
  }

  lemma EntryTextsSnoc(entries: seq<Entry>, entry: Entry)
    ensures Listed(EntryTexts(entries + [entry])) == Listed(EntryTexts(entries)) + EntryText(entry) + ","
  {
    hide EntryText;
    assert EntryTexts(entries + [entry]) == EntryTexts(entries) + [EntryText(entry)];
    ListedSnoc(EntryTexts(entries), EntryText(entry));
  }

  lemma TrimEntries(entries: seq<Entry>)
    ensures TrimCommas("{" + Listed(EntryTexts(entries))) + "}" == TableText(entries)
  {
    hide Join, Listed, TrimCommas;
    TrimListed("{", EntryTexts(entries));
  }

  /** Appending and trimming yields the comma-join form, in whatever order the map is ranged over. */
  method String(order: seq<Uri>, table: map<Uri, Slots>, marshal: Marshal) returns (finalStr: string)
    requires EndsPlainlyAlways(marshal) && forall u <- order :: u in table
    ensures finalStr == match Entries(order, table, marshal)
                        case None => "Error to generate Json"
                        case Some(entries) => TableText(entries)
  {
    hide Marshalled, EntryText, EntryTexts, TrimCommas, TableText;
    finalStr := "{";
    ghost var entries: seq<Entry> := [];
    var n := 0;
    assert "{" + Listed(EntryTexts([])) == "{" by { NoEntries(); }
    assert order[..0] == [];
    while n < |order|
      invariant 0 <= n <= |order| && Entries(order[..n], table, marshal) == Some(entries)
      invariant finalStr == "{" + Listed(EntryTexts(entries))
    {
      hide Entries, Listed;
      var u := order[n];
      EntriesNext(order, n, table, marshal);
      var more := AppendEntry(finalStr, u, table[u], marshal);
      if more == None {
        EntriesPrefix(order, n + 1, table, marshal);
        return MARSHAL_ERROR;
      }
      ghost var entry := Entry(u, Marshalled(table[u], marshal).value);
      EntryTextsSnoc(entries, entry);
      assert finalStr + EntryText(entry) + "," == "{" + Listed(EntryTexts(entries + [entry]));
      entries := entries + [entry];
      finalStr := more.value;
      n := n + 1;
    }
    assert order[..|order|] == order;
    TrimEntries(entries);
    finalStr := TrimCommas(finalStr) + "}";
  }

  lemma {:induction false} MarshalledIff(slots: Slots, marshal: Marshal)
    ensures Marshalled(slots, marshal).Some? <==> forall slot <- slots :: marshal(slot).Some?
    ensures Marshalled(slots, marshal).Some? ==>
              && |Marshalled(slots, marshal).value| == |slots|
              && forall i :: 0 <= i < |slots| ==> marshal(slots[i]) == Some(Marshalled(slots, marshal).value[i])
  {
    if slots != [] {
      var n := |slots| - 1;
      MarshalledIff(slots[..n], marshal);
      assert slots == slots[..n] + [slots[n]];
    }
  }

  /**
   * The entries of the text are those of the table: each key in the order of the range, with the text of each of
   * its slots in turn. There are none exactly if some slot cannot be marshalled.
   */
  lemma {:induction false} EntriesIff(order: seq<Uri>, table: map<Uri, Slots>, marshal: Marshal)
    requires forall u <- order :: u in table
    ensures Entries(order, table, marshal).Some? <==> forall u <- order, slot <- table[u] :: marshal(slot).Some?
    ensures Entries(order, table, marshal).Some? ==>
              var entries := Entries(order, table, marshal).value;
              && |entries| == |order|
              && forall n :: 0 <= n < |order| ==>
                   && entries[n].key == order[n] && |entries[n].items| == |table[order[n]]|
                   && forall i :: 0 <= i < |table[order[n]]| ==>
                        marshal(table[order[n]][i]) == Some(entries[n].items[i])
  {
    hide Marshalled;
    if order != [] {
      var n := |order| - 1;
      EntriesIff(order[..n], table, marshal);
      MarshalledIff(table[order[n]], marshal);
      assert order == order[..n] + [order[n]];
    }
  }

  lemma NoEntries()
    ensures Listed(EntryTexts([])) == ""
  {
  }

  // ---- reading it back ----

  /** Where a scan of JSON text is: how deep, and whether within a string. */
  datatype Lex = Lex(depth: int, inString: bool, escaped: bool)

  const TOP := Lex(0, false, false)

  function Next(l: Lex, c: char): Lex {
    if l.inString then
      if l.escaped then l.(escaped := false)
      else if c == '\\' then l.(escaped := true)
      else if c == '\"' then l.(inString := false)
      else l
    else if c == '\"' then l.(inString := true)
    else if c == '{' || c == '[' then l.(depth := l.depth + 1)
    else if c == '}' || c == ']' then l.(depth := l.depth - 1)
    else l
  }

  /** Here a value of a list ends. */
  predicate EndsValue(l: Lex, c: char) {
    l == TOP && (c == ',' || c == ']')
  }

  /** Scanned from `l`, the text closes all it opens and shows no separator outside of it. */
  predicate ClosesFrom(text: string, l: Lex) {
    if text == "" then l == TOP else !EndsValue(l, text[0]) && ClosesFrom(text[1..], Next(l, text[0]))
  }

  /** One JSON value, as far as finding its end is concerned. */
  predicate IsValue(text: string) {
    text != "" && ClosesFrom(text, TOP)
  }

  /** How far the value reaches. */
  function ValueLength(text: string, l: Lex): (n: nat)
    ensures n <= |text|
  {
    if text == "" || EndsValue(l, text[0]) then 0 else 1 + ValueLength(text[1..], Next(l, text[0]))
  }

  lemma {:induction false} ValueLengthOf(text: string, rest: string, l: Lex)
    requires ClosesFrom(text, l) && rest != "" && (rest[0] == ',' || rest[0] == ']')
    ensures ValueLength(text + rest, l) == |text|
  {
    if text == "" {
      assert text + rest == rest;
    } else {
      ValueLengthOf(text[1..], rest, Next(l, text[0]));
      assert (text + rest)[1..] == text[1..] + rest;
    }
  }

  /** Values up to the closing bracket, and what follows it. */
  function ParseItems(text: string): (r: Option<(seq<string>, string)>)
    ensures r.Some? ==> |r.value.1| < |text|
  {
    var n := ValueLength(text, TOP);
    if n == |text| then None
    else if text[n] == ']' then Some(([text[..n]], text[n + 1..]))
    else
      match ParseItems(text[n + 1..])
      case None => None
      case Some((items, rest)) => Some(([text[..n]] + items, rest))
  }

  function ParseList(text: string): (r: Option<(seq<string>, string)>)
    ensures r.Some? ==> |r.value.1| < |text|
  {
    if text != "" && text[0] == ']' then Some(([], text[1..])) else ParseItems(text)
  }

  function KeyLength(text: string): (n: nat)
    ensures n <= |text|
  {
    if text == "" || text[0] == '\"' then 0 else 1 + KeyLength(text[1..])
  }

  /** A name without the characters that section 7 of RFC 8259 wants escaped. */
  predicate PlainKey(u: Uri) {
    '\"' !in u && '\\' !in u && forall i :: 0 <= i < |u| ==> u[i] >= ' '
  }

  const AFTER_KEY := "\": ["

  /** Entries up to the closing brace; names with escapes, which the table never prints, are refused. */
  function ParseEntries(text: string): Option<seq<Entry>>
    decreases |text|
  {
    if text == "" || text[0] != '\"' then None
    else
      var n := KeyLength(text[1..]);
      var tail := text[1 + n..];
      if !PlainKey(text[1..1 + n]) || |tail| < 4 || tail[..4] != AFTER_KEY then None
      else
        match ParseList(tail[4..])
        case None => None
        case Some((items, rest)) =>
          var entry := Entry(text[1..1 + n], items);
          if rest == "}" then Some([entry])
          else if rest != "" && rest[0] == ',' then
            match ParseEntries(rest[1..])
            case None => None
            case Some(entries) => Some([entry] + entries)
          else None
  }

  function Parse(text: string): Option<seq<Entry>> {
    if text == "{}" then Some([])
    else if text != "" && text[0] == '{' then ParseEntries(text[1..])
    else None
  }

  ghost predicate Readable(e: Entry) {
    PlainKey(e.key) && forall item <- e.items :: IsValue(item)
  }

  lemma LastItem(item: string, rest: string)
    requires IsValue(item)
    ensures ParseItems(item + ("]" + rest)) == Some(([item], rest))
  {
    hide ClosesFrom, ValueLength;
    var text := item + ("]" + rest);
    ValueLengthOf(item, "]" + rest, TOP);
    assert text[|item|] == ']' && text[..|item|] == item && text[|item| + 1..] == rest;
  }

  /** Past a value and a comma, the items of what follows are read. */
  lemma ItemsAfterComma(text: string, n: nat, items: seq<string>, rest: string)
    requires n == ValueLength(text, TOP) && n < |text| && text[n] == ','
    requires ParseItems(text[n + 1..]) == Some((items, rest))
    ensures ParseItems(text) == Some(([text[..n]] + items, rest))
  {
    hide ClosesFrom, ValueLength;
  }

  lemma NextItem(item: string, tail: string, items: seq<string>, rest: string)
    requires IsValue(item) && ParseItems(tail) == Some((items, rest))
    ensures ParseItems(item + ("," + tail)) == Some(([item] + items, rest))
  {
    hide ClosesFrom, ValueLength, ParseItems;
    var text := item + ("," + tail);
    ValueLengthOf(item, "," + tail, TOP);
    assert text[|item|] == ',' && text[..|item|] == item && text[|item| + 1..] == tail;
    ItemsAfterComma(text, |item|, items, rest);
  }

  lemma {:induction false} ItemsReadBack(items: seq<string>, rest: string)
    requires items != [] && forall item <- items :: IsValue(item)
    ensures ParseItems(Join(items) + "]" + rest) == Some((items, rest))
  {
    hide IsValue, ParseItems;
    var text := Join(items) + "]" + rest;
    assert IsValue(items[0]);
    if |items| == 1 {
      assert text == items[0] + ("]" + rest);
      LastItem(items[0], rest);
      assert [items[0]] == items;
    } else {
      var tail := Join(items[1..]) + "]" + rest;
      assert text == items[0] + ("," + tail);
      ItemsReadBack(items[1..], rest);
      NextItem(items[0], tail, items[1..], rest);
      assert [items[0]] + items[1..] == items;
    }
  }

  lemma ListReadsBack(items: seq<string>, rest: string)
    requires forall item <- items :: IsValue(item)
    ensures ParseList(Join(items) + "]" + rest) == Some((items, rest))
  {
    hide ParseItems;
    var text := Join(items) + "]" + rest;
    if items == [] {
      assert text == "]" + rest;
      assert text[1..] == rest;
    } else {
      assert IsValue(items[0]);
      assert text[0] == items[0][0];
      ItemsReadBack(items, rest);
    }
  }

  lemma {:induction false} KeyLengthOf(u: string, rest: string)
    requires '\"' !in u && rest != "" && rest[0] == '\"'
    ensures KeyLength(u + rest) == |u|
  {
    if u == "" {
      assert u + rest == rest;
    } else {
      KeyLengthOf(u[1..], rest);
      assert (u + rest)[1..] == u[1..] + rest;
    }
  }

  lemma NamedPlainly(u: Uri)
    requires PlainKey(u)
    ensures PlainKey(TrimSlash(u))
  {
  }

  lemma EntryReadsBack(e: Entry, rest: string)
    requires Readable(e) && rest != ""
    ensures var text, name := EntryText(e) + rest, TrimSlash(e.key);
            && text[0] == '\"' && KeyLength(text[1..]) == |name| && text[1..1 + |name|] == name
            && PlainKey(name) && |text| >= 5 + |name| && text[1 + |name|..][..4] == AFTER_KEY
            && ParseList(text[1 + |name|..][4..]) == Some((e.items, rest))
  {
    hide ParseList, KeyLength, Join;
    var name := TrimSlash(e.key);
    var list := Join(e.items) + "]" + rest;
    var text := EntryText(e) + rest;
    assert text == "\"" + (name + (AFTER_KEY + list)) by { hide TrimSlash; }
    assert text[1..] == name + (AFTER_KEY + list);
    NamedPlainly(e.key);
    KeyLengthOf(name, AFTER_KEY + list);
    assert text[1 + |name|..] == AFTER_KEY + list;
    assert (AFTER_KEY + list)[4..] == list;
    ListReadsBack(e.items, rest);
  }

  lemma {:induction false} EntriesReadBack(entries: seq<Entry>)
    requires entries != [] && forall e <- entries :: Readable(e)
    ensures ParseEntries(Join(EntryTexts(entries)) + "}") == Some(AsNamed(entries))
  {
    hide ParseList, KeyLength, EntryText, TrimSlash, PlainKey;
    var texts := EntryTexts(entries);
    var text := Join(texts) + "}";
    if |entries| == 1 {
      EntryReadsBack(entries[0], "}");
      assert text == EntryText(entries[0]) + "}";
      assert [NamedEntry(entries[0])] == AsNamed(entries);
    } else {
      var tail := Join(EntryTexts(entries[1..])) + "}";
      assert texts[1..] == EntryTexts(entries[1..]);
      assert text == EntryText(entries[0]) + ("," + tail);
      EntryReadsBack(entries[0], "," + tail);
      assert ("," + tail)[1..] == tail;
      EntriesReadBack(entries[1..]);
      assert [NamedEntry(entries[0])] + AsNamed(entries[1..]) == AsNamed(entries);
    }
  }

  /**
   * The text of any table reads back to the same lists in the same order, each under its key less one
   * trailing slash, if no key needs escaping.
   */
  lemma TextReadsBack(entries: seq<Entry>)
    requires forall e <- entries :: Readable(e)
    ensures Parse(TableText(entries)) == Some(AsNamed(entries))
  {
    hide ParseEntries, EntryText, NamedEntry;
    var text := TableText(entries);
    if entries == [] {
      assert text == "{}" && AsNamed(entries) == [];
    } else {
      EntriesReadBack(entries);
      assert text[1..] == Join(EntryTexts(entries)) + "}";
      NoSuchEntries(entries);
    }
  }

  lemma {:induction false} ParsedNamesArePlain(text: string)
    ensures ParseEntries(text).Some? ==> forall e <- ParseEntries(text).value :: PlainKey(e.key)
    decreases |text|
  {
    hide PlainKey, KeyLength, ParseList;
    if ParseEntries(text).Some? {
      var n := KeyLength(text[1..]);
      var (_, rest) := ParseList(text[1 + n..][4..]).value;
      if rest != "}" {
        ParsedNamesArePlain(rest[1..]);
      }
    }
  }

  /**
   * The text reads back to the same table exactly when every key is plain and none ends in a slash. A URI from
   * the bus may be neither, and nothing is escaped.
   */
  lemma TextReadsBackIff(entries: seq<Entry>)
    requires forall e <- entries, item <- e.items :: IsValue(item)
    ensures Parse(TableText(entries)) == Some(entries) <==>
            forall e <- entries :: PlainKey(e.key) && !EndsInSlash(e.key)
  {
    hide TableText, IsValue, PlainKey, ParseEntries;
    if forall e <- entries :: PlainKey(e.key) {
      TextReadsBack(entries);
      if AsNamed(entries) == entries {
        assert forall i :: 0 <= i < |entries| ==> NamedEntry(entries[i]) == AsNamed(entries)[i];
      } else {
        assert exists i :: 0 <= i < |entries| && NamedEntry(entries[i]) != entries[i];
      }
    } else if Parse(TableText(entries)).Some? {
      ParsedNamesArePlain(TableText(entries)[1..]);
    }
  }

  lemma NoSuchEntries(entries: seq<Entry>)
    requires entries != []
    ensures |Join(EntryTexts(entries))| > 0
  {
    assert |EntryText(entries[0])| > 0;
  }

  // ---- when the names of the text are distinct ----

  ghost predicate DistinctKeys(entries: seq<Entry>) {
    forall i, j :: 0 <= i < j < |entries| ==> entries[i].key != entries[j].key
  }

  /** No two keys differ by one trailing slash only. */
  ghost predicate SlashApart(keys: set<Uri>) {
    forall u <- keys :: EndsInSlash(u) && !EndsInSlash(TrimSlash(u)) ==> TrimSlash(u) !in keys
  }

  ghost function KeysIn(entries: seq<Entry>): set<Uri> {
    set e <- entries :: e.key
  }

  /** Two keys get one name exactly when one of them is the other with one slash more, and that slash the only one. */
  lemma SameNameIff(u: Uri, v: Uri)
    requires u != v
    ensures TrimSlash(u) == TrimSlash(v) <==>
            || (EndsInSlash(u) && !EndsInSlash(v) && TrimSlash(u) == v)
            || (EndsInSlash(v) && !EndsInSlash(u) && TrimSlash(v) == u)
  {
    assert EndsInSlash(u) ==> u == TrimSlash(u) + "/";
    assert EndsInSlash(v) ==> v == TrimSlash(v) + "/";
  }

  /** The names in the text of a table are distinct exactly when no two keys differ by one slash only. */
  lemma NamesAreDistinctIff(entries: seq<Entry>)
    requires DistinctKeys(entries)
    ensures DistinctKeys(AsNamed(entries)) <==> SlashApart(KeysIn(entries))
  {
    hide TrimSlash, EndsInSlash;
    if !DistinctKeys(AsNamed(entries)) {
      var i, j :| 0 <= i < j < |entries| && AsNamed(entries)[i].key == AsNamed(entries)[j].key;
      SameNameIff(entries[i].key, entries[j].key);
      assert entries[i] in entries && entries[j] in entries;
    }
    if !SlashApart(KeysIn(entries)) {
      var u :| u in KeysIn(entries) && EndsInSlash(u) && !EndsInSlash(TrimSlash(u)) && TrimSlash(u) in KeysIn(entries);
      var i :| 0 <= i < |entries| && entries[i].key == u;
      var j :| 0 <= j < |entries| && entries[j].key == TrimSlash(u);
      SameNameIff(u, TrimSlash(u));
      assert AsNamed(entries)[i].key == AsNamed(entries)[j].key;
    }
  }

  /** The keys under which events about these URIs can file anything. */
  ghost function Fileable(uris: set<Uri>): set<Uri> {
    Keys(uris) + uris
  }

  lemma {:induction false} FiledIsFileable(uris: set<Uri>, ops: seq<Op>)
    requires Over(uris, ops)
    ensures Run(ops).entries.Keys <= Fileable(uris)
  {
    hide RouteKey, Step, WellFormed;
    if ops != [] {
      var before, op := ops[..|ops| - 1], ops[|ops| - 1];
      assert op in ops;
      FiledIsFileable(uris, before);
      forall u <- Run(ops).entries
        ensures u in Fileable(uris)
      {
        StepEntries(Run(before), op, u);
      }
    }
  }

  /** Registering and unregistering a route leaves both its URI and its key in the table, for good. */
  lemma BothAreFiled(s: Store, u: Uri, r: Route)
    requires WellFormed(s)
    ensures s.entries.Keys + {u, RouteKey(u)} <= Unregister(Register(s, u, r, 0), u, r).entries.Keys
  {
    hide RouteKey, FirstEqual, FirstStale;
    RegisteredRouteIsFound(s, u, r, 0, u);
  }

  lemma Filing(ops: seq<Op>, u: Uri, r: Route)
    ensures Run(ops).entries.Keys + {u, RouteKey(u)} <= Run(ops + [Reg(u, r, 0)] + [Unreg(u, r)]).entries.Keys
  {
    hide RouteKey, Register, Unregister;
    var reg, unreg := Reg(u, r, 0), Unreg(u, r);
    assert (ops + [reg])[..|ops|] == ops && (ops + [reg] + [unreg])[..|ops| + 1] == ops + [reg];
    BothAreFiled(Run(ops), u, r);
  }

  /**
   * Over a vocabulary of URIs the text of the table never gives two entries one name if and only if no two
   * fileable keys differ by one slash only.
   */
  lemma NamesStayDistinctIff(uris: set<Uri>)
    ensures SlashApart(Fileable(uris)) <==>
            forall ops: seq<Op> :: Over(uris, ops) ==> SlashApart(Run(ops).entries.Keys)
  {
    hide RouteKey, Run, EndsInSlash, TrimSlash, WellFormed;
    if SlashApart(Fileable(uris)) {
      forall ops: seq<Op> | Over(uris, ops)
        ensures SlashApart(Run(ops).entries.Keys)
      {
        FiledIsFileable(uris, ops);
      }
    } else {
      var k :| k in Fileable(uris) && EndsInSlash(k) && !EndsInSlash(TrimSlash(k)) && TrimSlash(k) in Fileable(uris);
      var u :| u in uris && (u == k || RouteKey(u) == k);
      var v :| v in uris && (v == TrimSlash(k) || RouteKey(v) == TrimSlash(k));
      var first := [] + [Reg(u, SOME_ROUTE, 0)] + [Unreg(u, SOME_ROUTE)];
      var ops := first + [Reg(v, SOME_ROUTE, 0)] + [Unreg(v, SOME_ROUTE)];
      Filing([], u, SOME_ROUTE);
      Filing(first, v, SOME_ROUTE);
      assert Over(uris, ops);
      assert k in Run(ops).entries && TrimSlash(k) in Run(ops).entries;
    }
  }

  /** One URI is enough: unregistering by "a/" files a second entry, and the text names both of them "a". */
  lemma OneSlashIsEnough(r: Route)
    ensures var s := Run([] + [Reg("a/", r, 0)] + [Unreg("a/", r)]);
            && s.entries.Keys == {"a", "a/"} && !SlashApart(s.entries.Keys)
            && AsNamed([Entry("a", ["null"]), Entry("a/", [])]) == [Entry("a", ["null"]), Entry("a", [])]
  {
    hide RouteKey, Run, WellFormed;
    KeyOfKeyShaped("a/");
    Filing([], "a/", r);
    var ops := [] + [Reg("a/", r, 0)] + [Unreg("a/", r)];
    assert EndsInSlash("a/") && TrimSlash("a/") == "a" && RouteKey("a/") == "a";
    assert "a/" in {"a/"} && Keys({"a/"}) == {"a"};
    FiledIsFileable({"a/"}, ops);
  }
}
