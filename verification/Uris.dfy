/** Route keys: the normal form under which the routing table files a URI. */
module Uris {

  type Uri = string

  function LowerChar(c: char): char {
    if 'A' <= c <= 'Z' then (c as int + 32) as char else c
  }

  function Lower(s: string): string {
    seq(|s|, i requires 0 <= i < |s| => LowerChar(s[i]))
  }

  predicate EndsInSlash(s: string) {
    |s| > 0 && s[|s| - 1] == '/'
  }

  /** Removes one trailing slash, not all of them. */
  function TrimSlash(s: string): string {
    if EndsInSlash(s) then s[..|s| - 1] else s
  }

  /** The part of `s` before its first question mark, or all of it. */
  function BeforeQuery(s: string): (r: string)
    ensures |r| <= |s| && r == s[..|r|]
    ensures '?' !in r
    ensures |r| < |s| ==> s[|r|] == '?'
    ensures '?' !in s ==> r == s
  {
    if s == "" || s[0] == '?' then "" else [s[0]] + BeforeQuery(s[1..])
  }

  /** The three steps of the normalisation, one after the other. */
  function ToLower(u: Uri): Uri {
    Lower(TrimSlash(u))
  }

  function RouteKeyInSteps(u: Uri): Uri {
    BeforeQuery(ToLower(u))
  }

  /** The same in one pass: the lower-cased characters of `s` from `i` up to a question mark. */
  function KeyFrom(s: string, i: nat): string
    requires i <= |s|
    decreases |s| - i
  {
    if i == |s| || s[i] == '?' then "" else [LowerChar(s[i])] + KeyFrom(s, i + 1)
  }

  function RouteKey(u: Uri): Uri {
    KeyFrom(TrimSlash(u), 0)
  }

  lemma {:induction false} OnePass(s: string, i: nat)
    requires i <= |s|
    ensures KeyFrom(s, i) == BeforeQuery(Lower(s)[i..])
    decreases |s| - i
  {
    if i < |s| {
      OnePass(s, i + 1);
      assert Lower(s)[i..][1..] == Lower(s)[i + 1..];
    }
  }

  lemma RouteKeyIsInSteps(u: Uri)
    ensures RouteKey(u) == RouteKeyInSteps(u)
  {
    OnePass(TrimSlash(u), 0);
    assert ToLower(u)[0..] == ToLower(u);
  }

  predicate HasUpper(s: string) {
    exists i :: 0 <= i < |s| && 'A' <= s[i] <= 'Z'
  }

  /** Shaped like a route key: no query part and nothing left to lower. */
  predicate KeyShaped(u: Uri) {
    '?' !in u && !HasUpper(u)
  }

  /** On a key-shaped URI the whole normalisation amounts to dropping one slash. */
  lemma KeyOfKeyShaped(u: Uri)
    requires KeyShaped(u)
    ensures RouteKey(u) == TrimSlash(u)
  {
    RouteKeyIsInSteps(u);
    var t := TrimSlash(u);
    assert forall i :: 0 <= i < |t| ==> t[i] == u[i];
    assert Lower(t) == t;
  }

  lemma RouteKeyIsKeyShaped(u: Uri)
    ensures KeyShaped(RouteKey(u)) && |RouteKey(u)| <= |u|
  {
    RouteKeyIsInSteps(u);
    var l := ToLower(u);
    assert RouteKey(u) == l[..|RouteKey(u)|];
  }

  /** Exactly the key-shaped strings are the route key of some URI. */
  lemma RouteKeysAreTheKeyShaped(k: Uri)
    ensures KeyShaped(k) <==> exists u: Uri :: RouteKey(u) == k
  {
    if KeyShaped(k) {
      var u := k + "/";
      assert TrimSlash(u) == k;
      assert forall i :: 0 <= i < |u| ==> u[i] == if i < |k| then k[i] else '/';
      KeyOfKeyShaped(u);
    }
    if u: Uri :| RouteKey(u) == k {
      RouteKeyIsKeyShaped(u);
    }
  }

  /** A URI is filed under itself exactly when it is key-shaped and has no trailing slash. */
  lemma OwnKeyIff(u: Uri)
    ensures RouteKey(u) == u <==> KeyShaped(u) && !EndsInSlash(u)
  {
    RouteKeyIsKeyShaped(u);
    if KeyShaped(u) {
      KeyOfKeyShaped(u);
    }
  }

  function Iterate(u: Uri, n: nat): Uri {
    if n == 0 then u else RouteKey(Iterate(u, n - 1))
  }

  function TrailingSlashes(s: string): nat {
    if EndsInSlash(s) then 1 + TrailingSlashes(s[..|s| - 1]) else 0
  }

  lemma KeyOfKeyStripsOneSlash(k: Uri)
    requires KeyShaped(k)
    ensures KeyShaped(RouteKey(k))
    ensures TrailingSlashes(RouteKey(k)) == if TrailingSlashes(k) == 0 then 0 else TrailingSlashes(k) - 1
  {
    RouteKeyIsKeyShaped(k);
    KeyOfKeyShaped(k);
  }

  /** Each further application of RouteKey to a key removes one trailing slash, down to none. */
  lemma {:induction false} IterateStripsOneSlash(u: Uri, n: nat)
    requires n >= 1
    ensures KeyShaped(Iterate(u, n))
    ensures TrailingSlashes(Iterate(u, n)) ==
            if TrailingSlashes(RouteKey(u)) <= n - 1 then 0 else TrailingSlashes(RouteKey(u)) - (n - 1)
  {
    hide RouteKey;
    if n == 1 {
      RouteKeyIsKeyShaped(u);
      assert Iterate(u, 1) == RouteKey(Iterate(u, 0));
    } else {
      IterateStripsOneSlash(u, n - 1);
      KeyOfKeyStripsOneSlash(Iterate(u, n - 1));
    }
  }

  /**
   * Normalising again stops changing anything after exactly as many extra rounds as the first key has
   * trailing slashes: one round is enough only for keys without one.
   */
  lemma SettlesAfterItsSlashes(u: Uri, n: nat)
    requires n >= 1
    ensures Iterate(u, n + 1) == Iterate(u, n) <==> n >= 1 + TrailingSlashes(RouteKey(u))
  {
    hide RouteKey;
    IterateStripsOneSlash(u, n);
    OwnKeyIff(Iterate(u, n));
  }

  // ---- which URIs have a key ----

  const UPPER := "ABCDEFGHIJKLMNOPQRSTUVWXYZ"
  const LOWER := "abcdefghijklmnopqrstuvwxyz"

  /** Each upper-case letter goes to the lower-case one at the same place of the alphabet, all else stays. */
  lemma LettersGoToLower(c: char)
    ensures forall j :: 0 <= j < 26 ==> LowerChar(UPPER[j]) == LOWER[j]
    ensures c !in UPPER ==> LowerChar(c) == c
  {
    if 'A' <= c <= 'Z' {
      assert UPPER[c as int - 'A' as int] == c;
    }
  }

  /** `c` is the letter `l`, or the same letter in upper case. */
  ghost predicate SpellsLetter(c: char, l: char) {
    c == l || exists j :: 0 <= j < 26 && UPPER[j] == c && LOWER[j] == l
  }

  /** `u` is `k` with any of its letters in upper case. */
  ghost predicate Spells(u: Uri, k: Uri) {
    |u| == |k| && forall i :: 0 <= i < |k| ==> SpellsLetter(u[i], k[i])
  }

  /** `u` is a spelling of `k`, with a query or a slash behind it, or nothing if `k` has no slash to lose. */
  ghost predicate Variant(u: Uri, k: Uri) {
    && |u| >= |k| && Spells(u[..|k|], k)
    && var rest := u[|k|..];
       || rest == "/"
       || (rest != "" && rest[0] == '?')
       || (rest == "" && (k == "" || k[|k| - 1] != '/'))
  }

  lemma SpellsLetterIff(c: char, l: char)
    requires !('A' <= l <= 'Z')
    ensures SpellsLetter(c, l) <==> LowerChar(c) == l
  {
    LettersGoToLower(c);
    if c != l && LowerChar(c) == l {
      assert c in UPPER;
    }
  }

  /** Keys in one pass, read backwards: the text starts with a spelling of the key and goes on with a query. */
  lemma {:induction false} KeyFromIff(s: string, k: Uri, i: nat)
    requires KeyShaped(k) && i <= |s| && i <= |k|
    ensures KeyFrom(s, i) == k[i..] <==>
            && |s| >= |k| && (forall j :: i <= j < |k| ==> SpellsLetter(s[j], k[j]))
            && (|s| == |k| || s[|k|] == '?')
    decreases |s| - i
  {
    hide SpellsLetter, LowerChar;
    assert forall j :: 0 <= j < |k| ==> k[j] != '?' && !('A' <= k[j] <= 'Z');
    if i == |k| {
      assert k[i..] == "";
    } else if i == |s| {
    } else {
      SpellsLetterIff(s[i], k[i]);
      LettersGoToLower(s[i]);
      QuestionMarksStay(s[i]);
      KeyFromIff(s, k, i + 1);
      assert k[i..] == [k[i]] + k[i + 1..];
    }
  }

  lemma QuestionMarksStay(c: char)
    ensures LowerChar(c) == '?' <==> c == '?'
    ensures LowerChar(c) == '/' <==> c == '/'
  {
  }

  lemma TrimmedVariant(u: Uri, k: Uri)
    requires KeyShaped(k)
    ensures Variant(u, k) <==>
            var t := TrimSlash(u);
            |t| >= |k| && Spells(t[..|k|], k) && (|t| == |k| || t[|k|] == '?')
  {
    hide SpellsLetter;
    if EndsInSlash(u) {
      if |u| == |k| {
        if Spells(u, k) {
          assert SpellsLetter(u[|k| - 1], k[|k| - 1]);
          SpellsLetterIff(u[|k| - 1], k[|k| - 1]);
        }
      } else if |u| > |k| {
        assert TrimSlash(u)[..|k|] == u[..|k|];
      }
    } else if |u| == |k| && |k| > 0 && Spells(u, k) {
      assert u[..|k|] == u;
      assert SpellsLetter(u[|k| - 1], k[|k| - 1]);
      SpellsLetterIff(u[|k| - 1], k[|k| - 1]);
      QuestionMarksStay(u[|k| - 1]);
    }
  }

  /**
   * A URI has the key `k` exactly when it is a spelling of `k`, alone, with one slash or with any query: the
   * whole normalisation, without following its steps.
   */
  lemma HasKeyIff(u: Uri, k: Uri)
    requires KeyShaped(k)
    ensures RouteKey(u) == k <==> Variant(u, k)
  {
    hide SpellsLetter, Variant;
    var t := TrimSlash(u);
    KeyFromIff(t, k, 0);
    assert k[0..] == k;
    TrimmedVariant(u, k);
  }
}
