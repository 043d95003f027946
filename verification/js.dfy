/** The slice of JavaScript value semantics the handlers depend on: `undefined`, the `||`
    default, `String.prototype.includes`, `toLowerCase`, `trim`, `substring`, JSON values
    with their truthiness, and the error objects that `catch` blocks receive.

    Strings are sequences of code points. `undefined` is `None`. */
module Js {

  datatype Option<+T> = None | Some(value: T)

  /** A thrown JavaScript error as the handlers read it: `error.message` and `error.stack`,
      either of which may be `undefined`. */
  datatype JsError = JsError(message: Option<string>, stack: Option<string>)

  /** A JSON value as produced by `JSON.parse` or written as an object literal.
      Numbers are modelled as integers. */
  datatype Json =
    | JNull
    | JBool(b: bool)
    | JNum(n: int)
    | JStr(s: string)
    | JArr(items: seq<Json>)
    | JObj(fields: map<string, Json>)

  // ---------------------------------------------------------------------------
  // Truthiness and `||`
  // ---------------------------------------------------------------------------

  /** A string is truthy exactly when it is non-empty; `undefined` is falsy. */
  predicate Truthy(v: Option<string>) {
    v.Some? && v.value != ""
  }

  /** `a || b` where `a` is a possibly-undefined string. */
  function Or(a: Option<string>, b: string): string {
    if Truthy(a) then a.value else b
  }

  /** JavaScript truthiness of a JSON value; `undefined` is `None`. */
  predicate JsonTruthy(v: Option<Json>) {
    match v
    case None => false
    case Some(j) =>
      match j
      case JNull => false
      case JBool(b) => b
      case JNum(n) => n != 0
      case JStr(s) => s != ""
      case JArr(_) => true
      case JObj(_) => true
  }

  /** `a || b` where `a` is a possibly-undefined JSON value. */
  function JsonOr(a: Option<Json>, b: Json): Json {
    if JsonTruthy(a) then a.value else b
  }

  // ---------------------------------------------------------------------------
  // Property access
  // ---------------------------------------------------------------------------

  /** `v.key` on a value that is neither `null` nor `undefined`. Own properties of objects
      are the only ones read; strings, numbers, booleans and arrays carry none of the
      property names the handlers ask for. */
  function Prop(v: Json, key: string): Option<Json> {
    match v
    case JObj(fields) => if key in fields then Some(fields[key]) else None
    case _ => None
  }

  /** `v?.key`: optional chaining, which yields `undefined` on `null` or `undefined`. */
  function PropOpt(v: Option<Json>, key: string): Option<Json> {
    match v
    case None => None
    case Some(j) => if j.JNull? then None else Prop(j, key)
  }

  /** `v?.[0]`: the first element of an array, the first character of a string, or the
      property named "0" of an object. */
  function Index0Opt(v: Option<Json>): Option<Json> {
    match v
    case None => None
    case Some(j) =>
      match j
      case JArr(items) => if |items| > 0 then Some(items[0]) else None
      case JStr(s) => if |s| > 0 then Some(JStr([s[0]])) else None
      case JObj(fields) => if "0" in fields then Some(fields["0"]) else None
      case _ => None
  }

  /** An object literal: keys whose value is `undefined` are left out, as
      `JSON.stringify` and the Functions host's serialiser do. */
  function Object(entries: seq<(string, Option<Json>)>): (r: Json)
    ensures r.JObj?
    ensures forall k :: k in r.fields ==> exists i :: 0 <= i < |entries| && entries[i].0 == k
  {
    if |entries| == 0 then JObj(map[])
    else
      var rest := Object(entries[1..]);
      var e := entries[0];
      if e.1.Some? then JObj(rest.fields[e.0 := e.1.value]) else rest
  }

  /** An entry whose key no other entry repeats is in the object exactly when its value
      is defined, with that value. */
  lemma {:induction false} ObjectField(entries: seq<(string, Option<Json>)>, i: nat)
    requires i < |entries|
    requires forall j :: 0 <= j < |entries| && j != i ==> entries[j].0 != entries[i].0
    ensures entries[i].0 in Object(entries).fields <==> entries[i].1.Some?
    ensures entries[i].1.Some? ==> Object(entries).fields[entries[i].0] == entries[i].1.value
    decreases |entries|
  {
    var rest := entries[1..];
    if i > 0 {
      forall j | 0 <= j < |rest| && j != i - 1
        ensures rest[j].0 != rest[i - 1].0
      {
        assert entries[j + 1].0 != entries[i].0;
      }
      ObjectField(rest, i - 1);
    }
  }

  /** A possibly-undefined string as a JSON value. */
  function StrOpt(s: Option<string>): Option<Json> {
    match s
    case None => None
    case Some(v) => Some(JStr(v))
  }

  /** The message of a TypeError raised by reading `key` from `null` or `undefined`. */
  function ReadPropertyError(ofNull: bool, key: string): string {
    "Cannot read properties of " + (if ofNull then "null" else "undefined") + " (reading '" + key + "')"
  }

  /** A template literal's rendering of a possibly-undefined string: `${x}`. */
  function Template(s: Option<string>): string {
    match s
    case None => "undefined"
    case Some(v) => v
  }

  // ---------------------------------------------------------------------------
  // Strings
  // ---------------------------------------------------------------------------

  /** `s.startsWith(p)`. */
  predicate StartsWith(s: string, p: string) {
    |p| <= |s| && s[..|p|] == p
  }

  /** `s.includes(t)`: `t` occurs in `s` at some offset. */
  predicate Includes(s: string, t: string)
    decreases |s|
  {
    StartsWith(s, t) || (|s| > 0 && Includes(s[1..], t))
  }

  /** The offset-based reading of `Includes`. */
  ghost predicate OccursAt(s: string, t: string, i: int) {
    0 <= i && i + |t| <= |s| && s[i..i + |t|] == t
  }

  /** An occurrence at offset `i` is found by `Includes`. */
  lemma {:induction false} OccursIncludes(s: string, t: string, i: int)
    requires OccursAt(s, t, i)
    ensures Includes(s, t)
    decreases i
  {
    if i == 0 {
      assert s[..|t|] == s[0..|t|];
    } else {
      var u := s[1..];
      assert u[i - 1..i - 1 + |t|] == s[i..i + |t|];
      assert OccursAt(u, t, i - 1);
      OccursIncludes(u, t, i - 1);
    }
  }

  /** When `Includes` holds it has found an occurrence at some offset. */
  lemma {:induction false} IncludesOccurs(s: string, t: string) returns (i: int)
    requires Includes(s, t)
    ensures OccursAt(s, t, i)
    decreases |s|
  {
    if StartsWith(s, t) {
      i := 0;
    } else {
      var j := IncludesOccurs(s[1..], t);
      assert s[1..][j..j + |t|] == s[j + 1..j + 1 + |t|];
      i := j + 1;
    }
  }

  /** `Includes` holds exactly when `t` occurs in `s` at some offset. */
  lemma IncludesIffOccurs(s: string, t: string)
    ensures Includes(s, t) <==> exists i :: OccursAt(s, t, i)
  {
    if Includes(s, t) {
      var i := IncludesOccurs(s, t);
    }
    forall i | OccursAt(s, t, i)
      ensures Includes(s, t)
    {
      OccursIncludes(s, t, i);
    }
  }

  /** An occurrence of `t` inside `s` is an occurrence inside any string that has `s`
      as an infix. */
  lemma IncludesInfix(pre: string, s: string, post: string, t: string)
    requires Includes(s, t)
    ensures Includes(pre + s + post, t)
  {
    IncludesIffOccurs(s, t);
    var i :| OccursAt(s, t, i);
    var w := pre + s + post;
    assert w[|pre| + i..|pre| + i + |t|] == s[i..i + |t|];
    assert OccursAt(w, t, |pre| + i);
    IncludesIffOccurs(w, t);
  }

  /** ASCII upper-case letters map to lower case; every other character is unchanged. */
  function LowerChar(c: char): char {
    if 'A' <= c <= 'Z' then (c as int + 32) as char else c
  }

  /** `s.toLowerCase()` restricted to ASCII letters. */
  function ToLower(s: string): (r: string)
    ensures |r| == |s|
    ensures forall i :: 0 <= i < |s| ==> r[i] == LowerChar(s[i])
  {
    seq(|s|, i requires 0 <= i < |s| => LowerChar(s[i]))
  }

  /** The characters `String.prototype.trim` removes: ECMAScript WhiteSpace and
      LineTerminator code points. */
  predicate IsWhitespace(c: char) {
    c == '\t' || c == '\n' || c == '\U{B}' || c == '\U{C}' || c == '\r' || c == ' '
    || c == '\U{A0}' || c == '\U{1680}' || ('\U{2000}' <= c <= '\U{200A}')
    || c == '\U{2028}' || c == '\U{2029}' || c == '\U{202F}' || c == '\U{205F}'
    || c == '\U{3000}' || c == '\U{FEFF}'
  }

  function TrimStart(s: string): (r: string)
    ensures |r| <= |s| && r == s[|s| - |r|..]
    ensures forall i :: 0 <= i < |s| - |r| ==> IsWhitespace(s[i])
    ensures r == [] || !IsWhitespace(r[0])
  {
    if |s| > 0 && IsWhitespace(s[0]) then TrimStart(s[1..]) else s
  }

  function TrimEnd(s: string): (r: string)
    ensures |r| <= |s| && r == s[..|r|]
    ensures forall i :: |r| <= i < |s| ==> IsWhitespace(s[i])
    ensures r == [] || !IsWhitespace(r[|r| - 1])
  {
    if |s| > 0 && IsWhitespace(s[|s| - 1]) then TrimEnd(s[..|s| - 1]) else s
  }

  /** `s.trim()`. */
  function Trim(s: string): string {
    TrimEnd(TrimStart(s))
  }

  /** `s[a..b]` is what is left of `s` once whitespace-only runs `s[..a]` and `s[b..]` are cut. */
  ghost predicate CutsOnlyWhitespace(s: string, a: int, b: int) {
    && 0 <= a <= b <= |s|
    && (forall i :: 0 <= i < a ==> IsWhitespace(s[i]))
    && (forall i :: b <= i < |s| ==> IsWhitespace(s[i]))
  }

  /** `s.trim()` cuts a run of whitespace from each end and nothing else: the result is
      the infix `s[a..b]` and everything cut is whitespace. */
  lemma TrimIsInfix(s: string) returns (a: nat, b: nat)
    ensures CutsOnlyWhitespace(s, a, b) && Trim(s) == s[a..b]
  {
    var t := TrimStart(s);
    a := |s| - |t|;
    TrimEndCut(s, a, t);
    b := a + |TrimEnd(t)|;
  }

  /** `s.trim()` neither starts nor ends with whitespace. */
  lemma TrimEnds(s: string)
    ensures Trim(s) == [] || (!IsWhitespace(Trim(s)[0]) && !IsWhitespace(Trim(s)[|Trim(s)| - 1]))
  {
    var t := TrimStart(s);
    var r := TrimEnd(t);
    if r != [] {
      assert r[0] == t[0];
    }
  }

  /** What does not occur in `s` does not occur in `s.trim()`. */
  lemma TrimKeepsAbsence(s: string, t: string)
    requires !Includes(s, t)
    ensures !Includes(Trim(s), t)
  {
    var a, b := TrimSlice(s);
    InfixKeepsAbsence(s, a, b, t);
  }

  /** The offsets of `s.trim()` inside `s`. */
  lemma TrimSlice(s: string) returns (a: nat, b: nat)
    ensures a <= b <= |s| && Trim(s) == s[a..b]
  {
    a := |s| - |TrimStart(s)|;
    b := a + |Trim(s)|;
  }

  /** What does not occur in `s` does not occur in any infix of `s`. */
  lemma InfixKeepsAbsence(s: string, a: nat, b: nat, t: string)
    requires a <= b <= |s| && !Includes(s, t)
    ensures !Includes(s[a..b], t)
  {
    assert s == s[..a] + s[a..b] + s[b..];
    if Includes(s[a..b], t) {
      IncludesInfix(s[..a], s[a..b], s[b..], t);
    }
  }

  /** Trimming the end of the suffix `t` of `s` that starts at `a` cuts only whitespace
      from `s`. */
  lemma TrimEndCut(s: string, a: nat, t: string)
    requires a <= |s| && t == s[a..]
    requires forall i :: 0 <= i < a ==> IsWhitespace(s[i])
    ensures CutsOnlyWhitespace(s, a, a + |TrimEnd(t)|)
    ensures TrimEnd(t) == s[a..a + |TrimEnd(t)|]
  {
    var r := TrimEnd(t);
    var b := a + |r|;
    forall i | b <= i < |s|
      ensures IsWhitespace(s[i])
    {
      assert IsWhitespace(t[i - a]);
    }
    assert r == t[..|r|];
  }

  /** `s.substring(a, b)`: both bounds clamped into [0, |s|] and swapped when reversed. */
  function Substring(s: string, a: int, b: int): (r: string)
    ensures |r| <= |s|
  {
    var lo := if a < 0 then 0 else if a > |s| then |s| else a;
    var hi := if b < 0 then 0 else if b > |s| then |s| else b;
    if lo <= hi then s[lo..hi] else s[hi..lo]
  }

  /** `s.substring(0, n)`: the first `n` characters, or all of `s` when it is shorter. */
  lemma PrefixSubstring(s: string, n: nat)
    ensures Substring(s, 0, n) == if |s| <= n then s else s[..n]
  {
  }

  /** `s.replace(/p/g, q)` for a literal, non-empty pattern `p`: scanning left to right,
      each non-overlapping occurrence is replaced by `q`. */
  function ReplaceAll(s: string, p: string, q: string): string
    requires |p| > 0
    decreases |s|
  {
    if |s| == 0 then ""
    else if StartsWith(s, p) then q + ReplaceAll(s[|p|..], p, q)
    else [s[0]] + ReplaceAll(s[1..], p, q)
  }

  /** When no character of `q` occurs in `p`, a prefix of the replaced text made of
      characters of `p` was already a prefix of the original. */
  lemma {:induction false} ReplaceAllPrefixBack(t: string, p: string, q: string, u: string)
    requires |p| > 0 && |q| > 0
    requires forall c :: c in q ==> c !in p
    requires forall k :: 0 <= k < |u| ==> u[k] in p
    requires StartsWith(ReplaceAll(t, p, q), u)
    ensures StartsWith(t, u)
    decreases |u|
  {
    if |u| > 0 {
      var r := ReplaceAll(t, p, q);
      assert r[0] == u[0];
      if !StartsWith(t, p) {
        assert r == [t[0]] + ReplaceAll(t[1..], p, q);
        assert StartsWith(ReplaceAll(t[1..], p, q), u[1..]) by {
          assert ReplaceAll(t[1..], p, q)[..|u| - 1] == r[1..|u|];
        }
        ReplaceAllPrefixBack(t[1..], p, q, u[1..]);
        assert t[..|u|] == [t[0]] + t[1..][..|u| - 1];
      }
    }
  }

  /** Replacing every occurrence of `p` by a non-empty `q` that shares no character with
      `p` leaves no occurrence of `p`. */
  lemma {:induction false} ReplaceAllLeavesNone(s: string, p: string, q: string)
    requires |p| > 0 && |q| > 0
    requires forall c :: c in q ==> c !in p
    ensures !Includes(ReplaceAll(s, p, q), p)
    decreases |s|
  {
    if |s| > 0 && Includes(ReplaceAll(s, p, q), p) {
      var i := IncludesOccurs(ReplaceAll(s, p, q), p);
      if StartsWith(s, p) {
        ReplaceAllLeavesNone(s[|p|..], p, q);
        NoOccurrenceAfterMatch(s, p, q, i);
      } else {
        if i == 0 {
          NoMatchAtStart(s, p, q);
        } else {
          ReplaceAllLeavesNone(s[1..], p, q);
          NoOccurrenceAfterSkip(s, p, q, i);
        }
      }
    }
  }

  /** The step of `ReplaceAllLeavesNone` where `s` starts with `p`: the output is `q`
      followed by the replaced rest, and no occurrence can start inside `q`. */
  lemma NoOccurrenceAfterMatch(s: string, p: string, q: string, i: int)
    requires |p| > 0 && |q| > 0
    requires forall c :: c in q ==> c !in p
    requires StartsWith(s, p) && !Includes(ReplaceAll(s[|p|..], p, q), p)
    ensures !OccursAt(ReplaceAll(s, p, q), p, i)
  {
    var r := ReplaceAll(s, p, q);
    var x := ReplaceAll(s[|p|..], p, q);
    assert r == q + x;
    if 0 <= i < |q| {
      assert r[i] == q[i] && q[i] in q && p[0] in p;
      assert r[i] != p[0];
    } else if OccursAt(r, p, i) {
      assert x[i - |q|..i - |q| + |p|] == r[i..i + |p|];
      OccursIncludes(x, p, i - |q|);
    }
  }

  /** The step of `ReplaceAllLeavesNone` where `s` does not start with `p`: the output is
      `s[0]` followed by the replaced rest, so a later occurrence is one in the rest. */
  lemma NoOccurrenceAfterSkip(s: string, p: string, q: string, i: int)
    requires |p| > 0 && |s| > 0 && !StartsWith(s, p) && i > 0
    requires !Includes(ReplaceAll(s[1..], p, q), p)
    ensures !OccursAt(ReplaceAll(s, p, q), p, i)
  {
    var r := ReplaceAll(s, p, q);
    var x := ReplaceAll(s[1..], p, q);
    if OccursAt(r, p, i) {
      assert x[i - 1..i - 1 + |p|] == r[i..i + |p|];
      OccursIncludes(x, p, i - 1);
    }
  }

  /** When no character of `q` occurs in `p`, replacing cannot create an occurrence of
      `p` at the start. */
  lemma NoMatchAtStart(s: string, p: string, q: string)
    requires |p| > 0 && |q| > 0
    requires forall c :: c in q ==> c !in p
    requires !StartsWith(s, p)
    ensures !StartsWith(ReplaceAll(s, p, q), p)
  {
    if StartsWith(ReplaceAll(s, p, q), p) {
      ReplaceAllPrefixBack(s, p, q, p);
    }
  }

  /** The decimal digits of `Number.prototype.toString()` on a non-negative integer. */
  function NatToString(n: nat): (r: string)
    ensures |r| > 0
    ensures forall i :: 0 <= i < |r| ==> '0' <= r[i] <= '9'
    decreases n
  {
    var d := [(('0' as int) + n % 10) as char];
    if n < 10 then d else NatToString(n / 10) + d
  }

  /** The value a decimal digit string denotes. */
  function DecimalValue(s: string): int
    decreases |s|
  {
    if |s| == 0 then 0 else 10 * DecimalValue(s[..|s| - 1]) + (s[|s| - 1] as int - '0' as int)
  }

  /** Reading back the decimal rendering of `n` gives `n`. */
  lemma {:induction false} NatToStringRoundTrip(n: nat)
    ensures DecimalValue(NatToString(n)) == n
    decreases n
  {
    var r := NatToString(n);
    if n >= 10 {
      NatToStringRoundTrip(n / 10);
      assert r[..|r| - 1] == NatToString(n / 10);
    }
  }

  /** `s.filter(p)`. */
  function Filter<T>(s: seq<T>, p: T -> bool): (r: seq<T>)
    ensures |r| <= |s|
    ensures forall x :: x in r ==> x in s && p(x)
  {
    if |s| == 0 then [] else (if p(s[0]) then [s[0]] else []) + Filter(s[1..], p)
  }
}
