/** The timestamp pattern the case-title cleaner deletes,
    `/\[\w+.*?\d{2}-\d{2}\s+\d{2}:\d{2}\]/g`, as a backtracking matcher and as a
    declarative description, proved to agree, and the global `replace(..., '')` built on
    the matcher.

    Character classes follow ECMAScript without the `u` flag: `\w` is [A-Za-z0-9_], `\d`
    is [0-9], `\s` is the set `trim` removes, and `.` is anything but a line terminator. */
module TimestampPattern {
  import opened Js

  predicate IsWordChar(c: char) {
    ('A' <= c <= 'Z') || ('a' <= c <= 'z') || ('0' <= c <= '9') || c == '_'
  }

  predicate IsDigit(c: char) {
    '0' <= c <= '9'
  }

  predicate IsLineTerminator(c: char) {
    c == '\n' || c == '\r' || c == '\U{2028}' || c == '\U{2029}'
  }

  /** The length of the longest run of whitespace starting at `i`. */
  function WhitespaceRun(s: string, i: nat): (n: nat)
    requires i <= |s|
    ensures i + n <= |s|
    decreases |s| - i
  {
    if i < |s| && IsWhitespace(s[i]) then 1 + WhitespaceRun(s, i + 1) else 0
  }

  /** The run is all whitespace and cannot be extended. */
  lemma {:induction false} WhitespaceRunMaximal(s: string, i: nat)
    requires i <= |s|
    ensures forall k :: i <= k < i + WhitespaceRun(s, i) ==> IsWhitespace(s[k])
    ensures i + WhitespaceRun(s, i) == |s| || !IsWhitespace(s[i + WhitespaceRun(s, i)])
    decreases |s| - i
  {
    if i < |s| && IsWhitespace(s[i]) {
      WhitespaceRunMaximal(s, i + 1);
    }
  }

  /** The length of the longest run of word characters starting at `i`. */
  function WordRun(s: string, i: nat): (n: nat)
    requires i <= |s|
    ensures i + n <= |s|
    decreases |s| - i
  {
    if i < |s| && IsWordChar(s[i]) then 1 + WordRun(s, i + 1) else 0
  }

  /** The run is all word characters and cannot be extended. */
  lemma {:induction false} WordRunMaximal(s: string, i: nat)
    requires i <= |s|
    ensures forall k :: i <= k < i + WordRun(s, i) ==> IsWordChar(s[k])
    ensures i + WordRun(s, i) == |s| || !IsWordChar(s[i + WordRun(s, i)])
    decreases |s| - i
  {
    if i < |s| && IsWordChar(s[i]) {
      WordRunMaximal(s, i + 1);
    }
  }

  /** The first line terminator at or after `i`, or the end of `s`: how far `.*?` can
      reach from `i`. */
  function LineEnd(s: string, i: nat): (e: nat)
    requires i <= |s|
    ensures i <= e <= |s|
    decreases |s| - i
  {
    if i < |s| && !IsLineTerminator(s[i]) then LineEnd(s, i + 1) else i
  }

  /** Nothing before the line end is a line terminator, and the line end is one (or the
      end of the text). */
  lemma {:induction false} LineEndFirst(s: string, i: nat)
    requires i <= |s|
    ensures forall k :: i <= k < LineEnd(s, i) ==> !IsLineTerminator(s[k])
    ensures LineEnd(s, i) == |s| || IsLineTerminator(s[LineEnd(s, i)])
    decreases |s| - i
  {
    if i < |s| && !IsLineTerminator(s[i]) {
      LineEndFirst(s, i + 1);
    }
  }

  /** `\d{2}-\d{2}\s+\d{2}:\d{2}\]` at offset `q`, with the end of the match. The greedy
      `\s+` never needs to give a character back, since a digit must follow it. */
  function TailEnd(s: string, q: nat): Option<nat>
    requires q <= |s|
  {
    if q + 5 <= |s| && IsDigit(s[q]) && IsDigit(s[q + 1]) && s[q + 2] == '-' && IsDigit(s[q + 3]) && IsDigit(s[q + 4]) then
      var w := WhitespaceRun(s, q + 5);
      var t := q + 5 + w;
      if w >= 1 && t + 6 <= |s| && IsDigit(s[t]) && IsDigit(s[t + 1]) && s[t + 2] == ':'
         && IsDigit(s[t + 3]) && IsDigit(s[t + 4]) && s[t + 5] == ']'
      then Some(t + 6)
      else None
    else None
  }

  /** The tail of the pattern occupies `s[q..e]`. */
  ghost predicate TailAt(s: string, q: int, e: int) {
    && 0 <= q && q + 12 <= e <= |s|
    && IsDigit(s[q]) && IsDigit(s[q + 1]) && s[q + 2] == '-' && IsDigit(s[q + 3]) && IsDigit(s[q + 4])
    && (forall i :: q + 5 <= i < e - 6 ==> IsWhitespace(s[i]))
    && IsDigit(s[e - 6]) && IsDigit(s[e - 5]) && s[e - 4] == ':' && IsDigit(s[e - 3]) && IsDigit(s[e - 2])
    && s[e - 1] == ']'
  }

  /** The whole pattern matches `s[p..e]` with `\w+` taking `k` characters and `.*?`
      running up to `q`. */
  ghost predicate MatchesAt(s: string, p: int, k: int, q: int, e: int) {
    && 0 <= p < |s| && s[p] == '['
    && 1 <= k && p + 1 + k <= q <= |s|
    && (forall i :: p + 1 <= i < p + 1 + k ==> IsWordChar(s[i]))
    && (forall i :: p + 1 + k <= i < q ==> !IsLineTerminator(s[i]))
    && TailAt(s, q, e)
  }

  lemma TailEndIffTailAt(s: string, q: nat, e: int)
    requires q <= |s|
    ensures TailEnd(s, q) == Some(e) <==> TailAt(s, q, e)
  {
    if q + 5 <= |s| {
      WhitespaceRunMaximal(s, q + 5);
    }
    if TailAt(s, q, e) {
      var w := WhitespaceRun(s, q + 5);
      assert !IsWhitespace(s[e - 6]);
      assert q + 5 + w == e - 6;
    }
  }

  /** The first `q` in [lo, hi] where the tail matches: the lazy `.*?` widening. */
  function ForwardSearch(s: string, lo: nat, hi: nat): (r: Option<nat>)
    requires hi <= |s|
    ensures r.Some? ==> lo <= r.value <= hi && TailEnd(s, r.value).Some?
    ensures r.None? ==> forall q :: lo <= q <= hi ==> TailEnd(s, q).None?
    decreases hi + 1 - lo
  {
    if lo > hi then None
    else if TailEnd(s, lo).Some? then Some(lo)
    else ForwardSearch(s, lo + 1, hi)
  }

  /** The last `q` in [lo, hi] where the tail matches: the greedy `\w+` giving back one
      character at a time. */
  function BackwardSearch(s: string, lo: nat, hi: nat): (r: Option<nat>)
    requires hi <= |s|
    ensures r.Some? ==> lo <= r.value <= hi && TailEnd(s, r.value).Some?
    ensures r.None? ==> forall q :: lo <= q <= hi ==> TailEnd(s, q).None?
    decreases hi
  {
    if hi < lo then None
    else if TailEnd(s, hi).Some? then Some(hi)
    else if hi == 0 then None
    else BackwardSearch(s, lo, hi - 1)
  }

  /** The end of the match starting at `p`, in the backtracking order of the regex
      engine: `\w+` first takes all it can and `.*?` widens from nothing to the end of
      the line; failing that, `\w+` gives characters back, and each shorter run only
      offers `.*?` one new starting point for the tail. */
  function MatchAt(s: string, p: nat): (r: Option<nat>)
    requires p < |s|
    ensures r.Some? ==> p + 14 <= r.value <= |s|
  {
    if s[p] != '[' then None
    else
      var w := WordRun(s, p + 1);
      if w == 0 then None
      else
        match ForwardSearch(s, p + 1 + w, LineEnd(s, p + 1 + w))
        case Some(q) => TailEnd(s, q)
        case None =>
          match BackwardSearch(s, p + 2, p + w)
          case Some(q) => TailEnd(s, q)
          case None => None
  }

  /** Which search produced the match at `p`. */
  lemma MatchAtCases(s: string, p: nat)
    requires p < |s| && MatchAt(s, p).Some?
    ensures s[p] == '[' && WordRun(s, p + 1) >= 1
    ensures var w := WordRun(s, p + 1);
      var fw := ForwardSearch(s, p + 1 + w, LineEnd(s, p + 1 + w));
      var bw := BackwardSearch(s, p + 2, p + w);
      && (fw.Some? ==> MatchAt(s, p) == TailEnd(s, fw.value))
      && (fw.None? ==> bw.Some? && MatchAt(s, p) == TailEnd(s, bw.value))
  {
  }

  lemma ForwardWitness(s: string, p: nat, q: nat, e: int)
    requires p < |s| && s[p] == '[' && WordRun(s, p + 1) >= 1
    requires p + 1 + WordRun(s, p + 1) <= q <= LineEnd(s, p + 1 + WordRun(s, p + 1))
    requires TailEnd(s, q) == Some(e)
    ensures MatchesAt(s, p, WordRun(s, p + 1), q, e)
  {
    var w := WordRun(s, p + 1);
    assert forall i :: p + 1 <= i < p + 1 + w ==> IsWordChar(s[i]) by {
      WordRunMaximal(s, p + 1);
    }
    assert forall i :: p + 1 + w <= i < q ==> !IsLineTerminator(s[i]) by {
      LineEndFirst(s, p + 1 + w);
    }
    assert TailAt(s, q, e) by {
      TailEndIffTailAt(s, q, e);
    }
  }

  lemma BackwardWitness(s: string, p: nat, q: nat, e: int)
    requires p < |s| && s[p] == '['
    requires p + 2 <= q <= p + WordRun(s, p + 1)
    requires TailEnd(s, q) == Some(e)
    ensures MatchesAt(s, p, q - p - 1, q, e)
  {
    WordRunMaximal(s, p + 1);
    TailEndIffTailAt(s, q, e);
  }

  /** What the matcher returns is a match of the pattern. */
  lemma MatchAtSound(s: string, p: nat)
    requires p < |s| && MatchAt(s, p).Some?
    ensures exists k, q :: MatchesAt(s, p, k, q, MatchAt(s, p).value)
  {
    var e := MatchAt(s, p).value;
    MatchAtCases(s, p);
    var w := WordRun(s, p + 1);
    var fw := ForwardSearch(s, p + 1 + w, LineEnd(s, p + 1 + w));
    if fw.Some? {
      ForwardWitness(s, p, fw.value, e);
    } else {
      var q := BackwardSearch(s, p + 2, p + w).value;
      BackwardWitness(s, p, q, e);
    }
  }

  /** Wherever the pattern can match, the matcher finds a match. */
  lemma MatchAtComplete(s: string, p: nat, k: int, q: int, e: int)
    requires MatchesAt(s, p, k, q, e)
    ensures MatchAt(s, p).Some?
  {
    var w := WordRun(s, p + 1);
    WordRunMaximal(s, p + 1);
    assert k <= w;
    TailEndIffTailAt(s, q, e);
    var hi := LineEnd(s, p + 1 + w);
    LineEndFirst(s, p + 1 + w);
    if q >= p + 1 + w {
      assert q <= hi;
      assert TailEnd(s, q).Some?;
    } else {
      assert p + 2 <= q <= p + w;
    }
  }

  /** The matcher succeeds at `p` exactly when the pattern matches at `p`. */
  lemma MatchAtIffMatches(s: string, p: nat)
    requires p < |s|
    ensures MatchAt(s, p).Some? <==> exists k, q, e :: MatchesAt(s, p, k, q, e)
  {
    if MatchAt(s, p).Some? {
      MatchAtSound(s, p);
    }
    if exists k, q, e :: MatchesAt(s, p, k, q, e) {
      var k, q, e :| MatchesAt(s, p, k, q, e);
      MatchAtComplete(s, p, k, q, e);
    }
  }

  /** `s.replace(pattern, '')` from offset `i` on: each match found scanning left to
      right is deleted, and the scan resumes after it. */
  function StripFrom(s: string, i: nat): (r: string)
    requires i <= |s|
    ensures |r| <= |s| - i
    decreases |s| - i
  {
    if i == |s| then ""
    else
      match MatchAt(s, i)
      case Some(e) => StripFrom(s, e)
      case None => [s[i]] + StripFrom(s, i + 1)
  }

  function Strip(s: string): (r: string)
    ensures |r| <= |s|
  {
    StripFrom(s, 0)
  }

  /** Text without an opening bracket is left as it is. */
  lemma {:induction false} NoBracketUnchangedFrom(s: string, i: nat)
    requires i <= |s|
    requires forall j :: i <= j < |s| ==> s[j] != '['
    ensures StripFrom(s, i) == s[i..]
    decreases |s| - i
  {
    if i < |s| {
      NoBracketUnchangedFrom(s, i + 1);
      assert s[i..] == [s[i]] + s[i + 1..];
    }
  }

  lemma NoBracketUnchanged(s: string)
    requires '[' !in s
    ensures Strip(s) == s
  {
    NoBracketUnchangedFrom(s, 0);
  }

  /** Where no match starts, the cleaner copies the text through unchanged. */
  lemma {:induction false} StripFromUnmatched(s: string, i: nat)
    requires i <= |s|
    requires forall j :: i <= j < |s| ==> MatchAt(s, j).None?
    ensures StripFrom(s, i) == s[i..]
    decreases |s| - i
  {
    if i < |s| {
      StripFromUnmatched(s, i + 1);
      assert s[i..] == [s[i]] + s[i + 1..];
    }
  }

  /** The cleaner keeps everything before the first match, deletes that match whole,
      and carries on right after it: together with `StripFromUnmatched` this says the
      result is the input with its leftmost non-overlapping matches removed. */
  lemma {:induction false} StripFromFirstMatch(s: string, i: nat, j: nat)
    requires i <= j < |s|
    requires forall k :: i <= k < j ==> MatchAt(s, k).None?
    requires MatchAt(s, j).Some?
    ensures StripFrom(s, i) == s[i..j] + StripFrom(s, MatchAt(s, j).value)
    decreases j - i
  {
    if i < j {
      StripFromFirstMatch(s, i + 1, j);
      assert s[i..j] == [s[i]] + s[i + 1..j];
    }
  }

  /** Every character the cleaner keeps is a character of the input. */
  lemma {:induction false} StripDeletesMatches(s: string, i: nat)
    requires i <= |s|
    ensures forall c :: c in StripFrom(s, i) ==> c in s[i..]
    decreases |s| - i
  {
    if i < |s| {
      match MatchAt(s, i)
      case Some(e) =>
        StripDeletesMatches(s, e);
        assert forall c :: c in s[e..] ==> c in s[i..] by {
          assert s[e..] == s[i..][e - i..];
        }
      case None =>
        StripDeletesMatches(s, i + 1);
        assert s[i..] == [s[i]] + s[i + 1..];
    }
  }

  lemma SenderWordRun(s: string)
    requires s == "[Anna 12-05 10:30]!"
    ensures WordRun(s, 1) == 4
  {
    WordRunMaximal(s, 1);
    assert !IsWordChar(s[5]);
  }

  lemma ClockTail(s: string)
    requires s == "[Anna 12-05 10:30]!"
    ensures TailEnd(s, 5).None? && TailEnd(s, 6) == Some(18)
  {
    assert !IsDigit(s[5]);
    WhitespaceRunMaximal(s, 11);
    assert IsWhitespace(s[11]) && !IsWhitespace(s[12]);
  }

  /** The pattern matches a bracketed sender and time in full. */
  lemma MatchesSenderTimestamp(s: string)
    requires s == "[Anna 12-05 10:30]!"
    ensures MatchAt(s, 0) == Some(18)
  {
    SenderWordRun(s);
    ClockTail(s);
    assert LineEnd(s, 5) >= 6;
    assert ForwardSearch(s, 5, LineEnd(s, 5)) == Some(6);
  }

  /** A bracketed sender-and-time prefix is deleted, and the text after it kept. */
  lemma StripsSenderTimestamp()
    ensures Strip("[Anna 12-05 10:30]!") == "!"
  {
    var s := "[Anna 12-05 10:30]!";
    MatchesSenderTimestamp(s);
    assert StripFrom(s, 18) == "!" by {
      assert MatchAt(s, 18).None?;
    }
  }
}
