/** Base 64 encoding with the standard alphabet and `=` padding (section 4 of
    RFC 4648), as `Buffer.toString('base64')` produces it, with the decoder that inverts
    it. */
module Base64 {
  import opened Js
  import Utf8

  type byte = Utf8.byte
  type sextet = x: int | 0 <= x < 64

  /** The alphabet of Table 1: A-Z, a-z, 0-9, '+', '/'. */
  function CharOf(v: sextet): char {
    if v < 26 then ('A' as int + v) as char
    else if v < 52 then ('a' as int + (v - 26)) as char
    else if v < 62 then ('0' as int + (v - 52)) as char
    else if v == 62 then '+'
    else '/'
  }

  /** The value of an alphabet character; `None` for anything else, padding included. */
  function ValueOf(c: char): (r: Option<sextet>)
    ensures c == '=' ==> r.None?
  {
    if 'A' <= c <= 'Z' then Some(c as int - 'A' as int)
    else if 'a' <= c <= 'z' then Some(c as int - 'a' as int + 26)
    else if '0' <= c <= '9' then Some(c as int - '0' as int + 52)
    else if c == '+' then Some(62)
    else if c == '/' then Some(63)
    else None
  }

  /** The alphabet is a bijection onto its 64 characters. */
  lemma ValueOfCharOf(v: sextet)
    ensures ValueOf(CharOf(v)) == Some(v)
    ensures CharOf(v) != '='
  {
  }

  /** One group of one to three input bytes, as four output characters; a short final
      group is padded with one or two '=' (section 4, cases (2) and (3)). */
  function EncodeGroup(b: seq<byte>): (r: string)
    requires 1 <= |b| <= 3
    ensures |r| == 4
  {
    var b0 := b[0];
    var b1 := if |b| > 1 then b[1] else 0;
    var b2 := if |b| > 2 then b[2] else 0;
    [CharOf(b0 / 4),
     CharOf((b0 % 4) * 16 + b1 / 16),
     if |b| > 1 then CharOf((b1 % 16) * 4 + b2 / 64) else '=',
     if |b| > 2 then CharOf(b2 % 64) else '=']
  }

  function Encode(b: seq<byte>): (r: string)
    ensures |r| == 4 * ((|b| + 2) / 3)
    decreases |b|
  {
    if |b| == 0 then ""
    else if |b| <= 3 then EncodeGroup(b)
    else
      assert (|b| - 3 + 2) / 3 + 1 == (|b| + 2) / 3;
      EncodeGroup(b[..3]) + Encode(b[3..])
  }

  /** Decodes four characters into one to three bytes, by the padding present. */
  function DecodeGroup(s: string): (r: Option<seq<byte>>)
    requires |s| == 4
    ensures r.Some? ==> 1 <= |r.value| <= 3
  {
    var v0 := ValueOf(s[0]);
    var v1 := ValueOf(s[1]);
    var v2 := ValueOf(s[2]);
    var v3 := ValueOf(s[3]);
    if v0.None? || v1.None? then None
    else
      var x0 := v0.value * 4 + v1.value / 16;
      if s[2] == '=' && s[3] == '=' then Some([x0])
      else if v2.None? then None
      else
        var x1 := (v1.value % 16) * 16 + v2.value / 4;
        if s[3] == '=' then Some([x0, x1])
        else if v3.None? then None
        else Some([x0, x1, (v2.value % 4) * 64 + v3.value])
  }

  /** Decodes a whole encoding; padding may only close the last group. */
  function Decode(s: string): Option<seq<byte>>
    decreases |s|
  {
    if |s| == 0 then Some([])
    else if |s| < 4 then None
    else
      match DecodeGroup(s[..4])
      case None => None
      case Some(head) =>
        if |head| < 3 && |s| > 4 then None
        else
          match Decode(s[4..])
          case None => None
          case Some(rest) => Some(head + rest)
  }

  /** Splitting three bytes into four sextets and joining them back gives the bytes. */
  lemma SextetArith(b0: byte, b1: byte, b2: byte)
    ensures (b0 / 4) * 4 + ((b0 % 4) * 16 + b1 / 16) / 16 == b0
    ensures (((b0 % 4) * 16 + b1 / 16) % 16) * 16 + ((b1 % 16) * 4 + b2 / 64) / 4 == b1
    ensures (((b1 % 16) * 4 + b2 / 64) % 4) * 64 + b2 % 64 == b2
  {
  }

  /** Each sextet the encoder forms decodes back to itself. */
  lemma GroupSextets(b0: byte, b1: byte, b2: byte)
    ensures ValueOf(CharOf(b0 / 4)) == Some(b0 / 4)
    ensures ValueOf(CharOf((b0 % 4) * 16 + b1 / 16)) == Some((b0 % 4) * 16 + b1 / 16)
    ensures ValueOf(CharOf((b1 % 16) * 4 + b2 / 64)) == Some((b1 % 16) * 4 + b2 / 64)
    ensures ValueOf(CharOf(b2 % 64)) == Some(b2 % 64)
    ensures CharOf((b1 % 16) * 4 + b2 / 64) != '=' && CharOf(b2 % 64) != '='
  {
    ValueOfCharOf(b0 / 4);
    ValueOfCharOf((b0 % 4) * 16 + b1 / 16);
    ValueOfCharOf((b1 % 16) * 4 + b2 / 64);
    ValueOfCharOf(b2 % 64);
  }

  lemma DecodeEncodedGroup(b: seq<byte>)
    requires 1 <= |b| <= 3
    ensures DecodeGroup(EncodeGroup(b)) == Some(b)
  {
    if |b| == 1 {
      DecodeOne(b, b[0]);
    } else if |b| == 2 {
      DecodeTwo(b, b[0], b[1]);
    } else {
      DecodeThree(b, b[0], b[1], b[2]);
    }
  }

  lemma DecodeOne(b: seq<byte>, b0: byte)
    requires b == [b0]
    ensures DecodeGroup(EncodeGroup(b)) == Some(b)
  {
    GroupSextets(b0, 0, 0);
    SextetArith(b0, 0, 0);
    assert EncodeGroup(b) == [CharOf(b0 / 4), CharOf((b0 % 4) * 16 + 0 / 16), '=', '='];
  }

  lemma DecodeTwo(b: seq<byte>, b0: byte, b1: byte)
    requires b == [b0, b1]
    ensures DecodeGroup(EncodeGroup(b)) == Some(b)
  {
    GroupSextets(b0, b1, 0);
    SextetArith(b0, b1, 0);
    assert EncodeGroup(b) == [CharOf(b0 / 4), CharOf((b0 % 4) * 16 + b1 / 16), CharOf((b1 % 16) * 4 + 0 / 64), '='];
  }

  lemma DecodeThree(b: seq<byte>, b0: byte, b1: byte, b2: byte)
    requires b == [b0, b1, b2]
    ensures DecodeGroup(EncodeGroup(b)) == Some(b)
  {
    GroupSextets(b0, b1, b2);
    SextetArith(b0, b1, b2);
    assert EncodeGroup(b) == [CharOf(b0 / 4), CharOf((b0 % 4) * 16 + b1 / 16), CharOf((b1 % 16) * 4 + b2 / 64), CharOf(b2 % 64)];
  }

  /** Decoding inverts encoding. */
  lemma {:induction false} RoundTrip(b: seq<byte>)
    ensures Decode(Encode(b)) == Some(b)
    decreases |b|
  {
    if |b| == 0 {
    } else if |b| <= 3 {
      var s := Encode(b);
      DecodeEncodedGroup(b);
      assert s[..4] == s;
      assert Decode(s[4..]) == Some([]);
      assert b + [] == b;
    } else {
      var s := Encode(b);
      assert s == EncodeGroup(b[..3]) + Encode(b[3..]);
      assert s[..4] == EncodeGroup(b[..3]);
      assert s[4..] == Encode(b[3..]);
      DecodeEncodedGroup(b[..3]);
      RoundTrip(b[3..]);
      assert b[..3] + b[3..] == b;
    }
  }

  /** Encoding is injective. */
  lemma Injective(b: seq<byte>, c: seq<byte>)
    requires Encode(b) == Encode(c)
    ensures b == c
  {
    RoundTrip(b);
    RoundTrip(c);
  }

  /** The encoding is printable ASCII: alphabet characters and padding only. */
  lemma {:induction false} EncodeIsAscii(b: seq<byte>)
    ensures forall i :: 0 <= i < |Encode(b)| ==> ValueOf(Encode(b)[i]).Some? || Encode(b)[i] == '='
    decreases |b|
  {
    if |b| > 0 {
      var n := if |b| <= 3 then |b| else 3;
      var g := EncodeGroup(b[..n]);
      forall v: sextet ensures ValueOf(CharOf(v)).Some? {
        ValueOfCharOf(v);
      }
      if |b| > 3 {
        EncodeIsAscii(b[3..]);
      } else {
        assert b[..n] == b;
      }
    }
  }
}
