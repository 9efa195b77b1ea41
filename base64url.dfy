/**
 * `base64.RawURLEncoding`: the URL- and filename-safe alphabet of section 5
 * of RFC 4648, without `=` padding. Every three bytes become four
 * characters; a trailing one or two bytes become two or three characters.
 * `Decode` is the reference inverse, used to show that the encoding loses
 * nothing (distinct random bytes give distinct tokens).
 */
module Base64Url {
  import opened Wrappers

  /** A Go `byte`. */
  type byte = x: int | 0 <= x < 256

  /** A 6-bit value, the index of one alphabet character. */
  type sextet = x: int | 0 <= x < 64

  /** The characters of the RFC 4648 section 5 alphabet. */
  predicate IsUrlSafe(c: char) {
    ('A' <= c <= 'Z') || ('a' <= c <= 'z') || ('0' <= c <= '9') || c == '-' || c == '_'
  }

  predicate AllUrlSafe(s: string) {
    forall k :: 0 <= k < |s| ==> IsUrlSafe(s[k])
  }

  /** The character for a 6-bit value: A-Z, a-z, 0-9, then '-' and '_'. */
  function SextetChar(v: sextet): (c: char)
    ensures IsUrlSafe(c)
  {
    if v < 26 then ('A' as int + v) as char
    else if v < 52 then ('a' as int + (v - 26)) as char
    else if v < 62 then ('0' as int + (v - 52)) as char
    else if v == 62 then '-'
    else '_'
  }

  /** The 6-bit value of an alphabet character, `None` for any other character. */
  function CharSextet(c: char): (r: Option<sextet>)
    ensures r.Some? <==> IsUrlSafe(c)
    ensures r.Some? ==> SextetChar(r.value) == c
  {
    if 'A' <= c <= 'Z' then Some(c as int - 'A' as int)
    else if 'a' <= c <= 'z' then Some(c as int - 'a' as int + 26)
    else if '0' <= c <= '9' then Some(c as int - '0' as int + 52)
    else if c == '-' then Some(62)
    else if c == '_' then Some(63)
    else None
  }

  lemma CharSextetOfSextetChar(v: sextet)
    ensures CharSextet(SextetChar(v)) == Some(v)
  {
  }

  /** Four characters for three bytes. */
  function EncodeQuantum(b0: byte, b1: byte, b2: byte): (s: string)
    ensures |s| == 4 && AllUrlSafe(s)
  {
    [SextetChar(b0 / 4), SextetChar(b0 % 4 * 16 + b1 / 16),
     SextetChar(b1 % 16 * 4 + b2 / 64), SextetChar(b2 % 64)]
  }

  /** Raw (unpadded) URL-safe base64 of `b`. */
  function Encode(b: seq<byte>): (s: string)
    ensures |s| == (4 * |b| + 2) / 3
    ensures AllUrlSafe(s)
    decreases |b|
  {
    if |b| == 0 then ""
    else if |b| == 1 then [SextetChar(b[0] / 4), SextetChar(b[0] % 4 * 16)]
    else if |b| == 2 then
      [SextetChar(b[0] / 4), SextetChar(b[0] % 4 * 16 + b[1] / 16), SextetChar(b[1] % 16 * 4)]
    else EncodeQuantum(b[0], b[1], b[2]) + Encode(b[3..])
  }

  /** The bytes of one group of two to four characters. */
  function DecodeGroup(s: string): (r: Option<seq<byte>>)
    requires 2 <= |s| <= 4
    ensures r.Some? ==> |r.value| == |s| - 1
  {
    var v0, v1 := CharSextet(s[0]), CharSextet(s[1]);
    var v2 := if |s| > 2 then CharSextet(s[2]) else Some(0);
    var v3 := if |s| > 3 then CharSextet(s[3]) else Some(0);
    if v0.None? || v1.None? || v2.None? || v3.None? then None
    else
      var a: int, b: int, c: int, d: int := v0.value, v1.value, v2.value, v3.value;
      var all: seq<byte> := [a * 4 + b / 16, b % 16 * 16 + c / 4, c % 4 * 64 + d];
      Some(all[..|s| - 1])
  }

  /** Reference decoder for raw URL-safe base64: `None` on a foreign character or a dangling single character. */
  function Decode(s: string): (r: Option<seq<byte>>)
    decreases |s|
  {
    if |s| == 0 then Some([])
    else if |s| == 1 then None
    else if |s| <= 4 then DecodeGroup(s)
    else
      match (DecodeGroup(s[..4]), Decode(s[4..]))
      case (Some(g), Some(rest)) => Some(g + rest)
      case _ => None
  }

  lemma QuantumRoundTrip(b0: byte, b1: byte, b2: byte)
    ensures DecodeGroup(EncodeQuantum(b0, b1, b2)) == Some([b0, b1, b2])
  {
    var e0, e1, e2, e3 := b0 / 4, b0 % 4 * 16 + b1 / 16, b1 % 16 * 4 + b2 / 64, b2 % 64;
    CharSextetOfSextetChar(e0);
    CharSextetOfSextetChar(e1);
    CharSextetOfSextetChar(e2);
    CharSextetOfSextetChar(e3);
    var s := EncodeQuantum(b0, b1, b2);
    assert CharSextet(s[0]) == Some(e0) && CharSextet(s[1]) == Some(e1);
    assert CharSextet(s[2]) == Some(e2) && CharSextet(s[3]) == Some(e3);
    assert e0 * 4 + e1 / 16 == b0;
    assert e1 % 16 * 16 + e2 / 4 == b1;
    assert e2 % 4 * 64 + e3 == b2;
    var all: seq<byte> := [b0, b1, b2];
    assert all[..3] == all;
  }

  lemma OneByteRoundTrip(b0: byte)
    ensures DecodeGroup(Encode([b0])) == Some([b0])
  {
    var s := Encode([b0]);
    CharSextetOfSextetChar(b0 / 4);
    CharSextetOfSextetChar(b0 % 4 * 16);
    assert CharSextet(s[0]) == Some(b0 / 4) && CharSextet(s[1]) == Some(b0 % 4 * 16);
    var all: seq<byte> := [b0, 0, 0];
    assert all[..1] == [b0];
  }

  lemma TwoByteRoundTrip(b0: byte, b1: byte)
    ensures DecodeGroup(Encode([b0, b1])) == Some([b0, b1])
  {
    var s := Encode([b0, b1]);
    var e0, e1, e2 := b0 / 4, b0 % 4 * 16 + b1 / 16, b1 % 16 * 4;
    CharSextetOfSextetChar(e0);
    CharSextetOfSextetChar(e1);
    CharSextetOfSextetChar(e2);
    assert CharSextet(s[0]) == Some(e0) && CharSextet(s[1]) == Some(e1) && CharSextet(s[2]) == Some(e2);
    assert e0 * 4 + e1 / 16 == b0;
    assert e1 % 16 * 16 + e2 / 4 == b1;
    var all: seq<byte> := [b0, b1, e2 % 4 * 64];
    assert all[..2] == [b0, b1];
  }

  /** Decoding undoes encoding, for byte strings of every length. */
  lemma {:induction false} DecodeEncode(b: seq<byte>)
    ensures Decode(Encode(b)) == Some(b)
    decreases |b|
  {
    if |b| == 1 {
      OneByteRoundTrip(b[0]);
      assert b == [b[0]];
    } else if |b| == 2 {
      TwoByteRoundTrip(b[0], b[1]);
      assert b == [b[0], b[1]];
    } else if |b| == 3 {
      QuantumRoundTrip(b[0], b[1], b[2]);
      assert b == [b[0], b[1], b[2]];
      assert Encode(b) == EncodeQuantum(b[0], b[1], b[2]);
    } else if |b| > 3 {
      DecodeEncode(b[3..]);
      DecodeStep(b);
    }
  }

  lemma DecodeStep(b: seq<byte>)
    requires |b| > 3
    requires Decode(Encode(b[3..])) == Some(b[3..])
    ensures Decode(Encode(b)) == Some(b)
  {
    var g: seq<byte> := [b[0], b[1], b[2]];
    SplitAtThree(b);
    var q, t := EncodeQuantum(b[0], b[1], b[2]), Encode(b[3..]);
    QuantumRoundTrip(b[0], b[1], b[2]);
    assert Encode(b) == q + t;
    DecodeAfterQuantum(q, t, g, b[3..]);
  }

  lemma SplitAtThree(b: seq<byte>)
    requires |b| > 3
    ensures b == [b[0], b[1], b[2]] + b[3..]
  {
  }

  lemma DecodeAfterQuantum(q: string, t: string, g: seq<byte>, rest: seq<byte>)
    requires |q| == 4 && |t| > 0
    requires DecodeGroup(q) == Some(g) && Decode(t) == Some(rest)
    ensures Decode(q + t) == Some(g + rest)
  {
    var s := q + t;
    assert s[..4] == q && s[4..] == t;
  }

  /** Distinct byte strings have distinct encodings. */
  lemma EncodeInjective(a: seq<byte>, b: seq<byte>)
    ensures Encode(a) == Encode(b) ==> a == b
  {
    DecodeEncode(a);
    DecodeEncode(b);
  }
}
