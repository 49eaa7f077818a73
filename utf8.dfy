/**
  UTF-8 encoding of a string, as Python's `str.encode('utf-8')` performs it
  (section 3 of RFC 3629), together with a decoder that serves as its inverse.
  A Dafny `char` is a Unicode scalar value, so the encoder never meets a lone
  surrogate and, like Python's encoder on such strings, never fails.
 */
module Utf8 {
  import opened Wrappers

  /** An octet. */
  type Byte = b: int | 0 <= b < 256

  /** The code point of a character. */
  function CodePoint(c: char): (cp: int)
    ensures 0 <= cp < 0x11_0000 && !(0xD800 <= cp < 0xE000)
  {
    c as int
  }

  /** The one to four octets that encode one character. */
  function EncodeChar(c: char): (r: seq<Byte>)
    ensures 1 <= |r| <= 4
    ensures (|r| == 1) <==> CodePoint(c) < 0x80
  {
    var cp := CodePoint(c);
    if cp < 0x80 then
      [cp]
    else if cp < 0x800 then
      [0xC0 + cp / 0x40, 0x80 + cp % 0x40]
    else if cp < 0x1_0000 then
      [0xE0 + cp / 0x1000, 0x80 + cp / 0x40 % 0x40, 0x80 + cp % 0x40]
    else
      [0xF0 + cp / 0x4_0000, 0x80 + cp / 0x1000 % 0x40, 0x80 + cp / 0x40 % 0x40, 0x80 + cp % 0x40]
  }

  /** The encoding of a whole string: the encodings of its characters, in order. */
  function Encode(s: string): (r: seq<Byte>)
    ensures |s| <= |r| <= 4 * |s|
  {
    if s == [] then [] else EncodeChar(s[0]) + Encode(s[1..])
  }

  /** The octet at position k, or 0 past the end. */
  function At(b: seq<Byte>, k: nat): (r: Byte) {
    if k < |b| then b[k] else 0
  }

  predicate IsContinuation(b: Byte) {
    0x80 <= b < 0xC0
  }

  /**
    Decodes the first character of a non-empty byte sequence, returning it with
    the number of octets it took; None on an ill-formed, overlong or surrogate
    sequence.
   */
  function DecodeFirst(b: seq<Byte>): (r: Option<(char, nat)>)
    requires |b| > 0
    ensures r.Some? ==> 1 <= r.value.1 <= |b| && r.value.1 <= 4
  {
    var b0, b1, b2, b3: int := b[0], At(b, 1), At(b, 2), At(b, 3);
    if b0 < 0x80 then
      Some((b0 as char, 1))
    else if 0xC2 <= b0 < 0xE0 && |b| >= 2 && IsContinuation(b[1]) then
      var cp := (b0 - 0xC0) * 0x40 + (b1 - 0x80);
      Some((cp as char, 2))
    else if 0xE0 <= b0 < 0xF0 && |b| >= 3 && IsContinuation(b[1]) && IsContinuation(b[2]) then
      var cp := (b0 - 0xE0) * 0x1000 + (b1 - 0x80) * 0x40 + (b2 - 0x80);
      if 0x800 <= cp && !(0xD800 <= cp < 0xE000) then Some((cp as char, 3)) else None
    else if 0xF0 <= b0 < 0xF5 && |b| >= 4 && IsContinuation(b[1]) && IsContinuation(b[2]) && IsContinuation(b[3]) then
      var cp := (b0 - 0xF0) * 0x4_0000 + (b1 - 0x80) * 0x1000 + (b2 - 0x80) * 0x40 + (b3 - 0x80);
      if 0x1_0000 <= cp < 0x11_0000 then Some((cp as char, 4)) else None
    else
      None
  }

  /** Decodes a whole byte sequence; None when any part of it is ill-formed. */
  function Decode(b: seq<Byte>): (r: Option<string>)
    decreases |b|
  {
    if b == [] then Some([])
    else match DecodeFirst(b)
      case None => None
      case Some((c, n)) =>
        match Decode(b[n..])
        case None => None
        case Some(rest) => Some([c] + rest)
  }

  /** Decoding the encoding of one character, followed by anything, yields that character. */
  lemma DecodeFirstEncodeChar(c: char, rest: seq<Byte>)
    ensures DecodeFirst(EncodeChar(c) + rest) == Some((c, |EncodeChar(c)|))
  {
    var cp := CodePoint(c);
    if cp < 0x80 {
    } else if cp < 0x800 {
      DecodeTwo(c, rest);
    } else if cp < 0x1_0000 {
      DecodeThree(c, rest);
    } else {
      DecodeFour(c, rest);
    }
  }

  lemma DecodeTwo(c: char, rest: seq<Byte>)
    requires 0x80 <= CodePoint(c) < 0x800
    ensures DecodeFirst(EncodeChar(c) + rest) == Some((c, 2))
  {
    var cp := CodePoint(c);
    var e := EncodeChar(c) + rest;
    var b0, b1: int := e[0], e[1];
    assert b0 == 0xC0 + cp / 0x40 && b1 == 0x80 + cp % 0x40;
    assert (b0 - 0xC0) * 0x40 + (b1 - 0x80) == cp;
  }

  lemma DecodeThree(c: char, rest: seq<Byte>)
    requires 0x800 <= CodePoint(c) < 0x1_0000
    ensures DecodeFirst(EncodeChar(c) + rest) == Some((c, 3))
  {
    var cp := CodePoint(c);
    var e := EncodeChar(c) + rest;
    var b0, b1, b2: int := e[0], e[1], e[2];
    var hi, mid, lo := cp / 0x1000, cp / 0x40 % 0x40, cp % 0x40;
    assert cp == hi * 0x1000 + mid * 0x40 + lo;
    assert b0 == 0xE0 + hi && b1 == 0x80 + mid && b2 == 0x80 + lo;
  }

  lemma DecodeFour(c: char, rest: seq<Byte>)
    requires 0x1_0000 <= CodePoint(c)
    ensures DecodeFirst(EncodeChar(c) + rest) == Some((c, 4))
  {
    var cp := CodePoint(c);
    var top, hi, mid, lo := cp / 0x4_0000, cp / 0x1000 % 0x40, cp / 0x40 % 0x40, cp % 0x40;
    SplitFour(cp);
    var e := EncodeChar(c);
    assert e == [0xF0 + top, 0x80 + hi, 0x80 + mid, 0x80 + lo];
    var b := e + rest;
    assert b[0] == 0xF0 + top && b[1] == 0x80 + hi && b[2] == 0x80 + mid && b[3] == 0x80 + lo;
    assert IsContinuation(b[1]) && IsContinuation(b[2]) && IsContinuation(b[3]);
  }

  /** The four six-bit groups of a supplementary code point put back together. */
  lemma SplitFour(cp: int)
    requires 0x1_0000 <= cp < 0x11_0000
    ensures cp / 0x4_0000 < 5 && cp / 0x1000 % 0x40 < 0x40 && cp / 0x40 % 0x40 < 0x40 && cp % 0x40 < 0x40
    ensures cp == cp / 0x4_0000 * 0x4_0000 + cp / 0x1000 % 0x40 * 0x1000 + cp / 0x40 % 0x40 * 0x40 + cp % 0x40
  {
  }

  /** Round trip: decoding an encoded string gives the string back. */
  lemma {:induction false} DecodeEncode(s: string)
    ensures Decode(Encode(s)) == Some(s)
  {
    if s != [] {
      var e := EncodeChar(s[0]);
      var b := Encode(s);
      assert b == e + Encode(s[1..]);
      DecodeFirstEncodeChar(s[0], Encode(s[1..]));
      assert b[|e|..] == Encode(s[1..]);
      DecodeEncode(s[1..]);
      assert [s[0]] + s[1..] == s;
    }
  }

  /** Encoding is injective: distinct strings have distinct encodings. */
  lemma EncodeInjective(s: string, t: string)
    requires Encode(s) == Encode(t)
    ensures s == t
  {
    DecodeEncode(s);
    DecodeEncode(t);
  }

  /** A string of ASCII characters encodes to one octet per character, each its code point. */
  lemma {:induction false} EncodeAscii(s: string)
    requires forall k :: 0 <= k < |s| ==> CodePoint(s[k]) < 0x80
    ensures |Encode(s)| == |s|
    ensures forall k :: 0 <= k < |s| ==> Encode(s)[k] == CodePoint(s[k])
  {
    if s != [] {
      EncodeAscii(s[1..]);
      assert Encode(s) == [CodePoint(s[0])] + Encode(s[1..]);
    }
  }
}
