/** How Go turns the bytes of a string into runes (utf8.DecodeRune, as the
    regexp package and `range` use it), and the encoding it inverts. */
module Utf8 {
  import opened Common

  predicate IsContinuation(b: byte) {
    0x80 <= b <= 0xBF
  }

  /** The range the second byte of a multi-byte sequence must fall in,
      which excludes overlong forms, surrogates and values above U+10FFFF. */
  predicate SecondByteOk(b0: byte, b1: byte) {
    if b0 == 0xE0 then 0xA0 <= b1 <= 0xBF
    else if b0 == 0xED then 0x80 <= b1 <= 0x9F
    else if b0 == 0xF0 then 0x90 <= b1 <= 0xBF
    else if b0 == 0xF4 then 0x80 <= b1 <= 0x8F
    else IsContinuation(b1)
  }

  /** The first rune of a non-empty byte sequence and its width;
      an invalid or truncated sequence gives U+FFFD of width 1. */
  function DecodeRune(b: seq<byte>): (r: (char, nat))
    requires |b| > 0
    ensures 1 <= r.1 <= |b| && r.1 <= 4
    ensures b[0] < 0x80 ==> r == (b[0] as int as char, 1)
  {
    var b0 := b[0] as int;
    if b0 < 0x80 then
      (b0 as char, 1)
    else if 0xC2 <= b0 <= 0xDF && |b| >= 2 && IsContinuation(b[1]) then
      (((b0 - 0xC0) * 0x40 + (b[1] as int - 0x80)) as char, 2)
    else if 0xE0 <= b0 <= 0xEF && |b| >= 3 && SecondByteOk(b[0], b[1]) && IsContinuation(b[2]) then
      (((b0 - 0xE0) * 0x1000 + (b[1] as int - 0x80) * 0x40 + (b[2] as int - 0x80)) as char, 3)
    else if 0xF0 <= b0 <= 0xF4 && |b| >= 4 && SecondByteOk(b[0], b[1])
            && IsContinuation(b[2]) && IsContinuation(b[3]) then
      (((b0 - 0xF0) * 0x40000 + (b[1] as int - 0x80) * 0x1000
        + (b[2] as int - 0x80) * 0x40 + (b[3] as int - 0x80)) as char, 4)
    else
      ('\U{FFFD}', 1)
  }

  /** The runes of a byte string, decoded left to right. */
  function Decode(b: seq<byte>): (s: string)
    ensures |s| <= |b|
    decreases |b|
  {
    if b == [] then [] else [DecodeRune(b).0] + Decode(b[DecodeRune(b).1..])
  }

  /** The UTF-8 encoding of one rune. */
  function EncodeRune(c: char): (b: seq<byte>)
    ensures 1 <= |b| <= 4
  {
    var x := c as int;
    if x < 0x80 then
      [x as byte]
    else if x < 0x800 then
      [(0xC0 + x / 0x40) as byte, (0x80 + x % 0x40) as byte]
    else if x < 0x10000 then
      [(0xE0 + x / 0x1000) as byte, (0x80 + x / 0x40 % 0x40) as byte, (0x80 + x % 0x40) as byte]
    else
      [(0xF0 + x / 0x40000) as byte, (0x80 + x / 0x1000 % 0x40) as byte,
       (0x80 + x / 0x40 % 0x40) as byte, (0x80 + x % 0x40) as byte]
  }

  function Encode(s: string): seq<byte> {
    if s == [] then [] else EncodeRune(s[0]) + Encode(s[1..])
  }

  /** Decoding reads back exactly the rune an encoding starts with. */
  lemma DecodeRuneOfEncoding(c: char, tail: seq<byte>)
    ensures DecodeRune(EncodeRune(c) + tail) == (c, |EncodeRune(c)|)
  {
    var x := c as int;
    if x < 0x80 {
    } else if x < 0x800 {
      DecodeTwoBytes(c, tail);
    } else if x < 0x10000 {
      DecodeThreeBytes(c, tail);
    } else {
      DecodeFourBytes(c, tail);
    }
  }

  lemma DecodeTwoBytes(c: char, tail: seq<byte>)
    requires 0x80 <= c as int < 0x800
    ensures DecodeRune(EncodeRune(c) + tail) == (c, 2)
  {
    var x := c as int;
    var hi, lo := x / 0x40, x % 0x40;
    assert x == hi * 0x40 + lo && 2 <= hi < 0x20 && 0 <= lo < 0x40;
    var b := EncodeRune(c) + tail;
    assert b[0] as int == 0xC0 + hi && b[1] as int == 0x80 + lo;
  }

  lemma DecodeThreeBytes(c: char, tail: seq<byte>)
    requires 0x800 <= c as int < 0x10000
    ensures DecodeRune(EncodeRune(c) + tail) == (c, 3)
  {
    var x := c as int;
    var q := x / 0x40;
    var hi, mid, lo := q / 0x40, q % 0x40, x % 0x40;
    assert x == q * 0x40 + lo && q == hi * 0x40 + mid;
    assert hi == x / 0x1000 && mid == x / 0x40 % 0x40;
    assert x == hi * 0x1000 + mid * 0x40 + lo;
    var b := EncodeRune(c) + tail;
    assert b[0] as int == 0xE0 + hi && b[1] as int == 0x80 + mid && b[2] as int == 0x80 + lo;
    assert hi == 0 ==> mid >= 0x20;
    assert hi == 0xD ==> mid < 0x20;
    assert IsContinuation(b[2]) && SecondByteOk(b[0], b[1]);
  }

  /** The four 3-, 6-, 6- and 6-bit groups of a code point beyond the
      Basic Multilingual Plane. */
  lemma FourByteGroups(x: int)
    requires 0x10000 <= x < 0x110000
    ensures var hi, m2, m1, lo := x / 0x40000, x / 0x1000 % 0x40, x / 0x40 % 0x40, x % 0x40;
            && x == hi * 0x40000 + m2 * 0x1000 + m1 * 0x40 + lo
            && 0 <= hi <= 4 && 0 <= m2 < 0x40 && 0 <= m1 < 0x40 && 0 <= lo < 0x40
            && (hi == 0 ==> m2 >= 0x10) && (hi == 4 ==> m2 < 0x10)
  {
    var q1 := x / 0x40;
    var q2 := q1 / 0x40;
    var hi, m2, m1, lo := q2 / 0x40, q2 % 0x40, q1 % 0x40, x % 0x40;
    assert x == q1 * 0x40 + lo && q1 == q2 * 0x40 + m1 && q2 == hi * 0x40 + m2;
    assert hi == x / 0x40000 && m2 == x / 0x1000 % 0x40 && m1 == x / 0x40 % 0x40;
  }

  lemma DecodeFourBytes(c: char, tail: seq<byte>)
    requires 0x10000 <= c as int
    ensures DecodeRune(EncodeRune(c) + tail) == (c, 4)
  {
    var x := c as int;
    assert x < 0x110000;
    FourByteGroups(x);
    var hi, m2, m1, lo := x / 0x40000, x / 0x1000 % 0x40, x / 0x40 % 0x40, x % 0x40;
    var b := EncodeRune(c) + tail;
    assert b[0] as int == 0xF0 + hi && b[1] as int == 0x80 + m2;
    assert b[2] as int == 0x80 + m1 && b[3] as int == 0x80 + lo;
    assert SecondByteOk(b[0], b[1]) && IsContinuation(b[2]) && IsContinuation(b[3]);
  }

  /** Every string survives the round trip through its UTF-8 bytes. */
  lemma {:induction false} DecodeEncode(s: string)
    ensures Decode(Encode(s)) == s
  {
    if s != [] {
      var e := EncodeRune(s[0]);
      assert Encode(s) == e + Encode(s[1..]);
      DecodeRuneOfEncoding(s[0], Encode(s[1..]));
      assert (e + Encode(s[1..]))[|e|..] == Encode(s[1..]);
      DecodeEncode(s[1..]);
    }
  }

  /** Bytes below 0x80 decode one rune per byte, to the same code point. */
  lemma {:induction false} DecodeAscii(b: seq<byte>)
    requires forall i :: 0 <= i < |b| ==> b[i] < 0x80
    ensures |Decode(b)| == |b|
    ensures forall i :: 0 <= i < |b| ==> Decode(b)[i] as int == b[i] as int
  {
    if b != [] {
      DecodeAscii(b[1..]);
    }
  }
}
