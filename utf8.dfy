/**
 * UTF-8 as section 3 of RFC 3629 defines it: the encoding of scalar values
 * and the strict decoder that `decodeURIComponent` applies to the bytes of
 * a percent-encoded string (it refuses overlong forms, encoded surrogates
 * and values above U+10FFFF).
 */
module Utf8 {
  import opened Wrappers

  type Byte = x: int | 0 <= x < 0x100

  predicate IsContinuation(b: Byte) { 0x80 <= b <= 0xBF }

  /** The one to four bytes that encode a scalar value. */
  function EncodeChar(c: char): (r: seq<Byte>)
    ensures 1 <= |r| <= 4
    ensures |r| == 1 <==> c as int < 0x80
  {
    var v := c as int;
    if v < 0x80 then [v]
    else if v < 0x800 then [0xC0 + v / 0x40, 0x80 + v % 0x40]
    else if v < 0x1_0000 then [0xE0 + v / 0x1000, 0x80 + (v / 0x40) % 0x40, 0x80 + v % 0x40]
    else [0xF0 + v / 0x4_0000, 0x80 + (v / 0x1000) % 0x40, 0x80 + (v / 0x40) % 0x40, 0x80 + v % 0x40]
  }

  function Encode(s: string): (r: seq<Byte>)
    ensures |r| >= |s|
  {
    if s == [] then [] else EncodeChar(s[0]) + Encode(s[1..])
  }

  /** The second byte of a three-byte sequence led by b0 (no overlong form, no surrogate). */
  predicate SecondOfThree(b0: Byte, b1: Byte)
  {
    if b0 == 0xE0 then 0xA0 <= b1 <= 0xBF
    else if b0 == 0xED then 0x80 <= b1 <= 0x9F
    else IsContinuation(b1)
  }

  /** The second byte of a four-byte sequence led by b0 (no overlong form, nothing above U+10FFFF). */
  predicate SecondOfFour(b0: Byte, b1: Byte)
  {
    if b0 == 0xF0 then 0x90 <= b1 <= 0xBF
    else if b0 == 0xF4 then 0x80 <= b1 <= 0x8F
    else IsContinuation(b1)
  }

  /** The scalar value of a well-formed two-byte sequence. */
  function Join2(b0: Byte, b1: Byte): (c: char)
    requires 0xC2 <= b0 <= 0xDF && IsContinuation(b1)
    ensures EncodeChar(c) == [b0, b1]
  {
    var v := (b0 as int - 0xC0) * 0x40 + (b1 as int - 0x80);
    assert v / 0x40 == b0 as int - 0xC0 && v % 0x40 == b1 as int - 0x80;
    v as char
  }

  /** The scalar value of a well-formed three-byte sequence. */
  function Join3(b0: Byte, b1: Byte, b2: Byte): (c: char)
    requires 0xE0 <= b0 <= 0xEF && SecondOfThree(b0, b1) && IsContinuation(b2)
    ensures EncodeChar(c) == [b0, b1, b2]
  {
    var v := (b0 as int - 0xE0) * 0x1000 + (b1 as int - 0x80) * 0x40 + (b2 as int - 0x80);
    assert v / 0x40 == (b0 as int - 0xE0) * 0x40 + (b1 as int - 0x80) && v % 0x40 == b2 as int - 0x80;
    assert v / 0x1000 == b0 as int - 0xE0 && (v / 0x40) % 0x40 == b1 as int - 0x80;
    v as char
  }

  /** The scalar value of a well-formed four-byte sequence. */
  function Join4(b0: Byte, b1: Byte, b2: Byte, b3: Byte): (c: char)
    requires 0xF0 <= b0 <= 0xF4 && SecondOfFour(b0, b1) && IsContinuation(b2) && IsContinuation(b3)
    ensures EncodeChar(c) == [b0, b1, b2, b3]
  {
    var hi := (b0 as int - 0xF0) * 0x40 + (b1 as int - 0x80);
    var v := hi * 0x1000 + (b2 as int - 0x80) * 0x40 + (b3 as int - 0x80);
    assert v / 0x40 == hi * 0x40 + (b2 as int - 0x80) && v % 0x40 == b3 as int - 0x80;
    assert v / 0x1000 == hi && (v / 0x40) % 0x40 == b2 as int - 0x80;
    assert v / 0x4_0000 == b0 as int - 0xF0 && hi % 0x40 == b1 as int - 0x80;
    v as char
  }

  /**
   * The scalar value at the front of b and the number of bytes it takes,
   * or None when b does not start with a well-formed sequence.
   */
  function DecodeFirst(b: seq<Byte>): (r: Option<(char, nat)>)
    requires b != []
    ensures r.Some? ==> 1 <= r.value.1 <= |b| && b[..r.value.1] == EncodeChar(r.value.0)
  {
    var b0 := b[0];
    if b0 < 0x80 then
      Some((b0 as char, 1))
    else if 0xC2 <= b0 <= 0xDF then
      if |b| >= 2 && IsContinuation(b[1]) then Some((Join2(b0, b[1]), 2)) else None
    else if 0xE0 <= b0 <= 0xEF then
      if |b| >= 3 && SecondOfThree(b0, b[1]) && IsContinuation(b[2]) then Some((Join3(b0, b[1], b[2]), 3)) else None
    else if 0xF0 <= b0 <= 0xF4 then
      if |b| >= 4 && SecondOfFour(b0, b[1]) && IsContinuation(b[2]) && IsContinuation(b[3])
      then Some((Join4(b0, b[1], b[2], b[3]), 4))
      else None
    else None
  }

  /** Strict decoding: None when the bytes are not well-formed UTF-8. */
  function Decode(b: seq<Byte>): (r: Option<string>)
    decreases |b|
  {
    if b == [] then Some([])
    else
      match DecodeFirst(b)
      case None => None
      case Some((c, n)) =>
        match Decode(b[n..])
        case None => None
        case Some(rest) => Some([c] + rest)
  }

  /** The decoder reads back the sequence the encoder wrote for one scalar value. */
  lemma DecodeFirstEncodeChar(c: char, rest: seq<Byte>)
    ensures DecodeFirst(EncodeChar(c) + rest) == Some((c, |EncodeChar(c)|))
  {
    var v := c as int;
    if v < 0x80 {
      assert (EncodeChar(c) + rest)[0] == v;
    } else if v < 0x800 {
      DecodeFirstTwo(c, rest);
    } else if v < 0x1_0000 {
      DecodeFirstThree(c, rest);
    } else {
      DecodeFirstFour(c, rest);
    }
  }

  lemma DecodeFirstTwo(c: char, rest: seq<Byte>)
    requires 0x80 <= c as int < 0x800
    ensures DecodeFirst(EncodeChar(c) + rest) == Some((c, 2))
  {
    var v := c as int;
    var b := EncodeChar(c) + rest;
    assert b[0] == 0xC0 + v / 0x40 && b[1] == 0x80 + v % 0x40;
  }

  lemma DecodeFirstThree(c: char, rest: seq<Byte>)
    requires 0x800 <= c as int < 0x1_0000
    ensures DecodeFirst(EncodeChar(c) + rest) == Some((c, 3))
  {
    var v := c as int;
    var b := EncodeChar(c) + rest;
    assert b[0] == 0xE0 + v / 0x1000 && b[1] == 0x80 + (v / 0x40) % 0x40 && b[2] == 0x80 + v % 0x40;
    Split3(v);
  }

  lemma DecodeFirstFour(c: char, rest: seq<Byte>)
    requires 0x1_0000 <= c as int
    ensures DecodeFirst(EncodeChar(c) + rest) == Some((c, 4))
  {
    var v := c as int;
    var b := EncodeChar(c) + rest;
    assert b[0] == 0xF0 + v / 0x4_0000 && b[1] == 0x80 + (v / 0x1000) % 0x40;
    assert b[2] == 0x80 + (v / 0x40) % 0x40 && b[3] == 0x80 + v % 0x40;
    Split4(v);
  }

  lemma Split3(v: int)
    requires 0x800 <= v < 0x1_0000 && !(0xD800 <= v <= 0xDFFF)
    ensures v == (v / 0x1000) * 0x1000 + ((v / 0x40) % 0x40) * 0x40 + v % 0x40
    ensures v / 0x1000 == 0 ==> (v / 0x40) % 0x40 >= 0x20
    ensures v / 0x1000 == 0xD ==> (v / 0x40) % 0x40 < 0x20
  {
  }

  lemma Split4(v: int)
    requires 0x1_0000 <= v < 0x11_0000
    ensures v == (v / 0x4_0000) * 0x4_0000 + ((v / 0x1000) % 0x40) * 0x1000 + ((v / 0x40) % 0x40) * 0x40 + v % 0x40
    ensures v / 0x4_0000 == 0 ==> (v / 0x1000) % 0x40 >= 0x10
    ensures v / 0x4_0000 == 4 ==> (v / 0x1000) % 0x40 < 0x10
  {
    var q0, r0 := v / 0x40, v % 0x40;
    var q1, r1 := q0 / 0x40, q0 % 0x40;
    var q2, r2 := q1 / 0x40, q1 % 0x40;
    assert v == q0 * 0x40 + r0;
    assert q0 == q1 * 0x40 + r1;
    assert v == q1 * 0x1000 + r1 * 0x40 + r0;
    assert q1 == v / 0x1000;
    assert q1 == q2 * 0x40 + r2;
    assert v == q2 * 0x4_0000 + r2 * 0x1000 + r1 * 0x40 + r0;
    assert q2 == v / 0x4_0000;
  }

  /** Decoding the encoding of a string gives the string back. */
  lemma {:induction false} DecodeEncode(s: string)
    ensures Decode(Encode(s)) == Some(s)
  {
    if s != [] {
      var head, tail := EncodeChar(s[0]), Encode(s[1..]);
      DecodeFirstEncodeChar(s[0], tail);
      assert (head + tail)[|head|..] == tail;
      DecodeEncode(s[1..]);
      assert [s[0]] + s[1..] == s;
    }
  }

  /** One step of a successful decoding: the first scalar value, then the rest. */
  lemma DecodeStep(b: seq<Byte>)
    requires b != [] && Decode(b).Some?
    ensures DecodeFirst(b).Some?
    ensures var n := DecodeFirst(b).value.1;
            Decode(b[n..]).Some? && Decode(b).value == [DecodeFirst(b).value.0] + Decode(b[n..]).value
  {
  }

  /** Whatever decodes successfully is the encoding of what it decodes to. */
  lemma {:induction false} EncodeDecode(b: seq<Byte>)
    requires Decode(b).Some?
    ensures Encode(Decode(b).value) == b
    decreases |b|
  {
    if b != [] {
      DecodeStep(b);
      var c, n := DecodeFirst(b).value.0, DecodeFirst(b).value.1;
      var tail := Decode(b[n..]).value;
      EncodeDecode(b[n..]);
      var s := [c] + tail;
      assert s[0] == c && s[1..] == tail;
      assert Encode(s) == EncodeChar(c) + Encode(tail);
      assert b[..n] + b[n..] == b;
    }
  }

  /** Decoding succeeds exactly on the byte strings that some string encodes to. */
  lemma DecodeSucceedsIffEncoding(b: seq<Byte>)
    ensures Decode(b).Some? <==> exists s: string :: Encode(s) == b
  {
    if Decode(b).Some? {
      EncodeDecode(b);
    }
    if exists s: string :: Encode(s) == b {
      var s: string :| Encode(s) == b;
      DecodeEncode(s);
    }
  }
}
