/**
 * JavaScript strings are sequences of UTF-16 code units, so they can hold
 * unpaired surrogates that no Unicode scalar value corresponds to. Dafny's
 * `string` is a sequence of scalar values; this module converts between the
 * two (section 2.5 of the Unicode Standard, RFC 2781).
 */
module Utf16 {
  import opened Wrappers

  /** One UTF-16 code unit: the element type of a JavaScript string. */
  type CodeUnit = x: int | 0 <= x < 0x1_0000

  predicate IsHighSurrogate(u: CodeUnit) { 0xD800 <= u <= 0xDBFF }

  predicate IsLowSurrogate(u: CodeUnit) { 0xDC00 <= u <= 0xDFFF }

  /** The scalar value that the surrogate pair (hi, lo) stands for. */
  function PairValue(hi: CodeUnit, lo: CodeUnit): (c: char)
    requires IsHighSurrogate(hi) && IsLowSurrogate(lo)
    ensures 0x1_0000 <= c as int
  {
    (0x1_0000 + (hi - 0xD800) * 0x400 + (lo - 0xDC00)) as char
  }

  /** The code units of one scalar value: itself below U+10000, a surrogate pair above. */
  function EncodeChar(c: char): (r: seq<CodeUnit>)
    ensures c as int < 0x1_0000 ==> r == [c as int] && !IsHighSurrogate(r[0]) && !IsLowSurrogate(r[0])
    ensures 0x1_0000 <= c as int ==>
              |r| == 2 && IsHighSurrogate(r[0]) && IsLowSurrogate(r[1]) && PairValue(r[0], r[1]) == c
  {
    var v := c as int;
    if v < 0x1_0000 then [v]
    else [0xD800 + (v - 0x1_0000) / 0x400, 0xDC00 + (v - 0x1_0000) % 0x400]
  }

  /** The UTF-16 form of a string of scalar values. */
  function Encode(s: string): (r: seq<CodeUnit>)
    ensures |r| >= |s|
  {
    if s == [] then [] else EncodeChar(s[0]) + Encode(s[1..])
  }

  /**
   * Reads code units as scalar values; None exactly when some surrogate is
   * unpaired (the condition under which `encodeURIComponent` throws).
   */
  function Decode(u: seq<CodeUnit>): (r: Option<string>)
    decreases |u|
  {
    if u == [] then Some([])
    else if IsLowSurrogate(u[0]) then None
    else if IsHighSurrogate(u[0]) then
      if |u| >= 2 && IsLowSurrogate(u[1]) then
        match Decode(u[2..])
        case None => None
        case Some(rest) => Some([PairValue(u[0], u[1])] + rest)
      else None
    else
      match Decode(u[1..])
      case None => None
      case Some(rest) => Some([u[0] as char] + rest)
  }

  /** Code unit i is a surrogate without its partner. */
  predicate UnpairedAt(u: seq<CodeUnit>, i: int)
    requires 0 <= i < |u|
  {
    || (IsHighSurrogate(u[i]) && (i + 1 == |u| || !IsLowSurrogate(u[i + 1])))
    || (IsLowSurrogate(u[i]) && (i == 0 || !IsHighSurrogate(u[i - 1])))
  }

  /** The code units hold an unpaired surrogate somewhere. */
  predicate HasUnpaired(u: seq<CodeUnit>)
  {
    exists i | 0 <= i < |u| :: UnpairedAt(u, i)
  }

  /** Decoding the encoding of a string gives the string back. */
  lemma {:induction false} DecodeEncode(s: string)
    ensures Decode(Encode(s)) == Some(s)
  {
    if s != [] {
      var head, tail := EncodeChar(s[0]), Encode(s[1..]);
      DecodeEncode(s[1..]);
      if s[0] as int < 0x1_0000 {
        assert (head + tail)[1..] == tail;
        assert [head[0] as char] == [s[0]];
      } else {
        assert (head + tail)[2..] == tail;
      }
      assert [s[0]] + s[1..] == s;
    }
  }

  /** Whatever decodes successfully is the encoding of what it decodes to. */
  lemma {:induction false} EncodeDecode(u: seq<CodeUnit>)
    requires Decode(u).Some?
    ensures Encode(Decode(u).value) == u
    decreases |u|
  {
    if u != [] {
      var n := if IsHighSurrogate(u[0]) then 2 else 1;
      DecodeStep(u);
      EncodeDecode(u[n..]);
      var s := Decode(u).value;
      assert s[1..] == Decode(u[n..]).value;
      assert u[..n] + u[n..] == u;
    }
  }

  /** One step of a successful decoding: a unit or a pair, then the rest. */
  lemma DecodeStep(u: seq<CodeUnit>)
    requires u != [] && Decode(u).Some?
    ensures var n := if IsHighSurrogate(u[0]) then 2 else 1;
            && n <= |u| && Decode(u[n..]).Some?
            && Decode(u).value != [] && EncodeChar(Decode(u).value[0]) == u[..n]
            && Decode(u).value[1..] == Decode(u[n..]).value
  {
    if IsHighSurrogate(u[0]) {
      PairRoundTrip(u[0], u[1]);
      assert u[..2] == [u[0], u[1]];
    }
  }

  /** A surrogate pair is the encoding of the value it stands for. */
  lemma PairRoundTrip(hi: CodeUnit, lo: CodeUnit)
    requires IsHighSurrogate(hi) && IsLowSurrogate(lo)
    ensures EncodeChar(PairValue(hi, lo)) == [hi, lo]
  {
    var v := PairValue(hi, lo) as int - 0x1_0000;
    assert v / 0x400 == hi - 0xD800 && v % 0x400 == lo - 0xDC00;
  }

  /** Unpaired surrogates of a suffix that starts after a complete unit or pair. */
  lemma UnpairedShift(u: seq<CodeUnit>, k: nat)
    requires 1 <= k <= |u|
    requires k == 1 ==> !IsHighSurrogate(u[0]) && !IsLowSurrogate(u[0])
    requires k == 2 ==> IsHighSurrogate(u[0]) && IsLowSurrogate(u[1])
    requires k <= 2
    ensures HasUnpaired(u) <==> HasUnpaired(u[k..])
  {
    var t := u[k..];
    if HasUnpaired(u) {
      var i :| 0 <= i < |u| && UnpairedAt(u, i);
      assert k <= i;
      assert UnpairedAt(t, i - k);
    }
    if HasUnpaired(t) {
      var j :| 0 <= j < |t| && UnpairedAt(t, j);
      assert UnpairedAt(u, j + k);
    }
  }

  /** Decoding fails exactly when the code units hold an unpaired surrogate. */
  lemma {:induction false} DecodeFailsIffUnpaired(u: seq<CodeUnit>)
    ensures Decode(u).None? <==> HasUnpaired(u)
    decreases |u|
  {
    if u == [] {
    } else if IsLowSurrogate(u[0]) {
      assert UnpairedAt(u, 0);
    } else if IsHighSurrogate(u[0]) {
      if |u| >= 2 && IsLowSurrogate(u[1]) {
        DecodeFailsIffUnpaired(u[2..]);
        UnpairedShift(u, 2);
      } else {
        assert UnpairedAt(u, 0);
      }
    } else {
      DecodeFailsIffUnpaired(u[1..]);
      UnpairedShift(u, 1);
    }
  }
}
