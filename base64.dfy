/**
 * Base64 as section 4 of RFC 4648 defines it (alphabet A-Z a-z 0-9 + /,
 * '=' padding to a multiple of four characters), which is what `btoa` and
 * `Buffer.toString('base64')` produce, and the "forgiving-base64 decode" of
 * the WHATWG Infra standard that `atob` applies: ASCII whitespace is
 * dropped, padding may be missing, and unused low bits need not be zero.
 */
module Base64 {
  import opened Wrappers
  import opened Utf8

  /** A six-bit value: one base64 digit. */
  type Sextet = x: int | 0 <= x < 64

  /** The base64 digit of a six-bit value. */
  function CharOf(i: Sextet): (c: char)
  {
    if i < 26 then ('A' as int + i) as char
    else if i < 52 then ('a' as int + i - 26) as char
    else if i < 62 then ('0' as int + i - 52) as char
    else if i == 62 then '+'
    else '/'
  }

  /** The six-bit value of a base64 digit, None for any other character. */
  function IndexOf(c: char): (r: Option<Sextet>)
    ensures r.Some? ==> CharOf(r.value) == c
  {
    if 'A' <= c <= 'Z' then Some(c as int - 'A' as int)
    else if 'a' <= c <= 'z' then Some(c as int - 'a' as int + 26)
    else if '0' <= c <= '9' then Some(c as int - '0' as int + 52)
    else if c == '+' then Some(62)
    else if c == '/' then Some(63)
    else None
  }

  predicate IsDigit(c: char) { IndexOf(c).Some? }

  /** Every base64 digit's value is read back from it. */
  lemma IndexOfCharOf(i: Sextet)
    ensures IndexOf(CharOf(i)) == Some(i)
  {
  }

  predicate AllDigits(s: string)
  {
    forall k | 0 <= k < |s| :: IsDigit(s[k])
  }

  function Value(c: char): Sextet
    requires IsDigit(c)
  {
    IndexOf(c).value
  }

  /** The digit values of the bytes, before padding: four for every three bytes, two or three for a last one or two. */
  function Sextets(b: seq<Byte>): (r: seq<Sextet>)
    ensures |r| == (4 * |b| + 2) / 3
    decreases |b|
  {
    if |b| == 0 then []
    else if |b| == 1 then [b[0] / 4, (b[0] % 4) * 16]
    else if |b| == 2 then [b[0] / 4, (b[0] % 4) * 16 + b[1] / 16, (b[1] % 16) * 4]
    else [b[0] / 4, (b[0] % 4) * 16 + b[1] / 16, (b[1] % 16) * 4 + b[2] / 64, b[2] % 64] + Sextets(b[3..])
  }

  /** The base64 digits of a sequence of values. */
  function Digits(v: seq<Sextet>): (r: string)
    ensures |r| == |v|
    ensures forall k | 0 <= k < |v| :: r[k] == CharOf(v[k])
  {
    seq(|v|, k requires 0 <= k < |v| => CharOf(v[k]))
  }

  /** The '=' that bring a last group of one or two bytes up to four characters. */
  function Padding(n: nat): (r: string)
    ensures |r| == (3 - n % 3) % 3
  {
    if n % 3 == 1 then "==" else if n % 3 == 2 then "=" else ""
  }

  /** The digits and the padding fill whole groups of four. */
  lemma GroupsFilled(n: nat)
    ensures (4 * n + 2) / 3 + (3 - n % 3) % 3 == 4 * ((n + 2) / 3)
  {
    var k, m := n / 3, n % 3;
    assert n == 3 * k + m;
    if m == 0 {
      assert (4 * n + 2) / 3 == 4 * k;
    } else if m == 1 {
      assert (4 * n + 2) / 3 == 4 * k + 2;
    } else {
      assert (4 * n + 2) / 3 == 4 * k + 3;
    }
  }

  /** A base64 digit is never the padding character. */
  lemma DigitIsNotPad(i: Sextet)
    ensures CharOf(i) != '=' && IsDigit(CharOf(i))
  {
    IndexOfCharOf(i);
  }

  /** Padded base64: four characters for every three bytes, begun or complete. */
  function Encode(b: seq<Byte>): (r: string)
    ensures |r| == 4 * ((|b| + 2) / 3)
    ensures forall k | 0 <= k < |r| :: IsDigit(r[k]) || r[k] == '='
  {
    var d := Digits(Sextets(b));
    forall k | 0 <= k < |d|
      ensures IsDigit(d[k])
    {
      DigitIsNotPad(Sextets(b)[k]);
    }
    GroupsFilled(|b|);
    d + Padding(|b|)
  }

  /** ASCII whitespace as the Infra standard defines it: TAB, LF, FF, CR and SPACE. */
  predicate IsAsciiWhitespace(c: char)
  {
    c == '\t' || c == '\n' || c as int == 0x0C || c == '\r' || c == ' '
  }

  function StripWhitespace(s: string): (r: string)
    ensures forall k | 0 <= k < |r| :: !IsAsciiWhitespace(r[k])
    ensures (forall k | 0 <= k < |s| :: !IsAsciiWhitespace(s[k])) ==> r == s
  {
    if s == [] then []
    else if IsAsciiWhitespace(s[0]) then StripWhitespace(s[1..])
    else [s[0]] + StripWhitespace(s[1..])
  }

  /** When the length is a multiple of four, one or two trailing '=' are removed. */
  function StripPadding(s: string): (r: string)
  {
    if |s| % 4 != 0 then s
    else if |s| >= 2 && s[|s| - 2] == '=' && s[|s| - 1] == '=' then s[..|s| - 2]
    else if |s| >= 1 && s[|s| - 1] == '=' then s[..|s| - 1]
    else s
  }

  /** The values of a string of digits. */
  function Values(t: string): (r: seq<Sextet>)
    requires AllDigits(t)
    ensures |r| == |t|
    ensures forall k | 0 <= k < |t| :: r[k] == Value(t[k])
  {
    seq(|t|, k requires 0 <= k < |t| => Value(t[k]))
  }

  /** The bytes that digit values carry; a last group of two or three values gives one or two bytes. */
  function DecodeSextets(v: seq<Sextet>): (r: seq<Byte>)
    requires |v| % 4 != 1
    decreases |v|
  {
    if |v| == 0 then []
    else if |v| == 2 then [v[0] as int * 4 + v[1] / 16]
    else if |v| == 3 then [v[0] as int * 4 + v[1] / 16, (v[1] as int % 16) * 16 + v[2] / 4]
    else Bytes(v[0], v[1], v[2], v[3]) + DecodeSextets(v[4..])
  }

  /** The three bytes that four digits carry. */
  function Bytes(v0: Sextet, v1: Sextet, v2: Sextet, v3: Sextet): (r: seq<Byte>)
  {
    [v0 * 4 + v1 / 16, (v1 % 16) * 16 + v2 / 4, (v2 % 4) * 64 + v3]
  }

  /** Forgiving base64 decode; None is `atob`'s InvalidCharacterError. */
  function Decode(s: string): (r: Option<seq<Byte>>)
  {
    var t := StripPadding(StripWhitespace(s));
    if |t| % 4 == 1 then None
    else if !AllDigits(t) then None
    else Some(DecodeSextets(Values(t)))
  }

  /** The digit arithmetic of one group undoes itself. */
  lemma GroupArithmetic(b0: Byte, b1: Byte, b2: Byte)
    ensures Bytes(b0 / 4, (b0 % 4) * 16 + b1 / 16, (b1 % 16) * 4 + b2 / 64, b2 % 64) == [b0, b1, b2]
  {
    var c1 := (b0 % 4) * 16 + b1 / 16;
    var c2 := (b1 % 16) * 4 + b2 / 64;
    assert c1 / 16 == b0 % 4 && c1 % 16 == b1 / 16;
    assert c2 / 4 == b1 % 16 && c2 % 4 == b2 / 64;
  }

  /** Four values in front of more decode to their three bytes in front. */
  lemma DecodeQuad(v0: Sextet, v1: Sextet, v2: Sextet, v3: Sextet, rest: seq<Sextet>)
    requires |rest| % 4 != 1
    ensures |[v0, v1, v2, v3] + rest| % 4 != 1
    ensures DecodeSextets([v0, v1, v2, v3] + rest) == Bytes(v0, v1, v2, v3) + DecodeSextets(rest)
  {
    var v := [v0, v1, v2, v3] + rest;
    assert v[4..] == rest;
  }

  /** Three bytes in front of more bytes give their four values in front. */
  lemma SextetsSplit(b: seq<Byte>)
    requires |b| >= 3
    ensures Sextets(b) == [b[0] / 4, (b[0] % 4) * 16 + b[1] / 16, (b[1] % 16) * 4 + b[2] / 64, b[2] % 64] + Sextets(b[3..])
  {
  }

  /** Two bytes come back from their three values. */
  lemma DecodeTwoBytes(b0: Byte, b1: Byte)
    ensures DecodeSextets([b0 / 4, (b0 % 4) * 16 + b1 / 16, (b1 % 16) * 4]) == [b0, b1]
  {
    var c1, c2 := (b0 % 4) * 16 + b1 / 16, (b1 % 16) * 4;
    assert c1 / 16 == b0 % 4 && c1 % 16 == b1 / 16 && c2 / 4 == b1 % 16;
  }

  /** The values of bytes decode to the bytes. */
  lemma {:induction false} DecodeSextetsOfSextets(b: seq<Byte>)
    ensures |Sextets(b)| % 4 != 1
    ensures DecodeSextets(Sextets(b)) == b
    decreases |b|
  {
    if |b| >= 3 {
      var b0, b1, b2 := b[0], b[1], b[2];
      var c0: Sextet, c1: Sextet, c2: Sextet, c3: Sextet := b0 / 4, (b0 % 4) * 16 + b1 / 16, (b1 % 16) * 4 + b2 / 64, b2 % 64;
      var r := Sextets(b[3..]);
      SextetsSplit(b);
      DecodeSextetsOfSextets(b[3..]);
      DecodeQuad(c0, c1, c2, c3, r);
      GroupArithmetic(b0, b1, b2);
      calc {
        DecodeSextets(Sextets(b));
        DecodeSextets([c0, c1, c2, c3] + r);
        Bytes(c0, c1, c2, c3) + DecodeSextets(r);
        [b0, b1, b2] + b[3..];
        b;
      }
    } else if |b| == 2 {
      DecodeTwoBytes(b[0], b[1]);
    } else if |b| == 1 {
      assert Sextets(b) == [b[0] / 4, (b[0] % 4) * 16];
    }
  }

  /** The digits of any values are digits, and read back as those values. */
  lemma ValuesOfDigits(v: seq<Sextet>)
    ensures AllDigits(Digits(v))
    ensures Values(Digits(v)) == v
  {
    var d := Digits(v);
    forall k | 0 <= k < |v|
      ensures IsDigit(d[k]) && Value(d[k]) == v[k]
    {
      IndexOfCharOf(v[k]);
    }
  }

  /** Padding of up to two '=' after digits that do not end in '=' is what StripPadding removes. */
  lemma StripPaddingAfterDigits(d: string, p: string)
    requires |d + p| % 4 == 0
    requires p == "" || p == "=" || p == "=="
    requires |d| > 0 ==> d[|d| - 1] != '='
    requires p == "=" ==> |d| > 0
    ensures StripPadding(d + p) == d
  {
    var e := d + p;
    if p == "" {
      assert e == d;
    } else if p == "=" {
      assert e[|e| - 2] == d[|d| - 1];
      assert e[..|e| - 1] == d;
    } else {
      assert e[..|e| - 2] == d;
    }
  }

  /** Removing the padding of an encoding leaves its digits. */
  lemma StripPaddingOfEncoding(b: seq<Byte>)
    ensures StripPadding(Encode(b)) == Digits(Sextets(b))
  {
    var v := Sextets(b);
    var d, p := Digits(v), Padding(|b|);
    GroupsFilled(|b|);
    if |d| > 0 {
      DigitIsNotPad(v[|d| - 1]);
    }
    StripPaddingAfterDigits(d, p);
  }

  /** The encoding with its padding removed is all digits, of a decodable length, and its digits give the bytes back. */
  lemma DecodeDigitsOfEncoding(b: seq<Byte>)
    ensures var t := StripPadding(Encode(b)); AllDigits(t) && |t| % 4 != 1 && DecodeSextets(Values(t)) == b
  {
    StripPaddingOfEncoding(b);
    ValuesOfDigits(Sextets(b));
    DecodeSextetsOfSextets(b);
  }

  /** Decoding the encoding of any bytes gives the bytes back. */
  lemma DecodeEncode(b: seq<Byte>)
    ensures Decode(Encode(b)) == Some(b)
  {
    var e := Encode(b);
    assert forall k | 0 <= k < |e| :: !IsAsciiWhitespace(e[k]);
    assert StripWhitespace(e) == e;
    DecodeDigitsOfEncoding(b);
  }

  /**
   * `atob` is lenient, so encoding what it decodes need not give the input
   * back: unpadded "QQ" and padded "QQ==" both decode to the byte 0x41,
   * which encodes to "QQ==" only.
   */
  lemma MissingPaddingAccepted()
    ensures Decode("QQ") == Some([0x41])
    ensures Decode("QQ==") == Some([0x41])
    ensures Encode([0x41]) == "QQ=="
  {
    DecodeQQ();
    DecodeQQPadded();
    EncodeA();
  }

  lemma DecodeQQ()
    ensures Decode("QQ") == Some([0x41])
  {
    assert StripWhitespace("QQ") == "QQ";
    assert Values("QQ") == [16, 16];
  }

  lemma DecodeQQPadded()
    ensures Decode("QQ==") == Some([0x41])
  {
    assert StripWhitespace("QQ==") == "QQ==";
    assert StripPadding("QQ==") == "QQ";
    assert Values("QQ") == [16, 16];
  }

  lemma EncodeA()
    ensures Encode([0x41]) == "QQ=="
  {
    assert Sextets([0x41]) == [16, 16];
    assert Digits([16, 16]) == "QQ";
  }
}
