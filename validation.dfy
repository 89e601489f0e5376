/**
 * The input checks of the routes and pages, as character predicates, each
 * proved equal to the anchored regular expression the source tests with.
 */
module Validation {
  import opened Wrappers
  import opened Regex

  /** `!q` is false: the query parameter is present and not the empty string. */
  predicate Present(q: Option<string>)
  {
    q.Some? && q.value != ""
  }

  predicate IsAsciiDigit(c: char) { '0' <= c <= '9' }

  predicate IsAsciiUpper(c: char) { 'A' <= c <= 'Z' }

  predicate AllAsciiDigits(s: string)
  {
    forall i | 0 <= i < |s| :: IsAsciiDigit(s[i])
  }

  /** Between lo and hi ASCII digits and nothing else. */
  predicate DigitsBetween(s: string, lo: nat, hi: nat)
  {
    lo <= |s| <= hi && AllAsciiDigits(s)
  }

  /** At most one leading '+', then 10 to 15 ASCII digits. */
  predicate IsIntlPhone(s: string)
  {
    if |s| > 0 && s[0] == '+' then DigitsBetween(s[1..], 10, 15) else DigitsBetween(s, 10, 15)
  }

  /**
   * `String.prototype.toUpperCase` on one character, as far as it can make a
   * character of `[A-Z0-9]`: ASCII letters, and the characters whose full
   * upper-case mapping in the Unicode SpecialCasing table is made of ASCII
   * letters only (dotless i, long s, sharp s and the Latin ligatures
   * U+FB00 to U+FB06). Every other character is kept; its real upper-case
   * form is itself or contains a character outside A-Z and 0-9, so an IFSC
   * check decides the same on either.
   */
  function UpperOf(c: char): (r: string)
    ensures |r| >= 1
    ensures c as int < 0x80 ==> r == [if 'a' <= c <= 'z' then (c as int - 32) as char else c]
  {
    if 'a' <= c <= 'z' then [(c as int - 32) as char]
    else if c == '\U{0131}' then "I"
    else if c == '\U{017F}' then "S"
    else if c == '\U{00DF}' then "SS"
    else if c == '\U{FB00}' then "FF"
    else if c == '\U{FB01}' then "FI"
    else if c == '\U{FB02}' then "FL"
    else if c == '\U{FB03}' then "FFI"
    else if c == '\U{FB04}' then "FFL"
    else if c == '\U{FB05}' || c == '\U{FB06}' then "ST"
    else [c]
  }

  function ToUpperCase(s: string): (r: string)
    ensures |r| >= |s|
  {
    if s == [] then [] else UpperOf(s[0]) + ToUpperCase(s[1..])
  }

  /** The IFSC check on the upper-cased input: four letters, '0', six letters or digits. */
  predicate IsIfsc(s: string)
  {
    IfscShape(ToUpperCase(s))
  }

  predicate IfscShape(u: string)
  {
    && |u| == 11
    && (forall i | 0 <= i < 4 :: IsAsciiUpper(u[i]))
    && u[4] == '0'
    && (forall i | 5 <= i < 11 :: IsAsciiUpper(u[i]) || IsAsciiDigit(u[i]))
  }

  lemma DigitsAreDigitClass(s: string)
    ensures AllAsciiDigits(s) <==> AllIn(s, Digit)
  {
  }

  /** The regular expressions with one repeated digit class are the digit-count checks. */
  lemma DigitPattern(lo: nat, hi: nat, s: string)
    ensures Matches([Repeat(Digit, lo, hi)], s) <==> DigitsBetween(s, lo, hi)
  {
    SingleTerm(Repeat(Digit, lo, hi), s);
  }

  /** `/^\d{10}$/.test(s)` exactly when s is ten ASCII digits. */
  lemma TenDigitsPattern(s: string)
    ensures Matches(TenDigits, s) <==> DigitsBetween(s, 10, 10)
  {
    DigitPattern(10, 10, s);
  }

  /** `/^\d{12}$/.test(s)` exactly when s is twelve ASCII digits. */
  lemma TwelveDigitsPattern(s: string)
    ensures Matches(TwelveDigits, s) <==> DigitsBetween(s, 12, 12)
  {
    DigitPattern(12, 12, s);
  }

  /** `/^\d{6,8}$/.test(s)` exactly when s is six to eight ASCII digits. */
  lemma SixToEightDigitsPattern(s: string)
    ensures Matches(SixToEightDigits, s) <==> DigitsBetween(s, 6, 8)
  {
    DigitPattern(6, 8, s);
  }

  /** `/^\+?\d{10,15}$/.test(s)` exactly when IsIntlPhone(s). */
  lemma IntlPhonePattern(s: string)
    ensures Matches(IntlPhone, s) <==> IsIntlPhone(s)
  {
    var plus, digits := Repeat(Exactly('+'), 0, 1), Repeat(Digit, 10, 15);
    assert IntlPhone == [plus] + [digits];
    if IsIntlPhone(s) {
      var k := if |s| > 0 && s[0] == '+' then 1 else 0;
      SingleTerm(digits, s[k..]);
      assert forall i | 0 <= i < k :: s[..k][i] == s[i];
      FrontTerm(plus, [digits], s, k);
    }
    if Matches(IntlPhone, s) {
      Split(plus, [digits], s);
      var k: nat :| k <= 1 && k <= |s| && AllIn(s[..k], plus.chars) && Matches([digits], s[k..]);
      SingleTerm(digits, s[k..]);
      if k == 1 {
        assert s[..1][0] == s[0];
      } else {
        assert s[0..] == s;
      }
    }
  }

  /** `/^[A-Z]{4}0[A-Z0-9]{6}$/.test(s.toUpperCase())` exactly when IsIfsc(s). */
  lemma IfscPattern(s: string)
    ensures Matches(Ifsc, ToUpperCase(s)) <==> IsIfsc(s)
  {
    var u := ToUpperCase(s);
    if IfscShape(u) {
      IfscShapeMatches(u);
    }
    if Matches(Ifsc, u) {
      IfscMatchHasShape(u);
    }
  }

  lemma IfscShapeMatches(u: string)
    requires IfscShape(u)
    ensures Matches(Ifsc, u)
  {
    var letters, zero, rest := Repeat(Upper, 4, 4), Repeat(Exactly('0'), 1, 1), Repeat(Union(Upper, Digit), 6, 6);
    assert Ifsc == [letters] + [zero, rest];
    assert [zero, rest] == [zero] + [rest];
    assert forall i | 0 <= i < 4 :: u[..4][i] == u[i];
    assert u[4..][..1] == [u[4]] && u[4..][1..] == u[5..];
    assert forall j | 0 <= j < 6 :: u[5..][j] == u[j + 5];
    assert forall j | 0 <= j < 6 :: InClass(u[5..][j], rest.chars);
    assert AllIn(u[5..], rest.chars);
    SingleTerm(rest, u[5..]);
    assert Matches([rest], u[5..]);
    assert Matches([rest], u[4..][1..]);
    FrontTerm(zero, [rest], u[4..], 1);
    FrontTerm(letters, [zero, rest], u, 4);
  }

  lemma IfscMatchHasShape(u: string)
    requires Matches(Ifsc, u)
    ensures IfscShape(u)
  {
    FixedThree(Repeat(Upper, 4, 4), Repeat(Exactly('0'), 1, 1), Repeat(Union(Upper, Digit), 6, 6), u);
    IfscPieces(u);
  }

  lemma IfscPieces(u: string)
    requires |u| == 11
    requires AllIn(u[..4], Upper) && AllIn(u[4..5], Exactly('0')) && AllIn(u[5..], Union(Upper, Digit))
    ensures IfscShape(u)
  {
    forall i | 0 <= i < 4
      ensures IsAsciiUpper(u[i])
    {
      assert u[..4][i] == u[i];
    }
    assert u[4..5][0] == u[4];
    forall i | 5 <= i < 11
      ensures IsAsciiUpper(u[i]) || IsAsciiDigit(u[i])
    {
      assert u[5..][i - 5] == u[i];
      assert InClass(u[i], Union(Upper, Digit));
      assert InClass(u[i], Upper) || InClass(u[i], Digit);
    }
  }
}
