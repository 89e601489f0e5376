/**
 * A reference meaning for the anchored regular expressions the routes and
 * pages test their inputs with (`/^\d{10}$/`, `/^\+?\d{10,15}$/`, ...):
 * a pattern is a sequence of repeated character classes, and it matches a
 * string when the string splits into consecutive pieces, one per term, of
 * allowed lengths and characters. For these patterns a backtracking
 * matcher succeeds exactly when such a split exists.
 */
module Regex {
  /** The character classes of the patterns; `\d` and `[A-Z]` are ASCII-only in JavaScript. */
  datatype CharClass = Digit | Upper | Exactly(c: char) | Union(left: CharClass, right: CharClass)

  predicate InClass(c: char, k: CharClass)
  {
    match k
    case Digit => '0' <= c <= '9'
    case Upper => 'A' <= c <= 'Z'
    case Exactly(d) => c == d
    case Union(l, r) => InClass(c, l) || InClass(c, r)
  }

  predicate AllIn(s: string, k: CharClass)
  {
    forall i | 0 <= i < |s| :: InClass(s[i], k)
  }

  /** `k{min,max}`; `?` is `{0,1}` and a bare class is `{1,1}`. */
  datatype Term = Repeat(chars: CharClass, min: nat, max: nat)

  /** `/^p$/.test(s)`: the whole string splits into one piece per term. */
  ghost predicate Matches(p: seq<Term>, s: string)
    decreases |p|
  {
    if p == [] then s == []
    else
      exists k: nat | p[0].min <= k <= p[0].max && k <= |s| ::
        AllIn(s[..k], p[0].chars) && Matches(p[1..], s[k..])
  }

  /** `/^\d{10}$/` */
  const TenDigits: seq<Term> := [Repeat(Digit, 10, 10)]

  /** `/^\d{12}$/` */
  const TwelveDigits: seq<Term> := [Repeat(Digit, 12, 12)]

  /** `/^\d{6,8}$/` */
  const SixToEightDigits: seq<Term> := [Repeat(Digit, 6, 8)]

  /** `/^\+?\d{10,15}$/` */
  const IntlPhone: seq<Term> := [Repeat(Exactly('+'), 0, 1), Repeat(Digit, 10, 15)]

  /** `/^[A-Z]{4}0[A-Z0-9]{6}$/` */
  const Ifsc: seq<Term> := [Repeat(Upper, 4, 4), Repeat(Exactly('0'), 1, 1), Repeat(Union(Upper, Digit), 6, 6)]

  /** A single term matches exactly the strings of allowed length made of its class. */
  lemma SingleTerm(t: Term, s: string)
    ensures Matches([t], s) <==> t.min <= |s| <= t.max && AllIn(s, t.chars)
  {
    var p := [t];
    assert p[1..] == [];
    if t.min <= |s| <= t.max && AllIn(s, t.chars) {
      assert s[..|s|] == s;
      assert Matches(p[1..], s[|s|..]);
    }
    if Matches(p, s) {
      var k: nat :| t.min <= k <= t.max && k <= |s| && AllIn(s[..k], t.chars) && Matches(p[1..], s[k..]);
      assert k == |s|;
      assert s[..k] == s;
    }
  }

  /** A term in front of a pattern matches a first piece of some allowed length. */
  lemma Split(t: Term, rest: seq<Term>, s: string)
    ensures Matches([t] + rest, s) <==>
      exists k: nat | t.min <= k <= t.max && k <= |s| :: AllIn(s[..k], t.chars) && Matches(rest, s[k..])
  {
    assert ([t] + rest)[0] == t && ([t] + rest)[1..] == rest;
  }

  /** A term in front of a pattern: the first piece has length k for some allowed k. */
  lemma FrontTerm(t: Term, rest: seq<Term>, s: string, k: nat)
    requires t.min <= k <= t.max && k <= |s|
    requires AllIn(s[..k], t.chars) && Matches(rest, s[k..])
    ensures Matches([t] + rest, s)
  {
    assert ([t] + rest)[0] == t && ([t] + rest)[1..] == rest;
  }

  /** A fixed-length term in front of a pattern takes exactly its length. */
  lemma FixedFront(t: Term, rest: seq<Term>, s: string)
    requires t.min == t.max && Matches([t] + rest, s)
    ensures t.min <= |s| && AllIn(s[..t.min], t.chars) && Matches(rest, s[t.min..])
  {
    Split(t, rest, s);
  }

  /** A match of two fixed-length terms from position i on cuts the string at fixed places. */
  lemma FixedTwo(b: Term, c: Term, s: string, i: nat)
    requires b.min == b.max && c.min == c.max && i <= |s|
    requires Matches([b, c], s[i..])
    ensures |s| == i + b.min + c.min
    ensures AllIn(s[i..i + b.min], b.chars) && AllIn(s[i + b.min..], c.chars)
  {
    var t := s[i..];
    assert [b, c] == [b] + [c];
    FixedFront(b, [c], t);
    SingleTerm(c, t[b.min..]);
    assert t[..b.min] == s[i..i + b.min] && t[b.min..] == s[i + b.min..];
  }

  lemma FirstOfThree(a: Term, b: Term, c: Term, s: string)
    requires a.min == a.max && Matches([a, b, c], s)
    ensures a.min <= |s| && AllIn(s[..a.min], a.chars) && Matches([b, c], s[a.min..])
  {
    assert [a, b, c] == [a] + [b, c];
    FixedFront(a, [b, c], s);
  }

  /** A match of three fixed-length terms cuts the string at fixed places. */
  lemma FixedThree(a: Term, b: Term, c: Term, s: string)
    requires a.min == a.max && b.min == b.max && c.min == c.max
    requires Matches([a, b, c], s)
    ensures |s| == a.min + b.min + c.min
    ensures AllIn(s[..a.min], a.chars)
    ensures AllIn(s[a.min..a.min + b.min], b.chars)
    ensures AllIn(s[a.min + b.min..], c.chars)
  {
    FirstOfThree(a, b, c, s);
    FixedTwo(b, c, s, a.min);
  }
}
