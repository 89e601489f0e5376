/**
 * Pages and routes together: a page's request reaches its own route, and
 * the route's response is the reply the page reads. These lemmas show how
 * the checks the two sides make differ.
 */
module Scenarios {
  import opened Wrappers
  import opened Js
  import opened Http
  import opened Validation
  import opened Client
  import Regex
  import AadhaarRoute
  import AadhaarPage
  import BinRoute
  import BankPage
  import IfscRoute

  /** The page's server when every request reaches the route with `aadhaar` as its parameter. */
  function AadhaarServer(aadhaar: string, upstream: Upstream): string -> ServerReply
  {
    _ => FromRoute(AadhaarRoute.Get(Some(aadhaar), upstream).response)
  }

  /** A body-level `message` in a 2xx reply becomes a 404 at the route, and the page shows the message. */
  lemma {:induction false} AadhaarMessageReachesPage(aadhaar: string, upstream: Upstream, message: string)
    requires DigitsBetween(aadhaar, 12, 12)
    requires Delivered(upstream) && Field(upstream.json.value, "message") == Def(Str(message)) && message != ""
    ensures AadhaarRoute.Get(Some(aadhaar), upstream).response == Response(404, ErrorBody(Str(message)))
    ensures AadhaarPage.Outcome(aadhaar, AadhaarServer(aadhaar, upstream)) ==
            AadhaarPage.Settled(Some(message), Null, ErrorBody(Str(message)))
  {
    TwelveDigitsPattern(aadhaar);
    var body := ErrorBody(Str(message));
    assert Field(body, "error") == Def(Str(message));
  }

  /** The route passes an empty member list through with 200; only the page refuses it. */
  lemma {:induction false} EmptyMembersOnlyRefusedByPage(aadhaar: string, status: UpstreamStatus, text: string)
    requires DigitsBetween(aadhaar, 12, 12) && IsOk(status)
    ensures var body := Obj(map["memberDetailsList" := Arr([])]);
            var upstream := Reply(status, text, Some(body));
            && AadhaarRoute.Get(Some(aadhaar), upstream).response == Response(200, body)
            && AadhaarPage.Outcome(aadhaar, AadhaarServer(aadhaar, upstream)) ==
               AadhaarPage.Settled(Some(AadhaarPage.NoFamily), Null, body)
  {
    TwelveDigitsPattern(aadhaar);
    var body := Obj(map["memberDetailsList" := Arr([])]);
    assert Field(body, "message") == Undefined;
    assert Field(body, "error") == Undefined;
    assert Field(body, "memberDetailsList") == Def(Arr([]));
  }

  /** A short BIN never leaves the page, and the route would refuse it with a different message. */
  lemma ShortBinRefusedTwice(server: string -> ServerReply, upstream: Upstream)
    ensures BankPage.Outcome("12345", server) == BankPage.Settled(Some(BankPage.InvalidInput), Null, Null)
    ensures BinRoute.Get(Some("12345"), upstream) == Exchange(Failure(400, BinRoute.InvalidBin), [])
    ensures BankPage.InvalidInput != BinRoute.InvalidBin
  {
    assert !DigitsBetween("12345", 6, 8);
    SixToEightDigitsPattern("12345");
  }

  /** Upper-casing text distributes over concatenation. */
  lemma {:induction false} UpperAppend(a: string, b: string)
    ensures ToUpperCase(a + b) == ToUpperCase(a) + ToUpperCase(b)
  {
    if a == [] {
      assert a + b == b;
    } else {
      assert (a + b)[1..] == a[1..] + b;
      UpperAppend(a[1..], b);
    }
  }

  /** Digits are their own upper case. */
  lemma {:induction false} UpperDigits(s: string)
    requires AllAsciiDigits(s)
    ensures ToUpperCase(s) == s
  {
    if s != [] {
      UpperDigits(s[1..]);
    }
  }

  /** The route fetches exactly when the text is an IFSC code, and then fetches it unchanged. */
  lemma IfscFetchedAsTyped(ifsc: string, upstream: Upstream)
    ensures IfscRoute.Get(Some(ifsc), upstream).fetched != [] <==> ifsc != "" && IsIfsc(ifsc)
    ensures ifsc != "" && IsIfsc(ifsc) ==> IfscRoute.Get(Some(ifsc), upstream).fetched == [IfscRoute.Endpoint(ifsc)]
  {
    IfscPattern(ifsc);
  }

  /** Lower-case IFSC input is accepted, and the upstream is asked with it as typed. */
  lemma LowerCaseIfscSentAsTyped(upstream: Upstream)
    ensures IfscRoute.Get(Some("sbin0001234"), upstream).fetched == [IfscRoute.Endpoint("sbin0001234")]
  {
    SbinCode();
    IfscFetchedAsTyped("sbin0001234", upstream);
  }

  /** "sbin0001234" counts as an IFSC code once upper-cased. */
  lemma SbinCode()
    ensures IsIfsc("sbin0001234")
  {
    assert ToUpperCase("sbin") == "SBIN";
    assert IfscShape("SBIN" + "0001234");
    UpperOfText("sbin", "SBIN", "0001234");
    assert "sbin" + "0001234" == "sbin0001234";
  }

  /** So does "ßin0001234", whose ß upper-cases to two letters. */
  lemma SharpSCode()
    ensures IsIfsc("\U{00DF}in0001234")
  {
    assert ToUpperCase("\U{00DF}in") == "SSIN";
    assert IfscShape("SSIN" + "0001234");
    UpperOfText("\U{00DF}in", "SSIN", "0001234");
    assert "\U{00DF}in" + "0001234" == "\U{00DF}in0001234";
  }

  /** Letters whose upper case is `upper`, followed by a digit run, are an IFSC code when the whole is. */
  lemma UpperOfText(letters: string, upper: string, digits: string)
    requires ToUpperCase(letters) == upper && AllAsciiDigits(digits)
    requires IfscShape(upper + digits)
    ensures IsIfsc(letters + digits)
  {
    UpperDigits(digits);
    UpperAppend(letters, digits);
  }

  /**
   * Upper-casing may lengthen the input: "ßin0001234" has ten characters,
   * its upper-case form "SSIN0001234" eleven, and the route accepts it.
   */
  lemma SharpSIfscAccepted(upstream: Upstream)
    ensures |"\U{00DF}in0001234"| == 10
    ensures IfscRoute.Get(Some("\U{00DF}in0001234"), upstream).fetched == [IfscRoute.Endpoint("\U{00DF}in0001234")]
  {
    SharpSCode();
    IfscFetchedAsTyped("\U{00DF}in0001234", upstream);
  }
}
