/**
 * The Aadhaar lookup page (src/app/aadhaar-osint/page.tsx): its scan
 * handler, which asks the page's own route and additionally demands a
 * non-empty family member list, and the address display.
 */
module AadhaarPage {
  import opened Wrappers
  import opened Js
  import opened Validation
  import opened Client
  import Regex
  import Http

  const InvalidInput: string := "Please enter a valid 12-digit Aadhaar number."
  const FetchFallback: string := "Failed to fetch data from the server."
  const NoFamily: string := "No family details found for this Aadhaar number."

  function Url(aadhaar: string): string
  {
    "/api/aadhaar-osint?aadhaar=" + aadhaar
  }

  /** The fields a scan leaves behind; `null` stands for "not set". */
  datatype Settled = Settled(error: Option<string>, result: Json, raw: Json)

  /** `!data.memberDetailsList || data.memberDetailsList.length === 0` on a body that is not `null`. */
  predicate NoMembers(data: Json)
  {
    var list := Field(data, "memberDetailsList");
    !Truthy(list) || LengthIsZero(list) == Normal(true)
  }

  /** What a scan of the input ends with, given the reply to its request. */
  function Outcome(input: string, server: string -> ServerReply): (s: Settled)
    ensures !Regex.Matches(Regex.TwelveDigits, input) ==> s == Settled(Some(InvalidInput), Null, Null)
    ensures s.error.Some? <==> s.result == Null
    ensures s.error.Some? ==> s.error.value != ""
    ensures s.result != Null ==>
              && s.result == s.raw
              && server(Url(input)).Received? && Http.IsOk(server(Url(input)).status)
              && server(Url(input)).body == Parsed(s.result)
              && !Truthy(Field(s.result, "error")) && !NoMembers(s.result)
    ensures Regex.Matches(Regex.TwelveDigits, input) && server(Url(input)).Received? && server(Url(input)).body.Parsed? ==>
              var status, data := server(Url(input)).status, server(Url(input)).body.json;
              && s.raw == data
              && (match Rejection(Http.IsOk(status), data, FetchFallback)
                  case Some(m) => s.error == Some(Shown(m))
                  case None => s.error.Some? <==> NoMembers(data))
              && (Rejection(Http.IsOk(status), data, FetchFallback).None? && NoMembers(data) ==> s.error == Some(NoFamily))
  {
    TwelveDigitsPattern(input);
    if !DigitsBetween(input, 12, 12) then Settled(Some(InvalidInput), Null, Null)
    else
      match server(Url(input))
      case FetchFailed(m) => Settled(Some(Shown(m)), Null, Null)
      case Received(_, Malformed(m)) => Settled(Some(Shown(m)), Null, Null)
      case Received(status, Parsed(data)) =>
        match Rejection(Http.IsOk(status), data, FetchFallback)
        case Some(m) => Settled(Some(Shown(m)), Null, data)
        case None => if NoMembers(data) then Settled(Some(NoFamily), Null, data) else Settled(None, data, data)
  }

  /** `address.replace(/!/g, ', ')`. */
  function DisplayAddress(address: string): (r: string)
    ensures |r| == |address| + Bangs(address)
    ensures '!' !in r
  {
    if address == [] then []
    else (if address[0] == '!' then ", " else [address[0]]) + DisplayAddress(address[1..])
  }

  /** The number of '!' in a string. */
  function Bangs(s: string): nat
  {
    if s == [] then 0 else (if s[0] == '!' then 1 else 0) + Bangs(s[1..])
  }

  /** An address without '!' is displayed as it is. */
  lemma {:induction false} DisplayWithoutBangs(address: string)
    requires '!' !in address
    ensures DisplayAddress(address) == address
  {
    if address != [] {
      DisplayWithoutBangs(address[1..]);
    }
  }

  /** Display distributes over concatenation, so every '!' is replaced wherever it is. */
  lemma {:induction false} DisplayAppend(a: string, b: string)
    ensures DisplayAddress(a + b) == DisplayAddress(a) + DisplayAddress(b)
  {
    if a == [] {
      assert a + b == b;
    } else {
      assert (a + b)[1..] == a[1..] + b;
      DisplayAppend(a[1..], b);
    }
  }

  /** A single character is displayed as ", " when it is '!', and as itself otherwise. */
  lemma DisplayChar(c: char)
    ensures DisplayAddress([c]) == if c == '!' then ", " else [c]
  {
    assert [c][1..] == [];
  }

  /** Every '!' of an address, wherever it stands, is displayed as ", " between the displays of its two sides. */
  lemma DisplayBang(a: string, b: string)
    ensures DisplayAddress(a + "!" + b) == DisplayAddress(a) + ", " + DisplayAddress(b)
  {
    DisplayAppend(a + "!", b);
    DisplayAppend(a, "!");
    DisplayChar('!');
  }

  /** The page's state. */
  class Page {
    var aadhaarInput: string
    var aadhaarResult: Json
    var rawAadhaarResult: Json
    var aadhaarLoading: bool
    var aadhaarError: Option<string>
    /** The state shown while each request is awaited: loading, with everything cleared. */
    ghost var waiting: seq<(bool, Settled)>

    constructor ()
      ensures aadhaarInput == "" && aadhaarResult == Null && rawAadhaarResult == Null
      ensures !aadhaarLoading && aadhaarError == None && waiting == []
    {
      aadhaarInput := "";
      aadhaarResult := Null;
      rawAadhaarResult := Null;
      aadhaarLoading := false;
      aadhaarError := None;
      waiting := [];
    }

    method SetInput(text: string)
      modifies this`aadhaarInput
      ensures aadhaarInput == text
    {
      aadhaarInput := text;
    }

    /** `handleAadhaarScan`; returns the URLs it requested. */
    method HandleScan(server: string -> ServerReply) returns (requested: seq<string>)
      modifies this`aadhaarResult, this`rawAadhaarResult, this`aadhaarLoading, this`aadhaarError, this`waiting
      ensures Settled(aadhaarError, aadhaarResult, rawAadhaarResult) == Outcome(aadhaarInput, server)
      ensures !aadhaarLoading
      ensures requested == if DigitsBetween(aadhaarInput, 12, 12) then [Url(aadhaarInput)] else []
      ensures waiting == old(waiting) + if requested == [] then [] else [(true, Settled(None, Null, Null))]
    {
      aadhaarLoading := true;
      aadhaarError := None;
      aadhaarResult := Null;
      rawAadhaarResult := Null;

      if !DigitsBetween(aadhaarInput, 12, 12) {
        aadhaarError := Some(InvalidInput);
        aadhaarLoading := false;
        return [];
      }

      waiting := waiting + [(aadhaarLoading, Settled(aadhaarError, aadhaarResult, rawAadhaarResult))];
      requested := [Url(aadhaarInput)];
      match server(Url(aadhaarInput)) {
        case FetchFailed(m) =>
          aadhaarError := Some(Shown(m));
        case Received(_, Malformed(m)) =>
          aadhaarError := Some(Shown(m));
        case Received(status, Parsed(data)) =>
          rawAadhaarResult := data;
          match Rejection(Http.IsOk(status), data, FetchFallback) {
            case Some(m) =>
              aadhaarError := Some(Shown(m));
            case None =>
              if NoMembers(data) {
                aadhaarError := Some(NoFamily);
              } else {
                aadhaarResult := data;
              }
          }
      }
      aadhaarLoading := false;
    }
  }
}
