/**
 * The card BIN lookup page (src/app/bank-osint/page.tsx): its scan handler
 * checks for six to eight digits and asks the page's own route.
 */
module BankPage {
  import opened Wrappers
  import opened Js
  import opened Validation
  import opened Client
  import Regex
  import Http

  const InvalidInput: string := "Please enter a valid 6 to 8-digit BIN."
  const FetchFallback: string := "Failed to fetch BIN data."

  function Url(bin: string): string
  {
    "/api/bin-osint?bin=" + bin
  }

  /** The fields a scan leaves behind; `null` stands for "not set". */
  datatype Settled = Settled(error: Option<string>, result: Json, raw: Json)

  /** What a scan of the input ends with, given the reply to its request. */
  function Outcome(input: string, server: string -> ServerReply): (s: Settled)
    ensures !Regex.Matches(Regex.SixToEightDigits, input) ==> s == Settled(Some(InvalidInput), Null, Null)
    ensures s.error.Some? <==> s.result == Null
    ensures s.error.Some? ==> s.error.value != ""
    ensures s.result != Null ==>
              && s.result == s.raw
              && server(Url(input)).Received? && Http.IsOk(server(Url(input)).status)
              && server(Url(input)).body == Parsed(s.result)
              && !Truthy(Field(s.result, "error"))
    ensures Regex.Matches(Regex.SixToEightDigits, input) && server(Url(input)).Received? && server(Url(input)).body.Parsed? ==>
              var status, data := server(Url(input)).status, server(Url(input)).body.json;
              && s.raw == data
              && s.error == (match Rejection(Http.IsOk(status), data, FetchFallback)
                             case Some(m) => Some(Shown(m))
                             case None => None)
  {
    SixToEightDigitsPattern(input);
    if !DigitsBetween(input, 6, 8) then Settled(Some(InvalidInput), Null, Null)
    else
      match server(Url(input))
      case FetchFailed(m) => Settled(Some(Shown(m)), Null, Null)
      case Received(_, Malformed(m)) => Settled(Some(Shown(m)), Null, Null)
      case Received(status, Parsed(data)) =>
        match Rejection(Http.IsOk(status), data, FetchFallback)
        case Some(m) => Settled(Some(Shown(m)), Null, data)
        case None => Settled(None, data, data)
  }

  /** The page's state. */
  class Page {
    var binInput: string
    var binResult: Json
    var rawBinResult: Json
    var binLoading: bool
    var binError: Option<string>
    /** The state shown while each request is awaited. */
    ghost var waiting: seq<(bool, Settled)>

    constructor ()
      ensures binInput == "" && binResult == Null && rawBinResult == Null
      ensures !binLoading && binError == None && waiting == []
    {
      binInput := "";
      binResult := Null;
      rawBinResult := Null;
      binLoading := false;
      binError := None;
      waiting := [];
    }

    method SetInput(text: string)
      modifies this`binInput
      ensures binInput == text
    {
      binInput := text;
    }

    /** `handleBinScan`; returns the URLs it requested. */
    method HandleScan(server: string -> ServerReply) returns (requested: seq<string>)
      modifies this`binResult, this`rawBinResult, this`binLoading, this`binError, this`waiting
      ensures Settled(binError, binResult, rawBinResult) == Outcome(binInput, server)
      ensures !binLoading
      ensures requested == if DigitsBetween(binInput, 6, 8) then [Url(binInput)] else []
      ensures waiting == old(waiting) + if requested == [] then [] else [(true, Settled(None, Null, Null))]
    {
      binLoading := true;
      binError := None;
      binResult := Null;
      rawBinResult := Null;

      if !DigitsBetween(binInput, 6, 8) {
        binError := Some(InvalidInput);
        binLoading := false;
        return [];
      }

      waiting := waiting + [(binLoading, Settled(binError, binResult, rawBinResult))];
      requested := [Url(binInput)];
      match server(Url(binInput)) {
        case FetchFailed(m) =>
          binError := Some(Shown(m));
        case Received(_, Malformed(m)) =>
          binError := Some(Shown(m));
        case Received(status, Parsed(data)) =>
          rawBinResult := data;
          match Rejection(Http.IsOk(status), data, FetchFallback) {
            case Some(m) =>
              binError := Some(Shown(m));
            case None =>
              binResult := data;
          }
      }
      binLoading := false;
    }
  }
}
