/**
 * The phone lookup page (src/app/phone-osint/page.tsx): its scan handler
 * checks for ten digits and keeps the raw reply only when it is no error.
 */
module PhonePage {
  import opened Wrappers
  import opened Js
  import opened Validation
  import opened Client
  import Regex
  import Http

  const InvalidInput: string := "Please enter a valid 10-digit phone number."
  const FetchFallback: string := "Failed to fetch data from the server."

  function Url(number: string): string
  {
    "/api/phone-osint?number=" + number
  }

  /** The fields a scan leaves behind; `null` stands for "not set". */
  datatype Settled = Settled(error: Option<string>, raw: Json)

  /** What a scan of the input ends with, given the reply to its request. */
  function Outcome(input: string, server: string -> ServerReply): (s: Settled)
    ensures !Regex.Matches(Regex.TenDigits, input) ==> s == Settled(Some(InvalidInput), Null)
    ensures s.error.Some? <==> s.raw == Null
    ensures s.error.Some? ==> s.error.value != ""
    ensures s.raw != Null ==>
              && server(Url(input)).Received? && Http.IsOk(server(Url(input)).status)
              && server(Url(input)).body == Parsed(s.raw)
              && !Truthy(Field(s.raw, "error"))
    ensures Regex.Matches(Regex.TenDigits, input) && server(Url(input)).Received? && server(Url(input)).body.Parsed? ==>
              var status, data := server(Url(input)).status, server(Url(input)).body.json;
              match Rejection(Http.IsOk(status), data, FetchFallback)
              case Some(m) => s == Settled(Some(Shown(m)), Null)
              case None => s == Settled(None, data)
  {
    TenDigitsPattern(input);
    if !DigitsBetween(input, 10, 10) then Settled(Some(InvalidInput), Null)
    else
      match server(Url(input))
      case FetchFailed(m) => Settled(Some(Shown(m)), Null)
      case Received(_, Malformed(m)) => Settled(Some(Shown(m)), Null)
      case Received(status, Parsed(data)) =>
        match Rejection(Http.IsOk(status), data, FetchFallback)
        case Some(m) => Settled(Some(Shown(m)), Null)
        case None => Settled(None, data)
  }

  /** The page's state. */
  class Page {
    var phoneInput: string
    var rawPhoneResult: Json
    var phoneLoading: bool
    var phoneError: Option<string>
    /** The state shown while each request is awaited. */
    ghost var waiting: seq<(bool, Settled)>

    constructor ()
      ensures phoneInput == "" && rawPhoneResult == Null && !phoneLoading && phoneError == None && waiting == []
    {
      phoneInput := "";
      rawPhoneResult := Null;
      phoneLoading := false;
      phoneError := None;
      waiting := [];
    }

    method SetInput(text: string)
      modifies this`phoneInput
      ensures phoneInput == text
    {
      phoneInput := text;
    }

    /** `handlePhoneScan`; returns the URLs it requested. */
    method HandleScan(server: string -> ServerReply) returns (requested: seq<string>)
      modifies this`rawPhoneResult, this`phoneLoading, this`phoneError, this`waiting
      ensures Settled(phoneError, rawPhoneResult) == Outcome(phoneInput, server)
      ensures !phoneLoading
      ensures requested == if DigitsBetween(phoneInput, 10, 10) then [Url(phoneInput)] else []
      ensures waiting == old(waiting) + if requested == [] then [] else [(true, Settled(None, Null))]
    {
      phoneLoading := true;
      phoneError := None;
      rawPhoneResult := Null;

      if !DigitsBetween(phoneInput, 10, 10) {
        phoneError := Some(InvalidInput);
        phoneLoading := false;
        return [];
      }

      waiting := waiting + [(phoneLoading, Settled(phoneError, rawPhoneResult))];
      requested := [Url(phoneInput)];
      match server(Url(phoneInput)) {
        case FetchFailed(m) =>
          phoneError := Some(Shown(m));
        case Received(_, Malformed(m)) =>
          phoneError := Some(Shown(m));
        case Received(status, Parsed(data)) =>
          match Rejection(Http.IsOk(status), data, FetchFallback) {
            case Some(m) =>
              phoneError := Some(Shown(m));
            case None =>
              rawPhoneResult := data;
          }
      }
      phoneLoading := false;
    }
  }
}
