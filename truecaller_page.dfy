/**
 * The caller-ID lookup page (src/app/truecaller-osint/page.tsx): its scan
 * handler only refuses an empty input, and additionally demands a `data`
 * field in a successful reply.
 */
module TruecallerPage {
  import opened Wrappers
  import opened Js
  import opened Client
  import Http

  const EmptyInput: string := "Please enter a phone number."
  const FetchFallback: string := "Failed to fetch data from Truecaller service."
  const NoData: string := "No data found for this number in Truecaller."

  function Url(number: string): string
  {
    "/api/truecaller-osint?number=" + number
  }

  /** The fields a scan leaves behind; `null` stands for "not set". */
  datatype Settled = Settled(error: Option<string>, result: Json, raw: Json)

  /** What a scan of the input ends with, given the reply to its request. */
  function Outcome(input: string, server: string -> ServerReply): (s: Settled)
    ensures input == "" ==> s == Settled(Some(EmptyInput), Null, Null)
    ensures s.error.Some? <==> s.result == Null
    ensures s.error.Some? ==> s.error.value != ""
    ensures s.result != Null ==>
              && s.result == s.raw
              && server(Url(input)).Received? && Http.IsOk(server(Url(input)).status)
              && server(Url(input)).body == Parsed(s.result)
              && !Truthy(Field(s.result, "error")) && Truthy(Field(s.result, "data"))
    ensures input != "" && server(Url(input)).Received? && server(Url(input)).body.Parsed? ==>
              var status, data := server(Url(input)).status, server(Url(input)).body.json;
              && s.raw == data
              && (match Rejection(Http.IsOk(status), data, FetchFallback)
                  case Some(m) => s.error == Some(Shown(m))
                  case None => s.error == if Truthy(Field(data, "data")) then None else Some(NoData))
  {
    if input == "" then Settled(Some(EmptyInput), Null, Null)
    else
      match server(Url(input))
      case FetchFailed(m) => Settled(Some(Shown(m)), Null, Null)
      case Received(_, Malformed(m)) => Settled(Some(Shown(m)), Null, Null)
      case Received(status, Parsed(data)) =>
        match Rejection(Http.IsOk(status), data, FetchFallback)
        case Some(m) => Settled(Some(Shown(m)), Null, data)
        case None =>
          if !Truthy(Field(data, "data")) then Settled(Some(NoData), Null, data) else Settled(None, data, data)
  }

  /** The page's state. */
  class Page {
    var truecallerInput: string
    var truecallerResult: Json
    var rawTruecallerResult: Json
    var truecallerLoading: bool
    var truecallerError: Option<string>
    /** The state shown while each request is awaited. */
    ghost var waiting: seq<(bool, Settled)>

    constructor ()
      ensures truecallerInput == "" && truecallerResult == Null && rawTruecallerResult == Null
      ensures !truecallerLoading && truecallerError == None && waiting == []
    {
      truecallerInput := "";
      truecallerResult := Null;
      rawTruecallerResult := Null;
      truecallerLoading := false;
      truecallerError := None;
      waiting := [];
    }

    method SetInput(text: string)
      modifies this`truecallerInput
      ensures truecallerInput == text
    {
      truecallerInput := text;
    }

    /** `handleTruecallerScan`; returns the URLs it requested. */
    method HandleScan(server: string -> ServerReply) returns (requested: seq<string>)
      modifies this`truecallerResult, this`rawTruecallerResult, this`truecallerLoading, this`truecallerError, this`waiting
      ensures Settled(truecallerError, truecallerResult, rawTruecallerResult) == Outcome(truecallerInput, server)
      ensures !truecallerLoading
      ensures requested == if truecallerInput == "" then [] else [Url(truecallerInput)]
      ensures waiting == old(waiting) + if requested == [] then [] else [(true, Settled(None, Null, Null))]
    {
      truecallerLoading := true;
      truecallerError := None;
      truecallerResult := Null;
      rawTruecallerResult := Null;

      if truecallerInput == "" {
        truecallerError := Some(EmptyInput);
        truecallerLoading := false;
        return [];
      }

      waiting := waiting + [(truecallerLoading, Settled(truecallerError, truecallerResult, rawTruecallerResult))];
      requested := [Url(truecallerInput)];
      match server(Url(truecallerInput)) {
        case FetchFailed(m) =>
          truecallerError := Some(Shown(m));
        case Received(_, Malformed(m)) =>
          truecallerError := Some(Shown(m));
        case Received(status, Parsed(data)) =>
          rawTruecallerResult := data;
          match Rejection(Http.IsOk(status), data, FetchFallback) {
            case Some(m) =>
              truecallerError := Some(Shown(m));
            case None =>
              if !Truthy(Field(data, "data")) {
                truecallerError := Some(NoData);
              } else {
                truecallerResult := data;
              }
          }
      }
      truecallerLoading := false;
    }
  }
}
