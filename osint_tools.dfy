/**
 * The landing page's tool panel (src/components/osint-tools.tsx): a phone
 * scan and an Instagram profile scan, each with its own loading, error and
 * result state. Its Instagram check prefers a body `message` to `error`.
 */
module OsintTools {
  import opened Wrappers
  import opened Js
  import opened Validation
  import opened Client
  import Regex
  import Http

  const InvalidPhone: string := "Please enter a valid 10-digit phone number."
  const EmptyUsername: string := "Please enter an Instagram username."
  const FetchFallback: string := "Failed to fetch data from the server."

  function PhoneUrl(number: string): string
  {
    "/api/phone-osint?number=" + number
  }

  function InstaUrl(username: string): string
  {
    "/api/insta-osint?username=" + username
  }

  /** The error and result fields a scan leaves behind; `null` stands for "not set". */
  datatype Settled = Settled(error: Option<string>, result: Json)

  /**
   * `if (!response.ok || data.error) { if (data.message) throw new Error(data.message);
   * throw new Error(data.error || fallback) }`: None when the check passes,
   * else the message of what is thrown.
   */
  function InstaRejection(ok: bool, data: Json): (r: Option<string>)
    ensures r.None? <==> Rejection(ok, data, FetchFallback).None?
    ensures data.Null? ==> r == Some(ReadError("null", if ok then "error" else "message"))
    ensures !data.Null? && r.Some? && Truthy(Field(data, "message")) ==> r == Some(ErrorMessage(Field(data, "message").json))
    ensures !data.Null? && !Truthy(Field(data, "message")) ==> r == Rejection(ok, data, FetchFallback)
  {
    if data.Null? then
      // `!response.ok` short-circuits past `data.error` to `data.message`.
      Some(ReadError("null", if ok then "error" else "message"))
    else if ok && !Truthy(Field(data, "error")) then None
    else if Truthy(Field(data, "message")) then Some(ErrorMessage(Field(data, "message").json))
    else Some(ErrorMessage(Or(Field(data, "error"), Str(FetchFallback))))
  }

  /** `message` wins over `error` when the reply is rejected and both are text. */
  lemma MessageBeforeError(ok: bool, message: string, error: string)
    requires message != ""
    ensures InstaRejection(ok, Obj(map["message" := Str(message), "error" := Str(error)])) ==
            if ok && error == "" then None else Some(message)
  {
    var data := Obj(map["message" := Str(message), "error" := Str(error)]);
    assert Field(data, "message") == Def(Str(message));
    assert Field(data, "error") == Def(Str(error));
  }

  /** What a phone scan ends with. */
  function PhoneOutcome(input: string, server: string -> ServerReply): (s: Settled)
    ensures !Regex.Matches(Regex.TenDigits, input) ==> s == Settled(Some(InvalidPhone), Null)
    ensures s.error.Some? <==> s.result == Null
    ensures s.error.Some? ==> s.error.value != ""
    ensures s.result != Null ==>
              && server(PhoneUrl(input)).Received? && Http.IsOk(server(PhoneUrl(input)).status)
              && server(PhoneUrl(input)).body == Parsed(s.result)
              && !Truthy(Field(s.result, "error"))
    ensures Regex.Matches(Regex.TenDigits, input) && server(PhoneUrl(input)).Received? && server(PhoneUrl(input)).body.Parsed? ==>
              var status, data := server(PhoneUrl(input)).status, server(PhoneUrl(input)).body.json;
              match Rejection(Http.IsOk(status), data, FetchFallback)
              case Some(m) => s == Settled(Some(Shown(m)), Null)
              case None => s == Settled(None, data)
  {
    TenDigitsPattern(input);
    if !DigitsBetween(input, 10, 10) then Settled(Some(InvalidPhone), Null)
    else
      match server(PhoneUrl(input))
      case FetchFailed(m) => Settled(Some(Shown(m)), Null)
      case Received(_, Malformed(m)) => Settled(Some(Shown(m)), Null)
      case Received(status, Parsed(data)) =>
        match Rejection(Http.IsOk(status), data, FetchFallback)
        case Some(m) => Settled(Some(Shown(m)), Null)
        case None => Settled(None, data)
  }

  /** What an Instagram scan ends with. */
  function InstaOutcome(input: string, server: string -> ServerReply): (s: Settled)
    ensures Username(input) == "" ==> s == Settled(Some(EmptyUsername), Null)
    ensures s.error.Some? <==> s.result == Null
    ensures s.error.Some? ==> s.error.value != ""
    ensures s.result != Null ==>
              && server(InstaUrl(Username(input))).Received? && Http.IsOk(server(InstaUrl(Username(input))).status)
              && server(InstaUrl(Username(input))).body == Parsed(s.result)
              && !Truthy(Field(s.result, "error"))
    ensures Username(input) != "" && server(InstaUrl(Username(input))).Received?
            && server(InstaUrl(Username(input))).body.Parsed? ==>
              var status, data := server(InstaUrl(Username(input))).status, server(InstaUrl(Username(input))).body.json;
              match InstaRejection(Http.IsOk(status), data)
              case Some(m) => s == Settled(Some(Shown(m)), Null)
              case None => s == Settled(None, data)
  {
    var username := Username(input);
    if username == "" then Settled(Some(EmptyUsername), Null)
    else
      match server(InstaUrl(username))
      case FetchFailed(m) => Settled(Some(Shown(m)), Null)
      case Received(_, Malformed(m)) => Settled(Some(Shown(m)), Null)
      case Received(status, Parsed(data)) =>
        match InstaRejection(Http.IsOk(status), data)
        case Some(m) => Settled(Some(Shown(m)), Null)
        case None => Settled(None, data)
  }

  /** The panel's state. */
  class Panel {
    var phoneInput: string
    var phoneResult: Json
    var phoneLoading: bool
    var phoneError: Option<string>
    var instaInput: string
    var instaResult: Json
    var instaLoading: bool
    var instaError: Option<string>

    constructor ()
      ensures phoneInput == "" && phoneResult == Null && !phoneLoading && phoneError == None
      ensures instaInput == "" && instaResult == Null && !instaLoading && instaError == None
    {
      phoneInput := "";
      phoneResult := Null;
      phoneLoading := false;
      phoneError := None;
      instaInput := "";
      instaResult := Null;
      instaLoading := false;
      instaError := None;
    }

    method SetPhoneInput(text: string)
      modifies this`phoneInput
      ensures phoneInput == text
    {
      phoneInput := text;
    }

    method SetInstaInput(text: string)
      modifies this`instaInput
      ensures instaInput == text
    {
      instaInput := text;
    }

    /** `handlePhoneScan`; returns the URLs it requested. The Instagram state is untouched. */
    method HandlePhoneScan(server: string -> ServerReply) returns (requested: seq<string>)
      modifies this`phoneResult, this`phoneLoading, this`phoneError
      ensures Settled(phoneError, phoneResult) == PhoneOutcome(phoneInput, server)
      ensures !phoneLoading
      ensures requested == if DigitsBetween(phoneInput, 10, 10) then [PhoneUrl(phoneInput)] else []
    {
      phoneLoading := true;
      phoneError := None;
      phoneResult := Null;

      if !DigitsBetween(phoneInput, 10, 10) {
        phoneError := Some(InvalidPhone);
        phoneLoading := false;
        return [];
      }

      requested := [PhoneUrl(phoneInput)];
      match server(PhoneUrl(phoneInput)) {
        case FetchFailed(m) =>
          phoneError := Some(Shown(m));
        case Received(_, Malformed(m)) =>
          phoneError := Some(Shown(m));
        case Received(status, Parsed(data)) =>
          match Rejection(Http.IsOk(status), data, FetchFallback) {
            case Some(m) =>
              phoneError := Some(Shown(m));
            case None =>
              phoneResult := data;
          }
      }
      phoneLoading := false;
    }

    /** `handleInstaScan`; returns the URLs it requested. The phone state is untouched. */
    method HandleInstaScan(server: string -> ServerReply) returns (requested: seq<string>)
      modifies this`instaResult, this`instaLoading, this`instaError
      ensures Settled(instaError, instaResult) == InstaOutcome(instaInput, server)
      ensures !instaLoading
      ensures requested == if Username(instaInput) == "" then [] else [InstaUrl(Username(instaInput))]
    {
      instaLoading := true;
      instaError := None;
      instaResult := Null;

      var username := Username(instaInput);
      if username == "" {
        instaError := Some(EmptyUsername);
        instaLoading := false;
        return [];
      }

      requested := [InstaUrl(username)];
      match server(InstaUrl(username)) {
        case FetchFailed(m) =>
          instaError := Some(Shown(m));
        case Received(_, Malformed(m)) =>
          instaError := Some(Shown(m));
        case Received(status, Parsed(data)) =>
          match InstaRejection(Http.IsOk(status), data) {
            case Some(m) =>
              instaError := Some(Shown(m));
            case None =>
              instaResult := data;
          }
      }
      instaLoading := false;
    }
  }
}
