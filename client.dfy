/**
 * What the page components share: the reply their own API route gives a
 * `fetch` from the browser, the check `!response.ok || data.error` and the
 * message a `catch` block shows.
 */
module Client {
  import opened Wrappers
  import opened Js
  import Http

  /** The body of a reply as `await response.json()` gives it, or the message it throws. */
  datatype Body = Parsed(json: Json) | Malformed(message: string)

  /** `await fetch(url)` from the page: it rejects with a message, or replies. */
  datatype ServerReply = FetchFailed(message: string) | Received(status: int, body: Body)

  const Unexpected: string := "An unexpected error occurred."

  /** `error.message || 'An unexpected error occurred.'` */
  function Shown(message: string): (r: string)
    ensures r != ""
    ensures message != "" ==> r == message
    ensures message == "" ==> r == Unexpected
  {
    if message == "" then Unexpected else message
  }

  /** The message of the error `new Error(v)` gives, or of the TypeError converting v throws. */
  function ErrorMessage(v: Json): string
  {
    match ToText(v)
    case Normal(s) => s
    case Throw(m) => m
  }

  /**
   * `if (!response.ok || data.error) throw new Error(data.error || fallback)`:
   * None when the check passes, else the message of what is thrown (a
   * TypeError when data is `null`).
   */
  function Rejection(ok: bool, data: Json, fallback: string): (r: Option<string>)
    requires fallback != ""
    ensures r.None? <==> !data.Null? && ok && !Truthy(Field(data, "error"))
    ensures data.Null? ==> r == Some(ReadError("null", "error"))
    ensures !data.Null? && r.Some? && !Truthy(Field(data, "error")) ==> r == Some(fallback)
    ensures !data.Null? && Truthy(Field(data, "error")) && Field(data, "error").json.Str? ==>
              r == Some(Field(data, "error").json.s)
  {
    match Read(Def(data), "error")
    case Throw(m) => Some(m)
    case Normal(e) =>
      if ok && !Truthy(e) then None else Some(ErrorMessage(Or(e, Str(fallback))))
  }

  /**
   * A route's `{ error: [] }` passes the check as an error, but the empty
   * array's text is empty, so the page shows the generic message.
   */
  lemma EmptyArrayErrorShowsUnexpected(ok: bool)
    ensures Rejection(ok, Obj(map["error" := Arr([])]), "x") == Some("")
    ensures Shown("") == Unexpected
  {
    assert Field(Obj(map["error" := Arr([])]), "error") == Def(Arr([]));
    EmptyArrayText();
  }

  /** `input.startsWith('@') ? input.substring(1) : input`: one leading '@' is dropped. */
  function Username(input: string): (u: string)
    ensures |input| > 0 && input[0] == '@' ==> input == "@" + u
    ensures (|input| == 0 || input[0] != '@') ==> u == input
  {
    if |input| > 0 && input[0] == '@' then input[1..] else input
  }

  /** Only the first '@' goes: "@@x" becomes "@x", and the username is empty only for "" and "@". */
  lemma UsernameStripsOnce(x: string)
    ensures Username("@" + x) == x
    ensures Username("@@" + x) == "@" + x
    ensures forall input: string :: Username(input) == "" <==> input == "" || input == "@"
  {
    assert ("@@" + x)[1..] == "@" + x;
    forall input: string
      ensures Username(input) == "" <==> input == "" || input == "@"
    {
      if |input| > 0 && input[0] == '@' && |input| == 1 {
        assert input == "@";
      }
    }
  }

  /** The reply a page receives for a route's response. */
  function FromRoute(r: Http.Response): ServerReply
  {
    Received(r.status, Parsed(r.body))
  }
}
