# cyberia: lookup proxies, scan handlers and the cipher tool

cyberia is a Next.js site with a set of OSINT lookups. Each lookup has two halves:

- **A server route** (`/api/phone-osint`, `/api/bin-osint`, `/api/ifsc-osint`, `/api/aadhaar-osint`, `/api/truecaller-osint`, `/api/insta-osint`, `/api/insta-posts`).
  - It checks its query parameter and asks one upstream service.
  - It maps the upstream status and body to a JSON response.
  - Some routes also reshape the body: they delete fields, demand a field, or replace image URLs with `data:` URIs.
- **A page component** with a `handle*Scan` handler.
  - It validates the input on its own terms and calls its route.
  - It sets its loading, error, result and raw-result state step by step.

A cipher tool encodes text as base64 of its UTF-8 bytes and decodes it back.

This project models all of that in Dafny.

- **JavaScript values.** Parsed JSON is a `Json` datatype. The model includes:
  - truthiness;
  - property reads, which throw on `null`;
  - `String(v)` as `new Error(v)` and `fetch(v)` apply it;
  - `.length`.
- **Routes (`*Route`).** Each route is a function from its query parameter and an abstract upstream outcome to an `Exchange`. An `Exchange` holds the response and the URLs requested, in order. The upstream outcome is a network failure, or a status, a text body and the body parsed as JSON if it parses.
  - The image download is an oracle, `string -> ImageFetch`.
  - The per-post loop of the posts route is a `method` with a `while` loop.
- **Pages (`*Page`, `OsintTools`).** Each page component is a `class` with the component's state fields.
  - Its handler is a `method` proved to reach the state described by a specification function (`Outcome`). The properties are proved about that function.
  - The page's own route is an abstract `server: string -> ServerReply` function of the requested URL.
  - A ghost history, `waiting`, records the state shown while each request is awaited: loading, with everything cleared.
- **Regular expressions.** The validators' regular expressions are terms of a small reference matcher (`Regex.Matches`). Each hand-written check is proved equivalent to its pattern.
- **Cipher tool.**
  - A JavaScript string is a sequence of UTF-16 code units, so lone surrogates are representable.
  - `encodeURIComponent`/`unescape` is UTF-8 encoding (section 3 of RFC 3629).
  - `btoa`/`atob` is base64 (section 4 of RFC 4648). `atob` follows the WHATWG forgiving-base64 decode: it drops ASCII whitespace, accepts missing padding and ignores non-zero trailing bits.

Behaviour of the code that the model keeps, where intuition says otherwise:

- **IFSC route.** It validates the upper-cased code but sends the code as typed (`src/app/api/ifsc-osint/route.ts:22`).
  - `String.prototype.toUpperCase` can lengthen a string. So "ßin0001234", ten characters long, passes the eleven-character IFSC pattern as "SSIN0001234" (`Scenarios.SharpSIfscAccepted`).
- **Routes and pages check different things, with different messages.**
  - Only the Aadhaar page refuses an empty `memberDetailsList`.
  - Only the truecaller page demands `data`.
- **`null` bodies.** A 2xx upstream body that is JSON `null` makes reading a property throw, so those routes answer 500.
  - The IFSC and phone routes do not read it that way: IFSC returns `null` with 200. The phone route's `delete` on `null` throws, which also gives 500.
  - A page whose route answers `null` shows the `TypeError` text "Cannot read properties of null (reading 'error')".
- **Upstream statuses the `Response` constructor refuses.** These are statuses outside 200..599, and 204, 205 and 304. A route that passes such a status through throws inside its `try` and answers 500 (the Fetch standard's `Response` constructor).
- **Error values.** A page's `new Error(data.error || …)` applies `String` to any JSON value.
  - `{ error: [] }` is truthy but has the empty text, so the page shows "An unexpected error occurred." (`Client.EmptyArrayErrorShowsUnexpected`).
- **Posts route.** It starts every post's image request before any completes, so a `null` post still lets all the other requests happen. The route then answers 500.

## Model

| member | source | states |
|---|---|---|
| Js.Read | src/app/api/bin-osint/route.ts:26 | reading a property throws exactly on null and undefined; otherwise it is the object's own value, or undefined |
| Js.LengthIsZero | src/app/aadhaar-osint/page.tsx:59 | `.length === 0` throws exactly on null/undefined; for an array or string it is emptiness |
| Js.Or | src/app/api/bin-osint/route.ts:26 | `a \|\| b` is a when a is truthy, else b |
| Js.ToText | src/app/truecaller-osint/page.tsx:72 | `String(v)` of a string is itself; of a boolean, number or null a non-empty text |
| Js.EmptyArrayText | src/app/truecaller-osint/page.tsx:72 | an empty array is truthy yet converts to the empty text |
| Http.NewResponse | src/app/api/bin-osint/route.ts:26-29 | the constructor succeeds exactly for a constructible status, with that status and body |
| Http.Caught | src/app/api/bin-osint/route.ts:45-51 | a thrown error becomes 500 with the route's internal message; a response passes unchanged |
| Http.UpstreamError | src/app/api/bin-osint/route.ts:24-30 | non-2xx: the status passes through with `errorData[key] \|\| fallback`; an unparsable body stands for `{[key]: invalid}`; null body or unconstructible status throws |
| Client.Shown | src/app/aadhaar-osint/page.tsx:64 | the shown message is never empty: the error's message, or the generic text when it is empty |
| Client.Rejection | src/app/aadhaar-osint/page.tsx:56-57 | the check passes iff the reply is ok, the body is not null and `error` is falsy; otherwise the message is the error text, the fallback, or the null-read TypeError |
| Client.EmptyArrayErrorShowsUnexpected | src/app/aadhaar-osint/page.tsx:56-64 | `{ error: [] }` is rejected with the empty message, shown as the generic text |
| Client.Username | src/app/insta-osint/page.tsx:63 | exactly one leading '@' is dropped |
| Client.UsernameStripsOnce | src/app/insta-osint/page.tsx:63-65 | "@x" gives x, "@@x" gives "@x", and the username is empty only for "" and "@" |
| Regex.SingleTerm | src/app/api/bin-osint/route.ts:14 | one repetition term matches s iff its length is within the bounds and every character is in the class |
| Regex.Split | src/app/api/truecaller-osint/route.ts:33 | a pattern matches iff some admissible prefix matches its first term and the rest matches the remainder |
| Regex.FixedThree | src/app/api/ifsc-osint/route.ts:14 | a string matching three fixed-width terms has their total length, and each of its three consecutive slices lies in its term's class |
| Validation.DigitPattern | src/app/api/bin-osint/route.ts:14 | `^\d{lo,hi}$` matches iff the text is lo..hi ASCII digits |
| Validation.TenDigitsPattern | src/app/api/phone-osint/route.ts:16 | `^\d{10}$` matches iff the text is exactly ten ASCII digits |
| Validation.TwelveDigitsPattern | src/app/api/aadhaar-osint/route.ts:14 | `^\d{12}$` matches iff the text is exactly twelve ASCII digits |
| Validation.SixToEightDigitsPattern | src/app/api/bin-osint/route.ts:14 | `^\d{6,8}$` matches iff the text is 6, 7 or 8 ASCII digits |
| Validation.IntlPhonePattern | src/app/api/truecaller-osint/route.ts:33 | `^\+?\d{10,15}$` matches iff at most one leading '+' precedes 10 to 15 ASCII digits |
| Validation.IfscPattern | src/app/api/ifsc-osint/route.ts:14 | the IFSC pattern matches the upper-cased text iff it is four letters, '0', six letters or digits |
| Validation.UpperOf | src/app/api/ifsc-osint/route.ts:14 | upper-casing maps ASCII a-z to A-Z, keeps other ASCII, and never shortens |
| Validation.ToUpperCase | src/app/api/ifsc-osint/route.ts:14 | upper-casing never shortens the text |
| PhoneRoute.StripCredits | src/app/api/phone-osint/route.ts:43-44 | deleting throws exactly on null; an object loses `credit` and `developer` and keeps every other key and value; other values are unchanged |
| PhoneRoute.StripIdempotent | src/app/api/phone-osint/route.ts:43-44 | stripping a stripped body changes nothing |
| PhoneRoute.Proxy | src/app/api/phone-osint/route.ts:25-60 | non-2xx: that status with the fixed failure message whatever the body; status 200 iff a 2xx non-null JSON body, which is the stripped upstream body; any throw is 500 with the internal message |
| PhoneRoute.Get | src/app/api/phone-osint/route.ts:7-26 | missing number: 400 "Phone number is required"; not ten digits: 400 with the format message; the upstream is asked iff the number is ten digits |
| BinRoute.Proxy | src/app/api/bin-osint/route.ts:21-51 | non-2xx passes through with `message` or the fallback; a 2xx body without a truthy `Scheme` is 404 "No data found for this BIN."; status 200 iff delivered with `Scheme`, body unchanged; throws give 500 |
| BinRoute.Get | src/app/api/bin-osint/route.ts:7-22 | missing: 400 "BIN is required"; the upstream is asked iff the BIN is 6 to 8 digits, else 400 with the format message |
| IfscRoute.Proxy | src/app/api/ifsc-osint/route.ts:21-50 | 404 is always "No data found for this IFSC code."; other non-2xx pass through with the text body or the fallback; status 200 iff a 2xx parsable body, returned unchanged; throws give 500 |
| IfscRoute.Get | src/app/api/ifsc-osint/route.ts:7-22 | missing: 400 "IFSC code is required"; asked iff the upper-cased code matches the pattern, and the request carries the code as given |
| AadhaarRoute.Proxy | src/app/api/aadhaar-osint/route.ts:21-51 | non-2xx passes through with `message` or the fallback; a 2xx body with a truthy `message` is 404 with that message; status 200 iff delivered without `message`, body unchanged; no member-list check |
| AadhaarRoute.Get | src/app/api/aadhaar-osint/route.ts:7-22 | missing: 400 "Aadhaar number is required"; the upstream is asked iff the number is twelve digits |
| Images.DataUri | src/app/api/truecaller-osint/route.ts:3-17 | a URI exactly when the image was fetched, starting with `data:<type>;base64,` and as long as the base64 of its bytes |
| Images.DataUriPayload | src/app/api/truecaller-osint/route.ts:12 | the payload after the prefix decodes back to the image's bytes |
| Images.Rewrite | src/app/api/insta-osint/route.ts:48-53 | a falsy field is left alone and nothing is fetched; a truthy one is fetched by its text and replaced only when a URI comes back |
| Images.RewriteOnlyTouchesKey | src/app/api/insta-posts/route.ts:47-52 | at most one request; the holder keeps its keys and every value but the rewritten key |
| Images.FailedFetchKeepsUrl | src/app/api/insta-posts/route.ts:6-9 | when no image can be fetched the holder is unchanged |
| TruecallerRoute.Proxy | src/app/api/truecaller-osint/route.ts:42-79 | non-2xx passes through with `message` or the fallback; a 2xx body without truthy `data` is returned as is; otherwise only `data.image` is rewritten; throws give 500 |
| TruecallerRoute.OnlyImageChanges | src/app/api/truecaller-osint/route.ts:58-65 | a delivered body comes back with 200 whatever the image fetch gives, and only `data.image` may differ |
| TruecallerRoute.Get | src/app/api/truecaller-osint/route.ts:23-44 | missing: 400 "Phone number is required"; asked iff the number matches `^\+?\d{10,15}$`, else 400 "Invalid phone number format." |
| InstaRoute.Proxy | src/app/api/insta-osint/route.ts:33-70 | non-2xx passes through with `error` (not `message`) or the fallback; a delivered body has only `profile_pic` rewritten, with 200; throws give 500 |
| InstaRoute.PictureNeverFails | src/app/api/insta-osint/route.ts:3-17 | a delivered body is answered 200 whatever the image fetch does, and unchanged when no image can be fetched |
| InstaRoute.Get | src/app/api/insta-osint/route.ts:24-34 | missing: 400 "Instagram username is required"; any other username, '@' included, is sent on unchanged |
| InstaPostsRoute.ProcessPosts | src/app/api/insta-posts/route.ts:46-56 | every post is processed in order into a list of the same length; the run throws iff some post is null; every image request is made |
| InstaPostsRoute.PostOnlyThumbnailChanges | src/app/api/insta-posts/route.ts:47-55 | a post keeps its keys and every value except `thumbnail_url`, `image_url` included |
| InstaPostsRoute.RejectedResponse | src/app/api/insta-posts/route.ts:35-41 | non-2xx passes through with `message`, else `error`, else "The external posts service failed."; an unparsable body counts as the invalid-response error |
| InstaPostsRoute.Get | src/app/api/insta-posts/route.ts:19-74 | missing: 400; a body without a `posts` array is returned unchanged; otherwise `posts` is replaced by the processed list and all other keys are kept, or 500 when a post is null |
| AadhaarPage.Outcome | src/app/aadhaar-osint/page.tsx:39-68 | invalid input: the 12-digit message and nothing else; exactly one of error and result is set; the ok/`error` check precedes the member-list check; an empty list gives the no-family message; raw is the body whenever it parsed |
| AadhaarPage.DisplayAddress | src/app/aadhaar-osint/page.tsx:132 | no '!' remains, and the text grows by one per '!' |
| AadhaarPage.DisplayWithoutBangs | src/app/aadhaar-osint/page.tsx:132 | an address without '!' is displayed as it is |
| AadhaarPage.DisplayAppend | src/app/aadhaar-osint/page.tsx:132 | the display of a concatenation is the concatenation of the displays |
| AadhaarPage.DisplayChar | src/app/aadhaar-osint/page.tsx:132 | a single '!' is displayed as ", " and any other single character as itself; with DisplayAppend this fixes the display of every address |
| AadhaarPage.DisplayBang | src/app/aadhaar-osint/page.tsx:132 | a '!' anywhere in an address is displayed as ", " between the displays of the text before and after it |
| AadhaarPage.Page.HandleScan | src/app/aadhaar-osint/page.tsx:39-68 | the fields end as Outcome says, loading false; a request is made iff the input is 12 digits, while everything shows cleared |
| TruecallerPage.Outcome | src/app/truecaller-osint/page.tsx:54-83 | empty input: the phone message, no format check; exactly one of error and result; a body without `data` gives the no-data message; raw is set for any parsed body |
| TruecallerPage.Page.HandleScan | src/app/truecaller-osint/page.tsx:54-83 | the fields end as Outcome says, loading false; a request is made iff the input is non-empty |
| BankPage.Outcome | src/app/bank-osint/page.tsx:35-61 | input not 6 to 8 digits: the BIN message; exactly one of error and result; raw is set for any parsed body, result only when the check passes |
| BankPage.Page.HandleScan | src/app/bank-osint/page.tsx:35-61 | the fields end as Outcome says, loading false; a request is made iff the input is 6 to 8 digits |
| PhonePage.Outcome | src/app/phone-osint/page.tsx:18-42 | input not ten digits: the phone message; raw is set iff no error, and only with a body that passed the check |
| PhonePage.Page.HandleScan | src/app/phone-osint/page.tsx:18-42 | the fields end as Outcome says, loading false; a request is made iff the input is ten digits |
| InstaPage.AfterProfile | src/app/insta-osint/page.tsx:80-90 | the profile stays; a posts reply rejected by status or `error` sets no error and no posts; only a null body, a failed fetch or an unparsable body sets an error |
| InstaPage.Outcome | src/app/insta-osint/page.tsx:55-94 | an empty username after one '@' is stripped gives the username message; a profile failure gives its message and no posts; a shown profile is the raw body that passed the check |
| InstaPage.Page.HandleScan | src/app/insta-osint/page.tsx:55-94 | the fields end as Outcome says, loading false; the profile is requested iff the username is non-empty and the posts iff a profile is shown |
| OsintTools.InstaRejection | src/components/osint-tools.tsx:86-91 | passes exactly when the shared check does; a truthy `message` wins over `error`; otherwise the shared check's message; a null body throws reading `message` or `error` depending on the status |
| OsintTools.MessageBeforeError | src/components/osint-tools.tsx:88-91 | with both `message` and `error` as text, a rejected reply shows `message` |
| OsintTools.PhoneOutcome | src/components/osint-tools.tsx:45-68 | input not ten digits: the phone message; exactly one of error and result; result only for a body that passed the check |
| OsintTools.InstaOutcome | src/components/osint-tools.tsx:70-99 | empty username after one '@': the username message; exactly one of error and result; the error follows InstaRejection |
| OsintTools.Panel.HandlePhoneScan | src/components/osint-tools.tsx:45-68 | the phone fields end as PhoneOutcome says, loading false; the Instagram fields are untouched |
| OsintTools.Panel.HandleInstaScan | src/components/osint-tools.tsx:70-99 | the Instagram fields end as InstaOutcome says, loading false; the phone fields are untouched |
| Utf16.DecodeEncode | src/components/cipher-tool.tsx:16 | reading the UTF-16 form of a text gives the text back |
| Utf16.EncodeDecode | src/components/cipher-tool.tsx:16 | code units that read as a text are that text's UTF-16 form |
| Utf16.DecodeFailsIffUnpaired | src/components/cipher-tool.tsx:16-19 | code units fail to read as text exactly when they hold an unpaired surrogate |
| Utf8.DecodeFirst | src/components/cipher-tool.tsx:26 | a decoded first character is exactly the UTF-8 encoding of the prefix it consumed |
| Utf8.DecodeEncode | src/components/cipher-tool.tsx:16 | UTF-8 decoding of an encoding returns the text |
| Utf8.EncodeDecode | src/components/cipher-tool.tsx:26 | bytes that decode are the encoding of what they decode to |
| Utf8.DecodeSucceedsIffEncoding | src/components/cipher-tool.tsx:26-29 | bytes decode exactly when they are the encoding of some text |
| Base64.Encode | src/components/cipher-tool.tsx:16 | the output is 4·⌈n/3⌉ characters from the base64 alphabet and '=' |
| Base64.DecodeSextetsOfSextets | src/components/cipher-tool.tsx:16-26 | the six-bit values that bytes are written as never leave a lone value in the last group, and they decode back to the bytes |
| Base64.ValuesOfDigits | src/components/cipher-tool.tsx:16-26 | the digits written for any six-bit values are base64 digits and read back as those values |
| Base64.DecodeDigitsOfEncoding | src/components/cipher-tool.tsx:26 | stripped of padding, an encoding is all digits, of a decodable length, and its digits give the bytes back |
| Base64.DecodeEncode | src/components/cipher-tool.tsx:16-26 | `atob(btoa(b))` is b |
| Base64.MissingPaddingAccepted | src/components/cipher-tool.tsx:26 | `atob` accepts "QQ" as well as "QQ==" |
| CipherTool.Encoded | src/components/cipher-tool.tsx:16-19 | encoding fails exactly on an unpaired surrogate; otherwise the output has the base64 length of the UTF-8 bytes and only base64 characters |
| CipherTool.Decoded | src/components/cipher-tool.tsx:26-29 | a decoded text has no unpaired surrogate and is the UTF-8 reading of the base64 bytes |
| CipherTool.DecodeEncodeText | src/components/cipher-tool.tsx:16-26 | decoding what was encoded gives back every well-formed text |
| CipherTool.DecodedFailure | src/components/cipher-tool.tsx:26-29 | decoding fails exactly when the input is not base64 or its bytes encode no text |
| CipherTool.DecodeIsLenient | src/components/cipher-tool.tsx:26 | "QQ" decodes to "A", which encodes to "QQ==", so encoding does not invert decoding |
| CipherTool.Cipher.HandleEncode | src/components/cipher-tool.tsx:13-21 | only the output changes: the encoding, or the encode-error message |
| CipherTool.Cipher.HandleDecode | src/components/cipher-tool.tsx:23-31 | only the output changes: the decoding, or the decode-error message |
| CipherTool.Cipher.HandleSwap | src/components/cipher-tool.tsx:33-36 | the two text areas trade contents |
| CipherTool.EncodeSwapDecode | src/components/cipher-tool.tsx:13-36 | typing a text, encoding, swapping and decoding shows the text again |
| CipherTool.SwapTwice | src/components/cipher-tool.tsx:33-36 | swapping twice restores both areas |
| Scenarios.AadhaarMessageReachesPage | src/app/api/aadhaar-osint/route.ts:34-39 | a 2xx body's `message` becomes a route 404 and is what the page shows |
| Scenarios.EmptyMembersOnlyRefusedByPage | src/app/aadhaar-osint/page.tsx:59-60 | the route answers an empty member list with 200; the page shows the no-family message |
| Scenarios.ShortBinRefusedTwice | src/app/bank-osint/page.tsx:41-45 | a five-digit BIN is refused by the page before any request, and by the route with a different message |
| Scenarios.IfscFetchedAsTyped | src/app/api/ifsc-osint/route.ts:14-22 | the route fetches exactly when the text is an IFSC code once upper-cased, and then with the text as typed |
| Scenarios.LowerCaseIfscSentAsTyped | src/app/api/ifsc-osint/route.ts:14-22 | a lower-case code is accepted and sent as typed |
| Scenarios.SharpSIfscAccepted | src/app/api/ifsc-osint/route.ts:14-22 | a ten-character code with 'ß' passes the eleven-character pattern |

## Left out

- Real HTTP is not modelled: no sockets, headers, or `fetch` of a relative URL. The upstream is an input and a page's server is a function of the URL. Parsing the page's query string back into the route's parameter is not modelled; the scenarios pass the parameter directly.
- Concurrency is not modelled. The posts route's `Promise.all` is a sequential, order-preserving loop (`InstaPostsRoute.ProcessPosts`). React's batching of state updates is not modelled either: each `set*` call is an assignment in order.
- `console.error` output is not modelled. The JSX rendering, styling and locale-dependent `toLocaleString` formatting are not modelled.
- How `imageToDataUri` downloads the image and finds its type is not modelled. The fetch is an oracle giving a non-2xx reply, a failure, or bytes with a MIME type.
- JSON numbers are the integers a double holds exactly. Fractions, exponents and the text `JSON.stringify` prints are not modelled. Neither are object key order (objects are maps) or lone surrogates inside JSON strings.
- The text body and the JSON body of an upstream reply are independent inputs. The model does not derive one from the other. A `.text()` or `.json()` read that fails for reasons other than the body, such as a dropped connection, is not modelled.
- Engine-specific error texts: the message `JSON.parse` throws is a placeholder. The `TypeError` texts are V8's.
- Validation.UpperOf: only the characters whose upper case is made entirely of ASCII letters are mapped: a-z, dotless i, long s, sharp s, and the ligatures U+FB00 to U+FB06. Every other character is kept as it is. Its real upper case is itself or contains a character outside A-Z and 0-9 (U+0149 gives U+02BC and N, U+01F0 gives J and U+030C), so the IFSC check decides the same.
- src/app/postal-osint/page.tsx, src/app/cipher/page.tsx, the generative-image action and the contact form are not part of this model.
