/** `fetchWithAuth` (src/script.js:17-63): the headers of every API request,
    and how an HTTP reply becomes either data or an error message. The
    transport itself is not modelled; a reply is an input. */
module Api {
  import opened Wrappers
  import opened JsText

  // ---------------------------------------------------------------------
  // request headers

  /** `token` as a JavaScript condition: held and not the empty string
      (`null` and `undefined` are both `None`). */
  predicate TokenHeld(token: Option<string>) {
    token.Some? && token.value != ""
  }

  datatype Headers = Headers(contentType: string, authorization: Option<string>)

  const JsonType := "application/json"

  /** The headers sent with every request: always the JSON content type,
      whatever the body, and a bearer token whenever one is held. */
  function RequestHeaders(token: Option<string>): Headers {
    Headers(JsonType, if TokenHeld(token) then Some("Bearer " + token.value) else None)
  }

  /** The Authorization header is present exactly when a token is held, and
      then carries that token; Content-Type never varies. */
  lemma AuthorizationIffToken(token: Option<string>)
    ensures RequestHeaders(token).authorization.Some? <==> TokenHeld(token)
    ensures TokenHeld(token) ==> RequestHeaders(token).authorization == Some("Bearer " + token.value)
    ensures RequestHeaders(token).contentType == JsonType
  {
  }

  // ---------------------------------------------------------------------
  // replies

  /** What `res.json()` produces: a parse failure, or a value of the
      expected shape together with its `message` field when that is a
      string. */
  datatype JsonBody<T> = NotJson | Json(payload: T, message: Option<string>)

  /** The outcome of `fetch`: a rejection with its error message, or an HTTP
      reply with its status, its `content-length` header and its body. */
  datatype Reply<T> =
    | NetworkFailure(reason: string)
    | HttpReply(status: int, contentLength: Option<string>, body: JsonBody<T>)

  /** What a successful call returns: `{}`, or the parsed body. */
  datatype Data<T> = EmptyObject | Value(value: T)

  /** The outcome of `fetchWithAuth`: data, or an `Error` with a message
      (which has also been handed to `showError`). */
  datatype Fetched<T> = Fetched(data: Data<T>) | Failed(message: string)

  /** `res.ok`. */
  predicate IsOk(status: int) {
    200 <= status <= 299
  }

  const UnauthorizedMessage := "Incorrect login or password"
  // Written in pieces of at most 16 characters: the verifier reasons about
  // the characters of a short literal, but not of one this long.
  const NotFoundMessage := "Make sure that a" + "n account with t" + "his login exists"
  const InternalErrorMessage := "Internal server error"

  /** The error message for a status that is not OK. */
  function StatusMessage<T>(status: int, body: JsonBody<T>): string {
    if status == 401 then UnauthorizedMessage
    else if status == 404 then NotFoundMessage
    else if status == 500 then InternalErrorMessage
    else if body.Json? && body.message.Some? && body.message.value != "" then body.message.value
    else "Error " + NumberString(status)
  }

  /** The call's outcome for a reply. */
  function Classify<T>(reply: Reply<T>): (r: Fetched<T>)
    ensures r.Failed? <==> (reply.NetworkFailure? || !IsOk(reply.status))
  {
    match reply
    case NetworkFailure(reason) => Failed(reason)
    case HttpReply(status, contentLength, body) =>
      if !IsOk(status) then Failed(StatusMessage(status, body))
      else if status == 204 || contentLength == Some("0") then Fetched(EmptyObject)
      else if body.NotJson? then Fetched(EmptyObject)
      else Fetched(Value(body.payload))
  }

  /** 401, 404 and 500 have fixed messages whatever the body says. */
  lemma FixedStatusMessages<T>(status: int, contentLength: Option<string>, body: JsonBody<T>)
    ensures status == 401 ==> Classify(HttpReply(status, contentLength, body)) == Failed(UnauthorizedMessage)
    ensures status == 404 ==> Classify(HttpReply(status, contentLength, body)) == Failed(NotFoundMessage)
    ensures status == 500 ==> Classify(HttpReply(status, contentLength, body)) == Failed(InternalErrorMessage)
  {
  }

  /** Any other failing status reports the body's non-empty `message`, and
      otherwise (including an unparseable body) `Error <status>`, which
      names the status in decimal. */
  lemma OtherStatusMessage<T>(status: nat, contentLength: Option<string>, body: JsonBody<T>)
    requires !IsOk(status) && status != 401 && status != 404 && status != 500
    ensures var r := Classify(HttpReply(status, contentLength, body));
      r.Failed? &&
      (if body.Json? && body.message.Some? && body.message.value != "" then r.message == body.message.value
       else r.message == "Error " + DecimalString(status) && Contains(r.message, DecimalString(status)))
  {
    var digits := DecimalString(status);
    ContainsSelf(digits);
    ContainsInContext("Error ", digits, "", digits);
    assert "Error " + digits + "" == "Error " + digits;
  }

  /** The 404 message does not mention 404 (it contains no '4' at all). */
  lemma NotFoundMessageHidesStatus()
    ensures !Contains(NotFoundMessage, "404")
  {
    MissingFirstChar(NotFoundMessage, "404");
  }

  /** A success that is a 204, declares length 0, or does not parse gives
      `{}` and never an error. */
  lemma EmptySuccessIsEmptyObject<T>(status: int, contentLength: Option<string>, body: JsonBody<T>)
    requires IsOk(status)
    requires status == 204 || contentLength == Some("0") || body.NotJson?
    ensures Classify(HttpReply(status, contentLength, body)) == Fetched(EmptyObject)
  {
  }

  /** Any other success gives exactly the parsed body. */
  lemma ParsedSuccess<T>(status: int, contentLength: Option<string>, payload: T, message: Option<string>)
    requires IsOk(status) && status != 204 && contentLength != Some("0")
    ensures Classify(HttpReply(status, contentLength, Json(payload, message))) == Fetched(Value(payload))
  {
  }
}
