/**
  processError: turns a failed exchange (HTTP status, response text, the
  browser's online flag and the transport's own error) into one AjaxError.
 */
module Classifier {
  import opened Wrappers
  import opened JsonValues
  import opened Fallback

  /** The kind tags the classifier attaches. */
  datatype Kind =
    | NoInternet
    | InternalServerError
    | Unauthorized
    | Forbidden
    | PayloadTooLarge
    | BadGateway
    | UnknownPath
    | Conflict

  /** The tag string each kind carries on the error object. */
  function Tag(k: Kind): string
  {
    match k
    case NoInternet => "NO_INTERNET"
    case InternalServerError => "INTERNAL_SERVER_ERROR"
    case Unauthorized => "Unauthorized"
    case Forbidden => "FORBIDDEN"
    case PayloadTooLarge => "PAYLOAD_TOO_LARGE"
    case BadGateway => "BAD_GATEWAY"
    case UnknownPath => "UNKNOWN_PATH"
    case Conflict => "CONFLICT"
  }

  /** Distinct kinds carry distinct tags. */
  lemma TagInjective(k1: Kind, k2: Kind)
    requires Tag(k1) == Tag(k2)
    ensures k1 == k2
  {
  }

  /**
    An AjaxError: a message, the underlying cause kept only for diagnostics, and
    an optional kind. The message is a JSON value because a parsed `message`
    member is passed on as it is, whatever its type.
   */
  datatype AjaxError<C> = AjaxError(message: Json, cause: C, kind: Option<Kind>)

  /**
    The `response` object of processError, from what JSON.parse made of the body
    (None when it throws) and the fallback synthesised from the raw text: the
    parsed value when it is truthy, `{message: "empty response"}` when it is
    falsy, `{message: fallback}` when the body does not parse. It is never
    falsy, so reading `response.message` cannot throw.
   */
  function ResponseOf(parsed: Option<Json>, fallback: string): (response: Json)
    ensures Truthy(response)
    ensures parsed.Some? && Truthy(parsed.value) ==> response == parsed.value
    ensures parsed.Some? && !Truthy(parsed.value) ==> Field(response, "message") == Some(JString("empty response"))
    ensures parsed.None? ==> Field(response, "message") == Some(JString(fallback))
  {
    match parsed
    case None => JObject(map["message" := JString(fallback)])
    case Some(v) => if Truthy(v) then v else JObject(map["message" := JString("empty response")])
  }

  /** `response.message || null`, with None for null. */
  function MessageOf(response: Json): (m: Option<Json>)
    ensures m.Some? ==> Truthy(m.value) && Field(response, "message") == m
    ensures m.None? ==> Field(response, "message").None? || !Truthy(Field(response, "message").value)
  {
    match Field(response, "message")
    case Some(v) => if Truthy(v) then Some(v) else None
    case None => None
  }

  /** `message || literal`. */
  function OrElse(message: Option<Json>, literal: string): Json
  {
    match message
    case Some(v) => v
    case None => JString(literal)
  }

  /** The statuses whose kind is fixed and whose message is `message || literal`, with that literal. */
  const FixedCases: map<int, (Kind, string)> := map[
    500 := (InternalServerError, "Oups something went wrong with our servers"),
    401 := (Unauthorized, "Authentication error"),
    403 := (Forbidden, "You can't do that"),
    413 := (PayloadTooLarge, "Payload too large"),
    502 := (BadGateway, "The destination is acting weird")
  ]

  /** The statuses the switch names. */
  predicate Handled(status: int) {
    status in FixedCases || status == 409 || status == 0
  }

  /**
    The switch of processError over an already built `response`. The offline
    check comes first, then the status cases; status 0 looks at the raw text,
    not at `response`.
   */
  function Classify<C>(status: int, text: string, online: bool, cause: C, response: Json): (e: AjaxError<C>)
    ensures e.cause == cause
    ensures Truthy(e.message)
    ensures e.kind.None? <==> online && !Handled(status)
  {
    var message := MessageOf(response);
    if !online then
      AjaxError(JString("Connection Lost"), cause, Some(NoInternet))
    else if status == 500 then
      AjaxError(OrElse(message, "Oups something went wrong with our servers"), cause, Some(InternalServerError))
    else if status == 401 then
      AjaxError(OrElse(message, "Authentication error"), cause, Some(Unauthorized))
    else if status == 403 then
      AjaxError(OrElse(message, "You can't do that"), cause, Some(Forbidden))
    else if status == 413 then
      AjaxError(OrElse(message, "Payload too large"), cause, Some(PayloadTooLarge))
    else if status == 502 then
      AjaxError(OrElse(message, "The destination is acting weird"), cause, Some(BadGateway))
    else if status == 409 then
      match Field(response, "error_summary")
      case Some(summary) =>
        if Truthy(summary) then AjaxError(JString("Doesn't exist"), cause, Some(UnknownPath))
        else AjaxError(OrElse(message, "Oups you just ran into a conflict"), cause, Some(Conflict))
      case None => AjaxError(OrElse(message, "Oups you just ran into a conflict"), cause, Some(Conflict))
    else if status == 0 then
      if text == "" then
        AjaxError(JString("Service unavailable, if the problem persist, contact your administrator"),
                  cause, Some(InternalServerError))
      else
        AjaxError(JString(text), cause, Some(InternalServerError))
    else
      AjaxError(OrElse(message, "Oups something went wrong"), cause, None)
  }

  /**
    processError: the response object built from the body, then the switch.
    Total, so classification never throws, for any parser.
   */
  function ProcessError<C>(status: int, text: string, online: bool, cause: C,
                           parse: string -> Option<Json>): (e: AjaxError<C>)
    ensures e.cause == cause
    ensures Truthy(e.message)
    ensures e.kind.None? <==> online && !Handled(status)
  {
    Classify(status, text, online, cause, ResponseOf(parse(text), FallbackMessage(text)))
  }

  /** Offline, every status and every response yields ("Connection Lost", NO_INTERNET). */
  lemma Offline<C>(status: int, text: string, cause: C, response: Json)
    ensures Classify(status, text, false, cause, response) == AjaxError(JString("Connection Lost"), cause, Some(NoInternet))
  {
  }

  /** Online, 500, 401, 403, 413 and 502 have a fixed kind and fall back to their own literal. */
  lemma FixedKind<C>(status: int, text: string, cause: C, response: Json)
    requires status in FixedCases
    ensures Classify(status, text, true, cause, response)
         == AjaxError(OrElse(MessageOf(response), FixedCases[status].1), cause, Some(FixedCases[status].0))
  {
  }

  /** Online 409 with a truthy `error_summary` is UNKNOWN_PATH whatever `message` says. */
  lemma ConflictUnknownPath<C>(text: string, cause: C, response: Json)
    requires Field(response, "error_summary").Some? && Truthy(Field(response, "error_summary").value)
    ensures Classify(409, text, true, cause, response) == AjaxError(JString("Doesn't exist"), cause, Some(UnknownPath))
  {
  }

  /** Online 409 without a truthy `error_summary` is CONFLICT with `message` or the conflict literal. */
  lemma ConflictOtherwise<C>(text: string, cause: C, response: Json)
    requires Field(response, "error_summary").None? || !Truthy(Field(response, "error_summary").value)
    ensures Classify(409, text, true, cause, response)
         == AjaxError(OrElse(MessageOf(response), "Oups you just ran into a conflict"), cause, Some(Conflict))
  {
  }

  /** Online status 0 is INTERNAL_SERVER_ERROR; the message is the unavailable literal or the raw body itself. */
  lemma StatusZero<C>(text: string, cause: C, response: Json)
    ensures Classify(0, text, true, cause, response).kind == Some(InternalServerError)
    ensures text == "" ==> Classify(0, text, true, cause, response).message
                           == JString("Service unavailable, if the problem persist, contact your administrator")
    ensures text != "" ==> Classify(0, text, true, cause, response).message == JString(text)
  {
  }

  /** Any other status, online, has no kind and the message `message || "Oups something went wrong"`. */
  lemma OtherStatus<C>(status: int, text: string, cause: C, response: Json)
    requires !Handled(status)
    ensures Classify(status, text, true, cause, response)
         == AjaxError(OrElse(MessageOf(response), "Oups something went wrong"), cause, None)
  {
  }

  /** A body that parses to a falsy value gives the message "empty response". */
  lemma FalsyBody(v: Json, fallback: string)
    requires !Truthy(v)
    ensures MessageOf(ResponseOf(Some(v), fallback)) == Some(JString("empty response"))
  {
  }

  /** An unparsable body gives the synthesised fallback, or nothing when that is empty. */
  lemma UnparsableBody(fallback: string)
    ensures MessageOf(ResponseOf(None, fallback)) == if fallback == "" then None else Some(JString(fallback))
  {
  }

  /** A parsed, truthy body contributes its own `message` member when that is truthy, and nothing otherwise. */
  lemma ParsedBody(v: Json, fallback: string)
    requires Truthy(v)
    ensures MessageOf(ResponseOf(Some(v), fallback))
         == if v.JObject? && "message" in v.fields && Truthy(v.fields["message"]) then Some(v.fields["message"]) else None
  {
  }

  /**
    End to end: a 500 whose body is an HTML page that does not parse as JSON
    is reported with the page's deduplicated text lines as its message.
   */
  lemma HtmlErrorPage<C>(a: string, b: string, cause: C, parse: string -> Option<Json>)
    requires PlainLine(a) && PlainLine(b) && a != b
    requires parse(Paragraph(a) + "\n" + Paragraph(a) + "\n" + Paragraph(b)) == None
    ensures ProcessError(500, Paragraph(a) + "\n" + Paragraph(a) + "\n" + Paragraph(b), true, cause, parse)
         == AjaxError(JString(a + " " + b), cause, Some(InternalServerError))
  {
    RepeatedParagraphs(a, b);
  }
}
