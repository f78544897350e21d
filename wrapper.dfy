/**
  The default export of the module: normalises its argument into a request
  configuration (updating the caller's object in place), marks the request
  with the X-Requested-With header, always asks the transport for text, and
  then either checks the JSON envelope of a successful reply or hands a
  failed exchange to processError.
 */
module AjaxWrapper {
  import opened Wrappers
  import opened JsonValues
  import opened Classifier

  const MarkerHeader: string := "X-Requested-With"
  const MarkerValue: string := "XmlHttpRequest"

  /** A request configuration object; the wrapper updates the caller's object in place. */
  class Config {
    var url: string
    /** None when the `headers` property is absent or falsy. */
    var headers: Option<map<string, string>>
    /** None when `responseType` is absent. */
    var responseType: Option<string>
    /** Every other transport option (method, body, timeout, ...), passed through untouched. */
    var options: map<string, Json>

    constructor (url: string, headers: Option<map<string, string>>, responseType: Option<string>, options: map<string, Json>)
      ensures this.url == url && this.headers == headers
      ensures this.responseType == responseType && this.options == options
    {
      this.url := url;
      this.headers := headers;
      this.responseType := responseType;
      this.options := options;
    }

    /** After normalisation the headers exist and carry the marker. */
    predicate Marked()
      reads this
    {
      headers.Some? && MarkerHeader in headers.value && headers.value[MarkerHeader] == MarkerValue
    }
  }

  /** What the caller passed, by its JavaScript type. */
  datatype Arg =
    | Url(url: string)      // typeof opts === "string"
    | Object(config: Config) // typeof opts === "object", not null
    | Null                   // typeof null === "object" too
    | Other                  // number, boolean, undefined, function, ...

  /** The synchronous failures: `new Error("unsupported call")`, and the TypeError of reading `headers` of null. */
  datatype UsageError = UnsupportedCall | NullHeaders

  /** The headers object the wrapper starts from: the caller's, or a new empty one. */
  function HeadersOrEmpty(headers: Option<map<string, string>>): map<string, string>
  {
    match headers
    case Some(h) => h
    case None => map[]
  }

  /** `headers["X-Requested-With"] = "XmlHttpRequest"`: the marker is set and every other header is kept as it was. */
  function WithMarker(headers: map<string, string>): (h: map<string, string>)
    ensures MarkerHeader in h && h[MarkerHeader] == MarkerValue
    ensures forall k :: k != MarkerHeader ==> (k in h <==> k in headers)
    ensures forall k :: k in headers && k != MarkerHeader ==> h[k] == headers[k]
  {
    headers[MarkerHeader := MarkerValue]
  }

  /**
    Lines 5-8: a string becomes `{url}`, an object is used (and updated) as it
    is, anything else fails synchronously; then the headers are created if
    needed and marked.
   */
  method Normalize(arg: Arg) returns (r: Result<Config, UsageError>)
    modifies if arg.Object? then {arg.config} else {}
    ensures arg.Url? ==> && r.Success? && fresh(r.value)
                         && r.value.url == arg.url && r.value.headers == Some(WithMarker(map[]))
                         && r.value.responseType == None && r.value.options == map[]
    ensures arg.Object? ==> && r == Success(arg.config)
                            && arg.config.url == old(arg.config.url)
                            && arg.config.headers == Some(WithMarker(HeadersOrEmpty(old(arg.config.headers))))
                            && arg.config.responseType == old(arg.config.responseType)
                            && arg.config.options == old(arg.config.options)
    ensures arg.Null? ==> r == Failure(NullHeaders)
    ensures arg.Other? ==> r == Failure(UnsupportedCall)
    ensures r.Success? ==> r.value.Marked()
  {
    var opts: Config;
    match arg {
      case Url(u) =>
        opts := new Config(u, None, None, map[]);
      case Object(c) =>
        opts := c;
      case Null =>
        return Failure(NullHeaders);
      case Other =>
        return Failure(UnsupportedCall);
    }
    if opts.headers.None? {
      opts.headers := Some(map[]);
    }
    opts.headers := Some(WithMarker(opts.headers.value));
    return Success(opts);
  }

  /** The object handed to the transport: `{ ...opts, responseType: "text" }`. */
  datatype Request = Request(url: string, headers: map<string, string>, responseType: string, options: map<string, Json>)

  /** Line 10: every field comes from the normalised configuration except the response type, which is always "text". */
  function Outgoing(c: Config): (q: Request)
    reads c
    requires c.Marked()
    ensures q.responseType == "text"
    ensures q.url == c.url && q.headers == c.headers.value && q.options == c.options
    ensures MarkerHeader in q.headers && q.headers[MarkerHeader] == MarkerValue
  {
    Request(c.url, c.headers.value, "text", c.options)
  }

  /** What the transport reports: a completed exchange with its body, or a failure with the xhr's status and text. */
  datatype Reply<C> = Delivered(text: string) | Failed(status: int, text: string, cause: C)

  /** The response object the transport emits; the map step may attach `responseJSON` to it. */
  class Response {
    const responseText: string
    var responseJSON: Option<Json>

    constructor (text: string)
      ensures responseText == text && responseJSON == None
    {
      responseText := text;
      responseJSON := None;
    }
  }

  /**
    How the returned stream fails: with processError's result, with the
    envelope error thrown in the map step (message and raw text), with
    JSON.parse's SyntaxError, or with the TypeError of reading `status` of null.
   */
  datatype StreamError<C> =
    | Classified(error: AjaxError<C>)
    | Rejected(rejection: AjaxError<string>)
    | SyntaxError
    | NullStatus

  /** The error thrown when the envelope's `status` is not "ok": a fixed message, the raw text, no kind. */
  function EnvelopeError(text: string): AjaxError<string>
  {
    AjaxError(JString("Oups something went wrong"), text, None)
  }

  /**
    Lines 15-18: parse the body, then require `json["status"] === "ok"`. Only
    the exact string "ok" passes; a missing field, another string or any other
    value is rejected with the raw text.
   */
  function EnvelopeCheck<C>(parsed: Option<Json>, text: string): (r: Result<Json, StreamError<C>>)
    ensures r.Success? <==> parsed.Some? && Field(parsed.value, "status") == Some(JString("ok"))
    ensures r.Success? ==> r.value == parsed.value
    ensures parsed.None? ==> r == Failure(SyntaxError)
    ensures parsed == Some(JNull) ==> r == Failure(NullStatus)
    ensures parsed.Some? && parsed.value != JNull && r.Failure? ==> r == Failure(Rejected(EnvelopeError(text)))
  {
    if parsed.None? then Failure(SyntaxError)
    else if parsed.value == JNull then Failure(NullStatus)
    else if Field(parsed.value, "status") == Some(JString("ok")) then Success(parsed.value)
    else Failure(Rejected(EnvelopeError(text)))
  }

  /**
    Lines 12-21, the map step. With responseType "json" the body must pass the
    envelope check, and the parsed value is attached as `responseJSON`; with any
    other responseType the response passes through unchanged.
   */
  method CheckResponse<C>(responseType: Option<string>, res: Response, parse: string -> Option<Json>)
    returns (r: Result<Response, StreamError<C>>)
    modifies res
    ensures responseType != Some("json") ==> r == Success(res) && res.responseJSON == old(res.responseJSON)
    ensures responseType == Some("json") ==>
      match EnvelopeCheck<C>(parse(res.responseText), res.responseText)
      case Success(json) => r == Success(res) && res.responseJSON == Some(json)
      case Failure(e) => r == Failure(e) && res.responseJSON == old(res.responseJSON)
  {
    if responseType == Some("json") {
      var checked := EnvelopeCheck<C>(parse(res.responseText), res.responseText);
      match checked {
        case Success(json) =>
          res.responseJSON := Some(json);
          r := Success(res);
        case Failure(e) =>
          r := Failure(e);
      }
    } else {
      r := Success(res);
    }
  }

  /** What a call produces: a synchronous throw, or the stream's single value or single error. */
  datatype Outcome<C> = Thrown(usage: UsageError) | Emitted(response: Response) | Errored(failure: StreamError<C>)

  /**
    The whole wrapper. `transport` stands for the HTTP exchange; `sent` is the
    request it was handed, if any. A failed exchange goes through processError
    (catchError comes first in the pipe); a failure raised by the map step does
    not.
   */
  method Ajax<C>(arg: Arg, online: bool, parse: string -> Option<Json>, transport: Request -> Reply<C>)
    returns (r: Outcome<C>, ghost sent: Option<Request>)
    modifies if arg.Object? then {arg.config} else {}
    ensures r.Thrown? <==> arg.Null? || arg.Other?
    ensures r.Thrown? ==> sent.None? && r.usage == (if arg.Null? then NullHeaders else UnsupportedCall)
    ensures arg.Url? ==> sent == Some(Request(arg.url, WithMarker(map[]), "text", map[]))
    ensures arg.Object? ==> sent == Some(Request(old(arg.config.url), WithMarker(HeadersOrEmpty(old(arg.config.headers))),
                                                 "text", old(arg.config.options)))
    ensures arg.Object? ==> && arg.config.url == old(arg.config.url)
                            && arg.config.headers == Some(WithMarker(HeadersOrEmpty(old(arg.config.headers))))
                            && arg.config.responseType == old(arg.config.responseType)
                            && arg.config.options == old(arg.config.options)
                            && arg.config.Marked()
    ensures sent.Some? ==>
      match transport(sent.value)
      case Failed(status, text, cause) =>
        r == Errored(Classified(ProcessError(status, text, online, cause, parse)))
      case Delivered(text) =>
        var requested := if arg.Object? then old(arg.config.responseType) else None;
        if requested == Some("json") then
          match EnvelopeCheck<C>(parse(text), text)
          case Success(json) => r.Emitted? && fresh(r.response) && r.response.responseText == text
                                && r.response.responseJSON == Some(json)
          case Failure(e) => r == Errored(e)
        else
          r.Emitted? && fresh(r.response) && r.response.responseText == text && r.response.responseJSON == None
  {
    var normalized := Normalize(arg);
    if normalized.Failure? {
      return Thrown(normalized.error), None;
    }
    var opts := normalized.value;
    var request := Outgoing(opts);
    sent := Some(request);
    match transport(request) {
      case Failed(status, text, cause) =>
        r := Errored(Classified(ProcessError(status, text, online, cause, parse)));
      case Delivered(text) =>
        var res := new Response(text);
        var checked := CheckResponse<C>(opts.responseType, res, parse);
        match checked {
          case Success(out) => r := Emitted(out);
          case Failure(e) => r := Errored(e);
        }
    }
  }

  /** `{"status":"ok","data":1}` passes the envelope check and becomes `responseJSON`. */
  lemma EnvelopeAccepts<C>(text: string, data: Json)
    ensures var body := JObject(map["status" := JString("ok"), "data" := data]);
      EnvelopeCheck<C>(Some(body), text) == Success(body)
  {
  }

  /** `{"status":"fail"}` is rejected, carrying the raw text. */
  lemma EnvelopeRejects<C>(text: string)
    ensures EnvelopeCheck<C>(Some(JObject(map["status" := JString("fail")])), text) == Failure(Rejected(EnvelopeError(text)))
  {
  }
}
