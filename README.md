# filestash `ajax` helper, modelled in Dafny

The front end of filestash sends its HTTP calls through one helper, the default
export of `public/lib/ajax.js`. The helper:

- accepts a URL string or a request configuration object;
- marks the request with `X-Requested-With: XmlHttpRequest`;
- always asks the transport for a text response;
- on a successful exchange whose caller asked for `responseType: "json"`, parses
  the body and insists on the envelope `{"status": "ok", ...}`, attaching the
  parsed value to the response as `responseJSON`;
- on a failed exchange, turns the XHR into one `AjaxError` through
  `processError`.

`processError` builds a `response` object from the body. A body that parses is
used as it is, or replaced by `{message: "empty response"}` when it parses to a
falsy value. A body that does not parse (typically an HTML error page) yields a
synthesised message:

1. strip every `<...>` tag;
2. collapse the first run of two or more newlines (the pattern has no global
   flag, so later runs stay);
3. trim;
4. split into lines;
5. drop repeated lines, keeping first occurrences;
6. join the lines with spaces.

It then switches on the browser's online flag and the HTTP status to pick a
message and a kind tag.

Modules:

- `Wrappers`: `Option` and `Result`.
- `JsonValues`: parsed JSON values, JavaScript truthiness, and property lookup
  on a parsed value.
- `Seqs`: `indexOf`, `split` on one separator, `join`, and first-occurrence
  de-duplication (`Array.from(new Set(xs))`), with their round trips and a
  characterisation of de-duplication that determines it uniquely.
- `Fallback`: the text pipeline for an unparsable body (tag stripping,
  first-run newline collapse, ECMAScript `trim`, lines, de-duplication, join).
- `Classifier`: the `response` object, the `message`-or-null step and the
  status switch of `processError`.
- `AjaxWrapper`: the exported function, in imperative form.
  - A `Config` class is updated in place, like the caller's object.
  - A `Response` class receives `responseJSON`.
  - The transport is a function parameter from the outgoing `Request` to a
    `Reply`.

`JSON.parse` is a parameter (`parse: string -> Option<Json>`, with `None` when
it throws), and so is `navigator.onLine` (`online`). Every property proved holds
for every parser and every transport.

Where the behaviour is subtle, the model follows the code:

- "empty response" appears only when the body parses to a falsy JSON value
  (`null`, `false`, `0`, `""`). An unparsable body whose synthesised text is
  empty gives `message` null, so the status literal is used instead.
- Status 0 with a non-empty body reports the raw body text, not the parsed or
  synthesised message.
- A status-409 body with a truthy `error_summary` is `UNKNOWN_PATH` whatever
  its `message`.
- The offline check comes before the status switch, so offline always wins.
- A failure raised by the envelope check on the success path is not passed
  through `processError`, because `catchError` precedes `map` in the pipe.
- A `null` argument passes the `typeof opts !== "object"` guard and then fails
  when its `headers` are read. The model represents that as a second
  synchronous failure, `NullHeaders`.

## Model

| member | source | states |
|---|---|---|
| JsonValues.FalsyValues | public/lib/ajax.js:41 | the values a logical-or fallback skips are exactly null, false, 0 and "" |
| Seqs.Split | public/lib/ajax.js:37 | `split` always yields at least one piece and no piece contains the separator |
| Seqs.JoinSplit | public/lib/ajax.js:37-38 | joining the pieces of a split with the separator restores the text |
| Seqs.SplitJoin | public/lib/ajax.js:37-38 | splitting a join of separator-free pieces restores the pieces |
| Seqs.DedupSpec | public/lib/ajax.js:33 | the Set-based de-duplication has no repeats, keeps every element, and lists them in order of first occurrence |
| Seqs.DedupUnique | public/lib/ajax.js:33 | any listing with those three properties is the de-duplication, so they characterise it completely |
| Fallback.StripTagsAbsent | public/lib/ajax.js:34 | tag removal introduces no character that was not in the text |
| Fallback.StripTagsNoTag | public/lib/ajax.js:34 | after removal no `<` is followed by a `>`, so the tag pattern matches nothing more |
| Fallback.StripTagsFixpoint | public/lib/ajax.js:34 | removal leaves a text unchanged exactly when it holds no complete tag |
| Fallback.CollapseFirstNoRun | public/lib/ajax.js:35 | a text without two adjacent newlines is unchanged by the collapse |
| Fallback.CollapseFirstRun | public/lib/ajax.js:35 | the first maximal run of two or more newlines becomes one newline and everything after it is kept verbatim |
| Fallback.TrimStart | public/lib/ajax.js:36 | the result is a suffix, only whitespace was removed, and it does not start with whitespace |
| Fallback.TrimEnd | public/lib/ajax.js:36 | the result is a prefix, only whitespace was removed, and it does not end with whitespace |
| Fallback.TrimUnique | public/lib/ajax.js:36 | whitespace of either side around a core that neither starts nor ends with whitespace trims to exactly that core |
| Fallback.TrimSpec | public/lib/ajax.js:36 | the text is the trimmed text with only whitespace before and after it |
| Fallback.TrimEnds | public/lib/ajax.js:36 | the trimmed text neither starts nor ends with ECMAScript whitespace |
| Fallback.FallbackMessage | public/lib/ajax.js:33-38 | the synthesised message is a single line: no newline survives the split and the join with spaces |
| Fallback.FallbackLinesSpec | public/lib/ajax.js:33-38 | the message's lines are the cleaned text's lines without repeats, all of them, in first-occurrence order, none containing a newline |
| Fallback.RepeatedParagraphs | public/lib/ajax.js:32-39 | an HTML page of paragraphs `a`, `a`, `b` on three lines yields the message `a b` |
| Fallback.FallbackExample | public/lib/ajax.js:32-39 | the page `<p>A</p>`, `<p>A</p>`, `<p>B</p>` yields `A B` |
| Classifier.TagInjective | public/lib/ajax.js:47-100 | the kind tags are pairwise distinct |
| Classifier.Classify | public/lib/ajax.js:46-101 | the error keeps the cause, its message is always truthy, and it has no kind exactly when online with a status outside 500, 401, 403, 413, 502, 409, 0 |
| Classifier.ProcessError | public/lib/ajax.js:26-102 | the same, for every body and every parser: processError never fails and always yields a usable message |
| Classifier.Offline | public/lib/ajax.js:46-48 | offline, any status and body gives "Connection Lost" with NO_INTERNET |
| Classifier.FixedKind | public/lib/ajax.js:50-76 | online 500, 401, 403, 413, 502 give their own kind, and the message or else their own literal |
| Classifier.ConflictUnknownPath | public/lib/ajax.js:77-83 | online 409 with a truthy `error_summary` gives "Doesn't exist" with UNKNOWN_PATH |
| Classifier.ConflictOtherwise | public/lib/ajax.js:84-87 | online 409 otherwise gives CONFLICT with the message or the conflict literal |
| Classifier.StatusZero | public/lib/ajax.js:88-98 | online status 0 is INTERNAL_SERVER_ERROR, with the unavailable literal for an empty body and the raw body otherwise |
| Classifier.OtherStatus | public/lib/ajax.js:99-100 | any other status online gives no kind and the message or "Oups something went wrong" |
| Classifier.ResponseOf | public/lib/ajax.js:27-42 | the `response` object is never falsy, so reading its `message` cannot throw; a truthy parse is used as it is, a falsy parse carries "empty response", an unparsable body carries the synthesised text |
| Classifier.FalsyBody | public/lib/ajax.js:41-44 | a body parsing to a falsy value yields the message "empty response" |
| Classifier.UnparsableBody | public/lib/ajax.js:29-44 | an unparsable body yields the synthesised text as message, or null when that text is empty |
| Classifier.ParsedBody | public/lib/ajax.js:28-44 | a truthy parsed body contributes its own truthy `message` member and nothing else |
| Classifier.HtmlErrorPage | public/lib/ajax.js:26-53 | a 500 whose body is an unparsable page of repeated paragraphs reports their de-duplicated text with INTERNAL_SERVER_ERROR |
| AjaxWrapper.WithMarker | public/lib/ajax.js:8 | the marker header is set and every other header is kept with its value |
| AjaxWrapper.Normalize | public/lib/ajax.js:5-8 | a string becomes a fresh `{url}`; an object is updated in place with only its headers changed (created if falsy, then marked); null and non-objects fail; the result is always marked |
| AjaxWrapper.Outgoing | public/lib/ajax.js:10 | the transport request is the configuration with response type forced to "text", carrying the marker |
| AjaxWrapper.EnvelopeCheck | public/lib/ajax.js:15-18 | the body passes exactly when it parses and its `status` is the string "ok"; unparsable bodies give SyntaxError, `null` a TypeError, any other the fixed error with the raw text |
| AjaxWrapper.CheckResponse | public/lib/ajax.js:12-22 | with responseType "json" the response gains `responseJSON` on a valid envelope and the stream fails otherwise; other response types pass the response through untouched |
| AjaxWrapper.Ajax | public/lib/ajax.js:4-24 | throws synchronously exactly for null and non-object arguments without sending; otherwise sends the normalised request, leaves the caller's object with only its headers changed (created if falsy, then marked), classifies transport failures with processError, and applies the envelope check to successes according to the caller's `responseType` |
| AjaxWrapper.EnvelopeAccepts | public/lib/ajax.js:15-19 | `{"status":"ok","data":...}` passes and becomes `responseJSON` |
| AjaxWrapper.EnvelopeRejects | public/lib/ajax.js:15-18 | `{"status":"fail"}` is rejected with the fixed message and the raw text |

## Left out

- The rxjs plumbing (`ajax`, `pipe`, `catchError`, `throwError`, `map`) and the
  network are not modelled as streams. A call yields one `Outcome`: a
  synchronous throw, the emitted response, or the stream's error. The transport
  is a function parameter.
- `JSON.parse` is not modelled. It is a parameter returning `None` when it
  throws, and the JSON grammar is not part of this model.
- `navigator.onLine` is a boolean parameter. The comparison `=== false` is taken
  to see only `true` or `false`.
- Every transport failure is taken to carry an `xhr` with a status and a
  response text. A failure without `err.xhr` would make `processError` throw a
  TypeError inside `catchError`; `Reply.Failed` cannot express it.
- A configuration object is taken to have a string `url` (`Config.url`); a
  missing or non-string `url` is passed to the transport as it is, and what the
  transport makes of it is not modelled.
- The `AjaxError` class of `public/lib/error.js` is not part of this model. Its
  three constructor arguments are recorded as the fields of a datatype.
- AjaxWrapper.Normalize: a truthy `headers` value that is not an object cannot
  be expressed. In strict mode, assigning the marker to a primitive would throw;
  `Config.headers` admits only a map or nothing.
- AjaxWrapper.Normalize: the caller's headers object is mutated in place, so an
  alias held elsewhere sees the marker. This aliasing is not captured, because
  the model reassigns the `headers` field with the marked map.
- AjaxWrapper.Ajax: the transport sees a shallow copy of the configuration. Its
  `responseType` is read again when the reply arrives (line 14). A caller who
  changes the object in between is not modelled; the wrapper reads the value
  left by normalisation.
- The constant `isJson` (line 9) is never read, and the `break` statements after
  `return` are unreachable. Neither changes behaviour, so neither appears.
- Classifier.Classify: a parsed `message` that is truthy but not a string (a
  number, an object) is kept as a JSON value. How `AjaxError` would render it
  is not modelled.
- Fallback.FallbackExample: a literal input is stated through variables bound
  by its precondition, then proved through `RepeatedParagraphs`.
