/**
 * `HttpWebRequest` (src/http-web-request.ts): one request over an XMLHttpRequest-like
 * transport. The transport is not an object here: what the engine reads from it (readyState,
 * status, the header block, the content-type header, the response bytes, the progress
 * counters) arrives as the arguments of the signal methods, and what the engine asks of it
 * is appended to `transportLog`. Firing an event appends a record to the ghost `events` log,
 * and the promise of `sendAsync` is the `settled` field, which only its first resolution sets.
 */
module HttpWebRequests {
  import opened Wrappers
  import opened JsValues
  import opened JsStrings
  import opened MathUtilities
  import opened ObjectUtilities
  import opened Http
  import opened SeqLemmas

  const ContentTypeHeader := "content-type"
  const JsonContentType := "application/json"

  // ---------------------------------------------------------------------------------------
  // Response header folding
  // ---------------------------------------------------------------------------------------

  /** The values a stored header holds: none, its one string, or its array. */
  function HeaderValues(v: Option<HeaderValue>): seq<string> {
    match v
    case None => []
    case Some(Single(x)) => [x]
    case Some(Multiple(xs)) => xs
  }

  /** How a header seen with these values (in arrival order) is stored: a string for one, an array for more. */
  function StoredHeaderValue(values: seq<string>): Option<HeaderValue> {
    if values == [] then None
    else if |values| == 1 then Some(Single(values[0]))
    else Some(Multiple(values))
  }

  /** Every array the folder builds holds at least two values. */
  predicate WellShaped(h: ResponseHeaders) {
    forall k :: k in h.values && h.values[k].Multiple? ==> |h.values[k].values| >= 2
  }

  /**
   * One field line of the header block: the text before its first colon and the trimmed
   * text after it; None for a line without a colon.
   */
  function FieldLine(line: string): Option<(string, string)> {
    var indexOfColon := IndexOfChar(line, ':');
    if indexOfColon == -1 then None
    else Some((line[..indexOfColon], Trim(line[indexOfColon + 1..])))
  }

  /** A line is skipped exactly when it has no colon; otherwise it is split at its first colon and the value trimmed. */
  lemma FieldLineSplit(line: string)
    ensures FieldLine(line).None? <==> ':' !in line
    ensures FieldLine(line).Some? ==>
              exists i :: 0 <= i < |line| && line[i] == ':' && ':' !in line[..i] &&
                          FieldLine(line).value == (line[..i], Trim(line[i + 1..]))
  {
    IndexOfCharSpec(line, ':');
  }

  /** One step of the folder: a first value is stored as a string, a second makes an array, later ones are appended. */
  function AddHeaderValue(h: ResponseHeaders, name: string, value: string): ResponseHeaders {
    match h.Get(name)
    case None => h.Put(name, Single(value))
    case Some(Multiple(values)) => h.Put(name, Multiple(values + [value]))
    case Some(Single(previous)) => h.Put(name, Multiple([previous, value]))
  }

  /** One field line's effect on the map: a line without a colon changes nothing. */
  function HeaderStep(h: ResponseHeaders, line: string): ResponseHeaders {
    match FieldLine(line)
    case None => h
    case Some((name, value)) => AddHeaderValue(h, name, value)
  }

  /** The folder over the field lines, in order. */
  function FoldHeaderLines(h: ResponseHeaders, lines: seq<string>): ResponseHeaders
    decreases |lines|
  {
    if lines == [] then h else FoldHeaderLines(HeaderStep(h, lines[0]), lines[1..])
  }

  /** `getAllResponseHeaders().trim().split(/[\r\n]+/)` */
  function HeaderLines(allHeaders: string): seq<string> {
    SplitLines(Trim(allHeaders))
  }

  /** The header map `_parseResponseHeaders` builds from the header block. */
  function ParseHeaderBlock(allHeaders: string): ResponseHeaders {
    FoldHeaderLines(EmptyDict(), HeaderLines(allHeaders))
  }

  /** The value one field line gives `name`, if it is a line for `name`. */
  function LineValues(line: string, name: string): seq<string> {
    match FieldLine(line)
    case Some((n, v)) => if n == name then [v] else []
    case None => []
  }

  /** Reference definition: the values the field lines give `name`, in arrival order. */
  function FieldValues(lines: seq<string>, name: string): seq<string>
    decreases |lines|
  {
    if lines == [] then [] else LineValues(lines[0], name) + FieldValues(lines[1..], name)
  }

  /** A value is among a name's field values exactly when some line carries that name and value. */
  lemma {:induction false} FieldValuesMembers(lines: seq<string>, name: string, value: string)
    ensures value in FieldValues(lines, name) <==> exists i :: 0 <= i < |lines| && FieldLine(lines[i]) == Some((name, value))
    decreases |lines|
  {
    if lines != [] {
      var rest := lines[1..];
      FieldValuesMembers(rest, name, value);
      assert value in LineValues(lines[0], name) <==> FieldLine(lines[0]) == Some((name, value));
      assert FieldValues(lines, name) == LineValues(lines[0], name) + FieldValues(rest, name);
      if value in FieldValues(rest, name) {
        var i :| 0 <= i < |rest| && FieldLine(rest[i]) == Some((name, value));
        assert rest[i] == lines[i + 1];
      }
      if exists i :: 0 <= i < |lines| && FieldLine(lines[i]) == Some((name, value)) {
        var i :| 0 <= i < |lines| && FieldLine(lines[i]) == Some((name, value));
        if i > 0 {
          assert rest[i - 1] == lines[i];
        }
      }
    }
  }

  /** Storing and reading back the values of a well-shaped entry gives the entry. */
  lemma StoredHeaderValueRoundTrip(v: Option<HeaderValue>)
    requires v.Some? && v.value.Multiple? ==> |v.value.values| >= 2
    ensures StoredHeaderValue(HeaderValues(v)) == v
  {
  }

  /** One folder step keeps the map well shaped and well formed. */
  lemma AddHeaderValueShape(h: ResponseHeaders, name: string, value: string)
    requires WellShaped(h)
    ensures WellShaped(AddHeaderValue(h, name, value))
    ensures h.Valid() ==> AddHeaderValue(h, name, value).Valid()
  {
  }

  /** One folder step stores the name's values followed by the new one and leaves the other names alone. */
  lemma AddHeaderValueGet(h: ResponseHeaders, name: string, value: string, key: string)
    requires WellShaped(h)
    ensures HeaderValues(AddHeaderValue(h, name, value).Get(key))
              == HeaderValues(h.Get(key)) + (if key == name then [value] else [])
  {
  }

  /** One field line keeps the map well shaped and well formed. */
  lemma HeaderStepShape(h: ResponseHeaders, line: string)
    requires WellShaped(h)
    ensures WellShaped(HeaderStep(h, line))
    ensures h.Valid() ==> HeaderStep(h, line).Valid()
  {
    match FieldLine(line)
    case None =>
    case Some((name, value)) =>
      AddHeaderValueShape(h, name, value);
  }

  /** One field line adds its value to its own name's values and nothing else. */
  lemma HeaderStepGet(h: ResponseHeaders, line: string, key: string)
    requires WellShaped(h)
    ensures HeaderValues(HeaderStep(h, line).Get(key)) == HeaderValues(h.Get(key)) + LineValues(line, key)
  {
    match FieldLine(line)
    case None =>
      assert HeaderValues(h.Get(key)) + [] == HeaderValues(h.Get(key));
    case Some((name, value)) =>
      AddHeaderValueGet(h, name, value, key);
  }

  /** The folder keeps the map well shaped and well formed. */
  lemma {:induction false} FoldHeaderLinesShape(h: ResponseHeaders, lines: seq<string>)
    requires WellShaped(h)
    ensures WellShaped(FoldHeaderLines(h, lines))
    ensures h.Valid() ==> FoldHeaderLines(h, lines).Valid()
    decreases |lines|
  {
    if lines != [] {
      HeaderStepShape(h, lines[0]);
      FoldHeaderLinesShape(HeaderStep(h, lines[0]), lines[1..]);
    }
  }

  /** What the folder stores under `key`: the values it held, then the lines' values for `key`, in order. */
  lemma {:induction false} FoldHeaderLinesGet(h: ResponseHeaders, lines: seq<string>, key: string)
    requires WellShaped(h)
    ensures HeaderValues(FoldHeaderLines(h, lines).Get(key)) == HeaderValues(h.Get(key)) + FieldValues(lines, key)
    decreases |lines|
  {
    if lines == [] {
      assert HeaderValues(h.Get(key)) + [] == HeaderValues(h.Get(key));
    } else {
      var h1 := HeaderStep(h, lines[0]);
      HeaderStepShape(h, lines[0]);
      HeaderStepGet(h, lines[0], key);
      FoldHeaderLinesGet(h1, lines[1..], key);
      ConcatAssoc(HeaderValues(h.Get(key)), LineValues(lines[0], key), FieldValues(lines[1..], key));
    }
  }

  /** The body of the loop of `_parseResponseHeaders`: one field line folded into the map. */
  method AddResponseHeaderLine(headers: ResponseHeaders, responseHeader: string) returns (r: ResponseHeaders)
    ensures r == HeaderStep(headers, responseHeader)
  {
    var indexOfColon := IndexOfChar(responseHeader, ':');
    if indexOfColon == -1 {
      return headers;
    }
    var headerName := responseHeader[..indexOfColon];
    var headerValue := Trim(responseHeader[indexOfColon + 1..]);
    var previousHeaderValue := headers.Get(headerName);
    if previousHeaderValue.None? {
      return headers.Put(headerName, Single(headerValue));
    }
    if previousHeaderValue.value.Multiple? {
      return headers.Put(headerName, Multiple(previousHeaderValue.value.values + [headerValue]));
    }
    return headers.Put(headerName, Multiple([previousHeaderValue.value.value, headerValue]));
  }

  /**
   * The parsed header map: every name holds exactly the values of its field lines in arrival
   * order (as in section 5.3 of RFC 9110, a repeated field keeps all its values), stored as a
   * string when there is one and an array when there are more; names without field lines are absent.
   */
  lemma ParseHeaderBlockGet(allHeaders: string, name: string)
    ensures ParseHeaderBlock(allHeaders).Valid() && WellShaped(ParseHeaderBlock(allHeaders))
    ensures ParseHeaderBlock(allHeaders).Get(name) == StoredHeaderValue(FieldValues(HeaderLines(allHeaders), name))
    ensures name in ParseHeaderBlock(allHeaders).values <==> FieldValues(HeaderLines(allHeaders), name) != []
  {
    var h := ParseHeaderBlock(allHeaders);
    FoldHeaderLinesShape(EmptyDict(), HeaderLines(allHeaders));
    FoldHeaderLinesGet(EmptyDict(), HeaderLines(allHeaders), name);
    assert HeaderValues(EmptyDict<HeaderValue>().Get(name)) == [];
    assert [] + FieldValues(HeaderLines(allHeaders), name) == FieldValues(HeaderLines(allHeaders), name);
    StoredHeaderValueRoundTrip(h.Get(name));
  }

  // ---------------------------------------------------------------------------------------
  // Construction
  // ---------------------------------------------------------------------------------------

  /** The constructor's argument: a bare URL or an options object. */
  datatype OptionsArg = UrlOnly(url: string) | WithOptions(options: RequestOptions)

  /** The objects the constructor may change: the caller's options object and its headers record. */
  function ArgObjects(arg: OptionsArg): set<object>
    reads if arg.WithOptions? then {arg.options} else {}
  {
    if arg.WithOptions? then {arg.options} + (if arg.options.headers.Some? then {arg.options.headers.value} else {})
    else {}
  }

  /** The header record the constructor starts from: the options' headers, or `{}`. */
  function InitialHeaders(arg: OptionsArg): Dict<string>
    reads ArgObjects(arg)
  {
    if arg.WithOptions? && arg.options.headers.Some? then arg.options.headers.value.dict else EmptyDict()
  }

  /** `if (flag !== false) flag = true`: a JSON parsing switch stays off only when it was explicitly off. */
  function DefaultedFlag(flag: Option<bool>): (r: Option<bool>)
    ensures r.Some?
    ensures r.value <==> flag != Some(false)
  {
    if flag != Some(false) then Some(true) else flag
  }

  /** `_sanitizeRequestBody(body)`: a plain array or object becomes its JSON text; anything else is sent as it is. */
  function SanitizeRequestBody(body: Body, host: Host): Body {
    if ShallConvertToJson(body) then Plain(Str(host.stringify(body.v))) else body
  }

  /** The request body after construction. */
  function NormalisedBody(body: Body, requestParsing: bool, host: Host): Body {
    if requestParsing && ShallConvertToJson(body) then SanitizeRequestBody(body, host) else body
  }

  /** `content-type` for a body sent as JSON: set to "application/json" unless the record's value contains "JSON". */
  function WithJsonContentType(lowered: Dict<string>, json: bool): Dict<string> {
    if json && !Includes(lowered.Get(ContentTypeHeader).GetOr(""), "JSON")
    then lowered.Put(ContentTypeHeader, JsonContentType)
    else lowered
  }

  /** The request headers after construction: names lower-cased, then `content-type` forced when the body goes out as JSON. */
  function NormalisedHeaders(headers: Dict<string>, body: Body, requestParsing: bool): Dict<string> {
    WithJsonContentType(FoldKeys(headers, headers.keys, false), requestParsing && ShallConvertToJson(body))
  }

  /**
   * Body normalisation: only a plain array or object with request parsing on is replaced,
   * by its JSON text; that text is never converted again, so normalising twice changes nothing.
   */
  lemma NormalisedBodyProperties(body: Body, requestParsing: bool, host: Host)
    ensures requestParsing && ShallConvertToJson(body) ==> NormalisedBody(body, requestParsing, host) == Plain(Str(host.stringify(body.v)))
    ensures !(requestParsing && ShallConvertToJson(body)) ==> NormalisedBody(body, requestParsing, host) == body
    ensures !ShallConvertToJson(NormalisedBody(body, true, host))
    ensures NormalisedBody(NormalisedBody(body, requestParsing, host), requestParsing, host) == NormalisedBody(body, requestParsing, host)
  {
  }

  /** Lower-casing the names of a well-formed record gives a well-formed record of lower-case names: the lower-cased input names. */
  lemma LoweredHeaderNames(headers: Dict<string>)
    requires headers.Valid()
    ensures FoldKeys(headers, headers.keys, false).Valid()
    ensures FoldKeys(headers, headers.keys, false).values.Keys == CaseImage(headers.values.Keys, false)
    ensures forall k :: k in FoldKeys(headers, headers.keys, false).values ==> IsLowerCase(k)
  {
    assert KeySet(headers.keys) == headers.values.Keys;
    FoldKeysKeySet(headers, headers.keys, false);
    var image := CaseImage(headers.values.Keys, false);
    forall k | k in image ensures IsLowerCase(k) {
      var k0 :| k0 in headers.values.Keys && k == CaseOf(k0, false);
      CaseOfProperties(k0, false);
    }
  }

  /** Without names that differ only in case, lower-casing keeps every value under its lower-cased name. */
  lemma LoweredHeaderValues(headers: Dict<string>)
    requires headers.Valid() && NoCaseCollision(headers.values.Keys, false)
    ensures forall k :: k in headers.values ==>
              CaseOf(k, false) in FoldKeys(headers, headers.keys, false).values &&
              FoldKeys(headers, headers.keys, false).values[CaseOf(k, false)] == headers.values[k]
  {
    FoldKeysValues(headers, headers.keys, false);
  }

  /**
   * Forcing the JSON content type on a record of lower-case names keeps it well formed and
   * lower case, and adds `content-type` to its names exactly when the body goes out as JSON.
   */
  lemma WithJsonContentTypeNames(lowered: Dict<string>, json: bool)
    requires lowered.Valid() && forall k :: k in lowered.values ==> IsLowerCase(k)
    ensures WithJsonContentType(lowered, json).Valid()
    ensures forall k :: k in WithJsonContentType(lowered, json).values ==> IsLowerCase(k)
    ensures WithJsonContentType(lowered, json).values.Keys == lowered.values.Keys + (if json then {ContentTypeHeader} else {})
  {
    assert IsLowerCase(ContentTypeHeader);
    if json && ContentTypeHeader !in lowered.values {
      assert !Includes("", "JSON");
    }
  }

  /**
   * Header normalisation keeps a well-formed record whose names are all lower case: the
   * lower-cased input names, plus `content-type` when the body goes out as JSON.
   */
  lemma NormalisedHeaderNames(headers: Dict<string>, body: Body, requestParsing: bool)
    requires headers.Valid()
    ensures NormalisedHeaders(headers, body, requestParsing).Valid()
    ensures forall k :: k in NormalisedHeaders(headers, body, requestParsing).values ==> IsLowerCase(k)
    ensures NormalisedHeaders(headers, body, requestParsing).values.Keys
              == CaseImage(headers.values.Keys, false)
                 + (if requestParsing && ShallConvertToJson(body) then {ContentTypeHeader} else {})
  {
    LoweredHeaderNames(headers);
    WithJsonContentTypeNames(FoldKeys(headers, headers.keys, false), requestParsing && ShallConvertToJson(body));
  }

  /** A body sent as JSON always goes with a `content-type` that is "application/json" or contains "JSON". */
  lemma NormalisedContentType(headers: Dict<string>, body: Body, requestParsing: bool)
    requires requestParsing && ShallConvertToJson(body)
    ensures ContentTypeHeader in NormalisedHeaders(headers, body, requestParsing).values
    ensures var ct := NormalisedHeaders(headers, body, requestParsing).values[ContentTypeHeader];
            ct == JsonContentType || Includes(ct, "JSON")
  {
    var lowered := FoldKeys(headers, headers.keys, false);
    if ContentTypeHeader !in lowered.values {
      assert lowered.Get(ContentTypeHeader).GetOr("") == "";
      assert !Includes("", "JSON");
    }
  }

  /**
   * Without names that differ only in case, every header keeps its value under its
   * lower-cased name, except a `content-type` replaced by "application/json" because the body
   * goes out as JSON and the given value does not contain "JSON".
   */
  lemma NormalisedHeaderValues(headers: Dict<string>, body: Body, requestParsing: bool)
    requires headers.Valid() && NoCaseCollision(headers.values.Keys, false)
    ensures forall k :: k in headers.values ==>
              CaseOf(k, false) in NormalisedHeaders(headers, body, requestParsing).values &&
              NormalisedHeaders(headers, body, requestParsing).values[CaseOf(k, false)]
                == if CaseOf(k, false) == ContentTypeHeader && requestParsing && ShallConvertToJson(body)
                      && !Includes(headers.values[k], "JSON")
                   then JsonContentType else headers.values[k]
  {
    LoweredHeaderValues(headers);
  }

  /**
   * The header part of the constructor: the record's names are lower-cased in place, then
   * `content-type` is set to "application/json" for a body sent as JSON unless the record's
   * value already contains "JSON".
   */
  method NormaliseRequestHeaders(record: JsRecord<string>, body: Body, requestParsing: bool)
    requires record.dict.Valid()
    modifies record
    ensures record.dict == NormalisedHeaders(old(record.dict), body, requestParsing)
    ensures record.dict.Valid() && forall k :: k in record.dict.values ==> IsLowerCase(k)
  {
    NormalisedHeaderNames(record.dict, body, requestParsing);
    var lowered := ModifyKeyCase(Some(record));
    var requestBodyContentType := record.dict.Get(ContentTypeHeader).GetOr("");
    if requestParsing && ShallConvertToJson(body) {
      if !Includes(requestBodyContentType, "JSON") {
        record.dict := record.dict.Put(ContentTypeHeader, JsonContentType);
      }
    }
  }

  // ---------------------------------------------------------------------------------------
  // Events, transport calls and resolutions
  // ---------------------------------------------------------------------------------------

  /** One fired event: its type and the counters, state and response at that moment. */
  datatype EventArgs = EventArgs(
    eventType: HttpEvent,
    isProgressComputable: bool,
    bytes: int,
    contentLength: int,
    progress: real,
    state: int,
    stateName: Option<RequestState>,
    httpResponse: Option<HttpResponse>)

  /** What reaches the download handler: a `readystatechange`, or a progress event of the request itself. */
  datatype DownloadSignal =
    | ReadyStateChange
    | ProgressSignal(kind: ProgressKind, lengthComputable: bool, loaded: int, total: int)

  /** `_eventTypeMaps.downloadEventTypeMap[event.type]` */
  function DownloadSignalEvent(signal: DownloadSignal): HttpEvent {
    match signal
    case ReadyStateChange => StateChange
    case ProgressSignal(kind, _, _, _) => DownloadEvent(kind)
  }

  /** A call the engine makes on its transport. */
  datatype TransportCall =
    | Open(httpMethod: string, url: string, isAsync: bool)
    | SetTimeout(timeout: int)
    | SetResponseType(responseType: string)
    | SetWithCredentials(withCredentials: bool)
    | SetRequestHeader(name: string, value: string)
    | Send(body: Body)
    | AbortCall

  /** The calls `sendAsync` makes before the headers: method defaults to GET, timeout to 0, credentials to off. */
  function OpeningCalls(options: RequestOptions): seq<TransportCall>
    reads options
  {
    [ Open(options.httpMethod.GetOr("GET"), options.url, true),
      SetTimeout(options.timeout.GetOr(0)),
      SetResponseType("arraybuffer"),
      SetWithCredentials(options.allowCredentialsOnCrossSiteRequests.GetOr(false)) ]
  }

  /** One `setRequestHeader` call per header, in the record's key order. */
  function HeaderCalls(names: seq<string>, values: map<string, string>): seq<TransportCall>
    requires forall k :: k in names ==> k in values
    decreases |names|
  {
    if names == [] then [] else [SetRequestHeader(names[0], values[names[0]])] + HeaderCalls(names[1..], values)
  }

  /**
   * Every header of the record is applied with its own value, once: the i-th call sets the
   * i-th name, so distinct names give distinct calls.
   */
  lemma {:induction false} HeaderCallsCover(names: seq<string>, values: map<string, string>)
    requires forall k :: k in names ==> k in values
    ensures |HeaderCalls(names, values)| == |names|
    ensures forall i :: 0 <= i < |names| ==> HeaderCalls(names, values)[i] == SetRequestHeader(names[i], values[names[i]])
    decreases |names|
  {
    if names != [] {
      HeaderCallsCover(names[1..], values);
      forall i | 0 <= i < |names| ensures HeaderCalls(names, values)[i] == SetRequestHeader(names[i], values[names[i]]) {
        if i > 0 {
          assert names[1..][i - 1] == names[i];
        }
      }
    }
  }

  /** The calls `sendAsync` makes for a record: each of its headers exactly once, with the value the record holds. */
  lemma SendHeadersExactlyOnce(headers: Dict<string>)
    requires headers.Valid()
    ensures forall k :: k in headers.values ==>
              exists i :: 0 <= i < |HeaderCalls(headers.keys, headers.values)| &&
                          HeaderCalls(headers.keys, headers.values)[i] == SetRequestHeader(k, headers.values[k])
    ensures forall i, j :: 0 <= i < j < |HeaderCalls(headers.keys, headers.values)| ==>
              var calls := HeaderCalls(headers.keys, headers.values);
              calls[i].SetRequestHeader? && calls[j].SetRequestHeader? && calls[i].name != calls[j].name
  {
    HeaderCallsCover(headers.keys, headers.values);
    forall k | k in headers.values
      ensures exists i :: 0 <= i < |HeaderCalls(headers.keys, headers.values)| &&
                          HeaderCalls(headers.keys, headers.values)[i] == SetRequestHeader(k, headers.values[k])
    {
      var i :| 0 <= i < |headers.keys| && headers.keys[i] == k;
      assert HeaderCalls(headers.keys, headers.values)[i] == SetRequestHeader(k, headers.values[k]);
    }
  }

  /** The response `sendAsync` resolves with for a failed transfer: abort -4, timeout -3, error -2. */
  function FailureResponse(kind: ProgressKind, options: RequestOptions): (r: Option<HttpResponse>)
    ensures r.Some? <==> kind == Abort || kind == Timeout || kind == Error
    ensures r.Some? ==> r.value.requestOptions == Some(options) && r.value.message.Some?
    ensures r.Some? ==> r.value.headers.None? && r.value.rawData.None? && r.value.textData.None? && r.value.jsonData.None?
    ensures r.Some? ==> r.value.status == (if kind == Abort then -4 else if kind == Timeout then -3 else -2)
    ensures r.Some? ==> r.value.status < 0
  {
    match kind
    case Abort => Some(HttpResponse(-4, Some("Your request has been aborted."), None, None, None, None, Some(options)))
    case Timeout => Some(HttpResponse(-3, Some("Your request has timed out."), None, None, None, None, Some(options)))
    case Error => Some(HttpResponse(-2, Some("An error occurred while sending the request."), None, None, None, None, Some(options)))
    case _ => None
  }

  /** `getResponseHeader("content-type")?.toUpperCase() ?? ""` */
  function ResponseContentType(contentType: Option<string>): string {
    ToUpper(contentType.GetOr(""))
  }

  /** The parsed body as the response's `jsonData`. */
  function JsonOf(v: Option<Value>): Option<JsonData> {
    match v
    case None => None
    case Some(x) => Some(Parsed(x))
  }

  /** `_parseContent` sees JSON content while automatic response parsing is on, and `JSON.parse` rejects the text. */
  function ParseThrows(readyState: int, contentType: Option<string>, response: seq<bv8>, responseParsing: bool, host: Host): bool {
    && readyState == 4
    && Includes(ResponseContentType(contentType), "JSON")
    && responseParsing
    && host.parse(host.fromBytes(response)).None?
  }

  // ---------------------------------------------------------------------------------------
  // The request
  // ---------------------------------------------------------------------------------------

  /** A memoised response header map, when there is one, is well formed and well shaped. */
  ghost predicate HeaderMapValid(h: Option<ResponseHeaders>) {
    h.Some? ==> h.value.Valid() && WellShaped(h.value)
  }

  /** A progress percentage agrees with its counters. */
  predicate ProgressMatches(bytes: int, contentLength: int, percentage: real) {
    percentage == CalculatePercentage(bytes as real, contentLength as real)
  }

  /**
   * The option part of the constructor: a bare URL becomes a fresh options object, and the
   * JSON switches are defaulted in the options object itself.
   */
  method DefaultOptions(arg: OptionsArg) returns (o: RequestOptions)
    modifies if arg.WithOptions? then {arg.options} else {}
    ensures arg.WithOptions? ==> o == arg.options
    ensures arg.UrlOnly? ==>
              fresh(o) && o.url == arg.url && o.httpMethod.None? && o.timeout.None? &&
              o.allowCredentialsOnCrossSiteRequests.None? && o.headers.None? && o.body == Plain(Undefined)
    ensures arg.UrlOnly? ==>
              o.automaticJsonRequestBodyParsing == Some(true) && o.automaticJsonResponseBodyParsing == Some(true)
    ensures arg.WithOptions? ==>
              && o.automaticJsonRequestBodyParsing == DefaultedFlag(old(arg.options.automaticJsonRequestBodyParsing))
              && o.automaticJsonResponseBodyParsing == DefaultedFlag(old(arg.options.automaticJsonResponseBodyParsing))
              && o.url == old(arg.options.url) && o.httpMethod == old(arg.options.httpMethod)
              && o.timeout == old(arg.options.timeout)
              && o.allowCredentialsOnCrossSiteRequests == old(arg.options.allowCredentialsOnCrossSiteRequests)
              && o.headers == old(arg.options.headers) && o.body == old(arg.options.body)
  {
    if arg.UrlOnly? {
      o := new RequestOptions.FromUrl(arg.url);
    } else {
      o := arg.options;
    }
    if o.automaticJsonRequestBodyParsing != Some(false) {
      o.automaticJsonRequestBodyParsing := Some(true);
    }
    if o.automaticJsonResponseBodyParsing != Some(false) {
      o.automaticJsonResponseBodyParsing := Some(true);
    }
  }

  // ---------------------------------------------------------------------------------------
  // The engine
  // ---------------------------------------------------------------------------------------

  class HttpWebRequest {
    var isUploadProgressComputable: bool
    var bytesUploaded: int
    var uploadContentLength: int
    var uploadProgressPercentage: real
    var isDownloadProgressComputable: bool
    var bytesDownloaded: int
    var downloadContentLength: int
    var downloadProgressPercentage: real
    var state: int
    var stateName: Option<RequestState>
    /** The header record: the options' own `headers` object when there is one. */
    const requestHeaders: JsRecord<string>
    var requestBody: Body
    var textData: Option<string>
    var jsonData: Option<Value>
    /** The memoised response header map. */
    var responseHeaders: Option<ResponseHeaders>
    const options: RequestOptions
    const host: Host
    /** The event records fired so far, oldest first. */
    ghost var events: seq<EventArgs>
    /** The calls made on the transport so far, oldest first. */
    var transportLog: seq<TransportCall>
    /** `sendAsync` has been called and its listeners are in place. */
    var sendCalled: bool
    /** The value the `sendAsync` promise settled with. */
    var settled: Option<HttpResponse>

    /**
     * The state name always matches the state, each percentage matches its counters and the
     * memoised header map is well formed; nothing is settled before `sendAsync`. The options
     * and the header record belong to the caller too, so nothing is required of them here.
     */
    ghost predicate Valid()
      reads this`state, this`stateName, this`bytesUploaded, this`uploadContentLength, this`uploadProgressPercentage,
            this`bytesDownloaded, this`downloadContentLength, this`downloadProgressPercentage,
            this`responseHeaders, this`sendCalled, this`settled
    {
      && stateName == StateName(state)
      && ProgressMatches(bytesUploaded, uploadContentLength, uploadProgressPercentage)
      && ProgressMatches(bytesDownloaded, downloadContentLength, downloadProgressPercentage)
      && HeaderMapValid(responseHeaders)
      && (!sendCalled ==> settled.None?)
    }

    /**
     * `new HttpWebRequest(options)`: a bare URL becomes a fresh options object. The JSON
     * switches are defaulted in the options object itself, the header record (the options'
     * own when present) gets lower-case names in place, and a plain array or object body is
     * turned into JSON text with `content-type` forced as `NormalisedHeaders` says.
     */
    constructor(arg: OptionsArg, host: Host)
      requires arg.WithOptions? && arg.options.headers.Some? ==> arg.options.headers.value.dict.Valid()
      modifies ArgObjects(arg)
      ensures Valid() && this.host == host
      ensures arg.WithOptions? ==> options == arg.options
      ensures arg.UrlOnly? ==>
                fresh(options) && options.url == arg.url && options.httpMethod.None? && options.timeout.None? &&
                options.allowCredentialsOnCrossSiteRequests.None? && options.headers.None? && options.body == Plain(Undefined)
      ensures arg.UrlOnly? ==>
                options.automaticJsonRequestBodyParsing == Some(true) && options.automaticJsonResponseBodyParsing == Some(true)
      ensures arg.WithOptions? ==>
                && options.automaticJsonRequestBodyParsing == DefaultedFlag(old(arg.options.automaticJsonRequestBodyParsing))
                && options.automaticJsonResponseBodyParsing == DefaultedFlag(old(arg.options.automaticJsonResponseBodyParsing))
                && options.url == old(arg.options.url) && options.httpMethod == old(arg.options.httpMethod)
                && options.timeout == old(arg.options.timeout)
                && options.allowCredentialsOnCrossSiteRequests == old(arg.options.allowCredentialsOnCrossSiteRequests)
                && options.headers == old(arg.options.headers) && options.body == old(arg.options.body)
      ensures arg.WithOptions? && old(arg.options.headers).Some? ==> requestHeaders == old(arg.options.headers).value
      ensures arg.UrlOnly? || old(arg.options.headers).None? ==> fresh(requestHeaders)
      ensures requestHeaders.dict
                == NormalisedHeaders(old(InitialHeaders(arg)), options.body, options.automaticJsonRequestBodyParsing == Some(true))
      ensures requestBody == NormalisedBody(options.body, options.automaticJsonRequestBodyParsing == Some(true), host)
      ensures state == 0 && stateName == Some(Unsent)
      ensures !isUploadProgressComputable && bytesUploaded == 0 && uploadContentLength == 0 && uploadProgressPercentage == 0.0
      ensures !isDownloadProgressComputable && bytesDownloaded == 0 && downloadContentLength == 0 && downloadProgressPercentage == 0.0
      ensures textData.None? && jsonData.None? && responseHeaders.None?
      ensures events == [] && transportLog == [] && !sendCalled && settled.None?
    {
      var o := DefaultOptions(arg);
      var headers: JsRecord<string>;
      if o.headers.Some? {
        headers := o.headers.value;
      } else {
        headers := new JsRecord(EmptyDict());
      }
      assert headers.dict == old(InitialHeaders(arg));
      NormaliseRequestHeaders(headers, o.body, o.automaticJsonRequestBodyParsing == Some(true));
      var body := o.body;
      if o.automaticJsonRequestBodyParsing == Some(true) && ShallConvertToJson(body) {
        body := SanitizeRequestBody(body, host);
      }
      options := o;
      this.host := host;
      requestHeaders := headers;
      requestBody := body;
      isUploadProgressComputable := false;
      bytesUploaded := 0;
      uploadContentLength := 0;
      uploadProgressPercentage := 0.0;
      isDownloadProgressComputable := false;
      bytesDownloaded := 0;
      downloadContentLength := 0;
      downloadProgressPercentage := 0.0;
      state := 0;
      stateName := StateName(0);
      textData := None;
      jsonData := None;
      responseHeaders := None;
      events := [];
      transportLog := [];
      sendCalled := false;
      settled := None;
    }

    /**
     * `_parseContent()`: nothing happens before readyState 4. Then textual content (an
     * upper-cased content type containing JSON or TEXT) is decoded into `textData`, and JSON
     * content is parsed into `jsonData` when automatic response parsing is on. `threw`
     * reports that `JSON.parse` rejected the text; `done` that a response can be built.
     */
    method ParseContent(readyState: int, contentType: Option<string>, response: seq<bv8>) returns (done: bool, threw: bool)
      requires Valid()
      modifies this`textData, this`jsonData
      ensures Valid()
      ensures threw == ParseThrows(readyState, contentType, response, options.automaticJsonResponseBodyParsing == Some(true), host)
      ensures done <==> readyState == 4 && !threw
      ensures var ct := ResponseContentType(contentType);
              textData == if readyState == 4 && (Includes(ct, "JSON") || Includes(ct, "TEXT"))
                          then Some(host.fromBytes(response)) else old(textData)
      ensures var ct := ResponseContentType(contentType);
              jsonData == if readyState == 4 && Includes(ct, "JSON") && options.automaticJsonResponseBodyParsing == Some(true) && !threw
                          then host.parse(host.fromBytes(response)) else old(jsonData)
    {
      if readyState != 4 {
        return false, false;
      }
      var ct := ResponseContentType(contentType);
      var isJsonContent := Includes(ct, "JSON");
      if isJsonContent || Includes(ct, "TEXT") {
        var text := host.fromBytes(response);
        textData := Some(text);
        if isJsonContent && options.automaticJsonResponseBodyParsing == Some(true) {
          var parsed := host.parse(text);
          if parsed.None? {
            return false, true;
          }
          jsonData := parsed;
        }
      }
      return true, false;
    }

    /**
     * `_parseResponseHeaders()`: the memoised map when there is one; nothing (and no memo)
     * before readyState 2; otherwise the folded header block, which is memoised.
     */
    method ParseResponseHeaders(readyState: int, allHeaders: string) returns (r: Option<ResponseHeaders>)
      requires Valid()
      modifies this`responseHeaders
      ensures Valid()
      ensures old(responseHeaders).Some? ==> r == old(responseHeaders) && responseHeaders == r
      ensures old(responseHeaders).None? && readyState < 2 ==> r.None? && responseHeaders.None?
      ensures old(responseHeaders).None? && readyState >= 2 ==> r == Some(ParseHeaderBlock(allHeaders)) && responseHeaders == r
    {
      if responseHeaders.Some? {
        return responseHeaders;
      }
      if readyState < 2 {
        return None;
      }
      var responseHeadersAsArray := HeaderLines(allHeaders);
      var headers: ResponseHeaders := EmptyDict();
      for i := 0 to |responseHeadersAsArray|
        invariant FoldHeaderLines(headers, responseHeadersAsArray[i..]) == ParseHeaderBlock(allHeaders)
      {
        assert responseHeadersAsArray[i..][1..] == responseHeadersAsArray[i + 1..];
        headers := AddResponseHeaderLine(headers, responseHeadersAsArray[i]);
      }
      assert responseHeadersAsArray[|responseHeadersAsArray|..] == [];
      ParseHeaderBlockGet(allHeaders, "");
      responseHeaders := Some(headers);
      return responseHeaders;
    }

    /**
     * `_handleUploadProgressEvent(event)`: the computable flag comes from the event; the
     * counters and percentage move only on a computable `progress` event; one upload event
     * record is fired.
     */
    method HandleUploadProgressEvent(kind: ProgressKind, lengthComputable: bool, loaded: int, total: int)
      requires Valid()
      modifies this`isUploadProgressComputable, this`bytesUploaded, this`uploadContentLength,
               this`uploadProgressPercentage, this`events
      ensures Valid()
      ensures isUploadProgressComputable == lengthComputable
      ensures kind == Progress && lengthComputable ==>
                bytesUploaded == loaded && uploadContentLength == total &&
                uploadProgressPercentage == CalculatePercentage(loaded as real, total as real)
      ensures !(kind == Progress && lengthComputable) ==>
                bytesUploaded == old(bytesUploaded) && uploadContentLength == old(uploadContentLength) &&
                uploadProgressPercentage == old(uploadProgressPercentage)
      ensures events == old(events) + [EventArgs(UploadEvent(kind), lengthComputable, bytesUploaded,
                                                 uploadContentLength, uploadProgressPercentage, state, stateName, None)]
    {
      var httpEventType := UploadEvent(kind);
      isUploadProgressComputable := lengthComputable;
      if httpEventType == UploadProgressChange && isUploadProgressComputable {
        bytesUploaded := loaded;
        uploadContentLength := total;
        uploadProgressPercentage := CalculatePercentage(bytesUploaded as real, uploadContentLength as real);
      }
      events := events + [EventArgs(httpEventType, isUploadProgressComputable, bytesUploaded,
                                    uploadContentLength, uploadProgressPercentage, state, stateName, None)];
    }

    /**
     * `_handleDownloadProgressEvent(event, httpResponse)`: a `readystatechange` takes the
     * transport's readyState and its name; a progress event sets the computable flag and, when
     * it is a computable `progress` event, the counters and percentage. One download event
     * record is fired, carrying the response.
     */
    method HandleDownloadProgressEvent(signal: DownloadSignal, readyState: int, httpResponse: Option<HttpResponse>)
      requires Valid()
      modifies this`isDownloadProgressComputable, this`bytesDownloaded, this`downloadContentLength,
               this`downloadProgressPercentage, this`state, this`stateName, this`events
      ensures Valid()
      ensures signal.ReadyStateChange? ==> state == readyState && stateName == StateName(readyState)
      ensures signal.ReadyStateChange? ==> isDownloadProgressComputable == old(isDownloadProgressComputable)
      ensures signal.ProgressSignal? ==>
                state == old(state) && stateName == old(stateName) &&
                isDownloadProgressComputable == signal.lengthComputable
      ensures signal.ProgressSignal? && signal.kind == Progress && signal.lengthComputable ==>
                bytesDownloaded == signal.loaded && downloadContentLength == signal.total &&
                downloadProgressPercentage == CalculatePercentage(signal.loaded as real, signal.total as real)
      ensures !(signal.ProgressSignal? && signal.kind == Progress && signal.lengthComputable) ==>
                bytesDownloaded == old(bytesDownloaded) && downloadContentLength == old(downloadContentLength) &&
                downloadProgressPercentage == old(downloadProgressPercentage)
      ensures events == old(events) + [EventArgs(DownloadSignalEvent(signal), isDownloadProgressComputable, bytesDownloaded,
                                                 downloadContentLength, downloadProgressPercentage, state, stateName,
                                                 httpResponse)]
    {
      var httpEventType := DownloadSignalEvent(signal);
      if httpEventType == StateChange {
        state := readyState;
        stateName := StateName(state);
      } else {
        isDownloadProgressComputable := signal.lengthComputable;
        if httpEventType == DownloadProgressChange && isDownloadProgressComputable {
          bytesDownloaded := signal.loaded;
          downloadContentLength := signal.total;
          downloadProgressPercentage := CalculatePercentage(bytesDownloaded as real, downloadContentLength as real);
        }
      }
      events := events + [EventArgs(httpEventType, isDownloadProgressComputable, bytesDownloaded,
                                    downloadContentLength, downloadProgressPercentage, state, stateName, httpResponse)];
    }

    /** The promise's `resolve`: only the first call settles it. */
    method Resolve(response: HttpResponse)
      requires Valid() && sendCalled
      modifies this`settled
      ensures Valid()
      ensures settled == if old(settled).None? then Some(response) else old(settled)
    {
      if settled.None? {
        settled := Some(response);
      }
    }

    /**
     * `sendAsync()`: opens the transport (method GET, timeout 0 and credentials off unless
     * the options say otherwise), applies every header of the record, installs the
     * resolving listeners and sends the normalised body.
     */
    method SendAsync()
      requires Valid() && !sendCalled && requestHeaders.dict.Valid()
      modifies this`transportLog, this`sendCalled
      ensures Valid() && sendCalled
      ensures transportLog == old(transportLog) + OpeningCalls(options)
                              + HeaderCalls(requestHeaders.dict.keys, requestHeaders.dict.values) + [Send(requestBody)]
    {
      var log := transportLog + OpeningCalls(options);
      var names := requestHeaders.dict.keys;
      var values := requestHeaders.dict.values;
      ghost var afterOpen := log;
      assert forall k :: k in names ==> k in values;
      for i := 0 to |names|
        invariant log + HeaderCalls(names[i..], values) == afterOpen + HeaderCalls(names, values)
      {
        var call := SetRequestHeader(names[i], values[names[i]]);
        assert names[i..][1..] == names[i + 1..];
        assert HeaderCalls(names[i..], values) == [call] + HeaderCalls(names[i + 1..], values);
        ConcatAssoc(log, [call], HeaderCalls(names[i + 1..], values));
        log := log + [call];
      }
      assert names[|names|..] == [];
      assert log + [] == log;
      sendCalled := true;
      transportLog := log + [Send(requestBody)];
    }

    /** `abort()`: asks the transport to abort; its `abort` event arrives later as a signal. */
    method Abort()
      modifies this`transportLog
      ensures transportLog == old(transportLog) + [AbortCall]
    {
      transportLog := transportLog + [AbortCall];
    }

    /**
     * A `loadstart`, `loadend`, `load`, `progress`, `timeout`, `abort` or `error` event of the
     * request itself: the download handler runs, and once `sendAsync` has been called an
     * abort, timeout or error resolves the promise with -4, -3 or -2 unless it has settled.
     */
    method OnProgressEvent(kind: ProgressKind, lengthComputable: bool, loaded: int, total: int)
      requires Valid()
      modifies this`isDownloadProgressComputable, this`bytesDownloaded, this`downloadContentLength,
               this`downloadProgressPercentage, this`state, this`stateName, this`events, this`settled
      ensures Valid()
      ensures state == old(state) && stateName == old(stateName)
      ensures isDownloadProgressComputable == lengthComputable
      ensures kind == Progress && lengthComputable ==>
                bytesDownloaded == loaded && downloadContentLength == total &&
                downloadProgressPercentage == CalculatePercentage(loaded as real, total as real)
      ensures !(kind == Progress && lengthComputable) ==>
                bytesDownloaded == old(bytesDownloaded) && downloadContentLength == old(downloadContentLength) &&
                downloadProgressPercentage == old(downloadProgressPercentage)
      ensures events == old(events) + [EventArgs(DownloadEvent(kind), lengthComputable, bytesDownloaded,
                                                 downloadContentLength, downloadProgressPercentage, state, stateName, None)]
      ensures settled == if old(settled).None? && sendCalled then FailureResponse(kind, options) else old(settled)
    {
      HandleDownloadProgressEvent(ProgressSignal(kind, lengthComputable, loaded, total), state, None);
      if sendCalled {
        var failure := FailureResponse(kind, options);
        if failure.Some? {
          Resolve(failure.value);
        }
      }
    }

    /**
     * The rest of a `readystatechange` once the content is parsed at readyState 4: the
     * response carries the status, the raw bytes, the decoded and parsed content and the
     * memoised header map; the download handler fires the state-change record with it, and
     * a status other than 0 resolves the promise with it.
     */
    method DeliverResponse(readyState: int, status: int, allHeaders: string, response: seq<bv8>)
      requires Valid() && sendCalled && readyState == 4
      modifies this`responseHeaders, this`isDownloadProgressComputable,
               this`bytesDownloaded, this`downloadContentLength, this`downloadProgressPercentage,
               this`state, this`stateName, this`events, this`settled
      ensures Valid()
      ensures state == 4 && stateName == Some(Done)
      ensures isDownloadProgressComputable == old(isDownloadProgressComputable) && bytesDownloaded == old(bytesDownloaded) &&
              downloadContentLength == old(downloadContentLength) &&
              downloadProgressPercentage == old(downloadProgressPercentage)
      ensures responseHeaders == (if old(responseHeaders).Some? then old(responseHeaders) else Some(ParseHeaderBlock(allHeaders)))
      ensures events == old(events) + [EventArgs(StateChange, isDownloadProgressComputable, bytesDownloaded,
                                                 downloadContentLength, downloadProgressPercentage, state, stateName,
                                                 Some(CurrentResponse(status, response)))]
      ensures settled == if old(settled).None? && status != 0 then Some(CurrentResponse(status, response)) else old(settled)
    {
      var headers := ParseResponseHeaders(readyState, allHeaders);
      var httpResponse := HttpResponse(status, None, headers, Some(response), textData, JsonOf(jsonData), Some(options));
      assert httpResponse == CurrentResponse(status, response);
      HandleDownloadProgressEvent(ReadyStateChange, readyState, Some(httpResponse));
      ghost var before := settled;
      if status != 0 {
        Resolve(httpResponse);
      }
      assert settled == if before.None? && status != 0 then Some(httpResponse) else before;
    }

    /** The response a completed `readystatechange` builds from the engine's current content and header map. */
    function CurrentResponse(status: int, response: seq<bv8>): HttpResponse
      reads this`responseHeaders, this`textData, this`jsonData
    {
      HttpResponse(status, None, responseHeaders, Some(response), textData, JsonOf(jsonData), Some(options))
    }

    /**
     * A `readystatechange` of the transport. Before `sendAsync` nobody listens. Afterwards the
     * content is parsed; when `JSON.parse` throws the listener stops there. Otherwise, at
     * readyState 4 a response is built with the memoised header map, the download handler
     * takes the new state and fires a state-change record, and the promise is resolved with
     * that response when the status is not 0 and nothing settled it before.
     */
    method OnReadyStateChange(readyState: int, status: int, contentType: Option<string>, allHeaders: string, response: seq<bv8>)
      requires Valid()
      modifies this`textData, this`jsonData, this`responseHeaders, this`isDownloadProgressComputable,
               this`bytesDownloaded, this`downloadContentLength, this`downloadProgressPercentage,
               this`state, this`stateName, this`events, this`settled
      ensures Valid()
      ensures !sendCalled ==> unchanged(this)
      ensures old(settled).Some? ==> settled == old(settled)
      ensures isDownloadProgressComputable == old(isDownloadProgressComputable) && bytesDownloaded == old(bytesDownloaded) &&
              downloadContentLength == old(downloadContentLength) &&
              downloadProgressPercentage == old(downloadProgressPercentage)
      ensures var ct := ResponseContentType(contentType);
              sendCalled && readyState == 4 && (Includes(ct, "JSON") || Includes(ct, "TEXT")) ==>
                textData == Some(host.fromBytes(response))
      ensures var ct := ResponseContentType(contentType);
              !(sendCalled && readyState == 4 && (Includes(ct, "JSON") || Includes(ct, "TEXT"))) ==> textData == old(textData)
      ensures var ct := ResponseContentType(contentType);
              jsonData == if sendCalled && readyState == 4 && Includes(ct, "JSON") &&
                             options.automaticJsonResponseBodyParsing == Some(true) &&
                             !ParseThrows(readyState, contentType, response, true, host)
                          then host.parse(host.fromBytes(response)) else old(jsonData)
      ensures sendCalled && ParseThrows(readyState, contentType, response, options.automaticJsonResponseBodyParsing == Some(true), host) ==>
                state == old(state) && events == old(events) && settled == old(settled) && responseHeaders == old(responseHeaders)
      ensures sendCalled && readyState != 4 ==>
                && state == readyState && stateName == StateName(readyState)
                && events == old(events) + [EventArgs(StateChange, isDownloadProgressComputable, bytesDownloaded,
                                                      downloadContentLength, downloadProgressPercentage, state, stateName, None)]
                && settled == old(settled) && responseHeaders == old(responseHeaders)
      ensures sendCalled && readyState == 4 && !ParseThrows(readyState, contentType, response, options.automaticJsonResponseBodyParsing == Some(true), host) ==>
                var httpResponse := HttpResponse(status, None, responseHeaders, Some(response), textData, JsonOf(jsonData), Some(options));
                && state == 4 && stateName == Some(Done)
                && responseHeaders == (if old(responseHeaders).Some? then old(responseHeaders) else Some(ParseHeaderBlock(allHeaders)))
                && events == old(events) + [EventArgs(StateChange, isDownloadProgressComputable, bytesDownloaded,
                                                      downloadContentLength, downloadProgressPercentage, state, stateName,
                                                      Some(httpResponse))]
                && settled == if old(settled).None? && status != 0 then Some(httpResponse) else old(settled)
    {
      if !sendCalled {
        return;
      }
      var done, threw := ParseContent(readyState, contentType, response);
      if threw {
        return;
      }
      if !done {
        HandleDownloadProgressEvent(ReadyStateChange, readyState, None);
        return;
      }
      DeliverResponse(readyState, status, allHeaders, response);
    }
  }
}
