/**
 * The declarations the request engine works with: request states, the library's event
 * names, the transport's event types, request options, request bodies and responses.
 */
module Http {
  import opened Wrappers
  import opened JsValues

  /** `HttpRequestState` (src/http/http-request-state.e.ts). */
  datatype RequestState = Unsent | Opened | HeadersReceived | Loading | Done {
    function Name(): string {
      match this
      case Unsent => "UNSENT"
      case Opened => "OPENED"
      case HeadersReceived => "HEADERS_RECEIVED"
      case Loading => "LOADING"
      case Done => "DONE"
    }

    /** The readyState number the state stands for. */
    function Index(): nat {
      match this
      case Unsent => 0
      case Opened => 1
      case HeadersReceived => 2
      case Loading => 3
      case Done => 4
    }
  }

  /** `HttpWebRequest._stateMap[readyState]`: undefined for a number outside 0..4. */
  function StateName(readyState: int): (r: Option<RequestState>)
    ensures r.Some? <==> 0 <= readyState <= 4
    ensures r.Some? ==> r.value.Index() == readyState
  {
    if readyState == 0 then Some(Unsent)
    else if readyState == 1 then Some(Opened)
    else if readyState == 2 then Some(HeadersReceived)
    else if readyState == 3 then Some(Loading)
    else if readyState == 4 then Some(Done)
    else None
  }

  /** The state map and the readyState numbering are inverse to each other. */
  lemma StateNameIndex(s: RequestState)
    ensures StateName(s.Index()) == Some(s)
  {
  }

  /** `HttpEvent` (src/http/http-event.e.ts). */
  datatype HttpEvent =
    | UploadStart | UploadComplete | UploadSuccess | UploadProgressChange
    | UploadAbort | UploadTimeout | UploadError
    | DownloadStart | DownloadComplete | DownloadSuccess | DownloadProgressChange
    | DownloadAbort | DownloadTimeout | DownloadError
    | StateChange

  /** The transport's progress event types (`loadstart`, `loadend`, `load`, `progress`, `timeout`, `abort`, `error`). */
  datatype ProgressKind = LoadStart | LoadEnd | Load | Progress | Timeout | Abort | Error

  /** `_eventTypeMaps.uploadEventTypeMap[type]` */
  function UploadEvent(kind: ProgressKind): HttpEvent {
    match kind
    case LoadStart => UploadStart
    case LoadEnd => UploadComplete
    case Load => UploadSuccess
    case Progress => UploadProgressChange
    case Timeout => UploadTimeout
    case Abort => UploadAbort
    case Error => UploadError
  }

  /** `_eventTypeMaps.downloadEventTypeMap[type]` for the progress event types. */
  function DownloadEvent(kind: ProgressKind): HttpEvent {
    match kind
    case LoadStart => DownloadStart
    case LoadEnd => DownloadComplete
    case Load => DownloadSuccess
    case Progress => DownloadProgressChange
    case Timeout => DownloadTimeout
    case Abort => DownloadAbort
    case Error => DownloadError
  }

  /** The kinds of host object a request body can be besides a JavaScript value. */
  datatype HostBodyKind =
    | FormDataBody | ArrayBufferBody | ArrayBufferViewBody | DocumentBody
    | UrlSearchParamsBody | BlobBody | ReadableStreamBody

  /** A request body: a JavaScript value (a string, a plain object, ...) or a host object. */
  datatype Body = Plain(v: Value) | HostObject(kind: HostBodyKind)

  /**
   * `_shallConvertToJson(body)`: true exactly for a truthy value of type "object" that is
   * none of the host kinds, i.e. a plain array or object.
   */
  predicate ShallConvertToJson(body: Body) {
    match body
    case HostObject(_) => false
    case Plain(v) => !Falsy(v) && (v.Arr? || v.Obj?)
  }

  /** Falsy values, strings, numbers, booleans and host objects are sent as they are. */
  lemma ShallConvertToJsonCases(body: Body)
    ensures ShallConvertToJson(body) <==> body.Plain? && (body.v.Arr? || body.v.Obj?)
    ensures body.Plain? && (Falsy(body.v) || body.v.Str? || body.v.Num? || body.v.Bool?) ==> !ShallConvertToJson(body)
  {
  }

  /** `IHttpRequestOptions`: the engine fills in its defaults in place. */
  class RequestOptions {
    var url: string
    var httpMethod: Option<string>
    var timeout: Option<int>
    var allowCredentialsOnCrossSiteRequests: Option<bool>
    var automaticJsonRequestBodyParsing: Option<bool>
    var automaticJsonResponseBodyParsing: Option<bool>
    var headers: Option<JsRecord<string>>
    var body: Body

    /** `{ url: url }` */
    constructor FromUrl(url: string)
      ensures this.url == url && httpMethod.None? && timeout.None?
      ensures allowCredentialsOnCrossSiteRequests.None?
      ensures automaticJsonRequestBodyParsing.None? && automaticJsonResponseBodyParsing.None?
      ensures headers.None? && body == Plain(Undefined)
    {
      this.url := url;
      httpMethod := None;
      timeout := None;
      allowCredentialsOnCrossSiteRequests := None;
      automaticJsonRequestBodyParsing := None;
      automaticJsonResponseBodyParsing := None;
      headers := None;
      body := Plain(Undefined);
    }

    constructor(url: string, httpMethod: Option<string>, timeout: Option<int>,
                allowCredentialsOnCrossSiteRequests: Option<bool>,
                automaticJsonRequestBodyParsing: Option<bool>, automaticJsonResponseBodyParsing: Option<bool>,
                headers: Option<JsRecord<string>>, body: Body)
      ensures this.url == url && this.httpMethod == httpMethod && this.timeout == timeout
      ensures this.allowCredentialsOnCrossSiteRequests == allowCredentialsOnCrossSiteRequests
      ensures this.automaticJsonRequestBodyParsing == automaticJsonRequestBodyParsing
      ensures this.automaticJsonResponseBodyParsing == automaticJsonResponseBodyParsing
      ensures this.headers == headers && this.body == body
    {
      this.url := url;
      this.httpMethod := httpMethod;
      this.timeout := timeout;
      this.allowCredentialsOnCrossSiteRequests := allowCredentialsOnCrossSiteRequests;
      this.automaticJsonRequestBodyParsing := automaticJsonRequestBodyParsing;
      this.automaticJsonResponseBodyParsing := automaticJsonResponseBodyParsing;
      this.headers := headers;
      this.body := body;
    }
  }

  /** A response header's value: one field line gives a string, repeated ones an array. */
  datatype HeaderValue = Single(value: string) | Multiple(values: seq<string>)

  type ResponseHeaders = Dict<HeaderValue>

  /** `jsonData`: a parsed response body, or an error's own data object. */
  datatype JsonData = Parsed(value: Value) | Record(record: JsRecord<Value>)

  /** `IHttpResponse` */
  datatype HttpResponse = HttpResponse(
    status: int,
    message: Option<string>,
    headers: Option<ResponseHeaders>,
    rawData: Option<seq<bv8>>,
    textData: Option<string>,
    jsonData: Option<JsonData>,
    requestOptions: Option<RequestOptions>)

  /** The foreign functions the engine calls: `JSON.stringify`, `JSON.parse` (None when it throws) and `StringUtilities.fromBytes`. */
  datatype Host = Host(stringify: Value -> string, parse: string -> Option<Value>, fromBytes: seq<bv8> -> string)
}
