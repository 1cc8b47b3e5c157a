/**
 * `HttpError` (src/http/http-error.ts): an error carrying an HTTP status and an optional
 * data object, and the response it turns into. The stack trace the JavaScript engine
 * captures when an error is created is a parameter here (`capturedStack`).
 */
module HttpErrors {
  import opened Wrappers
  import opened JsValues
  import opened Http

  /** `if (stackTrace)`: a stack trace that is present and not empty. */
  predicate IsTruthy(s: Option<string>) {
    s.Some? && s.value != ""
  }

  class HttpError {
    const status: int
    const message: string
    var stack: Option<string>
    const data: Option<JsRecord<Value>>

    /** `new HttpError(status, message, stackTrace, data)` */
    constructor(status: int, message: string, stackTrace: Option<string>, data: Option<JsRecord<Value>>,
                capturedStack: Option<string>)
      ensures this.status == status && this.message == message && this.data == data
      ensures stack == if IsTruthy(stackTrace) then stackTrace else capturedStack
    {
      this.status := status;
      this.message := message;
      this.data := data;
      stack := capturedStack;
      new;
      if IsTruthy(stackTrace) {
        stack := stackTrace;
      }
    }

    /**
     * `toResponse(includeStackTrace)`: the error's status and message, with its data as
     * `jsonData`. When the stack trace is asked for and present it is written into the data
     * object itself (so the error's own data changes), or into a fresh object when the error
     * has none.
     */
    method ToResponse(includeStackTrace: bool) returns (r: HttpResponse)
      modifies if data.Some? then {data.value} else {}
      ensures r.status == status && r.message == Some(message)
      ensures r.headers.None? && r.rawData.None? && r.textData.None? && r.requestOptions.None?
      ensures !(includeStackTrace && IsTruthy(stack)) ==>
                r.jsonData == (if data.Some? then Some(Record(data.value)) else None)
      ensures !(includeStackTrace && IsTruthy(stack)) && data.Some? ==> data.value.dict == old(data.value.dict)
      ensures includeStackTrace && IsTruthy(stack) && data.Some? ==>
                r.jsonData == Some(Record(data.value)) &&
                data.value.dict == old(data.value.dict).Put("stackTrace", Str(stack.value))
      ensures includeStackTrace && IsTruthy(stack) && data.None? ==>
                r.jsonData.Some? && r.jsonData.value.Record? && fresh(r.jsonData.value.record) &&
                r.jsonData.value.record.dict == EmptyDict().Put("stackTrace", Str(stack.value))
    {
      var jsonData := data;
      if includeStackTrace && IsTruthy(stack) {
        if jsonData.None? {
          var record := new JsRecord(EmptyDict());
          jsonData := Some(record);
        }
        jsonData.value.dict := jsonData.value.dict.Put("stackTrace", Str(stack.value));
      }
      r := HttpResponse(status, Some(message), None, None, None,
                        if jsonData.Some? then Some(Record(jsonData.value)) else None, None);
    }
  }

  /** The argument of `fromError`: an `HttpError`, or any other `Error` with its message and stack. */
  datatype ErrorValue = AnHttpError(error: HttpError) | OtherError(message: string, stack: Option<string>)

  /**
   * `HttpError.fromError(error, status = 500)`: an `HttpError` is returned as it is;
   * any other error becomes a new `HttpError` with the given status and the error's message
   * and stack.
   */
  method FromError(error: ErrorValue, status: int := 500, capturedStack: Option<string> := None) returns (r: HttpError)
    ensures error.AnHttpError? ==> r == error.error
    ensures error.OtherError? ==>
              fresh(r) && r.status == status && r.message == error.message && r.data.None? &&
              r.stack == (if IsTruthy(error.stack) then error.stack else capturedStack)
  {
    match error
    case AnHttpError(e) =>
      r := e;
    case OtherError(message, stack) =>
      r := new HttpError(status, message, stack, None, capturedStack);
  }

  /** Where a missing parameter was declared: the `location` of a binding error. */
  datatype Location = PathLocation | QueryLocation | HeaderLocation | BodyLocation | FormLocation {
    function Name(): string {
      match this
      case PathLocation => "PATH"
      case QueryLocation => "QUERY"
      case HeaderLocation => "HEADER"
      case BodyLocation => "BODY"
      case FormLocation => "FORM"
    }
  }

  /** The error the parameter binder throws for a missing mandatory parameter. */
  datatype BindingError = BindingError(parameter: string, location: Location) {

    /** The status the binder gives the error: 400. */
    function Status(): int {
      400
    }

    /** The error's message, with the parameter's name between single quotes. */
    function Message(): string {
      MessagePrefix() + parameter + "' not provided."
    }

    function MessagePrefix(): string {
      match location
      case PathLocation => "Mandatory path parameter '"
      case QueryLocation => "Mandatory query parameter '"
      case HeaderLocation => "Mandatory header '"
      case BodyLocation => "Mandatory body parameter '"
      case FormLocation => "Mandatory field '"
    }

    /** The error's data object: `{ parameter, location }`. */
    function Data(): (d: Dict<Value>)
      ensures d.Valid()
      ensures d.keys == ["parameter", "location"]
      ensures d.Get("parameter") == Some(Str(parameter)) && d.Get("location") == Some(Str(location.Name()))
    {
      EmptyDict().Put("parameter", Str(parameter)).Put("location", Str(location.Name()))
    }
  }

  /** `throw new HttpError(400, message, undefined, { parameter, location })` */
  method Throw(e: BindingError, capturedStack: Option<string>) returns (r: HttpError)
    ensures fresh(r) && r.data.Some? && fresh(r.data.value)
    ensures r.status == 400 && r.message == e.Message() && r.data.value.dict == e.Data()
    ensures r.stack == capturedStack
  {
    var data := new JsRecord(e.Data());
    r := new HttpError(e.Status(), e.Message(), None, Some(data), capturedStack);
  }
}
