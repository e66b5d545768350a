/**
 * The server's error envelope (server/api/exception_handlers.py): every
 * exception the REST framework turns into a response leaves the server as
 * `{"error": {"code": ..., "message": ..., "details"?: ...}}` with a status code.
 *
 * The framework's own handler is not part of this model: the response it
 * produced (or None) is an input. Python values reachable from `response.data`
 * are modelled by `Value`; `str()` of a list or a dict (Python's repr) is a
 * parameter, `repr`.
 */
module ExceptionHandlers {
  import opened Wrappers

  /**
   * A value of `response.data`: None, a string (an `ErrorDetail` when it has a
   * `code`), a list, or a dict.
   */
  datatype Value =
    | Null
    | Text(text: string, code: Option<string>)
    | Items(items: seq<Value>)
    | Fields(fields: map<string, Value>)

  /** An exception: whether it is the framework's ValidationError, and its `code` attribute if any. */
  datatype Exc = Exc(isValidationError: bool, code: Option<string>)

  /** What the framework's handler produced: its status code and data. */
  datatype FrameworkResponse = FrameworkResponse(statusCode: int, data: Value)

  /** The four locals the handler settles on (exception_handlers.py:10-31). */
  datatype Decision = Decision(errorCode: string, message: string, details: Value, statusCode: int)

  /** `response.data.get(...)` on data that is not a dict. */
  datatype HandlerError = AttributeError

  const HTTP_400_BAD_REQUEST := 400
  const HTTP_500_INTERNAL_SERVER_ERROR := 500

  /** `ERROR_CODES_MAP` (exception_handlers.py:5). */
  const ErrorCodesMap: map<string, string> := map["no_active_account" := "authentication_failed"]

  /** `ERROR_CODES_MAP.get(code, code)`. */
  function MapCode(code: string): string {
    if code in ErrorCodesMap then ErrorCodesMap[code] else code
  }

  /** Python truthiness of a value. */
  predicate Truthy(v: Value) {
    match v
    case Null => false
    case Text(t, _) => t != ""
    case Items(xs) => xs != []
    case Fields(m) => m != map[]
  }

  /** `str(v)`: the text of a string, "None" for None, Python's repr otherwise. */
  function PyStr(v: Value, repr: Value -> string): string {
    match v
    case Null => "None"
    case Text(t, _) => t
    case _ => repr(v)
  }

  /** `sep.join(parts)`. */
  function Join(parts: seq<string>, sep: string): string {
    if parts == [] then ""
    else if |parts| == 1 then parts[0]
    else parts[0] + sep + Join(parts[1..], sep)
  }

  /** `[str(d) for d in items]`. */
  function StrAll(items: seq<Value>, repr: Value -> string): (r: seq<string>)
    ensures |r| == |items|
    ensures forall i :: 0 <= i < |items| ==> r[i] == PyStr(items[i], repr)
  {
    if items == [] then [] else [PyStr(items[0], repr)] + StrAll(items[1..], repr)
  }

  /** `getattr(detail, "code", None)`, when truthy. */
  function DetailCode(detail: Value): Option<string> {
    if detail.Text? && detail.code.Some? && detail.code.value != "" then detail.code else None
  }

  /** Code, message, details and status chosen by `custom_exception_handler` (lines 9-31). */
  function Decide(exc: Exc, response: Option<FrameworkResponse>, repr: Value -> string): Result<Decision, HandlerError> {
    if exc.isValidationError then
      Success(Decision("validation_error", "Validation failed.",
                       if response.Some? then response.value.data else Null,
                       HTTP_400_BAD_REQUEST))
    else if response.Some? then
      var data := response.value.data;
      if !data.Fields? then Failure(AttributeError)
      else
        var errorCode := exc.code.GetOr("error");
        var detail := if "detail" in data.fields then data.fields["detail"] else Null;
        var message := if detail.Items? then Join(StrAll(detail.items, repr), ", ") else PyStr(detail, repr);
        Success(Decision(DetailCode(detail).GetOr(errorCode), message, Null, response.value.statusCode))
    else
      Success(Decision("error", "An error occurred.", Null, HTTP_500_INTERNAL_SERVER_ERROR))
  }

  /** The envelope written into `response.data` (lines 33-41). */
  function Envelope(d: Decision): Value {
    var required := map["code" := Text(MapCode(d.errorCode), None), "message" := Text(d.message, None)];
    Fields(map["error" := Fields(if Truthy(d.details) then required["details" := d.details] else required)])
  }

  /** The envelope as a client reads it back. */
  datatype ReadError = ReadError(code: string, message: string, details: Option<Value>)

  /** Reads `error.code`, `error.message` and the optional `error.details` out of response data. */
  function ReadEnvelope(v: Value): Option<ReadError> {
    if v.Fields? && "error" in v.fields && v.fields["error"].Fields? then
      var e := v.fields["error"].fields;
      if "code" in e && e["code"].Text? && "message" in e && e["message"].Text? then
        Some(ReadError(e["code"].text, e["message"].text, if "details" in e then Some(e["details"]) else None))
      else None
    else None
  }

  /** The response object the framework's handler returned, updated in place. */
  class Response {
    var statusCode: int
    var data: Value

    constructor (statusCode: int, data: Value)
      ensures this.statusCode == statusCode && this.data == data
    {
      this.statusCode, this.data := statusCode, data;
    }
  }

  /** `custom_exception_handler` (exception_handlers.py:8-47). */
  method CustomExceptionHandler(exc: Exc, response: Response?, repr: Value -> string)
    returns (r: Result<Response?, HandlerError>)
    modifies response
    ensures response == null ==> r == Success(null)
    ensures response != null ==>
      match Decide(exc, Some(FrameworkResponse(old(response.statusCode), old(response.data))), repr)
      case Failure(e) => r == Failure(e) && unchanged(response)
      case Success(d) => r == Success(response) && response.data == Envelope(d) && response.statusCode == d.statusCode
  {
    if response == null {
      return Success(null);
    }
    var decision := Decide(exc, Some(FrameworkResponse(response.statusCode, response.data)), repr);
    if decision.Failure? {
      return Failure(decision.error);
    }
    response.data := Envelope(decision.value);
    response.statusCode := decision.value.statusCode;
    r := Success(response);
  }

  // ---------------------------------------------------------------------------
  // Properties

  /**
   * The envelope always carries `error.code` (renamed through the map) and
   * `error.message`, carries `error.details` exactly when the details are
   * truthy, and nothing else; a client reads back what was written.
   */
  lemma EnvelopeRoundTrip(d: Decision)
    ensures Envelope(d).fields.Keys == {"error"}
    ensures Envelope(d).fields["error"].fields.Keys ==
      if Truthy(d.details) then {"code", "message", "details"} else {"code", "message"}
    ensures ReadEnvelope(Envelope(d)) ==
      Some(ReadError(MapCode(d.errorCode), d.message, if Truthy(d.details) then Some(d.details) else None))
  {
  }

  /**
   * A validation error always yields `validation_error`, "Validation failed.",
   * status 400 and the framework's data as details (lines 15-19).
   */
  lemma ValidationErrorDecision(exc: Exc, response: FrameworkResponse, repr: Value -> string)
    requires exc.isValidationError
    ensures Decide(exc, Some(response), repr) ==
      Success(Decision("validation_error", "Validation failed.", response.data, 400))
    ensures ReadEnvelope(Envelope(Decide(exc, Some(response), repr).value)) ==
      Some(ReadError("validation_error", "Validation failed.",
                     if Truthy(response.data) then Some(response.data) else None))
  {
    EnvelopeRoundTrip(Decide(exc, Some(response), repr).value);
  }

  /**
   * Any other handled exception keeps the framework's status code and has no
   * details; its message is the detail's items joined by ", " when the detail
   * is a list and `str(detail)` otherwise; its code is the detail's code, else
   * the exception's, else "error" (lines 20-31).
   */
  lemma OtherErrorDecision(exc: Exc, response: FrameworkResponse, repr: Value -> string)
    requires !exc.isValidationError
    requires response.data.Fields?
    ensures Decide(exc, Some(response), repr).Success?
    ensures var d := Decide(exc, Some(response), repr).value;
      var detail := if "detail" in response.data.fields then response.data.fields["detail"] else Null;
      && d.statusCode == response.statusCode
      && d.details == Null
      && (detail.Items? ==> d.message == Join(StrAll(detail.items, repr), ", "))
      && (!detail.Items? ==> d.message == PyStr(detail, repr))
      && (detail.Text? && detail.code.Some? && detail.code.value != "" ==> d.errorCode == detail.code.value)
      && (DetailCode(detail).None? && exc.code.Some? ==> d.errorCode == exc.code.value)
      && (DetailCode(detail).None? && exc.code.None? ==> d.errorCode == "error")
  {
  }

  /** Data that is not a dict makes `response.data.get` raise before anything is changed. */
  lemma NonDictDataRaises(exc: Exc, response: FrameworkResponse, repr: Value -> string)
    requires !exc.isValidationError && !response.data.Fields?
    ensures Decide(exc, Some(response), repr) == Failure(AttributeError)
  {
  }

  /**
   * `no_active_account` is renamed to `authentication_failed`, every other
   * code passes through, and no envelope ever carries `no_active_account`.
   */
  lemma CodeRenaming(code: string)
    ensures MapCode(code) == if code == "no_active_account" then "authentication_failed" else code
    ensures MapCode(code) != "no_active_account"
    ensures MapCode(MapCode(code)) == MapCode(code)
  {
  }
}
