/** The JSON envelope the REST routes answer with,
    `{ success, msg, errors, data }`, and the status code written with it.
    Writing to the express response is modelled by recording the status and
    body in the returned value. */
module HttpResponses {
  import opened JsValues

  /** An entry of the `errors` list (`IErr`); only its message is modelled. */
  datatype Err = Err(msg: string)

  /** What `HttpResponseError` reads of an operation's `IResult`. */
  datatype OpResult = OpResult(success: bool, data: Value, err: Option<Err>, errorCode: string)

  /** The JSON body sent to the client. */
  datatype Body = Body(success: bool, msg: string, errors: seq<Err>, data: Value)

  /** The response's public fields, and the status code and body it wrote. */
  datatype HttpResponse = HttpResponse(code: int, success: bool, msg: string, errors: seq<Err>,
                                       data: Value, statusCode: int, sent: Body)

  const StatusOk := 200
  const StatusCreated := 201
  const StatusBadRequest := 400
  const StatusUnauthorized := 401
  const StatusForbidden := 403
  const StatusNotFound := 404
  const StatusInternalServerError := 500

  const PhraseOk := "OK"
  const PhraseCreated := "Created"
  const PhraseBadRequest := "Bad Request"
  const PhraseUnauthorized := "Unauthorized"
  const PhraseForbidden := "Forbidden"
  const PhraseNotFound := "Not Found"
  const PhraseInternalServerError := "Internal Server Error"

  const DataInvalidSuffix := ". Data was invalid."

  /** The reason phrase of each status this module uses (the http-status-codes table). */
  function ReasonPhrase(status: int): string
  {
    if status == StatusOk then PhraseOk
    else if status == StatusCreated then PhraseCreated
    else if status == StatusBadRequest then PhraseBadRequest
    else if status == StatusUnauthorized then PhraseUnauthorized
    else if status == StatusForbidden then PhraseForbidden
    else if status == StatusNotFound then PhraseNotFound
    else if status == StatusInternalServerError then PhraseInternalServerError
    else ""
  }

  /** What was written agrees with the fields: the status is `code` and the
      body is exactly `{success, msg, errors, data}`. */
  predicate Consistent(r: HttpResponse) {
    r.statusCode == r.code && r.sent == Body(r.success, r.msg, r.errors, r.data)
  }

  /** A parameter declared `data: any = null` takes its default both when it
      is left out and when `undefined` is passed for it. */
  function DataOrNull(data: Value): (d: Value)
    ensures d != Undefined
    ensures data != Undefined ==> d == data
  {
    if data == Undefined then Null else data
  }

  /** The `HttpResponse` constructor, with its defaults. */
  function NewHttpResponse(code: int := StatusOk, success: bool := true, msg: string := PhraseOk,
                           errors: seq<Err> := [], data: Value := Null): (r: HttpResponse)
    ensures Consistent(r)
    ensures r.code == code && r.success == success && r.msg == msg && r.errors == errors
    ensures r.data == (if data == Undefined then Null else data)
  {
    var d := DataOrNull(data);
    HttpResponse(code, success, msg, errors, d, code, Body(success, msg, errors, d))
  }

  /** The `switch` on the error code: a status and its reason phrase. */
  function ErrorCodeAndMessage(errorCode: string): (r: (int, string))
    ensures r.1 == ReasonPhrase(r.0)
    ensures r.0 == StatusBadRequest <==> errorCode == "400"
    ensures r.0 == StatusUnauthorized <==> errorCode == "401"
    ensures r.0 == StatusForbidden <==> errorCode == "403"
    ensures r.0 == StatusNotFound <==> errorCode == "404"
    ensures r.0 == StatusInternalServerError <==> errorCode !in {"400", "401", "403", "404"}
  {
    match errorCode
    case "400" => (StatusBadRequest, PhraseBadRequest)
    case "401" => (StatusUnauthorized, PhraseUnauthorized)
    case "403" => (StatusForbidden, PhraseForbidden)
    case "404" => (StatusNotFound, PhraseNotFound)
    case _ => (StatusInternalServerError, PhraseInternalServerError)
  }

  /** `HttpResponseError(res, result)`. */
  function HttpResponseError(result: OpResult): (r: HttpResponse)
    ensures Consistent(r)
    ensures !r.success && r.data == Null
    ensures r.code == ErrorCodeAndMessage(result.errorCode).0
    ensures r.errors == (if result.err.Some? then [result.err.value] else [])
    ensures r.msg == ReasonPhrase(r.code) +
      (if result.success && !Truthy(result.data) && r.code == StatusInternalServerError then DataInvalidSuffix else "")
  {
    var (code, phrase) := ErrorCodeAndMessage(result.errorCode);
    var errors := if result.err.Some? then [result.err.value] else [];
    var msg := if result.success && !Truthy(result.data) && phrase == PhraseInternalServerError
               then phrase + DataInvalidSuffix else phrase;
    NewHttpResponse(code, false, msg, errors, Null)
  }

  function HttpResponseOk(data: Value := Null, msg: string := PhraseOk): (r: HttpResponse)
    ensures Consistent(r)
    ensures r.code == StatusOk && r.success && r.errors == [] && r.msg == msg
    ensures r.data == (if data == Undefined then Null else data)
  {
    NewHttpResponse(StatusOk, true, msg, [], DataOrNull(data))
  }

  function HttpResponseCreated(data: Value := Null, msg: string := PhraseCreated): (r: HttpResponse)
    ensures Consistent(r)
    ensures r.code == StatusCreated && r.success && r.errors == [] && r.msg == msg
    ensures r.data == (if data == Undefined then Null else data)
  {
    NewHttpResponse(StatusCreated, true, msg, [], DataOrNull(data))
  }

  /** The five error subclasses share one shape: a fixed status, `success`
      false, the given errors and message, and `data` null. */
  predicate FailureShape(r: HttpResponse, status: int, errors: seq<Err>, msg: string) {
    Consistent(r) && r.code == status && !r.success && r.errors == errors && r.msg == msg && r.data == Null
  }

  function HttpResponseBadRequest(errors: seq<Err> := [], msg: string := PhraseBadRequest): (r: HttpResponse)
    ensures FailureShape(r, StatusBadRequest, errors, msg)
  {
    NewHttpResponse(StatusBadRequest, false, msg, errors, Null)
  }

  function HttpResponseUnauthorized(errors: seq<Err> := [], msg: string := PhraseUnauthorized): (r: HttpResponse)
    ensures FailureShape(r, StatusUnauthorized, errors, msg)
  {
    NewHttpResponse(StatusUnauthorized, false, msg, errors, Null)
  }

  function HttpResponseForbidden(errors: seq<Err> := [], msg: string := PhraseForbidden): (r: HttpResponse)
    ensures FailureShape(r, StatusForbidden, errors, msg)
  {
    NewHttpResponse(StatusForbidden, false, msg, errors, Null)
  }

  function HttpResponseNotFound(errors: seq<Err> := [], msg: string := PhraseNotFound): (r: HttpResponse)
    ensures FailureShape(r, StatusNotFound, errors, msg)
  {
    NewHttpResponse(StatusNotFound, false, msg, errors, Null)
  }

  function HttpResponseInternalServerError(errors: seq<Err> := [], msg: string := PhraseInternalServerError): (r: HttpResponse)
    ensures FailureShape(r, StatusInternalServerError, errors, msg)
  {
    NewHttpResponse(StatusInternalServerError, false, msg, errors, Null)
  }

  /** With no arguments the base response is 200, success, `OK`, no errors, `null` data. */
  lemma DefaultResponse()
    ensures NewHttpResponse() ==
      HttpResponse(200, true, "OK", [], Null, 200, Body(true, "OK", [], Null))
  {
  }

  /** The generic error response is the dedicated subclass for its code,
      given the result's error (if any) and the message it chose. */
  lemma ErrorResponseIsSubclass(result: OpResult)
    ensures var errors := if result.err.Some? then [result.err.value] else [];
      var r := HttpResponseError(result);
      match result.errorCode
      case "400" => r == HttpResponseBadRequest(errors)
      case "401" => r == HttpResponseUnauthorized(errors)
      case "403" => r == HttpResponseForbidden(errors)
      case "404" => r == HttpResponseNotFound(errors)
      case _ => r == HttpResponseInternalServerError(errors, r.msg)
  {
  }

  /** An error response is a client or server error whose message starts
      with its status's reason phrase, and the "Data was invalid" detail is
      only ever added to a 500. */
  lemma ErrorResponseStatusAndMessage(result: OpResult)
    ensures var r := HttpResponseError(result);
      && 400 <= r.code <= 500
      && StartsWith(r.msg, ReasonPhrase(r.code))
      && (r.msg != ReasonPhrase(r.code) <==>
            r.code == StatusInternalServerError && result.success && !Truthy(result.data))
  {
  }
}
