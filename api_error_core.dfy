/**
 * The status codes, the `CoreApiError` record and its builders, its `Display`
 * text, its conversions and its OpenAPI response list
 * (galvyn-core/src/stuff/api_error/core.rs).
 */
module ApiErrorCore {
  import opened Wrappers
  import opened Text

  /** `&'static Location<'static>` as captured by `#[track_caller]`. */
  datatype Location = Location(file: string, line: nat, column: nat)

  /** `Location`'s `Display`: `file:line:column`. */
  function LocationText(l: Location): string {
    l.file + ":" + NatToString(l.line) + ":" + NatToString(l.column)
  }

  /** A boxed `dyn Error`, kept as the text its `Display` produces. */
  datatype ErrorSource = ErrorSource(display: string)

  /** An HTTP status code number. */
  type StatusCode = nat

  const OK: StatusCode := 200
  const SEE_OTHER: StatusCode := 303
  const TEMPORARY_REDIRECT: StatusCode := 307
  const PERMANENT_REDIRECT: StatusCode := 308
  const BAD_REQUEST: StatusCode := 400
  const UNAUTHORIZED: StatusCode := 401
  const INTERNAL_SERVER_ERROR: StatusCode := 500

  /** The media type and optional schema of one documented response body. */
  datatype Mime = ApplicationJson | TextPlainUtf8 | TextHtmlUtf8 | ApplicationOctetStream
                | ApplicationWwwFormUrlencoded | ApplicationXEmpty
  datatype SchemaRef = ApiErrorResponseSchema | FormErrorResponseSchema | AuthErrorSchema | TypeSchema(name: string)
  datatype BodyEntry = BodyEntry(status: StatusCode, content: Option<(Mime, Option<SchemaRef>)>)

  datatype ApiErrorStatusCode = BadRequest | ServerError | Unauthorized

  /** `ApiErrorStatusCode::to_http`: a 4xx or 5xx status that names the code back. */
  function ToHttp(code: ApiErrorStatusCode): (r: StatusCode)
    ensures FromHttp(r) == Some(code)
    ensures 400 <= r < 600
  {
    match code
    case BadRequest => BAD_REQUEST
    case ServerError => INTERNAL_SERVER_ERROR
    case Unauthorized => UNAUTHORIZED
  }

  /** The partial inverse of `ToHttp`. */
  function FromHttp(status: StatusCode): Option<ApiErrorStatusCode> {
    if status == BAD_REQUEST then Some(BadRequest)
    else if status == INTERNAL_SERVER_ERROR then Some(ServerError)
    else if status == UNAUTHORIZED then Some(Unauthorized)
    else None
  }

  lemma ToHttpRoundTrip(code: ApiErrorStatusCode, status: StatusCode)
    ensures FromHttp(ToHttp(code)) == Some(code)
    ensures FromHttp(status) == Some(code) <==> ToHttp(code) == status
  {
  }

  /** `ApiErrorStatusCode::all`: every status code, each exactly once. */
  function All(): (r: seq<ApiErrorStatusCode>)
    ensures |r| == 3
    ensures forall i, j :: 0 <= i < j < |r| ==> r[i] != r[j]
  {
    [BadRequest, ServerError, Unauthorized]
  }

  /** `All()` lists every status code. */
  lemma AllComplete(code: ApiErrorStatusCode)
    ensures code in All()
  {
    match code
    case BadRequest => assert All()[0] == code;
    case ServerError => assert All()[1] == code;
    case Unauthorized => assert All()[2] == code;
  }

  datatype CoreApiError = CoreApiError(
    statusCode: ApiErrorStatusCode,
    context: Option<string>,
    location: Location,
    source: Option<ErrorSource>)

  /** `CoreApiError::new`: the given code and context, the caller's location, no source. */
  function New(code: ApiErrorStatusCode, context: Option<string>, caller: Location): (e: CoreApiError)
    ensures e.statusCode == code && e.context == context
    ensures e.location == caller && e.source == None
  {
    CoreApiError(code, context, caller, None)
  }

  /** `CoreApiError::bad_request`: answered with 400, at the caller, with the given context and no source. */
  function BadRequestError(context: string, caller: Location): (e: CoreApiError)
    ensures e.statusCode == BadRequest && ToHttp(e.statusCode) == BAD_REQUEST
    ensures e.context == Some(context) && e.location == caller && e.source == None
  {
    New(BadRequest, Some(context), caller)
  }

  /** `CoreApiError::server_error`: answered with 500, at the caller, with the given context and no source. */
  function ServerErrorError(context: string, caller: Location): (e: CoreApiError)
    ensures e.statusCode == ServerError && ToHttp(e.statusCode) == INTERNAL_SERVER_ERROR
    ensures e.context == Some(context) && e.location == caller && e.source == None
  {
    New(ServerError, Some(context), caller)
  }

  /** `CoreApiError::unauthorized`: answered with 401, at the caller, with the given context and no source. */
  function UnauthorizedError(context: string, caller: Location): (e: CoreApiError)
    ensures e.statusCode == Unauthorized && ToHttp(e.statusCode) == UNAUTHORIZED
    ensures e.context == Some(context) && e.location == caller && e.source == None
  {
    New(Unauthorized, Some(context), caller)
  }

  /** `with_boxed_source` (and `with_source`, which boxes first): the source is set, nothing else changes. */
  function WithBoxedSource(e: CoreApiError, source: ErrorSource): (r: CoreApiError)
    ensures r.source == Some(source)
    ensures r.statusCode == e.statusCode && r.context == e.context && r.location == e.location
  {
    e.(source := Some(source))
  }

  /** `with_manual_location`: the location is replaced, nothing else changes. */
  function WithManualLocation(e: CoreApiError, location: Location): (r: CoreApiError)
    ensures r.location == location
    ensures r.statusCode == e.statusCode && r.context == e.context && r.source == e.source
  {
    e.(location := location)
  }

  /**
   * The two builders touch disjoint fields: they commute, and a second call of
   * the same builder overrides the first.
   */
  lemma BuildersIndependent(e: CoreApiError, s1: ErrorSource, s2: ErrorSource, l1: Location, l2: Location)
    ensures WithManualLocation(WithBoxedSource(e, s1), l1) == WithBoxedSource(WithManualLocation(e, l1), s1)
    ensures WithBoxedSource(WithBoxedSource(e, s1), s2) == WithBoxedSource(e, s2)
    ensures WithManualLocation(WithManualLocation(e, l1), l2) == WithManualLocation(e, l2)
  {
  }

  /**
   * The closure returned by `map_server_error(context)` at `caller`, applied to `error`:
   * a server error with that context, the error as source and the location of
   * the call to `map_server_error` (not the location of the closure's call).
   */
  function MapServerError(context: string, caller: Location, error: ErrorSource): (e: CoreApiError)
    ensures e.statusCode == ServerError && e.context == Some(context)
    ensures e.source == Some(error) && e.location == caller
  {
    var inner := ServerErrorError(context, caller);
    WithManualLocation(WithBoxedSource(inner, error), caller)
  }

  /**
   * `Display for CoreApiError`: the text names the status code first and
   * the location last, and it contains the context (quoted) whenever
   * there is one.
   */
  function Display(e: CoreApiError): (r: string)
    ensures StatusOfText(r) == Some(e.statusCode)
    ensures EndsWith(r, " at '" + LocationText(e.location) + "'")
    ensures e.context.Some? ==> StartsWith(r, StatusText(e.statusCode) + " '" + e.context.value + "'")
  {
    var head, ctx, src, tail := StatusText(e.statusCode), ContextText(e.context), SourceText(e.source), AtText(e.location);
    ConcatParts(head, ctx, src, tail);
    StatusOfStatusText(e.statusCode, ctx + src + tail);
    assert e.context.Some? ==> head + ctx == StatusText(e.statusCode) + " '" + e.context.value + "'";
    head + ctx + src + tail
  }

  function ContextText(context: Option<string>): string {
    match context case Some(c) => " '" + c + "'" case None => ""
  }

  function SourceText(source: Option<ErrorSource>): string {
    match source case Some(s) => " cause by '" + s.display + "'" case None => ""
  }

  function AtText(l: Location): string {
    " at '" + LocationText(l) + "'"
  }

  function StatusText(code: ApiErrorStatusCode): string {
    match code
    case Unauthorized => "Unauthorized"
    case BadRequest => "Bad Request"
    case ServerError => "Server Error"
  }

  /** Reads the status code back from the head of a `Display` text. */
  function StatusOfText(text: string): Option<ApiErrorStatusCode> {
    if StartsWith(text, "Unauthorized") then Some(Unauthorized)
    else if StartsWith(text, "Bad Request") then Some(BadRequest)
    else if StartsWith(text, "Server Error") then Some(ServerError)
    else None
  }

  lemma StartsWithConcat(a: string, b: string)
    ensures StartsWith(a + b, a)
  {
    assert (a + b)[..|a|] == a;
  }

  lemma EndsWithConcat(a: string, b: string)
    ensures EndsWith(a + b, b)
  {
    assert (a + b)[|a + b| - |b|..] == b;
  }

  /** The status word at the head of any text is read back by `StatusOfText`. */
  lemma StatusOfStatusText(code: ApiErrorStatusCode, rest: string)
    ensures StatusOfText(StatusText(code) + rest) == Some(code)
  {
    var t := StatusText(code) + rest;
    StartsWithConcat(StatusText(code), rest);
    match code
    case Unauthorized =>
    case BadRequest =>
      assert t[0] == 'B' && "Unauthorized"[0] == 'U';
    case ServerError =>
      assert t[0] == 'S' && "Unauthorized"[0] == 'U' && "Bad Request"[0] == 'B';
  }

  lemma ConcatParts(a: string, b: string, c: string, d: string)
    ensures StartsWith(a + b + c + d, a)
    ensures StartsWith(a + b + c + d, a + b)
    ensures EndsWith(a + b + c + d, d)
    ensures a + b + c + d == a + (b + c + d)
  {
    StartsWithConcat(a, b + c + d);
    StartsWithConcat(a + b, c + d);
    EndsWithConcat(a + b + c, d);
  }

  /** The level of the event `emit_tracing_event` writes. */
  datatype Level = Debug | Error

  /** `emit_tracing_event`: client errors at debug level as "Client error", server errors at error level. */
  function TracingLevel(e: CoreApiError): (r: (Level, string))
    ensures r.0 == Error <==> ToHttp(e.statusCode) == INTERNAL_SERVER_ERROR
    ensures r.1 == (if r.0 == Error then "Server error" else "Client error")
  {
    match e.statusCode
    case Unauthorized => (Debug, "Client error")
    case BadRequest => (Debug, "Client error")
    case ServerError => (Error, "Server error")
  }

  /** `IntoResponse for CoreApiError`: the status of the code with an `ApiErrorResponse` JSON body. */
  function IntoResponse(e: CoreApiError): (r: BodyEntry)
    ensures FromHttp(r.status) == Some(e.statusCode)
    ensures r.content == Some((ApplicationJson, Some(ApiErrorResponseSchema)))
  {
    BodyEntry(ToHttp(e.statusCode), Some((ApplicationJson, Some(ApiErrorResponseSchema))))
  }

  function BodyOf(codes: seq<ApiErrorStatusCode>): (r: seq<BodyEntry>)
    ensures |r| == |codes|
    ensures forall i :: 0 <= i < |codes| ==>
      r[i] == BodyEntry(ToHttp(codes[i]), Some((ApplicationJson, Some(ApiErrorResponseSchema))))
  {
    if codes == [] then [] else
    [BodyEntry(ToHttp(codes[0]), Some((ApplicationJson, Some(ApiErrorResponseSchema))))] + BodyOf(codes[1..])
  }

  /** `ResponseBody for CoreApiError`: one JSON entry per status code, in `All()` order. */
  function Body(): (r: seq<BodyEntry>)
    ensures |r| == |All()|
    ensures forall i :: 0 <= i < |r| ==> r[i].status == ToHttp(All()[i])
  {
    BodyOf(All())
  }

  /** Every response `IntoResponse` can produce is documented by `Body`, and `Body` lists no status twice. */
  lemma BodyCoversResponses(e: CoreApiError)
    ensures IntoResponse(e) in Body()
    ensures forall i, j :: 0 <= i < j < |Body()| ==> Body()[i].status != Body()[j].status
  {
    var b := Body();
    var k := if e.statusCode == BadRequest then 0 else if e.statusCode == ServerError then 1 else 2;
    assert All()[k] == e.statusCode;
    assert b[k] == IntoResponse(e);
    forall i, j | 0 <= i < j < |b| ensures b[i].status != b[j].status {
      ToHttpRoundTrip(All()[i], b[j].status);
    }
  }

  /** `From<E: IntoServerError>` (database, session and anyhow errors). */
  function FromServerError(error: ErrorSource, caller: Location): (e: CoreApiError)
    ensures e.statusCode == ServerError && e.context == None
    ensures e.source == Some(error) && e.location == caller
  {
    CoreApiError(ServerError, None, caller, Some(error))
  }

  /** `From<UpdateBuilder<.., Empty>>`: an update without any column set is a bad request. */
  function FromEmptyUpdate(caller: Location): (e: CoreApiError)
    ensures e.statusCode == BadRequest && e.context == Some("Nothing to update")
    ensures e.source == None && e.location == caller
  {
    BadRequestError("Nothing to update", caller)
  }
}
