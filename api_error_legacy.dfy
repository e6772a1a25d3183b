/**
 * The earlier revision of the handler error type, built on the five-valued
 * `ApiStatusCode` (galvyn-core/src/stuff/api_error.rs). The authentication
 * handlers of the auth contrib crate report their errors in these terms.
 */
module ApiErrorLegacy {
  import opened Wrappers
  import opened Text
  import C = ApiErrorCore

  datatype ApiStatusCode = Unauthenticated | BadRequest | InvalidJson | MissingPrivileges | InternalServerError

  datatype InnerApiError = InnerApiError(
    code: ApiStatusCode,
    context: Option<string>,
    location: C.Location,
    source: Option<C.ErrorSource>)

  datatype ApiError<T> = ApiError(inner: InnerApiError) | FormError(form: T)

  /** `e` is a plain error whose core counterpart is `core`. */
  predicate TranslatesTo<T>(e: ApiError<T>, core: C.CoreApiError) {
    e.ApiError? && Translate(e.inner) == core
  }

  /** `ApiError::new`: the code, the context, the caller's location, no source. */
  function New<T>(code: ApiStatusCode, context: string, caller: C.Location): (e: ApiError<T>)
    ensures TranslatesTo<T>(e, C.New(TranslateCode(code), Some(context), caller))
    ensures e.ApiError? ==> e.inner.code == code
  {
    ApiError(InnerApiError(code, Some(context), caller, None))
  }

  function BadRequestError<T>(context: string, caller: C.Location): (e: ApiError<T>)
    ensures TranslatesTo<T>(e, C.BadRequestError(context, caller))
    ensures e.ApiError? ==> e.inner.code == BadRequest
  {
    New(BadRequest, context, caller)
  }

  function ServerError<T>(context: string, caller: C.Location): (e: ApiError<T>)
    ensures TranslatesTo<T>(e, C.ServerErrorError(context, caller))
    ensures e.ApiError? ==> e.inner.code == InternalServerError
  {
    New(InternalServerError, context, caller)
  }

  /** `with_source` / `with_boxed_source`: panics on a form error. */
  function WithBoxedSource<T>(e: ApiError<T>, source: C.ErrorSource): (r: Outcome<ApiError<T>>)
    ensures r.Panicked? <==> e.FormError?
    ensures r.Returned? ==> r.value == ApiError(e.inner.(source := Some(source)))
  {
    match e
    case ApiError(inner) => Returned(ApiError(inner.(source := Some(source))))
    case FormError(_) => Panicked("explicit panic")
  }

  /** `with_manual_location`: panics on a form error. */
  function WithManualLocation<T>(e: ApiError<T>, location: C.Location): (r: Outcome<ApiError<T>>)
    ensures r.Panicked? <==> e.FormError?
    ensures r.Returned? ==> r.value == ApiError(e.inner.(location := location))
  {
    match e
    case ApiError(inner) => Returned(ApiError(inner.(location := location)))
    case FormError(_) => Panicked("explicit panic")
  }

  /**
   * The place of the expression `Self::server_error(context)` inside the
   * closure that `map_server_error` returns (line 171, column 22 of
   * api_error.rs). `server_error` is `#[track_caller]`, so this is the
   * location it records when the closure runs.
   */
  const MapServerErrorSite: C.Location := C.Location("galvyn-core/src/stuff/api_error.rs", 171, 22)

  /**
   * The closure `map_server_error(context)` returns, applied to `error`, as
   * written: the error records the site inside the closure, whatever `caller`
   * invoked `map_server_error`.
   */
  function MapServerError<T>(context: string, caller: C.Location, error: C.ErrorSource): (r: Outcome<ApiError<T>>)
    ensures r.Returned? && r.value.ApiError?
    ensures r.value.inner.code == InternalServerError && r.value.inner.context == Some(context)
    ensures r.value.inner.source == Some(error) && r.value.inner.location == MapServerErrorSite
  {
    WithBoxedSource(ServerError<T>(context, MapServerErrorSite), error)
  }

  /** The closure never panics and records its own site, not `caller`. */
  lemma MapServerErrorRecordsSite<T>(context: string, caller: C.Location, error: C.ErrorSource)
    ensures MapServerError<T>(context, caller, error).Returned?
    ensures TranslatesTo<T>(MapServerError<T>(context, caller, error).value, C.MapServerError(context, MapServerErrorSite, error))
  {
  }

  /**
   * Any two call sites of `map_server_error` give the same error, so the
   * error of a call at line 10 of a handler does not record that line.
   */
  lemma MapServerErrorLosesCaller<T>(context: string, error: C.ErrorSource)
    ensures forall c1, c2 :: MapServerError<T>(context, c1, error) == MapServerError<T>(context, c2, error)
    ensures var here := C.Location("src/handler.rs", 10, 5);
      MapServerError<T>(context, here, error).value.inner.location != here
  {
    forall c1, c2
      ensures MapServerError<T>(context, c1, error) == MapServerError<T>(context, c2, error)
    {
      MapServerErrorRecordsSite<T>(context, c1, error);
      MapServerErrorRecordsSite<T>(context, c2, error);
    }
  }

  /**
   * `map_server_error` as its `#[track_caller]` attribute means it: the
   * location of its caller is captured and recorded, as the later core error
   * type does.
   */
  function MapServerErrorAtCaller<T>(context: string, caller: C.Location, error: C.ErrorSource): Outcome<ApiError<T>> {
    var e := WithBoxedSource(ServerError<T>(context, caller), error);
    WithManualLocation(e.value, caller)
  }

  /** With the caller captured, the legacy closure agrees with the core revision. */
  lemma MapServerErrorAtCallerAgrees<T>(context: string, caller: C.Location, error: C.ErrorSource)
    ensures MapServerErrorAtCaller<T>(context, caller, error).Returned?
    ensures TranslatesTo<T>(MapServerErrorAtCaller<T>(context, caller, error).value, C.MapServerError(context, caller, error))
  {
  }

  /**
   * `Display for InnerApiError`: every client code is shown as "Bad
   * Request", an internal server error as "Server Error"; the location
   * comes last.
   */
  function Display(e: InnerApiError): (r: string)
    ensures C.StatusOfText(r) == Some(if e.code == InternalServerError then C.ServerError else C.BadRequest)
    ensures EndsWith(r, " at '" + C.LocationText(e.location) + "'")
  {
    var code := if e.code == InternalServerError then C.ServerError else C.BadRequest;
    var head, ctx, src, tail := C.StatusText(code), C.ContextText(e.context), C.SourceText(e.source), C.AtText(e.location);
    C.ConcatParts(head, ctx, src, tail);
    C.StatusOfStatusText(code, ctx + src + tail);
    head + ctx + src + tail
  }

  /**
   * The HTTP status `into_response` answers with: that of the core
   * counterpart, 500 exactly for an internal server error.
   */
  function HttpStatus(code: ApiStatusCode): (r: C.StatusCode)
    ensures r == C.ToHttp(TranslateCode(code))
    ensures r == C.INTERNAL_SERVER_ERROR <==> code == InternalServerError
  {
    match code
    case InternalServerError => C.INTERNAL_SERVER_ERROR
    case Unauthenticated => C.UNAUTHORIZED
    case _ => C.BAD_REQUEST
  }

  /**
   * The `message` of the `ApiErrorResponse` body. It identifies the code:
   * a client can tell the codes apart although three share a status.
   */
  function Message(code: ApiStatusCode): (r: string)
    ensures CodeOfMessage(r) == Some(code)
  {
    match code
    case Unauthenticated => "Unauthenticated"
    case BadRequest =>
      assert "Bad request"[0] != "Unauthenticated"[0];
      "Bad request"
    case InvalidJson =>
      assert "Invalid json"[0] != "Unauthenticated"[0] && "Invalid json"[0] != "Bad request"[0];
      "Invalid json"
    case MissingPrivileges =>
      assert "Missing privileges"[0] != "Unauthenticated"[0] && "Missing privileges"[0] != "Bad request"[0];
      assert "Missing privileges"[0] != "Invalid json"[0];
      "Missing privileges"
    case InternalServerError =>
      assert "Internal server error"[0] != "Unauthenticated"[0] && "Internal server error"[0] != "Bad request"[0];
      assert |"Internal server error"| != |"Invalid json"| && "Internal server error"[0] != "Missing privileges"[0];
      "Internal server error"
  }

  function CodeOfMessage(message: string): Option<ApiStatusCode> {
    if message == "Unauthenticated" then Some(Unauthenticated)
    else if message == "Bad request" then Some(BadRequest)
    else if message == "Invalid json" then Some(InvalidJson)
    else if message == "Missing privileges" then Some(MissingPrivileges)
    else if message == "Internal server error" then Some(InternalServerError)
    else None
  }

  /** The core status code a legacy code corresponds to. */
  function TranslateCode(code: ApiStatusCode): C.ApiErrorStatusCode {
    match code
    case InternalServerError => C.ServerError
    case Unauthenticated => C.Unauthorized
    case _ => C.BadRequest
  }

  function Translate(e: InnerApiError): C.CoreApiError {
    C.CoreApiError(TranslateCode(e.code), e.context, e.location, e.source)
  }

  /**
   * The two revisions agree: a legacy error answers with the HTTP status of
   * its core counterpart, and it displays as the core counterpart does except
   * for an unauthenticated error, which the legacy text calls a bad request.
   */
  lemma AgreesWithCore(e: InnerApiError)
    ensures HttpStatus(e.code) == C.ToHttp(TranslateCode(e.code))
    ensures e.code != Unauthenticated ==> Display(e) == C.Display(Translate(e))
    ensures e.code == Unauthenticated ==> C.StatusOfText(Display(e)) == Some(C.BadRequest)
  {
  }

  /** `emit_tracing_event`: nothing for a form error, error level exactly for an internal server error. */
  function TracingLevel<T>(e: ApiError<T>): (r: Option<(C.Level, string)>)
    ensures r.None? <==> e.FormError?
    ensures r.Some? ==> (r.value.0 == C.Error <==> HttpStatus(e.inner.code) == C.INTERNAL_SERVER_ERROR)
    ensures r.Some? ==> r.value == C.TracingLevel(Translate(e.inner))
  {
    match e
    case FormError(_) => None
    case ApiError(inner) =>
      if inner.code == InternalServerError then Some((C.Error, "Server error")) else Some((C.Debug, "Client error"))
  }

  /** The JSON bodies `into_response` writes. */
  datatype ResponseBody<T> =
    | ApiErrorResponse(statusCode: ApiStatusCode, message: string)
    | FormErrorResponse(error: T, resultIsErr: bool)

  function IntoResponse<T>(e: ApiError<T>): (r: (C.StatusCode, ResponseBody<T>))
    ensures e.ApiError? ==> r == (HttpStatus(e.inner.code), ApiErrorResponse(e.inner.code, Message(e.inner.code)))
    ensures e.FormError? ==> r == (C.OK, FormErrorResponse(e.form, true))
  {
    match e
    case ApiError(inner) => (HttpStatus(inner.code), ApiErrorResponse(inner.code, Message(inner.code)))
    case FormError(error) => (C.OK, FormErrorResponse(error, true))
  }

  /** `ResponseBody for ApiError<T>`; `isNever` says whether `T` is `Never`. */
  function Body(isNever: bool): (r: seq<C.BodyEntry>)
    ensures |r| == (if isNever then 3 else 4)
    ensures !isNever ==> r[0] == C.BodyEntry(C.OK, Some((C.ApplicationJson, Some(C.FormErrorResponseSchema))))
  {
    var api := Some((C.ApplicationJson, Some(C.ApiErrorResponseSchema)));
    (if isNever then [] else [C.BodyEntry(C.OK, Some((C.ApplicationJson, Some(C.FormErrorResponseSchema))))])
    + [C.BodyEntry(C.BAD_REQUEST, api), C.BodyEntry(C.UNAUTHORIZED, api), C.BodyEntry(C.INTERNAL_SERVER_ERROR, api)]
  }

  /**
   * The documented statuses are those of the core type (in another order),
   * and every status `into_response` produces is documented.
   */
  lemma BodyMatchesCore<T>(e: ApiError<T>, isNever: bool)
    requires e.FormError? ==> !isNever
    ensures multiset(Body(true)) == multiset(C.Body())
    ensures exists i :: 0 <= i < |Body(isNever)| && Body(isNever)[i].status == IntoResponse(e).0
  {
    var core := C.Body();
    assert core[0].status == C.BAD_REQUEST && core[1].status == C.INTERNAL_SERVER_ERROR && core[2].status == C.UNAUTHORIZED;
    assert core == [core[0], core[1], core[2]];
    assert Body(true) == [core[0], core[2], core[1]];
    var b := Body(isNever);
    var off := if isNever then 0 else 1;
    if e.ApiError? {
      var k := if e.inner.code == InternalServerError then 2 else if e.inner.code == Unauthenticated then 1 else 0;
      assert b[off + k].status == IntoResponse(e).0;
    } else {
      assert b[0].status == IntoResponse(e).0;
    }
  }

  /** `From<UpdateBuilder<.., Empty>>`: an update without any column set is a bad request. */
  function FromEmptyUpdate<T>(caller: C.Location): (e: ApiError<T>)
    ensures TranslatesTo<T>(e, C.BadRequestError("Nothing to update", caller))
    ensures e.ApiError? ==> e.inner.code == BadRequest
  {
    BadRequestError("Nothing to update", caller)
  }

  /** `From` for database, session and anyhow errors: an internal server error without context. */
  function FromServerError<T>(error: C.ErrorSource, caller: C.Location): (e: ApiError<T>)
    ensures TranslatesTo<T>(e, C.FromServerError(error, caller))
  {
    ApiError(InnerApiError(InternalServerError, None, caller, Some(error)))
  }

  /**
   * The older revision's `FormErrors` aggregator: the same flag discipline
   * as the newer one, but `check` and `fail` build this revision's
   * `ApiError::FormError`.
   */
  class FormErrors<E> {
    var inner: E
    var modified: bool

    /** `FormErrors::new` from `E::default()`. */
    constructor (default: E)
      ensures inner == default && !modified
    {
      inner := default;
      modified := false;
    }

    /** `deref`: read access yields the form error and leaves the flag alone. */
    method Deref() returns (r: E)
      ensures r == inner
    {
      r := inner;
    }

    /** `deref_mut` followed by an edit through the returned reference: the flag is set. */
    method DerefMut(edit: E -> E)
      modifies this
      ensures inner == edit(old(inner)) && modified
    {
      modified := true;
      inner := edit(inner);
    }

    /** `check`: `Err(FormError(inner))` exactly when a field was set. */
    method Check() returns (r: Result<(), ApiError<E>>)
      ensures r.Err? <==> modified
      ensures r.Err? ==> r.error == FormError(inner)
    {
      if modified {
        r := Err(FormError(inner));
      } else {
        r := Ok(());
      }
    }

    /** `fail`: always the form error, whatever the flag says. */
    method Fail<T>() returns (r: Result<T, ApiError<E>>)
      ensures r == Err(FormError(inner))
    {
      r := Err(FormError(inner));
    }
  }

  /**
   * A fresh `FormErrors` checks as `Ok` after any number of reads; once it
   * has been written to, the check is the edited form error, which the
   * client receives as a 200 response carrying it.
   */
  method FormErrorsLifecycle<E>(default: E, edit: E -> E) returns (before: Result<(), ApiError<E>>, after: Result<(), ApiError<E>>)
    ensures before.Ok?
    ensures after == Err(FormError(edit(default)))
    ensures IntoResponse(after.error) == (C.OK, FormErrorResponse(edit(default), true))
  {
    var errors := new FormErrors(default);
    var _ := errors.Deref();
    before := errors.Check();
    errors.DerefMut(edit);
    after := errors.Check();
  }
}
