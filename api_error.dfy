/**
 * `ApiError<E>`, the error type handlers return: a `CoreApiError` or a form
 * error of the handler's own type `E` (galvyn-core/src/stuff/api_error/mod.rs),
 * and the `FormErrors<E>` aggregator that collects such a form error
 * (galvyn-core/src/stuff/api_error/aggregator.rs).
 */
module ApiError {
  import opened Wrappers
  import C = ApiErrorCore

  datatype ApiError<E> = CoreApiError(core: C.CoreApiError) | FormError(form: E)

  /** `e` is the core error `core`. */
  predicate IsCore<E>(e: ApiError<E>, core: C.CoreApiError) {
    e == CoreApiError(core)
  }

  function BadRequest<E>(context: string, caller: C.Location): (e: ApiError<E>)
    ensures IsCore<E>(e, C.BadRequestError(context, caller))
    ensures StatusOf<E>(IntoResponse<E>(e)) == C.BAD_REQUEST
  {
    CoreApiError(C.BadRequestError(context, caller))
  }

  function ServerError<E>(context: string, caller: C.Location): (e: ApiError<E>)
    ensures IsCore<E>(e, C.ServerErrorError(context, caller))
    ensures StatusOf<E>(IntoResponse<E>(e)) == C.INTERNAL_SERVER_ERROR
  {
    CoreApiError(C.ServerErrorError(context, caller))
  }

  function Unauthorized<E>(context: string, caller: C.Location): (e: ApiError<E>)
    ensures IsCore<E>(e, C.UnauthorizedError(context, caller))
    ensures StatusOf<E>(IntoResponse<E>(e)) == C.UNAUTHORIZED
  {
    CoreApiError(C.UnauthorizedError(context, caller))
  }

  /** `map_api_error`: applies `f` to a core error and panics on a form error. */
  function MapApiError<E>(e: ApiError<E>, f: C.CoreApiError -> C.CoreApiError): (r: Outcome<ApiError<E>>)
    ensures r.Panicked? <==> e.FormError?
    ensures r.Returned? ==> r.value == CoreApiError(f(e.core))
  {
    match e
    case CoreApiError(x) => Returned(CoreApiError(f(x)))
    case FormError(_) => Panicked("explicit panic")
  }

  /** `with_source` / `with_boxed_source` */
  function WithBoxedSource<E>(e: ApiError<E>, source: C.ErrorSource): (r: Outcome<ApiError<E>>)
    ensures r.Panicked? <==> e.FormError?
    ensures r.Returned? ==> r.value == CoreApiError(C.WithBoxedSource(e.core, source))
  {
    MapApiError(e, x => C.WithBoxedSource(x, source))
  }

  /** `with_manual_location` */
  function WithManualLocation<E>(e: ApiError<E>, location: C.Location): (r: Outcome<ApiError<E>>)
    ensures r.Panicked? <==> e.FormError?
    ensures r.Returned? ==> r.value == CoreApiError(C.WithManualLocation(e.core, location))
  {
    MapApiError(e, x => C.WithManualLocation(x, location))
  }

  /**
   * The closure `map_server_error(context)` returns, applied to `error`.
   * It never panics, because it builds a core error before adding to it,
   * and it agrees with the core type's own `map_server_error`: a server
   * error with the context and the error as source, at the caller.
   */
  function MapServerError<E>(context: string, caller: C.Location, error: C.ErrorSource): (r: Outcome<ApiError<E>>)
    ensures r.Returned?
    ensures IsCore<E>(r.value, C.MapServerError(context, caller, error))
  {
    var withSource := WithBoxedSource(ServerError<E>(context, caller), error);
    WithManualLocation(withSource.value, caller)
  }

  /** `emit_tracing_event`: the core error's event, nothing for a form error. */
  function TracingEvent<E>(e: ApiError<E>): (r: Option<(C.Level, string)>)
    ensures r.None? <==> e.FormError?
    ensures e.CoreApiError? ==> r == Some(C.TracingLevel(e.core))
  {
    match e
    case CoreApiError(core) => Some(C.TracingLevel(core))
    case FormError(_) => None
  }

  /** The JSON body `ApiJson(FormErrorResponse { error, result: Default::default() })`. */
  datatype FormErrorResponse<E> = FormErrorResponse(error: E)

  /** What `into_response` answers with. */
  datatype Response<E> =
    | CoreResponse(entry: C.BodyEntry)
    | FormResponse(status: C.StatusCode, body: FormErrorResponse<E>)

  function StatusOf<E>(r: Response<E>): C.StatusCode {
    match r
    case CoreResponse(entry) => entry.status
    case FormResponse(status, _) => status
  }

  /** `IntoResponse for ApiError<E>`: core errors answer as before, a form error is a 200 carrying it. */
  function IntoResponse<E>(e: ApiError<E>): (r: Response<E>)
    ensures e.CoreApiError? ==> r == CoreResponse(C.IntoResponse(e.core))
    ensures e.FormError? ==> r == FormResponse(C.OK, FormErrorResponse(e.form))
  {
    match e
    case CoreApiError(core) => CoreResponse(C.IntoResponse(core))
    case FormError(error) => FormResponse(C.OK, FormErrorResponse(error))
  }

  /**
   * `ResponseBody for ApiError<E>`; `isNever` says whether `E` is the
   * uninhabited `Never`, in which case no 200 entry is documented.
   */
  function Body(isNever: bool): (r: seq<C.BodyEntry>)
    ensures |r| == |C.Body()| + (if isNever then 0 else 1)
    ensures isNever ==> r == C.Body()
    ensures !isNever ==> r[0] == C.BodyEntry(C.OK, Some((C.ApplicationJson, Some(C.FormErrorResponseSchema))))
    ensures !isNever ==> r[1..] == C.Body()
  {
    var form := if isNever then [] else [C.BodyEntry(C.OK, Some((C.ApplicationJson, Some(C.FormErrorResponseSchema))))];
    form + C.Body()
  }

  /**
   * Every response status `into_response` can produce is documented by `body`
   * (a form error can only be produced when `E` is not `Never`).
   */
  lemma BodyDocumentsResponses<E>(e: ApiError<E>, isNever: bool)
    requires e.FormError? ==> !isNever
    ensures exists i :: 0 <= i < |Body(isNever)| && Body(isNever)[i].status == StatusOf(IntoResponse(e))
  {
    var b := Body(isNever);
    match e
    case CoreApiError(core) =>
      C.BodyCoversResponses(core);
      var j :| 0 <= j < |C.Body()| && C.Body()[j] == C.IntoResponse(core);
      var i := if isNever then j else j + 1;
      assert b[i] == C.Body()[j];
    case FormError(_) =>
      assert b[0].status == C.OK;
  }

  /** `From<F> for ApiError<E>` where the core error converts from `F`. */
  function FromServerError<E>(error: C.ErrorSource, caller: C.Location): (e: ApiError<E>)
    ensures IsCore<E>(e, C.FromServerError(error, caller))
    ensures StatusOf<E>(IntoResponse<E>(e)) == C.INTERNAL_SERVER_ERROR
  {
    CoreApiError(C.FromServerError(error, caller))
  }

  /** `FormErrors<E>`: a form error `E` that remembers whether any field was set. */
  class FormErrors<E> {
    var inner: E
    var modified: bool

    /** `FormErrors::new` from `E::default()`. */
    constructor (default: E)
      ensures inner == default && !modified
    {
      inner := default;
      modified := false;
    }

    /** `deref`: read access yields the form error and, changing nothing, leaves the flag alone. */
    method Deref() returns (r: E)
      ensures r == inner
    {
      r := inner;
    }

    /** `deref_mut` followed by an edit through the returned reference: the flag is set. */
    method DerefMut(edit: E -> E)
      modifies this
      ensures inner == edit(old(inner)) && modified
    {
      modified := true;
      inner := edit(inner);
    }

    /** `check`: `Err(FormError(inner))` exactly when a field was set. */
    method Check() returns (r: Result<(), ApiError<E>>)
      ensures r.Err? <==> modified
      ensures r.Err? ==> r.error == FormError(inner)
    {
      if modified {
        r := Err(FormError(inner));
      } else {
        r := Ok(());
      }
    }

    /** `fail`: always the form error, whatever the flag says. */
    method Fail<T>() returns (r: Result<T, ApiError<E>>)
      ensures r == Err(FormError(inner))
    {
      r := Err(FormError(inner));
    }
  }

  /**
   * A fresh `FormErrors` checks as `Ok` after any number of reads, and as
   * the edited form error once it has been written to.
   */
  method FormErrorsLifecycle<E>(default: E, edit: E -> E) returns (before: Result<(), ApiError<E>>, after: Result<(), ApiError<E>>)
    ensures before.Ok?
    ensures after == Err(FormError(edit(default)))
  {
    var errors := new FormErrors(default);
    var _ := errors.Deref();
    before := errors.Check();
    errors.DerefMut(edit);
    after := errors.Check();
  }
}
