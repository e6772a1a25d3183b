/**
 * The error responses of the OAuth authorization endpoint
 * (contrib/galvyn-contrib-oauth/src/handler/error.rs). As section 4.1.2.1
 * of RFC 6749 requires, an error is reported to the client by redirecting
 * the user agent to the client's redirection URI with `error`, `state`
 * and `error_description` added to its query; without a usable
 * redirection URI the error is a JSON body instead.
 *
 * URL parsing (`Url::parse`) is the oracle `parse`; a parsed URL is kept
 * as its text before the query and its query pairs. The schema module
 * declaring `AuthErrorType` and `AuthError` is not part of this model: the
 * error types are the codes of section 4.1.2.1 of RFC 6749, and the
 * `AuthError` fields serialize in the order `error`, `state`,
 * `error_description`.
 */
module OauthErrors {
  import opened Wrappers
  import C = ApiErrorCore
  import L = ApiErrorLegacy

  /** `AuthErrorType`: the error codes of section 4.1.2.1 of RFC 6749. */
  datatype AuthErrorType =
    | InvalidRequest | UnauthorizedClient | AccessDenied | UnsupportedResponseType
    | InvalidScope | ServerError | TemporarilyUnavailable

  /**
   * The code a client reads for an error type, the snake-case name of
   * section 4.1.2.1 of RFC 6749; it is read back as the same error type.
   */
  function ErrorCode(t: AuthErrorType): (r: string)
    ensures ErrorOfCode(r) == Some(t)
  {
    match t
    case InvalidRequest => "invalid_request"
    case UnauthorizedClient => "unauthorized_client"
    case AccessDenied => "access_denied"
    case UnsupportedResponseType => "unsupported_response_type"
    case InvalidScope => "invalid_scope"
    case ServerError => "server_error"
    case TemporarilyUnavailable => "temporarily_unavailable"
  }

  /** The error type a client reads from a code. */
  function ErrorOfCode(code: string): Option<AuthErrorType> {
    if code == "invalid_request" then Some(InvalidRequest)
    else if code == "unauthorized_client" then Some(UnauthorizedClient)
    else if code == "access_denied" then Some(AccessDenied)
    else if code == "unsupported_response_type" then Some(UnsupportedResponseType)
    else if code == "invalid_scope" then Some(InvalidScope)
    else if code == "server_error" then Some(ServerError)
    else if code == "temporarily_unavailable" then Some(TemporarilyUnavailable)
    else None
  }

  /** A parsed URL: its text up to the query, and its query pairs in order. */
  datatype Url = Url(base: string, query: seq<(string, string)>)

  /** The parts of `AuthRequest` the builder reads. */
  datatype AuthRequest = AuthRequest(redirectUri: Option<string>, state: Option<string>)

  /** `OauthErrorBuilder`: where and with which state errors of one request are reported. */
  datatype OauthErrorBuilder = OauthErrorBuilder(redirectUri: Option<Url>, state: Option<string>)

  /** `OauthError`. */
  datatype OauthError = OauthError(redirectUri: Option<Url>, state: Option<string>, error: AuthErrorType, description: Option<string>)

  const INVALID_REDIRECT_URL := "Invalid redirect url"
  const INTERNAL_SERVER_ERROR := "Internal server error"

  /**
   * `OauthErrorBuilder::from_request`: without a `redirect_uri` the
   * builder reports as JSON, with the request's state; a `redirect_uri`
   * that does not parse is itself an `invalid_request` error, reported as
   * JSON and without the state; otherwise errors go to the parsed URI.
   */
  function FromRequest(request: AuthRequest, parse: string -> Option<Url>): (r: Result<OauthErrorBuilder, OauthError>)
    ensures request.redirectUri.None? ==> r == Ok(OauthErrorBuilder(None, request.state))
    ensures request.redirectUri.Some? && parse(request.redirectUri.value).None? ==>
      r == Err(OauthError(None, None, InvalidRequest, Some(INVALID_REDIRECT_URL)))
    ensures request.redirectUri.Some? && parse(request.redirectUri.value).Some? ==>
      r == Ok(OauthErrorBuilder(parse(request.redirectUri.value), request.state))
  {
    match request.redirectUri
    case None => Ok(OauthErrorBuilder(None, request.state))
    case Some(text) =>
      match parse(text)
      case None => Err(OauthError(None, None, InvalidRequest, Some(INVALID_REDIRECT_URL)))
      case Some(url) => Ok(OauthErrorBuilder(Some(url), request.state))
  }

  /** `OauthErrorBuilder::new_error`: the builder's target and state, with the error and its description. */
  function NewError(b: OauthErrorBuilder, error: AuthErrorType, description: string): (e: OauthError)
    ensures e.redirectUri == b.redirectUri && e.state == b.state
    ensures e.error == error && e.description == Some(description)
  {
    OauthError(b.redirectUri, b.state, error, Some(description))
  }

  /**
   * The closure `map_rorm_error` returns, applied to a database error: a
   * `server_error` to report, and the internal server error it logs, at
   * the location `map_rorm_error` was called from.
   */
  function MapRormError(b: OauthErrorBuilder, caller: C.Location, error: C.ErrorSource): (r: (OauthError, L.InnerApiError))
    ensures r.0 == NewError(b, ServerError, INTERNAL_SERVER_ERROR)
    ensures r.1.code == L.InternalServerError && r.1.context.None? && r.1.location == caller && r.1.source == Some(error)
    ensures L.TracingLevel<()>(L.ApiError(r.1)) == Some((C.Error, "Server error"))
  {
    (NewError(b, ServerError, INTERNAL_SERVER_ERROR), L.InnerApiError(L.InternalServerError, None, caller, Some(error)))
  }

  /** `AuthError`: what the client is told. */
  datatype AuthError = AuthError(error: AuthErrorType, state: Option<string>, errorDescription: Option<string>)

  /** The query pairs `serde_urlencoded` writes for an `AuthError`; an absent field writes no pair. */
  function QueryPairs(a: AuthError): (r: seq<(string, string)>)
    ensures |r| >= 1 && r[0] == ("error", ErrorCode(a.error))
    ensures |r| == 1 + (if a.state.Some? then 1 else 0) + (if a.errorDescription.Some? then 1 else 0)
    ensures forall p :: p in r ==> p.0 in {"error", "state", "error_description"}
    ensures a.state.Some? ==> r[1] == ("state", a.state.value)
  {
    [("error", ErrorCode(a.error))]
    + (if a.state.Some? then [("state", a.state.value)] else [])
    + (if a.errorDescription.Some? then [("error_description", a.errorDescription.value)] else [])
  }

  /** The value of the first pair with `key`. */
  function Lookup(pairs: seq<(string, string)>, key: string): (r: Option<string>)
    ensures r.Some? ==> (key, r.value) in pairs
  {
    if pairs == [] then None
    else if pairs[0].0 == key then Some(pairs[0].1)
    else Lookup(pairs[1..], key)
  }

  /** How a client reads an error from the query pairs of the redirect, as section 4.1.2.1 of RFC 6749 lays them out. */
  function ReadAuthError(pairs: seq<(string, string)>): Option<AuthError> {
    match Lookup(pairs, "error")
    case None => None
    case Some(code) =>
      match ErrorOfCode(code)
      case None => None
      case Some(t) => Some(AuthError(t, Lookup(pairs, "state"), Lookup(pairs, "error_description")))
  }

  /** The pairs written for an error read back as that error. */
  lemma QueryPairsRoundTrip(a: AuthError)
    ensures ReadAuthError(QueryPairs(a)) == Some(a)
  {
    var pairs := QueryPairs(a);
    var rest := pairs[1..];
    var description := if a.errorDescription.Some? then [("error_description", a.errorDescription.value)] else [];
    assert Lookup(description, "state") == None;
    assert Lookup(description, "error_description") == a.errorDescription;
    if a.state.Some? {
      assert rest == [("state", a.state.value)] + description;
      assert rest[1..] == description;
    } else {
      assert rest == description;
    }
    assert Lookup(rest, "state") == a.state;
    assert Lookup(rest, "error_description") == a.errorDescription;
  }

  /** The response an `OauthError` becomes. */
  datatype OauthResponse = RedirectTo(status: C.StatusCode, location: Url) | JsonError(status: C.StatusCode, body: AuthError)

  /** The error as the client is told it. */
  function Told(e: OauthError): AuthError {
    AuthError(e.error, e.state, e.description)
  }

  /**
   * `into_response`: with a redirection URI, a temporary redirect to it
   * with the error's pairs appended to its query; without one, the error
   * as a JSON body.
   */
  function IntoResponse(e: OauthError): (r: OauthResponse)
    ensures r.RedirectTo? <==> e.redirectUri.Some?
    ensures r.RedirectTo? ==>
      (r.status == C.TEMPORARY_REDIRECT
       && r.location.base == e.redirectUri.value.base
       && |r.location.query| >= |e.redirectUri.value.query|
       && r.location.query[..|e.redirectUri.value.query|] == e.redirectUri.value.query
       && ReadAuthError(r.location.query[|e.redirectUri.value.query|..]) == Some(Told(e)))
    ensures r.JsonError? ==> r == JsonError(C.OK, Told(e))
  {
    match e.redirectUri
    case Some(url) =>
      var original := url.query;
      var query := original + QueryPairs(Told(e));
      assert query[..|original|] == original && query[|original|..] == QueryPairs(Told(e));
      QueryPairsRoundTrip(Told(e));
      RedirectTo(C.TEMPORARY_REDIRECT, url.(query := query))
    case None => JsonError(C.OK, Told(e))
  }

  /**
   * An error response never redirects to a URI the request did not name
   * or that did not parse: a request's errors are redirected exactly when
   * its `redirect_uri` parsed, and then to that URI with the request's
   * state.
   */
  lemma RedirectsOnlyToParsedUri(request: AuthRequest, parse: string -> Option<Url>, error: AuthErrorType, description: string)
    ensures FromRequest(request, parse).Err? ==> IntoResponse(FromRequest(request, parse).error).JsonError?
    ensures FromRequest(request, parse).Ok? ==>
      var r := IntoResponse(NewError(FromRequest(request, parse).value, error, description));
      (r.RedirectTo? <==> request.redirectUri.Some?)
      && (r.RedirectTo? ==> r.location.base == parse(request.redirectUri.value).value.base)
      && Told(NewError(FromRequest(request, parse).value, error, description)).state == request.state
  {
  }

  /** `ResponseBody for OauthError`: the temporary redirect, then the JSON body's entries. */
  function Body(jsonBody: seq<C.BodyEntry>): (r: seq<C.BodyEntry>)
    ensures |r| == |jsonBody| + 1
    ensures r[0] == C.BodyEntry(C.TEMPORARY_REDIRECT, None) && r[1..] == jsonBody
  {
    [C.BodyEntry(C.TEMPORARY_REDIRECT, None)] + jsonBody
  }

  /** Every response an error becomes has its status documented, given the JSON body documents status 200. */
  lemma ResponseDocumented(e: OauthError, jsonBody: seq<C.BodyEntry>)
    requires exists i :: 0 <= i < |jsonBody| && jsonBody[i].status == C.OK
    ensures exists i :: 0 <= i < |Body(jsonBody)| && Body(jsonBody)[i].status == IntoResponse(e).status
  {
    if IntoResponse(e).RedirectTo? {
      assert Body(jsonBody)[0].status == C.TEMPORARY_REDIRECT;
    } else {
      var i :| 0 <= i < |jsonBody| && jsonBody[i].status == C.OK;
      assert Body(jsonBody)[i + 1] == jsonBody[i];
    }
  }
}
