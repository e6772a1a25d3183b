/**
 * The OpenID Connect client of the authentication contrib crate
 * (contrib/galvyn-contrib-auth/src/logic/oidc.rs): building the
 * authorization request, checking the provider's answer, and discovery.
 * The provider, its HTTP endpoints and all cryptography are the oracle
 * functions of `Provider`; randomness is passed in as `Randomness`.
 */
module OidcLogic {
  import opened Wrappers
  import L = ApiErrorLegacy
  import opened AuthModels

  datatype CsrfToken = CsrfToken(secret: string)
  datatype Nonce = Nonce(secret: string)
  datatype PkceCodeVerifier = PkceCodeVerifier(secret: string)
  datatype AuthorizationCode = AuthorizationCode(code: string)

  /** The S256 code challenge of section 4.2 of RFC 7636, kept symbolic: the challenge derived from a verifier. */
  datatype PkceCodeChallenge = S256(verifier: PkceCodeVerifier)

  datatype Url = Url(text: string)
  datatype AccessToken = AccessToken(secret: string)
  datatype IdToken = IdToken(raw: string)
  datatype SigningAlg = SigningAlg(name: string)
  datatype SigningKey = SigningKey(id: string)
  datatype AccessTokenHash = AccessTokenHash(bytes: seq<bv8>)

  /** The verified claims of an id token that the handlers read. */
  datatype IdTokenClaims = IdTokenClaims(
    issuer: string,
    subject: string,
    accessTokenHash: Option<AccessTokenHash>,
    preferredUsername: Option<string>)

  datatype TokenResponse = TokenResponse(accessToken: AccessToken, idToken: Option<IdToken>)

  /** `RequestTokenError`: the provider answered with an error, or the request failed some other way. */
  datatype RequestTokenError = ServerResponse(error: string) | Request(error: string) | Parse(error: string) | Other(error: string)

  /** The state kept in the session between the two halves of a login. */
  datatype OidcSessionState = OidcSessionState(csrfToken: CsrfToken, pkceCodeVerifier: PkceCodeVerifier, nonce: Nonce)

  /** The query the provider redirects the user back with. */
  datatype OidcRequestState = OidcRequestState(code: AuthorizationCode, state: CsrfToken)

  /** The values `new_random` and `new_random_sha256` draw. */
  datatype Randomness = Randomness(csrfToken: CsrfToken, nonce: Nonce, pkceCodeVerifier: PkceCodeVerifier)

  /** The discovered provider: every network round trip and every signature check. */
  datatype Provider = Provider(
    authorizeUrl: (CsrfToken, Nonce, PkceCodeChallenge, seq<string>) -> Url,
    exchangeCode: (AuthorizationCode, PkceCodeVerifier) -> Result<TokenResponse, RequestTokenError>,
    claims: (IdToken, Nonce) -> Option<IdTokenClaims>,
    signingAlg: IdToken -> Option<SigningAlg>,
    signingKey: IdToken -> Option<SigningKey>,
    hashAccessToken: (AccessToken, SigningAlg, SigningKey) -> Option<AccessTokenHash>)

  const SCOPES: seq<string> := ["profile", "email"]

  /**
   * `Client::begin_login`: the authorization URL for the code flow with the
   * S256 challenge of a fresh PKCE verifier and the scopes `profile` and
   * `email`, and the state to keep: the very CSRF token, nonce and verifier
   * the URL was built from.
   */
  function BeginLogin(p: Provider, rnd: Randomness): (r: Result<(Url, OidcSessionState), HandlerError>)
    ensures r.Ok?
    ensures r.value.1 == OidcSessionState(rnd.csrfToken, rnd.pkceCodeVerifier, rnd.nonce)
    ensures r.value.0 == p.authorizeUrl(r.value.1.csrfToken, r.value.1.nonce, S256(r.value.1.pkceCodeVerifier), SCOPES)
  {
    var url := p.authorizeUrl(rnd.csrfToken, rnd.nonce, S256(rnd.pkceCodeVerifier), SCOPES);
    Ok((url, OidcSessionState(rnd.csrfToken, rnd.pkceCodeVerifier, rnd.nonce)))
  }

  /** The `map_err` applied to a failed exchange. */
  function ExchangeFailure(e: RequestTokenError): HandlerError {
    match e
    case ServerResponse(_) => Api(L.InternalServerError, "Failed to exchange code")
    case _ => Api(L.Unauthenticated, "Failed to exchange code")
  }

  const MISSING_ID_TOKEN := "Oidc provider did not provider an id token. This would suggest its not providing oidc."

  /**
   * The access-token hash check, run only when the claims carry a hash: it
   * passes exactly when the hash recomputed with the token's signing
   * algorithm and key is the expected one; a mismatch is the client's
   * fault, a hash that cannot be recomputed the server's.
   */
  function CheckAccessTokenHash(p: Provider, token: TokenResponse, idToken: IdToken, expected: AccessTokenHash): (r: Result<(), HandlerError>)
    ensures r.Ok? <==>
      p.signingAlg(idToken).Some? && p.signingKey(idToken).Some?
      && p.hashAccessToken(token.accessToken, p.signingAlg(idToken).value, p.signingKey(idToken).value) == Some(expected)
    ensures p.signingAlg(idToken).None? ==> r == Err(ServerError("Failed to retrieve signing algorithm"))
    ensures p.signingAlg(idToken).Some? && p.signingKey(idToken).None? ==> r == Err(ServerError("Failed to retrieve signing key"))
    ensures p.signingAlg(idToken).Some? && p.signingKey(idToken).Some?
      && p.hashAccessToken(token.accessToken, p.signingAlg(idToken).value, p.signingKey(idToken).value).None?
      ==> r == Err(ServerError("Failed to recreate access token signature"))
    ensures r == Err(Api(L.Unauthenticated, "Invalid access token")) <==>
      p.signingAlg(idToken).Some? && p.signingKey(idToken).Some?
      && p.hashAccessToken(token.accessToken, p.signingAlg(idToken).value, p.signingKey(idToken).value).Some?
      && p.hashAccessToken(token.accessToken, p.signingAlg(idToken).value, p.signingKey(idToken).value) != Some(expected)
    ensures r.Err? ==> r.error.Api? && (r.error.code == L.Unauthenticated || r.error.code == L.InternalServerError)
  {
    match p.signingAlg(idToken)
    case None => Err(ServerError("Failed to retrieve signing algorithm"))
    case Some(alg) =>
      match p.signingKey(idToken)
      case None => Err(ServerError("Failed to retrieve signing key"))
      case Some(key) =>
        match p.hashAccessToken(token.accessToken, alg, key)
        case None => Err(ServerError("Failed to recreate access token signature"))
        case Some(actual) =>
          if actual != expected then Err(Api(L.Unauthenticated, "Invalid access token")) else Ok(())
  }

  /**
   * `Client::finish_login`: the checks in their order, each with its own
   * error. The CSRF state is compared first, so a forged callback never
   * reaches the provider; the code is exchanged with the stored PKCE
   * verifier; the id token is verified against the stored nonce; and a
   * present `at_hash` claim must equal the hash of the access token.
   */
  function FinishLogin(p: Provider, session: OidcSessionState, request: OidcRequestState): (r: Result<IdTokenClaims, HandlerError>)
    ensures request.state != session.csrfToken ==> r == Err(Api(L.Unauthenticated, "Secret state is invalid"))
    ensures request.state == session.csrfToken && p.exchangeCode(request.code, session.pkceCodeVerifier).Err? ==>
      r == Err(ExchangeFailure(p.exchangeCode(request.code, session.pkceCodeVerifier).error))
    ensures request.state == session.csrfToken && p.exchangeCode(request.code, session.pkceCodeVerifier).Ok? ==>
      var token := p.exchangeCode(request.code, session.pkceCodeVerifier).value;
      (token.idToken.None? ==> r == Err(ServerError(MISSING_ID_TOKEN)))
      && (token.idToken.Some? && p.claims(token.idToken.value, session.nonce).None? ==>
            r == Err(Api(L.Unauthenticated, "Failed to verify id token")))
      && (token.idToken.Some? && p.claims(token.idToken.value, session.nonce).Some? ==>
            var claims := p.claims(token.idToken.value, session.nonce).value;
            (claims.accessTokenHash.None? ==> r == Ok(claims))
            && (claims.accessTokenHash.Some? ==>
                  var checked := CheckAccessTokenHash(p, token, token.idToken.value, claims.accessTokenHash.value);
                  (checked.Ok? ==> r == Ok(claims)) && (checked.Err? ==> r == Err(checked.error))))
    ensures r.Err? ==> r.error.Api? && r.error.code != L.BadRequest
    ensures r.Ok? ==> (request.state == session.csrfToken
      && p.exchangeCode(request.code, session.pkceCodeVerifier).Ok?
      && p.exchangeCode(request.code, session.pkceCodeVerifier).value.idToken.Some?
      && p.claims(p.exchangeCode(request.code, session.pkceCodeVerifier).value.idToken.value, session.nonce) == Some(r.value))
  {
    if request.state != session.csrfToken then
      Err(Api(L.Unauthenticated, "Secret state is invalid"))
    else
      match p.exchangeCode(request.code, session.pkceCodeVerifier)
      case Err(e) => Err(ExchangeFailure(e))
      case Ok(token) =>
        match token.idToken
        case None => Err(ServerError(MISSING_ID_TOKEN))
        case Some(idToken) =>
          match p.claims(idToken, session.nonce)
          case None => Err(Api(L.Unauthenticated, "Failed to verify id token"))
          case Some(claims) =>
            if claims.accessTokenHash.Some? then
              match CheckAccessTokenHash(p, token, idToken, claims.accessTokenHash.value)
              case Err(e) => Err(e)
              case Ok(_) => Ok(claims)
            else Ok(claims)
  }

  /**
   * Section 3.1.3.8 of OpenID Connect Core 1.0: a login whose claims carry
   * an `at_hash` succeeds only if the hash recomputed with the token's
   * signing algorithm and key equals it; without `at_hash` no hash is
   * computed at all.
   */
  lemma AccessTokenHashChecked(p: Provider, session: OidcSessionState, request: OidcRequestState)
    requires FinishLogin(p, session, request).Ok?
    ensures var token := p.exchangeCode(request.code, session.pkceCodeVerifier).value;
      var claims := FinishLogin(p, session, request).value;
      claims.accessTokenHash.Some? ==>
        p.signingAlg(token.idToken.value).Some? && p.signingKey(token.idToken.value).Some?
        && p.hashAccessToken(token.accessToken, p.signingAlg(token.idToken.value).value, p.signingKey(token.idToken.value).value)
           == claims.accessTokenHash
  {
  }

  /** Changing any oracle of the provider cannot change the answer to a callback whose state is forged. */
  lemma CsrfCheckedBeforeExchange(p1: Provider, p2: Provider, session: OidcSessionState, request: OidcRequestState)
    requires request.state != session.csrfToken
    ensures FinishLogin(p1, session, request) == FinishLogin(p2, session, request)
    ensures FinishLogin(p1, session, request).Err? && FinishLogin(p1, session, request).error.code == L.Unauthenticated
  {
  }

  /** A provider that honours section 4.6 of RFC 7636: it exchanges a code only for the verifier of `challenge`. */
  ghost predicate EnforcesPkce(p: Provider, challenge: PkceCodeChallenge) {
    forall code: AuthorizationCode, v: PkceCodeVerifier :: p.exchangeCode(code, v).Ok? ==> S256(v) == challenge
  }

  /**
   * The state `BeginLogin` keeps lets `FinishLogin` pass the CSRF check for
   * the callback the provider sends with the same CSRF token: whatever goes
   * wrong afterwards, it is not reported as an invalid state.
   */
  lemma BeginThenCallbackPassesCsrf(p: Provider, rnd: Randomness, code: AuthorizationCode)
    ensures var st := BeginLogin(p, rnd).value.1;
      FinishLogin(p, st, OidcRequestState(code, rnd.csrfToken)).Err? ==>
        FinishLogin(p, st, OidcRequestState(code, rnd.csrfToken)).error != Api(L.Unauthenticated, "Secret state is invalid")
  {
  }

  /**
   * Section 4 of RFC 7636: the verifier `FinishLogin` sends is the one kept
   * in the session, so at a provider that enforces the challenge of the
   * login's own URL, the state of any other login with a different
   * verifier cannot complete it.
   */
  lemma PkceBindsLogin(p: Provider, rnd: Randomness, other: OidcSessionState, code: AuthorizationCode)
    requires EnforcesPkce(p, S256(BeginLogin(p, rnd).value.1.pkceCodeVerifier))
    requires other.pkceCodeVerifier != rnd.pkceCodeVerifier
    ensures FinishLogin(p, other, OidcRequestState(code, other.csrfToken)).Err?
  {
    assert p.exchangeCode(code, other.pkceCodeVerifier).Ok? ==> S256(other.pkceCodeVerifier) == S256(rnd.pkceCodeVerifier);
  }

  /** The part of the provider metadata discovery reads. */
  datatype ProviderMetadata = ProviderMetadata(tokenUrl: Option<Url>)

  datatype DiscoveryError = DiscoveryRequest(error: string) | DiscoveryOther(message: string)

  /** `Config::discover`: discovery fails unless the provider names a token endpoint. */
  function Discover(fetched: Result<ProviderMetadata, DiscoveryError>): (r: Result<Url, DiscoveryError>)
    ensures fetched.Err? ==> r == Err(fetched.error)
    ensures fetched.Ok? && fetched.value.tokenUrl.None? ==> r == Err(DiscoveryOther("Issuer did not provide a token url"))
    ensures r.Ok? <==> fetched.Ok? && fetched.value.tokenUrl.Some?
    ensures r.Ok? ==> r.value == fetched.value.tokenUrl.value
  {
    var metadata :- fetched;
    match metadata.tokenUrl
    case None => Err(DiscoveryOther("Issuer did not provide a token url"))
    case Some(url) => Ok(url)
  }

  /** The timeout of the HTTP client used for discovery and the exchange, in seconds. */
  const HTTP_TIMEOUT_SECS := 60
}
