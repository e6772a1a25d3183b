# galvyn, modelled in Dafny

galvyn is a Rust web framework built on axum. This project models its core
and proves properties of that model:

- **API errors.** There are three revisions of the API error type:
  - the core error with its status codes;
  - the `ApiError<E>` wrapper with form errors and the `FormErrors` aggregator;
  - the older `ApiError<T>` the auth contrib is built against.

  The model covers their builders, `Display` text, tracing levels, HTTP
  responses and the response bodies documented for OpenAPI.
- **Routing.** `GalvynRouter` and swaggapi's `ApiContext` are classes whose
  `handler`, `metadata`/`tag`/`page`, `nest`, `merge` and `finish` change the
  list of routes in place. Both share the nested-path rule of axum's
  `path_for_nested_route`, and swaggapi rewrites `:param` paths into OpenAPI
  `{param}` paths. `OpenapiMetadata::merge` is modelled with them.
- **Request and response documentation** (`galvyn-core/src/handler/impls.rs`):
  - the path parameters `Path<T>` documents, matched against the route's `{…}` placeholders;
  - the request bodies of text, bytes, JSON and forms;
  - query parameters;
  - `Result` bodies and redirect bodies.
- **The `#[handler]` attribute macro.** The model covers how it resolves
  the method, path and tags from its arguments, and which request and
  response types and doc and deprecation attributes it records.
- **Auth contrib.**
  - The database tables and their constraints.
  - The local (password and WebAuthn) and OIDC login handlers, in both the
    current and the older revision. They run over a session map and the
    tables, held in an `AuthService` class.
  - The OIDC client logic: the CSRF check, PKCE and the access-token hash.
- **Timers contrib.**
  - `TimersState` is an arena of timers plus a deque of indexes sorted by next run.
  - The duplicate-key check of the timers module, and its error types.
- **Settings contrib.** `SettingsStore::register`/`init`/`post_init` and `SettingsHandle::set` over a settings table.
- **Session store.** The rorm-backed `SessionStore` and the session layer's expiry policy.
- **OAuth contrib.** The error responses of the authorization endpoint, per
  section 4.1.2.1 of RFC 6749: a redirect carrying `error`, `state` and
  `error_description`, or a JSON body.

External services are parameters of the model:

- **Oracles.** The database driver, serde, URL parsing, randomness, the
  WebAuthn library and the OIDC provider are passed in as functions.
- **Database and session-store failures.** A handler takes a
  `fault: Option<Step>` naming the first `.await?` point that fails, if
  any. A failing database step ends the handler with an internal
  database error, a failing session-store step with an internal
  session-store error. The state is what the handler leaves at that
  point: an open transaction is rolled back, and writes made before it
  stay. The settings store's `init` and `post_init` take an
  `Option<DbError>` the same way.
- **Panics.** A panic is an explicit `Panicked(message)` outcome.

## Model

| member | source | states |
|---|---|---|
| ApiErrorCore.ToHttp | galvyn-core/src/stuff/api_error/core.rs:55-62 | a 4xx or 5xx status that the partial inverse reads back as the same code |
| ApiErrorCore.ToHttpRoundTrip | galvyn-core/src/stuff/api_error/core.rs:55-62 | every status code maps to a distinct HTTP status, read back by its partial inverse |
| ApiErrorCore.All | galvyn-core/src/stuff/api_error/core.rs:64-67 | `all()` lists each status code exactly once |
| ApiErrorCore.AllComplete | galvyn-core/src/stuff/api_error/core.rs:64-67 | every status code is in `all()` |
| ApiErrorCore.New | galvyn-core/src/stuff/api_error/core.rs:194-204 | the given code and context, the caller's location, no source |
| ApiErrorCore.BadRequestError | galvyn-core/src/stuff/api_error/core.rs:89-91 | code `BadRequest`, answered with 400, with the context, at the caller, without a source |
| ApiErrorCore.ServerErrorError | galvyn-core/src/stuff/api_error/core.rs:95-97 | code `ServerError`, answered with 500, with the context, at the caller, without a source |
| ApiErrorCore.UnauthorizedError | galvyn-core/src/stuff/api_error/core.rs:101-103 | code `Unauthorized`, answered with 401, with the context, at the caller, without a source |
| ApiErrorCore.WithBoxedSource | galvyn-core/src/stuff/api_error/core.rs:106-116 | the source is set and nothing else changes |
| ApiErrorCore.WithManualLocation | galvyn-core/src/stuff/api_error/core.rs:118-122 | the location is replaced and nothing else changes |
| ApiErrorCore.BuildersIndependent | galvyn-core/src/stuff/api_error/core.rs:106-126 | the source and location builders commute, and a second call of either overrides the first |
| ApiErrorCore.MapServerError | galvyn-core/src/stuff/api_error/core.rs:128-138 | the closure yields a server error with the context and the error as source, located at the call of `map_server_error` |
| ApiErrorCore.StatusOfStatusText | galvyn-core/src/stuff/api_error/core.rs:69-84 | the status word heading a text is read back from it |
| ApiErrorCore.Display | galvyn-core/src/stuff/api_error/core.rs:69-84 | the text starts with the status code, ends with the location and contains the quoted context when there is one |
| ApiErrorCore.TracingLevel | galvyn-core/src/stuff/api_error/core.rs:140-182 | client errors are logged at debug level as "Client error", server errors at error level |
| ApiErrorCore.IntoResponse | galvyn-core/src/stuff/api_error/core.rs:206-217 | the HTTP status of the code, with an `ApiErrorResponse` JSON body |
| ApiErrorCore.BodyOf | galvyn-core/src/stuff/api_error/core.rs:220-232 | the documented entry of one status code |
| ApiErrorCore.Body | galvyn-core/src/stuff/api_error/core.rs:220-232 | one JSON entry per status code, in `all()` order |
| ApiErrorCore.BodyCoversResponses | galvyn-core/src/stuff/api_error/core.rs:206-232 | every status a response can have is documented, and no status is documented twice |
| ApiErrorCore.FromServerError | galvyn-core/src/stuff/api_error/core.rs:244-259 | database, session and anyhow errors become server errors with the error as source |
| ApiErrorCore.FromEmptyUpdate | galvyn-core/src/stuff/api_error/core.rs:234-242 | an update with no column set is a bad request |
| ApiError.BadRequest | galvyn-core/src/stuff/api_error/mod.rs:41-43 | a core bad-request error at the caller, answered with status 400 |
| ApiError.ServerError | galvyn-core/src/stuff/api_error/mod.rs:47-49 | a core server error at the caller, answered with status 500 |
| ApiError.Unauthorized | galvyn-core/src/stuff/api_error/mod.rs:53-55 | a core unauthenticated error at the caller, answered with status 401 |
| ApiError.MapApiError | galvyn-core/src/stuff/api_error/mod.rs:112-118 | a core error goes through the function, and a form error panics |
| ApiError.WithBoxedSource | galvyn-core/src/stuff/api_error/mod.rs:62-80 | the source of a core error is set, and a form error panics |
| ApiError.WithManualLocation | galvyn-core/src/stuff/api_error/mod.rs:82-88 | the location of a core error is set, and a form error panics |
| ApiError.MapServerError | galvyn-core/src/stuff/api_error/mod.rs:90-102 | never panics, and agrees with the core type's `map_server_error` |
| ApiError.TracingEvent | galvyn-core/src/stuff/api_error/mod.rs:104-110 | the core error's event; nothing for a form error |
| ApiError.IntoResponse | galvyn-core/src/stuff/api_error/mod.rs:147-159 | core errors answer as the core type does; a form error is a 200 carrying it |
| ApiError.Body | galvyn-core/src/stuff/api_error/mod.rs:162-175 | the core entries, plus a 200 entry unless `E` is `Never` |
| ApiError.BodyDocumentsResponses | galvyn-core/src/stuff/api_error/mod.rs:147-175 | every status `into_response` can produce is documented |
| ApiError.FromServerError | galvyn-core/src/stuff/api_error/mod.rs:177-185 | a core error converted from the cause, answered with status 500 |
| ApiError.FormErrors.constructor | galvyn-core/src/stuff/api_error/aggregator.rs:19-24 | the default value, with the modified flag clear |
| ApiError.FormErrors.Deref | galvyn-core/src/stuff/api_error/aggregator.rs:40-46 | the form error, read without changing anything, so the modified flag stays as it was |
| ApiError.FormErrors.DerefMut | galvyn-core/src/stuff/api_error/aggregator.rs:48-53 | an edit through `deref_mut` sets the flag and changes the value |
| ApiError.FormErrors.Check | galvyn-core/src/stuff/api_error/aggregator.rs:26-33 | the form error exactly when a field was set, `Ok` otherwise |
| ApiError.FormErrors.Fail | galvyn-core/src/stuff/api_error/aggregator.rs:35-38 | always the form error |
| ApiError.FormErrorsLifecycle | galvyn-core/src/stuff/api_error/aggregator.rs:19-53 | reads keep the check `Ok`; after a write it is the edited form error |
| ApiErrorLegacy.New | galvyn-core/src/stuff/api_error.rs:123-132 | a plain error with the given code; its core counterpart is the core error with that context, the caller's location and no source |
| ApiErrorLegacy.BadRequestError | galvyn-core/src/stuff/api_error.rs:136-138 | a bad-request error at the caller, the counterpart of the core bad-request error |
| ApiErrorLegacy.ServerError | galvyn-core/src/stuff/api_error.rs:142-144 | an internal server error at the caller, the counterpart of the core server error |
| ApiErrorLegacy.WithBoxedSource | galvyn-core/src/stuff/api_error.rs:152-160 | sets the source; panics on a form error |
| ApiErrorLegacy.WithManualLocation | galvyn-core/src/stuff/api_error.rs:222-230 | sets the location; panics on a form error |
| ApiErrorLegacy.MapServerError | galvyn-core/src/stuff/api_error.rs:164-172 | as written, the closure never panics and yields a server error with the context and the error as source, located at the site inside the closure |
| ApiErrorLegacy.MapServerErrorRecordsSite | galvyn-core/src/stuff/api_error.rs:168-172 | as written, the closure never panics and its error records the site inside the closure, whoever called `map_server_error` |
| ApiErrorLegacy.MapServerErrorLosesCaller | galvyn-core/src/stuff/api_error.rs:164-172 | any two callers get the same error, which does not record the caller's line |
| ApiErrorLegacy.MapServerErrorAtCallerAgrees | galvyn-core/src/stuff/api_error.rs:164-172 | with the caller's location captured, the closure never panics and its error is the core revision's `map_server_error` error |
| ApiErrorLegacy.Display | galvyn-core/src/stuff/api_error.rs:101-118 | an internal server error shows as "Server Error" and every other code as "Bad Request"; the location comes last |
| ApiErrorLegacy.HttpStatus | galvyn-core/src/stuff/api_error.rs:252-257 | the status of the core counterpart; 500 exactly for an internal server error |
| ApiErrorLegacy.Message | galvyn-core/src/stuff/api_error.rs:259-266 | the response message tells every code apart, although three codes share a status |
| ApiErrorLegacy.AgreesWithCore | galvyn-core/src/stuff/api_error.rs:101-118 | same HTTP status as the core counterpart; same text except that an unauthenticated error displays as a bad request |
| ApiErrorLegacy.TracingLevel | galvyn-core/src/stuff/api_error.rs:175-220 | nothing for a form error; error level exactly for an internal server error |
| ApiErrorLegacy.IntoResponse | galvyn-core/src/stuff/api_error.rs:247-283 | the status and message of the code, or 200 with the form error |
| ApiErrorLegacy.Body | galvyn-core/src/stuff/api_error.rs:286-315 | the documented entries, with a form entry unless `T` is `Never` |
| ApiErrorLegacy.BodyMatchesCore | galvyn-core/src/stuff/api_error.rs:247-315 | documents the statuses of the core type, covering every status a response has |
| ApiErrorLegacy.FromEmptyUpdate | galvyn-core/src/stuff/api_error.rs:318-330 | an update with no column set is a bad request with the context "Nothing to update" |
| ApiErrorLegacy.FromServerError | galvyn-core/src/stuff/api_error.rs:331-348 | an internal server error without context, with the cause as source |
| ApiErrorLegacy.FormErrors.constructor | galvyn-core/src/stuff/api_error.rs:41-52 | the default value, with the modified flag clear |
| ApiErrorLegacy.FormErrors.Deref | galvyn-core/src/stuff/api_error.rs:66-72 | the form error, read without changing anything, so the modified flag stays as it was |
| ApiErrorLegacy.FormErrors.DerefMut | galvyn-core/src/stuff/api_error.rs:74-79 | an edit through `deref_mut` sets the flag and changes the value |
| ApiErrorLegacy.FormErrors.Check | galvyn-core/src/stuff/api_error.rs:53-59 | this revision's form error exactly when a field was set, `Ok` otherwise |
| ApiErrorLegacy.FormErrors.Fail | galvyn-core/src/stuff/api_error.rs:61-63 | always this revision's form error |
| ApiErrorLegacy.FormErrorsLifecycle | galvyn-core/src/stuff/api_error.rs:41-79 | reads keep the check `Ok`; after a write it is the edited form error, which answers 200 carrying it |
| AuthModels.EmptyDb | contrib/galvyn-contrib-auth/src/models.rs:8-69 | the empty database meets every constraint |
| AuthModels.DeleteAccountCascades | contrib/galvyn-contrib-auth/src/models.rs:26-63 | deleting an account cascades to its OIDC and local accounts and their keys; the rest is kept and the constraints hold |
| AuthModels.AccountsWithId | contrib/galvyn-contrib-auth/src/models.rs:13-14 | exactly the accounts with that id |
| AuthModels.AccountsWithIdAtMostOne | contrib/galvyn-contrib-auth/src/models.rs:13-14 | the unique id makes the lookup by id yield at most one account |
| AuthModels.LocalAccountsOf | contrib/galvyn-contrib-auth/src/models.rs:31-40 | exactly the local accounts linked to the account |
| AuthModels.OidcAccountsOf | contrib/galvyn-contrib-auth/src/models.rs:18-28 | exactly the OIDC accounts linked to the account |
| AuthModels.KeysOf | contrib/galvyn-contrib-auth/src/models.rs:58-69 | exactly the keys stored for the local account |
| AuthModels.OidcAccountsMatching | contrib/galvyn-contrib-auth/src/models.rs:18-28 | exactly the OIDC accounts with that issuer and subject |
| AuthModels.AttestedKeysAgree | contrib/galvyn-contrib-auth/src/models.rs:71-76 | the `any`, `find_map` and `filter_map` views of attested keys agree, and unattested keys never count |
| AuthHandlers.UpdatePasswordKeepsValid | contrib/galvyn-contrib-auth/src/handler/local/handler.rs:164-192 | a password that fits its column keeps every constraint and reaches exactly the account's local accounts |
| AuthHandlers.PasswordUpdated | contrib/galvyn-contrib-auth/src/handler/local/handler.rs:164-192 | after the update the account is still the only one with its identifier, keeps its local accounts, and each of them holds the new password |
| AuthHandlers.InsertOidcAccountKeepsValid | contrib/galvyn-contrib-auth/src/handler/oidc/handler.rs:57-80 | accepted inserts keep every constraint |
| AuthHandlers.InsertOidcAccountKeepsUniqueIds | contrib/galvyn-contrib-auth/src/handler/oidc/handler.rs:63-69 | the inserted account keeps ids unique |
| AuthHandlers.InsertOidcAccountKeepsBounds | contrib/galvyn-contrib-auth/src/handler/oidc/handler.rs:39-80 | issuer and subject fit their `MaxStr<255>` columns |
| AuthHandlers.InsertOidcAccountKeepsForeignKeys | contrib/galvyn-contrib-auth/src/handler/oidc/handler.rs:71-78 | the OIDC account links to the new account |
| AuthHandlers.InsertOidcAccountFound | contrib/galvyn-contrib-auth/src/handler/oidc/handler.rs:47-80 | after the inserts, the lookup by issuer and subject finds the new row |
| AuthHandlers.SecondOidcSignupRejected | contrib/galvyn-contrib-auth/src/handler/oidc/handler.rs:63-69 | every new account gets id `""`, so a second OIDC sign-up is refused |
| AuthHandlers.AuthService.LoginLocalWebauthn | contrib/galvyn-contrib-auth/src/handler/local/handler.rs:16-67 | a challenge for the attested keys of the account's local account, kept in the session; an unknown identifier, a non-local account and each failing database or session-store step has its own error, and every error leaves the session unchanged |
| AuthHandlers.AuthService.FinishLoginLocalWebauthn | contrib/galvyn-contrib-auth/src/handler/local/handler.rs:75-125 | the challenge is removed first (a failed removal changes nothing); only a verified attested key logs the client in; later database and session-store failures are internal errors |
| AuthHandlers.AuthService.VerifyWebauthn | contrib/galvyn-contrib-auth/src/handler/local/handler.rs:75-125 | the checks after the challenge is taken: a non-WebAuthn pending value and a failed verification are errors; an unknown identifier ("Account not found"), an account without a local account ("Not a local account") and a key held by no local account of the identifier ("Used unknown key") are each their own bad request, and a failing query is an internal error; success names an account of the identifier with a local account holding the attested key that signed |
| AuthHandlers.AuthService.LoggedIn | contrib/galvyn-contrib-auth/src/handler/local/handler.rs:169-172 | a failed session read is an internal error; otherwise the session's `account` entry: absent, an account, or a value of another type |
| AuthHandlers.AuthService.LoginLocalPassword | contrib/galvyn-contrib-auth/src/handler/local/handler.rs:127-160 | only an equal stored password logs the client in; an unknown identifier ("Account not found"), a non-local account ("Not a local account"), a missing password ("Account has no password") and a wrong one ("Passwords do not match") are each their own bad request, every other error is an internal one from a failing database or session-store step, and no error changes the session |
| AuthHandlers.AuthService.SetLocalPassword | contrib/galvyn-contrib-auth/src/handler/local/handler.rs:164-192 | the logged-in local account gets the password exactly when the session read, the lookup, the update and the commit succeed and the password fits its column; every error writes nothing |
| AuthHandlers.AuthService.DeleteLocalPassword | contrib/galvyn-contrib-auth/src/handler/local/handler.rs:194-226 | refused unless the local account has an attested key; each failing step has its own error, and every error writes nothing |
| AuthHandlers.AuthService.Logout | contrib/galvyn-contrib-auth/src/handler/core/handler.rs:5-9 | the `account` entry is removed and nothing else changes; a failed removal is an internal error that changes nothing |
| AuthHandlers.AuthService.LoginOidc | contrib/galvyn-contrib-auth/src/handler/oidc/handler.rs:15-22 | the login state is kept under `login_oidc` and the client is redirected to the provider; a failed session insert is an internal error that keeps nothing |
| AuthHandlers.AuthService.FindOrCreateAccount | contrib/galvyn-contrib-auth/src/handler/oidc/handler.rs:45-84 | the account of a matching OIDC account, or a new account and OIDC account inserted together; a failing step or a unique violation is an internal error that writes nothing |
| AuthHandlers.AuthService.FinishLoginOidc | contrib/galvyn-contrib-auth/src/handler/oidc/handler.rs:24-89 | takes the state from the session (a failed removal changes nothing), runs the provider's checks, finds or creates the account and logs it in; a failed final session insert keeps the database writes |
| AuthHandlers.WebauthnChallengeSingleUse | contrib/galvyn-contrib-auth/src/handler/local/handler.rs:16-125 | after a start and a finish, a second finish finds no challenge |
| AuthHandlers.OidcLoginAsWritten | contrib/galvyn-contrib-auth/src/handler/oidc/handler.rs:15-89 | as written, the finish handler never finds the state the start handler kept |
| AuthHandlers.OidcLoginCorrected | contrib/galvyn-contrib-auth/src/handler/oidc/handler.rs:15-89 | reading `login_oidc`, the callback passes the CSRF check, consumes the state and logs in a new identity |
| AuthHandlers.SetPasswordThenLogin | contrib/galvyn-contrib-auth/src/handler/local/handler.rs:127-192 | a password that was set can be logged in with |
| AuthHandlers.DeletePasswordThenLogin | contrib/galvyn-contrib-auth/src/handler/local/handler.rs:127-226 | after deleting the password, password login fails with "Account has no password" |
| AuthLegacy.LegacyOidcOf | contrib/galvyn-contrib-auth/src/handler/mod.rs:30-80 | exactly the OIDC rows of the account |
| AuthLegacy.LegacyOidcWithId | contrib/galvyn-contrib-auth/src/handler/mod.rs:119-197 | exactly the accounts of OIDC rows with that id |
| AuthLegacy.VerifyCallback | contrib/galvyn-contrib-auth/src/handler/mod.rs:119-197 | the checks between taking the state and the database, each with its error |
| AuthLegacy.LegacyCsrfCheckedBeforeExchange | contrib/galvyn-contrib-auth/src/handler/mod.rs:119-197 | no provider oracle changes the answer to a forged state |
| AuthLegacy.LegacyAccessTokenHashChecked | contrib/galvyn-contrib-auth/src/handler/mod.rs:147-155 | a mismatching access-token hash rejects the login |
| AuthLegacy.UpdateLegacyPasswordKeepsValid | contrib/galvyn-contrib-auth/src/handler/local.rs:11-36 | the update keeps the foreign keys |
| AuthLegacy.AuthService.GetLoginFlow | contrib/galvyn-contrib-auth/src/handler/mod.rs:30-80 | an unknown identifier is `None`; exactly one of OIDC and local gives that flow; both or neither is an invalid account; a failing database step is an internal error |
| AuthLegacy.AuthService.LoginOidc | contrib/galvyn-contrib-auth/src/handler/mod.rs:82-110 | the state is kept under `login_oidc` and the client redirected; a failed session insert is an internal error that keeps nothing |
| AuthLegacy.AuthService.FindOrCreateAccount | contrib/galvyn-contrib-auth/src/handler/mod.rs:158-192 | the account of the OIDC row with the user name, or a new account and OIDC row; a failing step is an internal error that writes nothing |
| AuthLegacy.AuthService.FinishLoginOidc | contrib/galvyn-contrib-auth/src/handler/mod.rs:119-197 | a missing state is "Bad Request"; every failed check is answered before the database; failing steps are internal errors; success logs the account in |
| AuthLegacy.AuthService.LoginLocalWebauthn | contrib/galvyn-contrib-auth/src/handler/mod.rs:199-252 | a challenge for the account's attested keys, kept in the session; library, database and session-store failures are internal errors |
| AuthLegacy.AuthService.FinishLoginLocalWebauthn | contrib/galvyn-contrib-auth/src/handler/mod.rs:260-312 | the challenge is removed first; only a verified attested key logs in; failing steps are internal errors |
| AuthLegacy.AuthService.LoginLocalPassword | contrib/galvyn-contrib-auth/src/handler/mod.rs:314-348 | only an equal stored password logs in; failing steps are internal errors that leave the session unchanged |
| AuthLegacy.AuthService.Logout | contrib/galvyn-contrib-auth/src/handler/mod.rs:350-354 | the `account` entry is removed and nothing else changes; a failed removal changes nothing |
| AuthLegacy.AuthService.LoggedIn | contrib/galvyn-contrib-auth/src/handler/local.rs:16 | a failed session read is an internal error; otherwise the session's `account` entry: absent, an account, or a value of another type |
| AuthLegacy.AuthService.SetLocalPassword | contrib/galvyn-contrib-auth/src/handler/local.rs:11-36 | the logged-in local account gets the password exactly when every step succeeds; every error writes nothing |
| AuthLegacy.AuthService.DeleteLocalPassword | contrib/galvyn-contrib-auth/src/handler/local.rs:38-67 | refused unless some key is attested; every error writes nothing |
| AuthLegacy.LegacyOidcLoginAsWritten | contrib/galvyn-contrib-auth/src/handler/mod.rs:82-197 | as written, finish never finds the state start kept |
| AuthLegacy.LegacyOidcLoginCorrected | contrib/galvyn-contrib-auth/src/handler/mod.rs:82-197 | reading `login_oidc`, a vouched-for known user name is logged in to its account |
| OidcLogic.BeginLogin | contrib/galvyn-contrib-auth/src/logic/oidc.rs:84-109 | the URL carries the S256 challenge of a fresh verifier and the scopes `profile` and `email`; the kept state holds the same CSRF token, nonce and verifier |
| OidcLogic.FinishLogin | contrib/galvyn-contrib-auth/src/logic/oidc.rs:111-176 | the checks in source order, each with its own error: the CSRF check, the exchange, a missing ID token, unverifiable claims, then the access-token hash; the claims on success |
| OidcLogic.CheckAccessTokenHash | contrib/galvyn-contrib-auth/src/logic/oidc.rs:154-173 | passes exactly when algorithm, key and recomputed hash are present and the hash matches; each missing piece is its own server error, a mismatch is "Invalid access token" |
| OidcLogic.AccessTokenHashChecked | contrib/galvyn-contrib-auth/src/logic/oidc.rs:154-173 | a present `at_hash` must equal the recomputed hash; an absent one is not checked |
| OidcLogic.CsrfCheckedBeforeExchange | contrib/galvyn-contrib-auth/src/logic/oidc.rs:116-137 | no provider oracle changes the answer to a forged state |
| OidcLogic.BeginThenCallbackPassesCsrf | contrib/galvyn-contrib-auth/src/logic/oidc.rs:84-128 | the kept state passes the CSRF check of the provider's callback |
| OidcLogic.PkceBindsLogin | contrib/galvyn-contrib-auth/src/logic/oidc.rs:84-128 | the verifier sent is the login's own, so another login's state fails the exchange |
| OidcLogic.Discover | contrib/galvyn-contrib-auth/src/logic/oidc.rs:199-218 | discovery fails unless the provider names a token endpoint |
| TimerState.CalcNext | contrib/galvyn-contrib-timers/src/state.rs:161-165 | the next run is never earlier than the current one, and is later exactly for a positive interval |
| TimerState.InsertByNext | contrib/galvyn-contrib-timers/src/state.rs:126-156 | the deque gains exactly the inserted index |
| TimerState.InsertByNextSorted | contrib/galvyn-contrib-timers/src/state.rs:126-156 | inserting keeps the deque sorted and adds exactly the index |
| TimerState.SortByNext | contrib/galvyn-contrib-timers/src/state.rs:126-156 | the sort keeps every index, stale ones included, as often as it occurred |
| TimerState.SortByNextSorted | contrib/galvyn-contrib-timers/src/state.rs:126-156 | the sort orders the deque and keeps every index, stale ones included |
| TimerState.Due | contrib/galvyn-contrib-timers/src/state.rs:87-100 | a run fires only live indexed timers that are due, whatever the deque order |
| TimerState.DueAreAllDue | contrib/galvyn-contrib-timers/src/state.rs:83-106 | on a sorted deque, a run fires exactly the due timers, each once, in time order |
| TimerState.Fire | contrib/galvyn-contrib-timers/src/state.rs:87-100 | no timer is added or removed; each fired timer keeps its callback and schedule and is rescheduled from now; every other is untouched |
| TimerState.DueStep | contrib/galvyn-contrib-timers/src/state.rs:87-100 | one step of the walk over the deque |
| TimerState.FireStep | contrib/galvyn-contrib-timers/src/state.rs:87-100 | firing one more timer reschedules it and nothing else |
| TimerState.FireNone | contrib/galvyn-contrib-timers/src/state.rs:83-106 | a run firing nothing leaves every timer unchanged |
| TimerState.FirstLiveNext | contrib/galvyn-contrib-timers/src/state.rs:71-80 | the time of some live indexed timer, and `None` exactly when no entry is live |
| TimerState.FirstLiveNextIsEarliest | contrib/galvyn-contrib-timers/src/state.rs:71-80 | on a sorted deque, the first live index holds the earliest time of all indexed timers |
| TimerState.IndexedLength | contrib/galvyn-contrib-timers/src/state.rs:126-130 | a distinct deque indexing every timer is at least as long as the arena |
| TimerState.SortKeepsIndexes | contrib/galvyn-contrib-timers/src/state.rs:126-156 | the sort keeps the deque distinct and indexing the same timers |
| TimerState.PoppedIsClean | contrib/galvyn-contrib-timers/src/state.rs:126-156 | after popping the stale front, every timer is indexed once and the deque is as long as the arena |
| TimerState.CleanAfterSort | contrib/galvyn-contrib-timers/src/state.rs:126-156 | sorting a deque that indexes every timer once and popping its stale front leaves every timer indexed once, in time order, with no new index, as long as the arena |
| TimerState.TimersState.constructor | contrib/galvyn-contrib-timers/src/state.rs:51-56 | no timers and an empty deque |
| TimerState.TimersState.ResortAndClean | contrib/galvyn-contrib-timers/src/state.rs:126-156 | sorted, no stale index, every timer indexed once |
| TimerState.TimersState.Add | contrib/galvyn-contrib-timers/src/state.rs:111-119 | the timer gets a fresh index, and the deque is re-sorted |
| TimerState.TimersState.ScheduleEvery | contrib/galvyn-contrib-timers/src/state.rs:59-65 | a timer due now and every `duration` after |
| TimerState.TimersState.NextTime | contrib/galvyn-contrib-timers/src/state.rs:71-80 | the earliest time of all timers; `None` only when there are none |
| TimerState.TimersState.Run | contrib/galvyn-contrib-timers/src/state.rs:83-106 | the due timers are called and rescheduled, in order, and the deque stays ordered |
| TimerState.TimersState.CallDue | contrib/galvyn-contrib-timers/src/state.rs:87-100 | the loop of `run`: calls and reschedules each timer it passes, up to the first one not due |
| TimerState.RunTwice | contrib/galvyn-contrib-timers/src/state.rs:83-106 | with positive intervals, a second run at the same instant fires nothing |
| TimerKeys.KeyDisplay | contrib/galvyn-contrib-timers/src/errors.rs:23-31 | the message of a duplicated key |
| TimerKeys.KeyDisplayNamesKey | contrib/galvyn-contrib-timers/src/errors.rs:23-31 | equal messages name equal keys |
| TimerKeys.KeySource | contrib/galvyn-contrib-timers/src/errors.rs:33-37 | the source is always the locations |
| TimerKeys.LocationsDisplay | contrib/galvyn-contrib-timers/src/errors.rs:52-65 | the first location, then the second, each as `file:line:column` |
| TimerKeys.LocationsSource | contrib/galvyn-contrib-timers/src/errors.rs:67 | the locations have no source |
| TimerKeys.SourceChain | contrib/galvyn-contrib-timers/src/errors.rs:33-67 | following the source once names both callers; following it again ends the chain |
| TimerKeys.Timers.constructor | contrib/galvyn-contrib-timers/src/module.rs:72-81 | no key recorded |
| TimerKeys.Timers.AddTimer | contrib/galvyn-contrib-timers/src/module.rs:29-49 | a new key is recorded with its caller; a known key is an error naming both callers, and the map is left unchanged |
| TimerKeys.AddTwice | contrib/galvyn-contrib-timers/src/module.rs:29-49 | a second `add_timer` of a key fails and points back at the first caller |
| SettingsStore.NothingRegisteredNothingInserted | contrib/galvyn-contrib-settings/src/settings_store.rs:220-250 | a store with nothing registered inserts nothing |
| SettingsStore.SettingsStore.Init | contrib/galvyn-contrib-settings/src/settings_store.rs:220-237 | a failed read is the database error; otherwise every row as `Existing`, no key registered |
| SettingsStore.SettingsStore.Register | contrib/galvyn-contrib-settings/src/settings_store.rs:59-96 | refuses an over-long or repeated key with nothing changed; otherwise registers it, then reads the stored value or records the default as `New` |
| SettingsStore.SettingsStore.PostInit | contrib/galvyn-contrib-settings/src/settings_store.rs:239-250 | one bulk insert of the `New` entries, all or nothing: a database failure or a unique violation writes nothing, and a store freshly read from the table succeeds unless the database itself fails |
| SettingsStore.SettingsHandle.Set | contrib/galvyn-contrib-settings/src/settings_store.rs:142-153 | serialize, then write, then publish; a failure publishes nothing |
| SettingsStore.RestartKeepsDefault | contrib/galvyn-contrib-settings/src/settings_store.rs:59-250 | a persisted default is read back after a restart, whatever the new default |
| SettingsStore.SetSurvivesRestart | contrib/galvyn-contrib-settings/src/settings_store.rs:59-153 | a value that was set is what the key reads after a restart |
| SessionStore.DeleteExpired | galvyn-core/src/session.rs:157-211 | every row `load` would return is kept, kept rows are unchanged, and each kept row is loadable or expires exactly now |
| SessionStore.ExpiringNowIsKept | galvyn-core/src/session.rs:157-211 | a row expiring exactly now is neither loaded nor deleted |
| SessionStore.DeleteExpiredIdempotent | galvyn-core/src/session.rs:198-211 | a second deletion at the same time changes nothing |
| SessionStore.Layer | galvyn-core/src/session.rs:30-35 | expiry after 24 hours of inactivity, `SameSite=Lax`, always save |
| SessionStore.InactiveDayExpires | galvyn-core/src/session.rs:30-35 | a session is loadable exactly while less than a day has passed since its last request |
| SessionStore.RormStore.constructor | galvyn-core/src/session.rs:52-54 | a store over the given table |
| SessionStore.RormStore.Create | galvyn-core/src/session.rs:74-111 | a record is inserted under an unused id; a database failure is a backend error and changes nothing |
| SessionStore.RormStore.Save | galvyn-core/src/session.rs:114-154 | an upsert of the record's expiry and data |
| SessionStore.RormStore.Load | galvyn-core/src/session.rs:157-180 | the record of a row expiring after `now`, with its id; `None` otherwise |
| SessionStore.RormStore.Delete | galvyn-core/src/session.rs:183-192 | the id's row is gone; an absent id is not an error |
| SessionStore.RormStore.DeleteExpiredRows | galvyn-core/src/session.rs:198-211 | the table becomes `DeleteExpired` of itself |
| SessionStore.CreateLoadDelete | galvyn-core/src/session.rs:74-192 | a created record loads back with its data, and after deletion loads as `None` |
| OpenapiMeta.Merge | galvyn/src/openapi/metadata.rs:14-20 | each tag of the other is pushed unless present; pages unchanged |
| OpenapiMeta.MergeTags | galvyn/src/openapi/metadata.rs:14-20 | the existing tags keep their places as a prefix, and at most one tag is added per tag of the other list |
| OpenapiMeta.MergeTagsElements | galvyn/src/openapi/metadata.rs:14-20 | a tag is in the result iff it was in either list |
| OpenapiMeta.MergeTagsNoDuplicates | galvyn/src/openapi/metadata.rs:14-20 | a duplicate-free tag list stays duplicate-free |
| OpenapiMeta.MergeTagsPresent | galvyn/src/openapi/metadata.rs:14-20 | merging tags already present changes nothing |
| OpenapiMeta.MergeIdempotent | galvyn/src/openapi/metadata.rs:14-20 | merging twice is merging once |
| OpenapiMeta.MergeTagsAppendsInOrder | galvyn/src/openapi/metadata.rs:14-20 | the appended tags are new ones, in the other list's order |
| PathJoin.NestedPath | galvyn-core/src/router/mod.rs:95-101 | the nested path starts with the prefix; after a trailing slash no second slash follows; without one the route path follows unchanged |
| PathJoin.NestTwice | galvyn-core/src/router/mod.rs:95-101 | nesting under `b` then `a` equals nesting under `a + b` |
| PathJoin.NestKeepsDistinct | galvyn-core/src/router/mod.rs:95-101 | distinct route paths stay distinct under a prefix without a trailing slash |
| PathJoin.TrailingSlashMergesPaths | galvyn-core/src/router/mod.rs:95-101 | under a prefix with a trailing slash, `/x` and `//x` land on the same path |
| Router.Insert | galvyn-core/src/router/mod.rs:65-71 | into an empty set the value itself; otherwise the existing value keeps its pages and its tags in their places |
| Router.MergeSets | galvyn-core/src/router/mod.rs:74-77 | an empty other set changes nothing; otherwise a value whose tags start with the set's own |
| Router.InsertTags | galvyn/src/openapi/metadata.rs:14-20 | inserting metadata keeps every tag and adds only the extension's |
| Router.MergeSetsTags | galvyn/src/openapi/metadata.rs:14-20 | merging sets keeps every tag and adds only the other's |
| Router.NewRoute | galvyn-core/src/router/mod.rs:182-189 | routed at the handler's own path, with no metadata |
| Router.GalvynRouter.constructor | galvyn-core/src/router/mod.rs:39-44 | no routes, no metadata |
| Router.GalvynRouter.PushHandler | galvyn-core/src/router/mod.rs:74-77 | the router's metadata is merged into the route, which is appended |
| Router.GalvynRouter.Handler | galvyn-core/src/router/mod.rs:51-57 | one route at the handler's path, with the router's metadata |
| Router.GalvynRouter.Metadata | galvyn-core/src/router/mod.rs:65-71 | the metadata reaches every existing route and is kept for later ones |
| Router.GalvynRouter.Finish | galvyn-core/src/router/mod.rs:79-81 | the routes in the order they were added |
| Router.GalvynRouter.PushAll | galvyn-core/src/router/mod.rs:93-104 | every route, in order, through `push_handler` |
| Router.GalvynRouter.Nest | galvyn-core/src/router/mod.rs:85-108 | panics at the root or without a leading slash, changing nothing; otherwise appends every route at its nested path |
| Router.GalvynRouter.Merge | galvyn-core/src/router/mod.rs:111-117 | every route of the other router is appended, in order |
| Router.MetadataBeforeAndAfter | galvyn-core/src/router/mod.rs:51-77 | metadata reaches routes added before it and after it |
| ApiContext.NewContextHandler | swaggapi/src/internals/handler.rs:60-67 | the original's path and tags, no page |
| ApiContext.Segment | swaggapi/src/context.rs:117-130 | the longest prefix without `/` |
| ApiContext.ToOpenapi | swaggapi/src/context.rs:117-130 | each `:name` gains one character: a path without `:` is returned as it is, one with `:` is changed |
| ApiContext.ToOpenapiSegments | swaggapi/src/context.rs:117-130 | the rewrite works segment by segment |
| ApiContext.ToOpenapiSlash | swaggapi/src/context.rs:117-130 | a leading `/` is copied and the rest rewritten |
| ApiContext.ToOpenapiColonSegment | swaggapi/src/context.rs:117-130 | `:name` followed by the rest becomes `{name}` followed by the rewritten rest |
| ApiContext.SegmentStopsAtSlash | swaggapi/src/context.rs:117-130 | a segment contains no `/` and is followed by `/` or the end |
| ApiContext.ToOpenapiPlainPrefix | swaggapi/src/context.rs:117-130 | text before the first `:` is copied |
| ApiContext.TrailingParameter | swaggapi/src/context.rs:117-130 | `/users/:id` style paths end in `{id}` |
| ApiContext.ToOpenapiParameter | swaggapi/src/context.rs:117-130 | a lone `:name` becomes `{name}` |
| ApiContext.PageContents | swaggapi/src/context.rs:104-113 | the page of everything lists every handler at least once (twice at most); a named page at most once each, and nothing when no handler has it |
| ApiContext.PageContentsMembers | swaggapi/src/context.rs:104-113 | every handler is on the page of everything, and on a named page exactly when it is one of its own |
| ApiContext.NamedPageOnlyOwn | swaggapi/src/context.rs:104-113 | a named page lists only its own handlers |
| ApiContext.Adopted | swaggapi/src/context.rs:94-101 | the context's path prefixes the handler's unless empty; its tags and pages are added |
| ApiContext.ApiContext.constructor | swaggapi/src/context.rs:51-59 | no handlers, empty path, no pages, no tags |
| ApiContext.ApiContext.PushHandler | swaggapi/src/context.rs:94-101 | the adopted handler is appended |
| ApiContext.ApiContext.Handler | swaggapi/src/context.rs:69-73 | one new context handler through `push_handler` |
| ApiContext.ApiContext.AddPage | swaggapi/src/context.rs:76-82 | the page is recorded and added to every existing handler |
| ApiContext.ApiContext.AddTag | swaggapi/src/context.rs:85-91 | the tag is recorded and added to every existing handler |
| ApiContext.ApiContext.PushAll | swaggapi/src/context.rs:134-158 | every handler, moved under the prefix if one is given, through `push_handler` |
| ApiContext.ApiContext.Nest | swaggapi/src/context.rs:134-149 | every handler at its nested path; no path refused |
| ApiContext.ApiContext.Merge | swaggapi/src/context.rs:152-158 | every handler of the other, in order |
| ApiContext.ApiContext.Finish | swaggapi/src/context.rs:104-113 | each handler, with its OpenAPI path, on the page of everything and its own pages |
| ApiContext.FinishStep | swaggapi/src/context.rs:104-113 | one round of `finish` extends each page as `PageContents` does |
| ApiContext.AddToPages | swaggapi/src/context.rs:104-113 | the handler is appended to each of its pages |
| ApiContext.TagBeforeAndAfter | swaggapi/src/context.rs:69-101 | a tag reaches handlers added before it and after it |
| HandlerImpls.FirstIndex | galvyn-core/src/handler/impls.rs:112 | the position of the first occurrence |
| HandlerImpls.Placeholders | galvyn-core/src/handler/impls.rs:112 | the matches of `\{[^}]*}` in order: no placeholder contains `}`, and a path without `{` has none |
| HandlerImpls.PlaceholdersBraced | galvyn-core/src/handler/impls.rs:112 | `{name}` after brace-free text is the first placeholder |
| HandlerImpls.UnmatchedMembers | galvyn-core/src/handler/impls.rs:201-213 | a placeholder stays unmatched iff no name covers it |
| HandlerImpls.UnmatchedByNothing | galvyn-core/src/handler/impls.rs:121-124 | with no names, every placeholder is unmatched |
| HandlerImpls.UnmatchedStep | galvyn-core/src/handler/impls.rs:201-206 | retaining keys other than one name is matching one more name |
| HandlerImpls.Untyped | galvyn-core/src/handler/impls.rs:207-212 | the names are the placeholders |
| HandlerImpls.Typed | galvyn-core/src/handler/impls.rs:155-162 | the names are the placeholders |
| HandlerImpls.Zipped | galvyn-core/src/handler/impls.rs:163-179 | the names are the placeholders |
| HandlerImpls.PathParametersOf | galvyn-core/src/handler/impls.rs:115-214 | the method's result is `PathParameters` |
| HandlerImpls.EveryPlaceholderListed | galvyn-core/src/handler/impls.rs:115-214 | unless the schema is not a schema object, every placeholder is documented |
| HandlerImpls.ObjectParameters | galvyn-core/src/handler/impls.rs:127-144 | the properties, then exactly the unnamed placeholders without a schema |
| HandlerImpls.ObjectCoversPath | galvyn-core/src/handler/impls.rs:127-144 | an object naming every placeholder documents just its properties |
| HandlerImpls.PositionalParameters | galvyn-core/src/handler/impls.rs:145-198 | for other schema objects, the parameters are the placeholders in path order |
| HandlerImpls.PathParameters | galvyn-core/src/handler/impls.rs:115-214 | panics exactly for a tuple with more positions than the path has placeholders, with `drain`'s message |
| HandlerImpls.UntypedOnlyForPlaceholders | galvyn-core/src/handler/impls.rs:115-214 | a parameter without a schema is a placeholder: after the properties and named by none of them for an object, past the tuple for an array, never for an array of one item schema, not the first for any other type |
| HandlerImpls.RequestBody | galvyn-core/src/handler/impls.rs:38-106 | `text/plain; charset=utf-8` and `application/octet-stream` without a schema, JSON with `T`'s schema, a form with `T`'s schema (a raw form without) off GET, `application/x-empty` without a schema on GET; a schema exactly for JSON and non-GET forms |
| HandlerImpls.QueryParameters | galvyn-core/src/handler/impls.rs:218-230 | the object schema's properties, or none |
| HandlerImpls.FormQueryParameters | galvyn-core/src/handler/impls.rs:61-88 | `Query`'s parameters on GET, none otherwise |
| HandlerImpls.FormDocumentedOnce | galvyn-core/src/handler/impls.rs:61-88 | a form's fields are documented in the query or in the body, never both |
| HandlerImpls.ResultBody | galvyn-core/src/handler/impls.rs:340-350 | exactly the bodies of `T`, followed by exactly those of `E` |
| HandlerImpls.ResultBodyAssociative | galvyn-core/src/handler/impls.rs:340-350 | nesting `Result` either way documents the same bodies |
| HandlerImpls.Temporary | galvyn-core/src/handler/impls.rs:352-364 | a 307 redirect to the location |
| HandlerImpls.RedirectBody | galvyn-core/src/handler/impls.rs:352-364 | 303, 307 and 308 in this order, none with content |
| HandlerImpls.RedirectDocumented | galvyn-core/src/handler/impls.rs:352-364 | every temporary redirect is documented with its header |
| HandlerMacro.PathIdent | galvyn-macros/src/handler/mod.rs:45-50 | the single segment of a one-segment path |
| HandlerMacro.Tags | galvyn-macros/src/handler/mod.rs:55-60 | exactly the `tags` value when given, otherwise an empty bracket group |
| HandlerMacro.Deprecated | galvyn-macros/src/handler/mod.rs:152-158 | deprecated exactly when some attribute, of any form, has the path `deprecated` |
| HandlerMacro.RequestTypes | galvyn-macros/src/handler/mod.rs:84-91 | exactly the typed arguments' types, receivers skipped |
| HandlerMacro.NoRequestBody | galvyn-macros/src/handler/mod.rs:102-111 | no body iff every argument is a receiver |
| HandlerMacro.RequestBodyIsLastTyped | galvyn-macros/src/handler/mod.rs:102-111 | the body is the last typed argument; only receivers follow it |
| HandlerMacro.ResponseTypes | galvyn-macros/src/handler/mod.rs:113-119 | a tuple's elements, none for the default return, else the one type |
| HandlerMacro.ModifierAndBody | galvyn-macros/src/handler/mod.rs:121-150 | the modifier is the first response type and the body the last; `()` documents nothing |
| HandlerMacro.Doc | galvyn-macros/src/handler/mod.rs:164-177 | the values of `doc = …` attributes, in order |
| HandlerMacro.DocMembers | galvyn-macros/src/handler/mod.rs:164-177 | a string is documented iff a `doc` attribute has it |
| HandlerMacro.DocConcat | galvyn-macros/src/handler/mod.rs:164-177 | docs of consecutive attributes concatenate |
| HandlerMacro.ExpandHandler | galvyn-macros/src/handler/mod.rs:35-80 | a parse error with the original tokens; a panic iff positional arguments run out; an unexpected positional value; an unknown key; otherwise the resolved metadata |
| OauthErrors.ErrorCode | contrib/galvyn-contrib-oauth/src/handler/error.rs:96-118 | a code that is read back as the same error type, so no two error types share a code |
| OauthErrors.FromRequest | contrib/galvyn-contrib-oauth/src/handler/error.rs:31-54 | JSON with the state without a redirect URI; an invalid URI is an `invalid_request` without state; otherwise the parsed URI |
| OauthErrors.NewError | contrib/galvyn-contrib-oauth/src/handler/error.rs:57-64 | the builder's target and state, with the error and description |
| OauthErrors.MapRormError | contrib/galvyn-contrib-oauth/src/handler/error.rs:69-82 | a `server_error`, and an internal server error logged at the caller, at error level |
| OauthErrors.QueryPairs | contrib/galvyn-contrib-oauth/src/handler/error.rs:96-118 | the `error` pair first, then `state` when present; one pair per present field and none for an absent one, keyed only by the three field names |
| OauthErrors.Lookup | contrib/galvyn-contrib-oauth/src/handler/error.rs:96-118 | a found value is paired with its key |
| OauthErrors.QueryPairsRoundTrip | contrib/galvyn-contrib-oauth/src/handler/error.rs:96-118 | the written pairs read back as the error |
| OauthErrors.IntoResponse | contrib/galvyn-contrib-oauth/src/handler/error.rs:96-118 | a 307 redirect iff there is a URI, its query kept and the error appended; otherwise JSON with status 200 |
| OauthErrors.RedirectsOnlyToParsedUri | contrib/galvyn-contrib-oauth/src/handler/error.rs:31-118 | a request's errors redirect exactly when its URI parsed, to that URI, with its state |
| OauthErrors.Body | contrib/galvyn-contrib-oauth/src/handler/error.rs:121-127 | the 307 entry, then the JSON body's |
| OauthErrors.ResponseDocumented | contrib/galvyn-contrib-oauth/src/handler/error.rs:96-127 | every response status is documented |

## Left out

- Async execution, `Mutex` poisoning, the settings watch channel and concurrent requests: each operation runs to completion alone.
- Cryptography, serde, randomness, URL parsing, the WebAuthn library and the OIDC provider are oracle parameters. Failures of the database and the session store are not simulated inside the model: a handler takes a `fault: Option<Step>` naming the first `.await?` that fails, if any.
- The axum `Router` itself, middleware layers, and the tokens the handler macro emits: only the metadata the macro records is modelled.
- `parse.rs` of the handler macro is not part of this model: the parse result is a parameter.
- `schema.rs` of the OAuth contrib is not part of this model. Its error codes are taken from section 4.1.2.1 of RFC 6749, and the `AuthError` fields are assumed to serialize in declaration order.
- `api_json.rs` is not part of this model: the JSON body's entries are a parameter.
- `PtrSet` of the router is modelled by value as a set.
- `RouteMetadataSet` (router `metadata.rs`) is not part of this model. It is modelled as an optional `OpenapiMetadata`.
- SettingsStore.SettingsStore.Register: how often the default closure runs is not modelled.
- TimerState.TimersState.Run: `Instant` overflow is not modelled.
- Arena slot reuse is not modelled: every new timer gets a fresh index.
- SessionStore.RormStore.Load: after "Decoding of id failed: " the source appends the base64 decoder's error text; the model appends the stored id instead, and its contract states only the prefix.
- SessionStore.RormStore.Create: the id handed back after a failed insert is not constrained.
- AuthLegacy.AuthService.SetLocalPassword: the older revision's models are not part of this model, so its column length limits are not modelled.
- HandlerMacro.ExpandHandler: which leftover key the macro reports first depends on `HashMap` order. The model reports the set of leftover keys.
- The single-entry response bodies of text, bytes, JSON, HTML and unit types (`impls.rs` 232-331, 403-412).
- URL rendering and percent-encoding of the OAuth redirect: a URL is its base and its query pairs.
- Tracing warnings that do not affect a result.
- `Deref for ContextHandler` (swaggapi `internals/handler.rs`) is the field access `.original` of the model.

## Findings

| source | as written | input that shows it | evidently intended | confidence | as-written member | corrected member |
|---|---|---|---|---|---|---|
| contrib/galvyn-contrib-auth/src/handler/oidc/handler.rs:15-89 | `login_oidc` stores the state under `"login_oidc"`, but `finish_login_oidc` reads `"oidc_login_data"` | any callback after a successful `login_oidc` | finish reads the key start wrote | not executed | AuthHandlers.OidcLoginAsWritten | AuthHandlers.OidcLoginCorrected |
| contrib/galvyn-contrib-auth/src/handler/mod.rs:82-197 | the older revision has the same key mismatch | any callback after a successful `login_oidc` | finish reads the key start wrote | not executed | AuthLegacy.LegacyOidcLoginAsWritten | AuthLegacy.LegacyOidcLoginCorrected |
| galvyn-core/src/stuff/api_error.rs:168-172 | `#[track_caller]` on `map_server_error` does not reach the returned closure, which records its own site | two calls of `map_server_error` from different lines | the caller of `map_server_error` is recorded, as in `core.rs` | not executed | ApiErrorLegacy.MapServerErrorLosesCaller | ApiErrorLegacy.MapServerErrorAtCallerAgrees |
