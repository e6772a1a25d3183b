/**
 * The HTTP handlers of the authentication contrib crate, current revision:
 * WebAuthn and password login and password management
 * (contrib/galvyn-contrib-auth/src/handler/local/handler.rs), OpenID
 * Connect login (contrib/galvyn-contrib-auth/src/handler/oidc/handler.rs)
 * and logout (contrib/galvyn-contrib-auth/src/handler/core/handler.rs).
 *
 * `AuthService` holds the database and the session of the client making the
 * requests. A handler that fails leaves the database as it was: its
 * transaction is dropped without commit.
 */
module AuthHandlers {
  import opened Wrappers
  import opened Text
  import opened AuthModels
  import O = OidcLogic
  import H = HandlerImpls
  import L = ApiErrorLegacy

  /** WebAuthn's `AttestedPasskeyAuthentication`, `RequestChallengeResponse` and `PublicKeyCredential`. */
  datatype AuthState = AuthState(id: nat)
  datatype Challenge = Challenge(id: nat)
  datatype Credential = Credential(id: nat)

  /**
   * The WebAuthn library: starting an authentication for a set of attested
   * keys, and verifying the client's credential against the kept state
   * (yielding the credential id that signed). `None` is a library error.
   */
  datatype Webauthn = Webauthn(
    start: set<AttestedPasskey> -> Option<(Challenge, AuthState)>,
    finish: (Credential, AuthState) -> Option<CredId>)

  /** The values the handlers keep in the session, each under its own key. */
  datatype SessionValue =
    | WebauthnLogin(identifier: string, state: AuthState)
    | OidcLogin(oidcState: O.OidcSessionState)
    | AccountRef(account: Uuid)
    | OtherValue(json: string)

  const WEBAUTHN_KEY := "login_local_webauthn"
  const OIDC_START_KEY := "login_oidc"
  const OIDC_FINISH_KEY := "oidc_login_data"
  const ACCOUNT_KEY := "account"

  /** `UPDATE local_account SET password = ? WHERE account = ?` */
  function UpdatePassword(db: Db, account: Uuid, password: Option<string>): Db {
    db.(localAccounts := map l | l in db.localAccounts ::
      if db.localAccounts[l].account == account then db.localAccounts[l].(password := password) else db.localAccounts[l])
  }

  /**
   * The update keeps every constraint as long as the new password fits
   * its column, and it reaches exactly the local accounts of `account`.
   */
  lemma UpdatePasswordKeepsValid(db: Db, account: Uuid, password: Option<string>)
    requires Valid(db)
    requires password.Some? ==> |password.value| <= MAX_PASSWORD
    ensures Valid(UpdatePassword(db, account, password))
    ensures LocalAccountsOf(UpdatePassword(db, account, password), account) == LocalAccountsOf(db, account)
    ensures forall l :: l in LocalAccountsOf(db, account) ==>
      UpdatePassword(db, account, password).localAccounts[l].password == password
    ensures forall l :: l in db.localAccounts && l !in LocalAccountsOf(db, account) ==>
      UpdatePassword(db, account, password).localAccounts[l] == db.localAccounts[l]
  {
    UpdatePasswordKeepsLinks(db, account, password);
    var r := UpdatePassword(db, account, password);
    assert UniqueIds(r) && ForeignKeys(r);
    assert WithinBounds(r) by {
      forall l | l in r.localAccounts && r.localAccounts[l].password.Some?
        ensures |r.localAccounts[l].password.value| <= MAX_PASSWORD
      {
      }
    }
  }

  /** The update changes passwords only: every row keeps its links, and the other tables are untouched. */
  lemma UpdatePasswordKeepsLinks(db: Db, account: Uuid, password: Option<string>)
    ensures UpdatePassword(db, account, password).accounts == db.accounts
    ensures UpdatePassword(db, account, password).oidcAccounts == db.oidcAccounts
    ensures UpdatePassword(db, account, password).totpKeys == db.totpKeys
    ensures UpdatePassword(db, account, password).webauthnKeys == db.webauthnKeys
    ensures UpdatePassword(db, account, password).localAccounts.Keys == db.localAccounts.Keys
    ensures forall l :: l in db.localAccounts ==>
      UpdatePassword(db, account, password).localAccounts[l].account == db.localAccounts[l].account
    ensures LocalAccountsOf(UpdatePassword(db, account, password), account) == LocalAccountsOf(db, account)
  {
    var r := UpdatePassword(db, account, password);
    assert r.localAccounts.Keys == db.localAccounts.Keys;
  }

  /**
   * After the update of an account's password, the account's identifier
   * still finds exactly that account, and each of its local accounts holds
   * the new password.
   */
  lemma PasswordUpdated(db: Db, a: Uuid, password: Option<string>)
    requires Valid(db) && a in db.accounts
    requires password.Some? ==> |password.value| <= MAX_PASSWORD
    ensures Valid(UpdatePassword(db, a, password))
    ensures AccountsWithId(UpdatePassword(db, a, password), db.accounts[a].id) == {a}
    ensures LocalAccountsOf(UpdatePassword(db, a, password), a) == LocalAccountsOf(db, a)
    ensures forall l :: l in LocalAccountsOf(db, a) ==> UpdatePassword(db, a, password).localAccounts[l].password == password
  {
    UpdatePasswordKeepsValid(db, a, password);
    var r := UpdatePassword(db, a, password);
    forall b | b in AccountsWithId(r, db.accounts[a].id) ensures b == a {
      AccountsWithIdAtMostOne(r, db.accounts[a].id, a, b);
    }
  }

  /** `INSERT INTO account` and `INSERT INTO oidc_account` in one transaction. */
  function InsertOidcAccount(db: Db, accountUuid: Uuid, oidcUuid: Uuid, issuer: string, subject: string): Db {
    db.(accounts := db.accounts[accountUuid := Account("")],
        oidcAccounts := db.oidcAccounts[oidcUuid := OidcAccount(issuer, subject, accountUuid)])
  }

  /** Whether the two inserts of a new OIDC login are accepted by the database. */
  predicate CanInsertOidcAccount(db: Db, accountUuid: Uuid, oidcUuid: Uuid) {
    accountUuid !in db.accounts && AccountsWithId(db, "") == {} && oidcUuid !in db.oidcAccounts
  }

  lemma InsertOidcAccountKeepsValid(db: Db, accountUuid: Uuid, oidcUuid: Uuid, issuer: string, subject: string)
    requires Valid(db) && CanInsertOidcAccount(db, accountUuid, oidcUuid)
    requires Utf8Length(issuer) <= MAX_ISSUER && Utf8Length(subject) <= MAX_SUBJECT
    ensures Valid(InsertOidcAccount(db, accountUuid, oidcUuid, issuer, subject))
  {
    InsertOidcAccountKeepsUniqueIds(db, accountUuid, oidcUuid, issuer, subject);
    InsertOidcAccountKeepsBounds(db, accountUuid, oidcUuid, issuer, subject);
    InsertOidcAccountKeepsForeignKeys(db, accountUuid, oidcUuid, issuer, subject);
  }

  lemma InsertOidcAccountKeepsUniqueIds(db: Db, accountUuid: Uuid, oidcUuid: Uuid, issuer: string, subject: string)
    requires UniqueIds(db) && CanInsertOidcAccount(db, accountUuid, oidcUuid)
    ensures UniqueIds(InsertOidcAccount(db, accountUuid, oidcUuid, issuer, subject))
  {
  }

  /** Issuer and subject are `MaxStr<255>`: they fit when their UTF-8 encodings have at most 255 bytes. */
  lemma InsertOidcAccountKeepsBounds(db: Db, accountUuid: Uuid, oidcUuid: Uuid, issuer: string, subject: string)
    requires WithinBounds(db)
    requires Utf8Length(issuer) <= MAX_ISSUER && Utf8Length(subject) <= MAX_SUBJECT
    ensures WithinBounds(InsertOidcAccount(db, accountUuid, oidcUuid, issuer, subject))
  {
  }

  lemma InsertOidcAccountKeepsForeignKeys(db: Db, accountUuid: Uuid, oidcUuid: Uuid, issuer: string, subject: string)
    requires ForeignKeys(db)
    ensures ForeignKeys(InsertOidcAccount(db, accountUuid, oidcUuid, issuer, subject))
  {
  }

  /** After the inserts, the lookup by issuer and subject finds the new row, so the next login with that identity reuses it. */
  lemma InsertOidcAccountFound(db: Db, accountUuid: Uuid, oidcUuid: Uuid, issuer: string, subject: string)
    ensures var r := InsertOidcAccount(db, accountUuid, oidcUuid, issuer, subject);
      oidcUuid in OidcAccountsMatching(r, issuer, subject) && r.oidcAccounts[oidcUuid].account == accountUuid
  {
  }

  /**
   * `after` is `before` once the find-or-create of an OIDC login for
   * (issuer, subject) has committed: unchanged when a row matched, and
   * with the two new rows otherwise.
   */
  ghost predicate FoundOrCreated(before: Db, after: Db, issuer: string, subject: string, accountUuid: Uuid, oidcUuid: Uuid) {
    (OidcAccountsMatching(before, issuer, subject) != {} ==> after == before)
    && (OidcAccountsMatching(before, issuer, subject) == {} ==>
          after == InsertOidcAccount(before, accountUuid, oidcUuid, issuer, subject))
  }

  /**
   * Since every new OIDC account gets the id `""` and ids are unique, no
   * second OIDC identity can sign up once one account has that id.
   */
  lemma SecondOidcSignupRejected(db: Db, a1: Uuid, o1: Uuid, a2: Uuid, o2: Uuid, i1: string, s1: string)
    requires CanInsertOidcAccount(db, a1, o1)
    ensures !CanInsertOidcAccount(InsertOidcAccount(db, a1, o1, i1, s1), a2, o2)
  {
    assert a1 in AccountsWithId(InsertOidcAccount(db, a1, o1, i1, s1), "");
  }

  /**
   * The pending login is a WebAuthn challenge, the credential verifies
   * against it, and the key that signed is an attested key of a local
   * account of `a`, which holds the identifier the challenge was started for.
   */
  ghost predicate KeyVerifiedFor(db: Db, webauthn: Webauthn, pending: SessionValue, credential: Credential, a: Uuid) {
    pending.WebauthnLogin? && webauthn.finish(credential, pending.state).Some?
    && a in AccountsWithId(db, pending.identifier)
    && exists l :: l in LocalAccountsOf(db, a) && HasAttestedWithCred(KeysOf(db, l), webauthn.finish(credential, pending.state).value)
  }

  /** The credential verifies against the pending challenge, but no local account of the identifier holds the key that signed. */
  ghost predicate NoKeyVerified(db: Db, webauthn: Webauthn, pending: SessionValue, credential: Credential) {
    pending.WebauthnLogin? && webauthn.finish(credential, pending.state).Some?
    && forall a, l :: a in AccountsWithId(db, pending.identifier) && l in LocalAccountsOf(db, a) ==>
         !HasAttestedWithCred(KeysOf(db, l), webauthn.finish(credential, pending.state).value)
  }

  /** The identifier names an account, and each account with that identifier has a local account. */
  predicate IsLocal(db: Db, identifier: string) {
    AccountsWithId(db, identifier) != {}
    && forall a :: a in AccountsWithId(db, identifier) ==> LocalAccountsOf(db, a) != {}
  }

  /** The identifier names an account, but no account with that identifier has a local account. */
  predicate NotLocal(db: Db, identifier: string) {
    AccountsWithId(db, identifier) != {}
    && forall a :: a in AccountsWithId(db, identifier) ==> LocalAccountsOf(db, a) == {}
  }

  class AuthService {
    var db: Db
    var session: map<string, SessionValue>
    const webauthn: Webauthn
    const oidc: O.Provider

    predicate Valid()
      reads this
    {
      AuthModels.Valid(db)
    }

    constructor (db: Db, session: map<string, SessionValue>, webauthn: Webauthn, oidc: O.Provider)
      requires AuthModels.Valid(db)
      ensures Valid()
      ensures this.db == db && this.session == session && this.webauthn == webauthn && this.oidc == oidc
    {
      this.db := db;
      this.session := session;
      this.webauthn := webauthn;
      this.oidc := oidc;
    }

    /**
     * `POST /local/login/start-webauthn`. The transaction only reads, and
     * the challenge state is kept in the session after the commit.
     */
    method LoginLocalWebauthn(identifier: string, fault: Option<Step>) returns (r: Result<Challenge, HandlerError>)
      requires Valid()
      modifies this`session
      ensures Valid() && db == old(db)
      ensures r.Err? ==> session == old(session)
      ensures FailsIn(fault, {BeginTransaction, Query(0)}) ==> r == Err(Internal(DatabaseFailure))
      ensures !FailsIn(fault, {BeginTransaction, Query(0)}) && AccountsWithId(db, identifier) == {} ==>
        r == Err(BadRequest("Account not found"))
      ensures fault == Some(Query(1)) && AccountsWithId(db, identifier) != {} ==> r == Err(Internal(DatabaseFailure))
      ensures !FailsIn(fault, {BeginTransaction, Query(0), Query(1)}) && NotLocal(db, identifier) ==>
        r == Err(BadRequest("Not a local account"))
      ensures fault == Some(Query(2)) && IsLocal(db, identifier) ==> r == Err(Internal(DatabaseFailure))
      ensures !FailsIn(fault, {BeginTransaction, Query(0), Query(1), Query(2)}) && IsLocal(db, identifier)
        && (forall a, l :: a in AccountsWithId(db, identifier) && l in LocalAccountsOf(db, a) ==>
              webauthn.start(AttestedKeys(KeysOf(db, l))).None?)
        ==> r == Err(ServerError("Failed to start webauthn challenge"))
      ensures FailsIn(fault, {Commit, SessionInsert}) ==> r.Err?
      ensures r == Err(Internal(DatabaseFailure)) ==> FailsIn(fault, {BeginTransaction, Query(0), Query(1), Query(2), Commit})
      ensures r == Err(Internal(SessionStoreFailure)) ==> fault == Some(SessionInsert)
      ensures r.Ok? ==>
        !FailsIn(fault, {BeginTransaction, Query(0), Query(1), Query(2), Commit, SessionInsert})
        && exists a, l, st ::
          (a in AccountsWithId(db, identifier) && l in LocalAccountsOf(db, a)
           && webauthn.start(AttestedKeys(KeysOf(db, l))) == Some((r.value, st))
           && session == old(session)[WEBAUTHN_KEY := WebauthnLogin(identifier, st)])
      ensures !FailsIn(fault, {BeginTransaction, Query(0), Query(1), Query(2), Commit, SessionInsert}) && IsLocal(db, identifier)
        && (forall a, l :: a in AccountsWithId(db, identifier) && l in LocalAccountsOf(db, a) ==>
              webauthn.start(AttestedKeys(KeysOf(db, l))).Some?)
        ==> r.Ok?
    {
      if FailsIn(fault, {BeginTransaction, Query(0)}) {
        return Err(Internal(DatabaseFailure));
      }
      var accounts := AccountsWithId(db, identifier);
      if accounts == {} {
        return Err(BadRequest("Account not found"));
      }
      var a :| a in accounts;
      if fault == Some(Query(1)) {
        return Err(Internal(DatabaseFailure));
      }
      var locals := LocalAccountsOf(db, a);
      if locals == {} {
        return Err(BadRequest("Not a local account"));
      }
      var l :| l in locals;
      if fault == Some(Query(2)) {
        return Err(Internal(DatabaseFailure));
      }
      var keys := AttestedKeys(KeysOf(db, l));
      var started := webauthn.start(keys);
      if started.None? {
        return Err(ServerError("Failed to start webauthn challenge"));
      }
      if fault == Some(Commit) {
        return Err(Internal(DatabaseFailure));
      }
      if fault == Some(SessionInsert) {
        return Err(Internal(SessionStoreFailure));
      }
      var (challenge, st) := started.value;
      session := session[WEBAUTHN_KEY := WebauthnLogin(identifier, st)];
      r := Ok(challenge);
    }

    /**
     * `POST /local/login/finish-webauthn`. The pending challenge is taken
     * out of the session before anything else, so once the removal has
     * succeeded it is used at most once whatever the outcome.
     */
    method FinishLoginLocalWebauthn(credential: Credential, fault: Option<Step>) returns (r: Result<(), HandlerError>)
      requires Valid()
      modifies this`session
      ensures Valid() && db == old(db)
      ensures fault == Some(SessionRemove) ==> r == Err(Internal(SessionStoreFailure)) && session == old(session)
      ensures fault != Some(SessionRemove) ==> WEBAUTHN_KEY !in session
      ensures fault != Some(SessionRemove) && WEBAUTHN_KEY !in old(session) ==>
        r == Err(BadRequest("No ongoing challenge")) && session == old(session)
      ensures r.Err? && fault != Some(SessionRemove) ==> session == old(session) - {WEBAUTHN_KEY}
      ensures fault == Some(BeginTransaction) && WEBAUTHN_KEY in old(session) && old(session)[WEBAUTHN_KEY].WebauthnLogin?
        && webauthn.finish(credential, old(session)[WEBAUTHN_KEY].state).Some?
        ==> r == Err(Internal(DatabaseFailure))
      ensures FailsIn(fault, {Commit, SessionInsert}) ==> r.Err?
      ensures r == Err(Internal(DatabaseFailure)) ==> FailsIn(fault, {BeginTransaction, Query(0), Query(1), Query(2), Commit})
      ensures r == Err(Internal(SessionStoreFailure)) ==> FailsIn(fault, {SessionRemove, SessionInsert})
      ensures r.Ok? ==>
        !FailsIn(fault, {SessionRemove, BeginTransaction, Query(0), Query(1), Query(2), Commit, SessionInsert})
        && WEBAUTHN_KEY in old(session)
        && exists a :: KeyVerifiedFor(db, webauthn, old(session)[WEBAUTHN_KEY], credential, a)
             && session == old(session) - {WEBAUTHN_KEY} + map[ACCOUNT_KEY := AccountRef(a)]
      ensures WEBAUTHN_KEY in old(session) && NoKeyVerified(db, webauthn, old(session)[WEBAUTHN_KEY], credential) ==> r.Err?
    {
      if fault == Some(SessionRemove) {
        return Err(Internal(SessionStoreFailure));
      }
      if WEBAUTHN_KEY !in session {
        return Err(BadRequest("No ongoing challenge"));
      }
      var pending := session[WEBAUTHN_KEY];
      session := session - {WEBAUTHN_KEY};
      var found := VerifyWebauthn(pending, credential, fault);
      if found.Err? {
        return Err(found.error);
      }
      if fault == Some(Commit) {
        return Err(Internal(DatabaseFailure));
      }
      if fault == Some(SessionInsert) {
        return Err(Internal(SessionStoreFailure));
      }
      var a := found.value;
      assert ACCOUNT_KEY != WEBAUTHN_KEY by {
        assert ACCOUNT_KEY[0] != WEBAUTHN_KEY[0];
      }
      assert KeyVerifiedFor(db, webauthn, old(session)[WEBAUTHN_KEY], credential, a);
      session := session + map[ACCOUNT_KEY := AccountRef(a)];
      r := Ok(());
    }

    /**
     * The checks of `finish_login_local_webauthn` once the challenge is out
     * of the session: the credential must verify against the challenge, and
     * its key must be an attested key of a local account of the account the
     * challenge was started for. Yields that account.
     */
    method VerifyWebauthn(pending: SessionValue, credential: Credential, fault: Option<Step>) returns (r: Result<Uuid, HandlerError>)
      ensures !pending.WebauthnLogin? ==> r == Err(Internal(SessionDecode(WEBAUTHN_KEY)))
      ensures pending.WebauthnLogin? && webauthn.finish(credential, pending.state).None? ==>
        r == Err(ServerError("Failed to finish webauthn challenge"))
      ensures pending.WebauthnLogin? && webauthn.finish(credential, pending.state).Some?
        && FailsIn(fault, {BeginTransaction, Query(0)})
        ==> r == Err(Internal(DatabaseFailure))
      ensures r.Err? ==> r.error != Internal(SessionStoreFailure)
      ensures r == Err(Internal(DatabaseFailure)) ==> FailsIn(fault, {BeginTransaction, Query(0), Query(1), Query(2)})
      ensures r.Ok? ==>
        !FailsIn(fault, {BeginTransaction, Query(0), Query(1), Query(2)})
        && KeyVerifiedFor(db, webauthn, pending, credential, r.value)
      ensures NoKeyVerified(db, webauthn, pending, credential) ==> r.Err?
      ensures pending.WebauthnLogin? && webauthn.finish(credential, pending.state).Some?
        && !FailsIn(fault, {BeginTransaction, Query(0)}) && AccountsWithId(db, pending.identifier) == {}
        ==> r == Err(BadRequest("Account not found"))
      ensures pending.WebauthnLogin? && webauthn.finish(credential, pending.state).Some?
        && fault == Some(Query(1)) && AccountsWithId(db, pending.identifier) != {}
        ==> r == Err(Internal(DatabaseFailure))
      ensures pending.WebauthnLogin? && webauthn.finish(credential, pending.state).Some?
        && !FailsIn(fault, {BeginTransaction, Query(0), Query(1)}) && NotLocal(db, pending.identifier)
        ==> r == Err(BadRequest("Not a local account"))
      ensures pending.WebauthnLogin? && webauthn.finish(credential, pending.state).Some?
        && fault == Some(Query(2)) && IsLocal(db, pending.identifier)
        ==> r == Err(Internal(DatabaseFailure))
      ensures NoKeyVerified(db, webauthn, pending, credential)
        && !FailsIn(fault, {BeginTransaction, Query(0), Query(1), Query(2)}) && IsLocal(db, pending.identifier)
        ==> r == Err(BadRequest("Used unknown key"))
      ensures r.Err? && !r.error.Internal? ==>
        r.error in {ServerError("Failed to finish webauthn challenge"), BadRequest("Account not found"),
                    BadRequest("Not a local account"), BadRequest("Used unknown key")}
    {
      if !pending.WebauthnLogin? {
        return Err(Internal(SessionDecode(WEBAUTHN_KEY)));
      }
      var verified := webauthn.finish(credential, pending.state);
      if verified.None? {
        return Err(ServerError("Failed to finish webauthn challenge"));
      }
      if FailsIn(fault, {BeginTransaction, Query(0)}) {
        return Err(Internal(DatabaseFailure));
      }
      var accounts := AccountsWithId(db, pending.identifier);
      if accounts == {} {
        return Err(BadRequest("Account not found"));
      }
      var a :| a in accounts;
      if fault == Some(Query(1)) {
        return Err(Internal(DatabaseFailure));
      }
      var locals := LocalAccountsOf(db, a);
      if locals == {} {
        return Err(BadRequest("Not a local account"));
      }
      var l :| l in locals;
      if fault == Some(Query(2)) {
        return Err(Internal(DatabaseFailure));
      }
      if !HasAttestedWithCred(KeysOf(db, l), verified.value) {
        return Err(BadRequest("Used unknown key"));
      }
      r := Ok(a);
    }

    /**
     * `session.get::<Uuid>("account").await?`: a failing session store, no
     * entry, the logged-in account, or a value of another type.
     */
    function LoggedIn(fault: Option<Step>): (r: Result<Option<Uuid>, HandlerError>)
      reads this
      ensures fault == Some(SessionGet) ==> r == Err(Internal(SessionStoreFailure))
      ensures fault != Some(SessionGet) && ACCOUNT_KEY !in session ==> r == Ok(None)
      ensures forall a: Uuid :: r == Ok(Some(a)) <==>
        fault != Some(SessionGet) && ACCOUNT_KEY in session && session[ACCOUNT_KEY] == AccountRef(a)
      ensures r.Err? <==> fault == Some(SessionGet) || (ACCOUNT_KEY in session && !session[ACCOUNT_KEY].AccountRef?)
    {
      if fault == Some(SessionGet) then Err(Internal(SessionStoreFailure))
      else if ACCOUNT_KEY !in session then Ok(None)
      else if session[ACCOUNT_KEY].AccountRef? then Ok(Some(session[ACCOUNT_KEY].account))
      else Err(Internal(SessionDecode(ACCOUNT_KEY)))
    }

    /**
     * `POST /local/login/password`: the stored password is compared with
     * the submitted one as plain text; only a match logs the client in.
     */
    method LoginLocalPassword(identifier: string, password: string, fault: Option<Step>) returns (r: Result<(), HandlerError>)
      requires Valid()
      modifies this`session
      ensures Valid() && db == old(db)
      ensures r.Err? ==> session == old(session)
      ensures FailsIn(fault, {BeginTransaction, Query(0)}) ==> r == Err(Internal(DatabaseFailure))
      ensures r == Err(BadRequest("Account not found")) <==>
        !FailsIn(fault, {BeginTransaction, Query(0)}) && AccountsWithId(db, identifier) == {}
      ensures fault == Some(Query(1)) && AccountsWithId(db, identifier) != {} ==> r == Err(Internal(DatabaseFailure))
      ensures !FailsIn(fault, {BeginTransaction, Query(0), Query(1)}) && NotLocal(db, identifier) ==>
        r == Err(BadRequest("Not a local account"))
      ensures r == Err(BadRequest("Not a local account")) ==>
        exists a :: a in AccountsWithId(db, identifier) && LocalAccountsOf(db, a) == {}
      ensures (forall a, l :: a in AccountsWithId(db, identifier) && l in LocalAccountsOf(db, a) ==>
             db.localAccounts[l].password.None?)
        && r.Err? && !r.error.Internal?
        && r.error != BadRequest("Account not found") && r.error != BadRequest("Not a local account")
        ==> r.error == BadRequest("Account has no password")
      ensures !FailsIn(fault, {BeginTransaction, Query(0), Query(1)}) && IsLocal(db, identifier)
        && (forall a, l :: a in AccountsWithId(db, identifier) && l in LocalAccountsOf(db, a) ==>
              db.localAccounts[l].password.None?)
        ==> r == Err(BadRequest("Account has no password"))
      ensures !FailsIn(fault, {BeginTransaction, Query(0), Query(1)}) && IsLocal(db, identifier)
        && (forall a, l :: a in AccountsWithId(db, identifier) && l in LocalAccountsOf(db, a) ==>
              db.localAccounts[l].password.Some? && db.localAccounts[l].password != Some(password))
        ==> r == Err(BadRequest("Passwords do not match"))
      ensures r.Err? && !r.error.Internal? ==>
        r.error in {BadRequest("Account not found"), BadRequest("Not a local account"),
                    BadRequest("Account has no password"), BadRequest("Passwords do not match")}
      ensures FailsIn(fault, {Commit, SessionInsert}) ==> r.Err?
      ensures r.Err? && r.error.Internal? ==> r.error.cause.DatabaseFailure? || r.error.cause.SessionStoreFailure?
      ensures r == Err(Internal(DatabaseFailure)) ==> FailsIn(fault, {BeginTransaction, Query(0), Query(1), Commit})
      ensures r == Err(Internal(SessionStoreFailure)) ==> fault == Some(SessionInsert)
      ensures r.Ok? ==>
        !FailsIn(fault, {BeginTransaction, Query(0), Query(1), Commit, SessionInsert})
        && exists a, l ::
          (a in AccountsWithId(db, identifier) && l in LocalAccountsOf(db, a)
           && db.localAccounts[l].password == Some(password)
           && session == old(session)[ACCOUNT_KEY := AccountRef(a)])
      ensures !FailsIn(fault, {BeginTransaction, Query(0), Query(1), Commit, SessionInsert}) && IsLocal(db, identifier)
        && (forall a, l :: a in AccountsWithId(db, identifier) && l in LocalAccountsOf(db, a) ==>
              db.localAccounts[l].password == Some(password))
        ==> r.Ok?
    {
      if FailsIn(fault, {BeginTransaction, Query(0)}) {
        return Err(Internal(DatabaseFailure));
      }
      var accounts := AccountsWithId(db, identifier);
      if accounts == {} {
        return Err(BadRequest("Account not found"));
      }
      var a :| a in accounts;
      if fault == Some(Query(1)) {
        return Err(Internal(DatabaseFailure));
      }
      var locals := LocalAccountsOf(db, a);
      if locals == {} {
        return Err(BadRequest("Not a local account"));
      }
      var l :| l in locals;
      var stored := db.localAccounts[l].password;
      if stored.None? {
        return Err(BadRequest("Account has no password"));
      }
      if stored.value != password {
        return Err(BadRequest("Passwords do not match"));
      }
      if fault == Some(Commit) {
        return Err(Internal(DatabaseFailure));
      }
      if fault == Some(SessionInsert) {
        return Err(Internal(SessionStoreFailure));
      }
      session := session[ACCOUNT_KEY := AccountRef(a)];
      r := Ok(());
    }

    /** `PUT /local/password`: the logged-in local account gets `Some(password)`. */
    method SetLocalPassword(password: string, fault: Option<Step>) returns (r: Result<(), HandlerError>)
      requires Valid()
      modifies this
      ensures Valid() && session == old(session)
      ensures old(LoggedIn(fault)).Err? ==> r == Err(old(LoggedIn(fault)).error)
      ensures old(LoggedIn(fault)) == Ok(None) ==> r == Err(BadRequest("Not logged-in"))
      ensures old(LoggedIn(fault)).Ok? && old(LoggedIn(fault)).value.Some? && FailsIn(fault, {BeginTransaction, Query(0)}) ==>
        r == Err(Internal(DatabaseFailure))
      ensures forall a ::
        (old(LoggedIn(fault)) == Ok(Some(a)) && !FailsIn(fault, {BeginTransaction, Query(0)})
         && LocalAccountsOf(old(db), a) == {})
        ==> r == Err(BadRequest("User is not a local one"))
      ensures r.Err? ==> db == old(db)
      ensures r == Err(Internal(DatabaseFailure)) ==> FailsIn(fault, {BeginTransaction, Query(0), Update, Commit})
      ensures r.Ok? <==> (old(LoggedIn(fault)).Ok? && old(LoggedIn(fault)).value.Some?
        && LocalAccountsOf(old(db), old(LoggedIn(fault)).value.value) != {} && |password| <= MAX_PASSWORD
        && !FailsIn(fault, {BeginTransaction, Query(0), Update, Commit}))
      ensures r.Ok? ==> db == UpdatePassword(old(db), old(LoggedIn(fault)).value.value, Some(password))
    {
      var current := LoggedIn(fault);
      if current.Err? {
        return Err(current.error);
      }
      if current.value.None? {
        return Err(BadRequest("Not logged-in"));
      }
      var a := current.value.value;
      if FailsIn(fault, {BeginTransaction, Query(0)}) {
        return Err(Internal(DatabaseFailure));
      }
      if LocalAccountsOf(db, a) == {} {
        return Err(BadRequest("User is not a local one"));
      }
      if fault == Some(Update) {
        return Err(Internal(DatabaseFailure));
      }
      if |password| > MAX_PASSWORD {
        return Err(Internal(ValueTooLong("local_account.password")));
      }
      if fault == Some(Commit) {
        return Err(Internal(DatabaseFailure));
      }
      UpdatePasswordKeepsValid(db, a, Some(password));
      db := UpdatePassword(db, a, Some(password));
      r := Ok(());
    }

    /**
     * `DELETE /local/password`: refused unless the local account has an
     * attested WebAuthn key to log in with instead.
     */
    method DeleteLocalPassword(fault: Option<Step>) returns (r: Result<(), HandlerError>)
      requires Valid()
      modifies this
      ensures Valid() && session == old(session)
      ensures old(LoggedIn(fault)).Err? ==> r == Err(old(LoggedIn(fault)).error)
      ensures old(LoggedIn(fault)) == Ok(None) ==> r == Err(BadRequest("Not logged-in"))
      ensures old(LoggedIn(fault)).Ok? && old(LoggedIn(fault)).value.Some? && FailsIn(fault, {BeginTransaction, Query(0)}) ==>
        r == Err(Internal(DatabaseFailure))
      ensures forall a ::
        (old(LoggedIn(fault)) == Ok(Some(a)) && !FailsIn(fault, {BeginTransaction, Query(0)})
         && LocalAccountsOf(old(db), a) == {})
        ==> r == Err(BadRequest("User is not a local one"))
      ensures forall a ::
        (old(LoggedIn(fault)) == Ok(Some(a)) && fault == Some(Query(1))
         && LocalAccountsOf(old(db), a) != {})
        ==> r == Err(Internal(DatabaseFailure))
      ensures forall a ::
        (old(LoggedIn(fault)) == Ok(Some(a)) && !FailsIn(fault, {BeginTransaction, Query(0), Query(1)})
         && LocalAccountsOf(old(db), a) != {}
         && (forall l :: l in LocalAccountsOf(old(db), a) ==> !HasAttested(KeysOf(old(db), l))))
        ==> r == Err(BadRequest("User has no other login method"))
      ensures r.Err? ==> db == old(db)
      ensures r == Err(Internal(DatabaseFailure)) ==> FailsIn(fault, {BeginTransaction, Query(0), Query(1), Update, Commit})
      ensures r.Ok? ==>
        !FailsIn(fault, {BeginTransaction, Query(0), Query(1), Update, Commit})
        && exists a, l ::
          (old(LoggedIn(fault)) == Ok(Some(a)) && l in LocalAccountsOf(old(db), a) && HasAttested(KeysOf(old(db), l))
           && db == UpdatePassword(old(db), a, None))
      ensures forall a ::
        (old(LoggedIn(fault)) == Ok(Some(a)) && !FailsIn(fault, {BeginTransaction, Query(0), Query(1), Update, Commit})
         && LocalAccountsOf(old(db), a) != {}
         && (forall l :: l in LocalAccountsOf(old(db), a) ==> HasAttested(KeysOf(old(db), l))))
        ==> r.Ok?
    {
      var current := LoggedIn(fault);
      if current.Err? {
        return Err(current.error);
      }
      if current.value.None? {
        return Err(BadRequest("Not logged-in"));
      }
      var a := current.value.value;
      if FailsIn(fault, {BeginTransaction, Query(0)}) {
        return Err(Internal(DatabaseFailure));
      }
      var locals := LocalAccountsOf(db, a);
      if locals == {} {
        return Err(BadRequest("User is not a local one"));
      }
      var l :| l in locals;
      if fault == Some(Query(1)) {
        return Err(Internal(DatabaseFailure));
      }
      if !HasAttested(KeysOf(db, l)) {
        return Err(BadRequest("User has no other login method"));
      }
      if FailsIn(fault, {Update, Commit}) {
        return Err(Internal(DatabaseFailure));
      }
      UpdatePasswordKeepsValid(db, a, None);
      db := UpdatePassword(db, a, None);
      r := Ok(());
    }

    /**
     * `POST /logout`: the `"account"` entry is removed whatever its value
     * (it is read as `IgnoredAny`); nothing else changes. The only failure
     * is the session store's.
     */
    method Logout(fault: Option<Step>) returns (r: Result<(), HandlerError>)
      modifies this`session
      ensures db == old(db)
      ensures fault == Some(SessionRemove) ==> r == Err(Internal(SessionStoreFailure)) && session == old(session)
      ensures fault != Some(SessionRemove) ==> r.Ok? && ACCOUNT_KEY !in session && session == old(session) - {ACCOUNT_KEY}
    {
      if fault == Some(SessionRemove) {
        return Err(Internal(SessionStoreFailure));
      }
      session := session - {ACCOUNT_KEY};
      r := Ok(());
    }

    /** `POST /login/oidc/start`: keeps the login state under `"login_oidc"` and redirects to the provider. */
    method LoginOidc(rnd: O.Randomness, fault: Option<Step>) returns (r: Result<H.Redirect, HandlerError>)
      modifies this`session
      ensures db == old(db)
      ensures fault == Some(SessionInsert) ==> r == Err(Internal(SessionStoreFailure)) && session == old(session)
      ensures fault != Some(SessionInsert) ==>
        var (url, st) := O.BeginLogin(oidc, rnd).value;
        r == Ok(H.Temporary(url.text)) && session == old(session)[OIDC_START_KEY := OidcLogin(st)]
    {
      var begun := O.BeginLogin(oidc, rnd);
      var (url, st) := begun.value;
      if fault == Some(SessionInsert) {
        return Err(Internal(SessionStoreFailure));
      }
      session := session[OIDC_START_KEY := OidcLogin(st)];
      r := Ok(H.Temporary(url.text));
    }

    /**
     * The transaction of the OIDC login: the account of an OIDC account
     * with this issuer and subject, or a new account (id `""`) with a new
     * OIDC account linked to it, inserted together and committed.
     */
    method FindOrCreateAccount(issuer: string, subject: string, accountUuid: Uuid, oidcUuid: Uuid, fault: Option<Step>)
      returns (r: Result<Uuid, HandlerError>)
      requires Valid() && Utf8Length(issuer) <= MAX_ISSUER && Utf8Length(subject) <= MAX_SUBJECT
      modifies this`db
      ensures Valid()
      ensures r.Err? ==> db == old(db) && (r.error == Internal(DatabaseFailure) || (r.error.Internal? && r.error.cause.UniqueViolation?))
      ensures r.Ok? ==> FoundOrCreated(old(db), db, issuer, subject, accountUuid, oidcUuid)
      ensures r.Ok? ==> !FailsIn(fault, {BeginTransaction, Query(0), Commit})
      ensures FailsIn(fault, {BeginTransaction, Query(0), Commit}) ==> r.Err?
      ensures FailsIn(fault, {BeginTransaction, Query(0)}) ==> r == Err(Internal(DatabaseFailure))
      ensures r == Err(Internal(DatabaseFailure)) ==> FailsIn(fault, {BeginTransaction, Query(0), Insert(0), Insert(1), Commit})
      ensures OidcAccountsMatching(old(db), issuer, subject) != {} && !FailsIn(fault, {BeginTransaction, Query(0), Commit}) ==>
        (r.Ok? && exists o :: o in OidcAccountsMatching(old(db), issuer, subject) && r.value == old(db).oidcAccounts[o].account)
      ensures OidcAccountsMatching(old(db), issuer, subject) == {} && !FailsIn(fault, {BeginTransaction, Query(0)}) ==>
        (r.Ok? <==> CanInsertOidcAccount(old(db), accountUuid, oidcUuid) && !FailsIn(fault, {Insert(0), Insert(1), Commit}))
        && (r.Ok? ==> r.value == accountUuid)
    {
      if FailsIn(fault, {BeginTransaction, Query(0)}) {
        return Err(Internal(DatabaseFailure));
      }
      var matching := OidcAccountsMatching(db, issuer, subject);
      if matching != {} {
        var o :| o in matching;
        if fault == Some(Commit) {
          return Err(Internal(DatabaseFailure));
        }
        return Ok(db.oidcAccounts[o].account);
      }
      if fault == Some(Insert(0)) {
        return Err(Internal(DatabaseFailure));
      }
      if accountUuid in db.accounts || AccountsWithId(db, "") != {} {
        return Err(Internal(UniqueViolation("account")));
      }
      if fault == Some(Insert(1)) {
        return Err(Internal(DatabaseFailure));
      }
      if oidcUuid in db.oidcAccounts {
        return Err(Internal(UniqueViolation("oidc_account")));
      }
      if fault == Some(Commit) {
        return Err(Internal(DatabaseFailure));
      }
      InsertOidcAccountKeepsValid(db, accountUuid, oidcUuid, issuer, subject);
      db := InsertOidcAccount(db, accountUuid, oidcUuid, issuer, subject);
      r := Ok(accountUuid);
    }

    /**
     * `POST /login/oidc/finish`, which takes the login state out of the
     * session key `key` (as written, `"oidc_login_data"`): after the
     * provider's checks, the account of an OIDC account with the same
     * issuer and subject is reused, or a new account (id `""`) and OIDC
     * account are inserted together; the client is logged in after the
     * commit and sent to `/`. A session store that fails after the commit
     * leaves the new rows in place without logging the client in.
     */
    method FinishLoginOidc(key: string, request: O.OidcRequestState, accountUuid: Uuid, oidcUuid: Uuid, fault: Option<Step>)
      returns (r: Result<H.Redirect, HandlerError>)
      requires Valid() && key != ACCOUNT_KEY
      modifies this
      ensures Valid()
      ensures fault == Some(SessionRemove) ==> r == Err(Internal(SessionStoreFailure)) && session == old(session) && db == old(db)
      ensures fault != Some(SessionRemove) ==> key !in session
      ensures r == Err(BadRequest("No ongoing challenge")) <==> fault != Some(SessionRemove) && key !in old(session)
      ensures key !in old(session) ==> session == old(session) && db == old(db)
      ensures r.Err? && fault != Some(SessionRemove) ==> session == old(session) - {key}
      ensures r.Err? && fault != Some(SessionInsert) ==> db == old(db)
      ensures r == Err(Internal(DatabaseFailure)) ==> FailsIn(fault, {BeginTransaction, Query(0), Insert(0), Insert(1), Commit})
      ensures r == Err(Internal(SessionStoreFailure)) ==> FailsIn(fault, {SessionRemove, SessionInsert})
      ensures fault != Some(SessionRemove) && key in old(session) && !old(session)[key].OidcLogin? ==>
        r == Err(Internal(SessionDecode(key)))
      ensures fault != Some(SessionRemove) && key in old(session) && old(session)[key].OidcLogin? ==>
        var finished := O.FinishLogin(oidc, old(session)[key].oidcState, request);
        (finished.Err? ==> r == Err(finished.error))
        && (finished.Ok? && Utf8Length(finished.value.issuer) > MAX_ISSUER ==> r == Err(ServerError("Issuer is too long")))
        && (finished.Ok? && Utf8Length(finished.value.issuer) <= MAX_ISSUER && Utf8Length(finished.value.subject) > MAX_SUBJECT ==>
              r == Err(ServerError("Subject is too long")))
        && (finished.Ok? && Utf8Length(finished.value.issuer) <= MAX_ISSUER && Utf8Length(finished.value.subject) <= MAX_SUBJECT ==>
              (r.Ok? || r.error.Internal?)
              && (FailsIn(fault, {BeginTransaction, Query(0)}) ==> r == Err(Internal(DatabaseFailure)))
              && ((OidcAccountsMatching(old(db), finished.value.issuer, finished.value.subject) != {}
                   || CanInsertOidcAccount(old(db), accountUuid, oidcUuid))
                  ==> (!FailsIn(fault, {BeginTransaction, Query(0), Insert(0), Insert(1), Commit, SessionInsert}) ==> r.Ok?)
                      && (fault == Some(SessionInsert) ==>
                            r == Err(Internal(SessionStoreFailure))
                            && FoundOrCreated(old(db), db, finished.value.issuer, finished.value.subject, accountUuid, oidcUuid))))
      ensures r.Ok? ==>
        (r.value == H.Temporary("/")
         && !FailsIn(fault, {SessionRemove, BeginTransaction, Query(0), Commit, SessionInsert})
         && key in old(session) && old(session)[key].OidcLogin?
         && O.FinishLogin(oidc, old(session)[key].oidcState, request).Ok?
         && var claims := O.FinishLogin(oidc, old(session)[key].oidcState, request).value;
            FoundOrCreated(old(db), db, claims.issuer, claims.subject, accountUuid, oidcUuid)
            && (OidcAccountsMatching(old(db), claims.issuer, claims.subject) == {} ==>
                session == old(session) - {key} + map[ACCOUNT_KEY := AccountRef(accountUuid)])
            && exists a ::
              (session == old(session) - {key} + map[ACCOUNT_KEY := AccountRef(a)]
               && (a == accountUuid || exists o ::
                     (o in OidcAccountsMatching(old(db), claims.issuer, claims.subject) && a == old(db).oidcAccounts[o].account))))
    {
      if fault == Some(SessionRemove) {
        return Err(Internal(SessionStoreFailure));
      }
      if key !in session {
        return Err(BadRequest("No ongoing challenge"));
      }
      var pending := session[key];
      session := session - {key};
      if !pending.OidcLogin? {
        return Err(Internal(SessionDecode(key)));
      }
      var finished := O.FinishLogin(oidc, pending.oidcState, request);
      if finished.Err? {
        return Err(finished.error);
      }
      var claims := finished.value;
      if Utf8Length(claims.issuer) > MAX_ISSUER {
        return Err(ServerError("Issuer is too long"));
      }
      if Utf8Length(claims.subject) > MAX_SUBJECT {
        return Err(ServerError("Subject is too long"));
      }
      r := LogInOidcAccount(claims.issuer, claims.subject, accountUuid, oidcUuid, fault);
    }

    /**
     * The end of `finish_login_oidc`, once the claims are checked: the
     * account is found or created, the client is logged in to it and sent
     * to `/`. A session store that fails after the commit leaves the new
     * rows in place without logging the client in.
     */
    method LogInOidcAccount(issuer: string, subject: string, accountUuid: Uuid, oidcUuid: Uuid, fault: Option<Step>)
      returns (r: Result<H.Redirect, HandlerError>)
      requires Valid() && Utf8Length(issuer) <= MAX_ISSUER && Utf8Length(subject) <= MAX_SUBJECT
      modifies this
      ensures Valid()
      ensures r.Err? ==> session == old(session)
      ensures r.Err? && fault != Some(SessionInsert) ==> db == old(db)
      ensures r.Ok? || r.error.Internal?
      ensures r == Err(Internal(DatabaseFailure)) ==> FailsIn(fault, {BeginTransaction, Query(0), Insert(0), Insert(1), Commit})
      ensures r == Err(Internal(SessionStoreFailure)) ==> fault == Some(SessionInsert)
      ensures FailsIn(fault, {BeginTransaction, Query(0)}) ==> r == Err(Internal(DatabaseFailure))
      ensures OidcAccountsMatching(old(db), issuer, subject) != {} || CanInsertOidcAccount(old(db), accountUuid, oidcUuid) ==>
        (!FailsIn(fault, {BeginTransaction, Query(0), Insert(0), Insert(1), Commit, SessionInsert}) ==> r.Ok?)
        && (fault == Some(SessionInsert) ==>
              r == Err(Internal(SessionStoreFailure)) && FoundOrCreated(old(db), db, issuer, subject, accountUuid, oidcUuid))
      ensures r.Ok? ==>
        (r.value == H.Temporary("/")
         && !FailsIn(fault, {BeginTransaction, Query(0), Commit, SessionInsert})
         && FoundOrCreated(old(db), db, issuer, subject, accountUuid, oidcUuid)
         && (OidcAccountsMatching(old(db), issuer, subject) == {} ==>
               session == old(session) + map[ACCOUNT_KEY := AccountRef(accountUuid)])
         && exists a ::
              (session == old(session) + map[ACCOUNT_KEY := AccountRef(a)]
               && (a == accountUuid || exists o ::
                     (o in OidcAccountsMatching(old(db), issuer, subject) && a == old(db).oidcAccounts[o].account))))
    {
      var found := FindOrCreateAccount(issuer, subject, accountUuid, oidcUuid, fault);
      if found.Err? {
        return Err(found.error);
      }
      if fault == Some(SessionInsert) {
        return Err(Internal(SessionStoreFailure));
      }
      var account := found.value;
      ghost var before := session;
      session := session + map[ACCOUNT_KEY := AccountRef(account)];
      r := Ok(H.Temporary("/"));
      assert session == before + map[ACCOUNT_KEY := AccountRef(account)];
    }
  }

  /**
   * A WebAuthn challenge is used at most once: after a start and a finish
   * whose removal of the challenge succeeded, whatever else the first
   * finish did, a second finish finds no challenge.
   */
  method WebauthnChallengeSingleUse(
    svc: AuthService, identifier: string, first: Credential, second: Credential,
    startFault: Option<Step>, finishFault: Option<Step>, replayFault: Option<Step>)
    returns (started: Result<Challenge, HandlerError>, finished: Result<(), HandlerError>, replayed: Result<(), HandlerError>)
    requires svc.Valid()
    modifies svc
    ensures finishFault != Some(SessionRemove) && replayFault != Some(SessionRemove) ==>
      replayed == Err(BadRequest("No ongoing challenge"))
  {
    started := svc.LoginLocalWebauthn(identifier, startFault);
    finished := svc.FinishLoginLocalWebauthn(first, finishFault);
    replayed := svc.FinishLoginLocalWebauthn(second, replayFault);
  }

  /**
   * The OIDC login as written never completes, even when neither store
   * fails: the start handler keeps its state under `"login_oidc"`, the
   * finish handler looks under `"oidc_login_data"`, which no handler writes.
   */
  method OidcLoginAsWritten(svc: AuthService, rnd: O.Randomness, request: O.OidcRequestState, accountUuid: Uuid, oidcUuid: Uuid)
    returns (started: Result<H.Redirect, HandlerError>, finished: Result<H.Redirect, HandlerError>)
    requires svc.Valid() && OIDC_FINISH_KEY !in svc.session
    modifies svc
    ensures started.Ok?
    ensures finished == Err(BadRequest("No ongoing challenge"))
    ensures svc.db == old(svc.db) && OIDC_START_KEY in svc.session && svc.session[OIDC_START_KEY].OidcLogin?
  {
    started := svc.LoginOidc(rnd, None);
    finished := svc.FinishLoginOidc(OIDC_FINISH_KEY, request, accountUuid, oidcUuid, None);
  }

  /**
   * With the finish handler reading `"login_oidc"`, the provider's callback
   * finds the login state, passes the CSRF check, and consumes the state;
   * when neither store fails, the provider accepts, and the identity is new
   * and insertable, the client ends up logged in to the newly created account.
   */
  method OidcLoginCorrected(svc: AuthService, rnd: O.Randomness, code: O.AuthorizationCode, accountUuid: Uuid, oidcUuid: Uuid)
    returns (started: Result<H.Redirect, HandlerError>, finished: Result<H.Redirect, HandlerError>)
    requires svc.Valid()
    modifies svc
    ensures started.Ok? && OIDC_START_KEY !in svc.session
    ensures finished.Err? ==>
      (finished.error != BadRequest("No ongoing challenge")
       && finished.error != Api(L.Unauthenticated, "Secret state is invalid"))
    ensures var st := O.BeginLogin(svc.oidc, rnd).value.1;
      var claims := O.FinishLogin(svc.oidc, st, O.OidcRequestState(code, rnd.csrfToken));
      claims.Ok? && Utf8Length(claims.value.issuer) <= MAX_ISSUER && Utf8Length(claims.value.subject) <= MAX_SUBJECT
      && OidcAccountsMatching(old(svc.db), claims.value.issuer, claims.value.subject) == {}
      && CanInsertOidcAccount(old(svc.db), accountUuid, oidcUuid)
      ==> finished.Ok? && ACCOUNT_KEY in svc.session && svc.session[ACCOUNT_KEY] == AccountRef(accountUuid)
          && accountUuid in svc.db.accounts
  {
    started := svc.LoginOidc(rnd, None);
    O.BeginThenCallbackPassesCsrf(svc.oidc, rnd, code);
    finished := svc.FinishLoginOidc(OIDC_START_KEY, O.OidcRequestState(code, rnd.csrfToken), accountUuid, oidcUuid, None);
  }

  /** A logged-in local account that sets a password can then log in with it, when neither store fails. */
  method SetPasswordThenLogin(svc: AuthService, a: Uuid, password: string)
    returns (set_: Result<(), HandlerError>, login: Result<(), HandlerError>)
    requires svc.Valid() && a in svc.db.accounts
    requires ACCOUNT_KEY in svc.session && svc.session[ACCOUNT_KEY] == AccountRef(a)
    requires LocalAccountsOf(svc.db, a) != {} && |password| <= MAX_PASSWORD
    modifies svc
    ensures set_.Ok? && login.Ok?
  {
    var identifier := svc.db.accounts[a].id;
    PasswordUpdated(svc.db, a, Some(password));
    set_ := svc.SetLocalPassword(password, None);
    login := svc.LoginLocalPassword(identifier, password, None);
  }

  /**
   * Once the password is deleted, password login to that account fails
   * with "Account has no password" (or with the failure of a store).
   */
  method DeletePasswordThenLogin(svc: AuthService, a: Uuid, password: string, deleteFault: Option<Step>, loginFault: Option<Step>)
    returns (deleted: Result<(), HandlerError>, login: Result<(), HandlerError>)
    requires svc.Valid() && a in svc.db.accounts
    requires ACCOUNT_KEY in svc.session && svc.session[ACCOUNT_KEY] == AccountRef(a)
    modifies svc
    ensures deleted.Ok? && !FailsIn(loginFault, {BeginTransaction, Query(0), Query(1), Commit, SessionInsert}) ==>
      login == Err(BadRequest("Account has no password"))
  {
    var identifier := svc.db.accounts[a].id;
    ghost var before := svc.db;
    PasswordUpdated(svc.db, a, None);
    deleted := svc.DeleteLocalPassword(deleteFault);
    if deleted.Ok? {
      assert deleteFault != Some(SessionGet);
      assert svc.db == UpdatePassword(before, a, None);
      assert LocalAccountsOf(svc.db, a) != {};
    }
    ghost var mid := svc.db;
    login := svc.LoginLocalPassword(identifier, password, loginFault);
    if deleted.Ok? && !FailsIn(loginFault, {BeginTransaction, Query(0), Query(1), Commit, SessionInsert}) {
      assert AccountsWithId(mid, identifier) == {a};
      assert forall l :: l in LocalAccountsOf(mid, a) ==> mid.localAccounts[l].password.None?;
      assert login.Err?;
    }
  }
}
