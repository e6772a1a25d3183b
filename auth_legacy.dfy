/**
 * The older revision of the authentication handlers
 * (contrib/galvyn-contrib-auth/src/handler/mod.rs and
 * contrib/galvyn-contrib-auth/src/handler/local.rs). It is written against
 * a generic `AuthModels` trait: an OIDC account holds one `id` string (the
 * `preferred_username` claim) instead of issuer and subject, the account
 * row for a new OIDC login is whatever `insertable_account` builds, and
 * client errors are bare strings (`"..".into()`), kept here as `Message`.
 * Errors of the WebAuthn and OpenID Connect libraries reach the client
 * through `?` as internal errors.
 */
module AuthLegacy {
  import opened Wrappers
  import opened AuthModels
  import O = OidcLogic
  import H = HandlerImpls
  import AH = AuthHandlers

  /** `M::OidcAccount`: the provider's user name and the account it logs in to. */
  datatype LegacyOidcAccount = LegacyOidcAccount(oidcId: string, account: Uuid)

  /** The tables the older handlers touch. */
  datatype LegacyDb = LegacyDb(
    accounts: map<Uuid, Account>,
    oidcAccounts: map<Uuid, LegacyOidcAccount>,
    localAccounts: map<Uuid, LocalAccount>,
    webauthnKeys: map<Uuid, WebAuthnKey>)

  /** The account, local-account and key tables, seen through the queries they share with the current revision. */
  function Tables(db: LegacyDb): Db {
    Db(db.accounts, map[], db.localAccounts, map[], db.webauthnKeys)
  }

  /** Every foreign key names an existing row. */
  predicate LegacyValid(db: LegacyDb) {
    ForeignKeys(Tables(db))
    && forall o :: o in db.oidcAccounts ==> db.oidcAccounts[o].account in db.accounts
  }

  /** `SELECT pk FROM oidc_account WHERE account = ?` */
  function LegacyOidcOf(db: LegacyDb, account: Uuid): (r: set<Uuid>)
    ensures forall o :: o in r <==> o in db.oidcAccounts && db.oidcAccounts[o].account == account
  {
    set o | o in db.oidcAccounts && db.oidcAccounts[o].account == account
  }

  /** `SELECT account FROM oidc_account WHERE id = ?` */
  function LegacyOidcWithId(db: LegacyDb, oidcId: string): (r: set<Uuid>)
    ensures forall o :: o in r <==> o in db.oidcAccounts && db.oidcAccounts[o].oidcId == oidcId
  {
    set o | o in db.oidcAccounts && db.oidcAccounts[o].oidcId == oidcId
  }

  /** `GetLoginFlowsResponse`: how the account with a given identifier can log in. */
  datatype LoginFlow = OidcFlow | LocalFlow(password: bool, webauthn: bool)

  /**
   * The checks of `finish_login_oidc` between taking the state out of the
   * session and touching the database, yielding the `preferred_username`
   * claim. `hash` is the older `AccessTokenHash::from_token`, which needs
   * only the signing algorithm.
   */
  function VerifyCallback(
    p: O.Provider, hash: (O.AccessToken, O.SigningAlg) -> Option<O.AccessTokenHash>,
    st: O.OidcSessionState, request: O.OidcRequestState): (r: Result<string, HandlerError>)
    ensures request.state != st.csrfToken ==> r == Err(Message("Bad Request"))
    ensures r.Ok? ==>
      (request.state == st.csrfToken
       && p.exchangeCode(request.code, st.pkceCodeVerifier).Ok?
       && var token := p.exchangeCode(request.code, st.pkceCodeVerifier).value;
          token.idToken.Some?
          && p.claims(token.idToken.value, st.nonce).Some?
          && var claims := p.claims(token.idToken.value, st.nonce).value;
             claims.preferredUsername == Some(r.value)
             && (claims.accessTokenHash.Some? ==>
                   p.signingAlg(token.idToken.value).Some?
                   && hash(token.accessToken, p.signingAlg(token.idToken.value).value) == claims.accessTokenHash))
  {
    if request.state != st.csrfToken then
      Err(Message("Bad Request"))
    else
      match p.exchangeCode(request.code, st.pkceCodeVerifier)
      case Err(_) => Err(Internal(LibraryError("openidconnect")))
      case Ok(token) =>
        match token.idToken
        case None => Err(Message("Missing id token"))
        case Some(idToken) =>
          match p.claims(idToken, st.nonce)
          case None => Err(Internal(LibraryError("openidconnect")))
          case Some(claims) =>
            var hashChecked: Result<(), HandlerError> :=
              if claims.accessTokenHash.None? then Ok(())
              else match p.signingAlg(idToken)
                case None => Err(Internal(LibraryError("openidconnect")))
                case Some(alg) =>
                  match hash(token.accessToken, alg)
                  case None => Err(Internal(LibraryError("openidconnect")))
                  case Some(actual) =>
                    if actual != claims.accessTokenHash.value then Err(Message("The access token hash is invalid"))
                    else Ok(());
            if hashChecked.Err? then Err(hashChecked.error)
            else if claims.preferredUsername.None? then Err(Message("Missing claim: preferred_username"))
            else Ok(claims.preferredUsername.value)
  }

  /**
   * A callback with a forged state is answered before the code is
   * exchanged: no oracle of the provider can change the answer.
   */
  lemma LegacyCsrfCheckedBeforeExchange(
    p1: O.Provider, p2: O.Provider,
    h1: (O.AccessToken, O.SigningAlg) -> Option<O.AccessTokenHash>,
    h2: (O.AccessToken, O.SigningAlg) -> Option<O.AccessTokenHash>,
    st: O.OidcSessionState, request: O.OidcRequestState)
    requires request.state != st.csrfToken
    ensures VerifyCallback(p1, h1, st, request) == VerifyCallback(p2, h2, st, request) == Err(Message("Bad Request"))
  {
  }

  /** A present access-token hash that differs from the recomputed one rejects the login whatever the other claims say. */
  lemma LegacyAccessTokenHashChecked(
    p: O.Provider, hash: (O.AccessToken, O.SigningAlg) -> Option<O.AccessTokenHash>,
    st: O.OidcSessionState, request: O.OidcRequestState)
    requires request.state == st.csrfToken
    requires p.exchangeCode(request.code, st.pkceCodeVerifier).Ok?
      && var token := p.exchangeCode(request.code, st.pkceCodeVerifier).value;
      token.idToken.Some? && p.claims(token.idToken.value, st.nonce).Some?
      && p.claims(token.idToken.value, st.nonce).value.accessTokenHash.Some?
      && p.signingAlg(token.idToken.value).Some?
      && hash(token.accessToken, p.signingAlg(token.idToken.value).value).Some?
      && hash(token.accessToken, p.signingAlg(token.idToken.value).value)
         != p.claims(token.idToken.value, st.nonce).value.accessTokenHash
    ensures VerifyCallback(p, hash, st, request) == Err(Message("The access token hash is invalid"))
  {
  }

  /** The two inserts of a new OIDC login: an account built from the user name, and the OIDC account linking to it. */
  function InsertLegacyOidc(db: LegacyDb, accountUuid: Uuid, oidcUuid: Uuid, account: Account, oidcId: string): LegacyDb {
    db.(accounts := db.accounts[accountUuid := account],
        oidcAccounts := db.oidcAccounts[oidcUuid := LegacyOidcAccount(oidcId, accountUuid)])
  }

  /** `UPDATE local_account SET password = ? WHERE account = ?` on the older tables. */
  function UpdateLegacyPassword(db: LegacyDb, account: Uuid, password: Option<string>): LegacyDb {
    db.(localAccounts := AH.UpdatePassword(Tables(db), account, password).localAccounts)
  }

  /** The update keeps the foreign keys and reaches exactly the local accounts of `account`. */
  lemma UpdateLegacyPasswordKeepsValid(db: LegacyDb, account: Uuid, password: Option<string>)
    requires LegacyValid(db)
    ensures LegacyValid(UpdateLegacyPassword(db, account, password))
    ensures var r := UpdateLegacyPassword(db, account, password);
      LocalAccountsOf(Tables(r), account) == LocalAccountsOf(Tables(db), account)
      && (forall l :: l in LocalAccountsOf(Tables(db), account) ==> r.localAccounts[l].password == password)
      && (forall l :: l in db.localAccounts && l !in LocalAccountsOf(Tables(db), account) ==>
            r.localAccounts[l] == db.localAccounts[l])
  {
    var r := UpdateLegacyPassword(db, account, password);
    assert r.localAccounts.Keys == db.localAccounts.Keys;
    assert forall l :: l in r.localAccounts ==> r.localAccounts[l].account == db.localAccounts[l].account;
  }

  class AuthService {
    var db: LegacyDb
    var session: map<string, AH.SessionValue>
    const webauthn: AH.Webauthn
    const oidc: O.Provider
    const hash: (O.AccessToken, O.SigningAlg) -> Option<O.AccessTokenHash>
    /** `M::insertable_account`: the account row built for a new OIDC user name. */
    const insertableAccount: string -> Account

    predicate Valid()
      reads this
    {
      LegacyValid(db)
    }

    constructor (db: LegacyDb, session: map<string, AH.SessionValue>, webauthn: AH.Webauthn, oidc: O.Provider,
                 hash: (O.AccessToken, O.SigningAlg) -> Option<O.AccessTokenHash>, insertableAccount: string -> Account)
      requires LegacyValid(db)
      ensures Valid()
      ensures this.db == db && this.session == session && this.webauthn == webauthn && this.oidc == oidc
      ensures this.hash == hash && this.insertableAccount == insertableAccount
    {
      this.db := db;
      this.session := session;
      this.webauthn := webauthn;
      this.oidc := oidc;
      this.hash := hash;
      this.insertableAccount := insertableAccount;
    }

    /**
     * `GET /login`: no account with the identifier is not an error but
     * `None`; an account with exactly one of an OIDC and a local row logs
     * in that way; one with both or neither is an invalid account. The
     * transaction only reads.
     */
    method GetLoginFlow(identifier: string, fault: Option<Step>) returns (r: Result<Option<LoginFlow>, HandlerError>)
      requires Valid()
      ensures FailsIn(fault, {BeginTransaction, Query(0)}) ==> r == Err(Internal(DatabaseFailure))
      ensures r == Ok(None) <==> !FailsIn(fault, {BeginTransaction, Query(0)}) && AccountsWithId(Tables(db), identifier) == {}
      ensures AccountsWithId(Tables(db), identifier) != {} && FailsIn(fault, {Query(1), Query(2)}) ==>
        r == Err(Internal(DatabaseFailure))
      ensures r.Err? ==> r.error == Internal(DatabaseFailure) || r.error == Message("Invalid account")
      ensures r == Err(Internal(DatabaseFailure)) ==>
        FailsIn(fault, {BeginTransaction, Query(0), Query(1), Query(2), Query(3), Commit})
      ensures r == Err(Message("Invalid account")) ==>
        exists a :: a in AccountsWithId(Tables(db), identifier)
          && (LegacyOidcOf(db, a) != {} <==> LocalAccountsOf(Tables(db), a) != {})
      ensures r == Ok(Some(OidcFlow)) ==>
        exists a :: a in AccountsWithId(Tables(db), identifier)
          && LegacyOidcOf(db, a) != {} && LocalAccountsOf(Tables(db), a) == {}
      ensures forall password: bool, webauthn: bool :: r == Ok(Some(LocalFlow(password, webauthn))) ==>
        exists a, l :: a in AccountsWithId(Tables(db), identifier)
          && LegacyOidcOf(db, a) == {} && l in LocalAccountsOf(Tables(db), a)
          && password == db.localAccounts[l].password.Some? && webauthn == HasAttested(KeysOf(Tables(db), l))
      ensures r.Ok? && r.value.Some? ==> !FailsIn(fault, {BeginTransaction, Query(0), Query(1), Query(2), Commit})
      ensures forall a :: AccountsWithId(Tables(db), identifier) == {a} && !FailsIn(fault, {BeginTransaction, Query(0), Query(1), Query(2)}) ==>
        (r == Err(Message("Invalid account")) <==> (LegacyOidcOf(db, a) != {} <==> LocalAccountsOf(Tables(db), a) != {}))
        && (fault != Some(Commit) ==>
              (r == Ok(Some(OidcFlow)) <==> LegacyOidcOf(db, a) != {} && LocalAccountsOf(Tables(db), a) == {}))
    {
      if FailsIn(fault, {BeginTransaction, Query(0)}) {
        return Err(Internal(DatabaseFailure));
      }
      var tables := Tables(db);
      var accounts := AccountsWithId(tables, identifier);
      if accounts == {} {
        return Ok(None);
      }
      var a :| a in accounts;
      if FailsIn(fault, {Query(1), Query(2)}) {
        return Err(Internal(DatabaseFailure));
      }
      var oidcRows := LegacyOidcOf(db, a);
      var locals := LocalAccountsOf(tables, a);
      var flow;
      if oidcRows != {} && locals == {} {
        flow := OidcFlow;
      } else if oidcRows == {} && locals != {} {
        var l :| l in locals;
        if fault == Some(Query(3)) {
          return Err(Internal(DatabaseFailure));
        }
        flow := LocalFlow(db.localAccounts[l].password.Some?, HasAttested(KeysOf(tables, l)));
      } else {
        return Err(Message("Invalid account"));
      }
      if fault == Some(Commit) {
        return Err(Internal(DatabaseFailure));
      }
      r := Ok(Some(flow));
    }

    /** `POST /login/oidc/start`: keeps the login state under `"login_oidc"` and redirects to the provider. */
    method LoginOidc(rnd: O.Randomness, fault: Option<Step>) returns (r: Result<H.Redirect, HandlerError>)
      modifies this`session
      ensures db == old(db)
      ensures fault == Some(SessionInsert) ==> r == Err(Internal(SessionStoreFailure)) && session == old(session)
      ensures fault != Some(SessionInsert) ==>
        var (url, st) := O.BeginLogin(oidc, rnd).value;
        r == Ok(H.Temporary(url.text)) && session == old(session)[AH.OIDC_START_KEY := AH.OidcLogin(st)]
    {
      var (url, st) := O.BeginLogin(oidc, rnd).value;
      if fault == Some(SessionInsert) {
        return Err(Internal(SessionStoreFailure));
      }
      session := session[AH.OIDC_START_KEY := AH.OidcLogin(st)];
      r := Ok(H.Temporary(url.text));
    }

    /**
     * The transaction of the older OIDC login: the account of an OIDC
     * account with this user name, or a new account from
     * `insertable_account` with a new OIDC account linked to it, inserted
     * together and committed.
     */
    method FindOrCreateAccount(oidcId: string, accountUuid: Uuid, oidcUuid: Uuid, fault: Option<Step>) returns (r: Result<Uuid, HandlerError>)
      requires Valid()
      modifies this`db
      ensures Valid()
      ensures r.Err? ==> db == old(db) && (r.error == Internal(DatabaseFailure) || (r.error.Internal? && r.error.cause.UniqueViolation?))
      ensures FailsIn(fault, {BeginTransaction, Query(0)}) ==> r == Err(Internal(DatabaseFailure))
      ensures r == Err(Internal(DatabaseFailure)) ==> FailsIn(fault, {BeginTransaction, Query(0), Insert(0), Insert(1), Commit})
      ensures r.Ok? ==> !FailsIn(fault, {BeginTransaction, Query(0), Commit})
      ensures LegacyOidcWithId(old(db), oidcId) != {} ==>
        (r.Ok? <==> !FailsIn(fault, {BeginTransaction, Query(0), Commit}))
        && (r.Ok? ==>
              db == old(db)
              && exists o :: o in LegacyOidcWithId(old(db), oidcId) && r.value == old(db).oidcAccounts[o].account)
      ensures LegacyOidcWithId(old(db), oidcId) == {} ==>
        (r.Ok? <==> accountUuid !in old(db).accounts && oidcUuid !in old(db).oidcAccounts
                    && !FailsIn(fault, {BeginTransaction, Query(0), Insert(0), Insert(1), Commit}))
        && (r.Ok? ==>
              (r.value == accountUuid
               && db == InsertLegacyOidc(old(db), accountUuid, oidcUuid, insertableAccount(oidcId), oidcId)))
    {
      if FailsIn(fault, {BeginTransaction, Query(0)}) {
        return Err(Internal(DatabaseFailure));
      }
      var matching := LegacyOidcWithId(db, oidcId);
      if matching != {} {
        var o :| o in matching;
        if fault == Some(Commit) {
          return Err(Internal(DatabaseFailure));
        }
        return Ok(db.oidcAccounts[o].account);
      }
      if fault == Some(Insert(0)) {
        return Err(Internal(DatabaseFailure));
      }
      if accountUuid in db.accounts {
        return Err(Internal(UniqueViolation("account")));
      }
      if fault == Some(Insert(1)) {
        return Err(Internal(DatabaseFailure));
      }
      if oidcUuid in db.oidcAccounts {
        return Err(Internal(UniqueViolation("oidc_account")));
      }
      if fault == Some(Commit) {
        return Err(Internal(DatabaseFailure));
      }
      db := InsertLegacyOidc(db, accountUuid, oidcUuid, insertableAccount(oidcId), oidcId);
      r := Ok(accountUuid);
    }

    /**
     * `POST /login/oidc/finish`, which takes the login state out of the
     * session key `key` (as written, `"oidc_login_data"`); every failed
     * check before the database is `"Bad Request"` or a message of its
     * own, and the client is logged in only after the commit. A session
     * store that fails after the commit leaves the new rows in place.
     */
    method FinishLoginOidc(key: string, request: O.OidcRequestState, accountUuid: Uuid, oidcUuid: Uuid, fault: Option<Step>)
      returns (r: Result<H.Redirect, HandlerError>)
      requires Valid() && key != AH.ACCOUNT_KEY
      modifies this
      ensures Valid()
      ensures fault == Some(SessionRemove) ==> r == Err(Internal(SessionStoreFailure)) && session == old(session) && db == old(db)
      ensures fault != Some(SessionRemove) ==> key !in session
      ensures fault != Some(SessionRemove) && key !in old(session) ==>
        r == Err(Message("Bad Request")) && session == old(session) && db == old(db)
      ensures r.Err? && fault != Some(SessionRemove) ==> session == old(session) - {key}
      ensures r.Err? && fault != Some(SessionInsert) ==> db == old(db)
      ensures r == Err(Internal(DatabaseFailure)) ==> FailsIn(fault, {BeginTransaction, Query(0), Insert(0), Insert(1), Commit})
      ensures r == Err(Internal(SessionStoreFailure)) ==> FailsIn(fault, {SessionRemove, SessionInsert})
      ensures fault != Some(SessionRemove) && key in old(session) && !old(session)[key].OidcLogin? ==>
        r == Err(Internal(SessionDecode(key)))
      ensures fault != Some(SessionRemove) && key in old(session) && old(session)[key].OidcLogin? ==>
        var verified := VerifyCallback(oidc, hash, old(session)[key].oidcState, request);
        (verified.Err? ==> r == Err(verified.error))
        && (verified.Ok? ==>
              (r.Ok? || r.error.Internal?)
              && (FailsIn(fault, {BeginTransaction, Query(0)}) ==> r == Err(Internal(DatabaseFailure)))
              && (LegacyOidcWithId(old(db), verified.value) != {}
                  ==> (!FailsIn(fault, {BeginTransaction, Query(0), Commit, SessionInsert}) ==> r.Ok?)
                      && (fault == Some(SessionInsert) ==> r == Err(Internal(SessionStoreFailure)) && db == old(db))))
      ensures r.Ok? ==>
        (r.value == H.Temporary("/")
         && !FailsIn(fault, {SessionRemove, BeginTransaction, Query(0), Commit, SessionInsert})
         && key in old(session) && old(session)[key].OidcLogin?
         && VerifyCallback(oidc, hash, old(session)[key].oidcState, request).Ok?
         && var oidcId := VerifyCallback(oidc, hash, old(session)[key].oidcState, request).value;
            (LegacyOidcWithId(old(db), oidcId) != {} ==> db == old(db))
            && (LegacyOidcWithId(old(db), oidcId) == {} ==>
                db == InsertLegacyOidc(old(db), accountUuid, oidcUuid, insertableAccount(oidcId), oidcId)
                && session == old(session) - {key} + map[AH.ACCOUNT_KEY := AH.AccountRef(accountUuid)])
            && exists a ::
              (session == old(session) - {key} + map[AH.ACCOUNT_KEY := AH.AccountRef(a)]
               && (a == accountUuid || exists o ::
                     (o in LegacyOidcWithId(old(db), oidcId) && a == old(db).oidcAccounts[o].account))))
    {
      if fault == Some(SessionRemove) {
        return Err(Internal(SessionStoreFailure));
      }
      if key !in session {
        return Err(Message("Bad Request"));
      }
      var pending := session[key];
      session := session - {key};
      if !pending.OidcLogin? {
        return Err(Internal(SessionDecode(key)));
      }
      var verified := VerifyCallback(oidc, hash, pending.oidcState, request);
      if verified.Err? {
        return Err(verified.error);
      }
      var found := FindOrCreateAccount(verified.value, accountUuid, oidcUuid, fault);
      if found.Err? {
        return Err(found.error);
      }
      if fault == Some(SessionInsert) {
        return Err(Internal(SessionStoreFailure));
      }
      var account := found.value;
      session := session + map[AH.ACCOUNT_KEY := AH.AccountRef(account)];
      r := Ok(H.Temporary("/"));
      assert session == old(session) - {key} + map[AH.ACCOUNT_KEY := AH.AccountRef(account)];
    }

    /** `POST /login/local/start-webauthn`: the transaction only reads; the challenge state is kept after the commit. */
    method LoginLocalWebauthn(identifier: string, fault: Option<Step>) returns (r: Result<AH.Challenge, HandlerError>)
      requires Valid()
      modifies this`session
      ensures r.Err? ==> session == old(session)
      ensures FailsIn(fault, {BeginTransaction, Query(0)}) ==> r == Err(Internal(DatabaseFailure))
      ensures r == Err(Message("Account not found")) <==>
        !FailsIn(fault, {BeginTransaction, Query(0)}) && AccountsWithId(Tables(db), identifier) == {}
      ensures fault == Some(Query(1)) && AccountsWithId(Tables(db), identifier) != {} ==> r == Err(Internal(DatabaseFailure))
      ensures !FailsIn(fault, {BeginTransaction, Query(0), Query(1)})
        && (forall a :: a in AccountsWithId(Tables(db), identifier) ==> LocalAccountsOf(Tables(db), a) == {})
        && AccountsWithId(Tables(db), identifier) != {}
        ==> r == Err(Message("Not a local account"))
      ensures FailsIn(fault, {Commit, SessionInsert}) ==> r.Err?
      ensures r == Err(Internal(DatabaseFailure)) ==> FailsIn(fault, {BeginTransaction, Query(0), Query(1), Query(2), Commit})
      ensures r == Err(Internal(SessionStoreFailure)) ==> fault == Some(SessionInsert)
      ensures r.Ok? ==>
        !FailsIn(fault, {BeginTransaction, Query(0), Query(1), Query(2), Commit, SessionInsert})
        && exists a, l, st ::
          (a in AccountsWithId(Tables(db), identifier) && l in LocalAccountsOf(Tables(db), a)
           && webauthn.start(AttestedKeys(KeysOf(Tables(db), l))) == Some((r.value, st))
           && session == old(session)[AH.WEBAUTHN_KEY := AH.WebauthnLogin(identifier, st)])
    {
      if FailsIn(fault, {BeginTransaction, Query(0)}) {
        return Err(Internal(DatabaseFailure));
      }
      var tables := Tables(db);
      var accounts := AccountsWithId(tables, identifier);
      if accounts == {} {
        return Err(Message("Account not found"));
      }
      var a :| a in accounts;
      if fault == Some(Query(1)) {
        return Err(Internal(DatabaseFailure));
      }
      var locals := LocalAccountsOf(tables, a);
      if locals == {} {
        return Err(Message("Not a local account"));
      }
      var l :| l in locals;
      if fault == Some(Query(2)) {
        return Err(Internal(DatabaseFailure));
      }
      var started := webauthn.start(AttestedKeys(KeysOf(tables, l)));
      if started.None? {
        return Err(Internal(LibraryError("webauthn")));
      }
      if fault == Some(Commit) {
        return Err(Internal(DatabaseFailure));
      }
      if fault == Some(SessionInsert) {
        return Err(Internal(SessionStoreFailure));
      }
      var (challenge, st) := started.value;
      session := session[AH.WEBAUTHN_KEY := AH.WebauthnLogin(identifier, st)];
      r := Ok(challenge);
    }

    /**
     * `POST /login/local/finish-webauthn`: the pending challenge is taken
     * out of the session first, so once the removal has succeeded it is
     * used at most once.
     */
    method FinishLoginLocalWebauthn(credential: AH.Credential, fault: Option<Step>) returns (r: Result<(), HandlerError>)
      requires Valid()
      modifies this`session
      ensures fault == Some(SessionRemove) ==> r == Err(Internal(SessionStoreFailure)) && session == old(session)
      ensures fault != Some(SessionRemove) ==> AH.WEBAUTHN_KEY !in session
      ensures fault != Some(SessionRemove) && AH.WEBAUTHN_KEY !in old(session) ==>
        r == Err(Message("Bad Request")) && session == old(session)
      ensures r.Err? && fault != Some(SessionRemove) ==> session == old(session) - {AH.WEBAUTHN_KEY}
      ensures FailsIn(fault, {Commit, SessionInsert}) ==> r.Err?
      ensures r == Err(Internal(DatabaseFailure)) ==> FailsIn(fault, {BeginTransaction, Query(0), Query(1), Query(2), Commit})
      ensures r == Err(Internal(SessionStoreFailure)) ==> FailsIn(fault, {SessionRemove, SessionInsert})
      ensures r.Ok? ==>
        !FailsIn(fault, {SessionRemove, BeginTransaction, Query(0), Query(1), Query(2), Commit, SessionInsert})
        && AH.WEBAUTHN_KEY in old(session) && old(session)[AH.WEBAUTHN_KEY].WebauthnLogin?
        && var pending := old(session)[AH.WEBAUTHN_KEY];
           webauthn.finish(credential, pending.state).Some?
           && exists a, l ::
             (a in AccountsWithId(Tables(db), pending.identifier) && l in LocalAccountsOf(Tables(db), a)
              && HasAttestedWithCred(KeysOf(Tables(db), l), webauthn.finish(credential, pending.state).value)
              && session == old(session) - {AH.WEBAUTHN_KEY} + map[AH.ACCOUNT_KEY := AH.AccountRef(a)])
      ensures (AH.WEBAUTHN_KEY in old(session) && old(session)[AH.WEBAUTHN_KEY].WebauthnLogin?
        && var pending := old(session)[AH.WEBAUTHN_KEY];
           webauthn.finish(credential, pending.state).Some?
           && forall a, l :: a in AccountsWithId(Tables(db), pending.identifier) && l in LocalAccountsOf(Tables(db), a) ==>
                !HasAttestedWithCred(KeysOf(Tables(db), l), webauthn.finish(credential, pending.state).value))
        ==> r.Err?
    {
      if fault == Some(SessionRemove) {
        return Err(Internal(SessionStoreFailure));
      }
      if AH.WEBAUTHN_KEY !in session {
        return Err(Message("Bad Request"));
      }
      var pending := session[AH.WEBAUTHN_KEY];
      session := session - {AH.WEBAUTHN_KEY};
      if !pending.WebauthnLogin? {
        return Err(Internal(SessionDecode(AH.WEBAUTHN_KEY)));
      }
      var verified := webauthn.finish(credential, pending.state);
      if verified.None? {
        return Err(Internal(LibraryError("webauthn")));
      }
      if FailsIn(fault, {BeginTransaction, Query(0)}) {
        return Err(Internal(DatabaseFailure));
      }
      var tables := Tables(db);
      var accounts := AccountsWithId(tables, pending.identifier);
      if accounts == {} {
        return Err(Message("Account not found"));
      }
      var a :| a in accounts;
      if fault == Some(Query(1)) {
        return Err(Internal(DatabaseFailure));
      }
      var locals := LocalAccountsOf(tables, a);
      if locals == {} {
        return Err(Message("Not a local account"));
      }
      var l :| l in locals;
      if fault == Some(Query(2)) {
        return Err(Internal(DatabaseFailure));
      }
      if !HasAttestedWithCred(KeysOf(tables, l), verified.value) {
        return Err(Message("Used unknown key"));
      }
      if fault == Some(Commit) {
        return Err(Internal(DatabaseFailure));
      }
      if fault == Some(SessionInsert) {
        return Err(Internal(SessionStoreFailure));
      }
      session := session + map[AH.ACCOUNT_KEY := AH.AccountRef(a)];
      r := Ok(());
      assert session == old(session) - {AH.WEBAUTHN_KEY} + map[AH.ACCOUNT_KEY := AH.AccountRef(a)];
      assert a in AccountsWithId(Tables(db), pending.identifier) && l in LocalAccountsOf(Tables(db), a)
        && HasAttestedWithCred(KeysOf(Tables(db), l), webauthn.finish(credential, pending.state).value);
    }

    /** `POST /login/local/password`: plain-text comparison of the stored and the submitted password. */
    method LoginLocalPassword(identifier: string, password: string, fault: Option<Step>) returns (r: Result<(), HandlerError>)
      requires Valid()
      modifies this`session
      ensures r.Err? ==> session == old(session)
      ensures FailsIn(fault, {BeginTransaction, Query(0)}) ==> r == Err(Internal(DatabaseFailure))
      ensures r == Err(Message("Account not found")) <==>
        !FailsIn(fault, {BeginTransaction, Query(0)}) && AccountsWithId(Tables(db), identifier) == {}
      ensures fault == Some(Query(1)) && AccountsWithId(Tables(db), identifier) != {} ==> r == Err(Internal(DatabaseFailure))
      ensures !FailsIn(fault, {BeginTransaction, Query(0), Query(1)})
        && (forall a :: a in AccountsWithId(Tables(db), identifier) ==> LocalAccountsOf(Tables(db), a) == {})
        && AccountsWithId(Tables(db), identifier) != {}
        ==> r == Err(Message("Not a local account"))
      ensures FailsIn(fault, {Commit, SessionInsert}) ==> r.Err?
      ensures r == Err(Internal(DatabaseFailure)) ==> FailsIn(fault, {BeginTransaction, Query(0), Query(1), Commit})
      ensures r == Err(Internal(SessionStoreFailure)) ==> fault == Some(SessionInsert)
      ensures r.Ok? ==>
        !FailsIn(fault, {BeginTransaction, Query(0), Query(1), Commit, SessionInsert})
        && exists a, l ::
          (a in AccountsWithId(Tables(db), identifier) && l in LocalAccountsOf(Tables(db), a)
           && db.localAccounts[l].password == Some(password)
           && session == old(session)[AH.ACCOUNT_KEY := AH.AccountRef(a)])
      ensures !FailsIn(fault, {BeginTransaction, Query(0), Query(1), Commit, SessionInsert})
        && AccountsWithId(Tables(db), identifier) != {}
        && (forall a :: a in AccountsWithId(Tables(db), identifier) ==> LocalAccountsOf(Tables(db), a) != {})
        && (forall a, l :: a in AccountsWithId(Tables(db), identifier) && l in LocalAccountsOf(Tables(db), a) ==>
              db.localAccounts[l].password == Some(password))
        ==> r.Ok?
    {
      if FailsIn(fault, {BeginTransaction, Query(0)}) {
        return Err(Internal(DatabaseFailure));
      }
      var tables := Tables(db);
      var accounts := AccountsWithId(tables, identifier);
      if accounts == {} {
        return Err(Message("Account not found"));
      }
      var a :| a in accounts;
      if fault == Some(Query(1)) {
        return Err(Internal(DatabaseFailure));
      }
      var locals := LocalAccountsOf(tables, a);
      if locals == {} {
        return Err(Message("Not a local account"));
      }
      var l :| l in locals;
      var stored := db.localAccounts[l].password;
      if stored.None? {
        return Err(Message("Account has no password"));
      }
      if stored.value != password {
        return Err(Message("Passwords do not match"));
      }
      if fault == Some(Commit) {
        return Err(Internal(DatabaseFailure));
      }
      if fault == Some(SessionInsert) {
        return Err(Internal(SessionStoreFailure));
      }
      session := session[AH.ACCOUNT_KEY := AH.AccountRef(a)];
      r := Ok(());
    }

    /** `POST /logout`: removes `"account"` whatever its value; nothing else changes. Only the session store can fail. */
    method Logout(fault: Option<Step>) returns (r: Result<(), HandlerError>)
      modifies this`session
      ensures fault == Some(SessionRemove) ==> r == Err(Internal(SessionStoreFailure)) && session == old(session)
      ensures fault != Some(SessionRemove) ==> r.Ok? && AH.ACCOUNT_KEY !in session && session == old(session) - {AH.ACCOUNT_KEY}
    {
      if fault == Some(SessionRemove) {
        return Err(Internal(SessionStoreFailure));
      }
      session := session - {AH.ACCOUNT_KEY};
      r := Ok(());
    }

    /**
     * `session.get::<i64>("account").await?`: a failing session store, no
     * entry, the logged-in account, or a value of another type.
     */
    function LoggedIn(fault: Option<Step>): (r: Result<Option<Uuid>, HandlerError>)
      reads this
      ensures fault == Some(SessionGet) ==> r == Err(Internal(SessionStoreFailure))
      ensures fault != Some(SessionGet) && AH.ACCOUNT_KEY !in session ==> r == Ok(None)
      ensures forall a: Uuid :: r == Ok(Some(a)) <==>
        fault != Some(SessionGet) && AH.ACCOUNT_KEY in session && session[AH.ACCOUNT_KEY] == AH.AccountRef(a)
      ensures r.Err? <==> fault == Some(SessionGet) || (AH.ACCOUNT_KEY in session && !session[AH.ACCOUNT_KEY].AccountRef?)
    {
      if fault == Some(SessionGet) then Err(Internal(SessionStoreFailure))
      else if AH.ACCOUNT_KEY !in session then Ok(None)
      else if session[AH.ACCOUNT_KEY].AccountRef? then Ok(Some(session[AH.ACCOUNT_KEY].account))
      else Err(Internal(SessionDecode(AH.ACCOUNT_KEY)))
    }

    /** `PUT /local/password` (handler/local.rs): the logged-in local account gets `Some(password)`. */
    method SetLocalPassword(password: string, fault: Option<Step>) returns (r: Result<(), HandlerError>)
      requires Valid()
      modifies this`db
      ensures Valid()
      ensures old(LoggedIn(fault)).Err? ==> r == Err(old(LoggedIn(fault)).error)
      ensures old(LoggedIn(fault)) == Ok(None) ==> r == Err(Message("Not logged-in"))
      ensures old(LoggedIn(fault)).Ok? && old(LoggedIn(fault)).value.Some? && FailsIn(fault, {BeginTransaction, Query(0)}) ==>
        r == Err(Internal(DatabaseFailure))
      ensures forall a ::
        (old(LoggedIn(fault)) == Ok(Some(a)) && !FailsIn(fault, {BeginTransaction, Query(0)})
         && LocalAccountsOf(Tables(old(db)), a) == {})
        ==> r == Err(Message("User is not a local one"))
      ensures r.Err? ==> db == old(db)
      ensures r == Err(Internal(DatabaseFailure)) ==> FailsIn(fault, {BeginTransaction, Query(0), Update, Commit})
      ensures r.Ok? <==> (old(LoggedIn(fault)).Ok? && old(LoggedIn(fault)).value.Some?
        && LocalAccountsOf(Tables(old(db)), old(LoggedIn(fault)).value.value) != {}
        && !FailsIn(fault, {BeginTransaction, Query(0), Update, Commit}))
      ensures r.Ok? ==> db == UpdateLegacyPassword(old(db), old(LoggedIn(fault)).value.value, Some(password))
    {
      var current := LoggedIn(fault);
      if current.Err? {
        return Err(current.error);
      }
      if current.value.None? {
        return Err(Message("Not logged-in"));
      }
      var a := current.value.value;
      if FailsIn(fault, {BeginTransaction, Query(0)}) {
        return Err(Internal(DatabaseFailure));
      }
      if LocalAccountsOf(Tables(db), a) == {} {
        return Err(Message("User is not a local one"));
      }
      if FailsIn(fault, {Update, Commit}) {
        return Err(Internal(DatabaseFailure));
      }
      UpdateLegacyPasswordKeepsValid(db, a, Some(password));
      db := UpdateLegacyPassword(db, a, Some(password));
      r := Ok(());
    }

    /** `DELETE /local/password` (handler/local.rs): refused unless some key of the local account is attested. */
    method DeleteLocalPassword(fault: Option<Step>) returns (r: Result<(), HandlerError>)
      requires Valid()
      modifies this`db
      ensures Valid()
      ensures old(LoggedIn(fault)).Err? ==> r == Err(old(LoggedIn(fault)).error)
      ensures old(LoggedIn(fault)) == Ok(None) ==> r == Err(Message("Not logged-in"))
      ensures old(LoggedIn(fault)).Ok? && old(LoggedIn(fault)).value.Some? && FailsIn(fault, {BeginTransaction, Query(0)}) ==>
        r == Err(Internal(DatabaseFailure))
      ensures forall a ::
        (old(LoggedIn(fault)) == Ok(Some(a)) && !FailsIn(fault, {BeginTransaction, Query(0)})
         && LocalAccountsOf(Tables(old(db)), a) == {})
        ==> r == Err(Message("User is not a local one"))
      ensures forall a ::
        (old(LoggedIn(fault)) == Ok(Some(a)) && !FailsIn(fault, {BeginTransaction, Query(0), Query(1)})
         && LocalAccountsOf(Tables(old(db)), a) != {}
         && (forall l :: l in LocalAccountsOf(Tables(old(db)), a) ==> !HasAttested(KeysOf(Tables(old(db)), l))))
        ==> r == Err(Message("User has no other login method"))
      ensures r.Err? ==> db == old(db)
      ensures r == Err(Internal(DatabaseFailure)) ==> FailsIn(fault, {BeginTransaction, Query(0), Query(1), Update, Commit})
      ensures r.Ok? ==>
        !FailsIn(fault, {BeginTransaction, Query(0), Query(1), Update, Commit})
        && exists a, l ::
          (old(LoggedIn(fault)) == Ok(Some(a)) && l in LocalAccountsOf(Tables(old(db)), a)
           && HasAttested(KeysOf(Tables(old(db)), l))
           && db == UpdateLegacyPassword(old(db), a, None))
      ensures forall a ::
        (old(LoggedIn(fault)) == Ok(Some(a)) && !FailsIn(fault, {BeginTransaction, Query(0), Query(1), Update, Commit})
         && LocalAccountsOf(Tables(old(db)), a) != {}
         && (forall l :: l in LocalAccountsOf(Tables(old(db)), a) ==> HasAttested(KeysOf(Tables(old(db)), l))))
        ==> r.Ok?
    {
      var current := LoggedIn(fault);
      if current.Err? {
        return Err(current.error);
      }
      if current.value.None? {
        return Err(Message("Not logged-in"));
      }
      var a := current.value.value;
      if FailsIn(fault, {BeginTransaction, Query(0)}) {
        return Err(Internal(DatabaseFailure));
      }
      var locals := LocalAccountsOf(Tables(db), a);
      if locals == {} {
        return Err(Message("User is not a local one"));
      }
      var l :| l in locals;
      if fault == Some(Query(1)) {
        return Err(Internal(DatabaseFailure));
      }
      if !HasAttested(KeysOf(Tables(db), l)) {
        return Err(Message("User has no other login method"));
      }
      if FailsIn(fault, {Update, Commit}) {
        return Err(Internal(DatabaseFailure));
      }
      UpdateLegacyPasswordKeepsValid(db, a, None);
      db := UpdateLegacyPassword(db, a, None);
      r := Ok(());
    }
  }

  /**
   * As written, the older OIDC login never completes either, even when
   * neither store fails: start writes `"login_oidc"`, finish reads
   * `"oidc_login_data"`.
   */
  method LegacyOidcLoginAsWritten(svc: AuthService, rnd: O.Randomness, request: O.OidcRequestState, accountUuid: Uuid, oidcUuid: Uuid)
    returns (started: Result<H.Redirect, HandlerError>, finished: Result<H.Redirect, HandlerError>)
    requires svc.Valid() && AH.OIDC_FINISH_KEY !in svc.session
    modifies svc
    ensures started.Ok?
    ensures finished == Err(Message("Bad Request"))
    ensures svc.db == old(svc.db) && AH.OIDC_START_KEY in svc.session && svc.session[AH.OIDC_START_KEY].OidcLogin?
  {
    started := svc.LoginOidc(rnd, None);
    finished := svc.FinishLoginOidc(AH.OIDC_FINISH_KEY, request, accountUuid, oidcUuid, None);
  }

  /**
   * With finish reading `"login_oidc"`, the provider's callback passes the
   * CSRF check; when neither store fails and the provider vouches for a
   * user name that already has an OIDC account, the client is logged in to
   * that account.
   */
  method LegacyOidcLoginCorrected(svc: AuthService, rnd: O.Randomness, code: O.AuthorizationCode, accountUuid: Uuid, oidcUuid: Uuid)
    returns (started: Result<H.Redirect, HandlerError>, finished: Result<H.Redirect, HandlerError>)
    requires svc.Valid()
    modifies svc
    ensures started.Ok? && AH.OIDC_START_KEY !in svc.session
    ensures finished != Err(Message("Bad Request"))
    ensures var st := O.BeginLogin(svc.oidc, rnd).value.1;
      var verified := VerifyCallback(svc.oidc, svc.hash, st, O.OidcRequestState(code, rnd.csrfToken));
      verified.Ok? && LegacyOidcWithId(old(svc.db), verified.value) != {}
      ==> finished.Ok? && svc.db == old(svc.db) && AH.ACCOUNT_KEY in svc.session && svc.session[AH.ACCOUNT_KEY].AccountRef?
  {
    started := svc.LoginOidc(rnd, None);
    finished := svc.FinishLoginOidc(AH.OIDC_START_KEY, O.OidcRequestState(code, rnd.csrfToken), accountUuid, oidcUuid, None);
  }
}
