/**
 * The tables of the authentication contrib crate
 * (contrib/galvyn-contrib-auth/src/models.rs) as maps from primary key to
 * row, their declared constraints, the cascading delete, and the queries
 * the handlers run against them.
 */
module AuthModels {
  import opened Wrappers
  import L = ApiErrorLegacy
  import opened Text

  /** A primary key (`Uuid` in the current revision, `i64` in the older one). */
  type Uuid = nat

  /** The credential id of a WebAuthn passkey. */
  datatype CredId = CredId(bytes: seq<bv8>)

  /** A passkey without attestation and an attested one; only their credential ids matter here. */
  datatype Passkey = Passkey(credId: CredId)
  datatype AttestedPasskey = AttestedPasskey(credId: CredId)

  datatype MaybeAttestedPasskey = NotAttested(passkey: Passkey) | Attested(attested: AttestedPasskey)

  datatype Account = Account(id: string)
  datatype OidcAccount = OidcAccount(issuer: string, subject: string, account: Uuid)
  datatype LocalAccount = LocalAccount(password: Option<string>, account: Uuid)
  datatype TotpKey = TotpKey(localAccount: Uuid, labelText: string, secret: seq<bv8>)
  datatype WebAuthnKey = WebAuthnKey(localAccount: Uuid, labelText: string, key: MaybeAttestedPasskey)

  datatype Db = Db(
    accounts: map<Uuid, Account>,
    oidcAccounts: map<Uuid, OidcAccount>,
    localAccounts: map<Uuid, LocalAccount>,
    totpKeys: map<Uuid, TotpKey>,
    webauthnKeys: map<Uuid, WebAuthnKey>)

  const MAX_ID := 255
  const MAX_ISSUER := 255
  const MAX_SUBJECT := 255
  const MAX_PASSWORD := 1024
  const MAX_LABEL := 255
  const MAX_SECRET := 32

  /** `#[rorm(unique)]` on `Account.id`. */
  predicate UniqueIds(db: Db) {
    forall a, b :: a in db.accounts && b in db.accounts && db.accounts[a].id == db.accounts[b].id ==> a == b
  }

  /**
   * Every `max_length` and `MaxStr` bound of the tables. A `max_length`
   * column is a `varchar`, bounded in characters; a `MaxStr` is bounded in
   * UTF-8 bytes.
   */
  predicate WithinBounds(db: Db) {
    (forall a :: a in db.accounts ==> |db.accounts[a].id| <= MAX_ID)
    && (forall o :: o in db.oidcAccounts ==>
          Utf8Length(db.oidcAccounts[o].issuer) <= MAX_ISSUER && Utf8Length(db.oidcAccounts[o].subject) <= MAX_SUBJECT)
    && (forall l :: l in db.localAccounts && db.localAccounts[l].password.Some? ==>
          |db.localAccounts[l].password.value| <= MAX_PASSWORD)
    && (forall t :: t in db.totpKeys ==>
          |db.totpKeys[t].labelText| <= MAX_LABEL && |db.totpKeys[t].secret| <= MAX_SECRET)
    && (forall w :: w in db.webauthnKeys ==> |db.webauthnKeys[w].labelText| <= MAX_LABEL)
  }

  /** Every foreign key names an existing row. */
  predicate ForeignKeys(db: Db) {
    (forall o :: o in db.oidcAccounts ==> db.oidcAccounts[o].account in db.accounts)
    && (forall l :: l in db.localAccounts ==> db.localAccounts[l].account in db.accounts)
    && (forall t :: t in db.totpKeys ==> db.totpKeys[t].localAccount in db.localAccounts)
    && (forall w :: w in db.webauthnKeys ==> db.webauthnKeys[w].localAccount in db.localAccounts)
  }

  /** The constraints the database enforces. */
  predicate Valid(db: Db) {
    UniqueIds(db) && WithinBounds(db) && ForeignKeys(db)
  }

  function EmptyDb(): (db: Db)
    ensures Valid(db)
  {
    Db(map[], map[], map[], map[], map[])
  }

  /**
   * Deleting an account with `on_delete = "Cascade"`: its OIDC and local
   * accounts go with it, and with its local accounts their TOTP and
   * WebAuthn keys.
   */
  function DeleteAccount(db: Db, account: Uuid): Db {
    var oidc := map o | o in db.oidcAccounts && db.oidcAccounts[o].account != account :: db.oidcAccounts[o];
    var local := map l | l in db.localAccounts && db.localAccounts[l].account != account :: db.localAccounts[l];
    Db(
      db.accounts - {account},
      oidc,
      local,
      map t | t in db.totpKeys && db.totpKeys[t].localAccount in local :: db.totpKeys[t],
      map w | w in db.webauthnKeys && db.webauthnKeys[w].localAccount in local :: db.webauthnKeys[w])
  }

  /**
   * The cascade keeps every constraint, removes exactly the rows that hang
   * off the deleted account, and leaves every other row as it was.
   */
  lemma DeleteAccountCascades(db: Db, account: Uuid)
    requires Valid(db)
    ensures Valid(DeleteAccount(db, account))
    ensures account !in DeleteAccount(db, account).accounts
    ensures forall a :: a in db.accounts && a != account ==> a in DeleteAccount(db, account).accounts
    ensures forall o :: o in db.oidcAccounts ==>
      (o in DeleteAccount(db, account).oidcAccounts <==> db.oidcAccounts[o].account != account)
    ensures forall l :: l in db.localAccounts ==>
      (l in DeleteAccount(db, account).localAccounts <==> db.localAccounts[l].account != account)
    ensures forall w :: w in db.webauthnKeys ==>
      (w in DeleteAccount(db, account).webauthnKeys <==>
        db.localAccounts[db.webauthnKeys[w].localAccount].account != account)
    ensures forall t :: t in db.totpKeys ==>
      (t in DeleteAccount(db, account).totpKeys <==>
        db.localAccounts[db.totpKeys[t].localAccount].account != account)
  {
  }

  /** `SELECT uuid FROM account WHERE id = ?` */
  function AccountsWithId(db: Db, id: string): (r: set<Uuid>)
    ensures forall a :: a in r <==> a in db.accounts && db.accounts[a].id == id
  {
    set a | a in db.accounts && db.accounts[a].id == id
  }

  /** The unique constraint makes the lookup by id yield at most one account. */
  lemma AccountsWithIdAtMostOne(db: Db, id: string, a: Uuid, b: Uuid)
    requires Valid(db)
    requires a in AccountsWithId(db, id) && b in AccountsWithId(db, id)
    ensures a == b
  {
  }

  /** `SELECT .. FROM local_account WHERE account = ?` */
  function LocalAccountsOf(db: Db, account: Uuid): (r: set<Uuid>)
    ensures forall l :: l in r <==> l in db.localAccounts && db.localAccounts[l].account == account
  {
    set l | l in db.localAccounts && db.localAccounts[l].account == account
  }

  /** `SELECT .. FROM oidc_account WHERE account = ?` */
  function OidcAccountsOf(db: Db, account: Uuid): (r: set<Uuid>)
    ensures forall o :: o in r <==> o in db.oidcAccounts && db.oidcAccounts[o].account == account
  {
    set o | o in db.oidcAccounts && db.oidcAccounts[o].account == account
  }

  /** `SELECT key FROM webauthn_key WHERE local_account = ?` */
  function KeysOf(db: Db, local: Uuid): (r: set<MaybeAttestedPasskey>)
    ensures forall k :: k in r <==>
      (exists w :: w in db.webauthnKeys && db.webauthnKeys[w].localAccount == local && db.webauthnKeys[w].key == k)
  {
    set w | w in db.webauthnKeys && db.webauthnKeys[w].localAccount == local :: db.webauthnKeys[w].key
  }

  /** `SELECT account FROM oidc_account WHERE issuer = ? AND subject = ?` */
  function OidcAccountsMatching(db: Db, issuer: string, subject: string): (r: set<Uuid>)
    ensures forall o :: o in r <==>
      (o in db.oidcAccounts && db.oidcAccounts[o].issuer == issuer && db.oidcAccounts[o].subject == subject)
  {
    set o | o in db.oidcAccounts && db.oidcAccounts[o].issuer == issuer && db.oidcAccounts[o].subject == subject
  }

  /** The `filter_map` over the stored keys: the attested passkeys. */
  function AttestedKeys(keys: set<MaybeAttestedPasskey>): set<AttestedPasskey> {
    set k | k in keys && k.Attested? :: k.attested
  }

  /** The `any(.. Attested(_))` check. */
  predicate HasAttested(keys: set<MaybeAttestedPasskey>) {
    exists k :: k in keys && k.Attested?
  }

  /** The `find_map` over the stored keys: an attested key whose credential id is `cred`. */
  predicate HasAttestedWithCred(keys: set<MaybeAttestedPasskey>, cred: CredId) {
    exists k :: k in keys && k.Attested? && k.attested.credId == cred
  }

  /**
   * The three key queries agree: the keys offered to the challenge are the
   * attested ones, unattested keys never count as a login method, and a
   * credential can only be accepted if it belongs to an offered key.
   */
  lemma AttestedKeysAgree(keys: set<MaybeAttestedPasskey>, cred: CredId, p: Passkey)
    ensures HasAttested(keys) <==> AttestedKeys(keys) != {}
    ensures HasAttestedWithCred(keys, cred) <==> AttestedPasskey(cred) in AttestedKeys(keys)
    ensures AttestedKeys(keys + {NotAttested(p)}) == AttestedKeys(keys)
    ensures HasAttested(keys + {NotAttested(p)}) == HasAttested(keys)
    ensures HasAttestedWithCred(keys, cred) ==> HasAttested(keys)
  {
    if HasAttested(keys) {
      var k :| k in keys && k.Attested?;
      assert k.attested in AttestedKeys(keys);
    }
    if HasAttestedWithCred(keys, cred) {
      var k :| k in keys && k.Attested? && k.attested.credId == cred;
      assert k.attested == AttestedPasskey(cred);
    }
    if AttestedPasskey(cred) in AttestedKeys(keys) {
      var k :| k in keys && k.Attested? && k.attested == AttestedPasskey(cred);
    }
  }

  /**
   * The `.await?` points of a handler at which the database or the session
   * store can fail. `Query(n)` is the handler's n-th query and `Insert(n)`
   * its n-th insert, counting from 0. A run of a handler is described by the
   * first of its points that fails, if any (an `Option<Step>`); a point the
   * run does not reach changes nothing.
   */
  datatype Step =
    | SessionGet | SessionInsert | SessionRemove
    | BeginTransaction | Query(n: nat) | Insert(n: nat) | Update | Commit

  /** The run fails at one of `steps`. */
  predicate FailsIn(fault: Option<Step>, steps: set<Step>) {
    fault.Some? && fault.value in steps
  }

  /** Why a `?` conversion turned an operation into an internal server error. */
  datatype InternalCause =
    | DatabaseFailure                       // rorm returned an error (`From<rorm::Error>`)
    | SessionStoreFailure                   // the session store returned an error (`From<tower_sessions::session::Error>`)
    | UniqueViolation(table: string)       // an insert broke a unique or primary key
    | ValueTooLong(column: string)          // an insert or update broke a length bound
    | SessionDecode(key: string)            // a session value did not deserialize as the expected type
    | LibraryError(library: string)         // the older revision's `?` on a WebAuthn or OpenID Connect error

  /** The part of an `ApiError` a client and the log see, without its location and source. */
  datatype HandlerError =
    | Api(code: L.ApiStatusCode, context: string)
    | Internal(cause: InternalCause)
    | Message(text: string)

  function BadRequest(context: string): HandlerError {
    Api(L.BadRequest, context)
  }

  function ServerError(context: string): HandlerError {
    Api(L.InternalServerError, context)
  }
}
