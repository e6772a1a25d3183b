/**
 * The session store of the core crate (galvyn-core/src/session.rs):
 * `RormStore` keeps every session record of the session middleware as a
 * row of the `GalvynSession` table, keyed by the text of the session id.
 *
 * The clock (`OffsetDateTime::now_utc`) is the parameter `now`, and the
 * random ids `Id::default` draws are the parameter `ids`. A database
 * failure of a whole call is the parameter `failure`: the call's
 * transaction is then dropped, which writes nothing. The text form of an
 * id (`Id::to_string` / `Id::from_str`) is the oracle pair `IdCodec`.
 */
module SessionStore {
  import opened Wrappers
  import opened Text

  /** A point in time, in the clock's unit. */
  type Instant = int

  /** `tower_sessions::session::Id`: a random 128-bit value. */
  datatype Id = Id(value: int)

  /** `Id::to_string` and `Id::from_str`. */
  datatype IdCodec = IdCodec(toText: Id -> string, fromText: string -> Option<Id>)

  /** A codec that reads back every id it writes. */
  ghost predicate IdRoundTrips(c: IdCodec) {
    forall id :: c.fromText(c.toText(id)) == Some(id)
  }

  /** A JSON value stored in a session. */
  datatype JsonValue = JsonValue(json: string)

  /** `Record`: what the middleware creates, saves and loads. */
  datatype Record = Record(id: Id, data: map<string, JsonValue>, expiryDate: Instant)

  /** A row of `GalvynSession`, without its primary key. */
  datatype SessionRow = SessionRow(expiresAt: Instant, data: map<string, JsonValue>)

  /** `session_store::Error`: every failure of this store is a `Backend` error carrying the `RormStoreError` text. */
  datatype StoreError = Backend(message: string)

  const DATABASE_ERROR := "Database error: "
  const DECODING_FAILED := "Decoding of id failed: "

  /** A row `load` returns at `now`: present and expiring strictly after `now`. */
  predicate Loadable(rows: map<string, SessionRow>, key: string, now: Instant) {
    key in rows && rows[key].expiresAt > now
  }

  /**
   * The table after `delete_expired` at `now`: the rows expiring strictly
   * before `now` are gone. It never removes a row `load` would return,
   * keeps every row it keeps unchanged, and what it keeps is either
   * loadable or expires exactly at `now`.
   */
  function DeleteExpired(rows: map<string, SessionRow>, now: Instant): (r: map<string, SessionRow>)
    ensures forall key :: Loadable(rows, key, now) ==> key in r
    ensures forall key :: key in r ==> key in rows && r[key] == rows[key]
    ensures forall key :: key in r ==> Loadable(rows, key, now) || rows[key].expiresAt == now
  {
    map k | k in rows && !(rows[k].expiresAt < now) :: rows[k]
  }

  /** A row expiring exactly at `now` is neither loaded nor deleted at `now`. */
  lemma ExpiringNowIsKept(rows: map<string, SessionRow>, now: Instant, key: string)
    requires key in rows && rows[key].expiresAt == now
    ensures !Loadable(rows, key, now)
    ensures key in DeleteExpired(rows, now) && DeleteExpired(rows, now)[key] == rows[key]
  {
  }

  /** `delete_expired` is idempotent at a fixed time. */
  lemma DeleteExpiredIdempotent(rows: map<string, SessionRow>, now: Instant)
    ensures DeleteExpired(DeleteExpired(rows, now), now) == DeleteExpired(rows, now)
  {
    assert DeleteExpired(DeleteExpired(rows, now), now).Keys == DeleteExpired(rows, now).Keys;
  }

  /** `Expiry`: the session middleware's expiry policy. */
  datatype Expiry = OnSessionEnd | OnInactivity(duration: nat) | AtDateTime(at: Instant)

  datatype SameSite = Strict | Lax | NoSameSite

  /** The settings of the `SessionManagerLayer` that `layer` builds. */
  datatype LayerConfig = LayerConfig(expiry: Expiry, sameSite: SameSite, alwaysSave: bool)

  /** 24 hours, in seconds. */
  const INACTIVITY_SECS := 24 * 60 * 60

  /** `layer`: sessions expire after 24 hours without a request, cookies are `SameSite=Lax`, and every request saves its session. */
  function Layer(): (r: LayerConfig)
    ensures r.expiry.OnInactivity? && r.expiry.duration == 86400
    ensures r.sameSite == Lax && r.alwaysSave
  {
    LayerConfig(OnInactivity(INACTIVITY_SECS), Lax, true)
  }

  /** The expiry date the layer gives a session on a request at `now`. */
  function ExpiryAfterRequest(config: LayerConfig, now: Instant): Option<Instant> {
    match config.expiry
    case OnSessionEnd => None
    case OnInactivity(d) => Some(now + d)
    case AtDateTime(at) => Some(at)
  }

  /**
   * Under `layer`, a session whose last request was at `last` is loadable
   * exactly while less than 24 hours have passed.
   */
  lemma InactiveDayExpires(rows: map<string, SessionRow>, key: string, last: Instant, now: Instant)
    requires key in rows && Some(rows[key].expiresAt) == ExpiryAfterRequest(Layer(), last)
    ensures Loadable(rows, key, now) <==> now - last < 86400
  {
  }

  /** `RormStore`: the `GalvynSession` table. */
  class RormStore {
    var sessions: map<string, SessionRow>
    const codec: IdCodec

    /** `RormStore::new`. */
    constructor (sessions: map<string, SessionRow>, codec: IdCodec)
      ensures this.sessions == sessions && this.codec == codec
    {
      this.sessions := sessions;
      this.codec := codec;
    }

    /**
     * `SessionStore::create`: the record's id is replaced by the next
     * random id as long as a row already has it; the record is then
     * inserted once, under an id no other row had, with its expiry and
     * data unchanged. The random ids are `ids`; some id of theirs is
     * unused, so the loop ends.
     */
    method Create(record: Record, ids: nat -> Id, failure: Option<string>) returns (r: Result<(), StoreError>, created: Record)
      requires exists n: nat :: codec.toText(ids(n)) !in sessions
      modifies this
      ensures created.data == record.data && created.expiryDate == record.expiryDate
      ensures created.id == record.id || exists n: nat :: created.id == ids(n)
      ensures failure.Some? ==> r == Err(Backend(DATABASE_ERROR + failure.value)) && sessions == old(sessions)
      ensures failure.None? ==>
        (r.Ok?
         && codec.toText(created.id) !in old(sessions)
         && sessions == old(sessions)[codec.toText(created.id) := SessionRow(record.expiryDate, record.data)])
    {
      ghost var bound :| bound >= 0 && codec.toText(ids(bound)) !in sessions;
      created := record;
      var next: nat := 0;
      while codec.toText(created.id) in sessions
        invariant next <= bound + 1
        invariant created.data == record.data && created.expiryDate == record.expiryDate
        invariant created.id == record.id || (next > 0 && created.id == ids(next - 1))
        invariant next == bound + 1 ==> codec.toText(created.id) !in sessions
        decreases bound + 1 - next
      {
        created := created.(id := ids(next));
        next := next + 1;
      }
      if failure.Some? {
        return Err(Backend(DATABASE_ERROR + failure.value)), created;
      }
      sessions := sessions[codec.toText(created.id) := SessionRow(created.expiryDate, created.data)];
      r := Ok(());
    }

    /** `SessionStore::save`: an upsert, writing the record's expiry and data under its id. */
    method Save(record: Record, failure: Option<string>) returns (r: Result<(), StoreError>)
      modifies this
      ensures failure.Some? ==> r == Err(Backend(DATABASE_ERROR + failure.value)) && sessions == old(sessions)
      ensures failure.None? ==>
        (r.Ok? && sessions == old(sessions)[codec.toText(record.id) := SessionRow(record.expiryDate, record.data)])
    {
      if failure.Some? {
        return Err(Backend(DATABASE_ERROR + failure.value));
      }
      // An update of the existing row or an insert of a new one: either way
      // the id's row then holds the record's expiry and data.
      sessions := sessions[codec.toText(record.id) := SessionRow(record.expiryDate, record.data)];
      r := Ok(());
    }

    /**
     * `SessionStore::load`: the record of the id's row if it expires after
     * `now`, nothing otherwise; the stored id text is decoded again, and a
     * text that does not decode is a backend error.
     */
    method Load(id: Id, now: Instant, failure: Option<string>) returns (r: Result<Option<Record>, StoreError>)
      ensures failure.Some? ==> r == Err(Backend(DATABASE_ERROR + failure.value))
      ensures failure.None? && !Loadable(sessions, codec.toText(id), now) ==> r == Ok(None)
      ensures failure.None? && Loadable(sessions, codec.toText(id), now) ==>
        var row := sessions[codec.toText(id)];
        match codec.fromText(codec.toText(id))
        case None => r.Err? && StartsWith(r.error.message, DECODING_FAILED)
        case Some(decoded) => r == Ok(Some(Record(decoded, row.data, row.expiresAt)))
      ensures IdRoundTrips(codec) && r.Ok? && r.value.Some? ==> r.value.value.id == id
    {
      if failure.Some? {
        return Err(Backend(DATABASE_ERROR + failure.value));
      }
      var key := codec.toText(id);
      if !(key in sessions && sessions[key].expiresAt > now) {
        return Ok(None);
      }
      var row := sessions[key];
      match codec.fromText(key)
      case None =>
        r := Err(Backend(DECODING_FAILED + key));
      case Some(decoded) =>
        r := Ok(Some(Record(decoded, row.data, row.expiresAt)));
    }

    /** `SessionStore::delete`: the row of the id is gone; an absent id is not an error. */
    method Delete(id: Id, failure: Option<string>) returns (r: Result<(), StoreError>)
      modifies this
      ensures failure.Some? ==> r == Err(Backend(DATABASE_ERROR + failure.value)) && sessions == old(sessions)
      ensures failure.None? ==> r.Ok? && sessions == old(sessions) - {codec.toText(id)}
    {
      if failure.Some? {
        return Err(Backend(DATABASE_ERROR + failure.value));
      }
      sessions := sessions - {codec.toText(id)};
      r := Ok(());
    }

    /** `ExpiredDeletion::delete_expired`: every row expiring before `now` is gone. */
    method DeleteExpiredRows(now: Instant, failure: Option<string>) returns (r: Result<(), StoreError>)
      modifies this
      ensures failure.Some? ==> r == Err(Backend(DATABASE_ERROR + failure.value)) && sessions == old(sessions)
      ensures failure.None? ==> r.Ok? && sessions == DeleteExpired(old(sessions), now)
    {
      if failure.Some? {
        return Err(Backend(DATABASE_ERROR + failure.value));
      }
      sessions := DeleteExpired(sessions, now);
      r := Ok(());
    }
  }

  /**
   * A created session can be loaded back, with its data, until it expires,
   * and `delete` makes it unloadable.
   */
  method CreateLoadDelete(store: RormStore, record: Record, ids: nat -> Id, now: Instant)
    returns (loaded: Result<Option<Record>, StoreError>, afterDelete: Result<Option<Record>, StoreError>)
    requires IdRoundTrips(store.codec)
    requires exists n: nat :: store.codec.toText(ids(n)) !in store.sessions
    requires record.expiryDate > now
    modifies store
    ensures loaded.Ok? && loaded.value.Some?
    ensures loaded.value.value.data == record.data && loaded.value.value.expiryDate == record.expiryDate
    ensures afterDelete == Ok(None)
  {
    var r, created := store.Create(record, ids, None);
    loaded := store.Load(created.id, now, None);
    var _ := store.Delete(created.id, None);
    afterDelete := store.Load(created.id, now, None);
  }
}
