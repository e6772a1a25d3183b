/**
 * The settings store of the settings contrib crate
 * (contrib/galvyn-contrib-settings/src/settings_store.rs): a registry of
 * settings keys, each holding one serialized value in the
 * `GalvynSettings` table.
 *
 * During start-up, `init` loads every row as an `Existing` entry. Every
 * other module then `register`s its keys. Each key is registered once;
 * a key with no row gets its default value as a `New` entry. Finally
 * `post_init` inserts the `New` entries in one bulk insert. After start-up,
 * a `SettingsHandle` reads the current value and `set`s a new one.
 *
 * JSON (de)serialisation is the pair of oracle functions `Codec`. The
 * table is the map from a row's unique key to its value.
 */
module SettingsStore {
  import opened Wrappers
  import opened Text

  /** A serialized JSON value (`Box<RawValue>`). */
  datatype RawValue = RawValue(json: string)

  datatype SerdeError = SerdeError(message: string)
  datatype DbError = UniqueViolation(key: string) | Backend(message: string)

  /** `Serialize` and `DeserializeOwned` of one settings type. */
  datatype Codec<!T> = Codec(serialize: T -> Result<RawValue, SerdeError>, deserialize: RawValue -> Result<T, SerdeError>)

  /** A codec whose deserializer reads back what its serializer wrote. */
  ghost predicate RoundTrips<T(!new)>(c: Codec<T>) {
    forall v: T :: c.serialize(v).Ok? ==> c.deserialize(c.serialize(v).value) == Ok(v)
  }

  /** `SettingsKey` is a `MaxStr<255>`, which bounds the length of the key in UTF-8 bytes. */
  const MAX_KEY_LEN := 255

  datatype RegisterError = InvalidKey(key: string) | DuplicateKey(key: string) | SerializeDefault(cause: SerdeError) | DeserializeCurrent(cause: SerdeError)

  datatype SetError = Serialize(serdeError: SerdeError) | Update(dbError: DbError)

  datatype EntryState = New | Existing

  datatype Entry = Entry(state: EntryState, value: RawValue)

  /** The `GalvynSettings` table: the unique `key` column mapped to the `value` column. */
  class SettingsTable {
    var rows: map<string, RawValue>

    constructor (rows: map<string, RawValue>)
      ensures this.rows == rows
    {
      this.rows := rows;
    }
  }

  /** The entries `init` builds from the rows of the table: every row, as `Existing`. */
  function LoadEntries(rows: map<string, RawValue>): map<string, Entry> {
    map k | k in rows :: Entry(Existing, rows[k])
  }

  /** The rows `post_init` inserts: exactly the `New` entries. */
  function NewEntries(entries: map<string, Entry>): map<string, RawValue> {
    map k | k in entries && entries[k].state == New :: entries[k].value
  }

  /** A store that registered nothing has nothing to insert. */
  lemma NothingRegisteredNothingInserted(rows: map<string, RawValue>)
    ensures NewEntries(LoadEntries(rows)) == map[]
  {
    assert NewEntries(LoadEntries(rows)).Keys == {};
  }

  /** `SettingsStore`. */
  class SettingsStore {
    var entries: map<string, Entry>
    var registeredKeys: set<string>
    /** The rows the store was initialised from. */
    ghost var loaded: map<string, RawValue>

    /**
     * The `Existing` entries are exactly the loaded rows, and every `New`
     * entry belongs to a key registered through a valid key.
     */
    ghost predicate Valid()
      reads this
    {
      (forall k :: k in loaded ==> k in entries && entries[k] == Entry(Existing, loaded[k]))
      && (forall k :: k in entries && entries[k].state == Existing ==> k in loaded)
      && (forall k :: k in entries && entries[k].state == New ==> k in registeredKeys)
      && (forall k :: k in registeredKeys ==> Utf8Length(k) <= MAX_KEY_LEN)
    }

    /** The store `init` builds once the table has been read: every row as `Existing`, and no key registered yet. */
    constructor (table: SettingsTable)
      ensures entries == LoadEntries(table.rows) && registeredKeys == {}
      ensures loaded == table.rows
      ensures Valid()
    {
      entries := LoadEntries(table.rows);
      registeredKeys := {};
      loaded := table.rows;
    }

    /**
     * `SettingsStore::init`: reads every row of the table; a failing query
     * (`failure`, what the database answers) is returned and no store is
     * made.
     */
    static method Init(table: SettingsTable, failure: Option<DbError>) returns (r: Result<SettingsStore, DbError>)
      ensures failure.Some? ==> r == Err(failure.value)
      ensures failure.None? ==> r.Ok? && fresh(r.value)
      ensures r.Ok? ==>
        r.value.entries == LoadEntries(table.rows) && r.value.registeredKeys == {}
        && r.value.loaded == table.rows && r.value.Valid()
    {
      if failure.Some? {
        return Err(failure.value);
      }
      var store := new SettingsStore(table);
      r := Ok(store);
    }

    /**
     * `SettingsStore::register`. An over-long key and a key registered
     * before are refused with nothing changed. Otherwise the key is
     * registered first, whatever happens next: a stored value is
     * deserialized and returned, with the entries left alone; with no
     * stored value, the default is serialized and recorded as `New`. A
     * (de)serialisation error is returned and no handle is made.
     */
    method Register<T>(key: string, default: () -> T, codec: Codec<T>) returns (r: Result<SettingsHandle<T>, RegisterError>)
      requires Valid()
      modifies this
      ensures Valid() && loaded == old(loaded)
      ensures Utf8Length(key) > MAX_KEY_LEN ==>
        r == Err(InvalidKey(key)) && entries == old(entries) && registeredKeys == old(registeredKeys)
      ensures Utf8Length(key) <= MAX_KEY_LEN && key in old(registeredKeys) ==>
        r == Err(DuplicateKey(key)) && entries == old(entries) && registeredKeys == old(registeredKeys)
      ensures Utf8Length(key) <= MAX_KEY_LEN && key !in old(registeredKeys) ==>
        registeredKeys == old(registeredKeys) + {key}
      ensures Utf8Length(key) <= MAX_KEY_LEN && key !in old(registeredKeys) && key in old(entries) ==>
        var stored := codec.deserialize(old(entries)[key].value);
        entries == old(entries)
        && (stored.Err? ==> r == Err(DeserializeCurrent(stored.error)))
        && (stored.Ok? ==> r.Ok? && r.value.current == stored.value)
      ensures Utf8Length(key) <= MAX_KEY_LEN && key !in old(registeredKeys) && key !in old(entries) ==>
        var serialized := codec.serialize(default());
        (serialized.Err? ==> r == Err(SerializeDefault(serialized.error)) && entries == old(entries))
        && (serialized.Ok? ==>
              r.Ok? && r.value.current == default()
              && entries == old(entries)[key := Entry(New, serialized.value)])
      ensures r.Ok? ==> fresh(r.value) && r.value.key == key
    {
      if Utf8Length(key) > MAX_KEY_LEN {
        return Err(InvalidKey(key));
      }
      if key in registeredKeys {
        return Err(DuplicateKey(key));
      }
      registeredKeys := registeredKeys + {key};

      var value: T;
      if key in entries {
        var stored := codec.deserialize(entries[key].value);
        if stored.Err? {
          return Err(DeserializeCurrent(stored.error));
        }
        value := stored.value;
      } else {
        value := default();
        var serialized := codec.serialize(value);
        if serialized.Err? {
          return Err(SerializeDefault(serialized.error));
        }
        entries := entries[key := Entry(New, serialized.value)];
      }

      var handle := new SettingsHandle(key, value);
      r := Ok(handle);
    }

    /**
     * `SettingsStore::post_init`: one bulk insert of the `New` entries,
     * all or nothing. `failure` is a failure of the database of its own
     * (a lost connection, say); otherwise the insert fails on a key the
     * table already holds.
     */
    method PostInit(table: SettingsTable, failure: Option<DbError>) returns (r: Result<(), DbError>)
      requires Valid()
      modifies table
      ensures failure.Some? ==> r == Err(failure.value)
      ensures r.Ok? <==> failure.None? && (forall k :: k in NewEntries(entries) ==> k !in old(table.rows))
      ensures r.Ok? ==> table.rows == old(table.rows) + NewEntries(entries)
      ensures r.Err? ==> table.rows == old(table.rows)
      ensures r.Err? && failure.None? ==>
        r.error.UniqueViolation? && r.error.key in NewEntries(entries) && r.error.key in old(table.rows)
      ensures old(table.rows) == loaded && failure.None? ==> r.Ok?
    {
      if failure.Some? {
        return Err(failure.value);
      }
      var inserted := NewEntries(entries);
      if k :| k in inserted && k in table.rows {
        return Err(UniqueViolation(k));
      }
      table.rows := table.rows + inserted;
      r := Ok(());
    }
  }

  /** `SettingsHandle`: the key and the value last published on its watch channel. */
  class SettingsHandle<T> {
    const key: string
    var current: T

    constructor (key: string, value: T)
      ensures this.key == key && current == value
    {
      this.key := key;
      current := value;
    }

    /** `SettingsHandle::get`: the value last published. */
    function Get(): T
      reads this
    {
      current
    }

    /**
     * `SettingsHandle::set`: the new value is serialized, then written to
     * the row of this key (an update matching no row writes nothing), and
     * only after both succeed is it published. `update` is what the
     * database answers to the update.
     */
    method Set(value: T, codec: Codec<T>, table: SettingsTable, update: Option<DbError>) returns (r: Result<(), SetError>)
      modifies this, table
      ensures r.Ok? <==> codec.serialize(value).Ok? && update.None?
      ensures codec.serialize(value).Err? ==> r == Err(Serialize(codec.serialize(value).error))
      ensures codec.serialize(value).Ok? && update.Some? ==> r == Err(Update(update.value))
      ensures r.Ok? ==> Get() == value
      ensures r.Ok? && key in old(table.rows) ==> table.rows == old(table.rows)[key := codec.serialize(value).value]
      ensures r.Ok? && key !in old(table.rows) ==> table.rows == old(table.rows)
      ensures r.Err? ==> current == old(current) && table.rows == old(table.rows)
    {
      var serialized := codec.serialize(value);
      if serialized.Err? {
        return Err(Serialize(serialized.error));
      }
      if update.Some? {
        return Err(Update(update.value));
      }
      if key in table.rows {
        table.rows := table.rows[key := serialized.value];
      }
      current := value;
      r := Ok(());
    }
  }

  /**
   * A default registered on a fresh table is persisted by `post_init`, and
   * after a restart the same key reads that value back without using the
   * new default.
   */
  method RestartKeepsDefault<T(!new)>(table: SettingsTable, key: string, default: () -> T, otherDefault: () -> T, codec: Codec<T>)
    returns (first: Result<SettingsHandle<T>, RegisterError>, second: Result<SettingsHandle<T>, RegisterError>)
    requires RoundTrips(codec) && codec.serialize(default()).Ok?
    requires key !in table.rows && Utf8Length(key) <= MAX_KEY_LEN
    modifies table
    ensures first.Ok? && first.value.Get() == default()
    ensures second.Ok? && second.value.Get() == default()
  {
    var made := SettingsStore.Init(table, None);
    var store := made.value;
    first := store.Register(key, default, codec);
    var inserted := store.PostInit(table, None);
    assert store.entries[key] == Entry(New, codec.serialize(default()).value);
    assert table.rows[key] == codec.serialize(default()).value;
    var remade := SettingsStore.Init(table, None);
    var restarted := remade.value;
    second := restarted.Register(key, otherDefault, codec);
  }

  /** A value set through a handle is what the key reads after a restart. */
  method SetSurvivesRestart<T(!new)>(handle: SettingsHandle<T>, value: T, codec: Codec<T>, table: SettingsTable, default: () -> T)
    returns (written: Result<(), SetError>, reread: Result<SettingsHandle<T>, RegisterError>)
    requires RoundTrips(codec) && codec.serialize(value).Ok?
    requires handle.key in table.rows && Utf8Length(handle.key) <= MAX_KEY_LEN
    modifies handle, table
    ensures written.Ok? && handle.Get() == value
    ensures reread.Ok? && reread.value.Get() == value
  {
    written := handle.Set(value, codec, table, None);
    var remade := SettingsStore.Init(table, None);
    var restarted := remade.value;
    reread := restarted.Register(handle.key, default, codec);
  }
}
