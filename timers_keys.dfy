/**
 * The timer-key registry of the timers contrib crate
 * (contrib/galvyn-contrib-timers/src/module.rs) and its error
 * (contrib/galvyn-contrib-timers/src/errors.rs): every key passed to
 * `add_timer` is remembered with the location of its first caller, so a
 * second use of the key is reported with both locations.
 *
 * The mutex around the map is left out; lock poisoning is ignored by the
 * source itself (`unwrap_or_else(PoisonError::into_inner)`).
 */
module TimerKeys {
  import opened Wrappers
  import opened Text
  import C = ApiErrorCore

  /** `DuplicatedTimerKeyLocations`: the first and the second caller. */
  datatype DuplicatedTimerKeyLocations = DuplicatedTimerKeyLocations(fstLocation: C.Location, sndLocation: C.Location)

  /** `DuplicatedTimerKey`: the key passed twice and where. */
  datatype DuplicatedTimerKey = DuplicatedTimerKey(key: string, locations: DuplicatedTimerKeyLocations)

  /** `TimerBuilder`: what a successful `add_timer` hands back, carrying its key. */
  datatype TimerBuilder = TimerBuilder(key: string)

  const KEY_PREFIX := "The provided key '"
  const KEY_SUFFIX := "' is already associated with a timer."

  /** `Display for DuplicatedTimerKey`. */
  function KeyDisplay(e: DuplicatedTimerKey): (r: string)
    ensures |r| == |KEY_PREFIX| + |e.key| + |KEY_SUFFIX|
    ensures StartsWith(r, KEY_PREFIX) && EndsWith(r, KEY_SUFFIX)
  {
    KEY_PREFIX + e.key + KEY_SUFFIX
  }

  /** The message names the key: two errors with the same message are about the same key. */
  lemma KeyDisplayNamesKey(e1: DuplicatedTimerKey, e2: DuplicatedTimerKey)
    requires KeyDisplay(e1) == KeyDisplay(e2)
    ensures e1.key == e2.key
  {
    var r := KeyDisplay(e1);
    assert e1.key == r[|KEY_PREFIX|..|r| - |KEY_SUFFIX|];
    assert e2.key == KeyDisplay(e2)[|KEY_PREFIX|..|KeyDisplay(e2)| - |KEY_SUFFIX|];
  }

  /** `Error::source` of `DuplicatedTimerKey`: always the locations. */
  function KeySource(e: DuplicatedTimerKey): (r: Option<DuplicatedTimerKeyLocations>)
    ensures r.Some? && r.value == e.locations
  {
    Some(e.locations)
  }

  const LOCATIONS_PREFIX := "The key was initially used by '"
  const LOCATIONS_MIDDLE := "' and then by '"
  const LOCATIONS_SUFFIX := "' again"

  /** `Display for DuplicatedTimerKeyLocations`: the first location, then the second, each as `file:line:column`. */
  function LocationsDisplay(l: DuplicatedTimerKeyLocations): (r: string)
    ensures StartsWith(r, LOCATIONS_PREFIX + C.LocationText(l.fstLocation) + LOCATIONS_MIDDLE)
    ensures EndsWith(r, LOCATIONS_MIDDLE + C.LocationText(l.sndLocation) + LOCATIONS_SUFFIX)
  {
    var fst := C.LocationText(l.fstLocation);
    var snd := C.LocationText(l.sndLocation);
    var r := LOCATIONS_PREFIX + fst + LOCATIONS_MIDDLE + snd + LOCATIONS_SUFFIX;
    assert r == (LOCATIONS_PREFIX + fst + LOCATIONS_MIDDLE) + (snd + LOCATIONS_SUFFIX);
    assert r == (LOCATIONS_PREFIX + fst) + (LOCATIONS_MIDDLE + snd + LOCATIONS_SUFFIX);
    C.StartsWithConcat(LOCATIONS_PREFIX + fst + LOCATIONS_MIDDLE, snd + LOCATIONS_SUFFIX);
    C.EndsWithConcat(LOCATIONS_PREFIX + fst, LOCATIONS_MIDDLE + snd + LOCATIONS_SUFFIX);
    r
  }

  /** `Error for DuplicatedTimerKeyLocations` keeps the default `source`: there is none below the locations. */
  function LocationsSource(l: DuplicatedTimerKeyLocations): (r: Option<()>)
    ensures r.None?
  {
    None
  }

  /** Following the source of a duplicate-key error once yields a message about both callers, and following it again ends the chain. */
  lemma SourceChain(e: DuplicatedTimerKey)
    ensures KeySource(e).Some?
    ensures LocationsSource(KeySource(e).value).None?
    ensures StartsWith(LocationsDisplay(KeySource(e).value),
      LOCATIONS_PREFIX + C.LocationText(e.locations.fstLocation) + LOCATIONS_MIDDLE)
  {
  }

  /** The `Timers` module: the map from every key added so far to its first caller. */
  class Timers {
    var keys: map<string, C.Location>

    /** `Timers::init`: no key added yet. */
    constructor ()
      ensures keys == map[]
    {
      keys := map[];
    }

    /**
     * `add_timer`: a new key is recorded with its caller and handed back
     * in the builder; a key already recorded is an error naming the
     * recorded caller first and this caller second, and the map is left
     * as it was.
     */
    method AddTimer(key: string, caller: C.Location) returns (r: Result<TimerBuilder, DuplicatedTimerKey>)
      modifies this
      ensures key in old(keys) ==>
        r == Err(DuplicatedTimerKey(key, DuplicatedTimerKeyLocations(old(keys)[key], caller))) && keys == old(keys)
      ensures key !in old(keys) ==> r == Ok(TimerBuilder(key)) && keys == old(keys)[key := caller]
      ensures old(keys).Keys <= keys.Keys && forall k :: k in old(keys) ==> keys[k] == old(keys)[k]
    {
      if key in keys {
        var fstLocation := keys[key];
        return Err(DuplicatedTimerKey(key, DuplicatedTimerKeyLocations(fstLocation, caller)));
      }
      keys := keys[key := caller];
      r := Ok(TimerBuilder(key));
    }
  }

  /**
   * A key can be added once per module: the second `add_timer` with the
   * same key fails and points back at the first caller, whatever other
   * keys were added in between.
   */
  method AddTwice(timers: Timers, key: string, first: C.Location, others: seq<string>, second: C.Location)
    returns (r1: Result<TimerBuilder, DuplicatedTimerKey>, r2: Result<TimerBuilder, DuplicatedTimerKey>)
    requires key !in timers.keys
    modifies timers
    ensures r1 == Ok(TimerBuilder(key))
    ensures r2 == Err(DuplicatedTimerKey(key, DuplicatedTimerKeyLocations(first, second)))
  {
    r1 := timers.AddTimer(key, first);
    var i := 0;
    while i < |others|
      invariant key in timers.keys && timers.keys[key] == first
    {
      var _ := timers.AddTimer(others[i], second);
      i := i + 1;
    }
    r2 := timers.AddTimer(key, second);
  }
}
