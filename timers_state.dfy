/**
 * The timer scheduler of the timers contrib crate
 * (contrib/galvyn-contrib-timers/src/state.rs): an arena of timers and a
 * deque of arena indexes kept sorted by each timer's next firing time,
 * where an index whose timer is gone is stale and skipped.
 *
 * Time is an integer (`Instant`), durations are naturals, and a
 * generational-arena index is a natural that the arena never hands out
 * twice. Calling a callback is observable only as the list of timers
 * `Run` fired, in order.
 */
module TimerState {
  import opened Wrappers

  type Index = nat
  type Instant = int

  /** The boxed `TimerCallback` a timer invokes. */
  datatype Callback = Callback(id: nat)

  /** `TimerSchedule`: how the next run follows the current one. */
  datatype TimerSchedule = Every(duration: nat)

  datatype Timer = Timer(next: Instant, callback: Callback, schedule: TimerSchedule)

  /** `TimerKey`: the handle `add` returns. */
  datatype TimerKey = TimerKey(index: Index)

  /** `TimerSchedule::calc_next`: the next run is never before the current one, and is later exactly for a positive interval. */
  function CalcNext(schedule: TimerSchedule, currentRun: Instant): (r: Instant)
    ensures r >= currentRun
    ensures r > currentRun <==> schedule.duration > 0
    ensures r - currentRun == schedule.duration
  {
    match schedule
    case Every(duration) => currentRun + duration
  }

  /** The sort key of an index: `None` for a stale index, which sorts before every live one. */
  function Key(timers: map<Index, Timer>, i: Index): Option<Instant> {
    if i in timers then Some(timers[i].next) else None
  }

  /** The order of `Option<Instant>`: `None` first, then by time. */
  predicate KeyLe(a: Option<Instant>, b: Option<Instant>) {
    a.None? || (b.Some? && a.value <= b.value)
  }

  /** Smallest timestamp first. */
  predicate Sorted(timers: map<Index, Timer>, s: seq<Index>) {
    forall i, j :: 0 <= i < j < |s| ==> KeyLe(Key(timers, s[i]), Key(timers, s[j]))
  }

  /** No index occurs twice. */
  ghost predicate Distinct(s: seq<Index>) {
    forall x :: multiset(s)[x] <= 1
  }

  function Elems(s: seq<Index>): set<Index> {
    set x | x in s
  }

  /** A distinct deque is exactly as long as its set of indexes. */
  lemma {:induction false} DistinctLength(s: seq<Index>)
    requires Distinct(s)
    ensures |Elems(s)| == |s|
  {
    if s != [] {
      assert s == [s[0]] + s[1..];
      assert multiset(s) == multiset{s[0]} + multiset(s[1..]);
      assert Distinct(s[1..]) by {
        forall x ensures multiset(s[1..])[x] <= 1 {
          assert multiset(s)[x] <= 1;
        }
      }
      DistinctLength(s[1..]);
      assert multiset(s)[s[0]] <= 1;
      assert s[0] !in s[1..];
      assert Elems(s) == {s[0]} + Elems(s[1..]);
    }
  }

  /** A suffix of a distinct deque is distinct, and a later entry does not occur before its position. */
  lemma DistinctParts(s: seq<Index>, k: nat)
    requires Distinct(s) && k <= |s|
    ensures Distinct(s[k..]) && Distinct(s[..k])
    ensures k < |s| ==> s[k] !in s[..k]
    ensures multiset(s[k..]) <= multiset(s)
  {
    assert s == s[..k] + s[k..];
    assert multiset(s) == multiset(s[..k]) + multiset(s[k..]);
    forall x ensures multiset(s[k..])[x] <= 1 && multiset(s[..k])[x] <= 1 {
      assert multiset(s)[x] <= 1;
    }
    if k < |s| {
      assert s[k] in multiset(s[k..]);
      assert multiset(s)[s[k]] <= 1;
    }
  }

  /**
   * Inserting one index into a deque sorted by next time, in front of the
   * first entry not earlier than it: the deque gains exactly that index.
   */
  function InsertByNext(timers: map<Index, Timer>, x: Index, s: seq<Index>): (r: seq<Index>)
    ensures |r| == |s| + 1
    ensures multiset(r) == multiset(s) + multiset{x}
    decreases |s|
  {
    if s == [] then [x]
    else if KeyLe(Key(timers, x), Key(timers, s[0])) then [x] + s
    else
      assert s == [s[0]] + s[1..];
      [s[0]] + InsertByNext(timers, x, s[1..])
  }

  /** `sort_unstable_by_key(|index| timers.get(index).map(|x| x.next))`, as an insertion sort. */
  function SortByNext(timers: map<Index, Timer>, s: seq<Index>): (r: seq<Index>)
    ensures |r| == |s|
    ensures multiset(r) == multiset(s)
    decreases |s|
  {
    if s == [] then []
    else
      assert s == [s[0]] + s[1..];
      InsertByNext(timers, s[0], SortByNext(timers, s[1..]))
  }

  /** The tail of a sorted deque is sorted, and its head is not later than any other entry. */
  lemma SortedTail(timers: map<Index, Timer>, s: seq<Index>)
    requires Sorted(timers, s) && s != []
    ensures Sorted(timers, s[1..])
    ensures forall j :: 0 <= j < |s| ==> KeyLe(Key(timers, s[0]), Key(timers, s[j]))
  {
    var tail := s[1..];
    forall i, j | 0 <= i < j < |tail| ensures KeyLe(Key(timers, tail[i]), Key(timers, tail[j])) {
      assert tail[i] == s[i + 1] && tail[j] == s[j + 1];
    }
  }

  /** An entry not later than anything in a sorted deque can go in front of it. */
  lemma SortedCons(timers: map<Index, Timer>, a: Index, t: seq<Index>)
    requires Sorted(timers, t)
    requires forall j :: 0 <= j < |t| ==> KeyLe(Key(timers, a), Key(timers, t[j]))
    ensures Sorted(timers, [a] + t)
  {
    var r := [a] + t;
    forall i, j | 0 <= i < j < |r| ensures KeyLe(Key(timers, r[i]), Key(timers, r[j])) {
      if i == 0 {
        assert r[j] == t[j - 1];
      } else {
        assert r[i] == t[i - 1] && r[j] == t[j - 1];
      }
    }
  }

  lemma {:induction false} InsertByNextSorted(timers: map<Index, Timer>, x: Index, s: seq<Index>)
    requires Sorted(timers, s)
    ensures Sorted(timers, InsertByNext(timers, x, s))
    ensures multiset(InsertByNext(timers, x, s)) == multiset(s) + multiset{x}
    decreases |s|
  {
    if s == [] {
    } else if KeyLe(Key(timers, x), Key(timers, s[0])) {
      SortedTail(timers, s);
      SortedCons(timers, x, s);
    } else {
      var tail := s[1..];
      SortedTail(timers, s);
      InsertByNextSorted(timers, x, tail);
      var rest := InsertByNext(timers, x, tail);
      assert s == [s[0]] + tail;
      forall j | 0 <= j < |rest| ensures KeyLe(Key(timers, s[0]), Key(timers, rest[j])) {
        assert rest[j] in multiset(rest);
        if rest[j] != x {
          assert rest[j] in multiset(tail);
          var m :| 0 <= m < |tail| && tail[m] == rest[j];
          assert tail[m] == s[m + 1];
        }
      }
      SortedCons(timers, s[0], rest);
    }
  }

  /** The sort orders the deque and keeps every index, stale ones included. */
  lemma {:induction false} SortByNextSorted(timers: map<Index, Timer>, s: seq<Index>)
    ensures Sorted(timers, SortByNext(timers, s))
    ensures multiset(SortByNext(timers, s)) == multiset(s)
    decreases |s|
  {
    if s != [] {
      SortByNextSorted(timers, s[1..]);
      InsertByNextSorted(timers, s[0], SortByNext(timers, s[1..]));
      assert s == [s[0]] + s[1..];
    }
  }

  /**
   * The timers a run at `now` fires, in deque order: every live timer up
   * to the first one that is not yet due, skipping stale indexes.
   */
  function Due(timers: map<Index, Timer>, s: seq<Index>, now: Instant): (r: seq<Index>)
    ensures |r| <= |s|
    ensures forall k :: k in r ==> k in s && k in timers && timers[k].next <= now
    decreases |s|
  {
    if s == [] then []
    else if s[0] !in timers then Due(timers, s[1..], now)
    else if timers[s[0]].next > now then []
    else [s[0]] + Due(timers, s[1..], now)
  }

  /** The timers after a run: each fired one is rescheduled from `now`, every other is untouched. */
  function Fire(timers: map<Index, Timer>, fired: seq<Index>, now: Instant): (r: map<Index, Timer>)
    ensures r.Keys == timers.Keys
    ensures forall k :: k in timers && k !in fired ==> r[k] == timers[k]
    ensures forall k :: k in timers && k in fired ==> r[k] == timers[k].(next := CalcNext(timers[k].schedule, now))
  {
    map k | k in timers :: if k in fired then timers[k].(next := CalcNext(timers[k].schedule, now)) else timers[k]
  }

  /** The head of a distinct deque does not occur in its tail, which is distinct too. */
  lemma DistinctTail(s: seq<Index>)
    requires Distinct(s) && s != []
    ensures Distinct(s[1..]) && s[0] !in s[1..]
  {
    assert s == [s[0]] + s[1..];
    assert multiset(s) == multiset{s[0]} + multiset(s[1..]);
    forall x ensures multiset(s[1..])[x] <= 1 {
      assert multiset(s)[x] <= 1;
    }
    assert multiset(s)[s[0]] <= 1;
  }

  /**
   * On a sorted deque, a run fires exactly the timers that are due, each
   * at most once, in order of their times.
   */
  lemma {:induction false} DueAreAllDue(timers: map<Index, Timer>, s: seq<Index>, now: Instant)
    requires Sorted(timers, s) && Distinct(s)
    ensures forall k :: k in Due(timers, s, now) <==> k in s && k in timers && timers[k].next <= now
    ensures Distinct(Due(timers, s, now))
    ensures Sorted(timers, Due(timers, s, now))
    decreases |s|
  {
    if s != [] {
      var tail := s[1..];
      assert s == [s[0]] + tail;
      SortedTail(timers, s);
      DistinctTail(s);
      DueAreAllDue(timers, tail, now);
      var d := Due(timers, tail, now);
      if s[0] !in timers {
      } else if timers[s[0]].next > now {
        forall k | k in s && k in timers ensures timers[k].next > now {
          var m :| 0 <= m < |s| && s[m] == k;
        }
      } else {
        assert s[0] !in d;
        assert multiset([s[0]] + d) == multiset{s[0]} + multiset(d);
        forall j | 0 <= j < |d| ensures KeyLe(Key(timers, s[0]), Key(timers, d[j])) {
          assert d[j] in tail;
          var m :| 0 <= m < |tail| && tail[m] == d[j];
          assert tail[m] == s[m + 1];
        }
        SortedCons(timers, s[0], d);
      }
    }
  }

  /** One step of the walk over the deque, as `run` takes it. */
  lemma DueStep(timers: map<Index, Timer>, s: seq<Index>, i: nat, now: Instant)
    requires i < |s|
    ensures s[i] !in timers ==> Due(timers, s[i..], now) == Due(timers, s[i + 1..], now)
    ensures s[i] in timers && timers[s[i]].next > now ==> Due(timers, s[i..], now) == []
    ensures s[i] in timers && timers[s[i]].next <= now ==>
      Due(timers, s[i..], now) == [s[i]] + Due(timers, s[i + 1..], now)
  {
    assert s[i..][1..] == s[i + 1..];
  }

  /** Firing one more timer reschedules it and nothing else. */
  lemma FireStep(timers: map<Index, Timer>, fired: seq<Index>, index: Index, now: Instant)
    requires index in timers && index !in fired
    ensures Fire(timers, fired + [index], now)
      == Fire(timers, fired, now)[index := timers[index].(next := CalcNext(timers[index].schedule, now))]
  {
  }

  /** A run that fires nothing leaves every timer as it was. */
  lemma FireNone(timers: map<Index, Timer>, now: Instant)
    ensures Fire(timers, [], now) == timers
  {
  }

  /**
   * The time `next_time` reports: that of the first live index, `None` if
   * there is none. Whether the deque is sorted or not, it is the time of
   * some live indexed timer, and there is none exactly when no entry is
   * live.
   */
  function FirstLiveNext(timers: map<Index, Timer>, s: seq<Index>): (r: Option<Instant>)
    ensures r.None? <==> forall k :: k in s ==> k !in timers
    ensures r.Some? ==> exists k :: k in s && k in timers && timers[k].next == r.value
    decreases |s|
  {
    if s == [] then None
    else if s[0] in timers then
      assert s[0] in s;
      Some(timers[s[0]].next)
    else
      var r := FirstLiveNext(timers, s[1..]);
      assert forall k :: k in s <==> k == s[0] || k in s[1..];
      r
  }

  /**
   * When the deque is sorted, the first live index holds the earliest
   * time of all indexed timers.
   */
  lemma {:induction false} FirstLiveNextIsEarliest(timers: map<Index, Timer>, s: seq<Index>)
    requires Sorted(timers, s)
    ensures FirstLiveNext(timers, s).Some? ==>
      forall k :: k in s && k in timers ==> FirstLiveNext(timers, s).value <= timers[k].next
    decreases |s|
  {
    if s != [] {
      var tail := s[1..];
      assert s == [s[0]] + tail;
      SortedTail(timers, s);
      if s[0] in timers {
        forall k | k in s && k in timers ensures timers[s[0]].next <= timers[k].next {
          var m :| 0 <= m < |s| && s[m] == k;
        }
      } else {
        FirstLiveNextIsEarliest(timers, tail);
      }
    }
  }

  /** A distinct deque indexing every timer is at least as long as the arena: the assertion `resort_and_clean` opens with. */
  lemma IndexedLength(timers: map<Index, Timer>, s: seq<Index>)
    requires Distinct(s) && timers.Keys <= Elems(s)
    ensures |s| >= |timers|
  {
    DistinctLength(s);
    SubsetCard(timers.Keys, Elems(s));
  }

  /** The sort keeps the deque distinct and indexing the same timers. */
  lemma SortKeepsIndexes(timers: map<Index, Timer>, s: seq<Index>)
    requires Distinct(s)
    ensures Distinct(SortByNext(timers, s)) && Sorted(timers, SortByNext(timers, s))
    ensures Elems(SortByNext(timers, s)) == Elems(s)
    ensures multiset(SortByNext(timers, s)) == multiset(s)
  {
    SortByNextSorted(timers, s);
    var sorted := SortByNext(timers, s);
    forall x ensures x in sorted <==> x in s {
      assert x in sorted <==> x in multiset(sorted);
    }
  }

  /**
   * Once the stale indexes at the front of a sorted deque are popped, what
   * remains indexes every timer exactly once and nothing else, and is as
   * long as the arena: the assertion `resort_and_clean` closes with.
   */
  lemma PoppedIsClean(timers: map<Index, Timer>, sorted: seq<Index>, k: nat)
    requires Sorted(timers, sorted) && Distinct(sorted) && timers.Keys <= Elems(sorted)
    requires k <= |sorted| && forall j :: 0 <= j < k ==> sorted[j] !in timers
    requires k < |sorted| ==> sorted[k] in timers
    ensures Elems(sorted[k..]) == timers.Keys
    ensures Sorted(timers, sorted[k..]) && Distinct(sorted[k..])
    ensures |sorted[k..]| == |timers|
    ensures multiset(sorted[k..]) <= multiset(sorted)
  {
    var rest := sorted[k..];
    DistinctParts(sorted, k);
    PoppedIndexesTimers(timers, sorted, k);
    PoppedSorted(timers, sorted, k);
    DistinctLength(rest);
  }

  /** The popped deque indexes exactly the timers: the stale ones all sat in front of the first live one. */
  lemma PoppedIndexesTimers(timers: map<Index, Timer>, sorted: seq<Index>, k: nat)
    requires Sorted(timers, sorted) && timers.Keys <= Elems(sorted)
    requires k <= |sorted| && forall j :: 0 <= j < k ==> sorted[j] !in timers
    requires k < |sorted| ==> sorted[k] in timers
    ensures Elems(sorted[k..]) == timers.Keys
  {
    var rest := sorted[k..];
    forall x | x in rest ensures x in timers {
      var m :| 0 <= m < |rest| && rest[m] == x;
      assert KeyLe(Key(timers, sorted[k]), Key(timers, sorted[k + m]));
    }
    forall x | x in timers ensures x in rest {
      assert x in sorted;
      var m :| 0 <= m < |sorted| && sorted[m] == x;
    }
  }

  /** A suffix of a sorted deque is sorted. */
  lemma PoppedSorted(timers: map<Index, Timer>, sorted: seq<Index>, k: nat)
    requires Sorted(timers, sorted) && k <= |sorted|
    ensures Sorted(timers, sorted[k..])
  {
    var rest := sorted[k..];
    forall i, j | 0 <= i < j < |rest| ensures KeyLe(Key(timers, rest[i]), Key(timers, rest[j])) {
      assert rest[i] == sorted[k + i] && rest[j] == sorted[k + j];
    }
  }

  /**
   * The whole of `resort_and_clean` on a deque indexing every timer once
   * with indexes below `bound`: sorting it and popping its `k` stale front
   * entries leaves a deque that indexes every timer exactly once, smallest
   * time first, still below `bound`, and as long as the arena.
   */
  lemma CleanAfterSort(timers: map<Index, Timer>, original: seq<Index>, bound: Index, k: nat)
    requires Distinct(original) && timers.Keys <= Elems(original)
    requires forall i :: i in original ==> i < bound
    requires k <= |SortByNext(timers, original)|
      && forall j :: 0 <= j < k ==> SortByNext(timers, original)[j] !in timers
    requires k < |SortByNext(timers, original)| ==> SortByNext(timers, original)[k] in timers
    ensures Elems(SortByNext(timers, original)[k..]) == timers.Keys
    ensures Sorted(timers, SortByNext(timers, original)[k..]) && Distinct(SortByNext(timers, original)[k..])
    ensures |SortByNext(timers, original)[k..]| == |timers|
    ensures forall i :: i in SortByNext(timers, original)[k..] ==> i < bound
    ensures multiset(SortByNext(timers, original)[k..]) <= multiset(original)
  {
    var sorted := SortByNext(timers, original);
    SortKeepsIndexes(timers, original);
    PoppedIsClean(timers, sorted, k);
    forall i | i in sorted[k..] ensures i < bound {
      assert i in Elems(sorted[k..]);
      assert i in Elems(original);
    }
  }

  /** `TimersState`: the deque `sortedByNext`, the arena `timers`, and the arena's next fresh index. */
  class TimersState {
    var sortedByNext: seq<Index>
    var timers: map<Index, Timer>
    var nextIndex: Index

    /** What `resort_and_clean` needs: every timer is indexed once, and every index was handed out by the arena. */
    ghost predicate Indexed()
      reads this
    {
      Distinct(sortedByNext)
      && timers.Keys <= Elems(sortedByNext)
      && (forall i :: i in sortedByNext ==> i < nextIndex)
    }

    /** Smallest time first, stale indexes (which sort first) allowed: what `next_time` and `run` rely on. */
    ghost predicate Ordered()
      reads this
    {
      Indexed() && Sorted(timers, sortedByNext)
    }

    /** After `resort_and_clean`: ordered, and no stale index. */
    ghost predicate Valid()
      reads this
    {
      Ordered() && Elems(sortedByNext) == timers.Keys
    }

    /** `TimersState::new` */
    constructor ()
      ensures Valid()
      ensures sortedByNext == [] && timers == map[]
    {
      sortedByNext := [];
      timers := map[];
      nextIndex := 0;
    }

    /**
     * `resort_and_clean`: after the sort, stale indexes (key `None`) come
     * first and are popped; what remains indexes every timer exactly once,
     * smallest time first, so the deque is as long as the arena.
     */
    method ResortAndClean()
      requires Indexed()
      modifies this`sortedByNext
      ensures Valid()
      ensures |sortedByNext| == |timers|
      ensures multiset(sortedByNext) <= multiset(old(sortedByNext))
    {
      ghost var original := sortedByNext;
      IndexedLength(timers, sortedByNext);
      assert |sortedByNext| >= |timers|;
      sortedByNext := SortByNext(timers, sortedByNext);
      ghost var sorted := sortedByNext;
      ghost var k := 0;
      while sortedByNext != [] && sortedByNext[0] !in timers
        invariant 0 <= k <= |sorted| && sortedByNext == sorted[k..]
        invariant forall j :: 0 <= j < k ==> sorted[j] !in timers
        decreases |sortedByNext|
      {
        sortedByNext := sortedByNext[1..];
        k := k + 1;
      }
      CleanAfterSort(timers, original, nextIndex, k);
    }

    /** `add`: the timer gets a fresh index, is pushed to the front of the deque, and the deque is re-sorted. */
    method Add(timer: Timer) returns (key: TimerKey)
      requires Valid()
      modifies this
      ensures Valid()
      ensures key.index !in old(timers) && timers == old(timers)[key.index := timer]
      ensures |timers| == |old(timers)| + 1
    {
      var index := nextIndex;
      assert index !in sortedByNext;
      timers := timers[index := timer];
      nextIndex := nextIndex + 1;
      sortedByNext := [index] + sortedByNext;
      assert multiset(sortedByNext) == multiset{index} + multiset(old(sortedByNext));
      ResortAndClean();
      key := TimerKey(index);
    }

    /** `schedule_every`: a timer due right away (`now` is `Instant::now()`) and every `duration` after that. */
    method ScheduleEvery(duration: nat, callback: Callback, now: Instant) returns (key: TimerKey)
      requires Valid()
      modifies this
      ensures Valid()
      ensures key.index !in old(timers) && timers == old(timers)[key.index := Timer(now, callback, Every(duration))]
      ensures FirstLiveNext(timers, sortedByNext).Some? && FirstLiveNext(timers, sortedByNext).value <= now
    {
      key := Add(Timer(now, callback, Every(duration)));
      assert key.index in Elems(sortedByNext);
      FirstLiveNextIsEarliest(timers, sortedByNext);
    }

    /**
     * `next_time`: the time of the first index that still names a timer.
     * Between operations it is the earliest time of all timers, and `None`
     * only when there are none.
     */
    method NextTime() returns (r: Option<Instant>)
      requires Ordered()
      ensures r == FirstLiveNext(timers, sortedByNext)
      ensures r.None? <==> timers == map[]
      ensures r.Some? ==>
        (exists k :: k in timers && timers[k].next == r.value)
        && forall k :: k in timers ==> r.value <= timers[k].next
    {
      var i := 0;
      while i < |sortedByNext|
        invariant 0 <= i <= |sortedByNext|
        invariant FirstLiveNext(timers, sortedByNext[i..]) == FirstLiveNext(timers, sortedByNext)
      {
        assert sortedByNext[i..][1..] == sortedByNext[i + 1..];
        if sortedByNext[i] in timers {
          r := Some(timers[sortedByNext[i]].next);
          FirstLiveNextIsEarliest(timers, sortedByNext);
          return;
        }
        i := i + 1;
      }
      r := None;
      FirstLiveNextIsEarliest(timers, sortedByNext);
    }

    /**
     * `run`: walks the deque in order, skipping stale indexes, and stops at
     * the first timer that is not due; every timer passed is called and
     * rescheduled from `now`. The deque is re-sorted only if some timer
     * fired. `fired` lists the timers whose callbacks ran, in order.
     */
    method Run(now: Instant) returns (fired: seq<Index>)
      requires Ordered()
      modifies this`timers, this`sortedByNext
      ensures Ordered() && (fired != [] ==> Valid())
      ensures fired == Due(old(timers), old(sortedByNext), now)
      ensures timers == Fire(old(timers), fired, now)
      ensures fired == [] ==> sortedByNext == old(sortedByNext)
    {
      fired := CallDue(now);
      if fired != [] {
        ResortAndClean();
      } else {
        FireNone(old(timers), now);
      }
    }

    /**
     * The loop of `run`: walks the deque in order, skipping stale indexes,
     * up to the first timer that is not due, calling and rescheduling each
     * timer it passes.
     */
    method CallDue(now: Instant) returns (fired: seq<Index>)
      requires Distinct(sortedByNext)
      modifies this`timers
      ensures fired == Due(old(timers), sortedByNext, now)
      ensures timers == Fire(old(timers), fired, now)
      ensures timers.Keys == old(timers).Keys
    {
      ghost var original := timers;
      var s := sortedByNext;
      fired := [];
      FireNone(original, now);
      var i := 0;
      while i < |s|
        invariant 0 <= i <= |s|
        invariant fired + Due(original, s[i..], now) == Due(original, s, now)
        invariant forall x :: x in fired ==> x in s[..i]
        invariant timers == Fire(original, fired, now)
      {
        DistinctParts(s, i);
        DueStep(original, s, i, now);
        var index := s[i];
        if index !in timers {
          i := i + 1;
          continue;
        }
        assert index !in fired;
        if timers[index].next > now {
          break;
        }
        FireStep(original, fired, index, now);
        fired := fired + [index];
        timers := timers[index := timers[index].(next := CalcNext(timers[index].schedule, now))];
        i := i + 1;
        assert s[..i] == s[..i - 1] + [index];
      }
      assert i == |s| ==> s[i..] == [];
    }
  }

  /** Cardinality is monotone under subset. */
  lemma SubsetCard(a: set<Index>, b: set<Index>)
    requires a <= b
    ensures |a| <= |b|
  {
    assert b == a + (b - a);
  }

  /**
   * Two runs at the same instant: with positive intervals, every timer the
   * first run fires is rescheduled into the future, so the second fires
   * nothing, and the first fired exactly the timers that were due.
   */
  method RunTwice(state: TimersState, now: Instant) returns (first: seq<Index>, second: seq<Index>)
    requires state.Valid()
    requires forall k :: k in state.timers ==> state.timers[k].schedule.duration > 0
    modifies state
    ensures forall k :: k in first <==> k in old(state.timers) && old(state.timers)[k].next <= now
    ensures second == []
  {
    DueAreAllDue(state.timers, state.sortedByNext, now);
    first := state.Run(now);
    DueAreAllDue(state.timers, state.sortedByNext, now);
    second := state.Run(now);
    if second != [] {
      assert second[0] in second;
    }
  }
}
