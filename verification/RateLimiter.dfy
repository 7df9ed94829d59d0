/** market/market_http_api_v1.py, lines 319-344: the pruned sliding-window limiter, against
    one that remembers every accepted event for ever, on any readings of the clock. */
module RateLimiter {
  type Key = (string, string)
  type Table = map<Key, seq<real>>

  const MAX_KEYS: nat := 10_000
  const CLEANUP_KEYS: nat := 1000

  /** The events after a cutoff, in order. */
  function After(events: seq<real>, cutoff: real): (r: seq<real>)
    ensures forall t :: t in r ==> t in events && t > cutoff
  {
    if events == [] then []
    else
      var front, last := After(events[..|events| - 1], cutoff), events[|events| - 1];
      if last > cutoff then front + [last] else front
  }

  lemma AfterSnoc(events: seq<real>, t: real, cutoff: real)
    ensures After(events + [t], cutoff) == After(events, cutoff) + (if t > cutoff then [t] else [])
    ensures After([], cutoff) == []
  {
    assert (events + [t])[..|events|] == events;
  }

  function At(table: Table, key: Key): seq<real> {
    if key in table then table[key] else []
  }

  // ---- what ever happened ----

  /** An accepted event, and the latest cutoff its key was pruned with since. */
  datatype Event = Event(time: real, floor: real)

  type Log = map<Key, seq<Event>>

  function LogAt(log: Log, key: Key): seq<Event> {
    if key in log then log[key] else []
  }

  /** Every accepted event of a key: the full history. */
  function Times(log: seq<Event>): seq<real> {
    seq(|log|, i requires 0 <= i < |log| => log[i].time)
  }

  /** Pruning a key with a cutoff. */
  function Raised(log: seq<Event>, cutoff: real): (r: seq<Event>)
    ensures |r| == |log|
  {
    seq(|log|, i requires 0 <= i < |log| => log[i].(floor := if log[i].floor < cutoff then cutoff else log[i].floor))
  }

  /** The events that every pruning so far has left. */
  function Remaining(log: seq<Event>): seq<real> {
    if log == [] then []
    else
      var front, last := Remaining(log[..|log| - 1]), log[|log| - 1];
      if last.time > last.floor then front + [last.time] else front
  }

  /** The positions of the events in a window, and of those of them that are left. */
  ghost function Within(events: seq<real>, cutoff: real): set<nat> {
    set i: nat | i < |events| && events[i] > cutoff
  }

  ghost function Left(log: seq<Event>, cutoff: real): set<nat> {
    set i: nat | i < |log| && log[i].time > cutoff && log[i].time > log[i].floor
  }

  lemma {:induction false} PruningRaises(log: seq<Event>, cutoff: real)
    ensures After(Remaining(log), cutoff) == Remaining(Raised(log, cutoff))
    ensures Times(Raised(log, cutoff)) == Times(log)
  {
    assert Times(Raised(log, cutoff)) == Times(log);
    if log != [] {
      var front, last := log[..|log| - 1], log[|log| - 1];
      PruningRaises(front, cutoff);
      AfterSnoc(Remaining(front), last.time, cutoff);
      assert Raised(log, cutoff)[..|log| - 1] == Raised(front, cutoff);
    }
  }

  /** The filtered list has one entry for each event of the window that is left, repeated
      times included. */
  lemma {:induction false} RemainingCounts(log: seq<Event>, cutoff: real)
    ensures |After(Remaining(log), cutoff)| == |Left(log, cutoff)|
  {
    if log == [] {
      assert Left(log, cutoff) == {};
    } else {
      var front, last := log[..|log| - 1], log[|log| - 1];
      RemainingCounts(front, cutoff);
      AfterSnoc(Remaining(front), last.time, cutoff);
      LeftSnoc(front, last, cutoff);
      assert log == front + [last];
      hide After, Left;
    }
  }

  lemma LeftSnoc(log: seq<Event>, e: Event, cutoff: real)
    ensures |Left(log + [e], cutoff)| == |Left(log, cutoff)| + (if e.time > cutoff && e.time > e.floor then 1 else 0)
  {
    if e.time > cutoff && e.time > e.floor {
      assert Left(log + [e], cutoff) == Left(log, cutoff) + {|log|};
    } else {
      assert Left(log + [e], cutoff) == Left(log, cutoff);
    }
  }

  lemma RemainingSnoc(log: seq<Event>, e: Event)
    requires e.time > e.floor
    ensures Remaining(log + [e]) == Remaining(log) + [e.time]
    ensures Times(log + [e]) == Times(log) + [e.time]
  {
    assert (log + [e])[..|log|] == log;
  }

  /** Pruning only takes events away from a window; from one no later pruning reached into,
      none. */
  lemma LeftOfHistory(log: seq<Event>, cutoff: real)
    ensures Left(log, cutoff) <= Within(Times(log), cutoff)
    ensures |Left(log, cutoff)| <= |Within(Times(log), cutoff)|
    ensures PrunedBy(log, cutoff) ==> Left(log, cutoff) == Within(Times(log), cutoff)
  {
    var some, all := Left(log, cutoff), Within(Times(log), cutoff);
    assert some <= all;
    assert all == some + (all - some);
  }

  predicate PrunedBy(log: seq<Event>, cutoff: real) {
    forall i :: 0 <= i < |log| ==> log[i].floor <= cutoff
  }

  /** The limiter's answer, from the events left of the window. */
  ghost predicate Admits(log: seq<Event>, cutoff: real, limit: int) {
    |Left(log, cutoff)| < limit
  }

  /** The answer of a limiter that never forgets. */
  ghost predicate HistoryAdmits(log: seq<Event>, cutoff: real, limit: int) {
    |Within(Times(log), cutoff)| < limit
  }

  /** When the two answers agree: exactly when the history admits, or refuses on the events
      left alone. They always do in a window that no pruning reached into, and where they
      differ it is the limiter that admits. */
  lemma AnswersAgreeIff(log: seq<Event>, cutoff: real, limit: int)
    ensures (Admits(log, cutoff, limit) <==> HistoryAdmits(log, cutoff, limit))
       <==> |Within(Times(log), cutoff)| < limit || |Left(log, cutoff)| >= limit
    ensures PrunedBy(log, cutoff) ==> (Admits(log, cutoff, limit) <==> HistoryAdmits(log, cutoff, limit))
    ensures HistoryAdmits(log, cutoff, limit) ==> Admits(log, cutoff, limit)
  {
    hide Left, Within;
    LeftOfHistory(log, cutoff);
  }

  // ---- the dictionary ----

  ghost predicate Distinct(keys: seq<Key>) {
    forall i, j :: 0 <= i < j < |keys| ==> keys[i] != keys[j]
  }

  /** A dictionary's key order after an assignment, and after some keys are popped. */
  function Placed(order: seq<Key>, key: Key): seq<Key> {
    if key in order then order else order + [key]
  }

  function Staying(order: seq<Key>, keys: set<Key>): (r: seq<Key>)
    ensures forall k :: k in r <==> k in order && k in keys
  {
    if order == [] then []
    else
      var front, last := order[..|order| - 1], order[|order| - 1];
      assert order == front + [last];
      if last in keys then Staying(front, keys) + [last] else Staying(front, keys)
  }

  lemma StayingSnoc(order: seq<Key>, key: Key, s: set<Key>)
    ensures Staying(order + [key], s) == Staying(order, s) + (if key in s then [key] else [])
  {
    assert (order + [key])[..|order|] == order;
  }

  lemma {:induction false} StayingDistinct(order: seq<Key>, s: set<Key>)
    requires Distinct(order)
    ensures Distinct(Staying(order, s))
  {
    if order != [] {
      var front, last := order[..|order| - 1], order[|order| - 1];
      StayingDistinct(front, s);
      assert last !in front && last !in Staying(front, s);
    }
  }

  lemma {:induction false} StayingTwice(order: seq<Key>, s: set<Key>, t: set<Key>)
    requires t <= s
    ensures Staying(Staying(order, s), t) == Staying(order, t)
  {
    if order != [] {
      var front, last := order[..|order| - 1], order[|order| - 1];
      StayingTwice(front, s, t);
      StayingSnoc(Staying(front, s), last, t);
    }
  }

  lemma {:induction false} StayingAll(order: seq<Key>, s: set<Key>)
    requires forall k :: k in order ==> k in s
    ensures Staying(order, s) == order
  {
    if order != [] {
      StayingAll(order[..|order| - 1], s);
      assert order == order[..|order| - 1] + [order[|order| - 1]];
    }
  }

  function Oldest(order: seq<Key>): seq<Key> {
    if |order| <= CLEANUP_KEYS then order else order[..CLEANUP_KEYS]
  }

  ghost function KeySet(keys: seq<Key>, n: nat): set<Key>
    requires n <= |keys|
  {
    set i: nat | i < n :: keys[i]
  }

  /** The table after some keys were swept: pruned, and dropped when nothing is left. */
  ghost function Swept(events: Table, keys: set<Key>, cutoff: real): Table {
    map k | k in events && (k in keys ==> After(events[k], cutoff) != []) ::
      if k in keys then After(events[k], cutoff) else events[k]
  }

  ghost function SweptLog(log: Log, keys: set<Key>, cutoff: real): Log {
    map k | k in log :: if k in keys then Raised(log[k], cutoff) else log[k]
  }

  lemma SweepOne(events: Table, keys: set<Key>, key: Key, cutoff: real)
    requires key in events && key !in keys
    ensures key in Swept(events, keys, cutoff) && Swept(events, keys, cutoff)[key] == events[key]
    ensures Swept(events, keys + {key}, cutoff)
         == if After(events[key], cutoff) != [] then Swept(events, keys, cutoff)[key := After(events[key], cutoff)]
            else Swept(events, keys, cutoff) - {key}
  {
    hide After;
  }

  // ---- the limiter ----

  ghost predicate Mirrors(events: Table, log: Log) {
    forall k :: At(events, k) == Remaining(LogAt(log, k))
  }

  ghost predicate AllPrunedBy(log: Log, cutoff: real) {
    forall k :: PrunedBy(LogAt(log, k), cutoff)
  }

  /** One accepted or refused call for a key, before any sweep. */
  ghost function Called(log: Log, key: Key, now: real, cutoff: real, ok: bool): Log {
    log[key := Raised(LogAt(log, key), cutoff) + (if ok then [Event(now, cutoff)] else [])]
  }

  function Pruned(events: Table, key: Key, now: real, cutoff: real, ok: bool): Table {
    events[key := After(At(events, key), cutoff) + (if ok then [now] else [])]
  }

  lemma CallMirrors(events: Table, log: Log, key: Key, now: real, cutoff: real, ok: bool)
    requires Mirrors(events, log) && now > cutoff
    ensures Mirrors(Pruned(events, key, now, cutoff, ok), Called(log, key, now, cutoff, ok))
  {
    hide After, Remaining, Raised;
    var e, l := Pruned(events, key, now, cutoff, ok), Called(log, key, now, cutoff, ok);
    forall k ensures At(e, k) == Remaining(LogAt(l, k)) {
      assert At(events, k) == Remaining(LogAt(log, k));
      if k == key {
        PruningRaises(LogAt(log, key), cutoff);
        RemainingSnoc(Raised(LogAt(log, key), cutoff), Event(now, cutoff));
        assert Raised(LogAt(log, key), cutoff) + [] == Raised(LogAt(log, key), cutoff);
        assert After(At(events, key), cutoff) + [] == After(At(events, key), cutoff);
      }
    }
  }

  lemma CallPrunedBy(log: Log, key: Key, now: real, cutoff: real, ok: bool, latest: real)
    requires AllPrunedBy(log, latest) && cutoff <= latest
    ensures AllPrunedBy(Called(log, key, now, cutoff, ok), latest)
  {
    var l := Called(log, key, now, cutoff, ok);
    forall k ensures PrunedBy(LogAt(l, k), latest) {
      assert PrunedBy(LogAt(log, k), latest);
    }
  }

  lemma SweepMirrors(events: Table, log: Log, keys: set<Key>, cutoff: real)
    requires Mirrors(events, log)
    ensures Mirrors(Swept(events, keys, cutoff), SweptLog(log, keys, cutoff))
  {
    hide After, Remaining, Raised;
    var e, l := Swept(events, keys, cutoff), SweptLog(log, keys, cutoff);
    forall k ensures At(e, k) == Remaining(LogAt(l, k)) {
      assert At(events, k) == Remaining(LogAt(log, k));
      PruningRaises(LogAt(log, k), cutoff);
      NothingRaised(cutoff);
    }
  }

  lemma NothingRaised(cutoff: real)
    ensures Remaining([]) == [] && After([], cutoff) == [] && Raised([], cutoff) == []
  {
  }

  lemma SweepPrunedBy(log: Log, keys: set<Key>, cutoff: real, latest: real)
    requires AllPrunedBy(log, latest) && cutoff <= latest
    ensures AllPrunedBy(SweptLog(log, keys, cutoff), latest)
  {
    var l := SweptLog(log, keys, cutoff);
    forall k ensures PrunedBy(LogAt(l, k), latest) {
      assert PrunedBy(LogAt(log, k), latest);
    }
  }

  class SlidingWindowLimiter {
    const window: real
    /** The dictionary: its entries, and its keys in insertion order. */
    var events: Table
    var order: seq<Key>
    /** Every event ever accepted, and the latest time read from the clock. */
    ghost var log: Log
    ghost var clock: real

    /** The table holds exactly the events that the prunings have left. */
    ghost predicate Valid()
      reads this
    {
      && window > 0.0
      && Distinct(order)
      && (forall k :: k in order <==> k in events)
      && Mirrors(events, log)
      && AllPrunedBy(log, clock - window)
    }

    constructor (window: real)
      requires window > 0.0
      ensures Valid() && this.window == window && events == map[] && order == [] && log == map[] && clock == 0.0
    {
      this.window, events, order, log, clock := window, map[], [], map[], 0.0;
    }

    /** allow, on any reading of the clock. The answer is what the events left of the window
        admit; it agrees with the full history exactly when AnswersAgreeIff says, which is
        always while the clock has not run backwards. */
    method Allow(key: Key, limit: int, now: real) returns (ok: bool)
      requires Valid()
      modifies this
      ensures Valid() && clock == if old(clock) <= now then now else old(clock)
      ensures ok <==> Admits(LogAt(old(log), key), now - window, limit)
      ensures old(clock) <= now ==> (ok <==> HistoryAdmits(LogAt(old(log), key), now - window, limit))
      ensures HistoryAdmits(LogAt(old(log), key), now - window, limit) ==> ok
      ensures var cutoff := now - window;
              var put, called := Pruned(old(events), key, now, cutoff, ok), Called(old(log), key, now, cutoff, ok);
              var placed := Placed(old(order), key);
              if ok && |put| > MAX_KEYS then
                var keys := KeySet(Oldest(placed), |Oldest(placed)|);
                events == Swept(put, keys, cutoff) && log == SweptLog(called, keys, cutoff) && order == Staying(placed, events.Keys)
              else
                events == put && log == called && order == placed
    {
      hide After, Remaining, Left, Within, Raised, Swept, SweptLog, Mirrors, AllPrunedBy;
      var cutoff := now - window;
      EntryOf(events, log, key);
      RemainingCounts(LogAt(log, key), cutoff);
      AnswersAgreeIff(LogAt(log, key), cutoff, limit);
      OnePruned(log, key, clock - window, cutoff);
      var recent := After(At(events, key), cutoff);
      ok := |recent| < limit;
      CallMirrors(events, log, key, now, cutoff, ok);
      LaterPruned(log, clock - window, if clock <= now then cutoff else clock - window);
      CallPrunedBy(log, key, now, cutoff, ok, if clock <= now then cutoff else clock - window);
      log := Called(log, key, now, cutoff, ok);
      if clock <= now {
        clock := now;
      }
      if |recent| >= limit {
        assert recent + [] == recent;
        Put(key, recent);
        return false;
      }
      Put(key, recent + [now]);
      if |events| > MAX_KEYS {
        Cleanup(cutoff);
      }
      return true;
    }

    /** Assignment to one entry of the dictionary: an old key keeps its place. */
    method Put(key: Key, recent: seq<real>)
      requires Distinct(order) && forall k :: k in order <==> k in events
      modifies this`events, this`order
      ensures events == old(events)[key := recent] && order == Placed(old(order), key)
      ensures Distinct(order) && forall k :: k in order <==> k in events
    {
      if key !in events {
        order := order + [key];
      }
      events := events[key := recent];
    }

    /** Popping one entry. */
    method Drop(key: Key, ghost was: seq<Key>)
      requires order == Staying(was, events.Keys)
      modifies this`events, this`order
      ensures events == old(events) - {key} && order == Staying(was, events.Keys)
    {
      StayingTwice(was, events.Keys, events.Keys - {key});
      assert (events - {key}).Keys == events.Keys - {key};
      events := events - {key};
      order := Staying(order, events.Keys);
    }

    /** The opportunistic sweep over the first keys of the dictionary. */
    method Cleanup(cutoff: real)
      requires Valid() && cutoff <= clock - window
      modifies this`events, this`order, this`log
      ensures Valid()
      ensures var keys := KeySet(Oldest(old(order)), |Oldest(old(order))|);
              && events == Swept(old(events), keys, cutoff)
              && log == SweptLog(old(log), keys, cutoff)
              && order == Staying(old(order), events.Keys)
    {
      hide After, Swept, SweptLog, Mirrors, AllPrunedBy, KeySet, Staying;
      var stale := Oldest(order);
      OldestOf(order);
      Sweep(stale, cutoff);
      StayingDistinct(old(order), events.Keys);
      ghost var keys := KeySet(stale, |stale|);
      SweptKeys(old(events), keys, cutoff);
      SweepMirrors(old(events), log, keys, cutoff);
      SweepPrunedBy(log, keys, cutoff, clock - window);
      log := SweptLog(log, keys, cutoff);
    }

    /** The sweep itself: prune each key, and pop it when nothing is left. */
    method Sweep(stale: seq<Key>, cutoff: real)
      requires Distinct(order) && (forall k :: k in order <==> k in events)
      requires Distinct(stale) && forall k :: k in stale ==> k in events
      modifies this`events, this`order
      ensures events == Swept(old(events), KeySet(stale, |stale|), cutoff)
      ensures order == Staying(old(order), events.Keys)
    {
      hide After, Swept, KeySet, Staying;
      NothingSwept(events, cutoff);
      StayingAll(order, events.Keys);
      NoKeys(stale);
      for i := 0 to |stale|
        invariant events == Swept(old(events), KeySet(stale, i), cutoff)
        invariant order == Staying(old(order), events.Keys)
      {
        var key := stale[i];
        OneMoreKey(stale, i);
        SweepOne(old(events), KeySet(stale, i), key, cutoff);
        var vals := After(events[key], cutoff);
        if vals != [] {
          assert events.Keys == events[key := vals].Keys;
          events := events[key := vals];
        } else {
          Drop(key, old(order));
        }
      }
    }
  }

  lemma OldestOf(order: seq<Key>)
    requires Distinct(order)
    ensures Distinct(Oldest(order)) && forall k :: k in Oldest(order) ==> k in order
  {
  }

  lemma NoKeys(keys: seq<Key>)
    ensures KeySet(keys, 0) == {}
  {
  }

  lemma OneMoreKey(keys: seq<Key>, i: nat)
    requires Distinct(keys) && i < |keys|
    ensures keys[i] !in KeySet(keys, i) && KeySet(keys, i + 1) == KeySet(keys, i) + {keys[i]}
  {
  }

  lemma EntryOf(events: Table, log: Log, key: Key)
    requires Mirrors(events, log)
    ensures At(events, key) == Remaining(LogAt(log, key))
  {
  }

  lemma OnePruned(log: Log, key: Key, latest: real, cutoff: real)
    requires AllPrunedBy(log, latest)
    ensures latest <= cutoff ==> PrunedBy(LogAt(log, key), cutoff)
  {
  }

  lemma LaterPruned(log: Log, latest: real, cutoff: real)
    requires AllPrunedBy(log, latest) && latest <= cutoff
    ensures AllPrunedBy(log, cutoff)
  {
    forall k ensures PrunedBy(LogAt(log, k), cutoff) {
      assert PrunedBy(LogAt(log, k), latest);
    }
  }

  lemma NothingSwept(events: Table, cutoff: real)
    ensures Swept(events, {}, cutoff) == events
  {
  }

  lemma SweptKeys(events: Table, keys: set<Key>, cutoff: real)
    ensures Swept(events, keys, cutoff).Keys <= events.Keys
  {
  }

  /** The answers can differ: with a window of 60 and a limit of 2, the call at 80 prunes the
      event at 10, so that the call at 30 counts one event where the history has two. */
  method ClockRunsBack(key: Key) returns (answers: (bool, bool, bool), ghost log: seq<Event>)
    ensures answers == (true, true, true)
    ensures Times(log) == [10.0, 80.0] && !HistoryAdmits(log, 30.0 - 60.0, 2)
  {
    hide Remaining, Left, Within, Raised, Swept, SweptLog;
    var limiter := new SlidingWindowLimiter(60.0);
    CountsOf([], 10.0 - 60.0);
    var first := limiter.Allow(key, 2, 10.0);
    FirstLog(limiter.log, key);
    var second := limiter.Allow(key, 2, 80.0);
    SecondLog(limiter.log, key);
    log := LogAt(limiter.log, key);
    var third := limiter.Allow(key, 2, 30.0);
    answers := (first, second, third);
  }

  lemma CountsOf(log: seq<Event>, cutoff: real)
    ensures |Left(log, cutoff)| <= |log|
  {
    RemainingCounts(log, cutoff);
    RemainingIsShorter(log);
    AfterIsShorter(Remaining(log), cutoff);
  }

  lemma {:induction false} RemainingIsShorter(log: seq<Event>)
    ensures |Remaining(log)| <= |log|
  {
    if log != [] {
      RemainingIsShorter(log[..|log| - 1]);
    }
  }

  lemma {:induction false} AfterIsShorter(events: seq<real>, cutoff: real)
    ensures |After(events, cutoff)| <= |events|
  {
    if events != [] {
      AfterIsShorter(events[..|events| - 1], cutoff);
    }
  }

  lemma FirstLog(log: Log, key: Key)
    ensures log == Called(map[], key, 10.0, 10.0 - 60.0, true) ==>
              LogAt(log, key) == [Event(10.0, -50.0)] && |Left(LogAt(log, key), 20.0)| < 2
  {
    CountsOf([Event(10.0, -50.0)], 20.0);
  }

  lemma SecondLog(log: Log, key: Key)
    ensures (LogAt(log, key) == Raised([Event(10.0, -50.0)], 80.0 - 60.0) + [Event(80.0, 80.0 - 60.0)]) ==>
              && Times(LogAt(log, key)) == [10.0, 80.0]
              && |Left(LogAt(log, key), 30.0 - 60.0)| == 1
              && |Within(Times(LogAt(log, key)), 30.0 - 60.0)| == 2
  {
    var l := [Event(10.0, 20.0), Event(80.0, 20.0)];
    assert Raised([Event(10.0, -50.0)], 20.0) + [Event(80.0, 20.0)] == l;
    assert Times(l) == [10.0, 80.0];
    assert Left(l, -30.0) == {1};
    assert Within([10.0, 80.0], -30.0) == {0, 1};
  }
}
