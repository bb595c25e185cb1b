/** The sliding-window rate limiter, in memory and as a sorted set (guardcore/ratelimit.go:68-84, 132-146,
    167-239, 444-472). */
module RateLimit {
  import opened Texts

  const MAX_TRACKED_KEYS: nat := 10000

  // ---------------------------------------------------------------- the store of recently used keys

  /** The map and the order of use; a key that is used again is appended once more. */
  datatype Store<V> = Store(items: map<string, V>, order: seq<string>)

  /** Every tracked key occurs in the order. */
  predicate Ordered<V>(s: Store<V>) {
    forall key :: key in s.items ==> key in s.order
  }

  function MakeRoom<V>(s: Store<V>, cap: nat): Store<V>
    requires Ordered(s)
  {
    if |s.items| < cap || s.order == [] then s else Store(s.items - {s.order[0]}, s.order[1..])
  }

  function Touch<V>(s: Store<V>, key: string, initial: V, cap: nat): Store<V>
    requires Ordered(s)
  {
    if key in s.items then Store(s.items, s.order + [key])
    else
      var room := MakeRoom(s, cap);
      Store(room.items[key := initial], room.order + [key])
  }

  function Put<V>(s: Store<V>, key: string, value: V, cap: nat): Store<V>
    requires Ordered(s)
  {
    if key in s.items then s.(items := s.items[key := value])
    else
      var room := MakeRoom(s, cap);
      Store(room.items[key := value], room.order + [key])
  }

  lemma MakeRoomOrdered<V>(s: Store<V>, cap: nat)
    requires Ordered(s)
    ensures Ordered(MakeRoom(s, cap))
  {
    if |s.items| >= cap && s.order != [] {
      forall key | key in s.items - {s.order[0]} ensures key in s.order[1..] {
        var k :| 0 <= k < |s.order| && s.order[k] == key;
        assert s.order[1..][k - 1] == key;
      }
    }
  }

  lemma TouchOrdered<V>(s: Store<V>, key: string, initial: V, cap: nat)
    requires Ordered(s)
    ensures Ordered(Touch(s, key, initial, cap)) && key in Touch(s, key, initial, cap).items
  {
    MakeRoomOrdered(s, cap);
    var room := MakeRoom(s, cap);
    var t := Touch(s, key, initial, cap);
    assert t.order[|t.order| - 1] == key;
    forall k | k in t.items ensures k in t.order {
      if k != key {
        assert k in if key in s.items then s.order else room.order;
      }
    }
  }

  lemma PutOrdered<V>(s: Store<V>, key: string, value: V, cap: nat)
    requires Ordered(s)
    ensures Ordered(Put(s, key, value, cap))
  {
    MakeRoomOrdered(s, cap);
    var room := MakeRoom(s, cap);
    var t := Put(s, key, value, cap);
    forall k | k in t.items ensures k in t.order {
      if key !in s.items {
        assert t.order[|t.order| - 1] == key;
        assert k != key ==> k in room.order;
      }
    }
  }

  class LruStore<V(0)> {
    var items: map<string, V>
    var order: seq<string>

    ghost predicate Valid()
      reads this
    {
      Ordered(Abstract())
    }

    function Abstract(): Store<V>
      reads this
    {
      Store(items, order)
    }

    constructor ()
      ensures Valid() && Abstract() == Store(map[], [])
    {
      items, order := map[], [];
    }

    method GetOrCreate(key: string, initial: V) returns (v: V)
      requires Valid()
      modifies this
      ensures Valid() && Abstract() == Touch(old(Abstract()), key, initial, MAX_TRACKED_KEYS)
      ensures key in items && items[key] == v
    {
      TouchOrdered(Abstract(), key, initial, MAX_TRACKED_KEYS);
      if key in items {
        v := items[key];
        ghost var before := items;
        items := items - {key};
        order := order + [key];
        items := items[key := v];
        assert items == before;
        return;
      }
      if |items| >= MAX_TRACKED_KEYS {
        SomeOrder(Abstract());
        var victim := order[0];
        order := order[1..];
        items := items - {victim};
      }
      v := initial;
      items := items[key := v];
      order := order + [key];
    }

    method Set(key: string, v: V)
      requires Valid()
      modifies this
      ensures Valid() && Abstract() == Put(old(Abstract()), key, v, MAX_TRACKED_KEYS)
    {
      PutOrdered(Abstract(), key, v, MAX_TRACKED_KEYS);
      if key !in items {
        if |items| >= MAX_TRACKED_KEYS {
          SomeOrder(Abstract());
          var victim := order[0];
          order := order[1..];
          items := items - {victim};
        }
        order := order + [key];
      }
      items := items[key := v];
    }

    method Clear()
      modifies this
      ensures Valid() && Abstract() == Store(map[], [])
    {
      items := map[];
      order := [];
    }
  }

  /** A full store has an order to take its victim from. */
  lemma SomeOrder<V>(s: Store<V>)
    requires Ordered(s) && s.items != map[]
    ensures s.order != []
  {
    var key :| key in s.items;
    assert key in s.order;
  }

  // ---------------------------------------------------------------- one window

  /** The leading timestamps that have left the window are dropped. */
  function Prune(times: seq<real>, windowStart: real): seq<real> {
    if times != [] && times[0] <= windowStart then Prune(times[1..], windowStart) else times
  }

  method InMemoryRequestCount(store: LruStore<seq<real>>, key: string, windowStart: real, currentTime: real)
    returns (count: nat)
    requires store.Valid()
    modifies store
    ensures store.Valid()
    ensures store.Abstract() == Attempt(old(store.Abstract()), key, windowStart, currentTime, MAX_TRACKED_KEYS)
    ensures count == |Prune(if key in old(store.items) then old(store.items)[key] else [], windowStart)|
  {
    TouchOrdered(store.Abstract(), key, [], MAX_TRACKED_KEYS);
    var timestamps := store.GetOrCreate(key, []);
    var i := 0;
    while i < |timestamps| && timestamps[i] <= windowStart
      invariant i <= |timestamps| && Prune(timestamps, windowStart) == Prune(timestamps[i..], windowStart)
    {
      assert timestamps[i..][1..] == timestamps[i + 1..];
      i := i + 1;
    }
    timestamps := timestamps[i..];
    count := |timestamps|;
    timestamps := timestamps + [currentTime];
    store.Set(key, timestamps);
  }

  /** One attempt: prune the key's list and append the current time, blocked or not. */
  function Attempt(
    s: Store<seq<real>>, key: string, windowStart: real, currentTime: real, cap: nat): Store<seq<real>>
    requires Ordered(s)
  {
    TouchOrdered(s, key, [], cap);
    var touched := Touch(s, key, [], cap);
    touched.(items := touched.items[key := Prune(touched.items[key], windowStart) + [currentTime]])
  }

  /** The attempts newer than `windowStart`. */
  function Recent(times: seq<real>, windowStart: real): seq<real> {
    if times == [] then []
    else if times[0] > windowStart then [times[0]] + Recent(times[1..], windowStart)
    else Recent(times[1..], windowStart)
  }

  predicate Sorted(times: seq<real>) {
    forall i, j :: 0 <= i < j < |times| ==> times[i] <= times[j]
  }

  /** What a key's list holds after attempts at these times. */
  function Stored(times: seq<real>, window: real): seq<real> {
    if times == [] then []
    else
      var n := |times| - 1;
      Prune(Stored(times[..n], window), times[n] - window) + [times[n]]
  }

  /** The count that the attempt with number `k` meets in the kept list, and whether it is refused. */
  function CountAt(times: seq<real>, k: nat, window: real): nat
    requires k < |times|
  {
    |Prune(Stored(times[..k], window), times[k] - window)|
  }

  predicate Refused(times: seq<real>, k: nat, window: real, limit: int)
    requires k < |times|
  {
    CountAt(times, k, window) >= limit
  }

  lemma {:induction false} PruneSorted(times: seq<real>, windowStart: real)
    requires Sorted(times)
    ensures Prune(times, windowStart) == Recent(times, windowStart)
  {
    if times != [] {
      PruneSorted(times[1..], windowStart);
      if times[0] > windowStart {
        AllRecent(times, windowStart);
      }
    }
  }

  lemma {:induction false} AllRecent(times: seq<real>, windowStart: real)
    requires Sorted(times) && (times != [] ==> times[0] > windowStart)
    ensures Recent(times, windowStart) == times
  {
    if times != [] {
      AllRecent(times[1..], windowStart);
    }
  }

  lemma {:induction false} PruneRecent(times: seq<real>, a: real, b: real)
    requires Sorted(times) && a <= b
    ensures Prune(Recent(times, a), b) == Recent(times, b)
  {
    if times != [] {
      if times[0] > a {
        AllRecent(times, a);
        PruneSorted(times, b);
      } else {
        PruneRecent(times[1..], a, b);
      }
    }
  }

  lemma {:induction false} RecentSnoc(times: seq<real>, t: real, windowStart: real)
    ensures Recent(times + [t], windowStart) == Recent(times, windowStart) + if t > windowStart then [t] else []
  {
    if times == [] {
      assert times + [t] == [t] && [t][1..] == [];
    } else {
      assert (times + [t])[1..] == times[1..] + [t];
      RecentSnoc(times[1..], t, windowStart);
    }
  }

  /** With a clock that does not go back, the pruned list is the list of all past attempts that are
      still in the window. */
  lemma {:induction false} StoredIsRecent(times: seq<real>, window: real, windowStart: real)
    requires Sorted(times) && window > 0.0
    requires times != [] ==> times[|times| - 1] - window <= windowStart
    ensures Prune(Stored(times, window), windowStart) == Recent(times, windowStart)
  {
    hide Prune, Recent, Stored, Sorted;
    if times == [] {
      NothingStored(window, windowStart);
    } else {
      var n := |times| - 1;
      var before, last := times[..n], times[n];
      assert times == before + [last];
      SortedPrefix(times);
      StoredIsRecent(before, window, last - window);
      StoredSnoc(times, window);
      RecentSnoc(before, last, last - window);
      PruneRecent(times, last - window, windowStart);
    }
  }

  lemma NothingStored(window: real, windowStart: real)
    ensures Stored([], window) == [] && Prune([], windowStart) == [] && Recent([], windowStart) == []
  {
  }

  lemma StoredSnoc(times: seq<real>, window: real)
    requires times != []
    ensures var n := |times| - 1;
            Stored(times, window) == Prune(Stored(times[..n], window), times[n] - window) + [times[n]]
  {
    hide Prune;
  }

  lemma SortedPrefix(times: seq<real>)
    requires Sorted(times) && times != []
    ensures var n := |times| - 1;
            Sorted(times[..n]) && (n > 0 ==> times[..n][n - 1] <= times[n])
  {
  }

  // ---------------------------------------------------------------- no window admits more than its limit

  /** With such a clock the count is that of the past attempts in the window. */
  lemma CountIsRecent(times: seq<real>, k: nat, window: real)
    requires Sorted(times) && window > 0.0 && k < |times|
    ensures CountAt(times, k, window) == |Recent(times[..k], times[k] - window)|
  {
    hide Prune, Recent, Stored;
    var before := times[..k];
    forall i, j | 0 <= i < j < |before| ensures before[i] <= before[j] {
    }
    StoredIsRecent(before, window, times[k] - window);
  }

  /** How many of the first `n` attempts were admitted within a stretch of one window's length. */
  function AdmittedIn(times: seq<real>, n: nat, a: real, window: real, limit: int): nat
    requires n <= |times|
  {
    if n == 0 then 0
    else
      AdmittedIn(times, n - 1, a, window, limit)
      + if a < times[n - 1] <= a + window && !Refused(times, n - 1, window, limit) then 1 else 0
  }

  lemma {:induction false} AdmittedAreRecent(
    times: seq<real>, n: nat, a: real, window: real, limit: int, windowStart: real)
    requires n <= |times| && windowStart <= a
    ensures AdmittedIn(times, n, a, window, limit) <= |Recent(times[..n], windowStart)|
  {
    hide Refused;
    if n > 0 {
      AdmittedAreRecent(times, n - 1, a, window, limit, windowStart);
      assert times[..n] == times[..n - 1] + [times[n - 1]];
      RecentSnoc(times[..n - 1], times[n - 1], windowStart);
    }
  }

  /** With a clock that does not go back: wherever a stretch of the window's length is laid, no more than
      the limit are admitted in it. */
  lemma {:induction false} WindowLimit(times: seq<real>, n: nat, a: real, window: real, limit: int)
    requires Sorted(times) && window > 0.0 && n <= |times| && limit >= 0
    ensures AdmittedIn(times, n, a, window, limit) <= limit
  {
    hide Sorted, CountAt;
    if n > 0 {
      WindowLimit(times, n - 1, a, window, limit);
      if a < times[n - 1] <= a + window {
        CountIsRecent(times, n - 1, window);
        AdmittedAreRecent(times, n - 1, a, window, limit, times[n - 1] - window);
      }
    }
  }

  /** A clock that goes back: the attempt far ahead empties the list, and three are admitted in a window
      of two. */
  lemma ClockBack()
    ensures var times := [0.0, 1.0, 100.0, 2.0];
            !Sorted(times) && AdmittedIn(times, 4, -1.0, 10.0, 2) == 3
  {
    hide AdmittedIn, CountAt;
    var times := [0.0, 1.0, 100.0, 2.0];
    assert times[2] > times[3];
    CountsBack(times);
    AdmittedUnfold(times, 0, -1.0, 10.0, 2);
    AdmittedUnfold(times, 1, -1.0, 10.0, 2);
    AdmittedUnfold(times, 2, -1.0, 10.0, 2);
    AdmittedUnfold(times, 3, -1.0, 10.0, 2);
    AdmittedUnfold(times, 4, -1.0, 10.0, 2);
  }

  lemma AdmittedUnfold(times: seq<real>, n: nat, a: real, window: real, limit: int)
    requires n <= |times|
    ensures AdmittedIn(times, n, a, window, limit) ==
            if n == 0 then 0
            else AdmittedIn(times, n - 1, a, window, limit)
                 + if a < times[n - 1] <= a + window && !Refused(times, n - 1, window, limit) then 1 else 0
  {
    hide Refused;
  }

  lemma CountsBack(times: seq<real>)
    requires times == [0.0, 1.0, 100.0, 2.0]
    ensures CountAt(times, 0, 10.0) == 0 && CountAt(times, 1, 10.0) == 1 && CountAt(times, 3, 10.0) == 1
  {
    hide Stored;
    NothingStored(10.0, -10.0);
    assert times[..0] == [] && times[..1] == [0.0] && times[..2] == [0.0, 1.0] && times[..3] == [0.0, 1.0, 100.0];
    assert [0.0][..0] == [] && [0.0, 1.0][..1] == [0.0] && [0.0, 1.0, 100.0][..2] == [0.0, 1.0];
    StoredSnoc([0.0], 10.0);
    assert Stored([0.0], 10.0) == [0.0];
    StoredSnoc([0.0, 1.0], 10.0);
    assert Stored([0.0, 1.0], 10.0) == [0.0, 1.0];
    assert [0.0, 1.0][1..] == [1.0] && [1.0][1..] == [];
    assert Prune([0.0, 1.0], 90.0) == Prune([1.0], 90.0) == Prune([], 90.0) == [];
    StoredSnoc([0.0, 1.0, 100.0], 10.0);
    assert Stored([0.0, 1.0, 100.0], 10.0) == [100.0];
  }

  // ---------------------------------------------------------------- many keys in one store

  datatype Event = Event(key: string, time: real)

  function TimesOf(events: seq<Event>, key: string): seq<real> {
    if events == [] then []
    else
      var n := |events| - 1;
      TimesOf(events[..n], key) + if events[n].key == key then [events[n].time] else []
  }

  function Run(events: seq<Event>, window: string -> real, cap: nat): (s: Store<seq<real>>)
    ensures Ordered(s)
  {
    if events == [] then Store(map[], [])
    else
      var n := |events| - 1;
      var before := Run(events[..n], window, cap);
      AttemptOrdered(before, events[n].key, events[n].time - window(events[n].key), events[n].time, cap);
      Attempt(before, events[n].key, events[n].time - window(events[n].key), events[n].time, cap)
  }

  lemma AttemptOrdered(s: Store<seq<real>>, key: string, windowStart: real, currentTime: real, cap: nat)
    requires Ordered(s)
    ensures Ordered(Attempt(s, key, windowStart, currentTime, cap))
  {
    TouchOrdered(s, key, [], cap);
  }

  /** The attempt of another key throws this key out. */
  predicate Evicts(s: Store<seq<real>>, other: string, key: string, cap: nat) {
    other !in s.items && |s.items| >= cap && s.order != [] && s.order[0] == key
  }

  predicate NeverEvicted(events: seq<Event>, window: string -> real, cap: nat, key: string) {
    events == [] ||
    (NeverEvicted(events[..|events| - 1], window, cap, key) &&
     !Evicts(Run(events[..|events| - 1], window, cap), events[|events| - 1].key, key, cap))
  }

  /** A key that is not thrown out keeps exactly its own history, whatever other keys do. */
  lemma {:induction false} OwnHistory(events: seq<Event>, window: string -> real, cap: nat, key: string)
    requires NeverEvicted(events, window, cap, key)
    ensures var s, times := Run(events, window, cap), TimesOf(events, key);
            (key in s.items <==> times != []) && (key in s.items ==> s.items[key] == Stored(times, window(key)))
  {
    hide Attempt, Evicts, Stored, Ordered;
    if events != [] {
      var n := |events| - 1;
      var e := events[n];
      OwnHistory(events[..n], window, cap, key);
      var before, times := Run(events[..n], window, cap), TimesOf(events[..n], key);
      if e.key == key {
        OwnAttempt(before, key, times, e.time, window(key), cap);
      } else {
        OthersKept(before, e.key, key, e.time - window(e.key), e.time, cap);
        assert times + [] == times;
      }
    }
  }

  /** The count that the next attempt of a key meets in the store. */
  function MetCount(s: Store<seq<real>>, key: string, windowStart: real): nat {
    |Prune(if key in s.items then s.items[key] else [], windowStart)|
  }

  lemma OwnAttempt(s: Store<seq<real>>, key: string, times: seq<real>, now: real, window: real, cap: nat)
    requires Ordered(s) && (key in s.items <==> times != [])
             && (key in s.items ==> s.items[key] == Stored(times, window))
    ensures var after := Attempt(s, key, now - window, now, cap);
            key in after.items && after.items[key] == Stored(times + [now], window)
  {
    assert (times + [now])[..|times|] == times;
    TouchOrdered(s, key, [], cap);
  }

  lemma OthersKept(s: Store<seq<real>>, other: string, key: string, windowStart: real, now: real, cap: nat)
    requires Ordered(s) && other != key && !Evicts(s, other, key, cap)
    ensures var after := Attempt(s, other, windowStart, now, cap);
            (key in after.items <==> key in s.items) && (key in s.items ==> after.items[key] == s.items[key])
  {
    TouchOrdered(s, other, [], cap);
  }

  /** The limiter's verdict on the next attempt of a key that was never thrown out is the verdict of the
      sliding window over all its past attempts. */
  lemma VerdictIsSlidingWindow(events: seq<Event>, window: string -> real, cap: nat, key: string, now: real)
    requires NeverEvicted(events, window, cap, key) && window(key) > 0.0 && Sorted(TimesOf(events, key) + [now])
    ensures var s, times := Run(events, window, cap), TimesOf(events, key);
            MetCount(s, key, now - window(key)) == |Recent(times, now - window(key))|
  {
    hide Run, NeverEvicted, TimesOf, Prune, Recent, Stored, Sorted;
    OwnHistory(events, window, cap, key);
    var times := TimesOf(events, key);
    NothingStored(window(key), now - window(key));
    LastInOrder(times, now);
    StoredIsRecent(times, window(key), now - window(key));
  }

  lemma LastInOrder(times: seq<real>, now: real)
    requires Sorted(times + [now])
    ensures Sorted(times) && (times != [] ==> times[|times| - 1] <= now)
  {
    var all := times + [now];
    assert all[..|times|] == times && all[|times|] == now;
    SortedPrefix(all);
  }

  /** How many attempts of the key the store has admitted within a stretch of the window's length. */
  function AdmittedByStore(
    events: seq<Event>, window: string -> real, cap: nat, key: string, a: real, limit: int): nat
  {
    if events == [] then 0
    else
      var n := |events| - 1;
      var e := events[n];
      AdmittedByStore(events[..n], window, cap, key, a, limit)
      + if e.key == key && a < e.time <= a + window(key)
           && MetCount(Run(events[..n], window, cap), key, e.time - window(key)) < limit then 1 else 0
  }

  /** The limiter itself, with any number of other keys in its store: as long as a key is not thrown out and
      its clock does not go back, no stretch of the window's length admits more than the limit. */
  lemma StoreLimit(events: seq<Event>, window: string -> real, cap: nat, key: string, a: real, limit: int)
    requires NeverEvicted(events, window, cap, key) && window(key) > 0.0 && limit >= 0
    requires Sorted(TimesOf(events, key))
    ensures AdmittedByStore(events, window, cap, key, a, limit) <= limit
  {
    hide *;
    var times := TimesOf(events, key);
    StoreAdmits(events, window, cap, key, a, limit);
    WindowLimit(times, |times|, a, window(key), limit);
  }

  lemma {:induction false} StoreAdmits(
    events: seq<Event>, window: string -> real, cap: nat, key: string, a: real, limit: int)
    requires NeverEvicted(events, window, cap, key)
    ensures var times := TimesOf(events, key);
            AdmittedByStore(events, window, cap, key, a, limit) == AdmittedIn(times, |times|, a, window(key), limit)
  {
    hide Run, Evicts, Prune, Stored, Refused;
    if events != [] {
      var n := |events| - 1;
      var before, e := TimesOf(events[..n], key), events[n];
      StoreAdmits(events[..n], window, cap, key, a, limit);
      if e.key == key {
        var times := before + [e.time];
        AdmittedPrefix(before, e.time, |before|, a, window(key), limit);
        MetIsCounted(events[..n], window, cap, key, e.time);
        assert Refused(times, |before|, window(key), limit)
           <==> MetCount(Run(events[..n], window, cap), key, e.time - window(key)) >= limit by {
          RefusedMeans(times, |before|, window(key), limit);
        }
      } else {
        assert before + [] == before;
      }
    }
  }

  lemma RefusedMeans(times: seq<real>, k: nat, window: real, limit: int)
    requires k < |times|
    ensures Refused(times, k, window, limit) <==> CountAt(times, k, window) >= limit
  {
    hide CountAt;
  }

  lemma MetIsCounted(events: seq<Event>, window: string -> real, cap: nat, key: string, now: real)
    requires NeverEvicted(events, window, cap, key)
    ensures var times := TimesOf(events, key);
            MetCount(Run(events, window, cap), key, now - window(key)) == CountAt(times + [now], |times|, window(key))
  {
    hide Run, NeverEvicted, TimesOf, Prune, Stored, Ordered;
    OwnHistory(events, window, cap, key);
    var times := TimesOf(events, key);
    NothingStored(window(key), now - window(key));
    assert (times + [now])[..|times|] == times && (times + [now])[|times|] == now;
  }

  lemma {:induction false} AdmittedPrefix(times: seq<real>, last: real, n: nat, a: real, window: real, limit: int)
    requires n <= |times|
    ensures AdmittedIn(times + [last], n, a, window, limit) == AdmittedIn(times, n, a, window, limit)
  {
    hide Prune, Stored;
    if n > 0 {
      AdmittedPrefix(times, last, n - 1, a, window, limit);
      assert (times + [last])[..n - 1] == times[..n - 1];
    }
  }

  lemma TouchKeys<V>(s: Store<V>, key: string, initial: V, cap: nat)
    requires Ordered(s)
    ensures var after := Touch(s, key, initial, cap);
            if key in s.items then after.items.Keys == s.items.Keys && after.order == s.order + [key]
            else if |s.items.Keys| < cap || s.order == [] then
              after.items.Keys == s.items.Keys + {key} && after.order == s.order + [key]
            else
              after.items.Keys == s.items.Keys - {s.order[0]} + {key} && after.order == s.order[1..] + [key]
  {
    hide Ordered;
    assert |s.items| == |s.items.Keys|;
    if key !in s.items {
      var room := MakeRoom(s, cap);
      assert room.items[key := initial].Keys == room.items.Keys + {key};
    }
  }

  /** Making room fails to make room exactly when the oldest entry of the order is a key that is no longer
      tracked. */
  lemma SizeExact<V>(s: Store<V>, key: string, initial: V, cap: nat)
    requires Ordered(s) && |s.items| == cap > 0 && key !in s.items
    ensures s.order != [] && (|Touch(s, key, initial, cap).items| <= cap <==> s.order[0] in s.items)
  {
    hide Touch;
    SomeOrder(s);
    TouchKeys(s, key, initial, cap);
    var victim, keys := s.order[0], s.items.Keys;
    var after := Touch(s, key, initial, cap);
    assert |s.items| == |keys| && |after.items| == |after.items.Keys|;
    if victim in keys {
      assert |keys - {victim}| == cap - 1;
    } else {
      assert keys - {victim} == keys;
    }
  }

  /** Which keys are tracked, and in which order, after one more attempt. */
  lemma KeysAfter(events: seq<Event>, e: Event, window: string -> real, cap: nat)
    ensures var s, after := Run(events, window, cap), Run(events + [e], window, cap);
            if e.key in s.items then after.items.Keys == s.items.Keys && after.order == s.order + [e.key]
            else if |s.items.Keys| < cap || s.order == [] then
              after.items.Keys == s.items.Keys + {e.key} && after.order == s.order + [e.key]
            else
              after.items.Keys == s.items.Keys - {s.order[0]} + {e.key} && after.order == s.order[1..] + [e.key]
  {
    hide Attempt, Ordered;
    var n := |events|;
    assert (events + [e])[..n] == events && (events + [e])[n] == e;
    AttemptKeys(Run(events, window, cap), e.key, e.time - window(e.key), e.time, cap);
  }

  lemma AttemptKeys(s: Store<seq<real>>, key: string, windowStart: real, now: real, cap: nat)
    requires Ordered(s)
    ensures var after := Attempt(s, key, windowStart, now, cap);
            if key in s.items then after.items.Keys == s.items.Keys && after.order == s.order + [key]
            else if |s.items.Keys| < cap || s.order == [] then
              after.items.Keys == s.items.Keys + {key} && after.order == s.order + [key]
            else
              after.items.Keys == s.items.Keys - {s.order[0]} + {key} && after.order == s.order[1..] + [key]
  {
    hide Prune, Ordered, Touch;
    TouchOrdered(s, key, [], cap);
    TouchKeys(s, key, [], cap);
    var touched := Touch(s, key, [], cap);
    UpdateKeys(touched.items, key, Prune(touched.items[key], windowStart) + [now]);
  }

  lemma UpdateKeys<V>(items: map<string, V>, key: string, value: V)
    requires key in items
    ensures items[key := value].Keys == items.Keys
  {
  }

  // ---------------------------------------------------------------- how far the bound can be exceeded

  /** Attempts by keys that were tracked already. */
  function Hits(events: seq<Event>, window: string -> real, cap: nat): nat {
    if events == [] then 0
    else
      var n := |events| - 1;
      Hits(events[..n], window, cap) + if events[n].key in Run(events[..n], window, cap).items then 1 else 0
  }

  lemma HitsSnoc(events: seq<Event>, e: Event, window: string -> real, cap: nat)
    ensures Hits(events + [e], window, cap)
         == Hits(events, window, cap) + if e.key in Run(events, window, cap).items then 1 else 0
  {
    hide Run;
    assert (events + [e])[..|events|] == events && (events + [e])[|events|] == e;
  }

  /** The order holds one entry for each tracked key up to the bound and one for each hit. */
  lemma {:induction false} OrderLength(events: seq<Event>, window: string -> real, cap: nat)
    requires cap >= 1
    ensures var s := Run(events, window, cap); |s.order| == Min(|s.items|, cap) + Hits(events, window, cap)
  {
    hide Run, Hits;
    if events == [] {
      NothingTracked(window, cap);
      NoHits(window, cap);
    } else {
      var n := |events| - 1;
      var before, e := events[..n], events[n];
      assert events == before + [e];
      OrderLength(before, window, cap);
      KeysAfter(before, e, window, cap);
      HitsSnoc(before, e, window, cap);
      var s, after := Run(before, window, cap), Run(events, window, cap);
      KeyCount(s, after, e.key);
    }
  }

  lemma KeyCount<V>(s: Store<V>, after: Store<V>, key: string)
    ensures |s.items| == |s.items.Keys| && |after.items| == |after.items.Keys|
    ensures key !in s.items ==> |s.items.Keys + {key}| == |s.items| + 1
    ensures forall k :: k in s.items && key !in s.items ==> |s.items.Keys - {k} + {key}| == |s.items|
    ensures forall k :: k !in s.items && key !in s.items ==> |s.items.Keys - {k} + {key}| == |s.items| + 1
  {
    forall k | k !in s.items && key !in s.items ensures |s.items.Keys - {k} + {key}| == |s.items| + 1 {
      assert s.items.Keys - {k} == s.items.Keys;
    }
  }

  lemma NothingTracked(window: string -> real, cap: nat)
    ensures Run([], window, cap) == Store(map[], [])
  {
  }

  lemma NoHits(window: string -> real, cap: nat)
    ensures Hits([], window, cap) == 0
  {
  }

  lemma {:induction false} DistinctKeys(keys: set<string>, order: seq<string>)
    requires forall key :: key in keys ==> key in order
    ensures |keys| <= |order|
  {
    if order == [] {
      assert keys == {};
    } else {
      var head, rest := order[0], order[1..];
      forall key | key in keys - {head} ensures key in rest {
        var i :| 0 <= i < |order| && order[i] == key;
        assert rest[i - 1] == key;
      }
      DistinctKeys(keys - {head}, rest);
    }
  }

  /** The number of tracked keys stays within the bound and the number of hits. */
  lemma SizeBound(events: seq<Event>, window: string -> real, cap: nat)
    requires cap >= 1
    ensures |Run(events, window, cap).items| <= cap + Hits(events, window, cap)
  {
    hide Run, Hits;
    var s := Run(events, window, cap);
    OrderLength(events, window, cap);
    DistinctKeys(s.items.Keys, s.order);
    assert |s.items| == |s.items.Keys|;
  }

  // A run that attains it: one key hit again and again, then new keys only.

  function Repeated(n: nat): seq<Event> {
    if n == 0 then [] else Repeated(n - 1) + [Event("a", 0.0)]
  }

  function NewKey(i: nat): string {
    seq(i + 1, _ => 'b')
  }

  function NewKeys(n: nat): set<string> {
    if n == 0 then {} else NewKeys(n - 1) + {NewKey(n - 1)}
  }

  function NewOrder(n: nat): seq<string> {
    if n == 0 then [] else NewOrder(n - 1) + [NewKey(n - 1)]
  }

  /** One key `hits` times after its first attempt, then `n` new keys. */
  function Crowd(hits: nat, n: nat): seq<Event> {
    if n == 0 then Repeated(hits + 1) else Crowd(hits, n - 1) + [Event(NewKey(n - 1), 0.0)]
  }

  function Copies(n: nat): seq<string> {
    seq(n, _ => "a")
  }

  lemma {:induction false} NewKeysCount(n: nat)
    ensures |NewKeys(n)| == n && "a" !in NewKeys(n) && forall i :: i >= n ==> NewKey(i) !in NewKeys(n)
  {
    if n > 0 {
      NewKeysCount(n - 1);
      forall i | i >= n ensures NewKey(i) != NewKey(n - 1) {
        assert |NewKey(i)| == i + 1;
      }
      assert NewKey(n - 1)[0] == 'b';
    }
  }

  lemma {:induction false} RepeatedRun(n: nat, window: string -> real, cap: nat)
    requires cap >= 1
    ensures var s := Run(Repeated(n + 1), window, cap); s.items.Keys == {"a"} && s.order == Copies(n + 1)
    ensures Hits(Repeated(n + 1), window, cap) == n
  {
    hide Run, Hits;
    var before, e := Repeated(n), Event("a", 0.0);
    NothingTracked(window, cap);
    NoHits(window, cap);
    if n > 0 {
      RepeatedRun(n - 1, window, cap);
    }
    KeysAfter(before, e, window, cap);
    HitsSnoc(before, e, window, cap);
    assert Copies(n) + ["a"] == Copies(n + 1);
  }

  /** What is tracked once `n` new keys have come. */
  predicate Crowded<V>(s: Store<V>, hits: nat, n: nat, cap: nat)
    requires n <= cap + hits
  {
    && s.items.Keys == NewKeys(n) + (if n < cap then {"a"} else {})
    && s.order == Copies(hits + 1 - Max(0, n - cap + 1)) + NewOrder(n)
  }

  lemma NewStep(n: nat)
    requires n > 0
    ensures NewKeys(n) == NewKeys(n - 1) + {NewKey(n - 1)} && NewOrder(n) == NewOrder(n - 1) + [NewKey(n - 1)]
    ensures NewKey(n - 1) != "a" && NewKey(n - 1) !in NewKeys(n - 1)
  {
    NewKeysCount(n - 1);
    assert NewKey(n - 1)[0] == 'b';
  }

  /** As long as entries of the first key are left, the new keys are all tracked. */
  lemma {:induction false} CrowdRun(hits: nat, n: nat, window: string -> real, cap: nat)
    requires cap >= 1 && n <= cap + hits
    ensures Crowded(Run(Crowd(hits, n), window, cap), hits, n, cap)
    ensures Hits(Crowd(hits, n), window, cap) == hits
  {
    hide Run, Hits, Crowded, NewKey, Repeated;
    RepeatedRun(hits, window, cap);
    if n == 0 {
      CrowdStart(Run(Crowd(hits, 0), window, cap), hits, cap);
    } else {
      var before, e := Crowd(hits, n - 1), Event(NewKey(n - 1), 0.0);
      CrowdRun(hits, n - 1, window, cap);
      KeysAfter(before, e, window, cap);
      HitsSnoc(before, e, window, cap);
      NotTracked(Run(before, window, cap), hits, n, cap);
      CrowdStep(Run(before, window, cap), Run(Crowd(hits, n), window, cap), hits, n, cap);
    }
  }

  lemma CrowdStart<V>(s: Store<V>, hits: nat, cap: nat)
    requires cap >= 1 && s.items.Keys == {"a"} && s.order == Copies(hits + 1)
    ensures Crowded(s, hits, 0, cap)
  {
    hide Copies;
    assert Copies(hits + 1) + [] == Copies(hits + 1);
  }

  lemma NotTracked<V>(s: Store<V>, hits: nat, n: nat, cap: nat)
    requires 1 <= n <= cap + hits && Crowded(s, hits, n - 1, cap)
    ensures NewKey(n - 1) !in s.items
  {
    hide Copies, NewOrder, NewKey, NewKeys;
    NewStep(n);
    assert s.items.Keys == NewKeys(n - 1) + (if n - 1 < cap then {"a"} else {});
  }

  lemma CrowdStep<V>(s: Store<V>, after: Store<V>, hits: nat, n: nat, cap: nat)
    requires 1 <= n <= cap + hits && cap >= 1 && Crowded(s, hits, n - 1, cap)
    requires if |s.items.Keys| < cap || s.order == [] then
               after.items.Keys == s.items.Keys + {NewKey(n - 1)} && after.order == s.order + [NewKey(n - 1)]
             else
               && after.items.Keys == s.items.Keys - {s.order[0]} + {NewKey(n - 1)}
               && after.order == s.order[1..] + [NewKey(n - 1)]
    ensures Crowded(after, hits, n, cap)
  {
    hide Copies, NewOrder, NewKey, NewKeys, Crowded;
    CrowdFacts(s, hits, n, cap);
    if n < cap {
      CrowdGrows(s, after, hits, n, cap);
    } else {
      CrowdMoves(s, after, hits, n, cap);
    }
  }

  /** The store is full exactly from the bound on, and its order starts with the first key. */
  lemma CrowdFacts<V>(s: Store<V>, hits: nat, n: nat, cap: nat)
    requires 1 <= n <= cap + hits && cap >= 1 && Crowded(s, hits, n - 1, cap)
    ensures (|s.items.Keys| < cap <==> n < cap) && s.order != [] && s.order[0] == "a"
  {
    hide Copies, NewOrder, NewKeys;
    NewKeysCount(n - 1);
    CopiesStep(hits + 1 - Max(0, n - cap));
  }

  lemma CrowdGrows<V>(s: Store<V>, after: Store<V>, hits: nat, n: nat, cap: nat)
    requires 1 <= n < cap && Crowded(s, hits, n - 1, cap)
    requires after.items.Keys == s.items.Keys + {NewKey(n - 1)} && after.order == s.order + [NewKey(n - 1)]
    ensures Crowded(after, hits, n, cap)
  {
    hide Copies, NewOrder, NewKey, NewKeys;
    NewStep(n);
    OrderGrows(Copies(hits + 1), NewOrder(n - 1), [NewKey(n - 1)]);
  }

  lemma CrowdMoves<V>(s: Store<V>, after: Store<V>, hits: nat, n: nat, cap: nat)
    requires 1 <= cap <= n <= cap + hits && Crowded(s, hits, n - 1, cap)
    requires s.order != [] && s.order[0] == "a"
    requires after.items.Keys == s.items.Keys - {s.order[0]} + {NewKey(n - 1)}
    requires after.order == s.order[1..] + [NewKey(n - 1)]
    ensures Crowded(after, hits, n, cap)
  {
    hide Copies, NewOrder, NewKey, NewKeys;
    var count := hits + 1 - (n - cap);
    NewStep(n);
    NewKeysCount(n - 1);
    CopiesStep(count);
    OrderMoves(Copies(count), NewOrder(n - 1), [NewKey(n - 1)]);
    CrowdKeys(NewKeys(n - 1), s.items.Keys, NewKey(n - 1));
  }

  lemma CrowdKeys(others: set<string>, keys: set<string>, added: string)
    requires "a" !in others && added != "a" && (keys == others || keys == others + {"a"})
    ensures keys - {"a"} + {added} == others + {added}
  {
  }

  lemma OrderGrows(copies: seq<string>, rest: seq<string>, last: seq<string>)
    ensures copies + rest + last == copies + (rest + last)
  {
  }

  lemma OrderMoves(copies: seq<string>, rest: seq<string>, last: seq<string>)
    requires copies != []
    ensures (copies + rest)[1..] + last == copies[1..] + (rest + last)
  {
  }

  lemma CopiesStep(n: nat)
    requires n > 0
    ensures |Copies(n)| == n && Copies(n)[0] == "a" && Copies(n)[1..] == Copies(n - 1)
  {
  }

  /** Whatever the bound, it can be exceeded by as many keys as there were hits: one key used again and
      again leaves that many entries behind, each of which makes no room. */
  lemma SizeExceeded(window: string -> real, cap: nat, hits: nat)
    requires cap >= 1
    ensures var events := Crowd(hits, cap + hits);
            Hits(events, window, cap) == hits && |Run(events, window, cap).items| == cap + hits
  {
    hide Run, Hits, Crowd, NewKeys, NewOrder, Copies;
    CrowdRun(hits, cap + hits, window, cap);
    NewKeysCount(cap + hits);
    var s := Run(Crowd(hits, cap + hits), window, cap);
    assert |s.items| == |s.items.Keys|;
  }

  // ---------------------------------------------------------------- few keys

  function KeysOf(events: seq<Event>): set<string> {
    set i | 0 <= i < |events| :: events[i].key
  }

  lemma {:induction false} TrackedOccur(events: seq<Event>, window: string -> real, cap: nat)
    ensures Run(events, window, cap).items.Keys <= KeysOf(events)
  {
    hide Run;
    if events == [] {
      NothingTracked(window, cap);
    } else {
      var n := |events| - 1;
      assert events == events[..n] + [events[n]];
      TrackedOccur(events[..n], window, cap);
      KeysAfter(events[..n], events[n], window, cap);
      PrefixKeys(events);
    }
  }

  lemma PrefixKeys(events: seq<Event>)
    requires events != []
    ensures KeysOf(events) == KeysOf(events[..|events| - 1]) + {events[|events| - 1].key}
  {
    var n := |events| - 1;
    forall i | 0 <= i < |events| ensures events[i].key in KeysOf(events[..n]) + {events[n].key} {
      if i < n {
        assert events[..n][i] == events[i];
      }
    }
    forall i | 0 <= i < n ensures events[..n][i].key in KeysOf(events) {
      assert events[..n][i] == events[i];
    }
  }

  /** As long as no more distinct keys turn up than the bound, none is thrown out. */
  lemma {:induction false} FewKeysStay(events: seq<Event>, window: string -> real, cap: nat, key: string)
    requires |KeysOf(events)| <= cap
    ensures NeverEvicted(events, window, cap, key)
  {
    hide Run, KeysOf;
    if events != [] {
      var n := |events| - 1;
      var before, e := events[..n], events[n];
      PrefixKeys(events);
      Subset(KeysOf(before), KeysOf(events));
      FewKeysStay(before, window, cap, key);
      TrackedOccur(before, window, cap);
      var s := Run(before, window, cap);
      if e.key !in s.items {
        Subset(s.items.Keys + {e.key}, KeysOf(events));
        assert |s.items| == |s.items.Keys|;
      }
    }
  }

  lemma {:induction false} Subset(a: set<string>, b: set<string>)
    requires a <= b
    ensures |a| <= |b|
  {
    if a != {} {
      var x :| x in a;
      Subset(a - {x}, b - {x});
    }
  }

  // ---------------------------------------------------------------- the sorted set

  /** One key's sorted set: members and scores are the clock readings. */
  datatype Zset = Zset(members: set<real>, touched: Option<real>)

  /** The script: add, drop what has left the window, count; the key expires after two windows. */
  function Script(z: Zset, now: real, window: real): Zset {
    var live := if z.touched.Some? && now >= z.touched.value + 2.0 * window then {} else z.members;
    var members := set x | x in live + {now} && !(0.0 <= x <= now - window);
    Zset(members, Some(now))
  }

  function ScriptRun(times: seq<real>, window: real): Zset {
    if times == [] then Zset({}, None)
    else Script(ScriptRun(times[..|times| - 1], window), times[|times| - 1], window)
  }

  function ToSet(times: seq<real>): set<real> {
    set x | x in times
  }

  predicate Clock(times: seq<real>) {
    Sorted(times) && forall i :: 0 <= i < |times| ==> times[i] >= 0.0
  }

  lemma {:induction false} RecentMembers(times: seq<real>, windowStart: real)
    ensures forall x :: x in Recent(times, windowStart) <==> x in times && x > windowStart
  {
    if times != [] {
      RecentMembers(times[1..], windowStart);
      assert times == [times[0]] + times[1..];
    }
  }

  /** The sorted set holds the distinct times still in the window; that the key expires changes nothing. */
  lemma {:induction false} ScriptHolds(times: seq<real>, window: real)
    requires Clock(times) && window > 0.0 && times != []
    ensures var last := times[|times| - 1];
            ScriptRun(times, window) == Zset(ToSet(Recent(times, last - window)), Some(last))
  {
    hide ScriptRun, Recent;
    var n := |times| - 1;
    var before, last := times[..n], times[n];
    var z := ScriptRun(before, window);
    ScriptRunSnoc(times, window);
    RecentMembers(times, last - window);
    if before == [] {
      FirstScript(last, window, times);
    } else {
      ClockPrefix(times);
      ScriptHolds(before, window);
      RecentMembers(before, before[n - 1] - window);
      LaterScript(before, last, window, z);
      assert times == before + [last];
    }
    assert ScriptRun(times, window).members == ToSet(Recent(times, last - window));
  }

  lemma ScriptRunSnoc(times: seq<real>, window: real)
    requires times != []
    ensures ScriptRun(times, window) == Script(ScriptRun(times[..|times| - 1], window), times[|times| - 1], window)
    ensures ScriptRun([], window) == Zset({}, None)
  {
    hide Script;
  }

  lemma ClockPrefix(times: seq<real>)
    requires Clock(times) && |times| > 1
    ensures var n := |times| - 1;
            Clock(times[..n]) && forall x :: x in times[..n] ==> 0.0 <= x <= times[..n][n - 1] <= times[n]
  {
    var n := |times| - 1;
    assert times[..n][n - 1] == times[n - 1];
    forall x | x in times[..n] ensures 0.0 <= x <= times[n - 1] {
      var k :| 0 <= k < n && times[..n][k] == x;
      assert times[k] == x;
    }
  }

  lemma FirstScript(last: real, window: real, times: seq<real>)
    requires times == [last] && last >= 0.0 && window > 0.0
    ensures forall x :: x in Script(Zset({}, None), last, window).members <==> x in times && x > last - window
  {
  }

  lemma LaterScript(before: seq<real>, last: real, window: real, z: Zset)
    requires before != [] && window > 0.0
    requires forall x :: x in before ==> 0.0 <= x <= before[|before| - 1] <= last
    requires z.touched == Some(before[|before| - 1])
    requires forall x :: x in z.members <==> x in before && x > before[|before| - 1] - window
    ensures forall x :: x in Script(z, last, window).members <==> x in before + [last] && x > last - window
  {
    assert before[|before| - 1] in before;
  }

  predicate AllDistinct(times: seq<real>) {
    forall i, j :: 0 <= i < j < |times| ==> times[i] != times[j]
  }

  lemma {:induction false} SetSize(times: seq<real>)
    ensures |ToSet(times)| <= |times| && (|ToSet(times)| == |times| <==> AllDistinct(times))
  {
    if times != [] {
      var n := |times| - 1;
      var before, last := times[..n], times[n];
      SetSize(before);
      assert times == before + [last];
      assert ToSet(times) == ToSet(before) + {last};
      if AllDistinct(times) {
        assert AllDistinct(before);
        assert last !in before;
      } else if AllDistinct(before) {
        var i, j :| 0 <= i < j < |times| && times[i] == times[j];
        assert j == n;
        assert before[i] == last;
      }
    }
  }

  function ScriptCount(times: seq<real>, k: nat, window: real): nat
    requires k < |times|
  {
    |ScriptRun(times[..k + 1], window).members|
  }

  /** The script counts what the list counts, and the current attempt, exactly when no two clock readings
      in the window coincide. */
  lemma ScriptCounts(times: seq<real>, k: nat, window: real)
    requires Clock(times) && window > 0.0 && k < |times|
    ensures ScriptCount(times, k, window) <= CountAt(times, k, window) + 1
    ensures ScriptCount(times, k, window) == CountAt(times, k, window) + 1
       <==> AllDistinct(Recent(times[..k + 1], times[k] - window))
  {
    var upTo := times[..k + 1];
    assert upTo == times[..k] + [times[k]];
    ScriptHolds(upTo, window);
    CountIsRecent(times, k, window);
    RecentSnoc(times[..k], times[k], times[k] - window);
    SetSize(Recent(upTo, times[k] - window));
  }

  /** With a clock that always advances the sorted set and the list give the same verdict every time:
      the one blocks above the limit after adding, the other at the limit before adding. */
  lemma SameVerdict(times: seq<real>, k: nat, window: real, limit: int)
    requires Clock(times) && AllDistinct(times) && window > 0.0 && k < |times|
    ensures ScriptCount(times, k, window) > limit <==> Refused(times, k, window, limit)
  {
    ScriptCounts(times, k, window);
    assert AllDistinct(times[..k + 1]);
    RecentDistinct(times[..k + 1], times[k] - window);
  }

  lemma {:induction false} RecentDistinct(times: seq<real>, windowStart: real)
    requires AllDistinct(times)
    ensures AllDistinct(Recent(times, windowStart))
  {
    if times != [] {
      var rest := times[1..];
      assert AllDistinct(rest);
      RecentDistinct(rest, windowStart);
      RecentMembers(rest, windowStart);
      forall k | 0 <= k < |rest| ensures rest[k] != times[0] {
        assert rest[k] == times[k + 1];
      }
      assert times[0] !in Recent(rest, windowStart);
    }
  }

  /** Two attempts at one clock reading: the list refuses the second, the sorted set has seen only one. */
  lemma SameReading()
    ensures var times := [5.0, 5.0];
            Clock(times) && Refused(times, 1, 1.0, 1) && !(ScriptCount(times, 1, 1.0) > 1)
  {
    var times := [5.0, 5.0];
    assert times[..1] == [5.0] && [5.0][1..] == [];
    assert Recent([5.0], 4.0) == [5.0];
    ScriptHolds(times[..2], 1.0);
    assert times[..2] == times;
    RecentSnoc([5.0], 5.0, 4.0);
    assert [5.0] + [5.0] == times;
    assert ToSet(times) == {5.0};
  }
}
