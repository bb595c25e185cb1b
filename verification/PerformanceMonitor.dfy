/** Per-pattern timing statistics (guardcore/performance_monitor.go:25-75, 241-324, 558-575, 637-674,
    798-819). */
module PerformanceMonitor {
  import opened KeyOrder
  import opened Texts

  datatype Stats = Stats(
    executions: nat,
    matches: nat,
    timeouts: nat,
    average: real,
    maximum: real,
    minimum: Option<real>,
    recent: seq<real>,
    emitted: Option<real>)

  datatype Observation = Observation(time: real, matched: bool, timeout: bool)

  /** One entry of the recent history. */
  datatype Metric = Metric(pattern: string, observation: Observation, contentLength: nat, at: real)

  const MAX_NAME := 100
  const TRUNCATED := "...[truncated]"

  /** The name under which a pattern is tracked; here a character of a name stands for a rune. */
  function TrackedName(pattern: string): string {
    if |pattern| <= MAX_NAME then pattern else pattern[..MAX_NAME] + TRUNCATED
  }

  /** Two patterns are tracked as one exactly when they are the same or both are too long and agree as
      far as names go; a truncated name is tracked as it is. */
  lemma NamesMeet(p: string, q: string)
    ensures TrackedName(TrackedName(p)) == TrackedName(p)
    ensures TrackedName(p) == TrackedName(q) <==>
            p == q || (|p| > MAX_NAME && |q| > MAX_NAME && p[..MAX_NAME] == q[..MAX_NAME])
  {
    if |p| > MAX_NAME {
      assert TrackedName(p)[..MAX_NAME] == p[..MAX_NAME];
    }
    if |q| > MAX_NAME {
      assert TrackedName(q)[..MAX_NAME] == q[..MAX_NAME];
    }
  }

  /** The construction knobs, after they were clamped. */
  datatype Limits = Limits(window: nat, cap: nat, cooldown: real, historySize: nat)

  predicate Usable(l: Limits) {
    l.window >= 1 && l.cap >= 1
  }

  // ---------------------------------------------------------------- one pattern

  function Sum(values: seq<real>): real {
    if values == [] then 0.0 else Sum(values[..|values| - 1]) + values[|values| - 1]
  }

  function Mean(values: seq<real>): real {
    if values == [] then 0.0 else Sum(values) / (|values| as real)
  }

  /** The last `n` values. */
  function Last<T>(values: seq<T>, n: nat): seq<T> {
    if |values| <= n then values else values[|values| - n..]
  }

  function NewStats(): Stats { Stats(0, 0, 0, 0.0, 0.0, None, [], None) }

  function Observe(s: Stats, o: Observation, window: nat): Stats {
    var counted := s.(executions := s.executions + 1, matches := s.matches + if o.matched then 1 else 0);
    if o.timeout then counted.(timeouts := s.timeouts + 1)
    else
      var recent := Last(s.recent + [o.time], window);
      counted.(recent := recent, average := Mean(recent),
               maximum := if o.time > s.maximum then o.time else s.maximum,
               minimum := if s.minimum.None? || o.time < s.minimum.value then Some(o.time) else s.minimum)
  }

  /** The times of the observations that did not time out. */
  function Times(history: seq<Observation>): seq<real> {
    if history == [] then []
    else
      var o := history[|history| - 1];
      Times(history[..|history| - 1]) + if o.timeout then [] else [o.time]
  }

  function Count(history: seq<Observation>, test: Observation -> bool): nat {
    if history == [] then 0
    else Count(history[..|history| - 1], test) + if test(history[|history| - 1]) then 1 else 0
  }

  function IsTimeout(): Observation -> bool { (o: Observation) => o.timeout }

  function IsMatch(): Observation -> bool { (o: Observation) => o.matched }

  /** The statistics are what the history of the pattern since its tracking began says. */
  ghost predicate Reflects(s: Stats, history: seq<Observation>, window: nat) {
    var times := Times(history);
    && s.executions == |history| && s.executions == s.timeouts + |times|
    && s.timeouts == Count(history, IsTimeout()) && s.matches == Count(history, IsMatch())
    && s.recent == Last(times, window) && s.average == Mean(s.recent)
    && (forall k :: 0 <= k < |times| ==> times[k] <= s.maximum && s.minimum.Some? && s.minimum.value <= times[k])
    && (times == [] ==> s.minimum.None? && s.maximum == 0.0)
    && (times != [] ==> s.minimum.value in times && (s.maximum in times || s.maximum == 0.0))
  }

  lemma LastAgain<T>(values: seq<T>, value: T, n: nat)
    requires n >= 1
    ensures Last(Last(values, n) + [value], n) == Last(values + [value], n)
  {
  }

  lemma HistorySnoc(history: seq<Observation>, o: Observation)
    ensures Times(history + [o]) == Times(history) + if o.timeout then [] else [o.time]
    ensures Count(history + [o], IsTimeout()) == Count(history, IsTimeout()) + if o.timeout then 1 else 0
    ensures Count(history + [o], IsMatch()) == Count(history, IsMatch()) + if o.matched then 1 else 0
  {
    assert (history + [o])[..|history|] == history;
  }

  lemma ObserveReflects(s: Stats, history: seq<Observation>, o: Observation, window: nat)
    requires Reflects(s, history, window) && window >= 1
    ensures Reflects(Observe(s, o, window), history + [o], window)
  {
    hide Times, Count, Mean, Last;
    HistorySnoc(history, o);
    var times := Times(history);
    if !o.timeout {
      LastAgain(times, o.time, window);
      assert (times + [o.time])[|times|] == o.time;
    } else {
      assert times + [] == times;
    }
  }

  lemma NothingObserved(window: nat)
    ensures Reflects(NewStats(), [], window)
  {
  }

  // ---------------------------------------------------------------- all patterns

  datatype Table = Table(stats: map<string, Stats>, order: seq<string>)

  /** The patterns dropped to admit a new one: the oldest, when the table is full. */
  function Victims(t: Table, pattern: string, cap: nat): set<string> {
    if pattern !in t.stats && |t.stats| >= cap && t.order != [] then {t.order[0]} else {}
  }

  function MakeRoom(t: Table, pattern: string, cap: nat): Table {
    if Victims(t, pattern, cap) == {} then t else Table(t.stats - Victims(t, pattern, cap), t.order[1..])
  }

  function Admit(t: Table, pattern: string, cap: nat): Table {
    var room := MakeRoom(t, pattern, cap);
    if pattern in room.stats then room else Table(room.stats[pattern := NewStats()], room.order + [pattern])
  }

  function Record(t: Table, pattern: string, o: Observation, l: Limits): Table {
    var admitted := Admit(t, pattern, l.cap);
    if pattern in admitted.stats then
      admitted.(stats := admitted.stats[pattern := Observe(admitted.stats[pattern], o, l.window)])
    else admitted
  }

  function Remove(t: Table, pattern: string): Table {
    Table(t.stats - {pattern}, Without(t.order, pattern))
  }

  /** The tracked patterns, each once. */
  ghost predicate Ordered(t: Table, cap: nat) {
    Distinct(t.order) && |t.stats| <= cap && forall p :: p in t.order <==> p in t.stats
  }

  lemma Oldest(t: Table, cap: nat)
    requires Ordered(t, cap) && |t.stats| > 0
    ensures t.order != [] && t.order[0] in t.stats
  {
    var other :| other in t.stats;
    assert other in t.order;
  }

  lemma RoomOrdered(t: Table, pattern: string, cap: nat)
    requires Ordered(t, cap)
    ensures Ordered(MakeRoom(t, pattern, cap), cap)
    ensures pattern in MakeRoom(t, pattern, cap).stats <==> pattern in t.stats
    ensures cap >= 1 && pattern !in t.stats ==> |MakeRoom(t, pattern, cap).stats| < cap
  {
    hide Distinct;
    if pattern !in t.stats && |t.stats| >= cap && t.order != [] {
      DistinctTail(t.order);
      var room := t.stats - {t.order[0]};
      assert t.stats.Keys == room.Keys + {t.order[0]};
      assert |t.stats.Keys| == |t.stats| && |room.Keys| == |room|;
    }
    if cap >= 1 && |t.stats| >= cap {
      Oldest(t, cap);
    }
  }

  lemma InsertOrdered(t: Table, pattern: string, cap: nat)
    requires Ordered(t, cap) && pattern !in t.stats && |t.stats| < cap
    ensures Ordered(Table(t.stats[pattern := NewStats()], t.order + [pattern]), cap)
  {
    hide Distinct;
    DistinctSnoc(t.order, pattern);
    var after := t.stats[pattern := NewStats()];
    assert after.Keys == t.stats.Keys + {pattern};
    assert |after.Keys| == |after| && |t.stats.Keys| == |t.stats|;
  }

  lemma AdmitOrdered(t: Table, pattern: string, cap: nat)
    requires Ordered(t, cap) && cap >= 1
    ensures Ordered(Admit(t, pattern, cap), cap) && pattern in Admit(t, pattern, cap).stats
  {
    hide Ordered, MakeRoom;
    RoomOrdered(t, pattern, cap);
    var room := MakeRoom(t, pattern, cap);
    if pattern !in room.stats {
      InsertOrdered(room, pattern, cap);
    }
  }

  lemma RecordOrdered(t: Table, pattern: string, o: Observation, l: Limits)
    requires Ordered(t, l.cap) && Usable(l)
    ensures Ordered(Record(t, pattern, o, l), l.cap)
  {
    hide Distinct, Admit, Observe;
    AdmitOrdered(t, pattern, l.cap);
    var admitted := Admit(t, pattern, l.cap);
    var after := Record(t, pattern, o, l);
    assert after.stats.Keys == admitted.stats.Keys;
    assert |after.stats.Keys| == |after.stats| && |admitted.stats.Keys| == |admitted.stats|;
  }

  lemma RemoveOrdered(t: Table, pattern: string, cap: nat)
    requires Ordered(t, cap)
    ensures Ordered(Remove(t, pattern), cap)
  {
    hide Distinct, Without;
    WithoutSpec(t.order, pattern);
    var after := t.stats - {pattern};
    assert after.Keys <= t.stats.Keys;
    SubsetSize(after.Keys, t.stats.Keys);
    assert |after.Keys| == |after| && |t.stats.Keys| == |t.stats|;
  }

  lemma SubsetSize(a: set<string>, b: set<string>)
    requires a <= b
    ensures |a| <= |b|
  {
    assert b == a + (b - a);
  }

  class PerformanceMonitor {
    const limits: Limits
    var patternStats: map<string, Stats>
    var insertionOrder: seq<string>
    var recentMetrics: seq<Metric>

    ghost predicate Valid()
      reads this
    {
      Usable(limits) && Ordered(Abstract(), limits.cap) && |recentMetrics| <= limits.historySize
    }

    ghost function Abstract(): Table
      reads this
    {
      Table(patternStats, insertionOrder)
    }

    constructor (l: Limits)
      requires Usable(l)
      ensures Valid() && limits == l && Abstract() == Table(map[], []) && recentMetrics == []
    {
      limits := l;
      patternStats, insertionOrder, recentMetrics := map[], [], [];
    }

    method RecordMetric(name: string, time: real, length: int, matched: bool, timeout: bool, now: real)
      requires Valid()
      modifies this
      ensures Valid()
      ensures var o := Observation(if time < 0.0 then 0.0 else time, matched, timeout);
              && Abstract() == Record(old(Abstract()), TrackedName(name), o, limits)
              && recentMetrics
                 == Last(old(recentMetrics) + [Metric(TrackedName(name), o, Max(length, 0), now)], limits.historySize)
    {
      hide Ordered, Observe;
      var pattern := TruncatePatternName(name);
      var elapsed, content := time, length;
      if elapsed < 0.0 {
        elapsed := 0.0;
      }
      if content < 0 {
        content := 0;
      }
      recentMetrics := recentMetrics + [Metric(pattern, Observation(elapsed, matched, timeout), content, now)];
      var overflow := |recentMetrics| - limits.historySize;
      if overflow > 0 {
        recentMetrics := recentMetrics[overflow..];
      }
      RecordOrdered(Abstract(), pattern, Observation(elapsed, matched, timeout), limits);
      if pattern !in patternStats {
        if |patternStats| >= limits.cap {
          Oldest(Abstract(), limits.cap);
          var oldest := insertionOrder[0];
          insertionOrder := insertionOrder[1..];
          patternStats := patternStats - {oldest};
        }
        patternStats := patternStats[pattern := NewStats()];
        insertionOrder := insertionOrder + [pattern];
      }
      var stats := UpdatedStats(patternStats[pattern], Observation(elapsed, matched, timeout), limits.window);
      patternStats := patternStats[pattern := stats];
    }

    method RemovePatternStats(name: string)
      requires Valid()
      modifies this`patternStats, this`insertionOrder
      ensures Valid() && Abstract() == Remove(old(Abstract()), TrackedName(name))
    {
      var pattern := TruncatePatternName(name);
      RemoveOrdered(Abstract(), pattern, limits.cap);
      patternStats := patternStats - {pattern};
      insertionOrder := RemoveKey(insertionOrder, pattern);
    }

    method ClearStats()
      requires Valid()
      modifies this
      ensures Valid() && Abstract() == Table(map[], []) && recentMetrics == []
    {
      patternStats := map[];
      insertionOrder := [];
      recentMetrics := [];
    }

    /** One anomaly per pattern and cooldown; an untracked pattern may always emit. */
    method ReserveAnomalyEmission(pattern: string, now: real) returns (emit: bool)
      requires Valid()
      modifies this`patternStats
      ensures Valid()
      ensures emit <==> !(pattern in old(patternStats) && var last := old(patternStats)[pattern].emitted;
                                                          last.Some? && now - last.value < limits.cooldown)
      ensures Abstract() == Stamp(old(Abstract()), pattern, if emit then Some(now) else None)
    {
      StampOrdered(Abstract(), pattern, Some(now), limits.cap);
      if pattern !in patternStats {
        return true;
      }
      var stats := patternStats[pattern];
      if stats.emitted.Some? && now - stats.emitted.value < limits.cooldown {
        return false;
      }
      patternStats := patternStats[pattern := stats.(emitted := Some(now))];
      emit := true;
    }
  }

  function Stamp(t: Table, pattern: string, at: Option<real>): Table {
    if at.None? || pattern !in t.stats then t
    else t.(stats := t.stats[pattern := t.stats[pattern].(emitted := at)])
  }

  lemma StampOrdered(t: Table, pattern: string, at: Option<real>, cap: nat)
    requires Ordered(t, cap)
    ensures Ordered(Stamp(t, pattern, at), cap)
  {
    hide Distinct;
    assert Stamp(t, pattern, at).stats.Keys == t.stats.Keys;
    assert |t.stats.Keys| == |t.stats| && |Stamp(t, pattern, at).stats.Keys| == |Stamp(t, pattern, at).stats|;
  }

  method TruncatePatternName(pattern: string) returns (name: string)
    ensures name == TrackedName(pattern)
  {
    if |pattern| <= MAX_NAME {
      return pattern;
    }
    name := pattern[..MAX_NAME] + TRUNCATED;
  }

  method UpdatedStats(before: Stats, o: Observation, window: nat) returns (stats: Stats)
    ensures stats == Observe(before, o, window)
  {
    hide Mean;
    stats := before.(executions := before.executions + 1);
    if o.matched {
      stats := stats.(matches := stats.matches + 1);
    }
    if o.timeout {
      stats := stats.(timeouts := stats.timeouts + 1);
    } else {
      var recent := stats.recent + [o.time];
      var overflow := |recent| - window;
      if overflow > 0 {
        recent := recent[overflow..];
      }
      stats := stats.(recent := recent);
      if o.time > stats.maximum {
        stats := stats.(maximum := o.time);
      }
      if stats.minimum.None? || o.time < stats.minimum.value {
        stats := stats.(minimum := Some(o.time));
      }
      var average := MeanOf(stats.recent);
      stats := stats.(average := average);
    }
  }

  method MeanOf(values: seq<real>) returns (mean: real)
    ensures mean == Mean(values)
  {
    if |values| == 0 {
      return 0.0;
    }
    var sum := 0.0;
    assert values[..0] == [];
    for i := 0 to |values|
      invariant sum == Sum(values[..i])
    {
      assert values[..i + 1][..i] == values[..i];
      sum := sum + values[i];
    }
    assert values[..|values|] == values;
    mean := sum / (|values| as real);
  }

  // ---------------------------------------------------------------- whole runs

  datatype Event =
    | Recorded(pattern: string, observation: Observation)
    | Removed(pattern: string)
    | Cleared
    | Stamped(pattern: string, at: real)

  /** The observations of each tracked pattern since its tracking began, and when that was. */
  datatype Ledger = Ledger(history: map<string, seq<Observation>>, born: map<string, nat>)

  datatype World = World(table: Table, ledger: Ledger, clock: nat)

  function HistoryAfter(
    history: map<string, seq<Observation>>, out: set<string>, pattern: string, o: Observation)
    : map<string, seq<Observation>>
  {
    var kept := history - out;
    if pattern in kept then kept[pattern := kept[pattern] + [o]] else kept[pattern := [o]]
  }

  function BornAfter(g: Ledger, out: set<string>, pattern: string, clock: nat): map<string, nat> {
    if pattern in g.history - out then g.born - out else (g.born - out)[pattern := clock]
  }

  function Happen(w: World, e: Event, l: Limits): World {
    var t, g, clock := w.table, w.ledger, w.clock + 1;
    match e
    case Recorded(p, o) =>
      var out := Victims(t, p, l.cap);
      World(Record(t, p, o, l), Ledger(HistoryAfter(g.history, out, p, o), BornAfter(g, out, p, w.clock)), clock)
    case Removed(p) => World(Remove(t, p), Ledger(g.history - {p}, g.born - {p}), clock)
    case Cleared => World(Table(map[], []), Ledger(map[], map[]), clock)
    case Stamped(p, at) => World(Stamp(t, p, Some(at)), g, clock)
  }

  function Start(): World { World(Table(map[], []), Ledger(map[], map[]), 0) }

  /** What happens, under the name the pattern is tracked by. */
  function Named(e: Event): Event {
    match e
    case Recorded(p, o) => Recorded(TrackedName(p), o)
    case Removed(p) => Removed(TrackedName(p))
    case _ => e
  }

  function Run(events: seq<Event>, l: Limits): World {
    if events == [] then Start() else Happen(Run(events[..|events| - 1], l), Named(events[|events| - 1]), l)
  }

  /** The patterns stand in the order in which their tracking began. */
  ghost predicate FirstSeen(order: seq<string>, born: map<string, nat>, clock: nat) {
    && (forall i :: 0 <= i < |order| ==> order[i] in born && born[order[i]] < clock)
    && (forall i, j :: 0 <= i < j < |order| && order[i] in born && order[j] in born ==> born[order[i]] < born[order[j]])
  }

  ghost predicate AllReflected(t: Table, history: map<string, seq<Observation>>, window: nat) {
    t.stats.Keys == history.Keys && forall p :: p in t.stats ==> Reflects(t.stats[p], history[p], window)
  }

  ghost predicate Inv(w: World, l: Limits) {
    && Ordered(w.table, l.cap) && AllReflected(w.table, w.ledger.history, l.window)
    && FirstSeen(w.table.order, w.ledger.born, w.clock)
  }

  // ---------------------------------------------------------------- what every event keeps

  lemma StatsAfter(t: Table, pattern: string, o: Observation, l: Limits)
    requires Ordered(t, l.cap) && Usable(l)
    ensures var after, out := Record(t, pattern, o, l), Victims(t, pattern, l.cap);
            && after.stats.Keys == t.stats.Keys - out + {pattern} && pattern !in out
            && after.stats[pattern] == Observe(if pattern in t.stats then t.stats[pattern] else NewStats(), o, l.window)
            && (forall p :: p in t.stats && p !in out && p != pattern ==> after.stats[p] == t.stats[p])
            && after.order
               == (if out == {} then t.order else t.order[1..]) + (if pattern in t.stats then [] else [pattern])
            && (out != {} ==> t.order != [] && out == {t.order[0]} && pattern !in t.stats)
  {
    hide Observe;
    if pattern !in t.stats && |t.stats| >= l.cap && t.order != [] {
      assert t.order[0] in t.order && t.order[0] in t.stats;
    }
    assert t.order + [] == t.order;
  }

  lemma RecordReflects(w: World, pattern: string, o: Observation, l: Limits)
    requires Inv(w, l) && Usable(l)
    ensures var after := Happen(w, Recorded(pattern, o), l);
            AllReflected(after.table, after.ledger.history, l.window)
  {
    hide Reflects, Observe, FirstSeen, Record, Victims, Ordered, HistoryAfter;
    var t, history := w.table, w.ledger.history;
    var out := Victims(t, pattern, l.cap);
    StatsAfter(t, pattern, o, l);
    HistorySays(history, out, pattern, o);
    NothingObserved(l.window);
    if pattern in t.stats {
      ObserveReflects(t.stats[pattern], history[pattern], o, l.window);
    } else {
      ObserveReflects(NewStats(), [], o, l.window);
      assert [] + [o] == [o];
    }
  }

  lemma HistorySays(history: map<string, seq<Observation>>, out: set<string>, pattern: string, o: Observation)
    requires pattern !in out
    ensures var after := HistoryAfter(history, out, pattern, o);
            && after.Keys == history.Keys - out + {pattern}
            && after[pattern] == (if pattern in history then history[pattern] + [o] else [o])
            && (forall p :: p in history && p !in out && p != pattern ==> after[p] == history[p])
  {
  }

  lemma FirstSeenTail(order: seq<string>, born: map<string, nat>, clock: nat)
    requires FirstSeen(order, born, clock) && order != [] && Distinct(order)
    ensures FirstSeen(order[1..], born - {order[0]}, clock)
  {
    var tail, less := order[1..], born - {order[0]};
    forall i | 0 <= i < |tail| ensures tail[i] in less && less[tail[i]] == born[order[i + 1]] {
      assert tail[i] == order[i + 1];
      assert order[0] != order[i + 1];
    }
    forall i, j | 0 <= i < j < |tail| && tail[i] in less && tail[j] in less ensures less[tail[i]] < less[tail[j]] {
      assert tail[i] == order[i + 1] && tail[j] == order[j + 1];
    }
  }

  lemma FirstSeenSnoc(order: seq<string>, born: map<string, nat>, clock: nat, pattern: string)
    requires FirstSeen(order, born, clock) && pattern !in order
    ensures FirstSeen(order + [pattern], born[pattern := clock], clock + 1)
  {
    var after, more := order + [pattern], born[pattern := clock];
    forall i | 0 <= i < |order| ensures after[i] != pattern && more[after[i]] == born[order[i]] {
      assert order[i] in order;
    }
  }

  lemma {:induction false} FirstSeenWithout(order: seq<string>, born: map<string, nat>, clock: nat, pattern: string)
    requires FirstSeen(order, born, clock) && Distinct(order)
    ensures FirstSeen(Without(order, pattern), born - {pattern}, clock)
  {
    hide FirstSeen, Distinct;
    if order == [] {
      NothingSeen(born - {pattern}, clock);
    } else if order[0] == pattern {
      FirstSeenTail(order, born, clock);
    } else {
      FirstSeenDrop(order, born, clock);
      DistinctTail(order);
      FirstSeenWithout(order[1..], born, clock, pattern);
      WithoutSpec(order[1..], pattern);
      FirstSeenCons(order, born, clock, pattern, Without(order[1..], pattern));
    }
  }

  lemma NothingSeen(born: map<string, nat>, clock: nat)
    ensures FirstSeen([], born, clock)
  {
  }

  lemma FirstSeenDrop(order: seq<string>, born: map<string, nat>, clock: nat)
    requires FirstSeen(order, born, clock) && order != []
    ensures FirstSeen(order[1..], born, clock)
  {
    var tail := order[1..];
    forall i | 0 <= i < |tail| ensures tail[i] == order[i + 1] {
    }
  }

  lemma FirstSeenCons(order: seq<string>, born: map<string, nat>, clock: nat, pattern: string, rest: seq<string>)
    requires FirstSeen(order, born, clock) && order != [] && order[0] != pattern
    requires FirstSeen(rest, born - {pattern}, clock) && forall k :: k in rest ==> k in order[1..]
    ensures FirstSeen([order[0]] + rest, born - {pattern}, clock)
  {
    var all, less := [order[0]] + rest, born - {pattern};
    forall j | 0 < j < |all| ensures all[j] in less && less[order[0]] < less[all[j]] {
      assert all[j] == rest[j - 1];
      assert rest[j - 1] in rest;
      var k :| 0 <= k < |order[1..]| && order[1..][k] == all[j];
      assert order[k + 1] == all[j];
    }
    forall i, j | 0 <= i < j < |all| && all[i] in less && all[j] in less ensures less[all[i]] < less[all[j]] {
      if i > 0 {
        assert all[i] == rest[i - 1] && all[j] == rest[j - 1];
      }
    }
  }

  lemma FirstSeenLater(order: seq<string>, born: map<string, nat>, clock: nat)
    requires FirstSeen(order, born, clock)
    ensures FirstSeen(order, born, clock + 1)
  {
  }

  lemma RecordFirstSeen(w: World, pattern: string, o: Observation, l: Limits)
    requires Inv(w, l) && Usable(l)
    ensures var after := Happen(w, Recorded(pattern, o), l);
            FirstSeen(after.table.order, after.ledger.born, after.clock)
  {
    hide Reflects, Observe, FirstSeen, Record, Victims, Ordered, HistoryAfter;
    var t, g := w.table, w.ledger;
    var out := Victims(t, pattern, l.cap);
    StatsAfter(t, pattern, o, l);
    OrderedDistinct(t, l.cap);
    var order := if out == {} then t.order else t.order[1..];
    RoomFirstSeen(t.order, g.born, w.clock, out);
    if pattern in t.stats {
      FirstSeenLater(order, g.born - out, w.clock);
      assert order + [] == order;
    } else {
      NotInOrder(t, l.cap, pattern);
      FirstSeenSnoc(order, g.born - out, w.clock, pattern);
    }
  }

  lemma RoomFirstSeen(order: seq<string>, born: map<string, nat>, clock: nat, out: set<string>)
    requires FirstSeen(order, born, clock) && Distinct(order) && (out == {} || (order != [] && out == {order[0]}))
    ensures FirstSeen(if out == {} then order else order[1..], born - out, clock)
  {
    hide FirstSeen, Distinct;
    if out == {} {
      assert born - out == born;
    } else {
      FirstSeenTail(order, born, clock);
    }
  }

  lemma NotInOrder(t: Table, cap: nat, pattern: string)
    requires Ordered(t, cap) && pattern !in t.stats
    ensures pattern !in t.order && (t.order != [] ==> pattern !in t.order[1..])
  {
    hide Distinct;
  }

  lemma RemoveKept(w: World, pattern: string, l: Limits)
    requires Inv(w, l)
    ensures Inv(Happen(w, Removed(pattern), l), l)
  {
    hide Reflects, FirstSeen, Ordered, Without;
    RemoveOrdered(w.table, pattern, l.cap);
    OrderedDistinct(w.table, l.cap);
    FirstSeenWithout(w.table.order, w.ledger.born, w.clock, pattern);
    FirstSeenLater(Without(w.table.order, pattern), w.ledger.born - {pattern}, w.clock);
  }

  lemma OrderedDistinct(t: Table, cap: nat)
    requires Ordered(t, cap)
    ensures Distinct(t.order)
  {
  }

  lemma StampKept(w: World, pattern: string, at: real, l: Limits)
    requires Inv(w, l)
    ensures Inv(Happen(w, Stamped(pattern, at), l), l)
  {
    hide FirstSeen, Ordered, Times, Count, Mean, Last;
    StampOrdered(w.table, pattern, Some(at), l.cap);
    FirstSeenLater(w.table.order, w.ledger.born, w.clock);
  }

  lemma InvKept(w: World, e: Event, l: Limits)
    requires Inv(w, l) && Usable(l)
    ensures Inv(Happen(w, e, l), l)
  {
    hide Reflects, FirstSeen, Ordered, Record, Victims;
    match e {
      case Recorded(p, o) =>
        RecordOrdered(w.table, p, o, l);
        RecordReflects(w, p, o, l);
        RecordFirstSeen(w, p, o, l);
      case Removed(p) => RemoveKept(w, p, l);
      case Cleared => StartInv(w.clock + 1, l);
      case Stamped(p, at) => StampKept(w, p, at, l);
    }
  }

  lemma StartInv(clock: nat, l: Limits)
    ensures Inv(World(Table(map[], []), Ledger(map[], map[]), clock), l)
  {
  }

  /** Over every run: the order lists the tracked patterns exactly once, in first-seen order and within the
      cap, and each pattern's statistics are those of its observations since its tracking began. */
  lemma {:induction false} RunKeeps(events: seq<Event>, l: Limits)
    requires Usable(l)
    ensures Inv(Run(events, l), l)
  {
    hide Inv, Happen;
    if events == [] {
      StartInv(0, l);
    } else {
      RunKeeps(events[..|events| - 1], l);
      InvKept(Run(events[..|events| - 1], l), Named(events[|events| - 1]), l);
    }
  }

  // ---------------------------------------------------------------- the slowest patterns first

  datatype Timed = Timed(average: real, pattern: string)

  /** Byte-wise order of texts. */
  predicate Less(s: string, t: string) {
    t != "" && (s == "" || s[0] < t[0] || (s[0] == t[0] && Less(s[1..], t[1..])))
  }

  lemma {:induction false} LessTotal(s: string, t: string)
    ensures Less(s, t) || s == t || Less(t, s)
    ensures !(Less(s, t) && Less(t, s)) && (s == t ==> !Less(s, t))
  {
    if s != "" && t != "" && s[0] == t[0] {
      LessTotal(s[1..], t[1..]);
      assert s == [s[0]] + s[1..] && t == [t[0]] + t[1..];
    }
  }

  lemma {:induction false} LessTransitive(s: string, t: string, r: string)
    requires Less(s, t) && Less(t, r)
    ensures Less(s, r)
  {
    if s != "" && s[0] == t[0] && t[0] == r[0] {
      LessTransitive(s[1..], t[1..], r[1..]);
    }
  }

  /** `b` belongs before `a`: slower on average, or as slow with the greater name. */
  predicate Ahead(b: Timed, a: Timed) {
    b.average > a.average || (b.average == a.average && Less(a.pattern, b.pattern))
  }

  lemma NotAheadTransitive(a: Timed, b: Timed, c: Timed)
    requires !Ahead(b, a) && !Ahead(c, b)
    ensures !Ahead(c, a)
  {
    LessTotal(a.pattern, b.pattern);
    LessTotal(b.pattern, c.pattern);
    LessTotal(a.pattern, c.pattern);
    if Less(c.pattern, b.pattern) && Less(b.pattern, a.pattern) {
      LessTransitive(c.pattern, b.pattern, a.pattern);
    }
  }

  /** The first `i` places hold the slowest, in order. */
  ghost predicate SlowestFirst(s: seq<Timed>, i: nat) {
    forall p, q :: 0 <= p < q < |s| && p < i ==> !Ahead(s[q], s[p])
  }

  /** Besides, nothing between `i` and `j` belongs before the entry at `i`. */
  ghost predicate BestSoFar(s: seq<Timed>, i: nat, j: nat)
    requires i < |s|
  {
    forall q :: i < q < j && q < |s| ==> !Ahead(s[q], s[i])
  }

  lemma Exchanged(s: seq<Timed>, i: nat, j: nat)
    requires i < j < |s| && SlowestFirst(s, i) && BestSoFar(s, i, j)
    ensures if Ahead(s[j], s[i])
            then var t := s[i := s[j]][j := s[i]]; SlowestFirst(t, i) && BestSoFar(t, i, j + 1)
            else BestSoFar(s, i, j + 1)
  {
    if Ahead(s[j], s[i]) {
      var t := s[i := s[j]][j := s[i]];
      forall p, q | 0 <= p < q < |t| && p < i ensures !Ahead(t[q], t[p]) {
        assert t[p] == s[p];
        assert t[q] == s[if q == i then j else if q == j then i else q];
      }
      forall q | i < q < j + 1 ensures !Ahead(t[q], t[i]) {
        AheadAsymmetric(s[j], s[i]);
        if q < j {
          NotAheadTransitive(s[j], s[i], s[q]);
        }
      }
    }
  }

  lemma AheadAsymmetric(b: Timed, a: Timed)
    requires Ahead(b, a)
    ensures !Ahead(a, b)
  {
    LessTotal(a.pattern, b.pattern);
  }

  lemma PlaceFilled(s: seq<Timed>, i: nat)
    requires i < |s| && SlowestFirst(s, i) && BestSoFar(s, i, |s|)
    ensures SlowestFirst(s, i + 1)
  {
    hide Ahead;
  }

  /** The exchange sort of the report, in place. */
  method SortSlowestFirst(a: array<Timed>)
    modifies a
    ensures SlowestFirst(a[..], a.Length) && multiset(a[..]) == multiset(old(a[..]))
  {
    hide SlowestFirst, BestSoFar, Ahead;
    NothingPlaced(a[..]);
    for i := 0 to a.Length
      invariant SlowestFirst(a[..], i) && multiset(a[..]) == multiset(old(a[..]))
    {
      NothingCompared(a[..], i);
      for j := i + 1 to a.Length
        invariant SlowestFirst(a[..], i) && BestSoFar(a[..], i, j) && multiset(a[..]) == multiset(old(a[..]))
      {
        Exchanged(a[..], i, j);
        if Ahead(a[j], a[i]) {
          ghost var before := a[..];
          a[i], a[j] := a[j], a[i];
          assert a[..] == before[i := before[j]][j := before[i]];
        }
      }
      PlaceFilled(a[..], i);
    }
  }

  lemma NothingPlaced(s: seq<Timed>)
    ensures SlowestFirst(s, 0)
  {
  }

  lemma NothingCompared(s: seq<Timed>, i: nat)
    requires i < |s|
    ensures BestSoFar(s, i, i + 1)
  {
  }
}
