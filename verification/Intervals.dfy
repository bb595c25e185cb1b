/** Sets of code points as sorted lists of inclusive intervals (guardcore/redos_intervals.go).

    The set operations are written twice: as recursive functions, which the rest of the
    model computes with, and as the loops of the source, which are proved to return the
    same lists.  Both rest on `CanonicalUnique`: a canonical list is determined by its members. */
module Intervals {
  import opened Texts

  const MIN_CODE_POINT := 0
  const MAX_CODE_POINT := 0x10FFFF

  datatype Interval = Interval(low: int, high: int)

  /** The receiver of the source's methods; its slice is never changed after construction. */
  type IntervalSet = seq<Interval>

  predicate Within(c: int, iv: Interval) {
    iv.low <= c <= iv.high
  }

  predicate Valid(iv: Interval) {
    MIN_CODE_POINT <= iv.low <= iv.high <= MAX_CODE_POINT
  }

  predicate AllValid(s: seq<Interval>) {
    forall i :: 0 <= i < |s| ==> Valid(s[i])
  }

  predicate Member(c: int, s: seq<Interval>) {
    exists i :: 0 <= i < |s| && Within(c, s[i])
  }

  /** Sorted, disjoint and not touching. */
  predicate Canonical(s: seq<Interval>) {
    && AllValid(s)
    && forall i, j :: 0 <= i < j < |s| ==> s[i].high + 1 < s[j].low
  }

  lemma CanonicalAllValid(s: IntervalSet)
    requires Canonical(s)
    ensures AllValid(s)
  {
  }

  ghost predicate SameMembers(s: seq<Interval>, t: seq<Interval>) {
    forall c :: Member(c, s) <==> Member(c, t)
  }

  // ---------------------------------------------------------------- membership

  lemma MemberCons(c: int, s: seq<Interval>)
    requires s != []
    ensures Member(c, s) <==> Within(c, s[0]) || Member(c, s[1..])
  {
    if Member(c, s) && !Within(c, s[0]) {
      var i :| 0 <= i < |s| && Within(c, s[i]);
      assert s[1..][i - 1] == s[i];
    }
  }

  lemma MemberConcat(c: int, s: seq<Interval>, t: seq<Interval>)
    ensures Member(c, s + t) <==> Member(c, s) || Member(c, t)
  {
    if Member(c, s) {
      var i :| 0 <= i < |s| && Within(c, s[i]);
      assert (s + t)[i] == s[i];
    }
    if Member(c, t) {
      var i :| 0 <= i < |t| && Within(c, t[i]);
      assert (s + t)[|s| + i] == t[i];
    }
  }

  lemma MemberAtLeastHead(c: int, s: seq<Interval>)
    requires Canonical(s)
    ensures Member(c, s) ==> s[0].low <= c <= MAX_CODE_POINT
  {
    if Member(c, s) {
      var i :| 0 <= i < |s| && Within(c, s[i]);
      assert s[0].low <= s[i].low;
    }
  }

  /** The gap after the first interval belongs to no interval of a canonical list. */
  lemma GapAfterHead(s: seq<Interval>)
    requires Canonical(s) && s != []
    ensures !Member(s[0].high + 1, s)
    ensures s[0].low > 0 ==> !Member(s[0].low - 1, s)
  {
    MemberCons(s[0].high + 1, s);
    MemberAtLeastHead(s[0].high + 1, s[1..]);
    MemberAtLeastHead(s[0].low - 1, s);
  }

  lemma {:induction false} CanonicalHeads(s: seq<Interval>, t: seq<Interval>)
    requires Canonical(s) && Canonical(t) && SameMembers(s, t) && s != []
    ensures t != [] && s[0] == t[0]
  {
    assert Within(s[0].low, s[0]);
    assert Member(s[0].low, t);
    assert Within(t[0].low, t[0]);
    MemberAtLeastHead(s[0].low, t);
    MemberAtLeastHead(t[0].low, s);
    GapAfterHead(s);
    GapAfterHead(t);
    assert !Within(s[0].high + 1, t[0]) && !Within(t[0].high + 1, s[0]);
  }

  /** A canonical list is the only canonical list with its members. */
  lemma {:induction false} CanonicalUnique(s: seq<Interval>, t: seq<Interval>)
    requires Canonical(s) && Canonical(t) && SameMembers(s, t)
    ensures s == t
  {
    if s == [] {
      if t != [] {
        CanonicalHeads(t, s);
      }
    } else {
      CanonicalHeads(s, t);
      forall c ensures Member(c, s[1..]) <==> Member(c, t[1..]) {
        MemberCons(c, s);
        MemberCons(c, t);
        MemberAtLeastHead(c, s[1..]);
        MemberAtLeastHead(c, t[1..]);
      }
      CanonicalUnique(s[1..], t[1..]);
      assert s == [s[0]] + s[1..] && t == [t[0]] + t[1..];
    }
  }

  // ---------------------------------------------------------------- specification functions

  /** Adds one interval to a canonical list, swallowing what it touches. */
  function Insert(iv: Interval, s: IntervalSet): IntervalSet
    decreases |s|
  {
    if s == [] then [iv]
    else if iv.high + 1 < s[0].low then [iv] + s
    else if s[0].high + 1 < iv.low then [s[0]] + Insert(iv, s[1..])
    else Insert(Interval(Min(iv.low, s[0].low), Max(iv.high, s[0].high)), s[1..])
  }

  lemma {:induction false} InsertSpec(iv: Interval, s: IntervalSet)
    requires Valid(iv) && Canonical(s)
    ensures Canonical(Insert(iv, s)) && Insert(iv, s) != []
    ensures Insert(iv, s)[0].low == if s == [] then iv.low else Min(iv.low, s[0].low)
    ensures forall c :: Member(c, Insert(iv, s)) <==> Within(c, iv) || Member(c, s)
    decreases |s|
  {
    if s == [] {
      MembersOfCons(iv, [], Insert(iv, s));
    } else {
      TailCanonical(s);
      MembersOfCons(s[0], s[1..], s);
      if iv.high + 1 < s[0].low {
        ConsCanonical(iv, s);
        MembersOfCons(iv, s, Insert(iv, s));
      } else if s[0].high + 1 < iv.low {
        InsertSpec(iv, s[1..]);
        ConsCanonical(s[0], Insert(iv, s[1..]));
        MembersOfCons(s[0], Insert(iv, s[1..]), Insert(iv, s));
      } else {
        InsertSpec(Interval(Min(iv.low, s[0].low), Max(iv.high, s[0].high)), s[1..]);
      }
    }
  }

  lemma TailCanonical(s: IntervalSet)
    requires Canonical(s) && s != []
    ensures Canonical(s[1..]) && Valid(s[0])
    ensures |s| > 1 ==> s[0].high + 1 < s[1..][0].low
  {
  }

  lemma ConsCanonical(iv: Interval, tail: IntervalSet)
    requires Valid(iv) && Canonical(tail)
    requires tail != [] ==> iv.high + 1 < tail[0].low
    ensures Canonical([iv] + tail)
  {
    var r := [iv] + tail;
    forall i, j | 0 <= i < j < |r| ensures r[i].high + 1 < r[j].low {
      if i == 0 {
        assert r[j] == tail[j - 1] && tail[0].low <= tail[j - 1].low;
      }
    }
  }

  lemma MembersOfCons(iv: Interval, s: IntervalSet, r: IntervalSet)
    requires r == [iv] + s
    ensures forall c :: Member(c, r) <==> Within(c, iv) || Member(c, s)
  {
    forall c ensures Member(c, r) <==> Within(c, iv) || Member(c, s) {
      MemberCons(c, r);
      assert r[1..] == s;
    }
  }

  /** The canonical list with the members of `pairs`. */
  function Normalize(pairs: seq<Interval>): IntervalSet {
    if pairs == [] then [] else Insert(pairs[0], Normalize(pairs[1..]))
  }

  lemma {:induction false} NormalizeSpec(pairs: seq<Interval>)
    requires AllValid(pairs)
    ensures Canonical(Normalize(pairs))
    ensures SameMembers(Normalize(pairs), pairs)
  {
    if pairs != [] {
      NormalizeSpec(pairs[1..]);
      InsertSpec(pairs[0], Normalize(pairs[1..]));
      MembersOfCons(pairs[0], pairs[1..], pairs);
    }
  }

  function Full(): IntervalSet { [Interval(MIN_CODE_POINT, MAX_CODE_POINT)] }

  function Single(c: int): IntervalSet { [Interval(c, c)] }

  /** Clamps to the code-point range; an inverted range is empty. */
  function Range(low: int, high: int): IntervalSet {
    var l, h := Max(low, MIN_CODE_POINT), Min(high, MAX_CODE_POINT);
    if l > h then [] else [Interval(l, h)]
  }

  lemma SingleCanonical(c: int)
    requires MIN_CODE_POINT <= c <= MAX_CODE_POINT
    ensures Canonical(Single(c))
  {
  }

  lemma RangeSpec(low: int, high: int)
    ensures Canonical(Range(low, high))
    ensures forall c :: Member(c, Range(low, high)) <==> low <= c <= high && MIN_CODE_POINT <= c <= MAX_CODE_POINT
  {
    var l, h := Max(low, MIN_CODE_POINT), Min(high, MAX_CODE_POINT);
    MembersOfCons(Interval(l, h), [], [Interval(l, h)]);
  }

  function Union(s: IntervalSet, t: IntervalSet): IntervalSet {
    Normalize(s + t)
  }

  lemma UnionSpec(s: IntervalSet, t: IntervalSet)
    requires AllValid(s) && AllValid(t)
    ensures Canonical(Union(s, t))
    ensures forall c :: Member(c, Union(s, t)) <==> Member(c, s) || Member(c, t)
  {
    NormalizeSpec(s + t);
    forall c ensures Member(c, Union(s, t)) <==> Member(c, s) || Member(c, t) {
      MemberConcat(c, s, t);
    }
  }

  /** Everything from `cursor` up that is not in `s`. */
  function ComplementFrom(s: IntervalSet, cursor: int): IntervalSet {
    if s == [] then
      if cursor <= MAX_CODE_POINT then [Interval(cursor, MAX_CODE_POINT)] else []
    else
      (if cursor < s[0].low then [Interval(cursor, s[0].low - 1)] else []) + ComplementFrom(s[1..], s[0].high + 1)
  }

  lemma EmptyComplement(cursor: int)
    requires 0 <= cursor
    ensures Canonical(ComplementFrom([], cursor))
    ensures forall c :: Member(c, ComplementFrom([], cursor)) <==> cursor <= c <= MAX_CODE_POINT
  {
    if cursor <= MAX_CODE_POINT {
      MembersOfCons(Interval(cursor, MAX_CODE_POINT), [], [Interval(cursor, MAX_CODE_POINT)]);
    }
  }

  lemma {:induction false} ComplementFromSpec(s: IntervalSet, cursor: int)
    requires Canonical(s) && 0 <= cursor && (s != [] ==> cursor <= s[0].low)
    ensures Canonical(ComplementFrom(s, cursor))
    ensures ComplementFrom(s, cursor) != [] ==> cursor <= ComplementFrom(s, cursor)[0].low
    ensures forall c :: Member(c, ComplementFrom(s, cursor)) <==> cursor <= c <= MAX_CODE_POINT && !Member(c, s)
  {
    if s == [] {
      EmptyComplement(cursor);
    } else {
      var gap := if cursor < s[0].low then [Interval(cursor, s[0].low - 1)] else [];
      var tail := ComplementFrom(s[1..], s[0].high + 1);
      TailCanonical(s);
      ComplementFromSpec(s[1..], s[0].high + 1);
      GapMembers(s, cursor, tail);
      GapCanonical(cursor, s[0], tail);
      assert ComplementFrom(s, cursor) == gap + tail;
    }
  }

  lemma GapCanonical(cursor: int, head: Interval, tail: IntervalSet)
    requires 0 <= cursor <= head.low && Valid(head) && Canonical(tail)
    requires tail != [] ==> head.high + 1 <= tail[0].low
    ensures var gap := if cursor < head.low then [Interval(cursor, head.low - 1)] else [];
            Canonical(gap + tail) && (gap + tail != [] ==> cursor <= (gap + tail)[0].low)
  {
    if cursor < head.low {
      ConsCanonical(Interval(cursor, head.low - 1), tail);
    } else {
      assert [] + tail == tail;
    }
  }

  lemma GapMembers(s: IntervalSet, cursor: int, tail: IntervalSet)
    requires Canonical(s) && s != [] && 0 <= cursor <= s[0].low
    requires forall c :: Member(c, tail) <==> s[0].high + 1 <= c <= MAX_CODE_POINT && !Member(c, s[1..])
    ensures var gap := if cursor < s[0].low then [Interval(cursor, s[0].low - 1)] else [];
            forall c :: Member(c, gap + tail) <==> cursor <= c <= MAX_CODE_POINT && !Member(c, s)
  {
    var gap := if cursor < s[0].low then [Interval(cursor, s[0].low - 1)] else [];
    MembersOfCons(s[0], s[1..], s);
    forall c ensures Member(c, gap + tail) <==> cursor <= c <= MAX_CODE_POINT && !Member(c, s) {
      MemberConcat(c, gap, tail);
      if cursor < s[0].low {
        assert Within(c, gap[0]) <==> cursor <= c < s[0].low;
      }
      MemberAtLeastHead(c, s[1..]);
    }
  }

  function Complement(s: IntervalSet): IntervalSet {
    ComplementFrom(s, MIN_CODE_POINT)
  }

  lemma ComplementSpec(s: IntervalSet)
    requires Canonical(s)
    ensures Canonical(Complement(s))
    ensures forall c :: Member(c, Complement(s)) <==> MIN_CODE_POINT <= c <= MAX_CODE_POINT && !Member(c, s)
  {
    ComplementFromSpec(s, MIN_CODE_POINT);
  }

  function Overlap(a: Interval, b: Interval): seq<Interval> {
    var low, high := Max(a.low, b.low), Min(a.high, b.high);
    if low <= high then [Interval(low, high)] else []
  }

  /** The overlaps of two canonical lists, met in order. */
  function Intersection(s: IntervalSet, t: IntervalSet): IntervalSet
    decreases |s| + |t|
  {
    if s == [] || t == [] then []
    else Overlap(s[0], t[0]) + if s[0].high < t[0].high then Intersection(s[1..], t) else Intersection(s, t[1..])
  }

  lemma {:induction false} IntersectionSpec(s: IntervalSet, t: IntervalSet)
    requires Canonical(s) && Canonical(t)
    ensures Canonical(Intersection(s, t))
    ensures forall c :: Member(c, Intersection(s, t)) <==> Member(c, s) && Member(c, t)
    decreases |s| + |t|
  {
    if s != [] && t != [] {
      var rest := if s[0].high < t[0].high then Intersection(s[1..], t) else Intersection(s, t[1..]);
      TailCanonical(s);
      TailCanonical(t);
      if s[0].high < t[0].high {
        IntersectionSpec(s[1..], t);
      } else {
        IntersectionSpec(s, t[1..]);
      }
      IntersectionMembers(s, t, rest);
      OverlapCanonical(s, t, rest);
    }
  }

  lemma OverlapCanonical(s: IntervalSet, t: IntervalSet, rest: IntervalSet)
    requires Canonical(s) && Canonical(t) && s != [] && t != [] && Canonical(rest)
    requires s[0].high < t[0].high ==> forall c :: Member(c, rest) <==> Member(c, s[1..]) && Member(c, t)
    requires !(s[0].high < t[0].high) ==> forall c :: Member(c, rest) <==> Member(c, s) && Member(c, t[1..])
    ensures Canonical(Overlap(s[0], t[0]) + rest)
  {
    if rest != [] {
      RestStartsPast(s, t, rest);
    }
    if Overlap(s[0], t[0]) != [] {
      ConsCanonical(Overlap(s[0], t[0])[0], rest);
    } else {
      assert [] + rest == rest;
    }
  }

  lemma IntersectionMembers(s: IntervalSet, t: IntervalSet, rest: IntervalSet)
    requires Canonical(s) && Canonical(t) && s != [] && t != []
    requires s[0].high < t[0].high ==> forall c :: Member(c, rest) <==> Member(c, s[1..]) && Member(c, t)
    requires !(s[0].high < t[0].high) ==> forall c :: Member(c, rest) <==> Member(c, s) && Member(c, t[1..])
    ensures forall c :: Member(c, Overlap(s[0], t[0]) + rest) <==> Member(c, s) && Member(c, t)
  {
    OverlapMembers(s[0], t[0]);
    forall c ensures Member(c, Overlap(s[0], t[0]) + rest) <==> Member(c, s) && Member(c, t) {
      MemberConcat(c, Overlap(s[0], t[0]), rest);
      MemberCons(c, s);
      MemberCons(c, t);
      MemberAtLeastHead(c, s[1..]);
      MemberAtLeastHead(c, t[1..]);
    }
  }

  lemma OverlapMembers(a: Interval, b: Interval)
    ensures forall c :: Member(c, Overlap(a, b)) <==> Within(c, a) && Within(c, b)
  {
    forall c ensures Member(c, Overlap(a, b)) <==> Within(c, a) && Within(c, b) {
      if Within(c, a) && Within(c, b) {
        assert Within(c, Overlap(a, b)[0]);
      }
    }
  }

  /** What is still to be met starts beyond a gap after the overlap just met. */
  lemma RestStartsPast(s: IntervalSet, t: IntervalSet, rest: IntervalSet)
    requires Canonical(s) && Canonical(t) && s != [] && t != [] && Canonical(rest) && rest != []
    requires s[0].high < t[0].high ==> forall c :: Member(c, rest) <==> Member(c, s[1..]) && Member(c, t)
    requires !(s[0].high < t[0].high) ==> forall c :: Member(c, rest) <==> Member(c, s) && Member(c, t[1..])
    ensures Min(s[0].high, t[0].high) + 1 < rest[0].low
  {
    assert Within(rest[0].low, rest[0]) && Member(rest[0].low, rest);
    if s[0].high < t[0].high {
      MemberAtLeastHead(rest[0].low, s[1..]);
    } else {
      MemberAtLeastHead(rest[0].low, t[1..]);
    }
  }

  function Difference(s: IntervalSet, t: IntervalSet): IntervalSet {
    Intersection(s, Complement(t))
  }

  lemma DifferenceSpec(s: IntervalSet, t: IntervalSet)
    requires Canonical(s) && Canonical(t)
    ensures Canonical(Difference(s, t))
    ensures forall c :: Member(c, Difference(s, t)) <==> Member(c, s) && !Member(c, t)
  {
    ComplementSpec(t);
    IntersectionSpec(s, Complement(t));
    forall c ensures Member(c, s) ==> MIN_CODE_POINT <= c <= MAX_CODE_POINT {
      MemberAtLeastHead(c, s);
    }
  }

  // ---------------------------------------------------------------- laws as list equalities

  lemma DoubleComplement(s: IntervalSet)
    requires Canonical(s)
    ensures Complement(Complement(s)) == s
  {
    ComplementSpec(s);
    ComplementSpec(Complement(s));
    forall c ensures Member(c, s) ==> MIN_CODE_POINT <= c <= MAX_CODE_POINT {
      MemberAtLeastHead(c, s);
    }
    CanonicalUnique(Complement(Complement(s)), s);
  }

  lemma DeMorgan(s: IntervalSet, t: IntervalSet)
    requires Canonical(s) && Canonical(t)
    ensures Complement(Union(s, t)) == Intersection(Complement(s), Complement(t))
    ensures Complement(Intersection(s, t)) == Union(Complement(s), Complement(t))
  {
    UnionSpec(s, t);
    IntersectionSpec(s, t);
    ComplementSpec(s);
    ComplementSpec(t);
    ComplementSpec(Union(s, t));
    ComplementSpec(Intersection(s, t));
    UnionSpec(Complement(s), Complement(t));
    IntersectionSpec(Complement(s), Complement(t));
    CanonicalUnique(Complement(Union(s, t)), Intersection(Complement(s), Complement(t)));
    CanonicalUnique(Complement(Intersection(s, t)), Union(Complement(s), Complement(t)));
  }

  /** Two lists of valid pairs normalise alike exactly when they have the same members;
      normalising again changes nothing. */
  lemma NormalizeIsCanonicalForm(pairs: seq<Interval>, other: seq<Interval>)
    requires AllValid(pairs) && AllValid(other)
    ensures Normalize(pairs) == Normalize(other) <==> SameMembers(pairs, other)
    ensures Normalize(Normalize(pairs)) == Normalize(pairs)
  {
    NormalizeSpec(pairs);
    NormalizeSpec(other);
    NormalizeSpec(Normalize(pairs));
    if SameMembers(pairs, other) {
      CanonicalUnique(Normalize(pairs), Normalize(other));
    }
    CanonicalUnique(Normalize(Normalize(pairs)), Normalize(pairs));
  }

  // ---------------------------------------------------------------- the source's loops

  ghost predicate SortedByLow(a: seq<Interval>, n: nat) {
    n <= |a| && forall i, j :: 0 <= i < j < n ==> a[i].low <= a[j].low
  }

  method SwapDown(a: array<Interval>, j: nat)
    requires 0 < j < a.Length
    modifies a
    ensures a[..] == old(a[..])[j := old(a[j - 1])][j - 1 := old(a[j])]
    ensures multiset(a[..]) == multiset(old(a[..]))
  {
    a[j], a[j - 1] := a[j - 1], a[j];
  }

  /** Sorted up to `i` once the element at `j` is left out, and that element is below what follows it. */
  ghost predicate SortedAround(s: seq<Interval>, i: nat, j: nat) {
    && j <= i < |s|
    && (forall p, q :: 0 <= p < q <= i && p != j && q != j ==> s[p].low <= s[q].low)
    && (forall q :: j < q <= i ==> s[j].low <= s[q].low)
  }

  /** Insertion sort by swapping neighbours. */
  method SortIntervals(a: array<Interval>)
    modifies a
    ensures SortedByLow(a[..], a.Length)
    ensures multiset(a[..]) == multiset(old(a[..]))
  {
    var i := 1;
    while i < a.Length
      invariant 1 <= i
      invariant SortedByLow(a[..], Min(i, a.Length))
      invariant multiset(a[..]) == multiset(old(a[..]))
    {
      var j := i;
      while j > 0 && a[j].low < a[j - 1].low
        invariant 0 <= j <= i
        invariant SortedAround(a[..], i, j)
        invariant multiset(a[..]) == multiset(old(a[..]))
      {
        SwapDown(a, j);
        j := j - 1;
      }
      Sunk(a[..], i, j);
      i := i + 1;
    }
  }

  lemma Sunk(s: seq<Interval>, i: nat, j: nat)
    requires SortedAround(s, i, j)
    requires j == 0 || s[j - 1].low <= s[j].low
    ensures SortedByLow(s, i + 1)
  {
    forall p, q | 0 <= p < q < i + 1 ensures s[p].low <= s[q].low {
      if q == j {
        assert p == j - 1 || s[p].low <= s[j - 1].low;
      }
    }
  }

  lemma SameMultisetSameMembers(s: seq<Interval>, t: seq<Interval>)
    requires multiset(s) == multiset(t)
    ensures SameMembers(s, t)
    ensures AllValid(s) <==> AllValid(t)
  {
    assert forall iv :: iv in multiset(s) <==> iv in s;
    assert forall iv :: iv in multiset(t) <==> iv in t;
    forall c ensures Member(c, s) <==> Member(c, t) {
      if Member(c, s) {
        var i :| 0 <= i < |s| && Within(c, s[i]);
        assert s[i] in t;
      }
      if Member(c, t) {
        var i :| 0 <= i < |t| && Within(c, t[i]);
        assert t[i] in s;
      }
    }
    if AllValid(t) {
      forall i | 0 <= i < |s| ensures Valid(s[i]) { assert s[i] in t; }
    }
    if AllValid(s) {
      forall i | 0 <= i < |t| ensures Valid(t[i]) { assert t[i] in s; }
    }
  }

  lemma MemberSnoc(s: seq<Interval>, iv: Interval)
    ensures forall c :: Member(c, s + [iv]) <==> Member(c, s) || Within(c, iv)
  {
    forall c ensures Member(c, s + [iv]) <==> Member(c, s) || Within(c, iv) {
      MemberConcat(c, s, [iv]);
      assert Member(c, [iv]) <==> Within(c, [iv][0]);
    }
  }

  lemma MemberGrowLast(s: seq<Interval>, iv: Interval)
    requires s != [] && s[|s| - 1].low <= iv.low <= s[|s| - 1].high + 1 && iv.low <= iv.high
    ensures var last := s[|s| - 1];
            forall c :: Member(c, s[|s| - 1 := Interval(last.low, Max(last.high, iv.high))])
                        <==> Member(c, s) || Within(c, iv)
  {
    var last := s[|s| - 1];
    var grown := Interval(last.low, Max(last.high, iv.high));
    var init := s[..|s| - 1];
    assert s == init + [last] && s[|s| - 1 := grown] == init + [grown];
    MemberSnoc(init, last);
    MemberSnoc(init, grown);
  }

  method NormalizeIntervals(pairs: seq<Interval>) returns (merged: IntervalSet)
    requires AllValid(pairs)
    ensures merged == Normalize(pairs)
  {
    if |pairs| == 0 {
      return [];
    }
    var a := new Interval[|pairs|](i requires 0 <= i < |pairs| => pairs[i]);
    assert a[..] == pairs;
    SortIntervals(a);
    var sorted := a[..];
    SameMultisetSameMembers(sorted, pairs);
    merged := [sorted[0]];
    assert forall c :: Member(c, sorted[..1]) <==> Within(c, sorted[..1][0]);
    assert forall c :: Member(c, merged) <==> Within(c, merged[0]);
    for k := 1 to |sorted|
      invariant merged != [] && Canonical(merged)
      invariant merged[|merged| - 1].low <= sorted[k - 1].low
      invariant forall c :: Member(c, merged) <==> Member(c, sorted[..k])
    {
      var pair := sorted[k];
      assert sorted[..k + 1] == sorted[..k] + [pair];
      MemberSnoc(sorted[..k], pair);
      var last := merged[|merged| - 1];
      if pair.low <= last.high + 1 {
        MemberGrowLast(merged, pair);
        if pair.high > last.high {
          merged := merged[|merged| - 1 := Interval(last.low, pair.high)];
        } else {
          assert merged == merged[|merged| - 1 := Interval(last.low, last.high)];
        }
      } else {
        MemberSnoc(merged, pair);
        merged := merged + [pair];
      }
    }
    assert sorted[..|sorted|] == sorted;
    NormalizeSpec(pairs);
    CanonicalUnique(merged, Normalize(pairs));
  }

  /** Binary search. */
  method Contains(s: IntervalSet, codePoint: int) returns (found: bool)
    requires Canonical(s)
    ensures found <==> Member(codePoint, s)
  {
    var lo, hi := 0, |s|;
    while lo < hi
      invariant 0 <= lo <= hi <= |s|
      invariant forall i :: 0 <= i < lo ==> s[i].high < codePoint
      invariant forall i :: hi <= i < |s| ==> codePoint < s[i].low
    {
      var mid := (lo + hi) / 2;
      var iv := s[mid];
      if codePoint < iv.low {
        hi := mid;
      } else if codePoint > iv.high {
        lo := mid + 1;
      } else {
        assert Within(codePoint, s[mid]);
        return true;
      }
    }
    return false;
  }

  /** Two cursors, one per list. */
  method IntersectionLoop(left: IntervalSet, right: IntervalSet) returns (r: IntervalSet)
    requires Canonical(left) && Canonical(right)
    ensures r == Intersection(left, right)
  {
    var result: seq<Interval> := [];
    var i, j := 0, 0;
    ghost var goal := Intersection(left, right);
    while i < |left| && j < |right|
      invariant 0 <= i <= |left| && 0 <= j <= |right|
      invariant Remaining(result, left[i..], right[j..], goal)
      decreases |left| - i + |right| - j
    {
      var a, b := left[i], right[j];
      var low, high := Max(a.low, b.low), Min(a.high, b.high);
      IntersectionStep(result, left[i..], right[j..], goal);
      assert left[i..][1..] == left[i + 1..] && right[j..][1..] == right[j + 1..];
      if low <= high {
        result := result + [Interval(low, high)];
      } else {
        assert result + [] == result;
      }
      if a.high < b.high {
        i := i + 1;
      } else {
        j := j + 1;
      }
    }
    IntersectionSpec(left, right);
    r := Renormalize(result, goal);
  }

  ghost predicate Remaining(done: seq<Interval>, s: IntervalSet, t: IntervalSet, goal: IntervalSet) {
    done + Intersection(s, t) == goal
  }

  lemma IntersectionStep(done: seq<Interval>, s: IntervalSet, t: IntervalSet, goal: IntervalSet)
    requires s != [] && t != [] && Remaining(done, s, t, goal)
    ensures if s[0].high < t[0].high then Remaining(done + Overlap(s[0], t[0]), s[1..], t, goal)
            else Remaining(done + Overlap(s[0], t[0]), s, t[1..], goal)
  {
    var rest := if s[0].high < t[0].high then Intersection(s[1..], t) else Intersection(s, t[1..]);
    assert done + (Overlap(s[0], t[0]) + rest) == done + Overlap(s[0], t[0]) + rest;
  }

  /** The final normalisation of a list that is already canonical. */
  method Renormalize(result: seq<Interval>, ghost want: IntervalSet) returns (r: IntervalSet)
    requires Canonical(want) && result == want
    ensures r == want
  {
    r := NormalizeIntervals(result);
    NormalizeSpec(result);
    CanonicalUnique(r, want);
  }

  /** One cursor over the gaps. */
  method ComplementLoop(s: IntervalSet) returns (r: IntervalSet)
    requires Canonical(s)
    ensures r == Complement(s)
  {
    var result: seq<Interval> := [];
    var cursor := MIN_CODE_POINT;
    ghost var goal := Complement(s);
    for k := 0 to |s|
      invariant GapsRemaining(result, s[k..], cursor, goal)
    {
      var iv := s[k];
      GapStep(result, s[k..], cursor, goal);
      assert s[k..][1..] == s[k + 1..];
      if iv.low > cursor {
        result := result + [Interval(cursor, iv.low - 1)];
      } else {
        assert result + [] == result;
      }
      cursor := iv.high + 1;
    }
    assert s[|s|..] == [];
    if cursor <= MAX_CODE_POINT {
      result := result + [Interval(cursor, MAX_CODE_POINT)];
    }
    ComplementSpec(s);
    r := Renormalize(result, goal);
  }

  ghost predicate GapsRemaining(done: seq<Interval>, s: IntervalSet, cursor: int, goal: IntervalSet) {
    done + ComplementFrom(s, cursor) == goal
  }

  lemma GapStep(done: seq<Interval>, s: IntervalSet, cursor: int, goal: IntervalSet)
    requires s != [] && GapsRemaining(done, s, cursor, goal)
    ensures GapsRemaining(done + if cursor < s[0].low then [Interval(cursor, s[0].low - 1)] else [],
                          s[1..], s[0].high + 1, goal)
  {
    var gap := if cursor < s[0].low then [Interval(cursor, s[0].low - 1)] else [];
    var tail := ComplementFrom(s[1..], s[0].high + 1);
    assert done + (gap + tail) == done + gap + tail;
  }

  method UnionOf(s: IntervalSet, t: IntervalSet) returns (r: IntervalSet)
    requires Canonical(s) && Canonical(t)
    ensures r == Union(s, t) && Canonical(r)
  {
    r := NormalizeIntervals(s + t);
    NormalizeSpec(s + t);
  }

  method DifferenceOf(s: IntervalSet, t: IntervalSet) returns (r: IntervalSet)
    requires Canonical(s) && Canonical(t)
    ensures r == Difference(s, t)
  {
    ComplementSpec(t);
    var c := ComplementLoop(t);
    r := IntersectionLoop(s, c);
  }
}
