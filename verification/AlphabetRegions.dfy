/** Splitting a set of characters into regions that no constraint tells apart
    (guardcore/redos_slots.go:240-287). */
module AlphabetRegions {
  import opened Intervals

  function NonEmpty(s: IntervalSet): seq<IntervalSet> {
    if s == [] then [] else [s]
  }

  /** One region cut by a constraint, the empty parts dropped. */
  function Cut(region: IntervalSet, constraint: IntervalSet): seq<IntervalSet> {
    NonEmpty(Intersection(region, constraint)) + NonEmpty(Difference(region, constraint))
  }

  function Split(regions: seq<IntervalSet>, constraint: IntervalSet): seq<IntervalSet> {
    if regions == [] then [] else Cut(regions[0], constraint) + Split(regions[1..], constraint)
  }

  function SplitAll(regions: seq<IntervalSet>, constraints: seq<IntervalSet>): seq<IntervalSet> {
    if constraints == [] then regions
    else Split(SplitAll(regions, constraints[..|constraints| - 1]), constraints[|constraints| - 1])
  }

  // ---------------------------------------------------------------- how a split looks to single characters

  /** How many of the regions contain a character. */
  function Count(c: int, regions: seq<IntervalSet>): nat {
    if regions == [] then 0 else (if Member(c, regions[0]) then 1 else 0) + Count(c, regions[1..])
  }

  /** Some region contains both characters. */
  predicate Together(c: int, d: int, regions: seq<IntervalSet>) {
    regions != [] && ((Member(c, regions[0]) && Member(d, regions[0])) || Together(c, d, regions[1..]))
  }

  ghost predicate Regular(regions: seq<IntervalSet>) {
    forall i :: 0 <= i < |regions| ==> Canonical(regions[i]) && regions[i] != []
  }

  ghost predicate AllCanonical(sets: seq<IntervalSet>) {
    forall i :: 0 <= i < |sets| ==> Canonical(sets[i])
  }

  /** Both characters are members, or neither is, of every set. */
  ghost predicate Alike(c: int, d: int, sets: seq<IntervalSet>) {
    forall i :: 0 <= i < |sets| ==> (Member(c, sets[i]) <==> Member(d, sets[i]))
  }

  lemma {:induction false} CountConcat(c: int, s: seq<IntervalSet>, t: seq<IntervalSet>)
    ensures Count(c, s + t) == Count(c, s) + Count(c, t)
  {
    if s == [] {
      assert s + t == t;
    } else {
      assert (s + t)[1..] == s[1..] + t;
      CountConcat(c, s[1..], t);
    }
  }

  lemma {:induction false} TogetherConcat(c: int, d: int, s: seq<IntervalSet>, t: seq<IntervalSet>)
    ensures Together(c, d, s + t) <==> Together(c, d, s) || Together(c, d, t)
  {
    if s == [] {
      assert s + t == t;
    } else {
      assert (s + t)[1..] == s[1..] + t;
      TogetherConcat(c, d, s[1..], t);
    }
  }

  lemma OneRegion(c: int, d: int, s: IntervalSet)
    ensures Count(c, NonEmpty(s)) == if Member(c, s) then 1 else 0
    ensures Together(c, d, NonEmpty(s)) <==> Member(c, s) && Member(d, s)
  {
    assert [s][1..] == [];
  }

  /** A cut keeps each member in exactly one part and separates exactly what the constraint separates. */
  lemma CutSpec(c: int, d: int, region: IntervalSet, constraint: IntervalSet)
    requires Canonical(region) && Canonical(constraint)
    ensures Count(c, Cut(region, constraint)) == if Member(c, region) then 1 else 0
    ensures Together(c, d, Cut(region, constraint)) <==>
              Member(c, region) && Member(d, region) && (Member(c, constraint) <==> Member(d, constraint))
  {
    var inside, outside := Intersection(region, constraint), Difference(region, constraint);
    IntersectionSpec(region, constraint);
    DifferenceSpec(region, constraint);
    OneRegion(c, d, inside);
    OneRegion(c, d, outside);
    CountConcat(c, NonEmpty(inside), NonEmpty(outside));
    TogetherConcat(c, d, NonEmpty(inside), NonEmpty(outside));
  }

  lemma {:induction false} SplitSpec(c: int, d: int, regions: seq<IntervalSet>, constraint: IntervalSet)
    requires AllCanonical(regions) && Canonical(constraint)
    requires Count(c, regions) <= 1
    ensures Count(c, Split(regions, constraint)) == Count(c, regions)
    ensures Together(c, d, Split(regions, constraint)) <==>
              Together(c, d, regions) && (Member(c, constraint) <==> Member(d, constraint))
  {
    if regions != [] {
      CutSpec(c, d, regions[0], constraint);
      SplitSpec(c, d, regions[1..], constraint);
      CountConcat(c, Cut(regions[0], constraint), Split(regions[1..], constraint));
      TogetherConcat(c, d, Cut(regions[0], constraint), Split(regions[1..], constraint));
    }
  }

  lemma CutRegular(region: IntervalSet, constraint: IntervalSet)
    requires Canonical(region) && Canonical(constraint)
    ensures Regular(Cut(region, constraint))
  {
    IntersectionSpec(region, constraint);
    DifferenceSpec(region, constraint);
  }

  lemma {:induction false} SplitRegular(regions: seq<IntervalSet>, constraint: IntervalSet)
    requires Regular(regions) && Canonical(constraint)
    ensures Regular(Split(regions, constraint))
  {
    if regions != [] {
      CutRegular(regions[0], constraint);
      SplitRegular(regions[1..], constraint);
    }
  }

  lemma {:induction false} SplitAllRegular(regions: seq<IntervalSet>, constraints: seq<IntervalSet>)
    requires Regular(regions) && AllCanonical(constraints)
    ensures Regular(SplitAll(regions, constraints))
  {
    if constraints != [] {
      SplitAllRegular(regions, constraints[..|constraints| - 1]);
      SplitRegular(SplitAll(regions, constraints[..|constraints| - 1]), constraints[|constraints| - 1]);
    }
  }

  /** Splitting by a list keeps every member in exactly one region, and two members stay
      together exactly when no set of the list tells them apart. */
  lemma {:induction false} SplitAllSpec(c: int, d: int, regions: seq<IntervalSet>, constraints: seq<IntervalSet>)
    requires Regular(regions) && AllCanonical(constraints)
    requires Count(c, regions) <= 1
    ensures Count(c, SplitAll(regions, constraints)) == Count(c, regions)
    ensures Together(c, d, SplitAll(regions, constraints)) <==> Together(c, d, regions) && Alike(c, d, constraints)
  {
    if constraints != [] {
      var n := |constraints| - 1;
      SplitAllSpec(c, d, regions, constraints[..n]);
      SplitAllRegular(regions, constraints[..n]);
      SplitSpec(c, d, SplitAll(regions, constraints[..n]), constraints[n]);
      AlikeSnoc(c, d, constraints);
    }
  }

  lemma AlikeSnoc(c: int, d: int, sets: seq<IntervalSet>)
    requires sets != []
    ensures var n := |sets| - 1;
            Alike(c, d, sets) <==> Alike(c, d, sets[..n]) && (Member(c, sets[n]) <==> Member(d, sets[n]))
  {
    var n := |sets| - 1;
    if Alike(c, d, sets[..n]) && (Member(c, sets[n]) <==> Member(d, sets[n])) {
      forall i | 0 <= i < |sets| ensures Member(c, sets[i]) <==> Member(d, sets[i]) {
        if i < n {
          assert sets[..n][i] == sets[i];
        }
      }
    }
    if Alike(c, d, sets) {
      forall i | 0 <= i < n ensures Member(c, sets[..n][i]) <==> Member(d, sets[..n][i]) {
        assert sets[..n][i] == sets[i];
      }
    }
  }

  // ---------------------------------------------------------------- the same facts about positions

  lemma {:induction false} CountAtLeast(c: int, regions: seq<IntervalSet>, i: nat)
    requires i < |regions| && Member(c, regions[i])
    ensures Count(c, regions) >= 1
    ensures forall d :: Member(d, regions[i]) ==> Together(c, d, regions)
  {
    if i > 0 {
      CountAtLeast(c, regions[1..], i - 1);
    }
  }

  lemma {:induction false} CountTwice(c: int, regions: seq<IntervalSet>, i: nat, j: nat)
    requires i < j < |regions| && Member(c, regions[i]) && Member(c, regions[j])
    ensures Count(c, regions) >= 2
  {
    if i == 0 {
      CountAtLeast(c, regions[1..], j - 1);
    } else {
      CountTwice(c, regions[1..], i - 1, j - 1);
    }
  }

  lemma {:induction false} TogetherWhere(c: int, d: int, regions: seq<IntervalSet>) returns (i: nat)
    requires Together(c, d, regions)
    ensures i < |regions| && Member(c, regions[i]) && Member(d, regions[i])
  {
    if Member(c, regions[0]) && Member(d, regions[0]) {
      i := 0;
    } else {
      i := TogetherWhere(c, d, regions[1..]);
      i := i + 1;
    }
  }

  lemma {:induction false} CountedWhere(c: int, regions: seq<IntervalSet>) returns (i: nat)
    requires Count(c, regions) > 0
    ensures i < |regions| && Member(c, regions[i])
  {
    if Member(c, regions[0]) {
      i := 0;
    } else {
      i := CountedWhere(c, regions[1..]);
      i := i + 1;
    }
  }

  ghost predicate Disjoint(s: IntervalSet, t: IntervalSet) {
    forall c :: !(Member(c, s) && Member(c, t))
  }

  ghost predicate PairwiseDisjoint(regions: seq<IntervalSet>) {
    forall i, j :: 0 <= i < j < |regions| ==> Disjoint(regions[i], regions[j])
  }

  /** The regions cover exactly `all`. */
  ghost predicate Covers(regions: seq<IntervalSet>, all: IntervalSet) {
    && (forall i, c :: 0 <= i < |regions| && Member(c, regions[i]) ==> Member(c, all))
    && (forall c :: Member(c, all) ==> exists i :: 0 <= i < |regions| && Member(c, regions[i]))
  }

  /** Two members of `all` share a region exactly when no set tells them apart. */
  ghost predicate SeparatesExactly(regions: seq<IntervalSet>, sets: seq<IntervalSet>) {
    forall i, j, c, d :: 0 <= i < |regions| && 0 <= j < |regions| && Member(c, regions[i]) && Member(d, regions[j]) ==>
      (i == j <==> Alike(c, d, sets))
  }

  /** Starting from the whole set, the split is its coarsest partition that no constraint cuts. */
  lemma RegionsPartition(all: IntervalSet, constraints: seq<IntervalSet>)
    requires Canonical(all) && all != [] && AllCanonical(constraints)
    ensures var regions := SplitAll([all], constraints);
            Regular(regions) && PairwiseDisjoint(regions) && Covers(regions, all)
              && SeparatesExactly(regions, constraints)
  {
    hide *;
    var regions := SplitAll([all], constraints);
    WholeRegular(all);
    SplitAllRegular([all], constraints);
    forall c ensures Count(c, regions) == if Member(c, all) then 1 else 0 {
      FromWhole(c, c, all, constraints);
    }
    forall c, d
      ensures Together(c, d, regions) <==> Member(c, all) && Member(d, all) && Alike(c, d, constraints)
    {
      FromWhole(c, d, all, constraints);
    }
    RegionsDisjoint(regions);
    RegionsCover(regions, all);
    RegionsSeparate(regions, constraints, all);
  }

  lemma WholeRegular(all: IntervalSet)
    requires Canonical(all) && all != []
    ensures Regular([all])
  {
  }

  lemma FromWhole(c: int, d: int, all: IntervalSet, constraints: seq<IntervalSet>)
    requires Canonical(all) && all != [] && AllCanonical(constraints)
    ensures Count(c, SplitAll([all], constraints)) == if Member(c, all) then 1 else 0
    ensures Together(c, d, SplitAll([all], constraints))
            <==> Member(c, all) && Member(d, all) && Alike(c, d, constraints)
  {
    OneRegion(c, d, all);
    SplitAllSpec(c, d, [all], constraints);
  }

  lemma RegionsDisjoint(regions: seq<IntervalSet>)
    requires forall c :: Count(c, regions) <= 1
    ensures PairwiseDisjoint(regions)
  {
    forall i, j | 0 <= i < j < |regions| ensures Disjoint(regions[i], regions[j]) {
      forall c ensures !(Member(c, regions[i]) && Member(c, regions[j])) {
        if Member(c, regions[i]) && Member(c, regions[j]) {
          CountTwice(c, regions, i, j);
        }
      }
    }
  }

  lemma RegionsCover(regions: seq<IntervalSet>, all: IntervalSet)
    requires forall c :: Count(c, regions) > 0 <==> Member(c, all)
    ensures Covers(regions, all)
  {
    forall i, c | 0 <= i < |regions| && Member(c, regions[i]) ensures Member(c, all) {
      CountAtLeast(c, regions, i);
    }
    forall c | Member(c, all) ensures exists i :: 0 <= i < |regions| && Member(c, regions[i]) {
      var i := CountedWhere(c, regions);
    }
  }

  lemma RegionsSeparate(regions: seq<IntervalSet>, constraints: seq<IntervalSet>, all: IntervalSet)
    requires PairwiseDisjoint(regions) && Covers(regions, all)
    requires forall c, d :: Together(c, d, regions) <==> Member(c, all) && Member(d, all) && Alike(c, d, constraints)
    ensures SeparatesExactly(regions, constraints)
  {
    forall i, j, c, d | 0 <= i < |regions| && 0 <= j < |regions| && Member(c, regions[i]) && Member(d, regions[j])
      ensures i == j <==> Alike(c, d, constraints)
    {
      CountAtLeast(c, regions, i);
      if Alike(c, d, constraints) {
        var k := TogetherWhere(c, d, regions);
        SameRegion(regions, c, i, k);
        SameRegion(regions, d, j, k);
      }
    }
  }

  lemma SameRegion(regions: seq<IntervalSet>, c: int, i: nat, k: nat)
    requires PairwiseDisjoint(regions) && i < |regions| && k < |regions|
    ensures Member(c, regions[i]) && Member(c, regions[k]) ==> i == k
  {
    if i < k {
      assert Disjoint(regions[i], regions[k]);
    } else if k < i {
      assert Disjoint(regions[k], regions[i]);
    }
  }

  // ---------------------------------------------------------------- splitting twice by one set

  ghost predicate Whole(region: IntervalSet, s: IntervalSet) {
    (forall c :: Member(c, region) ==> Member(c, s)) || Disjoint(region, s)
  }

  lemma CutWhole(region: IntervalSet, s: IntervalSet)
    requires Canonical(region) && region != [] && Canonical(s) && Whole(region, s)
    ensures Cut(region, s) == [region]
  {
    IntersectionSpec(region, s);
    DifferenceSpec(region, s);
    if Disjoint(region, s) {
      CanonicalUnique(Difference(region, s), region);
      CanonicalUnique(Intersection(region, s), []);
    } else {
      CanonicalUnique(Intersection(region, s), region);
      CanonicalUnique(Difference(region, s), []);
    }
  }

  lemma {:induction false} SplitWhole(regions: seq<IntervalSet>, s: IntervalSet)
    requires Regular(regions) && Canonical(s)
    requires forall i :: 0 <= i < |regions| ==> Whole(regions[i], s)
    ensures Split(regions, s) == regions
  {
    if regions != [] {
      CutWhole(regions[0], s);
      SplitWhole(regions[1..], s);
    }
  }

  lemma AlreadySplit(all: IntervalSet, constraints: seq<IntervalSet>, s: IntervalSet)
    requires Canonical(all) && all != [] && AllCanonical(constraints) && s in constraints
    ensures Split(SplitAll([all], constraints), s) == SplitAll([all], constraints)
  {
    var regions := SplitAll([all], constraints);
    RegionsPartition(all, constraints);
    var k :| 0 <= k < |constraints| && constraints[k] == s;
    forall i | 0 <= i < |regions| ensures Whole(regions[i], s) {
      RegionWhole(regions, constraints, i, k);
    }
    SplitWhole(regions, s);
  }

  lemma RegionWhole(regions: seq<IntervalSet>, sets: seq<IntervalSet>, i: nat, k: nat)
    requires SeparatesExactly(regions, sets) && i < |regions| && k < |sets|
    ensures Whole(regions[i], sets[k])
  {
    if !Disjoint(regions[i], sets[k]) {
      var d :| Member(d, regions[i]) && Member(d, sets[k]);
      forall c | Member(c, regions[i]) ensures Member(c, sets[k]) {
        assert Alike(c, d, sets);
      }
    }
  }

  // ---------------------------------------------------------------- the loops

  method SplitAlphabet(regions: seq<IntervalSet>, constraint: IntervalSet) returns (result: seq<IntervalSet>)
    requires AllCanonical(regions) && Canonical(constraint)
    ensures result == Split(regions, constraint)
  {
    hide Split, Intersection, Difference;
    result := [];
    for i := 0 to |regions|
      invariant SplitLeft(result, regions, i, constraint)
    {
      var inside := IntersectionLoop(regions[i], constraint);
      var outside := DifferenceOf(regions[i], constraint);
      SplitStep(result, regions, i, constraint);
      if inside != [] {
        result := result + [inside];
      }
      if outside != [] {
        result := result + [outside];
      }
    }
    SplitDone(result, regions, constraint);
  }

  lemma SplitDone(done: seq<IntervalSet>, regions: seq<IntervalSet>, constraint: IntervalSet)
    requires SplitLeft(done, regions, |regions|, constraint)
    ensures done == Split(regions, constraint)
  {
    assert regions[|regions|..] == [];
  }

  ghost predicate SplitLeft(done: seq<IntervalSet>, regions: seq<IntervalSet>, i: nat, constraint: IntervalSet)
    requires i <= |regions|
  {
    done + Split(regions[i..], constraint) == Split(regions, constraint)
  }

  lemma SplitStep(done: seq<IntervalSet>, regions: seq<IntervalSet>, i: nat, constraint: IntervalSet)
    requires i < |regions| && SplitLeft(done, regions, i, constraint)
    ensures var inside, outside := Intersection(regions[i], constraint), Difference(regions[i], constraint);
            SplitLeft(done + NonEmpty(inside) + NonEmpty(outside), regions, i + 1, constraint)
  {
    hide Intersection, Difference;
    assert regions[i..][0] == regions[i] && regions[i..][1..] == regions[i + 1..];
    var inside, outside := Intersection(regions[i], constraint), Difference(regions[i], constraint);
    assert done + NonEmpty(inside) + NonEmpty(outside) == done + (NonEmpty(inside) + NonEmpty(outside));
  }
}
