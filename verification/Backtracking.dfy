/** What a backtracking regex engine finds: the reference the hand-written finders are held to
    (guardcore/matchers.go:350-354). */
module Backtracking {

  type Rune = int

  datatype Re =
    | One(cls: Rune -> bool)
    | Cat(first: Re, second: Re)
    | Alt(left: Re, right: Re)
    | Star(body: Re)
    | NotAfter(cls: Rune -> bool)

  ghost predicate EndsWithin(ends: seq<nat>, low: nat, high: nat) {
    forall k :: 0 <= k < |ends| ==> low <= ends[k] <= high
  }

  /** The ends of the matches that start at `i`, in the order in which the engine tries them:
      the left alternative first, one more repetition before none. */
  ghost function Ends(r: Re, s: seq<Rune>, i: nat): (ends: seq<nat>)
    requires i <= |s|
    ensures EndsWithin(ends, i, |s|)
    decreases r, |s| - i, 0, 0
  {
    match r
    case One(cls) => if i < |s| && cls(s[i]) then [i + 1] else []
    case Cat(first, second) => EndsFrom(second, s, Ends(first, s, i), i)
    case Alt(left, right) => Ends(left, s, i) + Ends(right, s, i)
    case Star(body) => Again(r, s, Ends(body, s, i), i) + [i]
    case NotAfter(cls) => if i > 0 && cls(s[i - 1]) then [] else [i]
  }

  ghost function EndsFrom(r: Re, s: seq<Rune>, starts: seq<nat>, low: nat): (ends: seq<nat>)
    requires low <= |s| && EndsWithin(starts, low, |s|)
    ensures EndsWithin(ends, low, |s|)
    decreases r, |s| - low, 1, |starts|
  {
    if starts == [] then [] else Ends(r, s, starts[0]) + EndsFrom(r, s, starts[1..], low)
  }

  /** Further repetitions, after an iteration that consumed something. */
  ghost function Again(r: Re, s: seq<Rune>, starts: seq<nat>, low: nat): (ends: seq<nat>)
    requires r.Star? && low <= |s| && EndsWithin(starts, low, |s|)
    ensures EndsWithin(ends, low, |s|)
    decreases r, |s| - low, 0, 0, |starts|
  {
    if starts == [] then []
    else
      var rest := Again(r, s, starts[1..], low);
      if starts[0] == low then rest else Ends(r, s, starts[0]) + rest
  }

  datatype Match = Match(start: nat, end: nat)

  /** The leftmost match from `i` on, if any. */
  ghost function Search(r: Re, s: seq<Rune>, i: nat): (found: seq<Match>)
    requires i <= |s|
    ensures |found| <= 1
    ensures found != [] ==> i <= found[0].start <= found[0].end <= |s|
    decreases |s| - i
  {
    if Ends(r, s, i) != [] then [Match(i, Ends(r, s, i)[0])]
    else if i == |s| then []
    else Search(r, s, i + 1)
  }

  /** All matches, each searched for where the previous one ended. */
  ghost function FindAll(r: Re, s: seq<Rune>, i: nat): seq<Match>
    requires i <= |s| + 1
    decreases |s| + 1 - i
  {
    if i > |s| || Search(r, s, i) == [] then []
    else
      var m := Search(r, s, i)[0];
      [m] + FindAll(r, s, if m.end > m.start then m.end else m.end + 1)
  }

  lemma {:induction false} EndsFromConcat(r: Re, s: seq<Rune>, a: seq<nat>, b: seq<nat>, low: nat)
    requires low <= |s| && EndsWithin(a, low, |s|) && EndsWithin(b, low, |s|)
    ensures EndsFrom(r, s, a + b, low) == EndsFrom(r, s, a, low) + EndsFrom(r, s, b, low)
    decreases |a|
  {
    hide Ends;
    if a == [] {
      assert a + b == b;
    } else {
      assert (a + b)[1..] == a[1..] + b;
      EndsFromConcat(r, s, a[1..], b, low);
    }
  }

  lemma {:induction false} EndsFromLow(r: Re, s: seq<Rune>, a: seq<nat>, low: nat, lower: nat)
    requires lower <= low <= |s| && EndsWithin(a, low, |s|)
    ensures EndsFrom(r, s, a, low) == EndsFrom(r, s, a, lower)
    decreases |a|
  {
    hide Ends;
    if a != [] {
      EndsFromLow(r, s, a[1..], low, lower);
    }
  }

  lemma EndsFromOne(r: Re, s: seq<Rune>, at: nat, low: nat)
    requires low <= at <= |s|
    ensures EndsFrom(r, s, [at], low) == Ends(r, s, at)
  {
    hide Ends;
    assert EndsFrom(r, s, [at][1..], low) == [];
    assert Ends(r, s, at) + [] == Ends(r, s, at);
  }

  /** A position without match is passed over. */
  lemma NoMatchHere(r: Re, s: seq<Rune>, i: nat)
    requires i < |s| && Ends(r, s, i) == []
    ensures FindAll(r, s, i) == FindAll(r, s, i + 1)
  {
    hide Ends;
    assert Search(r, s, i) == Search(r, s, i + 1);
  }

  lemma MatchHere(r: Re, s: seq<Rune>, i: nat)
    requires i < |s| && Ends(r, s, i) != [] && Ends(r, s, i)[0] > i
    ensures FindAll(r, s, i) == [Match(i, Ends(r, s, i)[0])] + FindAll(r, s, Ends(r, s, i)[0])
  {
    hide Ends;
  }

  lemma NothingLeft(r: Re, s: seq<Rune>)
    requires Ends(r, s, |s|) == []
    ensures FindAll(r, s, |s|) == []
  {
    hide Ends;
  }
}
