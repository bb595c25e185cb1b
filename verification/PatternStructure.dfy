/** What the scans for group ends and top-level bars find (guardcore/redos_structure.go:15-28, 76-96,
    179-203). */
module PatternStructure {
  import opened ReachProbe
  import opened Terminator
  import opened Texts

  /** Just past the escape, the class or the single character at `j`. */
  function TokenPast(text: string, j: nat): (next: nat)
    requires j < |text|
    ensures j < next <= |text|
  {
    if text[j] == '\\' && j + 1 < |text| then j + 2
    else if text[j] == '[' then SkipClass(text, j)
    else j + 1
  }

  /** Between `j` and `m` lie whole escapes, classes and single characters. */
  predicate Boundary(text: string, j: nat, m: nat)
    requires j <= |text|
    decreases |text| - j
  {
    j == m || (j < m && j < |text| && Boundary(text, TokenPast(text, j), m))
  }

  function Weight(c: char): int {
    if c == '(' then 1 else if c == ')' then -1 else 0
  }

  /** Opening minus closing parentheses between `j` and `m`, outside escapes and classes. */
  function Balance(text: string, j: nat, m: nat): int
    requires j <= |text| && Boundary(text, j, m)
    decreases |text| - j
  {
    if j == m then 0 else Weight(text[j]) + Balance(text, TokenPast(text, j), m)
  }

  /** The parentheses from `j` on close `depth` open ones at `r` and not before. */
  predicate FirstClose(text: string, j: nat, depth: nat, r: nat)
    requires j <= |text|
  {
    && Boundary(text, j, r) && depth + Balance(text, j, r) == 0
    && forall m :: j <= m < r && Boundary(text, j, m) ==> depth + Balance(text, j, m) > 0
  }

  /** The scan for the end of a group finds the first place where the parentheses outside escapes and
      classes balance, and nothing when there is none. */
  lemma {:induction false} GroupEndExact(text: string, j: nat, depth: nat, r: nat)
    requires j <= |text|
    ensures GroupEndFrom(text, j, depth) == Some(r) <==> FirstClose(text, j, depth, r)
    decreases |text| - j
  {
    hide SkipClass;
    if depth > 0 && j < |text| {
      var next := TokenPast(text, j);
      var deeper := depth + Weight(text[j]);
      GroupEndStep(text, j, depth);
      GroupEndExact(text, next, deeper, r);
      FirstCloseStep(text, j, depth, r);
    } else if depth == 0 {
      ClosedAtOnce(text, j, r);
    }
  }

  lemma GroupEndStep(text: string, j: nat, depth: nat)
    requires j < |text| && depth > 0
    ensures GroupEndFrom(text, j, depth) == GroupEndFrom(text, TokenPast(text, j), depth + Weight(text[j]))
  {
    hide SkipClass;
  }

  lemma ClosedAtOnce(text: string, j: nat, r: nat)
    requires j <= |text|
    ensures FirstClose(text, j, 0, r) <==> r == j
  {
    assert Boundary(text, j, j) && Balance(text, j, j) == 0;
  }

  lemma BoundaryStep(text: string, j: nat, m: nat)
    requires j < |text| && m != j
    ensures Boundary(text, j, m) <==> Boundary(text, TokenPast(text, j), m)
    ensures Boundary(text, j, m) ==> TokenPast(text, j) <= m
    ensures Boundary(text, j, m) ==> Balance(text, j, m) == Weight(text[j]) + Balance(text, TokenPast(text, j), m)
  {
    hide TokenPast;
  }

  lemma FirstCloseStep(text: string, j: nat, depth: nat, r: nat)
    requires j < |text| && depth > 0
    ensures FirstClose(text, j, depth, r) <==> FirstClose(text, TokenPast(text, j), depth + Weight(text[j]), r)
  {
    hide Boundary, Balance, TokenPast;
    var next, deeper := TokenPast(text, j), depth + Weight(text[j]);
    Here(text, j);
    if r != j {
      BoundaryStep(text, j, r);
    }
    if FirstClose(text, j, depth, r) {
      forall m | next <= m < r && Boundary(text, next, m) ensures deeper + Balance(text, next, m) > 0 {
        BoundaryStep(text, j, m);
      }
    }
    if FirstClose(text, next, deeper, r) {
      Ahead(text, next, r);
      forall m | j <= m < r && Boundary(text, j, m) ensures depth + Balance(text, j, m) > 0 {
        if m != j {
          BoundaryStep(text, j, m);
        }
      }
    }
  }

  lemma Here(text: string, j: nat)
    requires j <= |text|
    ensures Boundary(text, j, j) && Balance(text, j, j) == 0
  {
  }

  lemma Ahead(text: string, j: nat, m: nat)
    requires j <= |text| && Boundary(text, j, m)
    ensures j <= m
  {
  }

  // ---------------------------------------------------------------- alternatives

  function JoinedByBars(branches: seq<string>): string
    requires branches != []
  {
    if |branches| == 1 then branches[0] else branches[0] + "|" + JoinedByBars(branches[1..])
  }

  /** The positions of the bars between branches whose first one starts at `start`. */
  function Cuts(branches: seq<string>, start: nat): set<nat>
    requires branches != []
  {
    if |branches| == 1 then {}
    else {start + |branches[0]|} + Cuts(branches[1..], start + |branches[0]| + 1)
  }

  /** A bar outside escapes, classes and groups. */
  predicate TopBar(inner: string, k: nat, depth: int, p: nat)
    requires k <= |inner|
  {
    p < |inner| && inner[p] == '|' && Boundary(inner, k, p) && depth + Balance(inner, k, p) == 0
  }

  lemma {:induction false} BranchesFrom(inner: string, k: nat, start: nat, depth: int)
    requires start <= k <= |inner|
    ensures JoinedByBars(Branches(inner, k, start, depth)) == inner[start..]
    ensures forall p: nat :: p in Cuts(Branches(inner, k, start, depth), start) <==> TopBar(inner, k, depth, p)
    decreases |inner| - k
  {
    hide SkipClass, TopBar;
    if k == |inner| {
      NoBarLeft(inner, depth);
    } else if inner[k] == '|' && depth == 0 {
      BranchesFrom(inner, k + 1, k + 1, 0);
      var rest := Branches(inner, k + 1, k + 1, 0);
      var all := [inner[start..k]] + rest;
      assert Branches(inner, k, start, depth) == all;
      assert all[0] == inner[start..k] && all[1..] == rest;
      assert inner[start..] == inner[start..k] + "|" + inner[k + 1..];
      forall p: nat ensures p in Cuts(all, start) <==> TopBar(inner, k, depth, p) {
        TopBarStep(inner, k, depth, p);
      }
    } else {
      var next, deeper := TokenPast(inner, k), depth + Weight(inner[k]);
      BranchesFrom(inner, next, start, deeper);
      BranchesStep(inner, k, start, depth);
      forall p: nat ensures TopBar(inner, k, depth, p) <==> TopBar(inner, next, deeper, p) {
        TopBarStep(inner, k, depth, p);
      }
    }
  }

  lemma BranchesStep(inner: string, k: nat, start: nat, depth: int)
    requires start <= k < |inner| && !(inner[k] == '|' && depth == 0)
    ensures Branches(inner, k, start, depth) == Branches(inner, TokenPast(inner, k), start, depth + Weight(inner[k]))
  {
    hide SkipClass;
  }

  lemma NoBarLeft(inner: string, depth: int)
    ensures forall p: nat :: !TopBar(inner, |inner|, depth, p)
  {
  }

  lemma TopBarStep(inner: string, k: nat, depth: int, p: nat)
    requires k < |inner|
    ensures TopBar(inner, k, depth, p) <==>
            (p == k && inner[k] == '|' && depth == 0) || TopBar(inner, TokenPast(inner, k), depth + Weight(inner[k]), p)
  {
    hide Boundary, Balance, TokenPast;
    var next, deeper := TokenPast(inner, k), depth + Weight(inner[k]);
    if p != k {
      BoundaryStep(inner, k, p);
    } else {
      Here(inner, k);
      if TopBar(inner, next, deeper, p) {
        Ahead(inner, next, p);
      }
    }
  }

  /** Joined by bars the branches of a group give its text back, and the bars between them are exactly
      those outside escapes, classes and inner groups. */
  lemma SplitExact(inner: string)
    ensures JoinedByBars(Branches(inner, 0, 0, 0)) == inner
    ensures forall p: nat :: p in Cuts(Branches(inner, 0, 0, 0), 0) <==> TopBar(inner, 0, 0, p)
  {
    hide Branches, Cuts, TopBar, JoinedByBars;
    BranchesFrom(inner, 0, 0, 0);
    assert inner[0..] == inner;
  }
}
