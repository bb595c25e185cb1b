/** The character-set loops behind the atoms of a pattern (guardcore/redos_escape.go). */
module RegexCharSets {
  import opened Intervals
  import opened RegexSyntax
  import opened Texts

  ghost predicate RunsUpTo(p: int -> bool, pairs: seq<Interval>, start: int, cp: int) {
    && AllValid(pairs)
    && -1 <= start < cp
    && (start >= 0 ==> forall c :: start <= c < cp ==> p(c))
    && forall c :: Member(c, pairs) <==> 0 <= c < (if start >= 0 then start else cp) && p(c)
  }

  /** One scan over all code points, collecting maximal runs. */
  method ComputeCategoryIntervals(u: Tables, category: Category, ascii: bool) returns (s: IntervalSet)
    ensures s == CodePointsWhere(c => InCategory(u, category, ascii, c))
  {
    ghost var p := c => InCategory(u, category, ascii, c);
    var pairs: seq<Interval> := [];
    var start := -1;
    for cp := 0 to MAX_CODE_POINT + 1
      invariant RunsUpTo(p, pairs, start, cp)
    {
      if InCategory(u, category, ascii, cp) {
        if start < 0 {
          start := cp;
        }
      } else if start >= 0 {
        MemberSnoc(pairs, Interval(start, cp - 1));
        pairs := pairs + [Interval(start, cp - 1)];
        start := -1;
      }
    }
    if start >= 0 {
      MemberSnoc(pairs, Interval(start, MAX_CODE_POINT));
      pairs := pairs + [Interval(start, MAX_CODE_POINT)];
    }
    s := NormalizeIntervals(pairs);
    NormalizeSpec(pairs);
    CodePointsUnique(p, s);
  }

  ghost predicate Closed(u: Tables, s: IntervalSet, i: nat, m: int, c: int) {
    || (exists k :: 0 <= k < i && k < |s| && Within(c, s[k]))
    || (exists n, k :: 0 <= k < i && k < |s| && Scanned(n, s[k]) && (u.lower(n) == c || u.upper(n) == c))
    || (i < |s| && s[i].low <= c < m)
    || (i < |s| && exists n :: s[i].low <= n < m && (u.lower(n) == c || u.upper(n) == c))
  }

  ghost predicate ClosedUpTo(u: Tables, s: IntervalSet, i: nat, m: int, pairs: seq<Interval>) {
    && AllValid(pairs)
    && forall c :: Member(c, pairs) <==> Closed(u, s, i, m, c)
  }

  /** The case variants of one code point. */
  method CaseVariants(u: Tables, cp: int) returns (pairs: seq<Interval>)
    requires Sane(u) && IsCodePoint(cp)
    ensures AllValid(pairs)
    ensures forall c :: Member(c, pairs) <==> c == cp || c == u.lower(cp) || c == u.upper(cp)
  {
    pairs := [Interval(cp, cp)];
    MemberSnoc([], Interval(cp, cp));
    assert [] + [Interval(cp, cp)] == pairs;
    var lo := u.lower(cp);
    if lo != cp {
      MemberSnoc(pairs, Interval(lo, lo));
      pairs := pairs + [Interval(lo, lo)];
    }
    var up := u.upper(cp);
    if up != cp {
      MemberSnoc(pairs, Interval(up, up));
      pairs := pairs + [Interval(up, up)];
    }
  }

  /** Scans at most CASE_SCAN members of each interval through the case tables. */
  method CloseCase(u: Tables, s: IntervalSet) returns (r: IntervalSet)
    requires Sane(u) && Canonical(s)
    ensures r == CaseClosure(u, s)
  {
    var pairs: seq<Interval> := [];
    for i := 0 to |s|
      invariant ClosedUpTo(u, s, i, if i < |s| then s[i].low else 0, pairs)
    {
      var ceiling := Min(s[i].low + CASE_SCAN, s[i].high + 1);
      var cp := s[i].low;
      while cp < ceiling
        invariant s[i].low <= cp <= ceiling
        invariant ClosedUpTo(u, s, i, cp, pairs)
      {
        var variants := CaseVariants(u, cp);
        ClosedStep(u, s, i, cp, pairs, variants);
        pairs := pairs + variants;
        cp := cp + 1;
      }
      ClosedNext(u, s, i, ceiling, pairs);
      if s[i].high >= ceiling {
        pairs := pairs + [Interval(ceiling, s[i].high)];
      } else {
        assert pairs + [] == pairs;
      }
    }
    r := NormalizeIntervals(pairs);
    NormalizeSpec(pairs);
    forall c ensures Member(c, r) <==> IsCodePoint(c) && InCaseClosure(u, s, c) {
      assert Member(c, r) <==> Closed(u, s, |s|, 0, c);
      if Member(c, r) {
        MemberAtLeastHead(c, r);
      }
    }
    CodePointsUnique(c => InCaseClosure(u, s, c), r);
  }

  lemma ClosedStep(u: Tables, s: IntervalSet, i: nat, cp: int, pairs: seq<Interval>, variants: seq<Interval>)
    requires i < |s| && s[i].low <= cp && AllValid(variants)
    requires ClosedUpTo(u, s, i, cp, pairs)
    requires forall c :: Member(c, variants) <==> c == cp || c == u.lower(cp) || c == u.upper(cp)
    ensures ClosedUpTo(u, s, i, cp + 1, pairs + variants)
  {
    forall c ensures Member(c, pairs + variants) <==> Closed(u, s, i, cp + 1, c) {
      MemberConcat(c, pairs, variants);
    }
  }

  lemma ClosedNext(u: Tables, s: IntervalSet, i: nat, ceiling: int, pairs: seq<Interval>)
    requires i < |s| && Canonical(s) && ceiling == Min(s[i].low + CASE_SCAN, s[i].high + 1)
    requires ClosedUpTo(u, s, i, ceiling, pairs)
    ensures var rest := if s[i].high >= ceiling then [Interval(ceiling, s[i].high)] else [];
            ClosedUpTo(u, s, i + 1, if i + 1 < |s| then s[i + 1].low else 0, pairs + rest)
  {
    var rest := if s[i].high >= ceiling then [Interval(ceiling, s[i].high)] else [];
    var m := if i + 1 < |s| then s[i + 1].low else 0;
    forall c ensures Member(c, pairs + rest) <==> Closed(u, s, i + 1, m, c) {
      MemberConcat(c, pairs, rest);
      assert Member(c, rest) <==> ceiling <= c <= s[i].high by {
        if ceiling <= c <= s[i].high {
          assert Within(c, rest[0]);
        }
      }
      ClosedFlush(u, s, i, ceiling, m, c);
    }
  }

  lemma ClosedFlush(u: Tables, s: IntervalSet, i: nat, ceiling: int, m: int, c: int)
    requires i < |s| && Canonical(s) && ceiling == Min(s[i].low + CASE_SCAN, s[i].high + 1)
    requires i + 1 < |s| ==> m == s[i + 1].low
    ensures Closed(u, s, i + 1, m, c) <==> Closed(u, s, i, ceiling, c) || ceiling <= c <= s[i].high
  {
    assert forall n :: s[i].low <= n < ceiling <==> Scanned(n, s[i]);
    if Closed(u, s, i, ceiling, c) || ceiling <= c <= s[i].high {
      if s[i].low <= c <= s[i].high {
        assert Within(c, s[i]);
      } else if exists n :: s[i].low <= n < ceiling && (u.lower(n) == c || u.upper(n) == c) {
        var n :| s[i].low <= n < ceiling && (u.lower(n) == c || u.upper(n) == c);
        assert Scanned(n, s[i]);
      }
    }
  }

  method ExpandIgnoreCaseLoop(u: Tables, s: IntervalSet, flags: Flags) returns (r: IntervalSet)
    requires Sane(u) && Canonical(s)
    ensures r == ExpandIgnoreCase(u, s, flags)
  {
    if !flags.ignoreCase {
      return s;
    }
    r := CloseCase(u, s);
  }

  method CategoryIntervalsFor(u: Tables, category: Category, flags: Flags) returns (s: IntervalSet)
    requires Sane(u)
    ensures s == CategoryMembers(u, category, flags)
  {
    s := ComputeCategoryIntervals(u, category, flags.ascii);
    if flags.ignoreCase && !flags.ascii {
      s := CloseCase(u, s);
    }
  }

  method AnyIntervals(flags: Flags) returns (s: IntervalSet)
    ensures s == AnyMembers(flags)
  {
    if flags.dotAll {
      return Full();
    }
    s := ComplementLoop(Single('\n' as int));
    ComplementSpec(Single('\n' as int));
    s := IntersectionLoop(Full(), s);
  }
}
