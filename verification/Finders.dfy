/** Three hand-written scanners and the regular expressions they stand for
    (guardcore/matchers.go:356-492, guardcore/pattern_table.go:57-58, 83). */
module Finders {
  import opened Backtracking
  import opened Texts

  // ---------------------------------------------------------------- the expressions

  const TICK: Rune := 96
  const BACKSLASH: Rune := 92
  const NEWLINE: Rune := 10
  const DOLLAR: Rune := 36
  const LPAREN: Rune := 40
  const RPAREN: Rune := 41
  const LBRACE: Rune := 123
  const RBRACE: Rune := 125
  const AMPERSAND: Rune := 38
  const BAR: Rune := 124

  function Is(c: Rune): Rune -> bool { r => r == c }

  function Other(c: Rune): Rune -> bool { r => r != c }

  function Either(c: Rune, d: Rune): Rune -> bool { r => r == c || r == d }

  function Plain(close: Rune, twin: Rune): Rune -> bool {
    r => r != close && r != twin && r != BACKSLASH && r != NEWLINE
  }

  function Opener(word: Rune -> bool): Rune -> bool {
    r => word(r) || r == '.' as int || r == '/' as int || r == '~' as int
  }

  function Only(c: Rune): Re {
    One(Is(c))
  }

  /** One character that is none of `close`, `twin`, backslash and newline, or an escape. */
  function Unit(close: Rune, twin: Rune): Re {
    Alt(One(Plain(close, twin)), Cat(Only(BACKSLASH), One(Other(NEWLINE))))
  }

  function Quoted(close: Rune, twin: Rune): Re {
    Cat(Star(Unit(close, twin)), Only(close))
  }

  function Opening(word: Rune -> bool): Re {
    Alt(One(Opener(word)), Cat(Only(DOLLAR), One(Either(LPAREN, LBRACE))))
  }

  function BacktickRe(word: Rune -> bool): Re {
    Cat(NotAfter(Is(TICK)), Cat(Only(TICK), Cat(Opening(word), Quoted(TICK, TICK))))
  }

  function DollarBranch(open: Rune, close: Rune): Re {
    Cat(Only(DOLLAR), Cat(Only(open), Quoted(close, open)))
  }

  function DollarRe(): Re {
    Alt(DollarBranch(LPAREN, RPAREN), DollarBranch(LBRACE, RBRACE))
  }

  function LdapRe(space: Rune -> bool): Re {
    Cat(Only(LPAREN), Cat(Star(One(space)), Cat(One(Either(AMPERSAND, BAR)), Star(One(space)))))
  }

  // ---------------------------------------------------------------- the scans as functions

  /** Where a quoted body that starts at `j` ends. */
  function ScanBody(s: seq<Rune>, j: nat, close: Rune, twin: Rune): (r: Option<nat>)
    requires j <= |s|
    ensures r.Some? ==> j < r.value <= |s|
    decreases |s| - j
  {
    if j == |s| then None
    else if s[j] == close then Some(j + 1)
    else if s[j] == NEWLINE || s[j] == twin then None
    else if s[j] == BACKSLASH then
      if j + 1 < |s| && s[j + 1] != NEWLINE then ScanBody(s, j + 2, close, twin) else None
    else ScanBody(s, j + 1, close, twin)
  }

  function ScanBacktick(word: Rune -> bool, s: seq<Rune>, open: nat): (r: Option<nat>)
    requires open < |s|
    ensures r.Some? ==> open < r.value <= |s|
  {
    var j := open + 1;
    if j >= |s| then None
    else if word(s[j]) || s[j] == '.' as int || s[j] == '/' as int || s[j] == '~' as int then
      ScanBody(s, j + 1, TICK, TICK)
    else if s[j] == DOLLAR && j + 1 < |s| && (s[j + 1] == LPAREN || s[j + 1] == LBRACE) then
      ScanBody(s, j + 2, TICK, TICK)
    else None
  }

  // ---------------------------------------------------------------- agreement at one position

  function Ended(r: Option<nat>): seq<nat> {
    if r.Some? then [r.value] else []
  }

  lemma CatEnds(a: Re, b: Re, s: seq<Rune>, i: nat)
    requires i <= |s|
    ensures Ends(Cat(a, b), s, i) == EndsFrom(b, s, Ends(a, s, i), i)
  {
    hide EndsFrom;
  }

  lemma OneEnds(cls: Rune -> bool, b: Re, s: seq<Rune>, i: nat)
    requires i <= |s|
    ensures Ends(Cat(One(cls), b), s, i) == if i < |s| && cls(s[i]) then Ends(b, s, i + 1) else []
  {
    CatEnds(One(cls), b, s, i);
    if i < |s| && cls(s[i]) {
      EndsFromOne(b, s, i + 1, i);
    }
  }

  /** At each position there is at most one unit. */
  lemma UnitEnds(s: seq<Rune>, j: nat, close: Rune, twin: Rune)
    requires j <= |s| && close != BACKSLASH && twin != BACKSLASH
    ensures Ends(Unit(close, twin), s, j) ==
            if j == |s| || s[j] == close || s[j] == twin || s[j] == NEWLINE then []
            else if s[j] != BACKSLASH then [j + 1]
            else if j + 1 < |s| && s[j + 1] != NEWLINE then [j + 2]
            else []
  {
    hide EndsFrom;
    OneEnds(Is(BACKSLASH), One(Other(NEWLINE)), s, j);
  }

  lemma StarEnds(body: Re, s: seq<Rune>, j: nat, next: nat)
    requires j <= |s|
    ensures Ends(body, s, j) == [] ==> Ends(Star(body), s, j) == [j]
    ensures j < next <= |s| && Ends(body, s, j) == [next] ==> Ends(Star(body), s, j) == Ends(Star(body), s, next) + [j]
  {
    if j < next <= |s| && Ends(body, s, j) == [next] {
      assert Again(Star(body), s, [next][1..], j) == [];
      assert Again(Star(body), s, [next], j) == Ends(Star(body), s, next) + [];
    }
  }

  /** The loop over a quoted body finds the one end that the expression allows. */
  lemma {:induction false} QuotedEnds(s: seq<Rune>, j: nat, close: Rune, twin: Rune)
    requires j <= |s| && close != BACKSLASH && twin != BACKSLASH && close != NEWLINE
    ensures Ends(Quoted(close, twin), s, j) == Ended(ScanBody(s, j, close, twin))
    decreases |s| - j
  {
    hide Ends, EndsFrom, Unit;
    var unit, last := Unit(close, twin), Only(close);
    var step := if j < |s| && s[j] == BACKSLASH then j + 2 else j + 1;
    UnitEnds(s, j, close, twin);
    StarEnds(unit, s, j, step);
    CatEnds(Star(unit), last, s, j);
    CloseEnds(s, j, close);
    EndsFromOne(last, s, j, j);
    if Ends(unit, s, j) == [step] {
      var later := Ends(Star(unit), s, step);
      QuotedEnds(s, step, close, twin);
      CatEnds(Star(unit), last, s, step);
      EndsFromConcat(last, s, later, [j], j);
      EndsFromLow(last, s, later, step, j);
    }
  }

  lemma CloseEnds(s: seq<Rune>, j: nat, close: Rune)
    requires j <= |s|
    ensures Ends(Only(close), s, j) == if j < |s| && s[j] == close then [j + 1] else []
  {
  }

  lemma BacktickEnds(word: Rune -> bool, s: seq<Rune>, i: nat)
    requires i <= |s| && !word(DOLLAR)
    ensures Ends(BacktickRe(word), s, i) ==
            if i == |s| || s[i] != TICK || (i > 0 && s[i - 1] == TICK) then [] else Ended(ScanBacktick(word, s, i))
  {
    hide Ends, EndsFrom, Quoted, Opening;
    var body := Cat(Opening(word), Quoted(TICK, TICK));
    NotAfterEnds(Is(TICK), Cat(Only(TICK), body), s, i);
    OneEnds(Is(TICK), body, s, i);
    if i < |s| && s[i] == TICK {
      OpeningEnds(word, s, i + 1);
      CatEnds(Opening(word), Quoted(TICK, TICK), s, i + 1);
      var starts := Ends(Opening(word), s, i + 1);
      if starts == [] {
        NoStarts(Quoted(TICK, TICK), s, i + 1);
      } else {
        EndsFromOne(Quoted(TICK, TICK), s, starts[0], i + 1);
        QuotedEnds(s, starts[0], TICK, TICK);
      }
    }
  }

  lemma NoStarts(r: Re, s: seq<Rune>, low: nat)
    requires low <= |s|
    ensures EndsFrom(r, s, [], low) == []
  {
  }

  lemma NotAfterEnds(cls: Rune -> bool, b: Re, s: seq<Rune>, i: nat)
    requires i <= |s|
    ensures Ends(Cat(NotAfter(cls), b), s, i) == if i > 0 && cls(s[i - 1]) then [] else Ends(b, s, i)
  {
    CatEnds(NotAfter(cls), b, s, i);
    if !(i > 0 && cls(s[i - 1])) {
      EndsFromOne(b, s, i, i);
    }
  }

  lemma OpeningEnds(word: Rune -> bool, s: seq<Rune>, j: nat)
    requires j <= |s| && !word(DOLLAR)
    ensures Ends(Opening(word), s, j) ==
            if j == |s| then []
            else if word(s[j]) || s[j] == '.' as int || s[j] == '/' as int || s[j] == '~' as int then [j + 1]
            else if s[j] == DOLLAR && j + 1 < |s| && (s[j + 1] == LPAREN || s[j + 1] == LBRACE) then [j + 2]
            else []
  {
    hide EndsFrom;
    OneEnds(Is(DOLLAR), One(Either(LPAREN, LBRACE)), s, j);
  }

  lemma DollarBranchEnds(s: seq<Rune>, i: nat, open: Rune, close: Rune)
    requires i <= |s| && close != BACKSLASH && open != BACKSLASH && close != NEWLINE
    ensures Ends(DollarBranch(open, close), s, i) ==
            if i + 1 < |s| && s[i] == DOLLAR && s[i + 1] == open then Ended(ScanBody(s, i + 2, close, open)) else []
  {
    hide Ends, EndsFrom, Quoted;
    OneEnds(Is(DOLLAR), Cat(Only(open), Quoted(close, open)), s, i);
    if i < |s| {
      OneEnds(Is(open), Quoted(close, open), s, i + 1);
      if i + 1 < |s| {
        QuotedEnds(s, i + 2, close, open);
      }
    }
  }

  function ScanDollar(s: seq<Rune>, i: nat): (r: Option<nat>)
    requires i < |s|
    ensures r.Some? ==> i < r.value <= |s|
  {
    if s[i] != DOLLAR || i + 1 >= |s| then None
    else if s[i + 1] == LPAREN then ScanBody(s, i + 2, RPAREN, LPAREN)
    else if s[i + 1] == LBRACE then ScanBody(s, i + 2, RBRACE, LBRACE)
    else None
  }

  lemma DollarEnds(s: seq<Rune>, i: nat)
    requires i <= |s|
    ensures Ends(DollarRe(), s, i) == if i == |s| then [] else Ended(ScanDollar(s, i))
  {
    hide DollarBranch, ScanBody;
    DollarBranchEnds(s, i, LPAREN, RPAREN);
    DollarBranchEnds(s, i, LBRACE, RBRACE);
  }

  // ---------------------------------------------------------------- runs of spaces

  function RunEnd(space: Rune -> bool, s: seq<Rune>, j: nat): (e: nat)
    requires j <= |s|
    ensures j <= e <= |s| && (e < |s| ==> !space(s[e]))
    ensures forall k :: j <= k < e ==> space(s[k])
    decreases |s| - j
  {
    if j < |s| && space(s[j]) then RunEnd(space, s, j + 1) else j
  }

  lemma {:induction false} RunEnds(space: Rune -> bool, s: seq<Rune>, j: nat)
    requires j <= |s|
    ensures Ends(Star(One(space)), s, j) != [] && Ends(Star(One(space)), s, j)[0] == RunEnd(space, s, j)
    decreases |s| - j
  {
    hide Ends;
    SingleEnds(space, s, j);
    StarEnds(One(space), s, j, j + 1);
    if j < |s| && space(s[j]) {
      RunEnds(space, s, j + 1);
    }
  }

  lemma SingleEnds(cls: Rune -> bool, s: seq<Rune>, j: nat)
    requires j <= |s|
    ensures Ends(One(cls), s, j) == if j < |s| && cls(s[j]) then [j + 1] else []
  {
  }

  /** After a run of spaces only its very end can be followed by something that is no space. */
  lemma {:induction false} AfterRun(space: Rune -> bool, next: Re, cls: Rune -> bool, s: seq<Rune>, j: nat)
    requires j <= |s| && forall r :: cls(r) ==> !space(r)
    ensures Ends(Cat(Star(One(space)), Cat(One(cls), next)), s, j) == Ends(Cat(One(cls), next), s, RunEnd(space, s, j))
    decreases |s| - j
  {
    hide Ends, EndsFrom;
    var rest := Cat(One(cls), next);
    SingleEnds(space, s, j);
    StarEnds(One(space), s, j, j + 1);
    CatEnds(Star(One(space)), rest, s, j);
    EndsFromOne(rest, s, j, j);
    if j < |s| && space(s[j]) {
      var later := Ends(Star(One(space)), s, j + 1);
      AfterRun(space, next, cls, s, j + 1);
      CatEnds(Star(One(space)), rest, s, j + 1);
      EndsFromConcat(rest, s, later, [j], j);
      EndsFromLow(rest, s, later, j + 1, j);
      OneEnds(cls, next, s, j);
    }
  }

  function ScanLdap(space: Rune -> bool, s: seq<Rune>, i: nat): (r: Option<nat>)
    requires i < |s|
    ensures r.Some? ==> i < r.value <= |s|
  {
    if s[i] != LPAREN then None
    else
      var j := RunEnd(space, s, i + 1);
      if j >= |s| || (s[j] != AMPERSAND && s[j] != BAR) then None
      else Some(RunEnd(space, s, j + 1))
  }

  /** The first end is the one the engine reports. */
  function First(ends: seq<nat>): Option<nat> {
    if ends == [] then None else Some(ends[0])
  }

  lemma LdapEnds(space: Rune -> bool, s: seq<Rune>, i: nat)
    requires i <= |s| && !space(AMPERSAND) && !space(BAR)
    ensures First(Ends(LdapRe(space), s, i)) == if i == |s| then None else ScanLdap(space, s, i)
  {
    hide Ends, EndsFrom;
    var pick := Either(AMPERSAND, BAR);
    var tail := Star(One(space));
    OneEnds(Is(LPAREN), Cat(Star(One(space)), Cat(One(pick), tail)), s, i);
    if i < |s| && s[i] == LPAREN {
      AfterRun(space, tail, pick, s, i + 1);
      var j := RunEnd(space, s, i + 1);
      OneEnds(pick, tail, s, j);
      if j < |s| {
        RunEnds(space, s, j + 1);
      }
    }
  }

  // ---------------------------------------------------------------- the scanners

  method ScanBacktickCandidateBody(word: Rune -> bool, s: seq<Rune>, open: nat) returns (r: Option<nat>)
    requires open < |s|
    ensures r == ScanBacktick(word, s, open)
  {
    var j := open + 1;
    if j >= |s| {
      return None;
    }
    var c := s[j];
    if word(c) || c == '.' as int || c == '/' as int || c == '~' as int {
      j := j + 1;
    } else if c == DOLLAR && j + 1 < |s| && (s[j + 1] == LPAREN || s[j + 1] == LBRACE) {
      j := j + 2;
    } else {
      return None;
    }
    while j < |s|
      invariant j <= |s| && ScanBacktick(word, s, open) == ScanBody(s, j, TICK, TICK)
    {
      c := s[j];
      if c == TICK {
        return Some(j + 1);
      }
      if c == NEWLINE {
        return None;
      }
      if c == BACKSLASH {
        if j + 1 < |s| && s[j + 1] != NEWLINE {
          j := j + 2;
          continue;
        }
        return None;
      }
      j := j + 1;
    }
    return None;
  }

  method ScanDollarSubstitutionBody(s: seq<Rune>, from: nat, close: Rune, twin: Rune) returns (r: Option<nat>)
    requires from <= |s|
    ensures r == ScanBody(s, from, close, twin)
  {
    var j := from;
    while j < |s|
      invariant j <= |s| && ScanBody(s, from, close, twin) == ScanBody(s, j, close, twin)
    {
      var c := s[j];
      if c == close {
        return Some(j + 1);
      }
      if c == NEWLINE || c == twin {
        return None;
      }
      if c == BACKSLASH {
        if j + 1 < |s| && s[j + 1] != NEWLINE {
          j := j + 2;
          continue;
        }
        return None;
      }
      j := j + 1;
    }
    return None;
  }

  /** What the finders have still to report. */
  ghost predicate MatchesLeft(r: Re, s: seq<Rune>, i: nat, out: seq<Match>)
    requires i <= |s|
  {
    FindAll(r, s, 0) == out + FindAll(r, s, i)
  }

  lemma Reported(r: Re, s: seq<Rune>, i: nat, out: seq<Match>, end: Option<nat>)
    requires i < |s| && MatchesLeft(r, s, i, out)
    requires end.Some? ==> i < end.value <= |s|
    requires First(Ends(r, s, i)) == end
    ensures if end.Some?
            then MatchesLeft(r, s, end.value, out + [Match(i, end.value)])
            else MatchesLeft(r, s, i + 1, out)
  {
    hide Ends, FindAll;
    if end.Some? {
      MatchHere(r, s, i);
    } else {
      NoMatchHere(r, s, i);
    }
  }

  lemma NothingReported(r: Re, s: seq<Rune>)
    ensures MatchesLeft(r, s, 0, [])
  {
    hide FindAll;
  }

  lemma AllReported(r: Re, s: seq<Rune>, out: seq<Match>)
    requires MatchesLeft(r, s, |s|, out) && Ends(r, s, |s|) == []
    ensures out == FindAll(r, s, 0)
  {
    hide Ends, FindAll;
    NothingLeft(r, s);
  }

  method GluedBacktickCandidates(word: Rune -> bool, s: seq<Rune>) returns (out: seq<Match>)
    requires !word(DOLLAR)
    ensures out == FindAll(BacktickRe(word), s, 0)
  {
    hide Ends, FindAll, MatchesLeft, BacktickRe, ScanBacktick;
    ghost var re := BacktickRe(word);
    out := [];
    var i := 0;
    NothingReported(re, s);
    while i < |s|
      invariant i <= |s| && MatchesLeft(re, s, i, out)
    {
      BacktickEnds(word, s, i);
      if s[i] != TICK || (i > 0 && s[i - 1] == TICK) {
        Reported(re, s, i, out, None);
        i := i + 1;
        continue;
      }
      var end := ScanBacktickCandidateBody(word, s, i);
      Reported(re, s, i, out, end);
      if end.None? {
        i := i + 1;
        continue;
      }
      out := out + [Match(i, end.value)];
      i := end.value;
    }
    BacktickEnds(word, s, |s|);
    AllReported(re, s, out);
  }

  method GluedDollarSubstitutionCandidates(s: seq<Rune>) returns (out: seq<Match>)
    ensures out == FindAll(DollarRe(), s, 0)
  {
    hide Ends, FindAll, MatchesLeft, DollarRe, ScanBody;
    ghost var re := DollarRe();
    out := [];
    var i := 0;
    NothingReported(re, s);
    while i < |s|
      invariant i <= |s| && MatchesLeft(re, s, i, out)
    {
      DollarEnds(s, i);
      if s[i] != DOLLAR || i + 1 >= |s| {
        Reported(re, s, i, out, None);
        i := i + 1;
        continue;
      }
      var close, twin;
      if s[i + 1] == LPAREN {
        close, twin := RPAREN, LPAREN;
      } else if s[i + 1] == LBRACE {
        close, twin := RBRACE, LBRACE;
      } else {
        Reported(re, s, i, out, None);
        i := i + 1;
        continue;
      }
      var end := ScanDollarSubstitutionBody(s, i + 2, close, twin);
      Reported(re, s, i, out, end);
      if end.None? {
        i := i + 1;
        continue;
      }
      out := out + [Match(i, end.value)];
      i := end.value;
    }
    DollarEnds(s, |s|);
    AllReported(re, s, out);
  }

  method LdapParenConjunctions(space: Rune -> bool, s: seq<Rune>) returns (out: seq<Match>)
    requires !space(AMPERSAND) && !space(BAR)
    ensures out == FindAll(LdapRe(space), s, 0)
  {
    hide Ends, FindAll, MatchesLeft, LdapRe, RunEnd;
    ghost var re := LdapRe(space);
    out := [];
    var i := 0;
    NothingReported(re, s);
    while i < |s|
      invariant i <= |s| && MatchesLeft(re, s, i, out)
    {
      LdapEnds(space, s, i);
      if s[i] != LPAREN {
        Reported(re, s, i, out, None);
        i := i + 1;
        continue;
      }
      var j := SkipSpaces(space, s, i + 1);
      if j >= |s| || (s[j] != AMPERSAND && s[j] != BAR) {
        Reported(re, s, i, out, None);
        i := i + 1;
        continue;
      }
      j := j + 1;
      j := SkipSpaces(space, s, j);
      Reported(re, s, i, out, Some(j));
      out := out + [Match(i, j)];
      i := j;
    }
    LdapEnds(space, s, |s|);
    AllReported(re, s, out);
  }

  method SkipSpaces(space: Rune -> bool, s: seq<Rune>, from: nat) returns (j: nat)
    requires from <= |s|
    ensures j == RunEnd(space, s, from)
  {
    j := from;
    while j < |s| && space(s[j])
      invariant j <= |s| && RunEnd(space, s, from) == RunEnd(space, s, j)
    {
      j := j + 1;
    }
  }

  // ---------------------------------------------------------------- letters outside ASCII

  predicate AsciiWord(r: Rune) {
    r == '_' as int || '0' as int <= r <= '9' as int || 'A' as int <= r <= 'Z' as int || 'a' as int <= r <= 'z' as int
  }

  /** The rune after the opening backtick is one the documented class lists. */
  predicate AsciiStart(s: seq<Rune>, open: nat) {
    open + 1 < |s| && (Opener(AsciiWord)(s[open + 1]) || s[open + 1] == DOLLAR)
  }

  /** From left to right, behind each backtick that no backtick precedes and whose body closes stands
      a rune that the documented class lists; what such a body covers is skipped. */
  predicate AsciiOpenings(word: Rune -> bool, s: seq<Rune>, i: nat)
    requires i <= |s|
    decreases |s| - i
  {
    if i == |s| then true
    else if s[i] != TICK || (i > 0 && s[i - 1] == TICK) || ScanBacktick(word, s, i).None? then
      AsciiOpenings(word, s, i + 1)
    else AsciiStart(s, i) && AsciiOpenings(word, s, ScanBacktick(word, s, i).value)
  }

  /** The documented expression lists ASCII letters and digits; the scanner asks for any letter or
      digit.  The two report the same matches exactly when no quoted body opens with a letter or
      digit outside ASCII. */
  lemma {:induction false} DocumentedBacktick(word: Rune -> bool, s: seq<Rune>, i: nat)
    requires i <= |s| && !word(DOLLAR) && forall r :: AsciiWord(r) ==> word(r)
    ensures FindAll(BacktickRe(AsciiWord), s, i) == FindAll(BacktickRe(word), s, i) <==> AsciiOpenings(word, s, i)
    decreases |s| - i
  {
    hide Ends, FindAll, BacktickRe, ScanBody, AsciiWord, AsciiStart, ScanBacktick;
    DollarIsNoWord();
    var ours, doc := BacktickRe(word), BacktickRe(AsciiWord);
    BacktickEnds(word, s, i);
    BacktickEnds(AsciiWord, s, i);
    if i == |s| {
      NothingLeft(ours, s);
      NothingLeft(doc, s);
    } else if Ends(ours, s, i) == [] {
      if s[i] == TICK {
        StartDecides(word, s, i);
      }
      NoMatchHere(ours, s, i);
      NoMatchHere(doc, s, i);
      DocumentedBacktick(word, s, i + 1);
    } else {
      var end := Ends(ours, s, i)[0];
      var m := Match(i, end);
      MatchHere(ours, s, i);
      StartDecides(word, s, i);
      if AsciiStart(s, i) {
        MatchHere(doc, s, i);
        DocumentedBacktick(word, s, end);
        SameTail(m, FindAll(ours, s, end), FindAll(doc, s, end));
      } else {
        NoMatchHere(doc, s, i);
        LaterMatches(doc, s, i + 1);
        assert FindAll(ours, s, i)[0] == m;
      }
    }
  }

  lemma DollarIsNoWord()
    ensures !AsciiWord(DOLLAR)
  {
  }

  lemma StartDecides(word: Rune -> bool, s: seq<Rune>, open: nat)
    requires open < |s| && !word(DOLLAR) && forall r :: AsciiWord(r) ==> word(r)
    ensures ScanBacktick(AsciiWord, s, open) == if AsciiStart(s, open) then ScanBacktick(word, s, open) else None
  {
    hide ScanBody;
  }

  lemma SameTail(m: Match, a: seq<Match>, b: seq<Match>)
    ensures [m] + a == [m] + b <==> a == b
  {
    if [m] + a == [m] + b {
      assert a == ([m] + a)[1..] == ([m] + b)[1..] == b;
    }
  }

  lemma LaterMatches(r: Re, s: seq<Rune>, i: nat)
    requires i <= |s|
    ensures FindAll(r, s, i) != [] ==> FindAll(r, s, i)[0].start >= i
  {
    hide Ends;
  }

  /** Such a text: a Greek letter between backticks. */
  lemma LetterOutsideAscii(word: Rune -> bool)
    requires !word(DOLLAR) && word(0x3B1) && forall r :: AsciiWord(r) ==> word(r)
    ensures FindAll(BacktickRe(word), [TICK, 0x3B1, TICK], 0) != FindAll(BacktickRe(AsciiWord), [TICK, 0x3B1, TICK], 0)
  {
    hide Ends, FindAll, BacktickRe;
    var s := [TICK, 0x3B1, TICK];
    BacktickEnds(word, s, 0);
    assert ScanBody(s, 2, TICK, TICK) == Some(3);
    MatchHere(BacktickRe(word), s, 0);
    assert !AsciiStart(s, 0);
    DocumentedBacktick(word, s, 0);
  }
}
