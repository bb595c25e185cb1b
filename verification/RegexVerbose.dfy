/** Where branches end in verbose mode (guardcore/redos_parser.go:158-251, 398-495, 640-662): a scan of
    the pattern text, in which blanks before a bar may turn it into a literal, against the parser. */
module RegexVerbose {
  import opened Intervals
  import opened RegexGrammar
  import opened RegexSyntax
  import opened Texts

  // ---------------------------------------------------------------- a scan of the text

  /** Where the scan stands.  `loose` says that what was read last is the start of a branch, a
      quantifier, a comment group or a flag group, and not an atom; `outer` holds the verbose flags
      outside the groups that are open. */
  datatype Spot = Spot(pos: nat, loose: bool, verbose: bool, outer: seq<bool>)

  /** The head of a group: it has a body, it is passed over in silence, or it is an atom by itself. */
  datatype Head =
    | Body(next: nat, verbose: bool)
    | Silent(next: nat, verbose: bool)
    | Whole(next: nat)

  /** Just past the first `c` from `from` on, or at the end of the text. */
  function Past(src: string, from: nat, c: char): (next: nat)
    requires from <= |src|
    ensures from <= next <= |src|
  {
    match IndexFrom(src, from, c)
    case None => |src|
    case Some(i) => i + 1
  }

  function FlagHead(src: string, pos: nat, verbose: bool): (h: Head)
    requires pos + 2 <= |src|
    ensures pos < h.next <= |src|
  {
    match ReadFlags(src, pos + 2, NO_FLAGS, NO_FLAGS, false, pos)
    case FlagErr(_, _) => Whole(pos + 2)
    case GlobalFlags(add, remove, next) => Silent(next, (verbose || add.verbose) && !remove.verbose)
    case ScopedFlags(add, remove, next) => Body(next, (verbose || add.verbose) && !remove.verbose)
  }

  function HeadAt(src: string, pos: nat, verbose: bool): (h: Head)
    requires pos < |src| && src[pos] == '('
    ensures pos < h.next <= |src|
  {
    if pos + 2 >= |src| || src[pos + 1] != '?' then Body(pos + 1, verbose)
    else
      match src[pos + 2]
      case 'P' =>
        if pos + 3 < |src| && src[pos + 3] == '=' then Whole(Past(src, pos + 4, ')'))
        else Body(Past(src, pos + 3, '>'), verbose)
      case '<' => if pos + 4 <= |src| then Body(pos + 4, verbose) else Whole(pos + 3)
      case '=' => Body(pos + 3, verbose)
      case '!' => Body(pos + 3, verbose)
      case ':' => Body(pos + 3, verbose)
      case '#' => Silent(Past(src, pos + 2, ')'), verbose)
      case _ => FlagHead(src, pos, verbose)
  }

  /** Just past a bracketed class whose members start at `pos`; a bracket that comes first is a member. */
  function ClassPast(src: string, pos: nat, first: bool): (next: nat)
    requires pos <= |src|
    ensures pos <= next <= |src|
    decreases |src| - pos
  {
    if pos == |src| then pos
    else if src[pos] == ']' && !first then pos + 1
    else ClassPast(src, if src[pos] == '\\' && pos + 1 < |src| then pos + 2 else pos + 1, false)
  }

  function ClassStart(src: string, pos: nat): (start: nat)
    requires pos < |src|
    ensures pos < start <= |src|
  {
    if pos + 1 < |src| && src[pos + 1] == '^' then pos + 2 else pos + 1
  }

  /** What a quantifier takes up, its lazy mark included; zero if there is none. */
  function QuantifierWidth(src: string, pos: nat): (width: nat)
    requires pos < |src|
    ensures pos + width <= |src|
  {
    var q := ReadQuantifier(src, pos);
    if q.NoQuantifier? then 0
    else if pos + q.len < |src| && src[pos + q.len] == '?' then q.len + 1
    else q.len
  }

  /** Where the scan goes on behind the head of a group. */
  function AfterHead(s: Spot, h: Head): Spot {
    match h
    case Body(next, verbose) => Spot(next, true, verbose, s.outer + [s.verbose])
    case Silent(next, verbose) => Spot(next, true, verbose, s.outer)
    case Whole(next) => s.(pos := next, loose := false)
  }

  /** One step of the scan at a character that is not blank; `None` where the branch ends. */
  function Token(src: string, s: Spot): (next: Option<Spot>)
    requires s.pos < |src|
    ensures next.Some? ==> s.pos < next.value.pos <= |src|
  {
    match src[s.pos]
    case '|' => if s.outer == [] then None else Some(s.(pos := s.pos + 1, loose := true))
    case ')' =>
      if s.outer == [] then None
      else
        var n := |s.outer| - 1;
        Some(Spot(s.pos + 1, false, s.outer[n], s.outer[..n]))
    case '\\' => Some(s.(pos := if s.pos + 2 <= |src| then s.pos + 2 else |src|, loose := false))
    case '[' => Some(s.(pos := ClassPast(src, ClassStart(src, s.pos), true), loose := false))
    case '(' => Some(AfterHead(s, HeadAt(src, s.pos, s.verbose)))
    case _ =>
      var width := QuantifierWidth(src, s.pos);
      if !s.loose && width > 0 then Some(s.(pos := s.pos + width, loose := true))
      else Some(s.(pos := s.pos + 1, loose := false))
  }

  /** One step of the scan: blanks before a bar make it an atom when nothing stands before them that
      they could belong to. */
  function Step(src: string, s: Spot): (next: Option<Spot>)
    requires s.pos <= |src|
    ensures next.Some? ==> s.pos < next.value.pos <= |src|
  {
    var p := if s.verbose then SkipBlank(src, s.pos) else s.pos;
    if s.pos == |src| then None
    else if p == s.pos then Token(src, s)
    else if s.loose && p < |src| && src[p] == '|' then Some(s.(pos := p + 1, loose := false))
    else Some(s.(pos := p))
  }

  /** Where the scan that has come to `s` finds the end of the branch. */
  function End(src: string, s: Spot): (end: nat)
    requires s.pos <= |src|
    ensures s.pos <= end <= |src|
    decreases |src| - s.pos
  {
    match Step(src, s)
    case None => s.pos
    case Some(next) => End(src, next)
  }

  predicate Reaches(src: string, s: Spot, t: Spot)
    requires s.pos <= |src|
    decreases |src| - s.pos
  {
    s == t || (Step(src, s).Some? && Reaches(src, Step(src, s).value, t))
  }

  lemma {:induction false} SameEnd(src: string, s: Spot, t: Spot)
    requires s.pos <= |src| && Reaches(src, s, t)
    ensures t.pos <= |src| && End(src, s) == End(src, t)
    decreases |src| - s.pos
  {
    hide Step;
    if s != t {
      SameEnd(src, Step(src, s).value, t);
    }
  }

  // ---------------------------------------------------------------- the parser keeps pace with the scan

  /** The scan at the parser's position. */
  function At(st: St, loose: bool, outer: seq<bool>): Spot {
    Spot(st.pos, loose, st.flags.verbose, outer)
  }

  predicate NoBlank(src: string, pos: nat) {
    pos < |src| ==> !IsBlank(src[pos]) && src[pos] != '#'
  }

  lemma OneToken(src: string, s: Spot)
    requires s.pos < |src| && (NoBlank(src, s.pos) || !s.verbose)
    ensures End(src, s) == match Token(src, s) case None => s.pos case Some(next) => End(src, next)
  {
    hide Token;
    if s.verbose {
      StaysPut(src, s.pos);
    }
  }

  lemma StaysPut(src: string, pos: nat)
    requires pos <= |src| && NoBlank(src, pos)
    ensures SkipBlank(src, pos) == pos
  {
  }

  lemma {:induction false} SkipsAll(src: string, pos: nat)
    requires pos <= |src|
    ensures NoBlank(src, SkipBlank(src, pos))
    decreases |src| - pos
  {
    if pos < |src| {
      if IsBlank(src[pos]) {
        SkipsAll(src, pos + 1);
      } else if src[pos] == '#' {
        match IndexFrom(src, pos, '\n')
        case None =>
        case Some(eol) => SkipsAll(src, eol + 1);
      }
    }
  }

  /** Blanks behind an atom are passed over with it. */
  lemma BlanksBehind(src: string, s: Spot)
    requires s.pos <= |src| && !s.loose
    ensures var p := if s.verbose then SkipBlank(src, s.pos) else s.pos;
            End(src, s) == End(src, s.(pos := p)) && (s.verbose ==> NoBlank(src, p))
  {
    hide Token, SkipBlank;
    SkipsAll(src, s.pos);
    if s.pos == |src| {
      assert SkipBlank(src, s.pos) == s.pos;
    }
  }

  // ---------------------------------------------------------------- atoms without a body

  predicate Ordinary(c: char) {
    IsDigit(c) || IsLetter(c)
  }

  lemma {:induction false} OrdinaryRun(src: string, s: Spot, stop: nat)
    requires s.pos <= stop <= |src| && !s.loose
    requires forall k :: s.pos <= k < stop ==> Ordinary(src[k])
    ensures End(src, s) == End(src, s.(pos := stop))
    decreases stop - s.pos
  {
    hide End;
    if s.pos < stop {
      assert Ordinary(src[s.pos]);
      OneToken(src, s);
      assert ReadQuantifier(src, s.pos) == NoQuantifier(false);
      OrdinaryRun(src, s.(pos := s.pos + 1), stop);
    }
  }

  lemma {:induction false} OctalRun(src: string, pos: nat, limit: nat)
    requires pos <= |src|
    ensures forall k :: pos <= k < OctalEnd(src, pos, limit) ==> Ordinary(src[k])
    decreases limit
  {
    if limit > 0 && pos < |src| && IsOctal(src[pos]) {
      OctalRun(src, pos + 1, limit - 1);
    }
  }

  lemma HexRun(src: string, pos: nat, width: nat, start: nat)
    requires pos <= |src| && ReadHex(src, pos, width, start).CharAt?
    ensures pos + width <= |src| && forall k :: pos <= k < pos + width ==> Ordinary(src[k])
  {
    forall k | pos <= k < pos + width ensures Ordinary(src[k]) {
      assert IsHexDigit(src[pos..pos + width][k - pos]);
    }
  }

  /** Behind its first two characters an escape has only digits and letters. */
  lemma EscapeRun(u: Tables, src: string, st: St)
    requires st.pos < |src| && src[st.pos] == '\\'
    ensures var r := ParseEscape(u, src, st);
            r.Ok? ==> r.st.flags == st.flags && st.pos + 2 <= r.st.pos <= |src|
                      && forall k :: st.pos + 2 <= k < r.st.pos ==> Ordinary(src[k])
  {
    hide LiteralNode, CategoryMembers, HexValue, OctalValue, DecimalValue;
    var p := st.pos + 1;
    if p < |src| {
      OctalRun(src, p + 1, 2);
      var width := HexWidth(src[p]);
      if ReadHex(src, p + 1, width, st.pos).CharAt? {
        HexRun(src, p + 1, width, st.pos);
      }
    }
  }

  lemma EscapeScanned(u: Tables, src: string, st: St, loose: bool, outer: seq<bool>)
    requires st.pos < |src| && src[st.pos] == '\\'
    ensures var r := ParseEscape(u, src, st);
            r.Ok? ==> r.st.flags == st.flags && st.pos < r.st.pos <= |src|
                      && End(src, At(st, loose, outer)) == End(src, At(r.st, false, outer))
  {
    hide ParseEscape, End;
    EscapeRun(u, src, st);
    var r := ParseEscape(u, src, st);
    if r.Ok? {
      OneToken(src, At(st, loose, outer));
      OrdinaryRun(src, At(st, false, outer).(pos := st.pos + 2), r.st.pos);
    }
  }

  /** One member of a class, as the scan of the class passes over it. */
  lemma ClassAtomScanned(u: Tables, src: string, pos: nat, flags: Flags, first: bool)
    requires pos < |src| && (src[pos] != ']' || first)
    ensures var a := ReadClassAtom(u, src, pos, flags);
            !a.ClassErr? ==> pos < a.next <= |src| && ClassPast(src, pos, first) == ClassPast(src, a.next, false)
  {
    hide ClassPast, CategoryMembers, HexValue, OctalValue;
    ClassUnfold(src, pos, first);
    var a, p := ReadClassAtom(u, src, pos, flags), pos + 1;
    if src[pos] == '\\' && p < |src| && !a.ClassErr? {
      OctalRun(src, p + 1, 2);
      var width := HexWidth(src[p]);
      if ReadHex(src, p + 1, width, pos).CharAt? {
        HexRun(src, p + 1, width, pos);
      }
      assert forall k :: p + 1 <= k < a.next ==> Ordinary(src[k]);
      ClassRun(src, p + 1, a.next);
    }
  }

  lemma ClassUnfold(src: string, pos: nat, first: bool)
    requires pos < |src| && (src[pos] != ']' || first)
    ensures ClassPast(src, pos, first)
         == ClassPast(src, if src[pos] == '\\' && pos + 1 < |src| then pos + 2 else pos + 1, false)
  {
  }

  lemma {:induction false} ClassRun(src: string, pos: nat, stop: nat)
    requires pos <= stop <= |src| && forall k :: pos <= k < stop ==> Ordinary(src[k])
    ensures ClassPast(src, pos, false) == ClassPast(src, stop, false)
    decreases stop - pos
  {
    if pos < stop {
      assert Ordinary(src[pos]);
      ClassRun(src, pos + 1, stop);
    }
  }

  lemma ClassItemScanned(u: Tables, src: string, pos: nat, flags: Flags, first: bool, start: nat)
    requires pos < |src| && (src[pos] != ']' || first)
    ensures var r := ReadClassItem(u, src, pos, flags, start);
            r.ClassMembers? ==> pos < r.next <= |src| && ClassPast(src, pos, first) == ClassPast(src, r.next, false)
  {
    hide ClassPast, ReadClassAtom, ExpandIgnoreCase, LiteralMembers;
    ClassAtomScanned(u, src, pos, flags, first);
    var a := ReadClassAtom(u, src, pos, flags);
    if a.ClassChar? && a.next + 1 < |src| && src[a.next] == '-' && src[a.next + 1] != ']' {
      ClassUnfold(src, a.next, false);
      ClassAtomScanned(u, src, a.next + 1, flags, false);
    }
  }

  lemma {:induction false} ClassItemsScanned(
    u: Tables, src: string, pos: nat, flags: Flags, members: IntervalSet, first: bool, start: nat)
    requires pos <= |src|
    ensures var r := ReadClassItems(u, src, pos, flags, members, first, start);
            r.ClassMembers? ==> ClassPast(src, pos, first) == r.next
    decreases |src| - pos
  {
    hide ReadClassItem;
    if pos < |src| && !(src[pos] == ']' && !first) {
      var item := ReadClassItem(u, src, pos, flags, start);
      ClassItemScanned(u, src, pos, flags, first, start);
      if item.ClassMembers? {
        ClassItemsScanned(u, src, item.next, flags, Union(members, item.members), false, start);
      }
    }
  }

  lemma ClassScanned(u: Tables, src: string, st: St, loose: bool, outer: seq<bool>)
    requires st.pos < |src| && src[st.pos] == '['
    ensures var r := ParseClass(u, src, st);
            r.Ok? ==> r.st.flags == st.flags && st.pos < r.st.pos <= |src|
                      && End(src, At(st, loose, outer)) == End(src, At(r.st, false, outer))
  {
    hide ParseClass, Token, End, ClassPast;
    OneToken(src, At(st, loose, outer));
    ClassToken(src, At(st, loose, outer));
    ClassEnds(u, src, st);
  }

  lemma ClassToken(src: string, s: Spot)
    requires s.pos < |src| && src[s.pos] == '['
    ensures Token(src, s) == Some(s.(pos := ClassPast(src, ClassStart(src, s.pos), true), loose := false))
  {
  }

  lemma ClassEnds(u: Tables, src: string, st: St)
    requires st.pos < |src| && src[st.pos] == '['
    ensures var r := ParseClass(u, src, st);
            r.Ok? ==> r.st == st.(pos := ClassPast(src, ClassStart(src, st.pos), true))
  {
    hide ReadClassItems, ClassPast, Complement;
    ClassItemsScanned(u, src, ClassStart(src, st.pos), st.flags, [], true, st.pos);
  }

  // ---------------------------------------------------------------- groups

  /** A group body is left where the scan closes the group. */
  ghost predicate BodyScanned(src: string, st: St, verbose: bool, outer: seq<bool>, r: Parsed<seq<Node>>)
    requires st.pos <= |src|
  {
    r.Ok? ==> r.st.flags == st.flags && st.pos <= r.st.pos <= |src|
              && End(src, At(st, true, outer + [verbose])) == End(src, Spot(r.st.pos, false, verbose, outer))
  }

  /** A construct is left where the scan comes to as well: loose behind a comment or flags. */
  ghost predicate OptionScanned(src: string, st: St, s: Spot, r: Parsed<Option<Node>>)
    requires s.pos <= |src|
  {
    r.Ok? ==> (s.pos > 0 ==> r.st.flags == st.flags) && s.pos < r.st.pos <= |src|
              && End(src, s) == End(src, At(r.st, r.value.None?, s.outer))
  }

  lemma {:induction false} BodyScans(u: Tables, src: string, st: St, open: nat, verbose: bool, outer: seq<bool>)
    requires 0 < st.pos <= |src|
    ensures BodyScanned(src, st, verbose, outer, ParseGroupBody(u, src, st, open))
    decreases |src| - st.pos, 7
  {
    hide ParseAlternations, End;
    if st.nesting < MAX_GROUP_NESTING_DEPTH {
      var inner := st.(nesting := st.nesting + 1);
      AlternationsScan(u, src, inner, outer + [verbose]);
      var body := ParseAlternations(u, src, inner);
      if body.Ok? && body.st.pos < |src| {
        OneToken(src, At(body.st, true, outer + [verbose]));
        assert (outer + [verbose])[..|outer|] == outer;
      }
    }
  }

  lemma {:induction false} AlternationsScan(u: Tables, src: string, st: St, outer: seq<bool>)
    requires 0 < st.pos <= |src| && outer != []
    ensures var r := ParseAlternations(u, src, st);
            r.Ok? ==> r.st.flags == st.flags && End(src, At(st, true, outer)) == End(src, At(r.st, true, outer))
    decreases |src| - st.pos, 6, 1
  {
    hide End, ParseBranches;
    BranchesScan(u, src, st, outer);
  }

  lemma {:induction false} BranchesScan(u: Tables, src: string, st: St, outer: seq<bool>)
    requires 0 < st.pos <= |src| && outer != []
    ensures var r := ParseBranches(u, src, st);
            r.Ok? ==> r.st.flags == st.flags && End(src, At(st, true, outer)) == End(src, At(r.st, true, outer))
    decreases |src| - st.pos, 6, 0
  {
    hide End, ParseSequence;
    SequenceScan(u, src, st, true, outer);
    var first := ParseSequence(u, src, st);
    if first.Ok? && first.st.pos < |src| && src[first.st.pos] == '|' {
      OneToken(src, At(first.st, true, outer));
      BranchesScan(u, src, first.st.(pos := first.st.pos + 1), outer);
    }
  }

  lemma {:induction false} SequenceScan(u: Tables, src: string, st: St, loose: bool, outer: seq<bool>)
    requires st.pos <= |src| && (loose || !st.flags.verbose || NoBlank(src, st.pos))
    ensures var r := ParseSequence(u, src, st);
            r.Ok? ==> (st.pos > 0 ==> r.st.flags == st.flags)
                      && End(src, At(st, loose, outer)) == End(src, At(r.st, true, outer))
    decreases |src| - st.pos, 5
  {
    hide End, ParseItem, Token;
    if EndsSequence(src, st.pos) {
      EndIgnoresLast(src, At(st, loose, outer));
    } else {
      var item := ParseItem(u, src, st);
      var next := ItemScan(u, src, st, loose, outer);
      if item.Ok? {
        SequenceScan(u, src, item.st, next, outer);
      }
    }
  }

  /** At the end of a branch it does not matter what was read last. */
  lemma EndIgnoresLast(src: string, s: Spot)
    requires s.pos <= |src| && EndsSequence(src, s.pos)
    ensures End(src, s) == End(src, s.(loose := true))
  {
    if s.pos < |src| {
      OneToken(src, s);
      OneToken(src, s.(loose := true));
    }
  }

  lemma {:induction false} ItemScan(u: Tables, src: string, st: St, loose: bool, outer: seq<bool>) returns (next: bool)
    requires st.pos < |src| && !EndsSequence(src, st.pos) && (loose || !st.flags.verbose || NoBlank(src, st.pos))
    ensures var r := ParseItem(u, src, st);
            r.Ok? ==> && (st.pos > 0 ==> r.st.flags == st.flags)
                      && End(src, At(st, loose, outer)) == End(src, At(r.st, next, outer))
                      && (next || !r.st.flags.verbose || NoBlank(src, r.st.pos))
    decreases |src| - st.pos, 4
  {
    hide End, ParseAtom, Token, Quantify, SkipBlank;
    var p := SkipVerbose(src, st.pos, st.flags);
    var here := st.(pos := p);
    next := loose;
    if NoBlank(src, st.pos) {
      StaysPut(src, st.pos);
    }
    BlanksBefore(src, At(st, loose, outer));
    if p == |src| {
      return;
    }
    if src[p] == ')' {
      ClosingAtom(u, src, here);
      return;
    }
    if src[p] == '|' {
      next := LiteralBar(u, src, st, outer);
      return;
    }
    AtomScan(u, src, here, loose, outer);
    var atom := ParseAtom(u, src, here);
    if atom.Ok? && atom.value.Some? {
      next := QuantifyScan(src, atom.value.value, atom.st, outer);
    } else {
      next := true;
    }
  }

  /** Blanks before an item are passed over, unless they turn a bar into one. */
  lemma BlanksBefore(src: string, s: Spot)
    requires s.pos <= |src|
    ensures var p := if s.verbose then SkipBlank(src, s.pos) else s.pos;
            && (s.verbose ==> NoBlank(src, p))
            && if s.pos < p < |src| && src[p] == '|' && s.loose
               then End(src, s) == End(src, s.(pos := p + 1, loose := false))
               else End(src, s) == End(src, s.(pos := p))
  {
    hide Token, SkipBlank;
    SkipsAll(src, s.pos);
    if s.pos == |src| {
      assert SkipBlank(src, s.pos) == s.pos;
    }
  }

  lemma ClosingAtom(u: Tables, src: string, st: St)
    requires st.pos < |src| && src[st.pos] == ')'
    ensures ParseAtom(u, src, st) == Ok(None, st)
  {
  }

  lemma BarAtom(u: Tables, src: string, st: St)
    requires st.pos < |src| && src[st.pos] == '|'
    ensures ParseAtom(u, src, st) == Ok(Some(LiteralNode(u, '|' as int, st.flags)), st.(pos := st.pos + 1))
  {
  }

  lemma {:induction false} LiteralBar(u: Tables, src: string, st: St, outer: seq<bool>) returns (next: bool)
    requires st.pos < |src| && st.flags.verbose && src[st.pos] != ')'
    requires var p := SkipBlank(src, st.pos); st.pos < p < |src| && src[p] == '|'
    ensures var r := ParseItem(u, src, st);
            r.Ok? ==> && r.st.flags == st.flags
                      && End(src, At(st, true, outer)) == End(src, At(r.st, next, outer))
                      && (next || NoBlank(src, r.st.pos))
  {
    hide End, ParseAtom, Token, Quantify, SkipBlank, LiteralNode;
    var p := SkipBlank(src, st.pos);
    BlanksBefore(src, At(st, true, outer));
    BarAtom(u, src, st.(pos := p));
    next := QuantifyScan(src, LiteralNode(u, '|' as int, st.flags), st.(pos := p + 1), outer);
  }

  /** What stands behind an atom and belongs to it: blanks, and at most one quantifier. */
  lemma QuantifyScan(src: string, atom: Node, st: St, outer: seq<bool>) returns (next: bool)
    requires st.pos <= |src|
    ensures var r := Quantify(src, atom, st.(pos := SkipVerbose(src, st.pos, st.flags)));
            r.Ok? ==> && r.st.flags == st.flags
                      && End(src, At(st, false, outer)) == End(src, At(r.st, next, outer))
                      && (next || !r.st.flags.verbose || NoBlank(src, r.st.pos))
  {
    hide End, SkipBlank, ReadQuantifier, Quantify, Token;
    BlanksBehind(src, At(st, false, outer));
    var q := SkipVerbose(src, st.pos, st.flags);
    QuantifyEnds(src, atom, st.(pos := q));
    next := q < |src| && ReadQuantifier(src, q).Quantifier?;
    if next {
      OneToken(src, At(st, false, outer).(pos := q));
      QuantifierToken(src, At(st, false, outer).(pos := q));
    }
  }

  lemma QuantifyEnds(src: string, atom: Node, st: St)
    requires st.pos <= |src|
    ensures var r := Quantify(src, atom, st);
            r.Ok? ==> r.st.flags == st.flags &&
                      r.st.pos == if st.pos == |src| then st.pos else st.pos + QuantifierWidth(src, st.pos)
  {
    hide BraceBounds;
  }

  lemma QuantifierToken(src: string, s: Spot)
    requires s.pos < |src| && !s.loose && ReadQuantifier(src, s.pos).Quantifier?
    ensures Token(src, s) == Some(s.(pos := s.pos + QuantifierWidth(src, s.pos), loose := true))
  {
    hide BraceBounds;
  }

  lemma PlainToken(src: string, s: Spot)
    requires s.pos < |src| && (NoBlank(src, s.pos) || !s.verbose)
    requires src[s.pos] !in "|)\\[(" && ReadQuantifier(src, s.pos).NoQuantifier?
    ensures End(src, s) == End(src, s.(pos := s.pos + 1, loose := false))
  {
    hide End;
    OneToken(src, s);
  }

  lemma {:induction false} AtomScan(u: Tables, src: string, st: St, loose: bool, outer: seq<bool>)
    requires st.pos < |src| && src[st.pos] != ')' && src[st.pos] != '|'
    requires NoBlank(src, st.pos) || !st.flags.verbose
    ensures OptionScanned(src, st, At(st, loose, outer), ParseAtom(u, src, st))
    decreases |src| - st.pos, 3
  {
    hide End, ParseClass, ParseEscape, ParseGroup, BraceBounds, LiteralNode, AnyMembers;
    var c, s := src[st.pos], At(st, loose, outer);
    if c == '[' {
      ClassScanned(u, src, st, loose, outer);
    } else if c == '\\' {
      EscapeScanned(u, src, st, loose, outer);
    } else if c == '(' {
      GroupScan(u, src, st, loose, outer);
    } else if ReadQuantifier(src, st.pos).NoQuantifier? {
      PlainToken(src, s);
    }
  }

  lemma {:induction false} GroupScan(u: Tables, src: string, st: St, loose: bool, outer: seq<bool>)
    requires st.pos < |src| && src[st.pos] == '('
    ensures OptionScanned(src, st, At(st, loose, outer), ParseGroup(u, src, st))
    decreases |src| - st.pos, 2
  {
    hide End, Extension, CaptureGroup;
    var s, p := At(st, loose, outer), st.pos + 1;
    OneToken(src, s);
    if p < |src| {
      if src[p] != '?' {
        CaptureScan(u, src, st.(pos := p), "", st.pos, st.flags.verbose, outer);
      } else if p + 1 < |src| {
        ExtensionScan(u, src, st.(pos := p + 1), st.pos, outer);
      }
    }
  }

  /** A group whose body starts at `st` and that ends as the scan closes it. */
  ghost predicate GroupScanned(src: string, st: St, verbose: bool, outer: seq<bool>, r: Parsed<Option<Node>>)
    requires st.pos <= |src|
  {
    r.Ok? ==> r.value.Some? && r.st.flags == st.flags && st.pos <= r.st.pos <= |src|
              && End(src, At(st, true, outer + [verbose])) == End(src, Spot(r.st.pos, false, verbose, outer))
  }

  lemma {:induction false} CaptureScan(
    u: Tables, src: string, st: St, name: string, open: nat, verbose: bool, outer: seq<bool>)
    requires 0 < st.pos <= |src|
    ensures GroupScanned(src, st, verbose, outer, CaptureGroup(u, src, st, name, open))
    decreases |src| - st.pos, 8
  {
    hide End, ParseGroupBody;
    BodyScans(u, src, OpenGroup(st, name), open, verbose, outer);
  }

  lemma {:induction false} PlainScan(u: Tables, src: string, st: St, open: nat, verbose: bool, outer: seq<bool>)
    requires 0 < st.pos <= |src|
    ensures GroupScanned(src, st, verbose, outer, PlainGroup(u, src, st, open))
    decreases |src| - st.pos, 8
  {
    hide End, ParseGroupBody;
    BodyScans(u, src, st, open, verbose, outer);
  }

  lemma {:induction false} LookaroundScan(
    u: Tables, src: string, st: St, behind: bool, negative: bool, open: nat, verbose: bool, outer: seq<bool>)
    requires 0 < st.pos <= |src|
    ensures GroupScanned(src, st, verbose, outer, Lookaround(u, src, st, behind, negative, open))
    decreases |src| - st.pos, 8
  {
    hide End, ParseGroupBody;
    BodyScans(u, src, st, open, verbose, outer);
  }

  /** What `Extension` computes, seen from the parenthesis. */
  ghost predicate ExtensionScanned(src: string, st: St, open: nat, outer: seq<bool>, r: Parsed<Option<Node>>)
    requires open + 2 == st.pos < |src| && src[open] == '('
  {
    var s := AfterHead(Spot(open, true, st.flags.verbose, outer), HeadAt(src, open, st.flags.verbose));
    r.Ok? ==> (open > 0 ==> r.st.flags == st.flags) && st.pos < r.st.pos <= |src|
              && End(src, s) == End(src, At(r.st, r.value.None?, outer))
  }

  lemma {:induction false} ExtensionScan(u: Tables, src: string, st: St, open: nat, outer: seq<bool>)
    requires open + 2 == st.pos < |src| && src[open] == '(' && src[open + 1] == '?'
    ensures ExtensionScanned(src, st, open, outer, Extension(u, src, st, open))
    decreases |src| - st.pos, 11
  {
    hide End, Lookaround, PlainGroup, PythonExtension, InlineFlags;
    var p, v := st.pos + 1, st.flags.verbose;
    match src[st.pos] {
      case 'P' => PythonScan(u, src, st.(pos := p), open, outer);
      case '<' =>
        if p < |src| {
          LookaroundScan(u, src, st.(pos := p + 1), true, src[p] == '!', open, v, outer);
        }
      case '=' => LookaroundScan(u, src, st.(pos := p), false, false, open, v, outer);
      case '!' => LookaroundScan(u, src, st.(pos := p), false, true, open, v, outer);
      case ':' => PlainScan(u, src, st.(pos := p), open, v, outer);
      case '#' =>
      case '>' =>
      case '(' =>
      case _ => FlagsScan(u, src, st, open, outer);
    }
  }

  lemma {:induction false} PythonScan(u: Tables, src: string, st: St, open: nat, outer: seq<bool>)
    requires open + 3 == st.pos <= |src| && src[open] == '(' && src[open + 1] == '?' && src[open + 2] == 'P'
    ensures ExtensionScanned(src, st.(pos := open + 2), open, outer, PythonExtension(u, src, st, open))
    decreases |src| - st.pos, 10
  {
    hide End, CaptureGroup, ValidName;
    if st.pos < |src| && src[st.pos] == '<' {
      var end := TokenEnd(src, st.pos + 1, '>');
      if end < |src| {
        CaptureScan(u, src, st.(pos := end + 1), src[st.pos + 1..end], open, st.flags.verbose, outer);
      }
    }
  }

  lemma {:induction false} FlagsScan(u: Tables, src: string, st: St, open: nat, outer: seq<bool>)
    requires open + 2 == st.pos < |src| && src[open] == '(' && src[open + 1] == '?'
    requires src[st.pos] !in "P<=!:#>("
    ensures ExtensionScanned(src, st, open, outer, InlineFlags(u, src, st, open))
    decreases |src| - st.pos, 9
  {
    hide End, PlainGroup, ReadFlags;
    var run := ReadFlags(src, st.pos, NO_FLAGS, NO_FLAGS, false, open);
    if run.ScopedFlags? {
      var inner := st.(pos := run.next, flags := ApplyFlags(st.flags, run.add, run.remove));
      PlainScan(u, src, inner, open, st.flags.verbose, outer);
    }
    GlobalOnlyFirst(src, st.pos, NO_FLAGS, NO_FLAGS, false, open);
  }

  lemma {:induction false} GlobalOnlyFirst(
    src: string, pos: nat, add: Flags, remove: Flags, negative: bool, open: nat)
    requires pos <= |src|
    ensures ReadFlags(src, pos, add, remove, negative, open).GlobalFlags? ==> open == 0
    decreases |src| - pos
  {
    if pos < |src| {
      var c := src[pos];
      if SetFlag(add, c).Some? {
        if negative {
          GlobalOnlyFirst(src, pos + 1, add, SetFlag(remove, c).value, negative, open);
        } else {
          GlobalOnlyFirst(src, pos + 1, SetFlag(add, c).value, remove, negative, open);
        }
      } else if c == '-' {
        GlobalOnlyFirst(src, pos + 1, add, remove, true, open);
      }
    }
  }

  // ---------------------------------------------------------------- where branches end

  /** Wherever a branch starts, the parser ends it where the scan of the text does. */
  lemma BranchEndsExactly(u: Tables, src: string, st: St)
    requires st.pos <= |src|
    ensures var r := ParseSequence(u, src, st);
            r.Ok? ==> r.st.pos == End(src, At(st, true, []))
  {
    hide ParseSequence, End;
    SequenceScan(u, src, st, true, []);
    var r := ParseSequence(u, src, st);
    if r.Ok? {
      BranchIsOver(src, At(r.st, true, []));
    }
  }

  lemma BranchIsOver(src: string, s: Spot)
    requires s.pos <= |src| && s.outer == [] && EndsSequence(src, s.pos)
    ensures End(src, s) == s.pos
  {
    if s.pos < |src| {
      OneToken(src, s);
    }
  }

  /** A bar with blanks before it separates two branches exactly when the blanks stand behind an atom.
      Behind a quantifier, a comment group, a flag group or the start of the branch it is a literal. */
  lemma BarSeparatesExactly(u: Tables, src: string, st: St, s: Spot, bar: nat)
    requires st.pos <= |src| && ParseSequence(u, src, st).Ok?
    requires Reaches(src, At(st, true, []), s) && s.pos <= |src| && s.outer == []
    requires s.verbose && s.pos < SkipBlank(src, s.pos) == bar < |src| && src[bar] == '|'
    ensures ParseSequence(u, src, st).st.pos == bar <==> !s.loose
  {
    hide ParseSequence, End, Reaches, SkipBlank, Token;
    BranchEndsExactly(u, src, st);
    SameEnd(src, At(st, true, []), s);
    BlanksBefore(src, s);
    BranchIsOver(src, s.(pos := bar));
  }

  /** In verbose mode an item that begins with blanks before a bar is that bar, possibly with a
      quantifier. */
  lemma BarAfterBlanks(u: Tables, src: string, st: St)
    requires st.flags.verbose && st.pos < |src| && src[st.pos] != ')'
    requires SkipBlank(src, st.pos) < |src| && src[SkipBlank(src, st.pos)] == '|'
    ensures var after := SkipBlank(src, st.pos) + 1;
            ParseItem(u, src, st)
            == SomeNode(Quantify(src, LiteralNode(u, '|' as int, st.flags), st.(pos := SkipBlank(src, after))))
  {
    hide SkipBlank, Quantify, LiteralNode, ParseGroup, ParseClass, ParseEscape, ReadQuantifier;
  }

  // ---------------------------------------------------------------- two patterns

  const STARRED := "a* |b"
  const UNSTARRED := "a |b"

  /** Behind a starred atom the bar is read as a character. */
  lemma StarredBar(u: Tables, flags: Flags)
    requires flags.verbose
    ensures var r := ParsePattern(u, STARRED, flags);
            && r.Ok?
            && r.value == [Repeat(0, MAX_REPEAT, false, [LiteralNode(u, 'a' as int, flags)]),
                           LiteralNode(u, '|' as int, flags), LiteralNode(u, 'b' as int, flags)]
  {
    hide LiteralNode, ParseItem, ParseSequence;
    var src, st := STARRED, Initial(flags);
    var a, bar, b := LiteralNode(u, 'a' as int, flags), LiteralNode(u, '|' as int, flags),
        LiteralNode(u, 'b' as int, flags);
    var star := Repeat(0, MAX_REPEAT, false, [a]);
    StaysPut(src, 3);
    StaysPut(src, 4);
    assert SkipBlank(src, 2) == 3 && SkipBlank(src, 5) == 5;
    StarItem(u, src, st);
    CharItem(u, src, st.(pos := 2));
    CharItem(u, src, st.(pos := 4));
    SequenceDone(u, src, st.(pos := 5));
    assert [b] + [] == [b] && [bar] + [b] == [bar, b] && [star] + [bar, b] == [star, bar, b];
    OneItem(u, src, st.(pos := 4), b, st.(pos := 5), [], st.(pos := 5));
    OneItem(u, src, st.(pos := 2), bar, st.(pos := 4), [b], st.(pos := 5));
    OneItem(u, src, st, star, st.(pos := 2), [bar, b], st.(pos := 5));
    assert ParseBranches(u, src, st) == Ok([Alternative([star, bar, b])], st.(pos := 5));
  }

  /** Behind a bare atom it separates, blank or not. */
  lemma UnstarredBar(u: Tables, flags: Flags)
    requires flags.verbose
    ensures var r := ParsePattern(u, UNSTARRED, flags);
            && r.Ok?
            && r.value == [Branch([Alternative([LiteralNode(u, 'a' as int, flags)]),
                                   Alternative([LiteralNode(u, 'b' as int, flags)])])]
  {
    hide LiteralNode, ParseItem, ParseSequence;
    var src, st := UNSTARRED, Initial(flags);
    var a, b := LiteralNode(u, 'a' as int, flags), LiteralNode(u, 'b' as int, flags);
    StaysPut(src, 2);
    assert SkipBlank(src, 0) == 0 && SkipBlank(src, 1) == 2 && SkipBlank(src, 3) == 3 && SkipBlank(src, 4) == 4;
    CharItem(u, src, st);
    CharItem(u, src, st.(pos := 3));
    SequenceDone(u, src, st.(pos := 2));
    SequenceDone(u, src, st.(pos := 4));
    assert [a] + [] == [a] && [b] + [] == [b];
    OneItem(u, src, st, a, st.(pos := 2), [], st.(pos := 2));
    OneItem(u, src, st.(pos := 3), b, st.(pos := 4), [], st.(pos := 4));
    assert ParseBranches(u, src, st.(pos := 3)) == Ok([Alternative([b])], st.(pos := 4));
    assert ParseBranches(u, src, st) == Ok([Alternative([a])] + [Alternative([b])], st.(pos := 4));
    assert [Alternative([a])] + [Alternative([b])] == [Alternative([a]), Alternative([b])];
  }

  lemma SequenceDone(u: Tables, src: string, st: St)
    requires st.pos <= |src| && EndsSequence(src, st.pos)
    ensures ParseSequence(u, src, st) == Ok([], st)
  {
  }

  lemma OneItem(u: Tables, src: string, st: St, node: Node, st1: St, rest: seq<Node>, end: St)
    requires st.pos < |src| && !EndsSequence(src, st.pos) && ParseItem(u, src, st) == Ok(Some(node), st1)
    requires st1.pos <= |src| && ParseSequence(u, src, st1) == Ok(rest, end)
    ensures ParseSequence(u, src, st) == Ok([node] + rest, end)
  {
    hide ParseItem;
  }

  predicate PlainChar(c: char) {
    IsLetter(c) || c == '|'
  }

  lemma CharItem(u: Tables, src: string, st: St)
    requires st.flags.verbose && st.pos < |src| && src[st.pos] != ')'
    requires var at := SkipBlank(src, st.pos);
             && at < |src| && PlainChar(src[at])
             && var after := SkipBlank(src, at + 1); after < |src| ==> !StartsQuantifier(src[after])
    ensures var at := SkipBlank(src, st.pos);
            ParseItem(u, src, st)
            == Ok(Some(LiteralNode(u, src[at] as int, st.flags)), st.(pos := SkipBlank(src, at + 1)))
  {
    hide SkipBlank, LiteralNode, ParseGroup, ParseClass, ParseEscape, ReadQuantifier;
  }

  lemma StarItem(u: Tables, src: string, st: St)
    requires st.flags.verbose && st.pos + 2 < |src| && IsLetter(src[st.pos])
    requires src[st.pos + 1] == '*' && !StartsQuantifier(src[st.pos + 2])
    ensures ParseItem(u, src, st)
         == Ok(Some(Repeat(0, MAX_REPEAT, false, [LiteralNode(u, src[st.pos] as int, st.flags)])),
           st.(pos := st.pos + 2))
  {
    hide ParseAtom, Quantify, SkipBlank, LiteralMembers;
    StaysPut(src, st.pos);
    StaysPut(src, st.pos + 1);
    LetterAtom(u, src, st);
    StarBehind(src, LiteralNode(u, src[st.pos] as int, st.flags), st.(pos := st.pos + 1));
  }

  lemma LetterAtom(u: Tables, src: string, st: St)
    requires st.pos < |src| && IsLetter(src[st.pos])
    ensures ParseAtom(u, src, st) == Ok(Some(LiteralNode(u, src[st.pos] as int, st.flags)), st.(pos := st.pos + 1))
  {
    hide LiteralNode;
  }

  lemma StarBehind(src: string, atom: Node, st: St)
    requires st.pos + 1 < |src| && src[st.pos] == '*' && !StartsQuantifier(src[st.pos + 1]) && atom.Literal?
    ensures Quantify(src, atom, st) == Ok(Repeat(0, MAX_REPEAT, false, [atom]), st.(pos := st.pos + 1))
  {
    assert ReadQuantifier(src, st.pos) == Quantifier(0, MAX_REPEAT, 1);
    assert ReadQuantifier(src, st.pos + 1) == NoQuantifier(false);
  }
}
