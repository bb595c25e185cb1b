/** Rendering a parsed pattern and parsing it again (guardcore/redos_parser.go, guardcore/redos_escape.go). */
module RegexReparse {
  import opened Intervals
  import opened RegexSyntax
  import opened RegexGrammar
  import opened RegexWellFormed
  import opened RegexRender
  import opened RegexRoundTrip
  import opened Texts

  /** Whatever flags a pattern was parsed with and whatever flags it sets itself, its rendering parses
      under any flags to the same tree with the character sets of those flags; to the very tree exactly
      when its character sets are those already. */
  lemma Reparse(u: Tables, pattern: string, flags: Flags, other: Flags)
    requires Sane(u) && ParsePattern(u, pattern, flags).Ok?
    ensures var tree := ParsePattern(u, pattern, flags).value;
            var again := ParsePattern(u, RenderNodes(tree), other);
            && again.Ok? && again.value == RefitAll(u, other, tree)
            && (again.value == tree <==> AllFaithful(u, other, tree) && AllCaseClosed(u, other, tree))
  {
    hide *;
    ParseWellFormed(u, pattern, flags);
    RoundTrip(u, other, ParsePattern(u, pattern, flags).value);
  }

  // ---------------------------------------------------------------- patterns without inner flag groups

  predicate FlagHead(src: string, i: nat) {
    i + 2 < |src| && src[i] == '(' && src[i + 1] == '?' && src[i + 2] !in "P<=!:#>("
  }

  /** From `from` on no group head sets flags. */
  predicate NoFlagGroup(src: string, from: nat) {
    forall i :: from <= i < |src| ==> !FlagHead(src, i)
  }

  ghost predicate NodeSteady(u: Tables, st: St, r: Parsed<Node>) {
    r.Ok? ==> r.st.flags == st.flags && Faithful(u, st.flags, r.value)
  }

  ghost predicate OptionSteady(u: Tables, st: St, r: Parsed<Option<Node>>) {
    r.Ok? ==> r.st.flags == st.flags && (r.value.Some? ==> Faithful(u, st.flags, r.value.value))
  }

  ghost predicate NodesSteady(u: Tables, st: St, r: Parsed<seq<Node>>) {
    r.Ok? ==> r.st.flags == st.flags && AllFaithful(u, st.flags, r.value)
  }

  lemma LiteralSteady(u: Tables, st: St, read: CharRead)
    ensures NodeSteady(u, st, LiteralFrom(u, st, read))
  {
    hide LiteralMembers;
  }

  lemma DecimalSteady(u: Tables, src: string, st: St)
    requires st.pos + 1 < |src| && IsDigit(src[st.pos + 1])
    ensures NodeSteady(u, st, DecimalEscape(u, src, st))
  {
    hide OctalChar, LiteralFrom, DecimalValue, OctalValue;
    var p := st.pos + 1;
    if src[p] == '0' {
      var end := OctalEnd(src, p + 1, 2);
      LiteralSteady(u, st, OctalChar(src[p..end], end, st.pos));
    } else if p + 2 < |src| {
      LiteralSteady(u, st, OctalChar(src[p..p + 3], p + 3, st.pos));
    }
  }

  lemma EscapeSteady(u: Tables, src: string, st: St)
    requires st.pos < |src| && src[st.pos] == '\\'
    ensures NodeSteady(u, st, ParseEscape(u, src, st))
  {
    hide ReadHex, CategoryMembers, LiteralMembers, DecimalEscape, LiteralFrom;
    var p := st.pos + 1;
    if p < |src| {
      if IsDigit(src[p]) {
        DecimalSteady(u, src, st);
      }
      LiteralSteady(u, st, ReadHex(src, p + 1, HexWidth(src[p]), st.pos));
    }
  }

  lemma ClassSteady(u: Tables, src: string, st: St)
    requires st.pos < |src| && src[st.pos] == '['
    ensures NodeSteady(u, st, ParseClass(u, src, st))
  {
    hide ReadClassItems, Complement;
  }

  lemma {:induction false} BodySteady(u: Tables, src: string, st: St, open: nat)
    requires st.pos <= |src| && NoFlagGroup(src, st.pos)
    ensures NodesSteady(u, st, ParseGroupBody(u, src, st, open))
    decreases |src| - st.pos, 7
  {
    hide ParseAlternations, FlagHead, AllFaithful;
    if st.nesting < MAX_GROUP_NESTING_DEPTH {
      AlternationsSteady(u, src, st.(nesting := st.nesting + 1));
    }
  }

  lemma {:induction false} CaptureSteady(u: Tables, src: string, st: St, name: string, open: nat)
    requires st.pos <= |src| && NoFlagGroup(src, st.pos)
    ensures OptionSteady(u, st, CaptureGroup(u, src, st, name, open))
    decreases |src| - st.pos, 8
  {
    hide ParseGroupBody, FlagHead;
    BodySteady(u, src, OpenGroup(st, name), open);
  }

  lemma {:induction false} PlainSteady(u: Tables, src: string, st: St, open: nat)
    requires st.pos <= |src| && NoFlagGroup(src, st.pos)
    ensures OptionSteady(u, st, PlainGroup(u, src, st, open))
    decreases |src| - st.pos, 8
  {
    hide ParseGroupBody, FlagHead;
    BodySteady(u, src, st, open);
  }

  lemma {:induction false} LookaroundSteady(u: Tables, src: string, st: St, behind: bool, negative: bool, open: nat)
    requires st.pos <= |src| && NoFlagGroup(src, st.pos)
    ensures OptionSteady(u, st, Lookaround(u, src, st, behind, negative, open))
    decreases |src| - st.pos, 8
  {
    hide ParseGroupBody, FlagHead;
    BodySteady(u, src, st, open);
  }

  lemma {:induction false} PythonSteady(u: Tables, src: string, st: St, open: nat)
    requires st.pos <= |src| && NoFlagGroup(src, st.pos)
    ensures OptionSteady(u, st, PythonExtension(u, src, st, open))
    decreases |src| - st.pos, 10
  {
    hide CaptureGroup, FlagHead, ValidName;
    if st.pos < |src| && src[st.pos] == '<' {
      var end := TokenEnd(src, st.pos + 1, '>');
      if end < |src| {
        CaptureSteady(u, src, st.(pos := end + 1), src[st.pos + 1..end], open);
      }
    }
  }

  lemma {:induction false} ExtensionSteady(u: Tables, src: string, st: St, open: nat)
    requires st.pos < |src| && NoFlagGroup(src, st.pos) && src[st.pos] in "P<=!:#>("
    ensures OptionSteady(u, st, Extension(u, src, st, open))
    decreases |src| - st.pos, 11
  {
    hide PlainGroup, Lookaround, PythonExtension, InlineFlags, FlagHead;
    var p := st.pos + 1;
    match src[st.pos] {
      case 'P' => PythonSteady(u, src, st.(pos := p), open);
      case '<' =>
        if p < |src| {
          LookaroundSteady(u, src, st.(pos := p + 1), true, src[p] == '!', open);
        }
      case '=' => LookaroundSteady(u, src, st.(pos := p), false, false, open);
      case '!' => LookaroundSteady(u, src, st.(pos := p), false, true, open);
      case ':' => PlainSteady(u, src, st.(pos := p), open);
      case _ =>
    }
  }

  lemma {:induction false} GroupSteady(u: Tables, src: string, st: St)
    requires st.pos < |src| && src[st.pos] == '(' && NoFlagGroup(src, st.pos)
    ensures OptionSteady(u, st, ParseGroup(u, src, st))
    decreases |src| - st.pos, 2
  {
    hide CaptureGroup, Extension;
    var p := st.pos + 1;
    if p < |src| {
      if src[p] != '?' {
        CaptureSteady(u, src, st.(pos := p), "", st.pos);
      } else if p + 1 < |src| {
        assert !FlagHead(src, st.pos);
        ExtensionSteady(u, src, st.(pos := p + 1), st.pos);
      } else {
        NoExtension(u, src, st.(pos := p + 1), st.pos);
      }
    }
  }

  lemma NoExtension(u: Tables, src: string, st: St, open: nat)
    requires st.pos == |src|
    ensures Extension(u, src, st, open).Err?
  {
  }

  lemma {:induction false} AtomSteady(u: Tables, src: string, st: St)
    requires st.pos < |src| && NoFlagGroup(src, st.pos)
    ensures OptionSteady(u, st, ParseAtom(u, src, st))
    decreases |src| - st.pos, 3
  {
    hide ParseClass, ParseEscape, ParseGroup, ReadQuantifier, LiteralMembers, AnyMembers, FlagHead;
    var c := src[st.pos];
    if c == '[' {
      ClassSteady(u, src, st);
    } else if c == '(' {
      GroupSteady(u, src, st);
    } else if c == '\\' {
      EscapeSteady(u, src, st);
    }
  }

  lemma QuantifySteady(u: Tables, src: string, atom: Node, st: St)
    requires st.pos <= |src| && Faithful(u, st.flags, atom)
    ensures NodeSteady(u, st, Quantify(src, atom, st))
  {
    hide ReadQuantifier;
    assert [atom][1..] == [];
    assert AllFaithful(u, st.flags, [atom]);
  }

  lemma {:induction false} ItemSteady(u: Tables, src: string, st: St)
    requires st.pos < |src| && src[st.pos] != ')' && NoFlagGroup(src, st.pos)
    ensures OptionSteady(u, st, ParseItem(u, src, st))
    decreases |src| - st.pos, 4
  {
    hide ParseAtom, Quantify, SkipBlank, FlagHead, Faithful;
    var p := SkipVerbose(src, st.pos, st.flags);
    if p < |src| {
      AtomSteady(u, src, st.(pos := p));
      var read := ParseAtom(u, src, st.(pos := p));
      if read.Ok? && read.value.Some? {
        var next := SkipVerbose(src, read.st.pos, read.st.flags);
        QuantifySteady(u, src, read.value.value, read.st.(pos := next));
      }
    }
  }

  lemma {:induction false} SequenceSteady(u: Tables, src: string, st: St)
    requires st.pos <= |src| && NoFlagGroup(src, st.pos)
    ensures NodesSteady(u, st, ParseSequence(u, src, st))
    decreases |src| - st.pos, 5
  {
    hide ParseItem, FlagHead, Faithful;
    if !EndsSequence(src, st.pos) {
      ItemSteady(u, src, st);
      var item := ParseItem(u, src, st);
      if item.Ok? {
        SequenceSteady(u, src, item.st);
        var rest := ParseSequence(u, src, item.st);
        if rest.Ok? {
          var nodes := Listed(item.value) + rest.value;
          assert item.value.Some? ==> nodes[0] == item.value.value && nodes[1..] == rest.value;
          assert item.value.None? ==> nodes == rest.value;
        }
      }
    }
  }

  lemma {:induction false} BranchesSteady(u: Tables, src: string, st: St)
    requires st.pos <= |src| && NoFlagGroup(src, st.pos)
    ensures var r := ParseBranches(u, src, st);
            r.Ok? ==> r.st.flags == st.flags && BranchesFaithful(u, st.flags, r.value)
    decreases |src| - st.pos, 6, 0
  {
    hide ParseSequence, FlagHead, AllFaithful;
    SequenceSteady(u, src, st);
    var first := ParseSequence(u, src, st);
    if first.Ok? {
      if first.st.pos < |src| && src[first.st.pos] == '|' {
        var next := first.st.(pos := first.st.pos + 1);
        BranchesSteady(u, src, next);
        var rest := ParseBranches(u, src, next);
        if rest.Ok? {
          assert ([Alternative(first.value)] + rest.value)[1..] == rest.value;
        }
      } else {
        assert [Alternative(first.value)][1..] == [];
      }
    }
  }

  lemma {:induction false} AlternationsSteady(u: Tables, src: string, st: St)
    requires st.pos <= |src| && NoFlagGroup(src, st.pos)
    ensures NodesSteady(u, st, ParseAlternations(u, src, st))
    decreases |src| - st.pos, 6, 1
  {
    hide ParseBranches, FlagHead;
    BranchesSteady(u, src, st);
    var r := ParseBranches(u, src, st);
    if r.Ok? {
      if |r.value| == 1 {
        assert AllFaithful(u, st.flags, r.value[0].nodes);
      } else {
        assert [Branch(r.value)][1..] == [];
        assert Faithful(u, st.flags, Branch(r.value));
        assert AllFaithful(u, st.flags, [Branch(r.value)]);
      }
    }
  }

  /** Flags are set by a group at the very start only, and for the whole pattern. */
  predicate LeadingFlagsOnly(src: string) {
    && NoFlagGroup(src, 1)
    && (FlagHead(src, 0) ==> ReadFlags(src, 2, NO_FLAGS, NO_FLAGS, false, 0).GlobalFlags?)
  }

  /** The sets of a pattern that sets its flags at the start only are those of its final flags. */
  lemma LeadingFaithful(u: Tables, pattern: string, flags: Flags)
    requires LeadingFlagsOnly(pattern)
    ensures var r := ParsePattern(u, pattern, flags);
            r.Ok? ==> AllFaithful(u, r.st.flags, r.value)
  {
    hide FlagHead, ParseAlternations, ReadFlags, AllFaithful;
    var st := Initial(flags);
    if FlagHead(pattern, 0) {
      var run := ReadFlags(pattern, 2, NO_FLAGS, NO_FLAGS, false, 0);
      var next := st.(pos := run.next, flags := ApplyFlags(flags, run.add, run.remove));
      LeadingGroup(u, pattern, st, next);
      AlternationsSteady(u, pattern, next);
    } else {
      assert NoFlagGroup(pattern, 0);
      AlternationsSteady(u, pattern, st);
    }
  }

  /** The parser goes on behind a leading flag group as from the start. */
  lemma LeadingGroup(u: Tables, src: string, st: St, next: St)
    requires st.pos == 0 && FlagHead(src, 0)
    requires var run := ReadFlags(src, 2, NO_FLAGS, NO_FLAGS, false, 0);
             run.GlobalFlags? && next == st.(pos := run.next, flags := ApplyFlags(st.flags, run.add, run.remove))
    ensures ParseAlternations(u, src, st) == ParseAlternations(u, src, next)
  {
    hide ParseSequence, ParseItem;
    LeadingItem(u, src, st, next);
    SilentItem(u, src, st, next);
    assert ParseBranches(u, src, st) == ParseBranches(u, src, next);
  }

  lemma LeadingItem(u: Tables, src: string, st: St, next: St)
    requires st.pos == 0 && FlagHead(src, 0)
    requires var run := ReadFlags(src, 2, NO_FLAGS, NO_FLAGS, false, 0);
             run.GlobalFlags? && next == st.(pos := run.next, flags := ApplyFlags(st.flags, run.add, run.remove))
    ensures !EndsSequence(src, 0) && ParseItem(u, src, st) == Ok(None, next)
  {
    hide ReadFlags, PlainGroup, Lookaround, PythonExtension, CaptureGroup;
    assert SkipVerbose(src, 0, st.flags) == 0;
    assert InlineFlags(u, src, st.(pos := 2), 0) == Ok(None, next);
    assert ParseGroup(u, src, st) == Ok(None, next);
  }

  lemma SilentItem(u: Tables, src: string, st: St, next: St)
    requires st.pos <= |src| && !EndsSequence(src, st.pos) && ParseItem(u, src, st) == Ok(None, next)
    requires next.pos <= |src|
    ensures ParseSequence(u, src, st) == ParseSequence(u, src, next)
  {
    hide ParseItem;
    var rest := ParseSequence(u, src, next);
    assert rest.Ok? ==> [] + rest.value == rest.value;
  }

  /** A pattern that sets its flags at the start only comes back from rendering and parsing under its
      final flags, exactly when under ignore-case its classes are closed under case variants. */
  lemma ReparseSame(u: Tables, pattern: string, flags: Flags)
    requires Sane(u) && LeadingFlagsOnly(pattern) && ParsePattern(u, pattern, flags).Ok?
    ensures var r := ParsePattern(u, pattern, flags);
            var again := ParsePattern(u, RenderNodes(r.value), r.st.flags);
            && again.Ok? && (again.value == r.value <==> AllCaseClosed(u, r.st.flags, r.value))
            && (!r.st.flags.ignoreCase ==> again.value == r.value)
  {
    hide *;
    var r := ParsePattern(u, pattern, flags);
    LeadingFaithful(u, pattern, flags);
    Reparse(u, pattern, flags, r.st.flags);
    if !r.st.flags.ignoreCase {
      NoCaseNoMatter(u, r.st.flags, r.value);
    }
  }

  lemma {:induction false} NoCaseNoMatter(u: Tables, flags: Flags, nodes: seq<Node>)
    requires !flags.ignoreCase
    ensures AllCaseClosed(u, flags, nodes)
    decreases nodes, 1
  {
    if nodes != [] {
      NodeNoCase(u, flags, nodes[0]);
      NoCaseNoMatter(u, flags, nodes[1..]);
    }
  }

  lemma {:induction false} NodeNoCase(u: Tables, flags: Flags, node: Node)
    requires !flags.ignoreCase
    ensures CaseClosed(u, flags, node)
    decreases node, 0
  {
    match node {
      case Repeat(_, _, _, body) => NoCaseNoMatter(u, flags, body);
      case Branch(branches) => BranchesNoCase(u, flags, branches);
      case SubPattern(_, _, body) => NoCaseNoMatter(u, flags, body);
      case Assert(_, _, body) => NoCaseNoMatter(u, flags, body);
      case _ =>
    }
  }

  lemma {:induction false} BranchesNoCase(u: Tables, flags: Flags, branches: seq<Alternative>)
    requires !flags.ignoreCase
    ensures BranchesCaseClosed(u, flags, branches)
    decreases branches, 2
  {
    if branches != [] {
      NoCaseNoMatter(u, flags, branches[0].nodes);
      BranchesNoCase(u, flags, branches[1..]);
    }
  }
}
