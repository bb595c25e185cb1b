/** The fills of a pattern and the characters that its nodes match (guardcore/redos_slots.go:34-133, 240-271,
    guardcore/redos_atoms.go:19-29). */
module PatternAlphabet {
  import opened Alphabet
  import opened Intervals
  import opened RegexGrammar
  import opened RegexReparse
  import opened RegexRoundTrip
  import opened RegexSyntax
  import opened RegexWellFormed
  import opened Texts

  // ---------------------------------------------------------------- the sets the parser gave the nodes

  /** The single-character nodes in preorder with the sets they were parsed with, each marked when some
      enclosing repetition can match its body more than once. */
  function OwnAtoms(node: Node, repeated: bool): seq<Atom>
    decreases node, 0
  {
    match node
    case Repeat(_, max, _, body) => OwnTreeAtoms(body, repeated || (max > 1 && !(|body| == 1 && body[0].Assert?)))
    case Branch(branches) => OwnBranchAtoms(branches, repeated)
    case SubPattern(_, _, body) => OwnTreeAtoms(body, repeated)
    case Assert(_, _, body) => OwnTreeAtoms(body, repeated)
    case At(_) => []
    case GroupRef(_, _) => []
    case _ => [Atom(node.members, repeated)]
  }

  function OwnTreeAtoms(nodes: seq<Node>, repeated: bool): seq<Atom>
    decreases nodes, 1
  {
    if nodes == [] then [] else OwnAtoms(nodes[0], repeated) + OwnTreeAtoms(nodes[1..], repeated)
  }

  function OwnBranchAtoms(branches: seq<Alternative>, repeated: bool): seq<Atom>
    decreases branches, 2
  {
    if branches == [] then []
    else OwnTreeAtoms(branches[0].nodes, repeated) + OwnBranchAtoms(branches[1..], repeated)
  }

  /** Every character and every dot of the listing has the set that it would have under the flags. */
  ghost predicate SetsFit(u: Tables, flags: Flags, listing: seq<Node>) {
    forall k :: 0 <= k < |listing| ==> SetFits(u, flags, listing[k])
  }

  ghost predicate SetFits(u: Tables, flags: Flags, node: Node) {
    node.Literal? || node.Any? ==> node.members == NodeMembers(u, node, flags)
  }

  lemma SetsFitConcat(u: Tables, flags: Flags, s: seq<Node>, t: seq<Node>)
    ensures SetsFit(u, flags, s + t) <==> SetsFit(u, flags, s) && SetsFit(u, flags, t)
  {
    hide SetFits;
    if SetsFit(u, flags, s + t) {
      assert forall k :: 0 <= k < |s| ==> (s + t)[k] == s[k];
      assert forall k :: 0 <= k < |t| ==> (s + t)[|s| + k] == t[k];
    }
  }

  lemma SetsFitOne(u: Tables, flags: Flags, node: Node)
    ensures SetsFit(u, flags, [node]) <==> SetFits(u, flags, node)
  {
    hide SetFits;
    if SetsFit(u, flags, [node]) {
      assert SetFits(u, flags, [node][0]);
    }
  }

  // ---------------------------------------------------------------- when the slots have those sets

  lemma {:induction false} NodeAtomsOwn(u: Tables, node: Node, flags: Flags, repeated: bool)
    ensures var atoms, own := NodeAtoms(u, node, flags, repeated), OwnAtoms(node, repeated);
            |atoms| == |own| && (atoms == own <==> SetsFit(u, flags, FlattenNode(node)))
    decreases node, 0
  {
    hide LiteralMembers, AnyMembers, SetsFit;
    SetsFitOne(u, flags, node);
    match node {
      case Repeat(_, max, _, body) =>
        TreeAtomsOwn(u, body, flags, repeated || (max > 1 && !(|body| == 1 && body[0].Assert?)));
        SetsFitConcat(u, flags, [node], Flatten(body));
      case Branch(branches) =>
        BranchAtomsOwn(u, branches, flags, repeated);
        SetsFitConcat(u, flags, [node], FlattenBranches(branches));
      case SubPattern(_, _, body) =>
        TreeAtomsOwn(u, body, flags, repeated);
        SetsFitConcat(u, flags, [node], Flatten(body));
      case Assert(_, _, body) =>
        TreeAtomsOwn(u, body, flags, repeated);
        SetsFitConcat(u, flags, [node], Flatten(body));
      case _ =>
        assert [node] + [] == [node];
    }
  }

  lemma {:induction false} TreeAtomsOwn(u: Tables, nodes: seq<Node>, flags: Flags, repeated: bool)
    ensures var atoms, own := TreeAtoms(u, nodes, flags, repeated), OwnTreeAtoms(nodes, repeated);
            |atoms| == |own| && (atoms == own <==> SetsFit(u, flags, Flatten(nodes)))
    decreases nodes, 1
  {
    hide NodeAtoms, OwnAtoms, FlattenNode;
    if nodes != [] {
      var head, rest := nodes[0], nodes[1..];
      NodeAtomsOwn(u, head, flags, repeated);
      TreeAtomsOwn(u, rest, flags, repeated);
      SetsFitConcat(u, flags, FlattenNode(head), Flatten(rest));
      PiecewiseEqual(NodeAtoms(u, head, flags, repeated), TreeAtoms(u, rest, flags, repeated),
                     OwnAtoms(head, repeated), OwnTreeAtoms(rest, repeated));
    }
  }

  lemma {:induction false} BranchAtomsOwn(u: Tables, branches: seq<Alternative>, flags: Flags, repeated: bool)
    ensures var atoms, own := BranchAtoms(u, branches, flags, repeated), OwnBranchAtoms(branches, repeated);
            |atoms| == |own| && (atoms == own <==> SetsFit(u, flags, FlattenBranches(branches)))
    decreases branches, 2
  {
    hide TreeAtoms, OwnTreeAtoms, Flatten;
    if branches != [] {
      var first, rest := branches[0].nodes, branches[1..];
      TreeAtomsOwn(u, first, flags, repeated);
      BranchAtomsOwn(u, rest, flags, repeated);
      SetsFitConcat(u, flags, Flatten(first), FlattenBranches(rest));
      PiecewiseEqual(TreeAtoms(u, first, flags, repeated), BranchAtoms(u, rest, flags, repeated),
                     OwnTreeAtoms(first, repeated), OwnBranchAtoms(rest, repeated));
    }
  }

  /** The slots of a parsed pattern hold the sets its nodes were parsed with exactly when every character
      and every dot has the set that it would have under the final flags. */
  lemma SlotsOwnExactly(u: Tables, pattern: string, flags: Flags)
    requires Sane(u)
    ensures var r := ParsePattern(u, pattern, flags);
            r.Ok? ==>
              (CollectAtoms(WalkSequence(u, r.value, r.st.flags), false) == OwnTreeAtoms(r.value, false)
               <==> SetsFit(u, r.st.flags, Flatten(r.value)))
  {
    hide *;
    PatternAtoms(u, pattern, flags);
    var r := ParsePattern(u, pattern, flags);
    if r.Ok? {
      TreeAtomsOwn(u, r.value, r.st.flags, false);
    }
  }

  /** Every fill is a character that some repeated node matches, and each character that some repeated
      node matches has exactly one fill that the very same nodes match. */
  ghost predicate Represent(fills: seq<int>, atoms: seq<Atom>) {
    OnlyRepeatable(fills, atoms) && EachRepresented(fills, atoms) && NoTwoAlike(fills, atoms)
  }

  /** Then the fills represent the characters that the repeated nodes match. */
  lemma PatternFills(u: Tables, pattern: string, flags: Flags)
    requires Sane(u)
    ensures var r := ParsePattern(u, pattern, flags);
            r.Ok? && SetsFit(u, r.st.flags, Flatten(r.value)) ==>
              Represent(Fills(CollectAtoms(WalkSequence(u, r.value, r.st.flags), false)), OwnTreeAtoms(r.value, false))
  {
    hide ParsePattern, Fills, OnlyRepeatable, EachRepresented, NoTwoAlike, TreeAtoms, OwnTreeAtoms, CollectAtoms,
      WalkSequence;
    SlotsOwnExactly(u, pattern, flags);
    PatternAtoms(u, pattern, flags);
    FinalFlagFills(u, pattern, flags);
  }

  // ---------------------------------------------------------------- patterns without inner flag groups

  lemma {:induction false} NodeFits(u: Tables, flags: Flags, node: Node)
    requires Faithful(u, flags, node)
    ensures SetsFit(u, flags, FlattenNode(node))
    decreases node, 0
  {
    hide SetsFit;
    SetsFitOne(u, flags, node);
    match node {
      case Repeat(_, _, _, body) =>
        TreeFits(u, flags, body);
        SetsFitConcat(u, flags, [node], Flatten(body));
      case Branch(branches) =>
        BranchesFit(u, flags, branches);
        SetsFitConcat(u, flags, [node], FlattenBranches(branches));
      case SubPattern(_, _, body) =>
        TreeFits(u, flags, body);
        SetsFitConcat(u, flags, [node], Flatten(body));
      case Assert(_, _, body) =>
        TreeFits(u, flags, body);
        SetsFitConcat(u, flags, [node], Flatten(body));
      case _ =>
        assert [node] + [] == [node];
    }
  }

  lemma {:induction false} TreeFits(u: Tables, flags: Flags, nodes: seq<Node>)
    requires AllFaithful(u, flags, nodes)
    ensures SetsFit(u, flags, Flatten(nodes))
    decreases nodes, 1
  {
    hide Faithful, FlattenNode;
    if nodes != [] {
      NodeFits(u, flags, nodes[0]);
      TreeFits(u, flags, nodes[1..]);
      SetsFitConcat(u, flags, FlattenNode(nodes[0]), Flatten(nodes[1..]));
    }
  }

  lemma {:induction false} BranchesFit(u: Tables, flags: Flags, branches: seq<Alternative>)
    requires BranchesFaithful(u, flags, branches)
    ensures SetsFit(u, flags, FlattenBranches(branches))
    decreases branches, 2
  {
    hide AllFaithful, Flatten;
    if branches != [] {
      TreeFits(u, flags, branches[0].nodes);
      BranchesFit(u, flags, branches[1..]);
      SetsFitConcat(u, flags, Flatten(branches[0].nodes), FlattenBranches(branches[1..]));
    }
  }

  /** A pattern that sets flags at its start only has fills that represent what its repeated nodes match. */
  lemma UnscopedFills(u: Tables, pattern: string, flags: Flags)
    requires Sane(u) && LeadingFlagsOnly(pattern)
    ensures var r := ParsePattern(u, pattern, flags);
            r.Ok? ==>
              Represent(Fills(CollectAtoms(WalkSequence(u, r.value, r.st.flags), false)), OwnTreeAtoms(r.value, false))
  {
    hide *;
    var r := ParsePattern(u, pattern, flags);
    if r.Ok? {
      LeadingFaithful(u, pattern, flags);
      TreeFits(u, r.st.flags, r.value);
      PatternFills(u, pattern, flags);
    }
  }

  // ---------------------------------------------------------------- a dot under flags of its own

  const SCOPED := "(?s:.)+\n"

  /** A repeated dot that matches line breaks, and a line break behind it. */
  ghost function ScopedTree(u: Tables, flags: Flags): seq<Node> {
    [Repeat(1, MAX_REPEAT, false, [SubPattern(0, "", [Any(Full())])]), LiteralNode(u, '\n' as int, flags)]
  }

  lemma ScopedParses(u: Tables, flags: Flags)
    requires Sane(u) && !flags.verbose
    ensures var r := ParsePattern(u, SCOPED, flags);
            r.Ok? && r.value == ScopedTree(u, flags) && r.st.flags == flags
  {
    hide LiteralNode, ParseItem, ParseSequence, ParseAtom;
    var src, st := SCOPED, Initial(flags);
    var newline := LiteralNode(u, '\n' as int, flags);
    var dot := SubPattern(0, "", [Any(Full())]);
    var plus := Repeat(1, MAX_REPEAT, false, [dot]);
    ScopedGroup(u, src, st);
    PlusBehind(src, dot, st.(pos := 6));
    ItemOf(u, src, st, dot, st.(pos := 6));
    NewlineItem(u, src, st.(pos := 7));
    NothingBehind(u, src, st.(pos := 8));
    assert [newline][1..] == [] && [plus, newline][1..] == [newline];
    SequenceCons(u, src, st.(pos := 7), [newline], st.(pos := 8), st.(pos := 8));
    SequenceCons(u, src, st, [plus, newline], st.(pos := 7), st.(pos := 8));
    SingleSequence(u, src, st, [plus, newline], st.(pos := 8));
  }

  lemma NothingBehind(u: Tables, src: string, st: St)
    requires st.pos <= |src| && EndsSequence(src, st.pos)
    ensures ParseSequence(u, src, st) == Ok([], st)
  {
  }

  lemma NewlineItem(u: Tables, src: string, st: St)
    requires st.pos + 1 == |src| && src[st.pos] == '\n' && !st.flags.verbose
    ensures ParseItem(u, src, st) == Ok(Some(LiteralNode(u, '\n' as int, st.flags)), st.(pos := st.pos + 1))
  {
    hide LiteralNode;
  }

  lemma PlusBehind(src: string, atom: Node, st: St)
    requires st.pos + 1 < |src| && src[st.pos] == '+' && !StartsQuantifier(src[st.pos + 1])
    requires atom.SubPattern?
    ensures Quantify(src, atom, st) == Ok(Repeat(1, MAX_REPEAT, false, [atom]), st.(pos := st.pos + 1))
  {
    assert ReadQuantifier(src, st.pos) == Quantifier(1, MAX_REPEAT, 1);
    assert ReadQuantifier(src, st.pos + 1) == NoQuantifier(false);
  }

  lemma ScopedGroup(u: Tables, src: string, st: St)
    requires src == SCOPED && st.pos == 0 && st.nesting == 0 && !st.flags.verbose
    ensures ParseAtom(u, src, st) == Ok(Some(SubPattern(0, "", [Any(Full())])), st.(pos := 6))
  {
    hide PlainGroup, Lookaround, PythonExtension, CaptureGroup, ReadFlags;
    var open := st.(pos := 4, flags := st.flags.(dotAll := true));
    ScopedFlagRun(src);
    assert ApplyFlags(st.flags, NO_FLAGS.(dotAll := true), NO_FLAGS) == open.flags;
    DotGroup(u, src, open);
    assert PlainGroup(u, src, open, 0) == Ok(Some(SubPattern(0, "", [Any(Full())])), open.(pos := 6));
    assert InlineFlags(u, src, st.(pos := 2), 0) == Ok(Some(SubPattern(0, "", [Any(Full())])), st.(pos := 6));
    assert ParseGroup(u, src, st) == Extension(u, src, st.(pos := 2), 0);
  }

  lemma ScopedFlagRun(src: string)
    requires src == SCOPED
    ensures ReadFlags(src, 2, NO_FLAGS, NO_FLAGS, false, 0) == ScopedFlags(NO_FLAGS.(dotAll := true), NO_FLAGS, 4)
  {
    assert ReadFlags(src, 3, NO_FLAGS.(dotAll := true), NO_FLAGS, false, 0)
        == ScopedFlags(NO_FLAGS.(dotAll := true), NO_FLAGS, 4);
  }

  lemma DotGroup(u: Tables, src: string, st: St)
    requires src == SCOPED && st.pos == 4 && st.nesting == 0 && !st.flags.verbose && st.flags.dotAll
    ensures PlainGroup(u, src, st, 0) == Ok(Some(SubPattern(0, "", [Any(Full())])), st.(pos := 6))
  {
    hide ParseItem, ParseSequence, ParseAlternations;
    var inner, dot := st.(nesting := 1), Any(Full());
    DotItem(u, src, inner);
    NothingBehind(u, src, inner.(pos := 5));
    assert [dot][1..] == [];
    SequenceCons(u, src, inner, [dot], inner.(pos := 5), inner.(pos := 5));
    SingleSequence(u, src, inner, [dot], inner.(pos := 5));
    assert ParseGroupBody(u, src, st, 0) == Ok([dot], st.(pos := 6));
  }

  lemma DotItem(u: Tables, src: string, st: St)
    requires src == SCOPED && st.pos == 4 && !st.flags.verbose && st.flags.dotAll
    ensures ParseItem(u, src, st) == Ok(Some(Any(Full())), st.(pos := 5))
  {
    assert ParseAtom(u, src, st) == Ok(Some(Any(Full())), st.(pos := 5));
  }

  /** The line break is matched by the repeated dot and by the line break behind it, but the dot is split
      as one that does not match line breaks, and no fill stands for the line break. */
  lemma ScopedDotUnfilled(u: Tables, flags: Flags)
    requires Sane(u) && !flags.verbose && !flags.dotAll && !flags.ignoreCase
    ensures var r := ParsePattern(u, SCOPED, flags);
            && r.Ok? && !SetsFit(u, r.st.flags, Flatten(r.value))
            && var atoms := OwnTreeAtoms(r.value, false);
               && Repeatable('\n' as int, atoms)
               && !Stands(Fills(CollectAtoms(WalkSequence(u, r.value, r.st.flags), false)), '\n' as int, atoms)
  {
    hide *;
    var newline, r := '\n' as int, ParsePattern(u, SCOPED, flags);
    ScopedParses(u, flags);
    ScopedOwnAtoms(u, flags);
    ScopedFinalAtoms(u, flags);
    PatternAtoms(u, SCOPED, flags);
    FinalFlagFills(u, SCOPED, flags);
    var own, final := OwnTreeAtoms(r.value, false), TreeAtoms(u, r.value, flags, false);
    DotSets();
    OwnMeansNewline(own);
    FinalNeverNewline(final, Fills(final));
    NoFillStands(own, final, Fills(final));
    SlotsOwnExactly(u, SCOPED, flags);
    DifferentAtoms(own, final);
  }

  ghost predicate OnlyNewline(s: IntervalSet) {
    forall c :: Member(c, s) ==> c == '\n' as int
  }

  lemma DotSets()
    ensures Member('\n' as int, Full()) && Member('\n' as int, Single('\n' as int))
    ensures OnlyNewline(Single('\n' as int))
    ensures !Member('\n' as int, Difference(Full(), Single('\n' as int)))
  {
    var newline := '\n' as int;
    assert Within(newline, Full()[0]) && Within(newline, Single(newline)[0]);
    DifferenceSpec(Full(), Single(newline));
  }

  /** What the nodes match. */
  predicate OwnShape(atoms: seq<Atom>) {
    atoms == [Atom(Full(), true), Atom(Single('\n' as int), false)]
  }

  /** What the slots hold. */
  predicate FinalShape(atoms: seq<Atom>) {
    atoms == [Atom(Difference(Full(), Single('\n' as int)), true), Atom(Single('\n' as int), false)]
  }

  lemma ScopedOwnAtoms(u: Tables, flags: Flags)
    requires !flags.ignoreCase
    ensures OwnShape(OwnTreeAtoms(ScopedTree(u, flags), false))
  {
    var newline, dot := LiteralNode(u, '\n' as int, flags), Any(Full());
    var group := SubPattern(0, "", [dot]);
    var plus := Repeat(1, MAX_REPEAT, false, [group]);
    assert [dot][1..] == [] && [group][1..] == [] && [newline][1..] == [] && [plus, newline][1..] == [newline];
    assert OwnTreeAtoms([dot], true) == [Atom(Full(), true)];
    assert OwnTreeAtoms([group], true) == [Atom(Full(), true)];
    assert OwnTreeAtoms([newline], false) == [Atom(Single('\n' as int), false)];
  }

  lemma ScopedFinalAtoms(u: Tables, flags: Flags)
    requires !flags.ignoreCase && !flags.dotAll
    ensures FinalShape(TreeAtoms(u, ScopedTree(u, flags), flags, false))
  {
    hide Difference;
    var newline, dot := LiteralNode(u, '\n' as int, flags), Any(Full());
    var group := SubPattern(0, "", [dot]);
    var plus := Repeat(1, MAX_REPEAT, false, [group]);
    var few := Atom(Difference(Full(), Single('\n' as int)), true);
    assert [dot][1..] == [] && [group][1..] == [] && [newline][1..] == [] && [plus, newline][1..] == [newline];
    assert TreeAtoms(u, [dot], flags, true) == [few];
    assert TreeAtoms(u, [group], flags, true) == [few];
    assert TreeAtoms(u, [newline], flags, false) == [Atom(Single('\n' as int), false)];
  }

  lemma OwnMeansNewline(own: seq<Atom>)
    requires OwnShape(own) && Member('\n' as int, Full())
    ensures Repeatable('\n' as int, own)
  {
    hide Full, Member;
    assert own[0].repeated && Member('\n' as int, own[0].members);
  }

  lemma FinalNeverNewline(final: seq<Atom>, fills: seq<int>)
    requires FinalShape(final) && OnlyRepeatable(fills, final)
    requires !Member('\n' as int, Difference(Full(), Single('\n' as int)))
    ensures '\n' as int !in fills
  {
    hide Difference, Member, Full, Single;
  }

  lemma NoFillStands(own: seq<Atom>, final: seq<Atom>, fills: seq<int>)
    requires OwnShape(own) && '\n' as int !in fills && Member('\n' as int, Single('\n' as int))
    requires OnlyNewline(Single('\n' as int))
    ensures !Stands(fills, '\n' as int, own)
  {
    hide Member, Full, Single;
    forall i | 0 <= i < |fills| ensures !SameClasses('\n' as int, fills[i], own) {
      assert Member('\n' as int, own[1].members) && !Member(fills[i], own[1].members);
    }
  }

  lemma DifferentAtoms(own: seq<Atom>, final: seq<Atom>)
    requires OwnShape(own) && FinalShape(final) && Member('\n' as int, Full())
    requires !Member('\n' as int, Difference(Full(), Single('\n' as int)))
    ensures own != final
  {
    hide Member, Full, Single, Difference;
    assert own[0] != final[0];
  }
}
