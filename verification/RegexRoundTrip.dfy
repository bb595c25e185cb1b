/** Parsing the canonical text of a well-formed tree gives the tree back
    (guardcore/redos_parser.go, guardcore/redos_escape.go). */
module RegexRoundTrip {
  import opened Intervals
  import opened RegexSyntax
  import opened RegexGrammar
  import opened RegexWellFormed
  import opened RegexRender
  import opened Texts

  /** Every character set is the one the parser computes under `flags`. */
  ghost predicate Faithful(u: Tables, flags: Flags, node: Node)
    decreases node, 0
  {
    match node
    case Literal(ch, members) => members == LiteralMembers(u, ch, flags)
    case Any(members) => members == AnyMembers(flags)
    case In(members, category) => category.Some? ==> members == CategoryMembers(u, category.value, flags)
    case Repeat(_, _, _, body) => AllFaithful(u, flags, body)
    case Branch(branches) => BranchesFaithful(u, flags, branches)
    case SubPattern(_, _, body) => AllFaithful(u, flags, body)
    case Assert(_, _, body) => AllFaithful(u, flags, body)
    case _ => true
  }

  ghost predicate AllFaithful(u: Tables, flags: Flags, nodes: seq<Node>)
    decreases nodes, 1
  {
    nodes == [] || (Faithful(u, flags, nodes[0]) && AllFaithful(u, flags, nodes[1..]))
  }

  ghost predicate BranchesFaithful(u: Tables, flags: Flags, branches: seq<Alternative>)
    decreases branches, 2
  {
    branches == [] || (AllFaithful(u, flags, branches[0].nodes) && BranchesFaithful(u, flags, branches[1..]))
  }

  /** Every class that is spelt by its members is closed under the case variants that the parser looks up. */
  ghost predicate CaseClosed(u: Tables, flags: Flags, node: Node)
    decreases node, 0
  {
    match node
    case In(members, category) => category.None? ==> FoldClosed(u, flags, members)
    case Repeat(_, _, _, body) => AllCaseClosed(u, flags, body)
    case Branch(branches) => BranchesCaseClosed(u, flags, branches)
    case SubPattern(_, _, body) => AllCaseClosed(u, flags, body)
    case Assert(_, _, body) => AllCaseClosed(u, flags, body)
    case _ => true
  }

  ghost predicate AllCaseClosed(u: Tables, flags: Flags, nodes: seq<Node>)
    decreases nodes, 1
  {
    nodes == [] || (CaseClosed(u, flags, nodes[0]) && AllCaseClosed(u, flags, nodes[1..]))
  }

  ghost predicate BranchesCaseClosed(u: Tables, flags: Flags, branches: seq<Alternative>)
    decreases branches, 2
  {
    branches == [] || (AllCaseClosed(u, flags, branches[0].nodes) && BranchesCaseClosed(u, flags, branches[1..]))
  }

  // ---------------------------------------------------------------- a tree read under other flags

  /** The tree with the character sets that its canonical text has under `flags`. */
  ghost function Refit(u: Tables, flags: Flags, node: Node): Node
    decreases node, 0
  {
    match node
    case Literal(ch, _) => LiteralNode(u, ch, flags)
    case Any(_) => Any(AnyMembers(flags))
    case In(members, category) =>
      In(if category.Some? then CategoryMembers(u, category.value, flags) else Spelt(u, flags, members), category)
    case Repeat(min, max, lazy, body) => Repeat(min, max, lazy, RefitAll(u, flags, body))
    case Branch(branches) => Branch(RefitBranches(u, flags, branches))
    case SubPattern(idx, name, body) => SubPattern(idx, name, RefitAll(u, flags, body))
    case Assert(behind, negative, body) => Assert(behind, negative, RefitAll(u, flags, body))
    case _ => node
  }

  ghost function RefitAll(u: Tables, flags: Flags, nodes: seq<Node>): (fit: seq<Node>)
    ensures |fit| == |nodes|
    decreases nodes, 1
  {
    if nodes == [] then [] else [Refit(u, flags, nodes[0])] + RefitAll(u, flags, nodes[1..])
  }

  ghost function RefitBranches(u: Tables, flags: Flags, branches: seq<Alternative>): (fit: seq<Alternative>)
    ensures |fit| == |branches|
    decreases branches, 2
  {
    if branches == [] then []
    else [Alternative(RefitAll(u, flags, branches[0].nodes))] + RefitBranches(u, flags, branches[1..])
  }

  lemma RefitAllCons(u: Tables, flags: Flags, nodes: seq<Node>)
    requires nodes != []
    ensures var fit := RefitAll(u, flags, nodes);
            && fit[0] == Refit(u, flags, nodes[0]) && fit[1..] == RefitAll(u, flags, nodes[1..])
            && fit == [fit[0]] + fit[1..] && nodes == [nodes[0]] + nodes[1..]
  {
    hide Refit;
  }

  lemma RefitBranchesCons(u: Tables, flags: Flags, branches: seq<Alternative>)
    requires branches != []
    ensures var fit := RefitBranches(u, flags, branches);
            && fit[0] == Alternative(RefitAll(u, flags, branches[0].nodes))
            && fit[1..] == RefitBranches(u, flags, branches[1..])
            && fit == [fit[0]] + fit[1..] && branches == [branches[0]] + branches[1..]
  {
    hide RefitAll;
  }

  /** Refitting leaves a tree alone exactly when its sets are those of the flags already. */
  lemma {:induction false} AtomFixed(u: Tables, flags: Flags, node: Node, c: Ctx)
    requires Sane(u) && WFAtom(node, c)
    ensures Refit(u, flags, node) == node <==> Faithful(u, flags, node) && CaseClosed(u, flags, node)
    decreases node, 0
  {
    hide LiteralMembers, CategoryMembers, AnyMembers, Spelt, FoldClosed, Canonical, WFBody;
    match node {
      case In(members, category) =>
        if category.None? {
          SpeltExactly(u, flags, members);
        }
      case SubPattern(_, _, body) => BodyFixed(u, flags, body, Inside(node, c));
      case Assert(_, _, body) => BodyFixed(u, flags, body, Inside(node, c));
      case _ =>
    }
  }

  lemma {:induction false} ItemFixed(u: Tables, flags: Flags, node: Node, c: Ctx)
    requires Sane(u) && WFItem(node, c)
    ensures Refit(u, flags, node) == node <==> Faithful(u, flags, node) && CaseClosed(u, flags, node)
    decreases node, 1
  {
    hide WFAtom, RefitAll, AllFaithful, AllCaseClosed;
    if node.Repeat? {
      AtomFixed(u, flags, node.body[0], c);
      OneFixed(u, flags, node.body);
    } else {
      AtomFixed(u, flags, node, c);
    }
  }

  lemma OneFixed(u: Tables, flags: Flags, body: seq<Node>)
    requires |body| == 1
    ensures RefitAll(u, flags, body) == [Refit(u, flags, body[0])] && body == [body[0]]
    ensures AllFaithful(u, flags, body) <==> Faithful(u, flags, body[0])
    ensures AllCaseClosed(u, flags, body) <==> CaseClosed(u, flags, body[0])
  {
    hide Refit, Faithful, CaseClosed;
    assert body[1..] == [];
  }

  lemma {:induction false} SequenceFixed(u: Tables, flags: Flags, nodes: seq<Node>, c: Ctx)
    requires Sane(u) && WFSequence(nodes, c)
    ensures RefitAll(u, flags, nodes) == nodes <==> AllFaithful(u, flags, nodes) && AllCaseClosed(u, flags, nodes)
    decreases nodes, 2
  {
    hide WFItem, Refit, Faithful, CaseClosed, AfterNode, RefitAll;
    if nodes == [] {
      assert RefitAll(u, flags, nodes) == [];
    } else {
      ItemFixed(u, flags, nodes[0], c);
      SequenceFixed(u, flags, nodes[1..], AfterNode(nodes[0], c));
      RefitAllCons(u, flags, nodes);
    }
  }

  lemma {:induction false} AllBranchesFixed(u: Tables, flags: Flags, branches: seq<Alternative>, c: Ctx)
    requires Sane(u) && WFBranches(branches, c)
    ensures RefitBranches(u, flags, branches) == branches <==>
            BranchesFaithful(u, flags, branches) && BranchesCaseClosed(u, flags, branches)
    decreases branches, 3
  {
    hide WFSequence, RefitAll, AllFaithful, AllCaseClosed, AfterNodes, RefitBranches;
    if branches == [] {
      assert RefitBranches(u, flags, branches) == [];
    } else {
      SequenceFixed(u, flags, branches[0].nodes, c);
      AllBranchesFixed(u, flags, branches[1..], AfterNodes(branches[0].nodes, c));
      RefitBranchesCons(u, flags, branches);
    }
  }

  lemma {:induction false} BodyFixed(u: Tables, flags: Flags, nodes: seq<Node>, c: Ctx)
    requires Sane(u) && WFBody(nodes, c)
    ensures RefitAll(u, flags, nodes) == nodes <==> AllFaithful(u, flags, nodes) && AllCaseClosed(u, flags, nodes)
    decreases nodes, 3
  {
    hide WFSequence, WFBranches, RefitAll, AllFaithful, AllCaseClosed;
    if |nodes| == 1 && nodes[0].Branch? {
      AllBranchesFixed(u, flags, nodes[0].branches, c);
      OneFixed(u, flags, nodes);
    } else {
      SequenceFixed(u, flags, nodes, c);
    }
  }

  // ---------------------------------------------------------------- states

  /** The state after a node has been read from its rendering. */
  function Past(st: St, node: Node): St
  {
    var c := AfterNode(node, CtxOf(st));
    st.(pos := st.pos + |RenderNode(node)|, groups := c.groups, names := c.names)
  }

  function PastAll(st: St, nodes: seq<Node>): St
  {
    var c := AfterNodes(nodes, CtxOf(st));
    st.(pos := st.pos + |RenderNodes(nodes)|, groups := c.groups, names := c.names)
  }

  function PastBranches(st: St, branches: seq<Alternative>): St
  {
    var c := AfterBranches(branches, CtxOf(st));
    st.(pos := st.pos + |RenderBranches(branches)|, groups := c.groups, names := c.names)
  }

  /** What may follow an item: nothing that could be read into it. */
  predicate Boundary(src: string, pos: nat) {
    pos < |src| ==> !StartsQuantifier(src[pos]) && !IsDigit(src[pos]) && !Skipped(src[pos])
  }

  /** What verbose mode passes over. */
  predicate Skipped(c: char) {
    IsBlank(c) || c == '#'
  }

  predicate NotSkipped(src: string, pos: nat) {
    pos < |src| ==> !Skipped(src[pos])
  }

  ghost predicate Ready(u: Tables, src: string, st: St) {
    Sane(u) && st.pos <= |src| && Counted(st)
  }

  predicate StartsItem(c: char) {
    !StartsQuantifier(c) && !IsDigit(c) && !Skipped(c) && c != '|' && c != ')'
  }

  lemma {:induction false} FirstChar(node: Node, c: Ctx)
    requires WFItem(node, c)
    ensures RenderNode(node) != "" && StartsItem(RenderNode(node)[0])
    decreases node, 1
  {
    match node {
      case Repeat(_, _, _, body) =>
        FirstChar(body[0], c);
        assert RenderNodes(body) == RenderNode(body[0]) + RenderNodes(body[1..]);
      case Branch(_) =>
      case _ =>
    }
  }

  // ---------------------------------------------------------------- atoms without a body

  lemma LiteralTrip(u: Tables, src: string, st: St, node: Node)
    requires Ready(u, src, st) && node.Literal? && IsCodePoint(node.ch)
    requires TextAt(src, st.pos, RenderNode(node))
    ensures st.pos < |src| && ParseAtom(u, src, st) == Ok(Some(Refit(u, st.flags, node)), Past(st, node))
  {
    var text := RenderLiteral(node.ch);
    TextChar(src, st.pos, text, 0);
    if IsLetterCode(node.ch) {
      LetterTrip(u, src, st, node.ch);
    } else if 0x20 <= node.ch <= 0x7e && !('0' as int <= node.ch <= '9' as int) {
      TextChar(src, st.pos, text, 1);
      EscapedTrip(u, src, st, node.ch);
    } else {
      ReadHexAt(src, st.pos, node.ch, st.pos);
      CodePointTrip(u, src, st, node.ch);
    }
  }

  lemma LetterTrip(u: Tables, src: string, st: St, ch: int)
    requires st.pos < |src| && src[st.pos] as int == ch && IsLetterCode(ch)
    ensures ParseAtom(u, src, st) == Ok(Some(LiteralNode(u, ch, st.flags)), st.(pos := st.pos + 1))
  {
  }

  lemma AtomIsEscape(u: Tables, src: string, st: St)
    requires st.pos < |src| && src[st.pos] == '\\'
    ensures ParseAtom(u, src, st) == SomeNode(ParseEscape(u, src, st))
  {
    hide ParseEscape;
  }

  lemma EscapedTrip(u: Tables, src: string, st: St, ch: int)
    requires st.pos + 1 < |src| && src[st.pos] == '\\' && src[st.pos + 1] as int == ch
    requires 0x20 <= ch <= 0x7e && !IsLetterCode(ch) && !('0' as int <= ch <= '9' as int)
    ensures ParseAtom(u, src, st) == Ok(Some(LiteralNode(u, ch, st.flags)), st.(pos := st.pos + 2))
  {
    hide DecimalEscape, ReadHex;
    AtomIsEscape(u, src, st);
  }

  lemma CodePointTrip(u: Tables, src: string, st: St, ch: int)
    requires st.pos + 1 < |src| && src[st.pos] == '\\' && src[st.pos + 1] == 'U' && ch >= 0
    requires ReadHex(src, st.pos + 2, 8, st.pos) == CharAt(ch, st.pos + 10)
    ensures ParseAtom(u, src, st) == Ok(Some(LiteralNode(u, ch, st.flags)), st.(pos := st.pos + 10))
  {
    hide DecimalEscape, ReadHex;
    AtomIsEscape(u, src, st);
  }

  lemma SetTrip(u: Tables, src: string, st: St, node: Node)
    requires Ready(u, src, st) && node.In? && Canonical(node.members)
    requires TextAt(src, st.pos, RenderNode(node))
    ensures st.pos < |src| && ParseAtom(u, src, st) == Ok(Some(Refit(u, st.flags, node)), Past(st, node))
  {
    if node.category.Some? {
      TextChar(src, st.pos, RenderNode(node), 0);
      TextChar(src, st.pos, RenderNode(node), 1);
      CategoryTrip(u, src, st, node.category.value);
    } else {
      hide ParseClass, RenderClass, Spelt;
      ClassAt(u, src, st, node.members);
    }
  }

  lemma CategoryTrip(u: Tables, src: string, st: St, category: Category)
    requires st.pos + 1 < |src| && src[st.pos] == '\\' && src[st.pos + 1] == RenderCategory(category)[1]
    ensures ParseAtom(u, src, st)
         == Ok(Some(In(CategoryMembers(u, category, st.flags), Some(category))), st.(pos := st.pos + 2))
  {
    hide DecimalEscape, ReadHex;
    AtomIsEscape(u, src, st);
  }

  lemma AnchorTrip(u: Tables, src: string, st: St, node: Node)
    requires Ready(u, src, st) && node.At? && TextAt(src, st.pos, RenderNode(node))
    ensures st.pos < |src| && ParseAtom(u, src, st) == Ok(Some(Refit(u, st.flags, node)), Past(st, node))
  {
    TextChar(src, st.pos, RenderNode(node), 0);
    if |RenderNode(node)| == 2 {
      hide DecimalEscape, ReadHex;
      TextChar(src, st.pos, RenderNode(node), 1);
      AtomIsEscape(u, src, st);
    }
  }

  lemma NumberTrip(u: Tables, src: string, st: St, ref: nat)
    requires Ready(u, src, st) && 1 <= ref <= 99 && ref < st.groups && ref !in st.open
    requires TextAt(src, st.pos, "\\" + Decimal(ref))
    requires st.pos + 1 + |Decimal(ref)| < |src| ==> !IsDigit(src[st.pos + 1 + |Decimal(ref)|])
    ensures st.pos < |src|
    ensures ParseAtom(u, src, st) == Ok(Some(GroupRef(ref, "")), st.(pos := st.pos + 1 + |Decimal(ref)|))
  {
    ReferenceDigits(ref);
    var text := "\\" + Decimal(ref);
    TextChar(src, st.pos, text, 0);
    TextChar(src, st.pos, text, 1);
    TextSplit(src, st.pos, "\\", Decimal(ref));
    DigitsTrip(u, src, st, ref);
    EscapeIsDecimal(u, src, st);
    AtomIsEscape(u, src, st);
  }

  lemma EscapeIsDecimal(u: Tables, src: string, st: St)
    requires st.pos + 1 < |src| && src[st.pos] == '\\' && IsDigit(src[st.pos + 1])
    ensures ParseEscape(u, src, st) == DecimalEscape(u, src, st)
  {
    hide DecimalEscape;
  }

  lemma DigitsTrip(u: Tables, src: string, st: St, ref: nat)
    requires 1 <= ref <= 99 && ref < st.groups && ref !in st.open
    requires TextAt(src, st.pos + 1, Decimal(ref)) && IsDigit(src[st.pos + 1])
    requires st.pos + 1 + |Decimal(ref)| < |src| ==> !IsDigit(src[st.pos + 1 + |Decimal(ref)|])
    ensures DecimalEscape(u, src, st) == Ok(GroupRef(ref, ""), st.(pos := st.pos + 1 + |Decimal(ref)|))
  {
    hide Decimal, DecimalValue, OctalChar, LiteralFrom, OctalEnd;
    ReferenceDigits(ref);
    var p := st.pos + 1;
    TextChar(src, p, Decimal(ref), 0);
    if ref >= 10 {
      TextChar(src, p, Decimal(ref), 1);
      assert src[p..p + 2] == Decimal(ref);
    } else {
      assert src[p..p + 1] == Decimal(ref);
    }
  }

  /** The name token ends where the name ends. */
  lemma NameEnd(src: string, pos: nat, name: string, end: char)
    requires ValidName(name) && TextAt(src, pos, name + [end])
    requires end == ')' || end == '>'
    ensures TokenEnd(src, pos, end) == pos + |name| < |src|
    ensures src[pos..pos + |name|] == name
  {
    TextSplit(src, pos, name, [end]);
    TextChar(src, pos, name + [end], |name|);
    forall k | pos <= k < pos + |name| ensures src[k] != end {
      TextChar(src, pos, name, k - pos);
    }
    IndexIs(src, pos, end, pos + |name|);
  }

  lemma NamedRefTrip(u: Tables, src: string, st: St, ref: nat, name: string)
    requires Ready(u, src, st) && ValidName(name) && name in st.names && st.names[name] == ref
    requires TextAt(src, st.pos, "(?P=" + name + ")")
    ensures st.pos < |src|
    ensures ParseAtom(u, src, st) == Ok(Some(GroupRef(ref, name)), st.(pos := st.pos + |name| + 5))
  {
    hide TextAt, ValidName, ParseAtom, NamedReference;
    assert "(?P=" + name + ")" == "(?P=" + (name + ")");
    TextSplit(src, st.pos, "(?P=", name + ")");
    NamedRefRead(src, st.(pos := st.pos + 4), ref, name, st.pos);
    NamedRefHead(u, src, st);
  }

  lemma NamedRefRead(src: string, st: St, ref: nat, name: string, open: nat)
    requires st.pos <= |src| && ValidName(name) && name in st.names && st.names[name] == ref
    requires TextAt(src, st.pos, name + ")")
    ensures NamedReference(src, st, open) == Ok(GroupRef(ref, name), st.(pos := st.pos + |name| + 1))
  {
    hide TextAt, ValidName, TokenEnd;
    NameEnd(src, st.pos, name, ')');
  }

  lemma NamedRefHead(u: Tables, src: string, st: St)
    requires TextAt(src, st.pos, "(?P=")
    ensures st.pos + 4 <= |src|
    ensures ParseAtom(u, src, st) == SomeNode(NamedReference(src, st.(pos := st.pos + 4), st.pos))
  {
    hide NamedReference, CaptureGroup, NamedGroup;
    var text := "(?P=";
    TextChar(src, st.pos, text, 0);
    TextChar(src, st.pos, text, 1);
    TextChar(src, st.pos, text, 2);
    TextChar(src, st.pos, text, 3);
    assert Extension(u, src, st.(pos := st.pos + 2), st.pos) == PythonExtension(u, src, st.(pos := st.pos + 3), st.pos);
  }

  // ---------------------------------------------------------------- groups

  /** What the parser does at the body of a group whose head it has read. */
  ghost function AtBody(u: Tables, src: string, st: St, node: Node, open: nat): Parsed<Option<Node>>
    requires (node.SubPattern? || node.Assert?) && st.pos <= |src|
  {
    if node.Assert? then Lookaround(u, src, st, node.behind, node.negative, open)
    else if node.groupIdx == 0 then PlainGroup(u, src, st, open)
    else CaptureGroup(u, src, st, node.groupName, open)
  }

  lemma AtomIsGroup(u: Tables, src: string, st: St)
    requires st.pos + 1 < |src| && src[st.pos] == '('
    ensures ParseAtom(u, src, st)
         == if src[st.pos + 1] != '?' then CaptureGroup(u, src, st.(pos := st.pos + 1), "", st.pos)
            else Extension(u, src, st.(pos := st.pos + 2), st.pos)
  {
    hide CaptureGroup, Extension;
    assert ParseAtom(u, src, st) == ParseGroup(u, src, st);
  }

  lemma HeadText(src: string, pos: nat, node: Node)
    requires (node.SubPattern? || node.Assert?) && TextAt(src, pos, RenderNode(node))
    ensures TextAt(src, pos, GroupHead(node)) && pos + |GroupHead(node)| <= |src|
    ensures TextAt(src, pos + |GroupHead(node)|, RenderNodes(node.body) + ")")
  {
    hide GroupHead, RenderNodes, TextAt;
    assert RenderNode(node) == GroupHead(node) + (RenderNodes(node.body) + ")");
    TextSplit(src, pos, GroupHead(node), RenderNodes(node.body) + ")");
  }

  /** Past a group head the parser is at the body. */
  lemma HeadTrip(u: Tables, src: string, st: St, node: Node)
    requires Ready(u, src, st) && (node.SubPattern? || node.Assert?) && WFAtom(node, CtxOf(st))
    requires TextAt(src, st.pos, GroupHead(node))
    requires TextAt(src, st.pos + |GroupHead(node)|, RenderNodes(node.body) + ")")
    ensures st.pos < |src| && src[st.pos] == '('
    ensures ParseAtom(u, src, st) == AtBody(u, src, st.(pos := st.pos + |GroupHead(node)|), node, st.pos)
  {
    hide ParseAtom, AtBody, TextAt, RenderNodes;
    TextChar(src, st.pos, GroupHead(node), 0);
    if GroupHead(node) == "(" {
      CaptureHead(u, src, st, node);
    } else {
      hide GroupHead;
      HeadIsLong(node);
      TextChar(src, st.pos, GroupHead(node), 1);
      ExtensionHead(u, src, st, node);
      AtomIsGroup(u, src, st);
    }
  }

  lemma HeadIsLong(node: Node)
    requires node.SubPattern? || node.Assert?
    ensures GroupHead(node) != "(" ==> |GroupHead(node)| >= 3 && GroupHead(node)[1] == '?'
  {
  }

  lemma CaptureHead(u: Tables, src: string, st: St, node: Node)
    requires Ready(u, src, st) && (node.SubPattern? || node.Assert?) && WFAtom(node, CtxOf(st))
    requires GroupHead(node) == "(" && st.pos < |src| && src[st.pos] == '('
    requires TextAt(src, st.pos + 1, RenderNodes(node.body) + ")")
    ensures ParseAtom(u, src, st) == AtBody(u, src, st.(pos := st.pos + 1), node, st.pos)
  {
    hide ParseAtom, TextAt, CaptureGroup, Extension, RenderNodes;
    assert node.SubPattern? && node.groupIdx > 0 && node.groupName == "";
    BodyStart(node.body, Inside(node, CtxOf(st)));
    TextChar(src, st.pos + 1, RenderNodes(node.body) + ")", 0);
    AtomIsGroup(u, src, st);
  }

  lemma ExtensionHead(u: Tables, src: string, st: St, node: Node)
    requires Ready(u, src, st) && (node.SubPattern? || node.Assert?) && WFAtom(node, CtxOf(st))
    requires GroupHead(node) != "(" && TextAt(src, st.pos, GroupHead(node))
    ensures Extension(u, src, st.(pos := st.pos + 2), st.pos)
         == AtBody(u, src, st.(pos := st.pos + |GroupHead(node)|), node, st.pos)
  {
    if node.SubPattern? && node.groupIdx > 0 {
      NamedCase(u, src, st, node);
    } else {
      hide Extension, AtBody, WFAtom;
      HeadIsLong(node);
      TextChar(src, st.pos, GroupHead(node), 2);
      if |GroupHead(node)| > 3 {
        TextChar(src, st.pos, GroupHead(node), 3);
      }
      ShortHead(u, src, st, node);
    }
  }

  lemma NamedCase(u: Tables, src: string, st: St, node: Node)
    requires Ready(u, src, st) && node.SubPattern? && node.groupIdx > 0 && WFAtom(node, CtxOf(st))
    requires GroupHead(node) != "(" && TextAt(src, st.pos, GroupHead(node))
    ensures Extension(u, src, st.(pos := st.pos + 2), st.pos)
         == AtBody(u, src, st.(pos := st.pos + |GroupHead(node)|), node, st.pos)
  {
    hide Extension, CaptureGroup, TextAt, WFBody;
    NamedHead(u, src, st, node.groupName);
  }

  lemma ShortHead(u: Tables, src: string, st: St, node: Node)
    requires node.Assert? || (node.SubPattern? && node.groupIdx == 0)
    requires var head := GroupHead(node);
             |head| >= 3 && st.pos + |head| <= |src| && src[st.pos + 2] == head[2]
               && (|head| > 3 ==> src[st.pos + 3] == head[3])
    ensures Extension(u, src, st.(pos := st.pos + 2), st.pos)
         == AtBody(u, src, st.(pos := st.pos + |GroupHead(node)|), node, st.pos)
  {
    hide Lookaround, PlainGroup, PythonExtension, InlineFlags;
  }

  lemma NamedHeadText(src: string, pos: nat, name: string)
    requires ValidName(name) && TextAt(src, pos, "(?P<" + name + ">")
    ensures pos + |name| + 5 <= |src| && src[pos + 2] == 'P' && src[pos + 3] == '<'
    ensures TokenEnd(src, pos + 4, '>') == pos + 4 + |name| && src[pos + 4..pos + 4 + |name|] == name
  {
    var text := "(?P<" + name + ">";
    TextChar(src, pos, text, 2);
    TextChar(src, pos, text, 3);
    assert text == "(?P<" + (name + ">");
    TextSplit(src, pos, "(?P<", name + ">");
    NameEnd(src, pos + 4, name, '>');
  }

  lemma NamedHead(u: Tables, src: string, st: St, name: string)
    requires Ready(u, src, st) && ValidName(name) && name !in st.names
    requires TextAt(src, st.pos, "(?P<" + name + ">")
    ensures Extension(u, src, st.(pos := st.pos + 2), st.pos)
         == CaptureGroup(u, src, st.(pos := st.pos + |name| + 5), name, st.pos)
  {
    NamedHeadText(src, st.pos, name);
    NamedBody(u, src, st, name, st.pos);
  }

  lemma NamedBody(u: Tables, src: string, st: St, name: string, open: nat)
    requires st.pos + |name| + 5 <= |src| && ValidName(name) && name !in st.names
    requires src[st.pos + 2] == 'P' && src[st.pos + 3] == '<'
    requires TokenEnd(src, st.pos + 4, '>') == st.pos + 4 + |name| && src[st.pos + 4..st.pos + 4 + |name|] == name
    ensures Extension(u, src, st.(pos := st.pos + 2), open)
         == CaptureGroup(u, src, st.(pos := st.pos + |name| + 5), name, open)
  {
    hide CaptureGroup, TokenEnd;
    assert NamedGroup(u, src, st.(pos := st.pos + 4), open)
        == CaptureGroup(u, src, st.(pos := st.pos + |name| + 5), name, open);
    assert PythonExtension(u, src, st.(pos := st.pos + 3), open) == NamedGroup(u, src, st.(pos := st.pos + 4), open);
  }

  /** The text of a group body never starts like an extension. */
  lemma BodyStart(nodes: seq<Node>, c: Ctx)
    requires WFBody(nodes, c)
    ensures RenderNodes(nodes) != "" ==> RenderNodes(nodes)[0] != '?'
  {
    if nodes != [] {
      if |nodes| == 1 && nodes[0].Branch? {
        var branches := nodes[0].branches;
        SequenceStart(branches[0].nodes, c);
        assert RenderNodes(nodes) == RenderBranches(branches) + RenderNodes(nodes[1..]);
      } else {
        SequenceStart(nodes, c);
      }
    }
  }

  lemma SequenceStart(nodes: seq<Node>, c: Ctx)
    requires WFSequence(nodes, c)
    ensures RenderNodes(nodes) != "" ==> StartsItem(RenderNodes(nodes)[0])
  {
    if nodes != [] {
      FirstChar(nodes[0], c);
    }
  }

  lemma {:induction false} BodyTrip(u: Tables, src: string, st: St, body: seq<Node>, open: nat)
    requires Ready(u, src, st) && st.nesting < MAX_GROUP_NESTING_DEPTH
    requires WFBody(body, CtxOf(st).(nesting := st.nesting + 1))
    requires TextAt(src, st.pos, RenderNodes(body) + ")")
    ensures var inner := PastAll(st.(nesting := st.nesting + 1), body);
            ParseGroupBody(u, src, st, open)
            == Ok(RefitAll(u, st.flags, body), inner.(pos := inner.pos + 1, nesting := st.nesting))
    decreases body, 7
  {
    hide ParseAlternations, RenderNodes, TextAt, AfterNodes, WFBody;
    TextSplit(src, st.pos, RenderNodes(body), ")");
    TextChar(src, st.pos, RenderNodes(body) + ")", |RenderNodes(body)|);
    AlternationsTrip(u, src, st.(nesting := st.nesting + 1), body);
  }

  /** The state at a body once its group has been opened. */
  function Opened(st: St, node: Node): St
    requires node.SubPattern? || node.Assert?
  {
    var at := st.(pos := st.pos + |GroupHead(node)|);
    if node.SubPattern? && node.groupIdx > 0 then OpenGroup(at, node.groupName) else at
  }

  /** From the parsed body of a group to the parsed group. */
  lemma CloseTrip(u: Tables, src: string, st: St, node: Node)
    requires Ready(u, src, st) && (node.SubPattern? || node.Assert?) && WFAtom(node, CtxOf(st))
    requires Opened(st, node).pos <= |src|
    requires var o := Opened(st, node);
             var inner := PastAll(o.(nesting := o.nesting + 1), node.body);
             ParseGroupBody(u, src, o, st.pos)
             == Ok(RefitAll(u, st.flags, node.body), inner.(pos := inner.pos + 1, nesting := o.nesting))
    ensures AtBody(u, src, st.(pos := st.pos + |GroupHead(node)|), node, st.pos)
         == Ok(Some(Refit(u, st.flags, node)), Past(st, node))
  {
    hide ParseGroupBody, RenderNodes, AfterNodes, WFBody, GroupHead, Sane;
    assert CtxOf(Opened(st, node)).(nesting := st.nesting + 1) == Inside(node, CtxOf(st));
    assert |RenderNode(node)| == |GroupHead(node)| + |RenderNodes(node.body)| + 1;
    assert st.open + {st.groups} - {st.groups} == st.open;
  }

  lemma {:induction false} GroupTrip(u: Tables, src: string, st: St, node: Node)
    requires Ready(u, src, st) && (node.SubPattern? || node.Assert?)
    requires WFAtom(node, CtxOf(st))
    requires TextAt(src, st.pos, RenderNode(node))
    ensures st.pos < |src| && ParseAtom(u, src, st) == Ok(Some(Refit(u, st.flags, node)), Past(st, node))
    decreases node, 0
  {
    hide ParseAtom, ParseGroupBody, RenderNode, GroupHead, AtBody, TextAt, AfterNode, AfterNodes;
    HeadText(src, st.pos, node);
    HeadTrip(u, src, st, node);
    var o := Opened(st, node);
    assert CtxOf(o).(nesting := o.nesting + 1) == Inside(node, CtxOf(st));
    BodyTrip(u, src, o, node.body, st.pos);
    CloseTrip(u, src, st, node);
  }

  // ---------------------------------------------------------------- items and sequences

  lemma {:induction false} AtomTrip(u: Tables, src: string, st: St, node: Node)
    requires Ready(u, src, st) && WFAtom(node, CtxOf(st))
    requires TextAt(src, st.pos, RenderNode(node))
    requires node.GroupRef? ==> st.pos + |RenderNode(node)| < |src| ==> !IsDigit(src[st.pos + |RenderNode(node)|])
    ensures st.pos < |src| && ParseAtom(u, src, st) == Ok(Some(Refit(u, st.flags, node)), Past(st, node))
    decreases node, 1
  {
    match node {
      case Literal(_, _) => LiteralTrip(u, src, st, node);
      case Any(_) => TextChar(src, st.pos, RenderNode(node), 0);
      case In(_, _) => SetTrip(u, src, st, node);
      case SubPattern(_, _, _) => GroupTrip(u, src, st, node);
      case Assert(_, _, _) => GroupTrip(u, src, st, node);
      case At(_) => AnchorTrip(u, src, st, node);
      case GroupRef(ref, name) =>
        if name == "" {
          NumberTrip(u, src, st, ref);
        } else {
          NamedRefTrip(u, src, st, ref, name);
        }
    }
  }

  lemma {:induction false} ItemTrip(u: Tables, src: string, st: St, node: Node)
    requires Ready(u, src, st) && WFItem(node, CtxOf(st))
    requires TextAt(src, st.pos, RenderNode(node)) && Boundary(src, st.pos + |RenderNode(node)|)
    ensures st.pos < |src| && src[st.pos] != ')'
    ensures ParseItem(u, src, st) == Ok(Some(Refit(u, st.flags, node)), Past(st, node))
    decreases node, 2
  {
    hide ParseItem, ParseAtom, Quantify, RenderNode, AfterNode, TextAt, WFAtom, Refit, Sane, Counted;
    FirstChar(node, CtxOf(st));
    TextChar(src, st.pos, RenderNode(node), 0);
    if node.Repeat? {
      RepeatTrip(u, src, st, node);
    } else {
      AtomTrip(u, src, st, node);
      ItemOf(u, src, st, Refit(u, st.flags, node), Past(st, node));
      NotQuantified(src, Refit(u, st.flags, node), Past(st, node));
    }
  }

  lemma NotQuantified(src: string, node: Node, st: St)
    requires st.pos <= |src| && Boundary(src, st.pos)
    ensures Quantify(src, node, st) == Ok(node, st)
  {
  }

  lemma RepeatText(node: Node, c: Ctx)
    requires node.Repeat? && |node.body| == 1
    ensures var mark := if node.lazy then "?" else "";
            RenderNode(node) == RenderNode(node.body[0]) + (RenderQuantifier(node.min, node.max) + mark)
    ensures AfterNode(node, c) == AfterNode(node.body[0], c)
  {
    var atom := node.body[0];
    assert node.body == [atom] && node.body[1..] == [];
    OneNode(atom, c);
    assert RenderNodes(node.body) == RenderNode(atom) + RenderNodes(node.body[1..]);
  }

  /** An atom that was read, followed by its quantifier. */
  lemma QuantifiedTrip(src: string, node: Node, st: St)
    requires node.Repeat? && node.min <= node.max <= MAX_REPEAT && |node.body| == 1
    requires !node.body[0].At? && !node.body[0].Repeat?
    requires st.pos <= |src|
    requires var mark := if node.lazy then "?" else "";
             var text := RenderQuantifier(node.min, node.max) + mark;
             TextAt(src, st.pos, text) && Boundary(src, st.pos + |text|)
    ensures var mark := if node.lazy then "?" else "";
            var text := RenderQuantifier(node.min, node.max) + mark;
            Quantify(src, node.body[0], st) == Ok(node, st.(pos := st.pos + |text|))
  {
    var text, mark := RenderQuantifier(node.min, node.max), if node.lazy then "?" else "";
    TextSplit(src, st.pos, text, mark);
    QuantifierAt(src, st.pos, node.min, node.max);
    assert node.body == [node.body[0]];
    LazyTrip(src, node, st.(pos := st.pos + |text|));
  }

  lemma {:induction false} RepeatTrip(u: Tables, src: string, st: St, node: Node)
    requires Ready(u, src, st) && node.Repeat? && st.pos < |src|
    requires WFItem(node, CtxOf(st)) && !Skipped(src[st.pos])
    requires TextAt(src, st.pos, RenderNode(node)) && Boundary(src, st.pos + |RenderNode(node)|)
    requires src[st.pos] != ')'
    ensures ParseItem(u, src, st) == Ok(Some(Refit(u, st.flags, node)), Past(st, node))
    decreases node, 1
  {
    hide ParseItem, ParseAtom, Quantify, RenderNode, RenderQuantifier, AfterNode, TextAt, WFAtom, ReadQuantifier, Refit;
    var atom := node.body[0];
    var text, mark := RenderQuantifier(node.min, node.max), if node.lazy then "?" else "";
    RepeatText(node, CtxOf(st));
    TextSplit(src, st.pos, RenderNode(atom), text + mark);
    TextSplit(src, st.pos + |RenderNode(atom)|, text, mark);
    QuantifierAt(src, st.pos + |RenderNode(atom)|, node.min, node.max);
    NotReference(src, st.pos + |RenderNode(atom)|);
    AtomShape(atom, CtxOf(st));
    AtomTrip(u, src, st, atom);
    RefitRepeat(u, st.flags, node, CtxOf(st));
    QuantifiedTrip(src, Refit(u, st.flags, node), Past(st, atom));
    StartIsNotSkipped(src, st.pos + |RenderNode(atom)|);
    ItemOf(u, src, st, Refit(u, st.flags, atom), Past(st, atom));
  }

  lemma RefitRepeat(u: Tables, flags: Flags, node: Node, c: Ctx)
    requires WFItem(node, c) && node.Repeat?
    ensures Refit(u, flags, node) == Repeat(node.min, node.max, node.lazy, [Refit(u, flags, node.body[0])])
    ensures var atom := Refit(u, flags, node.body[0]); !atom.At? && !atom.Repeat?
  {
    hide LiteralMembers, CategoryMembers, AnyMembers, Spelt;
    OneFixed(u, flags, node.body);
    AtomShape(node.body[0], c);
  }

  lemma StartIsNotSkipped(src: string, pos: nat)
    requires pos < |src| && StartsQuantifier(src[pos])
    ensures NotSkipped(src, pos)
  {
  }

  lemma AtomShape(atom: Node, c: Ctx)
    requires WFAtom(atom, c)
    ensures !atom.Repeat? && !atom.Branch?
  {
  }

  lemma NotReference(src: string, pos: nat)
    requires pos < |src| && StartsQuantifier(src[pos])
    ensures !IsDigit(src[pos])
  {
  }

  /** Where there is nothing to skip, an item is an atom and what quantifies it. */
  lemma ItemOf(u: Tables, src: string, st: St, atom: Node, next: St)
    requires Ready(u, src, st) && st.pos < |src| && src[st.pos] != ')' && next.flags == st.flags && next.pos <= |src|
    requires ParseAtom(u, src, st) == Ok(Some(atom), next) && NotSkipped(src, st.pos) && NotSkipped(src, next.pos)
    ensures ParseItem(u, src, st) == SomeNode(Quantify(src, atom, next))
  {
    hide ParseAtom, Quantify;
    assert st.(pos := SkipVerbose(src, st.pos, st.flags)) == st;
    assert next.(pos := SkipVerbose(src, next.pos, next.flags)) == next;
  }

  lemma LazyTrip(src: string, node: Node, st: St)
    requires node.Repeat? && st.pos <= |src| && TextAt(src, st.pos, if node.lazy then "?" else "")
    requires Boundary(src, st.pos + if node.lazy then 1 else 0)
    ensures FinishRepeat(src, node.(lazy := false), st) == Ok(node, st.(pos := st.pos + if node.lazy then 1 else 0))
  {
    if node.lazy {
      TextChar(src, st.pos, "?", 0);
    }
  }

  lemma SequenceCons(u: Tables, src: string, st: St, nodes: seq<Node>, next: St, end: St)
    requires st.pos <= |src| && !EndsSequence(src, st.pos) && nodes != []
    requires ParseItem(u, src, st) == Ok(Some(nodes[0]), next)
    requires ParseSequence(u, src, next) == Ok(nodes[1..], end)
    ensures ParseSequence(u, src, st) == Ok(nodes, end)
  {
    hide ParseItem;
    assert nodes == [nodes[0]] + nodes[1..];
  }

  /** The context and the state move together. */
  lemma PastCons(st: St, nodes: seq<Node>)
    requires nodes != []
    ensures CtxOf(Past(st, nodes[0])) == AfterNode(nodes[0], CtxOf(st))
    ensures PastAll(Past(st, nodes[0]), nodes[1..]) == PastAll(st, nodes)
  {
    AfterNodeKeeps(nodes[0], CtxOf(st));
  }

  /** The text of a sequence: the first item, then the rest. */
  lemma SequenceText(src: string, pos: nat, nodes: seq<Node>, c: Ctx)
    requires nodes != [] && WFSequence(nodes, c)
    requires TextAt(src, pos, RenderNodes(nodes)) && EndsSequence(src, pos + |RenderNodes(nodes)|)
    ensures var next := pos + |RenderNode(nodes[0])|;
            && pos < next <= |src| && TextAt(src, pos, RenderNode(nodes[0])) && Boundary(src, next)
            && TextAt(src, next, RenderNodes(nodes[1..])) && EndsSequence(src, next + |RenderNodes(nodes[1..])|)
    ensures !EndsSequence(src, pos)
  {
    hide RenderNode, AfterNode, WFItem;
    var next := pos + |RenderNode(nodes[0])|;
    FirstChar(nodes[0], c);
    TextSplit(src, pos, RenderNode(nodes[0]), RenderNodes(nodes[1..]));
    TextChar(src, pos, RenderNode(nodes[0]), 0);
    NextBoundary(src, next, nodes[1..], AfterNode(nodes[0], c));
  }

  lemma PastReady(u: Tables, src: string, st: St, node: Node)
    requires Ready(u, src, st) && st.pos + |RenderNode(node)| <= |src|
    ensures Ready(u, src, Past(st, node)) && Past(st, node).flags == st.flags
    ensures Past(st, node).pos == st.pos + |RenderNode(node)|
    ensures st.pos <= |src|
  {
    AfterNodeKeeps(node, CtxOf(st));
  }

  lemma PastAllReady(u: Tables, src: string, st: St, nodes: seq<Node>)
    requires Ready(u, src, st) && st.pos + |RenderNodes(nodes)| + 1 <= |src|
    ensures var next := PastAll(st, nodes);
            && next.pos == st.pos + |RenderNodes(nodes)| && next.flags == st.flags
            && Ready(u, src, next.(pos := next.pos + 1)) && CtxOf(next.(pos := next.pos + 1)) == CtxOf(next)
    ensures st.pos <= |src|
  {
    AfterKeeps(nodes, CtxOf(st));
  }

  lemma {:induction false} SequenceTrip(u: Tables, src: string, st: St, nodes: seq<Node>)
    requires Ready(u, src, st) && WFSequence(nodes, CtxOf(st))
    requires TextAt(src, st.pos, RenderNodes(nodes)) && EndsSequence(src, st.pos + |RenderNodes(nodes)|)
    ensures ParseSequence(u, src, st) == Ok(RefitAll(u, st.flags, nodes), PastAll(st, nodes))
    decreases nodes, 3
  {
    hide ParseItem, ParseSequence, RenderNode, RenderNodes, AfterNode, WFItem, WFSequence, Refit, RefitAll, Past,
      PastAll, TextAt, EndsSequence, Boundary, Ready, CtxOf;
    if nodes == [] {
      NoItems(u, src, st);
    } else {
      var head, tail, next := nodes[0], nodes[1..], Past(st, nodes[0]);
      SequenceHead(nodes, CtxOf(st));
      RefitAllCons(u, st.flags, nodes);
      PastCons(st, nodes);
      SequenceText(src, st.pos, nodes, CtxOf(st));
      PastReady(u, src, st, head);
      ItemTrip(u, src, st, head);
      SequenceTrip(u, src, next, tail);
      SequenceCons(u, src, st, RefitAll(u, st.flags, nodes), next, PastAll(st, nodes));
    }
  }

  lemma NoItems(u: Tables, src: string, st: St)
    requires Ready(u, src, st) && EndsSequence(src, st.pos + |RenderNodes([])|)
    ensures ParseSequence(u, src, st) == Ok([], PastAll(st, [])) && RefitAll(u, st.flags, []) == []
  {
  }

  lemma SequenceHead(nodes: seq<Node>, c: Ctx)
    requires nodes != [] && WFSequence(nodes, c)
    ensures WFItem(nodes[0], c) && WFSequence(nodes[1..], AfterNode(nodes[0], c))
  {
    hide WFItem, AfterNode;
  }

  lemma NextBoundary(src: string, pos: nat, tail: seq<Node>, c: Ctx)
    requires WFSequence(tail, c)
    requires TextAt(src, pos, RenderNodes(tail)) && EndsSequence(src, pos + |RenderNodes(tail)|)
    ensures Boundary(src, pos)
  {
    SequenceStart(tail, c);
    if RenderNodes(tail) != "" {
      TextChar(src, pos, RenderNodes(tail), 0);
    }
  }

  lemma BranchesCons(u: Tables, src: string, st: St, branches: seq<Alternative>, next: St, end: St)
    requires branches != [] && st.pos <= |src| && ParseSequence(u, src, st) == Ok(branches[0].nodes, next)
    requires next.pos < |src| && src[next.pos] == '|'
    requires ParseBranches(u, src, next.(pos := next.pos + 1)) == Ok(branches[1..], end)
    ensures ParseBranches(u, src, st) == Ok(branches, end)
  {
    hide ParseSequence;
    assert branches == [Alternative(branches[0].nodes)] + branches[1..];
  }

  lemma LastBranch(u: Tables, src: string, st: St, branches: seq<Alternative>, next: St)
    requires |branches| == 1 && st.pos <= |src| && ParseSequence(u, src, st) == Ok(branches[0].nodes, next)
    requires next.pos < |src| ==> src[next.pos] == ')'
    ensures ParseBranches(u, src, st) == Ok(branches, next)
  {
    hide ParseSequence;
    assert branches == [Alternative(branches[0].nodes)];
  }

  lemma PastBranchesCons(st: St, branches: seq<Alternative>)
    requires |branches| > 1
    ensures var next := PastAll(st, branches[0].nodes);
            && CtxOf(next) == AfterNodes(branches[0].nodes, CtxOf(st))
            && PastBranches(next.(pos := next.pos + 1), branches[1..]) == PastBranches(st, branches)
  {
    AfterKeeps(branches[0].nodes, CtxOf(st));
    var text, rest := RenderNodes(branches[0].nodes), RenderBranches(branches[1..]);
    assert RenderBranches(branches) == text + "|" + rest;
  }

  lemma PastOneBranch(st: St, branches: seq<Alternative>)
    requires |branches| == 1
    ensures PastBranches(st, branches) == PastAll(st, branches[0].nodes)
  {
    AfterKeeps(branches[0].nodes, CtxOf(st));
    var c := AfterNodes(branches[0].nodes, CtxOf(st));
    assert AfterBranches(branches[1..], c) == c;
  }

  lemma BarText(src: string, pos: nat, text: string, rest: string)
    requires TextAt(src, pos, text + "|" + rest)
    ensures TextAt(src, pos, text) && TextAt(src, pos + |text| + 1, rest)
    ensures pos + |text| < |src| && src[pos + |text|] == '|'
  {
    TextSplit(src, pos, text + "|", rest);
    TextSplit(src, pos, text, "|");
    TextChar(src, pos + |text|, "|", 0);
  }

  lemma {:induction false} BranchesTrip(u: Tables, src: string, st: St, branches: seq<Alternative>)
    requires branches != []
    requires Ready(u, src, st) && WFBranches(branches, CtxOf(st))
    requires TextAt(src, st.pos, RenderBranches(branches))
    requires var end := st.pos + |RenderBranches(branches)|; end < |src| ==> src[end] == ')'
    ensures ParseBranches(u, src, st) == Ok(RefitBranches(u, st.flags, branches), PastBranches(st, branches))
    decreases branches, 4
  {
    hide ParseSequence, ParseBranches, RenderNodes, AfterNodes, WFSequence, RefitAll, RefitBranches, PastAll,
      PastBranches, TextAt, Ready, CtxOf;
    var first, rest := branches[0].nodes, branches[1..];
    var next, fit := PastAll(st, first), RefitBranches(u, st.flags, branches);
    RefitBranchesCons(u, st.flags, branches);
    if |branches| == 1 {
      PastOneBranch(st, branches);
      SequenceTrip(u, src, st, first);
      PastAllPos(st, first);
      LastBranch(u, src, st, fit, next);
    } else {
      PastBranchesCons(st, branches);
      BarText(src, st.pos, RenderNodes(first), RenderBranches(rest));
      PastAllReady(u, src, st, first);
      SequenceTrip(u, src, st, first);
      BranchesTrip(u, src, next.(pos := next.pos + 1), rest);
      BranchesCons(u, src, st, fit, next, PastBranches(st, branches));
    }
  }

  lemma PastAllPos(st: St, nodes: seq<Node>)
    ensures PastAll(st, nodes).pos == st.pos + |RenderNodes(nodes)|
  {
  }

  lemma OneNodeText(node: Node)
    ensures RenderNodes([node]) == RenderNode(node)
  {
    assert [node][1..] == [];
    assert RenderNodes([node]) == RenderNode([node][0]) + RenderNodes([node][1..]);
  }

  lemma SingleSequence(u: Tables, src: string, st: St, nodes: seq<Node>, end: St)
    requires st.pos <= |src| && ParseSequence(u, src, st) == Ok(nodes, end)
    requires end.pos < |src| ==> src[end.pos] == ')'
    ensures ParseAlternations(u, src, st) == Ok(nodes, end)
  {
    hide ParseSequence;
    assert ParseBranches(u, src, st) == Ok([Alternative(nodes)], end);
  }

  lemma SeveralBranches(u: Tables, src: string, st: St, branches: seq<Alternative>, end: St)
    requires st.pos <= |src| && ParseBranches(u, src, st) == Ok(branches, end) && |branches| >= 2
    ensures ParseAlternations(u, src, st) == Ok([Branch(branches)], end)
  {
    hide ParseBranches;
  }

  lemma {:induction false} AlternationsTrip(u: Tables, src: string, st: St, nodes: seq<Node>)
    requires Ready(u, src, st) && WFBody(nodes, CtxOf(st))
    requires TextAt(src, st.pos, RenderNodes(nodes))
    requires var end := st.pos + |RenderNodes(nodes)|; end < |src| ==> src[end] == ')'
    ensures ParseAlternations(u, src, st) == Ok(RefitAll(u, st.flags, nodes), PastAll(st, nodes))
    decreases nodes, 5
  {
    hide ParseAlternations, ParseBranches, ParseSequence, RenderNodes, WFSequence, TextAt, AfterNodes, RefitAll,
      RefitBranches;
    if |nodes| == 1 && nodes[0].Branch? {
      var branches := nodes[0].branches;
      assert nodes == [nodes[0]];
      OneNode(nodes[0], CtxOf(st));
      OneNodeText(nodes[0]);
      OneFixed(u, st.flags, nodes);
      BranchesTrip(u, src, st, branches);
      SeveralBranches(u, src, st, RefitBranches(u, st.flags, branches), PastBranches(st, branches));
    } else {
      SequenceTrip(u, src, st, nodes);
      SingleSequence(u, src, st, RefitAll(u, st.flags, nodes), PastAll(st, nodes));
    }
  }

  /** Under any flags, parsing the canonical text of a well-formed tree succeeds and returns the tree with
      the character sets of those flags; the very tree exactly when it has those sets already: its
      characters, dots and categories are those of the flags, and under ignore-case its classes are closed
      under the case variants that the parser looks up. */
  lemma RoundTrip(u: Tables, flags: Flags, tree: seq<Node>)
    requires Sane(u) && WellFormed(tree)
    ensures var r := ParsePattern(u, RenderNodes(tree), flags);
            && r.Ok? && r.value == RefitAll(u, flags, tree) && CtxOf(r.st) == AfterNodes(tree, Start())
            && (r.value == tree <==> AllFaithful(u, flags, tree) && AllCaseClosed(u, flags, tree))
  {
    hide RenderNodes, ParseAlternations, RefitAll, AllFaithful, AllCaseClosed, WFBody;
    WholeText(RenderNodes(tree));
    AlternationsTrip(u, RenderNodes(tree), Initial(flags), tree);
    AfterKeeps(tree, Start());
    BodyFixed(u, flags, tree, Start());
  }

  lemma WholeText(text: string)
    ensures TextAt(text, 0, text)
  {
  }

  /** Under ignore-case a class that lists one case only comes back with both. */
  lemma ClassGainsCase(u: Tables, flags: Flags)
    requires Sane(u) && flags.ignoreCase && u.upper('a' as int) == 'A' as int
    ensures var tree := [In(Single('a' as int), None)];
            && WellFormed(tree)
            && ParsePattern(u, RenderNodes(tree), flags).Ok?
            && ParsePattern(u, RenderNodes(tree), flags).value != tree
  {
    hide ParsePattern, RenderNodes, RefitAll;
    var a := 'a' as int;
    var tree := [In(Single(a), None)];
    SingleCanonical(a);
    assert tree[1..] == [] && WFItem(tree[0], Start());
    assert WFSequence(tree[1..], AfterNode(tree[0], Start())) && WFSequence(tree, Start());
    RoundTrip(u, flags, tree);
    assert Scanned(a, Single(a)[0]) && !Member(u.upper(a), Single(a));
    assert !CaseClosed(u, flags, tree[0]);
  }
}
