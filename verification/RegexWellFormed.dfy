/** What holds of every tree the parser returns (guardcore/redos_parser.go,
    guardcore/redos_escape.go): `WellFormed` is proved of every successful parse, and the
    lemmas after it read it off the preorder listing of the tree. */
module RegexWellFormed {
  import opened Intervals
  import opened RegexSyntax
  import opened RegexGrammar
  import opened Texts

  /** What the parser knows about groups at one point of the pattern. */
  datatype Ctx = Ctx(groups: nat, open: set<nat>, names: map<string, nat>, nesting: nat)

  function CtxOf(st: St): Ctx {
    Ctx(st.groups, st.open, st.names, st.nesting)
  }

  function Start(): Ctx { Ctx(1, {}, map[], 0) }

  /** The context inside the parentheses of a group. */
  function Inside(node: Node, c: Ctx): Ctx
    requires node.SubPattern? || node.Assert?
  {
    if node.SubPattern? && node.groupIdx > 0 then
      Ctx(c.groups + 1, c.open + {c.groups},
          if node.groupName == "" then c.names else c.names[node.groupName := c.groups], c.nesting + 1)
    else c.(nesting := c.nesting + 1)
  }

  /** The context after a node: groups opened in it are counted, none is left open. */
  function AfterNode(node: Node, c: Ctx): Ctx
    decreases node, 0
  {
    match node
    case Repeat(_, _, _, body) => AfterNodes(body, c)
    case Branch(branches) => AfterBranches(branches, c)
    case SubPattern(_, _, body) =>
      var inner := AfterNodes(body, Inside(node, c));
      c.(groups := inner.groups, names := inner.names)
    case Assert(_, _, body) =>
      var inner := AfterNodes(body, Inside(node, c));
      c.(groups := inner.groups, names := inner.names)
    case _ => c
  }

  function AfterNodes(nodes: seq<Node>, c: Ctx): Ctx
    decreases nodes, 1
  {
    if nodes == [] then c else AfterNodes(nodes[1..], AfterNode(nodes[0], c))
  }

  function AfterBranches(branches: seq<Alternative>, c: Ctx): Ctx
    decreases branches, 2
  {
    if branches == [] then c else AfterBranches(branches[1..], AfterNodes(branches[0].nodes, c))
  }

  /** Never negated or repeated, so one atom of a sequence. */
  ghost predicate WFAtom(node: Node, c: Ctx)
    decreases node, 0
  {
    match node
    case Literal(ch, members) => IsCodePoint(ch) && Canonical(members)
    case Any(members) => Canonical(members)
    case In(members, _) => Canonical(members)
    case Repeat(_, _, _, _) => false
    case Branch(_) => false
    case SubPattern(idx, name, body) =>
      && c.nesting < MAX_GROUP_NESTING_DEPTH
      && (idx == 0 ==> name == "")
      && (idx > 0 ==> idx == c.groups && (name == "" || (ValidName(name) && name !in c.names)))
      && WFBody(body, Inside(node, c))
    case Assert(_, _, body) => c.nesting < MAX_GROUP_NESTING_DEPTH && WFBody(body, Inside(node, c))
    case At(_) => true
    case GroupRef(ref, name) =>
      if name == "" then 1 <= ref < c.groups && ref <= 99 && ref !in c.open
      else ValidName(name) && name in c.names && c.names[name] == ref
  }

  ghost predicate WFItem(node: Node, c: Ctx)
    decreases node, 1
  {
    if node.Repeat? then
      node.min <= node.max <= MAX_REPEAT && |node.body| == 1 && !node.body[0].At? && WFAtom(node.body[0], c)
    else WFAtom(node, c)
  }

  ghost predicate WFSequence(nodes: seq<Node>, c: Ctx)
    decreases nodes, 2
  {
    nodes == [] || (WFItem(nodes[0], c) && WFSequence(nodes[1..], AfterNode(nodes[0], c)))
  }

  ghost predicate WFBranches(branches: seq<Alternative>, c: Ctx)
    decreases branches, 3
  {
    branches == [] || (WFSequence(branches[0].nodes, c) && WFBranches(branches[1..], AfterNodes(branches[0].nodes, c)))
  }

  /** A sequence, or one node that lists at least two alternatives. */
  ghost predicate WFBody(nodes: seq<Node>, c: Ctx)
    decreases nodes, 3
  {
    if |nodes| == 1 && nodes[0].Branch? then |nodes[0].branches| >= 2 && WFBranches(nodes[0].branches, c)
    else WFSequence(nodes, c)
  }

  ghost predicate WellFormed(tree: seq<Node>) {
    WFBody(tree, Start())
  }

  // ---------------------------------------------------------------- every parse is well formed

  ghost predicate NodeOk(st: St, r: Parsed<Node>) {
    r.Ok? ==> WFAtom(r.value, CtxOf(st)) && CtxOf(r.st) == AfterNode(r.value, CtxOf(st))
  }

  ghost predicate OptionOk(st: St, r: Parsed<Option<Node>>) {
    r.Ok? ==> if r.value.None? then CtxOf(r.st) == CtxOf(st)
              else WFAtom(r.value.value, CtxOf(st)) && CtxOf(r.st) == AfterNode(r.value.value, CtxOf(st))
  }

  ghost predicate ItemOk(st: St, r: Parsed<Option<Node>>) {
    r.Ok? ==> if r.value.None? then CtxOf(r.st) == CtxOf(st)
              else WFItem(r.value.value, CtxOf(st)) && CtxOf(r.st) == AfterNode(r.value.value, CtxOf(st))
  }

  lemma DecimalEscapeOk(u: Tables, src: string, st: St)
    requires st.pos + 1 < |src| && IsDigit(src[st.pos + 1])
    ensures NodeOk(st, DecimalEscape(u, src, st))
  {
    hide LiteralFrom, OctalChar, OctalEnd, DecimalValue, Canonical;
    var p := st.pos + 1;
    if src[p] == '0' {
      var end := OctalEnd(src, p + 1, 2);
      LiteralFromOk(u, st, OctalChar(src[p..end], end, st.pos));
    } else {
      DigitsBound(src[p..p + 1]);
      if p + 1 < |src| && IsDigit(src[p + 1]) {
        DigitsBound(src[p..p + 2]);
        if p + 2 < |src| {
          LiteralFromOk(u, st, OctalChar(src[p..p + 3], p + 3, st.pos));
        }
      }
    }
  }

  lemma LiteralFromOk(u: Tables, st: St, read: CharRead)
    requires read.CharAt? ==> read.ch <= MAX_CODE_POINT
    ensures NodeOk(st, LiteralFrom(u, st, read))
  {
    if read.CharAt? {
      MembersCanonical(u, Digit, read.ch, [], st.flags);
    }
  }

  lemma EscapeOk(u: Tables, src: string, st: St)
    requires Sane(u) && st.pos < |src| && src[st.pos] == '\\'
    ensures NodeOk(st, ParseEscape(u, src, st))
  {
    var p := st.pos + 1;
    if p < |src| {
      var c := src[p];
      if EscapeCategory(c).Some? {
        MembersCanonical(u, EscapeCategory(c).value, 0, [], st.flags);
      } else if AnchorEscape(c).Some? {
      } else if IsDigit(c) {
        DecimalEscapeOk(u, src, st);
      } else if HexWidth(c) > 0 {
        LiteralFromOk(u, st, ReadHex(src, p + 1, HexWidth(c), st.pos));
      } else if SimpleEscape(c).Some? {
        MembersCanonical(u, Digit, SimpleEscape(c).value, [], st.flags);
      } else {
        MembersCanonical(u, Digit, c as int, [], st.flags);
      }
    }
  }

  /** One or two digits that do not start with zero. */
  lemma DigitsBound(s: string)
    ensures 1 <= |s| <= 2 && AllDigits(s) && s[0] != '0' ==> 1 <= DecimalValue(s) <= 99
  {
    if |s| == 1 {
      assert s[..0] == "" && DecimalValue(s) == DecimalValue(s[..0]) * 10 + DigitValue(s[0]);
    } else if |s| == 2 {
      assert s[..1][..0] == "";
      assert DecimalValue(s[..1]) == DecimalValue(s[..1][..0]) * 10 + DigitValue(s[0]);
    }
  }

  lemma ClassItemCanonical(u: Tables, src: string, pos: nat, flags: Flags, start: nat)
    requires Sane(u) && pos < |src|
    ensures var r := ReadClassItem(u, src, pos, flags, start); r.ClassMembers? ==> Canonical(r.members)
  {
    match ReadClassAtom(u, src, pos, flags)
    case ClassErr(_, _) =>
    case ClassSet(_, _) =>
      MembersCanonical(u, EscapeCategory(src[pos + 1]).value, 0, [], flags);
    case ClassChar(low, next) =>
      ClassCharIsCodePoint(u, src, pos, flags);
      MembersCanonical(u, Digit, low, [], flags);
      if next + 1 < |src| && src[next] == '-' && src[next + 1] != ']' {
        var upper := ReadClassAtom(u, src, next + 1, flags);
        if upper.ClassChar? {
          RangeSpec(low, upper.ch);
          MembersCanonical(u, Digit, low, Range(low, upper.ch), flags);
        }
      }
  }

  lemma ClassCharIsCodePoint(u: Tables, src: string, pos: nat, flags: Flags)
    requires pos < |src|
    ensures var a := ReadClassAtom(u, src, pos, flags); a.ClassChar? ==> IsCodePoint(a.ch)
  {
  }

  lemma {:induction false} ClassItemsCanonical(
    u: Tables, src: string, pos: nat, flags: Flags, members: IntervalSet, first: bool, start: nat)
    requires Sane(u) && pos <= |src| && Canonical(members)
    ensures var r := ReadClassItems(u, src, pos, flags, members, first, start);
            r.ClassMembers? ==> Canonical(r.members)
    decreases |src| - pos
  {
    if pos < |src| && !(src[pos] == ']' && !first) {
      var item := ReadClassItem(u, src, pos, flags, start);
      if item.ClassMembers? {
        ClassItemCanonical(u, src, pos, flags, start);
        UnionSpec(members, item.members);
        ClassItemsCanonical(u, src, item.next, flags, Union(members, item.members), false, start);
      }
    }
  }

  lemma ClassOk(u: Tables, src: string, st: St)
    requires Sane(u) && st.pos < |src| && src[st.pos] == '['
    ensures NodeOk(st, ParseClass(u, src, st))
  {
    hide ReadClassItems, Canonical, Complement;
    var p := st.pos + 1;
    var negated := p < |src| && src[p] == '^';
    ClassItemsCanonical(u, src, if negated then p + 1 else p, st.flags, [], true, st.pos);
    var read := ReadClassItems(u, src, if negated then p + 1 else p, st.flags, [], true, st.pos);
    if read.ClassMembers? {
      ComplementSpec(read.members);
    }
  }

  lemma {:induction false} BodyOk(u: Tables, src: string, st: St, open: nat)
    requires Sane(u) && st.pos <= |src| && Counted(st)
    ensures var r := ParseGroupBody(u, src, st, open);
            r.Ok? ==> CtxOf(r.st).open == st.open && st.nesting < MAX_GROUP_NESTING_DEPTH
                      && WFBody(r.value, CtxOf(st).(nesting := st.nesting + 1))
                      && CtxOf(r.st).(nesting := st.nesting + 1)
                         == AfterNodes(r.value, CtxOf(st).(nesting := st.nesting + 1))
    decreases |src| - st.pos, 7
  {
    if st.nesting < MAX_GROUP_NESTING_DEPTH {
      var inner := st.(nesting := st.nesting + 1);
      AlternationsOk(u, src, inner);
      var body := ParseAlternations(u, src, inner);
      if body.Ok? {
        AfterKeeps(body.value, CtxOf(inner));
      }
    }
  }

  lemma {:induction false} PlainOk(u: Tables, src: string, st: St, open: nat)
    requires Sane(u) && st.pos <= |src| && Counted(st)
    ensures OptionOk(st, PlainGroup(u, src, st, open))
    decreases |src| - st.pos, 8
  {
    BodyOk(u, src, st, open);
  }

  lemma {:induction false} LookaroundOk(u: Tables, src: string, st: St, behind: bool, negative: bool, open: nat)
    requires Sane(u) && st.pos <= |src| && Counted(st)
    ensures OptionOk(st, Lookaround(u, src, st, behind, negative, open))
    decreases |src| - st.pos, 8
  {
    BodyOk(u, src, st, open);
  }

  lemma {:induction false} CaptureOk(u: Tables, src: string, st: St, name: string, open: nat)
    requires Sane(u) && st.pos <= |src| && Counted(st)
    requires name == "" || (ValidName(name) && name !in st.names)
    ensures OptionOk(st, CaptureGroup(u, src, st, name, open))
    decreases |src| - st.pos, 8
  {
    BodyOk(u, src, OpenGroup(st, name), open);
    var body := ParseGroupBody(u, src, OpenGroup(st, name), open);
    if body.Ok? {
      var node := SubPattern(st.groups, name, body.value);
      assert Inside(node, CtxOf(st)) == CtxOf(OpenGroup(st, name)).(nesting := st.nesting + 1);
      AfterKeeps(body.value, Inside(node, CtxOf(st)));
      assert st.open + {st.groups} - {st.groups} == st.open;
    }
  }

  /** Open groups and nesting are as before once a node has been read. */
  lemma {:induction false} AfterKeeps(nodes: seq<Node>, c: Ctx)
    ensures AfterNodes(nodes, c).open == c.open && AfterNodes(nodes, c).nesting == c.nesting
    ensures c.groups <= AfterNodes(nodes, c).groups
    decreases nodes, 1
  {
    if nodes != [] {
      AfterNodeKeeps(nodes[0], c);
      AfterKeeps(nodes[1..], AfterNode(nodes[0], c));
    }
  }

  lemma {:induction false} AfterNodeKeeps(node: Node, c: Ctx)
    ensures AfterNode(node, c).open == c.open && AfterNode(node, c).nesting == c.nesting
    ensures c.groups <= AfterNode(node, c).groups
    decreases node, 0
  {
    match node
    case Repeat(_, _, _, body) => AfterKeeps(body, c);
    case Branch(branches) => AfterBranchesKeeps(branches, c);
    case SubPattern(_, _, body) => AfterKeeps(body, Inside(node, c));
    case Assert(_, _, body) => AfterKeeps(body, Inside(node, c));
    case _ =>
  }

  lemma {:induction false} AfterBranchesKeeps(branches: seq<Alternative>, c: Ctx)
    ensures AfterBranches(branches, c).open == c.open && AfterBranches(branches, c).nesting == c.nesting
    ensures c.groups <= AfterBranches(branches, c).groups
    decreases branches, 2
  {
    if branches != [] {
      AfterKeeps(branches[0].nodes, c);
      AfterBranchesKeeps(branches[1..], AfterNodes(branches[0].nodes, c));
    }
  }

  /** Every open group has been counted. */
  ghost predicate Counted(st: St) {
    st.groups >= 1 && forall g :: g in st.open ==> g < st.groups
  }

  lemma {:induction false} GroupOk(u: Tables, src: string, st: St)
    requires Sane(u) && st.pos < |src| && src[st.pos] == '(' && Counted(st)
    ensures OptionOk(st, ParseGroup(u, src, st))
    decreases |src| - st.pos, 2
  {
    var p := st.pos + 1;
    if p < |src| {
      if src[p] != '?' {
        CaptureOk(u, src, st.(pos := p), "", st.pos);
      } else {
        ExtensionOk(u, src, st.(pos := p + 1), st.pos);
      }
    }
  }

  lemma {:induction false} ExtensionOk(u: Tables, src: string, st: St, open: nat)
    requires Sane(u) && st.pos <= |src| && Counted(st)
    ensures OptionOk(st, Extension(u, src, st, open))
    decreases |src| - st.pos, 11
  {
    if st.pos < |src| {
      var p := st.pos + 1;
      match src[st.pos] {
        case 'P' => PythonOk(u, src, st.(pos := p), open);
        case '<' =>
          if p < |src| {
            LookaroundOk(u, src, st.(pos := p + 1), true, src[p] == '!', open);
          }
        case '=' => LookaroundOk(u, src, st.(pos := p), false, false, open);
        case '!' => LookaroundOk(u, src, st.(pos := p), false, true, open);
        case ':' => PlainOk(u, src, st.(pos := p), open);
        case '#' =>
        case '>' =>
        case '(' =>
        case _ => InlineFlagsOk(u, src, st, open);
      }
    }
  }

  lemma {:induction false} InlineFlagsOk(u: Tables, src: string, st: St, open: nat)
    requires Sane(u) && st.pos <= |src| && Counted(st)
    ensures OptionOk(st, InlineFlags(u, src, st, open))
    decreases |src| - st.pos, 9
  {
    var run := ReadFlags(src, st.pos, NO_FLAGS, NO_FLAGS, false, open);
    if run.ScopedFlags? {
      PlainOk(u, src, st.(pos := run.next, flags := ApplyFlags(st.flags, run.add, run.remove)), open);
    }
  }

  lemma {:induction false} PythonOk(u: Tables, src: string, st: St, open: nat)
    requires Sane(u) && st.pos <= |src| && Counted(st)
    ensures OptionOk(st, PythonExtension(u, src, st, open))
    decreases |src| - st.pos, 10
  {
    if st.pos < |src| && src[st.pos] == '<' {
      var end := TokenEnd(src, st.pos + 1, '>');
      var name := src[st.pos + 1..end];
      if ValidName(name) && end < |src| && name !in st.names {
        CaptureOk(u, src, st.(pos := end + 1), name, open);
      }
    }
  }

  lemma {:induction false} AtomOk(u: Tables, src: string, st: St)
    requires Sane(u) && st.pos < |src| && Counted(st)
    ensures OptionOk(st, ParseAtom(u, src, st))
    decreases |src| - st.pos, 3
  {
    var c := src[st.pos];
    MembersCanonical(u, Digit, c as int, [], st.flags);
    if c == '[' {
      ClassOk(u, src, st);
    } else if c == '(' {
      GroupOk(u, src, st);
    } else if c == '\\' {
      EscapeOk(u, src, st);
    }
  }

  lemma {:induction false} ParsedItemOk(u: Tables, src: string, st: St)
    requires Sane(u) && st.pos < |src| && src[st.pos] != ')' && Counted(st)
    ensures ItemOk(st, ParseItem(u, src, st))
    decreases |src| - st.pos, 4
  {
    var p := SkipVerbose(src, st.pos, st.flags);
    if p < |src| {
      AtomOk(u, src, st.(pos := p));
      var read := ParseAtom(u, src, st.(pos := p));
      if read.Ok? && read.value.Some? {
        QuantifyOk(src, read.value.value, CtxOf(st), read.st.(pos := SkipVerbose(src, read.st.pos, read.st.flags)));
      }
    }
  }

  lemma QuantifyOk(src: string, atom: Node, c: Ctx, st: St)
    requires st.pos <= |src| && WFAtom(atom, c) && CtxOf(st) == AfterNode(atom, c)
    ensures var r := Quantify(src, atom, st);
            r.Ok? ==> WFItem(r.value, c) && CtxOf(r.st) == AfterNode(r.value, c)
  {
    if st.pos < |src| {
      QuantifierBounds(src, st.pos);
      var r := Quantify(src, atom, st);
      if r.Ok? && r.value != atom {
        assert AfterNodes([atom], c) == AfterNodes([], AfterNode(atom, c));
      }
    }
  }

  lemma {:induction false} SequenceOk(u: Tables, src: string, st: St)
    requires Sane(u) && st.pos <= |src| && Counted(st)
    ensures var r := ParseSequence(u, src, st);
            r.Ok? ==> WFSequence(r.value, CtxOf(st)) && CtxOf(r.st) == AfterNodes(r.value, CtxOf(st))
    decreases |src| - st.pos, 5
  {
    if !EndsSequence(src, st.pos) {
      ParsedItemOk(u, src, st);
      var item := ParseItem(u, src, st);
      if item.Ok? {
        if item.value.Some? {
          AfterNodeKeeps(item.value.value, CtxOf(st));
        }
        SequenceOk(u, src, item.st);
        var rest := ParseSequence(u, src, item.st);
        if rest.Ok? {
          var nodes := Listed(item.value) + rest.value;
          if item.value.Some? {
            assert nodes[0] == item.value.value && nodes[1..] == rest.value;
          } else {
            assert nodes == rest.value;
          }
        }
      }
    }
  }

  lemma {:induction false} BranchesOk(u: Tables, src: string, st: St)
    requires Sane(u) && st.pos <= |src| && Counted(st)
    ensures var r := ParseBranches(u, src, st);
            r.Ok? ==> WFBranches(r.value, CtxOf(st)) && CtxOf(r.st) == AfterBranches(r.value, CtxOf(st))
    decreases |src| - st.pos, 6, 0
  {
    SequenceOk(u, src, st);
    var first := ParseSequence(u, src, st);
    if first.Ok? {
      AfterKeeps(first.value, CtxOf(st));
      if first.st.pos < |src| && src[first.st.pos] == '|' {
        var next := first.st.(pos := first.st.pos + 1);
        BranchesOk(u, src, next);
        var rest := ParseBranches(u, src, next);
        if rest.Ok? {
          assert ([Alternative(first.value)] + rest.value)[1..] == rest.value;
        }
      } else {
        assert [Alternative(first.value)][1..] == [];
      }
    }
  }

  lemma {:induction false} AlternationsOk(u: Tables, src: string, st: St)
    requires Sane(u) && st.pos <= |src| && Counted(st)
    ensures var r := ParseAlternations(u, src, st);
            r.Ok? ==> WFBody(r.value, CtxOf(st)) && CtxOf(r.st) == AfterNodes(r.value, CtxOf(st))
    decreases |src| - st.pos, 6, 1
  {
    BranchesOk(u, src, st);
    var r := ParseBranches(u, src, st);
    if r.Ok? {
      if |r.value| == 1 {
        OneBranch(r.value, CtxOf(st));
      } else {
        assert AfterNodes([Branch(r.value)], CtxOf(st)) == AfterNodes([], AfterNode(Branch(r.value), CtxOf(st)));
      }
    }
  }

  lemma NotBranch(nodes: seq<Node>, c: Ctx)
    requires WFSequence(nodes, c)
    ensures nodes != [] ==> !nodes[0].Branch?
  {
    if nodes != [] {
      assert WFItem(nodes[0], c);
      assert nodes[0].Branch? ==> !WFAtom(nodes[0], c);
    }
  }

  lemma OneBranch(branches: seq<Alternative>, c: Ctx)
    requires |branches| == 1 && WFBranches(branches, c)
    ensures WFBody(branches[0].nodes, c) && AfterBranches(branches, c) == AfterNodes(branches[0].nodes, c)
  {
    assert AfterBranches(branches[1..], AfterNodes(branches[0].nodes, c)) == AfterNodes(branches[0].nodes, c);
    NotBranch(branches[0].nodes, c);
  }

  /** Every tree the parser returns is well formed, and the parser's own group counter and
      name table are those of the tree. */
  lemma ParseWellFormed(u: Tables, pattern: string, flags: Flags)
    requires Sane(u)
    ensures var r := ParsePattern(u, pattern, flags);
            r.Ok? ==> WellFormed(r.value) && CtxOf(r.st) == AfterNodes(r.value, Start())
  {
    AlternationsOk(u, pattern, Initial(flags));
  }

  // ---------------------------------------------------------------- read off the preorder listing

  /** The node and everything below it, in the order the parser met it. */
  function FlattenNode(node: Node): seq<Node>
    decreases node, 0
  {
    [node] + match node
             case Repeat(_, _, _, body) => Flatten(body)
             case Branch(branches) => FlattenBranches(branches)
             case SubPattern(_, _, body) => Flatten(body)
             case Assert(_, _, body) => Flatten(body)
             case _ => []
  }

  function Flatten(nodes: seq<Node>): seq<Node>
    decreases nodes, 1
  {
    if nodes == [] then [] else FlattenNode(nodes[0]) + Flatten(nodes[1..])
  }

  function FlattenBranches(branches: seq<Alternative>): seq<Node>
    decreases branches, 2
  {
    if branches == [] then [] else Flatten(branches[0].nodes) + FlattenBranches(branches[1..])
  }

  /** The indices of the capturing groups of a listing, in its order. */
  function Captures(listing: seq<Node>): seq<nat> {
    if listing == [] then []
    else
      (if listing[0].SubPattern? && listing[0].groupIdx > 0 then [listing[0].groupIdx] else [])
      + Captures(listing[1..])
  }

  function UpTo(low: nat, high: nat): seq<nat>
    requires low <= high
  {
    seq(high - low, i => low + i)
  }

  lemma {:induction false} CapturesConcat(s: seq<Node>, t: seq<Node>)
    ensures Captures(s + t) == Captures(s) + Captures(t)
  {
    if s == [] {
      assert s + t == t;
    } else {
      assert (s + t)[1..] == s[1..] + t;
      CapturesConcat(s[1..], t);
    }
  }

  lemma UpToConcat(a: nat, b: nat, c: nat)
    requires a <= b <= c
    ensures UpTo(a, b) + UpTo(b, c) == UpTo(a, c)
  {
  }

  lemma {:induction false} NodeCaptures(node: Node, c: Ctx)
    requires WFItem(node, c)
    ensures c.groups <= AfterNode(node, c).groups
    ensures Captures(FlattenNode(node)) == UpTo(c.groups, AfterNode(node, c).groups)
    decreases node, 1
  {
    AfterNodeKeeps(node, c);
    match node {
      case Repeat(_, _, _, body) =>
        assert body == [body[0]];
        NodeCaptures(body[0], c);
        CapturesConcat([node], Flatten(body));
        OneNode(body[0], c);
      case SubPattern(idx, _, body) =>
        BodyCaptures(body, Inside(node, c));
        CapturesConcat([node], Flatten(body));
        assert Captures([node]) == (if idx > 0 then [idx] else []) + Captures([node][1..]);
        AfterKeeps(body, Inside(node, c));
        if idx > 0 {
          UpToConcat(c.groups, c.groups + 1, AfterNode(node, c).groups);
          assert UpTo(c.groups, c.groups + 1) == [c.groups];
        }
      case Assert(_, _, body) =>
        BodyCaptures(body, Inside(node, c));
        CapturesConcat([node], Flatten(body));
        assert Captures([node]) == [] + Captures([node][1..]);
      case Branch(_) =>
      case _ =>
        assert FlattenNode(node) == [node];
        assert Captures([node]) == [] + Captures([node][1..]);
    }
  }

  lemma OneNode(node: Node, c: Ctx)
    ensures AfterNodes([node], c) == AfterNode(node, c)
    ensures Flatten([node]) == FlattenNode(node)
  {
    assert AfterNodes([node], c) == AfterNodes([node][1..], AfterNode(node, c));
    assert Flatten([node]) == FlattenNode(node) + Flatten([node][1..]);
  }

  lemma {:induction false} SequenceCaptures(nodes: seq<Node>, c: Ctx)
    requires WFSequence(nodes, c)
    ensures c.groups <= AfterNodes(nodes, c).groups
    ensures Captures(Flatten(nodes)) == UpTo(c.groups, AfterNodes(nodes, c).groups)
    decreases nodes, 2
  {
    if nodes != [] {
      var next := AfterNode(nodes[0], c);
      NodeCaptures(nodes[0], c);
      SequenceCaptures(nodes[1..], next);
      CapturesConcat(FlattenNode(nodes[0]), Flatten(nodes[1..]));
      UpToConcat(c.groups, next.groups, AfterNodes(nodes, c).groups);
    }
  }

  lemma {:induction false} BranchesCaptures(branches: seq<Alternative>, c: Ctx)
    requires WFBranches(branches, c)
    ensures c.groups <= AfterBranches(branches, c).groups
    ensures Captures(FlattenBranches(branches)) == UpTo(c.groups, AfterBranches(branches, c).groups)
    decreases branches, 3
  {
    if branches != [] {
      var next := AfterNodes(branches[0].nodes, c);
      SequenceCaptures(branches[0].nodes, c);
      BranchesCaptures(branches[1..], next);
      CapturesConcat(Flatten(branches[0].nodes), FlattenBranches(branches[1..]));
      UpToConcat(c.groups, next.groups, AfterBranches(branches, c).groups);
    }
  }

  lemma {:induction false} BodyCaptures(nodes: seq<Node>, c: Ctx)
    requires WFBody(nodes, c)
    ensures c.groups <= AfterNodes(nodes, c).groups
    ensures Captures(Flatten(nodes)) == UpTo(c.groups, AfterNodes(nodes, c).groups)
    decreases nodes, 3
  {
    if |nodes| == 1 && nodes[0].Branch? {
      BranchesCaptures(nodes[0].branches, c);
      assert nodes == [nodes[0]];
      OneNode(nodes[0], c);
      CapturesConcat([nodes[0]], FlattenBranches(nodes[0].branches));
      assert Captures([nodes[0]]) == [] + Captures([nodes[0]][1..]);
    } else {
      SequenceCaptures(nodes, c);
    }
  }

  /** A preorder walk of a parsed pattern meets the capturing groups 1, 2, 3, ... in order,
      up to the parser's own counter. */
  lemma CapturesNumberedInOrder(u: Tables, pattern: string, flags: Flags)
    requires Sane(u)
    ensures var r := ParsePattern(u, pattern, flags);
            r.Ok? ==> r.st.groups >= 1 && Captures(Flatten(r.value)) == UpTo(1, r.st.groups)
  {
    ParseWellFormed(u, pattern, flags);
    var r := ParsePattern(u, pattern, flags);
    if r.Ok? {
      BodyCaptures(r.value, Start());
    }
  }

  /** Group `g` was opened in `before`, and its closing parenthesis lies in `before` too. */
  ghost predicate Closed(before: seq<Node>, g: nat) {
    exists j :: 0 <= j < |before| && before[j].SubPattern? && before[j].groupIdx == g
                && j + |FlattenNode(before[j])| <= |before|
  }

  /** What a node met after `before` may be. */
  ghost predicate EntryOk(before: seq<Node>, node: Node) {
    && (node.Repeat? ==> && node.min <= node.max <= MAX_REPEAT
                         && |node.body| == 1 && !node.body[0].At? && !node.body[0].Repeat?)
    && (node.GroupRef? && node.refName == "" ==> Closed(before, node.refIdx))
  }

  ghost predicate ListingOk(before: seq<Node>, listing: seq<Node>) {
    forall k :: 0 <= k < |listing| ==> EntryOk(before + listing[..k], listing[k])
  }

  ghost predicate AllClosed(before: seq<Node>, c: Ctx) {
    forall g :: 1 <= g < c.groups && g !in c.open ==> Closed(before, g)
  }

  lemma ClosedStays(before: seq<Node>, more: seq<Node>, g: nat)
    requires Closed(before, g)
    ensures Closed(before + more, g)
  {
    var j :| 0 <= j < |before| && before[j].SubPattern? && before[j].groupIdx == g
             && j + |FlattenNode(before[j])| <= |before|;
    assert (before + more)[j] == before[j];
  }

  lemma ListingConcat(before: seq<Node>, s: seq<Node>, t: seq<Node>)
    requires ListingOk(before, s) && ListingOk(before + s, t)
    ensures ListingOk(before, s + t)
  {
    forall k | 0 <= k < |s + t| ensures EntryOk(before + (s + t)[..k], (s + t)[k]) {
      if k < |s| {
        assert (s + t)[..k] == s[..k];
      } else {
        assert before + (s + t)[..k] == before + s + t[..k - |s|];
      }
    }
  }

  lemma ListingOne(before: seq<Node>, node: Node)
    requires EntryOk(before, node)
    ensures ListingOk(before, [node])
  {
    assert before + [node][..0] == before;
  }

  lemma AllClosedStays(before: seq<Node>, more: seq<Node>, c: Ctx)
    requires AllClosed(before, c)
    ensures AllClosed(before + more, c)
  {
    forall g | 1 <= g < c.groups && g !in c.open ensures Closed(before + more, g) {
      ClosedStays(before, more, g);
    }
  }

  /** From the body of a group to the group. */
  lemma GroupListing(node: Node, c: Ctx, before: seq<Node>)
    requires node.SubPattern? || node.Assert?
    requires node.SubPattern? && node.groupIdx > 0 ==> node.groupIdx == c.groups
    requires ListingOk(before + [node], Flatten(node.body))
    requires AllClosed(before + [node] + Flatten(node.body), AfterNodes(node.body, Inside(node, c)))
    ensures ListingOk(before, FlattenNode(node))
    ensures AllClosed(before + FlattenNode(node), AfterNode(node, c))
  {
    ListingOne(before, node);
    ListingConcat(before, [node], Flatten(node.body));
    AfterKeeps(node.body, Inside(node, c));
    var after := before + FlattenNode(node);
    assert before + [node] + Flatten(node.body) == after;
    assert after[|before|] == node;
  }

  lemma {:induction false} NodeListing(node: Node, c: Ctx, before: seq<Node>)
    requires WFItem(node, c) && AllClosed(before, c)
    ensures ListingOk(before, FlattenNode(node))
    ensures AllClosed(before + FlattenNode(node), AfterNode(node, c))
    decreases node, 1
  {
    match node {
      case Repeat(_, _, _, body) =>
        var entered := before + [node];
        AllClosedStays(before, [node], c);
        ListingOne(before, node);
        assert body == [body[0]];
        OneNode(body[0], c);
        NodeListing(body[0], c, entered);
        ListingConcat(before, [node], Flatten(body));
        assert entered + Flatten(body) == before + FlattenNode(node);
      case SubPattern(idx, _, body) =>
        AllClosedStays(before, [node], c);
        BodyListing(body, Inside(node, c), before + [node]);
        GroupListing(node, c, before);
      case Assert(_, _, body) =>
        AllClosedStays(before, [node], c);
        BodyListing(body, Inside(node, c), before + [node]);
        GroupListing(node, c, before);
      case Branch(_) =>
      case _ =>
        ListingOne(before, node);
        AllClosedStays(before, [node], c);
        assert FlattenNode(node) == [node];
    }
  }

  lemma {:induction false} SequenceListing(nodes: seq<Node>, c: Ctx, before: seq<Node>)
    requires WFSequence(nodes, c) && AllClosed(before, c)
    ensures ListingOk(before, Flatten(nodes))
    ensures AllClosed(before + Flatten(nodes), AfterNodes(nodes, c))
    decreases nodes, 2
  {
    if nodes == [] {
      assert before + [] == before;
    } else {
      NodeListing(nodes[0], c, before);
      SequenceListing(nodes[1..], AfterNode(nodes[0], c), before + FlattenNode(nodes[0]));
      ListingConcat(before, FlattenNode(nodes[0]), Flatten(nodes[1..]));
      assert before + FlattenNode(nodes[0]) + Flatten(nodes[1..]) == before + Flatten(nodes);
    }
  }

  lemma {:induction false} BranchesListing(branches: seq<Alternative>, c: Ctx, before: seq<Node>)
    requires WFBranches(branches, c) && AllClosed(before, c)
    ensures ListingOk(before, FlattenBranches(branches))
    ensures AllClosed(before + FlattenBranches(branches), AfterBranches(branches, c))
    decreases branches, 3
  {
    if branches == [] {
      assert before + [] == before;
    } else {
      var first, rest := Flatten(branches[0].nodes), FlattenBranches(branches[1..]);
      SequenceListing(branches[0].nodes, c, before);
      BranchesListing(branches[1..], AfterNodes(branches[0].nodes, c), before + first);
      ListingConcat(before, first, rest);
      assert before + first + rest == before + FlattenBranches(branches);
    }
  }

  lemma {:induction false} BodyListing(nodes: seq<Node>, c: Ctx, before: seq<Node>)
    requires WFBody(nodes, c) && AllClosed(before, c)
    ensures ListingOk(before, Flatten(nodes))
    ensures AllClosed(before + Flatten(nodes), AfterNodes(nodes, c))
    decreases nodes, 3
  {
    if |nodes| == 1 && nodes[0].Branch? {
      var branches := nodes[0].branches;
      forall g | Closed(before, g) ensures Closed(before + [nodes[0]], g) {
        ClosedStays(before, [nodes[0]], g);
      }
      ListingOne(before, nodes[0]);
      BranchesListing(branches, c, before + [nodes[0]]);
      ListingConcat(before, [nodes[0]], FlattenBranches(branches));
      assert nodes == [nodes[0]];
      OneNode(nodes[0], c);
      assert before + [nodes[0]] + FlattenBranches(branches) == before + Flatten(nodes);
    } else {
      SequenceListing(nodes, c, before);
    }
  }

  /** In a parsed pattern every repetition has ordered bounds within the limit and repeats one
      node that is neither an anchor nor a repetition, and every numeric back-reference names a
      group whose opening and closing parentheses both come before it. */
  lemma RepeatsAndReferences(u: Tables, pattern: string, flags: Flags)
    requires Sane(u)
    ensures var r := ParsePattern(u, pattern, flags);
            r.Ok? ==> forall k :: 0 <= k < |Flatten(r.value)| ==> EntryOk(Flatten(r.value)[..k], Flatten(r.value)[k])
  {
    ParseWellFormed(u, pattern, flags);
    var r := ParsePattern(u, pattern, flags);
    if r.Ok? {
      BodyListing(r.value, Start(), []);
      forall k | 0 <= k < |Flatten(r.value)| ensures EntryOk(Flatten(r.value)[..k], Flatten(r.value)[k]) {
        assert [] + Flatten(r.value)[..k] == Flatten(r.value)[..k];
      }
    }
  }

  /** How many groups deep a node goes. */
  function NodeDepth(node: Node): nat
    decreases node, 0
  {
    match node
    case Repeat(_, _, _, body) => Depth(body)
    case Branch(branches) => BranchesDepth(branches)
    case SubPattern(_, _, body) => 1 + Depth(body)
    case Assert(_, _, body) => 1 + Depth(body)
    case _ => 0
  }

  function Depth(nodes: seq<Node>): nat
    decreases nodes, 1
  {
    if nodes == [] then 0 else Max(NodeDepth(nodes[0]), Depth(nodes[1..]))
  }

  function BranchesDepth(branches: seq<Alternative>): nat
    decreases branches, 2
  {
    if branches == [] then 0 else Max(Depth(branches[0].nodes), BranchesDepth(branches[1..]))
  }

  lemma {:induction false} NodeNesting(node: Node, c: Ctx)
    requires WFItem(node, c) && c.nesting <= MAX_GROUP_NESTING_DEPTH
    ensures c.nesting + NodeDepth(node) <= MAX_GROUP_NESTING_DEPTH
    decreases node, 1
  {
    match node {
      case Repeat(_, _, _, body) =>
        NodeNesting(body[0], c);
        assert body[1..] == [];
        assert Depth(body) == Max(NodeDepth(body[0]), Depth(body[1..]));
      case SubPattern(_, _, body) => BodyNesting(body, Inside(node, c));
      case Assert(_, _, body) => BodyNesting(body, Inside(node, c));
      case Branch(_) =>
      case _ =>
    }
  }

  lemma {:induction false} SequenceNesting(nodes: seq<Node>, c: Ctx)
    requires WFSequence(nodes, c) && c.nesting <= MAX_GROUP_NESTING_DEPTH
    ensures c.nesting + Depth(nodes) <= MAX_GROUP_NESTING_DEPTH
    decreases nodes, 2
  {
    if nodes != [] {
      NodeNesting(nodes[0], c);
      AfterNodeKeeps(nodes[0], c);
      SequenceNesting(nodes[1..], AfterNode(nodes[0], c));
    }
  }

  lemma {:induction false} BranchesNesting(branches: seq<Alternative>, c: Ctx)
    requires WFBranches(branches, c) && c.nesting <= MAX_GROUP_NESTING_DEPTH
    ensures c.nesting + BranchesDepth(branches) <= MAX_GROUP_NESTING_DEPTH
    decreases branches, 3
  {
    if branches != [] {
      SequenceNesting(branches[0].nodes, c);
      AfterKeeps(branches[0].nodes, c);
      BranchesNesting(branches[1..], AfterNodes(branches[0].nodes, c));
    }
  }

  lemma {:induction false} BodyNesting(nodes: seq<Node>, c: Ctx)
    requires WFBody(nodes, c) && c.nesting <= MAX_GROUP_NESTING_DEPTH
    ensures c.nesting + Depth(nodes) <= MAX_GROUP_NESTING_DEPTH
    decreases nodes, 3
  {
    if |nodes| == 1 && nodes[0].Branch? {
      BranchesNesting(nodes[0].branches, c);
      assert nodes[1..] == [];
      assert Depth(nodes) == Max(NodeDepth(nodes[0]), Depth(nodes[1..]));
    } else {
      SequenceNesting(nodes, c);
    }
  }

  /** No parsed pattern nests more than twenty groups. */
  lemma NestingBounded(u: Tables, pattern: string, flags: Flags)
    requires Sane(u)
    ensures var r := ParsePattern(u, pattern, flags); r.Ok? ==> Depth(r.value) <= MAX_GROUP_NESTING_DEPTH
  {
    ParseWellFormed(u, pattern, flags);
    var r := ParsePattern(u, pattern, flags);
    if r.Ok? {
      BodyNesting(r.value, Start());
    }
  }
}
