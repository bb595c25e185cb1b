/** The parser as the source writes it: one object whose fields the methods advance
    (guardcore/redos_parser.go, guardcore/redos_escape.go).  Every method is proved to
    return, and to leave the fields in, exactly what RegexGrammar.dfy says. */
module RegexParser {
  import opened Intervals
  import opened RegexSyntax
  import opened RegexCharSets
  import opened Texts
  import G = RegexGrammar

  datatype Outcome<T> = Success(value: T) | Failure(kind: ErrorKind, at: int) {
    predicate IsFailure() { Failure? }

    function PropagateFailure<U>(): Outcome<U>
      requires Failure?
    {
      Failure(kind, at)
    }

    function Extract(): T
      requires Success?
    {
      value
    }
  }

  /** The method's result and final state are those of the specification. */
  ghost predicate Agrees<T>(want: G.Parsed<T>, out: Outcome<T>, st: G.St) {
    match want
    case Ok(value, next) => out == Success(value) && st == next
    case Err(kind, at) => out == Failure(kind, at)
  }

  method ParseDecimal(s: string) returns (n: nat, ok: bool)
    ensures ok <==> G.ParseDecimal(s).Some?
    ensures ok ==> n == G.ParseDecimal(s).value
  {
    n := 0;
    for i := 0 to |s|
      invariant G.DecimalFrom(s[i..], n) == G.ParseDecimal(s)
    {
      assert s[i..][1..] == s[i + 1..];
      if !IsDigit(s[i]) {
        return 0, false;
      }
      n := n * 10 + DigitValue(s[i]);
      if n > MAX_REPEAT {
        return 0, false;
      }
    }
    ok := true;
  }

  ghost predicate BranchesLeft(
    u: Tables, src: string, whole: G.Parsed<seq<Alternative>>, done: seq<Alternative>, st: G.St)
  {
    st.pos <= |src| && whole == G.PrependBranches(done, G.ParseBranches(u, src, st))
  }

  ghost predicate NodesLeft(u: Tables, src: string, whole: G.Parsed<seq<Node>>, done: seq<Node>, st: G.St) {
    st.pos <= |src| && whole == G.Prepend(done, G.ParseSequence(u, src, st))
  }

  lemma NothingDone(u: Tables, src: string, st: G.St)
    requires st.pos <= |src|
    ensures BranchesLeft(u, src, G.ParseBranches(u, src, st), [], st)
    ensures NodesLeft(u, src, G.ParseSequence(u, src, st), [], st)
  {
    var branches, nodes := G.ParseBranches(u, src, st), G.ParseSequence(u, src, st);
    if branches.Ok? {
      assert [] + branches.value == branches.value;
    }
    if nodes.Ok? {
      assert [] + nodes.value == nodes.value;
    }
  }

  lemma NodesDone(u: Tables, src: string, whole: G.Parsed<seq<Node>>, done: seq<Node>, st: G.St)
    requires NodesLeft(u, src, whole, done, st) && G.EndsSequence(src, st.pos)
    ensures whole == G.Ok(done, st)
  {
    assert done + [] == done;
  }

  lemma BranchStep(u: Tables, src: string, whole: G.Parsed<seq<Alternative>>, done: seq<Alternative>, st: G.St)
    requires BranchesLeft(u, src, whole, done, st)
    ensures var r := G.ParseSequence(u, src, st);
            if r.Err? then whole == G.Err(r.kind, r.at)
            else if r.st.pos >= |src| || src[r.st.pos] != '|' then whole == G.Ok(done + [Alternative(r.value)], r.st)
            else BranchesLeft(u, src, whole, done + [Alternative(r.value)], r.st.(pos := r.st.pos + 1))
  {
    var r := G.ParseSequence(u, src, st);
    if r.Ok? && r.st.pos < |src| && src[r.st.pos] == '|' {
      var rest := G.ParseBranches(u, src, r.st.(pos := r.st.pos + 1));
      if rest.Ok? {
        assert done + ([Alternative(r.value)] + rest.value) == done + [Alternative(r.value)] + rest.value;
      }
    }
  }

  lemma NodeStep(u: Tables, src: string, whole: G.Parsed<seq<Node>>, done: seq<Node>, st: G.St)
    requires NodesLeft(u, src, whole, done, st) && !G.EndsSequence(src, st.pos)
    ensures var r := G.ParseItem(u, src, st);
            if r.Err? then whole == G.Err(r.kind, r.at)
            else NodesLeft(u, src, whole, done + G.Listed(r.value), r.st)
  {
    var r := G.ParseItem(u, src, st);
    if r.Ok? {
      var rest := G.ParseSequence(u, src, r.st);
      if rest.Ok? {
        assert done + (G.Listed(r.value) + rest.value) == done + G.Listed(r.value) + rest.value;
      }
    }
  }

  ghost predicate ItemsLeft(u: Tables, src: string, flags: Flags, start: nat, whole: G.ClassRead,
                            pos: nat, members: IntervalSet, first: bool)
  {
    pos <= |src| && whole == G.ReadClassItems(u, src, pos, flags, members, first, start)
  }

  lemma NoMembers()
    ensures Canonical([])
  {
  }

  lemma ItemsStart(u: Tables, src: string, flags: Flags, start: nat, pos: nat, members: IntervalSet, first: bool)
    requires pos <= |src|
    ensures var whole := G.ReadClassItems(u, src, pos, flags, members, first, start);
            ItemsLeft(u, src, flags, start, whole, pos, members, first)
  {
  }

  /** What remains of a class after the bracket, or after one more member. */
  lemma ItemsStep(
    u: Tables, src: string, flags: Flags, start: nat, whole: G.ClassRead, pos: nat, members: IntervalSet, first: bool)
    requires ItemsLeft(u, src, flags, start, whole, pos, members, first)
    ensures pos == |src| ==> whole == G.ClassFailed(UnterminatedClass, start)
    ensures pos < |src| && src[pos] == ']' && !first ==> whole == G.ClassMembers(members, pos + 1)
    ensures pos < |src| && !(src[pos] == ']' && !first) ==>
              var item := G.ReadClassItem(u, src, pos, flags, start);
              if item.ClassFailed? then whole == item
              else ItemsLeft(u, src, flags, start, whole, item.next, Union(members, item.members), false)
  {
    hide G.ReadClassItem;
  }

  class ReParser {
    const u: Tables
    const src: string
    var pos: nat
    var groups: nat
    var openGroups: set<nat>
    var groupNames: map<string, nat>
    var flags: Flags
    var nesting: nat
    var overflow: bool

    ghost predicate Valid()
      reads this
    {
      Sane(u) && pos <= |src|
    }

    ghost function State(): G.St
      reads this
    {
      G.St(pos, groups, openGroups, groupNames, flags, nesting, overflow)
    }

    constructor (u: Tables, pattern: string, flags: Flags)
      requires Sane(u)
      ensures Valid() && this.u == u && src == pattern
      ensures State() == G.Initial(flags)
    {
      this.u := u;
      src := pattern;
      pos, groups, openGroups, groupNames := 0, 1, {}, map[];
      this.flags, nesting, overflow := flags, 0, false;
    }

    method ParseAlternations() returns (out: Outcome<seq<Node>>)
      requires Valid()
      modifies this
      ensures Valid() && Agrees(G.ParseAlternations(u, src, old(State())), out, State())
      decreases |src| - pos, 6
    {
      ghost var whole := G.ParseBranches(u, src, State());
      ghost var from := pos;
      var branches: seq<Alternative> := [];
      NothingDone(u, src, State());
      while true
        invariant Valid() && from <= pos
        invariant BranchesLeft(u, src, whole, branches, State())
        decreases |src| - pos
      {
        BranchStep(u, src, whole, branches, State());
        var nodes :- ParseSequence();
        branches := branches + [Alternative(nodes)];
        if pos >= |src| || src[pos] != '|' {
          break;
        }
        pos := pos + 1;
      }
      return Success(if |branches| == 1 then branches[0].nodes else [Branch(branches)]);
    }

    method ParseSequence() returns (out: Outcome<seq<Node>>)
      requires Valid()
      modifies this
      ensures Valid() && Agrees(G.ParseSequence(u, src, old(State())), out, State())
      decreases |src| - pos, 5
    {
      ghost var whole := G.ParseSequence(u, src, State());
      ghost var from := pos;
      var nodes: seq<Node> := [];
      NothingDone(u, src, State());
      while pos < |src|
        invariant Valid() && from <= pos
        invariant NodesLeft(u, src, whole, nodes, State())
        decreases |src| - pos
      {
        var c := src[pos];
        if c == '|' || c == ')' {
          NodesDone(u, src, whole, nodes, State());
          return Success(nodes);
        }
        NodeStep(u, src, whole, nodes, State());
        var item :- ParseItem();
        if item.Some? {
          nodes := nodes + [item.value];
        } else {
          assert nodes + [] == nodes;
        }
      }
      NodesDone(u, src, whole, nodes, State());
      return Success(nodes);
    }

    /** `None` when nothing but blanks, a comment or global flags was read. */
    method ParseItem() returns (out: Outcome<Option<Node>>)
      requires Valid() && pos < |src| && src[pos] != ')'
      modifies this
      ensures Valid() && Agrees(G.ParseItem(u, src, old(State())), out, State())
      decreases |src| - pos, 4
    {
      SkipVerbose();
      if pos >= |src| {
        return Success(None);
      }
      var read :- ParseAtom();
      if read.None? {
        return Success(None);
      }
      var atom := read.value;
      SkipVerbose();
      var node :- Quantify(atom);
      return Success(Some(node));
    }

    /** At most one quantifier per atom. */
    method Quantify(atom: Node) returns (out: Outcome<Node>)
      requires Valid()
      modifies this`pos, this`overflow
      ensures Valid() && Agrees(G.Quantify(src, atom, old(State())), out, State())
    {
      if pos >= |src| {
        return Success(atom);
      }
      var c := src[pos];
      if c != '*' && c != '+' && c != '?' && c != '{' {
        return Success(atom);
      }
      var min, max, len, ok := ParseQuantifier();
      if !ok {
        if overflow {
          return Failure(RepetitionTooLarge, pos);
        }
        return Success(atom);
      }
      if atom.At? {
        return Failure(NothingToRepeat, pos - len);
      }
      if atom.Repeat? {
        return Failure(MultipleRepeat, pos - len);
      }
      out := FinishRepeat(Repeat(min, max, false, [atom]));
    }

    method FinishRepeat(repeat: Node) returns (out: Outcome<Node>)
      requires Valid() && repeat.Repeat?
      modifies this`pos, this`overflow
      ensures Valid() && Agrees(G.FinishRepeat(src, repeat, old(State())), out, State())
    {
      var lazy := false;
      if pos < |src| && src[pos] == '?' {
        lazy := true;
        pos := pos + 1;
      }
      if pos < |src| {
        if src[pos] == '*' || src[pos] == '+' || src[pos] == '?' {
          return Failure(MultipleRepeat, pos);
        } else if src[pos] == '{' {
          var again := ProbeQuantifier();
          if again {
            return Failure(MultipleRepeat, pos);
          }
        }
      }
      return Success(repeat.(lazy := lazy));
    }

    method ParseQuantifier() returns (min: nat, max: nat, len: nat, ok: bool)
      requires Valid() && pos < |src|
      modifies this`pos, this`overflow
      ensures Valid()
      ensures var q := G.ReadQuantifier(src, old(pos));
              if ok then q == G.Quantifier(min, max, len) && State() == old(State()).(pos := old(pos) + len)
              else q.NoQuantifier? && State() == old(State()).(overflow := old(overflow) || q.tooLarge)
    {
      var c := src[pos];
      min, max, len, ok := 0, 0, 0, true;
      if c == '*' {
        pos, max, len := pos + 1, MAX_REPEAT, 1;
      } else if c == '+' {
        pos, min, max, len := pos + 1, 1, MAX_REPEAT, 1;
      } else if c == '?' {
        pos, max, len := pos + 1, 1, 1;
      } else if c == '{' {
        var end := IndexFrom(src, pos, '}');
        if end.None? {
          return 0, 0, 0, false;
        }
        var body := src[pos + 1..end.value];
        var lowText, highText := body, body;
        var comma := IndexFrom(body, 0, ',');
        if comma.Some? {
          lowText, highText := body[..comma.value], body[comma.value + 1..];
          if IndexFrom(highText, 0, ',').Some? {
            return 0, 0, 0, false;
          }
        }
        if lowText == "" && highText == "" {
          return 0, 0, 0, false;
        }
        var low, lowOK := ParseDecimal(lowText);
        var high, highOK := ParseDecimal(highText);
        if !lowOK || !highOK {
          if (!lowOK && AllDigits(lowText)) || (!highOK && AllDigits(highText)) {
            overflow := true;
          }
          return 0, 0, 0, false;
        }
        if highText == "" {
          high := MAX_REPEAT;
        }
        if low > high {
          return 0, 0, 0, false;
        }
        len := end.value - pos + 1;
        pos, min, max := end.value + 1, low, high;
      } else {
        ok := false;
      }
    }

    /** Looks for a quantifier without consuming it. */
    method ProbeQuantifier() returns (ok: bool)
      requires Valid() && pos < |src|
      modifies this`pos, this`overflow
      ensures Valid()
      ensures var q := G.ReadQuantifier(src, old(pos));
              && (ok <==> q.Quantifier?)
              && State() == old(State()).(overflow := old(overflow) || (q.NoQuantifier? && q.tooLarge))
    {
      var saved := pos;
      var min, max, len;
      min, max, len, ok := ParseQuantifier();
      pos := saved;
    }

    method SkipVerbose()
      requires Valid()
      modifies this`pos
      ensures Valid() && State() == old(State()).(pos := G.SkipVerbose(src, old(pos), flags))
    {
      if !flags.verbose {
        return;
      }
      while pos < |src|
        invariant Valid() && old(pos) <= pos
        invariant G.SkipBlank(src, pos) == G.SkipBlank(src, old(pos))
        decreases |src| - pos
      {
        var c := src[pos];
        if IsBlank(c) {
          pos := pos + 1;
        } else if c == '#' {
          var end := IndexFrom(src, pos, '\n');
          if end.None? {
            pos := |src|;
            return;
          }
          pos := end.value + 1;
        } else {
          return;
        }
      }
    }

    method LiteralNode(ch: int) returns (node: Node)
      requires Sane(u) && IsCodePoint(ch)
      ensures node == G.LiteralNode(u, ch, flags)
    {
      var members := ExpandIgnoreCaseLoop(u, Single(ch), flags);
      return Literal(ch, members);
    }

    method ParseAtom() returns (out: Outcome<Option<Node>>)
      requires Valid() && pos < |src|
      modifies this
      ensures Valid() && Agrees(G.ParseAtom(u, src, old(State())), out, State())
      decreases |src| - pos, 3
    {
      var c := src[pos];
      if c == '*' || c == '+' || c == '?' {
        return Failure(NothingToRepeat, pos);
      } else if c == '{' {
        var ok := ProbeQuantifier();
        if ok {
          return Failure(NothingToRepeat, pos);
        }
        pos := pos + 1;
        var node := LiteralNode('{' as int);
        return Success(Some(node));
      } else if c == '^' {
        pos := pos + 1;
        return Success(Some(At(AtBeginning)));
      } else if c == '$' {
        pos := pos + 1;
        return Success(Some(At(AtEnd)));
      } else if c == '[' {
        var node :- ParseCharClass();
        return Success(Some(node));
      } else if c == '(' {
        out := ParseGroup();
      } else if c == ')' {
        return Success(None);
      } else if c == '\\' {
        var node :- ParseEscapeAtom();
        return Success(Some(node));
      } else if c == '.' {
        pos := pos + 1;
        var members := AnyIntervals(flags);
        return Success(Some(Any(members)));
      } else {
        pos := pos + 1;
        var node := LiteralNode(c as int);
        return Success(Some(node));
      }
    }

    // -------------------------------------------------------------- groups

    method ParseGroup() returns (out: Outcome<Option<Node>>)
      requires Valid() && pos < |src| && src[pos] == '('
      modifies this
      ensures Valid() && Agrees(G.ParseGroup(u, src, old(State())), out, State())
      decreases |src| - pos, 2
    {
      var open := pos;
      pos := pos + 1;
      if pos >= |src| {
        return Failure(UnterminatedSubpattern, open);
      }
      if src[pos] != '?' {
        out := ParseCapture("", open);
        return;
      }
      pos := pos + 1;
      out := ParseExtension(open);
    }

    /** A construct of the form `(?...`, at the byte after the `?`. */
    method ParseExtension(open: nat) returns (out: Outcome<Option<Node>>)
      requires Valid()
      modifies this
      ensures Valid() && Agrees(G.Extension(u, src, old(State()), open), out, State())
      decreases |src| - pos, 11
    {
      if pos >= |src| {
        return Failure(UnknownExtension("?"), open);
      }
      match src[pos] {
        case 'P' =>
          pos := pos + 1;
          out := ParsePythonExtension(open);
        case '<' =>
          pos := pos + 1;
          if pos < |src| && (src[pos] == '=' || src[pos] == '!') {
            var negative := src[pos] == '!';
            pos := pos + 1;
            out := ParseLookaround(true, negative, open);
          } else {
            return Failure(UnknownExtension("?<"), open);
          }
        case '=' =>
          pos := pos + 1;
          out := ParseLookaround(false, false, open);
        case '!' =>
          pos := pos + 1;
          out := ParseLookaround(false, true, open);
        case ':' =>
          pos := pos + 1;
          out := ParsePlainGroup(open);
        case '#' =>
          var end := IndexFrom(src, pos, ')');
          if end.None? {
            return Failure(UnterminatedComment, open);
          }
          pos := end.value + 1;
          return Success(None);
        case '>' =>
          return Failure(UnknownExtension("?>"), open);
        case '(' =>
          return Failure(UnknownExtension("?("), open);
        case _ =>
          out := ParseInlineFlags(open);
      }
    }

    /** A construct of the form `(?P...`, at the byte after the `P`. */
    method ParsePythonExtension(open: nat) returns (out: Outcome<Option<Node>>)
      requires Valid()
      modifies this
      ensures Valid() && Agrees(G.PythonExtension(u, src, old(State()), open), out, State())
      decreases |src| - pos, 10
    {
      if pos >= |src| {
        return Failure(UnknownExtension("?P"), open);
      }
      if src[pos] == '<' {
        out := ParseNamedGroup(open);
      } else if src[pos] == '=' {
        pos := pos + 1;
        var name := ParseGroupNameToken(')');
        if !G.ValidName(name) {
          return Failure(G.NameError(name), pos - |name|);
        }
        if pos >= |src| || src[pos] != ')' {
          return Failure(UnterminatedName, open);
        }
        pos := pos + 1;
        if name !in groupNames {
          return Failure(UnknownGroupName(name), open + 3);
        }
        return Success(Some(GroupRef(groupNames[name], name)));
      } else {
        return Failure(UnknownExtension("?P" + [src[pos]]), open);
      }
    }

    method ParseLookaround(behind: bool, negative: bool, open: nat) returns (out: Outcome<Option<Node>>)
      requires Valid()
      modifies this
      ensures Valid() && Agrees(G.Lookaround(u, src, old(State()), behind, negative, open), out, State())
      decreases |src| - pos, 8
    {
      var body :- ParseGroupBody(open);
      return Success(Some(Assert(behind, negative, body)));
    }

    method ParsePlainGroup(open: nat) returns (out: Outcome<Option<Node>>)
      requires Valid()
      modifies this
      ensures Valid() && Agrees(G.PlainGroup(u, src, old(State()), open), out, State())
      decreases |src| - pos, 8
    {
      var body :- ParseGroupBody(open);
      return Success(Some(SubPattern(0, "", body)));
    }

    /** Opens the next capturing group, reads its body and closes it. */
    method ParseCapture(name: string, open: nat) returns (out: Outcome<Option<Node>>)
      requires Valid()
      modifies this
      ensures Valid() && Agrees(G.CaptureGroup(u, src, old(State()), name, open), out, State())
      decreases |src| - pos, 8
    {
      var idx := groups;
      groups := groups + 1;
      if name != "" {
        groupNames := groupNames[name := idx];
      }
      openGroups := openGroups + {idx};
      var body :- ParseGroupBody(open);
      openGroups := openGroups - {idx};
      return Success(Some(SubPattern(idx, name, body)));
    }

    method ParseNamedGroup(open: nat) returns (out: Outcome<Option<Node>>)
      requires Valid() && pos < |src| && src[pos] == '<'
      modifies this
      ensures Valid() && Agrees(G.NamedGroup(u, src, old(State()).(pos := old(pos) + 1), open), out, State())
      decreases |src| - pos, 9
    {
      pos := pos + 1;
      var nameStart := pos;
      var name := ParseGroupNameToken('>');
      if !G.ValidName(name) {
        return Failure(G.NameError(name), nameStart);
      }
      if pos >= |src| || src[pos] != '>' {
        return Failure(UnterminatedName, open);
      }
      pos := pos + 1;
      if name in groupNames {
        return Failure(RedefinedGroupName(name), nameStart);
      }
      out := ParseCapture(name, open);
    }

    method ParseGroupNameToken(end: char) returns (token: string)
      requires Valid()
      modifies this`pos
      ensures Valid() && State() == old(State()).(pos := G.TokenEnd(src, old(pos), end))
      ensures old(pos) <= pos && token == src[old(pos)..pos]
    {
      var start := pos;
      while pos < |src| && src[pos] != end
        invariant Valid() && old(pos) <= pos
        invariant G.TokenEnd(src, pos, end) == G.TokenEnd(src, old(pos), end)
        decreases |src| - pos
      {
        pos := pos + 1;
      }
      token := src[start..pos];
    }

    method ParseGroupBody(open: nat) returns (out: Outcome<seq<Node>>)
      requires Valid()
      modifies this
      ensures Valid() && Agrees(G.ParseGroupBody(u, src, old(State()), open), out, State())
      decreases |src| - pos, 7
    {
      nesting := nesting + 1;
      if nesting > MAX_GROUP_NESTING_DEPTH {
        return Failure(NestingTooDeep, open);
      }
      var body :- ParseAlternations();
      if pos >= |src| || src[pos] != ')' {
        return Failure(UnterminatedSubpattern, open);
      }
      pos := pos + 1;
      nesting := nesting - 1;
      return Success(body);
    }

    method ParseInlineFlags(open: nat) returns (out: Outcome<Option<Node>>)
      requires Valid()
      modifies this
      ensures Valid() && Agrees(G.InlineFlags(u, src, old(State()), open), out, State())
      decreases |src| - pos, 9
    {
      hide G.PlainGroup, ApplyFlags, Sane;
      var add, remove, negative := NO_FLAGS, NO_FLAGS, false;
      while pos < |src|
        invariant Valid() && old(pos) <= pos && State() == old(State()).(pos := pos)
        invariant G.ReadFlags(src, pos, add, remove, negative, open)
                  == G.ReadFlags(src, old(pos), NO_FLAGS, NO_FLAGS, false, open)
        decreases |src| - pos
      {
        var c := src[pos];
        var target := G.SetFlag(if negative then remove else add, c);
        if target.Some? {
          if negative {
            remove := target.value;
          } else {
            add := target.value;
          }
        } else if c == '-' {
          if negative {
            return Failure(FlagsNotAtStart, open);
          }
          negative := true;
        } else if c == ':' {
          pos := pos + 1;
          var saved := flags;
          flags := ApplyFlags(flags, add, remove);
          out := ParsePlainGroup(open);
          flags := saved;
          return;
        } else if c == ')' {
          if open != 0 {
            return Failure(FlagsNotAtStart, open);
          }
          pos := pos + 1;
          flags := ApplyFlags(flags, add, remove);
          return Success(None);
        } else {
          return Failure(UnknownFlag, pos);
        }
        pos := pos + 1;
      }
      return Failure(UnknownFlag, open);
    }

    // -------------------------------------------------------------- escapes

    method ParseEscapeAtom() returns (out: Outcome<Node>)
      requires Valid() && pos < |src| && src[pos] == '\\'
      modifies this`pos
      ensures Valid() && Agrees(G.ParseEscape(u, src, old(State())), out, State())
    {
      hide G.DecimalEscape, G.ReadHex, G.LiteralNode, CategoryMembers, Sane;
      var start := pos;
      pos := pos + 1;
      if pos >= |src| {
        return Failure(BadEscape(""), start);
      }
      var c := src[pos];
      var category := G.EscapeCategory(c);
      var anchor := G.AnchorEscape(c);
      if category.Some? {
        pos := pos + 1;
        var members := CategoryIntervalsFor(u, category.value, flags);
        return Success(In(members, category));
      } else if anchor.Some? {
        pos := pos + 1;
        return Success(At(anchor.value));
      } else if IsDigit(c) {
        out := ParseDecimalEscape(start);
      } else if c == 'x' || c == 'u' || c == 'U' {
        pos := pos + 1;
        var ch :- ParseHexEscape(start, if c == 'x' then 2 else if c == 'u' then 4 else 8);
        var node := LiteralNode(ch);
        return Success(node);
      } else if c == 'N' {
        return Failure(UnknownExtension("\\N"), start);
      } else if IsLetter(c) {
        var simple := G.SimpleEscape(c);
        if simple.None? {
          return Failure(BadEscape([c]), start);
        }
        pos := pos + 1;
        var node := LiteralNode(simple.value);
        return Success(node);
      } else {
        pos := pos + 1;
        var node := LiteralNode(c as int);
        return Success(node);
      }
    }

    /** Reads up to two more octal digits. */
    method ReadOctal() returns (digits: string)
      requires Valid() && pos < |src|
      modifies this`pos
      ensures Valid() && State() == old(State()).(pos := G.OctalEnd(src, old(pos) + 1, 2))
      ensures old(pos) < pos && digits == src[old(pos)..pos]
    {
      var start := pos;
      pos := pos + 1;
      var i := 0;
      while i < 2 && pos < |src| && IsOctal(src[pos])
        invariant 0 <= i <= 2 && start < pos <= |src|
        invariant G.OctalEnd(src, pos, 2 - i) == G.OctalEnd(src, start + 1, 2)
      {
        pos := pos + 1;
        i := i + 1;
      }
      digits := src[start..pos];
    }

    method ParseDecimalEscape(start: nat) returns (out: Outcome<Node>)
      requires Valid() && 0 < pos < |src| && start == pos - 1 && IsDigit(src[pos])
      modifies this`pos
      ensures Valid()
      ensures Agrees(G.DecimalEscape(u, src, old(State()).(pos := start)), out, State())
    {
      hide G.OctalValue, G.DecimalValue, G.OctalEnd;
      var first := pos;
      if src[pos] == '0' {
        var digits := ReadOctal();
        out := OctalNode(digits, start);
        return;
      }
      pos := pos + 1;
      if pos < |src| && IsDigit(src[pos]) {
        pos := pos + 1;
        if IsOctal(src[first]) && IsOctal(src[first + 1]) && pos < |src| && IsOctal(src[pos]) {
          pos := pos + 1;
          out := OctalNode(src[first..pos], start);
          return;
        }
      }
      out := ParseGroupReference(start, src[first..pos]);
    }

    /** The literal of an octal escape that has been consumed. */
    method OctalNode(digits: string, start: nat) returns (out: Outcome<Node>)
      requires Valid()
      ensures Agrees(G.LiteralFrom(u, State(), G.OctalChar(digits, pos, start)), out, State())
    {
      var ch :- ParseOctalDigits(digits, start);
      var node := LiteralNode(ch);
      return Success(node);
    }

    method ParseOctalDigits(digits: string, start: nat) returns (out: Outcome<nat>)
      ensures out == if G.OctalValue(digits) > 0xFF then Failure(OctalOutOfRange(digits), start)
                     else Success(G.OctalValue(digits))
    {
      var value := 0;
      for i := 0 to |digits|
        invariant value == G.OctalValue(digits[..i])
      {
        assert digits[..i + 1][..i] == digits[..i];
        value := value * 8 + DigitValue(digits[i]);
      }
      assert digits[..|digits|] == digits;
      return if value > 0xFF then Failure(OctalOutOfRange(digits), start) else Success(value);
    }

    method ParseGroupReference(start: nat, digits: string) returns (out: Outcome<Node>)
      requires Valid()
      ensures Agrees(G.GroupReference(State(), G.DecimalValue(digits), pos, start), out, State())
    {
      var group := 0;
      for i := 0 to |digits|
        invariant group == G.DecimalValue(digits[..i])
      {
        assert digits[..i + 1][..i] == digits[..i];
        group := group * 10 + DigitValue(digits[i]);
      }
      assert digits[..|digits|] == digits;
      if group < groups {
        if group in openGroups {
          return Failure(OpenGroupReference, start);
        }
        return Success(GroupRef(group, ""));
      }
      return Failure(InvalidGroupReference(group), start);
    }

    method ParseHexEscape(start: nat, width: nat) returns (out: Outcome<int>)
      requires Valid()
      modifies this`pos
      ensures Valid()
      ensures var r := G.ReadHex(src, old(pos), width, start);
              if r.CharErr? then out == Failure(r.kind, r.at)
              else out == Success(r.ch) && State() == old(State()).(pos := r.next)
    {
      if pos + width > |src| {
        return Failure(IncompleteEscape(width), start);
      }
      var text := src[pos..pos + width];
      var value := 0;
      for i := 0 to width
        invariant value == G.HexValue(text[..i])
        invariant forall k :: 0 <= k < i ==> IsHexDigit(text[k])
        invariant pos == old(pos)
      {
        if !IsHexDigit(text[i]) {
          return Failure(IncompleteEscape(width), start);
        }
        assert text[..i + 1][..i] == text[..i];
        value := value * 16 + HexDigitValue(text[i]);
      }
      assert text[..width] == text;
      if value > MAX_CODE_POINT {
        return Failure(InvalidEscapeValue(text), start);
      }
      pos := pos + width;
      return Success(value);
    }

    // -------------------------------------------------------------- classes

    method ParseCharClass() returns (out: Outcome<Node>)
      requires Valid() && pos < |src| && src[pos] == '['
      modifies this`pos
      ensures Valid() && Agrees(G.ParseClass(u, src, old(State())), out, State())
    {
      hide G.ReadClassItems, Canonical, Complement;
      var start := pos;
      pos := pos + 1;
      var negated := false;
      if pos < |src| && src[pos] == '^' {
        negated := true;
        pos := pos + 1;
      }
      var members :- ParseClassItems(start);
      if negated {
        members := ComplementLoop(members);
      }
      return Success(In(members, None));
    }

    /** The members up to the closing bracket. */
    method ParseClassItems(start: nat) returns (out: Outcome<IntervalSet>)
      requires Valid()
      modifies this`pos
      ensures Valid()
      ensures var r := G.ReadClassItems(u, src, old(pos), flags, [], true, start);
              if r.ClassFailed? then out == Failure(r.kind, r.at)
              else out == Success(r.members) && Canonical(r.members) && State() == old(State()).(pos := r.next)
    {
      hide G.ReadClassItem, G.ReadClassItems, ItemsLeft, Canonical, Union;
      ghost var whole := G.ReadClassItems(u, src, pos, flags, [], true, start);
      var members: IntervalSet := [];
      var first := true;
      ItemsStart(u, src, flags, start, pos, members, first);
      NoMembers();
      while true
        invariant Valid() && State() == old(State()).(pos := pos)
        invariant Canonical(members)
        invariant ItemsLeft(u, src, flags, start, whole, pos, members, first)
        decreases |src| - pos
      {
        ItemsStep(u, src, flags, start, whole, pos, members, first);
        if pos >= |src| {
          return Failure(UnterminatedClass, start);
        }
        if src[pos] == ']' && !first {
          pos := pos + 1;
          return Success(members);
        }
        first := false;
        var range :- ParseClassItem(start);
        members := UnionOf(members, range);
      }
    }

    /** The code points of one member, one range or one category escape. */
    method ParseClassItem(start: nat) returns (out: Outcome<IntervalSet>)
      requires Valid() && pos < |src|
      modifies this`pos
      ensures Valid()
      ensures var r := G.ReadClassItem(u, src, old(pos), flags, start);
              if r.ClassFailed? then out == Failure(r.kind, r.at)
              else out == Success(r.members) && Canonical(r.members) && State() == old(State()).(pos := r.next)
    {
      hide G.ReadClassAtom, G.ReadRange, Canonical, CaseClosure, ExpandIgnoreCase, CategoryMembers, Sane;
      var atom := ParseClassAtom();
      match atom {
        case ClassErr(kind, at) =>
          return Failure(kind, at);
        case ClassSet(set_, _) =>
          return Success(set_);
        case ClassChar(low, _) =>
          if pos + 1 < |src| && src[pos] == '-' && src[pos + 1] != ']' {
            pos := pos + 1;
            out := ParseRangeEnd(low, start);
            return;
          }
          SingleCanonical(low);
          MembersCanonical(u, Digit, low, Single(low), flags);
          var range := ExpandIgnoreCaseLoop(u, Single(low), flags);
          return Success(range);
      }
    }

    method ParseRangeEnd(low: int, start: nat) returns (out: Outcome<IntervalSet>)
      requires Valid() && pos < |src|
      modifies this`pos
      ensures Valid()
      ensures var r := G.ReadRange(u, src, old(pos), flags, low, start);
              if r.ClassFailed? then out == Failure(r.kind, r.at)
              else out == Success(r.members) && Canonical(r.members) && State() == old(State()).(pos := r.next)
    {
      hide G.ReadClassAtom, Canonical, CaseClosure, ExpandIgnoreCase, CategoryMembers, Sane;
      var upper := ParseClassAtom();
      match upper {
        case ClassErr(kind, at) =>
          return Failure(kind, at);
        case ClassSet(_, _) =>
          return Failure(BadCharacterRange, start);
        case ClassChar(high, _) =>
          if high < low {
            return Failure(BadCharacterRange, start);
          }
          RangeSpec(low, high);
          MembersCanonical(u, Digit, high, Range(low, high), flags);
          var range := ExpandIgnoreCaseLoop(u, Range(low, high), flags);
          return Success(range);
      }
    }

    /** One class member; a category escape comes back as its set. */
    method ParseClassAtom() returns (atom: G.ClassAtom)
      requires Valid() && pos < |src|
      modifies this`pos
      ensures Valid() && atom == G.ReadClassAtom(u, src, old(pos), flags)
      ensures !atom.ClassErr? ==> State() == old(State()).(pos := atom.next)
      ensures atom.ClassChar? ==> IsCodePoint(atom.ch)
      ensures atom.ClassSet? ==> Canonical(atom.members)
    {
      hide Canonical, CategoryMembers;
      var c := src[pos];
      var start := pos;
      pos := pos + 1;
      if c != '\\' {
        return G.ClassChar(c as int, pos);
      }
      if pos >= |src| {
        return G.ClassErr(BadEscape(""), start);
      }
      var e := src[pos];
      var category := G.EscapeCategory(e);
      if category.Some? {
        pos := pos + 1;
        var members := CategoryIntervalsFor(u, category.value, flags);
        MembersCanonical(u, category.value, 0, [], flags);
        return G.ClassSet(members, pos);
      } else if e == 'b' {
        pos := pos + 1;
        return G.ClassChar(8, pos);
      } else if e == 'x' || e == 'u' || e == 'U' {
        pos := pos + 1;
        var read := ParseHexEscape(start, if e == 'x' then 2 else if e == 'u' then 4 else 8);
        if read.Failure? {
          return G.ClassErr(read.kind, read.at);
        }
        return G.ClassChar(read.value, pos);
      } else if IsOctal(e) {
        var digits := ReadOctal();
        var read := ParseOctalDigits(digits, start);
        if read.Failure? {
          return G.ClassErr(read.kind, read.at);
        }
        return G.ClassChar(read.value, pos);
      } else if e == 'N' {
        return G.ClassErr(UnknownExtension("\\N"), start);
      } else if IsLetter(e) {
        var simple := G.SimpleEscape(e);
        if simple.None? {
          return G.ClassErr(BadEscape([e]), start);
        }
        pos := pos + 1;
        return G.ClassChar(simple.value, pos);
      } else {
        pos := pos + 1;
        return G.ClassChar(e as int, pos);
      }
    }
  }

  method ParseRedosPattern(u: Tables, pattern: string, flags: Flags) returns (out: Outcome<seq<Node>>, parser: ReParser)
    requires Sane(u)
    ensures fresh(parser) && Agrees(G.ParsePattern(u, pattern, flags), out, parser.State())
  {
    parser := new ReParser(u, pattern, flags);
    out := parser.ParseAlternations();
    if out.Success? && parser.pos < |parser.src| {
      return Failure(UnbalancedParenthesis, parser.pos), parser;
    }
  }
}
