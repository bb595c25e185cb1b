/** Canonical pattern text of a syntax tree, and how its pieces read back
    (guardcore/redos_parser.go, guardcore/redos_escape.go). */
module RegexRender {
  import opened Intervals
  import opened RegexSyntax
  import opened RegexGrammar
  import opened Texts

  // ---------------------------------------------------------------- numbers

  function HexDigit(n: nat): char
    requires n < 16
  {
    "0123456789ABCDEF"[n]
  }

  function Hex(n: nat, width: nat): string {
    if width == 0 then "" else Hex(n / 16, width - 1) + [HexDigit(n % 16)]
  }

  function Pow16(width: nat): nat {
    if width == 0 then 1 else 16 * Pow16(width - 1)
  }

  lemma {:induction false} HexReads(n: nat, width: nat)
    requires n < Pow16(width)
    ensures |Hex(n, width)| == width
    ensures forall i :: 0 <= i < width ==> IsHexDigit(Hex(n, width)[i])
    ensures HexValue(Hex(n, width)) == n
  {
    if width > 0 {
      HexReads(n / 16, width - 1);
      var d := HexDigit(n % 16);
      assert Hex(n, width)[..width - 1] == Hex(n / 16, width - 1);
      assert HexDigitValue(d) == n % 16;
    }
  }

  lemma CodePointHex(n: nat)
    requires n <= MAX_CODE_POINT
    ensures |Hex(n, 8)| == 8
    ensures forall i :: 0 <= i < 8 ==> IsHexDigit(Hex(n, 8)[i])
    ensures HexValue(Hex(n, 8)) == n
  {
    assert Pow16(8) == 16 * 16 * 16 * 16 * 16 * 16 * Pow16(2);
    HexReads(n, 8);
  }

  function DecimalDigit(n: nat): char
    requires n < 10
  {
    "0123456789"[n]
  }

  function Decimal(n: nat): string {
    if n < 10 then [DecimalDigit(n)] else Decimal(n / 10) + [DecimalDigit(n % 10)]
  }

  lemma DigitStep(n: nat, rest: string)
    requires n <= MAX_REPEAT
    ensures DecimalFrom([DecimalDigit(n % 10)] + rest, n / 10) == DecimalFrom(rest, n)
  {
    var c := DecimalDigit(n % 10);
    assert IsDigit(c) && DigitValue(c) == n % 10;
    assert ([c] + rest)[1..] == rest;
  }

  lemma {:induction false} DecimalReads(n: nat, rest: string)
    requires n <= MAX_REPEAT
    ensures AllDigits(Decimal(n)) && Decimal(n) != ""
    ensures DecimalFrom(Decimal(n) + rest, 0) == DecimalFrom(rest, n)
  {
    hide DecimalFrom, DigitValue;
    DigitStep(n, rest);
    if n >= 10 {
      var last := [DecimalDigit(n % 10)];
      DecimalReads(n / 10, last + rest);
      assert AllDigits(last);
      assert Decimal(n / 10) + (last + rest) == Decimal(n) + rest;
    }
  }

  lemma DecimalParses(n: nat)
    requires n <= MAX_REPEAT
    ensures AllDigits(Decimal(n)) && Decimal(n) != "" && ParseDecimal(Decimal(n)) == Some(n)
  {
    DecimalReads(n, "");
    assert Decimal(n) + "" == Decimal(n);
  }

  lemma ReferenceDigits(n: nat)
    requires 1 <= n <= 99
    ensures AllDigits(Decimal(n)) && Decimal(n)[0] != '0'
    ensures |Decimal(n)| == if n < 10 then 1 else 2
    ensures DecimalValue(Decimal(n)) == n
  {
    var d := Decimal(n);
    if n < 10 {
      assert d[..0] == "";
    } else {
      assert Decimal(n / 10) == [DecimalDigit(n / 10)];
      assert d[..1] == [DecimalDigit(n / 10)];
      assert d[..1][..0] == "";
      assert DecimalValue(d[..1]) == DecimalValue(d[..1][..0]) * 10 + n / 10;
    }
  }

  // ---------------------------------------------------------------- the renderer

  /** A letter stands for itself, other printable characters but digits are escaped, the rest
      is spelt as a code point. */
  function RenderLiteral(ch: int): string {
    if IsLetterCode(ch) then [ch as char]
    else if 0x20 <= ch <= 0x7e && !('0' as int <= ch <= '9' as int) then ['\\', ch as char]
    else RenderCodePoint(ch)
  }

  predicate IsLetterCode(ch: int) {
    'a' as int <= ch <= 'z' as int || 'A' as int <= ch <= 'Z' as int
  }

  function RenderCodePoint(ch: int): string {
    "\\U" + Hex(Max(ch, 0), 8)
  }

  function RenderAnchor(anchor: Anchor): string {
    match anchor
    case AtBeginning => "^"
    case AtEnd => "$"
    case AtBoundary => "\\b"
    case AtNonBoundary => "\\B"
    case AtBeginString => "\\A"
    case AtEndString => "\\Z"
  }

  function RenderCategory(category: Category): string {
    match category
    case Digit => "\\d"
    case NotDigit => "\\D"
    case Space => "\\s"
    case NotSpace => "\\S"
    case Word => "\\w"
    case NotWord => "\\W"
  }

  function RenderInterval(iv: Interval): string {
    RenderCodePoint(iv.low) + "-" + RenderCodePoint(iv.high)
  }

  function RenderIntervals(s: seq<Interval>): string {
    if s == [] then "" else RenderInterval(s[0]) + RenderIntervals(s[1..])
  }

  /** The empty class is spelt as the negation of everything. */
  function RenderClass(members: IntervalSet): string {
    if members == [] then "[^" + RenderIntervals(Full()) + "]"
    else "[" + RenderIntervals(members) + "]"
  }

  function RenderQuantifier(min: nat, max: nat): string {
    if min == 0 && max == MAX_REPEAT then "*"
    else if min == 1 && max == MAX_REPEAT then "+"
    else if min == 0 && max == 1 then "?"
    else if max == MAX_REPEAT then "{" + Decimal(min) + ",}"
    else "{" + Decimal(min) + "," + Decimal(max) + "}"
  }

  function GroupHead(node: Node): string
    requires node.SubPattern? || node.Assert?
  {
    if node.SubPattern? then
      if node.groupIdx == 0 then "(?:"
      else if node.groupName == "" then "("
      else "(?P<" + node.groupName + ">"
    else
      if node.behind then (if node.negative then "(?<!" else "(?<=")
      else (if node.negative then "(?!" else "(?=")
  }

  function RenderNode(node: Node): string
    decreases node, 0
  {
    match node
    case Literal(ch, _) => RenderLiteral(ch)
    case Any(_) => "."
    case In(members, category) => if category.Some? then RenderCategory(category.value) else RenderClass(members)
    case Repeat(min, max, lazy, body) => RenderNodes(body) + RenderQuantifier(min, max) + if lazy then "?" else ""
    case Branch(branches) => RenderBranches(branches)
    case SubPattern(_, _, body) => GroupHead(node) + RenderNodes(body) + ")"
    case Assert(_, _, body) => GroupHead(node) + RenderNodes(body) + ")"
    case At(anchor) => RenderAnchor(anchor)
    case GroupRef(ref, name) => if name == "" then "\\" + Decimal(ref) else "(?P=" + name + ")"
  }

  function RenderNodes(nodes: seq<Node>): string
    decreases nodes, 1
  {
    if nodes == [] then "" else RenderNode(nodes[0]) + RenderNodes(nodes[1..])
  }

  function RenderBranches(branches: seq<Alternative>): string
    decreases branches, 2
  {
    if branches == [] then ""
    else if |branches| == 1 then RenderNodes(branches[0].nodes)
    else RenderNodes(branches[0].nodes) + "|" + RenderBranches(branches[1..])
  }

  /** The only first position of `c` is one before which it does not occur. */
  lemma IndexIs(s: string, from: nat, c: char, at: nat)
    requires from <= at < |s| && s[at] == c
    requires forall k :: from <= k < at ==> s[k] != c
    ensures IndexFrom(s, from, c) == Some(at)
  {
  }

  // ---------------------------------------------------------------- pieces read back

  lemma ReadHexAt(src: string, pos: nat, ch: nat, start: nat)
    requires ch <= MAX_CODE_POINT && TextAt(src, pos, RenderCodePoint(ch))
    ensures |RenderCodePoint(ch)| == 10 && src[pos] == '\\' && src[pos + 1] == 'U'
    ensures ReadHex(src, pos + 2, 8, start) == CharAt(ch, pos + 10)
  {
    CodePointHex(ch);
    TextChar(src, pos, RenderCodePoint(ch), 0);
    TextChar(src, pos, RenderCodePoint(ch), 1);
    TextSplit(src, pos, "\\U", Hex(ch, 8));
  }

  lemma ClassCharAt(u: Tables, src: string, pos: nat, flags: Flags, ch: nat)
    requires pos + 10 <= |src| && src[pos] == '\\' && src[pos + 1] == 'U'
    requires ReadHex(src, pos + 2, 8, pos) == CharAt(ch, pos + 10)
    ensures ReadClassAtom(u, src, pos, flags) == ClassChar(ch, pos + 10)
  {
    assert EscapeCategory(src[pos + 1]).None? && HexWidth(src[pos + 1]) == 8;
  }

  lemma IntervalAt(u: Tables, src: string, pos: nat, flags: Flags, iv: Interval, start: nat)
    requires Valid(iv) && TextAt(src, pos, RenderInterval(iv))
    ensures |RenderInterval(iv)| == 21 && src[pos] == '\\'
    ensures ReadClassItem(u, src, pos, flags, start) == ClassMembers(ExpandIgnoreCase(u, [iv], flags), pos + 21)
  {
    hide ExpandIgnoreCase;
    var low, high := RenderCodePoint(iv.low), RenderCodePoint(iv.high);
    TextSplit(src, pos, low + "-", high);
    TextSplit(src, pos, low, "-");
    ReadHexAt(src, pos, iv.low, pos);
    ReadHexAt(src, pos + 11, iv.high, pos + 11);
    TextChar(src, pos + 10, "-", 0);
    ClassCharAt(u, src, pos, flags, iv.low);
    ClassCharAt(u, src, pos + 11, flags, iv.high);
  }

  /** The members after the intervals of `s` have been read one by one, each with its case variants. */
  ghost function UnionAll(u: Tables, flags: Flags, members: IntervalSet, s: seq<Interval>): IntervalSet
    decreases |s|
  {
    if s == [] then members
    else UnionAll(u, flags, Union(members, ExpandIgnoreCase(u, [s[0]], flags)), s[1..])
  }

  lemma {:induction false} UnionAllSpec(u: Tables, flags: Flags, members: IntervalSet, s: seq<Interval>)
    requires Canonical(members) && AllValid(s)
    ensures Canonical(UnionAll(u, flags, members, s))
    ensures forall c :: Member(c, UnionAll(u, flags, members, s)) <==>
                        Member(c, members) || exists i :: 0 <= i < |s| && Read(u, flags, s[i], c)
    decreases |s|
  {
    hide Canonical, Member, ExpandIgnoreCase, Union, UnionAll;
    UnionAllUnfold(u, flags, members, s);
    if s != [] {
      var one, rest := ExpandIgnoreCase(u, [s[0]], flags), s[1..];
      IntervalRead(u, flags, s[0]);
      CanonicalAllValid(members);
      UnionSpec(members, one);
      UnionAllSpec(u, flags, Union(members, one), rest);
      forall c ensures (exists i :: 0 <= i < |s| && Read(u, flags, s[i], c)) <==>
                       Read(u, flags, s[0], c) || exists i :: 0 <= i < |rest| && Read(u, flags, rest[i], c)
      {
        if i :| 0 <= i < |s| && Read(u, flags, s[i], c) {
          assert i > 0 ==> s[i] == rest[i - 1];
        }
        if i :| 0 <= i < |rest| && Read(u, flags, rest[i], c) {
          assert rest[i] == s[i + 1];
        }
      }
    }
  }

  lemma UnionAllUnfold(u: Tables, flags: Flags, members: IntervalSet, s: seq<Interval>)
    ensures UnionAll(u, flags, members, s) ==
            if s == [] then members
            else UnionAll(u, flags, Union(members, ExpandIgnoreCase(u, [s[0]], flags)), s[1..])
  {
  }

  /** The character is read with the interval. */
  ghost predicate Read(u: Tables, flags: Flags, iv: Interval, c: int) {
    Member(c, ExpandIgnoreCase(u, [iv], flags))
  }

  lemma IntervalRead(u: Tables, flags: Flags, iv: Interval)
    requires Valid(iv)
    ensures Canonical(ExpandIgnoreCase(u, [iv], flags)) && AllValid(ExpandIgnoreCase(u, [iv], flags))
    ensures forall c :: Read(u, flags, iv, c) <==>
                        Within(c, iv) || (flags.ignoreCase && IsCodePoint(c) && CaseVariant(u, iv, c))
  {
    hide CaseVariant;
    forall c ensures Member(c, [iv]) <==> Within(c, iv) {
      MembersOfCons(iv, [], [iv]);
    }
    forall c ensures InCaseClosure(u, [iv], c) <==> Within(c, iv) || CaseVariant(u, iv, c) {
      OneInterval(u, iv, c);
    }
  }

  /** The other case of a member that the parser looks up. */
  ghost predicate CaseVariant(u: Tables, iv: Interval, c: int) {
    exists m :: Scanned(m, iv) && (u.lower(m) == c || u.upper(m) == c)
  }

  lemma OneInterval(u: Tables, iv: Interval, c: int)
    ensures InCaseClosure(u, [iv], c) <==> Member(c, [iv]) || CaseVariant(u, iv, c)
  {
    if CaseVariant(u, iv, c) {
      var m :| Scanned(m, iv) && (u.lower(m) == c || u.upper(m) == c);
      assert Scanned(m, [iv][0]);
    }
  }

  /** What the spelling of a class is read as. */
  ghost function Spelt(u: Tables, flags: Flags, members: IntervalSet): IntervalSet {
    if members == [] then Complement(UnionAll(u, flags, [], Full())) else UnionAll(u, flags, [], members)
  }

  /** Under ignore-case, the variants of the members that the parser looks up are members. */
  ghost predicate FoldClosed(u: Tables, flags: Flags, s: IntervalSet) {
    flags.ignoreCase ==>
      forall m, i :: 0 <= i < |s| && Scanned(m, s[i]) ==> Member(u.lower(m), s) && Member(u.upper(m), s)
  }

  /** A class is read as it is spelt exactly when it is closed in that sense. */
  lemma SpeltExactly(u: Tables, flags: Flags, s: IntervalSet)
    requires Sane(u) && Canonical(s)
    ensures Canonical(Spelt(u, flags, s))
    ensures Spelt(u, flags, s) == s <==> FoldClosed(u, flags, s)
  {
    hide Canonical, Member, UnionAll, Complement, Scanned;
    if s == [] {
      FullComplement(u, flags);
    } else {
      CanonicalEmpty();
      CanonicalAllValid(s);
      UnionAllSpec(u, flags, [], s);
      if FoldClosed(u, flags, s) {
        forall c ensures Member(c, Spelt(u, flags, s)) <==> Member(c, s) {
          ReadIsMember(u, flags, s, c);
        }
        CanonicalUnique(Spelt(u, flags, s), s);
      } else {
        var m, i :| 0 <= i < |s| && Scanned(m, s[i]) && !(Member(u.lower(m), s) && Member(u.upper(m), s));
        VariantRead(u, flags, s, m, i);
      }
    }
  }

  lemma CanonicalEmpty()
    ensures Canonical([]) && forall c :: !Member(c, [])
  {
  }

  lemma ReadIsMember(u: Tables, flags: Flags, s: IntervalSet, c: int)
    requires AllValid(s) && FoldClosed(u, flags, s)
    ensures (exists i :: 0 <= i < |s| && Read(u, flags, s[i], c)) <==> Member(c, s)
  {
    hide Read, Scanned;
    if i :| 0 <= i < |s| && Read(u, flags, s[i], c) {
      IntervalRead(u, flags, s[i]);
      if !Within(c, s[i]) {
        var m :| Scanned(m, s[i]) && (u.lower(m) == c || u.upper(m) == c);
        assert Member(u.lower(m), s) && Member(u.upper(m), s);
      }
    }
    if Member(c, s) {
      var i :| 0 <= i < |s| && Within(c, s[i]);
      IntervalRead(u, flags, s[i]);
    }
  }

  lemma VariantRead(u: Tables, flags: Flags, s: IntervalSet, m: int, i: nat)
    requires Sane(u) && AllValid(s) && flags.ignoreCase && i < |s| && Scanned(m, s[i])
    ensures Read(u, flags, s[i], u.lower(m)) && Read(u, flags, s[i], u.upper(m))
  {
    hide Read;
    IntervalRead(u, flags, s[i]);
    assert IsCodePoint(m);
    assert CaseVariant(u, s[i], u.lower(m)) && CaseVariant(u, s[i], u.upper(m));
  }

  ghost predicate ReadsItems(
    u: Tables, src: string, pos: nat, flags: Flags, before: IntervalSet, first: bool, start: nat,
    after: IntervalSet, next: nat)
  {
    pos <= |src| && ReadClassItems(u, src, pos, flags, before, first, start) == ClassMembers(after, next)
  }

  lemma ReadsOneMore(u: Tables, src: string, pos: nat, flags: Flags, before: IntervalSet, first: bool, start: nat,
                     one: IntervalSet, after: IntervalSet, next: nat)
    requires pos < |src| && src[pos] != ']'
    requires ReadClassItem(u, src, pos, flags, start) == ClassMembers(one, pos + 21)
    requires ReadsItems(u, src, pos + 21, flags, Union(before, one), false, start, after, next)
    ensures ReadsItems(u, src, pos, flags, before, first, start, after, next)
  {
    hide ReadClassItem;
  }

  lemma {:induction false} IntervalsAt(
    u: Tables, src: string, pos: nat, flags: Flags, members: IntervalSet, s: seq<Interval>, first: bool, start: nat)
    requires AllValid(s) && TextAt(src, pos, RenderIntervals(s) + "]")
    requires s == [] ==> !first
    ensures ReadsItems(u, src, pos, flags, members, first, start, UnionAll(u, flags, members, s),
                       pos + |RenderIntervals(s)| + 1)
    decreases |s|
  {
    hide *;
    UnionAllUnfold(u, flags, members, s);
    if s == [] {
      NoIntervalsAt(u, src, pos, flags, members, start);
    } else {
      var head, rest := RenderInterval(s[0]), RenderIntervals(s[1..]) + "]";
      var one, next := ExpandIgnoreCase(u, [s[0]], flags), pos + |RenderIntervals(s)| + 1;
      IntervalsText(s);
      TextSplit(src, pos, head, rest);
      IntervalAt(u, src, pos, flags, s[0], start);
      IntervalsAt(u, src, pos + 21, flags, Union(members, one), s[1..], false, start);
      IntervalStarts(src, pos, s[0]);
      ReadsOneMore(u, src, pos, flags, members, first, start, one, UnionAll(u, flags, members, s), next);
    }
  }

  lemma NoIntervalsAt(u: Tables, src: string, pos: nat, flags: Flags, members: IntervalSet, start: nat)
    requires TextAt(src, pos, RenderIntervals([]) + "]")
    ensures ReadsItems(u, src, pos, flags, members, false, start, members, pos + |RenderIntervals([])| + 1)
  {
    TextChar(src, pos, RenderIntervals([]) + "]", 0);
  }

  lemma IntervalsText(s: seq<Interval>)
    requires s != []
    ensures RenderIntervals(s) + "]" == RenderInterval(s[0]) + (RenderIntervals(s[1..]) + "]")
    ensures |RenderIntervals(s)| == |RenderInterval(s[0])| + |RenderIntervals(s[1..])|
    ensures AllValid(s) ==> Valid(s[0]) && AllValid(s[1..])
  {
    hide RenderInterval;
  }

  lemma IntervalStarts(src: string, pos: nat, iv: Interval)
    requires TextAt(src, pos, RenderInterval(iv))
    ensures pos < |src| && src[pos] == '\\'
  {
    TextChar(src, pos, RenderInterval(iv), 0);
  }

  lemma FullComplement(u: Tables, flags: Flags)
    ensures Complement(UnionAll(u, flags, [], Full())) == []
  {
    hide UnionAll;
    UnionAllSpec(u, flags, [], Full());
    var all := UnionAll(u, flags, [], Full());
    ComplementSpec(all);
    IntervalRead(u, flags, Full()[0]);
    forall c ensures MIN_CODE_POINT <= c <= MAX_CODE_POINT ==> Member(c, all) {
      assert MIN_CODE_POINT <= c <= MAX_CODE_POINT ==> Read(u, flags, Full()[0], c);
    }
    CanonicalUnique(Complement(all), []);
  }

  lemma ItemsStart(s: seq<Interval>)
    requires s != []
    ensures RenderIntervals(s) != "" && RenderIntervals(s)[0] == '\\'
  {
  }

  /** A class spelt by the intervals of `s`, negated or not. */
  lemma ItemsAt(u: Tables, src: string, st: St, s: seq<Interval>, negated: bool)
    requires s != [] && AllValid(s)
    requires TextAt(src, st.pos, (if negated then "[^" else "[") + (RenderIntervals(s) + "]"))
    ensures st.pos < |src| && src[st.pos] == '['
    ensures var read := UnionAll(u, st.flags, [], s);
            ParseClass(u, src, st)
            == Ok(In(if negated then Complement(read) else read, None),
                  st.(pos := st.pos + (if negated then 3 else 2) + |RenderIntervals(s)|))
  {
    hide RenderIntervals, ReadClassItems, UnionAll, Complement, AllValid, TextAt;
    var head, items := if negated then "[^" else "[", RenderIntervals(s) + "]";
    TextSplit(src, st.pos, head, items);
    TextChar(src, st.pos, head, 0);
    if negated {
      TextChar(src, st.pos, head, 1);
    }
    ItemsStart(s);
    TextChar(src, st.pos + |head|, items, 0);
    IntervalsAt(u, src, st.pos + |head|, st.flags, [], s, true, st.pos);
  }

  lemma ClassAt(u: Tables, src: string, st: St, members: IntervalSet)
    requires Canonical(members) && TextAt(src, st.pos, RenderClass(members))
    ensures st.pos < |src| && src[st.pos] == '['
    ensures ParseClass(u, src, st)
         == Ok(In(Spelt(u, st.flags, members), None), st.(pos := st.pos + |RenderClass(members)|))
  {
    hide UnionAll, RenderIntervals, ParseClass, Complement;
    var s := if members == [] then Full() else members;
    var head, items := if members == [] then "[^" else "[", RenderIntervals(s);
    assert head + items + "]" == head + (items + "]");
    ItemsAt(u, src, st, s, members == []);
  }

  /** The quantifier's bounds come back, whatever follows it. */
  lemma QuantifierAt(src: string, pos: nat, min: nat, max: nat)
    requires min <= max <= MAX_REPEAT && TextAt(src, pos, RenderQuantifier(min, max))
    ensures pos < |src| && StartsQuantifier(src[pos])
    ensures ReadQuantifier(src, pos) == Quantifier(min, max, |RenderQuantifier(min, max)|)
  {
    TextChar(src, pos, RenderQuantifier(min, max), 0);
    if RenderQuantifier(min, max)[0] == '{' {
      BraceQuantifierAt(src, pos, min, max);
    }
  }

  lemma BraceQuantifierAt(src: string, pos: nat, min: nat, max: nat)
    requires min <= max <= MAX_REPEAT && TextAt(src, pos, RenderQuantifier(min, max))
    requires RenderQuantifier(min, max)[0] == '{'
    ensures pos < |src| && ReadQuantifier(src, pos) == Quantifier(min, max, |RenderQuantifier(min, max)|)
  {
    var low, high := Decimal(min), if max == MAX_REPEAT then "" else Decimal(max);
    var body := low + "," + high;
    assert RenderQuantifier(min, max) == "{" + body + "}";
    DecimalParses(min);
    DecimalParses(max);
    BraceBoundsAre(low, high, min, max);
    BracesAt(src, pos, body);
  }

  lemma BracesAt(src: string, pos: nat, body: string)
    requires TextAt(src, pos, "{" + body + "}")
    requires forall k :: 0 <= k < |body| ==> body[k] != '}'
    ensures ReadQuantifier(src, pos) == BraceBounds(body)
  {
    var text := "{" + body + "}";
    forall k | pos <= k < pos + 1 + |body| ensures src[k] != '}' {
      TextChar(src, pos, text, k - pos);
      assert k > pos ==> text[k - pos] == body[k - pos - 1];
    }
    TextChar(src, pos, text, 0);
    TextChar(src, pos, text, 1 + |body|);
    IndexIs(src, pos, '}', pos + 1 + |body|);
    assert text == "{" + (body + "}");
    TextSplit(src, pos, "{", body + "}");
    TextSplit(src, pos + 1, body, "}");
  }

  lemma Halves(s: string, t: string)
    ensures (s + t)[..|s|] == s && (s + t)[|s|..] == t
  {
  }

  lemma BraceBoundsAre(low: string, high: string, min: nat, max: nat)
    requires min <= max <= MAX_REPEAT
    requires AllDigits(low) && low != "" && ParseDecimal(low) == Some(min)
    requires AllDigits(high) && ParseDecimal(high) == Some(if high == "" then 0 else max)
    requires high == "" ==> max == MAX_REPEAT
    ensures var body := low + "," + high;
            && (forall k :: 0 <= k < |body| ==> body[k] != '}')
            && BraceBounds(body) == Quantifier(min, max, |body| + 2)
  {
    var body := low + "," + high;
    assert forall k :: 0 <= k < |low| ==> body[k] == low[k];
    IndexIs(body, 0, ',', |low|);
    Halves(low, "," + high);
    Halves(low + ",", high);
    assert body == low + ("," + high);
    assert IndexFrom(high, 0, ',').None?;
  }
}
