/** What the recursive-descent parser computes, as functions from a parser state to a
    node and the next state (guardcore/redos_parser.go, guardcore/redos_escape.go).
    RegexParser.dfy proves the mutating parser against them; the two theorem files are
    about them. */
module RegexGrammar {
  import opened Intervals
  import opened RegexSyntax
  import opened Texts

  datatype St = St(
    pos: nat,
    groups: nat,             // groups opened so far, counted from 1
    open: set<nat>,
    names: map<string, nat>,
    flags: Flags,
    nesting: nat,
    overflow: bool)          // some repetition number exceeded the engine limit

  datatype Parsed<T> =
    | Ok(value: T, st: St)
    | Err(kind: ErrorKind, at: int)
  {
    predicate IsFailure() { Err? }

    function PropagateFailure<U>(): Parsed<U>
      requires Err?
    {
      Err(kind, at)
    }

    function Extract(): (T, St)
      requires Ok?
    {
      (value, st)
    }
  }

  /** The parser moved forward inside the text and closed every parenthesis it opened. */
  ghost predicate Forward<T>(src: string, st: St, r: Parsed<T>) {
    r.Ok? ==> st.pos <= r.st.pos <= |src| && r.st.nesting == st.nesting
  }

  ghost predicate Advanced<T>(src: string, st: St, r: Parsed<T>) {
    r.Ok? ==> st.pos < r.st.pos <= |src| && r.st.nesting == st.nesting
  }

  // ---------------------------------------------------------------- verbose mode

  function SkipBlank(src: string, pos: nat): (r: nat)
    requires pos <= |src|
    ensures pos <= r <= |src|
    decreases |src| - pos
  {
    if pos == |src| then pos
    else if IsBlank(src[pos]) then SkipBlank(src, pos + 1)
    else if src[pos] == '#' then
      match IndexFrom(src, pos, '\n')
      case None => |src|
      case Some(eol) => SkipBlank(src, eol + 1)
    else pos
  }

  function SkipVerbose(src: string, pos: nat, flags: Flags): (r: nat)
    requires pos <= |src|
    ensures pos <= r <= |src|
  {
    if flags.verbose then SkipBlank(src, pos) else pos
  }

  // ---------------------------------------------------------------- quantifiers

  /** A decimal number no larger than the repetition limit; the empty text counts as zero. */
  function DecimalFrom(s: string, n: nat): Option<nat> {
    if s == "" then Some(n)
    else if !IsDigit(s[0]) then None
    else
      var next := n * 10 + DigitValue(s[0]);
      if next > MAX_REPEAT then None else DecimalFrom(s[1..], next)
  }

  function ParseDecimal(s: string): Option<nat> {
    DecimalFrom(s, 0)
  }

  datatype Quantifier =
    | NoQuantifier(tooLarge: bool)
    | Quantifier(min: nat, max: nat, len: nat)

  /** `m`, `m,`, `,n` or `m,n` between the braces. */
  function BraceBounds(body: string): Quantifier {
    match IndexFrom(body, 0, ',')
    case None =>
      if body == "" then NoQuantifier(false) else BraceRange(body, body, |body| + 2)
    case Some(comma) =>
      var low, high := body[..comma], body[comma + 1..];
      if IndexFrom(high, 0, ',').Some? then NoQuantifier(false)
      else if low == "" && high == "" then NoQuantifier(false)
      else BraceRange(low, high, |body| + 2)
  }

  function BraceRange(lowText: string, highText: string, len: nat): Quantifier {
    var low, high := ParseDecimal(lowText), ParseDecimal(highText);
    if low.None? || high.None? then
      NoQuantifier((low.None? && AllDigits(lowText)) || (high.None? && AllDigits(highText)))
    else
      var top := if highText == "" then MAX_REPEAT else high.value;
      if low.value > top then NoQuantifier(false) else Quantifier(low.value, top, len)
  }

  function ReadQuantifier(src: string, pos: nat): (q: Quantifier)
    requires pos < |src|
    ensures q.Quantifier? ==> 0 < q.len <= |src| - pos
  {
    match src[pos]
    case '*' => Quantifier(0, MAX_REPEAT, 1)
    case '+' => Quantifier(1, MAX_REPEAT, 1)
    case '?' => Quantifier(0, 1, 1)
    case '{' =>
      (match IndexFrom(src, pos, '}')
       case None => NoQuantifier(false)
       case Some(end) => BraceBounds(src[pos + 1..end]))
    case _ => NoQuantifier(false)
  }

  predicate StartsQuantifier(c: char) {
    c == '*' || c == '+' || c == '?' || c == '{'
  }

  /** The repetition bounds of a quantifier are in order and within the limit. */
  lemma QuantifierBounds(src: string, pos: nat)
    requires pos < |src|
    ensures var q := ReadQuantifier(src, pos); q.Quantifier? ==> q.min <= q.max <= MAX_REPEAT
  {
    if src[pos] == '{' && IndexFrom(src, pos, '}').Some? {
      var body := src[pos + 1..IndexFrom(src, pos, '}').value];
      match IndexFrom(body, 0, ',')
      case None =>
        DecimalBound(body, 0);
      case Some(comma) =>
        DecimalBound(body[..comma], 0);
        DecimalBound(body[comma + 1..], 0);
    }
  }

  lemma {:induction false} DecimalBound(s: string, n: nat)
    requires n <= MAX_REPEAT
    ensures DecimalFrom(s, n).Some? ==> DecimalFrom(s, n).value <= MAX_REPEAT
  {
    if s != "" && IsDigit(s[0]) && n * 10 + DigitValue(s[0]) <= MAX_REPEAT {
      DecimalBound(s[1..], n * 10 + DigitValue(s[0]));
    }
  }

  // ---------------------------------------------------------------- escapes

  function SimpleEscape(c: char): Option<int> {
    match c
    case 'n' => Some(10)
    case 'r' => Some(13)
    case 't' => Some(9)
    case 'f' => Some(12)
    case 'v' => Some(11)
    case 'a' => Some(7)
    case _ => None
  }

  function EscapeCategory(c: char): Option<Category> {
    match c
    case 'd' => Some(Digit)
    case 'D' => Some(NotDigit)
    case 'w' => Some(Word)
    case 'W' => Some(NotWord)
    case 's' => Some(Space)
    case 'S' => Some(NotSpace)
    case _ => None
  }

  function HexValue(s: string): nat {
    if s == "" then 0 else HexValue(s[..|s| - 1]) * 16 + HexDigitValue(s[|s| - 1])
  }

  function OctalValue(s: string): nat {
    if s == "" then 0 else OctalValue(s[..|s| - 1]) * 8 + DigitValue(s[|s| - 1])
  }

  function DecimalValue(s: string): nat {
    if s == "" then 0 else DecimalValue(s[..|s| - 1]) * 10 + DigitValue(s[|s| - 1])
  }

  /** A character read from an escape and the position after it. */
  datatype CharRead =
    | CharAt(ch: nat, next: nat)
    | CharErr(kind: ErrorKind, at: int)

  function ReadHex(src: string, pos: nat, width: nat, start: nat): (r: CharRead)
    requires pos <= |src|
    ensures r.CharAt? ==> r.next == pos + width <= |src| && r.ch <= MAX_CODE_POINT
  {
    if pos + width > |src| then CharErr(IncompleteEscape(width), start)
    else
      var text := src[pos..pos + width];
      if !(forall i :: 0 <= i < width ==> IsHexDigit(text[i])) then CharErr(IncompleteEscape(width), start)
      else if HexValue(text) > MAX_CODE_POINT then CharErr(InvalidEscapeValue(text), start)
      else CharAt(HexValue(text), pos + width)
  }

  /** The position after at most `limit` octal digits. */
  function OctalEnd(src: string, pos: nat, limit: nat): (r: nat)
    requires pos <= |src|
    ensures pos <= r <= |src| && r <= pos + limit
    decreases limit
  {
    if limit > 0 && pos < |src| && IsOctal(src[pos]) then OctalEnd(src, pos + 1, limit - 1) else pos
  }

  function OctalChar(digits: string, next: nat, start: nat): (r: CharRead)
    ensures r.CharAt? ==> r.next == next && r.ch <= 0xFF
  {
    var value := OctalValue(digits);
    if value > 0xFF then CharErr(OctalOutOfRange(digits), start) else CharAt(value, next)
  }

  /** The width of the hexadecimal escape a letter opens. */
  function HexWidth(c: char): nat {
    match c
    case 'x' => 2
    case 'u' => 4
    case 'U' => 8
    case _ => 0
  }

  ghost function LiteralNode(u: Tables, ch: int, flags: Flags): Node {
    Literal(ch, LiteralMembers(u, ch, flags))
  }

  ghost function LiteralFrom(u: Tables, st: St, r: CharRead): Parsed<Node> {
    match r
    case CharErr(kind, at) => Err(kind, at)
    case CharAt(ch, next) => Ok(LiteralNode(u, ch, st.flags), st.(pos := next))
  }

  ghost function GroupReference(st: St, group: nat, next: nat, start: nat): Parsed<Node> {
    if group >= st.groups then Err(InvalidGroupReference(group), start)
    else if group in st.open then Err(OpenGroupReference, start)
    else Ok(GroupRef(group, ""), st.(pos := next))
  }

  /** A backslash followed by a digit: an octal character or a group reference. */
  ghost function DecimalEscape(u: Tables, src: string, st: St): (r: Parsed<Node>)
    requires st.pos + 1 < |src| && IsDigit(src[st.pos + 1])
    ensures Advanced(src, st, r)
  {
    var start, p := st.pos, st.pos + 1;
    if src[p] == '0' then
      var end := OctalEnd(src, p + 1, 2);
      LiteralFrom(u, st, OctalChar(src[p..end], end, start))
    else if p + 1 < |src| && IsDigit(src[p + 1]) then
      if IsOctal(src[p]) && IsOctal(src[p + 1]) && p + 2 < |src| && IsOctal(src[p + 2]) then
        LiteralFrom(u, st, OctalChar(src[p..p + 3], p + 3, start))
      else
        GroupReference(st, DecimalValue(src[p..p + 2]), p + 2, start)
    else
      GroupReference(st, DecimalValue(src[p..p + 1]), p + 1, start)
  }

  function AnchorEscape(c: char): Option<Anchor> {
    match c
    case 'b' => Some(AtBoundary)
    case 'B' => Some(AtNonBoundary)
    case 'A' => Some(AtBeginString)
    case 'Z' => Some(AtEndString)
    case _ => None
  }

  ghost function ParseEscape(u: Tables, src: string, st: St): (r: Parsed<Node>)
    requires st.pos < |src| && src[st.pos] == '\\'
    ensures Advanced(src, st, r)
  {
    var start, p := st.pos, st.pos + 1;
    if p >= |src| then Err(BadEscape(""), start)
    else
      var c := src[p];
      if EscapeCategory(c).Some? then
        var category := EscapeCategory(c).value;
        Ok(In(CategoryMembers(u, category, st.flags), Some(category)), st.(pos := p + 1))
      else if AnchorEscape(c).Some? then Ok(At(AnchorEscape(c).value), st.(pos := p + 1))
      else if IsDigit(c) then DecimalEscape(u, src, st)
      else if HexWidth(c) > 0 then LiteralFrom(u, st, ReadHex(src, p + 1, HexWidth(c), start))
      else if c == 'N' then Err(UnknownExtension("\\N"), start)
      else if IsLetter(c) then
        match SimpleEscape(c)
        case None => Err(BadEscape([c]), start)
        case Some(ch) => Ok(LiteralNode(u, ch, st.flags), st.(pos := p + 1))
      else Ok(LiteralNode(u, c as int, st.flags), st.(pos := p + 1))
  }

  // ---------------------------------------------------------------- character classes

  datatype ClassAtom =
    | ClassChar(ch: int, next: nat)
    | ClassSet(members: IntervalSet, next: nat)
    | ClassErr(kind: ErrorKind, at: int)

  function ClassCharFrom(r: CharRead): ClassAtom {
    match r
    case CharErr(kind, at) => ClassErr(kind, at)
    case CharAt(ch, next) => ClassChar(ch, next)
  }

  ghost function ReadClassAtom(u: Tables, src: string, pos: nat, flags: Flags): (a: ClassAtom)
    requires pos < |src|
    ensures !a.ClassErr? ==> pos < a.next <= |src|
  {
    if src[pos] != '\\' then ClassChar(src[pos] as int, pos + 1)
    else
      var p := pos + 1;
      if p >= |src| then ClassErr(BadEscape(""), pos)
      else
        var e := src[p];
        if EscapeCategory(e).Some? then ClassSet(CategoryMembers(u, EscapeCategory(e).value, flags), p + 1)
        else if e == 'b' then ClassChar(8, p + 1)
        else if HexWidth(e) > 0 then ClassCharFrom(ReadHex(src, p + 1, HexWidth(e), pos))
        else if IsOctal(e) then
          var end := OctalEnd(src, p + 1, 2);
          ClassCharFrom(OctalChar(src[p..end], end, pos))
        else if e == 'N' then ClassErr(UnknownExtension("\\N"), pos)
        else if IsLetter(e) then
          match SimpleEscape(e)
          case None => ClassErr(BadEscape([e]), pos)
          case Some(ch) => ClassChar(ch, p + 1)
        else ClassChar(e as int, p + 1)
  }

  /** The members read up to the closing bracket. */
  datatype ClassRead =
    | ClassMembers(members: IntervalSet, next: nat)
    | ClassFailed(kind: ErrorKind, at: int)

  /** The rest of a range, at its upper end. */
  ghost function ReadRange(u: Tables, src: string, pos: nat, flags: Flags, low: int, start: nat): (r: ClassRead)
    requires pos < |src|
    ensures r.ClassMembers? ==> pos < r.next <= |src|
  {
    match ReadClassAtom(u, src, pos, flags)
    case ClassErr(kind, at) => ClassFailed(kind, at)
    case ClassSet(_, _) => ClassFailed(BadCharacterRange, start)
    case ClassChar(high, next) =>
      if high < low then ClassFailed(BadCharacterRange, start)
      else ClassMembers(ExpandIgnoreCase(u, Range(low, high), flags), next)
  }

  /** The code points of one member, one range or one category escape. */
  ghost function ReadClassItem(u: Tables, src: string, pos: nat, flags: Flags, start: nat): (r: ClassRead)
    requires pos < |src|
    ensures r.ClassMembers? ==> pos < r.next <= |src|
  {
    match ReadClassAtom(u, src, pos, flags)
    case ClassErr(kind, at) => ClassFailed(kind, at)
    case ClassSet(members, next) => ClassMembers(members, next)
    case ClassChar(low, next) =>
      if next + 1 < |src| && src[next] == '-' && src[next + 1] != ']' then
        ReadRange(u, src, next + 1, flags, low, start)
      else
        ClassMembers(LiteralMembers(u, low, flags), next)
  }

  ghost function ReadClassItems(
    u: Tables, src: string, pos: nat, flags: Flags, members: IntervalSet, first: bool, start: nat): (r: ClassRead)
    requires pos <= |src|
    ensures r.ClassMembers? ==> pos < r.next <= |src|
    decreases |src| - pos
  {
    if pos == |src| then ClassFailed(UnterminatedClass, start)
    else if src[pos] == ']' && !first then ClassMembers(members, pos + 1)
    else
      var item := ReadClassItem(u, src, pos, flags, start);
      if item.ClassFailed? then item
      else ReadClassItems(u, src, item.next, flags, Union(members, item.members), false, start)
  }

  ghost function ParseClass(u: Tables, src: string, st: St): (r: Parsed<Node>)
    requires st.pos < |src| && src[st.pos] == '['
    ensures Advanced(src, st, r)
  {
    var p := st.pos + 1;
    var negated := p < |src| && src[p] == '^';
    match ReadClassItems(u, src, if negated then p + 1 else p, st.flags, [], true, st.pos)
    case ClassFailed(kind, at) => Err(kind, at)
    case ClassMembers(members, next) =>
      Ok(In(if negated then Complement(members) else members, None), st.(pos := next))
  }

  // ---------------------------------------------------------------- group heads

  predicate NameChar(c: char, first: bool) {
    c == '_' || IsLetter(c) || (!first && IsDigit(c))
  }

  predicate ValidName(name: string) {
    name != "" && forall i :: 0 <= i < |name| ==> NameChar(name[i], i == 0)
  }

  function NameError(name: string): ErrorKind {
    if name == "" then MissingGroupName else BadGroupName(name)
  }

  /** The first position of `end` at or after `pos`, or the end of the text. */
  function TokenEnd(src: string, pos: nat, end: char): (r: nat)
    requires pos <= |src|
    ensures pos <= r <= |src|
  {
    match IndexFrom(src, pos, end)
    case None => |src|
    case Some(i) => i
  }

  /** The inline flag letters up to the `:` or `)` that ends them. */
  datatype FlagRun =
    | ScopedFlags(add: Flags, remove: Flags, next: nat)
    | GlobalFlags(add: Flags, remove: Flags, next: nat)
    | FlagErr(kind: ErrorKind, at: int)

  function SetFlag(flags: Flags, c: char): Option<Flags> {
    match c
    case 'i' => Some(flags.(ignoreCase := true))
    case 'm' => Some(flags.(multiline := true))
    case 's' => Some(flags.(dotAll := true))
    case 'a' => Some(flags.(ascii := true))
    case 'L' => Some(flags.(locale := true))
    case 'x' => Some(flags.(verbose := true))
    case 'u' => Some(flags)
    case _ => None
  }

  function ReadFlags(src: string, pos: nat, add: Flags, remove: Flags, negative: bool, open: nat): (r: FlagRun)
    requires pos <= |src|
    ensures !r.FlagErr? ==> pos < r.next <= |src|
    decreases |src| - pos
  {
    if pos == |src| then FlagErr(UnknownFlag, open)
    else
      var c := src[pos];
      if SetFlag(add, c).Some? then
        if negative then ReadFlags(src, pos + 1, add, SetFlag(remove, c).value, negative, open)
        else ReadFlags(src, pos + 1, SetFlag(add, c).value, remove, negative, open)
      else if c == '-' then
        if negative then FlagErr(FlagsNotAtStart, open)
        else ReadFlags(src, pos + 1, add, remove, true, open)
      else if c == ':' then ScopedFlags(add, remove, pos + 1)
      else if c == ')' then
        if open != 0 then FlagErr(FlagsNotAtStart, open) else GlobalFlags(add, remove, pos + 1)
      else FlagErr(UnknownFlag, pos)
  }

  // ---------------------------------------------------------------- the grammar

  // From here on `open` is the position of the parenthesis that opened the group.

  /** A back-reference by name, just past `(?P=`. */
  ghost function NamedReference(src: string, st: St, open: nat): (r: Parsed<Node>)
    requires st.pos <= |src|
    ensures Advanced(src, st, r)
  {
    var end := TokenEnd(src, st.pos, ')');
    var name := src[st.pos..end];
    if !ValidName(name) then Err(NameError(name), end - |name|)
    else if end >= |src| then Err(UnterminatedName, open)
    else if name !in st.names then Err(UnknownGroupName(name), open + 3)
    else Ok(GroupRef(st.names[name], name), st.(pos := end + 1))
  }

  /** The text between the parentheses of a group, the closing one included. */
  ghost function ParseGroupBody(u: Tables, src: string, st: St, open: nat): (r: Parsed<seq<Node>>)
    requires st.pos <= |src|
    ensures Advanced(src, st, r)
    decreases |src| - st.pos, 7
  {
    if st.nesting + 1 > MAX_GROUP_NESTING_DEPTH then Err(NestingTooDeep, open)
    else
      var (body, st1) :- ParseAlternations(u, src, st.(nesting := st.nesting + 1));
      if st1.pos >= |src| || src[st1.pos] != ')' then Err(UnterminatedSubpattern, open)
      else Ok(body, st1.(pos := st1.pos + 1, nesting := st1.nesting - 1))
  }

  function OpenGroup(st: St, name: string): St {
    var idx := st.groups;
    st.(groups := idx + 1,
        open := st.open + {idx},
        names := if name == "" then st.names else st.names[name := idx])
  }

  /** A capturing group, at the start of its body. */
  ghost function CaptureGroup(u: Tables, src: string, st: St, name: string, open: nat): (r: Parsed<Option<Node>>)
    requires st.pos <= |src|
    ensures Advanced(src, st, r)
    decreases |src| - st.pos, 8
  {
    var (body, st1) :- ParseGroupBody(u, src, OpenGroup(st, name), open);
    Ok(Some(SubPattern(st.groups, name, body)), st1.(open := st1.open - {st.groups}))
  }

  /** A capturing group with a name, just past `(?P<`. */
  ghost function NamedGroup(u: Tables, src: string, st: St, open: nat): (r: Parsed<Option<Node>>)
    requires st.pos <= |src|
    ensures Advanced(src, st, r)
    decreases |src| - st.pos, 9
  {
    var end := TokenEnd(src, st.pos, '>');
    var name := src[st.pos..end];
    if !ValidName(name) then Err(NameError(name), st.pos)
    else if end >= |src| then Err(UnterminatedName, open)
    else if name in st.names then Err(RedefinedGroupName(name), st.pos)
    else CaptureGroup(u, src, st.(pos := end + 1), name, open)
  }

  ghost function Lookaround(
    u: Tables, src: string, st: St, behind: bool, negative: bool, open: nat): (r: Parsed<Option<Node>>)
    requires st.pos <= |src|
    ensures Advanced(src, st, r)
    decreases |src| - st.pos, 8
  {
    var (body, st1) :- ParseGroupBody(u, src, st, open);
    Ok(Some(Assert(behind, negative, body)), st1)
  }

  ghost function PlainGroup(u: Tables, src: string, st: St, open: nat): (r: Parsed<Option<Node>>)
    requires st.pos <= |src|
    ensures Advanced(src, st, r)
    decreases |src| - st.pos, 8
  {
    var (body, st1) :- ParseGroupBody(u, src, st, open);
    Ok(Some(SubPattern(0, "", body)), st1)
  }

  ghost function InlineFlags(u: Tables, src: string, st: St, open: nat): (r: Parsed<Option<Node>>)
    requires st.pos <= |src|
    ensures Advanced(src, st, r)
    decreases |src| - st.pos, 9
  {
    match ReadFlags(src, st.pos, NO_FLAGS, NO_FLAGS, false, open)
    case FlagErr(kind, at) => Err(kind, at)
    case GlobalFlags(add, remove, next) => Ok(None, st.(pos := next, flags := ApplyFlags(st.flags, add, remove)))
    case ScopedFlags(add, remove, next) =>
      var (node, st1) :- PlainGroup(u, src, st.(pos := next, flags := ApplyFlags(st.flags, add, remove)), open);
      Ok(node, st1.(flags := st.flags))
  }

  ghost function SomeNode(r: Parsed<Node>): Parsed<Option<Node>> {
    match r
    case Err(kind, at) => Err(kind, at)
    case Ok(node, st) => Ok(Some(node), st)
  }

  /** A construct of the form `(?P...`, at the byte after the `P`. */
  ghost function PythonExtension(u: Tables, src: string, st: St, open: nat): (r: Parsed<Option<Node>>)
    requires st.pos <= |src|
    ensures Advanced(src, st, r)
    decreases |src| - st.pos, 10
  {
    if st.pos >= |src| then Err(UnknownExtension("?P"), open)
    else if src[st.pos] == '<' then NamedGroup(u, src, st.(pos := st.pos + 1), open)
    else if src[st.pos] == '=' then SomeNode(NamedReference(src, st.(pos := st.pos + 1), open))
    else Err(UnknownExtension("?P" + [src[st.pos]]), open)
  }

  /** A construct of the form `(?...`, at the byte after the `?`. */
  ghost function Extension(u: Tables, src: string, st: St, open: nat): (r: Parsed<Option<Node>>)
    requires st.pos <= |src|
    ensures Advanced(src, st, r)
    decreases |src| - st.pos, 11
  {
    if st.pos >= |src| then Err(UnknownExtension("?"), open)
    else
      var p := st.pos + 1;
      match src[st.pos]
      case 'P' => PythonExtension(u, src, st.(pos := p), open)
      case '<' =>
        if p < |src| && (src[p] == '=' || src[p] == '!') then
          Lookaround(u, src, st.(pos := p + 1), true, src[p] == '!', open)
        else Err(UnknownExtension("?<"), open)
      case '=' => Lookaround(u, src, st.(pos := p), false, false, open)
      case '!' => Lookaround(u, src, st.(pos := p), false, true, open)
      case ':' => PlainGroup(u, src, st.(pos := p), open)
      case '#' =>
        (match IndexFrom(src, st.pos, ')')
         case None => Err(UnterminatedComment, open)
         case Some(end) => Ok(None, st.(pos := end + 1)))
      case '>' => Err(UnknownExtension("?>"), open)
      case '(' => Err(UnknownExtension("?("), open)
      case _ => InlineFlags(u, src, st, open)
  }

  /** `None` is a comment or a run of global flags. */
  ghost function ParseGroup(u: Tables, src: string, st: St): (r: Parsed<Option<Node>>)
    requires st.pos < |src| && src[st.pos] == '('
    ensures Advanced(src, st, r)
    decreases |src| - st.pos, 2
  {
    var open, p := st.pos, st.pos + 1;
    if p >= |src| then Err(UnterminatedSubpattern, open)
    else if src[p] != '?' then CaptureGroup(u, src, st.(pos := p), "", open)
    else Extension(u, src, st.(pos := p + 1), open)
  }

  ghost function ParseAtom(u: Tables, src: string, st: St): (r: Parsed<Option<Node>>)
    requires st.pos < |src|
    ensures Forward(src, st, r)
    ensures src[st.pos] != ')' ==> Advanced(src, st, r)
    decreases |src| - st.pos, 3
  {
    var c := src[st.pos];
    if c == '*' || c == '+' || c == '?' then Err(NothingToRepeat, st.pos)
    else if c == '{' then
      var q := ReadQuantifier(src, st.pos);
      if q.Quantifier? then Err(NothingToRepeat, st.pos)
      else Ok(Some(LiteralNode(u, c as int, st.flags)), st.(pos := st.pos + 1, overflow := st.overflow || q.tooLarge))
    else if c == '^' then Ok(Some(At(AtBeginning)), st.(pos := st.pos + 1))
    else if c == '$' then Ok(Some(At(AtEnd)), st.(pos := st.pos + 1))
    else if c == '[' then SomeNode(ParseClass(u, src, st))
    else if c == '(' then ParseGroup(u, src, st)
    else if c == ')' then Ok(None, st)
    else if c == '\\' then SomeNode(ParseEscape(u, src, st))
    else if c == '.' then Ok(Some(Any(AnyMembers(st.flags))), st.(pos := st.pos + 1))
    else Ok(Some(LiteralNode(u, c as int, st.flags)), st.(pos := st.pos + 1))
  }

  /** The rest of a repetition, just past its quantifier: the lazy mark, and no second quantifier. */
  ghost function FinishRepeat(src: string, repeat: Node, st: St): (r: Parsed<Node>)
    requires st.pos <= |src| && repeat.Repeat?
    ensures Forward(src, st, r)
  {
    var lazy := st.pos < |src| && src[st.pos] == '?';
    var next := if lazy then st.pos + 1 else st.pos;
    var q := if next < |src| then ReadQuantifier(src, next) else NoQuantifier(false);
    if q.Quantifier? then Err(MultipleRepeat, next)
    else Ok(repeat.(lazy := lazy), st.(pos := next, overflow := st.overflow || q.tooLarge))
  }

  /** What may follow an atom: nothing or one quantifier. */
  ghost function Quantify(src: string, atom: Node, st: St): (r: Parsed<Node>)
    requires st.pos <= |src|
    ensures Forward(src, st, r)
  {
    if st.pos == |src| || !StartsQuantifier(src[st.pos]) then Ok(atom, st)
    else
      match ReadQuantifier(src, st.pos)
      case NoQuantifier(tooLarge) =>
        if st.overflow || tooLarge then Err(RepetitionTooLarge, st.pos) else Ok(atom, st)
      case Quantifier(min, max, len) =>
        if atom.At? then Err(NothingToRepeat, st.pos)
        else if atom.Repeat? then Err(MultipleRepeat, st.pos)
        else FinishRepeat(src, Repeat(min, max, false, [atom]), st.(pos := st.pos + len))
  }

  ghost function ParseItem(u: Tables, src: string, st: St): (r: Parsed<Option<Node>>)
    requires st.pos < |src| && src[st.pos] != ')'
    ensures Advanced(src, st, r)
    decreases |src| - st.pos, 4
  {
    var p := SkipVerbose(src, st.pos, st.flags);
    if p == |src| then Ok(None, st.(pos := p))
    else
      var (atom, st1) :- ParseAtom(u, src, st.(pos := p));
      match atom
      case None => Ok(None, st1)
      case Some(node) =>
        SomeNode(Quantify(src, node, st1.(pos := SkipVerbose(src, st1.pos, st1.flags))))
  }

  function Prepend(nodes: seq<Node>, r: Parsed<seq<Node>>): Parsed<seq<Node>> {
    match r
    case Err(kind, at) => r
    case Ok(rest, st) => Ok(nodes + rest, st)
  }

  function Listed(item: Option<Node>): seq<Node> {
    match item
    case None => []
    case Some(node) => [node]
  }

  predicate EndsSequence(src: string, pos: nat) {
    pos >= |src| || src[pos] == '|' || src[pos] == ')'
  }

  ghost function ParseSequence(u: Tables, src: string, st: St): (r: Parsed<seq<Node>>)
    requires st.pos <= |src|
    ensures Forward(src, st, r)
    ensures r.Ok? ==> EndsSequence(src, r.st.pos)
    decreases |src| - st.pos, 5
  {
    if EndsSequence(src, st.pos) then Ok([], st)
    else
      var (item, st1) :- ParseItem(u, src, st);
      Prepend(Listed(item), ParseSequence(u, src, st1))
  }

  function PrependBranches(done: seq<Alternative>, r: Parsed<seq<Alternative>>): Parsed<seq<Alternative>> {
    match r
    case Err(kind, at) => r
    case Ok(rest, st) => Ok(done + rest, st)
  }

  ghost function ParseBranches(u: Tables, src: string, st: St): (r: Parsed<seq<Alternative>>)
    requires st.pos <= |src|
    ensures Forward(src, st, r)
    ensures r.Ok? ==> r.value != [] && (r.st.pos < |src| ==> src[r.st.pos] == ')')
    decreases |src| - st.pos, 6, 0
  {
    var (nodes, st1) :- ParseSequence(u, src, st);
    if st1.pos >= |src| || src[st1.pos] != '|' then Ok([Alternative(nodes)], st1)
    else PrependBranches([Alternative(nodes)], ParseBranches(u, src, st1.(pos := st1.pos + 1)))
  }

  function JoinBranches(branches: seq<Alternative>): seq<Node> {
    if |branches| == 1 then branches[0].nodes else [Branch(branches)]
  }

  ghost function ParseAlternations(u: Tables, src: string, st: St): (r: Parsed<seq<Node>>)
    requires st.pos <= |src|
    ensures Forward(src, st, r)
    ensures r.Ok? ==> (r.st.pos < |src| ==> src[r.st.pos] == ')')
    decreases |src| - st.pos, 6, 1
  {
    var (branches, st1) :- ParseBranches(u, src, st);
    Ok(JoinBranches(branches), st1)
  }

  function Initial(flags: Flags): St {
    St(0, 1, {}, map[], flags, 0, false)
  }

  ghost function ParsePattern(u: Tables, pattern: string, flags: Flags): Parsed<seq<Node>> {
    var (nodes, st) :- ParseAlternations(u, pattern, Initial(flags));
    if st.pos < |pattern| then Err(UnbalancedParenthesis, st.pos) else Ok(nodes, st)
  }
}
