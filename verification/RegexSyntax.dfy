/** The syntax tree and the character sets of the Python-compatible regex parser
    (guardcore/redos_parser.go, guardcore/redos_escape.go).

    Pattern text is a Go string, so a `char` of a pattern stands for one byte. */
module RegexSyntax {
  import opened Intervals
  import opened Texts

  /** The repetition bound that stands for "unbounded". */
  const MAX_REPEAT := 0x1_0000_0000

  const MAX_GROUP_NESTING_DEPTH := 20

  datatype Flags = Flags(ignoreCase: bool, multiline: bool, dotAll: bool, ascii: bool, locale: bool, verbose: bool)

  const NO_FLAGS := Flags(false, false, false, false, false, false)

  /** `(flags | add) &^ remove` */
  function ApplyFlags(flags: Flags, add: Flags, remove: Flags): Flags {
    Flags((flags.ignoreCase || add.ignoreCase) && !remove.ignoreCase,
          (flags.multiline || add.multiline) && !remove.multiline,
          (flags.dotAll || add.dotAll) && !remove.dotAll,
          (flags.ascii || add.ascii) && !remove.ascii,
          (flags.locale || add.locale) && !remove.locale,
          (flags.verbose || add.verbose) && !remove.verbose)
  }

  datatype Anchor = AtBeginning | AtEnd | AtBoundary | AtNonBoundary | AtBeginString | AtEndString

  datatype Category = Digit | NotDigit | Space | NotSpace | Word | NotWord

  datatype Node =
    | Literal(ch: int, members: IntervalSet)
    | Any(members: IntervalSet)
    | In(members: IntervalSet, category: Option<Category>)
    | Repeat(min: nat, max: nat, lazy: bool, body: seq<Node>)
    | Branch(branches: seq<Alternative>)
    | SubPattern(groupIdx: nat, groupName: string, body: seq<Node>)
    | Assert(behind: bool, negative: bool, body: seq<Node>)
    | At(anchor: Anchor)
    | GroupRef(refIdx: nat, refName: string)

  datatype Alternative = Alternative(nodes: seq<Node>)

  datatype ErrorKind =
    | UnbalancedParenthesis
    | NothingToRepeat
    | MultipleRepeat
    | RepetitionTooLarge
    | UnterminatedSubpattern
    | UnterminatedName
    | UnterminatedComment
    | UnknownExtension(text: string)
    | NestingTooDeep
    | MissingGroupName
    | BadGroupName(name: string)
    | UnknownGroupName(name: string)
    | RedefinedGroupName(name: string)
    | FlagsNotAtStart
    | UnknownFlag
    | BadEscape(text: string)
    | IncompleteEscape(width: nat)
    | InvalidEscapeValue(text: string)
    | OctalOutOfRange(digits: string)
    | OpenGroupReference
    | InvalidGroupReference(group: nat)
    | UnterminatedClass
    | BadCharacterRange

  // ---------------------------------------------------------------- bytes

  predicate IsOctal(c: char) { '0' <= c <= '7' }

  predicate IsLetter(c: char) { 'a' <= c <= 'z' || 'A' <= c <= 'Z' }

  /** Space, tab, newline, vertical tab, form feed, carriage return. */
  predicate IsBlank(c: char) { c == ' ' || 9 <= c as int <= 13 }

  function DigitValue(c: char): nat {
    if IsDigit(c) then c as int - '0' as int else 0
  }

  /** The first position of `c` at or after `from`. */
  function IndexFrom(s: string, from: nat, c: char): (r: Option<nat>)
    ensures r.Some? ==> from <= r.value < |s| && s[r.value] == c && forall k :: from <= k < r.value ==> s[k] != c
    ensures r.None? ==> forall k :: from <= k < |s| ==> s[k] != c
    decreases |s| - from
  {
    if from >= |s| then None
    else if s[from] == c then Some(from)
    else IndexFrom(s, from + 1, c)
  }

  // ---------------------------------------------------------------- character sets

  /** The tables of Go's `unicode` package. */
  datatype Tables = Tables(
    digit: int -> bool,
    space: int -> bool,
    letterOrNumber: int -> bool,
    lower: int -> int,
    upper: int -> int)

  predicate IsCodePoint(c: int) { MIN_CODE_POINT <= c <= MAX_CODE_POINT }

  /** Case mapping leads from code points to code points. */
  ghost predicate Sane(u: Tables) {
    forall c :: IsCodePoint(c) ==> IsCodePoint(u.lower(c)) && IsCodePoint(u.upper(c))
  }

  predicate InCategory(u: Tables, category: Category, ascii: bool, c: int) {
    match category
    case Digit => if ascii then '0' as int <= c <= '9' as int else u.digit(c)
    case NotDigit => !(if ascii then '0' as int <= c <= '9' as int else u.digit(c))
    case Space => if ascii then c == ' ' as int || 9 <= c <= 13 else u.space(c)
    case NotSpace => !(if ascii then c == ' ' as int || 9 <= c <= 13 else u.space(c))
    case Word => InWord(u, ascii, c)
    case NotWord => !InWord(u, ascii, c)
  }

  predicate InWord(u: Tables, ascii: bool, c: int) {
    || c == '_' as int
    || if ascii then '0' as int <= c <= '9' as int || 'a' as int <= c <= 'z' as int || 'A' as int <= c <= 'Z' as int
       else u.letterOrNumber(c)
  }

  /** The canonical list of the code points that satisfy `p`. */
  ghost function CodePointsWhere(p: int -> bool): (s: IntervalSet)
    ensures Canonical(s)
    ensures forall c :: Member(c, s) <==> IsCodePoint(c) && p(c)
  {
    CodePointsExist(p, MAX_CODE_POINT + 1);
    var s :| Canonical(s) && forall c :: Member(c, s) <==> 0 <= c < MAX_CODE_POINT + 1 && p(c);
    s
  }

  lemma {:induction false} CodePointsExist(p: int -> bool, n: nat)
    requires n <= MAX_CODE_POINT + 1
    ensures exists s :: Canonical(s) && forall c :: Member(c, s) <==> 0 <= c < n && p(c)
  {
    if n == 0 {
      var s: IntervalSet := [];
      assert Canonical(s) && forall c :: Member(c, s) <==> 0 <= c < n && p(c);
    } else {
      CodePointsExist(p, n - 1);
      var s :| Canonical(s) && forall c :: Member(c, s) <==> 0 <= c < n - 1 && p(c);
      if p(n - 1) {
        InsertSpec(Interval(n - 1, n - 1), s);
        var t := Insert(Interval(n - 1, n - 1), s);
        assert Canonical(t) && forall c :: Member(c, t) <==> 0 <= c < n && p(c);
      } else {
        assert Canonical(s) && forall c :: Member(c, s) <==> 0 <= c < n && p(c);
      }
    }
  }

  /** A list with the members of `CodePointsWhere(p)` that is canonical is that list. */
  lemma CodePointsUnique(p: int -> bool, s: IntervalSet)
    requires Canonical(s)
    requires forall c :: Member(c, s) <==> IsCodePoint(c) && p(c)
    ensures s == CodePointsWhere(p)
  {
    CanonicalUnique(s, CodePointsWhere(p));
  }

  /** How many members of one interval are looked up in the case tables. */
  const CASE_SCAN := 4096

  ghost predicate Scanned(m: int, iv: Interval) {
    iv.low <= m <= iv.high && m < iv.low + CASE_SCAN
  }

  /** `c` is a member, or the other case of a scanned member. */
  ghost predicate InCaseClosure(u: Tables, s: IntervalSet, c: int) {
    || Member(c, s)
    || exists m, i :: 0 <= i < |s| && Scanned(m, s[i]) && (u.lower(m) == c || u.upper(m) == c)
  }

  ghost function CaseClosure(u: Tables, s: IntervalSet): IntervalSet {
    CodePointsWhere(c => InCaseClosure(u, s, c))
  }

  ghost function ExpandIgnoreCase(u: Tables, s: IntervalSet, flags: Flags): IntervalSet {
    if flags.ignoreCase then CaseClosure(u, s) else s
  }

  ghost function CategoryMembers(u: Tables, category: Category, flags: Flags): IntervalSet {
    var s := CodePointsWhere(c => InCategory(u, category, flags.ascii, c));
    if flags.ignoreCase && !flags.ascii then CaseClosure(u, s) else s
  }

  ghost function AnyMembers(flags: Flags): IntervalSet {
    if flags.dotAll then Full() else Difference(Full(), Single('\n' as int))
  }

  ghost function LiteralMembers(u: Tables, ch: int, flags: Flags): IntervalSet {
    ExpandIgnoreCase(u, Single(ch), flags)
  }

  lemma MembersCanonical(u: Tables, category: Category, ch: int, s: IntervalSet, flags: Flags)
    requires IsCodePoint(ch) && Canonical(s)
    ensures Canonical(CategoryMembers(u, category, flags))
    ensures Canonical(LiteralMembers(u, ch, flags))
    ensures Canonical(ExpandIgnoreCase(u, s, flags))
    ensures Canonical(AnyMembers(flags))
  {
    assert Canonical(Single(ch));
    if !flags.dotAll {
      DifferenceSpec(Full(), Single('\n' as int));
    }
  }
}
