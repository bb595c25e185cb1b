/** The two walks over broad scans and their terminators (guardcore/redos_terminator.go,
    guardcore/redos_structure.go:13-29, 133-148). */
module Terminator {
  import opened Texts

  type Rune = int

  /** The characters of a class body, undecoded escapes and all: UTF-8 decoding is taken as given. */
  datatype Decoder = Decoder(runes: string -> set<Rune>)

  // ---------------------------------------------------------------- classes and quantifiers

  function ClassEnd(text: string, j: nat): (end: nat)
    requires j <= |text|
    ensures j <= end <= |text|
    decreases |text| - j
  {
    if j == |text| then j
    else if text[j] == ']' then j + 1
    else if text[j] == '\\' && j + 1 < |text| then ClassEnd(text, j + 2)
    else ClassEnd(text, j + 1)
  }

  /** Just past a bracketed class that starts at `i`. */
  function SkipClass(text: string, i: nat): (end: nat)
    requires i < |text|
    ensures i < end <= |text|
  {
    ClassEnd(text, i + 1)
  }

  method SkipCharClass(text: string, i: nat) returns (j: nat)
    requires i < |text|
    ensures j == SkipClass(text, i)
  {
    j := i + 1;
    while j < |text| && text[j] != ']'
      invariant j <= |text| && ClassEnd(text, i + 1) == ClassEnd(text, j)
    {
      if text[j] == '\\' && j + 1 < |text| {
        j := j + 2;
        continue;
      }
      j := j + 1;
    }
    if j < |text| {
      j := j + 1;
    }
  }

  /** The text between the braces that open at `k`. */
  function BraceBody(text: string, k: nat): Option<string>
    requires k < |text| && text[k] == '{'
  {
    var at := IndexByte(text[k..], '}');
    if at < 0 then None else Some(text[k + 1..k + at])
  }

  function LazyMark(text: string, end: nat): nat {
    if end < |text| && text[end] == '?' then 1 else 0
  }

  function QuantifierLen(text: string, k: nat): (n: nat)
    ensures k <= |text| ==> k + n <= |text|
  {
    if k >= |text| then 0
    else if text[k] == '*' || text[k] == '+' || text[k] == '?' then 1 + LazyMark(text, k + 1)
    else if text[k] == '{' then
      var body := BraceBody(text, k);
      if body.None? then 0
      else
        var parts := Split(body.value, ',');
        if (exists p :: 0 <= p < |parts| && !AllDigits(parts[p])) || (forall p :: 0 <= p < |parts| ==> parts[p] == "")
        then 0
        else |body.value| + 2 + LazyMark(text, k + |body.value| + 2)
    else 0
  }

  predicate AllowsZero(text: string, k: nat) {
    && QuantifierLen(text, k) != 0
    && (text[k] == '*' || text[k] == '?' ||
        (text[k] == '{' && BraceBody(text, k).Some? && Split(BraceBody(text, k).value, ',')[0] in {"", "0"}))
  }

  /** Whether an unbounded repetition stands at `k`. */
  predicate Unbounded(text: string, k: nat) {
    k < |text| &&
    (text[k] == '*' || text[k] == '+' ||
     (text[k] == '{' && BraceBody(text, k).Some? &&
      var parts := Split(BraceBody(text, k).value, ','); |parts| > 1 && parts[1] == ""))
  }

  method SkipQuantifierAt(text: string, k: nat) returns (n: nat)
    ensures n == QuantifierLen(text, k)
  {
    if k >= |text| {
      return 0;
    }
    if text[k] == '*' || text[k] == '+' || text[k] == '?' {
      var end := k + 1;
      if end < |text| && text[end] == '?' {
        end := end + 1;
      }
      return end - k;
    }
    if text[k] == '{' {
      n := SkipBraceQuantifierAt(text, k);
      return;
    }
    return 0;
  }

  method SkipBraceQuantifierAt(text: string, k: nat) returns (n: nat)
    requires k < |text| && text[k] == '{'
    ensures n == QuantifierLen(text, k)
  {
    var endBrace := IndexByte(text[k..], '}');
    if endBrace == -1 {
      return 0;
    }
    endBrace := endBrace + k;
    var parts := Split(text[k + 1..endBrace], ',');
    for p := 0 to |parts|
      invariant forall q :: 0 <= q < p ==> AllDigits(parts[q])
    {
      if parts[p] != "" && !AllDigits(parts[p]) {
        return 0;
      }
    }
    var allEmpty := true;
    for p := 0 to |parts|
      invariant allEmpty <==> forall q :: 0 <= q < p ==> parts[q] == ""
    {
      if parts[p] != "" {
        allEmpty := false;
        break;
      }
    }
    if allEmpty {
      return 0;
    }
    var end := endBrace + 1;
    if end < |text| && text[end] == '?' {
      end := end + 1;
    }
    return end - k;
  }

  // ---------------------------------------------------------------- scans and terminators

  const PREFIX_RESET_CHARS := "()|^$"
  const NON_LITERAL_LEADERS := "()|^$.*+?{"

  predicate IsAlnum(c: char) {
    '0' <= c <= '9' || 'a' <= c <= 'z' || 'A' <= c <= 'Z' || c > '\U{7F}'
  }

  /** The characters that can end a scan whose terminator stands at `j`; none when undecidable. */
  function TerminatorChars(d: Decoder, text: string, j: nat): Option<set<Rune>> {
    if j >= |text| then None
    else if text[j] == '[' then
      var end := SkipClass(text, j);
      if end - 1 <= j + 1 then None
      else if text[j + 1] == '^' then None
      else Some(d.runes(text[j + 1..end - 1]))
    else if text[j] == '\\' && j + 1 < |text| then
      if IsAlnum(text[j + 1]) then None else Some({text[j + 1] as int})
    else if text[j] in NON_LITERAL_LEADERS then None
    else Some({text[j] as int})
  }

  /** Where a dot or a class ends, and which characters it excludes; none unless it is broad. */
  datatype Broad = Broad(end: nat, excluded: Option<set<Rune>>)

  function BroadScan(d: Decoder, text: string, i: nat): (b: Broad)
    requires i < |text| && (text[i] == '[' || text[i] == '.')
    ensures i < b.end <= |text|
  {
    if text[i] == '.' then Broad(i + 1, Some({}))
    else
      var end := SkipClass(text, i);
      if end - 1 <= i + 1 || text[i + 1] != '^' then Broad(end, None)
      else Broad(end, Some(d.runes(text[i + 2..end - 1])))
  }

  /** A broad scan from `start` to `end`, repeated without bound, behind the literals `prefix`. */
  datatype Finding = Finding(start: nat, end: nat, prefix: set<Rune>, excluded: set<Rune>, terminator: set<Rune>)

  function ClassFinding(
    d: Decoder, text: string, i: nat, end: nat, prefix: set<Rune>, excluded: set<Rune>): Option<Finding>
    requires i < end <= |text|
  {
    if !Unbounded(text, end) then None
    else
      var terminator := TerminatorChars(d, text, end + QuantifierLen(text, end));
      if terminator.None? || prefix == {} then None
      else if prefix !! excluded && prefix !! terminator.value then
        Some(Finding(i, end, prefix, excluded, terminator.value))
      else None
  }

  datatype Move = Move(next: nat, prefix: set<Rune>, finding: Option<Finding>)

  /** One step of the walk. */
  function Step(d: Decoder, text: string, i: nat, prefix: set<Rune>): (m: Move)
    requires i < |text|
    ensures i < m.next <= |text|
  {
    var c := text[i];
    if c == '(' then
      if "?:" <= text[i + 1..] then Move(i + 3, prefix, None)
      else if i + 1 < |text| && text[i + 1] == '?' then
        var at := IndexByte(text[i..], ')');
        Move(if at < 0 then i + 1 else i + at + 1, {}, None)
      else Move(i + 1, prefix, None)
    else if c in PREFIX_RESET_CHARS then Move(i + 1, {}, None)
    else if c == '[' || c == '.' then
      var b := BroadScan(d, text, i);
      var past := b.end + QuantifierLen(text, b.end);
      if b.excluded.None? then Move(past, {}, None)
      else
        var finding := ClassFinding(d, text, i, b.end, prefix, b.excluded.value);
        if finding.Some? then Move(b.end, prefix, finding) else Move(past, {}, None)
    else if c == '\\' && i + 1 < |text| then
      var past := i + 2 + QuantifierLen(text, i + 2);
      if !IsAlnum(text[i + 1]) then Move(past, prefix + {text[i + 1] as int}, None)
      else if AllowsZero(text, i + 2) then Move(past, prefix, None)
      else Move(past, {}, None)
    else Move(i + 1 + QuantifierLen(text, i + 1), prefix + {c as int}, None)
  }

  /** The first finding from `i` on. */
  function Walk(d: Decoder, text: string, i: nat, prefix: set<Rune>): Option<Finding>
    requires i <= |text|
    decreases |text| - i
  {
    if i == |text| then None
    else
      var m := Step(d, text, i, prefix);
      if m.finding.Some? then m.finding else Walk(d, text, m.next, m.prefix)
  }

  /** The scan excludes something, and whatever can end it is among that. */
  predicate ExcludesTerminator(f: Finding) {
    f.excluded != {} && f.terminator <= f.excluded
  }

  // ---------------------------------------------------------------- the first walk

  method UnreachableTerminatorWalk(d: Decoder, pattern: string) returns (finding: Option<Finding>)
    ensures finding == Walk(d, pattern, 0, {})
  {
    hide Step, Walk;
    var prefix: set<Rune> := {};
    var i := 0;
    while i < |pattern|
      invariant i <= |pattern| && Walk(d, pattern, i, prefix) == Walk(d, pattern, 0, {})
    {
      WalkUnfold(d, pattern, i, prefix);
      var m := Step(d, pattern, i, prefix);
      StepAdvances(d, pattern, i, prefix);
      i := m.next;
      prefix := m.prefix;
      if m.finding.Some? {
        return m.finding;
      }
    }
    WalkEnd(d, pattern, prefix);
    finding := None;
  }

  lemma WalkUnfold(d: Decoder, text: string, i: nat, prefix: set<Rune>)
    requires i < |text|
    ensures var m := Step(d, text, i, prefix);
            && m.next <= |text|
            && Walk(d, text, i, prefix) == if m.finding.Some? then m.finding else Walk(d, text, m.next, m.prefix)
  {
    hide Step;
    StepAdvances(d, text, i, prefix);
  }

  lemma WalkEnd(d: Decoder, text: string, prefix: set<Rune>)
    ensures Walk(d, text, |text|, prefix) == None
  {
  }

  lemma StepAdvances(d: Decoder, text: string, i: nat, prefix: set<Rune>)
    requires i < |text|
    ensures i < Step(d, text, i, prefix).next <= |text|
  {
  }

  // ---------------------------------------------------------------- the second walk

  /** What the second walk answers, said of the first. */
  predicate CoveredFinding(d: Decoder, pattern: string) {
    var finding := Walk(d, pattern, 0, {});
    finding.Some? && ExcludesTerminator(finding.value)
  }

  /** Written as a loop of its own, this walk moves in lockstep with the first: it answers true exactly
      when the first reports a scan that excludes every character that can end it. */
  method UnreachableTerminatorExcludedScan(d: Decoder, pattern: string) returns (covered: bool)
    ensures covered <==> CoveredFinding(d, pattern)
  {
    hide Walk, BroadScan, ClassFinding, TerminatorChars, QuantifierLen, AllowsZero, IsAlnum, IndexByte;
    var prefix: set<Rune> := {};
    var i := 0;
    while i < |pattern|
      invariant i <= |pattern| && Walk(d, pattern, i, prefix) == Walk(d, pattern, 0, {})
    {
      WalkUnfold(d, pattern, i, prefix);
      var c := pattern[i];
      if c == '(' {
        if "?:" <= pattern[i + 1..] {
          i := i + 3;
          continue;
        }
        if i + 1 < |pattern| && pattern[i + 1] == '?' {
          var endParen := IndexByte(pattern[i..], ')');
          if endParen == -1 {
            i := i + 1;
          } else {
            i := i + endParen + 1;
          }
          prefix := {};
          continue;
        }
        i := i + 1;
      } else if c in PREFIX_RESET_CHARS {
        i := i + 1;
        prefix := {};
      } else if c == '[' || c == '.' {
        var b := BroadScan(d, pattern, i);
        if b.excluded.None? {
          i := b.end + QuantifierLen(pattern, b.end);
          prefix := {};
          continue;
        }
        var finding := ClassFinding(d, pattern, i, b.end, prefix, b.excluded.value);
        if finding.Some? {
          FindingSays(d, pattern, i, b.end, prefix, b.excluded.value);
          var termPos := b.end + QuantifierLen(pattern, b.end);
          var terminator := TerminatorChars(d, pattern, termPos);
          if b.excluded.value != {} && terminator.Some? {
            if terminator.value <= b.excluded.value {
              return true;
            }
          }
          return false;
        }
        i := b.end + QuantifierLen(pattern, b.end);
        prefix := {};
      } else if c == '\\' && i + 1 < |pattern| {
        var tokenEnd := i + 2;
        if !IsAlnum(pattern[i + 1]) {
          prefix := prefix + {pattern[i + 1] as int};
        } else if !AllowsZero(pattern, tokenEnd) {
          prefix := {};
        }
        i := tokenEnd + QuantifierLen(pattern, tokenEnd);
      } else {
        prefix := prefix + {c as int};
        i := i + 1 + QuantifierLen(pattern, i + 1);
      }
    }
    WalkEnd(d, pattern, prefix);
    covered := false;
  }

  lemma FindingSays(d: Decoder, text: string, i: nat, end: nat, prefix: set<Rune>, excluded: set<Rune>)
    requires i < end <= |text| && ClassFinding(d, text, i, end, prefix, excluded).Some?
    ensures var f := ClassFinding(d, text, i, end, prefix, excluded).value;
            && f.start == i && f.end == end && f.prefix == prefix && f.excluded == excluded
            && TerminatorChars(d, text, end + QuantifierLen(text, end)) == Some(f.terminator)
  {
    hide TerminatorChars, QuantifierLen, Unbounded;
  }

  // ---------------------------------------------------------------- what a finding means

  /** A reported scan is a dot or a negated class, repeated without bound, and some literals stand before
      it that it can absorb and that cannot end it. */
  ghost predicate Genuine(d: Decoder, text: string, f: Finding) {
    && f.start < f.end <= |text|
    && (text[f.start] == '.' || (text[f.start] == '[' && f.end > f.start + 2 && text[f.start + 1] == '^'))
    && Unbounded(text, f.end)
    && TerminatorChars(d, text, f.end + QuantifierLen(text, f.end)) == Some(f.terminator)
    && f.prefix != {} && f.prefix !! f.excluded && f.prefix !! f.terminator
    && (text[f.start] == '.' ==> f.excluded == {})
  }

  lemma {:induction false} FindingsGenuine(d: Decoder, text: string, i: nat, prefix: set<Rune>)
    requires i <= |text|
    ensures var f := Walk(d, text, i, prefix);
            f.Some? ==> f.value.start >= i && Genuine(d, text, f.value)
    decreases |text| - i
  {
    hide Step, Walk, Genuine;
    if i == |text| {
      WalkEnd(d, text, prefix);
    } else {
      WalkUnfold(d, text, i, prefix);
      StepAdvances(d, text, i, prefix);
      StepGenuine(d, text, i, prefix);
      var m := Step(d, text, i, prefix);
      FindingsGenuine(d, text, m.next, m.prefix);
    }
  }

  lemma StepGenuine(d: Decoder, text: string, i: nat, prefix: set<Rune>)
    requires i < |text|
    ensures var m := Step(d, text, i, prefix);
            m.finding.Some? ==> m.finding.value.start == i && Genuine(d, text, m.finding.value)
  {
    hide TerminatorChars, QuantifierLen, Unbounded, AllowsZero, ClassEnd;
  }

  // ---------------------------------------------------------------- where the prefix comes from

  /** The literal characters that the walk has collected are characters of the text before it. */
  predicate FromText(prefix: set<Rune>, text: string) {
    forall r :: r in prefix ==> exists k :: 0 <= k < |text| && text[k] as int == r
  }

  lemma PrefixGrows(text: string, a: nat, b: nat, prefix: set<Rune>)
    requires a <= b <= |text| && FromText(prefix, text[..a])
    ensures FromText(prefix, text[..b])
  {
    forall r | r in prefix ensures exists k :: 0 <= k < b && text[..b][k] as int == r {
      var k :| 0 <= k < a && text[..a][k] as int == r;
      assert text[..b][k] == text[..a][k];
    }
  }

  lemma PrefixAdds(text: string, b: nat, prefix: set<Rune>, at: nat)
    requires at < b <= |text| && FromText(prefix, text[..b])
    ensures FromText(prefix + {text[at] as int}, text[..b])
  {
    assert text[..b][at] == text[at];
  }

  lemma StepPrefix(d: Decoder, text: string, i: nat, prefix: set<Rune>)
    requires i < |text| && FromText(prefix, text[..i])
    ensures var m := Step(d, text, i, prefix);
            FromText(m.prefix, text[..m.next])
  {
    hide FromText, QuantifierLen, AllowsZero, IsAlnum, IndexByte, BroadScan, ClassFinding;
    StepAdvances(d, text, i, prefix);
    var m := Step(d, text, i, prefix);
    PrefixGrows(text, i, m.next, prefix);
    NoPrefix(text[..m.next]);
    PrefixAdds(text, m.next, prefix, i);
    if text[i] == '\\' && i + 1 < |text| {
      PastEscape(d, text, i, prefix);
      PrefixAdds(text, m.next, prefix, i + 1);
    }
  }

  lemma PastEscape(d: Decoder, text: string, i: nat, prefix: set<Rune>)
    requires i + 1 < |text| && text[i] == '\\'
    ensures i + 1 < Step(d, text, i, prefix).next
  {
    hide QuantifierLen, AllowsZero, IsAlnum;
  }

  lemma NoPrefix(text: string)
    ensures FromText({}, text)
  {
  }

  /** Every character of a reported prefix stands in the pattern before the reported scan. */
  lemma {:induction false} FindingPrefix(d: Decoder, text: string, i: nat, prefix: set<Rune>)
    requires i <= |text| && FromText(prefix, text[..i])
    ensures var f := Walk(d, text, i, prefix);
            f.Some? ==> f.value.start <= |text| && FromText(f.value.prefix, text[..f.value.start])
    decreases |text| - i
  {
    hide Step, Walk, FromText;
    if i == |text| {
      WalkEnd(d, text, prefix);
    } else {
      WalkUnfold(d, text, i, prefix);
      StepAdvances(d, text, i, prefix);
      StepGenuine(d, text, i, prefix);
      StepReports(d, text, i, prefix);
      StepPrefix(d, text, i, prefix);
      var m := Step(d, text, i, prefix);
      FindingPrefix(d, text, m.next, m.prefix);
    }
  }

  lemma StepReports(d: Decoder, text: string, i: nat, prefix: set<Rune>)
    requires i < |text|
    ensures var m := Step(d, text, i, prefix);
            m.finding.Some? ==> m.finding.value.start == i && m.finding.value.prefix == prefix
  {
    hide TerminatorChars, QuantifierLen, Unbounded, AllowsZero, ClassEnd;
  }
}
