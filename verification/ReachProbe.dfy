/** Synthesis of a probe text that reaches every quantified region (guardcore/redos_reach_probe.go,
    guardcore/redos_structure.go:66-105, 184-207). */
module ReachProbe {
  import opened Texts
  import opened PathMatch
  import opened Terminator

  const STRESS_LEN := 4000
  const BOUNDED_CAP := 4000
  const TOTAL_BUDGET := 12000
  const MAX_LENGTH := 2 * TOTAL_BUDGET
  const GROUP_REPEAT_CAP := 3
  const MAX_NESTING := 20

  /** Taken as given: a character that an atom matches, and UTF-8 encoding. */
  datatype Env = Env(representative: string -> Option<Rune>, encode: Rune -> string)

  predicate Ascii(c: char) { c < '\U{80}' }

  /** ASCII encodes as itself, everything else as bytes outside ASCII. */
  ghost predicate Lawful(env: Env) {
    forall r :: if 0 <= r < 128 then env.encode(r) == [r as char]
                else env.encode(r) != "" && forall k :: 0 <= k < |env.encode(r)| ==> !Ascii(env.encode(r)[k])
  }

  // ---------------------------------------------------------------- counts

  /** Integer division as Go does it, towards zero. */
  function Quotient(a: int, b: nat): int
    requires b > 0
  {
    if a < 0 then -((-a) / b) else a / b
  }

  /** How often a unit is repeated: as often as wanted and affordable, but never less than required. */
  function ClampedCount(budget: int, unit: nat, low: nat, high: nat): Option<nat> {
    if unit == 0 then Some(high)
    else if low > MAX_LENGTH / unit then None
    else Some(Max(low, Min(high, Affordable(budget, unit))) as nat)
  }

  function Affordable(budget: int, unit: nat): nat
    requires unit > 0
  {
    Max(0, Quotient(budget, unit))
  }

  lemma AffordableCost(budget: int, unit: nat)
    requires unit > 0
    ensures unit * Affordable(budget, unit) <= Max(0, budget)
  {
    if budget >= 0 {
      assert unit * (budget / unit) <= budget;
    } else {
      assert (-budget) / unit >= 0;
    }
  }

  /** The repetitions cost no more than the required ones or what the budget holds. */
  lemma ClampedCost(budget: int, unit: nat, low: nat, high: nat)
    requires low <= high && budget <= TOTAL_BUDGET
    ensures var c := ClampedCount(budget, unit, low, high);
            c.Some? ==> low <= c.value <= high && unit * c.value <= MAX_LENGTH
                        && (c.value > low && unit > 0 ==> unit * c.value <= budget)
  {
    hide Affordable;
    if unit > 0 && low <= MAX_LENGTH / unit {
      RequiredCost(unit, low);
      AffordableCost(budget, unit);
      var c := ClampedCount(budget, unit, low, high).value;
      if c > low {
        Times(unit, c, Affordable(budget, unit));
        Times(unit, 1, c);
      }
    }
  }

  lemma RequiredCost(unit: nat, count: nat)
    requires unit > 0 && count <= MAX_LENGTH / unit
    ensures unit * count <= MAX_LENGTH
  {
    Times(unit, count, MAX_LENGTH / unit);
  }

  lemma Times(unit: nat, a: nat, b: nat)
    requires a <= b
    ensures unit * a <= unit * b
  {
  }

  function Number(digits: string): nat
    requires AllDigits(digits)
  {
    if digits == "" then 0 else Number(digits[..|digits| - 1]) * 10 + (digits[|digits| - 1] - '0') as nat
  }

  datatype Range = Range(low: nat, high: nat, next: nat)

  /** The repetition that stands at `k`. */
  function RepeatRange(text: string, k: nat): (r: Range)
    ensures r.low <= r.high && k <= r.next && (k <= |text| ==> r.next <= |text|)
  {
    if k >= |text| then Range(1, 1, k)
    else if text[k] == '*' then Range(0, STRESS_LEN, k + 1 + LazyMark(text, k + 1))
    else if text[k] == '+' then Range(1, STRESS_LEN, k + 1 + LazyMark(text, k + 1))
    else if text[k] == '?' then Range(0, 1, k + 1 + LazyMark(text, k + 1))
    else if text[k] == '{' && BraceBody(text, k).Some? then
      var body := BraceBody(text, k).value;
      var parts := Split(body, ',');
      if parts[0] == "" || !AllDigits(parts[0]) then Range(1, 1, k)
      else if |parts| > 1 && !AllDigits(parts[1]) then Range(1, 1, k)
      else
        var low := Number(parts[0]);
        var wanted := if |parts| == 1 then low else if parts[1] == "" then STRESS_LEN else Number(parts[1]);
        Range(low, Max(low, Min(BOUNDED_CAP, wanted)) as nat, k + |body| + 2 + LazyMark(text, k + |body| + 2))
    else Range(1, 1, k)
  }

  // ---------------------------------------------------------------- groups

  function GroupEndFrom(text: string, j: nat, depth: nat): (r: Option<nat>)
    requires j <= |text|
    ensures r.Some? ==> j <= r.value <= |text| && (depth > 0 ==> j < r.value)
    decreases |text| - j
  {
    if depth == 0 then Some(j)
    else if j == |text| then None
    else if text[j] == '\\' && j + 1 < |text| then GroupEndFrom(text, j + 2, depth)
    else if text[j] == '[' then GroupEndFrom(text, SkipClass(text, j), depth)
    else GroupEndFrom(text, j + 1, if text[j] == '(' then depth + 1 else if text[j] == ')' then depth - 1 else depth)
  }

  function Branches(inner: string, k: nat, start: nat, depth: int): (branches: seq<string>)
    requires start <= k <= |inner|
    ensures branches != [] && forall b :: 0 <= b < |branches| ==> |branches[b]| <= |inner|
    decreases |inner| - k
  {
    if k == |inner| then [inner[start..]]
    else if inner[k] == '\\' && k + 1 < |inner| then Branches(inner, k + 2, start, depth)
    else if inner[k] == '[' then Branches(inner, SkipClass(inner, k), start, depth)
    else if inner[k] == '|' && depth == 0 then [inner[start..k]] + Branches(inner, k + 1, k + 1, depth)
    else
      Branches(inner, k + 1, start,
               if inner[k] == '(' then depth + 1 else if inner[k] == ')' then depth - 1 else depth)
  }

  const FLAG_LETTERS := "aiLmsux"
  const LOOKAROUNDS := ["?=", "?!", "?<=", "?<!"]

  function FlagSpan(s: string, i: nat): (e: nat)
    requires i <= |s|
    ensures i <= e <= |s|
    decreases |s| - i
  {
    if i < |s| && s[i] in FLAG_LETTERS then FlagSpan(s, i + 1) else i
  }

  /** Where the inline flags of a group head end. */
  function FlagsEnd(raw: string): (e: nat)
    requires "?" <= raw
    ensures 1 <= e <= |raw|
  {
    var i := FlagSpan(raw, 1);
    if i < |raw| && raw[i] == '-' then FlagSpan(raw, i + 1) else i
  }

  datatype Target = Into(inner: string) | Nothing | Unsupported

  /** What of a group is walked. */
  function WalkTarget(raw: string): (t: Target)
    ensures t.Into? ==> |t.inner| <= |raw|
  {
    if !("?" <= raw) then Into(raw)
    else if "?:" <= raw then Into(raw[2..])
    else if "?P<" <= raw then
      var close := IndexByte(raw, '>');
      if close < 0 then Unsupported else Into(raw[close + 1..])
    else if exists p :: 0 <= p < |LOOKAROUNDS| && LOOKAROUNDS[p] <= raw then Nothing
    else if "?#" <= raw then Nothing
    else
      var e := FlagsEnd(raw);
      if e < |raw| && raw[e] == ':' then Into(raw[e + 1..])
      else if e == |raw| then Nothing
      else Unsupported
  }

  // ---------------------------------------------------------------- synthesis, as functions

  /** What the synthesis threads through a pattern. */
  datatype Synth = Synth(seen: set<char>, budget: int, groups: map<int, string>, counter: nat)

  datatype Piece = Piece(text: string, next: nat, st: Synth) | Failed

  function Repeat(unit: string, count: nat): string {
    if count == 0 then "" else unit + Repeat(unit, count - 1)
  }

  function StressFill(text: string, k: nat, rep: string, st: Synth): (p: Piece)
    ensures p.Piece? ==> k <= p.next && (k <= |text| ==> p.next <= |text|)
  {
    var r := RepeatRange(text, k);
    var count := ClampedCount(st.budget, |rep|, r.low, r.high);
    if count.None? then Failed
    else
      Piece(Repeat(rep, count.value), r.next,
            st.(budget := st.budget - |rep| * count.value, seen := if rep == "" then st.seen else st.seen + {rep[0]}))
  }

  predicate HexSpan(text: string, i: nat)
    requires i + 1 < |text|
  {
    text[i + 1] == 'x' && i + 3 < |text| && IsHexDigit(text[i + 2]) && IsHexDigit(text[i + 3])
  }

  function EscapeAtom(env: Env, text: string, i: nat, st: Synth): (p: Piece)
    requires i < |text|
    ensures p.Piece? ==> i < p.next <= |text|
  {
    if i + 1 >= |text| then Failed
    else
      var letter, hex := text[i + 1], HexSpan(text, i);
      var tokenEnd := if hex then i + 4 else i + 2;
      if letter in "AZbB" then Piece("", tokenEnd, st)
      else if '0' <= letter <= '9' then
        var number := letter as int - '0' as int;
        if number in st.groups then StressFill(text, tokenEnd, st.groups[number], st) else Failed
      else if hex then
        StressFill(text, tokenEnd, env.encode(16 * HexDigitValue(text[i + 2]) + HexDigitValue(text[i + 3])), st)
      else
        var rep := env.representative(text[i..tokenEnd]);
        if rep.None? then Failed else StressFill(text, tokenEnd, env.encode(rep.value), st)
  }

  function Capturing(raw: string): bool {
    !("?" <= raw) || "?P<" <= raw
  }

  function GroupAtom(env: Env, text: string, i: nat, st: Synth, depth: nat): (p: Piece)
    requires i < |text| && text[i] == '('
    ensures p.Piece? ==> i < p.next <= |text|
    decreases |text|, 0, 0
  {
    var end := GroupEndFrom(text, i + 1, 1);
    if end.None? then Failed
    else
      var raw := text[i + 1..end.value - 1];
      var st1 := if Capturing(raw) then st.(counter := st.counter + 1) else st;
      var target := WalkTarget(raw);
      if target.Unsupported? then Failed
      else if target.Nothing? then Piece("", end.value, st1)
      else
        var sub := Segment(env, Branches(target.inner, 0, 0, 0)[0], 0, "", st1, depth + 1);
        if sub.Failed? then Failed
        else
          var st2 := if Capturing(raw) then sub.st.(groups := sub.st.groups[st1.counter := sub.text]) else sub.st;
          var r := RepeatRange(text, end.value);
          var high := Max(r.low, Min(GROUP_REPEAT_CAP, r.high)) as nat;
          var count := ClampedCount(st2.budget, |sub.text|, r.low, high);
          if count.None? then Failed
          else Piece(Repeat(sub.text, count.value), r.next, st2.(budget := st2.budget - |sub.text| * count.value))
  }

  function NextAtom(env: Env, text: string, i: nat, st: Synth, depth: nat): (p: Piece)
    requires i < |text|
    ensures p.Piece? ==> i < p.next <= |text|
    decreases |text|, 1, 0
  {
    if text[i] == '\\' then EscapeAtom(env, text, i, st)
    else if text[i] == '[' then
      var end := SkipClass(text, i);
      var rep := env.representative(text[i..end]);
      if rep.None? then Failed else StressFill(text, end, env.encode(rep.value), st)
    else if text[i] == '.' then StressFill(text, i + 1, "a", st)
    else if text[i] == '(' then GroupAtom(env, text, i, st, depth)
    else StressFill(text, i + 1, env.encode(text[i] as int), st)
  }

  /** The probe of a segment from `i` on, behind the text `out`. */
  function Segment(env: Env, text: string, i: nat, out: string, st: Synth, depth: nat): Piece
    requires i <= |text|
    decreases |text|, 2, |text| - i
  {
    if depth > MAX_NESTING then Failed
    else if i == |text| then Piece(out, i, st)
    else if text[i] == '^' || text[i] == '$' then Segment(env, text, i + 1, out, st, depth)
    else
      var p := NextAtom(env, text, i, st, depth);
      if p.Failed? || |out| + |p.text| > MAX_LENGTH then Failed
      else Segment(env, text, p.next, out + p.text, p.st, depth)
  }

  const BREAKS: seq<char> := ['\U{1}', '\U{2}', '\U{3}', '\U{4}', '\U{5}', '\U{6}', '\U{7}', '\U{8}']

  function FirstUnseen(candidates: seq<char>, seen: set<char>): Option<char> {
    if candidates == [] then None
    else if candidates[0] !in seen then Some(candidates[0])
    else FirstUnseen(candidates[1..], seen)
  }

  function Fresh(): Synth { Synth({}, TOTAL_BUDGET, map[], 0) }

  function Probe(env: Env, pattern: string): Option<string> {
    var body := Segment(env, pattern, 0, "", Fresh(), 0);
    if body.Failed? then None
    else
      var last := FirstUnseen(BREAKS, body.st.seen);
      if last.None? then None else Some(body.text + [last.value])
  }

  // ---------------------------------------------------------------- what every step keeps

  /** Every ASCII byte of the text has been noted as seen. */
  predicate Noted(text: string, seen: set<char>) {
    forall k :: 0 <= k < |text| && Ascii(text[k]) ==> text[k] in seen
  }

  predicate Good(st: Synth) {
    && st.budget <= TOTAL_BUDGET
    && forall g :: g in st.groups ==> Noted(st.groups[g], st.seen) && |st.groups[g]| <= MAX_LENGTH
  }

  /** What a synthesis step guarantees: a piece within the length limit, paid from the budget, all of
      whose ASCII bytes are noted. */
  predicate Kept(st: Synth, p: Piece) {
    p.Piece? ==>
      && Good(p.st) && st.seen <= p.st.seen && Noted(p.text, p.st.seen) && |p.text| <= MAX_LENGTH
      && p.st.budget <= st.budget - |p.text|
  }

  lemma {:induction false} RepeatNoted(unit: string, count: nat, seen: set<char>)
    requires Noted(unit, seen)
    ensures Noted(Repeat(unit, count), seen) && |Repeat(unit, count)| == |unit| * count
  {
    if count > 0 {
      RepeatNoted(unit, count - 1, seen);
      assert |unit| * count == |unit| + |unit| * (count - 1);
    }
  }

  lemma NotedGrows(text: string, seen: set<char>, more: set<char>)
    requires Noted(text, seen) && seen <= more
    ensures Noted(text, more)
  {
  }

  lemma GoodGrows(st: Synth, more: Synth)
    requires Good(st) && st.seen <= more.seen && more.groups == st.groups && more.budget <= st.budget
    ensures Good(more)
  {
    forall g | g in st.groups ensures Noted(st.groups[g], more.seen) {
      NotedGrows(st.groups[g], st.seen, more.seen);
    }
  }

  /** Filling with a unit of which at most the first byte is new. */
  lemma StressFillKept(text: string, k: nat, rep: string, st: Synth)
    requires Good(st) && (rep != "" ==> Noted(rep, st.seen + {rep[0]}))
    ensures Kept(st, StressFill(text, k, rep, st))
  {
    hide RepeatRange, ClampedCount, Repeat;
    var r := RepeatRange(text, k);
    var count := ClampedCount(st.budget, |rep|, r.low, r.high);
    ClampedCost(st.budget, |rep|, r.low, r.high);
    if count.Some? {
      var p := StressFill(text, k, rep, st);
      RepeatNoted(rep, count.value, p.st.seen);
      CostNonNegative(|rep|, count.value);
      GoodGrows(st, p.st);
    }
  }

  lemma CostNonNegative(a: nat, b: nat)
    ensures a * b >= 0
  {
  }

  lemma EncodedNoted(env: Env, r: Rune, seen: set<char>)
    requires Lawful(env)
    ensures env.encode(r) != "" && Noted(env.encode(r), seen + {env.encode(r)[0]})
  {
  }

  lemma EscapeAtomKept(env: Env, text: string, i: nat, st: Synth)
    requires Lawful(env) && Good(st) && i < |text|
    ensures Kept(st, EscapeAtom(env, text, i, st))
  {
    hide StressFill, Lawful;
    if i + 1 < |text| {
      var letter, hex := text[i + 1], HexSpan(text, i);
      var tokenEnd := if hex then i + 4 else i + 2;
      if letter in "AZbB" {
      } else if '0' <= letter <= '9' {
        var number := letter as int - '0' as int;
        if number in st.groups {
          var rep := st.groups[number];
          if rep != "" {
            NotedGrows(rep, st.seen, st.seen + {rep[0]});
          }
          StressFillKept(text, tokenEnd, rep, st);
        }
      } else {
        var rep := if hex then Some(16 * HexDigitValue(text[i + 2]) + HexDigitValue(text[i + 3]))
                   else env.representative(text[i..tokenEnd]);
        if rep.Some? {
          EncodedNoted(env, rep.value, st.seen);
          StressFillKept(text, tokenEnd, env.encode(rep.value), st);
        }
      }
    }
  }

  /** Repeating a group's text, which has been noted already. */
  lemma GroupRepeatKept(
    st: Synth, sub: Piece, st2: Synth, capturing: bool, number: nat, count: nat, low: nat, high: nat, next: nat)
    requires Kept(st, sub) && sub.Piece? && low <= high
    requires st2 == if capturing then sub.st.(groups := sub.st.groups[number := sub.text]) else sub.st
    requires ClampedCount(st2.budget, |sub.text|, low, high) == Some(count)
    ensures Kept(st, Piece(Repeat(sub.text, count), next, st2.(budget := st2.budget - |sub.text| * count)))
  {
    hide ClampedCount, Repeat;
    ClampedCost(st2.budget, |sub.text|, low, high);
    RepeatNoted(sub.text, count, sub.st.seen);
    CostNonNegative(|sub.text|, count);
    forall g | g in st2.groups ensures Noted(st2.groups[g], st2.seen) && |st2.groups[g]| <= MAX_LENGTH {
      if st2.groups[g] != sub.text {
        assert g in sub.st.groups;
      }
    }
  }

  lemma {:induction false} GroupAtomKept(env: Env, text: string, i: nat, st: Synth, depth: nat)
    requires Lawful(env) && Good(st) && i < |text| && text[i] == '('
    ensures Kept(st, GroupAtom(env, text, i, st, depth))
    decreases |text|, 0, 0
  {
    hide Segment, WalkTarget, Branches, RepeatRange, ClampedCount, Lawful, Noted, Repeat, GroupEndFrom;
    var end := GroupEndFrom(text, i + 1, 1);
    if end.Some? {
      var raw := text[i + 1..end.value - 1];
      var st1 := if Capturing(raw) then st.(counter := st.counter + 1) else st;
      var target := WalkTarget(raw);
      EmptyNoted(st1.seen);
      if target.Into? {
        var sub := Segment(env, Branches(target.inner, 0, 0, 0)[0], 0, "", st1, depth + 1);
        SegmentKept(env, Branches(target.inner, 0, 0, 0)[0], 0, "", st1, depth + 1);
        if sub.Piece? {
          var st2 := if Capturing(raw) then sub.st.(groups := sub.st.groups[st1.counter := sub.text]) else sub.st;
          var r := RepeatRange(text, end.value);
          var high := Max(r.low, Min(GROUP_REPEAT_CAP, r.high)) as nat;
          var count := ClampedCount(st2.budget, |sub.text|, r.low, high);
          if count.Some? {
            GroupRepeatKept(st, sub, st2, Capturing(raw), st1.counter, count.value, r.low, high, r.next);
          }
        }
      }
    }
  }

  lemma EmptyNoted(seen: set<char>)
    ensures Noted("", seen)
  {
  }

  lemma {:induction false} NextAtomKept(env: Env, text: string, i: nat, st: Synth, depth: nat)
    requires Lawful(env) && Good(st) && i < |text|
    ensures Kept(st, NextAtom(env, text, i, st, depth))
    decreases |text|, 1, 0
  {
    hide StressFill, EscapeAtom, GroupAtom, Lawful, Good, Kept;
    if text[i] == '\\' {
      EscapeAtomKept(env, text, i, st);
    } else if text[i] == '[' {
      var end := SkipClass(text, i);
      var rep := env.representative(text[i..end]);
      if rep.Some? {
        EncodedNoted(env, rep.value, st.seen);
        StressFillKept(text, end, env.encode(rep.value), st);
      } else {
        FailureKept(st);
      }
    } else if text[i] == '.' {
      StressFillKept(text, i + 1, "a", st);
    } else if text[i] == '(' {
      GroupAtomKept(env, text, i, st, depth);
    } else {
      EncodedNoted(env, text[i] as int, st.seen);
      StressFillKept(text, i + 1, env.encode(text[i] as int), st);
    }
  }

  lemma FailureKept(st: Synth)
    ensures Kept(st, Failed)
  {
  }

  /** A segment keeps everything, and its text extends `out` within the limit and the budget. */
  lemma {:induction false} SegmentKept(env: Env, text: string, i: nat, out: string, st: Synth, depth: nat)
    requires Lawful(env) && Good(st) && i <= |text| && |out| <= MAX_LENGTH && Noted(out, st.seen)
    ensures var p := Segment(env, text, i, out, st, depth);
            p.Piece? ==>
              && Good(p.st) && st.seen <= p.st.seen && Noted(p.text, p.st.seen) && |p.text| <= MAX_LENGTH
              && |out| <= |p.text| && p.st.budget <= st.budget - (|p.text| - |out|)
    ensures out == "" ==> Kept(st, Segment(env, text, i, out, st, depth))
    decreases |text|, 2, |text| - i
  {
    hide NextAtom, Lawful, Good;
    if depth <= MAX_NESTING && i < |text| {
      if text[i] == '^' || text[i] == '$' {
        SegmentKept(env, text, i + 1, out, st, depth);
      } else {
        NextAtomKept(env, text, i, st, depth);
        var p := NextAtom(env, text, i, st, depth);
        if p.Piece? && |out| + |p.text| <= MAX_LENGTH {
          NotedGrows(out, st.seen, p.st.seen);
          NotedConcat(out, p.text, p.st.seen);
          SegmentKept(env, text, p.next, out + p.text, p.st, depth);
        }
      }
    }
  }

  lemma NotedConcat(a: string, b: string, seen: set<char>)
    requires Noted(a, seen) && Noted(b, seen)
    ensures Noted(a + b, seen)
  {
  }

  lemma {:induction false} UnseenSpec(candidates: seq<char>, seen: set<char>)
    ensures var c := FirstUnseen(candidates, seen);
            if c.Some? then c.value in candidates && c.value !in seen else forall x :: x in candidates ==> x in seen
  {
    if candidates != [] {
      UnseenSpec(candidates[1..], seen);
    }
  }

  /** Every probe is at most 24001 bytes long and ends with a break character that stands nowhere else
      in it; a pattern that synthesises lacks one only if its body uses up all break characters. */
  lemma ProbeShape(env: Env, pattern: string)
    requires Lawful(env)
    ensures var probe := Probe(env, pattern);
            probe.Some? ==>
              var n := |probe.value| - 1;
              && 0 <= n <= MAX_LENGTH && probe.value[n] in BREAKS && probe.value[n] !in probe.value[..n]
    ensures Probe(env, pattern).None? <==>
            var body := Segment(env, pattern, 0, "", Fresh(), 0);
            body.Failed? || forall c :: c in BREAKS ==> c in body.st.seen
  {
    hide Segment, FirstUnseen, Lawful;
    EmptyNoted(Fresh().seen);
    SegmentKept(env, pattern, 0, "", Fresh(), 0);
    var body := Segment(env, pattern, 0, "", Fresh(), 0);
    if body.Piece? {
      UnseenSpec(BREAKS, body.st.seen);
      var last := FirstUnseen(BREAKS, body.st.seen);
      if last.Some? {
        assert (body.text + [last.value])[..|body.text|] == body.text;
        BreaksAscii(last.value);
      }
    }
  }

  lemma BreaksAscii(c: char)
    requires c in BREAKS
    ensures Ascii(c)
  {
  }

  // ---------------------------------------------------------------- the synthesiser's loops and state

  method FindGroupEnd(text: string, start: nat) returns (end: Option<nat>)
    requires start < |text|
    ensures end == GroupEndFrom(text, start + 1, 1)
  {
    var depth: nat := 1;
    var j := start + 1;
    while j < |text| && depth > 0
      invariant j <= |text| && GroupEndFrom(text, start + 1, 1) == GroupEndFrom(text, j, depth)
      decreases |text| - j
    {
      if text[j] == '\\' && j + 1 < |text| {
        j := j + 2;
        continue;
      }
      if text[j] == '[' {
        j := SkipCharClass(text, j);
        continue;
      }
      if text[j] == '(' {
        depth := depth + 1;
      } else if text[j] == ')' {
        depth := depth - 1;
      }
      j := j + 1;
    }
    end := if depth != 0 then None else Some(j);
  }

  ghost predicate BranchesLeft(done: seq<string>, inner: string, k: nat, start: nat, depth: int)
    requires start <= k <= |inner|
  {
    done + Branches(inner, k, start, depth) == Branches(inner, 0, 0, 0)
  }

  lemma BranchesStep(done: seq<string>, inner: string, k: nat, start: nat, depth: int)
    requires start <= k < |inner| && BranchesLeft(done, inner, k, start, depth)
    ensures var c := inner[k];
            if c == '\\' && k + 1 < |inner| then BranchesLeft(done, inner, k + 2, start, depth)
            else if c == '[' then BranchesLeft(done, inner, SkipClass(inner, k), start, depth)
            else if c == '|' && depth == 0 then BranchesLeft(done + [inner[start..k]], inner, k + 1, k + 1, depth)
            else
              BranchesLeft(done, inner, k + 1, start,
                           if c == '(' then depth + 1 else if c == ')' then depth - 1 else depth)
  {
    if inner[k] == '|' && depth == 0 {
      var rest := Branches(inner, k + 1, k + 1, depth);
      assert done + ([inner[start..k]] + rest) == done + [inner[start..k]] + rest;
    }
  }

  method SplitTopLevelAlternations(inner: string) returns (branches: seq<string>)
    ensures branches == Branches(inner, 0, 0, 0)
  {
    hide Branches, BranchesLeft;
    branches := [];
    var depth, start, k := 0, 0, 0;
    BranchesBegin(inner);
    while k < |inner|
      invariant start <= k <= |inner| && BranchesLeft(branches, inner, k, start, depth)
    {
      BranchesStep(branches, inner, k, start, depth);
      if inner[k] == '\\' && k + 1 < |inner| {
        k := k + 2;
        continue;
      }
      if inner[k] == '[' {
        k := SkipCharClass(inner, k);
        continue;
      }
      if inner[k] == '(' {
        depth := depth + 1;
      } else if inner[k] == ')' {
        depth := depth - 1;
      } else if inner[k] == '|' {
        if depth == 0 {
          branches := branches + [inner[start..k]];
          start := k + 1;
        }
      }
      k := k + 1;
    }
    BranchesEnd(branches, inner, start, depth);
    branches := branches + [inner[start..]];
  }

  lemma BranchesBegin(inner: string)
    ensures BranchesLeft([], inner, 0, 0, 0)
  {
    hide Branches;
  }

  lemma BranchesEnd(done: seq<string>, inner: string, start: nat, depth: int)
    requires start <= |inner| && BranchesLeft(done, inner, |inner|, start, depth)
    ensures done + [inner[start..]] == Branches(inner, 0, 0, 0)
  {
  }

  datatype Made = Made(text: string, next: nat) | SynthesisFailed

  /** What a method made, as the functions say it. */
  predicate Says(p: Piece, made: Made, st: Synth) {
    p == if made.Made? then Piece(made.text, made.next, st) else Failed
  }

  class ProbeSynthState {
    var charsSeen: set<char>
    var budget: int
    var groupTexts: map<int, string>
    var groupCounter: nat

    constructor ()
      ensures State() == Fresh()
    {
      charsSeen, budget, groupTexts, groupCounter := {}, TOTAL_BUDGET, map[], 0;
    }

    ghost function State(): Synth
      reads this
    {
      Synth(charsSeen, budget, groupTexts, groupCounter)
    }

    method ReachStressFill(text: string, k: nat, rep: string) returns (made: Made)
      modifies this
      ensures Says(StressFill(text, k, rep, old(State())), made, State())
    {
      hide RepeatRange, ClampedCount, Repeat;
      var r := RepeatRange(text, k);
      var count := ClampedCount(budget, |rep|, r.low, r.high);
      if count.None? {
        return SynthesisFailed;
      }
      budget := budget - |rep| * count.value;
      if rep != "" {
        charsSeen := charsSeen + {rep[0]};
      }
      made := Made(Repeat(rep, count.value), r.next);
    }

    method SynthEscapeAtom(env: Env, text: string, i: nat) returns (made: Made)
      requires i < |text|
      modifies this
      ensures Says(EscapeAtom(env, text, i, old(State())), made, State())
    {
      hide StressFill;
      if i + 1 >= |text| {
        return SynthesisFailed;
      }
      var letter := text[i + 1];
      var hex := HexSpan(text, i);
      var tokenEnd := i + 4;
      if !hex {
        tokenEnd := i + 2;
      }
      if letter in "AZbB" {
        return Made("", tokenEnd);
      }
      if '0' <= letter <= '9' {
        var number := letter as int - '0' as int;
        if number !in groupTexts {
          return SynthesisFailed;
        }
        made := ReachStressFill(text, tokenEnd, groupTexts[number]);
        return;
      }
      var rep: Rune;
      if hex {
        rep := 16 * HexDigitValue(text[i + 2]) + HexDigitValue(text[i + 3]);
      } else {
        var r := env.representative(text[i..tokenEnd]);
        if r.None? {
          return SynthesisFailed;
        }
        rep := r.value;
      }
      made := ReachStressFill(text, tokenEnd, env.encode(rep));
    }

    method SynthGroupAtom(env: Env, text: string, i: nat, depth: nat) returns (made: Made)
      requires i < |text| && text[i] == '('
      modifies this
      ensures made.Made? ==> Says(GroupAtom(env, text, i, old(State()), depth), made, State())
      ensures made.SynthesisFailed? ==> GroupAtom(env, text, i, old(State()), depth).Failed?
      decreases |text|, 0, 0
    {
      hide Segment, WalkTarget, Branches, RepeatRange, ClampedCount, Repeat, GroupEndFrom;
      var end := FindGroupEnd(text, i);
      if end.None? {
        return SynthesisFailed;
      }
      var raw := text[i + 1..end.value - 1];
      var capturing := !("?" <= raw) || "?P<" <= raw;
      var number := 0;
      if capturing {
        groupCounter := groupCounter + 1;
        number := groupCounter;
      }
      var target := WalkTarget(raw);
      if target.Unsupported? {
        return SynthesisFailed;
      }
      if target.Nothing? {
        return Made("", end.value);
      }
      var branches := SplitTopLevelAlternations(target.inner);
      var sub := SynthesizeSegment(env, branches[0], depth + 1);
      if sub.SynthesisFailed? {
        return SynthesisFailed;
      }
      if capturing {
        groupTexts := groupTexts[number := sub.text];
      }
      var r := RepeatRange(text, end.value);
      var high := Max(r.low, Min(GROUP_REPEAT_CAP, r.high)) as nat;
      var count := ClampedCount(budget, |sub.text|, r.low, high);
      if count.None? {
        return SynthesisFailed;
      }
      budget := budget - |sub.text| * count.value;
      made := Made(Repeat(sub.text, count.value), r.next);
    }

    method SynthNextAtom(env: Env, text: string, i: nat, depth: nat) returns (made: Made)
      requires i < |text|
      modifies this
      ensures made.Made? ==> Says(NextAtom(env, text, i, old(State()), depth), made, State())
      ensures made.SynthesisFailed? ==> NextAtom(env, text, i, old(State()), depth).Failed?
      decreases |text|, 1, 0
    {
      hide StressFill, EscapeAtom, GroupAtom;
      if text[i] == '\\' {
        made := SynthEscapeAtom(env, text, i);
      } else if text[i] == '[' {
        var end := SkipCharClass(text, i);
        var rep := env.representative(text[i..end]);
        if rep.None? {
          return SynthesisFailed;
        }
        made := ReachStressFill(text, end, env.encode(rep.value));
      } else if text[i] == '.' {
        made := ReachStressFill(text, i + 1, "a");
      } else if text[i] == '(' {
        made := SynthGroupAtom(env, text, i, depth);
      } else {
        made := ReachStressFill(text, i + 1, env.encode(text[i] as int));
      }
    }

    method SynthesizeSegment(env: Env, text: string, depth: nat) returns (made: Made)
      modifies this
      ensures made.Made? ==> Says(Segment(env, text, 0, "", old(State()), depth), made, State())
      ensures made.SynthesisFailed? ==> Segment(env, text, 0, "", old(State()), depth).Failed?
      decreases |text|, 2, 0
    {
      hide NextAtom;
      if depth > MAX_NESTING {
        return SynthesisFailed;
      }
      var out := "";
      var i := 0;
      ghost var whole := Segment(env, text, 0, "", State(), depth);
      while i < |text|
        invariant i <= |text| && Segment(env, text, i, out, State(), depth) == whole
      {
        if text[i] == '^' || text[i] == '$' {
          i := i + 1;
          continue;
        }
        var piece := SynthNextAtom(env, text, i, depth);
        if piece.SynthesisFailed? {
          return SynthesisFailed;
        }
        if |out| + |piece.text| > MAX_LENGTH {
          return SynthesisFailed;
        }
        out := out + piece.text;
        i := piece.next;
      }
      made := Made(out, i);
    }
  }

  method SynthesizeReachingProbe(env: Env, pattern: string) returns (probe: Option<string>)
    ensures probe == Probe(env, pattern)
  {
    hide Segment;
    var st := new ProbeSynthState();
    var body := st.SynthesizeSegment(env, pattern, 0);
    if body.SynthesisFailed? {
      return None;
    }
    for c := 0 to |BREAKS|
      invariant FirstUnseen(BREAKS[c..], st.charsSeen) == FirstUnseen(BREAKS, st.charsSeen)
    {
      assert BREAKS[c..][1..] == BREAKS[c + 1..];
      if BREAKS[c] !in st.charsSeen {
        return Some(body.text + [BREAKS[c]]);
      }
    }
    assert BREAKS[|BREAKS|..] == [];
    probe := None;
  }
}
