/** Percent decoding, dot segments and excluded paths (guardcore/pathmatch.go). */
module PathMatch {
  import opened Texts

  const MAX_URL_DECODE_ROUNDS := 4

  predicate RunAt(value: string, i: nat) {
    i + 2 < |value| && value[i] == '%' && IsHexDigit(value[i + 1]) && IsHexDigit(value[i + 2])
  }

  /** Where the adjacent escapes that start at `i` end. */
  function RunEnd(value: string, i: nat): (j: nat)
    requires i <= |value|
    ensures i <= j <= |value| && (RunAt(value, i) ==> i < j)
    decreases |value| - i
  {
    if RunAt(value, i) then RunEnd(value, i + 3) else i
  }

  function RunByte(value: string, k: nat): char
    requires RunAt(value, k)
  {
    (16 * HexDigitValue(value[k + 1]) + HexDigitValue(value[k + 2])) as char
  }

  /** The bytes that the escapes from `i` on stand for. */
  function RawBytes(value: string, i: nat): string
    requires i <= |value|
    decreases |value| - i
  {
    if RunAt(value, i) then
      [RunByte(value, i)] + RawBytes(value, i + 3)
    else ""
  }

  /** Each run of escapes must stand for valid UTF-8; `valid` says which bytes do. */
  function Decode(valid: string -> bool, value: string, i: nat): Option<string>
    requires i <= |value|
    decreases |value| - i
  {
    if i == |value| then Some("")
    else if !RunAt(value, i) then
      var rest := Decode(valid, value, i + 1);
      if rest.None? then None else Some([value[i]] + rest.value)
    else if !valid(RawBytes(value, i)) then None
    else
      var rest := Decode(valid, value, RunEnd(value, i));
      if rest.None? then None else Some(RawBytes(value, i) + rest.value)
  }

  function DecodeOnce(valid: string -> bool, value: string): Option<string> {
    Decode(valid, value, 0)
  }

  function DecodeTimes(valid: string -> bool, value: string, rounds: nat): Option<string> {
    if rounds == 0 then Some(value)
    else
      var before := DecodeTimes(valid, value, rounds - 1);
      if before.None? then None else DecodeOnce(valid, before.value)
  }

  predicate HasRun(value: string) {
    exists i :: 0 <= i < |value| && RunAt(value, i)
  }

  // ---------------------------------------------------------------- segments

  function Join(segments: seq<string>): string {
    if segments == [] then ""
    else if |segments| == 1 then segments[0]
    else segments[0] + "/" + Join(segments[1..])
  }

  function Slashes(s: string): (r: string)
    ensures |r| == |s| && '\\' !in r
    ensures forall i :: 0 <= i < |s| ==> r[i] == if s[i] == '\\' then '/' else s[i]
  {
    seq(|s|, i requires 0 <= i < |s| => if s[i] == '\\' then '/' else s[i])
  }

  /** A dot segment loses its parameters; any other segment keeps them. */
  function Fold(segment: string): string {
    var at := IndexByte(segment, ';');
    var base := if at < 0 then segment else segment[..at];
    if base == "." || base == ".." then base else segment
  }

  /** One segment met from left to right. */
  function Push(stack: seq<string>, raw: string): seq<string> {
    var segment := Fold(raw);
    if segment == "" || segment == "." then stack
    else if segment == ".." then if stack == [] then [] else stack[..|stack| - 1]
    else stack + [segment]
  }

  function Stack(raws: seq<string>): seq<string> {
    if raws == [] then [] else Push(Stack(raws[..|raws| - 1]), raws[|raws| - 1])
  }

  function PathOf(segments: seq<string>): string {
    "/" + Join(segments)
  }

  function Collapse(decoded: string): string {
    PathOf(Stack(Split(Slashes(decoded), '/')))
  }

  function Normalize(valid: string -> bool, rawPath: string): Option<string> {
    var decoded := DecodeTimes(valid, rawPath, MAX_URL_DECODE_ROUNDS);
    if decoded.None? || HasRun(decoded.value) then None else Some(Collapse(decoded.value))
  }

  predicate IsSubtreeOrEqual(path: string, excluded: string) {
    excluded == "/" || path == excluded || excluded + "/" <= path
  }

  // ---------------------------------------------------------------- the loops

  ghost predicate DecodeLeft(valid: string -> bool, value: string, i: nat, done: string)
    requires i <= |value|
  {
    var rest := Decode(valid, value, i);
    Decode(valid, value, 0) == if rest.None? then None else Some(done + rest.value)
  }

  lemma DecodeStep(valid: string -> bool, value: string, i: nat, done: string)
    requires i < |value| && DecodeLeft(valid, value, i, done)
    ensures if !RunAt(value, i) then DecodeLeft(valid, value, i + 1, done + [value[i]])
            else if !valid(RawBytes(value, i)) then Decode(valid, value, 0) == None
            else DecodeLeft(valid, value, RunEnd(value, i), done + RawBytes(value, i))
  {
    hide RunAt, RawBytes, RunEnd, Decode;
    DecodeUnfold(valid, value, i);
    var piece := if RunAt(value, i) then RawBytes(value, i) else [value[i]];
    var next := if RunAt(value, i) then RunEnd(value, i) else i + 1;
    var rest := Decode(valid, value, next);
    if rest.Some? {
      assert done + (piece + rest.value) == done + piece + rest.value;
    }
  }

  lemma DecodeUnfold(valid: string -> bool, value: string, i: nat)
    requires i < |value|
    ensures var piece := if RunAt(value, i) then RawBytes(value, i) else [value[i]];
            var next := if RunAt(value, i) then RunEnd(value, i) else i + 1;
            var rest := Decode(valid, value, next);
            Decode(valid, value, i)
            == if (RunAt(value, i) && !valid(piece)) || rest.None? then None else Some(piece + rest.value)
  {
    hide RunAt, RawBytes;
  }

  method FindRunEnd(value: string, i: nat) returns (j: nat)
    requires i <= |value|
    ensures j == RunEnd(value, i)
  {
    j := i;
    while j + 2 < |value| && value[j] == '%' && IsHexDigit(value[j + 1]) && IsHexDigit(value[j + 2])
      invariant j <= |value| && RunEnd(value, j) == RunEnd(value, i)
    {
      j := j + 3;
    }
  }

  method CollectRun(value: string, i: nat, j: nat) returns (raw: string)
    requires i <= |value| && j == RunEnd(value, i)
    ensures raw == RawBytes(value, i)
  {
    hide RunAt, HexDigitValue;
    raw := "";
    var k := i;
    while k < j
      invariant k <= |value| && RunEnd(value, k) == j && RawBytes(value, i) == raw + RawBytes(value, k)
    {
      assert raw + ([RunByte(value, k)] + RawBytes(value, k + 3)) == raw + [RunByte(value, k)] + RawBytes(value, k + 3);
      raw := raw + [RunByte(value, k)];
      k := k + 3;
    }
    assert raw + "" == raw;
  }

  method DecodePercentRuns(valid: string -> bool, value: string) returns (r: Option<string>)
    ensures r == DecodeOnce(valid, value)
  {
    hide Decode, DecodeLeft, RunEnd, RawBytes;
    var done := "";
    var i := 0;
    DecodeStart(valid, value);
    while i < |value|
      invariant i <= |value| && DecodeLeft(valid, value, i, done)
    {
      DecodeStep(valid, value, i, done);
      if value[i] != '%' || i + 2 >= |value| || !IsHexDigit(value[i + 1]) || !IsHexDigit(value[i + 2]) {
        done := done + [value[i]];
        i := i + 1;
        continue;
      }
      var j := FindRunEnd(value, i);
      var raw := CollectRun(value, i, j);
      if !valid(raw) {
        return None;
      }
      done := done + raw;
      i := j;
    }
    DecodeEnd(valid, value, done);
    r := Some(done);
  }

  lemma DecodeStart(valid: string -> bool, value: string)
    ensures DecodeLeft(valid, value, 0, "")
  {
    var all := Decode(valid, value, 0);
    if all.Some? {
      assert "" + all.value == all.value;
    }
  }

  lemma DecodeEnd(valid: string -> bool, value: string, done: string)
    requires DecodeLeft(valid, value, |value|, done)
    ensures Decode(valid, value, 0) == Some(done)
  {
    hide Decode;
    DecodeAtEnd(valid, value);
    assert done + "" == done;
  }

  lemma DecodeAtEnd(valid: string -> bool, value: string)
    ensures Decode(valid, value, |value|) == Some("")
  {
  }

  method HasPercentRun(value: string) returns (found: bool)
    ensures found <==> HasRun(value)
  {
    var i := 0;
    while i + 2 < |value|
      invariant forall k :: 0 <= k < i ==> !RunAt(value, k)
    {
      if value[i] == '%' && IsHexDigit(value[i + 1]) && IsHexDigit(value[i + 2]) {
        assert RunAt(value, i);
        return true;
      }
      i := i + 1;
    }
    found := false;
  }

  method CollapseDotSegments(decoded: string) returns (path: string)
    ensures path == Collapse(decoded)
  {
    var raws := Split(Slashes(decoded), '/');
    var segments: seq<string> := [];
    assert raws[..0] == [];
    for i := 0 to |raws|
      invariant segments == Stack(raws[..i])
    {
      assert raws[..i + 1][..i] == raws[..i];
      var segment := Fold(raws[i]);
      if segment == "" || segment == "." {
        continue;
      }
      if segment == ".." {
        if |segments| > 0 {
          segments := segments[..|segments| - 1];
        }
        continue;
      }
      segments := segments + [segment];
    }
    assert raws[..|raws|] == raws;
    path := "/" + Join(segments);
  }

  method NormalizeURLPath(valid: string -> bool, rawPath: string) returns (r: Option<string>)
    ensures r == Normalize(valid, rawPath)
  {
    hide DecodeOnce;
    var decoded := rawPath;
    for i := 0 to MAX_URL_DECODE_ROUNDS
      invariant DecodeTimes(valid, rawPath, i) == Some(decoded)
    {
      var next := DecodePercentRuns(valid, decoded);
      if next.None? {
        FailureStays(valid, rawPath, i + 1, MAX_URL_DECODE_ROUNDS);
        return None;
      }
      decoded := next.value;
    }
    var run := HasPercentRun(decoded);
    if run {
      return None;
    }
    var path := CollapseDotSegments(decoded);
    r := Some(path);
  }

  lemma {:induction false} FailureStays(valid: string -> bool, value: string, k: nat, n: nat)
    requires k <= n && DecodeTimes(valid, value, k) == None
    ensures DecodeTimes(valid, value, n) == None
  {
    if k < n {
      FailureStays(valid, value, k, n - 1);
    }
  }

  // ---------------------------------------------------------------- decoding to the end

  lemma {:induction false} RunFree(valid: string -> bool, value: string, i: nat)
    requires i <= |value| && !HasRun(value)
    ensures Decode(valid, value, i) == Some(value[i..])
    decreases |value| - i
  {
    hide RunAt, RawBytes, RunEnd;
    if i < |value| {
      RunFree(valid, value, i + 1);
      assert !RunAt(value, i);
      assert value[i..] == [value[i]] + value[i + 1..];
    } else {
      assert value[i..] == "";
    }
  }

  lemma {:induction false} SettledStays(valid: string -> bool, value: string, k: nat, n: nat)
    requires k <= n && DecodeTimes(valid, value, k).Some? && !HasRun(DecodeTimes(valid, value, k).value)
    ensures DecodeTimes(valid, value, n) == DecodeTimes(valid, value, k)
  {
    if k < n {
      SettledStays(valid, value, k, n - 1);
      var settled := DecodeTimes(valid, value, k).value;
      RunFree(valid, settled, 0);
      assert settled[0..] == settled;
    }
  }

  /** Within the allowed rounds every escape has been decoded. */
  ghost predicate Settles(valid: string -> bool, value: string, k: nat) {
    DecodeTimes(valid, value, k).Some? && !HasRun(DecodeTimes(valid, value, k).value)
  }

  /** The fixed number of rounds is decoding until nothing is left, given up after four rounds:
      the path normalises exactly when some round leaves no escape, and to that round's text. */
  lemma DecodesToTheEnd(valid: string -> bool, rawPath: string)
    ensures Normalize(valid, rawPath).Some?
            <==> exists k :: 0 <= k <= MAX_URL_DECODE_ROUNDS && Settles(valid, rawPath, k)
    ensures forall k :: 0 <= k <= MAX_URL_DECODE_ROUNDS && Settles(valid, rawPath, k) ==>
              Normalize(valid, rawPath) == Some(Collapse(DecodeTimes(valid, rawPath, k).value))
  {
    hide DecodeOnce, Collapse, HasRun, DecodeTimes;
    forall k | 0 <= k <= MAX_URL_DECODE_ROUNDS && Settles(valid, rawPath, k)
      ensures Normalize(valid, rawPath) == Some(Collapse(DecodeTimes(valid, rawPath, k).value))
    {
      SettledStays(valid, rawPath, k, MAX_URL_DECODE_ROUNDS);
    }
    if Normalize(valid, rawPath).Some? {
      assert Settles(valid, rawPath, MAX_URL_DECODE_ROUNDS);
    }
  }

  // ---------------------------------------------------------------- the shape of a normal path

  /** A segment of a normal path. */
  predicate Clean(segment: string) {
    && segment != "" && '/' !in segment && '\\' !in segment && Fold(segment) == segment
    && segment != "." && segment != ".."
  }

  predicate AllClean(segments: seq<string>) {
    forall i :: 0 <= i < |segments| ==> Clean(segments[i])
  }

  predicate Slashless(segments: seq<string>) {
    forall i :: 0 <= i < |segments| ==> '/' !in segments[i]
  }

  lemma {:induction false} SplitSlashless(s: string)
    ensures Slashless(Split(s, '/'))
    ensures '\\' !in s ==> forall i :: 0 <= i < |Split(s, '/')| ==> '\\' !in Split(s, '/')[i]
  {
    var at := IndexByte(s, '/');
    if at >= 0 {
      SplitSlashless(s[at + 1..]);
      assert '\\' !in s ==> '\\' !in s[..at] && '\\' !in s[at + 1..];
    }
  }

  lemma PushClean(stack: seq<string>, raw: string)
    requires AllClean(stack) && '/' !in raw && '\\' !in raw
    ensures AllClean(Push(stack, raw))
  {
  }

  lemma {:induction false} StackClean(raws: seq<string>)
    requires forall i :: 0 <= i < |raws| ==> '/' !in raws[i] && '\\' !in raws[i]
    ensures AllClean(Stack(raws))
  {
    hide Push, AllClean;
    if raws == [] {
      NothingUnclean();
    } else {
      var n := |raws| - 1;
      StackClean(raws[..n]);
      PushClean(Stack(raws[..n]), raws[n]);
    }
  }

  lemma NothingUnclean()
    ensures AllClean([])
  {
  }

  lemma {:induction false} SplitJoin(segments: seq<string>)
    requires Slashless(segments) && segments != []
    ensures Split(Join(segments), '/') == segments
  {
    if |segments| == 1 {
      SplitAt(segments[0], "", '/');
    } else {
      SplitJoin(segments[1..]);
      SplitAt(segments[0], Join(segments[1..]), '/');
    }
  }

  lemma SplitPath(segments: seq<string>)
    requires Slashless(segments)
    ensures Split(PathOf(segments), '/') == [""] + if segments == [] then [""] else segments
  {
    SplitAt("", Join(segments), '/');
    assert "" + "/" + Join(segments) == PathOf(segments);
    if segments == [] {
      assert Split("", '/') == [""];
    } else {
      SplitJoin(segments);
    }
  }

  lemma {:induction false} StackOfClean(raws: seq<string>, n: nat)
    requires n <= |raws| && raws != [] && raws[0] == "" && forall i :: 1 <= i < |raws| ==> Clean(raws[i])
    ensures Stack(raws[..n]) == if n == 0 then [] else raws[1..n]
    decreases n
  {
    if n > 0 {
      StackOfClean(raws, n - 1);
      assert raws[..n][..n - 1] == raws[..n - 1];
      if n == 1 {
        assert raws[1..1] == [];
      } else {
        assert raws[1..n] == raws[1..n - 1] + [raws[n - 1]];
      }
    }
  }

  lemma {:induction false} JoinPlain(segments: seq<string>)
    requires forall i :: 0 <= i < |segments| ==> '\\' !in segments[i]
    ensures '\\' !in Join(segments)
  {
    if |segments| > 1 {
      JoinPlain(segments[1..]);
    }
  }

  /** Collapsing a path made of clean segments changes nothing. */
  lemma CollapseClean(segments: seq<string>)
    requires AllClean(segments)
    ensures Collapse(PathOf(segments)) == PathOf(segments)
  {
    hide Stack, Split, Join, Clean;
    CleanIsPlain(segments);
    var path := PathOf(segments);
    JoinPlain(segments);
    assert Slashes(path) == path;
    SplitPath(segments);
    if segments == [] {
      assert [""] + [""] == ["", ""];
      StackOfNothing();
    } else {
      var raws := [""] + segments;
      StackOfClean(raws, |raws|);
      assert raws[..|raws|] == raws && raws[1..|raws|] == segments;
    }
  }

  lemma CleanIsPlain(segments: seq<string>)
    requires AllClean(segments)
    ensures Slashless(segments) && forall i :: 0 <= i < |segments| ==> '\\' !in segments[i] && segments[i] != ""
  {
  }

  lemma StackOfNothing()
    ensures Stack(["", ""]) == [] && PathOf([]) == "/"
  {
    assert ["", ""][..1] == [""] && [""][..0] == [];
  }

  // ---------------------------------------------------------------- no new escapes

  predicate RunFreeAll(segments: seq<string>) {
    forall i :: 0 <= i < |segments| ==> !HasRun(segments[i])
  }

  lemma SliceRunFree(s: string, i: nat, j: nat)
    requires i <= j <= |s| && !HasRun(s)
    ensures !HasRun(s[i..j])
  {
    if HasRun(s[i..j]) {
      var k :| 0 <= k < j - i && RunAt(s[i..j], k);
      assert RunAt(s, i + k);
    }
  }

  lemma {:induction false} SplitRunFree(s: string)
    requires !HasRun(s)
    ensures RunFreeAll(Split(s, '/'))
  {
    hide HasRun;
    var at := IndexByte(s, '/');
    if at >= 0 {
      SliceRunFree(s, 0, at);
      SliceRunFree(s, at + 1, |s|);
      assert s[0..at] == s[..at] && s[at + 1..|s|] == s[at + 1..];
      SplitRunFree(s[at + 1..]);
    }
  }

  lemma {:induction false} StackRunFree(raws: seq<string>)
    requires RunFreeAll(raws)
    ensures RunFreeAll(Stack(raws))
  {
    hide HasRun;
    if raws != [] {
      var n := |raws| - 1;
      StackRunFree(raws[..n]);
    }
  }

  /** A run of an escape never crosses a slash. */
  lemma GlueRunFree(a: string, b: string)
    requires !HasRun(a) && !HasRun(b)
    ensures !HasRun(a + "/" + b)
  {
    var s := a + "/" + b;
    forall i | 0 <= i < |s| ensures !RunAt(s, i) {
      if i + 2 < |a| {
        assert !RunAt(a, i);
      } else if |a| < i {
        assert !RunAt(b, i - |a| - 1);
      }
    }
  }

  lemma {:induction false} JoinRunFree(segments: seq<string>)
    requires RunFreeAll(segments)
    ensures !HasRun(Join(segments))
  {
    if |segments| > 1 {
      hide HasRun;
      JoinRunFree(segments[1..]);
      GlueRunFree(segments[0], Join(segments[1..]));
    }
  }

  lemma SlashesRunFree(s: string)
    requires !HasRun(s)
    ensures !HasRun(Slashes(s))
  {
    forall i | 0 <= i < |s| ensures !RunAt(Slashes(s), i) {
      assert !RunAt(s, i);
    }
  }

  /** The segments of a normal path: clean and without escapes. */
  predicate Normal(segments: seq<string>) {
    AllClean(segments) && RunFreeAll(segments)
  }

  lemma CollapseNormal(decoded: string)
    requires !HasRun(decoded)
    ensures Normal(Stack(Split(Slashes(decoded), '/')))
  {
    hide Stack, Split, HasRun, Clean, Slashes;
    var s := Slashes(decoded);
    SlashesRunFree(decoded);
    SplitRunFree(s);
    StackRunFree(Split(s, '/'));
    SplitSlashless(s);
    StackClean(Split(s, '/'));
  }

  /** The shape of every result: a slash and normal segments. */
  lemma NormalizedShape(valid: string -> bool, rawPath: string)
    ensures var r := Normalize(valid, rawPath);
            r.Some? ==> exists segments :: Normal(segments) && r.value == PathOf(segments)
  {
    hide DecodeTimes, HasRun, Stack, Split, Slashes, Join, Normal;
    var decoded := DecodeTimes(valid, rawPath, MAX_URL_DECODE_ROUNDS);
    if decoded.Some? && !HasRun(decoded.value) {
      CollapseNormal(decoded.value);
      assert Collapse(decoded.value) == PathOf(Stack(Split(Slashes(decoded.value), '/')));
    }
  }

  lemma NormalPathStable(valid: string -> bool, segments: seq<string>)
    requires Normal(segments)
    ensures Normalize(valid, PathOf(segments)) == Some(PathOf(segments))
  {
    hide Collapse, HasRun, Clean, Join, Decode, DecodeTimes;
    var path := PathOf(segments);
    JoinRunFree(segments);
    NothingRuns();
    GlueRunFree("", Join(segments));
    assert "" + "/" + Join(segments) == path;
    NoRounds(valid, path);
    SettledStays(valid, path, 0, MAX_URL_DECODE_ROUNDS);
    CollapseClean(segments);
  }

  lemma NothingRuns()
    ensures !HasRun("")
  {
  }

  lemma NoRounds(valid: string -> bool, value: string)
    ensures DecodeTimes(valid, value, 0) == Some(value)
  {
  }

  /** Normalising twice is normalising once. */
  lemma NormalizeIdempotent(valid: string -> bool, rawPath: string)
    ensures var r := Normalize(valid, rawPath);
            r.Some? ==> Normalize(valid, r.value) == r
  {
    hide Normal, Normalize, PathOf;
    var r := Normalize(valid, rawPath);
    if r.Some? {
      NormalizedShape(valid, rawPath);
      var segments :| Normal(segments) && r.value == PathOf(segments);
      NormalPathStable(valid, segments);
    }
  }

  // ---------------------------------------------------------------- dot segments, read the other way

  /** The segments that survive, read from right to left: each ".." cancels the nearest ordinary
      segment before it that is not cancelled already. */
  function Survivors(raws: seq<string>, cancelled: nat): seq<string> {
    if raws == [] then []
    else
      var before, segment := raws[..|raws| - 1], Fold(raws[|raws| - 1]);
      if segment == "" || segment == "." then Survivors(before, cancelled)
      else if segment == ".." then Survivors(before, cancelled + 1)
      else if cancelled > 0 then Survivors(before, cancelled - 1)
      else Survivors(before, 0) + [segment]
  }

  function DropLast(segments: seq<string>, n: nat): seq<string> {
    if n >= |segments| then [] else segments[..|segments| - n]
  }

  lemma {:induction false} StackFromTheRight(raws: seq<string>, cancelled: nat)
    ensures Survivors(raws, cancelled) == DropLast(Stack(raws), cancelled)
  {
    if raws != [] {
      hide Fold;
      var before, segment := raws[..|raws| - 1], Fold(raws[|raws| - 1]);
      var later := if segment == ".." then cancelled + 1 else if cancelled > 0 then cancelled - 1 else 0;
      StackFromTheRight(before, cancelled);
      StackFromTheRight(before, later);
    }
  }

  /** The stack of the loop computes exactly the surviving segments. */
  lemma CollapseSurvivors(decoded: string)
    ensures Collapse(decoded) == PathOf(Survivors(Split(Slashes(decoded), '/'), 0))
  {
    hide Stack, Survivors, Split, Slashes;
    var stack := Stack(Split(Slashes(decoded), '/'));
    StackFromTheRight(Split(Slashes(decoded), '/'), 0);
    assert stack[..|stack|] == stack;
  }

  // ---------------------------------------------------------------- excluded subtrees

  lemma {:induction false} JoinConcat(a: seq<string>, b: seq<string>)
    requires a != [] && b != []
    ensures Join(a + b) == Join(a) + "/" + Join(b)
  {
    if |a| == 1 {
      assert (a + b)[1..] == b;
    } else {
      assert (a + b)[1..] == a[1..] + b;
      JoinConcat(a[1..], b);
    }
  }

  /** A path lies under an exclusion exactly when it starts with the exclusion's segments. */
  lemma SubtreeIsPrefix(path: seq<string>, excluded: seq<string>)
    requires AllClean(path) && AllClean(excluded)
    ensures IsSubtreeOrEqual(PathOf(path), PathOf(excluded)) <==> excluded <= path
  {
    hide Clean, Split, Join, PathOf;
    CleanIsPlain(path);
    CleanIsPlain(excluded);
    SplitPath(path);
    SplitPath(excluded);
    if excluded == [] {
      RootPath();
    } else {
      NotRoot(excluded);
      if PathOf(excluded) + "/" <= PathOf(path) {
        var rest := PathOf(path)[|PathOf(excluded)| + 1..];
        assert PathOf(path) == PathOf(excluded) + "/" + rest;
        SplitConcat(PathOf(excluded), rest, '/');
        PrefixOfSplit(path, excluded, Split(rest, '/'));
      }
      if PathOf(excluded) == PathOf(path) {
        PrefixOfSplit(path, excluded, []);
      }
      if excluded <= path && excluded != path {
        var more := path[|excluded|..];
        assert path == excluded + more;
        PathConcat(excluded, more);
      }
    }
  }

  lemma RootPath()
    ensures PathOf([]) == "/"
  {
  }

  lemma NotRoot(segments: seq<string>)
    requires segments != [] && segments[0] != "" && forall i :: 0 <= i < |segments| ==> segments[i] != ""
    ensures PathOf(segments) != "/"
  {
  }

  lemma PathConcat(a: seq<string>, b: seq<string>)
    requires a != [] && b != []
    ensures PathOf(a) + "/" <= PathOf(a + b)
  {
    JoinConcat(a, b);
    assert PathOf(a + b) == PathOf(a) + "/" + Join(b);
  }

  lemma PrefixOfSplit(path: seq<string>, excluded: seq<string>, more: seq<string>)
    requires excluded != [] && excluded[0] != ""
    requires [""] + (if path == [] then [""] else path) == [""] + excluded + more
    ensures excluded <= path
  {
    var whole := if path == [] then [""] else path;
    assert ([""] + whole)[1..] == whole;
    assert ([""] + excluded + more)[1..] == excluded + more;
  }

  method PathMatchesExclusions(path: string, exclusions: seq<string>) returns (matched: bool)
    ensures matched <==> exists i :: 0 <= i < |exclusions| && IsSubtreeOrEqual(path, exclusions[i])
  {
    for i := 0 to |exclusions|
      invariant forall k :: 0 <= k < i ==> !IsSubtreeOrEqual(path, exclusions[k])
    {
      if IsSubtreeOrEqual(path, exclusions[i]) {
        return true;
      }
    }
    matched := false;
  }

  /** For normalised requests and exclusions the text test is the test on segment lists. */
  lemma NormalizedSubtree(valid: string -> bool, rawPath: string, rawExcluded: string)
    ensures var p, e := Normalize(valid, rawPath), Normalize(valid, rawExcluded);
            p.Some? && e.Some? ==>
              exists path, excluded ::
                Normal(path) && Normal(excluded) && p.value == PathOf(path) && e.value == PathOf(excluded)
                && (IsSubtreeOrEqual(p.value, e.value) <==> excluded <= path)
  {
    hide Normalize, PathOf, IsSubtreeOrEqual, Clean, HasRun;
    var p, e := Normalize(valid, rawPath), Normalize(valid, rawExcluded);
    if p.Some? && e.Some? {
      NormalizedShape(valid, rawPath);
      NormalizedShape(valid, rawExcluded);
      var path :| Normal(path) && p.value == PathOf(path);
      var excluded :| Normal(excluded) && e.value == PathOf(excluded);
      SubtreeIsPrefix(path, excluded);
    }
  }
}
