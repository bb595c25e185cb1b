/** When the multipart scanner fails, and how much it returns (guardcore/multipartscan.go:50-163). */
module MultipartFaults {
  import opened HeaderParams
  import opened Multipart
  import opened Texts

  // ---------------------------------------------------------------- runtime errors

  /** From here on there are header lines only, and what follows the last line break is blank. */
  predicate HeadersToTheEnd(text: string, folding: bool) {
    var e := IndexByte(text, '\n');
    var content := Content(if e < 0 then text else text[..e]);
    if content == "" then e < 0
    else e >= 0 && ((folding && IsPadding(content[0])) || ':' in content) && HeadersToTheEnd(text[e + 1..], true)
  }

  lemma LineOfTail(body: string, pos: nat)
    requires pos <= |body|
    ensures var e := IndexByte(body[pos..], '\n');
            && LineEnd(body, pos) == (if e < 0 then |body| else pos + e)
            && body[pos..LineEnd(body, pos)] == (if e < 0 then body[pos..] else body[pos..][..e])
            && (e >= 0 ==> body[pos..][e + 1..] == body[pos + e + 1..])
  {
  }

  lemma {:induction false} HeadersRunOut(body: string, pos: nat, headers: seq<Header>)
    requires pos <= |body|
    ensures ReadHeaders(body, pos, headers).payloadStart > |body| <==> HeadersToTheEnd(body[pos..], headers != [])
    decreases |body| - pos
  {
    hide *;
    HeadersUnfold(body, pos, headers);
    TailUnfold(body, pos, headers);
    var end, content := LineEnd(body, pos), LineContent(body, pos);
    if end < |body| && content != "" {
      if Folded(content, headers) {
        FoldKeeps(headers, body[pos..end], content);
        HeadersRunOut(body, end + 1, Fold(headers, body[pos..end], content));
      } else if ':' in content {
        HeadersRunOut(body, end + 1, headers + [HeaderOf(content)]);
      }
    }
  }

  /** One line of a header block, as far as reaching the end is concerned. */
  lemma HeadersUnfold(body: string, pos: nat, headers: seq<Header>)
    requires pos <= |body|
    ensures var end, content := LineEnd(body, pos), LineContent(body, pos);
            var start := ReadHeaders(body, pos, headers).payloadStart;
            if content == "" then start > |body| <==> end == |body|
            else if end == |body| then start <= |body|
            else if Folded(content, headers) then
              headers != [] &&
              ReadHeaders(body, pos, headers) == ReadHeaders(body, end + 1, Fold(headers, body[pos..end], content))
            else if ':' in content then
              ReadHeaders(body, pos, headers) == ReadHeaders(body, end + 1, headers + [HeaderOf(content)])
            else start <= |body|
  {
    hide LineContent, LineEnd, Fold, HeaderOf;
  }

  lemma TailUnfold(body: string, pos: nat, headers: seq<Header>)
    requires pos <= |body|
    ensures var end, content := LineEnd(body, pos), LineContent(body, pos);
            HeadersToTheEnd(body[pos..], headers != []) <==>
            if content == "" then end == |body|
            else end < |body| && (Folded(content, headers) || ':' in content) && HeadersToTheEnd(body[end + 1..], true)
  {
    hide Content, LineEnd;
    LineOfTail(body, pos);
  }

  lemma FoldKeeps(headers: seq<Header>, raw: string, content: string)
    requires headers != []
    ensures Fold(headers, raw, content) != []
  {
  }

  /** Reading a part fails exactly when the body ends inside its header block, at a blank line
      that no line break ends. */
  lemma PartFaults(body: string, boundary: string, pos: nat)
    requires pos <= |body|
    ensures ReadPart(body, boundary, pos).PartFault? <==> HeadersToTheEnd(body[pos..], false)
  {
    hide ReadHeaders, PayloadSlice, HeadersToTheEnd;
    HeadersRunOut(body, pos, []);
  }

  /** The shortest such body: an opening boundary line and nothing more. */
  lemma OpenBoundaryFaults(t: TextOps)
    ensures ParseParts(t, "--B\n", "B") == Faulted
  {
    hide ReadPart, Expand;
    var body := "--B\n";
    FirstIndex(body, '\n', 3);
    assert body[0..] == body && body[0..3] == "--B" == Delim("B");
    assert body[4..] == "";
    PartFaults(body, "B", 4);
    assert HeadersToTheEnd("", false);
    assert SkipPreamble(body, "B", 0) == Some(4);
  }

  // ---------------------------------------------------------------- failing scans

  /** A part starts at `p` when one starts at `from`: the parts between are all closed by a boundary
      line that is not the final one. */
  predicate PartFollows(body: string, boundary: string, from: nat, p: nat)
    decreases |body| + 1 - from
  {
    || from == p
    || (from <= |body| && var part := ReadPart(body, boundary, from);
        part.PartRead? && part.closed && !part.final && PartFollows(body, boundary, part.next, p))
  }

  /** The body ends in the header block of the part at `p`, or the part is a container and the scan of
      its payload fails. */
  ghost predicate FaultyPart(t: TextOps, body: string, boundary: string, p: nat)
    requires 0 < p <= |body|
    decreases |body|, 0
  {
    || HeadersToTheEnd(body[p..], false)
    || var part := ReadPart(body, boundary, p);
       && part.PartRead? && ContainerBoundary(t, part.headers) != ""
       && Faults(t, part.payload, ContainerBoundary(t, part.headers))
  }

  ghost predicate FaultyFrom(t: TextOps, body: string, boundary: string, from: nat)
    decreases |body|, 1
  {
    exists p: nat :: 0 < p <= |body| && PartFollows(body, boundary, from, p) && FaultyPart(t, body, boundary, p)
  }

  /** Some part of the level is faulty. */
  ghost predicate Faults(t: TextOps, body: string, boundary: string)
    decreases |body|, 2
  {
    var start := SkipPreamble(body, boundary, 0);
    start.Some? && FaultyFrom(t, body, boundary, start.value)
  }

  /** The scan of a whole body fails exactly when it meets, at this level or in a nested container, a
      part in whose header block the text ends at a blank line that no line break ends. */
  lemma {:induction false} ScanFaults(t: TextOps, body: string, boundary: string)
    ensures ParseLevel(t, body, boundary).Faulted? <==> Faults(t, body, boundary)
    decreases |body|, 2, 0
  {
    hide LevelParts, SkipPreamble, FaultyFrom;
    var start := SkipPreamble(body, boundary, 0);
    if start.Some? {
      LevelFaults(t, body, boundary, start.value);
    }
  }

  lemma {:induction false} LevelFaults(t: TextOps, body: string, boundary: string, from: nat)
    requires 0 < from <= |body| + 1
    ensures LevelParts(t, body, boundary, from).Faulted? <==> FaultyFrom(t, body, boundary, from)
    decreases |body|, 1, |body| + 1 - from
  {
    hide ReadPart, Expand, FaultyPart, HeadersToTheEnd;
    if from <= |body| {
      assert PartFollows(body, boundary, from, from);
      FaultHere(t, body, boundary, from);
      var part := ReadPart(body, boundary, from);
      if part.PartRead? && part.closed && !part.final {
        LevelFaults(t, body, boundary, part.next);
        forall p: nat | 0 < p <= |body|
          ensures PartFollows(body, boundary, from, p) <==> p == from || PartFollows(body, boundary, part.next, p)
        {
        }
      }
    }
  }

  lemma {:induction false} FaultHere(t: TextOps, body: string, boundary: string, p: nat)
    requires 0 < p <= |body|
    ensures var part := ReadPart(body, boundary, p);
            FaultyPart(t, body, boundary, p) <==>
            part.PartFault? || Expand(t, part.headers, part.payload).Faulted?
    decreases |body|, 1, 0
  {
    hide ReadPart, HeadersToTheEnd, ParseLevel, Faults;
    PartFaults(body, boundary, p);
    var part := ReadPart(body, boundary, p);
    if part.PartRead? {
      ScanFaults(t, part.payload, ContainerBoundary(t, part.headers));
    }
  }

  /** The same for the entry point: without a boundary nothing is scanned. */
  lemma BodyFaults(t: TextOps, body: string, boundary: string)
    ensures ParseParts(t, body, boundary).Faulted? <==> boundary != "" && Faults(t, body, boundary)
  {
    hide ParseLevel, Faults;
    ScanFaults(t, body, boundary);
  }

  // ---------------------------------------------------------------- sizes

  function Size(parts: seq<Part>): nat {
    if parts == [] then 0 else |parts[0].payload| + Size(parts[1..])
  }

  lemma {:induction false} SizeConcat(a: seq<Part>, b: seq<Part>)
    ensures Size(a + b) == Size(a) + Size(b)
  {
    if a == [] {
      assert a + b == b;
    } else {
      assert (a + b)[1..] == a[1..] + b;
      SizeConcat(a[1..], b);
    }
  }

  /** No payload byte is returned twice: the leaves together are no longer than the body. */
  lemma {:induction false} PayloadsFit(t: TextOps, body: string, boundary: string)
    ensures var r := ParseLevel(t, body, boundary);
            r.Scanned? ==> Size(r.parts) <= |body|
    decreases |body|, 2, 0
  {
    hide LevelParts, SkipPreamble;
    var start := SkipPreamble(body, boundary, 0);
    if start.Some? {
      LevelFits(t, body, boundary, start.value);
    }
  }

  lemma {:induction false} LevelFits(t: TextOps, body: string, boundary: string, pos: nat)
    requires 0 < pos <= |body| + 1
    ensures var r := LevelParts(t, body, boundary, pos);
            r.Scanned? ==> Size(r.parts) <= |body| + 1 - pos
    decreases |body|, 1, |body| + 1 - pos
  {
    hide ReadPart, Expand, Size;
    NoSize();
    if pos <= |body| {
      var part := ReadPart(body, boundary, pos);
      if part.PartRead? {
        PartFits(body, boundary, pos);
        ExpandFits(t, part.headers, part.payload);
        if part.closed && !part.final {
          LevelFits(t, body, boundary, part.next);
          var leaves, rest := Expand(t, part.headers, part.payload), LevelParts(t, body, boundary, part.next);
          if leaves.Scanned? && rest.Scanned? {
            SizeConcat(leaves.parts, rest.parts);
          }
        }
      }
    }
  }

  lemma NoSize()
    ensures Size([]) == 0
  {
  }

  lemma PartFits(body: string, boundary: string, pos: nat)
    requires pos <= |body|
    ensures var r := ReadPart(body, boundary, pos);
            r.PartRead? ==> |r.payload| <= r.next - pos && |r.payload| < |body| + 1 - pos
  {
    hide ReadHeaders, FindMark, PayloadSlice;
  }

  lemma {:induction false} ExpandFits(t: TextOps, headers: seq<Header>, payload: string)
    ensures var r := Expand(t, headers, payload);
            r.Scanned? ==> Size(r.parts) <= |payload|
    decreases |payload|, 3, 0
  {
    hide ParseLevel;
    var boundary := ContainerBoundary(t, headers);
    if boundary != "" {
      PayloadsFit(t, payload, boundary);
    } else {
      assert Size([Part(headers, payload)]) == |payload| + Size([Part(headers, payload)][1..]);
      NoSize();
    }
  }
}
