/** The line-based multipart scanner (guardcore/multipartscan.go:43-199). */
module Multipart {
  import opened HeaderParams
  import opened Texts

  datatype Header = Header(name: string, value: string)

  datatype Part = Part(headers: seq<Header>, payload: string)

  /** `Faulted` stands for the runtime error of a slice that starts past the end of the body. */
  datatype Scan = Scanned(parts: seq<Part>) | Faulted

  // ---------------------------------------------------------------- lines

  predicate IsPadding(c: char) {
    c == ' ' || c == '\t'
  }

  function TrimRight(s: string): string {
    if s != "" && IsPadding(s[|s| - 1]) then TrimRight(s[..|s| - 1]) else s
  }

  function TrimLeft(s: string): string {
    if s != "" && IsPadding(s[0]) then TrimLeft(s[1..]) else s
  }

  /** A line without its carriage return and transport padding. */
  function Content(line: string): string {
    TrimRight(if line != "" && line[|line| - 1] == '\r' then line[..|line| - 1] else line)
  }

  function LineEnd(body: string, pos: nat): (e: nat)
    requires pos <= |body|
    ensures pos <= e <= |body|
    ensures '\n' !in body[pos..e]
    ensures e < |body| ==> body[e] == '\n'
  {
    var at := IndexByte(body[pos..], '\n');
    if at < 0 then
      assert body[pos..|body|] == body[pos..];
      |body|
    else
      assert body[pos..pos + at] == body[pos..][..at];
      pos + at
  }

  function LineContent(body: string, pos: nat): string
    requires pos <= |body|
  {
    Content(body[pos..LineEnd(body, pos)])
  }

  function Delim(boundary: string): string { "--" + boundary }

  function FinalMark(boundary: string): string { Delim(boundary) + "--" }

  // ---------------------------------------------------------------- one level, as functions

  /** Where the first part starts; none when the body is closed before any part. */
  function SkipPreamble(body: string, boundary: string, pos: nat): (r: Option<nat>)
    ensures r.Some? ==> r.value > 0
    requires pos <= |body| + 1
    ensures r.Some? ==> r.value <= |body| + 1
    decreases |body| + 1 - pos
  {
    if pos > |body| then Some(pos)
    else
      var content, next := LineContent(body, pos), LineEnd(body, pos) + 1;
      if content == Delim(boundary) then Some(next)
      else if FinalMark(boundary) <= content then None
      else SkipPreamble(body, boundary, next)
  }

  datatype HeaderBlock = HeaderBlock(headers: seq<Header>, payloadStart: int, next: nat)

  predicate Folded(content: string, headers: seq<Header>) {
    headers != [] && content != "" && IsPadding(content[0])
  }

  /** The header list once a continuation line is joined to its last value, line break kept. */
  function Fold(headers: seq<Header>, raw: string, content: string): seq<Header>
    requires headers != []
  {
    var last := headers[|headers| - 1];
    var br := if raw != "" && raw[|raw| - 1] == '\r' then "\r\n" else "\n";
    headers[|headers| - 1 := last.(value := last.value + br + content)]
  }

  function HeaderOf(content: string): Header
    requires ':' in content
  {
    var at := IndexByte(content, ':');
    Header(content[..at], TrimLeft(content[at + 1..]))
  }

  function ReadHeaders(body: string, pos: nat, headers: seq<Header>): (r: HeaderBlock)
    requires pos <= |body| + 1
    ensures r.next <= |body| + 1
    ensures r.payloadStart == -1 || pos <= r.payloadStart <= r.next
    decreases |body| + 1 - pos
  {
    if pos > |body| then HeaderBlock(headers, -1, pos)
    else
      var end := LineEnd(body, pos);
      var content := LineContent(body, pos);
      if content == "" then HeaderBlock(headers, end + 1, end + 1)
      else if Folded(content, headers) then ReadHeaders(body, end + 1, Fold(headers, body[pos..end], content))
      else if ':' !in content then HeaderBlock(headers, pos, end + 1)
      else ReadHeaders(body, end + 1, headers + [HeaderOf(content)])
  }

  /** A boundary line: where it starts, and whether it closes the body. */
  datatype Mark = Mark(start: nat, next: nat, final: bool) | NoMark

  function FindMark(body: string, boundary: string, pos: nat): (r: Mark)
    requires pos <= |body| + 1
    ensures r.Mark? ==> pos <= r.start <= |body| && r.start < r.next <= |body| + 1
    decreases |body| + 1 - pos
  {
    if pos > |body| then NoMark
    else
      var content, next := LineContent(body, pos), LineEnd(body, pos) + 1;
      if content == Delim(boundary) || FinalMark(boundary) <= content then
        Mark(pos, next, FinalMark(boundary) <= content)
      else FindMark(body, boundary, next)
  }

  /** The payload up to a boundary line; the line break before that line belongs to the boundary. */
  function PayloadSlice(body: string, payloadStart: nat, markStart: nat): (r: string)
    requires markStart <= |body|
    ensures |r| == 0 || |r| <= markStart - payloadStart
  {
    if markStart <= payloadStart then ""
    else if body[markStart - 1] != '\n' then body[payloadStart..markStart]
    else if markStart - 1 > payloadStart && body[markStart - 2] == '\r' then body[payloadStart..markStart - 2]
    else body[payloadStart..markStart - 1]
  }

  datatype PartRead =
    | PartRead(headers: seq<Header>, payload: string, next: nat, closed: bool, final: bool)
    | PartFault

  function ReadPart(body: string, boundary: string, pos: nat): (r: PartRead)
    requires pos <= |body|
    ensures r.PartRead? ==> pos < r.next <= |body| + 1 && |r.payload| <= |body| - pos
  {
    var block := ReadHeaders(body, pos, []);
    var mark := if block.payloadStart < 0 then NoMark else FindMark(body, boundary, block.next);
    if mark.Mark? then
      PartRead(block.headers, PayloadSlice(body, block.payloadStart, mark.start), mark.next, true, mark.final)
    else if block.payloadStart < 0 then PartRead(block.headers, "", |body| + 1, false, false)
    else if block.payloadStart > |body| then PartFault
    else PartRead(block.headers, body[block.payloadStart..], |body| + 1, false, false)
  }

  // ---------------------------------------------------------------- nested levels

  function FirstHeader(t: TextOps, headers: seq<Header>, lowerName: string): string {
    if headers == [] then ""
    else if t.equalFold(headers[0].name, lowerName) then headers[0].value
    else FirstHeader(t, headers[1..], lowerName)
  }

  predicate MainTypeIsMultipart(mainType: string) {
    var at := IndexByte(mainType, '/');
    (if at < 0 then mainType else mainType[..at]) == "multipart"
  }

  /** The boundary of a nested container; empty for an ordinary part. */
  function ContainerBoundary(t: TextOps, headers: seq<Header>): string {
    var value := FirstHeader(t, headers, "content-type");
    var params := MediaParams(t, value);
    if MainTypeIsMultipart(MainType(t, value)) && "boundary" in params then params["boundary"] else ""
  }

  /** Nested containers are expanded in place: a container's payload is shorter than its body. */
  function ParseLevel(t: TextOps, body: string, boundary: string): Scan
    decreases |body|, 2, 0
  {
    match SkipPreamble(body, boundary, 0)
    case None => Scanned([])
    case Some(pos) => LevelParts(t, body, boundary, pos)
  }

  function LevelParts(t: TextOps, body: string, boundary: string, pos: nat): Scan
    requires 0 < pos <= |body| + 1
    decreases |body|, 1, |body| + 1 - pos
  {
    if pos > |body| then Scanned([])
    else
      var part := ReadPart(body, boundary, pos);
      if part.PartFault? then Faulted
      else
        var leaves := Expand(t, part.headers, part.payload);
        if leaves.Faulted? || !part.closed || part.final then leaves
        else
          var rest := LevelParts(t, body, boundary, part.next);
          if rest.Faulted? then Faulted else Scanned(leaves.parts + rest.parts)
  }

  function Expand(t: TextOps, headers: seq<Header>, payload: string): Scan
    decreases |payload|, 3, 0
  {
    var boundary := ContainerBoundary(t, headers);
    if boundary != "" then ParseLevel(t, payload, boundary) else Scanned([Part(headers, payload)])
  }

  function ParseParts(t: TextOps, body: string, boundary: string): Scan {
    if boundary == "" then Scanned([]) else ParseLevel(t, body, boundary)
  }

  // ---------------------------------------------------------------- the scanner's loops

  method NextLine(body: string, pos: nat) returns (start: nat, end: nat, next: nat)
    requires pos <= |body|
    ensures start == pos && end == LineEnd(body, pos) && next == end + 1
  {
    start := pos;
    var at := IndexByte(body[pos..], '\n');
    if at < 0 {
      return start, |body|, |body| + 1;
    }
    return start, pos + at, pos + at + 1;
  }

  method SlicePayload(body: string, payloadStart: nat, markStart: nat) returns (r: string)
    requires markStart <= |body|
    ensures r == PayloadSlice(body, payloadStart, markStart)
  {
    if markStart <= payloadStart {
      return "";
    }
    var end := markStart;
    if end > payloadStart && body[end - 1] == '\n' {
      end := end - 1;
      if end > payloadStart && body[end - 1] == '\r' {
        end := end - 1;
      }
    }
    r := body[payloadStart..end];
  }

  /** What the scanner has seen of the part that starts at `from`. */
  ghost predicate Reading(
    body: string, boundary: string, from: nat, pos: nat, inHeaders: bool, headers: seq<Header>, payloadStart: int)
    requires from <= |body| && pos <= |body| + 1
  {
    var block := ReadHeaders(body, from, []);
    if inHeaders then payloadStart == -1 && ReadHeaders(body, pos, headers) == block
    else
      && payloadStart == block.payloadStart >= 0 && headers == block.headers
      && FindMark(body, boundary, block.next) == FindMark(body, boundary, pos)
  }

  lemma HeaderLine(body: string, boundary: string, from: nat, pos: nat, headers: seq<Header>)
    requires from <= |body| && pos <= |body| && Reading(body, boundary, from, pos, true, headers, -1)
    ensures var end := LineEnd(body, pos);
            var content := LineContent(body, pos);
            if content == "" then Reading(body, boundary, from, end + 1, false, headers, end + 1)
            else if Folded(content, headers) then
              Reading(body, boundary, from, end + 1, true, Fold(headers, body[pos..end], content), -1)
            else if ':' !in content then Reading(body, boundary, from, end + 1, false, headers, pos)
            else Reading(body, boundary, from, end + 1, true, headers + [HeaderOf(content)], -1)
  {
    hide FindMark, LineContent, LineEnd, Fold, HeaderOf, Folded;
  }

  lemma PayloadLine(body: string, boundary: string, from: nat, pos: nat, headers: seq<Header>, payloadStart: int)
    requires from <= |body| && pos <= |body| && Reading(body, boundary, from, pos, false, headers, payloadStart)
    ensures var content, next := LineContent(body, pos), LineEnd(body, pos) + 1;
            if content == Delim(boundary) || FinalMark(boundary) <= content then
              payloadStart >= 0 &&
              ReadPart(body, boundary, from) ==
              PartRead(headers, PayloadSlice(body, payloadStart, pos), next, true, FinalMark(boundary) <= content)
            else Reading(body, boundary, from, next, false, headers, payloadStart)
  {
    hide ReadHeaders, LineContent, LineEnd, PayloadSlice;
  }

  lemma PartEnd(body: string, boundary: string, from: nat, inHeaders: bool, headers: seq<Header>, payloadStart: int)
    requires from <= |body| && Reading(body, boundary, from, |body| + 1, inHeaders, headers, payloadStart)
    ensures var start := if payloadStart < 0 then |body| else payloadStart;
            ReadPart(body, boundary, from) ==
            if start > |body| then PartFault else PartRead(headers, body[start..], |body| + 1, false, false)
  {
    hide PayloadSlice;
    assert ReadHeaders(body, |body| + 1, headers) == HeaderBlock(headers, -1, |body| + 1);
    assert body[|body|..] == "";
  }

  method ReadOnePart(body: string, boundary: string, from: nat) returns (r: PartRead)
    requires from <= |body|
    ensures r == ReadPart(body, boundary, from)
  {
    hide Reading, ReadPart, ReadHeaders, FindMark, Content, IndexByte, PayloadSlice, TrimLeft;
    var delim, finalMark := Delim(boundary), FinalMark(boundary);
    var headers: seq<Header> := [];
    var inHeaders, payloadStart, pos := true, -1, from;
    ReadingStart(body, boundary, from);
    while pos <= |body|
      invariant pos <= |body| + 1 && Reading(body, boundary, from, pos, inHeaders, headers, payloadStart)
      invariant inHeaders ==> payloadStart == -1
    {
      var start, end, next := NextLine(body, pos);
      var raw := body[start..end];
      var content := Content(raw);
      if inHeaders {
        HeaderLine(body, boundary, from, pos, headers);
        if content == "" {
          inHeaders := false;
          payloadStart := next;
        } else if headers != [] && (content[0] == ' ' || content[0] == '\t') {
          var br := "\n";
          if raw != "" && raw[|raw| - 1] == '\r' {
            br := "\r\n";
          }
          var last := headers[|headers| - 1];
          headers := headers[|headers| - 1 := last.(value := last.value + br + content)];
        } else {
          var at := IndexByte(content, ':');
          if at < 0 {
            inHeaders := false;
            payloadStart := start;
          } else {
            headers := headers + [Header(content[..at], TrimLeft(content[at + 1..]))];
          }
        }
        pos := next;
        continue;
      }
      PayloadLine(body, boundary, from, pos, headers, payloadStart);
      if content == delim || finalMark <= content {
        var payload := SlicePayload(body, payloadStart, start);
        return PartRead(headers, payload, next, true, finalMark <= content);
      }
      pos := next;
    }
    PartEnd(body, boundary, from, inHeaders, headers, payloadStart);
    if payloadStart < 0 {
      payloadStart := |body|;
    }
    if payloadStart > |body| {
      return PartFault;
    }
    r := PartRead(headers, body[payloadStart..], |body| + 1, false, false);
  }

  lemma ReadingStart(body: string, boundary: string, from: nat)
    requires from <= |body|
    ensures Reading(body, boundary, from, from, true, [], -1)
  {
  }

  method FirstHeaderValue(t: TextOps, headers: seq<Header>, lowerName: string) returns (value: string)
    ensures value == FirstHeader(t, headers, lowerName)
  {
    for i := 0 to |headers|
      invariant FirstHeader(t, headers[i..], lowerName) == FirstHeader(t, headers, lowerName)
    {
      assert headers[i..][1..] == headers[i + 1..];
      if t.equalFold(headers[i].name, lowerName) {
        return headers[i].value;
      }
    }
    value := "";
  }

  method AppendLeafOrContainer(t: TextOps, parts: seq<Part>, headers: seq<Header>, payload: string) returns (r: Scan)
    ensures var leaves := Expand(t, headers, payload);
            r == if leaves.Faulted? then Faulted else Scanned(parts + leaves.parts)
    decreases |payload|, 3, 0
  {
    hide MediaParams, MainType, FirstHeader, ParseLevel;
    var value := FirstHeaderValue(t, headers, "content-type");
    var mainType, params := ParseMediaTypeParams(t, value);
    if MainTypeIsMultipart(mainType) && "boundary" in params && params["boundary"] != "" {
      var nested := ScanLevel(t, payload, params["boundary"]);
      if nested.Faulted? {
        return Faulted;
      }
      return Scanned(parts + nested.parts);
    }
    r := Scanned(parts + [Part(headers, payload)]);
  }

  ghost predicate LevelLeft(t: TextOps, body: string, boundary: string, pos: nat, done: seq<Part>, whole: Scan)
    requires 0 < pos <= |body| + 1
  {
    var rest := LevelParts(t, body, boundary, pos);
    whole == if rest.Faulted? then Faulted else Scanned(done + rest.parts)
  }

  lemma LevelStep(t: TextOps, body: string, boundary: string, pos: nat, done: seq<Part>, whole: Scan)
    requires 0 < pos <= |body| && LevelLeft(t, body, boundary, pos, done, whole)
    ensures var part := ReadPart(body, boundary, pos);
            if part.PartFault? then whole == Faulted
            else
              var leaves := Expand(t, part.headers, part.payload);
              if leaves.Faulted? then whole == Faulted
              else if !part.closed || part.final then whole == Scanned(done + leaves.parts)
              else LevelLeft(t, body, boundary, part.next, done + leaves.parts, whole)
  {
    hide ReadPart, Expand;
    var part := ReadPart(body, boundary, pos);
    if part.PartRead? {
      var leaves := Expand(t, part.headers, part.payload);
      if leaves.Scanned? && part.closed && !part.final {
        var rest := LevelParts(t, body, boundary, part.next);
        if rest.Scanned? {
          assert done + (leaves.parts + rest.parts) == done + leaves.parts + rest.parts;
        }
      }
    }
  }

  method ScanLevel(t: TextOps, body: string, boundary: string) returns (r: Scan)
    ensures r == ParseLevel(t, body, boundary)
    decreases |body|, 2, 0
  {
    hide ReadPart, Expand, LevelLeft, LevelParts, Content;
    var delim, finalMark := Delim(boundary), FinalMark(boundary);
    var pos := 0;
    while pos <= |body|
      invariant pos <= |body| + 1 && SkipPreamble(body, boundary, pos) == SkipPreamble(body, boundary, 0)
    {
      var start, end, next := NextLine(body, pos);
      var bare := Content(body[start..end]);
      if bare == delim {
        pos := next;
        break;
      }
      if finalMark <= bare {
        return Scanned([]);
      }
      pos := next;
    }
    var parts: seq<Part> := [];
    ghost var whole := ParseLevel(t, body, boundary);
    LevelStart(t, body, boundary, pos, whole);
    while pos <= |body|
      invariant 0 < pos <= |body| + 1 && LevelLeft(t, body, boundary, pos, parts, whole)
    {
      LevelStep(t, body, boundary, pos, parts, whole);
      var part := ReadOnePart(body, boundary, pos);
      if part.PartFault? {
        return Faulted;
      }
      var appended := AppendLeafOrContainer(t, parts, part.headers, part.payload);
      if appended.Faulted? {
        return Faulted;
      }
      parts := appended.parts;
      if !part.closed || part.final {
        return Scanned(parts);
      }
      pos := part.next;
    }
    LevelEnd(t, body, boundary, pos, parts, whole);
    r := Scanned(parts);
  }

  lemma LevelStart(t: TextOps, body: string, boundary: string, pos: nat, whole: Scan)
    requires 0 < pos <= |body| + 1 && whole == LevelParts(t, body, boundary, pos)
    ensures LevelLeft(t, body, boundary, pos, [], whole)
  {
    hide LevelParts;
    if whole.Scanned? {
      assert [] + whole.parts == whole.parts;
    }
  }

  lemma LevelEnd(t: TextOps, body: string, boundary: string, pos: nat, done: seq<Part>, whole: Scan)
    requires pos == |body| + 1 && LevelLeft(t, body, boundary, pos, done, whole)
    ensures whole == Scanned(done)
  {
  }

  method ParseMultipartParts(t: TextOps, body: string, boundary: string) returns (r: Scan)
    ensures r == ParseParts(t, body, boundary)
  {
    if boundary == "" {
      return Scanned([]);
    }
    r := ScanLevel(t, body, boundary);
  }
}
