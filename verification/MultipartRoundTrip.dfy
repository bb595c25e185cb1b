/** Writing nested multipart bodies and scanning them back (guardcore/multipartscan.go:5-25,
    section 5.1.1 of RFC 2046). */
module MultipartRoundTrip {
  import opened HeaderParams
  import opened Multipart
  import opened Texts

  // ---------------------------------------------------------------- written bodies

  /** `crlf` chooses the line break of the delimiters and headers; `padding` follows delimiters. */
  datatype Message = Message(
    crlf: bool, padding: string, boundary: string, preamble: string, entities: seq<Entity>, epilogue: string)

  datatype Entity =
    | Leaf(headers: seq<Header>, payload: string)
    | Container(headers: seq<Header>, message: Message)

  function Eol(crlf: bool): string {
    if crlf then "\r\n" else "\n"
  }

  function WriteHeader(h: Header, crlf: bool): string {
    h.name + ": " + h.value + Eol(crlf)
  }

  function WriteHeaders(headers: seq<Header>, crlf: bool): string {
    if headers == [] then "" else WriteHeader(headers[0], crlf) + WriteHeaders(headers[1..], crlf)
  }

  function DelimLine(m: Message): string {
    Delim(m.boundary) + m.padding + Eol(m.crlf)
  }

  function PayloadOf(e: Entity): string
    decreases e, 0
  {
    match e
    case Leaf(_, payload) => payload
    case Container(_, message) => Write(message)
  }

  function WriteEntities(entities: seq<Entity>, m: Message): string
    decreases entities, 1
  {
    if entities == [] then ""
    else
      DelimLine(m) + WriteHeaders(entities[0].headers, m.crlf) + Eol(m.crlf)
      + PayloadOf(entities[0]) + Eol(m.crlf) + WriteEntities(entities[1..], m)
  }

  function Write(m: Message): string
    decreases m, 2
  {
    m.preamble + WriteEntities(m.entities, m) + FinalMark(m.boundary) + m.epilogue
  }

  /** The leaves in document order. */
  function EntityLeaves(e: Entity): seq<Part>
    decreases e, 0
  {
    match e
    case Leaf(headers, payload) => [Part(headers, payload)]
    case Container(_, message) => Leaves(message.entities)
  }

  function Leaves(entities: seq<Entity>): seq<Part>
    decreases entities, 1
  {
    if entities == [] then [] else EntityLeaves(entities[0]) + Leaves(entities[1..])
  }

  // ---------------------------------------------------------------- what is asked of them

  predicate Marks(line: string, boundary: string) {
    Content(line) == Delim(boundary) || FinalMark(boundary) <= Content(line)
  }

  /** Complete lines, none of which reads as a boundary line. */
  predicate Unmarked(text: string, boundary: string) {
    text == "" ||
    var e := IndexByte(text, '\n');
    e >= 0 && !Marks(text[..e], boundary) && Unmarked(text[e + 1..], boundary)
  }

  predicate Firm(c: char) {
    !IsPadding(c) && c != '\r' && c != '\n'
  }

  predicate Boundary(b: string) {
    b != "" && '\n' !in b && Firm(b[|b| - 1])
  }

  /** An unfolded header: a name without colon, a value without outer blanks. */
  predicate PlainHeader(h: Header) {
    && '\n' !in h.name && ':' !in h.name && (h.name != "" ==> !IsPadding(h.name[0]))
    && '\n' !in h.value && (h.value != "" ==> !IsPadding(h.value[0]) && Firm(h.value[|h.value| - 1]))
  }

  predicate PlainHeaders(headers: seq<Header>) {
    forall i :: 0 <= i < |headers| ==> PlainHeader(headers[i])
  }

  predicate Fits(payload: string, m: Message) {
    && Unmarked(payload + Eol(m.crlf), m.boundary)
    && (!m.crlf && payload != "" ==> payload[|payload| - 1] != '\r')
  }

  ghost predicate ValidEntity(t: TextOps, e: Entity)
    decreases e, 0
  {
    && PlainHeaders(e.headers)
    && match e
       case Leaf(headers, _) => ContainerBoundary(t, headers) == ""
       case Container(headers, message) =>
         ContainerBoundary(t, headers) == message.boundary && ValidMessage(t, message)
  }

  ghost predicate ValidEntities(t: TextOps, entities: seq<Entity>, m: Message)
    decreases entities, 1
  {
    entities == [] ||
    (ValidEntity(t, entities[0]) && Fits(PayloadOf(entities[0]), m) && ValidEntities(t, entities[1..], m))
  }

  ghost predicate Framed(m: Message) {
    Boundary(m.boundary) && forall i :: 0 <= i < |m.padding| ==> IsPadding(m.padding[i])
  }

  ghost predicate ValidMessage(t: TextOps, m: Message)
    decreases m, 2
  {
    && Framed(m)
    && Unmarked(m.preamble, m.boundary)
    && ValidEntities(t, m.entities, m)
  }

  // ---------------------------------------------------------------- lines read back

  lemma LineAt(body: string, pos: nat, line: string)
    requires TextAt(body, pos, line + "\n") && '\n' !in line
    ensures LineEnd(body, pos) == pos + |line| < |body| && body[pos..pos + |line|] == line
  {
    TextSplit(body, pos, line, "\n");
    TextChar(body, pos, line + "\n", |line|);
    assert body[pos..][..|line|] == line;
    FirstIndex(body[pos..], '\n', |line|);
  }

  /** The line at `pos` starts with `start`. */
  lemma LineStartsWith(body: string, pos: nat, start: string)
    requires TextAt(body, pos, start) && '\n' !in start
    ensures start <= body[pos..LineEnd(body, pos)]
  {
    var e := LineEnd(body, pos);
    assert forall k :: pos <= k < pos + |start| ==> body[k] == body[pos..pos + |start|][k - pos];
    assert body[pos..e][..|start|] == start;
  }

  lemma {:induction false} TrimBlanks(s: string, blanks: string)
    requires s != "" && !IsPadding(s[|s| - 1])
    requires forall i :: 0 <= i < |blanks| ==> IsPadding(blanks[i])
    ensures TrimRight(s + blanks) == s
  {
    if blanks == "" {
      assert s + blanks == s;
    } else {
      var n := |blanks| - 1;
      assert (s + blanks)[..|s| + n] == s + blanks[..n];
      TrimBlanks(s, blanks[..n]);
    }
  }

  /** A firm line with padding and possibly a carriage return. */
  lemma ContentOf(s: string, blanks: string, crlf: bool)
    requires s != "" && Firm(s[|s| - 1])
    requires forall i :: 0 <= i < |blanks| ==> IsPadding(blanks[i])
    ensures Content(s + blanks + if crlf then "\r" else "") == s
  {
    TrimBlanks(s, blanks);
    var line := s + blanks + if crlf then "\r" else "";
    if crlf {
      assert line[..|line| - 1] == s + blanks;
    } else {
      assert line == s + blanks;
    }
  }

  lemma {:induction false} TrimKeeps(s: string, rest: string)
    requires s != "" && !IsPadding(s[|s| - 1])
    ensures s <= TrimRight(s + rest)
  {
    var n := |rest| - 1;
    if rest != "" && IsPadding(rest[n]) {
      assert (s + rest)[..|s| + n] == s + rest[..n];
      TrimKeeps(s, rest[..n]);
    }
  }

  lemma ContentKeeps(s: string, line: string)
    requires s != "" && Firm(s[|s| - 1]) && s <= line
    ensures s <= Content(line)
  {
    var rest := line[|s|..];
    assert line == s + rest;
    if line[|line| - 1] == '\r' {
      assert line[..|line| - 1] == s + rest[..|rest| - 1];
      TrimKeeps(s, rest[..|rest| - 1]);
    } else {
      TrimKeeps(s, rest);
    }
  }

  function Cr(crlf: bool): string {
    if crlf then "\r" else ""
  }

  /** A firm line, its padding and a line break, read back. */
  lemma FirmLineAt(body: string, pos: nat, s: string, blanks: string, crlf: bool)
    requires TextAt(body, pos, s + blanks + Eol(crlf))
    requires s != "" && Firm(s[|s| - 1]) && '\n' !in s
    requires forall i :: 0 <= i < |blanks| ==> IsPadding(blanks[i])
    ensures pos <= |body| && LineContent(body, pos) == s
    ensures LineEnd(body, pos) + 1 == pos + |s + blanks + Eol(crlf)| <= |body|
  {
    hide Content;
    var line := s + blanks + Cr(crlf);
    assert s + blanks + Eol(crlf) == line + "\n";
    assert '\n' !in line;
    LineAt(body, pos, line);
    ContentOf(s, blanks, crlf);
  }

  lemma BlankLineAt(body: string, pos: nat, crlf: bool)
    requires TextAt(body, pos, Eol(crlf))
    ensures pos <= |body| && LineContent(body, pos) == ""
    ensures LineEnd(body, pos) + 1 == pos + |Eol(crlf)| <= |body|
  {
    assert Eol(crlf) == Cr(crlf) + "\n";
    LineAt(body, pos, Cr(crlf));
    assert "\r"[..0] == "";
  }

  // ---------------------------------------------------------------- headers read back

  /** A header with a value. */
  lemma ValuedHeader(h: Header)
    requires PlainHeader(h) && h.value != ""
    ensures var s := h.name + ": " + h.value;
            s != "" && Firm(s[|s| - 1]) && '\n' !in s && ':' in s && HeaderOf(s) == h && !IsPadding(s[0])
  {
    var s := h.name + ": " + h.value;
    NameOf(s, h.name);
    assert s[|h.name| + 1..] == " " + h.value;
    assert TrimLeft(" " + h.value) == TrimLeft((" " + h.value)[1..]);
    assert (" " + h.value)[1..] == h.value;
  }

  lemma EmptyHeader(h: Header)
    requires PlainHeader(h) && h.value == ""
    ensures var s := h.name + ":";
            s != "" && Firm(s[|s| - 1]) && '\n' !in s && ':' in s && HeaderOf(s) == h && !IsPadding(s[0])
  {
    var s := h.name + ":";
    NameOf(s, h.name);
    assert s[|h.name| + 1..] == "";
  }

  lemma NameOf(s: string, name: string)
    requires |name| < |s| && s[..|name|] == name && ':' !in name && s[|name|] == ':'
    ensures IndexByte(s, ':') == |name|
  {
    FirstIndex(s, ':', |name|);
  }

  lemma HeaderAt(body: string, pos: nat, h: Header, crlf: bool)
    requires PlainHeader(h) && TextAt(body, pos, WriteHeader(h, crlf))
    ensures pos <= |body| && LineEnd(body, pos) + 1 == pos + |WriteHeader(h, crlf)| <= |body|
    ensures var content := LineContent(body, pos);
            content != "" && !IsPadding(content[0]) && ':' in content && HeaderOf(content) == h
  {
    hide LineContent, LineEnd, PlainHeader, Firm, HeaderOf, TextAt;
    var s := if h.value == "" then h.name + ":" else h.name + ": " + h.value;
    var blanks := if h.value == "" then " " else "";
    if h.value == "" {
      EmptyHeader(h);
    } else {
      ValuedHeader(h);
    }
    assert WriteHeader(h, crlf) == s + blanks + Eol(crlf);
    FirmLineAt(body, pos, s, blanks, crlf);
  }

  lemma {:induction false} HeadersAt(body: string, pos: nat, headers: seq<Header>, crlf: bool, done: seq<Header>)
    requires PlainHeaders(headers) && TextAt(body, pos, WriteHeaders(headers, crlf) + Eol(crlf))
    ensures var next := pos + |WriteHeaders(headers, crlf)| + |Eol(crlf)|;
            next <= |body| && ReadHeaders(body, pos, done) == HeaderBlock(done + headers, next, next)
    decreases |headers|
  {
    hide LineContent, LineEnd, HeaderOf, PlainHeader, WriteHeader, ReadHeaders, TextAt;
    if headers == [] {
      assert WriteHeaders(headers, crlf) + Eol(crlf) == Eol(crlf);
      HeadersEnd(body, pos, crlf, done);
      assert done + headers == done;
    } else {
      var head, rest := WriteHeader(headers[0], crlf), WriteHeaders(headers[1..], crlf) + Eol(crlf);
      assert WriteHeaders(headers, crlf) + Eol(crlf) == head + rest;
      TextSplit(body, pos, head, rest);
      HeaderRead(body, pos, headers[0], crlf, done);
      HeadersAt(body, pos + |head|, headers[1..], crlf, done + [headers[0]]);
      assert done + [headers[0]] + headers[1..] == done + headers;
    }
  }

  lemma HeadersEnd(body: string, pos: nat, crlf: bool, done: seq<Header>)
    requires TextAt(body, pos, Eol(crlf))
    ensures var next := pos + |Eol(crlf)|;
            pos <= next <= |body| && ReadHeaders(body, pos, done) == HeaderBlock(done, next, next)
  {
    hide LineContent, LineEnd, HeaderOf;
    BlankLineAt(body, pos, crlf);
  }

  lemma HeaderRead(body: string, pos: nat, h: Header, crlf: bool, done: seq<Header>)
    requires PlainHeader(h) && TextAt(body, pos, WriteHeader(h, crlf))
    ensures var next := pos + |WriteHeader(h, crlf)|;
            pos <= next <= |body| && ReadHeaders(body, pos, done) == ReadHeaders(body, next, done + [h])
  {
    hide LineContent, LineEnd, HeaderOf, WriteHeader, PlainHeader, TextAt;
    HeaderAt(body, pos, h, crlf);
  }

  // ---------------------------------------------------------------- payloads read back

  lemma UnmarkedLine(body: string, pos: nat, text: string, boundary: string)
    requires Unmarked(text, boundary) && text != "" && TextAt(body, pos, text)
    ensures var e := IndexByte(text, '\n');
            && pos < |body| && LineEnd(body, pos) == pos + e && !Marks(text[..e], boundary)
            && LineContent(body, pos) == Content(text[..e])
            && TextAt(body, pos + e + 1, text[e + 1..]) && Unmarked(text[e + 1..], boundary)
  {
    hide Content, Unmarked, Marks, LineEnd, TextAt;
    UnmarkedHead(text, boundary);
    var e := IndexByte(text, '\n');
    var line, rest := text[..e], text[e + 1..];
    assert text == (line + "\n") + rest;
    TextSplit(body, pos, line + "\n", rest);
    LineAt(body, pos, line);
  }

  lemma UnmarkedHead(text: string, boundary: string)
    requires Unmarked(text, boundary) && text != ""
    ensures var e := IndexByte(text, '\n');
            e >= 0 && !Marks(text[..e], boundary) && Unmarked(text[e + 1..], boundary)
  {
    hide Marks;
  }

  /** A line that is no mark is passed over. */
  lemma PassLine(body: string, pos: nat, text: string, boundary: string)
    requires Unmarked(text, boundary) && text != "" && TextAt(body, pos, text)
    ensures var e := IndexByte(text, '\n');
            && 0 <= e && TextAt(body, pos + e + 1, text[e + 1..]) && Unmarked(text[e + 1..], boundary)
            && FindMark(body, boundary, pos) == FindMark(body, boundary, pos + e + 1)
            && SkipPreamble(body, boundary, pos) == SkipPreamble(body, boundary, pos + e + 1)
  {
    hide LineContent, LineEnd, Content, Unmarked, TextAt;
    UnmarkedLine(body, pos, text, boundary);
  }

  lemma {:induction false} TextPassed(body: string, pos: nat, text: string, boundary: string)
    requires Unmarked(text, boundary) && TextAt(body, pos, text)
    ensures pos + |text| <= |body|
    ensures FindMark(body, boundary, pos) == FindMark(body, boundary, pos + |text|)
    ensures SkipPreamble(body, boundary, pos) == SkipPreamble(body, boundary, pos + |text|)
    decreases |text|
  {
    hide FindMark, SkipPreamble, Unmarked;
    if text != "" {
      PassLine(body, pos, text, boundary);
      var e := IndexByte(text, '\n');
      TextPassed(body, pos + e + 1, text[e + 1..], boundary);
    }
  }

  lemma PayloadBack(body: string, pos: nat, payload: string, crlf: bool)
    requires TextAt(body, pos, payload + Eol(crlf))
    requires !crlf && payload != "" ==> payload[|payload| - 1] != '\r'
    ensures PayloadSlice(body, pos, pos + |payload| + |Eol(crlf)|) == payload
  {
    TextSplit(body, pos, payload, Eol(crlf));
    TextChar(body, pos + |payload|, Eol(crlf), |Eol(crlf)| - 1);
    if crlf {
      TextChar(body, pos + |payload|, Eol(crlf), 0);
    } else if payload != "" {
      TextChar(body, pos, payload, |payload| - 1);
    }
  }

  // ---------------------------------------------------------------- marks read back

  lemma DelimAt(body: string, pos: nat, m: Message)
    requires Framed(m) && TextAt(body, pos, DelimLine(m))
    ensures var open := pos + |DelimLine(m)|;
            && pos < open <= |body| && FindMark(body, m.boundary, pos) == Mark(pos, open, false)
            && SkipPreamble(body, m.boundary, pos) == Some(open)
  {
    hide LineContent, LineEnd, Content;
    FirmLineAt(body, pos, Delim(m.boundary), m.padding, m.crlf);
  }

  lemma EntitiesText(body: string, pos: nat, m: Message, entities: seq<Entity>)
    requires entities != [] && TextAt(body, pos, WriteEntities(entities, m) + FinalMark(m.boundary))
    ensures TextAt(body, pos, DelimLine(m))
    ensures TextAt(body, pos + |DelimLine(m)|,
                   EntityText(entities[0], m) + (WriteEntities(entities[1..], m) + FinalMark(m.boundary)))
  {
    hide *;
    EntitiesPieces(m, entities);
    TextSplit(body, pos, DelimLine(m),
              EntityText(entities[0], m) + (WriteEntities(entities[1..], m) + FinalMark(m.boundary)));
  }

  lemma EntitiesPieces(m: Message, entities: seq<Entity>)
    requires entities != []
    ensures WriteEntities(entities, m) + FinalMark(m.boundary)
         == DelimLine(m) + (EntityText(entities[0], m) + (WriteEntities(entities[1..], m) + FinalMark(m.boundary)))
  {
    hide WriteHeaders, PayloadOf, DelimLine, FinalMark;
  }

  lemma FinalAt(body: string, pos: nat, boundary: string)
    requires Boundary(boundary) && TextAt(body, pos, FinalMark(boundary))
    ensures FindMark(body, boundary, pos) == Mark(pos, LineEnd(body, pos) + 1, true)
    ensures SkipPreamble(body, boundary, pos) == None
  {
    hide LineEnd, Content;
    LineStartsWith(body, pos, FinalMark(boundary));
    ContentKeeps(FinalMark(boundary), body[pos..LineEnd(body, pos)]);
  }

  /** A written entity after its delimiter line. */
  function EntityText(e: Entity, m: Message): string {
    WriteHeaders(e.headers, m.crlf) + Eol(m.crlf) + (PayloadOf(e) + Eol(m.crlf))
  }

  lemma EntityAt(body: string, pos: nat, m: Message, e: Entity, mark: Mark)
    requires PlainHeaders(e.headers) && Fits(PayloadOf(e), m) && TextAt(body, pos, EntityText(e, m))
    requires var end := pos + |EntityText(e, m)|;
             mark.Mark? && mark.start == end && FindMark(body, m.boundary, end) == mark
    ensures ReadPart(body, m.boundary, pos) == PartRead(e.headers, PayloadOf(e), mark.next, true, mark.final)
  {
    hide *;
    var head := WriteHeaders(e.headers, m.crlf) + Eol(m.crlf);
    var tail := PayloadOf(e) + Eol(m.crlf);
    EntityTextIs(e, m);
    TextSplit(body, pos, head, tail);
    HeadersAt(body, pos, e.headers, m.crlf, []);
    assert [] + e.headers == e.headers;
    PayloadFits(PayloadOf(e), m);
    TextPassed(body, pos + |head|, tail, m.boundary);
    PayloadBack(body, pos + |head|, PayloadOf(e), m.crlf);
    ReadPartUnfold(body, m.boundary, pos, pos + |head|, e.headers, mark);
  }

  lemma EntityTextIs(e: Entity, m: Message)
    ensures EntityText(e, m) == WriteHeaders(e.headers, m.crlf) + Eol(m.crlf) + (PayloadOf(e) + Eol(m.crlf))
  {
    hide WriteHeaders, PayloadOf;
  }

  lemma PayloadFits(payload: string, m: Message)
    requires Fits(payload, m)
    ensures Unmarked(payload + Eol(m.crlf), m.boundary)
    ensures !m.crlf && payload != "" ==> payload[|payload| - 1] != '\r'
  {
    hide Unmarked;
  }

  lemma ReadPartUnfold(body: string, boundary: string, pos: nat, start: nat, headers: seq<Header>, mark: Mark)
    requires pos <= |body| && start <= |body| + 1 && ReadHeaders(body, pos, []) == HeaderBlock(headers, start, start)
    requires FindMark(body, boundary, start) == mark && mark.Mark?
    ensures mark.start <= |body|
    ensures ReadPart(body, boundary, pos)
         == PartRead(headers, PayloadSlice(body, start, mark.start), mark.next, true, mark.final)
  {
    hide ReadHeaders, FindMark, PayloadSlice;
  }

  // ---------------------------------------------------------------- whole messages read back

  lemma {:induction false} EntityTrip(t: TextOps, e: Entity)
    requires ValidEntity(t, e)
    ensures Expand(t, e.headers, PayloadOf(e)) == Scanned(EntityLeaves(e))
    decreases e, 0
  {
    hide ContainerBoundary, ParseLevel, Write, Leaves;
    if e.Container? {
      MessageTrip(t, e.message);
      assert e.message.boundary != "";
    }
  }

  lemma {:induction false} EntitiesTrip(t: TextOps, body: string, pos: nat, m: Message, entities: seq<Entity>)
    requires ValidMessage(t, m) && ValidEntities(t, entities, m) && entities != [] && 0 < pos
    requires TextAt(body, pos, EntityText(entities[0], m) + (WriteEntities(entities[1..], m) + FinalMark(m.boundary)))
    ensures LevelParts(t, body, m.boundary, pos) == Scanned(Leaves(entities))
    decreases entities, 1
  {
    hide *;
    var e, rest := entities[0], entities[1..];
    var after := pos + |EntityText(e, m)|;
    TextSplit(body, pos, EntityText(e, m), WriteEntities(rest, m) + FinalMark(m.boundary));
    Position(body, pos, EntityText(e, m));
    EntitiesParts(t, m, entities);
    if rest == [] {
      NoEntities(m);
      assert "" + FinalMark(m.boundary) == FinalMark(m.boundary);
      FinalAt(body, after, m.boundary);
    } else {
      EntitiesText(body, after, m, rest);
      DelimAt(body, after, m);
      EntitiesTrip(t, body, after + |DelimLine(m)|, m, rest);
    }
    var mark := FindMark(body, m.boundary, after);
    EntityAt(body, pos, m, e, mark);
    EntityTrip(t, e);
    LevelPartsUnfold(t, body, m.boundary, pos);
    LeavesUnfold(entities);
  }

  lemma LevelPartsUnfold(t: TextOps, body: string, boundary: string, pos: nat)
    requires 0 < pos <= |body|
    ensures var part := ReadPart(body, boundary, pos);
            part.PartRead? ==>
              var leaves := Expand(t, part.headers, part.payload);
              leaves.Scanned? ==>
                && (!part.closed || part.final ==> LevelParts(t, body, boundary, pos) == leaves)
                && (part.closed && !part.final ==>
                      var rest := LevelParts(t, body, boundary, part.next);
                      rest.Scanned? ==> LevelParts(t, body, boundary, pos) == Scanned(leaves.parts + rest.parts))
  {
    hide ReadPart, Expand;
  }

  lemma LeavesUnfold(entities: seq<Entity>)
    requires entities != []
    ensures Leaves(entities) == EntityLeaves(entities[0]) + Leaves(entities[1..])
    ensures |entities| == 1 ==> Leaves(entities) == EntityLeaves(entities[0])
  {
    hide EntityLeaves;
    if |entities| == 1 {
      assert Leaves(entities[1..]) == [];
    }
  }

  lemma NoEntities(m: Message)
    ensures WriteEntities([], m) == ""
  {
  }

  lemma EntitiesParts(t: TextOps, m: Message, entities: seq<Entity>)
    requires ValidMessage(t, m) && ValidEntities(t, entities, m) && entities != []
    ensures Framed(m) && Boundary(m.boundary)
    ensures ValidEntity(t, entities[0]) && PlainHeaders(entities[0].headers) && Fits(PayloadOf(entities[0]), m)
    ensures ValidEntities(t, entities[1..], m)
  {
    hide Boundary, PlainHeaders, Fits;
  }

  lemma Position(body: string, pos: nat, text: string)
    requires TextAt(body, pos, text)
    ensures pos <= |body|
  {
  }

  /** Scanning a written message returns its leaves, in document order, with their headers and
      payloads unchanged. */
  lemma {:induction false} MessageTrip(t: TextOps, m: Message)
    requires ValidMessage(t, m)
    ensures ParseLevel(t, Write(m), m.boundary) == Scanned(Leaves(m.entities))
    decreases m, 2
  {
    hide WriteEntities, FindMark, LevelParts, SkipPreamble, Unmarked, TextAt;
    var body, mark := Write(m), FinalMark(m.boundary);
    var at := |m.preamble|;
    WrittenText(m);
    TextPassed(body, 0, m.preamble, m.boundary);
    if m.entities == [] {
      NoEntities(m);
      assert "" + mark == mark;
      FinalAt(body, at, m.boundary);
    } else {
      EntitiesText(body, at, m, m.entities);
      DelimAt(body, at, m);
      EntitiesTrip(t, body, at + |DelimLine(m)|, m, m.entities);
    }
  }

  lemma WrittenText(m: Message)
    ensures TextAt(Write(m), 0, m.preamble)
    ensures TextAt(Write(m), |m.preamble|, WriteEntities(m.entities, m) + FinalMark(m.boundary))
  {
    hide WriteEntities;
    var rest := WriteEntities(m.entities, m) + FinalMark(m.boundary);
    var body := Write(m);
    assert body == m.preamble + (rest + m.epilogue);
    assert body[0..|m.preamble|] == m.preamble;
    assert body[|m.preamble|..|m.preamble| + |rest|] == rest;
  }

  // ---------------------------------------------------------------- containers

  /** A part is a container as soon as its first content type is multipart with a boundary that is
      not empty; any such boundary survives being quoted. */
  lemma ContainerHeader(t: TextOps, boundary: string, more: seq<Header>)
    requires Lawful(t) && boundary != ""
    ensures var h := Header("Content-Type", "multipart/mixed" + WriteParams([Param("boundary", boundary)]));
            ContainerBoundary(t, [h] + more) == boundary
  {
    hide MediaParams, MainType, WriteParams, Token, Lawful, Latest;
    var ps := [Param("boundary", boundary)];
    var h := Header("Content-Type", "multipart/mixed" + WriteParams(ps));
    FirstIsFound(t, h, more);
    BoundaryToken();
    assert AllTokens(ps);
    OneParam(ps[0]);
    MultipartType();
    MediaTypeRoundTrip(t, "multipart/mixed", ps);
  }

  lemma FirstIsFound(t: TextOps, h: Header, more: seq<Header>)
    requires Lawful(t) && h.name == "Content-Type"
    ensures FirstHeader(t, [h] + more, "content-type") == h.value
  {
  }

  lemma BoundaryToken()
    ensures Token("boundary")
  {
  }

  lemma OneParam(p: Param)
    ensures Latest([p]) == map[p.name := p.value]
  {
    assert [p][..0] == [];
  }

  lemma MultipartType()
    ensures MainTypeIsMultipart("multipart/mixed") && Bare("multipart/mixed") && LowerAscii("multipart/mixed")
    ensures ';' !in "multipart/mixed" && '"' !in "multipart/mixed"
  {
    hide MainTypeIsMultipart;
    assert "multipart/" + "mixed" == "multipart/mixed";
    AnyMultipartType("mixed");
  }

  lemma AnyMultipartType(subtype: string)
    ensures MainTypeIsMultipart("multipart/" + subtype)
  {
    var main := "multipart/" + subtype;
    assert main[..9] == "multipart";
    FirstIndex(main, '/', 9);
  }
}
