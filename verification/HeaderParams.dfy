/** Quote-aware header parameters (guardcore/bodyscan.go:365-459). */
module HeaderParams {
  import opened Texts

  /** Unicode-aware text operations of the Go library, taken as given. */
  datatype TextOps = TextOps(
    trimSpace: string -> string,
    toLower: string -> string,
    equalFold: (string, string) -> bool)

  predicate Graphic(c: char) {
    '!' <= c <= '~'
  }

  /** Empty, or starting and ending with a graphic ASCII character. */
  predicate Bare(s: string) {
    s == "" || (Graphic(s[0]) && Graphic(s[|s| - 1]))
  }

  predicate LowerAscii(s: string) {
    forall i :: 0 <= i < |s| ==> s[i] < '\U{80}' && !('A' <= s[i] <= 'Z')
  }

  /** What is used of those operations: they act as expected on ASCII text. */
  ghost predicate Lawful(t: TextOps) {
    && (forall s :: Bare(s) ==> t.trimSpace(s) == s && t.trimSpace(" " + s) == s)
    && (forall s :: LowerAscii(s) ==> t.toLower(s) == s)
    && t.equalFold("Content-Type", "content-type")
  }

  // ---------------------------------------------------------------- splitting

  /** The pieces between the semicolons outside quoted strings; `piece` is the one being read. */
  function Pieces(text: string, piece: string, inQuotes: bool, escaped: bool): seq<string> {
    if text == "" then [piece]
    else
      var c, rest, longer := text[0], text[1..], piece + [text[0]];
      if escaped then Pieces(rest, longer, inQuotes, false)
      else if c == '\\' && inQuotes then Pieces(rest, longer, inQuotes, true)
      else if c == '"' then Pieces(rest, longer, !inQuotes, false)
      else if c == ';' && !inQuotes then [piece] + Pieces(rest, "", inQuotes, false)
      else Pieces(rest, longer, inQuotes, false)
  }

  ghost predicate PiecesLeft(
    done: seq<string>, value: string, start: nat, i: nat, inQuotes: bool, escaped: bool, whole: seq<string>)
    requires start <= i <= |value|
  {
    done + Pieces(value[i..], value[start..i], inQuotes, escaped) == whole
  }

  lemma PiecesStep(
    done: seq<string>, value: string, start: nat, i: nat, inQuotes: bool, escaped: bool, whole: seq<string>)
    requires start <= i < |value| && PiecesLeft(done, value, start, i, inQuotes, escaped, whole)
    ensures var c := value[i];
            if escaped then PiecesLeft(done, value, start, i + 1, inQuotes, false, whole)
            else if c == '\\' && inQuotes then PiecesLeft(done, value, start, i + 1, inQuotes, true, whole)
            else if c == '"' then PiecesLeft(done, value, start, i + 1, !inQuotes, false, whole)
            else if c == ';' && !inQuotes then
              PiecesLeft(done + [value[start..i]], value, i + 1, i + 1, inQuotes, false, whole)
            else PiecesLeft(done, value, start, i + 1, inQuotes, false, whole)
  {
    SliceStep(value, start, i);
    var after := Pieces(value[i + 1..], "", inQuotes, false);
    assert done + ([value[start..i]] + after) == done + [value[start..i]] + after;
  }

  lemma SliceStep(value: string, start: nat, i: nat)
    requires start <= i < |value|
    ensures value[i..] != "" && value[i..][0] == value[i] && value[i..][1..] == value[i + 1..]
    ensures value[start..i] + [value[i]] == value[start..i + 1] && value[i + 1..i + 1] == ""
  {
  }

  method SplitHeaderParams(value: string) returns (pieces: seq<string>)
    ensures pieces == Pieces(value, "", false, false)
  {
    hide Pieces, PiecesLeft;
    pieces := [];
    var start := 0;
    var inQuotes := false;
    var escaped := false;
    ghost var whole := Pieces(value, "", false, false);
    PiecesStart(value);
    for i := 0 to |value|
      invariant start <= i && PiecesLeft(pieces, value, start, i, inQuotes, escaped, whole)
    {
      PiecesStep(pieces, value, start, i, inQuotes, escaped, whole);
      var c := value[i];
      if escaped {
        escaped := false;
        continue;
      }
      if c == '\\' && inQuotes {
        escaped := true;
      } else if c == '"' {
        inQuotes := !inQuotes;
      } else if c == ';' && !inQuotes {
        pieces := pieces + [value[start..i]];
        start := i + 1;
      }
    }
    PiecesEnd(pieces, value, start, inQuotes, escaped, whole);
    pieces := pieces + [value[start..]];
  }

  lemma PiecesStart(value: string)
    ensures PiecesLeft([], value, 0, 0, false, false, Pieces(value, "", false, false))
  {
    assert value[0..] == value;
  }

  lemma PiecesEnd(done: seq<string>, value: string, start: nat, inQuotes: bool, escaped: bool, whole: seq<string>)
    requires start <= |value| && PiecesLeft(done, value, start, |value|, inQuotes, escaped, whole)
    ensures done + [value[start..]] == whole
  {
    assert value[start..|value|] == value[start..] && value[|value|..] == "";
  }

  // ---------------------------------------------------------------- unquoting

  function Unescape(text: string): string {
    if text == "" then ""
    else if text[0] == '\\' && |text| > 1 && (text[1] == '"' || text[1] == '\\') then [text[1]] + Unescape(text[2..])
    else [text[0]] + Unescape(text[1..])
  }

  function Unquote(value: string): string {
    if |value| < 2 || value[0] != '"' || value[|value| - 1] != '"' then value
    else Unescape(value[1..|value| - 1])
  }

  method UnquoteHeaderParam(value: string) returns (r: string)
    ensures r == Unquote(value)
  {
    if |value| < 2 || value[0] != '"' || value[|value| - 1] != '"' {
      return value;
    }
    var inner := value[1..|value| - 1];
    r := "";
    var i := 0;
    while i < |inner|
      invariant i <= |inner| && r + Unescape(inner[i..]) == Unescape(inner)
    {
      assert inner[i..][1..] == inner[i + 1..];
      if inner[i] == '\\' && i + 1 < |inner| && (inner[i + 1] == '"' || inner[i + 1] == '\\') {
        assert inner[i..][2..] == inner[i + 2..] && inner[i..][1] == inner[i + 1];
        r := r + [inner[i + 1]];
        i := i + 2;
      } else {
        r := r + [inner[i]];
        i := i + 1;
      }
    }
  }

  // ---------------------------------------------------------------- parameters

  datatype Param = Param(name: string, value: string)

  /** A piece without "=" is no parameter. */
  function ReadParam(t: TextOps, piece: string): seq<Param> {
    var at := IndexByte(piece, '=');
    if at < 0 then []
    else [Param(t.toLower(t.trimSpace(piece[..at])), Unquote(t.trimSpace(piece[at + 1..])))]
  }

  /** Of two parameters with one name the later counts. */
  function ParamMap(t: TextOps, pieces: seq<string>): map<string, string> {
    if pieces == [] then map[]
    else
      var n := |pieces| - 1;
      var before, last := ParamMap(t, pieces[..n]), ReadParam(t, pieces[n]);
      if last == [] then before else before[last[0].name := last[0].value]
  }

  function MainType(t: TextOps, value: string): string {
    var pieces := Pieces(value, "", false, false);
    if pieces == [] then "" else t.toLower(t.trimSpace(pieces[0]))
  }

  function MediaParams(t: TextOps, value: string): map<string, string> {
    var pieces := Pieces(value, "", false, false);
    if pieces == [] then map[] else ParamMap(t, pieces[1..])
  }

  method SplitParamPiece(t: TextOps, piece: string) returns (name: string, value: string, ok: bool)
    ensures ReadParam(t, piece) == if ok then [Param(name, value)] else []
  {
    var at := IndexByte(piece, '=');
    if at < 0 {
      return "", "", false;
    }
    name := t.toLower(t.trimSpace(piece[..at]));
    value := UnquoteHeaderParam(t.trimSpace(piece[at + 1..]));
    ok := true;
  }

  method ParseMediaTypeParams(t: TextOps, value: string) returns (mainType: string, params: map<string, string>)
    ensures mainType == MainType(t, value) && params == MediaParams(t, value)
  {
    hide Pieces, ReadParam;
    mainType := "";
    params := map[];
    var pieces := SplitHeaderParams(value);
    for i := 0 to |pieces|
      invariant mainType == if i == 0 then "" else t.toLower(t.trimSpace(pieces[0]))
      invariant params == if i == 0 then map[] else ParamMap(t, pieces[1..][..i - 1])
    {
      if i == 0 {
        mainType := t.toLower(t.trimSpace(pieces[0]));
      } else {
        var tail := pieces[1..];
        assert tail[..i][..i - 1] == tail[..i - 1] && tail[..i][i - 1] == pieces[i];
        var name, param, ok := SplitParamPiece(t, pieces[i]);
        if ok {
          params := params[name := param];
        }
      }
    }
    assert pieces != [] ==> pieces[1..][..|pieces| - 1] == pieces[1..];
  }

  // ---------------------------------------------------------------- writing parameters

  function Escape(s: string): string {
    if s == "" then ""
    else (if s[0] == '"' || s[0] == '\\' then ['\\', s[0]] else [s[0]]) + Escape(s[1..])
  }

  function Quote(s: string): string {
    "\"" + Escape(s) + "\""
  }

  function WriteParam(p: Param): string {
    " " + p.name + "=" + Quote(p.value)
  }

  function WriteParams(ps: seq<Param>): string {
    if ps == [] then "" else ";" + WriteParam(ps[0]) + WriteParams(ps[1..])
  }

  /** A parameter name as it is normally written: lower case, graphic at both ends. */
  predicate Token(s: string) {
    s != "" && Bare(s) && LowerAscii(s) && '=' !in s && ';' !in s && '"' !in s
  }

  ghost predicate AllTokens(ps: seq<Param>) {
    forall i :: 0 <= i < |ps| ==> Token(ps[i].name)
  }

  function Latest(ps: seq<Param>): map<string, string> {
    if ps == [] then map[]
    else Latest(ps[..|ps| - 1])[ps[|ps| - 1].name := ps[|ps| - 1].value]
  }

  lemma {:induction false} UnescapeEscape(s: string)
    ensures Unescape(Escape(s)) == s
  {
    if s != "" {
      UnescapeEscape(s[1..]);
      var rest := Escape(s[1..]);
      if s[0] == '"' || s[0] == '\\' {
        var text := ['\\', s[0]] + rest;
        assert text[2..] == rest && text[1] == s[0];
      } else {
        var text := [s[0]] + rest;
        assert text[1..] == rest;
      }
      assert s == [s[0]] + s[1..];
    }
  }

  /** Quoting loses nothing, whatever the value. */
  lemma UnquoteQuote(s: string)
    ensures Unquote(Quote(s)) == s
  {
    UnescapeEscape(s);
    var q := Quote(s);
    assert q[1..|q| - 1] == Escape(s);
  }

  lemma {:induction false} PlainPiece(text: string, rest: string, piece: string)
    requires ';' !in text && '"' !in text
    ensures Pieces(text + rest, piece, false, false) == Pieces(rest, piece + text, false, false)
  {
    if text == "" {
      assert text + rest == rest && piece + text == piece;
    } else {
      assert (text + rest)[1..] == text[1..] + rest;
      PlainPiece(text[1..], rest, piece + [text[0]]);
      assert piece + [text[0]] + text[1..] == piece + text;
    }
  }

  lemma {:induction false} QuotedPiece(s: string, rest: string, piece: string)
    ensures Pieces(Escape(s) + "\"" + rest, piece, true, false) == Pieces(rest, piece + Escape(s) + "\"", false, false)
  {
    var text := Escape(s) + "\"" + rest;
    if s == "" {
      assert text[1..] == rest;
      assert piece + Escape(s) + "\"" == piece + ['"'];
    } else if s[0] == '"' || s[0] == '\\' {
      var after := Escape(s[1..]) + "\"" + rest;
      assert text == ['\\', s[0]] + after;
      assert text[1..] == [s[0]] + after && text[1..][1..] == after;
      QuotedPiece(s[1..], rest, piece + ['\\'] + [s[0]]);
      assert piece + ['\\'] + [s[0]] + Escape(s[1..]) + "\"" == piece + Escape(s) + "\"";
    } else {
      var after := Escape(s[1..]) + "\"" + rest;
      assert text[1..] == after;
      QuotedPiece(s[1..], rest, piece + [s[0]]);
      assert piece + [s[0]] + Escape(s[1..]) + "\"" == piece + Escape(s) + "\"";
    }
  }

  lemma ParamPiece(p: Param, rest: string)
    requires Token(p.name)
    ensures Pieces(WriteParam(p) + rest, "", false, false) == Pieces(rest, WriteParam(p), false, false)
  {
    hide Pieces, Escape;
    var head := " " + p.name + "=";
    var body := Escape(p.value) + "\"";
    PlainPiece(head, "\"" + body + rest, "");
    assert WriteParam(p) + rest == head + ("\"" + body + rest);
    OpenQuote(body + rest, head);
    assert "\"" + body + rest == "\"" + (body + rest);
    QuotedPiece(p.value, rest, head + "\"");
    assert body + rest == Escape(p.value) + "\"" + rest;
    assert head + "\"" + Escape(p.value) + "\"" == WriteParam(p);
    assert "" + head == head;
  }

  lemma OpenQuote(rest: string, piece: string)
    ensures Pieces("\"" + rest, piece, false, false) == Pieces(rest, piece + "\"", true, false)
  {
    assert ("\"" + rest)[1..] == rest;
  }

  function Written(ps: seq<Param>): seq<string> {
    seq(|ps|, i requires 0 <= i < |ps| => WriteParam(ps[i]))
  }

  lemma {:induction false} WrittenPieces(ps: seq<Param>, piece: string)
    requires AllTokens(ps)
    ensures Pieces(WriteParams(ps), piece, false, false) == [piece] + Written(ps)
    decreases |ps|
  {
    if ps == [] {
      assert Written(ps) == [];
    } else {
      hide Token, WriteParam;
      var tail := WriteParams(ps[1..]);
      var text := WriteParams(ps);
      assert text == ";" + (WriteParam(ps[0]) + tail);
      assert text[1..] == WriteParam(ps[0]) + tail;
      ParamPiece(ps[0], tail);
      WrittenPieces(ps[1..], WriteParam(ps[0]));
      assert Written(ps) == [WriteParam(ps[0])] + Written(ps[1..]);
    }
  }

  lemma WrittenParam(t: TextOps, p: Param)
    requires Lawful(t) && Token(p.name)
    ensures ReadParam(t, WriteParam(p)) == [p]
  {
    hide Escape;
    var text := WriteParam(p);
    var at := IndexByte(text, '=');
    assert text == " " + p.name + "=" + Quote(p.value);
    assert text[..1 + |p.name|] == " " + p.name && text[1 + |p.name|] == '=';
    assert '=' !in " " + p.name;
    assert at == 1 + |p.name|;
    assert text[at + 1..] == Quote(p.value);
    assert Bare(Quote(p.value));
    UnquoteQuote(p.value);
  }

  lemma {:induction false} WrittenMap(t: TextOps, ps: seq<Param>)
    requires Lawful(t) && AllTokens(ps)
    ensures ParamMap(t, Written(ps)) == Latest(ps)
    decreases |ps|
  {
    hide Lawful, Token, WriteParam, ReadParam;
    if ps != [] {
      var n := |ps| - 1;
      WrittenMap(t, ps[..n]);
      WrittenParam(t, ps[n]);
      assert Written(ps)[..n] == Written(ps[..n]);
    }
  }

  /** Any list of parameter values, written with quotes after a type, is read back. */
  lemma MediaTypeRoundTrip(t: TextOps, main: string, ps: seq<Param>)
    requires Lawful(t) && AllTokens(ps)
    requires Bare(main) && LowerAscii(main) && ';' !in main && '"' !in main
    ensures MainType(t, main + WriteParams(ps)) == main
    ensures MediaParams(t, main + WriteParams(ps)) == Latest(ps)
  {
    hide Pieces, ParamMap, WriteParams, Token;
    PlainPiece(main, WriteParams(ps), "");
    WrittenPieces(ps, main);
    assert "" + main == main;
    WrittenMap(t, ps);
    assert ([main] + Written(ps))[1..] == Written(ps);
  }
}
