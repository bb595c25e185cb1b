/** The compact JSON text of a cut container (guardcore/jsonwalk.go:61-126, 221-345), and reading it
    back (sections 2 to 7 of RFC 8259). */
module JsonText {
  import opened JsonWalk
  import opened Texts

  // ---------------------------------------------------------------- writing

  const HEX_DIGITS := "0123456789abcdef"

  function EscapeChar(c: char): string {
    if c == '"' then "\\\""
    else if c == '\\' then "\\\\"
    else if c == '\n' then "\\n"
    else if c == '\r' then "\\r"
    else if c == '\t' then "\\t"
    else if c == '\U{8}' then "\\b"
    else if c == '\U{C}' then "\\f"
    else if c < ' ' then "\\u00" + [HEX_DIGITS[c as int / 16], HEX_DIGITS[c as int % 16]]
    else [c]
  }

  function StringBody(s: string): string {
    if s == "" then "" else EscapeChar(s[0]) + StringBody(s[1..])
  }

  function Quoted(s: string): string {
    "\"" + StringBody(s) + "\""
  }

  predicate NumberChar(c: char) {
    '0' <= c <= '9' || c == '.' || c == 'e' || c == 'E' || c == '+' || c == '-'
  }

  /** The loose test: number characters only, and a digit among them. */
  predicate LooksLikeNumber(s: string) {
    && (forall i :: 0 <= i < |s| ==> NumberChar(s[i]))
    && (exists i :: 0 <= i < |s| && '0' <= s[i] <= '9')
  }

  function ScalarLiteral(scalar: string): string {
    if scalar == "True" then "true"
    else if scalar == "False" then "false"
    else if scalar == "None" then "null"
    else if LooksLikeNumber(scalar) then scalar
    else Quoted(scalar)
  }

  function Serialize(node: Node): string
    decreases node, 0
  {
    match node
    case Object(entries) => "{" + SerializeEntries(entries, true) + "}"
    case Array(items) => "[" + SerializeItems(items, true) + "]"
    case Scalar(text) => ScalarLiteral(text)
  }

  function SerializeEntries(entries: seq<Entry>, first: bool): string
    decreases entries, 1
  {
    if entries == [] then ""
    else
      (if first then "" else ",") + Quoted(entries[0].key) + ":" + Serialize(entries[0].value)
      + SerializeEntries(entries[1..], false)
  }

  function SerializeItems(items: seq<Node>, first: bool): string
    decreases items, 1
  {
    if items == [] then ""
    else (if first then "" else ",") + Serialize(items[0]) + SerializeItems(items[1..], false)
  }

  // ---------------------------------------------------------------- the writers' loops

  method WriteStringBody(out: string, s: string) returns (r: string)
    ensures r == out + StringBody(s)
  {
    hide EscapeChar;
    r := out;
    for i := 0 to |s|
      invariant r + StringBody(s[i..]) == out + StringBody(s)
    {
      assert s[i..][1..] == s[i + 1..];
      assert r + (EscapeChar(s[i]) + StringBody(s[i + 1..])) == r + EscapeChar(s[i]) + StringBody(s[i + 1..]);
      r := r + EscapeChar(s[i]);
    }
  }

  method IsJsonNumberLiteral(s: string) returns (r: bool)
    ensures r <==> LooksLikeNumber(s)
  {
    if s == "" {
      return false;
    }
    var i := 0;
    if s[0] == '-' {
      i := 1;
      if i >= |s| {
        return false;
      }
    }
    var digits := 0;
    while i < |s|
      invariant i <= |s| && (i == 0 || NumberChar(s[0])) && (s[0] == '-' ==> i >= 1)
      invariant forall k :: 0 <= k < i ==> NumberChar(s[k])
      invariant digits > 0 <==> exists k :: 0 <= k < i && '0' <= s[k] <= '9'
    {
      var c := s[i];
      if '0' <= c <= '9' {
        digits := digits + 1;
      } else if c == '.' || c == 'e' || c == 'E' || c == '+' || c == '-' {
      } else {
        return false;
      }
      i := i + 1;
    }
    r := digits > 0;
  }

  method WriteScalar(out: string, scalar: string) returns (r: string)
    ensures r == out + ScalarLiteral(scalar)
  {
    hide StringBody, LooksLikeNumber;
    if scalar == "True" {
      return out + "true";
    }
    if scalar == "False" {
      return out + "false";
    }
    if scalar == "None" {
      return out + "null";
    }
    var number := IsJsonNumberLiteral(scalar);
    if number {
      return out + scalar;
    }
    r := WriteStringBody(out + "\"", scalar);
    assert out + "\"" + StringBody(scalar) + "\"" == out + Quoted(scalar);
    r := r + "\"";
  }

  method WriteCompactJson(out: string, node: Node) returns (r: string)
    ensures r == out + Serialize(node)
    decreases node, 0
  {
    match node {
      case Object(entries) =>
        r := WriteEntries(out + "{", entries);
        r := r + "}";
        assert r == out + ("{" + SerializeEntries(entries, true) + "}");
      case Array(items) =>
        r := WriteItems(out + "[", items);
        r := r + "]";
        assert r == out + ("[" + SerializeItems(items, true) + "]");
      case Scalar(text) =>
        r := WriteScalar(out, text);
    }
  }

  method WriteEntries(out: string, entries: seq<Entry>) returns (r: string)
    ensures r == out + SerializeEntries(entries, true)
    decreases entries, 1
  {
    hide Quoted, Serialize, StringBody;
    r := out;
    for i := 0 to |entries|
      invariant r + SerializeEntries(entries[i..], i == 0) == out + SerializeEntries(entries, true)
    {
      var entry, rest := entries[i], entries[i..];
      assert rest[0] == entry && rest[1..] == entries[i + 1..];
      ghost var before := r;
      if i > 0 {
        r := r + ",";
      }
      ghost var comma := if i == 0 then "" else ",";
      r := WriteStringBody(r + "\"", entry.key);
      r := r + "\":";
      WrittenKey(before + comma, entry.key);
      r := WriteCompactJson(r, entry.value);
      ghost var tail := SerializeEntries(entries[i + 1..], false);
      assert before + "" == before;
      assert r == before + comma + Quoted(entry.key) + ":" + Serialize(entry.value);
      Appended(before, comma, Quoted(entry.key), Serialize(entry.value), tail);
    }
    assert entries[|entries|..] == [];
  }

  lemma Appended(before: string, comma: string, key: string, value: string, tail: string)
    ensures before + (comma + key + ":" + value + tail) == before + comma + key + ":" + value + tail
  {
  }

  lemma WrittenKey(before: string, key: string)
    ensures before + "\"" + StringBody(key) + "\":" == before + Quoted(key) + ":"
  {
    hide StringBody;
  }

  method WriteItems(out: string, items: seq<Node>) returns (r: string)
    ensures r == out + SerializeItems(items, true)
    decreases items, 1
  {
    hide Serialize;
    r := out;
    for i := 0 to |items|
      invariant r + SerializeItems(items[i..], i == 0) == out + SerializeItems(items, true)
    {
      var rest := items[i..];
      assert rest[0] == items[i] && rest[1..] == items[i + 1..];
      ghost var before := r;
      if i > 0 {
        r := r + ",";
      }
      ghost var comma := if i == 0 then "" else ",";
      r := WriteCompactJson(r, items[i]);
      ghost var tail := SerializeItems(items[i + 1..], false);
      assert before + (comma + Serialize(items[i]) + tail) == r + tail;
    }
    assert items[|items|..] == [];
  }
}
