/** Reading compact JSON text back (sections 4 to 7 of RFC 8259, guardcore/jsonwalk.go:61-126). */
module JsonReadBack {
  import opened JsonText
  import opened JsonWalk
  import opened Texts

  // ---------------------------------------------------------------- a reader

  datatype StringRead = Str(value: string, next: nat) | BadString

  function SimpleEscape(c: char): Option<char> {
    if c == '"' || c == '\\' || c == '/' then Some(c)
    else if c == 'n' then Some('\n')
    else if c == 'r' then Some('\r')
    else if c == 't' then Some('\t')
    else if c == 'b' then Some('\U{8}')
    else if c == 'f' then Some('\U{C}')
    else None
  }

  /** One character of a string and its length in the text; surrogate escapes are not read. */
  function ReadChar(src: string, pos: nat): Option<(char, nat)> {
    if pos >= |src| || src[pos] == '"' || src[pos] < ' ' then None
    else if src[pos] != '\\' then Some((src[pos], 1))
    else if pos + 1 < |src| && SimpleEscape(src[pos + 1]).Some? then Some((SimpleEscape(src[pos + 1]).value, 2))
    else if pos + 5 < |src| && src[pos + 1] == 'u' then
      if !(forall k :: pos + 2 <= k < pos + 6 ==> IsHexDigit(src[k])) then None
      else
        var high := HexDigitValue(src[pos + 2]) * 16 + HexDigitValue(src[pos + 3]);
        var code := (high * 16 + HexDigitValue(src[pos + 4])) * 16 + HexDigitValue(src[pos + 5]);
        if code < 0xD800 then Some((code as char, 6)) else None
    else None
  }

  function ReadString(src: string, pos: nat): (r: StringRead)
    ensures r.Str? ==> pos < r.next <= |src|
    decreases |src| - pos
  {
    if pos < |src| && src[pos] == '"' then Str("", pos + 1)
    else
      var one := ReadChar(src, pos);
      if one.None? then BadString
      else
        var rest := ReadString(src, pos + one.value.1);
        if rest.Str? then Str([one.value.0] + rest.value, rest.next) else BadString
  }

  function RunOf(src: string, pos: nat): (end: nat)
    requires pos <= |src|
    ensures pos <= end <= |src| && forall k :: pos <= k < end ==> NumberChar(src[k])
    ensures end < |src| ==> !NumberChar(src[end])
    decreases |src| - pos
  {
    if pos < |src| && NumberChar(src[pos]) then RunOf(src, pos + 1) else pos
  }

  function Digits(s: string, i: nat): (end: nat)
    requires i <= |s|
    ensures i <= end <= |s|
    decreases |s| - i
  {
    if i < |s| && '0' <= s[i] <= '9' then Digits(s, i + 1) else i
  }

  predicate IsExponent(s: string, i: nat)
    requires i < |s|
  {
    && (s[i] == 'e' || s[i] == 'E')
    && var first := if i + 1 < |s| && (s[i + 1] == '+' || s[i + 1] == '-') then i + 2 else i + 1;
       first < |s| && Digits(s, first) == |s|
  }

  /** The number grammar of section 6: optional minus, no leading zeros, fraction, exponent. */
  predicate IsNumber(s: string) {
    var start := if s != "" && s[0] == '-' then 1 else 0;
    var whole := Digits(s, start);
    && whole > start && (s[start] == '0' ==> whole == start + 1)
    && var fraction := if whole < |s| && s[whole] == '.' then Digits(s, whole + 1) else whole;
       && (whole < |s| && s[whole] == '.' ==> fraction > whole + 1)
       && (fraction == |s| || IsExponent(s, fraction))
  }

  /** A key seen before keeps its place and takes the later value. */
  function Put(entries: seq<Entry>, key: string, value: Node): seq<Entry> {
    if entries == [] then [Entry(key, value)]
    else if entries[0].key == key then [Entry(key, value)] + entries[1..]
    else [entries[0]] + Put(entries[1..], key, value)
  }

  datatype Read = Done(node: Node, next: nat) | Bad

  function ReadLiteral(src: string, pos: nat, literal: string, scalar: string): (r: Read)
    ensures r.Done? ==> r.next <= |src| && r.next == pos + |literal|
  {
    if pos + |literal| <= |src| && src[pos..pos + |literal|] == literal then
      Done(Scalar(scalar), pos + |literal|)
    else Bad
  }

  function ReadValue(src: string, pos: nat): (r: Read)
    ensures r.Done? ==> pos < r.next <= |src|
    decreases |src| - pos, 0
  {
    if pos >= |src| then Bad
    else if src[pos] == '{' then
      if pos + 1 < |src| && src[pos + 1] == '}' then Done(Object([]), pos + 2) else ReadMembers(src, pos + 1, [])
    else if src[pos] == '[' then
      if pos + 1 < |src| && src[pos + 1] == ']' then Done(Array([]), pos + 2) else ReadElements(src, pos + 1, [])
    else if src[pos] == '"' then
      var text := ReadString(src, pos + 1);
      if text.Str? then Done(Scalar(text.value), text.next) else Bad
    else if src[pos] == 't' then ReadLiteral(src, pos, "true", "True")
    else if src[pos] == 'f' then ReadLiteral(src, pos, "false", "False")
    else if src[pos] == 'n' then ReadLiteral(src, pos, "null", "None")
    else
      var end := RunOf(src, pos);
      if end > pos && IsNumber(src[pos..end]) then Done(Scalar(src[pos..end]), end) else Bad
  }

  function ReadMembers(src: string, pos: nat, entries: seq<Entry>): (r: Read)
    ensures r.Done? ==> pos < r.next <= |src|
    decreases |src| - pos, 1
  {
    if pos >= |src| || src[pos] != '"' then Bad
    else
      var key := ReadString(src, pos + 1);
      if key.BadString? || key.next >= |src| || src[key.next] != ':' then Bad
      else
        var value := ReadValue(src, key.next + 1);
        if value.Bad? || value.next >= |src| then Bad
        else if src[value.next] == '}' then Done(Object(Put(entries, key.value, value.node)), value.next + 1)
        else if src[value.next] == ',' then ReadMembers(src, value.next + 1, Put(entries, key.value, value.node))
        else Bad
  }

  function ReadElements(src: string, pos: nat, items: seq<Node>): (r: Read)
    ensures r.Done? ==> pos < r.next <= |src|
    decreases |src| - pos, 1
  {
    var value := ReadValue(src, pos);
    if value.Bad? || value.next >= |src| then Bad
    else if src[value.next] == ']' then Done(Array(items + [value.node]), value.next + 1)
    else if src[value.next] == ',' then ReadElements(src, value.next + 1, items + [value.node])
    else Bad
  }

  // ---------------------------------------------------------------- what is read back

  predicate ScalarFaithful(text: string) {
    LooksLikeNumber(text) ==> IsNumber(text)
  }

  /** Every scalar that is written without quotes is a JSON number or literal. */
  predicate Faithful(node: Node)
    decreases node, 0
  {
    match node
    case Object(entries) => EntriesFaithful(entries)
    case Array(items) => ItemsFaithful(items)
    case Scalar(text) => ScalarFaithful(text)
  }

  predicate EntriesFaithful(entries: seq<Entry>)
    decreases entries, 1
  {
    entries == [] || (Faithful(entries[0].value) && EntriesFaithful(entries[1..]))
  }

  predicate ItemsFaithful(items: seq<Node>)
    decreases items, 1
  {
    items == [] || (Faithful(items[0]) && ItemsFaithful(items[1..]))
  }

  predicate HasKey(entries: seq<Entry>, key: string) {
    exists i :: 0 <= i < |entries| && entries[i].key == key
  }

  /** No object has two entries with one key, as the parser builds them. */
  predicate Distinct(node: Node)
    decreases node, 0
  {
    match node
    case Object(entries) => EntriesDistinct(entries)
    case Array(items) => ItemsDistinct(items)
    case Scalar(_) => true
  }

  predicate EntriesDistinct(entries: seq<Entry>)
    decreases entries, 1
  {
    entries == [] ||
    (Distinct(entries[0].value) && !HasKey(entries[1..], entries[0].key) && EntriesDistinct(entries[1..]))
  }

  predicate ItemsDistinct(items: seq<Node>)
    decreases items, 1
  {
    items == [] || (Distinct(items[0]) && ItemsDistinct(items[1..]))
  }

  // ---------------------------------------------------------------- strings

  lemma HexBack(d: nat)
    requires d < 16
    ensures IsHexDigit(HEX_DIGITS[d]) && HexDigitValue(HEX_DIGITS[d]) == d
  {
    if d < 10 {
      assert HEX_DIGITS[d] == ['0', '1', '2', '3', '4', '5', '6', '7', '8', '9'][d];
    } else {
      assert HEX_DIGITS[d] == ['a', 'b', 'c', 'd', 'e', 'f'][d - 10];
    }
  }

  lemma CharBack(src: string, pos: nat, c: char)
    requires TextAt(src, pos, EscapeChar(c))
    ensures ReadChar(src, pos) == Some((c, |EscapeChar(c)|))
  {
    var text := EscapeChar(c);
    TextChar(src, pos, text, 0);
    if |text| > 1 {
      TextChar(src, pos, text, 1);
    }
    if |text| == 6 {
      ControlBack(src, pos, c);
    }
  }

  lemma ControlBack(src: string, pos: nat, c: char)
    requires TextAt(src, pos, EscapeChar(c)) && |EscapeChar(c)| == 6
    ensures ReadChar(src, pos) == Some((c, 6))
  {
    var text := EscapeChar(c);
    forall i | 0 <= i < 6 ensures pos + i < |src| && src[pos + i] == text[i] {
      TextChar(src, pos, text, i);
    }
    assert src[pos + 0] == '\\';
    assert src[pos + 1] == 'u' && src[pos + 2] == '0' && src[pos + 3] == '0';
    assert src[pos + 4] == HEX_DIGITS[c as int / 16] && src[pos + 5] == HEX_DIGITS[c as int % 16];
    HexBack(c as int / 16);
    HexBack(c as int % 16);
  }

  lemma {:induction false} StringBack(src: string, pos: nat, s: string)
    requires TextAt(src, pos, StringBody(s) + "\"")
    ensures ReadString(src, pos) == Str(s, pos + |StringBody(s)| + 1)
    decreases |s|
  {
    hide EscapeChar, ReadChar;
    if s == "" {
      TextChar(src, pos, StringBody(s) + "\"", 0);
    } else {
      var head, rest := EscapeChar(s[0]), StringBody(s[1..]) + "\"";
      assert StringBody(s) + "\"" == head + rest;
      TextSplit(src, pos, head, rest);
      CharBack(src, pos, s[0]);
      NotQuote(src, pos, s[0]);
      StringBack(src, pos + |head|, s[1..]);
      assert s == [s[0]] + s[1..];
    }
  }

  lemma NotQuote(src: string, pos: nat, c: char)
    requires ReadChar(src, pos).Some?
    ensures pos < |src| && src[pos] != '"'
  {
  }

  lemma QuotedBack(src: string, pos: nat, s: string)
    requires TextAt(src, pos, Quoted(s))
    ensures pos < |src| && src[pos] == '"' && ReadString(src, pos + 1) == Str(s, pos + |Quoted(s)|)
  {
    hide StringBody;
    var rest := StringBody(s) + "\"";
    assert Quoted(s) == "\"" + rest;
    TextSplit(src, pos, "\"", rest);
    TextChar(src, pos, "\"", 0);
    StringBack(src, pos + 1, s);
  }

  // ---------------------------------------------------------------- scalars

  /** The text after a value does not go on with a number character. */
  predicate Ends(src: string, pos: nat) {
    pos < |src| ==> !NumberChar(src[pos])
  }

  lemma RunBack(src: string, pos: nat, text: string)
    requires TextAt(src, pos, text) && Ends(src, pos + |text|)
    requires forall i :: 0 <= i < |text| ==> NumberChar(text[i])
    ensures pos <= |src| && RunOf(src, pos) == pos + |text|
  {
    var end := RunOf(src, pos);
    assert forall k :: pos <= k < pos + |text| ==> src[k] == src[pos..pos + |text|][k - pos];
  }

  lemma NumberBack(src: string, pos: nat, text: string)
    requires TextAt(src, pos, text) && Ends(src, pos + |text|) && LooksLikeNumber(text)
    ensures ReadValue(src, pos) == if IsNumber(text) then Done(Scalar(text), pos + |text|) else Bad
  {
    hide IsNumber, ReadMembers, ReadElements, ReadString, RunOf;
    RunBack(src, pos, text);
    TextChar(src, pos, text, 0);
    assert NumberChar(text[0]);
    assert src[pos..pos + |text|] == text;
  }

  lemma LiteralBack(src: string, pos: nat, literal: string, scalar: string)
    requires TextAt(src, pos, literal)
    requires (literal, scalar) in {("true", "True"), ("false", "False"), ("null", "None")}
    ensures ReadValue(src, pos) == Done(Scalar(scalar), pos + |literal|)
  {
    hide IsNumber, ReadMembers, ReadElements, ReadString, RunOf;
    TextChar(src, pos, literal, 0);
  }

  lemma ScalarBack(src: string, pos: nat, text: string)
    requires TextAt(src, pos, ScalarLiteral(text)) && Ends(src, pos + |ScalarLiteral(text)|)
    ensures ReadValue(src, pos) == if ScalarFaithful(text) then Done(Scalar(text), pos + |ScalarLiteral(text)|) else Bad
  {
    hide IsNumber, ReadMembers, ReadElements, ReadString, RunOf, LooksLikeNumber, ReadValue, Quoted;
    if text == "True" || text == "False" || text == "None" {
      WordIsNoNumber(text);
      LiteralBack(src, pos, ScalarLiteral(text), text);
    } else if LooksLikeNumber(text) {
      NumberBack(src, pos, text);
    } else {
      QuotedBack(src, pos, text);
      QuotedValue(src, pos, text);
    }
  }

  lemma QuotedValue(src: string, pos: nat, text: string)
    requires pos < |src| && src[pos] == '"' && ReadString(src, pos + 1) == Str(text, pos + |Quoted(text)|)
    ensures ReadValue(src, pos) == Done(Scalar(text), pos + |Quoted(text)|)
  {
    hide Quoted, ReadString, ReadMembers, ReadElements, RunOf, IsNumber;
  }

  lemma WordIsNoNumber(text: string)
    requires text == "True" || text == "False" || text == "None"
    ensures !LooksLikeNumber(text)
  {
    assert !NumberChar(text[0]);
  }

  // ---------------------------------------------------------------- containers

  lemma {:induction false} PutNew(entries: seq<Entry>, key: string, value: Node)
    requires !HasKey(entries, key)
    ensures Put(entries, key, value) == entries + [Entry(key, value)]
  {
    if entries != [] {
      assert entries[0].key != key;
      forall i | 0 <= i < |entries[1..]| ensures entries[1..][i].key != key {
        assert entries[1..][i] == entries[i + 1];
      }
      PutNew(entries[1..], key, value);
    }
  }

  lemma {:induction false} ValueBack(src: string, pos: nat, node: Node)
    requires TextAt(src, pos, Serialize(node)) && Ends(src, pos + |Serialize(node)|) && Distinct(node)
    ensures ReadValue(src, pos) == if Faithful(node) then Done(node, pos + |Serialize(node)|) else Bad
    decreases node, 0
  {
    hide SerializeEntries, SerializeItems, ScalarLiteral, ReadMembers, ReadElements, ReadString, RunOf, IsNumber,
      TextAt,
      EntriesFaithful, ItemsFaithful, EntriesDistinct, ItemsDistinct, ScalarFaithful, Ends;
    match node {
      case Object(entries) =>
        var body := SerializeEntries(entries, true) + "}";
        assert Serialize(node) == "{" + body;
        TextSplit(src, pos, "{", body);
        TextChar(src, pos, "{", 0);
        if entries == [] {
          EmptyObject(src, pos);
        } else {
          EntriesStart(src, pos + 1, entries);
          MembersBack(src, pos + 1, entries, []);
          assert [] + entries == entries;
        }
      case Array(items) =>
        var body := SerializeItems(items, true) + "]";
        assert Serialize(node) == "[" + body;
        TextSplit(src, pos, "[", body);
        TextChar(src, pos, "[", 0);
        if items == [] {
          EmptyArray(src, pos);
        } else {
          ItemsStart(src, pos + 1, items);
          ElementsBack(src, pos + 1, items, []);
          assert [] + items == items;
        }
      case Scalar(text) =>
        ScalarBack(src, pos, text);
    }
  }

  lemma EmptyObject(src: string, pos: nat)
    requires TextAt(src, pos + 1, SerializeEntries([], true) + "}")
    ensures pos + 1 < |src| && src[pos + 1] == '}' && EntriesFaithful([]) && |SerializeEntries([], true)| == 0
  {
    TextChar(src, pos + 1, "}", 0);
  }

  lemma EmptyArray(src: string, pos: nat)
    requires TextAt(src, pos + 1, SerializeItems([], true) + "]")
    ensures pos + 1 < |src| && src[pos + 1] == ']' && ItemsFaithful([]) && |SerializeItems([], true)| == 0
  {
    TextChar(src, pos + 1, "]", 0);
  }

  lemma EntriesStart(src: string, pos: nat, entries: seq<Entry>)
    requires entries != [] && TextAt(src, pos, SerializeEntries(entries, true) + "}")
    ensures pos < |src| && src[pos] == '"'
  {
    hide Serialize, StringBody;
    TextChar(src, pos, SerializeEntries(entries, true) + "}", 0);
  }

  /** No value starts with a closing bracket. */
  lemma ItemsStart(src: string, pos: nat, items: seq<Node>)
    requires items != [] && TextAt(src, pos, SerializeItems(items, true) + "]")
    ensures pos < |src| && src[pos] != ']'
  {
    ValueStart(items[0]);
    TextChar(src, pos, SerializeItems(items, true) + "]", 0);
  }

  lemma ValueStart(node: Node)
    ensures Serialize(node) != "" && Serialize(node)[0] != ']'
  {
    if node.Scalar? && LooksLikeNumber(node.text) {
      assert NumberChar(node.text[0]);
    }
  }

  /** None of the keys to come has been read yet. */
  predicate Apart(done: seq<Entry>, entries: seq<Entry>) {
    forall i :: 0 <= i < |entries| ==> !HasKey(done, entries[i].key)
  }

  lemma ApartStep(done: seq<Entry>, entries: seq<Entry>)
    requires entries != [] && Apart(done, entries) && EntriesDistinct(entries)
    ensures !HasKey(done, entries[0].key) && Distinct(entries[0].value) && EntriesDistinct(entries[1..])
    ensures Apart(done + [entries[0]], entries[1..])
  {
    hide Distinct;
    var head, rest := entries[0], entries[1..];
    forall i | 0 <= i < |rest| ensures !HasKey(done + [head], rest[i].key) {
      assert rest[i] == entries[i + 1];
      assert rest[i].key != head.key;
      forall k | 0 <= k < |done + [head]| ensures (done + [head])[k].key != rest[i].key {
        if k < |done| {
          assert done[k].key != rest[i].key;
        }
      }
    }
  }

  /** The text after the value of an entry. */
  function AfterEntry(entries: seq<Entry>): string {
    if entries == [] then "}" else "," + (SerializeEntries(entries, true) + "}")
  }

  lemma EntryText(src: string, pos: nat, entries: seq<Entry>)
    requires entries != [] && TextAt(src, pos, SerializeEntries(entries, true) + "}")
    ensures var key, value := Quoted(entries[0].key), Serialize(entries[0].value);
            var colon := pos + |key|;
            var after := colon + 1 + |value|;
            && TextAt(src, pos, key) && colon < |src| && src[colon] == ':' && TextAt(src, colon + 1, value)
            && TextAt(src, after, AfterEntry(entries[1..]))
            && |SerializeEntries(entries, true)| + 1 == |key| + 1 + |value| + |AfterEntry(entries[1..])|
  {
    hide *;
    var key, value, rest := Quoted(entries[0].key), Serialize(entries[0].value), AfterEntry(entries[1..]);
    EntryPieces(entries);
    TextSplit(src, pos, key, ":" + (value + rest));
    TextSplit(src, pos + |key|, ":", value + rest);
    TextChar(src, pos + |key|, ":", 0);
    TextSplit(src, pos + |key| + 1, value, rest);
  }

  lemma EntryPieces(entries: seq<Entry>)
    requires entries != []
    ensures SerializeEntries(entries, true) + "}"
         == Quoted(entries[0].key) + (":" + (Serialize(entries[0].value) + AfterEntry(entries[1..])))
  {
    hide Quoted, Serialize, AfterEntry;
    CommaText(entries[1..]);
    var key, value := Quoted(entries[0].key), Serialize(entries[0].value);
    var rest := SerializeEntries(entries[1..], false);
    assert SerializeEntries(entries, true) == "" + key + ":" + value + rest;
    assert "" + key + ":" + value + rest + "}" == key + (":" + (value + (rest + "}")));
  }

  lemma CommaText(entries: seq<Entry>)
    ensures SerializeEntries(entries, false) + "}" == AfterEntry(entries)
  {
    hide Quoted, Serialize;
    if entries != [] {
      var key, value := Quoted(entries[0].key), Serialize(entries[0].value);
      var rest := SerializeEntries(entries[1..], false);
      assert SerializeEntries(entries, false) == "," + key + ":" + value + rest;
      assert SerializeEntries(entries, true) == "" + key + ":" + value + rest;
    }
  }

  lemma AfterEntryStarts(src: string, pos: nat, entries: seq<Entry>)
    requires TextAt(src, pos, AfterEntry(entries))
    ensures pos < |src| && src[pos] == (if entries == [] then '}' else ',') && Ends(src, pos)
    ensures if entries == [] then |AfterEntry(entries)| == 1
            else TextAt(src, pos + 1, SerializeEntries(entries, true) + "}")
                 && |AfterEntry(entries)| == |SerializeEntries(entries, true)| + 2
  {
    hide SerializeEntries;
    TextChar(src, pos, AfterEntry(entries), 0);
    if entries != [] {
      TextSplit(src, pos, ",", SerializeEntries(entries, true) + "}");
    }
  }

  lemma {:induction false} MembersBack(src: string, pos: nat, entries: seq<Entry>, done: seq<Entry>)
    requires entries != [] && TextAt(src, pos, SerializeEntries(entries, true) + "}")
    requires EntriesDistinct(entries) && Apart(done, entries)
    ensures ReadMembers(src, pos, done)
         == if EntriesFaithful(entries)
           then Done(Object(done + entries), pos + |SerializeEntries(entries, true)| + 1) else Bad
    decreases entries, 1
  {
    hide *;
    var entry, rest := entries[0], entries[1..];
    var colon := pos + |Quoted(entry.key)|;
    var after := colon + 1 + |Serialize(entry.value)|;
    EntryText(src, pos, entries);
    AfterEntryStarts(src, after, rest);
    ApartStep(done, entries);
    QuotedBack(src, pos, entry.key);
    ValueBack(src, colon + 1, entry.value);
    PutNew(done, entry.key, entry.value);
    assert Entry(entry.key, entry.value) == entry;
    MembersUnfold(src, pos, done, entry.key, colon, ReadValue(src, colon + 1));
    EntriesFaithfulUnfold(entries);
    if rest != [] {
      MembersBack(src, after + 1, rest, done + [entry]);
      assert done + [entry] + rest == done + entries;
    } else {
      assert done + [entry] == done + entries;
    }
  }

  lemma EntriesFaithfulUnfold(entries: seq<Entry>)
    requires entries != []
    ensures EntriesFaithful(entries) <==> Faithful(entries[0].value) && EntriesFaithful(entries[1..])
    ensures EntriesFaithful([])
  {
    hide Faithful;
  }

  lemma MembersUnfold(src: string, pos: nat, done: seq<Entry>, key: string, colon: nat, value: Read)
    requires pos < |src| && src[pos] == '"' && ReadString(src, pos + 1) == Str(key, colon)
    requires colon < |src| && src[colon] == ':' && ReadValue(src, colon + 1) == value
    ensures value.Bad? ==> ReadMembers(src, pos, done) == Bad
    ensures value.Done? && value.next < |src| && src[value.next] == '}' ==>
              ReadMembers(src, pos, done) == Done(Object(Put(done, key, value.node)), value.next + 1)
    ensures value.Done? && value.next < |src| && src[value.next] == ',' ==>
              ReadMembers(src, pos, done) == ReadMembers(src, value.next + 1, Put(done, key, value.node))
  {
    hide ReadString, ReadValue, Put;
  }

  function AfterItem(items: seq<Node>): string {
    if items == [] then "]" else "," + (SerializeItems(items, true) + "]")
  }

  lemma ItemText(src: string, pos: nat, items: seq<Node>)
    requires items != [] && TextAt(src, pos, SerializeItems(items, true) + "]")
    ensures var value := Serialize(items[0]);
            && TextAt(src, pos, value) && TextAt(src, pos + |value|, AfterItem(items[1..]))
            && |SerializeItems(items, true)| + 1 == |value| + |AfterItem(items[1..])|
  {
    hide *;
    ItemPieces(items);
    TextSplit(src, pos, Serialize(items[0]), AfterItem(items[1..]));
  }

  lemma ItemPieces(items: seq<Node>)
    requires items != []
    ensures SerializeItems(items, true) + "]" == Serialize(items[0]) + AfterItem(items[1..])
  {
    hide Serialize, AfterItem;
    ItemCommaText(items[1..]);
    var value, rest := Serialize(items[0]), SerializeItems(items[1..], false);
    assert SerializeItems(items, true) == "" + value + rest;
    assert "" + value + rest + "]" == value + (rest + "]");
  }

  lemma ItemCommaText(items: seq<Node>)
    ensures SerializeItems(items, false) + "]" == AfterItem(items)
  {
    hide Serialize;
    if items != [] {
      var value, rest := Serialize(items[0]), SerializeItems(items[1..], false);
      assert SerializeItems(items, false) == "," + value + rest;
      assert SerializeItems(items, true) == "" + value + rest;
    }
  }

  lemma AfterItemStarts(src: string, pos: nat, items: seq<Node>)
    requires TextAt(src, pos, AfterItem(items))
    ensures pos < |src| && src[pos] == (if items == [] then ']' else ',') && Ends(src, pos)
    ensures if items == [] then |AfterItem(items)| == 1
            else TextAt(src, pos + 1, SerializeItems(items, true) + "]")
                 && |AfterItem(items)| == |SerializeItems(items, true)| + 2
  {
    hide SerializeItems;
    TextChar(src, pos, AfterItem(items), 0);
    if items != [] {
      TextSplit(src, pos, ",", SerializeItems(items, true) + "]");
    }
  }

  lemma {:induction false} ElementsBack(src: string, pos: nat, items: seq<Node>, done: seq<Node>)
    requires items != [] && TextAt(src, pos, SerializeItems(items, true) + "]") && ItemsDistinct(items)
    ensures ReadElements(src, pos, done)
         == if ItemsFaithful(items) then Done(Array(done + items), pos + |SerializeItems(items, true)| + 1) else Bad
    decreases items, 1
  {
    hide *;
    var item, rest := items[0], items[1..];
    var after := pos + |Serialize(item)|;
    ItemText(src, pos, items);
    AfterItemStarts(src, after, rest);
    ItemsUnfold(items);
    ValueBack(src, pos, item);
    ElementsUnfold(src, pos, done, ReadValue(src, pos));
    if rest != [] {
      ElementsBack(src, after + 1, rest, done + [item]);
      assert done + [item] + rest == done + items;
    } else {
      assert done + [item] == done + items;
    }
  }

  lemma ItemsUnfold(items: seq<Node>)
    requires items != []
    ensures ItemsFaithful(items) <==> Faithful(items[0]) && ItemsFaithful(items[1..])
    ensures ItemsDistinct(items) ==> Distinct(items[0]) && ItemsDistinct(items[1..])
    ensures ItemsFaithful([])
  {
    hide Faithful, Distinct;
  }

  lemma ElementsUnfold(src: string, pos: nat, done: seq<Node>, value: Read)
    requires ReadValue(src, pos) == value
    ensures value.Bad? ==> ReadElements(src, pos, done) == Bad
    ensures value.Done? && value.next < |src| && src[value.next] == ']' ==>
              ReadElements(src, pos, done) == Done(Array(done + [value.node]), value.next + 1)
    ensures value.Done? && value.next < |src| && src[value.next] == ',' ==>
              ReadElements(src, pos, done) == ReadElements(src, value.next + 1, done + [value.node])
  {
    hide ReadValue;
  }

  // ---------------------------------------------------------------- whole documents

  /** The compact text of a tree reads back as that tree exactly when every scalar that the loose
      number test leaves unquoted is a JSON number; otherwise it is not JSON at all. */
  lemma SerializeReadsBack(node: Node)
    requires Distinct(node)
    ensures ReadValue(Serialize(node), 0) == if Faithful(node) then Done(node, |Serialize(node)|) else Bad
  {
    hide Serialize, ReadValue, Faithful, Distinct;
    assert Serialize(node)[0..|Serialize(node)|] == Serialize(node);
    ValueBack(Serialize(node), 0, node);
  }

  /** A date as a string value passes for a number and loses its quotes. */
  lemma DateLosesQuotes()
    ensures !ScalarFaithful("2024-01-01") && Serialize(Array([Scalar("2024-01-01")])) == "[2024-01-01]"
  {
    var date := "2024-01-01";
    assert date[0] == '2';
    assert Digits(date, 0) == 4;
    assert !IsNumber(date);
    assert [Scalar(date)][1..] == [];
  }
}
