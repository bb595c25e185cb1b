/** Excluded fields in the text of containers that the depth cap cuts
    (guardcore/jsonwalk.go:61-126, 142-256). */
module JsonExclusions {
  import opened JsonText
  import opened JsonWalk
  import opened Texts

  // ---------------------------------------------------------------- pruning shortens the text

  /** Leaving fields out makes the text shorter. */
  lemma {:induction false} PrunedText(env: Env, node: Node)
    ensures |Serialize(Prune(env, node))| <= |Serialize(node)|
    ensures |Serialize(Prune(env, node))| == |Serialize(node)| ==> Prune(env, node) == node
    decreases node, 0
  {
    hide ScalarLiteral, SerializeEntries, SerializeItems, PruneEntries, PruneItems;
    match node {
      case Object(entries) => PrunedEntriesText(env, entries, true);
      case Array(items) => PrunedItemsText(env, items, true);
      case Scalar(_) =>
    }
  }

  lemma {:induction false} PrunedEntriesText(env: Env, entries: seq<Entry>, first: bool)
    ensures var pruned := PruneEntries(env, entries);
            && |SerializeEntries(pruned, first)| <= |SerializeEntries(entries, first)|
            && (|SerializeEntries(pruned, first)| == |SerializeEntries(entries, first)| ==> pruned == entries)
    decreases entries, 1
  {
    hide Serialize, Prune, Quoted;
    if entries != [] {
      var head, rest := entries[0], entries[1..];
      PrunedEntriesText(env, rest, false);
      if env.lower(head.key) in env.excluded {
        FirstIsShorter(PruneEntries(env, rest));
      } else {
        PrunedText(env, head.value);
        assert PruneEntries(env, entries)[1..] == PruneEntries(env, rest);
      }
    }
  }

  /** The first entry goes without a comma. */
  lemma FirstIsShorter(entries: seq<Entry>)
    ensures |SerializeEntries(entries, true)| <= |SerializeEntries(entries, false)|
  {
    hide Serialize, Quoted;
  }

  lemma {:induction false} PrunedItemsText(env: Env, items: seq<Node>, first: bool)
    ensures var pruned := PruneItems(env, items);
            && |SerializeItems(pruned, first)| <= |SerializeItems(items, first)|
            && (|SerializeItems(pruned, first)| == |SerializeItems(items, first)| ==> pruned == items)
    decreases items, 1
  {
    hide Serialize, Prune;
    if items != [] {
      PrunedText(env, items[0]);
      PrunedItemsText(env, items[1..], false);
      assert PruneItems(env, items)[1..] == PruneItems(env, items[1..]);
    }
  }

  /** A container cut at the depth cap shows its excluded fields whenever it has any: its text is
      that of the pruned container only if there was nothing to prune. */
  lemma CutShowsExcluded(env: Env, node: Node)
    ensures Serialize(Prune(env, node)) == Serialize(node) <==> Prune(env, node) == node
  {
    PrunedText(env, node);
  }

  // ---------------------------------------------------------------- whole walks

  /** No container that is cut at the depth cap holds an excluded field. */
  predicate CutsClean(env: Env, node: Node, depth: nat)
    decreases node, 0
  {
    match node
    case Object(entries) =>
      if depth >= env.depthCap then Prune(env, node) == node else EntriesClean(env, entries, depth)
    case Array(items) =>
      if depth >= env.depthCap then Prune(env, node) == node else ItemsClean(env, items, depth)
    case Scalar(_) => true
  }

  predicate EntriesClean(env: Env, entries: seq<Entry>, depth: nat)
    decreases entries, 1
  {
    entries == [] || (EntryClean(env, entries[0], depth) && EntriesClean(env, entries[1..], depth))
  }

  predicate EntryClean(env: Env, entry: Entry, depth: nat)
    decreases entry, 0
  {
    env.lower(entry.key) in env.excluded || env.isOperator(entry.key) || CutsClean(env, entry.value, depth + 1)
  }

  predicate ItemsClean(env: Env, items: seq<Node>, depth: nat)
    decreases items, 1
  {
    items == [] || (CutsClean(env, items[0], depth + 1) && ItemsClean(env, items[1..], depth))
  }

  /** The walk writes cut containers with the compact writer. */
  ghost predicate WritesCompact(env: Env) {
    forall node :: env.serialize(node) == Serialize(node)
  }

  lemma {:induction false} HiddenIsClean(env: Env, node: Node, depth: nat)
    requires WritesCompact(env)
    ensures CutsHide(env, node, depth) <==> CutsClean(env, node, depth)
    decreases node, 0
  {
    hide Serialize, Prune;
    match node {
      case Object(entries) =>
        CutShowsExcluded(env, node);
        EntriesHiddenClean(env, entries, depth);
      case Array(items) =>
        CutShowsExcluded(env, node);
        ItemsHiddenClean(env, items, depth);
      case Scalar(_) =>
    }
  }

  lemma {:induction false} EntriesHiddenClean(env: Env, entries: seq<Entry>, depth: nat)
    requires WritesCompact(env)
    ensures EntriesHide(env, entries, depth) <==> EntriesClean(env, entries, depth)
    decreases entries, 1
  {
    hide WritesCompact, CutsHide, CutsClean;
    if entries != [] {
      HiddenIsClean(env, entries[0].value, depth + 1);
      EntriesHiddenClean(env, entries[1..], depth);
    }
  }

  lemma {:induction false} ItemsHiddenClean(env: Env, items: seq<Node>, depth: nat)
    requires WritesCompact(env)
    ensures ItemsHide(env, items, depth) <==> ItemsClean(env, items, depth)
    decreases items, 1
  {
    hide WritesCompact, CutsHide, CutsClean;
    if items != [] {
      HiddenIsClean(env, items[0], depth + 1);
      ItemsHiddenClean(env, items[1..], depth);
    }
  }

  /** Removing the excluded fields before the walk makes no difference exactly when no container
      that the depth cap cuts holds one. */
  lemma ExcludedFieldsUnseen(env: Env, node: Node, context: string, caption: string, depth: nat, bound: nat)
    requires Lawful(env) && WritesCompact(env) && Below(env, node, bound)
    ensures Below(env, Prune(env, node), bound)
    ensures Walk(env, Prune(env, node), context, caption, depth, bound)
            == Walk(env, node, context, caption, depth, bound)
            <==> CutsClean(env, node, depth)
  {
    hide *;
    ExclusionsRespected(env, node, context, caption, depth, bound);
    HiddenIsClean(env, node, depth);
  }

  // ---------------------------------------------------------------- a password below the cap

  const LOGIN: Node := Object([Entry("password", Scalar("x"))])

  /** A walk that excludes passwords and looks no further than the outermost container. */
  function Shallow(): Env {
    Env(text => None, text => 0, text => text, key => false, node => Serialize(node), {"password"}, 2)
  }

  const LOGIN_TEXT := "{\"password\":\"x\"}"

  /** The walk over a list with a login in it scans the text of the password. */
  lemma PasswordShown()
    ensures var env, list := Shallow(), Array([LOGIN]);
            && Lawful(env) && WritesCompact(env) && Below(env, list, 1) && !CutsClean(env, list, 1)
            && Walk(env, list, REQUEST_BODY, DEFAULT_LABEL, 1, 1)
               == [DepthReached, Emit(Value(LOGIN_TEXT, REQUEST_BODY, FieldLabel(""), ""))]
  {
    hide Serialize, Prune, PruneEntries, CutsHide;
    var env, items := Shallow(), [LOGIN];
    assert LOGIN.entries[1..] == [] && items[1..] == [];
    assert Below(env, LOGIN, 1) && ItemsBelow(env, items, 1);
    LoginPruned(env);
    assert !CutsClean(env, LOGIN, 2) && !ItemsClean(env, items, 1);
    LoginText();
    var cut := Cut(env, LOGIN, REQUEST_BODY, DEFAULT_LABEL);
    assert Walk(env, LOGIN, REQUEST_BODY, DEFAULT_LABEL, 2, 1) == cut;
    assert WalkItems(env, items, REQUEST_BODY, DEFAULT_LABEL, 1, 1) == cut + [];
  }

  lemma LoginPruned(env: Env)
    requires env.lower("password") in env.excluded
    ensures Prune(env, LOGIN) == Object([])
  {
    assert LOGIN.entries[1..] == [];
    assert PruneEntries(env, LOGIN.entries) == [];
  }

  lemma LoginText()
    ensures Serialize(LOGIN) == LOGIN_TEXT
  {
    hide StringBody, LooksLikeNumber;
    Letters("password");
    Letters("x");
    NoNumber("x");
    assert ScalarLiteral("x") == "\"x\"";
    assert LOGIN.entries[1..] == [];
    assert SerializeEntries(LOGIN.entries, true) == "" + Quoted("password") + ":" + ScalarLiteral("x") + "";
  }

  lemma NoNumber(s: string)
    requires s != "" && !NumberChar(s[0])
    ensures !LooksLikeNumber(s)
  {
  }

  lemma {:induction false} Letters(s: string)
    requires forall i :: 0 <= i < |s| ==> 'a' <= s[i] <= 'z'
    ensures StringBody(s) == s
  {
    if s != "" {
      Letters(s[1..]);
      assert s == [s[0]] + s[1..];
    }
  }

  // ---------------------------------------------------------------- embedded documents

  /** Outside a request body a text that is itself a document is walked, and then emitted as it stands:
      whatever fields the walk left out of it are in the text. */
  lemma EmbeddedShown(env: Env, text: string, context: string, caption: string, depth: nat, bound: nat)
    requires Lawful(env) && env.rank(text) < bound && context != REQUEST_BODY && env.parse(text).Some?
    ensures var events := Walk(env, Scalar(text), context, caption, depth, bound);
            && events != [] && events[|events| - 1] == Emit(Value(text, context, FieldLabel(caption), ""))
    ensures Prune(env, Scalar(text)) == Scalar(text)
  {
    hide Lawful;
    assert Below(env, env.parse(text).value, env.rank(text)) by {
      EmbeddedRanks(env, text);
    }
  }

  lemma EmbeddedRanks(env: Env, text: string)
    requires Lawful(env) && env.parse(text).Some?
    ensures Below(env, env.parse(text).value, env.rank(text))
  {
    hide Below;
  }

  /** A walk that excludes passwords and can read the text of the login. */
  function Reading(): Env {
    Env(text => if text == LOGIN_TEXT then Some(LOGIN) else None, text => |text|, text => text, key => false,
        node => Serialize(node), {"password"}, 32)
  }

  const FORM_FIELD := "request_body:multipart_field"

  /** The document `{"a": "{\"password\":\"x\"}"}`. */
  const WRAPPED: Node := Object([Entry("a", Scalar(LOGIN_TEXT))])

  /** In a form field that document is walked: the nested walk leaves the password out, and the raw text
      behind it shows it, although no field of the document itself is excluded. */
  lemma EmbeddedPassword()
    ensures var env := Reading();
            && Lawful(env) && WritesCompact(env) && Below(env, WRAPPED, 17)
            && Prune(env, WRAPPED) == WRAPPED && CutsClean(env, WRAPPED, 1)
            && Walk(env, WRAPPED, FORM_FIELD, DEFAULT_LABEL, 1, 17)
               == [Emit(Value("a", REQUEST_BODY, "JSON key 'a': ", "")),
                   Emit(Value(LOGIN_TEXT, FORM_FIELD, FieldLabel("a"), ""))]
  {
    hide Serialize, FieldLabel, Prune, CutsClean;
    var env, entry := Reading(), WRAPPED.entries[0];
    WrappedClean(env);
    LoginUnderPrefix(env);
    var key := Emit(Value("a", REQUEST_BODY, "JSON key 'a': ", ""));
    var raw := Emit(Value(LOGIN_TEXT, FORM_FIELD, FieldLabel("a"), ""));
    assert Walk(env, entry.value, FORM_FIELD, "a", 2, 17) == [] + [raw];
    assert "JSON key '" + "a" + "': " == "JSON key 'a': ";
    assert WalkEntry(env, entry, FORM_FIELD, 1, 17) == [key] + [raw];
    assert WRAPPED.entries[1..] == [];
    assert WalkEntries(env, WRAPPED.entries, FORM_FIELD, 1, 17) == [key, raw] + [];
  }

  lemma WrappedClean(env: Env)
    requires env == Reading()
    ensures Below(env, WRAPPED, 17) && Prune(env, WRAPPED) == WRAPPED && CutsClean(env, WRAPPED, 1)
  {
    hide Serialize;
    var fields := WRAPPED.entries;
    assert fields[1..] == [] && |LOGIN_TEXT| == 16;
    assert EntriesBelow(env, fields, 17);
    assert Prune(env, fields[0].value) == fields[0].value;
    assert PruneEntries(env, fields) == fields;
    assert CutsClean(env, fields[0].value, 2);
    assert EntriesClean(env, fields, 1);
  }

  lemma LoginUnderPrefix(env: Env)
    requires env == Reading() && Lawful(env)
    ensures Below(env, LOGIN, 16)
    ensures Walk(env, LOGIN, FORM_FIELD + EMBEDDED_SUFFIX, DEFAULT_LABEL, 1, 16) == []
  {
    hide Serialize;
    var fields, nested := LOGIN.entries, FORM_FIELD + EMBEDDED_SUFFIX;
    assert fields[1..] == [];
    assert EntriesBelow(env, fields, 16);
    assert WalkEntry(env, fields[0], nested, 1, 16) == [];
    assert WalkEntries(env, fields, nested, 1, 16) == [] + [];
  }
}
