/** The ordered JSON body walk (guardcore/jsonwalk.go:142-256, guardcore/scanbudget.go:44-110). */
module JsonWalk {
  import opened Texts

  datatype Entry = Entry(key: string, value: Node)

  datatype Node =
    | Object(entries: seq<Entry>)
    | Array(items: seq<Node>)
    | Scalar(text: string)

  datatype Value = Value(content: string, context: string, caption: string, forcedCategory: string)

  /** A value to scan, or the notice that a container was cut at the depth cap. */
  datatype Event = Emit(value: Value) | DepthReached

  /** What the walk takes from its surroundings: the JSON parser (objects and arrays only), the
      operator registry, the configured exclusions and the depth cap. */
  datatype Env = Env(
    parse: string -> Option<Node>,
    rank: string -> nat,
    lower: string -> string,
    isOperator: string -> bool,
    serialize: Node -> string,
    excluded: set<string>,
    depthCap: int)

  const REQUEST_BODY := "request_body"
  const EMBEDDED_SUFFIX := ":embedded_json"
  const DEFAULT_LABEL := ""

  function FieldLabel(caption: string): string {
    "Request body field '" + caption + "': "
  }

  /** Every scalar text ranks below `bound`. */
  predicate Below(env: Env, node: Node, bound: nat)
    decreases node, 0
  {
    match node
    case Object(entries) => EntriesBelow(env, entries, bound)
    case Array(items) => ItemsBelow(env, items, bound)
    case Scalar(text) => env.rank(text) < bound
  }

  predicate EntriesBelow(env: Env, entries: seq<Entry>, bound: nat)
    decreases entries, 1
  {
    entries == [] || (Below(env, entries[0].value, bound) && EntriesBelow(env, entries[1..], bound))
  }

  predicate ItemsBelow(env: Env, items: seq<Node>, bound: nat)
    decreases items, 1
  {
    items == [] || (Below(env, items[0], bound) && ItemsBelow(env, items[1..], bound))
  }

  /** What is used of the parser: the texts inside a document rank below the document. */
  ghost predicate Lawful(env: Env) {
    forall s :: env.parse(s).Some? ==> !env.parse(s).value.Scalar? && Below(env, env.parse(s).value, env.rank(s))
  }

  // ---------------------------------------------------------------- the recursive walk

  /** Preorder: keys in insertion order, each followed by its whole subtree. */
  ghost function Walk(env: Env, node: Node, context: string, caption: string, depth: nat, bound: nat): seq<Event>
    requires Lawful(env) && Below(env, node, bound)
    decreases bound, node, 0
  {
    match node
    case Object(entries) =>
      if depth >= env.depthCap then Cut(env, node, context, caption)
      else WalkEntries(env, entries, context, depth, bound)
    case Array(items) =>
      if depth >= env.depthCap then Cut(env, node, context, caption)
      else WalkItems(env, items, context, caption, depth, bound)
    case Scalar(text) =>
      var leaf := Value(text, context, FieldLabel(caption), "");
      if context != REQUEST_BODY && env.parse(text).Some? then
        Walk(env, env.parse(text).value, context + EMBEDDED_SUFFIX, DEFAULT_LABEL, 1, env.rank(text)) + [Emit(leaf)]
      else if caption == "" then [Emit(leaf.(caption := ""))]
      else [Emit(leaf)]
  }

  function Cut(env: Env, node: Node, context: string, caption: string): seq<Event> {
    [DepthReached, Emit(Value(env.serialize(node), context, FieldLabel(caption), ""))]
  }

  ghost function WalkEntry(env: Env, entry: Entry, context: string, depth: nat, bound: nat): seq<Event>
    requires Lawful(env) && Below(env, entry.value, bound)
    decreases bound, entry, 0
  {
    var key := entry.key;
    if env.lower(key) in env.excluded then []
    else if env.isOperator(key) then [Emit(Value(key, REQUEST_BODY, "", "nosql"))]
    else
      [Emit(Value(key, REQUEST_BODY, "JSON key '" + key + "': ", ""))]
      + Walk(env, entry.value, context, key, depth + 1, bound)
  }

  ghost function WalkEntries(env: Env, entries: seq<Entry>, context: string, depth: nat, bound: nat): seq<Event>
    requires Lawful(env) && EntriesBelow(env, entries, bound)
    decreases bound, entries, 1
  {
    if entries == [] then []
    else WalkEntry(env, entries[0], context, depth, bound) + WalkEntries(env, entries[1..], context, depth, bound)
  }

  ghost function WalkItems(
    env: Env, items: seq<Node>, context: string, caption: string, depth: nat, bound: nat): seq<Event>
    requires Lawful(env) && ItemsBelow(env, items, bound)
    decreases bound, items, 1
  {
    if items == [] then []
    else
      Walk(env, items[0], context, caption, depth + 1, bound)
      + WalkItems(env, items[1..], context, caption, depth, bound)
  }

  function Shown(e: Event): seq<Value> {
    if e.Emit? then [e.value] else []
  }

  function Values(events: seq<Event>): seq<Value> {
    if events == [] then [] else Shown(events[0]) + Values(events[1..])
  }

  lemma {:induction false} ValuesConcat(a: seq<Event>, b: seq<Event>)
    ensures Values(a + b) == Values(a) + Values(b)
  {
    hide Shown;
    if a == [] {
      assert a + b == b;
    } else {
      assert (a + b)[0] == a[0] && (a + b)[1..] == a[1..] + b;
      ValuesConcat(a[1..], b);
    }
  }

  // ---------------------------------------------------------------- frames

  datatype Frame =
    | NodeFrame(node: Node, caption: string, depth: nat)
    | EntryFrame(entry: Entry, depth: nat)

  predicate FrameBelow(env: Env, f: Frame, bound: nat) {
    Below(env, if f.NodeFrame? then f.node else f.entry.value, bound)
  }

  predicate AllBelow(env: Env, stack: seq<Frame>, bound: nat) {
    forall i :: 0 <= i < |stack| ==> FrameBelow(env, stack[i], bound)
  }

  ghost function FrameEvents(env: Env, f: Frame, context: string, bound: nat): seq<Event>
    requires Lawful(env) && FrameBelow(env, f, bound)
  {
    match f
    case NodeFrame(node, caption, depth) => Walk(env, node, context, caption, depth, bound)
    case EntryFrame(entry, depth) => WalkEntry(env, entry, context, depth, bound)
  }

  /** What is still to come: the frames from the top of the stack down. */
  ghost function StackEvents(env: Env, stack: seq<Frame>, context: string, bound: nat): seq<Event>
    requires Lawful(env) && AllBelow(env, stack, bound)
  {
    if stack == [] then []
    else
      var n := |stack| - 1;
      FrameEvents(env, stack[n], context, bound) + StackEvents(env, stack[..n], context, bound)
  }

  function NodeSize(node: Node): nat
    decreases node, 0
  {
    match node
    case Object(entries) => 1 + EntriesSize(entries)
    case Array(items) => 1 + ItemsSize(items)
    case Scalar(_) => 1
  }

  function EntriesSize(entries: seq<Entry>): nat
    decreases entries, 1
  {
    if entries == [] then 0 else 1 + NodeSize(entries[0].value) + EntriesSize(entries[1..])
  }

  function ItemsSize(items: seq<Node>): nat
    decreases items, 1
  {
    if items == [] then 0 else NodeSize(items[0]) + ItemsSize(items[1..])
  }

  function FrameSize(f: Frame): nat {
    if f.NodeFrame? then NodeSize(f.node) else 1 + NodeSize(f.entry.value)
  }

  function StackSize(stack: seq<Frame>): nat {
    if stack == [] then 0 else FrameSize(stack[|stack| - 1]) + StackSize(stack[..|stack| - 1])
  }

  /** Pushing a frame puts its events in front. */
  lemma PushFrame(env: Env, stack: seq<Frame>, f: Frame, context: string, bound: nat)
    requires Lawful(env) && AllBelow(env, stack, bound) && FrameBelow(env, f, bound)
    ensures AllBelow(env, stack + [f], bound)
    ensures StackEvents(env, stack + [f], context, bound)
         == FrameEvents(env, f, context, bound) + StackEvents(env, stack, context, bound)
    ensures StackSize(stack + [f]) == FrameSize(f) + StackSize(stack)
  {
    hide FrameEvents, FrameBelow, Lawful;
    assert (stack + [f])[..|stack|] == stack;
  }

  lemma PopFrame(env: Env, stack: seq<Frame>, context: string, bound: nat)
    requires Lawful(env) && AllBelow(env, stack, bound) && stack != []
    ensures var n := |stack| - 1;
            && AllBelow(env, stack[..n], bound) && FrameBelow(env, stack[n], bound)
            && StackEvents(env, stack, context, bound)
               == FrameEvents(env, stack[n], context, bound) + StackEvents(env, stack[..n], context, bound)
            && StackSize(stack) == FrameSize(stack[n]) + StackSize(stack[..n])
  {
    hide FrameEvents, FrameBelow, Lawful;
  }

  // ---------------------------------------------------------------- the scan budget

  class Budget {
    var depthWarned: bool
    var warnings: nat

    constructor ()
      ensures !depthWarned && warnings == 0
    {
      depthWarned := false;
      warnings := 0;
    }

    method WarnJsonDepthOnce()
      modifies this
      ensures depthWarned
      ensures warnings == old(warnings) + if old(depthWarned) then 0 else 1
    {
      if depthWarned {
        return;
      }
      depthWarned := true;
      warnings := warnings + 1;
    }
  }

  method PushEntries(
    env: Env, stack: seq<Frame>, entries: seq<Entry>, ghost context: string, depth: nat, ghost bound: nat)
    returns (r: seq<Frame>)
    requires Lawful(env) && AllBelow(env, stack, bound) && EntriesBelow(env, entries, bound)
    ensures AllBelow(env, r, bound)
    ensures StackEvents(env, r, context, bound)
         == WalkEntries(env, entries, context, depth, bound) + StackEvents(env, stack, context, bound)
    ensures StackSize(r) == EntriesSize(entries) + StackSize(stack)
  {
    hide StackEvents, StackSize, WalkEntry, Lawful, Below;
    r := stack;
    var i := |entries|;
    assert entries[i..] == [];
    while i > 0
      invariant i <= |entries| && AllBelow(env, r, bound) && EntriesBelow(env, entries[i..], bound)
      invariant StackEvents(env, r, context, bound)
             == WalkEntries(env, entries[i..], context, depth, bound) + StackEvents(env, stack, context, bound)
      invariant StackSize(r) == EntriesSize(entries[i..]) + StackSize(stack)
    {
      i := i - 1;
      EntriesBelowAt(env, entries, i, bound);
      var rest := entries[i..];
      assert rest[0] == entries[i] && rest[1..] == entries[i + 1..];
      PushFrame(env, r, EntryFrame(entries[i], depth), context, bound);
      r := r + [EntryFrame(entries[i], depth)];
    }
    assert entries[0..] == entries;
  }

  lemma {:induction false} EntriesBelowAt(env: Env, entries: seq<Entry>, i: nat, bound: nat)
    requires EntriesBelow(env, entries, bound) && i < |entries|
    ensures EntriesBelow(env, entries[i..], bound) && Below(env, entries[i].value, bound)
    decreases i
  {
    hide Below;
    if i == 0 {
      assert entries[0..] == entries;
    } else {
      EntriesBelowAt(env, entries[1..], i - 1, bound);
      assert entries[1..][i - 1..] == entries[i..];
    }
  }

  lemma {:induction false} ItemsBelowAt(env: Env, items: seq<Node>, i: nat, bound: nat)
    requires ItemsBelow(env, items, bound) && i < |items|
    ensures ItemsBelow(env, items[i..], bound) && Below(env, items[i], bound)
    decreases i
  {
    hide Below;
    if i == 0 {
      assert items[0..] == items;
    } else {
      ItemsBelowAt(env, items[1..], i - 1, bound);
      assert items[1..][i - 1..] == items[i..];
    }
  }

  method PushItems(
    env: Env, stack: seq<Frame>, items: seq<Node>, ghost context: string, caption: string, depth: nat, ghost bound: nat)
    returns (r: seq<Frame>)
    requires Lawful(env) && AllBelow(env, stack, bound) && ItemsBelow(env, items, bound)
    ensures AllBelow(env, r, bound)
    ensures StackEvents(env, r, context, bound)
         == WalkItems(env, items, context, caption, depth, bound) + StackEvents(env, stack, context, bound)
    ensures StackSize(r) == ItemsSize(items) + StackSize(stack)
  {
    hide StackEvents, StackSize, Walk, Lawful, Below;
    r := stack;
    var i := |items|;
    assert items[i..] == [];
    while i > 0
      invariant i <= |items| && AllBelow(env, r, bound) && ItemsBelow(env, items[i..], bound)
      invariant StackEvents(env, r, context, bound)
             == WalkItems(env, items[i..], context, caption, depth, bound) + StackEvents(env, stack, context, bound)
      invariant StackSize(r) == ItemsSize(items[i..]) + StackSize(stack)
    {
      i := i - 1;
      ItemsBelowAt(env, items, i, bound);
      var rest := items[i..];
      assert rest[0] == items[i] && rest[1..] == items[i + 1..];
      PushFrame(env, r, NodeFrame(items[i], caption, depth + 1), context, bound);
      r := r + [NodeFrame(items[i], caption, depth + 1)];
    }
    assert items[0..] == items;
  }

  /** The walk so far and the walk to come. */
  ghost predicate Progress(
    env: Env, values: seq<Value>, start: seq<Value>, done: seq<Event>, stack: seq<Frame>, context: string, bound: nat,
    whole: seq<Event>)
    requires Lawful(env)
  {
    && AllBelow(env, stack, bound) && values == start + Values(done)
    && whole == done + StackEvents(env, stack, context, bound)
  }

  lemma Advance(
    env: Env, values: seq<Value>, start: seq<Value>, done: seq<Event>, stack: seq<Frame>, context: string, bound: nat,
    whole: seq<Event>, events: seq<Event>, next: seq<Frame>)
    requires Lawful(env) && Progress(env, values, start, done, stack, context, bound, whole)
    requires AllBelow(env, next, bound)
    requires StackEvents(env, stack, context, bound) == events + StackEvents(env, next, context, bound)
    ensures Progress(env, values + Values(events), start, done + events, next, context, bound, whole)
  {
    hide StackEvents, Values, Lawful, FrameBelow;
    ValuesConcat(done, events);
    assert start + (Values(done) + Values(events)) == start + Values(done) + Values(events);
    var rest := StackEvents(env, next, context, bound);
    assert done + (events + rest) == done + events + rest;
  }

  lemma ProgressStart(env: Env, start: seq<Value>, root: Node, context: string, bound: nat)
    requires Lawful(env) && Below(env, root, bound)
    ensures var whole := Walk(env, root, context, DEFAULT_LABEL, 1, bound);
            Progress(env, start, start, [], [NodeFrame(root, DEFAULT_LABEL, 1)], context, bound, whole)
  {
    hide Walk, Lawful, Below;
    var stack := [NodeFrame(root, DEFAULT_LABEL, 1)];
    assert stack[..0] == [];
    var whole := Walk(env, root, context, DEFAULT_LABEL, 1, bound);
    assert StackEvents(env, stack, context, bound) == whole + [];
  }

  lemma ProgressEnd(
    env: Env, values: seq<Value>, start: seq<Value>, done: seq<Event>, context: string, bound: nat, whole: seq<Event>)
    requires Lawful(env) && Progress(env, values, start, done, [], context, bound, whole)
    ensures done == whole && values == start + Values(whole)
  {
    hide Lawful, Values;
    assert done + [] == done;
  }

  /** The events of an entry on top of the stack. */
  lemma EntryOnTop(env: Env, entry: Entry, context: string, depth: nat, bound: nat)
    requires Lawful(env) && Below(env, entry.value, bound)
    ensures var events := FrameEvents(env, EntryFrame(entry, depth), context, bound);
            var key := entry.key;
            if env.lower(key) in env.excluded then events == []
            else if env.isOperator(key) then events == [Emit(Value(key, REQUEST_BODY, "", "nosql"))]
            else
              events == [Emit(Value(key, REQUEST_BODY, "JSON key '" + key + "': ", ""))]
                        + FrameEvents(env, NodeFrame(entry.value, key, depth + 1), context, bound)
  {
    hide Walk, Lawful, Below;
  }

  /** The events of a node on top of the stack. */
  lemma NodeOnTop(env: Env, node: Node, context: string, caption: string, depth: nat, bound: nat)
    requires Lawful(env) && Below(env, node, bound)
    ensures var events := FrameEvents(env, NodeFrame(node, caption, depth), context, bound);
            if node.Object? then
              EntriesBelow(env, node.entries, bound) &&
              events == (if depth >= env.depthCap then Cut(env, node, context, caption)
                         else WalkEntries(env, node.entries, context, depth, bound))
            else if node.Array? then
              ItemsBelow(env, node.items, bound) &&
              events == (if depth >= env.depthCap then Cut(env, node, context, caption)
                         else WalkItems(env, node.items, context, caption, depth, bound))
            else
              var text, leaf := node.text, Value(node.text, context, FieldLabel(caption), "");
              if context != REQUEST_BODY && env.parse(text).Some? then
                && env.rank(text) < bound && Below(env, env.parse(text).value, env.rank(text))
                && events
                   == Walk(env, env.parse(text).value, context + EMBEDDED_SUFFIX, DEFAULT_LABEL, 1, env.rank(text))
                             + [Emit(leaf)]
              else events == [Emit(if caption == "" then leaf.(caption := "") else leaf)]
  {
    hide WalkEntries, WalkItems, Cut;
  }

  lemma NodeSizes(node: Node)
    ensures node.Object? ==> NodeSize(node) == 1 + EntriesSize(node.entries)
    ensures node.Array? ==> NodeSize(node) == 1 + ItemsSize(node.items)
    ensures NodeSize(node) > 0
  {
  }

  /** What a step on the popped frame `f` leaves to do. */
  ghost predicate Stepped(
    env: Env, f: Frame, stack: seq<Frame>, next: seq<Frame>, events: seq<Event>, context: string, bound: nat)
    requires Lawful(env) && FrameBelow(env, f, bound) && AllBelow(env, stack, bound)
  {
    && AllBelow(env, next, bound)
    && FrameEvents(env, f, context, bound) + StackEvents(env, stack, context, bound)
       == events + StackEvents(env, next, context, bound)
    && StackSize(next) < FrameSize(f) + StackSize(stack)
  }

  /** The frame is done with. */
  lemma NothingPushed(env: Env, f: Frame, stack: seq<Frame>, context: string, bound: nat)
    requires Lawful(env) && FrameBelow(env, f, bound) && AllBelow(env, stack, bound)
    ensures Stepped(env, f, stack, stack, FrameEvents(env, f, context, bound), context, bound)
  {
    hide FrameEvents, StackEvents, Lawful, Below;
  }

  /** The frame left events and pushed frames in its place. */
  lemma Pushed(
    env: Env, f: Frame, stack: seq<Frame>, next: seq<Frame>, events: seq<Event>, below: seq<Event>, size: nat,
    context: string, bound: nat)
    requires Lawful(env) && FrameBelow(env, f, bound) && AllBelow(env, stack, bound) && AllBelow(env, next, bound)
    requires FrameEvents(env, f, context, bound) == events + below
    requires StackEvents(env, next, context, bound) == below + StackEvents(env, stack, context, bound)
    requires StackSize(next) == size + StackSize(stack) && size < FrameSize(f)
    ensures Stepped(env, f, stack, next, events, context, bound)
  {
    hide FrameEvents, StackEvents, Lawful, FrameBelow, FrameSize, StackSize;
    var base := StackEvents(env, stack, context, bound);
    assert events + below + base == events + (below + base);
  }

  lemma OneValue(value: Value)
    ensures Values([Emit(value)]) == [value]
  {
    assert [Emit(value)][1..] == [];
  }

  lemma CutValues(env: Env, node: Node, context: string, caption: string)
    ensures Values(Cut(env, node, context, caption)) == [Value(env.serialize(node), context, FieldLabel(caption), "")]
    ensures DepthReached in Cut(env, node, context, caption)
  {
    var events := Cut(env, node, context, caption);
    OneValue(Value(env.serialize(node), context, FieldLabel(caption), ""));
    assert events[0] == DepthReached;
    assert events[1..] == [Emit(Value(env.serialize(node), context, FieldLabel(caption), ""))];
  }

  method StepEntry(
    env: Env, values: seq<Value>, f: Frame, stack: seq<Frame>, ghost context: string, ghost bound: nat)
    returns (r: seq<Value>, next: seq<Frame>, ghost events: seq<Event>)
    requires f.EntryFrame? && Lawful(env) && FrameBelow(env, f, bound) && AllBelow(env, stack, bound)
    ensures Stepped(env, f, stack, next, events, context, bound)
    ensures r == values + Values(events) && DepthReached !in events
    ensures var key := f.entry.key;
            if env.lower(key) in env.excluded then r == values && next == stack
            else if env.isOperator(key) then r == values + [Value(key, REQUEST_BODY, "", "nosql")] && next == stack
            else
              && r == values + [Value(key, REQUEST_BODY, "JSON key '" + key + "': ", "")]
              && next == stack + [NodeFrame(f.entry.value, key, f.depth + 1)]
  {
    hide Stepped, StackEvents, FrameEvents, StackSize, Lawful, Values, Below;
    var key := f.entry.key;
    next := stack;
    EntryOnTop(env, f.entry, context, f.depth, bound);
    if env.lower(key) in env.excluded {
      events := [];
      NothingPushed(env, f, stack, context, bound);
      NoValues();
      return values, stack, events;
    }
    if env.isOperator(key) {
      var hit := Value(key, REQUEST_BODY, "", "nosql");
      events := [Emit(hit)];
      NothingPushed(env, f, stack, context, bound);
      OneValue(hit);
      return values + [hit], stack, events;
    }
    var named := Value(key, REQUEST_BODY, "JSON key '" + key + "': ", "");
    var child := NodeFrame(f.entry.value, key, f.depth + 1);
    events := [Emit(named)];
    OneValue(named);
    PushFrame(env, stack, child, context, bound);
    r := values + [named];
    next := stack + [child];
    Pushed(env, f, stack, next, events, FrameEvents(env, child, context, bound), FrameSize(child), context, bound);
  }

  lemma NoValues()
    ensures Values([]) == []
  {
  }

  /** How the budget reacts to a series of events. */
  twostate predicate Warns(budget: Budget?, events: seq<Event>)
    reads if budget == null then {} else {budget}
  {
    budget != null ==>
      && (budget.depthWarned <==> old(budget.depthWarned) || DepthReached in events)
      && budget.warnings == old(budget.warnings) + if !old(budget.depthWarned) && DepthReached in events then 1 else 0
  }

  method StepCut(env: Env, budget: Budget?, values: seq<Value>, node: Node, context: string, caption: string)
    returns (r: seq<Value>)
    modifies if budget == null then {} else {budget}
    ensures r == values + Values(Cut(env, node, context, caption)) && Warns(budget, Cut(env, node, context, caption))
  {
    hide Cut, Values;
    CutValues(env, node, context, caption);
    if budget != null {
      budget.WarnJsonDepthOnce();
    }
    r := values + [Value(env.serialize(node), context, FieldLabel(caption), "")];
  }

  method StepNode(
    env: Env, budget: Budget?, values: seq<Value>, f: Frame, stack: seq<Frame>, context: string, ghost bound: nat)
    returns (r: seq<Value>, next: seq<Frame>, ghost events: seq<Event>)
    requires f.NodeFrame? && Lawful(env) && FrameBelow(env, f, bound) && AllBelow(env, stack, bound)
    modifies if budget == null then {} else {budget}
    ensures Stepped(env, f, stack, next, events, context, bound)
    ensures r == values + Values(events) && Warns(budget, events)
    decreases bound, 1
  {
    hide Stepped, StackEvents, FrameEvents, StackSize, NodeSize, Lawful, Values, Below, Walk, WalkEntries, WalkItems,
      Cut;
    NodeOnTop(env, f.node, context, f.caption, f.depth, bound);
    NodeSizes(f.node);
    NothingPushed(env, f, stack, context, bound);
    events := FrameEvents(env, f, context, bound);
    next := stack;
    match f.node {
      case Object(entries) =>
        if f.depth >= env.depthCap {
          r := StepCut(env, budget, values, f.node, context, f.caption);
          return;
        }
        next := PushEntries(env, stack, entries, context, f.depth, bound);
        Pushed(env, f, stack, next, [], events, EntriesSize(entries), context, bound);
        events, r := [], values;
        NoValues();
      case Array(items) =>
        if f.depth >= env.depthCap {
          r := StepCut(env, budget, values, f.node, context, f.caption);
          return;
        }
        next := PushItems(env, stack, items, context, f.caption, f.depth, bound);
        Pushed(env, f, stack, next, [], events, ItemsSize(items), context, bound);
        events, r := [], values;
        NoValues();
      case Scalar(text) =>
        r := StepLeaf(env, budget, values, text, context, f.caption, f.depth, bound);
    }
  }

  method StepLeaf(
    env: Env, budget: Budget?, values: seq<Value>, text: string, context: string, caption: string, depth: nat,
    ghost bound: nat)
    returns (r: seq<Value>)
    requires Lawful(env) && FrameBelow(env, NodeFrame(Scalar(text), caption, depth), bound)
    modifies if budget == null then {} else {budget}
    ensures var events := FrameEvents(env, NodeFrame(Scalar(text), caption, depth), context, bound);
            r == values + Values(events) && Warns(budget, events)
    decreases bound, 0
  {
    hide StackEvents, FrameEvents, Lawful, Values, Below, Walk;
    NodeOnTop(env, Scalar(text), context, caption, depth, bound);
    var leaf := Value(text, context, FieldLabel(caption), "");
    if context != REQUEST_BODY {
      var inner := env.parse(text);
      if inner.Some? {
        ghost var nested := Walk(env, inner.value, context + EMBEDDED_SUFFIX, DEFAULT_LABEL, 1, env.rank(text));
        r := AppendJsonWalkEntries(env, budget, values, inner.value, context + EMBEDDED_SUFFIX, env.rank(text));
        ValuesConcat(nested, [Emit(leaf)]);
        OneValue(leaf);
        r := r + [leaf];
        assert values + Values(nested) + [leaf] == values + (Values(nested) + [leaf]);
        return;
      }
    }
    if caption == "" {
      leaf := leaf.(caption := "");
    }
    OneValue(leaf);
    r := values + [leaf];
  }

  /** The loop over an explicit stack emits the values of the recursive walk, in its order, and warns
      about the depth cap once if some container was cut. */
  method AppendJsonWalkEntries(
    env: Env, budget: Budget?, values: seq<Value>, root: Node, context: string, ghost bound: nat)
    returns (r: seq<Value>)
    requires Lawful(env) && Below(env, root, bound)
    modifies if budget == null then {} else {budget}
    ensures r == values + Values(Walk(env, root, context, DEFAULT_LABEL, 1, bound))
    ensures Warns(budget, Walk(env, root, context, DEFAULT_LABEL, 1, bound))
    decreases bound, 2
  {
    hide Lawful, Below, Walk, StackEvents, FrameEvents, StackSize, FrameSize, Values, Progress, Stepped, FrameBelow;
    r := values;
    var stack := [NodeFrame(root, DEFAULT_LABEL, 1)];
    ghost var whole := Walk(env, root, context, DEFAULT_LABEL, 1, bound);
    ghost var done: seq<Event> := [];
    ProgressStart(env, values, root, context, bound);
    while |stack| > 0
      invariant Progress(env, r, values, done, stack, context, bound, whole)
      invariant Warns(budget, done)
      decreases StackSize(stack)
    {
      ProgressStack(env, r, values, done, stack, context, bound, whole);
      PopFrame(env, stack, context, bound);
      var f, below := stack[|stack| - 1], stack[..|stack| - 1];
      var next: seq<Frame>;
      var appended: seq<Value>;
      ghost var events: seq<Event>;
      if f.EntryFrame? {
        appended, next, events := StepEntry(env, r, f, below, context, bound);
      } else {
        appended, next, events := StepNode(env, budget, r, f, below, context, bound);
      }
      SteppedIs(env, f, below, next, events, context, bound);
      Advance(env, r, values, done, stack, context, bound, whole, events, next);
      r, stack, done := appended, next, done + events;
    }
    ProgressEnd(env, r, values, done, context, bound, whole);
  }

  lemma ProgressStack(
    env: Env, values: seq<Value>, start: seq<Value>, done: seq<Event>, stack: seq<Frame>, context: string, bound: nat,
    whole: seq<Event>)
    requires Lawful(env) && Progress(env, values, start, done, stack, context, bound, whole)
    ensures AllBelow(env, stack, bound)
  {
    hide Lawful, Values, StackEvents, FrameBelow;
  }

  lemma SteppedIs(
    env: Env, f: Frame, stack: seq<Frame>, next: seq<Frame>, events: seq<Event>, context: string, bound: nat)
    requires Lawful(env) && FrameBelow(env, f, bound) && AllBelow(env, stack, bound)
    requires Stepped(env, f, stack, next, events, context, bound)
    ensures AllBelow(env, next, bound) && StackSize(next) < FrameSize(f) + StackSize(stack)
    ensures FrameEvents(env, f, context, bound) + StackEvents(env, stack, context, bound)
         == events + StackEvents(env, next, context, bound)
  {
    hide Lawful, StackEvents, FrameEvents, FrameBelow, StackSize, FrameSize;
  }

  // ---------------------------------------------------------------- excluded fields

  /** The document without its excluded fields. */
  function Prune(env: Env, node: Node): Node
    decreases node, 0
  {
    match node
    case Object(entries) => Object(PruneEntries(env, entries))
    case Array(items) => Array(PruneItems(env, items))
    case Scalar(_) => node
  }

  function PruneEntries(env: Env, entries: seq<Entry>): seq<Entry>
    decreases entries, 1
  {
    if entries == [] then []
    else if env.lower(entries[0].key) in env.excluded then PruneEntries(env, entries[1..])
    else [Entry(entries[0].key, Prune(env, entries[0].value))] + PruneEntries(env, entries[1..])
  }

  function PruneItems(env: Env, items: seq<Node>): seq<Node>
    decreases items, 1
  {
    if items == [] then [] else [Prune(env, items[0])] + PruneItems(env, items[1..])
  }

  /** No container that is cut at the depth cap shows an excluded field in its text. */
  predicate CutsHide(env: Env, node: Node, depth: nat)
    decreases node, 0
  {
    match node
    case Object(entries) =>
      if depth >= env.depthCap then env.serialize(Prune(env, node)) == env.serialize(node)
      else EntriesHide(env, entries, depth)
    case Array(items) =>
      if depth >= env.depthCap then env.serialize(Prune(env, node)) == env.serialize(node)
      else ItemsHide(env, items, depth)
    case Scalar(_) => true
  }

  predicate EntriesHide(env: Env, entries: seq<Entry>, depth: nat)
    decreases entries, 1
  {
    entries == [] ||
    (EntryHides(env, entries[0], depth) && EntriesHide(env, entries[1..], depth))
  }

  predicate EntryHides(env: Env, entry: Entry, depth: nat)
    decreases entry, 0
  {
    env.lower(entry.key) in env.excluded || env.isOperator(entry.key) || CutsHide(env, entry.value, depth + 1)
  }

  predicate ItemsHide(env: Env, items: seq<Node>, depth: nat)
    decreases items, 1
  {
    items == [] || (CutsHide(env, items[0], depth + 1) && ItemsHide(env, items[1..], depth))
  }

  lemma {:induction false} PruneBelow(env: Env, node: Node, bound: nat)
    requires Below(env, node, bound)
    ensures Below(env, Prune(env, node), bound)
    decreases node, 0
  {
    match node {
      case Object(entries) => PruneEntriesBelow(env, entries, bound);
      case Array(items) => PruneItemsBelow(env, items, bound);
      case Scalar(_) =>
    }
  }

  lemma {:induction false} PruneEntriesBelow(env: Env, entries: seq<Entry>, bound: nat)
    requires EntriesBelow(env, entries, bound)
    ensures EntriesBelow(env, PruneEntries(env, entries), bound)
    decreases entries, 1
  {
    if entries != [] {
      PruneBelow(env, entries[0].value, bound);
      PruneEntriesBelow(env, entries[1..], bound);
    }
  }

  lemma {:induction false} PruneItemsBelow(env: Env, items: seq<Node>, bound: nat)
    requires ItemsBelow(env, items, bound)
    ensures ItemsBelow(env, PruneItems(env, items), bound)
    decreases items, 1
  {
    if items != [] {
      PruneBelow(env, items[0], bound);
      PruneItemsBelow(env, items[1..], bound);
    }
  }

  /** Removing the excluded fields before the walk changes nothing but the texts of the containers
      that the depth cap cuts; the walks agree exactly when those texts do not show the fields. */
  lemma {:induction false} ExclusionsRespected(
    env: Env, node: Node, context: string, caption: string, depth: nat, bound: nat)
    requires Lawful(env) && Below(env, node, bound)
    ensures Below(env, Prune(env, node), bound)
    ensures var ours, pruned := Walk(env, node, context, caption, depth, bound),
                                Walk(env, Prune(env, node), context, caption, depth, bound);
            |ours| == |pruned| && (pruned == ours <==> CutsHide(env, node, depth))
    decreases node, 0
  {
    hide Lawful;
    PruneBelow(env, node, bound);
    match node {
      case Object(entries) =>
        if depth < env.depthCap {
          EntriesRespected(env, entries, context, depth, bound);
        }
      case Array(items) =>
        if depth < env.depthCap {
          ItemsRespected(env, items, context, caption, depth, bound);
        }
      case Scalar(_) =>
    }
  }

  lemma {:induction false} EntriesRespected(env: Env, entries: seq<Entry>, context: string, depth: nat, bound: nat)
    requires Lawful(env) && EntriesBelow(env, entries, bound)
    ensures EntriesBelow(env, PruneEntries(env, entries), bound)
    ensures var ours, pruned := WalkEntries(env, entries, context, depth, bound),
                                WalkEntries(env, PruneEntries(env, entries), context, depth, bound);
            |ours| == |pruned| && (pruned == ours <==> EntriesHide(env, entries, depth))
    decreases entries, 1
  {
    hide Lawful, WalkEntry, EntryHides, Below, Prune;
    PruneEntriesBelow(env, entries, bound);
    if entries != [] {
      var entry, rest := entries[0], entries[1..];
      EntriesRespected(env, rest, context, depth, bound);
      var pruned := Entry(entry.key, Prune(env, entry.value));
      EntryRespected(env, entry, context, depth, bound);
      if env.lower(entry.key) !in env.excluded {
        var after := PruneEntries(env, rest);
        assert PruneEntries(env, entries)[0] == pruned && PruneEntries(env, entries)[1..] == after;
        PiecewiseEqual(WalkEntry(env, pruned, context, depth, bound), WalkEntries(env, after, context, depth, bound),
                       WalkEntry(env, entry, context, depth, bound), WalkEntries(env, rest, context, depth, bound));
      }
    }
  }

  lemma {:induction false} EntryRespected(env: Env, entry: Entry, context: string, depth: nat, bound: nat)
    requires Lawful(env) && Below(env, entry.value, bound)
    ensures Below(env, Prune(env, entry.value), bound)
    ensures var ours := WalkEntry(env, entry, context, depth, bound);
            var pruned := WalkEntry(env, Entry(entry.key, Prune(env, entry.value)), context, depth, bound);
            && |ours| == |pruned| && (pruned == ours <==> EntryHides(env, entry, depth))
            && (env.lower(entry.key) in env.excluded ==> ours == [])
    decreases entry, 0
  {
    hide Lawful, Walk, CutsHide, Below, Prune;
    var key := entry.key;
    ExclusionsRespected(env, entry.value, context, key, depth + 1, bound);
    var named := [Emit(Value(key, REQUEST_BODY, "JSON key '" + key + "': ", ""))];
    PiecewiseEqual(named, Walk(env, Prune(env, entry.value), context, key, depth + 1, bound),
                   named, Walk(env, entry.value, context, key, depth + 1, bound));
  }

  lemma {:induction false} ItemsRespected(
    env: Env, items: seq<Node>, context: string, caption: string, depth: nat, bound: nat)
    requires Lawful(env) && ItemsBelow(env, items, bound)
    ensures ItemsBelow(env, PruneItems(env, items), bound)
    ensures var ours, pruned := WalkItems(env, items, context, caption, depth, bound),
                                WalkItems(env, PruneItems(env, items), context, caption, depth, bound);
            |ours| == |pruned| && (pruned == ours <==> ItemsHide(env, items, depth))
    decreases items, 1
  {
    hide Lawful, Walk, CutsHide, Below, Prune;
    PruneItemsBelow(env, items, bound);
    if items != [] {
      var item, rest := items[0], items[1..];
      ExclusionsRespected(env, item, context, caption, depth + 1, bound);
      ItemsRespected(env, rest, context, caption, depth, bound);
      var after := PruneItems(env, rest);
      assert PruneItems(env, items)[0] == Prune(env, item) && PruneItems(env, items)[1..] == after;
      PiecewiseEqual(
        Walk(env, Prune(env, item), context, caption, depth + 1, bound),
        WalkItems(env, after, context, caption, depth, bound),
        Walk(env, item, context, caption, depth + 1, bound), WalkItems(env, rest, context, caption, depth, bound));
    }
  }
}
