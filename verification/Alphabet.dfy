/** The repeated alphabet of a pattern, split into regions that no atom tells apart
    (guardcore/redos_slots.go). */
module Alphabet {
  import opened AlphabetRegions
  import opened Intervals
  import opened RegexSyntax
  import opened RegexGrammar
  import opened RegexWellFormed

  // ---------------------------------------------------------------- slots

  const NO_MAX_REPEAT := -1

  datatype Slot =
    | PairingAtom(members: IntervalSet, allowsZero: bool, unbounded: bool, maxRepeat: int, variableBounded: bool)
    | NonPairing(isBoundary: bool, inner: seq<SlotList>, unbounded: bool, maxRepeat: int, variableBounded: bool)

  datatype SlotList = SlotList(slots: seq<Slot>)

  /** The character set of a single-character node, computed anew under the given flags. */
  ghost function NodeMembers(u: Tables, node: Node, flags: Flags): IntervalSet
    requires node.Literal? || node.Any? || node.In?
  {
    match node
    case Literal(ch, _) => LiteralMembers(u, ch, flags)
    case Any(_) => AnyMembers(flags)
    case In(members, _) => members
  }

  ghost function SlotForNode(u: Tables, node: Node, flags: Flags): Slot
    decreases node, 1
  {
    if node.Repeat? then RepeatSlot(u, node, flags)
    else PairingOrNonPairing(u, node, flags, false, false, NO_MAX_REPEAT, false)
  }

  ghost function RepeatSlot(u: Tables, node: Node, flags: Flags): Slot
    requires node.Repeat?
    decreases node, 0
  {
    var allowsZero := node.min == 0;
    var unbounded := node.max >= MAX_REPEAT;
    var variableBounded := !unbounded && node.min < node.max;
    var maxRepeat := if unbounded then NO_MAX_REPEAT else node.max;
    if |node.body| == 1 then
      PairingOrNonPairing(u, node.body[0], flags, allowsZero, unbounded, maxRepeat, variableBounded)
    else
      NonPairing(!allowsZero, SequenceToAlternatives(u, node.body, flags), unbounded, maxRepeat, variableBounded)
  }

  ghost function PairingOrNonPairing(
    u: Tables, node: Node, flags: Flags, allowsZero: bool, unbounded: bool, maxRepeat: int, variableBounded: bool): Slot
    decreases node, 0
  {
    match node
    case Literal(_, _) => PairingAtom(NodeMembers(u, node, flags), allowsZero, unbounded, maxRepeat, variableBounded)
    case Any(_) => PairingAtom(NodeMembers(u, node, flags), allowsZero, unbounded, maxRepeat, variableBounded)
    case In(_, _) => PairingAtom(NodeMembers(u, node, flags), allowsZero, unbounded, maxRepeat, variableBounded)
    case Repeat(_, _, _, _) => NonPairing(true, [], false, 0, false)
    case Branch(branches) =>
      NonPairing(!allowsZero, WalkBranches(u, branches, flags), unbounded, maxRepeat, variableBounded)
    case SubPattern(_, _, body) =>
      NonPairing(!allowsZero, SequenceToAlternatives(u, body, flags), unbounded, maxRepeat, variableBounded)
    case Assert(_, _, body) => NonPairing(false, SequenceToAlternatives(u, body, flags), false, NO_MAX_REPEAT, false)
    case At(_) => NonPairing(false, [], false, NO_MAX_REPEAT, false)
    case GroupRef(_, _) => NonPairing(true, [], unbounded, maxRepeat, variableBounded)
  }

  ghost function WalkSequence(u: Tables, nodes: seq<Node>, flags: Flags): seq<Slot>
    decreases nodes, 2
  {
    if nodes == [] then [] else [SlotForNode(u, nodes[0], flags)] + WalkSequence(u, nodes[1..], flags)
  }

  ghost function WalkBranches(u: Tables, branches: seq<Alternative>, flags: Flags): seq<SlotList>
    decreases branches, 3
  {
    if branches == [] then []
    else [SlotList(WalkSequence(u, branches[0].nodes, flags))] + WalkBranches(u, branches[1..], flags)
  }

  ghost function SequenceToAlternatives(u: Tables, nodes: seq<Node>, flags: Flags): seq<SlotList>
    decreases nodes, 3
  {
    if |nodes| == 1 && nodes[0].Branch? then WalkBranches(u, nodes[0].branches, flags)
    else [SlotList(WalkSequence(u, nodes, flags))]
  }

  predicate CanRepeat(slot: Slot) {
    slot.unbounded || (slot.maxRepeat != NO_MAX_REPEAT && slot.maxRepeat > 1)
  }

  datatype Atom = Atom(members: IntervalSet, repeated: bool)

  function SlotAtoms(slot: Slot, repeated: bool): seq<Atom>
    decreases slot, 0
  {
    match slot
    case PairingAtom(members, _, _, _, _) => [Atom(members, repeated || CanRepeat(slot))]
    case NonPairing(_, inner, _, _, _) => ListAtoms(inner, repeated || CanRepeat(slot))
  }

  function CollectAtoms(slots: seq<Slot>, repeated: bool): seq<Atom>
    decreases slots, 1
  {
    if slots == [] then [] else SlotAtoms(slots[0], repeated) + CollectAtoms(slots[1..], repeated)
  }

  function ListAtoms(lists: seq<SlotList>, repeated: bool): seq<Atom>
    decreases lists, 2
  {
    if lists == [] then [] else CollectAtoms(lists[0].slots, repeated) + ListAtoms(lists[1..], repeated)
  }

  // ---------------------------------------------------------------- the atoms of a tree

  /** The single-character nodes in preorder, each marked when some enclosing repetition can
      match its body more than once.  Repeating a lookaround repeats nothing. */
  ghost function NodeAtoms(u: Tables, node: Node, flags: Flags, repeated: bool): seq<Atom>
    decreases node, 0
  {
    match node
    case Repeat(_, max, _, body) =>
      TreeAtoms(u, body, flags, repeated || (max > 1 && !(|body| == 1 && body[0].Assert?)))
    case Branch(branches) => BranchAtoms(u, branches, flags, repeated)
    case SubPattern(_, _, body) => TreeAtoms(u, body, flags, repeated)
    case Assert(_, _, body) => TreeAtoms(u, body, flags, repeated)
    case At(_) => []
    case GroupRef(_, _) => []
    case _ => [Atom(NodeMembers(u, node, flags), repeated)]
  }

  ghost function TreeAtoms(u: Tables, nodes: seq<Node>, flags: Flags, repeated: bool): seq<Atom>
    decreases nodes, 1
  {
    if nodes == [] then []
    else NodeAtoms(u, nodes[0], flags, repeated) + TreeAtoms(u, nodes[1..], flags, repeated)
  }

  ghost function BranchAtoms(u: Tables, branches: seq<Alternative>, flags: Flags, repeated: bool): seq<Atom>
    decreases branches, 2
  {
    if branches == [] then []
    else TreeAtoms(u, branches[0].nodes, flags, repeated) + BranchAtoms(u, branches[1..], flags, repeated)
  }

  lemma {:induction false} SlotAgrees(
    u: Tables, node: Node, c: Ctx, flags: Flags, repeated: bool,
    allowsZero: bool, unbounded: bool, maxRepeat: int, variableBounded: bool)
    requires WFAtom(node, c)
    ensures var slot := PairingOrNonPairing(u, node, flags, allowsZero, unbounded, maxRepeat, variableBounded);
            var more := unbounded || (maxRepeat != NO_MAX_REPEAT && maxRepeat > 1);
            SlotAtoms(slot, repeated) == NodeAtoms(u, node, flags, repeated || (more && !node.Assert?))
    decreases node, 0
  {
    var more := unbounded || (maxRepeat != NO_MAX_REPEAT && maxRepeat > 1);
    match node {
      case SubPattern(_, _, body) => BodyAgrees(u, body, Inside(node, c), flags, repeated || more);
      case Assert(_, _, body) => BodyAgrees(u, body, Inside(node, c), flags, repeated);
      case _ =>
    }
  }

  lemma {:induction false} ItemAgrees(u: Tables, node: Node, c: Ctx, flags: Flags, repeated: bool)
    requires WFItem(node, c)
    ensures SlotAtoms(SlotForNode(u, node, flags), repeated) == NodeAtoms(u, node, flags, repeated)
    decreases node, 1
  {
    if node.Repeat? {
      var unbounded := node.max >= MAX_REPEAT;
      SlotAgrees(u, node.body[0], c, flags, repeated, node.min == 0, unbounded,
                 if unbounded then NO_MAX_REPEAT else node.max, !unbounded && node.min < node.max);
      OneAtom(u, node.body, flags, repeated || (node.max > 1 && !node.body[0].Assert?));
    } else {
      SlotAgrees(u, node, c, flags, repeated, false, false, NO_MAX_REPEAT, false);
    }
  }

  lemma OneAtom(u: Tables, body: seq<Node>, flags: Flags, repeated: bool)
    requires |body| == 1
    ensures TreeAtoms(u, body, flags, repeated) == NodeAtoms(u, body[0], flags, repeated)
  {
    assert TreeAtoms(u, body[1..], flags, repeated) == [];
  }

  lemma {:induction false} SequenceAgrees(u: Tables, nodes: seq<Node>, c: Ctx, flags: Flags, repeated: bool)
    requires WFSequence(nodes, c)
    ensures CollectAtoms(WalkSequence(u, nodes, flags), repeated) == TreeAtoms(u, nodes, flags, repeated)
    decreases nodes, 2
  {
    if nodes != [] {
      ItemAgrees(u, nodes[0], c, flags, repeated);
      SequenceAgrees(u, nodes[1..], AfterNode(nodes[0], c), flags, repeated);
      var slots := WalkSequence(u, nodes, flags);
      assert slots[0] == SlotForNode(u, nodes[0], flags) && slots[1..] == WalkSequence(u, nodes[1..], flags);
    }
  }

  lemma {:induction false} BranchesAgree(u: Tables, branches: seq<Alternative>, c: Ctx, flags: Flags, repeated: bool)
    requires WFBranches(branches, c)
    ensures ListAtoms(WalkBranches(u, branches, flags), repeated) == BranchAtoms(u, branches, flags, repeated)
    decreases branches, 3
  {
    if branches != [] {
      SequenceAgrees(u, branches[0].nodes, c, flags, repeated);
      BranchesAgree(u, branches[1..], AfterNodes(branches[0].nodes, c), flags, repeated);
      var lists := WalkBranches(u, branches, flags);
      assert lists[0].slots == WalkSequence(u, branches[0].nodes, flags)
          && lists[1..] == WalkBranches(u, branches[1..], flags);
    }
  }

  lemma {:induction false} BodyAgrees(u: Tables, nodes: seq<Node>, c: Ctx, flags: Flags, repeated: bool)
    requires WFBody(nodes, c)
    ensures ListAtoms(SequenceToAlternatives(u, nodes, flags), repeated) == TreeAtoms(u, nodes, flags, repeated)
    decreases nodes, 3
  {
    if |nodes| == 1 && nodes[0].Branch? {
      BranchesAgree(u, nodes[0].branches, c, flags, repeated);
      OneAtom(u, nodes, flags, repeated);
    } else {
      SequenceAgrees(u, nodes, c, flags, repeated);
      var lists := [SlotList(WalkSequence(u, nodes, flags))];
      assert ListAtoms(lists, repeated) == CollectAtoms(lists[0].slots, repeated) + ListAtoms(lists[1..], repeated);
    }
  }

  /** The slots of a parsed pattern list exactly the single-character nodes of its tree, in preorder, with
      the right repetition marks and the sets that they have under the pattern's final flags. */
  lemma PatternAtoms(u: Tables, pattern: string, flags: Flags)
    requires Sane(u)
    ensures var r := ParsePattern(u, pattern, flags);
            r.Ok? ==>
              CollectAtoms(WalkSequence(u, r.value, r.st.flags), false) == TreeAtoms(u, r.value, r.st.flags, false)
  {
    ParseWellFormed(u, pattern, flags);
    var r := ParsePattern(u, pattern, flags);
    if r.Ok? {
      var tree := r.value;
      if |tree| == 1 && tree[0].Branch? {
        BranchesAgree(u, tree[0].branches, Start(), r.st.flags, false);
        OneAtom(u, tree, r.st.flags, false);
        var slots := WalkSequence(u, tree, r.st.flags);
        assert slots == [SlotForNode(u, tree[0], r.st.flags)] + WalkSequence(u, tree[1..], r.st.flags);
        assert slots == [SlotForNode(u, tree[0], r.st.flags)];
        assert CollectAtoms(slots, false) == SlotAtoms(slots[0], false) + CollectAtoms(slots[1..], false);
      } else {
        SequenceAgrees(u, tree, Start(), r.st.flags, false);
      }
    }
  }

  // ---------------------------------------------------------------- fills

  function AtomSets(atoms: seq<Atom>): seq<IntervalSet> {
    seq(|atoms|, i requires 0 <= i < |atoms| => atoms[i].members)
  }

  function RepeatedUnion(atoms: seq<Atom>): IntervalSet {
    if atoms == [] then []
    else
      var last := atoms[|atoms| - 1];
      var before := RepeatedUnion(atoms[..|atoms| - 1]);
      if last.repeated then Union(before, last.members) else before
  }

  function Regions(atoms: seq<Atom>): seq<IntervalSet> {
    var repeated := RepeatedUnion(atoms);
    if repeated == [] then [] else SplitAll([repeated], AtomSets(atoms))
  }

  function Fills(atoms: seq<Atom>): seq<int> {
    FirstMembers(Regions(atoms))
  }

  function FirstMembers(regions: seq<IntervalSet>): seq<int> {
    if regions == [] then []
    else (if regions[0] == [] then [] else [regions[0][0].low]) + FirstMembers(regions[1..])
  }

  ghost predicate AtomsCanonical(atoms: seq<Atom>) {
    forall i :: 0 <= i < |atoms| ==> Canonical(atoms[i].members)
  }

  /** Some atom that can repeat matches the character. */
  ghost predicate Repeatable(c: int, atoms: seq<Atom>) {
    exists i :: 0 <= i < |atoms| && atoms[i].repeated && Member(c, atoms[i].members)
  }

  /** The same atoms match both characters. */
  ghost predicate SameClasses(c: int, d: int, atoms: seq<Atom>) {
    forall i :: 0 <= i < |atoms| ==> (Member(c, atoms[i].members) <==> Member(d, atoms[i].members))
  }

  lemma {:induction false} RepeatedUnionSpec(atoms: seq<Atom>)
    requires AtomsCanonical(atoms)
    ensures Canonical(RepeatedUnion(atoms))
    ensures forall c :: Member(c, RepeatedUnion(atoms)) <==> Repeatable(c, atoms)
  {
    hide Union, Canonical, Member;
    if atoms == [] {
      NothingCanonical();
    } else {
      var n := |atoms| - 1;
      RepeatedUnionSpec(atoms[..n]);
      if atoms[n].repeated {
        CanonicalAllValid(RepeatedUnion(atoms[..n]));
        CanonicalAllValid(atoms[n].members);
        UnionSpec(RepeatedUnion(atoms[..n]), atoms[n].members);
      }
      forall c ensures Member(c, RepeatedUnion(atoms)) <==> Repeatable(c, atoms) {
        RepeatableSnoc(c, atoms);
      }
    }
  }

  lemma NothingCanonical()
    ensures Canonical([]) && forall c :: !Member(c, [])
  {
  }

  lemma RepeatableSnoc(c: int, atoms: seq<Atom>)
    requires atoms != []
    ensures var n := |atoms| - 1;
            Repeatable(c, atoms) <==> Repeatable(c, atoms[..n]) || (atoms[n].repeated && Member(c, atoms[n].members))
  {
    var n := |atoms| - 1;
    if Repeatable(c, atoms) {
      var i :| 0 <= i < |atoms| && atoms[i].repeated && Member(c, atoms[i].members);
      if i < n {
        assert atoms[..n][i] == atoms[i];
      }
    }
    if Repeatable(c, atoms[..n]) {
      var i :| 0 <= i < n && atoms[..n][i].repeated && Member(c, atoms[..n][i].members);
      assert atoms[i].repeated && Member(c, atoms[i].members);
    }
  }

  lemma AlikeSameClasses(c: int, d: int, atoms: seq<Atom>)
    ensures Alike(c, d, AtomSets(atoms)) <==> SameClasses(c, d, atoms)
  {
    forall i | 0 <= i < |atoms| ensures AtomSets(atoms)[i] == atoms[i].members {
    }
  }

  lemma {:induction false} FirstMembersSpec(regions: seq<IntervalSet>)
    requires Regular(regions)
    ensures |FirstMembers(regions)| == |regions|
    ensures forall i :: 0 <= i < |regions| ==> Member(FirstMembers(regions)[i], regions[i])
  {
    if regions != [] {
      FirstMembersSpec(regions[1..]);
      assert Within(regions[0][0].low, regions[0][0]);
      assert FirstMembers(regions) == [regions[0][0].low] + FirstMembers(regions[1..]);
      forall i | 0 <= i < |regions| ensures Member(FirstMembers(regions)[i], regions[i]) {
        if i > 0 {
          assert regions[i] == regions[1..][i - 1];
        }
      }
    }
  }

  /** Every fill is a character that some repeated atom matches. */
  ghost predicate OnlyRepeatable(fills: seq<int>, atoms: seq<Atom>) {
    forall i :: 0 <= i < |fills| ==> Repeatable(fills[i], atoms)
  }

  /** Some fill is matched by exactly the atoms that match the character. */
  ghost predicate Stands(fills: seq<int>, c: int, atoms: seq<Atom>) {
    exists i :: 0 <= i < |fills| && SameClasses(c, fills[i], atoms)
  }

  ghost predicate EachRepresented(fills: seq<int>, atoms: seq<Atom>) {
    forall c :: Repeatable(c, atoms) ==> Stands(fills, c, atoms)
  }

  ghost predicate NoTwoAlike(fills: seq<int>, atoms: seq<Atom>) {
    forall i, j :: 0 <= i < j < |fills| ==> !SameClasses(fills[i], fills[j], atoms)
  }

  /** The fills are a system of representatives of the repeated alphabet: one for every set of
      atoms that match some repeated character together. */
  lemma FillsRepresent(atoms: seq<Atom>)
    requires AtomsCanonical(atoms)
    ensures OnlyRepeatable(Fills(atoms), atoms) && EachRepresented(Fills(atoms), atoms)
            && NoTwoAlike(Fills(atoms), atoms)
  {
    hide *;
    RepeatedUnionSpec(atoms);
    AtomSetsCanonical(atoms);
    if RepeatedUnion(atoms) == [] {
      NothingToFill(atoms);
    } else {
      FillsOf(atoms);
      RegionsPartition(RepeatedUnion(atoms), AtomSets(atoms));
      FillsOnly(atoms, RepeatedUnion(atoms), SplitAll([RepeatedUnion(atoms)], AtomSets(atoms)));
      FillsEach(atoms, RepeatedUnion(atoms), SplitAll([RepeatedUnion(atoms)], AtomSets(atoms)));
    }
  }

  lemma NothingToFill(atoms: seq<Atom>)
    requires RepeatedUnion(atoms) == []
    requires forall c :: Member(c, RepeatedUnion(atoms)) <==> Repeatable(c, atoms)
    ensures OnlyRepeatable(Fills(atoms), atoms) && EachRepresented(Fills(atoms), atoms)
            && NoTwoAlike(Fills(atoms), atoms)
  {
    hide RepeatedUnion, Repeatable, SameClasses;
    assert Fills(atoms) == [];
  }

  lemma FillsOf(atoms: seq<Atom>)
    requires RepeatedUnion(atoms) != []
    ensures Fills(atoms) == FirstMembers(SplitAll([RepeatedUnion(atoms)], AtomSets(atoms)))
  {
    hide FirstMembers, SplitAll, AtomSets, RepeatedUnion;
  }

  lemma FillsOnly(atoms: seq<Atom>, all: IntervalSet, regions: seq<IntervalSet>)
    requires Regular(regions) && Covers(regions, all) && SeparatesExactly(regions, AtomSets(atoms))
    requires forall c :: Member(c, all) <==> Repeatable(c, atoms)
    ensures OnlyRepeatable(FirstMembers(regions), atoms) && NoTwoAlike(FirstMembers(regions), atoms)
  {
    hide Canonical, Member, FirstMembers, SameClasses, Alike, Repeatable, AtomSets;
    FirstMembersSpec(regions);
    var fills := FirstMembers(regions);
    forall i, j | 0 <= i < j < |fills| ensures !SameClasses(fills[i], fills[j], atoms) {
      AlikeSameClasses(fills[i], fills[j], atoms);
    }
  }

  lemma FillsEach(atoms: seq<Atom>, all: IntervalSet, regions: seq<IntervalSet>)
    requires Regular(regions) && Covers(regions, all) && SeparatesExactly(regions, AtomSets(atoms))
    requires forall c :: Member(c, all) <==> Repeatable(c, atoms)
    ensures EachRepresented(FirstMembers(regions), atoms)
  {
    hide Canonical, Member, FirstMembers, SameClasses, Alike, Repeatable, AtomSets;
    FirstMembersSpec(regions);
    var fills := FirstMembers(regions);
    forall c | Repeatable(c, atoms) ensures Stands(fills, c, atoms) {
      var i :| 0 <= i < |regions| && Member(c, regions[i]);
      AlikeSameClasses(c, fills[i], atoms);
      assert SameClasses(c, fills[i], atoms);
    }
  }

  lemma NoFills()
    ensures FirstMembers([]) == []
  {
  }

  lemma AtomSetsCanonical(atoms: seq<Atom>)
    requires AtomsCanonical(atoms)
    ensures AllCanonical(AtomSets(atoms))
  {
    hide Canonical;
  }

  // ---------------------------------------------------------------- from the pattern to its fills

  lemma ConcatCanonical(s: seq<Atom>, t: seq<Atom>)
    requires AtomsCanonical(s) && AtomsCanonical(t)
    ensures AtomsCanonical(s + t)
  {
    hide Canonical;
  }

  lemma {:induction false} NodeAtomsCanonical(u: Tables, node: Node, c: Ctx, flags: Flags, repeated: bool)
    requires WFItem(node, c)
    ensures AtomsCanonical(NodeAtoms(u, node, flags, repeated))
    decreases node, 0
  {
    hide Canonical;
    match node {
      case Literal(ch, members) => MembersCanonical(u, Digit, ch, members, flags);
      case Any(members) => MembersCanonical(u, Digit, 0, members, flags);
      case In(_, _) =>
      case Repeat(_, max, _, body) =>
        var more := repeated || (max > 1 && !body[0].Assert?);
        NodeAtomsCanonical(u, body[0], c, flags, more);
        OneAtom(u, body, flags, more);
      case Branch(_) =>
      case SubPattern(_, _, body) => BodyAtomsCanonical(u, body, Inside(node, c), flags, repeated);
      case Assert(_, _, body) => BodyAtomsCanonical(u, body, Inside(node, c), flags, repeated);
      case At(_) =>
      case GroupRef(_, _) =>
    }
  }

  lemma {:induction false} SequenceAtomsCanonical(u: Tables, nodes: seq<Node>, c: Ctx, flags: Flags, repeated: bool)
    requires WFSequence(nodes, c)
    ensures AtomsCanonical(TreeAtoms(u, nodes, flags, repeated))
    decreases nodes, 1
  {
    hide Canonical;
    if nodes != [] {
      NodeAtomsCanonical(u, nodes[0], c, flags, repeated);
      SequenceAtomsCanonical(u, nodes[1..], AfterNode(nodes[0], c), flags, repeated);
      ConcatCanonical(NodeAtoms(u, nodes[0], flags, repeated), TreeAtoms(u, nodes[1..], flags, repeated));
    }
  }

  lemma {:induction false} BranchesAtomsCanonical(
    u: Tables, branches: seq<Alternative>, c: Ctx, flags: Flags, repeated: bool)
    requires WFBranches(branches, c)
    ensures AtomsCanonical(BranchAtoms(u, branches, flags, repeated))
    decreases branches, 2
  {
    hide Canonical;
    if branches != [] {
      var nodes := branches[0].nodes;
      SequenceAtomsCanonical(u, nodes, c, flags, repeated);
      BranchesAtomsCanonical(u, branches[1..], AfterNodes(nodes, c), flags, repeated);
      ConcatCanonical(TreeAtoms(u, nodes, flags, repeated), BranchAtoms(u, branches[1..], flags, repeated));
    }
  }

  lemma {:induction false} BodyAtomsCanonical(u: Tables, nodes: seq<Node>, c: Ctx, flags: Flags, repeated: bool)
    requires WFBody(nodes, c)
    ensures AtomsCanonical(TreeAtoms(u, nodes, flags, repeated))
    decreases nodes, 3
  {
    hide Canonical;
    if |nodes| == 1 && nodes[0].Branch? {
      BranchesAtomsCanonical(u, nodes[0].branches, c, flags, repeated);
      OneAtom(u, nodes, flags, repeated);
    } else {
      SequenceAtomsCanonical(u, nodes, c, flags, repeated);
    }
  }

  /** For every pattern that parses: a character that some repeated node matches under the final flags
      has exactly one fill that the very same nodes match under them. */
  lemma FinalFlagFills(u: Tables, pattern: string, flags: Flags)
    requires Sane(u)
    ensures var r := ParsePattern(u, pattern, flags);
            r.Ok? ==>
              var atoms := TreeAtoms(u, r.value, r.st.flags, false);
              var fills := Fills(CollectAtoms(WalkSequence(u, r.value, r.st.flags), false));
              OnlyRepeatable(fills, atoms) && EachRepresented(fills, atoms) && NoTwoAlike(fills, atoms)
  {
    hide *;
    PatternAtoms(u, pattern, flags);
    ParseWellFormed(u, pattern, flags);
    var r := ParsePattern(u, pattern, flags);
    if r.Ok? {
      BodyAtomsCanonical(u, r.value, Start(), r.st.flags, false);
      FillsRepresent(TreeAtoms(u, r.value, r.st.flags, false));
    }
  }

  // ---------------------------------------------------------------- the loops

  method CollectAlphabetAtoms(slots: seq<Slot>, repeated: bool) returns (atoms: seq<Atom>)
    ensures atoms == CollectAtoms(slots, repeated)
    decreases slots
  {
    hide CollectAtoms;
    atoms := [];
    for i := 0 to |slots|
      invariant AtomsLeft(atoms, slots, i, repeated)
    {
      var slot := slots[i];
      AtomsStep(atoms, slots, i, repeated);
      var isRepeated := repeated || CanRepeat(slot);
      match slot {
        case PairingAtom(members, _, _, _, _) => atoms := atoms + [Atom(members, isRepeated)];
        case NonPairing(_, inner, _, _, _) =>
          var found := CollectInner(inner, isRepeated);
          atoms := atoms + found;
      }
    }
    AtomsDone(atoms, slots, repeated);
  }

  ghost predicate AtomsLeft(done: seq<Atom>, slots: seq<Slot>, i: nat, repeated: bool)
    requires i <= |slots|
  {
    done + CollectAtoms(slots[i..], repeated) == CollectAtoms(slots, repeated)
  }

  lemma AtomsStep(done: seq<Atom>, slots: seq<Slot>, i: nat, repeated: bool)
    requires i < |slots| && AtomsLeft(done, slots, i, repeated)
    ensures AtomsLeft(done + SlotAtoms(slots[i], repeated), slots, i + 1, repeated)
  {
    hide SlotAtoms, CanRepeat;
    var rest := slots[i..];
    assert rest[0] == slots[i] && rest[1..] == slots[i + 1..];
    assert done + (SlotAtoms(slots[i], repeated) + CollectAtoms(rest[1..], repeated))
        == done + SlotAtoms(slots[i], repeated) + CollectAtoms(rest[1..], repeated);
  }

  lemma AtomsDone(done: seq<Atom>, slots: seq<Slot>, repeated: bool)
    requires AtomsLeft(done, slots, |slots|, repeated)
    ensures done == CollectAtoms(slots, repeated)
  {
    assert slots[|slots|..] == [];
  }

  method CollectInner(inner: seq<SlotList>, repeated: bool) returns (atoms: seq<Atom>)
    ensures atoms == ListAtoms(inner, repeated)
    decreases inner
  {
    atoms := [];
    for i := 0 to |inner|
      invariant atoms + ListAtoms(inner[i..], repeated) == ListAtoms(inner, repeated)
    {
      assert inner[i..][0] == inner[i] && inner[i..][1..] == inner[i + 1..];
      var found := CollectAlphabetAtoms(inner[i].slots, repeated);
      atoms := atoms + found;
    }
    assert inner[|inner|..] == [];
  }

  /** The source skips an atom whose interval set is the very object it has already split by;
      `addresses` stands for the identities of those objects.  Skipping changes nothing. */
  method RepeatAlphabetFills(atoms: seq<Atom>, addresses: seq<int>) returns (fills: seq<int>)
    requires AtomsCanonical(atoms) && |addresses| == |atoms|
    requires forall i, j ::
               0 <= i < j < |atoms| && addresses[i] == addresses[j] ==> atoms[i].members == atoms[j].members
    ensures fills == Fills(atoms)
  {
    hide Canonical, SplitAll, Split, FirstMembers, RepeatedUnion, Union, Member, Regular;
    var repeated := UnionOfRepeated(atoms);
    if repeated == [] {
      NoFills();
      return [];
    }
    RepeatedUnionSpec(atoms);
    AtomSetsCanonical(atoms);
    var regions := [repeated];
    var seen: set<int> := {};
    ghost var sets := AtomSets(atoms);
    SplitNone([repeated]);
    assert sets[..0] == [];
    for i := 0 to |atoms|
      invariant regions == SplitAll([repeated], sets[..i])
      invariant forall k :: 0 <= k < i ==> addresses[k] in seen
      invariant forall a :: a in seen ==> exists k :: 0 <= k < i && addresses[k] == a
    {
      AllCanonicalPrefix(sets, i);
      SplitNext([repeated], sets, i);
      if addresses[i] in seen {
        ghost var k :| 0 <= k < i && addresses[k] == addresses[i];
        assert sets[..i][k] == sets[i];
        AlreadySplit(repeated, sets[..i], sets[i]);
      } else {
        seen := seen + {addresses[i]};
        WholeRegular(repeated);
        SplitAllRegular([repeated], sets[..i]);
        RegularCanonical(regions);
        regions := SplitAlphabet(regions, atoms[i].members);
      }
    }
    assert sets[..|atoms|] == sets;
    fills := FirstMembersLoop(regions);
  }

  lemma SplitNone(regions: seq<IntervalSet>)
    ensures SplitAll(regions, []) == regions
  {
  }

  lemma SplitNext(regions: seq<IntervalSet>, sets: seq<IntervalSet>, i: nat)
    requires i < |sets|
    ensures SplitAll(regions, sets[..i + 1]) == Split(SplitAll(regions, sets[..i]), sets[i])
  {
    assert sets[..i + 1][..i] == sets[..i];
  }

  lemma AllCanonicalPrefix(sets: seq<IntervalSet>, i: nat)
    requires AllCanonical(sets) && i <= |sets|
    ensures AllCanonical(sets[..i])
  {
    hide Canonical;
  }

  lemma RegularCanonical(regions: seq<IntervalSet>)
    requires Regular(regions)
    ensures AllCanonical(regions)
  {
    hide Canonical;
  }

  method UnionOfRepeated(atoms: seq<Atom>) returns (repeated: IntervalSet)
    requires AtomsCanonical(atoms)
    ensures repeated == RepeatedUnion(atoms)
  {
    hide Union, Normalize, Canonical, Member;
    repeated := [];
    assert atoms[..0] == [];
    for i := 0 to |atoms|
      invariant repeated == RepeatedUnion(atoms[..i])
    {
      assert atoms[..i + 1][..i] == atoms[..i];
      RepeatedUnionSpec(atoms[..i]);
      if atoms[i].repeated {
        repeated := UnionOf(repeated, atoms[i].members);
      }
    }
    assert atoms[..|atoms|] == atoms;
  }

  /** The first member of a region, if there is one. */
  function FirstOf(region: IntervalSet): seq<int> {
    if region == [] then [] else [region[0].low]
  }

  lemma FirstMembersStep(regions: seq<IntervalSet>, i: nat)
    requires i < |regions|
    ensures FirstMembers(regions[i..]) == FirstOf(regions[i]) + FirstMembers(regions[i + 1..])
  {
    assert regions[i..][0] == regions[i] && regions[i..][1..] == regions[i + 1..];
  }

  lemma FirstMembersDone(regions: seq<IntervalSet>)
    ensures FirstMembers(regions[|regions|..]) == [] && regions[0..] == regions
  {
  }

  method FirstMembersLoop(regions: seq<IntervalSet>) returns (fills: seq<int>)
    ensures fills == FirstMembers(regions)
  {
    hide FirstMembers;
    fills := [];
    FirstMembersDone(regions);
    for i := 0 to |regions|
      invariant fills + FirstMembers(regions[i..]) == FirstMembers(regions)
    {
      FirstMembersStep(regions, i);
      assert fills + (FirstOf(regions[i]) + FirstMembers(regions[i + 1..]))
          == fills + FirstOf(regions[i]) + FirstMembers(regions[i + 1..]);
      if regions[i] != [] {
        fills := fills + [regions[i][0].low];
      }
    }
  }
}
