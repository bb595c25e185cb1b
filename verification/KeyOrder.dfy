/** Lists that hold every tracked key once, in the order in which the keys came. */
module KeyOrder {

  predicate Distinct(order: seq<string>) {
    forall i, j :: 0 <= i < j < |order| ==> order[i] != order[j]
  }

  /** The list without the first occurrence of a key. */
  function Without(order: seq<string>, key: string): seq<string> {
    if order == [] then [] else if order[0] == key then order[1..] else [order[0]] + Without(order[1..], key)
  }

  lemma DistinctTail(order: seq<string>)
    requires Distinct(order) && order != []
    ensures Distinct(order[1..]) && order[0] !in order[1..]
    ensures forall k :: k in order <==> k == order[0] || k in order[1..]
  {
    var tail := order[1..];
    forall i, j | 0 <= i < j < |tail| ensures tail[i] != tail[j] {
      assert tail[i] == order[i + 1] && tail[j] == order[j + 1];
    }
    forall k | 0 <= k < |tail| ensures tail[k] != order[0] {
      assert tail[k] == order[k + 1];
    }
    assert order == [order[0]] + tail;
  }

  lemma DistinctCons(head: string, tail: seq<string>)
    requires Distinct(tail) && head !in tail
    ensures Distinct([head] + tail)
  {
    var order := [head] + tail;
    forall i, j | 0 <= i < j < |order| ensures order[i] != order[j] {
      if i > 0 {
        assert order[i] == tail[i - 1] && order[j] == tail[j - 1];
      }
    }
  }

  lemma DistinctSnoc(order: seq<string>, last: string)
    requires Distinct(order) && last !in order
    ensures Distinct(order + [last])
  {
  }

  lemma {:induction false} WithoutSpec(order: seq<string>, key: string)
    requires Distinct(order)
    ensures Distinct(Without(order, key)) && forall k :: k in Without(order, key) <==> k in order && k != key
  {
    hide Distinct;
    if order != [] {
      DistinctTail(order);
      WithoutSpec(order[1..], key);
      if order[0] != key {
        DistinctCons(order[0], Without(order[1..], key));
      }
    }
  }

  /** The key has not been met in the first `i` places. */
  ghost predicate Scanned(order: seq<string>, i: nat, key: string)
    requires i <= |order|
  {
    Without(order, key) == order[..i] + Without(order[i..], key)
  }

  lemma WithoutStart(order: seq<string>, key: string)
    ensures Scanned(order, 0, key)
  {
    assert order[0..] == order && order[..0] == [];
  }

  lemma WithoutStep(order: seq<string>, i: nat, key: string)
    requires i < |order| && Scanned(order, i, key)
    ensures if order[i] == key then Without(order, key) == order[..i] + order[i + 1..] else Scanned(order, i + 1, key)
  {
    var rest := order[i..];
    assert rest[0] == order[i] && rest[1..] == order[i + 1..];
    assert order[..i + 1] == order[..i] + [order[i]];
    if order[i] != key {
      var tail := Without(rest[1..], key);
      assert order[..i] + ([order[i]] + tail) == order[..i] + [order[i]] + tail;
    }
  }

  lemma WithoutEnd(order: seq<string>, key: string)
    requires Scanned(order, |order|, key)
    ensures Without(order, key) == order
  {
    assert order[..|order|] == order && order[|order|..] == [];
  }

  method RemoveKey(order: seq<string>, key: string) returns (rest: seq<string>)
    ensures rest == Without(order, key)
  {
    hide Without;
    WithoutStart(order, key);
    for i := 0 to |order|
      invariant Scanned(order, i, key)
    {
      WithoutStep(order, i, key);
      if order[i] == key {
        return order[..i] + order[i + 1..];
      }
    }
    WithoutEnd(order, key);
    rest := order;
  }
}
