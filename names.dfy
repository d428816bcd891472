/**
 * The integer id provider: it names components "1", "2", ... in the order
 * they are first asked about, and repeats a component's id when asked again.
 * An exporter uses one for vertices and a separate one for edges, so the
 * two numberings are independent.
 */
module Names {
  import Decimal
  import opened Sequences

  /** The ids a provider has handed out after naming the components of order, in that order. */
  function Numbering<T(==)>(order: seq<T>): map<T, nat> {
    if order == [] then map[]
    else Numbering(order[..|order| - 1])[order[|order| - 1] := |order|]
  }

  /** The name function a table of ids stands for. */
  function NameOf<T(==)>(ids: map<T, nat>): T -> string {
    c => if c in ids then Decimal.NatToString(ids[c]) else ""
  }

  /** ids1 keeps every id of ids0. */
  predicate Extends<T(==)>(ids0: map<T, nat>, ids1: map<T, nat>) {
    forall c :: c in ids0 ==> c in ids1 && ids1[c] == ids0[c]
  }

  /** Keeping every id keeps every name. */
  lemma ExtendsNames<T>(ids0: map<T, nat>, ids1: map<T, nat>, c: T)
    requires Extends(ids0, ids1) && c in ids0
    ensures NameOf(ids1)(c) == NameOf(ids0)(c)
  {
  }

  /** The i-th component named gets id i + 1, and nothing else has an id. */
  lemma {:induction false} NumberingAt<T>(order: seq<T>)
    requires Distinct(order)
    ensures Numbering(order).Keys == set c | c in order
    ensures forall i :: 0 <= i < |order| ==> Numbering(order)[order[i]] == i + 1
  {
    if order != [] {
      var init := order[..|order| - 1];
      NumberingAt(init);
      assert forall i :: 0 <= i < |init| ==> init[i] == order[i];
      assert order == init + [order[|order| - 1]];
    }
  }

  /** A component has an id exactly when it has been named. */
  lemma {:induction false} NumberingHas<T>(order: seq<T>, c: T)
    ensures c in Numbering(order) <==> c in order
  {
    if order != [] {
      var init := order[..|order| - 1];
      NumberingHas(init, c);
      assert order == init + [order[|order| - 1]];
    }
  }

  /** Different components never share an id. */
  lemma NamesDistinct<T>(order: seq<T>, i: nat, j: nat)
    requires Distinct(order) && i < |order| && j < |order|
    ensures NameOf(Numbering(order))(order[i]) == NameOf(Numbering(order))(order[j]) <==> i == j
  {
    if i != j {
      NumberingAt(order);
      var ids := Numbering(order);
      var ni, nj := Decimal.NatToString(i + 1), Decimal.NatToString(j + 1);
      assert NameOf(ids)(order[i]) == ni by {
        assert order[i] in ids && ids[order[i]] == i + 1;
      }
      assert NameOf(ids)(order[j]) == nj by {
        assert order[j] in ids && ids[order[j]] == j + 1;
      }
      Decimal.NatToStringInjective(i + 1, j + 1);
    }
  }

  class IntegerNameProvider<T(==)> {
    var nextId: nat
    var ids: map<T, nat>
    ghost var order: seq<T>  // the components named so far, in the order they were named

    ghost predicate Valid()
      reads this
    {
      Distinct(order) && ids == Numbering(order) && nextId == |order| + 1
    }

    constructor ()
      ensures Valid() && order == [] && ids == map[] && nextId == 1
    {
      nextId := 1;
      ids := map[];
      order := [];
    }

    /** The id of c, assigning the next number when c has none yet. */
    method GetName(c: T) returns (name: string)
      requires Valid()
      modifies this
      ensures Valid()
      ensures c in ids && name == NameOf(ids)(c) && Extends(old(ids), ids)
      ensures c in old(ids) ==> ids == old(ids) && order == old(order)
      ensures c !in old(ids) ==> order == old(order) + [c] && ids == old(ids)[c := |order|]
    {
      if c !in ids {
        NumberingAt(order);
        ids := ids[c := nextId];
        order := order + [c];
        nextId := nextId + 1;
        assert order[..|order| - 1] == old(order);
      }
      name := Decimal.NatToString(ids[c]);
    }
  }
}
