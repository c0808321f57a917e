/** Sums of compensatable amounts: the total of an order and the part of
    it that a failed shipment compensates. Amounts are unbounded here. */
module Amounts {

  /** `iter().map(amount).sum()`. */
  function Total<T>(items: seq<T>, amountOf: T -> nat): (r: nat)
    ensures items == [] ==> r == 0
    ensures forall k :: 0 <= k < |items| ==> amountOf(items[k]) <= r
  {
    if items == [] then 0 else amountOf(items[0]) + Total(items[1..], amountOf)
  }

  lemma {:induction false} TotalAppend<T>(a: seq<T>, b: seq<T>, amountOf: T -> nat)
    ensures Total(a + b, amountOf) == Total(a, amountOf) + Total(b, amountOf)
  {
    if a == [] {
      assert a + b == b;
    } else {
      assert (a + b)[1..] == a[1..] + b;
      TotalAppend(a[1..], b, amountOf);
    }
  }

  /** `iter().filter(|i| ids.contains(&i._id))`: the items, in their order,
      whose id occurs in `ids`. */
  function Selected<T>(items: seq<T>, idOf: T -> nat, ids: seq<nat>): (r: seq<T>)
    ensures |r| <= |items|
    ensures forall k :: 0 <= k < |r| ==> r[k] in items && idOf(r[k]) in ids
    ensures forall k :: 0 <= k < |items| && idOf(items[k]) in ids ==> items[k] in r
  {
    if items == [] then []
    else if idOf(items[0]) in ids then [items[0]] + Selected(items[1..], idOf, ids)
    else Selected(items[1..], idOf, ids)
  }

  /** The sum of the amounts of the selected items. */
  function SelectedTotal<T>(items: seq<T>, idOf: T -> nat, amountOf: T -> nat, ids: seq<nat>): (r: nat)
  {
    Total(Selected(items, idOf, ids), amountOf)
  }

  /** Only which ids are listed matters, not their order or repetitions:
      an item named twice is still counted once. */
  lemma {:induction false} SelectedDependsOnIdSet<T>(items: seq<T>, idOf: T -> nat, ids1: seq<nat>, ids2: seq<nat>)
    requires forall i :: i in ids1 <==> i in ids2
    ensures Selected(items, idOf, ids1) == Selected(items, idOf, ids2)
  {
    if items != [] {
      SelectedDependsOnIdSet(items[1..], idOf, ids1, ids2);
    }
  }

  /** Repeating an id already listed does not change the compensated amount. */
  lemma RepeatedIdCountedOnce<T>(items: seq<T>, idOf: T -> nat, amountOf: T -> nat, ids: seq<nat>, id: nat)
    requires id in ids
    ensures SelectedTotal(items, idOf, amountOf, ids + [id]) == SelectedTotal(items, idOf, amountOf, ids)
  {
    SelectedDependsOnIdSet(items, idOf, ids + [id], ids);
  }

  /** An id that names no item adds nothing. */
  lemma {:induction false} UnmatchedIdAddsNothing<T>(items: seq<T>, idOf: T -> nat, ids: seq<nat>, id: nat)
    requires forall k :: 0 <= k < |items| ==> idOf(items[k]) != id
    ensures Selected(items, idOf, ids + [id]) == Selected(items, idOf, ids)
  {
    if items != [] {
      assert idOf(items[0]) in ids + [id] <==> idOf(items[0]) in ids;
      UnmatchedIdAddsNothing(items[1..], idOf, ids, id);
    }
  }

  /** With no ids nothing is compensated. */
  lemma {:induction false} NoIdsNothingCompensated<T>(items: seq<T>, idOf: T -> nat, amountOf: T -> nat)
    ensures SelectedTotal(items, idOf, amountOf, []) == 0
  {
    if items != [] {
      NoIdsNothingCompensated(items[1..], idOf, amountOf);
    }
  }

  /** The compensated amount never exceeds the order's total. */
  lemma {:induction false} SelectedTotalBounded<T>(items: seq<T>, idOf: T -> nat, amountOf: T -> nat, ids: seq<nat>)
    ensures SelectedTotal(items, idOf, amountOf, ids) <= Total(items, amountOf)
  {
    if items != [] {
      SelectedTotalBounded(items[1..], idOf, amountOf, ids);
      if idOf(items[0]) in ids {
        assert Selected(items, idOf, ids)[1..] == Selected(items[1..], idOf, ids);
      }
    }
  }

  /** Naming every item compensates the whole order. */
  lemma {:induction false} AllSelectedIsTotal<T>(items: seq<T>, idOf: T -> nat, amountOf: T -> nat, ids: seq<nat>)
    requires forall k :: 0 <= k < |items| ==> idOf(items[k]) in ids
    ensures SelectedTotal(items, idOf, amountOf, ids) == Total(items, amountOf)
  {
    if items != [] {
      AllSelectedIsTotal(items[1..], idOf, amountOf, ids);
      assert Selected(items, idOf, ids)[1..] == Selected(items[1..], idOf, ids);
    }
  }
}
