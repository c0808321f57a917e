/** Skip/take pagination of a nested list, shared by `Order::order_items`
    and `OrderItem::discounts` of both generations. */
module Pagination {
  import opened Wrappers

  /** The connection record every nested list returns: one page of nodes,
      whether more nodes follow, and the size of the whole list. */
  datatype Connection<T> = Connection(nodes: seq<T>, hasNextPage: bool, totalCount: nat)

  function Min(a: nat, b: nat): nat { if a <= b then a else b }

  /** `Iterator::skip(n)`: drops up to `n` leading elements. */
  function Skip<T>(s: seq<T>, n: nat): (r: seq<T>)
    ensures |r| == if n <= |s| then |s| - n else 0
    ensures forall k :: 0 <= k < |r| ==> r[k] == s[n + k]
  {
    if n <= |s| then s[n..] else []
  }

  /** `Iterator::take(n)`: keeps up to `n` leading elements; `None` stands
      for `usize::MAX`, i.e. no bound. */
  function Take<T>(s: seq<T>, n: Option<nat>): (r: seq<T>)
    ensures n.None? ==> r == s
    ensures n.Some? ==> |r| == Min(n.value, |s|)
    ensures forall k :: 0 <= k < |r| ==> r[k] == s[k]
  {
    match n
    case None => s
    case Some(m) => if m <= |s| then s[..m] else s
  }

  /** Pagination of an already sorted list: skip defaults to 0, first to
      unbounded, and a next page exists when the page together with the
      skipped prefix does not reach the end of the list. */
  function Paginate<T>(items: seq<T>, first: Option<nat>, skip: Option<nat>): (c: Connection<T>)
    ensures c.totalCount == |items|
    ensures var s := skip.GetOr(0);
      var rest := if s <= |items| then |items| - s else 0;
      |c.nodes| == (if first.Some? then Min(first.value, rest) else rest)
    ensures forall k :: 0 <= k < |c.nodes| ==> c.nodes[k] == items[skip.GetOr(0) + k]
    ensures c.hasNextPage <==> skip.GetOr(0) + |c.nodes| < |items|
  {
    var definitelySkip := skip.GetOr(0);
    var part := Take(Skip(items, definitelySkip), first);
    Connection(part, |items| > |part| + definitelySkip, |items|)
  }

  /** Without `first` and `skip` the whole list is one page and no page follows. */
  lemma WholeListPage<T>(items: seq<T>)
    ensures Paginate(items, None, None).nodes == items
    ensures !Paginate(items, None, None).hasNextPage
  {
  }

  /** The page is a contiguous slice of the list. */
  lemma {:induction false} PageIsSlice<T>(items: seq<T>, first: Option<nat>, skip: Option<nat>)
    ensures var c := Paginate(items, first, skip);
      skip.GetOr(0) + |c.nodes| <= |items| || c.nodes == []
    ensures var c := Paginate(items, first, skip);
      c.nodes != [] ==> c.nodes == items[skip.GetOr(0)..skip.GetOr(0) + |c.nodes|]
  {
    var c := Paginate(items, first, skip);
    var s := skip.GetOr(0);
    if c.nodes != [] {
      assert s + |c.nodes| <= |items|;
      assert c.nodes == items[s..s + |c.nodes|];
    }
  }

  /** Two consecutive pages of sizes `f1` and `f2` together form the page
      of size `f1 + f2`: paging through a list neither skips nor repeats. */
  lemma {:induction false} ConsecutivePagesTile<T>(items: seq<T>, s: nat, f1: nat, f2: nat)
    ensures Paginate(items, Some(f1), Some(s)).nodes + Paginate(items, Some(f2), Some(s + f1)).nodes
         == Paginate(items, Some(f1 + f2), Some(s)).nodes
  {
    var p1 := Paginate(items, Some(f1), Some(s)).nodes;
    var p2 := Paginate(items, Some(f2), Some(s + f1)).nodes;
    var p := Paginate(items, Some(f1 + f2), Some(s)).nodes;
    assert |p1 + p2| == |p|;
    forall k | 0 <= k < |p|
      ensures (p1 + p2)[k] == p[k]
    {
      if k < |p1| {
        assert (p1 + p2)[k] == items[s + k];
      } else {
        assert (p1 + p2)[k] == p2[k - |p1|] == items[s + f1 + (k - |p1|)];
      }
    }
  }

  /** `hasNextPage` holds exactly when the page after this one is non-empty. */
  lemma {:induction false} HasNextPageIffNextNonEmpty<T>(items: seq<T>, first: Option<nat>, skip: Option<nat>)
    ensures var c := Paginate(items, first, skip);
      c.hasNextPage <==> Paginate(items, None, Some(skip.GetOr(0) + |c.nodes|)).nodes != []
  {
    var c := Paginate(items, first, skip);
    var next := Paginate(items, None, Some(skip.GetOr(0) + |c.nodes|));
    if c.hasNextPage {
      assert |next.nodes| > 0;
    }
  }

  /** `totalCount` does not depend on the paging arguments. */
  lemma TotalCountIndependent<T>(items: seq<T>, f1: Option<nat>, s1: Option<nat>, f2: Option<nat>, s2: Option<nat>)
    ensures Paginate(items, f1, s1).totalCount == Paginate(items, f2, s2).totalCount
  {
  }
}
