/** The in-place sort that the nested lists of orders and order items run
    before pagination (`Vec::sort_by` with a comparator on `_id`). */
module Sorting {
  import opened OrderDatatypes

  /** Position of a key in the requested direction: ascending keys for
      `Asc`, descending keys for `Desc`. */
  function Rank(k: nat, dir: OrderDirection): int
  {
    if dir == Asc then k as int else -(k as int)
  }

  /** `s` is ordered by `key` in direction `dir`. */
  predicate SortedBy<T>(s: seq<T>, key: T -> nat, dir: OrderDirection)
  {
    forall i, j :: 0 <= i < j < |s| ==> Rank(key(s[i]), dir) <= Rank(key(s[j]), dir)
  }

  /** No two elements of `s` share a key. */
  predicate DistinctKeys<T>(s: seq<T>, key: T -> nat)
  {
    forall i, j :: 0 <= i < j < |s| ==> key(s[i]) != key(s[j])
  }

  /** The first `n` elements of `a` are ordered by `key` in direction `dir`. */
  predicate SortedPrefix<T>(a: array<T>, n: int, key: T -> nat, dir: OrderDirection)
    reads a
    requires n <= a.Length
  {
    forall p, q :: 0 <= p < q < n ==> Rank(key(a[p]), dir) <= Rank(key(a[q]), dir)
  }

  /** Sorts `a` in place by `key` in direction `dir`; the result is a
      permutation of the input. */
  method SortByKey<T>(a: array<T>, key: T -> nat, dir: OrderDirection)
    modifies a
    ensures SortedBy(a[..], key, dir)
    ensures multiset(a[..]) == multiset(old(a[..]))
  {
    var i := 0;
    while i < a.Length
      invariant 0 <= i <= a.Length
      invariant SortedPrefix(a, i, key, dir)
      invariant multiset(a[..]) == multiset(old(a[..]))
    {
      InsertIntoPrefix(a, i, key, dir);
      i := i + 1;
    }
  }

  /** One insertion step: moves `a[i]` left into the sorted prefix before it. */
  method InsertIntoPrefix<T>(a: array<T>, i: int, key: T -> nat, dir: OrderDirection)
    requires 0 <= i < a.Length
    requires SortedPrefix(a, i, key, dir)
    modifies a
    ensures SortedPrefix(a, i + 1, key, dir)
    ensures multiset(a[..]) == multiset(old(a[..]))
  {
    var j := i;
    while j > 0 && Rank(key(a[j - 1]), dir) > Rank(key(a[j]), dir)
      invariant 0 <= j <= i
      invariant forall p, q :: 0 <= p < q <= i && q != j ==> Rank(key(a[p]), dir) <= Rank(key(a[q]), dir)
      invariant multiset(a[..]) == multiset(old(a[..]))
    {
      Swap(a, j - 1, j);
      j := j - 1;
    }
  }

  /** Exchanges two elements and leaves the others in place. */
  method Swap<T>(a: array<T>, i: int, j: int)
    requires 0 <= i < a.Length && 0 <= j < a.Length
    modifies a
    ensures a[i] == old(a[j]) && a[j] == old(a[i])
    ensures forall k :: 0 <= k < a.Length && k != i && k != j ==> a[k] == old(a[k])
    ensures multiset(a[..]) == multiset(old(a[..]))
  {
    a[i], a[j] := a[j], a[i];
  }

  /** With distinct keys a sorted permutation is unique: whichever sort
      produced it, the sorted list is fully determined by its contents. */
  lemma {:induction false} SortedPermutationUnique<T>(s: seq<T>, t: seq<T>, key: T -> nat, dir: OrderDirection)
    requires SortedBy(s, key, dir) && SortedBy(t, key, dir)
    requires multiset(s) == multiset(t)
    requires DistinctKeys(s, key)
    ensures s == t
  {
    if |s| == 0 {
      assert |t| == |multiset(t)| == 0;
    } else {
      assert s[0] in multiset(t);
      SortedHeadsAgree(s, t, key, dir);
      TailMultisets(s, t);
      SortedPermutationUnique(s[1..], t[1..], key, dir);
      assert s == [s[0]] + s[1..] && t == [t[0]] + t[1..];
    }
  }

  lemma SortedHeadsAgree<T>(s: seq<T>, t: seq<T>, key: T -> nat, dir: OrderDirection)
    requires SortedBy(s, key, dir) && SortedBy(t, key, dir)
    requires multiset(s) == multiset(t) && |s| > 0
    requires DistinctKeys(s, key)
    ensures |t| > 0 && s[0] == t[0]
  {
    assert s[0] in multiset(t);
    assert t[0] in multiset(s);
    var k :| 0 <= k < |t| && t[k] == s[0];
    var m :| 0 <= m < |s| && s[m] == t[0];
    assert Rank(key(s[0]), dir) <= Rank(key(s[m]), dir);
    assert Rank(key(t[0]), dir) <= Rank(key(t[k]), dir);
  }

  lemma TailMultisets<T>(s: seq<T>, t: seq<T>)
    requires |s| > 0 && |t| > 0 && s[0] == t[0]
    requires multiset(s) == multiset(t)
    ensures multiset(s[1..]) == multiset(t[1..])
  {
    assert s == [s[0]] + s[1..];
    assert t == [t[0]] + t[1..];
    assert multiset(s) == multiset{s[0]} + multiset(s[1..]);
    assert multiset(t) == multiset{s[0]} + multiset(t[1..]);
    forall x ensures multiset(s[1..])[x] == multiset(t[1..])[x] {
      assert multiset(s)[x] == multiset{s[0]}[x] + multiset(s[1..])[x];
      assert multiset(t)[x] == multiset{s[0]}[x] + multiset(t[1..])[x];
    }
  }

  /** Keys strictly increase along `s`: the iteration order of a `BTreeSet`
      ordered by that key. */
  predicate StrictlyAscending<T>(s: seq<T>, key: T -> nat)
  {
    forall i, j :: 0 <= i < j < |s| ==> key(s[i]) < key(s[j])
  }

  function Reverse<T>(s: seq<T>): (r: seq<T>)
    ensures |r| == |s|
    ensures forall k :: 0 <= k < |s| ==> r[k] == s[|s| - 1 - k]
  {
    if s == [] then [] else Reverse(s[1..]) + [s[0]]
  }

  lemma {:induction false} ReversePermutation<T>(s: seq<T>)
    ensures multiset(Reverse(s)) == multiset(s)
  {
    if s != [] {
      ReversePermutation(s[1..]);
      assert s == [s[0]] + s[1..];
    }
  }

  /** What sorting a strictly ascending list yields: the list itself for
      `Asc`, its reversal for `Desc`. */
  function SortedView<T>(s: seq<T>, key: T -> nat, dir: OrderDirection): (r: seq<T>)
    requires StrictlyAscending(s, key)
    ensures SortedBy(r, key, dir) && DistinctKeys(r, key)
    ensures multiset(r) == multiset(s)
  {
    ReversePermutation(s);
    if dir == Asc then s else Reverse(s)
  }

  /** Every sort of a strictly ascending list, in either direction, yields
      its sorted view. */
  lemma SortOfAscending<T>(s: seq<T>, t: seq<T>, key: T -> nat, dir: OrderDirection)
    requires StrictlyAscending(s, key)
    requires SortedBy(t, key, dir) && multiset(t) == multiset(s)
    ensures t == SortedView(s, key, dir)
  {
    SortedPermutationUnique(SortedView(s, key, dir), t, key, dir);
  }

  /** Distinct keys are a property of the contents, not of their order. */
  lemma DistinctKeysPermutation<T>(s: seq<T>, t: seq<T>, key: T -> nat)
    requires DistinctKeys(s, key) && multiset(s) == multiset(t)
    ensures DistinctKeys(t, key)
  {
    forall i, j | 0 <= i < j < |t|
      ensures key(t[i]) != key(t[j])
    {
      assert t[i] in multiset(s) && t[j] in multiset(s);
      var p :| 0 <= p < |s| && s[p] == t[i];
      var q :| 0 <= q < |s| && s[q] == t[j];
      if p == q {
        SingleOccurrence(s, p, key);
        TwoOccurrences(t, i, j);
        assert false;
      }
    }
  }

  lemma TwoOccurrences<T>(t: seq<T>, i: nat, j: nat)
    requires i < j < |t| && t[i] == t[j]
    ensures multiset(t)[t[i]] >= 2
  {
    assert t == t[..i] + [t[i]] + t[i+1..j] + [t[j]] + t[j+1..];
  }

  /** With distinct keys every element occurs once. */
  lemma SingleOccurrence<T>(s: seq<T>, p: nat, key: T -> nat)
    requires DistinctKeys(s, key) && p < |s|
    ensures multiset(s)[s[p]] == 1
  {
    assert s == s[..p] + [s[p]] + s[p+1..];
    assert s[p] !in s[..p] && s[p] !in s[p+1..] by {
      forall k | 0 <= k < |s| && k != p ensures s[k] != s[p] {
        if k < p { assert key(s[k]) != key(s[p]); } else { assert key(s[p]) != key(s[k]); }
      }
    }
    assert multiset(s[..p])[s[p]] == 0 && multiset(s[p+1..])[s[p]] == 0;
  }
}
