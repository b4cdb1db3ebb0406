/** The library's stable sort in place, for an order given as a function. */
module Sorting {
  import Seqs

  ghost predicate TotalPreorder<T(!new)>(leq: (T, T) -> bool) {
    && (forall x, y :: leq(x, y) || leq(y, x))
    && (forall x, y, z :: leq(x, y) && leq(y, z) ==> leq(x, z))
  }

  predicate InOrder<T>(items: seq<T>, leq: (T, T) -> bool) {
    forall i, j :: 0 <= i < j < |items| ==> leq(items[i], items[j])
  }

  function Inserted<T>(sorted: seq<T>, x: T, leq: (T, T) -> bool): (result: seq<T>)
    ensures |result| == |sorted| + 1
  {
    if sorted == [] || leq(sorted[|sorted| - 1], x) then sorted + [x]
    else Inserted(sorted[..|sorted| - 1], x, leq) + [sorted[|sorted| - 1]]
  }

  function Sorted<T>(items: seq<T>, leq: (T, T) -> bool): (result: seq<T>)
    ensures |result| == |items|
  {
    if items == [] then [] else Inserted(Sorted(items[..|items| - 1], leq), items[|items| - 1], leq)
  }

  lemma {:induction false} InsertedElements<T>(sorted: seq<T>, x: T, leq: (T, T) -> bool)
    ensures multiset(Inserted(sorted, x, leq)) == multiset(sorted) + multiset{x}
  {
    if sorted != [] {
      Seqs.SplitLast(sorted);
      InsertedElements(sorted[..|sorted| - 1], x, leq);
    }
  }

  lemma {:induction false} InsertedInOrder<T(!new)>(sorted: seq<T>, x: T, leq: (T, T) -> bool)
    requires TotalPreorder(leq) && InOrder(sorted, leq)
    ensures InOrder(Inserted(sorted, x, leq), leq)
    ensures forall k :: 0 <= k <= |sorted| ==> Inserted(sorted, x, leq)[k] == x || Inserted(sorted, x, leq)[k] in sorted
  {
    if sorted != [] {
      InsertedInOrder(sorted[..|sorted| - 1], x, leq);
    }
  }

  /** The result is in order, and it is a permutation. */
  lemma {:induction false} SortedPermutes<T(!new)>(items: seq<T>, leq: (T, T) -> bool)
    requires TotalPreorder(leq)
    ensures InOrder(Sorted(items, leq), leq) && multiset(Sorted(items, leq)) == multiset(items)
  {
    if items != [] {
      var front, last := items[..|items| - 1], items[|items| - 1];
      SortedPermutes(front, leq);
      InsertedElements(Sorted(front, leq), last, leq);
      InsertedInOrder(Sorted(front, leq), last, leq);
      Seqs.SplitLast(items);
    }
  }

  /** All that satisfy `keep` are equivalent. */
  ghost predicate Tied<T(!new)>(leq: (T, T) -> bool, keep: T -> bool) {
    forall x, y :: keep(x) && keep(y) ==> leq(x, y)
  }

  lemma {:induction false} InsertedStable<T(!new)>(sorted: seq<T>, x: T, leq: (T, T) -> bool, keep: T -> bool)
    requires Tied(leq, keep)
    ensures Seqs.Filter(Inserted(sorted, x, leq), keep) == Seqs.Filter(sorted, keep) + if keep(x) then [x] else []
  {
    if sorted == [] || leq(sorted[|sorted| - 1], x) {
      assert (sorted + [x])[..|sorted|] == sorted;
    } else {
      var front, last := sorted[..|sorted| - 1], sorted[|sorted| - 1];
      InsertedStable(front, x, leq, keep);
      assert (Inserted(front, x, leq) + [last])[..|sorted|] == Inserted(front, x, leq);
    }
  }

  /** Equivalent elements keep their order. */
  lemma {:induction false} SortedStable<T(!new)>(items: seq<T>, leq: (T, T) -> bool, keep: T -> bool)
    requires Tied(leq, keep)
    ensures Seqs.Filter(Sorted(items, leq), keep) == Seqs.Filter(items, keep)
  {
    if items != [] {
      SortedStable(items[..|items| - 1], leq, keep);
      InsertedStable(Sorted(items[..|items| - 1], leq), items[|items| - 1], leq, keep);
    }
  }

  lemma SortedNext<T>(items: seq<T>, n: nat, leq: (T, T) -> bool)
    requires n < |items|
    ensures Sorted(items[..n + 1], leq) == Inserted(Sorted(items[..n], leq), items[n], leq)
  {
    assert items[..n + 1][..n] == items[..n];
  }

  lemma InsertedBefore<T>(sorted: seq<T>, x: T, k: nat, leq: (T, T) -> bool)
    requires 0 < k <= |sorted| && !leq(sorted[k - 1], x)
    ensures Inserted(sorted[..k], x, leq) + sorted[k..] == Inserted(sorted[..k - 1], x, leq) + sorted[k - 1..]
  {
    assert sorted[..k][..k - 1] == sorted[..k - 1];
    assert sorted[k - 1..] == [sorted[k - 1]] + sorted[k..];
  }

  lemma InsertedHere<T>(sorted: seq<T>, x: T, k: nat, leq: (T, T) -> bool)
    requires k <= |sorted| && (k > 0 ==> leq(sorted[k - 1], x))
    ensures Inserted(sorted[..k], x, leq) == sorted[..k] + [x]
  {
  }

  /** What is left to do when x has moved down to k. */
  ghost predicate Moving<T>(sorted: seq<T>, x: T, k: nat, leq: (T, T) -> bool) {
    k <= |sorted| && Inserted(sorted, x, leq) == Inserted(sorted[..k], x, leq) + sorted[k..]
  }

  lemma MovingStarts<T>(sorted: seq<T>, x: T, leq: (T, T) -> bool)
    ensures Moving(sorted, x, |sorted|, leq)
  {
    assert sorted[..|sorted|] == sorted && sorted[|sorted|..] == [];
  }

  lemma MovingOn<T>(sorted: seq<T>, x: T, k: nat, leq: (T, T) -> bool)
    requires 0 < k <= |sorted| && Moving(sorted, x, k, leq) && !leq(sorted[k - 1], x)
    ensures Moving(sorted, x, k - 1, leq)
  {
    InsertedBefore(sorted, x, k, leq);
  }

  lemma Assembled<T>(sorted: seq<T>, x: T, k: nat, result: seq<T>)
    requires k <= |sorted| && |result| == |sorted| + 1 && result[k] == x
    requires forall j :: 0 <= j < k ==> result[j] == sorted[j]
    requires forall j :: k < j < |result| ==> result[j] == sorted[j - 1]
    ensures result == sorted[..k] + [x] + sorted[k..]
  {
    var parts := sorted[..k] + [x] + sorted[k..];
    forall j | 0 <= j < |result|
      ensures result[j] == parts[j]
    {
      if j > k {
        assert parts[j] == sorted[k..][j - k - 1];
      }
    }
  }

  lemma Moved<T>(sorted: seq<T>, x: T, k: nat, leq: (T, T) -> bool, result: seq<T>)
    requires Moving(sorted, x, k, leq) && (k > 0 ==> leq(sorted[k - 1], x))
    requires |result| == |sorted| + 1 && result[k] == x
    requires forall j :: 0 <= j < k ==> result[j] == sorted[j]
    requires forall j :: k < j < |result| ==> result[j] == sorted[j - 1]
    ensures result == Inserted(sorted, x, leq)
  {
    hide Inserted;
    InsertedHere(sorted, x, k, leq);
    Assembled(sorted, x, k, result);
  }

  /** Moves the n-th element to its place among those before it, which are sorted. */
  method Insert<T>(items: array<T>, n: nat, leq: (T, T) -> bool)
    requires n < items.Length
    modifies items
    ensures items[..n + 1] == Inserted(old(items[..n]), old(items[n]), leq)
    ensures forall k :: n < k < items.Length ==> items[k] == old(items[k])
  {
    hide Inserted, Moving;
    var x, k := items[n], n;
    ghost var before := items[..n];
    MovingStarts(before, x, leq);
    while k > 0 && !leq(items[k - 1], x)
      invariant k <= n && Moving(before, x, k, leq)
      invariant forall j :: 0 <= j < k ==> items[j] == before[j]
      invariant forall j :: k < j <= n ==> items[j] == before[j - 1]
      invariant forall j :: n < j < items.Length ==> items[j] == old(items[j])
    {
      MovingOn(before, x, k, leq);
      items[k] := items[k - 1];
      k := k - 1;
    }
    items[k] := x;
    Moved(before, x, k, leq, items[..n + 1]);
  }

  /** Sorts in place. */
  method Sort<T>(items: array<T>, leq: (T, T) -> bool)
    modifies items
    ensures items[..] == Sorted(old(items[..]), leq)
  {
    hide Inserted, Sorted;
    ghost var all := items[..];
    assert Sorted(all[..0], leq) == [];
    for n := 0 to items.Length
      invariant items[..n] == Sorted(all[..n], leq)
      invariant forall k :: n <= k < items.Length ==> items[k] == all[k]
    {
      SortedNext(all, n, leq);
      Insert(items, n, leq);
    }
    assert all[..items.Length] == all;
    assert items[..items.Length] == items[..];
  }
}
