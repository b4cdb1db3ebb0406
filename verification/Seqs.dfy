/** Mapping, flattening and filtering sequences, and what that does to the multisets of their elements. */
module Seqs {

  function Map<A, B>(items: seq<A>, f: A -> B): seq<B> {
    if items == [] then [] else Map(items[..|items| - 1], f) + [f(items[|items| - 1])]
  }

  function FlatMap<A, B>(items: seq<A>, f: A -> seq<B>): seq<B> {
    if items == [] then [] else FlatMap(items[..|items| - 1], f) + f(items[|items| - 1])
  }

  function Filter<A>(items: seq<A>, keep: A -> bool): seq<A> {
    if items == [] then []
    else Filter(items[..|items| - 1], keep) + if keep(items[|items| - 1]) then [items[|items| - 1]] else []
  }

  ghost predicate Distinct<A>(items: seq<A>) { forall i, j :: 0 <= i < j < |items| ==> items[i] != items[j] }

  predicate Rising(items: seq<int>) { forall i, j :: 0 <= i < j < |items| ==> items[i] < items[j] }

  lemma SplitLast<A>(items: seq<A>)
    requires items != []
    ensures items == items[..|items| - 1] + [items[|items| - 1]]
  {
  }

  lemma FlatMapNext<A, B>(items: seq<A>, f: A -> seq<B>, i: nat)
    requires i < |items|
    ensures FlatMap(items[..i + 1], f) == FlatMap(items[..i], f) + f(items[i])
  {
    assert items[..i + 1][..i] == items[..i];
  }

  lemma MapNext<A, B>(items: seq<A>, f: A -> B, i: nat)
    requires i < |items|
    ensures Map(items[..i + 1], f) == Map(items[..i], f) + [f(items[i])]
  {
    assert items[..i + 1][..i] == items[..i];
  }

  lemma {:induction false} InMap<A, B>(items: seq<A>, f: A -> B, x: B)
    ensures |Map(items, f)| == |items|
    ensures x in Map(items, f) <==> exists y :: y in items && x == f(y)
  {
    if items != [] {
      SplitLast(items);
      InMap(items[..|items| - 1], f, x);
    }
  }

  lemma {:induction false} InFlatMap<A, B>(items: seq<A>, f: A -> seq<B>, x: B)
    ensures x in FlatMap(items, f) <==> exists y :: y in items && x in f(y)
  {
    if items != [] {
      SplitLast(items);
      InFlatMap(items[..|items| - 1], f, x);
    }
  }

  lemma {:induction false} MapAt<A, B>(items: seq<A>, f: A -> B, i: nat)
    requires i < |items|
    ensures |Map(items, f)| == |items| && Map(items, f)[i] == f(items[i])
  {
    var last := |items| - 1;
    if i < last {
      MapAt(items[..last], f, i);
    } else if last > 0 {
      MapAt(items[..last], f, 0);
    }
  }

  lemma MapLength<A, B>(items: seq<A>, f: A -> B)
    ensures |Map(items, f)| == |items|
  {
    if items != [] {
      MapAt(items, f, 0);
    }
  }

  /** When every image has n elements, those of the i-th item stand from position i * n on. */
  lemma {:induction false} FlatMapAt<A, B>(items: seq<A>, f: A -> seq<B>, n: nat, i: nat, j: nat)
    requires forall x :: x in items ==> |f(x)| == n
    requires i < |items| && j < n
    ensures |FlatMap(items, f)| == |items| * n && 0 <= i * n + j < |items| * n
    ensures FlatMap(items, f)[i * n + j] == f(items[i])[j]
  {
    var last := |items| - 1;
    FlatMapLength(items[..last], f, n);
    PositionWithin(i, last, j, n);
    if i < last {
      FlatMapAt(items[..last], f, n, i, j);
    }
  }

  lemma {:induction false} FlatMapLength<A, B>(items: seq<A>, f: A -> seq<B>, n: nat)
    requires forall x :: x in items ==> |f(x)| == n
    ensures |FlatMap(items, f)| == |items| * n
  {
    if items != [] {
      SplitLast(items);
      FlatMapLength(items[..|items| - 1], f, n);
      assert |items| * n == (|items| - 1) * n + n;
    }
  }

  lemma PositionWithin(i: nat, last: nat, j: nat, n: nat)
    requires i <= last && j < n
    ensures 0 <= i * n && (last + 1) * n == last * n + n && i * n + j < last * n + n
    ensures i < last ==> i * n + j < last * n
  {
    assert (last - i) * n >= 0;
    if i < last {
      assert (last - i - 1) * n >= 0;
      assert (last - i) * n == (last - i - 1) * n + n;
    }
    assert last * n == i * n + (last - i) * n;
  }

  lemma {:induction false} InFilter<A>(items: seq<A>, keep: A -> bool, x: A)
    ensures x in Filter(items, keep) <==> x in items && keep(x)
    ensures multiset(Filter(items, keep))[x] == if keep(x) then multiset(items)[x] else 0
  {
    if items != [] {
      SplitLast(items);
      InFilter(items[..|items| - 1], keep, x);
    }
  }

  lemma {:induction false} FilterCount<A>(items: seq<A>, keep: A -> bool, x: A)
    ensures multiset(Filter(items, keep))[x] == if keep(x) then multiset(items)[x] else 0
  {
    if items != [] {
      SplitLast(items);
      FilterCount(items[..|items| - 1], keep, x);
    }
  }

  lemma {:induction false} FilterSimilar<A>(items: seq<A>, f: A -> bool, g: A -> bool)
    requires forall x :: x in items ==> f(x) == g(x)
    ensures Filter(items, f) == Filter(items, g)
  {
    if items != [] {
      SplitLast(items);
      FilterSimilar(items[..|items| - 1], f, g);
    }
  }

  lemma {:induction false} FlatMapConcat<A, B>(a: seq<A>, b: seq<A>, f: A -> seq<B>)
    ensures FlatMap(a + b, f) == FlatMap(a, f) + FlatMap(b, f)
  {
    if b == [] {
      assert a + b == a;
    } else {
      assert (a + b)[..|a + b| - 1] == a + b[..|b| - 1];
      FlatMapConcat(a, b[..|b| - 1], f);
    }
  }

  lemma FlatMapWithout<A, B>(items: seq<A>, i: nat, f: A -> seq<B>)
    requires i < |items|
    ensures
      var rest := items[..i] + items[i + 1..];
      && multiset(items) == multiset(rest) + multiset{items[i]}
      && multiset(FlatMap(items, f)) == multiset(FlatMap(rest, f)) + multiset(f(items[i]))
  {
    var before, after := items[..i], items[i + 1..];
    assert items == before + ([items[i]] + after);
    FlatMapConcat(before, [items[i]] + after, f);
    FlatMapConcat([items[i]], after, f);
    FlatMapConcat(before, after, f);
    FlatMapSingle(items[i], f);
  }

  /** Permuting the items permutes the result. */
  lemma {:induction false} FlatMapPermuted<A, B>(a: seq<A>, b: seq<A>, f: A -> seq<B>)
    requires multiset(a) == multiset(b)
    ensures multiset(FlatMap(a, f)) == multiset(FlatMap(b, f))
  {
    if a == [] {
      assert |b| == |multiset(b)| == 0;
    } else {
      SplitLast(a);
      var last := a[|a| - 1];
      assert last in multiset(b);
      var i :| 0 <= i < |b| && b[i] == last;
      FlatMapWithout(b, i, f);
      assert multiset(a[..|a| - 1]) == multiset(a) - multiset{last} == multiset(b[..i] + b[i + 1..]);
      FlatMapPermuted(a[..|a| - 1], b[..i] + b[i + 1..], f);
    }
  }

  lemma FlatMapSingle<A, B>(x: A, f: A -> seq<B>)
    ensures FlatMap([x], f) == f(x)
  {
  }

  /** Permuting what each item contributes permutes the result. */
  lemma {:induction false} FlatMapSimilar<A, B>(items: seq<A>, f: A -> seq<B>, g: A -> seq<B>)
    requires forall x :: x in items ==> multiset(f(x)) == multiset(g(x))
    ensures multiset(FlatMap(items, f)) == multiset(FlatMap(items, g))
  {
    if items != [] {
      SplitLast(items);
      FlatMapSimilar(items[..|items| - 1], f, g);
    }
  }
}
