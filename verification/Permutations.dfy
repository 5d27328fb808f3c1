/** What comprehensions and folds over rearranged lists have in common. */
module Permutations {
  import opened Collections
  import opened Reals

  /** `xs` without its element at `i`. */
  function Without<T>(xs: seq<T>, i: nat): seq<T>
    requires i < |xs|
  {
    xs[..i] + xs[i + 1..]
  }

  lemma WithoutCount<T>(xs: seq<T>, i: nat)
    requires i < |xs|
    ensures multiset(Without(xs, i)) == multiset(xs) - multiset{xs[i]}
  {
    assert xs == xs[..i] + [xs[i]] + xs[i + 1..];
  }

  /** A rearrangement of a non-empty list contains its last element; dropping both leaves rearrangements. */
  lemma DropMatching<T>(xs: seq<T>, ys: seq<T>) returns (i: nat)
    requires multiset(xs) == multiset(ys) && xs != []
    ensures i < |ys| && ys[i] == xs[|xs| - 1]
    ensures multiset(xs[..|xs| - 1]) == multiset(Without(ys, i))
  {
    var last := xs[|xs| - 1];
    assert xs == xs[..|xs| - 1] + [last];
    assert last in multiset(ys);
    i :| 0 <= i < |ys| && ys[i] == last;
    WithoutCount(ys, i);
  }

  lemma SameSize<T>(xs: seq<T>, ys: seq<T>)
    requires multiset(xs) == multiset(ys)
    ensures |xs| == |ys| && Elements(xs) == Elements(ys)
    ensures forall x :: x in xs <==> x in ys
  {
    assert |multiset(xs)| == |xs| && |multiset(ys)| == |ys|;
    forall x ensures x in xs <==> x in ys {
      assert x in xs <==> x in multiset(xs);
      assert x in ys <==> x in multiset(ys);
    }
  }

  lemma MapAt<T, U>(f: T -> U, xs: seq<T>, i: nat)
    requires i < |xs|
    ensures multiset(Map(f, xs)) == multiset(Map(f, Without(xs, i))) + multiset{f(xs[i])}
  {
    hide Without;
    MapWithout(f, xs, i);
    RestoreAt(Map(f, xs), i);
  }

  lemma MapWithout<T, U>(f: T -> U, xs: seq<T>, i: nat)
    requires i < |xs|
    ensures Map(f, Without(xs, i)) == Without(Map(f, xs), i)
  {
    hide Map;
    var a, b := Map(f, Without(xs, i)), Without(Map(f, xs), i);
    assert |a| == |b|;
    forall k | 0 <= k < |a| ensures a[k] == b[k] {
    }
  }

  lemma RestoreAt<T>(ys: seq<T>, i: nat)
    requires i < |ys|
    ensures multiset(ys) == multiset(Without(ys, i)) + multiset{ys[i]}
  {
    WithoutCount(ys, i);
    assert ys[i] in multiset(ys);
  }

  lemma {:induction false} MapPermuted<T, U>(f: T -> U, xs: seq<T>, ys: seq<T>)
    requires multiset(xs) == multiset(ys)
    ensures multiset(Map(f, xs)) == multiset(Map(f, ys))
  {
    SameSize(xs, ys);
    if xs != [] {
      var i := DropMatching(xs, ys);
      MapPermuted(f, xs[..|xs| - 1], Without(ys, i));
      MapAt(f, ys, i);
      MapAt(f, xs, |xs| - 1);
      assert Without(xs, |xs| - 1) == xs[..|xs| - 1];
    }
  }

  lemma {:induction false} FilterCount<T(!new)>(p: T -> bool, xs: seq<T>, x: T)
    ensures multiset(Filter(p, xs))[x] == if p(x) then multiset(xs)[x] else 0
  {
    if xs != [] {
      var n := |xs| - 1;
      FilterCount(p, xs[..n], x);
      assert xs == xs[..n] + [xs[n]];
    }
  }

  lemma FilterPermuted<T(!new)>(p: T -> bool, xs: seq<T>, ys: seq<T>)
    requires multiset(xs) == multiset(ys)
    ensures multiset(Filter(p, xs)) == multiset(Filter(p, ys)) && |Filter(p, xs)| == |Filter(p, ys)|
  {
    forall x ensures multiset(Filter(p, xs))[x] == multiset(Filter(p, ys))[x] {
      FilterCount(p, xs, x);
      FilterCount(p, ys, x);
    }
    SameSize(Filter(p, xs), Filter(p, ys));
  }

  function Sum(xs: seq<int>): int {
    if xs == [] then 0 else Sum(xs[..|xs| - 1]) + xs[|xs| - 1]
  }

  lemma {:induction false} SumAt(xs: seq<int>, i: nat)
    requires i < |xs|
    ensures Sum(xs) == Sum(Without(xs, i)) + xs[i]
  {
    var n := |xs| - 1;
    if i == n {
      assert Without(xs, i) == xs[..n];
    } else {
      SumAt(xs[..n], i);
      assert Without(xs, i)[..n - 1] == Without(xs[..n], i);
      assert Without(xs, i)[n - 1] == xs[n];
    }
  }

  lemma {:induction false} SumPermuted(xs: seq<int>, ys: seq<int>)
    requires multiset(xs) == multiset(ys)
    ensures Sum(xs) == Sum(ys)
  {
    SameSize(xs, ys);
    if xs != [] {
      var i := DropMatching(xs, ys);
      SumPermuted(xs[..|xs| - 1], Without(ys, i));
      SumAt(ys, i);
    }
  }

  lemma {:induction false} SumRealsAt(xs: seq<real>, i: nat)
    requires i < |xs|
    ensures SumReals(xs) == SumReals(Without(xs, i)) + xs[i]
  {
    var n := |xs| - 1;
    if i == n {
      assert Without(xs, i) == xs[..n];
    } else {
      SumRealsAt(xs[..n], i);
      assert Without(xs, i)[..n - 1] == Without(xs[..n], i);
      assert Without(xs, i)[n - 1] == xs[n];
    }
  }

  lemma {:induction false} SumRealsPermuted(xs: seq<real>, ys: seq<real>)
    requires multiset(xs) == multiset(ys)
    ensures SumReals(xs) == SumReals(ys)
  {
    SameSize(xs, ys);
    if xs != [] {
      var i := DropMatching(xs, ys);
      SumRealsPermuted(xs[..|xs| - 1], Without(ys, i));
      SumRealsAt(ys, i);
    }
  }

  /** Splitting a list by a test rearranges it. */
  lemma SplitPermutes<T(!new)>(p: T -> bool, q: T -> bool, xs: seq<T>)
    requires forall x :: q(x) == !p(x)
    ensures multiset(Filter(p, xs) + Filter(q, xs)) == multiset(xs)
  {
    forall x ensures multiset(Filter(p, xs) + Filter(q, xs))[x] == multiset(xs)[x] {
      FilterCount(p, xs, x);
      FilterCount(q, xs, x);
    }
  }

  lemma FilterStep<T(!new)>(p: T -> bool, xs: seq<T>, x: T)
    ensures Filter(p, xs + [x]) == Filter(p, xs) + (if p(x) then [x] else [])
  {
    assert (xs + [x])[..|xs|] == xs;
  }

  lemma {:induction false} FilterAppend<T(!new)>(p: T -> bool, xs: seq<T>, ys: seq<T>)
    ensures Filter(p, xs + ys) == Filter(p, xs) + Filter(p, ys)
  {
    hide Filter;
    if ys == [] {
      assert xs + ys == xs;
      FilterNone(p, ys);
    } else {
      var n := |ys| - 1;
      FilterAppend(p, xs, ys[..n]);
      FilterStep(p, xs + ys[..n], ys[n]);
      FilterStep(p, ys[..n], ys[n]);
      assert xs + ys == xs + ys[..n] + [ys[n]] && ys == ys[..n] + [ys[n]];
    }
  }
}
