/** Sequence helpers and result types shared by every module. */
module Collections {

  datatype Option<+T> = None | Some(value: T)

  datatype Result<+T, +E> = Ok(value: T) | Err(error: E)

  predicate Distinct<T(==)>(s: seq<T>) {
    forall i, j :: 0 <= i < j < |s| ==> s[i] != s[j]
  }

  function Elements<T>(s: seq<T>): set<T> {
    set x | x in s
  }

  /** Comparing a list's length with that of its set detects exactly the repetitions. */
  lemma {:induction false} DistinctIffSetSize<T>(s: seq<T>)
    ensures |Elements(s)| <= |s|
    ensures Distinct(s) <==> |Elements(s)| == |s|
  {
    if s == [] {
    } else {
      var n := |s| - 1;
      var front := s[..n];
      DistinctIffSetSize(front);
      assert s == front + [s[n]];
      assert Elements(s) == Elements(front) + {s[n]};
      if s[n] in front {
        var i :| 0 <= i < n && front[i] == s[n];
        assert Elements(s) == Elements(front);
        assert s[i] == s[n];
      } else {
        if Distinct(front) {
          forall i, j | 0 <= i < j < |s| ensures s[i] != s[j] {
            if j == n { assert front[i] in front; } else { assert front[i] != front[j]; }
          }
        } else {
          var i, j :| 0 <= i < j < n && front[i] == front[j];
          assert s[i] == s[j];
        }
      }
    }
  }

  lemma DistinctParts<T>(a: seq<T>, b: seq<T>)
    ensures Distinct(a + b) <==> Distinct(a) && Distinct(b) && Elements(a) !! Elements(b)
  {
    var s := a + b;
    if Distinct(s) {
      forall i, j | 0 <= i < j < |a| ensures a[i] != a[j] { assert s[i] != s[j]; }
      forall i, j | 0 <= i < j < |b| ensures b[i] != b[j] { assert s[|a| + i] != s[|a| + j]; }
      forall i, j | 0 <= i < |a| && 0 <= j < |b| ensures a[i] != b[j] { assert s[i] != s[|a| + j]; }
    }
    if Distinct(a) && Distinct(b) && Elements(a) !! Elements(b) {
      forall i, j | 0 <= i < j < |s| ensures s[i] != s[j] {
        if i < |a| <= j {
          assert a[i] in Elements(a) && b[j - |a|] in Elements(b);
        }
      }
    }
  }

  lemma AppendDistinct<T>(a: seq<T>, b: seq<T>)
    requires Distinct(a) && Distinct(b) && Elements(a) !! Elements(b)
    ensures Distinct(a + b) && Elements(a + b) == Elements(a) + Elements(b)
  {
    DistinctParts(a, b);
  }

  lemma DistinctWithOneMore<T>(a: seq<T>, x: T)
    requires Distinct(a) && x !in a
    ensures Distinct(a + [x]) && Elements(a + [x]) == Elements(a) + {x}
  {
  }

  lemma AppendCount<T>(s: seq<T>, n: T, m: T)
    ensures multiset(s + [n])[m] == multiset(s)[m] + (if m == n then 1 else 0)
  {
  }

  /** A comprehension `[f(x) for x in xs]`. */
  function Map<T, U>(f: T -> U, xs: seq<T>): (r: seq<U>)
    ensures |r| == |xs| && forall i :: 0 <= i < |xs| ==> r[i] == f(xs[i])
  {
    if xs == [] then [] else Map(f, xs[..|xs| - 1]) + [f(xs[|xs| - 1])]
  }

  /** A comprehension `[x for x in xs if p(x)]`. */
  function Filter<T(!new)>(p: T -> bool, xs: seq<T>): (r: seq<T>)
    ensures |r| <= |xs|
    ensures forall x :: x in r <==> x in xs && p(x)
  {
    if xs == [] then []
    else
      var last := xs[|xs| - 1];
      assert xs == xs[..|xs| - 1] + [last];
      Filter(p, xs[..|xs| - 1]) + (if p(last) then [last] else [])
  }

  /** The issues found by running `f` on each element in turn. */
  function FlatMap<T, U>(f: T -> seq<U>, xs: seq<T>): seq<U> {
    if xs == [] then [] else FlatMap(f, xs[..|xs| - 1]) + f(xs[|xs| - 1])
  }

  lemma FlatMapStep<T, U>(f: T -> seq<U>, xs: seq<T>, i: nat)
    requires i < |xs|
    ensures FlatMap(f, xs[..i + 1]) == FlatMap(f, xs[..i]) + f(xs[i])
  {
    assert xs[..i + 1][..i] == xs[..i];
  }

  lemma FlatMapNone<T, U>(f: T -> seq<U>, xs: seq<T>)
    ensures FlatMap(f, xs[..0]) == []
  {
  }

  lemma {:induction false} FlatMapEmpty<T, U>(f: T -> seq<U>, xs: seq<T>)
    ensures FlatMap(f, xs) == [] <==> forall x :: x in xs ==> f(x) == []
  {
    if xs == [] {
    } else {
      var last := xs[|xs| - 1];
      FlatMapEmpty(f, xs[..|xs| - 1]);
      assert xs == xs[..|xs| - 1] + [last];
      assert |FlatMap(f, xs)| == |FlatMap(f, xs[..|xs| - 1])| + |f(last)|;
      assert FlatMap(f, xs) == [] <==> FlatMap(f, xs[..|xs| - 1]) == [] && f(last) == [];
    }
  }

  lemma {:induction false} FlatMapIn<T, U>(f: T -> seq<U>, xs: seq<T>, y: U)
    ensures y in FlatMap(f, xs) <==> exists x :: x in xs && y in f(x)
  {
    if xs == [] {
    } else {
      var last := xs[|xs| - 1];
      FlatMapIn(f, xs[..|xs| - 1], y);
      assert xs == xs[..|xs| - 1] + [last];
    }
  }

  lemma {:induction false} FilterAll<T(!new)>(p: T -> bool, xs: seq<T>)
    requires forall x :: x in xs ==> p(x)
    ensures Filter(p, xs) == xs
  {
    if xs != [] {
      FilterAll(p, xs[..|xs| - 1]);
      assert xs == xs[..|xs| - 1] + [xs[|xs| - 1]];
    }
  }

  lemma {:induction false} FilterNone<T(!new)>(p: T -> bool, xs: seq<T>)
    requires forall x :: x in xs ==> !p(x)
    ensures Filter(p, xs) == []
  {
    if xs != [] {
      FilterNone(p, xs[..|xs| - 1]);
      assert xs[|xs| - 1] in xs;
    }
  }

  lemma {:induction false} FilterFull<T(!new)>(p: T -> bool, xs: seq<T>)
    requires |Filter(p, xs)| == |xs|
    ensures forall x :: x in xs ==> p(x)
  {
    if xs != [] {
      var n := |xs| - 1;
      assert xs == xs[..n] + [xs[n]];
      FilterFull(p, xs[..n]);
    }
  }

  lemma {:induction false} FilterAgrees<T(!new)>(p: T -> bool, q: T -> bool, xs: seq<T>)
    requires forall x :: x in xs ==> p(x) == q(x)
    ensures Filter(p, xs) == Filter(q, xs)
  {
    if xs != [] {
      FilterAgrees(p, q, xs[..|xs| - 1]);
      assert xs[|xs| - 1] in xs;
    }
  }

  lemma {:induction false} FilterDistinct<T(!new)>(p: T -> bool, xs: seq<T>)
    requires Distinct(xs)
    ensures Distinct(Filter(p, xs))
  {
    if xs != [] {
      var n := |xs| - 1;
      FilterDistinct(p, xs[..n]);
      assert forall x :: x in xs[..n] ==> x != xs[n];
      DistinctParts(Filter(p, xs[..n]), if p(xs[n]) then [xs[n]] else []);
    }
  }

  function Flatten<T>(xss: seq<seq<T>>): seq<T> {
    if xss == [] then [] else Flatten(xss[..|xss| - 1]) + xss[|xss| - 1]
  }

  lemma FlattenStep<T>(xss: seq<seq<T>>, i: nat)
    requires i < |xss|
    ensures Flatten(xss[..i + 1]) == Flatten(xss[..i]) + xss[i]
  {
    assert xss[..i + 1][..i] == xss[..i];
  }

  /** The position of the first element with a given value. */
  function IndexOf<T(==)>(s: seq<T>, x: T): (i: nat)
    requires x in s
    ensures i < |s| && s[i] == x && x !in s[..i]
  {
    if s[0] == x then 0 else 1 + IndexOf(s[1..], x)
  }

  lemma {:induction false} IndexOfPrefix<T>(a: seq<T>, b: seq<T>, x: T)
    requires a <= b && x in a
    ensures x in b && IndexOf(b, x) == IndexOf(a, x)
  {
    if a[0] != x { IndexOfPrefix(a[1..], b[1..], x); }
  }

  lemma {:induction false} IndexOfLast<T>(a: seq<T>, x: T)
    requires x !in a
    ensures IndexOf(a + [x], x) == |a|
  {
    if a != [] {
      IndexOfLast(a[1..], x);
      assert (a + [x])[1..] == a[1..] + [x];
    }
  }

  /** A list without its repetitions, in order of first occurrence. */
  function FirstUses<T(==)>(xs: seq<T>): seq<T> {
    if xs == [] then []
    else
      var before, last := FirstUses(xs[..|xs| - 1]), xs[|xs| - 1];
      if last in before then before else before + [last]
  }

  lemma {:induction false} FirstUsesAre<T>(xs: seq<T>)
    ensures Distinct(FirstUses(xs)) && forall x :: x in FirstUses(xs) <==> x in xs
  {
    if xs != [] {
      FirstUsesAre(xs[..|xs| - 1]);
      assert xs == xs[..|xs| - 1] + [xs[|xs| - 1]];
    }
  }

  lemma {:induction false} FirstUsesGrow<T>(xs: seq<T>, ys: seq<T>)
    ensures FirstUses(xs) <= FirstUses(xs + ys)
  {
    if ys == [] {
      assert xs + ys == xs;
    } else {
      FirstUsesGrow(xs, ys[..|ys| - 1]);
      assert (xs + ys)[..|xs + ys| - 1] == xs + ys[..|ys| - 1];
    }
  }
}
