/** Lexicographic order of identifiers, stable sorting, and sorting of sets. */
module Ordering {
  import opened Collections

  /** `a <= b` for strings, compared code point by code point. */
  predicate StrLe(a: string, b: string) {
    a == [] || (b != [] && (a[0] < b[0] || (a[0] == b[0] && StrLe(a[1..], b[1..]))))
  }

  lemma {:induction false} StrLeTotal(a: string, b: string)
    ensures StrLe(a, b) || StrLe(b, a)
    ensures StrLe(a, b) && StrLe(b, a) ==> a == b
    ensures StrLe(a, a)
  {
    if a != [] {
      StrLeTotal(a[1..], a[1..]);
      if b != [] && a[0] == b[0] {
        StrLeTotal(a[1..], b[1..]);
        assert a == [a[0]] + a[1..] && b == [b[0]] + b[1..];
      }
    }
  }

  lemma {:induction false} StrLeTransitive(a: string, b: string, c: string)
    requires StrLe(a, b) && StrLe(b, c)
    ensures StrLe(a, c)
  {
    if a != [] && a[0] == b[0] == c[0] {
      StrLeTransitive(a[1..], b[1..], c[1..]);
    }
  }

  /** A total preorder: what a sort key induces. */
  ghost predicate TotalPreorder<T(!new)>(le: (T, T) -> bool) {
    && (forall x, y :: le(x, y) || le(y, x))
    && (forall x, y, z :: le(x, y) && le(y, z) ==> le(x, z))
  }

  lemma StrLeIsTotalPreorder()
    ensures TotalPreorder(StrLe)
  {
    forall x, y ensures StrLe(x, y) || StrLe(y, x) { StrLeTotal(x, y); }
    forall x, y, z | StrLe(x, y) && StrLe(y, z) ensures StrLe(x, z) { StrLeTransitive(x, y, z); }
  }

  predicate Sorted<T>(le: (T, T) -> bool, s: seq<T>) {
    forall i, j :: 0 <= i < j < |s| ==> le(s[i], s[j])
  }

  /** Puts `x` after every element that is not greater: later equal elements go last. */
  function Insert<T>(le: (T, T) -> bool, s: seq<T>, x: T): seq<T> {
    if s == [] || le(s[|s| - 1], x) then s + [x]
    else Insert(le, s[..|s| - 1], x) + [s[|s| - 1]]
  }

  /** Python's `sorted(xs, key=...)`: stable insertion from the left. */
  function SortBy<T>(le: (T, T) -> bool, xs: seq<T>): seq<T> {
    if xs == [] then [] else Insert(le, SortBy(le, xs[..|xs| - 1]), xs[|xs| - 1])
  }

  lemma {:induction false} InsertSorted<T(!new)>(le: (T, T) -> bool, s: seq<T>, x: T)
    requires TotalPreorder(le) && Sorted(le, s)
    ensures Sorted(le, Insert(le, s, x))
    ensures multiset(Insert(le, s, x)) == multiset(s) + multiset{x}
  {
    InsertMultiset(le, s, x);
    if s == [] || le(s[|s| - 1], x) {
    } else {
      var n := |s| - 1;
      var front := s[..n];
      assert s == front + [s[n]];
      InsertSorted(le, front, x);
      InsertContains(le, front, x);
      var r := Insert(le, front, x);
      hide Insert;
      assert forall y :: y in r ==> le(y, s[n]);
      assert forall i :: 0 <= i < |r| ==> r[i] in r;
    }
  }

  lemma {:induction false} InsertMultiset<T(!new)>(le: (T, T) -> bool, s: seq<T>, x: T)
    ensures multiset(Insert(le, s, x)) == multiset(s) + multiset{x}
  {
    if s != [] && !le(s[|s| - 1], x) {
      assert s == s[..|s| - 1] + [s[|s| - 1]];
      InsertMultiset(le, s[..|s| - 1], x);
    }
  }

  lemma {:induction false} SortBySorted<T(!new)>(le: (T, T) -> bool, xs: seq<T>)
    requires TotalPreorder(le)
    ensures Sorted(le, SortBy(le, xs))
    ensures multiset(SortBy(le, xs)) == multiset(xs)
  {
    if xs != [] {
      var n := |xs| - 1;
      assert xs == xs[..n] + [xs[n]];
      SortBySorted(le, xs[..n]);
      InsertSorted(le, SortBy(le, xs[..n]), xs[n]);
    }
  }

  lemma SortByElements<T(!new)>(le: (T, T) -> bool, xs: seq<T>)
    requires TotalPreorder(le)
    ensures |SortBy(le, xs)| == |xs|
    ensures forall x :: x in SortBy(le, xs) <==> x in xs
    ensures Distinct(xs) <==> Distinct(SortBy(le, xs))
  {
    SortBySorted(le, xs);
    var r := SortBy(le, xs);
    assert |multiset(r)| == |multiset(xs)|;
    assert forall x :: x in r <==> x in multiset(r);
    assert forall x :: x in xs <==> x in multiset(xs);
    assert Elements(xs) == Elements(r);
    DistinctIffSetSize(xs);
    DistinctIffSetSize(r);
  }

  lemma LastIsGreatest<T>(le: (T, T) -> bool, a: seq<T>, x: T)
    requires Sorted(le, a) && x in a
    ensures x == a[|a| - 1] || le(x, a[|a| - 1])
  {
  }

  lemma DropLast<T>(a: seq<T>)
    requires a != []
    ensures multiset(a[..|a| - 1]) == multiset(a) - multiset{a[|a| - 1]}
  {
    assert a == a[..|a| - 1] + [a[|a| - 1]];
  }

  /** On elements that the order tells apart, the sorted arrangement is unique. */
  lemma {:induction false} SortedUnique<T(!new)>(le: (T, T) -> bool, a: seq<T>, b: seq<T>)
    requires Sorted(le, a) && Sorted(le, b) && multiset(a) == multiset(b)
    requires forall x, y :: x in a && y in a && le(x, y) && le(y, x) ==> x == y
    ensures a == b
  {
    assert |multiset(a)| == |a| && |multiset(b)| == |b|;
    if a != [] {
      var n := |a| - 1;
      assert a[n] in b by { assert a[n] in multiset(b); }
      assert b[n] in a by { assert b[n] in multiset(a); }
      LastIsGreatest(le, b, a[n]);
      LastIsGreatest(le, a, b[n]);
      assert a[n] == b[n];
      DropLast(a);
      DropLast(b);
      SortedUnique(le, a[..n], b[..n]);
      assert a == a[..n] + [a[n]] && b == b[..n] + [b[n]];
    }
  }

  /** Sorting forgets the input order when the order tells all elements apart. */
  lemma SortByPermutation<T(!new)>(le: (T, T) -> bool, xs: seq<T>, ys: seq<T>)
    requires TotalPreorder(le) && multiset(xs) == multiset(ys)
    requires forall x, y :: x in xs && y in xs && le(x, y) && le(y, x) ==> x == y
    ensures SortBy(le, xs) == SortBy(le, ys)
  {
    SortBySorted(le, xs);
    SortBySorted(le, ys);
    SortByElements(le, xs);
    SortedUnique(le, SortBy(le, xs), SortBy(le, ys));
  }

  // ----- Stability -----

  ghost predicate Before<T(!new)>(xs: seq<T>, a: T, b: T) {
    exists i, j :: 0 <= i < j < |xs| && xs[i] == a && xs[j] == b
  }

  lemma BeforeExtends<T(!new)>(xs: seq<T>, ys: seq<T>, a: T, b: T)
    requires Before(xs, a, b)
    ensures Before(xs + ys, a, b)
  {
    var i, j :| 0 <= i < j < |xs| && xs[i] == a && xs[j] == b;
    assert (xs + ys)[i] == a && (xs + ys)[j] == b;
  }

  lemma BeforeEnd<T(!new)>(xs: seq<T>, a: T, b: T)
    requires a in xs
    ensures Before(xs + [b], a, b)
  {
    var i :| 0 <= i < |xs| && xs[i] == a;
    assert (xs + [b])[i] == a && (xs + [b])[|xs|] == b;
  }

  lemma {:induction false} InsertContains<T(!new)>(le: (T, T) -> bool, s: seq<T>, x: T)
    ensures forall y :: y in Insert(le, s, x) <==> y in s || y == x
  {
    if s != [] && !le(s[|s| - 1], x) {
      InsertContains(le, s[..|s| - 1], x);
      assert s == s[..|s| - 1] + [s[|s| - 1]];
    }
  }

  lemma {:induction false} InsertAfter<T(!new)>(le: (T, T) -> bool, s: seq<T>, a: T, x: T)
    requires a in s && le(a, x)
    ensures Before(Insert(le, s, x), a, x)
  {
    var n := |s| - 1;
    if le(s[n], x) {
      BeforeEnd(s, a, x);
    } else {
      assert s == s[..n] + [s[n]];
      InsertAfter(le, s[..n], a, x);
      BeforeExtends(Insert(le, s[..n], x), [s[n]], a, x);
    }
  }

  lemma {:induction false} InsertKeepsOrder<T(!new)>(le: (T, T) -> bool, s: seq<T>, x: T, a: T, b: T)
    requires Before(s, a, b)
    ensures Before(Insert(le, s, x), a, b)
  {
    var n := |s| - 1;
    if le(s[n], x) {
      BeforeExtends(s, [x], a, b);
    } else {
      var i, j :| 0 <= i < j < |s| && s[i] == a && s[j] == b;
      var front := s[..n];
      if j < n {
        assert front[i] == a && front[j] == b;
        InsertKeepsOrder(le, front, x, a, b);
        BeforeExtends(Insert(le, front, x), [s[n]], a, b);
      } else {
        assert front[i] == a;
        InsertContains(le, front, x);
        BeforeEnd(Insert(le, front, x), a, b);
      }
    }
  }

  lemma {:induction false} SortContains<T(!new)>(le: (T, T) -> bool, xs: seq<T>)
    ensures forall y :: y in SortBy(le, xs) <==> y in xs
  {
    if xs != [] {
      var n := |xs| - 1;
      assert xs == xs[..n] + [xs[n]];
      SortContains(le, xs[..n]);
      InsertContains(le, SortBy(le, xs[..n]), xs[n]);
    }
  }

  /** The sort is stable: an element that need not move after a later one stays before it. */
  lemma {:induction false} SortIsStable<T(!new)>(le: (T, T) -> bool, xs: seq<T>, a: T, b: T)
    requires Before(xs, a, b) && le(a, b)
    ensures Before(SortBy(le, xs), a, b)
  {
    var i, j :| 0 <= i < j < |xs| && xs[i] == a && xs[j] == b;
    var n := |xs| - 1;
    var front := xs[..n];
    if j < n {
      assert front[i] == a && front[j] == b;
      SortIsStable(le, front, a, b);
      InsertKeepsOrder(le, SortBy(le, front), xs[n], a, b);
    } else {
      assert front[i] == a;
      SortContains(le, front);
      InsertAfter(le, SortBy(le, front), a, b);
    }
  }

  // ----- Sets of identifiers -----

  predicate StrictlySorted(s: seq<string>) {
    forall i, j :: 0 <= i < j < |s| ==> s[i] != s[j] && StrLe(s[i], s[j])
  }

  lemma {:induction false} LeastExists(s: set<string>)
    requires s != {}
    ensures exists m :: m in s && forall y :: y in s ==> StrLe(m, y)
  {
    var x :| x in s;
    if s == {x} {
      StrLeTotal(x, x);
    } else {
      var rest := s - {x};
      LeastExists(rest);
      var m :| m in rest && forall y :: y in rest ==> StrLe(m, y);
      var least := if StrLe(x, m) then x else m;
      StrLeTotal(x, m);
      StrLeTotal(x, x);
      forall y | y in s ensures StrLe(least, y) {
        if y != x && StrLe(x, m) { StrLeTransitive(x, m, y); }
      }
    }
  }

  function Least(s: set<string>): (m: string)
    requires s != {}
    ensures m in s && forall y :: y in s ==> StrLe(m, y)
  {
    LeastExists(s);
    assert forall a, b | a in s && b in s && StrLe(a, b) && StrLe(b, a) :: a == b by {
      forall a, b | a in s && b in s && StrLe(a, b) && StrLe(b, a) ensures a == b { StrLeTotal(a, b); }
    }
    var m :| m in s && forall y | y in s :: StrLe(m, y);
    m
  }

  lemma PrependLeast(m: string, rest: seq<string>, s: set<string>)
    requires m in s && Elements(rest) == s - {m} && StrictlySorted(rest)
    requires forall y :: y in s ==> StrLe(m, y)
    ensures StrictlySorted([m] + rest) && Elements([m] + rest) == s
  {
    var r := [m] + rest;
    forall i | 0 <= i < |rest| ensures rest[i] in s && rest[i] != m {
      assert rest[i] in Elements(rest);
    }
    forall x ensures x in Elements(r) <==> x in s {
      if x in s && x != m {
        assert x in Elements(rest);
        assert x in rest && x in r;
      }
      if x in r && x != m { assert x in rest; }
    }
  }

  lemma {:induction false} SortedSetExists(s: set<string>)
    ensures exists r: seq<string> :: Elements(r) == s && StrictlySorted(r)
    decreases |s|
  {
    if s == {} {
      var r: seq<string> := [];
      assert Elements(r) == s && StrictlySorted(r);
    } else {
      var m := Least(s);
      SortedSetExists(s - {m});
      var rest: seq<string> :| Elements(rest) == s - {m} && StrictlySorted(rest);
      PrependLeast(m, rest, s);
    }
  }

  /** The strictly increasing list of a set's elements. */
  ghost function SortedSet(s: set<string>): (r: seq<string>)
    ensures Elements(r) == s && Distinct(r)
  {
    SortedSetExists(s);
    var r: seq<string> :| Elements(r) == s && StrictlySorted(r);
    r
  }

  lemma SortedSetIsSorted(s: set<string>)
    ensures StrictlySorted(SortedSet(s))
  {
    SortedSetExists(s);
  }

  lemma StrictlySortedUnique(r: seq<string>, q: seq<string>)
    requires StrictlySorted(r) && StrictlySorted(q) && Elements(r) == Elements(q)
    ensures r == q
  {
    forall x ensures x in r <==> x in q {
      assert x in r <==> x in Elements(r);
      assert x in q <==> x in Elements(q);
    }
    DistinctMultiset(r, q);
    forall x, y | x in r && y in r && StrLe(x, y) && StrLe(y, x) ensures x == y { StrLeTotal(x, y); }
    SortedUnique(StrLe, r, q);
  }

  lemma SortedSetEmpty(s: set<string>)
    ensures SortedSet(s) == [] <==> s == {}
  {
    assert s == Elements(SortedSet(s));
    if SortedSet(s) != [] { assert SortedSet(s)[0] in s; }
  }

  lemma SortedSetSize(s: set<string>)
    ensures |SortedSet(s)| == |s|
  {
    DistinctIffSetSize(SortedSet(s));
  }

  /** Python's `sorted(s)` for a set of strings. */
  method SortSet(s: set<string>) returns (r: seq<string>)
    ensures r == SortedSet(s)
  {
    r := [];
    var rest := s;
    while rest != {}
      invariant rest <= s && Elements(r) == s - rest && StrictlySorted(r)
      invariant forall x, y :: x in r && y in rest ==> StrLe(x, y)
    {
      var m := Least(rest);
      AppendGreatest(r, m);
      r := r + [m];
      rest := rest - {m};
    }
    SortedSetIsSorted(s);
    StrictlySortedUnique(r, SortedSet(s));
  }

  /** Python's `sorted(xs)` for a list of strings. */
  method SortIds(xs: seq<string>) returns (r: seq<string>)
    ensures r == SortBy(StrLe, xs) && multiset(r) == multiset(xs)
  {
    StrLeIsTotalPreorder();
    SortBySorted(StrLe, xs);
    r := SortBy(StrLe, xs);
  }

  lemma AppendGreatest(r: seq<string>, m: string)
    requires StrictlySorted(r) && m !in r && forall x :: x in r ==> StrLe(x, m)
    ensures StrictlySorted(r + [m]) && Elements(r + [m]) == Elements(r) + {m}
  {
  }

  lemma DistinctMultiset<T>(a: seq<T>, b: seq<T>)
    requires Distinct(a) && Distinct(b)
    requires forall x :: x in a <==> x in b
    ensures multiset(a) == multiset(b)
  {
    forall x ensures multiset(a)[x] == multiset(b)[x] {
      DistinctCount(a, x);
      DistinctCount(b, x);
    }
  }

  lemma {:induction false} DistinctCount<T>(a: seq<T>, x: T)
    requires Distinct(a)
    ensures multiset(a)[x] == if x in a then 1 else 0
  {
    if a != [] {
      var n := |a| - 1;
      assert a == a[..n] + [a[n]];
      DistinctCount(a[..n], x);
    }
  }
}
