/** The issue list that validation checks share and append to, and first-occurrence lookup tables. */
module Issues {
  import opened Collections

  class IssueLog<T> {
    var items: seq<T>

    constructor ()
      ensures items == []
    {
      items := [];
    }

    method Append(issue: T)
      modifies this
      ensures items == old(items) + [issue]
    {
      items := items + [issue];
    }
  }

  /** The issue, if the condition holds. */
  function One<T>(condition: bool, issue: T): seq<T> {
    if condition then [issue] else []
  }

  method ReportIf<T>(condition: bool, issue: T, issues: IssueLog<T>)
    modifies issues
    ensures issues.items == old(issues.items) + One(condition, issue)
  {
    if condition {
      issues.Append(issue);
    }
  }

  // Appending chunk after chunk is appending their concatenation.
  lemma Regroup2<T>(o: seq<T>, a: seq<T>, b: seq<T>)
    ensures o + a + b == o + (a + b)
  {
  }

  lemma Regroup4<T>(o: seq<T>, a: seq<T>, b: seq<T>, c: seq<T>, d: seq<T>)
    ensures o + a + b + c + d == o + (a + b + c + d)
  {
  }

  lemma Regroup5<T>(o: seq<T>, a: seq<T>, b: seq<T>, c: seq<T>, d: seq<T>, e: seq<T>)
    ensures o + a + b + c + d + e == o + (a + b + c + d + e)
  {
  }

  lemma Regroup6<T>(o: seq<T>, a: seq<T>, b: seq<T>, c: seq<T>, d: seq<T>, e: seq<T>, f: seq<T>)
    ensures o + a + b + c + d + e + f == o + (a + b + c + d + e + f)
  {
  }

  /** The table a loop builds when it keeps the first element seen with each id. */
  function FirstById<K(==), T>(id: T -> K, xs: seq<T>): (m: map<K, T>)
    ensures forall k :: k in m ==> m[k] in xs && id(m[k]) == k
    ensures forall i :: 0 <= i < |xs| ==> id(xs[i]) in m
  {
    if xs == [] then map[]
    else
      var m := FirstById(id, xs[..|xs| - 1]);
      var x := xs[|xs| - 1];
      assert xs == xs[..|xs| - 1] + [x];
      if id(x) in m then m else m[id(x) := x]
  }

  /** A dictionary comprehension keyed by id: the last element with an id wins. */
  function LastById<K(==), T>(id: T -> K, xs: seq<T>): (m: map<K, T>)
    ensures forall k :: k in m ==> m[k] in xs && id(m[k]) == k
    ensures forall i :: 0 <= i < |xs| ==> id(xs[i]) in m
  {
    if xs == [] then map[]
    else
      var x := xs[|xs| - 1];
      assert xs == xs[..|xs| - 1] + [x];
      LastById(id, xs[..|xs| - 1])[id(x) := x]
  }

  lemma LastByIdFinds<K, T>(id: T -> K, xs: seq<T>, x: T)
    requires Distinct(Map(id, xs)) && x in xs
    ensures id(x) in LastById(id, xs) && LastById(id, xs)[id(x)] == x
  {
    hide LastById, Map;
    var i :| 0 <= i < |xs| && xs[i] == x;
    var y := LastById(id, xs)[id(x)];
    var j :| 0 <= j < |xs| && xs[j] == y;
    assert Map(id, xs)[i] == Map(id, xs)[j];
  }

  /** Without repeated ids it does not matter which occurrence a table keeps. */
  lemma LastByIdIsFirst<K, T>(id: T -> K, xs: seq<T>)
    requires Distinct(Map(id, xs))
    ensures LastById(id, xs) == FirstById(id, xs)
  {
    hide LastById, FirstById, Map, Distinct;
    forall k ensures k in LastById(id, xs) <==> k in FirstById(id, xs) {
      if k in LastById(id, xs) { FirstByIdFinds(id, xs, LastById(id, xs)[k]); }
      if k in FirstById(id, xs) { LastByIdFinds(id, xs, FirstById(id, xs)[k]); }
    }
    forall k | k in LastById(id, xs) ensures LastById(id, xs)[k] == FirstById(id, xs)[k] {
      SameIdSameElement(id, xs, LastById(id, xs)[k], FirstById(id, xs)[k]);
    }
  }

  /** Without repeated ids, an id determines its element. */
  lemma SameIdSameElement<K, T>(id: T -> K, xs: seq<T>, x: T, y: T)
    requires Distinct(Map(id, xs)) && x in xs && y in xs && id(x) == id(y)
    ensures x == y
  {
    FirstByIdFinds(id, xs, x);
    FirstByIdFinds(id, xs, y);
  }

  /** The ids that repeat an earlier one, in the order met. */
  function Repeats<K(==)>(ids: seq<K>): seq<K> {
    if ids == [] then []
    else Repeats(ids[..|ids| - 1]) + (if ids[|ids| - 1] in ids[..|ids| - 1] then [ids[|ids| - 1]] else [])
  }

  lemma {:induction false} RepeatsEmptyIff<K>(ids: seq<K>)
    ensures Repeats(ids) == [] <==> Distinct(ids)
  {
    if ids != [] {
      var n := |ids| - 1;
      RepeatsEmptyIff(ids[..n]);
      assert ids == ids[..n] + [ids[n]];
      DistinctParts(ids[..n], [ids[n]]);
    }
  }

  lemma {:induction false} FirstByIdKeys<K, T>(id: T -> K, xs: seq<T>)
    ensures FirstById(id, xs).Keys == Elements(Map(id, xs))
  {
    if xs != [] {
      var n := |xs| - 1;
      FirstByIdKeys(id, xs[..n]);
      assert Elements(Map(id, xs[..n]) + [id(xs[n])]) == Elements(Map(id, xs[..n])) + {id(xs[n])};
    }
  }

  /** Without repeated ids every element is found under its own id. */
  lemma FirstByIdFinds<K, T>(id: T -> K, xs: seq<T>, x: T)
    requires Distinct(Map(id, xs)) && x in xs
    ensures id(x) in FirstById(id, xs) && FirstById(id, xs)[id(x)] == x
  {
    var i :| 0 <= i < |xs| && xs[i] == x;
    var y := FirstById(id, xs)[id(x)];
    var j :| 0 <= j < |xs| && xs[j] == y;
    assert Map(id, xs)[i] == Map(id, xs)[j];
  }

  lemma MapAppend<T, U>(f: T -> U, xs: seq<T>, x: T)
    ensures Map(f, xs + [x]) == Map(f, xs) + [f(x)]
  {
  }

  lemma RepeatsAppend<K>(ids: seq<K>, id: K)
    ensures Repeats(ids + [id]) == Repeats(ids) + (if id in ids then [id] else [])
  {
    assert (ids + [id])[..|ids|] == ids;
  }

  /** What one more element adds to the table and to the reports. */
  lemma IndexStep<K, T, I>(id: T -> K, duplicate: K -> I, xs: seq<T>, i: nat)
    requires i < |xs|
    ensures FirstById(id, xs[..i + 1]) ==
      var m := FirstById(id, xs[..i]); if id(xs[i]) in m then m else m[id(xs[i]) := xs[i]]
    ensures Map(duplicate, Repeats(Map(id, xs[..i + 1]))) == Map(duplicate, Repeats(Map(id, xs[..i]))) +
      (if id(xs[i]) in FirstById(id, xs[..i]) then [duplicate(id(xs[i]))] else [])
  {
    hide FirstById, Map, Repeats;
    FirstByIdStep(id, xs, i);
    FirstByIdKeys(id, xs[..i]);
    ReportsStep(id, duplicate, xs, i);
    assert id(xs[i]) in Map(id, xs[..i]) <==> id(xs[i]) in Elements(Map(id, xs[..i]));
  }

  lemma ReportsStep<K, T, I>(id: T -> K, duplicate: K -> I, xs: seq<T>, i: nat)
    requires i < |xs|
    ensures Map(duplicate, Repeats(Map(id, xs[..i + 1]))) == Map(duplicate, Repeats(Map(id, xs[..i]))) +
      (if id(xs[i]) in Map(id, xs[..i]) then [duplicate(id(xs[i]))] else [])
  {
    hide Map, Repeats;
    var x, before := xs[i], Map(id, xs[..i]);
    assert xs[..i + 1] == xs[..i] + [x];
    MapAppend(id, xs[..i], x);
    RepeatsAppend(before, id(x));
    if id(x) in before {
      MapAppend(duplicate, Repeats(before), id(x));
    } else {
      assert Repeats(before) + [] == Repeats(before);
    }
  }

  lemma FirstByIdStep<K, T>(id: T -> K, xs: seq<T>, i: nat)
    requires i < |xs|
    ensures FirstById(id, xs[..i + 1]) ==
      var m := FirstById(id, xs[..i]); if id(xs[i]) in m then m else m[id(xs[i]) := xs[i]]
  {
    assert xs[..i + 1][..i] == xs[..i];
  }

  lemma IndexNothing<K, T, I>(id: T -> K, duplicate: K -> I, xs: seq<T>)
    requires xs == []
    ensures FirstById(id, xs) == map[] && Map(duplicate, Repeats(Map(id, xs))) == []
  {
  }

  /** Python's dictionary fill with a "seen before" report. */
  method IndexById<K(==), T, I>(id: T -> K, duplicate: K -> I, xs: seq<T>, issues: IssueLog<I>)
    returns (byId: map<K, T>)
    modifies issues
    ensures byId == FirstById(id, xs)
    ensures issues.items == old(issues.items) + Map(duplicate, Repeats(Map(id, xs)))
  {
    hide FirstById, Map, Repeats;
    byId := map[];
    IndexNothing(id, duplicate, xs[..0]);
    for i := 0 to |xs|
      invariant byId == FirstById(id, xs[..i])
      invariant issues.items == old(issues.items) + Map(duplicate, Repeats(Map(id, xs[..i])))
    {
      IndexStep(id, duplicate, xs, i);
      if id(xs[i]) in byId {
        issues.Append(duplicate(id(xs[i])));
      } else {
        byId := byId[id(xs[i]) := xs[i]];
      }
    }
    assert xs[..|xs|] == xs;
  }
}
