/** Comparing a recorded decision tree with a replayed one (replay/runner.py). */
module Replay {
  import opened Collections
  import opened Ordering
  import opened Issues
  import opened Json

  const MAX_PATHS := 100

  // ----- Equality up to a tolerance -----

  /** Python's `==` on values that are not both numbers, both objects or both lists; True and False equal 1 and 0. */
  predicate SameLeaf(a: Value, b: Value) {
    match (a, b)
    case (Null, Null) => true
    case (Bool(x), Bool(y)) => x == y
    case (Bool(x), Number(y)) => y == if x then 1.0 else 0.0
    case (Number(x), Bool(y)) => x == if y then 1.0 else 0.0
    case (Text(x), Text(y)) => x == y
    case _ => false
  }

  predicate Near(x: real, y: real, tolerance: real) {
    (if y - x < 0.0 then x - y else y - x) <= tolerance
  }

  /** Same structure, numbers within the tolerance, everything else equal. */
  ghost predicate SameTree(a: Value, b: Value, tolerance: real) {
    match (a, b)
    case (Number(x), Number(y)) => Near(x, y, tolerance)
    case (Dict(f), Dict(g)) => f.Keys == g.Keys && forall k :: k in f ==> SameTree(f[k], g[k], tolerance)
    case (List(s), List(t)) => |s| == |t| && forall i :: 0 <= i < |s| ==> SameTree(s[i], t[i], tolerance)
    case _ => SameLeaf(a, b)
  }

  lemma {:induction false} SameTreeReflexive(a: Value, tolerance: real)
    requires tolerance >= 0.0
    ensures SameTree(a, a, tolerance)
  {
    match a
    case Dict(f) => forall k | k in f ensures SameTree(f[k], f[k], tolerance) { SameTreeReflexive(f[k], tolerance); }
    case List(s) => forall i | 0 <= i < |s| ensures SameTree(s[i], s[i], tolerance) { SameTreeReflexive(s[i], tolerance); }
    case _ =>
  }

  lemma {:induction false} SameTreeSymmetric(a: Value, b: Value, tolerance: real)
    requires SameTree(a, b, tolerance)
    ensures SameTree(b, a, tolerance)
  {
    match (a, b)
    case (Dict(f), Dict(g)) =>
      forall k | k in g ensures SameTree(g[k], f[k], tolerance) { SameTreeSymmetric(f[k], g[k], tolerance); }
    case (List(s), List(t)) =>
      forall i | 0 <= i < |t| ensures SameTree(t[i], s[i], tolerance) { SameTreeSymmetric(s[i], t[i], tolerance); }
    case _ =>
  }

  // ----- The unbounded difference -----

  function Digit(n: nat): char
    requires n < 10
  {
    "0123456789"[n]
  }

  function Decimal(n: nat): string {
    if n < 10 then [Digit(n)] else Decimal(n / 10) + [Digit(n % 10)]
  }

  function MissingReplayed(path: string): string -> string {
    (key: string) => path + "." + key + ":missing_replayed"
  }

  function MissingOriginal(path: string): string -> string {
    (key: string) => path + "." + key + ":missing_original"
  }

  lemma CommonKeys(f: map<string, Value>, g: map<string, Value>)
    ensures forall k :: k in SortedSet(f.Keys * g.Keys) ==> k in f && k in g
  {
    assert forall k :: k in SortedSet(f.Keys * g.Keys) ==> k in Elements(SortedSet(f.Keys * g.Keys));
  }

  /** Every path at which two trees differ, in the order they are visited. */
  ghost function Drift(a: Value, b: Value, path: string, tolerance: real): seq<string>
    decreases a, 1, 0
  {
    match (a, b)
    case (Number(x), Number(y)) => if Near(x, y, tolerance) then [] else [path]
    case (Dict(f), Dict(g)) =>
      CommonKeys(f, g);
      Map(MissingReplayed(path), SortedSet(f.Keys - g.Keys))
      + Map(MissingOriginal(path), SortedSet(g.Keys - f.Keys))
      + DriftOfKeys(a, b, SortedSet(f.Keys * g.Keys), path, tolerance)
    case (List(s), List(t)) =>
      (if |s| != |t| then [path + ".length"] else []) + DriftOfItems(a, b, if |s| <= |t| then |s| else |t|, path, tolerance)
    case _ => if SameLeaf(a, b) then [] else [path]
  }

  ghost function DriftOfKeys(a: Value, b: Value, keys: seq<string>, path: string, tolerance: real): seq<string>
    requires a.Dict? && b.Dict? && forall k :: k in keys ==> k in a.fields && k in b.fields
    decreases a, 0, |keys|
  {
    if keys == [] then []
    else
      var k := keys[|keys| - 1];
      assert k in keys;
      DriftOfKeys(a, b, keys[..|keys| - 1], path, tolerance) + Drift(a.fields[k], b.fields[k], path + "." + k, tolerance)
  }

  /** The differences among the first `n` items. */
  ghost function DriftOfItems(a: Value, b: Value, n: nat, path: string, tolerance: real): seq<string>
    requires a.List? && b.List? && n <= |a.items| && n <= |b.items|
    decreases a, 0, n
  {
    if n == 0 then []
    else
      DriftOfItems(a, b, n - 1, path, tolerance)
      + Drift(a.items[n - 1], b.items[n - 1], path + "[" + Decimal(n - 1) + "]", tolerance)
  }

  lemma {:induction false} KeysEmptyIff(a: Value, b: Value, keys: seq<string>, path: string, tolerance: real)
    requires a.Dict? && b.Dict? && forall k :: k in keys ==> k in a.fields && k in b.fields
    ensures DriftOfKeys(a, b, keys, path, tolerance) == [] <==> forall k :: k in keys ==> SameTree(a.fields[k], b.fields[k], tolerance)
    decreases a, 0, |keys|
  {
    hide Drift;
    if keys != [] {
      var n := |keys| - 1;
      assert keys == keys[..n] + [keys[n]];
      KeysEmptyIff(a, b, keys[..n], path, tolerance);
      DriftEmptyIff(a.fields[keys[n]], b.fields[keys[n]], path + "." + keys[n], tolerance);
    }
  }

  lemma {:induction false} ItemsEmptyIff(a: Value, b: Value, n: nat, path: string, tolerance: real)
    requires a.List? && b.List? && n <= |a.items| && n <= |b.items|
    ensures DriftOfItems(a, b, n, path, tolerance) == [] <==> forall i :: 0 <= i < n ==> SameTree(a.items[i], b.items[i], tolerance)
    decreases a, 0, n
  {
    hide Drift, Decimal;
    if n > 0 {
      ItemsEmptyIff(a, b, n - 1, path, tolerance);
      DriftEmptyIff(a.items[n - 1], b.items[n - 1], path + "[" + Decimal(n - 1) + "]", tolerance);
    }
  }

  lemma DifferenceEmptyIff(f: map<string, Value>, g: map<string, Value>)
    ensures SortedSet(f.Keys - g.Keys) == [] && SortedSet(g.Keys - f.Keys) == [] <==> f.Keys == g.Keys
  {
    SortedSetEmpty(f.Keys - g.Keys);
    SortedSetEmpty(g.Keys - f.Keys);
    if f.Keys - g.Keys == {} && g.Keys - f.Keys == {} {
      forall k ensures k in f.Keys <==> k in g.Keys {
        assert k in f.Keys - g.Keys <==> k in f.Keys && k !in g.Keys;
        assert k in g.Keys - f.Keys <==> k in g.Keys && k !in f.Keys;
      }
    }
  }

  /** The diff finds nothing exactly when the trees are the same up to the tolerance. */
  lemma {:induction false} DriftEmptyIff(a: Value, b: Value, path: string, tolerance: real)
    ensures Drift(a, b, path, tolerance) == [] <==> SameTree(a, b, tolerance)
    decreases a, 1, 0
  {
    match (a, b)
    case (Dict(f), Dict(g)) =>
      DifferenceEmptyIff(f, g);
      CommonKeys(f, g);
      KeysEmptyIff(a, b, SortedSet(f.Keys * g.Keys), path, tolerance);
      assert forall k :: k in SortedSet(f.Keys * g.Keys) <==> k in Elements(SortedSet(f.Keys * g.Keys));
    case (List(s), List(t)) =>
      ItemsEmptyIff(a, b, if |s| <= |t| then |s| else |t|, path, tolerance);
    case _ =>
  }

  // ----- The bounded collector -----

  function Bounded(paths: seq<string>): seq<string> {
    if |paths| <= MAX_PATHS then paths else paths[..MAX_PATHS]
  }

  lemma BoundedAppend(s: seq<string>, t: seq<string>)
    ensures Bounded(Bounded(s) + t) == Bounded(s + t)
    ensures |Bounded(s)| >= MAX_PATHS ==> Bounded(s + t) == Bounded(s)
    ensures |s| <= MAX_PATHS ==> Bounded(s) == s
    ensures |Bounded(s)| <= MAX_PATHS
  {
  }

  lemma Regroup(s: seq<string>, t: seq<string>, u: seq<string>)
    ensures s + t + u == s + (t + u)
  {
  }

  lemma KeysStep(a: Value, b: Value, keys: seq<string>, i: nat, path: string, tolerance: real)
    requires a.Dict? && b.Dict? && i < |keys| && forall k :: k in keys ==> k in a.fields && k in b.fields
    ensures forall k :: k in keys[..i] || k in keys[..i + 1] ==> k in a.fields && k in b.fields
    ensures DriftOfKeys(a, b, keys[..i + 1], path, tolerance) ==
      DriftOfKeys(a, b, keys[..i], path, tolerance) + Drift(a.fields[keys[i]], b.fields[keys[i]], path + "." + keys[i], tolerance)
  {
    assert keys[..i + 1][..i] == keys[..i];
  }

  lemma MapStep(f: string -> string, xs: seq<string>, i: nat)
    requires i < |xs|
    ensures Map(f, xs[..i + 1]) == Map(f, xs[..i]) + [f(xs[i])]
  {
    assert xs[..i + 1][..i] == xs[..i];
  }

  /** Appends one path per key until the log is full; the caller returns when it is. */
  method ReportKeys(keys: seq<string>, report: string -> string, paths: IssueLog<string>) returns (full: bool)
    requires |paths.items| < MAX_PATHS
    modifies paths
    ensures paths.items == Bounded(old(paths.items) + Map(report, keys))
    ensures full <==> |paths.items| >= MAX_PATHS
  {
    hide Map;
    ghost var before := paths.items;
    NoKeys(report, keys, before);
    for i := 0 to |keys|
      invariant paths.items == Bounded(before + Map(report, keys[..i])) && |paths.items| < MAX_PATHS
    {
      MapStep(report, keys, i);
      paths.Append(report(keys[i]));
      assert before + Map(report, keys[..i]) + [report(keys[i])] == before + Map(report, keys[..i + 1]);
      if |paths.items| >= MAX_PATHS {
        RestIgnored(report, keys, i + 1, before);
        return true;
      }
    }
    assert keys[..|keys|] == keys;
    return false;
  }

  lemma NoKeys(report: string -> string, keys: seq<string>, before: seq<string>)
    ensures Map(report, keys[..0]) == [] && before + [] == before
  {
  }

  lemma RestIgnored(report: string -> string, keys: seq<string>, i: nat, before: seq<string>)
    requires i <= |keys| && |before + Map(report, keys[..i])| >= MAX_PATHS
    ensures Bounded(before + Map(report, keys)) == Bounded(before + Map(report, keys[..i]))
  {
    hide Bounded;
    assert Map(report, keys)[..i] == Map(report, keys[..i]);
    LongEnough(before + Map(report, keys[..i]));
    FullStays(before, Map(report, keys[..i]), Map(report, keys));
  }

  lemma LongEnough(s: seq<string>)
    ensures |s| >= MAX_PATHS ==> |Bounded(s)| >= MAX_PATHS
  {
  }

  lemma {:induction false} KeysPrefix(a: Value, b: Value, keys: seq<string>, i: nat, path: string, tolerance: real)
    requires a.Dict? && b.Dict? && i <= |keys| && forall k :: k in keys ==> k in a.fields && k in b.fields
    ensures forall k :: k in keys[..i] ==> k in a.fields && k in b.fields
    ensures DriftOfKeys(a, b, keys[..i], path, tolerance) <= DriftOfKeys(a, b, keys, path, tolerance)
    decreases |keys|
  {
    hide Drift;
    if i < |keys| {
      KeysPrefix(a, b, keys[..|keys| - 1], i, path, tolerance);
      assert keys[..|keys| - 1][..i] == keys[..i];
    } else {
      assert keys[..i] == keys;
    }
  }

  lemma {:induction false} ItemsPrefix(a: Value, b: Value, i: nat, n: nat, path: string, tolerance: real)
    requires a.List? && b.List? && i <= n <= |a.items| && n <= |b.items|
    ensures DriftOfItems(a, b, i, path, tolerance) <= DriftOfItems(a, b, n, path, tolerance)
    decreases n
  {
    hide Drift;
    if i < n { ItemsPrefix(a, b, i, n - 1, path, tolerance); }
  }

  lemma FullStays(before: seq<string>, part: seq<string>, whole: seq<string>)
    requires part <= whole && |Bounded(before + part)| >= MAX_PATHS
    ensures Bounded(before + whole) == Bounded(before + part)
  {
    assert (before + whole)[..|before + part|] == before + part;
  }

  /** Visits the common keys in order. */
  method CollectKeys(a: Value, b: Value, keys: seq<string>, path: string, tolerance: real, paths: IssueLog<string>)
    requires a.Dict? && b.Dict? && forall k :: k in keys ==> k in a.fields && k in b.fields
    requires |paths.items| < MAX_PATHS
    modifies paths
    ensures paths.items == Bounded(old(paths.items) + DriftOfKeys(a, b, keys, path, tolerance))
    decreases a, 0, |keys|
  {
    hide Drift, DriftOfKeys, Bounded;
    ghost var before := paths.items;
    NoneVisited(a, b, keys, path, tolerance, before);
    for i := 0 to |keys|
      invariant forall k :: k in keys[..i] ==> k in a.fields && k in b.fields
      invariant paths.items == Bounded(before + DriftOfKeys(a, b, keys[..i], path, tolerance)) && |paths.items| < MAX_PATHS
    {
      var k := keys[i];
      KeysStep(a, b, keys, i, path, tolerance);
      ghost var done, next := DriftOfKeys(a, b, keys[..i], path, tolerance), Drift(a.fields[k], b.fields[k], path + "." + k, tolerance);
      BoundedAppend(before + done, next);
      Regroup(before, done, next);
      Collect(a.fields[k], b.fields[k], path + "." + k, tolerance, paths);
      if |paths.items| >= MAX_PATHS {
        KeysPrefix(a, b, keys, i + 1, path, tolerance);
        FullStays(before, DriftOfKeys(a, b, keys[..i + 1], path, tolerance), DriftOfKeys(a, b, keys, path, tolerance));
        return;
      }
    }
    assert keys[..|keys|] == keys;
  }

  lemma NoneVisited(a: Value, b: Value, keys: seq<string>, path: string, tolerance: real, before: seq<string>)
    requires a.Dict? && b.Dict? && |before| < MAX_PATHS
    ensures Bounded(before + DriftOfKeys(a, b, keys[..0], path, tolerance)) == before
  {
  }

  lemma NoItemVisited(a: Value, b: Value, path: string, tolerance: real, before: seq<string>)
    requires a.List? && b.List? && |before| < MAX_PATHS
    ensures Bounded(before + DriftOfItems(a, b, 0, path, tolerance)) == before
  {
  }

  /** Visits the paired items in order. */
  method CollectItems(a: Value, b: Value, n: nat, path: string, tolerance: real, paths: IssueLog<string>)
    requires a.List? && b.List? && n <= |a.items| && n <= |b.items|
    requires |paths.items| < MAX_PATHS
    modifies paths
    ensures paths.items == Bounded(old(paths.items) + DriftOfItems(a, b, n, path, tolerance))
    decreases a, 0, n
  {
    hide Drift, Bounded;
    ghost var before := paths.items;
    NoItemVisited(a, b, path, tolerance, before);
    for i := 0 to n
      invariant paths.items == Bounded(before + DriftOfItems(a, b, i, path, tolerance)) && |paths.items| < MAX_PATHS
    {
      var itemPath := path + "[" + Decimal(i) + "]";
      ghost var done, next := DriftOfItems(a, b, i, path, tolerance), Drift(a.items[i], b.items[i], itemPath, tolerance);
      BoundedAppend(before + done, next);
      Regroup(before, done, next);
      Collect(a.items[i], b.items[i], itemPath, tolerance, paths);
      if |paths.items| >= MAX_PATHS {
        ItemsPrefix(a, b, i + 1, n, path, tolerance);
        FullStays(before, DriftOfItems(a, b, i + 1, path, tolerance), DriftOfItems(a, b, n, path, tolerance));
        return;
      }
    }
  }

  lemma Visit3(before: seq<string>, x: seq<string>, y: seq<string>, z: seq<string>)
    requires |before| <= MAX_PATHS
    ensures Bounded(Bounded(Bounded(before + x) + y) + z) == Bounded(before + (x + y + z))
    ensures |Bounded(before + x)| >= MAX_PATHS ==> Bounded(before + (x + y + z)) == Bounded(before + x)
    ensures |Bounded(Bounded(before + x) + y)| >= MAX_PATHS ==> Bounded(before + (x + y + z)) == Bounded(Bounded(before + x) + y)
  {
    hide Bounded;
    BoundedAppend(before + x, y);
    BoundedAppend(before + x + y, z);
    assert before + x + y + z == before + (x + y + z);
    BoundedAppend(before + x, y + z);
    assert before + x + (y + z) == before + (x + y + z);
  }

  /** Two objects: keys missing on either side, then the common ones. */
  method CollectDicts(a: Value, b: Value, path: string, tolerance: real, paths: IssueLog<string>)
    requires a.Dict? && b.Dict? && |paths.items| < MAX_PATHS
    modifies paths
    ensures paths.items == Bounded(old(paths.items) + Drift(a, b, path, tolerance))
    decreases a, 0, |a.fields| + 1
  {
    hide Bounded, DriftOfKeys, Map, MissingReplayed, MissingOriginal;
    var f, g := a.fields, b.fields;
    var gone := SortSet(f.Keys - g.Keys);
    var added := SortSet(g.Keys - f.Keys);
    var common := SortSet(f.Keys * g.Keys);
    CommonKeys(f, g);
    SharedSize(f, g);
    Visit3(paths.items, Map(MissingReplayed(path), gone), Map(MissingOriginal(path), added), DriftOfKeys(a, b, common, path, tolerance));
    var full := ReportKeys(gone, MissingReplayed(path), paths);
    if full {
      return;
    }
    full := ReportKeys(added, MissingOriginal(path), paths);
    if full {
      return;
    }
    CollectKeys(a, b, common, path, tolerance, paths);
  }

  lemma SharedSize(f: map<string, Value>, g: map<string, Value>)
    ensures |SortedSet(f.Keys * g.Keys)| <= |f|
  {
    SortedSetSize(f.Keys * g.Keys);
    assert f.Keys * g.Keys <= f.Keys;
    SmallerSet(f.Keys * g.Keys, f.Keys);
  }

  lemma SmallerSet(s: set<string>, t: set<string>)
    requires s <= t
    ensures |s| <= |t|
  {
    assert t == s + (t - s);
  }

  /** Two lists: a length that differs, then the paired items. */
  method CollectLists(a: Value, b: Value, n: nat, path: string, tolerance: real, paths: IssueLog<string>)
    requires a.List? && b.List? && n == (if |a.items| <= |b.items| then |a.items| else |b.items|)
    requires |paths.items| < MAX_PATHS
    modifies paths
    ensures paths.items == Bounded(old(paths.items) +
      ((if |a.items| != |b.items| then [path + ".length"] else []) + DriftOfItems(a, b, n, path, tolerance)))
    decreases a, 0, n + 1
  {
    hide DriftOfItems;
    ghost var before := paths.items;
    if |a.items| != |b.items| {
      paths.Append(path + ".length");
      if |paths.items| >= MAX_PATHS {
        FullStays(before, [path + ".length"], [path + ".length"] + DriftOfItems(a, b, n, path, tolerance));
        return;
      }
    }
    Regroup(before, [path + ".length"], DriftOfItems(a, b, n, path, tolerance));
    assert [] + DriftOfItems(a, b, n, path, tolerance) == DriftOfItems(a, b, n, path, tolerance);
    CollectItems(a, b, n, path, tolerance, paths);
  }

  /**
   * The in-place collector with early exits: whatever the log already holds, it afterwards holds the first hundred of
   * those paths followed by the full difference.
   */
  method Collect(a: Value, b: Value, path: string, tolerance: real, paths: IssueLog<string>)
    requires |paths.items| <= MAX_PATHS
    modifies paths
    ensures paths.items == Bounded(old(paths.items) + Drift(a, b, path, tolerance))
    decreases a, 1, 0
  {
    hide DriftOfItems, DriftOfKeys, Map, Decimal;
    if |paths.items| >= MAX_PATHS {
      BoundedAppend(paths.items, Drift(a, b, path, tolerance));
      return;
    }
    match (a, b)
    case (Number(x), Number(y)) =>
      if !Near(x, y, tolerance) {
        paths.Append(path);
      }
    case (Dict(f), Dict(g)) =>
      CollectDicts(a, b, path, tolerance, paths);
    case (List(s), List(t)) =>
      var n := if |s| <= |t| then |s| else |t|;
      CollectLists(a, b, n, path, tolerance, paths);
    case _ =>
      if !SameLeaf(a, b) {
        paths.Append(path);
      }
  }

  /** A negative tolerance is refused; otherwise the first hundred drift paths, none exactly for equal trees. */
  method CompareDecisionTrees(original: Value, replayed: Value, tolerance: real) returns (r: Option<seq<string>>)
    ensures r.None? <==> tolerance < 0.0
    ensures r.Some? ==> r.value == Bounded(Drift(original, replayed, "decision", tolerance))
    ensures r.Some? ==> (r.value == [] <==> SameTree(original, replayed, tolerance))
  {
    hide Drift, SameTree;
    if tolerance < 0.0 {
      return None;
    }
    var paths := new IssueLog<string>();
    Collect(original, replayed, "decision", tolerance, paths);
    DriftEmptyIff(original, replayed, "decision", tolerance);
    assert [] + Drift(original, replayed, "decision", tolerance) == Drift(original, replayed, "decision", tolerance);
    return Some(paths.items);
  }

  // ----- Formula versions -----

  function Lookup(m: map<string, string>, key: string): Option<string> {
    if key in m then Some(m[key]) else None
  }

  /** The changed cells with both versions; nothing is reported exactly when the version maps are equal. */
  method CompareFormulaVersions(recorded: map<string, string>, current: map<string, string>)
    returns (changes: map<string, (Option<string>, Option<string>)>)
    ensures forall c :: c in changes <==> Lookup(recorded, c) != Lookup(current, c)
    ensures forall c :: c in changes ==> changes[c] == (Lookup(recorded, c), Lookup(current, c))
    ensures changes == map[] <==> recorded == current
  {
    var cells := SortSet(recorded.Keys + current.Keys);
    changes := map[];
    for i := 0 to |cells|
      invariant forall c :: c in changes <==> c in cells[..i] && Lookup(recorded, c) != Lookup(current, c)
      invariant forall c :: c in changes ==> changes[c] == (Lookup(recorded, c), Lookup(current, c))
    {
      var c := cells[i];
      assert cells[..i + 1] == cells[..i] + [c];
      if Lookup(recorded, c) != Lookup(current, c) {
        changes := changes[c := (Lookup(recorded, c), Lookup(current, c))];
      }
    }
    assert cells[..|cells|] == cells;
    forall c | Lookup(recorded, c) != Lookup(current, c) ensures c in cells {
      assert c in Elements(cells);
    }
    if changes == map[] {
      forall c ensures Lookup(recorded, c) == Lookup(current, c) { assert c !in changes; }
      assert forall c :: c in recorded <==> Lookup(recorded, c).Some?;
      assert forall c :: c in current <==> Lookup(current, c).Some?;
      assert forall c :: c in recorded ==> recorded[c] == Lookup(recorded, c).value == Lookup(current, c).value == current[c];
    }
  }
}
