/** Levelled topological sort and dependency closure (graph/topology.py). */
module Topology {
  import opened Collections
  import opened Ordering

  /** Each node's dependency list as declared: entries may be absent, repeated, or the node itself. */
  type DependencyMap = map<string, seq<string>>

  predicate DependsOn(g: DependencyMap, n: string, d: string) {
    n in g && d in g && d in g[n]
  }

  /** A walk that follows present dependencies. */
  ghost predicate IsChain(g: DependencyMap, c: seq<string>) {
    && c != []
    && (forall i :: 0 <= i < |c| ==> c[i] in g)
    && (forall i :: 0 <= i < |c| - 1 ==> DependsOn(g, c[i], c[i + 1]))
  }

  /** Some chain of `k` dependency steps starts at `n`. */
  ghost predicate HasChain(g: DependencyMap, n: string, k: nat)
    decreases k
  {
    n in g && (k == 0 || exists d :: DependsOn(g, n, d) && HasChain(g, d, k - 1))
  }

  /** The nodes whose longest chain has exactly `k` steps. */
  ghost function LevelSet(g: DependencyMap, k: nat): set<string> {
    set n | n in g && HasChain(g, n, k) && !HasChain(g, n, k + 1)
  }

  /** The nodes from which `k` steps are possible: those still waiting before level `k`. */
  ghost function Waiting(g: DependencyMap, k: nat): set<string> {
    set n | n in g && HasChain(g, n, k)
  }

  /** A cycle of dependencies can be reached from `n`. */
  ghost predicate LeadsToCycle(g: DependencyMap, n: string) {
    exists c, i, j :: IsChain(g, c) && c[0] == n && 0 <= i < j < |c| && c[i] == c[j]
  }

  ghost function CyclicSet(g: DependencyMap): set<string> {
    set n | n in g && LeadsToCycle(g, n)
  }

  ghost function LevelsFrom(g: DependencyMap, k: nat): seq<seq<string>>
    decreases |Waiting(g, k)|
  {
    if LevelSet(g, k) == {} then []
    else
      WaitingShrinks(g, k);
      [SortedSet(LevelSet(g, k))] + LevelsFrom(g, k + 1)
  }

  /** The levels, a function of the map alone: iteration order cannot matter. */
  ghost function Levels(g: DependencyMap): seq<seq<string>> {
    LevelsFrom(g, 0)
  }

  // ----- Chains -----

  lemma {:induction false} ChainShortens(g: DependencyMap, n: string, k: nat)
    requires HasChain(g, n, k + 1)
    ensures HasChain(g, n, k)
    decreases k
  {
    if k > 0 {
      var d :| DependsOn(g, n, d) && HasChain(g, d, k);
      ChainShortens(g, d, k - 1);
    }
  }

  lemma {:induction false} ChainShortensTo(g: DependencyMap, n: string, k: nat, m: nat)
    requires HasChain(g, n, k) && m <= k
    ensures HasChain(g, n, m)
    decreases k
  {
    if m < k {
      ChainShortens(g, n, k - 1);
      ChainShortensTo(g, n, k - 1, m);
    }
  }

  lemma WaitingShrinks(g: DependencyMap, k: nat)
    ensures Waiting(g, k + 1) == Waiting(g, k) - LevelSet(g, k)
    ensures LevelSet(g, k) != {} ==> |Waiting(g, k + 1)| < |Waiting(g, k)|
  {
    forall n | n in Waiting(g, k + 1) ensures n in Waiting(g, k) { ChainShortens(g, n, k); }
    assert LevelSet(g, k) <= Waiting(g, k);
    assert |Waiting(g, k) - LevelSet(g, k)| == |Waiting(g, k)| - |LevelSet(g, k)|;
  }

  /** The recursive notion of a chain is the existence of a walk. */
  lemma {:induction false} HasChainIffWalk(g: DependencyMap, n: string, k: nat)
    ensures HasChain(g, n, k) <==> exists c :: IsChain(g, c) && c[0] == n && |c| == k + 1
    decreases k
  {
    if HasChain(g, n, k) {
      if k == 0 {
        assert IsChain(g, [n]);
      } else {
        var d :| DependsOn(g, n, d) && HasChain(g, d, k - 1);
        HasChainIffWalk(g, d, k - 1);
        var c :| IsChain(g, c) && c[0] == d && |c| == k;
        var w := [n] + c;
        forall i | 0 <= i < |w| - 1 ensures DependsOn(g, w[i], w[i + 1]) {
          if i > 0 { assert DependsOn(g, c[i - 1], c[i]); }
        }
        assert IsChain(g, w);
      }
    }
    if c :| IsChain(g, c) && c[0] == n && |c| == k + 1 {
      WalkContinues(g, c, 0);
    }
  }

  lemma {:induction false} WalkContinues(g: DependencyMap, c: seq<string>, k: nat)
    requires IsChain(g, c) && HasChain(g, c[|c| - 1], k)
    ensures HasChain(g, c[0], |c| - 1 + k)
  {
    if |c| > 1 {
      var t := c[1..];
      forall i | 0 <= i < |t| - 1 ensures DependsOn(g, t[i], t[i + 1]) {
        assert DependsOn(g, c[i + 1], c[i + 2]);
      }
      WalkContinues(g, t, k);
      assert DependsOn(g, c[0], c[1]);
    }
  }

  lemma SubWalk(g: DependencyMap, c: seq<string>, i: nat, j: nat)
    requires IsChain(g, c) && i < j <= |c|
    ensures IsChain(g, c[i..j])
  {
    var t := c[i..j];
    forall k | 0 <= k < |t| - 1 ensures DependsOn(g, t[k], t[k + 1]) {
      assert DependsOn(g, c[i + k], c[i + k + 1]);
    }
  }

  lemma {:induction false} LoopHasAllChains(g: DependencyMap, c: seq<string>, k: nat)
    requires IsChain(g, c) && |c| > 1 && c[0] == c[|c| - 1]
    ensures HasChain(g, c[0], k)
  {
    if k > 0 {
      LoopHasAllChains(g, c, k - 1);
      WalkContinues(g, c, k - 1);
      ChainShortensTo(g, c[0], |c| - 1 + k - 1, k);
    }
  }

  lemma CycleGivesAllChains(g: DependencyMap, n: string, k: nat)
    requires LeadsToCycle(g, n)
    ensures HasChain(g, n, k)
  {
    var c, i, j :| IsChain(g, c) && c[0] == n && 0 <= i < j < |c| && c[i] == c[j];
    SubWalk(g, c, i, j + 1);
    LoopHasAllChains(g, c[i..j + 1], k);
    SubWalk(g, c, 0, i + 1);
    WalkContinues(g, c[0..i + 1], k);
    ChainShortensTo(g, n, i + k, k);
  }

  lemma LongChainGivesCycle(g: DependencyMap, n: string)
    requires HasChain(g, n, |g|)
    ensures LeadsToCycle(g, n)
  {
    HasChainIffWalk(g, n, |g|);
    var c :| IsChain(g, c) && c[0] == n && |c| == |g| + 1;
    DistinctIffSetSize(c);
    assert Elements(c) <= g.Keys;
    SubsetSize(Elements(c), g.Keys);
    assert !Distinct(c);
    var i, j :| 0 <= i < j < |c| && c[i] == c[j];
  }

  /** A cycle is reachable exactly when chains of every length start here; |g| steps already decide it. */
  lemma LeadsToCycleIff(g: DependencyMap, n: string)
    ensures LeadsToCycle(g, n) <==> HasChain(g, n, |g|)
    ensures LeadsToCycle(g, n) ==> forall k: nat :: HasChain(g, n, k)
  {
    if LeadsToCycle(g, n) {
      forall k: nat ensures HasChain(g, n, k) { CycleGivesAllChains(g, n, k); }
    }
    if HasChain(g, n, |g|) { LongChainGivesCycle(g, n); }
  }

  lemma SubsetSize<T>(a: set<T>, b: set<T>)
    requires a <= b
    ensures |a| <= |b|
    ensures |a| == |b| ==> a == b
  {
    assert b == a + (b - a);
    assert |b| == |a| + |b - a|;
  }

  // ----- What the levels mean -----

  lemma {:induction false} LevelsFromAt(g: DependencyMap, k: nat, i: nat)
    requires i < |LevelsFrom(g, k)|
    ensures LevelSet(g, k + i) != {} && LevelsFrom(g, k)[i] == SortedSet(LevelSet(g, k + i))
    decreases i
  {
    if i > 0 {
      LevelsFromAt(g, k + 1, i - 1);
      assert k + 1 + (i - 1) == k + i;
    }
  }

  lemma {:induction false} LevelsFromEnd(g: DependencyMap, k: nat)
    ensures LevelSet(g, k + |LevelsFrom(g, k)|) == {}
    decreases |Waiting(g, k)|
  {
    if LevelSet(g, k) != {} {
      WaitingShrinks(g, k);
      LevelsFromEnd(g, k + 1);
      assert k + 1 + |LevelsFrom(g, k + 1)| == k + |LevelsFrom(g, k)|;
    }
  }

  lemma LevelElements(g: DependencyMap, k: nat)
    requires k < |Levels(g)|
    ensures Levels(g)[k] == SortedSet(LevelSet(g, k)) && Elements(Levels(g)[k]) == LevelSet(g, k)
    ensures forall n :: n in Levels(g)[k] <==> n in LevelSet(g, k)
    ensures Levels(g)[k] != []
  {
    LevelsFromAt(g, 0, k);
    assert forall n :: n in Levels(g)[k] <==> n in Elements(Levels(g)[k]);
  }

  lemma LevelsEnd(g: DependencyMap)
    ensures LevelSet(g, |Levels(g)|) == {}
    ensures Waiting(g, |Levels(g)|) == CyclicSet(g)
  {
    LevelsFromEnd(g, 0);
    StuckIsCyclic(g, |Levels(g)|);
  }

  /** Once a level is empty, the nodes still waiting are those from which a cycle is reachable. */
  lemma {:induction false} StuckHasAllChains(g: DependencyMap, j: nat, n: string, k: nat)
    requires LevelSet(g, j) == {} && HasChain(g, n, j)
    ensures HasChain(g, n, j + k)
    decreases k
  {
    if k > 0 {
      assert n !in LevelSet(g, j);
      var d :| DependsOn(g, n, d) && HasChain(g, d, j);
      StuckHasAllChains(g, j, d, k - 1);
      assert HasChain(g, n, j + k - 1 + 1);
    }
  }

  lemma StuckIsCyclic(g: DependencyMap, j: nat)
    requires LevelSet(g, j) == {}
    ensures Waiting(g, j) == CyclicSet(g)
  {
    forall n | n in g ensures n in Waiting(g, j) <==> n in CyclicSet(g) {
      if HasChain(g, n, j) {
        StuckHasAllChains(g, j, n, |g|);
        ChainShortensTo(g, n, j + |g|, |g|);
        LongChainGivesCycle(g, n);
      }
      if LeadsToCycle(g, n) { CycleGivesAllChains(g, n, j); }
    }
  }

  lemma LevelSetIffLongestChain(g: DependencyMap, n: string, k: nat)
    ensures n in LevelSet(g, k) <==>
      (&& (exists c :: IsChain(g, c) && c[0] == n && |c| == k + 1)
       && (forall c :: IsChain(g, c) && c[0] == n ==> |c| <= k + 1))
  {
    HasChainIffWalk(g, n, k);
    HasChainIffWalk(g, n, k + 1);
    if n in LevelSet(g, k) {
      forall c | IsChain(g, c) && c[0] == n ensures |c| <= k + 1 {
        if |c| > k + 1 {
          HasChainIffWalk(g, n, |c| - 1);
          ChainShortensTo(g, n, |c| - 1, k + 1);
        }
      }
    }
  }

  /** A node is in level `k` exactly when its longest chain of present dependencies has `k` steps. */
  lemma LevelIffLongestChain(g: DependencyMap, n: string, k: nat)
    ensures (k < |Levels(g)| && n in Levels(g)[k]) <==>
      (&& (exists c :: IsChain(g, c) && c[0] == n && |c| == k + 1)
       && (forall c :: IsChain(g, c) && c[0] == n ==> |c| <= k + 1))
  {
    LevelSetIffLongestChain(g, n, k);
    if k < |Levels(g)| {
      LevelElements(g, k);
    } else if n in LevelSet(g, k) {
      LevelsEnd(g);
      ChainShortensTo(g, n, k, |Levels(g)|);
      assert n in Waiting(g, |Levels(g)|);
      CycleGivesAllChains(g, n, k + 1);
      assert false;
    }
  }

  /** The cyclic nodes are exactly the keys with unboundedly long chains, so never in a level. */
  lemma CyclicIffInNoLevel(g: DependencyMap, n: string)
    requires n in g
    ensures n in CyclicSet(g) <==> forall k :: 0 <= k < |Levels(g)| ==> n !in Levels(g)[k]
  {
    LevelsEnd(g);
    if n in CyclicSet(g) {
      forall k | 0 <= k < |Levels(g)| ensures n !in Levels(g)[k] {
        LevelElements(g, k);
        CycleGivesAllChains(g, n, k + 1);
      }
    } else {
      assert n !in Waiting(g, |Levels(g)|);
      var k := FirstFailure(g, n, |Levels(g)|);
      LevelElements(g, k - 1);
    }
  }

  ghost function FirstFailure(g: DependencyMap, n: string, j: nat): (k: nat)
    requires n in g && !HasChain(g, n, j)
    ensures 1 <= k <= j && !HasChain(g, n, k) && HasChain(g, n, k - 1)
  {
    if HasChain(g, n, j - 1) then j else FirstFailure(g, n, j - 1)
  }

  lemma {:induction false} FlattenLevels(g: DependencyMap, k: nat)
    requires k <= |Levels(g)|
    ensures Distinct(Flatten(Levels(g)[..k]))
    ensures Elements(Flatten(Levels(g)[..k])) == g.Keys - Waiting(g, k)
  {
    if k == 0 {
      forall n | n in g ensures n in Waiting(g, 0) {}
    } else {
      hide Levels, Flatten, LevelSet, Waiting, Distinct;
      FlattenLevels(g, k - 1);
      FlattenStep(Levels(g), k - 1);
      LevelElements(g, k - 1);
      WaitingShrinks(g, k - 1);
      WaitingWithin(g, k - 1);
      AppendDistinct(Flatten(Levels(g)[..k - 1]), Levels(g)[k - 1]);
    }
  }

  lemma FlattenAllLevels(g: DependencyMap)
    ensures Distinct(Flatten(Levels(g)))
    ensures Elements(Flatten(Levels(g))) == g.Keys - CyclicSet(g)
  {
    LevelsEnd(g);
    FlattenLevels(g, |Levels(g)|);
    assert Levels(g)[..|Levels(g)|] == Levels(g);
  }

  /** Levels and cyclic nodes partition the keys, each key once. */
  lemma LevelsPartition(g: DependencyMap)
    ensures Distinct(Flatten(Levels(g)) + SortedSet(CyclicSet(g)))
    ensures Elements(Flatten(Levels(g)) + SortedSet(CyclicSet(g))) == g.Keys
  {
    FlattenAllLevels(g);
    AppendDistinct(Flatten(Levels(g)), SortedSet(CyclicSet(g)));
  }

  /** Every present dependency of a levelled node sits in a strictly earlier level. */
  lemma DependenciesComeEarlier(g: DependencyMap, k: nat, n: string, d: string)
    requires k < |Levels(g)| && n in Levels(g)[k] && DependsOn(g, n, d)
    ensures exists j :: 0 <= j < k && d in Levels(g)[j]
  {
    LevelElements(g, k);
    assert !HasChain(g, d, k);
    var m := FirstFailure(g, d, k);
    assert d in LevelSet(g, m - 1);
    LevelElements(g, m - 1);
  }

  // ----- Kahn's algorithm -----

  /** How many entries of a dependency list lie in `s`, repetitions included. */
  function Count(ds: seq<string>, s: set<string>): nat {
    if ds == [] then 0 else Count(ds[..|ds| - 1], s) + (if ds[|ds| - 1] in s then 1 else 0)
  }

  lemma {:induction false} CountZero(ds: seq<string>, s: set<string>)
    ensures Count(ds, s) == 0 <==> forall d :: d in ds ==> d !in s
  {
    if ds != [] {
      CountZero(ds[..|ds| - 1], s);
      assert ds == ds[..|ds| - 1] + [ds[|ds| - 1]];
    }
  }

  lemma {:induction false} CountRemove(ds: seq<string>, s: set<string>, x: string)
    requires x in s
    ensures Count(ds, s - {x}) == Count(ds, s) - multiset(ds)[x]
  {
    if ds != [] {
      CountRemove(ds[..|ds| - 1], s, x);
      assert ds == ds[..|ds| - 1] + [ds[|ds| - 1]];
    }
  }

  /** With everything before level `k` visited, no dependency of `n` is outstanding iff no chain of k+1 steps starts at `n`. */
  lemma NoneOutstanding(g: DependencyMap, n: string, k: nat)
    requires n in g
    ensures Count(g[n], Waiting(g, k)) == 0 <==> !HasChain(g, n, k + 1)
  {
    CountZero(g[n], Waiting(g, k));
    if HasChain(g, n, k + 1) {
      var d :| DependsOn(g, n, d) && HasChain(g, d, k);
      assert d in Waiting(g, k);
    }
    if d :| d in g[n] && d in Waiting(g, k) {
      assert DependsOn(g, n, d);
    }
  }

  function Times(s: seq<string>, x: string): nat {
    multiset(s)[x]
  }

  /** How often each node in `done` declares `x`, which is how often it is listed among `x`'s dependents. */
  function Declared(g: DependencyMap, done: set<string>, x: string, m: string): nat {
    if m in done && m in g then Times(g[m], x) else 0
  }

  ghost predicate IsDependents(g: DependencyMap, dependents: map<string, seq<string>>, done: set<string>) {
    && dependents.Keys == g.Keys
    && forall x, m :: x in g ==> Times(dependents[x], m) == Declared(g, done, x, m)
  }

  /** As above, with the first `i` declarations of `n` added. */
  ghost predicate IsPartial(g: DependencyMap, dependents: map<string, seq<string>>, done: set<string>, n: string, i: nat) {
    && dependents.Keys == g.Keys && n in g && n !in done && i <= |g[n]|
    && forall x, m :: x in g ==>
      Times(dependents[x], m) == if m == n then Times(g[n][..i], x) else Declared(g, done, x, m)
  }

  function AddEntry(dependents: map<string, seq<string>>, d: string, n: string): map<string, seq<string>> {
    if d in dependents then dependents[d := dependents[d] + [n]] else dependents
  }

  lemma AddEntryTimes(dependents: map<string, seq<string>>, d: string, n: string, x: string, m: string)
    requires x in dependents
    ensures Times(AddEntry(dependents, d, n)[x], m) == Times(dependents[x], m) + (if x == d && m == n then 1 else 0)
  {
    AppendCount(dependents[x], n, m);
  }

  lemma AddEntryStep(g: DependencyMap, dependents: map<string, seq<string>>, done: set<string>, n: string, i: nat)
    requires IsPartial(g, dependents, done, n, i) && i < |g[n]|
    ensures IsPartial(g, AddEntry(dependents, g[n][i], n), done, n, i + 1)
  {
    var d := g[n][i];
    forall x, m | x in g
      ensures Times(AddEntry(dependents, d, n)[x], m)
           == if m == n then Times(g[n][..i + 1], x) else Declared(g, done, x, m)
    {
      AddEntryTimes(dependents, d, n, x, m);
      AppendCount(g[n][..i], d, x);
      assert g[n][..i + 1] == g[n][..i] + [d];
    }
  }

  lemma PartialDone(g: DependencyMap, dependents: map<string, seq<string>>, done: set<string>, n: string)
    requires n in g && IsPartial(g, dependents, done, n, |g[n]|)
    ensures IsDependents(g, dependents, done + {n})
  {
    assert g[n][..|g[n]|] == g[n];
  }

  lemma PartialStart(g: DependencyMap, dependents: map<string, seq<string>>, done: set<string>, n: string)
    requires n in g && n !in done && IsDependents(g, dependents, done)
    ensures IsPartial(g, dependents, done, n, 0)
  {
  }

  method CollectDependents(g: DependencyMap) returns (dependents: map<string, seq<string>>)
    ensures IsDependents(g, dependents, g.Keys)
  {
    dependents := map n | n in g :: [];
    var pending := g.Keys;
    while pending != {}
      invariant pending <= g.Keys
      invariant IsDependents(g, dependents, g.Keys - pending)
    {
      var n :| n in pending;
      PartialStart(g, dependents, g.Keys - pending, n);
      for i := 0 to |g[n]|
        invariant IsPartial(g, dependents, g.Keys - pending, n, i)
      {
        AddEntryStep(g, dependents, g.Keys - pending, n, i);
        dependents := AddEntry(dependents, g[n][i], n);
      }
      PartialDone(g, dependents, g.Keys - pending, n);
      assert g.Keys - (pending - {n}) == g.Keys - pending + {n};
      pending := pending - {n};
    }
  }

  /** `next` collects the nodes whose count has gone from positive to zero since the level began. */
  ghost predicate Collected(g: DependencyMap, start: map<string, int>, counts: map<string, int>, next: seq<string>) {
    && g.Keys == start.Keys == counts.Keys
    && forall n :: n in next <==> n in g && start[n] > 0 && counts[n] == 0
  }

  /** Every count is the number of dependency entries still in `waiting`. */
  ghost predicate CountsMatch(g: DependencyMap, start: map<string, int>, counts: map<string, int>, waiting: set<string>) {
    && g.Keys == start.Keys == counts.Keys
    && forall n :: n in g ==> counts[n] == Count(g[n], waiting) <= start[n]
  }

  /** The counts midway: `t` entries of the sorted dependents have been handled. */
  ghost predicate CountsMidway(g: DependencyMap, counts: map<string, int>, counts': map<string, int>, sorted: seq<string>, t: nat) {
    && g.Keys == counts.Keys == counts'.Keys && t <= |sorted|
    && forall n :: n in g ==> counts'[n] == counts[n] - Times(sorted[..t], n)
  }

  lemma MidwayStep(g: DependencyMap, counts: map<string, int>, counts': map<string, int>, sorted: seq<string>, t: nat)
    requires CountsMidway(g, counts, counts', sorted, t) && t < |sorted| && sorted[t] in g
    requires Times(sorted, sorted[t]) <= counts[sorted[t]]
    ensures CountsMidway(g, counts, counts'[sorted[t] := counts'[sorted[t]] - 1], sorted, t + 1)
    ensures counts'[sorted[t]] > 0
  {
    var n := sorted[t];
    var after := counts'[n := counts'[n] - 1];
    assert sorted[..t + 1] == sorted[..t] + [n];
    forall m | m in g ensures after[m] == counts[m] - Times(sorted[..t + 1], m) {
      AppendCount(sorted[..t], n, m);
    }
    assert sorted == sorted[..t + 1] + sorted[t + 1..];
    assert Times(sorted, n) == Times(sorted[..t + 1], n) + Times(sorted[t + 1..], n);
    AppendCount(sorted[..t], n, n);
  }

  lemma VisitedCounts(g: DependencyMap, x: string, dependents: seq<string>, waiting: set<string>, n: string)
    requires n in g && x in waiting
    requires Times(dependents, n) == Times(g[n], x)
    ensures Count(g[n], waiting - {x}) == Count(g[n], waiting) - Times(dependents, n)
  {
    CountRemove(g[n], waiting, x);
  }

  /** Handling one dependent: its count falls by one and it is collected when it reaches zero. */
  lemma CollectStep(g: DependencyMap, start: map<string, int>, counts: map<string, int>, next: seq<string>, n: string)
    requires Collected(g, start, counts, next) && n in g && 0 < counts[n] <= start[n]
    ensures Collected(g, start, counts[n := counts[n] - 1], if counts[n] == 1 then next + [n] else next)
  {
  }

  /** Visiting `x` lowers the counts of the nodes that depend on it and collects those that reach zero. */
  method VisitNode(g: DependencyMap, x: string, dependents: seq<string>, ghost waiting: set<string>,
                   ghost start: map<string, int>, counts: map<string, int>, next: seq<string>)
    returns (counts': map<string, int>, next': seq<string>)
    requires x in waiting
    requires forall n :: Times(dependents, n) == Declared(g, g.Keys, x, n)
    requires CountsMatch(g, start, counts, waiting) && Collected(g, start, counts, next)
    ensures CountsMatch(g, start, counts', waiting - {x}) && Collected(g, start, counts', next')
  {
    var sorted := SortIds(dependents);
    assert forall n :: Times(sorted, n) == Times(dependents, n);
    counts', next' := counts, next;
    for t := 0 to |sorted|
      invariant CountsMidway(g, counts, counts', sorted, t)
      invariant Collected(g, start, counts', next')
    {
      var n := sorted[t];
      assert Times(sorted, n) > 0 by { assert n in multiset(sorted); }
      VisitedCounts(g, x, dependents, waiting, n);
      MidwayStep(g, counts, counts', sorted, t);
      CollectStep(g, start, counts', next', n);
      counts' := counts'[n := counts'[n] - 1];
      if counts'[n] == 0 {
        next' := next' + [n];
      }
    }
    assert sorted[..|sorted|] == sorted;
    forall n | n in g ensures counts'[n] == Count(g[n], waiting - {x}) <= start[n] {
      VisitedCounts(g, x, dependents, waiting, n);
    }
  }

  /** The nodes collected while level `k` is visited are the next level. */
  lemma CollectedIsNextLevel(g: DependencyMap, k: nat, start: map<string, int>, counts: map<string, int>, next: seq<string>)
    requires CountsMatch(g, start, start, Waiting(g, k)) && CountsMatch(g, start, counts, Waiting(g, k + 1))
    requires Collected(g, start, counts, next)
    ensures Elements(next) == LevelSet(g, k + 1)
  {
    forall n ensures n in Elements(next) <==> n in LevelSet(g, k + 1) {
      if n in g {
        NoneOutstanding(g, n, k);
        NoneOutstanding(g, n, k + 1);
      }
    }
  }

  method VisitLevel(g: DependencyMap, dependents: map<string, seq<string>>, current: seq<string>, ghost waiting: set<string>,
                    counts: map<string, int>, visited: set<string>)
    returns (next: seq<string>, counts': map<string, int>, visited': set<string>)
    requires IsDependents(g, dependents, g.Keys)
    requires Distinct(current) && Elements(current) <= waiting <= g.Keys
    requires CountsMatch(g, counts, counts, waiting)
    ensures visited' == visited + Elements(current)
    ensures CountsMatch(g, counts, counts', waiting - Elements(current)) && Collected(g, counts, counts', next)
  {
    next, counts', visited' := [], counts, visited;
    ghost var rest := waiting;
    for i := 0 to |current|
      invariant visited' == visited + Elements(current[..i]) && rest == waiting - Elements(current[..i])
      invariant CountsMatch(g, counts, counts', rest) && Collected(g, counts, counts', next)
    {
      var x := current[i];
      assert x in Elements(current);
      assert current[..i + 1] == current[..i] + [x];
      AppendDistinct(current[..i], [x]);
      visited' := visited' + {x};
      counts', next := VisitNode(g, x, dependents[x], rest, counts, counts', next);
      rest := rest - {x};
    }
    assert current[..|current|] == current;
  }

  /** Before any visit, the counts match and the nodes with count zero are level 0. */
  lemma InitialCounts(g: DependencyMap, counts: map<string, int>)
    requires counts.Keys == g.Keys && forall n :: n in g ==> counts[n] == Count(g[n], g.Keys)
    ensures Waiting(g, 0) == g.Keys && CountsMatch(g, counts, counts, Waiting(g, 0))
    ensures (set n | n in g && counts[n] == 0) == LevelSet(g, 0)
  {
    assert Waiting(g, 0) == g.Keys;
    forall n | n in g ensures counts[n] == 0 <==> n in LevelSet(g, 0) { NoneOutstanding(g, n, 0); }
  }

  lemma LevelVisited(g: DependencyMap, k: nat, start: map<string, int>, counts: map<string, int>, next: seq<string>)
    requires CountsMatch(g, start, start, Waiting(g, k))
    requires CountsMatch(g, start, counts, Waiting(g, k) - LevelSet(g, k)) && Collected(g, start, counts, next)
    ensures Elements(next) == LevelSet(g, k + 1)
    ensures CountsMatch(g, counts, counts, Waiting(g, k + 1))
    ensures g.Keys - Waiting(g, k) + LevelSet(g, k) == g.Keys - Waiting(g, k + 1)
  {
    WaitingShrinks(g, k);
    assert LevelSet(g, k) <= Waiting(g, k) <= g.Keys;
    CollectedIsNextLevel(g, k, start, counts, next);
  }

  lemma LevelsUnfold(g: DependencyMap, k: nat, levels: seq<seq<string>>, current: seq<string>)
    requires current != [] && current == SortedSet(LevelSet(g, k))
    ensures |Waiting(g, k + 1)| < |Waiting(g, k)|
    ensures levels + LevelsFrom(g, k) == levels + [current] + LevelsFrom(g, k + 1)
  {
    assert current[0] in Elements(current);
    WaitingShrinks(g, k);
  }

  lemma LevelsStart(g: DependencyMap)
    ensures [] + LevelsFrom(g, 0) == Levels(g)
  {
    hide LevelsFrom;
  }

  lemma LevelsStop(g: DependencyMap, k: nat, current: seq<string>, levels: seq<seq<string>>)
    requires current == [] && current == SortedSet(LevelSet(g, k))
    ensures LevelSet(g, k) == {} && levels + LevelsFrom(g, k) == levels
  {
    hide LevelSet;
    assert Elements(current) == {};
  }

  lemma WaitingWithin(g: DependencyMap, k: nat)
    ensures LevelSet(g, k) <= Waiting(g, k) <= g.Keys
  {
    hide HasChain;
  }

  method StableTopologicalLevels(g: DependencyMap)
    returns (levels: seq<seq<string>>, cyclicNodes: seq<string>)
    ensures levels == Levels(g)
    ensures cyclicNodes == SortedSet(CyclicSet(g))
  {
    hide *;
    var counts: map<string, int> := map n | n in g :: Count(g[n], g.Keys);
    var dependents := CollectDependents(g);
    InitialCounts(g, counts);
    LevelsStart(g);
    var current := SortSet(set n | n in g && counts[n] == 0);
    levels := [];
    var visited: set<string> := {};
    ghost var k: nat := 0;
    while current != []
      invariant levels + LevelsFrom(g, k) == Levels(g)
      invariant current == SortedSet(LevelSet(g, k)) && visited == g.Keys - Waiting(g, k)
      invariant CountsMatch(g, counts, counts, Waiting(g, k))
      decreases |Waiting(g, k)|
    {
      LevelsUnfold(g, k, levels, current);
      WaitingWithin(g, k);
      levels := levels + [current];
      var next;
      ghost var start := counts;
      next, counts, visited := VisitLevel(g, dependents, current, Waiting(g, k), counts, visited);
      LevelVisited(g, k, start, counts, next);
      current := SortSet(Elements(next));
      k := k + 1;
    }
    LevelsStop(g, k, current, levels);
    StuckIsCyclic(g, k);
    WaitingWithin(g, k);
    assert g.Keys - visited == CyclicSet(g);
    cyclicNodes := SortSet(g.Keys - visited);
  }

  // ----- Dependency closure -----

  ghost predicate Reaches(g: DependencyMap, a: string, b: string) {
    exists c :: IsChain(g, c) && c[0] == a && c[|c| - 1] == b
  }

  ghost function ReachableFrom(g: DependencyMap, roots: seq<string>): set<string> {
    set b | b in g && exists a :: a in roots && Reaches(g, a, b)
  }

  lemma ReachesSelf(g: DependencyMap, a: string)
    requires a in g
    ensures Reaches(g, a, a)
  {
    assert IsChain(g, [a]);
  }

  lemma ReachesStep(g: DependencyMap, a: string, b: string, d: string)
    requires Reaches(g, a, b) && DependsOn(g, b, d)
    ensures Reaches(g, a, d)
  {
    var c :| IsChain(g, c) && c[0] == a && c[|c| - 1] == b;
    var w := c + [d];
    forall i | 0 <= i < |w| - 1 ensures DependsOn(g, w[i], w[i + 1]) {
      if i < |c| - 1 { assert DependsOn(g, c[i], c[i + 1]); }
    }
    assert IsChain(g, w);
  }

  /** A set closed under dependencies, with `a` inside, contains everything `a` reaches. */
  lemma {:induction false} ClosedContainsWalk(g: DependencyMap, s: set<string>, c: seq<string>)
    requires IsChain(g, c) && c[0] in s
    requires forall n, d :: n in s && DependsOn(g, n, d) ==> d in s
    ensures c[|c| - 1] in s
  {
    if |c| > 1 {
      assert DependsOn(g, c[0], c[1]);
      SubWalk(g, c, 1, |c|);
      ClosedContainsWalk(g, s, c[1..]);
    }
  }

  /** What the worklist has established: found nodes are reachable, and nothing reachable is lost. */
  ghost predicate ClosureProgress(g: DependencyMap, roots: seq<string>, reachable: set<string>, pending: seq<string>) {
    && reachable <= ReachableFrom(g, roots)
    && (forall n :: n in pending && n in g ==> n in ReachableFrom(g, roots))
    && (forall r :: r in roots && r in g ==> r in reachable || r in pending)
    && (forall n, d :: n in reachable && DependsOn(g, n, d) ==> d in reachable || d in pending)
  }

  function PresentDependencies(g: DependencyMap, n: string): seq<string>
    requires n in g
  {
    Filter(d => d in g, g[n])
  }

  lemma ClosureVisit(g: DependencyMap, roots: seq<string>, reachable: set<string>, pending: seq<string>, rest: seq<string>, n: string)
    requires ClosureProgress(g, roots, reachable, pending) && pending == rest + [n] && reachable <= g.Keys
    requires n in g && n !in reachable
    ensures ClosureProgress(g, roots, reachable + {n}, rest + PresentDependencies(g, n))
    ensures |g.Keys - (reachable + {n})| < |g.Keys - reachable|
  {
    hide IsChain, Filter;
    var present := PresentDependencies(g, n);
    assert forall x :: x in pending <==> x in rest || x == n;
    assert forall x :: x in rest + present <==> x in rest || x in present;
    var root :| root in roots && Reaches(g, root, n);
    forall d | d in present ensures d in ReachableFrom(g, roots) {
      ReachesStep(g, root, n, d);
    }
    assert g.Keys - (reachable + {n}) == (g.Keys - reachable) - {n};
  }

  lemma ClosureStart(g: DependencyMap, roots: seq<string>)
    ensures ClosureProgress(g, roots, {}, roots)
  {
    forall n | n in roots && n in g ensures Reaches(g, n, n) { ReachesSelf(g, n); }
  }

  lemma ClosureSkip(g: DependencyMap, roots: seq<string>, reachable: set<string>, pending: seq<string>, rest: seq<string>, n: string)
    requires ClosureProgress(g, roots, reachable, pending) && pending == rest + [n]
    requires n in reachable || n !in g
    ensures ClosureProgress(g, roots, reachable, rest)
  {
    assert forall x :: x in pending <==> x in rest || x == n;
  }

  lemma ClosureDone(g: DependencyMap, roots: seq<string>, reachable: set<string>)
    requires ClosureProgress(g, roots, reachable, [])
    ensures reachable == ReachableFrom(g, roots)
  {
    forall b | b in ReachableFrom(g, roots) ensures b in reachable {
      var a :| a in roots && Reaches(g, a, b);
      var c :| IsChain(g, c) && c[0] == a && c[|c| - 1] == b;
      ClosedContainsWalk(g, reachable, c);
    }
  }

  method DependencyClosure(roots: seq<string>, g: DependencyMap) returns (reachable: set<string>)
    ensures reachable == ReachableFrom(g, roots)
  {
    reachable := {};
    var pending := roots;
    hide ReachableFrom;
    ClosureStart(g, roots);
    while pending != []
      invariant reachable <= g.Keys
      invariant ClosureProgress(g, roots, reachable, pending)
      decreases |g.Keys - reachable|, |pending|
    {
      var n := pending[|pending| - 1];
      var rest := pending[..|pending| - 1];
      if n in reachable || n !in g {
        ClosureSkip(g, roots, reachable, pending, rest, n);
        pending := rest;
      } else {
        ClosureVisit(g, roots, reachable, pending, rest, n);
        reachable := reachable + {n};
        pending := rest + PresentDependencies(g, n);
      }
    }
    ClosureDone(g, roots, reachable);
  }

  // ----- A rooted acyclic graph -----

  /** Every key is reachable from the root and no dependency cycle exists. */
  ghost predicate RootedAcyclic(g: DependencyMap, root: string) {
    root in g && CyclicSet(g) == {} && ReachableFrom(g, [root]) == g.Keys
  }

  lemma SingletonList<T>(s: seq<T>, x: T)
    requires Distinct(s) && Elements(s) == {x}
    ensures s == [x]
  {
    DistinctIffSetSize(s);
    assert s[0] in Elements(s);
  }

  /** The flattened levels list every node once and the last level is the root alone. */
  lemma RootedAcyclicLevels(g: DependencyMap, root: string)
    requires RootedAcyclic(g, root)
    ensures Levels(g) != [] && Levels(g)[|Levels(g)| - 1] == [root]
    ensures Distinct(Flatten(Levels(g))) && Elements(Flatten(Levels(g))) == g.Keys
  {
    FlattenAllLevels(g);
    CyclicIffInNoLevel(g, root);
    var top := |Levels(g)| - 1;
    LevelElements(g, top);
    LevelsEnd(g);
    hide Levels, Flatten, LevelSet, CyclicSet, RootedAcyclic;
    forall n | n in Levels(g)[top] ensures n == root { OnlyRootOnTop(g, root, top, n); }
    assert Levels(g)[top] != [];
    assert Levels(g)[top][0] in Levels(g)[top];
    assert Elements(Levels(g)[top]) == {root};
    SingletonList(Levels(g)[top], root);
  }

  /** Whatever the root reaches by at least one step has a shorter longest chain than the root. */
  lemma OnlyRootOnTop(g: DependencyMap, root: string, top: nat, n: string)
    requires RootedAcyclic(g, root) && n in g && HasChain(g, n, top) && !HasChain(g, root, top + 1)
    ensures n == root
  {
    hide HasChain, CyclicSet;
    assert n in ReachableFrom(g, [root]);
    assert Reaches(g, root, n);
    var c :| IsChain(g, c) && c[0] == root && c[|c| - 1] == n;
    WalkContinues(g, c, top);
    if |c| > 1 {
      ChainShortensTo(g, root, |c| - 1 + top, top + 1);
    }
  }
}
