/** Snapshots of the runtime history: what they depend on, and what leaves them and placement unchanged. */
module RuntimeSnapshot {
  import opened Collections
  import opened Reals
  import opened Ordering
  import opened Permutations
  import opened PlanModel
  import opened RuntimeModel
  import opened RuntimeStore
  import opened RuntimeSummary
  import Placement

  datatype Snapshot = Snapshot(startedAt: int, endedAt: int, traceCount: nat, entries: seq<SummaryEntry>)

  datatype SnapshotError = WindowNotPositive | UnreadableTrace(key: TraceKey)

  /** Only an explicit `placement_eligible: false` keeps a trace out. */
  predicate Eligible(t: Trace) {
    t.control.None? || t.control.value.placementEligible
  }

  function Counts(from: int, to: int): Trace -> bool {
    (t: Trace) => t.finishedAt.At? && from <= t.finishedAt.instant <= to && Eligible(t)
  }

  function Included(ts: seq<Trace>, from: int, to: int): (r: seq<Trace>)
    ensures Readable(r)
  {
    Filter(Counts(from, to), ts)
  }

  function SnapshotOf(ts: seq<Trace>, from: int, to: int): Snapshot {
    Snapshot(from, to, |Included(ts, from, to)|, Entries(Included(ts, from, to)))
  }

  // ----- Computing it -----

  lemma GroupStep(ts: seq<Trace>, i: nat, k: GroupKey)
    requires i < |ts|
    ensures Group(ts[..i + 1], k) == Group(ts[..i], k) + (if GroupOf(ts[i]) == k then [ts[i]] else [])
    ensures GroupKeys(ts[..i + 1]) == GroupKeys(ts[..i]) + (if GroupOf(ts[i]) in GroupKeys(ts[..i]) then [] else [GroupOf(ts[i])])
  {
    assert ts[..i + 1][..i] == ts[..i];
  }

  lemma NoGroups(ts: seq<Trace>)
    requires ts == []
    ensures GroupKeys(ts) == [] && forall k :: Group(ts, k) == []
  {
  }

  /** Appends each trace to its group; a dictionary lists its keys in the order they were first used. */
  method GroupTraces(ts: seq<Trace>) returns (keys: seq<GroupKey>, groups: map<GroupKey, seq<Trace>>)
    ensures keys == GroupKeys(ts) && forall k :: k in keys <==> k in groups
    ensures forall k :: k in groups ==> groups[k] == Group(ts, k)
  {
    hide GroupKeys, Group, GroupOf;
    keys, groups := [], map[];
    NoGroups(ts[..0]);
    for i := 0 to |ts|
      invariant keys == GroupKeys(ts[..i]) && forall k :: k in keys <==> k in groups
      invariant forall k :: k in groups ==> groups[k] == Group(ts[..i], k)
      invariant forall k :: k !in groups ==> Group(ts[..i], k) == []
    {
      var key := GroupOf(ts[i]);
      forall k
        ensures Group(ts[..i + 1], k) == Group(ts[..i], k) + (if key == k then [ts[i]] else [])
        ensures GroupKeys(ts[..i + 1]) == GroupKeys(ts[..i]) + (if key in GroupKeys(ts[..i]) then [] else [key])
      {
        GroupStep(ts, i, k);
      }
      if key !in groups {
        keys := keys + [key];
        groups := groups[key := []];
      }
      groups := groups[key := groups[key] + [ts[i]]];
    }
    assert ts[..|ts|] == ts;
  }

  method BuildSnapshot(ts: seq<Trace>, window: int, asOf: int) returns (r: Result<Snapshot, SnapshotError>)
    ensures r == Err(WindowNotPositive) <==> window <= 0
    ensures r.Ok? <==> window > 0 && Readable(ts)
    ensures r.Ok? ==> r.value == SnapshotOf(ts, asOf - window, asOf)
  {
    hide EntryFor, EntryLe, GroupKeys, Group, Counts;
    if window <= 0 {
      return Err(WindowNotPositive);
    }
    for i := 0 to |ts|
      invariant Readable(ts[..i])
    {
      if ts[i].finishedAt.Unparsable? {
        assert ts[i] in ts;
        return Err(UnreadableTrace(KeyOfTrace(ts[i])));
      }
      assert ts[..i + 1] == ts[..i] + [ts[i]];
    }
    assert ts[..|ts|] == ts;
    var included := Included(ts, asOf - window, asOf);
    var keys, groups := GroupTraces(included);
    GroupKeysAre(included);
    var entries: seq<SummaryEntry> := [];
    for i := 0 to |keys|
      invariant |entries| == i && forall j :: 0 <= j < i ==> entries[j] == RawEntries(included)[j]
    {
      var k := keys[i];
      assert k in keys;
      RawEntryAt(included, i);
      entries := entries + [EntryFor(k, groups[k])];
    }
    assert entries == RawEntries(included);
    return Ok(Snapshot(asOf - window, asOf, |included|, SortBy(EntryLe, entries)));
  }

  // ----- Independence of the storage order -----

  /** The statistics of a group do not depend on the order of its traces. */
  lemma EntryIgnoresOrder(k: GroupKey, g: seq<Trace>, h: seq<Trace>)
    requires multiset(g) == multiset(h) && g != [] && Readable(g) && Consistent(g)
    ensures h != [] && Readable(h) && EntryFor(k, g) == EntryFor(k, h)
  {
    SameSize(g, h);
    hide Round6, Percentile, SumReals, Sum, Map, Filter, SortBy;
    DurationsPermuted(g, h);
    FilterPermuted(HasStatus(TraceStatus.Succeeded), g, h);
    FilterPermuted(HasStatus(TraceStatus.Failed), g, h);
    FilterPermuted(HasStatus(Skipped), g, h);
    FilterPermuted(Retried, g, h);
    FilterPermuted(HasError, g, h);
    MapPermuted(RunIdOf, g, h);
    SameSize(Map(RunIdOf, g), Map(RunIdOf, h));
    MapPermuted(RetryCountOf, g, h);
    SumPermuted(Map(RetryCountOf, g), Map(RetryCountOf, h));
    LatestUnique(g, h);
    DurationsSorted(g);
    DurationsSorted(h);
    hide Latest, Durations, HasStatus;
  }

  lemma DurationsPermuted(g: seq<Trace>, h: seq<Trace>)
    requires multiset(g) == multiset(h)
    ensures Durations(g) == Durations(h)
  {
    RealLeIsTotalPreorder();
    MapPermuted(DurationOf, g, h);
    SortByPermutation(RealLe, Map(DurationOf, g), Map(DurationOf, h));
  }

  lemma LatestUnique(g: seq<Trace>, h: seq<Trace>)
    requires g != [] && h != [] && Readable(g) && Readable(h) && Consistent(g) && forall t :: t in g <==> t in h
    ensures Latest(g) == Latest(h)
  {
    NotLaterTotal(Latest(g), Latest(h));
  }

  /** Two different groups that sort as equal, because an absent part counts as empty text. */
  predicate Conflated(k: GroupKey, l: GroupKey) {
    k != l && SortKey(k) == SortKey(l)
  }

  ghost predicate NoneConflated(ts: seq<Trace>) {
    forall s, t :: s in ts && t in ts ==> !Conflated(GroupOf(s), GroupOf(t))
  }

  lemma GroupPermuted(ts: seq<Trace>, us: seq<Trace>, k: GroupKey)
    requires multiset(ts) == multiset(us)
    ensures multiset(Group(ts, k)) == multiset(Group(us, k))
  {
    FilterPermuted((t: Trace) => GroupOf(t) == k, ts, us);
  }

  lemma GroupConsistent(ts: seq<Trace>, k: GroupKey)
    requires Consistent(ts) && Readable(ts)
    ensures Consistent(Group(ts, k)) && Readable(Group(ts, k))
  {
  }

  /** The unsorted entries of rearranged traces are the same entries, each once. */
  lemma RawEntriesSame(ts: seq<Trace>, us: seq<Trace>)
    requires multiset(ts) == multiset(us) && Readable(ts) && Consistent(ts) && Readable(us)
    ensures forall e :: e in RawEntries(ts) ==> e in RawEntries(us)
  {
    hide EntryFor, Group, Consistent, Readable, GroupKeys;
    GroupKeysAre(ts);
    GroupKeysAre(us);
    forall e | e in RawEntries(ts) ensures e in RawEntries(us) {
      var i :| 0 <= i < |RawEntries(ts)| && RawEntries(ts)[i] == e;
      var k := GroupKeys(ts)[i];
      RawEntryAt(ts, i);
      GroupPermuted(ts, us, k);
      GroupConsistent(ts, k);
      EntryIgnoresOrder(k, Group(ts, k), Group(us, k));
      assert k in GroupKeys(us);
      var j :| 0 <= j < |GroupKeys(us)| && GroupKeys(us)[j] == k;
      RawEntryAt(us, j);
    }
  }

  lemma RawEntryKeys(ts: seq<Trace>)
    requires Readable(ts)
    ensures |RawEntries(ts)| == |GroupKeys(ts)| && forall i :: 0 <= i < |RawEntries(ts)| ==> RawEntries(ts)[i].key == GroupKeys(ts)[i]
    ensures Distinct(RawEntries(ts))
    ensures forall x, y :: x in RawEntries(ts) && y in RawEntries(ts) && x.key == y.key ==> x == y
  {
    GroupKeysAre(ts);
    hide EntryFor, Group, Readable, GroupKeys;
    forall i | 0 <= i < |RawEntries(ts)| ensures RawEntries(ts)[i].key == GroupKeys(ts)[i] {
      var k := GroupKeys(ts)[i];
      RawEntryAt(ts, i);
      EntryCount(k, Group(ts, k));
    }
  }

  lemma GroupMember(ts: seq<Trace>, k: GroupKey) returns (t: Trace)
    requires Group(ts, k) != []
    ensures t in ts && GroupOf(t) == k
  {
    t := Group(ts, k)[0];
    assert t in Group(ts, k);
  }

  lemma EntriesToldApart(ts: seq<Trace>)
    requires Readable(ts) && NoneConflated(ts)
    ensures forall x, y :: x in RawEntries(ts) && y in RawEntries(ts) && EntryLe(x, y) && EntryLe(y, x) ==> x == y
  {
    hide *;
    RawEntryKeys(ts);
    forall x, y | x in RawEntries(ts) && y in RawEntries(ts) && EntryLe(x, y) && EntryLe(y, x) ensures x == y {
      var s := EntryMember(ts, x);
      var t := EntryMember(ts, y);
      TiesShareKey(x, y);
      NotConflatedPair(ts, s, t);
    }
  }

  lemma EntryMember(ts: seq<Trace>, x: SummaryEntry) returns (t: Trace)
    requires Readable(ts) && x in RawEntries(ts)
    ensures t in ts && GroupOf(t) == x.key
  {
    hide RawEntries, Group, Readable, GroupKeys, GroupOf;
    GroupKeysAre(ts);
    RawEntryKeys(ts);
    var i :| 0 <= i < |RawEntries(ts)| && RawEntries(ts)[i] == x;
    assert GroupKeys(ts)[i] in GroupKeys(ts);
    t := GroupMember(ts, x.key);
  }

  lemma TiesShareKey(x: SummaryEntry, y: SummaryEntry)
    requires EntryLe(x, y) && EntryLe(y, x)
    ensures SortKey(x.key) == SortKey(y.key)
  {
    hide SortKey, TextsLe;
    TextsLeTotal(SortKey(x.key), SortKey(y.key));
  }

  lemma NotConflatedPair(ts: seq<Trace>, s: Trace, t: Trace)
    requires NoneConflated(ts) && s in ts && t in ts && SortKey(GroupOf(s)) == SortKey(GroupOf(t))
    ensures GroupOf(s) == GroupOf(t)
  {
    hide SortKey, GroupOf;
    assert !Conflated(GroupOf(s), GroupOf(t));
  }

  lemma EntriesIgnoreOrder(ts: seq<Trace>, us: seq<Trace>)
    requires multiset(ts) == multiset(us) && Readable(ts) && Consistent(ts) && Readable(us) && NoneConflated(ts)
    ensures Entries(ts) == Entries(us)
  {
    hide RawEntries, EntryLe, NoneConflated, Readable;
    EntryLeIsTotalPreorder();
    ConsistentPermuted(ts, us);
    RawEntriesSame(ts, us);
    RawEntriesSame(us, ts);
    RawEntryKeys(ts);
    RawEntryKeys(us);
    DistinctMultiset(RawEntries(ts), RawEntries(us));
    EntriesToldApart(ts);
    SortByPermutation(EntryLe, RawEntries(ts), RawEntries(us));
  }

  lemma ConsistentPermuted(ts: seq<Trace>, us: seq<Trace>)
    requires multiset(ts) == multiset(us) && Consistent(ts)
    ensures Consistent(us)
  {
    SameSize(ts, us);
  }

  // ----- Where the order shows -----

  lemma {:induction false} FirstKey(ts: seq<Trace>, n: nat)
    requires 0 < n <= |ts|
    ensures GroupKeys(ts[..n]) != [] && GroupKeys(ts[..n])[0] == GroupOf(ts[0])
  {
    if n == 1 {
      GroupStep(ts, 0, GroupOf(ts[0]));
      NoGroups(ts[..0]);
    } else {
      FirstKey(ts, n - 1);
      GroupStep(ts, n - 1, GroupOf(ts[0]));
    }
  }

  /** Any group can be made the first one listed. */
  lemma BringForward(ts: seq<Trace>, k: GroupKey, l: GroupKey) returns (us: seq<Trace>)
    requires Readable(ts) && Group(ts, k) != [] && Group(ts, l) != [] && k != l
    ensures multiset(us) == multiset(ts) && Readable(us) && Before(GroupKeys(us), k, l)
  {
    hide Filter, GroupKeys, GroupOf;
    us := Forward(ts, k);
    ForwardPermutes(ts, k);
    ForwardStarts(ts, k);
    ForwardHas(ts, k, l);
    GroupKeysAre(us);
    FirstKey(us, |us|);
    assert us[..|us|] == us;
    var j :| 0 <= j < |GroupKeys(us)| && GroupKeys(us)[j] == l;
    assert GroupKeys(us)[0] == k;
  }

  function Forward(ts: seq<Trace>, k: GroupKey): seq<Trace> {
    Group(ts, k) + Filter((t: Trace) => GroupOf(t) != k, ts)
  }

  lemma ForwardPermutes(ts: seq<Trace>, k: GroupKey)
    requires Readable(ts)
    ensures multiset(Forward(ts, k)) == multiset(ts) && Readable(Forward(ts, k))
  {
    hide Filter;
    var p, q := (t: Trace) => GroupOf(t) == k, (t: Trace) => GroupOf(t) != k;
    SplitPermutes(p, q, ts);
    SameSize(ts, Forward(ts, k));
  }

  lemma ForwardStarts(ts: seq<Trace>, k: GroupKey)
    requires Group(ts, k) != []
    ensures Forward(ts, k) != [] && GroupOf(Forward(ts, k)[0]) == k
  {
    hide Filter;
    assert Group(ts, k)[0] in Group(ts, k);
  }

  lemma ForwardHas(ts: seq<Trace>, k: GroupKey, l: GroupKey)
    requires Readable(ts) && Group(ts, l) != []
    ensures Group(Forward(ts, k), l) != []
  {
    hide Filter, Forward;
    ForwardPermutes(ts, k);
    SameSize(ts, Forward(ts, k));
    var t := GroupMember(ts, l);
    GroupHas(Forward(ts, k), t);
  }

  /** Entries of groups that sort as equal keep the order in which the groups were first met. */
  lemma TiesKeepOrder(ts: seq<Trace>, k: GroupKey, l: GroupKey) returns (x: SummaryEntry, y: SummaryEntry)
    requires Readable(ts) && Before(GroupKeys(ts), k, l) && SortKey(k) == SortKey(l)
    ensures x.key == k && y.key == l && Before(Entries(ts), x, y)
  {
    hide RawEntries, GroupKeys, SortKey;
    RawEntryKeys(ts);
    var i, j :| 0 <= i < j < |GroupKeys(ts)| && GroupKeys(ts)[i] == k && GroupKeys(ts)[j] == l;
    x, y := RawEntries(ts)[i], RawEntries(ts)[j];
    TextsLeTotal(SortKey(k), SortKey(k));
    SortIsStable(EntryLe, RawEntries(ts), x, y);
  }

  lemma EntriesHaveDistinctKeys(ts: seq<Trace>)
    requires Readable(ts)
    ensures Distinct(Entries(ts)) && forall x, y :: x in Entries(ts) && y in Entries(ts) && x.key == y.key ==> x == y
  {
    hide RawEntries, EntryLe, Readable;
    RawEntryKeys(ts);
    EntryLeIsTotalPreorder();
    SortByElements(EntryLe, RawEntries(ts));
  }

  /** If two groups present sort as equal, some storage order gives a different list of entries. */
  lemma ConflationShows(ts: seq<Trace>, s: Trace, t: Trace) returns (us: seq<Trace>)
    requires Readable(ts) && s in ts && t in ts && Conflated(GroupOf(s), GroupOf(t))
    ensures multiset(us) == multiset(ts) && Readable(us) && Entries(us) != Entries(ts)
  {
    hide Entries, SortKey, Readable, GroupOf;
    var k, l := GroupOf(s), GroupOf(t);
    GroupHas(ts, s);
    GroupHas(ts, t);
    var vs := BringForward(ts, k, l);
    var ws := BringForward(ts, l, k);
    var x, y := TiesKeepOrder(vs, k, l);
    var y', x' := TiesKeepOrder(ws, l, k);
    EntriesHaveDistinctKeys(vs);
    OrdersDiffer(Entries(vs), Entries(ws), x, y, x', y');
    us := if Entries(vs) != Entries(ts) then vs else ws;
  }

  lemma GroupHas(ts: seq<Trace>, t: Trace)
    requires t in ts
    ensures Group(ts, GroupOf(t)) != []
  {
    assert t in Group(ts, GroupOf(t));
  }

  lemma OrderUnique(es: seq<SummaryEntry>, x: SummaryEntry, y: SummaryEntry)
    requires Distinct(es) && Before(es, x, y)
    ensures !Before(es, y, x)
  {
    var i, j :| 0 <= i < j < |es| && es[i] == x && es[j] == y;
    forall m, n | 0 <= m < n < |es| && es[m] == y ensures es[n] != x {
      assert m == j;
    }
  }

  lemma BeforeMembers(es: seq<SummaryEntry>, x: SummaryEntry, y: SummaryEntry)
    requires Before(es, x, y)
    ensures x in es && y in es
  {
  }

  lemma OrdersDiffer(es: seq<SummaryEntry>, fs: seq<SummaryEntry>, x: SummaryEntry, y: SummaryEntry, x': SummaryEntry, y': SummaryEntry)
    requires Distinct(es) && forall a, b :: a in es && b in es && a.key == b.key ==> a == b
    requires Before(es, x, y) && Before(fs, y', x') && x.key == x'.key && y.key == y'.key
    ensures es != fs
  {
    hide Before;
    OrderUnique(es, x, y);
    BeforeMembers(es, x, y);
    BeforeMembers(fs, y', x');
  }

  /** The entries depend only on which traces are stored exactly when no two groups present sort as equal. */
  lemma OrderFreeIff(ts: seq<Trace>)
    requires WellStored(ts)
    ensures NoneConflated(ts) <==>
      forall us :: multiset(us) == multiset(ts) && Readable(us) ==> Entries(us) == Entries(ts)
  {
    hide Entries, Conflated;
    if NoneConflated(ts) {
      forall us | multiset(us) == multiset(ts) && Readable(us) ensures Entries(us) == Entries(ts) {
        EntriesIgnoreOrder(ts, us);
      }
    } else {
      var s, t :| s in ts && t in ts && Conflated(GroupOf(s), GroupOf(t));
      var us := ConflationShows(ts, s, t);
    }
  }

  /** A concrete pair of groups that sort as equal: no implementation, and an implementation with an empty name. */
  lemma NoneAndEmptyConflate(cell: string, version: string)
    ensures Conflated(GroupKey(cell, version, None, None, None), GroupKey(cell, version, Some(""), None, None))
  {
  }

  // ----- Whole snapshots -----

  /** The snapshot of a window depends only on which traces are stored, unless two groups in it sort as equal. */
  lemma SnapshotIgnoresOrder(ts: seq<Trace>, us: seq<Trace>, from: int, to: int)
    requires WellStored(ts) && multiset(ts) == multiset(us) && NoneConflated(Included(ts, from, to))
    ensures SnapshotOf(ts, from, to) == SnapshotOf(us, from, to)
  {
    hide Entries, NoneConflated, Filter;
    FilterPermuted(Counts(from, to), ts, us);
    EntriesIgnoreOrder(Included(ts, from, to), Included(us, from, to));
  }

  /** Traces that are marked as not eligible for placement leave every snapshot as it was. */
  lemma MarkedLeaveNoMark(ts: seq<Trace>, marked: seq<Trace>, from: int, to: int)
    requires forall t :: t in marked ==> !Eligible(t)
    ensures SnapshotOf(ts + marked, from, to) == SnapshotOf(ts, from, to)
  {
    hide Entries, Filter;
    FilterAppend(Counts(from, to), ts, marked);
    FilterNone(Counts(from, to), marked);
    assert Included(ts, from, to) + [] == Included(ts, from, to);
  }

  /** Saving a batch again changes no snapshot. */
  lemma ResavedSnapshot(stored: seq<Trace>, batch: seq<Trace>, from: int, to: int)
    requires WellStored(stored) && Save(stored, batch).error.None?
    ensures SnapshotOf(Save(Save(stored, batch).stored, batch).stored, from, to) == SnapshotOf(Save(stored, batch).stored, from, to)
  {
    hide Save, SnapshotOf;
    ResaveIsIdempotent(stored, batch);
  }

  /** The whole snapshot conserves: entry counts add up to the snapshot's count and each entry is consistent. */
  lemma SnapshotConserves(ts: seq<Trace>, from: int, to: int)
    ensures var s := SnapshotOf(ts, from, to);
      && Sum(Map(CountOf, s.entries)) == s.traceCount
      && forall e :: e in s.entries ==>
           && e.succeededCount + e.failedCount + e.skippedCount == e.traceCount > 0
           && 0.0 <= e.minDuration <= e.p50 <= e.p95 <= e.p99 <= e.maxDuration
  {
    hide Entries, EntryFor, Sum, Map, Filter, Group, Readable;
    var included := Included(ts, from, to);
    EntriesConserve(included);
    forall e | e in Entries(included)
      ensures e.succeededCount + e.failedCount + e.skippedCount == e.traceCount
      ensures 0.0 <= e.minDuration <= e.p50 <= e.p95 <= e.p99 <= e.maxDuration
    {
      var k := EntryAt(included, e);
      EntryConserves(k, Group(included, k));
    }
  }

  // ----- Placement -----

  lemma {:induction false} HistoryFound(b: ServiceBinding, es: seq<SummaryEntry>)
    ensures var h := Placement.FindHistory(b, es);
      && (h.Some? ==> h.value in es && Placement.IsHistoryOf(h.value, b))
      && (h.None? ==> forall e :: e in es ==> !Placement.IsHistoryOf(e, b))
  {
    hide Placement.IsHistoryOf;
    if es != [] && !Placement.IsHistoryOf(es[0], b) {
      HistoryFound(b, es[1..]);
      assert es == [es[0]] + es[1..];
    }
  }

  lemma SameHistory(b: ServiceBinding, es: seq<SummaryEntry>, fs: seq<SummaryEntry>)
    requires forall e :: e in es <==> e in fs
    requires forall x, y :: x in es && y in es && x.key == y.key ==> x == y
    ensures Placement.FindHistory(b, es) == Placement.FindHistory(b, fs)
  {
    hide Placement.FindHistory;
    HistoryFound(b, es);
    HistoryFound(b, fs);
  }

  lemma SameSelection(policy: Placement.PlacementPolicy, m: Manifest, candidates: seq<ServiceBinding>,
                      es: seq<SummaryEntry>, fs: seq<SummaryEntry>)
    requires forall b :: Placement.FindHistory(b, es) == Placement.FindHistory(b, fs)
    ensures Placement.Select(policy, m, candidates, es) == Placement.Select(policy, m, candidates, fs)
  {
    var compatible := Placement.CompatibleCandidates(m, candidates);
    SameEvaluations(policy, compatible, es, fs);
    hide Placement.Evaluations, Placement.CompatibleCandidates, Placement.EvaluationLe, Placement.SelectionPool, SortBy;
  }

  lemma SameEvaluations(policy: Placement.PlacementPolicy, bindings: seq<ServiceBinding>, es: seq<SummaryEntry>, fs: seq<SummaryEntry>)
    requires forall b :: Placement.FindHistory(b, es) == Placement.FindHistory(b, fs)
    ensures Placement.Evaluations(policy, bindings, es) == Placement.Evaluations(policy, bindings, fs)
  {
    hide Placement.FindHistory, Map;
    forall i | 0 <= i < |bindings|
      ensures Placement.Evaluations(policy, bindings, es)[i] == Placement.Evaluations(policy, bindings, fs)[i]
    {
      assert Placement.Evaluate(policy, bindings[i], es) == Placement.Evaluate(policy, bindings[i], fs);
    }
  }

  /** Placement does not depend on the storage order at all: the order of entries that sort as equal makes no difference to it. */
  lemma PlacementIgnoresOrder(policy: Placement.PlacementPolicy, m: Manifest, candidates: seq<ServiceBinding>,
                              ts: seq<Trace>, us: seq<Trace>, from: int, to: int)
    requires WellStored(ts) && multiset(ts) == multiset(us)
    ensures Placement.Select(policy, m, candidates, SnapshotOf(ts, from, to).entries)
         == Placement.Select(policy, m, candidates, SnapshotOf(us, from, to).entries)
  {
    hide Filter, RawEntries, EntryLe, Placement.Select, Placement.FindHistory;
    var ins, inu := Included(ts, from, to), Included(us, from, to);
    FilterPermuted(Counts(from, to), ts, us);
    ConsistentPermuted(ins, inu);
    RawEntriesSame(ins, inu);
    RawEntriesSame(inu, ins);
    EntryLeIsTotalPreorder();
    SortByElements(EntryLe, RawEntries(ins));
    SortByElements(EntryLe, RawEntries(inu));
    RawEntryKeys(ins);
    forall b ensures Placement.FindHistory(b, Entries(ins)) == Placement.FindHistory(b, Entries(inu)) {
      SameHistory(b, Entries(ins), Entries(inu));
    }
    SameSelection(policy, m, candidates, Entries(ins), Entries(inu));
  }
}
