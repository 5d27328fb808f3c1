/** Group-by statistics over stored traces (execution/runtime_store.py). */
module RuntimeSummary {
  import opened Collections
  import opened Reals
  import opened Ordering
  import opened Rounding
  import opened Permutations
  import opened RuntimeModel
  import opened RuntimeStore

  // ----- Groups -----

  function GroupOf(t: Trace): GroupKey {
    GroupKey(t.cellId, t.formulaVersion, t.implementationId, t.serviceId, t.runtime)
  }

  function Group(ts: seq<Trace>, k: GroupKey): seq<Trace> {
    Filter((t: Trace) => GroupOf(t) == k, ts)
  }

  /** The group keys in the order of their first trace, as a dictionary lists them. */
  function GroupKeys(ts: seq<Trace>): seq<GroupKey> {
    if ts == [] then []
    else
      var before := GroupKeys(ts[..|ts| - 1]);
      var k := GroupOf(ts[|ts| - 1]);
      if k in before then before else before + [k]
  }

  lemma {:induction false} GroupKeysAre(ts: seq<Trace>)
    ensures Distinct(GroupKeys(ts))
    ensures forall k :: k in GroupKeys(ts) <==> Group(ts, k) != []
  {
    if ts != [] {
      var n := |ts| - 1;
      GroupKeysAre(ts[..n]);
      DistinctParts(GroupKeys(ts[..n]), [GroupOf(ts[n])]);
      forall k ensures k in GroupKeys(ts) <==> Group(ts, k) != [] {
        assert Group(ts, k) == Group(ts[..n], k) + (if GroupOf(ts[n]) == k then [ts[n]] else []);
      }
    }
  }

  // ----- One entry -----

  predicate RealLe(a: real, b: real) {
    a <= b
  }

  lemma RealLeIsTotalPreorder()
    ensures TotalPreorder(RealLe)
  {
  }

  function DurationOf(t: Trace): real {
    if t.durationMs < 0.0 then 0.0 else t.durationMs
  }

  function Durations(g: seq<Trace>): (ds: seq<real>) {
    SortBy(RealLe, Map(DurationOf, g))
  }

  function Count(p: Trace -> bool, g: seq<Trace>): nat {
    |Filter(p, g)|
  }

  function HasStatus(s: TraceStatus): Trace -> bool {
    (t: Trace) => t.status == s
  }

  function Retried(t: Trace): bool {
    t.retryCount > 0
  }

  function HasError(t: Trace): bool {
    t.error.Some? && t.error.value != ""
  }

  function RetryCountOf(t: Trace): int { t.retryCount }

  function RunIdOf(t: Trace): string { t.runId }

  function Round6(x: real): real {
    Nearest(x * 1000000.0) as real / 1000000.0
  }

  /** The position `round((n - 1) * p)`, kept within the list. */
  function PercentileIndex(n: nat, p: real): (i: nat)
    requires n > 0
    ensures i < n
  {
    var index := Nearest((n - 1) as real * p);
    if index < 0 then 0 else if index > n - 1 then n - 1 else index
  }

  function Percentile(values: seq<real>, p: real): real {
    if values == [] then 0.0 else values[PercentileIndex(|values|, p)]
  }

  /** `(finished_at, run_id, span_id)` in tuple order. */
  predicate NotLater(s: Trace, t: Trace)
    requires s.finishedAt.At? && t.finishedAt.At?
  {
    s.finishedAt.instant < t.finishedAt.instant ||
    (s.finishedAt.instant == t.finishedAt.instant &&
      (if s.runId == t.runId then StrLe(s.spanId, t.spanId) else StrLe(s.runId, t.runId)))
  }

  predicate Readable(g: seq<Trace>) {
    forall t :: t in g ==> t.finishedAt.At?
  }

  lemma NotLaterTransitive(s: Trace, t: Trace, u: Trace)
    requires s.finishedAt.At? && t.finishedAt.At? && u.finishedAt.At? && NotLater(s, t) && NotLater(t, u)
    ensures NotLater(s, u)
  {
    if s.finishedAt.instant == t.finishedAt.instant == u.finishedAt.instant {
      if s.runId == t.runId == u.runId {
        StrLeTransitive(s.spanId, t.spanId, u.spanId);
      } else if s.runId != t.runId && t.runId != u.runId {
        StrLeTransitive(s.runId, t.runId, u.runId);
        StrLeTotal(s.runId, t.runId);
      }
    }
  }

  lemma NotLaterTotal(s: Trace, t: Trace)
    requires s.finishedAt.At? && t.finishedAt.At?
    ensures NotLater(s, t) || NotLater(t, s)
    ensures NotLater(s, t) && NotLater(t, s) ==> KeyOfTrace(s) == KeyOfTrace(t)
  {
    StrLeTotal(s.runId, t.runId);
    StrLeTotal(s.spanId, t.spanId);
  }

  /** The first latest trace. */
  function Latest(g: seq<Trace>): (l: Trace)
    requires g != [] && Readable(g)
    ensures l in g && forall t :: t in g ==> NotLater(t, l)
  {
    var last := g[|g| - 1];
    assert g == g[..|g| - 1] + [last];
    NotLaterTotal(last, last);
    if |g| == 1 then last
    else
      var before := Latest(g[..|g| - 1]);
      NotLaterTotal(before, last);
      if NotLater(last, before) then before
      else
        assert forall t :: t in g[..|g| - 1] ==> NotLater(t, last) by {
          forall t | t in g[..|g| - 1] ensures NotLater(t, last) { NotLaterTransitive(t, before, last); }
        }
        last
  }

  lemma DurationsSorted(g: seq<Trace>)
    ensures Sorted(RealLe, Durations(g)) && |Durations(g)| == |g|
  {
    RealLeIsTotalPreorder();
    SortBySorted(RealLe, Map(DurationOf, g));
    SortByElements(RealLe, Map(DurationOf, g));
  }

  function EntryFor(k: GroupKey, g: seq<Trace>): SummaryEntry
    requires g != [] && Readable(g)
  {
    DurationsSorted(g);
    var ds := Durations(g);
    var failed, retried := Count(HasStatus(TraceStatus.Failed), g), Count(Retried, g);
    SummaryEntry(k, |g|, |Elements(Map(RunIdOf, g))|, Count(HasStatus(TraceStatus.Succeeded), g), failed, Count(HasStatus(Skipped), g),
                 retried, Round6(failed as real / |g| as real), Round6(retried as real / |g| as real),
                 Round6(SumReals(ds) / |g| as real), ds[|ds| - 1], ds[0],
                 Percentile(ds, 0.5), Percentile(ds, 0.95), Percentile(ds, 0.99), Count(HasError, g), Sum(Map(RetryCountOf, g)),
                 Latest(g).status, Latest(g).finishedAt)
  }

  lemma {:induction false} StatusesPartition(g: seq<Trace>)
    ensures Count(HasStatus(TraceStatus.Succeeded), g) + Count(HasStatus(TraceStatus.Failed), g) + Count(HasStatus(Skipped), g) == |g|
  {
    if g != [] { StatusesPartition(g[..|g| - 1]); }
  }

  lemma PercentilesRise(n: nat)
    requires n > 0
    ensures PercentileIndex(n, 0.5) <= PercentileIndex(n, 0.95) <= PercentileIndex(n, 0.99)
  {
    var m := (n - 1) as real;
    NearestMonotone(m * 0.5, m * 0.95);
    NearestMonotone(m * 0.95, m * 0.99);
  }

  /** An entry accounts for each of its traces once and its duration statistics are in order. */
  lemma EntryConserves(k: GroupKey, g: seq<Trace>)
    requires g != [] && Readable(g)
    ensures var e := EntryFor(k, g);
      && e.traceCount == |g| && e.succeededCount + e.failedCount + e.skippedCount == e.traceCount
      && 0.0 <= e.minDuration <= e.p50 <= e.p95 <= e.p99 <= e.maxDuration
  {
    StatusesPartition(g);
    hide Count, Latest, Round6, SumReals, PercentileIndex, Nearest, Map, SortBy;
    DurationsSorted(g);
    PercentilesRise(|g|);
    var ds := Durations(g);
    SortedAt(ds, 0, PercentileIndex(|ds|, 0.5));
    SortedAt(ds, PercentileIndex(|ds|, 0.5), PercentileIndex(|ds|, 0.95));
    SortedAt(ds, PercentileIndex(|ds|, 0.95), PercentileIndex(|ds|, 0.99));
    SortedAt(ds, PercentileIndex(|ds|, 0.99), |ds| - 1);
    NonNegativeDurations(g);
  }

  lemma SortedAt(ds: seq<real>, i: nat, j: nat)
    requires Sorted(RealLe, ds) && i <= j < |ds|
    ensures ds[i] <= ds[j]
  {
  }

  lemma NonNegativeDurations(g: seq<Trace>)
    requires g != []
    ensures |Durations(g)| > 0 && Durations(g)[0] >= 0.0
  {
    DurationsSorted(g);
    RealLeIsTotalPreorder();
    SortByElements(RealLe, Map(DurationOf, g));
    var d := Durations(g)[0];
    assert d in Durations(g);
    var i :| 0 <= i < |g| && DurationOf(g[i]) == d;
  }

  lemma CountZeroIff(p: Trace -> bool, g: seq<Trace>)
    ensures Count(p, g) == 0 <==> forall t :: t in g ==> !p(t)
    ensures Count(p, g) <= |g|
  {
    hide Filter;
    assert Filter(p, g) == [] <==> forall t :: t !in Filter(p, g) by {
      if Filter(p, g) != [] { assert Filter(p, g)[0] in Filter(p, g); }
    }
  }

  lemma RateBounds(count: nat, total: nat)
    requires count <= total && total > 0
    ensures 0.0 <= Round6(count as real / total as real) <= 1.0
  {
    NearestFixes(0);
    NearestFixes(1000000);
    QuotientBounds(0.0, count as real, 1.0, total as real);
    NearestMonotone(0.0, count as real / total as real * 1000000.0);
    NearestMonotone(count as real / total as real * 1000000.0, 1000000.0);
  }

  lemma Round6Monotone(x: real, y: real)
    requires x <= y
    ensures Round6(x) <= Round6(y)
  {
    NearestMonotone(x * 1000000.0, y * 1000000.0);
  }

  lemma AverageWithin(g: seq<Trace>)
    requires g != []
    ensures var ds := Durations(g);
      |ds| == |g| && Round6(ds[0]) <= Round6(SumReals(ds) / |g| as real) <= Round6(ds[|ds| - 1])
  {
    hide Durations, Round6, SumReals;
    DurationsSorted(g);
    var ds := Durations(g);
    SumBetween(ds, ds[0], ds[|ds| - 1]);
    QuotientBounds(ds[0], SumReals(ds), ds[|ds| - 1], |g| as real);
    Round6Monotone(ds[0], SumReals(ds) / |g| as real);
    Round6Monotone(SumReals(ds) / |g| as real, ds[|ds| - 1]);
  }

  /** The extreme durations are those of actual traces. */
  lemma ExtremesAttained(g: seq<Trace>)
    requires g != []
    ensures var ds := Durations(g);
      && |ds| == |g| && (forall t :: t in g ==> ds[0] <= DurationOf(t) <= ds[|ds| - 1])
      && (exists t :: t in g && DurationOf(t) == ds[0]) && (exists t :: t in g && DurationOf(t) == ds[|ds| - 1])
  {
    DurationsSorted(g);
    RealLeIsTotalPreorder();
    SortByElements(RealLe, Map(DurationOf, g));
    hide SortBy, DurationOf;
    var ds := Durations(g);
    forall t | t in g ensures ds[0] <= DurationOf(t) <= ds[|ds| - 1] {
      var i :| 0 <= i < |g| && g[i] == t;
      assert Map(DurationOf, g)[i] in ds;
      var j :| 0 <= j < |ds| && ds[j] == DurationOf(t);
      SortedAt(ds, 0, j);
      SortedAt(ds, j, |ds| - 1);
    }
    Attained(g, ds[0]);
    Attained(g, ds[|ds| - 1]);
  }

  lemma Attained(g: seq<Trace>, d: real)
    ensures d in Map(DurationOf, g) ==> exists t :: t in g && DurationOf(t) == d
  {
    hide DurationOf;
    if d in Map(DurationOf, g) {
      var i :| 0 <= i < |g| && DurationOf(g[i]) == d;
      assert g[i] in g;
    }
  }

  /** What an entry's counts say about its group. */
  lemma EntryCountsMeaning(k: GroupKey, g: seq<Trace>)
    requires g != [] && Readable(g)
    ensures var e := EntryFor(k, g);
      && e.key == k
      && (e.failedCount == 0 <==> forall t :: t in g ==> t.status != TraceStatus.Failed)
      && (e.succeededCount == 0 <==> forall t :: t in g ==> t.status != TraceStatus.Succeeded)
      && (e.skippedCount == 0 <==> forall t :: t in g ==> t.status != Skipped)
      && (e.retriedTraceCount == 0 <==> forall t :: t in g ==> t.retryCount <= 0)
      && (e.errorCount == 0 <==> forall t :: t in g ==> t.error.None? || t.error.value == "")
      && 0.0 <= e.failureRate <= 1.0 && 0.0 <= e.retryRate <= 1.0
  {
    hide Count, Round6, SumReals, Percentile, Map, Sum, Durations, Latest;
    CountZeroIff(HasStatus(TraceStatus.Failed), g);
    CountZeroIff(HasStatus(TraceStatus.Succeeded), g);
    CountZeroIff(HasStatus(Skipped), g);
    CountZeroIff(Retried, g);
    CountZeroIff(HasError, g);
    RateBounds(Count(HasStatus(TraceStatus.Failed), g), |g|);
    RateBounds(Count(Retried, g), |g|);
  }

  /** The duration statistics are those of actual traces, and the latest status is that of a trace that none is later than. */
  lemma EntryTimesMeaning(k: GroupKey, g: seq<Trace>)
    requires g != [] && Readable(g)
    ensures var e := EntryFor(k, g);
      && Round6(e.minDuration) <= e.averageDuration <= Round6(e.maxDuration)
      && (forall t :: t in g ==> e.minDuration <= DurationOf(t) <= e.maxDuration)
      && (exists t :: t in g && DurationOf(t) == e.minDuration) && (exists t :: t in g && DurationOf(t) == e.maxDuration)
      && (exists l :: l in g && l.status == e.latestStatus && l.finishedAt == e.latestFinishedAt && forall t :: t in g ==> NotLater(t, l))
  {
    hide Count, Round6, SumReals, Percentile, Map, Sum, Durations, DurationOf, NotLater, Latest;
    AverageWithin(g);
    ExtremesAttained(g);
    var l := Latest(g);
    assert forall t :: t in g ==> NotLater(t, l);
  }

  // ----- Entries -----

  lemma GroupReadable(ts: seq<Trace>, k: GroupKey)
    requires Readable(ts)
    ensures Readable(Group(ts, k))
  {
  }

  /** The entry of one group. */
  function EntryOf(ts: seq<Trace>, k: GroupKey): SummaryEntry
    requires Readable(ts) && Group(ts, k) != []
  {
    GroupReadable(ts, k);
    EntryFor(k, Group(ts, k))
  }

  /** The entries of the listed groups. */
  function EntriesFor(ts: seq<Trace>, keys: seq<GroupKey>): (es: seq<SummaryEntry>)
    requires Readable(ts) && forall k :: k in keys ==> Group(ts, k) != []
    ensures |es| == |keys|
  {
    hide EntryOf, Group, Readable;
    if keys == [] then []
    else
      assert keys == keys[..|keys| - 1] + [keys[|keys| - 1]];
      EntriesFor(ts, keys[..|keys| - 1]) + [EntryOf(ts, keys[|keys| - 1])]
  }

  lemma {:induction false} EntriesForAt(ts: seq<Trace>, keys: seq<GroupKey>, i: nat)
    requires Readable(ts) && (forall k :: k in keys ==> Group(ts, k) != []) && i < |keys|
    ensures keys[i] in keys && EntriesFor(ts, keys)[i] == EntryOf(ts, keys[i])
  {
    hide EntryOf, Group, Readable;
    if i < |keys| - 1 {
      assert keys == keys[..|keys| - 1] + [keys[|keys| - 1]];
      EntriesForAt(ts, keys[..|keys| - 1], i);
    }
  }

  function Text(o: Option<string>): string {
    if o.Some? then o.value else ""
  }

  predicate TextsLe(a: seq<string>, b: seq<string>)
    requires |a| == |b|
  {
    a == [] || (if a[0] == b[0] then TextsLe(a[1..], b[1..]) else StrLe(a[0], b[0]))
  }

  /** The sort key of an entry: absent parts count as empty text. */
  function SortKey(k: GroupKey): (s: seq<string>)
    ensures |s| == 5
  {
    [k.cellId, k.formulaVersion, Text(k.implementationId), Text(k.serviceId), Text(k.runtime)]
  }

  predicate EntryLe(x: SummaryEntry, y: SummaryEntry) {
    TextsLe(SortKey(x.key), SortKey(y.key))
  }

  lemma {:induction false} TextsLeTotal(a: seq<string>, b: seq<string>)
    requires |a| == |b|
    ensures TextsLe(a, b) || TextsLe(b, a)
    ensures TextsLe(a, b) && TextsLe(b, a) ==> a == b
    ensures TextsLe(a, a)
  {
    if a != [] {
      TextsLeTotal(a[1..], b[1..]);
      TextsLeTotal(a[1..], a[1..]);
      StrLeTotal(a[0], b[0]);
      assert a == [a[0]] + a[1..] && b == [b[0]] + b[1..];
    }
  }

  lemma {:induction false} TextsLeTransitive(a: seq<string>, b: seq<string>, c: seq<string>)
    requires |a| == |b| == |c| && TextsLe(a, b) && TextsLe(b, c)
    ensures TextsLe(a, c)
  {
    if a != [] {
      if a[0] == b[0] == c[0] {
        TextsLeTransitive(a[1..], b[1..], c[1..]);
      } else if a[0] != b[0] && b[0] != c[0] {
        StrLeTransitive(a[0], b[0], c[0]);
        StrLeTotal(a[0], b[0]);
      }
    }
  }

  lemma EntryLeIsTotalPreorder()
    ensures TotalPreorder(EntryLe)
  {
    hide TextsLe, SortKey;
    forall x, y ensures EntryLe(x, y) || EntryLe(y, x) { TextsLeTotal(SortKey(x.key), SortKey(y.key)); }
    forall x, y, z | EntryLe(x, y) && EntryLe(y, z) ensures EntryLe(x, z) {
      TextsLeTransitive(SortKey(x.key), SortKey(y.key), SortKey(z.key));
    }
  }

  /** The unsorted entries, one per group in dictionary order. */
  function RawEntries(ts: seq<Trace>): seq<SummaryEntry>
    requires Readable(ts)
  {
    GroupKeysAre(ts);
    EntriesFor(ts, GroupKeys(ts))
  }

  lemma RawEntryAt(ts: seq<Trace>, i: nat)
    requires Readable(ts) && i < |GroupKeys(ts)|
    ensures |RawEntries(ts)| == |GroupKeys(ts)|
    ensures Group(ts, GroupKeys(ts)[i]) != [] && Readable(Group(ts, GroupKeys(ts)[i]))
    ensures RawEntries(ts)[i] == EntryFor(GroupKeys(ts)[i], Group(ts, GroupKeys(ts)[i]))
  {
    hide EntryFor, Group, Readable, GroupKeys;
    GroupKeysAre(ts);
    EntriesForAt(ts, GroupKeys(ts), i);
    GroupReadable(ts, GroupKeys(ts)[i]);
  }

  function Entries(ts: seq<Trace>): seq<SummaryEntry>
    requires Readable(ts)
  {
    SortBy(EntryLe, RawEntries(ts))
  }

  // ----- Conservation -----

  function CountOf(e: SummaryEntry): int { e.traceCount }

  function GroupSizes(ts: seq<Trace>, keys: seq<GroupKey>): int {
    if keys == [] then 0 else GroupSizes(ts, keys[..|keys| - 1]) + |Group(ts, keys[|keys| - 1])|
  }

  lemma {:induction false} GroupSizesStep(ts: seq<Trace>, n: nat, keys: seq<GroupKey>)
    requires n < |ts| && Distinct(keys)
    ensures GroupSizes(ts[..n + 1], keys) == GroupSizes(ts[..n], keys) + (if GroupOf(ts[n]) in keys then 1 else 0)
  {
    if keys != [] {
      var k := keys[|keys| - 1];
      GroupSizesStep(ts, n, keys[..|keys| - 1]);
      assert keys == keys[..|keys| - 1] + [k];
      assert ts[..n + 1][..n] == ts[..n];
      assert Group(ts[..n + 1], k) == Group(ts[..n], k) + (if GroupOf(ts[n]) == k then [ts[n]] else []);
      assert GroupOf(ts[n]) == k ==> k !in keys[..|keys| - 1];
    }
  }

  lemma {:induction false} AllGrouped(ts: seq<Trace>, keys: seq<GroupKey>, n: nat)
    requires n <= |ts| && Distinct(keys) && forall i :: 0 <= i < |ts| ==> GroupOf(ts[i]) in keys
    ensures GroupSizes(ts[..n], keys) == n
  {
    if n == 0 {
      NoSizes(ts[..0], keys);
    } else {
      AllGrouped(ts, keys, n - 1);
      GroupSizesStep(ts, n - 1, keys);
    }
  }

  lemma {:induction false} NoSizes(ts: seq<Trace>, keys: seq<GroupKey>)
    requires ts == []
    ensures GroupSizes(ts, keys) == 0
  {
    if keys != [] { NoSizes(ts, keys[..|keys| - 1]); }
  }

  lemma {:induction false} SizesAreCounts(ts: seq<Trace>, keys: seq<GroupKey>)
    requires Readable(ts) && forall k :: k in keys ==> Group(ts, k) != []
    ensures Sum(Map(CountOf, EntriesFor(ts, keys))) == GroupSizes(ts, keys)
  {
    hide EntryFor, Group;
    if keys != [] {
      var n := |keys| - 1;
      assert keys == keys[..n] + [keys[n]];
      SizesAreCounts(ts, keys[..n]);
      GroupReadable(ts, keys[n]);
      EntryCount(keys[n], Group(ts, keys[n]));
      EntriesForAt(ts, keys, n);
      var es := EntriesFor(ts, keys);
      assert Map(CountOf, es)[..n] == Map(CountOf, EntriesFor(ts, keys[..n]));
    }
  }

  lemma EntryCount(k: GroupKey, g: seq<Trace>)
    requires g != [] && Readable(g)
    ensures EntryFor(k, g).traceCount == |g| && EntryFor(k, g).key == k
  {
    hide Durations, Count, Latest, Round6, SumReals, Percentile, Map, Sum;
  }

  lemma EntryAt(ts: seq<Trace>, e: SummaryEntry) returns (k: GroupKey)
    requires Readable(ts) && e in Entries(ts)
    ensures Group(ts, k) != [] && Readable(Group(ts, k)) && e == EntryFor(k, Group(ts, k)) && e.key == k
  {
    hide EntryFor, Group, EntryLe, GroupKeys, Readable;
    EntryLeIsTotalPreorder();
    GroupKeysAre(ts);
    SortByElements(EntryLe, RawEntries(ts));
    var i :| 0 <= i < |RawEntries(ts)| && RawEntries(ts)[i] == e;
    k := GroupKeys(ts)[i];
    RawEntryAt(ts, i);
    EntryCount(k, Group(ts, k));
  }

  lemma EntryCountsAre(ts: seq<Trace>)
    requires Readable(ts)
    ensures forall e :: e in Entries(ts) ==> e.traceCount == |Group(ts, e.key)| && e.traceCount > 0
  {
    hide Entries, EntryFor, Group, Readable;
    forall e | e in Entries(ts) ensures e.traceCount == |Group(ts, e.key)| && e.traceCount > 0 {
      var k := EntryAt(ts, e);
      EntryCount(k, Group(ts, k));
    }
  }

  lemma RawCounts(ts: seq<Trace>)
    requires Readable(ts)
    ensures Sum(Map(CountOf, RawEntries(ts))) == |ts|
  {
    GroupKeysAre(ts);
    hide EntryFor, Group, GroupKeys, Map, Sum, Readable;
    SizesAreCounts(ts, GroupKeys(ts));
    forall i | 0 <= i < |ts| ensures GroupOf(ts[i]) in GroupKeys(ts) { OwnGroup(ts, i); }
    AllGrouped(ts, GroupKeys(ts), |ts|);
    assert ts[..|ts|] == ts;
  }

  /** Every included trace is counted in exactly one entry. */
  lemma EntriesConserve(ts: seq<Trace>)
    requires Readable(ts)
    ensures Sum(Map(CountOf, Entries(ts))) == |ts|
    ensures forall e :: e in Entries(ts) ==> e.traceCount == |Group(ts, e.key)| && e.traceCount > 0
  {
    RawCounts(ts);
    EntryCountsAre(ts);
    hide EntryLe, Group, Map, Sum, Readable, RawEntries;
    EntryLeIsTotalPreorder();
    SortBySorted(EntryLe, RawEntries(ts));
    MapPermuted(CountOf, Entries(ts), RawEntries(ts));
    SumPermuted(Map(CountOf, Entries(ts)), Map(CountOf, RawEntries(ts)));
  }

  lemma OwnGroup(ts: seq<Trace>, i: nat)
    requires i < |ts|
    ensures Group(ts, GroupOf(ts[i])) != []
  {
    assert ts[i] in ts;
    assert ts[i] in Group(ts, GroupOf(ts[i]));
  }
}
