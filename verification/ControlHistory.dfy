/** What the traces of runs under failure control leave in the runtime history (execution/control.py, execution/runtime_store.py). */
module ControlHistory {
  import opened Collections
  import opened Permutations
  import opened PlanModel
  import opened RuntimeModel
  import opened ControlModel
  import opened ControlRuns
  import opened Control
  import opened ControlLaws
  import opened RuntimeStore
  import opened RuntimeSummary
  import opened RuntimeSnapshot
  import Placement

  // ----- Which traces are marked -----

  /**
   * An attempt's last trace is kept out of the history exactly when the attempt was canceled; the traces its delegate had
   * collected before go into it as the delegate handed them over.
   */
  lemma MarkedIffCanceled(script: Script, log: seq<Event>, from: nat, ctx: Context, s: Settings, t: Trail, i: nat)
    requires Concluded(script, log, from, ctx, s, t) && i < |t.attempts|
    ensures |t.outcomes| == |t.attempts| && |t.starts| == |t.attempts| + 1
    ensures Eligible(t.outcomes[i].trace) <==> t.attempts[i].status != AttemptCanceled
    ensures t.outcomes[i].priorTraces == EarlierTraces(script, t.starts[i])
  {
    hide AttemptLog, Verdict, TimeTaken, EarlierTraces, BaseTrace, Follows, Final, LogOk, Traced, AttemptFits, Outcome.Valid;
    assert Happened(script, log, ctx, s, t.attempts[i], t.outcomes[i], t.starts[i], t.starts[i + 1]);
  }

  lemma TraceIsOf(t: Trail, x: Trace)
    ensures x in t.Traces() <==> exists o :: o in t.outcomes && (x == o.trace || x in o.priorTraces)
  {
    var f := (o: Outcome) => o.RuntimeTraces();
    FlatMapIn(f, t.outcomes, x);
    assert forall o :: x in f(o) <==> x == o.trace || x in o.priorTraces;
  }

  /** Everything the run adds to the history is kept out: every attempt was canceled, and no delegate handed over an eligible trace. */
  ghost predicate AllMarked(script: Script, t: Trail) {
    |t.starts| == |t.attempts| + 1 && forall i :: 0 <= i < |t.attempts| ==> Marked(script, t, i)
  }

  ghost predicate Marked(script: Script, t: Trail, i: nat)
    requires |t.starts| == |t.attempts| + 1 && i < |t.attempts|
  {
    t.attempts[i].status == AttemptCanceled && forall x :: x in EarlierTraces(script, t.starts[i]) ==> !Eligible(x)
  }

  lemma AllMarkedIff(script: Script, log: seq<Event>, from: nat, ctx: Context, s: Settings, t: Trail)
    requires Concluded(script, log, from, ctx, s, t)
    ensures AllMarked(script, t) <==> forall x :: x in t.Traces() ==> !Eligible(x)
  {
    hide Concluded, EarlierTraces, Eligible, Trail.Traces;
    EmptyTrail(script, log, from, ctx, s, t);
    MarkedIffCanceled(script, log, from, ctx, s, t, 0);
    if AllMarked(script, t) {
      forall x | x in t.Traces() ensures !Eligible(x) {
        TraceIsOf(t, x);
        var o :| o in t.outcomes && (x == o.trace || x in o.priorTraces);
        var i :| 0 <= i < |t.outcomes| && t.outcomes[i] == o;
        MarkedIffCanceled(script, log, from, ctx, s, t, i);
        assert Marked(script, t, i);
      }
    }
    if forall x :: x in t.Traces() ==> !Eligible(x) {
      forall i | 0 <= i < |t.attempts| ensures Marked(script, t, i) {
        MarkedIffCanceled(script, log, from, ctx, s, t, i);
        assert t.outcomes[i] in t.outcomes;
        TraceIsOf(t, t.outcomes[i].trace);
        forall x | x in EarlierTraces(script, t.starts[i]) ensures !Eligible(x) { TraceIsOf(t, x); }
      }
    }
  }

  // ----- What the history shows -----

  /** Only eligible traces make a difference to a snapshot. */
  lemma OnlyEligibleCount(ts: seq<Trace>, added: seq<Trace>, from: int, to: int)
    ensures SnapshotOf(ts + added, from, to) == SnapshotOf(ts + Filter(Eligible, added), from, to)
  {
    hide Entries, Filter;
    FilterAppend(Counts(from, to), ts, added);
    FilterAppend(Counts(from, to), ts, Filter(Eligible, added));
    FilterTwice(Counts(from, to), Eligible, added);
  }

  lemma {:induction false} FilterTwice(p: Trace -> bool, q: Trace -> bool, ts: seq<Trace>)
    requires forall t :: p(t) ==> q(t)
    ensures Filter(p, Filter(q, ts)) == Filter(p, ts)
  {
    hide Filter;
    if ts == [] {
      FilterNone(q, ts);
    } else {
      var n := |ts| - 1;
      FilterTwice(p, q, ts[..n]);
      FilterStep(p, Filter(q, ts[..n]), ts[n]);
      FilterStep(q, ts[..n], ts[n]);
      FilterStep(p, ts[..n], ts[n]);
      assert ts == ts[..n] + [ts[n]];
      assert Filter(q, ts[..n]) + [] == Filter(q, ts[..n]);
    }
  }

  /** Added traces leave no snapshot changed, whatever else is stored and whatever the window, exactly when none is eligible. */
  lemma NoMarkIff(added: seq<Trace>)
    requires Readable(added)
    ensures (forall ts, from, to :: SnapshotOf(ts + added, from, to) == SnapshotOf(ts, from, to)) <==> forall x :: x in added ==> !Eligible(x)
  {
    hide SnapshotOf, Filter;
    if forall x :: x in added ==> !Eligible(x) {
      forall ts, from, to ensures SnapshotOf(ts + added, from, to) == SnapshotOf(ts, from, to) { MarkedLeaveNoMark(ts, added, from, to); }
    }
    if x :| x in added && Eligible(x) {
      var at := x.finishedAt.instant;
      CountedTrace(added, x);
      assert SnapshotOf([] + added, at, at) != SnapshotOf([], at, at);
    }
  }

  lemma CountedTrace(added: seq<Trace>, x: Trace)
    requires x in added && Eligible(x) && x.finishedAt.At?
    ensures var at := x.finishedAt.instant; SnapshotOf([] + added, at, at) != SnapshotOf([], at, at)
  {
    hide Entries;
    var at := x.finishedAt.instant;
    assert [] + added == added;
    assert x in Included(added, at, at) && Included([], at, at) == [];
  }

  /**
   * A run under failure control leaves no mark on the history exactly when every attempt of it was canceled and no delegate
   * handed over an eligible trace of its own.
   */
  lemma RunLeavesNoMarkIff(script: Script, log: seq<Event>, from: nat, ctx: Context, s: Settings, t: Trail)
    requires Concluded(script, log, from, ctx, s, t) && Readable(t.Traces())
    ensures AllMarked(script, t) <==> forall ts, start, end :: SnapshotOf(ts + t.Traces(), start, end) == SnapshotOf(ts, start, end)
  {
    hide Concluded, AllMarked, SnapshotOf, Trail.Traces, Readable;
    AllMarkedIff(script, log, from, ctx, s, t);
    NoMarkIff(t.Traces());
  }

  /** A run that finds itself canceled at its start, under the default classifier, changes neither history nor placement. */
  lemma CanceledStartLeavesNoMark(script: Script, log: seq<Event>, from: nat, ctx: Context, s: Settings, t: Trail, ts: seq<Trace>, start: int, end: int,
                                  policy: Placement.PlacementPolicy, m: Manifest, candidates: seq<ServiceBinding>)
    requires Concluded(script, log, from, ctx, s, t) && s.UsesDefaultClassifier() && script.canceled(from)
    ensures SnapshotOf(ts + t.Traces(), start, end) == SnapshotOf(ts, start, end)
    ensures Placement.Select(policy, m, candidates, SnapshotOf(ts + t.Traces(), start, end).entries)
         == Placement.Select(policy, m, candidates, SnapshotOf(ts, start, end).entries)
    ensures WellStored(ts) ==> SnapshotOf(Save(ts, t.Traces()).stored, start, end) == SnapshotOf(ts, start, end)
  {
    hide SnapshotOf, Trail.Traces, Placement.Select, AttemptLog, Verdict, TimeTaken, Noted, AttemptResult, IsRun, Final, Traced;
    EmptyTrail(script, log, from, ctx, s, t);
    AttemptOfRun(script, log, from, ctx, s, t, 0);
    AttemptEventFacts(script, from, t.attempts[0].bindingId, t.attempts[0].timeoutMs, 0);
    assert log[from] == log[from..t.starts[1]][0] == CancelCheck(true, true);
    StartsRise(script, log, from, ctx, s, t, |t.attempts|);
    assert t.starts[|t.attempts|] == from + 1;
    assert |t.attempts| == 1;
    assert Marked(script, t, 0);
    AllMarkedIff(script, log, from, ctx, s, t);
    MarkedLeaveNoMark(ts, t.Traces(), start, end);
    if WellStored(ts) { MarkedSaveLeavesNoMark(ts, t.Traces(), start, end); }
  }

  // ----- Through the store -----

  /** What a save adds comes from the batch, whether or not the save fails. */
  lemma SaveAdds(stored: seq<Trace>, batch: seq<Trace>) returns (added: seq<Trace>)
    requires WellStored(stored)
    ensures Save(stored, batch).stored == stored + added && forall t :: t in added ==> t in batch
  {
    hide Save, Consistent;
    SaveKeeps(stored, batch);
    var r := Save(stored, batch).stored;
    added := r[|stored|..];
    assert r == stored + added;
    DistinctParts(stored, added);
    forall t | t in added ensures t in batch {
      assert t in Elements(added) && t in r;
      assert t in stored ==> t in Elements(stored);
    }
  }

  /** Saving traces that are all marked changes no snapshot, even when the save fails half-way. */
  lemma MarkedSaveLeavesNoMark(stored: seq<Trace>, batch: seq<Trace>, start: int, end: int)
    requires WellStored(stored) && forall t :: t in batch ==> !Eligible(t)
    ensures SnapshotOf(Save(stored, batch).stored, start, end) == SnapshotOf(stored, start, end)
  {
    hide Save, SnapshotOf, WellStored;
    var added := SaveAdds(stored, batch);
    MarkedLeaveNoMark(stored, added, start, end);
  }

  /** Traces of different spans can be saved into an empty store. */
  lemma FreshTracesSave(batch: seq<Trace>)
    requires Readable(batch) && Distinct(SpanIds(batch))
    ensures WellStored([]) && Save([], batch).error.None? && forall t :: t in batch ==> t in Save([], batch).stored
  {
    assert WellStored([]);
    assert [] + batch == batch;
    hide Save, WellStored, Consistent, Distinct, SpanIds;
    FreshConsistent(batch);
    SaveSucceedsIff([], batch);
  }

  lemma FreshConsistent(batch: seq<Trace>)
    requires Distinct(SpanIds(batch))
    ensures Consistent(batch)
  {
    forall s, t | s in batch && t in batch && KeyOfTrace(s) == KeyOfTrace(t) ensures s == t {
      var i :| 0 <= i < |batch| && batch[i] == s;
      var j :| 0 <= j < |batch| && batch[j] == t;
      assert SpanIds(batch)[i] == s.spanId && SpanIds(batch)[j] == t.spanId;
    }
  }

  /**
   * The same for a saved batch, where duplicates are dropped and a save may stop half-way: saving the traces of a
   * controlled run changes no snapshot of any store exactly when every attempt was canceled and no delegate handed over an
   * eligible trace.
   */
  lemma SavedRunLeavesNoMarkIff(script: Script, log: seq<Event>, from: nat, ctx: Context, s: Settings, t: Trail)
    requires Concluded(script, log, from, ctx, s, t) && Readable(t.Traces()) && Distinct(SpanIds(t.Traces()))
    ensures AllMarked(script, t) <==>
      forall stored, start, end :: WellStored(stored) ==>
        SnapshotOf(Save(stored, t.Traces()).stored, start, end) == SnapshotOf(stored, start, end)
  {
    hide Concluded, AllMarked, SnapshotOf, Trail.Traces, WellStored, Save, Distinct, Map, Eligible;
    AllMarkedIff(script, log, from, ctx, s, t);
    if AllMarked(script, t) {
      forall stored, start, end | WellStored(stored)
        ensures SnapshotOf(Save(stored, t.Traces()).stored, start, end) == SnapshotOf(stored, start, end)
      {
        MarkedSaveLeavesNoMark(stored, t.Traces(), start, end);
      }
    } else {
      var x :| x in t.Traces() && Eligible(x);
      FreshTracesSave(t.Traces());
      var saved, at := Save([], t.Traces()).stored, x.finishedAt.instant;
      CountedTrace(saved, x);
      assert [] + saved == saved;
      assert SnapshotOf(saved, at, at) != SnapshotOf([], at, at);
    }
  }

  // ----- A canceled run that does leave a mark -----

  const EARLIER := Trace("t", "earlier", "r", None, "n", "c", "v", TraceStatus.Succeeded, At(0), 1.0, None, None, None, 0, None, None)
  const REPLY := Outcome(EARLIER.(spanId := "last"), Some(CellResult("c", "x", "1h", "")), None, [EARLIER], None)

  /** The delegate answers in time with one trace handed on; then cancellation is requested. */
  function LateScript(): Script {
    Script(k => k >= 4, k => Granted(None), k => Returns(REPLY), k => 0.0, k => "fresh", k => At(0))
  }

  lemma LateScriptIsLawful()
    ensures LateScript().Lawful() && LateScript().Monotone()
  {
    assert SpanIds(REPLY.RuntimeTraces()) == ["earlier", "last"];
    assert forall x :: x in REPLY.RuntimeTraces() ==> x == EARLIER || x == REPLY.trace;
  }

  /**
   * Only the final trace of a canceled attempt is marked: a run canceled while its delegate worked is recorded as canceled,
   * yet the trace that the delegate handed on still counts in the history.
   */
  lemma HandedOnTraceStillCounts(log: seq<Event>, ctx: Context, s: Settings, t: Trail)
    requires Concluded(LateScript(), log, 0, ctx, s, t) && s.UsesDefaultClassifier() && s.Valid()
    ensures LateScript().Lawful() && LateScript().Monotone()
    ensures |t.attempts| == 1 && t.attempts[0].status == AttemptCanceled
    ensures EARLIER in t.Traces() && SnapshotOf([] + t.Traces(), 0, 0) != SnapshotOf([], 0, 0)
  {
    var script := LateScript();
    hide Concluded, SnapshotOf, Trail.Traces, Settings.Valid, Settings.UsesDefaultClassifier;
    LateScriptIsLawful();
    EmptyTrail(script, log, 0, ctx, s, t);
    AttemptOfRun(script, log, 0, ctx, s, t, 0);
    LateVerdict(s, t.attempts[0].fallbackIndex);
    CanceledAlone(script, log, 0, ctx, s, t);
    MarkedIffCanceled(script, log, 0, ctx, s, t, 0);
    assert EarlierTraces(script, 0) == [EARLIER];
    assert t.outcomes[0] in t.outcomes && EARLIER in t.outcomes[0].priorTraces;
    TraceIsOf(t, EARLIER);
    CountedTrace(t.Traces(), EARLIER);
  }

  lemma LateVerdict(s: Settings, index: nat)
    requires s.Valid() && index < |s.candidates|
    ensures Verdict(LateScript(), 0, s.TimeoutFor(index)) == Some(CANCELED_DURING)
  {
    assert s.candidates[index].Valid() && s.TimeoutFor(index) >= 1;
    var traces := REPLY.RuntimeTraces();
    assert forall x :: x in traces ==> x.durationMs == 1.0;
    assert AttemptDuration(LateScript(), 2) <= 1.0;
  }

  lemma StopsRun(s: Settings, attempts: seq<Attempt>)
    requires IsRun(s, attempts) && !attempts[0].retryable && !attempts[0].allowsFallback
    ensures |attempts| == 1
  {
    hide Follows, AttemptFits;
    if |attempts| > 1 { UnsafeStops(s, attempts[0], 0, attempts[1]); }
  }

  /** Under the default classifier an attempt that ends canceled is alone if it is the first. */
  lemma CanceledAlone(script: Script, log: seq<Event>, from: nat, ctx: Context, s: Settings, t: Trail)
    requires Concluded(script, log, from, ctx, s, t) && s.UsesDefaultClassifier() && t.attempts != []
    requires |t.outcomes| == |t.attempts| && t.outcomes[0].error == Some(CANCELED_DURING) && Noted(s, t.attempts[0], t.outcomes[0])
    ensures |t.attempts| == 1 && t.attempts[0].status == AttemptCanceled
  {
    hide Concluded;
    RunOf(script, log, from, ctx, s, t);
    var a := t.attempts[0];
    assert AttemptFits(s, a, 0);
    assert s.classifier(CANCELED_DURING) == DefaultClassifier(CANCELED_DURING);
    CanceledStops(s, a, 0);
    StopsRun(s, t.attempts);
  }
}
