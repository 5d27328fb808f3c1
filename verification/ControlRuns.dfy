/** What a run of attempts looks like, and what follows for its record, its budget and its repeat safety. */
module ControlRuns {
  import opened Collections
  import opened Ordering
  import opened PlanModel
  import opened RuntimeModel
  import opened ControlModel

  /** A planned node with its candidate bindings, primary first. */
  datatype Settings = Settings(node: ExecutionNode, candidates: seq<ServiceBinding>, key: IdempotencyKey, classifier: Classifier) {
    predicate Valid() {
      && candidates != []
      && node.hints.Valid()
      && forall b :: b in candidates ==> b.Valid()
    }

    function TimeoutFor(index: nat): int
      requires index < |candidates|
    {
      var t := candidates[index].hints.expectedTimeoutMs;
      if node.hints.expectedTimeoutMs <= t then node.hints.expectedTimeoutMs else t
    }

    function MaxAttempts(index: nat): int
      requires index < |candidates|
    {
      var m := candidates[index].hints.maxRetries;
      (if node.hints.maxRetries <= m then node.hints.maxRetries else m) + 1
    }

    ghost predicate UsesDefaultClassifier() {
      forall e :: classifier(e) == DefaultClassifier(e)
    }
  }

  /** The failure verdict recorded in an attempt comes from the classifier, weakened for unsafe bindings. */
  ghost predicate Classified(s: Settings, a: Attempt)
    requires a.fallbackIndex < |s.candidates|
  {
    exists e :: a.failureKind.Some? &&
      EffectiveClassification(s.classifier(e), s.candidates[a.fallbackIndex]) == Classification(a.failureKind.value, a.retryable, a.allowsFallback)
  }

  /** Attempt number `i + 1` taken by itself. */
  ghost predicate AttemptFits(s: Settings, a: Attempt, i: nat) {
    && a.Admissible()
    && a.attemptNumber == i + 1
    && a.key == s.key
    && a.fallbackIndex < |s.candidates|
    && a.bindingId == s.candidates[a.fallbackIndex].Id()
    && a.attemptId == AttemptIdOf(s.key, a.bindingId, i + 1)
    && a.bindingAttemptNumber <= s.MaxAttempts(a.fallbackIndex)
    && a.timeoutMs == s.TimeoutFor(a.fallbackIndex)
    && (a.status == AttemptSucceeded ==> a.durationMs <= a.timeoutMs as real)
    && (a.status != AttemptSucceeded ==> Classified(s, a))
  }

  predicate MayRetry(s: Settings, a: Attempt)
    requires a.fallbackIndex < |s.candidates|
  {
    a.retryable && a.bindingAttemptNumber < s.MaxAttempts(a.fallbackIndex)
  }

  /** `b` is the only attempt that may come after the failed attempt `a`: a retry if allowed, else the next binding. */
  ghost predicate Follows(s: Settings, a: Attempt, b: Attempt)
    requires a.fallbackIndex < |s.candidates|
  {
    && a.status != AttemptSucceeded
    && if MayRetry(s, a) then b.fallbackIndex == a.fallbackIndex && b.bindingAttemptNumber == a.bindingAttemptNumber + 1
       else a.allowsFallback && b.fallbackIndex == a.fallbackIndex + 1 && b.bindingAttemptNumber == 1
  }

  ghost predicate IsRun(s: Settings, attempts: seq<Attempt>) {
    && attempts != []
    && (forall i :: 0 <= i < |attempts| ==> AttemptFits(s, attempts[i], i))
    && attempts[0].fallbackIndex == 0 && attempts[0].bindingAttemptNumber == 1
    && (forall i :: 0 <= i < |attempts| - 1 ==> Follows(s, attempts[i], attempts[i + 1]))
  }

  /** Nothing may come after `a`. */
  ghost predicate Final(s: Settings, a: Attempt)
    requires a.fallbackIndex < |s.candidates|
  {
    a.status == AttemptSucceeded || (!MayRetry(s, a) && !(a.allowsFallback && a.fallbackIndex + 1 < |s.candidates|))
  }

  lemma RunPrefix(s: Settings, attempts: seq<Attempt>, k: nat)
    requires IsRun(s, attempts) && 0 < k <= |attempts|
    ensures IsRun(s, attempts[..k])
  {
  }

  /** The bindings tried so far are all those up to the current one, each with as many attempts as its numbers say. */
  lemma {:induction false} RunCounts(s: Settings, attempts: seq<Attempt>, k: nat)
    requires IsRun(s, attempts)
    ensures var last := attempts[|attempts| - 1];
      && AttemptsAt(attempts, last.fallbackIndex) == last.bindingAttemptNumber
      && (k > last.fallbackIndex ==> AttemptsAt(attempts, k) == 0)
      && (k <= last.fallbackIndex ==> AttemptsAt(attempts, k) >= 1)
      && (k < |s.candidates| && k <= last.fallbackIndex ==> AttemptsAt(attempts, k) <= s.MaxAttempts(k))
  {
    var n := |attempts| - 1;
    if n == 0 {
      assert AttemptsAt(attempts[..0], k) == 0 && AttemptsAt(attempts[..0], 0) == 0;
      assert AttemptFits(s, attempts[0], 0);
    } else {
      RunPrefix(s, attempts, n);
      var front := attempts[..n];
      RunCounts(s, front, k);
      RunCounts(s, front, attempts[n].fallbackIndex);
      assert front[|front| - 1] == attempts[n - 1];
      assert Follows(s, attempts[n - 1], attempts[n]) && AttemptFits(s, attempts[n], n);
    }
  }

  lemma {:induction false} RunTotals(s: Settings, attempts: seq<Attempt>)
    requires IsRun(s, attempts)
    ensures CountRetries(attempts) + attempts[|attempts| - 1].fallbackIndex + 1 == |attempts|
    ensures forall i :: 0 <= i < |attempts| ==> attempts[i].fallbackIndex <= attempts[|attempts| - 1].fallbackIndex
  {
    var n := |attempts| - 1;
    if n == 0 {
      assert AttemptFits(s, attempts[0], 0) && CountRetries(attempts[..0]) == 0;
    } else {
      RunPrefix(s, attempts, n);
      var front := attempts[..n];
      RunTotals(s, front);
      assert front[|front| - 1] == attempts[n - 1];
      assert Follows(s, attempts[n - 1], attempts[n]) && AttemptFits(s, attempts[n], n);
      forall i | 0 <= i < n ensures attempts[i].fallbackIndex <= attempts[n - 1].fallbackIndex { assert front[i] == attempts[i]; }
    }
  }

  /**
   * The retry and fallback budget of a run: retries and fallbacks account for every attempt but the first,
   * bindings are tried in order without gaps, none more often than its limit, and only the last attempt can succeed.
   */
  lemma RunBudget(s: Settings, attempts: seq<Attempt>)
    requires s.Valid() && IsRun(s, attempts)
    ensures |attempts| == CountRetries(attempts) + MaxFallback(attempts) + 1
    ensures MaxFallback(attempts) == attempts[|attempts| - 1].fallbackIndex < |s.candidates|
    ensures forall k: nat :: k < |s.candidates| ==> AttemptsAt(attempts, k) <= s.MaxAttempts(k)
    ensures forall k: nat :: AttemptsAt(attempts, k) >= 1 <==> k <= MaxFallback(attempts)
    ensures forall i :: 0 <= i < |attempts| - 1 ==> attempts[i].status != AttemptSucceeded
    ensures forall i :: 0 <= i < |attempts| - 1 && attempts[i + 1].fallbackIndex > attempts[i].fallbackIndex ==> attempts[i].allowsFallback
  {
    hide AttemptsAt, CountRetries, AttemptFits, Follows, IsRun, ServiceBinding.Valid;
    RunTotals(s, attempts);
    RunEnds(s, attempts);
    forall k: nat
      ensures k < |s.candidates| ==> AttemptsAt(attempts, k) <= s.MaxAttempts(k)
      ensures AttemptsAt(attempts, k) >= 1 <==> k <= attempts[|attempts| - 1].fallbackIndex
    {
      RunCounts(s, attempts, k);
      if k < |s.candidates| { LimitPositive(s, k); }
    }
    forall i | 0 <= i < |attempts| - 1
      ensures attempts[i].status != AttemptSucceeded
      ensures attempts[i + 1].fallbackIndex > attempts[i].fallbackIndex ==> attempts[i].allowsFallback
    {
      RunMoves(s, attempts, i);
    }
  }

  lemma RunEnds(s: Settings, attempts: seq<Attempt>)
    requires IsRun(s, attempts)
    ensures attempts != [] && attempts[|attempts| - 1].fallbackIndex < |s.candidates|
  {
    assert AttemptFits(s, attempts[|attempts| - 1], |attempts| - 1);
  }

  lemma LimitPositive(s: Settings, k: nat)
    requires s.Valid() && k < |s.candidates|
    ensures s.MaxAttempts(k) >= 1
  {
    assert s.candidates[k].Valid();
  }

  lemma RunMoves(s: Settings, attempts: seq<Attempt>, i: nat)
    requires IsRun(s, attempts) && i < |attempts| - 1
    ensures attempts[i].status != AttemptSucceeded
    ensures attempts[i + 1].fallbackIndex > attempts[i].fallbackIndex ==> attempts[i].allowsFallback
  {
    assert AttemptFits(s, attempts[i], i) && Follows(s, attempts[i], attempts[i + 1]);
  }

  /** The record the executor writes for a run. */
  function RecordFor(s: Settings, runId: string, planId: string, attempts: seq<Attempt>): ControlRecord
    requires attempts != [] && s.candidates != []
  {
    var last := attempts[|attempts| - 1];
    ControlRecord(s.key, s.key, runId, planId, s.node.nodeId, s.candidates[0].Id(), Map(BindingKey, s.candidates[1..]),
                  ControlStatusFor(last.status), attempts, CountRetries(attempts), MaxFallback(attempts),
                  last.bindingId, last.failureKind)
  }

  lemma CandidateIds(s: Settings)
    requires s.candidates != []
    ensures [s.candidates[0].Id()] + Map(BindingKey, s.candidates[1..]) == Map(BindingKey, s.candidates)
  {
  }

  lemma RunInOrder(s: Settings, runId: string, planId: string, attempts: seq<Attempt>, i: nat)
    requires IsRun(s, attempts) && i < |attempts| && s.candidates != []
    ensures AttemptInOrder(RecordFor(s, runId, planId, attempts), i)
  {
    CandidateIds(s);
    assert AttemptFits(s, attempts[i], i);
    RunPrefix(s, attempts, i + 1);
    RunCounts(s, attempts[..i + 1], 0);
    if i > 0 {
      assert AttemptFits(s, attempts[i - 1], i - 1) && Follows(s, attempts[i - 1], attempts[i]);
    }
  }

  /** The record of any run passes every check of its constructor exactly when the binding ids are unique. */
  lemma RunRecordAdmissible(s: Settings, runId: string, planId: string, attempts: seq<Attempt>)
    requires IsRun(s, attempts) && s.candidates != []
    ensures RecordAdmissible(RecordFor(s, runId, planId, attempts)) <==> Distinct(Map(BindingKey, s.candidates))
  {
    hide AttemptInOrder, AttemptFits, Follows, CountRetries, MaxFallback;
    var r := RecordFor(s, runId, planId, attempts);
    CandidateIds(s);
    forall i | 0 <= i < |attempts| ensures AttemptInOrder(r, i) && attempts[i].attemptNumber == i + 1 && attempts[i].key == s.key {
      RunInOrder(s, runId, planId, attempts, i);
      AttemptFacts(s, attempts[i], i);
    }
    forall i, j | 0 <= i < j < |attempts| ensures attempts[i].attemptId != attempts[j].attemptId {
      AttemptFacts(s, attempts[i], i);
      AttemptFacts(s, attempts[j], j);
    }
    RunStart(s, attempts);
  }

  lemma RunStart(s: Settings, attempts: seq<Attempt>)
    requires IsRun(s, attempts)
    ensures attempts[0].fallbackIndex == 0
  {
  }

  lemma AttemptFacts(s: Settings, a: Attempt, i: nat)
    requires AttemptFits(s, a, i)
    ensures a.attemptNumber == i + 1 && a.key == s.key && a.attemptId == AttemptIdOf(s.key, a.bindingId, i + 1)
  {
  }

  /**
   * Under the default classifier a stateful binding without the idempotent capability gets one attempt,
   * and its dispatch or timeout failure is the last attempt of the run.
   */
  lemma RunRepeatSafe(s: Settings, attempts: seq<Attempt>, i: nat)
    requires IsRun(s, attempts) && s.UsesDefaultClassifier() && i < |attempts|
    requires attempts[i].fallbackIndex < |s.candidates| && !RepeatIsSafe(s.candidates[attempts[i].fallbackIndex])
    ensures AttemptsAt(attempts, attempts[i].fallbackIndex) == 1
    ensures attempts[i].failureKind in {Some(Dispatch), Some(Timeout)} ==> i == |attempts| - 1
  {
    hide AttemptsAt, AttemptFits, Follows, RepeatIsSafe;
    var index := attempts[i].fallbackIndex;
    forall j | 0 <= j < |attempts| && attempts[j].fallbackIndex == index ensures !attempts[j].retryable {
      UnsafeVerdict(s, attempts[j], j);
    }
    UnsafeOnce(s, attempts, index);
    UnsafeVerdict(s, attempts[i], i);
    if i < |attempts| - 1 { UnsafeStops(s, attempts[i], i, attempts[i + 1]); }
    RunCountsPositive(s, attempts, i);
  }

  /** On an unsafe binding no failure is retried, and a dispatch or timeout failure allows no fallback either. */
  lemma UnsafeVerdict(s: Settings, a: Attempt, i: nat)
    requires s.UsesDefaultClassifier() && AttemptFits(s, a, i)
    requires a.fallbackIndex < |s.candidates| && !RepeatIsSafe(s.candidates[a.fallbackIndex])
    ensures !a.retryable
    ensures a.failureKind in {Some(Dispatch), Some(Timeout)} ==> !a.allowsFallback
  {
    hide RepeatIsSafe;
    if a.status == AttemptSucceeded {
    } else {
      var e :| a.failureKind.Some? &&
        EffectiveClassification(s.classifier(e), s.candidates[a.fallbackIndex]) == Classification(a.failureKind.value, a.retryable, a.allowsFallback);
      assert s.classifier(e) == DefaultClassifier(e);
    }
  }

  lemma UnsafeStops(s: Settings, a: Attempt, i: nat, b: Attempt)
    requires AttemptFits(s, a, i) && Follows(s, a, b) && !a.retryable
    ensures a.allowsFallback
  {
  }

  lemma {:induction false} RunCountsPositive(s: Settings, attempts: seq<Attempt>, i: nat)
    requires i < |attempts|
    ensures AttemptsAt(attempts, attempts[i].fallbackIndex) >= 1
  {
    if i < |attempts| - 1 {
      RunCountsPositive(s, attempts[..|attempts| - 1], i);
    }
  }

  lemma {:induction false} UnsafeOnce(s: Settings, attempts: seq<Attempt>, index: nat)
    requires IsRun(s, attempts)
    requires forall j :: 0 <= j < |attempts| && attempts[j].fallbackIndex == index ==> !attempts[j].retryable
    ensures AttemptsAt(attempts, index) <= 1
  {
    var n := |attempts| - 1;
    if n == 0 {
      assert AttemptsAt(attempts[..0], index) == 0;
    } else {
      RunPrefix(s, attempts, n);
      var front := attempts[..n];
      UnsafeOnce(s, front, index);
      assert front[|front| - 1] == attempts[n - 1];
      assert AttemptFits(s, attempts[n - 1], n - 1) && Follows(s, attempts[n - 1], attempts[n]);
      if attempts[n].fallbackIndex == index {
        RunCounts(s, front, index);
      }
    }
  }

  /** A successful attempt stayed within both the node's and the binding's timeout. */
  lemma SuccessWithinDeadline(s: Settings, attempts: seq<Attempt>, i: nat)
    requires IsRun(s, attempts) && i < |attempts| && attempts[i].status == AttemptSucceeded
    ensures attempts[i].fallbackIndex < |s.candidates|
    ensures attempts[i].durationMs <= s.node.hints.expectedTimeoutMs as real
    ensures attempts[i].durationMs <= s.candidates[attempts[i].fallbackIndex].hints.expectedTimeoutMs as real
    ensures i == |attempts| - 1
  {
    assert AttemptFits(s, attempts[i], i);
    assert i < |attempts| - 1 ==> Follows(s, attempts[i], attempts[i + 1]);
  }

  // ----- The second check -----

  /** `validate_execution_control_record`: the record fits the planned node and the returned traces. */
  ghost predicate RecordMatches(r: ControlRecord, s: Settings, runId: string, planId: string, traces: seq<Trace>) {
    && r.controlKey == s.key && r.key == s.key && r.runId == runId && r.planId == planId && r.nodeId == s.node.nodeId
    && s.candidates != [] && r.primaryBindingId == s.candidates[0].Id()
    && r.fallbackBindingIds == Map(BindingKey, s.candidates[1..])
    && (forall a :: a in r.attempts ==>
          a.spanId in SpanIds(traces) && a.attemptId == AttemptIdOf(s.key, a.bindingId, a.attemptNumber))
    && traces != [] && r.attempts != [] && r.attempts[|r.attempts| - 1].spanId == traces[|traces| - 1].spanId
  }
}
