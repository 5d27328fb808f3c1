/** What follows for the calls, results and leases of a whole run under failure control (execution/control.py). */
module ControlLaws {
  import opened Collections
  import opened PlanModel
  import opened RuntimeModel
  import opened ControlModel
  import opened ControlRuns
  import opened Control
  import Admission

  // ----- Delegate calls -----

  /** How often the log shows a call of the binding `id`. */
  function CallCount(log: seq<Event>, id: string): nat {
    if log == [] then 0 else CallCount(log[..|log| - 1], id) + (if log[|log| - 1] == DelegateCall(id) then 1 else 0)
  }

  /** How many attempts on the binding at `index` got past cancellation and admission. */
  function CalledAt(script: Script, attempts: seq<Attempt>, starts: seq<nat>, index: nat): nat
    requires |attempts| <= |starts|
  {
    if attempts == [] then 0
    else
      var n := |attempts| - 1;
      CalledAt(script, attempts[..n], starts, index) + (if attempts[n].fallbackIndex == index && Called(script, starts[n]) then 1 else 0)
  }

  lemma {:induction false} CalledAtMost(script: Script, attempts: seq<Attempt>, starts: seq<nat>, index: nat)
    requires |attempts| <= |starts|
    ensures CalledAt(script, attempts, starts, index) <= AttemptsAt(attempts, index)
  {
    if attempts != [] { CalledAtMost(script, attempts[..|attempts| - 1], starts, index); }
  }

  lemma {:induction false} CallCountAppend(a: seq<Event>, b: seq<Event>, id: string)
    ensures CallCount(a + b, id) == CallCount(a, id) + CallCount(b, id)
  {
    if b == [] {
      assert a + b == a;
    } else {
      var n := |b| - 1;
      CallCountAppend(a, b[..n], id);
      assert (a + b)[..|a + b| - 1] == a + b[..n];
    }
  }

  lemma AttemptCalls(script: Script, k: nat, bindingId: string, timeoutMs: int, id: string)
    ensures CallCount(AttemptLog(script, k, bindingId, timeoutMs), id) == if Called(script, k) && bindingId == id then 1 else 0
  {
    hide AttemptDuration;
    var events := AttemptLog(script, k, bindingId, timeoutMs);
    CallCountOne(events[0], id);
    if |events| == 1 {
      assert events == [events[0]];
    } else {
      CallCountOne(events[1], id);
      CallCountAppend([events[0]], [events[1]], id);
      if |events| == 2 {
        assert events == [events[0]] + [events[1]];
      } else {
        CallCountOne(events[2], id);
        CallCountOne(events[3], id);
        CallCountAppend([events[0]] + [events[1]], [events[2]], id);
        CallCountAppend([events[0]] + [events[1]] + [events[2]], [events[3]], id);
        if |events| == 4 {
          assert events == [events[0]] + [events[1]] + [events[2]] + [events[3]];
        } else {
          CallCountOne(events[4], id);
          CallCountAppend([events[0]] + [events[1]] + [events[2]] + [events[3]], [events[4]], id);
          assert events == [events[0]] + [events[1]] + [events[2]] + [events[3]] + [events[4]];
        }
      }
    }
  }

  lemma CallCountOne(e: Event, id: string)
    ensures CallCount([e], id) == if e == DelegateCall(id) then 1 else 0
  {
    assert [e][..0] == [];
  }

  /** The facts about attempt `i` of a run. */
  lemma AttemptOfRun(script: Script, log: seq<Event>, from: nat, ctx: Context, s: Settings, t: Trail, i: nat)
    requires Concluded(script, log, from, ctx, s, t) && i < |t.attempts|
    ensures |t.outcomes| == |t.attempts| && |t.starts| == |t.attempts| + 1 && t.starts[0] == from && t.starts[|t.attempts|] == |log|
    ensures var a, k, next := t.attempts[i], t.starts[i], t.starts[i + 1];
      && k < next <= |log| && log[k..next] == AttemptLog(script, k, a.bindingId, a.timeoutMs)
      && t.outcomes[i].error == Verdict(script, k, a.timeoutMs)
      && (t.outcomes[i].error.None? ==> script.delegate(k + 2).Returns? && t.outcomes[i].result == script.delegate(k + 2).outcome.result)
      && a.durationMs == TimeTaken(script, k)
      && Noted(s, a, t.outcomes[i])
      && a.fallbackIndex < |s.candidates| && a.bindingId == s.candidates[a.fallbackIndex].Id() && a.timeoutMs == s.TimeoutFor(a.fallbackIndex)
  {
    hide AttemptLog, Verdict, Noted, TimeTaken, Follows, Final, LogOk, Traced;
    assert Happened(script, log, ctx, s, t.attempts[i], t.outcomes[i], t.starts[i], t.starts[i + 1]);
    assert AttemptFits(s, t.attempts[i], i);
  }

  lemma {:induction false} CallsUpTo(script: Script, log: seq<Event>, from: nat, ctx: Context, s: Settings, t: Trail, index: nat, n: nat)
    requires Concluded(script, log, from, ctx, s, t) && |t.starts| == |t.attempts| + 1
    requires Distinct(Map(BindingKey, s.candidates)) && index < |s.candidates|
    requires n <= |t.attempts| && from <= t.starts[n] <= |log|
    ensures CallCount(log[from..t.starts[n]], s.candidates[index].Id()) == CalledAt(script, t.attempts[..n], t.starts, index)
  {
    hide Concluded, AttemptLog, Called, Noted, Verdict, TimeTaken, ServiceBinding.Id;
    var id := s.candidates[index].Id();
    if n == 0 {
      if t.attempts != [] { AttemptOfRun(script, log, from, ctx, s, t, 0); } else { EmptyTrail(script, log, from, ctx, s, t); }
      assert log[from..t.starts[n]] == [];
    } else {
      var a, k := t.attempts[n - 1], t.starts[n - 1];
      AttemptOfRun(script, log, from, ctx, s, t, n - 1);
      StartsRise(script, log, from, ctx, s, t, n - 1);
      CallsUpTo(script, log, from, ctx, s, t, index, n - 1);
      assert log[from..t.starts[n]] == log[from..k] + log[k..t.starts[n]];
      CallCountAppend(log[from..k], log[k..t.starts[n]], id);
      AttemptCalls(script, k, a.bindingId, a.timeoutMs, id);
      assert t.attempts[..n][..n - 1] == t.attempts[..n - 1];
      SameBinding(s, a.fallbackIndex, index);
    }
  }

  lemma EmptyTrail(script: Script, log: seq<Event>, from: nat, ctx: Context, s: Settings, t: Trail)
    requires Concluded(script, log, from, ctx, s, t)
    ensures t.attempts != []
  {
  }

  lemma SameBinding(s: Settings, i: nat, j: nat)
    requires Distinct(Map(BindingKey, s.candidates)) && i < |s.candidates| && j < |s.candidates|
    ensures s.candidates[i].Id() == s.candidates[j].Id() <==> i == j
  {
    hide ServiceBinding.Id;
    var ids := Map(BindingKey, s.candidates);
    assert ids[i] == s.candidates[i].Id() && ids[j] == s.candidates[j].Id();
  }

  lemma {:induction false} StartsRise(script: Script, log: seq<Event>, from: nat, ctx: Context, s: Settings, t: Trail, i: nat)
    requires Concluded(script, log, from, ctx, s, t) && i <= |t.attempts|
    ensures |t.starts| == |t.attempts| + 1 && from <= t.starts[i] <= |log|
    ensures forall m :: 0 <= m < i ==> t.starts[m] < t.starts[i]
  {
    hide Concluded, AttemptLog, Noted, Verdict, TimeTaken;
    if i == 0 {
      EmptyTrail(script, log, from, ctx, s, t);
      AttemptOfRun(script, log, from, ctx, s, t, 0);
    } else {
      StartsRise(script, log, from, ctx, s, t, i - 1);
      AttemptOfRun(script, log, from, ctx, s, t, i - 1);
    }
  }

  /** Each binding is called exactly once for each attempt on it that was neither canceled beforehand nor refused admission. */
  lemma CallsAreAttempts(script: Script, log: seq<Event>, from: nat, ctx: Context, s: Settings, t: Trail, index: nat)
    requires Concluded(script, log, from, ctx, s, t) && Distinct(Map(BindingKey, s.candidates)) && index < |s.candidates|
    ensures |t.starts| == |t.attempts| + 1 && from <= |log|
    ensures CallCount(log[from..], s.candidates[index].Id()) == CalledAt(script, t.attempts, t.starts, index) <= AttemptsAt(t.attempts, index)
  {
    hide Concluded, Noted, AttemptLog, Verdict, TimeTaken, ServiceBinding.Id;
    var n := |t.attempts|;
    EmptyTrail(script, log, from, ctx, s, t);
    AttemptOfRun(script, log, from, ctx, s, t, 0);
    StartsRise(script, log, from, ctx, s, t, n);
    CallsUpTo(script, log, from, ctx, s, t, index, n);
    assert t.attempts[..n] == t.attempts && log[from..t.starts[n]] == log[from..];
    CalledAtMost(script, t.attempts, t.starts, index);
  }

  /** No binding is called more often than its retry limit allows. */
  lemma CallsWithinBudget(script: Script, log: seq<Event>, from: nat, ctx: Context, s: Settings, t: Trail, index: nat)
    requires s.Valid() && Concluded(script, log, from, ctx, s, t) && Distinct(Map(BindingKey, s.candidates)) && index < |s.candidates|
    ensures from <= |log| && CallCount(log[from..], s.candidates[index].Id()) <= s.MaxAttempts(index)
  {
    CallsAreAttempts(script, log, from, ctx, s, t, index);
    hide Settings.Valid, IsRun, Trailed, Traced, LogOk, ServiceBinding.Id, CallCount, CalledAt, AttemptsAt;
    RunBudget(s, t.attempts);
  }

  /** The attempt that a logged delegate call belongs to. */
  lemma {:induction false} CallIsOf(script: Script, log: seq<Event>, from: nat, ctx: Context, s: Settings, t: Trail, n: nat, j: nat) returns (i: nat)
    requires Concluded(script, log, from, ctx, s, t) && n <= |t.attempts| && |t.starts| == |t.attempts| + 1
    requires from <= j < t.starts[n] <= |log| && log[j].DelegateCall?
    ensures i < n && j == t.starts[i] + 2 && Called(script, t.starts[i]) && log[j] == DelegateCall(t.attempts[i].bindingId)
  {
    hide Concluded, AttemptLog, Called, Noted, Verdict, TimeTaken;
    if n == 0 {
      EmptyTrail(script, log, from, ctx, s, t);
      AttemptOfRun(script, log, from, ctx, s, t, 0);
      assert false;
    } else {
      var k := t.starts[n - 1];
      AttemptOfRun(script, log, from, ctx, s, t, n - 1);
      if j < k {
        i := CallIsOf(script, log, from, ctx, s, t, n - 1, j);
      } else {
        i := n - 1;
        var a := t.attempts[i];
        assert log[j] == log[k..t.starts[n]][j - k];
        AttemptEventFacts(script, k, a.bindingId, a.timeoutMs, j - k);
      }
    }
  }

  /** No delegate is called after the call of the last attempt. */
  lemma LastCall(script: Script, log: seq<Event>, from: nat, ctx: Context, s: Settings, t: Trail, j: nat)
    requires Concluded(script, log, from, ctx, s, t) && from <= j < |log| && log[j].DelegateCall?
    ensures |t.starts| == |t.attempts| + 1 && t.attempts != [] && j <= t.starts[|t.attempts| - 1] + 2
  {
    hide Concluded, AttemptLog, Called, Noted, Verdict, TimeTaken;
    var n := |t.attempts|;
    EmptyTrail(script, log, from, ctx, s, t);
    AttemptOfRun(script, log, from, ctx, s, t, 0);
    var i := CallIsOf(script, log, from, ctx, s, t, n, j);
    StartsRise(script, log, from, ctx, s, t, n - 1);
  }

  /**
   * Repeat safety in terms of actual calls: under the default classifier a stateful binding without the idempotent
   * capability is called at most once, and when that call fails to dispatch or runs out of time no delegate of any
   * binding is called again.
   */
  lemma UnsafeCalledOnce(script: Script, log: seq<Event>, from: nat, ctx: Context, s: Settings, t: Trail, index: nat)
    requires Concluded(script, log, from, ctx, s, t) && s.UsesDefaultClassifier() && Distinct(Map(BindingKey, s.candidates))
    requires index < |s.candidates| && !RepeatIsSafe(s.candidates[index])
    ensures |t.starts| == |t.attempts| + 1 && from <= |log|
    ensures CallCount(log[from..], s.candidates[index].Id()) <= 1
    ensures forall i, j ::
      && 0 <= i < |t.attempts| && t.attempts[i].fallbackIndex == index && from <= j < |log| && log[j].DelegateCall?
      && Verdict(script, t.starts[i], t.attempts[i].timeoutMs).Some?
      && Verdict(script, t.starts[i], t.attempts[i].timeoutMs).value.kind in {DispatchFailure, TimedOutError}
      ==> j <= t.starts[i] + 2
  {
    hide Concluded, AttemptLog, Called, Verdict, TimeTaken, RepeatIsSafe, ServiceBinding.Id, AttemptsAt, CallCount, CalledAt;
    CallsAreAttempts(script, log, from, ctx, s, t, index);
    RunOf(script, log, from, ctx, s, t);
    if AttemptsAt(t.attempts, index) > 0 {
      var i := AttemptAtIndex(t.attempts, index);
      RunRepeatSafe(s, t.attempts, i);
    }
    forall i, j |
      && 0 <= i < |t.attempts| && t.attempts[i].fallbackIndex == index && from <= j < |log| && log[j].DelegateCall?
      && Verdict(script, t.starts[i], t.attempts[i].timeoutMs).Some?
      && Verdict(script, t.starts[i], t.attempts[i].timeoutMs).value.kind in {DispatchFailure, TimedOutError}
      ensures j <= t.starts[i] + 2
    {
      AttemptOfRun(script, log, from, ctx, s, t, i);
      RunRepeatSafe(s, t.attempts, i);
      LastCall(script, log, from, ctx, s, t, j);
    }
  }

  lemma RunOf(script: Script, log: seq<Event>, from: nat, ctx: Context, s: Settings, t: Trail)
    requires Concluded(script, log, from, ctx, s, t)
    ensures IsRun(s, t.attempts)
  {
  }

  lemma {:induction false} AttemptAtIndex(attempts: seq<Attempt>, index: nat) returns (i: nat)
    requires AttemptsAt(attempts, index) > 0
    ensures i < |attempts| && attempts[i].fallbackIndex == index
  {
    var n := |attempts| - 1;
    if attempts[n].fallbackIndex == index {
      i := n;
    } else {
      i := AttemptAtIndex(attempts[..n], index);
    }
  }

  // ----- Success -----

  /**
   * When an attempt succeeds: it was not canceled before or after, it was admitted and its lease came back, and its
   * delegate returned without an error within the time limit.
   */
  predicate WentWell(script: Script, k: nat, timeoutMs: int) {
    && Called(script, k) && script.admission(k + 1).releaseFails.None?
    && script.delegate(k + 2).Returns? && script.delegate(k + 2).outcome.error.None?
    && AttemptDuration(script, k + 2) <= timeoutMs as real
    && !script.canceled(k + 4)
  }

  lemma VerdictNoneIff(script: Script, k: nat, timeoutMs: int)
    ensures Verdict(script, k, timeoutMs).None? <==> WentWell(script, k, timeoutMs)
  {
    hide AttemptDuration;
  }

  /** The result is what the delegate call of the attempt begun at event `k` returned, and that call was the last one and in time. */
  ghost predicate DeliveredBy(script: Script, log: seq<Event>, s: Settings, a: Attempt, k: nat, o: Outcome) {
    && k + 2 < |log| && log[k + 2] == DelegateCall(a.bindingId)
    && (forall j :: k + 2 < j < |log| ==> !log[j].DelegateCall?)
    && script.delegate(k + 2).Returns? && o.result == script.delegate(k + 2).outcome.result
    && a.fallbackIndex < |s.candidates|
    && AttemptDuration(script, k + 2) <= s.node.hints.expectedTimeoutMs as real
    && AttemptDuration(script, k + 2) <= s.candidates[a.fallbackIndex].hints.expectedTimeoutMs as real
  }

  /**
   * A run returns a result exactly when its last attempt went well. The result is then the one that the last delegate
   * called returned, within the time limits of both the node and the binding.
   */
  lemma SuccessIsTheDelegates(script: Script, log: seq<Event>, from: nat, ctx: Context, s: Settings, t: Trail, o: Outcome)
    requires Concluded(script, log, from, ctx, s, t) && Finalized(ctx, s, t, o)
    ensures t.attempts != [] && |t.starts| == |t.attempts| + 1
    ensures o.error.None? <==> WentWell(script, t.starts[|t.attempts| - 1], t.attempts[|t.attempts| - 1].timeoutMs)
    ensures o.error.None? ==> DeliveredBy(script, log, s, t.attempts[|t.attempts| - 1], t.starts[|t.attempts| - 1], o)
  {
    hide Concluded, Finalized, AttemptLog, Verdict, TimeTaken, Noted, AttemptDuration, ServiceBinding.Id;
    EmptyTrail(script, log, from, ctx, s, t);
    var n := |t.attempts| - 1;
    AttemptOfRun(script, log, from, ctx, s, t, n);
    FinalizedFacts(ctx, s, t, o);
    var a, k := t.attempts[n], t.starts[n];
    VerdictNoneIff(script, k, a.timeoutMs);
    if o.error.None? {
      AttemptEventFacts(script, k, a.bindingId, a.timeoutMs, 0);
      assert log[k + 2] == log[k..t.starts[n + 1]][2];
      StartsRise(script, log, from, ctx, s, t, n);
      forall j | k + 2 < j < |log| ensures !log[j].DelegateCall? {
        if log[j].DelegateCall? { LastCall(script, log, from, ctx, s, t, j); }
      }
    }
  }

  lemma FinalizedFacts(ctx: Context, s: Settings, t: Trail, o: Outcome)
    requires Finalized(ctx, s, t, o)
    ensures t.outcomes != [] && o.result == t.outcomes[|t.outcomes| - 1].result && o.error == t.outcomes[|t.outcomes| - 1].error
    ensures o.RuntimeTraces() == t.Traces() && o.record.Some? && o.Admissible()
  {
  }

  /** The same for every attempt: it is recorded as succeeded exactly when it went well, with the duration it really took. */
  lemma AttemptSucceedsIff(script: Script, log: seq<Event>, from: nat, ctx: Context, s: Settings, t: Trail, i: nat)
    requires Concluded(script, log, from, ctx, s, t) && i < |t.attempts|
    ensures |t.starts| == |t.attempts| + 1
    ensures t.attempts[i].status == AttemptSucceeded <==> WentWell(script, t.starts[i], t.attempts[i].timeoutMs)
    ensures t.attempts[i].durationMs == TimeTaken(script, t.starts[i])
  {
    hide Concluded, AttemptLog, Verdict, TimeTaken, WentWell, ServiceBinding.Id;
    AttemptOfRun(script, log, from, ctx, s, t, i);
    VerdictNoneIff(script, t.starts[i], t.attempts[i].timeoutMs);
  }

  // ----- Cancellation -----

  /**
   * Once a cancellation that is never withdrawn has been observed, no delegate is called any more; and under the default
   * classifier an attempt begun after that is the last one and is marked canceled.
   */
  lemma CancellationEnds(script: Script, log: seq<Event>, from: nat, ctx: Context, s: Settings, t: Trail, i: nat)
    requires Concluded(script, log, from, ctx, s, t) && script.Monotone() && from <= i < |log| && log[i].CancelCheck? && log[i].answer
    ensures forall j :: i < j < |log| ==> !log[j].DelegateCall?
    ensures |t.starts| == |t.attempts| + 1
    ensures s.UsesDefaultClassifier() ==>
      forall m :: 0 <= m < |t.attempts| && t.starts[m] > i ==> m == |t.attempts| - 1 && t.attempts[m].status == AttemptCanceled
  {
    hide Verdict, TimeTaken, AttemptLog, Noted, AttemptResult, IsRun, Final, Traced;
    var n := |t.attempts|;
    assert script.canceled(i);
    forall j | i < j < |log| ensures !log[j].DelegateCall? {
      if log[j].DelegateCall? { NoCallAfterCancellation(script, log, from, j); }
    }
    if s.UsesDefaultClassifier() {
      forall m | 0 <= m < n && t.starts[m] > i ensures m == n - 1 && t.attempts[m].status == AttemptCanceled {
        var a, k := t.attempts[m], t.starts[m];
        AttemptOfRun(script, log, from, ctx, s, t, m);
        AttemptEventFacts(script, k, a.bindingId, a.timeoutMs, 0);
        assert log[k] == log[k..t.starts[m + 1]][0] == CancelCheck(true, true);
        StartsRise(script, log, from, ctx, s, t, n);
        assert t.starts[m + 1] > k == |log| - 1;
      }
    }
  }

  // ----- Leases over a concurrency ledger -----

  /** The ledger after the first `n` attempts: each called one took a lease of its own and gave it back. */
  function LedgerAfter(l: Admission.Ledger, script: Script, s: Settings, t: Trail, n: nat): Admission.Ledger
    requires n <= |t.attempts| <= |t.starts| && forall a :: a in t.attempts ==> a.fallbackIndex < |s.candidates|
  {
    if n == 0 then l
    else
      var before := LedgerAfter(l, script, s, t, n - 1);
      if !Called(script, t.starts[n - 1]) then before
      else
        var b := s.candidates[t.attempts[n - 1].fallbackIndex];
        Admission.AfterRelease(Admission.AfterAcquire(before, b), |before.leases|)
  }

  lemma LedgerStep(l: Admission.Ledger, script: Script, s: Settings, t: Trail, i: nat)
    requires i < |t.attempts| <= |t.starts| && forall a :: a in t.attempts ==> a.fallbackIndex < |s.candidates|
    ensures var before, b := LedgerAfter(l, script, s, t, i), s.candidates[t.attempts[i].fallbackIndex];
      LedgerAfter(l, script, s, t, i + 1) ==
        if Called(script, t.starts[i]) then Admission.AfterRelease(Admission.AfterAcquire(before, b), |before.leases|) else before
  {
  }

  /** Admission during the run is what the concurrency controller answers on that ledger. */
  ghost predicate AdmittedBy(l: Admission.Ledger, script: Script, s: Settings, t: Trail) {
    && |t.attempts| <= |t.starts| && (forall a :: a in t.attempts ==> a.fallbackIndex < |s.candidates|)
    && forall i :: 0 <= i < |t.attempts| && !script.canceled(t.starts[i]) ==>
         (script.admission(t.starts[i] + 1).Granted? <==>
            var b := s.candidates[t.attempts[i].fallbackIndex];
            b.maxConcurrency.None? || Admission.Counted(LedgerAfter(l, script, s, t, i), b))
  }

  lemma LeaseRoundTrip(l: Admission.Ledger, b: ServiceBinding)
    requires Admission.Balanced(l) && (b.maxConcurrency.None? || Admission.Counted(l, b))
    ensures var after := Admission.AfterRelease(Admission.AfterAcquire(l, b), |l.leases|);
      Admission.Balanced(after) && after.active == l.active
  {
    hide Admission.Outstanding, ServiceBinding.Id;
    var acquired := Admission.AfterAcquire(l, b);
    Admission.StepBalanced(l, Admission.Acquire(b));
    Admission.StepBalanced(acquired, Admission.Release(|l.leases|));
    assert Admission.BalancedAt(l, b.Id());
    if Admission.Counted(l, b) {
      assert acquired.leases[|l.leases|] == Admission.LeaseState(b.Id(), false);
    }
  }

  /**
   * A run over the concurrency controller gives back everything it took, attempt by attempt. So it leaves the counts as it
   * found them, and a binding is refused during the run only if it was already full before it.
   */
  lemma {:induction false} LedgerRestored(l: Admission.Ledger, script: Script, s: Settings, t: Trail, n: nat)
    requires Admission.Balanced(l) && AdmittedBy(l, script, s, t) && n <= |t.attempts|
    ensures Admission.Balanced(LedgerAfter(l, script, s, t, n)) && LedgerAfter(l, script, s, t, n).active == l.active
    ensures n < |t.attempts| && !script.canceled(t.starts[n]) ==>
      (Called(script, t.starts[n]) <==>
         var b := s.candidates[t.attempts[n].fallbackIndex];
         b.maxConcurrency.None? || Admission.ActiveCount(l, b.Id()) < b.maxConcurrency.value)
  {
    hide Admission.AfterRelease, Admission.AfterAcquire, Admission.Balanced, ServiceBinding.Id;
    if n > 0 {
      LedgerRestored(l, script, s, t, n - 1);
      if Called(script, t.starts[n - 1]) {
        LeaseRoundTrip(LedgerAfter(l, script, s, t, n - 1), s.candidates[t.attempts[n - 1].fallbackIndex]);
      }
    }
  }

  /**
   * The same on an actual controller: the acquires and releases that the attempts of the run make on it are answered as the
   * run was, every lease they take is released, and the controller ends with the counts it began with.
   */
  method AdmitThrough(controller: Admission.Controller, script: Script, s: Settings, t: Trail)
    requires controller.Valid() && Admission.Balanced(controller.View()) && AdmittedBy(controller.View(), script, s, t)
    modifies controller
    ensures controller.Valid() && Admission.Balanced(controller.View())
    ensures controller.View() == LedgerAfter(old(controller.View()), script, s, t, |t.attempts|)
    ensures controller.View().active == old(controller.View()).active
    ensures old(controller.issued) <= controller.issued
    ensures forall i :: |old(controller.issued)| <= i < |controller.issued| ==> controller.issued[i].released
  {
    hide Admission.AfterRelease, Admission.AfterAcquire, Admission.Balanced, Admission.Counted, ServiceBinding.Id, LedgerAfter, Distinct;
    ghost var start, issued := controller.View(), controller.issued;
    LedgerStarts(start, script, s, t);
    for i := 0 to |t.attempts|
      invariant controller.Valid() && controller.View() == LedgerAfter(start, script, s, t, i)
      invariant issued <= controller.issued
    {
      LedgerStep(start, script, s, t, i);
      if !script.canceled(t.starts[i]) {
        assert t.attempts[i] in t.attempts;
        var b := s.candidates[t.attempts[i].fallbackIndex];
        ghost var before, holders := controller.View(), controller.issued;
        Uncounted(before, b);
        var reply := controller.TryAcquire(b);
        if reply.Leased? {
          IndexOfLast(holders, reply.lease);
          reply.lease.Release();
        }
      }
    }
    LedgerRestored(start, script, s, t, |t.attempts|);
    forall i | |issued| <= i < |controller.issued| ensures controller.issued[i].released {
      LedgerReleased(start, script, s, t, |t.attempts|, i);
      assert controller.View().leases[i].released;
    }
  }

  lemma LedgerStarts(l: Admission.Ledger, script: Script, s: Settings, t: Trail)
    requires |t.attempts| <= |t.starts| && forall a :: a in t.attempts ==> a.fallbackIndex < |s.candidates|
    ensures LedgerAfter(l, script, s, t, 0) == l
  {
  }

  /** Without a count there is nothing to give back. */
  lemma Uncounted(l: Admission.Ledger, b: ServiceBinding)
    ensures !Admission.Counted(l, b) ==> Admission.AfterAcquire(l, b) == l
    ensures Admission.AfterRelease(l, |l.leases|) == l
    ensures b.maxConcurrency.None? ==> !Admission.Counted(l, b)
  {
    hide ServiceBinding.Id;
  }

  /** Every lease of the run is released again. */
  lemma {:induction false} LedgerReleased(l: Admission.Ledger, script: Script, s: Settings, t: Trail, n: nat, i: nat)
    requires n <= |t.attempts| <= |t.starts| && forall a :: a in t.attempts ==> a.fallbackIndex < |s.candidates|
    requires |l.leases| <= i < |LedgerAfter(l, script, s, t, n).leases|
    ensures LedgerAfter(l, script, s, t, n).leases[i].released
  {
    hide ServiceBinding.Id, Admission.Counted;
    if n > 0 {
      var before := LedgerAfter(l, script, s, t, n - 1);
      if i < |before.leases| { LedgerReleased(l, script, s, t, n - 1, i); }
    }
  }
}
