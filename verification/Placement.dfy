/** The capability catalog and runtime-aware placement (execution/catalog.py, execution/placement.py). */
module Placement {
  import opened Collections
  import opened Ordering
  import opened Issues
  import opened PlanModel
  import opened RuntimeModel

  // ----- Catalog -----

  datatype Catalog = Catalog(bindings: seq<ServiceBinding>) {
    /** What the constructor guarantees. */
    ghost predicate Valid() {
      Distinct(Map(BindingKey, bindings))
    }
  }

  predicate Compatible(b: ServiceBinding, m: Manifest) {
    b.cellId == m.cellId && b.formulaVersion == m.formulaVersion
  }

  /** Order by priority, then implementation, then service. */
  predicate CandidateLe(a: ServiceBinding, b: ServiceBinding) {
    if a.priority != b.priority then a.priority < b.priority
    else if a.implementationId != b.implementationId then StrLe(a.implementationId, b.implementationId)
    else StrLe(a.serviceId, b.serviceId)
  }

  function CandidatesFor(catalog: Catalog, m: Manifest): seq<ServiceBinding> {
    SortBy(CandidateLe, Filter(b => Compatible(b, m), catalog.bindings))
  }

  lemma CandidateLeIsTotalPreorder()
    ensures TotalPreorder(CandidateLe)
  {
    forall x, y ensures CandidateLe(x, y) || CandidateLe(y, x) {
      StrLeTotal(x.implementationId, y.implementationId);
      StrLeTotal(x.serviceId, y.serviceId);
    }
    forall x, y, z | CandidateLe(x, y) && CandidateLe(y, z) ensures CandidateLe(x, z) {
      StringChain(x.implementationId, y.implementationId, z.implementationId);
      StringChain(x.serviceId, y.serviceId, z.serviceId);
    }
  }

  lemma StringChain(a: string, b: string, c: string)
    ensures StrLe(a, b) && StrLe(b, c) ==> StrLe(a, c)
    ensures StrLe(a, b) && StrLe(b, a) ==> a == b
    ensures StrLe(b, c) && StrLe(c, b) ==> b == c
  {
    StrLeTotal(a, b);
    StrLeTotal(b, c);
    if StrLe(a, b) && StrLe(b, c) { StrLeTransitive(a, b, c); }
  }

  /** The candidates are the catalog's compatible bindings, each once. */
  lemma CandidatesAreCompatible(catalog: Catalog, m: Manifest)
    requires catalog.Valid()
    ensures forall b :: b in CandidatesFor(catalog, m) <==> b in catalog.bindings && Compatible(b, m)
    ensures Distinct(Map(BindingKey, CandidatesFor(catalog, m)))
    ensures forall i, j :: 0 <= i < j < |CandidatesFor(catalog, m)| ==> CandidateLe(CandidatesFor(catalog, m)[i], CandidatesFor(catalog, m)[j])
  {
    var p := b => Compatible(b, m);
    var kept := Filter(p, catalog.bindings);
    CandidateLeIsTotalPreorder();
    SortByElements(CandidateLe, kept);
    SortBySorted(CandidateLe, kept);
    DistinctFromKeys(BindingKey, catalog.bindings);
    FilterDistinct(p, catalog.bindings);
    KeysStayDistinct(BindingKey, catalog.bindings, CandidatesFor(catalog, m));
  }

  lemma DistinctFromKeys<K, T>(id: T -> K, xs: seq<T>)
    requires Distinct(Map(id, xs))
    ensures Distinct(xs)
  {
    forall i, j | 0 <= i < j < |xs| ensures xs[i] != xs[j] { assert Map(id, xs)[i] != Map(id, xs)[j]; }
  }

  lemma KeysStayDistinct<K, T>(id: T -> K, xs: seq<T>, ys: seq<T>)
    requires Distinct(Map(id, xs)) && Distinct(ys) && forall y :: y in ys ==> y in xs
    ensures Distinct(Map(id, ys))
  {
    forall i, j | 0 <= i < j < |ys| ensures Map(id, ys)[i] != Map(id, ys)[j] {
      if id(ys[i]) == id(ys[j]) { SameIdSameElement(id, xs, ys[i], ys[j]); }
    }
  }

  // ----- Evaluation and rank -----

  datatype HistoryStatus = NoHistory | InsufficientHistory | Healthy | Unhealthy

  datatype Evaluation = Evaluation(
    bindingId: string, implementationId: string, serviceId: string, priority: int, traceCount: nat,
    failureRate: Option<real>, p95: Option<real>, status: HistoryStatus)

  datatype PlacementDecision = PlacementDecision(
    cellId: string, formulaVersion: string, selected: ServiceBinding, fallbacks: seq<ServiceBinding>,
    evaluations: seq<Evaluation>)
  {
    function Bindings(): seq<ServiceBinding> { [selected] + fallbacks }

    /** The checks a decision runs when it is constructed. */
    ghost predicate Admissible() {
      var evaluated := Map((e: Evaluation) => e.bindingId, evaluations);
      && Distinct(Map(BindingKey, Bindings()))
      && (forall b :: b in Bindings() ==> b.cellId == cellId && b.formulaVersion == formulaVersion)
      && evaluations != []
      && Distinct(evaluated)
      && forall b :: b in Bindings() ==> b.Id() in evaluated
    }
  }

  datatype PlacementPolicy = PlacementPolicy(minimumTraceCount: nat, maxFailureRate: real)

  predicate IsHistoryOf(e: SummaryEntry, b: ServiceBinding) {
    e.key == GroupKey(b.cellId, b.formulaVersion, Some(b.implementationId), Some(b.serviceId), Some(b.runtime))
  }

  /** The first history entry that matches a binding. */
  function FindHistory(b: ServiceBinding, entries: seq<SummaryEntry>): Option<SummaryEntry> {
    if entries == [] then None
    else if IsHistoryOf(entries[0], b) then Some(entries[0])
    else FindHistory(b, entries[1..])
  }

  function StatusOf(policy: PlacementPolicy, traceCount: nat, failureRate: Option<real>): HistoryStatus {
    if traceCount == 0 then NoHistory
    else if traceCount < policy.minimumTraceCount then InsufficientHistory
    else if failureRate.Some? && failureRate.value > policy.maxFailureRate then Unhealthy
    else Healthy
  }

  function Evaluate(policy: PlacementPolicy, b: ServiceBinding, entries: seq<SummaryEntry>): Evaluation {
    var history := FindHistory(b, entries);
    var traceCount := if history.Some? then history.value.traceCount else 0;
    var failureRate := if history.Some? then Some(history.value.failureRate) else None;
    var p95 := if history.Some? then Some(history.value.p95) else None;
    Evaluation(b.Id(), b.implementationId, b.serviceId, b.priority, traceCount, failureRate, p95,
               StatusOf(policy, traceCount, failureRate))
  }

  /** The sort key: unhealthy candidates form a second tier ordered by failure rate. `latency` None is infinity. */
  datatype Rank = Rank(tier: int, first: real, second: real, latency: Option<real>, implementationId: string, serviceId: string)

  function SelectionRank(e: Evaluation): Rank {
    if e.status.Unhealthy? then
      Rank(1, if e.failureRate.Some? then e.failureRate.value else 1.0, e.priority as real, e.p95, e.implementationId, e.serviceId)
    else
      Rank(0, e.priority as real, match e.status case Healthy => 0.0 case InsufficientHistory => 1.0 case _ => 2.0,
           e.p95, e.implementationId, e.serviceId)
  }

  predicate LatencyLess(a: Option<real>, b: Option<real>) {
    a.Some? && (b.None? || a.value < b.value)
  }

  predicate RankLe(a: Rank, b: Rank) {
    if a.tier != b.tier then a.tier < b.tier
    else if a.first != b.first then a.first < b.first
    else if a.second != b.second then a.second < b.second
    else if a.latency != b.latency then LatencyLess(a.latency, b.latency)
    else if a.implementationId != b.implementationId then StrLe(a.implementationId, b.implementationId)
    else StrLe(a.serviceId, b.serviceId)
  }

  predicate EvaluationLe(a: Evaluation, b: Evaluation) {
    RankLe(SelectionRank(a), SelectionRank(b))
  }

  lemma RankChain(a: Rank, b: Rank, c: Rank)
    ensures RankLe(a, b) || RankLe(b, a)
    ensures RankLe(a, b) && RankLe(b, c) ==> RankLe(a, c)
    ensures RankLe(a, b) && RankLe(b, a) ==> a == b
  {
    StringChain(a.implementationId, b.implementationId, c.implementationId);
    StringChain(a.serviceId, b.serviceId, c.serviceId);
    StrLeTotal(a.implementationId, b.implementationId);
    StrLeTotal(a.serviceId, b.serviceId);
  }

  lemma EvaluationLeIsTotalPreorder()
    ensures TotalPreorder(EvaluationLe)
  {
    forall x, y ensures EvaluationLe(x, y) || EvaluationLe(y, x) {
      RankChain(SelectionRank(x), SelectionRank(y), SelectionRank(x));
    }
    forall x, y, z | EvaluationLe(x, y) && EvaluationLe(y, z) ensures EvaluationLe(x, z) {
      RankChain(SelectionRank(x), SelectionRank(y), SelectionRank(z));
    }
  }

  // ----- Selection -----

  function CompatibleCandidates(m: Manifest, candidates: seq<ServiceBinding>): seq<ServiceBinding> {
    Filter(b => Compatible(b, m), candidates)
  }

  function Evaluations(policy: PlacementPolicy, bindings: seq<ServiceBinding>, entries: seq<SummaryEntry>): seq<Evaluation> {
    Map(b => Evaluate(policy, b, entries), bindings)
  }

  function SelectionPool(evaluations: seq<Evaluation>): seq<Evaluation> {
    var nonUnhealthy := Filter((e: Evaluation) => !e.status.Unhealthy?, evaluations);
    if nonUnhealthy != [] then nonUnhealthy else evaluations
  }

  function RankedPool(policy: PlacementPolicy, m: Manifest, candidates: seq<ServiceBinding>, entries: seq<SummaryEntry>): seq<Evaluation> {
    SortBy(EvaluationLe, SelectionPool(Evaluations(policy, CompatibleCandidates(m, candidates), entries)))
  }

  lemma PoolMembers(evaluations: seq<Evaluation>)
    ensures forall e :: e in SelectionPool(evaluations) ==> e in evaluations
    ensures evaluations != [] ==> SelectionPool(evaluations) != []
    ensures (exists e :: e in evaluations && !e.status.Unhealthy?) ==>
      forall e :: e in SelectionPool(evaluations) <==> e in evaluations && !e.status.Unhealthy?
    ensures (forall e :: e in evaluations ==> e.status.Unhealthy?) ==> SelectionPool(evaluations) == evaluations
  {
    var kept := Filter((e: Evaluation) => !e.status.Unhealthy?, evaluations);
    if kept != [] { assert kept[0] in kept; }
  }

  /** Every evaluation is found again under its binding id. */
  lemma EvaluationIsOf(policy: PlacementPolicy, bindings: seq<ServiceBinding>, entries: seq<SummaryEntry>, e: Evaluation)
    requires e in Evaluations(policy, bindings, entries)
    ensures e.bindingId in LastById(BindingKey, bindings)
    ensures Evaluate(policy, LastById(BindingKey, bindings)[e.bindingId], entries).bindingId == e.bindingId
  {
    hide LastById, Map, FindHistory, StatusOf, ServiceBinding.Id;
    var i :| 0 <= i < |bindings| && Evaluations(policy, bindings, entries)[i] == e;
    assert e == Evaluate(policy, bindings[i], entries);
    assert BindingKey(bindings[i]) in LastById(BindingKey, bindings);
    var b := LastById(BindingKey, bindings)[e.bindingId];
    assert BindingKey(b) == e.bindingId;
  }

  lemma RankedPoolMembers(policy: PlacementPolicy, m: Manifest, candidates: seq<ServiceBinding>, entries: seq<SummaryEntry>)
    ensures var compatible := CompatibleCandidates(m, candidates);
      forall e :: e in RankedPool(policy, m, candidates, entries) ==>
        e.bindingId in LastById(BindingKey, compatible) && Evaluate(policy, LastById(BindingKey, compatible)[e.bindingId], entries).bindingId == e.bindingId
    ensures CompatibleCandidates(m, candidates) != [] ==> RankedPool(policy, m, candidates, entries) != []
  {
    hide Evaluate, LastById, EvaluationLe, SelectionPool, CompatibleCandidates, SortBy, Map;
    var compatible := CompatibleCandidates(m, candidates);
    var evaluations := Evaluations(policy, compatible, entries);
    PoolMembers(evaluations);
    EvaluationLeIsTotalPreorder();
    SortByElements(EvaluationLe, SelectionPool(evaluations));
    forall e | e in RankedPool(policy, m, candidates, entries)
      ensures e.bindingId in LastById(BindingKey, compatible)
      ensures Evaluate(policy, LastById(BindingKey, compatible)[e.bindingId], entries).bindingId == e.bindingId
    {
      EvaluationIsOf(policy, compatible, entries, e);
    }
  }

  /** The bindings behind a ranked list of evaluations. */
  function BindingsOf(ranked: seq<Evaluation>, byId: map<string, ServiceBinding>): (r: seq<ServiceBinding>)
    requires forall e :: e in ranked ==> e.bindingId in byId
    ensures |r| == |ranked| && forall i :: 0 <= i < |ranked| ==> r[i] == byId[ranked[i].bindingId]
  {
    if ranked == [] then []
    else
      assert forall e :: e in ranked[1..] ==> e in ranked;
      [byId[ranked[0].bindingId]] + BindingsOf(ranked[1..], byId)
  }

  /** None when no candidate is compatible with the cell. */
  function Select(policy: PlacementPolicy, m: Manifest, candidates: seq<ServiceBinding>, entries: seq<SummaryEntry>): Option<PlacementDecision> {
    var compatible := CompatibleCandidates(m, candidates);
    if compatible == [] then None
    else
      var ranked := RankedPool(policy, m, candidates, entries);
      RankedPoolMembers(policy, m, candidates, entries);
      var bindings := BindingsOf(ranked, LastById(BindingKey, compatible));
      Some(PlacementDecision(m.cellId, m.formulaVersion, bindings[0], bindings[1..],
                             SortBy(EvaluationLe, Evaluations(policy, compatible, entries))))
  }

  // ----- Properties of a selection -----

  lemma EvaluationsDistinct(policy: PlacementPolicy, bindings: seq<ServiceBinding>, entries: seq<SummaryEntry>)
    requires Distinct(Map(BindingKey, bindings))
    ensures Distinct(Map((e: Evaluation) => e.bindingId, Evaluations(policy, bindings, entries)))
    ensures Distinct(Evaluations(policy, bindings, entries))
  {
    var evaluations := Evaluations(policy, bindings, entries);
    forall i, j | 0 <= i < j < |bindings| ensures evaluations[i].bindingId != evaluations[j].bindingId {
      assert Map(BindingKey, bindings)[i] != Map(BindingKey, bindings)[j];
    }
  }

  /** Among candidates with unique ids the rank tells any two evaluations apart. */
  lemma RankIsStrict(policy: PlacementPolicy, bindings: seq<ServiceBinding>, entries: seq<SummaryEntry>, x: Evaluation, y: Evaluation)
    requires x in Evaluations(policy, bindings, entries) && y in Evaluations(policy, bindings, entries)
    requires Distinct(Map(BindingKey, bindings))
    requires EvaluationLe(x, y) && EvaluationLe(y, x)
    ensures x == y
  {
    RankChain(SelectionRank(x), SelectionRank(y), SelectionRank(x));
    var evaluations := Evaluations(policy, bindings, entries);
    var i :| 0 <= i < |evaluations| && evaluations[i] == x;
    var j :| 0 <= j < |evaluations| && evaluations[j] == y;
    assert Map(BindingKey, bindings)[i] == Map(BindingKey, bindings)[j];
  }

  lemma CompatibleDistinct(m: Manifest, candidates: seq<ServiceBinding>)
    requires Distinct(Map(BindingKey, candidates))
    ensures Distinct(Map(BindingKey, CompatibleCandidates(m, candidates)))
  {
    DistinctFromKeys(BindingKey, candidates);
    FilterDistinct(b => Compatible(b, m), candidates);
    KeysStayDistinct(BindingKey, candidates, CompatibleCandidates(m, candidates));
  }

  lemma BindingOfEvaluation(policy: PlacementPolicy, compatible: seq<ServiceBinding>, entries: seq<SummaryEntry>, e: Evaluation)
    requires e in Evaluations(policy, compatible, entries) && Distinct(Map(BindingKey, compatible))
    ensures e.bindingId in LastById(BindingKey, compatible)
    ensures var b := LastById(BindingKey, compatible)[e.bindingId];
      b in compatible && b.Id() == e.bindingId && Evaluate(policy, b, entries) == e
  {
    var evaluations := Evaluations(policy, compatible, entries);
    var i :| 0 <= i < |evaluations| && evaluations[i] == e;
    LastByIdFinds(BindingKey, compatible, compatible[i]);
  }

  lemma PoolDistinct(evaluations: seq<Evaluation>)
    requires Distinct(evaluations)
    ensures Distinct(SelectionPool(evaluations))
  {
    FilterDistinct((e: Evaluation) => !e.status.Unhealthy?, evaluations);
  }

  lemma RankedBinding(policy: PlacementPolicy, compatible: seq<ServiceBinding>, entries: seq<SummaryEntry>, ranked: seq<Evaluation>, i: nat)
    requires Distinct(Map(BindingKey, compatible)) && i < |ranked|
    requires forall e :: e in ranked ==> e in Evaluations(policy, compatible, entries)
    requires forall e :: e in ranked ==> e.bindingId in LastById(BindingKey, compatible)
    ensures var b := BindingsOf(ranked, LastById(BindingKey, compatible))[i];
      b in compatible && Evaluate(policy, b, entries) == ranked[i]
  {
    hide LastById, Evaluate, Map;
    BindingOfEvaluation(policy, compatible, entries, ranked[i]);
  }

  lemma RankedFromCompatible(policy: PlacementPolicy, m: Manifest, candidates: seq<ServiceBinding>, entries: seq<SummaryEntry>)
    ensures forall e :: e in RankedPool(policy, m, candidates, entries) ==>
      e in Evaluations(policy, CompatibleCandidates(m, candidates), entries)
  {
    hide SortBy, Evaluate, SelectionPool, EvaluationLe, CompatibleCandidates;
    var evaluations := Evaluations(policy, CompatibleCandidates(m, candidates), entries);
    EvaluationLeIsTotalPreorder();
    SortByElements(EvaluationLe, SelectionPool(evaluations));
    PoolMembers(evaluations);
  }

  /** The selected binding and its fallbacks are compatible candidates whose evaluations are the ranked pool. */
  lemma SelectionMatchesPool(policy: PlacementPolicy, m: Manifest, candidates: seq<ServiceBinding>, entries: seq<SummaryEntry>)
    requires Distinct(Map(BindingKey, candidates))
    requires Select(policy, m, candidates, entries).Some?
    ensures var bindings := Select(policy, m, candidates, entries).value.Bindings();
      && (forall b :: b in bindings ==> b in CompatibleCandidates(m, candidates))
      && Map(b => Evaluate(policy, b, entries), bindings) == RankedPool(policy, m, candidates, entries)
  {
    hide RankedPool, LastById, Evaluate, CompatibleCandidates, Map;
    var compatible := CompatibleCandidates(m, candidates);
    var ranked := RankedPool(policy, m, candidates, entries);
    CompatibleDistinct(m, candidates);
    RankedPoolMembers(policy, m, candidates, entries);
    RankedFromCompatible(policy, m, candidates, entries);
    var bindings := BindingsOf(ranked, LastById(BindingKey, compatible));
    assert Select(policy, m, candidates, entries).value.Bindings() == bindings;
    forall i | 0 <= i < |ranked| ensures bindings[i] in compatible && Evaluate(policy, bindings[i], entries) == ranked[i] {
      RankedBinding(policy, compatible, entries, ranked, i);
    }
    assert Map(b => Evaluate(policy, b, entries), bindings) == ranked;
  }

  lemma SelectsIffCompatible(policy: PlacementPolicy, m: Manifest, candidates: seq<ServiceBinding>, entries: seq<SummaryEntry>)
    ensures Select(policy, m, candidates, entries).Some? <==> exists b :: b in candidates && Compatible(b, m)
  {
    var compatible := CompatibleCandidates(m, candidates);
    if compatible != [] { assert compatible[0] in compatible; }
    if b :| b in candidates && Compatible(b, m) { assert b in compatible; }
  }

  /**
   * What selection achieves: its bindings are in rank order, the first of least rank, and they are
   * the non-unhealthy candidates when there are any and all of them otherwise.
   */
  lemma SelectionIsRankedPool(policy: PlacementPolicy, m: Manifest, candidates: seq<ServiceBinding>, entries: seq<SummaryEntry>)
    requires Distinct(Map(BindingKey, candidates))
    requires Select(policy, m, candidates, entries).Some?
    ensures var bindings := Select(policy, m, candidates, entries).value.Bindings();
      && (forall i, j :: 0 <= i < j < |bindings| ==>
            EvaluationLe(Evaluate(policy, bindings[i], entries), Evaluate(policy, bindings[j], entries)))
      && (forall b :: b in bindings <==>
            && b in candidates && Compatible(b, m)
            && (Evaluate(policy, b, entries).status.Unhealthy? ==>
                  forall c :: c in candidates && Compatible(c, m) ==> Evaluate(policy, c, entries).status.Unhealthy?))
  {
    hide SortBy, Evaluate, Filter, SelectionPool, EvaluationLe, Select;
    SelectionMatchesPool(policy, m, candidates, entries);
    EvaluationLeIsTotalPreorder();
    SortBySorted(EvaluationLe, SelectionPool(Evaluations(policy, CompatibleCandidates(m, candidates), entries)));
    SelectionMembers(policy, m, candidates, entries, Select(policy, m, candidates, entries).value.Bindings());
  }

  lemma SelectionMembers(policy: PlacementPolicy, m: Manifest, candidates: seq<ServiceBinding>, entries: seq<SummaryEntry>, bindings: seq<ServiceBinding>)
    requires Distinct(Map(BindingKey, candidates))
    requires forall b :: b in bindings ==> b in CompatibleCandidates(m, candidates)
    requires Map(b => Evaluate(policy, b, entries), bindings) == RankedPool(policy, m, candidates, entries)
    ensures forall b :: b in bindings <==>
      && b in candidates && Compatible(b, m)
      && (Evaluate(policy, b, entries).status.Unhealthy? ==>
            forall c :: c in candidates && Compatible(c, m) ==> Evaluate(policy, c, entries).status.Unhealthy?)
  {
    var compatible := CompatibleCandidates(m, candidates);
    hide SortBy, Evaluate, Filter, SelectionPool, Map, Distinct, EvaluationLe, Compatible;
    var evaluations, ranked := Evaluations(policy, compatible, entries), RankedPool(policy, m, candidates, entries);
    EvaluationLeIsTotalPreorder();
    SortByElements(EvaluationLe, SelectionPool(evaluations));
    PoolMembers(evaluations);
    forall c ensures c in compatible ==> Evaluate(policy, c, entries) in evaluations {
      if c in compatible {
        var i :| 0 <= i < |compatible| && compatible[i] == c;
        assert evaluations[i] == Evaluate(policy, c, entries);
      }
    }
    forall e | e in evaluations ensures exists c :: c in compatible && Evaluate(policy, c, entries) == e {
      var i :| 0 <= i < |evaluations| && evaluations[i] == e;
      assert compatible[i] in compatible;
    }
    forall b | b in compatible ensures b in bindings <==> Evaluate(policy, b, entries) in ranked {
      var e := Evaluate(policy, b, entries);
      if b in bindings {
        var i :| 0 <= i < |bindings| && bindings[i] == b;
        assert ranked[i] == e;
      }
      if e in ranked {
        var i :| 0 <= i < |ranked| && ranked[i] == e;
        assert bindings[i] in compatible && Evaluate(policy, bindings[i], entries) == e;
        SameEvaluationSameBinding(policy, candidates, entries, bindings[i], b);
      }
    }
  }

  lemma SameEvaluationSameBinding(policy: PlacementPolicy, candidates: seq<ServiceBinding>, entries: seq<SummaryEntry>, a: ServiceBinding, b: ServiceBinding)
    requires Distinct(Map(BindingKey, candidates)) && a in candidates && b in candidates
    requires Evaluate(policy, a, entries) == Evaluate(policy, b, entries)
    ensures a == b
  {
    SameIdSameElement(BindingKey, candidates, a, b);
  }

  lemma SelectionIdsDistinct(policy: PlacementPolicy, m: Manifest, candidates: seq<ServiceBinding>, entries: seq<SummaryEntry>)
    requires Distinct(Map(BindingKey, candidates))
    requires Select(policy, m, candidates, entries).Some?
    ensures Distinct(Map(BindingKey, Select(policy, m, candidates, entries).value.Bindings()))
  {
    hide SortBy, LastById, Filter, SelectionPool, Select, EvaluationLe;
    var compatible := CompatibleCandidates(m, candidates);
    var evaluations, ranked := Evaluations(policy, compatible, entries), RankedPool(policy, m, candidates, entries);
    var bindings := Select(policy, m, candidates, entries).value.Bindings();
    SelectionMatchesPool(policy, m, candidates, entries);
    CompatibleDistinct(m, candidates);
    EvaluationsDistinct(policy, compatible, entries);
    PoolDistinct(evaluations);
    EvaluationLeIsTotalPreorder();
    SortByElements(EvaluationLe, SelectionPool(evaluations));
    forall i, j | 0 <= i < j < |bindings| ensures Map(BindingKey, bindings)[i] != Map(BindingKey, bindings)[j] {
      assert ranked[i] != ranked[j];
      if bindings[i].Id() == bindings[j].Id() { SameIdSameElement(BindingKey, candidates, bindings[i], bindings[j]); }
    }
  }

  lemma SelectionEvaluated(policy: PlacementPolicy, m: Manifest, candidates: seq<ServiceBinding>, entries: seq<SummaryEntry>, b: ServiceBinding)
    requires Distinct(Map(BindingKey, candidates))
    requires Select(policy, m, candidates, entries).Some? && b in Select(policy, m, candidates, entries).value.Bindings()
    ensures b.Id() in Map((e: Evaluation) => e.bindingId, SortBy(EvaluationLe, Evaluations(policy, CompatibleCandidates(m, candidates), entries)))
  {
    hide SortBy, LastById, Filter, SelectionPool, Select, EvaluationLe;
    var compatible := CompatibleCandidates(m, candidates);
    var evaluations := Evaluations(policy, compatible, entries);
    SelectionMatchesPool(policy, m, candidates, entries);
    var k :| 0 <= k < |compatible| && compatible[k] == b;
    EvaluationLeIsTotalPreorder();
    SortByElements(EvaluationLe, evaluations);
    var sorted := SortBy(EvaluationLe, evaluations);
    assert evaluations[k] in sorted;
    var j :| 0 <= j < |sorted| && sorted[j] == evaluations[k];
    assert Map((e: Evaluation) => e.bindingId, sorted)[j] == b.Id();
  }

  lemma SelectionEvaluations(policy: PlacementPolicy, m: Manifest, candidates: seq<ServiceBinding>, entries: seq<SummaryEntry>)
    requires Distinct(Map(BindingKey, candidates))
    ensures var evaluations := Evaluations(policy, CompatibleCandidates(m, candidates), entries);
      && Distinct(Map((e: Evaluation) => e.bindingId, SortBy(EvaluationLe, evaluations)))
      && |SortBy(EvaluationLe, evaluations)| == |CompatibleCandidates(m, candidates)|
  {
    hide SortBy, Evaluate, CompatibleCandidates, EvaluationLe;
    var compatible := CompatibleCandidates(m, candidates);
    var evaluations := Evaluations(policy, compatible, entries);
    CompatibleDistinct(m, candidates);
    EvaluationsDistinct(policy, compatible, entries);
    EvaluationLeIsTotalPreorder();
    SortByElements(EvaluationLe, evaluations);
    IdsAfterSorting(evaluations, SortBy(EvaluationLe, evaluations));
  }

  lemma SelectionFields(policy: PlacementPolicy, m: Manifest, candidates: seq<ServiceBinding>, entries: seq<SummaryEntry>)
    requires Select(policy, m, candidates, entries).Some?
    ensures var d := Select(policy, m, candidates, entries).value;
      && d.cellId == m.cellId && d.formulaVersion == m.formulaVersion && CompatibleCandidates(m, candidates) != []
      && d.evaluations == SortBy(EvaluationLe, Evaluations(policy, CompatibleCandidates(m, candidates), entries))
    ensures forall b :: b in CompatibleCandidates(m, candidates) ==> Compatible(b, m)
  {
    hide SortBy, Evaluate, RankedPool, LastById;
  }

  /** A selection satisfies every check its decision makes at construction. */
  lemma SelectionAdmissible(policy: PlacementPolicy, m: Manifest, candidates: seq<ServiceBinding>, entries: seq<SummaryEntry>)
    requires Distinct(Map(BindingKey, candidates))
    requires Select(policy, m, candidates, entries).Some?
    ensures Select(policy, m, candidates, entries).value.Admissible()
  {
    hide Select, SortBy, Evaluations, CompatibleCandidates, EvaluationLe;
    var decision := Select(policy, m, candidates, entries).value;
    SelectionFields(policy, m, candidates, entries);
    SelectionMatchesPool(policy, m, candidates, entries);
    SelectionIdsDistinct(policy, m, candidates, entries);
    SelectionEvaluations(policy, m, candidates, entries);
    forall b | b in decision.Bindings()
      ensures b.Id() in Map((e: Evaluation) => e.bindingId, decision.evaluations)
    {
      SelectionEvaluated(policy, m, candidates, entries, b);
    }
  }

  lemma IdsAfterSorting(xs: seq<Evaluation>, ys: seq<Evaluation>)
    requires Distinct(Map((e: Evaluation) => e.bindingId, xs)) && Distinct(ys) && forall y :: y in ys ==> y in xs
    ensures Distinct(Map((e: Evaluation) => e.bindingId, ys))
  {
    KeysStayDistinct((e: Evaluation) => e.bindingId, xs, ys);
  }

  /** The order in which candidates are offered does not matter. */
  lemma SelectionIgnoresOrder(policy: PlacementPolicy, m: Manifest, a: seq<ServiceBinding>, b: seq<ServiceBinding>, entries: seq<SummaryEntry>)
    requires Distinct(Map(BindingKey, a)) && Distinct(Map(BindingKey, b))
    requires forall x :: x in a <==> x in b
    ensures Select(policy, m, a, entries) == Select(policy, m, b, entries)
  {
    hide SortBy, LastById, Evaluate, Filter, SelectionPool, EvaluationLe;
    var ca, cb := CompatibleCandidates(m, a), CompatibleCandidates(m, b);
    assert forall x :: x in ca <==> x in cb;
    SameElementsEmpty(ca, cb);
    if ca == [] {
    } else {
      assert ca[0] in ca;
      RankedPoolMembers(policy, m, a, entries);
      RankedPoolMembers(policy, m, b, entries);
      CompatibleDistinct(m, a);
      CompatibleDistinct(m, b);
      SortedEvaluationsAgree(policy, ca, cb, entries);
      TablesAgree(ca, cb);
    }
  }

  lemma SameElementsEmpty<T>(a: seq<T>, b: seq<T>)
    requires forall x :: x in a <==> x in b
    ensures a == [] <==> b == []
  {
    if a != [] { assert a[0] in a; }
    if b != [] { assert b[0] in b; }
  }

  lemma TablesAgree(a: seq<ServiceBinding>, b: seq<ServiceBinding>)
    requires Distinct(Map(BindingKey, a)) && Distinct(Map(BindingKey, b))
    requires forall x :: x in a <==> x in b
    ensures LastById(BindingKey, a) == LastById(BindingKey, b)
  {
    hide LastById, BindingKey;
    var ma, mb := LastById(BindingKey, a), LastById(BindingKey, b);
    forall k | k in ma ensures k in mb && mb[k] == ma[k] { LastByIdFinds(BindingKey, b, ma[k]); }
    forall k | k in mb ensures k in ma { LastByIdFinds(BindingKey, a, mb[k]); }
  }

  lemma SortedEvaluationsAgree(policy: PlacementPolicy, ca: seq<ServiceBinding>, cb: seq<ServiceBinding>, entries: seq<SummaryEntry>)
    requires Distinct(Map(BindingKey, ca)) && Distinct(Map(BindingKey, cb))
    requires forall x :: x in ca <==> x in cb
    ensures var ea, eb := Evaluations(policy, ca, entries), Evaluations(policy, cb, entries);
      && SortBy(EvaluationLe, ea) == SortBy(EvaluationLe, eb)
      && SortBy(EvaluationLe, SelectionPool(ea)) == SortBy(EvaluationLe, SelectionPool(eb))
  {
    hide SortBy, Evaluate, SelectionPool, EvaluationLe;
    var ea, eb := Evaluations(policy, ca, entries), Evaluations(policy, cb, entries);
    EvaluationsDistinct(policy, ca, entries);
    EvaluationsDistinct(policy, cb, entries);
    SameElementsMapped(b => Evaluate(policy, b, entries), ca, cb);
    SortSame(policy, ca, entries, ea, eb);
    PoolsAgree(ea, eb);
    PoolMembers(ea);
    PoolDistinct(ea);
    PoolDistinct(eb);
    SortSame(policy, ca, entries, SelectionPool(ea), SelectionPool(eb));
  }

  lemma SameElementsMapped<T, U>(f: T -> U, a: seq<T>, b: seq<T>)
    requires forall x :: x in a <==> x in b
    ensures forall y :: y in Map(f, a) <==> y in Map(f, b)
  {
    forall y ensures y in Map(f, a) <==> y in Map(f, b) {
      if y in Map(f, a) {
        var i :| 0 <= i < |a| && Map(f, a)[i] == y;
        assert a[i] in b;
        var j :| 0 <= j < |b| && b[j] == a[i];
        assert Map(f, b)[j] == y;
      }
      if y in Map(f, b) {
        var i :| 0 <= i < |b| && Map(f, b)[i] == y;
        assert b[i] in a;
        var j :| 0 <= j < |a| && a[j] == b[i];
        assert Map(f, a)[j] == y;
      }
    }
  }

  lemma PoolsAgree(a: seq<Evaluation>, b: seq<Evaluation>)
    requires forall e :: e in a <==> e in b
    ensures forall e :: e in SelectionPool(a) <==> e in SelectionPool(b)
  {
    PoolMembers(a);
    PoolMembers(b);
    if !exists e :: e in a && !e.status.Unhealthy? {
      assert forall e :: e in b ==> e.status.Unhealthy?;
    }
  }

  lemma SortSame(policy: PlacementPolicy, bindings: seq<ServiceBinding>, entries: seq<SummaryEntry>, a: seq<Evaluation>, b: seq<Evaluation>)
    requires Distinct(Map(BindingKey, bindings)) && Distinct(a) && Distinct(b)
    requires forall e :: e in a <==> e in b
    requires forall e :: e in a ==> e in Evaluations(policy, bindings, entries)
    ensures SortBy(EvaluationLe, a) == SortBy(EvaluationLe, b)
  {
    EvaluationLeIsTotalPreorder();
    DistinctMultiset(a, b);
    forall x, y | x in a && y in a && EvaluationLe(x, y) && EvaluationLe(y, x) ensures x == y {
      RankIsStrict(policy, bindings, entries, x, y);
    }
    SortByPermutation(EvaluationLe, a, b);
  }
}
