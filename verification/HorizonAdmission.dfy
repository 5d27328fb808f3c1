/** From signals to the checked decision (horizons/decision.py), and when the output model accepts it. */
module HorizonAdmission {
  import opened Collections
  import opened Reals
  import opened HorizonModel
  import opened HorizonPolicy
  import opened HorizonWeights
  import opened HorizonBands
  import opened HorizonDecisions
  import opened HorizonConflicts

  /** The decision that is built for accepted signals. */
  function DecisionFor(p: Policy, ss: seq<Signal>): Decision
    requires p.Valid() && ss != []
  {
    Decision(p, ss, Map(HorizonOf, ss), Evaluate(p, ss), EvidenceFor(p, ss, |ss|))
  }

  // ----- The order of the signals -----

  predicate DurationsRise(ss: seq<Signal>) {
    forall i :: 0 <= i < |ss| - 1 ==> ss[i].horizon.DurationMs() < ss[i + 1].horizon.DurationMs()
  }

  lemma {:induction false} RisingDurations(ss: seq<Signal>, i: nat, j: nat)
    requires DurationsRise(ss) && i < j < |ss|
    ensures ss[i].horizon.DurationMs() < ss[j].horizon.DurationMs()
    decreases j
  {
    hide Horizon.DurationMs;
    if i < j - 1 { RisingDurations(ss, i, j - 1); }
  }

  lemma OrderedIff(ss: seq<Signal>)
    requires forall s :: s in ss ==> s.Valid()
    ensures Ordered(ss) <==> DurationsRise(ss)
  {
    hide Horizon.DurationMs, Signal.Valid;
    if DurationsRise(ss) {
      forall i, j | 0 <= i < j < |ss| ensures ss[i].horizon.DurationMs() < ss[j].horizon.DurationMs() { RisingDurations(ss, i, j); }
    }
  }

  // ----- The checks that always pass -----

  /** A band's horizons pick out exactly its members. */
  lemma SignalsAtBand(p: Policy, ss: seq<Signal>, b: Band)
    requires Ordered(ss)
    ensures SignalsAt(ss, Map(HorizonOf, Members(p, ss, b))) == Members(p, ss, b)
  {
    hide Ordered, Map, BandFor;
    var members := Members(p, ss, b);
    OrderedHorizons(ss);
    forall s | s in ss ensures s.horizon in Map(HorizonOf, members) <==> BandFor(p, s.horizon) == b {
      HorizonIn(members, s.horizon);
      assert s in members <==> BandFor(p, s.horizon) == b;
    }
    FilterAgrees((s: Signal) => s.horizon in Map(HorizonOf, members), (s: Signal) => BandFor(p, s.horizon) == b, ss);
  }

  lemma BandRisks(p: Policy, ss: seq<Signal>, d: BandDecision)
    requires Ordered(ss) && BandOf(p, ss, d)
    ensures SignalsAt(ss, d.horizons) == Members(p, ss, d.band)
    ensures d.volatility == Round3(MaxOf(VolatilityOf, Members(p, ss, d.band)))
    ensures d.manipulation == Round3(MaxOf(ManipulationOf, Members(p, ss, d.band)))
    ensures d.riskLevel == RiskLevelOf(p, MaxOf(VolatilityOf, Members(p, ss, d.band)), MaxOf(ManipulationOf, Members(p, ss, d.band)))
  {
    hide Ordered, Map, Members, Round3, MaxOf, BandScore, BandDirection, BandAlignment, BandConflictScore, BandConfidence, StrengthFor, Filter, SignalsAt;
    SignalsAtBand(p, ss, d.band);
  }

  lemma BandRisksPreserved(p: Policy, ss: seq<Signal>, d: BandDecision)
    requires Ordered(ss) && BandOf(p, ss, d)
    ensures BandRiskPreserved(ss, d)
  {
    hide BandOf, Ordered, SignalsAt, MaxOf, Round3, IsClose, Members;
    BandRisks(p, ss, d);
    MembersOfBand(p, ss, d);
    CloseToItself(d.volatility);
    CloseToItself(d.manipulation);
  }

  lemma AllRisksPreserved(p: Policy, ss: seq<Signal>)
    requires p.Valid() && Accepted(ss)
    ensures RisksPreserved(DecisionFor(p, ss))
  {
    EvaluateParts(p, ss);
    DecisionFields(p, ss);
    hide *;
    BandsKnownAll(p, ss);
    forall b | b in Bands(p, ss) ensures BandRiskPreserved(ss, b) { BandRisksPreserved(p, ss, b); }
    CloseToItself(Round3(MaxOf(VolatilityOf, ss)));
    CloseToItself(Round3(MaxOf(ManipulationOf, ss)));
    RisksFromBands(DecisionFor(p, ss));
  }

  lemma BandsKnownAll(p: Policy, ss: seq<Signal>)
    ensures forall d :: d in Bands(p, ss) ==> BandOf(p, ss, d)
  {
    hide Bands, BandOf;
    BandsAre(p, ss);
  }

  lemma DecisionFields(p: Policy, ss: seq<Signal>)
    requires p.Valid() && ss != []
    ensures var d := DecisionFor(p, ss);
      d.signals == ss && d.assessment == Evaluate(p, ss) && d.policy == p && d.order == Map(HorizonOf, ss)
  {
    hide Evaluate, EvidenceFor, Map;
  }

  lemma RisksFromBands(d: Decision)
    requires d.signals != []
    requires IsClose(d.assessment.volatility, Round3(MaxOf(VolatilityOf, d.signals)))
    requires IsClose(d.assessment.manipulation, Round3(MaxOf(ManipulationOf, d.signals)))
    requires forall b :: b in d.assessment.bands ==> BandRiskPreserved(d.signals, b)
    ensures RisksPreserved(d)
  {
    hide IsClose, SignalsAt, MaxOf, Round3;
  }

  lemma MembersOfBand(p: Policy, ss: seq<Signal>, d: BandDecision)
    requires BandOf(p, ss, d)
    ensures Members(p, ss, d.band) != []
  {
  }

  lemma OverallIsShaped(p: Policy, ss: seq<Signal>)
    requires p.Valid() && Accepted(ss)
    ensures OverallShaped(DecisionFor(p, ss))
  {
    hide *;
    AcceptedCount(ss);
    EvaluateParts(p, ss);
    DecisionFields(p, ss);
    BandsAre(p, ss);
    BandsNonEmpty(p, ss);
    BandsCoverOrder(p, ss);
    OrderedHorizons(ss);
    EvaluatePercentages(p, ss);
    StructuralNotConflict(Bands(p, ss));
    MapLength(ss);
    ShapedIf(DecisionFor(p, ss));
  }

  lemma AcceptedCount(ss: seq<Signal>)
    requires Accepted(ss)
    ensures 2 <= |ss| <= 8 && Ordered(ss)
  {
    hide Ordered;
  }

  lemma ShapedIf(d: Decision)
    requires var a := d.assessment;
      && 2 <= |d.order| <= 8 && Distinct(d.order) && Map(HorizonOf, d.signals) == d.order
      && a.structuralDirection != Conflict
      && Score(a.score)
      && Percentage(a.strength) && Percentage(a.confidence) && Percentage(a.volatility) && Percentage(a.manipulation)
      && Percentage(a.urgency) && Percentage(a.conflictScore)
      && 1 <= |a.bands| <= 3
      && (forall i, j :: 0 <= i < j < |a.bands| ==> BandRank(a.bands[i].band) < BandRank(a.bands[j].band))
      && FlatMap((b: BandDecision) => b.horizons, a.bands) == d.order
      && d.policy.Valid()
    ensures OverallShaped(d)
  {
    hide Distinct, Map, FlatMap, Policy.Valid, BandRank, Score, Percentage;
  }

  lemma MapLength(ss: seq<Signal>)
    ensures |Map(HorizonOf, ss)| == |ss|
  {
  }

  lemma {:induction false} StructuralNotConflict(bands: seq<BandDecision>)
    ensures StructuralDirection(bands) != Conflict
  {
    if bands != [] { StructuralNotConflict(bands[..|bands| - 1]); }
  }

  lemma EvaluatePercentages(p: Policy, ss: seq<Signal>)
    requires p.Valid() && Accepted(ss)
    ensures var a := Evaluate(p, ss);
      && Score(a.score) && Percentage(a.strength) && Percentage(a.confidence) && Percentage(a.volatility) && Percentage(a.manipulation)
      && Percentage(a.urgency) && Percentage(a.conflictScore)
  {
    EvaluateParts(p, ss);
    hide *;
    var a, bands := Evaluate(p, ss), Bands(p, ss);
    BandsBounded(p, ss);
    OverallScoreBounded(p, bands);
    OverallConflictPercentage(p, bands);
    AcceptedMembers(ss);
    MaxRisk(VolatilityOf, ss);
    MaxRisk(ManipulationOf, ss);
    StrengthPercentage(a.direction, a.score, a.conflictScore);
    OverallConfidencePercentage(p, bands, a.alignment, a.conflictScore);
    RoundedPercentage(Max(Max(MaxOf(VolatilityOf, ss), MaxOf(ManipulationOf, ss)), Max(a.strength, a.conflictScore)));
  }

  lemma BandsBounded(p: Policy, ss: seq<Signal>)
    requires p.Valid() && Accepted(ss)
    ensures forall d :: d in Bands(p, ss) ==> Score(d.score) && Percentage(d.conflictScore)
  {
    hide Bands, BandOf, Ordered, Score, Percentage;
    BandsAre(p, ss);
    forall d | d in Bands(p, ss) ensures Score(d.score) && Percentage(d.conflictScore) { BandDecisionScore(p, ss, d); }
  }

  lemma OverallConfidencePercentage(p: Policy, bands: seq<BandDecision>, a: Alignment, conflict: real)
    requires p.Valid() && bands != []
    ensures Percentage(OverallConfidence(p, bands, a, conflict))
  {
    hide Round3, Clamp, Normalized, CoverageFactor, ConclusionFactor;
    forall x: real ensures Percentage(Round3(Clamp(x))) { RoundedPercentage(x); }
  }

  lemma AcceptedMembers(ss: seq<Signal>)
    requires Accepted(ss)
    ensures ss != []
    ensures forall s :: s in ss ==> Percentage(VolatilityOf(s)) && Percentage(ManipulationOf(s))
  {
  }

  lemma StrengthPercentage(d: Direction, score: real, conflict: real)
    ensures Percentage(StrengthFor(d, score, conflict))
  {
    hide Round3, Clamp;
    RoundedPercentage(Abs(score) * 1.7);
    RoundedPercentage(Max(Abs(score), conflict));
    RoundedPercentage(Abs(score));
  }

  lemma OverallConflictPercentage(p: Policy, bands: seq<BandDecision>)
    requires p.Valid() && bands != [] && forall d :: d in bands ==> Percentage(d.conflictScore)
    ensures Percentage(OverallConflictScore(p, bands))
  {
    hide Round3, Clamp, Opposition, Normalized, OverallAlignment;
    MaxConflictBounds(bands);
    RoundedPercentage(Opposition(Normalized(p, bands, Toward(Bullish), BandPull), Normalized(p, bands, Toward(Bearish), BandPull)));
    RoundBounds(Max(CrossConflictScore(p, bands), MaxConflict(bands)), 0, 100);
  }

  lemma EvidenceIsAdmissible(p: Policy, ss: seq<Signal>)
    requires p.Valid() && Accepted(ss)
    ensures EvidenceAdmissible(DecisionFor(p, ss))
  {
    hide ExactWeight, Round8, Evaluate;
    EvidenceSumsToOne(p, ss);
    forall i | 0 <= i < |ss|
      ensures IsClose(ss[i].confidence, ss[i].confidence) && Percentage(ss[i].confidence)
      ensures EvidenceFor(p, ss, |ss|)[i].horizon == ss[i].horizon
      ensures EvidenceFor(p, ss, |ss|)[i].freshness == 100.0 && EvidenceFor(p, ss, |ss|)[i].reliability == ss[i].confidence
    {
      EvidenceAt(p, ss, |ss|, i);
      CloseToItself(ss[i].confidence);
      assert ss[i] in ss;
    }
  }

  // ----- When the decision is accepted -----

  /** Rounding the risk maxima to three digits changes no risk level, overall or in any band. */
  predicate LevelsKept(p: Policy, ss: seq<Signal>)
    requires ss != []
  {
    && p.volatility.LevelFor(MaxOf(VolatilityOf, ss)) == p.volatility.LevelFor(Round3(MaxOf(VolatilityOf, ss)))
    && p.manipulation.LevelFor(MaxOf(ManipulationOf, ss)) == p.manipulation.LevelFor(Round3(MaxOf(ManipulationOf, ss)))
    && forall b :: b in [Short, Medium, Long] && Members(p, ss, b) != [] ==> BandLevelKept(p, Members(p, ss, b))
  }

  predicate BandLevelKept(p: Policy, members: seq<Signal>)
    requires members != []
  {
    var v, m := MaxOf(VolatilityOf, members), MaxOf(ManipulationOf, members);
    RiskLevelOf(p, v, m) == RiskLevelOf(p, Round3(v), Round3(m))
  }

  lemma BandLevelsIff(p: Policy, ss: seq<Signal>)
    requires p.Valid() && Accepted(ss)
    ensures (forall b :: b in Bands(p, ss) ==> b.riskLevel == RiskLevelOf(p, b.volatility, b.manipulation)) <==>
            (forall b :: b in [Short, Medium, Long] && Members(p, ss, b) != [] ==> BandLevelKept(p, Members(p, ss, b)))
  {
    BandsAre(p, ss);
    hide Bands, Members, Ordered, Round3, MaxOf, RiskLevelOf, EvaluateBand;
    forall d | d in Bands(p, ss)
      ensures Members(p, ss, d.band) != []
      ensures d.riskLevel == RiskLevelOf(p, d.volatility, d.manipulation) <==> BandLevelKept(p, Members(p, ss, d.band))
    {
      BandRisks(p, ss, d);
    }
    if forall b :: b in Bands(p, ss) ==> b.riskLevel == RiskLevelOf(p, b.volatility, b.manipulation) {
      forall b | Members(p, ss, b) != [] ensures BandLevelKept(p, Members(p, ss, b)) {
        var d := EvaluateBand(p, b, Members(p, ss, b));
        BandTag(p, b, Members(p, ss, b));
        assert d in Bands(p, ss);
      }
    }
    forall b ensures b in [Short, Medium, Long] { AnyOfThree(b); }
  }

  lemma BandTag(p: Policy, b: Band, ss: seq<Signal>)
    requires ss != []
    ensures EvaluateBand(p, b, ss).band == b
  {
  }

  lemma LevelsPreservedIff(p: Policy, ss: seq<Signal>)
    requires p.Valid() && Accepted(ss)
    ensures LevelsPreserved(DecisionFor(p, ss)) <==> LevelsKept(p, ss)
  {
    EvaluateParts(p, ss);
    BandLevelsIff(p, ss);
    hide Bands, Members, Ordered, Round3, MaxOf, OverallConfidence, OverallConflictScore, StrengthFor, Normalized, BandLevelKept, Thresholds.LevelFor;
    hide Policy.Valid, OverallKind, OverallDirection, OverallAlignment, StructuralDirection, MaxLevel;
  }

  lemma ShapesHold(p: Policy, ss: seq<Signal>)
    requires p.Valid() && Accepted(ss)
    ensures forall b :: b in Bands(p, ss) ==> BandShaped(b)
  {
    hide Bands, BandShaped, BandOf, Ordered;
    BandsAre(p, ss);
    forall b | b in Bands(p, ss) ensures BandShaped(b) { BandDecisionScore(p, ss, b); }
  }

  /**
   * The decision built from accepted signals passes every check of the output model exactly when rounding moved no risk
   * maximum across a threshold, provided the policy always shows conflicts; any policy that does not fails for some signals.
   */
  lemma DecisionAdmissibleIff(p: Policy, ss: seq<Signal>)
    requires p.Valid() && Accepted(ss)
    ensures DecisionAdmissible(DecisionFor(p, ss)) <==> ConflictsShown(Evaluate(p, ss)) && LevelsKept(p, ss)
    ensures ConflictVisible(p) ==> ConflictsShown(Evaluate(p, ss))
  {
    hide *;
    AcceptedMembers(ss);
    OverallIsShaped(p, ss);
    EvidenceIsAdmissible(p, ss);
    AllRisksPreserved(p, ss);
    LevelsPreservedIff(p, ss);
    ShapesHold(p, ss);
    EvaluateParts(p, ss);
    AdmissibleParts(p, ss);
    if ConflictVisible(p) { ConflictsAlwaysShown(p, ss); }
  }

  lemma AdmissibleParts(p: Policy, ss: seq<Signal>)
    requires p.Valid() && ss != [] && Evaluate(p, ss).bands == Bands(p, ss)
    ensures var d := DecisionFor(p, ss);
      DecisionAdmissible(d) <==>
        (&& (forall b :: b in Bands(p, ss) ==> BandShaped(b))
         && OverallShaped(d) && EvidenceAdmissible(d) && RisksPreserved(d) && ConflictsShown(Evaluate(p, ss)) && LevelsPreserved(d))
  {
    hide Evaluate, Bands, BandShaped, OverallShaped, EvidenceAdmissible, RisksPreserved, ConflictsShown, LevelsPreserved;
  }

  // ----- Risks with at most three decimals -----

  predicate Thousandths(x: real) {
    Round3(x) == x
  }

  /** Risks that already have at most three decimals cannot cross a threshold by rounding. */
  lemma ThousandthsKeepLevels(p: Policy, ss: seq<Signal>)
    requires ss != [] && forall s :: s in ss ==> Thousandths(s.volatility) && Thousandths(s.manipulation)
    ensures LevelsKept(p, ss)
  {
    hide Thresholds.LevelFor, Round3, MaxLevel;
    MaxThousandths(ss);
    forall b | b in [Short, Medium, Long] && Members(p, ss, b) != [] ensures BandLevelKept(p, Members(p, ss, b)) {
      MaxThousandths(Members(p, ss, b));
    }
  }

  lemma MaxThousandths(ss: seq<Signal>)
    requires ss != [] && forall s :: s in ss ==> Thousandths(s.volatility) && Thousandths(s.manipulation)
    ensures Round3(MaxOf(VolatilityOf, ss)) == MaxOf(VolatilityOf, ss)
    ensures Round3(MaxOf(ManipulationOf, ss)) == MaxOf(ManipulationOf, ss)
  {
    hide Round3, MaxOf;
  }

  // ----- Running it -----

  /** What stops an analysis: signals the policy does not take, a refused band decision, or a refused decision. */
  datatype Refusal = SignalsRefused | BandRefused(band: Band) | DecisionRefused

  /** Every band decision passes its constructor. */
  predicate BandsShown(bands: seq<BandDecision>) {
    forall b :: b in bands ==> ConflictShown(b.alignment, b.direction, b.conflictScore)
  }

  lemma BandAdmissibleIff(p: Policy, ss: seq<Signal>, b: Band)
    requires Accepted(ss) && Members(p, ss, b) != []
    ensures var d := EvaluateBand(p, b, Members(p, ss, b));
      && (BandAdmissible(d) <==> ConflictShown(d.alignment, d.direction, d.conflictScore))
      && d in BandList(p, ss, b) && d in Bands(p, ss) && d.band == b
  {
    MembersFit(p, ss, b);
    BandIsShaped(p, b, Members(p, ss, b));
    BandListIs(p, ss, b);
    AnyOfThree(b);
    hide Members, EvaluateBand, BandShaped, ConflictShown, BandList;
  }

  /** Rejects what the policy rejects; otherwise groups the signals and evaluates their bands in order, each one checked. */
  method EvaluateSignals(p: Policy, ss: seq<Signal>) returns (r: Result<Assessment, Refusal>)
    requires p.Valid() && forall s :: s in ss ==> s.Valid()
    ensures r == Err(SignalsRefused) <==> !Accepted(ss)
    ensures r.Ok? <==> Accepted(ss) && BandsShown(Bands(p, ss))
    ensures r.Ok? ==> r.value == Evaluate(p, ss)
    ensures r != Err(DecisionRefused)
  {
    hide Members, EvaluateBand, BandAdmissible, ConflictShown, Ordered, Assess, BandList;
    OrderedIff(ss);
    if !(2 <= |ss| <= 8) || !DurationsRise(ss) {
      return Err(SignalsRefused);
    }
    var grouped := GroupSignals(p, ss);
    var bands: seq<BandDecision> := [];
    var order := [Short, Medium, Long];
    for i := 0 to 3
      invariant bands == (if i > 0 then BandList(p, ss, Short) else []) + (if i > 1 then BandList(p, ss, Medium) else [])
                         + (if i > 2 then BandList(p, ss, Long) else [])
      invariant BandsShown(bands)
    {
      BandListIs(p, ss, order[i]);
      if grouped[order[i]] != [] {
        BandAdmissibleIff(p, ss, order[i]);
        var band := EvaluateBand(p, order[i], grouped[order[i]]);
        if !BandAdmissible(band) {
          return Err(BandRefused(order[i]));
        }
        bands := bands + [band];
      }
    }
    assert bands == Bands(p, ss);
    BandsNonEmpty(p, ss);
    return Ok(Assess(p, ss, bands));
  }

  lemma BandsAmongConflicts(p: Policy, ss: seq<Signal>)
    requires p.Valid() && ss != []
    ensures ConflictsShown(Evaluate(p, ss)) ==> BandsShown(Bands(p, ss))
  {
    hide ConflictShown, Bands, Evaluate;
    EvaluateParts(p, ss);
  }

  /**
   * The whole analysis: assessment, weight dictionary, one evidence item per signal, and the checked decision. It succeeds
   * exactly for accepted signals whose conflicts show and whose risk levels survive rounding.
   */
  method Analyze(p: Policy, ss: seq<Signal>) returns (r: Result<Decision, Refusal>)
    requires p.Valid() && forall s :: s in ss ==> s.Valid()
    ensures r == Err(SignalsRefused) <==> !Accepted(ss)
    ensures r.Ok? <==> Accepted(ss) && ConflictsShown(Evaluate(p, ss)) && LevelsKept(p, ss)
    ensures r.Ok? ==> r.value == DecisionFor(p, ss) && DecisionAdmissible(r.value)
  {
    hide ExactWeight, Evaluate, Ordered, Round8, DecisionAdmissible, ConflictsShown, LevelsKept, BandsShown, Bands;
    var assessment := EvaluateSignals(p, ss);
    if assessment.Err? {
      if Accepted(ss) { BandsAmongConflicts(p, ss); }
      return Err(assessment.error);
    }
    var weights := SignalWeights(p, ss);
    var evidence: seq<Evidence> := [];
    for i := 0 to |ss|
      invariant evidence == EvidenceFor(p, ss, i)
    {
      evidence := evidence + [Evidence(ss[i].horizon, weights[ss[i].horizon], 100.0, ss[i].confidence)];
    }
    var decision := Decision(p, ss, Map(HorizonOf, ss), assessment.value, evidence);
    DecisionAdmissibleIff(p, ss);
    if !DecisionAdmissible(decision) {
      return Err(DecisionRefused);
    }
    return Ok(decision);
  }
}
