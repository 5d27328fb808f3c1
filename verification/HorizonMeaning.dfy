/** What the parts of an assessment tell its reader (horizons/policy.py). */
module HorizonMeaning {
  import opened Collections
  import opened Reals
  import opened Rounding
  import opened HorizonModel
  import opened HorizonPolicy
  import opened HorizonWeights
  import opened HorizonBands
  import opened HorizonDecisions
  import opened HorizonConflicts
  import HorizonAdmission

  /** Risk overrides direction: only a low-risk, unconflicted, directional assessment may be followed. */
  lemma PostureMeaning(p: Policy, ss: seq<Signal>)
    requires p.Valid() && Accepted(ss)
    ensures var a := Evaluate(p, ss);
      && (a.posture == AvoidChasing <==> a.riskLevel == Extreme)
      && (a.posture == ReduceExposure <==> a.riskLevel == High)
      && (a.posture == WaitForConfirmation <==> a.riskLevel == Moderate || (a.riskLevel == Low && a.alignment == Conflicted))
      && (a.posture == CautiousFollow <==> a.riskLevel == Low && Directional(a.direction))
      && (a.posture == Observe <==> a.riskLevel == Low && a.alignment == Indeterminate)
  {
    hide *;
    AcceptedNonEmpty(ss);
    EvaluateParts(p, ss);
    PostureOf(p, ss);
    AlignmentMatches(Bands(p, ss));
    PostureTable(Evaluate(p, ss).direction, Evaluate(p, ss).alignment, Evaluate(p, ss).riskLevel);
  }

  lemma AlignmentMatches(bands: seq<BandDecision>)
    ensures OverallAlignment(bands) == Conflicted <==> OverallDirection(bands) == Conflict
    ensures OverallAlignment(bands) == Indeterminate <==> OverallDirection(bands) == Neutral
  {
    hide SomeBand, DirectionalCount;
  }

  lemma PostureTable(d: Direction, a: Alignment, r: RiskLevel)
    requires a == Conflicted <==> d == Conflict
    requires a == Indeterminate <==> d == Neutral
    ensures var posture := ActionPosture(d, a, r);
      && (posture == AvoidChasing <==> r == Extreme)
      && (posture == ReduceExposure <==> r == High)
      && (posture == WaitForConfirmation <==> r == Moderate || (r == Low && a == Conflicted))
      && (posture == CautiousFollow <==> r == Low && Directional(d))
      && (posture == Observe <==> r == Low && a == Indeterminate)
  {
  }

  lemma PostureOf(p: Policy, ss: seq<Signal>)
    requires p.Valid() && ss != []
    ensures var a := Evaluate(p, ss); a.posture == ActionPosture(a.direction, a.alignment, a.riskLevel)
  {
    hide Bands, OverallDirection, OverallAlignment, OverallConflictScore, OverallKind, Round3, OverallConfidence, MaxOf, StrengthFor;
    hide Normalized, RiskLevelOf, Clamp, Max, StructuralDirection, Thresholds.LevelFor, ActionPosture;
  }

  /** The overall risk level is the worse of the two it is made of. */
  lemma RiskIsWorst(p: Policy, ss: seq<Signal>)
    requires p.Valid() && Accepted(ss)
    ensures var a := Evaluate(p, ss);
      && RiskRank(a.riskLevel) >= RiskRank(a.volatilityLevel) && RiskRank(a.riskLevel) >= RiskRank(a.manipulationLevel)
      && (a.riskLevel == a.volatilityLevel || a.riskLevel == a.manipulationLevel)
  {
    hide *;
    AcceptedNonEmpty(ss);
    EvaluateParts(p, ss);
    WorstOfTwo(p, MaxOf(VolatilityOf, ss), MaxOf(ManipulationOf, ss));
  }

  lemma WorstOfTwo(p: Policy, volatility: real, manipulation: real)
    ensures var risk, v, m := RiskLevelOf(p, volatility, manipulation), p.volatility.LevelFor(volatility), p.manipulation.LevelFor(manipulation);
      RiskRank(risk) >= RiskRank(v) && RiskRank(risk) >= RiskRank(m) && (risk == v || risk == m)
  {
    hide Thresholds.LevelFor;
  }

  lemma RoundedMax(a: real, b: real)
    ensures Round3(Max(a, b)) == Max(Round3(a), Round3(b))
  {
    hide Nearest;
    if a < b { RoundMonotone(a, b); } else { RoundMonotone(b, a); }
  }

  /** Urgency is the greatest of the published risks, strength and conflict score. */
  lemma UrgencyIsGreatest(p: Policy, ss: seq<Signal>)
    requires p.Valid() && Accepted(ss)
    ensures var a := Evaluate(p, ss); a.urgency == Max(Max(a.volatility, a.manipulation), Max(a.strength, a.conflictScore))
  {
    hide *;
    AcceptedNonEmpty(ss);
    EvaluateParts(p, ss);
    var a := Evaluate(p, ss);
    var volatility, manipulation := MaxOf(VolatilityOf, ss), MaxOf(ManipulationOf, ss);
    UrgencyInRange(p, ss);
    RoundedMax(Max(volatility, manipulation), Max(a.strength, a.conflictScore));
    RoundedMax(volatility, manipulation);
    RoundedMax(a.strength, a.conflictScore);
    PublishedRounded(p, ss);
  }

  lemma AcceptedNonEmpty(ss: seq<Signal>)
    requires Accepted(ss)
    ensures ss != [] && forall s :: s in ss ==> s.Valid()
  {
    hide Signal.Valid, Horizon.DurationMs;
  }

  lemma RoundedTwice(x: real)
    ensures Round3(Round3(x)) == Round3(x)
  {
    hide Nearest;
    RoundIdempotent(x);
  }

  /** Strength and conflict score are already rounded. */
  lemma PublishedRounded(p: Policy, ss: seq<Signal>)
    requires p.Valid() && ss != []
    ensures var a := Evaluate(p, ss); Round3(a.strength) == a.strength && Round3(a.conflictScore) == a.conflictScore
  {
    EvaluateParts(p, ss);
    hide Evaluate, Bands, Round3, Clamp, Max, MaxOf, OverallDirection, OverallAlignment, OverallConfidence, OverallKind, StructuralDirection;
    hide Normalized, RiskLevelOf, Thresholds.LevelFor, CrossConflictScore, MaxConflict;
    forall x: real ensures Round3(Round3(x)) == Round3(x) { RoundedTwice(x); }
    ZeroRounds();
  }

  lemma ZeroRounds()
    ensures Round3(0.0) == 0.0
  {
    hide Nearest;
    RoundFixes(0);
  }

  lemma UrgencyInRange(p: Policy, ss: seq<Signal>)
    requires p.Valid() && Accepted(ss)
    ensures ss != []
    ensures var a := Evaluate(p, ss);
      var x := Max(Max(MaxOf(VolatilityOf, ss), MaxOf(ManipulationOf, ss)), Max(a.strength, a.conflictScore));
      Clamp(x) == x
  {
    hide *;
    AcceptedNonEmpty(ss);
    EvaluateParts(p, ss);
    HorizonAdmission.AcceptedMembers(ss);
    HorizonAdmission.EvaluatePercentages(p, ss);
    MaxRisk(VolatilityOf, ss);
    MaxRisk(ManipulationOf, ss);
    var a := Evaluate(p, ss);
    ClampOfMax(MaxOf(VolatilityOf, ss), MaxOf(ManipulationOf, ss), a.strength, a.conflictScore);
  }

  lemma ClampOfMax(a: real, b: real, c: real, d: real)
    requires Percentage(a) && Percentage(b) && Percentage(c) && Percentage(d)
    ensures Clamp(Max(Max(a, b), Max(c, d))) == Max(Max(a, b), Max(c, d))
  {
  }

  /** The highest band that is not neutral decides the structural direction, and a conflict there leaves it open. */
  lemma {:induction false} StructureIsHighest(bands: seq<BandDecision>, i: nat)
    requires i < |bands| && bands[i].direction != Neutral && forall j :: i < j < |bands| ==> bands[j].direction == Neutral
    ensures StructuralDirection(bands) == if bands[i].direction == Conflict then Neutral else bands[i].direction
  {
    if i < |bands| - 1 { StructureIsHighest(bands[..|bands| - 1], i); }
  }

  /** The overall confidence never exceeds what every band stays below: coverage and conflict can only lower it. */
  lemma ConfidenceNeverRises(p: Policy, bands: seq<BandDecision>, a: Alignment, conflict: real, bound: real)
    requires p.Valid() && bands != [] && Percentage(conflict) && Percentage(bound)
    requires forall b :: b in bands ==> 0.0 <= b.confidence <= bound
    ensures OverallConfidence(p, bands, a, conflict) <= Round3(bound)
  {
    hide Round3, TotalAuthority, AuthoritySum, Policy.Valid, Term;
    AuthorityPositive(p, bands);
    AuthorityBounds(p, bands, AnyBand, BandConfidenceOf, 0.0, bound);
    QuotientBounds(0.0, AuthoritySum(p, bands, AnyBand, BandConfidenceOf), bound, TotalAuthority(p, bands));
    var base := Normalized(p, bands, AnyBand, BandConfidenceOf);
    LoweredBy(base, CoverageFactor(|bands|), ConclusionFactor(a, conflict), bound);
    RoundMonotone(Clamp(Term(Term(base, CoverageFactor(|bands|)), ConclusionFactor(a, conflict))), bound);
  }

  lemma LoweredBy(base: real, x: real, y: real, bound: real)
    requires 0.0 <= base <= bound <= 100.0 && 0.0 <= x <= 1.0 && 0.0 <= y <= 1.0
    ensures 0.0 <= Term(Term(base, x), y) <= bound
  {
    LoweredOnce(base, x);
    LoweredOnce(Term(base, x), y);
  }

  lemma LoweredOnce(base: real, x: real)
    requires base >= 0.0 && 0.0 <= x <= 1.0
    ensures 0.0 <= Term(base, x) <= base
  {
    ScaleBounds(0.0, x, 1.0, base);
  }
}
