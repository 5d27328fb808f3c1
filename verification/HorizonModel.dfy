/** Horizon signals, decision policies, band decisions and decisions, with the checks they make (horizons/decision_models.py). */
module HorizonModel {
  import opened Collections
  import opened Reals
  import opened Rounding

  // ----- Rounding -----

  /** `round(x, 3)` and `round(x, 8)` on exact numbers. */
  function Round3(x: real): real {
    Nearest(x * 1000.0) as real / 1000.0
  }

  function Round8(x: real): real {
    Nearest(x * 100000000.0) as real / 100000000.0
  }

  function Clamp(x: real): (r: real)
    ensures 0.0 <= r <= 100.0
    ensures 0.0 <= x <= 100.0 ==> r == x
  {
    Max(0.0, Min(100.0, x))
  }

  /** `math.isclose(a, b, abs_tol=1e-6)`, with its default relative tolerance of 1e-9. */
  predicate IsClose(a: real, b: real) {
    var relative := Max(Abs(a), Abs(b)) / 1000000000.0;
    Abs(a - b) <= Max(relative, 0.000001)
  }

  // ----- Horizons and signals -----

  datatype Unit = Second | Minute | Hour | Day | Week | Month

  const SECOND_MS := 1000
  const HOUR_MS := 3600000
  const DAY_MS := 86400000

  function UnitMs(u: Unit): int {
    match u
    case Second => SECOND_MS
    case Minute => 60 * SECOND_MS
    case Hour => HOUR_MS
    case Day => DAY_MS
    case Week => 7 * DAY_MS
    case Month => 30 * DAY_MS
  }

  /** A canonical interval such as `4h`; `M` counts thirty days. */
  datatype Horizon = Horizon(amount: nat, unit: Unit) {
    predicate Canonical() {
      amount >= 1
    }

    function DurationMs(): int {
      amount * UnitMs(unit)
    }
  }

  datatype Direction = Bullish | Bearish | Neutral | Conflict

  predicate Directional(d: Direction) {
    d == Bullish || d == Bearish
  }

  predicate Percentage(x: real) {
    0.0 <= x <= 100.0
  }

  predicate Score(x: real) {
    -100.0 <= x <= 100.0
  }

  datatype Signal = Signal(
    horizon: Horizon, direction: Direction, score: real, strength: real, confidence: real, volatility: real, manipulation: real)
  {
    predicate Valid() {
      && horizon.Canonical()
      && Score(score) && Percentage(strength) && Percentage(confidence) && Percentage(volatility) && Percentage(manipulation)
      && (direction == Bullish ==> score > 0.0)
      && (direction == Bearish ==> score < 0.0)
    }
  }

  function HorizonOf(s: Signal): Horizon {
    s.horizon
  }

  /** Valid signals from short to long. */
  predicate Ordered(ss: seq<Signal>) {
    && (forall s :: s in ss ==> s.Valid())
    && (forall i, j :: 0 <= i < j < |ss| ==> ss[i].horizon.DurationMs() < ss[j].horizon.DurationMs())
  }

  // ----- Policies -----

  datatype Band = Short | Medium | Long

  function BandRank(b: Band): int {
    match b case Short => 0 case Medium => 1 case Long => 2
  }

  datatype RiskLevel = Low | Moderate | High | Extreme

  function RiskRank(l: RiskLevel): int {
    match l case Low => 0 case Moderate => 1 case High => 2 case Extreme => 3
  }

  function MaxLevel(a: RiskLevel, b: RiskLevel): RiskLevel {
    if RiskRank(a) < RiskRank(b) then b else a
  }

  datatype Thresholds = Thresholds(medium: real, high: real, extreme: real) {
    predicate Valid() {
      0.0 <= medium < high < extreme <= 100.0
    }

    function LevelFor(value: real): RiskLevel {
      if value >= extreme then Extreme else if value >= high then High else if value >= medium then Moderate else Low
    }
  }

  datatype Policy = Policy(
    shortMaxMs: int, longMinMs: int, short: real, medium: real, long: real, minScore: real, minStrength: real, minConfidence: real,
    volatility: Thresholds, manipulation: Thresholds)
  {
    predicate Valid() {
      && 0 < shortMaxMs < longMinMs
      && short > 0.0 && medium > 0.0 && long > 0.0
      && Percentage(minScore) && Percentage(minStrength) && Percentage(minConfidence)
      && volatility.Valid() && manipulation.Valid()
    }

    function Authority(b: Band): real {
      match b case Short => short case Medium => medium case Long => long
    }
  }

  const DEFAULT_POLICY := Policy(4 * HOUR_MS, 7 * DAY_MS, 0.2, 0.3, 0.5, 12.0, 15.0, 45.0,
                                 Thresholds(35.0, 55.0, 75.0), Thresholds(25.0, 35.0, 65.0))

  // ----- Band decisions -----

  datatype Alignment = Aligned | Partial | Conflicted | Indeterminate

  datatype BandDecision = BandDecision(
    band: Band, horizons: seq<Horizon>, qualified: seq<Horizon>, anchor: Horizon, direction: Direction, score: real, strength: real,
    confidence: real, volatility: real, manipulation: real, riskLevel: RiskLevel, alignment: Alignment, conflictScore: real)

  predicate Rising(hs: seq<Horizon>) {
    forall i :: 0 <= i < |hs| - 1 ==> hs[i].DurationMs() < hs[i + 1].DurationMs()
  }

  /** How alignment, direction and conflict score must go together. */
  predicate ConflictShown(alignment: Alignment, direction: Direction, conflictScore: real) {
    if alignment == Conflicted then direction == Conflict && conflictScore > 0.0
    else
      && direction != Conflict && conflictScore == 0.0
      && (alignment == Indeterminate ==> direction == Neutral)
      && (alignment in {Aligned, Partial} ==> Directional(direction))
  }

  /** The checks of the band decision's constructor that do not concern conflict. */
  predicate BandShaped(d: BandDecision) {
    && d.horizons != [] && Distinct(d.horizons) && Rising(d.horizons)
    && d.anchor == d.horizons[|d.horizons| - 1]
    && Distinct(d.qualified)
    && (forall h :: h in d.qualified ==> h in d.horizons)
    && d.qualified == Filter((h: Horizon) => h in d.qualified, d.horizons)
    && Score(d.score)
    && Percentage(d.strength) && Percentage(d.confidence) && Percentage(d.volatility) && Percentage(d.manipulation)
    && Percentage(d.conflictScore)
  }

  /** Every check of the band decision's constructor. */
  predicate BandAdmissible(d: BandDecision) {
    BandShaped(d) && ConflictShown(d.alignment, d.direction, d.conflictScore)
  }

  // ----- Decisions -----

  datatype ConflictKind = NoConflict | IntraBand | ShortVsHigher | MediumVsLong | LowerVsLong | Broad

  datatype Posture = Observe | WaitForConfirmation | CautiousFollow | ReduceExposure | AvoidChasing

  datatype Assessment = Assessment(
    direction: Direction, structuralDirection: Direction, score: real, strength: real, confidence: real, volatility: real,
    manipulation: real, urgency: real, riskLevel: RiskLevel, posture: Posture, alignment: Alignment, conflictKind: ConflictKind,
    conflictScore: real, bands: seq<BandDecision>, volatilityLevel: RiskLevel, manipulationLevel: RiskLevel)

  datatype Evidence = Evidence(horizon: Horizon, weight: real, freshness: real, reliability: real)

  datatype Decision = Decision(policy: Policy, signals: seq<Signal>, order: seq<Horizon>, assessment: Assessment, evidence: seq<Evidence>)

  function SumWeights(es: seq<Evidence>): real {
    if es == [] then 0.0 else SumWeights(es[..|es| - 1]) + es[|es| - 1].weight
  }

  function MaxOf(value: Signal -> real, ss: seq<Signal>): (m: real)
    requires ss != []
    ensures forall s :: s in ss ==> value(s) <= m
    ensures exists s :: s in ss && value(s) == m
  {
    var n := |ss| - 1;
    if n == 0 then assert ss[0] in ss; value(ss[0])
    else
      assert ss == ss[..n] + [ss[n]];
      Max(MaxOf(value, ss[..n]), value(ss[n]))
  }

  function VolatilityOf(s: Signal): real { s.volatility }

  function ManipulationOf(s: Signal): real { s.manipulation }

  /** The signals of the listed horizons. */
  function SignalsAt(ss: seq<Signal>, hs: seq<Horizon>): seq<Signal> {
    Filter((s: Signal) => s.horizon in hs, ss)
  }

  predicate OverallShaped(d: Decision) {
    var a := d.assessment;
    && 2 <= |d.order| <= 8 && Distinct(d.order)
    && Map(HorizonOf, d.signals) == d.order
    && a.structuralDirection != Conflict
    && Score(a.score)
    && Percentage(a.strength) && Percentage(a.confidence) && Percentage(a.volatility) && Percentage(a.manipulation)
    && Percentage(a.urgency) && Percentage(a.conflictScore)
    && 1 <= |a.bands| <= 3
    && (forall i, j :: 0 <= i < j < |a.bands| ==> BandRank(a.bands[i].band) < BandRank(a.bands[j].band))
    && FlatMap((b: BandDecision) => b.horizons, a.bands) == d.order
    && d.policy.Valid()
  }

  predicate EvidenceAdmissible(d: Decision) {
    && |d.evidence| == |d.order|
    && (forall i :: 0 <= i < |d.order| ==> d.evidence[i].horizon == d.order[i] && d.evidence[i].weight >= 0.0)
    && IsClose(SumWeights(d.evidence), 1.0)
    && |d.signals| == |d.order|
    && (forall i :: 0 <= i < |d.order| ==>
          && Percentage(d.evidence[i].freshness) && Percentage(d.evidence[i].reliability)
          && IsClose(d.evidence[i].reliability, d.signals[i].confidence))
  }

  predicate BandRiskPreserved(ss: seq<Signal>, d: BandDecision) {
    && SignalsAt(ss, d.horizons) != []
    && IsClose(d.volatility, Round3(MaxOf(VolatilityOf, SignalsAt(ss, d.horizons))))
    && IsClose(d.manipulation, Round3(MaxOf(ManipulationOf, SignalsAt(ss, d.horizons))))
  }

  /** Risks are the rounded source maxima. */
  predicate RisksPreserved(d: Decision) {
    && d.signals != []
    && IsClose(d.assessment.volatility, Round3(MaxOf(VolatilityOf, d.signals)))
    && IsClose(d.assessment.manipulation, Round3(MaxOf(ManipulationOf, d.signals)))
    && (forall b :: b in d.assessment.bands ==> BandRiskPreserved(d.signals, b))
  }

  /** Risk levels are those of the published, rounded risks. */
  predicate LevelsPreserved(d: Decision) {
    var a, p := d.assessment, d.policy;
    && a.volatilityLevel == p.volatility.LevelFor(a.volatility)
    && a.manipulationLevel == p.manipulation.LevelFor(a.manipulation)
    && a.riskLevel == MaxLevel(p.volatility.LevelFor(a.volatility), p.manipulation.LevelFor(a.manipulation))
    && (forall b :: b in a.bands ==>
          b.riskLevel == MaxLevel(p.volatility.LevelFor(b.volatility), p.manipulation.LevelFor(b.manipulation)))
  }

  predicate ConflictsShown(a: Assessment) {
    && (forall b :: b in a.bands ==> ConflictShown(b.alignment, b.direction, b.conflictScore))
    && ConflictShown(a.alignment, a.direction, a.conflictScore)
    && (a.alignment == Conflicted <==> a.conflictKind != NoConflict)
  }

  /** Every check on computed values that building the band decisions and the decision makes. */
  predicate DecisionAdmissible(d: Decision) {
    && (forall b :: b in d.assessment.bands ==> BandShaped(b))
    && OverallShaped(d) && EvidenceAdmissible(d) && RisksPreserved(d)
    && ConflictsShown(d.assessment)
    && LevelsPreserved(d)
  }
}
