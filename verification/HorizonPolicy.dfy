/** The multi-horizon decision policy: grouping, weighting and aggregation (horizons/policy.py, horizons/decision.py). */
module HorizonPolicy {
  import opened Collections
  import opened Reals
  import opened HorizonModel

  // ----- Grouping -----

  function BandFor(p: Policy, h: Horizon): Band {
    if h.DurationMs() < p.shortMaxMs then Short else if h.DurationMs() < p.longMinMs then Medium else Long
  }

  function Members(p: Policy, ss: seq<Signal>, b: Band): seq<Signal> {
    Filter((s: Signal) => BandFor(p, s.horizon) == b, ss)
  }

  lemma MembersStep(p: Policy, ss: seq<Signal>, i: nat, b: Band)
    requires i < |ss|
    ensures Members(p, ss[..i + 1], b) == Members(p, ss[..i], b) + (if BandFor(p, ss[i].horizon) == b then [ss[i]] else [])
  {
    assert ss[..i + 1][..i] == ss[..i];
  }

  /** Appends each signal to the bucket of its band. */
  method GroupSignals(p: Policy, ss: seq<Signal>) returns (grouped: map<Band, seq<Signal>>)
    ensures grouped.Keys == {Short, Medium, Long}
    ensures forall b :: b in grouped ==> grouped[b] == Members(p, ss, b)
  {
    hide Members, BandFor;
    grouped := map[Short := [], Medium := [], Long := []];
    NoMembers(p, ss[..0]);
    for i := 0 to |ss|
      invariant grouped.Keys == {Short, Medium, Long}
      invariant forall b :: b in grouped ==> grouped[b] == Members(p, ss[..i], b)
    {
      forall b { MembersStep(p, ss, i, b); }
      var band := BandFor(p, ss[i].horizon);
      grouped := grouped[band := grouped[band] + [ss[i]]];
    }
    assert ss[..|ss|] == ss;
  }

  lemma NoMembers(p: Policy, ss: seq<Signal>)
    requires ss == []
    ensures forall b :: Members(p, ss, b) == []
  {
  }

  // ----- Weights -----

  function Pow2(n: nat): (r: nat)
    ensures r >= 1
  {
    if n == 0 then 1 else 2 * Pow2(n - 1)
  }

  /** The sum of the raw weights 1, 2, 4, ... of the first `n` members. */
  function RawTotal(n: nat): nat {
    if n == 0 then 0 else RawTotal(n - 1) + Pow2(n - 1)
  }

  lemma {:induction false} RawTotalClosed(n: nat)
    ensures RawTotal(n) == Pow2(n) - 1
  {
    if n > 0 { RawTotalClosed(n - 1); }
  }

  function MemberWeight(i: nat, n: nat): (w: real)
    requires i < n
    ensures w > 0.0
  {
    RawTotalClosed(n);
    assert RawTotal(n) >= 1;
    Pow2(i) as real / RawTotal(n) as real
  }

  function Term(v: real, w: real): real {
    v * w
  }

  /** The weighted sum of `value` over the kept members of `ss`, the first signals of a band with `n` members. */
  function WeightedSum(ss: seq<Signal>, n: nat, keep: Signal -> bool, value: Signal -> real): real
    requires |ss| <= n
  {
    if ss == [] then 0.0
    else
      var last := ss[|ss| - 1];
      WeightedSum(ss[..|ss| - 1], n, keep, value) + (if keep(last) then Term(value(last), MemberWeight(|ss| - 1, n)) else 0.0)
  }

  function One(s: Signal): real { 1.0 }

  function ScoreOf(s: Signal): real { s.score }

  function AbsScoreOf(s: Signal): real { Abs(s.score) }

  function ConfidenceOf(s: Signal): real { s.confidence }

  function Everyone(s: Signal): bool { true }

  lemma {:induction false} TotalPositive(ss: seq<Signal>, n: nat, keep: Signal -> bool)
    requires |ss| <= n
    ensures WeightedSum(ss, n, keep, One) >= 0.0
    ensures (exists s :: s in ss && keep(s)) ==> WeightedSum(ss, n, keep, One) > 0.0
  {
    if ss != [] {
      var k := |ss| - 1;
      TotalPositive(ss[..k], n, keep);
      assert ss == ss[..k] + [ss[k]];
    }
  }

  // ----- One band -----

  function Qualified(p: Policy): Signal -> bool {
    (s: Signal) => Directional(s.direction) && Abs(s.score) >= p.minScore && s.strength >= p.minStrength && s.confidence >= p.minConfidence
  }

  function MaterialConflict(p: Policy): Signal -> bool {
    (s: Signal) => s.direction == Conflict && s.strength >= p.minStrength && s.confidence >= p.minConfidence
  }

  function QualifiedToward(p: Policy, d: Direction): Signal -> bool {
    (s: Signal) => Qualified(p)(s) && s.direction == d
  }

  predicate Any(keep: Signal -> bool, ss: seq<Signal>) {
    exists s :: s in ss && keep(s)
  }

  /** Qualified members score the band; without any, all members do. */
  function ScoringKeep(p: Policy, ss: seq<Signal>): Signal -> bool {
    if Any(Qualified(p), ss) then Qualified(p) else Everyone
  }

  lemma ScoringTotal(p: Policy, ss: seq<Signal>)
    requires ss != []
    ensures WeightedSum(ss, |ss|, ScoringKeep(p, ss), One) > 0.0
  {
    TotalPositive(ss, |ss|, ScoringKeep(p, ss));
    assert ss[0] in ss;
    assert Everyone(ss[0]);
  }

  function RawBandScore(p: Policy, ss: seq<Signal>): real
    requires ss != []
  {
    ScoringTotal(p, ss);
    WeightedSum(ss, |ss|, ScoringKeep(p, ss), ScoreOf) / WeightedSum(ss, |ss|, ScoringKeep(p, ss), One)
  }

  function BandScore(p: Policy, ss: seq<Signal>): real
    requires ss != []
  {
    Round3(RawBandScore(p, ss))
  }

  /** Twice the weaker side's share of two opposing supports, in percent. */
  function Opposition(bullish: real, bearish: real): real {
    if bullish > 0.0 && bearish > 0.0 then 200.0 * Min(bullish, bearish) / (bullish + bearish) else 0.0
  }

  function Support(p: Policy, ss: seq<Signal>, d: Direction): real {
    WeightedSum(ss, |ss|, QualifiedToward(p, d), AbsScoreOf)
  }

  function PercentOf(a: real, b: real): real {
    a * b / 100.0
  }

  function ConflictStrength(s: Signal): real {
    PercentOf(s.strength, s.confidence)
  }

  /** The strongest explicit conflict among the members, 0 without one. */
  function ExplicitConflict(p: Policy, ss: seq<Signal>): real {
    if ss == [] then 0.0
    else
      var last, rest := ss[|ss| - 1], ExplicitConflict(p, ss[..|ss| - 1]);
      if MaterialConflict(p)(last) then Max(rest, ConflictStrength(last)) else rest
  }

  function BandConflictScore(p: Policy, ss: seq<Signal>): real {
    Round3(Clamp(Max(Opposition(Support(p, ss, Bullish), Support(p, ss, Bearish)), ExplicitConflict(p, ss))))
  }

  function BandDirection(p: Policy, ss: seq<Signal>): Direction
    requires ss != []
  {
    var bullish, bearish := Any(QualifiedToward(p, Bullish), ss), Any(QualifiedToward(p, Bearish), ss);
    if (bullish && bearish) || MaterialConflict(p)(ss[|ss| - 1]) then Conflict
    else if bullish then Bullish
    else if bearish then Bearish
    else if Any(MaterialConflict(p), ss) then Conflict
    else Neutral
  }

  function BandAlignment(p: Policy, ss: seq<Signal>): Alignment
    requires ss != []
  {
    match BandDirection(p, ss)
    case Conflict => Conflicted
    case Neutral => Indeterminate
    case _ =>
      if |Filter(Qualified(p), ss)| == |ss| && |ss| >= 2 && !Any(MaterialConflict(p), ss) then Aligned else Partial
  }

  function StrengthFor(d: Direction, score: real, conflictScore: real): real {
    if Directional(d) then Round3(Clamp(Abs(score) * 1.7))
    else if d == Conflict then Round3(Clamp(Max(Abs(score), conflictScore)))
    else Round3(Clamp(Abs(score)))
  }

  function BandConfidenceFactor(a: Alignment, conflictScore: real): real {
    match a
    case Aligned => 1.0
    case Partial => 0.8
    case Conflicted => 0.8 + 0.2 * conflictScore / 100.0
    case Indeterminate => 0.65
  }

  function BandConfidence(ss: seq<Signal>, factor: real): real {
    Round3(Clamp(WeightedSum(ss, |ss|, Everyone, ConfidenceOf) * factor))
  }

  function RiskLevelOf(p: Policy, volatility: real, manipulation: real): RiskLevel {
    MaxLevel(p.volatility.LevelFor(volatility), p.manipulation.LevelFor(manipulation))
  }

  function EvaluateBand(p: Policy, b: Band, ss: seq<Signal>): BandDecision
    requires ss != []
  {
    var alignment := BandAlignment(p, ss);
    var conflict := if alignment == Conflicted then BandConflictScore(p, ss) else 0.0;
    var volatility, manipulation := MaxOf(VolatilityOf, ss), MaxOf(ManipulationOf, ss);
    BandDecision(b, Map(HorizonOf, ss), Map(HorizonOf, Filter(Qualified(p), ss)), ss[|ss| - 1].horizon,
                 BandDirection(p, ss), BandScore(p, ss), StrengthFor(BandDirection(p, ss), BandScore(p, ss), conflict),
                 BandConfidence(ss, BandConfidenceFactor(alignment, conflict)),
                 Round3(volatility), Round3(manipulation), RiskLevelOf(p, volatility, manipulation), alignment, Round3(conflict))
  }

  // ----- Across bands -----

  function BandList(p: Policy, ss: seq<Signal>, b: Band): seq<BandDecision> {
    var members := Members(p, ss, b);
    if members == [] then [] else [EvaluateBand(p, b, members)]
  }

  function Bands(p: Policy, ss: seq<Signal>): seq<BandDecision> {
    BandList(p, ss, Short) + BandList(p, ss, Medium) + BandList(p, ss, Long)
  }

  function TotalAuthority(p: Policy, bands: seq<BandDecision>): real {
    if bands == [] then 0.0 else TotalAuthority(p, bands[..|bands| - 1]) + p.Authority(bands[|bands| - 1].band)
  }

  function Contribution(p: Policy, d: BandDecision, keep: BandDecision -> bool, value: BandDecision -> real): real {
    if keep(d) then p.Authority(d.band) * value(d) else 0.0
  }

  /** The sum of `value` over the kept bands, weighted by authority; dividing by the total authority normalizes it. */
  function AuthoritySum(p: Policy, bands: seq<BandDecision>, keep: BandDecision -> bool, value: BandDecision -> real): real {
    if bands == [] then 0.0
    else AuthoritySum(p, bands[..|bands| - 1], keep, value) + Contribution(p, bands[|bands| - 1], keep, value)
  }

  function AnyBand(b: BandDecision): bool { true }

  function Toward(d: Direction): BandDecision -> bool {
    (b: BandDecision) => b.direction == d
  }

  function BandScoreOf(b: BandDecision): real { b.score }

  function BandConfidenceOf(b: BandDecision): real { b.confidence }

  function BandPull(b: BandDecision): real { Max(Abs(b.score), 1.0) }

  lemma {:induction false} AuthorityPositive(p: Policy, bands: seq<BandDecision>)
    requires p.Valid()
    ensures bands != [] ==> TotalAuthority(p, bands) > 0.0
  {
    if |bands| > 1 { AuthorityPositive(p, bands[..|bands| - 1]); }
  }

  function Normalized(p: Policy, bands: seq<BandDecision>, keep: BandDecision -> bool, value: BandDecision -> real): real
    requires p.Valid() && bands != []
  {
    AuthorityPositive(p, bands);
    AuthoritySum(p, bands, keep, value) / TotalAuthority(p, bands)
  }

  function CrossConflictScore(p: Policy, bands: seq<BandDecision>): real
    requires p.Valid() && bands != []
  {
    Round3(Clamp(Opposition(Normalized(p, bands, Toward(Bullish), BandPull), Normalized(p, bands, Toward(Bearish), BandPull))))
  }

  function MaxConflict(bands: seq<BandDecision>): real {
    if bands == [] then 0.0
    else if |bands| == 1 then bands[0].conflictScore
    else Max(MaxConflict(bands[..|bands| - 1]), bands[|bands| - 1].conflictScore)
  }

  predicate SomeBand(bands: seq<BandDecision>, d: Direction) {
    exists b :: b in bands && b.direction == d
  }

  /** The direction of a band, if it is present and directional. */
  function DirectionOf(bands: seq<BandDecision>, band: Band): Option<Direction> {
    if bands == [] then None
    else
      var last := bands[|bands| - 1];
      if last.band == band && Directional(last.direction) then Some(last.direction) else DirectionOf(bands[..|bands| - 1], band)
  }

  function ConflictKindOf(short: Option<Direction>, medium: Option<Direction>, long: Option<Direction>, bandConflict: bool): ConflictKind {
    var present := [short, medium, long];
    if !(Some(Bullish) in present && Some(Bearish) in present) then if bandConflict then IntraBand else NoConflict
    else if bandConflict then Broad
    else
      var shortOpposes, mediumOpposes := short.Some? && short != long, medium.Some? && medium != long;
      if long.Some? && shortOpposes && mediumOpposes then LowerVsLong
      else if long.Some? && mediumOpposes then if short == medium then LowerVsLong else MediumVsLong
      else if long.Some? && shortOpposes then ShortVsHigher
      else if medium.Some? && short.Some? && medium != short then ShortVsHigher
      else Broad
  }

  function StructuralDirection(bands: seq<BandDecision>): Direction {
    if bands == [] then Neutral
    else
      var last := bands[|bands| - 1];
      if last.direction == Conflict then Neutral
      else if Directional(last.direction) then last.direction
      else StructuralDirection(bands[..|bands| - 1])
  }

  function OverallDirection(bands: seq<BandDecision>): Direction {
    if (SomeBand(bands, Bullish) && SomeBand(bands, Bearish)) || SomeBand(bands, Conflict) then Conflict
    else if SomeBand(bands, Bullish) then Bullish
    else if SomeBand(bands, Bearish) then Bearish
    else Neutral
  }

  function DirectionalCount(bands: seq<BandDecision>): nat {
    |Filter((b: BandDecision) => Directional(b.direction), bands)|
  }

  function OverallAlignment(bands: seq<BandDecision>): Alignment {
    match OverallDirection(bands)
    case Conflict => Conflicted
    case Neutral => Indeterminate
    case _ => if DirectionalCount(bands) >= 2 && DirectionalCount(bands) == |bands| then Aligned else Partial
  }

  function CoverageFactor(count: nat): real {
    if count == 1 then 0.65 else if count == 2 then 0.85 else 1.0
  }

  function ConclusionFactor(a: Alignment, conflictScore: real): real {
    match a
    case Aligned => 1.0
    case Partial => 0.85
    case Indeterminate => 0.65
    case Conflicted => 0.8 + 0.2 * conflictScore / 100.0
  }

  function ActionPosture(d: Direction, a: Alignment, risk: RiskLevel): Posture {
    match risk
    case Extreme => AvoidChasing
    case High => ReduceExposure
    case Moderate => WaitForConfirmation
    case Low =>
      if a == Conflicted then WaitForConfirmation
      else if a == Indeterminate then Observe
      else if Directional(d) then CautiousFollow
      else Observe
  }

  function OverallConflictScore(p: Policy, bands: seq<BandDecision>): real
    requires p.Valid() && bands != []
  {
    if OverallAlignment(bands) == Conflicted then Round3(Max(CrossConflictScore(p, bands), MaxConflict(bands))) else 0.0
  }

  function OverallKind(bands: seq<BandDecision>): ConflictKind {
    if OverallAlignment(bands) == Conflicted then
      ConflictKindOf(DirectionOf(bands, Short), DirectionOf(bands, Medium), DirectionOf(bands, Long), SomeBand(bands, Conflict))
    else NoConflict
  }

  function OverallConfidence(p: Policy, bands: seq<BandDecision>, a: Alignment, conflict: real): real
    requires p.Valid() && bands != []
  {
    Round3(Clamp(Term(Term(Normalized(p, bands, AnyBand, BandConfidenceOf), CoverageFactor(|bands|)), ConclusionFactor(a, conflict))))
  }

  /** Each signal belongs to some band. */
  lemma BandsNonEmpty(p: Policy, ss: seq<Signal>)
    ensures ss != [] ==> Bands(p, ss) != []
  {
    if ss != [] {
      assert ss[0] in ss;
      assert ss[0] in Members(p, ss, BandFor(p, ss[0].horizon));
    }
  }

  /** The assessment of the signals from the decisions of their bands. */
  function Assess(p: Policy, ss: seq<Signal>, bands: seq<BandDecision>): Assessment
    requires p.Valid() && ss != [] && bands != []
  {
    var direction, alignment := OverallDirection(bands), OverallAlignment(bands);
    var score := Round3(Normalized(p, bands, AnyBand, BandScoreOf));
    var conflict := OverallConflictScore(p, bands);
    var strength := StrengthFor(direction, score, conflict);
    var volatility, manipulation := MaxOf(VolatilityOf, ss), MaxOf(ManipulationOf, ss);
    var risk := RiskLevelOf(p, volatility, manipulation);
    Assessment(direction, StructuralDirection(bands), score, strength, OverallConfidence(p, bands, alignment, conflict),
               Round3(volatility), Round3(manipulation), Round3(Clamp(Max(Max(volatility, manipulation), Max(strength, conflict)))),
               risk, ActionPosture(direction, alignment, risk), alignment, OverallKind(bands), conflict, bands,
               p.volatility.LevelFor(volatility), p.manipulation.LevelFor(manipulation))
  }

  function Evaluate(p: Policy, ss: seq<Signal>): Assessment
    requires p.Valid() && ss != []
  {
    BandsNonEmpty(p, ss);
    Assess(p, ss, Bands(p, ss))
  }

  /** `_validate_signals`: 2 to 8 signals, strictly from short to long. */
  predicate Accepted(ss: seq<Signal>) {
    2 <= |ss| <= 8 && Ordered(ss)
  }
}
