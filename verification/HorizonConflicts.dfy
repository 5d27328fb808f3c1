/** Conflicts across bands, and exactly which policies always show them in their output (horizons/policy.py). */
module HorizonConflicts {
  import opened Collections
  import opened Reals
  import opened Rounding
  import opened HorizonModel
  import opened HorizonPolicy
  import opened HorizonWeights
  import opened HorizonBands
  import opened HorizonDecisions

  // ----- Which bands can have members at all -----

  function FirstSecond(ms: int): int {
    (ms + 999) / 1000
  }

  /** Some canonical horizon falls into the band; every duration is a whole number of seconds. */
  predicate Inhabited(p: Policy, b: Band) {
    match b
    case Short => p.shortMaxMs > 1000
    case Medium => 1000 * FirstSecond(p.shortMaxMs) < p.longMinMs
    case Long => true
  }

  function WitnessHorizon(p: Policy, b: Band): Horizon
    requires p.Valid()
  {
    match b
    case Short => Horizon(1, Second)
    case Medium => Horizon(FirstSecond(p.shortMaxMs), Second)
    case Long => Horizon(p.longMinMs, Second)
  }

  lemma WholeSeconds(h: Horizon)
    requires h.Canonical()
    ensures h.DurationMs() >= 1000 && h.DurationMs() % 1000 == 0
  {
    var u := UnitMs(h.unit) / 1000;
    assert UnitMs(h.unit) == 1000 * u && u >= 1;
    assert h.DurationMs() == 1000 * (h.amount * u);
    assert h.amount * u >= 1;
  }

  lemma InhabitedIff(p: Policy, b: Band)
    requires p.Valid()
    ensures Inhabited(p, b) <==> exists h: Horizon :: h.Canonical() && BandFor(p, h) == b
  {
    if Inhabited(p, b) {
      assert WitnessHorizon(p, b).Canonical() && BandFor(p, WitnessHorizon(p, b)) == b;
    }
    if h: Horizon :| h.Canonical() && BandFor(p, h) == b {
      HorizonInhabits(p, h);
    }
  }

  lemma HorizonInhabits(p: Policy, h: Horizon)
    requires p.Valid() && h.Canonical()
    ensures Inhabited(p, BandFor(p, h))
  {
    hide Horizon.DurationMs;
    WholeSeconds(h);
    var seconds := h.DurationMs() / 1000;
    assert h.DurationMs() == 1000 * seconds;
  }

  function InhabitedShare(p: Policy, b: Band): real {
    if Inhabited(p, b) then p.Authority(b) else 0.0
  }

  function InhabitedAuthority(p: Policy): real {
    InhabitedShare(p, Short) + InhabitedShare(p, Medium) + InhabitedShare(p, Long)
  }

  /** The least pull a directional band has in the conflict across bands. */
  function LeastPull(p: Policy): real {
    Max(ScoreFloor(p), 1.0)
  }

  function PulledAuthority(p: Policy, b: Band): real {
    p.Authority(b) * LeastPull(p)
  }

  /** No band's authority is so small that its opposition to all others rounds away. */
  ghost predicate CrossVisible(p: Policy) {
    forall b :: Inhabited(p, b) ==> 199.9995 * PulledAuthority(p, b) > 0.05 * (InhabitedAuthority(p) - p.Authority(b))
  }

  // ----- Sums over bands -----

  lemma {:induction false} PullAtLeast(p: Policy, bands: seq<BandDecision>, d: Direction, i: nat)
    requires p.Valid() && i < |bands| && bands[i].direction == d
    ensures AuthoritySum(p, bands, Toward(d), BandPull) >= p.Authority(bands[i].band) * BandPull(bands[i])
  {
    hide Policy.Authority, BandPull;
    var k := |bands| - 1;
    PullNonNegative(p, bands[k], d);
    if i < k {
      PullAtLeast(p, bands[..k], d, i);
    } else {
      PullsNonNegative(p, bands[..k], d);
    }
  }

  lemma PullNonNegative(p: Policy, b: BandDecision, d: Direction)
    requires p.Valid()
    ensures Contribution(p, b, Toward(d), BandPull) >= 0.0
  {
    AuthorityAbove(p, b.band);
    ProductSign(p.Authority(b.band), BandPull(b));
  }

  lemma {:induction false} PullsNonNegative(p: Policy, bands: seq<BandDecision>, d: Direction)
    requires p.Valid()
    ensures AuthoritySum(p, bands, Toward(d), BandPull) >= 0.0
  {
    hide Contribution, Policy.Valid;
    if bands != [] {
      PullsNonNegative(p, bands[..|bands| - 1], d);
      PullNonNegative(p, bands[|bands| - 1], d);
    }
  }

  /** What pulls the other way does so with the remaining authority at most. */
  lemma {:induction false} OtherPullAtMost(p: Policy, bands: seq<BandDecision>, d: Direction, i: nat)
    requires p.Valid() && i < |bands| && bands[i].direction != d
    requires forall b :: b in bands ==> Score(b.score)
    ensures AuthoritySum(p, bands, Toward(d), BandPull) <= 100.0 * (TotalAuthority(p, bands) - p.Authority(bands[i].band))
  {
    hide Policy.Authority, Policy.Valid, Contribution, BandPull;
    var k := |bands| - 1;
    assert bands[k] in bands;
    PullContribution(p, bands[k], d);
    if i < k {
      OtherPullAtMost(p, bands[..k], d, i);
    } else {
      PullsAtMost(p, bands[..k], d);
    }
  }

  lemma PullContribution(p: Policy, b: BandDecision, d: Direction)
    requires p.Valid() && Score(b.score)
    ensures Contribution(p, b, Toward(d), BandPull) <= 100.0 * p.Authority(b.band)
    ensures b.direction != d ==> Contribution(p, b, Toward(d), BandPull) == 0.0
  {
    hide *;
    AuthorityAbove(p, b.band);
    ContributionIs(p, b, Toward(d), BandPull);
    PullRange(b, d);
    FullPull(p.Authority(b.band), BandPull(b));
  }

  lemma ContributionIs(p: Policy, b: BandDecision, keep: BandDecision -> bool, value: BandDecision -> real)
    ensures Contribution(p, b, keep, value) == if keep(b) then Term(p.Authority(b.band), value(b)) else 0.0
  {
  }

  lemma PullRange(b: BandDecision, d: Direction)
    requires Score(b.score)
    ensures 0.0 <= BandPull(b) <= 100.0 && (Toward(d)(b) <==> b.direction == d)
  {
  }

  lemma FullPull(a: real, pull: real)
    requires a > 0.0 && 0.0 <= pull <= 100.0
    ensures 0.0 <= Term(a, pull) <= 100.0 * a
  {
    ScaleBounds(0.0, pull, 100.0, a);
    Commutes(a, pull);
  }

  lemma {:induction false} PullsAtMost(p: Policy, bands: seq<BandDecision>, d: Direction)
    requires p.Valid() && forall b :: b in bands ==> Score(b.score)
    ensures AuthoritySum(p, bands, Toward(d), BandPull) <= 100.0 * TotalAuthority(p, bands)
  {
    hide Contribution, Policy.Valid, Policy.Authority;
    if bands != [] {
      assert bands[|bands| - 1] in bands;
      PullsAtMost(p, bands[..|bands| - 1], d);
      PullContribution(p, bands[|bands| - 1], d);
    }
  }

  lemma TotalParts(p: Policy, xs: seq<BandDecision>, ys: seq<BandDecision>)
    requires |ys| <= 1
    ensures TotalAuthority(p, xs + ys) == TotalAuthority(p, xs) + (if ys == [] then 0.0 else p.Authority(ys[0].band))
  {
    if ys == [] {
      assert xs + ys == xs;
    } else {
      assert (xs + ys)[..|xs|] == xs;
    }
  }

  /** The bands of an evaluation carry the authority of the bands present, all of them inhabited. */
  lemma TotalIsPresent(p: Policy, ss: seq<Signal>)
    requires p.Valid() && Ordered(ss)
    ensures TotalAuthority(p, Bands(p, ss)) == PresentAuthority(p, ss) <= InhabitedAuthority(p)
    ensures forall b :: Members(p, ss, b) != [] ==> Inhabited(p, b)
  {
    hide Members, BandList, Inhabited, BandFor, Ordered;
    var short, medium, long := BandList(p, ss, Short), BandList(p, ss, Medium), BandList(p, ss, Long);
    BandListBand(p, ss, Short);
    BandListBand(p, ss, Medium);
    BandListBand(p, ss, Long);
    TotalParts(p, [], short);
    TotalParts(p, short, medium);
    TotalParts(p, short + medium, long);
    assert [] + short == short;
    forall b | Members(p, ss, b) != [] ensures Inhabited(p, b) { MemberInhabits(p, ss, b); }
  }

  lemma BandListBand(p: Policy, ss: seq<Signal>, b: Band)
    ensures |BandList(p, ss, b)| <= 1
    ensures BandAuthority(p, ss, b) == (if BandList(p, ss, b) == [] then 0.0 else p.Authority(BandList(p, ss, b)[0].band))
    ensures BandList(p, ss, b) == [] <==> Members(p, ss, b) == []
  {
    hide Members;
  }

  lemma MemberInhabits(p: Policy, ss: seq<Signal>, b: Band)
    requires p.Valid() && Ordered(ss) && Members(p, ss, b) != []
    ensures Inhabited(p, b)
  {
    var s := Members(p, ss, b)[0];
    assert s in Members(p, ss, b);
    InhabitedIff(p, b);
  }

  // ----- Opposing bands are visible -----

  lemma QuotientScale(a: real, b: real, t: real)
    requires t > 0.0 && 199.9995 * a > 0.0005 * b
    ensures 199.9995 * (a / t) > 0.0005 * (b / t)
  {
    var x, y := a / t, b / t;
    assert x * t == a && y * t == b;
    if 199.9995 * x <= 0.0005 * y { ScaleBounds(199.9995 * x, 199.9995 * x, 0.0005 * y, t); }
  }

  lemma BandPullBounds(p: Policy, ss: seq<Signal>, d: BandDecision)
    requires p.Valid() && Ordered(ss) && BandOf(p, ss, d)
    ensures Score(d.score)
    ensures Directional(d.direction) ==> LeastPull(p) <= BandPull(d) <= 100.0
  {
    hide BandOf, ScoreFloor, Ordered, Policy.Valid;
    BandDecisionSign(p, ss, d);
    BandDecisionScore(p, ss, d);
  }

  lemma BandDecisionScore(p: Policy, ss: seq<Signal>, d: BandDecision)
    requires Ordered(ss) && BandOf(p, ss, d)
    ensures Score(d.score) && Percentage(d.conflictScore) && BandShaped(d)
  {
    MembersFit(p, ss, d.band);
    hide Members, BandShaped, EvaluateBand;
    BandIsShaped(p, d.band, Members(p, ss, d.band));
    ShapedBounds(d);
  }

  lemma ShapedBounds(d: BandDecision)
    requires BandShaped(d)
    ensures Score(d.score) && Percentage(d.conflictScore)
  {
  }

  /** A directional band is not drowned out by the bands that point the other way. */
  lemma PullVisible(p: Policy, ss: seq<Signal>, d: Direction, other: Direction, i: nat)
    requires p.Valid() && CrossVisible(p) && Ordered(ss) && (d == Bullish || d == Bearish) && d != other
    requires i < |Bands(p, ss)| && Bands(p, ss)[i].direction == d
    ensures var bands := Bands(p, ss);
      && 199.9995 * AuthoritySum(p, bands, Toward(d), BandPull) > 0.0005 * AuthoritySum(p, bands, Toward(other), BandPull)
      && AuthoritySum(p, bands, Toward(d), BandPull) > 0.0
  {
    hide *;
    var bands := Bands(p, ss);
    var x := bands[i];
    BandsKnown(p, ss, x);
    BandPullBounds(p, ss, x);
    PullAtLeast(p, bands, d, i);
    OtherPullAtMost(p, bands, other, i);
    TotalIsPresent(p, ss);
    AuthorityAbove(p, x.band);
    DirectionalPull(p, ss, x);
    PulledAtMost(p, x);
    CrossVisibleAt(p, x.band);
  }

  lemma BandsKnown(p: Policy, ss: seq<Signal>, x: BandDecision)
    requires p.Valid() && Ordered(ss) && x in Bands(p, ss)
    ensures BandOf(p, ss, x) && Members(p, ss, x.band) != []
    ensures forall b :: b in Bands(p, ss) ==> Score(b.score)
  {
    hide Bands, Members, EvaluateBand, Ordered;
    BandsAre(p, ss);
    forall b | b in Bands(p, ss) ensures Score(b.score) { BandDecisionScore(p, ss, b); }
  }

  lemma DirectionalPull(p: Policy, ss: seq<Signal>, x: BandDecision)
    requires p.Valid() && Ordered(ss) && BandOf(p, ss, x) && (x.direction == Bullish || x.direction == Bearish)
    ensures LeastPull(p) <= BandPull(x) <= 100.0
  {
    hide BandOf, Ordered, LeastPull, BandPull;
    BandPullBounds(p, ss, x);
  }

  lemma CrossVisibleAt(p: Policy, b: Band)
    requires CrossVisible(p) && Inhabited(p, b)
    ensures 199.9995 * PulledAuthority(p, b) > 0.05 * (InhabitedAuthority(p) - p.Authority(b))
  {
  }

  lemma PulledAtMost(p: Policy, x: BandDecision)
    requires p.Authority(x.band) > 0.0 && BandPull(x) >= LeastPull(p)
    ensures 0.0 < PulledAuthority(p, x.band) <= p.Authority(x.band) * BandPull(x)
  {
    hide ScoreFloor, BandPull, Policy.Authority;
    var a, l, b := p.Authority(x.band), LeastPull(p), BandPull(x);
    ProductRise(a, l, b);
  }

  lemma ProductRise(a: real, l: real, b: real)
    requires a > 0.0 && 0.0 < l <= b
    ensures 0.0 < a * l <= a * b
  {
  }

  lemma SomeBandIndex(bands: seq<BandDecision>, d: Direction) returns (i: nat)
    requires SomeBand(bands, d)
    ensures i < |bands| && bands[i].direction == d
  {
    i :| 0 <= i < |bands| && bands[i].direction == d;
  }

  lemma CrossConflictPositive(p: Policy, ss: seq<Signal>)
    requires p.Valid() && CrossVisible(p) && Ordered(ss)
    requires SomeBand(Bands(p, ss), Bullish) && SomeBand(Bands(p, ss), Bearish)
    ensures Bands(p, ss) != [] && CrossConflictScore(p, Bands(p, ss)) > 0.0
  {
    hide Bands, AuthoritySum, TotalAuthority, Opposition, Round3, Clamp, CrossVisible;
    var bands := Bands(p, ss);
    var i := SomeBandIndex(bands, Bullish);
    var j := SomeBandIndex(bands, Bearish);
    PullVisible(p, ss, Bullish, Bearish, i);
    PullVisible(p, ss, Bearish, Bullish, j);
    AuthorityPositive(p, bands);
    var a, b, t := AuthoritySum(p, bands, Toward(Bullish), BandPull), AuthoritySum(p, bands, Toward(Bearish), BandPull), TotalAuthority(p, bands);
    QuotientScale(a, b, t);
    QuotientScale(b, a, t);
    QuotientSign(a, t);
    QuotientSign(b, t);
    OppositionVisibleIff(a / t, b / t);
    ScoreVisible(Opposition(a / t, b / t));
  }

  // ----- Conflict kinds -----

  predicate DirectionalOption(d: Option<Direction>) {
    d.Some? ==> Directional(d.value)
  }

  /**
   * What each kind of conflict says: which bands point which way. The final catch-all is never reached, so `Broad` always
   * means opposing bands together with a conflict inside one.
   */
  lemma ConflictKindMeaning(short: Option<Direction>, medium: Option<Direction>, long: Option<Direction>, bandConflict: bool)
    requires DirectionalOption(short) && DirectionalOption(medium) && DirectionalOption(long)
    ensures var kind := ConflictKindOf(short, medium, long, bandConflict);
      var opposed := (short.Some? && medium.Some? && short != medium) || (short.Some? && long.Some? && short != long)
                     || (medium.Some? && long.Some? && medium != long);
      && (kind == NoConflict <==> !opposed && !bandConflict)
      && (kind == IntraBand <==> !opposed && bandConflict)
      && (kind == Broad <==> opposed && bandConflict)
      && (kind == LowerVsLong <==> !bandConflict && short.Some? && medium.Some? && long.Some? && short == medium && medium != long)
      && (kind == MediumVsLong <==> !bandConflict && medium.Some? && long.Some? && medium != long && short != medium)
      && (kind == ShortVsHigher <==> !bandConflict && short.Some? && opposed && (medium.None? || long.None? || medium == long))
  {
    var present := [short, medium, long];
    assert Option.Some(Bullish) in present <==> (short == Option.Some(Bullish) || medium == Option.Some(Bullish) || long == Option.Some(Bullish));
    assert Option.Some(Bearish) in present <==> (short == Option.Some(Bearish) || medium == Option.Some(Bearish) || long == Option.Some(Bearish));
  }

  lemma {:induction false} DirectionOfFinds(bands: seq<BandDecision>, i: nat)
    requires i < |bands| && Directional(bands[i].direction)
    requires forall j, k :: 0 <= j < k < |bands| ==> BandRank(bands[j].band) < BandRank(bands[k].band)
    ensures DirectionOf(bands, bands[i].band) == Option.Some(bands[i].direction)
  {
    if i < |bands| - 1 {
      assert bands[|bands| - 1].band != bands[i].band;
      DirectionOfFinds(bands[..|bands| - 1], i);
    }
  }

  lemma KindShown(p: Policy, ss: seq<Signal>)
    ensures OverallAlignment(Bands(p, ss)) == Conflicted <==> OverallKind(Bands(p, ss)) != NoConflict
  {
    hide Bands, Members, EvaluateBand, BandOf;
    BandsAre(p, ss);
    var bands := Bands(p, ss);
    if OverallAlignment(bands) == Conflicted && !SomeBand(bands, Conflict) {
      var i := SomeBandIndex(bands, Bullish);
      var j := SomeBandIndex(bands, Bearish);
      DirectionOfFinds(bands, i);
      DirectionOfFinds(bands, j);
    }
  }

  // ----- The conflict checks of a whole decision -----

  ghost predicate ConflictVisible(p: Policy) {
    BandVisible(p) && CrossVisible(p)
  }

  lemma {:induction false} MaxConflictBounds(bands: seq<BandDecision>)
    requires forall d :: d in bands ==> Percentage(d.conflictScore)
    ensures forall d :: d in bands ==> d.conflictScore <= MaxConflict(bands)
    ensures 0.0 <= MaxConflict(bands) <= 100.0
  {
    if |bands| > 1 {
      var n := |bands| - 1;
      assert bands == bands[..n] + [bands[n]];
      MaxConflictBounds(bands[..n]);
      assert bands[n] in bands;
    } else if |bands| == 1 {
      assert bands[0] in bands;
    }
  }

  lemma RoundKeepsPositive(x: real, y: real)
    requires Round3(y) > 0.0 && x >= Round3(y)
    ensures Round3(x) > 0.0
  {
    hide Nearest;
    RoundIdempotent(y);
    RoundMonotone(Round3(y), x);
  }

  /** Every band of a decision shows its conflict under such a policy. */
  lemma BandConflictsShown(p: Policy, ss: seq<Signal>, d: BandDecision)
    requires p.Valid() && BandVisible(p) && Ordered(ss) && |ss| <= 8 && d in Bands(p, ss)
    ensures ConflictShown(d.alignment, d.direction, d.conflictScore)
    ensures d.direction == Conflict ==> d.conflictScore > 0.0 && Round3(d.conflictScore) == d.conflictScore
  {
    BandsAre(p, ss);
    hide Members, BandVisible, Round3, BandDirection, BandConflictScore, BandScore, BandAlignment, StrengthFor, BandConfidence, Filter, MaxOf;
    hide ConflictShown, Ordered;
    var members := Members(p, ss, d.band);
    MembersFit(p, ss, d.band);
    BandConflictVisible(p, members);
    BandConflictShownIff(p, d.band, members);
    BandScoreRounded(p, members);
  }

  lemma BandScoreRounded(p: Policy, ss: seq<Signal>)
    ensures Round3(BandConflictScore(p, ss)) == BandConflictScore(p, ss)
  {
    hide Clamp, Opposition, Support, ExplicitConflict, Nearest;
    RoundIdempotent(Clamp(Max(Opposition(Support(p, ss, Bullish), Support(p, ss, Bearish)), ExplicitConflict(p, ss))));
  }

  lemma OverallConflictPositive(p: Policy, ss: seq<Signal>)
    requires p.Valid() && ConflictVisible(p) && Accepted(ss) && OverallDirection(Bands(p, ss)) == Conflict
    ensures Bands(p, ss) != [] && OverallConflictScore(p, Bands(p, ss)) > 0.0
  {
    BandsNonEmpty(p, ss);
    BandsAre(p, ss);
    hide Bands, CrossVisible, BandVisible, Round3, BandShaped, MaxConflict, BandOf, Members;
    var bands := Bands(p, ss);
    forall d | d in bands ensures Percentage(d.conflictScore) { BandDecisionScore(p, ss, d); }
    MaxConflictBounds(bands);
    if SomeBand(bands, Conflict) {
      var i := SomeBandIndex(bands, Conflict);
      assert bands[i] in bands;
      BandConflictsShown(p, ss, bands[i]);
      RoundKeepsPositive(Max(CrossConflictScore(p, bands), MaxConflict(bands)), bands[i].conflictScore);
    } else {
      CrossConflictPositive(p, ss);
      CrossRounded(p, bands, Max(CrossConflictScore(p, bands), MaxConflict(bands)));
    }
  }

  lemma CrossRounded(p: Policy, bands: seq<BandDecision>, x: real)
    requires p.Valid() && bands != [] && CrossConflictScore(p, bands) > 0.0 && x >= CrossConflictScore(p, bands)
    ensures Round3(x) > 0.0
  {
    hide Round3, Clamp, Opposition, Normalized;
    RoundKeepsPositive(x, Clamp(Opposition(Normalized(p, bands, Toward(Bullish), BandPull), Normalized(p, bands, Toward(Bearish), BandPull))));
  }

  /** Under a conflict-visible policy every decision passes the conflict checks of its output model. */
  lemma ConflictsAlwaysShown(p: Policy, ss: seq<Signal>)
    requires p.Valid() && ConflictVisible(p) && Accepted(ss)
    ensures ConflictsShown(Evaluate(p, ss))
  {
    BandsNonEmpty(p, ss);
    KindShown(p, ss);
    hide Bands, CrossVisible, BandVisible, Round3, OverallConfidence, MaxOf, StrengthFor, Normalized;
    var bands := Bands(p, ss);
    forall d | d in bands ensures ConflictShown(d.alignment, d.direction, d.conflictScore) { BandConflictsShown(p, ss, d); }
    if OverallDirection(bands) == Conflict { OverallConflictPositive(p, ss); }
    OverallShownIff(p, bands);
    EvaluateParts(p, ss);
  }

  lemma OverallShownIff(p: Policy, bands: seq<BandDecision>)
    requires p.Valid() && bands != []
    ensures ConflictShown(OverallAlignment(bands), OverallDirection(bands), OverallConflictScore(p, bands)) <==>
      (OverallDirection(bands) == Conflict ==> OverallConflictScore(p, bands) > 0.0)
  {
    hide CrossConflictScore, MaxConflict, Round3, DirectionalCount, SomeBand;
  }

  lemma EvaluateParts(p: Policy, ss: seq<Signal>)
    requires p.Valid() && ss != []
    ensures Bands(p, ss) != []
    ensures var a, bands := Evaluate(p, ss), Bands(p, ss);
      && a.bands == bands && a.direction == OverallDirection(bands) && a.alignment == OverallAlignment(bands)
      && a.conflictScore == OverallConflictScore(p, bands) && a.conflictKind == OverallKind(bands)
      && a.structuralDirection == StructuralDirection(bands)
      && a.score == Round3(Normalized(p, bands, AnyBand, BandScoreOf))
      && a.strength == StrengthFor(a.direction, a.score, a.conflictScore)
      && a.confidence == OverallConfidence(p, bands, a.alignment, a.conflictScore)
      && a.volatility == Round3(MaxOf(VolatilityOf, ss)) && a.manipulation == Round3(MaxOf(ManipulationOf, ss))
      && a.urgency == Round3(Clamp(Max(Max(MaxOf(VolatilityOf, ss), MaxOf(ManipulationOf, ss)), Max(a.strength, a.conflictScore))))
      && a.volatilityLevel == p.volatility.LevelFor(MaxOf(VolatilityOf, ss))
      && a.manipulationLevel == p.manipulation.LevelFor(MaxOf(ManipulationOf, ss))
      && a.riskLevel == RiskLevelOf(p, MaxOf(VolatilityOf, ss), MaxOf(ManipulationOf, ss))
  {
    BandsNonEmpty(p, ss);
    hide Bands, OverallDirection, OverallAlignment, OverallConflictScore, OverallKind, Round3, OverallConfidence, MaxOf, StrengthFor;
    hide Normalized, RiskLevelOf, Clamp, Max, StructuralDirection, Thresholds.LevelFor;
  }
}
