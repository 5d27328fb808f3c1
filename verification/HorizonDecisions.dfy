/** The overall decision against the checks of its output model (horizons/policy.py, horizons/decision_models.py). */
module HorizonDecisions {
  import opened Collections
  import opened Reals
  import opened Rounding
  import opened HorizonModel
  import opened HorizonPolicy
  import opened HorizonWeights
  import opened HorizonBands

  // ----- Band scores agree with band directions -----

  lemma NearestOdd(y: real)
    ensures Nearest(-y) == -Nearest(y)
  {
    var below, rest := y.Floor, y - y.Floor as real;
    if rest == 0.0 {
      assert y == below as real;
      NearestFixes(below);
      NearestFixes(-below);
      assert -y == (-below) as real;
    } else {
      assert (-y).Floor == -below - 1;
    }
  }

  lemma RoundOdd(x: real)
    ensures Round3(-x) == -Round3(x)
  {
    assert -x * 1000.0 == -(x * 1000.0);
    NearestOdd(x * 1000.0);
  }

  /** The least magnitude a directional band's score can have. */
  function ScoreFloor(p: Policy): real {
    Round3(p.minScore)
  }

  lemma ScoreFloorNonNegative(p: Policy)
    requires p.Valid()
    ensures 0.0 <= ScoreFloor(p) <= 100.0
  {
    hide Round3;
    RoundBounds(p.minScore, 0, 100);
  }

  lemma DirectionalMembers(p: Policy, ss: seq<Signal>, d: Direction)
    requires ss != [] && Directional(d) && BandDirection(p, ss) == d
    ensures Any(Qualified(p), ss)
    ensures forall s :: s in ss && Qualified(p)(s) ==> s.direction == d
  {
    var s :| s in ss && QualifiedToward(p, d)(s);
    assert Qualified(p)(s);
    forall t | t in ss && Qualified(p)(t) ensures t.direction == d {
      assert QualifiedToward(p, t.direction)(t);
    }
  }

  /** A bullish band scores at least the rounded direction threshold, a bearish one at most its negative. */
  lemma BandSignAgrees(p: Policy, ss: seq<Signal>)
    requires p.Valid() && ss != [] && forall s :: s in ss ==> s.Valid()
    ensures BandDirection(p, ss) == Bullish ==> ScoreFloor(p) <= BandScore(p, ss) <= 100.0
    ensures BandDirection(p, ss) == Bearish ==> -100.0 <= BandScore(p, ss) <= -ScoreFloor(p)
  {
    hide Round3, RawBandScore, BandDirection, Any, WeightedSum;
    if BandDirection(p, ss) == Bullish {
      DirectionalMembers(p, ss, Bullish);
      RawScoreBounds(p, ss, p.minScore, 100.0);
      RoundMonotone(p.minScore, RawBandScore(p, ss));
      RoundBounds(RawBandScore(p, ss), -100, 100);
    }
    if BandDirection(p, ss) == Bearish {
      DirectionalMembers(p, ss, Bearish);
      RawScoreBounds(p, ss, -100.0, -p.minScore);
      RoundMonotone(RawBandScore(p, ss), -p.minScore);
      RoundOdd(p.minScore);
      RoundBounds(RawBandScore(p, ss), -100, 100);
    }
  }

  // ----- The bands of a decision -----

  /** What is known of every band of an evaluation. */
  ghost predicate BandOf(p: Policy, ss: seq<Signal>, d: BandDecision) {
    Members(p, ss, d.band) != [] && d == EvaluateBand(p, d.band, Members(p, ss, d.band))
  }

  lemma BandsAre(p: Policy, ss: seq<Signal>)
    ensures forall d :: d in Bands(p, ss) ==> BandOf(p, ss, d)
    ensures forall b :: Members(p, ss, b) != [] ==> EvaluateBand(p, b, Members(p, ss, b)) in Bands(p, ss)
    ensures |Bands(p, ss)| <= 3
    ensures forall i, j :: 0 <= i < j < |Bands(p, ss)| ==> BandRank(Bands(p, ss)[i].band) < BandRank(Bands(p, ss)[j].band)
  {
    hide Members, EvaluateBand;
    BandListIs(p, ss, Short);
    BandListIs(p, ss, Medium);
    BandListIs(p, ss, Long);
    forall b | Members(p, ss, b) != [] ensures EvaluateBand(p, b, Members(p, ss, b)) in Bands(p, ss) {
      assert EvaluateBand(p, b, Members(p, ss, b)) in BandList(p, ss, b);
      AnyOfThree(b);
    }
  }

  lemma BandListIs(p: Policy, ss: seq<Signal>, b: Band)
    ensures BandList(p, ss, b) ==
      if Members(p, ss, b) == [] then [] else [EvaluateBand(p, b, Members(p, ss, b))]
    ensures Members(p, ss, b) != [] ==> EvaluateBand(p, b, Members(p, ss, b)) in BandList(p, ss, b)
    ensures forall d :: d in BandList(p, ss, b) ==> d.band == b && BandOf(p, ss, d)
  {
    hide Members;
  }

  lemma MembersFit(p: Policy, ss: seq<Signal>, b: Band)
    requires Ordered(ss)
    ensures Ordered(Members(p, ss, b)) && |Members(p, ss, b)| <= |ss|
    ensures forall s :: s in Members(p, ss, b) ==> s in ss && s.Valid()
  {
    FilterOrdered((s: Signal) => BandFor(p, s.horizon) == b, ss);
  }

  lemma FlatMapParts<T, U>(f: T -> seq<U>, xs: seq<T>, ys: seq<T>)
    requires |ys| <= 1
    ensures FlatMap(f, xs + ys) == FlatMap(f, xs) + (if ys == [] then [] else f(ys[0]))
  {
    if ys == [] {
      assert xs + ys == xs;
    } else {
      assert (xs + ys)[..|xs|] == xs;
    }
  }

  lemma MapParts(a: seq<Signal>, b: seq<Signal>)
    ensures Map(HorizonOf, a + b) == Map(HorizonOf, a) + Map(HorizonOf, b)
  {
  }

  lemma BandListHorizons(p: Policy, ss: seq<Signal>, b: Band)
    ensures |BandList(p, ss, b)| <= 1
    ensures Map(HorizonOf, Members(p, ss, b)) == (if BandList(p, ss, b) == [] then [] else BandList(p, ss, b)[0].horizons)
  {
    hide Members;
  }

  /** The bands' horizons, one band after the other, are the source horizons in order. */
  lemma BandsCoverOrder(p: Policy, ss: seq<Signal>)
    requires p.Valid() && Ordered(ss)
    ensures FlatMap((d: BandDecision) => d.horizons, Bands(p, ss)) == Map(HorizonOf, ss)
  {
    hide Members, BandList, Map, FlatMap, Ordered, Policy.Valid;
    var f := (d: BandDecision) => d.horizons;
    var short, medium, long := BandList(p, ss, Short), BandList(p, ss, Medium), BandList(p, ss, Long);
    BandListHorizons(p, ss, Short);
    BandListHorizons(p, ss, Medium);
    BandListHorizons(p, ss, Long);
    FlatMapParts(f, [], short);
    FlatMapParts(f, short, medium);
    FlatMapParts(f, short + medium, long);
    FlatMapNone(f, short);
    assert short[..0] == [] && [] + short == short;
    BandsPartition(p, ss);
    MapParts(Members(p, ss, Short), Members(p, ss, Medium));
    MapParts(Members(p, ss, Short) + Members(p, ss, Medium), Members(p, ss, Long));
  }

  // ----- Authority-weighted sums -----

  lemma {:induction false} AuthorityBounds(p: Policy, bands: seq<BandDecision>, keep: BandDecision -> bool, value: BandDecision -> real, low: real, high: real)
    requires p.Valid() && forall d :: d in bands && keep(d) ==> low <= value(d) <= high
    requires low <= 0.0 <= high
    ensures Between(low, AuthoritySum(p, bands, keep, value), high, TotalAuthority(p, bands))
  {
    hide Between, Policy.Authority, Policy.Valid, Contribution;
    if bands == [] {
      BetweenZero(low, high);
    } else {
      var k := |bands| - 1;
      assert bands[k] in bands;
      AuthorityBounds(p, bands[..k], keep, value, low, high);
      ContributionBounds(p, bands[k], keep, value, low, high);
      BetweenStep(low, high, TotalAuthority(p, bands[..k]), AuthoritySum(p, bands[..k], keep, value), p.Authority(bands[k].band),
                  Contribution(p, bands[k], keep, value));
    }
  }

  lemma AuthorityAbove(p: Policy, b: Band)
    requires p.Valid()
    ensures p.Authority(b) > 0.0
  {
  }

  lemma ContributionBounds(p: Policy, d: BandDecision, keep: BandDecision -> bool, value: BandDecision -> real, low: real, high: real)
    requires p.Valid() && low <= 0.0 <= high && (keep(d) ==> low <= value(d) <= high)
    ensures Between(low, Contribution(p, d, keep, value), high, p.Authority(d.band))
  {
    AuthorityAbove(p, d.band);
    var v := if keep(d) then value(d) else 0.0;
    ScaleBounds(low, v, high, p.Authority(d.band));
  }

  lemma OverallScoreBounded(p: Policy, bands: seq<BandDecision>)
    requires p.Valid() && bands != [] && forall d :: d in bands ==> Score(d.score)
    ensures Score(Round3(Normalized(p, bands, AnyBand, BandScoreOf)))
  {
    hide Round3, TotalAuthority, AuthoritySum;
    AuthorityPositive(p, bands);
    AuthorityBounds(p, bands, AnyBand, BandScoreOf, -100.0, 100.0);
    QuotientBounds(-100.0, AuthoritySum(p, bands, AnyBand, BandScoreOf), 100.0, TotalAuthority(p, bands));
    RoundBounds(Normalized(p, bands, AnyBand, BandScoreOf), -100, 100);
  }

  /** When every band points the same way, so does the overall score. */
  lemma AlignedSignAgrees(p: Policy, ss: seq<Signal>)
    requires p.Valid() && Accepted(ss) && OverallAlignment(Bands(p, ss)) == Aligned
    ensures Evaluate(p, ss).direction == Bullish ==> Evaluate(p, ss).score >= 0.0
    ensures Evaluate(p, ss).direction == Bearish ==> Evaluate(p, ss).score <= 0.0
  {
    hide Members, Round3, Normalized, BandScore, BandDirection, OverallConflictScore, OverallConfidence, MaxOf;
    BandsNonEmpty(p, ss);
    BandsAre(p, ss);
    var bands := Bands(p, ss);
    hide Bands, EvaluateBand;
    AllDirectional(bands);
    forall d | d in bands
      ensures d.direction == Bullish ==> 0.0 <= d.score <= 100.0
      ensures d.direction == Bearish ==> -100.0 <= d.score <= 0.0
    {
      BandDecisionSign(p, ss, d);
    }
    if OverallDirection(bands) == Bullish {
      assert forall d :: d in bands ==> d.direction == Bullish;
      NormalizedSign(p, bands, 0.0, 100.0);
      RoundMonotoneFromZero(Normalized(p, bands, AnyBand, BandScoreOf));
    } else {
      assert forall d :: d in bands ==> d.direction == Bearish;
      NormalizedSign(p, bands, -100.0, 0.0);
      RoundMonotoneFromZero(Normalized(p, bands, AnyBand, BandScoreOf));
    }
  }

  lemma RoundMonotoneFromZero(x: real)
    ensures x >= 0.0 ==> Round3(x) >= 0.0
    ensures x <= 0.0 ==> Round3(x) <= 0.0
  {
    hide Nearest;
    RoundFixes(0);
    if x >= 0.0 { RoundMonotone(0.0, x); }
    if x <= 0.0 { RoundMonotone(x, 0.0); }
  }

  lemma NormalizedSign(p: Policy, bands: seq<BandDecision>, low: real, high: real)
    requires p.Valid() && bands != [] && low <= 0.0 <= high && forall d :: d in bands ==> low <= d.score <= high
    ensures low <= Normalized(p, bands, AnyBand, BandScoreOf) <= high
  {
    hide TotalAuthority, AuthoritySum;
    AuthorityPositive(p, bands);
    AuthorityBounds(p, bands, AnyBand, BandScoreOf, low, high);
    QuotientBounds(low, AuthoritySum(p, bands, AnyBand, BandScoreOf), high, TotalAuthority(p, bands));
  }

  lemma AllDirectional(bands: seq<BandDecision>)
    requires OverallAlignment(bands) == Aligned
    ensures forall d :: d in bands ==> Directional(d.direction)
    ensures Directional(OverallDirection(bands))
    ensures OverallDirection(bands) == Bullish ==> forall d :: d in bands ==> d.direction == Bullish
    ensures OverallDirection(bands) == Bearish ==> forall d :: d in bands ==> d.direction == Bearish
  {
    FilterFull((b: BandDecision) => Directional(b.direction), bands);
  }

  lemma BandDecisionSign(p: Policy, ss: seq<Signal>, d: BandDecision)
    requires p.Valid() && Ordered(ss) && BandOf(p, ss, d)
    ensures d.direction == Bullish ==> 0.0 <= ScoreFloor(p) <= d.score <= 100.0
    ensures d.direction == Bearish ==> -100.0 <= d.score <= -ScoreFloor(p) <= 0.0
  {
    hide Members, BandScore, BandDirection, Round3, MaxOf, BandAlignment, BandConflictScore, BandConfidence, StrengthFor, Filter, Map;
    var members := Members(p, ss, d.band);
    MembersFit(p, ss, d.band);
    BandSignAgrees(p, members);
    ScoreFloorNonNegative(p);
  }
}
