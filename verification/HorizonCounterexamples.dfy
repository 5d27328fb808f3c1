/** Inputs on which the naive promises of the horizon policy fail. */
module HorizonCounterexamples {
  import opened Collections
  import opened Rounding
  import opened HorizonModel
  import opened HorizonPolicy
  import opened HorizonWeights
  import opened HorizonBands
  import opened HorizonDecisions
  import opened HorizonConflicts
  import opened HorizonAdmission
  import opened HorizonExactness
  import opened HorizonWitnesses

  // ----- A risk just below a threshold -----

  const CALM := Signal(Horizon(1, Hour), Neutral, 0.0, 0.0, 0.0, 0.0, 0.0)
  const NEARLY_HIGH := Signal(Horizon(4, Hour), Neutral, 0.0, 0.0, 0.0, 54.9996, 0.0)

  lemma NearlyHighRounds()
    ensures Round3(54.9996) == 55.0
  {
    var y := 54.9996 * 1000.0;
    assert y == 54999.6 && y.Floor == 54999;
    assert Nearest(y) == 55000;
  }

  lemma NearlyHighMax()
    ensures MaxOf(VolatilityOf, [CALM, NEARLY_HIGH]) == 54.9996
  {
    var ss := [CALM, NEARLY_HIGH];
    assert NEARLY_HIGH in ss;
    assert ss[0] == CALM && ss[1] == NEARLY_HIGH;
    var s :| s in ss && VolatilityOf(s) == MaxOf(VolatilityOf, ss);
    assert VolatilityOf(NEARLY_HIGH) <= MaxOf(VolatilityOf, ss);
  }

  /** The level of 54.9996 is not the level of the 55.0 that is published, so the decision is refused. */
  lemma RiskCrossesThreshold()
    ensures Accepted([CALM, NEARLY_HIGH]) && !DecisionAdmissible(DecisionFor(DEFAULT_POLICY, [CALM, NEARLY_HIGH]))
  {
    var ss := [CALM, NEARLY_HIGH];
    assert ss[0] == CALM && ss[1] == NEARLY_HIGH;
    NearlyHighRounds();
    NearlyHighMax();
    assert Accepted(ss);
    hide Round3, MaxOf, Accepted, DecisionAdmissible, DecisionFor, ConflictsShown, Evaluate, BandLevelKept;
    DecisionAdmissibleIff(DEFAULT_POLICY, ss);
  }

  // ----- A partial alignment whose score points the other way -----

  const FALLING := Signal(Horizon(1, Hour), Neutral, -100.0, 0.0, 0.0, 0.0, 0.0)
  const RISING := Signal(Horizon(1, Week), Bullish, 12.0, 15.0, 45.0, 0.0, 0.0)

  lemma FallingBand()
    ensures BandDirection(DEFAULT_POLICY, [FALLING]) == Neutral && BandScore(DEFAULT_POLICY, [FALLING]) == -100.0
  {
    hide Round3, RawBandScore;
    LoneScore(DEFAULT_POLICY, FALLING);
    HundredRounds();
    assert forall s :: s in [FALLING] ==> s == FALLING;
  }

  lemma RisingBand()
    ensures BandDirection(DEFAULT_POLICY, [RISING]) == Bullish && BandScore(DEFAULT_POLICY, [RISING]) == 12.0
  {
    hide Round3, RawBandScore;
    LoneScore(DEFAULT_POLICY, RISING);
    RoundFixes(12000);
    assert 12000 as real / 1000.0 == 12.0;
    assert RISING in [RISING] && Qualified(DEFAULT_POLICY)(RISING) && QualifiedToward(DEFAULT_POLICY, Bullish)(RISING);
    assert forall s :: s in [RISING] ==> s == RISING;
  }

  lemma TwoBands()
    ensures Bands(DEFAULT_POLICY, [FALLING, RISING]) ==
      [EvaluateBand(DEFAULT_POLICY, Short, [FALLING]), EvaluateBand(DEFAULT_POLICY, Long, [RISING])]
  {
    hide EvaluateBand, Members;
    TwoMembers(Short);
    TwoMembers(Medium);
    TwoMembers(Long);
    assert [FALLING] + [] == [FALLING] && [] + [RISING] == [RISING];
    BandListIs(DEFAULT_POLICY, [FALLING, RISING], Short);
    BandListIs(DEFAULT_POLICY, [FALLING, RISING], Medium);
    BandListIs(DEFAULT_POLICY, [FALLING, RISING], Long);
  }

  lemma TwoMembers(b: Band)
    ensures Members(DEFAULT_POLICY, [FALLING, RISING], b) ==
      (if b == Short then [FALLING] else []) + (if b == Long then [RISING] else [])
  {
    var p, ss := DEFAULT_POLICY, [FALLING, RISING];
    MembersStep(p, ss, 0, b);
    MembersStep(p, ss, 1, b);
    assert ss[..2] == ss && Members(p, ss[..0], b) == [];
  }

  lemma PartialScore(bands: seq<BandDecision>)
    requires |bands| == 2 && bands[0].band == Short && bands[1].band == Long && bands[0].score == -100.0 && bands[1].score == 12.0
    ensures DEFAULT_POLICY.Valid() && Normalized(DEFAULT_POLICY, bands, AnyBand, BandScoreOf) == -20.0
  {
    var p := DEFAULT_POLICY;
    assert bands[..1][..0] == [];
    assert AuthoritySum(p, bands[..1], AnyBand, BandScoreOf) == -20.0;
    assert AuthoritySum(p, bands, AnyBand, BandScoreOf) == -14.0;
    assert TotalAuthority(p, bands[..1]) == 0.2;
    assert TotalAuthority(p, bands) == 0.7;
  }

  /** Bands without a qualified direction still contribute score: a bullish, partial decision can score below zero. */
  lemma PartialSignDisagrees()
    ensures DEFAULT_POLICY.Valid() && Accepted([FALLING, RISING])
    ensures var a := Evaluate(DEFAULT_POLICY, [FALLING, RISING]);
      a.direction == Bullish && a.alignment == Partial && a.score == -20.0
  {
    hide *;
    var p, ss := DEFAULT_POLICY, [FALLING, RISING];
    var bands := Bands(p, ss);
    PartialAccepted();
    AcceptedMembers(ss);
    TwoBands();
    FallingBand();
    RisingBand();
    FieldsOfBand(p, Short, [FALLING]);
    FieldsOfBand(p, Long, [RISING]);
    PartialScore(bands);
    EvaluateParts(p, ss);
    TwentyRounds();
    PartialBands(bands);
  }

  lemma PartialAccepted()
    ensures DEFAULT_POLICY.Valid() && Accepted([FALLING, RISING])
  {
    var ss := [FALLING, RISING];
    assert ss[0] == FALLING && ss[1] == RISING;
  }

  lemma TwentyRounds()
    ensures Round3(-20.0) == -20.0
  {
    RoundFixes(-20000);
    assert (-20000) as real / 1000.0 == -20.0;
  }

  lemma PartialBands(bands: seq<BandDecision>)
    requires |bands| == 2 && bands[0].direction == Neutral && bands[1].direction == Bullish
    ensures OverallDirection(bands) == Bullish && OverallAlignment(bands) == Partial
  {
    var keep := (b: BandDecision) => Directional(b.direction);
    assert bands[..1][..0] == [];
    assert Filter(keep, bands[..1]) == [];
    assert bands[1] in bands && forall b :: b in bands ==> b == bands[0] || b == bands[1];
  }

  lemma FieldsOfBand(p: Policy, b: Band, ss: seq<Signal>)
    requires ss != []
    ensures var d := EvaluateBand(p, b, ss); d.band == b && d.direction == BandDirection(p, ss) && d.score == BandScore(p, ss)
  {
    hide BandDirection, BandScore, BandAlignment, BandConflictScore, MaxOf, StrengthFor, BandConfidence, Filter, Map, RiskLevelOf, Round3;
  }
}
