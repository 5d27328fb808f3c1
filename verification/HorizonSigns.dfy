/** When the overall score points the same way as the overall direction (horizons/policy.py). */
module HorizonSigns {
  import opened Collections
  import opened Reals
  import opened Rounding
  import opened HorizonModel
  import opened HorizonPolicy
  import opened HorizonWeights
  import opened HorizonBands
  import opened HorizonDecisions
  import opened HorizonConflicts
  import opened HorizonWitnesses

  /** The score does not point against a bullish or bearish direction. */
  predicate SignAgrees(a: Assessment) {
    && (a.direction == Bullish ==> a.score >= 0.0)
    && (a.direction == Bearish ==> a.score <= 0.0)
  }

  // ----- One decision -----

  /** Rounding to three digits hides a wrong sign of up to half a thousandth. */
  lemma RoundedSign(x: real)
    ensures Round3(x) >= 0.0 <==> x >= -0.0005
    ensures Round3(x) <= 0.0 <==> x <= 0.0005
  {
    hide Nearest;
    NearestSign(x * 1000.0);
    assert -(x * 1000.0) == (-x) * 1000.0;
    NearestOdd(x * 1000.0);
    NearestSign(-(x * 1000.0));
  }

  lemma NearestSign(y: real)
    ensures Nearest(y) >= 0 <==> y >= -0.5
  {
    assert y >= 0.0 ==> y.Floor >= 0;
    assert y == -0.5 ==> y.Floor == -1;
    assert -1.0 <= y < 0.0 ==> y.Floor == -1;
    assert y < -1.0 ==> y.Floor <= -2;
  }

  function Push(p: Policy, bands: seq<BandDecision>, d: Direction): real {
    AuthoritySum(p, bands, Toward(d), BandScoreOf)
  }

  lemma {:induction false} PushesAddUp(p: Policy, bands: seq<BandDecision>, d: Direction)
    requires Directional(d) && forall b :: b in bands ==> b.direction == d || b.direction == Neutral
    ensures AuthoritySum(p, bands, AnyBand, BandScoreOf) == Push(p, bands, d) + Push(p, bands, Neutral)
  {
    hide Policy.Authority;
    if bands != [] {
      var k := |bands| - 1;
      assert bands[k] in bands;
      PushesAddUp(p, bands[..k], d);
    }
  }

  /** Without a conflict every band has the overall direction or none. */
  lemma BandsFollow(bands: seq<BandDecision>)
    requires Directional(OverallDirection(bands))
    ensures forall b :: b in bands ==> b.direction == OverallDirection(bands) || b.direction == Neutral
    ensures SomeBand(bands, OverallDirection(bands))
  {
    forall b | b in bands ensures b.direction == OverallDirection(bands) || b.direction == Neutral {
      assert SomeBand(bands, b.direction);
    }
  }

  /** Whether a sum divided by a positive total rounds to the wrong side. */
  lemma QuotientSide(x: real, t: real)
    requires t > 0.0
    ensures Round3(x / t) >= 0.0 <==> x + 0.0005 * t >= 0.0
    ensures Round3(x / t) <= 0.0 <==> x - 0.0005 * t <= 0.0
  {
    hide Round3;
    RoundedSign(x / t);
    QuotientAbove(x, t, 0.0005);
    QuotientAbove(-x, t, 0.0005);
    assert (-x) / t == -(x / t);
  }

  /**
   * The sign agrees exactly when the directional bands, weighted by authority, outweigh what the neutral bands score
   * against them, up to the half thousandth that rounding forgives.
   */
  lemma SignAgreesIff(p: Policy, ss: seq<Signal>)
    requires p.Valid() && Accepted(ss)
    ensures var a, bands := Evaluate(p, ss), Bands(p, ss);
      && (a.direction == Bullish ==>
            (SignAgrees(a) <==> Push(p, bands, Bullish) + 0.0005 * TotalAuthority(p, bands) >= -Push(p, bands, Neutral)))
      && (a.direction == Bearish ==>
            (SignAgrees(a) <==> -Push(p, bands, Bearish) + 0.0005 * TotalAuthority(p, bands) >= Push(p, bands, Neutral)))
      && (!Directional(a.direction) ==> SignAgrees(a))
  {
    assert ss != [];
    hide *;
    EvaluateParts(p, ss);
    var bands := Bands(p, ss);
    SignParts(p, bands);
    SignOf(Evaluate(p, ss));
  }

  lemma SignOf(a: Assessment)
    ensures a.direction == Bullish ==> (SignAgrees(a) <==> a.score >= 0.0)
    ensures a.direction == Bearish ==> (SignAgrees(a) <==> a.score <= 0.0)
    ensures !Directional(a.direction) ==> SignAgrees(a)
    ensures Directional(a.direction) <==> a.direction == Bullish || a.direction == Bearish
  {
  }

  lemma SignParts(p: Policy, bands: seq<BandDecision>)
    requires p.Valid() && bands != []
    ensures var score := Round3(Normalized(p, bands, AnyBand, BandScoreOf));
      && (OverallDirection(bands) == Bullish ==>
            (score >= 0.0 <==> Push(p, bands, Bullish) + 0.0005 * TotalAuthority(p, bands) >= -Push(p, bands, Neutral)))
      && (OverallDirection(bands) == Bearish ==>
            (score <= 0.0 <==> -Push(p, bands, Bearish) + 0.0005 * TotalAuthority(p, bands) >= Push(p, bands, Neutral)))
  {
    hide OverallDirection, AuthoritySum, TotalAuthority, Round3, SomeBand, Policy.Valid;
    AuthorityPositive(p, bands);
    QuotientSide(AuthoritySum(p, bands, AnyBand, BandScoreOf), TotalAuthority(p, bands));
    if Directional(OverallDirection(bands)) {
      BandsFollow(bands);
      PushesAddUp(p, bands, OverallDirection(bands));
    }
  }

  // ----- Every decision of a policy -----

  /** One band alone, at the least score its direction allows, against all other bands in full. */
  function LeastPush(p: Policy, b: Band): real {
    p.Authority(b) * (ScoreFloor(p) + 0.0005)
  }

  ghost predicate SignSafe(p: Policy) {
    forall b :: Inhabited(p, b) ==> LeastPush(p, b) >= 99.9995 * (InhabitedAuthority(p) - p.Authority(b))
  }

  /** The other bands hold back at most their whole authority times a hundred. */
  lemma {:induction false} ScoresAtLeast(p: Policy, bands: seq<BandDecision>, i: nat)
    requires p.Valid() && i < |bands| && forall b :: b in bands ==> Score(b.score)
    ensures var sum, own := AuthoritySum(p, bands, AnyBand, BandScoreOf), Contribution(p, bands[i], AnyBand, BandScoreOf);
      var rest := 100.0 * (TotalAuthority(p, bands) - p.Authority(bands[i].band));
      own - rest <= sum <= own + rest
  {
    hide Policy.Authority, Policy.Valid, Contribution;
    var k := |bands| - 1;
    assert bands[k] in bands;
    if i < k {
      ScoresAtLeast(p, bands[..k], i);
      ContributionBounds(p, bands[k], AnyBand, BandScoreOf, -100.0, 100.0);
    } else {
      AuthorityBounds(p, bands[..k], AnyBand, BandScoreOf, -100.0, 100.0);
    }
  }

  lemma PushSuffices(a: real, floor: real, score: real, total: real, inhabited: real, sum: real)
    requires a > 0.0 && floor <= score && total <= inhabited
    requires a * (floor + 0.0005) >= 99.9995 * (inhabited - a)
    requires sum >= a * score - 100.0 * (total - a)
    ensures sum + 0.0005 * total >= 0.0
  {
    ScaleBounds(floor, score, score, a);
    assert a * (floor + 0.0005) == a * floor + 0.0005 * a;
  }

  lemma SafeBands(p: Policy, ss: seq<Signal>)
    requires p.Valid() && Accepted(ss) && SignSafe(p)
    ensures SignAgrees(Evaluate(p, ss))
  {
    assert ss != [] && Ordered(ss);
    hide *;
    EvaluateParts(p, ss);
    SignOf(Evaluate(p, ss));
    var bands := Bands(p, ss);
    if Directional(OverallDirection(bands)) {
      BandsFollow(bands);
      var i := BandToward(bands, OverallDirection(bands));
      SafeSum(p, ss, i);
      AuthorityPositive(p, bands);
      QuotientSide(AuthoritySum(p, bands, AnyBand, BandScoreOf), TotalAuthority(p, bands));
      NormalizedIs(p, bands);
    }
  }

  lemma NormalizedIs(p: Policy, bands: seq<BandDecision>)
    requires p.Valid() && bands != [] && TotalAuthority(p, bands) > 0.0
    ensures Normalized(p, bands, AnyBand, BandScoreOf) == AuthoritySum(p, bands, AnyBand, BandScoreOf) / TotalAuthority(p, bands)
  {
  }

  lemma BandToward(bands: seq<BandDecision>, d: Direction) returns (i: nat)
    requires SomeBand(bands, d)
    ensures i < |bands| && bands[i].direction == d
  {
    i :| 0 <= i < |bands| && bands[i].direction == d;
  }

  lemma SafeSum(p: Policy, ss: seq<Signal>, i: nat)
    requires p.Valid() && Ordered(ss) && SignSafe(p) && i < |Bands(p, ss)| && Directional(Bands(p, ss)[i].direction)
    ensures var bands := Bands(p, ss);
      var sum, t := AuthoritySum(p, bands, AnyBand, BandScoreOf), TotalAuthority(p, bands);
      && (bands[i].direction == Bullish ==> sum + 0.0005 * t >= 0.0)
      && (bands[i].direction == Bearish ==> sum - 0.0005 * t <= 0.0)
  {
    hide Bands, AuthoritySum, TotalAuthority, PresentAuthority, ScoreFloor, Ordered, InhabitedAuthority, Inhabited, Members, EvaluateBand, Policy.Valid, Round3;
    var bands := Bands(p, ss);
    var d := bands[i];
    assert d in bands;
    BandsAre(p, ss);
    BandDecisionSign(p, ss, d);
    TotalIsPresent(p, ss);
    AuthorityAbove(p, d.band);
    forall b | b in bands ensures Score(b.score) { BandScoreIn(p, ss, b); }
    ScoresAtLeast(p, bands, i);
    var a, t, all, floor := p.Authority(d.band), TotalAuthority(p, bands), InhabitedAuthority(p), ScoreFloor(p);
    assert Inhabited(p, d.band);
    var sum := AuthoritySum(p, bands, AnyBand, BandScoreOf);
    if d.direction == Bullish {
      PushSuffices(a, floor, d.score, t, all, sum);
    } else {
      assert a * (-d.score) == -(a * d.score);
      PushSuffices(a, floor, -d.score, t, all, -sum);
    }
  }

  lemma BandScoreIn(p: Policy, ss: seq<Signal>, b: BandDecision)
    requires Ordered(ss) && BandOf(p, ss, b)
    ensures Score(b.score)
  {
    hide Members, BandScore, BandDirection, Round3, MaxOf, BandAlignment, BandConflictScore, BandConfidence, StrengthFor, Filter, Map;
    MembersFit(p, ss, b.band);
    BandScoreBounded(p, Members(p, ss, b.band));
  }

  // ----- The witness -----

  function FloorScore(p: Policy): real {
    if p.minScore > 0.0 then p.minScore else 0.0001
  }

  /** Band `x` barely bullish, every other one neutral with the lowest score. */
  function SignSignal(p: Policy, x: Band, b: Band): Signal
    requires p.Valid()
  {
    if b == x then Signal(WitnessHorizon(p, b), Bullish, FloorScore(p), 100.0, 100.0, 0.0, 0.0)
    else Signal(WitnessHorizon(p, b), Neutral, -100.0, 0.0, 0.0, 0.0, 0.0)
  }

  function SignPick(p: Policy, x: Band): Band -> Signal
    requires p.Valid()
  {
    b => SignSignal(p, x, b)
  }

  lemma SignSignalFits(p: Policy, x: Band, b: Band)
    requires p.Valid() && Inhabited(p, b)
    ensures var s := SignSignal(p, x, b);
      && s.Valid() && BandFor(p, s.horizon) == b && !MaterialConflict(p)(s)
      && (if b == x then s.direction == Bullish && QualifiedToward(p, Bullish)(s) else s.direction == Neutral && !Qualified(p)(s))
  {
    assert b == x ==> Qualified(p)(SignSignal(p, x, b));
  }

  lemma SignPicks(p: Policy, x: Band)
    requires p.Valid()
    ensures Picks(p, SignPick(p, x))
  {
    hide SignSignal, Inhabited, BandFor, Signal.Valid;
    forall b | Inhabited(p, b) ensures SignPick(p, x)(b).Valid() && BandFor(p, SignPick(p, x)(b).horizon) == b { SignSignalFits(p, x, b); }
  }

  lemma FloorScoreRounds(p: Policy)
    requires p.Valid()
    ensures Round3(FloorScore(p)) == ScoreFloor(p)
  {
    hide Nearest;
    if p.minScore <= 0.0 {
      TinyRounds();
      assert p.minScore == 0.0;
      RoundFixes(0);
    }
  }

  lemma TinyRounds()
    ensures Round3(0.0001) == 0.0
  {
    var y := 0.0001 * 1000.0;
    assert y == 0.1 && y.Floor == 0;
    assert Nearest(y) == 0;
  }

  lemma NeutralBand(p: Policy, b: Band, s: Signal)
    requires s.direction == Neutral && !Qualified(p)(s) && !MaterialConflict(p)(s)
    ensures var d := EvaluateBand(p, b, [s]); d.band == b && d.direction == Neutral && d.score == Round3(s.score)
  {
    hide RawBandScore, Round3, StrengthFor, BandConfidence, MaxOf, RiskLevelOf, Filter, BandConflictScore, Map;
    LoneScore(p, s);
    assert forall t :: t in [s] ==> t == s;
  }

  lemma SignBand(p: Policy, x: Band, b: Band)
    requires p.Valid()
    ensures var list := BandList(p, OneEach(p, SignPick(p, x)), b);
      && |list| <= 1 && (list == [] <==> !Inhabited(p, b))
      && (list != [] ==>
            && list[0].band == b && list[0].direction == (if b == x then Bullish else Neutral)
            && list[0].score == if b == x then ScoreFloor(p) else -100.0)
  {
    hide BandList, OneEach, Inhabited, BandFor, Round3, Qualified, QualifiedToward, MaterialConflict, Signal.Valid, EvaluateBand, FloorScore, Picks, ScoreFloor;
    SignPicks(p, x);
    OneEachBand(p, SignPick(p, x), b);
    if Inhabited(p, b) {
      SignSignalFits(p, x, b);
      if b == x {
        FloorScoreRounds(p);
        LoneBand(p, b, SignSignal(p, x, b));
      } else {
        NeutralBand(p, b, SignSignal(p, x, b));
        HundredRounds();
      }
    }
  }

  function FloorPush(p: Policy, b: Band): real {
    p.Authority(b) * ScoreFloor(p)
  }

  function SignTerm(p: Policy, x: Band, b: Band): real {
    if !Inhabited(p, b) then 0.0 else if b == x then FloorPush(p, b) else -100.0 * p.Authority(b)
  }

  lemma SignContribution(p: Policy, x: Band, b: Band)
    requires p.Valid()
    ensures ListTerm(p, BandList(p, OneEach(p, SignPick(p, x)), b), AnyBand, BandScoreOf) == SignTerm(p, x, b)
  {
    hide BandList, OneEach, Inhabited, ScoreFloor, SignPick, Policy.Valid;
    SignBand(p, x, b);
  }

  lemma SignSum(p: Policy, x: Band)
    requires p.Valid() && Inhabited(p, x)
    ensures var bands := Bands(p, OneEach(p, SignPick(p, x)));
      && AuthoritySum(p, bands, AnyBand, BandScoreOf) == FloorPush(p, x) - 100.0 * (InhabitedAuthority(p) - p.Authority(x))
      && TotalAuthority(p, bands) == InhabitedAuthority(p)
  {
    hide BandList, OneEach, Inhabited, FloorPush, SignPick, Policy.Valid, ListTerm, Bands, Picks, AuthoritySum, TotalAuthority;
    var ss := OneEach(p, SignPick(p, x));
    BandSum(p, ss, AnyBand, BandScoreOf);
    SignContribution(p, x, Short);
    SignContribution(p, x, Medium);
    SignContribution(p, x, Long);
    SignPicks(p, x);
    OneEachTotal(p, SignPick(p, x));
    AnyOfThree(x);
  }

  lemma SignDirection(p: Policy, x: Band)
    requires p.Valid() && Inhabited(p, x)
    ensures OverallDirection(Bands(p, OneEach(p, SignPick(p, x)))) == Bullish
  {
    hide BandList, OneEach, Inhabited, ScoreFloor, SignPick, Policy.Valid;
    var ss := OneEach(p, SignPick(p, x));
    SignBand(p, x, Short);
    SignBand(p, x, Medium);
    SignBand(p, x, Long);
    AnyOfThree(x);
    var list := BandList(p, ss, x);
    assert list[0] in Bands(p, ss) && list[0].direction == Bullish;
    assert forall d :: d in Bands(p, ss) ==> d.direction == Bullish || d.direction == Neutral;
  }

  lemma SignAccepted(p: Policy, x: Band)
    requires p.Valid() && Inhabited(p, x) && InhabitedAuthority(p) > p.Authority(x)
    ensures OneEach(p, SignPick(p, x)) != [] && Accepted(OneEach(p, SignPick(p, x)))
  {
    hide OneEach, Inhabited, Ordered, Policy.Valid, Picks, InhabitedAuthority;
    SignPicks(p, x);
    OneEachOrdered(p, SignPick(p, x));
    var b := OtherInhabited(p, x);
    var s, t := SignPick(p, x)(x), SignPick(p, x)(b);
    assert s in OneEach(p, SignPick(p, x)) && t in OneEach(p, SignPick(p, x)) && s != t;
  }

  lemma PushParts(p: Policy, x: Band)
    requires p.Valid()
    ensures LeastPush(p, x) == FloorPush(p, x) + 0.0005 * p.Authority(x) && FloorPush(p, x) >= 0.0 && p.Authority(x) > 0.0
  {
    hide ScoreFloor;
    AuthorityAbove(p, x);
    ScoreFloorNonNegative(p);
    ProductSign(p.Authority(x), ScoreFloor(p));
    Distribute(p.Authority(x), ScoreFloor(p), 0.0005);
  }

  lemma UnsafeBand(p: Policy, x: Band)
    requires p.Valid() && Inhabited(p, x) && LeastPush(p, x) < 99.9995 * (InhabitedAuthority(p) - p.Authority(x))
    ensures Accepted(OneEach(p, SignPick(p, x))) && !SignAgrees(Evaluate(p, OneEach(p, SignPick(p, x))))
  {
    hide *;
    PushParts(p, x);
    var ss := OneEach(p, SignPick(p, x));
    SignAccepted(p, x);
    SignSum(p, x);
    SignDirection(p, x);
    EvaluateParts(p, ss);
    var bands := Bands(p, ss);
    AuthorityPositive(p, bands);
    NormalizedIs(p, bands);
    QuotientSide(AuthoritySum(p, bands, AnyBand, BandScoreOf), TotalAuthority(p, bands));
    SignOf(Evaluate(p, ss));
  }

  /**
   * A policy's scores never point against its directions, for all signals it accepts, exactly when each band that can have
   * signals, at the least score a direction needs, holds against all other such bands scoring a full hundred the other
   * way: neutral bands are not held to any threshold.
   */
  lemma SignSafeIff(p: Policy)
    requires p.Valid()
    ensures SignSafe(p) <==> forall ss :: Accepted(ss) ==> ss != [] && SignAgrees(Evaluate(p, ss))
  {
    hide Evaluate, SignAgrees, Accepted, OneEach, Policy.Valid, InhabitedAuthority, LeastPush, Inhabited, SignPick;
    if SignSafe(p) {
      forall ss | Accepted(ss) ensures ss != [] && SignAgrees(Evaluate(p, ss)) {
        AcceptedNotEmpty(ss);
        SafeBands(p, ss);
      }
    } else {
      var x :| Inhabited(p, x) && !(LeastPush(p, x) >= 99.9995 * (InhabitedAuthority(p) - p.Authority(x)));
      UnsafeBand(p, x);
    }
  }

  lemma AcceptedNotEmpty(ss: seq<Signal>)
    requires Accepted(ss)
    ensures ss != []
  {
  }

  /** No policy all of whose bands can have signals is safe, whatever its thresholds and authorities. */
  lemma ThreeBandsAreUnsafe(p: Policy)
    requires p.Valid() && Inhabited(p, Short) && Inhabited(p, Medium)
    ensures !SignSafe(p)
  {
    assert Inhabited(p, Long);
    hide ScoreFloor, Inhabited;
    ScoreFloorNonNegative(p);
    EachAgainstTwo(ScoreFloor(p) + 0.0005, p.short, p.medium, p.long);
  }

  lemma EachAgainstTwo(f: real, a: real, b: real, c: real)
    requires a > 0.0 && b > 0.0 && c > 0.0 && f <= 100.0005
    ensures f * a < 99.9995 * (b + c) || f * b < 99.9995 * (a + c) || f * c < 99.9995 * (a + b)
  {
    Distribute(f, a, b);
    Distribute(f, a + b, c);
    ScaleBounds(f, f, 100.0005, a + b + c);
    TwiceIsTooMuch(a, b, c, f * a, f * b, f * c);
  }

  lemma TwiceIsTooMuch(a: real, b: real, c: real, x: real, y: real, z: real)
    requires a > 0.0 && b > 0.0 && c > 0.0 && x + y + z <= 100.0005 * (a + b + c)
    ensures x < 99.9995 * (b + c) || y < 99.9995 * (a + c) || z < 99.9995 * (a + b)
  {
  }
}
