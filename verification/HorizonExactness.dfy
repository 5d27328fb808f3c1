/** The policies whose decisions always show their conflicts are exactly the conflict-visible ones. */
module HorizonExactness {
  import opened Collections
  import opened Reals
  import opened Rounding
  import opened HorizonModel
  import opened HorizonPolicy
  import opened HorizonWeights
  import opened HorizonBands
  import opened HorizonDecisions
  import opened HorizonConflicts
  import opened HorizonAdmission
  import opened HorizonWitnesses

  // ----- Sums in which all but one member counts -----

  lemma {:induction false} AllButFirst(ss: seq<Signal>, n: nat, keep: Signal -> bool)
    requires 0 < |ss| <= n && !keep(ss[0]) && forall i :: 0 < i < |ss| ==> keep(ss[i])
    ensures WeightedSum(ss, n, keep, One) + MemberWeight(0, n) == SumMemberWeights(|ss|, n)
  {
    hide MemberWeight;
    var k := |ss| - 1;
    if k == 0 {
      NoneCounts(ss[..0], n, keep, One);
      assert SumMemberWeights(0, n) == 0.0;
    } else {
      AllButFirst(ss[..k], n, keep);
    }
  }

  // ----- Long-band witnesses -----

  function LongHorizon(p: Policy, k: nat): Horizon
    requires p.Valid()
  {
    Horizon(p.longMinMs + k, Second)
  }

  lemma LongOnly(p: Policy, ss: seq<Signal>)
    requires p.Valid() && ss != [] && forall s :: s in ss ==> BandFor(p, s.horizon) == Long
    ensures Bands(p, ss) == [EvaluateBand(p, Long, ss)]
  {
    hide EvaluateBand;
    FilterAll((s: Signal) => BandFor(p, s.horizon) == Long, ss);
    FilterNone((s: Signal) => BandFor(p, s.horizon) == Short, ss);
    FilterNone((s: Signal) => BandFor(p, s.horizon) == Medium, ss);
  }

  /** A long-only band whose conflict rounds away makes the whole decision fail its conflict checks. */
  lemma HiddenBandConflict(p: Policy, ss: seq<Signal>)
    requires p.Valid() && ss != [] && forall s :: s in ss ==> BandFor(p, s.horizon) == Long
    requires BandDirection(p, ss) == Conflict && BandConflictScore(p, ss) <= 0.0
    ensures !ConflictsShown(Evaluate(p, ss))
  {
    LongOnly(p, ss);
    EvaluateParts(p, ss);
    BandConflictShownIff(p, Long, ss);
    hide EvaluateBand, Evaluate, BandDirection, BandConflictScore, Bands, ConflictShown;
    assert EvaluateBand(p, Long, ss) in Bands(p, ss);
  }

  lemma ScoreHidden(x: real)
    requires x <= 0.0005
    ensures Round3(Clamp(x)) <= 0.0
  {
    hide Round3;
    RoundPositiveIff(Clamp(x));
  }

  // ----- A faint explicit conflict -----

  function FaintSignals(p: Policy): seq<Signal>
    requires p.Valid()
  {
    [Signal(LongHorizon(p, 0), Neutral, 0.0, 0.0, 0.0, 0.0, 0.0),
     Signal(LongHorizon(p, 1), Conflict, 0.0, p.minStrength, p.minConfidence, 0.0, 0.0)]
  }

  lemma FaintConflict(p: Policy)
    requires p.Valid() && PercentOf(p.minStrength, p.minConfidence) <= 0.0005
    ensures Accepted(FaintSignals(p)) && !ConflictsShown(Evaluate(p, FaintSignals(p)))
  {
    FaintScore(p);
    FaintMembers(p);
    hide *;
    HiddenBandConflict(p, FaintSignals(p));
  }

  lemma FaintMembers(p: Policy)
    requires p.Valid()
    ensures FaintSignals(p) != [] && Accepted(FaintSignals(p))
    ensures forall s :: s in FaintSignals(p) ==> BandFor(p, s.horizon) == Long
  {
  }

  lemma FaintScore(p: Policy)
    requires p.Valid() && PercentOf(p.minStrength, p.minConfidence) <= 0.0005
    ensures BandDirection(p, FaintSignals(p)) == Conflict && BandConflictScore(p, FaintSignals(p)) <= 0.0
  {
    hide Round3, PercentOf, Clamp;
    var ss := FaintSignals(p);
    NoneCounts(ss, 2, QualifiedToward(p, Bullish), AbsScoreOf);
    NoneCounts(ss, 2, QualifiedToward(p, Bearish), AbsScoreOf);
    var first := ss[..1];
    assert first[..0] == [] && ss[..1] == first;
    assert !MaterialConflict(p)(ss[0]);
    assert ExplicitConflict(p, first) == 0.0;
    assert MaterialConflict(p)(ss[1]);
    ScoreHidden(Max(Opposition(Support(p, ss, Bullish), Support(p, ss, Bearish)), ExplicitConflict(p, ss)));
  }

  // ----- A faint opposition inside one band -----

  function FaintScoreOf(p: Policy): real {
    if p.minScore > 0.0 then p.minScore else 0.05
  }

  function Opposer(p: Policy, k: nat): Signal
    requires p.Valid()
  {
    Signal(LongHorizon(p, k), Bearish, -100.0, 100.0, 100.0, 0.0, 0.0)
  }

  function FaintOpposition(p: Policy): seq<Signal>
    requires p.Valid()
  {
    [Signal(LongHorizon(p, 0), Bullish, FaintScoreOf(p), 100.0, 100.0, 0.0, 0.0), Opposer(p, 1), Opposer(p, 2), Opposer(p, 3), Opposer(p, 4),
     Opposer(p, 5), Opposer(p, 6), Opposer(p, 7)]
  }

  lemma OpposerFits(p: Policy, k: nat)
    requires p.Valid()
    ensures var s := Opposer(p, k);
      && s.Valid() && BandFor(p, s.horizon) == Long && s.horizon.DurationMs() == 1000 * (p.longMinMs + k)
      && QualifiedToward(p, Bearish)(s) && !QualifiedToward(p, Bullish)(s) && !MaterialConflict(p)(s)
  {
    assert Qualified(p)(Opposer(p, k));
  }

  lemma FaintBullFits(p: Policy)
    requires p.Valid() && 199.9995 * p.minScore <= 12.7
    ensures var s := FaintOpposition(p)[0];
      && s.Valid() && BandFor(p, s.horizon) == Long && s.horizon.DurationMs() == 1000 * p.longMinMs
      && QualifiedToward(p, Bullish)(s) && !QualifiedToward(p, Bearish)(s) && !MaterialConflict(p)(s)
      && s.score == Abs(s.score) == FaintScoreOf(p) && 199.9995 * FaintScoreOf(p) <= 12.7
  {
    assert Qualified(p)(FaintOpposition(p)[0]);
  }

  lemma FaintOppositionMembers(p: Policy)
    requires p.Valid() && 199.9995 * p.minScore <= 12.7
    ensures var ss := FaintOpposition(p);
      && Accepted(ss)
      && (forall s :: s in ss ==> BandFor(p, s.horizon) == Long)
      && QualifiedToward(p, Bullish)(ss[0]) && !QualifiedToward(p, Bearish)(ss[0])
      && (forall i :: 0 < i < |ss| ==> QualifiedToward(p, Bearish)(ss[i]) && !QualifiedToward(p, Bullish)(ss[i]))
      && (forall s :: s in ss ==> !MaterialConflict(p)(s))
  {
    var ss := FaintOpposition(p);
    FaintBullFits(p);
    forall k: nat ensures Opposer(p, k).Valid() && BandFor(p, Opposer(p, k).horizon) == Long &&
      Opposer(p, k).horizon.DurationMs() == 1000 * (p.longMinMs + k) && QualifiedToward(p, Bearish)(Opposer(p, k)) &&
      !QualifiedToward(p, Bullish)(Opposer(p, k)) && !MaterialConflict(p)(Opposer(p, k))
    {
      OpposerFits(p, k);
    }
    hide Signal.Valid, BandFor, Horizon.DurationMs, QualifiedToward, MaterialConflict, Opposer, Policy.Valid;
    assert forall i :: 0 < i < 8 ==> ss[i] == Opposer(p, i);
  }

  lemma FaintSupports(p: Policy)
    requires p.Valid() && 199.9995 * p.minScore <= 12.7
    ensures var ss := FaintOpposition(p);
      199.9995 * Support(p, ss, Bullish) <= 0.0005 * Support(p, ss, Bearish) && Support(p, ss, Bullish) > 0.0
  {
    hide *;
    var ss := FaintOpposition(p);
    FaintOppositionMembers(p);
    FaintShape(p);
    FirstOfEight();
    FaintSide(p, ss);
    FullSide(p, ss);
  }

  lemma FaintShape(p: Policy)
    requires p.Valid() && 199.9995 * p.minScore <= 12.7
    ensures var ss := FaintOpposition(p);
      && |ss| == 8 && AbsScoreOf(ss[0]) == FaintScoreOf(p) && FaintScoreOf(p) > 0.0 && 199.9995 * FaintScoreOf(p) <= 12.7
      && forall i :: 0 < i < 8 ==> AbsScoreOf(ss[i]) == 100.0
  {
  }

  lemma FaintSide(p: Policy, ss: seq<Signal>)
    requires |ss| == 8 && QualifiedToward(p, Bullish)(ss[0]) && forall i :: 0 < i < 8 ==> !QualifiedToward(p, Bullish)(ss[i])
    requires MemberWeight(0, 8) == 1.0 / 255.0
    ensures Support(p, ss, Bullish) == AbsScoreOf(ss[0]) / 255.0
  {
    hide QualifiedToward, MemberWeight, WeightedSum;
    OneCounts(ss, 8, QualifiedToward(p, Bullish), AbsScoreOf);
    assert AbsScoreOf(ss[0]) * (1.0 / 255.0) == AbsScoreOf(ss[0]) / 255.0;
  }

  lemma FullSide(p: Policy, ss: seq<Signal>)
    requires |ss| == 8 && !QualifiedToward(p, Bearish)(ss[0]) && forall i :: 0 < i < 8 ==> QualifiedToward(p, Bearish)(ss[i])
    requires forall i :: 0 < i < 8 ==> AbsScoreOf(ss[i]) == 100.0
    requires MemberWeight(0, 8) == 1.0 / 255.0
    ensures Support(p, ss, Bearish) == 100.0 * (254.0 / 255.0)
  {
    hide QualifiedToward, MemberWeight, WeightedSum, AbsScoreOf;
    AllButFirst(ss, 8, QualifiedToward(p, Bearish));
    AnchorOutweighsRest(8);
    forall s | s in ss && QualifiedToward(p, Bearish)(s) ensures AbsScoreOf(s) == 100.0 {
      var i :| 0 <= i < 8 && ss[i] == s;
    }
    WeightedBounds(ss, 8, QualifiedToward(p, Bearish), AbsScoreOf, 100.0, 100.0);
  }

  lemma FirstOfEight()
    ensures MemberWeight(0, 8) == 1.0 / 255.0
  {
    RawTotalClosed(8);
    assert Pow2(8) == 2 * Pow2(7) == 4 * Pow2(6) == 8 * Pow2(5) == 16 * Pow2(4) == 32 * Pow2(3) == 64 * Pow2(2) == 256;
  }

  lemma {:induction false} NoExplicitConflict(p: Policy, ss: seq<Signal>)
    requires forall s :: s in ss ==> !MaterialConflict(p)(s)
    ensures ExplicitConflict(p, ss) == 0.0
  {
    if ss != [] {
      assert ss[|ss| - 1] in ss;
      NoExplicitConflict(p, ss[..|ss| - 1]);
    }
  }

  lemma FaintOppositionConflict(p: Policy)
    requires p.Valid() && 199.9995 * p.minScore <= 12.7
    ensures Accepted(FaintOpposition(p)) && !ConflictsShown(Evaluate(p, FaintOpposition(p)))
  {
    FaintOppositionMembers(p);
    FaintSupports(p);
    var ss := FaintOpposition(p);
    hide Accepted, BandFor, QualifiedToward, MaterialConflict, Policy.Valid, Support, Round3, ConflictsShown, Evaluate, FaintOpposition, Opposition;
    NoExplicitConflict(p, ss);
    assert ss[0] in ss && ss[1] in ss;
    var a, b := Support(p, ss, Bullish), Support(p, ss, Bearish);
    OppositionVisibleIff(a, b);
    ScoreHidden(Max(Opposition(a, b), ExplicitConflict(p, ss)));
    HiddenBandConflict(p, ss);
  }

  // ----- A faint opposition between bands -----

  function FaintPull(p: Policy): real {
    if p.minScore >= 1.0 then p.minScore else 1.0
  }

  /** One signal per inhabited band: `x` barely bullish, all others as bearish as can be. */
  function CrossSignal(p: Policy, x: Band, b: Band): Signal
    requires p.Valid()
  {
    if b == x then Signal(WitnessHorizon(p, b), Bullish, FaintPull(p), 100.0, 100.0, 0.0, 0.0)
    else Signal(WitnessHorizon(p, b), Bearish, -100.0, 100.0, 100.0, 0.0, 0.0)
  }

  function CrossPick(p: Policy, x: Band): Band -> Signal
    requires p.Valid()
  {
    b => CrossSignal(p, x, b)
  }

  function CrossSignals(p: Policy, x: Band): seq<Signal>
    requires p.Valid()
  {
    OneEach(p, CrossPick(p, x))
  }

  lemma CrossSignalFits(p: Policy, x: Band, b: Band)
    requires p.Valid() && Inhabited(p, b)
    ensures var s := CrossSignal(p, x, b);
      && s.Valid() && BandFor(p, s.horizon) == b
      && QualifiedToward(p, s.direction)(s) && !QualifiedToward(p, if b == x then Bearish else Bullish)(s) && !MaterialConflict(p)(s)
      && s.direction == if b == x then Bullish else Bearish
  {
    assert Qualified(p)(CrossSignal(p, x, b));
  }

  lemma CrossOrdered(p: Policy, x: Band)
    requires p.Valid()
    ensures Picks(p, CrossPick(p, x))
    ensures Ordered(CrossSignals(p, x)) && |CrossSignals(p, x)| <= 3
    ensures forall b :: Inhabited(p, b) ==> CrossSignal(p, x, b) in CrossSignals(p, x)
  {
    hide CrossSignal, Inhabited, BandFor, Signal.Valid, OneEach, Ordered;
    forall b | Inhabited(p, b) ensures CrossPick(p, x)(b).Valid() && BandFor(p, CrossPick(p, x)(b).horizon) == b { CrossSignalFits(p, x, b); }
    OneEachOrdered(p, CrossPick(p, x));
    forall b | Inhabited(p, b) ensures CrossSignal(p, x, b) in CrossSignals(p, x) { assert CrossPick(p, x)(b) in CrossSignals(p, x); }
  }

  // ----- The sums of the witness -----

  function CrossTerm(p: Policy, x: Band, b: Band, d: Direction): real
    requires p.Valid()
  {
    if !Inhabited(p, b) then 0.0
    else if b == x then (if d == Bullish then PulledAuthority(p, b) else 0.0)
    else (if d == Bearish then 100.0 * p.Authority(b) else 0.0)
  }

  lemma CrossBandList(p: Policy, x: Band, b: Band)
    requires p.Valid()
    ensures var list := BandList(p, CrossSignals(p, x), b);
      && |list| <= 1 && (list == [] <==> !Inhabited(p, b))
      && (list != [] ==>
            && list[0].band == b && list[0].direction == (if b == x then Bullish else Bearish) && list[0].conflictScore == 0.0
            && list[0].score == if b == x then Round3(FaintPull(p)) else -100.0)
  {
    hide BandList, OneEach, Inhabited, BandFor, Round3, QualifiedToward, MaterialConflict, Signal.Valid, EvaluateBand, FaintPull, Picks;
    CrossOrdered(p, x);
    OneEachBand(p, CrossPick(p, x), b);
    if Inhabited(p, b) {
      CrossSignalFits(p, x, b);
      LoneBand(p, b, CrossSignal(p, x, b));
      HundredRounds();
    }
  }

  lemma FaintPullIsLeast(p: Policy)
    requires p.Valid()
    ensures Max(Abs(Round3(FaintPull(p))), 1.0) == LeastPull(p)
  {
    hide Nearest;
    RoundFixes(1000);
    assert 1000 as real / 1000.0 == 1.0;
    if p.minScore >= 1.0 { RoundMonotone(1.0, p.minScore); } else { RoundMonotone(p.minScore, 1.0); }
  }

  lemma CrossContribution(p: Policy, x: Band, b: Band, d: Direction, list: seq<BandDecision>)
    requires p.Valid() && (d == Bullish || d == Bearish) && list == BandList(p, CrossSignals(p, x), b)
    ensures |list| <= 1 && (if list == [] then 0.0 else Contribution(p, list[0], Toward(d), BandPull)) == CrossTerm(p, x, b, d)
  {
    hide BandList, CrossSignals, Inhabited, Round3, FaintPull, LeastPull, Policy.Valid;
    CrossBandList(p, x, b);
    FaintPullIsLeast(p);
  }

  lemma CrossSum(p: Policy, x: Band, d: Direction)
    requires p.Valid() && (d == Bullish || d == Bearish)
    ensures AuthoritySum(p, Bands(p, CrossSignals(p, x)), Toward(d), BandPull) ==
      CrossTerm(p, x, Short, d) + CrossTerm(p, x, Medium, d) + CrossTerm(p, x, Long, d)
  {
    hide BandList, CrossSignals, CrossTerm, Contribution, Policy.Valid, Bands;
    CrossContribution(p, x, Short, d, BandList(p, CrossSignals(p, x), Short));
    CrossContribution(p, x, Medium, d, BandList(p, CrossSignals(p, x), Medium));
    CrossContribution(p, x, Long, d, BandList(p, CrossSignals(p, x), Long));
    BandSum(p, CrossSignals(p, x), Toward(d), BandPull);
  }

  /** In the witness the faint side carries the pull of `x` alone and the other side everything else in full. */
  lemma CrossSums(p: Policy, x: Band)
    requires p.Valid() && Inhabited(p, x)
    ensures var bands := Bands(p, CrossSignals(p, x));
      && AuthoritySum(p, bands, Toward(Bullish), BandPull) == PulledAuthority(p, x)
      && AuthoritySum(p, bands, Toward(Bearish), BandPull) == 100.0 * (InhabitedAuthority(p) - p.Authority(x))
  {
    hide Bands, CrossSignals, Inhabited, PulledAuthority, Policy.Valid;
    CrossSum(p, x, Bullish);
    CrossSum(p, x, Bearish);
    AnyOfThree(x);
  }

  lemma CrossBandIn(p: Policy, x: Band, b: Band)
    requires p.Valid() && Inhabited(p, b)
    ensures SomeBand(Bands(p, CrossSignals(p, x)), if b == x then Bullish else Bearish)
    ensures CrossSignal(p, x, b) in CrossSignals(p, x)
  {
    hide BandList, CrossSignals, Inhabited, Round3;
    CrossBandList(p, x, b);
    CrossOrdered(p, x);
    var list := BandList(p, CrossSignals(p, x), b);
    assert list[0] in list;
    AnyOfThree(b);
    assert list[0] in Bands(p, CrossSignals(p, x));
  }

  lemma CrossNoBandConflict(p: Policy, x: Band)
    requires p.Valid()
    ensures forall d :: d in Bands(p, CrossSignals(p, x)) ==> d.conflictScore == 0.0
  {
    hide BandList, CrossSignals, Inhabited, Round3;
    CrossBandList(p, x, Short);
    CrossBandList(p, x, Medium);
    CrossBandList(p, x, Long);
  }

  lemma QuotientHidden(a: real, b: real, t: real)
    requires t > 0.0 && a > 0.0 && b > 0.0 && 199.9995 * a <= 0.0005 * b
    ensures a / t > 0.0 && b / t > 0.0 && Opposition(a / t, b / t) <= 0.0005
  {
    QuotientSign(a, t);
    QuotientSign(b, t);
    OppositionVisibleIff(a / t, b / t);
    var x, y := a / t, b / t;
    assert x * t == a && y * t == b;
    if 199.9995 * x > 0.0005 * y { ProductScale(x, y, t, a, b); }
  }

  lemma ProductScale(x: real, y: real, t: real, a: real, b: real)
    requires t > 0.0 && 199.9995 * x > 0.0005 * y && x * t == a && y * t == b
    ensures 199.9995 * a > 0.0005 * b
  {
    Scale(t, 0.0005 * y, 199.9995 * x);
    assert t * (0.0005 * y) == 0.0005 * (y * t) && t * (199.9995 * x) == 199.9995 * (x * t);
  }

  lemma CrossHidden(p: Policy, x: Band)
    requires p.Valid() && Inhabited(p, x)
    requires 199.9995 * PulledAuthority(p, x) <= 0.05 * (InhabitedAuthority(p) - p.Authority(x))
    ensures Bands(p, CrossSignals(p, x)) != [] && CrossConflictScore(p, Bands(p, CrossSignals(p, x))) == 0.0
    ensures InhabitedAuthority(p) > p.Authority(x)
  {
    hide Bands, CrossSignals, Inhabited, InhabitedAuthority, Round3, Clamp, Opposition, AuthoritySum, TotalAuthority, SomeBand;
    var bands := Bands(p, CrossSignals(p, x));
    CrossSums(p, x);
    CrossBandIn(p, x, x);
    BandsNonEmpty(p, CrossSignals(p, x));
    PulledPositive(p, x);
    AuthorityPositive(p, bands);
    var a, b, t := AuthoritySum(p, bands, Toward(Bullish), BandPull), AuthoritySum(p, bands, Toward(Bearish), BandPull), TotalAuthority(p, bands);
    QuotientHidden(a, b, t);
    ScoreHidden(Opposition(a / t, b / t));
    RoundedPercentage(Opposition(a / t, b / t));
  }

  lemma PulledPositive(p: Policy, x: Band)
    requires p.Valid()
    ensures PulledAuthority(p, x) > 0.0
  {
    hide ScoreFloor;
    AuthorityAbove(p, x);
    ProductSign(p.Authority(x), LeastPull(p));
  }

  /** If some band's authority is too small, the witness is a conflicted decision without a visible conflict score. */
  lemma FaintCross(p: Policy, x: Band)
    requires p.Valid() && Inhabited(p, x)
    requires 199.9995 * PulledAuthority(p, x) <= 0.05 * (InhabitedAuthority(p) - p.Authority(x))
    ensures Accepted(CrossSignals(p, x)) && !ConflictsShown(Evaluate(p, CrossSignals(p, x)))
  {
    hide *;
    var ss := CrossSignals(p, x);
    CrossHidden(p, x);
    var b := OtherInhabited(p, x);
    CrossBandIn(p, x, x);
    CrossBandIn(p, x, b);
    CrossOrdered(p, x);
    CrossNoBandConflict(p, x);
    TwoSignals(p, x, b);
    EvaluateParts(p, ss);
    HiddenOverall(p, Bands(p, ss));
    NotShown(Evaluate(p, ss));
  }

  lemma TwoSignals(p: Policy, x: Band, b: Band)
    requires p.Valid() && x != b && Inhabited(p, x) && Inhabited(p, b) && Ordered(CrossSignals(p, x)) && |CrossSignals(p, x)| <= 3
    requires CrossSignal(p, x, x) in CrossSignals(p, x) && CrossSignal(p, x, b) in CrossSignals(p, x)
    ensures Accepted(CrossSignals(p, x)) && CrossSignals(p, x) != []
  {
    hide CrossSignals, Ordered, Inhabited, Policy.Valid;
    assert CrossSignal(p, x, x) != CrossSignal(p, x, b);
  }

  lemma HiddenOverall(p: Policy, bands: seq<BandDecision>)
    requires p.Valid() && bands != [] && SomeBand(bands, Bullish) && SomeBand(bands, Bearish)
    requires CrossConflictScore(p, bands) == 0.0 && forall d :: d in bands ==> d.conflictScore == 0.0
    ensures OverallAlignment(bands) == Conflicted && OverallConflictScore(p, bands) == 0.0
  {
    hide CrossConflictScore, Round3, SomeBand;
    MaxConflictBounds(bands);
    ZeroMax(bands);
    RoundFixes(0);
  }

  lemma {:induction false} ZeroMax(bands: seq<BandDecision>)
    requires forall d :: d in bands ==> d.conflictScore == 0.0
    ensures MaxConflict(bands) == 0.0
  {
    if bands != [] {
      assert bands[|bands| - 1] in bands && bands[0] in bands;
      ZeroMax(bands[..|bands| - 1]);
    }
  }

  lemma NotShown(a: Assessment)
    requires a.alignment == Conflicted && a.conflictScore == 0.0
    ensures !ConflictsShown(a)
  {
  }

  // ----- The exact class of policies -----

  /**
   * A policy shows every conflict, for all signals it accepts, exactly when its thresholds and band authorities are not
   * too small: the product of the strength and confidence thresholds, the score threshold, and each inhabited band's
   * pull against all other bands must survive rounding to three digits.
   */
  lemma ConflictVisibleIff(p: Policy)
    requires p.Valid()
    ensures ConflictVisible(p) <==> forall ss :: Accepted(ss) ==> ConflictsShown(Evaluate(p, ss))
  {
    hide BandVisible, CrossVisible, Evaluate, ConflictsShown, Ordered, FaintSignals, FaintOpposition, CrossSignals, Policy.Valid;
    if ConflictVisible(p) {
      forall ss | Accepted(ss) ensures ConflictsShown(Evaluate(p, ss)) {
        AcceptedMembers(ss);
        ConflictsAlwaysShown(p, ss);
      }
    } else if !BandVisible(p) {
      HiddenBand(p);
    } else {
      HiddenCross(p);
    }
  }

  lemma HiddenBand(p: Policy)
    requires p.Valid() && !BandVisible(p)
    ensures exists ss :: Accepted(ss) && ss != [] && !ConflictsShown(Evaluate(p, ss))
  {
    hide Evaluate, ConflictsShown, Accepted, FaintSignals, FaintOpposition, Policy.Valid, PercentOf;
    if PercentOf(p.minStrength, p.minConfidence) <= 0.0005 {
      FaintConflict(p);
      AcceptedMembers(FaintSignals(p));
    } else {
      FaintOppositionConflict(p);
      AcceptedMembers(FaintOpposition(p));
    }
  }

  lemma HiddenCross(p: Policy)
    requires p.Valid() && !CrossVisible(p)
    ensures exists ss :: Accepted(ss) && ss != [] && !ConflictsShown(Evaluate(p, ss))
  {
    hide Evaluate, ConflictsShown, Accepted, CrossSignals, Policy.Valid, InhabitedAuthority, PulledAuthority, Inhabited;
    var x :| Inhabited(p, x) && !(199.9995 * PulledAuthority(p, x) > 0.05 * (InhabitedAuthority(p) - p.Authority(x)));
    FaintCross(p, x);
    AcceptedMembers(CrossSignals(p, x));
  }

  /** The default policy always shows its conflicts. */
  lemma DefaultIsVisible()
    ensures DEFAULT_POLICY.Valid() && ConflictVisible(DEFAULT_POLICY)
  {
    var p := DEFAULT_POLICY;
    RoundFixes(12000);
    assert 12000 as real / 1000.0 == 12.0;
    hide Round3;
    assert PercentOf(15.0, 45.0) == 6.75;
    assert LeastPull(p) == 12.0;
    forall b | Inhabited(p, b) ensures 199.9995 * PulledAuthority(p, b) > 0.05 * (InhabitedAuthority(p) - p.Authority(b)) {
      AnyOfThree(b);
    }
  }
}
