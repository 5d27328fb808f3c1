/** What every band decision satisfies, and exactly which policies always produce admissible ones. */
module HorizonBands {
  import opened Collections
  import opened Reals
  import opened HorizonModel
  import opened HorizonPolicy
  import opened HorizonWeights

  // ----- Convex combinations -----

  lemma TermBetween(low: real, v: real, high: real, w: real)
    requires low <= v <= high && w >= 0.0
    ensures Between(low, Term(v, w), high, Term(1.0, w))
  {
    ScaleBounds(low, v, high, w);
  }

  lemma {:induction false} WeightedBounds(ss: seq<Signal>, n: nat, keep: Signal -> bool, value: Signal -> real, low: real, high: real)
    requires |ss| <= n
    requires forall s :: s in ss && keep(s) ==> low <= value(s) <= high
    ensures Between(low, WeightedSum(ss, n, keep, value), high, WeightedSum(ss, n, keep, One))
  {
    hide Between, MemberWeight, Term;
    if ss == [] {
      BetweenZero(low, high);
    } else {
      var k := |ss| - 1;
      var last, w := ss[k], MemberWeight(k, n);
      assert last in ss && forall s :: s in ss[..k] ==> s in ss;
      WeightedBounds(ss[..k], n, keep, value, low, high);
      if keep(last) {
        TermBetween(low, value(last), high, w);
        BetweenStep(low, high, WeightedSum(ss[..k], n, keep, One), WeightedSum(ss[..k], n, keep, value), Term(1.0, w), Term(value(last), w));
      }
    }
  }

  lemma RawScoreBounds(p: Policy, ss: seq<Signal>, low: real, high: real)
    requires ss != []
    requires forall s :: s in ss && ScoringKeep(p, ss)(s) ==> low <= s.score <= high
    ensures low <= RawBandScore(p, ss) <= high
  {
    hide WeightedSum, Between;
    var keep := ScoringKeep(p, ss);
    ScoringTotal(p, ss);
    WeightedBounds(ss, |ss|, keep, ScoreOf, low, high);
    QuotientBounds(low, WeightedSum(ss, |ss|, keep, ScoreOf), high, WeightedSum(ss, |ss|, keep, One));
  }

  // ----- The shape of a band decision -----

  lemma {:induction false} KeptHorizons(keep: Signal -> bool, kept: Horizon -> bool, ss: seq<Signal>)
    requires forall s :: s in ss ==> (kept(s.horizon) <==> keep(s))
    ensures Filter(kept, Map(HorizonOf, ss)) == Map(HorizonOf, Filter(keep, ss))
  {
    if ss != [] {
      var n := |ss| - 1;
      KeptHorizons(keep, kept, ss[..n]);
      assert ss[n] in ss;
      assert Map(HorizonOf, ss)[..n] == Map(HorizonOf, ss[..n]);
    }
  }

  lemma OrderedHorizons(ss: seq<Signal>)
    requires Ordered(ss)
    ensures Distinct(Map(HorizonOf, ss)) && Rising(Map(HorizonOf, ss))
    ensures forall s, t :: s in ss && t in ss && s.horizon == t.horizon ==> s == t
  {
    hide Horizon.DurationMs, Signal.Valid;
    forall s, t | s in ss && t in ss && s.horizon == t.horizon ensures s == t {
      var i :| 0 <= i < |ss| && ss[i] == s;
      var j :| 0 <= j < |ss| && ss[j] == t;
    }
  }

  lemma HorizonIn(ss: seq<Signal>, h: Horizon)
    ensures h in Map(HorizonOf, ss) <==> exists s :: s in ss && s.horizon == h
  {
    if h in Map(HorizonOf, ss) {
      var i :| 0 <= i < |ss| && HorizonOf(ss[i]) == h;
      assert ss[i] in ss;
    }
    if s :| s in ss && s.horizon == h {
      var i :| 0 <= i < |ss| && ss[i] == s;
      assert Map(HorizonOf, ss)[i] == h;
    }
  }

  lemma QualifiedHorizons(p: Policy, ss: seq<Signal>)
    requires Ordered(ss)
    ensures var q := Map(HorizonOf, Filter(Qualified(p), ss));
      && Distinct(q) && (forall h :: h in q ==> h in Map(HorizonOf, ss))
      && q == Filter((h: Horizon) => h in q, Map(HorizonOf, ss))
  {
    hide Qualified, Filter, Map, Ordered, Distinct, Rising;
    var kept := Filter(Qualified(p), ss);
    var q := Map(HorizonOf, kept);
    FilterOrdered(Qualified(p), ss);
    OrderedHorizons(kept);
    OrderedHorizons(ss);
    forall s | s in ss ensures s.horizon in q <==> Qualified(p)(s) { HorizonIn(kept, s.horizon); }
    KeptHorizons(Qualified(p), (h: Horizon) => h in q, ss);
    forall h | h in q ensures h in Map(HorizonOf, ss) {
      HorizonIn(kept, h);
      HorizonIn(ss, h);
    }
  }

  lemma MaxRisk(value: Signal -> real, ss: seq<Signal>)
    requires ss != [] && forall s :: s in ss ==> Percentage(value(s))
    ensures Percentage(MaxOf(value, ss)) && Percentage(Round3(MaxOf(value, ss)))
  {
    hide Round3;
    RoundBounds(MaxOf(value, ss), 0, 100);
  }

  lemma RoundedPercentage(x: real)
    ensures Percentage(Round3(Clamp(x)))
  {
    hide Round3, Clamp;
    RoundBounds(Clamp(x), 0, 100);
  }

  lemma BandScoreBounded(p: Policy, ss: seq<Signal>)
    requires ss != [] && forall s :: s in ss ==> s.Valid()
    ensures Score(BandScore(p, ss))
  {
    hide Round3, RawBandScore;
    RawScoreBounds(p, ss, -100.0, 100.0);
    RoundBounds(RawBandScore(p, ss), -100, 100);
  }

  /** Every check of a band decision except the conflict one passes, for every policy and every ordered band. */
  lemma BandIsShaped(p: Policy, b: Band, ss: seq<Signal>)
    requires ss != [] && Ordered(ss)
    ensures BandShaped(EvaluateBand(p, b, ss))
  {
    hide BandScore, BandDirection, BandAlignment, BandConflictScore, Qualified, Round3, Clamp, WeightedSum, MaxOf, Filter, StrengthFor;
    hide BandConfidenceFactor, RiskLevelOf, Horizon.DurationMs;
    OrderedHorizons(ss);
    QualifiedHorizons(p, ss);
    BandScoreBounded(p, ss);
    MaxRisk(VolatilityOf, ss);
    MaxRisk(ManipulationOf, ss);
    BandPercentages(p, b, ss);
  }

  lemma ConfidencePercentage(ss: seq<Signal>, factor: real)
    ensures Percentage(BandConfidence(ss, factor))
  {
    hide Round3, Clamp, WeightedSum;
    RoundedPercentage(WeightedSum(ss, |ss|, Everyone, ConfidenceOf) * factor);
  }

  lemma BandPercentages(p: Policy, b: Band, ss: seq<Signal>)
    requires ss != []
    ensures var d := EvaluateBand(p, b, ss); Percentage(d.strength) && Percentage(d.confidence) && Percentage(d.conflictScore)
  {
    hide BandScore, BandDirection, BandAlignment, Qualified, Round3, Clamp, BandConfidence, MaxOf, Filter, BandConfidenceFactor;
    hide RiskLevelOf, Opposition, ExplicitConflict, Support;
    var alignment := BandAlignment(p, ss);
    var conflict := if alignment == Conflicted then BandConflictScore(p, ss) else 0.0;
    RoundedPercentage(Abs(BandScore(p, ss)) * 1.7);
    RoundedPercentage(Max(Abs(BandScore(p, ss)), conflict));
    RoundedPercentage(Abs(BandScore(p, ss)));
    ConfidencePercentage(ss, BandConfidenceFactor(alignment, conflict));
    RoundedPercentage(Max(Opposition(Support(p, ss, Bullish), Support(p, ss, Bearish)), ExplicitConflict(p, ss)));
    RoundBounds(conflict, 0, 100);
  }

  /** The conflict check of a band decision comes down to a conflict score that is visible after rounding. */
  lemma BandConflictShownIff(p: Policy, b: Band, ss: seq<Signal>)
    requires ss != []
    ensures var d := EvaluateBand(p, b, ss);
      ConflictShown(d.alignment, d.direction, d.conflictScore) <==> (BandDirection(p, ss) == Conflict ==> BandConflictScore(p, ss) > 0.0)
    ensures BandDirection(p, ss) == Conflict ==> EvaluateBand(p, b, ss).conflictScore == BandConflictScore(p, ss)
  {
    hide BandScore, BandDirection, Qualified, Clamp, WeightedSum, MaxOf, Filter, Round3, Opposition, Support, ExplicitConflict;
    RoundIdempotent(Clamp(Max(Opposition(Support(p, ss, Bullish), Support(p, ss, Bearish)), ExplicitConflict(p, ss))));
    RoundFixes(0);
  }

  // ----- When a conflict is visible -----

  /** Conflicting members cannot have scores or confidences so small that their conflict rounds away. */
  predicate BandVisible(p: Policy) {
    PercentOf(p.minStrength, p.minConfidence) > 0.0005 && 199.9995 * p.minScore > 12.7
  }

  lemma {:induction false} ExplicitAtLeast(p: Policy, ss: seq<Signal>, s: Signal)
    requires s in ss && MaterialConflict(p)(s)
    ensures ExplicitConflict(p, ss) >= ConflictStrength(s)
  {
    var n := |ss| - 1;
    assert ss == ss[..n] + [ss[n]];
    if s in ss[..n] { ExplicitAtLeast(p, ss[..n], s); }
  }

  lemma PercentAtLeast(a: real, b: real, x: real, y: real)
    requires 0.0 <= a <= x && 0.0 <= b <= y
    ensures PercentOf(a, b) <= PercentOf(x, y)
  {
    assert a * b <= a * y <= x * y;
  }

  lemma ScoreVisible(x: real)
    requires x > 0.0005
    ensures Round3(Clamp(x)) > 0.0
  {
    RoundPositiveIff(Clamp(x));
  }

  lemma ExplicitVisible(p: Policy, ss: seq<Signal>, s: Signal)
    requires p.Valid() && BandVisible(p) && s in ss && MaterialConflict(p)(s)
    ensures BandConflictScore(p, ss) > 0.0
  {
    hide Opposition, Support, Round3, Clamp, PercentOf;
    ExplicitAtLeast(p, ss, s);
    PercentAtLeast(p.minStrength, p.minConfidence, s.strength, s.confidence);
    ScoreVisible(Max(Opposition(Support(p, ss, Bullish), Support(p, ss, Bearish)), ExplicitConflict(p, ss)));
  }

  /** Opposing supports show in the rounded opposition score exactly when their ratio is large enough. */
  lemma OppositionVisibleIff(a: real, b: real)
    requires a > 0.0 && b > 0.0
    ensures Opposition(a, b) > 0.0005 <==> 199.9995 * Min(a, b) > 0.0005 * Max(a, b)
    ensures Opposition(a, b) >= 0.0
  {
    assert a + b == Min(a, b) + Max(a, b);
    QuotientAbove(200.0 * Min(a, b), a + b, 0.0005);
    QuotientSign(200.0 * Min(a, b), a + b);
  }

  lemma {:induction false} TermAtMost(ss: seq<Signal>, n: nat, keep: Signal -> bool, value: Signal -> real, i: nat)
    requires i < |ss| <= n && keep(ss[i]) && forall s :: s in ss && keep(s) ==> value(s) >= 0.0
    ensures WeightedSum(ss, n, keep, value) >= value(ss[i]) * MemberWeight(i, n)
  {
    hide MemberWeight;
    var k := |ss| - 1;
    assert ss[k] in ss && ss[i] in ss;
    if i < k {
      TermAtMost(ss[..k], n, keep, value, i);
      if keep(ss[k]) { ProductSign(value(ss[k]), MemberWeight(k, n)); }
    } else {
      SumNonNegative(ss[..k], n, keep, value);
    }
  }

  lemma {:induction false} SumNonNegative(ss: seq<Signal>, n: nat, keep: Signal -> bool, value: Signal -> real)
    requires |ss| <= n && forall s :: s in ss && keep(s) ==> value(s) >= 0.0
    ensures WeightedSum(ss, n, keep, value) >= 0.0
  {
    hide MemberWeight;
    if ss != [] {
      var k := |ss| - 1;
      SumNonNegative(ss[..k], n, keep, value);
      assert ss[k] in ss;
      if keep(ss[k]) { ProductSign(value(ss[k]), MemberWeight(k, n)); }
    }
  }

  /** The kept members and any one that is not kept share the whole weight. */
  lemma {:induction false} RestOfWeight(ss: seq<Signal>, n: nat, keep: Signal -> bool, i: nat)
    requires i < |ss| <= n && !keep(ss[i])
    ensures WeightedSum(ss, n, keep, One) + MemberWeight(i, n) <= SumMemberWeights(|ss|, n)
  {
    hide MemberWeight;
    var k := |ss| - 1;
    if i < k {
      RestOfWeight(ss[..k], n, keep, i);
    } else {
      WeightAtMost(ss[..k], n, keep);
    }
  }

  lemma {:induction false} WeightAtMost(ss: seq<Signal>, n: nat, keep: Signal -> bool)
    requires |ss| <= n
    ensures WeightedSum(ss, n, keep, One) <= SumMemberWeights(|ss|, n)
  {
    hide MemberWeight;
    if ss != [] { WeightAtMost(ss[..|ss| - 1], n, keep); }
  }

  /** No member of a band of at most eight weighs less than 1/255. */
  lemma LeastWeight(i: nat, n: nat)
    requires i < n <= 8
    ensures 255.0 * MemberWeight(i, n) >= 1.0
  {
    RawTotalClosed(n);
    assert Pow2(8) == 2 * Pow2(7) == 4 * Pow2(6) == 8 * Pow2(5) == 16 * Pow2(4) == 32 * Pow2(3) == 64 * Pow2(2) == 256;
    PowMonotone(n, 8);
    var a, t := Pow2(i) as real, RawTotal(n) as real;
    QuotientAtLeast(a, t);
  }

  lemma QuotientAtLeast(a: real, t: real)
    requires a >= 1.0 && 0.0 < t <= 255.0
    ensures 255.0 * (a / t) >= 1.0
  {
    var q := a / t;
    assert q * t == a;
    ScaleBounds(t, t, 255.0, q);
  }

  lemma {:induction false} PowMonotone(m: nat, n: nat)
    requires m <= n
    ensures Pow2(m) <= Pow2(n)
  {
    if m < n { PowMonotone(m, n - 1); }
  }

  lemma SideAtLeast(p: Policy, ss: seq<Signal>, d: Direction, i: nat)
    requires p.Valid() && i < |ss| && QualifiedToward(p, d)(ss[i])
    ensures Support(p, ss, d) >= p.minScore * MemberWeight(i, |ss|)
  {
    hide MemberWeight;
    TermAtMost(ss, |ss|, QualifiedToward(p, d), AbsScoreOf, i);
    assert Qualified(p)(ss[i]);
    ScaleBounds(p.minScore, Abs(ss[i].score), Abs(ss[i].score), MemberWeight(i, |ss|));
  }

  lemma OtherSideAtMost(p: Policy, ss: seq<Signal>, d: Direction, i: nat)
    requires i < |ss| && !QualifiedToward(p, d)(ss[i]) && forall s :: s in ss ==> s.Valid()
    ensures Support(p, ss, d) <= 100.0 * (1.0 - MemberWeight(i, |ss|))
  {
    hide MemberWeight;
    var keep := QualifiedToward(p, d);
    WeightedBounds(ss, |ss|, keep, AbsScoreOf, 0.0, 100.0);
    RestOfWeight(ss, |ss|, keep, i);
    AnchorOutweighsRest(|ss|);
  }

  /** Whichever side is weaker, one of its members keeps it from vanishing next to the other. */
  lemma SideVisible(p: Policy, ss: seq<Signal>, d: Direction, other: Direction, i: nat)
    requires p.Valid() && BandVisible(p) && i < |ss| <= 8 && d != other && forall s :: s in ss ==> s.Valid()
    requires QualifiedToward(p, d)(ss[i])
    ensures 199.9995 * Support(p, ss, d) > 0.0005 * Support(p, ss, other) && Support(p, ss, d) > 0.0
  {
    hide *;
    ScoreThresholdVisible(p);
    SideAtLeast(p, ss, d, i);
    NotToward(p, ss[i], d, other);
    OtherSideAtMost(p, ss, other, i);
    LeastWeight(i, |ss|);
    WeakSideShows(p.minScore, Support(p, ss, d), Support(p, ss, other), MemberWeight(i, |ss|));
  }

  lemma ScoreThresholdVisible(p: Policy)
    requires BandVisible(p)
    ensures 199.9995 * p.minScore > 12.7
  {
  }

  lemma NotToward(p: Policy, s: Signal, d: Direction, other: Direction)
    requires QualifiedToward(p, d)(s) && d != other
    ensures !QualifiedToward(p, other)(s)
  {
  }

  /** A member of weight `w` with at least the least score keeps its side from vanishing next to all the others. */
  lemma WeakSideShows(least: real, mine: real, theirs: real, w: real)
    requires 199.9995 * least > 12.7 && w > 0.0 && 255.0 * w >= 1.0
    requires mine >= least * w && theirs <= 100.0 * (1.0 - w)
    ensures 199.9995 * mine > 0.0005 * theirs && mine > 0.0
  {
    Scale(w, 12.7, 199.9995 * least);
    Regroup(least, w);
    LinearStep(least * w, w, mine, theirs);
  }

  lemma LinearStep(product: real, w: real, mine: real, theirs: real)
    requires w * 12.7 < 199.9995 * product && w > 0.0 && 255.0 * w >= 1.0
    requires mine >= product && theirs <= 100.0 * (1.0 - w)
    ensures 199.9995 * mine > 0.0005 * theirs && mine > 0.0
  {
  }

  lemma Regroup(m: real, w: real)
    ensures w * (199.9995 * m) == 199.9995 * (m * w)
  {
  }

  /** Under such a policy every conflicted band of at most eight horizons shows its conflict. */
  lemma BandConflictVisible(p: Policy, ss: seq<Signal>)
    requires p.Valid() && BandVisible(p) && 0 < |ss| <= 8 && forall s :: s in ss ==> s.Valid()
    ensures BandDirection(p, ss) == Conflict ==> BandConflictScore(p, ss) > 0.0
  {
    hide Support, Opposition, Round3, Clamp, BandVisible, Signal.Valid;
    var opposed := Any(QualifiedToward(p, Bullish), ss) && Any(QualifiedToward(p, Bearish), ss);
    if opposed {
      var i :| 0 <= i < |ss| && QualifiedToward(p, Bullish)(ss[i]);
      var j :| 0 <= j < |ss| && QualifiedToward(p, Bearish)(ss[j]);
      SideVisible(p, ss, Bullish, Bearish, i);
      SideVisible(p, ss, Bearish, Bullish, j);
      OppositionVisibleIff(Support(p, ss, Bullish), Support(p, ss, Bearish));
      ScoreVisible(Max(Opposition(Support(p, ss, Bullish), Support(p, ss, Bearish)), ExplicitConflict(p, ss)));
    } else if Any(MaterialConflict(p), ss) {
      var s :| s in ss && MaterialConflict(p)(s);
      ExplicitVisible(p, ss, s);
    } else {
      assert ss[|ss| - 1] in ss;
    }
  }
}
