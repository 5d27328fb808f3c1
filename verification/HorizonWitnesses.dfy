/** Witnesses with one signal in each inhabited band, and what the policy makes of them. */
module HorizonWitnesses {
  import opened Collections
  import opened Reals
  import opened Rounding
  import opened HorizonModel
  import opened HorizonPolicy
  import opened HorizonWeights
  import opened HorizonBands
  import opened HorizonDecisions
  import opened HorizonConflicts

  // ----- Sums in which few members count -----

  lemma {:induction false} NoneCounts(ss: seq<Signal>, n: nat, keep: Signal -> bool, value: Signal -> real)
    requires |ss| <= n && forall s :: s in ss ==> !keep(s)
    ensures WeightedSum(ss, n, keep, value) == 0.0
  {
    if ss != [] {
      assert ss[|ss| - 1] in ss;
      NoneCounts(ss[..|ss| - 1], n, keep, value);
    }
  }

  lemma {:induction false} OneCounts(ss: seq<Signal>, n: nat, keep: Signal -> bool, value: Signal -> real)
    requires 0 < |ss| <= n && keep(ss[0]) && forall i :: 0 < i < |ss| ==> !keep(ss[i])
    ensures WeightedSum(ss, n, keep, value) == value(ss[0]) * MemberWeight(0, n)
  {
    hide MemberWeight;
    var k := |ss| - 1;
    if k == 0 {
      NoneCounts(ss[..0], n, keep, value);
    } else {
      OneCounts(ss[..k], n, keep, value);
    }
  }

  // ----- Bands of one signal -----

  lemma LoneScore(p: Policy, s: Signal)
    ensures RawBandScore(p, [s]) == s.score
  {
    var keep := ScoringKeep(p, [s]);
    ScoringTotal(p, [s]);
    assert keep(s) by {
      if Any(Qualified(p), [s]) {
        var t :| t in [s] && Qualified(p)(t);
        assert t == s;
      }
    }
    OneCounts([s], 1, keep, ScoreOf);
    OneCounts([s], 1, keep, One);
    RawTotalClosed(1);
    assert MemberWeight(0, 1) == 1.0;
  }

  /** The band decision of one qualified signal repeats its direction and rounded score, without conflict. */
  lemma LoneBand(p: Policy, b: Band, s: Signal)
    requires QualifiedToward(p, s.direction)(s) && !MaterialConflict(p)(s) && Directional(s.direction)
    ensures var d := EvaluateBand(p, b, [s]);
      d.band == b && d.direction == s.direction && d.score == Round3(s.score) && d.conflictScore == 0.0
  {
    hide RawBandScore, Round3, StrengthFor, BandConfidence, MaxOf, RiskLevelOf, Filter, BandConflictScore, Map;
    LoneScore(p, s);
    RoundFixes(0);
    LoneDirection(p, s);
  }

  lemma LoneDirection(p: Policy, s: Signal)
    requires QualifiedToward(p, s.direction)(s) && !MaterialConflict(p)(s) && Directional(s.direction)
    ensures BandDirection(p, [s]) == s.direction
  {
    assert s in [s];
    assert forall d :: QualifiedToward(p, d)(s) ==> d == s.direction;
    assert forall d: Direction :: Any(QualifiedToward(p, d), [s]) <==> QualifiedToward(p, d)(s);
  }

  lemma HundredRounds()
    ensures Round3(-100.0) == -100.0
  {
    RoundFixes(-100000);
    assert (-100000) as real / 1000.0 == -100.0;
  }

  // ----- One signal per inhabited band -----

  /** `pick` names a valid signal of each band that can have any. */
  ghost predicate Picks(p: Policy, pick: Band -> Signal) {
    forall b :: Inhabited(p, b) ==> pick(b).Valid() && BandFor(p, pick(b).horizon) == b
  }

  function OneOf(p: Policy, pick: Band -> Signal, b: Band): seq<Signal> {
    if Inhabited(p, b) then [pick(b)] else []
  }

  function OneEach(p: Policy, pick: Band -> Signal): seq<Signal> {
    OneOf(p, pick, Short) + OneOf(p, pick, Medium) + OneOf(p, pick, Long)
  }

  lemma HigherBandLonger(p: Policy, h: Horizon, g: Horizon)
    requires p.Valid() && BandRank(BandFor(p, h)) < BandRank(BandFor(p, g))
    ensures h.DurationMs() < g.DurationMs()
  {
    hide Horizon.DurationMs;
  }

  lemma OneEachOrdered(p: Policy, pick: Band -> Signal)
    requires p.Valid() && Picks(p, pick)
    ensures Ordered(OneEach(p, pick)) && |OneEach(p, pick)| <= 3
    ensures forall b :: Inhabited(p, b) ==> pick(b) in OneEach(p, pick)
  {
    var ss := OneEach(p, pick);
    hide Signal.Valid, BandFor, Horizon.DurationMs, Policy.Valid, Inhabited;
    forall i, j | 0 <= i < j < |ss| ensures ss[i].horizon.DurationMs() < ss[j].horizon.DurationMs() {
      HigherBandLonger(p, ss[i].horizon, ss[j].horizon);
    }
    forall b | Inhabited(p, b) ensures pick(b) in ss {
      assert pick(b) in OneOf(p, pick, b);
      AnyOfThree(b);
    }
  }

  lemma FilterParts(keep: Signal -> bool, xs: seq<Signal>, ys: seq<Signal>)
    requires |ys| <= 1
    ensures Filter(keep, xs + ys) == Filter(keep, xs) + (if ys != [] && keep(ys[0]) then ys else [])
  {
    if ys == [] {
      assert xs + ys == xs;
    } else {
      assert (xs + ys)[..|xs|] == xs;
    }
  }

  lemma FilterThree(keep: Signal -> bool, xs: seq<Signal>, ys: seq<Signal>, zs: seq<Signal>)
    requires |xs| <= 1 && |ys| <= 1 && |zs| <= 1
    ensures Filter(keep, xs + ys + zs)
         == (if xs != [] && keep(xs[0]) then xs else []) + (if ys != [] && keep(ys[0]) then ys else [])
            + (if zs != [] && keep(zs[0]) then zs else [])
  {
    hide Filter;
    FilterNone(keep, []);
    FilterParts(keep, [], xs);
    assert [] + xs == xs;
    FilterParts(keep, xs, ys);
    FilterParts(keep, xs + ys, zs);
  }

  lemma OneKept(p: Policy, pick: Band -> Signal, b: Band, c: Band)
    requires Picks(p, pick)
    ensures var list := OneOf(p, pick, c);
      && |list| <= 1
      && (if list != [] && BandFor(p, list[0].horizon) == b then list else []) == (if c == b then OneOf(p, pick, b) else [])
  {
    hide Inhabited, BandFor, Signal.Valid;
  }

  lemma OneEachMembers(p: Policy, pick: Band -> Signal, b: Band)
    requires Picks(p, pick)
    ensures Members(p, OneEach(p, pick), b) == OneOf(p, pick, b)
  {
    hide OneOf, BandFor, Filter, Picks;
    var keep := (s: Signal) => BandFor(p, s.horizon) == b;
    var short, medium, long := OneOf(p, pick, Short), OneOf(p, pick, Medium), OneOf(p, pick, Long);
    OneKept(p, pick, b, Short);
    OneKept(p, pick, b, Medium);
    OneKept(p, pick, b, Long);
    FilterThree(keep, short, medium, long);
    OnlyPart(OneOf(p, pick, b), b);
  }

  lemma OnlyPart(only: seq<Signal>, b: Band)
    ensures (if Short == b then only else []) + (if Medium == b then only else []) + (if Long == b then only else []) == only
  {
  }

  lemma OneEachBand(p: Policy, pick: Band -> Signal, b: Band)
    requires Picks(p, pick)
    ensures BandList(p, OneEach(p, pick), b) == if Inhabited(p, b) then [EvaluateBand(p, b, [pick(b)])] else []
  {
    hide Members, Picks, Inhabited, EvaluateBand, OneEach;
    OneEachMembers(p, pick, b);
  }

  lemma SumParts(p: Policy, xs: seq<BandDecision>, ys: seq<BandDecision>, keep: BandDecision -> bool, value: BandDecision -> real)
    requires |ys| <= 1
    ensures AuthoritySum(p, xs + ys, keep, value) ==
      AuthoritySum(p, xs, keep, value) + (if ys == [] then 0.0 else Contribution(p, ys[0], keep, value))
  {
    hide Contribution;
    if ys == [] {
      assert xs + ys == xs;
    } else {
      assert (xs + ys)[..|xs|] == xs;
    }
  }

  /** The contribution of a band, nothing if it has no members. */
  function ListTerm(p: Policy, list: seq<BandDecision>, keep: BandDecision -> bool, value: BandDecision -> real): real {
    if list == [] then 0.0 else Contribution(p, list[0], keep, value)
  }

  lemma BandSum(p: Policy, ss: seq<Signal>, keep: BandDecision -> bool, value: BandDecision -> real)
    ensures AuthoritySum(p, Bands(p, ss), keep, value) ==
      ListTerm(p, BandList(p, ss, Short), keep, value) + ListTerm(p, BandList(p, ss, Medium), keep, value) + ListTerm(p, BandList(p, ss, Long), keep, value)
  {
    hide Contribution, EvaluateBand, Members;
    var short, medium, long := BandList(p, ss, Short), BandList(p, ss, Medium), BandList(p, ss, Long);
    SumParts(p, [], short, keep, value);
    SumParts(p, short, medium, keep, value);
    SumParts(p, short + medium, long, keep, value);
    assert [] + short == short;
  }

  function ListShare(p: Policy, list: seq<BandDecision>): real {
    if list == [] then 0.0 else p.Authority(list[0].band)
  }

  lemma BandTotal(p: Policy, ss: seq<Signal>)
    ensures TotalAuthority(p, Bands(p, ss)) ==
      ListShare(p, BandList(p, ss, Short)) + ListShare(p, BandList(p, ss, Medium)) + ListShare(p, BandList(p, ss, Long))
  {
    hide EvaluateBand, Members, Policy.Authority;
    var short, medium, long := BandList(p, ss, Short), BandList(p, ss, Medium), BandList(p, ss, Long);
    TotalParts(p, [], short);
    TotalParts(p, short, medium);
    TotalParts(p, short + medium, long);
    assert [] + short == short;
  }

  lemma OneEachTotal(p: Policy, pick: Band -> Signal)
    requires Picks(p, pick)
    ensures TotalAuthority(p, Bands(p, OneEach(p, pick))) == InhabitedAuthority(p)
  {
    hide BandList, Inhabited, OneEach, Picks, TotalAuthority, Bands, ListShare, InhabitedShare;
    BandTotal(p, OneEach(p, pick));
    OneEachShare(p, pick, Short);
    OneEachShare(p, pick, Medium);
    OneEachShare(p, pick, Long);
  }

  lemma OneEachShare(p: Policy, pick: Band -> Signal, b: Band)
    requires Picks(p, pick)
    ensures ListShare(p, BandList(p, OneEach(p, pick), b)) == InhabitedShare(p, b)
  {
    hide Members, BandList, Inhabited, OneEach, Picks;
    OneEachBand(p, pick, b);
  }

  lemma OtherInhabited(p: Policy, x: Band) returns (b: Band)
    requires p.Valid() && Inhabited(p, x) && InhabitedAuthority(p) > p.Authority(x)
    ensures b != x && Inhabited(p, b)
  {
    hide Inhabited;
    if x != Short && Inhabited(p, Short) { b := Short; }
    else if x != Medium && Inhabited(p, Medium) { b := Medium; }
    else { b := Long; AnyOfThree(x); }
  }
}
