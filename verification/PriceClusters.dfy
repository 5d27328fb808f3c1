/** The densest price cluster and the structure classified from it (cells/support_resistance.py). */
module PriceClusters {
  import opened Collections
  import opened Reals
  import opened Permutations

  datatype PriceCluster = PriceCluster(level: real, touchCount: nat, spread: real)

  /** No value at all, or an anchor that gathers none, whose average would divide by zero. */
  datatype ClusterError = NoValues | NoMembers

  function Distance(value: real, reference: real): Option<real> {
    if reference == 0.0 then None
    else Some((if value < reference then reference - value else value - reference) / reference * 100.0)
  }

  function Near(anchor: real, tolerance: real): real -> bool {
    (value: real) => Distance(value, anchor).Some? && Distance(value, anchor).value <= tolerance
  }

  function MembersOf(values: seq<real>, anchor: real, tolerance: real): seq<real> {
    Filter(Near(anchor, tolerance), values)
  }

  function Greatest(xs: seq<real>): (m: real)
    requires xs != []
    ensures m in xs && forall x :: x in xs ==> x <= m
  {
    var n := |xs| - 1;
    assert xs == xs[..n] + [xs[n]];
    if n == 0 then xs[0]
    else
      var m := Greatest(xs[..n]);
      if m < xs[n] then xs[n] else m
  }

  function Smallest(xs: seq<real>): (m: real)
    requires xs != []
    ensures m in xs && forall x :: x in xs ==> m <= x
  {
    var n := |xs| - 1;
    assert xs == xs[..n] + [xs[n]];
    if n == 0 then xs[0]
    else
      var m := Smallest(xs[..n]);
      if xs[n] < m then xs[n] else m
  }

  function Level(members: seq<real>): real
    requires members != []
  {
    SumReals(members) / |members| as real
  }

  function ClusterOf(members: seq<real>): PriceCluster
    requires members != []
  {
    var level := Level(members);
    PriceCluster(level, |members|, if level != 0.0 then (Greatest(members) - Smallest(members)) / level * 100.0 else 0.0)
  }

  /** `rank < best_rank`: more touches, then less spread, then the preferred price. */
  predicate Better(a: PriceCluster, b: PriceCluster, preferHigher: bool) {
    if a.touchCount != b.touchCount then a.touchCount > b.touchCount
    else if a.spread != b.spread then a.spread < b.spread
    else if preferHigher then a.level > b.level
    else a.level < b.level
  }

  lemma BetterIsStrictTotal(a: PriceCluster, b: PriceCluster, c: PriceCluster, preferHigher: bool)
    ensures Better(a, b, preferHigher) || Better(b, a, preferHigher) || a == b
    ensures !(Better(a, b, preferHigher) && Better(b, a, preferHigher))
    ensures Better(a, b, preferHigher) && Better(b, c, preferHigher) ==> Better(a, c, preferHigher)
    ensures Better(a, b, preferHigher) && !Better(c, b, preferHigher) ==> Better(a, c, preferHigher)
  {
  }

  /** Every anchor gathers at least one value. */
  predicate AllGather(values: seq<real>, tolerance: real) {
    forall a :: a in values ==> MembersOf(values, a, tolerance) != []
  }

  /** `c` is the cluster of some anchor and none is better. */
  ghost predicate Optimal(c: PriceCluster, values: seq<real>, tolerance: real, preferHigher: bool) {
    && AllGather(values, tolerance)
    && (exists a :: a in values && c == ClusterOf(MembersOf(values, a, tolerance)))
    && (forall a :: a in values ==> !Better(ClusterOf(MembersOf(values, a, tolerance)), c, preferHigher))
  }

  lemma OptimumUnique(c: PriceCluster, d: PriceCluster, values: seq<real>, tolerance: real, preferHigher: bool)
    requires Optimal(c, values, tolerance, preferHigher) && Optimal(d, values, tolerance, preferHigher)
    ensures c == d
  {
    hide ClusterOf, MembersOf;
    BetterIsStrictTotal(c, d, c, preferHigher);
  }

  lemma MembersStep(values: seq<real>, anchor: real, tolerance: real, i: nat)
    requires i < |values|
    ensures MembersOf(values[..i + 1], anchor, tolerance) ==
      MembersOf(values[..i], anchor, tolerance) + (if Near(anchor, tolerance)(values[i]) then [values[i]] else [])
  {
    assert values[..i + 1][..i] == values[..i];
  }

  /** The inner loop: the values within the tolerance of one anchor. */
  method GatherMembers(values: seq<real>, anchor: real, tolerance: real) returns (members: seq<real>)
    ensures members == MembersOf(values, anchor, tolerance)
  {
    hide MembersOf;
    members := [];
    NoneGathered(values, anchor, tolerance);
    for i := 0 to |values|
      invariant members == MembersOf(values[..i], anchor, tolerance)
    {
      MembersStep(values, anchor, tolerance, i);
      var distance := Distance(values[i], anchor);
      if distance.Some? && distance.value <= tolerance {
        members := members + [values[i]];
      }
    }
    assert values[..|values|] == values;
  }

  lemma NoneGathered(values: seq<real>, anchor: real, tolerance: real)
    ensures MembersOf(values[..0], anchor, tolerance) == []
  {
  }

  /** The optimum over all anchors, or the reason there is none. */
  method DensestPriceCluster(values: seq<real>, tolerance: real, preferHigher: bool) returns (r: Result<PriceCluster, ClusterError>)
    ensures r.Ok? <==> values != [] && AllGather(values, tolerance)
    ensures r == Err(NoValues) <==> values == []
    ensures r.Ok? ==> Optimal(r.value, values, tolerance, preferHigher)
  {
    hide MembersOf, ClusterOf, Better;
    var best: Option<PriceCluster> := None;
    for i := 0 to |values|
      invariant best.None? <==> i == 0
      invariant forall j :: 0 <= j < i ==> MembersOf(values, values[j], tolerance) != []
      invariant best.Some? ==> exists j :: 0 <= j < i && best.value == ClusterOf(MembersOf(values, values[j], tolerance))
      invariant best.Some? ==> forall j :: 0 <= j < i ==> !Better(ClusterOf(MembersOf(values, values[j], tolerance)), best.value, preferHigher)
    {
      var members := GatherMembers(values, values[i], tolerance);
      if members == [] {
        assert values[i] in values;
        return Err(NoMembers);
      }
      var cluster := ClusterOf(members);
      BetterIsStrictTotal(cluster, cluster, cluster, preferHigher);
      if best.None? || Better(cluster, best.value, preferHigher) {
        if best.Some? {
          forall j | 0 <= j < i ensures !Better(ClusterOf(MembersOf(values, values[j], tolerance)), cluster, preferHigher) {
            BetterIsStrictTotal(cluster, best.value, ClusterOf(MembersOf(values, values[j], tolerance)), preferHigher);
            BetterIsStrictTotal(ClusterOf(MembersOf(values, values[j], tolerance)), cluster, best.value, preferHigher);
          }
        }
        best := Some(cluster);
      }
    }
    if best.None? {
      return Err(NoValues);
    }
    var j :| 0 <= j < |values| && best.value == ClusterOf(MembersOf(values, values[j], tolerance));
    assert values[j] in values;
    return Ok(best.value);
  }

  // ----- Independence of the order -----

  lemma GreatestPermuted(xs: seq<real>, ys: seq<real>)
    requires xs != [] && ys != [] && forall x :: x in xs <==> x in ys
    ensures Greatest(xs) == Greatest(ys) && Smallest(xs) == Smallest(ys)
  {
  }

  lemma ClusterPermuted(xs: seq<real>, ys: seq<real>)
    requires xs != [] && ys != [] && multiset(xs) == multiset(ys)
    ensures ClusterOf(xs) == ClusterOf(ys)
  {
    SameSize(xs, ys);
    SumRealsPermuted(xs, ys);
    GreatestPermuted(xs, ys);
    hide SumReals, Greatest, Smallest;
  }

  /** Rearranging the values changes neither whether a cluster is found nor which one. */
  lemma ClusterIgnoresOrder(values: seq<real>, others: seq<real>, tolerance: real, preferHigher: bool, c: PriceCluster)
    requires multiset(values) == multiset(others) && Optimal(c, values, tolerance, preferHigher)
    ensures Optimal(c, others, tolerance, preferHigher)
  {
    hide ClusterOf, Near, Better, Filter;
    SameSize(values, others);
    forall a | a in others
      ensures MembersOf(others, a, tolerance) != []
      ensures ClusterOf(MembersOf(others, a, tolerance)) == ClusterOf(MembersOf(values, a, tolerance))
    {
      FilterPermuted(Near(a, tolerance), values, others);
      assert a in values;
      SameSize(MembersOf(values, a, tolerance), MembersOf(others, a, tolerance));
      ClusterPermuted(MembersOf(values, a, tolerance), MembersOf(others, a, tolerance));
    }
  }

  // ----- Positive prices -----

  lemma AnchorIsNear(values: seq<real>, anchor: real, tolerance: real)
    requires anchor in values && anchor > 0.0 && tolerance >= 0.0
    ensures anchor in MembersOf(values, anchor, tolerance)
  {
  }

  lemma LevelBetween(members: seq<real>)
    requires members != []
    ensures Smallest(members) <= Level(members) <= Greatest(members)
  {
    SumBetween(members, Smallest(members), Greatest(members));
    QuotientBounds(Smallest(members), SumReals(members), Greatest(members), |members| as real);
  }

  /** `c` gathers the values near some anchor, itself among them, and its level lies between the extremes of those. */
  ghost predicate Gathers(c: PriceCluster, values: seq<real>, tolerance: real, anchor: real) {
    var members := MembersOf(values, anchor, tolerance);
    && anchor in values && anchor in members
    && c.touchCount == |members| && Smallest(members) <= c.level <= Greatest(members)
  }

  /** Positive prices always form a cluster; its level lies between its members and no anchor gathers more of them. */
  lemma PositivePricesCluster(values: seq<real>, tolerance: real, preferHigher: bool)
    requires tolerance >= 0.0 && forall v :: v in values ==> v > 0.0
    ensures AllGather(values, tolerance)
    ensures forall c :: Optimal(c, values, tolerance, preferHigher) ==>
      (&& c.level > 0.0 && c.spread >= 0.0 && c.touchCount >= 1
       && (forall a :: a in values ==> |MembersOf(values, a, tolerance)| <= c.touchCount)
       && exists a :: Gathers(c, values, tolerance, a))
  {
    hide Near, Optimal, Gathers;
    forall a | a in values ensures a in MembersOf(values, a, tolerance) { AnchorIsNear(values, a, tolerance); }
    forall c | Optimal(c, values, tolerance, preferHigher)
      ensures c.level > 0.0 && c.spread >= 0.0 && c.touchCount >= 1
      ensures forall a :: a in values ==> |MembersOf(values, a, tolerance)| <= c.touchCount
      ensures exists a :: Gathers(c, values, tolerance, a)
    {
      OptimumShape(c, values, tolerance, preferHigher);
      MostTouches(c, values, tolerance, preferHigher);
    }
  }

  lemma MostTouches(c: PriceCluster, values: seq<real>, tolerance: real, preferHigher: bool)
    requires Optimal(c, values, tolerance, preferHigher)
    ensures forall a :: a in values ==> |MembersOf(values, a, tolerance)| <= c.touchCount
  {
    hide Level, MembersOf, Greatest, Smallest;
    forall a | a in values ensures |MembersOf(values, a, tolerance)| <= c.touchCount {
      assert !Better(ClusterOf(MembersOf(values, a, tolerance)), c, preferHigher);
    }
  }

  lemma OptimumShape(c: PriceCluster, values: seq<real>, tolerance: real, preferHigher: bool)
    requires Optimal(c, values, tolerance, preferHigher) && tolerance >= 0.0 && forall v :: v in values ==> v > 0.0
    ensures c.level > 0.0 && c.spread >= 0.0 && c.touchCount >= 1 && exists a :: Gathers(c, values, tolerance, a)
  {
    hide MembersOf, Better, ClusterOf;
    var a :| a in values && c == ClusterOf(MembersOf(values, a, tolerance));
    AnchorIsNear(values, a, tolerance);
    MembersPositive(values, a, tolerance);
    ShapeOf(MembersOf(values, a, tolerance));
    assert Gathers(c, values, tolerance, a);
  }

  lemma MembersPositive(values: seq<real>, a: real, tolerance: real)
    requires forall v :: v in values ==> v > 0.0
    ensures forall v :: v in MembersOf(values, a, tolerance) ==> v > 0.0
  {
  }

  lemma ShapeOf(members: seq<real>)
    requires members != [] && forall v :: v in members ==> v > 0.0
    ensures var c := ClusterOf(members);
      c.level > 0.0 && c.spread >= 0.0 && c.touchCount == |members| && Smallest(members) <= c.level <= Greatest(members)
  {
    hide Level, Smallest, Greatest;
    LevelBetween(members);
    SpreadSign(Greatest(members) - Smallest(members), Level(members));
  }

  lemma SpreadSign(range: real, level: real)
    requires range >= 0.0 && level > 0.0
    ensures range / level * 100.0 >= 0.0
  {
    var q := range / level;
    assert q * level == range;
    if q < 0.0 { Scale(level, q, 0.0); }
  }

  // ----- The structure of the latest candle -----

  datatype Candle = Candle(open: real, high: real, low: real, close: real)

  datatype State =
    | OverlappingLevels | SupportBroken | ResistanceBroken | TwoSidedRejection | SupportRejection | ResistanceRejection
    | TestingSupport | TestingResistance | UnconfirmedLevels | InsideRange

  datatype Call = Bullish | Bearish | Neutral | Conflict

  datatype Structure = Structure(state: State, call: Call, activeTouches: nat, rejection: real, breakDistance: real)

  function DownsideBreak(close: real, support: Option<real>, tolerance: real): real
    requires support.Some? ==> support.value != 0.0
  {
    if support.None? then 0.0
    else Max((support.value * (1.0 - tolerance / 100.0) - close) / support.value * 100.0, 0.0)
  }

  function UpsideBreak(close: real, resistance: Option<real>, tolerance: real): real
    requires resistance.Some? ==> resistance.value != 0.0
  {
    if resistance.None? then 0.0
    else Max((close - resistance.value * (1.0 + tolerance / 100.0)) / resistance.value * 100.0, 0.0)
  }

  /** The candle reaches the zone of `tolerance` percent around a level. */
  predicate Tested(c: Candle, level: Option<real>, tolerance: real) {
    level.Some? && c.low <= level.value * (1.0 + tolerance / 100.0) && c.high >= level.value * (1.0 - tolerance / 100.0)
  }

  function Portion(part: real, whole: real, otherwise: real): real {
    if whole != 0.0 then part / whole else otherwise
  }

  predicate Overlapping(support: Option<real>, resistance: Option<real>) {
    support.Some? && resistance.Some? && support.value >= resistance.value
  }

  function Classify(c: Candle, support: Option<real>, resistance: Option<real>, supportTouches: nat, resistanceTouches: nat,
                    tolerance: real): Structure
    requires support.Some? ==> support.value != 0.0
    requires resistance.Some? ==> resistance.value != 0.0
  {
    var down, up := DownsideBreak(c.close, support, tolerance), UpsideBreak(c.close, resistance, tolerance);
    var range := c.high - c.low;
    var closePosition := Portion(c.close - c.low, range, 0.5);
    var lowerWick, upperWick := Portion(Min(c.open, c.close) - c.low, range, 0.0), Portion(c.high - Max(c.open, c.close), range, 0.0);
    var supportTested, resistanceTested := Tested(c, support, tolerance), Tested(c, resistance, tolerance);
    if Overlapping(support, resistance) then Structure(OverlappingLevels, Conflict, 0, 0.0, 0.0)
    else if down > 0.0 then Structure(SupportBroken, Conflict, supportTouches, 0.0, down)
    else if up > 0.0 then Structure(ResistanceBroken, Conflict, resistanceTouches, 0.0, up)
    else if supportTested && resistanceTested then
      Structure(TwoSidedRejection, Conflict, if supportTouches < resistanceTouches then resistanceTouches else supportTouches,
                Max(lowerWick, upperWick), 0.0)
    else if supportTested && c.close >= support.value && c.close >= c.open && closePosition >= 0.6 then
      Structure(SupportRejection, Bullish, supportTouches, lowerWick, 0.0)
    else if resistanceTested && c.close <= resistance.value && c.close <= c.open && closePosition <= 0.4 then
      Structure(ResistanceRejection, Bearish, resistanceTouches, upperWick, 0.0)
    else if supportTested then Structure(TestingSupport, Neutral, supportTouches, 0.0, 0.0)
    else if resistanceTested then Structure(TestingResistance, Neutral, resistanceTouches, 0.0, 0.0)
    else if support.None? && resistance.None? then Structure(UnconfirmedLevels, Neutral, 0, 0.0, 0.0)
    else Structure(InsideRange, Neutral, 0, 0.0, 0.0)
  }

  lemma SignOfQuotient(x: real, level: real)
    requires level > 0.0
    ensures x / level * 100.0 > 0.0 <==> x > 0.0
  {
    var q := x / level;
    assert q * level == x;
    if q > 0.0 { Scale(level, 0.0, q); }
    if q < 0.0 { Scale(level, q, 0.0); }
  }

  lemma BreakSigns(close: real, level: real, tolerance: real)
    requires level > 0.0
    ensures DownsideBreak(close, Some(level), tolerance) > 0.0 <==> close < level * (1.0 - tolerance / 100.0)
    ensures UpsideBreak(close, Some(level), tolerance) > 0.0 <==> close > level * (1.0 + tolerance / 100.0)
  {
    SignOfQuotient(level * (1.0 - tolerance / 100.0) - close, level);
    SignOfQuotient(close - level * (1.0 + tolerance / 100.0), level);
  }

  lemma ZoneAround(level: real, tolerance: real)
    requires level > 0.0 && tolerance >= 0.0
    ensures level * (1.0 - tolerance / 100.0) <= level <= level * (1.0 + tolerance / 100.0)
  {
    assert level * (tolerance / 100.0) >= 0.0;
  }

  /** A support below a resistance: a close cannot break both. */
  lemma BreaksExclude(close: real, support: real, resistance: real, tolerance: real)
    requires 0.0 < support < resistance && tolerance >= 0.0
    ensures !(DownsideBreak(close, Some(support), tolerance) > 0.0 && UpsideBreak(close, Some(resistance), tolerance) > 0.0)
  {
    hide DownsideBreak, UpsideBreak;
    BreakSigns(close, support, tolerance);
    BreakSigns(close, resistance, tolerance);
    ZoneAround(support, tolerance);
    ZoneAround(resistance, tolerance);
  }

  predicate PositiveLevel(level: Option<real>) {
    level.Some? ==> level.value > 0.0
  }

  /**
   * The break states mean just what they say, whichever break is checked first, and directional calls are made only on an
   * unbroken rejection of one level.
   */
  lemma StructureMeaning(c: Candle, support: Option<real>, resistance: Option<real>, supportTouches: nat, resistanceTouches: nat, tolerance: real)
    requires PositiveLevel(support) && PositiveLevel(resistance) && tolerance >= 0.0
    ensures var s := Classify(c, support, resistance, supportTouches, resistanceTouches, tolerance);
      && (s.state == SupportBroken <==>
            !Overlapping(support, resistance) && support.Some? && c.close < support.value * (1.0 - tolerance / 100.0))
      && (s.state == ResistanceBroken <==>
            !Overlapping(support, resistance) && resistance.Some? && c.close > resistance.value * (1.0 + tolerance / 100.0))
      && (s.breakDistance > 0.0 <==> s.state == SupportBroken || s.state == ResistanceBroken)
      && (s.call == Bullish <==> s.state == SupportRejection) && (s.call == Bearish <==> s.state == ResistanceRejection)
      && (s.call == Bullish ==> support.Some? && c.close >= support.value && !Tested(c, resistance, tolerance))
      && (s.call == Bearish ==> resistance.Some? && c.close <= resistance.value && !Tested(c, support, tolerance))
  {
    hide DownsideBreak, UpsideBreak, Tested, Portion;
    if support.Some? { BreakSigns(c.close, support.value, tolerance); }
    if resistance.Some? { BreakSigns(c.close, resistance.value, tolerance); }
    if support.Some? && resistance.Some? && support.value < resistance.value {
      BreaksExclude(c.close, support.value, resistance.value, tolerance);
    }
    NoLevelNoBreak(c, tolerance);
    TestedNeedsLevel(c, tolerance);
  }

  lemma NoLevelNoBreak(c: Candle, tolerance: real)
    ensures DownsideBreak(c.close, None, tolerance) == 0.0 && UpsideBreak(c.close, None, tolerance) == 0.0
  {
  }

  lemma TestedNeedsLevel(c: Candle, tolerance: real)
    ensures !Tested(c, None, tolerance)
  {
  }
}
