/** Rounding, the partition into bands, and the weights of signals (horizons/policy.py). */
module HorizonWeights {
  import opened Collections
  import opened Reals
  import opened Rounding
  import opened HorizonModel
  import opened HorizonPolicy

  // ----- Rounding -----

  lemma RoundMonotone(x: real, y: real)
    requires x <= y
    ensures Round3(x) <= Round3(y)
  {
    NearestMonotone(x * 1000.0, y * 1000.0);
  }

  /** A number of thousandths is left alone. */
  lemma RoundFixes(n: int)
    ensures Round3(n as real / 1000.0) == n as real / 1000.0
  {
    assert n as real / 1000.0 * 1000.0 == n as real;
    NearestFixes(n);
  }

  lemma RoundIdempotent(x: real)
    ensures Round3(Round3(x)) == Round3(x)
  {
    RoundFixes(Nearest(x * 1000.0));
  }

  lemma RoundBounds(x: real, low: int, high: int)
    requires low as real <= x <= high as real
    ensures low as real <= Round3(x) <= high as real
  {
    RoundFixes(1000 * low);
    RoundFixes(1000 * high);
    RoundMonotone(low as real, x);
    RoundMonotone(x, high as real);
    assert (1000 * low) as real / 1000.0 == low as real && (1000 * high) as real / 1000.0 == high as real;
  }

  /** Rounding loses a non-negative number exactly up to half a thousandth. */
  lemma RoundPositiveIff(x: real)
    requires x >= 0.0
    ensures Round3(x) > 0.0 <==> x > 0.0005
    ensures Round3(x) >= 0.0
  {
    var y := x * 1000.0;
    assert y > 0.5 <==> x > 0.0005;
    if y > 0.5 {
      NearestIsClose(y);
      assert Nearest(y) >= 1 || y.Floor == 0;
    }
  }

  lemma Round8IsClose(x: real)
    ensures -0.000000005 <= Round8(x) - x <= 0.000000005
    ensures x >= 0.0 ==> Round8(x) >= 0.0
  {
    NearestIsClose(x * 100000000.0);
    if x >= 0.0 {
      NearestFixes(0);
      NearestMonotone(0.0, x * 100000000.0);
    }
  }

  lemma CloseToItself(x: real)
    ensures IsClose(x, x)
  {
  }

  // ----- The partition into bands -----

  predicate BandsRise(p: Policy, ss: seq<Signal>) {
    forall i, j :: 0 <= i < j < |ss| ==> BandRank(BandFor(p, ss[i].horizon)) <= BandRank(BandFor(p, ss[j].horizon))
  }

  lemma OrderedBandsRise(p: Policy, ss: seq<Signal>)
    requires p.Valid() && Ordered(ss)
    ensures BandsRise(p, ss)
  {
    hide Horizon.DurationMs, Signal.Valid;
  }

  /** Once a signal of some band arrives, the higher bands are still empty. */
  lemma HigherBandsEmpty(p: Policy, ss: seq<Signal>, b: Band)
    requires ss != [] && BandsRise(p, ss) && BandRank(b) > BandRank(BandFor(p, ss[|ss| - 1].horizon))
    ensures Members(p, ss[..|ss| - 1], b) == []
  {
    hide BandFor;
    var front := ss[..|ss| - 1];
    forall s | s in front ensures BandFor(p, s.horizon) != b {
      var i :| 0 <= i < |front| && front[i] == s;
      assert ss[i] == s;
    }
    FilterNone((s: Signal) => BandFor(p, s.horizon) == b, front);
  }

  lemma {:induction false} RisingPartition(p: Policy, ss: seq<Signal>)
    requires BandsRise(p, ss)
    ensures Members(p, ss, Short) + Members(p, ss, Medium) + Members(p, ss, Long) == ss
  {
    hide BandFor, Members;
    if ss == [] {
      NoMembers(p, ss);
    } else {
      var n := |ss| - 1;
      RisingPartition(p, ss[..n]);
      assert ss[..n] + [ss[n]] == ss[..n + 1] == ss;
      MembersStep(p, ss, n, Short);
      MembersStep(p, ss, n, Medium);
      MembersStep(p, ss, n, Long);
      match BandFor(p, ss[n].horizon)
      case Short =>
        HigherBandsEmpty(p, ss, Medium);
        HigherBandsEmpty(p, ss, Long);
      case Medium => HigherBandsEmpty(p, ss, Long);
      case Long =>
    }
  }

  /** Ordered signals fall into the bands as three consecutive runs: nothing is lost, repeated or reordered. */
  lemma BandsPartition(p: Policy, ss: seq<Signal>)
    requires p.Valid() && Ordered(ss)
    ensures Members(p, ss, Short) + Members(p, ss, Medium) + Members(p, ss, Long) == ss
  {
    OrderedBandsRise(p, ss);
    RisingPartition(p, ss);
  }

  lemma {:induction false} FilterOrdered(keep: Signal -> bool, ss: seq<Signal>)
    requires Ordered(ss)
    ensures Ordered(Filter(keep, ss))
  {
    hide Ordered, Horizon.DurationMs;
    if ss == [] {
    } else {
      var n := |ss| - 1;
      OrderedParts(ss);
      FilterOrdered(keep, ss[..n]);
      var front := Filter(keep, ss[..n]);
      OrderedEnd(front, ss[n]);
      assert front + [] == front;
    }
  }

  lemma OrderedParts(ss: seq<Signal>)
    requires Ordered(ss) && ss != []
    ensures var n := |ss| - 1;
      && Ordered(ss[..n]) && ss[n].Valid()
      && forall s :: s in ss[..n] ==> s.horizon.DurationMs() < ss[n].horizon.DurationMs()
  {
    hide Horizon.DurationMs, Signal.Valid;
    assert ss[|ss| - 1] in ss && forall s :: s in ss[..|ss| - 1] ==> s in ss;
  }

  lemma OrderedEnd(front: seq<Signal>, x: Signal)
    requires Ordered(front) && x.Valid() && forall s :: s in front ==> s.horizon.DurationMs() < x.horizon.DurationMs()
    ensures Ordered(front + [x])
  {
    hide Horizon.DurationMs, Signal.Valid;
    assert forall i :: 0 <= i < |front| ==> front[i] in front;
  }

  // ----- Weights within a band -----

  /** In a band each longer horizon weighs twice the one before, and the longest outweighs all others together. */
  lemma MemberWeightsDouble(i: nat, n: nat)
    requires i + 1 < n
    ensures MemberWeight(i + 1, n) == 2.0 * MemberWeight(i, n)
  {
    RawTotalClosed(n);
    TwiceOver(Pow2(i) as real, RawTotal(n) as real);
  }

  lemma TwiceOver(a: real, t: real)
    requires t > 0.0
    ensures 2.0 * a / t == 2.0 * (a / t)
  {
  }

  function SumMemberWeights(k: nat, n: nat): real
    requires k <= n
  {
    if k == 0 then 0.0 else SumMemberWeights(k - 1, n) + MemberWeight(k - 1, n)
  }

  lemma {:induction false} MemberWeightsSum(k: nat, n: nat)
    requires k <= n && n > 0
    ensures RawTotal(n) > 0 && SumMemberWeights(k, n) == RawTotal(k) as real / RawTotal(n) as real
  {
    RawTotalClosed(n);
    if k > 0 {
      MemberWeightsSum(k - 1, n);
      Fractions(RawTotal(k - 1) as real, Pow2(k - 1) as real, RawTotal(n) as real);
    }
  }

  lemma Fractions(a: real, b: real, c: real)
    requires c > 0.0
    ensures a / c + b / c == (a + b) / c
  {
  }

  lemma AnchorOutweighsRest(n: nat)
    requires n > 0
    ensures MemberWeight(n - 1, n) > SumMemberWeights(n - 1, n)
    ensures SumMemberWeights(n, n) == 1.0
  {
    MemberWeightsSum(n - 1, n);
    MemberWeightsSum(n, n);
    RawTotalClosed(n);
    RawTotalClosed(n - 1);
    FractionLess(RawTotal(n - 1) as real, Pow2(n - 1) as real, RawTotal(n) as real);
  }

  lemma FractionLess(a: real, b: real, c: real)
    requires c > 0.0 && a < b
    ensures a / c < b / c
  {
  }

  // ----- Weights of signals across bands -----

  function BandAuthority(p: Policy, ss: seq<Signal>, b: Band): real {
    if Members(p, ss, b) == [] then 0.0 else p.Authority(b)
  }

  function PresentAuthority(p: Policy, ss: seq<Signal>): real {
    BandAuthority(p, ss, Short) + BandAuthority(p, ss, Medium) + BandAuthority(p, ss, Long)
  }

  lemma PresentPositive(p: Policy, ss: seq<Signal>)
    requires p.Valid() && ss != []
    ensures PresentAuthority(p, ss) > 0.0
  {
    assert ss[0] in ss;
    assert ss[0] in Members(p, ss, BandFor(p, ss[0].horizon));
  }

  function ShareOf(p: Policy, ss: seq<Signal>, b: Band): real
    requires p.Valid() && ss != []
  {
    PresentPositive(p, ss);
    BandAuthority(p, ss, b) / PresentAuthority(p, ss)
  }

  lemma ShareSign(p: Policy, ss: seq<Signal>, b: Band)
    requires p.Valid() && ss != []
    ensures ShareOf(p, ss, b) >= 0.0 && (Members(p, ss, b) != [] ==> ShareOf(p, ss, b) > 0.0)
  {
    hide Members, PresentAuthority;
    PresentPositive(p, ss);
    QuotientSign(BandAuthority(p, ss, b), PresentAuthority(p, ss));
  }

  /** The exact weight of the i-th member of a band among all signals. */
  function SignalWeight(p: Policy, ss: seq<Signal>, b: Band, i: nat): real
    requires p.Valid() && i < |Members(p, ss, b)|
  {
    NonEmptyMembers(p, ss, b);
    ShareOf(p, ss, b) * MemberWeight(i, |Members(p, ss, b)|)
  }

  /** Every signal counts. */
  lemma WeightPositive(p: Policy, ss: seq<Signal>, b: Band, i: nat)
    requires p.Valid() && i < |Members(p, ss, b)|
    ensures SignalWeight(p, ss, b, i) > 0.0
  {
    hide Members, ShareOf, MemberWeight;
    NonEmptyMembers(p, ss, b);
    ShareSign(p, ss, b);
    ProductSign(ShareOf(p, ss, b), MemberWeight(i, |Members(p, ss, b)|));
  }

  function BandWeights(p: Policy, ss: seq<Signal>, b: Band, k: nat): real
    requires p.Valid() && k <= |Members(p, ss, b)|
  {
    if k == 0 then 0.0 else BandWeights(p, ss, b, k - 1) + SignalWeight(p, ss, b, k - 1)
  }

  lemma {:induction false} BandWeightsShare(p: Policy, ss: seq<Signal>, b: Band, k: nat)
    requires p.Valid() && ss != [] && k <= |Members(p, ss, b)|
    ensures BandWeights(p, ss, b, k) == ShareOf(p, ss, b) * SumMemberWeights(k, |Members(p, ss, b)|)
  {
    hide Members, ShareOf, MemberWeight, Policy.Valid;
    if k > 0 {
      BandWeightsShare(p, ss, b, k - 1);
      var n, share := |Members(p, ss, b)|, ShareOf(p, ss, b);
      Distribute(share, SumMemberWeights(k - 1, n), MemberWeight(k - 1, n));
    }
  }

  lemma BandWeightsTotal(p: Policy, ss: seq<Signal>, b: Band)
    requires p.Valid() && ss != []
    ensures BandWeights(p, ss, b, |Members(p, ss, b)|) == ShareOf(p, ss, b)
  {
    hide Members;
    var n := |Members(p, ss, b)|;
    BandWeightsShare(p, ss, b, n);
    if n > 0 { AnchorOutweighsRest(n); } else { PresentPositive(p, ss); }
  }

  /** All signal weights, over all bands. */
  function AllWeights(p: Policy, ss: seq<Signal>): real
    requires p.Valid()
  {
    BandWeights(p, ss, Short, |Members(p, ss, Short)|) + BandWeights(p, ss, Medium, |Members(p, ss, Medium)|)
    + BandWeights(p, ss, Long, |Members(p, ss, Long)|)
  }

  /** Before rounding the weights sum to exactly one. */
  lemma WeightsSumToOne(p: Policy, ss: seq<Signal>)
    requires p.Valid() && ss != []
    ensures AllWeights(p, ss) == 1.0
  {
    hide Members;
    BandWeightsTotal(p, ss, Short);
    BandWeightsTotal(p, ss, Medium);
    BandWeightsTotal(p, ss, Long);
    PresentPositive(p, ss);
    var a, b, c, t := BandAuthority(p, ss, Short), BandAuthority(p, ss, Medium), BandAuthority(p, ss, Long), PresentAuthority(p, ss);
    ThreeShares(a, b, c, t);
  }

  lemma ThreeShares(a: real, b: real, c: real, t: real)
    requires t > 0.0 && a + b + c == t
    ensures a / t + b / t + c / t == 1.0
  {
    Fractions(a, b, t);
    Fractions(a + b, c, t);
  }

  /** Within a band a longer horizon weighs strictly more than a shorter one. */
  lemma {:induction false} LongerWeighsMore(p: Policy, ss: seq<Signal>, b: Band, i: nat, j: nat)
    requires p.Valid() && i < j < |Members(p, ss, b)|
    ensures SignalWeight(p, ss, b, i) < SignalWeight(p, ss, b, j)
    decreases j
  {
    hide Members, ShareOf, MemberWeight;
    var n := |Members(p, ss, b)|;
    NonEmptyMembers(p, ss, b);
    ShareSign(p, ss, b);
    MemberWeightsDouble(j - 1, n);
    Scale(ShareOf(p, ss, b), MemberWeight(j - 1, n), MemberWeight(j, n));
    if i < j - 1 { LongerWeighsMore(p, ss, b, i, j - 1); }
  }

  lemma NonEmptyMembers(p: Policy, ss: seq<Signal>, b: Band)
    requires Members(p, ss, b) != []
    ensures ss != []
  {
  }

  /** The anchor of a band outweighs all its shorter horizons combined. */
  lemma AnchorWeighsMost(p: Policy, ss: seq<Signal>, b: Band)
    requires p.Valid() && Members(p, ss, b) != []
    ensures var n := |Members(p, ss, b)|; SignalWeight(p, ss, b, n - 1) > BandWeights(p, ss, b, n - 1)
  {
    hide Members, ShareOf, MemberWeight, SumMemberWeights, BandWeights;
    NonEmptyMembers(p, ss, b);
    ShareSign(p, ss, b);
    var n := |Members(p, ss, b)|;
    BandWeightsShare(p, ss, b, n - 1);
    AnchorOutweighsRest(n);
    Scale(ShareOf(p, ss, b), SumMemberWeights(n - 1, n), MemberWeight(n - 1, n));
  }

  // ----- The rounded weights -----

  /** How many earlier signals share the band of signal `k`. */
  function PlaceOf(p: Policy, ss: seq<Signal>, k: nat): (i: nat)
    requires k < |ss|
    ensures i < |Members(p, ss, BandFor(p, ss[k].horizon))| && Members(p, ss, BandFor(p, ss[k].horizon))[i] == ss[k]
  {
    var b := BandFor(p, ss[k].horizon);
    MembersStep(p, ss, k, b);
    MembersPrefix(p, ss, k + 1, b);
    |Members(p, ss[..k], b)|
  }

  lemma {:induction false} MembersPrefix(p: Policy, ss: seq<Signal>, k: nat, b: Band)
    requires k <= |ss|
    ensures Members(p, ss[..k], b) <= Members(p, ss, b)
  {
    if k < |ss| {
      MembersPrefix(p, ss[..|ss| - 1], k, b);
      assert ss[..|ss| - 1][..k] == ss[..k];
      assert Members(p, ss[..|ss| - 1], b) <= Members(p, ss, b);
    } else {
      assert ss[..k] == ss;
    }
  }

  /** The exact weight of the k-th signal. */
  function ExactWeight(p: Policy, ss: seq<Signal>, k: nat): real
    requires p.Valid() && k < |ss|
  {
    SignalWeight(p, ss, BandFor(p, ss[k].horizon), PlaceOf(p, ss, k))
  }

  function ExactWeights(p: Policy, ss: seq<Signal>, k: nat): real
    requires p.Valid() && k <= |ss|
  {
    if k == 0 then 0.0 else ExactWeights(p, ss, k - 1) + ExactWeight(p, ss, k - 1)
  }

  lemma {:induction false} WeightsByBand(p: Policy, ss: seq<Signal>, k: nat)
    requires p.Valid() && k <= |ss|
    requires forall b :: |Members(p, ss[..k], b)| <= |Members(p, ss, b)|
    ensures ExactWeights(p, ss, k) ==
      BandWeights(p, ss, Short, |Members(p, ss[..k], Short)|) + BandWeights(p, ss, Medium, |Members(p, ss[..k], Medium)|)
      + BandWeights(p, ss, Long, |Members(p, ss[..k], Long)|)
  {
    hide Members, BandFor, Policy.Valid, SignalWeight;
    if k == 0 {
      NoMembers(p, ss[..0]);
    } else {
      forall b ensures |Members(p, ss[..k - 1], b)| <= |Members(p, ss, b)| { MembersPrefix(p, ss, k - 1, b); }
      WeightsByBand(p, ss, k - 1);
      MembersStep(p, ss, k - 1, Short);
      MembersStep(p, ss, k - 1, Medium);
      MembersStep(p, ss, k - 1, Long);
    }
  }

  /** The signals' own weights, taken in signal order, sum to one. */
  lemma ExactWeightsSumToOne(p: Policy, ss: seq<Signal>)
    requires p.Valid() && ss != []
    ensures ExactWeights(p, ss, |ss|) == 1.0
  {
    hide Members;
    assert ss[..|ss|] == ss;
    WeightsByBand(p, ss, |ss|);
    WeightsSumToOne(p, ss);
  }

  /** One evidence item per signal, weighted by the rounded weights. */
  function EvidenceFor(p: Policy, ss: seq<Signal>, k: nat): (es: seq<Evidence>)
    requires p.Valid() && k <= |ss|
    ensures |es| == k
  {
    hide ExactWeight, Round8, Policy.Valid;
    if k == 0 then []
    else EvidenceFor(p, ss, k - 1) + [Evidence(ss[k - 1].horizon, Round8(ExactWeight(p, ss, k - 1)), 100.0, ss[k - 1].confidence)]
  }

  lemma {:induction false} EvidenceAt(p: Policy, ss: seq<Signal>, k: nat, i: nat)
    requires p.Valid() && i < k <= |ss|
    ensures EvidenceFor(p, ss, k)[i] == Evidence(ss[i].horizon, Round8(ExactWeight(p, ss, i)), 100.0, ss[i].confidence)
  {
    hide ExactWeight, Round8, Policy.Valid;
    if i < k - 1 { EvidenceAt(p, ss, k - 1, i); }
  }

  lemma {:induction false} RoundedWeightsClose(p: Policy, ss: seq<Signal>, k: nat)
    requires p.Valid() && k <= |ss|
    ensures var error := SumWeights(EvidenceFor(p, ss, k)) - ExactWeights(p, ss, k);
      -0.000000005 * k as real <= error <= 0.000000005 * k as real
  {
    hide ExactWeight, Round8;
    if k > 0 {
      RoundedWeightsClose(p, ss, k - 1);
      Round8IsClose(ExactWeight(p, ss, k - 1));
      var es := EvidenceFor(p, ss, k);
      assert es[..k - 1] == EvidenceFor(p, ss, k - 1);
    }
  }

  lemma {:induction false} ExactWeightPositive(p: Policy, ss: seq<Signal>, k: nat)
    requires p.Valid() && k < |ss|
    ensures ExactWeight(p, ss, k) > 0.0
  {
    hide Members, SignalWeight;
    WeightPositive(p, ss, BandFor(p, ss[k].horizon), PlaceOf(p, ss, k));
  }

  /** For up to eight signals rounding to eight digits keeps the sum within the checked tolerance. */
  lemma EvidenceSumsToOne(p: Policy, ss: seq<Signal>)
    requires p.Valid() && 0 < |ss| <= 8
    ensures IsClose(SumWeights(EvidenceFor(p, ss, |ss|)), 1.0)
    ensures forall i :: 0 <= i < |ss| ==> EvidenceFor(p, ss, |ss|)[i].weight >= 0.0
  {
    hide ExactWeight, Round8;
    RoundedWeightsClose(p, ss, |ss|);
    ExactWeightsSumToOne(p, ss);
    forall i | 0 <= i < |ss| ensures EvidenceFor(p, ss, |ss|)[i].weight >= 0.0 {
      EvidenceAt(p, ss, |ss|, i);
      ExactWeightPositive(p, ss, i);
      Round8IsClose(ExactWeight(p, ss, i));
    }
  }

  // ----- Filling the dictionary -----

  /** The dictionary holds the rounded weight of every signal in the finished bands. */
  ghost predicate Weighed(p: Policy, ss: seq<Signal>, weights: map<Horizon, real>, k: nat)
    requires p.Valid() && k < |ss|
  {
    ss[k].horizon in weights && weights[ss[k].horizon] == Round8(ExactWeight(p, ss, k))
  }

  lemma MembersDiffer(p: Policy, ss: seq<Signal>, b: Band, i: nat, k: nat)
    requires Ordered(ss) && i < |Members(p, ss, b)| && k < |ss|
    requires BandFor(p, ss[k].horizon) != b || PlaceOf(p, ss, k) < i
    ensures ss[k].horizon != Members(p, ss, b)[i].horizon
  {
    var m := Members(p, ss, b)[i];
    assert m in Members(p, ss, b);
    if BandFor(p, ss[k].horizon) == b {
      FilterOrdered((s: Signal) => BandFor(p, s.horizon) == b, ss);
    }
  }

  lemma PlacedWeight(p: Policy, ss: seq<Signal>, k: nat, b: Band, i: nat)
    requires p.Valid() && k < |ss| && b == BandFor(p, ss[k].horizon) && i == PlaceOf(p, ss, k)
    ensures i < |Members(p, ss, b)|
    ensures ExactWeight(p, ss, k) == SignalWeight(p, ss, b, i) && Members(p, ss, b)[i].horizon == ss[k].horizon
  {
    hide SignalWeight;
  }

  lemma SignalWeightIs(p: Policy, ss: seq<Signal>, b: Band, members: seq<Signal>, i: nat, share: real, w: real)
    requires p.Valid() && ss != [] && members == Members(p, ss, b) && i < |members| && share == ShareOf(p, ss, b)
    requires w == share * MemberWeight(i, |members|)
    ensures SignalWeight(p, ss, b, i) == w
  {
    hide Members, ShareOf, MemberWeight;
  }

  method WeighBand(p: Policy, ss: seq<Signal>, b: Band, members: seq<Signal>, share: real, ghost done: set<Band>, weights: map<Horizon, real>)
    returns (r: map<Horizon, real>)
    requires p.Valid() && Ordered(ss) && ss != [] && members == Members(p, ss, b) && share == ShareOf(p, ss, b) && b !in done
    requires forall k :: 0 <= k < |ss| && BandFor(p, ss[k].horizon) in done ==> Weighed(p, ss, weights, k)
    ensures forall k :: 0 <= k < |ss| && BandFor(p, ss[k].horizon) in done + {b} ==> Weighed(p, ss, r, k)
    ensures forall h :: h in r ==> h in weights || h in Map(HorizonOf, members)
  {
    hide Members, BandFor, ShareOf, MemberWeight, Round8, PlaceOf, Map, SignalWeight, ExactWeight;
    r := weights;
    for i := 0 to |members|
      invariant forall k :: 0 <= k < |ss| && BandFor(p, ss[k].horizon) in done ==> Weighed(p, ss, r, k)
      invariant forall k :: 0 <= k < |ss| && BandFor(p, ss[k].horizon) == b && PlaceOf(p, ss, k) < i ==> Weighed(p, ss, r, k)
      invariant forall h :: h in r ==> h in weights || h in Map(HorizonOf, members)
    {
      var h := members[i].horizon;
      assert Map(HorizonOf, members)[i] == h;
      var weight := share * MemberWeight(i, |members|);
      SignalWeightIs(p, ss, b, members, i, share, weight);
      ghost var before := r;
      r := r[h := Round8(weight)];
      forall k | 0 <= k < |ss| && (BandFor(p, ss[k].horizon) in done || (BandFor(p, ss[k].horizon) == b && PlaceOf(p, ss, k) <= i))
        ensures Weighed(p, ss, r, k)
      {
        if BandFor(p, ss[k].horizon) == b && PlaceOf(p, ss, k) == i {
          PlacedWeight(p, ss, k, b, i);
        } else {
          MembersDiffer(p, ss, b, i, k);
          assert Weighed(p, ss, before, k);
        }
      }
    }
  }

  /** The weight dictionary: one entry per signal, its exact weight rounded to eight digits. */
  method SignalWeights(p: Policy, ss: seq<Signal>) returns (weights: map<Horizon, real>)
    requires p.Valid() && Accepted(ss)
    ensures weights.Keys == Elements(Map(HorizonOf, ss))
    ensures forall k :: 0 <= k < |ss| ==> weights[ss[k].horizon] == Round8(ExactWeight(p, ss, k))
  {
    hide BandFor, Members, ShareOf, BandAuthority, Round8, Map, ExactWeight;
    var grouped := GroupSignals(p, ss);
    var order := [Short, Medium, Long];
    var total := 0.0;
    for i := 0 to 3
      invariant total == (if i > 0 then BandAuthority(p, ss, Short) else 0.0) + (if i > 1 then BandAuthority(p, ss, Medium) else 0.0)
                         + (if i > 2 then BandAuthority(p, ss, Long) else 0.0)
    {
      AuthorityPresent(p, ss, order[i]);
      if grouped[order[i]] != [] {
        total := total + p.Authority(order[i]);
      }
    }
    weights := map[];
    ghost var done: set<Band> := {};
    PresentPositive(p, ss);
    for i := 0 to 3
      invariant done == (if i > 0 then {Short} else {}) + (if i > 1 then {Medium} else {}) + (if i > 2 then {Long} else {})
      invariant forall k :: 0 <= k < |ss| && BandFor(p, ss[k].horizon) in done ==> Weighed(p, ss, weights, k)
      invariant weights.Keys <= Elements(Map(HorizonOf, ss))
    {
      var band := order[i];
      if grouped[band] == [] {
        EmptyBand(p, ss, band);
      } else {
        AuthorityPresent(p, ss, band);
        ShareIs(p, ss, band);
        MembersAmong(p, ss, band);
        weights := WeighBand(p, ss, band, grouped[band], p.Authority(band) / total, done, weights);
      }
      done := done + {band};
    }
    forall b: Band ensures b in done { AnyOfThree(b); }
    AllWeighed(p, ss, weights);
  }

  lemma AnyOfThree(b: Band)
    ensures b == Short || b == Medium || b == Long
  {
  }

  lemma AllWeighed(p: Policy, ss: seq<Signal>, weights: map<Horizon, real>)
    requires p.Valid() && forall k :: 0 <= k < |ss| ==> Weighed(p, ss, weights, k)
    requires weights.Keys <= Elements(Map(HorizonOf, ss))
    ensures weights.Keys == Elements(Map(HorizonOf, ss))
    ensures forall k :: 0 <= k < |ss| ==> weights[ss[k].horizon] == Round8(ExactWeight(p, ss, k))
  {
    hide *;
    forall k | 0 <= k < |ss| ensures ss[k].horizon in weights && weights[ss[k].horizon] == Round8(ExactWeight(p, ss, k)) {
      WeighedAt(p, ss, weights, k);
    }
    forall h | h in Elements(Map(HorizonOf, ss)) ensures h in weights {
      var k := HorizonAt(ss, h);
    }
  }

  lemma WeighedAt(p: Policy, ss: seq<Signal>, weights: map<Horizon, real>, k: nat)
    requires p.Valid() && k < |ss| && Weighed(p, ss, weights, k)
    ensures ss[k].horizon in weights && weights[ss[k].horizon] == Round8(ExactWeight(p, ss, k))
  {
    hide ExactWeight, Round8;
  }

  lemma HorizonAt(ss: seq<Signal>, h: Horizon) returns (k: nat)
    requires h in Elements(Map(HorizonOf, ss))
    ensures k < |ss| && ss[k].horizon == h
  {
    k :| 0 <= k < |ss| && HorizonOf(ss[k]) == h;
  }

  lemma AuthorityPresent(p: Policy, ss: seq<Signal>, b: Band)
    ensures BandAuthority(p, ss, b) == if Members(p, ss, b) == [] then 0.0 else p.Authority(b)
  {
  }

  lemma ShareIs(p: Policy, ss: seq<Signal>, b: Band)
    requires p.Valid() && ss != []
    ensures PresentAuthority(p, ss) > 0.0 && ShareOf(p, ss, b) == BandAuthority(p, ss, b) / PresentAuthority(p, ss)
  {
    PresentPositive(p, ss);
  }

  lemma EmptyBand(p: Policy, ss: seq<Signal>, b: Band)
    requires Members(p, ss, b) == []
    ensures forall k :: 0 <= k < |ss| ==> BandFor(p, ss[k].horizon) != b
  {
    forall k | 0 <= k < |ss| ensures BandFor(p, ss[k].horizon) != b {
      assert ss[k] in ss;
      assert ss[k] in Members(p, ss, b) <==> BandFor(p, ss[k].horizon) == b;
    }
  }

  lemma MembersAmong(p: Policy, ss: seq<Signal>, b: Band)
    ensures forall h :: h in Map(HorizonOf, Members(p, ss, b)) ==> h in Elements(Map(HorizonOf, ss))
  {
    var members := Members(p, ss, b);
    forall h | h in Map(HorizonOf, members) ensures h in Elements(Map(HorizonOf, ss)) {
      var i :| 0 <= i < |members| && HorizonOf(members[i]) == h;
      assert members[i] in members;
      var k :| 0 <= k < |ss| && ss[k] == members[i];
      assert Map(HorizonOf, ss)[k] == h;
    }
  }
}
