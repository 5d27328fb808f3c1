/** Facts about products, quotients and weighted sums of reals that the solver is better told than left to find. */
module Reals {

  function Abs(x: real): (r: real)
    ensures r >= 0.0 && r >= x && r >= -x
  {
    if x < 0.0 then -x else x
  }

  function Max(a: real, b: real): real {
    if a < b then b else a
  }

  function Min(a: real, b: real): real {
    if b < a then b else a
  }

  lemma Distribute(a: real, b: real, c: real)
    ensures a * b + a * c == a * (b + c)
  {
  }

  lemma Commutes(a: real, b: real)
    ensures a * b == b * a
  {
  }

  lemma Scale(t: real, a: real, b: real)
    requires t > 0.0 && a < b
    ensures t * a < t * b
  {
  }

  lemma ScaleBounds(low: real, v: real, high: real, w: real)
    requires low <= v <= high && w >= 0.0
    ensures low * w <= v * w <= high * w
  {
  }

  lemma ProductSign(a: real, b: real)
    requires a >= 0.0 && b >= 0.0
    ensures a * b >= 0.0 && (a > 0.0 && b > 0.0 ==> a * b > 0.0)
  {
  }

  lemma QuotientSign(a: real, b: real)
    requires a >= 0.0 && b > 0.0
    ensures a / b >= 0.0 && (a > 0.0 ==> a / b > 0.0)
  {
  }

  lemma QuotientAbove(x: real, t: real, c: real)
    requires t > 0.0
    ensures x / t > c <==> x > c * t
  {
    var q := x / t;
    assert q * t == x;
    if q > c { Scale(t, c, q); }
    if q < c { Scale(t, q, c); }
  }

  // ----- Sums within bounds -----

  /** A sum between two multiples of its total weight. */
  predicate Between(low: real, sum: real, high: real, total: real) {
    low * total <= sum <= high * total
  }

  lemma BetweenZero(low: real, high: real)
    ensures Between(low, 0.0, high, 0.0)
  {
  }

  lemma BetweenStep(low: real, high: real, total: real, sum: real, a: real, c: real)
    requires Between(low, sum, high, total) && Between(low, c, high, a)
    ensures Between(low, sum + c, high, total + a)
  {
    Distribute(low, total, a);
    Distribute(high, total, a);
  }

  lemma QuotientBounds(low: real, s: real, high: real, w: real)
    requires w > 0.0 && Between(low, s, high, w)
    ensures low <= s / w <= high
  {
    var q := s / w;
    assert q * w == s;
    if q < low { Scale(w, q, low); }
    if high < q { Scale(w, high, q); }
  }

  // ----- Plain sums -----

  function SumReals(xs: seq<real>): real {
    if xs == [] then 0.0 else SumReals(xs[..|xs| - 1]) + xs[|xs| - 1]
  }

  lemma {:induction false} SumBetween(xs: seq<real>, low: real, high: real)
    requires forall x :: x in xs ==> low <= x <= high
    ensures Between(low, SumReals(xs), high, |xs| as real)
  {
    if xs == [] {
      BetweenZero(low, high);
    } else {
      var n := |xs| - 1;
      assert xs[n] in xs && forall x :: x in xs[..n] ==> x in xs;
      SumBetween(xs[..n], low, high);
      BetweenStep(low, high, n as real, SumReals(xs[..n]), 1.0, xs[n]);
    }
  }
}
