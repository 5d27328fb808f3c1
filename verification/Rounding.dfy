/** Python's `round` on exact numbers. */
module Rounding {

  /** The nearest integer, ties to the even one. */
  function Nearest(y: real): int {
    var below := y.Floor;
    var rest := y - below as real;
    if rest < 0.5 || (rest == 0.5 && below % 2 == 0) then below else below + 1
  }

  lemma NearestIsClose(y: real)
    ensures -0.5 <= Nearest(y) as real - y <= 0.5
  {
  }

  lemma NearestMonotone(x: real, y: real)
    requires x <= y
    ensures Nearest(x) <= Nearest(y)
  {
    assert x.Floor <= y.Floor;
  }

  lemma NearestFixes(n: int)
    ensures Nearest(n as real) == n
  {
  }
}
