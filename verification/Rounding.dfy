/** Decimal rounding as the back end uses it: ROUND_HALF_UP of Python's decimal
    module, that is the nearest integer with ties going away from zero.
    A caller that rounds to a coarser or finer place scales its argument first. */
module Rounding {

  /** What ROUND_HALF_UP means, without saying how it is computed. */
  predicate IsNearest(x: real, n: int) {
    if x >= 0.0 then -0.5 < n as real - x <= 0.5 else -0.5 <= n as real - x < 0.5
  }

  function HalfUp(x: real): (n: int)
    ensures IsNearest(x, n)
  {
    if x >= 0.0 then (x + 0.5).Floor else -((0.5 - x).Floor)
  }

  function Ceiling(x: real): (n: int)
    ensures x <= n as real < x + 1.0
  {
    -((-x).Floor)
  }

  lemma NearestIsHalfUp(x: real, n: int)
    ensures IsNearest(x, n) <==> n == HalfUp(x)
  {
    var m := HalfUp(x);
    if IsNearest(x, n) {
      assert -1.0 < (n - m) as real < 1.0;
    }
  }

  lemma HalfUpOfInt(n: int)
    ensures HalfUp(n as real) == n
  {
    NearestIsHalfUp(n as real, n);
  }

  lemma HalfUpMonotone(x: real, y: real)
    requires x <= y
    ensures HalfUp(x) <= HalfUp(y)
  {
  }

  lemma HalfUpShift(x: real, k: int)
    requires x >= 0.0 && k >= 0
    ensures HalfUp(x + k as real) == HalfUp(x) + k
  {
    NearestIsHalfUp(x + k as real, HalfUp(x) + k);
  }

  lemma HalfUpSign(x: real)
    ensures x >= 0.0 ==> HalfUp(x) >= 0
    ensures x <= 0.0 ==> HalfUp(x) <= 0
  {
    HalfUpOfInt(0);
    if x >= 0.0 { HalfUpMonotone(0.0, x); } else { HalfUpMonotone(x, 0.0); }
  }

  // Products get a name so that the solver can treat them as terms.

  function Product(x: real, y: real): real {
    x * y
  }

  lemma Scale(x: real, y: real, s: real)
    requires x <= y && s >= 0.0
    ensures Product(x, s) <= Product(y, s)
  {
  }

  function AbsReal(x: real): real {
    if x < 0.0 then -x else x
  }
}
