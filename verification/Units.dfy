/** Unit conversion (inventory/services.py). Quantities are kept to three decimals: a stored
    quantity is an int counting thousandths, one not rounded yet is a real of the same scale. */
module Units {
  import opened Wrappers
  import opened Rounding

  datatype UnitMismatch = ZeroFactor | NoConversion(from: nat, to: nat)

  /** Configured conversions: (a, b) -> f means one a is f b. */
  type Conversions = map<(nat, nat), real>

  function Divide(x: real, f: real): real
    requires f != 0.0
  {
    x / f
  }

  function Convert(table: Conversions, quantity: real, from: nat, to: nat): Result<int, UnitMismatch> {
    if from == to then Ok(HalfUp(quantity))
    else if (from, to) in table then Ok(HalfUp(Product(quantity, table[(from, to)])))
    else if (to, from) in table then
      var factor := table[(to, from)];
      if factor == 0.0 then Err(ZeroFactor) else Ok(HalfUp(Divide(quantity, factor)))
    else Err(NoConversion(from, to))
  }

  /** A stored quantity taken along a factor and back. */
  function There(x: int, factor: real): int {
    HalfUp(Product(x as real, factor))
  }

  function Back(y: int, factor: real): int
    requires factor != 0.0
  {
    HalfUp(Divide(y as real, factor))
  }

  predicate OneWay(table: Conversions, from: nat, to: nat) {
    from != to && (from, to) in table && (to, from) !in table && table[(from, to)] > 0.0
  }

  lemma DivideError(x: int, y: int, factor: real, e: real)
    requires factor > 0.0 && e >= 0.0 && -e <= y as real - Product(x as real, factor) <= e
    ensures -Divide(e, factor) <= Divide(y as real, factor) - x as real <= Divide(e, factor)
  {
    var d := y as real - Product(x as real, factor);
    assert Divide(d, factor) == Divide(y as real, factor) - x as real;
    DivideScale(d, e, factor);
    DivideScale(-e, d, factor);
    assert Divide(-e, factor) == -Divide(e, factor);
  }

  lemma DivideScale(x: real, y: real, factor: real)
    requires factor > 0.0 && x <= y
    ensures Divide(x, factor) <= Divide(y, factor)
  {
  }

  /** The way back misses by at most half a thousandth and half a thousandth over the factor. */
  lemma RoundTripError(x: int, factor: real)
    requires factor > 0.0
    ensures var y := Back(There(x, factor), factor);
            -(Divide(0.5, factor) + 0.5) <= y as real - x as real <= Divide(0.5, factor) + 0.5
  {
    DivideError(x, There(x, factor), factor, 0.5);
  }

  /** With a factor of at least one nothing is lost. */
  lemma RoundTripExact(x: int, factor: real)
    requires factor >= 1.0
    ensures Back(There(x, factor), factor) == x
  {
    if factor == 1.0 {
      assert Product(x as real, factor) == x as real;
      HalfUpOfInt(x);
      assert Divide(x as real, factor) == x as real;
    } else {
      DivideError(x, There(x, factor), factor, 0.5);
      BelowHalf(factor);
      NearestIsHalfUp(Divide(There(x, factor) as real, factor), x);
    }
  }

  lemma BelowHalf(factor: real)
    requires factor > 1.0
    ensures Divide(0.5, factor) < 0.5
  {
    var p := Divide(0.5, factor);
    assert Product(p, factor) == 0.5 && p > 0.0;
    assert Product(p, factor) - p == Product(p, factor - 1.0);
    assert Product(p, factor - 1.0) > 0.0;
  }

  /** Below one, exact round trips up to n would need n distinct images, so the image of n is at least n. */
  lemma {:induction false} ExactForcesGrowth(n: nat, factor: real)
    requires 0.0 < factor < 1.0
    requires forall x: nat :: x <= n ==> Back(There(x, factor), factor) == x
    ensures There(n, factor) >= n
  {
    if n == 0 {
      assert Product(0.0, factor) == 0.0;
      HalfUpOfInt(0);
    } else {
      ExactForcesGrowth(n - 1, factor);
      Scale((n - 1) as real, n as real, factor);
      HalfUpMonotone(Product((n - 1) as real, factor), Product(n as real, factor));
      assert Back(There(n - 1, factor), factor) == n - 1 && Back(There(n, factor), factor) == n;
      assert There(n - 1, factor) != There(n, factor);
    }
  }

  lemma SomeLoss(factor: real) returns (x: nat)
    requires 0.0 < factor < 1.0
    ensures Back(There(x, factor), factor) != x
  {
    var gap := 1.0 - factor;
    var n := Ceiling(Divide(1.0, gap)) + 1;
    assert n as real > Divide(1.0, gap) > 0.0;
    assert Product(Divide(1.0, gap), gap) == 1.0;
    Scale(Divide(1.0, gap), n as real, gap);
    assert Product(n as real, gap) == n as real - Product(n as real, factor);
    assert There(n, factor) < n;
    if forall k: nat :: k <= n ==> Back(There(k, factor), factor) == k {
      ExactForcesGrowth(n, factor);
    }
    x :| x <= n && Back(There(x, factor), factor) != x;
  }

  /** Every three-decimal quantity survives the trip if and only if the factor is at least one. */
  lemma RoundTripExactly(factor: real)
    requires factor > 0.0
    ensures (forall x: int :: Back(There(x, factor), factor) == x) <==> factor >= 1.0
  {
    if factor >= 1.0 {
      forall x: int ensures Back(There(x, factor), factor) == x {
        RoundTripExact(x, factor);
      }
    } else {
      var x := SomeLoss(factor);
    }
  }

  /** Convert with only one direction configured is that trip, whichever unit one starts from. */
  lemma ConvertThereAndBack(table: Conversions, x: int, from: nat, to: nat)
    requires OneWay(table, from, to)
    ensures var f := table[(from, to)];
            var there := Convert(table, x as real, from, to);
            && there.Ok?
            && Convert(table, there.value as real, to, from) == Ok(Back(There(x, f), f))
            && (f >= 1.0 ==> Convert(table, there.value as real, to, from) == Ok(x))
  {
    var f := table[(from, to)];
    if f >= 1.0 {
      RoundTripExact(x, f);
    }
  }

  /** A conversion is the nearest thousandth to the quantity itself in one unit, to its product with the factor
      configured for this direction, else to its quotient by the factor of the other one; it is refused only when
      neither is configured or the one needed is zero. */
  lemma ConvertExactly(table: Conversions, quantity: real, from: nat, to: nat, n: int)
    ensures Convert(table, quantity, from, to) == Ok(n)
       <==> if from == to then IsNearest(quantity, n)
            else if (from, to) in table then IsNearest(quantity * table[(from, to)], n)
            else (to, from) in table && table[(to, from)] != 0.0 && IsNearest(quantity / table[(to, from)], n)
    ensures Convert(table, quantity, from, to) == Err(ZeroFactor)
       <==> from != to && (from, to) !in table && (to, from) in table && table[(to, from)] == 0.0
    ensures Convert(table, quantity, from, to) == Err(NoConversion(from, to))
       <==> from != to && (from, to) !in table && (to, from) !in table
  {
    NearestIsHalfUp(quantity, n);
    if (from, to) in table {
      NearestIsHalfUp(Product(quantity, table[(from, to)]), n);
    } else if (to, from) in table && table[(to, from)] != 0.0 {
      NearestIsHalfUp(Divide(quantity, table[(to, from)]), n);
    }
  }
}
