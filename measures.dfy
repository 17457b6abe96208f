/** Counting how many `unit`-sized pieces a positive real quantity is cut
    into. This is the integer measure that the scheduler's loops over real
    hours and miles decrease. */
module Measures {

  function Min(a: real, b: real): (m: real)
    ensures m <= a && m <= b && (m == a || m == b)
  {
    if a <= b then a else b
  }

  function Max(a: real, b: real): (m: real)
    ensures m >= a && m >= b && (m == a || m == b)
  {
    if a >= b then a else b
  }

  /** Lowering by `a` and then by `b`, each time never below zero, is lowering
      by `a + b` once. */
  lemma FloorAtZeroTwice(c: real, a: real, b: real)
    requires a >= 0.0 && b >= 0.0
    ensures Max(0.0, Max(0.0, c - a) - b) == Max(0.0, c - (a + b))
  {
  }

  /** The least integer not below `y`. */
  function Ceil(y: real): (n: int)
    ensures y <= n as real < y + 1.0
  {
    -((-y).Floor)
  }

  /** ⌈x / unit⌉ pieces for a positive `x`, none otherwise. */
  function Units(x: real, unit: real): (n: nat)
    requires unit > 0.0
    ensures x > 0.0 <==> n >= 1
  {
    if x <= 0.0 then 0 else Ceil(x / unit)
  }

  lemma UnitsOne(x: real, unit: real)
    requires 0.0 < x <= unit
    ensures Units(x, unit) == 1
  {
    assert 0.0 < x / unit <= 1.0;
  }

  lemma UnitsPeel(x: real, unit: real)
    requires unit > 0.0 && x > unit
    ensures Units(x - unit, unit) == Units(x, unit) - 1
  {
    var q := x / unit;
    assert q * unit == x;
    DivideExactly(x - unit, unit, q - 1.0);
  }

  lemma DivideExactly(a: real, unit: real, q: real)
    requires unit > 0.0 && q * unit == a
    ensures a / unit == q
  {
  }

  lemma UnitsMonotonic(y: real, x: real, unit: real)
    requires unit > 0.0 && y <= x
    ensures Units(y, unit) <= Units(x, unit)
  {
    if y > 0.0 {
      assert y / unit <= x / unit;
    }
  }

  /** Taking away at least one whole unit, or everything, lowers the count. */
  lemma UnitsShrink(y: real, x: real, unit: real)
    requires unit > 0.0 && x > 0.0
    requires y <= 0.0 || y <= x - unit
    ensures Units(y, unit) < Units(x, unit)
  {
    if y > 0.0 {
      UnitsMonotonic(y, x - unit, unit);
      UnitsPeel(x, unit);
    }
  }
}
