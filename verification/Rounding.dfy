/** Four decimals: `Math.round(x * 1e4) / 1e4` over exact reals, counted in ten-thousandths where sums matter. */
module Rounding {
  /** The nearest number of ten-thousandths, halves upwards. */
  function Ticks(x: real): int {
    (x * 10000.0 + 0.5).Floor
  }

  function Amount(t: int): real {
    t as real / 10000.0
  }

  function Round4(x: real): real {
    Amount(Ticks(x))
  }

  /** The nearest, and the higher of the two when the number is half way. */
  lemma TicksIsNearest(x: real, t: int)
    ensures Ticks(x) == t <==> t as real - 0.5 <= x * 10000.0 < t as real + 0.5
  {
    var f := x * 10000.0 + 0.5;
    assert f.Floor as real <= f < f.Floor as real + 1.0;
  }

  lemma TicksMonotone(x: real, y: real)
    requires x <= y
    ensures Ticks(x) <= Ticks(y) && Round4(x) <= Round4(y)
  {
    assert x * 10000.0 + 0.5 <= y * 10000.0 + 0.5;
    assert Ticks(x) as real <= y * 10000.0 + 0.5;
  }

  /** A whole number of ten-thousandths is left as it is, so rounding a sum of rounded amounts does nothing. */
  lemma TicksOfAmount(t: int)
    ensures Ticks(Amount(t)) == t
  {
    assert Amount(t) * 10000.0 == t as real;
  }

  lemma RoundingError(x: real)
    ensures -0.00005 <= Round4(x) - x <= 0.00005
  {
    var t := Ticks(x);
    assert t as real <= x * 10000.0 + 0.5 < t as real + 1.0;
  }

  lemma NonNegative(x: real)
    requires x >= 0.0
    ensures Ticks(x) >= 0 && Round4(x) >= 0.0
  {
    TicksMonotone(0.0, x);
  }

  lemma NonNegativeProduct(a: real, b: real)
    requires a >= 0.0 && b >= 0.0
    ensures a * b >= 0.0
  {
  }
}
