/** Python's built-in `round(x, ndigits)`, applied to an exact real: the
    nearest multiple of 10^-ndigits, ties going to the even neighbour. The
    test of fractional quotients observes the result through it. */
module Rounding {

  function Abs(x: real): (r: real)
    ensures r >= 0.0
  {
    if x < 0.0 then -x else x
  }

  /** Distance from the integer `k` to `y`. */
  function Dist(k: int, y: real): (d: real)
    ensures d >= 0.0
  {
    Abs(k as real - y)
  }

  /** 10^n, the scale of the n-th decimal digit. */
  function Pow10(n: nat): (p: real)
    ensures p >= 1.0
  {
    if n == 0 then 1.0 else 10.0 * Pow10(n - 1)
  }

  /** `x` with the decimal point moved `n` digits to the right. */
  function Shift(x: real, n: nat): (y: real) {
    x * Pow10(n)
  }

  /** Round to an integer, halves to the even neighbour (banker's rounding). */
  function RoundHalfEven(y: real): (m: int)
    ensures y.Floor <= m <= y.Floor + 1
  {
    var f := y.Floor;
    var frac := y - f as real;
    if frac < 0.5 then f
    else if frac > 0.5 then f + 1
    else if f % 2 == 0 then f
    else f + 1
  }

  /** `round(x, n)` for a non-negative number of digits. */
  function Round(x: real, n: nat): (r: real) {
    RoundHalfEven(Shift(x, n)) as real / Pow10(n)
  }

  /** The independent definition: `m` is an integer nearest to `y`, and the
      even one of the two when `y` lies halfway between two integers. */
  ghost predicate IsNearestEven(y: real, m: int) {
    && (forall k: int :: Dist(m, y) <= Dist(k, y))
    && (Dist(m, y) == 0.5 ==> m % 2 == 0)
  }

  /** No integer is closer to `y` than its rounding. */
  lemma RoundHalfEvenNearest(y: real, k: int)
    ensures Dist(RoundHalfEven(y), y) <= Dist(k, y)
  {
    var f := y.Floor;
    if k <= f {
      assert Dist(k, y) >= y - f as real;
    } else {
      assert Dist(k, y) >= (f + 1) as real - y;
    }
  }

  /** `RoundHalfEven` is exactly the nearest integer with ties to even. */
  lemma RoundHalfEvenIsNearestEven(y: real, m: int)
    ensures IsNearestEven(y, m) <==> m == RoundHalfEven(y)
  {
    var r := RoundHalfEven(y);
    forall k: int
      ensures Dist(r, y) <= Dist(k, y)
    {
      RoundHalfEvenNearest(y, k);
    }
    if IsNearestEven(y, m) {
      var f := y.Floor;
      assert Dist(m, y) <= Dist(f, y);
      assert Dist(m, y) <= Dist(f + 1, y);
    }
  }

  /** Dividing by a positive number keeps the order. */
  lemma DivideMonotone(a: real, b: real, p: real)
    requires a <= b && p > 0.0
    ensures a / p <= b / p
  {
    assert b / p - a / p == (b - a) / p;
  }

  /** `round(x, n)` moves `x` by at most half a unit in the last digit kept.
      Induction on `n` is switched off: the fact holds for every scale alike. */
  lemma {:induction false} RoundError(x: real, n: nat)
    ensures Abs(Round(x, n) - x) <= 0.5 / Pow10(n)
  {
    var p := Pow10(n);
    var y := Shift(x, n);
    var m := RoundHalfEven(y);
    var f := y.Floor;
    RoundHalfEvenNearest(y, f);
    RoundHalfEvenNearest(y, f + 1);
    assert Dist(m, y) <= 0.5;
    assert Round(x, n) - x == (m as real - y) / p;
    DivideMonotone(Abs(m as real - y), 0.5, p);
    assert Abs((m as real - y) / p) == Abs(m as real - y) / p;
  }
}
