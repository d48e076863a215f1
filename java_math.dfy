/** Java's arithmetic helpers over doubles, modelled on `real`. */
module JavaMath {

  /** `Math.min(a, b)`. */
  function Min(a: real, b: real): (r: real)
    ensures r <= a && r <= b
    ensures r == a || r == b
  {
    if a <= b then a else b
  }

  /** `Math.max(a, b)`. */
  function Max(a: real, b: real): (r: real)
    ensures a <= r && b <= r
    ensures r == a || r == b
  {
    if a >= b then a else b
  }

  /** `Math.abs(a)`. */
  function Abs(a: real): (r: real)
    ensures r >= 0.0
    ensures r == a || r == -a
  {
    if a >= 0.0 then a else -a
  }

  /** Java's cast of a double to an integer rounds toward zero. */
  function Trunc(q: real): (n: int)
    ensures q >= 0.0 ==> 0 <= n && n as real <= q < n as real + 1.0
    ensures q < 0.0 ==> n <= 0 && n as real - 1.0 < q <= n as real
  {
    if q >= 0.0 then q.Floor else -((-q).Floor)
  }

  /** Java's `%` on doubles: the remainder of a division truncated toward zero, so it
      carries the sign of the dividend and is smaller in size than the divisor. */
  function FMod(x: real, y: real): (r: real)
    requires y != 0.0
    ensures x >= 0.0 ==> 0.0 <= r < Abs(y)
    ensures x <= 0.0 ==> -Abs(y) < r <= 0.0
  {
    RemainderBounds(x, y);
    x - y * Trunc(x / y) as real
  }

  /** The bounds of a truncated remainder, case by case on the signs. */
  lemma RemainderBounds(x: real, y: real)
    requires y != 0.0
    ensures var r := x - y * Trunc(x / y) as real;
            && (x >= 0.0 ==> 0.0 <= r < Abs(y))
            && (x <= 0.0 ==> -Abs(y) < r <= 0.0)
  {
    var q := x / y;
    var f := q - Trunc(q) as real;
    assert x - y * Trunc(q) as real == y * f;
    QuotientSign(x, y);
    FractionBounds(x, y, f);
  }

  /** y times the fractional part of a quotient that has the sign of x is bounded like
      the remainder of x by y. */
  lemma FractionBounds(x: real, y: real, f: real)
    requires y != 0.0 && -1.0 < f < 1.0
    requires (x >= 0.0 && y > 0.0) || (x <= 0.0 && y < 0.0) ==> f >= 0.0
    requires (x >= 0.0 && y < 0.0) || (x <= 0.0 && y > 0.0) ==> f <= 0.0
    ensures x >= 0.0 ==> 0.0 <= y * f < Abs(y)
    ensures x <= 0.0 ==> -Abs(y) < y * f <= 0.0
  {
    if x == 0.0 {
      assert f == 0.0;
    } else if y > 0.0 {
      ScaledFraction(y, f);
      if x > 0.0 {
        assert f >= 0.0;
        assert 0.0 <= y * f < y;
      } else {
        assert f <= 0.0;
        assert -y < y * f <= 0.0;
      }
    } else {
      ScaledFraction(y, f);
      if x > 0.0 {
        assert f <= 0.0;
        assert 0.0 <= y * f < -y;
      } else {
        assert f >= 0.0;
        assert y < y * f <= 0.0;
      }
    }
  }

  /** The quotient has the sign of the dividend times that of the divisor. */
  lemma QuotientSign(x: real, y: real)
    requires y != 0.0
    ensures (x >= 0.0 && y > 0.0) || (x <= 0.0 && y < 0.0) ==> x / y >= 0.0
    ensures (x >= 0.0 && y < 0.0) || (x <= 0.0 && y > 0.0) ==> x / y <= 0.0
  {
    assert x == y * (x / y);
  }

  /** A fraction of y of size below one is smaller in size than y, with the sign of y
      times that of the fraction. */
  lemma ScaledFraction(y: real, f: real)
    requires y != 0.0 && -1.0 < f < 1.0
    ensures y > 0.0 && f >= 0.0 ==> 0.0 <= y * f < y
    ensures y > 0.0 && f <= 0.0 ==> -y < y * f <= 0.0
    ensures y < 0.0 && f >= 0.0 ==> y < y * f <= 0.0
    ensures y < 0.0 && f <= 0.0 ==> 0.0 <= y * f < -y
  {
    if y > 0.0 {
      assert y * (1.0 - f) > 0.0;
      assert y * (1.0 + f) > 0.0;
    } else {
      assert y * (1.0 - f) < 0.0;
      assert y * (1.0 + f) < 0.0;
    }
  }

  /** Adding one period to a non-negative dividend leaves the remainder unchanged. */
  lemma FModPeriodic(x: real, y: real)
    requires x >= 0.0 && y > 0.0
    ensures FMod(x + y, y) == FMod(x, y)
  {
    var q := x / y;
    assert (x + y) / y == x / y + y / y;
    assert y / y == 1.0;
    assert (q + 1.0).Floor == q.Floor + 1;
    assert Trunc((x + y) / y) == Trunc(q) + 1;
  }

  /** k periods of length y, added up one at a time. */
  function Periods(y: real, k: nat): real {
    if k == 0 then 0.0 else Periods(y, k - 1) + y
  }

  /** k periods of length y span k * y. */
  lemma {:induction false} PeriodsLength(y: real, k: nat)
    ensures Periods(y, k) == k as real * y
  {
    if k > 0 {
      PeriodsLength(y, k - 1);
      assert (k - 1) as real * y + y == k as real * y;
    }
  }

  /** Adding any whole number of periods to a non-negative dividend leaves the remainder
      unchanged. */
  lemma {:induction false} FModShift(x: real, y: real, k: nat)
    requires x >= 0.0 && y > 0.0
    ensures FMod(x + k as real * y, y) == FMod(x, y)
  {
    PeriodsLength(y, k);
    FModPeriods(x, y, k);
  }

  lemma {:induction false} FModPeriods(x: real, y: real, k: nat)
    requires x >= 0.0 && y > 0.0
    ensures x + Periods(y, k) >= 0.0
    ensures FMod(x + Periods(y, k), y) == FMod(x, y)
  {
    if k > 0 {
      FModPeriods(x, y, k - 1);
      FModPeriodic(x + Periods(y, k - 1), y);
    }
  }

  /** A quotient is zero exactly when its dividend is. */
  lemma ZeroQuotient(a: real, d: real)
    requires d != 0.0
    ensures a / d == 0.0 <==> a == 0.0
  {
    if a / d == 0.0 {
      assert a == (a / d) * d;
    }
  }
}
