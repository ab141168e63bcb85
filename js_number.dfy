/**
 * The JavaScript number operations the application relies on, over exact
 * rationals: `Math.round`, `Math.floor` of a quotient, `Math.min`,
 * `Math.max`, and the `x || 0` fallback for a nullable number.
 */
module JsNumber {
  import opened Wrappers

  /** `Math.round(x)`: the nearest integer, halves rounded towards +infinity. */
  function Round(x: real): (r: int)
    ensures x - 0.5 < r as real <= x + 0.5
  {
    (x + 0.5).Floor
  }

  /** `Math.round` never decreases when its argument grows. */
  lemma RoundMonotone(x: real, y: real)
    requires x <= y
    ensures Round(x) <= Round(y)
  {
  }

  /** `Math.round(100 * c / a)` for integers, as one integer division (a > 0). */
  lemma RoundPercent(c: int, a: int)
    requires a > 0
    ensures Round(100.0 * (c as real) / (a as real)) == (200 * c + a) / (2 * a)
  {
    var C, A := c as real, a as real;
    var x := 100.0 * C / A;
    assert x * A == 100.0 * C;
    HalfStep(x, A, C);
    QuotientOfProduct(x + 0.5, 2.0 * A, (200 * c + a) as real);
    FloorOfQuotient(200 * c + a, 2 * a);
  }

  /**
   * `Math.round((part / whole) * 100)` for integers (whole > 0): one integer
   * division, and a percentage in 0..100 when 0 <= part <= whole.
   */
  function Percent(part: int, whole: int): (r: int)
    requires whole > 0
    ensures r == (200 * part + whole) / (2 * whole)
    ensures 0 <= part <= whole ==> 0 <= r <= 100
  {
    var x := (part as real) / (whole as real) * 100.0;
    assert x == 100.0 * (part as real) / (whole as real);
    RoundPercent(part, whole);
    PercentBounds(part, whole);
    Round(x)
  }

  /** `Math.round(p / q)` for integers (q > 0), as one integer division. */
  function RoundQuotient(p: int, q: int): (r: int)
    requires q > 0
    ensures r == (2 * p + q) / (2 * q)
    ensures r == Round((p as real) / (q as real))
  {
    var x := (p as real) / (q as real);
    assert x * (q as real) == p as real;
    assert (x + 0.5) * (2.0 * (q as real)) == (2 * p + q) as real;
    QuotientOfProduct(x + 0.5, 2.0 * (q as real), (2 * p + q) as real);
    FloorOfQuotient(2 * p + q, 2 * q);
    Round(x)
  }

  lemma PercentBounds(part: int, whole: int)
    requires whole > 0
    ensures 0 <= part <= whole ==> 0 <= (200 * part + whole) / (2 * whole) <= 100
  {
    if 0 <= part <= whole {
      DivBetween(200 * part + whole, 2 * whole, 0, 100);
    }
  }

  /** A quotient lies between any bounds that bracket the dividend. */
  lemma DivBetween(n: int, d: int, lo: int, hi: int)
    requires d > 0 && lo * d <= n < (hi + 1) * d
    ensures lo <= n / d <= hi
  {
    var q := n / d;
    assert q * d <= n < (q + 1) * d by {
      assert n == d * q + n % d;
    }
    if q < lo {
      MulMonotone(q + 1, lo, d);
    }
    if q > hi {
      MulMonotone(hi + 1, q, d);
    }
  }

  lemma MulMonotone(a: int, b: int, d: int)
    requires a <= b && d > 0
    ensures a * d <= b * d
  {
    assert b * d - a * d == (b - a) * d;
  }

  lemma HalfStep(x: real, A: real, C: real)
    requires x * A == 100.0 * C
    ensures (x + 0.5) * (2.0 * A) == 200.0 * C + A
  {
  }

  lemma QuotientOfProduct(y: real, k: real, n: real)
    requires k != 0.0 && y * k == n
    ensures y == n / k
  {
  }

  /** The floor of an exact quotient is the Euclidean integer quotient. */
  lemma FloorOfQuotient(n: int, d: int)
    requires d > 0
    ensures ((n as real) / (d as real)).Floor == n / d
  {
    var q := n / d;
    assert q * d <= n < (q + 1) * d by {
      assert n == d * q + n % d;
    }
    QuotientAtLeast(n, d, q);
    QuotientBelow(n, d, q + 1);
    FloorIs((n as real) / (d as real), q);
  }

  lemma QuotientAtLeast(n: int, d: int, q: int)
    requires d > 0 && q * d <= n
    ensures q as real <= (n as real) / (d as real)
  {
    var D := d as real;
    CastMul(q, d);
    DivTimes(n as real, D);
    LessTimesPositive(q as real, (n as real) / D, D);
  }

  lemma QuotientBelow(n: int, d: int, p: int)
    requires d > 0 && n < p * d
    ensures (n as real) / (d as real) < p as real
  {
    var D := d as real;
    CastMul(p, d);
    DivTimes(n as real, D);
    LessTimesPositive((n as real) / D, p as real, D);
  }

  lemma DivTimes(x: real, k: real)
    requires k != 0.0
    ensures (x / k) * k == x
  {
  }

  /** The floor is the integer just at or below. */
  lemma FloorIs(y: real, q: int)
    requires q as real <= y < (q as real) + 1.0
    ensures y.Floor == q
  {
  }

  lemma CastMul(i: int, j: int)
    ensures (i * j) as real == (i as real) * (j as real)
  {
  }

  lemma LessTimesPositive(u: real, v: real, k: real)
    requires k > 0.0
    ensures u * k <= v * k ==> u <= v
    ensures u * k < v * k ==> u < v
  {
  }

  /** `Math.floor(n / d)` for integers, d > 0. */
  function FloorDiv(n: int, d: int): (r: int)
    requires d > 0
    ensures r * d <= n < (r + 1) * d
  {
    n / d
  }

  /** The quotient is the q with q * d <= n < (q + 1) * d. */
  lemma DivIs(n: int, d: int, q: int)
    requires d > 0 && q * d <= n < (q + 1) * d
    ensures n / d == q
  {
    var r := FloorDiv(n, d);
    MulCancel(q, r + 1, d);
    MulCancel(r, q + 1, d);
  }

  lemma MulCancel(a: int, b: int, d: int)
    requires d > 0
    ensures a * d < b * d ==> a < b
  {
    if a >= b {
      assert a * d - b * d == (a - b) * d;
    }
  }

  function Min(a: int, b: int): (r: int)
    ensures r <= a && r <= b && (r == a || r == b)
  {
    if a <= b then a else b
  }

  function Max(a: int, b: int): (r: int)
    ensures r >= a && r >= b && (r == a || r == b)
  {
    if a >= b then a else b
  }

  /** `x || 0` on a nullable number: null (and 0) give 0. */
  function OrZero(x: Option<int>): (r: int)
    ensures x.Some? ==> r == x.value
    ensures x.None? ==> r == 0
  {
    x.GetOr(0)
  }

  /** `x || d` on a nullable number: null and 0 both fall back to `d`. */
  function OrDefault(x: Option<int>, d: int): (r: int)
    ensures r != 0 || d == 0
    ensures x.Some? && x.value != 0 ==> r == x.value
    ensures !(x.Some? && x.value != 0) ==> r == d
  {
    if x.Some? && x.value != 0 then x.value else d
  }
}
