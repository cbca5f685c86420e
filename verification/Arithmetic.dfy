/** Go's number conversions, stated on Dafny's unbounded `int` and exact `real`. */
module Arithmetic {
  const TWO_63 := 0x8000_0000_0000_0000
  const TWO_64 := 0x1_0000_0000_0000_0000

  /** Conversion of a floating value to an integer: truncation toward zero. */
  function Trunc(x: real): int {
    if x >= 0.0 then x.Floor else -((-x).Floor)
  }

  /** Conversion to `int64`; out of range, the amd64 result. */
  function ToInt64(x: real): int {
    var t := Trunc(x);
    if -TWO_63 <= t < TWO_63 then t else -TWO_63
  }

  /** Two's complement wrap-around of an `int64` product. */
  function Wrap64(x: int): (r: int)
    ensures -TWO_63 <= r < TWO_63
    ensures -TWO_63 <= x < TWO_63 ==> r == x
  {
    (x + TWO_63) % TWO_64 - TWO_63
  }

  function Max(a: int, b: int): int { if a >= b then a else b }

  function Min(a: int, b: int): int { if a <= b then a else b }

  function Pow(b: real, n: nat): real {
    if n == 0 then 1.0 else b * Pow(b, n - 1)
  }

  /** A duration times a factor. */
  function Scale(d: int, f: real): real { d as real * f }

  lemma MulNonneg(a: real, b: real)
    requires a >= 0.0 && b >= 0.0
    ensures a * b >= 0.0
  {
  }

  lemma MulPositive(a: real, b: real)
    requires a > 0.0 && b > 0.0
    ensures a * b > 0.0
  {
  }

  /** Comparing a quotient is comparing with a multiple of the divisor. */
  lemma DivideThrough(s: real, m: real, q: real)
    requires m > 0.0
    ensures s / m >= q <==> s >= q * m
  {
    var r := s / m;
    assert r * m == s;
    if r >= q {
      MulNonneg(r - q, m);
      assert (r - q) * m == r * m - q * m;
    } else {
      MulPositive(q - r, m);
      assert (q - r) * m == q * m - r * m;
    }
  }

  lemma ScaleMono(d: int, f: real, g: real)
    requires d >= 0 && f <= g
    ensures Scale(d, f) <= Scale(d, g)
  {
    MulNonneg(d as real, g - f);
  }

  lemma ScaleMonoLeft(d: int, e: int, f: real)
    requires d <= e && f >= 0.0
    ensures Scale(d, f) <= Scale(e, f)
  {
    MulNonneg((e - d) as real, f);
    assert (e - d) as real * f == e as real * f - d as real * f;
  }

  lemma ScaleInt(d: int, n: int)
    ensures Scale(d, n as real) == (d * n) as real
  {
  }

  lemma TruncMono(x: real, y: real)
    requires 0.0 <= x <= y
    ensures 0 <= Trunc(x) <= Trunc(y)
  {
  }

  lemma {:induction false} PowStep(b: real, n: nat)
    requires b >= 1.0
    ensures 1.0 <= Pow(b, n) <= Pow(b, n + 1)
  {
    if n == 0 {
    } else {
      PowStep(b, n - 1);
    }
    MulNonneg(Pow(b, n), b - 1.0);
  }

  lemma {:induction false} PowMono(b: real, m: nat, n: nat)
    requires b >= 1.0 && m <= n
    ensures 1.0 <= Pow(b, m) <= Pow(b, n)
    decreases n - m
  {
    PowStep(b, m);
    if m == n {
    } else {
      PowMono(b, m + 1, n);
    }
  }

  lemma {:induction false} PowAdd(b: real, m: nat, n: nat)
    ensures Pow(b, m + n) == Pow(b, m) * Pow(b, n)
  {
    if m == 0 {
    } else {
      PowAdd(b, m - 1, n);
      assert b * (Pow(b, m - 1) * Pow(b, n)) == Pow(b, m) * Pow(b, n);
    }
  }

  /** Bernoulli's inequality. */
  lemma {:induction false} PowAtLeastLinear(b: real, n: nat)
    requires b >= 1.0
    ensures Pow(b, n) >= 1.0 + Scale(n, b - 1.0)
  {
    if n == 0 {
    } else {
      PowAtLeastLinear(b, n - 1);
      PowMono(b, 0, n - 1);
      MulNonneg(Pow(b, n - 1) - 1.0, b - 1.0);
      assert Pow(b, n) == Pow(b, n - 1) + Pow(b, n - 1) * (b - 1.0);
      assert Scale(n, b - 1.0) == Scale(n - 1, b - 1.0) + (b - 1.0);
    }
  }

  /** Powers of a base above one pass every bound. */
  lemma PowUnbounded(b: real, bound: int) returns (n: nat)
    requires b > 1.0 && bound >= 0
    ensures Pow(b, n) >= bound as real
  {
    var x := bound as real / (b - 1.0);
    assert x * (b - 1.0) == bound as real;
    assert x >= 0.0 by {
      if x < 0.0 {
        MulPositive(-x, b - 1.0);
        assert false;
      }
    }
    n := x.Floor + 1;
    MulNonneg(n as real - x, b - 1.0);
    assert (n as real - x) * (b - 1.0) == Scale(n, b - 1.0) - bound as real;
    PowAtLeastLinear(b, n);
  }
}
