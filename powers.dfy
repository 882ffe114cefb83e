/** `Math.pow` restricted to natural exponents, on exact reals. */
module Powers {

  function Pow(x: real, n: nat): real
  {
    if n == 0 then 1.0 else x * Pow(x, n - 1)
  }

  /** Growth over `a + b` periods is growth over `a` periods followed by growth over `b`. */
  lemma {:induction false} PowAdd(x: real, a: nat, b: nat)
    ensures Pow(x, a + b) == Pow(x, a) * Pow(x, b)
  {
    if a > 0 {
      PowAdd(x, a - 1, b);
      assert Pow(x, a + b) == x * Pow(x, a - 1 + b);
    }
  }

  /** Growing `c` over `a + b` periods is growing it over `a` periods, then the result over `b`. */
  lemma ScaledPowAdd(c: real, x: real, a: nat, b: nat)
    ensures c * Pow(x, a + b) == (c * Pow(x, a)) * Pow(x, b)
  {
    var p, q := Pow(x, a), Pow(x, b);
    PowAdd(x, a, b);
    assert (c * p) * q == c * (p * q);
  }

  /** Scaling by a non-negative factor keeps the order. */
  lemma ScaleMonotone(c: real, x: real, y: real)
    requires c >= 0.0 && x <= y
    ensures c * x <= c * y
  {
    assert c * y - c * x == c * (y - x);
  }

  /** Compounding at a non-negative rate never loses value. */
  lemma {:induction false} PowAtLeastOne(x: real, n: nat)
    requires x >= 1.0
    ensures Pow(x, n) >= 1.0
  {
    if n > 0 {
      PowAtLeastOne(x, n - 1);
      assert x * Pow(x, n - 1) >= 1.0 * Pow(x, n - 1);
    }
  }

  /** A non-negative principal grown by a factor of at least one per period is never less than the principal. */
  lemma GrowthKeepsPrincipal(c: real, x: real, n: nat)
    ensures c >= 0.0 && x >= 1.0 ==> c * Pow(x, n) >= c
  {
    if c >= 0.0 && x >= 1.0 {
      PowAtLeastOne(x, n);
      ScaleMonotone(c, 1.0, Pow(x, n));
    }
  }

  /** A higher growth factor gives a higher (or equal) result over the same term. */
  lemma {:induction false} PowMonotoneBase(x: real, y: real, n: nat)
    requires 0.0 <= x <= y
    ensures 0.0 <= Pow(x, n) <= Pow(y, n)
  {
    if n > 0 {
      PowMonotoneBase(x, y, n - 1);
      assert x * Pow(x, n - 1) <= y * Pow(x, n - 1);
      assert y * Pow(x, n - 1) <= y * Pow(y, n - 1);
    }
  }

  /** With a growth factor of at least one, a longer term never gives less. */
  lemma {:induction false} PowMonotoneExponent(x: real, m: nat, n: nat)
    requires x >= 1.0 && m <= n
    ensures Pow(x, m) <= Pow(x, n)
  {
    PowAdd(x, m, n - m);
    PowAtLeastOne(x, n - m);
    PowAtLeastOne(x, m);
    assert Pow(x, m) * 1.0 <= Pow(x, m) * Pow(x, n - m);
  }

  /** Compounding `a * b` periods is compounding `b` times a growth of `a` periods. */
  lemma {:induction false} PowMul(x: real, a: nat, b: nat)
    ensures Pow(x, a * b) == Pow(Pow(x, a), b)
  {
    if b > 0 {
      var c := a * (b - 1);
      PowMul(x, a, b - 1);
      assert a * b == a + c;
      PowAdd(x, a, c);
    }
  }

  /** One growth period applied to Bernoulli's bound for `k` periods gives the bound for `k + 1`. */
  lemma BernoulliStep(x: real, k: real, p: real)
    requires x >= -1.0 && k >= 0.0 && p >= 1.0 + k * x
    ensures (1.0 + x) * p >= 1.0 + (k + 1.0) * x
  {
    var y, d := 1.0 + x, p - (1.0 + k * x);
    assert y * p == y * d + y * (1.0 + k * x);
    assert y * d >= 0.0;
    assert y * (1.0 + k * x) == 1.0 + (k + 1.0) * x + k * (x * x);
    assert k * (x * x) >= 0.0;
  }

  /** Bernoulli's inequality: `n` periods at `x` give at least `1 + n * x`. */
  lemma {:induction false} PowBernoulli(x: real, n: nat)
    requires x >= -1.0
    ensures Pow(1.0 + x, n) >= 1.0 + n as real * x
  {
    if n > 0 {
      PowBernoulli(x, n - 1);
      BernoulliStep(x, (n - 1) as real, Pow(1.0 + x, n - 1));
      assert (n - 1) as real + 1.0 == n as real;
    }
  }
}
