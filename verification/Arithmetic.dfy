/** Quotients and remainders by numbers that are not constants. */
module Arithmetic {

  function Min(a: int, b: int): int { if a < b then a else b }
  function Max(a: int, b: int): int { if a < b then b else a }

  lemma MulAtLeast(d: int, k: int)
    requires d > 0
    ensures k >= 1 ==> d * k >= d
    ensures k <= -1 ==> d * k <= -d
  {
    if k >= 1 {
      assert d * k == d + d * (k - 1);
    } else if k <= -1 {
      assert d * k == -d + d * (k + 1);
    }
  }

  /** Quotient and remainder are what multiplies out. */
  lemma DivUnique(x: nat, d: nat, q: nat, r: nat)
    requires d > 0 && x == d * q + r && r < d
    ensures x / d == q && x % d == r
  {
    assert x == d * (x / d) + x % d;
    assert d * (q - x / d) == x % d - r;
    MulAtLeast(d, q - x / d);
  }

  lemma MulMod(q: nat, d: nat, r: nat)
    requires r < d
    ensures (q * d + r) % d == r
  {
    DivUnique(q * d + r, d, q, r);
  }

  /** The remainder, by its bounds. */
  function Low(i: nat, m: nat): (r: nat)
    requires m > 0
    ensures r == i % m && r < m && r <= i
  {
    LowAtMost(i, m);
    i % m
  }

  lemma LowAtMost(i: nat, m: nat)
    requires m > 0
    ensures i % m <= i
  {
    assert i == m * (i / m) + i % m;
    if i / m <= -1 {
      MulAtLeast(m, i / m);
    } else if i / m >= 1 {
      MulAtLeast(m, i / m);
    }
  }

  lemma SmallMod(x: nat, m: nat)
    requires x < m
    ensures x % m == x
  {
    DivUnique(x, m, 0, x);
  }

  lemma AddMod(x: nat, m: nat)
    requires m > 0
    ensures (x + m) % m == x % m
  {
    assert x == m * (x / m) + x % m;
    assert m * (x / m + 1) == m * (x / m) + m;
    LowAtMost(x, m);
    QuotientIsNat(x, m);
    DivUnique(x + m, m, x / m + 1, x % m);
  }

  lemma QuotientIsNat(x: nat, m: nat)
    requires m > 0
    ensures x / m >= 0
  {
    assert x == m * (x / m) + x % m;
    MulAtLeast(m, x / m);
  }

  lemma ModDiffers(a: nat, b: nat, m: nat)
    requires m > 0 && a < b < a + m
    ensures a % m != b % m
  {
    var q, r, d := a / m, a % m, b - a;
    QuotientIsNat(a, m);
    assert a == m * q + r;
    if r + d < m {
      DivUnique(b, m, q, r + d);
    } else {
      assert m * (q + 1) == m * q + m;
      DivUnique(b, m, q + 1, r + d - m);
    }
  }

  /** A remainder by a multiple of `m` has the same remainder by `m`. */
  lemma ModOfMod(x: nat, m: nat, c: nat)
    requires m > 0 && c > 0
    ensures m * c > 0 && (x % (m * c)) % m == x % m
  {
    MulAtLeast(m, c);
    var r := x % (m * c);
    QuotientIsNat(x, m * c);
    QuotientIsNat(r, m);
    assert x == (m * c) * (x / (m * c)) + r && r == m * (r / m) + r % m;
    ModSplit(x, m, c, x / (m * c), r / m, r % m);
  }

  lemma ModSplit(x: nat, m: nat, c: nat, q: nat, a: nat, b: nat)
    requires x == (m * c) * q + (m * a + b) && b < m
    ensures x % m == b
  {
    assert (m * c) * q == m * (c * q);
    assert m * (c * q + a) == m * (c * q) + m * a;
    DivUnique(x, m, c * q + a, b);
  }

  lemma EndAligned(off: nat, base: nat, b: nat)
    requires b > 0 && base % b == 0 && off == base + b
    ensures off % b == 0
  {
    AddMod(base, b);
  }

  lemma MultipleAligned(q: nat, n: nat, b: nat)
    requires b > 0
    ensures (q * (n * b)) % b == 0
  {
    assert q * (n * b) == (q * n) * b + 0;
    MulMod(q * n, b, 0);
  }

  lemma HalfDiv(x: nat, d: nat)
    requires d > 0
    ensures (x / d) / 2 == x / (2 * d)
  {
    QuotientIsNat(x, d);
    var q := x / d;
    HalfSplit(x, d, q / 2, q % 2, x % d);
  }

  lemma HalfSplit(x: nat, d: nat, h: nat, b: nat, r: nat)
    requires x == d * (2 * h + b) + r && b < 2 && r < d
    ensures x / (2 * d) == h
  {
    assert d * (2 * h + b) == (2 * d) * h + d * b;
    if b == 0 {
      DivUnique(x, 2 * d, h, r);
    } else {
      DivUnique(x, 2 * d, h, d + r);
    }
  }
}
