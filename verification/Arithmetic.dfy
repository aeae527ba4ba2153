/** Powers of two, and remainders by a divisor that is not a constant. */
module Arithmetic {
  function Pow2(k: nat): int {
    if k == 0 then 1 else 2 * Pow2(k - 1)
  }

  lemma {:induction false} Pow2Positive(k: nat)
    ensures Pow2(k) > 0
  {
    if k > 0 { Pow2Positive(k - 1); }
  }

  predicate IsPowerOfTwo(n: int)
    decreases n
  {
    n == 1 || (n > 1 && n % 2 == 0 && IsPowerOfTwo(n / 2))
  }

  /** The powers of two that are limits. */
  lemma LargePowers()
    ensures Pow2(31) == 0x8000_0000 && Pow2(32) == 0x1_0000_0000 && Pow2(63) == 0x8000_0000_0000_0000
  {
    assert Pow2(4) == 0x10;
    assert Pow2(8) == 0x100;
    assert Pow2(12) == 0x1000;
    assert Pow2(16) == 0x1_0000;
    assert Pow2(20) == 0x10_0000;
    assert Pow2(24) == 0x100_0000;
    assert Pow2(28) == 0x1000_0000;
    assert Pow2(31) == 0x8000_0000;
    assert Pow2(32) == 0x1_0000_0000;
    assert Pow2(36) == 0x10_0000_0000;
    assert Pow2(40) == 0x100_0000_0000;
    assert Pow2(44) == 0x1000_0000_0000;
    assert Pow2(48) == 0x1_0000_0000_0000;
    assert Pow2(52) == 0x10_0000_0000_0000;
    assert Pow2(56) == 0x100_0000_0000_0000;
    assert Pow2(60) == 0x1000_0000_0000_0000;
    assert Pow2(63) == 0x8000_0000_0000_0000;
  }

  lemma {:induction false} Halves(k: nat)
    ensures IsPowerOfTwo(Pow2(k))
  {
    if k > 0 {
      Halves(k - 1);
      Pow2Positive(k - 1);
    }
  }

  /** Doubling a power of two below another one stays within that. */
  lemma {:induction false} DoublingFits(max: int, k: nat)
    requires IsPowerOfTwo(max) && IsPowerOfTwo(k) && max < k
    ensures IsPowerOfTwo(2 * max) && 2 * max <= k
    decreases max
  {
    if max > 1 {
      DoublingFits(max / 2, k / 2);
    }
  }

  lemma ProductAtLeast(k: int, p: int)
    requires p > 0
    ensures k >= 1 ==> k * p >= p
    ensures k <= -1 ==> k * p <= -p
  {
  }

  /** A remainder is determined by any quotient that leaves it. */
  lemma RestOfProduct(x: int, p: int, q: int, r: int)
    requires p > 0 && x == q * p + r && 0 <= r < p
    ensures x % p == r && x / p == q
  {
    var d, s := x / p, x % p;
    assert x == d * p + s;
    assert (q - d) * p == s - r;
    ProductAtLeast(q - d, p);
  }

  /** The remainder by twice a number is the remainder by the number, or that plus the number. */
  lemma RestOfDouble(h: int, m: int)
    requires m > 0
    ensures h % (2 * m) == h % m || h % (2 * m) == h % m + m
  {
    var q, r := h / (2 * m), h % (2 * m);
    assert h == q * (2 * m) + r;
    assert h == (2 * q) * m + r;
    if r < m {
      RestOfProduct(h, m, 2 * q, r);
    } else {
      RestOfProduct(h, m, 2 * q + 1, r - m);
    }
  }
}
