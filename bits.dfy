/**
 * Python's `&` on integers, for a non-negative mask. Python integers behave as
 * infinite two's-complement bit strings, so bit i of x is floor(x / 2^i) mod 2,
 * which is what Dafny's Euclidean `/` and `%` by 2 give for every int.
 */
module Bits {

  function Pow2(k: nat): (p: nat)
    ensures p >= 1
  {
    if k == 0 then 1 else 2 * Pow2(k - 1)
  }

  /** `x & mask` computed bit by bit, lowest bit first. */
  function BitAnd(x: int, mask: nat): (r: nat)
    ensures r <= mask
    decreases mask
  {
    if mask == 0 then 0
    else 2 * BitAnd(x / 2, mask / 2) + (if x % 2 == 1 && mask % 2 == 1 then 1 else 0)
  }

  /** A positive multiple of d is at least d; a negative one is at most -d. */
  lemma MulAwayFromZero(d: int, k: int)
    requires d > 0
    ensures k >= 1 ==> d * k >= d
    ensures k <= -1 ==> d * k <= -d
  {
    assert d * k - d == d * (k - 1);
    assert d * k + d == d * (k + 1);
  }

  /** Euclidean quotient and remainder are determined by any decomposition x == d * t + u. */
  lemma DivModUnique(x: int, d: int, t: int, u: int)
    requires d > 0 && x == d * t + u && 0 <= u < d
    ensures x / d == t && x % d == u
  {
    var q, m := x / d, x % d;
    assert x == d * q + m && 0 <= m < d;
    assert d * (t - q) == m - u by {
      assert d * t + u == d * q + m;
      assert d * (t - q) == d * t - d * q;
    }
    MulAwayFromZero(d, t - q);
  }

  /** Taking x modulo 2p splits into the low bit and (x / 2) modulo p. */
  lemma ModDouble(x: int, p: int)
    requires p > 0
    ensures x % (2 * p) == 2 * ((x / 2) % p) + x % 2
  {
    var q, b := x / 2, x % 2;
    var t, s := q / p, q % p;
    assert q == p * t + s;
    assert x == (2 * p) * t + (2 * s + b) by {
      assert x == 2 * q + b;
      assert 2 * (p * t + s) == (2 * p) * t + 2 * s;
    }
    DivModUnique(x, 2 * p, t, 2 * s + b);
  }

  /** Masking with k low one-bits keeps x modulo 2^k. */
  lemma {:induction false} BitAndLowMask(x: int, k: nat)
    ensures BitAnd(x, Pow2(k) - 1) == x % Pow2(k)
    decreases k
  {
    if k > 0 {
      var p := Pow2(k - 1);
      var m := Pow2(k) - 1;
      DivModUnique(m, 2, p - 1, 1);
      BitAndLowMask(x / 2, k - 1);
      ModDouble(x, p);
      assert BitAnd(x, m) == 2 * BitAnd(x / 2, p - 1) + x % 2;
    }
  }

  /** Masking with 0xFF keeps the low byte. */
  lemma LowByte(x: int)
    ensures BitAnd(x, 0xFF) == x % 0x100
  {
    assert Pow2(8) == 0x100;
    BitAndLowMask(x, 8);
  }
}
