/**
 * Integer models of the bit tricks the power-of-two helpers rely on:
 * `1 << k`, `n >>= 1` counted until zero, and `x & (x - 1)`.
 * Everything is stated on unbounded naturals; the 32-bit width of the
 * C operands is made explicit where it matters (U32, Wrap32).
 */
module Bits {

  /** 2^32: the modulus of C `unsigned int` arithmetic. */
  const U32: nat := 0x1_0000_0000

  /** 2^31: the first value that no longer fits a non-negative `int32_t`. */
  const I32: nat := 0x8000_0000

  /** `1 << k` for a shift count that stays inside the operand. */
  function Pow2(k: nat): (r: nat)
    ensures r >= 1
  {
    if k == 0 then 1 else 2 * Pow2(k - 1)
  }

  /** n is a non-zero power of two. */
  predicate IsPow2(n: nat)
  {
    n == 1 || (n >= 2 && n % 2 == 0 && IsPow2(n / 2))
  }

  /** How many times `n >>= 1` runs before n reaches zero. */
  function BitLength(n: nat): nat
  {
    if n == 0 then 0 else 1 + BitLength(n / 2)
  }

  /** C `&` on two unsigned operands, bit by bit from the lowest. */
  function BitAnd(a: nat, b: nat): nat
  {
    if a == 0 || b == 0 then 0
    else 2 * BitAnd(a / 2, b / 2) + (if a % 2 == 1 && b % 2 == 1 then 1 else 0)
  }

  /** Unsigned 32-bit subtraction by one (`x - 1` on `unsigned int`). */
  function Dec32(x: nat): (r: nat)
    requires x < U32
    ensures r < U32
    ensures x == 0 ==> r == U32 - 1
    ensures x > 0 ==> r + 1 == x
  {
    if x == 0 then U32 - 1 else x - 1
  }

  lemma {:induction false} Pow2IsPow2(k: nat)
    ensures IsPow2(Pow2(k))
  {
    if k > 0 {
      Pow2IsPow2(k - 1);
      assert Pow2(k) / 2 == Pow2(k - 1);
    }
  }

  lemma {:induction false} Pow2Monotone(i: nat, j: nat)
    requires i <= j
    ensures Pow2(i) <= Pow2(j)
  {
    if i < j {
      Pow2Monotone(i, j - 1);
    }
  }

  /** Two distinct powers of two are at least a factor of two apart. */
  lemma {:induction false} Pow2Gap(p: nat, q: nat)
    requires IsPow2(p) && IsPow2(q) && q < p
    ensures 2 * q <= p
  {
    if q >= 2 {
      Pow2Gap(p / 2, q / 2);
    }
  }

  /** The bit length of n brackets n between two consecutive powers of two. */
  lemma {:induction false} BitLengthBounds(n: nat)
    requires n >= 1
    ensures BitLength(n) >= 1
    ensures Pow2(BitLength(n) - 1) <= n < Pow2(BitLength(n))
  {
    if n >= 2 {
      BitLengthBounds(n / 2);
    }
  }

  /** A number below 2^k has at most k bits. */
  lemma {:induction false} BitLengthAtMost(n: nat, k: nat)
    requires n < Pow2(k)
    ensures BitLength(n) <= k
  {
    if n > 0 {
      BitLengthBounds(n);
      if BitLength(n) > k {
        Pow2Monotone(k, BitLength(n) - 1);
      }
    }
  }

  /** A number up to 2^k that is not a power of two stays below 2^k. */
  lemma NotPow2Below(n: nat, k: nat)
    requires n <= Pow2(k) && !IsPow2(n)
    ensures n < Pow2(k)
  {
    Pow2IsPow2(k);
  }

  /** A power of two is exactly the lower bracket of its own bit length. */
  lemma {:induction false} IsPow2BitLength(n: nat)
    requires n >= 1
    ensures IsPow2(n) <==> n == Pow2(BitLength(n) - 1)
  {
    if n >= 2 {
      IsPow2BitLength(n / 2);
      if n % 2 == 1 {
        BitLengthBounds(n);
        assert BitLength(n) >= 2;
      }
    }
  }

  lemma {:induction false} BitAndSelf(a: nat)
    ensures BitAnd(a, a) == a
  {
    if a > 0 {
      BitAndSelf(a / 2);
    }
  }

  /**
   * Clearing the lowest set bit leaves nothing exactly for powers of two:
   * for x >= 1, `(x & (x - 1)) == 0` iff x is a power of two.
   */
  lemma {:induction false} ClearLowestBit(x: nat)
    requires x >= 1
    ensures BitAnd(x, x - 1) == 0 <==> IsPow2(x)
  {
    if x % 2 == 1 {
      if x > 1 {
        BitAndSelf(x / 2);
        assert BitAnd(x, x - 1) == 2 * BitAnd(x / 2, x / 2);
      }
    } else {
      var m := x / 2;
      if m > 1 {
        ClearLowestBit(m);
        assert (x - 1) / 2 == m - 1 && (x - 1) % 2 == 1;
        assert BitAnd(x, x - 1) == 2 * BitAnd(m, m - 1);
      }
    }
  }

  /** Concrete values of `1 << k` used by the worked examples. */
  lemma Pow2Table()
    ensures Pow2(9) == 512 && Pow2(10) == 1024
    ensures Pow2(24) == 0x100_0000 && Pow2(25) == 0x200_0000
    ensures Pow2(30) == I32 / 2 && Pow2(31) == I32
  {
    assert Pow2(1) == 2;
    assert Pow2(2) == 4;
    assert Pow2(3) == 8;
    assert Pow2(4) == 16;
    assert Pow2(5) == 32;
    assert Pow2(6) == 64;
    assert Pow2(7) == 128;
    assert Pow2(8) == 256;
    assert Pow2(9) == 512;
    assert Pow2(10) == 1024;
    assert Pow2(11) == 2048;
    assert Pow2(12) == 4096;
    assert Pow2(13) == 8192;
    assert Pow2(14) == 16384;
    assert Pow2(15) == 32768;
    assert Pow2(16) == 65536;
    assert Pow2(17) == 131072;
    assert Pow2(18) == 262144;
    assert Pow2(19) == 524288;
    assert Pow2(20) == 1048576;
    assert Pow2(21) == 2097152;
    assert Pow2(22) == 4194304;
    assert Pow2(23) == 8388608;
    assert Pow2(24) == 16777216;
    assert Pow2(25) == 33554432;
    assert Pow2(26) == 67108864;
    assert Pow2(27) == 134217728;
    assert Pow2(28) == 268435456;
    assert Pow2(29) == 536870912;
    assert Pow2(30) == 1073741824;
    assert Pow2(31) == 2147483648;
  }
}
