/**
 * Power-of-two rounding used by the texture-atlas builder
 * (`nextPowerOf2` and the two `closestPowerOf2` overloads).
 */
module TexRounding {
  import opened Bits

  /** `vcg::Point2i`: an integer pixel position or size. */
  datatype Point2i = Point2i(x: int, y: int)

  /** The `int32_t` value of an unsigned 32-bit quantity (two's complement). */
  function Int32(u: nat): (r: int)
    requires u < U32
    ensures -(I32 as int) <= r < I32
    ensures r % U32 == u
  {
    if u < I32 then u else u - U32
  }

  /**
   * Reference definition of the unsigned rounding: 1 for zero, n itself for
   * a power of two, otherwise the power of two one bit above n's top bit.
   */
  function NextPow2(n: nat): nat
  {
    if n == 0 then 1 else if IsPow2(n) then n else Pow2(BitLength(n))
  }

  /** NextPow2(n) is the least power of two that is at least n. */
  lemma {:induction false} NextPow2IsLeastPow2(n: nat)
    ensures IsPow2(NextPow2(n)) && n <= NextPow2(n)
    ensures n == 0 ==> NextPow2(n) == 1
    ensures IsPow2(n) ==> NextPow2(n) == n
    ensures n >= 1 && !IsPow2(n) ==> n < NextPow2(n) < 2 * n
    ensures forall q :: IsPow2(q) && n <= q ==> NextPow2(n) <= q
  {
    if n == 0 {
      assert IsPow2(1);
    } else if IsPow2(n) {
    } else {
      BitLengthBounds(n);
      Pow2IsPow2(BitLength(n));
      IsPow2BitLength(n);
      assert Pow2(BitLength(n)) == 2 * Pow2(BitLength(n) - 1);
    }
    var r := NextPow2(n);
    forall q | IsPow2(q) && n <= q
      ensures r <= q
    {
      if q < r {
        Pow2Gap(r, q);
      }
    }
  }

  /**
   * `nextPowerOf2(unsigned int n)`: returns n when it is a non-zero power
   * of two, otherwise shifts n right until zero, counting, and returns
   * `1 << count`. The shift is defined only for count < 32, hence the bound
   * on n (above 2^31 the C code shifts by 32).
   */
  method NextPowerOf2(n: nat) returns (r: nat)
    requires n <= I32
    ensures r < U32
    ensures r == NextPow2(n)
  {
    if n != 0 && BitAnd(n, n - 1) == 0 {
      ClearLowestBit(n);
      return n;
    }
    if n != 0 {
      ClearLowestBit(n);
    }
    var m := n;
    var count: nat := 0;
    while m != 0
      invariant BitLength(n) == count + BitLength(m)
      decreases m
    {
      m := m / 2;
      count := count + 1;
    }
    // a non-power n <= 2^31 is below 2^31, so the shift count is at most 31
    Pow2Table();
    if n != 0 {
      NotPow2Below(n, 31);
      BitLengthAtMost(n, 31);
    }
    Pow2Monotone(count, 31);
    r := Pow2(count);
  }

  /**
   * Reference definition of `closestPowerOf2(int32_t &p)`: the unsigned
   * rounding stored in an `int32_t`, halved when it exceeds p by more than
   * the factor 1.40 (the float test `n/(float)p > 1.40` as `5n > 7p`).
   * The two tests agree for p below 23967451; from there on, float
   * rounding of `(float)p` and of the quotient can keep n where the exact
   * test halves it (see `ClosestPow2AtFloatLimit`).
   */
  function ClosestPow2(p: int): int
    requires 0 <= p < I32
  {
    NextPow2IsLeastPow2(p);
    var n := Int32(NextPow2(p));
    if 5 * n > 7 * p then n / 2 else n
  }

  /** `closestPowerOf2(int32_t &p)`: rewrites p in place. */
  method ClosestPowerOf2(p: int) returns (p': int)
    requires 0 <= p < I32
    ensures p' == ClosestPow2(p)
  {
    var u := NextPowerOf2(p);
    var n := Int32(u);
    if 5 * n > 7 * p {
      n := n / 2;
    }
    p' := n;
  }

  /** `closestPowerOf2(vcg::Point2i &p)`: rounds each axis on its own. */
  method ClosestPowerOf2Point(p: Point2i) returns (p': Point2i)
    requires 0 <= p.x < I32 && 0 <= p.y < I32
    ensures p' == Point2i(ClosestPow2(p.x), ClosestPow2(p.y))
  {
    var x := ClosestPowerOf2(p.x);
    var y := ClosestPowerOf2(p.y);
    p' := Point2i(x, y);
  }

  /**
   * For sizes up to 2^30 the rounding yields a power of two q with
   * 0.7p < q <= 1.4p, and q falls below p exactly when it was halved.
   */
  lemma ClosestPow2Bounds(p: int)
    requires 1 <= p <= I32 / 2
    ensures ClosestPow2(p) >= 1 && IsPow2(ClosestPow2(p))
    ensures 5 * ClosestPow2(p) <= 7 * p
    ensures 7 * p < 10 * ClosestPow2(p)
    ensures ClosestPow2(p) < p <==> 5 * NextPow2(p) > 7 * p
    ensures ClosestPow2(p) >= p ==> ClosestPow2(p) == NextPow2(p)
  {
    NextPow2IsLeastPow2(p);
    var n := NextPow2(p);
    assert n < 2 * p <= I32 || n == p;
    if 5 * n > 7 * p {
      assert n != p;
      assert n >= 2 && n % 2 == 0 && IsPow2(n / 2);
    }
  }

  /**
   * The first size where the exact test and the float test part: 2^25 is
   * more than 1.4 times 23967451, so the model halves it, while in float32
   * the quotient rounds to just under 1.40 and the source keeps 2^25.
   */
  lemma ClosestPow2AtFloatLimit()
    ensures NextPow2(23967451) == 33554432 && ClosestPow2(23967451) == 16777216
  {
    Pow2Table();
    NextPow2Of(23967451, 25);
  }

  /** At zero the float ratio is +infinity, so 1 is halved to 0. */
  lemma ClosestPow2OfZero()
    ensures ClosestPow2(0) == 0
  {
    assert NextPow2(0) == 1;
  }

  /** Worked values on both sides of the 1.40 threshold. */
  lemma {:induction false} ClosestPow2Examples()
    ensures ClosestPow2(1000) == 1024
    ensures ClosestPow2(300) == 256
    ensures ClosestPow2(732) == 1024
    ensures ClosestPow2(731) == 512
  {
    Pow2Table();
    NextPow2Of(1000, 10);
    NextPow2Of(300, 9);
    NextPow2Of(732, 10);
    NextPow2Of(731, 10);
  }

  /** NextPow2 of a non-power n in (2^(k-1), 2^k) is 2^k. */
  lemma NextPow2Of(n: nat, k: nat)
    requires k >= 1 && Pow2(k - 1) < n < Pow2(k)
    ensures NextPow2(n) == Pow2(k)
  {
    NextPow2IsLeastPow2(n);
    Pow2IsPow2(k);
    var r := NextPow2(n);
    assert Pow2(k) == 2 * Pow2(k - 1);
    if r < Pow2(k) {
      Pow2Gap(Pow2(k), r);
      assert false;
    }
  }

  /**
   * Above 2^30 the unsigned result 2^31 no longer fits `int32_t`: it is
   * stored as INT32_MIN, the ratio test fails, and p becomes negative.
   */
  lemma ClosestPow2WrapsAbove2To30()
    ensures forall p :: I32 / 2 < p < I32 ==> ClosestPow2(p) == -(I32 as int)
  {
    Pow2Table();
    forall p | I32 / 2 < p < I32
      ensures ClosestPow2(p) == -(I32 as int)
    {
      NextPow2Of(p, 31);
    }
  }
}
