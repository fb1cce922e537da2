/**
 * Machine-word arithmetic used by the allocator's argument check and its
 * byte-to-unit conversion: `usize` values, logical right shift and bitwise AND,
 * all on unbounded naturals.
 */
module Bits {

  /** One more than the largest `usize` on a 64-bit target. */
  const USIZE_LIMIT: nat := 0x1_0000_0000_0000_0000

  /** An unsigned machine word. */
  type Usize = x: nat | x < USIZE_LIMIT

  /** 2 to the power k. */
  function Pow2(k: nat): (r: nat)
    ensures r >= 1
  {
    if k == 0 then 1 else 2 * Pow2(k - 1)
  }

  /** Logical right shift `x >> k`: the k low bits fall off, one at a time. */
  function Shr(x: nat, k: nat): (r: nat)
    ensures r <= x
  {
    if k == 0 then x else Shr(x / 2, k - 1)
  }

  /**
   * Bitwise AND of two unsigned words, bit by bit from the least significant
   * end. The result has no bit that either argument lacks, so it is no larger
   * than either of them (and stays a `Usize` when they are).
   */
  function BitAnd(a: nat, b: nat): (r: nat)
    ensures r <= a && r <= b
  {
    if a == 0 || b == 0 then 0
    else 2 * BitAnd(a / 2, b / 2) + (if a % 2 == 1 && b % 2 == 1 then 1 else 0)
  }

  /** Euclidean division is determined by its quotient and remainder. */
  lemma DivModUnique(x: nat, d: nat, q: nat, r: nat)
    requires 0 <= r < d && x == d * q + r
    ensures x / d == q && x % d == r
  {
    var q', r' := x / d, x % d;
    assert x == d * q' + r';
    assert d * (q - q') == r' - r;
    if q' < q {
      MulAtLeast(d, q - q');
      assert false;
    } else if q' > q {
      MulAtLeast(d, q' - q);
      assert false;
    }
  }

  /** A positive multiple of d is at least d. */
  lemma MulAtLeast(d: nat, e: nat)
    requires e >= 1
    ensures d * e >= d
  {
    assert d * e == d * (e - 1) + d;
  }

  /** Halving first and dividing by m afterwards is dividing by 2m. */
  lemma DivModHalf(x: nat, m: nat)
    requires m > 0
    ensures (x / 2) / m == x / (2 * m)
    ensures x % (2 * m) == 2 * ((x / 2) % m) + x % 2
  {
    var q, s := (x / 2) / m, (x / 2) % m;
    assert x / 2 == m * q + s;
    assert x == (2 * m) * q + (2 * s + x % 2);
    DivModUnique(x, 2 * m, q, 2 * s + x % 2);
  }

  /** Shifting right by k divides by 2^k, rounding down. */
  lemma {:induction false} ShrIsDivision(x: nat, k: nat)
    ensures Shr(x, k) == x / Pow2(k)
  {
    if k > 0 {
      ShrIsDivision(x / 2, k - 1);
      DivModHalf(x, Pow2(k - 1));
    }
  }

  /**
   * `(x >> k) << k` clears the k low bits: it never exceeds x, falls short of
   * it by less than 2^k, and equals it exactly when x is a multiple of 2^k.
   */
  lemma ShrRoundsDown(x: nat, k: nat)
    ensures Shr(x, k) * Pow2(k) <= x < Shr(x, k) * Pow2(k) + Pow2(k)
    ensures x - Shr(x, k) * Pow2(k) == x % Pow2(k)
    ensures Shr(x, k) * Pow2(k) == x <==> x % Pow2(k) == 0
  {
    ShrIsDivision(x, k);
    var d := Pow2(k);
    assert x == (x / d) * d + x % d;
  }

  /** Every word ANDed with itself is itself. */
  lemma {:induction false} BitAndSelf(a: nat)
    ensures BitAnd(a, a) == a
  {
    if a > 0 {
      BitAndSelf(a / 2);
    }
  }

  /** ANDing with 0 clears everything. */
  lemma BitAndZero(a: nat)
    ensures BitAnd(a, 0) == 0 && BitAnd(0, a) == 0
  {
  }

  /**
   * ANDing with the single bit 2^k tests bit k: the result is 2^k when bit k
   * of a is set, and 0 otherwise.
   */
  lemma {:induction false} BitAndPow2(a: nat, k: nat)
    ensures BitAnd(a, Pow2(k)) == if Shr(a, k) % 2 == 1 then Pow2(k) else 0
  {
    if a == 0 {
      ShrIsDivision(0, k);
    } else if k == 0 {
      BitAndZero(a / 2);
    } else {
      BitAndPow2(a / 2, k - 1);
      assert Pow2(k) / 2 == Pow2(k - 1) && Pow2(k) % 2 == 0;
    }
  }
}
