/**
 * Bitwise operations on integers of any size in two's complement, as `bigint`
 * has them, one bit at a time.
 */
module Bits {

  /** `x >> n`. */
  function Shr(x: int, n: nat): int
    decreases n
  {
    if n == 0 then x else Shr(x / 2, n - 1)
  }

  /** `x << n`. */
  function Shl(x: int, n: nat): int
    decreases n
  {
    if n == 0 then x else 2 * Shl(x, n - 1)
  }

  /** `x & ((1 << n) - 1)`. */
  function Low(x: int, n: nat): nat
    decreases n
  {
    if n == 0 then 0 else x % 2 + 2 * Low(x / 2, n - 1)
  }

  /** `(x | y) & ((1 << n) - 1)`. */
  function LowOr(x: int, y: int, n: nat): nat
    decreases n
  {
    if n == 0 then 0
    else (if x % 2 == 1 || y % 2 == 1 then 1 else 0) + 2 * LowOr(x / 2, y / 2, n - 1)
  }

  predicate Bit(x: int, t: nat) {
    Shr(x, t) % 2 == 1
  }

  /** `x` needs at most `n` bits and no sign. */
  predicate Unsigned(x: int, n: nat) {
    Shr(x, n) == 0
  }

  lemma {:induction false} ShrShr(x: int, m: nat, n: nat)
    ensures Shr(Shr(x, m), n) == Shr(x, m + n)
    decreases m
  {
    if m > 0 {
      ShrShr(x / 2, m - 1, n);
    }
  }

  lemma BitOfShr(x: int, m: nat, t: nat)
    ensures Bit(Shr(x, m), t) == Bit(x, m + t)
  {
    ShrShr(x, m, t);
  }

  lemma {:induction false} BitOfShl(x: int, n: nat, t: nat)
    ensures Bit(Shl(x, n), t) == (t >= n && Bit(x, t - n))
    decreases n
  {
    if n > 0 && t > 0 {
      BitOfShl(x, n - 1, t - 1);
      assert Shl(x, n) / 2 == Shl(x, n - 1);
    }
  }

  lemma {:induction false} BitOfLow(x: int, n: nat, t: nat)
    requires t < n
    ensures Bit(Low(x, n), t) == Bit(x, t)
    decreases n
  {
    if t > 0 {
      BitOfLow(x / 2, n - 1, t - 1);
      assert Low(x, n) / 2 == Low(x / 2, n - 1);
    }
  }

  lemma BitStep(x: int, t: nat)
    requires t > 0
    ensures Bit(x, t) == Bit(x / 2, t - 1)
  {
  }

  lemma LowOrStep(x: int, y: int, n: nat)
    requires n > 0
    ensures LowOr(x, y, n) / 2 == LowOr(x / 2, y / 2, n - 1)
    ensures Bit(LowOr(x, y, n), 0) == (Bit(x, 0) || Bit(y, 0))
  {
  }

  lemma {:induction false} BitOfLowOr(x: int, y: int, n: nat, t: nat)
    requires t < n
    ensures Bit(LowOr(x, y, n), t) == (Bit(x, t) || Bit(y, t))
    decreases n
  {
    hide Bit, LowOr;
    LowOrStep(x, y, n);
    if t > 0 {
      BitOfLowOr(x / 2, y / 2, n - 1, t - 1);
      BitStep(x, t);
      BitStep(y, t);
      BitStep(LowOr(x, y, n), t);
    }
  }

  lemma {:induction false} LowUnsigned(x: int, n: nat)
    ensures Unsigned(Low(x, n), n)
    decreases n
  {
    if n > 0 {
      LowUnsigned(x / 2, n - 1);
      assert Low(x, n) / 2 == Low(x / 2, n - 1);
    }
  }

  lemma {:induction false} LowOrUnsigned(x: int, y: int, n: nat)
    ensures Unsigned(LowOr(x, y, n), n)
    decreases n
  {
    if n > 0 {
      LowOrUnsigned(x / 2, y / 2, n - 1);
      assert LowOr(x, y, n) / 2 == LowOr(x / 2, y / 2, n - 1);
    }
  }

  /** Unsigned numbers of `n` bits with the same bits are equal. */
  lemma {:induction false} SameBits(x: int, y: int, n: nat)
    requires Unsigned(x, n) && Unsigned(y, n)
    requires forall t: nat :: t < n ==> Bit(x, t) == Bit(y, t)
    ensures x == y
    decreases n
  {
    if n > 0 {
      assert Bit(x, 0) == Bit(y, 0);
      forall t: nat | t < n - 1 ensures Bit(x / 2, t) == Bit(y / 2, t) {
        assert Bit(x, t + 1) == Bit(y, t + 1);
      }
      SameBits(x / 2, y / 2, n - 1);
    }
  }

  /** Beyond its length an unsigned number has no bits, a negative one has them all. */
  lemma {:induction false} BitBeyond(x: int, n: nat, t: nat)
    requires t >= n
    ensures Shr(x, n) == 0 ==> !Bit(x, t)
    ensures Shr(x, n) == -1 ==> Bit(x, t)
  {
    ShrShr(x, n, t - n);
    ShrOfSign(t - n);
  }

  lemma {:induction false} ShrOfSign(n: nat)
    ensures Shr(0, n) == 0 && Shr(-1, n) == -1
  {
    if n > 0 {
      ShrOfSign(n - 1);
    }
  }
}
