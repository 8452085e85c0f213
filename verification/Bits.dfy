/** Bit-level operations on natural numbers, as Go's `&`, `^` and `math/bits` compute them on uint32. */
module Bits {

  const TWO_TO_THE_32: nat := 0x1_0000_0000

  type u32 = x: int | 0 <= x < TWO_TO_THE_32

  /** Whether bit i of n is set. */
  predicate Bit(n: nat, i: nat) {
    if i == 0 then n % 2 == 1 else Bit(n / 2, i - 1)
  }

  /** Bitwise and. */
  function And(a: nat, b: nat): nat {
    if a == 0 || b == 0 then 0
    else 2 * And(a / 2, b / 2) + (if a % 2 == 1 && b % 2 == 1 then 1 else 0)
  }

  /** Bitwise complement of a uint32. */
  function Not32(m: u32): u32 {
    TWO_TO_THE_32 - 1 - m
  }

  /** `bits.OnesCount32`. */
  function OnesCount(n: nat): nat {
    if n == 0 then 0 else n % 2 + OnesCount(n / 2)
  }

  /** `bits.TrailingZeros32` of a nonzero value. */
  function TrailingZeros(n: nat): nat
    requires n > 0
  {
    if n % 2 == 1 then 0 else 1 + TrailingZeros(n / 2)
  }

  function Pow2(n: nat): (p: nat)
    ensures p > 0
  {
    if n == 0 then 1 else 2 * Pow2(n - 1)
  }

  lemma {:induction false} ZeroHasNoBit(i: nat)
    ensures !Bit(0, i)
  {
    if i > 0 { ZeroHasNoBit(i - 1); }
  }

  lemma {:induction false} AndBit(a: nat, b: nat, i: nat)
    ensures Bit(And(a, b), i) <==> Bit(a, i) && Bit(b, i)
  {
    if a == 0 || b == 0 {
      ZeroHasNoBit(i);
    } else if i > 0 {
      AndBit(a / 2, b / 2, i - 1);
      assert And(a, b) / 2 == And(a / 2, b / 2);
    }
  }

  lemma {:induction false} NoBitIsZero(n: nat)
    requires forall i: nat :: !Bit(n, i)
    ensures n == 0
  {
    if n > 0 {
      assert !Bit(n, 0);
      forall i: nat ensures !Bit(n / 2, i) { assert !Bit(n, i + 1); }
      NoBitIsZero(n / 2);
    }
  }

  lemma {:induction false} HighBitsClear(n: nat, w: nat, i: nat)
    requires n < Pow2(w) && w <= i
    ensures !Bit(n, i)
  {
    if i == 0 {
    } else if w == 0 {
      ZeroHasNoBit(i);
    } else {
      HighBitsClear(n / 2, w - 1, i - 1);
    }
  }

  lemma {:induction false} ComplementBit(m: nat, w: nat, i: nat)
    requires m < Pow2(w) && i < w
    ensures Bit(Pow2(w) - 1 - m, i) <==> !Bit(m, i)
  {
    if i > 0 {
      assert (Pow2(w) - 1 - m) / 2 == Pow2(w - 1) - 1 - m / 2;
      ComplementBit(m / 2, w - 1, i - 1);
    }
  }

  lemma Pow2Of32()
    ensures Pow2(32) == TWO_TO_THE_32
  {
    assert Pow2(8) == 256;
    assert Pow2(16) == 65536;
    assert Pow2(24) == 16777216;
  }

  ghost predicate SelectsOnly(choice: nat, mask: nat) {
    forall i: nat :: Bit(choice, i) ==> Bit(mask, i)
  }

  /** `choice & ^mask == 0` says that every selected option is an allowed one. */
  lemma MaskedChoice(choice: u32, mask: u32)
    ensures And(choice, Not32(mask)) == 0 <==> SelectsOnly(choice, mask)
  {
    forall i: nat ensures Bit(And(choice, Not32(mask)), i) <==> Bit(choice, i) && !Bit(mask, i) {
      Pow2Of32();
      AndBit(choice, Not32(mask), i);
      if i < 32 {
        ComplementBit(mask, 32, i);
      } else {
        HighBitsClear(choice, 32, i);
      }
    }
    if And(choice, Not32(mask)) == 0 {
      forall i: nat | Bit(choice, i) ensures Bit(mask, i) { ZeroHasNoBit(i); }
    }
    if SelectsOnly(choice, mask) {
      NoBitIsZero(And(choice, Not32(mask)));
    }
  }

  lemma {:induction false} TrailingZerosIsLowestBit(n: nat, i: nat)
    requires n > 0
    ensures Bit(n, TrailingZeros(n))
    ensures i < TrailingZeros(n) ==> !Bit(n, i)
  {
    if n % 2 == 0 {
      TrailingZerosIsLowestBit(n / 2, if i > 0 then i - 1 else 0);
    }
  }

  lemma {:induction false} AndSelf(a: nat)
    ensures And(a, a) == a
  {
    if a > 0 { AndSelf(a / 2); }
  }

  /** The step `mask &= mask - 1` clears exactly the lowest set bit. */
  lemma {:induction false} ClearLowestBit(n: nat, i: nat)
    requires n > 0
    ensures And(n, n - 1) < n
    ensures Bit(And(n, n - 1), i) <==> Bit(n, i) && i != TrailingZeros(n)
  {
    if n == 1 {
      if i > 0 { ZeroHasNoBit(i - 1); }
      ZeroHasNoBit(i);
    } else if n % 2 == 1 {
      AndSelf(n / 2);
      assert (n - 1) / 2 == n / 2;
      assert And(n, n - 1) == n - 1;
      if i > 0 { assert Bit(n, i) == Bit(n / 2, i - 1); }
    } else {
      assert (n - 1) / 2 == n / 2 - 1;
      assert And(n, n - 1) == 2 * And(n / 2, n / 2 - 1);
      ClearLowestBit(n / 2, if i > 0 then i - 1 else 0);
    }
  }

  lemma {:induction false} TrailingZerosBound(n: nat, w: nat)
    requires 0 < n < Pow2(w)
    ensures TrailingZeros(n) < w
  {
    if n % 2 == 0 { TrailingZerosBound(n / 2, w - 1); }
  }

  /** A choice with one option selected is the power of two of its lowest bit. */
  lemma {:induction false} OneBitMeansPower(n: nat)
    ensures OnesCount(n) == 0 <==> n == 0
    ensures OnesCount(n) == 1 <==> n > 0 && n == Pow2(TrailingZeros(n))
  {
    if n > 0 {
      OneBitMeansPower(n / 2);
    }
  }

  ghost predicate SelectsOne(n: nat) {
    forall i: nat, j: nat | Bit(n, i) && Bit(n, j) :: i == j
  }

  lemma {:induction false} PowerHasOneBit(k: nat, i: nat)
    ensures Bit(Pow2(k), i) <==> i == k
  {
    if k == 0 {
      if i > 0 { ZeroHasNoBit(i - 1); }
    } else if i > 0 {
      PowerHasOneBit(k - 1, i - 1);
    }
  }

  lemma {:induction false} OneBitCounts(n: nat)
    requires n > 0 && SelectsOne(n)
    ensures OnesCount(n) == 1
  {
    if n % 2 == 1 {
      assert Bit(n, 0);
      forall i: nat ensures !Bit(n / 2, i) { assert Bit(n, i + 1) == Bit(n / 2, i); }
      NoBitIsZero(n / 2);
    } else {
      forall i: nat, j: nat | Bit(n / 2, i) && Bit(n / 2, j) ensures i == j {
        assert Bit(n, i + 1) && Bit(n, j + 1);
      }
      OneBitCounts(n / 2);
    }
  }

  lemma CountIsOne(n: nat)
    requires n > 0
    ensures OnesCount(n) == 1 <==> SelectsOne(n)
  {
    OneBitMeansPower(n);
    if OnesCount(n) == 1 {
      forall i: nat, j: nat | Bit(n, i) && Bit(n, j) ensures i == j {
        PowerHasOneBit(TrailingZeros(n), i);
        PowerHasOneBit(TrailingZeros(n), j);
      }
    }
    if SelectsOne(n) { OneBitCounts(n); }
  }

  /** The test on a choice: it selects some option, only allowed ones, and but one unless several may be. */
  lemma ChoiceMeans(choice: u32, mask: u32, multiple: bool)
    ensures choice != 0 && And(choice, Not32(mask)) == 0 && (multiple || OnesCount(choice) == 1)
            <==> (exists i: nat :: Bit(choice, i)) && SelectsOnly(choice, mask) && (multiple || SelectsOne(choice))
  {
    MaskedChoice(choice, mask);
    if choice > 0 {
      TrailingZerosIsLowestBit(choice, 0);
      CountIsOne(choice);
      hide SelectsOne, SelectsOnly, OnesCount, TrailingZeros, And, Not32;
      assert Bit(choice, TrailingZeros(choice));
      assert exists i: nat :: Bit(choice, i);
    } else {
      forall i: nat ensures !Bit(0, i) { ZeroHasNoBit(i); }
    }
  }
}
