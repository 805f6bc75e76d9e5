/** Fixed-width machine words, and the bit operations that the address arithmetic uses. */
module Words {
  const TWO_32: int := 0x1_0000_0000
  const MAX_32: u32 := 0xFFFF_FFFF

  type u32 = x: int | 0 <= x < 0x1_0000_0000
  type u64 = x: int | 0 <= x < 0x1_0000_0000_0000_0000

  /** The value that uint32 arithmetic keeps of a mathematical result. */
  function Wrap32(x: int): u32 {
    x % TWO_32
  }

  function Pow2(k: nat): (p: nat)
    ensures p >= 1
  {
    if k == 0 then 1 else 2 * Pow2(k - 1)
  }

  /** Go's uint32 left shift: bits moved past position 31 are lost, so 1 << 32 is 0. */
  function Shl32(v: u32, k: nat): u32
    decreases k
  {
    if k == 0 then v else Shl32(Wrap32(2 * v), k - 1)
  }

  /** The leading bits of a number: what remains after dropping the k lowest ones. */
  function Shr(x: nat, k: nat): nat {
    if k == 0 then x else Shr(x / 2, k - 1)
  }

  /** x with its k lowest bits cleared, as an address is masked by a prefix. */
  function ClearLow(x: nat, k: nat): (r: nat)
    ensures r <= x
  {
    if k == 0 then x else 2 * ClearLow(x / 2, k - 1)
  }

  /** The k lowest bits of x are zero. */
  predicate LowClear(x: nat, k: nat)
    decreases k
  {
    k == 0 || (x % 2 == 0 && LowClear(x / 2, k - 1))
  }

  /** The number of low zero bits of a positive number. */
  function LowZeros(x: nat): nat
    requires x > 0
  {
    if x % 2 == 1 then 0 else 1 + LowZeros(x / 2)
  }

  /** bits.TrailingZeros32 */
  function TrailingZeros32(x: u32): nat {
    if x == 0 then 32 else LowZeros(x)
  }

  /** bits.Len64: the number of bits needed to write x. */
  function BitLen64(x: u64): nat {
    if x == 0 then 0 else 1 + BitLen64(x / 2)
  }

  /** bits.LeadingZeros64 */
  function LeadingZeros64(x: u64): int {
    64 - BitLen64(x)
  }

  // Powers of two

  lemma PowersOfTwo()
    ensures Pow2(31) == 0x8000_0000 && Pow2(32) == TWO_32 && Pow2(64) == 0x1_0000_0000_0000_0000
  {
    assert Pow2(8) == 0x100;
    assert Pow2(16) == 0x1_0000;
    assert Pow2(24) == 0x100_0000;
    assert Pow2(32) == TWO_32;
    assert Pow2(40) == 0x100_0000_0000;
    assert Pow2(48) == 0x1_0000_0000_0000;
    assert Pow2(56) == 0x100_0000_0000_0000;
  }

  lemma {:induction false} Pow2Monotone(i: nat, j: nat)
    requires i <= j
    ensures Pow2(i) <= Pow2(j)
    ensures i < j ==> 2 * Pow2(i) <= Pow2(j)
  {
    if i < j {
      Pow2Monotone(i, j - 1);
    }
  }

  lemma Pow2Reflects(i: nat, j: nat)
    requires Pow2(i) < Pow2(j)
    ensures i < j
  {
    if j <= i {
      Pow2Monotone(j, i);
    }
  }

  /** BitLen64 is one more than the integer logarithm. */
  lemma {:induction false} BitLenBounds(x: u64)
    ensures BitLen64(x) <= 64
    ensures x > 0 ==> BitLen64(x) > 0 && Pow2(BitLen64(x) - 1) <= x < Pow2(BitLen64(x))
  {
    if x > 0 {
      BitLenBounds(x / 2);
      BitLenAtMost64(x);
    }
  }

  lemma BitLenAtMost64(x: u64)
    requires BitLen64(x) > 0 && Pow2(BitLen64(x) - 1) <= x
    ensures BitLen64(x) <= 64
  {
    hide Pow2, BitLen64;
    PowersOfTwo();
    Pow2Reflects(BitLen64(x) - 1, 64);
  }

  /** The shift by the host width of a prefix, including the wrap of 1 << 32 to 0. */
  lemma {:induction false} ShiftedPower(j: nat, k: nat)
    requires j + k <= 32 && j < 32
    ensures Pow2(j) < TWO_32
    ensures Shl32(Pow2(j), k) == if j + k == 32 then 0 else Pow2(j + k)
    decreases k
  {
    hide Shl32, Pow2;
    WordPower(j);
    ShiftStep(j, k);
    if k > 0 {
      if j < 31 {
        WordPower(j + 1);
        ShiftedPower(j + 1, k - 1);
      } else {
        PowersOfTwo();
        NothingShifted();
      }
    }
  }

  lemma ShiftStep(j: nat, k: nat)
    requires Pow2(j) < TWO_32
    ensures Pow2(j + 1) == 2 * Pow2(j)
    ensures Shl32(Pow2(j), k) == if k == 0 then Pow2(j) else Shl32(Wrap32(2 * Pow2(j)), k - 1)
  {
  }

  lemma NothingShifted()
    ensures Shl32(0, 0) == 0
  {
  }

  lemma WordPower(j: nat)
    requires j < 32
    ensures Pow2(j) < TWO_32
  {
    PowersOfTwo();
    Pow2Monotone(j, 31);
  }

  // Low bits

  /** Clear low bits mean divisibility by a power of two. */
  lemma {:induction false} LowClearIsMultiple(x: nat, k: nat)
    ensures LowClear(x, k) <==> x % Pow2(k) == 0
  {
    if k > 0 {
      LowClearIsMultiple(x / 2, k - 1);
      HalvedRemainder(x, Pow2(k - 1));
    }
  }

  lemma HalvedRemainder(x: nat, p: nat)
    requires p > 0
    ensures x % (2 * p) == 0 <==> x % 2 == 0 && x / 2 % p == 0
  {
    var q, r := x / 2 / p, x / 2 % p;
    assert x / 2 == p * q + r;
    var rest := 2 * r + x % 2;
    assert x == (2 * p) * q + rest && 0 <= rest < 2 * p;
    UniqueRemainder(2 * p, q, rest, x);
  }

  lemma UniqueRemainder(d: nat, q: nat, r: nat, x: nat)
    requires x == d * q + r && r < d
    ensures x % d == r
  {
    assert d * (x / d - q) == r - x % d;
    MulSign(d, x / d - q);
  }

  lemma MulSign(d: nat, k: int)
    ensures k >= 1 ==> d * k >= d
    ensures k <= -1 ==> d * k <= 0 - d
  {
    assert d * k == d + d * (k - 1);
    assert d * k == d * (k + 1) - d;
  }

  lemma {:induction false} ClearedLow(x: nat, k: nat)
    ensures LowClear(ClearLow(x, k), k)
    ensures LowClear(x, k) ==> ClearLow(x, k) == x
  {
    if k > 0 {
      ClearedLow(x / 2, k - 1);
    }
  }

  /** Clearing the low bits takes off the remainder. */
  lemma {:induction false} ClearLowIsFloor(x: nat, k: nat)
    ensures ClearLow(x, k) == x - x % Pow2(k)
  {
    if k > 0 {
      ClearLowIsFloor(x / 2, k - 1);
      DoubledRemainder(x, Pow2(k - 1));
    }
  }

  lemma DoubledRemainder(x: nat, p: nat)
    requires p > 0
    ensures x % (2 * p) == 2 * (x / 2 % p) + x % 2
  {
    var y := x / 2;
    assert 2 * (p * (y / p)) == (2 * p) * (y / p);
    UniqueRemainder(2 * p, y / p, 2 * (y % p) + x % 2, x);
  }

  /** Two numbers have the same leading bits when one lies in the aligned block that starts at the other. */
  lemma {:induction false} SameLeadingBits(base: nat, a: nat, k: nat)
    requires LowClear(base, k)
    ensures base <= a < base + Pow2(k) <==> Shr(a, k) == Shr(base, k)
  {
    if k > 0 {
      SameLeadingBits(base / 2, a / 2, k - 1);
    }
  }

  lemma {:induction false} LowClearFewer(x: nat, k: nat, j: nat)
    requires LowClear(x, k) && j <= k
    ensures LowClear(x, j)
  {
    if j > 0 {
      LowClearFewer(x / 2, k - 1, j - 1);
    }
  }

  /** If exactly the k low bits are clear, taking away 2^k clears one more. */
  lemma {:induction false} LowClearNext(x: nat, k: nat)
    requires LowClear(x, k) && !LowClear(x, k + 1)
    ensures x >= Pow2(k) && LowClear(x - Pow2(k), k + 1)
  {
    if k > 0 {
      LowClearNext(x / 2, k - 1);
    }
  }

  lemma {:induction false} LowZerosClear(x: nat, k: nat)
    requires x > 0
    ensures LowClear(x, k) <==> k <= LowZeros(x)
  {
    if k > 0 && x % 2 == 0 {
      LowZerosClear(x / 2, k - 1);
    }
  }

  /** Adding 2^k at or below the lowest set bit. */
  lemma {:induction false} LowZerosAfterAdding(x: nat, k: nat)
    requires x > 0 && k <= LowZeros(x)
    ensures k < LowZeros(x) ==> LowZeros(x + Pow2(k)) == k
    ensures k == LowZeros(x) ==> LowZeros(x + Pow2(k)) > k
  {
    if k > 0 {
      LowZerosAfterAdding(x / 2, k - 1);
      assert (x + Pow2(k)) / 2 == x / 2 + Pow2(k - 1);
    }
  }

  lemma {:induction false} LowZerosOfPower(k: nat)
    ensures LowZeros(Pow2(k)) == k
  {
    if k > 0 {
      LowZerosOfPower(k - 1);
    }
  }

  lemma {:induction false} LowZerosBelow(x: nat, n: nat)
    requires 0 < x < Pow2(n)
    ensures LowZeros(x) < n
  {
    if x % 2 == 0 {
      LowZerosBelow(x / 2, n - 1);
    }
  }

  /** The low zero bits of 2^n - 2^k. */
  lemma {:induction false} LowZerosOfDifference(n: nat, k: nat)
    requires k < n
    ensures Pow2(k) < Pow2(n) && LowZeros(Pow2(n) - Pow2(k)) == k
  {
    Pow2Monotone(k, n);
    if k > 0 {
      LowZerosOfDifference(n - 1, k - 1);
      assert (Pow2(n) - Pow2(k)) / 2 == Pow2(n - 1) - Pow2(k - 1);
    }
  }

  /** TrailingZeros32 counts the clear low bits of a word. */
  lemma TrailingZerosClear(x: u32, k: nat)
    requires k <= 32
    ensures TrailingZeros32(x) <= 32 && (x != 0 ==> TrailingZeros32(x) <= 31)
    ensures LowClear(x, k) <==> k <= TrailingZeros32(x)
  {
    if x == 0 {
      ZeroLowClear(k);
    } else {
      PowersOfTwo();
      LowZerosBelow(x, 32);
      LowZerosClear(x, k);
    }
  }

  lemma {:induction false} ZeroLowClear(k: nat)
    ensures LowClear(0, k)
  {
    if k > 0 {
      ZeroLowClear(k - 1);
    }
  }
}
