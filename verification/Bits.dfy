/** Bitwise and on unbounded naturals, and `align_up` built from it. */
module Bits {
  import opened Core

  function Pow2(k: nat): (r: nat)
    ensures r >= 1
  {
    if k == 0 then 1 else 2 * Pow2(k - 1)
  }

  ghost predicate PowerOfTwo(a: int) { exists k: nat :: a == Pow2(k) }

  function BitAnd(a: nat, b: nat): nat {
    if a == 0 || b == 0 then 0
    else 2 * BitAnd(a / 2, b / 2) + (if a % 2 == 1 && b % 2 == 1 then 1 else 0)
  }

  /** The guard `align_up` applies to its alignment. */
  predicate GoodAlign(align: u32) { align != 0 && BitAnd(align, align - 1) == 0 }

  /** Rounds `value` up to a multiple of `align`; `None` for a bad alignment or a 32-bit overflow. */
  function AlignUp(value: u32, align: u32): Option<nat> {
    if !GoodAlign(align) then None
    else
      var mask := align - 1;
      if value + mask > U32_MAX then None else Some(BitAnd(value + mask, U32_MAX - mask))
  }

  lemma {:induction false} BitAndSelf(a: nat)
    ensures BitAnd(a, a) == a
  {
    if a != 0 { BitAndSelf(a / 2); }
  }

  lemma {:induction false} BitAndOnes(v: nat, n: nat)
    requires v < Pow2(n)
    ensures BitAnd(v, Pow2(n) - 1) == v
  {
    if v != 0 { BitAndOnes(v / 2, n - 1); }
  }

  /** The guard `a & (a - 1)` accepts exactly the powers of two. */
  lemma {:induction false} PowerOfTwoTest(a: nat)
    requires a > 0
    ensures BitAnd(a, a - 1) == 0 <==> PowerOfTwo(a)
  {
    if a == 1 {
      assert a == Pow2(0);
    } else if a % 2 == 1 {
      BitAndSelf(a / 2);
      assert (a - 1) / 2 == a / 2;
      forall k: nat ensures a != Pow2(k) {}
    } else {
      PowerOfTwoTest(a / 2);
      assert (a - 1) / 2 == a / 2 - 1;
      if k: nat :| a == Pow2(k) { assert a / 2 == Pow2(k - 1); }
      if k: nat :| a / 2 == Pow2(k) { assert a == Pow2(k + 1); }
    }
  }

  lemma GoodAlignIsPowerOfTwo(align: u32)
    ensures GoodAlign(align) <==> PowerOfTwo(align)
  {
    if align == 0 {
      assert forall k: nat :: Pow2(k) != 0;
    } else {
      PowerOfTwoTest(align);
    }
  }

  lemma ModDouble(v: nat, m: nat)
    requires m > 0
    ensures v % (2 * m) == 2 * ((v / 2) % m) + v % 2
  {
    var q, r := (v / 2) / m, (v / 2) % m;
    assert v == (2 * m) * q + (2 * r + v % 2);
    DivModUnique(v, 2 * m, q, 2 * r + v % 2);
  }

  lemma DivModUnique(v: int, m: int, q: int, r: int)
    requires m > 0 && 0 <= r < m && v == m * q + r
    ensures v / m == q && v % m == r
  {
    var d := v / m - q;
    assert m * d == r - v % m by { assert v == m * (v / m) + v % m; }
    MulSign(m, d);
  }

  lemma MulSign(m: int, d: int)
    requires m > 0
    ensures d >= 1 ==> m * d >= m
    ensures d <= -1 ==> m * d <= -m
  {
    if d >= 1 { assert m * d == m + m * (d - 1); }
    if d <= -1 { assert m * d == -m + m * (d + 1); }
  }

  /** Clearing the low `k` bits of an `n`-bit value rounds it down to a multiple of 2^k. */
  lemma {:induction false} ClearLowBits(v: nat, n: nat, k: nat)
    requires k <= n && v < Pow2(n)
    ensures Pow2(k) <= Pow2(n)
    ensures BitAnd(v, Pow2(n) - Pow2(k)) == v - v % Pow2(k)
  {
    if k == 0 {
      BitAndOnes(v, n);
    } else {
      ClearLowBits(v / 2, n - 1, k - 1);
      ModDouble(v, Pow2(k - 1));
      var m := Pow2(n - 1) - Pow2(k - 1);
      assert Pow2(n) - Pow2(k) == 2 * m;
      if v != 0 && m != 0 { assert BitAnd(v, 2 * m) == 2 * BitAnd(v / 2, m); }
      if m == 0 { assert BitAnd(v / 2, m) == 0; }
    }
  }

  lemma {:induction false} Pow2Monotone(j: nat, k: nat)
    requires j <= k
    ensures Pow2(j) <= Pow2(k)
    ensures Pow2(k) % Pow2(j) == 0
  {
    if j < k {
      Pow2Monotone(j, k - 1);
      var q := Pow2(k - 1) / Pow2(j);
      assert Pow2(k - 1) == Pow2(j) * q;
      DivModUnique(Pow2(k), Pow2(j), 2 * q, 0);
    } else {
      DivModUnique(Pow2(k), Pow2(j), 1, 0);
    }
  }

  lemma Pow32()
    ensures Pow2(32) == TWO_32
  {
    assert Pow2(8) == 0x100;
    assert Pow2(16) == 0x100 * Pow2(8);
    assert Pow2(24) == 0x100 * Pow2(16);
    assert Pow2(32) == 0x100 * Pow2(24);
  }

  lemma {:induction false} Pow2Exponent(k: nat)
    requires Pow2(k) <= U32_MAX
    ensures k <= 31
  {
    Pow32();
    if k >= 32 { Pow2Monotone(32, k); }
  }

  lemma MultipleStep(a: int, b: int, m: int)
    requires m > 0 && a % m == 0 && b % m == 0 && a < b
    ensures a + m <= b
  {
    var qa, qb := a / m, b / m;
    assert a == m * qa && b == m * qb;
    assert m * (qb - qa) == b - a;
    MulSign(m, qb - qa);
  }

  /** Clearing the remainder of `value + align - 1` gives the least multiple at or above `value`. */
  lemma DownIsLeast(value: nat, align: nat, top: nat, down: int)
    requires align > 0 && top == value + (align - 1) && down == top - top % align
    ensures value <= down <= top < down + align && down % align == 0
    ensures forall m :: value <= m && m % align == 0 ==> down <= m
  {
    DivModUnique(down, align, top / align, 0);
    forall m | value <= m && m % align == 0 ensures down <= m {
      if m < down { MultipleStep(m, down, align); }
    }
  }

  /** A multiple of a 32-bit power of two never straddles 2^32. */
  lemma NeverStraddles(align: u32, k: nat, top: nat, down: int)
    requires align == Pow2(k) && down <= top < down + align && down % align == 0 && top > U32_MAX
    ensures down > U32_MAX
  {
    Pow2Exponent(k);
    Pow32();
    Pow2Monotone(k, 32);
    if down < TWO_32 { MultipleStep(down, TWO_32, align); }
  }

  lemma MaskClearsRemainder(top: u32, align: u32, k: nat)
    requires align == Pow2(k)
    ensures GoodAlign(align) && BitAnd(top, U32_MAX - (align - 1)) == top - top % align
  {
    GoodAlignIsPowerOfTwo(align);
    Pow2Exponent(k);
    Pow32();
    ClearLowBits(top, 32, k);
  }

  /** The result of rounding up, by whether the least multiple fits in 32 bits. */
  lemma AlignUpResult(value: u32, align: u32, k: nat) returns (down: int)
    requires align == Pow2(k)
    ensures align > 0 && value <= down && down % align == 0
    ensures forall m :: value <= m && m % align == 0 ==> down <= m
    ensures AlignUp(value, align) == if down <= U32_MAX then Some(down) else None
  {
    var top := value + (align - 1);
    down := top - top % align;
    DownIsLeast(value, align, top, down);
    MaskClearsRemainder(0, align, k);
    if top <= U32_MAX {
      MaskClearsRemainder(top, align, k);
    } else {
      NeverStraddles(align, k, top, down);
    }
  }

  /** `align_up` is the least multiple of a power-of-two alignment at or above `value`,
      and fails exactly when no such multiple fits in 32 bits. */
  lemma AlignUpIsLeastMultiple(value: u32, align: u32)
    ensures AlignUp(value, align).Some? ==>
      var r := AlignUp(value, align).value;
      PowerOfTwo(align) && value <= r <= U32_MAX && r % align == 0
      && forall m :: value <= m && m % align == 0 ==> r <= m
    ensures AlignUp(value, align).None? <==>
      !PowerOfTwo(align) || forall m :: value <= m <= U32_MAX ==> m % align != 0
  {
    if PowerOfTwo(align) {
      var k: nat :| align == Pow2(k);
      var down := AlignUpResult(value, align, k);
    } else {
      GoodAlignIsPowerOfTwo(align);
    }
  }
}
