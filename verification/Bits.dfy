/** Powers of two, bit lengths and bitwise or on naturals. */
module Bits {
  import opened Arith

  function Pow2(k: nat): (p: nat)
    ensures p > 0
  {
    if k == 0 then 1 else 2 * Pow2(k - 1)
  }

  lemma {:induction false} Pow2Sum(j: nat, k: nat)
    ensures Pow2(j + k) == Pow2(j) * Pow2(k)
  {
    if j > 0 {
      Pow2Sum(j - 1, k);
      assert Pow2(j) * Pow2(k) == 2 * (Pow2(j - 1) * Pow2(k));
    }
  }

  lemma Pow2Of32And64()
    ensures Pow2(32) == 0x1_0000_0000
    ensures Pow2(64) == 0x1_0000_0000_0000_0000
  {
    assert Pow2(4) == 0x10;
    Pow2Sum(4, 4);
    hide Pow2;
    assert Pow2(8) == 0x100;
    Pow2Sum(8, 8);
    assert Pow2(16) == 0x1_0000;
    Pow2Sum(16, 16);
    assert Pow2(32) == 0x1_0000_0000;
    Pow2Sum(32, 32);
  }

  lemma Pow2Of31()
    ensures Pow2(31) == 0x8000_0000
  {
    Pow2Of32And64();
  }

  lemma {:induction false} Pow2Grows(j: nat, k: nat)
    requires j < k
    ensures 2 * Pow2(j) <= Pow2(k)
  {
    if j + 1 < k { Pow2Grows(j, k - 1); }
  }

  /** The number of bits of x: 64 - __builtin_clzl (x) for 0 < x < 2^64. */
  function BitLength(x: nat): nat {
    if x == 0 then 0 else 1 + BitLength(x / 2)
  }

  lemma {:induction false} BitLengthBounds(x: nat)
    ensures x < Pow2(BitLength(x))
    ensures x > 0 ==> Pow2(BitLength(x) - 1) <= x
  {
    if x > 0 { BitLengthBounds(x / 2); }
  }

  /** Bitwise or. */
  function BitOr(a: nat, b: nat): nat
    decreases a + b
  {
    if a == 0 then b
    else if b == 0 then a
    else (if a % 2 == 1 || b % 2 == 1 then 1 else 0) + 2 * BitOr(a / 2, b / 2)
  }

  /** Fields that do not overlap may be combined by or as well as by addition. */
  lemma {:induction false} OrOfDisjointFields(h: nat, k: nat, b: nat)
    requires b < Pow2(k)
    ensures BitOr(h * Pow2(k), b) == h * Pow2(k) + b
  {
    if k > 0 {
      var a := h * Pow2(k - 1);
      assert h * Pow2(k) == 2 * a;
      OrOfDisjointFields(h, k - 1, b / 2);
      if a > 0 && b > 0 {
        assert (2 * a) % 2 == 0 && (2 * a) / 2 == a;
        assert BitOr(2 * a, b) == b % 2 + 2 * BitOr(a, b / 2);
      }
    }
  }

  /** The same for a field of width w placed at bit r below everything in h. */
  lemma OrOfField(h: nat, w: nat, r: nat, x: nat)
    requires x < Pow2(w)
    ensures BitOr(h * Pow2(w + r), x * Pow2(r)) == h * Pow2(w + r) + x * Pow2(r)
  {
    Pow2Sum(w, r);
    MulStep(x, Pow2(w), Pow2(r));
    OrOfDisjointFields(h, w + r, x * Pow2(r));
  }

  lemma {:induction false} OrBelow(a: nat, b: nat, k: nat)
    ensures BitOr(a, b) < Pow2(k) <==> a < Pow2(k) && b < Pow2(k)
    decreases k
  {
    if k == 0 {
      if a > 0 && b > 0 { OrIsLarger(a, b); }
    } else if a > 0 && b > 0 {
      OrBelow(a / 2, b / 2, k - 1);
    }
  }

  lemma {:induction false} OrIsLarger(a: nat, b: nat)
    ensures BitOr(a, b) >= a
    decreases a
  {
    if a > 0 && b > 0 { OrIsLarger(a / 2, b / 2); }
  }
}
