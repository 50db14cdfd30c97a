/** The table of primes of hashtab.h:109-141, the binary search in it (hashtab.h:146-166), and
    the remainder by multiplication with an inverse (hashtab.h:186-225).
 */
module HtabMod {
  import opened Arith
  import opened Bits

  const WORD := 0x1_0000_0000

  type hashval = x: nat | x < WORD

  datatype PrimeEnt = PrimeEnt(prime: hashval, inv: hashval, invM2: hashval, shift: nat)

  const PRIME_TAB: seq<PrimeEnt> := [
    PrimeEnt(7, 0x24924925, 0x9999999b, 2),
    PrimeEnt(13, 0x3b13b13c, 0x745d1747, 3),
    PrimeEnt(31, 0x08421085, 0x1a7b9612, 4),
    PrimeEnt(61, 0x0c9714fc, 0x15b1e5f8, 5),
    PrimeEnt(127, 0x02040811, 0x0624dd30, 6),
    PrimeEnt(251, 0x05197f7e, 0x073260a5, 7),
    PrimeEnt(509, 0x01824366, 0x02864fc8, 8),
    PrimeEnt(1021, 0x00c0906d, 0x014191f7, 9),
    PrimeEnt(2039, 0x0121456f, 0x0161e69e, 10),
    PrimeEnt(4093, 0x00300902, 0x00501908, 11),
    PrimeEnt(8191, 0x00080041, 0x00180241, 12),
    PrimeEnt(16381, 0x000c0091, 0x00140191, 13),
    PrimeEnt(32749, 0x002605a5, 0x002a06e6, 14),
    PrimeEnt(65521, 0x000f00e2, 0x00110122, 15),
    PrimeEnt(131071, 0x00008001, 0x00018003, 16),
    PrimeEnt(262139, 0x00014002, 0x0001c004, 17),
    PrimeEnt(524287, 0x00002001, 0x00006001, 18),
    PrimeEnt(1048573, 0x00003001, 0x00005001, 19),
    PrimeEnt(2097143, 0x00004801, 0x00005801, 20),
    PrimeEnt(4194301, 0x00000c01, 0x00001401, 21),
    PrimeEnt(8388593, 0x00001e01, 0x00002201, 22),
    PrimeEnt(16777213, 0x00000301, 0x00000501, 23),
    PrimeEnt(33554393, 0x00001381, 0x00001481, 24),
    PrimeEnt(67108859, 0x00000141, 0x000001c1, 25),
    PrimeEnt(134217689, 0x000004e1, 0x00000521, 26),
    PrimeEnt(268435399, 0x00000391, 0x000003b1, 27),
    PrimeEnt(536870909, 0x00000019, 0x00000029, 28),
    PrimeEnt(1073741789, 0x0000008d, 0x00000095, 29),
    PrimeEnt(2147483647, 0x00000003, 0x00000007, 30),
    PrimeEnt(0xfffffffb, 0x00000006, 0x00000008, 31)
  ]

  /** htab_mod_1, on 32-bit words. */
  function Mod1(x: hashval, y: hashval, inv: hashval, shift: nat): (r: hashval) {
    var t1 := x * inv / WORD;
    var t2 := (x - t1) % WORD;
    var t3 := t2 / 2;
    var t4 := (t1 + t3) % WORD;
    var q := t4 / Pow2(shift);
    (x - q * y) % WORD
  }

  /** What makes inv an inverse of y. */
  ghost predicate IsInverse(y: hashval, inv: hashval, shift: nat) {
    var l := shift + 1;
    y > 0 && Pow2(32 + l) <= (WORD + inv) * y <= Pow2(32 + l) + Pow2(l)
  }

  ghost predicate RowOk(e: PrimeEnt) {
    && e.prime > 2 && e.shift < 32
    && IsInverse(e.prime, e.inv, e.shift) && IsInverse(e.prime - 2, e.invM2, e.shift)
  }

  lemma SmallPowers()
    ensures Pow2(3) == 0x8
    ensures Pow2(4) == 0x10
    ensures Pow2(5) == 0x20
    ensures Pow2(6) == 0x40
    ensures Pow2(7) == 0x80
    ensures Pow2(8) == 0x100
    ensures Pow2(9) == 0x200
    ensures Pow2(10) == 0x400
    ensures Pow2(11) == 0x800
    ensures Pow2(12) == 0x1000
    ensures Pow2(13) == 0x2000
    ensures Pow2(14) == 0x4000
    ensures Pow2(15) == 0x8000
    ensures Pow2(16) == 0x10000
    ensures Pow2(17) == 0x20000
    ensures Pow2(18) == 0x40000
    ensures Pow2(19) == 0x80000
    ensures Pow2(20) == 0x100000
    ensures Pow2(21) == 0x200000
    ensures Pow2(22) == 0x400000
    ensures Pow2(23) == 0x800000
    ensures Pow2(24) == 0x1000000
    ensures Pow2(25) == 0x2000000
    ensures Pow2(26) == 0x4000000
    ensures Pow2(27) == 0x8000000
    ensures Pow2(28) == 0x10000000
    ensures Pow2(29) == 0x20000000
    ensures Pow2(30) == 0x40000000
    ensures Pow2(31) == 0x80000000
    ensures Pow2(32) == 0x100000000
  {
    assert Pow2(2) == 4;
  }

  lemma IsRow(p: hashval, inv: hashval, invM2: hashval, shift: nat, power: nat)
    requires p > 2 && shift < 32 && Pow2(shift + 1) == power
    requires WORD * power <= (WORD + inv) * p <= WORD * power + power
    requires WORD * power <= (WORD + invM2) * (p - 2) <= WORD * power + power
    ensures RowOk(PrimeEnt(p, inv, invM2, shift))
  {
    Pow2Of32And64();
    Pow2Sum(32, shift + 1);
  }

  /** Every row of the table holds inverses of its prime and of its prime minus two. */
  lemma EveryRowIsOk(i: nat)
    requires i < |PRIME_TAB|
    ensures RowOk(PRIME_TAB[i])
  {
    if i < 10 {
      FirstRows(i);
    } else if i < 20 {
      MiddleRows(i);
    } else {
      LastRows(i);
    }
  }

  lemma FirstRows(i: nat)
    requires i < 10
    ensures RowOk(PRIME_TAB[i])
  {
    SmallPowers();
    hide RowOk, Pow2;
    if i == 0 {
      IsRow(7, 0x24924925, 0x9999999b, 2, 0x8);
    } else if i == 1 {
      IsRow(13, 0x3b13b13c, 0x745d1747, 3, 0x10);
    } else if i == 2 {
      IsRow(31, 0x08421085, 0x1a7b9612, 4, 0x20);
    } else if i == 3 {
      IsRow(61, 0x0c9714fc, 0x15b1e5f8, 5, 0x40);
    } else if i == 4 {
      IsRow(127, 0x02040811, 0x0624dd30, 6, 0x80);
    } else if i == 5 {
      IsRow(251, 0x05197f7e, 0x073260a5, 7, 0x100);
    } else if i == 6 {
      IsRow(509, 0x01824366, 0x02864fc8, 8, 0x200);
    } else if i == 7 {
      IsRow(1021, 0x00c0906d, 0x014191f7, 9, 0x400);
    } else if i == 8 {
      IsRow(2039, 0x0121456f, 0x0161e69e, 10, 0x800);
    } else if i == 9 {
      IsRow(4093, 0x00300902, 0x00501908, 11, 0x1000);
    }
  }

  lemma MiddleRows(i: nat)
    requires 10 <= i < 20
    ensures RowOk(PRIME_TAB[i])
  {
    SmallPowers();
    hide RowOk, Pow2;
    if i == 10 {
      IsRow(8191, 0x00080041, 0x00180241, 12, 0x2000);
    } else if i == 11 {
      IsRow(16381, 0x000c0091, 0x00140191, 13, 0x4000);
    } else if i == 12 {
      IsRow(32749, 0x002605a5, 0x002a06e6, 14, 0x8000);
    } else if i == 13 {
      IsRow(65521, 0x000f00e2, 0x00110122, 15, 0x10000);
    } else if i == 14 {
      IsRow(131071, 0x00008001, 0x00018003, 16, 0x20000);
    } else if i == 15 {
      IsRow(262139, 0x00014002, 0x0001c004, 17, 0x40000);
    } else if i == 16 {
      IsRow(524287, 0x00002001, 0x00006001, 18, 0x80000);
    } else if i == 17 {
      IsRow(1048573, 0x00003001, 0x00005001, 19, 0x100000);
    } else if i == 18 {
      IsRow(2097143, 0x00004801, 0x00005801, 20, 0x200000);
    } else if i == 19 {
      IsRow(4194301, 0x00000c01, 0x00001401, 21, 0x400000);
    }
  }

  lemma LastRows(i: nat)
    requires 20 <= i < |PRIME_TAB|
    ensures RowOk(PRIME_TAB[i])
  {
    SmallPowers();
    hide RowOk, Pow2;
    if i == 20 {
      IsRow(8388593, 0x00001e01, 0x00002201, 22, 0x800000);
    } else if i == 21 {
      IsRow(16777213, 0x00000301, 0x00000501, 23, 0x1000000);
    } else if i == 22 {
      IsRow(33554393, 0x00001381, 0x00001481, 24, 0x2000000);
    } else if i == 23 {
      IsRow(67108859, 0x00000141, 0x000001c1, 25, 0x4000000);
    } else if i == 24 {
      IsRow(134217689, 0x000004e1, 0x00000521, 26, 0x8000000);
    } else if i == 25 {
      IsRow(268435399, 0x00000391, 0x000003b1, 27, 0x10000000);
    } else if i == 26 {
      IsRow(536870909, 0x00000019, 0x00000029, 28, 0x20000000);
    } else if i == 27 {
      IsRow(1073741789, 0x0000008d, 0x00000095, 29, 0x40000000);
    } else if i == 28 {
      IsRow(2147483647, 0x00000003, 0x00000007, 30, 0x80000000);
    } else if i == 29 {
      IsRow(0xfffffffb, 0x00000006, 0x00000008, 31, 0x100000000);
    }
  }

  lemma Swap(a: nat, b: nat, c: nat)
    ensures a * (b * c) == (a * c) * b
    ensures a * (b * c) == (a * b) * c
  {
  }

  lemma LowerBound(x: nat, y: nat, m: nat, a: nat, q: nat)
    requires q * y <= x && a <= m * y
    ensures q * a <= x * m
  {
    MulMono(a, m * y, q);
    Swap(q, m, y);
    MulMono(q * y, x, m);
  }

  lemma UpperStep(x: nat, z: nat, a: nat)
    requires a <= z && x * (z - a) < a
    ensures x * z < (x + 1) * a
  {
    var e := z - a;
    Distribute(a, e, x);
    Distribute(x, 1, a);
  }

  lemma UpperBound(x: nat, y: nat, m: nat, a: nat, q: nat)
    requires y > 0 && x < q * y && a <= m * y && x * (m * y - a) < a
    ensures x * m < q * a
  {
    UpperStep(x, m * y, a);
    MulMono(x + 1, q * y, a);
    Swap(x, m, y);
    SwapTimes(q, y, a);
    CancelLt(x * m, q * a, y);
  }

  lemma SwapTimes(q: nat, y: nat, a: nat)
    ensures (q * y) * a == (q * a) * y
  {
  }

  lemma ProductBounds(x: nat, y: nat, m: nat, a: nat, q: nat)
    requires y > 0 && q * y <= x < (q + 1) * y && a <= m * y && x * (m * y - a) < a
    ensures q * a <= x * m < (q + 1) * a
  {
    LowerBound(x, y, m, a, q);
    UpperBound(x, y, m, a, q + 1);
  }

  lemma QuotBounds(n: nat, a: nat)
    requires a > 0
    ensures Quot(n, a) * a <= n < (Quot(n, a) + 1) * a
  {
    DivBounds(n, a);
    Distribute(n / a, 1, a);
  }

  lemma QuotUnique(n: nat, a: nat, q: nat)
    requires a > 0 && q * a <= n < (q + 1) * a
    ensures Quot(n, a) == q
  {
    DivIs(n, a, q);
  }

  /** The quotient that the multiplication gives. */
  lemma QuotientBound(x: nat, y: nat, m: nat, a: nat)
    requires y > 0 && a > 0 && a <= m * y && x * (m * y - a) < a
    ensures Quot(x * m, a) == Quot(x, y)
  {
    hide Quot;
    var q := Quot(x, y);
    QuotBounds(x, y);
    ProductBounds(x, y, m, a, q);
    QuotUnique(x * m, a, q);
  }

  lemma CancelLt(a: nat, b: nat, y: nat)
    requires y > 0 && a * y < b * y
    ensures a < b
  {
    if b <= a { MulMono(b, a, y); }
  }

  lemma DivDiv(n: nat, a: nat, b: nat)
    requires a > 0 && b > 0
    ensures a * b > 0 && n / a / b == n / (a * b)
  {
    var k, j := n / a, n / a / b;
    DivBounds(n, a);
    Distribute(k, 1, a);
    DivBounds(k, b);
    Distribute(j, 1, b);
    MulMono(1, b, a);
    MulMono(j * b, k, a);
    MulMono(k + 1, (j + 1) * b, a);
    Associate(j, b, a);
    Associate(j + 1, b, a);
    DivIs(n, b * a, j);
  }

  /** With p = x * inv: no step of the computation wraps, and t4 is half of x + t1. */
  lemma StepsOf(x: hashval, p: nat)
    requires p <= x * WORD
    ensures var t1 := p / WORD;
      t1 <= x && (x - t1) % WORD == x - t1 && (t1 + (x - t1) / 2) % WORD == (x + t1) / 2
    ensures x + p / WORD == (x * WORD + p) / WORD
  {
  }

  /** q is the high part of the product with WORD + inv, shifted down by shift + 1. */
  lemma QuotientIs(x: hashval, inv: hashval, shift: nat)
    ensures var t1 := x * inv / WORD;
      && t1 <= x && (x - t1) % WORD == x - t1
      && (t1 + (x - t1) / 2) % WORD / Pow2(shift) == x * (WORD + inv) / Pow2(32 + shift + 1)
  {
    var t1, n := x * inv / WORD, x * (WORD + inv);
    MulMono(inv, WORD, x);
    StepsOf(x, x * inv);
    Distribute(WORD, inv, x);
    HalfThenShift(x + t1, n, shift);
  }

  lemma HalfThenShift(high: nat, n: nat, shift: nat)
    requires high == n / WORD
    ensures high / 2 / Pow2(shift) == n / Pow2(32 + shift + 1)
  {
    DivDiv(high, 2, Pow2(shift));
    DivDiv(n, WORD, Pow2(shift + 1));
    Pow2Of32And64();
    Pow2Sum(32, shift + 1);
  }

  lemma Excess(x: hashval, e: nat, p: nat)
    requires e <= p && p > 0
    ensures x * e < WORD * p
  {
    MulMono(e, p, x);
    MulStep(x, WORD, p);
  }

  lemma Mod1FromQuotient(x: hashval, y: hashval, inv: hashval, shift: nat)
    requires y > 0 && Quot(x * (WORD + inv), Pow2(32 + shift + 1)) == Quot(x, y)
    ensures Mod1(x, y, inv, shift) == x % y
  {
    QuotientIs(x, inv, shift);
    RemainderFrom(x, y, x / y);
  }

  lemma RemainderFrom(x: hashval, y: hashval, q: nat)
    requires y > 0 && q == x / y
    ensures (x - q * y) % WORD == x % y
  {
    assert x == q * y + x % y;
  }

  lemma InverseExcess(x: hashval, y: hashval, inv: hashval, shift: nat)
    requires IsInverse(y, inv, shift)
    ensures var a, z := Pow2(32 + shift + 1), (WORD + inv) * y;
      y > 0 && a <= z && x * (z - a) < a
  {
    Pow2Of32And64();
    Pow2Sum(32, shift + 1);
    Excess(x, (WORD + inv) * y - Pow2(32 + shift + 1), Pow2(shift + 1));
  }

  /** The remainder by multiplication is the remainder. */
  lemma Mod1IsMod(x: hashval, y: hashval, inv: hashval, shift: nat)
    requires IsInverse(y, inv, shift)
    ensures Mod1(x, y, inv, shift) == x % y
  {
    hide *;
    InverseExcess(x, y, inv, shift);
    QuotientBound(x, y, WORD + inv, Pow2(32 + shift + 1));
    Mod1FromQuotient(x, y, inv, shift);
  }

  /** htab_mod and htab_mod_m2, for every 32-bit hash and every row of the table: the second one
      is a step between 1 and the prime minus two. */
  lemma TableMods(x: hashval, i: nat)
    requires i < |PRIME_TAB|
    ensures var e := PRIME_TAB[i];
      && e.prime > 2
      && Mod1(x, e.prime, e.inv, e.shift) == x % e.prime
      && Mod1(x, e.prime - 2, e.invM2, e.shift) == x % (e.prime - 2)
      && 1 <= 1 + Mod1(x, e.prime - 2, e.invM2, e.shift) <= e.prime - 2
  {
    EveryRowIsOk(i);
    Mod1IsMod(x, PRIME_TAB[i].prime, PRIME_TAB[i].inv, PRIME_TAB[i].shift);
    Mod1IsMod(x, PRIME_TAB[i].prime - 2, PRIME_TAB[i].invM2, PRIME_TAB[i].shift);
  }

  lemma NextRowIsLarger(i: nat)
    requires i + 1 < |PRIME_TAB|
    ensures PRIME_TAB[i].prime + 1 < PRIME_TAB[i + 1].prime
  {
  }

  lemma {:induction false} RowsIncrease(i: nat, j: nat)
    requires i < j < |PRIME_TAB|
    ensures PRIME_TAB[i].prime + 1 < PRIME_TAB[j].prime
  {
    NextRowIsLarger(j - 1);
    if i < j - 1 { RowsIncrease(i, j - 1); }
  }

  /** higher_prime_index: the first row with a prime of at least n.  For n beyond the last prime
      the search ends behind the table. */
  method HigherPrimeIndex(n: nat) returns (low: nat)
    ensures low <= |PRIME_TAB|
    ensures forall i | 0 <= i < low :: PRIME_TAB[i].prime < n
    ensures forall i | low <= i < |PRIME_TAB| :: n <= PRIME_TAB[i].prime
  {
    low := 0;
    var high := |PRIME_TAB|;
    while low != high
      invariant low <= high <= |PRIME_TAB|
      invariant forall i | 0 <= i < low :: PRIME_TAB[i].prime < n
      invariant forall i | high <= i < |PRIME_TAB| :: n <= PRIME_TAB[i].prime
      decreases high - low
    {
      var mid := low + (high - low) / 2;
      hide PRIME_TAB;
      forall i | 0 <= i < |PRIME_TAB| && i != mid
        ensures if i < mid then PRIME_TAB[i].prime < PRIME_TAB[mid].prime else PRIME_TAB[mid].prime < PRIME_TAB[i].prime
      {
        if i < mid { RowsIncrease(i, mid); } else { RowsIncrease(mid, i); }
      }
      if n > PRIME_TAB[mid].prime {
        low := mid + 1;
      } else {
        high := mid;
      }
    }
  }
}
