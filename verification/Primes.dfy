/** Prime numbers, and the two ways in which the sizes of the hash table are shown to be prime:
    trial division, and for large numbers Pocklington's criterion.
 */
module Primes {
  import opened Arith
  import opened Collections

  ghost predicate IsPrime(p: nat) {
    p > 1 && forall d: nat :: 1 < d < p ==> p % d != 0
  }

  lemma ModZero(a: int, n: nat)
    requires n > 0
    ensures a % n == 0 <==> a == n * (a / n)
  {
  }

  lemma MultipleIsZero(n: nat, k: int)
    requires n > 0
    ensures (n * k) % n == 0
  {
    ModIs(n * k, n, k, 0);
  }

  /** A prime that divides a product with a smaller factor divides the other factor. */
  lemma {:induction false} PrimeDivides(p: nat, m: nat, d: nat)
    requires IsPrime(p) && 0 < d < p && (m * d) % p == 0
    ensures m % p == 0
    decreases d
  {
    if d > 1 {
      var q, r := p / d, p % d;
      assert p == q * d + r && 0 < r < d;
      Remainder(p, m, d, q, r);
      PrimeDivides(p, m, r);
    } else {
      assert m * d == m;
    }
  }

  lemma Remainder(p: nat, m: nat, d: nat, q: nat, r: nat)
    requires p > 0 && p == q * d + r && (m * d) % p == 0
    ensures (m * r) % p == 0
  {
    ModZero(m * d, p);
    var k := m * d / p;
    assert m * r == p * (m - q * k) by {
      assert m * p == m * (q * d) + m * r;
      assert m * (q * d) == q * (m * d);
      assert q * (p * k) == p * (q * k);
      assert p * (m - q * k) == p * m - p * (q * k);
    }
    MultipleIsZero(p, m - q * k);
  }

  // ---------------------------------------------------------------- trial division

  predicate Passes(p: nat, d: nat)
    requires d > 0
  {
    p % d != 0 || p <= d
  }

  /** Of the 8 * n odd numbers from d on, none divides p, apart from p itself. */
  predicate NoneDivides(p: nat, d: nat, n: nat)
    requires d > 0
    decreases n
  {
    n == 0 ||
    (&& Passes(p, d) && Passes(p, d + 2) && Passes(p, d + 4) && Passes(p, d + 6)
     && Passes(p, d + 8) && Passes(p, d + 10) && Passes(p, d + 12) && Passes(p, d + 14)
     && NoneDivides(p, d + 16, n - 1))
  }

  lemma {:induction false} NoneOfThem(p: nat, d: nat, n: nat, e: nat)
    requires d > 0 && NoneDivides(p, d, n) && d <= e < d + 16 * n && (e - d) % 2 == 0
    ensures Passes(p, e)
    decreases n
  {
    hide Passes;
    if e >= d + 16 {
      NoneOfThem(p, d + 16, n - 1, e);
    } else {
      assert e - d in {0, 2, 4, 6, 8, 10, 12, 14};
    }
  }

  /** An odd number is prime if no odd number up to its root divides it. */
  lemma TrialDivision(p: nat, n: nat)
    requires p > 2 && p % 2 == 1 && NoneDivides(p, 3, n) && (3 + 16 * n) * (3 + 16 * n) > p
    ensures IsPrime(p)
  {
    hide NoneDivides;
    var bound := 3 + 16 * n;
    forall d: nat | 1 < d && d * d <= p ensures p % d != 0 {
      if p % d == 0 {
        OddDivisor(p, d);
        BelowBound(d, p, bound);
        NoneOfThem(p, 3, n, d);
      }
    }
    UpToTheRoot(p);
  }

  lemma BelowBound(d: nat, p: nat, bound: nat)
    requires 1 < d && d * d <= p < bound * bound
    ensures d < bound && d < p
  {
    MulMono(2, d, d);
    if d >= bound { MulMono(bound, d, d); MulMono(bound, d, bound); }
  }

  lemma OddDivisor(p: nat, d: nat)
    requires p % 2 == 1 && d > 0 && p % d == 0
    ensures d % 2 == 1
  {
    ModZero(p, d);
    var e, k := d / 2, p / d;
    assert (2 * e) * k == 2 * (e * k);
  }

  /** A number is prime if none up to its root divides it. */
  lemma UpToTheRoot(p: nat)
    requires p > 1 && forall d: nat | 1 < d && d * d <= p :: p % d != 0
    ensures IsPrime(p)
  {
    forall d: nat | 1 < d < p ensures p % d != 0 {
      if d * d > p && p % d == 0 {
        ModZero(p, d);
        Codivisor(p, d, p / d);
      }
    }
  }

  lemma Codivisor(p: nat, d: nat, e: nat)
    requires p == d * e && 1 < d < p && d * d > p
    ensures 1 < e < p && e * e <= p && p % e == 0
  {
    assert d * 0 == 0 && d * 1 == d;
    if e >= d { MulMono(d, e, d); }
    MulMono(e, d, e);
    MulMono(2, d, e);
    MultipleIsZero(e, d);
  }

  // ---------------------------------------------------------------- powers modulo p

  function Power(a: nat, k: nat, p: nat): (r: nat)
    requires p > 1
    ensures r < p
  {
    if k == 0 then 1 else a * Power(a, k - 1, p) % p
  }

  lemma ModTimes(x: nat, y: nat, p: nat)
    requires p > 0
    ensures x * (y % p) % p == x * y % p
  {
    var q := y / p;
    assert y == q * p + y % p;
    assert x * y == (x * q) * p + x * (y % p);
    AddMultiple(x * (y % p), x * q, p);
  }

  lemma AddMultiple(x: nat, k: nat, p: nat)
    requires p > 0
    ensures (k * p + x) % p == x % p
  {
    assert x == x / p * p + x % p;
    assert (k + x / p) * p == k * p + x / p * p;
    ModIs(k * p + x, p, k + x / p, x % p);
  }

  lemma {:induction false} PowerSum(a: nat, j: nat, k: nat, p: nat)
    requires p > 1
    ensures Power(a, j + k, p) == Power(a, j, p) * Power(a, k, p) % p
  {
    if j == 0 {
      ModIs(Power(a, k, p), p, 0, Power(a, k, p));
    } else {
      PowerSum(a, j - 1, k, p);
      Regroup(a, Power(a, j - 1, p), Power(a, k, p), p);
      assert j + k - 1 == j - 1 + k;
    }
  }

  lemma Regroup(a: nat, x: nat, y: nat, p: nat)
    requires p > 0
    ensures a * (x * y % p) % p == (a * x % p) * y % p
  {
    ModTimes(a, x * y, p);
    ModTimes(y, a * x, p);
    var z := a * x % p;
    assert a * (x * y) == y * (a * x) && z * y == y * z;
  }

  /** Powers that are 1 may be left out. */
  lemma PowerLess(a: nat, j: nat, k: nat, p: nat)
    requires p > 1 && j <= k && Power(a, j, p) == 1
    ensures Power(a, k - j, p) == Power(a, k, p)
  {
    PowerSum(a, j, k - j, p);
    ModIs(Power(a, k - j, p), p, 0, Power(a, k - j, p));
  }

  lemma {:induction false} PowerMultiple(a: nat, r: nat, s: nat, p: nat)
    requires p > 1 && Power(a, r, p) == 1
    ensures Power(a, r * s, p) == 1
  {
    if s > 0 {
      PowerMultiple(a, r, s - 1, p);
      assert r * s - r == r * (s - 1);
      PowerLess(a, r, r * s, p);
    } else {
      assert r * s == 0;
    }
  }

  lemma {:induction false} PowerOfPower(a: nat, k: nat, j: nat, p: nat)
    requires p > 1
    ensures Power(Power(a, k, p), j, p) == Power(a, k * j, p)
  {
    if j > 0 {
      PowerOfPower(a, k, j - 1, p);
      var m: nat := k * (j - 1);
      assert k * j == k + m;
      PowerSum(a, k, m, p);
    } else {
      assert k * j == 0;
    }
  }

  lemma ModMod(x: nat, p: nat, d: nat)
    requires d > 1 && p > 0 && p % d == 0
    ensures x % p % d == x % d
  {
    ModZero(p, d);
    var k, e := x / p, p / d;
    DivBounds(x, p);
    SameResidue(x, x % p, k, p, e, d);
  }

  lemma SameResidue(x: nat, y: nat, k: nat, p: nat, e: nat, d: nat)
    requires d > 1 && x == k * p + y && p == d * e
    ensures y % d == x % d
  {
    assert k * (d * e) == (k * e) * d;
    AddMultiple(y, k * e, d);
  }
  /** Powers modulo a divisor. */
  lemma {:induction false} PowerMod(a: nat, k: nat, p: nat, d: nat)
    requires p > 1 && d > 1 && p % d == 0
    ensures Power(a, k, d) == Power(a, k, p) % d
  {
    if k > 0 {
      var x := Power(a, k - 1, p);
      PowerMod(a, k - 1, p, d);
      ModMod(a * x, p, d);
      ModTimes(a, x, d);
    } else {
      ModIs(1, d, 0, 1);
    }
  }

  // ---------------------------------------------------------------- order

  /** The smallest positive exponent up to n whose power is 1. */
  lemma {:induction false} Order(a: nat, n: nat, d: nat) returns (r: nat)
    requires d > 1 && n > 0 && Power(a, n, d) == 1
    ensures IsOrder(a, r, d)
    decreases n
  {
    if k: nat :| 0 < k < n && Power(a, k, d) == 1 {
      r := Order(a, k, d);
    } else {
      r := n;
    }
  }

  ghost predicate IsOrder(a: nat, r: nat, d: nat) {
    d > 1 && r > 0 && Power(a, r, d) == 1 && forall k | 0 < k < r :: Power(a, k, d) != 1
  }

  lemma OrderDivides(a: nat, r: nat, n: nat, d: nat) returns (t: nat)
    requires IsOrder(a, r, d) && Power(a, n, d) == 1
    ensures r * t == n
  {
    t := n / r;
    var m: nat := r * t;
    DivBounds(n, r);
    assert t * r == m;
    PowerMultiple(a, r, t, d);
    PowerLess(a, m, n, d);
  }

  ghost function Powers(a: nat, d: nat, k: nat): set<nat>
    requires d > 1
  {
    set j | 0 <= j < k :: Power(a, j, d)
  }

  /** A power below the order, and the rest up to the order, are inverse to each other. */
  lemma PowerInverse(a: nat, r: nat, d: nat, j: nat)
    requires d > 1 && Power(a, r, d) == 1 && j <= r
    ensures Power(a, j, d) * Power(a, r - j, d) % d == 1
    ensures Power(a, j, d) != 0
  {
    PowerSum(a, j, r - j, d);
    var x := Power(a, r - j, d);
    assert 0 * x == 0;
  }

  lemma PowersDiffer(a: nat, r: nat, d: nat, i: nat, j: nat)
    requires IsOrder(a, r, d) && i < j < r
    ensures Power(a, i, d) != Power(a, j, d)
  {
    if Power(a, i, d) == Power(a, j, d) {
      PowerInverse(a, r, d, i);
      PowerSum(a, j, r - i, d);
      assert j + (r - i) == r + (j - i);
      PowerLess(a, r, r + (j - i), d);
    }
  }

  lemma {:induction false} PowersGrow(a: nat, r: nat, d: nat, k: nat)
    requires IsOrder(a, r, d) && k <= r
    ensures |Powers(a, d, k)| == k
  {
    if k > 0 {
      PowersGrow(a, r, d, k - 1);
      var v, x := Powers(a, d, k - 1), Power(a, k - 1, d);
      assert Powers(a, d, k) == v + {x};
      forall j: nat | j < k - 1 ensures Power(a, j, d) != x {
        PowersDiffer(a, r, d, j, k - 1);
      }
      assert x !in v;
    }
  }

  /** The order is below d, because the powers are different residues, and none is 0. */
  lemma OrderIsSmall(a: nat, r: nat, d: nat)
    requires IsOrder(a, r, d)
    ensures r < d
  {
    PowersGrow(a, r, d, r);
    BelowHas(d);
    forall i: nat | i < r ensures Power(a, i, d) != 0 {
      PowerInverse(a, r, d, i);
    }
    SubsetCardinality(Powers(a, d, r), Below(d) - {0});
  }

  // ---------------------------------------------------------------- Pocklington's criterion

  function Product(factors: seq<nat>): nat {
    if factors == [] then 1 else factors[0] * Product(factors[1..])
  }

  /** A prime that divides a product divides a factor of it. */
  lemma PrimeFactor(q: nat, m: nat, x: nat)
    requires IsPrime(q) && m * x % q == 0 && x % q != 0
    ensures m % q == 0
  {
    ModTimes(m, x, q);
    PrimeDivides(q, m, x % q);
  }

  /** A product of primes divides r if it divides r * t and none of the primes divides t. */
  lemma {:induction false} ProductDivides(factors: seq<nat>, rest: nat, r: nat, t: nat) returns (s: nat)
    requires Product(factors) * rest == r * t && forall q | q in factors :: IsPrime(q) && t % q != 0
    ensures s * Product(factors) == r
    decreases |factors|
  {
    if factors == [] {
      s := r;
      assert s * 1 == r;
    } else {
      var q, others := factors[0], factors[1..];
      assert q in factors && IsPrime(q) && t % q != 0;
      assert forall f | f in others :: f in factors;
      var r' := FactorOut(q, Product(others), rest, r, t);
      s := ProductDivides(others, rest, r', t);
      assert s * (q * Product(others)) == r by { hide *; Swap(s, q, Product(others)); }
    }
  }

  lemma Swap(s: nat, q: nat, x: nat)
    ensures s * (q * x) == q * (s * x)
  {
  }

  lemma FactorOut(q: nat, x: nat, rest: nat, r: nat, t: nat) returns (r': nat)
    requires IsPrime(q) && t % q != 0 && q * x * rest == r * t
    ensures q * r' == r && x * rest == r' * t
  {
    MultipleIsZero(q, x * rest);
    assert q * x * rest == q * (x * rest);
    PrimeFactor(q, r, t);
    ModZero(r, q);
    r' := r / q;
    assert q * r' * t == q * (r' * t);
    Cancel(q, x * rest, r' * t);
  }

  lemma Cancel(q: nat, x: nat, y: nat)
    requires q > 0 && q * x == q * y
    ensures x == y
  {
    if x < y { MulStep(x, y, q); }
    if y < x { MulStep(y, x, q); }
  }

  /** y - 1 has an inverse modulo p, so y is not 1 modulo any divisor of p. */
  ghost predicate NowhereOne(p: nat, y: nat) {
    y > 0 && exists u: nat :: InverseOf(p, y, u)
  }

  predicate InverseOf(p: nat, y: nat, u: nat) {
    p > 1 && y > 0 && (y - 1) * u % p == 1
  }

  lemma NotOneModDivisor(p: nat, y: nat, d: nat)
    requires NowhereOne(p, y) && d > 1 && p > 1 && p % d == 0
    ensures y % d != 1
  {
    var u: nat :| InverseOf(p, y, u);
    if y % d == 1 {
      ModMod((y - 1) * u, p, d);
      ModIs(1, d, 0, 1);
      var k := y / d;
      assert y == k * d + 1;
      assert (y - 1) * u == d * (k * u);
      MultipleIsZero(d, k * u);
    }
  }

  /** a is a witness for p: its order modulo any divisor of p is a multiple of the product of the
      factors. */
  ghost predicate Witness(p: nat, a: nat, factors: seq<nat>, rest: nat) {
    && p > 1 && Power(a, p - 1, p) == 1 && Product(factors) * rest == p - 1
    && forall q | q in factors :: FactorOk(p, a, q)
  }

  ghost predicate FactorOk(p: nat, a: nat, q: nat) {
    p > 1 && IsPrime(q) && NowhereOne(p, Power(a, Quot(p - 1, q), p))
  }

  lemma FactorOfOrder(p: nat, a: nat, q: nat, d: nat, r: nat, t: nat)
    requires FactorOk(p, a, q) && d > 1 && p % d == 0 && IsOrder(a, r, d) && r * t == p - 1
    ensures t % q != 0
  {
    if t % q == 0 {
      SmallerPower(a, r, t, q, p - 1, d);
      PowerMod(a, Quot(p - 1, q), p, d);
      NotOneModDivisor(p, Power(a, Quot(p - 1, q), p), d);
    }
  }

  lemma SmallerPower(a: nat, r: nat, t: nat, f: nat, n: nat, d: nat)
    requires d > 1 && f > 0 && t % f == 0 && r * t == n && Power(a, r, d) == 1
    ensures Power(a, Quot(n, f), d) == 1
  {
    ModZero(t, f);
    var s := t / f;
    assert r * (f * s) == (r * s) * f;
    DivIs(n, f, r * s);
    PowerMultiple(a, r, s, d);
  }

  lemma DivisorIsLarge(p: nat, a: nat, factors: seq<nat>, rest: nat, d: nat)
    requires Witness(p, a, factors, rest) && d > 1 && p % d == 0
    ensures Product(factors) < d
  {
    PowerMod(a, p - 1, p, d);
    ModIs(1, d, 0, 1);
    var r := Order(a, p - 1, d);
    var t := OrderDivides(a, r, p - 1, d);
    forall q | q in factors ensures IsPrime(q) && t % q != 0 {
      FactorOfOrder(p, a, q, d, r, t);
    }
    hide Product, Power;
    var s := ProductDivides(factors, rest, r, t);
    OrderIsSmall(a, r, d);
    AtMost(s, Product(factors), r, d);
  }

  lemma AtMost(s: nat, x: nat, r: nat, d: nat)
    requires s * x == r && 0 < r < d
    ensures x < d
  {
    assert 0 * x == 0;
    MulMono(1, s, x);
  }

  /** A number with a witness is prime if the factors exceed its root. */
  lemma Pocklington(p: nat, a: nat, factors: seq<nat>, rest: nat)
    requires Witness(p, a, factors, rest) && Product(factors) * Product(factors) >= p
    ensures IsPrime(p)
  {
    var f := Product(factors);
    forall d: nat | 1 < d && d * d <= p ensures p % d != 0 {
      if p % d == 0 {
        DivisorIsLarge(p, a, factors, rest, d);
        MulMono(f, d, f);
        MulStep(f, d, d);
      }
    }
    UpToTheRoot(p);
  }

  // ---------------------------------------------------------------- large powers

  /** The k-th power of a is x. */
  ghost predicate At(p: nat, a: nat, k: nat, x: nat) {
    p > 1 && Power(a, k, p) == x
  }

  /** From the k-th power x by its square s to its fourth power times a small power of a. */
  predicate Hop(p: nat, a: nat, k: nat, x: nat, s: nat, digit: nat, y: nat) {
    p > 1 && digit < 4 && x * x % p == s &&
    s * s * (if digit == 0 then 1 else if digit == 1 then a else if digit == 2 then a * a else a * a * a) % p == y
  }

  lemma ZerothPower(p: nat, a: nat)
    requires p > 1
    ensures At(p, a, 0, 1)
  {
  }

  lemma HopIsPower(p: nat, a: nat, k: nat, x: nat, s: nat, digit: nat, y: nat)
    requires At(p, a, k, x) && Hop(p, a, k, x, s, digit, y)
    ensures At(p, a, 4 * k + digit, y)
  {
    hide At;
    FourthPower(p, a, k, x);
    var z := s * s;
    NextPowers(p, a, 4 * k, z);
    assert digit == 0 ==> y == z % p;
  }

  lemma FourthPower(p: nat, a: nat, k: nat, x: nat)
    requires At(p, a, k, x)
    ensures var s := x * x % p; At(p, a, 4 * k, s * s % p)
  {
    PowerSum(a, k, k, p);
    PowerSum(a, k + k, k + k, p);
    assert k + k + (k + k) == 4 * k;
    hide Power;
  }

  /** Three factors more. */
  lemma NextPowers(p: nat, a: nat, n: nat, z: nat)
    requires p > 1 && At(p, a, n, z % p)
    ensures At(p, a, n + 1, z * a % p) && At(p, a, n + 2, z * (a * a) % p) && At(p, a, n + 3, z * (a * a * a) % p)
  {
    hide At;
    NextPower(p, a, n, z);
    NextPower(p, a, n + 1, z * a);
    NextPower(p, a, n + 2, z * a * a);
    FactorsOneByOne(z, a);
  }

  lemma FactorsOneByOne(z: nat, a: nat)
    ensures z * a * a == z * (a * a) && z * a * a * a == z * (a * a * a)
  {
    assert a * a * a == (a * a) * a;
  }

  /** One factor more. */
  lemma NextPower(p: nat, a: nat, n: nat, z: nat)
    requires p > 1 && At(p, a, n, z % p)
    ensures At(p, a, n + 1, z * a % p)
  {
    ModTimes(a, z, p);
    assert a * z == z * a;
  }

  /** All hops from where one is. */
  lemma Hops(p: nat, a: nat)
    ensures forall k: nat, x: nat, s: nat, digit: nat, y: nat {:trigger At(p, a, k, x), Hop(p, a, k, x, s, digit, y)} ::
              At(p, a, k, x) && Hop(p, a, k, x, s, digit, y) ==> At(p, a, 4 * k + digit, y)
  {
    hide At, Hop;
    forall k: nat, x: nat, s: nat, digit: nat, y: nat {:trigger At(p, a, k, x), Hop(p, a, k, x, s, digit, y)}
      | At(p, a, k, x) && Hop(p, a, k, x, s, digit, y)
      ensures At(p, a, 4 * k + digit, y)
    {
      HopIsPower(p, a, k, x, s, digit, y);
    }
  }

  /** q * e is p - 1, and y - 1 has the inverse u. */
  predicate Splits(p: nat, q: nat, e: nat, y: nat, u: nat) {
    q * e == p - 1 && InverseOf(p, y, u)
  }

  lemma FactorChecked(p: nat, a: nat, q: nat, e: nat, y: nat, u: nat)
    requires At(p, a, e, y) && IsPrime(q) && Splits(p, q, e, y, u)
    ensures FactorOk(p, a, q)
  {
    assert e * q == q * e;
    ModIs(p - 1, q, e, 0);
  }

  /** And the q-th power of y is 1. */
  lemma PowerChecked(p: nat, a: nat, q: nat, e: nat, y: nat, u: nat)
    requires At(p, a, e, y) && At(p, y, q, 1) && Splits(p, q, e, y, u)
    ensures p > 1 && At(p, a, p - 1, 1)
  {
    assert e * q == q * e;
    PowerOfPower(a, e, q, p);
  }

  /** The factors divide p - 1 together, and exceed the root of p. */
  predicate Enough(p: nat, factors: seq<nat>, rest: nat) {
    Product(factors) * rest == p - 1 && Product(factors) * Product(factors) >= p
  }

  lemma CheckedPrime(p: nat, a: nat, factors: seq<nat>, rest: nat)
    requires p > 1 && At(p, a, p - 1, 1) && Enough(p, factors, rest) && forall q | q in factors :: FactorOk(p, a, q)
    ensures IsPrime(p)
  {
    Pocklington(p, a, factors, rest);
  }
}
