/** Multiplication and division facts, division as C performs it, and the trip count of a loop. */
module Arith {

  /** Division as C performs it: towards zero. */
  function CDiv(a: int, b: int): int
    requires b != 0
  {
    if b > 0 then (if a >= 0 then a / b else -((-a) / b))
    else (if a <= 0 then (-a) / (-b) else -(a / (-b)))
  }

  lemma MulMono(a: int, b: int, c: nat)
    requires a <= b
    ensures a * c <= b * c
  {
    assert b * c == a * c + (b - a) * c;
  }

  lemma DivIs(x: int, d: nat, i: int)
    requires d > 0 && i * d <= x < i * d + d
    ensures x / d == i
  {
    var k := x / d;
    assert (k + 1) * d == k * d + d && (i + 1) * d == i * d + d;
    if k < i {
      MulMono(k + 1, i, d);
    } else if k > i {
      MulMono(i + 1, k, d);
    }
  }

  lemma ModIs(x: int, d: nat, i: int, r: nat)
    requires r < d && x == i * d + r
    ensures x / d == i && x % d == r
  {
    DivIs(x, d, i);
  }

  lemma Distribute(a: nat, b: nat, c: nat)
    ensures (a + b) * c == a * c + b * c
  {
  }

  lemma Associate(a: nat, b: nat, c: nat)
    ensures (a * b) * c == a * (b * c)
  {
  }

  /** a < b leaves room for one more c. */
  lemma MulStep(a: nat, b: nat, c: nat)
    requires a < b
    ensures a * c + c <= b * c
  {
    MulMono(a + 1, b, c);
    Distribute(a, 1, c);
  }

  lemma DivBounds(n: nat, d: nat)
    requires d > 0
    ensures n / d * d <= n < n / d * d + d
  {
    assert n == d * (n / d) + n % d;
  }

  /** The number of iterations of the loop from start towards end by incr. */
  function TripCount(start: int, end: int, incr: int): nat
    requires incr != 0
  {
    if incr > 0 then (if start < end then (end - start + incr - 1) / incr else 0)
    else (if start > end then (start - end - incr - 1) / (-incr) else 0)
  }

  lemma AtLeastOne(x: nat, d: nat)
    requires 0 < d <= x
    ensures x / d >= 1
  {
    DivBounds(x, d);
    assert 0 * d == 0;
  }

  /** Division, for proofs that keep it apart from products. */
  function Quot(n: nat, a: nat): nat
    requires a > 0
  {
    n / a
  }
}
