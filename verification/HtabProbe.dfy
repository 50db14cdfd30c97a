/** The probe sequence of the hash table (hashtab.h:254-322): for a prime size the stride of the
    double hashing visits every slot. */
module HtabProbe {
  import opened Arith
  import opened Collections
  import opened Primes

  /** The slot of the k-th probe. */
  function Probe(start: nat, stride: nat, size: nat, k: nat): nat
    requires size > 0
  {
    (start + k * stride) % size
  }

  lemma SameModDifference(a: nat, b: nat, n: nat)
    requires n > 0 && a <= b && a % n == b % n
    ensures (b - a) % n == 0
  {
    assert a == n * (a / n) + a % n && b == n * (b / n) + b % n;
    assert b - a == n * (b / n - a / n);
    MultipleIsZero(n, b / n - a / n);
  }

  /** The first size probes go to different slots. */
  lemma ProbesDiffer(start: nat, stride: nat, size: nat, j: nat, k: nat)
    requires IsPrime(size) && 0 < stride < size && j < k < size
    ensures Probe(start, stride, size, j) != Probe(start, stride, size, k)
  {
    assert (k - j) % size == k - j;
    if Probe(start, stride, size, j) == Probe(start, stride, size, k) {
      assert k * stride == j * stride + (k - j) * stride;
      SameModDifference(start + j * stride, start + k * stride, size);
      PrimeDivides(size, k - j, stride);
    }
  }

  ghost function Visited(start: nat, stride: nat, size: nat, k: nat): set<nat>
    requires size > 0
  {
    set j | 0 <= j < k :: Probe(start, stride, size, j)
  }

  lemma {:induction false} VisitedGrows(start: nat, stride: nat, size: nat, k: nat)
    requires IsPrime(size) && 0 < stride < size && k <= size
    ensures |Visited(start, stride, size, k)| == k
  {
    if k > 0 {
      VisitedGrows(start, stride, size, k - 1);
      var v, p := Visited(start, stride, size, k - 1), Probe(start, stride, size, k - 1);
      assert Visited(start, stride, size, k) == v + {p};
      forall j: nat | j < k - 1 ensures Probe(start, stride, size, j) != p {
        ProbesDiffer(start, stride, size, j, k - 1);
      }
      assert p !in v;
    }
  }

  /** Every slot is visited within the first size probes. */
  lemma ProbesVisitAll(start: nat, stride: nat, size: nat, slot: nat)
    requires IsPrime(size) && 0 < stride < size && slot < size
    ensures exists k: nat :: k < size && Probe(start, stride, size, k) == slot
  {
    VisitedGrows(start, stride, size, size);
    BelowHas(size);
    SubsetCardinality(Visited(start, stride, size, size), Below(size));
    assert slot in Visited(start, stride, size, size);
  }

  /** One step of the loop: add the stride, and subtract the size once if needed. */
  lemma NextProbe(start: nat, stride: nat, size: nat, k: nat)
    requires 0 < stride < size
    ensures var index := Probe(start, stride, size, k) + stride;
      Probe(start, stride, size, k + 1) == if index >= size then index - size else index
  {
    var a := start + k * stride;
    assert start + (k + 1) * stride == a + stride;
    var i := a / size;
    assert a == i * size + a % size;
    if a % size + stride >= size {
      assert (i + 1) * size == i * size + size;
      ModIs(a + stride, size, i + 1, a % size + stride - size);
    } else {
      ModIs(a + stride, size, i, a % size + stride);
    }
  }
}
