/** Static iteration hand-out for loops over long and over unsigned long long (iter.c:38-140,
    iter_ull.c:40-142), and the doacross slot of an iteration (ordered.c:341-348 and 420-432).

  Iterations are numbered 0 .. n-1.  A share is a range of iteration numbers; `LoopCounts` says
  how they are counted and which values they have.
 */
module IterStatic {
  import opened Arith
  import opened LoopCounts
  import opened Words

  datatype Share = Empty | Range(lo: nat, hi: nat)

  predicate In(x: nat, s: Share) {
    s.Range? && s.lo <= x < s.hi
  }

  /** Share of thread i of T on its given trip; chunk 0 stands for one share per thread. */
  function Ideal(n: nat, T: nat, chunk: nat, i: nat, trip: nat): Share
    requires i < T
  {
    if chunk == 0 then
      if trip > 0 then Empty
      else
        var q, t := n / T, n % T;
        var lo := if i < t then (q + 1) * i else q * i + t;
        var hi := lo + if i < t then q + 1 else q;
        if lo >= hi then Empty else Range(lo, hi)
    else
      var lo := (trip * T + i) * chunk;
      if lo >= n then Empty else Range(lo, if lo + chunk > n then n else lo + chunk)
  }

  /** The slot that doacross wait computes for iteration x. */
  function Slot(n: nat, T: nat, chunk: nat, x: nat): nat
    requires x < n && 0 < T
  {
    if chunk == 0 then
      var q, t := n / T, n % T;
      var boundary := t * (q + 1);
      if x < boundary then x / (q + 1)
      else if q == 0 then 0  // never reached, see SlotNeverDividesByZero
      else
        var above: nat := x - boundary;
        above / q + t
    else
      x / chunk % T
  }

  function Trip(T: nat, chunk: nat, x: nat): nat
    requires 0 < T
  {
    if chunk == 0 then 0 else x / chunk / T
  }

  /** With fewer iterations than threads q is 0, but then every iteration is below the boundary. */
  lemma SlotNeverDividesByZero(n: nat, T: nat, x: nat)
    requires x < n && 0 < T && n / T == 0
    ensures x < (n % T) * (n / T + 1)
  {
  }

  lemma BlockShare(n: nat, T: nat, i: nat, x: nat)
    requires i < T && x < n && In(x, Ideal(n, T, 0, i, 0))
    ensures Slot(n, T, 0, x) == i
  {
    var q, t := n / T, n % T;
    if i < t {
      LowerBlock(q, t, i, x);
    } else {
      UpperBlock(q, t, i, x);
    }
  }

  lemma LowerBlock(q: nat, t: nat, i: nat, x: nat)
    requires i < t && (q + 1) * i <= x < (q + 1) * i + q + 1
    ensures x < t * (q + 1) && x / (q + 1) == i
  {
    assert i * (q + 1) == (q + 1) * i && (i + 1) * (q + 1) == i * (q + 1) + (q + 1);
    MulMono(i + 1, t, q + 1);
    DivIs(x, q + 1, i);
  }

  lemma UpperBlock(q: nat, t: nat, i: nat, x: nat)
    requires t <= i && q * i + t <= x < q * i + t + q
    ensures t * (q + 1) <= x && (x - t * (q + 1)) / q == i - t
  {
    assert t * (q + 1) == t * q + t && q * i == i * q;
    MulMono(t, i, q);
    assert (i - t) * q == i * q - t * q;
    DivIs(x - t * (q + 1), q, i - t);
  }

  lemma LowerCovers(q: nat, t: nat, x: nat)
    requires x < t * (q + 1)
    ensures var i := x / (q + 1); i < t && (q + 1) * i <= x < (q + 1) * i + q + 1
  {
    var i := x / (q + 1);
    assert x == i * (q + 1) + x % (q + 1);
    assert i * (q + 1) == (q + 1) * i;
    if i >= t { MulMono(t, i, q + 1); }
  }

  lemma UpperCovers(n: nat, T: nat, q: nat, t: nat, x: nat)
    requires n == T * q + t && t < T && q > 0 && t * (q + 1) <= x < n
    ensures var i := (x - t * (q + 1)) / q + t; t <= i < T && q * i + t <= x < q * i + t + q
  {
    assert t * (q + 1) == t * q + t;
    var y := x - t * (q + 1);
    var j := y / q;
    var i := j + t;
    assert y == j * q + y % q;
    assert q * i == i * q == j * q + t * q;
    if i >= T { MulMono(T, i, q); }
  }

  lemma BlockCovers(n: nat, T: nat, x: nat)
    requires 0 < T && x < n
    ensures Slot(n, T, 0, x) < T && In(x, Ideal(n, T, 0, Slot(n, T, 0, x), 0))
  {
    var q, t := n / T, n % T;
    if x < t * (q + 1) {
      LowerCovers(q, t, x);
    } else {
      if q == 0 { SlotNeverDividesByZero(n, T, x); }
      UpperCovers(n, T, q, t, x);
    }
  }

  function Size(s: Share): nat {
    if s.Range? && s.lo < s.hi then s.hi - s.lo else 0
  }

  /** Without a chunk size each thread gets floor or ceiling of n / T iterations; earlier threads get no
      fewer than later ones, and earlier iterations (OpenMP 4.5 section 2.7.1). */
  lemma BlocksAreEven(n: nat, T: nat, i: nat, j: nat)
    requires i < j < T
    ensures var a, b := Ideal(n, T, 0, i, 0), Ideal(n, T, 0, j, 0);
      && Size(a) * T < n + T && n < Size(b) * T + T && Size(b) <= Size(a) <= Size(b) + 1
      && (a.Range? && b.Range? ==> a.hi <= b.lo)
  {
    var q, t := n / T, n % T;
    assert n == q * T + t;
    BlockSize(n, T, i);
    BlockSize(n, T, j);
    Distribute(q, 1, T);
    hide Ideal;
    if Ideal(n, T, 0, i, 0).Range? && Ideal(n, T, 0, j, 0).Range? { BlockOrder(n, T, i, j); }
  }

  lemma BlockSize(n: nat, T: nat, i: nat)
    requires i < T
    ensures Size(Ideal(n, T, 0, i, 0)) == if i < n % T then n / T + 1 else n / T
  {
  }

  lemma BlockOrder(n: nat, T: nat, i: nat, j: nat)
    requires i < j < T && Ideal(n, T, 0, i, 0).Range? && Ideal(n, T, 0, j, 0).Range?
    ensures Ideal(n, T, 0, i, 0).hi <= Ideal(n, T, 0, j, 0).lo
  {
    BlockStart(n, T, i);
    BlockStart(n, T, j);
    MulMono(i + 1, j, n / T);
  }

  /** Where the blocks start and end. */
  lemma BlockStart(n: nat, T: nat, i: nat)
    requires i < T && Ideal(n, T, 0, i, 0).Range?
    ensures var q, t, s := n / T, n % T, Ideal(n, T, 0, i, 0);
      && s.lo == i * q + (if i < t then i else t)
      && s.hi == (i + 1) * q + (if i < t then i + 1 else t)
  {
    var q := n / T;
    assert (q + 1) * i == i * q + i && q * i == i * q && (i + 1) * q == i * q + q;
  }

  lemma ChunkShare(n: nat, T: nat, c: nat, i: nat, trip: nat, x: nat)
    requires i < T && x < n && c > 0
    ensures In(x, Ideal(n, T, c, i, trip)) <==> x / c == trip * T + i
  {
    assert x == (x / c) * c + x % c;
    if In(x, Ideal(n, T, c, i, trip)) {
      DivIs(x, c, trip * T + i);
    }
  }

  /** Every iteration is in exactly one share: that of the thread whose slot doacross wait
      computes, on one definite trip. */
  lemma SharesPartition(n: nat, T: nat, chunk: nat, x: nat)
    requires 0 < T && x < n
    ensures Slot(n, T, chunk, x) < T
    ensures In(x, Ideal(n, T, chunk, Slot(n, T, chunk, x), Trip(T, chunk, x)))
    ensures forall i, trip: nat {:trigger Ideal(n, T, chunk, i, trip)} :: 0 <= i < T && In(x, Ideal(n, T, chunk, i, trip)) ==>
              i == Slot(n, T, chunk, x) && trip == Trip(T, chunk, x)
  {
    if chunk == 0 {
      BlockCovers(n, T, x);
      forall i: nat | i < T && In(x, Ideal(n, T, 0, i, 0)) ensures i == Slot(n, T, 0, x) {
        BlockShare(n, T, i, x);
      }
    } else {
      var k := x / chunk;
      assert k == (k / T) * T + k % T;
      ChunkShare(n, T, chunk, k % T, k / T, x);
      forall i: nat, trip: nat | i < T && In(x, Ideal(n, T, chunk, i, trip))
        ensures i == k % T && trip == k / T
      {
        ChunkShare(n, T, chunk, i, trip, x);
        ModIs(k, T, trip, i);
      }
    }
  }

  lemma SharesStayInRange(n: nat, T: nat, chunk: nat, i: nat, trip: nat)
    requires i < T
    ensures var s := Ideal(n, T, chunk, i, trip); s.Range? ==> s.lo < s.hi <= n
  {
    if chunk == 0 && trip == 0 {
      var q, t := n / T, n % T;
      assert n == T * q + t;
      if i < t {
        MulMono(i + 1, t, q + 1);
        MulMono(t, T, q);
        assert (i + 1) * (q + 1) == (q + 1) * i + (q + 1);
        assert t * (q + 1) == t * q + t;
      } else {
        MulMono(i + 1, T, q);
        assert (i + 1) * q == q * i + q;
      }
    }
  }

  ghost predicate HasLast(n: nat, T: nat, chunk: nat, i: nat, trip: nat) {
    i < T && var s := Ideal(n, T, chunk, i, trip); s.Range? && s.hi == n
  }

  /** A loop with iterations gives the last of them to exactly one thread, on one trip. */
  lemma ExactlyOneLast(n: nat, T: nat, chunk: nat)
    requires 0 < T && 0 < n
    ensures HasLast(n, T, chunk, Slot(n, T, chunk, n - 1), Trip(T, chunk, n - 1))
    ensures forall i: nat, trip: nat :: HasLast(n, T, chunk, i, trip) ==>
              i == Slot(n, T, chunk, n - 1) && trip == Trip(T, chunk, n - 1)
  {
    SharesPartition(n, T, chunk, n - 1);
    SharesStayInRange(n, T, chunk, Slot(n, T, chunk, n - 1), Trip(T, chunk, n - 1));
    forall i: nat, trip: nat | HasLast(n, T, chunk, i, trip)
      ensures In(n - 1, Ideal(n, T, chunk, i, trip))
    {
      SharesStayInRange(n, T, chunk, i, trip);
    }
  }

  /** The chunked share as computed: start and end are unsigned words that may wrap. */
  function Computed(n: nat, T: nat, chunk: nat, i: nat, trip: nat): Share
    requires i < T
  {
    var lo := Unsigned((trip * T + i) * chunk);
    var hi := Unsigned(lo + chunk);
    if lo >= n then Empty else Range(lo, if hi > n then n else hi)
  }

  /** Thread i makes this call: it is its first, or the previous one gave it a share that was
      not the last of the loop. */
  predicate Reached(n: nat, T: nat, chunk: nat, i: nat, trip: nat) {
    trip == 0 || ((trip - 1) * T + i) * chunk + chunk < n
  }

  /** The end of the last chunk is a word, and the first calls of the threads past the end of the
      loop do not wrap back into it.  The thread that got the last chunk makes no such call,
      which leaves T - 1 of them. */
  ghost predicate NoWrapIntoLoop(n: nat, T: nat, chunk: nat)
    requires 0 < chunk
  {
    var m := (n + chunk - 1) / chunk;
    && (n > 0 ==> m * chunk < WORD)
    && forall k: nat {:trigger Unsigned(k * chunk)} ::
         m <= k < m + T && !(n > 0 && k == m + T - 1) ==> Unsigned(k * chunk) >= n
  }

  lemma ChunksBeforeEnd(n: nat, chunk: nat, k: nat)
    requires 0 < chunk
    ensures k * chunk < n <==> k < (n + chunk - 1) / chunk
  {
    var m := (n + chunk - 1) / chunk;
    assert n + chunk - 1 == m * chunk + (n + chunk - 1) % chunk;
    if k < m {
      MulMono(k + 1, m, chunk);
      assert (k + 1) * chunk == k * chunk + chunk;
    } else {
      MulMono(m, k, chunk);
    }
  }

  lemma ReachedMeans(n: nat, T: nat, chunk: nat, i: nat, trip: nat)
    requires i < T && 0 < chunk
    ensures var m := (n + chunk - 1) / chunk;
            Reached(n, T, chunk, i, trip) <==> trip == 0 || (trip - 1) * T + i + 1 < m
  {
    if trip > 0 {
      var k := (trip - 1) * T + i;
      ChunksBeforeEnd(n, chunk, k + 1);
      assert (k + 1) * chunk == k * chunk + chunk;
    }
  }

  lemma ComputedAt(n: nat, T: nat, chunk: nat, i: nat, trip: nat)
    requires i < T && 0 < chunk < WORD && n < WORD
    ensures var k, m := trip * T + i, (n + chunk - 1) / chunk;
            Computed(n, T, chunk, i, trip) == Ideal(n, T, chunk, i, trip) <==>
              if k < m then k * chunk + chunk < WORD else Unsigned(k * chunk) >= n
  {
    var k := trip * T + i;
    ChunksBeforeEnd(n, chunk, k);
    var lo := k * chunk;
    if lo < n {
      UnsignedIs(lo, lo, 0);
      if lo + chunk < WORD {
        UnsignedIs(lo + chunk, lo + chunk, 0);
      } else {
        UnsignedIs(lo + chunk, lo + chunk - WORD, 1);
      }
    }
  }

  /** The computed shares of all calls made are the intended ones if and only if the end of the
      last chunk does not wrap and no first call past the end wraps back into the loop. */
  lemma ComputedIsIdeal(n: nat, T: nat, chunk: nat)
    requires 0 < T && 0 < chunk < WORD && n < WORD
    ensures NoWrapIntoLoop(n, T, chunk) <==>
      forall i: nat, trip: nat :: i < T && Reached(n, T, chunk, i, trip) ==>
        Computed(n, T, chunk, i, trip) == Ideal(n, T, chunk, i, trip)
  {
    if NoWrapIntoLoop(n, T, chunk) {
      forall i: nat, trip: nat | i < T && Reached(n, T, chunk, i, trip)
        ensures Computed(n, T, chunk, i, trip) == Ideal(n, T, chunk, i, trip)
      {
        ReachedIsIdeal(n, T, chunk, i, trip);
      }
    } else {
      WrapIsReached(n, T, chunk);
    }
  }

  lemma ReachedIsIdeal(n: nat, T: nat, chunk: nat, i: nat, trip: nat)
    requires 0 < T && 0 < chunk < WORD && n < WORD && NoWrapIntoLoop(n, T, chunk)
    requires i < T && Reached(n, T, chunk, i, trip)
    ensures Computed(n, T, chunk, i, trip) == Ideal(n, T, chunk, i, trip)
  {
    ComputedAt(n, T, chunk, i, trip);
    ReachedMeans(n, T, chunk, i, trip);
    ChunksBeforeEnd(n, chunk, 0);
    hide Computed, Ideal, Reached, Unsigned;
    var k, m := trip * T + i, (n + chunk - 1) / chunk;
    assert trip > 0 ==> k == (trip - 1) * T + i + T;
    if k < m {
      MulStep(k, m, chunk);
    }
  }

  lemma WrapIsReached(n: nat, T: nat, chunk: nat)
    requires 0 < T && 0 < chunk < WORD && n < WORD && !NoWrapIntoLoop(n, T, chunk)
    ensures exists i: nat, trip: nat ::
              i < T && Reached(n, T, chunk, i, trip) && Computed(n, T, chunk, i, trip) != Ideal(n, T, chunk, i, trip)
  {
    ChunksBeforeEnd(n, chunk, 0);
    var m := (n + chunk - 1) / chunk;
    var k: nat;
    if n > 0 && m * chunk >= WORD {
      k := m - 1;
      assert k * chunk + chunk == m * chunk;
    } else {
      k :| m <= k < m + T && !(n > 0 && k == m + T - 1) && Unsigned(k * chunk) < n;
    }
    hide Unsigned, NoWrapIntoLoop, Computed, Ideal, Reached;
    var i, trip := CallFor(n, T, chunk, k);
    ComputedAt(n, T, chunk, i, trip);
  }

  /** The call that asks for chunk k is made. */
  lemma CallFor(n: nat, T: nat, chunk: nat, k: nat) returns (i: nat, trip: nat)
    requires 0 < T && 0 < chunk
    requires k < (n + chunk - 1) / chunk + T - (if n > 0 then 1 else 0)
    ensures i < T && trip * T + i == k && Reached(n, T, chunk, i, trip)
  {
    i, trip := k % T, k / T;
    assert k == trip * T + i;
    ReachedMeans(n, T, chunk, i, trip);
    ChunksBeforeEnd(n, chunk, 0);
    hide Reached;
    assert trip > 0 ==> k == (trip - 1) * T + i + T;
  }

  /** It does happen: eight threads, chunks of 2^62; thread 4 starts at iteration 0 again. */
  lemma HugeChunkRepeatsIterations()
    ensures Reached(100, 8, 0x4000_0000_0000_0000, 4, 0)
    ensures Computed(100, 8, 0x4000_0000_0000_0000, 4, 0) == Computed(100, 8, 0x4000_0000_0000_0000, 0, 0) == Range(0, 100)
  {
  }

  /** A loop as gomp_loop_init or gomp_loop_ull_init leaves it. */
  datatype Loop = Loop(bounds: Bounds, chunk: nat) {
    predicate Valid() {
      bounds.Valid() && chunk < WORD
    }
  }

  /** What a thread is given on a trip: shares of the iterations counted. */
  function Given(loop: Loop, T: nat, i: nat, trip: nat): Share
    requires loop.Valid() && i < T
  {
    if loop.chunk == 0 then Ideal(loop.bounds.Count(), T, 0, i, trip)
    else Computed(loop.bounds.Count(), T, loop.chunk, i, trip)
  }

  /** When the count and the products fit, every call made gives the share that it should, and the
      thread runs exactly those iterations if the end of the last share is a word. */
  lemma StaticIsRight(loop: Loop, T: nat, i: nat, trip: nat)
    requires loop.Valid() && 1 < T && i < T && loop.bounds.RoundingFits()
    requires loop.chunk > 0 ==> NoWrapIntoLoop(loop.bounds.Count(), T, loop.chunk) && Reached(loop.bounds.Count(), T, loop.chunk, i, trip)
    ensures loop.bounds.Step() > 0 && loop.bounds.Count() == loop.bounds.Trips()
    ensures var b, s := loop.bounds, Given(loop, T, i, trip);
      && s == Ideal(b.Trips(), T, loop.chunk, i, trip)
      && (s.Range? ==>
            && s.lo < s.hi <= b.Trips()
            && Dir(b.up, b.Value(s.lo)) == b.Position(s.lo)
            && (TripCount(Dir(b.up, b.Value(s.lo)), Dir(b.up, b.Value(s.hi)), b.Step()) == s.hi - s.lo <==> b.HasPosition(s.hi)))
  {
    CountIsTrips(loop.bounds);
    var n := loop.bounds.Trips();
    assert n < WORD by { CountIsWord(loop.bounds); }
    if loop.chunk > 0 { ReachedIsIdeal(n, T, loop.chunk, i, trip); }
    SharesStayInRange(n, T, loop.chunk, i, trip);
    var s := Ideal(n, T, loop.chunk, i, trip);
    if s.Range? { RangeRuns(loop.bounds, s.lo, s.hi); }
  }

  lemma CountIsWord(b: Bounds)
    requires b.Valid()
    ensures b.Count() < WORD
  {
    StepIsPositive(b.kind, b.up, b.incr);
    if b.kind.Ull? {
      if b.up {
        SmallQuotient(Unsigned(b.end - b.next + b.incr - 1), b.incr);
      } else {
        SmallQuotient(Unsigned(b.next - b.end - b.incr - 1), Unsigned(-b.incr));
      }
    }
  }

  lemma SmallQuotient(x: nat, d: nat)
    requires d > 0 && x < WORD
    ensures x / d < WORD
  {
    QuotientIsSmaller(x, d, x / d);
  }

  /** The part of a thread's state that the static schedule updates. */
  class Worker {
    const teamId: nat
    var staticTrip: int

    constructor (id: nat)
      ensures teamId == id && staticTrip == 0
    {
      teamId := id;
      staticTrip := 0;
    }

    /** gomp_iter_static_next and gomp_iter_ull_static_next: 0 with a range of values; 1 when this
        thread has no more; -1 when it already received the last iteration of the loop.  A team
        of one takes the whole loop at once. */
    method StaticNext(loop: Loop, T: nat) returns (result: int, pstart: int, pend: int)
      requires loop.Valid() && teamId < T && staticTrip >= -1
      modifies this`staticTrip
      ensures old(staticTrip) == -1 ==> result == -1 && staticTrip == -1
      ensures old(staticTrip) >= 0 && T == 1 ==>
        && pstart == loop.bounds.next && pend == loop.bounds.end
        && result == (if loop.bounds.next == loop.bounds.end then 1 else 0)
        && staticTrip == -1
      ensures old(staticTrip) >= 0 && T > 1 ==>
        var s := Given(loop, T, teamId, old(staticTrip));
        if s.Range? then
          && result == 0
          && pstart == loop.bounds.Value(s.lo) && pend == loop.bounds.Value(s.hi)
          && staticTrip == if s.hi == loop.bounds.Count() then -1 else old(staticTrip) + 1
        else
          && result == 1
          && staticTrip == if loop.chunk == 0 && old(staticTrip) == 0 then 1 else old(staticTrip)
    {
      pstart, pend := 0, 0;
      if staticTrip == -1 {
        return -1, pstart, pend;
      }
      if T == 1 {
        pstart, pend := loop.bounds.next, loop.bounds.end;
        staticTrip := -1;
        return if loop.bounds.next == loop.bounds.end then 1 else 0, pstart, pend;
      }
      var n := loop.bounds.Count();
      if loop.chunk == 0 {
        if staticTrip > 0 {
          return 1, pstart, pend;
        }
        var q, t := n / T, n % T;
        if teamId < t {
          t := 0;
          q := q + 1;
        }
        var s0 := q * teamId + t;
        var e0 := s0 + q;
        if s0 >= e0 {
          staticTrip := 1;
          return 1, pstart, pend;
        }
        SharesStayInRange(n, T, 0, teamId, 0);
        pstart, pend := loop.bounds.Value(s0), loop.bounds.Value(e0);
        staticTrip := if e0 == n then -1 else 1;
        return 0, pstart, pend;
      } else {
        var s0 := Unsigned((staticTrip * T + teamId) * loop.chunk);
        var e0 := Unsigned(s0 + loop.chunk);
        if s0 >= n {
          return 1, pstart, pend;
        }
        if e0 > n {
          e0 := n;
        }
        pstart, pend := loop.bounds.Value(s0), loop.bounds.Value(e0);
        if e0 == n {
          staticTrip := -1;
        } else {
          staticTrip := staticTrip + 1;
        }
        return 0, pstart, pend;
      }
    }
  }

  /** The end of the last share can leave the words although the count is right: of two threads
      the second one runs nothing, and the last iteration is lost. */
  lemma LastShareCanVanish()
    ensures var b := Bounds(Long, true, HALF - 6, HALF - 1, 4); var loop := Loop(b, 0);
      && loop.Valid() && b.RoundingFits() && b.Count() == 2
      && Given(loop, 2, 1, 0) == Range(1, 2)
      && b.Value(1) == HALF - 2 && b.Value(2) == -HALF + 2
  {
    var b := Bounds(Long, true, HALF - 6, HALF - 1, 4);
    NormIs(Long, 2 * 4 + (HALF - 6), -HALF + 2, 1);
  }
}
