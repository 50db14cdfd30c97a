/** Guided hand-out of iterations, under the lock and with compare-and-swap, for loops over long
    and over unsigned long long (iter.c:257-332, iter_ull.c:257-342).

  `next` is handed on from chunk to chunk.  All arithmetic wraps as the words do; a signed
  difference is divided as a long and only then converted to unsigned.
 */
module IterGuided {
  import opened Arith
  import opened Collections
  import opened LoopCounts
  import opened LoopRanges
  import opened Runs
  import opened Words

  type Tid = nat

  /** The fields set up once, in a team of nthreads. */
  datatype Loop = Loop(bounds: Bounds, chunkSize: nat, nthreads: nat) {
    ghost predicate Valid() {
      bounds.Valid() && bounds.Step() > 0 && 0 < chunkSize < WORD && 0 < nthreads < WORD
    }

    /** Distance in the direction of the loop. */
    function At(x: int): int {
      Dir(bounds.up, x)
    }

    function End(): int {
      bounds.end
    }

    /** The whole steps that are left, and as they are computed. */
    function Left(next: int): int
      requires bounds.Step() > 0
    {
      (At(End()) - At(next)) / bounds.Step()
    }

    function StepsLeft(next: int): nat
      requires Valid()
    {
      if bounds.kind.Long? then
        Unsigned(CDiv(Long.Norm(End() - next), bounds.incr))
      else if bounds.up then
        Quot(Unsigned(End() - next), bounds.incr)
      else
        UllSumIs(false, 0, bounds.incr);
        Quot(Unsigned(next - End()), Unsigned(-bounds.incr))
    }

    /** The steps of the next chunk: a share of those left, rounded up, but at least a chunk. */
    function ChunkSteps(left: nat): nat
      requires nthreads > 0
    {
      var q := Quot(Unsigned(left + nthreads - 1), nthreads);
      if q < chunkSize then chunkSize else q
    }

    /** Where a chunk that starts at next ends. */
    function ChunkEnd(next: int): int
      requires Valid()
    {
      var n := StepsLeft(next);
      var q := ChunkSteps(n);
      if q <= n then bounds.kind.Norm(next + q * bounds.incr) else End()
    }

    /** next is a word between the start and the end of the loop. */
    predicate Inside(next: int) {
      bounds.kind.Has(next) && At(bounds.next) <= At(next) <= At(End())
    }

    /** The distance from next to the end is what it should be, as a signed difference. */
    predicate WidthFits(next: int) {
      bounds.kind.Long? ==> At(End()) - At(next) <= if bounds.up then HALF - 1 else HALF
    }

    /** A loop whose steps left are always right. */
    predicate LeftFits() {
      WidthFits(bounds.next) || bounds.Step() == 1
    }

    /** A loop that is cut well with any chunk size: its steps left are right, or it is taken as a
        whole because no step fits into what its width lacks to 2^64, or by a team of one thread
        because whole steps do. */
    predicate CutsWell()
      requires bounds.Step() > 0
    {
      var lack := WORD - bounds.Gap();
      LeftFits() || lack < bounds.Step() || (nthreads == 1 && lack % bounds.Step() == 0)
    }

    /** A chunk goes forward inside the loop, by whole steps if not to the end. */
    predicate GoesOn(from: int, to: int)
      requires bounds.Step() > 0
    {
      At(from) < At(to) <= At(End()) && (to == End() || (At(to) - At(from)) % bounds.Step() == 0)
    }
  }

  // ---------------------------------------------------------------- one chunk

  /** The steps left are right if and only if the width fits, or the loop goes by ones. */
  lemma StepsLeftAre(loop: Loop, next: int)
    requires loop.Valid() && loop.Inside(next)
    ensures loop.StepsLeft(next) == loop.Left(next) <==> loop.WidthFits(next) || loop.bounds.Step() == 1
  {
    var b, gap := loop.bounds, loop.At(loop.End()) - loop.At(next);
    StepIsPositive(b.kind, b.up, b.incr);
    if b.kind.Long? {
      LongLeft(loop, next, gap);
    } else {
      UllLeft(loop, next, gap);
    }
  }

  lemma UllLeft(loop: Loop, next: int, gap: nat)
    requires loop.Valid() && loop.Inside(next) && loop.bounds.kind.Ull? && gap == loop.At(loop.End()) - loop.At(next)
    ensures loop.StepsLeft(next) == loop.Left(next)
  {
    UllSumIs(false, 0, loop.bounds.incr);
    UnsignedIs(gap, gap, 0);
    UnsignedIs(loop.bounds.incr, loop.bounds.incr, 0);
    hide Unsigned;
  }

  lemma LongLeft(loop: Loop, next: int, gap: nat)
    requires loop.Valid() && loop.Inside(next) && loop.bounds.kind.Long? && gap == loop.At(loop.End()) - loop.At(next)
    ensures loop.StepsLeft(next) == loop.Left(next) <==> loop.WidthFits(next) || loop.bounds.Step() == 1
  {
    LongQuotient(loop, next, gap);
    StepIsPositive(Long, loop.bounds.up, loop.bounds.incr);
    hide loop.StepsLeft, Unsigned;
    LongDifference(loop.bounds.up, gap, loop.bounds.Step());
  }

  lemma LongQuotient(loop: Loop, next: int, gap: nat)
    requires loop.Valid() && loop.Inside(next) && loop.bounds.kind.Long? && gap == loop.At(loop.End()) - loop.At(next)
    ensures var y, step := WrappedSum(loop.bounds.up, gap), loop.bounds.Step();
      loop.StepsLeft(next) == Unsigned(if y >= 0 then y / step else -((-y) / step))
  {
    var b := loop.bounds;
    StepIsPositive(b.kind, b.up, b.incr);
    DifferenceIs(b.up, loop.End() - next, gap);
    QuotientIs(b.up, Dir(b.up, WrappedSum(b.up, gap)), b.incr, b.Step());
  }

  lemma LongDifference(up: bool, gap: nat, step: nat)
    requires 0 < step <= HALF && gap < WORD
    ensures var y := WrappedSum(up, gap);
      Unsigned(if y >= 0 then y / step else -((-y) / step)) == gap / step <==>
        gap <= (if up then HALF - 1 else HALF) || step == 1
  {
    UnsignedQuotient(up, gap, step);
    if gap > (if up then HALF - 1 else HALF) {
      if step == 1 {
        UnsignedIs(-(WORD - gap), gap, -1);
      } else {
        WrapsOnce(gap, step);
      }
    }
  }

  lemma DifferenceIs(up: bool, x: int, gap: nat)
    requires x == Dir(up, gap) && gap < WORD
    ensures Long.Norm(x) == Dir(up, WrappedSum(up, gap))
  {
    var y := Dir(up, WrappedSum(up, gap));
    NormIs(Long, x, y, if y == x then 0 else if up then 1 else -1);
  }

  lemma LeftBounds(loop: Loop, next: int)
    requires loop.Valid() && loop.Inside(next)
    ensures 0 <= loop.Left(next) && loop.Left(next) * loop.bounds.Step() <= loop.At(loop.End()) - loop.At(next)
    ensures loop.At(loop.End()) - loop.At(next) < loop.Left(next) * loop.bounds.Step() + loop.bounds.Step()
  {
    DivBounds(loop.At(loop.End()) - loop.At(next), loop.bounds.Step());
  }

  /** q whole steps from next that do not pass the end are computed exactly. */
  lemma StepsAreExact(loop: Loop, next: int, q: nat)
    requires loop.Valid() && loop.Inside(next) && loop.At(next) + q * loop.bounds.Step() <= loop.At(loop.End())
    ensures loop.At(loop.bounds.kind.Norm(next + q * loop.bounds.incr)) == loop.At(next) + q * loop.bounds.Step()
  {
    var b := loop.bounds;
    var from := b.(next := next);
    assert from.Position(q) == loop.At(next) + q * b.Step();
    ValueIs(from, q);
  }

  /** A chunk starts where the last one ended, goes on in the direction of the loop by whole
      steps unless it is the last, and is not empty. */
  lemma ChunkMovesOn(loop: Loop, next: int)
    requires loop.Valid() && loop.Inside(next) && next != loop.End() && loop.StepsLeft(next) == loop.Left(next)
    ensures loop.Inside(loop.ChunkEnd(next)) && loop.GoesOn(next, loop.ChunkEnd(next))
  {
    LeftBounds(loop, next);
    var n: nat := loop.StepsLeft(next);
    var q := loop.ChunkSteps(n);
    if q <= n {
      MulMono(q, n, loop.bounds.Step());
      MulMono(1, q, loop.bounds.Step());
      StepsAreExact(loop, next, q);
      ModIs(q * loop.bounds.Step(), loop.bounds.Step(), q, 0);
    }
  }

  /** The share of n steps that a chunk should have. */
  function Share(loop: Loop, n: nat): nat
    requires loop.nthreads > 0
  {
    Quot(n + loop.nthreads - 1, loop.nthreads)
  }

  /** It has at least that, and the least chunk, if and only if the rounding up does not wrap or the
      least chunk covers for it. */
  lemma ChunkIsLargeEnough(loop: Loop, n: nat)
    requires loop.Valid() && n < WORD
    ensures loop.ChunkSteps(n) >= loop.chunkSize
    ensures loop.ChunkSteps(n) >= Share(loop, n) <==> n + loop.nthreads - 1 < WORD || loop.chunkSize >= Share(loop, n)
    ensures Share(loop, n) * loop.nthreads >= n
  {
    var sum, t := n + loop.nthreads - 1, loop.nthreads;
    DivBounds(sum, t);
    if sum < WORD {
      UnsignedIs(sum, sum, 0);
    } else {
      UnsignedIs(sum, sum - WORD, 1);
      DivIs(sum - WORD, t, 0);
      AtLeastOne(sum, t);
    }
  }

  /** The share is the least number of steps that gives nthreads threads all n. */
  lemma ShareIsLeast(loop: Loop, n: nat)
    requires loop.nthreads > 0
    ensures Share(loop, n) * loop.nthreads >= n
    ensures n > 0 ==> Share(loop, n) > 0 && (Share(loop, n) - 1) * loop.nthreads < n
    ensures n == 0 ==> Share(loop, n) == 0
  {
    var t: int, q: int := loop.nthreads, Share(loop, n);
    DivBounds(n + t - 1, t);
    assert (q - 1) * t == q * t - t;
    if n == 0 { DivIs(t - 1, t, 0); } else { AtLeastOne(n + t - 1, t); }
  }

  /** A chunk has no more steps than its share and the chunk size ask for, and when the share was lost
      by wrapping it has the chunk size. */
  lemma ChunkIsSmallEnough(loop: Loop, n: nat)
    requires loop.Valid() && n < WORD
    ensures loop.ChunkSteps(n) == if n + loop.nthreads - 1 < WORD && Share(loop, n) > loop.chunkSize then Share(loop, n) else loop.chunkSize
  {
    var sum, t := n + loop.nthreads - 1, loop.nthreads;
    if sum < WORD {
      UnsignedIs(sum, sum, 0);
    } else {
      UnsignedIs(sum, sum - WORD, 1);
      DivIs(sum - WORD, t, 0);
    }
  }

  /** The steps that a chunk from `from` should have. */
  function Wanted(loop: Loop, from: int): nat
    requires loop.Valid() && loop.Inside(from)
  {
    LeftBounds(loop, from);
    var share := Share(loop, loop.Left(from));
    if share > loop.chunkSize then share else loop.chunkSize
  }

  /** From there to `to` it has no more, and if the rounding of the share does not wrap it has so many
      or all that are left. */
  ghost predicate TakesItsShare(loop: Loop, from: int, to: int)
    requires loop.Valid() && loop.Inside(from)
  {
    var steps, left := loop.bounds.Step(), loop.Left(from);
    && loop.At(to) - loop.At(from) <= Wanted(loop, from) * steps
    && (left + loop.nthreads - 1 < WORD ==>
          if Wanted(loop, from) <= left then loop.At(to) - loop.At(from) == Wanted(loop, from) * steps else to == loop.End())
  }

  lemma ChunkTakesItsShare(loop: Loop, from: int)
    requires loop.Valid() && loop.Inside(from) && loop.LeftFits() && from != loop.End()
    ensures TakesItsShare(loop, from, loop.ChunkEnd(from))
  {
    StepsLeftAre(loop, from);
    LeftIsWord(loop, from);
    ChunkIsSmallEnough(loop, loop.Left(from));
    hide loop.StepsLeft, loop.ChunkSteps, Share;
    ChunkOf(loop, from, loop.Left(from), loop.ChunkSteps(loop.Left(from)), Wanted(loop, from));
  }

  lemma ChunkOf(loop: Loop, from: int, n: nat, q: nat, wanted: nat)
    requires loop.Valid() && loop.Inside(from) && loop.StepsLeft(from) == n == loop.Left(from) && loop.ChunkSteps(n) == q <= wanted
    ensures loop.At(loop.ChunkEnd(from)) - loop.At(from) <= wanted * loop.bounds.Step()
    ensures if q <= n then loop.At(loop.ChunkEnd(from)) - loop.At(from) == q * loop.bounds.Step() else loop.ChunkEnd(from) == loop.End()
  {
    var step: nat := loop.bounds.Step();
    LeftBounds(loop, from);
    MulMono(q, wanted, step);
    if q <= n {
      MulMono(q, n, step);
      StepsAreExact(loop, from, q);
    } else {
      MulMono(n + 1, q, step);
      Distribute(n, 1, step);
    }
  }

  lemma LeftIsWord(loop: Loop, from: int)
    requires loop.Valid() && loop.Inside(from)
    ensures 0 <= loop.Left(from) < WORD
  {
    LeftBounds(loop, from);
    MulMono(1, loop.bounds.Step(), loop.Left(from));
  }

  /** The share can be lost: of 2^64 - 1 steps for four threads a chunk gets one. */
  lemma ShareCanVanish()
    ensures var loop := Loop(Bounds(Ull, true, 0, WORD - 1, 1), 1, 4);
      && loop.Valid() && loop.StepsLeft(0) == WORD - 1
      && loop.ChunkSteps(WORD - 1) == 1 && Share(loop, WORD - 1) == 0x4000_0000_0000_0000
      && loop.ChunkEnd(0) == 1
  {
    UnsignedIs(WORD - 1, WORD - 1, 0);
    DivIs(WORD - 1, 1, WORD - 1);
    UnsignedIs(WORD - 1 + 4 - 1, 2, 1);
    NormIs(Ull, 1, 1, 0);
  }

  /** Where a loop is too wide for its differences, a chunk can go past the end: this one ends one
      behind it, so that its last iteration is not one of the loop. */
  lemma WideLoopGoesAstray()
    ensures var b := Bounds(Long, true, -HALF, 10, 3); var loop := Loop(b, 1, 1);
      && loop.Valid() && loop.Inside(-HALF) && !loop.WidthFits(-HALF)
      && loop.ChunkEnd(-HALF) == 11
  {
    var b := Bounds(Long, true, -HALF, 10, 3);
    NormIs(Long, 10 + HALF, 10 - HALF, 1);
    var m := (HALF - 10) / 3;
    assert m * 3 == HALF - 11;
    UnsignedIs(-m, WORD - m, -1);
    UnsignedIs(WORD - m + 1 - 1, WORD - m, 0);
    var q: nat := WORD - m;
    assert Quot(q, 1) == q by { DivIs(q, 1, q); }
    NormIs(Long, -HALF + q * 3, 11, 2);
  }

  // ---------------------------------------------------------------- loops that are too wide

  /** The steps left at the start of a loop that is too wide, by the m that fit into what its width
      lacks to 2^64. */
  ghost predicate TooWide(loop: Loop, lack: nat, m: nat) {
    && loop.Valid() && !loop.LeftFits() && lack == WORD - loop.bounds.Gap()
    && 2 <= loop.bounds.Step() <= HALF && 0 < lack <= HALF && 2 * m <= HALF
    && m * loop.bounds.Step() <= lack < m * loop.bounds.Step() + loop.bounds.Step()
    && loop.StepsLeft(loop.bounds.next) == if m == 0 then 0 else WORD - m
  }

  lemma WideLeft(loop: Loop) returns (lack: nat, m: nat)
    requires loop.Valid() && !loop.LeftFits()
    ensures TooWide(loop, lack, m)
  {
    WideFacts(loop);
    lack := WORD - loop.bounds.Gap();
    m := lack / loop.bounds.Step();
    WideStepsLeft(loop, lack, m);
    hide loop.StepsLeft, loop.LeftFits, loop.Valid, Unsigned;
    LackDivided(lack, loop.bounds.Step());
  }

  lemma WideFacts(loop: Loop)
    requires loop.Valid() && !loop.LeftFits()
    ensures loop.bounds.kind.Long? && 2 <= loop.bounds.Step() <= HALF && 0 < WORD - loop.bounds.Gap() <= HALF
  {
    StepIsPositive(loop.bounds.kind, loop.bounds.up, loop.bounds.incr);
  }

  lemma WideStepsLeft(loop: Loop, lack: nat, m: nat)
    requires loop.Valid() && !loop.LeftFits() && lack == WORD - loop.bounds.Gap() && m == lack / loop.bounds.Step()
    ensures loop.StepsLeft(loop.bounds.next) == Unsigned(-(lack / loop.bounds.Step()))
  {
    LongQuotient(loop, loop.bounds.next, loop.bounds.Gap());
    hide loop.StepsLeft, Unsigned;
  }

  lemma LackDivided(lack: nat, step: nat)
    requires 2 <= step && lack <= HALF
    ensures var m := lack / step;
      && 2 * m <= HALF && m * step <= lack < m * step + step
      && Unsigned(-m) == if m == 0 then 0 else WORD - m
  {
    var m := lack / step;
    DivBounds(lack, step);
    MulMono(2, step, m);
    if m > 0 { UnsignedIs(-m, WORD - m, -1); }
  }

  lemma LackIs(loop: Loop, lack: nat, m: nat)
    requires TooWide(loop, lack, m)
    ensures m == 0 <==> lack < loop.bounds.Step()
    ensures lack % loop.bounds.Step() == lack - m * loop.bounds.Step()
  {
    ModIs(lack, loop.bounds.Step(), m, lack - m * loop.bounds.Step());
    if m > 0 { MulMono(1, m, loop.bounds.Step()); }
  }

  /** Where a chunk of q steps ends depends on the steps modulo 2^64. */
  lemma FirstEnds(loop: Loop, n: nat, q: nat, off: nat, j: int)
    requires loop.Valid() && loop.StepsLeft(loop.bounds.next) == n && loop.ChunkSteps(n) == q <= n
    requires off < WORD && q * loop.bounds.Step() == off + j * WORD
    ensures var to := loop.ChunkEnd(loop.bounds.next);
      && (off <= loop.bounds.Gap() ==> loop.At(to) == loop.At(loop.bounds.next) + off)
      && (off > loop.bounds.Gap() ==> !(loop.At(loop.bounds.next) <= loop.At(to) <= loop.At(loop.End())))
  {
    var b := loop.bounds;
    assert loop.ChunkEnd(b.next) == b.Value(q);
    hide loop.ChunkEnd, loop.ChunkSteps, loop.StepsLeft;
    ValueIs(b, q);
    var k: int :| Dir(b.up, b.Value(q)) == b.Position(q) + k * WORD;
    hide b.Value;
    WrapsToInside(b, b.Value(q), off, j + k);
  }

  lemma WrapsToInside(b: Bounds, to: int, off: nat, k: int)
    requires b.Valid() && off < WORD && b.kind.Has(to) && Dir(b.up, to) == Dir(b.up, b.next) + off + k * WORD
    ensures off <= b.Gap() ==> Dir(b.up, to) == Dir(b.up, b.next) + off
    ensures off > b.Gap() ==> !(Dir(b.up, b.next) <= Dir(b.up, to) <= Dir(b.up, b.end))
  {
  }

  /** A loop that is too wide and cut well is taken at once. */
  lemma TakenAtOnce(loop: Loop)
    requires loop.Valid() && !loop.LeftFits() && loop.CutsWell()
    ensures loop.ChunkEnd(loop.bounds.next) == loop.End()
  {
    var lack, m := WideLeft(loop);
    LackIs(loop, lack, m);
    if m == 0 {
      NothingLeft(loop);
    } else {
      AloneIsWhole(loop, lack, m);
    }
  }

  lemma NothingLeft(loop: Loop)
    requires loop.Valid() && loop.StepsLeft(loop.bounds.next) == 0
    ensures loop.ChunkEnd(loop.bounds.next) == loop.End()
  {
    hide loop.StepsLeft;
  }

  /** One thread gets all steps that are left, or more. */
  lemma AloneGets(loop: Loop, n: nat)
    requires loop.Valid() && loop.nthreads == 1 && n < WORD
    ensures loop.ChunkSteps(n) == if n < loop.chunkSize then loop.chunkSize else n
  {
    UnsignedIs(n + 1 - 1, n, 0);
    DivIs(n, 1, n);
  }

  lemma AloneIsWhole(loop: Loop, lack: nat, m: nat)
    requires TooWide(loop, lack, m) && loop.nthreads == 1 && m > 0 && m * loop.bounds.Step() == lack
    ensures loop.ChunkEnd(loop.bounds.next) == loop.End()
  {
    hide loop.StepsLeft, loop.LeftFits;
    AloneGets(loop, WORD - m);
    if WORD - m >= loop.chunkSize {
      AllButM(m, lack, loop.bounds.Step(), 0);
      FirstEnds(loop, WORD - m, WORD - m, WORD - lack, loop.bounds.Step() - 1);
    }
  }

  lemma AllButM(m: nat, lack: nat, step: nat, r: nat)
    requires m * step + r == lack && m <= WORD
    ensures (WORD - m) * step == (WORD - lack + r) + (step - 1) * WORD
  {
    assert (WORD - m) * step == WORD * step - m * step;
  }

  /** Every other one goes astray with its first chunk, for some chunk size. */
  lemma FirstGoesAstray(loop: Loop) returns (chunkSize: nat)
    requires loop.Valid() && !loop.CutsWell()
    ensures 0 < chunkSize < WORD
    ensures var l := loop.(chunkSize := chunkSize); !l.GoesOn(l.bounds.next, l.ChunkEnd(l.bounds.next))
  {
    chunkSize := 1;
    var lack, m := WideLeft(loop);
    LackIs(loop, lack, m);
    if loop.nthreads > 1 {
      chunkSize := AstraySize(loop.bounds.Step());
      AstraySizeIs(loop.bounds.Step(), lack, m);
    }
    var l := loop.(chunkSize := chunkSize);
    assert TooWide(l, lack, m) by { SameLeft(loop, l, lack, m); }
    if loop.nthreads == 1 {
      AloneGoesAstray(l, lack, m);
    } else {
      TeamGoesAstray(l, lack, m);
    }
  }

  /** The steps left do not depend on chunk size and team. */
  lemma SameLeft(loop: Loop, l: Loop, lack: nat, m: nat)
    requires TooWide(loop, lack, m) && l.Valid() && l.bounds == loop.bounds
    ensures TooWide(l, lack, m)
  {
  }

  lemma AloneGoesAstray(loop: Loop, lack: nat, m: nat)
    requires TooWide(loop, lack, m) && m > 0 && m * loop.bounds.Step() != lack && loop.nthreads == 1 && loop.chunkSize == 1
    ensures !loop.GoesOn(loop.bounds.next, loop.ChunkEnd(loop.bounds.next))
  {
    hide loop.StepsLeft, loop.LeftFits;
    var step: nat := loop.bounds.Step();
    var r: nat := lack - m * step;
    AloneGets(loop, WORD - m);
    AllButM(m, lack, step, r);
    MulMono(1, m, step);
    FirstEnds(loop, WORD - m, WORD - m, WORD - lack + r, step - 1);
  }

  /** About half of all words, and such that its steps end just below a multiple of 2^64. */
  function AstraySize(step: nat): nat
    requires step > 0
  {
    Quot((step + 1) / 2 * WORD, step)
  }

  lemma AstraySizeIs(step: nat, lack: nat, m: nat)
    requires 2 <= step <= HALF && 0 < m && m * step <= lack <= HALF
    ensures var c, k := AstraySize(step), (step + 1) / 2;
      HALF <= c <= WORD - m && c * step <= k * WORD < c * step + step
  {
    var c, k := AstraySize(step), (step + 1) / 2;
    DivBounds(k * WORD, step);
    hide AstraySize;
    if c < HALF {
      MulStep(c, HALF, step);
    }
    assert (WORD - m + 1) * step == WORD * step - m * step + step;
    if c > WORD - m {
      MulMono(WORD - m + 1, c, step);
    }
  }

  /** In a team of several threads that is more than any share. */
  lemma ShareIsSmaller(loop: Loop, n: nat)
    requires loop.Valid() && loop.nthreads > 1 && loop.chunkSize >= HALF
    ensures loop.ChunkSteps(n) == loop.chunkSize
  {
    var sum := Unsigned(n + loop.nthreads - 1);
    var q := Quot(sum, loop.nthreads);
    DivBounds(sum, loop.nthreads);
    MulMono(2, loop.nthreads, q);
  }

  lemma TeamGoesAstray(loop: Loop, lack: nat, m: nat)
    requires TooWide(loop, lack, m) && m > 0 && loop.nthreads > 1 && loop.chunkSize == AstraySize(loop.bounds.Step())
    ensures !loop.GoesOn(loop.bounds.next, loop.ChunkEnd(loop.bounds.next))
  {
    hide loop.StepsLeft, loop.LeftFits;
    var step: nat, c, k := loop.bounds.Step(), loop.chunkSize, (loop.bounds.Step() + 1) / 2;
    AstraySizeIs(step, lack, m);
    hide AstraySize;
    ShareIsSmaller(loop, WORD - m);
    MulMono(1, m, step);
    if c * step == k * WORD {
      FirstEnds(loop, WORD - m, c, 0, k);
    } else {
      FirstEnds(loop, WORD - m, c, c * step - (k - 1) * WORD, k - 1);
    }
  }

  // ---------------------------------------------------------------- threads

  datatype Pc =
    | Ready
    | Loaded(start: int)  // about to compare-and-swap start
    | Done

  /** `taken` is history: the chunks in the order of the successful compare-and-swaps. */
  datatype State = State(next: int, pc: map<Tid, Pc>, taken: seq<(int, int)>)

  ghost predicate Step(loop: Loop, s: State, t: Tid, s': State)
    requires t in s.pc && loop.Valid()
  {
    match s.pc[t]
    case Ready => s' == s.(pc := s.pc[t := Loaded(s.next)])
    case Loaded(start) =>
      if start == loop.End() then s' == s.(pc := s.pc[t := Done])
      else if s.next == start then
        s' == State(loop.ChunkEnd(start), s.pc[t := Ready], s.taken + [(start, loop.ChunkEnd(start))])
      else s' == s.(pc := s.pc[t := Loaded(s.next)])
    case Done => false
  }

  ghost predicate Next(loop: Loop, s: State, s': State) {
    loop.Valid() && exists t :: t in s.pc && Step(loop, s, t, s')
  }

  ghost predicate Init(loop: Loop, s: State) {
    && loop.Valid() && s.next == loop.bounds.next && s.taken == [] && |s.pc| == loop.nthreads
    && forall t | t in s.pc :: s.pc[t] == Ready
  }

  /** The chunks follow each other from the start of the loop to `next`; each is the one that the
      locked form gives there. */
  ghost predicate Chained(loop: Loop, taken: seq<(int, int)>, next: int)
    requires loop.Valid()
  {
    && Consecutive(loop.bounds.next, taken, next)
    && (forall i | 0 <= i < |taken| :: taken[i].0 != loop.End() && taken[i].1 == loop.ChunkEnd(taken[i].0))
  }

  ghost predicate AllGoOn(loop: Loop, taken: seq<(int, int)>)
    requires loop.Valid()
  {
    forall i | 0 <= i < |taken| :: loop.GoesOn(taken[i].0, taken[i].1)
  }

  ghost predicate Inv(loop: Loop, s: State) {
    && loop.Valid()
    && Chained(loop, s.taken, s.next)
    && (forall t | t in s.pc :: s.pc[t] == Done ==> s.next == loop.End())
    && (forall t | t in s.pc :: s.pc[t] == Loaded(loop.End()) ==> s.next == loop.End())
    && (loop.CutsWell() ==> CutSoFar(loop, s.next) && AllGoOn(loop, s.taken))
  }

  /** A loop that is too wide but cut well is still whole, or is all taken. */
  ghost predicate CutSoFar(loop: Loop, next: int) {
    loop.Inside(next) && (loop.LeftFits() || next == loop.bounds.next || next == loop.End())
  }

  lemma StepKeepsInv(loop: Loop, s: State, t: Tid, s': State)
    requires Inv(loop, s) && t in s.pc && Step(loop, s, t, s')
    ensures Inv(loop, s')
  {
    hide loop.ChunkEnd, loop.StepsLeft, loop.CutsWell, loop.GoesOn, CutSoFar;
    if s.pc[t].Loaded? && s.pc[t].start != loop.End() && s.next == s.pc[t].start {
      if loop.CutsWell() { NextGoesOn(loop, s.next); }
      var last := |s.taken|;
      assert forall i | 0 <= i < last :: s'.taken[i] == s.taken[i];
      assert s'.taken[last] == (s.next, s'.next);
    }
  }

  lemma NextGoesOn(loop: Loop, next: int)
    requires loop.Valid() && loop.CutsWell() && CutSoFar(loop, next) && next != loop.End()
    ensures CutSoFar(loop, loop.ChunkEnd(next)) && loop.GoesOn(next, loop.ChunkEnd(next))
  {
    if loop.LeftFits() {
      StepsLeftAre(loop, next);
      ChunkMovesOn(loop, next);
    } else {
      TakenAtOnce(loop);
    }
    hide loop.ChunkEnd, loop.StepsLeft;
  }

  ghost predicate IsLoopRun(loop: Loop, run: seq<State>) {
    IsRun(s => Init(loop, s), (s, s') => Next(loop, s, s'), run)
  }

  lemma InvAlong(loop: Loop, run: seq<State>, k: nat)
    requires IsLoopRun(loop, run) && k < |run|
    ensures Inv(loop, run[k])
  {
    var inv := s => Inv(loop, s);
    forall s | Init(loop, s) ensures inv(s) {
      assert loop.Inside(loop.bounds.next);
    }
    forall s, s' | inv(s) && Next(loop, s, s') ensures inv(s') {
      var t :| t in s.pc && Step(loop, s, t, s');
      StepKeepsInv(loop, s, t, s');
    }
    HoldsAlong(s => Init(loop, s), (s, s') => Next(loop, s, s'), inv, run, k);
    assert inv(run[k]);
  }

  /** In every interleaving of the threads, the chunks handed out are consecutive, each is what the
      locked form would give at that point, and when a thread is told that nothing is left they
      reach the end of the loop.  In a loop that is cut well each goes forward inside the loop by
      whole steps. */
  lemma GuidedRefinesLocked(loop: Loop, run: seq<State>, k: nat)
    requires IsLoopRun(loop, run) && k < |run|
    ensures loop.Valid() && Chained(loop, run[k].taken, run[k].next)
    ensures forall t | t in run[k].pc && run[k].pc[t] == Done :: run[k].next == loop.End()
    ensures loop.CutsWell() ==> AllGoOn(loop, run[k].taken)
  {
    InvAlong(loop, run, k);
  }

  /** In such a loop the chunks, once they have reached the end, have run each iteration exactly
      once and nothing else. */
  lemma GuidedRunsTheLoop(loop: Loop, run: seq<State>, k: nat)
    requires IsLoopRun(loop, run) && k < |run| && loop.Valid() && loop.CutsWell() && run[k].next == loop.End()
    ensures RunsTheLoop(loop.bounds.up, loop.bounds.next, loop.End(), loop.bounds.Step(), run[k].taken)
  {
    GuidedRefinesLocked(loop, run, k);
    hide loop.CutsWell, IsLoopRun, loop.ChunkEnd;
    WholeStepsRunTheLoop(loop.bounds.up, loop.bounds.next, loop.End(), loop.bounds.Step(), run[k].taken);
  }

  /** How many steps a thread has before it at most while next stays. */
  function Rank(next: int, p: Pc): nat {
    match p
    case Ready => 3
    case Loaded(start) => if start == next then 1 else 2
    case Done => 0
  }

  ghost function Ranks(s: State): map<nat, nat> {
    map t | t in s.pc :: Rank(s.next, s.pc[t])
  }

  /** Less of the loop is left, or the same and fewer steps until all threads are told. */
  ghost predicate Nearer(loop: Loop, s': State, s: State) {
    || loop.At(s.next) < loop.At(s'.next) <= loop.At(loop.End())
    || (s'.next == s.next && Sum(Ranks(s')) < Sum(Ranks(s)))
  }

  /** In such a loop a thread that has not been told that nothing is left can go on, and every step of
      every thread brings the hand-out nearer to its end. */
  lemma HandOutEnds(loop: Loop, run: seq<State>, k: nat, t: Tid)
    requires IsLoopRun(loop, run) && k < |run| && t in run[k].pc && loop.Valid() && loop.CutsWell()
    ensures run[k].pc[t] != Done ==> exists s' :: Step(loop, run[k], t, s')
    ensures forall s' | Step(loop, run[k], t, s') :: Nearer(loop, s', run[k])
  {
    InvAlong(loop, run, k);
    var s := run[k];
    hide IsLoopRun;
    if s.pc[t] != Done {
      var end := loop.ChunkEnd(s.next);
      hide loop.ChunkEnd, loop.StepsLeft, Inv;
      var s' := match s.pc[t]
        case Loaded(start) =>
          if start == loop.End() then s.(pc := s.pc[t := Done])
          else if s.next == start then State(end, s.pc[t := Ready], s.taken + [(start, end)])
          else s.(pc := s.pc[t := Loaded(s.next)])
        case _ => s.(pc := s.pc[t := Loaded(s.next)]);
      assert Step(loop, s, t, s');
    }
    forall s' | Step(loop, s, t, s') ensures Nearer(loop, s', s) {
      StepGetsNearer(loop, s, t, s');
    }
  }

  lemma StepGetsNearer(loop: Loop, s: State, t: Tid, s': State)
    requires Inv(loop, s) && t in s.pc && Step(loop, s, t, s') && loop.CutsWell()
    ensures Nearer(loop, s', s)
  {
    hide loop.ChunkEnd, loop.StepsLeft, loop.CutsWell;
    if s.pc[t].Loaded? && s.next == s.pc[t].start != loop.End() {
      NextGoesOn(loop, s.next);
    } else {
      assert s.pc[t] == Loaded(loop.End()) ==> s.next == loop.End();
      hide CutSoFar, Inv;
      assert Ranks(s') == Ranks(s)[t := Rank(s.next, s'.pc[t])];
      SumUpdate(Ranks(s), t, Rank(s.next, s'.pc[t]));
    }
  }

  /** And each of them has taken its share of what was left when it was taken. */
  lemma ChunksAreShares(loop: Loop, run: seq<State>, k: nat, i: nat)
    requires IsLoopRun(loop, run) && k < |run| && i < |run[k].taken| && loop.Valid() && loop.LeftFits()
    ensures loop.Inside(run[k].taken[i].0) && TakesItsShare(loop, run[k].taken[i].0, run[k].taken[i].1)
  {
    GuidedRefinesLocked(loop, run, k);
    var taken := run[k].taken;
    AreInside(loop.bounds.up, loop.bounds.next, taken, run[k].next, i);
    assert loop.GoesOn(taken[i].0, taken[i].1);
    assert i > 0 ==> taken[i - 1].1 == taken[i].0 && taken[i].0 == loop.ChunkEnd(taken[i - 1].0);
    EndsAreWords(loop, if i > 0 then taken[i - 1].0 else loop.bounds.next);
    hide loop.ChunkEnd, loop.StepsLeft, TakesItsShare, IsLoopRun;
    ChunkTakesItsShare(loop, taken[i].0);
  }

  lemma EndsAreWords(loop: Loop, from: int)
    requires loop.Valid()
    ensures loop.bounds.kind.Has(loop.ChunkEnd(from))
  {
    hide loop.StepsLeft, loop.ChunkSteps;
  }

  // ---------------------------------------------------------------- which loops are cut well

  /** With any chunk size, all chunks of all runs of the team go on. */
  ghost predicate AlwaysGoesOn(loop: Loop) {
    forall chunkSize: nat :: 0 < chunkSize < WORD ==> RunsGoOn(loop.(chunkSize := chunkSize))
  }

  ghost predicate RunsGoOn(loop: Loop) {
    forall run: seq<State>, k: nat | IsLoopRun(loop, run) && k < |run| :: loop.Valid() && AllGoOn(loop, run[k].taken)
  }

  /** A team's chunks go on, with any chunk size and in any interleaving, if and only if the loop is
      cut well. */
  lemma CutsWellExactly(loop: Loop)
    requires loop.Valid()
    ensures AlwaysGoesOn(loop) <==> loop.CutsWell()
  {
    if loop.CutsWell() {
      forall chunkSize: nat | 0 < chunkSize < WORD ensures RunsGoOn(loop.(chunkSize := chunkSize)) {
        CutWellGoesOn(loop.(chunkSize := chunkSize));
      }
    } else {
      var chunkSize := FirstGoesAstray(loop);
      var l := loop.(chunkSize := chunkSize);
      var run := FirstTurn(l);
      assert run[2].taken[0] == (l.bounds.next, l.ChunkEnd(l.bounds.next));
      assert !AllGoOn(l, run[2].taken);
      assert !RunsGoOn(l);
    }
  }

  lemma CutWellGoesOn(loop: Loop)
    requires loop.Valid() && loop.CutsWell()
    ensures RunsGoOn(loop)
  {
    forall run: seq<State>, k: nat | IsLoopRun(loop, run) && k < |run| ensures AllGoOn(loop, run[k].taken) {
      GuidedRefinesLocked(loop, run, k);
    }
  }

  /** And in every team, if and only if its steps left are right, or no step fits into what its width
      lacks to 2^64. */
  lemma EveryTeamCutsWell(loop: Loop)
    requires loop.Valid()
    ensures (forall nthreads: nat :: 0 < nthreads < WORD ==> AlwaysGoesOn(loop.(nthreads := nthreads)))
      <==> loop.LeftFits() || WORD - loop.bounds.Gap() < loop.bounds.Step()
  {
    forall nthreads: nat | 0 < nthreads < WORD
      ensures AlwaysGoesOn(loop.(nthreads := nthreads)) <==> loop.(nthreads := nthreads).CutsWell()
    {
      CutsWellExactly(loop.(nthreads := nthreads));
    }
    hide AlwaysGoesOn;
    var pair := loop.(nthreads := 2);
    assert AlwaysGoesOn(pair) <==> pair.CutsWell();
  }

  /** The first thread of a team takes the first chunk. */
  lemma FirstTurn(loop: Loop) returns (run: seq<State>)
    requires loop.Valid() && loop.bounds.next != loop.End()
    ensures |run| == 3 && IsLoopRun(loop, run)
    ensures run[2].taken == [(loop.bounds.next, loop.ChunkEnd(loop.bounds.next))]
  {
    BelowHas(loop.nthreads);
    var next, ready := loop.bounds.next, map t | t in Below(loop.nthreads) :: Ready;
    assert ready.Keys == Below(loop.nthreads);
    var s := State(next, ready, []);
    var loaded := s.(pc := ready[0 := Loaded(next)]);
    var taken := State(loop.ChunkEnd(next), ready, [(next, loop.ChunkEnd(next))]);
    assert loaded.pc[0 := Ready] == ready;
    assert Step(loop, s, 0, loaded) && Step(loop, loaded, 0, taken);
    run := [s, loaded, taken];
  }
}
