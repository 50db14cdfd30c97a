/** How many iterations a loop has, and with which values, as the words of the source compute it
    (iter.c:70-72 and 94-96, iter_ull.c:69-73 and 95-97, taskloop.c:56-86).
 */
module LoopCounts {
  import opened Arith
  import opened Words

  /** A loop that was set up: one without iterations has next == end. */
  datatype Bounds = Bounds(kind: Kind, up: bool, next: int, end: int, incr: int) {
    predicate Valid() {
      && kind.Has(next) && kind.Has(end) && IncrOk(kind, up, incr)
      && Dir(up, next) <= Dir(up, end)
    }

    function Step(): int {
      StepOf(kind, up, incr)
    }

    function Gap(): int {
      Dir(up, end) - Dir(up, next)
    }

    /** The number of iterations. */
    function Trips(): nat
      requires Step() > 0
    {
      TripCount(Dir(up, next), Dir(up, end), Step())
    }

    /** And as it is computed: in longs, or by cases in unsigned words. */
    function Count(): nat
      requires Valid()
    {
      if kind.Long? then
        var s := incr + if incr > 0 then -1 else 1;
        Unsigned(CDiv(Long.Norm(end - next + s), incr))
      else
        StepIsPositive(kind, up, incr);
        if up then Quot(Unsigned(end - next + incr - 1), incr)
        else Quot(Unsigned(next - end - incr - 1), Unsigned(-incr))
    }

    /** Rounding up does not leave the range of the words. */
    predicate RoundingFits() {
      if kind.Long? then Step() == 1 || Gap() + Step() - 1 <= (if up then HALF - 1 else HALF)
      else Gap() + Step() - 1 < WORD
    }

    /** The value of iteration x, as it is computed, and the position it should have. */
    function Value(x: int): int {
      kind.Norm(x * incr + next)
    }

    function Position(x: int): int {
      Dir(up, next) + x * Step()
    }

    /** The position of x is that of a word. */
    predicate HasPosition(x: int) {
      kind.Has(Dir(up, Position(x)))
    }
  }

  /** The computed count is right if and only if rounding up fits. */
  lemma CountIsTrips(b: Bounds)
    requires b.Valid()
    ensures b.Step() > 0 && (b.Count() == b.Trips() <==> b.RoundingFits())
  {
    StepIsPositive(b.kind, b.up, b.incr);
    if b.kind.Long? {
      LongCount(b);
    } else {
      UllCount(b);
    }
  }

  lemma TripsAre(b: Bounds)
    requires b.Valid()
    ensures b.Step() > 0 && b.Gap() >= 0
    ensures b.Trips() == if b.Gap() > 0 then (b.Gap() + b.Step() - 1) / b.Step() else 0
  {
    StepIsPositive(b.kind, b.up, b.incr);
  }

  lemma UllCount(b: Bounds)
    requires b.Valid() && b.kind.Ull?
    ensures b.Step() > 0 && (b.Count() == b.Trips() <==> b.RoundingFits())
  {
    TripsAre(b);
    var gap, step := b.Gap(), b.Step();
    UllCountIs(b, gap, step);
    hide *;
    RoundingWraps(gap, step);
  }

  lemma UllCountIs(b: Bounds, gap: nat, step: nat)
    requires b.Valid() && b.kind.Ull? && gap == b.Gap() && step == b.Step()
    ensures 0 < step < WORD && gap < WORD
    ensures b.Count() == Quot(Unsigned(gap + step - 1), step)
    ensures b.RoundingFits() <==> gap + step - 1 < WORD
  {
    StepIsPositive(b.kind, b.up, b.incr);
    UllSumIs(b.up, if b.up then b.end - b.next else b.next - b.end, b.incr);
    assert step == if b.up then b.incr else Unsigned(-b.incr);
    assert gap == if b.up then b.end - b.next else b.next - b.end;
    hide Unsigned, Quot, StepOf;
  }

  lemma UllSumIs(up: bool, gap: int, incr: int)
    requires 0 < incr < WORD
    ensures Unsigned(-incr) == WORD - incr
    ensures up ==> Unsigned(gap + incr - 1) == Unsigned(gap + StepOf(Ull, up, incr) - 1)
    ensures !up ==> Unsigned(gap - incr - 1) == Unsigned(gap + StepOf(Ull, up, incr) - 1)
  {
    UnsignedIs(-incr, WORD - incr, -1);
    UnsignedIs(incr, incr, 0);
    hide Unsigned;
    var x := Unsigned(gap + (WORD - incr) - 1);
    assert !up ==> Unsigned(gap - incr - 1) == x by { UnsignedWraps(gap - incr - 1); }
  }

  lemma UnsignedWraps(x: int)
    ensures Unsigned(x + WORD) == Unsigned(x)
  {
  }

  lemma RoundingWraps(gap: nat, step: nat)
    requires 0 < step < WORD && gap < WORD
    ensures Quot(Unsigned(gap + step - 1), step) == (if gap > 0 then (gap + step - 1) / step else 0) <==> gap + step - 1 < WORD
  {
    var sum := gap + step - 1;
    if sum >= WORD {
      UnsignedIs(sum, sum - WORD, 1);
      DivIs(sum - WORD, step, 0);
      AtLeastOne(sum, step);
    } else {
      UnsignedIs(sum, sum, 0);
      if gap == 0 { DivIs(sum, step, 0); }
    }
  }

  /** In longs, the sum and its quotient in the direction of the loop. */
  lemma LongCountIs(b: Bounds, gap: nat, step: nat)
    requires b.Valid() && b.kind.Long? && gap == b.Gap() && step == b.Step()
    ensures 0 < step <= HALF && (b.up ==> step < HALF) && gap < WORD
    ensures var sum := gap + step - 1;
      b.Count() ==
        if sum <= (if b.up then HALF - 1 else HALF) then sum / step
        else if sum < WORD then Unsigned(-((WORD - sum) / step))
        else (sum - WORD) / step
  {
    StepIsPositive(b.kind, b.up, b.incr);
    var sum := gap + step - 1;
    SumIs(b, sum);
    var y := WrappedSum(b.up, sum);
    QuotientIs(b.up, Dir(b.up, y), b.incr, step);
    hide *;
    UnsignedQuotient(b.up, sum, step);
  }

  /** The sum in the direction of the loop, as a long. */
  function WrappedSum(up: bool, sum: nat): int {
    if sum <= (if up then HALF - 1 else HALF) then sum else sum - WORD
  }

  lemma SumIs(b: Bounds, sum: nat)
    requires b.Valid() && b.kind.Long? && sum == b.Gap() + b.Step() - 1 && sum < WORD + HALF - (if b.up then 1 else 0)
    ensures Long.Norm(b.end - b.next + (b.incr + if b.incr > 0 then -1 else 1)) == Dir(b.up, WrappedSum(b.up, sum))
  {
    var x := b.end - b.next + (b.incr + if b.incr > 0 then -1 else 1);
    var y := Dir(b.up, WrappedSum(b.up, sum));
    assert x == Dir(b.up, sum);
    NormIs(Long, x, y, if y == x then 0 else if b.up then 1 else -1);
  }

  lemma UnsignedQuotient(up: bool, sum: nat, step: nat)
    requires step > 0 && sum < 2 * WORD
    ensures var y := WrappedSum(up, sum);
      Unsigned(if y >= 0 then y / step else -((-y) / step)) ==
        if sum <= (if up then HALF - 1 else HALF) then sum / step
        else if sum < WORD then Unsigned(-((WORD - sum) / step))
        else (sum - WORD) / step
  {
    var y := WrappedSum(up, sum);
    if y >= 0 {
      QuotientIsSmaller(y, step, y / step);
      UnsignedIs(y / step, y / step, 0);
    }
  }

  lemma QuotientIs(up: bool, y: int, incr: int, step: nat)
    requires step > 0 && incr == Dir(up, step)
    ensures CDiv(y, incr) == if Dir(up, y) >= 0 then Dir(up, y) / step else -((-Dir(up, y)) / step)
  {
  }

  lemma QuotientIsSmaller(x: nat, d: nat, q: nat)
    requires d > 0 && q == x / d
    ensures q <= x
  {
    DivBounds(x, d);
    MulMono(1, d, q);
  }

  lemma LongCount(b: Bounds)
    requires b.Valid() && b.kind.Long?
    ensures b.Step() > 0 && (b.Count() == b.Trips() <==> b.RoundingFits())
  {
    TripsAre(b);
    var gap, step := b.Gap(), b.Step();
    LongCountIs(b, gap, step);
    var limit := if b.up then HALF - 1 else HALF;
    assert b.RoundingFits() <==> step == 1 || gap + step - 1 <= limit;
    hide *;
    LongRounding(gap, step, limit);
  }

  /** A sum that wraps once gives 0 or a number above any number of iterations by more than one,
      and the right one by ones. */
  lemma LongRounding(gap: nat, step: nat, limit: nat)
    requires 0 < step <= HALF && gap < WORD && step - 1 <= limit && HALF - 1 <= limit <= HALF
    ensures var sum := gap + step - 1;
      var n := if sum <= limit then sum / step else if sum < WORD then Unsigned(-((WORD - sum) / step)) else (sum - WORD) / step;
      n == (if gap > 0 then (gap + step - 1) / step else 0) <==> step == 1 || sum <= limit
  {
    var sum := gap + step - 1;
    if sum <= limit {
      if gap == 0 { DivIs(sum, step, 0); }
    } else if sum < WORD {
      if step == 1 {
        UnsignedIs(-(WORD - sum), sum, -1);
      } else {
        WrapsOnce(sum, step);
      }
    } else {
      DivIs(sum - WORD, step, 0);
      AtLeastOne(sum, step);
    }
  }

  lemma WrapsOnce(sum: nat, step: nat)
    requires 1 < step <= HALF && HALF <= sum < WORD
    ensures Unsigned(-((WORD - sum) / step)) != sum / step
  {
    var m, n := (WORD - sum) / step, sum / step;
    DivBounds(WORD - sum, step);
    DivBounds(sum, step);
    MulMono(2, step, m);
    MulMono(2, step, n);
    AtLeastOne(sum, step);
    if m > 0 { UnsignedIs(-m, WORD - m, -1); }
  }

  /** It does go wrong: a signed loop of 2^62 iterations of which none is counted. */
  lemma LongCountCanVanish()
    ensures var b := Bounds(Long, true, -HALF, HALF - 1, 4);
      b.Valid() && b.Count() == 0 && b.Trips() == 0x4000_0000_0000_0000
  {
  }

  /** And an unsigned one; 3 divides 2^64 - 1, so the loop reaches its end exactly. */
  lemma UllCountCanVanish()
    ensures var b := Bounds(Ull, true, 0, WORD - 1, 3);
      b.Valid() && b.Count() == 0 && b.Trips() == 0x5555_5555_5555_5555
  {
  }

  // ---------------------------------------------------------------- values

  /** A value is computed modulo 2^64, and is exact if it is a word at all. */
  lemma ValueIs(b: Bounds, x: nat)
    requires b.Valid()
    ensures exists k: int :: Dir(b.up, b.Value(x)) == b.Position(x) + k * WORD
    ensures b.HasPosition(x) ==> Dir(b.up, b.Value(x)) == b.Position(x)
  {
    StepIsPositive(b.kind, b.up, b.incr);
    var j: int :| Dir(b.up, b.incr) == b.Step() + j * WORD;
    var exact, raw := Dir(b.up, b.Position(x)), x * b.incr + b.next;
    var m := x * j;
    assert raw == exact + Dir(b.up, m) * WORD by { Unwrapped(b.up, x, b.incr, b.Step(), j); }
    hide Dir;
    var v := b.Value(x);
    var i := (raw - b.kind.Min()) / WORD;
    assert v == raw - i * WORD;
    ShiftedBack(b.up, v, exact, Dir(b.up, m) - i, b.Position(x));
    if b.HasPosition(x) { NormIs(b.kind, raw, exact, Dir(b.up, m)); }
  }

  lemma Unwrapped(up: bool, x: nat, incr: int, step: int, j: int)
    requires Dir(up, incr) == step + j * WORD
    ensures x * incr == Dir(up, x * step) + Dir(up, x * j) * WORD
  {
    assert x * (step + j * WORD) == x * step + x * j * WORD;
    assert x * -incr == -(x * incr);
  }

  lemma ShiftedBack(up: bool, v: int, exact: int, k: int, position: int)
    requires v == exact + k * WORD && exact == Dir(up, position)
    ensures exists j: int :: Dir(up, v) == position + j * WORD
    ensures Dir(up, exact) == position
  {
    assert Dir(up, v) == position + Dir(up, k) * WORD;
  }

  /** The iterations lie between the start and the end. */
  lemma IterationIsInside(b: Bounds, x: nat)
    requires b.Valid() && b.Step() > 0 && x < b.Trips()
    ensures Dir(b.up, b.next) <= b.Position(x) < Dir(b.up, b.end)
    ensures b.HasPosition(x)
  {
    TripsAre(b);
    DivBounds(b.Gap() + b.Step() - 1, b.Step());
    MulStep(x, b.Trips(), b.Step());
  }

  lemma EndIsNear(b: Bounds, x: nat)
    requires b.Valid() && b.Step() > 0 && 0 < x <= b.Trips()
    ensures b.Position(x) < Dir(b.up, b.end) + b.Step()
  {
    IterationIsInside(b, x - 1);
    assert x * b.Step() == (x - 1) * b.Step() + b.Step();
  }

  /** A share of the iterations from lo to hi, given as a start and an end value, runs as many
      iterations as it should if and only if its end is a word. */
  lemma RangeRuns(b: Bounds, lo: nat, hi: nat)
    requires b.Valid() && b.Step() > 0 && lo < hi <= b.Trips()
    ensures Dir(b.up, b.Value(lo)) == b.Position(lo)
    ensures TripCount(Dir(b.up, b.Value(lo)), Dir(b.up, b.Value(hi)), b.Step()) == hi - lo <==> b.HasPosition(hi)
  {
    IterationIsInside(b, lo);
    ValueIs(b, lo);
    StepIsPositive(b.kind, b.up, b.incr);
    PositionAfter(b, lo, hi);
    hide b.Position, b.Value, b.Valid, b.Trips, TripCount, b.HasPosition, b.Step;
    var from, s, m := Dir(b.up, b.Value(lo)), b.Step(), hi - lo;
    if b.HasPosition(hi) {
      ValueIs(b, hi);
      SpanCount(from, s, m);
    } else {
      EndWraps(b, hi);
      EndIsNear(b, hi);
      ShortRange(from, Dir(b.up, b.Value(hi)), s, m);
    }
  }

  lemma PositionAfter(b: Bounds, lo: nat, hi: nat)
    requires lo <= hi
    ensures b.Position(hi) == b.Position(lo) + (hi - lo) * b.Step()
  {
    assert hi * b.Step() == lo * b.Step() + (hi - lo) * b.Step();
  }

  lemma EndWraps(b: Bounds, hi: nat)
    requires b.Valid() && b.Step() > 0 && 0 < hi <= b.Trips() && !b.HasPosition(hi)
    ensures Dir(b.up, b.Value(hi)) == b.Position(hi) - WORD < Dir(b.up, b.next) + b.Step()
  {
    EndIsNear(b, hi);
    IterationIsInside(b, hi - 1);
    PositionAfter(b, hi - 1, hi);
    StepIsPositive(b.kind, b.up, b.incr);
    ValueIs(b, hi);
    var k: int :| Dir(b.up, b.Value(hi)) == b.Position(hi) + k * WORD;
    WrapsOnceBack(b, hi, k);
  }

  lemma WrapsOnceBack(b: Bounds, hi: nat, k: int)
    requires b.Valid() && 0 < b.Step() < WORD && !b.HasPosition(hi)
    requires Dir(b.up, b.next) <= b.Position(hi) < Dir(b.up, b.end) + b.Step()
    requires Dir(b.up, b.Value(hi)) == b.Position(hi) + k * WORD
    ensures k == -1
  {
  }

  /** A range of m iterations spans m steps. */
  lemma SpanCount(start: int, step: nat, m: nat)
    requires step > 0
    ensures TripCount(start, start + m * step, step) == m
  {
    if m > 0 { MulMono(1, m, step); }
    DivIs(m * step + step - 1, step, m);
  }

  lemma ShortRange(start: int, end: int, step: nat, m: nat)
    requires step > 0 && m > 0 && end == start + m * step - WORD && end < start + step && step < WORD
    ensures TripCount(start, end, step) != m
  {
    if start < end {
      DivIs(end - start + step - 1, step, 1);
      assert m == 1 ==> m * step == step;
    }
  }
}
