/** Dynamic hand-out of iterations, for loops over long and over unsigned long long: the set-up
    with its overflow guard (loop.c:36-79, loop_ull.c:36-81), the locked hand-out (iter.c:147-177,
    iter_ull.c:145-179) and its two lock-free forms (iter.c:184-253, iter_ull.c:182-253).

  `next` moves from the start of the loop to its end by chunks.  The fast form adds the chunk
  with a fetch-and-add and lets the word run past the end; it is only used when the guard allows
  it.  The slow form retries a compare-and-swap.  All sums and differences wrap as the words do.
 */
module IterDynamic {
  import opened Arith
  import opened Bits
  import opened Collections
  import opened LoopRanges
  import opened Runs
  import opened Words

  type Tid = nat

  /** The fields that are set once; chunk is already multiplied by the increment.  An unsigned
      loop keeps its direction in a mode bit, a signed one has it from the sign of the increment. */
  datatype Loop = Loop(kind: Kind, up: bool, start: int, end: int, chunk: int, fast: bool) {
    /** The chunk in the direction of the loop. */
    function Steps(): int {
      StepOf(kind, up, chunk)
    }

    function At(x: int): int {
      Dir(up, x)
    }
  }

  /** The set-up for GFS_DYNAMIC in a team of nthreads. */
  function LoopInit(kind: Kind, up: bool, start: int, end: int, incr: int, chunkSize: int, nthreads: nat): Loop {
    var canonicalEnd := if (up && start > end) || (!up && start < end) then start else end;
    var chunk := kind.Norm(chunkSize * incr);
    Loop(kind, up, start, canonicalEnd, chunk, IsFast(kind, up, canonicalEnd, chunk, nthreads))
  }

  /** The overflow protection: whether the hand-out may use fetch-and-add. */
  predicate IsFast(kind: Kind, up: bool, end: int, chunk: int, nthreads: nat) {
    var steps := Unsigned(if up then chunk else -chunk);
    BitOr(nthreads, steps) < 0x8000_0000 && HasRoom(kind, up, end, (nthreads + 1) * steps)
  }

  predicate HasRoom(kind: Kind, up: bool, end: int, room: nat) {
    if up then end < kind.Norm(kind.Max() - room) else end > kind.Norm(room - kind.Max())
  }

  /** What the locked hand-out takes when `next` has the given value; none at the end. */
  function Bite(loop: Loop, chunk: int, next: int): int {
    var left := loop.kind.Norm(loop.end - next);
    if loop.up then (if chunk > left then left else chunk)
    else (if chunk < left then left else chunk)
  }

  /** Where the range ends that starts at next. */
  function TakeEnd(loop: Loop, next: int): int {
    loop.kind.Norm(next + Bite(loop, loop.chunk, next))
  }

  /** And in the fast form. */
  function FastEnd(loop: Loop, next: int): int {
    var nend := loop.kind.Norm(next + loop.chunk);
    if loop.At(nend) > loop.At(loop.end) then loop.end else nend
  }

  datatype Pc =
    | Ready                          // will ask for iterations
    | Loaded(start: int, chunk: int) // slow form: about to compare-and-swap start
    | Done                           // was told that nothing is left, and asks no more

  /** `taken` is history: the ranges handed out, in the order of the atomic operations. */
  datatype State = State(next: int, pc: map<Tid, Pc>, taken: seq<(int, int)>)

  /** One atomic fetch-and-add, and the decision made from its result. */
  ghost predicate FastStep(loop: Loop, s: State, t: Tid, s': State)
    requires t in s.pc
  {
    var tmp := s.next;
    && loop.fast && s.pc[t] == Ready
    && s'.next == loop.kind.Norm(s.next + loop.chunk)
    && if loop.At(tmp) >= loop.At(loop.end) then
         s'.pc == s.pc[t := Done] && s'.taken == s.taken
       else
         s'.pc == s.pc && s'.taken == s.taken + [(tmp, FastEnd(loop, tmp))]
  }

  /** One iteration of the compare-and-swap loop; a failed attempt keeps the chunk it had
      already cut down to what was left at that time. */
  ghost predicate SlowStep(loop: Loop, s: State, t: Tid, s': State)
    requires t in s.pc
  {
    && !loop.fast
    && match s.pc[t]
       case Ready => s' == s.(pc := s.pc[t := Loaded(s.next, loop.chunk)])
       case Loaded(start, chunk) =>
         if start == loop.end then
           s' == s.(pc := s.pc[t := Done])
         else
           var bite := Bite(loop, chunk, start);
           var nend := loop.kind.Norm(start + bite);
           if s.next == start then
             s' == State(nend, s.pc[t := Ready], s.taken + [(start, nend)])
           else
             s' == s.(pc := s.pc[t := Loaded(s.next, bite)])
       case Done => false
  }

  ghost predicate Next(loop: Loop, s: State, s': State) {
    exists t :: t in s.pc && (FastStep(loop, s, t, s') || SlowStep(loop, s, t, s'))
  }

  ghost predicate Init(loop: Loop, nthreads: nat, s: State) {
    && s.next == loop.start && s.taken == [] && |s.pc| == nthreads
    && forall t | t in s.pc :: s.pc[t] == Ready
  }

  // ---------------------------------------------------------------- the locked hand-out

  /** The ranges that the locked hand-out gives when it is called again and again. */
  ghost function LockedRanges(loop: Loop, next: int, calls: nat): seq<(int, int)>
    decreases calls
  {
    if calls == 0 || next == loop.end then []
    else [(next, TakeEnd(loop, next))] + LockedRanges(loop, TakeEnd(loop, next), calls - 1)
  }

  ghost function LockedNext(loop: Loop, next: int, calls: nat): int
    decreases calls
  {
    if calls == 0 || next == loop.end then next
    else LockedNext(loop, TakeEnd(loop, next), calls - 1)
  }

  lemma {:induction false} OneMoreCall(loop: Loop, next: int, calls: nat)
    ensures var last := LockedNext(loop, next, calls);
      && LockedRanges(loop, next, calls + 1) ==
           LockedRanges(loop, next, calls) + (if last == loop.end then [] else [(last, TakeEnd(loop, last))])
      && LockedNext(loop, next, calls + 1) == if last == loop.end then last else TakeEnd(loop, last)
    decreases calls
  {
    if next != loop.end {
      if calls > 0 {
        OneMoreCall(loop, TakeEnd(loop, next), calls - 1);
      } else {
        assert LockedRanges(loop, TakeEnd(loop, next), 0) == [];
      }
    }
  }

  /** The locked hand-out, called |taken| times, gives the same ranges and is at the same point. */
  ghost predicate MatchesLocked(loop: Loop, at: int, taken: seq<(int, int)>) {
    taken == LockedRanges(loop, loop.start, |taken|) && at == LockedNext(loop, loop.start, |taken|)
  }

  lemma TakesLikeLocked(loop: Loop, at: int, taken: seq<(int, int)>)
    requires MatchesLocked(loop, at, taken) && at != loop.end
    ensures MatchesLocked(loop, TakeEnd(loop, at), taken + [(at, TakeEnd(loop, at))])
  {
    OneMoreCall(loop, loop.start, |taken|);
  }

  // ---------------------------------------------------------------- set up

  /** A loop set up from any words, with an increment of the right sign. */
  ghost predicate IsSetUp(loop: Loop, nthreads: nat, end: int, incr: int, chunkSize: int) {
    && loop.kind.Has(loop.start) && loop.kind.Has(end) && loop.kind.Has(chunkSize) && nthreads > 0
    && IncrOk(loop.kind, loop.up, incr)
    && loop == LoopInit(loop.kind, loop.up, loop.start, end, incr, chunkSize, nthreads)
  }

  ghost predicate GoodLoop(loop: Loop, nthreads: nat) {
    exists end: int, incr: int, chunkSize: int :: IsSetUp(loop, nthreads, end, incr, chunkSize)
  }

  /** What the set-up gives.  The guard means that nthreads + 1 chunks fit behind the end. */
  ghost predicate Guarded(loop: Loop, nthreads: nat) {
    && loop.kind.Has(loop.start) && loop.kind.Has(loop.end) && loop.kind.Has(loop.chunk)
    && loop.At(loop.start) <= loop.At(loop.end)
    && (loop.fast ==> loop.Steps() >= 0 && RoomBehind(loop, (nthreads + 1) * loop.Steps()))
  }

  predicate RoomBehind(loop: Loop, room: int) {
    loop.kind.Has(Dir(loop.up, loop.At(loop.end) + room))
  }

  lemma InitGuards(loop: Loop, nthreads: nat)
    requires GoodLoop(loop, nthreads)
    ensures Guarded(loop, nthreads)
  {
    var end: int, incr: int, chunkSize: int :| IsSetUp(loop, nthreads, end, incr, chunkSize);
    if loop.fast {
      FastHasRoom(loop, nthreads);
    }
    hide IsFast;
  }

  lemma FastHasRoom(loop: Loop, nthreads: nat)
    requires loop.kind.Has(loop.end) && loop.kind.Has(loop.chunk)
    requires IsFast(loop.kind, loop.up, loop.end, loop.chunk, nthreads)
    ensures loop.Steps() >= 0 && RoomBehind(loop, (nthreads + 1) * loop.Steps())
  {
    var steps := Unsigned(if loop.up then loop.chunk else -loop.chunk);
    RoomIsSmall(nthreads, steps);
    SmallSteps(loop);
    RoomIsExact(loop, (nthreads + 1) * steps);
  }

  lemma SmallSteps(loop: Loop)
    requires loop.kind.Has(loop.chunk) && Unsigned(if loop.up then loop.chunk else -loop.chunk) < 0x8000_0000
    ensures loop.Steps() == Unsigned(if loop.up then loop.chunk else -loop.chunk)
  {
  }

  lemma RoomIsSmall(nthreads: nat, steps: nat)
    requires BitOr(nthreads, steps) < 0x8000_0000
    ensures (nthreads + 1) * steps < HALF && steps < 0x8000_0000
  {
    OrBelow(nthreads, steps, 31);
    Pow2Of31();
    MulMono(nthreads + 1, 0x8000_0000, steps);
  }

  lemma RoomIsExact(loop: Loop, room: nat)
    requires room < HALF && loop.kind.Has(loop.end) && HasRoom(loop.kind, loop.up, loop.end, room)
    ensures RoomBehind(loop, room)
  {
    var k := loop.kind;
    NormIs(k, k.Max() - room, k.Max() - room, 0);
    var y := if k.Long? then room - k.Max() else room + 1;
    NormIs(k, room - k.Max(), y, if k.Long? then 0 else -1);
  }

  /** The chunk is what was asked for if and only if the product fits. */
  lemma ChunkIsExact(kind: Kind, up: bool, start: int, end: int, incr: int, chunkSize: nat, nthreads: nat)
    requires IncrOk(kind, up, incr)
    ensures var asked := chunkSize * StepOf(kind, up, incr);
      LoopInit(kind, up, start, end, incr, chunkSize, nthreads).Steps() == asked <==>
        if kind.Long? then Long.Has(Dir(up, asked)) else asked < WORD
  {
    hide IsFast;
    StepIsPositive(kind, up, incr);
    var step := StepOf(kind, up, incr);
    var asked: nat := chunkSize * step;
    var j: int :| Dir(up, incr) == step + j * WORD;
    var raw, m := chunkSize * incr, chunkSize * j;
    assert Dir(up, raw) == asked + m * WORD by {
      assert chunkSize * (step + j * WORD) == asked + m * WORD;
      assert chunkSize * -incr == -raw;
    }
    if kind.Long? {
      assert raw == Dir(up, asked) by { assert chunkSize * -incr == -raw; }
      if Long.Has(raw) { NormId(Long, raw); }
    } else {
      NormalSteps(up, raw, asked, m);
    }
  }

  lemma NormalSteps(up: bool, raw: int, asked: nat, m: int)
    requires Dir(up, raw) == asked + m * WORD
    ensures StepOf(Ull, up, Ull.Norm(raw)) == asked <==> asked < WORD
  {
    var c := Ull.Norm(raw);
    var k := raw / WORD;
    assert raw == c + k * WORD;
    var s := Unsigned(if up then c else -c);
    if asked < WORD {
      UnsignedIs(if up then c else -c, asked, if up then m - k else m + k);
    }
  }

  // ---------------------------------------------------------------- fast and locked

  /** The distance from next to the end is what it should be. */
  predicate WidthFits(loop: Loop) {
    loop.kind.Long? ==>
      if loop.up then loop.end - loop.start < HALF else loop.start - loop.end <= HALF
  }

  /** When the fast form takes what the locked form takes: a signed loop must not be wider than a
      long, and the chunk of an unsigned loop downward must not have vanished. */
  predicate FastAgrees(loop: Loop) {
    loop.start == loop.end || (WidthFits(loop) && !(loop.kind.Ull? && !loop.up && loop.chunk == 0))
  }

  function Min(x: int, y: int): int {
    if x < y then x else y
  }

  /** What is taken from x on, in the direction of the loop. */
  lemma TakeIs(loop: Loop, x: int)
    requires loop.kind.Has(x) && loop.kind.Has(loop.end) && loop.kind.Has(loop.chunk) && loop.Steps() >= 0
    requires loop.At(loop.start) <= loop.At(x) < loop.At(loop.end)
    requires WidthFits(loop) && !(loop.kind.Ull? && !loop.up && loop.chunk == 0)
    ensures loop.At(TakeEnd(loop, x)) == Min(loop.At(x) + loop.Steps(), loop.At(loop.end))
  {
    var gap := loop.At(loop.end) - loop.At(x);
    var left := if loop.kind.Ull? && !loop.up then WORD - gap else loop.end - x;
    NormIs(loop.kind, loop.end - x, left, if loop.kind.Ull? && !loop.up then -1 else 0);
    var steps := if loop.Steps() < gap then loop.Steps() else gap;
    var y := Dir(loop.up, loop.At(x) + steps);
    NormIs(loop.kind, x + Bite(loop, loop.chunk, x), y, if loop.kind.Ull? && !loop.up then 1 else 0);
  }

  /** An addition with room behind it does not wrap. */
  lemma AddIs(loop: Loop, x: int)
    requires loop.kind.Has(loop.chunk) && loop.Steps() >= 0
    requires loop.kind.Has(x) && loop.kind.Has(Dir(loop.up, loop.At(x) + loop.Steps()))
    ensures loop.At(loop.kind.Norm(x + loop.chunk)) == loop.At(x) + loop.Steps()
  {
    var y := Dir(loop.up, loop.At(x) + loop.Steps());
    NormIs(loop.kind, x + loop.chunk, y, if loop.kind.Ull? && !loop.up && loop.chunk != 0 then 1 else 0);
  }

  lemma ChunkFits(loop: Loop, nthreads: nat, x: int)
    requires Guarded(loop, nthreads) && loop.fast && loop.kind.Has(x)
    requires loop.At(loop.start) <= loop.At(x) <= loop.At(loop.end)
    ensures loop.kind.Has(Dir(loop.up, loop.At(x) + loop.Steps()))
  {
    MulMono(1, nthreads + 1, loop.Steps());
  }

  /** Where both agree. */
  lemma FastTakesLikeLocked(loop: Loop, nthreads: nat, x: int)
    requires Guarded(loop, nthreads) && loop.fast && FastAgrees(loop) && loop.kind.Has(x)
    requires loop.At(loop.start) <= loop.At(x) < loop.At(loop.end)
    ensures FastEnd(loop, x) == TakeEnd(loop, x)
  {
    FastEndIs(loop, nthreads, x);
    TakeIs(loop, x);
    hide TakeEnd, FastEnd, Guarded;
  }

  lemma FastEndIs(loop: Loop, nthreads: nat, x: int)
    requires Guarded(loop, nthreads) && loop.fast && loop.kind.Has(x)
    requires loop.At(loop.start) <= loop.At(x) < loop.At(loop.end)
    ensures loop.At(FastEnd(loop, x)) == Min(loop.At(x) + loop.Steps(), loop.At(loop.end))
  {
    ChunkFits(loop, nthreads, x);
    AddIs(loop, x);
  }

  /** And where they do not: the locked form takes the whole loop at once. */
  lemma LockedTakesAll(loop: Loop, nthreads: nat)
    requires Guarded(loop, nthreads) && loop.fast && !FastAgrees(loop)
    ensures TakeEnd(loop, loop.start) == loop.end != FastEnd(loop, loop.start)
  {
    ChunkFits(loop, nthreads, loop.start);
    AddIs(loop, loop.start);
    var gap := loop.At(loop.end) - loop.At(loop.start);
    var left := if loop.kind.Ull? then WORD - gap else Dir(loop.up, gap - WORD);
    NormIs(loop.kind, loop.end - loop.start, left, if loop.kind.Ull? || !loop.up then -1 else 1);
    NormIs(loop.kind, loop.start + left, loop.end, if loop.kind.Ull? || !loop.up then 1 else -1);
    FewSteps(loop, nthreads);
  }

  lemma FewSteps(loop: Loop, nthreads: nat)
    requires Guarded(loop, nthreads) && loop.fast && !FastAgrees(loop)
    ensures loop.Steps() < loop.At(loop.end) - loop.At(loop.start)
  {
    MulMono(1, nthreads + 1, loop.Steps());
  }

  // ---------------------------------------------------------------- fast runs

  ghost function Finished(s: State): set<Tid> {
    set t | t in s.pc && s.pc[t] == Done
  }

  /** The word stays between the start and a chunk behind the end for every thread that was told,
      and one more. */
  ghost predicate NearEnd(loop: Loop, next: int, told: nat) {
    loop.At(loop.start) <= loop.At(next) <= loop.At(loop.end) + (told + 1) * loop.Steps()
  }

  ghost predicate FastInv(loop: Loop, nthreads: nat, s: State) {
    && |s.pc| == nthreads && loop.kind.Has(s.next) && NobodyLoaded(s)
    && NearEnd(loop, s.next, |Finished(s)|)
    && (Finished(s) != {} ==> loop.At(s.next) >= loop.At(loop.end))
    && (s.taken == [] ==> s.next == loop.start || loop.start == loop.end)
    && (s.taken != [] ==> s.taken[0] == (loop.start, FastEnd(loop, loop.start)) && loop.start != loop.end)
    && (FastAgrees(loop) ==> MatchesLocked(loop, Reached(loop, s.next), s.taken))
  }

  /** The fast form does not load the word. */
  ghost predicate NobodyLoaded(s: State) {
    forall t | t in s.pc :: !s.pc[t].Loaded?
  }

  /** Where the locked form would be: the word, cut off at the end of the loop. */
  function Reached(loop: Loop, next: int): int {
    if loop.At(next) > loop.At(loop.end) then loop.end else next
  }

  lemma FinishedIsBounded(s: State)
    ensures |Finished(s)| <= |s.pc|
  {
    SubsetCardinality(Finished(s), s.pc.Keys);
  }

  /** The addition of a thread that is told that nothing is left still does not wrap. */
  lemma PastEndAdds(loop: Loop, nthreads: nat, next: int, told: nat)
    requires Guarded(loop, nthreads) && loop.fast && told < nthreads && loop.kind.Has(next)
    requires NearEnd(loop, next, told) && loop.At(next) >= loop.At(loop.end)
    ensures loop.At(loop.kind.Norm(next + loop.chunk)) == loop.At(next) + loop.Steps()
    ensures NearEnd(loop, loop.kind.Norm(next + loop.chunk), told + 1)
  {
    var c := loop.Steps();
    assert (told + 2) * c == (told + 1) * c + c;
    MulMono(told + 2, nthreads + 1, c);
    AddIs(loop, next);
  }

  lemma WithinAdds(loop: Loop, nthreads: nat, next: int)
    requires Guarded(loop, nthreads) && loop.fast && loop.kind.Has(next)
    requires loop.At(loop.start) <= loop.At(next) < loop.At(loop.end)
    ensures loop.At(loop.kind.Norm(next + loop.chunk)) == loop.At(next) + loop.Steps()
    ensures NearEnd(loop, loop.kind.Norm(next + loop.chunk), 0)
    ensures Reached(loop, loop.kind.Norm(next + loop.chunk)) == FastEnd(loop, next)
  {
    ChunkFits(loop, nthreads, next);
    AddIs(loop, next);
  }

  lemma FastKeepsInv(loop: Loop, nthreads: nat, s: State, t: Tid, s': State)
    requires Guarded(loop, nthreads) && FastInv(loop, nthreads, s) && t in s.pc && FastStep(loop, s, t, s')
    ensures FastInv(loop, nthreads, s')
  {
    assert s'.pc.Keys == s.pc.Keys && |s'.pc| == |s'.pc.Keys| == |s.pc.Keys|;
    assert t !in Finished(s);
    if loop.At(s.next) >= loop.At(loop.end) {
      FastPastEnd(loop, nthreads, s, t, s');
    } else {
      FastWithin(loop, nthreads, s, t, s');
    }
  }

  lemma FastPastEnd(loop: Loop, nthreads: nat, s: State, t: Tid, s': State)
    requires Guarded(loop, nthreads) && FastInv(loop, nthreads, s) && t in s.pc && FastStep(loop, s, t, s')
    requires |s'.pc| == |s.pc| && loop.At(s.next) >= loop.At(loop.end)
    ensures FastInv(loop, nthreads, s')
  {
    assert Finished(s') == Finished(s) + {t} && t !in Finished(s);
    FinishedIsBounded(s');
    PastEndAdds(loop, nthreads, s.next, |Finished(s)|);
    hide FastEnd, FastAgrees, MatchesLocked, Guarded;
  }

  lemma FastWithin(loop: Loop, nthreads: nat, s: State, t: Tid, s': State)
    requires Guarded(loop, nthreads) && FastInv(loop, nthreads, s) && t in s.pc && FastStep(loop, s, t, s')
    requires |s'.pc| == |s.pc| && loop.At(s.next) < loop.At(loop.end)
    ensures FastInv(loop, nthreads, s')
  {
    assert Finished(s') == Finished(s) == {};
    WithinAdds(loop, nthreads, s.next);
    FastMatches(loop, nthreads, s.next, s.taken);
    hide Guarded, FastEnd, FastAgrees, MatchesLocked;
  }

  lemma FastMatches(loop: Loop, nthreads: nat, next: int, taken: seq<(int, int)>)
    requires Guarded(loop, nthreads) && loop.fast && loop.kind.Has(next)
    requires loop.At(loop.start) <= loop.At(next) < loop.At(loop.end)
    ensures FastAgrees(loop) && MatchesLocked(loop, next, taken) ==>
              MatchesLocked(loop, FastEnd(loop, next), taken + [(next, FastEnd(loop, next))])
  {
    hide MatchesLocked;
    if FastAgrees(loop) && MatchesLocked(loop, next, taken) {
      FastTakesLikeLocked(loop, nthreads, next);
      TakesLikeLocked(loop, next, taken);
    }
  }

  // ---------------------------------------------------------------- slow runs

  /** A loaded word that is not the end comes with the whole chunk; if that is more than what is
      left, nobody has moved the word but to the end, where it stays. */
  ghost predicate LoadedOk(loop: Loop, next: int, p: Pc) {
    p.Loaded? ==>
      if p.start == loop.end then next == loop.end
      else
        && p.chunk == loop.chunk
        && (Bite(loop, loop.chunk, p.start) != loop.chunk ==> next == p.start || next == loop.end)
  }

  ghost predicate SlowInv(loop: Loop, s: State) {
    && (forall t | t in s.pc :: LoadedOk(loop, s.next, s.pc[t]))
    && (Finished(s) != {} ==> s.next == loop.end)
    && loop.kind.Has(s.next)
    && MatchesLocked(loop, s.next, s.taken)
  }

  /** Whatever is cut off a chunk, it then reaches the end. */
  lemma CutReachesEnd(loop: Loop, x: int)
    requires loop.kind.Has(loop.end) && Bite(loop, loop.chunk, x) != loop.chunk
    ensures TakeEnd(loop, x) == loop.end
  {
    NormAdd(loop.kind, x, loop.end - x);
    NormId(loop.kind, loop.end);
  }

  lemma SlowKeepsInv(loop: Loop, s: State, t: Tid, s': State)
    requires loop.kind.Has(loop.end) && SlowInv(loop, s) && t in s.pc && SlowStep(loop, s, t, s')
    ensures SlowInv(loop, s')
  {
    assert LoadedOk(loop, s.next, s.pc[t]);
    hide Bite, TakeEnd;
    if s.pc[t].Loaded? && s.pc[t].start != loop.end {
      var start := s.pc[t].start;
      TakeEndIs(loop, start);
      if s.next == start {
        TakesLikeLocked(loop, s.next, s.taken);
      }
      if Bite(loop, loop.chunk, start) != loop.chunk { CutReachesEnd(loop, start); }
    }
  }

  lemma TakeEndIs(loop: Loop, x: int)
    ensures loop.kind.Norm(x + Bite(loop, loop.chunk, x)) == TakeEnd(loop, x)
  {
  }

  // ---------------------------------------------------------------- runs

  ghost predicate Inv(loop: Loop, nthreads: nat, s: State) {
    if loop.fast then FastInv(loop, nthreads, s) else SlowInv(loop, s)
  }

  lemma NextKeepsInv(loop: Loop, nthreads: nat, s: State, s': State)
    requires Guarded(loop, nthreads) && Inv(loop, nthreads, s) && Next(loop, s, s')
    ensures Inv(loop, nthreads, s')
  {
    var t :| t in s.pc && (FastStep(loop, s, t, s') || SlowStep(loop, s, t, s'));
    if loop.fast {
      FastKeepsInv(loop, nthreads, s, t, s');
    } else {
      SlowKeepsInv(loop, s, t, s');
    }
  }

  lemma InitHasInv(loop: Loop, nthreads: nat, s: State)
    requires Guarded(loop, nthreads) && Init(loop, nthreads, s)
    ensures Inv(loop, nthreads, s)
  {
    assert Finished(s) == {};
  }

  ghost predicate IsLoopRun(loop: Loop, nthreads: nat, run: seq<State>) {
    IsRun(s => Init(loop, nthreads, s), (s, s') => Next(loop, s, s'), run)
  }

  lemma InvAlong(loop: Loop, nthreads: nat, run: seq<State>, k: nat)
    requires Guarded(loop, nthreads) && IsLoopRun(loop, nthreads, run) && k < |run|
    ensures Inv(loop, nthreads, run[k])
  {
    var inv := s => Inv(loop, nthreads, s);
    forall s | Init(loop, nthreads, s) ensures inv(s) {
      InitHasInv(loop, nthreads, s);
    }
    forall s, s' | inv(s) && Next(loop, s, s') ensures inv(s') {
      NextKeepsInv(loop, nthreads, s, s');
    }
    HoldsAlong(s => Init(loop, nthreads, s), (s, s') => Next(loop, s, s'), inv, run, k);
  }

  /** For every loop that is set up and every interleaving of nthreads threads: the ranges handed
      out without the lock are those of the locked hand-out, in the same order, if and only if the
      fast form is not used or agrees on the first range.  Then a thread is only told that nothing
      is left when the locked hand-out has reached the end. */
  lemma LockFreeRefinesLocked(loop: Loop, nthreads: nat, run: seq<State>, k: nat)
    requires GoodLoop(loop, nthreads) && IsLoopRun(loop, nthreads, run) && k < |run| && run[k].taken != []
    ensures run[k].taken == LockedRanges(loop, loop.start, |run[k].taken|) <==> !loop.fast || FastAgrees(loop)
    ensures (!loop.fast || FastAgrees(loop)) && Finished(run[k]) != {} ==>
              LockedNext(loop, loop.start, |run[k].taken|) == loop.end
  {
    InitGuards(loop, nthreads);
    InvAlong(loop, nthreads, run, k);
    hide GoodLoop;
    if loop.fast && !FastAgrees(loop) {
      LockedTakesAll(loop, nthreads);
      var calls := |run[k].taken|;
      assert LockedRanges(loop, loop.start, calls)[0] == (loop.start, TakeEnd(loop, loop.start));
    }
  }

  /** The word never wraps: in the fast form it stays between the start of the loop and the end of
      the words, although each thread may add once after the end. */
  lemma WordNeverWraps(loop: Loop, nthreads: nat, run: seq<State>, k: nat)
    requires GoodLoop(loop, nthreads) && IsLoopRun(loop, nthreads, run) && k < |run| && loop.fast
    ensures var s := run[k];
      && loop.At(loop.start) <= loop.At(s.next) <= loop.At(loop.end) + (nthreads + 1) * loop.Steps()
      && RoomBehind(loop, (nthreads + 1) * loop.Steps())
  {
    InitGuards(loop, nthreads);
    InvAlong(loop, nthreads, run, k);
    FinishedIsBounded(run[k]);
    MulMono(|Finished(run[k])| + 1, nthreads + 1, loop.Steps());
  }

  // ---------------------------------------------------------------- the end of the hand-out

  /** How many steps a thread has before it at most while the word stays. */
  function Rank(next: int, p: Pc): nat {
    match p
    case Ready => 3
    case Loaded(start, _) => if start == next then 1 else 2
    case Done => 0
  }

  ghost function Ranks(s: State): map<nat, nat> {
    map t | t in s.pc :: Rank(s.next, s.pc[t])
  }

  /** What is left of the loop. */
  function Left(loop: Loop, next: int): nat {
    if loop.At(next) < loop.At(loop.end) then loop.At(loop.end) - loop.At(next) else 0
  }

  /** Less of the loop is left, or the same and fewer steps until all threads are told. */
  ghost predicate Nearer(loop: Loop, s': State, s: State) {
    Left(loop, s'.next) < Left(loop, s.next) || (Left(loop, s'.next) == Left(loop, s.next) && Sum(Ranks(s')) < Sum(Ranks(s)))
  }

  /** In a loop that fits and whose chunk goes forward, a thread that has not been told that nothing
      is left can go on, and every step of every thread brings the hand-out nearer to its end.  So it
      ends in every interleaving, however the threads take turns. */
  lemma HandOutEnds(loop: Loop, nthreads: nat, run: seq<State>, k: nat, t: Tid)
    requires GoodLoop(loop, nthreads) && IsLoopRun(loop, nthreads, run) && k < |run|
    requires loop.Steps() > 0 && WidthFits(loop) && t in run[k].pc
    ensures run[k].pc[t] != Done ==> exists s' :: FastStep(loop, run[k], t, s') || SlowStep(loop, run[k], t, s')
    ensures forall s' | FastStep(loop, run[k], t, s') || SlowStep(loop, run[k], t, s') :: Nearer(loop, s', run[k])
  {
    InitGuards(loop, nthreads);
    InvAlong(loop, nthreads, run, k);
    var s := run[k];
    assert loop.fast ==> !s.pc[t].Loaded?;
    hide GoodLoop, IsLoopRun, FastInv, SlowInv, Guarded, FastStep, SlowStep, Nearer, WidthFits;
    if s.pc[t] != Done { ThreadGoesOn(loop, s, t); }
    OnlyItsForm(loop, s, t);
    forall s' | FastStep(loop, s, t, s') || SlowStep(loop, s, t, s') ensures Nearer(loop, s', s) {
      if loop.fast { FastGetsNearer(loop, nthreads, s, t, s'); } else { SlowGetsNearer(loop, nthreads, s, t, s'); }
    }
  }

  lemma OnlyItsForm(loop: Loop, s: State, t: Tid)
    requires t in s.pc
    ensures forall s' :: (FastStep(loop, s, t, s') ==> loop.fast) && (SlowStep(loop, s, t, s') ==> !loop.fast)
  {
  }

  lemma ThreadGoesOn(loop: Loop, s: State, t: Tid)
    requires t in s.pc && s.pc[t] != Done && (loop.fast ==> s.pc[t] == Ready)
    ensures exists s' :: FastStep(loop, s, t, s') || SlowStep(loop, s, t, s')
  {
    if loop.fast {
      var next := loop.kind.Norm(s.next + loop.chunk);
      var s' := if loop.At(s.next) >= loop.At(loop.end) then State(next, s.pc[t := Done], s.taken)
                else State(next, s.pc, s.taken + [(s.next, FastEnd(loop, s.next))]);
      assert FastStep(loop, s, t, s');
    } else if s.pc[t] == Ready {
      assert SlowStep(loop, s, t, s.(pc := s.pc[t := Loaded(s.next, loop.chunk)]));
    } else {
      var start, bite := s.pc[t].start, Bite(loop, s.pc[t].chunk, s.pc[t].start);
      var nend := loop.kind.Norm(start + bite);
      var s' := if start == loop.end then s.(pc := s.pc[t := Done])
                else if s.next == start then State(nend, s.pc[t := Ready], s.taken + [(start, nend)])
                else s.(pc := s.pc[t := Loaded(s.next, bite)]);
      assert SlowStep(loop, s, t, s');
    }
  }

  lemma FastGetsNearer(loop: Loop, nthreads: nat, s: State, t: Tid, s': State)
    requires Guarded(loop, nthreads) && FastInv(loop, nthreads, s) && t in s.pc && FastStep(loop, s, t, s') && loop.Steps() > 0
    ensures Nearer(loop, s', s)
  {
    assert NobodyLoaded(s) && s.pc[t] == Ready;
    if loop.At(s.next) >= loop.At(loop.end) {
      FastMore(loop, nthreads, s, t, s');
      hide FastInv, Guarded, FastEnd, FastStep;
      RanksFall(s, t, s', Done);
    } else {
      WithinAdds(loop, nthreads, s.next);
      hide FastInv, Guarded, Ranks;
    }
  }

  lemma FastMore(loop: Loop, nthreads: nat, s: State, t: Tid, s': State)
    requires Guarded(loop, nthreads) && FastInv(loop, nthreads, s) && t in s.pc && FastStep(loop, s, t, s')
    requires loop.At(s.next) >= loop.At(loop.end)
    ensures loop.At(s'.next) >= loop.At(loop.end) && s'.pc == s.pc[t := Done]
  {
    assert Finished(s') == Finished(s) + {t} && t !in Finished(s);
    assert s'.pc.Keys == s.pc.Keys && |s'.pc| == |s'.pc.Keys|;
    FinishedIsBounded(s');
    PastEndAdds(loop, nthreads, s.next, |Finished(s)|);
    hide Guarded, FastEnd, FastAgrees, MatchesLocked;
  }

  /** The word may have moved only if nobody has loaded it. */
  lemma RanksFall(s: State, t: Tid, s': State, p: Pc)
    requires t in s.pc && s'.pc == s.pc[t := p] && Rank(s'.next, p) < Rank(s.next, s.pc[t])
    requires s'.next == s.next || forall u | u in s.pc :: !s.pc[u].Loaded?
    ensures Sum(Ranks(s')) < Sum(Ranks(s))
  {
    assert Ranks(s') == Ranks(s)[t := Rank(s'.next, p)];
    SumUpdate(Ranks(s), t, Rank(s'.next, p));
  }

  lemma SlowGetsNearer(loop: Loop, nthreads: nat, s: State, t: Tid, s': State)
    requires Guarded(loop, nthreads) && SlowInv(loop, s) && t in s.pc && SlowStep(loop, s, t, s')
    requires loop.Steps() > 0 && WidthFits(loop)
    ensures Nearer(loop, s', s)
  {
    assert LoadedOk(loop, s.next, s.pc[t]);
    FollowFrom(loop, loop.start, |s.taken|);
    NextIs(loop, loop.start, |s.taken|);
    MulMono(0, |s.taken|, loop.Steps());
    assert loop.At(loop.start) <= loop.At(s.next) <= loop.At(loop.end);
    hide SlowInv, LockedRanges, LockedNext, Follow;
    if s.pc[t].Loaded? && s.next == s.pc[t].start != loop.end {
      TakeIs(loop, s.next);
      TakeEndIs(loop, s.next);
    } else {
      RanksFall(s, t, s', s'.pc[t]);
    }
  }

  // ---------------------------------------------------------------- what is handed out

  /** The ranges follow each other from start to last; none is empty or longer than the chunk. */
  ghost predicate Follow(loop: Loop, start: int, rs: seq<(int, int)>, last: int) {
    && Consecutive(start, rs, last) && Forward(loop.up, rs)
    && (forall i | 0 <= i < |rs| :: loop.At(rs[i].1) <= loop.At(rs[i].0) + loop.Steps())
  }

  /** The locked hand-out gives such ranges if and only if the loop is empty, or the chunk goes in
      the direction of the loop and the width of the loop fits. */
  lemma LockedRangesFollow(loop: Loop, nthreads: nat, calls: nat)
    requires GoodLoop(loop, nthreads) && calls > 0
    ensures Follow(loop, loop.start, LockedRanges(loop, loop.start, calls), LockedNext(loop, loop.start, calls))
      <==> loop.start == loop.end || (loop.Steps() > 0 && WidthFits(loop))
  {
    InitGuards(loop, nthreads);
    hide GoodLoop;
    if loop.start != loop.end {
      if loop.Steps() > 0 && WidthFits(loop) {
        FollowFrom(loop, loop.start, calls);
      } else {
        assert LockedRanges(loop, loop.start, calls)[0] == (loop.start, TakeEnd(loop, loop.start));
        if loop.Steps() > 0 { WideLoopAtOnce(loop, nthreads); }
      }
    }
  }

  lemma {:induction false} FollowFrom(loop: Loop, next: int, calls: nat)
    requires loop.kind.Has(next) && loop.kind.Has(loop.end) && loop.kind.Has(loop.chunk)
    requires loop.Steps() > 0 && WidthFits(loop) && loop.At(loop.start) <= loop.At(next) <= loop.At(loop.end)
    ensures Follow(loop, next, LockedRanges(loop, next, calls), LockedNext(loop, next, calls))
    ensures loop.At(LockedNext(loop, next, calls)) <= loop.At(loop.end)
    decreases calls
  {
    if calls > 0 && next != loop.end {
      TakeIs(loop, next);
      var mid := TakeEnd(loop, next);
      FollowFrom(loop, mid, calls - 1);
      FollowOn(loop, next, mid, LockedRanges(loop, mid, calls - 1), LockedNext(loop, mid, calls - 1));
      hide Follow;
    }
  }

  lemma FollowOn(loop: Loop, start: int, mid: int, rs: seq<(int, int)>, last: int)
    requires Follow(loop, mid, rs, last) && loop.At(start) < loop.At(mid) <= loop.At(start) + loop.Steps()
    ensures Follow(loop, start, [(start, mid)] + rs, last)
  {
  }

  /** A signed loop that is too wide goes to the first caller as a whole. */
  lemma WideLoopAtOnce(loop: Loop, nthreads: nat)
    requires Guarded(loop, nthreads) && !WidthFits(loop) && loop.Steps() > 0
    ensures TakeEnd(loop, loop.start) == loop.end
    ensures loop.Steps() < loop.At(loop.end) - loop.At(loop.start)
  {
    var gap := loop.At(loop.end) - loop.At(loop.start);
    var left := Dir(loop.up, gap - WORD);
    NormIs(Long, loop.end - loop.start, left, if loop.up then 1 else -1);
    NormIs(Long, loop.start + left, loop.end, if loop.up then -1 else 1);
  }

  /** The starts of the ranges are a chunk apart. */
  lemma {:induction false} StartsAre(loop: Loop, next: int, calls: nat, i: nat)
    requires loop.kind.Has(next) && loop.kind.Has(loop.end) && loop.kind.Has(loop.chunk)
    requires loop.Steps() > 0 && WidthFits(loop) && loop.At(loop.start) <= loop.At(next) <= loop.At(loop.end)
    requires i < |LockedRanges(loop, next, calls)|
    ensures var r := LockedRanges(loop, next, calls)[i];
      && loop.At(r.0) == loop.At(next) + i * loop.Steps() < loop.At(loop.end)
      && loop.At(r.1) == Min(loop.At(r.0) + loop.Steps(), loop.At(loop.end))
    decreases calls
  {
    TakeIs(loop, next);
    if i > 0 {
      StartsAre(loop, TakeEnd(loop, next), calls - 1, i - 1);
      assert loop.Steps() + (i - 1) * loop.Steps() == i * loop.Steps();
      assert i - 1 < |LockedRanges(loop, TakeEnd(loop, next), calls - 1)|;
    }
  }

  /** After so many calls next is that many chunks on, or at the end. */
  lemma {:induction false} NextIs(loop: Loop, next: int, calls: nat)
    requires loop.kind.Has(next) && loop.kind.Has(loop.end) && loop.kind.Has(loop.chunk)
    requires loop.Steps() > 0 && WidthFits(loop) && loop.At(loop.start) <= loop.At(next) <= loop.At(loop.end)
    ensures loop.At(LockedNext(loop, next, calls)) == Min(loop.At(next) + calls * loop.Steps(), loop.At(loop.end))
    decreases calls
  {
    assert calls * loop.Steps() >= 0 by { MulMono(0, calls, loop.Steps()); }
    if calls > 0 && next != loop.end {
      TakeIs(loop, next);
      NextIs(loop, TakeEnd(loop, next), calls - 1);
      assert loop.Steps() + (calls - 1) * loop.Steps() == calls * loop.Steps();
      MulMono(0, calls - 1, loop.Steps());
    }
  }

  ghost predicate RunsIterations(loop: Loop, step: nat, calls: nat)
    requires step > 0
  {
    RunsTheLoop(loop.up, loop.start, loop.end, step, LockedRanges(loop, loop.start, calls))
  }

  /** A hand-out of a loop that fits, once it has reached the end, has run each iteration exactly once
      and nothing else if and only if the chunk is a multiple of the step, or the first range was
      the whole loop. */
  lemma HandOutRunsTheLoop(loop: Loop, nthreads: nat, step: nat, calls: nat)
    requires GoodLoop(loop, nthreads) && step > 0 && loop.Steps() > 0 && WidthFits(loop)
    requires LockedNext(loop, loop.start, calls) == loop.end
    ensures RunsIterations(loop, step, calls) <==>
      loop.Steps() % step == 0 || loop.Steps() >= loop.At(loop.end) - loop.At(loop.start)
  {
    InitGuards(loop, nthreads);
    hide GoodLoop;
    FollowFrom(loop, loop.start, calls);
    if loop.Steps() % step == 0 || loop.Steps() >= loop.At(loop.end) - loop.At(loop.start) {
      AlignedRunsTheLoop(loop, step, calls);
    } else {
      SecondStartIsNoIteration(loop, step, calls);
    }
  }

  lemma AlignedRunsTheLoop(loop: Loop, step: nat, calls: nat)
    requires loop.kind.Has(loop.start) && loop.kind.Has(loop.end) && loop.kind.Has(loop.chunk) && step > 0
    requires loop.Steps() > 0 && WidthFits(loop) && loop.At(loop.start) <= loop.At(loop.end)
    requires loop.Steps() % step == 0 || loop.Steps() >= loop.At(loop.end) - loop.At(loop.start)
    requires Follow(loop, loop.start, LockedRanges(loop, loop.start, calls), loop.end)
    ensures RunsIterations(loop, step, calls)
  {
    var rs := LockedRanges(loop, loop.start, calls);
    hide LockedRanges, WidthFits, RunsTheLoop, Consecutive, Forward;
    forall i: nat | i < |rs|
      ensures rs[i].1 == loop.end || (loop.At(rs[i].1) - loop.At(rs[i].0)) % step == 0
    {
      hide *;
      WholeOrLast(loop, step, calls, i);
    }
    WholeStepsRunTheLoop(loop.up, loop.start, loop.end, step, rs);
  }

  lemma WholeOrLast(loop: Loop, step: nat, calls: nat, i: nat)
    requires loop.kind.Has(loop.start) && loop.kind.Has(loop.end) && loop.kind.Has(loop.chunk) && step > 0
    requires loop.Steps() > 0 && WidthFits(loop) && loop.At(loop.start) <= loop.At(loop.end)
    requires loop.Steps() % step == 0 || loop.Steps() >= loop.At(loop.end) - loop.At(loop.start)
    requires i < |LockedRanges(loop, loop.start, calls)|
    ensures var r := LockedRanges(loop, loop.start, calls)[i];
      r.1 == loop.end || (loop.At(r.1) - loop.At(r.0)) % step == 0
  {
    StartsAre(loop, loop.start, calls, i);
    hide LockedRanges, loop.Steps, WidthFits;
    MulMono(0, i, loop.Steps());
  }

  lemma SecondStartIsNoIteration(loop: Loop, step: nat, calls: nat)
    requires loop.kind.Has(loop.start) && loop.kind.Has(loop.end) && loop.kind.Has(loop.chunk) && step > 0
    requires loop.Steps() > 0 && WidthFits(loop)
    requires loop.Steps() % step != 0 && loop.Steps() < loop.At(loop.end) - loop.At(loop.start)
    requires Follow(loop, loop.start, LockedRanges(loop, loop.start, calls), loop.end)
    ensures !RunsIterations(loop, step, calls)
  {
    var rs := LockedRanges(loop, loop.start, calls);
    assert |rs| > 1 && loop.At(rs[1].0) < loop.At(rs[1].1);
    StartsAre(loop, loop.start, calls, 1);
    StrayRange(loop.up, loop.start, loop.end, step, rs, 1);
  }

  // ---------------------------------------------------------------- inputs

  /** A signed loop wider than a long, one thread, chunks of one: the fast form takes one
      iteration, the locked form all of them. */
  lemma WideLoopDiffers()
    ensures var loop := LoopInit(Long, true, -HALF, 0, 1, 1, 1);
      && loop.fast && FastEnd(loop, -HALF) == -HALF + 1
      && TakeEnd(loop, -HALF) == 0
  {
    assert BitOr(1, 1) == 1;
    NormIs(Long, -HALF + HALF, 0, 0);
    NormIs(Long, HALF, -HALF, 1);
  }

  /** The chunk of an unsigned loop downward that has vanished: the locked form takes all, the fast
      form an empty range. */
  lemma VanishedChunkDiffers()
    ensures var loop := LoopInit(Ull, false, 100, 10, WORD - 2, HALF, 4);
      && loop.fast && loop.chunk == 0
      && FastEnd(loop, 100) == 100 && TakeEnd(loop, 100) == 10
  {
    assert (WORD - 2) * HALF == 0 + (HALF - 1) * WORD;
    NormIs(Ull, HALF * (WORD - 2), 0, HALF - 1);
    assert BitOr(4, 0) == 4;
    NormIs(Ull, 100, 100, 0);
    NormIs(Ull, 0 - (WORD - 1), 1, -1);
    NormIs(Ull, 10 - 100, WORD - 90, -1);
    NormIs(Ull, 100 + (WORD - 90), 10, 1);
  }

  /** A chunk that wraps to 2 in a loop by threes: the complete hand-out of 50 ranges does not run the
      loop. */
  lemma WrappedChunkRunsOthers()
    ensures var loop := LoopInit(Ull, true, 0, 100, 3, 0x5555_5555_5555_5556, 4);
      && GoodLoop(loop, 4) && loop.chunk == 2 && TakeEnd(loop, 0) == 2 && TakeEnd(loop, 2) == 4
      && LockedNext(loop, 0, 50) == loop.end == 100
      && !RunsIterations(loop, 3, 50)
  {
    var loop := LoopInit(Ull, true, 0, 100, 3, 0x5555_5555_5555_5556, 4);
    hide IsFast;
    NormIs(Ull, 0x5555_5555_5555_5556 * 3, 2, 1);
    UnsignedIs(2, 2, 0);
    assert IsSetUp(loop, 4, 100, 3, 0x5555_5555_5555_5556);
    TakeIs(loop, 0);
    TakeIs(loop, 2);
    NextIs(loop, 0, 50);
    HandOutRunsTheLoop(loop, 4, 3, 50);
  }

  /** Chunks that vanish: the hand-out gives the same empty range for ever. */
  lemma ChunkCanVanish()
    ensures var loop := LoopInit(Ull, true, 0, 100, 2, HALF, 4); loop.chunk == 0 && TakeEnd(loop, 0) == 0
  {
    hide IsFast;
    NormIs(Ull, HALF * 2, 0, 1);
    NormIs(Ull, 100, 100, 0);
  }

  lemma LongChunkCanVanish()
    ensures var loop := LoopInit(Long, true, 0, 100, 4, HALF / 2, 4); loop.chunk == 0 && TakeEnd(loop, 0) == 0
  {
    hide IsFast;
    NormIs(Long, HALF / 2 * 4, 0, 1);
    NormIs(Long, 100, 100, 0);
  }
}
