/** How a taskloop is cut into tasks (taskloop.c:56-148 and 172-215), for loops over long and over
    unsigned long long.

  A loop of n iterations is cut into numTasks tasks: the first nfirst + 1 get `size` iterations
  each, the others one less.  `LoopCounts` says how n is counted, and which values iterations have.
 */
module Taskloop {
  import opened Arith
  import opened LoopCounts
  import opened LoopRanges
  import opened Words

  /** The loop runs exactly the iterations below its trip count. */
  lemma TripCountIsRight(start: int, end: int, step: int, k: nat)
    requires step != 0
    ensures k < TripCount(start, end, step) <==> if step > 0 then start + k * step < end else start + k * step > end
  {
    var d, gap := if step > 0 then step else -step, if step > 0 then end - start else start - end;
    assert k * step == if step > 0 then k * d else -(k * d);
    if gap > 0 {
      CeilingAbove(gap, d, k);
    }
  }

  lemma CeilingAbove(gap: nat, d: nat, k: nat)
    requires gap > 0 && d > 0
    ensures k < (gap + d - 1) / d <==> k * d < gap
  {
    var q, r := (gap + d - 1) / d, (gap + d - 1) % d;
    assert gap + d - 1 == q * d + r;
    if k < q { MulMono(k + 1, q, d); Distribute(k, 1, d); } else { MulMono(q, k, d); }
  }

  /** `whole` marks a single task that gets the end of the loop itself as its end. */
  datatype Cut = Cut(numTasks: nat, size: nat, nfirst: nat, whole: bool)

  /** As evenly as possible. */
  function CutEvenly(n: nat, numTasks: nat): Cut
    requires numTasks > 0
  {
    if n % numTasks == 0 then Cut(numTasks, n / numTasks, n, false) else Cut(numTasks, n / numTasks + 1, n % numTasks - 1, false)
  }

  /** With a grainsize clause. */
  function CutByGrain(n: nat, g: nat): Cut
    requires n > 0 && g > 0
  {
    CutInto(n, g, n / g)
  }

  function CutInto(n: nat, g: nat, m: nat): Cut
    requires m * g <= n
  {
    if m <= 1 then Cut(1, n, n, true)
    else if m >= g then
      var mul := m * g;
      if mul == n then Cut(m, g, n, false) else Cut(m, g + 1, n - mul - 1, false)
    else CutEvenly(n, m)
  }

  /** With a num_tasks clause, or one task for each of nthreads threads. */
  function CutByNumber(n: nat, numTasks: nat, nthreads: nat): Cut
    requires n > 0 && nthreads > 0
  {
    var wanted := if numTasks == 0 then nthreads else numTasks;
    if wanted >= n then Cut(n, 1, n, false) else CutEvenly(n, wanted)
  }

  /** The first iteration of task i; tasks from nfirst + 1 on are shorter. */
  function First(c: Cut, i: nat): int {
    if i <= c.nfirst + 1 then i * c.size else i * c.size - (i - c.nfirst - 1)
  }

  /** The tasks hold all n iterations and none is empty. */
  ghost predicate Covers(c: Cut, n: nat) {
    && First(c, c.numTasks) == n && c.numTasks > 0 && c.size > 0
    && (c.size == 1 ==> c.numTasks <= c.nfirst + 1)
  }

  function SizeOf(c: Cut, i: nat): int {
    if i <= c.nfirst then c.size else c.size - 1
  }

  lemma TaskSize(c: Cut, i: nat)
    ensures First(c, i + 1) - First(c, i) == SizeOf(c, i)
  {
    assert (i + 1) * c.size == i * c.size + c.size;
  }

  lemma EvenlyCovers(n: nat, numTasks: nat)
    requires 0 < numTasks <= n
    ensures Covers(CutEvenly(n, numTasks), n)
  {
    var q, r := n / numTasks, n % numTasks;
    assert n == numTasks * q + r;
    assert numTasks * (q + 1) == numTasks * q + numTasks;
    AtLeastOne(n, numTasks);
  }

  lemma GrainCovers(n: nat, g: nat)
    requires n > 0 && g > 0
    ensures Covers(CutByGrain(n, g), n)
  {
    DivBounds(n, g);
    hide CutInto, Covers;
    IntoCovers(n, g, n / g);
  }

  lemma IntoCovers(n: nat, g: nat, m: nat)
    requires g > 0 && n > 0 && m * g <= n < m * g + g
    ensures Covers(CutInto(n, g, m), n)
  {
    if 1 < m < g {
      MulMono(1, g, m);
      hide Covers;
      EvenlyCovers(n, m);
    } else if m > 1 {
      hide CutEvenly;
      Distribute(g, 1, m);
    }
  }

  lemma NumberCovers(n: nat, numTasks: nat, nthreads: nat)
    requires n > 0 && nthreads > 0
    ensures Covers(CutByNumber(n, numTasks, nthreads), n)
  {
    var wanted := if numTasks == 0 then nthreads else numTasks;
    if wanted < n { EvenlyCovers(n, wanted); }
  }

  /** Task i has iteration k. */
  predicate HasIteration(c: Cut, i: nat, k: nat) {
    First(c, i) <= k < First(c, i + 1)
  }

  lemma {:induction false} FirstGrows(c: Cut, n: nat, i: nat, j: nat)
    requires Covers(c, n) && i < j <= c.numTasks
    ensures First(c, i) < First(c, j)
  {
    TaskSize(c, j - 1);
    if i < j - 1 { FirstGrows(c, n, i, j - 1); }
  }

  lemma {:induction false} SomeTask(c: Cut, n: nat, m: nat, k: nat) returns (i: nat)
    requires Covers(c, n) && m <= c.numTasks && k < First(c, m)
    ensures i < m && HasIteration(c, i, k)
  {
    if k >= First(c, m - 1) {
      i := m - 1;
    } else {
      i := SomeTask(c, n, m - 1, k);
    }
  }

  /** Every iteration is in exactly one task. */
  lemma TasksPartition(c: Cut, n: nat, k: nat)
    requires Covers(c, n) && k < n
    ensures exists i: nat :: i < c.numTasks && HasIteration(c, i, k)
    ensures forall i: nat, j: nat :: i < c.numTasks && j < c.numTasks && HasIteration(c, i, k) && HasIteration(c, j, k) ==> i == j
  {
    var t := SomeTask(c, n, c.numTasks, k);
    forall i: nat, j: nat | i < j < c.numTasks && HasIteration(c, i, k) && HasIteration(c, j, k) ensures false {
      if i + 1 < j { FirstGrows(c, n, i + 1, j); }
    }
  }

  /** With grainsize g, a task has at least min(g, n) and less than 2 g iterations
      (OpenMP 4.5 section 2.9.2). */
  lemma GrainsizeHolds(n: nat, g: nat, i: nat)
    requires n > 0 && g > 0 && i < CutByGrain(n, g).numTasks
    ensures var c := CutByGrain(n, g); var size := First(c, i + 1) - First(c, i);
      (if g < n then g else n) <= size < 2 * g
  {
    DivBounds(n, g);
    TaskSize(CutByGrain(n, g), i);
    hide CutInto, First;
    SizesInto(n, g, n / g, i);
  }

  lemma SizesInto(n: nat, g: nat, m: nat, i: nat)
    requires g > 0 && m * g <= n < m * g + g && i < CutInto(n, g, m).numTasks
    ensures (if g < n then g else n) <= SizeOf(CutInto(n, g, m), i) < 2 * g
  {
    if 1 < m < g {
      EvenSizes(n, g, m);
      MulMono(1, g, m);
      hide CutEvenly;
      EvenlySizes(n, m, i);
    } else {
      hide CutEvenly;
    }
  }

  lemma EvenlySizes(n: nat, m: nat, i: nat)
    requires 0 < m <= n && i < m
    ensures n / m <= SizeOf(CutEvenly(n, m), i) <= n / m + 1
  {
  }

  lemma EvenSizes(n: nat, g: nat, m: nat)
    requires 1 < m < g && m * g <= n < m * g + g
    ensures g <= n / m && n / m + 1 < 2 * g
  {
    DivBounds(n, m);
    QuotientFits(n, g, m, n / m);
  }

  lemma QuotientFits(n: nat, g: nat, m: nat, q: nat)
    requires 1 < m < g && m * g <= n < m * g + g && q * m <= n < q * m + m
    ensures g <= q && q + 1 < 2 * g
  {
    if q < g {
      MulMono(q + 1, g, m);
      Distribute(q, 1, m);
    }
    QuotientIsBelow(n, g, m, q);
  }

  lemma QuotientIsBelow(n: nat, g: nat, m: nat, q: nat)
    requires 1 < m < g && n < m * g + g && q * m <= n
    ensures q + 1 < 2 * g
  {
    assert (2 * g - 1) * m == m * g + m * g - m;
    if q + 1 >= 2 * g {
      MulMono(2 * g - 1, q, m);
      MulMono(2, m, g);
    }
  }

  /** With a number of tasks, that many tasks are made, or one for each iteration, and their sizes
      differ by at most one. */
  lemma NumberHolds(n: nat, numTasks: nat, nthreads: nat, i: nat)
    requires n > 0 && nthreads > 0 && i < CutByNumber(n, numTasks, nthreads).numTasks
    ensures var c := CutByNumber(n, numTasks, nthreads); var wanted := if numTasks == 0 then nthreads else numTasks;
      && c.numTasks == (if wanted < n then wanted else n)
      && n / c.numTasks <= First(c, i + 1) - First(c, i) <= n / c.numTasks + 1
  {
    var c := CutByNumber(n, numTasks, nthreads);
    TaskSize(c, i);
    assert n / n == 1 by { assert n == n * 1 + 0; }
  }

  /** The values that task i gets: of its first iteration and of the one behind its last.  A single
      task gets the end of the loop. */
  function TaskBounds(b: Bounds, c: Cut, i: nat): (int, int) {
    if c.whole then (b.next, b.end) else (b.Value(First(c, i)), b.Value(First(c, i + 1)))
  }

  /** A single task has one value of nfirst that never shortens it. */
  ghost predicate WholeIsOne(c: Cut) {
    c.whole ==> c.numTasks == 1 <= c.nfirst
  }

  /** The loop that gives each task its bounds. */
  method MakeTasks(b: Bounds, c: Cut) returns (tasks: seq<(int, int)>)
    requires b.Valid() && WholeIsOne(c)
    ensures |tasks| == c.numTasks && forall i: nat | i < |tasks| :: tasks[i] == TaskBounds(b, c, i)
  {
    var start, taskStep, i := b.next, b.kind.Norm(if c.whole then b.end - b.next else c.size * b.incr), 0;
    tasks := [];
    FirstValue(b, c);
    while i < c.numTasks
      invariant i <= c.numTasks && |tasks| == i
      invariant c.whole && i == 0 ==> start == b.next && taskStep == b.kind.Norm(b.end - b.next)
      invariant !c.whole ==> start == b.Value(First(c, i)) && taskStep == b.kind.Norm(SizeOf(c, i) * b.incr)
      invariant forall j: nat | j < i :: tasks[j] == TaskBounds(b, c, j)
    {
      NextStart(b, c, i);
      var end := b.kind.Norm(start + taskStep);
      tasks := tasks + [(start, end)];
      start := end;
      if i == c.nfirst {
        taskStep := b.kind.Norm(taskStep - b.incr);
      }
      i := i + 1;
    }
  }

  lemma FirstValue(b: Bounds, c: Cut)
    requires b.Valid()
    ensures b.Value(First(c, 0)) == b.next
    ensures b.kind.Norm(b.next + b.kind.Norm(b.end - b.next)) == b.end
  {
    assert First(c, 0) == 0 && 0 * b.incr == 0;
    NormId(b.kind, b.next);
    NormAdd(b.kind, b.next, b.end - b.next);
    NormId(b.kind, b.end);
  }

  lemma NextStart(b: Bounds, c: Cut, i: nat)
    ensures b.kind.Norm(b.Value(First(c, i)) + b.kind.Norm(SizeOf(c, i) * b.incr)) == b.Value(First(c, i + 1))
    ensures i == c.nfirst ==> b.kind.Norm(b.kind.Norm(SizeOf(c, i) * b.incr) - b.incr) == b.kind.Norm(SizeOf(c, i + 1) * b.incr)
  {
    TaskSize(c, i);
    var x, d := First(c, i), SizeOf(c, i);
    assert i == c.nfirst ==> SizeOf(c, i + 1) == d - 1;
    hide First, SizeOf;
    AddSteps(b, x, d);
    AddSteps(b.(next := 0), d, -1);
  }

  lemma AddSteps(b: Bounds, x: int, d: int)
    ensures b.kind.Norm(b.Value(x) + b.kind.Norm(d * b.incr)) == b.Value(x + d)
    ensures b.kind.Norm(b.Value(x) + d * b.incr) == b.Value(x + d)
  {
    assert (x + d) * b.incr + b.next == (x * b.incr + b.next) + d * b.incr;
    NormSum(b.kind, x * b.incr + b.next, d * b.incr);
  }

  lemma NormSum(kind: Kind, x: int, y: int)
    ensures kind.Norm(kind.Norm(x) + kind.Norm(y)) == kind.Norm(x + y)
    ensures kind.Norm(kind.Norm(x) + y) == kind.Norm(x + y)
  {
    NormAdd(kind, kind.Norm(x), y);
    NormAdd(kind, y, x);
  }

  // ---------------------------------------------------------------- what the tasks run

  /** A task starts with its first iteration, and runs exactly its iterations if and only if it is the
      only one or its end is a word; only the end of the last task can fail to be one. */
  lemma TaskRuns(b: Bounds, c: Cut, i: nat)
    requires b.Valid() && b.Step() > 0 && WholeIsOne(c) && Covers(c, b.Trips()) && i < c.numTasks
    ensures var lo, hi, task := First(c, i), First(c, i + 1), TaskBounds(b, c, i);
      && 0 <= lo < hi <= b.Trips() && Dir(b.up, task.0) == b.Position(lo)
      && (TripCount(Dir(b.up, task.0), Dir(b.up, task.1), b.Step()) == hi - lo <==> c.whole || b.HasPosition(hi))
      && (i + 1 < c.numTasks ==> b.HasPosition(hi))
  {
    var n := b.Trips();
    FirstGrows(c, n, i, i + 1);
    if i > 0 { FirstGrows(c, n, 0, i); }
    assert First(c, 0) == 0 by { assert 0 * c.size == 0; }
    assert b.Position(0) == Dir(b.up, b.next) by { assert 0 * b.Step() == 0; }
    if i + 1 < c.numTasks {
      FirstGrows(c, n, i + 1, c.numTasks);
      IterationIsInside(b, First(c, i + 1));
    }
    RangeRuns(b, First(c, i), First(c, i + 1));
  }

  /** The end of a task with a word as its end. */
  lemma TaskEnds(b: Bounds, c: Cut, i: nat)
    requires b.Valid() && b.Step() > 0 && WholeIsOne(c) && Covers(c, b.Trips()) && i < c.numTasks
    ensures var lo, hi, task := First(c, i), First(c, i + 1), TaskBounds(b, c, i);
      !c.whole && b.HasPosition(hi) ==> Dir(b.up, task.1) == b.Position(hi) == Dir(b.up, task.0) + (hi - lo) * b.Step()
  {
    TaskRuns(b, c, i);
    ValueIs(b, First(c, i + 1));
    PositionAfter(b, First(c, i), First(c, i + 1));
  }

  /** What MakeTasks returns. */
  ghost predicate AreTasks(b: Bounds, c: Cut, tasks: seq<(int, int)>) {
    && b.Valid() && b.Step() > 0 && WholeIsOne(c) && Covers(c, b.Trips())
    && |tasks| == c.numTasks && forall i: nat | i < |tasks| :: tasks[i] == TaskBounds(b, c, i)
  }

  /** All tasks together run each iteration of the loop exactly once and nothing else, if and only if
      there is just one for the whole loop or the end of the last one is a word. */
  lemma TasksRunTheLoop(b: Bounds, c: Cut, tasks: seq<(int, int)>)
    requires AreTasks(b, c, tasks)
    ensures RunsTheLoop(b.up, b.next, b.end, b.Step(), tasks) <==> c.whole || b.HasPosition(b.Trips())
  {
    if c.whole {
      WholeRuns(b, c, tasks);
    } else if b.HasPosition(b.Trips()) {
      WordsRun(b, c, tasks);
    } else {
      LastIsLost(b, c, tasks);
    }
  }

  lemma WholeRuns(b: Bounds, c: Cut, tasks: seq<(int, int)>)
    requires AreTasks(b, c, tasks) && c.whole
    ensures RunsTheLoop(b.up, b.next, b.end, b.Step(), tasks)
  {
    TripsAre(b);
    assert tasks == [(b.next, b.end)];
    assert 0 < b.Trips() by { TaskRuns(b, c, 0); }
    WholeStepsRunTheLoop(b.up, b.next, b.end, b.Step(), tasks);
  }

  /** Up to the last task, the tasks follow each other and go by whole steps. */
  lemma TasksFollow(b: Bounds, c: Cut, tasks: seq<(int, int)>, i: nat)
    requires AreTasks(b, c, tasks) && !c.whole && i < |tasks|
    ensures i == 0 ==> tasks[i].0 == b.next
    ensures i + 1 < |tasks| ==> tasks[i].1 == tasks[i + 1].0
    ensures b.HasPosition(First(c, i + 1)) ==>
              && Dir(b.up, tasks[i].0) < Dir(b.up, tasks[i].1)
              && (Dir(b.up, tasks[i].1) - Dir(b.up, tasks[i].0)) % b.Step() == 0
  {
    FirstValue(b, c);
    TaskRuns(b, c, i);
    TaskEnds(b, c, i);
    var m := First(c, i + 1) - First(c, i);
    MulMono(1, m, b.Step());
    ModIs(m * b.Step(), b.Step(), m, 0);
  }

  lemma WordsRun(b: Bounds, c: Cut, tasks: seq<(int, int)>)
    requires AreTasks(b, c, tasks) && !c.whole && b.HasPosition(b.Trips())
    ensures RunsTheLoop(b.up, b.next, b.end, b.Step(), tasks)
  {
    var end := b.Value(b.Trips());
    hide Covers, TaskBounds, First, b.HasPosition, b.Value;
    forall i: nat | i < |tasks|
      ensures i == 0 ==> tasks[i].0 == b.next
      ensures i + 1 < |tasks| ==> tasks[i].1 == tasks[i + 1].0
      ensures Dir(b.up, tasks[i].0) < Dir(b.up, tasks[i].1)
      ensures (Dir(b.up, tasks[i].1) - Dir(b.up, tasks[i].0)) % b.Step() == 0
    {
      TasksFollow(b, c, tasks, i);
      TaskHasEnd(b, c, i);
    }
    LastEnd(b, c, tasks);
    WholeStepsRunTheLoop(b.up, b.next, end, b.Step(), tasks);
    SameLoop(b, tasks);
  }

  lemma TaskHasEnd(b: Bounds, c: Cut, i: nat)
    requires b.Valid() && b.Step() > 0 && WholeIsOne(c) && Covers(c, b.Trips()) && i < c.numTasks && b.HasPosition(b.Trips())
    ensures b.HasPosition(First(c, i + 1))
  {
    TaskRuns(b, c, i);
  }

  lemma LastEnd(b: Bounds, c: Cut, tasks: seq<(int, int)>)
    requires AreTasks(b, c, tasks) && !c.whole
    ensures |tasks| > 0 && tasks[|tasks| - 1].1 == b.Value(b.Trips())
  {
  }

  /** The iterations up to the value behind the last one are those of the loop. */
  lemma SameLoop(b: Bounds, tasks: seq<(int, int)>)
    requires b.Valid() && b.Step() > 0 && b.HasPosition(b.Trips())
    requires RunsTheLoop(b.up, b.next, b.Value(b.Trips()), b.Step(), tasks)
    ensures RunsTheLoop(b.up, b.next, b.end, b.Step(), tasks)
  {
    var end := b.Value(b.Trips());
    forall x: int ensures RightAt(b.up, b.next, b.end, b.Step(), tasks, x) {
      SameIteration(b, x);
      assert RightAt(b.up, b.next, end, b.Step(), tasks, x);
      hide IsIteration, Executes;
    }
  }

  lemma SameIteration(b: Bounds, x: int)
    requires b.Valid() && b.Step() > 0 && b.HasPosition(b.Trips())
    ensures IsIteration(b.up, b.next, b.end, b.Step(), x) <==> IsIteration(b.up, b.next, b.Value(b.Trips()), b.Step(), x)
  {
    ValueIs(b, b.Trips());
    var y, step: nat := x - Dir(b.up, b.next), b.Step();
    if y >= 0 && y % step == 0 {
      var k := y / step;
      assert y == k * step;
      TripCountIsRight(Dir(b.up, b.next), Dir(b.up, b.end), step, k);
      if k < b.Trips() { MulStep(k, b.Trips(), step); } else { MulMono(b.Trips(), k, step); }
    }
  }

  /** If not, its last iteration is run by no task. */
  lemma LastIsLost(b: Bounds, c: Cut, tasks: seq<(int, int)>)
    requires AreTasks(b, c, tasks) && !c.whole && !b.HasPosition(b.Trips())
    ensures !RunsTheLoop(b.up, b.next, b.end, b.Step(), tasks)
  {
    var x := b.Position(b.Trips() - 1);
    forall i: nat | i < |tasks| ensures !Holds(b.up, tasks[i], x) {
      NotHeld(b, c, tasks, i);
    }
    LastIsIteration(b, c);
    assert !RightAt(b.up, b.next, b.end, b.Step(), tasks, x);
  }

  lemma LastIsIteration(b: Bounds, c: Cut)
    requires b.Valid() && b.Step() > 0 && WholeIsOne(c) && Covers(c, b.Trips())
    ensures b.Trips() > 0 && IsIteration(b.up, b.next, b.end, b.Step(), b.Position(b.Trips() - 1))
  {
    TaskRuns(b, c, 0);
    var k := b.Trips() - 1;
    IterationIsInside(b, k);
    ModIs(k * b.Step(), b.Step(), k, 0);
  }

  lemma NotHeld(b: Bounds, c: Cut, tasks: seq<(int, int)>, i: nat)
    requires AreTasks(b, c, tasks) && !c.whole && !b.HasPosition(b.Trips()) && i < |tasks|
    ensures b.Trips() > 0 && !Holds(b.up, tasks[i], b.Position(b.Trips() - 1))
  {
    TaskRuns(b, c, i);
    hide b.HasPosition, b.Position, b.Value, b.Trips, b.Step, b.Valid, TaskBounds, TripCount;
    if i + 1 < c.numTasks {
      EarlierTaskEnds(b, c, i);
    } else {
      LastTaskWraps(b, c, i);
    }
  }

  lemma EarlierTaskEnds(b: Bounds, c: Cut, i: nat)
    requires b.Valid() && b.Step() > 0 && WholeIsOne(c) && Covers(c, b.Trips()) && i + 1 < c.numTasks && !c.whole
    ensures b.Trips() > 0 && Dir(b.up, TaskBounds(b, c, i).1) <= b.Position(b.Trips() - 1)
  {
    TaskRuns(b, c, i);
    TaskEnds(b, c, i);
    FirstGrows(c, b.Trips(), i + 1, c.numTasks);
    hide First, Covers, TaskBounds, b.Value, b.Trips, b.HasPosition;
    MulMono(First(c, i + 1), b.Trips() - 1, b.Step());
  }

  lemma LastTaskWraps(b: Bounds, c: Cut, i: nat)
    requires b.Valid() && b.Step() > 0 && WholeIsOne(c) && Covers(c, b.Trips()) && i + 1 == c.numTasks && !c.whole
    requires !b.HasPosition(b.Trips())
    ensures b.Trips() > 0 && Dir(b.up, TaskBounds(b, c, i).1) <= b.Position(b.Trips() - 1)
  {
    TaskRuns(b, c, i);
    assert TaskBounds(b, c, i).1 == b.Value(b.Trips());
    hide First, Covers, TaskBounds, b.Value, b.Trips, b.HasPosition;
    EndWraps(b, b.Trips());
    PositionAfter(b, b.Trips() - 1, b.Trips());
    StepIsPositive(b.kind, b.up, b.incr);
  }

  /** A loop of two iterations, counted right, whose second task ends behind the words: it runs
      nothing. */
  lemma LastTaskIsLost()
    ensures var b, c := Bounds(Long, true, HALF - 8, HALF - 1, 4), CutByNumber(2, 2, 4);
      var tasks := [(HALF - 8, HALF - 4), (HALF - 4, -HALF)];
      && b.Count() == b.Trips() == 2 && AreTasks(b, c, tasks)
      && !RunsTheLoop(b.up, b.next, b.end, b.Step(), tasks)
  {
    var b, c := Bounds(Long, true, HALF - 8, HALF - 1, 4), CutByNumber(2, 2, 4);
    var tasks := [(HALF - 8, HALF - 4), (HALF - 4, -HALF)];
    CountIsTrips(b);
    NormIs(Long, HALF - 8, HALF - 8, 0);
    NormIs(Long, HALF - 4, HALF - 4, 0);
    NormIs(Long, HALF, -HALF, 1);
    assert tasks[0] == TaskBounds(b, c, 0) && tasks[1] == TaskBounds(b, c, 1);
    TasksRunTheLoop(b, c, tasks);
  }
}
