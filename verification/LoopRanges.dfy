/** Ranges of a loop as they are handed out, each given by the value of its first iteration and the
    value behind its last one, and when together they run the loop.  Positions are values in the
    direction of the loop.
 */
module LoopRanges {
  import opened Arith
  import opened Words

  /** The ranges follow each other from start to last. */
  ghost predicate Consecutive(start: int, rs: seq<(int, int)>, last: int) {
    && (if rs == [] then last == start else rs[0].0 == start && rs[|rs| - 1].1 == last)
    && (forall i, j :: 0 <= i && j == i + 1 < |rs| ==> rs[i].1 == rs[j].0)
  }

  /** None is empty or goes back. */
  ghost predicate Forward(up: bool, rs: seq<(int, int)>) {
    forall i | 0 <= i < |rs| :: Dir(up, rs[i].0) < Dir(up, rs[i].1)
  }

  /** All go by whole steps, but for one that ends with the loop. */
  ghost predicate WholeSteps(up: bool, end: int, step: nat, rs: seq<(int, int)>)
    requires step > 0
  {
    forall i | 0 <= i < |rs| :: rs[i].1 == end || (Dir(up, rs[i].1) - Dir(up, rs[i].0)) % step == 0
  }

  predicate Holds(up: bool, range: (int, int), x: int) {
    Dir(up, range.0) <= x < Dir(up, range.1)
  }

  /** Range i runs the iteration at position x when the loop has the given step. */
  ghost predicate Executes(up: bool, step: nat, rs: seq<(int, int)>, i: nat, x: int)
    requires step > 0
  {
    i < |rs| && Holds(up, rs[i], x) && (x - Dir(up, rs[i].0)) % step == 0
  }

  ghost predicate IsIteration(up: bool, start: int, end: int, step: nat, x: int)
    requires step > 0
  {
    Holds(up, (start, end), x) && (x - Dir(up, start)) % step == 0
  }

  /** The ranges run each iteration of the loop exactly once, and nothing else. */
  ghost predicate RunsTheLoop(up: bool, start: int, end: int, step: nat, rs: seq<(int, int)>)
    requires step > 0
  {
    forall x: int :: RightAt(up, start, end, step, rs, x)
  }

  ghost predicate RightAt(up: bool, start: int, end: int, step: nat, rs: seq<(int, int)>, x: int)
    requires step > 0
  {
    && (IsIteration(up, start, end, step, x) <==> exists i: nat :: Executes(up, step, rs, i, x))
    && forall i: nat, j: nat :: Executes(up, step, rs, i, x) && Executes(up, step, rs, j, x) ==> i == j
  }

  // ---------------------------------------------------------------- order

  lemma {:induction false} EarlierEndsBefore(up: bool, start: int, rs: seq<(int, int)>, last: int, i: nat, j: nat)
    requires Consecutive(start, rs, last) && Forward(up, rs) && i < j < |rs|
    ensures Dir(up, rs[i].1) <= Dir(up, rs[j].0)
  {
    assert rs[j - 1].1 == rs[j].0;
    if i < j - 1 { EarlierEndsBefore(up, start, rs, last, i, j - 1); }
  }

  lemma AreInside(up: bool, start: int, rs: seq<(int, int)>, last: int, i: nat)
    requires Consecutive(start, rs, last) && Forward(up, rs) && i < |rs|
    ensures Dir(up, start) <= Dir(up, rs[i].0) < Dir(up, rs[i].1) <= Dir(up, last)
    ensures i + 1 < |rs| ==> Dir(up, rs[i].1) < Dir(up, last)
  {
    if i > 0 { EarlierEndsBefore(up, start, rs, last, 0, i); }
    if i + 1 < |rs| { EarlierEndsBefore(up, start, rs, last, i, |rs| - 1); }
  }

  lemma NoTwoHold(up: bool, start: int, rs: seq<(int, int)>, last: int, x: int, i: nat, j: nat)
    requires Consecutive(start, rs, last) && Forward(up, rs) && i < |rs| && j < |rs|
    requires Holds(up, rs[i], x) && Holds(up, rs[j], x)
    ensures i == j
  {
    if i < j { EarlierEndsBefore(up, start, rs, last, i, j); }
    if j < i { EarlierEndsBefore(up, start, rs, last, j, i); }
  }

  /** A position between start and last lies in exactly one of the ranges. */
  lemma RangeOf(up: bool, start: int, rs: seq<(int, int)>, last: int, x: int) returns (i: nat)
    requires Consecutive(start, rs, last) && Forward(up, rs) && Holds(up, (start, last), x)
    ensures i < |rs| && Holds(up, rs[i], x)
    ensures forall j: nat | j < |rs| && Holds(up, rs[j], x) :: j == i
  {
    i := FindFrom(up, start, rs, last, x, 0);
    forall j: nat | j < |rs| && Holds(up, rs[j], x) ensures j == i {
      NoTwoHold(up, start, rs, last, x, i, j);
    }
  }

  lemma {:induction false} FindFrom(up: bool, start: int, rs: seq<(int, int)>, last: int, x: int, k: nat) returns (i: nat)
    requires Consecutive(start, rs, last) && k < |rs| && Dir(up, rs[k].0) <= x < Dir(up, last)
    ensures i < |rs| && Holds(up, rs[i], x)
    decreases |rs| - k
  {
    if x < Dir(up, rs[k].1) {
      i := k;
    } else {
      assert k + 1 < |rs| ==> rs[k].1 == rs[k + 1].0;
      i := FindFrom(up, start, rs, last, x, k + 1);
    }
  }

  // ---------------------------------------------------------------- iterations

  lemma ModOfSum(a: int, b: int, step: nat)
    requires step > 0 && a % step == 0
    ensures (a + b) % step == b % step
  {
    var i, j := a / step, b / step;
    assert a == i * step && b == j * step + b % step;
    assert (i + j) * step == i * step + j * step;
    ModIs(a + b, step, i + j, b % step);
  }

  /** Each range starts with an iteration. */
  lemma {:induction false} StartsWithIteration(up: bool, start: int, end: int, step: nat, rs: seq<(int, int)>, i: nat)
    requires step > 0 && Consecutive(start, rs, end) && Forward(up, rs) && WholeSteps(up, end, step, rs) && i < |rs|
    ensures (Dir(up, rs[i].0) - Dir(up, start)) % step == 0
  {
    if i > 0 {
      StartsWithIteration(up, start, end, step, rs, i - 1);
      AreInside(up, start, rs, end, i - 1);
      assert rs[i - 1].1 == rs[i].0;
      ModOfSum(Dir(up, rs[i - 1].0) - Dir(up, start), Dir(up, rs[i].0) - Dir(up, rs[i - 1].0), step);
    }
  }

  lemma SameIterations(up: bool, start: int, end: int, step: nat, rs: seq<(int, int)>, i: nat, x: int)
    requires step > 0 && Consecutive(start, rs, end) && Forward(up, rs) && WholeSteps(up, end, step, rs)
    requires i < |rs| && Holds(up, rs[i], x)
    ensures Executes(up, step, rs, i, x) <==> IsIteration(up, start, end, step, x)
  {
    StartsWithIteration(up, start, end, step, rs, i);
    AreInside(up, start, rs, end, i);
    ModOfSum(Dir(up, rs[i].0) - Dir(up, start), x - Dir(up, rs[i].0), step);
  }

  /** Consecutive ranges that go forward by whole steps from the start of the loop to its end run
      each iteration exactly once and nothing else. */
  lemma WholeStepsRunTheLoop(up: bool, start: int, end: int, step: nat, rs: seq<(int, int)>)
    requires step > 0 && Consecutive(start, rs, end) && Forward(up, rs) && WholeSteps(up, end, step, rs)
    ensures RunsTheLoop(up, start, end, step, rs)
  {
    hide RightAt, Consecutive, Forward, WholeSteps;
    forall x: int ensures RightAt(up, start, end, step, rs, x) {
      RightAtPosition(up, start, end, step, rs, x);
    }
  }

  lemma RightAtPosition(up: bool, start: int, end: int, step: nat, rs: seq<(int, int)>, x: int)
    requires step > 0 && Consecutive(start, rs, end) && Forward(up, rs) && WholeSteps(up, end, step, rs)
    ensures RightAt(up, start, end, step, rs, x)
  {
    forall i: nat | Executes(up, step, rs, i, x) ensures IsIteration(up, start, end, step, x) {
      SameIterations(up, start, end, step, rs, i, x);
    }
    forall i: nat, j: nat | Executes(up, step, rs, i, x) && Executes(up, step, rs, j, x) ensures i == j {
      NoTwoHold(up, start, rs, end, x, i, j);
    }
    if IsIteration(up, start, end, step, x) {
      var i := RangeOf(up, start, rs, end, x);
      SameIterations(up, start, end, step, rs, i, x);
    }
  }

  /** A range that starts in the loop but not with an iteration runs something else. */
  lemma StrayRange(up: bool, start: int, end: int, step: nat, rs: seq<(int, int)>, i: nat)
    requires step > 0 && i < |rs| && Holds(up, rs[i], Dir(up, rs[i].0))
    requires (Dir(up, rs[i].0) - Dir(up, start)) % step != 0
    ensures !RunsTheLoop(up, start, end, step, rs)
  {
    var x := Dir(up, rs[i].0);
    assert Executes(up, step, rs, i, x) && !IsIteration(up, start, end, step, x);
    assert !RightAt(up, start, end, step, rs, x);
  }
}
