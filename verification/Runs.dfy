/** Runs of a step relation.

  Every protocol of the runtime is modelled as a state machine: one step is one atomic
  operation of one thread, and a run is any finite interleaving of such steps.  This module
  holds the single induction that turns a preserved predicate into a fact about whole runs.
 */
module Runs {

  /** A non-empty sequence of states that starts in an initial state and moves by steps. */
  ghost predicate IsRun<S(!new)>(init: S -> bool, next: (S, S) -> bool, run: seq<S>) {
    && |run| > 0
    && init(run[0])
    && forall i, j :: 0 <= i && j == i + 1 < |run| ==> next(run[i], run[j])
  }

  /** A predicate that holds initially and is kept by every step holds all along a run. */
  lemma {:induction false} HoldsAlong<S(!new)>(
    init: S -> bool, next: (S, S) -> bool, inv: S -> bool, run: seq<S>, k: nat)
    requires IsRun(init, next, run) && k < |run|
    requires forall s :: init(s) ==> inv(s)
    requires forall s, s' :: inv(s) && next(s, s') ==> inv(s')
    ensures inv(run[k])
  {
    if k > 0 {
      HoldsAlong(init, next, inv, run, k - 1);
      assert next(run[k - 1], run[k]);
    }
  }
}
