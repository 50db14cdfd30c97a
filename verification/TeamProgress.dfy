/** The team barrier, the other half: while threads wait at it and tasks are left, somebody is there to
    run them, and when none is left somebody is there to open it (config/linux/bar.c:80-122,
    config/linux/bar.h:88-166, task.c:1057-1144 and 1211-1330).  `TeamBarrier` has the protocol and
    says when it must not open.
 */
module TeamProgress {
  import opened Collections
  import opened Options
  import opened Runs
  import opened TeamBarrier

  // ---------------------------------------------------------------- the flag and the queue

  ghost predicate FlagIsRight(sh: Shared) {
    sh.gen.pending <==> sh.queue != {}
  }

  /** The thread that holds the lock may have changed the queue and not the flag yet. */
  ghost predicate HolderOk(sh: Shared, pc: Pc) {
    match pc
    case Entered(_) => FlagIsRight(sh)
    case SetWaiting => FlagIsRight(sh) && sh.taskCount != 0
    case Starting(_) => sh.queue == {}
    case Releasing(_, ret) =>
      ret <= |sh.queue| && (sh.queue == {} ==> !sh.gen.pending) && (|sh.queue| > ret ==> sh.gen.pending)
    case Marking(_) => sh.queue != {}
    case Creating(_) => sh.queue != {}
    case _ => HoldsLock(pc) ==> (sh.queue == {} ==> !sh.gen.pending) && (|sh.queue| > 1 ==> sh.gen.pending)
  }

  ghost predicate FlagOk(s: State) {
    match s.sh.lock
    case None => FlagIsRight(s.sh)
    case Some(t) => t in s.threads && HolderOk(s.sh, s.threads[t].pc)
  }

  ghost predicate FlagAfter(t: Tid, sh': Shared, th': Thread) {
    && (sh'.lock == Some(t) ==> HolderOk(sh', th'.pc))
    && (sh'.lock == None ==> FlagIsRight(sh'))
  }

  ghost predicate FlagBefore(sh: Shared, t: Tid, th: Thread) {
    sh.lock in {None, Some(t)} && if sh.lock == None then FlagIsRight(sh) else HolderOk(sh, th.pc)
  }

  lemma CreateFlag(sh: Shared, t: Tid, th: Thread, x: Task, waits: set<Task>, sh': Shared, th': Thread)
    requires FlagBefore(sh, t, th) && CreateStep(sh, t, th, x, waits, sh', th')
    ensures FlagAfter(t, sh', th')
  {
  }

  lemma ReleaseFlag(sh: Shared, t: Tid, th: Thread, x: Task, ret: nat, y: Task, sh': Shared, th': Thread)
    requires FlagBefore(sh, t, th) && LockOk(sh, t, th) && CountOk(sh)
    requires th.pc == Releasing(x, ret) && ReleaseStep(sh, th, x, ret, y, sh', th')
    ensures FlagAfter(t, sh', th')
  {
    assert y !in Ready(sh.preds) && y !in sh.queue;
    hide CountOk;
    OneMoreQueued(sh.queue, y);
    ReleaseQueues(sh, t, ret, sh', if sh.preds[y] == {x} then 1 else 0);
  }

  lemma ReleaseQueues(sh: Shared, t: Tid, ret: nat, sh': Shared, more: nat)
    requires HolderOk(sh, Releasing(0, ret)) && sh'.gen == sh.gen
    requires |sh'.queue| == |sh.queue| + more && sh.queue <= sh'.queue
    ensures HolderOk(sh', Releasing(0, ret + more))
  {
  }

  lemma OneMoreQueued(queue: set<Task>, y: Task)
    requires y !in queue
    ensures |queue + {y}| == |queue| + 1
  {
  }

  lemma TakeFlag(sh: Shared, t: Tid, th: Thread, x: Task, sh': Shared, th': Thread)
    requires FlagBefore(sh, t, th) && LockOk(sh, t, th) && th.pc == Top && TakeStep(sh, th, x, sh', th')
    ensures FlagAfter(t, sh', th')
  {
    assert |sh.queue - {x}| == |sh.queue| - 1;
    assert sh'.queue != {} ==> |sh'.queue| > 0;
  }

  lemma UncountFlag(sh: Shared, t: Tid, th: Thread, sh': Shared, th': Thread)
    requires FlagBefore(sh, t, th) && LockOk(sh, t, th) && th.pc.Uncounting? && FinishStep(sh, t, th, sh', th')
    ensures FlagAfter(t, sh', th')
  {
  }

  lemma NothingQueued(sh: Shared)
    requires CountOk(sh) && sh.taskCount == 0
    ensures sh.queue == {}
  {
    hide GraphOk;
  }

  lemma EndOfRelease(sh: Shared, ret: nat)
    requires HolderOk(sh, Releasing(0, ret))
    ensures ret > 1 ==> sh.queue != {}
    ensures ret <= 1 ==> (sh.queue == {} ==> !sh.gen.pending) && (|sh.queue| > 1 ==> sh.gen.pending)
  {
  }

  lemma QuietFlag(n: nat, sh: Shared, t: Tid, th: Thread, sh': Shared, th': Thread)
    requires FlagBefore(sh, t, th) && ThreadOk(sh, t, th) && CountOk(sh) && Step(n, sh, t, th, sh', th')
    requires !IsTaskStep(sh, t, th, sh', th')
    ensures FlagAfter(t, sh', th')
  {
    if sh.taskCount == 0 { NothingQueued(sh); }
    if th.pc.Releasing? { EndOfRelease(sh, th.pc.ret); }
    hide CreateStep, ReleaseStep, TakeStep, GraphOk, Ready, NoDepender, EpochOk, Own;
  }

  lemma OwnFlag(n: nat, sh: Shared, t: Tid, th: Thread, sh': Shared, th': Thread)
    requires FlagBefore(sh, t, th) && ThreadOk(sh, t, th) && CountOk(sh) && Step(n, sh, t, th, sh', th')
    ensures FlagAfter(t, sh', th')
  {
    hide FlagBefore, FlagAfter, CountOk, LockOk, EpochOk, TaskOk, CreateStep, ReleaseStep, TakeStep;
    if !IsTaskStep(sh, t, th, sh', th') {
      hide *;
      QuietFlag(n, sh, t, th, sh', th');
    } else if x: Task, waits: set<Task> :| CreateStep(sh, t, th, x, waits, sh', th') {
      CreateFlag(sh, t, th, x, waits, sh', th');
    } else if th.pc.Releasing? {
      var y :| ReleaseStep(sh, th, th.pc.x, th.pc.ret, y, sh', th');
      ReleaseFlag(sh, t, th, th.pc.x, th.pc.ret, y, sh', th');
    } else if th.pc == Top {
      var x :| TakeStep(sh, th, x, sh', th');
      TakeFlag(sh, t, th, x, sh', th');
    } else {
      UncountFlag(sh, t, th, sh', th');
    }
  }

  lemma OtherFlag(n: nat, sh: Shared, t: Tid, th: Thread, sh': Shared, th': Thread, u: Tid, pu: Pc)
    requires ThreadOk(sh, t, th) && CountOk(sh) && Step(n, sh, t, th, sh', th')
    requires sh.lock == Some(u) && u != t && HolderOk(sh, pu) && HoldsLock(pu)
    ensures sh'.lock == sh.lock && HolderOk(sh', pu)
  {
  }

  // ---------------------------------------------------------------- tasks in hand

  /** Every task that could run is in the queue or in somebody's hands. */
  ghost predicate InHand(s: State, x: Task) {
    x in s.sh.queue || exists t :: t in s.threads && x in Own(s.threads[t].pc)
  }

  ghost predicate AllInHand(s: State) {
    forall x | x in Ready(s.sh.preds) :: InHand(s, x)
  }

  /** What becomes ready in a step is queued or already in hand, and nothing is dropped. */
  ghost predicate Keeps(sh: Shared, th: Thread, sh': Shared, th': Thread) {
    forall x | x in Ready(sh'.preds) :: x in sh'.queue || x in Own(th'.pc) || (x in Ready(sh.preds) && x !in sh.queue && x !in Own(th.pc))
  }

  lemma CreateKeeps(sh: Shared, t: Tid, th: Thread, x: Task, waits: set<Task>, sh': Shared, th': Thread)
    requires CountOk(sh) && CreateStep(sh, t, th, x, waits, sh', th')
    ensures Keeps(sh, th, sh', th')
  {
    ReadyAfterCreate(sh.preds, x, waits);
    CreatorKeepsTask(sh, t, th, x, waits, sh', th');
    hide Ready, GraphOk, Own;
  }

  lemma ReleaseKeeps(sh: Shared, th: Thread, x: Task, ret: nat, y: Task, sh': Shared, th': Thread)
    requires CountOk(sh) && th.pc == Releasing(x, ret) && ReleaseStep(sh, th, x, ret, y, sh', th')
    ensures Keeps(sh, th, sh', th')
  {
    ReadyAfterRelease(sh.preds, x, y);
    assert sh.queue <= Ready(sh.preds);
    hide Ready, GraphOk, CountOk;
  }

  lemma TakeKeeps(sh: Shared, th: Thread, x: Task, sh': Shared, th': Thread)
    requires th.pc == Top && TakeStep(sh, th, x, sh', th')
    ensures Keeps(sh, th, sh', th')
  {
  }

  lemma UncountKeeps(sh: Shared, t: Tid, th: Thread, sh': Shared, th': Thread)
    requires CountOk(sh) && TaskOk(sh, th) && th.pc.Uncounting? && FinishStep(sh, t, th, sh', th')
    ensures Keeps(sh, th, sh', th')
  {
    ReadyAfterUncount(sh.preds, th.pc.x);
    hide Ready, GraphOk;
  }

  lemma QuietKeepsTasks(n: nat, sh: Shared, t: Tid, th: Thread, sh': Shared, th': Thread)
    requires Step(n, sh, t, th, sh', th') && !IsTaskStep(sh, t, th, sh', th')
    requires th.pc.Releasing? ==> NoDepender(sh.preds, th.pc.x)
    ensures Keeps(sh, th, sh', th')
  {
    assert SameTasks(sh, sh') && Own(th'.pc) == Own(th.pc) by {
      hide CreateStep, ReleaseStep, TakeStep, Ready;
    }
    hide Step, IsTaskStep, Own, Ready;
  }

  lemma StepKeepsTasks(n: nat, sh: Shared, t: Tid, th: Thread, sh': Shared, th': Thread)
    requires ThreadOk(sh, t, th) && CountOk(sh) && Step(n, sh, t, th, sh', th')
    ensures Keeps(sh, th, sh', th')
  {
    hide Keeps, CountOk, LockOk, EpochOk, TaskOk, CreateStep, ReleaseStep, TakeStep;
    if !IsTaskStep(sh, t, th, sh', th') {
      assert th.pc.Releasing? ==> NoDepender(sh.preds, th.pc.x);
      hide *;
      QuietKeepsTasks(n, sh, t, th, sh', th');
    } else if x: Task, waits: set<Task> :| CreateStep(sh, t, th, x, waits, sh', th') {
      CreateKeeps(sh, t, th, x, waits, sh', th');
    } else if th.pc.Releasing? {
      var y :| ReleaseStep(sh, th, th.pc.x, th.pc.ret, y, sh', th');
      ReleaseKeeps(sh, th, th.pc.x, th.pc.ret, y, sh', th');
    } else if th.pc == Top {
      var x :| TakeStep(sh, th, x, sh', th');
      TakeKeeps(sh, th, x, sh', th');
    } else {
      UncountKeeps(sh, t, th, sh', th');
    }
  }

  // ---------------------------------------------------------------- the end

  ghost predicate IsOpening(s: State, t: Tid) {
    t in s.threads && s.threads[t].pc == Uncounted(true)
  }

  /** When all have arrived, somebody is closing; and when no task is left that they wait for, somebody
      is about to open. */
  ghost predicate EndOk(s: State) {
    && (AllArrived(s) && !s.sh.gen.waiting ==> exists t :: IsClosing(s, t))
    && (s.sh.gen.waiting && s.sh.taskCount == 0 ==> exists t :: IsOpening(s, t))
  }

  ghost predicate Live(s: State) {
    Inv(s) && FlagOk(s) && AllInHand(s) && EndOk(s)
  }

  lemma FlagKept(s: State, t: Tid, s': State)
    requires Inv(s) && FlagOk(s) && t in s.threads && StepOf(s, t, s')
    ensures FlagOk(s')
  {
    var n, sh, th, sh', th' := |s.threads.Keys|, s.sh, s.threads[t], s'.sh, s'.threads[t];
    assert ThreadOk(sh, t, th) && CountOk(sh);
    assert sh.lock != None ==> ThreadOk(sh, sh.lock.value, s.threads[sh.lock.value]);
    StepGuarantees(n, sh, t, th, sh', th');
    hide Step, Inv, CountOk, HolderOk, FlagIsRight, EpochOk, TaskOk;
    if sh.lock in {None, Some(t)} {
      OwnFlag(n, sh, t, th, sh', th');
    } else {
      OtherFlag(n, sh, t, th, sh', th', sh.lock.value, s.threads[sh.lock.value].pc);
    }
  }

  lemma HandsKept(s: State, t: Tid, s': State)
    requires Inv(s) && AllInHand(s) && t in s.threads && StepOf(s, t, s')
    ensures AllInHand(s')
  {
    var n, sh, th, sh', th' := |s.threads.Keys|, s.sh, s.threads[t], s'.sh, s'.threads[t];
    assert ThreadOk(sh, t, th);
    StepKeepsTasks(n, sh, t, th, sh', th');
    hide Step, Inv, Own, Ready;
    forall x | x in Ready(sh'.preds) ensures InHand(s', x) {
      if x !in sh'.queue && x !in Own(th'.pc) {
        assert InHand(s, x);
        var u :| u in s.threads && x in Own(s.threads[u].pc);
        assert u != t && s'.threads[u] == s.threads[u];
      }
    }
  }

  /** How a step that does not advance the generation changes what the end depends on. */
  ghost predicate MovesEnd(sh: Shared, th: Thread, sh': Shared, th': Thread) {
    && (Closing(th.pc) ==> Closing(th'.pc) || sh'.gen.waiting)
    && (sh.gen.waiting ==> sh'.gen.waiting && th.pc != Uncounted(true))
    && (sh'.gen.waiting && !sh.gen.waiting ==> th.pc == SetWaiting && sh'.taskCount == sh.taskCount)
    && (sh'.taskCount == 0 && sh.taskCount != 0 ==> th'.pc == Uncounted(true))
  }

  lemma EndMoves(n: nat, sh: Shared, t: Tid, th: Thread, sh': Shared, th': Thread)
    requires ThreadOk(sh, t, th) && Step(n, sh, t, th, sh', th') && sh'.gen.count == sh.gen.count
    requires (!AllowsAlone(sh, th) ==> HasArrived(sh, th)) && sh.taskCount >= 0
    ensures MovesEnd(sh, th, sh', th')
  {
    hide CreateStep, ReleaseStep, TakeStep, TaskOk, MovesEnd;
    if x: Task, waits: set<Task> :| CreateStep(sh, t, th, x, waits, sh', th') {
      CreateMovesEnd(sh, t, th, x, waits, sh', th');
    } else if y :| th.pc.Releasing? && ReleaseStep(sh, th, th.pc.x, th.pc.ret, y, sh', th') {
      ReleaseMovesEnd(sh, th, th.pc.x, th.pc.ret, y, sh', th');
    } else if x :| th.pc == Top && TakeStep(sh, th, x, sh', th') {
      TakeMovesEnd(sh, th, x, sh', th');
    } else {
      QuietMovesEnd(n, sh, t, th, sh', th');
    }
  }

  lemma QuietMovesEnd(n: nat, sh: Shared, t: Tid, th: Thread, sh': Shared, th': Thread)
    requires LockOk(sh, t, th) && EpochOk(sh, th) && Step(n, sh, t, th, sh', th') && sh'.gen.count == sh.gen.count
    requires !AllowsAlone(sh, th) ==> HasArrived(sh, th)
    requires forall x: Task, waits: set<Task> :: !CreateStep(sh, t, th, x, waits, sh', th')
    requires forall y :: !(th.pc.Releasing? && ReleaseStep(sh, th, th.pc.x, th.pc.ret, y, sh', th'))
    requires forall x :: !(th.pc == Top && TakeStep(sh, th, x, sh', th'))
    ensures MovesEnd(sh, th, sh', th')
  {
    hide CreateStep, ReleaseStep, TakeStep, NoDepender;
  }

  lemma CreateMovesEnd(sh: Shared, t: Tid, th: Thread, x: Task, waits: set<Task>, sh': Shared, th': Thread)
    requires CreateStep(sh, t, th, x, waits, sh', th') && sh.taskCount >= 0
    ensures MovesEnd(sh, th, sh', th')
  {
  }

  lemma ReleaseMovesEnd(sh: Shared, th: Thread, x: Task, ret: nat, y: Task, sh': Shared, th': Thread)
    requires th.pc.Releasing? && ReleaseStep(sh, th, x, ret, y, sh', th') && sh.taskCount >= 0
    ensures MovesEnd(sh, th, sh', th')
  {
  }

  lemma TakeMovesEnd(sh: Shared, th: Thread, x: Task, sh': Shared, th': Thread)
    requires th.pc == Top && TakeStep(sh, th, x, sh', th')
    ensures MovesEnd(sh, th, sh', th')
  {
  }

  /** After the generation has advanced nobody has arrived at the next barrier. */
  lemma AdvanceEnds(s: State, t: Tid, s': State)
    requires Inv(s) && t in s.threads && StepOf(s, t, s') && s'.sh.gen.count != s.sh.gen.count
    ensures EndOk(s')
  {
    var sh, sh', th, th' := s.sh, s'.sh, s.threads[t], s'.threads[t];
    assert ThreadOk(sh, t, th);
    ArrivedIfNotAlone(s, t);
    StepAdvances(|s.threads.Keys|, sh, t, th, sh', th');
    assert t in s'.threads && !HasArrived(sh', th');
  }

  lemma ArrivalEnds(s: State, t: Tid, s': State)
    requires Inv(s) && EndOk(s) && t in s.threads && StepOf(s, t, s') && s.threads[t].pc == Arriving
    ensures EndOk(s')
  {
    assert ThreadOk(s.sh, t, s.threads[t]);
    ArrivingArrives(s, t, s');
    hide Step;
    ArrivalCounts(s, t, s');
    assert AllArrived(s') ==> IsClosing(s', t);
    assert !s.sh.gen.waiting;
  }

  lemma QuietEnds(s: State, t: Tid, s': State)
    requires Inv(s) && FlagOk(s) && EndOk(s) && t in s.threads && StepOf(s, t, s')
    requires s.threads[t].pc != Arriving && s'.sh.gen.count == s.sh.gen.count
    ensures EndOk(s')
  {
    var n, sh, th, sh', th' := |s.threads.Keys|, s.sh, s.threads[t], s'.sh, s'.threads[t];
    assert ThreadOk(sh, t, th) && CountOk(sh);
    assert th.pc == SetWaiting ==> sh.taskCount != 0 by { if th.pc == SetWaiting { assert HolderOk(sh, th.pc); } }
    assert sh.taskCount >= 0;
    hide ThreadOk, CountOk, FlagOk, MovesEnd, Quiet;
    ArrivedIfNotAlone(s, t);
    StepIsQuiet(n, sh, t, th, sh', th');
    EndMoves(n, sh, t, th, sh', th');
    hide Step, Inv;
    CloserStays(s, t, s');
    OpenerStays(s, t, s');
  }

  lemma CloserStays(s: State, t: Tid, s': State)
    requires EndOk(s) && t in s.threads && t in s'.threads && s'.threads == s.threads[t := s'.threads[t]]
    requires Quiet(s.sh, s.threads[t], s'.sh, s'.threads[t], |s.threads.Keys|)
    requires MovesEnd(s.sh, s.threads[t], s'.sh, s'.threads[t])
    ensures AllArrived(s') && !s'.sh.gen.waiting ==> exists u :: IsClosing(s', u)
  {
    assert forall u | u in s.threads :: HasArrived(s'.sh, s'.threads[u]) <==> HasArrived(s.sh, s.threads[u]);
    assert AllArrived(s') ==> AllArrived(s);
    hide HasArrived, AllArrived;
    if AllArrived(s') && !s'.sh.gen.waiting {
      var u :| IsClosing(s, u);
      assert IsClosing(s', u);
    }
  }

  lemma OpenerStays(s: State, t: Tid, s': State)
    requires EndOk(s) && t in s.threads && t in s'.threads && s'.threads == s.threads[t := s'.threads[t]]
    requires MovesEnd(s.sh, s.threads[t], s'.sh, s'.threads[t])
    requires s.threads[t].pc == SetWaiting ==> s.sh.taskCount != 0
    ensures s'.sh.gen.waiting && s'.sh.taskCount == 0 ==> exists u :: IsOpening(s', u)
  {
    hide AllArrived, HasArrived;
    if s'.sh.gen.waiting && s'.sh.taskCount == 0 {
      if s.sh.gen.waiting && s.sh.taskCount == 0 {
        var u :| IsOpening(s, u);
        assert IsOpening(s', u);
      } else {
        assert IsOpening(s', t);
      }
    }
  }

  lemma StepKeepsLive(s: State, t: Tid, s': State)
    requires Live(s) && t in s.threads && StepOf(s, t, s')
    ensures Live(s')
  {
    StepKeepsInv(s, t, s');
    FlagKept(s, t, s');
    HandsKept(s, t, s');
    hide Step, Inv, FlagOk, AllInHand, EndOk;
    if s'.sh.gen.count != s.sh.gen.count {
      AdvanceEnds(s, t, s');
    } else if s.threads[t].pc == Arriving {
      ArrivalEnds(s, t, s');
    } else {
      QuietEnds(s, t, s');
    }
  }

  lemma InitIsLive(s: State)
    requires Init(s)
    ensures Live(s)
  {
    InitHasInv(s);
    assert Ready(s.sh.preds) == {};
    var t :| t in s.threads;
    assert !HasArrived(s.sh, s.threads[t]);
    hide Inv;
  }

  lemma LiveAlong(run: seq<State>, k: nat)
    requires IsRun(Init, Next, run) && k < |run|
    ensures Live(run[k])
  {
    forall s | Init(s) ensures Live(s) {
      InitIsLive(s);
    }
    forall s, s' | Live(s) && Next(s, s') ensures Live(s') {
      var t :| t in s.threads && StepOf(s, t, s');
      StepKeepsLive(s, t, s');
    }
    hide Live;
    HoldsAlong(Init, Next, Live, run, k);
  }

  // ---------------------------------------------------------------- results

  /** Once all threads have arrived somebody is there to close the barrier, or has left that to the
      tasks; and once those are done somebody is there to open it. */
  lemma SomebodyOpens(run: seq<State>, k: nat)
    requires IsRun(Init, Next, run) && k < |run|
    ensures var s := run[k];
      && (AllArrived(s) && !s.sh.gen.waiting ==> exists t :: IsClosing(s, t))
      && (s.sh.gen.waiting && s.sh.taskCount == 0 ==> exists t :: IsOpening(s, t))
  {
    LiveAlong(run, k);
  }

  /** Whenever nobody holds the lock, BAR_TASK_PENDING is set exactly if a task is queued; and every
      task that waits for nobody is queued or in a thread's hands. */
  lemma NoTaskIsForgotten(run: seq<State>, k: nat, x: Task)
    requires IsRun(Init, Next, run) && k < |run|
    ensures var s := run[k];
      && (s.sh.lock == None ==> (s.sh.gen.pending <==> s.sh.queue != {}))
      && (x in s.sh.preds && s.sh.preds[x] == {} ==> InHand(s, x))
  {
    LiveAlong(run, k);
    assert x in run[k].sh.preds && run[k].sh.preds[x] == {} ==> x in Ready(run[k].sh.preds);
  }

  // ---------------------------------------------------------------- nobody is stuck

  /** A step that changes something, of a thread that is not in user code and creates no task. */
  ghost predicate Moves(s: State, t: Tid, s': State) {
    t in s.threads && s.threads[t].pc != Work && StepOf(s, t, s') && s' != s && s'.sh.preds.Keys <= s.sh.preds.Keys
  }

  ghost predicate CanMove(s: State) {
    exists t: Tid, s': State :: Moves(s, t, s')
  }

  lemma GoTo(s: State, t: Tid, sh': Shared, th': Thread)
    requires t in s.threads && s.threads[t].pc != Work && Step(|s.threads.Keys|, s.sh, t, s.threads[t], sh', th')
    requires th' != s.threads[t] && sh'.preds.Keys <= s.sh.preds.Keys
    ensures CanMove(s)
  {
    var s' := State(sh', s.threads[t := th']);
    assert s'.threads[t] == th';
    hide Step;
    assert Moves(s, t, s');
  }

  /** A thread on its way to the lock or without need of it. */
  lemma OutsideMoves(s: State, t: Tid)
    requires t in s.threads && s.sh.lock == None
    requires var pc := s.threads[t].pc;
      pc.Arriving? || pc.Last? || pc.Checking? || pc.Advancing? || pc.Entering? || pc.Running?
    ensures CanMove(s)
  {
    var n, sh, th := |s.threads.Keys|, s.sh, s.threads[t];
    var sh', th' := sh, th;
    match th.pc {
      case Arriving => sh', th' := sh.(awaited := sh.awaited - 1), th.(pc := if sh.awaited - 1 == 0 then Last else Waiting);
      case Last => sh', th' := sh.(awaited := n), th.(pc := Checking);
      case Checking => th' := th.(pc := if sh.taskCount != 0 then Entering(true) else Advancing);
      case Advancing => sh', th' := sh.(gen := Done(th.state)), th.(passed := th.passed + 1, pc := Work);
      case Entering(last) => sh', th' := sh.(lock := Some(t)), th.(pc := Entered(last));
      case Running(x) => sh', th' := sh.(lock := Some(t)), th.(pc := Releasing(x, 0));
    }
    GoTo(s, t, sh', th');
  }

  /** One half of a change of the flags. */
  lemma FlagMoves(s: State, t: Tid)
    requires t in s.threads && ChangesFlag(s.threads[t].pc)
    ensures CanMove(s)
  {
    var sh, th := s.sh, s.threads[t];
    if th.loaded == None {
      GoTo(s, t, sh, th.(loaded := Some(sh.gen)));
    } else {
      var w := th.loaded.value;
      match th.pc {
        case SetWaiting => GoTo(s, t, sh.(gen := Changed(w, SetWaitingFlag)), th.(loaded := None, pc := Top));
        case Starting(x) => GoTo(s, t, sh.(gen := Changed(w, ClearPending), lock := None), th.(loaded := None, pc := Running(x)));
        case Marking(x) => GoTo(s, t, sh.(gen := Changed(w, SetPending)), th.(loaded := None, pc := Uncounting(x)));
        case Creating(x) =>
          GoTo(s, t, sh.(gen := Changed(w, SetPending), lock := None),
               th.(loaded := None, pc := if x == None then Work else Running(x.value)));
      }
    }
  }

  /** The thread that holds the lock. */
  lemma HolderMoves(s: State, t: Tid)
    requires t in s.threads && HoldsLock(s.threads[t].pc) && !ChangesFlag(s.threads[t].pc)
    ensures CanMove(s)
  {
    var sh, th := s.sh, s.threads[t];
    match th.pc {
      case Entered(last) =>
        if last && sh.taskCount == 0 {
          GoTo(s, t, sh.(gen := Done(th.state), lock := None), th.(pc := Waiting));
        } else {
          GoTo(s, t, sh, th.(pc := if last then SetWaiting else Top));
        }
      case Top => TopMoves(s, t);
      case Releasing(x, ret) => ReleaserMoves(s, t, x, ret);
      case Uncounting(x) =>
        GoTo(s, t, sh.(taskCount := sh.taskCount - 1, preds := sh.preds - {x}), th.(pc := Uncounted(sh.taskCount - 1 == 0)));
      case Uncounted(zero) =>
        if zero && sh.gen.waiting {
          GoTo(s, t, sh.(gen := Done(th.state), lock := None), th.(pc := Entering(false)));
        } else {
          GoTo(s, t, sh, th.(pc := Top));
        }
    }
  }

  lemma TopMoves(s: State, t: Tid)
    requires t in s.threads && s.threads[t].pc == Top
    ensures CanMove(s)
  {
    var sh, th := s.sh, s.threads[t];
    if sh.queue == {} {
      GoTo(s, t, sh.(lock := None), th.(pc := Waiting));
    } else {
      var x :| x in sh.queue;
      var rest := sh.queue - {x};
      var sh' := sh.(queue := rest, lock := if rest == {} then sh.lock else None);
      var th' := th.(pc := if rest == {} then Starting(x) else Running(x));
      assert TakeStep(sh, th, x, sh', th');
      GoTo(s, t, sh', th');
    }
  }

  lemma ReleaserMoves(s: State, t: Tid, x: Task, ret: nat)
    requires t in s.threads && s.threads[t].pc == Releasing(x, ret)
    ensures CanMove(s)
  {
    var sh, th := s.sh, s.threads[t];
    if NoDepender(sh.preds, x) {
      GoTo(s, t, sh, th.(pc := if ret > 1 then Marking(x) else Uncounting(x)));
    } else {
      var y :| y in sh.preds && x in sh.preds[y];
      var left, freed := sh.preds[y] - {x}, sh.preds[y] == {x};
      var sh' := sh.(preds := sh.preds[y := left], queue := if freed then sh.queue + {y} else sh.queue,
                     taskCount := if freed then sh.taskCount + 1 else sh.taskCount);
      var th' := th.(pc := Releasing(x, if freed then ret + 1 else ret));
      assert ReleaseStep(sh, th, x, ret, y, sh', th');
      assert sh' != sh;
      ChangeTo(s, t, sh', th');
    }
  }

  lemma ChangeTo(s: State, t: Tid, sh': Shared, th': Thread)
    requires t in s.threads && s.threads[t].pc != Work && Step(|s.threads.Keys|, s.sh, t, s.threads[t], sh', th')
    requires sh' != s.sh && sh'.preds.Keys <= s.sh.preds.Keys
    ensures CanMove(s)
  {
    var s' := State(sh', s.threads[t := th']);
    assert s'.threads[t] == th';
    hide Step;
    assert Moves(s, t, s');
  }

  /** If all threads wait and nobody holds the lock, the flags tell one of them to go on. */
  lemma WaiterMoves(s: State)
    requires Live(s) && s.sh.lock == None && forall t | t in s.threads :: s.threads[t].pc == Waiting
    ensures CanMove(s)
  {
    assert AwaitedOk(s) && CloseOk(s) && CountOk(s.sh);
    assert forall t | t in s.threads :: ThreadOk(s.sh, t, s.threads[t]);
    var t :| t in s.threads;
    if s.sh.gen.pending {
      GoTo(s, t, s.sh, s.threads[t].(pc := Entering(false)));
    } else {
      NoneQueued(s);
      var u :| u in s.threads && !HasArrived(s.sh, s.threads[u]);
      var th := s.threads[u];
      assert EpochOk(s.sh, th) && !s.sh.gen.waiting;
      assert s.sh.gen == Done(th.state);
      GoTo(s, u, s.sh, th.(passed := th.passed + 1, pc := Work));
    }
  }

  lemma NoneQueued(s: State)
    requires Live(s) && s.sh.lock == None && !s.sh.gen.pending && forall t | t in s.threads :: s.threads[t].pc == Waiting
    ensures !AllArrived(s)
  {
    assert s.sh.queue == {};
    assert forall x: Task :: !InHand(s, x);
    assert Ready(s.sh.preds) == {};
    assert s.sh.taskCount == 0;
    hide Inv, AllArrived;
    assert forall t :: !IsClosing(s, t) && !IsOpening(s, t);
  }

  /** Once all threads have left user code for the barrier, somebody can go on without creating a
      task. */
  lemma SomebodyMoves(run: seq<State>, k: nat)
    requires IsRun(Init, Next, run) && k < |run| && forall t | t in run[k].threads :: run[k].threads[t].pc != Work
    ensures CanMove(run[k])
  {
    LiveAlong(run, k);
    LiveMoves(run[k]);
  }

  lemma LiveMoves(s: State)
    requires Live(s) && forall t | t in s.threads :: s.threads[t].pc != Work
    ensures CanMove(s)
  {
    assert forall t | t in s.threads :: ThreadOk(s.sh, t, s.threads[t]);
    if s.sh.lock != None {
      var u := s.sh.lock.value;
      assert HoldsLock(s.threads[u].pc);
      if ChangesFlag(s.threads[u].pc) { FlagMoves(s, u); } else { HolderMoves(s, u); }
    } else if t :| t in s.threads && s.threads[t].pc != Waiting {
      assert !HoldsLock(s.threads[t].pc);
      OutsideMoves(s, t);
    } else {
      WaiterMoves(s);
    }
  }

  // ---------------------------------------------------------------- the barrier opens

  /** What is left to do for the task that a thread has in hand. */
  function Effort(th: Thread): nat {
    var half := if th.loaded == None then 1 else 0;
    match th.pc
    case Starting(_) => 15 + half
    case Creating(inTask) => if inTask == None then 1 + half else 15 + half
    case Running(_) => 14
    case Releasing(_, _) => 12
    case Marking(_) => 9 + half
    case Uncounting(_) => 8
    case Uncounted(_) => 6
    case _ => 0
  }

  /** And for itself, until it waits for something to change. */
  function Way(th: Thread, pending: bool): nat {
    match th.pc
    case Arriving => 40
    case Last => 10
    case Checking => 9
    case Advancing => 8
    case Entering(_) => 8
    case Entered(_) => 7
    case SetWaiting => if th.loaded == None then 6 else 5
    case Top => 4
    case Waiting => if pending then 20 else 2
    case _ => 0
  }

  ghost function Works(threads: map<Tid, Thread>): map<nat, nat> {
    map t | t in threads :: Effort(threads[t])
  }

  ghost function Ways(threads: map<Tid, Thread>, pending: bool): map<nat, nat> {
    map t | t in threads :: Way(threads[t], pending)
  }

  ghost function EdgeCounts(preds: map<Task, set<Task>>): map<nat, nat> {
    map x | x in preds :: |preds[x]|
  }

  /** Edges between tasks, tasks in the queue and tasks in hand. */
  ghost function TasksLeft(sh: Shared): nat {
    18 * Sum(EdgeCounts(sh.preds)) + 17 * |sh.queue|
  }

  ghost function Major(s: State): nat {
    TasksLeft(s.sh) + Sum(Works(s.threads))
  }

  ghost function Minor(s: State): nat {
    Sum(Ways(s.threads, s.sh.gen.pending))
  }

  ghost predicate Nearer(s': State, s: State) {
    Major(s') < Major(s) || (Major(s') == Major(s) && Minor(s') < Minor(s))
  }

  /** How one step changes what is left. */
  ghost predicate Falls(sh: Shared, th: Thread, sh': Shared, th': Thread) {
    var m, m' := TasksLeft(sh) + Effort(th), TasksLeft(sh') + Effort(th');
    m' < m || (m' == m && sh'.gen.pending == sh.gen.pending && Way(th', sh'.gen.pending) < Way(th, sh.gen.pending))
  }

  lemma ReleaseFalls(sh: Shared, th: Thread, x: Task, ret: nat, y: Task, sh': Shared, th': Thread)
    requires th.pc == Releasing(x, ret) && ReleaseStep(sh, th, x, ret, y, sh', th')
    ensures Falls(sh, th, sh', th')
  {
    var c := EdgeCounts(sh.preds);
    var left := sh.preds[y] - {x};
    assert |left| == |sh.preds[y]| - 1;
    assert EdgeCounts(sh.preds[y := left]) == c[y := |left|];
    SumUpdate(c, y, |left|);
    assert |sh'.queue| <= |sh.queue| + 1;
  }

  lemma TakeFalls(sh: Shared, th: Thread, x: Task, sh': Shared, th': Thread)
    requires th.pc == Top && TakeStep(sh, th, x, sh', th')
    ensures Falls(sh, th, sh', th')
  {
    assert |sh.queue - {x}| == |sh.queue| - 1;
  }

  lemma UncountFalls(sh: Shared, t: Tid, th: Thread, sh': Shared, th': Thread)
    requires TaskOk(sh, th) && th.pc.Uncounting? && FinishStep(sh, t, th, sh', th')
    ensures Falls(sh, th, sh', th')
  {
    var x := th.pc.x;
    assert x in Own(th.pc);
    assert x in sh.preds && sh.preds[x] == {};
    SumSplits(EdgeCounts(sh.preds), x);
    assert EdgeCounts(sh.preds - {x}) == EdgeCounts(sh.preds) - {x};
  }

  lemma QuietFalls(n: nat, sh: Shared, t: Tid, th: Thread, sh': Shared, th': Thread)
    requires ThreadOk(sh, t, th) && FlagKnown(sh, t, th) && Step(n, sh, t, th, sh', th')
    requires !IsTaskStep(sh, t, th, sh', th') && sh'.gen.count == sh.gen.count && th.pc != Work
    requires sh' != sh || th' != th
    ensures Falls(sh, th, sh', th')
  {
    assert SameTasks(sh, sh');
    assert TasksLeft(sh') == TasksLeft(sh);
    hide TasksLeft, CreateStep, ReleaseStep, TakeStep, NoDepender, TaskOk;
  }

  /** The thread at the head of the loop finds the flag clear when it finds the queue empty. */
  ghost predicate FlagKnown(sh: Shared, t: Tid, th: Thread) {
    sh.lock == Some(t) ==> HolderOk(sh, th.pc)
  }

  lemma StepFalls(n: nat, sh: Shared, t: Tid, th: Thread, sh': Shared, th': Thread)
    requires ThreadOk(sh, t, th) && FlagKnown(sh, t, th) && Step(n, sh, t, th, sh', th')
    requires sh'.gen.count == sh.gen.count && th.pc != Work && sh'.preds.Keys <= sh.preds.Keys && (sh' != sh || th' != th)
    ensures Falls(sh, th, sh', th')
  {
    assert forall x: Task, waits: set<Task> :: !CreateStep(sh, t, th, x, waits, sh', th') by {
      forall x: Task, waits: set<Task> ensures !CreateStep(sh, t, th, x, waits, sh', th') {
        CreateAdds(sh, t, th, x, waits, sh', th');
      }
    }
    hide Falls, FlagKnown, LockOk, EpochOk, CreateStep, ReleaseStep, TakeStep;
    if !IsTaskStep(sh, t, th, sh', th') {
      hide *;
      QuietFalls(n, sh, t, th, sh', th');
    } else if th.pc.Releasing? {
      var y :| ReleaseStep(sh, th, th.pc.x, th.pc.ret, y, sh', th');
      ReleaseFalls(sh, th, th.pc.x, th.pc.ret, y, sh', th');
    } else if th.pc == Top {
      var x :| TakeStep(sh, th, x, sh', th');
      TakeFalls(sh, th, x, sh', th');
    } else {
      UncountFalls(sh, t, th, sh', th');
    }
  }

  lemma CreateAdds(sh: Shared, t: Tid, th: Thread, x: Task, waits: set<Task>, sh': Shared, th': Thread)
    ensures CreateStep(sh, t, th, x, waits, sh', th') ==> x in sh'.preds && x !in sh.preds
  {
  }

  /** Every step of a thread outside user code that changes something and creates no task either opens
      the barrier or brings it nearer: fewer edges, tasks in the queue and work in hand, or the same and
      fewer steps until all threads wait. */
  lemma StepGetsNearer(s: State, t: Tid, s': State)
    requires Live(s) && Moves(s, t, s')
    ensures s'.sh.gen.count != s.sh.gen.count || Nearer(s', s)
  {
    var n, sh, th, sh', th' := |s.threads.Keys|, s.sh, s.threads[t], s'.sh, s'.threads[t];
    assert ThreadOk(sh, t, th) && FlagKnown(sh, t, th);
    assert sh' != sh || th' != th by { if th' == th { assert s'.threads == s.threads; } }
    hide Step, Inv, Live, ThreadOk, FlagKnown, Effort, Way;
    if sh'.gen.count == sh.gen.count {
      StepFalls(n, sh, t, th, sh', th');
      SumsFall(s, t, s');
    }
  }

  lemma SumsFall(s: State, t: Tid, s': State)
    requires t in s.threads && t in s'.threads && s'.threads == s.threads[t := s'.threads[t]]
    requires Falls(s.sh, s.threads[t], s'.sh, s'.threads[t])
    ensures Nearer(s', s)
  {
    hide TasksLeft, Works, Ways, Effort, Way;
    WorksUpdate(s.threads, t, s'.threads[t]);
    WaysUpdate(s.threads, t, s'.threads[t], s.sh.gen.pending);
  }

  lemma WorksUpdate(threads: map<Tid, Thread>, t: Tid, th: Thread)
    requires t in threads
    ensures Sum(Works(threads[t := th])) + Effort(threads[t]) == Sum(Works(threads)) + Effort(th)
  {
    hide Effort;
    assert Works(threads[t := th]) == Works(threads)[t := Effort(th)];
    SumUpdate(Works(threads), t, Effort(th));
  }

  lemma WaysUpdate(threads: map<Tid, Thread>, t: Tid, th: Thread, pending: bool)
    requires t in threads
    ensures Sum(Ways(threads[t := th], pending)) + Way(threads[t], pending) == Sum(Ways(threads, pending)) + Way(th, pending)
  {
    hide Way;
    assert Ways(threads[t := th], pending) == Ways(threads, pending)[t := Way(th, pending)];
    SumUpdate(Ways(threads, pending), t, Way(th, pending));
  }
}
