/** The team barrier, which also drains the explicit tasks of the team: gomp_barrier_wait_start
    and the flag bits of `generation` (config/linux/bar.h:88-166), gomp_team_barrier_wait_end
    (config/linux/bar.c:80-122), and the task handling it relies on (task.c:451-491, 1057-1144
    and 1211-1330).

  Any number of threads pass the barrier again and again.  Between barriers, and inside tasks,
  they create tasks, which may wait for other unfinished tasks.  Each step is one access to
  `generation`, `awaited` or `task_count`; what happens under task_lock is split wherever a
  thread that does not hold the lock could see a difference.  Flags are set and cleared by a
  separate load and store of `generation`.  The counter bits of `generation` are kept apart
  from the two flag bits.
 */
module TeamBarrier {
  import opened Arith
  import opened Collections
  import opened Options
  import opened Runs

  type Tid = nat
  type Task = nat

  /** bar->generation: the bits above BAR_INCR, BAR_TASK_PENDING and BAR_WAITING_FOR_TASK. */
  datatype Word = Word(count: nat, pending: bool, waiting: bool)

  datatype Pc =
    // outside the barrier
    | Work                           // user code
    | Arriving                       // read generation: about to decrement awaited
    // the thread that decremented awaited to zero
    | Last                           // about to reset awaited
    | Checking                       // about to read task_count, without the lock
    | Advancing                      // read zero: about to store the next generation
    // gomp_barrier_handle_tasks
    | Entering(last: bool)           // wants the lock
    | Entered(last: bool)            // holds the lock
    | SetWaiting                     // holds the lock: sets BAR_WAITING_FOR_TASK
    | Top                            // holds the lock, at the head of the loop
    | Starting(x: Task)              // took x, the last in the queue: clears BAR_TASK_PENDING
    | Running(x: Task)               // runs x, without the lock
    | Releasing(x: Task, ret: nat)   // holds the lock, visits the dependers of x
    | Marking(x: Task)               // more than one was released: sets BAR_TASK_PENDING
    | Uncounting(x: Task)            // about to decrement task_count
    | Uncounted(zero: bool)          // about to test BAR_WAITING_FOR_TASK
    // GOMP_task, from user code or from a task
    | Creating(inTask: Option<Task>) // holds the lock, counted the new task: sets BAR_TASK_PENDING
    // the loop of gomp_team_barrier_wait_end
    | Waiting

  /** `passed` is history: the number of barriers passed.  `state` is the counter part of what
      gomp_barrier_wait_start read.  `loaded` is generation, read in order to change a flag. */
  datatype Thread = Thread(passed: nat, state: nat, pc: Pc, loaded: Option<Word>)

  /** Unfinished tasks are the keys of `preds`, which gives the unfinished tasks that each one
      waits for.  `born` is history: the value of the generation counter at creation. */
  datatype Shared = Shared(gen: Word, awaited: int, lock: Option<Tid>, taskCount: int, queue: set<Task>,
                           preds: map<Task, set<Task>>, born: map<Task, nat>)

  datatype State = State(sh: Shared, threads: map<Tid, Thread>)

  datatype Change = SetPending | ClearPending | SetWaitingFlag

  function Changed(w: Word, change: Change): Word {
    match change
    case SetPending => w.(pending := true)
    case ClearPending => w.(pending := false)
    case SetWaitingFlag => w.(waiting := true)
  }

  /** One of the two steps of a change of a flag, after which the thread goes on at pc and, if
      it says so, gives the lock back. */
  ghost predicate ChangeFlag(sh: Shared, th: Thread, change: Change, pc: Pc, unlock: bool, sh': Shared, th': Thread) {
    if th.loaded == None then
      sh' == sh && th' == th.(loaded := Some(sh.gen))
    else
      && sh' == sh.(gen := Changed(th.loaded.value, change), lock := if unlock then None else sh.lock)
      && th' == th.(loaded := None, pc := pc)
  }

  /** gomp_team_barrier_done: the next generation, without flags. */
  function Done(state: nat): Word {
    Word(state + 1, false, false)
  }

  /** gomp_barrier_wait_start and gomp_team_barrier_wait_end in a team of n threads. */
  ghost predicate BarrierStep(n: nat, sh: Shared, th: Thread, sh': Shared, th': Thread) {
    match th.pc
    case Work => sh' == sh && th' == th.(state := sh.gen.count, pc := Arriving)
    case Arriving =>
      && sh' == sh.(awaited := sh.awaited - 1)
      && th' == th.(pc := if sh.awaited - 1 == 0 then Last else Waiting)
    case Last => sh' == sh.(awaited := n) && th' == th.(pc := Checking)
    case Checking => sh' == sh && th' == th.(pc := if sh.taskCount != 0 then Entering(true) else Advancing)
    case Advancing => sh' == sh.(gen := Done(th.state)) && th' == th.(passed := th.passed + 1, pc := Work)
    case Waiting =>
      && sh' == sh
      && th' == if sh.gen.pending then th.(pc := Entering(false))
                else if sh.gen == Done(th.state) then th.(passed := th.passed + 1, pc := Work)
                else th
    case _ => false
  }

  /** A task leaves the queue (gomp_task_run_pre). */
  ghost predicate TakeStep(sh: Shared, th: Thread, x: Task, sh': Shared, th': Thread) {
    var rest := sh.queue - {x};
    && x in sh.queue
    && sh' == sh.(queue := rest, lock := if rest == {} then sh.lock else None)
    && th' == th.(pc := if rest == {} then Starting(x) else Running(x))
  }

  /** gomp_barrier_handle_tasks up to the start of a task. */
  ghost predicate EnterStep(sh: Shared, t: Tid, th: Thread, sh': Shared, th': Thread) {
    match th.pc
    case Entering(last) => sh.lock == None && sh' == sh.(lock := Some(t)) && th' == th.(pc := Entered(last))
    case Entered(last) =>
      if last && sh.taskCount == 0 then
        sh' == sh.(gen := Done(th.state), lock := None) && th' == th.(pc := Waiting)
      else
        sh' == sh && th' == th.(pc := if last then SetWaiting else Top)
    case SetWaiting => ChangeFlag(sh, th, SetWaitingFlag, Top, false, sh', th')
    case Top =>
      if sh.queue == {} then sh' == sh.(lock := None) && th' == th.(pc := Waiting)
      else exists x :: TakeStep(sh, th, x, sh', th')
    case Starting(x) => ChangeFlag(sh, th, ClearPending, Running(x), true, sh', th')
    case _ => false
  }

  ghost predicate NoDepender(preds: map<Task, set<Task>>, x: Task) {
    forall y | y in preds :: x !in preds[y]
  }

  /** The depender y of x; if it waits for nobody else it is queued and counted. */
  ghost predicate ReleaseStep(sh: Shared, th: Thread, x: Task, ret: nat, y: Task, sh': Shared, th': Thread) {
    && y in sh.preds && x in sh.preds[y]
    && var left, freed := sh.preds[y] - {x}, sh.preds[y] == {x};
       && sh' == sh.(preds := sh.preds[y := left], queue := if freed then sh.queue + {y} else sh.queue,
                     taskCount := if freed then sh.taskCount + 1 else sh.taskCount)
       && th' == th.(pc := Releasing(x, if freed then ret + 1 else ret))
  }

  /** gomp_barrier_handle_tasks after a task has run. */
  ghost predicate FinishStep(sh: Shared, t: Tid, th: Thread, sh': Shared, th': Thread) {
    match th.pc
    case Running(x) => sh.lock == None && sh' == sh.(lock := Some(t)) && th' == th.(pc := Releasing(x, 0))
    case Releasing(x, ret) =>
      if NoDepender(sh.preds, x) then
        sh' == sh && th' == th.(pc := if ret > 1 then Marking(x) else Uncounting(x))
      else
        exists y :: ReleaseStep(sh, th, x, ret, y, sh', th')
    case Marking(x) => ChangeFlag(sh, th, SetPending, Uncounting(x), false, sh', th')
    case Uncounting(x) =>
      && sh' == sh.(taskCount := sh.taskCount - 1, preds := sh.preds - {x})
      && th' == th.(pc := Uncounted(sh.taskCount - 1 == 0))
    case Uncounted(zero) =>
      if zero && sh.gen.waiting then
        sh' == sh.(gen := Done(th.state), lock := None) && th' == th.(pc := Entering(false))
      else
        sh' == sh && th' == th.(pc := Top)
    case _ => false
  }

  /** A new task that waits for unfinished ones. */
  function Blocked(sh: Shared, x: Task, waits: set<Task>): Shared {
    sh.(preds := sh.preds[x := waits], born := sh.born[x := sh.gen.count])
  }

  /** A new task that waits for nobody is queued and counted. */
  function Queued(sh: Shared, t: Tid, x: Task): Shared {
    Blocked(sh, x, {}).(queue := sh.queue + {x}, taskCount := sh.taskCount + 1, lock := Some(t))
  }

  ghost predicate MayCreate(sh: Shared, x: Task, waits: set<Task>) {
    (forall y | y in sh.preds :: y < x) && waits <= sh.preds.Keys
  }

  /** GOMP_task: a new task, numbered after all unfinished ones, waits for any of them. */
  ghost predicate CreateStep(sh: Shared, t: Tid, th: Thread, x: Task, waits: set<Task>, sh': Shared, th': Thread) {
    && (th.pc == Work || th.pc.Running?) && sh.lock == None && MayCreate(sh, x, waits)
    && if waits != {} then
         sh' == Blocked(sh, x, waits) && th' == th
       else
         sh' == Queued(sh, t, x) && th' == th.(pc := Creating(if th.pc == Work then None else Some(th.pc.x)))
  }

  ghost predicate TaskStep(sh: Shared, t: Tid, th: Thread, sh': Shared, th': Thread) {
    || (exists x: Task, waits: set<Task> :: CreateStep(sh, t, th, x, waits, sh', th'))
    || (th.pc.Creating?
        && ChangeFlag(sh, th, SetPending, if th.pc.inTask == None then Work else Running(th.pc.inTask.value), true, sh', th'))
  }

  ghost predicate Step(n: nat, sh: Shared, t: Tid, th: Thread, sh': Shared, th': Thread) {
    || BarrierStep(n, sh, th, sh', th')
    || EnterStep(sh, t, th, sh', th')
    || FinishStep(sh, t, th, sh', th')
    || TaskStep(sh, t, th, sh', th')
  }

  ghost predicate StepOf(s: State, t: Tid, s': State)
    requires t in s.threads
  {
    && t in s'.threads && s'.threads == s.threads[t := s'.threads[t]]
    && Step(|s.threads.Keys|, s.sh, t, s.threads[t], s'.sh, s'.threads[t])
  }

  ghost predicate Next(s: State, s': State) {
    exists t :: t in s.threads && StepOf(s, t, s')
  }

  ghost predicate Init(s: State) {
    && s.threads.Keys != {}
    && s.sh == Shared(Word(0, false, false), |s.threads.Keys|, None, 0, {}, map[], map[])
    && forall t | t in s.threads :: s.threads[t] == Thread(0, 0, Work, None)
  }

  // ---------------------------------------------------------------- invariant

  predicate InBarrier(pc: Pc) {
    !(pc == Work || pc == Arriving || pc == Creating(None))
  }

  /** Points of the thread that arrived last, before it advances or hands over. */
  predicate Closing(pc: Pc) {
    pc in {Last, Checking, Advancing, Entering(true), Entered(true), SetWaiting}
  }

  predicate HoldsLock(pc: Pc) {
    || pc.Entered? || pc.SetWaiting? || pc.Top? || pc.Starting? || pc.Releasing? || pc.Marking?
    || pc.Uncounting? || pc.Uncounted? || pc.Creating?
  }

  predicate ChangesFlag(pc: Pc) {
    pc.SetWaiting? || pc.Starting? || pc.Marking? || pc.Creating?
  }

  /** The task that a thread has taken from the queue, if any. */
  function Own(pc: Pc): set<Task> {
    match pc
    case Starting(x) => {x}
    case Running(x) => {x}
    case Releasing(x, _) => {x}
    case Marking(x) => {x}
    case Uncounting(x) => {x}
    case Creating(Some(x)) => {x}
    case _ => {}
  }

  ghost function Ready(preds: map<Task, set<Task>>): set<Task> {
    set x | x in preds && preds[x] == {}
  }

  ghost predicate LockOk(sh: Shared, t: Tid, th: Thread) {
    && (HoldsLock(th.pc) <==> sh.lock == Some(t))
    && (th.loaded != None ==> ChangesFlag(th.pc) && th.loaded == Some(sh.gen))
  }

  ghost predicate HasArrived(sh: Shared, th: Thread) {
    InBarrier(th.pc) && th.passed == sh.gen.count
  }

  ghost predicate EpochOk(sh: Shared, th: Thread) {
    if InBarrier(th.pc) then
      && th.state == th.passed
      && (HasArrived(sh, th) || (th.passed + 1 == sh.gen.count && !Closing(th.pc)))
    else
      th.passed == sh.gen.count && (th.pc == Arriving ==> th.state == sh.gen.count)
  }

  ghost predicate AllArrived(s: State) {
    forall t | t in s.threads :: HasArrived(s.sh, s.threads[t])
  }

  ghost function Arrived(s: State): set<Tid> {
    set t | t in s.threads && HasArrived(s.sh, s.threads[t])
  }

  ghost predicate IsClosing(s: State, t: Tid) {
    t in s.threads && Closing(s.threads[t].pc)
  }

  /** Once all have arrived, the generation is advanced by one closing thread, or, after that
      one set BAR_WAITING_FOR_TASK, by whoever finishes the last task. */
  ghost predicate CloseOk(s: State) {
    && (forall t :: IsClosing(s, t) ==> AllArrived(s) && !s.sh.gen.waiting)
    && (forall t, u :: IsClosing(s, t) && IsClosing(s, u) ==> t == u)
    && (s.sh.gen.waiting ==> AllArrived(s))
  }

  ghost predicate IsLast(s: State, t: Tid) {
    t in s.threads && s.threads[t].pc == Last
  }

  ghost predicate AwaitedOk(s: State) {
    && s.threads.Keys != {}
    && (!AllArrived(s) ==> s.sh.awaited == |s.threads.Keys| - |Arrived(s)|)
    && (AllArrived(s) && (forall t :: !IsLast(s, t)) ==> s.sh.awaited == |s.threads.Keys|)
  }

  ghost predicate EdgesBack(preds: map<Task, set<Task>>, x: Task)
    requires x in preds
  {
    forall y | y in preds[x] :: y < x && y in preds
  }

  ghost predicate GraphOk(preds: map<Task, set<Task>>) {
    forall x | x in preds :: EdgesBack(preds, x)
  }

  /** Exactly the unfinished tasks that wait for nobody are counted. */
  ghost predicate CountOk(sh: Shared) {
    && GraphOk(sh.preds)
    && sh.taskCount == |Ready(sh.preds)|
    && sh.queue <= Ready(sh.preds)
  }

  ghost predicate BornOk(sh: Shared) {
    forall x | x in sh.preds :: x in sh.born && sh.born[x] == sh.gen.count
  }

  ghost predicate TaskOk(sh: Shared, th: Thread) {
    && Own(th.pc) <= Ready(sh.preds) - sh.queue
    && (th.pc.Marking? || th.pc.Uncounting? ==> NoDepender(sh.preds, th.pc.x))
    && (th.pc == Advancing || th.pc == Uncounted(true) ==> sh.taskCount == 0)
  }

  /** No task is run by two threads. */
  ghost predicate TasksApart(s: State, t: Tid, u: Tid)
    requires t in s.threads && u in s.threads
  {
    t != u ==> Own(s.threads[t].pc) !! Own(s.threads[u].pc)
  }

  ghost predicate ThreadOk(sh: Shared, t: Tid, th: Thread) {
    LockOk(sh, t, th) && EpochOk(sh, th) && TaskOk(sh, th)
  }

  ghost predicate Inv(s: State) {
    && (forall t | t in s.threads :: ThreadOk(s.sh, t, s.threads[t]))
    && (forall t, u | t in s.threads && u in s.threads :: TasksApart(s, t, u))
    && CloseOk(s)
    && AwaitedOk(s)
    && CountOk(s.sh)
    && BornOk(s.sh)
  }

  /** A finite set of tasks whose edges lead to earlier ones has a ready one. */
  lemma {:induction false} SomeReady(preds: map<Task, set<Task>>, x: Task)
    requires GraphOk(preds) && x in preds
    ensures Ready(preds) != {}
    decreases x
  {
    if preds[x] == {} {
      assert x in Ready(preds);
    } else {
      assert EdgesBack(preds, x);
      var y :| y in preds[x];
      SomeReady(preds, y);
    }
  }

  /** Blocked tasks are not counted, but while any task is unfinished some task is counted. */
  lemma ZeroMeansNone(sh: Shared)
    requires CountOk(sh) && sh.taskCount == 0
    ensures sh.preds == map[]
  {
    if x :| x in sh.preds {
      SomeReady(sh.preds, x);
    }
  }

  // ---------------------------------------------------------------- what a step may do

  ghost predicate SameTasks(sh: Shared, sh': Shared) {
    sh'.taskCount == sh.taskCount && sh'.preds == sh.preds && sh'.queue == sh.queue && sh'.born == sh.born
  }

  /** What the other threads may rely on. */
  ghost predicate Guarantee(sh: Shared, t: Tid, th: Thread, sh': Shared) {
    && (sh'.lock == sh.lock || (sh.lock in {None, Some(t)} && sh'.lock in {None, Some(t)}))
    && (sh'.gen == sh.gen || sh.lock == Some(t) || th.pc == Advancing)
    && (SameTasks(sh, sh') || sh.lock == Some(t) || (sh.lock == None && (th.pc == Work || th.pc.Running?)))
  }

  lemma StepGuarantees(n: nat, sh: Shared, t: Tid, th: Thread, sh': Shared, th': Thread)
    requires ThreadOk(sh, t, th) && Step(n, sh, t, th, sh', th')
    ensures Guarantee(sh, t, th, sh')
  {
  }

  /** The generation counter moves by one, when no task is counted. */
  lemma StepAdvances(n: nat, sh: Shared, t: Tid, th: Thread, sh': Shared, th': Thread)
    requires ThreadOk(sh, t, th) && Step(n, sh, t, th, sh', th') && sh'.gen.count != sh.gen.count
    ensures sh.taskCount == 0 && sh'.gen == Done(th.state) && SameTasks(sh, sh')
    ensures Closing(th.pc) || sh.gen.waiting
    ensures th.pc != Last && sh'.awaited == sh.awaited
    ensures InBarrier(th.pc) && !Closing(th'.pc) && (InBarrier(th'.pc) ==> th'.passed == th.passed)
  {
  }

  // ---------------------------------------------------------------- tasks

  /** Releasing, counting and uncounting keep the count right; what becomes ready is new to the
      queue, and only the finishing task stops being ready. */
  lemma ReadyAfterCreate(preds: map<Task, set<Task>>, x: Task, waits: set<Task>)
    requires GraphOk(preds) && (forall y | y in preds :: y < x) && waits <= preds.Keys
    ensures GraphOk(preds[x := waits]) && x !in Ready(preds)
    ensures Ready(preds[x := waits]) == if waits == {} then Ready(preds) + {x} else Ready(preds)
  {
    forall y | y in preds ensures EdgesBack(preds[x := waits], y) {
      assert EdgesBack(preds, y);
    }
  }

  lemma ReadyAfterRelease(preds: map<Task, set<Task>>, x: Task, y: Task)
    requires GraphOk(preds) && y in preds && x in preds[y]
    ensures var preds' := preds[y := preds[y] - {x}];
      && GraphOk(preds') && y !in Ready(preds)
      && Ready(preds') == if preds[y] == {x} then Ready(preds) + {y} else Ready(preds)
  {
    var preds' := preds[y := preds[y] - {x}];
    forall z | z in preds' ensures EdgesBack(preds', z) {
      assert EdgesBack(preds, z);
    }
    assert preds[y] - {x} == {} <==> preds[y] == {x};
  }

  lemma ReadyAfterUncount(preds: map<Task, set<Task>>, x: Task)
    requires GraphOk(preds) && NoDepender(preds, x)
    ensures GraphOk(preds - {x}) && Ready(preds - {x}) == Ready(preds) - {x}
  {
    forall z | z in preds - {x} ensures EdgesBack(preds - {x}, z) {
      assert EdgesBack(preds, z);
    }
  }

  /** How a step may change the set of ready tasks. */
  ghost predicate TasksMove(sh: Shared, th: Thread, sh': Shared, th': Thread) {
    && CountOk(sh')
    && Ready(sh.preds) - Own(th.pc) <= Ready(sh'.preds)
    && (sh'.taskCount != sh.taskCount ==> Own(th.pc) != {} || th.pc == Work)
    && sh'.queue !! Ready(sh.preds) - sh.queue
    && Own(th'.pc) <= Ready(sh'.preds) - sh'.queue
    && Own(th'.pc) <= Own(th.pc) + sh.queue
  }

  lemma BlockedCounts(sh: Shared, x: Task, waits: set<Task>)
    requires CountOk(sh) && MayCreate(sh, x, waits) && waits != {}
    ensures var sh' := Blocked(sh, x, waits); CountOk(sh') && Ready(sh'.preds) == Ready(sh.preds)
  {
    ReadyAfterCreate(sh.preds, x, waits);
    hide GraphOk, Ready;
  }

  lemma QueuedCounts(sh: Shared, t: Tid, x: Task)
    requires CountOk(sh) && MayCreate(sh, x, {})
    ensures var sh' := Queued(sh, t, x); CountOk(sh') && Ready(sh'.preds) == Ready(sh.preds) + {x} && x !in Ready(sh.preds)
  {
    ReadyAfterCreate(sh.preds, x, {});
    hide GraphOk, Ready;
  }

  lemma BlockedMoves(sh: Shared, t: Tid, th: Thread, x: Task, waits: set<Task>, sh': Shared, th': Thread)
    requires CountOk(sh) && TaskOk(sh, th) && CreateStep(sh, t, th, x, waits, sh', th') && waits != {}
    ensures TasksMove(sh, th, sh', th')
  {
    BlockedCounts(sh, x, waits);
    hide CountOk, Ready, NoDepender, MayCreate, Own;
  }

  lemma QueuedMoves(sh: Shared, t: Tid, th: Thread, x: Task, sh': Shared, th': Thread)
    requires CountOk(sh) && TaskOk(sh, th) && CreateStep(sh, t, th, x, {}, sh', th')
    ensures TasksMove(sh, th, sh', th')
  {
    CreatorKeepsTask(sh, t, th, x, {}, sh', th');
    QueuedCounts(sh, t, x);
    hide CountOk, Ready, NoDepender, MayCreate, Own;
  }

  lemma CreateMoves(sh: Shared, t: Tid, th: Thread, x: Task, waits: set<Task>, sh': Shared, th': Thread)
    requires CountOk(sh) && TaskOk(sh, th) && CreateStep(sh, t, th, x, waits, sh', th')
    ensures TasksMove(sh, th, sh', th')
  {
    hide *;
    if waits == {} {
      QueuedMoves(sh, t, th, x, sh', th');
    } else {
      BlockedMoves(sh, t, th, x, waits, sh', th');
    }
  }

  lemma CreatorKeepsTask(sh: Shared, t: Tid, th: Thread, x: Task, waits: set<Task>, sh': Shared, th': Thread)
    requires CreateStep(sh, t, th, x, waits, sh', th')
    ensures Own(th'.pc) == Own(th.pc) && (th.pc == Work || Own(th.pc) != {})
  {
    hide MayCreate;
  }

  lemma ReleaseMoves(sh: Shared, t: Tid, th: Thread, x: Task, ret: nat, y: Task, sh': Shared, th': Thread)
    requires CountOk(sh) && ThreadOk(sh, t, th) && th.pc == Releasing(x, ret) && ReleaseStep(sh, th, x, ret, y, sh', th')
    ensures TasksMove(sh, th, sh', th')
  {
    assert Own(th.pc) <= Ready(sh.preds) - sh.queue;
    hide ThreadOk;
    ReleaseKeepsCount(sh, th, x, ret, y, sh', th');
    hide CountOk, Ready;
  }

  lemma ReleaseKeepsCount(sh: Shared, th: Thread, x: Task, ret: nat, y: Task, sh': Shared, th': Thread)
    requires CountOk(sh) && ReleaseStep(sh, th, x, ret, y, sh', th')
    ensures CountOk(sh') && sh.queue <= Ready(sh.preds) && y !in Ready(sh.preds)
    ensures Ready(sh'.preds) == if sh.preds[y] == {x} then Ready(sh.preds) + {y} else Ready(sh.preds)
  {
    var preds' := sh.preds[y := sh.preds[y] - {x}];
    ReadyAfterRelease(sh.preds, x, y);
    assert sh'.preds == preds';
    hide GraphOk, Ready;
    var ready := Ready(sh.preds);
    if sh.preds[y] == {x} {
      assert |ready + {y}| == |ready| + 1;
    }
  }

  lemma TakeMoves(sh: Shared, t: Tid, th: Thread, x: Task, sh': Shared, th': Thread)
    requires CountOk(sh) && th.pc == Top && TakeStep(sh, th, x, sh', th')
    ensures TasksMove(sh, th, sh', th')
  {
    hide GraphOk, Ready;
  }

  lemma UncountMoves(sh: Shared, t: Tid, th: Thread, sh': Shared, th': Thread)
    requires CountOk(sh) && ThreadOk(sh, t, th) && th.pc.Uncounting? && FinishStep(sh, t, th, sh', th')
    ensures TasksMove(sh, th, sh', th')
  {
    var x := th.pc.x;
    ReadyAfterUncount(sh.preds, x);
    assert x in Ready(sh.preds);
    hide GraphOk, Ready, LockOk, EpochOk, NoDepender;
  }

  /** The steps that change the tasks. */
  ghost predicate IsTaskStep(sh: Shared, t: Tid, th: Thread, sh': Shared, th': Thread) {
    || (exists x: Task, waits: set<Task> :: CreateStep(sh, t, th, x, waits, sh', th'))
    || (th.pc.Releasing? && !NoDepender(sh.preds, th.pc.x))
    || (th.pc == Top && sh.queue != {})
    || th.pc.Uncounting?
  }

  lemma QuietMoves(n: nat, sh: Shared, t: Tid, th: Thread, sh': Shared, th': Thread)
    requires CountOk(sh) && TaskOk(sh, th) && Step(n, sh, t, th, sh', th') && !IsTaskStep(sh, t, th, sh', th')
    ensures TasksMove(sh, th, sh', th')
  {
    assert SameTasks(sh, sh') && Own(th'.pc) <= Own(th.pc);
    hide Step, CountOk, Ready, Own, NoDepender, IsTaskStep;
  }

  lemma StepMovesTasks(n: nat, sh: Shared, t: Tid, th: Thread, sh': Shared, th': Thread)
    requires CountOk(sh) && ThreadOk(sh, t, th) && Step(n, sh, t, th, sh', th')
    ensures TasksMove(sh, th, sh', th')
  {
    assert TaskOk(sh, th);
    hide TasksMove, CountOk, LockOk, EpochOk, TaskOk, CreateStep, ReleaseStep, TakeStep;
    if !IsTaskStep(sh, t, th, sh', th') {
      hide *;
      QuietMoves(n, sh, t, th, sh', th');
    } else if x: Task, waits: set<Task> :| CreateStep(sh, t, th, x, waits, sh', th') {
      CreateMoves(sh, t, th, x, waits, sh', th');
    } else if th.pc.Releasing? {
      var y :| ReleaseStep(sh, th, th.pc.x, th.pc.ret, y, sh', th');
      ReleaseMoves(sh, t, th, th.pc.x, th.pc.ret, y, sh', th');
    } else if th.pc == Top {
      var x :| TakeStep(sh, th, x, sh', th');
      TakeMoves(sh, t, th, x, sh', th');
    } else {
      UncountMoves(sh, t, th, sh', th');
    }
  }

  // ---------------------------------------------------------------- threads

  /** What t knows of another thread. */
  ghost predicate PeersOk(sh: Shared, th: Thread, uh: Thread) {
    && Own(uh.pc) !! Own(th.pc)
    && (Closing(th.pc) || sh.gen.waiting ==> HasArrived(sh, uh) && !Closing(uh.pc))
    && (!AllowsAlone(sh, th) || Closing(uh.pc) ==> HasArrived(sh, th))
  }

  predicate AllowsAlone(sh: Shared, th: Thread) {
    !Closing(th.pc) && !sh.gen.waiting
  }

  lemma OwnThread(n: nat, sh: Shared, t: Tid, th: Thread, sh': Shared, th': Thread)
    requires CountOk(sh) && ThreadOk(sh, t, th) && Step(n, sh, t, th, sh', th')
    requires !AllowsAlone(sh, th) ==> HasArrived(sh, th)
    ensures ThreadOk(sh', t, th')
  {
    OwnLock(n, sh, t, th, sh', th');
    OwnEpoch(n, sh, t, th, sh', th');
    OwnTask(n, sh, t, th, sh', th');
  }

  lemma OwnTask(n: nat, sh: Shared, t: Tid, th: Thread, sh': Shared, th': Thread)
    requires CountOk(sh) && ThreadOk(sh, t, th) && Step(n, sh, t, th, sh', th')
    ensures TaskOk(sh', th')
  {
    StepMovesTasks(n, sh, t, th, sh', th');
    OwnPoint(n, sh, t, th, sh', th');
    hide Step, CountOk, Ready, LockOk, EpochOk, Own, NoDepender;
  }

  lemma OwnPoint(n: nat, sh: Shared, t: Tid, th: Thread, sh': Shared, th': Thread)
    requires TaskOk(sh, th) && Step(n, sh, t, th, sh', th')
    ensures th'.pc.Marking? || th'.pc.Uncounting? ==> NoDepender(sh'.preds, th'.pc.x)
    ensures th'.pc == Advancing || th'.pc == Uncounted(true) ==> sh'.taskCount == 0
  {
    hide Ready, Own;
  }

  lemma OwnLock(n: nat, sh: Shared, t: Tid, th: Thread, sh': Shared, th': Thread)
    requires ThreadOk(sh, t, th) && Step(n, sh, t, th, sh', th')
    ensures LockOk(sh', t, th')
  {
  }

  lemma OwnEpoch(n: nat, sh: Shared, t: Tid, th: Thread, sh': Shared, th': Thread)
    requires ThreadOk(sh, t, th) && Step(n, sh, t, th, sh', th')
    requires !AllowsAlone(sh, th) ==> HasArrived(sh, th)
    ensures EpochOk(sh', th')
  {
    assert EpochOk(sh, th);
    hide ThreadOk, MayCreate, GraphOk, Ready, NoDepender;
  }
  lemma OtherThread(n: nat, sh: Shared, t: Tid, th: Thread, sh': Shared, th': Thread, u: Tid, uh: Thread)
    requires CountOk(sh) && ThreadOk(sh, t, th) && Step(n, sh, t, th, sh', th')
    requires u != t && ThreadOk(sh, u, uh) && PeersOk(sh, th, uh)
    ensures ThreadOk(sh', u, uh)
  {
    OtherLock(n, sh, t, th, sh', th', u, uh);
    OtherEpoch(n, sh, t, th, sh', th', u, uh);
    OtherTask(n, sh, t, th, sh', th', u, uh);
  }

  lemma OtherLock(n: nat, sh: Shared, t: Tid, th: Thread, sh': Shared, th': Thread, u: Tid, uh: Thread)
    requires CountOk(sh) && ThreadOk(sh, t, th) && Step(n, sh, t, th, sh', th')
    requires u != t && ThreadOk(sh, u, uh) && PeersOk(sh, th, uh)
    ensures LockOk(sh', u, uh)
  {
    StepGuarantees(n, sh, t, th, sh', th');
    hide Step, GraphOk;
    if th.pc == Advancing {
      ZeroMeansNone(sh);
      assert Own(uh.pc) == {};
    }
  }

  lemma OtherEpoch(n: nat, sh: Shared, t: Tid, th: Thread, sh': Shared, th': Thread, u: Tid, uh: Thread)
    requires CountOk(sh) && ThreadOk(sh, t, th) && Step(n, sh, t, th, sh', th')
    requires u != t && ThreadOk(sh, u, uh) && PeersOk(sh, th, uh)
    ensures EpochOk(sh', uh)
  {
    if sh'.gen.count != sh.gen.count { StepAdvances(n, sh, t, th, sh', th'); }
    hide Step, GraphOk;
  }

  lemma OtherTask(n: nat, sh: Shared, t: Tid, th: Thread, sh': Shared, th': Thread, u: Tid, uh: Thread)
    requires CountOk(sh) && ThreadOk(sh, t, th) && Step(n, sh, t, th, sh', th')
    requires u != t && ThreadOk(sh, u, uh) && PeersOk(sh, th, uh)
    ensures TaskOk(sh', uh)
  {
    StepGuarantees(n, sh, t, th, sh', th');
    StepMovesTasks(n, sh, t, th, sh', th');
    hide Step, GraphOk;
    if uh.pc == Advancing {
      assert sh.taskCount == 0;
      ZeroMeansNone(sh);
    }
  }

  // ---------------------------------------------------------------- arrivals

  /** A step that neither arrives nor advances moves nobody in or out, and only ends a closing. */
  ghost predicate Quiet(sh: Shared, th: Thread, sh': Shared, th': Thread, n: nat) {
    && sh'.gen.count == sh.gen.count
    && (HasArrived(sh', th') <==> HasArrived(sh, th))
    && (Closing(th'.pc) ==> Closing(th.pc))
    && (sh'.gen.waiting ==> sh.gen.waiting || (Closing(th.pc) && !Closing(th'.pc)))
    && th'.pc != Last
    && sh'.awaited == if th.pc == Last then n else sh.awaited
  }

  lemma StepIsQuiet(n: nat, sh: Shared, t: Tid, th: Thread, sh': Shared, th': Thread)
    requires ThreadOk(sh, t, th) && Step(n, sh, t, th, sh', th')
    requires th.pc != Arriving && sh'.gen.count == sh.gen.count
    ensures Quiet(sh, th, sh', th', n)
  {
    hide CreateStep, ReleaseStep, TakeStep, Ready, GraphOk, TaskOk;
    assert forall x: Task, waits: set<Task> :: CreateStep(sh, t, th, x, waits, sh', th') ==> Quiet(sh, th, sh', th', n) by {
      forall x: Task, waits: set<Task> | CreateStep(sh, t, th, x, waits, sh', th') ensures Quiet(sh, th, sh', th', n) {
        CreateIsQuiet(n, sh, t, th, x, waits, sh', th');
      }
    }
    assert forall y :: th.pc.Releasing? && ReleaseStep(sh, th, th.pc.x, th.pc.ret, y, sh', th') ==> Quiet(sh, th, sh', th', n) by {
      forall y | th.pc.Releasing? && ReleaseStep(sh, th, th.pc.x, th.pc.ret, y, sh', th') ensures Quiet(sh, th, sh', th', n) {
        ReleaseIsQuiet(n, sh, th, th.pc.x, th.pc.ret, y, sh', th');
      }
    }
    assert forall x :: th.pc == Top && TakeStep(sh, th, x, sh', th') ==> Quiet(sh, th, sh', th', n) by {
      forall x | th.pc == Top && TakeStep(sh, th, x, sh', th') ensures Quiet(sh, th, sh', th', n) {
        TakeIsQuiet(n, sh, th, x, sh', th');
      }
    }
  }

  lemma CreateIsQuiet(n: nat, sh: Shared, t: Tid, th: Thread, x: Task, waits: set<Task>, sh': Shared, th': Thread)
    requires CreateStep(sh, t, th, x, waits, sh', th')
    ensures Quiet(sh, th, sh', th', n)
  {
  }

  lemma ReleaseIsQuiet(n: nat, sh: Shared, th: Thread, x: Task, ret: nat, y: Task, sh': Shared, th': Thread)
    requires th.pc.Releasing? && ReleaseStep(sh, th, x, ret, y, sh', th')
    ensures Quiet(sh, th, sh', th', n)
  {
  }

  lemma TakeIsQuiet(n: nat, sh: Shared, th: Thread, x: Task, sh': Shared, th': Thread)
    requires th.pc == Top && TakeStep(sh, th, x, sh', th')
    ensures Quiet(sh, th, sh', th', n)
  {
  }

  lemma QuietKeeps(s: State, t: Tid, s': State)
    requires CloseOk(s) && AwaitedOk(s) && t in s.threads && t in s'.threads
    requires s'.threads == s.threads[t := s'.threads[t]]
    requires Quiet(s.sh, s.threads[t], s'.sh, s'.threads[t], |s.threads.Keys|)
    ensures CloseOk(s') && AwaitedOk(s')
  {
    assert s'.threads.Keys == s.threads.Keys;
    assert forall u | u in s.threads :: HasArrived(s'.sh, s'.threads[u]) <==> HasArrived(s.sh, s.threads[u]);
    assert AllArrived(s') <==> AllArrived(s);
    assert Arrived(s') == Arrived(s);
    assert forall u :: IsClosing(s', u) ==> IsClosing(s, u);
    assert forall u :: IsLast(s, u) ==> IsClosing(s, u);
    assert IsClosing(s, t) <==> Closing(s.threads[t].pc);
    assert forall u :: IsLast(s, u) && s.threads[t].pc != Last ==> IsLast(s', u);
    hide HasArrived, AllArrived, Arrived;
  }

  lemma ArrivalKeeps(s: State, t: Tid, s': State)
    requires CloseOk(s) && AwaitedOk(s) && t in s.threads && s.threads[t].pc == Arriving && EpochOk(s.sh, s.threads[t])
    requires t in s'.threads && s'.threads == s.threads[t := s'.threads[t]]
    requires BarrierStep(|s.threads.Keys|, s.sh, s.threads[t], s'.sh, s'.threads[t])
    requires s'.threads[t].passed == s'.threads[t].state
    ensures CloseOk(s') && AwaitedOk(s')
  {
    ArrivalCounts(s, t, s');
    assert !AllArrived(s) && !IsClosing(s, t);
    assert IsLast(s', t) <==> AllArrived(s');
    hide AllArrived, Arrived, HasArrived;
    assert forall u :: IsClosing(s', u) ==> u == t by {
      forall u | IsClosing(s', u) ensures u == t {
        assert u != t ==> IsClosing(s, u);
      }
    }
  }

  lemma ArrivalCounts(s: State, t: Tid, s': State)
    requires AwaitedOk(s) && t in s.threads && s.threads[t].pc == Arriving && EpochOk(s.sh, s.threads[t])
    requires t in s'.threads && s'.threads == s.threads[t := s'.threads[t]]
    requires BarrierStep(|s.threads.Keys|, s.sh, s.threads[t], s'.sh, s'.threads[t])
    requires s'.threads[t].passed == s'.threads[t].state
    ensures s'.threads.Keys == s.threads.Keys && !AllArrived(s)
    ensures |Arrived(s')| == |Arrived(s)| + 1 && s.sh.awaited == |s.threads.Keys| - |Arrived(s)|
    ensures AllArrived(s') <==> |Arrived(s')| == |s.threads.Keys|
  {
    assert s'.threads.Keys == s.threads.Keys;
    assert !HasArrived(s.sh, s.threads[t]) && HasArrived(s'.sh, s'.threads[t]);
    assert Arrived(s') == Arrived(s) + {t} && t !in Arrived(s);
    SubsetCardinality(Arrived(s'), s'.threads.Keys);
    assert AllArrived(s') <==> Arrived(s') == s'.threads.Keys;
  }
  lemma AdvanceKeeps(s: State, t: Tid, s': State)
    requires Inv(s) && t in s.threads && StepOf(s, t, s') && s'.sh.gen.count != s.sh.gen.count
    ensures CloseOk(s') && AwaitedOk(s')
  {
    var sh, sh', th, th' := s.sh, s'.sh, s.threads[t], s'.threads[t];
    assert ThreadOk(sh, t, th);
    assert s'.threads.Keys == s.threads.Keys;
    StepAdvances(|s.threads.Keys|, sh, t, th, sh', th');
    assert IsClosing(s, t) <==> Closing(th.pc);
    assert AllArrived(s);
    assert forall u :: IsLast(s, u) ==> IsClosing(s, u);
    hide Step, ThreadOk, TasksApart, CountOk, BornOk;
    forall u | u in s.threads ensures !HasArrived(sh', s'.threads[u]) && !IsClosing(s', u) {
      assert HasArrived(sh, s.threads[u]) && (u != t ==> !IsClosing(s, u));
    }
    assert Arrived(s') == {} && !AllArrived(s');
  }

  // ---------------------------------------------------------------- all steps

  lemma PeersKnow(s: State, t: Tid, u: Tid)
    requires Inv(s) && t in s.threads && u in s.threads && u != t
    ensures PeersOk(s.sh, s.threads[t], s.threads[u])
    ensures !AllowsAlone(s.sh, s.threads[t]) ==> HasArrived(s.sh, s.threads[t])
  {
    assert IsClosing(s, t) <==> Closing(s.threads[t].pc);
    assert IsClosing(s, u) <==> Closing(s.threads[u].pc);
    assert TasksApart(s, t, u);
    hide CountOk, ThreadOk, BornOk, AwaitedOk;
  }

  lemma ArrivedIfNotAlone(s: State, t: Tid)
    requires CloseOk(s) && t in s.threads
    ensures !AllowsAlone(s.sh, s.threads[t]) ==> HasArrived(s.sh, s.threads[t])
  {
    assert IsClosing(s, t) <==> Closing(s.threads[t].pc);
  }

  lemma ThreadsKept(s: State, t: Tid, s': State, u: Tid)
    requires Inv(s) && t in s.threads && StepOf(s, t, s') && u in s.threads
    ensures ThreadOk(s'.sh, u, s'.threads[u])
  {
    var n := |s.threads.Keys|;
    assert ThreadOk(s.sh, t, s.threads[t]) && ThreadOk(s.sh, u, s.threads[u]);
    ArrivedIfNotAlone(s, t);
    if u == t {
      hide Step, ThreadOk, CloseOk, AwaitedOk;
      OwnThread(n, s.sh, t, s.threads[t], s'.sh, s'.threads[t]);
    } else {
      PeersKnow(s, t, u);
      hide Step, ThreadOk, CloseOk, AwaitedOk;
      OtherThread(n, s.sh, t, s.threads[t], s'.sh, s'.threads[t], u, s.threads[u]);
    }
  }

  lemma ApartKept(s: State, t: Tid, s': State, u: Tid, v: Tid)
    requires Inv(s) && t in s.threads && StepOf(s, t, s') && u in s.threads && v in s.threads
    ensures TasksApart(s', u, v)
  {
    assert ThreadOk(s.sh, t, s.threads[t]) && ThreadOk(s.sh, u, s.threads[u]) && ThreadOk(s.sh, v, s.threads[v]);
    assert TasksApart(s, u, v);
    StepMovesTasks(|s.threads.Keys|, s.sh, t, s.threads[t], s'.sh, s'.threads[t]);
    hide Step, CloseOk, AwaitedOk, LockOk, EpochOk, CountOk, BornOk;
  }

  lemma BornKept(s: State, t: Tid, s': State)
    requires Inv(s) && t in s.threads && StepOf(s, t, s')
    ensures BornOk(s'.sh)
  {
    var n, sh, th, sh', th' := |s.threads.Keys|, s.sh, s.threads[t], s'.sh, s'.threads[t];
    assert ThreadOk(sh, t, th);
    hide ThreadOk, CloseOk, AwaitedOk, TasksApart;
    if sh'.gen.count != sh.gen.count {
      StepAdvances(n, sh, t, th, sh', th');
      ZeroMeansNone(sh);
    } else if x: Task, waits: set<Task> :| CreateStep(sh, t, th, x, waits, sh', th') {
      CreateIsBorn(sh, t, th, x, waits, sh', th');
    } else {
      hide Ready, GraphOk, CreateStep, CountOk;
      OthersAreBorn(n, sh, t, th, sh', th');
    }
  }

  lemma CreateIsBorn(sh: Shared, t: Tid, th: Thread, x: Task, waits: set<Task>, sh': Shared, th': Thread)
    requires BornOk(sh) && CreateStep(sh, t, th, x, waits, sh', th')
    ensures BornOk(sh')
  {
  }

  lemma OthersAreBorn(n: nat, sh: Shared, t: Tid, th: Thread, sh': Shared, th': Thread)
    requires BornOk(sh) && Step(n, sh, t, th, sh', th') && sh'.gen.count == sh.gen.count
    requires forall x: Task, waits: set<Task> :: !CreateStep(sh, t, th, x, waits, sh', th')
    ensures BornOk(sh')
  {
    hide CreateStep;
  }
  lemma StepKeepsInv(s: State, t: Tid, s': State)
    requires Inv(s) && t in s.threads && StepOf(s, t, s')
    ensures Inv(s')
  {
    assert s'.threads.Keys == s.threads.Keys;
    assert ThreadOk(s.sh, t, s.threads[t]);
    forall u | u in s'.threads ensures ThreadOk(s'.sh, u, s'.threads[u]) {
      ThreadsKept(s, t, s', u);
    }
    forall u, v | u in s'.threads && v in s'.threads ensures TasksApart(s', u, v) {
      ApartKept(s, t, s', u, v);
    }
    BornKept(s, t, s');
    StepMovesTasks(|s.threads.Keys|, s.sh, t, s.threads[t], s'.sh, s'.threads[t]);
    ClosingKept(s, t, s');
    hide Step, CloseOk, AwaitedOk, ThreadOk, TasksApart, BornOk, Ready, GraphOk;
  }

  lemma ClosingKept(s: State, t: Tid, s': State)
    requires Inv(s) && t in s.threads && StepOf(s, t, s')
    ensures CloseOk(s') && AwaitedOk(s')
  {
    assert ThreadOk(s.sh, t, s.threads[t]);
    if s'.sh.gen.count != s.sh.gen.count {
      AdvanceKeeps(s, t, s');
    } else if s.threads[t].pc == Arriving {
      ThreadsKept(s, t, s', t);
      hide ThreadOk, CloseOk, AwaitedOk, CountOk, TasksApart, BornOk;
      ArrivingArrives(s, t, s');
      ArrivalKeeps(s, t, s');
    } else {
      StepIsQuiet(|s.threads.Keys|, s.sh, t, s.threads[t], s'.sh, s'.threads[t]);
      hide Step, ThreadOk, CloseOk, AwaitedOk, CountOk, TasksApart, BornOk;
      QuietKeeps(s, t, s');
    }
  }

  lemma ArrivingArrives(s: State, t: Tid, s': State)
    requires t in s.threads && StepOf(s, t, s') && s.threads[t].pc == Arriving && ThreadOk(s.sh, t, s.threads[t])
    ensures EpochOk(s.sh, s.threads[t]) && s'.threads[t].passed == s'.threads[t].state
    ensures BarrierStep(|s.threads.Keys|, s.sh, s.threads[t], s'.sh, s'.threads[t])
  {
  }

  lemma InitHasInv(s: State)
    requires Init(s)
    ensures Inv(s)
  {
    assert Ready(s.sh.preds) == {} && Arrived(s) == {};
    var t :| t in s.threads;
    assert !HasArrived(s.sh, s.threads[t]);
  }

  lemma InvAlong(run: seq<State>, k: nat)
    requires IsRun(Init, Next, run) && k < |run|
    ensures Inv(run[k])
  {
    forall s | Init(s) ensures Inv(s) {
      InitHasInv(s);
    }
    forall s, s' | Inv(s) && Next(s, s') ensures Inv(s') {
      var t :| t in s.threads && StepOf(s, t, s');
      StepKeepsInv(s, t, s');
    }
    hide Inv;
    HoldsAlong(Init, Next, Inv, run, k);
  }

  /** When the generation advances it does so by one, every thread of the team has arrived, and
      no explicit task is unfinished, blocked ones included although task_count does not count
      them. */
  lemma AdvancesOnlyWhenDone(run: seq<State>, k: nat)
    requires IsRun(Init, Next, run) && k + 1 < |run|
    requires run[k + 1].sh.gen.count != run[k].sh.gen.count
    ensures run[k + 1].sh.gen == Word(run[k].sh.gen.count + 1, false, false)
    ensures AllArrived(run[k]) && run[k].sh.preds == map[]
  {
    var s, s' := run[k], run[k + 1];
    InvAlong(run, k);
    assert Next(s, s');
    var t :| t in s.threads && StepOf(s, t, s');
    assert ThreadOk(s.sh, t, s.threads[t]);
    assert IsClosing(s, t) <==> Closing(s.threads[t].pc);
    StepAdvances(|s.threads.Keys|, s.sh, t, s.threads[t], s'.sh, s'.threads[t]);
    ZeroMeansNone(s.sh);
  }

  /** Nobody has passed a barrier while another thread is still before it, or while a task
      that was created before it is unfinished. */
  lemma BarrierSeparates(run: seq<State>, k: nat, t: Tid, u: Tid, x: Task)
    requires IsRun(Init, Next, run) && k < |run| && t in run[k].threads && u in run[k].threads
    ensures var s := run[k];
      s.threads[t].passed > s.threads[u].passed ==>
        s.threads[t].passed == s.threads[u].passed + 1 && InBarrier(s.threads[u].pc)
    ensures var s := run[k]; x in s.sh.preds ==> x in s.sh.born && s.threads[t].passed <= s.sh.born[x]
  {
    InvAlong(run, k);
    var s := run[k];
    assert ThreadOk(s.sh, t, s.threads[t]) && ThreadOk(s.sh, u, s.threads[u]);
  }

  /** The source keeps the counter modulo a power of two.  A thread in the barrier is at most one
      generation behind, so its test for the next one gives the same answer modulo any m. */
  lemma CounterMayWrap(run: seq<State>, k: nat, t: Tid, m: nat)
    requires IsRun(Init, Next, run) && k < |run| && t in run[k].threads && m > 1
    requires InBarrier(run[k].threads[t].pc)
    ensures var count, state := run[k].sh.gen.count, run[k].threads[t].state;
      (count % m == (state + 1) % m <==> count == state + 1) && (count % m == state % m <==> count == state)
  {
    InvAlong(run, k);
    var s := run[k];
    assert ThreadOk(s.sh, t, s.threads[t]);
    NextDiffers(s.threads[t].state, m);
  }

  lemma NextDiffers(x: nat, m: nat)
    requires m > 1
    ensures (x + 1) % m != x % m
  {
    var q, r := x / m, x % m;
    assert x == q * m + r;
    if r + 1 < m {
      ModIs(x + 1, m, q, r + 1);
    } else {
      assert (q + 1) * m == q * m + m;
      ModIs(x + 1, m, q + 1, 0);
    }
  }
}
