/** Ordered regions of dynamic and guided loops: the protocol of gomp_ordered_first, _next, _last
    and _sync (ordered.c:38-146, 194-226) together with the hand-out of chunks under the
    work-share lock (loop.c:224-247, 500-516, iter.c:147-177).

  The team has at least two threads.  Chunks are numbered in iteration order; `total` is their
  number, which is fixed because they are handed out under the lock one after the other.  A step
  is one access to what other threads can see without the lock (ordered_owner and the release
  semaphores), or one locked section.  `OrderedQueue` proves that the circular array of team
  ids implements the queue.
 */
module Ordered {
  import opened Collections
  import opened Options
  import opened Runs

  type Tid = nat

  datatype Pc =
    | Start                             // about to ask for the first chunk
    | Joining(k: nat)                   // holds the lock, was given chunk k
    | Body(k: nat)                      // works on chunk k, outside ordered regions
    | Check(k: nat, end: bool)          // gomp_ordered_sync: reads ordered_owner; end: the chunk is done
    | Waiting(k: nat, end: bool)        // waits on its release semaphore
    | Owning(k: nat, end: bool)         // the wait is over: about to write ordered_owner
    | Region(k: nat)                    // in an ordered region of an iteration of chunk k
    | Locking(k: nat)                   // chunk k is done: wants the lock
    | Disowning(k: nat, next: Option<nat>) // holds the lock, got another chunk or none
    | Passing(k: nat, next: Option<nat>)   // ordered_owner is -1: passes the token on
    | Finished

  /** `first` is history: the chunk of the head of the queue, or the next one to be queued.
      `pending` is history: a chunk has been handed out under the lock and is not queued yet.
      `log` is history: the chunk of every ordered region that was run, in order. */
  datatype Shared = Shared(handed: nat, lock: Option<Tid>, queue: seq<Tid>, owner: Option<Tid>, sem: map<Tid, nat>,
                           first: nat, pending: bool, log: seq<nat>)

  datatype State = State(sh: Shared, pc: map<Tid, Pc>)

  /** Post the release semaphore of the head of the queue. */
  function PostHead(sh: Shared, queue: seq<Tid>): map<Tid, nat> {
    if queue == [] || queue[0] !in sh.sem then sh.sem else sh.sem[queue[0] := sh.sem[queue[0]] + 1]
  }

  /** Taking a chunk under the lock: gomp_iter_dynamic_next_locked or its guided form. */
  ghost predicate TakeStep(total: nat, sh: Shared, t: Tid, pc: Pc, sh': Shared, pc': Pc) {
    && sh.lock == None
    && match pc
       case Start =>
         if sh.handed < total then
           sh' == sh.(lock := Some(t), handed := sh.handed + 1, pending := true) && pc' == Joining(sh.handed)
         else
           sh' == sh && pc' == Finished
       case Locking(k) =>
         if sh.handed < total then
           sh' == sh.(lock := Some(t), handed := sh.handed + 1, pending := true) && pc' == Disowning(k, Some(sh.handed))
         else
           sh' == sh.(lock := Some(t)) && pc' == Disowning(k, None)
       case _ => false
  }

  /** gomp_ordered_first, gomp_ordered_next and gomp_ordered_last. */
  ghost predicate QueueStep(sh: Shared, t: Tid, pc: Pc, sh': Shared, pc': Pc) {
    match pc
    case Joining(k) =>
      var queue := sh.queue + [t];
      && sh' == sh.(queue := queue, sem := if sh.queue == [] then PostHead(sh, queue) else sh.sem, lock := None, pending := false)
      && pc' == Body(k)
    case Disowning(k, next) =>
      sh' == sh.(owner := None) && pc' == Passing(k, next)
    case Passing(k, next) =>
      && sh.queue != []
      && var queue := if next.Some? then sh.queue[1..] + [t] else sh.queue[1..];
         && sh' == sh.(queue := queue, sem := PostHead(sh, queue), lock := None, first := sh.first + 1, pending := false)
         && pc' == if next.Some? then Body(next.value) else Finished
    case _ => false
  }

  /** gomp_ordered_sync, at the start of an ordered region and at the end of a chunk. */
  ghost predicate SyncStep(sh: Shared, t: Tid, pc: Pc, sh': Shared, pc': Pc) {
    match pc
    case Body(k) => sh' == sh && exists end :: pc' == Check(k, end)
    case Check(k, end) =>
      sh' == sh && pc' == if sh.owner == Some(t) then (if end then Locking(k) else Region(k)) else Waiting(k, end)
    case Waiting(k, end) =>
      && t in sh.sem && sh.sem[t] > 0
      && sh' == sh.(sem := sh.sem[t := sh.sem[t] - 1]) && pc' == Owning(k, end)
    case Owning(k, end) =>
      sh' == sh.(owner := Some(t)) && pc' == if end then Locking(k) else Region(k)
    case Region(k) =>
      sh' == sh.(log := sh.log + [k]) && pc' == Body(k)
    case _ => false
  }

  ghost predicate Step(total: nat, sh: Shared, t: Tid, pc: Pc, sh': Shared, pc': Pc) {
    || TakeStep(total, sh, t, pc, sh', pc')
    || QueueStep(sh, t, pc, sh', pc')
    || SyncStep(sh, t, pc, sh', pc')
  }

  ghost predicate StepOf(total: nat, s: State, t: Tid, s': State)
    requires t in s.pc
  {
    && t in s'.pc && s'.pc == s.pc[t := s'.pc[t]]
    && Step(total, s.sh, t, s.pc[t], s'.sh, s'.pc[t])
  }

  ghost predicate Next(total: nat, s: State, s': State) {
    exists t :: t in s.pc && StepOf(total, s, t, s')
  }

  /** A team of at least two threads; with one, the routines do nothing. */
  ghost predicate Init(s: State) {
    && |s.pc.Keys| >= 2
    && (forall t | t in s.pc :: s.pc[t] == Start && t in s.sh.sem && s.sh.sem[t] == 0)
    && s.sh.sem.Keys == s.pc.Keys
    && s.sh == Shared(0, None, [], None, s.sh.sem, 0, false, [])
  }

  // ---------------------------------------------------------------- invariant

  predicate HoldsLock(pc: Pc) {
    pc.Joining? || pc.Disowning? || pc.Passing?
  }

  predicate Queued(pc: Pc) {
    !(pc.Start? || pc.Joining? || pc.Finished?)
  }

  /** Points that only the head of the queue reaches. */
  predicate PastSync(pc: Pc) {
    pc.Owning? || pc.Region? || pc.Locking? || pc.Disowning? || pc.Passing?
  }

  predicate IsHead(sh: Shared, t: Tid) {
    sh.queue != [] && sh.queue[0] == t
  }

  /** Where the token is, as seen by one thread: its semaphore, ordered_owner, or its hands. */
  function Tokens(sh: Shared, t: Tid, pc: Pc): nat {
    (if t in sh.sem then sh.sem[t] else 0) + (if sh.owner == Some(t) then 1 else 0) + (if pc.Owning? || pc.Passing? then 1 else 0)
  }

  ghost predicate ThreadOk(sh: Shared, t: Tid, pc: Pc) {
    && t in sh.sem
    && (HoldsLock(pc) <==> sh.lock == Some(t))
    && (t in sh.queue <==> Queued(pc))
    && (Queued(pc) ==> sh.first <= pc.k < sh.first + |sh.queue| && sh.queue[pc.k - sh.first] == t)
    && Tokens(sh, t, pc) == (if IsHead(sh, t) then 1 else 0)
    && (PastSync(pc) ==> IsHead(sh, t))
    && (pc.Region? || pc.Locking? || pc.Disowning? ==> sh.owner == Some(t))
    && (pc.Joining? ==> sh.pending && pc.k + 1 == sh.handed)
    && (pc.Disowning? || pc.Passing? ==>
          if pc.next.Some? then sh.pending && pc.next.value + 1 == sh.handed else !sh.pending)
  }

  ghost predicate LogOk(sh: Shared) {
    && (forall i, j :: 0 <= i < j < |sh.log| ==> sh.log[i] <= sh.log[j])
    && (forall i | 0 <= i < |sh.log| :: sh.log[i] <= sh.first)
  }

  ghost predicate SharedOk(sh: Shared) {
    && NoDup(sh.queue)
    && sh.first + |sh.queue| + (if sh.pending then 1 else 0) == sh.handed
    && (sh.pending ==> sh.lock != None)
    && LogOk(sh)
  }

  ghost predicate Inv(s: State) {
    && |s.pc.Keys| >= 2
    && SharedOk(s.sh)
    && (forall t | t in s.pc :: ThreadOk(s.sh, t, s.pc[t]))
    && (forall t | t in s.sh.queue :: t in s.pc)
    && s.sh.sem.Keys == s.pc.Keys
    && (s.sh.owner != None ==> s.sh.owner.value in s.pc)
  }

  // ---------------------------------------------------------------- steps

  lemma TakeShared(total: nat, sh: Shared, t: Tid, pc: Pc, sh': Shared, pc': Pc)
    requires SharedOk(sh) && TakeStep(total, sh, t, pc, sh', pc')
    ensures SharedOk(sh')
  {
    hide NoDup, LogOk;
    assert LogOk(sh) ==> LogOk(sh') by { LogStays(sh, sh'); }
  }

  lemma TakeOwn(total: nat, sh: Shared, t: Tid, pc: Pc, sh': Shared, pc': Pc)
    requires SharedOk(sh) && ThreadOk(sh, t, pc) && TakeStep(total, sh, t, pc, sh', pc')
    ensures ThreadOk(sh', t, pc')
  {
    hide NoDup, LogOk;
  }

  lemma TakeOther(total: nat, sh: Shared, t: Tid, pc: Pc, sh': Shared, pc': Pc, u: Tid, pu: Pc)
    requires TakeStep(total, sh, t, pc, sh', pc') && u != t && ThreadOk(sh, u, pu)
    ensures ThreadOk(sh', u, pu)
  {
  }

  /** The head of the queue works on the first chunk that is queued. */
  lemma HeadHasFirst(sh: Shared, t: Tid, pc: Pc)
    requires SharedOk(sh) && ThreadOk(sh, t, pc) && Queued(pc)
    ensures IsHead(sh, t) <==> pc.k == sh.first
  {
    assert NoDup(sh.queue);
  }

  lemma SyncShared(sh: Shared, t: Tid, pc: Pc, sh': Shared, pc': Pc)
    requires SharedOk(sh) && ThreadOk(sh, t, pc) && SyncStep(sh, t, pc, sh', pc')
    ensures SharedOk(sh')
  {
    if pc.Region? { HeadHasFirst(sh, t, pc); }
    hide NoDup, ThreadOk;
    assert LogOk(sh');
  }

  lemma SyncOwn(sh: Shared, t: Tid, pc: Pc, sh': Shared, pc': Pc)
    requires ThreadOk(sh, t, pc) && SyncStep(sh, t, pc, sh', pc')
    ensures ThreadOk(sh', t, pc')
  {
  }

  lemma SyncOther(sh: Shared, t: Tid, pc: Pc, sh': Shared, pc': Pc, u: Tid, pu: Pc)
    requires ThreadOk(sh, t, pc) && SyncStep(sh, t, pc, sh', pc') && u != t && ThreadOk(sh, u, pu)
    ensures ThreadOk(sh', u, pu)
  {
  }

  lemma AppendKeeps(q: seq<Tid>, t: Tid)
    requires NoDup(q) && t !in q
    ensures NoDup(q + [t])
    ensures forall u :: u in q + [t] <==> u in q || u == t
  {
  }

  lemma DropKeeps(q: seq<Tid>)
    requires NoDup(q) && q != []
    ensures NoDup(q[1..]) && q[0] !in q[1..]
    ensures forall u :: u in q[1..] <==> u in q && u != q[0]
  {
    assert q == [q[0]] + q[1..];
  }

  lemma QueueShared(sh: Shared, t: Tid, pc: Pc, sh': Shared, pc': Pc)
    requires SharedOk(sh) && ThreadOk(sh, t, pc) && QueueStep(sh, t, pc, sh', pc')
    ensures SharedOk(sh')
  {
    if pc.Joining? {
      AppendKeeps(sh.queue, t);
    } else if pc.Passing? {
      DropKeeps(sh.queue);
      if pc.next.Some? { AppendKeeps(sh.queue[1..], t); }
    }
    hide NoDup, PostHead, LogOk;
    assert LogOk(sh) ==> LogOk(sh') by { LogStays(sh, sh'); }
  }

  lemma LogStays(sh: Shared, sh': Shared)
    requires sh'.log == sh.log && sh'.first >= sh.first
    ensures LogOk(sh) ==> LogOk(sh')
  {
  }

  lemma JoinOwn(sh: Shared, t: Tid, pc: Pc, sh': Shared, pc': Pc)
    requires SharedOk(sh) && ThreadOk(sh, t, pc) && pc.Joining? && QueueStep(sh, t, pc, sh', pc')
    ensures ThreadOk(sh', t, pc')
  {
    AppendKeeps(sh.queue, t);
    hide NoDup, LogOk;
  }

  lemma PassOwn(sh: Shared, t: Tid, pc: Pc, sh': Shared, pc': Pc)
    requires SharedOk(sh) && ThreadOk(sh, t, pc) && pc.Passing? && QueueStep(sh, t, pc, sh', pc')
    ensures ThreadOk(sh', t, pc')
  {
    DropKeeps(sh.queue);
    hide NoDup, LogOk;
  }

  lemma JoinOther(sh: Shared, t: Tid, pc: Pc, sh': Shared, pc': Pc, u: Tid, pu: Pc)
    requires SharedOk(sh) && ThreadOk(sh, t, pc) && pc.Joining? && QueueStep(sh, t, pc, sh', pc') && u != t && ThreadOk(sh, u, pu)
    ensures ThreadOk(sh', u, pu)
  {
    AppendKeeps(sh.queue, t);
    hide NoDup, LogOk;
  }

  lemma PassOther(sh: Shared, t: Tid, pc: Pc, sh': Shared, pc': Pc, u: Tid, pu: Pc)
    requires SharedOk(sh) && ThreadOk(sh, t, pc) && pc.Passing? && QueueStep(sh, t, pc, sh', pc') && u != t && ThreadOk(sh, u, pu)
    ensures ThreadOk(sh', u, pu)
  {
    DropKeeps(sh.queue);
    if Queued(pu) { HeadHasFirst(sh, u, pu); }
    hide NoDup, LogOk;
  }

  lemma StepShared(total: nat, sh: Shared, t: Tid, pc: Pc, sh': Shared, pc': Pc)
    requires SharedOk(sh) && ThreadOk(sh, t, pc) && Step(total, sh, t, pc, sh', pc')
    ensures SharedOk(sh')
  {
    if TakeStep(total, sh, t, pc, sh', pc') {
      hide SharedOk, ThreadOk, TakeStep;
      TakeShared(total, sh, t, pc, sh', pc');
    } else {
      hide SharedOk, ThreadOk, TakeStep, QueueStep, SyncStep;
      if QueueStep(sh, t, pc, sh', pc') { QueueShared(sh, t, pc, sh', pc'); } else { SyncShared(sh, t, pc, sh', pc'); }
    }
  }

  lemma DisownKeeps(sh: Shared, t: Tid, pc: Pc, sh': Shared, pc': Pc, u: Tid, pu: Pc)
    requires ThreadOk(sh, t, pc) && pc.Disowning? && QueueStep(sh, t, pc, sh', pc')
    ensures ThreadOk(sh', t, pc')
    ensures u != t && ThreadOk(sh, u, pu) ==> ThreadOk(sh', u, pu)
  {
  }

  lemma QueueKeeps(sh: Shared, t: Tid, pc: Pc, sh': Shared, pc': Pc, u: Tid, pu: Pc)
    requires SharedOk(sh) && ThreadOk(sh, t, pc) && QueueStep(sh, t, pc, sh', pc') && u != t && ThreadOk(sh, u, pu)
    ensures ThreadOk(sh', t, pc') && ThreadOk(sh', u, pu)
  {
    assert pc.Joining? || pc.Disowning? || pc.Passing?;
    hide SharedOk, ThreadOk, QueueStep;
    if pc.Joining? {
      JoinOwn(sh, t, pc, sh', pc');
      JoinOther(sh, t, pc, sh', pc', u, pu);
    } else if pc.Disowning? {
      DisownKeeps(sh, t, pc, sh', pc', u, pu);
    } else {
      PassOwn(sh, t, pc, sh', pc');
      PassOther(sh, t, pc, sh', pc', u, pu);
    }
  }

  lemma StepThreads(total: nat, sh: Shared, t: Tid, pc: Pc, sh': Shared, pc': Pc, u: Tid, pu: Pc)
    requires SharedOk(sh) && ThreadOk(sh, t, pc) && Step(total, sh, t, pc, sh', pc') && u != t && ThreadOk(sh, u, pu)
    ensures ThreadOk(sh', t, pc') && ThreadOk(sh', u, pu)
  {
    hide SharedOk, ThreadOk, TakeStep, QueueStep, SyncStep;
    if TakeStep(total, sh, t, pc, sh', pc') {
      TakeOwn(total, sh, t, pc, sh', pc');
      TakeOther(total, sh, t, pc, sh', pc', u, pu);
    } else if QueueStep(sh, t, pc, sh', pc') {
      QueueKeeps(sh, t, pc, sh', pc', u, pu);
    } else {
      SyncOwn(sh, t, pc, sh', pc');
      SyncOther(sh, t, pc, sh', pc', u, pu);
    }
  }

  /** Nobody outside the team is queued, owns the section or has a semaphore. */
  ghost predicate TeamOnly(s: State) {
    && (forall t | t in s.sh.queue :: t in s.pc)
    && s.sh.sem.Keys == s.pc.Keys
    && (s.sh.owner != None ==> s.sh.owner.value in s.pc)
  }

  lemma StepTeamOnly(total: nat, s: State, t: Tid, s': State)
    requires t in s.pc && StepOf(total, s, t, s') && TeamOnly(s)
    ensures TeamOnly(s')
  {
    assert s'.pc.Keys == s.pc.Keys;
    var sh, sh' := s.sh, s'.sh;
    assert sh'.sem.Keys == sh.sem.Keys;
    forall u | u in sh'.queue ensures u in s'.pc {
      assert u == t || u in sh.queue;
    }
  }

  lemma StepKeepsInv(total: nat, s: State, t: Tid, s': State)
    requires Inv(s) && t in s.pc && StepOf(total, s, t, s')
    ensures Inv(s')
  {
    assert s'.pc.Keys == s.pc.Keys;
    assert TeamOnly(s);
    StepTeamOnly(total, s, t, s');
    hide SharedOk, ThreadOk, Step;
    StepShared(total, s.sh, t, s.pc[t], s'.sh, s'.pc[t]);
    var other :| other in s.pc.Keys - {t} by { Another(s.pc.Keys, t); }
    forall u | u in s'.pc ensures ThreadOk(s'.sh, u, s'.pc[u]) {
      var v := if u == t then other else u;
      StepThreads(total, s.sh, t, s.pc[t], s'.sh, s'.pc[t], v, s.pc[v]);
    }
  }

  lemma Another(team: set<Tid>, t: Tid)
    requires |team| >= 2 && t in team
    ensures team - {t} != {}
  {
    assert |team - {t}| == |team| - 1;
  }

  ghost predicate IsTeamRun(total: nat, run: seq<State>) {
    IsRun(Init, (s, s') => Next(total, s, s'), run)
  }

  lemma InvAlong(total: nat, run: seq<State>, k: nat)
    requires IsTeamRun(total, run) && k < |run|
    ensures Inv(run[k])
  {
    forall s, s' | Inv(s) && Next(total, s, s') ensures Inv(s') {
      var t :| t in s.pc && StepOf(total, s, t, s');
      StepKeepsInv(total, s, t, s');
    }
    HoldsAlong(Init, (s, s') => Next(total, s, s'), Inv, run, k);
  }

  /** Ordered regions run one at a time, and in iteration order: the log of regions never goes
      back, and while a thread is in a region of chunk c, all other unfinished chunks are later. */
  lemma RegionsAreInOrder(total: nat, run: seq<State>, k: nat, t: Tid, u: Tid)
    requires IsTeamRun(total, run) && k < |run| && t in run[k].pc && u in run[k].pc && run[k].pc[t].Region?
    ensures var s := run[k];
      && (s.pc[u].Region? ==> u == t)
      && (u != t && Queued(s.pc[u]) ==> s.pc[t].k < s.pc[u].k)
      && (forall i | 0 <= i < |s.sh.log| :: s.sh.log[i] <= s.pc[t].k)
  {
    InvAlong(total, run, k);
    var s := run[k];
    HeadHasFirst(s.sh, t, s.pc[t]);
    if Queued(s.pc[u]) { HeadHasFirst(s.sh, u, s.pc[u]); }
  }

  lemma LogIsSorted(total: nat, run: seq<State>, k: nat, i: nat, j: nat)
    requires IsTeamRun(total, run) && k < |run| && i < j < |run[k].sh.log|
    ensures run[k].sh.log[i] <= run[k].sh.log[j]
  {
    InvAlong(total, run, k);
  }

  /** The queue lists the threads with unfinished chunks in iteration order, and while it is not
      empty there is exactly one token: the posted semaphore of its head, or ordered_owner set to
      its head, or the head is about to set the one or to post the next one. */
  lemma OneToken(total: nat, run: seq<State>, k: nat, t: Tid)
    requires IsTeamRun(total, run) && k < |run| && t in run[k].pc
    ensures var s := run[k];
      && (t in s.sh.queue <==> Queued(s.pc[t]))
      && (Queued(s.pc[t]) ==> s.sh.first <= s.pc[t].k < s.sh.first + |s.sh.queue| && s.sh.queue[s.pc[t].k - s.sh.first] == t)
      && Tokens(s.sh, t, s.pc[t]) == if IsHead(s.sh, t) then 1 else 0
  {
    InvAlong(total, run, k);
  }

  /** Chunks are neither lost nor handed out twice. */
  lemma ChunksAreConsecutive(total: nat, run: seq<State>, k: nat)
    requires IsTeamRun(total, run) && k < |run|
    ensures var sh := run[k].sh; sh.first + |sh.queue| + (if sh.pending then 1 else 0) == sh.handed
  {
    InvAlong(total, run, k);
  }
}
