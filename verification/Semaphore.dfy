/** The futex semaphore of config/linux/sem.h and config/linux/sem.c.

  One 32-bit word holds the count in its low 31 bits and, in the top bit, the flag SEM_WAIT
  that some threads may be asleep.  The word is modelled as the unsigned value of these 32
  bits, and additions wrap as the hardware's do.  `posts` and `waits` are history: the number
  of successful increments and decrements so far.
 */
module Semaphore {
  import opened Runs

  type Tid = nat

  const SEM_WAIT := 0x8000_0000

  type Word = w: int | 0 <= w < 0x1_0000_0000

  predicate Flag(w: Word) { w >= SEM_WAIT }

  /** The word without its top bit. */
  function Count(w: Word): (c: nat)
    ensures c < SEM_WAIT
  {
    if Flag(w) then w - SEM_WAIT else w
  }

  /** The value that gomp_sem_post stores: one more, modulo 2^32, without the flag. */
  function Posted(w: Word): Word {
    if w == 0xFFFF_FFFF then 0 else Count(w + 1)
  }

  /** A word without the flag and with at least one unit. */
  type Unit = w: Word | 0 < w < SEM_WAIT witness 1

  datatype Pc =
    | Idle
    | WaitLoad              // about to load the word in gomp_sem_wait
    | WaitTry(count: Word)   // loop head of gomp_sem_wait
    | First(count: Word)     // test of the first loop of gomp_sem_wait_slow
    | Announce              // spin timed out with count 0: compare-and-swap 0 to SEM_WAIT
    | Reload                // about to reload the word in the first loop
    | FirstTry(units: Unit)  // compare-and-swap count to count - 1 in the first loop
    | Futex                 // about to call futex_wait (sem, SEM_WAIT)
    | Asleep                // in the wait set
    | SecondLoad            // back from futex_wait: about to reload the word
    | Second(count: Word)    // compare-and-swap of the second loop
    | PostLoad              // about to load the word in gomp_sem_post
    | PostTry(count: Word)   // compare-and-swap of gomp_sem_post
    | Waking                // about to call futex_wake (sem, 1)

  datatype State = State(word: Word, initial: nat, posts: nat, waits: nat, pc: map<Tid, Pc>)

  function Go(s: State, t: Tid, p: Pc): State {
    s.(pc := s.pc[t := p])
  }

  /** A successful decrement that leaves `w` in the word. */
  function Take(s: State, t: Tid, w: Word, p: Pc): State {
    s.(word := w, waits := s.waits + 1, pc := s.pc[t := p])
  }

  ghost predicate Init(s: State) {
    && s.word == s.initial < SEM_WAIT
    && s.posts == s.waits == 0
    && forall t | t in s.pc :: s.pc[t] == Idle
  }

  ghost predicate FutexWait(s: State, t: Tid, s': State) {
    s' == Go(s, t, if s.word == SEM_WAIT then Asleep else SecondLoad)
  }

  ghost predicate FutexWake(s: State, t: Tid, s': State) {
    if exists u :: u in s.pc && s.pc[u] == Asleep then
      exists u :: u in s.pc && s.pc[u] == Asleep && s' == Go(Go(s, t, Idle), u, SecondLoad)
    else
      s' == Go(s, t, Idle)
  }

  /** The value that the second loop tries to store: the flag stays set. */
  function SecondNew(count: Word): Word {
    if Count(count) != 0 then SEM_WAIT + Count(count) - 1 else SEM_WAIT
  }

  ghost predicate Step(s: State, t: Tid, s': State)
    requires t in s.pc
  {
    match s.pc[t]
    case Idle => s' == Go(s, t, WaitLoad) || s' == Go(s, t, PostLoad)
    case WaitLoad => s' == Go(s, t, WaitTry(s.word))
    case WaitTry(count) =>
      if Count(count) == 0 then
        s' == Go(s, t, First(count))
      else
        // a weak compare-and-swap may fail although the word has the expected value
        || (s.word == count && s' == Take(s, t, count - 1, Idle))
        || s' == Go(s, t, WaitTry(s.word))
    case First(count) =>
      if count == 0 then
        || s' == Go(s, t, Announce)
        || (s.word != 0 && s' == Go(s, t, Reload))
      else
        s' == Go(s, t, Second(count))
    case Announce =>
      s' == if s.word == 0 then Go(s.(word := SEM_WAIT), t, Futex) else Go(s, t, Reload)
    case Reload =>
      s' == Go(s, t, if !Flag(s.word) && s.word != 0 then FirstTry(s.word) else First(s.word))
    case FirstTry(count) =>
      s' == if s.word == count then Take(s, t, count - 1, Idle) else Go(s, t, First(s.word))
    case Futex => FutexWait(s, t, s')
    case Asleep => s' == Go(s, t, SecondLoad)
    case SecondLoad => s' == Go(s, t, Second(s.word))
    case Second(count) =>
      if s.word != count then
        s' == Go(s, t, Second(s.word))
      else if Count(count) == 0 then
        // do_wait: the spin may see a change, or time out and call the kernel
        || s' == Go(s.(word := SEM_WAIT), t, Futex)
        || s' == Go(s.(word := SEM_WAIT), t, SecondLoad)
      else
        s' == Take(s, t, SecondNew(count), if Count(count) > 1 then Waking else Idle)
    case PostLoad => s' == Go(s, t, PostTry(s.word))
    case PostTry(count) =>
      || (s.word == count
          && s' == Go(s.(word := Posted(count), posts := s.posts + 1), t, if Flag(count) then Waking else Idle))
      || s' == Go(s, t, PostTry(s.word))
    case Waking => FutexWake(s, t, s')
  }

  ghost predicate Next(s: State, s': State) {
    exists t :: t in s.pc && Step(s, t, s')
  }

  ghost predicate At(s: State, t: Tid, p: Pc) {
    t in s.pc && s.pc[t] == p
  }

  /** The count is what the history says, modulo its 31 bits. */
  ghost predicate Conserved(s: State) {
    (s.initial + s.posts - s.waits - Count(s.word)) % 0x8000_0000 == 0
  }

  /** Awake in the second loop: whatever happens it will set the flag again, or take a unit
      and leave the flag set, passing a wake on when more units are left. */
  ghost predicate InSecondLoop(s: State, t: Tid) {
    t in s.pc && (s.pc[t].Second? || s.pc[t].SecondLoad?)
  }

  ghost predicate NobodyForgotten(s: State) {
    (exists t :: At(s, t, Asleep)) ==>
      || s.word == SEM_WAIT
      || (exists u :: At(s, u, Waking))
      || (exists u :: InSecondLoop(s, u))
  }

  ghost predicate Inv(s: State) {
    Conserved(s) && NobodyForgotten(s)
  }

  /** A decrement of a non-zero count lowers the count by one and keeps the flag. */
  lemma TakeLowers(w: Word)
    requires Count(w) > 0
    ensures Count(w - 1) == Count(w) - 1 && Flag(w - 1) == Flag(w)
    ensures Count(SecondNew(w)) == Count(w) - 1 && Flag(SecondNew(w))
  {
  }

  lemma StepConserves(s: State, t: Tid, s': State)
    requires Conserved(s) && t in s.pc && Step(s, t, s')
    ensures Conserved(s')
  {
    if s'.waits > s.waits {
      TakeLowers(s.word);
    }
  }

  lemma StepForgetsNobody(s: State, t: Tid, s': State)
    requires Inv(s) && t in s.pc && Step(s, t, s')
    ensures NobodyForgotten(s')
  {
    if u :| At(s', u, Asleep) {
      if s.pc[t] == Waking {
        WakeForgetsNobody(s, t, s', u);
      } else if s'.word != SEM_WAIT {
        OtherForgetsNobody(s, t, s', u);
      }
    }
  }

  lemma WakeForgetsNobody(s: State, t: Tid, s': State, u: Tid)
    requires NobodyForgotten(s) && t in s.pc && Step(s, t, s') && s.pc[t] == Waking && At(s', u, Asleep)
    ensures NobodyForgotten(s')
  {
    if v :| v in s.pc && s.pc[v] == Asleep && s' == Go(Go(s, t, Idle), v, SecondLoad) {
      assert InSecondLoop(s', v);
    }
  }

  lemma OtherForgetsNobody(s: State, t: Tid, s': State, u: Tid)
    requires NobodyForgotten(s) && t in s.pc && Step(s, t, s') && s.pc[t] != Waking
    requires At(s', u, Asleep) && s'.word != SEM_WAIT
    ensures NobodyForgotten(s')
  {
    assert At(s, u, Asleep);
    if s.word == SEM_WAIT {
      assert At(s', t, Waking);
    } else if w :| At(s, w, Waking) {
      assert At(s', w, Waking);
    } else {
      var w :| InSecondLoop(s, w);
      assert w != t ==> InSecondLoop(s', w);
      assert w == t ==> InSecondLoop(s', t) || At(s', t, Waking);
    }
  }

  /** In every interleaving the low 31 bits are initial + posts - completed waits, and whenever
      a thread sleeps the word is exactly the flag with count 0, or a wake is pending, or a
      waiter is awake in the second loop. */
  lemma SemaphoreIsSafe(run: seq<State>, k: nat)
    requires IsRun(Init, Next, run) && k < |run|
    ensures Conserved(run[k]) && NobodyForgotten(run[k])
  {
    forall s, s' | Inv(s) && Next(s, s') ensures Inv(s') {
      var t :| t in s.pc && Step(s, t, s');
      StepConserves(s, t, s');
      StepForgetsNobody(s, t, s');
    }
    HoldsAlong(Init, Next, Inv, run, k);
  }

  ghost predicate Exact(s: State) {
    s.initial + s.posts - s.waits == Count(s.word)
  }

  lemma NextKeepsExact(s: State, s': State)
    requires Next(s, s')
    ensures s.initial + s.posts <= s'.initial + s'.posts
    ensures Exact(s) && s'.initial + s'.posts < SEM_WAIT ==> Exact(s')
  {
    var t :| t in s.pc && Step(s, t, s');
    StepCounts(s, t, s');
    hide Step, Count;
  }

  /** A step posts a unit, which adds one to the count unless that was full, or takes one, or
      leaves the count. */
  lemma StepCounts(s: State, t: Tid, s': State)
    requires t in s.pc && Step(s, t, s')
    ensures s'.initial == s.initial
    ensures || (s'.posts == s.posts && s'.waits == s.waits && Count(s'.word) == Count(s.word))
            || (s'.posts == s.posts && s'.waits == s.waits + 1 && Count(s'.word) + 1 == Count(s.word))
            || (s'.posts == s.posts + 1 && s'.waits == s.waits && (Count(s'.word) == Count(s.word) + 1 || Count(s.word) + 1 == SEM_WAIT))
  {
    if s'.waits > s.waits {
      TakeLowers(s.word);
    }
  }
  /** As long as fewer than 2^31 units were ever made available, the count is exactly
      initial + posts - completed waits; so no wait completes without a unit of its own. */
  lemma {:induction false} EveryWaitHasAUnit(run: seq<State>, k: nat)
    requires IsRun(Init, Next, run) && k < |run|
    requires run[k].initial + run[k].posts < SEM_WAIT
    ensures Exact(run[k]) && run[k].waits <= run[k].initial + run[k].posts
  {
    hide Next;
    if k > 0 {
      NextKeepsExact(run[k - 1], run[k]);
      EveryWaitHasAUnit(run, k - 1);
    }
  }

  /** So units never lie unused beside a sleeper that nobody is going to wake. */
  lemma UnitsReachSleepers(run: seq<State>, k: nat, t: Tid)
    requires IsRun(Init, Next, run) && k < |run|
    requires At(run[k], t, Asleep) && Count(run[k].word) > 0
    ensures exists u :: At(run[k], u, Waking) || InSecondLoop(run[k], u)
  {
    SemaphoreIsSafe(run, k);
  }

  /** How many steps a thread in gomp_sem_wait has before it at most while there are units, if its
      compare-and-swaps do not fail without reason. */
  function Way(word: Word, pc: Pc): nat {
    match pc
    case WaitLoad => 2
    case WaitTry(c) => if c == word then 1 else if Count(c) != 0 then 2 else 8
    case First(c) => if c == 0 then 7 else 3
    case Announce => 6
    case Reload => 5
    case FirstTry(c) => if c == word then 1 else 4
    case Futex | Asleep => 3
    case SecondLoad => 2
    case Second(c) => if c == word then 1 else 2
    case _ => 0
  }

  predicate Waits(pc: Pc) {
    !(pc.Idle? || pc.PostLoad? || pc.PostTry? || pc.Waking?)
  }

  /** While there are units, a thread that waits has a step that takes one or brings it nearer. */
  lemma UnitCanBeTaken(s: State, t: Tid) returns (s': State)
    requires t in s.pc && Count(s.word) > 0 && Waits(s.pc[t])
    ensures Step(s, t, s')
    ensures s'.waits == s.waits + 1 || (s'.word == s.word && Waits(s'.pc[t]) && Way(s'.word, s'.pc[t]) < Way(s.word, s.pc[t]))
  {
    var w := s.word;
    match s.pc[t] {
      case WaitLoad => s' := Go(s, t, WaitTry(w));
      case WaitTry(c) =>
        if Count(c) == 0 { s' := Go(s, t, First(c)); }
        else if c == w { s' := Take(s, t, c - 1, Idle); }
        else { s' := Go(s, t, WaitTry(w)); }
      case First(c) => s' := Go(s, t, if c == 0 then Announce else Second(c));
      case Announce => s' := Go(s, t, Reload);
      case Reload => s' := Go(s, t, if !Flag(w) && w != 0 then FirstTry(w) else First(w));
      case FirstTry(c) => s' := if w == c then Take(s, t, c - 1, Idle) else Go(s, t, First(w));
      case SecondLoad => s' := Go(s, t, Second(w));
      case Second(c) =>
        if c == w { s' := SecondTakes(s, t); } else { s' := Go(s, t, Second(w)); }
      case _ => s' := Go(s, t, SecondLoad);
    }
  }

  lemma SecondTakes(s: State, t: Tid) returns (s': State)
    requires t in s.pc && Count(s.word) > 0 && s.pc[t] == Second(s.word)
    ensures Step(s, t, s') && s'.waits == s.waits + 1
  {
    s' :| Step(s, t, s') && s'.waits == s.waits + 1;
  }

  /** How many steps it has before it sleeps while the word is SEM_WAIT. */
  function WayToSleep(pc: Pc): nat {
    match pc
    case Futex => 1
    case Second(c) => if c == SEM_WAIT then 2 else 3
    case SecondLoad => 3
    case First(c) => if c == 0 then 6 else 4
    case Announce => 6
    case Reload | FirstTry(_) => 5
    case WaitTry(c) => if c == SEM_WAIT then 7 else 8
    case WaitLoad => 9
    case _ => 0
  }

  /** While there are none and the flag is set, it can go to sleep. */
  lemma WaiterCanSleep(s: State, t: Tid) returns (s': State)
    requires t in s.pc && s.word == SEM_WAIT && Waits(s.pc[t]) && s.pc[t] != Asleep
    ensures Step(s, t, s') && s'.word == SEM_WAIT
    ensures s'.pc[t] == Asleep || (Waits(s'.pc[t]) && WayToSleep(s'.pc[t]) < WayToSleep(s.pc[t]))
  {
    var w := s.word;
    match s.pc[t] {
      case WaitLoad => s' := Go(s, t, WaitTry(w));
      case WaitTry(c) => s' := Go(s, t, if Count(c) == 0 then First(c) else WaitTry(w));
      case First(c) => s' := Go(s, t, if c == 0 then Reload else Second(c));
      case Announce => s' := Go(s, t, Reload);
      case Reload => s' := Go(s, t, First(w));
      case FirstTry(_) => s' := Go(s, t, First(w));
      case SecondLoad => s' := Go(s, t, Second(w));
      case Second(c) => s' := if c != w then Go(s, t, Second(w)) else Go(s.(word := SEM_WAIT), t, Futex);
      case _ => s' := Go(s, t, Asleep);
    }
  }
}
