/** The futex mutex of config/linux/mutex.h and config/linux/mutex.c.

  The lock word is 0 when free, 1 when held, and -1 when held while somebody may be asleep.
  Each constructor of `Pc` is a point of gomp_mutex_lock, gomp_mutex_lock_slow or
  gomp_mutex_unlock just before one atomic operation on the word or one futex call.
  do_spin may give up at any time; it reports a change only after reading a changed word.
  A sleeping thread may return from the kernel at any time (a signal or a spurious wake).
 */
module Mutex {
  import opened Runs

  type Tid = nat

  datatype Pc =
    | Idle                 // outside the lock
    | Fast                 // about to compare-and-swap 0 to 1
    | First(oldval: int)   // test of the first loop, while oldval is 1
    | Spinning             // inside do_spin (mutex, 1)
    | Retry                // do_spin saw a change: compare-and-swap 0 to 1
    | Announce             // spin timed out: exchange with -1
    | Futex                // about to call futex_wait (mutex, -1)
    | Asleep               // in the wait set of the word
    | Second               // about to exchange with -1 in the second loop
    | Doze                 // inside do_wait of the second loop, before the futex call
    | Owner                // holds the lock
    | Waking               // exchanged a negative word away: about to call futex_wake (mutex, 1)

  datatype State = State(word: int, pc: map<Tid, Pc>)

  function Go(s: State, t: Tid, p: Pc): State {
    s.(pc := s.pc[t := p])
  }

  function Write(s: State, w: int, t: Tid, p: Pc): State {
    State(w, s.pc[t := p])
  }

  ghost predicate Init(s: State) {
    && s.word == 0
    && forall t | t in s.pc :: s.pc[t] == Idle
  }

  /** futex_wait with expected value -1: sleep only if the word still is -1. */
  ghost predicate FutexWait(s: State, t: Tid, s': State) {
    s' == Go(s, t, if s.word == -1 then Asleep else Second)
  }

  /** futex_wake with count 1: some sleeper, if there is one, leaves the wait set. */
  ghost predicate FutexWake(s: State, t: Tid, s': State) {
    if exists u :: u in s.pc && s.pc[u] == Asleep then
      exists u :: u in s.pc && s.pc[u] == Asleep && s' == Go(Go(s, t, Idle), u, Second)
    else
      s' == Go(s, t, Idle)
  }

  ghost predicate Step(s: State, t: Tid, s': State)
    requires t in s.pc
  {
    match s.pc[t]
    case Idle => s' == Go(s, t, Fast)
    case Fast =>
      s' == if s.word == 0 then Write(s, 1, t, Owner) else Go(s, t, First(s.word))
    case First(oldval) =>
      s' == Go(s, t, if oldval == 1 then Spinning else Second)
    case Spinning =>
      || s' == Go(s, t, Announce)
      || (s.word != 1 && s' == Go(s, t, Retry))
    case Retry =>
      s' == if s.word == 0 then Write(s, 1, t, Owner) else Go(s, t, First(s.word))
    case Announce =>
      s' == Write(s, -1, t, if s.word == 0 then Owner else Futex)
    case Futex => FutexWait(s, t, s')
    case Asleep => s' == Go(s, t, Second)
    case Second =>
      s' == Write(s, -1, t, if s.word == 0 then Owner else Doze)
    case Doze =>
      || FutexWait(s, t, s')
      || (s.word != -1 && s' == Go(s, t, Second))
    case Owner =>
      s' == Write(s, 0, t, if s.word < 0 then Waking else Idle)
    case Waking => FutexWake(s, t, s')
  }

  ghost predicate Next(s: State, s': State) {
    exists t :: t in s.pc && Step(s, t, s')
  }

  ghost predicate At(s: State, t: Tid, p: Pc) {
    t in s.pc && s.pc[t] == p
  }

  ghost predicate Held(s: State) {
    exists t :: At(s, t, Owner)
  }

  /** At most one owner, and the word tells whether there is one. */
  ghost predicate Exclusive(s: State) {
    && s.word in {0, 1, -1}
    && (forall t, u :: At(s, t, Owner) && At(s, u, Owner) ==> t == u)
    && (s.word == 0 <==> !Held(s))
  }

  /** Whenever somebody sleeps, the next unlock will wake, or a wake is on its way, or an awake
      thread will store -1 before it owns or sleeps. */
  ghost predicate NobodyForgotten(s: State) {
    (exists t :: At(s, t, Asleep)) ==>
      || s.word == -1
      || (exists u :: At(s, u, Waking))
      || (exists u :: At(s, u, Second))
  }

  ghost predicate Inv(s: State) {
    Exclusive(s) && NobodyForgotten(s)
  }

  lemma StepKeepsExclusive(s: State, t: Tid, s': State)
    requires Exclusive(s) && t in s.pc && Step(s, t, s')
    ensures Exclusive(s')
  {
    assert forall u :: u != t && At(s', u, Owner) ==> At(s, u, Owner);
    if s.pc[t] == Owner {
      assert At(s, t, Owner);
      assert !Held(s');
    } else {
      assert forall u :: At(s, u, Owner) ==> At(s', u, Owner);
      if At(s', t, Owner) {
        assert !Held(s);
      }
    }
  }

  lemma StepForgetsNobody(s: State, t: Tid, s': State)
    requires NobodyForgotten(s) && t in s.pc && Step(s, t, s')
    ensures NobodyForgotten(s')
  {
    if u :| At(s', u, Asleep) {
      if s.pc[t] == Waking {
        if v :| v in s.pc && s.pc[v] == Asleep && s' == Go(Go(s, t, Idle), v, Second) {
          assert At(s', v, Second);
        } else {
          assert At(s, u, Asleep);
        }
      } else if s'.word != -1 {
        assert At(s, u, Asleep);
        if s.word == -1 {
          assert At(s', t, Waking);
        } else if w :| At(s, w, Waking) {
          assert At(s', w, Waking);
        } else {
          var w :| At(s, w, Second);
          assert w != t;
          assert At(s', w, Second);
        }
      }
    }
  }

  /** In every interleaving of any number of threads at most one holds the lock, the word is 0
      exactly when nobody does, and no sleeper is forgotten. */
  lemma MutexIsSafe(run: seq<State>, k: nat)
    requires IsRun(Init, Next, run) && k < |run|
    ensures Exclusive(run[k]) && NobodyForgotten(run[k])
  {
    forall s, s' | Inv(s) && Next(s, s') ensures Inv(s') {
      var t :| t in s.pc && Step(s, t, s');
      StepKeepsExclusive(s, t, s');
      StepForgetsNobody(s, t, s');
    }
    HoldsAlong(Init, Next, Inv, run, k);
  }

  /** So the lock never stalls: if nobody holds it while somebody sleeps, another thread is
      awake and is about to wake the sleeper or to take the lock. */
  lemma FreeLockHasAnAwakeThread(run: seq<State>, k: nat, t: Tid)
    requires IsRun(Init, Next, run) && k < |run|
    requires At(run[k], t, Asleep) && !Held(run[k])
    ensures exists u :: u != t && (At(run[k], u, Waking) || At(run[k], u, Second))
  {
    MutexIsSafe(run, k);
  }

  /** How many steps a thread that wants the lock has before it at most while the lock is free. */
  function Way(pc: Pc): nat {
    match pc
    case Fast | Retry | Announce | Second => 1
    case Spinning | Futex | Doze | Asleep => 2
    case First(_) => 3
    case _ => 0
  }

  predicate Wants(pc: Pc) {
    !(pc.Idle? || pc.Owner? || pc.Waking?)
  }

  /** A thread that wants a free lock can go on, and each of its steps takes the lock or brings it
      nearer. */
  lemma FreeLockIsTaken(s: State, t: Tid)
    requires t in s.pc && s.word == 0 && Wants(s.pc[t])
    ensures exists s' :: Step(s, t, s')
    ensures forall s' | Step(s, t, s') ::
              s'.pc[t] == Owner || (s'.word == 0 && Wants(s'.pc[t]) && Way(s'.pc[t]) < Way(s.pc[t]))
  {
    var p := match s.pc[t]
      case Fast | Retry | Announce | Second => Owner
      case Spinning => Announce
      case First(oldval) => if oldval == 1 then Spinning else Second
      case _ => Second;
    var w := match s.pc[t]
      case Fast | Retry => 1
      case Announce | Second => -1
      case _ => 0;
    assert Step(s, t, Write(s, w, t, p));
  }

  /** How many steps it has before it sleeps while the word is -1. */
  function WayToSleep(pc: Pc): nat {
    match pc
    case Futex | Doze => 1
    case Announce | Second => 2
    case Spinning => 3
    case First(_) => 4
    case Fast | Retry => 5
    case _ => 0
  }

  /** And beside a lock that is held with the word at -1, it can go to sleep. */
  lemma WaiterCanSleep(s: State, t: Tid) returns (s': State)
    requires t in s.pc && s.word == -1 && Wants(s.pc[t]) && s.pc[t] != Asleep
    ensures Step(s, t, s') && s'.word == -1
    ensures s'.pc[t] == Asleep || (Wants(s'.pc[t]) && WayToSleep(s'.pc[t]) < WayToSleep(s.pc[t]))
  {
    var p := match s.pc[t]
      case Futex | Doze => Asleep
      case Announce => Futex
      case Second => Doze
      case Spinning => Announce
      case First(oldval) => if oldval == 1 then Spinning else Second
      case _ => First(-1);
    s' := Write(s, -1, t, p);
    assert s' == Go(s, t, p);
  }
}
