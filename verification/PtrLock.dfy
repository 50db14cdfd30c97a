/** The pointer lock of config/linux/ptrlock.h and config/linux/ptrlock.c.

  The word is 0 initially, 1 while its first caller prepares the pointer, 2 when in addition
  somebody may be asleep, and the pointer itself, a value above 2, from then on.  As the source
  does, the model relies on the 32 bits that the futex compares never being 1 or 2 for a pointer.
 */
module PtrLock {
  import opened Runs

  type Tid = nat
  type Pointer = p: nat | p > 2 witness 3

  datatype Pc =
    | Idle
    | Load                     // first load of gomp_ptrlock_get
    | Try                      // compare-and-swap 0 to 1
    | Mark                     // compare-and-swap 1 to 2, result ignored
    | Wait                     // inside do_wait (ptrlock, 2)
    | Asleep                   // in the wait set
    | Recheck                  // loop test: is the word still 2?
    | Final                    // last load
    | Preparing                // got NULL: must call gomp_ptrlock_set
    | Waking                   // exchanged something other than 1 away: wake everybody
    | Got(value: nat)          // got a non-NULL result

  /** `initialisers` is history: the threads whose get returned NULL. */
  datatype State = State(word: nat, initialisers: seq<Tid>, pc: map<Tid, Pc>)

  function Go(s: State, t: Tid, p: Pc): State {
    s.(pc := s.pc[t := p])
  }

  ghost predicate Init(s: State) {
    && s.word == 0 && s.initialisers == []
    && forall t | t in s.pc :: s.pc[t] == Idle
  }

  /** futex_wake with count INT_MAX: every sleeper leaves the wait set. */
  function WakeAll(s: State): State {
    s.(pc := map t | t in s.pc :: if s.pc[t] == Asleep then Recheck else s.pc[t])
  }

  ghost predicate Step(s: State, t: Tid, s': State)
    requires t in s.pc
  {
    match s.pc[t]
    case Idle => s' == Go(s, t, Load)
    case Load => s' == Go(s, t, if s.word > 2 then Got(s.word) else Try)
    case Try =>
      s' == if s.word == 0 then
              State(1, s.initialisers + [t], s.pc[t := Preparing])
            else
              Go(s, t, Mark)
    case Mark => s' == Go(if s.word == 1 then s.(word := 2) else s, t, Wait)
    case Wait =>
      || s' == Go(s, t, if s.word == 2 then Asleep else Recheck)
      || (s.word != 2 && s' == Go(s, t, Recheck))
    case Asleep => s' == Go(s, t, Recheck)
    case Recheck => s' == Go(s, t, if s.word == 2 then Wait else Final)
    case Final => s' == Go(s, t, Got(s.word))
    case Preparing =>
      exists p: Pointer :: s' == Go(s.(word := p), t, if s.word != 1 then Waking else Idle)
    case Waking => s' == Go(WakeAll(s), t, Idle)
    case Got(_) => s' == Go(s, t, Idle)
  }

  ghost predicate Next(s: State, s': State) {
    exists t :: t in s.pc && Step(s, t, s')
  }

  ghost predicate At(s: State, t: Tid, p: Pc) {
    t in s.pc && s.pc[t] == p
  }

  /** Exactly one thread was told to initialise once anybody asked; it is the only one
      preparing, and the word is 1 or 2 exactly while it does. */
  ghost predicate OneInitialiser(s: State) {
    && (s.word == 0 <==> s.initialisers == [])
    && |s.initialisers| <= 1
    && (forall t: Tid :: At(s, t, Preparing) ==> s.initialisers == [t])
    && (s.word in {1, 2} ==> exists t :: At(s, t, Preparing))
    && (s.word > 2 ==> forall t :: !At(s, t, Preparing))
  }

  /** Nobody is past the first loop before the pointer is there, so no get returns 0, 1 or 2;
      all results agree with the word. */
  ghost predicate ResultsAgree(s: State) {
    forall t | t in s.pc ::
      && (s.pc[t] in {Wait, Recheck, Asleep} ==> s.word >= 2)
      && (s.pc[t] == Mark ==> s.word >= 1)
      && (s.pc[t] == Final ==> s.word > 2)
      && (s.pc[t].Got? ==> s.pc[t].value == s.word > 2)
  }

  ghost predicate NobodyForgotten(s: State) {
    (exists t :: At(s, t, Asleep)) ==> s.word == 2 || exists u :: At(s, u, Waking)
  }

  ghost predicate Inv(s: State) {
    OneInitialiser(s) && ResultsAgree(s) && NobodyForgotten(s)
  }

  lemma StepKeepsInv(s: State, t: Tid, s': State)
    requires Inv(s) && t in s.pc && Step(s, t, s')
    ensures Inv(s')
  {
    StepKeepsOne(s, t, s');
    StepKeepsResults(s, t, s');
    StepForgetsNobody(s, t, s');
    hide OneInitialiser, ResultsAgree, NobodyForgotten, Step;
  }

  lemma StepKeepsOne(s: State, t: Tid, s': State)
    requires Inv(s) && t in s.pc && Step(s, t, s')
    ensures OneInitialiser(s')
  {
    hide NobodyForgotten;
    assert forall u :: u != t && At(s', u, Preparing) ==> At(s, u, Preparing);
    assert forall u :: u != t && At(s, u, Preparing) ==> At(s', u, Preparing);
    if s'.word in {1, 2} {
      if s.word == 0 {
        assert At(s', t, Preparing);
      } else {
        var u :| At(s, u, Preparing);
        assert At(s', u, Preparing);
      }
    }
    if s.pc[t] == Preparing {
      assert At(s, t, Preparing);
    }
  }

  lemma StepKeepsResults(s: State, t: Tid, s': State)
    requires Inv(s) && t in s.pc && Step(s, t, s')
    ensures ResultsAgree(s')
  {
    if s.pc[t] == Preparing {
      assert At(s, t, Preparing);
    }
    hide NobodyForgotten;
  }

  lemma StepForgetsNobody(s: State, t: Tid, s': State)
    requires Inv(s) && t in s.pc && Step(s, t, s')
    ensures NobodyForgotten(s')
  {
    hide OneInitialiser;
    if u :| At(s', u, Asleep) && s'.word != 2 {
      assert At(s, u, Asleep);
      if s.word == 2 {
        assert At(s', t, Waking);
      } else {
        var w :| At(s, w, Waking);
        assert At(s', w, Waking);
      }
    }
  }
  /** In every interleaving exactly one get returns NULL, every other get returns the pointer
      that its caller stored, and nobody sleeps once that is stored and announced. */
  lemma PtrLockIsSafe(run: seq<State>, k: nat)
    requires IsRun(Init, Next, run) && k < |run|
    ensures OneInitialiser(run[k]) && ResultsAgree(run[k]) && NobodyForgotten(run[k])
  {
    forall s, s' | Inv(s) && Next(s, s') ensures Inv(s') {
      var t :| t in s.pc && Step(s, t, s');
      StepKeepsInv(s, t, s');
    }
    HoldsAlong(Init, Next, Inv, run, k);
  }

  lemma NextKeepsPointer(s: State, s': State)
    requires OneInitialiser(s) && Next(s, s') && s.word > 2
    ensures s'.word == s.word
  {
    var t :| t in s.pc && Step(s, t, s');
    assert !At(s, t, Preparing);
  }

  /** The pointer never changes once it is there: all gets of a run agree. */
  lemma {:induction false} PointerIsStable(run: seq<State>, j: nat, k: nat)
    requires IsRun(Init, Next, run) && j <= k < |run|
    requires run[j].word > 2
    ensures run[k].word == run[j].word
  {
    if j < k {
      PointerIsStable(run, j, k - 1);
      assert OneInitialiser(run[k - 1]) by { PtrLockIsSafe(run, k - 1); }
      NextKeepsPointer(run[k - 1], run[k]);
    }
  }

  /** How many steps a thread in gomp_ptrlock_get has before it at most once the pointer is there. */
  function Way(pc: Pc): nat {
    match pc
    case Load | Final => 1
    case Recheck => 2
    case Wait | Asleep => 3
    case Mark => 4
    case Try => 5
    case _ => 0
  }

  predicate Getting(pc: Pc) {
    !(pc.Idle? || pc.Preparing? || pc.Waking? || pc.Got?)
  }

  /** Once the pointer is there, a thread that asks for it can go on, and each of its steps gets it or
      brings it nearer. */
  lemma PointerIsGot(s: State, t: Tid)
    requires t in s.pc && s.word > 2 && Getting(s.pc[t])
    ensures exists s' :: Step(s, t, s')
    ensures forall s' | Step(s, t, s') ::
              s'.pc[t] == Got(s.word) || (s'.word == s.word && Getting(s'.pc[t]) && Way(s'.pc[t]) < Way(s.pc[t]))
  {
    var p := match s.pc[t]
      case Load | Final => Got(s.word)
      case Try => Mark
      case Mark => Wait
      case Recheck => Final
      case _ => Recheck;
    assert Step(s, t, Go(s, t, p));
  }

  /** And until it is there somebody is preparing it. */
  lemma SomebodyPrepares(run: seq<State>, k: nat)
    requires IsRun(Init, Next, run) && k < |run| && run[k].word in {1, 2}
    ensures exists t :: At(run[k], t, Preparing)
  {
    PtrLockIsSafe(run, k);
  }

  /** How many steps it has before it sleeps while the word is 2. */
  function WayToSleep(pc: Pc): nat {
    match pc
    case Wait => 1
    case Mark | Recheck => 2
    case Try => 3
    case Load => 4
    case _ => 0
  }

  /** While the pointer is being prepared and the word is 2, a thread that asks for it can go to sleep. */
  lemma WaiterCanSleep(s: State, t: Tid) returns (s': State)
    requires t in s.pc && s.word == 2 && Getting(s.pc[t]) && s.pc[t] !in {Asleep, Final}
    ensures Step(s, t, s') && s'.word == 2
    ensures s'.pc[t] == Asleep || (Getting(s'.pc[t]) && WayToSleep(s'.pc[t]) < WayToSleep(s.pc[t]))
  {
    var p := match s.pc[t]
      case Load => Try
      case Try => Mark
      case Wait => Asleep
      case _ => Wait;
    s' := Go(s, t, p);
  }
}
