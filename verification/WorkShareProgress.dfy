/** The chain of work shares, the other half: nobody is stuck, every thread goes on from construct to
    construct, and new memory is only taken when nothing is left to reuse (work.c:38-87, 136-161,
    168-200, 205-233 and 264-297).  `WorkShareSteps` has the protocol, `WorkShare` says that it is safe.
 */
module WorkShareProgress {
  import opened Options
  import opened Collections
  import opened Runs
  import opened WorkShareSteps
  import opened WorkShareBlocks
  import opened WorkShareThreads
  import opened WorkShareCounts
  import opened WorkShare

  // ---------------------------------------------------------------- who sets and who releases

  /** The thread that is setting next_ws of the block of construct j. */
  ghost predicate Sets(th: Thread, j: nat) {
    Allocating(th.pc) && if th.pc.Publishing? then th.cur == j + 1 else th.cur == j
  }

  /** While next_ws of a block says that somebody is setting it, somebody is; and when all have arrived at
      a barrier, somebody is about to release it. */
  ghost predicate Tended(s: State) {
    && (forall j: nat | s.sh.freed <= j && BeingSet(s.sh, j) ::
          exists u :: u in s.threads && s.sh.allocator == Some(u) && Sets(s.threads[u], j))
    && (s.sh.awaited == 0 ==> s.sh.lastIn != None)
  }

  ghost predicate Live(bar: nat -> bool, s: State) {
    Inv(bar, s) && Tended(s)
  }

  /** How a step changes that. */
  lemma BarrierMoves(n: nat, bar: nat -> bool, sh: Shared, t: Tid, th: Thread, sh': Shared, th': Thread)
    requires n > 0 && Step(n, bar, sh, t, th, sh', th')
    ensures (sh.awaited == 0 ==> sh.lastIn != None) ==> (sh'.awaited == 0 ==> sh'.lastIn != None)
  {
    hide GrownLinks, GrownCounts, GrownHome, MoveHome, NewBlocks;
  }

  lemma NewWordIsUnset(n: nat, bar: nat -> bool, sh: Shared, t: Tid, th: Thread, sh': Shared, th': Thread)
    requires Step(n, bar, sh, t, th, sh', th') && |sh'.blk| > |sh.blk|
    ensures !BeingSet(sh', |sh.blk|) && |sh'.blk| == |sh.blk| + 1
  {
    hide GrownLinks, GrownCounts, GrownHome, MoveHome, NewBlocks;
  }

  /** The thread that sets a word goes on doing so until it is set. */
  lemma SetterGoesOn(n: nat, bar: nat -> bool, sh: Shared, t: Tid, th: Thread, sh': Shared, th': Thread, j: nat)
    requires Step(n, bar, sh, t, th, sh', th') && Sets(th, j) && SharedOk(sh) && PlaceOk(sh, th)
    requires sh.freed <= j < |sh.blk| <= |sh'.blk| && sh'.blk[..|sh.blk|] == sh.blk
    ensures Sets(th', j) || !BeingSet(sh', j)
  {
    CurIsBlock(sh, th, j);
    assert th.pc.Publishing? ==> th.last == sh.blk[j];
    assert sh'.blk[..|sh.blk|][j] == sh'.blk[j];
    assert AllocStep(sh, th, sh', th');
    hide SharedOk, PlaceOk, Step;
    SetterAllocates(sh, th, sh', th', j);
  }

  lemma SetterAllocates(sh: Shared, th: Thread, sh': Shared, th': Thread, j: nat)
    requires AllocStep(sh, th, sh', th') && Sets(th, j) && j < |sh.blk| <= |sh'.blk| && sh'.blk[j] == sh.blk[j]
    requires th.pc.Publishing? ==> th.last == sh.blk[j] && th.ws > 2
    ensures Sets(th', j) || !BeingSet(sh', j)
  {
    hide GrownLinks, GrownCounts, GrownHome, MoveHome, NewBlocks;
  }

  lemma CurIsBlock(sh: Shared, th: Thread, j: nat)
    requires Sets(th, j) && SharedOk(sh) && PlaceOk(sh, th) && sh.freed <= j
    ensures th.ws == sh.blk[th.cur] && sh.blk[th.cur] in sh.home && sh.blk[th.cur] > 2
  {
    hide ListsOk;
  }

  /** The thread that frees the block of construct freed does not set its word to 1 or 2. */
  lemma PusherSetsNone(n: nat, bar: nat -> bool, sh: Shared, t: Tid, th: Thread, sh': Shared, th': Thread)
    requires Step(n, bar, sh, t, th, sh', th') && SharedOk(sh) && ThreadOk(bar, sh, t, th)
    requires sh.pusher == Some(t) && BeingSet(sh', sh.freed) && sh'.freed == sh.freed
    ensures BeingSet(sh, sh.freed)
  {
    hide GrownLinks, GrownCounts, GrownHome, MoveHome, NewBlocks;
    assert Pushing(th.pc);
    FreeHeadIsBlock(sh);
  }

  lemma FreeHeadIsBlock(sh: Shared)
    requires SharedOk(sh)
    ensures sh.listFree == 0 || sh.listFree > 2
  {
    assert sh.freeSeq != [] ==> sh.freeSeq[0] in sh.freeSeq && LinksOn(sh.link, sh.freeSeq, 0);
  }

  lemma StepTended(bar: nat -> bool, s: State, t: Tid, s': State)
    requires Live(bar, s) && t in s.threads && StepOf(bar, s, t, s')
    ensures Live(bar, s')
  {
    var n, sh, th, sh', th' := |s.threads.Keys|, s.sh, s.threads[t], s'.sh, s'.threads[t];
    StepKeepsInv(bar, s, t, s');
    StepAlone(bar, s, t, s');
    AllocatorLinksHold(bar, s);
    assert ThreadOk(bar, sh, t, th) && SharedOk(sh) && CountsOk(bar, s);
    assert n > 0;
    hide Inv, ThreadOk, SharedOk, CountsOk, Step, AllocatorLinks, EndAlone;
    StepGuarantees(n, bar, sh, t, th, sh', th');
    BarrierMoves(n, bar, sh, t, th, sh', th');
    forall j: nat | sh'.freed <= j && BeingSet(sh', j)
      ensures exists u :: u in s'.threads && sh'.allocator == Some(u) && Sets(s'.threads[u], j)
    {
      WordTended(bar, s, t, s', j);
    }
  }

  lemma WordTended(bar: nat -> bool, s: State, t: Tid, s': State, j: nat)
    requires Live(bar, s) && t in s.threads && StepOf(bar, s, t, s') && Inv(bar, s')
    requires Guarantee(s.sh, t, s.threads[t], s'.sh) && s'.sh.freed <= j && BeingSet(s'.sh, j)
    ensures exists u :: u in s'.threads && s'.sh.allocator == Some(u) && Sets(s'.threads[u], j)
  {
    var n, sh, th, sh', th' := |s.threads.Keys|, s.sh, s.threads[t], s'.sh, s'.threads[t];
    Holds(bar, s, t);
    hide Inv, SharedOk, CountsOk, Step, ThreadOk, ListsMove, LinkMoves, Sets, BeingSet;
    OldWord(n, bar, sh, t, th, sh', th', j);
    hide ChainMoves;
    if !BeingSet(sh, j) {
      NowSets(n, bar, sh, t, th, sh', th', j);
      assert t in s'.threads && sh'.allocator == Some(t) && Sets(th', j);
    } else {
      var u :| u in s.threads && sh.allocator == Some(u) && Sets(s.threads[u], j);
      SetterStays(bar, s, t, s', j, u);
    }
  }

  /** A word of a block in use that is being set was there before the step. */
  lemma OldWord(n: nat, bar: nat -> bool, sh: Shared, t: Tid, th: Thread, sh': Shared, th': Thread, j: nat)
    requires Step(n, bar, sh, t, th, sh', th') && ChainMoves(sh, t, th, sh') && BeingSet(sh', j) && sh'.freed <= j
    ensures sh.freed <= sh'.freed <= j < |sh.blk| <= |sh'.blk| && sh'.blk[..|sh.blk|] == sh.blk
  {
    if |sh'.blk| > |sh.blk| { NewWordIsUnset(n, bar, sh, t, th, sh', th'); }
    hide Step;
    assert sh'.blk == sh.blk ==> sh'.blk[..|sh.blk|] == sh.blk;
  }

  lemma NowSets(n: nat, bar: nat -> bool, sh: Shared, t: Tid, th: Thread, sh': Shared, th': Thread, j: nat)
    requires Step(n, bar, sh, t, th, sh', th') && SharedOk(sh) && ThreadOk(bar, sh, t, th)
    requires sh.freed <= sh'.freed <= j < |sh.blk| <= |sh'.blk| && sh'.blk[..|sh.blk|] == sh.blk && LinkMoves(sh, t, th, sh', j)
    requires !BeingSet(sh, j) && BeingSet(sh', j)
    ensures sh'.allocator == Some(t) && Sets(th', j)
  {
    hide SharedOk, ThreadOk, Step;
    if sh.pusher == Some(t) && j == sh.freed { PusherSetsNone(n, bar, sh, t, th, sh', th'); }
    assert sh'.blk[j] == sh'.blk[..|sh.blk|][j];
    GetterSets(n, bar, sh, t, th, sh', th', j);
  }

  lemma GetterSets(n: nat, bar: nat -> bool, sh: Shared, t: Tid, th: Thread, sh': Shared, th': Thread, j: nat)
    requires Step(n, bar, sh, t, th, sh', th') && ThreadOk(bar, sh, t, th) && th.pc == Getting && j == th.cur < |sh.blk|
    requires sh.blk[j] in sh.link && sh.link[sh.blk[j]] == 0 && BeingSet(sh', j)
    ensures sh'.allocator == Some(t) && Sets(th', j)
  {
    assert th.last == sh.blk[j];
    hide ThreadOk, PushStep, BarrierStep;
  }

  lemma SetterStays(bar: nat -> bool, s: State, t: Tid, s': State, j: nat, u: Tid)
    requires Inv(bar, s) && t in s.threads && StepOf(bar, s, t, s') && Inv(bar, s')
    requires s.sh.freed <= j < |s.sh.blk| <= |s'.sh.blk| && s'.sh.blk[..|s.sh.blk|] == s.sh.blk
    requires BeingSet(s'.sh, j) && u in s.threads && Sets(s.threads[u], j)
    ensures u in s'.threads && s'.sh.allocator == Some(u) && Sets(s'.threads[u], j)
  {
    Holds(bar, s, t);
    Holds(bar, s', u);
    assert TokensOk(bar, s'.sh, u, s'.threads[u]) by { Parts(bar, s'.sh, u, s'.threads[u]); }
    hide Inv, SharedOk, CountsOk, ThreadOk;
    if u == t {
      assert PlaceOk(s.sh, s.threads[t]) by { Parts(bar, s.sh, t, s.threads[t]); }
      hide Step, PlaceOk;
      SetterGoesOn(|s.threads.Keys|, bar, s.sh, t, s.threads[t], s'.sh, s'.threads[t], j);
    }
    hide Step;
  }

  lemma InitIsLive(bar: nat -> bool, s: State)
    requires Init(s)
    ensures Live(bar, s)
  {
    InitHasInv(bar, s);
    hide GrownCounts, GrownHome, MoveHome, Inv;
    var base: Block :| base > 2 && InitAt(s, base);
  }

  lemma LiveAlong(bar: nat -> bool, run: seq<State>, k: nat)
    requires IsTeamRun(bar, run) && k < |run|
    ensures Live(bar, run[k])
  {
    hide Live, Init, StepOf;
    var live := s => Live(bar, s);
    forall s | Init(s) ensures live(s) {
      InitIsLive(bar, s);
    }
    forall s, s' | live(s) && Next(bar, s, s') ensures live(s') {
      var t :| t in s.threads && StepOf(bar, s, t, s');
      StepTended(bar, s, t, s');
    }
    HoldsAlong(Init, (s, s') => Next(bar, s, s'), live, run, k);
    assert live(run[k]);
  }

  // ---------------------------------------------------------------- every thread goes on

  /** The way from one construct to the next. */
  function Way(pc: Pc): nat {
    match pc
    case Publishing => 22
    case Waking => 21
    case Inside => 20
    case Push => 19
    case PushLink(_) => 18
    case PushSwap(_) => 17
    case Releasing => 16
    case Waiting(_) => 16
    case Idle => 15
    case Getting => 14
    case Pop => 13
    case Peek(_) => 12
    case Cut(_, _) => 11
    case Grow => 10
    case Take(_) => 9
    case Fresh(_) => 8
  }

  ghost predicate GoesOn(th: Thread, th': Thread) {
    || th'.cur == th.cur + 1
    || (th'.cur == th.cur && Way(th'.pc) < Way(th.pc))
    || (th' == th && (th.pc == Getting || th.pc.Waiting?))
  }

  /** Whenever a step of a thread changes where it is, that is one construct further or nearer to the next
      one; no step leads back.  What else it may do is to say that it waits. */
  lemma EveryStepGoesOn(bar: nat -> bool, run: seq<State>, k: nat, t: Tid, s': State)
    requires IsTeamRun(bar, run) && k < |run| && t in run[k].threads && StepOf(bar, run[k], t, s')
    ensures GoesOn(run[k].threads[t], s'.threads[t])
  {
    InvAlong(bar, run, k);
    var s := run[k];
    Holds(bar, s, t);
    Parts(bar, s.sh, t, s.threads[t]);
    assert s.threads[t].pc.PushSwap? ==> s.threads[t].pc.r == s.sh.listFree;
    hide Inv, IsTeamRun, SharedOk, ThreadOk, CountsOk, PlaceOk, TokensOk, AllocatorOk, PublishedOk, BarrierOk, PusherOk;
    StepGoesOn(|s.threads.Keys|, bar, s.sh, t, s.threads[t], s'.sh, s'.threads[t]);
  }

  lemma StepGoesOn(n: nat, bar: nat -> bool, sh: Shared, t: Tid, th: Thread, sh': Shared, th': Thread)
    requires Step(n, bar, sh, t, th, sh', th') && (th.pc.PushSwap? ==> th.pc.r == sh.listFree)
    ensures GoesOn(th, th')
  {
    hide AllocStep, StartStep, PushStep, EndStep, BarrierStep, GoesOn;
    if AllocStep(sh, th, sh', th') {
      AllocGoesOn(sh, th, sh', th');
    } else if th.pc == Inside && EndStep(n, bar, sh, t, th, sh', th') {
      EndGoesOn(n, bar, sh, t, th, sh', th');
    } else {
      OtherGoesOn(n, bar, sh, t, th, sh', th');
    }
  }

  lemma AllocGoesOn(sh: Shared, th: Thread, sh': Shared, th': Thread)
    requires AllocStep(sh, th, sh', th')
    ensures GoesOn(th, th')
  {
    hide GrownLinks, GrownCounts, GrownHome, MoveHome, NewBlocks;
  }

  lemma EndGoesOn(n: nat, bar: nat -> bool, sh: Shared, t: Tid, th: Thread, sh': Shared, th': Thread)
    requires th.pc == Inside && EndStep(n, bar, sh, t, th, sh', th')
    ensures GoesOn(th, th')
  {
  }

  lemma OtherGoesOn(n: nat, bar: nat -> bool, sh: Shared, t: Tid, th: Thread, sh': Shared, th': Thread)
    requires PushStep(bar, sh, th, sh', th') || BarrierStep(n, sh, th, sh', th') || StartStep(sh, t, th, sh', th')
    requires th.pc.PushSwap? ==> th.pc.r == sh.listFree
    ensures GoesOn(th, th')
  {
  }

  // ---------------------------------------------------------------- somebody can

  ghost predicate CanMove(bar: nat -> bool, s: State) {
    exists t: Tid, s': State :: t in s.threads && StepOf(bar, s, t, s') && s'.threads[t] != s.threads[t]
  }

  lemma GoTo(bar: nat -> bool, s: State, t: Tid, sh': Shared, th': Thread)
    requires t in s.threads && Step(|s.threads.Keys|, bar, s.sh, t, s.threads[t], sh', th') && th' != s.threads[t]
    ensures CanMove(bar, s)
  {
    var s' := State(sh', s.threads[t := th']);
    assert s'.threads[t] == th';
    hide Step;
    assert StepOf(bar, s, t, s');
  }

  /** A thread inside a construct, freeing a block or releasing a barrier. */
  lemma EnderMoves(bar: nat -> bool, s: State, t: Tid)
    requires t in s.threads && s.threads[t].ws in s.sh.completed
    requires var pc := s.threads[t].pc; pc.Inside? || Pushing(pc) || pc.Releasing? || pc.Idle? || pc.Waking? || pc.Publishing? || pc.Fresh?
    ensures CanMove(bar, s)
  {
    var n, sh, th := |s.threads.Keys|, s.sh, s.threads[t];
    match th.pc {
      case Inside => InsiderMoves(bar, s, t);
      case Push => GoTo(bar, s, t, sh, th.(pc := PushLink(sh.listFree)));
      case PushLink(r) => GoTo(bar, s, t, sh.(link := sh.link[th.last := r]), th.(pc := PushSwap(r)));
      case PushSwap(r) =>
        if sh.listFree == r {
          GoTo(bar, s, t,
               sh.(listFree := th.last, freed := sh.freed + 1, freeSeq := [th.last] + sh.freeSeq,
                   home := sh.home[th.last := OnFree], pusher := None),
               if bar(th.cur) then th.(pc := Releasing) else th.(last := 0, pc := Idle));
        } else {
          GoTo(bar, s, t, sh, th.(pc := Push));
        }
      case Releasing =>
        GoTo(bar, s, t, sh.(awaited := n, gen := sh.gen + 1, lastIn := None, lastBarrier := th.cur), th.(last := 0, pc := Idle));
      case Idle => GoTo(bar, s, t, sh, th.(last := th.ws, pc := Getting));
      case Waking => GoTo(bar, s, t, sh, th.(pc := Inside));
      case Publishing => GoTo(bar, s, t, sh.(link := sh.link[th.last := th.ws], allocator := None), th.(pc := Waking));
      case Fresh(b) =>
        GoTo(bar, s, t,
             sh.(link := sh.link[b := 0], completed := sh.completed[b := 0], blk := sh.blk + [b], taken := [],
                 home := sh.home[b := InUse(|sh.blk|)]),
             th.(cur := th.cur + 1, ws := b, pc := Publishing));
    }
  }

  lemma InsiderMoves(bar: nat -> bool, s: State, t: Tid)
    requires t in s.threads && s.threads[t].ws in s.sh.completed && s.threads[t].pc.Inside?
    ensures CanMove(bar, s)
  {
    var n, sh, th := |s.threads.Keys|, s.sh, s.threads[t];
    if bar(th.cur) {
      if sh.awaited - 1 != 0 {
        GoTo(bar, s, t, sh.(awaited := sh.awaited - 1), th.(pc := Waiting(sh.gen)));
      } else if th.last == 0 {
        GoTo(bar, s, t, sh.(awaited := sh.awaited - 1, lastIn := Some(t)), th.(pc := Releasing));
      } else {
        GoTo(bar, s, t, sh.(awaited := sh.awaited - 1, lastIn := Some(t), pusher := Some(t)), th.(pc := Push));
      }
    } else if th.last == 0 {
      GoTo(bar, s, t, sh, th.(pc := Idle));
    } else {
      var count := sh.completed[th.ws] + 1;
      if count == n {
        GoTo(bar, s, t, sh.(completed := sh.completed[th.ws := count], pusher := Some(t)), th.(pc := Push));
      } else {
        GoTo(bar, s, t, sh.(completed := sh.completed[th.ws := count]), th.(last := 0, pc := Idle));
      }
    }
  }

  /** A thread that looks for a block. */
  lemma AllocatorMoves(bar: nat -> bool, s: State, t: Tid)
    requires t in s.threads && SharedOk(s.sh) && AllocatorOk(s.sh, s.threads[t])
    requires var pc := s.threads[t].pc; pc.Pop? || pc.Peek? || pc.Cut? || pc.Take? || pc.Grow?
    ensures CanMove(bar, s)
  {
    var sh, th := s.sh, s.threads[t];
    match th.pc {
      case Pop =>
        if sh.listAlloc != 0 {
          assert sh.allocSeq != [] && LinksOn(sh.link, sh.allocSeq, 0);
          GoTo(bar, s, t,
               sh.(listAlloc := sh.link[sh.listAlloc], allocSeq := sh.allocSeq[1..], taken := [sh.listAlloc],
                   home := sh.home[sh.listAlloc := Taken]),
               th.(pc := Fresh(sh.listAlloc)));
        } else {
          GoTo(bar, s, t, sh, th.(pc := Peek(sh.listFree)));
        }
      case Peek(h) =>
        GoTo(bar, s, t, sh, th.(pc := if h in sh.link && sh.link[h] != 0 then Cut(h, sh.link[h]) else Grow));
      case Cut(h, x) => CutterMoves(bar, s, t, h, x);
      case Take(x) =>
        assert LinksOn(sh.link, sh.taken, 0);
        GoTo(bar, s, t,
             sh.(listAlloc := sh.link[x], allocSeq := sh.taken[1..], taken := [x], home := MoveHome(sh.home, sh.taken[1..], OnAlloc)),
             th.(pc := Fresh(x)));
      case Grow => GrowerMoves(bar, s, t);
    }
  }

  lemma CutterMoves(bar: nat -> bool, s: State, t: Tid, h: int, x: int)
    requires t in s.threads && s.threads[t].pc == Cut(h, x) && Follows(s.sh.freeSeq, h, x)
    ensures CanMove(bar, s)
  {
    var sh, th := s.sh, s.threads[t];
    var i: nat :| i + 1 < |sh.freeSeq| && sh.freeSeq[i] == h;
    var sh' := sh.(link := sh.link[h := 0], freeSeq := sh.freeSeq[..i + 1], taken := sh.freeSeq[i + 1..],
                   home := MoveHome(sh.home, sh.freeSeq[i + 1..], Taken));
    assert CutStep(sh, th, i, sh', th.(pc := Take(x)));
    GoTo(bar, s, t, sh', th.(pc := Take(x)));
  }

  lemma GrowerMoves(bar: nat -> bool, s: State, t: Tid)
    requires t in s.threads && s.threads[t].pc == Grow && s.sh.chunk >= 1
    ensures CanMove(bar, s)
  {
    var sh, th, count := s.sh, s.threads[t], 2 * s.sh.chunk;
    var base := Above(sh.link.Keys);
    NewBlocksAre(base, count);
    var sh' := sh.(chunk := count, link := GrownLinks(sh.link, base, count), completed := GrownCounts(sh.completed, base, count),
                   listAlloc := base + 1, allocSeq := NewBlocks(base, count)[1..], taken := [base],
                   home := GrownHome(sh.home, base, count));
    hide NewBlocks, GrownLinks, GrownCounts, GrownHome;
    assert GrowStep(sh, th, base, sh', th.(pc := Fresh(base)));
    GoTo(bar, s, t, sh', th.(pc := Fresh(base)));
  }

  /** There is always an address above those in use. */
  lemma {:induction false} Above(used: set<Block>) returns (base: Block)
    ensures base > 2 && forall b :: b in used ==> b < base
    decreases used
  {
    if used == {} {
      base := 3;
    } else {
      var b := Member(used);
      base := Above(used - {b});
      assert forall x :: x in used ==> x == b || x in used - {b};
      if b >= base { base := b + 1; }
    }
  }

  lemma ThreadMoves(bar: nat -> bool, s: State, t: Tid)
    requires Inv(bar, s) && t in s.threads && !s.threads[t].pc.Waiting? && s.threads[t].pc != Getting
    ensures CanMove(bar, s)
  {
    Holds(bar, s, t);
    Parts(bar, s.sh, t, s.threads[t]);
    hide Inv, CountsOk, ThreadOk;
    var pc := s.threads[t].pc;
    if pc.Pop? || pc.Peek? || pc.Cut? || pc.Take? || pc.Grow? {
      AllocatorMoves(bar, s, t);
    } else {
      CurIsCounted(s.sh, s.threads[t]);
      EnderMoves(bar, s, t);
    }
  }

  lemma CurIsCounted(sh: Shared, th: Thread)
    requires SharedOk(sh) && PlaceOk(sh, th)
    ensures th.cur < |sh.blk| && th.ws == sh.blk[th.cur] && th.ws in sh.completed && sh.freed <= th.cur && th.ws in sh.link && th.ws > 2
  {
    hide ListsOk;
  }

  /** A thread that asks for the next block gets it, starts to allocate it, or is waited for by nobody but a
      thread that allocates. */
  lemma GetterMoves(bar: nat -> bool, s: State, t: Tid)
    requires Live(bar, s) && t in s.threads && s.threads[t].pc == Getting
    ensures CanMove(bar, s)
  {
    var sh, th := s.sh, s.threads[t];
    GetterKnowsWord(bar, s, t);
    hide Inv;
    var next := sh.link[th.last];
    if next == 1 || next == 2 {
      var u :| u in s.threads && sh.allocator == Some(u) && Sets(s.threads[u], th.cur);
      ThreadMoves(bar, s, u);
    } else {
      FirstGetterMoves(bar, s, t);
    }
  }

  /** The word is not being set. */
  lemma FirstGetterMoves(bar: nat -> bool, s: State, t: Tid)
    requires t in s.threads && s.threads[t].pc == Getting && s.threads[t].last in s.sh.link
    requires s.sh.link[s.threads[t].last] !in {1, 2}
    ensures CanMove(bar, s)
  {
    var sh, th := s.sh, s.threads[t];
    var next := sh.link[th.last];
    if next == 0 {
      GoTo(bar, s, t, sh.(link := sh.link[th.last := 1], allocator := Some(t)), th.(pc := Pop));
    } else {
      GoTo(bar, s, t, sh, th.(cur := th.cur + 1, ws := next, pc := Inside));
    }
  }

  lemma GetterKnowsWord(bar: nat -> bool, s: State, t: Tid)
    requires Inv(bar, s) && t in s.threads && s.threads[t].pc == Getting
    ensures var sh, th := s.sh, s.threads[t];
      && th.last in sh.link && sh.freed <= th.cur && (sh.link[th.last] in {1, 2} ==> BeingSet(sh, th.cur))
  {
    Holds(bar, s, t);
    Parts(bar, s.sh, t, s.threads[t]);
    CurIsCounted(s.sh, s.threads[t]);
    hide Inv, CountsOk, ThreadOk, SharedOk, TokensOk, AllocatorOk, PusherOk, PublishedOk, BarrierOk;
  }

  /** If all threads are at barriers, one of them can leave. */
  lemma WaiterMoves(bar: nat -> bool, s: State)
    requires Live(bar, s) && forall t | t in s.threads :: s.threads[t].pc.Waiting?
    ensures CanMove(bar, s)
  {
    hide Inv, Arrived, AtBarrier;
    AwaitedIs(bar, s);
    LastInIsAwake(bar, s);
    assert Arrived(bar, s) != s.threads.Keys;
    hide Live, Tended;
    var t := OneIsReleased(bar, s);
    GoTo(bar, s, t, s.sh, s.threads[t].(last := 0, pc := Idle));
  }

  lemma OneIsReleased(bar: nat -> bool, s: State) returns (t: Tid)
    requires Arrived(bar, s) != s.threads.Keys && forall t | t in s.threads :: s.threads[t].pc.Waiting?
    ensures t in s.threads && s.threads[t].pc.g != s.sh.gen
  {
    t :| t in s.threads && !AtBarrier(bar, s.sh, s.threads[t]);
  }

  lemma AwaitedIs(bar: nat -> bool, s: State)
    requires Inv(bar, s)
    ensures s.sh.awaited == |s.threads.Keys| - |Arrived(bar, s)|
  {
    hide SharedOk, ThreadOk, Arrived, Done, Counted;
  }

  /** When all have arrived, the last one to do so does not wait. */
  lemma LastInIsAwake(bar: nat -> bool, s: State)
    requires Live(bar, s)
    ensures s.sh.awaited == 0 ==> exists u :: u in s.threads && !s.threads[u].pc.Waiting?
  {
    if s.sh.awaited == 0 { LastIn(bar, s); }
  }

  lemma LastIn(bar: nat -> bool, s: State)
    requires Live(bar, s) && s.sh.awaited == 0
    ensures exists u :: u in s.threads && !s.threads[u].pc.Waiting?
  {
    assert s.sh.lastIn != None;
    var u := s.sh.lastIn.value;
    assert u in s.threads by { hide SharedOk, ThreadOk, Done, Counted, Arrived; assert CountsOk(bar, s); }
    Holds(bar, s, u);
    Parts(bar, s.sh, u, s.threads[u]);
    hide Live, Inv, SharedOk, ThreadOk, CountsOk, PlaceOk, AllocatorOk, PusherOk, PublishedOk, BarrierOk;
  }

  /** In every state of every run some thread can go on: nobody waits for a block that nobody sets, or at a
      barrier that nobody releases. */
  lemma SomebodyMoves(bar: nat -> bool, run: seq<State>, k: nat)
    requires IsTeamRun(bar, run) && k < |run|
    ensures CanMove(bar, run[k])
  {
    LiveAlong(bar, run, k);
    hide IsTeamRun;
    var s := run[k];
    if t :| t in s.threads && !s.threads[t].pc.Waiting? {
      if s.threads[t].pc == Getting { GetterMoves(bar, s, t); } else { ThreadMoves(bar, s, t); }
    } else {
      WaiterMoves(bar, s);
    }
  }

  // ---------------------------------------------------------------- memory

  /** A thread that needs a block takes new memory only if nothing is on the list of blocks to allocate, and
      nothing was behind the head of the free list that it read. */
  lemma GrowsOnlyWhenShort(bar: nat -> bool, run: seq<State>, k: nat, t: Tid, s': State)
    requires IsTeamRun(bar, run) && k < |run| && t in run[k].threads && StepOf(bar, run[k], t, s')
    requires run[k].threads[t].pc.Pop? || run[k].threads[t].pc.Peek?
    ensures var sh, th, th' := run[k].sh, run[k].threads[t], s'.threads[t];
      && (th.pc.Pop? ==> if sh.allocSeq != [] then th'.pc == Fresh(sh.allocSeq[0])
                         else th'.pc == Peek(if sh.freeSeq == [] then 0 else sh.freeSeq[0]))
      && (th.pc.Peek? ==> sh.allocSeq == [])
      && (th.pc.Peek? ==> (th'.pc == Grow <==> th.pc.h == 0 || (sh.freeSeq != [] && th.pc.h == sh.freeSeq[|sh.freeSeq| - 1])))
      && (th.pc.Peek? && th'.pc != Grow ==> th'.pc.Cut? && Follows(sh.freeSeq, th.pc.h, th'.pc.x))
  {
    InvAlong(bar, run, k);
    var s := run[k];
    Holds(bar, s, t);
    Parts(bar, s.sh, t, s.threads[t]);
    hide Inv, IsTeamRun, ThreadOk, CountsOk, PlaceOk, TokensOk, PublishedOk, BarrierOk, PusherOk;
    SharedParts(s.sh);
    hide SharedOk, HomesOk, LinksOk;
    if s.threads[t].pc.Peek? { PeekFinds(s.sh, s.threads[t], s'.sh, s'.threads[t]); } else { PopFinds(s.sh, s.threads[t], s'.sh, s'.threads[t]); }
  }

  lemma PopFinds(sh: Shared, th: Thread, sh': Shared, th': Thread)
    requires ListsOk(sh) && KeysOk(sh) && th.pc.Pop? && AllocStep(sh, th, sh', th')
    ensures if sh.allocSeq != [] then th'.pc == Fresh(sh.allocSeq[0]) else th'.pc == Peek(if sh.freeSeq == [] then 0 else sh.freeSeq[0])
  {
    assert sh.allocSeq != [] ==> LinksOn(sh.link, sh.allocSeq, 0) && sh.allocSeq[0] in sh.home;
  }

  lemma PeekFinds(sh: Shared, th: Thread, sh': Shared, th': Thread)
    requires ListsOk(sh) && KeysOk(sh) && AllocatorOk(sh, th) && th.pc.Peek? && AllocStep(sh, th, sh', th')
    ensures sh.allocSeq == []
    ensures th'.pc == Grow <==> th.pc.h == 0 || (sh.freeSeq != [] && th.pc.h == sh.freeSeq[|sh.freeSeq| - 1])
    ensures th'.pc != Grow ==> th'.pc.Cut? && Follows(sh.freeSeq, th.pc.h, th'.pc.x)
  {
    var h := th.pc.h;
    if h == 0 {
      assert 0 !in sh.link;
    } else {
      var i :| 0 <= i < |sh.freeSeq| && sh.freeSeq[i] == h;
      assert LinksOn(sh.link, sh.freeSeq, i) && NoDup(sh.freeSeq);
      if i + 1 < |sh.freeSeq| {
        assert sh.freeSeq[i + 1] in sh.home by { assert LinksOn(sh.link, sh.freeSeq, i + 1); }
        assert Follows(sh.freeSeq, h, sh.freeSeq[i + 1]);
      }
    }
  }
}
