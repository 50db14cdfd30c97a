/** Runs of `WorkShareSteps`: no block is used after it was freed, one thread initialises each
    block, and every block is in one place. */
module WorkShare {
  import opened Options
  import opened Collections
  import opened Runs
  import opened WorkShareSteps
  import opened WorkShareBlocks
  import opened WorkShareThreads
  import opened WorkShareCounts

  ghost predicate TokensIn(s: State) {
    && (s.sh.allocator != None ==> s.sh.allocator.value in s.threads)
    && (s.sh.pusher != None ==> s.sh.pusher.value in s.threads)
    && (s.sh.lastIn != None ==> s.sh.lastIn.value in s.threads)
  }

  lemma TokensAfter(bar: nat -> bool, s: State, t: Tid, s': State)
    requires CountsOk(bar, s) && t in s.threads && s'.threads.Keys == s.threads.Keys && ChainMoves(s.sh, t, s.threads[t], s'.sh)
    ensures TokensIn(s')
  {
    hide Counted, Done, Arrived;
  }

  lemma CountsFromParts(bar: nat -> bool, s: State)
    requires s.threads.Keys != {} && TokensIn(s)
    requires forall j: nat | s.sh.freed <= j < |s.sh.blk| && 0 < j && !bar(j) :: Counted(s, j)
    requires s.sh.awaited == |s.threads.Keys| - |Arrived(bar, s)|
    requires Done(s, s.sh.freed + 1) == s.threads.Keys ==> s.sh.pusher != None
    ensures CountsOk(bar, s)
  {
    hide Counted, Done, Arrived;
  }

  lemma CountsAfter(bar: nat -> bool, s: State, t: Tid, s': State)
    requires Inv(bar, s) && t in s.threads && StepOf(bar, s, t, s') && ChainMoves(s.sh, t, s.threads[t], s'.sh)
    ensures CountsOk(bar, s')
  {
    assert s'.threads.Keys == s.threads.Keys && t in s'.threads;
    Holds(bar, s, t);
    hide *;
    TokensAfter(bar, s, t, s');
    forall j: nat | s'.sh.freed <= j < |s'.sh.blk| && 0 < j && !bar(j) ensures Counted(s', j) {
      CountedAfter(bar, s, t, s', j);
    }
    ArrivedAfter(bar, s, t, s');
    if Done(s', s'.sh.freed + 1) == s'.threads.Keys { PusherAfter(bar, s, t, s'); }
    CountsFromParts(bar, s');
  }

  lemma StepKeepsInv(bar: nat -> bool, s: State, t: Tid, s': State)
    requires Inv(bar, s) && t in s.threads && StepOf(bar, s, t, s')
    ensures Inv(bar, s')
  {
    StepKeepsShared(bar, s, t, s');
    StepKeepsCounts(bar, s, t, s');
    forall u | u in s.threads ensures ThreadOk(bar, s'.sh, u, s'.threads[u]) {
      ThreadKept(bar, s, t, s', u);
    }
    hide ThreadOk, SharedOk, CountsOk, Step;
  }

  lemma StepKeepsCounts(bar: nat -> bool, s: State, t: Tid, s': State)
    requires Inv(bar, s) && t in s.threads && StepOf(bar, s, t, s')
    ensures CountsOk(bar, s')
  {
    Holds(bar, s, t);
    AllocatorLinksHold(bar, s);
    StepAlone(bar, s, t, s');
    hide ThreadOk, SharedOk, CountsOk, Step, AllocatorLinks, EndAlone, Inv;
    StepGuarantees(|s.threads.Keys|, bar, s.sh, t, s.threads[t], s'.sh, s'.threads[t]);
    assert ChainMoves(s.sh, t, s.threads[t], s'.sh);
    hide ChainMoves, Guarantee;
    CountsAfter(bar, s, t, s');
  }

  lemma StepKeepsShared(bar: nat -> bool, s: State, t: Tid, s': State)
    requires Inv(bar, s) && t in s.threads && StepOf(bar, s, t, s')
    ensures SharedOk(s'.sh)
  {
    hide ThreadOk, SharedOk, CountsOk, Step;
    StepShared(|s.threads.Keys|, bar, s.sh, t, s.threads[t], s'.sh, s'.threads[t]);
  }
  lemma InitMaps(base: Block)
    requires base > 2
    ensures var link, completed, home := GrownLinks(map[], base, 8), GrownCounts(map[], base, 8), GrownHome(map[], base, 8);
      link.Keys == completed.Keys == home.Keys
    ensures forall b :: b in GrownHome(map[], base, 8) <==> base <= b < base + 8
  {
    NewBlocksAre(base, 8);
  }

  lemma InitHomes(sh: Shared, base: Block)
    requires sh.blk == [base] && sh.freed == 0 && sh.freeSeq == [] && sh.taken == []
    requires forall b :: b in sh.allocSeq <==> base < b < base + 8
    requires forall b :: b in sh.home <==> base <= b < base + 8
    requires forall b | b in sh.home :: sh.home[b] == if b == base then InUse(0) else OnAlloc
    ensures HomesOk(sh)
  {
  }

  lemma InitLists(s: State, base: Block)
    requires base > 2 && InitAt(s, base)
    ensures ListsOk(s.sh)
  {
    hide NewBlocks, GrownLinks, GrownCounts, GrownHome, IsList;
    NewBlocksList(map[], base, 8);
    ListKept(GrownLinks(map[], base, 8), s.sh.link, base + 1, s.sh.allocSeq);
    EmptyIsList(s.sh.link);
  }

  lemma InitHomesOk(s: State, base: Block)
    requires base > 2 && InitAt(s, base)
    ensures HomesOk(s.sh)
  {
    var sh := s.sh;
    hide NewBlocks, GrownLinks, GrownCounts, GrownHome, MoveHome, IsList, HomesOk;
    InitMaps(base);
    NewBlocksAre(base, 8);
    NewBlocksList(map[], base, 8);
    GrownHomeIs(map[], base, 8);
    assert forall b | b in sh.home :: sh.home[b] == if b == base then InUse(0) else OnAlloc;
    InitHomes(sh, base);
  }

  lemma InitKeysAndLinks(s: State, base: Block)
    requires base > 2 && InitAt(s, base)
    ensures KeysOk(s.sh) && LinksOk(s.sh)
  {
    hide NewBlocks, GrownLinks, GrownCounts, GrownHome, MoveHome;
    InitMaps(base);
  }

  lemma InitShared(s: State, base: Block)
    requires base > 2 && InitAt(s, base)
    ensures SharedOk(s.sh)
  {
    InitLists(s, base);
    InitHomesOk(s, base);
    InitKeysAndLinks(s, base);
    hide InitAt, ListsOk, HomesOk, KeysOk, LinksOk;
  }

  lemma EmptyIsList(link: map<Block, int>)
    ensures IsList(link, 0, [])
  {
  }

  lemma InitThread(bar: nat -> bool, s: State, base: Block, t: Tid)
    requires base > 2 && InitAt(s, base) && t in s.threads
    ensures ThreadOk(bar, s.sh, t, s.threads[t])
  {
    hide NewBlocks, GrownLinks, GrownCounts, GrownHome, MoveHome;
  }

  lemma InitCounts(bar: nat -> bool, s: State, base: Block)
    requires base > 2 && InitAt(s, base)
    ensures CountsOk(bar, s)
  {
    hide NewBlocks, GrownLinks, GrownCounts, GrownHome, MoveHome;
    assert Arrived(bar, s) == {} && Done(s, 1) == {};
  }

  lemma InitHasInv(bar: nat -> bool, s: State)
    requires Init(s)
    ensures Inv(bar, s)
  {
    hide SharedOk, ThreadOk, CountsOk, InitAt;
    var base: Block :| base > 2 && InitAt(s, base);
    InitShared(s, base);
    InitCounts(bar, s, base);
    forall t | t in s.threads ensures ThreadOk(bar, s.sh, t, s.threads[t]) {
      InitThread(bar, s, base, t);
    }
  }

  ghost predicate IsTeamRun(bar: nat -> bool, run: seq<State>) {
    IsRun(Init, (s, s') => Next(bar, s, s'), run)
  }

  lemma InvAlong(bar: nat -> bool, run: seq<State>, k: nat)
    requires IsTeamRun(bar, run) && k < |run|
    ensures Inv(bar, run[k])
  {
    hide Inv, Init, StepOf;
    var inv := s => Inv(bar, s);
    forall s | Init(s) ensures inv(s) {
      InitHasInv(bar, s);
    }
    forall s, s' | inv(s) && Next(bar, s, s') ensures inv(s') {
      var t :| t in s.threads && StepOf(bar, s, t, s');
      StepKeepsInv(bar, s, t, s');
    }
    HoldsAlong(Init, (s, s') => Next(bar, s, s'), inv, run, k);
  }

  // ---------------------------------------------------------------- main results

  /** The blocks that a thread uses as work shares when it makes its next step. */
  function WorkShares(th: Thread): set<Block> {
    match th.pc
    case Inside => {th.ws}
    case Getting => {th.last}
    case Publishing => {th.ws, th.last}
    case Waking => {th.ws, th.last}
    case PushLink(_) => {th.last}
    case PushSwap(_) => {th.last}
    case _ => {}
  }

  /** The blocks that it uses as elements of the lists, and where it takes them to be. */
  function ListBlocks(sh: Shared, th: Thread): map<Block, Home> {
    match th.pc
    case Pop => if sh.listAlloc == 0 then map[] else map[sh.listAlloc := OnAlloc]
    case Peek(h) => if h == 0 then map[] else map[h := OnFree]
    case Cut(h, _) => map[h := OnFree]
    case Take(x) => map[x := Taken]
    case Fresh(b) => map[b := Taken]
    case _ => map[]
  }

  /** However far apart the threads are, and however constructs end: what a thread uses as a
      work share is allocated, not freed, and the block of the construct that the thread is in
      or of the one before; and what it uses as a list element is on that list. */
  lemma NoUseAfterFree(bar: nat -> bool, run: seq<State>, k: nat, t: Tid)
    requires IsTeamRun(bar, run) && k < |run| && t in run[k].threads
    ensures var s := run[k]; var sh, th := s.sh, s.threads[t];
      && th.cur < |sh.blk| && th.ws == sh.blk[th.cur]
      && (forall b | b in WorkShares(th) :: b in sh.home && sh.home[b].InUse? && th.cur <= sh.home[b].construct + 1 <= th.cur + 1)
      && (forall b | b in ListBlocks(sh, th) :: b in sh.home && sh.home[b] == ListBlocks(sh, th)[b])
  {
    InvAlong(bar, run, k);
    Holds(bar, run[k], t);
    hide Inv, CountsOk;
    UsesAreSafe(bar, run[k].sh, t, run[k].threads[t]);
    ListUsesAreSafe(bar, run[k].sh, t, run[k].threads[t]);
  }

  lemma UsesAreSafe(bar: nat -> bool, sh: Shared, t: Tid, th: Thread)
    requires SharedOk(sh) && ThreadOk(bar, sh, t, th)
    ensures th.cur < |sh.blk| && th.ws == sh.blk[th.cur]
    ensures forall b | b in WorkShares(th) :: b in sh.home && sh.home[b].InUse? && th.cur <= sh.home[b].construct + 1 <= th.cur + 1
  {
    hide ListsOk, LinksOk, KeysOk, AllocatorOk, PublishedOk, BarrierOk;
  }

  lemma ListUsesAreSafe(bar: nat -> bool, sh: Shared, t: Tid, th: Thread)
    requires SharedOk(sh) && ThreadOk(bar, sh, t, th)
    ensures forall b | b in ListBlocks(sh, th) :: b in sh.home && sh.home[b] == ListBlocks(sh, th)[b]
  {
    assert 0 !in sh.link;
    EmptyList(sh.link, sh.listAlloc, sh.allocSeq);
    ListedAreBlocks(sh, sh.freeSeq, sh.listFree);
    ListedAreBlocks(sh, sh.allocSeq, sh.listAlloc);
    if th.pc.Take? {
      assert th.pc.x in sh.taken;
    } else if th.pc.Fresh? {
      assert th.pc.b in sh.taken;
    } else if th.pc.Cut? {
      assert th.pc.h in sh.freeSeq;
    }
    hide PlaceOk, PublishedOk, BarrierOk, IsList, LinksOk, Follows;
  }

  /** At any time at most one thread allocates and initialises a block, and at most one frees
      one, so the compare-and-swap that frees never fails. */
  lemma OneInitialiser(bar: nat -> bool, run: seq<State>, k: nat, t: Tid, u: Tid)
    requires IsTeamRun(bar, run) && k < |run| && t in run[k].threads && u in run[k].threads
    ensures var th, uh := run[k].threads[t], run[k].threads[u];
      && (Allocating(th.pc) && Allocating(uh.pc) ==> t == u)
      && (Pushing(th.pc) && Pushing(uh.pc) ==> t == u)
      && (th.pc.PushSwap? ==> run[k].sh.listFree == th.pc.r)
  {
    InvAlong(bar, run, k);
    Holds(bar, run[k], t);
    Holds(bar, run[k], u);
    hide Inv, SharedOk, CountsOk, PlaceOk, AllocatorOk, PublishedOk, BarrierOk;
  }

  /** Every block is in exactly one place: it serves one construct, or it is once on one of the
      two lists, or it is being moved; so none is freed twice. */
  lemma BlocksArePartitioned(bar: nat -> bool, run: seq<State>, k: nat)
    requires IsTeamRun(bar, run) && k < |run|
    ensures var sh := run[k].sh; var inUse := if sh.freed <= |sh.blk| then sh.blk[sh.freed..] else [];
      && NoDup(sh.freeSeq) && NoDup(sh.allocSeq) && NoDup(inUse)
      && forall b | b in sh.link ::
           || (b in inUse && b !in sh.freeSeq && b !in sh.allocSeq && b !in sh.taken)
           || (b !in inUse && b in sh.freeSeq && b !in sh.allocSeq && b !in sh.taken)
           || (b !in inUse && b !in sh.freeSeq && b in sh.allocSeq && b !in sh.taken)
           || (b !in inUse && b !in sh.freeSeq && b !in sh.allocSeq && b in sh.taken)
  {
    InvAlong(bar, run, k);
    SharedHolds(bar, run[k]);
    hide Inv;
    Partition(run[k].sh);
  }

  lemma SharedHolds(bar: nat -> bool, s: State)
    requires Inv(bar, s)
    ensures SharedOk(s.sh)
  {
    hide SharedOk;
  }

  lemma Partition(sh: Shared)
    requires SharedOk(sh)
    ensures sh.freed <= |sh.blk|
    ensures NoDup(sh.freeSeq) && NoDup(sh.allocSeq) && NoDup(sh.blk[sh.freed..])
    ensures forall b | b in sh.link ::
      && (b in sh.blk[sh.freed..] <==> sh.home[b].InUse?)
      && (b in sh.freeSeq <==> sh.home[b] == OnFree)
      && (b in sh.allocSeq <==> sh.home[b] == OnAlloc)
      && (b in sh.taken <==> sh.home[b] == Taken)
  {
    var inUse := sh.blk[sh.freed..];
    forall i, j | 0 <= i < j < |inUse| ensures inUse[i] != inUse[j] {
      UsedAreApart(sh, sh.freed + i, sh.freed + j);
    }
    forall b | b in sh.link && sh.home[b].InUse? ensures b in inUse {
      assert inUse[sh.home[b].construct - sh.freed] == b;
    }
    forall b | b in inUse ensures b in sh.home && sh.home[b].InUse? {
      var i :| 0 <= i < |inUse| && inUse[i] == b;
      assert sh.blk[sh.freed + i] == b;
    }
    hide LinksOk, IsList;
    IsNoDup(sh.link, sh.listFree, sh.freeSeq);
    IsNoDup(sh.link, sh.listAlloc, sh.allocSeq);
  }

  /** Blocks are not kept too long: once all threads have completed a construct, the block of
      the one before is free or is being freed. */
  lemma BlocksAreFreed(bar: nat -> bool, run: seq<State>, k: nat, j: nat)
    requires IsTeamRun(bar, run) && k < |run|
    requires forall t | t in run[k].threads :: Completed(run[k].threads[t], j)
    ensures var sh := run[k].sh; j <= sh.freed || (j == sh.freed + 1 && sh.pusher != None)
  {
    var s := run[k];
    InvAlong(bar, run, k);
    if j > s.sh.freed {
      assert forall t | t in s.threads :: Completed(s.threads[t], s.sh.freed + 1);
      assert Done(s, s.sh.freed + 1) == s.threads.Keys;
      AllDonePushes(bar, s);
      PusherExists(bar, s);
    }
    hide Inv;
  }

  lemma PusherExists(bar: nat -> bool, s: State)
    requires Inv(bar, s) && s.sh.pusher != None
    ensures var t := s.sh.pusher.value; t in s.threads && s.threads[t].cur == s.sh.freed + 1
  {
    var t := s.sh.pusher.value;
    assert t in s.threads by { hide ThreadOk, SharedOk; }
    Holds(bar, s, t);
    hide Inv, SharedOk, CountsOk, PlaceOk, AllocatorOk, PublishedOk, BarrierOk;
  }
}
