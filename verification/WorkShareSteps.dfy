/** The chain of work-share blocks of a team (work.c:38-87, 136-161, 168-200, 205-233 and
    264-297, libgomp.h:1016-1021, team.c:181-192).

  Every thread of the team goes through the same work-sharing constructs 0, 1, 2 and so on.  A
  construct ends with a barrier or, with nowait, with a counter, so threads may be any number of
  constructs apart.  The block of construct k is found through the `next_ws` word of the block
  of construct k - 1, which the last thread that completes construct k puts on a free list; the
  same word then is the free-list link.  Pushes onto that list run concurrently with
  allocation, which takes everything below the head of the list.

  Each step is one access to shared memory.  A block is an address; addresses are above 2,
  because 0, 1 and 2 in `next_ws` mean unset, being set, and being set with waiters.
 */
module WorkShareSteps {
  import opened Options
  import opened Collections

  type Tid = nat
  type Block = int

  /** History: where a block is. */
  datatype Home = InUse(construct: nat) | OnFree | OnAlloc | Taken

  /** `link` is the union of next_ws and next_free.  The fields from `blk` on are history: the
      block of each construct so far, how many of them were freed, the two lists as sequences,
      the blocks an allocating thread has taken off the free list, the thread that is
      allocating and initialising a block, the thread that is freeing one, the thread that
      arrived last at the barrier, and the last construct whose barrier was released. */
  datatype Shared = Shared(
    link: map<Block, int>, completed: map<Block, nat>, listFree: int, listAlloc: int, chunk: nat,
    awaited: int, gen: nat,
    blk: seq<Block>, freed: nat, freeSeq: seq<Block>, allocSeq: seq<Block>, taken: seq<Block>, home: map<Block, Home>,
    allocator: Option<Tid>, pusher: Option<Tid>, lastIn: Option<Tid>, lastBarrier: int)

  datatype Pc =
    | Inside              // inside construct cur
    | Waiting(g: nat)     // at the barrier at the end of construct cur
    | Releasing           // arrived last: about to release the barrier
    | Push                // completed construct cur last: reads the head of the free list
    | PushLink(r: int)    // writes next_free of the block to free
    | PushSwap(r: int)    // compare-and-swap of the head of the free list
    | Idle                // between constructs
    | Getting             // gomp_ptrlock_get on next_ws
    | Pop                 // allocating: looks at work_share_list_alloc
    | Peek(h: int)        // read the head h of the free list
    | Cut(h: int, x: int) // cuts the list behind h, where x follows
    | Take(x: int)        // moves what follows x to work_share_list_alloc
    | Grow                // allocates new blocks
    | Fresh(b: int)       // initialises b
    | Publishing          // gomp_work_share_init_done: sets next_ws of the previous block
    | Waking              // wakes those who wait for it

  /** ts.work_share, ts.last_work_share (0 for NULL), and the construct the thread is in or was
      in last, as history. */
  datatype Thread = Thread(cur: nat, ws: int, last: int, pc: Pc)

  datatype State = State(sh: Shared, threads: map<Tid, Thread>)

  // ---------------------------------------------------------------- steps

  /** The end of construct cur, for a thread of a team of n. */
  ghost predicate EndStep(n: nat, bar: nat -> bool, sh: Shared, t: Tid, th: Thread, sh': Shared, th': Thread) {
    if bar(th.cur) then
      if sh.awaited - 1 != 0 then
        sh' == sh.(awaited := sh.awaited - 1) && th' == th.(pc := Waiting(sh.gen))
      else if th.last == 0 then
        sh' == sh.(awaited := sh.awaited - 1, lastIn := Some(t)) && th' == th.(pc := Releasing)
      else
        sh' == sh.(awaited := sh.awaited - 1, lastIn := Some(t), pusher := Some(t)) && th' == th.(pc := Push)
    else if th.last == 0 then
      sh' == sh && th' == th.(pc := Idle)
    else
      && th.ws in sh.completed
      && var count := sh.completed[th.ws] + 1;
         if count == n then
           sh' == sh.(completed := sh.completed[th.ws := count], pusher := Some(t)) && th' == th.(pc := Push)
         else
           sh' == sh.(completed := sh.completed[th.ws := count]) && th' == th.(last := 0, pc := Idle)
  }

  /** free_work_share. */
  ghost predicate PushStep(bar: nat -> bool, sh: Shared, th: Thread, sh': Shared, th': Thread) {
    match th.pc
    case Push => sh' == sh && th' == th.(pc := PushLink(sh.listFree))
    case PushLink(r) => sh' == sh.(link := sh.link[th.last := r]) && th' == th.(pc := PushSwap(r))
    case PushSwap(r) =>
      if sh.listFree == r then
        && sh' == sh.(listFree := th.last, freed := sh.freed + 1, freeSeq := [th.last] + sh.freeSeq,
                      home := sh.home[th.last := OnFree], pusher := None)
        && th' == if bar(th.cur) then th.(pc := Releasing) else th.(last := 0, pc := Idle)
      else
        sh' == sh && th' == th.(pc := Push)
    case _ => false
  }

  ghost predicate BarrierStep(n: nat, sh: Shared, th: Thread, sh': Shared, th': Thread) {
    match th.pc
    case Releasing =>
      && sh' == sh.(awaited := n, gen := sh.gen + 1, lastIn := None, lastBarrier := th.cur)
      && th' == th.(last := 0, pc := Idle)
    case Waiting(g) =>
      sh' == sh && th' == if sh.gen != g then th.(last := 0, pc := Idle) else th
    case _ => false
  }

  /** gomp_work_share_start up to the allocation. */
  ghost predicate StartStep(sh: Shared, t: Tid, th: Thread, sh': Shared, th': Thread) {
    match th.pc
    case Idle => sh' == sh && th' == th.(last := th.ws, pc := Getting)
    case Getting =>
      && th.last in sh.link
      && var next := sh.link[th.last];
         if next == 0 then
           sh' == sh.(link := sh.link[th.last := 1], allocator := Some(t)) && th' == th.(pc := Pop)
         else if next == 1 then
           sh' == sh.(link := sh.link[th.last := 2]) && th' == th
         else if next == 2 then
           sh' == sh && th' == th
         else
           sh' == sh && th' == th.(cur := th.cur + 1, ws := next, pc := Inside)
    case _ => false
  }

  function MoveHome(home: map<Block, Home>, blocks: seq<Block>, to: Home): map<Block, Home> {
    map b | b in home.Keys + (set x | x in blocks) :: if b in blocks then to else home[b]
  }

  /** The block h keeps its place in the free list and loses what follows it. */
  ghost predicate CutStep(sh: Shared, th: Thread, i: nat, sh': Shared, th': Thread) {
    && th.pc.Cut? && i < |sh.freeSeq| && sh.freeSeq[i] == th.pc.h
    && sh' == sh.(link := sh.link[th.pc.h := 0], freeSeq := sh.freeSeq[..i + 1], taken := sh.freeSeq[i + 1..],
                  home := MoveHome(sh.home, sh.freeSeq[i + 1..], Taken))
    && th' == th.(pc := Take(th.pc.x))
  }

  /** New blocks lie next to each other. */
  function NewBlocks(base: Block, count: nat): seq<Block> {
    seq(count, i => base + i)
  }

  function GrownLinks(link: map<Block, int>, base: Block, count: nat): map<Block, int> {
    map b | b in link.Keys + (set x | x in NewBlocks(base, count)) ::
      if b in NewBlocks(base, count) then (if b + 1 < base + count then b + 1 else 0) else link[b]
  }

  function GrownCounts(completed: map<Block, nat>, base: Block, count: nat): map<Block, nat> {
    map b | b in completed.Keys + (set x | x in NewBlocks(base, count)) ::
      if b in NewBlocks(base, count) then 0 else completed[b]
  }

  function GrownHome(home: map<Block, Home>, base: Block, count: nat): map<Block, Home> {
    MoveHome(home, NewBlocks(base, count), OnAlloc)[base := Taken]
  }

  ghost predicate GrowStep(sh: Shared, th: Thread, base: Block, sh': Shared, th': Thread) {
    var count := 2 * sh.chunk;
    && th.pc.Grow? && count >= 2 && base > 2
    && (forall b | b in NewBlocks(base, count) :: b !in sh.link)
    && sh' == sh.(chunk := count, link := GrownLinks(sh.link, base, count), completed := GrownCounts(sh.completed, base, count),
                  listAlloc := base + 1, allocSeq := NewBlocks(base, count)[1..], taken := [base],
                  home := GrownHome(sh.home, base, count))
    && th' == th.(pc := Fresh(base))
  }

  /** alloc_work_share, gomp_init_work_share and gomp_work_share_init_done. */
  ghost predicate AllocStep(sh: Shared, th: Thread, sh': Shared, th': Thread) {
    match th.pc
    case Pop =>
      if sh.listAlloc != 0 then
        && sh.listAlloc in sh.link && sh.allocSeq != []
        && sh' == sh.(listAlloc := sh.link[sh.listAlloc], allocSeq := sh.allocSeq[1..], taken := [sh.listAlloc],
                      home := sh.home[sh.listAlloc := Taken])
        && th' == th.(pc := Fresh(sh.listAlloc))
      else
        sh' == sh && th' == th.(pc := Peek(sh.listFree))
    case Peek(h) =>
      sh' == sh && th' == th.(pc := if h in sh.link && sh.link[h] != 0 then Cut(h, sh.link[h]) else Grow)
    case Cut(h, x) => exists i: nat :: CutStep(sh, th, i, sh', th')
    case Take(x) =>
      && x in sh.link && sh.taken != []
      && sh' == sh.(listAlloc := sh.link[x], allocSeq := sh.taken[1..], taken := [x],
                    home := MoveHome(sh.home, sh.taken[1..], OnAlloc))
      && th' == th.(pc := Fresh(x))
    case Grow => exists base :: GrowStep(sh, th, base, sh', th')
    case Fresh(b) =>
      && sh' == sh.(link := sh.link[b := 0], completed := sh.completed[b := 0], blk := sh.blk + [b], taken := [],
                    home := sh.home[b := InUse(|sh.blk|)])
      && th' == th.(cur := th.cur + 1, ws := b, pc := Publishing)
    case Publishing =>
      sh' == sh.(link := sh.link[th.last := th.ws], allocator := None) && th' == th.(pc := Waking)
    case Waking => sh' == sh && th' == th.(pc := Inside)
    case _ => false
  }

  ghost predicate Step(n: nat, bar: nat -> bool, sh: Shared, t: Tid, th: Thread, sh': Shared, th': Thread) {
    || (th.pc == Inside && EndStep(n, bar, sh, t, th, sh', th'))
    || PushStep(bar, sh, th, sh', th')
    || BarrierStep(n, sh, th, sh', th')
    || StartStep(sh, t, th, sh', th')
    || AllocStep(sh, th, sh', th')
  }

  ghost predicate StepOf(bar: nat -> bool, s: State, t: Tid, s': State)
    requires t in s.threads
  {
    && t in s'.threads && s'.threads == s.threads[t := s'.threads[t]]
    && Step(|s.threads.Keys|, bar, s.sh, t, s.threads[t], s'.sh, s'.threads[t])
  }

  ghost predicate Next(bar: nat -> bool, s: State, s': State) {
    exists t :: t in s.threads && StepOf(bar, s, t, s')
  }

  /** gomp_new_team: the first of eight blocks serves construct 0, the others are spare. */
  ghost predicate Init(s: State) {
    exists base: Block :: base > 2 && InitAt(s, base)
  }

  ghost predicate InitAt(s: State, base: Block) {
    var spare := NewBlocks(base, 8);
    && s.threads.Keys != {}
    && s.sh == Shared(GrownLinks(map[], base, 8)[base := 0], GrownCounts(map[], base, 8), 0, base + 1, 8,
                      |s.threads.Keys|, 0, [base], 0, [], spare[1..], [], GrownHome(map[], base, 8)[base := InUse(0)],
                      None, None, None, -1)
    && forall t | t in s.threads :: s.threads[t] == Thread(0, base, 0, Inside)
  }

  // ---------------------------------------------------------------- invariant

  /** s lists the blocks found by following links from head. */
  ghost predicate IsList(link: map<Block, int>, head: int, s: seq<Block>) {
    && head == (if s == [] then 0 else s[0])
    && NoDup(s)
    && forall i | 0 <= i < |s| :: LinksOn(link, s, i)
  }

  /** The element at i links to the one behind it, the last one to NULL. */
  ghost predicate LinksOn(link: map<Block, int>, s: seq<Block>, i: nat)
    requires i < |s|
  {
    s[i] in link && link[s[i]] == if i + 1 < |s| then s[i + 1] else 0
  }

  ghost predicate KeysOk(sh: Shared) {
    && sh.link.Keys == sh.completed.Keys == sh.home.Keys
    && forall b | b in sh.home :: b > 2
  }

  /** Blocks in use, on the two lists, and taken, are apart. */
  ghost predicate HomesOk(sh: Shared) {
    UsedOk(sh) && ListedOk(sh)
  }

  ghost predicate UsedOk(sh: Shared) {
    && sh.freed < |sh.blk|
    && (forall j | sh.freed <= j < |sh.blk| :: sh.blk[j] in sh.home && sh.home[sh.blk[j]] == InUse(j))
    && (forall b | b in sh.home && sh.home[b].InUse? :: sh.freed <= sh.home[b].construct < |sh.blk|)
    && (forall b | b in sh.home && sh.home[b].InUse? :: sh.blk[sh.home[b].construct] == b)
  }

  ghost predicate ListedOk(sh: Shared) {
    && (forall b | b in sh.home :: b in sh.freeSeq <==> sh.home[b] == OnFree)
    && (forall b | b in sh.home :: b in sh.allocSeq <==> sh.home[b] == OnAlloc)
    && (forall b | b in sh.home :: b in sh.taken <==> sh.home[b] == Taken)
  }

  ghost predicate ListsOk(sh: Shared) {
    && IsList(sh.link, sh.listFree, sh.freeSeq)
    && IsList(sh.link, sh.listAlloc, sh.allocSeq)
    && (sh.allocator == None ==> sh.taken == [])
    && (forall b | b in sh.taken :: b in sh.link)
  }

  /** next_ws of the block of construct j, unless that block is being freed. */
  ghost predicate LinkOk(sh: Shared, j: nat)
    requires j < |sh.blk| && sh.blk[j] in sh.link
  {
    var next := sh.link[sh.blk[j]];
    if j + 1 < |sh.blk| then next == sh.blk[j + 1] || (next in {1, 2} && j + 2 == |sh.blk|)
    else next in {0, 1, 2}
  }

  ghost predicate LinksOk(sh: Shared) {
    && (forall j: nat | sh.freed <= j < |sh.blk| :: sh.blk[j] in sh.link)
    && (forall j: nat | sh.freed <= j < |sh.blk| && (j > sh.freed || sh.pusher == None) :: LinkOk(sh, j))
    && sh.chunk >= 1
  }

  ghost predicate SharedOk(sh: Shared) {
    KeysOk(sh) && HomesOk(sh) && ListsOk(sh) && LinksOk(sh)
  }

  predicate Allocating(pc: Pc) {
    pc.Pop? || pc.Peek? || pc.Cut? || pc.Take? || pc.Grow? || pc.Fresh? || pc.Publishing?
  }

  predicate Pushing(pc: Pc) {
    pc.Push? || pc.PushLink? || pc.PushSwap?
  }

  predicate Ended(pc: Pc) {
    !(pc.Inside? || pc.Publishing? || pc.Waking?)
  }

  /** The thread has completed construct j, or arrived at the barrier at its end. */
  predicate Completed(th: Thread, j: nat) {
    j < th.cur || (j == th.cur && Ended(th.pc))
  }

  /** At a barrier that is not released. */
  predicate AtBarrier(bar: nat -> bool, sh: Shared, th: Thread) {
    match th.pc
    case Waiting(g) => g == sh.gen
    case Releasing => true
    case _ => Pushing(th.pc) && bar(th.cur)
  }

  ghost predicate PlaceOk(sh: Shared, th: Thread) {
    && th.cur < |sh.blk| && th.ws == sh.blk[th.cur]
    && (sh.freed == 0 || Completed(th, sh.freed))
    && (th.pc.Inside? || th.pc.Waiting? || th.pc.Releasing? || Pushing(th.pc) || th.pc.Publishing? || th.pc.Waking? ==>
          th.last == if th.cur == 0 then 0 else sh.blk[th.cur - 1])
    && (th.pc.Publishing? || th.pc.Waking? ==> th.cur > 0)
    && (th.pc == Getting || (Allocating(th.pc) && !th.pc.Publishing?) ==> th.last == th.ws)
  }

  ghost predicate TokensOk(bar: nat -> bool, sh: Shared, t: Tid, th: Thread) {
    && (Allocating(th.pc) <==> sh.allocator == Some(t))
    && (Pushing(th.pc) <==> sh.pusher == Some(t))
    && (sh.lastIn == Some(t) <==> th.pc == Releasing || (Pushing(th.pc) && bar(th.cur)))
    && (sh.pusher != None ==> Completed(th, sh.freed + 1))
    && (sh.lastIn != None ==> AtBarrier(bar, sh, th))
  }

  ghost predicate PusherOk(sh: Shared, th: Thread)
    requires th.cur < |sh.blk|
  {
    && (Pushing(th.pc) ==> th.cur == sh.freed + 1)
    && (th.pc.PushLink? || th.pc.PushSwap? ==> th.pc.r == sh.listFree)
    && (th.pc.PushSwap? ==> th.last in sh.link && sh.link[th.last] == th.pc.r)
  }

  /** Somebody is setting next_ws of the block of construct j. */
  ghost predicate BeingSet(sh: Shared, j: nat) {
    j < |sh.blk| && sh.blk[j] in sh.link && sh.link[sh.blk[j]] in {1, 2}
  }

  ghost predicate Follows(freeSeq: seq<Block>, h: int, x: int) {
    exists i, k :: 0 <= i && k == i + 1 < |freeSeq| && freeSeq[i] == h && freeSeq[k] == x
  }

  ghost predicate AllocatorOk(sh: Shared, th: Thread) {
    && (Allocating(th.pc) ==>
          th.cur + 1 == |sh.blk| && if th.pc.Publishing? then th.cur > 0 && BeingSet(sh, th.cur - 1) else BeingSet(sh, th.cur))
    && (th.pc.Peek? || th.pc.Cut? || th.pc.Take? || th.pc.Grow? ==> sh.listAlloc == 0 && sh.allocSeq == [])
    && (th.pc.Pop? || th.pc.Peek? || th.pc.Cut? || th.pc.Grow? || th.pc.Publishing? ==> sh.taken == [])
    && (th.pc.Peek? ==> th.pc.h == 0 || th.pc.h in sh.freeSeq)
    && (th.pc.Cut? ==> Follows(sh.freeSeq, th.pc.h, th.pc.x))
    && (th.pc.Take? ==> sh.taken != [] && IsList(sh.link, th.pc.x, sh.taken))
    && (th.pc.Fresh? ==> sh.taken == [th.pc.b])
  }

  ghost predicate Linked(sh: Shared, j: nat) {
    j + 1 < |sh.blk| && sh.blk[j] in sh.link && sh.link[sh.blk[j]] == sh.blk[j + 1]
  }

  /** The block of the construct that a thread is in has been published, unless the thread is
      about to do that itself. */
  ghost predicate PublishedOk(sh: Shared, th: Thread) {
    th.cur > 0 && !th.pc.Publishing? && sh.freed < th.cur && (sh.pusher != None ==> sh.freed + 1 < th.cur) ==>
      Linked(sh, th.cur - 1)
  }

  ghost predicate BarrierOk(bar: nat -> bool, sh: Shared, th: Thread) {
    && (forall j: nat | sh.lastBarrier < j < th.cur :: !bar(j))
    && (bar(th.cur) && sh.lastBarrier < th.cur && Ended(th.pc) ==> AtBarrier(bar, sh, th))
    && (sh.lastBarrier < th.cur || (sh.lastBarrier == th.cur && Ended(th.pc) && !AtBarrier(bar, sh, th)))
    && (th.pc.Waiting? ==> bar(th.cur) && th.pc.g <= sh.gen)
    && (th.pc == Releasing ==> bar(th.cur) && th.cur <= sh.freed)
  }

  ghost predicate ThreadOk(bar: nat -> bool, sh: Shared, t: Tid, th: Thread) {
    && PlaceOk(sh, th) && TokensOk(bar, sh, t, th) && PusherOk(sh, th) && AllocatorOk(sh, th)
    && PublishedOk(sh, th) && BarrierOk(bar, sh, th)
  }

  ghost function Done(s: State, j: nat): set<Tid> {
    set t | t in s.threads && Completed(s.threads[t], j)
  }

  ghost function Arrived(bar: nat -> bool, s: State): set<Tid> {
    set t | t in s.threads && AtBarrier(bar, s.sh, s.threads[t])
  }

  ghost predicate Counted(s: State, j: nat) {
    j < |s.sh.blk| && s.sh.blk[j] in s.sh.completed && s.sh.completed[s.sh.blk[j]] == |Done(s, j)|
  }

  /** threads_completed counts; when all have completed the construct after the last one whose
      predecessor was freed, somebody is freeing. */
  ghost predicate CountsOk(bar: nat -> bool, s: State) {
    && s.threads.Keys != {}
    && (forall j: nat | s.sh.freed <= j < |s.sh.blk| && 0 < j && !bar(j) :: Counted(s, j))
    && s.sh.awaited == |s.threads.Keys| - |Arrived(bar, s)|
    && (Done(s, s.sh.freed + 1) == s.threads.Keys ==> s.sh.pusher != None)
    && (s.sh.allocator != None ==> s.sh.allocator.value in s.threads)
    && (s.sh.pusher != None ==> s.sh.pusher.value in s.threads)
    && (s.sh.lastIn != None ==> s.sh.lastIn.value in s.threads)
  }

  ghost predicate Inv(bar: nat -> bool, s: State) {
    && SharedOk(s.sh)
    && (forall t | t in s.threads :: ThreadOk(bar, s.sh, t, s.threads[t]))
    && CountsOk(bar, s)
  }

  lemma Parts(bar: nat -> bool, sh: Shared, t: Tid, th: Thread)
    requires ThreadOk(bar, sh, t, th)
    ensures PlaceOk(sh, th) && TokensOk(bar, sh, t, th) && PusherOk(sh, th) && AllocatorOk(sh, th)
    ensures PublishedOk(sh, th) && BarrierOk(bar, sh, th)
  {
    hide PlaceOk, TokensOk, PusherOk, AllocatorOk, PublishedOk, BarrierOk;
  }

  lemma SharedParts(sh: Shared)
    requires SharedOk(sh)
    ensures KeysOk(sh) && HomesOk(sh) && ListsOk(sh) && LinksOk(sh)
  {
    hide KeysOk, HomesOk, ListsOk, LinksOk;
  }
}
