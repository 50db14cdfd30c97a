/** What a step does to its own thread, and what the other threads may rely on: `ThreadOk` is
    kept. */
module WorkShareThreads {
  import opened Options
  import opened WorkShareSteps
  import opened WorkShareBlocks

  /** What a step by t leaves of the links that others depend on: next_ws of the block of a
      construct changes from unset to being set, or is published, or is reused for the free
      list by the thread that frees the block. */
  ghost predicate LinkMoves(sh: Shared, t: Tid, th: Thread, sh': Shared, j: nat)
    requires j < |sh.blk|
  {
    var b := sh.blk[j];
    && b in sh.link && b in sh'.link
    && (|| sh'.link[b] == sh.link[b]
        || (th.pc == Getting && j == th.cur && sh.link[b] in {0, 1} && sh'.link[b] in {1, 2})
        || (sh.pusher == Some(t) && j == sh.freed)
        || (th.pc == Publishing && j + 1 == th.cur < |sh.blk| && sh.link[b] in {1, 2} && sh'.link[b] == sh.blk[j + 1]))
  }

  ghost predicate LinksMove(sh: Shared, t: Tid, th: Thread, sh': Shared) {
    && (sh.allocator == Some(t) || forall b | b in sh.taken :: b in sh'.link && b in sh.link && sh'.link[b] == sh.link[b])
    && (forall j: nat | sh.freed <= j < |sh.blk| :: LinkMoves(sh, t, th, sh', j))
  }

  ghost predicate ListsMove(sh: Shared, t: Tid, sh': Shared) {
    && (sh'.listFree == sh.listFree || sh.pusher == Some(t))
    && (sh'.freeSeq == sh.freeSeq || sh.allocator == Some(t) || (exists b :: sh'.freeSeq == [b] + sh.freeSeq))
    && (sh.allocator == Some(t) || (sh'.listAlloc == sh.listAlloc && sh'.allocSeq == sh.allocSeq && sh'.taken == sh.taken))
  }

  predicate TokenMoves(a: Option<Tid>, t: Tid, a': Option<Tid>) {
    a' == a || (a in {None, Some(t)} && a' in {None, Some(t)})
  }

  ghost predicate ChainMoves(sh: Shared, t: Tid, th: Thread, sh': Shared) {
    && (sh'.blk == sh.blk || (sh.allocator == Some(t) == sh'.allocator && |sh'.blk| == |sh.blk| + 1 && sh'.blk[..|sh.blk|] == sh.blk))
    && (sh'.freed == sh.freed || (sh.pusher == Some(t) && sh'.freed == sh.freed + 1 && sh'.pusher == None))
    && TokenMoves(sh.allocator, t, sh'.allocator)
    && TokenMoves(sh.pusher, t, sh'.pusher)
    && (sh.pusher != None && sh'.pusher == None ==> sh'.freed == sh.freed + 1)
    && TokenMoves(sh.lastIn, t, sh'.lastIn)
    && ((sh'.gen == sh.gen && sh'.lastBarrier == sh.lastBarrier) ||
        (th.pc == Releasing && sh'.gen == sh.gen + 1 && sh'.lastBarrier == th.cur && sh'.lastIn == None && sh'.freed == sh.freed))
  }

  /** What the other threads may rely on. */
  ghost predicate Guarantee(sh: Shared, t: Tid, th: Thread, sh': Shared) {
    ChainMoves(sh, t, th, sh') && ListsMove(sh, t, sh') && LinksMove(sh, t, th, sh')
  }

  lemma SameLinksMove(sh: Shared, t: Tid, th: Thread, sh': Shared)
    requires SharedOk(sh) && sh'.link == sh.link
    ensures LinksMove(sh, t, th, sh')
  {
    hide IsList, HomesOk, LinkOk;
  }

  lemma UsedLinkMoves(sh: Shared, t: Tid, th: Thread, b: Block, v: int, sh': Shared)
    requires SharedOk(sh) && b in sh.home && sh.home[b].InUse? && sh'.link == sh.link[b := v]
    requires forall j: nat | sh.freed <= j < |sh.blk| && sh.blk[j] == b :: LinkMoves(sh, t, th, sh', j)
    ensures LinksMove(sh, t, th, sh')
  {
    assert forall x | x in sh.taken :: x != b && x in sh.link;
    hide IsList, HomesOk, LinkOk;
  }

  lemma UnusedLinkMoves(sh: Shared, t: Tid, th: Thread, b: Block, v: int, sh': Shared)
    requires SharedOk(sh) && b in sh.home && !sh.home[b].InUse? && sh.allocator == Some(t) && sh'.link == sh.link[b := v]
    ensures LinksMove(sh, t, th, sh')
  {
    assert forall j: nat | sh.freed <= j < |sh.blk| :: sh.blk[j] != b;
    hide IsList, HomesOk, LinkOk;
  }

  lemma StartGuarantees(bar: nat -> bool, sh: Shared, t: Tid, th: Thread, sh': Shared, th': Thread)
    requires SharedOk(sh) && ThreadOk(bar, sh, t, th) && StartStep(sh, t, th, sh', th') && AllocatorLinks(sh)
    ensures Guarantee(sh, t, th, sh')
  {
    if th.pc == Getting && sh.link[th.last] in {0, 1} {
      GetterKnows(bar, sh, t, th);
      if sh.link[th.last] == 0 { NoAllocator(bar, sh, t, th); }
      hide ThreadOk, SharedOk;
      UsedLinkMoves(sh, t, th, th.last, sh.link[th.last] + 1, sh');
      hide LinksMove;
    } else {
      assert sh' == sh;
      hide ThreadOk, SharedOk, StartStep;
      SameLinksMove(sh, t, th, sh');
      hide LinksMove;
    }
  }

  lemma GetterKnows(bar: nat -> bool, sh: Shared, t: Tid, th: Thread)
    requires SharedOk(sh) && ThreadOk(bar, sh, t, th) && th.pc == Getting
    ensures th.last in sh.home && sh.home[th.last].InUse? && sh.allocator != Some(t)
    ensures th.last == th.ws && th.cur < |sh.blk|
    ensures forall j: nat | sh.freed <= j < |sh.blk| && sh.blk[j] == th.last :: j == th.cur
  {
    NextWs(bar, sh, t, th);
    hide ListsOk, LinksOk, AllocatorOk, PublishedOk, BarrierOk, PusherOk;
    assert th.last == th.ws && sh.freed <= th.cur;
    forall j: nat | sh.freed <= j < |sh.blk| && sh.blk[j] == th.ws ensures j == th.cur {
      if j != th.cur { UsedAreApart(sh, j, th.cur); }
    }
  }
  lemma PushGuarantees(bar: nat -> bool, sh: Shared, t: Tid, th: Thread, sh': Shared, th': Thread)
    requires SharedOk(sh) && ThreadOk(bar, sh, t, th) && PushStep(bar, sh, th, sh', th')
    ensures Guarantee(sh, t, th, sh')
  {
    PusherKnows(bar, sh, t, th);
    hide ThreadOk, SharedOk;
    if th.pc.PushLink? {
      PushLinkGuarantees(sh, t, th, sh');
    } else if th.pc.PushSwap? {
      SameLinksMove(sh, t, th, sh');
      hide LinksMove;
    } else {
      SameLinksMove(sh, t, th, sh');
      hide LinksMove;
    }
  }

  lemma PushLinkGuarantees(sh: Shared, t: Tid, th: Thread, sh': Shared)
    requires SharedOk(sh) && sh.pusher == Some(t) && sh.freed < |sh.blk| && th.last == sh.blk[sh.freed]
    requires th.last in sh.home && sh.home[th.last].InUse? && th.last in sh.link
    requires th.pc.PushLink? && sh' == sh.(link := sh.link[th.last := th.pc.r])
    ensures Guarantee(sh, t, th, sh')
  {
    forall j: nat | sh.freed <= j < |sh.blk| && sh.blk[j] == th.last ensures LinkMoves(sh, t, th, sh', j) {
      if j != sh.freed { UsedAreApart(sh, j, sh.freed); }
    }
    hide SharedOk, LinkMoves;
    UsedLinkMoves(sh, t, th, th.last, th.pc.r, sh');
    hide LinksMove;
  }
  lemma AllocGuarantees(bar: nat -> bool, sh: Shared, t: Tid, th: Thread, sh': Shared, th': Thread)
    requires SharedOk(sh) && ThreadOk(bar, sh, t, th) && AllocStep(sh, th, sh', th') && !th.pc.Waking?
    ensures Guarantee(sh, t, th, sh')
  {
    hide SharedOk, ThreadOk, LinksMove, BeingSet, PreviousLinked, GrownLinks, GrownCounts, GrownHome, MoveHome, NewBlocks;
    assert Allocating(th.pc);
    AllocatorKnows(bar, sh, t, th);
    AllocLinks(bar, sh, t, th, sh', th');
    assert ListsMove(sh, t, sh');
    assert ChainMoves(sh, t, th, sh');
  }

  lemma CutLinks(sh: Shared, t: Tid, th: Thread, i: nat, sh': Shared, th': Thread)
    requires SharedOk(sh) && CutStep(sh, th, i, sh', th') && sh.allocator == Some(t)
    ensures LinksMove(sh, t, th, sh')
  {
    var h := th.pc.h;
    assert LinksOn(sh.link, sh.freeSeq, i) && h in sh.freeSeq && sh.home[h] == OnFree;
    hide SharedOk;
    UnusedLinkMoves(sh, t, th, h, 0, sh');
  }

  lemma GrowLinks(sh: Shared, t: Tid, th: Thread, base: Block, sh': Shared, th': Thread)
    requires SharedOk(sh) && GrowStep(sh, th, base, sh', th') && sh.allocator == Some(t)
    ensures LinksMove(sh, t, th, sh')
  {
    assert forall b | b in NewBlocks(base, 2 * sh.chunk) :: b !in sh.home;
    BlocksInUse(sh);
    GrownMapsAre(sh, base, 2 * sh.chunk);
    hide *;
    KeptLinksMove(sh, t, th, sh');
  }

  lemma PublishLinks(sh: Shared, t: Tid, th: Thread, sh': Shared)
    requires SharedOk(sh) && sh.allocator == Some(t) && th.cur + 1 == |sh.blk| && th.cur > 0 && sh.freed < th.cur
    requires th.pc == Publishing && BeingSet(sh, th.cur - 1) && sh'.link == sh.link[sh.blk[th.cur - 1] := sh.blk[th.cur]]
    ensures LinksMove(sh, t, th, sh')
  {
    var b := sh.blk[th.cur - 1];
    assert b in sh.home && sh.home[b].InUse?;
    forall j: nat | sh.freed <= j < |sh.blk| && sh.blk[j] == b ensures LinkMoves(sh, t, th, sh', j) {
      assert sh.home[b] == InUse(th.cur - 1) && sh.home[sh.blk[j]] == InUse(j);
    }
    hide SharedOk;
    UsedLinkMoves(sh, t, th, b, sh.blk[th.cur], sh');
  }

  lemma AllocLinks(bar: nat -> bool, sh: Shared, t: Tid, th: Thread, sh': Shared, th': Thread)
    requires SharedOk(sh) && ThreadOk(bar, sh, t, th) && AllocStep(sh, th, sh', th') && !th.pc.Waking?
    ensures LinksMove(sh, t, th, sh')
  {
    AllocatorKnows(bar, sh, t, th);
    assert th.ws == sh.blk[th.cur];
    if th.pc.Fresh? {
      assert th.pc.b in sh.taken && th.pc.b in sh.home;
      hide SharedOk, ThreadOk;
      UnusedLinkMoves(sh, t, th, th.pc.b, 0, sh');
    } else {
      hide SharedOk, ThreadOk, CutStep, GrowStep, LinksMove, BeingSet, PreviousLinked;
      if th.pc.Cut? {
        var i: nat :| CutStep(sh, th, i, sh', th');
        CutLinks(sh, t, th, i, sh', th');
      } else if th.pc.Grow? {
        var base :| GrowStep(sh, th, base, sh', th');
        GrowLinks(sh, t, th, base, sh', th');
      } else if th.pc.Publishing? {
        PublishLinks(sh, t, th, sh');
      } else {
        SameLinksMove(sh, t, th, sh');
      }
    }
  }

  lemma KeptLinksMove(sh: Shared, t: Tid, th: Thread, sh': Shared)
    requires forall b | b in sh.link :: b in sh'.link && sh'.link[b] == sh.link[b]
    requires forall j: nat | sh.freed <= j < |sh.blk| :: sh.blk[j] in sh.link
    requires sh.allocator == Some(t)
    ensures LinksMove(sh, t, th, sh')
  {
  }

  /** While a block is allocated, some next_ws is being set: that of the last block, or, when the
      new block is ready, of the one before. */
  ghost predicate AllocatorLinks(sh: Shared) {
    sh.allocator != None ==>
      || (|sh.blk| >= 1 && BeingSet(sh, |sh.blk| - 1))
      || (|sh.blk| >= 2 && BeingSet(sh, |sh.blk| - 2) && sh.freed + 1 < |sh.blk| && (sh.pusher != None ==> sh.freed + 2 < |sh.blk|))
  }

  /** Whoever finds next_ws unset may set the token of the allocating thread. */
  lemma NoAllocator(bar: nat -> bool, sh: Shared, t: Tid, th: Thread)
    requires SharedOk(sh) && ThreadOk(bar, sh, t, th) && th.pc == Getting && th.last in sh.link && sh.link[th.last] == 0
    requires AllocatorLinks(sh)
    ensures sh.allocator == None && th.cur + 1 == |sh.blk|
  {
    NextWs(bar, sh, t, th);
    hide IsList, AllocatorOk, BarrierOk, LinksOk, ListsOk;
  }

  lemma StepGuarantees(n: nat, bar: nat -> bool, sh: Shared, t: Tid, th: Thread, sh': Shared, th': Thread)
    requires SharedOk(sh) && ThreadOk(bar, sh, t, th) && Step(n, bar, sh, t, th, sh', th') && AllocatorLinks(sh)
    requires EndAlone(bar, sh, t, th, sh')
    ensures Guarantee(sh, t, th, sh')
  {
    hide SharedOk, ThreadOk, AllocStep, StartStep, PushStep, Guarantee, AllocatorLinks;
    if AllocStep(sh, th, sh', th') {
      if th.pc.Waking? {
        WakingGuarantees(sh, t, th, sh', th');
      } else {
        AllocGuarantees(bar, sh, t, th, sh', th');
      }
    } else if StartStep(sh, t, th, sh', th') {
      StartGuarantees(bar, sh, t, th, sh', th');
    } else if PushStep(bar, sh, th, sh', th') {
      PushGuarantees(bar, sh, t, th, sh', th');
    } else {
      EndGuarantees(n, bar, sh, t, th, sh', th');
    }
  }

  lemma WakingGuarantees(sh: Shared, t: Tid, th: Thread, sh': Shared, th': Thread)
    requires SharedOk(sh) && AllocStep(sh, th, sh', th') && th.pc.Waking?
    ensures Guarantee(sh, t, th, sh')
  {
    SameLinksMove(sh, t, th, sh');
    hide SharedOk, LinksMove;
  }

  /** A thread that ends a construct last finds nobody freeing a block, and nobody else last at
      the barrier. */
  ghost predicate EndAlone(bar: nat -> bool, sh: Shared, t: Tid, th: Thread, sh': Shared) {
    && (th.pc == Inside && sh'.pusher == Some(t) ==> sh.pusher == None && th.cur == sh.freed + 1)
    && (th.pc == Inside && sh'.lastIn == Some(t) ==> sh.lastIn == None)
    && (th.pc == Inside && sh'.lastIn == Some(t) && sh'.pusher != Some(t) ==> th.cur <= sh.freed)
  }

  lemma EndGuarantees(n: nat, bar: nat -> bool, sh: Shared, t: Tid, th: Thread, sh': Shared, th': Thread)
    requires SharedOk(sh) && ThreadOk(bar, sh, t, th) && EndAlone(bar, sh, t, th, sh')
    requires (th.pc == Inside && EndStep(n, bar, sh, t, th, sh', th')) || BarrierStep(n, sh, th, sh', th')
    ensures Guarantee(sh, t, th, sh')
  {
    SameLinksMove(sh, t, th, sh');
    assert th.pc == Releasing ==> sh.lastIn == Some(t);
    hide SharedOk, LinksMove, ThreadOk;
  }

  // the other threads

  /** What is known of another thread u when t makes its step. */
  ghost predicate PeerOk(bar: nat -> bool, sh: Shared, t: Tid, th: Thread, sh': Shared, uh: Thread) {
    && (th.pc == Inside && sh'.pusher == Some(t) ==> Completed(uh, sh.freed + 1))
    && (th.pc == Inside && sh'.lastIn == Some(t) ==> AtBarrier(bar, sh, uh))
    && (th.pc == Releasing ==> AtBarrier(bar, sh, uh) && uh.cur == th.cur)
  }

  lemma OtherPlace(sh: Shared, t: Tid, th: Thread, sh': Shared, bar: nat -> bool, u: Tid, uh: Thread)
    requires ThreadOk(bar, sh, u, uh) && ChainMoves(sh, t, th, sh') && u != t
    ensures PlaceOk(sh', uh)
  {
    assert forall j | 0 <= j < |sh.blk| :: sh'.blk[j] == sh.blk[j] by {
      if sh'.blk != sh.blk {
        assert forall j | 0 <= j < |sh.blk| :: sh'.blk[..|sh.blk|][j] == sh'.blk[j];
      }
    }
    hide AllocatorOk, PusherOk, PublishedOk, BarrierOk;
  }

  lemma OtherTokens(bar: nat -> bool, sh: Shared, t: Tid, th: Thread, sh': Shared, u: Tid, uh: Thread)
    requires ThreadOk(bar, sh, u, uh) && ChainMoves(sh, t, th, sh') && u != t && PeerOk(bar, sh, t, th, sh', uh)
    requires (th.pc == Inside || sh'.pusher != Some(t) || sh.pusher == Some(t)) && (th.pc == Inside || sh'.lastIn != Some(t) || sh.lastIn == Some(t))
    ensures TokensOk(bar, sh', u, uh)
  {
    hide AllocatorOk, PusherOk, PublishedOk, PlaceOk;
  }

  lemma OtherBarrier(bar: nat -> bool, sh: Shared, t: Tid, th: Thread, sh': Shared, u: Tid, uh: Thread)
    requires ThreadOk(bar, sh, u, uh) && ChainMoves(sh, t, th, sh') && u != t && PeerOk(bar, sh, t, th, sh', uh)
    requires th.pc == Releasing ==> sh.lastIn == Some(t)
    ensures BarrierOk(bar, sh', uh)
  {
    hide AllocatorOk, PusherOk, PublishedOk, PlaceOk;
  }

  lemma OtherPusher(bar: nat -> bool, sh: Shared, t: Tid, th: Thread, sh': Shared, u: Tid, uh: Thread)
    requires ThreadOk(bar, sh, t, th) && ThreadOk(bar, sh, u, uh) && Guarantee(sh, t, th, sh') && u != t
    ensures uh.cur < |sh'.blk| && PusherOk(sh', uh)
  {
    if Pushing(uh.pc) {
      assert sh.freed < |sh.blk| && LinkMoves(sh, t, th, sh', sh.freed);
    }
    hide AllocatorOk, PublishedOk, BarrierOk, LinksMove;
  }

  lemma OtherPublished(bar: nat -> bool, sh: Shared, t: Tid, th: Thread, sh': Shared, u: Tid, uh: Thread)
    requires KeysOk(sh) && HomesOk(sh) && ThreadOk(bar, sh, u, uh) && Guarantee(sh, t, th, sh') && u != t
    requires PeerOk(bar, sh, t, th, sh', uh)
    ensures PublishedOk(sh', uh)
  {
    hide ThreadOk, AllocatorOk, BarrierOk, PeerOk, ListsMove, PusherOk, TokensOk;
    Parts(bar, sh, u, uh);
    if 0 < uh.cur && sh.freed < uh.cur && (sh.pusher != None ==> sh.freed + 1 < uh.cur) && !uh.pc.Publishing? {
      var j := uh.cur - 1;
      assert Linked(sh, j) && LinkMoves(sh, t, th, sh', j);
      assert sh.blk[j + 1] in sh.home;
      SameBlocks(sh, t, th, sh', j);
      SameBlocks(sh, t, th, sh', j + 1);
      hide HomesOk, LinksMove, PlaceOk;
    } else {
      hide HomesOk, KeysOk, LinksMove, Linked;
    }
  }

  lemma SameBlocks(sh: Shared, t: Tid, th: Thread, sh': Shared, j: nat)
    requires ChainMoves(sh, t, th, sh') && j < |sh.blk|
    ensures j < |sh'.blk| && sh'.blk[j] == sh.blk[j]
  {
    if sh'.blk != sh.blk {
      assert sh'.blk[..|sh.blk|][j] == sh'.blk[j];
    }
  }

  lemma FollowsAfterPush(freeSeq: seq<Block>, b: Block, h: int, x: int)
    requires Follows(freeSeq, h, x)
    ensures Follows([b] + freeSeq, h, x)
  {
    var i, k :| 0 <= i && k == i + 1 < |freeSeq| && freeSeq[i] == h && freeSeq[k] == x;
    assert ([b] + freeSeq)[i + 1] == h && ([b] + freeSeq)[k + 1] == x;
  }

  lemma OtherLists(bar: nat -> bool, sh: Shared, t: Tid, th: Thread, sh': Shared, u: Tid, uh: Thread)
    requires ListsOk(sh) && ThreadOk(bar, sh, u, uh) && Guarantee(sh, t, th, sh') && u != t && Allocating(uh.pc)
    ensures uh.pc.Peek? ==> uh.pc.h == 0 || uh.pc.h in sh'.freeSeq
    ensures uh.pc.Cut? ==> Follows(sh'.freeSeq, uh.pc.h, uh.pc.x)
    ensures uh.pc.Take? ==> sh'.taken != [] && IsList(sh'.link, uh.pc.x, sh'.taken)
    ensures sh'.listAlloc == sh.listAlloc && sh'.allocSeq == sh.allocSeq && sh'.taken == sh.taken
  {
    assert sh.allocator == Some(u);
    if uh.pc.Take? { ListKept(sh.link, sh'.link, uh.pc.x, sh.taken); }
    if sh'.freeSeq != sh.freeSeq {
      var b :| sh'.freeSeq == [b] + sh.freeSeq;
      if uh.pc.Cut? { FollowsAfterPush(sh.freeSeq, b, uh.pc.h, uh.pc.x); }
    }
    hide PlaceOk, PublishedOk, BarrierOk, PusherOk, IsList, Follows;
  }

  lemma OtherBeingSet(bar: nat -> bool, sh: Shared, t: Tid, th: Thread, sh': Shared, u: Tid, uh: Thread, j: nat)
    requires ThreadOk(bar, sh, t, th) && ThreadOk(bar, sh, u, uh) && Guarantee(sh, t, th, sh') && u != t && Allocating(uh.pc)
    requires j == if uh.pc.Publishing? then uh.cur - 1 else uh.cur
    ensures sh'.blk == sh.blk && BeingSet(sh', j)
  {
    assert sh.allocator == Some(u) && sh.allocator != Some(t);
    assert sh.freed <= j && BeingSet(sh, j) && (sh.pusher == Some(t) ==> j > sh.freed);
    assert LinkMoves(sh, t, th, sh', j);
    hide PublishedOk, BarrierOk, PusherOk, ListsMove, LinksMove, PlaceOk;
  }

  lemma OtherAllocator(bar: nat -> bool, sh: Shared, t: Tid, th: Thread, sh': Shared, u: Tid, uh: Thread)
    requires ListsOk(sh) && ThreadOk(bar, sh, t, th) && ThreadOk(bar, sh, u, uh) && Guarantee(sh, t, th, sh') && u != t
    ensures AllocatorOk(sh', uh)
  {
    if Allocating(uh.pc) {
      OtherLists(bar, sh, t, th, sh', u, uh);
      OtherBeingSet(bar, sh, t, th, sh', u, uh, if uh.pc.Publishing? then uh.cur - 1 else uh.cur);
    }
    hide PlaceOk, PublishedOk, BarrierOk, PusherOk, IsList, Follows, Guarantee, BeingSet;
  }

  lemma OtherThread(bar: nat -> bool, sh: Shared, t: Tid, th: Thread, sh': Shared, u: Tid, uh: Thread)
    requires SharedOk(sh) && ThreadOk(bar, sh, t, th) && ThreadOk(bar, sh, u, uh) && Guarantee(sh, t, th, sh') && u != t
    requires PeerOk(bar, sh, t, th, sh', uh) && TokensSetAtEnd(sh, t, th, sh')
    ensures ThreadOk(bar, sh', u, uh)
  {
    assert th.pc == Releasing ==> sh.lastIn == Some(t);
    hide ThreadOk, PlaceOk, TokensOk, PusherOk, AllocatorOk, PublishedOk, BarrierOk, PeerOk, ListsMove, LinksMove;
    OtherPlace(sh, t, th, sh', bar, u, uh);
    OtherTokens(bar, sh, t, th, sh', u, uh);
    OtherPusher(bar, sh, t, th, sh', u, uh);
    OtherAllocator(bar, sh, t, th, sh', u, uh);
    OtherPublished(bar, sh, t, th, sh', u, uh);
    OtherBarrier(bar, sh, t, th, sh', u, uh);
    FromParts(bar, sh', u, uh);
  }

  lemma FromParts(bar: nat -> bool, sh: Shared, t: Tid, th: Thread)
    requires PlaceOk(sh, th) && TokensOk(bar, sh, t, th) && PusherOk(sh, th) && AllocatorOk(sh, th)
    requires PublishedOk(sh, th) && BarrierOk(bar, sh, th)
    ensures ThreadOk(bar, sh, t, th)
  {
  }

  ghost predicate TokensSetAtEnd(sh: Shared, t: Tid, th: Thread, sh': Shared) {
    && (sh'.pusher == Some(t) && sh.pusher != Some(t) ==> th.pc == Inside)
    && (sh'.lastIn == Some(t) && sh.lastIn != Some(t) ==> th.pc == Inside)
  }

  lemma StepSetsTokensAtEnd(n: nat, bar: nat -> bool, sh: Shared, t: Tid, th: Thread, sh': Shared, th': Thread)
    requires Step(n, bar, sh, t, th, sh', th')
    ensures TokensSetAtEnd(sh, t, th, sh')
  {
  }

  // the thread itself

  lemma NotAllocating(sh: Shared, th: Thread)
    requires !Allocating(th.pc)
    ensures AllocatorOk(sh, th)
  {
  }

  /** Nothing but counters and tokens changed. */
  lemma PublishedUnderPusher(sh: Shared, th: Thread, sh': Shared, th': Thread)
    requires PublishedOk(sh, th) && !th.pc.Publishing? && th'.cur == th.cur
    requires sh'.blk == sh.blk && sh'.link == sh.link && sh'.freed == sh.freed
    requires sh'.pusher == sh.pusher || (sh.pusher == None && sh'.pusher != None)
    ensures PublishedOk(sh', th')
  {
  }

  lemma EndPlace(n: nat, bar: nat -> bool, sh: Shared, t: Tid, th: Thread, sh': Shared, th': Thread)
    requires PlaceOk(sh, th) && PusherOk(sh, th) && th.pc == Inside && EndStep(n, bar, sh, t, th, sh', th')
    requires EndAlone(bar, sh, t, th, sh')
    ensures PlaceOk(sh', th') && PusherOk(sh', th')
  {
  }

  lemma EndTokens(n: nat, bar: nat -> bool, sh: Shared, t: Tid, th: Thread, sh': Shared, th': Thread)
    requires TokensOk(bar, sh, t, th) && th.pc == Inside && EndStep(n, bar, sh, t, th, sh', th')
    requires EndAlone(bar, sh, t, th, sh')
    ensures TokensOk(bar, sh', t, th')
  {
  }

  lemma EndBarrier(n: nat, bar: nat -> bool, sh: Shared, t: Tid, th: Thread, sh': Shared, th': Thread)
    requires BarrierOk(bar, sh, th) && th.pc == Inside && EndStep(n, bar, sh, t, th, sh', th')
    requires EndAlone(bar, sh, t, th, sh')
    ensures BarrierOk(bar, sh', th')
  {
  }

  lemma EndFrame(n: nat, bar: nat -> bool, sh: Shared, t: Tid, th: Thread, sh': Shared, th': Thread)
    requires th.pc == Inside && EndStep(n, bar, sh, t, th, sh', th') && EndAlone(bar, sh, t, th, sh')
    ensures sh'.blk == sh.blk && sh'.link == sh.link && sh'.freed == sh.freed && th'.cur == th.cur && !Allocating(th'.pc)
    ensures sh'.pusher == sh.pusher || (sh.pusher == None && sh'.pusher != None)
  {
  }

  lemma EndOwn(n: nat, bar: nat -> bool, sh: Shared, t: Tid, th: Thread, sh': Shared, th': Thread)
    requires ThreadOk(bar, sh, t, th) && th.pc == Inside && EndStep(n, bar, sh, t, th, sh', th')
    requires EndAlone(bar, sh, t, th, sh')
    ensures ThreadOk(bar, sh', t, th')
  {
    hide *;
    Parts(bar, sh, t, th);
    EndFrame(n, bar, sh, t, th, sh', th');
    NotAllocating(sh', th');
    PublishedUnderPusher(sh, th, sh', th');
    EndPlace(n, bar, sh, t, th, sh', th');
    EndTokens(n, bar, sh, t, th, sh', th');
    EndBarrier(n, bar, sh, t, th, sh', th');
    FromParts(bar, sh', t, th');
  }

  lemma PushOwn(bar: nat -> bool, sh: Shared, t: Tid, th: Thread, sh': Shared, th': Thread)
    requires LinksOk(sh) && ThreadOk(bar, sh, t, th) && PushStep(bar, sh, th, sh', th')
    ensures ThreadOk(bar, sh', t, th')
  {
    assert sh.freed < |sh.blk| && th.last == sh.blk[sh.freed] && th.last in sh.link;
    hide IsList, BeingSet, LinksOk, Linked, LinkOk;
    if th.pc.PushSwap? && sh.listFree == th.pc.r {
      PushedOwn(bar, sh, t, th, sh', th');
    } else {
      hide Completed, AtBarrier;
    }
  }

  lemma PushedOwn(bar: nat -> bool, sh: Shared, t: Tid, th: Thread, sh': Shared, th': Thread)
    requires ThreadOk(bar, sh, t, th) && PushStep(bar, sh, th, sh', th') && th.pc.PushSwap? && sh.listFree == th.pc.r
    ensures ThreadOk(bar, sh', t, th')
  {
    hide IsList, BeingSet, Linked;
  }
  lemma BarrierOwn(n: nat, bar: nat -> bool, sh: Shared, t: Tid, th: Thread, sh': Shared, th': Thread)
    requires ThreadOk(bar, sh, t, th) && BarrierStep(n, sh, th, sh', th')
    ensures ThreadOk(bar, sh', t, th')
  {
    hide IsList, Linked, BeingSet;
  }

  /** A thread that finds next_ws set goes on to the next construct. */
  lemma NextWsIsNext(bar: nat -> bool, sh: Shared, t: Tid, th: Thread)
    requires SharedOk(sh) && ThreadOk(bar, sh, t, th) && th.pc == Getting && th.last in sh.link
    ensures th.last == th.ws == sh.blk[th.cur]
    ensures sh.link[th.last] !in {0, 1, 2} ==> th.cur + 1 < |sh.blk| && sh.link[th.last] == sh.blk[th.cur + 1]
    ensures sh.link[th.last] !in {0, 1, 2} ==> Linked(sh, th.cur)
  {
    NextWs(bar, sh, t, th);
    hide SharedOk, AllocatorOk, BarrierOk, PublishedOk;
  }

  /** next_ws of the previous block is another word than next_ws of this one. */
  lemma PreviousIsOther(bar: nat -> bool, sh: Shared, t: Tid, th: Thread)
    requires SharedOk(sh) && ThreadOk(bar, sh, t, th) && sh.freed < th.cur
    ensures sh.blk[th.cur - 1] != th.ws
  {
    UsedAreApart(sh, th.cur - 1, th.cur);
  }

  lemma GettingPlace(bar: nat -> bool, sh: Shared, t: Tid, th: Thread, sh': Shared, th': Thread)
    requires SharedOk(sh) && ThreadOk(bar, sh, t, th) && StartStep(sh, t, th, sh', th') && AllocatorLinks(sh)
    ensures PlaceOk(sh', th') && TokensOk(bar, sh', t, th') && PusherOk(sh', th')
  {
    hide SharedOk, ThreadOk, AllocatorLinks, AllocatorOk, BarrierOk, PublishedOk, Linked;
    Parts(bar, sh, t, th);
    if th.pc == Getting {
      NextWsIsNext(bar, sh, t, th);
      if sh.link[th.last] == 0 {
        NoAllocator(bar, sh, t, th);
      }
    }
  }

  lemma PublishedKept(sh: Shared, th: Thread, b: Block, v: int, sh': Shared, th': Thread)
    requires PublishedOk(sh, th) && !th.pc.Publishing? && (th.cur > 0 && sh.freed < th.cur ==> th.cur <= |sh.blk| && sh.blk[th.cur - 1] != b)
    requires sh'.blk == sh.blk && sh'.freed == sh.freed && sh'.pusher == sh.pusher && sh'.link == sh.link[b := v]
    requires th'.cur == th.cur
    ensures PublishedOk(sh', th')
  {
  }

  lemma PublishedSame(sh: Shared, th: Thread, th': Thread)
    requires PublishedOk(sh, th) && !th.pc.Publishing? && th'.cur == th.cur
    ensures PublishedOk(sh, th')
  {
    hide Linked;
  }

  lemma PublishedNext(sh: Shared, th: Thread)
    requires th.cur > 0 && Linked(sh, th.cur - 1)
    ensures PublishedOk(sh, th)
  {
  }

  lemma GettingPublished(bar: nat -> bool, sh: Shared, t: Tid, th: Thread, sh': Shared, th': Thread)
    requires SharedOk(sh) && ThreadOk(bar, sh, t, th) && StartStep(sh, t, th, sh', th')
    ensures PublishedOk(sh', th')
  {
    hide SharedOk, ThreadOk, PublishedOk, Linked;
    Parts(bar, sh, t, th);
    hide AllocatorOk, BarrierOk, TokensOk, PusherOk;
    if th.pc == Getting {
      NextWsIsNext(bar, sh, t, th);
      if sh.link[th.last] in {0, 1} {
        if sh.freed < th.cur { PreviousIsOther(bar, sh, t, th); }
        PublishedKept(sh, th, th.last, sh.link[th.last] + 1, sh', th');
      } else if sh.link[th.last] == 2 {
        PublishedSame(sh, th, th');
      } else {
        PublishedNext(sh, th');
      }
    } else {
      PublishedSame(sh, th, th');
    }
  }

  lemma GettingAllocator(bar: nat -> bool, sh: Shared, t: Tid, th: Thread, sh': Shared, th': Thread)
    requires SharedOk(sh) && ThreadOk(bar, sh, t, th) && StartStep(sh, t, th, sh', th') && AllocatorLinks(sh)
    ensures AllocatorOk(sh', th')
  {
    if th.pc == Getting && sh.link[th.last] == 0 {
      NextWsIsNext(bar, sh, t, th);
      NoAllocator(bar, sh, t, th);
      assert sh.taken == [];
    }
    hide SharedOk, AllocatorLinks, AllocatorOk, BarrierOk, TokensOk, PublishedOk;
    assert Allocating(th'.pc) ==> th'.pc == Pop && th'.cur + 1 == |sh'.blk| && BeingSet(sh', th'.cur) && sh'.taken == [];
    PoppingOk(sh', th');
  }

  lemma PoppingOk(sh: Shared, th: Thread)
    requires Allocating(th.pc) ==> th.pc == Pop && th.cur + 1 == |sh.blk| && BeingSet(sh, th.cur) && sh.taken == []
    ensures AllocatorOk(sh, th)
  {
  }

  lemma StartBarrier(bar: nat -> bool, sh: Shared, t: Tid, th: Thread, sh': Shared, th': Thread)
    requires BarrierOk(bar, sh, th) && StartStep(sh, t, th, sh', th')
    ensures BarrierOk(bar, sh', th')
  {
  }

  lemma StartOwn(bar: nat -> bool, sh: Shared, t: Tid, th: Thread, sh': Shared, th': Thread)
    requires SharedOk(sh) && ThreadOk(bar, sh, t, th) && StartStep(sh, t, th, sh', th') && AllocatorLinks(sh)
    ensures ThreadOk(bar, sh', t, th')
  {
    hide *;
    Parts(bar, sh, t, th);
    GettingPlace(bar, sh, t, th, sh', th');
    GettingPublished(bar, sh, t, th, sh', th');
    GettingAllocator(bar, sh, t, th, sh', th');
    StartBarrier(bar, sh, t, th, sh', th');
    FromParts(bar, sh', t, th');
  }

  lemma EmptyList(link: map<Block, int>, head: int, s: seq<Block>)
    requires IsList(link, head, s) && 0 !in link
    ensures head == 0 <==> s == []
    ensures head == 0 || head in s
  {
    if s != [] { assert LinksOn(link, s, 0); }
  }

  lemma FollowerInList(link: map<Block, int>, head: int, s: seq<Block>, h: Block)
    requires IsList(link, head, s) && h in s
    ensures h in link && (link[h] != 0 ==> Follows(s, h, link[h]))
  {
    var i :| 0 <= i < |s| && s[i] == h;
    assert LinksOn(link, s, i);
    if i + 1 < |s| { assert s[i + 1] == link[h]; }
  }

  lemma PopOrPeekPoint(sh: Shared, th: Thread, sh': Shared, th': Thread)
    requires SharedOk(sh) && AllocatorOk(sh, th) && AllocStep(sh, th, sh', th') && (th.pc.Pop? || th.pc.Peek?)
    ensures AllocatorOk(sh', th')
  {
    assert 0 !in sh.link;
    EmptyList(sh.link, sh.listAlloc, sh.allocSeq);
    EmptyList(sh.link, sh.listFree, sh.freeSeq);
    if th.pc.Peek? && th.pc.h in sh.freeSeq { FollowerInList(sh.link, sh.listFree, sh.freeSeq, th.pc.h); }
    hide SharedOk, IsList, Follows;
  }

  lemma CutPoint(sh: Shared, th: Thread, i: nat, sh': Shared, th': Thread)
    requires SharedOk(sh) && AllocatorOk(sh, th) && CutStep(sh, th, i, sh', th')
    requires sh.freed <= th.cur && BeingSet(sh, th.cur)
    ensures AllocatorOk(sh', th')
  {
    var j, k :| 0 <= j && k == j + 1 < |sh.freeSeq| && sh.freeSeq[j] == th.pc.h && sh.freeSeq[k] == th.pc.x;
    assert j == i by { IsNoDup(sh.link, sh.listFree, sh.freeSeq); }
    SuffixIsList(sh.link, sh.listFree, sh.freeSeq, i);
    assert LinksOn(sh.link, sh.freeSeq, i) && th.pc.h in sh.freeSeq && sh.home[th.pc.h] == OnFree;
    assert sh.home[sh.blk[th.cur]].InUse?;
    assert BeingSet(sh', th.cur);
    hide SharedOk, IsList, Follows, BeingSet;
  }

  lemma GrowPoint(sh: Shared, th: Thread, base: Block, sh': Shared, th': Thread)
    requires SharedOk(sh) && AllocatorOk(sh, th) && GrowStep(sh, th, base, sh', th')
    ensures AllocatorOk(sh', th')
  {
    assert forall b | b in NewBlocks(base, 2 * sh.chunk) :: b !in sh.home;
    GrownMapsAre(sh, base, 2 * sh.chunk);
    hide SharedOk, IsList, Follows, NewBlocks, GrownLinks, GrownCounts, GrownHome;
  }

  lemma TakePoint(sh: Shared, th: Thread, sh': Shared, th': Thread)
    requires AllocatorOk(sh, th) && AllocStep(sh, th, sh', th') && th.pc.Take?
    ensures AllocatorOk(sh', th')
  {
    hide IsList, Follows, MoveHome;
  }

  /** Until the new block is ready, nothing else about the thread changes. */
  lemma AllocatingOwn(bar: nat -> bool, sh: Shared, t: Tid, th: Thread, sh': Shared, th': Thread)
    requires SharedOk(sh) && ThreadOk(bar, sh, t, th) && AllocStep(sh, th, sh', th')
    requires Allocating(th.pc) && !th.pc.Fresh? && !th.pc.Publishing?
    requires Guarantee(sh, t, th, sh')
    ensures ThreadOk(bar, sh', t, th')
  {
    AllocatingPoint(bar, sh, t, th, sh', th');
    AllocatingRest(bar, sh, t, th, sh', th');
    AllocatingPublished(bar, sh, t, th, sh', th');
    hide *;
    FromParts(bar, sh', t, th');
  }

  lemma AllocatingPoint(bar: nat -> bool, sh: Shared, t: Tid, th: Thread, sh': Shared, th': Thread)
    requires SharedOk(sh) && ThreadOk(bar, sh, t, th) && AllocStep(sh, th, sh', th')
    requires Allocating(th.pc) && !th.pc.Fresh? && !th.pc.Publishing?
    ensures AllocatorOk(sh', th')
  {
    AllocatorKnows(bar, sh, t, th);
    assert AllocatorOk(sh, th);
    hide SharedOk, ThreadOk, AllocatorOk, BeingSet, PreviousLinked, CutStep, GrowStep;
    if th.pc.Cut? {
      var i: nat :| CutStep(sh, th, i, sh', th');
      CutPoint(sh, th, i, sh', th');
    } else if th.pc.Grow? {
      var base :| GrowStep(sh, th, base, sh', th');
      GrowPoint(sh, th, base, sh', th');
    } else if th.pc.Take? {
      TakePoint(sh, th, sh', th');
    } else {
      PopOrPeekPoint(sh, th, sh', th');
    }
  }

  lemma AllocatingRest(bar: nat -> bool, sh: Shared, t: Tid, th: Thread, sh': Shared, th': Thread)
    requires ThreadOk(bar, sh, t, th) && AllocStep(sh, th, sh', th')
    requires Allocating(th.pc) && !th.pc.Fresh? && !th.pc.Publishing?
    ensures PlaceOk(sh', th') && TokensOk(bar, sh', t, th') && PusherOk(sh', th') && BarrierOk(bar, sh', th')
    ensures sh'.blk == sh.blk && sh'.freed == sh.freed && sh'.pusher == sh.pusher && th'.cur == th.cur && !th'.pc.Publishing?
  {
    hide AllocatorOk, PublishedOk, NewBlocks, GrownLinks, GrownCounts, GrownHome, MoveHome;
  }

  lemma BlockAt(sh: Shared, j: nat)
    requires SharedOk(sh) && sh.freed <= j < |sh.blk|
    ensures sh.blk[j] in sh.home && sh.home[sh.blk[j]] == InUse(j) && sh.blk[j] in sh.completed
  {
    hide ListsOk, LinksOk;
  }

  lemma AllocatingPublished(bar: nat -> bool, sh: Shared, t: Tid, th: Thread, sh': Shared, th': Thread)
    requires SharedOk(sh) && ThreadOk(bar, sh, t, th) && AllocStep(sh, th, sh', th') && Guarantee(sh, t, th, sh')
    requires Allocating(th.pc) && !th.pc.Fresh? && !th.pc.Publishing?
    ensures PublishedOk(sh', th')
  {
    hide SharedOk, ThreadOk, AllocStep, ListsMove, ChainMoves, AllocatorOk, BarrierOk, PusherOk;
    AllocatingRest(bar, sh, t, th, sh', th');
    Parts(bar, sh, t, th);
    if 0 < th.cur && sh.freed < th.cur && (sh.pusher != None ==> sh.freed + 1 < th.cur) {
      assert Linked(sh, th.cur - 1) && LinkMoves(sh, t, th, sh', th.cur - 1);
      BlockAt(sh, th.cur);
      SharedParts(sh);
      hide HomesOk, ListsOk, LinksOk, LinksMove;
      assert sh.blk[th.cur] > 2;
    } else {
      hide LinksMove, Linked;
    }
  }

  lemma FreshOwn(bar: nat -> bool, sh: Shared, t: Tid, th: Thread, sh': Shared, th': Thread)
    requires SharedOk(sh) && ThreadOk(bar, sh, t, th) && AllocStep(sh, th, sh', th') && th.pc.Fresh?
    ensures ThreadOk(bar, sh', t, th')
  {
    FreshAllocator(bar, sh, t, th, sh', th');
    FreshPlace(bar, sh, t, th, sh', th');
    FreshBarrier(bar, sh, t, th, sh', th');
    hide *;
    FromParts(bar, sh', t, th');
  }

  lemma FreshPlace(bar: nat -> bool, sh: Shared, t: Tid, th: Thread, sh': Shared, th': Thread)
    requires SharedOk(sh) && ThreadOk(bar, sh, t, th) && AllocStep(sh, th, sh', th') && th.pc.Fresh?
    ensures PlaceOk(sh', th') && PusherOk(sh', th')
  {
    AllocatorKnows(bar, sh, t, th);
    hide SharedOk, AllocatorOk, PreviousLinked, BeingSet, BarrierOk, PublishedOk;
  }

  lemma FreshBarrier(bar: nat -> bool, sh: Shared, t: Tid, th: Thread, sh': Shared, th': Thread)
    requires SharedOk(sh) && ThreadOk(bar, sh, t, th) && AllocStep(sh, th, sh', th') && th.pc.Fresh?
    ensures TokensOk(bar, sh', t, th') && PublishedOk(sh', th') && BarrierOk(bar, sh', th')
  {
    AllocatorKnows(bar, sh, t, th);
    hide SharedOk, AllocatorOk, PreviousLinked, BeingSet, Linked;
    FreshTokens(bar, sh, t, th, sh', th');
    hide TokensOk, PlaceOk;
  }

  lemma FreshTokens(bar: nat -> bool, sh: Shared, t: Tid, th: Thread, sh': Shared, th': Thread)
    requires ThreadOk(bar, sh, t, th) && AllocStep(sh, th, sh', th') && th.pc.Fresh?
    ensures TokensOk(bar, sh', t, th')
  {
    hide AllocatorOk, PublishedOk, PlaceOk, PusherOk;
  }
  lemma FreshIsNotUsed(bar: nat -> bool, sh: Shared, t: Tid, th: Thread)
    requires SharedOk(sh) && ThreadOk(bar, sh, t, th) && th.pc.Fresh?
    ensures th.pc.b in sh.home && sh.home[th.pc.b] == Taken
    ensures th.cur < |sh.blk| && sh.blk[th.cur] != th.pc.b
  {
    AllocatorKnows(bar, sh, t, th);
    assert th.pc.b in sh.taken;
    hide IsList, LinksOk, PublishedOk, BarrierOk;
  }

  lemma FreshAllocator(bar: nat -> bool, sh: Shared, t: Tid, th: Thread, sh': Shared, th': Thread)
    requires SharedOk(sh) && ThreadOk(bar, sh, t, th) && AllocStep(sh, th, sh', th') && th.pc.Fresh?
    ensures AllocatorOk(sh', th')
  {
    FreshIsNotUsed(bar, sh, t, th);
    AllocatorKnows(bar, sh, t, th);
    hide SharedOk, ThreadOk, PreviousLinked;
  }
  lemma PublishingOwn(bar: nat -> bool, sh: Shared, t: Tid, th: Thread, sh': Shared, th': Thread)
    requires SharedOk(sh) && ThreadOk(bar, sh, t, th) && AllocStep(sh, th, sh', th') && (th.pc.Publishing? || th.pc.Waking?)
    ensures ThreadOk(bar, sh', t, th')
  {
    hide SharedOk, ThreadOk, PreviousLinked, BeingSet, AllocatorOk;
    Parts(bar, sh, t, th);
    NotAllocating(sh', th');
    if th.pc.Publishing? {
      PublishingLinks(bar, sh, t, th, sh', th');
    } else {
      hide PublishedOk;
      PublishedSame(sh, th, th');
    }
    PublishingParts(bar, sh, t, th, sh', th');
    hide *;
    FromParts(bar, sh', t, th');
  }

  lemma PublishingLinks(bar: nat -> bool, sh: Shared, t: Tid, th: Thread, sh': Shared, th': Thread)
    requires SharedOk(sh) && ThreadOk(bar, sh, t, th) && AllocStep(sh, th, sh', th') && th.pc.Publishing?
    ensures PublishedOk(sh', th')
  {
    AllocatorKnows(bar, sh, t, th);
    hide ThreadOk, PreviousLinked, BeingSet;
    assert Linked(sh', th'.cur - 1) by { SharedParts(sh); hide ListsOk, HomesOk, KeysOk; }
    hide SharedOk;
    PublishedNext(sh', th');
  }

  lemma PublishingParts(bar: nat -> bool, sh: Shared, t: Tid, th: Thread, sh': Shared, th': Thread)
    requires SharedOk(sh) && ThreadOk(bar, sh, t, th) && AllocStep(sh, th, sh', th') && (th.pc.Publishing? || th.pc.Waking?)
    ensures PlaceOk(sh', th') && PusherOk(sh', th') && TokensOk(bar, sh', t, th') && BarrierOk(bar, sh', th')
  {
    hide SharedOk, ThreadOk, PreviousLinked, BeingSet, AllocatorOk, PublishedOk;
    Parts(bar, sh, t, th);
    if th.pc.Publishing? {
      AllocatorKnows(bar, sh, t, th);
    }
  }
  lemma OwnThread(n: nat, bar: nat -> bool, sh: Shared, t: Tid, th: Thread, sh': Shared, th': Thread)
    requires SharedOk(sh) && ThreadOk(bar, sh, t, th) && Step(n, bar, sh, t, th, sh', th') && AllocatorLinks(sh)
    requires EndAlone(bar, sh, t, th, sh') && Guarantee(sh, t, th, sh')
    ensures ThreadOk(bar, sh', t, th')
  {
    assert LinksOk(sh);
    hide SharedOk, ThreadOk, AllocatorLinks, EndAlone, Guarantee, AllocStep, StartStep, PushStep, EndStep, BarrierStep, LinksOk;
    if AllocStep(sh, th, sh', th') {
      if th.pc.Fresh? {
        FreshOwn(bar, sh, t, th, sh', th');
      } else if th.pc.Publishing? || th.pc.Waking? {
        PublishingOwn(bar, sh, t, th, sh', th');
      } else {
        IsAllocating(sh, th, sh', th');
        AllocatingOwn(bar, sh, t, th, sh', th');
      }
    } else if StartStep(sh, t, th, sh', th') {
      StartOwn(bar, sh, t, th, sh', th');
    } else if PushStep(bar, sh, th, sh', th') {
      PushOwn(bar, sh, t, th, sh', th');
    } else if th.pc == Inside && EndStep(n, bar, sh, t, th, sh', th') {
      EndOwn(n, bar, sh, t, th, sh', th');
    } else {
      BarrierOwn(n, bar, sh, t, th, sh', th');
    }
  }

  lemma IsAllocating(sh: Shared, th: Thread, sh': Shared, th': Thread)
    requires AllocStep(sh, th, sh', th') && !th.pc.Waking?
    ensures Allocating(th.pc)
  {
  }
}
