/** What the steps of `WorkShareSteps` do to the blocks, the lists of spare blocks and the chain
    of next_ws links: `SharedOk` is kept. */
module WorkShareBlocks {
  import opened Options
  import opened Collections
  import opened WorkShareSteps

  lemma ListKept(link: map<Block, int>, link': map<Block, int>, head: int, s: seq<Block>)
    requires IsList(link, head, s) && forall b | b in s && b in link :: b in link' && link'[b] == link[b]
    ensures IsList(link', head, s)
  {
    forall i | 0 <= i < |s| ensures LinksOn(link', s, i) {
      var b := s[i];
      assert b in s && LinksOn(link, s, i);
    }
  }

  /** A write to the link of a block in use. */
  lemma UsedLinkWritten(sh: Shared, b: Block, v: int, link': map<Block, int>)
    requires SharedOk(sh) && b in sh.home && sh.home[b].InUse? && link' == sh.link[b := v]
    ensures IsList(link', sh.listFree, sh.freeSeq) && IsList(link', sh.listAlloc, sh.allocSeq)
  {
    assert b !in sh.freeSeq && b !in sh.allocSeq;
    ListKept(sh.link, link', sh.listFree, sh.freeSeq);
    ListKept(sh.link, link', sh.listAlloc, sh.allocSeq);
  }

  lemma UsedAreApart(sh: Shared, i: nat, j: nat)
    requires HomesOk(sh) && sh.freed <= i < |sh.blk| && sh.freed <= j < |sh.blk| && i != j
    ensures sh.blk[i] != sh.blk[j]
  {
    assert sh.home[sh.blk[i]] == InUse(i) && sh.home[sh.blk[j]] == InUse(j);
  }

  /** The blocks and lists are the same. */
  predicate SameBlocksAndLists(sh: Shared, sh': Shared) {
    && sh'.link == sh.link && sh'.listFree == sh.listFree && sh'.listAlloc == sh.listAlloc && sh'.chunk == sh.chunk
    && sh'.blk == sh.blk && sh'.freed == sh.freed && sh'.freeSeq == sh.freeSeq && sh'.allocSeq == sh.allocSeq
    && sh'.taken == sh.taken && sh'.home == sh.home && sh'.completed.Keys == sh.completed.Keys
  }

  lemma HomesSame(sh: Shared, sh': Shared)
    requires HomesOk(sh) && SameBlocksAndLists(sh, sh')
    ensures HomesOk(sh')
  {
  }

  lemma LinksSame(sh: Shared, sh': Shared)
    requires LinksOk(sh) && SameBlocksAndLists(sh, sh') && (sh'.pusher == None ==> sh.pusher == None)
    ensures LinksOk(sh')
  {
    forall j: nat | sh.freed <= j < |sh.blk| && (j > sh.freed || sh.pusher == None) ensures LinkOk(sh', j) {
      assert LinkOk(sh, j);
    }
  }

  lemma SharedSame(sh: Shared, sh': Shared)
    requires SharedOk(sh) && SameBlocksAndLists(sh, sh')
    requires (sh'.pusher == None ==> sh.pusher == None) && (sh'.allocator == None ==> sh.taken == [])
    ensures SharedOk(sh')
  {
    hide HomesOk, LinksOk, IsList;
    HomesSame(sh, sh');
    LinksSame(sh, sh');
  }

  lemma TakenOnlyAllocating(sh: Shared)
    requires SharedOk(sh)
    ensures sh.allocator == None ==> sh.taken == []
  {
    hide KeysOk, HomesOk, LinksOk, IsList;
  }

  lemma EndShared(n: nat, bar: nat -> bool, sh: Shared, t: Tid, th: Thread, sh': Shared, th': Thread)
    requires SharedOk(sh) && th.pc == Inside && EndStep(n, bar, sh, t, th, sh', th')
    ensures SharedOk(sh')
  {
    hide SharedOk;
    TakenOnlyAllocating(sh);
    assert sh'.completed.Keys == sh.completed.Keys;
    SharedSame(sh, sh');
  }

  lemma PushLinkShared(sh: Shared, b: Block, r: int, sh': Shared)
    requires SharedOk(sh) && sh.freed < |sh.blk| && b == sh.blk[sh.freed] && sh.pusher != None
    requires sh' == sh.(link := sh.link[b := r])
    ensures SharedOk(sh')
  {
    UsedLinkWritten(sh, b, r, sh'.link);
    hide IsList;
    forall j: nat | sh.freed < j < |sh.blk| ensures LinkOk(sh', j) {
      UsedAreApart(sh, sh.freed, j);
      assert LinkOk(sh, j);
    }
  }

  lemma PushSwapLists(sh: Shared, b: Block, free: seq<Block>)
    requires SharedOk(sh) && sh.freed < |sh.blk| && b == sh.blk[sh.freed] && free == [b] + sh.freeSeq
    requires b in sh.link && sh.link[b] == sh.listFree
    ensures IsList(sh.link, b, free)
  {
    assert b !in sh.freeSeq;
    forall i, j | 0 <= i < j < |free| ensures free[i] != free[j] {
      assert free[j] == sh.freeSeq[j - 1];
      if i > 0 { assert free[i] == sh.freeSeq[i - 1]; }
    }
    forall i | 0 <= i < |free| ensures LinksOn(sh.link, free, i) {
      if i > 0 {
        assert free[i] == sh.freeSeq[i - 1] && LinksOn(sh.link, sh.freeSeq, i - 1);
        assert i + 1 < |free| ==> free[i + 1] == sh.freeSeq[i];
      } else {
        assert |free| > 1 ==> free[1] == sh.freeSeq[0];
      }
    }
    assert NoDup(free);
  }

  lemma PushSwapHomes(sh: Shared, b: Block, sh': Shared)
    requires HomesOk(sh) && KeysOk(sh) && sh.freed + 1 < |sh.blk| && b == sh.blk[sh.freed]
    requires sh'.blk == sh.blk && sh'.freed == sh.freed + 1 && sh'.freeSeq == [b] + sh.freeSeq && sh'.home == sh.home[b := OnFree]
    requires sh'.allocSeq == sh.allocSeq && sh'.taken == sh.taken
    ensures HomesOk(sh')
  {
    assert forall x :: x in sh'.freeSeq <==> x == b || x in sh.freeSeq;
    forall j | sh'.freed <= j < |sh.blk| ensures sh'.blk[j] in sh'.home && sh'.home[sh'.blk[j]] == InUse(j) {
      UsedAreApart(sh, sh.freed, j);
    }
  }

  lemma PushSwapShared(sh: Shared, b: Block, sh': Shared)
    requires SharedOk(sh) && sh.freed + 1 < |sh.blk| && b == sh.blk[sh.freed] && sh.pusher != None
    requires b in sh.link && sh.link[b] == sh.listFree
    requires sh' == sh.(listFree := b, freed := sh.freed + 1, freeSeq := [b] + sh.freeSeq, home := sh.home[b := OnFree], pusher := None)
    ensures SharedOk(sh')
  {
    PushSwapLists(sh, b, sh'.freeSeq);
    PushSwapHomes(sh, b, sh');
    hide IsList, HomesOk;
    assert KeysOk(sh');
    assert ListsOk(sh');
    hide KeysOk, ListsOk;
    forall j: nat | sh'.freed <= j < |sh.blk| ensures sh'.blk[j] in sh'.link && LinkOk(sh', j) {
      assert LinkOk(sh, j);
    }
  }

  lemma PusherKnows(bar: nat -> bool, sh: Shared, t: Tid, th: Thread)
    requires SharedOk(sh) && ThreadOk(bar, sh, t, th) && Pushing(th.pc)
    ensures sh.pusher == Some(t) && sh.freed < |sh.blk| && th.last == sh.blk[sh.freed]
    ensures th.last in sh.home && sh.home[th.last].InUse? && th.last in sh.link && sh.freed + 1 < |sh.blk|
    ensures th.pc.PushSwap? ==> sh.link[th.last] == th.pc.r
  {
    hide ListsOk, LinksOk, AllocatorOk, PublishedOk, BarrierOk;
  }

  lemma PushShared(bar: nat -> bool, sh: Shared, t: Tid, th: Thread, sh': Shared, th': Thread)
    requires SharedOk(sh) && ThreadOk(bar, sh, t, th) && PushStep(bar, sh, th, sh', th')
    ensures SharedOk(sh')
  {
    PusherKnows(bar, sh, t, th);
    hide SharedOk, ThreadOk;
    match th.pc
    case PushLink(r) => PushLinkShared(sh, th.last, r, sh');
    case PushSwap(r) => if sh.listFree == r { PushSwapShared(sh, th.last, sh'); }
    case _ =>
  }
  lemma NextWsWritten(sh: Shared, j: nat, v: int, sh': Shared)
    requires SharedOk(sh) && sh.freed <= j < |sh.blk| && sh' == sh.(link := sh.link[sh.blk[j] := v])
    requires LinkOk(sh', j)
    ensures SharedOk(sh')
  {
    assert sh.blk[j] in sh.home && sh.home[sh.blk[j]].InUse?;
    UsedLinkWritten(sh, sh.blk[j], v, sh'.link);
    hide IsList;
    assert HomesOk(sh');
    forall i: nat | sh.freed <= i < |sh.blk| && (i > sh.freed || sh.pusher == None) ensures LinkOk(sh', i) {
      if i != j {
        UsedAreApart(sh, i, j);
        assert LinkOk(sh, i);
      }
    }
  }

  lemma TokenShared(sh: Shared, a: Option<Tid>, sh': Shared)
    requires SharedOk(sh) && sh' == sh.(allocator := a) && (a == None ==> sh.taken == [])
    ensures SharedOk(sh')
  {
    hide SharedOk;
    SharedSame(sh, sh');
  }

  /** What gomp_ptrlock_get can find. */
  lemma NextWs(bar: nat -> bool, sh: Shared, t: Tid, th: Thread)
    requires SharedOk(sh) && ThreadOk(bar, sh, t, th) && Ended(th.pc)
    ensures sh.freed <= th.cur < |sh.blk| && th.ws == sh.blk[th.cur] && th.ws in sh.link
    ensures !Pushing(th.pc) ==> LinkOk(sh, th.cur)
  {
    hide IsList, BarrierOk, AllocatorOk, PublishedOk;
  }

  lemma StartShared(bar: nat -> bool, sh: Shared, t: Tid, th: Thread, sh': Shared, th': Thread)
    requires SharedOk(sh) && ThreadOk(bar, sh, t, th) && StartStep(sh, t, th, sh', th')
    ensures SharedOk(sh')
  {
    NextWs(bar, sh, t, th);
    assert th.pc == Getting ==> th.last == th.ws;
    if th.pc == Getting && sh.link[th.last] in {0, 1} {
      var mid := sh.(link := sh.link[th.last := sh.link[th.last] + 1]);
      assert LinkOk(mid, th.cur);
      hide SharedOk, ThreadOk;
      NextWsWritten(sh, th.cur, sh.link[th.last] + 1, mid);
      if sh.link[th.last] == 0 {
        TokenShared(mid, Some(t), sh');
      }
    }
  }

  // ---------------------------------------------------------------- allocation

  lemma TailIsList(link: map<Block, int>, head: int, s: seq<Block>)
    requires IsList(link, head, s) && s != []
    ensures head in link && IsList(link, link[head], s[1..]) && head !in s[1..] && s == [head] + s[1..]
  {
    assert LinksOn(link, s, 0);
    forall i | 0 <= i < |s[1..]| ensures LinksOn(link, s[1..], i) {
      assert LinksOn(link, s, i + 1);
    }
    assert forall i | 0 <= i < |s| - 1 :: s[1..][i] == s[i + 1];
    assert NoDup(s[1..]);
  }

  /** Nothing but the lists and the homes changed. */
  ghost predicate SameChain(sh: Shared, sh': Shared) {
    && sh'.blk == sh.blk && sh'.freed == sh.freed && sh'.pusher == sh.pusher && sh'.chunk >= 1
    && (forall j: nat | sh.freed <= j < |sh.blk| :: sh.blk[j] in sh'.link && sh.blk[j] in sh.link && sh'.link[sh.blk[j]] == sh.link[sh.blk[j]])
  }

  lemma SameChainLinks(sh: Shared, sh': Shared)
    requires LinksOk(sh) && SameChain(sh, sh')
    ensures LinksOk(sh')
  {
    forall j: nat | sh.freed <= j < |sh.blk| && (j > sh.freed || sh.pusher == None) ensures LinkOk(sh', j) {
      assert LinkOk(sh, j);
    }
  }

  lemma PopShared(sh: Shared, b: Block, sh': Shared)
    requires SharedOk(sh) && sh.listAlloc != 0 && b == sh.listAlloc && b in sh.link && sh.taken == [] && sh.allocator != None
    requires sh.allocSeq != []
    requires sh' == sh.(listAlloc := sh.link[b], allocSeq := sh.allocSeq[1..], taken := [b], home := sh.home[b := Taken])
    ensures SharedOk(sh')
  {
    TailIsList(sh.link, sh.listAlloc, sh.allocSeq);
    SameChainLinks(sh, sh');
    hide IsList, LinksOk;
    assert sh.home[b] == OnAlloc;
    assert forall x :: x in sh.allocSeq <==> x == b || x in sh.allocSeq[1..];
    assert HomesOk(sh');
  }

  lemma PrefixIsList(link: map<Block, int>, head: int, s: seq<Block>, i: nat)
    requires IsList(link, head, s) && i < |s|
    ensures IsList(link[s[i] := 0], head, s[..i + 1])
  {
    var p, link' := s[..i + 1], link[s[i] := 0];
    forall j | 0 <= j < |p| ensures LinksOn(link', p, j) {
      assert LinksOn(link, s, j) && (j < i ==> s[j] != s[i]);
    }
  }

  lemma SuffixIsList(link: map<Block, int>, head: int, s: seq<Block>, i: nat)
    requires IsList(link, head, s) && i + 1 < |s|
    ensures IsList(link[s[i] := 0], s[i + 1], s[i + 1..])
  {
    var q, link' := s[i + 1..], link[s[i] := 0];
    forall j | 0 <= j < |q| ensures LinksOn(link', q, j) {
      assert s[i] != s[i + 1 + j] && LinksOn(link, s, i + 1 + j);
      assert q[j] == s[i + 1 + j] && (j + 1 < |q| ==> q[j + 1] == s[i + 1 + j + 1]);
    }
    forall a, b | 0 <= a < b < |q| ensures q[a] != q[b] {
      assert s[i + 1 + a] != s[i + 1 + b];
    }
  }

  lemma SplitHas(s: seq<Block>, p: seq<Block>, q: seq<Block>)
    requires s == p + q && NoDup(s)
    ensures forall b :: b in s <==> b in p || b in q
    ensures forall b :: b in p ==> b !in q
  {
    forall b | b in p ensures b !in q {
      var a :| 0 <= a < |p| && p[a] == b;
      assert s[a] == b;
      forall k | 0 <= k < |q| ensures q[k] != b {
        assert s[|p| + k] == q[k];
      }
    }
  }

  lemma CutHead(sh: Shared, h: Block, i: nat)
    requires SharedOk(sh) && i < |sh.freeSeq| && sh.freeSeq[i] == h
    ensures h in sh.link && h in sh.home && sh.home[h] == OnFree && h !in sh.allocSeq
  {
    assert LinksOn(sh.link, sh.freeSeq, i) && h in sh.freeSeq;
    hide LinksOk, IsList;
  }

  lemma CutShared(sh: Shared, th: Thread, i: nat, sh': Shared, th': Thread)
    requires SharedOk(sh) && CutStep(sh, th, i, sh', th') && sh.taken == [] && sh.allocator != None
    ensures SharedOk(sh')
  {
    hide SharedOk, IsList, LinksOk, HomesOk;
    SharedParts(sh);
    var h := th.pc.h;
    var p, q := sh.freeSeq[..i + 1], sh.freeSeq[i + 1..];
    CutHead(sh, h, i);
    PrefixIsList(sh.link, sh.listFree, sh.freeSeq, i);
    ListKept(sh.link, sh'.link, sh.listAlloc, sh.allocSeq);
    CutKeepsChain(sh, h, sh');
    ListedAreBlocks(sh, sh.freeSeq, sh.listFree);
    IsNoDup(sh.link, sh.listFree, sh.freeSeq);
    assert sh.freeSeq == p + q;
    SplitHas(sh.freeSeq, p, q);
    CutHomes(sh, p, q, sh');
    hide MoveHome;
    CutDone(sh, p, q, sh');
  }

  lemma CutDone(sh: Shared, p: seq<Block>, q: seq<Block>, sh': Shared)
    requires KeysOk(sh) && HomesOk(sh') && LinksOk(sh') && sh'.home.Keys == sh.home.Keys && sh'.link.Keys == sh.link.Keys
    requires sh'.completed == sh.completed && sh'.allocator != None && (forall b :: b in q ==> b in sh.freeSeq) && sh'.taken == q
    requires forall b | b in sh.freeSeq :: b in sh.home
    requires IsList(sh'.link, sh'.listFree, sh'.freeSeq) && IsList(sh'.link, sh'.listAlloc, sh'.allocSeq)
    ensures SharedOk(sh')
  {
    hide IsList, HomesOk, LinksOk;
  }

  lemma IsNoDup(link: map<Block, int>, head: int, s: seq<Block>)
    requires IsList(link, head, s)
    ensures NoDup(s)
  {
  }

  lemma ListedAreBlocks(sh: Shared, s: seq<Block>, head: int)
    requires KeysOk(sh) && IsList(sh.link, head, s)
    ensures forall b | b in s :: b in sh.home
  {
    forall b | b in s ensures b in sh.home {
      var i :| 0 <= i < |s| && s[i] == b;
      assert LinksOn(sh.link, s, i);
    }
  }

  lemma CutKeepsChain(sh: Shared, h: Block, sh': Shared)
    requires SharedOk(sh) && h in sh.home && sh.home[h] == OnFree
    requires sh'.blk == sh.blk && sh'.freed == sh.freed && sh'.pusher == sh.pusher && sh'.chunk == sh.chunk
    requires sh'.link == sh.link[h := 0]
    ensures LinksOk(sh')
  {
    hide IsList, ListsOk;
    assert forall j | sh.freed <= j < |sh.blk| :: sh.blk[j] != h;
    SameChainLinks(sh, sh');
  }

  lemma MoveHomeIs(home: map<Block, Home>, blocks: seq<Block>, to: Home)
    requires forall b | b in blocks :: b in home
    ensures MoveHome(home, blocks, to).Keys == home.Keys
    ensures forall b | b in home :: MoveHome(home, blocks, to)[b] == if b in blocks then to else home[b]
  {
    var moved := MoveHome(home, blocks, to);
    assert forall b :: b in moved <==> b in home.Keys + (set x | x in blocks);
    assert forall b :: b in moved <==> b in home;
    assert moved.Keys == home.Keys;
    forall b | b in home ensures moved[b] == if b in blocks then to else home[b] {
      assert b in moved;
    }
  }

  /** Moving blocks that are not in use leaves those in use alone. */
  lemma UsedStayUsed(sh: Shared, sh': Shared)
    requires HomesOk(sh) && sh'.blk == sh.blk && sh'.freed == sh.freed && sh'.home.Keys == sh.home.Keys
    requires forall b | b in sh.home :: if sh.home[b].InUse? then sh'.home[b] == sh.home[b] else !sh'.home[b].InUse?
    ensures UsedOk(sh')
  {
    hide ListedOk;
    assert forall b :: b in sh'.home <==> b in sh.home;
    forall b | b in sh.home ensures sh'.home[b].InUse? <==> sh.home[b].InUse? {
    }
    assert forall b | b in sh.home && sh.home[b].InUse? :: sh'.home[b] == sh.home[b];
  }

  lemma CutHomes(sh: Shared, p: seq<Block>, q: seq<Block>, sh': Shared)
    requires KeysOk(sh) && HomesOk(sh) && sh.taken == [] && (forall b | b in sh.freeSeq :: b in sh.home)
    requires forall b :: b in sh.freeSeq <==> b in p || b in q
    requires forall b :: b in p ==> b !in q
    requires sh'.blk == sh.blk && sh'.freed == sh.freed && sh'.freeSeq == p && sh'.taken == q
    requires sh'.allocSeq == sh.allocSeq && sh'.home == MoveHome(sh.home, q, Taken)
    ensures HomesOk(sh') && sh'.home.Keys == sh.home.Keys
  {
    assert forall b | b in q :: b in sh.freeSeq;
    MoveHomeIs(sh.home, q, Taken);
    hide MoveHome, KeysOk;
    forall b | b in sh.home
      ensures b in q ==> sh.home[b] == OnFree
      ensures b in p <==> sh'.home[b] == OnFree
      ensures b in sh.allocSeq <==> sh'.home[b] == OnAlloc
      ensures b in q <==> sh'.home[b] == Taken
    {
      assert b in sh.freeSeq <==> sh.home[b] == OnFree;
    }
    UsedStayUsed(sh, sh');
  }

  lemma TakeHomes(sh: Shared, x: Block, rest: seq<Block>, sh': Shared)
    requires KeysOk(sh) && HomesOk(sh) && sh.taken == [x] + rest && x !in rest && sh.allocSeq == []
    requires forall b | b in sh.taken :: b in sh.home
    requires sh'.blk == sh.blk && sh'.freed == sh.freed && sh'.freeSeq == sh.freeSeq && sh'.taken == [x] && sh'.allocSeq == rest
    requires sh'.home == MoveHome(sh.home, rest, OnAlloc)
    ensures HomesOk(sh') && sh'.home.Keys == sh.home.Keys
  {
    assert forall b :: b in sh.taken <==> b == x || b in rest;
    MoveHomeIs(sh.home, rest, OnAlloc);
    hide MoveHome, KeysOk;
    forall b | b in sh.home
      ensures b in rest ==> sh.home[b] == Taken
      ensures sh'.home[b] == if b in rest then OnAlloc else sh.home[b]
    {
      assert b in sh.taken <==> sh.home[b] == Taken;
    }
    TakenListed(sh, x, rest, sh');
    hide ListedOk;
    UsedStayUsed(sh, sh');
  }

  lemma TakenListed(sh: Shared, x: Block, rest: seq<Block>, sh': Shared)
    requires ListedOk(sh) && sh'.home.Keys == sh.home.Keys && (forall b :: b in sh.taken <==> b == x || b in rest) && x !in rest && sh.allocSeq == []
    requires sh'.freeSeq == sh.freeSeq && sh'.taken == [x] && sh'.allocSeq == rest
    requires forall b | b in sh.home :: sh'.home[b] == if b in rest then OnAlloc else sh.home[b]
    ensures ListedOk(sh')
  {
    forall b | b in sh.home
      ensures b in sh.freeSeq <==> sh'.home[b] == OnFree
      ensures b in rest <==> sh'.home[b] == OnAlloc
      ensures b == x <==> sh'.home[b] == Taken
    {
      assert b in sh.taken <==> sh.home[b] == Taken;
    }
  }
  lemma TakeShared(sh: Shared, x: Block, sh': Shared)
    requires SharedOk(sh) && sh.taken != [] && IsList(sh.link, x, sh.taken) && sh.allocSeq == [] && sh.allocator != None
    requires x in sh.link
    requires sh' == sh.(listAlloc := sh.link[x], allocSeq := sh.taken[1..], taken := [x], home := MoveHome(sh.home, sh.taken[1..], OnAlloc))
    ensures SharedOk(sh')
  {
    TailIsList(sh.link, x, sh.taken);
    ListedAreBlocks(sh, sh.taken, x);
    assert SameChain(sh, sh');
    SameChainLinks(sh, sh');
    hide IsList, LinksOk, SameChain;
    TakeHomes(sh, x, sh.taken[1..], sh');
  }

  lemma NewBlocksAre(base: Block, count: nat)
    ensures forall b :: b in NewBlocks(base, count) <==> base <= b < base + count
  {
    forall b | base <= b < base + count ensures b in NewBlocks(base, count) {
      assert NewBlocks(base, count)[b - base] == b;
    }
  }

  lemma NewBlocksList(link: map<Block, int>, base: Block, count: nat)
    requires count >= 2
    ensures IsList(GrownLinks(link, base, count), base + 1, NewBlocks(base, count)[1..])
    ensures forall b :: b in NewBlocks(base, count)[1..] <==> base < b < base + count
  {
    var s, link' := NewBlocks(base, count)[1..], GrownLinks(link, base, count);
    NewBlocksAre(base, count);
    forall i | 0 <= i < |s| ensures LinksOn(link', s, i) {
      assert s[i] == base + 1 + i;
    }
    forall b | base < b < base + count ensures b in s {
      assert s[b - base - 1] == b;
    }
  }

  lemma GrownHomeIs(home: map<Block, Home>, base: Block, count: nat)
    requires count >= 2 && forall b | b in NewBlocks(base, count) :: b !in home
    ensures var home' := GrownHome(home, base, count);
      && (forall b | b in home' :: b in home || base <= b < base + count)
      && (forall b | b in home :: b in home' && home'[b] == home[b] && !(base <= b < base + count))
      && (forall b | base <= b < base + count :: b in home' && home'[b] == if b == base then Taken else OnAlloc)
  {
    NewBlocksAre(base, count);
  }

  lemma GrowHomes(sh: Shared, base: Block, count: nat, rest: seq<Block>, sh': Shared)
    requires HomesOk(sh) && sh.allocSeq == [] && sh.taken == [] && count >= 2
    requires forall b | b in NewBlocks(base, count) :: b !in sh.home
    requires forall b | b in sh.freeSeq :: b in sh.home
    requires forall b :: b in rest <==> base < b < base + count
    requires sh'.blk == sh.blk && sh'.freed == sh.freed && sh'.freeSeq == sh.freeSeq && sh'.taken == [base]
    requires sh'.allocSeq == rest && sh'.home == GrownHome(sh.home, base, count)
    ensures HomesOk(sh')
  {
    GrownHomeIs(sh.home, base, count);
    hide NewBlocks, GrownHome;
  }

  lemma GrownMapsAre(sh: Shared, base: Block, count: nat)
    requires count >= 2 && base > 2 && KeysOk(sh) && forall b | b in NewBlocks(base, count) :: b !in sh.link
    ensures forall b | b in sh.link :: b in GrownLinks(sh.link, base, count) && GrownLinks(sh.link, base, count)[b] == sh.link[b]
    ensures GrownLinks(sh.link, base, count).Keys == GrownCounts(sh.completed, base, count).Keys == GrownHome(sh.home, base, count).Keys
    ensures forall b | b in GrownHome(sh.home, base, count) :: b > 2
  {
    NewBlocksAre(base, count);
  }

  lemma GrowShared(sh: Shared, th: Thread, base: Block, sh': Shared, th': Thread)
    requires SharedOk(sh) && GrowStep(sh, th, base, sh', th') && sh.allocSeq == [] && sh.taken == [] && sh.allocator != None
    ensures SharedOk(sh')
  {
    var count := 2 * sh.chunk;
    assert forall b | b in NewBlocks(base, count) :: b !in sh.home;
    hide NewBlocks, GrownLinks, GrownCounts, GrownHome, MoveHome, IsList, HomesOk, LinksOk;
    ListedAreBlocks(sh, sh.freeSeq, sh.listFree);
    GrownMapsAre(sh, base, count);
    NewBlocksList(sh.link, base, count);
    GrowHomes(sh, base, count, sh'.allocSeq, sh');
    ListKept(sh.link, sh'.link, sh.listFree, sh.freeSeq);
    BlocksInUse(sh);
    SameChainLinks(sh, sh');
  }

  lemma BlocksInUse(sh: Shared)
    requires LinksOk(sh)
    ensures forall j: nat | sh.freed <= j < |sh.blk| :: sh.blk[j] in sh.link
    ensures sh.chunk >= 1
  {
  }

  lemma FreshHomes(sh: Shared, b: Block, sh': Shared)
    requires KeysOk(sh) && HomesOk(sh) && sh.taken == [b] && b in sh.home
    requires sh'.blk == sh.blk + [b] && sh'.freed == sh.freed && sh'.freeSeq == sh.freeSeq && sh'.taken == []
    requires sh'.allocSeq == sh.allocSeq && sh'.home == sh.home[b := InUse(|sh.blk|)]
    ensures HomesOk(sh')
  {
    assert sh.home[b] == Taken;
    forall j | sh'.freed <= j < |sh'.blk| ensures sh'.blk[j] in sh'.home && sh'.home[sh'.blk[j]] == InUse(j) {
      assert j < |sh.blk| ==> sh'.blk[j] == sh.blk[j];
    }
  }

  ghost predicate PreviousLinked(sh: Shared) {
    var j := |sh.blk| - 2;
    j >= sh.freed && (sh.pusher == None || j > sh.freed) ==> Linked(sh, j)
  }

  lemma FreshLinks(sh: Shared, b: Block, sh': Shared)
    requires LinksOk(sh) && sh.freed < |sh.blk| && b !in sh.blk[sh.freed..]
    requires BeingSet(sh, |sh.blk| - 1) && (sh.pusher != None ==> sh.freed < |sh.blk| - 1)
    requires PreviousLinked(sh)
    requires sh'.blk == sh.blk + [b] && sh'.freed == sh.freed && sh'.pusher == sh.pusher && sh'.chunk == sh.chunk
    requires sh'.link == sh.link[b := 0]
    ensures LinksOk(sh')
  {
    forall j: nat | sh.freed <= j < |sh'.blk| ensures sh'.blk[j] in sh'.link {
    }
    forall j: nat | sh.freed <= j < |sh'.blk| && (j > sh.freed || sh.pusher == None) ensures LinkOk(sh', j) {
      if j < |sh.blk| {
        assert sh.blk[j] == sh.blk[sh.freed..][j - sh.freed];
        assert LinkOk(sh, j);
      }
    }
  }

  lemma FreshShared(sh: Shared, b: Block, sh': Shared)
    requires SharedOk(sh) && sh.taken == [b] && b in sh.home && BeingSet(sh, |sh.blk| - 1) && sh.allocator != None
    requires (sh.pusher != None ==> sh.freed < |sh.blk| - 1) && PreviousLinked(sh)
    requires sh' == sh.(link := sh.link[b := 0], completed := sh.completed[b := 0], blk := sh.blk + [b], taken := [],
                        home := sh.home[b := InUse(|sh.blk|)])
    ensures SharedOk(sh')
  {
    FreshHomes(sh, b, sh');
    assert b !in sh.freeSeq && b !in sh.allocSeq && forall j | sh.freed <= j < |sh.blk| :: sh.blk[j] != b;
    ListKept(sh.link, sh'.link, sh.listFree, sh.freeSeq);
    ListKept(sh.link, sh'.link, sh.listAlloc, sh.allocSeq);
    FreshLinks(sh, b, sh');
  }

  lemma PublishShared(sh: Shared, sh': Shared)
    requires SharedOk(sh) && |sh.blk| >= 2 && sh.freed <= |sh.blk| - 2 && sh.taken == []
    requires sh' == sh.(link := sh.link[sh.blk[|sh.blk| - 2] := sh.blk[|sh.blk| - 1]], allocator := None)
    ensures SharedOk(sh')
  {
    var j := |sh.blk| - 2;
    var mid := sh.(link := sh'.link);
    assert LinkOk(mid, j);
    hide SharedOk;
    NextWsWritten(sh, j, sh.blk[j + 1], mid);
    TokenShared(mid, None, sh');
  }

  /** What the allocating thread knows of the chain. */
  lemma AllocatorKnows(bar: nat -> bool, sh: Shared, t: Tid, th: Thread)
    requires SharedOk(sh) && ThreadOk(bar, sh, t, th) && Allocating(th.pc)
    ensures sh.allocator == Some(t) && th.cur + 1 == |sh.blk|
    ensures !th.pc.Publishing? ==> BeingSet(sh, th.cur) && PreviousLinked(sh) && sh.freed <= th.cur
    ensures !th.pc.Publishing? && sh.pusher != None ==> sh.freed < th.cur
    ensures th.pc.Publishing? ==> th.cur > 0 && BeingSet(sh, th.cur - 1) && sh.freed < th.cur && th.last == sh.blk[th.cur - 1]
    ensures th.pc.Publishing? && sh.pusher != None ==> sh.freed + 1 < th.cur
  {
    hide IsList, BarrierOk, HomesOk, LinksOk;
  }

  lemma PopOrPeekShared(bar: nat -> bool, sh: Shared, t: Tid, th: Thread, sh': Shared, th': Thread)
    requires SharedOk(sh) && ThreadOk(bar, sh, t, th) && AllocStep(sh, th, sh', th') && (th.pc.Pop? || th.pc.Peek?)
    ensures SharedOk(sh')
  {
    if th.pc.Pop? && sh.listAlloc != 0 {
      assert sh.allocator != None && sh.taken == [];
      hide SharedOk, ThreadOk;
      PopShared(sh, sh.listAlloc, sh');
    }
  }

  lemma CutOrGrowShared(bar: nat -> bool, sh: Shared, t: Tid, th: Thread, sh': Shared, th': Thread)
    requires SharedOk(sh) && ThreadOk(bar, sh, t, th) && AllocStep(sh, th, sh', th') && (th.pc.Cut? || th.pc.Grow?)
    ensures SharedOk(sh')
  {
    assert sh.allocator != None && sh.taken == [] && sh.allocSeq == [];
    if th.pc.Cut? {
      var i: nat :| CutStep(sh, th, i, sh', th');
      hide SharedOk, ThreadOk, CutStep;
      CutShared(sh, th, i, sh', th');
    } else {
      var base :| GrowStep(sh, th, base, sh', th');
      hide SharedOk, ThreadOk, GrowStep;
      GrowShared(sh, th, base, sh', th');
    }
  }

  lemma TakeOrFreshShared(bar: nat -> bool, sh: Shared, t: Tid, th: Thread, sh': Shared, th': Thread)
    requires SharedOk(sh) && ThreadOk(bar, sh, t, th) && AllocStep(sh, th, sh', th') && (th.pc.Take? || th.pc.Fresh?)
    ensures SharedOk(sh')
  {
    AllocatorKnows(bar, sh, t, th);
    if th.pc.Take? {
      assert sh.taken != [] && IsList(sh.link, th.pc.x, sh.taken) && sh.allocSeq == [];
      hide SharedOk, ThreadOk;
      TakeShared(sh, th.pc.x, sh');
    } else {
      assert sh.taken == [th.pc.b];
      assert th.pc.b in sh.taken && th.pc.b in sh.home;
      hide SharedOk, ThreadOk, PreviousLinked, BeingSet;
      FreshShared(sh, th.pc.b, sh');
    }
  }

  lemma PublishingShared(bar: nat -> bool, sh: Shared, t: Tid, th: Thread, sh': Shared, th': Thread)
    requires SharedOk(sh) && ThreadOk(bar, sh, t, th) && AllocStep(sh, th, sh', th') && th.pc.Publishing?
    ensures SharedOk(sh')
  {
    AllocatorKnows(bar, sh, t, th);
    assert sh.taken == [] && th.ws == sh.blk[th.cur];
    hide SharedOk, ThreadOk, BeingSet;
    PublishShared(sh, sh');
  }

  lemma StepShared(n: nat, bar: nat -> bool, sh: Shared, t: Tid, th: Thread, sh': Shared, th': Thread)
    requires SharedOk(sh) && ThreadOk(bar, sh, t, th) && Step(n, bar, sh, t, th, sh', th')
    ensures SharedOk(sh')
  {
    hide SharedOk, ThreadOk, AllocStep, StartStep, PushStep, EndStep;
    if AllocStep(sh, th, sh', th') {
      AllocShared(bar, sh, t, th, sh', th');
    } else if StartStep(sh, t, th, sh', th') {
      StartShared(bar, sh, t, th, sh', th');
    } else if PushStep(bar, sh, th, sh', th') {
      PushShared(bar, sh, t, th, sh', th');
    } else if th.pc == Inside && EndStep(n, bar, sh, t, th, sh', th') {
      EndShared(n, bar, sh, t, th, sh', th');
    } else {
      BarrierShared(n, sh, th, sh', th');
    }
  }

  lemma AllocShared(bar: nat -> bool, sh: Shared, t: Tid, th: Thread, sh': Shared, th': Thread)
    requires SharedOk(sh) && ThreadOk(bar, sh, t, th) && AllocStep(sh, th, sh', th')
    ensures SharedOk(sh')
  {
    if th.pc.Waking? {
    } else {
      assert Allocating(th.pc);
      hide SharedOk, ThreadOk, AllocStep;
      if th.pc.Pop? || th.pc.Peek? { PopOrPeekShared(bar, sh, t, th, sh', th'); }
      if th.pc.Cut? || th.pc.Grow? { CutOrGrowShared(bar, sh, t, th, sh', th'); }
      if th.pc.Take? || th.pc.Fresh? { TakeOrFreshShared(bar, sh, t, th, sh', th'); }
      if th.pc.Publishing? { PublishingShared(bar, sh, t, th, sh', th'); }
    }
  }

  lemma BarrierShared(n: nat, sh: Shared, th: Thread, sh': Shared, th': Thread)
    requires SharedOk(sh) && BarrierStep(n, sh, th, sh', th')
    ensures SharedOk(sh')
  {
    hide SharedOk;
    TakenOnlyAllocating(sh);
    SharedSame(sh, sh');
  }
}
