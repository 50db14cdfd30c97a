/** The counters of a block: `CountsOk` is kept, so that the last thread to complete a construct
    finds the block of the one before alone. */
module WorkShareCounts {
  import opened Options
  import opened Collections
  import opened WorkShareSteps
  import opened WorkShareBlocks
  import opened WorkShareThreads

  /** Whatever a thread does that is inside no construct, it has completed the same ones. */
  lemma CompletedKept(n: nat, bar: nat -> bool, sh: Shared, t: Tid, th: Thread, sh': Shared, th': Thread, j: nat)
    requires Step(n, bar, sh, t, th, sh', th') && th.pc != Inside
    ensures Completed(th', j) <==> Completed(th, j)
  {
  }

  lemma CompletedAtEnd(n: nat, bar: nat -> bool, sh: Shared, t: Tid, th: Thread, sh': Shared, th': Thread, j: nat)
    requires EndStep(n, bar, sh, t, th, sh', th') && th.pc == Inside
    ensures Completed(th', j) <==> Completed(th, j) || j == th.cur
  {
  }

  lemma DoneAfter(bar: nat -> bool, s: State, t: Tid, s': State, j: nat)
    requires t in s.threads && StepOf(bar, s, t, s')
    ensures Done(s', j) == if s.threads[t].pc == Inside && j == s.threads[t].cur then Done(s, j) + {t} else Done(s, j)
  {
    var n, th, th' := |s.threads.Keys|, s.threads[t], s'.threads[t];
    if th.pc == Inside {
      CompletedAtEnd(n, bar, s.sh, t, th, s'.sh, th', j);
    } else {
      CompletedKept(n, bar, s.sh, t, th, s'.sh, th', j);
    }
    hide Step, Completed;
  }

  lemma InsideOnlyEnds(n: nat, bar: nat -> bool, sh: Shared, t: Tid, th: Thread, sh': Shared, th': Thread)
    requires Step(n, bar, sh, t, th, sh', th') && th.pc == Inside
    ensures EndStep(n, bar, sh, t, th, sh', th')
  {
  }

  /** Two threads that wait for the same release wait at the same construct. */
  lemma SameBarrier(bar: nat -> bool, sh: Shared, t: Tid, th: Thread, u: Tid, uh: Thread)
    requires ThreadOk(bar, sh, t, th) && ThreadOk(bar, sh, u, uh)
    requires bar(th.cur) && sh.lastBarrier < th.cur && AtBarrier(bar, sh, uh)
    ensures uh.cur == th.cur
  {
    assert bar(uh.cur) && sh.lastBarrier < uh.cur;
    hide PlaceOk, TokensOk, PusherOk, AllocatorOk, PublishedOk;
  }

  /** When all others have completed the construct that t is in, the block of the one before is
      the next to free, and nobody is freeing it. */
  lemma LastToComplete(bar: nat -> bool, s: State, t: Tid)
    requires Inv(bar, s) && t in s.threads && s.threads[t].pc == Inside && s.threads[t].cur > 0
    requires forall u | u in s.threads && u != t :: Completed(s.threads[u], s.threads[t].cur)
    ensures s.sh.pusher == None && s.threads[t].cur == s.sh.freed + 1
  {
    var cur, f := s.threads[t].cur, s.sh.freed;
    assert ThreadOk(bar, s.sh, t, s.threads[t]);
    assert f < cur;
    assert cur > f + 1 ==> Done(s, f + 1) == s.threads.Keys;
    if s.sh.pusher != None {
      assert false;
    }
  }

  lemma ArrivedBound(bar: nat -> bool, s: State, t: Tid)
    requires CountsOk(bar, s) && t in s.threads && !AtBarrier(bar, s.sh, s.threads[t])
    ensures Arrived(bar, s) + {t} <= s.threads.Keys && s.sh.awaited - 1 >= 0
    ensures s.sh.awaited - 1 == 0 <==> Arrived(bar, s) + {t} == s.threads.Keys
  {
    SubsetCardinality(Arrived(bar, s) + {t}, s.threads.Keys);
  }

  lemma TokensOfInside(bar: nat -> bool, sh: Shared, t: Tid, th: Thread)
    requires ThreadOk(bar, sh, t, th) && th.pc == Inside
    ensures sh.lastIn == None && sh.pusher != Some(t) && sh.lastBarrier < th.cur && !AtBarrier(bar, sh, th)
  {
    hide PlaceOk, AllocatorOk, PublishedOk, PusherOk;
  }

  lemma BarrierAlone(bar: nat -> bool, s: State, t: Tid, s': State)
    requires Inv(bar, s) && t in s.threads && StepOf(bar, s, t, s') && s.threads[t].pc == Inside && bar(s.threads[t].cur)
    ensures EndAlone(bar, s.sh, t, s.threads[t], s'.sh)
    ensures s'.sh.lastIn == Some(t) ==> forall u | u in s.threads && u != t :: AtBarrier(bar, s.sh, s.threads[u])
    ensures s'.sh.pusher == Some(t) ==> forall u | u in s.threads && u != t :: Completed(s.threads[u], s.threads[t].cur)
  {
    hide Inv, Step, ThreadOk, SharedOk, CountsOk;
    var n, sh, th, sh', th' := |s.threads.Keys|, s.sh, s.threads[t], s'.sh, s'.threads[t];
    InsideOnlyEnds(n, bar, sh, t, th, sh', th');
    Holds(bar, s, t);
    TokensOfInside(bar, sh, t, th);
    ArrivedBound(bar, s, t);
    LastIsSet(bar, s, t);
    if sh'.lastIn == Some(t) {
      assert Arrived(bar, s) + {t} == s.threads.Keys;
      OthersAtBarrier(bar, s, t);
      if th.cur > 0 { LastToComplete(bar, s, t); }
    }
  }

  lemma OthersAtBarrier(bar: nat -> bool, s: State, t: Tid)
    requires Inv(bar, s) && t in s.threads && bar(s.threads[t].cur) && s.sh.lastBarrier < s.threads[t].cur
    requires Arrived(bar, s) + {t} == s.threads.Keys
    ensures forall u | u in s.threads && u != t :: AtBarrier(bar, s.sh, s.threads[u]) && Completed(s.threads[u], s.threads[t].cur)
  {
    hide Inv, ThreadOk, SharedOk, CountsOk;
    Holds(bar, s, t);
    forall u | u in s.threads && u != t
      ensures AtBarrier(bar, s.sh, s.threads[u]) && Completed(s.threads[u], s.threads[t].cur)
    {
      assert u in Arrived(bar, s) + {t};
      Holds(bar, s, u);
      SameBarrier(bar, s.sh, t, s.threads[t], u, s.threads[u]);
    }
  }

  lemma LastIsSet(bar: nat -> bool, s: State, t: Tid)
    requires Inv(bar, s) && t in s.threads && s.threads[t].pc == Inside
    ensures s.threads[t].last == 0 <==> s.threads[t].cur == 0
    ensures s.sh.freed < s.threads[t].cur || s.threads[t].cur == 0 == s.sh.freed
  {
    var sh, th := s.sh, s.threads[t];
    assert ThreadOk(bar, sh, t, th);
    if th.cur > 0 {
      assert sh.blk[th.cur - 1] in sh.home && sh.blk[th.cur - 1] > 2;
    }
  }

  /** threads_completed reaches n exactly when all others have completed the construct. */
  lemma CountReached(bar: nat -> bool, s: State, t: Tid)
    requires Inv(bar, s) && t in s.threads && s.threads[t].pc == Inside && !bar(s.threads[t].cur) && s.threads[t].cur > 0
    ensures var th, n := s.threads[t], |s.threads.Keys|;
      && th.ws in s.sh.completed && t !in Done(s, th.cur) && s.sh.completed[th.ws] == |Done(s, th.cur)|
      && (s.sh.completed[th.ws] + 1 == n <==> Done(s, th.cur) + {t} == s.threads.Keys)
  {
    hide Inv;
    var th := s.threads[t];
    LastIsSet(bar, s, t);
    IsAt(bar, s, t);
    IsCounted(bar, s, th.cur);
    var done := Done(s, th.cur);
    assert t !in done && done <= s.threads.Keys;
    hide Completed, Done;
    SubsetCardinality(done + {t}, s.threads.Keys);
  }

  lemma IsAt(bar: nat -> bool, s: State, t: Tid)
    requires Inv(bar, s) && t in s.threads
    ensures s.threads[t].cur < |s.sh.blk| && s.threads[t].ws == s.sh.blk[s.threads[t].cur]
  {
    hide SharedOk, CountsOk, TokensOk, AllocatorOk, PusherOk, PublishedOk, BarrierOk;
    assert ThreadOk(bar, s.sh, t, s.threads[t]);
  }

  lemma IsCounted(bar: nat -> bool, s: State, j: nat)
    requires Inv(bar, s) && s.sh.freed <= j < |s.sh.blk| && 0 < j && !bar(j)
    ensures Counted(s, j)
  {
    hide SharedOk, ThreadOk, Counted;
  }

  lemma OthersCompleted(s: State, t: Tid, j: nat)
    requires Done(s, j) + {t} == s.threads.Keys
    ensures forall u | u in s.threads && u != t :: Completed(s.threads[u], j)
  {
    forall u | u in s.threads && u != t ensures Completed(s.threads[u], j) {
      assert u in Done(s, j) + {t};
    }
  }

  lemma NowaitAlone(bar: nat -> bool, s: State, t: Tid, s': State)
    requires Inv(bar, s) && t in s.threads && StepOf(bar, s, t, s') && s.threads[t].pc == Inside && !bar(s.threads[t].cur)
    ensures EndAlone(bar, s.sh, t, s.threads[t], s'.sh)
    ensures s'.sh.lastIn == s.sh.lastIn != Some(t)
    ensures s'.sh.pusher == Some(t) ==> forall u | u in s.threads && u != t :: Completed(s.threads[u], s.threads[t].cur)
    ensures s'.sh.pusher == Some(t) <==> s.threads[t].cur > 0 && Done(s, s.threads[t].cur) + {t} == s.threads.Keys
  {
    var n, sh, th, sh', th' := |s.threads.Keys|, s.sh, s.threads[t], s'.sh, s'.threads[t];
    InsideOnlyEnds(n, bar, sh, t, th, sh', th');
    LastIsSet(bar, s, t);
    assert ThreadOk(bar, sh, t, th);
    assert sh.pusher != Some(t) && sh.lastIn != Some(t);
    hide Inv, ThreadOk, Step, Completed, Done;
    if th.cur > 0 {
      CountReached(bar, s, t);
      if Done(s, th.cur) + {t} == s.threads.Keys {
        OthersCompleted(s, t, th.cur);
        LastToComplete(bar, s, t);
      }
    }
  }

  lemma StepAlone(bar: nat -> bool, s: State, t: Tid, s': State)
    requires Inv(bar, s) && t in s.threads && StepOf(bar, s, t, s')
    ensures EndAlone(bar, s.sh, t, s.threads[t], s'.sh)
  {
    hide Inv;
    if s.threads[t].pc == Inside {
      if bar(s.threads[t].cur) { BarrierAlone(bar, s, t, s'); } else { NowaitAlone(bar, s, t, s'); }
    }
  }

  lemma StepPeers(bar: nat -> bool, s: State, t: Tid, s': State, u: Tid)
    requires Inv(bar, s) && t in s.threads && StepOf(bar, s, t, s') && u in s.threads && u != t
    ensures PeerOk(bar, s.sh, t, s.threads[t], s'.sh, s.threads[u])
  {
    var th := s.threads[t];
    if th.pc == Inside {
      StepAlone(bar, s, t, s');
      hide Inv, StepOf, Completed;
      if bar(th.cur) { BarrierAlone(bar, s, t, s'); } else { NowaitAlone(bar, s, t, s'); }
    } else if th.pc == Releasing {
      assert ThreadOk(bar, s.sh, t, th) && ThreadOk(bar, s.sh, u, s.threads[u]);
      assert s.sh.lastIn == Some(t);
      SameBarrier(bar, s.sh, t, th, u, s.threads[u]);
    }
  }

  lemma Holds(bar: nat -> bool, s: State, t: Tid)
    requires Inv(bar, s) && t in s.threads
    ensures ThreadOk(bar, s.sh, t, s.threads[t]) && SharedOk(s.sh) && CountsOk(bar, s)
  {
    hide ThreadOk, SharedOk, CountsOk;
  }

  lemma AllocatorExists(bar: nat -> bool, s: State)
    requires Inv(bar, s) && s.sh.allocator != None
    ensures var t := s.sh.allocator.value; t in s.threads && Allocating(s.threads[t].pc)
  {
    var t := s.sh.allocator.value;
    assert t in s.threads by { hide ThreadOk, SharedOk; }
    Holds(bar, s, t);
    hide Inv, SharedOk, CountsOk, PlaceOk, AllocatorOk, PusherOk, PublishedOk, BarrierOk;
  }

  lemma AllocatorLinksHold(bar: nat -> bool, s: State)
    requires Inv(bar, s)
    ensures AllocatorLinks(s.sh)
  {
    hide Inv, ThreadOk, SharedOk, CountsOk, BeingSet, PreviousLinked, Allocating;
    if s.sh.allocator != None {
      AllocatorExists(bar, s);
      var u := s.sh.allocator.value;
      Holds(bar, s, u);
      AllocatorKnows(bar, s.sh, u, s.threads[u]);
    }
  }

  lemma ThreadKept(bar: nat -> bool, s: State, t: Tid, s': State, u: Tid)
    requires Inv(bar, s) && t in s.threads && StepOf(bar, s, t, s') && u in s.threads
    ensures ThreadOk(bar, s'.sh, u, s'.threads[u])
  {
    var n, sh, th, sh', th' := |s.threads.Keys|, s.sh, s.threads[t], s'.sh, s'.threads[t];
    StepAlone(bar, s, t, s');
    AllocatorLinksHold(bar, s);
    assert ThreadOk(bar, sh, t, th) && ThreadOk(bar, sh, u, s.threads[u]) && SharedOk(sh);
    if u != t { StepPeers(bar, s, t, s', u); }
    hide Inv, ThreadOk, SharedOk, Step, AllocatorLinks, EndAlone, PeerOk, Guarantee, TokensSetAtEnd;
    StepGuarantees(n, bar, sh, t, th, sh', th');
    if u == t {
      OwnThread(n, bar, sh, t, th, sh', th');
    } else {
      StepSetsTokensAtEnd(n, bar, sh, t, th, sh', th');
      OtherThread(bar, sh, t, th, sh', u, s.threads[u]);
    }
  }

  lemma AtBarrierBeforeRelease(bar: nat -> bool, sh: Shared, t: Tid, u: Tid, uh: Thread, sh': Shared)
    requires ThreadOk(bar, sh, u, uh) && sh.lastIn == Some(t) && u != t && sh'.gen == sh.gen + 1
    ensures !AtBarrier(bar, sh', uh)
  {
    hide PlaceOk, AllocatorOk, PublishedOk, PusherOk;
  }

  lemma LastInReleases(bar: nat -> bool, sh: Shared, t: Tid, th: Thread)
    requires ThreadOk(bar, sh, t, th) && th.pc == Releasing
    ensures sh.lastIn == Some(t)
  {
    hide PlaceOk, AllocatorOk, PublishedOk, PusherOk, BarrierOk;
  }

  lemma ReleasedAll(bar: nat -> bool, s: State, t: Tid, s': State)
    requires Inv(bar, s) && t in s.threads && StepOf(bar, s, t, s') && s.threads[t].pc == Releasing
    ensures s'.sh.awaited == |s'.threads.Keys| && Arrived(bar, s') == {}
  {
    hide Inv, ThreadOk, SharedOk, CountsOk, AllocStep;
    Holds(bar, s, t);
    LastInReleases(bar, s.sh, t, s.threads[t]);
    NotAllocStep(s.sh, s.threads[t], s'.sh, s'.threads[t]);
    assert s'.threads.Keys == s.threads.Keys && s'.sh.gen == s.sh.gen + 1;
    forall u | u in s.threads ensures !AtBarrier(bar, s'.sh, s'.threads[u]) {
      Holds(bar, s, u);
      if u != t { AtBarrierBeforeRelease(bar, s.sh, t, u, s.threads[u], s'.sh); }
    }
  }

  lemma NotAllocStep(sh: Shared, th: Thread, sh': Shared, th': Thread)
    requires !Allocating(th.pc) && th.pc != Waking
    ensures !AllocStep(sh, th, sh', th')
  {
  }

  lemma ArrivedAfter(bar: nat -> bool, s: State, t: Tid, s': State)
    requires Inv(bar, s) && t in s.threads && StepOf(bar, s, t, s')
    ensures s'.sh.awaited == |s'.threads.Keys| - |Arrived(bar, s')|
  {
    hide Inv, Step, ThreadOk, SharedOk, CountsOk;
    var n, sh, th, sh', th' := |s.threads.Keys|, s.sh, s.threads[t], s'.sh, s'.threads[t];
    if th.pc == Releasing {
      ReleasedAll(bar, s, t, s');
    } else {
      ArrivalLocal(n, bar, sh, t, th, sh', th');
      OthersStay(bar, s, t, s');
      AwaitedIs(bar, s);
      assert t in Arrived(bar, s) <==> AtBarrier(bar, sh, th);
      assert s'.threads.Keys == s.threads.Keys;
      hide AtBarrier, Arrived;
    }
  }

  lemma AwaitedIs(bar: nat -> bool, s: State)
    requires Inv(bar, s)
    ensures s.sh.awaited == |s.threads.Keys| - |Arrived(bar, s)|
  {
  }

  /** What a step that releases no barrier does to the arrivals. */
  ghost predicate Arrives(bar: nat -> bool, sh: Shared, th: Thread, sh': Shared, th': Thread) {
    var arrives := th.pc == Inside && bar(th.cur);
    && sh'.gen == sh.gen
    && sh'.awaited == sh.awaited - (if arrives then 1 else 0)
    && (AtBarrier(bar, sh', th') <==> AtBarrier(bar, sh, th) || arrives)
  }

  lemma AllocArrives(bar: nat -> bool, sh: Shared, th: Thread, sh': Shared, th': Thread)
    requires AllocStep(sh, th, sh', th')
    ensures Arrives(bar, sh, th, sh', th')
  {
    hide GrownLinks, GrownCounts, GrownHome, MoveHome, NewBlocks;
  }

  lemma WaitingArrives(n: nat, bar: nat -> bool, sh: Shared, th: Thread, sh': Shared, th': Thread)
    requires BarrierStep(n, sh, th, sh', th') && th.pc != Releasing
    ensures Arrives(bar, sh, th, sh', th')
  {
  }

  lemma ArrivalLocal(n: nat, bar: nat -> bool, sh: Shared, t: Tid, th: Thread, sh': Shared, th': Thread)
    requires Step(n, bar, sh, t, th, sh', th') && th.pc != Releasing
    ensures Arrives(bar, sh, th, sh', th')
    ensures th.pc == Inside ==> !AtBarrier(bar, sh, th)
  {
    hide AllocStep;
    if AllocStep(sh, th, sh', th') {
      AllocArrives(bar, sh, th, sh', th');
    } else if BarrierStep(n, sh, th, sh', th') {
      hide BarrierStep;
      WaitingArrives(n, bar, sh, th, sh', th');
    } else {
      hide BarrierStep;
    }
  }

  lemma OthersStay(bar: nat -> bool, s: State, t: Tid, s': State)
    requires t in s.threads && t in s'.threads && s'.threads == s.threads[t := s'.threads[t]] && s'.sh.gen == s.sh.gen
    ensures Arrived(bar, s') ==
      if AtBarrier(bar, s'.sh, s'.threads[t]) then Arrived(bar, s) + {t} else Arrived(bar, s) - {t}
  {
    assert forall u | u in s.threads && u != t :: AtBarrier(bar, s'.sh, s'.threads[u]) <==> AtBarrier(bar, s.sh, s.threads[u]);
  }

  lemma GrownCountsAre(sh: Shared, base: Block, count: nat)
    requires KeysOk(sh) && forall b | b in NewBlocks(base, count) :: b !in sh.link
    ensures forall b | b in sh.completed :: b in GrownCounts(sh.completed, base, count) && GrownCounts(sh.completed, base, count)[b] == sh.completed[b]
  {
    assert forall b | b in NewBlocks(base, count) :: b !in sh.completed;
  }

  /** A step counts only the end of a nowait construct, and only for the block of that one. */
  lemma CountLocal(n: nat, bar: nat -> bool, sh: Shared, t: Tid, th: Thread, sh': Shared, th': Thread, b: Block)
    requires SharedOk(sh) && ThreadOk(bar, sh, t, th) && Step(n, bar, sh, t, th, sh', th')
    requires b in sh.home && sh.home[b].InUse? && b in sh.completed
    ensures b in sh'.completed
    ensures sh'.completed[b] == sh.completed[b] + if th.pc == Inside && !bar(th.cur) && th.last != 0 && b == th.ws then 1 else 0
  {
    hide SharedOk, ThreadOk;
    if th.pc == Inside {
      InsideOnlyEnds(n, bar, sh, t, th, sh', th');
    } else if th.pc.Grow? {
      var base :| GrowStep(sh, th, base, sh', th');
      hide NewBlocks, GrownCounts, GrownLinks, GrownHome;
      SharedParts(sh);
      hide HomesOk, ListsOk, LinksOk;
      GrownCountsAre(sh, base, 2 * sh.chunk);
    } else if th.pc.Fresh? {
      FreshIsTaken(bar, sh, t, th);
    } else {
      hide MoveHome, GrowStep;
    }
  }

  lemma FreshIsTaken(bar: nat -> bool, sh: Shared, t: Tid, th: Thread)
    requires SharedOk(sh) && ThreadOk(bar, sh, t, th) && th.pc.Fresh?
    ensures th.pc.b in sh.home && sh.home[th.pc.b] == Taken
  {
    hide IsList, LinksOk, PlaceOk, PublishedOk, BarrierOk, TokensOk, PusherOk;
    assert th.pc.b in sh.taken;
  }

  lemma NewBlockCounts(n: nat, bar: nat -> bool, sh: Shared, t: Tid, th: Thread, sh': Shared, th': Thread)
    requires Step(n, bar, sh, t, th, sh', th') && sh'.blk != sh.blk
    ensures |sh'.blk| == |sh.blk| + 1 && sh'.blk[|sh.blk|] in sh'.completed && sh'.completed[sh'.blk[|sh.blk|]] == 0
    ensures th.pc != Inside
  {
  }

  lemma NobodyDone(bar: nat -> bool, s: State)
    requires Inv(bar, s)
    ensures Done(s, |s.sh.blk|) == {}
  {
    forall t | t in s.threads ensures !Completed(s.threads[t], |s.sh.blk|) {
      IsAt(bar, s, t);
    }
  }

  lemma CountedAfter(bar: nat -> bool, s: State, t: Tid, s': State, j: nat)
    requires Inv(bar, s) && t in s.threads && StepOf(bar, s, t, s') && ChainMoves(s.sh, t, s.threads[t], s'.sh)
    requires s'.sh.freed <= j < |s'.sh.blk| && 0 < j && !bar(j)
    ensures Counted(s', j)
  {
    hide Inv, Step, SharedOk, ThreadOk, CountsOk;
    var n, sh, th, sh', th' := |s.threads.Keys|, s.sh, s.threads[t], s'.sh, s'.threads[t];
    Holds(bar, s, t);
    DoneAfter(bar, s, t, s', j);
    if j < |sh.blk| {
      SameBlocks(sh, t, th, sh', j);
      BlockAt(sh, j);
      CountLocal(n, bar, sh, t, th, sh', th', sh.blk[j]);
      IsCounted(bar, s, j);
      IsAt(bar, s, t);
      if th.pc == Inside {
        LastIsSet(bar, s, t);
        if j == th.cur { NotYetDone(s, t, j); } else { AtOther(sh, th, j); }
      }
    } else {
      NewBlockCounts(n, bar, sh, t, th, sh', th');
      NobodyDone(bar, s);
    }
  }

  lemma NotYetDone(s: State, t: Tid, j: nat)
    requires t in s.threads && s.threads[t].pc == Inside && s.threads[t].cur == j
    ensures t !in Done(s, j)
  {
  }

  lemma AtOther(sh: Shared, th: Thread, j: nat)
    requires SharedOk(sh) && th.cur < |sh.blk| && th.ws == sh.blk[th.cur] && sh.freed <= th.cur && sh.freed <= j < |sh.blk| && j != th.cur
    ensures sh.blk[j] != th.ws
  {
    hide ListsOk, LinksOk, KeysOk;
    UsedAreApart(sh, j, th.cur);
  }

  /** At a construct that ends with a barrier, to have completed it is to wait for the release. */
  lemma CompletedWaits(bar: nat -> bool, sh: Shared, th: Thread, u: Tid, uh: Thread)
    requires ThreadOk(bar, sh, u, uh) && bar(th.cur) && sh.lastBarrier < th.cur && Completed(uh, th.cur)
    ensures AtBarrier(bar, sh, uh)
  {
    hide PlaceOk, AllocatorOk, PublishedOk, PusherOk, TokensOk;
  }

  lemma InsideIsPast(bar: nat -> bool, sh: Shared, t: Tid, th: Thread)
    requires ThreadOk(bar, sh, t, th) && th.pc == Inside
    ensures sh.lastBarrier < th.cur && !AtBarrier(bar, sh, th)
  {
    hide PlaceOk, AllocatorOk, PublishedOk, PusherOk, TokensOk;
  }

  lemma BarrierEndPushes(bar: nat -> bool, s: State, t: Tid, s': State)
    requires Inv(bar, s) && t in s.threads && StepOf(bar, s, t, s') && s.threads[t].pc == Inside
    requires bar(s.threads[t].cur) && s.threads[t].cur > 0 && Done(s, s.threads[t].cur) + {t} == s.threads.Keys
    ensures s'.sh.pusher == Some(t)
  {
    hide Inv, ThreadOk, SharedOk, CountsOk, Step;
    var n, sh, th := |s.threads.Keys|, s.sh, s.threads[t];
    InsideOnlyEnds(n, bar, sh, t, th, s'.sh, s'.threads[t]);
    Holds(bar, s, t);
    InsideIsPast(bar, sh, t, th);
    OthersCompleted(s, t, th.cur);
    forall u | u in s.threads && u != t ensures AtBarrier(bar, sh, s.threads[u]) {
      Holds(bar, s, u);
      CompletedWaits(bar, sh, th, u, s.threads[u]);
    }
    assert Arrived(bar, s) + {t} == s.threads.Keys;
    ArrivedBound(bar, s, t);
    LastIsSet(bar, s, t);
  }

  lemma PusherAfter(bar: nat -> bool, s: State, t: Tid, s': State)
    requires Inv(bar, s) && t in s.threads && StepOf(bar, s, t, s') && ChainMoves(s.sh, t, s.threads[t], s'.sh)
    requires Done(s', s'.sh.freed + 1) == s'.threads.Keys
    ensures s'.sh.pusher != None
  {
    hide Inv, ThreadOk, SharedOk, CountsOk, Step;
    var n, sh, th, f := |s.threads.Keys|, s.sh, s.threads[t], s.sh.freed;
    Holds(bar, s, t);
    DoneAfter(bar, s, t, s', s'.sh.freed + 1);
    assert s'.threads.Keys == s.threads.Keys;
    if s'.sh.freed != f {
      NotDoneBeyond(bar, sh, t, th);
    } else if th.pc == Inside && th.cur == f + 1 {
      if bar(th.cur) { BarrierEndPushes(bar, s, t, s'); } else { NowaitAlone(bar, s, t, s'); }
    } else {
      AllDonePushes(bar, s);
    }
  }

  lemma NotDoneBeyond(bar: nat -> bool, sh: Shared, t: Tid, th: Thread)
    requires ThreadOk(bar, sh, t, th) && sh.pusher == Some(t)
    ensures !Completed(th, sh.freed + 2) && th.pc != Inside
  {
    hide PlaceOk, AllocatorOk, PublishedOk, BarrierOk;
  }

  lemma AllDonePushes(bar: nat -> bool, s: State)
    requires Inv(bar, s)
    ensures Done(s, s.sh.freed + 1) == s.threads.Keys ==> s.sh.pusher != None
  {
    hide ThreadOk, SharedOk, Done;
  }
}
