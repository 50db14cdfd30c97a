/** The circular queue of team ids behind ordered loops, updated in place: gomp_ordered_first,
    gomp_ordered_last and gomp_ordered_next (ordered.c:38-146), proved to be the queue and the
    semaphore posts that `Ordered` works with.
 */
module OrderedQueue {
  import opened Collections
  import opened Options
  import Protocol = Ordered

  /** Position of element j of a queue that starts at cur in an array of n. */
  function At(n: nat, cur: nat, j: nat): nat
    requires cur < n && j <= n
  {
    if cur + j >= n then cur + j - n else cur + j
  }

  /** The fields of the work share, and the release semaphores of a team of at least two. */
  class WorkShare {
    var ids: array<nat>       // ordered_team_ids
    var cur: nat              // ordered_cur
    var numUsed: nat          // ordered_num_used
    var owner: int            // ordered_owner, -1 if nobody
    var release: array<nat>   // ordered_release, the counts

    ghost predicate Valid()
      reads this, ids, release
    {
      && ids != release && ids.Length == release.Length >= 2
      && cur < ids.Length && numUsed <= ids.Length
      && forall j | 0 <= j < numUsed :: ids[At(ids.Length, cur, j)] < ids.Length
    }

    /** The queued team ids, the head first. */
    ghost function Queue(): (q: seq<nat>)
      requires Valid()
      reads this, ids, release
    {
      seq(numUsed, j requires 0 <= j < numUsed reads this, ids, release requires Valid() => ids[At(ids.Length, cur, j)])
    }

    /** Moving on by one element. */
    static lemma Shift(n: nat, cur: nat, j: nat)
      requires cur < n && j < n
      ensures At(n, At(n, cur, 1), j) == At(n, cur, j + 1)
    {
    }

    /** gomp_ordered_first for a thread that is not queued. */
    method First(id: nat)
      requires Valid() && id < ids.Length && id !in Queue() && numUsed < ids.Length
      modifies this`numUsed, ids, release
      ensures Valid() && Queue() == old(Queue()) + [id] && owner == old(owner)
      ensures release[..] == if old(Queue()) == [] then old(release[..])[id := old(release[..])[id] + 1] else old(release[..])
    {
      var index := cur + numUsed;
      if index >= ids.Length {
        index := index - ids.Length;
      }
      ids[index] := id;
      if numUsed == 0 {
        release[id] := release[id] + 1;
      }
      numUsed := numUsed + 1;
    }

    /** gomp_ordered_last for the head. */
    method Last()
      requires Valid() && Queue() != []
      modifies this`owner, this`numUsed, this`cur, release
      ensures Valid() && Queue() == old(Queue())[1..] && owner == -1
      ensures release[..] == if Queue() == [] then old(release[..]) else old(release[..])[Queue()[0] := old(release[..])[Queue()[0]] + 1]
    {
      owner := -1;
      numUsed := numUsed - 1;
      if numUsed > 0 {
        var next := cur + 1;
        if next == ids.Length {
          next := 0;
        }
        ghost var q := old(Queue())[1..];
        forall j | 0 <= j < numUsed ensures ids[At(ids.Length, cur, j + 1)] == q[j] < ids.Length {
          assert q[j] == old(Queue())[j + 1];
        }
        MoveOn(next, q);
      }
    }

    /** gomp_ordered_next for the head, which goes to the end of the queue. */
    method Next(id: nat)
      requires Valid() && Queue() != [] && Queue()[0] == id
      modifies this`owner, this`cur, ids, release
      ensures Valid() && Queue() == old(Queue())[1..] + [id] && owner == -1
      ensures release[..] == old(release[..])[Queue()[0] := old(release[..])[Queue()[0]] + 1]
    {
      owner := -1;
      if numUsed == 1 {
        release[id] := release[id] + 1;
        return;
      }
      ghost var q := Queue()[1..] + [id];
      Requeue(id, q);
      var index := cur + 1;
      if index == ids.Length {
        index := 0;
      }
      MoveOn(index, q);
    }

    /** The id goes behind the last one; in a full array it is there already. */
    method Requeue(id: nat, ghost q: seq<nat>)
      requires Valid() && numUsed > 1 && Queue()[0] == id && q == Queue()[1..] + [id]
      modifies ids
      ensures forall j | 0 <= j < numUsed :: ids[At(ids.Length, cur, j + 1)] == q[j] < ids.Length
    {
      if numUsed < ids.Length {
        var end := cur + numUsed;
        if end >= ids.Length {
          end := end - ids.Length;
        }
        ids[end] := id;
      }
      forall j | 0 <= j < numUsed ensures ids[At(ids.Length, cur, j + 1)] == q[j] < ids.Length {
        if j + 1 < numUsed {
          assert q[j] == old(Queue())[j + 1];
        }
      }
    }

    /** The head moves on, and is released. */
    method MoveOn(index: nat, ghost q: seq<nat>)
      requires ids != release && ids.Length == release.Length >= 2 && cur < ids.Length && 0 < numUsed <= ids.Length
      requires index == At(ids.Length, cur, 1) && |q| == numUsed
      requires forall j | 0 <= j < numUsed :: ids[At(ids.Length, cur, j + 1)] == q[j] < ids.Length
      modifies this`cur, release
      ensures Valid() && Queue() == q && cur == index
      ensures release[..] == old(release[..])[q[0] := old(release[..])[q[0]] + 1]
    {
      forall j | 0 <= j < numUsed ensures ids[At(ids.Length, index, j)] == q[j] < ids.Length {
        Shift(ids.Length, cur, j);
      }
      assert At(ids.Length, index, 0) == index;
      cur := index;
      var nextId := ids[index];
      release[nextId] := release[nextId] + 1;
      assert Valid();
      assert Queue() == q;
    }
  }

  // ---------------------------------------------------------------- the protocol

  /** Queue, owner and semaphore counts are those of the protocol, for a team whose ids are those
      below the length of the array. */
  ghost predicate View(queue: seq<nat>, owner: int, release: seq<nat>, team: set<nat>, sh: Protocol.Shared) {
    && queue == sh.queue
    && (forall t: nat :: t in team <==> t < |release|)
    && owner == (if sh.owner == None then -1 else sh.owner.value)
    && sh.sem.Keys == team && forall t | t in sh.sem :: release[t] == sh.sem[t]
  }

  ghost predicate Represents(w: WorkShare, s: Protocol.State, sh: Protocol.Shared)
    reads w, w.ids, w.release
  {
    w.Valid() && View(w.Queue(), w.owner, w.release[..], s.pc.Keys, sh)
  }

  /** A queue of different threads of the team without t is shorter than the team. */
  lemma QueueIsShorter(q: seq<nat>, n: nat, t: nat)
    requires NoDup(q) && t < n && t !in q && forall x | x in q :: x < n
    ensures |q| < n
  {
    BelowHas(n);
    ElementsOf(q);
    var elements := set x: nat | x in q;
    assert elements <= Below(n) - {t};
    SubsetCardinality(elements, Below(n) - {t});
  }

  /** In every state of the protocol, a thread that joins may call First, and does the step. */
  method Join(w: WorkShare, ghost s: Protocol.State, t: nat, ghost k: nat) returns (ghost sh': Protocol.Shared)
    requires Protocol.Inv(s) && Represents(w, s, s.sh) && t in s.pc && s.pc[t] == Protocol.Joining(k)
    modifies w`numUsed, w.ids, w.release
    ensures Represents(w, s, sh') && Protocol.QueueStep(s.sh, t, s.pc[t], sh', Protocol.Body(k))
  {
    JoinerMayCall(w, s, t);
    w.First(t);
    var queue := s.sh.queue + [t];
    sh' := s.sh.(queue := queue, sem := if s.sh.queue == [] then Protocol.PostHead(s.sh, queue) else s.sh.sem, lock := None, pending := false);
  }

  lemma JoinerMayCall(w: WorkShare, s: Protocol.State, t: nat)
    requires Protocol.Inv(s) && Represents(w, s, s.sh) && t in s.pc && s.pc[t].Joining?
    ensures t < w.ids.Length && t !in w.Queue() && w.numUsed < w.ids.Length
  {
    assert Protocol.ThreadOk(s.sh, t, s.pc[t]);
    QueueIsShorter(s.sh.queue, w.ids.Length, t);
  }

  /** The state after a thread passed the token on: without its old chunk, and behind the others
      when it has another one. */
  ghost function PassedOn(sh: Protocol.Shared, t: nat, again: bool): Protocol.Shared
    requires sh.queue != []
  {
    var queue := if again then sh.queue[1..] + [t] else sh.queue[1..];
    sh.(owner := None, queue := queue, sem := Protocol.PostHead(sh, queue), lock := None, first := sh.first + 1, pending := false)
  }

  /** Disowning and passing on are the two steps of gomp_ordered_last and gomp_ordered_next. */
  lemma PassedOnInTwoSteps(s: Protocol.State, t: nat)
    requires Protocol.Inv(s) && t in s.pc && s.pc[t].Disowning?
    ensures Protocol.IsHead(s.sh, t)
    ensures var pc, sh1 := s.pc[t], s.sh.(owner := None);
      && Protocol.QueueStep(s.sh, t, pc, sh1, Protocol.Passing(pc.k, pc.next))
      && Protocol.QueueStep(sh1, t, Protocol.Passing(pc.k, pc.next), PassedOn(s.sh, t, pc.next.Some?),
           if pc.next.Some? then Protocol.Body(pc.next.value) else Protocol.Finished)
  {
    assert Protocol.ThreadOk(s.sh, t, s.pc[t]);
  }

  /** What Last and Next leave is the state after the token was passed on. */
  lemma PassedOnIsViewed(owner: int, release: seq<nat>, release': seq<nat>, team: set<nat>, sh: Protocol.Shared, t: nat, again: bool)
    requires sh.queue != [] && View(sh.queue, owner, release, team, sh)
    requires var queue := PassedOn(sh, t, again).queue;
      && (queue != [] ==> queue[0] < |release|)
      && release' == if queue == [] then release else release[queue[0] := release[queue[0]] + 1]
    ensures View(PassedOn(sh, t, again).queue, -1, release', team, PassedOn(sh, t, again))
  {
  }

  /** A thread that has no other chunk may call Last, and passes the token on. */
  method Leave(w: WorkShare, ghost s: Protocol.State, t: nat)
    requires Protocol.Inv(s) && Represents(w, s, s.sh) && t in s.pc && s.pc[t].Disowning? && s.pc[t].next == None
    modifies w`owner, w`numUsed, w`cur, w.release
    ensures s.sh.queue != [] && Represents(w, s, PassedOn(s.sh, t, false))
  {
    PassedOnInTwoSteps(s, t);
    ghost var owner, release := w.owner, w.release[..];
    assert View(s.sh.queue, owner, release, s.pc.Keys, s.sh) && w.Queue() == s.sh.queue;
    hide Protocol.Inv, Protocol.PostHead, Protocol.QueueStep, View;
    w.Last();
    assert w.Queue() == s.sh.queue[1..] && w.owner == -1;
    PassedOnIsViewed(owner, release, w.release[..], s.pc.Keys, s.sh, t, false);
  }

  /** And one that has may call Next. */
  method GoOn(w: WorkShare, ghost s: Protocol.State, t: nat)
    requires Protocol.Inv(s) && Represents(w, s, s.sh) && t in s.pc && s.pc[t].Disowning? && s.pc[t].next.Some?
    modifies w`owner, w`cur, w.ids, w.release
    ensures s.sh.queue != [] && Represents(w, s, PassedOn(s.sh, t, true))
  {
    PassedOnInTwoSteps(s, t);
    ghost var owner, release := w.owner, w.release[..];
    assert View(s.sh.queue, owner, release, s.pc.Keys, s.sh) && w.Queue() == s.sh.queue;
    hide Protocol.Inv, Protocol.PostHead, Protocol.QueueStep, View;
    w.Next(t);
    PassedOnIsViewed(owner, release, w.release[..], s.pc.Keys, s.sh, t, true);
  }
}
