/** Ordered regions, the other half: no chunk is lost, and nobody is stuck (ordered.c:38-226,
    loop.c:224-247, iter.c:147-177).  `Ordered` has the protocol and says that regions are in order.
 */
module OrderedProgress {
  import opened Collections
  import opened Options
  import opened Ordered
  import opened Runs

  /** Whoever was given no chunk came after all of them, and a thread does not wait for what it has. */
  ghost predicate GoesOn(total: nat, sh: Shared, t: Tid, pc: Pc) {
    && (pc.Finished? || ((pc.Disowning? || pc.Passing?) && pc.next == None) ==> sh.handed == total)
    && (pc.Waiting? ==> sh.owner != Some(t))
  }

  ghost predicate Live(total: nat, s: State) {
    Inv(s) && s.sh.handed <= total && (s.sh.lock != None ==> s.sh.lock.value in s.pc)
    && forall t | t in s.pc :: GoesOn(total, s.sh, t, s.pc[t])
  }

  lemma StepGoesOn(total: nat, sh: Shared, t: Tid, pc: Pc, sh': Shared, pc': Pc, u: Tid, pu: Pc)
    requires Step(total, sh, t, pc, sh', pc') && sh.handed <= total
    requires GoesOn(total, sh, t, pc) && GoesOn(total, sh, u, pu)
    ensures sh.handed <= sh'.handed <= total && sh'.lock in {None, Some(t), sh.lock}
    ensures GoesOn(total, sh', t, pc') && (u != t ==> GoesOn(total, sh', u, pu))
  {
  }

  lemma StepKeepsLive(total: nat, s: State, t: Tid, s': State)
    requires Live(total, s) && t in s.pc && StepOf(total, s, t, s')
    ensures Live(total, s')
  {
    StepKeepsInv(total, s, t, s');
    assert s'.pc.Keys == s.pc.Keys;
    hide Inv, Step, GoesOn;
    forall u | u in s'.pc ensures GoesOn(total, s'.sh, u, s'.pc[u]) {
      StepGoesOn(total, s.sh, t, s.pc[t], s'.sh, s'.pc[t], u, s.pc[u]);
    }
    StepGoesOn(total, s.sh, t, s.pc[t], s'.sh, s'.pc[t], t, s.pc[t]);
  }

  lemma LiveAlong(total: nat, run: seq<State>, k: nat)
    requires IsTeamRun(total, run) && k < |run|
    ensures Live(total, run[k])
  {
    var live := s => Live(total, s);
    forall s | Init(s) ensures live(s) {
      InvAlong(total, [s], 0);
    }
    forall s, s' | live(s) && Next(total, s, s') ensures live(s') {
      var t :| t in s.pc && StepOf(total, s, t, s');
      StepKeepsLive(total, s, t, s');
    }
    hide Live;
    HoldsAlong(Init, (s, s') => Next(total, s, s'), live, run, k);
    assert live(run[k]);
  }

  lemma NobodyQueued(s: State)
    requires Inv(s) && forall t | t in s.pc :: s.pc[t] == Finished
    ensures s.sh.queue == []
  {
    assert forall t | t in s.pc :: ThreadOk(s.sh, t, s.pc[t]);
    HeadIsIn(s.sh.queue);
  }

  lemma HeadIsIn(q: seq<Tid>)
    ensures q != [] ==> exists t :: t in q
  {
    if q != [] { assert q[0] in q; }
  }

  /** No more chunks are handed out than there are, and a thread is only told that there are no more
      when all have been. */
  lemma NoChunkIsLost(total: nat, run: seq<State>, k: nat)
    requires IsTeamRun(total, run) && k < |run|
    ensures var s := run[k];
      && s.sh.handed <= total
      && (forall t | t in s.pc && s.pc[t] == Finished :: s.sh.handed == total)
      && ((forall t | t in s.pc :: s.pc[t] == Finished) ==> s.sh.first == total && s.sh.queue == [] && !s.sh.pending)
  {
    LiveAlong(total, run, k);
    var s := run[k];
    assert forall t | t in s.pc :: ThreadOk(s.sh, t, s.pc[t]) && GoesOn(total, s.sh, t, s.pc[t]);
    if forall t | t in s.pc :: s.pc[t] == Finished {
      NobodyQueued(s);
      assert s.pc.Keys != {};
      var t :| t in s.pc.Keys;
      assert s.pc[t] == Finished;
      assert s.sh.lock == None;
    }
  }

  // ---------------------------------------------------------------- nobody is stuck

  /** A step that is not the start of another ordered region. */
  ghost predicate Moves(total: nat, s: State, t: Tid, s': State) {
    && t in s.pc && StepOf(total, s, t, s') && s' != s
    && !(s.pc[t].Body? && s'.pc[t].Check? && !s'.pc[t].end)
  }

  ghost predicate CanMove(total: nat, s: State) {
    exists t: Tid, s': State :: Moves(total, s, t, s')
  }

  lemma GoTo(total: nat, s: State, t: Tid, sh': Shared, pc': Pc)
    requires t in s.pc && Step(total, s.sh, t, s.pc[t], sh', pc') && pc' != s.pc[t]
    requires !(s.pc[t].Body? && pc'.Check? && !pc'.end)
    ensures CanMove(total, s)
  {
    var s' := State(sh', s.pc[t := pc']);
    assert Moves(total, s, t, s');
  }

  /** What a thread does next when nothing holds it up; at the end of its chunk it goes on. */
  function NextShared(total: nat, sh: Shared, t: Tid, pc: Pc): Shared
    requires pc.Waiting? ==> t in sh.sem && sh.sem[t] > 0
    requires pc.Passing? ==> sh.queue != []
  {
    match pc
    case Start => if sh.handed < total then sh.(lock := Some(t), handed := sh.handed + 1, pending := true) else sh
    case Locking(_) =>
      if sh.handed < total then sh.(lock := Some(t), handed := sh.handed + 1, pending := true) else sh.(lock := Some(t))
    case Joining(_) =>
      sh.(queue := sh.queue + [t], sem := if sh.queue == [] then PostHead(sh, [t]) else sh.sem, lock := None, pending := false)
    case Disowning(_, _) => sh.(owner := None)
    case Passing(_, next) =>
      var queue := if next.Some? then sh.queue[1..] + [t] else sh.queue[1..];
      sh.(queue := queue, sem := PostHead(sh, queue), lock := None, first := sh.first + 1, pending := false)
    case Waiting(_, _) => sh.(sem := sh.sem[t := sh.sem[t] - 1])
    case Owning(_, _) => sh.(owner := Some(t))
    case Region(k) => sh.(log := sh.log + [k])
    case _ => sh
  }

  function NextPc(total: nat, sh: Shared, t: Tid, pc: Pc): Pc {
    match pc
    case Start => if sh.handed < total then Joining(sh.handed) else Finished
    case Locking(k) => if sh.handed < total then Disowning(k, Some(sh.handed)) else Disowning(k, None)
    case Joining(k) => Body(k)
    case Disowning(k, next) => Passing(k, next)
    case Passing(_, next) => if next.Some? then Body(next.value) else Finished
    case Body(k) => Check(k, true)
    case Check(k, end) => if sh.owner == Some(t) then (if end then Locking(k) else Region(k)) else Waiting(k, end)
    case Waiting(k, end) => Owning(k, end)
    case Owning(k, end) => if end then Locking(k) else Region(k)
    case Region(k) => Body(k)
    case Finished => Finished
  }

  lemma ReadyMoves(total: nat, s: State, t: Tid)
    requires Live(total, s) && t in s.pc && s.pc[t] != Finished
    requires s.sh.lock == None || s.sh.lock == Some(t)
    requires s.pc[t].Waiting? ==> s.sh.sem[t] > 0
    ensures CanMove(total, s)
  {
    assert ThreadOk(s.sh, t, s.pc[t]);
    hide Live, Inv;
    var sh, pc := s.sh, s.pc[t];
    if sh.queue == [] { assert sh.queue + [t] == [t]; }
    GoTo(total, s, t, NextShared(total, sh, t, pc), NextPc(total, sh, t, pc));
  }

  /** While some thread is not finished, some thread can go on. */
  lemma SomebodyMoves(total: nat, run: seq<State>, k: nat, t: Tid)
    requires IsTeamRun(total, run) && k < |run| && t in run[k].pc && run[k].pc[t] != Finished
    ensures CanMove(total, run[k])
  {
    LiveAlong(total, run, k);
    var s := run[k];
    SomebodyReady(total, s, t);
  }

  lemma SomebodyReady(total: nat, s: State, t: Tid)
    requires Live(total, s) && t in s.pc && s.pc[t] != Finished
    ensures CanMove(total, s)
  {
    assert ThreadOk(s.sh, t, s.pc[t]);
    if s.sh.lock != None {
      var u := s.sh.lock.value;
      assert ThreadOk(s.sh, u, s.pc[u]);
      ReadyMoves(total, s, u);
    } else if !s.pc[t].Waiting? {
      ReadyMoves(total, s, t);
    } else {
      var h := HeadOf(total, s, t);
      ReadyMoves(total, s, h);
    }
  }

  /** The head of the queue has its token, and does not wait for it in vain. */
  lemma HeadOf(total: nat, s: State, t: Tid) returns (h: Tid)
    requires Live(total, s) && t in s.pc && Queued(s.pc[t]) && s.sh.lock == None
    ensures h in s.pc && s.pc[h] != Finished && (s.pc[h].Waiting? ==> h in s.sh.sem && s.sh.sem[h] > 0)
  {
    assert ThreadOk(s.sh, t, s.pc[t]);
    h := s.sh.queue[0];
    assert h in s.sh.queue;
    assert ThreadOk(s.sh, h, s.pc[h]) && GoesOn(total, s.sh, h, s.pc[h]);
  }

  // ---------------------------------------------------------------- and everybody ends

  /** How many steps a thread has before it at most, until it asks for a chunk or starts a region. */
  function Rank(pc: Pc): nat {
    match pc
    case Start => 20
    case Joining(_) => 18
    case Check(_, end) => if end then 9 else 17
    case Waiting(_, end) => if end then 8 else 16
    case Owning(_, end) => if end then 7 else 15
    case Region(_) => 14
    case Body(_) => 10
    case Locking(_) => 6
    case Disowning(_, next) => if next.Some? then 13 else 5
    case Passing(_, next) => if next.Some? then 12 else 4
    case Finished => 0
  }

  ghost function Ranks(pc: map<Tid, Pc>): map<nat, nat> {
    map t | t in pc :: Rank(pc[t])
  }

  /** The chunks that are left, and the ranks of all threads. */
  ghost function Ahead(total: nat, s: State): int {
    20 * (total - s.sh.handed) + Sum(Ranks(s.pc))
  }

  /** Every step but the start of another region brings the team nearer to its end. */
  lemma StepGetsNearer(total: nat, s: State, t: Tid, s': State)
    requires Live(total, s) && Moves(total, s, t, s')
    ensures 0 <= Ahead(total, s') < Ahead(total, s)
  {
    hide Step, Inv, GoesOn, Rank, Ranks;
    StepKeepsLive(total, s, t, s');
    RankFalls(total, s.sh, t, s.pc[t], s'.sh, s'.pc[t]);
    NextRanks(s.pc, t, s'.pc[t]);
    SumUpdate(Ranks(s.pc), t, Rank(s'.pc[t]));
  }

  lemma NextRanks(pc: map<Tid, Pc>, t: Tid, p: Pc)
    requires t in pc
    ensures t in Ranks(pc) && Ranks(pc)[t] == Rank(pc[t]) && Ranks(pc[t := p]) == Ranks(pc)[t := Rank(p)]
  {
  }

  lemma RankFalls(total: nat, sh: Shared, t: Tid, pc: Pc, sh': Shared, pc': Pc)
    requires Step(total, sh, t, pc, sh', pc') && !(pc.Body? && pc'.Check? && !pc'.end)
    ensures Rank(pc') - 20 * sh'.handed < Rank(pc) - 20 * sh.handed
  {
  }

  // ---------------------------------------------------------------- each chunk once

  lemma FirstMoves(total: nat, s: State, t: Tid, s': State)
    requires Inv(s) && t in s.pc && StepOf(total, s, t, s')
    ensures s'.sh.first == s.sh.first || (s'.sh.first == s.sh.first + 1 && s.pc[t].Passing? && s.pc[t].k == s.sh.first)
  {
    assert ThreadOk(s.sh, t, s.pc[t]);
    if s.pc[t].Passing? { HeadHasFirst(s.sh, t, s.pc[t]); }
  }

  lemma FirstStep(total: nat, run: seq<State>, i: nat) returns (t: Tid)
    requires IsTeamRun(total, run) && i + 1 < |run|
    ensures t in run[i].pc && (run[i + 1].sh.first == run[i].sh.first ||
              (run[i + 1].sh.first == run[i].sh.first + 1 && run[i].pc[t].Passing? && run[i].pc[t].k == run[i].sh.first))
  {
    InvAlong(total, run, i);
    assert Next(total, run[i], run[i + 1]);
    t :| t in run[i].pc && StepOf(total, run[i], t, run[i + 1]);
    hide Inv, Step;
    FirstMoves(total, run[i], t, run[i + 1]);
  }

  /** The thread that has chunk c passes on at step i. */
  ghost predicate DoneAt(run: seq<State>, c: nat, i: nat) {
    i + 1 < |run| && run[i].sh.first == c && run[i + 1].sh.first == c + 1
    && exists t :: t in run[i].pc && run[i].pc[t].Passing? && run[i].pc[t].k == c
  }

  lemma {:induction false} FirstGrows(total: nat, run: seq<State>, i: nat, j: nat)
    requires IsTeamRun(total, run) && i <= j < |run|
    ensures run[i].sh.first <= run[j].sh.first
  {
    if i < j {
      FirstGrows(total, run, i, j - 1);
      var t := FirstStep(total, run, j - 1);
    }
  }

  lemma {:induction false} DoneBefore(total: nat, run: seq<State>, c: nat, k: nat) returns (i: nat)
    requires IsTeamRun(total, run) && k < |run| && c < run[k].sh.first
    ensures i < k && DoneAt(run, c, i)
  {
    var t := FirstStep(total, run, k - 1);
    if run[k - 1].sh.first <= c {
      i := k - 1;
    } else {
      i := DoneBefore(total, run, c, k - 1);
    }
  }

  /** When all threads are finished, each chunk has been worked off and passed on exactly once. */
  lemma EachChunkOnce(total: nat, run: seq<State>, k: nat, c: nat) returns (i: nat)
    requires IsTeamRun(total, run) && k < |run| && (forall t | t in run[k].pc :: run[k].pc[t] == Finished) && c < total
    ensures DoneAt(run, c, i) && forall j: nat :: DoneAt(run, c, j) ==> j == i
  {
    NoChunkIsLost(total, run, k);
    i := DoneBefore(total, run, c, k);
    forall j: nat | DoneAt(run, c, j) ensures j == i {
      if i < j { FirstGrows(total, run, i + 1, j); }
      if j < i { FirstGrows(total, run, j + 1, i); }
    }
  }
}
