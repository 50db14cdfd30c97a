/** The dependence relation between sibling tasks (task.c:171-283, 1021-1047 and 1057-1072),
    on values: what the depend chains and the counters of the runtime mean.

  Tasks are numbered in creation order.  Of the unfinished tasks that name an address the
  runtime only gives a new task edges from the readers and from the latest writer; earlier
  writers are hidden (redundant_out) and must be reached through the latest one.
  `DependHash` proves that the linked chains implement this.
 */
module TaskGraph {
  import opened Options

  type Task = nat
  type Addr = nat

  /** The unfinished tasks naming one address. */
  datatype Uses = Uses(readers: set<Task>, writer: Option<Task>, hidden: set<Task>) {
    function Tasks(): set<Task> {
      readers + hidden + if writer.Some? then {writer.value} else {}
    }

    function Remove(t: Task): Uses {
      Uses(readers - {t}, if writer == Some(t) then None else writer, hidden - {t})
    }

    /** The tasks that a new task waits for because it names this address. */
    function DirectPreds(isIn: bool): set<Task> {
      (if isIn then {} else readers) + if writer.Some? then {writer.value} else {}
    }

    function Add(t: Task, isIn: bool): Uses {
      if isIn then this.(readers := readers + {t})
      else Uses(readers, Some(t), hidden + if writer.Some? then {writer.value} else {})
    }
  }

  const NoUses := Uses({}, None, {})

  /** For each address that a task names, whether all its uses are "in". */
  type Names = map<Addr, bool>

  /** Unfinished tasks: what they name, and which unfinished tasks they wait for. */
  datatype Graph = Graph(uses: map<Addr, Uses>, names: map<Task, Names>, preds: map<Task, set<Task>>) {
    function At(a: Addr): Uses {
      if a in uses then uses[a] else NoUses
    }
  }

  const EmptyGraph := Graph(map[], map[], map[])

  function PredsFor(g: Graph, names: Names): set<Task> {
    set a, p | a in names && p in g.At(a).DirectPreds(names[a]) :: p
  }

  function Create(g: Graph, t: Task, names: Names): Graph {
    Graph(
      map a | a in g.uses.Keys + names.Keys :: if a in names then g.At(a).Add(t, names[a]) else g.uses[a],
      g.names[t := names],
      g.preds[t := PredsFor(g, names)])
  }

  function Finish(g: Graph, t: Task): Graph {
    Graph(
      map a | a in g.uses :: g.uses[a].Remove(t),
      map x | x in g.names && x != t :: g.names[x],
      map x | x in g.preds && x != t :: g.preds[x] - {t})
  }

  /** e must finish before l may start: a path of edges leads from e to l. */
  ghost predicate Ancestor(preds: map<Task, set<Task>>, e: Task, l: Task)
    decreases l
  {
    l in preds && (e in preds[l] || exists m :: m in preds[l] && m < l && Ancestor(preds, e, m))
  }

  ghost predicate Writes(g: Graph, t: Task, a: Addr) {
    t in g.names && a in g.names[t] && !g.names[t][a]
  }

  ghost predicate Reads(g: Graph, t: Task, a: Addr) {
    t in g.names && a in g.names[t] && g.names[t][a]
  }

  /** Both name an address and at least one of them writes it. */
  ghost predicate Conflict(g: Graph, e: Task, l: Task) {
    exists a: Addr :: ConflictAt(g, e, l, a)
  }

  ghost predicate ConflictAt(g: Graph, e: Task, l: Task, a: Addr) {
    (Writes(g, e, a) && (Writes(g, l, a) || Reads(g, l, a))) || (Reads(g, e, a) && Writes(g, l, a))
  }

  ghost predicate UsesOk(g: Graph, a: Addr) {
    var u := g.At(a);
    && (forall t: Task :: t in u.readers <==> Reads(g, t, a))
    && (forall t: Task :: Writes(g, t, a) <==> u.writer == Some(t) || t in u.hidden)
    // hidden writers hide behind a later one
    && (forall t | t in u.hidden :: u.writer.Some? && t < u.writer.value)
  }

  /** Edges lead from earlier unfinished tasks. */
  ghost predicate EdgesOk(preds: map<Task, set<Task>>, l: Task)
    requires l in preds
  {
    forall e: Task :: e in preds[l] ==> e < l && e in preds
  }

  ghost predicate Inv(g: Graph) {
    && g.names.Keys == g.preds.Keys
    && (forall l: Task | l in g.preds :: EdgesOk(g.preds, l))
    && (forall a: Addr :: UsesOk(g, a))
    && (forall e: Task, l: Task :: e < l && Conflict(g, e, l) ==> Ancestor(g.preds, e, l))
  }

  ghost predicate IsNew(g: Graph, t: Task) {
    forall x | x in g.names :: x < t
  }

  /** A task starts, and so finishes, only when it waits for nobody. */
  ghost predicate MayFinish(g: Graph, t: Task) {
    t in g.preds && g.preds[t] == {}
  }

  lemma {:induction false} AncestorGrows(preds: map<Task, set<Task>>, preds': map<Task, set<Task>>, e: Task, l: Task)
    requires Ancestor(preds, e, l)
    requires forall x | x in preds :: x in preds' && preds[x] <= preds'[x]
    ensures Ancestor(preds', e, l)
    decreases l
  {
    if e !in preds[l] {
      var m :| m in preds[l] && m < l && Ancestor(preds, e, m);
      AncestorGrows(preds, preds', e, m);
    }
  }

  /** Finishing a task that waits for nobody breaks no path between two other tasks. */
  lemma {:induction false} AncestorSurvives(g: Graph, t: Task, e: Task, l: Task)
    requires MayFinish(g, t) && e != t && l != t && Ancestor(g.preds, e, l)
    ensures Ancestor(Finish(g, t).preds, e, l)
    decreases l
  {
    if e !in g.preds[l] {
      var m :| m in g.preds[l] && m < l && Ancestor(g.preds, e, m);
      assert m != t;
      AncestorSurvives(g, t, e, m);
    }
  }

  lemma CreateKeepsUses(g: Graph, t: Task, names: Names, a: Addr)
    requires Inv(g) && IsNew(g, t)
    ensures UsesOk(Create(g, t, names), a)
  {
    var g' := Create(g, t, names);
    assert UsesOk(g, a);
    assert forall x | x != t :: (Reads(g', x, a) <==> Reads(g, x, a)) && (Writes(g', x, a) <==> Writes(g, x, a));
    assert g'.At(a) == if a in names then g.At(a).Add(t, names[a]) else g.At(a);
  }

  /** A new task has a path from every earlier task that it conflicts with, although it only
      gets edges from the readers and the latest writer. */
  lemma NewTaskWaits(g: Graph, t: Task, names: Names, e: Task)
    requires Inv(g) && IsNew(g, t) && e != t && Conflict(Create(g, t, names), e, t)
    ensures Ancestor(Create(g, t, names).preds, e, t)
  {
    var g' := Create(g, t, names);
    var a: Addr :| ConflictAt(g', e, t, a);
    var u := g.At(a);
    assert UsesOk(g, a) && (Writes(g', e, a) ==> Writes(g, e, a)) && (Reads(g', e, a) ==> Reads(g, e, a));
    if e in u.hidden {
      var w := u.writer.value;
      assert Writes(g, w, a) && w in u.DirectPreds(names[a]);
      assert ConflictAt(g, e, w, a);
      AncestorGrows(g.preds, g'.preds, e, w);
      assert w in g'.preds[t];
    } else {
      assert e in u.DirectPreds(names[a]);
    }
  }

  lemma CreateKeepsInv(g: Graph, t: Task, names: Names)
    requires Inv(g) && IsNew(g, t)
    ensures Inv(Create(g, t, names))
  {
    var g' := Create(g, t, names);
    forall a: Addr ensures UsesOk(g', a) {
      CreateKeepsUses(g, t, names, a);
    }
    forall e: Task | e in g'.preds[t] ensures e < t && e in g'.preds {
      var a: Addr :| a in names && e in g.At(a).DirectPreds(names[a]);
      assert UsesOk(g, a);
      assert Reads(g, e, a) || Writes(g, e, a);
    }
    forall l: Task | l in g'.preds && l != t ensures EdgesOk(g'.preds, l) {
      assert EdgesOk(g.preds, l);
    }
    forall e: Task, l: Task | e < l && Conflict(g', e, l) ensures Ancestor(g'.preds, e, l) {
      CreateKeepsOrder(g, t, names, e, l);
    }
    hide Ancestor, Conflict, UsesOk, EdgesOk;
  }

  lemma CreateKeepsOrder(g: Graph, t: Task, names: Names, e: Task, l: Task)
    requires Inv(g) && IsNew(g, t) && e < l && Conflict(Create(g, t, names), e, l)
    ensures Ancestor(Create(g, t, names).preds, e, l)
  {
    if l == t {
      NewTaskWaits(g, t, names, e);
    } else {
      var g' := Create(g, t, names);
      var a: Addr :| ConflictAt(g', e, l, a);
      assert ConflictAt(g, e, l, a);
      AncestorGrows(g.preds, g'.preds, e, l);
    }
  }

  lemma FinishKeepsUses(g: Graph, t: Task, a: Addr)
    requires Inv(g) && MayFinish(g, t)
    ensures UsesOk(Finish(g, t), a)
  {
    var g' := Finish(g, t);
    var u := g.At(a);
    assert UsesOk(g, a);
    assert forall x | x != t :: (Reads(g', x, a) <==> Reads(g, x, a)) && (Writes(g', x, a) <==> Writes(g, x, a));
    assert g'.At(a) == u.Remove(t);
    if u.writer == Some(t) {
      // the latest writer waits for all hidden ones, so none is left when it finishes
      forall h: Task ensures h !in u.hidden {
        assert h in u.hidden ==> ConflictAt(g, h, t, a);
        assert !Ancestor(g.preds, h, t);
      }
    }
  }

  lemma FinishKeepsInv(g: Graph, t: Task)
    requires Inv(g) && MayFinish(g, t)
    ensures Inv(Finish(g, t))
  {
    var g' := Finish(g, t);
    forall a: Addr ensures UsesOk(g', a) {
      FinishKeepsUses(g, t, a);
    }
    forall e: Task, l: Task | e < l && Conflict(g', e, l) ensures Ancestor(g'.preds, e, l) {
      var a: Addr :| ConflictAt(g', e, l, a);
      assert ConflictAt(g, e, l, a);
      AncestorSurvives(g, t, e, l);
    }
  }

  datatype Event = Created(t: Task, names: Names) | Finished(t: Task)

  ghost predicate Allowed(g: Graph, ev: Event) {
    match ev
    case Created(t, _) => IsNew(g, t)
    case Finished(t) => MayFinish(g, t)
  }

  function Apply(g: Graph, ev: Event): Graph {
    match ev
    case Created(t, names) => Create(g, t, names)
    case Finished(t) => Finish(g, t)
  }

  /** The graph after a history of events, the latest first. */
  function After(history: seq<Event>): Graph {
    if history == [] then EmptyGraph else Apply(After(history[1..]), history[0])
  }

  /** Each event was allowed when it happened. */
  ghost predicate Legal(history: seq<Event>) {
    history != [] ==> Legal(history[1..]) && Allowed(After(history[1..]), history[0])
  }

  lemma {:induction false} InvHolds(history: seq<Event>)
    requires Legal(history)
    ensures Inv(After(history))
  {
    if history != [] {
      InvHolds(history[1..]);
      match history[0]
      case Created(t, names) => CreateKeepsInv(After(history[1..]), t, names);
      case Finished(t) => FinishKeepsInv(After(history[1..]), t);
    }
  }

  /** For any sequence of sibling tasks created and finished: while an earlier task is
      unfinished, every later task that names the same address, one of the two writing it,
      still waits for somebody, indeed for a chain of tasks that leads back to the earlier one. */
  lemma DependOrderIsComplete(history: seq<Event>, e: Task, l: Task)
    requires Legal(history) && e < l && Conflict(After(history), e, l)
    ensures var preds := After(history).preds; Ancestor(preds, e, l) && preds[l] != {}
  {
    InvHolds(history);
  }

  // ---------------------------------------------------------------- no more than that

  /** Nobody waits for a task that it does not conflict with. */
  ghost predicate OnlyConflicts(g: Graph) {
    forall e: Task, l: Task :: l in g.preds && e in g.preds[l] ==> e < l && Conflict(g, e, l)
  }

  /** A new task gets edges from tasks only that it conflicts with. */
  lemma NewEdgesConflict(g: Graph, t: Task, names: Names, e: Task)
    requires Inv(g) && IsNew(g, t) && e in Create(g, t, names).preds[t]
    ensures e < t && Conflict(Create(g, t, names), e, t)
  {
    var g' := Create(g, t, names);
    var a: Addr :| a in names && e in g.At(a).DirectPreds(names[a]);
    assert UsesOk(g, a);
    assert Reads(g, e, a) || Writes(g, e, a);
    assert ConflictAt(g', e, t, a);
  }

  lemma CreateKeepsOnly(g: Graph, t: Task, names: Names)
    requires Inv(g) && IsNew(g, t) && OnlyConflicts(g)
    ensures OnlyConflicts(Create(g, t, names))
  {
    var g' := Create(g, t, names);
    forall e: Task, l: Task | l in g'.preds && e in g'.preds[l] ensures e < l && Conflict(g', e, l) {
      if l == t {
        NewEdgesConflict(g, t, names, e);
      } else {
        var a: Addr :| ConflictAt(g, e, l, a);
        assert ConflictAt(g', e, l, a);
      }
    }
  }

  lemma FinishKeepsOnly(g: Graph, t: Task)
    requires MayFinish(g, t) && OnlyConflicts(g)
    ensures OnlyConflicts(Finish(g, t))
  {
    var g' := Finish(g, t);
    forall e: Task, l: Task | l in g'.preds && e in g'.preds[l] ensures e < l && Conflict(g', e, l) {
      var a: Addr :| ConflictAt(g, e, l, a);
      assert ConflictAt(g', e, l, a);
    }
  }

  /** Over all histories, every edge joins two tasks that conflict. */
  lemma {:induction false} EdgesJoinConflicts(history: seq<Event>)
    requires Legal(history)
    ensures OnlyConflicts(After(history))
  {
    if history != [] {
      EdgesJoinConflicts(history[1..]);
      InvHolds(history[1..]);
      match history[0]
      case Created(t, names) => CreateKeepsOnly(After(history[1..]), t, names);
      case Finished(t) => FinishKeepsOnly(After(history[1..]), t);
    }
  }

  /** A chain of conflicts leads from e to l, each task later than the one before. */
  ghost predicate ConflictPath(g: Graph, e: Task, l: Task)
    decreases l
  {
    (e < l && Conflict(g, e, l)) || exists m: Task :: m < l && Conflict(g, m, l) && ConflictPath(g, e, m)
  }

  /** An unfinished task is free to run exactly when it conflicts with no earlier unfinished one. */
  lemma ReadyIfNoConflict(history: seq<Event>, l: Task)
    requires Legal(history) && l in After(history).preds
    ensures MayFinish(After(history), l) <==> forall e: Task :: e < l ==> !Conflict(After(history), e, l)
  {
    var g := After(history);
    InvHolds(history);
    EdgesJoinConflicts(history);
    if e: Task :| e < l && Conflict(g, e, l) {
      assert Ancestor(g.preds, e, l);
    }
    hide Conflict;
    if g.preds[l] != {} {
      var e :| e in g.preds[l];
    }
  }

  /** And it waits for exactly the tasks that a chain of conflicts comes from. */
  lemma {:induction false} AncestorsAreConflictPaths(history: seq<Event>, e: Task, l: Task)
    requires Legal(history)
    ensures Ancestor(After(history).preds, e, l) <==> ConflictPath(After(history), e, l)
    decreases l
  {
    var g := After(history);
    InvHolds(history);
    EdgesJoinConflicts(history);
    hide Conflict;
    forall m: Task | m < l ensures Ancestor(g.preds, e, m) <==> ConflictPath(g, e, m) {
      AncestorsAreConflictPaths(history, e, m);
    }
    if m: Task :| m < l && Conflict(g, m, l) && ConflictPath(g, e, m) {
      AncestorJoins(g, e, m, l);
    }
  }

  lemma {:induction false} AncestorJoins(g: Graph, e: Task, m: Task, l: Task)
    requires OnlyConflicts(g) && Ancestor(g.preds, e, m) && Ancestor(g.preds, m, l) && m < l
    ensures Ancestor(g.preds, e, l)
    decreases l
  {
    if m !in g.preds[l] {
      var k :| k in g.preds[l] && k < l && Ancestor(g.preds, m, k);
      AncestorIsEarlier(g, m, k);
      AncestorJoins(g, e, m, k);
    }
  }

  lemma {:induction false} AncestorIsEarlier(g: Graph, e: Task, l: Task)
    requires OnlyConflicts(g) && Ancestor(g.preds, e, l)
    ensures e < l
    decreases l
  {
    if e !in g.preds[l] {
      var k :| k in g.preds[l] && k < l && Ancestor(g.preds, e, k);
      AncestorIsEarlier(g, e, k);
    }
  }

  lemma {:induction false} EarliestIsReady(g: Graph, x: Task)
    requires Inv(g) && x in g.preds
    ensures exists t :: MayFinish(g, t)
    decreases x
  {
    if g.preds[x] == {} {
      assert MayFinish(g, x);
    } else {
      assert EdgesOk(g.preds, x);
      var e: Task :| e in g.preds[x];
      EarliestIsReady(g, e);
    }
  }

  /** Edges go from earlier to later tasks only, so tasks never wait for each other in a circle:
      while any task is unfinished, one of them waits for nobody. */
  lemma SomebodyIsReady(history: seq<Event>)
    requires Legal(history) && After(history).preds != map[]
    ensures exists t :: MayFinish(After(history), t)
  {
    InvHolds(history);
    var x :| x in After(history).preds;
    EarliestIsReady(After(history), x);
  }
}
