/** The depend table of a parent task on values: the edges and chains that the clauses of a new task
    give, what is left when a task has run, and that both mean what `TaskGraph` says
    (task.c:171-283, 1021-1047 and 1057-1129).  `DependHash` performs this in place.
 */
module DependTable {
  import opened Collections
  import opened TaskGraph
  import opened DependChain

  /** A clause of a task; repeated addresses of the same task are marked redundant. */
  datatype Clause = Clause(addr: Addr, isIn: bool, redundant: bool)

  /** The non-redundant clauses name every address of the task once. */
  ghost predicate ClausesOk(cs: seq<Clause>, nm: Names) {
    && (forall i, j :: 0 <= i < j < |cs| && !cs[i].redundant && !cs[j].redundant ==> cs[i].addr != cs[j].addr)
    && (forall i | 0 <= i < |cs| && !cs[i].redundant :: cs[i].addr in nm && nm[cs[i].addr] == cs[i].isIn)
    && (forall a: Addr :: a in nm ==> exists i :: 0 <= i < |cs| && !cs[i].redundant && cs[i].addr == a)
  }

  predicate EndsIn(v: seq<Task>, t: Task) {
    v != [] && v[|v| - 1] == t
  }

  /** The edges after t was appended to the dependers of exactly the tasks in P. */
  ghost predicate EdgesAdded(d0: map<Task, seq<Task>>, x: Edges, t: Task, P: set<Task>) {
    VectorsOk(d0, x.d, t, P) && x.num == |P|
  }

  /** Out and inout clauses come first; an address used in both ways counts as written. */
  function NamesOf(addrs: seq<Addr>, nout: nat, n: nat): Names
    requires nout <= |addrs| && n <= |addrs|
  {
    map a | a in addrs[..n] :: a !in addrs[..nout]
  }

  /** A clause of e and one of l name the same address, and not both are in clauses. */
  ghost predicate ClausesClash(addrs: seq<Addr>, nout: nat, addrs': seq<Addr>, nout': nat) {
    exists i, j :: 0 <= i < |addrs| && 0 <= j < |addrs'| && addrs[i] == addrs'[j] && (i < nout || j < nout')
  }

  /** Two tasks conflict exactly when two of their clauses do. */
  lemma ConflictIsInClauses(g: Graph, e: Task, l: Task, addrs: seq<Addr>, nout: nat, addrs': seq<Addr>, nout': nat)
    requires nout <= |addrs| && nout' <= |addrs'|
    requires e in g.names && g.names[e] == NamesOf(addrs, nout, |addrs|)
    requires l in g.names && g.names[l] == NamesOf(addrs', nout', |addrs'|)
    ensures Conflict(g, e, l) <==> ClausesClash(addrs, nout, addrs', nout')
  {
    if a: Addr :| ConflictAt(g, e, l, a) {
      var i := ClauseOf(addrs, nout, a);
      var j := ClauseOf(addrs', nout', a);
    }
    if i, j :| 0 <= i < |addrs| && 0 <= j < |addrs'| && addrs[i] == addrs'[j] && (i < nout || j < nout') {
      var a := addrs[i];
      assert addrs[..|addrs|] == addrs && addrs'[..|addrs'|] == addrs';
      assert i < nout ==> addrs[..nout][i] == a;
      assert j < nout' ==> addrs'[..nout'][j] == a;
      assert ConflictAt(g, e, l, a);
    }
  }

  /** A clause that names the address, an out clause if the address counts as written. */
  lemma ClauseOf(addrs: seq<Addr>, nout: nat, a: Addr) returns (i: nat)
    requires nout <= |addrs| && a in NamesOf(addrs, nout, |addrs|)
    ensures i < |addrs| && addrs[i] == a && (!NamesOf(addrs, nout, |addrs|)[a] ==> i < nout)
  {
    if a in addrs[..nout] {
      i :| i < nout && addrs[..nout][i] == a;
    } else {
      i :| i < |addrs| && addrs[..|addrs|][i] == a;
    }
  }

  lemma OneMorePred(g: Graph, nm: Names, a: Addr, isIn: bool)
    requires a !in nm
    ensures PredsFor(g, nm[a := isIn]) == PredsFor(g, nm) + g.At(a).DirectPreds(isIn)
  {
    var nm' := nm[a := isIn];
    forall p: Task ensures p in PredsFor(g, nm') <==> p in PredsFor(g, nm) || p in g.At(a).DirectPreds(isIn) {
      if p in g.At(a).DirectPreds(isIn) {
        assert a in nm' && p in g.At(a).DirectPreds(nm'[a]);
      }
      if p in PredsFor(g, nm) {
        var b :| b in nm && p in g.At(b).DirectPreds(nm[b]);
        assert b in nm' && nm'[b] == nm[b];
      }
    }
  }

  /** The dependers vectors, and the number of edges of the new task. */
  datatype Edges = Edges(d: map<Task, seq<Task>>, num: nat)

  /** An edge from the task of one live entry to the new task t, unless both uses only read or
      an earlier clause of t already made one. */
  function AddEdge(x: Edges, e: Entry, isIn: bool, t: Task): Edges {
    if (isIn && e.isIn) || e.task !in x.d || EndsIn(x.d[e.task], t) then x
    else Edges(x.d[e.task := x.d[e.task] + [t]], x.num + 1)
  }

  function AddEdges(x: Edges, c: Chain, n: nat, isIn: bool, t: Task): Edges
    requires n <= |c|
  {
    if n == 0 then x else AddEdge(AddEdges(x, c, n - 1, isIn, t), c[n - 1], isIn, t)
  }

  /** A vector ends in the new task only if it was given an edge. */
  ghost predicate VectorOk(v: seq<Task>, v0: seq<Task>, hasEdge: bool, t: Task) {
    v == (if hasEdge then v0 + [t] else v0) && (hasEdge <==> EndsIn(v, t))
  }

  ghost predicate VectorsOk(d0: map<Task, seq<Task>>, d: map<Task, seq<Task>>, t: Task, P: set<Task>) {
    d.Keys == d0.Keys && P <= d0.Keys && forall p | p in d0 :: VectorOk(d[p], d0[p], p in P, t)
  }

  lemma AddVector(d0: map<Task, seq<Task>>, d: map<Task, seq<Task>>, t: Task, P: set<Task>, e: Task)
    requires VectorsOk(d0, d, t, P) && e in d0
    ensures if e in P then EndsIn(d[e], t) else VectorsOk(d0, d[e := d[e] + [t]], t, P + {e}) && !EndsIn(d[e], t)
  {
    var d', Q := d[e := d[e] + [t]], P + {e};
    assert VectorOk(d[e], d0[e], e in P, t);
    assert e !in P ==> VectorOk(d[e] + [t], d0[e], true, t);
    hide EndsIn, VectorOk;
    forall p | p in d0 && e !in P ensures VectorOk(d'[p], d0[p], p in Q, t) {
      assert VectorOk(d[p], d0[p], p in P, t);
    }
  }

  lemma AddEdgeAdds(d0: map<Task, seq<Task>>, x: Edges, e: Entry, isIn: bool, t: Task, P: set<Task>)
    requires EdgesAdded(d0, x, t, P) && e.task in d0
    ensures EdgesAdded(d0, AddEdge(x, e, isIn, t), t, if isIn && e.isIn then P else P + {e.task})
  {
    AddVector(d0, x.d, t, P, e.task);
    hide VectorsOk, EndsIn;
    if e.task in P {
      assert P + {e.task} == P;
    }
  }

  /** P and the tasks of the first n entries that a clause conflicts with. */
  ghost function Conflicting(P: set<Task>, c: Chain, n: nat, isIn: bool): set<Task>
    requires n <= |c|
  {
    if n == 0 then P
    else if isIn && c[n - 1].isIn then Conflicting(P, c, n - 1, isIn)
    else Conflicting(P, c, n - 1, isIn) + {c[n - 1].task}
  }

  lemma {:induction false} AddEdgesAdd(d0: map<Task, seq<Task>>, x: Edges, c: Chain, n: nat, isIn: bool, t: Task, P: set<Task>)
    requires EdgesAdded(d0, x, t, P) && n <= |c|
    requires forall i | 0 <= i < n :: c[i].task in d0
    ensures EdgesAdded(d0, AddEdges(x, c, n, isIn, t), t, Conflicting(P, c, n, isIn))
  {
    hide EdgesAdded, AddEdge;
    if n > 0 {
      AddEdgesAdd(d0, x, c, n - 1, isIn, t, P);
      AddEdgeAdds(d0, AddEdges(x, c, n - 1, isIn, t), c[n - 1], isIn, t, Conflicting(P, c, n - 1, isIn));
    }
  }

  lemma {:induction false} ConflictingMeaning(P: set<Task>, c: Chain, n: nat, isIn: bool)
    requires ChainOk(c) && n <= |c| && forall i | 0 <= i < n :: !c[i].redundantOut
    ensures Conflicting(P, c, n, isIn) == P + Meaning(c[..n]).DirectPreds(isIn)
  {
    if n > 0 {
      ConflictingMeaning(P, c, n - 1, isIn);
      assert c[..n] == c[..n - 1] + [c[n - 1]];
      MeaningOfConcat(c[..n - 1], [c[n - 1]]);
      MeaningOfOne(c[n - 1]);
      MeaningWriter(c[..n - 1]);
    }
  }

  lemma LiveEntriesSuffice(c: Chain, n: nat, k: int, isIn: bool)
    requires ChainOk(c) && Located(c, n, k)
    ensures Meaning(c).DirectPreds(isIn) == Meaning(c[..n]).DirectPreds(isIn)
  {
    assert c == c[..n] + c[n..];
    MeaningOfConcat(c[..n], c[n..]);
    assert forall i | 0 <= i < |c[n..]| :: c[n..][i] == c[n + i];
    RedundantMeaning(c[n..]);
  }

  /** The live entries give an edge from exactly the direct predecessors. */
  lemma WalkAdds(d0: map<Task, seq<Task>>, x: Edges, c: Chain, n: nat, k: int, isIn: bool, t: Task, P: set<Task>)
    requires EdgesAdded(d0, x, t, P) && ChainOk(c) && Located(c, n, k)
    requires forall i | 0 <= i < |c| :: c[i].task in d0
    ensures EdgesAdded(d0, AddEdges(x, c, n, isIn, t), t, P + Meaning(c).DirectPreds(isIn))
  {
    AddEdgesAdd(d0, x, c, n, isIn, t, P);
    assert Conflicting(P, c, n, isIn) == P + Meaning(c).DirectPreds(isIn) by {
      ConflictingMeaning(P, c, n, isIn);
      LiveEntriesSuffice(c, n, k, isIn);
    }
  }

  function ChainAt(chains: map<Addr, Chain>, a: Addr): Chain {
    if a in chains then chains[a] else []
  }

  ghost function GraphOf(chains: map<Addr, Chain>, names: map<Task, Names>, preds: map<Task, set<Task>>): Graph {
    Graph(map a | a in chains :: Meaning(chains[a]), names, preds)
  }

  lemma TasksAreUnfinished(chains: map<Addr, Chain>, names: map<Task, Names>, preds: map<Task, set<Task>>, a: Addr, i: nat)
    requires Inv(GraphOf(chains, names, preds)) && a in chains && ChainOk(chains[a]) && i < |chains[a]|
    ensures chains[a][i].task in names && a in names[chains[a][i].task]
  {
    var g := GraphOf(chains, names, preds);
    assert UsesOk(g, a);
    MeaningTasks(chains[a]);
    assert chains[a][i].task in TasksOf(chains[a]);
    assert g.At(a) == Meaning(chains[a]);
    assert Reads(g, chains[a][i].task, a) || Writes(g, chains[a][i].task, a);
  }

  /** What has been built for a new task t once its clauses for the addresses nm are handled. */
  datatype Build = Build(chains: map<Addr, Chain>, edges: Edges, clauses: seq<Clause>)

  ghost predicate Built(g: Graph, c0: map<Addr, Chain>, d0: map<Task, seq<Task>>, b: Build, t: Task, nm: Names) {
    && b.chains.Keys == c0.Keys + nm.Keys
    && (forall a | a in b.chains :: ChainBuilt(g, c0, b.chains[a], t, a, nm))
    && EdgesAdded(d0, b.edges, t, PredsFor(g, nm))
    && ClausesOk(b.clauses, nm)
  }

  ghost predicate ChainBuilt(g: Graph, c0: map<Addr, Chain>, c: Chain, t: Task, a: Addr, nm: Names) {
    if a in nm then
      ChainOk(c) && c != [] && c[0].task == t && Meaning(c) == g.At(a).Add(t, nm[a])
    else
      a in c0 && c == c0[a]
  }

  lemma HeadBuilt(g: Graph, c0: map<Addr, Chain>, c: Chain, t: Task, a: Addr, nm: Names, n: nat, k: int)
    requires a in nm && g.At(a) == Meaning(c) && ChainOk(c) && Located(c, n, k) && t !in TasksOf(c)
    ensures ChainBuilt(g, c0, NewChain(c, Entry(t, nm[a], false), n, k), t, a, nm)
  {
    NewChainOk(c, Entry(t, nm[a], false), n, k);
    NewChainMeaning(c, Entry(t, nm[a], false), n, k);
  }

  lemma ClauseBuilt(g: Graph, c0: map<Addr, Chain>, d0: map<Task, seq<Task>>, b: Build, t: Task, nm: Names,
                    a: Addr, isIn: bool, n: nat, k: int)
    requires Built(g, c0, d0, b, t, nm) && a !in nm
    requires var c := ChainAt(c0, a);
      && g.At(a) == Meaning(c) && ChainOk(c) && Located(c, n, k) && t !in TasksOf(c)
      && forall i | 0 <= i < |c| :: c[i].task in d0
    ensures var c := ChainAt(c0, a);
      Built(g, c0, d0,
            Build(b.chains[a := NewChain(c, Entry(t, isIn, false), n, k)], AddEdges(b.edges, c, n, isIn, t),
                  b.clauses + [Clause(a, isIn, false)]),
            t, nm[a := isIn])
  {
    var c, e, nm' := ChainAt(c0, a), Entry(t, isIn, false), nm[a := isIn];
    var ch, x, cs := b.chains[a := NewChain(c, e, n, k)], AddEdges(b.edges, c, n, isIn, t), b.clauses + [Clause(a, isIn, false)];
    hide EdgesAdded, ClausesOk, ChainBuilt, Meaning, ChainOk, Located, TasksOf, NewChain, PredsFor;
    HeadBuilt(g, c0, c, t, a, nm', n, k);
    OtherChains(g, c0, b, t, nm, a, isIn);
    assert EdgesAdded(d0, x, t, PredsFor(g, nm')) by {
      OneMorePred(g, nm, a, isIn);
      WalkAdds(d0, b.edges, c, n, k, isIn, t, PredsFor(g, nm));
    }
    OneMoreClause(b.clauses, nm, a, isIn);
    assert ch.Keys == c0.Keys + nm'.Keys;
    assert Built(g, c0, d0, Build(ch, x, cs), t, nm');
  }

  lemma OtherChains(g: Graph, c0: map<Addr, Chain>, b: Build, t: Task, nm: Names, a: Addr, isIn: bool)
    requires a !in nm && forall a' | a' in b.chains :: ChainBuilt(g, c0, b.chains[a'], t, a', nm)
    ensures forall a' | a' in b.chains && a' != a :: ChainBuilt(g, c0, b.chains[a'], t, a', nm[a := isIn])
  {
    hide ChainOk, Meaning;
  }

  lemma OneMoreClause(cs: seq<Clause>, nm: Names, a: Addr, isIn: bool)
    requires ClausesOk(cs, nm) && a !in nm
    ensures ClausesOk(cs + [Clause(a, isIn, false)], nm[a := isIn])
  {
    var cs', nm' := cs + [Clause(a, isIn, false)], nm[a := isIn];
    forall x: Addr | x in nm' ensures exists i :: 0 <= i < |cs'| && !cs'[i].redundant && cs'[i].addr == x {
      if x == a {
        assert cs'[|cs|].addr == x;
      } else {
        var i :| 0 <= i < |cs| && !cs[i].redundant && cs[i].addr == x;
        assert cs'[i] == cs[i];
      }
    }
  }

  lemma RedundantClause(cs: seq<Clause>, nm: Names, a: Addr, isIn: bool)
    requires ClausesOk(cs, nm)
    ensures ClausesOk(cs + [Clause(a, isIn, true)], nm)
  {
    var cs' := cs + [Clause(a, isIn, true)];
    forall x: Addr | x in nm ensures exists i :: 0 <= i < |cs'| && !cs'[i].redundant && cs'[i].addr == x {
      var i :| 0 <= i < |cs| && !cs[i].redundant && cs[i].addr == x;
      assert cs'[i] == cs[i];
    }
  }

  lemma RedundantBuilt(g: Graph, c0: map<Addr, Chain>, d0: map<Task, seq<Task>>, b: Build, t: Task, nm: Names, a: Addr, isIn: bool)
    requires Built(g, c0, d0, b, t, nm)
    ensures Built(g, c0, d0, b.(clauses := b.clauses + [Clause(a, isIn, true)]), t, nm)
  {
    hide ClausesOk, ChainBuilt, EdgesAdded;
    RedundantClause(b.clauses, nm, a, isIn);
  }

  ghost predicate ChainsOk(chains: map<Addr, Chain>) {
    forall a | a in chains :: ChainOk(chains[a])
  }

  /** The dependers vectors and the counters represent the edges. */
  ghost predicate EdgesMatch(d: map<Task, seq<Task>>, num: map<Task, int>, preds: map<Task, set<Task>>) {
    && d.Keys == num.Keys == preds.Keys
    && (forall p | p in d :: Dependers(d[p], p, preds))
    && (forall x | x in preds :: num[x] == |preds[x]|)
  }

  /** v lists the tasks that wait for p. */
  ghost predicate Dependers(v: seq<Task>, p: Task, preds: map<Task, set<Task>>) {
    NoDup(v) && forall x: Task :: x in v <==> x in preds && p in preds[x]
  }

  ghost predicate ClausesMatch(depend: map<Task, seq<Clause>>, names: map<Task, Names>) {
    depend.Keys == names.Keys && forall t | t in depend :: ClausesOk(depend[t], names[t])
  }

  /** Chains, dependers vectors, counts and clauses represent the graph. */
  ghost predicate Represents(g: Graph, chains: map<Addr, Chain>, d: map<Task, seq<Task>>, num: map<Task, int>, depend: map<Task, seq<Clause>>) {
    && Inv(g) && g == GraphOf(chains, g.names, g.preds) && ChainsOk(chains)
    && EdgesMatch(d, num, g.preds) && ClausesMatch(depend, g.names)
  }

  lemma EmptyMeaning(g: Graph, chains: map<Addr, Chain>, a: Addr)
    requires g == GraphOf(chains, g.names, g.preds)
    ensures g.At(a) == Meaning(ChainAt(chains, a)) && ChainOk([])
  {
  }

  /** The head of a chain tells whether the new task already named the address. */
  lemma HeadTells(chains: map<Addr, Chain>, names: map<Task, Names>, preds: map<Task, set<Task>>,
                  d0: map<Task, seq<Task>>, b: Build, t: Task, nm: Names, a: Addr)
    requires var g := GraphOf(chains, names, preds); Inv(g) && IsNew(g, t) && Built(g, chains, d0, b, t, nm)
    requires d0.Keys == preds.Keys && ChainsOk(chains)
    ensures var c := ChainAt(b.chains, a); a in nm <==> c != [] && c[0].task == t
    ensures a !in nm ==>
      var c := ChainAt(b.chains, a);
      && c == ChainAt(chains, a) && ChainOk(c) && GraphOf(chains, names, preds).At(a) == Meaning(c)
      && t !in TasksOf(c) && forall i | 0 <= i < |c| :: c[i].task in d0
  {
    var g, c := GraphOf(chains, names, preds), ChainAt(chains, a);
    hide EdgesAdded, ClausesOk, Meaning, UsesOk, EdgesOk, Ancestor;
    if a in nm {
      assert ChainBuilt(g, chains, b.chains[a], t, a, nm);
    } else {
      assert a in b.chains ==> ChainBuilt(g, chains, b.chains[a], t, a, nm);
      hide ChainBuilt, Built, ChainOk;
      forall i: nat | i < |c| ensures c[i].task in names {
        hide Inv;
        TasksAreUnfinished(chains, names, preds, a, i);
      }
      EmptyMeaning(g, chains, a);
    }
  }

  /** The clause that the loop is at agrees with what NamesOf says for a new address. */
  lemma NamesStep(addrs: seq<Addr>, nout: nat, i: nat)
    requires nout <= |addrs| && i < |addrs|
    ensures var nm := NamesOf(addrs, nout, i);
      NamesOf(addrs, nout, i + 1) == if addrs[i] in nm then nm else nm[addrs[i] := i >= nout]
  {
    assert addrs[..i + 1] == addrs[..i] + [addrs[i]];
    if i < nout {
      assert addrs[..nout][i] == addrs[i];
    } else if addrs[i] in addrs[..nout] {
      var j :| 0 <= j < nout && addrs[..nout][j] == addrs[i];
      assert addrs[..i][j] == addrs[i];
    }
  }

  lemma NothingBuilt(g: Graph, chains: map<Addr, Chain>, d: map<Task, seq<Task>>, num: map<Task, int>, t: Task)
    requires EdgesMatch(d, num, g.preds) && t !in g.preds
    ensures Built(g, chains, d, Build(chains, Edges(d, 0), []), t, map[])
  {
    assert PredsFor(g, map[]) == {};
    assert forall p | p in d :: EndsIn(d[p], t) ==> t in d[p];
  }

  lemma NoEdgesYet(d0: map<Task, seq<Task>>, num: map<Task, int>, preds: map<Task, set<Task>>, t: Task, p: Task)
    requires EdgesMatch(d0, num, preds) && t !in preds && p in d0
    ensures t !in d0[p] && NoDup(d0[p]) && NoDup(d0[p] + [t])
  {
  }

  lemma VectorComplete(d0: map<Task, seq<Task>>, num: map<Task, int>, preds: map<Task, set<Task>>, x: Edges, t: Task, P: set<Task>, p: Task)
    requires EdgesMatch(d0, num, preds) && EdgesAdded(d0, x, t, P) && t !in preds && p in d0
    ensures Dependers(x.d[p], p, preds[t := P])
  {
    NoEdgesYet(d0, num, preds, t, p);
    assert Dependers(d0[p], p, preds) && VectorOk(x.d[p], d0[p], p in P, t);
  }

  lemma EdgesComplete(d0: map<Task, seq<Task>>, num: map<Task, int>, preds: map<Task, set<Task>>, x: Edges, t: Task, P: set<Task>)
    requires EdgesMatch(d0, num, preds) && EdgesAdded(d0, x, t, P) && t !in preds
    requires forall z | z in preds :: preds[z] <= preds.Keys
    ensures EdgesMatch(x.d[t := []], num[t := x.num], preds[t := P])
  {
    var d, num', preds' := x.d[t := []], num[t := x.num], preds[t := P];
    hide Dependers, VectorOk;
    forall p | p in d ensures Dependers(d[p], p, preds') {
      if p == t {
        NoDependersYet(preds, t, P);
      } else {
        VectorComplete(d0, num, preds, x, t, P, p);
      }
    }
    assert d.Keys == num'.Keys == preds'.Keys;
  }

  lemma NoDependersYet(preds: map<Task, set<Task>>, t: Task, P: set<Task>)
    requires t !in preds && t !in P && forall z | z in preds :: preds[z] <= preds.Keys
    ensures Dependers([], t, preds[t := P])
  {
  }

  lemma ChainsComplete(g: Graph, c0: map<Addr, Chain>, d0: map<Task, seq<Task>>, b: Build, t: Task, nm: Names)
    requires Built(g, c0, d0, b, t, nm) && ChainsOk(c0) && g == GraphOf(c0, g.names, g.preds)
    ensures ChainsOk(b.chains)
    ensures b.chains.Keys == c0.Keys + nm.Keys
    ensures forall a | a in b.chains :: Meaning(b.chains[a]) == if a in nm then g.At(a).Add(t, nm[a]) else g.uses[a]
  {
    forall a | a in b.chains
      ensures ChainOk(b.chains[a])
      ensures Meaning(b.chains[a]) == if a in nm then g.At(a).Add(t, nm[a]) else g.uses[a]
    {
      ChainComplete(g, c0, b.chains[a], t, a, nm);
    }
  }

  lemma GraphComplete(g: Graph, c0: map<Addr, Chain>, chains: map<Addr, Chain>, t: Task, nm: Names)
    requires g == GraphOf(c0, g.names, g.preds) && chains.Keys == c0.Keys + nm.Keys
    requires forall a | a in chains :: Meaning(chains[a]) == if a in nm then g.At(a).Add(t, nm[a]) else g.uses[a]
    ensures GraphOf(chains, g.names[t := nm], g.preds[t := PredsFor(g, nm)]) == Create(g, t, nm)
  {
    var h, g' := GraphOf(chains, g.names[t := nm], g.preds[t := PredsFor(g, nm)]), Create(g, t, nm);
    assert h.uses.Keys == g'.uses.Keys;
    assert h.uses == g'.uses;
  }

  lemma PredsInside(g: Graph)
    requires Inv(g)
    ensures forall z | z in g.preds :: g.preds[z] <= g.preds.Keys
  {
    forall z | z in g.preds ensures g.preds[z] <= g.preds.Keys {
      assert EdgesOk(g.preds, z);
    }
  }

  /** What was built, together with the old state, represents the graph with the new task. */
  lemma BuildComplete(g: Graph, c0: map<Addr, Chain>, d0: map<Task, seq<Task>>, b: Build, t: Task, nm: Names)
    requires g == GraphOf(c0, g.names, g.preds) && ChainsOk(c0) && Built(g, c0, d0, b, t, nm)
    ensures ChainsOk(b.chains)
    ensures GraphOf(b.chains, g.names[t := nm], g.preds[t := PredsFor(g, nm)]) == Create(g, t, nm)
  {
    ChainsComplete(g, c0, d0, b, t, nm);
    GraphComplete(g, c0, b.chains, t, nm);
  }

  lemma BuildMatches(g: Graph, c0: map<Addr, Chain>, d0: map<Task, seq<Task>>, num: map<Task, int>, b: Build, t: Task, nm: Names)
    requires Inv(g) && t !in g.preds && EdgesMatch(d0, num, g.preds) && Built(g, c0, d0, b, t, nm)
    ensures EdgesMatch(b.edges.d[t := []], num[t := b.edges.num], g.preds[t := PredsFor(g, nm)])
  {
    PredsInside(g);
    EdgesComplete(d0, num, g.preds, b.edges, t, PredsFor(g, nm));
  }

  lemma ClauseListComplete(depend: map<Task, seq<Clause>>, names: map<Task, Names>, t: Task, cs: seq<Clause>, nm: Names)
    requires ClausesMatch(depend, names) && ClausesOk(cs, nm)
    ensures ClausesMatch(depend[t := cs], names[t := nm])
  {
    hide ClausesOk;
  }

  lemma BuildDone(g: Graph, c0: map<Addr, Chain>, d0: map<Task, seq<Task>>, num: map<Task, int>, depend: map<Task, seq<Clause>>,
                  b: Build, t: Task, nm: Names)
    requires Represents(g, c0, d0, num, depend) && IsNew(g, t) && t !in g.preds
    requires Built(g, c0, d0, b, t, nm) && ClausesOk(b.clauses, nm)
    ensures Represents(Create(g, t, nm), b.chains, b.edges.d[t := []], num[t := b.edges.num], depend[t := b.clauses])
  {
    hide *;
    assert g == GraphOf(c0, g.names, g.preds) && Inv(g) && ChainsOk(c0) && EdgesMatch(d0, num, g.preds) && ClausesMatch(depend, g.names) by {
      RepresentsAll(g, c0, d0, num, depend);
    }
    BuildComplete(g, c0, d0, b, t, nm);
    BuildMatches(g, c0, d0, num, b, t, nm);
    ClauseListComplete(depend, g.names, t, b.clauses, nm);
    CreateKeepsInv(g, t, nm);
    CreateRepresents(g, b.chains, b.edges.d[t := []], num[t := b.edges.num], depend[t := b.clauses], t, nm);
  }

  lemma RepresentsAll(g: Graph, chains: map<Addr, Chain>, d: map<Task, seq<Task>>, num: map<Task, int>, depend: map<Task, seq<Clause>>)
    requires Represents(g, chains, d, num, depend)
    ensures Inv(g) && g == GraphOf(chains, g.names, g.preds) && ChainsOk(chains)
    ensures EdgesMatch(d, num, g.preds) && ClausesMatch(depend, g.names)
  {
  }

  lemma IsGraphOf(g: Graph, chains: map<Addr, Chain>, d: map<Task, seq<Task>>, num: map<Task, int>, depend: map<Task, seq<Clause>>)
    requires Represents(g, chains, d, num, depend)
    ensures g == GraphOf(chains, g.names, g.preds)
  {
  }

  lemma CreateRepresents(g: Graph, chains: map<Addr, Chain>, d: map<Task, seq<Task>>, num: map<Task, int>, depend: map<Task, seq<Clause>>,
                         t: Task, nm: Names)
    requires GraphOf(chains, g.names[t := nm], g.preds[t := PredsFor(g, nm)]) == Create(g, t, nm) && Inv(Create(g, t, nm))
    requires ChainsOk(chains) && EdgesMatch(d, num, g.preds[t := PredsFor(g, nm)]) && ClausesMatch(depend, g.names[t := nm])
    ensures Represents(Create(g, t, nm), chains, d, num, depend)
  {
    hide Inv, ChainsOk, EdgesMatch, ClausesMatch;
  }

  lemma ChainComplete(g: Graph, c0: map<Addr, Chain>, c: Chain, t: Task, a: Addr, nm: Names)
    requires ChainBuilt(g, c0, c, t, a, nm) && ChainsOk(c0) && g == GraphOf(c0, g.names, g.preds)
    ensures ChainOk(c)
    ensures Meaning(c) == if a in nm then g.At(a).Add(t, nm[a]) else g.uses[a]
  {
  }

  lemma NewIsAbsent(g: Graph, t: Task)
    requires Inv(g) && IsNew(g, t)
    ensures t !in g.preds
  {
    hide UsesOk, EdgesOk, Conflict, Ancestor;
  }

  ghost predicate Unlinked(c: Chain, c': Chain, t: Task) {
    ChainOk(c') && Meaning(c') == Meaning(c).Remove(t)
  }

  /** One of the first i clauses named the address. */
  ghost predicate Named(cs: seq<Clause>, i: nat, a: Addr)
    requires i <= |cs|
  {
    exists k :: 0 <= k < i && !cs[k].redundant && cs[k].addr == a
  }

  ghost predicate UnlinkedSoFar(c0: map<Addr, Chain>, c: map<Addr, Chain>, cs: seq<Clause>, i: nat, t: Task)
    requires i <= |cs|
  {
    && c.Keys == c0.Keys
    && forall a | a in c0 :: if Named(cs, i, a) then Unlinked(c0[a], c[a], t) else c[a] == c0[a]
  }

  lemma TaskIsLinked(g: Graph, chains: map<Addr, Chain>, a: Addr, t: Task)
    requires Inv(g) && g == GraphOf(chains, g.names, g.preds) && ChainsOk(chains) && t in g.names
    ensures a in g.names[t] ==> a in chains
    ensures a in chains ==> (a in g.names[t] <==> t in TasksOf(chains[a]))
  {
    assert UsesOk(g, a);
    if a in chains { MeaningTasks(chains[a]); }
    hide ChainsOk, Meaning, TasksOf, EdgesOk, Conflict, Ancestor, UsesOk;
    assert Writes(g, t, a) || Reads(g, t, a) <==> t in g.At(a).Tasks() by { assert UsesOk(g, a); UsesAre(g, a, t); }
  }

  lemma UsesAre(g: Graph, a: Addr, t: Task)
    requires UsesOk(g, a)
    ensures Writes(g, t, a) || Reads(g, t, a) <==> t in g.At(a).Tasks()
  {
  }

  lemma StepUnlinks(c0: map<Addr, Chain>, c: map<Addr, Chain>, cs: seq<Clause>, i: nat, t: Task, nm: Names, j: nat)
    requires i < |cs| && UnlinkedSoFar(c0, c, cs, i, t) && ClausesOk(cs, nm) && ChainsOk(c0) && !cs[i].redundant
    requires var a := cs[i].addr; a in c0 && j < |c0[a]| && c0[a][j].task == t
    ensures var a := cs[i].addr; c[a] == c0[a] && UnlinkedSoFar(c0, c[a := c0[a][..j] + c0[a][j + 1..]], cs, i + 1, t)
  {
    var a := cs[i].addr;
    UnlinkOk(c0[a], j);
    UnlinkMeaning(c0[a], j);
    assert !Named(cs, i, a);
    hide ChainOk, Meaning, ClausesOk;
  }

  lemma NoneUnlinked(c0: map<Addr, Chain>, cs: seq<Clause>, t: Task)
    ensures UnlinkedSoFar(c0, c0, cs, 0, t)
  {
  }

  lemma RedundantUnlinks(c0: map<Addr, Chain>, c: map<Addr, Chain>, cs: seq<Clause>, i: nat, t: Task)
    requires i < |cs| && UnlinkedSoFar(c0, c, cs, i, t) && cs[i].redundant
    ensures UnlinkedSoFar(c0, c, cs, i + 1, t)
  {
    hide Unlinked;
  }

  /** The chain of the next clause has not changed. */
  lemma NotYetUnlinked(c0: map<Addr, Chain>, c: map<Addr, Chain>, cs: seq<Clause>, i: nat, t: Task, nm: Names)
    requires i < |cs| && UnlinkedSoFar(c0, c, cs, i, t) && ClausesOk(cs, nm) && !cs[i].redundant
    ensures c.Keys == c0.Keys && (cs[i].addr in c0 ==> c[cs[i].addr] == c0[cs[i].addr])
  {
    assert !Named(cs, i, cs[i].addr);
  }

  lemma NotNamed(g: Graph, chains: map<Addr, Chain>, a: Addr, t: Task)
    requires Inv(g) && g == GraphOf(chains, g.names, g.preds) && ChainsOk(chains) && t in g.names
    requires a in chains && a !in g.names[t]
    ensures Meaning(chains[a]).Remove(t) == Meaning(chains[a])
  {
    TaskIsLinked(g, chains, a, t);
    MeaningTasks(chains[a]);
  }

  lemma UnlinkDone(g: Graph, c0: map<Addr, Chain>, c: map<Addr, Chain>, cs: seq<Clause>, t: Task)
    requires Inv(g) && g == GraphOf(c0, g.names, g.preds) && ChainsOk(c0) && t in g.names && ClausesOk(cs, g.names[t])
    requires UnlinkedSoFar(c0, c, cs, |cs|, t)
    ensures ChainsOk(c)
    ensures var g' := Finish(g, t); g' == GraphOf(c, g'.names, g'.preds)
  {
    forall a | a in c ensures ChainOk(c[a]) && Meaning(c[a]) == Meaning(c0[a]).Remove(t) {
      assert Named(cs, |cs|, a) <==> a in g.names[t];
      if a !in g.names[t] {
        hide Inv, ChainOk, ClausesOk, Named;
        NotNamed(g, c0, a, t);
      }
    }
    hide Inv, ChainOk, ClausesOk, Named, UnlinkedSoFar;
    assert c.Keys == c0.Keys by { assert UnlinkedSoFar(c0, c, cs, |cs|, t); KeysKept(c0, c, cs, t); }
    var g' := Finish(g, t);
    assert g'.uses == GraphOf(c, g'.names, g'.preds).uses;
  }

  lemma KeysKept(c0: map<Addr, Chain>, c: map<Addr, Chain>, cs: seq<Clause>, t: Task)
    requires UnlinkedSoFar(c0, c, cs, |cs|, t)
    ensures c.Keys == c0.Keys
  {
  }

  /** Of the first i dependers, those that waited for nobody else. */
  function Freed(num: map<Task, int>, v: seq<Task>, i: nat): seq<Task>
    requires i <= |v| && forall x | x in v :: x in num
  {
    if i == 0 then []
    else if num[v[i - 1]] == 1 then Freed(num, v, i - 1) + [v[i - 1]]
    else Freed(num, v, i - 1)
  }

  lemma {:induction false} FreedAre(num: map<Task, int>, v: seq<Task>, i: nat)
    requires i <= |v| && (forall x | x in v :: x in num) && NoDup(v)
    ensures forall x: Task :: x in Freed(num, v, i) <==> x in v[..i] && num[x] == 1
    ensures NoDup(Freed(num, v, i))
  {
    if i > 0 {
      FreedAre(num, v, i - 1);
      assert v[..i] == v[..i - 1] + [v[i - 1]];
      assert v[i - 1] !in v[..i - 1];
    }
  }

  function Decremented(num: map<Task, int>, v: seq<Task>): map<Task, int> {
    map x | x in num :: if x in v then num[x] - 1 else num[x]
  }

  /** The loop of gomp_task_run_post_handle_dependers. */
  method Release(v: seq<Task>, num: map<Task, int>) returns (num': map<Task, int>, ready: seq<Task>)
    requires (forall x | x in v :: x in num) && NoDup(v)
    ensures num' == Decremented(num, v) && ready == Freed(num, v, |v|)
  {
    num', ready := num, [];
    var i := 0;
    while i < |v|
      invariant 0 <= i <= |v|
      invariant num' == Decremented(num, v[..i]) && ready == Freed(num, v, i)
    {
      var x := v[i];
      assert v[..i + 1] == v[..i] + [x] && x !in v[..i];
      num' := num'[x := num'[x] - 1];
      if num'[x] == 0 {
        ready := ready + [x];
      }
      i := i + 1;
    }
    assert v[..|v|] == v;
  }

  lemma DependersLeft(v: seq<Task>, g: Graph, t: Task, p: Task)
    requires Dependers(v, p, g.preds) && MayFinish(g, t) && p != t
    ensures Dependers(v, p, Finish(g, t).preds)
  {
    forall x: Task ensures x in v <==> x in Finish(g, t).preds && p in Finish(g, t).preds[x] {
      assert x in v <==> x in g.preds && p in g.preds[x];
    }
  }

  lemma CountsLeft(s: set<Task>, t: Task)
    ensures |s - {t}| == if t in s then |s| - 1 else |s|
  {
    assert t !in s ==> s - {t} == s;
  }

  lemma CountLeft(g: Graph, d: map<Task, seq<Task>>, num: map<Task, int>, t: Task, x: Task)
    requires EdgesMatch(d, num, g.preds) && MayFinish(g, t) && x in g.preds && x != t
    ensures t in d && x in num && Decremented(num, d[t])[x] == |Finish(g, t).preds[x]|
  {
    InVector(d, num, g.preds, t, x);
    hide Dependers;
    CountsLeft(g.preds[x], t);
  }

  lemma ReleaseDone(g: Graph, d: map<Task, seq<Task>>, num: map<Task, int>, t: Task)
    requires EdgesMatch(d, num, g.preds) && MayFinish(g, t)
    ensures t in d && EdgesMatch(d - {t}, Decremented(num, d[t]) - {t}, Finish(g, t).preds)
  {
    var d', num', preds' := d - {t}, Decremented(num, d[t]) - {t}, Finish(g, t).preds;
    hide Dependers, NoDup;
    forall p | p in d' ensures Dependers(d'[p], p, preds') {
      DependersLeft(d[p], g, t, p);
    }
    assert d'.Keys == num'.Keys == preds'.Keys;
    forall x | x in preds' ensures num'[x] == |preds'[x]| {
      CountLeft(g, d, num, t, x);
    }
  }

  lemma InVector(d: map<Task, seq<Task>>, num: map<Task, int>, preds: map<Task, set<Task>>, p: Task, x: Task)
    requires EdgesMatch(d, num, preds) && p in d
    ensures x in d[p] <==> x in preds && p in preds[x]
  {
    assert Dependers(d[p], p, preds);
  }

  lemma Singleton(s: set<Task>, t: Task)
    requires t in s
    ensures |s| == 1 <==> s == {t}
  {
    assert |s - {t}| == |s| - 1;
    assert s == (s - {t}) + {t};
  }

  /** The tasks that wait for t alone, each once. */
  ghost predicate AreReady(ready: seq<Task>, preds: map<Task, set<Task>>, t: Task) {
    NoDup(ready) && forall x: Task :: x in ready <==> x in preds && preds[x] == {t}
  }

  lemma ReadyAre(d: map<Task, seq<Task>>, num: map<Task, int>, preds: map<Task, set<Task>>, t: Task)
    requires EdgesMatch(d, num, preds) && t in preds
    ensures t in d && NoDup(d[t]) && forall x | x in d[t] :: x in num
    ensures AreReady(Freed(num, d[t], |d[t]|), preds, t)
  {
    assert Dependers(d[t], t, preds);
    FreedAre(num, d[t], |d[t]|);
    assert d[t][..|d[t]|] == d[t];
    forall x | x in preds && t in preds[x] ensures num[x] == 1 <==> preds[x] == {t} {
      Singleton(preds[x], t);
    }
  }

  lemma FinishedAway(g: Graph, depend: map<Task, seq<Clause>>, t: Task)
    requires ClausesMatch(depend, g.names) && MayFinish(g, t) && Inv(g)
    ensures t in depend && t in g.names && ClausesOk(depend[t], g.names[t])
    ensures ClausesMatch(depend - {t}, Finish(g, t).names)
  {
    hide ClausesOk, UsesOk, EdgesOk, Conflict, Ancestor;
  }

  /** The chains without the entries of t, and what Release makes of the counts, represent the graph
      without it. */
  lemma FinishRepresents(g: Graph, c0: map<Addr, Chain>, c: map<Addr, Chain>, d: map<Task, seq<Task>>, num: map<Task, int>,
                         depend: map<Task, seq<Clause>>, t: Task, n: nat)
    requires Represents(g, c0, d, num, depend) && MayFinish(g, t)
    requires t in depend && n == |depend[t]| && UnlinkedSoFar(c0, c, depend[t], n, t)
    ensures t in d && Represents(Finish(g, t), c, d - {t}, Decremented(num, d[t]) - {t}, depend - {t})
  {
    RepresentsAll(g, c0, d, num, depend);
    hide *;
    FinishedAway(g, depend, t);
    ReleaseDone(g, d, num, t);
    FinishKeepsInv(g, t);
    UnlinkDone(g, c0, c, depend[t], t);
    RepresentsNow(Finish(g, t), c, d - {t}, Decremented(num, d[t]) - {t}, depend - {t});
  }

  lemma RepresentsNow(g: Graph, chains: map<Addr, Chain>, d: map<Task, seq<Task>>, num: map<Task, int>, depend: map<Task, seq<Clause>>)
    requires Inv(g) && g == GraphOf(chains, g.names, g.preds) && ChainsOk(chains)
    requires EdgesMatch(d, num, g.preds) && ClausesMatch(depend, g.names)
    ensures Represents(g, chains, d, num, depend)
  {
  }
}
