/** The depend hash of a parent task with its linked entries, updated in place:
    gomp_task_handle_depend, gomp_task_run_post_handle_depend_hash and
    gomp_task_run_post_handle_dependers (task.c:171-283, 1021-1047 and 1057-1129), proved to
    implement `TaskGraph`.
 */
module DependHash {
  import opened Collections
  import opened DependChain
  import opened DependLinks
  import opened DependTable
  import opened TaskGraph

  // ---------------------------------------------------------------- lists

  /** The nodes are linked in the list and show the chain. */
  ghost predicate Links(l: List, s: seq<Node>, c: Chain)
    reads l, s
  {
    l.nodes == s && l.Valid() && View(s) == c
  }

  /** The nodes of one address, which are all entries. */
  ghost predicate AllAt(s: seq<Node>, a: Addr, entries: set<Node>) {
    forall x | x in s :: x in entries && x.addr == a
  }

  /** Each entry is a node of its address and of no other, and each address has a list of its own. */
  ghost predicate Sorted(lists: map<Addr, List>, nodes: map<Addr, seq<Node>>, entries: set<Node>) {
    && lists.Keys == nodes.Keys
    && (forall a | a in lists :: AllAt(nodes[a], a, entries))
    && (forall x | x in entries :: x.addr in lists && x in nodes[x.addr])
    && (forall a, b | a in lists && b in lists && lists[a] == lists[b] :: a == b)
  }

  /** The lists link the nodes, which are all the entries. */
  ghost predicate AllLinked(lists: map<Addr, List>, nodes: map<Addr, seq<Node>>, chains: map<Addr, Chain>, entries: set<Node>)
    reads lists.Values, entries
  {
    && lists.Keys == chains.Keys && Sorted(lists, nodes, entries)
    && (forall a | a in lists :: Links(lists[a], nodes[a], chains[a]))
  }

  lemma Apart(lists: map<Addr, List>, nodes: map<Addr, seq<Node>>, entries: set<Node>, a: Addr, b: Addr)
    requires Sorted(lists, nodes, entries) && a in lists && b in lists && a != b
    ensures lists[a] != lists[b]
    ensures forall j | 0 <= j < |nodes[b]| :: nodes[b][j] in entries && nodes[b][j] !in nodes[a]
  {
    var s, t := nodes[a], nodes[b];
    assert AllAt(s, a, entries) && AllAt(t, b, entries);
    forall j | 0 <= j < |t| ensures t[j] in entries && t[j] !in s {
      assert t[j] in t;
    }
  }

  lemma SortedAfter(lists: map<Addr, List>, nodes: map<Addr, seq<Node>>, entries: set<Node>, node: Node, s: seq<Node>, linked: bool)
    requires Sorted(lists, nodes, entries) && node.addr in lists
    requires forall x: Node :: x in s <==> if x == node then linked else x in nodes[node.addr]
    ensures Sorted(lists, nodes[node.addr := s], if linked then entries + {node} else entries - {node})
  {
  }

  lemma LinksAre(l: List, s: seq<Node>, c: Chain)
    requires Links(l, s, c)
    ensures l.nodes == s && l.Valid() && View(s) == c
  {
  }

  lemma LinkedNow(l: List, s: seq<Node>, c: Chain)
    requires l.nodes == s && l.Valid() && View(s) == c
    ensures Links(l, s, c)
  {
  }

  /** The entry at i is unlinked, and the other lists stay. */
  method UnlinkAt(lists: map<Addr, List>, node: Node, ghost i: nat,
                  ghost nodes: map<Addr, seq<Node>>, ghost chains: map<Addr, Chain>, ghost entries: set<Node>)
    returns (ghost s: seq<Node>)
    requires AllLinked(lists, nodes, chains, entries) && node in entries && i < |nodes[node.addr]| && nodes[node.addr][i] == node
    modifies lists.Values, entries
    ensures var a, c := node.addr, chains[node.addr];
      && i < |c| && c[i].task == node.task
      && AllLinked(lists, nodes[a := s], chains[a := c[..i] + c[i + 1..]], entries - {node})
  {
    hide Linked, Without;
    ghost var a, c := node.addr, chains[node.addr];
    var l := lists[node.addr];
    LinksAre(l, nodes[a], c);
    assert c[i].task == node.task;
    hide Links, l.Valid, View, Sorted;
    l.Unlink(node, i);
    s := l.nodes;
    LinkedNow(l, s, c[..i] + c[i + 1..]);
    forall b | b in lists && b != a ensures Links(lists[b], nodes[b], chains[b]) {
      Apart(lists, nodes, entries, a, b);
      assert old(Links(lists[b], nodes[b], chains[b]));
      assert unchanged(lists[b]) && unchanged(nodes[b]);
    }
    SortedAfter(lists, nodes, entries, node, s, false);
  }

  /** A new entry is linked, and the other lists stay. */
  method LinkAt(lists: map<Addr, List>, node: Node, x: Edges,
                ghost nodes: map<Addr, seq<Node>>, ghost chains: map<Addr, Chain>, ghost entries: set<Node>)
    returns (x': Edges, ghost n: nat, ghost k: int, ghost s: seq<Node>)
    requires AllLinked(lists, nodes, chains, entries) && node.addr in lists && ChainOk(chains[node.addr])
    requires node !in entries && node.next == null && node.prev == null && !node.redundantOut
    modifies lists.Values, entries, node
    ensures var a, c := node.addr, chains[node.addr];
      && Located(c, n, k) && x' == AddEdges(x, c, n, node.isIn, node.task)
      && AllLinked(lists, nodes[a := s], chains[a := NewChain(c, Entry(node.task, node.isIn, false), n, k)], entries + {node})
  {
    hide Linked, ChainOk, AddEdges, NewChain;
    ghost var a, c := node.addr, chains[node.addr];
    var l := lists[node.addr];
    LinksAre(l, nodes[a], c);
    NotLinked(lists, nodes, entries, node);
    hide Links, l.Valid, View, Sorted;
    var out, last;
    x', out, last, n, k := l.Walk(x, node.task, node.isIn);
    LocatedBounds(c, n, k);
    hide Located;
    l.Add(node, out, last, n, k);
    s := l.nodes;
    LinkedNow(l, s, NewChain(c, Entry(node.task, node.isIn, false), n, k));
    forall b | b in lists && b != a ensures Links(lists[b], nodes[b], chains[b]) {
      Apart(lists, nodes, entries, a, b);
      assert old(Links(lists[b], nodes[b], chains[b]));
      assert unchanged(lists[b]) && unchanged(nodes[b]);
    }
    SortedAfter(lists, nodes, entries, node, s, true);
  }

  lemma NotLinked(lists: map<Addr, List>, nodes: map<Addr, seq<Node>>, entries: set<Node>, node: Node)
    requires Sorted(lists, nodes, entries) && node !in entries && node.addr in lists
    ensures node !in nodes[node.addr]
  {
    assert AllAt(nodes[node.addr], node.addr, entries);
  }

  lemma KeysAgree(lists: map<Addr, List>, nodes: map<Addr, seq<Node>>, chains: map<Addr, Chain>, entries: set<Node>)
    requires AllLinked(lists, nodes, chains, entries)
    ensures lists.Keys == nodes.Keys == chains.Keys
  {
  }

  method EmptyList() returns (l: List)
    ensures fresh(l) && Links(l, [], [])
  {
    l := new List();
    LinkedNow(l, [], []);
  }

  lemma OneMoreSlot(lists: map<Addr, List>, nodes: map<Addr, seq<Node>>, chains: map<Addr, Chain>, entries: set<Node>, a: Addr, l: List)
    requires AllLinked(lists, nodes, chains, entries) && a !in lists && l !in lists.Values && Links(l, [], [])
    ensures AllLinked(lists[a := l], nodes[a := []], chains[a := []], entries)
  {
  }

  lemma PlaceOf(lists: map<Addr, List>, nodes: map<Addr, seq<Node>>, chains: map<Addr, Chain>, entries: set<Node>, node: Node)
    returns (i: nat)
    requires AllLinked(lists, nodes, chains, entries) && node in entries
    ensures node.addr in lists && lists.Keys == nodes.Keys == chains.Keys
    ensures i < |nodes[node.addr]| && nodes[node.addr][i] == node
  {
    i :| i < |nodes[node.addr]| && nodes[node.addr][i] == node;
  }

  lemma LocatedBounds(c: Chain, n: nat, k: int)
    requires Located(c, n, k)
    ensures n <= |c| && -1 <= k < n
  {
  }

  // ---------------------------------------------------------------- slots

  /** The slots of the addresses; one that has become empty stays. */
  class Slots {
    var lists: map<Addr, List>
    ghost var nodes: map<Addr, seq<Node>>
    ghost var chains: map<Addr, Chain>
    ghost var entries: set<Node>

    ghost predicate Valid()
      reads this, lists.Values, entries
    {
      AllLinked(lists, nodes, chains, entries)
    }

    constructor ()
      ensures Valid() && fresh(lists.Values) && chains == map[] && entries == {}
    {
      lists, nodes, chains, entries := map[], map[], map[], {};
    }

    method Head(a: Addr) returns (head: Node?)
      requires Valid()
      ensures var c := ChainAt(chains, a);
        if c == [] then head == null else head != null && head.task == c[0].task
    {
      head := if a in lists then lists[a].slot else null;
    }

    /** The slot of an address is made if there is none. */
    method Slot(a: Addr)
      requires Valid()
      modifies this`lists, this`nodes, this`chains
      ensures Valid() && a in lists && fresh(lists.Values - old(lists.Values))
      ensures chains == old(chains)[a := ChainAt(old(chains), a)]
    {
      KeysAgree(lists, nodes, chains, entries);
      if a !in lists {
        NewSlot(a);
      }
    }

    method NewSlot(a: Addr)
      requires Valid() && a !in lists
      modifies this`lists, this`nodes, this`chains
      ensures Valid() && a in lists && fresh(lists[a]) && lists == old(lists)[a := lists[a]]
      ensures chains == old(chains)[a := []]
    {
      hide AllLinked, Links;
      var l := EmptyList();
      OneMoreSlot(lists, nodes, chains, entries, a, l);
      lists, nodes, chains := lists[a := l], nodes[a := []], chains[a := []];
    }

    /** A new entry is linked, after the live ones of its address got their edges to its task. */
    method Link(node: Node, x: Edges) returns (x': Edges, ghost n: nat, ghost k: int)
      requires Valid() && ChainOk(ChainAt(chains, node.addr))
      requires node !in entries && node.next == null && node.prev == null && !node.redundantOut
      modifies this, lists.Values, entries, node
      ensures Valid() && fresh(lists.Values - old(lists.Values)) && entries == old(entries) + {node}
      ensures var c := ChainAt(old(chains), node.addr);
        && Located(c, n, k)
        && x' == AddEdges(x, c, n, node.isIn, node.task)
        && chains == old(chains)[node.addr := NewChain(c, Entry(node.task, node.isIn, false), n, k)]
    {
      hide AllLinked, ChainOk, Located, NewChain, AddEdges;
      Slot(node.addr);
      ghost var s, c := [], chains[node.addr];
      x', n, k, s := LinkAt(lists, node, x, nodes, chains, entries);
      LocatedBounds(c, n, k);
      entries, nodes := entries + {node}, nodes[node.addr := s];
      chains := chains[node.addr := NewChain(c, Entry(node.task, node.isIn, false), n, k)];
    }

    /** An entry is unlinked by its own links. */
    method Unlink(node: Node) returns (ghost i: nat)
      requires Valid() && node in entries
      modifies this`nodes, this`chains, this`entries, lists.Values, entries
      ensures Valid() && entries == old(entries) - {node} && node.addr in old(chains)
      ensures var c := old(chains)[node.addr];
        i < |c| && c[i].task == node.task && chains == old(chains)[node.addr := c[..i] + c[i + 1..]]
    {
      hide AllLinked;
      i := PlaceOf(lists, nodes, chains, entries, node);
      ghost var s, c := [], chains[node.addr];
      s := UnlinkAt(lists, node, i, nodes, chains, entries);
      entries, nodes, chains := entries - {node}, nodes[node.addr := s], chains[node.addr := c[..i] + c[i + 1..]];
    }
  }

  // ---------------------------------------------------------------- clauses

  function ClausesOf(es: seq<Node>): seq<Clause> {
    seq(|es|, i requires 0 <= i < |es| => Clause(es[i].addr, es[i].isIn, es[i].redundant))
  }

  function AllClauses(depend: map<Task, seq<Node>>): map<Task, seq<Clause>> {
    map t | t in depend :: ClausesOf(depend[t])
  }

  /** These are entries of t, and those that repeat no address are linked. */
  ghost predicate AreEntries(es: seq<Node>, t: Task, entries: set<Node>) {
    forall x | x in es :: x.task == t && (!x.redundant ==> x in entries)
  }

  ghost predicate AllEntries(depend: map<Task, seq<Node>>, entries: set<Node>) {
    forall t | t in depend :: AreEntries(depend[t], t, entries)
  }

  lemma ClausesAreAll(es: seq<Node>)
    ensures |ClausesOf(es)| == |es|
  {
  }

  lemma OneMoreEntry(es: seq<Node>, t: Task, entries: set<Node>, node: Node, more: set<Node>)
    requires AreEntries(es, t, entries) && entries <= more && node.task == t && (!node.redundant ==> node in more)
    ensures AreEntries(es + [node], t, more)
    ensures ClausesOf(es + [node]) == ClausesOf(es) + [Clause(node.addr, node.isIn, node.redundant)]
  {
  }

  // ---------------------------------------------------------------- a new task

  /** The loop of gomp_task_handle_depend over the clauses of a new task. */
  method BuildEdges(slots: Slots, d: map<Task, seq<Task>>, t: Task, addrs: seq<Addr>, nout: nat,
                    ghost g: Graph, ghost num: map<Task, int>, ghost depend: map<Task, seq<Clause>>)
    returns (x: Edges, es: seq<Node>, ghost nm: Names)
    requires slots.Valid() && Represents(g, slots.chains, d, num, depend) && IsNew(g, t) && nout <= |addrs|
    modifies slots, slots.lists.Values, slots.entries
    ensures slots.Valid() && fresh(slots.lists.Values - old(slots.lists.Values))
    ensures fresh(slots.entries - old(slots.entries)) && old(slots.entries) <= slots.entries
    ensures AreEntries(es, t, slots.entries)
    ensures nm == NamesOf(addrs, nout, |addrs|)
    ensures Represents(Create(g, t, nm), slots.chains, x.d[t := []], num[t := x.num], depend[t := ClausesOf(es)])
  {
    hide slots.Valid, Inv, UsesOk, EdgesOk, IsNew, GraphOf, ChainsOk, ClausesMatch, Dependers, ChainBuilt, EdgesAdded, ClausesOk, PredsFor, Create;
    ghost var chains := slots.chains;
    NewIsAbsent(g, t);
    x, es, nm := Edges(d, 0), [], map[];
    NothingBuilt(g, chains, d, num, t);
    assert ClausesOf([]) == [];
    var i := 0;
    while i < |addrs|
      invariant 0 <= i <= |addrs|
      invariant nm == NamesOf(addrs, nout, i)
      invariant slots.Valid() && fresh(slots.lists.Values - old(slots.lists.Values))
      invariant fresh(slots.entries - old(slots.entries)) && old(slots.entries) <= slots.entries
      invariant AreEntries(es, t, slots.entries)
      invariant Built(g, chains, d, Build(slots.chains, x, ClausesOf(es)), t, nm)
    {
      hide NamesOf, Built, AreEntries, ClausesOf;
      x, es, nm := BuildClause(slots, chains, d, t, addrs[i], i >= nout, g, x, es, nm);
      NamesStep(addrs, nout, i);
      i := i + 1;
    }
    BuildDone(g, chains, d, num, depend, Build(slots.chains, x, ClausesOf(es)), t, nm);
  }

  method BuildClause(slots: Slots, ghost chains: map<Addr, Chain>, ghost d: map<Task, seq<Task>>, t: Task, a: Addr, isIn: bool,
                     ghost g: Graph, x: Edges, es: seq<Node>, ghost nm: Names)
    returns (x': Edges, es': seq<Node>, ghost nm': Names)
    requires slots.Valid() && g == GraphOf(chains, g.names, g.preds) && Inv(g) && IsNew(g, t)
    requires ChainsOk(chains) && d.Keys == g.preds.Keys && AreEntries(es, t, slots.entries)
    requires Built(g, chains, d, Build(slots.chains, x, ClausesOf(es)), t, nm)
    modifies slots, slots.lists.Values, slots.entries
    ensures slots.Valid() && fresh(slots.lists.Values - old(slots.lists.Values))
    ensures fresh(slots.entries - old(slots.entries)) && old(slots.entries) <= slots.entries
    ensures AreEntries(es', t, slots.entries)
    ensures nm' == if a in nm then nm else nm[a := isIn]
    ensures Built(g, chains, d, Build(slots.chains, x', ClausesOf(es')), t, nm')
  {
    hide slots.Valid, Inv, IsNew, GraphOf, ChainsOk, Built, AreEntries, ClausesOf, ChainOk, Located, NewChain, AddEdges, Meaning;
    ghost var b := Build(slots.chains, x, ClausesOf(es));
    HeadTells(chains, g.names, g.preds, d, b, t, nm, a);
    var head := slots.Head(a);
    var node := new Node(t, a, isIn, head != null && head.task == t);
    if node.redundant {
      x', nm' := x, nm;
      RedundantBuilt(g, chains, d, b, t, nm, a, isIn);
      OneMoreEntry(es, t, slots.entries, node, slots.entries);
    } else {
      ghost var n, k, entries := 0, 0, slots.entries;
      x', n, k := slots.Link(node, x);
      nm' := nm[a := isIn];
      ClauseBuilt(g, chains, d, b, t, nm, a, isIn, n, k);
      OneMoreEntry(es, t, entries, node, slots.entries);
    }
    es' := es + [node];
  }

  // ---------------------------------------------------------------- a finished task

  /** Entries of other tasks stay. */
  ghost predicate Kept(before: set<Node>, now: set<Node>, t: Task) {
    now <= before && forall x | x in before && x.task != t :: x in now
  }

  lemma KeptOn(a: set<Node>, b: set<Node>, c: set<Node>, t: Task)
    requires Kept(a, b, t) && Kept(b, c, t)
    ensures Kept(a, c, t)
  {
  }

  /** The entries from i on that repeat no address are linked. */
  ghost predicate Unlinkable(es: seq<Node>, i: nat, t: Task, entries: set<Node>) {
    forall j | i <= j < |es| :: es[j].task == t && (!es[j].redundant ==> es[j] in entries)
  }

  lemma AllUnlinkable(es: seq<Node>, t: Task, entries: set<Node>)
    requires AreEntries(es, t, entries)
    ensures Unlinkable(es, 0, t, entries) && Kept(entries, entries, t)
  {
  }

  lemma NextUnlinkable(es: seq<Node>, i: nat, t: Task, entries: set<Node>, nm: Names)
    requires Unlinkable(es, i, t, entries) && ClausesOk(ClausesOf(es), nm) && i < |es|
    ensures es[i].task == t && |ClausesOf(es)| == |es| && ClausesOf(es)[i] == Clause(es[i].addr, es[i].isIn, es[i].redundant)
    ensures if es[i].redundant then Unlinkable(es, i + 1, t, entries) && Kept(entries, entries, t)
            else es[i] in entries && Unlinkable(es, i + 1, t, entries - {es[i]}) && Kept(entries, entries - {es[i]}, t)
  {
    var cs := ClausesOf(es);
    assert forall j | 0 <= j < |es| :: cs[j].addr == es[j].addr && cs[j].redundant == es[j].redundant;
  }

  /** gomp_task_run_post_handle_depend_hash: each entry of the task is unlinked by its own links. */
  method UnlinkEntries(slots: Slots, es: seq<Node>, t: Task, ghost nm: Names)
    requires slots.Valid() && AreEntries(es, t, slots.entries) && ClausesOk(ClausesOf(es), nm) && ChainsOk(slots.chains)
    modifies slots`nodes, slots`chains, slots`entries, slots.lists.Values, slots.entries
    ensures slots.Valid() && UnlinkedSoFar(old(slots.chains), slots.chains, ClausesOf(es), |es|, t)
    ensures Kept(old(slots.entries), slots.entries, t)
  {
    ghost var c0, entries, cs := slots.chains, slots.entries, ClausesOf(es);
    var i := 0;
    hide *;
    NoneUnlinked(c0, cs, t);
    ClausesAreAll(es);
    AllUnlinkable(es, t, entries);
    while i < |es|
      invariant 0 <= i <= |es| && slots.Valid()
      invariant UnlinkedSoFar(c0, slots.chains, cs, i, t)
      invariant Kept(entries, slots.entries, t) && Unlinkable(es, i, t, slots.entries)
    {
      ghost var now := slots.entries;
      UnlinkNext(slots, es, i, t, nm, c0);
      KeptOn(entries, now, slots.entries, t);
      i := i + 1;
    }
  }

  method UnlinkNext(slots: Slots, es: seq<Node>, i: nat, ghost t: Task, ghost nm: Names, ghost c0: map<Addr, Chain>)
    requires slots.Valid() && i < |es| && Unlinkable(es, i, t, slots.entries)
    requires ChainsOk(c0) && ClausesOk(ClausesOf(es), nm) && UnlinkedSoFar(c0, slots.chains, ClausesOf(es), i, t)
    modifies slots`nodes, slots`chains, slots`entries, slots.lists.Values, slots.entries
    ensures slots.Valid() && Unlinkable(es, i + 1, t, slots.entries)
    ensures UnlinkedSoFar(c0, slots.chains, ClausesOf(es), i + 1, t)
    ensures Kept(old(slots.entries), slots.entries, t)
  {
    NextUnlinkable(es, i, t, slots.entries, nm);
    hide *;
    if es[i].redundant {
      RedundantUnlinks(c0, slots.chains, ClausesOf(es), i, t);
    } else {
      UnlinkEntry(slots, es[i], ClausesOf(es), i, t, nm, c0);
    }
  }

  method UnlinkEntry(slots: Slots, node: Node, ghost cs: seq<Clause>, ghost i: nat, ghost t: Task, ghost nm: Names, ghost c0: map<Addr, Chain>)
    requires slots.Valid() && node in slots.entries && node.task == t
    requires i < |cs| && cs[i] == Clause(node.addr, node.isIn, false) && UnlinkedSoFar(c0, slots.chains, cs, i, t)
    requires ChainsOk(c0) && ClausesOk(cs, nm)
    modifies slots`nodes, slots`chains, slots`entries, slots.lists.Values, slots.entries
    ensures slots.Valid() && UnlinkedSoFar(c0, slots.chains, cs, i + 1, t)
    ensures slots.entries == old(slots.entries) - {node}
  {
    hide *;
    ghost var c := slots.chains;
    NotYetUnlinked(c0, c, cs, i, t, nm);
    ghost var j := slots.Unlink(node);
    StepUnlinks(c0, c, cs, i, t, nm, j);
  }

  method FinishEntries(slots: Slots, d: map<Task, seq<Task>>, num: map<Task, int>, es: seq<Node>, t: Task,
                       ghost g: Graph, ghost depend: map<Task, seq<Clause>>)
    returns (num': map<Task, int>, ready: seq<Task>)
    requires slots.Valid() && AreEntries(es, t, slots.entries) && t in depend && depend[t] == ClausesOf(es)
    requires Represents(g, slots.chains, d, num, depend) && MayFinish(g, t)
    modifies slots`nodes, slots`chains, slots`entries, slots.lists.Values, slots.entries
    ensures slots.Valid()
    ensures Kept(old(slots.entries), slots.entries, t)
    ensures Represents(Finish(g, t), slots.chains, d - {t}, num', depend - {t})
    ensures AreReady(ready, g.preds, t)
  {
    hide *;
    ghost var c0 := slots.chains;
    RepresentsAll(g, c0, d, num, depend);
    FinishedAway(g, depend, t);
    ReadyAre(d, num, g.preds, t);
    ClausesAreAll(es);
    UnlinkEntries(slots, es, t, g.names[t]);
    FinishRepresents(g, c0, slots.chains, d, num, depend, t, |es|);
    num', ready := Release(d[t], num);
    num' := num' - {t};
  }

  // ---------------------------------------------------------------- the table

  class Table {
    const slots: Slots                     // depend_hash
    var dependers: map<Task, seq<Task>>    // the dependers vector of every unfinished task
    var numDependees: map<Task, int>
    var depend: map<Task, seq<Node>>       // the depend entries of every unfinished task
    ghost var names: map<Task, Names>
    ghost var preds: map<Task, set<Task>>

    ghost function G(): Graph
      reads this, slots
    {
      GraphOf(slots.chains, names, preds)
    }

    ghost predicate Valid()
      reads this, slots, slots.lists.Values, slots.entries
    {
      && slots.Valid() && AllEntries(depend, slots.entries)
      && Represents(G(), slots.chains, dependers, numDependees, AllClauses(depend))
    }

    constructor ()
      ensures Valid() && G() == EmptyGraph && fresh(slots) && fresh(slots.lists.Values) && slots.entries == {}
    {
      slots := new Slots();
      dependers, numDependees, depend, names, preds := map[], map[], map[], map[], map[];
    }

    /** gomp_task_handle_depend for a new task whose first nout clauses are out or inout. */
    method HandleDepend(t: Task, addrs: seq<Addr>, nout: nat)
      requires Valid() && IsNew(G(), t) && nout <= |addrs|
      modifies this, slots, slots.lists.Values, slots.entries
      ensures Valid() && G() == Create(old(G()), t, NamesOf(addrs, nout, |addrs|))
      ensures fresh(slots.lists.Values - old(slots.lists.Values)) && fresh(slots.entries - old(slots.entries))
    {
      ghost var g, e0 := G(), slots.entries;
      hide *;
      var x, es, nm := BuildEdges(slots, dependers, t, addrs, nout, g, numDependees, AllClauses(depend));
      MoreEntries(depend, e0, t, es, slots.entries);
      Store(Create(g, t, nm), x.d[t := []], numDependees[t := x.num], depend[t := es]);
    }

    /** gomp_task_run_post_handle_depend for a task that has run: its entries are unlinked, its
        dependers stop waiting for it, and those that now wait for nobody are returned. */
    method Finished(t: Task) returns (ready: seq<Task>)
      requires Valid() && MayFinish(G(), t)
      modifies this, slots`nodes, slots`chains, slots`entries, slots.lists.Values, slots.entries
      ensures Valid() && G() == Finish(old(G()), t)
      ensures AreReady(ready, old(preds), t) && Kept(old(slots.entries), slots.entries, t)
    {
      ghost var g, e0 := G(), slots.entries;
      assert g.preds == preds;
      hide slots.Valid, Represents, AllEntries, MayFinish, GraphOf, AllClauses;
      EntriesOf(g, slots.chains, dependers, numDependees, depend, slots.entries, t);
      hide *;
      var num;
      num, ready := FinishEntries(slots, dependers, numDependees, depend[t], t, g, AllClauses(depend));
      FewerEntries(depend, e0, t, slots.entries);
      Store(Finish(g, t), dependers - {t}, num, depend - {t});
    }

    method Store(ghost g: Graph, d: map<Task, seq<Task>>, num: map<Task, int>, depend': map<Task, seq<Node>>)
      requires slots.Valid() && AllEntries(depend', slots.entries)
      requires Represents(g, slots.chains, d, num, AllClauses(depend'))
      modifies this
      ensures Valid() && G() == g
    {
      hide slots.Valid, Represents, AllEntries, GraphOf, AllClauses;
      IsGraphOf(g, slots.chains, d, num, AllClauses(depend'));
      dependers, numDependees, depend, names, preds := d, num, depend', g.names, g.preds;
    }
  }

  lemma MoreEntries(depend: map<Task, seq<Node>>, entries: set<Node>, t: Task, es: seq<Node>, more: set<Node>)
    requires AllEntries(depend, entries) && entries <= more && AreEntries(es, t, more)
    ensures AllEntries(depend[t := es], more)
    ensures AllClauses(depend[t := es]) == AllClauses(depend)[t := ClausesOf(es)]
  {
  }

  lemma FewerEntries(depend: map<Task, seq<Node>>, entries: set<Node>, t: Task, fewer: set<Node>)
    requires AllEntries(depend, entries) && Kept(entries, fewer, t)
    ensures AllEntries(depend - {t}, fewer)
    ensures AllClauses(depend - {t}) == AllClauses(depend) - {t}
  {
  }

  lemma EntriesOf(g: Graph, chains: map<Addr, Chain>, d: map<Task, seq<Task>>, num: map<Task, int>, depend: map<Task, seq<Node>>,
                  entries: set<Node>, t: Task)
    requires AllEntries(depend, entries) && Represents(g, chains, d, num, AllClauses(depend)) && MayFinish(g, t)
    ensures t in depend && AreEntries(depend[t], t, entries)
    ensures t in AllClauses(depend) && AllClauses(depend)[t] == ClausesOf(depend[t])
  {
    hide MayFinish, Inv, ClausesMatch, ClausesOf;
    FinishedAway(g, AllClauses(depend), t);
  }
}
