/** The chain of depend entries as it is linked in memory, updated in place: the walk along the
    live entries, which gives them edges to the new task, the new head, the move of the old writer
    behind the live entries (task.c:207-281), and the unlinking of an entry (task.c:1027-1046).
    Proved to do to the sequence of entries what `DependChain` and `DependTable` say.
 */
module DependLinks {
  import opened Collections
  import opened DependChain
  import opened DependTable
  import opened TaskGraph

  /** struct gomp_task_depend_entry.  Whether it repeats an address of its task is settled before
      anybody else sees it. */
  class Node {
    const task: Task
    const addr: Addr
    const isIn: bool
    const redundant: bool
    var redundantOut: bool
    var next: Node?
    var prev: Node?

    constructor (task: Task, addr: Addr, isIn: bool, redundant: bool)
      ensures this.task == task && this.addr == addr && this.isIn == isIn && this.redundant == redundant
      ensures !redundantOut && next == null && prev == null
    {
      this.task, this.addr, this.isIn, this.redundant := task, addr, isIn, redundant;
      redundantOut, next, prev := false, null, null;
    }
  }

  function NextOf(s: seq<Node>, i: nat): Node?
    requires i < |s|
  {
    if i + 1 < |s| then s[i + 1] else null
  }

  function PrevOf(s: seq<Node>, i: nat): Node?
    requires i < |s|
  {
    if i > 0 then s[i - 1] else null
  }

  ghost predicate Linked(s: seq<Node>)
    reads s
  {
    NoDup(s) && forall i | 0 <= i < |s| :: s[i].next == NextOf(s, i) && s[i].prev == PrevOf(s, i)
  }

  /** The entries of the nodes. */
  ghost function View(s: seq<Node>): (c: Chain)
    reads s
    ensures |c| == |s|
  {
    seq(|s|, i requires 0 <= i < |s| reads s => Entry(s[i].task, s[i].isIn, s[i].redundantOut))
  }

  class List {
    var slot: Node?             // in the table, for one address
    ghost var nodes: seq<Node>

    ghost predicate Valid()
      reads this, nodes
    {
      Linked(nodes) && slot == if nodes == [] then null else nodes[0]
    }

    constructor ()
      ensures Valid() && nodes == []
    {
      slot, nodes := null, [];
    }

    /** The walk along the live entries: their edges to the new task, the one that writes, and the
        last. */
    method Walk(x: Edges, t: Task, isIn: bool) returns (x': Edges, out: Node?, last: Node?, ghost n: nat, ghost k: int)
      requires Valid() && ChainOk(View(nodes))
      ensures Located(View(nodes), n, k)
      ensures x' == AddEdges(x, View(nodes), n, isIn, t)
      ensures out == (if k < 0 then null else nodes[k]) && last == if n == 0 then null else nodes[n - 1]
    {
      ghost var c := View(nodes);
      var ent := slot;
      x', out, last, n, k := x, null, null, 0, -1;
      while ent != null && !ent.redundantOut
        invariant n <= |nodes| && ent == (if n < |nodes| then nodes[n] else null)
        invariant LocatedSoFar(c, n, k) && x' == AddEdges(x, c, n, isIn, t)
        invariant out == (if k < 0 then null else nodes[k]) && last == if n == 0 then null else nodes[n - 1]
        decreases |nodes| - n
      {
        LocateNext(c, n, k);
        last := ent;
        if !ent.isIn {
          out := ent;
          k := n;
        }
        x' := AddEdge(x', Entry(ent.task, ent.isIn, false), isIn, t);
        ent := ent.next;
        n := n + 1;
      }
    }

    /** A new entry becomes the head; if it writes, the writer so far is moved behind the live
        entries and marked. */
    method Add(node: Node, out: Node?, last: Node?, ghost n: nat, ghost k: int)
      requires Valid() && node !in nodes && node.next == null && node.prev == null && !node.redundantOut
      requires n <= |nodes| && -1 <= k < n
      requires out == (if k < 0 then null else nodes[k]) && last == if n == 0 then null else nodes[n - 1]
      modifies this, nodes, node
      ensures Valid() && View(nodes) == NewChain(old(View(nodes)), Entry(node.task, node.isIn, false), n, k)
      ensures forall x: Node :: x in nodes <==> x in old(nodes) || x == node
    {
      ghost var c := View(nodes);
      hide Linked, View;
      Push(node);
      assert View(nodes) == [Entry(node.task, node.isIn, false)] + c;
      if !node.isIn && out != null {
        Demote(out, last, k + 1, n);
        DemotedIs(Entry(node.task, node.isIn, false), c, n, k);
        forall x: Node ensures x in nodes <==> x in [node] + old(nodes) {
          MoveKeeps([node] + old(nodes), k + 1, n, x);
        }
      }
    }

    /** The writer, now at i, goes behind the node at n and is marked. */
    method Demote(out: Node, last: Node, ghost i: nat, ghost n: nat)
      requires Valid() && 0 < i <= n < |nodes| && out == nodes[i] && last == nodes[n]
      modifies this`nodes, nodes
      ensures Valid() && View(nodes) == MoveTo(old(View(nodes)), i, n)[n := old(View(nodes)[i]).(redundantOut := true)]
      ensures nodes == MoveTo(old(nodes), i, n)
    {
      ghost var s, v := nodes, View(nodes);
      assert out == last <==> i == n by { assert NoDup(nodes); }
      hide Linked;
      if out != last {
        MoveBehind(out, last, nodes, i, n);
        assert View(s) == v;
        nodes := MoveTo(nodes, i, n);
        ViewMoved(s, v, i, n);
      } else {
        NothingMoves(nodes, i, n);
        NothingMoves(v, i, n);
      }
      Mark(out, n);
    }

    method Push(node: Node)
      requires Valid() && node !in nodes && node.next == null && node.prev == null && !node.redundantOut
      modifies this, nodes, node`next, node`prev
      ensures Valid() && nodes == [node] + old(nodes)
      ensures View(nodes) == [Entry(node.task, node.isIn, false)] + old(View(nodes))
    {
      ghost var s, v := nodes, View(nodes);
      LinkHead(node, slot, nodes);
      slot := node;
      nodes := [node] + nodes;
      ViewPushed(node, s, v);
    }

    /** out->redundant_out = true. */
    method Mark(out: Node, ghost i: nat)
      requires Valid() && i < |nodes| && nodes[i] == out
      modifies out`redundantOut
      ensures Valid() && nodes == old(nodes)
      ensures View(nodes) == old(View(nodes))[i := old(View(nodes)[i]).(redundantOut := true)]
    {
      out.redundantOut := true;
    }

    /** The entry of a finished task is taken out. */
    method Unlink(node: Node, ghost i: nat)
      requires Valid() && i < |nodes| && nodes[i] == node
      modifies this, nodes
      ensures Valid() && nodes == Without(old(nodes), i)
      ensures View(nodes) == old(View(nodes))[..i] + old(View(nodes))[i + 1..]
      ensures forall x: Node :: x in nodes <==> x in old(nodes) && x != node
    {
      ghost var s, v := nodes, View(nodes);
      assert NoDup(s);
      hide Linked;
      Bridge(node, nodes, i);
      if node.prev == null {
        slot := node.next;
      }
      nodes := Without(nodes, i);
      ViewWithout(s, v, i);
      WithoutKeeps(s, i);
    }
  }

  // ---------------------------------------------------------------- sequences

  /** The element at i goes behind the one at n. */
  ghost function MoveTo<T>(s: seq<T>, i: nat, n: nat): (r: seq<T>)
    requires i <= n < |s|
    ensures |r| == |s|
    ensures forall j | 0 <= j < |r| :: r[j] == s[if j < i || j > n then j else if j < n then j + 1 else i]
  {
    s[..i] + s[i + 1..n + 1] + [s[i]] + s[n + 1..]
  }

  lemma MoveKeeps<T>(s: seq<T>, i: nat, n: nat, x: T)
    requires i <= n < |s|
    ensures x in MoveTo(s, i, n) <==> x in s
  {
    hide MoveTo;
    var r := MoveTo(s, i, n);
    if x in s {
      var j :| 0 <= j < |s| && s[j] == x;
      assert r[if j < i || j > n then j else if j == i then n else j - 1] == x;
    }
  }

  lemma NothingMoves<T>(s: seq<T>, i: nat, n: nat)
    requires i == n < |s|
    ensures MoveTo(s, i, n) == s
  {
  }

  /** With the new head, the moved and marked chain is the one that `DependChain` has. */
  lemma DemotedIs(e: Entry, c: Chain, n: nat, k: nat)
    requires k < n <= |c| && !e.isIn
    ensures var v := [e] + c; MoveTo(v, k + 1, n)[n := v[k + 1].(redundantOut := true)] == NewChain(c, e, n, k)
  {
    var v, o := [e] + c, c[k].(redundantOut := true);
    assert v[..k + 1] == [e] + c[..k] && v[k + 2..n + 1] == c[k + 1..n] && v[n + 1..] == c[n..];
    var pre := [e] + c[..k] + c[k + 1..n];
    assert MoveTo(v, k + 1, n) == pre + [c[k]] + c[n..];
    assert |pre| == n;
    assert (pre + [c[k]] + c[n..])[n := o] == pre + [o] + c[n..];
    assert NewChain(c, e, n, k) == pre + [o] + c[n..];
  }

  lemma ViewPushed(node: Node, s: seq<Node>, v: Chain)
    requires View(s) == v && !node.redundantOut
    ensures View([node] + s) == [Entry(node.task, node.isIn, false)] + v
  {
  }

  lemma WithoutKeeps<T>(s: seq<T>, i: nat)
    requires i < |s| && NoDup(s)
    ensures forall x: T :: x in Without(s, i) <==> x in s && x != s[i]
  {
    var r := Without(s, i);
    assert forall j | 0 <= j < |r| :: r[j] == s[if j < i then j else j + 1];
    forall x | x in s && x != s[i] ensures x in r {
      var j :| 0 <= j < |s| && s[j] == x;
      assert r[if j < i then j else j - 1] == x;
    }
  }

  lemma ViewWithout(s: seq<Node>, v: Chain, i: nat)
    requires i < |s| && View(s) == v
    ensures View(Without(s, i)) == v[..i] + v[i + 1..]
  {
  }

  lemma ViewMoved(s: seq<Node>, v: Chain, i: nat, n: nat)
    requires i <= n < |s| && View(s) == v
    ensures View(MoveTo(s, i, n)) == MoveTo(v, i, n)
  {
  }

  // ---------------------------------------------------------------- links

  method LinkHead(node: Node, head: Node?, ghost s: seq<Node>)
    requires Linked(s) && node !in s && node.next == null && node.prev == null
    requires head == if s == [] then null else s[0]
    modifies s, node`next
    ensures Linked([node] + s)
    ensures forall x | x in s :: x.redundantOut == old(x.redundantOut)
  {
    if head != null {
      node.next := head;
      head.prev := node;
    }
    LinkedPushed(node, s);
  }

  lemma LinkedPushed(node: Node, s: seq<Node>)
    requires NoDup(s) && node !in s && node.prev == null && node.next == if s == [] then null else s[0]
    requires forall j | 0 <= j < |s| :: s[j].next == NextOf(s, j) && s[j].prev == if j == 0 then node else PrevOf(s, j)
    ensures Linked([node] + s)
  {
    var r := [node] + s;
    assert forall j | 0 <= j < |s| :: r[j + 1] == s[j];
    forall j | 0 <= j < |r| ensures r[j].next == NextOf(r, j) && r[j].prev == PrevOf(r, j) {
      if j > 0 { assert r[j] == s[j - 1]; }
    }
  }

  /** The neighbours of the node at i know each other; its own links stay. */
  method Bridge(node: Node, ghost s: seq<Node>, ghost i: nat)
    requires Linked(s) && i < |s| && s[i] == node
    modifies s
    ensures Linked(Without(s, i)) && node.next == NextOf(s, i) && node.prev == PrevOf(s, i)
    ensures forall x | x in s :: x.redundantOut == old(x.redundantOut)
  {
    assert node.next == NextOf(s, i) && node.prev == PrevOf(s, i);
    if node.next != null {
      node.next.prev := node.prev;
    }
    if node.prev != null {
      node.prev.next := node.next;
    }
    LinkedWithout(s, i);
  }

  lemma LinkedWithout(s: seq<Node>, i: nat)
    requires NoDup(s) && i < |s|
    requires forall j | 0 <= j < |s| :: s[j].next == if j + 1 == i then NextOf(s, i) else NextOf(s, j)
    requires forall j | 0 <= j < |s| :: s[j].prev == if j == i + 1 then PrevOf(s, i) else PrevOf(s, j)
    ensures Linked(Without(s, i))
  {
    var r := Without(s, i);
    assert forall j | 0 <= j < |r| :: r[j] == s[if j < i then j else j + 1];
    hide Without;
    forall j | 0 <= j < |r| ensures r[j].next == NextOf(r, j) {
    }
    forall j | 0 <= j < |r| ensures r[j].prev == PrevOf(r, j) {
    }
  }

  /** out, at i, goes behind last, at n. */
  method MoveBehind(out: Node, last: Node, ghost s: seq<Node>, ghost i: nat, ghost n: nat)
    requires Linked(s) && 0 < i < n < |s| && s[i] == out && s[n] == last
    modifies s
    ensures Linked(MoveTo(s, i, n))
    ensures forall x | x in s :: x.redundantOut == old(x.redundantOut)
  {
    assert out.next == s[i + 1] && out.prev == s[i - 1];
    TakeOut(out, s, i, n);
    PutBehind(out, last, s, i, n);
    LinkedMoved(s, i, n);
  }

  /** The neighbours of out, of which the next one is a node, know each other. */
  method TakeOut(out: Node, ghost s: seq<Node>, ghost i: nat, ghost n: nat)
    requires Linked(s) && 0 < i < n < |s| && s[i] == out
    modifies s
    ensures forall j | 0 <= j < |s| && j != i :: s[j].next == if j == i - 1 then s[i + 1] else NextOf(s, j)
    ensures forall j | 0 <= j < |s| && j != i :: s[j].prev == if j == i + 1 then s[i - 1] else PrevOf(s, j)
    ensures forall x | x in s :: x.redundantOut == old(x.redundantOut)
  {
    assert out.next == s[i + 1] && out.prev == s[i - 1];
    out.next.prev := out.prev;
    out.prev.next := out.next;
  }

  method PutBehind(out: Node, last: Node, ghost s: seq<Node>, ghost i: nat, ghost n: nat)
    requires NoDup(s) && 0 < i < n < |s| && s[i] == out && s[n] == last
    requires forall j | 0 <= j < |s| && j != i :: s[j].next == if j == i - 1 then s[i + 1] else NextOf(s, j)
    requires forall j | 0 <= j < |s| && j != i :: s[j].prev == if j == i + 1 then s[i - 1] else PrevOf(s, j)
    modifies s
    ensures forall j | 0 <= j < |s| :: s[j].next ==
              if j == i - 1 then s[i + 1] else if j == i then NextOf(s, n) else if j == n then s[i] else NextOf(s, j)
    ensures forall j | 0 <= j < |s| :: s[j].prev ==
              if j == i + 1 then s[i - 1] else if j == i then s[n] else if j == n + 1 then s[i] else PrevOf(s, j)
    ensures forall x | x in s :: x.redundantOut == old(x.redundantOut)
  {
    assert last.next == NextOf(s, n);
    out.next := last.next;
    out.prev := last;
    last.next := out;
    if out.next != null {
      assert out.next == s[n + 1];
      out.next.prev := out;
    }
  }

  lemma LinkedMoved(s: seq<Node>, i: nat, n: nat)
    requires NoDup(s) && 0 < i < n < |s|
    requires forall j | 0 <= j < |s| :: s[j].next ==
               if j == i - 1 then s[i + 1] else if j == i then NextOf(s, n) else if j == n then s[i] else NextOf(s, j)
    requires forall j | 0 <= j < |s| :: s[j].prev ==
               if j == i + 1 then s[i - 1] else if j == i then s[n] else if j == n + 1 then s[i] else PrevOf(s, j)
    ensures Linked(MoveTo(s, i, n))
  {
    NextMoved(s, i, n);
    PrevMoved(s, i, n);
    var r := MoveTo(s, i, n);
    hide MoveTo, NextOf, PrevOf;
  }

  lemma NextMoved(s: seq<Node>, i: nat, n: nat)
    requires NoDup(s) && 0 < i < n < |s|
    requires forall j | 0 <= j < |s| :: s[j].next ==
               if j == i - 1 then s[i + 1] else if j == i then NextOf(s, n) else if j == n then s[i] else NextOf(s, j)
    ensures var r := MoveTo(s, i, n); NoDup(r) && forall j | 0 <= j < |r| :: r[j].next == NextOf(r, j)
  {
    hide MoveTo;
  }

  lemma PrevMoved(s: seq<Node>, i: nat, n: nat)
    requires 0 < i < n < |s|
    requires forall j | 0 <= j < |s| :: s[j].prev ==
               if j == i + 1 then s[i - 1] else if j == i then s[n] else if j == n + 1 then s[i] else PrevOf(s, j)
    ensures var r := MoveTo(s, i, n); forall j | 0 <= j < |r| :: r[j].prev == PrevOf(r, j)
  {
    hide MoveTo;
  }
}
