/** The circular doubly linked list of tasks of one priority, relinked in place: insert and remove
    (priority_queue.h:236-286, 410-437), the upgrade of a task that its parent waits for
    (task.c:807-854) and the downgrade of a task that is about to run (task.c:895-940, 964-1012).
    Proved to do what `PriorityOrder` says.
 */
module PriorityList {
  import opened Collections
  import opened PriorityOrder

  /** A task and its priority_node; the links point to itself when it is alone. */
  class Node {
    var waiting: bool  // GOMP_TASK_WAITING or GOMP_TASK_TIED
    var awaited: bool  // parent_depends_on
    var next: Node?
    var prev: Node?

    constructor (awaited: bool)
      ensures Mark() == Item(true, awaited)
    {
      waiting, this.awaited, next, prev := true, awaited, null, null;
    }

    function Mark(): Item
      reads this`waiting, this`awaited
    {
      Item(waiting, awaited)
    }
  }

  ghost function Items(s: seq<Node>): (r: seq<Item>)
    reads s
    ensures |r| == |s|
  {
    seq(|s|, i requires 0 <= i < |s| reads s => s[i].Mark())
  }

  ghost predicate Linked(s: seq<Node>)
    reads s
  {
    && NoDup(s)
    && forall i | 0 <= i < |s| :: s[i].next == s[After(|s|, i)] && s[i].prev == s[Before(|s|, i)]
  }

  /** Where an element of b + a is in a + b, for |a| == m and |a| + |b| == n. */
  function Turned(n: nat, m: nat, k: nat): (i: nat)
    requires m <= n && k < n
    ensures i < n
  {
    if k + m < n then k + m else k + m - n
  }

  lemma TurnedAt(a: seq<Node>, b: seq<Node>, k: nat)
    requires k < |a + b|
    ensures (b + a)[k] == (a + b)[Turned(|a + b|, |a|, k)]
  {
  }

  lemma TurnedNeighbours(n: nat, m: nat, k: nat)
    requires m <= n && k < n
    ensures Turned(n, m, After(n, k)) == After(n, Turned(n, m, k))
    ensures Turned(n, m, Before(n, k)) == Before(n, Turned(n, m, k))
  {
  }

  lemma RotatedAt(a: seq<Node>, b: seq<Node>, k: nat)
    requires Linked(a + b) && k < |a + b|
    ensures var n := |a + b|; (b + a)[k].next == (b + a)[After(n, k)] && (b + a)[k].prev == (b + a)[Before(n, k)]
  {
    hide Linked, Turned;
    var n := |a + b|;
    TurnedAt(a, b, k);
    TurnedAt(a, b, After(n, k));
    TurnedAt(a, b, Before(n, k));
    TurnedNeighbours(n, |a|, k);
    LinkedAt(a + b, Turned(n, |a|, k));
  }

  /** A circle may be cut anywhere. */
  lemma Rotate(a: seq<Node>, b: seq<Node>)
    requires Linked(a + b)
    ensures Linked(b + a)
  {
    hide Linked, NoDup;
    RotateNoDup(a, b);
    assert |b + a| == |a + b|;
    forall k | 0 <= k < |b + a|
      ensures (b + a)[k].next == (b + a)[After(|b + a|, k)] && (b + a)[k].prev == (b + a)[Before(|b + a|, k)]
    {
      RotatedAt(a, b, k);
    }
    IsLinked(b + a);
  }

  lemma LinkedAt(s: seq<Node>, i: nat)
    requires Linked(s) && i < |s|
    ensures s[i].next == s[After(|s|, i)] && s[i].prev == s[Before(|s|, i)]
  {
  }

  lemma IsLinked(s: seq<Node>)
    requires NoDup(s)
    requires forall i | 0 <= i < |s| :: s[i].next == s[After(|s|, i)] && s[i].prev == s[Before(|s|, i)]
    ensures Linked(s)
  {
  }

  lemma RotateNoDup(a: seq<Node>, b: seq<Node>)
    requires Linked(a + b)
    ensures NoDup(b + a)
  {
    var n, m := |a + b|, |a|;
    forall i, j | 0 <= i < j < n ensures (b + a)[i] != (b + a)[j] {
      assert (b + a)[i] == (a + b)[Turned(n, m, i)] && (b + a)[j] == (a + b)[Turned(n, m, j)];
    }
  }

  /** The links of s[i], where `behind` follows the last node and `before` precedes the first. */
  ghost predicate LinksAt(s: seq<Node>, i: nat, behind: Node, before: Node)
    requires i < |s|
    reads s[i]
  {
    && s[i].next == (if i + 1 == |s| then behind else s[i + 1])
    && s[i].prev == (if i == 0 then before else s[i - 1])
  }

  /** The links of a circle with a new node behind the last one. */
  lemma LinkedIn(s: seq<Node>, node: Node)
    requires NoDup(s) && s != [] && node !in s && node.next == s[0] && node.prev == s[|s| - 1]
    requires forall i | 0 <= i < |s| :: LinksAt(s, i, node, node)
    ensures Linked(s + [node])
  {
    var t, n := s + [node], |s|;
    forall i | 0 <= i < |t| ensures t[i].next == t[After(|t|, i)] && t[i].prev == t[Before(|t|, i)] {
      if i < n {
        assert t[i] == s[i] && LinksAt(s, i, node, node);
        assert i + 1 < n ==> t[i + 1] == s[i + 1];
        assert i > 0 ==> t[i - 1] == s[i - 1];
      }
    }
    assert t[n] == node && t[0] == s[0] && t[n - 1] == s[n - 1];
    IsLinked(t);
  }

  /** A new node behind the last one of a circle. */
  method LinkIn(node: Node, next: Node, prev: Node, ghost s: seq<Node>)
    requires Linked(s) && s != [] && next == s[0] && prev == s[|s| - 1] && node !in s
    modifies node`next, node`prev, s
    ensures Linked(s + [node]) && node.Mark() == old(node.Mark())
    ensures forall x | x in s :: x.Mark() == old(x.Mark())
  {
    ghost var n := |s|;
    assert next in s && prev in s;
    ghost var first, last := s[0], s[n - 1];
    forall i | 0 <= i < n ensures LinksAt(s, i, first, last) {
      LinkedAt(s, i);
    }
    hide Linked;
    node.next := next;
    node.prev := prev;
    node.next.prev := node;
    node.prev.next := node;
    forall i | 0 <= i < n ensures LinksAt(s, i, node, node) {
      assert old(LinksAt(s, i, first, last));
      assert i + 1 < n ==> s[i] != s[n - 1];
      assert i > 0 ==> s[i] != s[0];
    }
    LinkedIn(s, node);
  }

  /** The links of a circle from which the last node was taken. */
  lemma LinkedOut(s: seq<Node>, first: Node, last: Node)
    requires NoDup(s) && s != [] && first == s[0] && last == s[|s| - 1]
    requires forall i | 0 <= i < |s| :: LinksAt(s, i, first, last)
    ensures Linked(s)
  {
    forall i | 0 <= i < |s| ensures s[i].next == s[After(|s|, i)] && s[i].prev == s[Before(|s|, i)] {
      assert LinksAt(s, i, first, last);
    }
  }

  lemma NoDupPrefix(s: seq<Node>, node: Node)
    requires NoDup(s + [node])
    ensures NoDup(s) && node !in s
  {
    var t := s + [node];
    forall i, j | 0 <= i < j < |s| ensures s[i] != s[j] {
      assert t[i] != t[j];
    }
    forall i | 0 <= i < |s| ensures s[i] != node {
      assert t[i] != t[|s|];
    }
  }

  /** The node before the head is bridged; its own links stay. */
  method Unlink(node: Node, ghost s: seq<Node>)
    requires Linked(s + [node])
    modifies node, s
    ensures Linked(s) && node.next == old(node.next) && node.prev == old(node.prev)
    ensures forall x | x in s + [node] :: x.Mark() == old(x.Mark())
  {
    ghost var n, t := |s|, s + [node];
    NoDupPrefix(s, node);
    LinksOfLast(s, node);
    hide Linked;
    node.prev.next := node.next;
    node.next.prev := node.prev;
    if s != [] {
      ghost var first, last := s[0], s[n - 1];
      forall i | 0 <= i < n ensures LinksAt(s, i, first, last) {
        assert old(LinksAt(s, i, node, node));
        assert i + 1 < n ==> s[i] != s[n - 1];
        assert i > 0 ==> s[i] != s[0];
      }
      LinkedOut(s, first, last);
    } else {
      LinkedEmpty();
    }
  }

  lemma LinkedEmpty()
    ensures Linked([])
  {
  }

  lemma LinksOfLast(s: seq<Node>, node: Node)
    requires Linked(s + [node])
    ensures node.next == (if s == [] then node else s[0]) && node.prev == (if s == [] then node else s[|s| - 1])
    ensures forall i | 0 <= i < |s| :: LinksAt(s, i, node, node)
  {
    var t := s + [node];
    LinkedAt(t, |s|);
    forall i | 0 <= i < |s| ensures LinksAt(s, i, node, node) {
      assert t[i] == s[i];
      LinkedAt(t, i);
    }
  }

  lemma RotateLast(a: seq<Node>, node: Node, b: seq<Node>)
    requires Linked(a + [node] + b)
    ensures Linked(b + a + [node]) && node !in a + b
  {
    Rotate(a + [node], b);
    assert b + (a + [node]) == b + a + [node];
    LinkedNoDup(b + a + [node]);
    NoDupPrefix(b + a, node);
    assert forall x :: x in a + b ==> x in b + a;
  }

  lemma LinkedNoDup(s: seq<Node>)
    requires Linked(s)
    ensures NoDup(s)
  {
  }

  /** The node between a and b is taken out. */
  method Bridge(node: Node, ghost a: seq<Node>, ghost b: seq<Node>)
    requires Linked(a + [node] + b)
    modifies node, a, b
    ensures Linked(a + b) && node !in a + b
    ensures node.next == old(node.next) && node.prev == old(node.prev)
    ensures forall x | x in a + [node] + b :: x.Mark() == old(x.Mark())
  {
    RotateLast(a, node, b);
    ghost var r := b + a;
    assert forall x :: x in r <==> x in a || x in b;
    hide Linked, NoDup;
    Unlink(node, r);
    Rotate(b, a);
  }

  /** A node goes before the head, which is also behind the end. */
  method LinkFirst(node: Node, head: Node, ghost s: seq<Node>)
    requires Linked(s) && s != [] && head == s[0] && node !in s
    modifies node`next, node`prev, s
    ensures Linked(s + [node]) && Linked([node] + s)
    ensures Items(s) == old(Items(s)) && node.Mark() == old(node.Mark())
  {
    LinkedAt(s, 0);
    hide Linked, NoDup;
    LinkIn(node, head, head.prev, s);
    Rotate(s, [node]);
  }

  /** A node goes behind the one at k. */
  method LinkBehind(node: Node, prev: Node, ghost s: seq<Node>, ghost k: nat)
    requires Linked(s) && k < |s| && prev == s[k] && node !in s
    modifies node`next, node`prev, s
    ensures Linked(s[..k + 1] + [node] + s[k + 1..])
    ensures Items(s) == old(Items(s)) && node.Mark() == old(node.Mark())
  {
    CutBehind(s, k);
    hide Linked, NoDup;
    LinkIn(node, prev.next, prev, s[k + 1..] + s[..k + 1]);
    PutBehind(s, k, node);
  }

  /** The circle read from the node behind the one at k. */
  lemma CutBehind(s: seq<Node>, k: nat)
    requires Linked(s) && k < |s|
    ensures var r := s[k + 1..] + s[..k + 1];
      && Linked(r) && r[0] == s[k].next && r[|r| - 1] == s[k]
      && forall x :: x in r <==> x in s
  {
    var a, b := s[..k + 1], s[k + 1..];
    assert s == a + b;
    LinkedAt(s, k);
    hide Linked;
    Rotate(a, b);
  }

  lemma PutBehind(s: seq<Node>, k: nat, node: Node)
    requires k < |s| && Linked(s[k + 1..] + s[..k + 1] + [node])
    ensures Linked(s[..k + 1] + [node] + s[k + 1..])
  {
    hide Linked;
    var a, b := s[..k + 1], s[k + 1..];
    assert b + a + [node] == b + (a + [node]);
    Rotate(b, a + [node]);
  }

  /** The node between a and b goes behind b, before the head of a. */
  method Relink(node: Node, head: Node, ghost a: seq<Node>, ghost b: seq<Node>)
    requires Linked(a + [node] + b) && a != [] && head == a[0]
    modifies node, a, b
    ensures Linked(a + b + [node])
    ensures forall x | x in a + [node] + b :: x.Mark() == old(x.Mark())
  {
    hide Linked, NoDup;
    Bridge(node, a, b);
    ghost var s := a + b;
    assert s[0] == head && forall x :: x in s <==> x in a || x in b;
    LinkedAt(s, 0);
    LinkIn(node, head, head.prev, s);
  }

  /** The node at i is bridged out; its own links stay. */
  method TakeOut(node: Node, ghost s: seq<Node>, ghost i: nat)
    requires Linked(s) && i < |s| && s[i] == node
    modifies s
    ensures Linked(Without(s, i)) && Items(s) == old(Items(s))
    ensures node.next == s[After(|s|, i)] && node.prev == s[Before(|s|, i)]
  {
    ghost var a, b := s[..i], s[i + 1..];
    assert s == a + [node] + b;
    LinkedAt(s, i);
    hide Linked, NoDup;
    Bridge(node, a, b);
  }

  // ---------------------------------------------------------------- what the tasks are

  /** Before a sequence of nodes is put in another order, and after. */
  lemma ItemsWith(s: seq<Node>, m: seq<Item>, node: Node, at: nat)
    requires Items(s) == m && at <= |s|
    ensures Items(s[..at] + [node] + s[at..]) == m[..at] + [node.Mark()] + m[at..]
  {
  }

  lemma ItemsWithout(s: seq<Node>, m: seq<Item>, i: nat)
    requires Items(s) == m && i < |s|
    ensures Items(Without(s, i)) == Without(m, i)
    ensures Items(Without(s, i) + [s[i]]) == Without(m, i) + [m[i]] && s[i].Mark() == m[i]
  {
  }

  lemma NoDupWithout(s: seq<Node>, i: nat)
    requires NoDup(s) && i < |s|
    ensures forall x: Node :: x in Without(s, i) <==> x in s && x != s[i]
  {
    var r := Without(s, i);
    assert forall j | 0 <= j < |r| :: r[j] == s[if j < i then j else j + 1];
    forall x | x in s && x != s[i] ensures x in r {
      var j :| 0 <= j < |s| && s[j] == x;
      assert r[if j < i then j else j - 1] == x;
    }
  }

  // ---------------------------------------------------------------- the list

  class List {
    var tasks: Node?
    var last: Node?             // last_parent_depends_on
    ghost var nodes: seq<Node>  // from the head on
    ghost var lastAt: int

    ghost predicate Valid()
      reads this, nodes
    {
      && Linked(nodes) && tasks == (if nodes == [] then null else nodes[0])
      && -1 <= lastAt < |nodes| && last == if lastAt < 0 then null else nodes[lastAt]
    }

    ghost function V(): View
      reads this, nodes
    {
      View(Items(nodes), lastAt)
    }

    constructor ()
      ensures Valid() && nodes == [] && V() == View([], -1)
    {
      tasks, last, nodes, lastAt := null, null, [], -1;
    }

    /** priority_list_insert, at the beginning or at the end; with adjust, behind the awaited tasks
        if the new one is not awaited. */
    method Insert(node: Node, begin: bool, adjust: bool)
      requires Valid() && node !in nodes
      modifies this, node`next, node`prev, nodes
      ensures Valid() && V() == Inserted(old(V()), old(node.Mark()), begin, adjust)
      ensures !begin ==> nodes == old(nodes) + [node]
      ensures begin && (!adjust || old(last) == null || old(node.awaited)) ==> nodes == [node] + old(nodes)
      ensures begin && adjust && old(last) != null && !old(node.awaited) ==>
                nodes == old(nodes)[..old(lastAt) + 1] + [node] + old(nodes)[old(lastAt) + 1..]
    {
      ghost var s, m := nodes, Items(nodes);
      hide Linked, NoDup, Items;
      if tasks != null && adjust && begin && last != null && !node.awaited {
        PutBehindLast(node);
      } else {
        PutAtEnd(node, begin);
      }
      AtEnds(s, node);
      AtEnds(m, node.Mark());
      if adjust && last == null && node.awaited {
        last := node;
        lastAt := if begin then 0 else |nodes| - 1;
      }
    }

    /** priority_list_remove; tells whether the list became empty. */
    method Remove(node: Node, ghost i: nat) returns (empty: bool)
      requires Valid() && i < |nodes| && nodes[i] == node && node != last
      modifies this, nodes
      ensures Valid() && V() == Removed(old(V()), i)
      ensures nodes == Without(old(nodes), i) && empty == (nodes == [])
    {
      hide Linked, Items, Without;
      ghost var s, m := nodes, Items(nodes);
      HeadAndNext(s, i);
      WithoutAt(s, i, if lastAt < 0 then After(|s|, i) else lastAt);
      WithoutAt(s, i, 0);
      WithoutAt(s, i, After(|s|, i));
      TakeOut(node, s, i);
      ItemsWithout(s, m, i);
      empty := false;
      if tasks == node {
        if node.next != node {
          tasks := node.next;
        } else {
          tasks := null;
          empty := true;
        }
      }
      nodes, lastAt := Without(s, i), if i < lastAt then lastAt - 1 else lastAt;
    }

    /** priority_list_downgrade_task: the task that is about to become TIED goes to the end of
        the list, unless no WAITING task follows it. */
    method Downgrade(node: Node, ghost i: nat)
      requires Valid() && i < |nodes| && nodes[i] == node
      modifies this, nodes
      ensures Valid() && V() == Downgraded(old(V()), i)
      ensures nodes == Moved(old(nodes), i, Moves(old(Items(nodes)), i))
      ensures if i == 0 || (i + 1 < |old(nodes)| && old(nodes[i + 1].waiting)) then nodes == Without(old(nodes), i) + [node]
              else nodes == old(nodes)
    {
      hide Linked, Items, Moves, Moved;
      ghost var s, m := nodes, Items(nodes);
      ghost var at := PlaceAfter(m, i, i);
      MovedAt(s, m, i, i);
      WhenMoved(s, m, i);
      hide PlaceAfter, Without;
      Reorder(node, i);
      LastMoves(node, at);
    }

    /** The neighbour before it becomes the last awaited task, if it is one. */
    method LastMoves(node: Node, ghost at: nat)
      requires Valid() && at < |nodes| && nodes[at] == node
      modifies this`last, this`lastAt
      ensures Valid()
      ensures var s, k := Items(nodes), Before(|nodes|, at);
        lastAt == if s[at].awaited && old(lastAt) == at then (if k != at && Rank(s[k]) == 0 then k else -1) else old(lastAt)
    {
      LinkedAt(nodes, at);
      SameNode(nodes, at, Before(|nodes|, at));
      SameNode(nodes, at, if lastAt < 0 then at else lastAt);
      hide Linked;
      if node.awaited && last == node {
        var before := node.prev;
        if before != node && before.waiting && before.awaited {
          last, lastAt := before, Before(|nodes|, at);
        } else {
          last, lastAt := null, -1;
        }
      }
    }

    method Reorder(node: Node, ghost i: nat)
      requires Valid() && i < |nodes| && nodes[i] == node
      modifies this`tasks, this`nodes, this`lastAt, nodes
      ensures Valid() && Items(nodes) == Reordered(old(Items(nodes)), i)
      ensures nodes == Moved(old(nodes), i, Moves(old(Items(nodes)), i))
      ensures lastAt == PlaceAfter(old(Items(nodes)), i, old(lastAt))
    {
      hide Linked, Items, Moved, Moves, Reordered;
      ghost var s, m := nodes, Items(nodes);
      LastMovedAt(s, m, i, lastAt);
      hide PlaceAfter;
      RelinkTo(node, i);
      ItemsMoved(s, m, i);
      nodes, lastAt := Moved(s, i, Moves(m, i)), PlaceAfter(m, i, lastAt);
    }

    method RelinkTo(node: Node, ghost i: nat)
      requires Valid() && i < |nodes| && nodes[i] == node
      modifies this`tasks, nodes
      ensures var r := Moved(nodes, i, Moves(old(Items(nodes)), i)); Linked(r) && tasks == r[0]
      ensures Items(nodes) == old(Items(nodes))
    {
      ghost var s, m := nodes, Items(nodes);
      HeadAndNext(s, i);
      assert m[i] == node.Mark() && m[After(|s|, i)] == node.next.Mark();
      MovedAt(s, m, i, After(|s|, i));
      MovedAt(s, m, i, 0);
      hide Linked, Items;
      if tasks == node {
        tasks := node.next;
        RotateFirst(s);
      } else if node.next != tasks {
        if node.next.waiting {
          MoveToEnd(node, i);
        }
      }
    }

    /** The node is taken from inside the list and linked in behind the last one. */
    method MoveToEnd(node: Node, ghost i: nat)
      requires Valid() && 0 < i < |nodes| && nodes[i] == node
      modifies nodes
      ensures Linked(Without(nodes, i) + [node]) && Items(nodes) == old(Items(nodes))
    {
      ghost var s, a, b := nodes, nodes[..i], nodes[i + 1..];
      assert s == a + [node] + b && tasks == a[0];
      hide Linked, NoDup;
      Relink(node, tasks, a, b);
    }

    /** gomp_task_run_pre: the task is moved out of the way and becomes TIED. */
    method Start(node: Node, ghost i: nat)
      requires Valid() && i < |nodes| && nodes[i] == node
      modifies this, nodes
      ensures Valid() && V() == Started(old(V()), i)
      ensures nodes == Moved(old(nodes), i, Moves(old(Items(nodes)), i))
    {
      ghost var s, m := nodes, Items(nodes);
      MovedAt(s, m, i, i);
      hide Linked, Items, Moves, Moved, Downgraded;
      Downgrade(node, i);
      Tie(node, PlaceAfter(m, i, i));
    }

    method Tie(node: Node, ghost at: nat)
      requires Valid() && at < |nodes| && nodes[at] == node
      modifies node`waiting
      ensures Valid() && Items(nodes) == old(Items(nodes))[at := node.Mark()] && node.Mark() == old(node.Mark()).(waiting := false)
    {
      assert NoDup(nodes);
      node.waiting := false;
    }

    /** The parent begins to wait for the task, which goes behind the others that it waits for if it is
        WAITING (gomp_task_maybe_wait_for_dependencies). */
    method Await(node: Node, ghost i: nat)
      requires Valid() && i < |nodes| && nodes[i] == node && (node.waiting ==> lastAt < i)
      modifies this, nodes
      ensures Valid() && V() == Awaited(old(V()), i)
      ensures nodes == if old(node.waiting) then Raised(old(nodes), i, old(lastAt)) else old(nodes)
    {
      Flag(node, i);
      if node.waiting {
        Upgrade(node, i);
      }
    }

    method Flag(node: Node, ghost at: nat)
      requires Valid() && at < |nodes| && nodes[at] == node
      modifies node`awaited
      ensures Valid() && Items(nodes) == old(Items(nodes))[at := node.Mark()] && node.Mark() == old(node.Mark()).(awaited := true)
    {
      assert NoDup(nodes);
      node.awaited := true;
    }

    /** priority_list_upgrade_task: the task goes behind last, or to the front. */
    method Upgrade(node: Node, ghost i: nat)
      requires Valid() && lastAt < i < |nodes| && nodes[i] == node
      modifies this, nodes
      ensures Valid() && V() == Upgraded(old(V()), i)
      ensures nodes == Raised(old(nodes), i, old(lastAt))
      ensures old(lastAt) + 1 < |nodes| && nodes[old(lastAt) + 1] == node && Without(nodes, old(lastAt) + 1) == Without(old(nodes), i)
    {
      hide Linked, Items, Raised, Upgraded, Without;
      ghost var k, d, t := lastAt, Upgraded(V(), i), Raised(nodes, i, lastAt);
      RaisedAt(nodes, Items(nodes), i, k);
      RaisedKeeps(nodes, i, k, t);
      Raise(node, i, t, d.items);
      nodes, last, lastAt := t, node, k + 1;
    }

    method Raise(node: Node, ghost i: nat, ghost t: seq<Node>, ghost d: seq<Item>)
      requires Valid() && lastAt < i < |nodes| && nodes[i] == node
      requires t == Raised(nodes, i, lastAt) && d == Upgraded(V(), i).items
      modifies this`tasks, nodes
      ensures Linked(t) && t != [] && tasks == t[0] && Items(t) == d
    {
      hide Linked, Items, Raised, Upgraded, Without, NoDup;
      RaisedAt(nodes, Items(nodes), i, lastAt);
      SameNode(nodes, i, 0);
      if last != null {
        MoveBehindLast(node, i, t, d);
      } else if node != tasks {
        MoveToFront(node, i, t, d);
        tasks := node;
      } else {
        FrontStays(nodes, Items(nodes));
      }
    }

    method MoveBehindLast(node: Node, ghost i: nat, ghost t: seq<Node>, ghost d: seq<Item>)
      requires Valid() && 0 <= lastAt < i < |nodes| && nodes[i] == node
      requires t == Raised(nodes, i, lastAt) && d == Upgraded(V(), i).items
      modifies nodes
      ensures Linked(t) && Items(t) == d
    {
      hide Linked, Items, Without, Upgraded, Raised, NoDup;
      ghost var s, m, r, k := nodes, Items(nodes), Without(nodes, i), lastAt;
      RaisedIs(s, i, k, t);
      TakeOut(node, s, i);
      ItemsWithout(s, m, i);
      LinkBehind(node, last, r, k);
      ItemsRaised(s, m, i, k, node);
    }

    method MoveToFront(node: Node, ghost i: nat, ghost t: seq<Node>, ghost d: seq<Item>)
      requires Valid() && lastAt == -1 && 0 < i < |nodes| && nodes[i] == node
      requires t == Raised(nodes, i, lastAt) && d == Upgraded(V(), i).items
      modifies nodes
      ensures Linked(t) && Items(t) == d
    {
      hide Linked, Items, Without, Upgraded, Raised, NoDup;
      ghost var s, m, r := nodes, Items(nodes), Without(nodes, i);
      RaisedIs(s, i, -1, t);
      TakeOut(node, s, i);
      ItemsWithout(s, m, i);
      LinkFirst(node, tasks, r);
      ItemsRaised(s, m, i, -1, node);
    }

    method PutBehindLast(node: Node)
      requires Valid() && node !in nodes && last != null
      modifies this`nodes, node`next, node`prev, nodes
      ensures Valid() && V().items == old(Items(nodes))[..lastAt + 1] + [node.Mark()] + old(Items(nodes))[lastAt + 1..]
      ensures nodes == old(nodes)[..lastAt + 1] + [node] + old(nodes)[lastAt + 1..] && node.Mark() == old(node.Mark())
    {
      ghost var s, m := nodes, Items(nodes);
      hide Linked, NoDup, Items;
      LinkBehind(node, last, nodes, lastAt);
      ItemsWith(s, m, node, lastAt + 1);
      nodes := s[..lastAt + 1] + [node] + s[lastAt + 1..];
    }

    method PutAtEnd(node: Node, begin: bool)
      requires Valid() && node !in nodes
      modifies this`nodes, this`tasks, this`lastAt, node`next, node`prev, nodes
      ensures Valid() && V().items == if begin then [node.Mark()] + old(Items(nodes)) else old(Items(nodes)) + [node.Mark()]
      ensures nodes == (if begin then [node] + old(nodes) else old(nodes) + [node]) && node.Mark() == old(node.Mark())
      ensures lastAt == if begin && old(lastAt) >= 0 then old(lastAt) + 1 else old(lastAt)
    {
      ghost var s, m := nodes, Items(nodes);
      hide Linked, Items;
      LinkAtEnd(node);
      ItemsAtEnds(s, m, node);
      if tasks == null || begin {
        tasks := node;
      }
      nodes := if begin then [node] + s else s + [node];
      if begin && lastAt >= 0 { lastAt := lastAt + 1; }
    }

    method LinkAtEnd(node: Node)
      requires Valid() && node !in nodes
      modifies node`next, node`prev, nodes
      ensures Linked(nodes + [node]) && Linked([node] + nodes)
      ensures Items(nodes) == old(Items(nodes)) && node.Mark() == old(node.Mark())
    {
      if tasks != null {
        hide Linked, NoDup;
        LinkFirst(node, tasks, nodes);
      } else {
        node.next, node.prev := node, node;
        assert [node] + nodes == [node];
      }
    }
  }

  lemma ItemsAtEnds(s: seq<Node>, m: seq<Item>, node: Node)
    requires Items(s) == m
    ensures Items([node] + s) == [node.Mark()] + m && Items(s + [node]) == m + [node.Mark()]
  {
  }

  lemma AtEnds<T>(s: seq<T>, x: T)
    ensures s[..0] + [x] + s[0..] == [x] + s && s[..|s|] + [x] + s[|s|..] == s + [x]
  {
  }

  lemma RotateFirst(s: seq<Node>)
    requires Linked(s) && s != []
    ensures Linked(Without(s, 0) + [s[0]])
  {
    assert s == [s[0]] + s[1..] && Without(s, 0) == s[1..];
    Rotate([s[0]], s[1..]);
  }

  ghost function Moved(s: seq<Node>, i: nat, moves: bool): seq<Node>
    requires i < |s|
  {
    if moves then Without(s, i) + [s[i]] else s
  }

  /** Where the nodes are then. */
  lemma MovedAt(s: seq<Node>, m: seq<Item>, i: nat, k: nat)
    requires i < |s| == |m| && k < |s|
    ensures var r, at := Moved(s, i, Moves(m, i)), PlaceAfter(m, i, k);
      |r| == |s| && 0 <= at < |s| && r[at] == s[k]
  {
  }

  lemma WhenMoved(s: seq<Node>, m: seq<Item>, i: nat)
    requires Items(s) == m && i < |s|
    ensures Moved(s, i, Moves(m, i)) == if i == 0 || (i + 1 < |s| && s[i + 1].waiting) then Without(s, i) + [s[i]] else s
  {
  }

  lemma LastMovedAt(s: seq<Node>, m: seq<Item>, i: nat, last: int)
    requires i < |s| == |m| && -1 <= last < |s|
    ensures var r, at := Moved(s, i, Moves(m, i)), PlaceAfter(m, i, last);
      |r| == |s| && if last < 0 then at == -1 else 0 <= at < |s| && r[at] == s[last]
  {
    if last >= 0 { MovedAt(s, m, i, last); }
  }

  lemma ItemsMoved(s: seq<Node>, m: seq<Item>, i: nat)
    requires Items(s) == m && i < |s|
    ensures Items(Moved(s, i, Moves(m, i))) == Reordered(m, i)
  {
    ItemsWithout(s, m, i);
    hide Items;
  }

  lemma SameNode(s: seq<Node>, i: nat, k: nat)
    requires Linked(s) && i < |s| && k < |s|
    ensures s[k] == s[i] <==> k == i
  {
  }

  lemma WithoutAt(s: seq<Node>, i: nat, k: nat)
    requires i < |s| && k < |s|
    ensures |Without(s, i)| == |s| - 1 && (k != i ==> Without(s, i)[if k > i then k - 1 else k] == s[k])
  {
  }

  /** The node at i goes behind the one at k, or to the front. */
  ghost function Raised(s: seq<Node>, i: nat, k: int): seq<Node>
    requires -1 <= k < i < |s|
  {
    Without(s, i)[..k + 1] + [s[i]] + Without(s, i)[k + 1..]
  }

  lemma RaisedAt(s: seq<Node>, m: seq<Item>, i: nat, k: int)
    requires -1 <= k < i < |s| == |m|
    ensures var r := Raised(s, i, k); |r| == |s| && r[k + 1] == s[i] && (k >= 0 ==> r[0] == s[0])
    ensures Upgraded(View(m, k), i).last == k + 1
  {
  }

  /** Nothing else has moved. */
  lemma RaisedKeeps(s: seq<Node>, i: nat, k: int, r: seq<Node>)
    requires -1 <= k < i < |s| == |r| && r == Raised(s, i, k)
    ensures Without(r, k + 1) == Without(s, i)
  {
  }

  lemma RaisedIs(s: seq<Node>, i: nat, k: int, t: seq<Node>)
    requires Linked(s) && -1 <= k < i < |s| && t == Raised(s, i, k)
    ensures var r := Without(s, i);
      && |r| == |s| - 1 && s[i] !in r && (forall j | 0 <= j < |r| :: r[j] in s)
      && (if k < 0 then t == [s[i]] + r && (r != [] && i > 0 ==> r[0] == s[0])
          else r[k] == s[k] && t == r[..k + 1] + [s[i]] + r[k + 1..])
  {
    NoDupWithout(s, i);
    var r := Without(s, i);
    assert forall j | 0 <= j < |r| :: r[j] in r;
    if k < 0 {
      assert t == [s[i]] + r;
    }
  }

  lemma ItemsRaised(s: seq<Node>, m: seq<Item>, i: nat, k: int, node: Node)
    requires -1 <= k < i < |s| == |m| && s[i] == node && Items(Without(s, i)) == Without(m, i) && node.Mark() == m[i]
    ensures Items(Raised(s, i, k)) == Upgraded(View(m, k), i).items
  {
    ItemsWith(Without(s, i), Without(m, i), node, k + 1);
    hide Items;
  }

  lemma FrontStays(s: seq<Node>, m: seq<Item>)
    requires Items(s) == m && s != []
    ensures Raised(s, 0, -1) == s && Upgraded(View(m, -1), 0).items == m
  {
  }

  lemma HeadAndNext(s: seq<Node>, i: nat)
    requires Linked(s) && i < |s|
    ensures s[0] == s[i] <==> i == 0
    ensures s[i].next == s[After(|s|, i)] && (s[i].next == s[i] <==> |s| == 1) && (s[i].next == s[0] <==> i + 1 == |s|)
    ensures forall k | 0 <= k < |s| :: s[k] == s[i] ==> k == i
  {
    LinkedAt(s, i);
    assert NoDup(s);
  }
}
