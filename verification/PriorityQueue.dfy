/** The search for the next task in a queue with several priorities: priority_tree_next_task_1
    (priority_queue.c:216-231) and priority_queue_next_task for one queue
    (priority_queue.h:371-408).

  The tree of priorities is the splay tree of `SplayTree`; `lists` gives the tasks of each
  priority from the head of their circular list on, in the order that `PriorityOrder` shows to be kept.
 */
module PriorityQueue {
  import opened Options
  import opened SplayShape

  datatype Item = Item(task: nat, waiting: bool)

  /** A found task and its priority. */
  datatype Found = Found(priority: int, item: Item)

  ghost predicate WaitingFirst(s: seq<Item>) {
    forall i, j :: 0 <= i < j < |s| && s[j].waiting ==> s[i].waiting
  }

  ghost predicate SomeWaiting(s: seq<Item>) {
    exists i :: 0 <= i < |s| && s[i].waiting
  }

  type Lists = map<int, seq<Item>>

  /** Every priority in the tree has a list, which is not empty. */
  ghost predicate ListsOk(t: Shape, lists: Lists) {
    forall n | n in Nodes(t) :: n.key in lists && lists[n.key] != [] && WaitingFirst(lists[n.key])
  }

  /** The right-most priority whose list has a WAITING head. */
  function NextInTree(t: Shape, lists: Lists): Option<Found>
    requires ListsOk(t, lists)
  {
    if t == Leaf then None
    else
      assert t.node in Nodes(t);
      var right := NextInTree(t.right, lists);
      var head := lists[t.node.key][0];
      if right.Some? then right
      else if head.waiting then Some(Found(t.node.key, head))
      else NextInTree(t.left, lists)
  }

  ghost predicate WaitingAt(t: Shape, lists: Lists, priority: int)
    requires ListsOk(t, lists)
  {
    exists n :: n in Nodes(t) && n.key == priority && SomeWaiting(lists[priority])
  }

  lemma HeadTells(s: seq<Item>)
    requires WaitingFirst(s) && s != []
    ensures s[0].waiting <==> SomeWaiting(s)
  {
    if SomeWaiting(s) {
      var i :| 0 <= i < |s| && s[i].waiting;
      assert i == 0 || s[0].waiting;
    }
  }

  /** The search finds a WAITING task whenever there is one, and one of the highest priority that
      any WAITING task has. */
  lemma {:induction false} SearchIsRight(t: Shape, lists: Lists)
    requires Bst(t) && ListsOk(t, lists)
    ensures NextInTree(t, lists) == None <==> forall p: int :: !WaitingAt(t, lists, p)
    ensures NextInTree(t, lists).Some? ==>
      var f := NextInTree(t, lists).value;
      && f.item.waiting && f.priority in lists && lists[f.priority] != [] && f.item == lists[f.priority][0] && WaitingAt(t, lists, f.priority)
      && forall p: int :: WaitingAt(t, lists, p) ==> p <= f.priority
  {
    if t.Fork? {
      assert t.node in Nodes(t);
      HeadTells(lists[t.node.key]);
      SearchIsRight(t.left, lists);
      SearchIsRight(t.right, lists);
      forall p: int
        ensures WaitingAt(t, lists, p) <==>
          WaitingAt(t.left, lists, p) || WaitingAt(t.right, lists, p) || (p == t.node.key && SomeWaiting(lists[p]))
      {
        Parts(t, lists, p);
      }
      forall p: int ensures WaitingAt(t.left, lists, p) ==> p < t.node.key {
      }
    }
  }

  lemma Parts(t: Shape, lists: Lists, p: int)
    requires t.Fork? && ListsOk(t, lists)
    ensures WaitingAt(t, lists, p) <==>
      WaitingAt(t.left, lists, p) || WaitingAt(t.right, lists, p) || (p == t.node.key && SomeWaiting(lists[p]))
  {
    assert Nodes(t) == Nodes(t.left) + {t.node} + Nodes(t.right);
    hide SomeWaiting;
    if n :| n in Nodes(t.left) && n.key == p && SomeWaiting(lists[p]) { assert n in Nodes(t); }
    if n :| n in Nodes(t.right) && n.key == p && SomeWaiting(lists[p]) { assert n in Nodes(t); }
    if p == t.node.key { assert t.node in Nodes(t); }
  }

  /** A queue is one list for priority 0 while its tree is empty. */
  datatype Queue = Queue(tree: Shape, lists: Lists, list: seq<Item>)

  ghost predicate Valid(q: Queue) {
    Bst(q.tree) && ListsOk(q.tree, q.lists) && WaitingFirst(q.list)
  }

  ghost predicate HasWaiting(q: Queue, priority: int)
    requires Valid(q)
  {
    if q.tree.Fork? then WaitingAt(q.tree, q.lists, priority) else priority == 0 && SomeWaiting(q.list)
  }

  /** priority_queue_next_task, which callers only use on a queue that is not empty. */
  function NextTask(q: Queue): Found
    requires ListsOk(q.tree, q.lists) && (q.tree.Fork? || q.list != [])
  {
    if q.tree.Fork? then
      var found := NextInTree(q.tree, q.lists);
      assert q.tree.node in Nodes(q.tree);
      if found.Some? then found.value else Found(q.tree.node.key, q.lists[q.tree.node.key][0])
    else
      Found(0, q.list[0])
  }

  /** The task it returns is WAITING exactly when the queue has a WAITING task, and then no other
      WAITING task has a higher priority. */
  lemma NextTaskIsHighest(q: Queue)
    requires Valid(q) && (q.tree.Fork? || q.list != [])
    ensures var f := NextTask(q);
      && (f.item.waiting <==> exists p: int :: HasWaiting(q, p))
      && (f.item.waiting ==> HasWaiting(q, f.priority) && forall p: int :: HasWaiting(q, p) ==> p <= f.priority)
  {
    if q.tree.Fork? {
      SearchIsRight(q.tree, q.lists);
      assert q.tree.node in Nodes(q.tree);
      HeadTells(q.lists[q.tree.node.key]);
      assert !WaitingAt(q.tree, q.lists, q.tree.node.key) ==> !q.lists[q.tree.node.key][0].waiting;
      assert forall p: int :: HasWaiting(q, p) <==> WaitingAt(q.tree, q.lists, p);
    } else {
      HeadTells(q.list);
      assert SomeWaiting(q.list) ==> HasWaiting(q, 0);
    }
  }
}
