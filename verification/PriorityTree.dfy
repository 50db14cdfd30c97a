/** A queue of tasks with priorities: one list while all tasks have priority 0, and a splay tree
    of lists from the first other priority on (priority_queue.h:204-215, 288-361, 371-408 and
    446-480, priority_queue.c:171-231).

  The lists are values here; `PriorityList` shows how they are relinked in place.
 */
module PriorityTree {
  import opened Collections
  import opened Options
  import opened SplayShape
  import opened SplayTree
  import opened PriorityQueue

  /** The tasks of a queue after an insertion at the beginning or the end of a priority. */
  function Added(tasks: Lists, item: Item, priority: int, begin: bool): Lists {
    var old_ := if priority in tasks then tasks[priority] else [];
    tasks[priority := if begin then [item] + old_ else old_ + [item]]
  }

  /** And after the removal of the task at position i of a priority. */
  function Removed(tasks: Lists, priority: int, i: nat): Lists
    requires priority in tasks && i < |tasks[priority]|
  {
    if |tasks[priority]| == 1 then tasks - {priority} else tasks[priority := Without(tasks[priority], i)]
  }

  /** The task is the first or the last of its priority, and all others are where they were. */
  ghost predicate IsAdded(tasks: Lists, tasks': Lists, item: Item, priority: int, begin: bool) {
    && tasks'.Keys == tasks.Keys + {priority}
    && (forall p | p in tasks && p != priority :: tasks'[p] == tasks[p])
    && var t := tasks'[priority];
       t != [] && if begin then t[0] == item && SameTasks(tasks, priority, t[1..])
                  else t[|t| - 1] == item && SameTasks(tasks, priority, t[..|t| - 1])
  }

  ghost predicate SameTasks(tasks: Lists, priority: int, t: seq<Item>) {
    if priority in tasks then t == tasks[priority] else t == []
  }

  /** Exactly the task at i is gone, with its priority if it was the only one. */
  ghost predicate IsRemoved(tasks: Lists, tasks': Lists, priority: int, i: nat)
    requires priority in tasks
  {
    && (forall p | p in tasks && p != priority :: p in tasks' && tasks'[p] == tasks[p])
    && (forall p | p in tasks' :: p in tasks)
    && (priority in tasks' <==> |tasks[priority]| > 1)
    && (priority in tasks' ==>
          && |tasks'[priority]| == |tasks[priority]| - 1
          && forall k | 0 <= k < |tasks'[priority]| :: tasks'[priority][k] == tasks[priority][if k < i then k else k + 1])
  }

  lemma AddedIs(tasks: Lists, item: Item, priority: int, begin: bool)
    ensures IsAdded(tasks, Added(tasks, item, priority, begin), item, priority, begin)
  {
  }

  lemma RemovedIs(tasks: Lists, priority: int, i: nat)
    requires priority in tasks && i < |tasks[priority]|
    ensures IsRemoved(tasks, Removed(tasks, priority, i), priority, i)
  {
  }

  class Queue {
    const tree: SplayTree
    var lists: Lists     // the list in each node of the tree, by priority
    var list: seq<Item>  // used while the tree is empty

    ghost predicate Valid()
      reads this, tree, Nodes(tree.shape)
    {
      && tree.Valid()
      && lists.Keys == tree.Contents().Keys
      && (forall p | p in lists :: lists[p] != [])
      && (lists != map[] ==> list == [])
    }

    /** The tasks of every priority that has some. */
    function Tasks(): Lists
      reads this
    {
      if list == [] then lists else lists[0 := list]
    }

    constructor ()
      ensures Valid() && Tasks() == map[]
    {
      tree := new SplayTree();
      lists, list := map[], [];
    }

    /** priority_queue_insert. */
    method Insert(item: Item, priority: nat, begin: bool)
      requires Valid()
      modifies this, tree, Nodes(tree.shape)
      ensures Valid() && Tasks() == Added(old(Tasks()), item, priority, begin)
    {
      RootTellsEmpty();
      if tree.root != null || priority > 0 {
        if tree.root == null && list != [] {
          NewPriority(0);
          lists, list := lists[0 := list], [];
        }
        InsertInTree(item, priority, begin);
      } else {
        list := if begin then [item] + list else list + [item];
      }
    }

    /** The list of the priority, which is made if there is none, gets the task. */
    method InsertInTree(item: Item, priority: nat, begin: bool)
      requires Valid() && list == []
      modifies this`lists, tree, Nodes(tree.shape)
      ensures Valid() && lists == Added(old(lists), item, priority, begin)
    {
      var node := tree.Lookup(priority);
      var tasks := [];
      if node == null {
        NewPriority(priority);
      } else {
        tasks := lists[priority];
      }
      lists := lists[priority := if begin then [item] + tasks else tasks + [item]];
    }

    method NewPriority(priority: int)
      requires tree.Valid() && priority !in tree.Contents()
      modifies tree, Nodes(tree.shape)
      ensures tree.Valid() && tree.Contents().Keys == old(tree.Contents()).Keys + {priority}
      ensures fresh(Nodes(tree.shape) - old(Nodes(tree.shape)))
    {
      assert allocated(Nodes(tree.shape));
      var node := new Node(priority);
      var ok := tree.Insert(node);
      assert ok;
    }

    lemma RootTellsEmpty()
      requires Valid()
      ensures tree.root == null <==> lists == map[]
    {
      var t := tree.shape;
      RootOf(tree.root, t, 0);
      if t.Fork? {
        TreeMapHas(t, t.node.key);
      }
    }

    /** priority_queue_remove of the task at position i of its list; tells whether the queue
        became empty. */
    method Remove(priority: int, i: nat) returns (empty: bool)
      requires Valid() && priority in Tasks() && i < |Tasks()[priority]|
      modifies this, tree, Nodes(tree.shape)
      ensures Valid() && Tasks() == Removed(old(Tasks()), priority, i)
      ensures empty == (Tasks() == map[])
    {
      RootTellsEmpty();
      if tree.root != null {
        var tasks := Without(lists[priority], i);
        if tasks == [] {
          tree.Remove(priority);
          lists := lists - {priority};
        } else {
          lists := lists[priority := tasks];
        }
        RootTellsEmpty();
        empty := tree.root == null;
      } else {
        list := Without(list, i);
        empty := list == [];
      }
    }

    /** priority_tree_next_task_1. */
    method NextBelow(node: Node?, ghost t: Shape) returns (found: Option<Found>)
      requires Bst(t) && Is(node, t) && ListsOk(t, lists)
      ensures found == NextInTree(t, lists)
      decreases t
    {
      if node == null { return None; }
      assert t.node in Nodes(t);
      Down(node, t);
      assert allocated(Nodes(t.left));
      found := NextBelow(node.right, t.right);
      if found.Some? { return; }
      var head := lists[node.key][0];
      if head.waiting { return Some(Found(node.key, head)); }
      found := NextBelow(node.left, t.left);
    }

    /** priority_queue_next_task on one queue: a WAITING task of the highest priority that any has,
        or some other task if there is none. */
    method Next() returns (f: Found)
      requires Valid() && Tasks() != map[] && forall p | p in Tasks() :: WaitingFirst(Tasks()[p])
      ensures f.priority in Tasks() && Tasks()[f.priority] != [] && f.item == Tasks()[f.priority][0]
      ensures f.item.waiting <==> exists p :: p in Tasks() && SomeWaiting(Tasks()[p])
      ensures f.item.waiting ==> forall p | p in Tasks() :: SomeWaiting(Tasks()[p]) ==> p <= f.priority
    {
      RootTellsEmpty();
      ghost var q := View();
      ViewIsValid();
      NextTaskIsHighest(q);
      if tree.root != null {
        var found := NextBelow(tree.root, tree.shape);
        SearchIsRight(tree.shape, lists);
        if found.Some? {
          f := found.value;
        } else {
          TreeMapHas(tree.shape, tree.root.key);
          f := Found(tree.root.key, lists[tree.root.key][0]);
        }
      } else {
        f := Found(0, list[0]);
      }
      assert f == NextTask(q);
      assert list == [] ==> Tasks() == lists;
    }

    /** The queue as `PriorityQueue` has it. */
    ghost function View(): PriorityQueue.Queue
      reads this, tree
    {
      PriorityQueue.Queue(tree.shape, lists, list)
    }

    lemma ViewIsValid()
      requires Valid() && forall p | p in Tasks() :: WaitingFirst(Tasks()[p])
      ensures PriorityQueue.Valid(View()) && forall p: int :: HasWaiting(View(), p) <==> p in Tasks() && SomeWaiting(Tasks()[p])
    {
      RootTellsEmpty();
      var t := tree.shape;
      forall n | n in Nodes(t) ensures n.key in lists && WaitingFirst(lists[n.key]) {
        TreeMapHas(t, n.key);
        assert Tasks()[n.key] == lists[n.key];
      }
      assert list != [] ==> Tasks()[0] == list;
      forall p: int ensures HasWaiting(View(), p) <==> p in Tasks() && SomeWaiting(Tasks()[p]) {
        TreeMapHas(t, p);
      }
    }
  }
}
