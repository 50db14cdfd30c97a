/** The splay tree of splay-tree.c:42-214, updated in place, proved to be a map from keys to
    nodes.  The ghost shape says which node is where; `SplayShape` says what a splay does to it.
 */
module SplayTree {
  import opened SplayShape

  /** rotate_left; the caller stores the result where it had the pointer to p. */
  method RotateLeft(p: Node, n: Node, ghost t: Shape) returns (top: Node)
    requires HasLeft(t) && Bst(t) && Is(p, t) && n == p.left
    modifies p, n
    ensures top == n && Is(top, LeftRises(t))
  {
    Down(p, t);
    Down(n, t.left);
    LeftRisesKeeps(t);
    var tmp := n.right;
    n.right := p;
    p.left := tmp;
    top := n;
    Up(p, LeftRises(t).right);
    Up(n, LeftRises(t));
  }

  method RotateRight(p: Node, n: Node, ghost t: Shape) returns (top: Node)
    requires HasRight(t) && Bst(t) && Is(p, t) && n == p.right
    modifies p, n
    ensures top == n && Is(top, RightRises(t))
  {
    Down(p, t);
    Down(n, t.right);
    RightRisesKeeps(t);
    var tmp := n.left;
    n.left := p;
    p.right := tmp;
    top := n;
    Up(p, RightRises(t).left);
    Up(n, RightRises(t));
  }

  /** The lower of the two rotations, on either side of n. */
  method TurnLeftChild(n: Node, c: Node, key: int, ghost t: Shape)
    requires HasLeft(t) && !StopsHere(t.left, key) && Bst(t) && Is(n, t) && c == n.left
    modifies Nodes(t)
    ensures Is(n, t.(left := ChildRises(t.left, key)))
  {
    ghost var child, rest := t.left, t.right;
    ghost var t1 := t.(left := ChildRises(child, key));
    ChildRisesKeeps(child, key);
    assert Bst(t1) && n !in Nodes(child) && n !in Nodes(rest) && Nodes(child) !! Nodes(rest);
    Down(n, t);
    Down(c, child);
    assert c in Nodes(child) && (key < c.key ==> c.left in Nodes(child)) && (key > c.key ==> c.right in Nodes(child));
    assert allocated(Nodes(rest));
    hide Is, Bst, Nodes;
    var g: Node;
    if key < c.key {
      g := RotateLeft(c, c.left, child);
    } else {
      g := RotateRight(c, c.right, child);
    }
    n.left := g;
    Up(n, t1);
  }

  method TurnRightChild(n: Node, c: Node, key: int, ghost t: Shape)
    requires HasRight(t) && !StopsHere(t.right, key) && Bst(t) && Is(n, t) && c == n.right
    modifies Nodes(t)
    ensures Is(n, t.(right := ChildRises(t.right, key)))
  {
    ghost var child, rest := t.right, t.left;
    ghost var t1 := t.(right := ChildRises(child, key));
    ChildRisesKeeps(child, key);
    assert Bst(t1) && n !in Nodes(child) && n !in Nodes(rest) && Nodes(child) !! Nodes(rest);
    Down(n, t);
    Down(c, child);
    assert c in Nodes(child) && (key < c.key ==> c.left in Nodes(child)) && (key > c.key ==> c.right in Nodes(child));
    assert allocated(Nodes(rest));
    hide Is, Bst, Nodes;
    var g: Node;
    if key < c.key {
      g := RotateLeft(c, c.left, child);
    } else {
      g := RotateRight(c, c.right, child);
    }
    n.right := g;
    Up(n, t1);
  }

  /** The four cases of double rotation: the lower edge first, then the upper one. */
  method DoubleRotation(n: Node, c: Node, key: int, ghost t: Shape) returns (top: Node)
    requires !StopsHere(t, key) && !StopsBelow(t, key) && Bst(t) && Is(n, t) && c == Child(t, key).node
    modifies Nodes(t)
    ensures Is(top, GrandchildRises(t, key))
  {
    ghost var child := Child(t, key);
    ghost var t1 := WithChild(t, key, ChildRises(child, key));
    ChildRisesKeeps(child, key);
    assert Bst(t1);
    Down(n, t);
    if key < n.key {
      TurnLeftChild(n, c, key, t);
      top := RotateLeft(n, n.left, t1);
    } else {
      TurnRightChild(n, c, key, t);
      top := RotateRight(n, n.right, t1);
    }
  }

  /** One turn of the loop of splay_tree_splay. */
  method Turn(n: Node, key: int, ghost t: Shape) returns (top: Node, done: bool)
    requires t.Fork? && Bst(t) && Is(n, t)
    modifies Nodes(t)
    ensures if done then Is(top, Splayed(t, key)) else !StopsHere(t, key) && !StopsBelow(t, key) && Is(top, GrandchildRises(t, key))
  {
    if key == n.key { return n, true; }
    var c := if key < n.key then n.left else n.right;
    ghost var child := Child(t, key);
    Down(n, t);
    if c == null { return n, true; }
    Down(c, child);
    if key == c.key || (key < c.key && c.left == null) || (key > c.key && c.right == null) {
      assert StopsBelow(t, key) && c in Nodes(t);
      if key < n.key {
        top := RotateLeft(n, c, t);
      } else {
        top := RotateRight(n, c, t);
      }
      return top, true;
    }
    top := DoubleRotation(n, c, key, t);
    done := false;
  }

  /** The links of a node that becomes the root of a splayed tree. */
  method LinkAtRoot(root: Node?, node: Node, ghost t: Shape)
    requires Is(root, t) && Bst(t) && node !in Nodes(t) && (t.Fork? ==> t.node.key != node.key) && Bst(Rooted(t, node))
    modifies Nodes(t), node
    ensures Is(node, Rooted(t, node))
  {
    if root == null {
      node.left, node.right := null, null;
    } else {
      Down(root, t);
      assert allocated(Nodes(t.left)) && allocated(Nodes(t.right)) && root !in Nodes(t.left) && root !in Nodes(t.right);
      if root.key < node.key {
        node.left := root;
        node.right := node.left.right;
        node.left.right := null;
        Up(root, t.(right := Leaf));
      } else {
        node.right := root;
        node.left := node.right.left;
        node.right.left := null;
        Up(root, t.(left := Leaf));
      }
    }
    Up(node, Rooted(t, node));
  }

  /** The children of a node that goes away become one tree: the right one is hung off the
      right-most leaf of the left one. */
  method JoinChildren(n: Node, ghost t: Shape) returns (top: Node?)
    requires t.Fork? && Bst(t) && Is(n, t)
    modifies Nodes(t)
    ensures Is(top, Hang(t.left, t.right))
  {
    Down(n, t);
    ForkParts(t);
    var left, right := n.left, n.right;
    if left == null { return right; }
    top := left;
    if right == null {
      HangNothing(t.left);
      return;
    }
    ghost var l := t.left;
    LastIsNode(t.left);
    assert allocated(Nodes(t.left)) && allocated(Nodes(t.right));
    while left.right != null
      invariant left != null && l.Fork? && Is(left, l) && Bst(l) && Last(l) == Last(t.left)
      invariant Is(top, t.left) && Is(right, t.right)
      decreases l
    {
      Down(left, l);
      left := left.right;
      l := l.right;
    }
    assert left == Last(t.left) && left !in Nodes(t.right);
    left.right := right;
    assert Is(right, t.right);
    HungIs(t.left, t.right);
  }

  class SplayTree {
    var root: Node?
    ghost var shape: Shape

    ghost predicate Valid()
      reads this, Nodes(shape)
    {
      Is(root, shape) && Bst(shape)
    }

    /** The nodes by their keys. */
    ghost function Contents(): map<int, Node>
      reads this
    {
      MapOf(InOrder(shape))
    }

    constructor ()
      ensures Valid() && Contents() == map[]
    {
      root, shape := null, Leaf;
    }

    method Splay(key: int)
      requires Valid()
      modifies this, Nodes(shape)
      ensures Valid() && shape == Splayed(old(shape), key)
      ensures InOrder(shape) == old(InOrder(shape)) && Nodes(shape) == old(Nodes(shape)) && RootIsNearest(shape, key)
    {
      hide Is, Bst, Nodes, Splayed, GrandchildRises, StopsHere, StopsBelow, PathLength, SameTurns, InOrder;
      RootOf(root, shape, key);
      SplayKeeps(shape, key);
      SplayFinds(shape, key);
      if root == null { return; }
      var done := false;
      while !done
        invariant root != null && Is(root, shape) && Bst(shape) && shape.Fork?
        invariant Nodes(shape) == old(Nodes(shape))
        invariant if done then shape == Splayed(old(shape), key) else Splayed(shape, key) == Splayed(old(shape), key)
        decreases !done, PathLength(shape, key), SameTurns(shape, key)
      {
        SplayKeeps(shape, key);
        KeepsFork(shape, key);
        root, done := Turn(root, key, shape);
        if done {
          shape := Splayed(shape, key);
        } else {
          GrandchildRisesKeeps(shape, key);
          DoubleRotationDecreases(shape, key);
          shape := GrandchildRises(shape, key);
        }
      }
    }

    /** The node with the key, if there is one. */
    method Lookup(key: int) returns (r: Node?)
      requires Valid()
      modifies this, Nodes(shape)
      ensures Valid() && Contents() == old(Contents()) && Nodes(shape) == old(Nodes(shape))
      ensures r == if key in Contents() then Contents()[key] else null
    {
      Splay(key);
      RootTells(shape, key);
      if root != null && root.key == key {
        r := root;
      } else {
        r := null;
      }
    }

    /** The new node becomes the root.  A duplicate is a fatal error, which ok tells. */
    method Insert(node: Node) returns (ok: bool)
      requires Valid() && node !in Nodes(shape)
      modifies this, Nodes(shape), node
      ensures Valid() && ok == (node.key !in old(Contents()))
      ensures Contents() == if ok then old(Contents())[node.key := node] else old(Contents())
      ensures Nodes(shape) <= old(Nodes(shape)) + {node}
    {
      Splay(node.key);
      RootTells(shape, node.key);
      if root != null && root.key == node.key { return false; }
      ok := true;
      RootedKeeps(shape, node);
      LinkAtRoot(root, node, shape);
      root := node;
      shape := Rooted(shape, node);
    }

    /** It is not an error if no node has the key. */
    method Remove(key: int)
      requires Valid()
      modifies this, Nodes(shape)
      ensures Valid() && Contents() == old(Contents()) - {key} && Nodes(shape) <= old(Nodes(shape))
    {
      Splay(key);
      RootTells(shape, key);
      if root != null && root.key == key {
        RemovedKeeps(shape);
        root := JoinChildren(root, shape);
        shape := Hang(shape.left, shape.right);
      }
    }
  }
}
