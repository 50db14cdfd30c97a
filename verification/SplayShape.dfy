/** The splay of splay-tree.c:75-130 on shapes: what the pointer rotations do to the tree, why
    they stop, and where they leave the key.

  A shape records which node is where.  The keys of nodes never change, and prio_splay_compare
  (priority_queue.c:289-295) orders them as integers.
 */
module SplayShape {

  class Node {
    const key: int
    var left: Node?
    var right: Node?

    constructor (key: int)
      ensures this.key == key
    {
      this.key := key;
    }
  }

  datatype Shape = Leaf | Fork(left: Shape, node: Node, right: Shape)

  function InOrder(t: Shape): seq<Node> {
    if t == Leaf then [] else InOrder(t.left) + [t.node] + InOrder(t.right)
  }

  ghost function Nodes(t: Shape): set<Node> {
    if t == Leaf then {} else Nodes(t.left) + {t.node} + Nodes(t.right)
  }

  ghost predicate Bst(t: Shape) {
    t.Fork? ==>
      && Bst(t.left) && Bst(t.right)
      && (forall n | n in Nodes(t.left) :: n.key < t.node.key)
      && (forall n | n in Nodes(t.right) :: t.node.key < n.key)
  }

  function Top(t: Shape): Node? {
    if t == Leaf then null else t.node
  }

  /** What the fields of node x must be. */
  ghost function FieldsOf(t: Shape, x: Node): (Node?, Node?)
    requires x in Nodes(t)
  {
    if x == t.node then (Top(t.left), Top(t.right))
    else if x in Nodes(t.left) then FieldsOf(t.left, x)
    else FieldsOf(t.right, x)
  }

  /** The fields of the nodes spell out the shape. */
  ghost predicate Is(n: Node?, t: Shape)
    reads Nodes(t)
  {
    n == Top(t) && forall x | x in Nodes(t) :: (x.left, x.right) == FieldsOf(t, x)
  }

  lemma Down(n: Node, t: Shape)
    requires t.Fork? && Bst(t) && Is(n, t)
    ensures Is(n.left, t.left) && Is(n.right, t.right)
  {
    assert n in Nodes(t);
    forall x | x in Nodes(t.left) ensures (x.left, x.right) == FieldsOf(t.left, x) {
      assert x in Nodes(t);
    }
    forall x | x in Nodes(t.right) ensures (x.left, x.right) == FieldsOf(t.right, x) {
      assert x in Nodes(t) && x !in Nodes(t.left);
    }
  }

  lemma Up(n: Node, t: Shape)
    requires t.Fork? && Bst(t) && n == t.node && Is(n.left, t.left) && Is(n.right, t.right)
    ensures Is(n, t)
  {
    forall x | x in Nodes(t) ensures (x.left, x.right) == FieldsOf(t, x) {
      assert x == n || x in Nodes(t.left) || x in Nodes(t.right);
    }
  }

  predicate HasLeft(t: Shape) {
    t.Fork? && t.left.Fork?
  }

  predicate HasRight(t: Shape) {
    t.Fork? && t.right.Fork?
  }

  /** rotate_left: the left child rises. */
  function LeftRises(t: Shape): Shape
    requires HasLeft(t)
  {
    Fork(t.left.left, t.left.node, Fork(t.left.right, t.node, t.right))
  }

  /** rotate_right: the right child rises. */
  function RightRises(t: Shape): Shape
    requires HasRight(t)
  {
    Fork(Fork(t.left, t.node, t.right.left), t.right.node, t.right.right)
  }

  /** The child on the side of the key. */
  function Child(t: Shape, key: int): Shape
    requires t.Fork?
  {
    if key < t.node.key then t.left else t.right
  }

  predicate AtNode(t: Shape, key: int) {
    t.Fork? && t.node.key == key
  }

  /** The search for the key ends at the root, or one below it. */
  predicate StopsHere(t: Shape, key: int) {
    t == Leaf || AtNode(t, key) || Child(t, key) == Leaf
  }

  predicate StopsBelow(t: Shape, key: int)
    requires !StopsHere(t, key)
  {
    StopsHere(Child(t, key), key)
  }

  function ChildRises(t: Shape, key: int): Shape
    requires !StopsHere(t, key)
  {
    if key < t.node.key then LeftRises(t) else RightRises(t)
  }

  function WithChild(t: Shape, key: int, c: Shape): Shape
    requires t.Fork?
  {
    if key < t.node.key then t.(left := c) else t.(right := c)
  }

  /** The double rotation: the lower edge is turned first, on either side. */
  function GrandchildRises(t: Shape, key: int): Shape
    requires !StopsHere(t, key) && !StopsBelow(t, key)
  {
    var t1 := WithChild(t, key, ChildRises(Child(t, key), key));
    if key < t.node.key then LeftRises(t1) else RightRises(t1)
  }

  /** The number of nodes that a search for the key visits. */
  function PathLength(t: Shape, key: int): nat {
    if t == Leaf then 0 else if AtNode(t, key) then 1 else 1 + PathLength(Child(t, key), key)
  }

  /** The search turns the same way at the root and at the node below it. */
  predicate SameTurns(t: Shape, key: int) {
    && !StopsHere(t, key) && !StopsHere(Child(t, key), key)
    && (key < t.node.key <==> key < Child(t, key).node.key)
  }

  /** Each double rotation shortens the search path, or keeps its length and makes the first
      two turns differ; the latter happens only when they agreed. */
  lemma DoubleRotationDecreases(t: Shape, key: int)
    requires !StopsHere(t, key) && !StopsBelow(t, key)
    ensures var t' := GrandchildRises(t, key);
      || PathLength(t', key) < PathLength(t, key)
      || (PathLength(t', key) == PathLength(t, key) && SameTurns(t, key) && !SameTurns(t', key))
  {
    var c := Child(t, key);
    var g, t' := Child(c, key), GrandchildRises(t, key);
    assert t'.Fork? && t'.node == g.node;
    assert PathLength(t, key) == 2 + PathLength(g, key);
    if !AtNode(g, key) {
      assert PathLength(t, key) == 3 + PathLength(Child(g, key), key);
      var d := Child(t', key);
      if d != Child(g, key) {
        assert d.Fork? && !AtNode(d, key) && PathLength(t', key) == 2 + PathLength(Child(d, key), key);
        if Child(d, key) != Child(g, key) {
          assert Child(d, key).Fork? && !AtNode(Child(d, key), key);
          assert Child(Child(d, key), key) == Child(g, key);
        }
      }
    }
  }

  /** Exactly when the length stays: the first two turns agree and the third goes back, so that the
      node below, turned over the two above it, puts both of them on the path again. */
  lemma WhenLengthStays(t: Shape, key: int)
    requires !StopsHere(t, key) && !StopsBelow(t, key)
    ensures var g := Child(Child(t, key), key);
      PathLength(GrandchildRises(t, key), key) == PathLength(t, key) <==>
        SameTurns(t, key) && g.node.key != key && (g.node.key < key <==> key < t.node.key)
  {
    var c := Child(t, key);
    var g, t' := Child(c, key), GrandchildRises(t, key);
    assert PathLength(t, key) == 2 + PathLength(g, key);
    if !AtNode(g, key) {
      var d := Child(t', key);
      assert PathLength(t', key) == 1 + PathLength(d, key);
      if d != Child(g, key) {
        assert PathLength(d, key) == 1 + PathLength(Child(d, key), key);
        if Child(d, key) != Child(g, key) {
          assert Child(Child(d, key), key) == Child(g, key);
        }
      }
    }
  }

  /** The shape that the loop of splay_tree_splay ends with. */
  function Splayed(t: Shape, key: int): Shape
    decreases PathLength(t, key), SameTurns(t, key)
  {
    if StopsHere(t, key) then t
    else if StopsBelow(t, key) then ChildRises(t, key)
    else
      DoubleRotationDecreases(t, key);
      Splayed(GrandchildRises(t, key), key)
  }

  // ---------------------------------------------------------------- what a splay keeps

  /** It does stay: keys 30, 20 and 10 down the left, and a search for 15. */
  lemma LengthCanStay(top: Node, middle: Node, low: Node)
    requires top.key == 30 && middle.key == 20 && low.key == 10
    ensures var t := Fork(Fork(Fork(Leaf, low, Leaf), middle, Leaf), top, Leaf);
      && Bst(t) && !StopsHere(t, 15) && !StopsBelow(t, 15)
      && PathLength(GrandchildRises(t, 15), 15) == PathLength(t, 15) == 3
  {
    var l := Fork(Leaf, low, Leaf);
    var m := Fork(l, middle, Leaf);
    LeftOf(Leaf, low, 15);
    LeftOf(l, middle, 15);
    LeftOf(m, top, 15);
    var m' := Fork(Leaf, middle, Leaf);
    var t' := Fork(m', top, Leaf);
    LeftOf(Leaf, middle, 15);
    LeftOf(m', top, 15);
    hide Bst, PathLength, Nodes;
    assert GrandchildRises(Fork(m, top, Leaf), 15) == Fork(Leaf, low, t');
    RightOf(low, t', 15);
  }

  lemma LeftOf(c: Shape, n: Node, key: int)
    requires Bst(c) && forall x | x in Nodes(c) :: x.key < n.key
    ensures var t := Fork(c, n, Leaf); Bst(t) && Nodes(t) == Nodes(c) + {n}
    ensures key < n.key ==> PathLength(Fork(c, n, Leaf), key) == 1 + PathLength(c, key)
    ensures c == Leaf ==> PathLength(Fork(c, n, Leaf), key) == 1
  {
  }

  lemma RightOf(n: Node, c: Shape, key: int)
    requires n.key < key
    ensures PathLength(Fork(Leaf, n, c), key) == 1 + PathLength(c, key)
  {
  }

  lemma LeftRisesKeeps(t: Shape)
    requires HasLeft(t)
    ensures InOrder(LeftRises(t)) == InOrder(t)
    ensures Nodes(LeftRises(t)) == Nodes(t)
    ensures Bst(t) ==> Bst(LeftRises(t))
  {
    var t', c := LeftRises(t), t.left;
    assert InOrder(c) == InOrder(c.left) + [c.node] + InOrder(c.right);
    assert InOrder(t'.right) == InOrder(c.right) + [t.node] + InOrder(t.right);
    assert Nodes(c) == Nodes(c.left) + {c.node} + Nodes(c.right);
    assert Nodes(t'.right) == Nodes(c.right) + {t.node} + Nodes(t.right);
    if Bst(t) {
      assert c.node in Nodes(c) && Bst(c);
      assert Bst(t'.right);
    }
  }

  lemma RightRisesKeeps(t: Shape)
    requires HasRight(t)
    ensures InOrder(RightRises(t)) == InOrder(t)
    ensures Nodes(RightRises(t)) == Nodes(t)
    ensures Bst(t) ==> Bst(RightRises(t))
  {
    var t', c := RightRises(t), t.right;
    assert InOrder(c) == InOrder(c.left) + [c.node] + InOrder(c.right);
    assert InOrder(t'.left) == InOrder(t.left) + [t.node] + InOrder(c.left);
    assert Nodes(c) == Nodes(c.left) + {c.node} + Nodes(c.right);
    assert Nodes(t'.left) == Nodes(t.left) + {t.node} + Nodes(c.left);
    if Bst(t) {
      assert c.node in Nodes(c) && Bst(c);
      assert Bst(t'.left);
    }
  }

  lemma ChildRisesKeeps(t: Shape, key: int)
    requires !StopsHere(t, key)
    ensures InOrder(ChildRises(t, key)) == InOrder(t)
    ensures Nodes(ChildRises(t, key)) == Nodes(t)
    ensures Bst(t) ==> Bst(ChildRises(t, key))
  {
    if key < t.node.key { LeftRisesKeeps(t); } else { RightRisesKeeps(t); }
  }

  lemma GrandchildRisesKeeps(t: Shape, key: int)
    requires !StopsHere(t, key) && !StopsBelow(t, key)
    ensures InOrder(GrandchildRises(t, key)) == InOrder(t)
    ensures Nodes(GrandchildRises(t, key)) == Nodes(t)
    ensures Bst(t) ==> Bst(GrandchildRises(t, key))
  {
    var c := Child(t, key);
    ChildRisesKeeps(c, key);
    var t1 := WithChild(t, key, ChildRises(c, key));
    assert InOrder(t1) == InOrder(t) && Nodes(t1) == Nodes(t) && (Bst(t) ==> Bst(t1));
    assert !StopsHere(t1, key) && GrandchildRises(t, key) == ChildRises(t1, key);
    ChildRisesKeeps(t1, key);
  }

  /** Splaying keeps the nodes and their order. */
  lemma {:induction false} SplayKeeps(t: Shape, key: int)
    ensures InOrder(Splayed(t, key)) == InOrder(t)
    ensures Nodes(Splayed(t, key)) == Nodes(t)
    ensures Bst(t) ==> Bst(Splayed(t, key))
    decreases PathLength(t, key), SameTurns(t, key)
  {
    if StopsHere(t, key) {
    } else if StopsBelow(t, key) {
      ChildRisesKeeps(t, key);
    } else {
      DoubleRotationDecreases(t, key);
      GrandchildRisesKeeps(t, key);
      SplayKeeps(GrandchildRises(t, key), key);
    }
  }

  lemma RootOf(n: Node?, t: Shape, key: int)
    requires Is(n, t)
    ensures n == null <==> t == Leaf
    ensures t == Leaf ==> Splayed(t, key) == Leaf
  {
  }

  lemma {:induction false} KeepsFork(t: Shape, key: int)
    requires t.Fork?
    ensures Splayed(t, key).Fork?
    ensures !StopsHere(t, key) && !StopsBelow(t, key) ==>
      GrandchildRises(t, key).Fork? && Splayed(t, key) == Splayed(GrandchildRises(t, key), key)
    decreases PathLength(t, key), SameTurns(t, key)
  {
    if !StopsHere(t, key) && !StopsBelow(t, key) {
      DoubleRotationDecreases(t, key);
      KeepsFork(GrandchildRises(t, key), key);
    }
  }

  /** No key of the tree lies between the key at the root and the given one; in particular the
      root has the given key if any node has. */
  ghost predicate RootIsNearest(t: Shape, key: int) {
    t.Fork? ==>
      && (t.node.key < key ==> forall n | n in Nodes(t.right) :: key < n.key)
      && (key < t.node.key ==> forall n | n in Nodes(t.left) :: n.key < key)
  }

  /** After a splay the root has the key, or is next to where it would be. */
  lemma {:induction false} SplayFinds(t: Shape, key: int)
    requires Bst(t)
    ensures RootIsNearest(Splayed(t, key), key)
    decreases PathLength(t, key), SameTurns(t, key)
  {
    if StopsHere(t, key) {
    } else if StopsBelow(t, key) {
    } else {
      DoubleRotationDecreases(t, key);
      GrandchildRisesKeeps(t, key);
      SplayFinds(GrandchildRises(t, key), key);
    }
  }

  ghost predicate HasKey(t: Shape, key: int) {
    exists n :: n in Nodes(t) && n.key == key
  }

  lemma NearestIsMatch(t: Shape, key: int)
    requires Bst(t) && RootIsNearest(t, key)
    ensures HasKey(t, key) <==> AtNode(t, key)
  {
    if t.Fork? && t.node.key == key {
      assert t.node in Nodes(t);
    }
  }

  // ---------------------------------------------------------------- contents

  /** The map from keys to nodes that a sequence of nodes stands for. */
  ghost function MapOf(s: seq<Node>): map<int, Node> {
    if s == [] then map[] else MapOf(s[1..])[s[0].key := s[0]]
  }

  /** Keys increase along the sequence. */
  ghost predicate Increasing(s: seq<Node>) {
    forall i, j :: 0 <= i < j < |s| ==> s[i].key < s[j].key
  }

  lemma {:induction false} InOrderIncreases(t: Shape)
    requires Bst(t)
    ensures Increasing(InOrder(t))
    ensures forall n :: n in InOrder(t) <==> n in Nodes(t)
  {
    forall n ensures n in InOrder(t) <==> n in Nodes(t) {
      InOrderHas(t, n);
    }
    if t.Fork? {
      InOrderIncreases(t.left);
      InOrderIncreases(t.right);
      SidesAreApart(t);
      JoinedIncreases(InOrder(t.left), t.node, InOrder(t.right));
    }
  }

  lemma {:induction false} InOrderHas(t: Shape, n: Node)
    ensures n in InOrder(t) <==> n in Nodes(t)
  {
    if t.Fork? {
      InOrderHas(t.left, n);
      InOrderHas(t.right, n);
    }
  }
  lemma SidesAreApart(t: Shape)
    requires Bst(t) && t.Fork?
    ensures forall x | x in InOrder(t.left) :: x.key < t.node.key
    ensures forall x | x in InOrder(t.right) :: t.node.key < x.key
  {
    forall x | x in InOrder(t.left) ensures x.key < t.node.key {
      InOrderHas(t.left, x);
    }
    forall x | x in InOrder(t.right) ensures t.node.key < x.key {
      InOrderHas(t.right, x);
    }
  }

  lemma JoinedIncreases(l: seq<Node>, n: Node, r: seq<Node>)
    requires Increasing(l) && Increasing(r)
    requires (forall x | x in l :: x.key < n.key) && (forall x | x in r :: n.key < x.key)
    ensures Increasing(l + [n] + r)
  {
    var s := l + [n] + r;
    forall i, j | 0 <= i < j < |s| ensures s[i].key < s[j].key {
      assert i < |l| ==> s[i] == l[i] && l[i] in l;
      assert j > |l| ==> s[j] == r[j - |l| - 1] && r[j - |l| - 1] in r;
      assert i > |l| ==> s[i] == r[i - |l| - 1];
      assert j < |l| ==> s[j] == l[j];
    }
  }

  lemma {:induction false} MapKeys(s: seq<Node>, key: int)
    ensures key in MapOf(s) <==> exists i :: 0 <= i < |s| && s[i].key == key
  {
    if s != [] {
      MapKeys(s[1..], key);
      if i :| 0 <= i < |s[1..]| && s[1..][i].key == key {
        assert s[i + 1].key == key;
      }
      if i :| 0 <= i < |s| && s[i].key == key {
        assert i > 0 ==> s[1..][i - 1].key == key;
      }
    }
  }

  lemma {:induction false} MapWithout(a: seq<Node>, x: Node, b: seq<Node>)
    requires Increasing(a + [x] + b)
    ensures MapOf(a + [x] + b) == MapOf(a + b)[x.key := x]
    ensures x.key !in MapOf(a + b)
  {
    MapKeys(a + b, x.key);
    forall i | 0 <= i < |a + b| ensures (a + b)[i].key != x.key {
      assert (a + b)[i] == (a + [x] + b)[if i < |a| then i else i + 1];
      assert (a + [x] + b)[|a|] == x;
    }
    if a != [] {
      var s := a + [x] + b;
      assert s[1..] == a[1..] + [x] + b && (a + b)[1..] == a[1..] + b;
      assert forall i | 0 <= i < |s| - 1 :: s[1..][i] == s[i + 1];
      MapWithout(a[1..], x, b);
      assert s[0].key < s[|a|].key;
    } else {
      assert a + [x] + b == [x] + b && a + b == b;
    }
  }

  // ---------------------------------------------------------------- joining two trees

  /** r hung off the right-most node of l. */
  function Hang(l: Shape, r: Shape): Shape {
    if l == Leaf then r else l.(right := Hang(l.right, r))
  }

  function Last(t: Shape): Node
    requires t.Fork?
  {
    if t.right == Leaf then t.node else Last(t.right)
  }

  lemma {:induction false} HangInOrder(l: Shape, r: Shape)
    ensures InOrder(Hang(l, r)) == InOrder(l) + InOrder(r)
  {
    if l.Fork? {
      HangInOrder(l.right, r);
      assert InOrder(Hang(l, r)) == InOrder(l.left) + [l.node] + (InOrder(l.right) + InOrder(r));
    }
  }

  lemma {:induction false} LastIsNode(l: Shape)
    requires l.Fork?
    ensures Last(l) in Nodes(l)
  {
    if l.right.Fork? { LastIsNode(l.right); }
  }

  lemma {:induction false} HangNodes(l: Shape, r: Shape)
    ensures Nodes(Hang(l, r)) == Nodes(l) + Nodes(r)
  {
    if l.Fork? { HangNodes(l.right, r); }
  }

  ghost predicate Below(l: Shape, r: Shape) {
    forall x, y | x in Nodes(l) && y in Nodes(r) :: x.key < y.key
  }

  lemma {:induction false} HangBst(l: Shape, r: Shape)
    requires Bst(l) && Bst(r) && Below(l, r)
    ensures Bst(Hang(l, r))
  {
    if l.Fork? {
      assert forall n | n in Nodes(l.right) :: n in Nodes(l);
      assert l.node in Nodes(l);
      HangBst(l.right, r);
      HangNodes(l.right, r);
    }
  }

  /** l, with r stored in the right field of its last node, is l with r hung off. */
  lemma HungIs(l: Shape, r: Shape)
    requires l.Fork? && Bst(l) && Bst(r) && Below(l, r) && Is(Top(r), r)
    requires forall x | x in Nodes(l) ::
      (x.left, x.right) == if x == Last(l) then (FieldsOf(l, x).0, Top(r)) else FieldsOf(l, x)
    ensures Is(l.node, Hang(l, r))
  {
    HangNodes(l, r);
    forall x | x in Nodes(Hang(l, r)) ensures (x.left, x.right) == FieldsOf(Hang(l, r), x) {
      HangFields(l, r, x);
    }
  }

  /** Hanging a tree changes one field of one node. */
  lemma {:induction false} HangFields(l: Shape, r: Shape, x: Node)
    requires l.Fork? && Bst(l) && Below(l, r) && x in Nodes(l) + Nodes(r)
    ensures Last(l) in Nodes(l) && x in Nodes(Hang(l, r))
    ensures FieldsOf(Hang(l, r), x) ==
      if x in Nodes(r) then FieldsOf(r, x) else if x == Last(l) then (FieldsOf(l, x).0, Top(r)) else FieldsOf(l, x)
  {
    LastIsNode(l);
    HangNodes(l, r);
    HangNodes(l.right, r);
    var t := Hang(l, r);
    assert x in Nodes(r) ==> x !in Nodes(l);
    if x == l.node || x in Nodes(l.left) {
      assert l.right.Fork? ==> Last(l) in Nodes(l.right) by { if l.right.Fork? { LastIsNode(l.right); } }
      assert FieldsOf(t, x) == if x == l.node then (Top(l.left), Top(t.right)) else FieldsOf(l.left, x);
    } else {
      assert FieldsOf(t, x) == FieldsOf(t.right, x);
      if l.right.Fork? {
        assert Below(l.right, r);
        HangFields(l.right, r, x);
        assert x in Nodes(l) ==> FieldsOf(l, x) == FieldsOf(l.right, x);
      }
    }
  }

  lemma {:induction false} HangNothing(l: Shape)
    ensures Hang(l, Leaf) == l
  {
    if l.Fork? { HangNothing(l.right); }
  }

  // ---------------------------------------------------------------- insert and remove

  lemma {:induction false} MapHas(s: seq<Node>, n: Node)
    requires Increasing(s) && n in s
    ensures n.key in MapOf(s) && MapOf(s)[n.key] == n
  {
    if s[0] != n {
      assert forall i | 0 <= i < |s| - 1 :: s[1..][i] == s[i + 1];
      MapHas(s[1..], n);
      var i :| 0 <= i < |s| && s[i] == n;
      assert s[0].key < s[i].key;
    }
  }

  /** The map of a tree has a key exactly when a node has it. */
  lemma TreeMapHas(t: Shape, key: int)
    requires Bst(t)
    ensures key in MapOf(InOrder(t)) <==> HasKey(t, key)
  {
    hide Bst, InOrder, Nodes, MapOf, Increasing;
    var s := InOrder(t);
    InOrderIncreases(t);
    MapKeys(s, key);
    if key in MapOf(s) {
      var i :| 0 <= i < |s| && s[i].key == key;
      assert s[i] in s;
    }
    if HasKey(t, key) {
      var n :| n in Nodes(t) && n.key == key;
      assert n in s;
    }
  }

  /** After a splay, the root tells whether the key is there. */
  lemma RootTells(t: Shape, key: int)
    requires Bst(t) && RootIsNearest(t, key)
    ensures key in MapOf(InOrder(t)) <==> AtNode(t, key)
    ensures AtNode(t, key) ==> MapOf(InOrder(t))[key] == t.node
  {
    NearestIsMatch(t, key);
    TreeMapHas(t, key);
    if AtNode(t, key) {
      assert t.node in Nodes(t);
      InOrderIncreases(t);
      MapHas(InOrder(t), t.node);
    }
  }

  /** A new node at the root of a splayed tree. */
  function Rooted(t: Shape, node: Node): Shape {
    if t == Leaf then Fork(Leaf, node, Leaf)
    else if t.node.key < node.key then Fork(t.(right := Leaf), node, t.right)
    else Fork(t.left, node, t.(left := Leaf))
  }

  lemma RootedBst(t: Shape, node: Node)
    requires Bst(t) && RootIsNearest(t, node.key) && !AtNode(t, node.key)
    ensures Bst(Rooted(t, node)) && Nodes(Rooted(t, node)) == Nodes(t) + {node}
  {
    if t.Fork? {
      assert Nodes(t.(right := Leaf)) == Nodes(t.left) + {t.node};
      assert Nodes(t.(left := Leaf)) == {t.node} + Nodes(t.right);
    }
  }

  /** The nodes in order before and behind the place of a new one. */
  function Before(t: Shape, node: Node): seq<Node> {
    if t == Leaf then [] else if t.node.key < node.key then InOrder(t.left) + [t.node] else InOrder(t.left)
  }

  function Behind(t: Shape, node: Node): seq<Node> {
    if t == Leaf then [] else if t.node.key < node.key then InOrder(t.right) else [t.node] + InOrder(t.right)
  }

  lemma RootedOrder(t: Shape, node: Node)
    ensures InOrder(t) == Before(t, node) + Behind(t, node)
    ensures InOrder(Rooted(t, node)) == Before(t, node) + [node] + Behind(t, node)
  {
    if t.Fork? {
      var lower, upper := t.(right := Leaf), t.(left := Leaf);
      assert InOrder(lower) == InOrder(t.left) + [t.node];
      assert InOrder(upper) == [t.node] + InOrder(t.right);
      if t.node.key < node.key {
        assert InOrder(Rooted(t, node)) == InOrder(lower) + [node] + InOrder(t.right);
      } else {
        assert InOrder(Rooted(t, node)) == InOrder(t.left) + [node] + InOrder(upper);
      }
    }
  }

  lemma RootedKeeps(t: Shape, node: Node)
    requires Bst(t) && RootIsNearest(t, node.key) && !AtNode(t, node.key)
    ensures Bst(Rooted(t, node)) && Nodes(Rooted(t, node)) == Nodes(t) + {node}
    ensures MapOf(InOrder(Rooted(t, node))) == MapOf(InOrder(t))[node.key := node]
  {
    hide *;
    RootedBst(t, node);
    InOrderIncreases(Rooted(t, node));
    RootedOrder(t, node);
    MapWithout(Before(t, node), node, Behind(t, node));
  }

  lemma RemovedKeeps(t: Shape)
    requires Bst(t) && t.Fork?
    ensures Bst(Hang(t.left, t.right)) && Nodes(Hang(t.left, t.right)) == Nodes(t) - {t.node}
    ensures MapOf(InOrder(Hang(t.left, t.right))) == MapOf(InOrder(t)) - {t.node.key}
  {
    hide *;
    ForkParts(t);
    HangBst(t.left, t.right);
    HangNodes(t.left, t.right);
    InOrderIncreases(t);
    HangInOrder(t.left, t.right);
    MapWithout(InOrder(t.left), t.node, InOrder(t.right));
  }

  lemma ForkParts(t: Shape)
    requires Bst(t) && t.Fork?
    ensures Bst(t.left) && Bst(t.right) && Below(t.left, t.right)
    ensures InOrder(t) == InOrder(t.left) + [t.node] + InOrder(t.right)
    ensures Nodes(t.left) + Nodes(t.right) == Nodes(t) - {t.node}
  {
  }
}
