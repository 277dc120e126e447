/** The AVL tree as the program keeps it: mutable nodes, shared between tree versions.

    A clean node may be reachable from several trees and is copied before it is written; a dirty
    node belongs to one tree and is written in place.  A snapshot (`Snap`) names the nodes of a tree
    and records their fields, `Rep` says that the heap agrees with it, and `View` is its value.  Every
    operation modifies only the dirty nodes of its own tree, so a tree that does not contain them keeps
    its snapshot. */
module AvlHeap {
  import opened Units
  import A = Avl

  class Node {
    var key: UnitId
    var value: Unit
    var left: Node?
    var right: Node?
    var clean: bool
    var depth: int

    constructor Leaf(key: UnitId, value: Unit)
      ensures this.key == key && this.value == value && left == null && right == null && !clean && depth == 1
    {
      this.key := key;
      this.value := value;
      left, right := null, null;
      clean := false;
      depth := 1;
    }

    constructor Balanced(key: UnitId, value: Unit, left: Node?, right: Node?)
      ensures this.key == key && this.value == value && this.left == left && this.right == right && !clean
      ensures depth == A.Max(DepthOf(left), DepthOf(right)) + 1
    {
      this.key := key;
      this.value := value;
      this.left, this.right := left, right;
      clean := false;
      depth := A.Max(DepthOf(left), DepthOf(right)) + 1;
    }

    constructor DirtyCopy(n: Node)
      ensures key == n.key && value == Clone(n.value) && left == n.left && right == n.right && !clean
      ensures depth == n.depth
    {
      key := n.key;
      value := Clone(n.value);
      left, right := n.left, n.right;
      clean := false;
      depth := n.depth;
    }
  }

  /** A snapshot of a tree: for every node its identity and its fields. */
  datatype Snap =
    | E
    | S(node: Node, l: Snap, key: UnitId, value: Unit, depth: int, clean: bool, r: Snap)

  ghost function Nodes(s: Snap): (ns: set<Node>)
  {
    if s.E? then {} else {s.node} + Nodes(s.l) + Nodes(s.r)
  }

  /** The nodes a tree may write in place. */
  ghost function Owned(s: Snap): (ns: set<Node>)
    ensures ns <= Nodes(s)
  {
    if s.E? then {} else (if s.clean then {} else {s.node}) + Owned(s.l) + Owned(s.r)
  }

  /** The nodes a tree may share with others. */
  ghost function Shared(s: Snap): (ns: set<Node>)
    ensures ns <= Nodes(s)
  {
    if s.E? then {} else (if s.clean then {s.node} else {}) + Shared(s.l) + Shared(s.r)
  }

  /** No node occurs twice. */
  ghost predicate Linear(s: Snap)
  {
    s.E? ||
    (s.node !in Nodes(s.l) && s.node !in Nodes(s.r) && Nodes(s.l) !! Nodes(s.r) && Linear(s.l) && Linear(s.r))
  }

  /** The tree of values in a snapshot. */
  ghost function View(s: Snap): (t: A.Tree)
    ensures t.Nil? <==> s.E?
  {
    if s.E? then A.Nil else A.Bin(View(s.l), s.key, s.value, s.depth, s.clean, View(s.r))
  }

  ghost predicate Fields(n: Node, s: Snap)
    requires s.S?
    reads n
  {
    n == s.node && n.key == s.key && n.value == s.value && n.depth == s.depth && n.clean == s.clean
  }

  /** The structure at `n` is exactly what the snapshot says. */
  ghost predicate Rep(n: Node?, s: Snap)
    reads Nodes(s)
  {
    match s
    case E => n == null
    case S(m, l, _, _, _, _, r) => n == m && Fields(m, s) && Rep(m.left, l) && Rep(m.right, r)
  }

  lemma {:induction false} NodesAllocated(s: Snap)
    ensures forall x :: x in Nodes(s) ==> allocated(x)
  {
    if s.S? {
      NodesAllocated(s.l);
      NodesAllocated(s.r);
    }
  }

  function DepthOf(n: Node?): (d: int)
    reads n
  {
    if n == null then 0 else n.depth
  }

  // ----- tree_add.go: rotations -----

  ghost function Dirtied(s: Snap, m: Node): (d: Snap)
    requires s.S?
    ensures d.S?
  {
    S(m, s.l, s.key, if s.clean then Clone(s.value) else s.value, s.depth, false, s.r)
  }

  /** A clean node is copied before it is written. */
  method Writable(n: Node, ghost s: Snap) returns (m: Node)
    requires s.S? && Fields(n, s)
    ensures Fields(m, Dirtied(s, m)) && m.left == n.left && m.right == n.right
    ensures if s.clean then fresh(m) else m == n
  {
    if n.clean {
      m := new Node.DirtyCopy(n);
    } else {
      m := n;
    }
  }

  /** Three subtrees and two nodes, all apart: the pieces of a rotation. */
  ghost predicate Apart(x: Node, y: Node, a: Snap, b: Snap, c: Snap)
  {
    x != y && Linear(a) && Linear(b) && Linear(c) &&
    Nodes(a) !! Nodes(b) && Nodes(a) !! Nodes(c) && Nodes(b) !! Nodes(c) &&
    x !in Nodes(a) && x !in Nodes(b) && x !in Nodes(c) && y !in Nodes(a) && y !in Nodes(b) && y !in Nodes(c)
  }

  /** The snapshot after a right rotation that put the writable nodes at `node` and `tmp`. */
  ghost function RightRotated(s: Snap, node: Node, tmp: Node): (r: Snap)
    requires s.S? && s.l.S?
    ensures r.S?
  {
    var n := Dirtied(s, node);
    var t := Dirtied(s.l, tmp);
    t.(r := n.(l := t.r, depth := A.Max(A.Depth(View(t.r)), A.Depth(View(n.r))) + 1))
  }

  ghost function LeftRotated(s: Snap, node: Node, tmp: Node): (r: Snap)
    requires s.S? && s.r.S?
    ensures r.S?
  {
    var n := Dirtied(s, node);
    var t := Dirtied(s.r, tmp);
    t.(l := n.(r := t.l, depth := A.Max(A.Depth(View(n.l)), A.Depth(View(t.l))) + 1))
  }

  lemma RightRotatedFacts(s: Snap, node: Node, tmp: Node)
    requires s.S? && s.l.S? && Apart(node, tmp, s.l.l, s.l.r, s.r)
    ensures var r := RightRotated(s, node, tmp);
      && View(r) == A.RotateRight(View(s)) && Linear(r) && Shared(r) <= Shared(s)
      && Nodes(r) <= {node, tmp} + Nodes(s) && Owned(r) <= {node, tmp} + Owned(s)
  {
  }

  lemma LeftRotatedFacts(s: Snap, node: Node, tmp: Node)
    requires s.S? && s.r.S? && Apart(node, tmp, s.l, s.r.l, s.r.r)
    ensures var r := LeftRotated(s, node, tmp);
      && View(r) == A.RotateLeft(View(s)) && Linear(r) && Shared(r) <= Shared(s)
      && Nodes(r) <= {node, tmp} + Nodes(s) && Owned(r) <= {node, tmp} + Owned(s)
  {
  }

  lemma OwnedParts(s: Snap)
    requires s.S?
    ensures s.node in Nodes(s) && Nodes(s.l) <= Nodes(s) && Nodes(s.r) <= Nodes(s)
    ensures Owned(s.l) <= Owned(s) && Owned(s.r) <= Owned(s) && (!s.clean ==> s.node in Owned(s))
    ensures Shared(s.l) <= Shared(s) && Shared(s.r) <= Shared(s)
  {
  }

  lemma RightRotatedRep(s: Snap, node: Node, tmp: Node)
    requires s.S? && s.l.S? && Fields(tmp, Dirtied(s.l, tmp))
    requires node.key == s.key && node.value == (if s.clean then Clone(s.value) else s.value) && !node.clean
    requires node.depth == A.Max(A.Depth(View(s.l.r)), A.Depth(View(s.r))) + 1
    requires Rep(tmp.left, s.l.l) && tmp.right == node && Rep(node.left, s.l.r) && Rep(node.right, s.r)
    ensures Rep(tmp, RightRotated(s, node, tmp))
  {
    assert Rep(node, RightRotated(s, node, tmp).r);
  }

  lemma LeftRotatedRep(s: Snap, node: Node, tmp: Node)
    requires s.S? && s.r.S? && Fields(tmp, Dirtied(s.r, tmp))
    requires node.key == s.key && node.value == (if s.clean then Clone(s.value) else s.value) && !node.clean
    requires node.depth == A.Max(A.Depth(View(s.l)), A.Depth(View(s.r.l))) + 1
    requires Rep(node.left, s.l) && tmp.left == node && Rep(node.right, s.r.l) && Rep(tmp.right, s.r.r)
    ensures Rep(tmp, LeftRotated(s, node, tmp))
  {
    assert Rep(node, LeftRotated(s, node, tmp).l);
  }

  /** Makes the two nodes of a right rotation writable. */
  method PrepareRight(n: Node, ghost s: Snap) returns (node: Node, tmp: Node)
    requires s.S? && s.l.S? && Rep(n, s) && Linear(s)
    ensures Fields(node, Dirtied(s, node)) && Fields(tmp, Dirtied(s.l, tmp))
    ensures Apart(node, tmp, s.l.l, s.l.r, s.r) && Rep(tmp.left, s.l.l) && Rep(tmp.right, s.l.r) && Rep(node.right, s.r)
    ensures (if s.clean then fresh(node) else node == n) && (if s.l.clean then fresh(tmp) else tmp == s.l.node)
  {
    ghost var a, b, c := s.l.l, s.l.r, s.r;
    tmp := n.left;
    NodesAllocated(a);
    NodesAllocated(b);
    NodesAllocated(c);
    assert Rep(tmp.left, a) && Rep(tmp.right, b) && Rep(n.right, c) && Fields(tmp, s.l);
    node := Writable(n, s);
    assert Rep(tmp.left, a) && Rep(tmp.right, b) && Rep(n.right, c);
    tmp := Writable(tmp, s.l);
  }

  method PrepareLeft(n: Node, ghost s: Snap) returns (node: Node, tmp: Node)
    requires s.S? && s.r.S? && Rep(n, s) && Linear(s)
    ensures Fields(node, Dirtied(s, node)) && Fields(tmp, Dirtied(s.r, tmp))
    ensures Apart(node, tmp, s.l, s.r.l, s.r.r) && Rep(node.left, s.l) && Rep(tmp.left, s.r.l) && Rep(tmp.right, s.r.r)
    ensures (if s.clean then fresh(node) else node == n) && (if s.r.clean then fresh(tmp) else tmp == s.r.node)
  {
    ghost var a, b, c := s.l, s.r.l, s.r.r;
    tmp := n.right;
    NodesAllocated(a);
    NodesAllocated(b);
    NodesAllocated(c);
    assert Rep(n.left, a) && Rep(tmp.left, b) && Rep(tmp.right, c) && Fields(tmp, s.r);
    node := Writable(n, s);
    assert Rep(n.left, a) && Rep(tmp.left, b) && Rep(tmp.right, c);
    tmp := Writable(tmp, s.r);
  }

  method RelinkRight(node: Node, tmp: Node, ghost s: Snap)
    requires s.S? && s.l.S? && Fields(node, Dirtied(s, node)) && Fields(tmp, Dirtied(s.l, tmp))
    requires Apart(node, tmp, s.l.l, s.l.r, s.r) && Rep(tmp.left, s.l.l) && Rep(tmp.right, s.l.r)
    requires Rep(node.right, s.r)
    modifies node`left, node`depth, tmp`right
    ensures Rep(tmp, RightRotated(s, node, tmp))
  {
    node.left := tmp.right;
    node.depth := A.Max(DepthOf(node.left), DepthOf(node.right)) + 1;
    tmp.right := node;
    RightRotatedRep(s, node, tmp);
  }

  method RelinkLeft(node: Node, tmp: Node, ghost s: Snap)
    requires s.S? && s.r.S? && Fields(node, Dirtied(s, node)) && Fields(tmp, Dirtied(s.r, tmp))
    requires Apart(node, tmp, s.l, s.r.l, s.r.r) && Rep(node.left, s.l) && Rep(tmp.left, s.r.l) && Rep(tmp.right, s.r.r)
    modifies node`right, node`depth, tmp`left
    ensures Rep(tmp, LeftRotated(s, node, tmp))
  {
    node.right := tmp.left;
    node.depth := A.Max(DepthOf(node.left), DepthOf(node.right)) + 1;
    tmp.left := node;
    LeftRotatedRep(s, node, tmp);
  }

  method RotateRight(n: Node, ghost s: Snap) returns (q: Node, ghost s': Snap)
    requires s.S? && s.l.S? && Rep(n, s) && Linear(s) && n == s.node
    modifies Owned(s)
    ensures s'.S? && !s'.clean && q == s'.node && Rep(q, s') && Linear(s') && View(s') == A.RotateRight(View(s))
    ensures forall x :: x in Nodes(s') ==> x in Nodes(s) || fresh(x)
    ensures forall x :: x in Owned(s') ==> x in Owned(s) || fresh(x)
    ensures Shared(s') <= Shared(s)
  {
    hide Rep, Fields, Linear, Nodes, Owned, Shared, View;
    OwnedParts(s);
    OwnedParts(s.l);
    var node, tmp := PrepareRight(n, s);
    RelinkRight(node, tmp, s);
    RightRotatedFacts(s, node, tmp);
    q, s' := tmp, RightRotated(s, node, tmp);
  }

  method RotateLeft(n: Node, ghost s: Snap) returns (q: Node, ghost s': Snap)
    requires s.S? && s.r.S? && Rep(n, s) && Linear(s) && n == s.node
    modifies Owned(s)
    ensures s'.S? && !s'.clean && q == s'.node && Rep(q, s') && Linear(s') && View(s') == A.RotateLeft(View(s))
    ensures forall x :: x in Nodes(s') ==> x in Nodes(s) || fresh(x)
    ensures forall x :: x in Owned(s') ==> x in Owned(s) || fresh(x)
    ensures Shared(s') <= Shared(s)
  {
    hide Rep, Fields, Linear, Nodes, Owned, Shared, View;
    OwnedParts(s);
    OwnedParts(s.r);
    var node, tmp := PrepareLeft(n, s);
    RelinkLeft(node, tmp, s);
    LeftRotatedFacts(s, node, tmp);
    q, s' := tmp, LeftRotated(s, node, tmp);
  }

  /** Puts a new left subtree under `p`. */
  method AttachLeft(p: Node, ghost s: Snap, l: Node?, ghost sl: Snap) returns (ghost s': Snap)
    requires s.S? && Fields(p, s) && Rep(p.right, s.r) && Linear(s.r) && p !in Nodes(s.r)
    requires Rep(l, sl) && Linear(sl) && p !in Nodes(sl) && Nodes(sl) !! Nodes(s.r)
    modifies p`left
    ensures s' == s.(l := sl) && Rep(p, s') && Linear(s')
    ensures Nodes(s') == {p} + Nodes(sl) + Nodes(s.r)
    ensures Owned(s') == (if s.clean then {} else {p}) + Owned(sl) + Owned(s.r)
    ensures Shared(s') == (if s.clean then {p} else {}) + Shared(sl) + Shared(s.r)
  {
    p.left := l;
    s' := s.(l := sl);
  }

  method AttachRight(p: Node, ghost s: Snap, r: Node?, ghost sr: Snap) returns (ghost s': Snap)
    requires s.S? && Fields(p, s) && Rep(p.left, s.l) && Linear(s.l) && p !in Nodes(s.l)
    requires Rep(r, sr) && Linear(sr) && p !in Nodes(sr) && Nodes(s.l) !! Nodes(sr)
    modifies p`right
    ensures s' == s.(r := sr) && Rep(p, s') && Linear(s')
    ensures Nodes(s') == {p} + Nodes(s.l) + Nodes(sr)
    ensures Owned(s') == (if s.clean then {} else {p}) + Owned(s.l) + Owned(sr)
    ensures Shared(s') == (if s.clean then {p} else {}) + Shared(s.l) + Shared(sr)
  {
    p.right := r;
    s' := s.(r := sr);
  }

  method FixDepth(p: Node, ghost s: Snap) returns (ghost s': Snap)
    requires s.S? && Rep(p, s) && Linear(s)
    modifies p`depth
    ensures s' == s.(depth := A.Max(A.Depth(View(s.l)), A.Depth(View(s.r))) + 1) && Rep(p, s') && Linear(s')
    ensures View(s') == A.FixDepth(View(s)) && Nodes(s') == Nodes(s) && Owned(s') == Owned(s) && Shared(s') == Shared(s)
  {
    assert Rep(p.left, s.l) && Rep(p.right, s.r);
    p.depth := A.Max(DepthOf(p.left), DepthOf(p.right)) + 1;
    s' := s.(depth := p.depth);
  }

  lemma ViewParts(s: Snap)
    requires s.S?
    ensures View(s) == A.Bin(View(s.l), s.key, s.value, s.depth, s.clean, View(s.r))
  {
  }

  /** All that a step on a tree may be assumed to know about its node and its two subtrees. */
  lemma Open(n: Node, s: Snap)
    requires Rep(n, s) && Linear(s)
    ensures s.S? && n == s.node && Fields(n, s) && Rep(n.left, s.l) && Rep(n.right, s.r)
    ensures n.key == s.key && n.value == s.value && n.depth == s.depth && n.clean == s.clean
    ensures Linear(s.l) && Linear(s.r) && n !in Nodes(s.l) && n !in Nodes(s.r) && Nodes(s.l) !! Nodes(s.r)
    ensures View(s) == A.Bin(View(s.l), s.key, s.value, s.depth, s.clean, View(s.r))
    ensures DepthOf(n.left) == A.Depth(View(s.l)) && DepthOf(n.right) == A.Depth(View(s.r))
    ensures (n.left == null <==> s.l.E?) && (n.right == null <==> s.r.E?)
    ensures Nodes(s) == {n} + Nodes(s.l) + Nodes(s.r)
    ensures Owned(s) == (if s.clean then {} else {n}) + Owned(s.l) + Owned(s.r)
    ensures Shared(s) == (if s.clean then {n} else {}) + Shared(s.l) + Shared(s.r)
    ensures Owned(s.l) <= Nodes(s.l) && Owned(s.r) <= Nodes(s.r)
    ensures forall x :: x in Nodes(s.l) ==> allocated(x)
    ensures forall x :: x in Nodes(s.r) ==> allocated(x)
    ensures forall x :: x in Nodes(s) ==> allocated(x)
  {
    NodesAllocated(s);
    NodesAllocated(s.l);
    NodesAllocated(s.r);
  }

  lemma Deeper(s: Snap)
    requires s.S? && A.DepthOk(View(s))
    ensures A.Depth(View(s.l)) < A.Depth(View(s.r)) ==> s.r.S?
    ensures A.Depth(View(s.l)) > A.Depth(View(s.r)) ==> s.l.S?
  {
  }

  method RotateHeavyLeft(p: Node, ghost s: Snap) returns (q: Node, ghost s': Snap)
    requires s.S? && Rep(p, s) && Linear(s) && p == s.node && !s.clean
    requires s.l.S? && A.DepthOk(View(s.l)) && View(s).Bin? && View(s).left.Bin? && A.DepthOk(View(s).left)
    modifies Owned(s)
    ensures s'.S? && !s'.clean && q == s'.node && Rep(q, s') && Linear(s')
    ensures View(s') == A.RotateRightHeavyLeft(View(s))
    ensures forall x :: x in Nodes(s') ==> x in Nodes(s) || fresh(x)
    ensures forall x :: x in Owned(s') ==> x in Owned(s) || fresh(x)
    ensures Shared(s') <= Shared(s)
  {
    hide Rep, Fields, Linear, Nodes, Owned, Shared, View;
    Open(p, s);
    Open(p.left, s.l);
    Deeper(s.l);
    if DepthOf(p.left.left) < DepthOf(p.left.right) {
      var l, sl := RotateLeft(p.left, s.l);
      ghost var s1 := AttachLeft(p, s, l, sl);
      q, s' := RotateRight(p, s1);
      ViewParts(s1);
    } else {
      q, s' := RotateRight(p, s);
    }
  }

  method RotateHeavyRight(p: Node, ghost s: Snap) returns (q: Node, ghost s': Snap)
    requires s.S? && Rep(p, s) && Linear(s) && p == s.node && !s.clean
    requires s.r.S? && A.DepthOk(View(s.r)) && View(s).Bin? && View(s).right.Bin? && A.DepthOk(View(s).right)
    modifies Owned(s)
    ensures s'.S? && !s'.clean && q == s'.node && Rep(q, s') && Linear(s')
    ensures View(s') == A.RotateLeftHeavyRight(View(s))
    ensures forall x :: x in Nodes(s') ==> x in Nodes(s) || fresh(x)
    ensures forall x :: x in Owned(s') ==> x in Owned(s) || fresh(x)
    ensures Shared(s') <= Shared(s)
  {
    hide Rep, Fields, Linear, Nodes, Owned, Shared, View;
    Open(p, s);
    Open(p.right, s.r);
    Deeper(s.r);
    if DepthOf(p.right.left) > DepthOf(p.right.right) {
      var r, sr := RotateRight(p.right, s.r);
      ghost var s1 := AttachRight(p, s, r, sr);
      q, s' := RotateLeft(p, s1);
      ViewParts(s1);
    } else {
      q, s' := RotateLeft(p, s);
    }
  }

  lemma ChildDepthsOk(s: Snap)
    requires s.S? && A.DepthOk(View(s.l)) && A.DepthOk(View(s.r))
    ensures View(s).Bin? && View(s).left == View(s.l) && View(s).right == View(s.r)
    ensures A.Depth(View(s.l)) > A.Depth(View(s.r)) + 1 ==> s.l.S? && View(s.l).Bin?
    ensures A.Depth(View(s.r)) > A.Depth(View(s.l)) + 1 ==> s.r.S? && View(s.r).Bin?
  {
  }

  lemma RootInNodes(s: Snap)
    requires s.S?
    ensures s.node in Nodes(s) && (s.clean ==> s.node in Shared(s)) && (!s.clean ==> s.node in Owned(s))
  {
  }

  /** Rebalances at `p`. */
  method Rotate(p: Node, ghost s: Snap) returns (q: Node, ghost s': Snap)
    requires s.S? && Rep(p, s) && Linear(s) && p == s.node && !s.clean
    requires A.DepthOk(View(s.l)) && A.DepthOk(View(s.r)) && View(s).Bin?
    requires View(s).left == View(s.l) && View(s).right == View(s.r)
    modifies Owned(s)
    ensures s'.S? && !s'.clean && q == s'.node && Rep(q, s') && Linear(s') && View(s') == A.Rotate(View(s))
    ensures forall x :: x in Nodes(s') ==> x in Nodes(s) || fresh(x)
    ensures forall x :: x in Owned(s') ==> x in Owned(s) || fresh(x)
    ensures Shared(s') <= Shared(s)
  {
    hide Rep, Fields, Linear, Nodes, Owned, Shared, View;
    Open(p, s);
    ChildDepthsOk(s);
    var ld, rd := DepthOf(p.left), DepthOf(p.right);
    q, s' := p, s;
    if ld > rd + 1 {
      q, s' := RotateHeavyLeft(p, s);
    }
    if rd > ld + 1 {
      q, s' := RotateHeavyRight(p, s);
    }
    RootInNodes(s');
    s' := FixDepth(q, s');
  }

  /** The writable form of the root of a tree, ready to take a new subtree. */
  method WritableRoot(n: Node, ghost s: Snap) returns (m: Node, ghost s1: Snap)
    requires s.S? && Rep(n, s) && Linear(s)
    ensures s1 == Dirtied(s, m) && s1.l == s.l && s1.r == s.r && s1.key == s.key && !s1.clean && s1.node == m
    ensures Rep(m, s1) && Linear(s1) && View(s1) == A.Writable(View(s)) && View(s1).Bin?
    ensures if s.clean then fresh(m) else m == n && m in Owned(s)
    ensures m !in Nodes(s.l) && m !in Nodes(s.r)
    ensures Nodes(s1) == {m} + Nodes(s.l) + Nodes(s.r)
    ensures Owned(s1) == {m} + Owned(s.l) + Owned(s.r)
    ensures Shared(s1) == Shared(s.l) + Shared(s.r)
  {
    Open(n, s);
    m := Writable(n, s);
    s1 := Dirtied(s, m);
    assert Rep(n.left, s.l) && Rep(n.right, s.r);
  }

  lemma Root(n: Node?, s: Snap)
    requires Rep(n, s)
    ensures (n == null <==> s.E?) && (n == null <==> View(s).Nil?)
    ensures n != null ==> n == s.node && n.key == s.key && n.clean == s.clean == View(s).clean
  {
  }

  lemma Close(n: Node, s: Snap)
    requires s.S? && Fields(n, s) && Rep(n.left, s.l) && Rep(n.right, s.r)
    ensures Rep(n, s)
  {
  }

  lemma DepthParts(s: Snap)
    requires s.S? && A.DepthOk(View(s))
    ensures A.DepthOk(View(s.l)) && A.DepthOk(View(s.r))
  {
  }

  method InsertLeft(p: Node, key: UnitId, value: Unit, ghost s: Snap) returns (ok: bool, q: Node, ghost s': Snap)
    requires s.S? && Rep(p, s) && Linear(s) && A.DepthOk(View(s)) && key < s.key
    modifies Owned(s)
    ensures ok == A.Insert(View(s), key, value).Done?
    ensures !ok ==> Rep(p, s)
    ensures ok ==> s'.S? && Rep(q, s') && Linear(s') && View(s') == A.Insert(View(s), key, value).tree
    ensures ok ==> (forall x :: x in Nodes(s') ==> x in Nodes(s) || fresh(x))
    ensures ok ==> (forall x :: x in Owned(s') ==> x in Owned(s) || fresh(x))
    ensures ok ==> Shared(s') <= Shared(s)
    decreases s, 0
  {
    hide Rep, Fields, Linear, Nodes, Owned, Shared, View;
    Open(p, s);
    DepthParts(s);
    var m, s1 := WritableRoot(p, s);
    Open(m, s1);
    var l;
    ghost var sl;
    ok, l, sl := Insert(m.left, key, value, s.l);
    if ok {
      ghost var s2 := AttachLeft(m, s1, l, sl);
      ViewParts(s2);
      q, s' := Rotate(m, s2);
    } else {
      q, s' := p, s;
      Close(p, s);
    }
  }

  method InsertRight(p: Node, key: UnitId, value: Unit, ghost s: Snap) returns (ok: bool, q: Node, ghost s': Snap)
    requires s.S? && Rep(p, s) && Linear(s) && A.DepthOk(View(s)) && key > s.key
    modifies Owned(s)
    ensures ok == A.Insert(View(s), key, value).Done?
    ensures !ok ==> Rep(p, s)
    ensures ok ==> s'.S? && Rep(q, s') && Linear(s') && View(s') == A.Insert(View(s), key, value).tree
    ensures ok ==> (forall x :: x in Nodes(s') ==> x in Nodes(s) || fresh(x))
    ensures ok ==> (forall x :: x in Owned(s') ==> x in Owned(s) || fresh(x))
    ensures ok ==> Shared(s') <= Shared(s)
    decreases s, 0
  {
    hide Rep, Fields, Linear, Nodes, Owned, Shared, View;
    Open(p, s);
    DepthParts(s);
    var m, s1 := WritableRoot(p, s);
    Open(m, s1);
    var r;
    ghost var sr;
    ok, r, sr := Insert(m.right, key, value, s.r);
    if ok {
      ghost var s2 := AttachRight(m, s1, r, sr);
      ViewParts(s2);
      q, s' := Rotate(m, s2);
    } else {
      q, s' := p, s;
      Close(p, s);
    }
  }

  method Insert(p: Node?, key: UnitId, value: Unit, ghost s: Snap) returns (ok: bool, q: Node?, ghost s': Snap)
    requires Rep(p, s) && Linear(s) && A.DepthOk(View(s))
    modifies Owned(s)
    ensures ok == A.Insert(View(s), key, value).Done?
    ensures !ok ==> Rep(p, s)
    ensures ok ==> Rep(q, s') && Linear(s') && View(s') == A.Insert(View(s), key, value).tree
    ensures ok ==> (forall x :: x in Nodes(s') ==> x in Nodes(s) || fresh(x))
    ensures ok ==> (forall x :: x in Owned(s') ==> x in Owned(s) || fresh(x))
    ensures ok ==> Shared(s') <= Shared(s)
    decreases s, 1
  {
    if p == null {
      q := new Node.Leaf(key, value);
      ok, s' := true, S(q, E, key, value, 1, false, E);
    } else if p.key == key {
      ok, q, s' := false, p, s;
    } else if p.key > key {
      ok, q, s' := InsertLeft(p, key, value, s);
    } else {
      ok, q, s' := InsertRight(p, key, value, s);
    }
  }

  // ----- tree_update.go, tree_get.go -----

  /** Only the nodes on the way to the key are copied; what hangs off that way is what it was. */
  ghost predicate PathCopied(s: Snap, s': Snap, key: UnitId)
  {
    && s.S? && s'.S? && s'.key == s.key
    && (if key < s.key then s'.r == s.r && PathCopied(s.l, s'.l, key)
        else if key > s.key then s'.l == s.l && PathCopied(s.r, s'.r, key)
        else s'.l == s.l && s'.r == s.r)
  }

  /** A node that an update of the key leaves as it is, but for the way down to the key. */
  twostate predicate Steady(x: Node, key: UnitId)
    reads x
  {
    && x.key == old(x.key) && x.clean == old(x.clean) && (x.key != key ==> x.value == old(x.value))
    && (key < x.key ==> x.right == old(x.right)) && (key > x.key ==> x.left == old(x.left))
  }

  method UpdateLeft(p: Node, key: UnitId, value: Unit, ghost s: Snap) returns (ok: bool, q: Node, ghost s': Snap)
    requires s.S? && Rep(p, s) && Linear(s) && key < s.key
    modifies Owned(s)
    ensures ok == A.Update(View(s), key, value).Done?
    ensures !ok ==> Rep(p, s)
    ensures ok ==> s'.S? && Rep(q, s') && Linear(s') && View(s') == A.Update(View(s), key, value).tree
    ensures ok ==> (forall x :: x in Nodes(s') ==> x in Nodes(s) || fresh(x))
    ensures ok ==> (forall x :: x in Owned(s') ==> x in Owned(s) || fresh(x))
    ensures ok ==> Shared(s') <= Shared(s)
    ensures ok ==> PathCopied(s, s', key)
    ensures forall x :: x in Owned(s) && old(allocated(x)) ==> Steady(x, key)
    ensures ok && !s.clean ==> q == p
    decreases s, 0
  {
    hide Rep, Fields, Linear, Nodes, Owned, Shared, View;
    Open(p, s);
    var m, s1 := WritableRoot(p, s);
    Open(m, s1);
    var l;
    ghost var sl;
    ok, l, sl := Update(m.left, key, value, s.l);
    if ok {
      q := m;
      s' := AttachLeft(m, s1, l, sl);
      ViewParts(s');
    } else {
      q, s' := p, s;
      Close(p, s);
    }
  }

  method UpdateRight(p: Node, key: UnitId, value: Unit, ghost s: Snap) returns (ok: bool, q: Node, ghost s': Snap)
    requires s.S? && Rep(p, s) && Linear(s) && key > s.key
    modifies Owned(s)
    ensures ok == A.Update(View(s), key, value).Done?
    ensures !ok ==> Rep(p, s)
    ensures ok ==> s'.S? && Rep(q, s') && Linear(s') && View(s') == A.Update(View(s), key, value).tree
    ensures ok ==> (forall x :: x in Nodes(s') ==> x in Nodes(s) || fresh(x))
    ensures ok ==> (forall x :: x in Owned(s') ==> x in Owned(s) || fresh(x))
    ensures ok ==> Shared(s') <= Shared(s)
    ensures ok ==> PathCopied(s, s', key)
    ensures forall x :: x in Owned(s) && old(allocated(x)) ==> Steady(x, key)
    ensures ok && !s.clean ==> q == p
    decreases s, 0
  {
    hide Rep, Fields, Linear, Nodes, Owned, Shared, View;
    Open(p, s);
    var m, s1 := WritableRoot(p, s);
    Open(m, s1);
    var r;
    ghost var sr;
    ok, r, sr := Update(m.right, key, value, s.r);
    if ok {
      q := m;
      s' := AttachRight(m, s1, r, sr);
      ViewParts(s');
    } else {
      q, s' := p, s;
      Close(p, s);
    }
  }

  method SetValue(p: Node, value: Unit, ghost s: Snap) returns (ghost s': Snap)
    requires s.S? && Rep(p, s) && Linear(s)
    modifies p`value
    ensures s' == s.(value := value) && Rep(p, s') && Linear(s')
    ensures Nodes(s') == Nodes(s) && Owned(s') == Owned(s) && Shared(s') == Shared(s)
  {
    p.value := value;
    s' := s.(value := value);
    assert Rep(p.left, s'.l) && Rep(p.right, s'.r);
  }

  method UpdateHere(p: Node, value: Unit, ghost s: Snap) returns (q: Node, ghost s': Snap)
    requires s.S? && Rep(p, s) && Linear(s)
    modifies Owned(s)
    ensures s'.S? && Rep(q, s') && Linear(s') && View(s') == A.Update(View(s), s.key, value).tree
    ensures forall x :: x in Nodes(s') ==> x in Nodes(s) || fresh(x)
    ensures forall x :: x in Owned(s') ==> x in Owned(s) || fresh(x)
    ensures Shared(s') <= Shared(s)
    ensures PathCopied(s, s', s.key) && forall x :: x in Owned(s) && old(allocated(x)) ==> Steady(x, s.key)
    ensures !s.clean ==> q == p
  {
    hide Rep, Fields, Linear, Nodes, Owned, Shared, View;
    Open(p, s);
    ghost var s1;
    q, s1 := WritableRoot(p, s);
    s' := SetValue(q, value, s1);
    ViewParts(s');
    ViewParts(s1);
  }

  method Update(p: Node?, key: UnitId, value: Unit, ghost s: Snap) returns (ok: bool, q: Node?, ghost s': Snap)
    requires Rep(p, s) && Linear(s)
    modifies Owned(s)
    ensures ok == A.Update(View(s), key, value).Done?
    ensures !ok ==> Rep(p, s)
    ensures ok ==> Rep(q, s') && Linear(s') && View(s') == A.Update(View(s), key, value).tree
    ensures ok ==> (forall x :: x in Nodes(s') ==> x in Nodes(s) || fresh(x))
    ensures ok ==> (forall x :: x in Owned(s') ==> x in Owned(s) || fresh(x))
    ensures ok ==> Shared(s') <= Shared(s)
    ensures ok ==> PathCopied(s, s', key)
    ensures forall x :: x in Owned(s) && old(allocated(x)) ==> Steady(x, key)
    ensures ok && s.S? && !s.clean ==> q == p
    decreases s, 1
  {
    if p == null {
      ok, q, s' := false, p, s;
    } else if p.key > key {
      ok, q, s' := UpdateLeft(p, key, value, s);
    } else if p.key < key {
      ok, q, s' := UpdateRight(p, key, value, s);
    } else {
      ok := true;
      q, s' := UpdateHere(p, value, s);
    }
  }

  method Get(n: Node?, key: UnitId, ghost s: Snap) returns (u: Option<Unit>)
    requires Rep(n, s)
    ensures u == A.Get(View(s), key)
    decreases s
  {
    if n == null {
      u := None;
    } else if n.key > key {
      u := Get(n.left, key, s.l);
    } else if n.key < key {
      u := Get(n.right, key, s.r);
    } else {
      u := Some(n.value);
    }
  }

  // ----- tree_delete.go -----

  /** Puts a new right subtree under the writable node `p` and rebalances. */
  method RebuildRight(p: Node, ghost s: Snap, r: Node?, ghost sr: Snap) returns (q: Node, ghost s': Snap)
    requires s.S? && !s.clean && s.node == p && Fields(p, s) && Rep(p.left, s.l) && Linear(s.l) && p !in Nodes(s.l)
    requires Rep(r, sr) && Linear(sr) && p !in Nodes(sr) && Nodes(s.l) !! Nodes(sr)
    requires A.DepthOk(View(s.l)) && A.DepthOk(View(sr))
    modifies p, Owned(s.l), Owned(sr)
    ensures s'.S? && Rep(q, s') && Linear(s')
    ensures View(s') == A.Rotate(A.FixDepth(A.Bin(View(s.l), s.key, s.value, s.depth, false, View(sr))))
    ensures forall x :: x in Nodes(s') ==> x == p || x in Nodes(s.l) || x in Nodes(sr) || fresh(x)
    ensures forall x :: x in Owned(s') ==> x == p || x in Owned(s.l) || x in Owned(sr) || fresh(x)
    ensures Shared(s') <= Shared(s.l) + Shared(sr)
  {
    hide Rep, Fields, Linear, Nodes, Owned, Shared, View;
    ghost var s1 := AttachRight(p, s, r, sr);
    ViewParts(s1);
    s1 := FixDepth(p, s1);
    ViewParts(s1);
    q, s' := Rotate(p, s1);
  }

  method RebuildLeft(p: Node, ghost s: Snap, l: Node?, ghost sl: Snap) returns (q: Node, ghost s': Snap)
    requires s.S? && !s.clean && s.node == p && Fields(p, s) && Rep(p.right, s.r) && Linear(s.r) && p !in Nodes(s.r)
    requires Rep(l, sl) && Linear(sl) && p !in Nodes(sl) && Nodes(sl) !! Nodes(s.r)
    requires A.DepthOk(View(sl)) && A.DepthOk(View(s.r))
    modifies p, Owned(sl), Owned(s.r)
    ensures s'.S? && Rep(q, s') && Linear(s')
    ensures View(s') == A.Rotate(A.FixDepth(A.Bin(View(sl), s.key, s.value, s.depth, false, View(s.r))))
    ensures forall x :: x in Nodes(s') ==> x == p || x in Nodes(sl) || x in Nodes(s.r) || fresh(x)
    ensures forall x :: x in Owned(s') ==> x == p || x in Owned(sl) || x in Owned(s.r) || fresh(x)
    ensures Shared(s') <= Shared(sl) + Shared(s.r)
  {
    hide Rep, Fields, Linear, Nodes, Owned, Shared, View;
    ghost var s1 := AttachLeft(p, s, l, sl);
    ViewParts(s1);
    s1 := FixDepth(p, s1);
    ViewParts(s1);
    q, s' := Rotate(p, s1);
  }

  /** Cuts the largest entry out of the tree at `n`; returns the rest and that entry. */
  method CutMax(n: Node, ghost s: Snap) returns (rest: Node?, pkey: UnitId, pvalue: Unit, ghost s': Snap)
    requires s.S? && Rep(n, s) && Linear(s) && View(s).Bin? && A.DepthOk(View(s).left) && A.DepthOk(View(s).right)
    modifies Owned(s)
    ensures Rep(rest, s') && Linear(s') && View(s') == A.CutMax(View(s)).0
    ensures pkey == A.CutMax(View(s)).1.key && pvalue == A.CutMax(View(s)).1.value
    ensures forall x :: x in Nodes(s') ==> x in Nodes(s) || fresh(x)
    ensures forall x :: x in Owned(s') ==> x in Owned(s) || fresh(x)
    ensures Shared(s') <= Shared(s)
    decreases s, 0
  {
    hide Rep, Fields, Linear, Nodes, Owned, Shared, View;
    Open(n, s);
    var node, sn := WritableRoot(n, s);
    Open(node, sn);
    if node.right != null {
      rest, pkey, pvalue, s' := Replace(node, sn);
    } else {
      rest, pkey, pvalue, s' := node.left, node.key, node.value, sn.l;
    }
  }

  /** The same at a writable node, which is kept and rebalanced unless it is the largest itself. */
  method Replace(parent: Node, ghost s: Snap) returns (rest: Node?, pkey: UnitId, pvalue: Unit, ghost s': Snap)
    requires s.S? && !s.clean && s.node == parent && Rep(parent, s) && Linear(s)
    requires View(s).Bin? && A.DepthOk(View(s).left) && A.DepthOk(View(s).right)
    modifies Owned(s)
    ensures Rep(rest, s') && Linear(s') && View(s') == A.Replace(View(s)).0
    ensures pkey == A.Replace(View(s)).1.key && pvalue == A.Replace(View(s)).1.value
    ensures forall x :: x in Nodes(s') ==> x in Nodes(s) || fresh(x)
    ensures forall x :: x in Owned(s') ==> x in Owned(s) || fresh(x)
    ensures Shared(s') <= Shared(s)
    decreases s.r, 1
  {
    hide Rep, Fields, Linear, Nodes, Owned, Shared, View;
    Open(parent, s);
    if parent.right == null {
      rest, pkey, pvalue, s' := parent.left, parent.key, parent.value, s.l;
    } else {
      Open(parent.right, s.r);
      DepthParts(s.r);
      var r;
      ghost var sr;
      r, pkey, pvalue, sr := CutMax(parent.right, s.r);
      rest, s' := RebuildRight(parent, s, r, sr);
    }
  }

  method CopyRoot(n: Node, ghost s: Snap) returns (m: Node, ghost s1: Snap)
    requires s.S? && Rep(n, s) && Linear(s)
    ensures s1 == S(m, s.l, s.key, Clone(s.value), s.depth, false, s.r) && fresh(m)
    ensures Rep(m, s1) && Linear(s1) && View(s).Bin? && View(s1) == A.Copy(View(s))
    ensures Nodes(s1) == {m} + Nodes(s.l) + Nodes(s.r)
    ensures Owned(s1) == {m} + Owned(s.l) + Owned(s.r)
    ensures Shared(s1) == Shared(s.l) + Shared(s.r)
  {
    Open(n, s);
    m := new Node.DirtyCopy(n);
    s1 := S(m, s.l, s.key, Clone(s.value), s.depth, false, s.r);
    assert Rep(m.left, s.l) && Rep(m.right, s.r);
  }

  method SetEntry(n: Node, key: UnitId, value: Unit, ghost s: Snap) returns (ghost s': Snap)
    requires s.S? && Fields(n, s)
    modifies n`key, n`value
    ensures s' == s.(key := key, value := value) && Fields(n, s')
  {
    n.key, n.value := key, value;
    s' := s.(key := key, value := value);
  }

  /** Cuts the largest entry out of a copy of the root at `n`. */
  method CutCopy(n: Node, ghost s: Snap) returns (rest: Node?, pkey: UnitId, pvalue: Unit, ghost s': Snap)
    requires s.S? && Rep(n, s) && Linear(s) && View(s).Bin? && A.DepthOk(View(s))
    modifies Owned(s)
    ensures Rep(rest, s') && Linear(s') && View(s') == A.Replace(A.Copy(View(s))).0
    ensures pkey == A.Replace(A.Copy(View(s))).1.key && pvalue == A.Replace(A.Copy(View(s))).1.value
    ensures forall x :: x in Nodes(s') ==> x in Nodes(s) || fresh(x)
    ensures forall x :: x in Owned(s') ==> x in Owned(s) || fresh(x)
    ensures Shared(s') <= Shared(s)
  {
    hide Rep, Fields, Linear, Nodes, Owned, Shared, View;
    Open(n, s);
    var c, sc := CopyRoot(n, s);
    rest, pkey, pvalue, s' := Replace(c, sc);
  }

  /** A node with two children takes over its in-order predecessor, cut out of a copy of the left
      subtree's root. */
  method RemoveInner(node: Node, ghost s: Snap) returns (q: Node, ghost s': Snap)
    requires s.S? && !s.clean && s.node == node && Rep(node, s) && Linear(s) && s.l.S? && s.r.S?
    requires View(s).Bin? && A.DepthOk(View(s).left) && A.DepthOk(View(s).right)
    requires View(s).left.Bin? && View(s).right.Bin?
    modifies Owned(s)
    ensures Rep(q, s') && Linear(s') && View(s') == A.RemoveRoot(View(s))
    ensures forall x :: x in Nodes(s') ==> x in Nodes(s) || fresh(x)
    ensures forall x :: x in Owned(s') ==> x in Owned(s) || fresh(x)
    ensures Shared(s') <= Shared(s)
  {
    hide Rep, Fields, Linear, Nodes, Owned, Shared, View;
    Open(node, s);
    var rest, pkey, pvalue, sr := CutCopy(node.left, s.l);
    assert node !in Nodes(sr);
    NodesAllocated(sr);
    ghost var s1 := SetEntry(node, pkey, pvalue, s);
    assert Rep(rest, sr);
    q, s' := RebuildLeft(node, s1, rest, sr);
  }

  method RemoveRoot(p: Node, ghost s: Snap) returns (q: Node?, ghost s': Snap)
    requires s.S? && Rep(p, s) && Linear(s) && A.DepthOk(View(s))
    modifies Owned(s)
    ensures Rep(q, s') && Linear(s') && View(s') == A.Remove(View(s), s.key).tree
    ensures forall x :: x in Nodes(s') ==> x in Nodes(s) || fresh(x)
    ensures forall x :: x in Owned(s') ==> x in Owned(s) || fresh(x)
    ensures Shared(s') <= Shared(s)
  {
    hide Rep, Fields, Linear, Nodes, Owned, Shared, View;
    Open(p, s);
    DepthParts(s);
    var m, s1 := WritableRoot(p, s);
    Open(m, s1);
    if m.left == null && m.right == null {
      q, s' := null, s.l;
    } else if m.left == null {
      q, s' := m.right, s.r;
    } else if m.right == null {
      q, s' := m.left, s.l;
    } else {
      ViewParts(s.l);
      ViewParts(s.r);
      q, s' := RemoveInner(m, s1);
    }
  }

  method RemoveLeft(p: Node, key: UnitId, ghost s: Snap) returns (ok: bool, q: Node?, ghost s': Snap)
    requires s.S? && Rep(p, s) && Linear(s) && A.DepthOk(View(s)) && key < s.key
    modifies Owned(s)
    ensures ok == A.Remove(View(s), key).Done?
    ensures !ok ==> Rep(p, s)
    ensures ok ==> Rep(q, s') && Linear(s') && View(s') == A.Remove(View(s), key).tree
    ensures ok ==> (forall x :: x in Nodes(s') ==> x in Nodes(s) || fresh(x))
    ensures ok ==> (forall x :: x in Owned(s') ==> x in Owned(s) || fresh(x))
    ensures ok ==> Shared(s') <= Shared(s)
    decreases s, 0
  {
    hide Rep, Fields, Linear, Nodes, Owned, Shared, View;
    Open(p, s);
    DepthParts(s);
    var m, s1 := WritableRoot(p, s);
    Open(m, s1);
    var l;
    ghost var sl;
    ok, l, sl := Remove(m.left, key, s.l);
    if ok {
      q, s' := RebuildLeft(m, s1, l, sl);
    } else {
      q, s' := p, s;
      Close(p, s);
    }
  }

  method RemoveRight(p: Node, key: UnitId, ghost s: Snap) returns (ok: bool, q: Node?, ghost s': Snap)
    requires s.S? && Rep(p, s) && Linear(s) && A.DepthOk(View(s)) && key > s.key
    modifies Owned(s)
    ensures ok == A.Remove(View(s), key).Done?
    ensures !ok ==> Rep(p, s)
    ensures ok ==> Rep(q, s') && Linear(s') && View(s') == A.Remove(View(s), key).tree
    ensures ok ==> (forall x :: x in Nodes(s') ==> x in Nodes(s) || fresh(x))
    ensures ok ==> (forall x :: x in Owned(s') ==> x in Owned(s) || fresh(x))
    ensures ok ==> Shared(s') <= Shared(s)
    decreases s, 0
  {
    hide Rep, Fields, Linear, Nodes, Owned, Shared, View;
    Open(p, s);
    DepthParts(s);
    var m, s1 := WritableRoot(p, s);
    Open(m, s1);
    var r;
    ghost var sr;
    ok, r, sr := Remove(m.right, key, s.r);
    if ok {
      q, s' := RebuildRight(m, s1, r, sr);
    } else {
      q, s' := p, s;
      Close(p, s);
    }
  }

  method Remove(p: Node?, key: UnitId, ghost s: Snap) returns (ok: bool, q: Node?, ghost s': Snap)
    requires Rep(p, s) && Linear(s) && A.DepthOk(View(s))
    modifies Owned(s)
    ensures ok == A.Remove(View(s), key).Done?
    ensures !ok ==> Rep(p, s)
    ensures ok ==> Rep(q, s') && Linear(s') && View(s') == A.Remove(View(s), key).tree
    ensures ok ==> (forall x :: x in Nodes(s') ==> x in Nodes(s) || fresh(x))
    ensures ok ==> (forall x :: x in Owned(s') ==> x in Owned(s) || fresh(x))
    ensures ok ==> Shared(s') <= Shared(s)
    decreases s, 1
  {
    if p == null {
      ok, q, s' := false, p, s;
    } else if p.key > key {
      ok, q, s' := RemoveLeft(p, key, s);
    } else if p.key < key {
      ok, q, s' := RemoveRight(p, key, s);
    } else {
      ok := true;
      q, s' := RemoveRoot(p, s);
    }
  }

  // ----- tree.go -----

  method SetClean(n: Node, ghost s: Snap, ghost l: Snap, ghost r: Snap) returns (ghost s': Snap)
    requires s.S? && Fields(n, s) && Rep(n.left, l) && Rep(n.right, r) && Linear(l) && Linear(r)
    requires n !in Nodes(l) && n !in Nodes(r) && Nodes(l) !! Nodes(r)
    modifies n`clean
    ensures s' == S(n, l, s.key, s.value, s.depth, true, r) && Rep(n, s') && Linear(s')
    ensures View(s') == A.Bin(View(l), s.key, s.value, s.depth, true, View(r)) && Nodes(s') == {n} + Nodes(l) + Nodes(r)
  {
    n.clean := true;
    s' := S(n, l, s.key, s.value, s.depth, true, r);
    assert Rep(n.left, l) && Rep(n.right, r);
  }

  /** The commit traversal: it stops at clean nodes, because whatever is below them is clean. */
  method MarkClean(n: Node?, ghost s: Snap) returns (ghost s': Snap)
    requires Rep(n, s) && Linear(s) && A.CleanDown(View(s))
    modifies Owned(s)
    ensures Rep(n, s') && Linear(s') && View(s') == A.MarkClean(View(s)) && Nodes(s') == Nodes(s)
    decreases s
  {
    hide Rep, Fields, Linear, Nodes, Owned, Shared, View;
    Root(n, s);
    if n == null || n.clean {
      s' := s;
      A.CleanRootAllClean(View(s));
      A.AllCleanFixed(View(s));
    } else {
      Open(n, s);
      ghost var l := MarkClean(n.left, s.l);
      ghost var r := MarkClean(n.right, s.r);
      s' := SetClean(n, s, l, r);
    }
  }
}
