/** The AVL tree of units as a value: one node record per tree node, with the stored depth and the
    clean bit that the linked structure keeps.  The functions below take the steps of the tree's
    operations (copy a clean node before writing it, recurse, rebalance); module AvlHeap shows that
    the in-place operations compute exactly these functions. */
module Avl {
  import opened Units

  datatype Tree = Nil | Bin(left: Tree, key: UnitId, value: Unit, depth: int, clean: bool, right: Tree)

  type Node = t: Tree | t.Bin? witness Bin(Nil, 0, Unit([], NoHash, None, 0, None, 0, NoHash, false), 1, false, Nil)

  datatype Outcome = Done(tree: Tree) | NotFound | AlreadyExists

  function Max(a: int, b: int): (m: int)
  {
    if a > b then a else b
  }

  function Depth(t: Tree): (d: int)
  {
    if t.Nil? then 0 else t.depth
  }

  // ----- what the operations keep -----

  /** Every stored depth is the true height. */
  predicate DepthOk(t: Tree)
    ensures DepthOk(t) ==> Depth(t) >= 0 && (Depth(t) == 0 <==> t.Nil?)
  {
    t.Nil? || (DepthOk(t.left) && DepthOk(t.right) && t.depth == Max(Depth(t.left), Depth(t.right)) + 1)
  }

  predicate Balanced(t: Tree)
  {
    t.Nil? ||
    (Balanced(t.left) && Balanced(t.right) && -1 <= Depth(t.left) - Depth(t.right) <= 1)
  }

  predicate After(lo: Option<UnitId>, k: UnitId) { lo.None? || lo.value < k }

  predicate Before(k: UnitId, hi: Option<UnitId>) { hi.None? || k < hi.value }

  /** Search order, with every key strictly between the bounds. */
  predicate Within(t: Tree, lo: Option<UnitId>, hi: Option<UnitId>)
  {
    t.Nil? ||
    (After(lo, t.key) && Before(t.key, hi) && Within(t.left, lo, Some(t.key)) && Within(t.right, Some(t.key), hi))
  }

  predicate Sorted(t: Tree) { Within(t, None, None) }

  /** A clean node has clean children only, so a whole subtree below a clean node is shared. */
  predicate CleanDown(t: Tree)
  {
    t.Nil? ||
    (CleanDown(t.left) && CleanDown(t.right) &&
     (t.clean ==> (t.left.Nil? || t.left.clean) && (t.right.Nil? || t.right.clean)))
  }

  predicate AllClean(t: Tree)
  {
    t.Nil? || (t.clean && AllClean(t.left) && AllClean(t.right))
  }

  // ----- cached summaries -----

  /** What a parent reads from a child: value and hash of its subtree. */
  datatype Summary = Summary(value: nat, hash: Digest)

  function Stored(t: Tree): (s: Summary)
  {
    if t.Nil? then Summary(0, NoHash) else Summary(t.value.sumValue, t.value.sumHash)
  }

  /** The summary of a node, given the summaries of its children. */
  function Combine(key: UnitId, u: Unit, l: Summary, r: Summary): (s: Summary)
  {
    var v := (SummaryInput(Effective(u).data) + l.value + r.value) % TWO64;
    Summary(v, NodeHash(key, LogHash(u), v, l.hash, l.value, r.hash, r.value))
  }

  /** The hashed form of a unit: its log hash is there and its fields are those of the last log. */
  predicate IsSettled(u: Unit)
  {
    u.logsHash == LogHash(u) && IsLogged(u)
  }

  /** The unit is as its last log entry says, if it has one. */
  predicate IsLogged(u: Unit) { UnitState(u.data, u.deletionRound, u.lock) == Effective(u) }

  /** No unit carries a wrong log hash. */
  predicate LogHashOk(u: Unit) { u.logsHash == NoHash || u.logsHash == LogHash(u) }

  /** A calculated node is clean, so are its children, and what it stores is right for what they
      store. */
  predicate CacheOk(t: Node)
  {
    && LogHashOk(t.value)
    && (t.value.calculated ==>
          t.clean && IsSettled(t.value) && (t.left.Nil? || t.left.value.calculated) &&
          (t.right.Nil? || t.right.value.calculated) &&
          Stored(t) == Combine(t.key, t.value, Stored(t.left), Stored(t.right)))
  }

  predicate Cached(t: Tree)
  {
    t.Nil? || (Cached(t.left) && Cached(t.right) && CacheOk(t))
  }

  /** A unit as it enters the tree: nothing cached. */
  predicate Uncached(u: Unit) { !u.calculated && u.logsHash == NoHash }

  predicate IsAvl(t: Tree) { DepthOk(t) && Balanced(t) && Sorted(t) }

  /** Clean bits and caches, together. */
  predicate Bits(t: Tree) { CleanDown(t) && Cached(t) }

  predicate Valid(t: Tree) { IsAvl(t) && Bits(t) }

  // ----- node.go -----

  function NewLeaf(key: UnitId, value: Unit): (t: Node)
  {
    Bin(Nil, key, value, 1, false, Nil)
  }

  /** A clean node is copied, and the copy is dirty; a dirty node is written in place. */
  function Writable(t: Node): (d: Node)
  {
    if t.clean then t.(value := Clone(t.value), clean := false) else t
  }

  function Copy(t: Node): (d: Node)
  {
    t.(value := Clone(t.value), clean := false)
  }

  function FixDepth(t: Node): (d: Node)
  {
    t.(depth := Max(Depth(t.left), Depth(t.right)) + 1)
  }

  // ----- tree_add.go -----

  function RotateRight(t: Node): (r: Node)
    requires t.left.Bin?
  {
    var node := Writable(t);
    var tmp := Writable(t.left);
    tmp.(right := FixDepth(node.(left := tmp.right)))
  }

  function RotateLeft(t: Node): (r: Node)
    requires t.right.Bin?
  {
    var node := Writable(t);
    var tmp := Writable(t.right);
    tmp.(left := FixDepth(node.(right := tmp.left)))
  }

  function RotateRightHeavyLeft(p: Node): (r: Node)
    requires p.left.Bin? && DepthOk(p.left)
  {
    if Depth(p.left.left) < Depth(p.left.right)
    then RotateRight(p.(left := RotateLeft(p.left)))
    else RotateRight(p)
  }

  function RotateLeftHeavyRight(p: Node): (r: Node)
    requires p.right.Bin? && DepthOk(p.right)
  {
    if Depth(p.right.left) > Depth(p.right.right)
    then RotateLeft(p.(right := RotateRight(p.right)))
    else RotateLeft(p)
  }

  function Rotate(p: Node): (r: Node)
    requires DepthOk(p.left) && DepthOk(p.right)
  {
    if Depth(p.left) > Depth(p.right) + 1 then FixDepth(RotateRightHeavyLeft(p))
    else if Depth(p.right) > Depth(p.left) + 1 then FixDepth(RotateLeftHeavyRight(p))
    else FixDepth(p)
  }

  lemma RotateDepthOk(p: Node)
    requires DepthOk(p.left) && DepthOk(p.right)
    ensures DepthOk(Rotate(p))
  {
    if Depth(p.left) > Depth(p.right) + 1 {
      var l := p.left;
      if Depth(l.left) < Depth(l.right) {
        var m := RotateLeft(l);
        assert DepthOk(m.left) && DepthOk(m.right);
        var q := RotateRight(p.(left := m));
        assert DepthOk(q.left) && DepthOk(q.right);
      } else {
        var q := RotateRight(p);
        assert DepthOk(q.left) && DepthOk(q.right);
      }
    } else if Depth(p.right) > Depth(p.left) + 1 {
      var r := p.right;
      if Depth(r.left) > Depth(r.right) {
        var m := RotateRight(r);
        assert DepthOk(m.left) && DepthOk(m.right);
        var q := RotateLeft(p.(right := m));
        assert DepthOk(q.left) && DepthOk(q.right);
      } else {
        var q := RotateLeft(p);
        assert DepthOk(q.left) && DepthOk(q.right);
      }
    }
  }

  function Insert(t: Tree, key: UnitId, value: Unit): (r: Outcome)
    requires DepthOk(t)
    ensures r.Done? ==> r.tree.Bin? && DepthOk(r.tree)
  {
    if t.Nil? then Done(NewLeaf(key, value))
    else if t.key == key then AlreadyExists
    else
      var p := Writable(t);
      if t.key > key then
        var l := Insert(t.left, key, value);
        if !l.Done? then l
        else
          var q: Node := p.(left := l.tree);
          RotateDepthOk(q);
          Done(Rotate(q))
      else
        var r := Insert(t.right, key, value);
        if !r.Done? then r
        else
          var q: Node := p.(right := r.tree);
          RotateDepthOk(q);
          Done(Rotate(q))
  }

  // ----- tree_update.go, tree_get.go -----

  function Update(t: Tree, key: UnitId, value: Unit): (r: Outcome)
  {
    if t.Nil? then NotFound
    else
      var p := Writable(t);
      if t.key > key then
        var l := Update(t.left, key, value);
        if l.Done? then Done(p.(left := l.tree)) else l
      else if t.key < key then
        var r := Update(t.right, key, value);
        if r.Done? then Done(p.(right := r.tree)) else r
      else Done(p.(value := value))
  }

  function Get(t: Tree, key: UnitId): (u: Option<Unit>)
  {
    if t.Nil? then None
    else if t.key > key then Get(t.left, key)
    else if t.key < key then Get(t.right, key)
    else Some(t.value)
  }

  // ----- tree_delete.go -----

  /** Cuts the node with the largest key out of the tree at `t`: the rest and that node. */
  function CutMax(t: Node): (r: (Tree, Node))
    requires DepthOk(t.left) && DepthOk(t.right)
    ensures DepthOk(r.0)
    decreases t, 0
  {
    var node := Writable(t);
    if node.right.Bin? then Replace(node) else (node.left, node)
  }

  /** The same at a writable node, which is kept and rebalanced unless it is the largest itself. */
  function Replace(parent: Node): (r: (Tree, Node))
    requires DepthOk(parent.left) && DepthOk(parent.right)
    ensures DepthOk(r.0)
    decreases parent.right, 1
  {
    if parent.right.Nil? then (parent.left, parent)
    else
      var (rest, pred) := CutMax(parent.right);
      var q := FixDepth(parent.(right := rest));
      RotateDepthOk(q);
      (Rotate(q), pred)
  }

  function RemoveRoot(node: Node): (r: Tree)
    requires DepthOk(node.left) && DepthOk(node.right)
    ensures DepthOk(r)
  {
    if node.left.Nil? && node.right.Nil? then Nil
    else if node.left.Nil? then node.right
    else if node.right.Nil? then node.left
    else
      var (rest, pred) := Replace(Copy(node.left));
      var q := FixDepth(node.(key := pred.key, value := pred.value, left := rest));
      RotateDepthOk(q);
      Rotate(q)
  }

  function Remove(t: Tree, key: UnitId): (r: Outcome)
    requires DepthOk(t)
    ensures r.Done? ==> DepthOk(r.tree)
  {
    if t.Nil? then NotFound
    else
      var node := Writable(t);
      if t.key > key then
        var l := Remove(t.left, key);
        if !l.Done? then l
        else
          var q := FixDepth(node.(left := l.tree));
          RotateDepthOk(q);
          Done(Rotate(q))
      else if t.key < key then
        var r := Remove(t.right, key);
        if !r.Done? then r
        else
          var q := FixDepth(node.(right := r.tree));
          RotateDepthOk(q);
          Done(Rotate(q))
      else Done(RemoveRoot(node))
  }

  // ----- tree.go -----

  /** What the commit traversal leaves behind: every node clean. */
  function MarkClean(t: Tree): (r: Tree)
    ensures AllClean(r)
  {
    if t.Nil? then Nil else t.(left := MarkClean(t.left), clean := true, right := MarkClean(t.right))
  }

  // ----- rotations -----

  /** Near a balanced tree: the shape a rotation may meet. */
  predicate Leaning(p: Node)
  {
    DepthOk(p.left) && DepthOk(p.right) && Balanced(p.left) && Balanced(p.right) &&
    -2 <= Depth(p.left) - Depth(p.right) <= 2
  }

  lemma RotateRightBalances(p: Node)
    requires Leaning(p) && Depth(p.left) == Depth(p.right) + 2
    ensures var r := Rotate(p); Balanced(r) && (Depth(r) == Depth(p.left) || Depth(r) == Depth(p.left) + 1)
  {
    var l := p.left;
    assert DepthOk(l.right) && Balanced(l.right) && DepthOk(l.left) && Balanced(l.left);
    if Depth(l.left) < Depth(l.right) {
      var m := RotateLeft(l);
      var q := RotateRight(p.(left := m));
      assert q.left == m.left && Balanced(q.left);
      assert q.right.left == l.right.right && Balanced(q.right);
    } else {
      var q := RotateRight(p);
      assert q.left == l.left && q.right.left == l.right && Balanced(q.right);
    }
  }

  lemma RotateLeftBalances(p: Node)
    requires Leaning(p) && Depth(p.right) == Depth(p.left) + 2
    ensures var r := Rotate(p); Balanced(r) && (Depth(r) == Depth(p.right) || Depth(r) == Depth(p.right) + 1)
  {
    var r := p.right;
    assert DepthOk(r.right) && Balanced(r.right) && DepthOk(r.left) && Balanced(r.left);
    if Depth(r.left) > Depth(r.right) {
      var m := RotateRight(r);
      var q := RotateLeft(p.(right := m));
      assert q.right == m.right && Balanced(q.right);
      assert q.left.right == r.left.left && Balanced(q.left);
    } else {
      var q := RotateLeft(p);
      assert q.right == r.right && q.left.right == r.left && Balanced(q.left);
    }
  }

  /** Rebalancing restores the height condition and changes the height by at most one. */
  lemma RotateBalances(p: Node)
    requires Leaning(p)
    ensures DepthOk(Rotate(p)) && Balanced(Rotate(p))
    ensures var d := Max(Depth(p.left), Depth(p.right)); Depth(Rotate(p)) == d || Depth(Rotate(p)) == d + 1
    ensures -1 <= Depth(p.left) - Depth(p.right) <= 1 ==> Depth(Rotate(p)) == Max(Depth(p.left), Depth(p.right)) + 1
  {
    RotateDepthOk(p);
    if Depth(p.left) > Depth(p.right) + 1 {
      RotateRightBalances(p);
    } else if Depth(p.right) > Depth(p.left) + 1 {
      RotateLeftBalances(p);
    }
  }

  lemma RotateRightSorted(p: Node, lo: Option<UnitId>, hi: Option<UnitId>)
    requires DepthOk(p.left) && DepthOk(p.right) && Within(p, lo, hi) && Depth(p.left) > Depth(p.right) + 1
    ensures Within(Rotate(p), lo, hi)
  {
    var l := p.left;
    assert Within(l, lo, Some(p.key)) && Within(l.right, Some(l.key), Some(p.key));
    if Depth(l.left) < Depth(l.right) {
      var m := RotateLeft(l);
      assert Within(m.left, lo, Some(m.key));
    }
  }

  lemma RotateLeftSorted(p: Node, lo: Option<UnitId>, hi: Option<UnitId>)
    requires DepthOk(p.left) && DepthOk(p.right) && Within(p, lo, hi) && Depth(p.right) > Depth(p.left) + 1
    ensures Within(Rotate(p), lo, hi)
  {
    var r := p.right;
    assert Within(r, Some(p.key), hi) && Within(r.left, Some(p.key), Some(r.key));
    if Depth(r.left) > Depth(r.right) {
      var m := RotateRight(r);
      assert Within(m.right, Some(m.key), hi);
    }
  }

  /** Rebalancing moves nodes around; it does not change the search order. */
  lemma RotateSorted(p: Node, lo: Option<UnitId>, hi: Option<UnitId>)
    requires DepthOk(p.left) && DepthOk(p.right) && Within(p, lo, hi)
    ensures Within(Rotate(p), lo, hi)
  {
    if Depth(p.left) > Depth(p.right) + 1 {
      RotateRightSorted(p, lo, hi);
    } else if Depth(p.right) > Depth(p.left) + 1 {
      RotateLeftSorted(p, lo, hi);
    }
  }

  /** What is stored under a key, without the caches. */
  function Lookup(t: Tree, k: UnitId): (u: Option<Unit>)
  {
    if t.Nil? then None
    else if t.key > k then Lookup(t.left, k)
    else if t.key < k then Lookup(t.right, k)
    else Some(Core(t.value))
  }

  lemma RotateRightLookup(p: Node, lo: Option<UnitId>, hi: Option<UnitId>, k: UnitId)
    requires DepthOk(p.left) && DepthOk(p.right) && Within(p, lo, hi) && Depth(p.left) > Depth(p.right) + 1
    ensures Lookup(Rotate(p), k) == Lookup(p, k)
  {
    var l := p.left;
    assert Within(l, lo, Some(p.key)) && Within(l.right, Some(l.key), Some(p.key));
    if Depth(l.left) < Depth(l.right) {
      assert Lookup(RotateLeft(l), k) == Lookup(l, k);
    }
  }

  lemma RotateLeftLookup(p: Node, lo: Option<UnitId>, hi: Option<UnitId>, k: UnitId)
    requires DepthOk(p.left) && DepthOk(p.right) && Within(p, lo, hi) && Depth(p.right) > Depth(p.left) + 1
    ensures Lookup(Rotate(p), k) == Lookup(p, k)
  {
    var r := p.right;
    assert Within(r, Some(p.key), hi) && Within(r.left, Some(p.key), Some(r.key));
    if Depth(r.left) > Depth(r.right) {
      assert Lookup(RotateRight(r), k) == Lookup(r, k);
    }
  }

  /** Rebalancing moves nodes around; it does not change what a key maps to. */
  lemma RotateLookup(p: Node, lo: Option<UnitId>, hi: Option<UnitId>, k: UnitId)
    requires DepthOk(p.left) && DepthOk(p.right) && Within(p, lo, hi)
    ensures Lookup(Rotate(p), k) == Lookup(p, k)
  {
    if Depth(p.left) > Depth(p.right) + 1 {
      RotateRightLookup(p, lo, hi, k);
    } else if Depth(p.right) > Depth(p.left) + 1 {
      RotateLeftLookup(p, lo, hi, k);
    }
  }

  lemma RotateRightBits(p: Node)
    requires DepthOk(p.left) && DepthOk(p.right) && Bits(p) && !p.clean && Depth(p.left) > Depth(p.right) + 1
    ensures Bits(Rotate(p)) && !Rotate(p).clean
  {
    var l := p.left;
    assert Bits(l) && Bits(l.left) && Bits(l.right) && CacheOk(l) && CacheOk(p);
    if Depth(l.left) < Depth(l.right) {
      var m := RotateLeft(l);
      assert CacheOk(l.right) && Bits(m.left) && Bits(m.right);
      var q := RotateRight(p.(left := m));
      assert Bits(q.right);
    } else {
      var q := RotateRight(p);
      assert Bits(q.right);
    }
  }

  lemma RotateLeftBits(p: Node)
    requires DepthOk(p.left) && DepthOk(p.right) && Bits(p) && !p.clean && Depth(p.right) > Depth(p.left) + 1
    ensures Bits(Rotate(p)) && !Rotate(p).clean
  {
    var r := p.right;
    assert Bits(r) && Bits(r.left) && Bits(r.right) && CacheOk(r) && CacheOk(p);
    if Depth(r.left) > Depth(r.right) {
      var m := RotateRight(r);
      assert CacheOk(r.left) && Bits(m.left) && Bits(m.right);
      var q := RotateLeft(p.(right := m));
      assert Bits(q.left);
    } else {
      var q := RotateLeft(p);
      assert Bits(q.left);
    }
  }

  /** Rebalancing writes dirty nodes only, and those carry no summary. */
  lemma RotateBits(p: Node)
    requires DepthOk(p.left) && DepthOk(p.right) && Bits(p) && !p.clean
    ensures Bits(Rotate(p)) && !Rotate(p).clean
  {
    if Depth(p.left) > Depth(p.right) + 1 {
      RotateRightBits(p);
    } else if Depth(p.right) > Depth(p.left) + 1 {
      RotateLeftBits(p);
    }
  }

  /** The height of one child moved by at most one: rebalancing gives an AVL tree again, and its
      height moves at most one the same way. */
  lemma RebalanceLeft(t: Node, l: Tree, lo: Option<UnitId>, hi: Option<UnitId>)
    requires DepthOk(t) && Balanced(t) && Within(t, lo, hi)
    requires DepthOk(l) && Balanced(l) && Within(l, lo, Some(t.key)) && -1 <= Depth(l) - Depth(t.left) <= 1
    ensures var p := Writable(t); var r := Rotate(p.(left := l));
      && Balanced(r) && Within(r, lo, hi)
      && (Depth(l) >= Depth(t.left) ==> Depth(t) <= Depth(r) <= Depth(t) + 1)
      && (Depth(l) <= Depth(t.left) ==> Depth(t) - 1 <= Depth(r) <= Depth(t))
  {
    var p := Writable(t);
    var q: Node := p.(left := l);
    RotateBalances(q);
    RotateSorted(q, lo, hi);
  }

  lemma RebalanceRight(t: Node, r: Tree, lo: Option<UnitId>, hi: Option<UnitId>)
    requires DepthOk(t) && Balanced(t) && Within(t, lo, hi)
    requires DepthOk(r) && Balanced(r) && Within(r, Some(t.key), hi) && -1 <= Depth(r) - Depth(t.right) <= 1
    ensures var p := Writable(t); var q := Rotate(p.(right := r));
      && Balanced(q) && Within(q, lo, hi)
      && (Depth(r) >= Depth(t.right) ==> Depth(t) <= Depth(q) <= Depth(t) + 1)
      && (Depth(r) <= Depth(t.right) ==> Depth(t) - 1 <= Depth(q) <= Depth(t))
  {
    var p := Writable(t);
    var q: Node := p.(right := r);
    RotateBalances(q);
    RotateSorted(q, lo, hi);
  }

  lemma RotateIgnoresDepth(p: Node)
    requires DepthOk(p.left) && DepthOk(p.right)
    ensures Rotate(FixDepth(p)) == Rotate(p)
  {
  }

  // ----- the operations, one key at a time -----

  /** Add fails exactly on a present key.  Otherwise the AVL invariants are kept, the height grows
      by at most one, and the new entry is the only difference. */
  lemma {:induction false} InsertCorrect(t: Tree, key: UnitId, value: Unit, lo: Option<UnitId>, hi: Option<UnitId>)
    requires DepthOk(t) && Balanced(t) && Within(t, lo, hi) && After(lo, key) && Before(key, hi)
    ensures var r := Insert(t, key, value);
      && (Lookup(t, key).Some? ==> r == AlreadyExists)
      && (Lookup(t, key).None? ==>
          (r.Done? && Balanced(r.tree) && Within(r.tree, lo, hi) && Depth(t) <= Depth(r.tree) <= Depth(t) + 1))
  {
    if t.Nil? {
      assert Insert(t, key, value).tree ==
        NewLeaf(key, value) && Within(Nil, lo, Some(key)) && Within(Nil, Some(key), hi);
    } else if t.key > key {
      InsertCorrect(t.left, key, value, lo, Some(t.key));
      if Lookup(t, key).None? { RebalanceLeft(t, Insert(t.left, key, value).tree, lo, hi); }
    } else if t.key < key {
      InsertCorrect(t.right, key, value, Some(t.key), hi);
      if Lookup(t, key).None? { RebalanceRight(t, Insert(t.right, key, value).tree, lo, hi); }
    }
  }

  lemma {:induction false} InsertLookup(t: Tree, key: UnitId, value: Unit, lo: Option<UnitId>, hi: Option<UnitId>,
                                        k: UnitId)
    requires DepthOk(t) && Balanced(t) && Within(t, lo, hi) && After(lo, key) && Before(key, hi)
    requires Lookup(t, key).None?
    ensures Insert(t, key, value).Done?
    ensures Lookup(Insert(t, key, value).tree, k) == if k == key then Some(Core(value)) else Lookup(t, k)
  {
    InsertCorrect(t, key, value, lo, hi);
    if t.Bin? && t.key > key {
      InsertCorrect(t.left, key, value, lo, Some(t.key));
      InsertLookup(t.left, key, value, lo, Some(t.key), k);
      RotateLookup(Writable(t).(left := Insert(t.left, key, value).tree), lo, hi, k);
    } else if t.Bin? && t.key < key {
      InsertCorrect(t.right, key, value, Some(t.key), hi);
      InsertLookup(t.right, key, value, Some(t.key), hi, k);
      RotateLookup(Writable(t).(right := Insert(t.right, key, value).tree), lo, hi, k);
    }
  }

  lemma {:induction false} InsertBits(t: Tree, key: UnitId, value: Unit)
    requires DepthOk(t) && Bits(t) && Uncached(value)
    ensures var r := Insert(t, key, value); r.Done? ==> Bits(r.tree) && !r.tree.clean
  {
    if t.Bin? && t.key > key && Insert(t, key, value).Done? {
      InsertBits(t.left, key, value);
      RotateBits(Writable(t).(left := Insert(t.left, key, value).tree));
    } else if t.Bin? && t.key < key && Insert(t, key, value).Done? {
      InsertBits(t.right, key, value);
      RotateBits(Writable(t).(right := Insert(t.right, key, value).tree));
    }
  }

  /** Update fails exactly on a missing key.  Otherwise the shape stays and the entry is replaced. */
  lemma {:induction false} UpdateCorrect(t: Tree, key: UnitId, value: Unit, lo: Option<UnitId>, hi: Option<UnitId>)
    requires DepthOk(t) && Balanced(t) && Within(t, lo, hi)
    ensures var r := Update(t, key, value);
      && (Lookup(t, key).None? ==> r == NotFound)
      && (Lookup(t, key).Some? ==>
          (r.Done? && DepthOk(r.tree) && Balanced(r.tree) && Within(r.tree, lo, hi) && Depth(r.tree) == Depth(t)))
  {
    if t.Bin? && t.key > key { UpdateCorrect(t.left, key, value, lo, Some(t.key)); }
    if t.Bin? && t.key < key { UpdateCorrect(t.right, key, value, Some(t.key), hi); }
  }

  lemma {:induction false} UpdateLookup(t: Tree, key: UnitId, value: Unit, k: UnitId)
    requires Update(t, key, value).Done?
    ensures Lookup(Update(t, key, value).tree, k) == if k == key then Some(Core(value)) else Lookup(t, k)
  {
    if t.key > key { UpdateLookup(t.left, key, value, k); }
    else if t.key < key { UpdateLookup(t.right, key, value, k); }
  }

  lemma {:induction false} UpdateBits(t: Tree, key: UnitId, value: Unit)
    requires Bits(t) && Uncached(value)
    ensures var r := Update(t, key, value); r.Done? ==> r.tree.Bin? && Bits(r.tree) && !r.tree.clean
  {
    if t.Bin? {
      if t.key > key { UpdateBits(t.left, key, value); }
      else if t.key < key { UpdateBits(t.right, key, value); }
    }
  }

  lemma {:induction false} WithinWiden(t: Tree, lo: Option<UnitId>, hi: Option<UnitId>, lo': Option<UnitId>,
                                       hi': Option<UnitId>)
    requires Within(t, lo, hi)
    requires lo' == lo || lo'.None? || (lo.Some? && lo'.value <= lo.value)
    requires hi' == hi || hi'.None? || (hi.Some? && hi.value <= hi'.value)
    ensures Within(t, lo', hi')
  {
    if t.Bin? {
      WithinWiden(t.left, lo, Some(t.key), lo', Some(t.key));
      WithinWiden(t.right, Some(t.key), hi, Some(t.key), hi');
    }
  }

  /** Keys outside the bounds are not stored. */
  lemma {:induction false} OutOfBounds(t: Tree, lo: Option<UnitId>, hi: Option<UnitId>, k: UnitId)
    requires Within(t, lo, hi) && !(After(lo, k) && Before(k, hi))
    ensures Lookup(t, k).None?
  {
    if t.Bin? {
      OutOfBounds(t.left, lo, Some(t.key), k);
      OutOfBounds(t.right, Some(t.key), hi, k);
    }
  }

  lemma ReplaceStep(parent: Node, rest: Tree, lo: Option<UnitId>, pk: UnitId)
    requires DepthOk(parent) && Balanced(parent) && After(lo, parent.key) && Within(parent.left, lo, Some(parent.key))
    requires DepthOk(rest) && Balanced(rest) && Within(rest, Some(parent.key), Some(pk)) && parent.key < pk
    requires Depth(parent.right) - 1 <= Depth(rest) <= Depth(parent.right)
    ensures var r := Rotate(FixDepth(parent.(right := rest)));
      Balanced(r) && Within(r, lo, Some(pk)) && Depth(parent) - 1 <= Depth(r) <= Depth(parent)
  {
    var q := FixDepth(parent.(right := rest));
    RotateBalances(q);
    RotateSorted(q, lo, Some(pk));
  }

  /** The predecessor that deletion moves up is the largest entry; what is left is an AVL tree below it. */
  lemma {:induction false} ReplaceCorrect(parent: Node, lo: Option<UnitId>, hi: Option<UnitId>)
    requires DepthOk(parent) && Balanced(parent) && Within(parent, lo, hi)
    ensures var (rest, pred) := Replace(parent);
      && Balanced(rest) && Depth(parent) - 1 <= Depth(rest) <= Depth(parent)
      && After(lo, pred.key) && Before(pred.key, hi) && parent.key <= pred.key && Within(rest, lo, Some(pred.key))
    decreases parent.right
  {
    if parent.right.Bin? {
      var node := Writable(parent.right);
      assert Balanced(node) && DepthOk(node) && Within(node, Some(parent.key), hi);
      if node.right.Bin? {
        ReplaceCorrect(node, Some(parent.key), hi);
        ReplaceStep(parent, Replace(node).0, lo, Replace(node).1.key);
      } else {
        ReplaceStep(parent, node.left, lo, node.key);
      }
    }
  }

  lemma {:induction false} ReplaceLookup(parent: Node, lo: Option<UnitId>, hi: Option<UnitId>, k: UnitId)
    requires DepthOk(parent) && Balanced(parent) && Within(parent, lo, hi)
    ensures var (rest, pred) := Replace(parent);
      Lookup(parent, k) == if k == pred.key then Some(Core(pred.value)) else Lookup(rest, k)
    decreases parent.right
  {
    hide Rotate;
    ReplaceCorrect(parent, lo, hi);
    if parent.right.Bin? {
      var node := Writable(parent.right);
      if node.right.Bin? {
        assert Balanced(node) && Within(node, Some(parent.key), hi);
        ReplaceCorrect(node, Some(parent.key), hi);
        ReplaceLookup(node, Some(parent.key), hi, k);
        var (rest, pred) := Replace(node);
        RotateLookup(FixDepth(parent.(right := rest)), lo, Some(pred.key), k);
        assert Lookup(node, k) == Lookup(parent.right, k);
      } else {
        assert Within(node, Some(parent.key), hi);
        RotateLookup(FixDepth(parent.(right := node.left)), lo, Some(node.key), k);
        if k > node.key { OutOfBounds(node.left, Some(parent.key), Some(node.key), k); }
      }
    } else if k > parent.key {
      OutOfBounds(parent.left, lo, Some(parent.key), k);
    }
  }

  lemma {:induction false} ReplaceBits(parent: Node)
    requires DepthOk(parent.left) && DepthOk(parent.right) && Bits(parent) && !parent.clean
    ensures var (rest, pred) := Replace(parent);
      Bits(rest) && !pred.clean && !pred.value.calculated && LogHashOk(pred.value)
    decreases parent.right
  {
    if parent.right.Bin? {
      var node := Writable(parent.right);
      assert Bits(parent.right) && Bits(node);
      if node.right.Bin? {
        ReplaceBits(node);
        RotateBits(FixDepth(parent.(right := Replace(node).0)));
      } else {
        RotateBits(FixDepth(parent.(right := node.left)));
      }
    }
  }

  lemma RemoveRootCorrect(t: Node, lo: Option<UnitId>, hi: Option<UnitId>)
    requires DepthOk(t) && Balanced(t) && Within(t, lo, hi)
    ensures var r := RemoveRoot(t); Balanced(r) && Within(r, lo, hi) && Depth(t) - 1 <= Depth(r) <= Depth(t)
  {
    if t.left.Bin? && t.right.Bin? {
      var c := Copy(t.left);
      assert Balanced(c) && Within(c, lo, Some(t.key));
      ReplaceCorrect(c, lo, Some(t.key));
      var (rest, pred) := Replace(c);
      WithinWiden(t.right, Some(t.key), hi, Some(pred.key), hi);
      var q := FixDepth(t.(key := pred.key, value := pred.value, left := rest));
      RotateBalances(q);
      RotateSorted(q, lo, hi);
    } else if t.left.Bin? {
      WithinWiden(t.left, lo, Some(t.key), lo, hi);
    } else {
      WithinWiden(t.right, Some(t.key), hi, lo, hi);
    }
  }

  lemma RemoveRootLookup(t: Node, lo: Option<UnitId>, hi: Option<UnitId>, k: UnitId)
    requires DepthOk(t) && Balanced(t) && Within(t, lo, hi)
    ensures Lookup(RemoveRoot(t), k) == if k == t.key then None else Lookup(t, k)
  {
    if k <= t.key { OutOfBounds(t.right, Some(t.key), hi, k); }
    if k >= t.key { OutOfBounds(t.left, lo, Some(t.key), k); }
    if t.left.Bin? && t.right.Bin? {
      var c := Copy(t.left);
      assert Balanced(c) && Within(c, lo, Some(t.key)) && Lookup(c, k) == Lookup(t.left, k);
      ReplaceCorrect(c, lo, Some(t.key));
      ReplaceLookup(c, lo, Some(t.key), k);
      var (rest, pred) := Replace(c);
      WithinWiden(t.right, Some(t.key), hi, Some(pred.key), hi);
      if k > pred.key { OutOfBounds(rest, lo, Some(pred.key), k); }
      var q := FixDepth(t.(key := pred.key, value := pred.value, left := rest));
      RotateLookup(q, lo, hi, k);
    }
  }

  /** Delete fails exactly on a missing key.  Otherwise the AVL invariants are kept, the height
      shrinks by at most one, and the deleted entry is the only difference. */
  lemma {:induction false} RemoveCorrect(t: Tree, key: UnitId, lo: Option<UnitId>, hi: Option<UnitId>)
    requires DepthOk(t) && Balanced(t) && Within(t, lo, hi)
    ensures var r := Remove(t, key);
      && (Lookup(t, key).None? ==> r == NotFound)
      && (Lookup(t, key).Some? ==>
          (r.Done? && Balanced(r.tree) && Within(r.tree, lo, hi) && Depth(t) - 1 <= Depth(r.tree) <= Depth(t)))
  {
    if t.Bin? && t.key > key {
      RemoveCorrect(t.left, key, lo, Some(t.key));
      if Lookup(t, key).Some? {
        var l := Remove(t.left, key).tree;
        RebalanceLeft(t, l, lo, hi);
        RotateIgnoresDepth(Writable(t).(left := l));
      }
    } else if t.Bin? && t.key < key {
      RemoveCorrect(t.right, key, Some(t.key), hi);
      if Lookup(t, key).Some? {
        var r := Remove(t.right, key).tree;
        RebalanceRight(t, r, lo, hi);
        RotateIgnoresDepth(Writable(t).(right := r));
      }
    } else if t.Bin? {
      assert Balanced(Writable(t)) && Within(Writable(t), lo, hi);
      RemoveRootCorrect(Writable(t), lo, hi);
    }
  }

  lemma {:induction false} RemoveLookup(t: Tree, key: UnitId, lo: Option<UnitId>, hi: Option<UnitId>, k: UnitId)
    requires DepthOk(t) && Balanced(t) && Within(t, lo, hi) && Lookup(t, key).Some?
    ensures Remove(t, key).Done?
    ensures Lookup(Remove(t, key).tree, k) == if k == key then None else Lookup(t, k)
  {
    RemoveCorrect(t, key, lo, hi);
    if t.key > key {
      RemoveCorrect(t.left, key, lo, Some(t.key));
      RemoveLookup(t.left, key, lo, Some(t.key), k);
      RotateLookup(FixDepth(Writable(t).(left := Remove(t.left, key).tree)), lo, hi, k);
    } else if t.key < key {
      RemoveCorrect(t.right, key, Some(t.key), hi);
      RemoveLookup(t.right, key, Some(t.key), hi, k);
      RotateLookup(FixDepth(Writable(t).(right := Remove(t.right, key).tree)), lo, hi, k);
    } else {
      assert Balanced(Writable(t)) && Within(Writable(t), lo, hi);
      RemoveRootLookup(Writable(t), lo, hi, k);
      assert Lookup(Writable(t), k) == Lookup(t, k);
    }
  }

  lemma {:induction false} RemoveBits(t: Tree, key: UnitId)
    requires DepthOk(t) && Bits(t)
    ensures var r := Remove(t, key); r.Done? ==> Bits(r.tree)
  {
    if t.Bin? && Remove(t, key).Done? {
      var node := Writable(t);
      if t.key > key {
        RemoveBits(t.left, key);
        RotateBits(FixDepth(node.(left := Remove(t.left, key).tree)));
      } else if t.key < key {
        RemoveBits(t.right, key);
        RotateBits(FixDepth(node.(right := Remove(t.right, key).tree)));
      } else if t.left.Bin? && t.right.Bin? {
        assert Bits(t.left) && Bits(Copy(t.left));
        ReplaceBits(Copy(t.left));
        var (rest, pred) := Replace(Copy(t.left));
        RotateBits(FixDepth(node.(key := pred.key, value := pred.value, left := rest)));
      }
    }
  }

  lemma {:induction false} MarkCleanKeeps(t: Tree, lo: Option<UnitId>, hi: Option<UnitId>)
    requires DepthOk(t) && Balanced(t) && Within(t, lo, hi) && Cached(t)
    ensures var r := MarkClean(t); DepthOk(r) && Balanced(r) && Within(r, lo, hi) && Depth(r) == Depth(t) && Bits(r)
    ensures Stored(MarkClean(t)) == Stored(t)
  {
    if t.Bin? {
      MarkCleanKeeps(t.left, lo, Some(t.key));
      MarkCleanKeeps(t.right, Some(t.key), hi);
      assert CacheOk(t);
    }
  }

  lemma {:induction false} MarkCleanLookup(t: Tree, k: UnitId)
    ensures Lookup(MarkClean(t), k) == Lookup(t, k)
  {
    if t.Bin? {
      MarkCleanLookup(t.left, k);
      MarkCleanLookup(t.right, k);
    }
  }

  lemma {:induction false} AllCleanFixed(t: Tree)
    requires AllClean(t)
    ensures MarkClean(t) == t && CleanDown(t)
  {
    if t.Bin? {
      AllCleanFixed(t.left);
      AllCleanFixed(t.right);
    }
  }

  lemma {:induction false} CleanRootAllClean(t: Tree)
    requires CleanDown(t) && (t.Nil? || t.clean)
    ensures AllClean(t)
  {
    if t.Bin? {
      CleanRootAllClean(t.left);
      CleanRootAllClean(t.right);
    }
  }

  // ----- the tree as a map -----

  /** The map a tree stands for: cached summaries are not part of it. */
  function Contents(t: Tree): (m: map<UnitId, Unit>)
  {
    if t.Nil? then map[] else Contents(t.left) + map[t.key := Core(t.value)] + Contents(t.right)
  }

  lemma {:induction false} ContentsLookup(t: Tree, lo: Option<UnitId>, hi: Option<UnitId>, k: UnitId)
    requires Within(t, lo, hi)
    ensures Lookup(t, k) == if k in Contents(t) then Some(Contents(t)[k]) else None
  {
    if t.Bin? {
      ContentsLookup(t.left, lo, Some(t.key), k);
      ContentsLookup(t.right, Some(t.key), hi, k);
      if k <= t.key { OutOfBounds(t.right, Some(t.key), hi, k); }
      if k >= t.key { OutOfBounds(t.left, lo, Some(t.key), k); }
    }
  }

  lemma MapBySearch(t: Tree, m: map<UnitId, Unit>)
    requires Sorted(t)
    requires forall k :: Lookup(t, k) == if k in m then Some(m[k]) else None
    ensures Contents(t) == m
  {
    forall k ensures (k in Contents(t) <==> k in m) && (k in m ==> Contents(t)[k] == m[k]) {
      ContentsLookup(t, None, None, k);
      assert Lookup(t, k) == if k in m then Some(m[k]) else None;
    }
  }

  lemma LookupAll(t: Tree)
    requires Sorted(t)
    ensures forall k :: Lookup(t, k) == if k in Contents(t) then Some(Contents(t)[k]) else None
  {
    forall k { ContentsLookup(t, None, None, k); }
  }

  /** Add refines inserting into a map: it fails exactly when the key is present. */
  lemma InsertRefines(t: Tree, key: UnitId, value: Unit)
    requires Valid(t) && Uncached(value)
    ensures var r := Insert(t, key, value);
      && (key in Contents(t) ==> r == AlreadyExists)
      && (key !in Contents(t) ==> r.Done? && Valid(r.tree) && Contents(r.tree) == Contents(t)[key := Core(value)])
  {
    LookupAll(t);
    InsertCorrect(t, key, value, None, None);
    InsertBits(t, key, value);
    if key !in Contents(t) {
      forall k { InsertLookup(t, key, value, None, None, k); }
      MapBySearch(Insert(t, key, value).tree, Contents(t)[key := Core(value)]);
    }
  }

  /** Update refines overwriting in a map: it fails exactly when the key is missing. */
  lemma UpdateRefines(t: Tree, key: UnitId, value: Unit)
    requires Valid(t) && Uncached(value)
    ensures var r := Update(t, key, value);
      && (key !in Contents(t) ==> r == NotFound)
      && (key in Contents(t) ==> r.Done? && Valid(r.tree) && Contents(r.tree) == Contents(t)[key := Core(value)])
  {
    LookupAll(t);
    UpdateCorrect(t, key, value, None, None);
    UpdateBits(t, key, value);
    if key in Contents(t) {
      forall k { UpdateLookup(t, key, value, k); }
      MapBySearch(Update(t, key, value).tree, Contents(t)[key := Core(value)]);
    }
  }

  /** Delete refines removing from a map: it fails exactly when the key is missing. */
  lemma RemoveRefines(t: Tree, key: UnitId)
    requires Valid(t)
    ensures var r := Remove(t, key);
      && (key !in Contents(t) ==> r == NotFound)
      && (key in Contents(t) ==> r.Done? && Valid(r.tree) && Contents(r.tree) == Contents(t) - {key})
  {
    LookupAll(t);
    RemoveCorrect(t, key, None, None);
    RemoveBits(t, key);
    if key in Contents(t) {
      forall k { RemoveLookup(t, key, None, None, k); }
      MapBySearch(Remove(t, key).tree, Contents(t) - {key});
    }
  }

  /** Get refines looking up in the map. */
  lemma {:induction false} GetLookup(t: Tree, key: UnitId)
    ensures Lookup(t, key) == match Get(t, key) case None => None case Some(u) => Some(Core(u))
  {
    if t.Bin? {
      GetLookup(t.left, key);
      GetLookup(t.right, key);
    }
  }

  lemma GetRefines(t: Tree, key: UnitId)
    requires Valid(t)
    ensures Get(t, key).Some? <==> key in Contents(t)
    ensures key in Contents(t) ==> Core(Get(t, key).value) == Contents(t)[key]
  {
    GetLookup(t, key);
    ContentsLookup(t, None, None, key);
  }

  /** The commit traversal changes clean bits only. */
  lemma MarkCleanRefines(t: Tree)
    requires Valid(t)
    ensures Valid(MarkClean(t)) && AllClean(MarkClean(t)) && Contents(MarkClean(t)) == Contents(t)
  {
    LookupAll(t);
    MarkCleanKeeps(t, None, None);
    forall k { MarkCleanLookup(t, k); }
    MapBySearch(MarkClean(t), Contents(t));
  }

  // ----- state_hasher.go -----

  /** The summary computed from nothing but the units: what an empty cache would give. */
  function Recompute(t: Tree): (s: Summary)
  {
    if t.Nil? then Summary(0, NoHash) else Combine(t.key, t.value, Recompute(t.left), Recompute(t.right))
  }

  /** A unit after its node was hashed: the last log entry becomes its data. */
  function Settled(u: Unit, s: Summary): (r: Unit)
  {
    var e := Effective(u);
    Unit(u.logs, if u.logsHash == NoHash then LogsRoot(u.logs) else u.logsHash, e.data, e.deletionRound, e.lock,
         s.value, s.hash, true)
  }

  function NodeSummary(key: UnitId, u: Unit, l: Summary, r: Summary): (s: Summary)
  {
    var logsHash := if u.logsHash == NoHash then LogsRoot(u.logs) else u.logsHash;
    var v := (SummaryInput(Effective(u).data) + l.value + r.value) % TWO64;
    Summary(v, NodeHash(key, logsHash, v, l.hash, l.value, r.hash, r.value))
  }

  /** The hasher's traversal: it skips subtrees whose root is clean and calculated. */
  function Rehash(t: Tree): (r: Tree)
  {
    if t.Nil? || (t.clean && t.value.calculated) then t
    else
      var l, r := Rehash(t.left), Rehash(t.right);
      Bin(l, t.key, Settled(t.value, NodeSummary(t.key, t.value, Stored(l), Stored(r))), t.depth, true, r)
  }

  lemma {:induction false} CalculatedIsExact(t: Tree)
    requires Cached(t) && (t.Nil? || t.value.calculated)
    ensures Stored(t) == Recompute(t)
  {
    if t.Bin? {
      CalculatedIsExact(t.left);
      CalculatedIsExact(t.right);
    }
  }

  /** One node: with exact, clean children the summary written to it is exact. */
  lemma RehashNode(t: Node, l: Tree, r: Tree)
    requires CacheOk(t) && Bits(l) && Bits(r)
    requires (l.Nil? || (l.clean && l.value.calculated)) && (r.Nil? || (r.clean && r.value.calculated))
    ensures var s := NodeSummary(t.key, t.value, Stored(l), Stored(r));
      var n := Bin(l, t.key, Settled(t.value, s), t.depth, true, r);
      Bits(n) && s == Combine(t.key, t.value, Stored(l), Stored(r)) &&
      forall x, y :: Combine(t.key, n.value, x, y) == Combine(t.key, t.value, x, y)
  {
    SettledKeeps(t.value, NodeSummary(t.key, t.value, Stored(l), Stored(r)));
  }

  /** Skipping is never stale: the incremental traversal stores exactly what a recomputation from
      the units alone gives, and leaves a tree whose every cache is right. */
  lemma {:induction false} RehashExact(t: Tree)
    requires Bits(t)
    ensures var r := Rehash(t);
      && Stored(r) == Recompute(t) && Recompute(r) == Recompute(t)
      && (r.Nil? || (r.clean && r.value.calculated)) && Bits(r)
  {
    if t.Nil? || (t.clean && t.value.calculated) {
      CalculatedIsExact(t);
    } else {
      RehashExact(t.left);
      RehashExact(t.right);
      RehashNode(t, Rehash(t.left), Rehash(t.right));
    }
  }

  lemma SettledKeeps(u: Unit, s: Summary)
    ensures Hashable(Settled(u, s)) == Hashable(u)
  {
  }

  /** Every entry as the hashes see it. */
  function Entries(t: Tree): (m: map<UnitId, (UnitState, seq<Log>, Digest)>)
  {
    if t.Nil? then map[] else Entries(t.left) + map[t.key := Hashable(t.value)] + Entries(t.right)
  }

  /** Hashing keeps shape, keys and effective units. */
  lemma {:induction false} RehashKeeps(t: Tree, lo: Option<UnitId>, hi: Option<UnitId>)
    requires DepthOk(t) && Balanced(t) && Within(t, lo, hi)
    ensures var r := Rehash(t);
      DepthOk(r) && Balanced(r) && Within(r, lo, hi) && Depth(r) == Depth(t) && Entries(r) == Entries(t)
  {
    if t.Bin? && !(t.clean && t.value.calculated) {
      RehashKeeps(t.left, lo, Some(t.key));
      RehashKeeps(t.right, Some(t.key), hi);
      SettledKeeps(t.value, NodeSummary(t.key, t.value, Stored(Rehash(t.left)), Stored(Rehash(t.right))));
    }
  }

  // ----- log hashes -----

  /** The summary computed from the logs alone. */
  function FromLogs(t: Tree): (s: Summary)
  {
    if t.Nil? then Summary(0, NoHash)
    else
      var l, r := FromLogs(t.left), FromLogs(t.right);
      var v := (SummaryInput(Effective(t.value).data) + l.value + r.value) % TWO64;
      Summary(v, NodeHash(t.key, LogsRoot(t.value.logs), v, l.hash, l.value, r.hash, r.value))
  }

  /** Every unit's log hash is the one of its log. */
  predicate LogsTrue(t: Tree)
  {
    t.Nil? || (LogHash(t.value) == LogsRoot(t.value.logs) && LogsTrue(t.left) && LogsTrue(t.right))
  }

  /** The summary is the one computed from the logs exactly when every log hash is. */
  lemma {:induction false} FromLogsExact(t: Tree)
    ensures Recompute(t).value == FromLogs(t).value
    ensures Recompute(t) == FromLogs(t) <==> LogsTrue(t)
  {
    if t.Bin? {
      FromLogsExact(t.left);
      FromLogsExact(t.right);
    }
  }

  /** Where no unit waits to be pruned, all log hashes are true. */
  lemma {:induction false} PlainLogsTrue(t: Tree, lo: Option<UnitId>, hi: Option<UnitId>)
    requires Within(t, lo, hi) && forall k :: k in Contents(t) ==> !Unpruned(Contents(t)[k])
    ensures LogsTrue(t)
  {
    if t.Bin? {
      ContentsParts(t, lo, hi);
      PlainLogsTrue(t.left, lo, Some(t.key));
      PlainLogsTrue(t.right, Some(t.key), hi);
    }
  }

  lemma ContentsParts(t: Node, lo: Option<UnitId>, hi: Option<UnitId>)
    requires Within(t, lo, hi)
    ensures t.key in Contents(t) && Contents(t)[t.key] == Core(t.value)
    ensures forall k :: k in Contents(t.left) ==> k in Contents(t) && Contents(t)[k] == Contents(t.left)[k]
    ensures forall k :: k in Contents(t.right) ==> k in Contents(t) && Contents(t)[k] == Contents(t.right)[k]
  {
    forall k | k in Contents(t.left) || k == t.key ensures k !in Contents(t.right) {
      ContentsLookup(t.left, lo, Some(t.key), k);
      ContentsLookup(t.right, Some(t.key), hi, k);
      if k > t.key { OutOfBounds(t.left, lo, Some(t.key), k); }
      if k <= t.key { OutOfBounds(t.right, Some(t.key), hi, k); }
    }
    if t.key in Contents(t.left) {
      ContentsLookup(t.left, lo, Some(t.key), t.key);
      OutOfBounds(t.left, lo, Some(t.key), t.key);
    }
  }

  // ----- what hashing does to the units -----

  /** Every unit is as its last log entry says. */
  predicate AllLogged(m: map<UnitId, Unit>) { forall k :: k in m ==> IsLogged(m[k]) }

  /** The units may differ, but not in what their logs say. */
  predicate Alike(m: map<UnitId, Unit>, m': map<UnitId, Unit>)
  {
    m'.Keys == m.Keys && forall k :: k in m ==> Effective(m'[k]) == Effective(m[k]) && m'[k].logs == m[k].logs
  }

  predicate Records(e: map<UnitId, (UnitState, seq<Log>, Digest)>, m: map<UnitId, Unit>)
  {
    e.Keys == m.Keys && forall k :: k in m ==> e[k].0 == Effective(m[k]) && e[k].1 == m[k].logs
  }

  lemma {:induction false} EntriesRecord(t: Tree)
    ensures Records(Entries(t), Contents(t))
  {
    if t.Bin? {
      EntriesRecord(t.left);
      EntriesRecord(t.right);
      RecordsJoin(Entries(t.left), Contents(t.left), map[t.key := Hashable(t.value)], map[t.key := Core(t.value)]);
      RecordsJoin(Entries(t.left) + map[t.key := Hashable(t.value)], Contents(t.left) + map[t.key := Core(t.value)],
                  Entries(t.right), Contents(t.right));
    }
  }

  lemma RecordsJoin(e: map<UnitId, (UnitState, seq<Log>, Digest)>, m: map<UnitId, Unit>,
                    e': map<UnitId, (UnitState, seq<Log>, Digest)>, m': map<UnitId, Unit>)
    requires Records(e, m) && Records(e', m')
    ensures Records(e + e', m + m')
  {
    hide Effective;
  }

  lemma SameEntriesAlike(t: Tree, t': Tree)
    requires Entries(t) == Entries(t')
    ensures Alike(Contents(t), Contents(t'))
  {
    hide Entries, Contents, Effective;
    EntriesRecord(t);
    EntriesRecord(t');
  }

  /** Writing down what the log says changes nothing where the log is up to date. */
  lemma {:induction false} RehashLogged(t: Tree, lo: Option<UnitId>, hi: Option<UnitId>)
    requires Within(t, lo, hi) && AllLogged(Contents(t))
    ensures Contents(Rehash(t)) == Contents(t)
  {
    if t.Bin? && !(t.clean && t.value.calculated) {
      ContentsParts(t, lo, hi);
      assert IsLogged(Contents(t)[t.key]);
      forall k | k in Contents(t.left) ensures IsLogged(Contents(t.left)[k]) {
        assert IsLogged(Contents(t)[k]);
      }
      forall k | k in Contents(t.right) ensures IsLogged(Contents(t.right)[k]) {
        assert IsLogged(Contents(t)[k]);
      }
      RehashLogged(t.left, lo, Some(t.key));
      RehashLogged(t.right, Some(t.key), hi);
    }
  }
}
