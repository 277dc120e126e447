/** Two trees that start as one: a clone shares every node with the original, and both are then
    changed in any order.  Each ends up as if the other did not exist. */
module Clones {
  import opened Units
  import opened AvlHeap
  import A = Avl

  /** What can be done to one copy. */
  datatype Op =
    | Add(key: UnitId, value: Unit)
    | Update(key: UnitId, value: Unit)
    | Delete(key: UnitId)
    | Commit

  /** Units enter the tree without cached hashes. */
  predicate Plain(op: Op)
  {
    (op.Add? || op.Update?) ==> A.Uncached(op.value)
  }

  /** One operation on one tree; a failed operation leaves it as it was. */
  function Step(t: A.Tree, op: Op): (r: A.Tree)
    requires A.Valid(t) && Plain(op)
    ensures A.Valid(r)
  {
    match op
    case Commit => A.MarkCleanRefines(t); A.MarkClean(t)
    case Add(k, u) => A.InsertRefines(t, k, u); var o := A.Insert(t, k, u); if o.Done? then o.tree else t
    case Update(k, u) => A.UpdateRefines(t, k, u); var o := A.Update(t, k, u); if o.Done? then o.tree else t
    case Delete(k) => A.RemoveRefines(t, k); var o := A.Remove(t, k); if o.Done? then o.tree else t
  }

  /** The same operation on a map. */
  function MapStep(m: map<UnitId, Unit>, op: Op): (r: map<UnitId, Unit>)
  {
    match op
    case Commit => m
    case Add(k, u) => if k in m then m else m[k := Core(u)]
    case Update(k, u) => if k in m then m[k := Core(u)] else m
    case Delete(k) => m - {k}
  }

  lemma StepRefines(t: A.Tree, op: Op)
    requires A.Valid(t) && Plain(op)
    ensures A.Contents(Step(t, op)) == MapStep(A.Contents(t), op)
  {
    match op
    case Commit => A.MarkCleanRefines(t);
    case Add(k, u) => A.InsertRefines(t, k, u);
    case Update(k, u) => A.UpdateRefines(t, k, u);
    case Delete(k) => A.RemoveRefines(t, k);
  }

  /** The operations of an interleaving that go to one copy, applied to a tree that nobody shares. */
  function Alone(t: A.Tree, ops: seq<(bool, Op)>, which: bool): (r: A.Tree)
    requires A.Valid(t) && forall i :: 0 <= i < |ops| ==> Plain(ops[i].1)
    ensures A.Valid(r)
  {
    if ops == [] then t
    else
      var n := |ops| - 1;
      var before := Alone(t, ops[..n], which);
      if ops[n].0 == which then Step(before, ops[n].1) else before
  }

  function MapAlone(m: map<UnitId, Unit>, ops: seq<(bool, Op)>, which: bool): (r: map<UnitId, Unit>)
  {
    if ops == [] then m
    else
      var n := |ops| - 1;
      var before := MapAlone(m, ops[..n], which);
      if ops[n].0 == which then MapStep(before, ops[n].1) else before
  }

  lemma {:induction false} AloneRefines(t: A.Tree, ops: seq<(bool, Op)>, which: bool)
    requires A.Valid(t) && forall i :: 0 <= i < |ops| ==> Plain(ops[i].1)
    ensures A.Contents(Alone(t, ops, which)) == MapAlone(A.Contents(t), ops, which)
  {
    if ops != [] {
      var n := |ops| - 1;
      AloneRefines(t, ops[..n], which);
      if ops[n].0 == which {
        StepRefines(Alone(t, ops[..n], which), ops[n].1);
      }
    }
  }

  lemma {:induction false} AllCleanOwned(s: Snap)
    requires A.AllClean(View(s))
    ensures Owned(s) == {}
  {
    if s.S? {
      AllCleanOwned(s.l);
      AllCleanOwned(s.r);
    }
  }

  /** One operation on one copy. */
  method Run(n: Node?, op: Op, ghost s: Snap) returns (q: Node?, ghost s': Snap)
    requires Rep(n, s) && Linear(s) && A.Valid(View(s)) && Plain(op)
    modifies Owned(s)
    ensures Rep(q, s') && Linear(s') && View(s') == Step(View(s), op) && A.Valid(View(s'))
    ensures forall x :: x in Nodes(s') ==> x in Nodes(s) || fresh(x)
    ensures forall x :: x in Owned(s') ==> x in Owned(s) || fresh(x)
  {
    hide Rep, Linear, Nodes, Owned, View, A.DepthOk, A.CleanDown, A.Balanced, A.Within, A.Cached;
    StepRefines(View(s), op);
    var ok := true;
    match op {
      case Add(k, u) => ok, q, s' := AvlHeap.Insert(n, k, u, s);
      case Update(k, u) => ok, q, s' := AvlHeap.Update(n, k, u, s);
      case Delete(k) => ok, q, s' := AvlHeap.Remove(n, k, s);
      case Commit =>
        q := n;
        s' := AvlHeap.MarkClean(n, s);
        A.MarkCleanRefines(View(s));
        AllCleanOwned(s');
    }
    if !ok {
      q, s' := n, s;
    }
  }

  /** A clone and its original, changed in any interleaving: no node that existed before is written,
      and either tree is what its own operations alone make of the common start. */
  method Interleave(root: Node?, ops: seq<(bool, Op)>, ghost s: Snap)
    returns (a: Node?, b: Node?, ghost sa: Snap, ghost sb: Snap)
    requires Rep(root, s) && Linear(s) && A.Valid(View(s)) && A.AllClean(View(s))
    requires forall i :: 0 <= i < |ops| ==> Plain(ops[i].1)
    ensures Rep(a, sa) && View(sa) == Alone(View(s), ops, true)
    ensures Rep(b, sb) && View(sb) == Alone(View(s), ops, false)
    ensures A.Contents(View(sa)) == MapAlone(A.Contents(View(s)), ops, true)
    ensures A.Contents(View(sb)) == MapAlone(A.Contents(View(s)), ops, false)
  {
    hide Rep, Linear, Nodes, Owned, View, A.Valid, A.AllClean, A.Contents, Step, MapStep;
    AllCleanOwned(s);
    a, b, sa, sb := root, root, s, s;
    for i := 0 to |ops|
      invariant Rep(a, sa) && Linear(sa) && A.Valid(View(sa)) && View(sa) == Alone(View(s), ops[..i], true)
      invariant Rep(b, sb) && Linear(sb) && A.Valid(View(sb)) && View(sb) == Alone(View(s), ops[..i], false)
      invariant forall x :: x in Owned(sa) ==> fresh(x)
      invariant forall x :: x in Owned(sb) ==> fresh(x)
      invariant Owned(sa) !! Nodes(sb) && Owned(sb) !! Nodes(sa)
    {
      assert ops[..i + 1][..i] == ops[..i];
      NodesAllocated(sa);
      NodesAllocated(sb);
      if ops[i].0 {
        a, sa := Run(a, ops[i].1, sa);
      } else {
        b, sb := Run(b, ops[i].1, sb);
      }
    }
    assert ops[..|ops|] == ops;
    AloneRefines(View(s), ops, true);
    AloneRefines(View(s), ops, false);
  }
}
