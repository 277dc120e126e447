/** The state file: node records in post-order with child flags, read back over a stack. */
module Recovery {
  import opened Units
  import opened AvlHeap
  import opened Proofs
  import A = Avl
  import StateHeap
  import Store

  datatype NodeRecord = NodeRecord(
    unitId: UnitId,
    data: Option<UnitData>,
    head: Digest,
    path: seq<PathItem>,
    hasLeft: bool,
    hasRight: bool)

  // ----- state_serializer.go -----

  /** A tree can be written when every unit has a log. */
  predicate Logged(t: A.Tree)
  {
    t.Nil? || (|t.value.logs| > 0 && Logged(t.left) && Logged(t.right))
  }

  function RecordOf(t: A.Node): (r: NodeRecord)
    requires |t.value.logs| > 0
  {
    var last := |t.value.logs| - 1;
    var l := t.value.logs[last];
    NodeRecord(t.key, l.data, l.head, MerklePath(t.value.logs, last), t.left.Bin?, t.right.Bin?)
  }

  function Records(t: A.Tree): (rs: seq<NodeRecord>)
    requires Logged(t)
  {
    if t.Nil? then [] else Records(t.left) + Records(t.right) + [RecordOf(t)]
  }

  lemma LoggedParts(t: A.Tree)
    ensures t.Nil? ==> Logged(t) && Records(t) == []
    ensures t.Bin? ==> (Logged(t) <==> |t.value.logs| > 0 && Logged(t.left) && Logged(t.right))
    ensures t.Bin? && Logged(t) ==> Records(t) == Records(t.left) + Records(t.right) + [RecordOf(t)]
  {
  }

  /** Writes the records of a tree behind those already written; fails exactly on an empty log. */
  method Serialize(n: Node?, written: seq<NodeRecord>, ghost s: Snap) returns (out: Option<seq<NodeRecord>>)
    requires Rep(n, s)
    ensures out.Some? <==> Logged(View(s))
    ensures out.Some? ==> out.value == written + Records(View(s))
    decreases s
  {
    hide Rep, View, Logged, Records, MerklePath;
    Root(n, s);
    LoggedParts(View(s));
    if n == null {
      return Some(written);
    }
    Children(n, s);
    Root(n.left, s.l);
    Root(n.right, s.r);
    NodesAllocated(s.r);
    var l := Serialize(n.left, written, s.l);
    if l.None? {
      return None;
    }
    assert Rep(n.right, s.r);
    var r := Serialize(n.right, l.value, s.r);
    if r.None? {
      return None;
    }
    var rec := WriteNode(n);
    if rec.None? {
      return None;
    }
    out := Some(r.value + [rec.value]);
  }

  method WriteNode(n: Node) returns (rec: Option<NodeRecord>)
    ensures rec.None? <==> n.value.logs == []
    ensures rec.Some? ==> var logs := n.value.logs; var last := |logs| - 1;
      rec.value ==
        NodeRecord(n.key, logs[last].data, logs[last].head, MerklePath(logs, last), n.left != null, n.right != null)
  {
    var u := n.value;
    if |u.logs| == 0 {
      return None;
    }
    var last := u.logs[|u.logs| - 1];
    var path := MerklePath(u.logs, |u.logs| - 1);
    rec := Some(NodeRecord(n.key, last.data, last.head, path, n.left != null, n.right != null));
  }

  // ----- state.go: reading the records back -----

  function ReadUnit(r: NodeRecord): (u: Unit)
  {
    var latest := Log(NoHash, r.head, r.data, 0, None);
    var logs := if r.path != [] then [EMPTY_LOG, latest] else [latest];
    Unit(logs, EvalMerklePath(r.path, LeafHash(latest)), None, 0, None, 0, NoHash, false)
  }

  function BalancedNode(key: UnitId, value: Unit, left: A.Tree, right: A.Tree): (t: A.Node)
  {
    A.Bin(left, key, value, A.Max(A.Depth(left), A.Depth(right)) + 1, false, right)
  }

  /** The children a record takes from the stack, right one first; None if the stack is too short. */
  function Pop(stack: seq<A.Tree>, wanted: bool): (r: Option<(A.Tree, seq<A.Tree>)>)
  {
    if !wanted then Some((A.Nil, stack))
    else if stack == [] then None
    else Some((stack[|stack| - 1], stack[..|stack| - 1]))
  }

  function Push(stack: seq<A.Tree>, r: NodeRecord): (st: Option<seq<A.Tree>>)
  {
    match Pop(stack, r.hasRight)
    case None => None
    case Some((right, st1)) =>
      match Pop(st1, r.hasLeft)
      case None => None
      case Some((left, st2)) => Some(st2 + [BalancedNode(r.unitId, ReadUnit(r), left, right)])
  }

  function Rebuild(stack: seq<A.Tree>, rs: seq<NodeRecord>): (st: Option<seq<A.Tree>>)
    decreases |rs|
  {
    if rs == [] then Some(stack)
    else
      match Push(stack, rs[0])
      case None => None
      case Some(st) => Rebuild(st, rs[1..])
  }

  ghost function Views(snaps: seq<Snap>): (ts: seq<A.Tree>)
    ensures |ts| == |snaps|
  {
    seq(|snaps|, i requires 0 <= i < |snaps| => View(snaps[i]))
  }

  /** The trees on the stack are whole and have no node in common. */
  ghost predicate StackOk(stack: seq<Node>, snaps: seq<Snap>)
    reads set i, m | 0 <= i < |snaps| && m in Nodes(snaps[i]) :: m
  {
    && |stack| == |snaps|
    && (forall i :: 0 <= i < |snaps| ==> Rep(stack[i], snaps[i]) && Linear(snaps[i]))
    && (forall i, j :: 0 <= i < j < |snaps| ==> Nodes(snaps[i]) !! Nodes(snaps[j]))
  }

  method PopNode(stack: seq<Node>, wanted: bool, ghost snaps: seq<Snap>)
    returns (ok: bool, n: Node?, rest: seq<Node>, ghost s: Snap, ghost snaps': seq<Snap>)
    requires StackOk(stack, snaps)
    ensures ok <==> Pop(Views(snaps), wanted).Some?
    ensures ok ==>
      Rep(n, s) && Linear(s) && StackOk(rest, snaps') && Pop(Views(snaps), wanted) == Some((View(s), Views(snaps')))
    ensures ok ==> forall i :: 0 <= i < |snaps'| ==> Nodes(s) !! Nodes(snaps'[i])
    ensures ok ==> |snaps'| <= |snaps| && forall i :: 0 <= i < |snaps'| ==> snaps'[i] == snaps[i]
    ensures ok ==> s == E || s in snaps
  {
    ok, n, rest, s, snaps' := true, null, stack, E, snaps;
    if wanted {
      ok := |stack| > 0;
      if ok {
        n, rest, s, snaps' := stack[|stack| - 1], stack[..|stack| - 1], snaps[|snaps| - 1], snaps[..|snaps| - 1];
        assert Views(snaps)[..|snaps| - 1] == Views(snaps');
      }
    }
  }

  method PushNode(stack: seq<Node>, r: NodeRecord, ghost snaps: seq<Snap>, ghost own: set<Node>)
    returns (ok: bool, st: seq<Node>, ghost snaps': seq<Snap>, ghost own': set<Node>)
    requires StackOk(stack, snaps) && forall i :: 0 <= i < |snaps| ==> Nodes(snaps[i]) <= own
    ensures ok <==> Push(Views(snaps), r).Some?
    ensures ok ==> StackOk(st, snaps') && Push(Views(snaps), r) == Some(Views(snaps'))
    ensures forall x :: x in own' ==> x in own || fresh(x)
    ensures ok ==> forall i :: 0 <= i < |snaps'| ==> Nodes(snaps'[i]) <= own'
  {
    hide Rep, Linear, View, StackOk, ReadUnit, Views;
    var right, left, st1, st2;
    ghost var sr, sl, snaps1, snaps2;
    st, snaps', own' := stack, snaps, own;
    ok, right, st1, sr, snaps1 := PopNode(stack, r.hasRight, snaps);
    if ok {
      NodesAllocated(sr);
      ok, left, st2, sl, snaps2 := PopNode(st1, r.hasLeft, snaps1);
      if ok {
        assert Nodes(sl) !! Nodes(sr);
        var n;
        ghost var s;
        n, s := MakeNode(r, left, right, sl, sr, st2, snaps2);
        st, snaps' := PushMade(n, s, st2, snaps2);
        own' := own + {n};
      }
    }
  }

  method MakeNode(r: NodeRecord, left: Node?, right: Node?, ghost sl: Snap, ghost sr: Snap, ghost st: seq<Node>,
                  ghost snaps: seq<Snap>)
    returns (n: Node, ghost s: Snap)
    requires Rep(left, sl) && Rep(right, sr) && Linear(sl) && Linear(sr) && Nodes(sl) !! Nodes(sr) && StackOk(st, snaps)
    ensures fresh(n) && Rep(n, s) && Linear(s) && Nodes(s) == {n} + Nodes(sl) + Nodes(sr)
    ensures View(s) == BalancedNode(r.unitId, ReadUnit(r), View(sl), View(sr)) && StackOk(st, snaps)
    ensures forall i :: 0 <= i < |snaps| ==> n !in Nodes(snaps[i])
  {
    NodesAllocated(sl);
    NodesAllocated(sr);
    forall i | 0 <= i < |snaps| ensures forall x :: x in Nodes(snaps[i]) ==> allocated(x) {
      NodesAllocated(snaps[i]);
    }
    n := new Node.Balanced(r.unitId, ReadUnit(r), left, right);
    s := S(n, sl, n.key, n.value, n.depth, n.clean, sr);
    assert Rep(n.left, sl) && Rep(n.right, sr);
  }

  method PushMade(n: Node, ghost s: Snap, stack: seq<Node>, ghost snaps: seq<Snap>)
    returns (st: seq<Node>, ghost snaps': seq<Snap>)
    requires Rep(n, s) && Linear(s) && StackOk(stack, snaps)
    requires forall i :: 0 <= i < |snaps| ==> Nodes(snaps[i]) !! Nodes(s)
    ensures snaps' == snaps + [s] && StackOk(st, snaps') && Views(snaps') == Views(snaps) + [View(s)]
  {
    hide Rep, Linear, Nodes, View;
    st, snaps' := stack + [n], snaps + [s];
  }

  /** Rebuilds the tree; fails unless the records leave exactly the root on the stack. */
  method ReadNodeRecords(rs: seq<NodeRecord>) returns (root: Option<Node?>, ghost s: Snap)
    ensures root.Some? <==> rs == [] || (Rebuild([], rs).Some? && |Rebuild([], rs).value| == 1)
    ensures root.Some? ==>
      Rep(root.value, s) && Linear(s) && View(s) == if rs == [] then A.Nil else Rebuild([], rs).value[0]
    ensures root.Some? ==> forall x :: x in Nodes(s) ==> fresh(x)
  {
    if |rs| == 0 {
      return Some(null), E;
    }
    var stack: seq<Node> := [];
    ghost var snaps: seq<Snap> := [];
    ghost var own := {};
    for i := 0 to |rs|
      invariant StackOk(stack, snaps) && Rebuild([], rs) == Rebuild(Views(snaps), rs[i..])
      invariant fresh(own) && forall j :: 0 <= j < |snaps| ==> Nodes(snaps[j]) <= own
    {
      assert rs[i..][1..] == rs[i + 1..];
      var ok;
      ok, stack, snaps, own := PushNode(stack, rs[i], snaps, own);
      if !ok {
        return None, E;
      }
    }
    if |stack| != 1 {
      return None, E;
    }
    return Some(stack[0]), snaps[0];
  }

  // ----- the round trip -----

  /** What comes back for a tree. */
  function Recovered(t: A.Tree): (r: A.Tree)
    requires Logged(t)
    ensures r.Nil? <==> t.Nil?
  {
    if t.Nil? then A.Nil
    else BalancedNode(t.key, ReadUnit(RecordOf(t)), Recovered(t.left), Recovered(t.right))
  }

  lemma RebuildOne(stack: seq<A.Tree>, r: NodeRecord, rest: seq<NodeRecord>)
    ensures Rebuild(stack, [r] + rest) == match Push(stack, r) case None => None case Some(st) => Rebuild(st, rest)
  {
    assert ([r] + rest)[1..] == rest;
  }

  lemma RecordsParts(t: A.Node, rest: seq<NodeRecord>)
    requires Logged(t)
    ensures Logged(t.left) && Logged(t.right) && |t.value.logs| > 0
    ensures Records(t) + rest == Records(t.left) + (Records(t.right) + ([RecordOf(t)] + rest))
  {
  }

  /** The stack once a subtree has been read. */
  function Read(stack: seq<A.Tree>, t: A.Tree): (st: seq<A.Tree>)
    requires Logged(t)
  {
    if t.Nil? then stack else stack + [Recovered(t)]
  }

  /** The record of a node finds exactly its children on top of the stack. */
  lemma TakesChildren(stack: seq<A.Tree>, t: A.Node)
    requires Logged(t)
    ensures Push(Read(Read(stack, t.left), t.right), RecordOf(t)) == Some(Read(stack, t))
  {
    var st1 := Read(stack, t.left);
    var st2 := Read(st1, t.right);
    var r := RecordOf(t);
    assert Pop(st2, r.hasRight) == Some((Recovered(t.right), st1)) by {
      assert t.right.Bin? ==> st2[..|st2| - 1] == st1;
    }
    assert Pop(st1, r.hasLeft) == Some((Recovered(t.left), stack)) by {
      assert t.left.Bin? ==> st1[..|st1| - 1] == stack;
    }
  }

  lemma {:induction false} RebuildRecords(stack: seq<A.Tree>, t: A.Tree, rest: seq<NodeRecord>)
    requires Logged(t)
    ensures Rebuild(stack, Records(t) + rest) == Rebuild(Read(stack, t), rest)
    decreases t
  {
    hide Push, Rebuild, Recovered, Logged, RecordOf;
    if t.Nil? {
      assert Records(t) + rest == rest;
    } else {
      RecordsParts(t, rest);
      var own := [RecordOf(t)] + rest;
      RebuildRecords(stack, t.left, Records(t.right) + own);
      RebuildRecords(Read(stack, t.left), t.right, own);
      RebuildOne(Read(Read(stack, t.left), t.right), RecordOf(t), rest);
      TakesChildren(stack, t);
    }
  }

  /** Reading back what was written leaves exactly one tree on the stack. */
  lemma RoundTrip(t: A.Tree)
    requires Logged(t)
    ensures Rebuild([], Records(t)) == Some(if t.Nil? then [] else [Recovered(t)])
  {
    RebuildRecords([], t, []);
    assert Records(t) + [] == Records(t);
    assert [] + [Recovered(t)] == [Recovered(t)];
  }

  /** Shape, keys and depths survive. */
  lemma {:induction false} RecoveredShape(t: A.Tree, lo: Option<UnitId>, hi: Option<UnitId>)
    requires Logged(t) && A.DepthOk(t) && A.Balanced(t) && A.Within(t, lo, hi)
    ensures var r := Recovered(t); A.DepthOk(r) && A.Balanced(r) && A.Within(r, lo, hi) && A.Depth(r) == A.Depth(t)
    ensures forall k :: A.Get(Recovered(t), k).Some? <==> A.Get(t, k).Some?
  {
    if t.Bin? {
      RecoveredShape(t.left, lo, Some(t.key));
      RecoveredShape(t.right, Some(t.key), hi);
    }
  }

  /** The records leave out the state lock and the deletion round. */
  predicate NothingOmitted(u: Unit)
  {
    Effective(u).lock.None? && Effective(u).deletionRound == 0
  }

  predicate Complete(t: A.Tree)
  {
    t.Nil? || (NothingOmitted(t.value) && Complete(t.left) && Complete(t.right))
  }

  /** The record of a unit leads back to its log hash: nothing was left out.  A unit that was itself read
      from a file and not pruned since is written with a log of two entries. */
  predicate Restorable(u: Unit)
  {
    if Unpruned(u) && u.logsHash != NoHash then
      u.logsHash == LogPair(LeafHash(EMPTY_LOG), LogLeaf(u.logs[1].head, UnitState(u.logs[1].data, 0, None)))
    else NothingOmitted(u)
  }

  predicate AllRestorable(t: A.Tree)
  {
    t.Nil? || (Restorable(t.value) && AllRestorable(t.left) && AllRestorable(t.right))
  }

  /** One unit: what is read back, and when its log hash is the original one. */
  lemma ReadUnitExact(t: A.Node)
    requires |t.value.logs| > 0
    ensures var u := ReadUnit(RecordOf(t));
      && u.logsHash != NoHash && LogHash(u) == u.logsHash && Effective(u).data == Effective(t.value).data
      && (u.logsHash == LogHash(t.value) <==> Restorable(t.value))
      && (NothingOmitted(t.value) ==> Effective(u) == Effective(t.value))
  {
    var logs := t.value.logs;
    var last := logs[|logs| - 1];
    MerklePathSound(logs, |logs| - 1);
    var latest := Log(NoHash, last.head, last.data, 0, None);
    EvalInjective(MerklePath(logs, |logs| - 1), LeafHash(latest), LeafHash(last));
    if Unpruned(t.value) {
      PathOfPair(logs, 1, LeafHash(latest));
    }
  }

  lemma NodeExact(t: A.Node, sl: A.Summary, sr: A.Summary, rl: A.Summary, rr: A.Summary)
    requires |t.value.logs| > 0 && sl.value == rl.value && sr.value == rr.value
    ensures var x := A.NodeSummary(t.key, ReadUnit(RecordOf(t)), sl, sr);
      var y := A.Combine(t.key, t.value, rl, rr);
      x.value == y.value && (x == y <==> Restorable(t.value) && sl == rl && sr == rr)
  {
    hide LogsRoot, LogHash, EvalMerklePath, MerklePath, Restorable;
    ReadUnitExact(t);
  }

  /** The root summary computed after recovery is the original one exactly when every unit can be restored:
      none is locked or marked for deletion. */
  lemma {:induction false} RecoveredHash(t: A.Tree)
    requires Logged(t)
    ensures A.Stored(A.Rehash(Recovered(t))).value == A.Recompute(t).value
    ensures A.Stored(A.Rehash(Recovered(t))) == A.Recompute(t) <==> AllRestorable(t)
  {
    hide ReadUnit, RecordOf, A.NodeSummary, A.Combine, Restorable;
    if t.Bin? {
      RecoveredHash(t.left);
      RecoveredHash(t.right);
      NodeExact(t, A.Stored(A.Rehash(Recovered(t.left))), A.Stored(A.Rehash(Recovered(t.right))), A.Recompute(t.left),
          A.Recompute(t.right));
    }
  }

  // ----- the recovered tree as a state -----

  lemma {:induction false} RecoveredBits(t: A.Tree)
    requires Logged(t)
    ensures A.Bits(Recovered(t))
  {
    if t.Bin? {
      RecoveredBits(t.left);
      RecoveredBits(t.right);
      ReadUnitExact(t);
    }
  }

  /** A recovered tree is a valid tree, before and after it is hashed; after that it is clean, as a
      committed tree has to be. */
  lemma RecoveredValid(t: A.Tree)
    requires Logged(t) && A.IsAvl(t)
    ensures A.Valid(Recovered(t))
    ensures var r := A.Rehash(Recovered(t)); A.Valid(r) && A.AllClean(r) && (r.Nil? || r.value.calculated)
  {
    hide Recovered, Logged, A.Rehash, A.DepthOk, A.Balanced, A.Within, A.Cached, A.CleanDown, A.AllClean;
    RecoveredShape(t, None, None);
    RecoveredBits(t);
    A.RehashExact(Recovered(t));
    A.RehashKeeps(Recovered(t), None, None);
    A.CleanRootAllClean(A.Rehash(Recovered(t)));
  }

  /** The log can be rebuilt from the record: one entry, or two of which the first says nothing. */
  predicate OneEntry(logs: seq<Log>)
  {
    |logs| == 1 || (|logs| == 2 && LeafHash(logs[0]) == LeafHash(EMPTY_LOG))
  }

  predicate AllOneEntry(t: A.Tree)
  {
    t.Nil? || (OneEntry(t.value.logs) && AllOneEntry(t.left) && AllOneEntry(t.right))
  }

  lemma LastStep(logs: seq<Log>, leaf: Digest)
    requires |logs| > 1
    ensures var p := Pivot(|logs|);
      EvalMerklePath(MerklePath(logs, |logs| - 1), leaf) ==
      LogPair(LogsRoot(logs[..p]), EvalMerklePath(MerklePath(logs[p..], |logs| - 1 - p), leaf))
  {
    hide LogsRoot;
    var p := Pivot(|logs|);
    var inner, path := MerklePath(logs[p..], |logs| - 1 - p), MerklePath(logs, |logs| - 1);
    assert path == inner + [PathItem(true, LogsRoot(logs[..p]))];
    assert path[..|path| - 1] == inner;
  }

  lemma SeveralInPair(logs: seq<Log>)
    requires |logs| > 1
    ensures LogsRoot(logs).LogPair?
  {
  }

  /** The hash of a longer log has a single entry on its left only if there are two. */
  lemma LastSibling(logs: seq<Log>, leaf: Digest, other: Digest, rest: Digest)
    requires |logs| > 1 && other.LogLeaf?
    ensures EvalMerklePath(MerklePath(logs, |logs| - 1), leaf) == LogPair(other, rest) <==>
      |logs| == 2 && LeafHash(logs[0]) == other && rest == leaf
  {
    hide LogsRoot, MerklePath, EvalMerklePath;
    LastStep(logs, leaf);
    if |logs| == 2 {
      PathOfPair(logs, 1, leaf);
    } else {
      assert Pivot(|logs|) > 1;
      SeveralInPair(logs[..Pivot(|logs|)]);
    }
  }

  lemma ReadLogExact(t: A.Node)
    requires |t.value.logs| > 0
    ensures var u := ReadUnit(RecordOf(t)); LogHash(u) == LogsRoot(u.logs) <==> OneEntry(t.value.logs)
  {
    var logs := t.value.logs;
    var last := logs[|logs| - 1];
    var latest := Log(NoHash, last.head, last.data, 0, None);
    var u := ReadUnit(RecordOf(t));
    ReadUnitExact(t);
    PathEmpty(logs);
    if |logs| > 1 {
      LastSibling(logs, LeafHash(latest), LeafHash(EMPTY_LOG), LeafHash(latest));
      PathOfPair(u.logs, 1, LeafHash(latest));
      MerklePathSound(u.logs, 1);
    }
  }

  lemma PathEmpty(logs: seq<Log>)
    requires |logs| > 0
    ensures MerklePath(logs, |logs| - 1) == [] <==> |logs| == 1
  {
  }

  /** After recovery the log hashes are those of the logs, and so the root summary is the one that the
      logs give, exactly when every unit had one entry in its log. */
  lemma {:induction false} RecoveredLogsTrue(t: A.Tree)
    requires Logged(t)
    ensures A.LogsTrue(A.Rehash(Recovered(t))) <==> AllOneEntry(t)
  {
    hide ReadUnit, RecordOf, A.NodeSummary, OneEntry, LogsRoot;
    if t.Bin? {
      RecoveredLogsTrue(t.left);
      RecoveredLogsTrue(t.right);
      ReadLogExact(t);
    }
  }

  /** A proof made from a recovered unit holds exactly when its log had one entry; a first entry that says
      nothing does no harm, but its successor then has to be without a ledger head. */
  lemma RecoveredProof(t: A.Node, i: nat)
    requires |t.value.logs| > 0 && i < |ReadUnit(RecordOf(t)).logs|
    ensures ProofHolds(ReadUnit(RecordOf(t)), i) <==>
      |t.value.logs| == 1 || (OneEntry(t.value.logs) && (i == 0 || t.value.logs[1].head == NoHash))
  {
    var logs := t.value.logs;
    var last := logs[|logs| - 1];
    var latest := Log(NoHash, last.head, last.data, 0, None);
    var u := ReadUnit(RecordOf(t));
    ReadUnitExact(t);
    PathEmpty(logs);
    if |logs| > 1 {
      LastSibling(logs, LeafHash(latest), LeafHash(EMPTY_LOG), LeafHash(latest));
      LastSibling(logs, LeafHash(latest), LeafHash(EMPTY_LOG), ProvenLeaf(u.logs, 1));
    }
  }

  /** Pruning at the start of the next round makes all log hashes true again. */
  lemma PruningRepairs(t: A.Tree, m: Store.Ledger)
    requires A.Valid(t) && A.Contents(t) == Store.Prune(m)
    ensures A.LogsTrue(t) && A.Recompute(t) == A.FromLogs(t)
  {
    hide A.LogsTrue, A.Recompute, A.FromLogs, A.Contents, A.DepthOk, A.Balanced, A.Within, A.Cached, A.CleanDown;
    A.PlainLogsTrue(t, None, None);
    A.FromLogsExact(t);
  }

  /** Every unit comes back in its latest state. */
  lemma {:induction false} RecoveredStates(t: A.Tree, k: UnitId)
    requires Logged(t) && Complete(t)
    ensures A.Get(t, k).Some? <==> A.Get(Recovered(t), k).Some?
    ensures A.Get(t, k).Some? ==> Effective(A.Get(Recovered(t), k).value) == Effective(A.Get(t, k).value)
  {
    if t.Bin? {
      RecoveredStates(t.left, k);
      RecoveredStates(t.right, k);
      ReadUnitExact(t);
    }
  }

  /** Writing a tree and reading it back, end to end: the copy has the same shape and the same units,
      the copy is a valid, clean tree, and the root summary calculated on it equals the one of the original
      exactly when every unit can be restored. */
  method Reload(n: Node?, ghost s: Snap) returns (copy: Option<Node?>, sum: A.Summary, ghost s': Snap)
    requires Rep(n, s) && A.IsAvl(View(s))
    ensures copy.Some? <==> Logged(View(s))
    ensures copy.Some? ==> Rep(copy.value, s') && Linear(s') && View(s') == A.Rehash(Recovered(View(s)))
    ensures copy.Some? ==> A.Valid(View(s')) && A.AllClean(View(s'))
    ensures copy.Some? ==>
      sum.value == A.Recompute(View(s)).value && (sum == A.Recompute(View(s)) <==> AllRestorable(View(s)))
  {
    hide Rep, Linear, Nodes, View, Recovered, Rebuild, Records, Logged, AllRestorable, A.Rehash, A.Recompute, A.DepthOk,
      A.Balanced,
      A.Within, A.Cached, A.CleanDown, A.AllClean;
    copy, sum, s' := None, A.Summary(0, NoHash), E;
    var records := Serialize(n, [], s);
    if records.Some? {
      RoundTrip(View(s));
      RecoveredShape(View(s), None, None);
      RecoveredHash(View(s));
      NoRecords(View(s));
      assert [] + Records(View(s)) == Records(View(s));
      copy, s' := ReadNodeRecords(records.value);
      s' := StateHeap.Rehash(copy.value, s');
      RecoveredValid(View(s));
      StateHeap.RootSummary(copy.value, s');
      sum := StateHeap.StoredAt(copy.value);
    }
  }

  /** Loads a state whose file carries a certificate: with a certificate for the tree that was written, this
      succeeds exactly when every unit can be restored. */
  method LoadState(n: Node?, hash: Digest, value: nat, ghost s: Snap) returns (st: Option<StateHeap.State>)
    requires Rep(n, s) && A.IsAvl(View(s))
    ensures st.Some? ==> Logged(View(s)) && fresh(st.value) && st.value.Valid()
    ensures st.Some? ==> View(st.value.cs) == A.Rehash(Recovered(View(s))) && st.value.ss == [st.value.cs]
    ensures A.Summary(value, hash) == A.Recompute(View(s)) ==> (st.Some? <==> Logged(View(s)) && AllRestorable(View(s)))
  {
    hide Rep, Linear, Nodes, View, Recovered, Logged, AllRestorable, A.Rehash, A.Recompute, A.Valid, A.AllClean,
      A.IsAvl;
    var copy, sum;
    ghost var s';
    copy, sum, s' := Reload(n, s);
    if copy.None? || sum != A.Summary(value, hash) {
      return None;
    }
    var state := new StateHeap.State.Over(copy.value, s');
    st := Some(state);
  }

  lemma NoRecords(t: A.Tree)
    requires Logged(t)
    ensures Records(t) == [] <==> t.Nil?
    ensures t.Nil? ==> Recovered(t) == t
  {
  }
}
