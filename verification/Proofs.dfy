/** Unit state proofs: a path in the hash tree over the unit's log, then a path of node summaries up
    the committed tree.  Whoever folds both gets the root summary of the tree. */
module Proofs {
  import opened Units
  import opened AvlHeap
  import A = Avl
  import Store
  import StateHeap

  // ----- hash tree over a unit's log -----

  datatype PathItem = PathItem(siblingLeft: bool, sibling: Digest)

  /** The siblings on the way from leaf i to the root, leaf end first. */
  function MerklePath(logs: seq<Log>, i: nat): (path: seq<PathItem>)
    requires i < |logs|
    decreases |logs|
  {
    if |logs| == 1 then []
    else
      var p := Pivot(|logs|);
      if i < p then MerklePath(logs[..p], i) + [PathItem(false, LogsRoot(logs[p..]))]
      else MerklePath(logs[p..], i - p) + [PathItem(true, LogsRoot(logs[..p]))]
  }

  function EvalMerklePath(path: seq<PathItem>, leaf: Digest): (root: Digest)
  {
    if path == [] then leaf
    else
      var n := |path| - 1;
      var d := EvalMerklePath(path[..n], leaf);
      if path[n].siblingLeft then LogPair(path[n].sibling, d) else LogPair(d, path[n].sibling)
  }

  lemma {:induction false} MerklePathSound(logs: seq<Log>, i: nat)
    requires i < |logs|
    ensures EvalMerklePath(MerklePath(logs, i), LeafHash(logs[i])) == LogsRoot(logs)
    decreases |logs|
  {
    if |logs| > 1 {
      var p := Pivot(|logs|);
      var path := MerklePath(logs, i);
      if i < p {
        MerklePathSound(logs[..p], i);
        assert path[..|path| - 1] == MerklePath(logs[..p], i);
      } else {
        MerklePathSound(logs[p..], i - p);
        assert path[..|path| - 1] == MerklePath(logs[p..], i - p);
      }
    }
  }

  lemma {:induction false} EvalInjective(path: seq<PathItem>, x: Digest, y: Digest)
    ensures EvalMerklePath(path, x) == EvalMerklePath(path, y) <==> x == y
    ensures EvalMerklePath(path, x) == NoHash ==> x == NoHash
  {
    if path != [] {
      EvalInjective(path[..|path| - 1], x, y);
    }
  }

  // ----- ledger heads -----

  /** The ledger head after a transaction; no transaction leaves it as it was. */
  function NextHead(prev: Digest, txr: Digest): (head: Digest)
  {
    if txr == NoHash then prev else LedgerHead(prev, txr)
  }

  /** Every entry's ledger head extends the one before it; only a first entry may have been carried
      over from an earlier round. */
  predicate Chained(logs: seq<Log>)
  {
    && (forall i :: 0 < i < |logs| ==>
        logs[i].txr != NoHash && logs[i].head == LedgerHead(logs[i - 1].head, logs[i].txr))
    && (|logs| > 0 && logs[0].txr != NoHash ==> logs[0].head == LedgerHead(NoHash, logs[0].txr))
  }

  ghost predicate AllChained(m: Store.Ledger)
  {
    forall id :: id in m ==> Chained(m[id].logs)
  }

  lemma {:induction false} ActAllChained(m: Store.Ledger, actions: seq<Store.Action>)
    requires AllChained(m)
    ensures Store.ActAll(m, actions).Ok? ==> AllChained(Store.ActAll(m, actions).ledger)
    decreases |actions|
  {
    if actions != [] {
      ActAllChained(m, actions[..|actions| - 1]);
    }
  }

  lemma PruneChained(m: Store.Ledger)
    requires AllChained(m)
    ensures AllChained(Store.Prune(m))
  {
    forall id | id in m ensures Chained(Store.Pruned(m[id]).logs) {
      assert Chained(m[id].logs);
    }
  }

  lemma LogChained(m: Store.Ledger, id: UnitId, txr: Digest)
    requires AllChained(m) && txr != NoHash && id in m
    ensures AllChained(Store.AddUnitLog(m, id, txr).ledger)
  {
    assert Chained(m[id].logs);
    assert Chained(Store.WithLog(m[id], txr).logs);
  }

  /** Unit ledgers stay hash chains whatever is applied, logged or pruned. */
  lemma LedgersChained(m: Store.Ledger, actions: seq<Store.Action>, id: UnitId, txr: Digest)
    requires AllChained(m) && txr != NoHash
    ensures AllChained(Store.Apply(m, actions)) && AllChained(Store.Prune(m))
    ensures Store.AddUnitLog(m, id, txr).Ok? ==> AllChained(Store.AddUnitLog(m, id, txr).ledger)
  {
    hide AllChained, Store.ActAll, Store.Prune;
    ActAllChained(m, actions);
    PruneChained(m);
    if id in m {
      LogChained(m, id, txr);
    }
  }

  // ----- path in the state tree -----

  datatype StateTreePathItem = StateTreePathItem(unitId: UnitId, logsHash: Digest, value: nat, sibling: A.Summary)

  datatype StateTreeCert = StateTreeCert(left: A.Summary, right: A.Summary, path: seq<StateTreePathItem>)

  /** The hasher's formula for a node. */
  function Node3(key: UnitId, logsHash: Digest, value: nat, l: A.Summary, r: A.Summary): (s: A.Summary)
  {
    var v := (value + l.value + r.value) % TWO64;
    A.Summary(v, NodeHash(key, logsHash, v, l.hash, l.value, r.hash, r.value))
  }

  function StepUp(item: StateTreePathItem, id: UnitId, s: A.Summary): (r: A.Summary)
  {
    if id < item.unitId then Node3(item.unitId, item.logsHash, item.value, s, item.sibling)
    else Node3(item.unitId, item.logsHash, item.value, item.sibling, s)
  }

  function FoldUp(path: seq<StateTreePathItem>, id: UnitId, s: A.Summary): (r: A.Summary)
  {
    if path == [] then s else FoldUp(path[1..], id, StepUp(path[0], id, s))
  }

  /** The root summary a holder of the certificate computes. */
  function EvalCert(cert: StateTreeCert, id: UnitId, logsHash: Digest, value: nat): (r: A.Summary)
  {
    FoldUp(cert.path, id, Node3(id, logsHash, value, cert.left, cert.right))
  }

  /** One step of the way: the item for a node turns the summary of the child into that of the node. */
  lemma StepExact(t: A.Node, id: UnitId)
    requires A.Cached(t) && t.value.calculated && id != t.key
    ensures var c := if id < t.key then t.left else t.right;
      var sibling := if id < t.key then t.right else t.left;
      var item := StateTreePathItem(t.key, t.value.logsHash, SummaryInput(t.value.data), A.Stored(sibling));
      && A.Cached(c) && (c.Nil? || c.value.calculated) && A.Get(c, id) == A.Get(t, id)
      && StepUp(item, id, A.Stored(c)) == A.Stored(t)
  {
    assert A.CacheOk(t);
  }

  lemma EndExact(t: A.Node)
    requires A.Cached(t) && t.value.calculated
    ensures A.IsSettled(t.value) && A.Get(t, t.key) == Some(t.value)
    ensures Node3(t.key, t.value.logsHash, SummaryInput(t.value.data), A.Stored(t.left), A.Stored(t.right)) ==
      A.Stored(t)
  {
    assert A.CacheOk(t);
  }

  lemma Children(n: Node, s: Snap)
    requires Rep(n, s)
    ensures s.S? && View(s) == A.Bin(View(s.l), n.key, n.value, n.depth, n.clean, View(s.r))
    ensures Rep(n.left, s.l) && StateHeap.StoredAt(n.left) == A.Stored(View(s.l))
    ensures Rep(n.right, s.r) && StateHeap.StoredAt(n.right) == A.Stored(View(s.r))
  {
  }

  /** Walks from the root to the unit and collects what is beside the way. */
  method CreateStateTreeCert(root: Node?, id: UnitId, ghost s: Snap) returns (cert: StateTreeCert)
    requires Rep(root, s) && A.Cached(View(s)) && (View(s).Nil? || View(s).value.calculated) && A.Get(View(s), id).Some?
    ensures A.IsSettled(A.Get(View(s), id).value)
    ensures var u := A.Get(View(s), id).value;
      EvalCert(cert, id, u.logsHash, SummaryInput(u.data)) == A.Stored(View(s))
  {
    hide Rep, View, A.Cached, A.IsSettled, StepUp, A.Stored, StateHeap.StoredAt, Node3;
    var path := [];
    var n := root;
    ghost var c := s;
    while n != null && id != n.key
      invariant Rep(n, c) && A.Cached(View(c)) && (View(c).Nil? || View(c).value.calculated)
      invariant A.Get(View(c), id) == A.Get(View(s), id)
      invariant FoldUp(path, id, A.Stored(View(c))) == A.Stored(View(s))
      decreases c
    {
      Children(n, c);
      StepExact(View(c), id);
      var v := SummaryInput(n.value.data);
      var sibling;
      if id < n.key {
        sibling := StateHeap.StoredAt(n.right);
      } else {
        sibling := StateHeap.StoredAt(n.left);
      }
      var item := StateTreePathItem(n.key, n.value.logsHash, v, sibling);
      assert ([item] + path)[1..] == path;
      path := [item] + path;
      if id < n.key {
        n, c := n.left, c.l;
      } else {
        n, c := n.right, c.r;
      }
    }
    Root(n, c);
    Children(n, c);
    EndExact(View(c));
    cert := StateTreeCert(StateHeap.StoredAt(n.left), StateHeap.StoredAt(n.right), path);
  }

  // ----- unit state proofs -----

  datatype UnitStateProof = UnitStateProof(
    ledgerHash: Digest,
    txr: Digest,
    state: UnitState,
    logPath: seq<PathItem>,
    value: nat,
    cert: StateTreeCert)

  /** What a verifier computes from a proof for the unit `id`. */
  function EvalProof(p: UnitStateProof, id: UnitId): (r: A.Summary)
  {
    var leaf := LogLeaf(NextHead(p.ledgerHash, p.txr), p.state);
    EvalCert(p.cert, id, EvalMerklePath(p.logPath, leaf), p.value)
  }

  /** The ledger head that a proof of entry i starts from. */
  function HeadBefore(logs: seq<Log>, i: nat): (head: Digest)
    requires i < |logs|
  {
    if i > 0 then logs[i - 1].head else if logs[0].txr == NoHash then logs[0].head else NoHash
  }

  /** The leaf that a verifier computes for entry i. */
  function ProvenLeaf(logs: seq<Log>, i: nat): (leaf: Digest)
    requires i < |logs|
  {
    LogLeaf(NextHead(HeadBefore(logs, i), logs[i].txr), UnitState(logs[i].data, logs[i].deletionRound, logs[i].lock))
  }

  /** The entry's ledger head is the one that follows from the entry before it. */
  predicate Linked(logs: seq<Log>, i: nat)
    requires i < |logs|
  {
    NextHead(HeadBefore(logs, i), logs[i].txr) == logs[i].head
  }

  lemma ChainedIsLinked(logs: seq<Log>, i: nat)
    requires i < |logs| && Chained(logs)
    ensures Linked(logs, i)
  {
  }

  /** When a proof of entry i holds: the entry is linked to the one before it.  A unit that was read from
      a state file and not pruned since has the log hash of the file, so it is compared with that. */
  predicate ProofHolds(u: Unit, i: nat)
    requires i < |u.logs|
  {
    if Unpruned(u) then
      LogHash(u) == LogPair(LeafHash(EMPTY_LOG), if i == 0 then LeafHash(u.logs[1]) else ProvenLeaf(u.logs, 1))
    else Linked(u.logs, i)
  }

  lemma PathOfPair(logs: seq<Log>, i: nat, leaf: Digest)
    requires |logs| == 2 && i < 2
    ensures EvalMerklePath(MerklePath(logs, i), leaf) ==
      if i == 0 then LogPair(leaf, LeafHash(logs[1])) else LogPair(LeafHash(logs[0]), leaf)
  {
    assert Pivot(2) == 1;
    assert logs[..1] == [logs[0]] && logs[1..] == [logs[1]];
    var item := if i == 0 then PathItem(false, LeafHash(logs[1])) else PathItem(true, LeafHash(logs[0]));
    assert MerklePath(logs, i) == [] + [item];
    assert [item][..0] == [];
  }

  lemma LogProofExact(u: Unit, i: nat)
    requires i < |u.logs|
    ensures EvalMerklePath(MerklePath(u.logs, i), ProvenLeaf(u.logs, i)) == LogHash(u) <==> ProofHolds(u, i)
  {
    if Unpruned(u) {
      PathOfPair(u.logs, i, ProvenLeaf(u.logs, i));
    } else {
      MerklePathSound(u.logs, i);
      EvalInjective(MerklePath(u.logs, i), ProvenLeaf(u.logs, i), LeafHash(u.logs[i]));
    }
  }

  lemma {:induction false} FoldInjective(path: seq<StateTreePathItem>, id: UnitId, x: A.Summary, y: A.Summary)
    ensures FoldUp(path, id, x) == FoldUp(path, id, y) <==> x == y
    decreases |path|
  {
    if path != [] {
      FoldInjective(path[1..], id, StepUp(path[0], id, x), StepUp(path[0], id, y));
    }
  }

  /** A certificate fits one log hash only. */
  lemma CertInjective(cert: StateTreeCert, id: UnitId, x: Digest, y: Digest, value: nat)
    ensures EvalCert(cert, id, x, value) == EvalCert(cert, id, y, value) <==> x == y
  {
    var l, r := cert.left, cert.right;
    FoldInjective(cert.path, id, Node3(id, x, value, l, r), Node3(id, y, value, l, r));
  }

  /** A proof, an error, or an index out of range. */
  datatype ProofResult = Proven(proof: UnitStateProof) | Rejected | Fault

  /** A proof of the i-th logged state of a unit in the committed tree, if there is a unicity certificate for
      that tree.  It evaluates to the root summary of the committed tree exactly when the entry is linked to
      its unit ledger, and for a unit that was read from a state file exactly when the file's log hash says
      so.  Entry 0 of an empty log is a fault. */
  method CreateUnitStateProof(st: StateHeap.State, certified: bool, id: UnitId, i: nat) returns (r: ProofResult)
    requires st.Valid() && (View(st.cs).Nil? || View(st.cs).value.calculated)
    ensures r.Proven? <==> certified && A.Get(View(st.cs), id).Some? && i < |A.Get(View(st.cs), id).value.logs|
    ensures r.Fault? <==>
      certified && A.Get(View(st.cs), id).Some? && A.Get(View(st.cs), id).value.logs == [] && i == 0
    ensures r.Proven? ==> var u := A.Get(View(st.cs), id).value; var log := u.logs[i];
      && r.proof.state == UnitState(log.data, log.deletionRound, log.lock)
      && (EvalProof(r.proof, id) == A.Recompute(View(st.cs)) <==> ProofHolds(u, i))
  {
    hide ProofHolds, EvalCert, MerklePath, EvalMerklePath, A.Cached, A.Recompute, LogHash;
    if !certified {
      return Rejected;
    }
    var got := AvlHeap.Get(st.committed, id, st.cs);
    if got.None? {
      return Rejected;
    }
    var u := got.value;
    if |u.logs| < i {
      return Rejected;
    }
    var ledgerHash := NoHash;
    if i > 0 {
      ledgerHash := u.logs[i - 1].head;
    } else if |u.logs| == 0 {
      return Fault;
    } else if u.logs[0].txr == NoHash {
      ledgerHash := u.logs[0].head;
    }
    if i == |u.logs| {
      return Rejected;  // there is no hash path for this index
    }
    var cert := CreateStateTreeCert(st.committed, id, st.cs);
    A.CalculatedIsExact(View(st.cs));
    var l := u.logs[i];
    var state := UnitState(l.data, l.deletionRound, l.lock);
    r := Proven(UnitStateProof(ledgerHash, l.txr, state, MerklePath(u.logs, i), SummaryInput(u.data), cert));
    LogProofExact(u, i);
    var logHash := EvalMerklePath(MerklePath(u.logs, i), ProvenLeaf(u.logs, i));
    CertInjective(cert, id, logHash, u.logsHash, SummaryInput(u.data));
  }
}
