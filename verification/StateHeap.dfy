/** The state: a committed tree and a stack of savepoints, all sharing nodes.  Its operations are
    shown to be the ones of module Store, and the incrementally kept root hash to be the one a
    recomputation would give. */
module StateHeap {
  import opened Units
  import opened AvlHeap
  import A = Avl
  import Store
  import Summaries

  // ----- state_hasher.go -----

  /** The nodes the hasher visits and writes. */
  ghost function Stale(s: Snap): (ns: set<Node>)
    ensures ns <= Nodes(s)
  {
    if s.E? || (s.clean && s.value.calculated) then {} else {s.node} + Stale(s.l) + Stale(s.r)
  }

  /** The hasher's arithmetic for one node, from the stored summaries of its children. */
  method HashUnit(n: Node) returns (u: Unit)
    ensures u == A.Settled(n.value, A.NodeSummary(n.key, n.value, StoredAt(n.left), StoredAt(n.right)))
  {
    u := n.value;
    var logsHash := if u.logsHash == NoHash then LogsRoot(u.logs) else u.logsHash;
    u := u.(logsHash := logsHash);
    if |u.logs| > 0 {
      var last := u.logs[|u.logs| - 1];
      u := u.(lock := last.lock, data := last.data, deletionRound := last.deletionRound);
    }
    var l, r := StoredAt(n.left), StoredAt(n.right);
    var v := (SummaryInput(u.data) + l.value + r.value) % TWO64;
    u := u.(sumValue := v, sumHash := NodeHash(n.key, logsHash, v, l.hash, l.value, r.hash, r.value),
        calculated := true);
  }

  function StoredAt(n: Node?): (s: A.Summary)
    reads n
  {
    if n == null then A.Summary(0, NoHash) else A.Summary(n.value.sumValue, n.value.sumHash)
  }

  method SetHashed(n: Node, ghost s: Snap, ghost l: Snap, ghost r: Snap) returns (ghost s': Snap)
    requires s.S? && Fields(n, s) && Rep(n.left, l) && Rep(n.right, r) && Linear(l) && Linear(r)
    requires n !in Nodes(l) && n !in Nodes(r) && Nodes(l) !! Nodes(r)
    modifies n`value, n`clean
    ensures n.value == A.Settled(s.value, A.NodeSummary(s.key, s.value, A.Stored(View(l)), A.Stored(View(r))))
    ensures s' == S(n, l, s.key, n.value, s.depth, true, r) && Rep(n, s') && Linear(s')
    ensures View(s') == A.Bin(View(l), s.key, n.value, s.depth, true, View(r)) && Nodes(s') == {n} + Nodes(l) + Nodes(r)
  {
    assert StoredAt(n.left) == A.Stored(View(l)) && StoredAt(n.right) == A.Stored(View(r));
    NodesAllocated(l);
    NodesAllocated(r);
    var u := HashUnit(n);
    assert Rep(n.left, l) && Rep(n.right, r);
    n.value, n.clean := u, true;
    s' := S(n, l, s.key, u, s.depth, true, r);
  }

  lemma StaleParts(s: Snap)
    ensures s.S? && !(s.clean && s.value.calculated) ==> Stale(s) == {s.node} + Stale(s.l) + Stale(s.r)
    ensures s.S? && s.clean && s.value.calculated ==> View(s) == A.Rehash(View(s))
    ensures s.E? ==> View(s) == A.Rehash(View(s)) && Nodes(s) == {}
  {
  }

  method Rehash(n: Node?, ghost s: Snap) returns (ghost s': Snap)
    requires Rep(n, s) && Linear(s)
    modifies Stale(s)`value, Stale(s)`clean
    ensures Rep(n, s') && Linear(s') && View(s') == A.Rehash(View(s)) && Nodes(s') == Nodes(s)
    ensures forall m :: m in Nodes(s) && old(allocated(m)) ==> Hashable(m.value) == old(Hashable(m.value))
    decreases s
  {
    hide Rep, Fields, Linear, Nodes, View, Stale;
    Root(n, s);
    StaleParts(s);
    s' := s;
    if n != null {
      Open(n, s);
      if !(n.clean && n.value.calculated) {
        ghost var l := Rehash(n.left, s.l);
        ghost var r := Rehash(n.right, s.r);
        s' := SetHashed(n, s, l, r);
        A.SettledKeeps(s.value, A.NodeSummary(s.key, s.value, A.Stored(View(l)), A.Stored(View(r))));
      }
    }
  }

  // ----- trees that share nodes with a tree being hashed -----

  /** A snapshot taken again: the same nodes with their present fields. */
  ghost function Refresh(s: Snap): (r: Snap)
    reads Nodes(s)
    ensures r.S? <==> s.S?
  {
    if s.E? then E
    else S(s.node, Refresh(s.l), s.node.key, s.node.value, s.node.depth, s.node.clean, Refresh(s.r))
  }

  ghost function RefreshAll(ss: seq<Snap>): (r: seq<Snap>)
    reads set i, m | 0 <= i < |ss| && m in Nodes(ss[i]) :: m
    ensures |r| == |ss| && forall i :: 0 <= i < |ss| ==> r[i] == Refresh(ss[i])
  {
    if |ss| == 0 then [] else RefreshAll(ss[..|ss| - 1]) + [Refresh(ss[|ss| - 1])]
  }

  /** A node whose cache is filled, correctly for what its children store. */
  ghost predicate Hashed(m: Node)
    reads m, m.left, m.right
  {
    && m.clean && m.value.calculated && A.IsSettled(m.value)
    && (m.left == null || m.left.value.calculated) && (m.right == null || m.right.value.calculated)
    && StoredAt(m) == A.Combine(m.key, m.value, StoredAt(m.left), StoredAt(m.right))
  }

  /** What hashing some other tree may have done to the nodes since the snapshot: nothing, or the
      caches of nodes that had none were filled. */
  ghost predicate Filled(n: Node?, s: Snap)
    reads Nodes(s)
  {
    match s
    case E => n == null
    case S(m, l, key, value, depth, clean, r) =>
      && n == m && m.key == key && m.depth == depth && (clean ==> m.clean) && Hashable(m.value) == Hashable(value)
      && Filled(m.left, l) && Filled(m.right, r)
      && (m.value == value || (!(clean && value.calculated) && Hashed(m)))
  }

  lemma {:induction false} AllHashed(n: Node?, s: Snap)
    requires Rep(n, s) && A.Cached(View(s)) && (s.E? || s.value.calculated)
    ensures forall m :: m in Nodes(s) ==> Hashed(m)
  {
    if s.S? {
      AllHashed(s.node.left, s.l);
      AllHashed(s.node.right, s.r);
    }
  }

  lemma HashedRoot(n: Node?, s: Snap, s': Snap)
    requires A.Bits(View(s)) && Rep(n, s') && View(s') == A.Rehash(View(s))
    ensures forall m :: m in Nodes(s') ==> Hashed(m)
    ensures StoredAt(n) == A.Stored(View(s'))
  {
    A.RehashExact(View(s));
    AllHashed(n, s');
  }

  lemma {:induction false} StaleUnfilled(n: Node?, s: Snap)
    requires Rep(n, s)
    ensures forall m :: m in Stale(s) ==> !(m.clean && m.value.calculated)
  {
    if s.S? {
      StaleUnfilled(s.node.left, s.l);
      StaleUnfilled(s.node.right, s.r);
    }
  }

  lemma {:induction false} RefreshRep(n: Node?, s: Snap)
    requires Filled(n, s) && Linear(s)
    ensures Rep(n, Refresh(s)) && Linear(Refresh(s)) && Nodes(Refresh(s)) == Nodes(s)
  {
    if s.S? {
      RefreshRep(s.node.left, s.l);
      RefreshRep(s.node.right, s.r);
    }
  }

  lemma {:induction false} RefreshShape(n: Node?, s: Snap, lo: Option<UnitId>, hi: Option<UnitId>)
    requires Filled(n, s) && A.DepthOk(View(s)) && A.Balanced(View(s)) && A.Within(View(s), lo, hi)
    ensures var t := View(Refresh(s));
      A.DepthOk(t) && A.Balanced(t) && A.Within(t, lo, hi) && A.Depth(t) == A.Depth(View(s))
  {
    if s.S? {
      RefreshShape(s.node.left, s.l, lo, Some(s.key));
      RefreshShape(s.node.right, s.r, Some(s.key), hi);
    }
  }

  lemma {:induction false} RefreshKeeps(n: Node?, s: Snap)
    requires Filled(n, s) && A.AllClean(View(s))
    ensures A.AllClean(View(Refresh(s)))
    ensures A.Entries(View(Refresh(s))) == A.Entries(View(s)) && A.Recompute(View(Refresh(s))) == A.Recompute(View(s))
  {
    hide A.Combine, Hashable, Hashed;
    if s.S? {
      RefreshKeeps(s.node.left, s.l);
      RefreshKeeps(s.node.right, s.r);
      SameCombine(s.key, s.node.value, s.value, A.Recompute(View(s.l)), A.Recompute(View(s.r)));
    }
  }

  lemma SameCombine(key: UnitId, u: Unit, v: Unit, l: A.Summary, r: A.Summary)
    requires Hashable(u) == Hashable(v)
    ensures A.Combine(key, u, l, r) == A.Combine(key, v, l, r)
  {
  }

  lemma {:induction false} RefreshCached(n: Node?, s: Snap)
    requires Filled(n, s) && A.AllClean(View(s)) && A.Cached(View(s))
    ensures A.Cached(View(Refresh(s)))
  {
    if s.S? {
      RefreshCached(s.node.left, s.l);
      RefreshCached(s.node.right, s.r);
      RefreshKeeps(n, s);
    }
  }

  lemma {:induction false} RefreshLogged(n: Node?, s: Snap, lo: Option<UnitId>, hi: Option<UnitId>)
    requires Filled(n, s) && A.Within(View(s), lo, hi) && A.AllLogged(A.Contents(View(s)))
    ensures A.Contents(View(Refresh(s))) == A.Contents(View(s))
  {
    hide A.Within;
    if s.S? {
      LoggedParts(s, lo, hi);
      RefreshLogged(s.node.left, s.l, lo, Some(s.key));
      RefreshLogged(s.node.right, s.r, Some(s.key), hi);
      assert Core(s.node.value) == Core(s.value);
    }
  }

  lemma LoggedParts(s: Snap, lo: Option<UnitId>, hi: Option<UnitId>)
    requires s.S? && A.Within(View(s), lo, hi) && A.AllLogged(A.Contents(View(s)))
    ensures A.Within(View(s.l), lo, Some(s.key)) && A.Within(View(s.r), Some(s.key), hi) && A.IsLogged(s.value)
    ensures A.AllLogged(A.Contents(View(s.l))) && A.AllLogged(A.Contents(View(s.r)))
  {
    A.ContentsParts(View(s), lo, hi);
    var m := A.Contents(View(s));
    assert A.IsLogged(m[s.key]);
    forall k | k in A.Contents(View(s.l)) ensures A.IsLogged(A.Contents(View(s.l))[k]) {
      assert A.IsLogged(m[k]);
    }
    forall k | k in A.Contents(View(s.r)) ensures A.IsLogged(A.Contents(View(s.r))[k]) {
      assert A.IsLogged(m[k]);
    }
  }

  /** A tree of clean nodes stays a valid tree with the same contents while another tree that shares
      nodes with it is hashed. */
  lemma Refreshed(n: Node?, s: Snap)
    requires Filled(n, s) && Linear(s) && A.Valid(View(s)) && A.AllClean(View(s))
    ensures IsTree(n, Refresh(s)) && A.AllClean(View(Refresh(s))) && Nodes(Refresh(s)) == Nodes(s)
    ensures A.Entries(View(Refresh(s))) == A.Entries(View(s)) && A.Recompute(View(Refresh(s))) == A.Recompute(View(s))
    ensures A.AllLogged(Contents(s)) ==> Contents(Refresh(s)) == Contents(s)
  {
    hide Filled, Refresh, Linear, Rep, A.Contents, A.Entries, A.Recompute, A.AllLogged, Nodes;
    if A.AllLogged(Contents(s)) {
      RefreshLogged(n, s, None, None);
    }
    RefreshRep(n, s);
    RefreshShape(n, s, None, None);
    RefreshKeeps(n, s);
    RefreshCached(n, s);
    A.AllCleanFixed(View(Refresh(s)));
  }

  datatype Record = Record(left: Node?, right: Node?, key: UnitId, value: Unit, depth: int, clean: bool)

  ghost function Records(ns: set<Node>): (rec: map<Node, Record>)
    reads ns
  {
    map m | m in ns :: Record(m.left, m.right, m.key, m.value, m.depth, m.clean)
  }

  /** The snapshot was taken when the nodes had the recorded fields. */
  ghost predicate TakenFrom(n: Node?, s: Snap, rec: map<Node, Record>)
  {
    match s
    case E => n == null
    case S(m, l, key, value, depth, clean, r) =>
      && n == m && m in rec && rec[m].key == key && rec[m].value == value && rec[m].depth == depth
      && rec[m].clean == clean
      && TakenFrom(rec[m].left, l, rec) && TakenFrom(rec[m].right, r, rec)
  }

  lemma {:induction false} Taken(n: Node?, s: Snap, ns: set<Node>)
    requires Rep(n, s) && Nodes(s) <= ns
    ensures TakenFrom(n, s, Records(ns))
  {
    if s.S? {
      Taken(s.node.left, s.l, ns);
      Taken(s.node.right, s.r, ns);
    }
  }

  /** What the hasher does to a node. */
  ghost predicate Changed(m: Node, was: Record)
    reads m, m.left, m.right
  {
    && m.left == was.left && m.right == was.right && m.key == was.key && m.depth == was.depth
    && ((m.value == was.value && m.clean == was.clean) ||
        (!(was.clean && was.value.calculated) && Hashed(m) && Hashable(m.value) == Hashable(was.value)))
  }

  lemma {:induction false} FilledBy(n: Node?, s: Snap, rec: map<Node, Record>)
    requires TakenFrom(n, s, rec)
    requires forall m :: m in Nodes(s) && m in rec ==> Changed(m, rec[m])
    ensures Filled(n, s)
  {
    if s.S? {
      assert s.node in Nodes(s);
      FilledBy(rec[s.node].left, s.l, rec);
      FilledBy(rec[s.node].right, s.r, rec);
    }
  }

  // ----- state.go -----

  ghost predicate IsTree(n: Node?, s: Snap)
    reads Nodes(s)
  {
    Rep(n, s) && Linear(s) && A.Valid(View(s))
  }

  lemma {:induction false} OwnedAreDirty(n: Node?, s: Snap)
    requires Rep(n, s)
    ensures forall m :: m in Owned(s) ==> !m.clean
  {
    if s.S? {
      OwnedAreDirty(s.node.left, s.l);
      OwnedAreDirty(s.node.right, s.r);
    }
  }

  lemma {:induction false} NodesAreClean(n: Node?, s: Snap)
    requires Rep(n, s) && A.AllClean(View(s))
    ensures forall m :: m in Nodes(s) ==> m.clean
  {
    if s.S? {
      NodesAreClean(s.node.left, s.l);
      NodesAreClean(s.node.right, s.r);
    }
  }

  // ----- parts of a tree -----

  ghost function KeySet(s: Snap): (keys: set<UnitId>)
  {
    if s.E? then {} else KeySet(s.l) + {s.key} + KeySet(s.r)
  }

  ghost function KeysOf(s: Snap): (keys: set<UnitId>) { KeySet(s) }

  ghost predicate Occurs(o: Snap, s: Snap)
  {
    o == s || (s.S? && (Occurs(o, s.l) || Occurs(o, s.r)))
  }

  /** The one snapshot is a part of the other. */
  ghost predicate IsPart(o: Snap, s: Snap) { Occurs(o, s) }

  lemma {:induction false} PartOfPart(s: Snap, o: Snap)
    requires o.S? && IsPart(o, s)
    ensures IsPart(o.l, s) && IsPart(o.r, s)
  {
    if o != s {
      if IsPart(o, s.l) {
        PartOfPart(s.l, o);
      } else {
        PartOfPart(s.r, o);
      }
    }
  }

  ghost predicate Copied(s: Snap, s': Snap, keys: set<UnitId>)
  {
    s' == s || (s.S? && s'.S? && !(KeySet(s) !! keys) && Copied(s.l, s'.l, keys) && Copied(s.r, s'.r, keys))
  }

  /** A tree made from another one by copying ways down to some of the keys. */
  ghost predicate Keeps(s: Snap, s': Snap, keys: set<UnitId>) { Copied(s, s', keys) }

  /** What hangs off the ways to the keys is still there. */
  lemma {:induction false} OffPath(s: Snap, s': Snap, keys: set<UnitId>, o: Snap)
    requires Keeps(s, s', keys) && IsPart(o, s) && KeysOf(o) !! keys
    ensures IsPart(o, s')
  {
    if o != s && s' != s {
      if IsPart(o, s.l) {
        OffPath(s.l, s'.l, keys, o);
      } else {
        OffPath(s.r, s'.r, keys, o);
      }
    }
  }

  lemma {:induction false} UpdateKeeps(s: Snap, s': Snap, key: UnitId)
    requires PathCopied(s, s', key)
    ensures Keeps(s, s', {key})
  {
    KeyOnPath(s, s', key);
    assert key in KeySet(s) && key in {key};
    if key < s.key {
      UpdateKeeps(s.l, s'.l, key);
    } else if key > s.key {
      UpdateKeeps(s.r, s'.r, key);
    }
    assert Copied(s.l, s'.l, {key}) && Copied(s.r, s'.r, {key});
  }

  lemma {:induction false} KeepsMore(s: Snap, s': Snap, keys: set<UnitId>, more: set<UnitId>)
    requires Keeps(s, s', keys) && keys <= more
    ensures Keeps(s, s', more)
  {
    if s' != s {
      KeepsMore(s.l, s'.l, keys, more);
      KeepsMore(s.r, s'.r, keys, more);
    }
  }

  lemma {:induction false} KeepsThen(s: Snap, s1: Snap, s2: Snap, a: set<UnitId>, b: set<UnitId>)
    requires Keeps(s, s1, a) && Keeps(s1, s2, b)
    ensures Keeps(s, s2, a + b)
  {
    if s1 == s {
      KeepsMore(s, s2, b, a + b);
    } else if s2 == s1 {
      KeepsMore(s, s2, a, a + b);
    } else {
      KeepsThen(s.l, s1.l, s2.l, a, b);
      KeepsThen(s.r, s1.r, s2.r, a, b);
    }
  }

  lemma {:induction false} KeyOnPath(s: Snap, s': Snap, key: UnitId)
    requires PathCopied(s, s', key)
    ensures key in KeysOf(s)
  {
    if key < s.key {
      KeyOnPath(s.l, s'.l, key);
    } else if key > s.key {
      KeyOnPath(s.r, s'.r, key);
    }
  }

  lemma {:induction false} KeysWithin(s: Snap, lo: Option<UnitId>, hi: Option<UnitId>)
    requires A.Within(View(s), lo, hi)
    ensures forall k :: k in KeysOf(s) ==> (lo.Some? ==> lo.value < k) && (hi.Some? ==> k < hi.value)
    ensures KeysOf(s) == Contents(s).Keys
  {
    if s.S? {
      KeysWithin(s.l, lo, Some(s.key));
      KeysWithin(s.r, Some(s.key), hi);
    }
  }

  lemma NoKeys(s: Snap, t: Snap)
    requires s.E?
    ensures KeysOf(s) == {} && Keeps(t, t, {})
  {
  }

  lemma PartKeys(s: Snap)
    requires s.S? && (forall k :: k in KeysOf(s.l) ==> k < s.key) && forall k :: k in KeysOf(s.r) ==> s.key < k
    ensures KeysOf(s) == KeysOf(s.l) + {s.key} + KeysOf(s.r) && KeysOf(s.l) !! KeysOf(s.r)
    ensures s.key !in KeysOf(s.l) && s.key !in KeysOf(s.r)
  {
    var l, r := KeysOf(s.l), KeysOf(s.r);
    forall k | k in l ensures k !in r {
      assert k < s.key;
    }
  }

  lemma NotPruned(m: Store.Ledger, done: set<UnitId>, k: UnitId)
    requires k !in done
    ensures (k in Store.PruneSome(m, done) <==> k in m) && (k in m ==> Store.PruneSome(m, done)[k] == m[k])
  {
  }

  /** A part of a tree is sorted, is still as its snapshot says, and has the units of the tree. */
  lemma {:induction false} PartFacts(n: Node?, s: Snap, lo: Option<UnitId>, hi: Option<UnitId>, o: Snap)
    requires Rep(n, s) && A.Within(View(s), lo, hi) && o.S? && IsPart(o, s)
    ensures Rep(o.node, o) && o.node in Nodes(s)
    ensures o.key in Contents(s) && Contents(s)[o.key] == Core(o.value)
    ensures (forall k :: k in KeysOf(o.l) ==> k < o.key) && forall k :: k in KeysOf(o.r) ==> o.key < k
    ensures KeysOf(o) <= Contents(s).Keys
  {
    A.ContentsParts(View(s), lo, hi);
    KeysWithin(s, lo, hi);
    KeysWithin(s.l, lo, Some(s.key));
    KeysWithin(s.r, Some(s.key), hi);
    if o != s {
      if IsPart(o, s.l) {
        PartFacts(s.node.left, s.l, lo, Some(s.key), o);
      } else {
        PartFacts(s.node.right, s.r, Some(s.key), hi, o);
      }
    }
  }

  ghost function Contents(s: Snap): (m: Store.Ledger)
  {
    A.Contents(View(s))
  }

  ghost predicate RootClean(s: Snap)
  {
    View(s).Nil? || View(s).clean
  }

  lemma CleanRoot(s: Snap)
    requires A.AllClean(View(s))
    ensures RootClean(s)
  {
  }

  /** Some unit has several log entries. */
  ghost predicate LongLog(m: Store.Ledger)
  {
    exists id :: id in m && |m[id].logs| > 1
  }

  lemma DirtyRoot(s: Snap)
    ensures !RootClean(s) ==> s.S? && !s.clean
  {
  }

  lemma UpdateDirties(s: Snap, id: UnitId, u: Unit, s': Snap)
    requires A.Valid(View(s)) && A.Uncached(u) && A.Update(View(s), id, u).Done?
    requires View(s') == A.Update(View(s), id, u).tree
    ensures !RootClean(s')
  {
    A.UpdateBits(View(s), id, u);
  }

  ghost function Ledgers(ss: seq<Snap>): (st: seq<Store.Ledger>)
    ensures |st| == |ss|
  {
    seq(|ss|, i requires 0 <= i < |ss| => Contents(ss[i]))
  }

  class State {
    var committed: Node?
    var savepoints: seq<Node?>
    ghost var cs: Snap          // snapshot of the committed tree
    ghost var ss: seq<Snap>     // snapshots of the savepoints
    ghost var repr: set<Node>

    /** The nodes of all trees but the latest savepoint. */
    ghost function Frozen(): (ns: set<Node>)
      reads this
    {
      set m | m in repr && (m in Nodes(cs) || exists i :: 0 <= i < |ss| - 1 && m in Nodes(ss[i]))
    }

    ghost predicate OthersValid()
      reads this, Frozen()
    {
      && |savepoints| == |ss| >= 1
      && Nodes(cs) <= repr && (forall i :: 0 <= i < |ss| ==> Nodes(ss[i]) <= repr)
      && IsTree(committed, cs) && A.AllClean(View(cs))
      && (forall i :: 0 <= i < |ss| - 1 ==> IsTree(savepoints[i], ss[i]) && A.AllClean(View(ss[i])))
    }

    /** Every tree is a valid AVL tree with correct caches; only the latest savepoint has dirty nodes. */
    ghost predicate Valid()
      reads this, repr
      ensures Valid() ==> |savepoints| == |ss| >= 1
    {
      OthersValid() && IsTree(savepoints[|ss| - 1], ss[|ss| - 1])
    }

    /** The ledgers on the savepoint stack, oldest first. */
    ghost function Stack(): (st: Store.Stack)
      requires |ss| >= 1
      reads this
    {
      Ledgers(ss)
    }

    /** The latest savepoint is a valid tree and shares no dirty node with the other trees. */
    lemma OpenLatest()
      requires Valid()
      ensures |savepoints| == |ss| >= 1 && OthersValid()
      ensures var s := ss[|ss| - 1]; var n := savepoints[|ss| - 1];
        && Owned(s) !! Frozen() && Owned(s) <= repr && Frozen() <= repr
        && Rep(n, s) && Linear(s) && A.Valid(View(s)) && A.DepthOk(View(s)) && A.CleanDown(View(s))
        && Store.Top(Stack()) == A.Contents(View(s))
    {
      LatestApart();
    }

    lemma LatestApart()
      requires Valid()
      ensures Owned(ss[|ss| - 1]) !! Frozen()
    {
      hide Rep, Linear, Nodes, Owned, View, A.AllClean, A.Contents, A.Valid;
      var top := |ss| - 1;
      OwnedAreDirty(savepoints[top], ss[top]);
      NodesAreClean(committed, cs);
      forall i | 0 <= i < top ensures Owned(ss[top]) !! Nodes(ss[i]) {
        NodesAreClean(savepoints[i], ss[i]);
      }
    }

    /** No tree has another root, except perhaps the latest savepoint. */
    twostate predicate SameRoots()
      reads this
    {
      && committed == old(committed) && |savepoints| == old(|savepoints|) >= 1
      && savepoints[..|savepoints| - 1] == old(savepoints[..|savepoints| - 1])
    }

    lemma CloseLatest()
      requires OthersValid() && Rep(savepoints[|ss| - 1], ss[|ss| - 1]) && Linear(ss[|ss| - 1])
      requires A.Valid(View(ss[|ss| - 1]))
      ensures Valid()
    {
    }

    constructor ()
      ensures Valid() && fresh(repr) && Stack() == [map[]] && Contents(cs) == map[]
    {
      committed, savepoints := null, [null];
      cs, ss, repr := E, [E], {};
    }

    /** A state over a clean tree, for example one that was read from a file. */
    constructor Over(root: Node?, ghost s: Snap)
      requires IsTree(root, s) && A.AllClean(View(s))
      ensures Valid() && repr == Nodes(s) && cs == s && ss == [s] && Stack() == [Contents(s)]
      ensures committed == root && savepoints == [root]
    {
      committed, savepoints := root, [root];
      cs, ss, repr := s, [s], Nodes(s);
    }

    /** The first savepoint, if it is clean, becomes the committed tree too. */
    method AdoptBottom()
      requires Valid() && RootClean(ss[0])
      modifies this
      ensures Valid() && repr == old(repr) && ss == old(ss) && Stack() == old(Stack())
      ensures savepoints == old(savepoints) && committed == savepoints[0] && cs == ss[0]
    {
      CleanBottom();
      committed, cs := savepoints[0], ss[0];
    }

    lemma CleanBottom()
      requires Valid() && RootClean(ss[0])
      ensures IsTree(savepoints[0], ss[0]) && A.AllClean(View(ss[0])) && Nodes(ss[0]) <= repr
    {
      A.CleanRootAllClean(View(ss[0]));
    }

    method Get(id: UnitId) returns (u: Option<Unit>)
      requires Valid()
      ensures u.Some? <==> id in Store.Top(Stack())
      ensures u.Some? ==> Core(u.value) == Store.Top(Stack())[id]
    {
      OpenLatest();
      u := AvlHeap.Get(savepoints[|savepoints| - 1], id, ss[|ss| - 1]);
      A.GetRefines(View(ss[|ss| - 1]), id);
    }

    method SetTop(q: Node?, ghost s: Snap)
      requires OthersValid() && Rep(q, s) && Linear(s) && A.Valid(View(s))
      modifies this
      ensures Valid() && repr == old(repr) + Nodes(s) && cs == old(cs) && ss == old(ss[|ss| - 1 := s])
      ensures Stack() == Store.SetTop(old(Stack()), A.Contents(View(s)))
      ensures committed == old(committed) && savepoints == old(savepoints)[|ss| - 1 := q]
    {
      var top := |savepoints| - 1;
      savepoints, ss, repr := savepoints[top := q], ss[top := s], repr + Nodes(s);
    }

    method Add(id: UnitId, u: Unit) returns (ok: bool)
      requires Valid() && A.Uncached(u)
      modifies this, repr
      ensures Valid() && fresh(repr - old(repr)) && cs == old(cs)
      ensures |ss| == old(|ss|) && ss[..|ss| - 1] == old(ss[..|ss| - 1])
      ensures SameRoots()
      ensures ok <==> id !in Store.Top(old(Stack()))
      ensures Stack() == if ok then Store.SetTop(old(Stack()), Store.Top(old(Stack()))[id := Core(u)]) else old(Stack())
    {
      hide Valid, OthersValid, Stack, Rep, Linear, Nodes, Owned, Shared, View, A.Valid, A.Contents, A.Insert, A.Update,
        A.Remove, A.DepthOk, A.CleanDown, RootClean, Store.Top, Store.SetTop, Core;
      OpenLatest();
      var top := |savepoints| - 1;
      ghost var s := ss[|ss| - 1];
      A.InsertRefines(View(s), id, u);
      var q;
      ghost var s';
      ok, q, s' := AvlHeap.Insert(savepoints[top], id, u, s);
      if ok {
        SetTop(q, s');
      } else {
        CloseLatest();
      }
    }

    method Update(id: UnitId, u: Unit) returns (ok: bool)
      requires Valid() && A.Uncached(u)
      modifies this, repr
      ensures Valid() && fresh(repr - old(repr)) && cs == old(cs)
      ensures ok <==> id in Store.Top(old(Stack()))
      ensures |ss| == old(|ss|) && ss[..|ss| - 1] == old(ss[..|ss| - 1])
      ensures SameRoots()
      ensures if ok then !RootClean(ss[|ss| - 1]) else ss == old(ss)
      ensures !RootClean(old(ss[|ss| - 1])) ==> savepoints == old(savepoints)
      ensures Stack() == if ok then Store.SetTop(old(Stack()), Store.Top(old(Stack()))[id := Core(u)]) else old(Stack())
      ensures ok ==> PathCopied(old(ss[|ss| - 1]), ss[|ss| - 1], id)
      ensures forall x :: x in old(repr) && old(allocated(x)) ==> Steady(x, id)
    {
      hide Valid, OthersValid, Stack, Rep, Linear, Nodes, Owned, Shared, View, A.Valid, A.Contents, A.Insert, A.Update,
        A.Remove, A.DepthOk, A.CleanDown, RootClean, Store.Top, Store.SetTop, Core;
      OpenLatest();
      var top := |savepoints| - 1;
      ghost var s := ss[|ss| - 1];
      A.UpdateRefines(View(s), id, u);
      var q;
      ghost var s';
      ok, q, s' := AvlHeap.Update(savepoints[top], id, u, s);
      if ok {
        UpdateDirties(s, id, u, s');
        DirtyRoot(s);
        SetTop(q, s');
      } else {
        CloseLatest();
      }
    }

    method Delete(id: UnitId) returns (ok: bool)
      requires Valid()
      modifies this, repr
      ensures Valid() && fresh(repr - old(repr)) && cs == old(cs)
      ensures |ss| == old(|ss|) && ss[..|ss| - 1] == old(ss[..|ss| - 1])
      ensures SameRoots()
      ensures ok <==> id in Store.Top(old(Stack()))
      ensures Stack() == if ok then Store.SetTop(old(Stack()), Store.Top(old(Stack())) - {id}) else old(Stack())
    {
      hide Valid, OthersValid, Stack, Rep, Linear, Nodes, Owned, Shared, View, A.Valid, A.Contents, A.Insert, A.Update,
        A.Remove, A.DepthOk, A.CleanDown, RootClean, Store.Top, Store.SetTop, Core;
      OpenLatest();
      var top := |savepoints| - 1;
      ghost var s := ss[|ss| - 1];
      A.RemoveRefines(View(s), id);
      var q;
      ghost var s';
      ok, q, s' := AvlHeap.Remove(savepoints[top], id, s);
      if ok {
        SetTop(q, s');
      } else {
        CloseLatest();
      }
    }

    method Push(ghost s: Snap)
      requires OthersValid() && Rep(savepoints[|ss| - 1], s) && Linear(s) && A.Valid(View(s)) && A.AllClean(View(s))
      requires Nodes(s) <= repr && A.Contents(View(s)) == Store.Top(Stack())
      modifies this
      ensures Valid() && repr == old(repr) && cs == old(cs) && |savepoints| == |old(Stack())| + 1
      ensures Stack() == Store.Savepoint(old(Stack())) && ss == old(ss[|ss| - 1 := s]) + [s]
      ensures committed == old(committed) && savepoints == old(savepoints) + [old(savepoints[|savepoints| - 1])]
    {
      var top := |savepoints| - 1;
      savepoints, ss := savepoints + [savepoints[top]], ss[top := s] + [s];
    }

    /** Pushes a savepoint: a clone of the latest one, whose nodes all become shared. */
    method Savepoint() returns (id: nat)
      requires Valid()
      modifies this, repr
      ensures Valid() && repr == old(repr) && cs == old(cs)
      ensures Stack() == Store.Savepoint(old(Stack())) && id == |old(Stack())|
      ensures id == old(|ss|) && |ss| == id + 1 && ss[..id - 1] == old(ss[..|ss| - 1]) && RootClean(ss[id - 1])
      ensures committed == old(committed) && savepoints == old(savepoints) + [old(savepoints[|savepoints| - 1])]
    {
      hide *;
      OpenLatest();
      A.MarkCleanRefines(View(ss[|ss| - 1]));
      ghost var s := AvlHeap.MarkClean(savepoints[|savepoints| - 1], ss[|ss| - 1]);
      CleanRoot(s);
      Push(s);
      id := |savepoints| - 1;
    }

    method RollbackToSavepoint(id: nat)
      requires Valid() && id >= 1
      modifies this
      ensures Valid() && repr == old(repr) && cs == old(cs)
      ensures Stack() == Store.RollbackTo(old(Stack()), id)
      ensures ss == if id <= old(|ss|) then old(ss)[..id] else old(ss)
      ensures committed == old(committed)
      ensures savepoints == if id <= old(|ss|) then old(savepoints)[..id] else old(savepoints)
    {
      if id <= |savepoints| {
        savepoints, ss := savepoints[..id], ss[..id];
      }
    }

    method ReleaseToSavepoint(id: nat)
      requires Valid() && id >= 1
      modifies this
      ensures Valid() && repr == old(repr) && cs == old(cs)
      ensures Stack() == Store.ReleaseTo(old(Stack()), id)
      ensures ss == if id <= old(|ss|) then old(ss)[..id - 1] + [old(ss)[old(|ss|) - 1]] else old(ss)
      ensures committed == old(committed)
      ensures savepoints ==
        if id <= old(|ss|) then old(savepoints)[..id - 1] + [old(savepoints)[old(|ss|) - 1]] else old(savepoints)
    {
      if id <= |savepoints| {
        var top := |savepoints| - 1;
        savepoints, ss := savepoints[..id - 1] + [savepoints[top]], ss[..id - 1] + [ss[top]];
      }
    }

    // ----- actions.go -----

    /** Runs an action that adds a unit. */
    method RunAdd(a: Store.Action) returns (err: Option<Store.Error>)
      requires Valid() && (a.AddUnit? || a.AddDummyUnit? || a.AddOrPromoteUnit?)
      modifies this, repr
      ensures Valid() && fresh(repr - old(repr)) && cs == old(cs)
      ensures |ss| == old(|ss|) && ss[..|ss| - 1] == old(ss[..|ss| - 1])
      ensures SameRoots()
      ensures match Store.Act(Store.Top(old(Stack())), a)
              case Ok(m) => err.None? && Stack() == Store.SetTop(old(Stack()), m)
              case Err(e) => err == Some(e) && Stack() == old(Stack())
    {
      hide Valid, OthersValid, Stack;
      var ok;
      if a.AddDummyUnit? {
        ok := Add(a.id, Store.NewUnit(None));
      } else {
        var v := SummaryInput(Some(a.data));
        var u := Unit([], NoHash, Some(a.data), 0, None, v, NodeHash(a.id, NoHash, v, NoHash, 0, NoHash, 0), false);
        if a.AddOrPromoteUnit? {
          var existing := Get(a.id);
          if existing.Some? {
            if existing.value.data.Some? {
              return Some(Store.Rejected);
            }
            ok := Update(a.id, u);
            return None;
          }
        }
        ok := Add(a.id, u);
      }
      err := if ok then None else Some(Store.AlreadyExists);
    }

    /** Runs an action that rewrites a unit: get it, clone it, change the clone, put it back. */
    method RunChange(a: Store.Action) returns (err: Option<Store.Error>)
      requires Valid() && (a.UpdateUnitData? || a.SetStateLock? || a.RemoveStateLock? || a.MarkForDeletion?)
      modifies this, repr
      ensures Valid() && fresh(repr - old(repr)) && cs == old(cs)
      ensures |ss| == old(|ss|) && ss[..|ss| - 1] == old(ss[..|ss| - 1])
      ensures SameRoots()
      ensures match Store.Act(Store.Top(old(Stack())), a)
              case Ok(m) => err.None? && Stack() == Store.SetTop(old(Stack()), m)
              case Err(e) => err == Some(e) && Stack() == old(Stack())
    {
      hide Valid, OthersValid, Stack;
      var got := Get(a.id);
      if got.None? {
        return Some(Store.NotFound);
      }
      var u := Clone(got.value);
      match a {
        case UpdateUnitData(_, f) =>
          var d := f(u.data);
          if d.None? { return Some(Store.Rejected); }
          u := u.(data := d.value);
        case SetStateLock(_, lock) =>
          if u.lock.Some? { return Some(Store.Rejected); }
          u := u.(lock := Some(lock));
        case RemoveStateLock(_) =>
          if u.lock.None? { return Some(Store.AlreadyUnlocked); }
          u := u.(lock := None);
        case MarkForDeletion(_, round) =>
          u := u.(deletionRound := round);
      }
      var ok := Update(a.id, u);
      err := None;
    }

    /** Runs one action against the latest savepoint. */
    method Run(a: Store.Action) returns (err: Option<Store.Error>)
      requires Valid()
      modifies this, repr
      ensures Valid() && fresh(repr - old(repr)) && cs == old(cs)
      ensures |ss| == old(|ss|) && ss[..|ss| - 1] == old(ss[..|ss| - 1])
      ensures SameRoots()
      ensures match Store.Act(Store.Top(old(Stack())), a)
              case Ok(m) => err.None? && Stack() == Store.SetTop(old(Stack()), m)
              case Err(e) => err == Some(e) && Stack() == old(Stack())
    {
      hide Valid, OthersValid, Stack;
      match a
      case AddUnit(_, _) => err := RunAdd(a);
      case AddDummyUnit(_) => err := RunAdd(a);
      case AddOrPromoteUnit(_, _) => err := RunAdd(a);
      case DeleteUnit(id) =>
        var ok := Delete(id);
        err := if ok then None else Some(Store.NotFound);
      case UpdateUnitData(_, _) => err := RunChange(a);
      case SetStateLock(_, _) => err := RunChange(a);
      case RemoveStateLock(_) => err := RunChange(a);
      case MarkForDeletion(_, _) => err := RunChange(a);
    }

    /** All actions take effect, or none does; the savepoint stack keeps its depth. */
    method Apply(actions: seq<Store.Action>) returns (err: Option<Store.Error>)
      requires Valid()
      modifies this, repr
      ensures Valid() && fresh(repr - old(repr)) && cs == old(cs)
      ensures |ss| == old(|ss|) && ss[..|ss| - 1] == old(ss[..|ss| - 1])
      ensures SameRoots()
      ensures err.Some? ==> RootClean(ss[|ss| - 1]) && savepoints == old(savepoints)
      ensures Stack() == Store.SetTop(old(Stack()), Store.Apply(Store.Top(old(Stack())), actions))
      ensures err == match Store.ActAll(Store.Top(old(Stack())), actions) case Ok(_) => None case Err(e) => Some(e)
    {
      hide Valid, OthersValid, Stack, RootClean;
      ghost var st := Stack();
      ghost var m := Store.Top(st);
      var id := Savepoint();
      ghost var below := ss[..id];
      for i := 0 to |actions|
        invariant Valid() && fresh(repr - old(repr)) && cs == old(cs)
        invariant |ss| == id + 1 && ss[..id] == below
        invariant committed == old(committed) && |savepoints| == id + 1 && savepoints[..id] == old(savepoints)
        invariant Store.ActAll(m, actions[..i]).Ok?
        invariant Stack() == st + [Store.ActAll(m, actions[..i]).ledger]
      {
        assert actions[..i + 1][..i] == actions[..i];
        err := Run(actions[i]);
        if err.Some? {
          FirstError(m, actions, i + 1);
          Store.SavepointUndone(st, [Store.Top(Stack())]);
          RollbackToSavepoint(id);
          return;
        }
      }
      assert actions[..|actions|] == actions;
      Store.SavepointUndone(st, [Store.Top(Stack())]);
      ReleaseToSavepoint(id);
      err := None;
    }

    method AddUnitLog(id: UnitId, txr: Digest) returns (ok: bool)
      requires Valid()
      modifies this, repr
      ensures Valid() && fresh(repr - old(repr)) && cs == old(cs)
      ensures match Store.AddUnitLog(Store.Top(old(Stack())), id, txr)
              case Ok(m) => ok && Stack() == Store.SetTop(old(Stack()), m)
              case Err(_) => !ok && Stack() == old(Stack())
      ensures |ss| == old(|ss|) && ss[..|ss| - 1] == old(ss[..|ss| - 1])
      ensures SameRoots()
      ensures if ok then !RootClean(ss[|ss| - 1]) else ss == old(ss)
      ensures !RootClean(old(ss[|ss| - 1])) ==> savepoints == old(savepoints)
    {
      hide Valid, OthersValid, Stack, RootClean;
      var got := Get(id);
      if got.None? {
        return false;
      }
      ok := Update(id, Store.WithLog(Clone(got.value), txr));
    }

    // ----- state_pruner.go -----

    /** Shortens every unit's log to one entry; the unit's data, lock and deletion round stay. */
    method Prune()
      requires Valid()
      modifies this, repr
      ensures Valid() && fresh(repr - old(repr)) && cs == old(cs)
      ensures Stack() == Store.SetTop(old(Stack()), Store.Prune(Store.Top(old(Stack()))))
      ensures |ss| == old(|ss|) && ss[..|ss| - 1] == old(ss[..|ss| - 1])
      ensures SameRoots()
      ensures if LongLog(Store.Top(old(Stack()))) then !RootClean(ss[|ss| - 1]) else ss == old(ss)
      ensures !RootClean(old(ss[|ss| - 1])) ==> savepoints == old(savepoints)
    {
      hide Valid, OthersValid, Stack, Store.Pruned, RootClean, KeysOf;
      ghost var st := Stack();
      ghost var m := Store.Top(st);
      assert Store.PruneSome(m, {}) == m;
      ghost var s := ss[|ss| - 1];
      LatestKeys();
      PruneFrom(savepoints[|savepoints| - 1], s, st, m, {});
      assert {} + KeysOf(s) == KeysOf(s);
      assert Store.PruneSome(m, KeysOf(s)) == Store.Prune(m);
    }

    lemma LatestKeys()
      requires Valid()
      ensures |savepoints| == |ss| >= 1 && IsPart(ss[|ss| - 1], ss[|ss| - 1])
      ensures KeysOf(ss[|ss| - 1]) == Store.Top(Stack()).Keys
      ensures savepoints[|ss| - 1] == if ss[|ss| - 1].E? then null else ss[|ss| - 1].node
    {
      OpenLatest();
      KeysWithin(ss[|ss| - 1], None, None);
    }

    /** A node that an update of the keys leaves as it is, but for the ways down to them. */
    twostate predicate Unmoved(x: Node, keys: set<UnitId>)
      reads x
    {
      && x.key == old(x.key) && (x.key !in keys ==> x.value == old(x.value))
      && ((forall k :: k in keys ==> k < x.key) ==> x.right == old(x.right))
    }

    /** Visits the nodes below one of the latest tree: first the left ones, then the right ones, then the node
        itself.  The units found are written back into the tree at once, so that dirty nodes change under
        the traversal and clean ones are replaced; still every unit is found once, as it was. */
    method PruneFrom(n: Node?, ghost part: Snap, ghost st: Store.Stack, ghost m: Store.Ledger, ghost done: set<UnitId>)
      requires Valid() && Stack() == Store.SetTop(st, Store.PruneSome(m, done))
      requires IsPart(part, ss[|ss| - 1]) && n == (if part.E? then null else part.node) && KeysOf(part) !! done
      modifies this, repr
      ensures Valid() && fresh(repr - old(repr)) && cs == old(cs)
      ensures Stack() == Store.SetTop(st, Store.PruneSome(m, done + KeysOf(part)))
      ensures |ss| == old(|ss|) && ss[..|ss| - 1] == old(ss[..|ss| - 1])
      ensures SameRoots() && KeysOf(part) <= m.Keys
      ensures if exists k :: k in KeysOf(part) && |m[k].logs| > 1 then !RootClean(ss[|ss| - 1]) else ss == old(ss)
      ensures !RootClean(old(ss[|ss| - 1])) ==> savepoints == old(savepoints) && !RootClean(ss[|ss| - 1])
      ensures Keeps(old(ss[|ss| - 1]), ss[|ss| - 1], KeysOf(part))
      ensures forall x :: x in old(repr) && old(allocated(x)) ==> Unmoved(x, KeysOf(part))
      decreases part, 1
    {
      hide Valid, OthersValid, Stack, RootClean, Store.Pruned, Store.PruneSome, IsPart, KeysOf, Rep, Keeps;
      if n == null {
        NoKeys(part, ss[|ss| - 1]);
        assert done + KeysOf(part) == done;
        return;
      }
      OpenPart(part);
      ghost var l, k, r := KeysOf(part.l), part.key, KeysOf(part.r);
      PartKeys(part);
      NotPruned(m, done, k);
      ghost var s0 := ss[|ss| - 1];
      PruneBelow(n, part, st, m, done);
      assert n.key == k && n.value == part.value;
      ghost var s1 := ss[|ss| - 1];
      PruneUnit(n, st, m, done + (l + r));
      assert done + (l + r) + {k} == done + KeysOf(part);
      assert l + r + {k} == KeysOf(part);
      KeepsThen(s0, s1, ss[|ss| - 1], l + r, {k});
    }

    /** Visits the nodes below a node. */
    method PruneBelow(n: Node, ghost part: Snap, ghost st: Store.Stack, ghost m: Store.Ledger, ghost done: set<UnitId>)
      requires Valid() && Stack() == Store.SetTop(st, Store.PruneSome(m, done))
      requires part.S? && IsPart(part, ss[|ss| - 1]) && n == part.node && KeysOf(part) !! done
      modifies this, repr
      ensures Valid() && fresh(repr - old(repr)) && cs == old(cs)
      ensures var keys := KeysOf(part.l) + KeysOf(part.r);
        && Stack() == Store.SetTop(st, Store.PruneSome(m, done + keys)) && keys <= m.Keys
        && (if exists k :: k in keys && |m[k].logs| > 1 then !RootClean(ss[|ss| - 1]) else ss == old(ss))
        && Keeps(old(ss[|ss| - 1]), ss[|ss| - 1], keys)
        && forall x :: x in old(repr) && old(allocated(x)) ==> Unmoved(x, keys)
      ensures |ss| == old(|ss|) && ss[..|ss| - 1] == old(ss[..|ss| - 1])
      ensures SameRoots()
      ensures !RootClean(old(ss[|ss| - 1])) ==> savepoints == old(savepoints) && !RootClean(ss[|ss| - 1])
      decreases part, 0
    {
      hide Valid, OthersValid, Stack, RootClean, Store.Pruned, Store.PruneSome, IsPart, KeysOf, Rep, Keeps;
      PartOfPart(ss[|ss| - 1], part);
      OpenPart(part);
      ghost var l, r := KeysOf(part.l), KeysOf(part.r);
      PartKeys(part);
      ghost var s0 := ss[|ss| - 1];
      PruneFrom(n.left, part.l, st, m, done);
      ghost var s1 := ss[|ss| - 1];
      OffPath(s0, s1, l, part.r);
      assert n.right == (if part.r.E? then null else part.r.node);
      PruneFrom(n.right, part.r, st, m, done + l);
      assert done + l + r == done + (l + r);
      KeepsThen(s0, s1, ss[|ss| - 1], l, r);
    }

    lemma OpenPart(part: Snap)
      requires Valid() && part.S? && IsPart(part, ss[|ss| - 1])
      ensures Rep(part.node, part) && part.node in repr && allocated(part.node)
      ensures part.node.key == part.key && part.node.value == part.value
      ensures part.node.left == (if part.l.E? then null else part.l.node)
      ensures part.node.right == (if part.r.E? then null else part.r.node)
      ensures part.key in Store.Top(Stack()) && Store.Top(Stack())[part.key] == Core(part.value)
      ensures (forall k :: k in KeysOf(part.l) ==> k < part.key) && forall k :: k in KeysOf(part.r) ==> part.key < k
    {
      OpenLatest();
      PartFacts(savepoints[|ss| - 1], ss[|ss| - 1], None, None, part);
    }

    method PruneUnit(n: Node, ghost st: Store.Stack, ghost m: Store.Ledger, ghost done: set<UnitId>)
      requires Valid() && n.key in m && n.key !in done && Core(n.value) == m[n.key]
      requires Stack() == Store.SetTop(st, Store.PruneSome(m, done))
      modifies this, repr
      ensures Valid() && fresh(repr - old(repr)) && cs == old(cs)
      ensures Stack() == Store.SetTop(st, Store.PruneSome(m, done + {old(n.key)}))
      ensures |ss| == old(|ss|) && ss[..|ss| - 1] == old(ss[..|ss| - 1])
      ensures SameRoots()
      ensures if old(|n.value.logs|) > 1 then !RootClean(ss[|ss| - 1]) else ss == old(ss)
      ensures !RootClean(old(ss[|ss| - 1])) ==> savepoints == old(savepoints)
      ensures Keeps(old(ss[|ss| - 1]), ss[|ss| - 1], {old(n.key)})
      ensures forall x :: x in old(repr) && old(allocated(x)) ==> Unmoved(x, {old(n.key)})
    {
      hide Valid, OthersValid, Stack, RootClean, IsPart, PathCopied, KeysOf;
      var id := n.key;
      Store.PruneOne(m, done, id);
      ghost var p := Store.PruneSome(m, done);
      assert Store.Top(Stack()) == p;
      assert |p[id].logs| <= 1 ==> p[id := Store.Pruned(p[id])] == p;
      if |n.value.logs| > 1 {
        var u := Store.Pruned(Clone(n.value));
        ghost var s := ss[|ss| - 1];
        var ok := Update(id, u);
        UpdateKeeps(s, ss[|ss| - 1], id);
      }
    }

    /** Hashes the latest savepoint.  The summary is the one a recomputation from the units would give,
        for this tree and for every tree that shares nodes with it. */
    method CalculateRoot() returns (sum: A.Summary)
      requires Valid()
      modifies this, repr
      ensures Valid() && repr == old(repr) && |ss| == old(|ss|) && savepoints == old(savepoints)
      ensures committed == old(committed)
      ensures sum == A.Recompute(old(View(ss[|ss| - 1]))) && sum == A.Stored(View(ss[|ss| - 1]))
      ensures sum.value == Summaries.Worth(old(Contents(ss[|ss| - 1])))
      ensures var t := View(ss[|ss| - 1]); t.Nil? || (t.clean && t.value.calculated)
      ensures forall i :: 0 <= i < |ss| ==> A.Entries(View(ss[i])) == old(A.Entries(View(ss[i])))
      ensures forall i :: 0 <= i < |ss| ==> A.Recompute(View(ss[i])) == old(A.Recompute(View(ss[i])))
      ensures A.Entries(View(cs)) == old(A.Entries(View(cs))) && A.Recompute(View(cs)) == old(A.Recompute(View(cs)))
      ensures forall i :: 0 <= i < |ss| && old(A.AllLogged(Contents(ss[i]))) ==> Contents(ss[i]) == old(Contents(ss[i]))
      ensures old(A.AllLogged(Contents(cs))) ==> Contents(cs) == old(Contents(cs))
    {
      hide Rep, Linear, Nodes, View, Refresh, A.Entries, A.Recompute, A.Cached, A.CleanDown, A.AllClean, A.Rehash,
        A.DepthOk, A.Balanced, A.Within, Changed, TakenFrom, Valid, OthersValid, StoredAt, Records, A.AllLogged,
        A.Contents, A.Stored, Summaries.Worth;
      ghost var rec := Records(repr);
      ghost var t := View(ss[|ss| - 1]);
      ghost var s := HashLatest(rec);
      A.RehashExact(t);
      Summaries.SummaryValue(t, None, None);
      A.RehashKeeps(t, None, None);
      if A.AllLogged(A.Contents(t)) {
        A.RehashLogged(t, None, None);
      }
      var top := |savepoints| - 1;
      Root(savepoints[top], s);
      sum := StoredAt(savepoints[top]);
      AfterHashing(rec);
      Install(s);
    }

    /** Runs the hasher over the latest savepoint. */
    method HashLatest(ghost rec: map<Node, Record>) returns (ghost s: Snap)
      requires Valid() && rec == Records(repr)
      modifies repr
      ensures OthersTaken(rec) && forall m :: m in repr ==> Changed(m, rec[m])
      ensures Rep(savepoints[|ss| - 1], s) && Linear(s) && Nodes(s) == Nodes(ss[|ss| - 1]) && Nodes(s) <= repr
      ensures var t := View(ss[|ss| - 1]);
        A.Bits(t) && A.DepthOk(t) && A.Balanced(t) && A.Within(t, None, None) && View(s) == A.Rehash(t)
      ensures StoredAt(savepoints[|ss| - 1]) == A.Stored(View(s))
    {
      hide Rep, Linear, Stale, A.Cached, A.CleanDown, A.Rehash, A.DepthOk, A.Balanced, A.Within, Hashable, Hashed,
        OthersTaken;
      BeforeHashing(rec);
      s := Rehash(savepoints[|savepoints| - 1], ss[|ss| - 1]);
      HashedRoot(savepoints[|savepoints| - 1], ss[|ss| - 1], s);
    }

    /** Takes the snapshots again after hashing. */
    ghost method Install(s: Snap)
      requires |savepoints| == |ss| >= 1 && IsTree(savepoints[|ss| - 1], s) && Nodes(s) <= repr
      requires IsTree(committed, Refresh(cs)) && A.AllClean(View(Refresh(cs))) && Nodes(Refresh(cs)) <= repr
      requires forall i :: 0 <= i < |ss| - 1 ==>
        IsTree(savepoints[i], Refresh(ss[i])) && A.AllClean(View(Refresh(ss[i]))) && Nodes(Refresh(ss[i])) <= repr
      modifies `cs, `ss
      ensures Valid() && |ss| == old(|ss|) && cs == old(Refresh(cs)) && ss[|ss| - 1] == s
      ensures forall i :: 0 <= i < |ss| - 1 ==> ss[i] == old(Refresh(ss[i]))
    {
      hide Rep, Linear, A.AllClean, A.Valid, Nodes, View, Refresh;
      var top := |ss| - 1;
      cs, ss := Refresh(cs), RefreshAll(ss[..top]) + [s];
    }

    ghost predicate OthersTaken(rec: map<Node, Record>)
      reads this
    {
      && |savepoints| == |ss| >= 1 && rec.Keys == repr
      && Nodes(cs) <= repr && (forall i :: 0 <= i < |ss| ==> Nodes(ss[i]) <= repr)
      && TakenFrom(committed, cs, rec) && Linear(cs) && A.Valid(View(cs)) && A.AllClean(View(cs))
      && (forall i :: 0 <= i < |ss| - 1 ==>
            TakenFrom(savepoints[i], ss[i], rec) && Linear(ss[i]) && A.Valid(View(ss[i])) && A.AllClean(View(ss[i])))
    }

    lemma BeforeHashing(rec: map<Node, Record>)
      requires Valid() && rec == Records(repr)
      ensures OthersTaken(rec)
      ensures var s := ss[|ss| - 1];
        && Rep(savepoints[|ss| - 1], s) && Linear(s) && A.Bits(View(s)) && Stale(s) <= repr
        && A.DepthOk(View(s)) && A.Balanced(View(s)) && A.Within(View(s), None, None)
        && forall m :: m in Stale(s) ==> !(rec[m].clean && rec[m].value.calculated)
    {
      Taken(committed, cs, repr);
      forall i | 0 <= i < |ss| - 1 ensures TakenFrom(savepoints[i], ss[i], rec) {
        Taken(savepoints[i], ss[i], repr);
      }
      StaleUnfilled(savepoints[|ss| - 1], ss[|ss| - 1]);
    }

    lemma AfterHashing(rec: map<Node, Record>)
      requires OthersTaken(rec) && forall m :: m in repr ==> Changed(m, rec[m])
      ensures IsTree(committed, Refresh(cs)) && A.AllClean(View(Refresh(cs))) && Nodes(Refresh(cs)) == Nodes(cs)
      ensures A.Entries(View(Refresh(cs))) == A.Entries(View(cs))
      ensures A.Recompute(View(Refresh(cs))) == A.Recompute(View(cs))
      ensures A.AllLogged(Contents(cs)) ==> Contents(Refresh(cs)) == Contents(cs)
      ensures forall i :: 0 <= i < |ss| - 1 ==>
        (A.AllLogged(Contents(ss[i])) ==> Contents(Refresh(ss[i])) == Contents(ss[i]))
      ensures forall i :: 0 <= i < |ss| - 1 ==>
        && IsTree(savepoints[i], Refresh(ss[i])) && A.AllClean(View(Refresh(ss[i])))
        && Nodes(Refresh(ss[i])) == Nodes(ss[i])
        && A.Entries(View(Refresh(ss[i]))) == A.Entries(View(ss[i]))
        && A.Recompute(View(Refresh(ss[i]))) == A.Recompute(View(ss[i]))
    {
      FilledBy(committed, cs, rec);
      Refreshed(committed, cs);
      forall i | 0 <= i < |ss| - 1
        ensures IsTree(savepoints[i], Refresh(ss[i])) && A.AllClean(View(Refresh(ss[i])))
        ensures Nodes(Refresh(ss[i])) == Nodes(ss[i])
        ensures A.Entries(View(Refresh(ss[i]))) == A.Entries(View(ss[i]))
        ensures A.Recompute(View(Refresh(ss[i]))) == A.Recompute(View(ss[i]))
        ensures A.AllLogged(Contents(ss[i])) ==> Contents(Refresh(ss[i])) == Contents(ss[i])
      {
        FilledBy(savepoints[i], ss[i], rec);
        Refreshed(savepoints[i], ss[i]);
      }
    }

    /** Drops every savepoint and goes back to the committed tree. */
    method Revert()
      requires Valid()
      modifies this
      ensures Valid() && repr == old(repr) && cs == old(cs)
      ensures Stack() == [Contents(cs)] && ss == [cs] && committed == old(committed) && savepoints == [committed]
    {
      savepoints, ss := [committed], [cs];
    }

    /** Commits the latest savepoint if its root is clean and stores the certified summary. */
    method Commit(hash: Digest, value: nat) returns (ok: bool)
      requires Valid()
      modifies this
      ensures Valid() && repr == old(repr)
      ensures var t := old(View(ss[|ss| - 1])); ok <==> (t.Nil? || t.clean) && A.Stored(t) == A.Summary(value, hash)
      ensures !ok ==> Stack() == old(Stack()) && cs == old(cs) && ss == old(ss)
      ensures !ok ==> committed == old(committed) && savepoints == old(savepoints)
      ensures ok ==> committed == old(savepoints[|savepoints| - 1]) && savepoints == [committed] && ss == [cs]
      ensures ok ==> Stack() == [Store.Top(old(Stack()))] && Contents(cs) == Store.Top(old(Stack()))
      ensures ok && (View(cs).Nil? || View(cs).value.calculated) ==> A.Summary(value, hash) == A.Recompute(View(cs))
    {
      hide Rep, Linear, Nodes, View, Valid, OthersValid, Stack, A.AllClean, A.Valid, A.Cached, A.CleanDown, A.Recompute,
        StoredAt, A.Contents;
      OpenLatest();
      ghost var s := ss[|ss| - 1];
      ghost var t := View(s);
      var root := savepoints[|savepoints| - 1];
      Root(root, s);
      RootSummary(root, s);
      if root != null && !root.clean {
        return false;
      }
      ok := StoredAt(root) == A.Summary(value, hash);
      if ok {
        A.CleanRootAllClean(t);
        LatestNodes();
        Promote(root, s);
        if t.Nil? || t.value.calculated {
          ValidIsCached(t);
          A.CalculatedIsExact(t);
        }
      }
    }

    lemma LatestNodes()
      requires Valid()
      ensures Nodes(ss[|ss| - 1]) <= repr
    {
    }

    /** A clean tree becomes the committed one and the only savepoint. */
    method Promote(root: Node?, ghost s: Snap)
      requires Rep(root, s) && Linear(s) && A.Valid(View(s)) && A.AllClean(View(s)) && Nodes(s) <= repr
      modifies this
      ensures Valid() && repr == old(repr) && cs == s && ss == [s] && Stack() == [A.Contents(View(s))]
      ensures committed == root && savepoints == [root]
    {
      committed, savepoints, cs, ss := root, [root], s, [s];
    }
  }

  /** What can happen to a state. */
  datatype Op =
    | OpApply(actions: seq<Store.Action>)
    | OpSavepoint
    | OpRollback(id: nat)
    | OpRelease(id: nat)
    | OpLog(unit: UnitId, txr: Digest)
    | OpPrune
    | OpHash
    | OpCommit(hash: Digest, value: nat)
    | OpRevert

  method Perform(state: State, op: Op)
    requires state.Valid() && (op.OpRollback? || op.OpRelease? ==> op.id >= 1)
    modifies state, state.repr
    ensures state.Valid() && fresh(state.repr - old(state.repr))
  {
    hide State.Valid, State.OthersValid, State.Stack;
    match op
    case OpApply(actions) => var err := state.Apply(actions);
    case OpSavepoint => var id := state.Savepoint();
    case OpRollback(id) => state.RollbackToSavepoint(id);
    case OpRelease(id) => state.ReleaseToSavepoint(id);
    case OpLog(unit, txr) => var ok := state.AddUnitLog(unit, txr);
    case OpPrune => state.Prune();
    case OpHash => var sum := state.CalculateRoot();
    case OpCommit(hash, value) => var ok := state.Commit(hash, value);
    case OpRevert => state.Revert();
  }

  /** Whatever was done to the state before, the root that the incremental hasher calculates is the one
      that a recomputation from the units of the latest savepoint gives, and its value is that of all bills. */
  method RootAfter(state: State, ops: seq<Op>) returns (sum: A.Summary)
    requires state.Valid()
    requires forall i :: 0 <= i < |ops| ==> (ops[i].OpRollback? || ops[i].OpRelease? ==> ops[i].id >= 1)
    modifies state, state.repr
    ensures state.Valid() && |state.ss| >= 1
    ensures sum == A.Recompute(View(state.ss[|state.ss| - 1])) == A.Stored(View(state.ss[|state.ss| - 1]))
    ensures sum.value == Summaries.Worth(Store.Top(state.Stack()))
  {
    hide *;
    for i := 0 to |ops|
      invariant state.Valid() && fresh(state.repr - old(state.repr))
    {
      Perform(state, ops[i]);
    }
    sum := state.CalculateRoot();
    LatestWorth(state);
  }

  lemma LatestWorth(state: State)
    requires state.Valid()
    ensures |state.ss| >= 1
    ensures A.Recompute(View(state.ss[|state.ss| - 1])).value == Summaries.Worth(Store.Top(state.Stack()))
  {
    Summaries.SummaryValue(View(state.ss[|state.ss| - 1]), None, None);
  }

  lemma RootSummary(n: Node?, s: Snap)
    requires Rep(n, s)
    ensures StoredAt(n) == A.Stored(View(s))
  {
  }

  lemma ValidIsCached(t: A.Tree)
    requires A.Valid(t)
    ensures A.Cached(t)
  {
  }

  lemma {:induction false} FirstError(m: Store.Ledger, actions: seq<Store.Action>, n: nat)
    requires n <= |actions| && Store.ActAll(m, actions[..n]).Err?
    ensures Store.ActAll(m, actions) == Store.ActAll(m, actions[..n])
    decreases |actions| - n
  {
    if n < |actions| {
      assert actions[..n + 1][..n] == actions[..n];
      FirstError(m, actions, n + 1);
    } else {
      assert actions[..n] == actions;
    }
  }
}
