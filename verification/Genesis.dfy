/** The state after a file without a certificate was read, as at genesis: the committed tree and the first
    savepoint are one object.  What is done to that tree in place is done to the committed tree too, until
    another tree takes the place of the first savepoint, and after a revert for as long as the common root
    is dirty. */
module Genesis {
  import opened Units
  import opened AvlHeap
  import A = Avl
  import Store
  import StateHeap

  /** How the committed tree and the first savepoint hang together: one object; two objects with the same
      root, which is still written in place; or independent. */
  datatype Link = One | Twin | Apart

  /** What the trees of a state mean: the committed ledger, the savepoints, the link, and whether the root of
      linked trees is dirty. */
  datatype Versions = Versions(committed: Store.Ledger, stack: Store.Stack, link: Link, dirty: bool)

  ghost predicate Sound(v: Versions)
  {
    && (!v.link.Apart? ==> v.committed == v.stack[0])
    && (v.dirty ==> !v.link.Apart? && |v.stack| == 1)
    && (v.link.Twin? ==> v.dirty)
  }

  datatype Op =
    | Log(unit: UnitId, txr: Digest)
    | Prune
    | Hash
    | Apply(actions: seq<Store.Action>)
    | Savepoint
    | Rollback(id: nat)
    | Release(id: nat)
    | Revert
    | Commit(certified: bool)

  predicate IsLegal(op: Op) { op.Rollback? || op.Release? ==> op.id >= 1 }

  /** At depth one, while the trees are linked: a log entry for a unit that is there, or pruning when some
      unit has several entries. */
  ghost predicate Touches(v: Versions, op: Op)
  {
    !v.link.Apart? && |v.stack| == 1 &&
    ((op.Log? && op.unit in v.stack[0]) || (op.Prune? && StateHeap.LongLog(v.stack[0])))
  }

  /** The top of the stack is updated in place. */
  ghost function InPlace(v: Versions, m: Store.Ledger, touches: bool): (v': Versions)
  {
    var stack := Store.SetTop(v.stack, m);
    Versions(if v.link.Apart? then v.committed else stack[0], stack, v.link, v.dirty || touches)
  }

  /** All nodes become clean, so that twins part. */
  function Cleaned(v: Versions): (v': Versions)
  {
    v.(link := if v.link.Twin? then Apart else v.link, dirty := false)
  }

  function Separate(v: Versions): (v': Versions)
  {
    v.(link := Apart, dirty := false)
  }

  ghost function Step(v: Versions, op: Op): (v': Versions)
    requires IsLegal(op) && !op.Hash?
  {
    match op
    case Log(id, txr) =>
      (match Store.AddUnitLog(Store.Top(v.stack), id, txr) case Ok(m) => InPlace(v, m, Touches(v, op)) case Err(_) => v)
    case Prune => InPlace(v, Store.Prune(Store.Top(v.stack)), Touches(v, op))
    case Apply(actions) =>
      (match Store.ActAll(Store.Top(v.stack), actions)
       case Ok(m) => (if |v.stack| == 1 then Separate(v) else Cleaned(v)).(stack := Store.SetTop(v.stack, m))
       case Err(_) => Cleaned(v))
    case Savepoint => Cleaned(v).(stack := Store.Savepoint(v.stack))
    case Rollback(id) => v.(stack := Store.RollbackTo(v.stack, id))
    case Release(id) => (if id == 1 && |v.stack| > 1 then Separate(v) else v).(stack := Store.ReleaseTo(v.stack, id))
    case Revert => (if v.dirty then v.(link := Twin) else Separate(v)).(stack := [v.committed])
    case Commit(certified) =>
      if certified then Versions(Store.Top(v.stack), [Store.Top(v.stack)], Apart, false) else v
  }

  /** Hashing writes into units what their logs say, and makes all nodes of the latest tree clean. */
  ghost predicate Hashes(v: Versions, v': Versions)
  {
    && v'.link == Cleaned(v).link && !v'.dirty && (!v'.link.Apart? ==> v'.committed == v'.stack[0])
    && A.Alike(v.committed, v'.committed) && (A.AllLogged(v.committed) ==> v'.committed == v.committed)
    && |v'.stack| == |v.stack| && forall i :: 0 <= i < |v.stack| ==> A.Alike(v.stack[i], v'.stack[i])
  }

  ghost predicate Steps(v: Versions, op: Op, v': Versions)
    requires IsLegal(op)
  {
    if op.Hash? then Hashes(v, v') else v' == Step(v, op)
  }

  // ----- on the heap -----

  /** A tree object; several may have the same root. */
  class Tree {
    var root: Node?

    constructor (root: Node?)
      ensures this.root == root
    {
      this.root := root;
    }
  }

  /** The state as the program has it: tree objects, of which the committed one may be the first savepoint.
      The nodes below them are those of a state object whose own committed tree is not looked at as long as
      the trees are linked. */
  class GenesisState {
    const state: StateHeap.State
    var committedTree: Tree
    var savepoints: seq<Tree>

    ghost predicate IsTwin()
      reads this, state, committedTree, savepoints
    {
      && |savepoints| == |state.ss| == 1 && committedTree != savepoints[0]
      && committedTree.root == savepoints[0].root && !StateHeap.RootClean(state.ss[0])
    }

    ghost predicate Mirrors()
      reads this, state, savepoints
    {
      && |savepoints| == |state.savepoints| >= 1
      && (forall i :: 0 <= i < |savepoints| ==> savepoints[i].root == state.savepoints[i])
      && (forall i, j :: 0 <= i < j < |savepoints| ==> savepoints[i] != savepoints[j])
      && (forall i :: 0 < i < |savepoints| ==> savepoints[i] != committedTree)
    }

    ghost predicate Valid()
      reads this, state, state.repr, committedTree, savepoints
    {
      && state.Valid() && Mirrors()
      && (committedTree == savepoints[0] || IsTwin() || committedTree.root == state.committed)
    }

    ghost function Linked(): (link: Link)
      requires Mirrors()
      reads this, state, committedTree, savepoints
    {
      if committedTree == savepoints[0] then One else if IsTwin() then Twin else Apart
    }

    /** The nodes below the committed tree. */
    ghost function Committed(): (s: Snap)
      requires Valid()
      reads this, state, state.repr, committedTree, savepoints
      ensures StateHeap.IsTree(committedTree.root, s)
    {
      if Linked().Apart? then state.cs else state.ss[0]
    }

    ghost function Meaning(): (v: Versions)
      requires Valid()
      reads this, state, state.repr, committedTree, savepoints
    {
      Versions(StateHeap.Contents(Committed()), state.Stack(), Linked(),
               !Linked().Apart? && !StateHeap.RootClean(state.ss[0]))
    }

    constructor (root: Node?, ghost s: Snap)
      requires StateHeap.IsTree(root, s) && A.AllClean(View(s))
      ensures Valid() && fresh(state) && state.repr == Nodes(s) && committedTree == savepoints[0]
      ensures Meaning() == Versions(StateHeap.Contents(s), [StateHeap.Contents(s)], One, false)
    {
      state := new StateHeap.State.Over(root, s);
      var t := new Tree(root);
      committedTree, savepoints := t, [t];
      new;
      StateHeap.CleanRoot(s);
    }

    lemma Depth()
      requires state.Valid()
      ensures |state.savepoints| == |state.ss| == |state.Stack()| >= 1
      ensures |state.ss| > 1 ==> StateHeap.RootClean(state.ss[0])
      ensures state.savepoints[0] == null || state.savepoints[0].clean <==> StateHeap.RootClean(state.ss[0])
      ensures state.Stack()[0] == StateHeap.Contents(state.ss[0])
      ensures state.committed == null || state.committed.clean
    {
      if |state.ss| > 1 {
        StateHeap.CleanRoot(state.ss[0]);
      }
      StateHeap.CleanRoot(state.cs);
      assert StateHeap.IsTree(state.committed, state.cs);
      assert StateHeap.IsTree(state.savepoints[0], state.ss[0]);
    }

    /** The latest tree object gets the root that its tree now has. */
    method SetRoot()
      requires |savepoints| == |state.savepoints| >= 1
      modifies savepoints[|savepoints| - 1]
      ensures savepoints[|savepoints| - 1].root == state.savepoints[|savepoints| - 1]
    {
      var top := |savepoints| - 1;
      savepoints[top].root := state.savepoints[top];
    }

    method AddUnitLog(id: UnitId, txr: Digest) returns (ok: bool)
      requires Valid()
      modifies this, state, state.repr, savepoints
      ensures Valid() && fresh(state.repr - old(state.repr)) && Meaning() == Step(old(Meaning()), Op.Log(id, txr))
      ensures savepoints == old(savepoints) && committedTree == old(committedTree)
    {
      hide StateHeap.State.Valid, StateHeap.State.OthersValid, StateHeap.State.Stack, StateHeap.RootClean,
        StateHeap.Contents, StateHeap.IsTree;
      Depth();
      ok := state.AddUnitLog(id, txr);
      Depth();
      SetRoot();
    }

    method RunPrune()
      requires Valid()
      modifies this, state, state.repr, savepoints
      ensures Valid() && fresh(state.repr - old(state.repr)) && Meaning() == Step(old(Meaning()), Prune)
      ensures savepoints == old(savepoints) && committedTree == old(committedTree)
    {
      hide StateHeap.State.Valid, StateHeap.State.OthersValid, StateHeap.State.Stack, StateHeap.RootClean,
        StateHeap.Contents, StateHeap.IsTree, Store.Prune, StateHeap.LongLog;
      Depth();
      state.Prune();
      Depth();
      SetRoot();
    }

    /** A committed tree that no longer shares a dirty root is brought in line with the state object. */
    method Part()
      requires state.Valid() && Mirrors() && committedTree != savepoints[0] && StateHeap.RootClean(state.ss[0])
      requires committedTree.root == savepoints[0].root
      modifies state
      ensures Valid() && state.repr == old(state.repr) && state.ss == old(state.ss) && Linked().Apart?
      ensures state.savepoints == old(state.savepoints) && state.Stack() == old(state.Stack())
      ensures Committed() == state.ss[0]
    {
      hide StateHeap.State.Valid, StateHeap.State.OthersValid, StateHeap.State.Stack, StateHeap.RootClean;
      state.AdoptBottom();
    }

    /** Two tree objects have the same root, which is still written in place. */
    method AreTwins() returns (twins: bool)
      requires Valid()
      ensures twins <==> Linked().Twin?
    {
      hide StateHeap.State.Valid, StateHeap.State.OthersValid, StateHeap.RootClean, StateHeap.IsTree;
      Depth();
      var first := savepoints[0];
      twins := |savepoints| == 1 && committedTree != first && committedTree.root == first.root && first.root != null &&
        !first.root.clean;
    }

    lemma HashedClean()
      requires state.Valid() && (var t := View(state.ss[|state.ss| - 1]); t.Nil? || t.clean)
      ensures StateHeap.RootClean(state.ss[0])
    {
      Depth();
    }

    method CalculateRoot() returns (sum: A.Summary)
      requires Valid()
      modifies this, state, state.repr
      ensures Valid() && state.repr == old(state.repr) && Steps(old(Meaning()), Hash, Meaning())
      ensures savepoints == old(savepoints) && committedTree == old(committedTree)
    {
      hide StateHeap.State.Valid, StateHeap.State.OthersValid, StateHeap.State.Stack, StateHeap.RootClean,
        StateHeap.IsTree, A.Recompute, A.Entries, A.Stored, A.Alike, A.AllLogged, A.Contents, View;
      Depth();
      ghost var was, cs := state.ss, state.cs;
      StackIs();
      var twins := AreTwins();
      sum := state.CalculateRoot();
      Depth();
      HashedClean();
      StacksAlike(was, state.ss);
      A.SameEntriesAlike(View(cs), View(state.cs));
      if twins {
        Part();
      }
      StackIs();
    }

    lemma StackIs()
      requires |state.ss| >= 1
      ensures state.Stack() == StateHeap.Ledgers(state.ss)
    {
    }

    /** A clone of the latest tree object is pushed, and the nodes below it are marked clean. */
    method PushClone()
      requires Valid()
      modifies this, state, state.repr
      ensures state.Valid() && Mirrors() && state.repr == old(state.repr) && state.cs == old(state.cs)
      ensures state.Stack() == Store.Savepoint(old(state.Stack())) && state.committed == old(state.committed)
      ensures committedTree == old(committedTree) && |savepoints| == |old(savepoints)| + 1 >= 2
      ensures savepoints[..|old(savepoints)|] == old(savepoints) && fresh(savepoints[|old(savepoints)|])
    {
      hide StateHeap.State.Valid, StateHeap.State.OthersValid, StateHeap.State.Stack, StateHeap.RootClean,
        StateHeap.IsTree, StateHeap.Contents;
      Depth();
      var clone := new Tree(savepoints[|savepoints| - 1].root);
      var id := state.Savepoint();
      savepoints := savepoints + [clone];
    }

    method RunSavepoint() returns (id: nat)
      requires Valid()
      modifies this, state, state.repr
      ensures Valid() && state.repr == old(state.repr) && Meaning() == Step(old(Meaning()), Savepoint)
      ensures committedTree == old(committedTree) && id == |old(savepoints)|
      ensures |savepoints| == id + 1 && savepoints[..id] == old(savepoints) && fresh(savepoints[id])
    {
      hide StateHeap.State.Valid, StateHeap.State.OthersValid, StateHeap.State.Stack, StateHeap.RootClean,
        StateHeap.IsTree, StateHeap.Contents;
      Depth();
      var twins := AreTwins();
      id := |savepoints|;
      PushClone();
      Depth();
      if twins {
        Part();
        Depth();
      }
    }

    method RunRollback(id: nat)
      requires Valid() && id >= 1
      modifies this, state
      ensures Valid() && state.repr == old(state.repr) && Meaning() == Step(old(Meaning()), Rollback(id))
      ensures savepoints == if id <= |old(savepoints)| then old(savepoints)[..id] else old(savepoints)
      ensures committedTree == old(committedTree)
    {
      hide StateHeap.State.Valid, StateHeap.State.OthersValid, StateHeap.State.Stack, StateHeap.RootClean,
        StateHeap.IsTree, StateHeap.Contents;
      Depth();
      state.RollbackToSavepoint(id);
      if id <= |savepoints| {
        savepoints := savepoints[..id];
      }
      Depth();
    }

    method ReleaseTo(id: nat)
      requires state.Valid() && Mirrors() && id >= 1
      modifies this, state
      ensures state.Valid() && Mirrors() && state.repr == old(state.repr) && state.cs == old(state.cs)
      ensures state.Stack() == Store.ReleaseTo(old(state.Stack()), id) && state.committed == old(state.committed)
      ensures committedTree == old(committedTree) && forall t :: t in savepoints ==> t in old(savepoints)
      ensures id > |old(savepoints)| ==> state.ss == old(state.ss) && savepoints == old(savepoints)
      ensures 1 < id <= |old(savepoints)| ==> state.ss[0] == old(state.ss)[0] && savepoints[0] == old(savepoints)[0]
      ensures id == 1 ==> |savepoints| == 1 && savepoints[0] == old(savepoints[|savepoints| - 1])
      ensures id == 1 && |old(savepoints)| == 1 ==> state.ss == old(state.ss)
      ensures id <= |old(savepoints)| ==> |savepoints| == id
    {
      hide StateHeap.State.Valid, StateHeap.State.OthersValid, StateHeap.State.Stack, StateHeap.RootClean,
        StateHeap.IsTree, StateHeap.Contents;
      Depth();
      state.ReleaseToSavepoint(id);
      if id <= |savepoints| {
        savepoints := savepoints[..id - 1] + [savepoints[|savepoints| - 1]];
      }
    }

    method RunRelease(id: nat)
      requires Valid() && id >= 1
      modifies this, state
      ensures Valid() && state.repr == old(state.repr) && Meaning() == Step(old(Meaning()), Release(id))
      ensures forall t :: t in savepoints ==> t in old(savepoints)
    {
      hide StateHeap.State.Valid, StateHeap.State.OthersValid, StateHeap.State.Stack, StateHeap.RootClean,
        StateHeap.IsTree, StateHeap.Contents, Store.ReleaseTo;
      Depth();
      if committedTree == savepoints[0] && id == 1 && |savepoints| > 1 {
        state.AdoptBottom();
      }
      Depth();
      ReleaseTo(id);
      Depth();
    }

    method RunRevert()
      requires Valid()
      modifies this, state
      ensures Valid() && state.repr == old(state.repr) && Meaning() == Step(old(Meaning()), Revert)
      ensures |savepoints| == 1 && fresh(savepoints[0])
    {
      hide StateHeap.State.Valid, StateHeap.State.OthersValid, StateHeap.State.Stack, StateHeap.RootClean,
        StateHeap.IsTree, StateHeap.Contents;
      Depth();
      var twins := AreTwins();
      var one := committedTree == savepoints[0];
      var clone := new Tree(committedTree.root);
      if one && (clone.root == null || clone.root.clean) {
        state.AdoptBottom();
      }
      if !twins && !(one && clone.root != null && !clone.root.clean) {
        state.Revert();
      }
      savepoints := [clone];
      Depth();
    }

    method Commit(hash: Digest, value: nat) returns (ok: bool)
      requires Valid()
      modifies this, state
      ensures Valid() && state.repr == old(state.repr) && Meaning() == Step(old(Meaning()), Op.Commit(ok))
      ensures var t := old(View(state.ss[|state.ss| - 1]));
        ok <==> (t.Nil? || t.clean) && A.Stored(t) == A.Summary(value, hash)
      ensures forall t :: t in savepoints ==> t in old(savepoints)
    {
      hide StateHeap.State.Valid, StateHeap.State.OthersValid, StateHeap.State.Stack, A.Recompute, StateHeap.RootClean,
        StateHeap.IsTree, StateHeap.Contents;
      Depth();
      ok := state.Commit(hash, value);
      if ok {
        var latest := savepoints[|savepoints| - 1];
        committedTree := new Tree(latest.root);
        savepoints := [latest];
      }
      Depth();
    }

    /** One action on the latest tree, which is not the first. */
    method RunOne(action: Store.Action) returns (err: Option<Store.Error>)
      requires Valid() && |savepoints| >= 2
      modifies state, state.repr, savepoints[|savepoints| - 1]
      ensures Valid() && fresh(state.repr - old(state.repr))
      ensures match Store.Act(Store.Top(old(Meaning().stack)), action)
              case Ok(m) => err.None? && Meaning() == old(Meaning()).(stack := Store.SetTop(old(Meaning().stack), m))
              case Err(e) => err == Some(e) && Meaning() == old(Meaning())
    {
      hide StateHeap.State.Valid, StateHeap.State.OthersValid, StateHeap.State.Stack, StateHeap.RootClean,
        StateHeap.IsTree, StateHeap.Contents, Store.Act;
      Depth();
      err := state.Run(action);
      Depth();
      SetRoot();
    }

    method RunApply(actions: seq<Store.Action>) returns (err: Option<Store.Error>)
      requires Valid()
      modifies this, state, state.repr
      ensures Valid() && fresh(state.repr - old(state.repr)) && Meaning() == Step(old(Meaning()), Apply(actions))
      ensures err ==
        match Store.ActAll(Store.Top(old(Meaning().stack)), actions) case Ok(_) => None case Err(e) => Some(e)
      ensures forall t :: t in savepoints ==> t in old(savepoints) || fresh(t)
    {
      hide Valid, Meaning, Mirrors, Store.ActAll, Store.RollbackTo, Store.ReleaseTo, Store.Act;
      ghost var v := Meaning();
      ghost var m := Store.Top(v.stack);
      StackDepth();
      var id := RunSavepoint();
      assert Store.ActAll(m, actions[..0]) == Store.Ok(m) by {
        NoActions(m, actions[..0]);
      }
      for i := 0 to |actions|
        invariant Valid() && fresh(state.repr - old(state.repr)) && committedTree == old(committedTree)
        invariant |savepoints| == id + 1 >= 2 && savepoints[..id] == old(savepoints) && fresh(savepoints[id])
        invariant Store.ActAll(m, actions[..i]).Ok?
        invariant Meaning() == Cleaned(v).(stack := v.stack + [Store.ActAll(m, actions[..i]).ledger])
      {
        assert actions[..i + 1][..i] == actions[..i];
        OneMore(m, actions, i);
        err := RunOne(actions[i]);
        if err.Some? {
          StateHeap.FirstError(m, actions, i + 1);
          Store.SavepointUndone(v.stack, [Store.ActAll(m, actions[..i]).ledger]);
          RunRollback(id);
          return;
        }
      }
      assert actions[..|actions|] == actions;
      Store.SavepointUndone(v.stack, [Store.ActAll(m, actions).ledger]);
      RunRelease(id);
      err := None;
    }

    /** Any operation, on the heap, does what its meaning says. */
    method Perform(op: Op)
      requires Valid() && IsLegal(op) && !op.Commit?
      modifies this, state, state.repr, savepoints
      ensures Valid() && fresh(state.repr - old(state.repr)) && Steps(old(Meaning()), op, Meaning())
      ensures forall t :: t in savepoints ==> t in old(savepoints) || fresh(t)
    {
      hide Valid, Meaning, Step, Hashes;
      match op {
        case Log(id, txr) => var ok := AddUnitLog(id, txr);
        case Prune => RunPrune();
        case Hash => var sum := CalculateRoot();
        case Savepoint => var id := RunSavepoint();
        case Rollback(id) => RunRollback(id);
        case Apply(actions) => var err := RunApply(actions);
        case Release(id) => RunRelease(id);
        case Revert => RunRevert();
      }
    }

    lemma StackDepth()
      requires Valid()
      ensures |Meaning().stack| == |savepoints|
    {
      Depth();
    }
  }

  lemma NoActions(m: Store.Ledger, none: seq<Store.Action>)
    requires none == []
    ensures Store.ActAll(m, none) == Store.Ok(m)
  {
  }

  lemma OneMore(m: Store.Ledger, actions: seq<Store.Action>, i: nat)
    requires i < |actions| && Store.ActAll(m, actions[..i]).Ok?
    ensures Store.ActAll(m, actions[..i + 1]) == Store.Act(Store.ActAll(m, actions[..i]).ledger, actions[i])
  {
    assert actions[..i + 1][..i] == actions[..i];
  }

  lemma StacksAlike(ss: seq<Snap>, ss': seq<Snap>)
    requires |ss'| == |ss| && forall i :: 0 <= i < |ss| ==> A.Entries(View(ss'[i])) == A.Entries(View(ss[i]))
    ensures var st, st' := StateHeap.Ledgers(ss), StateHeap.Ledgers(ss');
      |st| == |st'| == |ss| && forall i :: 0 <= i < |st| ==> A.Alike(st[i], st'[i])
  {
    forall i | 0 <= i < |ss| ensures A.Alike(StateHeap.Ledgers(ss)[i], StateHeap.Ledgers(ss')[i]) {
      A.SameEntriesAlike(View(ss[i]), View(ss'[i]));
    }
  }

  // ----- what a revert undoes -----

  /** How many transactions a ledger head has behind it. */
  function Height(head: Digest): (n: nat)
  {
    match head case LedgerHead(prev, _) => 1 + Height(prev) case _ => 0
  }

  function LastHead(u: Unit): (head: Digest)
  {
    if u.logs == [] then NoHash else u.logs[|u.logs| - 1].head
  }

  /** Logging and pruning only ever move a unit in this direction. */
  predicate Later(logs: Unit, logs': Unit)
  {
    var h, h' := Height(LastHead(logs)), Height(LastHead(logs'));
    h' > h || (h' == h && |logs'.logs| < |logs.logs|)
  }

  predicate SameLog(u: Unit, u': Unit) { Effective(u') == Effective(u) && u'.logs == u.logs }

  ghost predicate Moved(m: Store.Ledger, m': Store.Ledger)
  {
    m'.Keys == m.Keys && forall id :: id in m ==> SameLog(m[id], m'[id]) || Later(m[id], m'[id])
  }

  lemma AlikeMoves(m: Store.Ledger, m': Store.Ledger)
    requires A.Alike(m, m')
    ensures Moved(m, m')
  {
  }

  /** Exactly the steps above change the logs of the committed ledger without a commit; nothing else that
      happens to a ledger that is as its logs say changes it. */
  lemma ChangesCommitted(v: Versions, op: Op, v': Versions)
    requires Sound(v) && IsLegal(op) && Steps(v, op, v') && !(op.Commit? && op.certified)
    ensures Sound(v') && Moved(v.committed, v'.committed) && (v.link.Apart? ==> v'.link.Apart?)
    ensures A.Alike(v.committed, v'.committed) <==> !Touches(v, op)
    ensures !Touches(v, op) && A.AllLogged(v.committed) ==> v'.committed == v.committed
  {
    var m := Store.Top(v.stack);
    if op.Hash? {
      AlikeMoves(v.committed, v'.committed);
    } else if op.Log? && op.unit in m {
      assert |Store.WithLog(m[op.unit], op.txr).logs| == |m[op.unit].logs| + 1;
    } else if op.Prune? {
      if id :| id in m && |m[id].logs| > 1 {
        assert |Store.Prune(m)[id].logs| == 1;
      } else {
        forall id | id in m ensures Store.Prune(m)[id] == m[id] {
          assert |m[id].logs| <= 1;
        }
        assert Store.Prune(m) == m;
      }
    }
  }

  /** The versions that a sequence of operations leads through. */
  ghost predicate Trace(vs: seq<Versions>, ops: seq<Op>)
  {
    && |vs| == |ops| + 1 && (forall i :: 0 <= i < |ops| ==> IsLegal(ops[i]))
    && forall i :: 0 <= i < |ops| ==> Steps(vs[i], ops[i], vs[i + 1])
  }

  predicate IsCommit(op: Op) { op.Commit? && op.certified }

  /** Where the last commit left off, or the start. */
  function Base(ops: seq<Op>): (n: nat)
    ensures n <= |ops|
  {
    if ops == [] then 0 else if IsCommit(ops[|ops| - 1]) then |ops| else Base(ops[..|ops| - 1])
  }

  /** None of the operations since then touches the shared tree. */
  ghost predicate Untouched(vs: seq<Versions>, ops: seq<Op>, from: nat)
    requires |vs| == |ops| + 1
  {
    forall i :: from <= i < |ops| ==> !Touches(vs[i], ops[i])
  }

  /** After any sequence of operations a revert goes back to the ledger of the last commit, or of the start, if
      and only if none of the operations since then touched the shared tree; after a commit none does. */
  lemma {:induction false} RevertUndoes(vs: seq<Versions>, ops: seq<Op>)
    requires Trace(vs, ops) && Sound(vs[0])
    ensures var v, start := vs[|ops|], vs[Base(ops)].committed;
      && Sound(v) && Moved(start, v.committed) && Step(v, Revert).stack == [v.committed]
      && (A.Alike(start, v.committed) <==> Untouched(vs, ops, Base(ops)))
      && (A.AllLogged(start) && Untouched(vs, ops, Base(ops)) ==> v.committed == start)
      && (Base(ops) > 0 ==> v.link.Apart? && Untouched(vs, ops, Base(ops)))
    decreases |ops|
  {
    hide Later, SameLog, Touches, Steps, Moved, A.Alike, A.AllLogged;
    var n := |ops| - 1;
    if ops == [] {
      Still(vs[0].committed);
    } else if IsCommit(ops[n]) {
      RevertUndoes(vs[..n + 1], ops[..n]);
      CommitParts(vs[n], ops[n], vs[n + 1]);
      Still(vs[n + 1].committed);
    } else {
      var b := Base(ops);
      RevertUndoes(vs[..n + 1], ops[..n]);
      ChangesCommitted(vs[n], ops[n], vs[n + 1]);
      Onwards(vs[b].committed, vs[n].committed, vs[n + 1].committed);
      ApartStays(vs[n], ops[n]);
      assert forall i :: b <= i < n ==> vs[..n + 1][i] == vs[i] && ops[..n][i] == ops[i];
    }
  }

  lemma ApartStays(v: Versions, op: Op)
    ensures v.link.Apart? ==> !Touches(v, op)
  {
  }

  lemma CommitParts(v: Versions, op: Op, v': Versions)
    requires IsLegal(op) && Steps(v, op, v') && IsCommit(op)
    ensures Sound(v') && v'.link.Apart? && v'.committed == Store.Top(v.stack)
  {
  }

  lemma Still(m: Store.Ledger)
    ensures Moved(m, m) && A.Alike(m, m)
  {
  }

  lemma Onwards(a: Store.Ledger, b: Store.Ledger, c: Store.Ledger)
    requires Moved(a, b) && Moved(b, c)
    ensures Moved(a, c) && (A.Alike(a, c) <==> A.Alike(a, b) && A.Alike(b, c))
  {
    if A.Alike(a, c) {
      forall id | id in a ensures SameLog(a[id], b[id]) && SameLog(b[id], c[id]) {
        assert SameLog(a[id], c[id]);
      }
    }
  }
}
