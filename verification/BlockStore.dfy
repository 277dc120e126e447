/** The tree of blocks that are not yet committed, and the commit rule of a validator. */
module BlockStore {
  import opened Units
  import opened Consensus
  import opened TrustBase

  /** A block as executed locally: its round, the round of its parent, its state root, and the certificate
      for the parent that it carries. */
  datatype Executed = Executed(round: nat, parent: nat, rootHash: int, qc: QuorumCert)

  type Blocks = map<nat, Executed>

  /** Below every block, the blocks that name it as their parent. */
  type Children = map<nat, seq<nat>>

  // ----- trees -----

  /** A block other than the root hangs below a block of an earlier round, and is listed there. */
  predicate NodeOk(blocks: Blocks, children: Children, root: nat, r: nat)
    requires r in blocks
  {
    var p := blocks[r].parent;
    blocks[r].round == r && r in children && (r != root ==> p < r && p in blocks && p in children && r in children[p])
  }

  /** Whatever is listed below a block is a block that hangs there, once. */
  predicate ListOk(blocks: Blocks, children: Children, root: nat, p: nat)
    requires p in children
  {
    && (forall c :: c in children[p] ==> c in blocks && c != root && blocks[c].parent == p)
    && (forall i, j :: 0 <= i < j < |children[p]| ==> children[p][i] != children[p][j])
  }

  ghost predicate IsTree(blocks: Blocks, children: Children, root: nat)
  {
    && root in blocks && children.Keys == blocks.Keys
    && (forall r {:trigger NodeOk(blocks, children, root, r)} :: r in blocks ==> NodeOk(blocks, children, root, r))
    && (forall p {:trigger ListOk(blocks, children, root, p)} :: p in children ==> ListOk(blocks, children, root, p))
  }

  /** The block of round r is that of round a, or builds on it. */
  ghost predicate Descends(blocks: Blocks, children: Children, root: nat, r: nat, a: nat)
    requires IsTree(blocks, children, root) && r in blocks
    decreases r
  {
    assert NodeOk(blocks, children, root, r);
    r == a || (r != root && Descends(blocks, children, root, blocks[r].parent, a))
  }

  lemma {:induction false} AncestorsAreOlder(blocks: Blocks, children: Children, root: nat, r: nat, a: nat)
    requires IsTree(blocks, children, root) && r in blocks && Descends(blocks, children, root, r, a)
    ensures a <= r && a in blocks
    decreases r
  {
    assert NodeOk(blocks, children, root, r);
    if r != a {
      AncestorsAreOlder(blocks, children, root, blocks[r].parent, a);
    }
  }

  lemma {:induction false} AllDescendFromRoot(blocks: Blocks, children: Children, root: nat, r: nat)
    requires IsTree(blocks, children, root) && r in blocks
    ensures Descends(blocks, children, root, r, root) && root <= r
    decreases r
  {
    assert NodeOk(blocks, children, root, r);
    if r != root {
      AllDescendFromRoot(blocks, children, root, blocks[r].parent);
    }
  }

  /** Adding a leaf. */
  lemma LeafAdded(blocks: Blocks, children: Children, root: nat, b: Executed)
    requires IsTree(blocks, children, root) && b.round !in blocks && b.parent in blocks && b.parent < b.round
    ensures IsTree(blocks[b.round := b], children[b.parent := children[b.parent] + [b.round]][b.round := []], root)
  {
    var blocks', children' := blocks[b.round := b], children[b.parent := children[b.parent] + [b.round]][b.round := []];
    forall r | r in blocks' ensures NodeOk(blocks', children', root, r) {
      if r != b.round {
        assert NodeOk(blocks, children, root, r);
      }
    }
    forall p | p in children' ensures ListOk(blocks', children', root, p) {
      if p != b.round {
        assert ListOk(blocks, children, root, p);
      }
    }
  }

  /** Removing a leaf. */
  lemma LeafRemoved(blocks: Blocks, children: Children, root: nat, round: nat, rest: seq<nat>)
    requires IsTree(blocks, children, root) && round in blocks && round != root && children[round] == []
    requires blocks[round].parent in children
    requires (forall y :: y in rest <==> y in children[blocks[round].parent] && y != round)
    requires forall i, j :: 0 <= i < j < |rest| ==> rest[i] != rest[j]
    ensures IsTree(blocks - {round}, (children - {round})[blocks[round].parent := rest], root)
    ensures forall r :: r in blocks && r != root ==> blocks[r].parent != round
  {
    var q := blocks[round].parent;
    var blocks', children' := blocks - {round}, (children - {round})[q := rest];
    assert NodeOk(blocks, children, root, round);
    forall r | r in blocks && r != root ensures blocks[r].parent != round {
      assert NodeOk(blocks, children, root, r);
    }
    forall r | r in blocks' ensures NodeOk(blocks', children', root, r) {
      assert NodeOk(blocks, children, root, r);
    }
    forall p | p in children' ensures ListOk(blocks', children', root, p) {
      assert ListOk(blocks, children, root, p);
    }
  }

  /** A list without one of its elements. */
  method Without(s: seq<nat>, x: nat) returns (r: seq<nat>)
    requires forall i, j :: 0 <= i < j < |s| ==> s[i] != s[j]
    ensures forall y :: y in r <==> y in s && y != x
    ensures forall i, j :: 0 <= i < j < |r| ==> r[i] != r[j]
  {
    for i := 0 to |s|
      invariant forall j :: 0 <= j < i ==> s[j] != x
    {
      if s[i] == x {
        return s[..i] + s[i + 1..];
      }
    }
    r := s;
  }

  // ----- pruning -----

  /** What the traversal has collected and what it still has to look at, on the way to collecting every
      block that does not build on the new root. */
  ghost predicate Collecting(blocks: Blocks, children: Children, root: nat, newRoot: nat, done: set<nat>,
                             left: set<nat>)
    requires IsTree(blocks, children, root)
  {
    && done !! left && (root in done || root in left)
    && (forall x :: x in done + left ==> x in blocks && !Descends(blocks, children, root, x, newRoot))
    && (forall x :: x in done + left && x != root ==> blocks[x].parent in done)
    && (forall p, c :: p in done && p in children && c in children[p] && c != newRoot ==> c in done + left)
  }

  lemma ChildDescends(blocks: Blocks, children: Children, root: nat, p: nat, c: nat, a: nat)
    requires IsTree(blocks, children, root) && p in blocks && c in children[p]
    ensures c in blocks && c != root && blocks[c].parent == p
    ensures Descends(blocks, children, root, c, a) <==> c == a || Descends(blocks, children, root, p, a)
  {
    assert ListOk(blocks, children, root, p);
  }

  /** Looking at one block: it is collected, and its children but the new root are looked at later. */
  lemma Collected(blocks: Blocks, children: Children, root: nat, newRoot: nat, done: set<nat>, left: set<nat>, n: nat)
    requires IsTree(blocks, children, root) && Collecting(blocks, children, root, newRoot, done, left) && n in left
    requires n in children
    ensures var next := left - {n} + set c | c in children[n] && c != newRoot;
      Collecting(blocks, children, root, newRoot, done + {n}, next)
  {
    var next := left - {n} + set c | c in children[n] && c != newRoot;
    forall c | c in children[n]
      ensures c in blocks && c != root && blocks[c].parent == n && c !in done + left
      ensures Descends(blocks, children, root, c, newRoot) ==> c == newRoot
    {
      ChildDescends(blocks, children, root, n, c, newRoot);
      assert blocks[c].parent == n && n !in done;
    }
    forall x | x in (done + {n}) + next
      ensures x in blocks && !Descends(blocks, children, root, x, newRoot) && (x != root ==>
        blocks[x].parent in done + {n})
    {
      assert x in done + left || x in children[n];
    }
    forall p, c | p in done + {n} && p in children && c in children[p] && c != newRoot
      ensures c in (done + {n}) + next
    {
      if p != n {
        assert c in done + left;
      }
    }
  }

  /** When nothing is left to look at, exactly the blocks that do not build on the new root are collected. */
  lemma {:induction false} AllCollected(blocks: Blocks, children: Children, root: nat, newRoot: nat,
                                        done: set<nat>, r: nat)
    requires IsTree(blocks, children, root) && Collecting(blocks, children, root, newRoot, done, {}) && r in blocks
    ensures r in done <==> !Descends(blocks, children, root, r, newRoot)
    decreases r
  {
    assert NodeOk(blocks, children, root, r);
    if r != root && !Descends(blocks, children, root, r, newRoot) {
      AllCollected(blocks, children, root, newRoot, done, blocks[r].parent);
    }
  }

  lemma NewRootFound(blocks: Blocks, children: Children, root: nat, newRoot: nat, done: set<nat>)
    requires IsTree(blocks, children, root) && Collecting(blocks, children, root, newRoot, done, {}) && newRoot != root
    ensures newRoot in blocks <==> exists p :: p in done && p in children && newRoot in children[p]
  {
    if newRoot in blocks {
      assert NodeOk(blocks, children, root, newRoot);
      var p := blocks[newRoot].parent;
      AllCollected(blocks, children, root, newRoot, done, p);
      if Descends(blocks, children, root, p, newRoot) {
        AncestorsAreOlder(blocks, children, root, p, newRoot);
      }
      assert p in done && newRoot in children[p];
    }
    if p :| p in done && p in children && newRoot in children[p] {
      assert ListOk(blocks, children, root, p);
    }
  }

  /** The blocks that build on a round. */
  ghost function Above(blocks: Blocks, children: Children, root: nat, a: nat): (kept: Blocks)
    requires IsTree(blocks, children, root)
  {
    map r | r in blocks && Descends(blocks, children, root, r, a) :: blocks[r]
  }

  /** They are a tree again, with that round as its root. */
  lemma AboveIsTree(blocks: Blocks, children: Children, root: nat, a: nat, kept: Blocks)
    requires IsTree(blocks, children, root) && a in blocks && kept == Above(blocks, children, root, a)
    ensures IsTree(kept, map r | r in children && r in kept :: children[r], a)
  {
    var lists := map r | r in children && r in kept :: children[r];
    forall r | r in kept ensures NodeOk(kept, lists, a, r) {
      assert NodeOk(blocks, children, root, r);
    }
    forall p | p in lists ensures ListOk(kept, lists, a, p) {
      assert ListOk(blocks, children, root, p);
      forall c | c in lists[p] ensures c in kept && c != a && kept[c].parent == p {
        ChildDescends(blocks, children, root, p, c, a);
        assert NodeOk(blocks, children, root, c);
        AncestorsAreOlder(blocks, children, root, p, a);
      }
    }
  }

  /** Puts the children of a block on the stack, except the new root. */
  method PushChildren(todo: seq<nat>, cs: seq<nat>, newRoot: nat) returns (todo': seq<nat>, found: bool)
    requires forall i, j :: 0 <= i < j < |todo| ==> todo[i] != todo[j]
    requires (forall i, j :: 0 <= i < j < |cs| ==> cs[i] != cs[j]) && forall c :: c in cs ==> c !in todo
    ensures forall x :: x in todo' <==> x in todo || (x in cs && x != newRoot)
    ensures forall i, j :: 0 <= i < j < |todo'| ==> todo'[i] != todo'[j]
    ensures found <==> newRoot in cs
  {
    todo', found := todo, false;
    for i := 0 to |cs|
      invariant forall x :: x in todo' <==> x in todo || (x in cs[..i] && x != newRoot)
      invariant forall j, k :: 0 <= j < k < |todo'| ==> todo'[j] != todo'[k]
      invariant found <==> newRoot in cs[..i]
    {
      assert cs[..i + 1] == cs[..i] + [cs[i]];
      assert cs[i] !in cs[..i] && cs[i] in cs;
      if cs[i] == newRoot {
        found := true;
      } else {
        todo' := todo' + [cs[i]];
      }
    }
    assert cs[..|cs|] == cs;
  }

  // ----- block_tree.go -----

  class BlockTree {
    var root: nat
    var blocks: Blocks
    var children: Children
    var highQc: QuorumCert
    var commitQc: QuorumCert  // kept with the root block

    ghost predicate Valid()
      reads this
    {
      IsTree(blocks, children, root)
    }

    /** The root is the genesis block, or was committed with the certificate that is kept. */
    ghost predicate RootCommitted(cfg: Config, w: World)
      reads this
    {
      && root in blocks
      && (if root == GENESIS_ROUND then blocks[root].rootHash == GENESIS_ROOT
          else Commits(cfg, w, commitQc, root, true) && blocks[root].rootHash == commitQc.seal.hash)
    }

    /** A tree with one block. */
    constructor (block: Executed, commitQc: QuorumCert)
      ensures Valid() && root == block.round && blocks == map[block.round := block]
      ensures highQc == this.commitQc == commitQc
    {
      this.commitQc := commitQc;
      root := block.round;
      blocks := map[block.round := block];
      children := map[block.round := []];
      highQc := commitQc;
    }

    /** Adds a leaf; refused if the round is taken or the parent is not there. */
    method Add(block: Executed, ghost cfg: Config, ghost w: World) returns (ok: bool)
      requires Valid() && block.parent < block.round
      modifies this
      ensures old(RootCommitted(cfg, w)) ==> RootCommitted(cfg, w)
      ensures Valid() && root == old(root) && highQc == old(highQc) && commitQc == old(commitQc)
      ensures ok <==> block.round !in old(blocks) && block.parent in old(blocks)
      ensures blocks == if ok then old(blocks)[block.round := block] else old(blocks)
    {
      if block.round in blocks || block.parent !in blocks {
        return false;
      }
      LeafAdded(blocks, children, root, block);
      children := children[block.parent := children[block.parent] + [block.round]][block.round := []];
      blocks := blocks[block.round := block];
      ok := true;
    }

    /** Removes a leaf; the root and inner blocks stay, and a block that is not there is no error. */
    method RemoveLeaf(round: nat, ghost cfg: Config, ghost w: World) returns (ok: bool)
      requires Valid()
      modifies this
      ensures old(RootCommitted(cfg, w)) ==> RootCommitted(cfg, w)
      ensures Valid() && root == old(root) && highQc == old(highQc) && commitQc == old(commitQc)
      ensures ok <==>
        round != old(root) &&
        (round in old(blocks) ==> forall r :: r in old(blocks) && r != old(root) ==> old(blocks)[r].parent != round)
      ensures blocks == if ok then old(blocks) - {round} else old(blocks)
    {
      if round == root {
        return false;
      }
      if round !in blocks {
        assert blocks - {round} == blocks;
        return true;
      }
      assert ListOk(blocks, children, root, round) && NodeOk(blocks, children, root, round);
      if |children[round]| > 0 {
        assert children[round][0] in children[round];
        return false;
      }
      var p := blocks[round].parent;
      assert ListOk(blocks, children, root, p);
      var rest := Without(children[p], round);
      LeafRemoved(blocks, children, root, round, rest);
      children := (children - {round})[p := rest];
      blocks := blocks - {round};
      ok := true;
    }

    /** The blocks from a round up to, but not including, the root. */
    method FindPathToRoot(round: nat) returns (path: seq<Executed>)
      requires Valid() && round in blocks
      ensures round == root ==> path == []
      ensures round != root ==> |path| > 0 && path[0] == blocks[round] && path[|path| - 1].parent == root
      ensures forall i :: 0 <= i < |path| - 1 ==> path[i].parent == path[i + 1].round
      ensures forall b :: b in path ==> b.round in blocks && blocks[b.round] == b && b.round != root
    {
      path := [];
      if round == root {
        return;
      }
      var n := round;
      assert NodeOk(blocks, children, root, n);
      while blocks[n].parent != root
        invariant n in blocks && n != root && NodeOk(blocks, children, root, n)
        invariant forall b :: b in path ==> b.round in blocks && blocks[b.round] == b && b.round != root
        invariant forall i :: 0 <= i < |path| - 1 ==> path[i].parent == path[i + 1].round
        invariant if path == [] then n == round else path[0] == blocks[round] && path[|path| - 1].parent == n
        decreases n
      {
        path := path + [blocks[n]];
        n := blocks[n].parent;
        assert NodeOk(blocks, children, root, n);
      }
      path := path + [blocks[n]];
    }

    /** All blocks that do not build on the new root, found by a traversal from the old root; None if the
        new root is not in the tree. */
    method FindBlocksToPrune(newRoot: nat) returns (pruned: Option<seq<nat>>)
      requires Valid()
      ensures pruned.None? <==> newRoot !in blocks
      ensures pruned.Some? ==>
        forall r :: r in pruned.value <==> r in blocks && !Descends(blocks, children, root, r, newRoot)
    {
      hide IsTree, Collecting, Descends, ListOk, NodeOk;
      if newRoot == root {
        RootKeepsAll();
        return Some([]);
      }
      var list, todo, found := [], [root], false;
      ghost var done, left := {}, {root};
      StartCollecting(newRoot);
      while |todo| > 0
        invariant IsCollecting(newRoot, list, todo, found, done, left)
        decreases blocks.Keys - done
      {
        list, todo, found, done, left := CollectOne(newRoot, list, todo, found, done, left);
      }
      AllDone(newRoot, list, todo, found, done, left);
      pruned := if found then Some(list) else None;
    }

    /** The list has the blocks that were visited, the stack those that were found and not yet visited. */
    ghost predicate IsCollecting(newRoot: nat, list: seq<nat>, todo: seq<nat>, found: bool, done: set<nat>,
                                 left: set<nat>)
      reads this
    {
      && IsTree(blocks, children, root) && Collecting(blocks, children, root, newRoot, done, left)
      && (forall x :: x in todo <==> x in left) && (forall i, j :: 0 <= i < j < |todo| ==> todo[i] != todo[j])
      && (forall x :: x in list <==> x in done)
      && (found <==> exists p :: p in done && p in children && newRoot in children[p])
    }

    method CollectOne(newRoot: nat, list: seq<nat>, todo: seq<nat>, found: bool, ghost done: set<nat>,
                      ghost left: set<nat>)
      returns (list': seq<nat>, todo': seq<nat>, found': bool, ghost done': set<nat>, ghost left': set<nat>)
      requires newRoot != root && IsCollecting(newRoot, list, todo, found, done, left) && |todo| > 0
      ensures IsCollecting(newRoot, list', todo', found', done', left')
      ensures done < done' && blocks.Keys - done' < blocks.Keys - done
    {
      hide IsTree, Collecting, Descends, ListOk, NodeOk;
      var n := todo[|todo| - 1];
      var rest := todo[..|todo| - 1];
      assert n in todo && n !in rest;
      NextBlock(newRoot, done, left, n);
      var hit;
      todo', hit := PushChildren(rest, children[n], newRoot);
      Collected(blocks, children, root, newRoot, done, left, n);
      found', list' := found || hit, list + [n];
      done', left' := done + {n}, left - {n} + set c | c in children[n] && c != newRoot;
      assert n in blocks.Keys - done && n !in blocks.Keys - done';
    }

    lemma AllDone(newRoot: nat, list: seq<nat>, todo: seq<nat>, found: bool, done: set<nat>, left: set<nat>)
      requires newRoot != root && IsCollecting(newRoot, list, todo, found, done, left) && todo == []
      ensures found <==> newRoot in blocks
      ensures forall r :: r in list <==> r in blocks && !Descends(blocks, children, root, r, newRoot)
    {
      hide IsTree, Collecting, Descends, ListOk, NodeOk;
      assert forall x :: x !in left;
      assert left == {};
      Finished(newRoot, done);
    }

    lemma RootKeepsAll()
      requires Valid()
      ensures root in blocks && forall r :: r in blocks ==> Descends(blocks, children, root, r, root)
    {
      forall r | r in blocks ensures Descends(blocks, children, root, r, root) {
        AllDescendFromRoot(blocks, children, root, r);
      }
    }

    lemma Finished(newRoot: nat, done: set<nat>)
      requires IsTree(blocks, children, root) && Collecting(blocks, children, root, newRoot, done, {})
      requires newRoot != root
      ensures newRoot in blocks <==> exists p :: p in done && p in children && newRoot in children[p]
      ensures forall r :: r in done <==> r in blocks && !Descends(blocks, children, root, r, newRoot)
    {
      NewRootFound(blocks, children, root, newRoot, done);
      forall r | r in blocks ensures r in done <==> !Descends(blocks, children, root, r, newRoot) {
        AllCollected(blocks, children, root, newRoot, done, r);
      }
      CollectedAreBlocks(newRoot, done);
    }

    lemma StartCollecting(newRoot: nat)
      requires Valid() && newRoot != root
      ensures IsTree(blocks, children, root) && Collecting(blocks, children, root, newRoot, {}, {root})
    {
    }

    lemma NextBlock(newRoot: nat, done: set<nat>, left: set<nat>, n: nat)
      requires IsTree(blocks, children, root) && Collecting(blocks, children, root, newRoot, done, left) && n in left
      ensures n in blocks && n in children && n !in done
      ensures forall i, j :: 0 <= i < j < |children[n]| ==> children[n][i] != children[n][j]
      ensures forall c :: c in children[n] ==> c !in left
    {
      assert n in done + left;
      assert ListOk(blocks, children, root, n);
      forall c | c in children[n] ensures c !in left {
        assert c in left ==> c in done + left;
      }
    }

    lemma CollectedAreBlocks(newRoot: nat, done: set<nat>)
      requires IsTree(blocks, children, root) && Collecting(blocks, children, root, newRoot, done, {})
      ensures forall x :: x in done ==> x in blocks
    {
    }

    /** Commits the parent of a certified round: the tree keeps what builds on it.  When its state root is
        not the certified one the commit fails, but only after the pruning: the old root is then gone from
        the tree, unless it was itself the block to commit. */
    method Commit(qc: QuorumCert) returns (r: CommitResult)
      requires Valid()
      modifies this
      ensures highQc == old(highQc)
      ensures r.NotFound? <==> qc.info.parent !in old(blocks)
      ensures r.NotFound? ==> Valid() && blocks == old(blocks) && root == old(root)
      ensures r.WrongHash? <==> qc.info.parent in old(blocks) && old(blocks)[qc.info.parent].rootHash != qc.seal.hash
      ensures !r.NotFound? ==> blocks == old(Above(blocks, children, root, qc.info.parent))
      ensures r.WrongHash? ==> root == old(root) && (Valid() <==> qc.info.parent == root)
      ensures r.Committed? ==> Valid() && root == qc.info.parent && blocks[root].rootHash == qc.seal.hash
      ensures commitQc == if r.Committed? then qc else old(commitQc)
    {
      var round := qc.info.parent;
      if round !in blocks {
        return NotFound;
      }
      var pruned := FindBlocksToPrune(round);
      ghost var kept := Above(blocks, children, root, round);
      AboveIsTree(blocks, children, root, round, kept);
      OldRootGone(round);
      blocks, children := Keep(blocks, pruned.value), Keep(children, pruned.value);
      assert blocks == kept;
      assert children == map x | x in old(children) && x in kept :: old(children)[x];
      if blocks[round].rootHash != qc.seal.hash {
        return WrongHash;
      }
      root, commitQc := round, qc;
      return Committed;
    }

    lemma OldRootGone(round: nat)
      requires Valid() && round in blocks
      ensures Descends(blocks, children, root, root, round) <==> round == root
      ensures Descends(blocks, children, root, round, round)
    {
    }

    /** A new certificate that commits its parent. */
    ghost predicate IsCommit(qc: QuorumCert)
      reads this
    {
      qc.info.round > highQc.info.round && qc.seal.commitRound != 0 && qc.info.round != GENESIS_ROUND
    }

    /** The certificate is no news, or the tree has its block with the certified state root, and the block that it
        commits with the committed one. */
    ghost predicate Accepts(qc: QuorumCert)
      reads this
    {
      || qc.info.round <= highQc.info.round
      || (&& qc.info.round in blocks && blocks[qc.info.round].rootHash == qc.info.root
          && (IsCommit(qc) ==> qc.info.parent in blocks && blocks[qc.info.parent].rootHash == qc.seal.hash))
    }

    /** A certificate for a block of the tree becomes the high QC, if it is newer and the state roots agree;
        if it commits a round, that round is committed. */
    method ProcessQc(qc: QuorumCert, ghost cfg: Config, ghost w: World) returns (ok: bool)
      requires Valid()
      modifies this
      ensures ok <==> old(Accepts(qc))
      ensures ok && QcHeld(cfg, w, qc) && Inv(cfg, w) && EveryQuorumMeets(cfg, true) && old(RootCommitted(cfg, w)) ==>
        RootCommitted(cfg, w)
      ensures highQc.info.round >= old(highQc.info.round)
      ensures qc.info.round <= old(highQc.info.round) ==>
        ok && blocks == old(blocks) && root == old(root) && highQc == old(highQc)
      ensures ok ==> Valid() && highQc.info.round >= qc.info.round
      ensures ok && old(IsCommit(qc)) ==>
        root == qc.info.parent && root in blocks && blocks[root].rootHash == qc.seal.hash
      ensures qc.seal.commitRound == 0 || qc.info.round == GENESIS_ROUND ==> blocks == old(blocks) && root == old(root)
    {
      hide IsTree, QcHeld, Inv, EveryQuorumMeets;
      if highQc.info.round >= qc.info.round {
        return true;
      }
      if qc.info.round !in blocks || blocks[qc.info.round].rootHash != qc.info.root {
        return false;
      }
      highQc := qc;
      if qc.seal.commitRound == 0 || qc.info.round == GENESIS_ROUND {
        return true;
      }
      var r := Commit(qc);
      ok := r.Committed?;
      if QcHeld(cfg, w, qc) && Inv(cfg, w) && EveryQuorumMeets(cfg, true) {
        LaterRound(cfg, w, qc);
        CommitIsParent(cfg, w, qc, qc.seal.commitRound, true);
      }
    }
  }

  datatype CommitResult = Committed | NotFound | WrongHash

  function Keep<T>(m: map<nat, T>, pruned: seq<nat>): (r: map<nat, T>)
  {
    map x | x in m && x !in pruned :: m[x]
  }

  /** Example: with the blocks of rounds 5 and 6 and round 5 the root, a commit of round 6 that fails on its
      state root leaves only round 6 in the tree, and round 5 its root. */
  lemma FailedCommitBreaksTree(five: Executed, six: Executed)
    requires five.round == 5 && six.round == 6 && six.parent == 5
    ensures var blocks, children := map[5 := five, 6 := six], map[5 := [6], 6 := []];
      IsTree(blocks, children, 5) && 5 !in Above(blocks, children, 5, 6) && 6 in Above(blocks, children, 5, 6)
  {
    var blocks, children := map[5 := five, 6 := six], map[5 := [6], 6 := []];
    assert NodeOk(blocks, children, 5, 5) && NodeOk(blocks, children, 5, 6);
    assert ListOk(blocks, children, 5, 5) && ListOk(blocks, children, 5, 6);
  }

  lemma LaterRound(cfg: Config, w: World, qc: QuorumCert)
    requires QcHeld(cfg, w, qc)
    ensures qc.info.round >= GENESIS_ROUND
  {
  }

  lemma RootStaysCommitted(cfg: Config, w: World, w': World, t: BlockTree)
    requires w.votes <= w'.votes && w.timeouts <= w'.timeouts && t.RootCommitted(cfg, w)
    ensures t.RootCommitted(cfg, w')
  {
    CertificatesLast(cfg, w, w');
  }

  /** Validators agree on what they committed, at any two points of a run: on the state root, if their
      trees have the same root; and otherwise the later root was certified on top of the earlier one,
      whose certified state root is the one in the other tree. */
  lemma ValidatorsAgree(cfg: Config, run: seq<World>, i: nat, a: BlockTree, j: nat, b: BlockTree)
    requires EveryQuorumMeets(cfg, true) && Run(cfg, run) && i < |run| && j < |run|
    requires a.RootCommitted(cfg, run[i]) && b.RootCommitted(cfg, run[j]) && a.root <= b.root
    ensures a.root == b.root ==> a.blocks[a.root].rootHash == b.blocks[b.root].rootHash
    ensures a.root < b.root && a.root > GENESIS_ROUND ==>
      exists chain :: Builds(cfg, run[Max(i, j)], chain, a.commitQc, a.root, b.commitQc)
  {
    hide Run, QcHeld;
    if a.root != GENESIS_ROUND && b.root != GENESIS_ROUND {
      Agreement(cfg, run, i, a.commitQc, a.root, j, b.commitQc, b.root, true);
    }
  }
}
