/** The buffer of executed transactions, and what it promises: a transaction is in at most one block. */
module TxBuffer {

  /** A transaction by its hash, which covers its timeout. */
  datatype TxId = TxId(hash: int, timeout: nat)

  datatype Buffer = Buffer(executed: map<TxId, nat>, pending: map<TxId, nat>)

  const EMPTY := Buffer(map[], map[])

  predicate Has(b: Buffer, tx: TxId) { tx in b.executed || tx in b.pending }

  function Unexpired(m: map<TxId, nat>, round: nat): (r: map<TxId, nat>)
  {
    map tx | tx in m && m[tx] > round :: m[tx]
  }

  function Added(b: Buffer, tx: TxId): (b': Buffer) { b.(pending := b.pending[tx := tx.timeout]) }

  function Cleared(b: Buffer, round: nat): (b': Buffer)
  {
    Buffer(Unexpired(b.executed, round), Unexpired(b.pending, round))
  }

  function Committed(b: Buffer): (b': Buffer) { Buffer(b.executed + b.pending, map[]) }

  function Reverted(b: Buffer): (b': Buffer) { b.(pending := map[]) }

  // ----- executed_transactions_buffer.go -----

  class ETBuffer {
    var executedTransactions: map<TxId, nat>
    var pendingTransactions: map<TxId, nat>

    function Contents(): (b: Buffer)
      reads this
    {
      Buffer(executedTransactions, pendingTransactions)
    }

    constructor (executed: map<TxId, nat>)
      ensures Contents() == Buffer(executed, map[])
    {
      executedTransactions, pendingTransactions := executed, map[];
    }

    method Add(tx: TxId)
      modifies this
      ensures Contents() == Added(old(Contents()), tx)
    {
      pendingTransactions := pendingTransactions[tx := tx.timeout];
    }

    method Get(tx: TxId) returns (found: bool)
      ensures found == Has(Contents(), tx)
    {
      found := tx in executedTransactions || tx in pendingTransactions;
    }

    /** Merges the pending entries, in whatever order the map yields them. */
    method Commit()
      modifies this
      ensures Contents() == Committed(old(Contents()))
    {
      var left := pendingTransactions.Keys;
      while left != {}
        invariant left <= pendingTransactions.Keys && pendingTransactions == old(pendingTransactions)
        invariant forall tx :: tx in executedTransactions <==>
          tx in old(executedTransactions) || (tx in pendingTransactions && tx !in left)
        invariant forall tx :: tx in executedTransactions ==>
          executedTransactions[tx] ==
            if tx in pendingTransactions && tx !in left then pendingTransactions[tx]
            else old(executedTransactions)[tx]
      {
        var tx :| tx in left;
        executedTransactions := executedTransactions[tx := pendingTransactions[tx]];
        left := left - {tx};
      }
      pendingTransactions := map[];
    }

    method Revert()
      modifies this
      ensures Contents() == Reverted(old(Contents()))
    {
      pendingTransactions := map[];
    }

    /** Deletes expired entries one by one from both maps. */
    method ClearExpired(round: nat)
      modifies this
      ensures Contents() == Cleared(old(Contents()), round)
    {
      executedTransactions := Expire(executedTransactions, round);
      pendingTransactions := Expire(pendingTransactions, round);
    }
  }

  method Expire(m: map<TxId, nat>, round: nat) returns (r: map<TxId, nat>)
    ensures r == Unexpired(m, round)
  {
    r := m;
    var left := m.Keys;
    while left != {}
      invariant left <= m.Keys
      invariant forall tx :: tx in r <==> tx in m && (tx in left || m[tx] > round)
      invariant forall tx :: tx in r ==> r[tx] == m[tx]
    {
      var tx :| tx in left;
      if m[tx] <= round {
        r := r - {tx};
      }
      left := left - {tx};
    }
  }

  // ----- blocks -----

  /** One block: the round it is made in, the transactions that are tried in order, and whether it is
      committed or reverted. */
  datatype Block = Block(round: nat, txs: seq<TxId>, committed: bool)

  /** A transaction is executed unless it is expired or already in the buffer. */
  predicate Accepts(b: Buffer, round: nat, tx: TxId) { round <= tx.timeout && !Has(b, tx) }

  function Execute(b: Buffer, round: nat, txs: seq<TxId>): (b': Buffer)
  {
    if txs == [] then b
    else
      var n := |txs| - 1;
      var before := Execute(b, round, txs[..n]);
      if Accepts(before, round, txs[n]) then Added(before, txs[n]) else before
  }

  function Process(b: Buffer, block: Block): (b': Buffer)
  {
    var done := Cleared(Execute(b, block.round, block.txs), block.round);
    if block.committed then Committed(done) else Reverted(done)
  }

  function After(b: Buffer, blocks: seq<Block>): (b': Buffer)
  {
    if blocks == [] then b else Process(After(b, blocks[..|blocks| - 1]), blocks[|blocks| - 1])
  }

  /** The i-th transaction of the k-th block is executed. */
  predicate Executed(blocks: seq<Block>, k: nat, i: nat)
    requires k < |blocks| && i < |blocks[k].txs|
  {
    Accepts(Execute(After(EMPTY, blocks[..k]), blocks[k].round, blocks[k].txs[..i]), blocks[k].round, blocks[k].txs[i])
  }

  /** The transaction is in the k-th block. */
  ghost predicate InBlock(blocks: seq<Block>, k: nat, tx: TxId)
    requires k < |blocks|
  {
    exists i :: 0 <= i < |blocks[k].txs| && blocks[k].txs[i] == tx && Executed(blocks, k, i)
  }

  /** No transaction is in two committed blocks. */
  ghost predicate ExactlyOnce(blocks: seq<Block>)
  {
    forall i, j, tx :: 0 <= i < j < |blocks| && blocks[i].committed && blocks[j].committed ==>
      !(InBlock(blocks, i, tx) && InBlock(blocks, j, tx))
  }

  /** After a block has ended in some round, reverted or not, no block is committed for that round or an
      earlier one, as soon as anything was committed up to that round. */
  ghost predicate RoundsAdvance(blocks: seq<Block>)
  {
    forall i, e, j :: 0 <= i <= e < j < |blocks| && blocks[i].committed && blocks[j].committed ==>
      blocks[i].round > blocks[e].round || blocks[e].round < blocks[j].round
  }

  // ----- exactly once -----

  lemma {:induction false} ExecuteKeeps(b: Buffer, round: nat, txs: seq<TxId>)
    ensures var e := Execute(b, round, txs);
      && e.executed == b.executed
      && (forall tx :: tx in b.pending ==> tx in e.pending && e.pending[tx] == b.pending[tx])
      && (forall tx :: tx in e.pending && tx !in b.pending ==> e.pending[tx] == tx.timeout && round <= tx.timeout)
  {
    if txs != [] {
      ExecuteKeeps(b, round, txs[..|txs| - 1]);
    }
  }

  lemma {:induction false} ExecutedIsPending(b: Buffer, round: nat, txs: seq<TxId>, i: nat)
    requires i < |txs| && Accepts(Execute(b, round, txs[..i]), round, txs[i])
    ensures txs[i] in Execute(b, round, txs).pending
    decreases |txs|
  {
    var n := |txs| - 1;
    if i < n {
      assert txs[..n][..i] == txs[..i];
      ExecutedIsPending(b, round, txs[..n], i);
    }
  }

  /** Between blocks nothing is pending and every entry has its timeout. */
  lemma {:induction false} BufferOk(blocks: seq<Block>)
    ensures After(EMPTY, blocks).pending == map[]
    ensures forall tx :: tx in After(EMPTY, blocks).executed ==> After(EMPTY, blocks).executed[tx] == tx.timeout
  {
    if blocks != [] {
      var last := blocks[|blocks| - 1];
      BufferOk(blocks[..|blocks| - 1]);
      ExecuteKeeps(After(EMPTY, blocks[..|blocks| - 1]), last.round, last.txs);
    }
  }

  /** An entry survives a block unless the block ends in a round at or after its timeout. */
  lemma EntryStays(b: Buffer, block: Block, tx: TxId)
    requires tx in b.executed && b.executed[tx] == tx.timeout > block.round
    ensures tx in Process(b, block).executed
  {
    ExecuteKeeps(b, block.round, block.txs);
  }

  /** A transaction of a committed block enters the buffer, unless it expires with the block. */
  lemma EntryMade(b: Buffer, block: Block, n: nat)
    requires n < |block.txs| && Accepts(Execute(b, block.round, block.txs[..n]), block.round, block.txs[n])
    requires b.pending == map[]
    requires block.committed && block.txs[n].timeout > block.round
    ensures block.txs[n] in Process(b, block).executed
  {
    ExecuteKeeps(b, block.round, block.txs);
    ExecutedIsPending(b, block.round, block.txs, n);
  }

  /** A transaction of a committed block stays in the buffer until a block ends in a round at or after
      its timeout. */
  lemma {:induction false} Remembered(blocks: seq<Block>, i: nat, tx: TxId, k: nat)
    requires i < k <= |blocks| && blocks[i].committed && InBlock(blocks, i, tx)
    ensures blocks[i].round <= tx.timeout
    ensures tx in After(EMPTY, blocks[..k]).executed || exists e :: i <= e < k && tx.timeout <= blocks[e].round
    decreases k
  {
    hide Process, Execute, Accepts;
    var b := blocks[k - 1];
    var before := After(EMPTY, blocks[..k - 1]);
    assert blocks[..k][..k - 1] == blocks[..k - 1];
    BufferOk(blocks[..k - 1]);
    InTime(blocks, i, tx);
    if tx.timeout <= b.round {
      assert i <= k - 1 < k;
    } else if k == i + 1 {
      var n :| 0 <= n < |b.txs| && b.txs[n] == tx && Executed(blocks, i, n);
      EntryMade(before, b, n);
    } else {
      Remembered(blocks, i, tx, k - 1);
      if tx in before.executed {
        EntryStays(before, b, tx);
      }
    }
  }

  lemma InTime(blocks: seq<Block>, k: nat, tx: TxId)
    requires k < |blocks| && InBlock(blocks, k, tx)
    ensures blocks[k].round <= tx.timeout
  {
  }

  /** With rounds that advance, every transaction is executed at most once, although the buffer forgets. */
  lemma AtMostOnce(blocks: seq<Block>)
    requires RoundsAdvance(blocks)
    ensures ExactlyOnce(blocks)
  {
    forall i, j, tx | 0 <= i < j < |blocks| && blocks[i].committed && blocks[j].committed && InBlock(blocks, i, tx)
      ensures !InBlock(blocks, j, tx)
    {
      Remembered(blocks, i, tx, j);
      if InBlock(blocks, j, tx) {
        var n :| 0 <= n < |blocks[j].txs| && blocks[j].txs[n] == tx && Executed(blocks, j, n);
        ExecuteKeeps(After(EMPTY, blocks[..j]), blocks[j].round, blocks[j].txs[..n]);
      }
    }
  }

  // ----- and only then -----

  /** The same rounds and outcomes with other transactions. */
  ghost predicate SameSchedule(a: seq<Block>, b: seq<Block>)
  {
    |a| == |b| && forall i :: 0 <= i < |a| ==> a[i].round == b[i].round && a[i].committed == b[i].committed
  }

  /** One transaction, tried in the blocks i and j only. */
  function Replay(blocks: seq<Block>, tx: TxId, i: nat, j: nat): (r: seq<Block>)
    ensures |r| == |blocks|
  {
    seq(|blocks|, k requires 0 <= k < |blocks| => blocks[k].(txs := if k == i || k == j then [tx] else []))
  }

  lemma {:induction false} ReplayBuffer(blocks: seq<Block>, tx: TxId, i: nat, j: nat, k: nat)
    requires i < j <= |blocks| && k <= j
    ensures var b := After(EMPTY, Replay(blocks, tx, i, j)[..k]);
      && b.pending == map[] && (forall x :: x in b.executed ==> x == tx && b.executed[x] == tx.timeout)
      && (k <= i || (exists e :: i <= e < k && tx.timeout <= blocks[e].round) ==> tx !in b.executed)
  {
    var r := Replay(blocks, tx, i, j);
    if k > 0 {
      assert r[..k][..k - 1] == r[..k - 1];
      ReplayBuffer(blocks, tx, i, j, k - 1);
      BufferOk(r[..k - 1]);
      ExecuteKeeps(After(EMPTY, r[..k - 1]), r[k - 1].round, r[k - 1].txs);
    }
  }

  /** If a committed round could come too late, some transaction would be executed twice. */
  lemma OtherwiseTwice(blocks: seq<Block>) returns (replay: seq<Block>)
    requires !RoundsAdvance(blocks)
    ensures SameSchedule(blocks, replay) && !ExactlyOnce(replay)
  {
    var i, e, j :| 0 <= i <= e < j < |blocks| && blocks[i].committed && blocks[j].committed &&
      blocks[i].round <= blocks[e].round &&
                   blocks[e].round >= blocks[j].round;
    var tx := TxId(0, blocks[e].round);
    replay := Replay(blocks, tx, i, j);
    ReplayBuffer(blocks, tx, i, j, i);
    ReplayBuffer(blocks, tx, i, j, j);
    assert Executed(replay, i, 0) && replay[i].txs[0] == tx;
    assert Executed(replay, j, 0) && replay[j].txs[0] == tx;
    assert InBlock(replay, i, tx) && InBlock(replay, j, tx);
  }

  /** Example: round 3 is ended and reverted, then made again; a transaction of round 2 that is valid up
      to round 3 gets into both blocks. */
  lemma RevertedRoundReused()
    ensures var tx := TxId(7, 3);
      var blocks := [Block(2, [tx], true), Block(3, [], false), Block(3, [tx], true)];
      !RoundsAdvance(blocks) && InBlock(blocks, 0, tx) && InBlock(blocks, 2, tx)
  {
    var tx := TxId(7, 3);
    var blocks := [Block(2, [tx], true), Block(3, [], false), Block(3, [tx], true)];
    assert Replay(blocks, tx, 0, 2) == blocks;
    ReplayBuffer(blocks, tx, 0, 2, 0);
    ReplayBuffer(blocks, tx, 0, 2, 2);
    assert blocks[1].round >= tx.timeout;
    assert Executed(blocks, 0, 0) && Executed(blocks, 2, 0);
  }
}
