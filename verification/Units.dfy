/** Transactions, units and hashes shared by the state tree and the transaction systems.

    Hashes are terms of a free algebra, so two digests are equal exactly when the hashed
    values are: the collision-free reading of SHA-256.  Byte strings that the code only
    compares for equality (predicates, proofs) are integers. */
module Units {

  datatype Option<+T> = None | Some(value: T)

  type UnitId = int
  type Predicate = int

  const EMPTY_PREDICATE: Predicate := 0

  const MAX_UINT64: nat := 0xFFFF_FFFF_FFFF_FFFF
  const TWO64: nat := 0x1_0000_0000_0000_0000

  /** Addition and subtraction of 64-bit unsigned integers wrap around. */
  function Add64(a: nat, b: nat): (r: nat)
    ensures r < TWO64
  {
    (a + b) % TWO64
  }

  function Sub64(a: nat, b: nat): (r: nat)
    ensures r < TWO64
  {
    (a - b) % TWO64
  }

  /** Within 64 bits nothing wraps. */
  lemma NoWrap(a: nat, b: nat)
    ensures a + b < TWO64 ==> Add64(a, b) == a + b
    ensures b <= a < TWO64 ==> Sub64(a, b) == a - b
  {
  }

  lemma SubsetSize<T>(a: set<T>, b: set<T>)
    requires a <= b
    ensures |a| <= |b|
  {
    assert b == a + (b - a);
  }

  // ----- transaction orders -----

  /** A state lock: the transaction is kept on hold until one of the predicates is satisfied. */
  datatype StateLock = StateLock(execution: Predicate, rollback: Predicate)

  datatype UnlockKind = ToRollback | ToExecute

  datatype StateUnlock = StateUnlock(kind: UnlockKind, proof: int)

  datatype Target = Target(amount: nat, owner: Predicate)

  datatype Attributes =
    | Transfer(newOwner: Predicate, value: nat, counter: nat)
    | Split(targets: seq<Target>, counter: nat)
    | TransDC(dcTarget: UnitId, dcTargetCounter: nat, value: nat, counter: nat)
    | SwapDC(dust: seq<Tx>)
    | Nop(nopCounter: Option<nat>, hasOwnerProof: bool)
    | MintFT(typeId: UnitId, value: nat, owner: Predicate)
    | TransferFT(typeId: UnitId, newOwner: Predicate, value: nat, counter: nat)
    | SplitFT(typeId: UnitId, newOwner: Predicate, value: nat, counter: nat)
    | BurnFT(typeId: UnitId, ftTarget: UnitId, ftTargetCounter: nat, value: nat, counter: nat)
    | JoinFT(burns: seq<Tx>)

  datatype Tx = Tx(
    unitId: UnitId,
    attrs: Attributes,
    stateLock: Option<StateLock>,
    stateUnlock: Option<StateUnlock>,
    maxFee: nat,
    timeout: nat,
    fcr: Option<UnitId>,
    nonce: int)

  // ----- unit data -----

  datatype UnitData =
    | Bill(value: nat, counter: nat, owner: Predicate)
    | Fcr(balance: nat, counter: nat, minLifetime: nat, owner: Predicate)
    | Token(typeId: UnitId, value: nat, counter: nat, owner: Predicate)

  /** The value a unit contributes to the summary of the tree: bills count, other units do not. */
  function SummaryInput(d: Option<UnitData>): (v: nat)
  {
    match d
    case Some(Bill(value, _, _)) => value
    case _ => 0
  }

  // ----- hashes -----

  datatype UnitState = UnitState(data: Option<UnitData>, deletionRound: nat, lock: Option<Tx>)

  datatype Digest =
    | NoHash
    | TxRecord(n: int)
    | LedgerHead(prev: Digest, txr: Digest)
    | LogLeaf(head: Digest, state: UnitState)
    | LogPair(left: Digest, right: Digest)
    | NodeHash(key: UnitId, logs: Digest, value: nat, lh: Digest, lv: nat, rh: Digest, rv: nat)

  // ----- units of the state tree -----

  datatype Log = Log(txr: Digest, head: Digest, data: Option<UnitData>, deletionRound: nat, lock: Option<Tx>)

  /** A unit: its data, the log of the current round, and the cached summary of the subtree
      below the node that carries it. */
  datatype Unit = Unit(
    logs: seq<Log>,
    logsHash: Digest,
    data: Option<UnitData>,
    deletionRound: nat,
    lock: Option<Tx>,
    sumValue: nat,
    sumHash: Digest,
    calculated: bool)

  /** A copy of a unit keeps the unit itself and drops the cached hashes. */
  function Clone(u: Unit): (c: Unit)
  {
    u.(logsHash := NoHash, sumHash := NoHash, calculated := false)
  }

  /** The unit without any cache: what a reader of the state sees. */
  function Core(u: Unit): (c: Unit)
  {
    u.(logsHash := NoHash, sumHash := NoHash, sumValue := 0, calculated := false)
  }

  /** The unit state that goes into hashes: the last log entry when there is one, otherwise the
      fields of the unit. */
  function Effective(u: Unit): (s: UnitState)
  {
    if |u.logs| == 0 then UnitState(u.data, u.deletionRound, u.lock)
    else
      var l := u.logs[|u.logs| - 1];
      UnitState(l.data, l.deletionRound, l.lock)
  }

  /** All that hashing reads of a unit. */
  function Hashable(u: Unit): (h: (UnitState, seq<Log>, Digest))
  {
    (Effective(u), u.logs, LogHash(u))
  }

  function LeafHash(l: Log): (d: Digest)
  {
    LogLeaf(l.head, UnitState(l.data, l.deletionRound, l.lock))
  }

  // ----- hash tree over a unit's log -----

  /** Where a hash tree over n leaves is cut: the largest power of two below n. */
  function Pivot(n: nat): (p: nat)
    requires n >= 2
    ensures 1 <= p < n
  {
    PivotFrom(n, 1)
  }

  function PivotFrom(n: nat, p: nat): (r: nat)
    requires 1 <= p < n
    ensures p <= r < n
    decreases n - p
  {
    if 2 * p < n then PivotFrom(n, 2 * p) else p
  }

  predicate IsPowerOfTwo(p: nat)
  {
    p == 1 || (p > 1 && p % 2 == 0 && IsPowerOfTwo(p / 2))
  }

  /** The pivot is the power of two that is below n and not below half of it; there is only one. */
  lemma PivotExactly(n: nat)
    requires n >= 2
    ensures IsPowerOfTwo(Pivot(n)) && Pivot(n) < n <= 2 * Pivot(n)
  {
    PivotFromExactly(n, 1);
  }

  lemma {:induction false} PivotFromExactly(n: nat, p: nat)
    requires 1 <= p < n && IsPowerOfTwo(p)
    ensures IsPowerOfTwo(PivotFrom(n, p)) && PivotFrom(n, p) < n <= 2 * PivotFrom(n, p)
    decreases n - p
  {
    if 2 * p < n {
      assert (2 * p) / 2 == p;
      PivotFromExactly(n, 2 * p);
    }
  }

  function LogsRoot(logs: seq<Log>): (d: Digest)
    decreases |logs|
  {
    if |logs| == 0 then NoHash
    else if |logs| == 1 then LeafHash(logs[0])
    else LogPair(LogsRoot(logs[..Pivot(|logs|)]), LogsRoot(logs[Pivot(|logs|)..]))
  }

  // ----- units read from a state file -----

  /** The entry that stands for the log entries which a state file leaves out. */
  const EMPTY_LOG := Log(NoHash, NoHash, None, 0, None)

  /** A unit whose log had several entries when it was written, before it is pruned. */
  predicate Unpruned(u: Unit)
  {
    |u.logs| == 2 && u.logs[0] == EMPTY_LOG
  }

  /** The hash of a unit's log.  An unpruned unit has it from the file, as long as it is not copied. */
  function LogHash(u: Unit): (d: Digest)
  {
    if Unpruned(u) && u.logsHash != NoHash then u.logsHash else LogsRoot(u.logs)
  }
}
