/** What the money and token handlers do to a ledger, and how a transaction is processed: locked units
    are released first, then the transaction is validated, then it is executed or put on hold. */
module Transactions {
  import opened Units
  import Store

  type Ledger = Store.Ledger

  /** Identifiers of the units that a transaction creates. */
  type Gen = (Tx, nat) -> UnitId

  /** Whether a transaction satisfies a predicate. */
  type Auth = (Predicate, Tx) -> bool

  const DC_SUPPLY: UnitId := 0
  const DC_PREDICATE: Predicate := -1
  const ALWAYS_FALSE: Predicate := -2

  /** Nobody can act for the dust collector or for a burned token. */
  ghost predicate AuthOk(auth: Auth)
  {
    forall tx :: !auth(DC_PREDICATE, tx) && !auth(ALWAYS_FALSE, tx)
  }

  function SumOf(ts: seq<Target>): (s: nat)
  {
    if ts == [] then 0 else SumOf(ts[..|ts| - 1]) + ts[|ts| - 1].amount
  }

  // ----- target units -----

  function Created(gen: Gen, tx: Tx): (ids: seq<UnitId>)
  {
    match tx.attrs
    case Split(ts, _) => seq(|ts|, i requires 0 <= i < |ts| => gen(tx, i))
    case SplitFT(_, _, _, _) => [gen(tx, 0)]
    case _ => []
  }

  /** The units a transaction locks or works on. */
  function Targets(gen: Gen, tx: Tx): (ids: seq<UnitId>)
  {
    [tx.unitId] + Created(gen, tx)
  }

  ghost function TargetSet(gen: Gen, tx: Tx): (ids: set<UnitId>)
  {
    set id | id in Targets(gen, tx)
  }

  // ----- changes of unit data; None is a refusal -----

  function Transferred(d: Option<UnitData>, owner: Predicate): (r: Option<Option<UnitData>>)
  {
    match d case Some(Bill(v, c, _)) => Some(Some(Bill(v, c + 1, owner))) case _ => None
  }

  function SplitOff(d: Option<UnitData>, sum: nat): (r: Option<Option<UnitData>>)
  {
    match d case Some(Bill(v, c, o)) => Some(Some(Bill(Sub64(v, sum), c + 1, o))) case _ => None
  }

  function Collected(d: Option<UnitData>): (r: Option<Option<UnitData>>)
  {
    match d case Some(Bill(_, c, _)) => Some(Some(Bill(0, c + 1, DC_PREDICATE))) case _ => None
  }

  function Supplied(d: Option<UnitData>, v: nat): (r: Option<Option<UnitData>>)
  {
    match d case Some(Bill(x, c, o)) => Some(Some(Bill(Add64(x, v), c, o))) case _ => None
  }

  function Drawn(d: Option<UnitData>, v: nat): (r: Option<Option<UnitData>>)
  {
    match d case Some(Bill(x, c, o)) => Some(Some(Bill(Sub64(x, v), c, o))) case _ => None
  }

  function Swapped(d: Option<UnitData>, v: nat): (r: Option<Option<UnitData>>)
  {
    match d case Some(Bill(x, c, o)) => Some(Some(Bill(Add64(x, v), c + 1, o))) case _ => None
  }

  function Counted(d: Option<UnitData>): (r: Option<Option<UnitData>>)
  {
    match d
    case None => Some(None)
    case Some(Bill(v, c, o)) => Some(Some(Bill(v, c + 1, o)))
    case Some(Fcr(b, c, l, o)) => Some(Some(Fcr(b, c + 1, l, o)))
    case Some(Token(t, v, c, o)) => Some(Some(Token(t, v, c + 1, o)))
  }

  function TokenTransferred(d: Option<UnitData>, owner: Predicate): (r: Option<Option<UnitData>>)
  {
    match d case Some(Token(t, v, c, _)) => Some(Some(Token(t, v, c + 1, owner))) case _ => None
  }

  function TokenSplitOff(d: Option<UnitData>, v: nat): (r: Option<Option<UnitData>>)
  {
    match d case Some(Token(t, x, c, o)) => Some(Some(Token(t, Sub64(x, v), c + 1, o))) case _ => None
  }

  function Burned(d: Option<UnitData>): (r: Option<Option<UnitData>>)
  {
    match d case Some(Token(t, _, c, _)) => Some(Some(Token(t, 0, c + 1, ALWAYS_FALSE))) case _ => None
  }

  function Joined(d: Option<UnitData>, sum: nat): (r: Option<Option<UnitData>>)
  {
    match d case Some(Token(t, _, c, o)) => Some(Some(Token(t, sum, c + 1, o))) case _ => None
  }

  // ----- execution -----

  /** The new bills of a split. */
  function NewBills(gen: Gen, tx: Tx, ts: seq<Target>): (actions: seq<Store.Action>)
  {
    seq(|ts|, i requires 0 <= i < |ts| => Store.AddOrPromoteUnit(gen(tx, i), Bill(ts[i].amount, 0, ts[i].owner)))
  }

  function TakeFromBill(id: UnitId, sum: nat): (a: Store.Action)
  {
    Store.UpdateUnitData(id, d => SplitOff(d, sum))
  }

  /** The new token of a split and the change of its source. */
  function TokenSplit(gen: Gen, tx: Tx, typeId: UnitId, owner: Predicate, v: nat): (actions: seq<Store.Action>)
  {
    [Store.AddOrPromoteUnit(gen(tx, 0), Token(typeId, v, 0, owner)),
     Store.UpdateUnitData(tx.unitId, d => TokenSplitOff(d, v))]
  }

  /** The state actions of a transaction; `amount` was found by its validation.  None when the handler
      gives up before it touches the state. */
  function Actions(gen: Gen, m: Ledger, tx: Tx, amount: nat): (actions: Option<seq<Store.Action>>)
  {
    match tx.attrs
    case Transfer(owner, _, _) => Some([Store.UpdateUnitData(tx.unitId, d => Transferred(d, owner))])
    case Split(ts, _) =>
      if SumOf(ts) >= TWO64 then None
      else Some(NewBills(gen, tx, ts) + [TakeFromBill(tx.unitId, SumOf(ts))])
    case TransDC(_, _, v, _) =>
      Some([Store.UpdateUnitData(tx.unitId, Collected), Store.UpdateUnitData(DC_SUPPLY, d => Supplied(d, v))])
    case SwapDC(_) =>
      Some([Store.UpdateUnitData(DC_SUPPLY, d => Drawn(d, amount)),
            Store.UpdateUnitData(tx.unitId, d => Swapped(d, amount))])
    case Nop(_, _) => Some([Store.UpdateUnitData(tx.unitId, Counted)])
    case MintFT(t, v, owner) => Some([Store.AddUnit(tx.unitId, Token(t, v, 0, owner))])
    case TransferFT(_, owner, _, _) => Some([Store.UpdateUnitData(tx.unitId, d => TokenTransferred(d, owner))])
    case SplitFT(_, owner, v, _) =>
      if tx.unitId in m && m[tx.unitId].data.Some? && m[tx.unitId].data.value.Token? then
        Some(TokenSplit(gen, tx, m[tx.unitId].data.value.typeId, owner, v))
      else None
    case BurnFT(_, _, _, _, _) => Some([Store.UpdateUnitData(tx.unitId, Burned)])
    case JoinFT(_) => Some([Store.UpdateUnitData(tx.unitId, d => Joined(d, amount))])
  }

  function Execute(gen: Gen, m: Ledger, tx: Tx, amount: nat): (r: Option<Ledger>)
  {
    match Actions(gen, m, tx, amount)
    case None => None
    case Some(actions) =>
      match Store.ActAll(m, actions)
      case Ok(m') => Some(m')
      case Err(_) => None
  }

  // ----- validation -----

  function BillAt(m: Ledger, id: UnitId): (d: Option<UnitData>)
  {
    if id in m && m[id].data.Some? && m[id].data.value.Bill? then m[id].data else None
  }

  function TokenAt(m: Ledger, id: UnitId): (d: Option<UnitData>)
  {
    if id in m && m[id].data.Some? && m[id].data.value.Token? then m[id].data else None
  }

  predicate ValidTargets(ts: seq<Target>, value: nat)
  {
    ts != [] && (forall i :: 0 <= i < |ts| ==> ts[i].amount > 0 && ts[i].owner != EMPTY_PREDICATE) && SumOf(ts) < value
  }

  /** The records of a swap: made for this target and its present counter, each source at most once. */
  predicate ValidDust(dust: seq<Tx>, target: UnitId, counter: nat)
  {
    && (forall i :: 0 <= i < |dust| ==>
        dust[i].attrs.TransDC? && dust[i].attrs.dcTarget == target && dust[i].attrs.dcTargetCounter == counter)
    && (forall i :: 0 < i < |dust| ==> dust[i - 1].unitId < dust[i].unitId)
  }

  predicate ValidBurns(burns: seq<Tx>, target: UnitId, typeId: UnitId, counter: nat)
  {
    && (forall i :: 0 <= i < |burns| ==> burns[i].attrs.BurnFT? && burns[i].attrs.ftTarget == target &&
                                         burns[i].attrs.typeId == typeId && burns[i].attrs.ftTargetCounter == counter)
    && (forall i :: 0 < i < |burns| ==> burns[i - 1].unitId < burns[i].unitId)
  }

  /** The value a record of collected dust or a burn stands for. */
  function RecordValue(tx: Tx): (v: nat)
  {
    match tx.attrs case TransDC(_, _, v, _) => v case BurnFT(_, _, _, v, _) => v case _ => 0
  }

  function RecordSum(txs: seq<Tx>): (s: nat)
  {
    if txs == [] then 0 else RecordSum(txs[..|txs| - 1]) + RecordValue(txs[|txs| - 1])
  }

  predicate AllSucceeded(succeeded: set<Tx>, txs: seq<Tx>)
  {
    forall i :: 0 <= i < |txs| ==> txs[i] in succeeded
  }

  /** Validation.  A result carries the amount that swaps and joins hand to their execution.  Proofs of
      earlier transactions verify exactly for those that succeeded. */
  function Validate(gen: Gen, auth: Auth, succeeded: set<Tx>, m: Ledger, tx: Tx): (amount: Option<nat>)
  {
    match tx.attrs
    case Transfer(_, v, c) =>
      (match BillAt(m, tx.unitId)
       case Some(Bill(value, counter, owner)) => if counter == c && value == v && auth(owner, tx) then Some(0) else None
       case _ => None)
    case Split(ts, c) =>
      (match BillAt(m, tx.unitId)
       case Some(Bill(value, counter, owner)) =>
         if counter == c && ValidTargets(ts, value) && auth(owner, tx) then Some(0) else None
       case _ => None)
    case TransDC(_, _, v, c) =>
      (match BillAt(m, tx.unitId)
       case Some(Bill(value, counter, owner)) =>
         if tx.stateLock.None? && counter == c && value == v && auth(owner, tx) then Some(0) else None
       case _ => None)
    case SwapDC(dust) =>
      (match BillAt(m, tx.unitId)
       case Some(Bill(_, counter, owner)) =>
         var sum := RecordSum(dust);
         if tx.stateLock.None? && auth(owner, tx) && ValidDust(dust, tx.unitId, counter) && sum < TWO64 &&
            BillAt(m, DC_SUPPLY).Some? && BillAt(m, DC_SUPPLY).value.value >= sum && AllSucceeded(succeeded, dust)
         then Some(sum) else None
       case _ => None)
    case Nop(c, proof) =>
      if tx.unitId !in m then None
      else
        (match m[tx.unitId].data
         case None => if c.None? && !proof then Some(0) else None
         case Some(Bill(_, counter, owner)) => if c == Some(counter) && auth(owner, tx) then Some(0) else None
         case Some(Fcr(_, counter, _, owner)) => if c == Some(counter) && auth(owner, tx) then Some(0) else None
         case Some(Token(_, _, counter, owner)) => if c == Some(counter) && auth(owner, tx) then Some(0) else None)
    case MintFT(typeId, v, _) =>
      if tx.unitId !in m && v > 0 && tx.unitId == gen(tx, 0) && auth(typeId, tx) then Some(0) else None
    case TransferFT(t, _, v, c) =>
      (match TokenAt(m, tx.unitId)
       case Some(Token(typeId, value, counter, owner)) =>
         if value == v && counter == c && typeId == t && auth(owner, tx) then Some(0) else None
       case _ => None)
    case SplitFT(t, _, v, c) =>
      (match TokenAt(m, tx.unitId)
       case Some(Token(typeId, value, counter, owner)) =>
         if 0 < v < value && counter == c && typeId == t && auth(owner, tx) then Some(0) else None
       case _ => None)
    case BurnFT(t, _, _, v, c) =>
      (match TokenAt(m, tx.unitId)
       case Some(Token(typeId, value, counter, owner)) =>
         if tx.stateLock.None? && value == v && counter == c && typeId == t && auth(owner, tx) then Some(0) else None
       case _ => None)
    case JoinFT(burns) =>
      (match TokenAt(m, tx.unitId)
       case Some(Token(typeId, value, counter, owner)) =>
         var sum := value + RecordSum(burns);
         if tx.stateLock.None? && sum < TWO64 && ValidBurns(burns, tx.unitId, typeId, counter) &&
           AllSucceeded(succeeded, burns) && auth(owner, tx)
         then Some(sum) else None
       case _ => None)
  }

  // ----- state locks -----

  function Held(m: Ledger, id: UnitId): (tx: Option<Tx>)
  {
    if id in m then m[id].lock else None
  }

  /** Takes the lock off the given units, where there is one. */
  function Release(m: Ledger, ids: seq<UnitId>): (r: Ledger)
  {
    map id | id in m :: if id in ids then m[id].(lock := None) else m[id]
  }

  /** Rolling back a held transaction: its dummy units go at the start of the next round. */
  function Abandon(m: Ledger, ids: seq<UnitId>, round: nat): (r: Option<Ledger>)
  {
    if exists i :: 0 <= i < |ids| && ids[i] !in m then None
    else Some(map id | id in m :: if id in ids && m[id].data.None? then m[id].(deletionRound := round + 1) else m[id])
  }

  /** Releases the lock on one target: the held transaction is executed or rolled back, and all its
      units are unlocked. */
  function Unlock(gen: Gen, auth: Auth, m: Ledger, tx: Tx, id: UnitId, round: nat): (r: Option<Ledger>)
  {
    match Held(m, id)
    case None => Some(m)
    case Some(h) =>
      if tx.stateUnlock.None? || h.stateLock.None? then None
      else if tx.stateUnlock.value.kind.ToExecute? then
        if !auth(h.stateLock.value.execution, tx) then None
        else (match Execute(gen, m, h, 0) case None => None case Some(m') => Some(Release(m', Targets(gen, h))))
      else
        if !auth(h.stateLock.value.rollback, tx) then None
        else
          (match Abandon(m, Targets(gen, h), round)
           case None => None
           case Some(m') => Some(Release(m', Targets(gen, h))))
  }

  function UnlockAll(gen: Gen, auth: Auth, m: Ledger, tx: Tx, ids: seq<UnitId>, round: nat): (r: Option<Ledger>)
    decreases |ids|
  {
    if ids == [] then Some(m)
    else
      match UnlockAll(gen, auth, m, tx, ids[..|ids| - 1], round)
      case None => None
      case Some(m') => Unlock(gen, auth, m', tx, ids[|ids| - 1], round)
  }

  /** Puts a transaction on hold: its targets are created as dummies where missing, and locked.  Fails
      if one of them is locked. */
  function LockUnit(m: Ledger, tx: Tx, id: UnitId): (r: Option<Ledger>)
  {
    if id !in m then Some(m[id := Store.NewUnit(None).(lock := Some(tx))])
    else if m[id].lock.Some? then None
    else Some(m[id := m[id].(lock := Some(tx))])
  }

  function LockAll(m: Ledger, tx: Tx, ids: seq<UnitId>): (r: Option<Ledger>)
    decreases |ids|
  {
    if ids == [] then Some(m)
    else
      match LockAll(m, tx, ids[..|ids| - 1])
      case None => None
      case Some(m') => LockUnit(m', tx, ids[|ids| - 1])
  }

  /** The whole processing of an ordinary transaction, before fees and logs. */
  function Process(gen: Gen, auth: Auth, succeeded: set<Tx>, m: Ledger, tx: Tx, round: nat): (r: Option<Ledger>)
  {
    match UnlockAll(gen, auth, m, tx, Targets(gen, tx), round)
    case None => None
    case Some(m1) =>
      match Validate(gen, auth, succeeded, m1, tx)
      case None => None
      case Some(amount) =>
        if tx.stateLock.Some? then LockAll(m1, tx, Targets(gen, tx)) else Execute(gen, m1, tx, amount)
  }

  /** Round start: units whose deletion round has come disappear. */
  function DeleteExpired(m: Ledger, round: nat): (r: Ledger)
  {
    map id | id in m && !(0 < m[id].deletionRound <= round) :: m[id]
  }
}
