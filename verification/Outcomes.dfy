/** What a transaction that is accepted has to satisfy, and what it makes of every unit: stated from its
    attributes and the ledger before, for every kind of transaction. */
module Outcomes {
  import opened Units
  import opened Transactions
  import opened Locking
  import opened Effects
  import opened Sums
  import opened Conservation
  import opened LockSafety
  import Store

  // ----- units -----

  function WorthOf(d: UnitData): (v: nat)
  {
    match d case Bill(v, _, _) => v case Fcr(v, _, _, _) => v case Token(_, v, _, _) => v
  }

  /** Nothing but value, counter and owner differs. */
  predicate SameSort(d: UnitData, d': UnitData)
  {
    || (d.Bill? && d'.Bill?)
    || (d.Fcr? && d'.Fcr? && d.minLifetime == d'.minLifetime)
    || (d.Token? && d'.Token? && d.typeId == d'.typeId)
  }

  /** The next version of a unit: its counter is one higher. */
  predicate Becomes(d: Option<UnitData>, d': Option<UnitData>, value: int, owner: Predicate)
  {
    && d.Some? && d'.Some? && SameSort(d.value, d'.value) && d'.value.counter == d.value.counter + 1
    && WorthOf(d'.value) == value && d'.value.owner == owner
  }

  // ----- what is demanded -----

  /** The counter that a transaction names; swaps, joins and mints name none. */
  function NamedCounter(tx: Tx): (c: Option<nat>)
  {
    match tx.attrs
    case Transfer(_, _, c) => Some(c)
    case Split(_, c) => Some(c)
    case TransDC(_, _, _, c) => Some(c)
    case Nop(c, _) => c
    case TransferFT(_, _, _, c) => Some(c)
    case SplitFT(_, _, _, c) => Some(c)
    case BurnFT(_, _, _, _, c) => Some(c)
    case _ => None
  }

  /** It works on a bill, on a token, or on any unit. */
  predicate RightSort(tx: Tx, d: Option<UnitData>)
  {
    match tx.attrs
    case MintFT(_, _, _) => d.None?
    case Nop(_, _) => true
    case TransferFT(_, _, _, _) => d.Some? && d.value.Token?
    case SplitFT(_, _, _, _) => d.Some? && d.value.Token?
    case BurnFT(_, _, _, _, _) => d.Some? && d.value.Token?
    case JoinFT(_) => d.Some? && d.value.Token?
    case _ => d.Some? && d.value.Bill?
  }

  /** What it says about the unit is true: the counter, and where it names them the value and the type. */
  predicate SaysTrue(tx: Tx, d: UnitData)
  {
    && (NamedCounter(tx).Some? ==> NamedCounter(tx).value == d.counter) && (tx.attrs.Nop? ==> NamedCounter(tx).Some?)
    && (tx.attrs.Transfer? || tx.attrs.TransDC? || tx.attrs.TransferFT? || tx.attrs.BurnFT? ==>
        tx.attrs.value == WorthOf(d))
    && (tx.attrs.TransferFT? || tx.attrs.SplitFT? || tx.attrs.BurnFT? ==> d.Token? && tx.attrs.typeId == d.typeId)
  }

  /** It gives away something, but not all there is. */
  predicate GivesPart(tx: Tx, d: UnitData)
  {
    && (tx.attrs.Split? ==>
        && |tx.attrs.targets| > 0 && SumOf(tx.attrs.targets) < WorthOf(d)
        && forall t :: t in tx.attrs.targets ==> t.amount > 0 && t.owner != EMPTY_PREDICATE)
    && (tx.attrs.SplitFT? ==> 0 < tx.attrs.value < WorthOf(d))
  }

  /** The records it redeems: successful transactions, different ones, made for this unit as it is now. */
  predicate RecordsFit(succeeded: set<Tx>, m: Ledger, tx: Tx, d: UnitData)
  {
    match tx.attrs
    case SwapDC(dust) =>
      && (forall r :: r in dust ==>
          r in succeeded && r.attrs.TransDC? && r.attrs.dcTarget == tx.unitId && r.attrs.dcTargetCounter == d.counter)
      && (forall i :: 0 < i < |dust| ==> dust[i - 1].unitId < dust[i].unitId) && RecordSum(dust) < TWO64
      && BillAt(m, DC_SUPPLY).Some? && RecordSum(dust) <= BillAt(m, DC_SUPPLY).value.value
    case JoinFT(burns) =>
      && d.Token?
      && (forall r :: r in burns ==>
          r in succeeded && r.attrs.BurnFT? && r.attrs.ftTarget == tx.unitId &&
          r.attrs.ftTargetCounter == d.counter && r.attrs.typeId == d.typeId)
      && (forall i :: 0 < i < |burns| ==> burns[i - 1].unitId < burns[i].unitId)
      && WorthOf(d) + RecordSum(burns) < TWO64
    case _ => true
  }

  /** Dust, swaps, burns and joins are never put on hold. */
  predicate MayHold(tx: Tx) { tx.stateLock.Some? ==> Lockable(tx) }

  /** All that is demanded of a transaction: the owner of the unit agrees, and what it says is true; a new
      token is made under its own identifier with the consent of its type; on a unit without data only a
      transaction that does nothing, and that names no counter and no owner, is accepted. */
  predicate Acceptable(gen: Gen, auth: Auth, succeeded: set<Tx>, m: Ledger, tx: Tx)
  {
    && MayHold(tx)
    && if tx.attrs.MintFT? then
         tx.unitId !in m && tx.unitId == gen(tx, 0) && tx.attrs.value > 0 && auth(tx.attrs.typeId, tx)
       else
         && tx.unitId in m && RightSort(tx, m[tx.unitId].data)
         && match m[tx.unitId].data
            case None => tx.attrs.Nop? && NamedCounter(tx).None? && !tx.attrs.hasOwnerProof
            case Some(d) =>
              auth(d.owner, tx) && SaysTrue(tx, d) && GivesPart(tx, d) && RecordsFit(succeeded, m, tx, d)
  }

  /** Validation accepts exactly these. */
  lemma ValidatesExactly(gen: Gen, auth: Auth, succeeded: set<Tx>, m: Ledger, tx: Tx)
    ensures Validate(gen, auth, succeeded, m, tx).Some? <==> Acceptable(gen, auth, succeeded, m, tx)
  {
    match tx.attrs
    case Split(ts, _) => assert forall i :: 0 <= i < |ts| ==> ts[i] in ts;
    case SwapDC(dust) => assert forall i :: 0 <= i < |dust| ==> dust[i] in dust;
    case JoinFT(burns) => assert forall i :: 0 <= i < |burns| ==> burns[i] in burns;
    case _ =>
  }

  // ----- what comes of it -----

  /** What it makes of its own unit. */
  predicate OwnOutcome(tx: Tx, d: Option<UnitData>, d': Option<UnitData>)
  {
    && RightSort(tx, d)
    && match tx.attrs
       case MintFT(t, v, owner) => d' == Some(Token(t, v, 0, owner))
       case Nop(_, _) => if d.None? then d'.None? else Becomes(d, d', WorthOf(d.value), d.value.owner)
       case Transfer(owner, _, _) => Becomes(d, d', WorthOf(d.value), owner)
       case TransferFT(_, owner, _, _) => Becomes(d, d', WorthOf(d.value), owner)
       case Split(ts, _) => Becomes(d, d', WorthOf(d.value) - SumOf(ts), d.value.owner)
       case SplitFT(_, _, v, _) => Becomes(d, d', WorthOf(d.value) - v, d.value.owner)
       case TransDC(_, _, _, _) => Becomes(d, d', 0, DC_PREDICATE)
       case BurnFT(_, _, _, _, _) => Becomes(d, d', 0, ALWAYS_FALSE)
       case SwapDC(dust) => Becomes(d, d', WorthOf(d.value) + RecordSum(dust), d.value.owner)
       case JoinFT(burns) => Becomes(d, d', WorthOf(d.value) + RecordSum(burns), d.value.owner)
  }

  /** The unit has the data and is otherwise new: no log, no lock, no mark. */
  predicate IsNew(u: Unit, d: UnitData)
  {
    u.data == Some(d) && u.logs == [] && u.lock.None? && u.deletionRound == 0
  }

  /** The units it creates; before, there was no such unit, or one without data. */
  ghost predicate CreatedOutcome(gen: Gen, m: Ledger, tx: Tx, m': Ledger)
  {
    match tx.attrs
    case Split(ts, _) =>
      forall i :: 0 <= i < |ts| ==>
        var id := gen(tx, i);
        (id in m ==> m[id].data.None?) && id in m' && IsNew(m'[id], Bill(ts[i].amount, 0, ts[i].owner))
    case SplitFT(_, owner, v, _) =>
      var id := gen(tx, 0);
      && (id in m ==> m[id].data.None?) && id in m' && TokenAt(m, tx.unitId).Some?
      && IsNew(m'[id], Token(TokenAt(m, tx.unitId).value.typeId, v, 0, owner))
    case _ => true
  }

  /** Dust goes to the collector's supply, and a swap takes it out. */
  predicate SupplyOutcome(m: Ledger, tx: Tx, m': Ledger)
  {
    UsesSupply(tx) ==>
      && BillAt(m, DC_SUPPLY).Some? && BillAt(m', DC_SUPPLY).Some?
      && var d, d' := BillAt(m, DC_SUPPLY).value, BillAt(m', DC_SUPPLY).value;
      && m'[DC_SUPPLY] == m[DC_SUPPLY].(data := Some(d')) && d'.counter == d.counter && d'.owner == d.owner
      && (tx.attrs.TransDC? ==> d'.value == d.value + tx.attrs.value)
      && (tx.attrs.SwapDC? ==> d'.value + RecordSum(tx.attrs.dust) == d.value)
  }

  /** The effect of a transaction on the whole ledger. */
  ghost predicate Outcome(gen: Gen, m: Ledger, tx: Tx, m': Ledger)
  {
    && (tx.unitId !in m <==> tx.attrs.MintFT?) && tx.unitId in m'
    && OwnOutcome(tx, if tx.unitId in m then m[tx.unitId].data else None, m'[tx.unitId].data)
    && (tx.unitId in m ==> m'[tx.unitId] == m[tx.unitId].(data := m'[tx.unitId].data))
    && (tx.unitId !in m ==> IsNew(m'[tx.unitId], Token(tx.attrs.typeId, tx.attrs.value, 0, tx.attrs.owner)))
    && CreatedOutcome(gen, m, tx, m') && SupplyOutcome(m, tx, m')
    && forall id :: id !in Touched(gen, tx) ==> (id in m <==> id in m') && (id in m ==> m'[id] == m[id])
  }

  lemma OwnPart(gen: Gen, m: Ledger, tx: Tx, amount: nat, m': Ledger)
    requires Apart(gen, tx) && IsEffect(gen, m, tx, amount, m') && Ready(m, tx, amount) && Bounded(m)
    ensures OwnOutcome(tx, if tx.unitId in m then m[tx.unitId].data else None, m'[tx.unitId].data)
  {
    hide Bounded, Sub64, Add64, Apart;
    var v := if tx.unitId in m then ValueAt(Bills, m, tx.unitId) else 0;
    BillWithinTotal(m, tx.unitId);
    match tx.attrs
    case Split(ts, _) => NoWrap(v, SumOf(ts));
    case SwapDC(dust) =>
      SwapFits(gen, m, tx, amount);
      NoWrap(v, amount);
    case SplitFT(_, _, w, _) =>
      TokenFits(m, tx.unitId);
      NoWrap(TokenAt(m, tx.unitId).value.value, w);
    case _ =>
  }

  lemma SwapFits(gen: Gen, m: Ledger, tx: Tx, amount: nat)
    requires Apart(gen, tx) && tx.attrs.SwapDC? && Ready(m, tx, amount) && Bounded(m)
    ensures ValueAt(Bills, m, tx.unitId) + amount < TWO64
  {
    hide Bounded;
    SupplyWithinTotal(m, tx.unitId);
  }

  lemma TokenFits(m: Ledger, id: UnitId)
    requires Bounded(m) && TokenAt(m, id).Some?
    ensures TokenAt(m, id).value.value < TWO64
  {
  }

  lemma SupplyPart(gen: Gen, m: Ledger, tx: Tx, amount: nat, m': Ledger)
    requires Apart(gen, tx) && IsEffect(gen, m, tx, amount, m') && Ready(m, tx, amount) && Bounded(m)
    ensures SupplyOutcome(m, tx, m')
  {
    hide Bounded, Sub64, Add64;
    if UsesSupply(tx) {
      SupplyWithinTotal(m, tx.unitId);
      NoWrap(ValueAt(Bills, m, DC_SUPPLY), ValueAt(Bills, m, tx.unitId));
      NoWrap(ValueAt(Bills, m, DC_SUPPLY), amount);
    }
  }

  lemma CreatedPart(gen: Gen, m: Ledger, tx: Tx, amount: nat, m': Ledger)
    requires IsEffect(gen, m, tx, amount, m') && Ready(m, tx, amount)
    ensures CreatedOutcome(gen, m, tx, m')
  {
    match tx.attrs
    case Split(ts, _) =>
      forall i | 0 <= i < |ts|
        ensures var id := gen(tx, i);
          (id in m ==> m[id].data.None?) && id in m' && IsNew(m'[id], Bill(ts[i].amount, 0, ts[i].owner))
      {
        assert Created(gen, tx)[i] == gen(tx, i);
      }
    case SplitFT(_, _, _, _) => assert Created(gen, tx)[0] == gen(tx, 0);
    case _ =>
  }

  /** The code's actions have exactly this effect; nothing wraps around. */
  lemma ExecuteOutcome(gen: Gen, m: Ledger, tx: Tx, amount: nat)
    requires Apart(gen, tx) && Ready(m, tx, amount) && Bounded(m) && Execute(gen, m, tx, amount).Some?
    ensures Outcome(gen, m, tx, Execute(gen, m, tx, amount).value)
  {
    hide Bounded, Execute, Ready, OwnOutcome, CreatedOutcome, SupplyOutcome, Apart;
    var m' := Execute(gen, m, tx, amount).value;
    ExecuteEffect(gen, m, tx, amount);
    OwnPart(gen, m, tx, amount, m');
    CreatedPart(gen, m, tx, amount, m');
    SupplyPart(gen, m, tx, amount, m');
  }
}
