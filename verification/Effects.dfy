/** The effect of executing a transaction, unit by unit. */
module Effects {
  import opened Units
  import opened Transactions
  import Locking
  import Store

  /** What happens to the data of the transaction's own unit. */
  function UnitChange(tx: Tx, amount: nat, d: Option<UnitData>): (r: Option<Option<UnitData>>)
  {
    match tx.attrs
    case Transfer(owner, _, _) => Transferred(d, owner)
    case Split(ts, _) => SplitOff(d, SumOf(ts))
    case TransDC(_, _, _, _) => Collected(d)
    case SwapDC(_) => Swapped(d, amount)
    case Nop(_, _) => Counted(d)
    case TransferFT(_, owner, _, _) => TokenTransferred(d, owner)
    case SplitFT(_, _, v, _) => TokenSplitOff(d, v)
    case BurnFT(_, _, _, _, _) => Burned(d)
    case JoinFT(_) => Joined(d, amount)
    case MintFT(t, v, owner) => None
  }

  predicate UsesSupply(tx: Tx) { tx.attrs.TransDC? || tx.attrs.SwapDC? }

  function SupplyChange(tx: Tx, amount: nat, d: Option<UnitData>): (r: Option<Option<UnitData>>)
  {
    match tx.attrs
    case TransDC(_, _, v, _) => Supplied(d, v)
    case SwapDC(_) => Drawn(d, amount)
    case _ => None
  }

  /** The data of the i-th created unit. */
  function CreatedData(m: Ledger, tx: Tx, i: nat): (d: Option<UnitData>)
  {
    match tx.attrs
    case Split(ts, _) => if i < |ts| then Some(Bill(ts[i].amount, 0, ts[i].owner)) else None
    case SplitFT(_, owner, v, _) =>
      if TokenAt(m, tx.unitId).Some? then Some(Token(TokenAt(m, tx.unitId).value.typeId, v, 0, owner)) else None
    case _ => None
  }

  ghost function Touched(gen: Gen, tx: Tx): (ids: set<UnitId>)
  {
    TargetSet(gen, tx) + if UsesSupply(tx) then {DC_SUPPLY} else {}
  }

  /** A transaction that keeps to itself: its unit is neither one it creates nor, if it pays to or from
      the dust collector, the collector's. */
  ghost predicate Apart(gen: Gen, tx: Tx)
  {
    Locking.GenOk(gen) && tx.unitId !in Created(gen, tx) && (UsesSupply(tx) ==> tx.unitId != DC_SUPPLY)
  }

  ghost predicate IsEffect(gen: Gen, m: Ledger, tx: Tx, amount: nat, m': Ledger)
  {
    && (forall id :: id !in Touched(gen, tx) ==> (id in m <==> id in m') && (id in m ==> m'[id] == m[id]))
    && (if tx.attrs.MintFT? then
          tx.unitId !in m && tx.unitId in m' &&
          m'[tx.unitId] == Store.NewUnit(Some(Token(tx.attrs.typeId, tx.attrs.value, 0, tx.attrs.owner)))
        else
          tx.unitId in m && tx.unitId in m' && UnitChange(tx, amount, m[tx.unitId].data).Some? &&
          m'[tx.unitId] == m[tx.unitId].(data := UnitChange(tx, amount, m[tx.unitId].data).value))
    && (forall i :: 0 <= i < |Created(gen, tx)| ==>
          var id := Created(gen, tx)[i];
          (id in m ==> m[id].data.None?) && id in m' && m'[id] == Store.NewUnit(CreatedData(m, tx, i)))
    && (UsesSupply(tx) ==>
          DC_SUPPLY in m && DC_SUPPLY in m' && SupplyChange(tx, amount, m[DC_SUPPLY].data).Some? &&
          m'[DC_SUPPLY] == m[DC_SUPPLY].(data := SupplyChange(tx, amount, m[DC_SUPPLY].data).value))
  }

  lemma OwnEffect(gen: Gen, m: Ledger, tx: Tx, amount: nat, m': Ledger)
    requires IsEffect(gen, m, tx, amount, m') && !tx.attrs.MintFT?
    ensures tx.unitId in m && tx.unitId in m' && UnitChange(tx, amount, m[tx.unitId].data) == Some(m'[tx.unitId].data)
  {
  }

  lemma SupplyEffectOf(gen: Gen, m: Ledger, tx: Tx, amount: nat, m': Ledger)
    requires IsEffect(gen, m, tx, amount, m') && UsesSupply(tx)
    ensures DC_SUPPLY in m && DC_SUPPLY in m' && SupplyChange(tx, amount, m[DC_SUPPLY].data) == Some(m'[DC_SUPPLY].data)
  {
  }

  lemma Two(m: Ledger, a: Store.Action, b: Store.Action)
    ensures Store.ActAll(m, [a, b]) == match Store.Act(m, a) case Ok(m') => Store.Act(m', b) case Err(e) => Store.Err(e)
  {
    Store.OneAction(m, a);
    assert [a, b][..1] == [a];
  }

  lemma TargetsOf(gen: Gen, tx: Tx)
    ensures tx.unitId in TargetSet(gen, tx)
    ensures forall i :: 0 <= i < |Created(gen, tx)| ==> Created(gen, tx)[i] in TargetSet(gen, tx)
    ensures forall id :: id in TargetSet(gen, tx) ==> id == tx.unitId || id in Created(gen, tx)
  {
    assert Targets(gen, tx)[0] == tx.unitId;
    forall i | 0 <= i < |Created(gen, tx)| ensures Created(gen, tx)[i] in TargetSet(gen, tx) {
      assert Targets(gen, tx)[i + 1] == Created(gen, tx)[i];
    }
  }

  ghost predicate AreNewBills(gen: Gen, m: Ledger, tx: Tx, ts: seq<Target>, m': Ledger)
  {
    && (forall id :: id !in Ids(gen, tx, |ts|) ==> (id in m <==> id in m') && (id in m ==> m'[id] == m[id]))
    && (forall i :: 0 <= i < |ts| ==>
          var id := gen(tx, i);
          (id in m ==> m[id].data.None?) && id in m' &&
          m'[id] == Store.NewUnit(Some(Bill(ts[i].amount, 0, ts[i].owner))))
  }

  function Ids(gen: Gen, tx: Tx, n: nat): (ids: seq<UnitId>)
    ensures |ids| == n && forall i :: 0 <= i < n ==> ids[i] == gen(tx, i)
  {
    seq(n, i requires 0 <= i < n => gen(tx, i))
  }

  /** The new bills of a split, one after the other. */
  lemma {:induction false} NewBillsEffect(gen: Gen, m: Ledger, tx: Tx, ts: seq<Target>)
    requires Locking.GenOk(gen)
    ensures var r := Store.ActAll(m, NewBills(gen, tx, ts)); r.Ok? ==> AreNewBills(gen, m, tx, ts, r.ledger)
    decreases |ts|
  {
    if ts != [] {
      var k := |ts| - 1;
      assert NewBills(gen, tx, ts)[..k] == NewBills(gen, tx, ts[..k]);
      NewBillsEffect(gen, m, tx, ts[..k]);
      assert Ids(gen, tx, |ts|) == Ids(gen, tx, k) + [gen(tx, k)];
      assert gen(tx, k) !in Ids(gen, tx, k);
    }
  }

  lemma LastAction(m: Ledger, actions: seq<Store.Action>, a: Store.Action)
    ensures Store.ActAll(m, actions + [a]) ==
      match Store.ActAll(m, actions) case Ok(m') => Store.Act(m', a) case Err(e) => Store.Err(e)
  {
    assert (actions + [a])[..|actions|] == actions;
  }

  /** What is taken from the bill of a split is what its change takes. */
  lemma BillTaken(m: Ledger, tx: Tx, amount: nat)
    requires tx.attrs.Split? && Store.Act(m, TakeFromBill(tx.unitId, SumOf(tx.attrs.targets))).Ok?
    ensures tx.unitId in m && UnitChange(tx, amount, m[tx.unitId].data).Some?
    ensures Store.Act(m, TakeFromBill(tx.unitId, SumOf(tx.attrs.targets))).ledger ==
            m[tx.unitId := m[tx.unitId].(data := UnitChange(tx, amount, m[tx.unitId].data).value)]
  {
  }

  /** A split adds its bills and then changes its own. */
  lemma SplitRuns(gen: Gen, m: Ledger, tx: Tx, amount: nat)
    requires tx.attrs.Split? && Execute(gen, m, tx, amount).Some?
    ensures var bills := Store.ActAll(m, NewBills(gen, tx, tx.attrs.targets));
      var take := TakeFromBill(tx.unitId, SumOf(tx.attrs.targets));
      bills.Ok? && Store.Act(bills.ledger, take) == Store.Ok(Execute(gen, m, tx, amount).value)
  {
    hide Store.ActAll, Store.Act, NewBills, TakeFromBill;
    LastAction(m, NewBills(gen, tx, tx.attrs.targets), TakeFromBill(tx.unitId, SumOf(tx.attrs.targets)));
  }

  lemma SplitEffect(gen: Gen, m: Ledger, tx: Tx, amount: nat)
    requires tx.attrs.Split? && Apart(gen, tx) && Execute(gen, m, tx, amount).Some?
    ensures IsEffect(gen, m, tx, amount, Execute(gen, m, tx, amount).value)
  {
    hide Execute, Store.ActAll, Store.Act, UnitChange, TakeFromBill;
    var ts := tx.attrs.targets;
    SplitRuns(gen, m, tx, amount);
    BillTaken(Store.ActAll(m, NewBills(gen, tx, ts)).ledger, tx, amount);
    NewBillsEffect(gen, m, tx, ts);
    TargetsOf(gen, tx);
    assert Created(gen, tx) == Ids(gen, tx, |ts|);
  }

  lemma SupplyEffect(gen: Gen, m: Ledger, tx: Tx, amount: nat)
    requires UsesSupply(tx) && Apart(gen, tx) && Execute(gen, m, tx, amount).Some?
    ensures IsEffect(gen, m, tx, amount, Execute(gen, m, tx, amount).value)
  {
    var actions := Actions(gen, m, tx, amount).value;
    Two(m, actions[0], actions[1]);
    assert actions == [actions[0], actions[1]];
    TargetsOf(gen, tx);
  }

  lemma TokenSplitEffect(gen: Gen, m: Ledger, tx: Tx, amount: nat)
    requires tx.attrs.SplitFT? && Apart(gen, tx) && Execute(gen, m, tx, amount).Some?
    ensures IsEffect(gen, m, tx, amount, Execute(gen, m, tx, amount).value)
  {
    var actions := Actions(gen, m, tx, amount).value;
    Two(m, actions[0], actions[1]);
    assert actions == [actions[0], actions[1]];
    TargetsOf(gen, tx);
    assert Created(gen, tx) == [gen(tx, 0)];
  }

  lemma SingleEffect(gen: Gen, m: Ledger, tx: Tx, amount: nat)
    requires !tx.attrs.Split? && !tx.attrs.SplitFT? && !UsesSupply(tx) && Apart(gen, tx)
    requires Execute(gen, m, tx, amount).Some?
    ensures IsEffect(gen, m, tx, amount, Execute(gen, m, tx, amount).value)
  {
    var actions := Actions(gen, m, tx, amount).value;
    Store.OneAction(m, actions[0]);
    assert actions == [actions[0]];
    TargetsOf(gen, tx);
  }

  lemma ExecuteEffect(gen: Gen, m: Ledger, tx: Tx, amount: nat)
    requires Apart(gen, tx) && Execute(gen, m, tx, amount).Some?
    ensures IsEffect(gen, m, tx, amount, Execute(gen, m, tx, amount).value)
  {
    if tx.attrs.Split? {
      SplitEffect(gen, m, tx, amount);
    } else if tx.attrs.SplitFT? {
      TokenSplitEffect(gen, m, tx, amount);
    } else if UsesSupply(tx) {
      SupplyEffect(gen, m, tx, amount);
    } else {
      SingleEffect(gen, m, tx, amount);
    }
  }
}
