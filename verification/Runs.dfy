/** Whole runs of a partition: locks, bills, tokens and redeemed records, whatever the order of
    transactions, unlocks, rollbacks and rounds. */
module Runs {
  import opened Units
  import opened Transactions
  import opened Locking
  import opened Effects
  import opened Sums
  import opened Conservation
  import opened LockSafety
  import Store

  // ----- changes that keep all sums -----

  /** Nothing of value moves: sums stay, and no unit's counter goes back. */
  ghost predicate Neutral(m: Ledger, m': Ledger)
  {
    && Total(Bills, m') == Total(Bills, m) && ValueAt(Bills, m', DC_SUPPLY) == ValueAt(Bills, m, DC_SUPPLY)
    && (forall t :: Total(Tokens(t), m') == Total(Tokens(t), m))
    && (Bounded(m) ==> Bounded(m')) && CountersGrow(m, m')
  }

  ghost predicate CountersGrow(m: Ledger, m': Ledger)
  {
    forall id ::
      && (BillAt(m, id).Some? ==> BillAt(m', id).Some? && BillAt(m, id).value.counter <= BillAt(m', id).value.counter)
      && (TokenAt(m, id).Some? ==>
          TokenAt(m', id).Some? && TokenAt(m, id).value.counter <= TokenAt(m', id).value.counter)
  }

  /** Same data everywhere, up to fee credit balances and units without data. */
  ghost predicate SameData(m: Ledger, m': Ledger)
  {
    forall id :: BillAt(m, id) == BillAt(m', id) && TokenAt(m, id) == TokenAt(m', id)
  }

  lemma SameDataNeutral(m: Ledger, m': Ledger)
    requires SameData(m, m')
    ensures Neutral(m, m')
  {
    forall k: Kind ensures Total(k, m') == Total(k, m) {
      forall id ensures ValueAt(k, m, id) == ValueAt(k, m', id) {
        assert BillAt(m, id) == BillAt(m', id) && TokenAt(m, id) == TokenAt(m', id);
      }
      TotalChange(k, m, m', {});
      SumOfNothing(k, m, {});
      SumOfNothing(k, m', {});
    }
    assert BillAt(m, DC_SUPPLY) == BillAt(m', DC_SUPPLY);
  }

  lemma NeutralCompose(m: Ledger, m1: Ledger, m2: Ledger)
    requires Neutral(m, m1) && Neutral(m1, m2)
    ensures Neutral(m, m2)
  {
  }

  /** Execution never lowers a counter. */
  lemma EffectCounters(gen: Gen, m: Ledger, tx: Tx, amount: nat, m': Ledger)
    requires Apart(gen, tx) && IsEffect(gen, m, tx, amount, m')
    ensures CountersGrow(m, m')
  {
    TargetsOf(gen, tx);
    forall id | id in Touched(gen, tx) && id != tx.unitId && id != DC_SUPPLY ensures id in m ==> m[id].data.None? {
      var i :| 0 <= i < |Created(gen, tx)| && Created(gen, tx)[i] == id;
    }
  }

  // ----- releasing held transactions -----

  /** A mint on hold cannot be executed: its unit exists already. */
  lemma HeldMintFails(gen: Gen, m: Ledger, h: Tx)
    requires h.attrs.MintFT? && OnHold(gen, m, h)
    ensures Execute(gen, m, h, 0).None?
  {
    assert Targets(gen, h)[0] == h.unitId;
    Store.OneAction(m, Store.AddUnit(h.unitId, Token(h.attrs.typeId, h.attrs.value, 0, h.attrs.owner)));
  }

  /** A transaction that was on hold is executed without validation, and still no value moves: a split
      never takes more than its source has. */
  lemma HeldExecutionNeutral(gen: Gen, m: Ledger, seen: set<Tx>, h: Tx)
    requires GenOk(gen) && Inv(gen, m, seen) && Bounded(m) && Lockable(h) && OnHold(gen, m, h)
    requires Execute(gen, m, h, 0).Some?
    ensures Neutral(m, Execute(gen, m, h, 0).value)
    ensures h.attrs.Split? ==> SumOf(h.attrs.targets) < BillAt(m, h.unitId).value.value
  {
    hide Execute, Total, Sum, CountersGrow;
    if h.attrs.MintFT? {
      HeldMintFails(gen, m, h);
    }
    var m' := Execute(gen, m, h, 0).value;
    HeldApart(gen, m, h);
    ExecuteEffect(gen, m, h, 0);
    HeldIsReady(gen, m, h);
    BillsConserved(gen, m, h, 0, m');
    forall t ensures Total(Tokens(t), m') == Total(Tokens(t), m) {
      TokensConserved(gen, m, h, 0, m', t);
    }
    BoundsKept(gen, m, h, 0, m');
    EffectCounters(gen, m, h, 0, m');
    SupplyUntouched(gen, m, h, m');
  }

  lemma SupplyUntouched(gen: Gen, m: Ledger, h: Tx, m': Ledger)
    requires GenOk(gen) && SupplyOk(m) && Lockable(h) && OnHold(gen, m, h) && IsEffect(gen, m, h, 0, m')
    ensures ValueAt(Bills, m', DC_SUPPLY) == ValueAt(Bills, m, DC_SUPPLY)
  {
    TargetsOf(gen, h);
    assert DC_SUPPLY in TargetSet(gen, h) ==> DC_SUPPLY in Targets(gen, h);
  }

  lemma ReleaseNeutral(m: Ledger, ids: seq<UnitId>)
    ensures Neutral(m, Release(m, ids))
  {
    SameDataNeutral(m, Release(m, ids));
  }

  lemma AbandonNeutral(m: Ledger, ids: seq<UnitId>, round: nat)
    requires Abandon(m, ids, round).Some?
    ensures Neutral(m, Abandon(m, ids, round).value)
  {
    SameDataNeutral(m, Abandon(m, ids, round).value);
  }

  lemma UnlockNeutral(gen: Gen, auth: Auth, m: Ledger, seen: set<Tx>, tx: Tx, id: UnitId, round: nat)
    requires GenOk(gen) && Inv(gen, m, seen) && Bounded(m) && Unlock(gen, auth, m, tx, id, round).Some?
    ensures Neutral(m, Unlock(gen, auth, m, tx, id, round).value)
  {
    hide Execute, Abandon, Release, OnHold, Neutral, GenOk;
    SameDataNeutral(m, m);
    if Held(m, id).Some? {
      var h := Held(m, id).value;
      assert LockOk(gen, m, seen, id);
      if tx.stateUnlock.value.kind.ToExecute? {
        HeldExecutionNeutral(gen, m, seen, h);
        ReleaseNeutral(Execute(gen, m, h, 0).value, Targets(gen, h));
        NeutralCompose(m, Execute(gen, m, h, 0).value, Unlock(gen, auth, m, tx, id, round).value);
      } else {
        AbandonNeutral(m, Targets(gen, h), round);
        ReleaseNeutral(Abandon(m, Targets(gen, h), round).value, Targets(gen, h));
        NeutralCompose(m, Abandon(m, Targets(gen, h), round).value, Unlock(gen, auth, m, tx, id, round).value);
      }
    }
  }

  lemma {:induction false} UnlockAllNeutral(gen: Gen, auth: Auth, m: Ledger, seen: set<Tx>, tx: Tx,
                                            ids: seq<UnitId>, round: nat)
    requires GenOk(gen) && Inv(gen, m, seen) && Bounded(m) && UnlockAll(gen, auth, m, tx, ids, round).Some?
    ensures Neutral(m, UnlockAll(gen, auth, m, tx, ids, round).value)
    decreases |ids|
  {
    hide Inv, Unlock, GenOk, OnlyReleases, Held;
    if ids == [] {
      SameDataNeutral(m, m);
    } else {
      var n := |ids| - 1;
      UnlockAllNeutral(gen, auth, m, seen, tx, ids[..n], round);
      UnlockAllKeeps(gen, auth, m, seen, tx, ids[..n], round);
      var m1 := UnlockAll(gen, auth, m, tx, ids[..n], round).value;
      UnlockNeutral(gen, auth, m1, seen, tx, ids[n], round);
      NeutralCompose(m, m1, UnlockAll(gen, auth, m, tx, ids, round).value);
    }
  }

  lemma LockNeutral(gen: Gen, m: Ledger, tx: Tx)
    requires Apart(gen, tx) && LockAll(m, tx, Targets(gen, tx)).Some?
    ensures Neutral(m, LockAll(m, tx, Targets(gen, tx)).value)
  {
    DistinctTargets(gen, tx);
    LockAllEffect(m, tx, Targets(gen, tx));
    var m' := LockAll(m, tx, Targets(gen, tx)).value;
    forall id ensures BillAt(m, id) == BillAt(m', id) && TokenAt(m, id) == TokenAt(m', id) {
      if id in Targets(gen, tx) {
        assert id in m';
      }
    }
    SameDataNeutral(m, m');
  }

  lemma DeletionNeutral(gen: Gen, m: Ledger, seen: set<Tx>, round: nat)
    requires Inv(gen, m, seen)
    ensures Neutral(m, DeleteExpired(m, round))
  {
    forall id
      ensures BillAt(m, id) == BillAt(DeleteExpired(m, round), id)
      ensures TokenAt(m, id) == TokenAt(DeleteExpired(m, round), id)
    {
      if id in m {
        assert MarkOk(m[id]);
      }
    }
    SameDataNeutral(m, DeleteExpired(m, round));
  }

  lemma AlikeNeutral(m: Ledger, m': Ledger)
    requires SameOutside(m, m', {})
    ensures Neutral(m, m')
  {
    forall id ensures BillAt(m, id) == BillAt(m', id) && TokenAt(m, id) == TokenAt(m', id) {
      assert id !in {};
      assert id in m ==> Alike(m[id], m'[id]);
    }
    SameDataNeutral(m, m');
  }

  // ----- runs -----

  datatype World = World(
    ledger: Ledger,
    seen: set<Tx>,        // transactions that are in a block
    succeeded: set<Tx>,   // those among them with a success status
    redeemed: set<Tx>,    // records that a swap or a join has used
    credited: nat,        // money that left the bills as fee credit
    reclaimed: nat)       // and money that came back

  /** The records a transaction redeems. */
  function Redeems(tx: Tx): (records: seq<Tx>)
  {
    match tx.attrs case SwapDC(dust) => dust case JoinFT(burns) => burns case _ => []
  }

  datatype Step =
    | Success(tx: Tx, auth: Auth, round: nat)
    | Failure(tx: Tx)
    | NewRound(round: nat, expired: set<UnitId>)
    | Credit(tx: Tx, auth: Auth, round: nat, id: UnitId, amount: nat)
    | Reclaim(tx: Tx, auth: Auth, round: nat, id: UnitId, amount: nat)

  /** A bill with another value; counters go up with every change. */
  function Revalued(m: Ledger, id: UnitId, value: nat): (m': Ledger)
    requires BillAt(m, id).Some?
  {
    var b := BillAt(m, id).value;
    m[id := m[id].(data := Some(Bill(value, b.counter + 1, b.owner)))]
  }

  /** A fee credit transaction may use the bill: its owner agrees, and if it is locked then only by a
      transaction that does nothing, which is released first. */
  ghost predicate MayUse(gen: Gen, auth: Auth, m: Ledger, tx: Tx, id: UnitId, round: nat)
  {
    && BillAt(m, id).Some? && AuthOk(auth) && auth(BillAt(m, id).value.owner, tx)
    && (Held(m, id).Some? ==> Held(m, id).value.attrs.Nop?)
    && Unlock(gen, auth, m, tx, id, round).Some? && BillAt(Unlock(gen, auth, m, tx, id, round).value, id).Some?
  }

  /** A new transaction succeeds or fails; fees and logs change nothing but fee credit records and logs.
      At the start of a round expired units and some fee credit records are deleted.  Money leaves a bill as
      fee credit and comes back to one; no more comes back than has left. */
  ghost predicate Next(gen: Gen, w: World, step: Step, w': World)
  {
    match step
    case Success(tx, auth, round) =>
      && tx !in w.seen && AuthOk(auth) && (tx.attrs.MintFT? ==> tx.attrs.value < TWO64)
      && Process(gen, auth, w.succeeded, w.ledger, tx, round).Some?
      && SameOutside(Process(gen, auth, w.succeeded, w.ledger, tx, round).value, w'.ledger, {})
      && w'.seen == w.seen + {tx} && w'.succeeded == w.succeeded + {tx}
      && w'.redeemed == w.redeemed + (set r | r in Redeems(tx))
      && w'.credited == w.credited && w'.reclaimed == w.reclaimed
    case Failure(tx) =>
      && tx !in w.seen && SameOutside(w.ledger, w'.ledger, {})
      && w' == w.(ledger := w'.ledger, seen := w.seen + {tx})
    case NewRound(round, expired) =>
      && (forall id :: id in expired && id in w.ledger ==> w.ledger[id].data.Some? && w.ledger[id].data.value.Fcr?)
      && w' == w.(ledger := DeleteExpired(w.ledger - expired, round))
    case Credit(tx, auth, round, id, amount) =>
      && MayUse(gen, auth, w.ledger, tx, id, round) && amount <= BillAt(w.ledger, id).value.value
      && var m := Unlock(gen, auth, w.ledger, tx, id, round).value;
      && SameOutside(Revalued(m, id, Sub64(BillAt(m, id).value.value, amount)), w'.ledger, {})
      && w' == w.(ledger := w'.ledger, credited := w.credited + amount)
    case Reclaim(tx, auth, round, id, amount) =>
      && MayUse(gen, auth, w.ledger, tx, id, round) && w.reclaimed + amount <= w.credited
      && var m := Unlock(gen, auth, w.ledger, tx, id, round).value;
      && SameOutside(Revalued(m, id, Add64(BillAt(m, id).value.value, amount)), w'.ledger, {})
      && w' == w.(ledger := w'.ledger, reclaimed := w.reclaimed + amount)
  }

  /** A redeemed record cannot be redeemed again: its target has moved on. */
  predicate Spent(m: Ledger, r: Tx)
  {
    && (r.attrs.TransDC? ==>
        BillAt(m, r.attrs.dcTarget).Some? && r.attrs.dcTargetCounter < BillAt(m, r.attrs.dcTarget).value.counter)
    && (r.attrs.BurnFT? ==>
        TokenAt(m, r.attrs.ftTarget).Some? && r.attrs.ftTargetCounter < TokenAt(m, r.attrs.ftTarget).value.counter)
  }

  /** The books: all bills add up to the money there is, the collector holds what it started with and all
      dust not yet swapped, and tokens and unredeemed burns of a type add up to what was minted. */
  ghost predicate Books(m: Ledger, succeeded: set<Tx>, redeemed: set<Tx>, money: nat, supply: nat)
  {
    && Bounded(m) && Total(Bills, m) == money
    && ValueAt(Bills, m, DC_SUPPLY) + TxSum(Dust, redeemed) == supply + TxSum(Dust, succeeded)
    && (forall t ::
          Total(Tokens(t), m) + TxSum(Burnt(t), succeeded) == TxSum(Minted(t), succeeded) + TxSum(Burnt(t), redeemed))
    && (forall r :: r in redeemed ==> Spent(m, r))
  }

  /** The money that is not fee credit. */
  function Left(w: World, money: nat): (left: nat)
  {
    if w.reclaimed <= w.credited <= money + w.reclaimed then money + w.reclaimed - w.credited else 0
  }

  ghost predicate RunInv(gen: Gen, w: World, money: nat, supply: nat)
  {
    && Inv(gen, w.ledger, w.seen) && w.redeemed <= w.succeeded <= w.seen
    && w.reclaimed <= w.credited <= money + w.reclaimed && money < TWO64
    && Books(w.ledger, w.succeeded, w.redeemed, Left(w, money), supply)
  }

  lemma NeutralBooks(m: Ledger, m': Ledger, succeeded: set<Tx>, redeemed: set<Tx>, money: nat, supply: nat)
    requires Neutral(m, m') && Books(m, succeeded, redeemed, money, supply)
    ensures Books(m', succeeded, redeemed, money, supply)
  {
    hide Total, TxSum, Bounded;
    forall r | r in redeemed ensures Spent(m', r) {
      assert Spent(m, r);
    }
  }

  /** Records that pass validation have not been redeemed. */
  lemma NotRedeemed(gen: Gen, auth: Auth, succeeded: set<Tx>, redeemed: set<Tx>, m: Ledger, tx: Tx)
    requires Validate(gen, auth, succeeded, m, tx).Some? && forall r :: r in redeemed ==> Spent(m, r)
    ensures forall r :: r in Redeems(tx) ==> r in succeeded && r !in redeemed
  {
    forall r | r in Redeems(tx) ensures r in succeeded && r !in redeemed {
      var i :| 0 <= i < |Redeems(tx)| && Redeems(tx)[i] == r;
      assert r in redeemed ==> Spent(m, r);
    }
  }

  /** What the records of a swap or join are worth, kind by kind. */
  lemma RedeemedWorth(gen: Gen, auth: Auth, succeeded: set<Tx>, m: Ledger, tx: Tx, k: TxKind)
    requires Validate(gen, auth, succeeded, m, tx).Some?
    ensures TxSum(k, set r | r in Redeems(tx)) ==
      match tx.attrs
      case SwapDC(dust) => if k.Dust? then RecordSum(dust) else 0
      case JoinFT(burns) =>
        if k.Burnt? && TokenAt(m, tx.unitId).Some? &&
          TokenAt(m, tx.unitId).value.typeId == k.typeId then RecordSum(burns)
        else 0
      case _ => 0
  {
    var records := Redeems(tx);
    if forall i :: 0 <= i < |records| ==> TxValue(k, records[i]) == RecordValue(records[i]) {
      RecordsAsSet(k, records);
    }
    if forall r :: r in records ==> TxValue(k, r) == 0 {
      Worthless(k, set r | r in records);
    }
    match tx.attrs {
      case SwapDC(dust) =>
        assert forall r :: r in dust ==> r.attrs.TransDC?;
      case JoinFT(burns) =>
        var t := TokenAt(m, tx.unitId).value.typeId;
        assert forall r :: r in burns ==> r.attrs.BurnFT? && r.attrs.typeId == t;
      case _ =>
    }
  }

  lemma {:induction false} Worthless(k: TxKind, txs: set<Tx>)
    requires forall r :: r in txs ==> TxValue(k, r) == 0
    ensures TxSum(k, txs) == 0
    decreases txs
  {
    if x :| x in txs {
      TxSumPick(k, txs, x);
      Worthless(k, txs - {x});
    }
  }

  /** The supply after an execution. */
  lemma SupplyMoves(gen: Gen, auth: Auth, succeeded: set<Tx>, m: Ledger, seen: set<Tx>, tx: Tx, m': Ledger)
    requires GenOk(gen) && AuthOk(auth) && Inv(gen, m, seen) && Bounded(m) && tx !in seen
    requires Validate(gen, auth, succeeded, m, tx).Some?
    requires IsEffect(gen, m, tx, Validate(gen, auth, succeeded, m, tx).value, m')
    ensures ValueAt(Bills, m', DC_SUPPLY) == ValueAt(Bills, m, DC_SUPPLY) + match tx.attrs
      case TransDC(_, _, v, _) => v as int
      case SwapDC(dust) => 0 - RecordSum(dust)
      case _ => 0
  {
    hide IsEffect, Bounded, Validate, Inv, Sub64, Add64;
    var amount := Validate(gen, auth, succeeded, m, tx).value;
    ValidUnit(gen, auth, succeeded, m, seen, tx);
    if UsesSupply(tx) {
      SupplyAmount(gen, auth, succeeded, m, tx);
      SupplyEffectOf(gen, m, tx, amount, m');
      SupplyWithinTotal(m, tx.unitId);
      NoWrap(ValueAt(Bills, m, DC_SUPPLY), ValueAt(Bills, m, tx.unitId));
      NoWrap(ValueAt(Bills, m, DC_SUPPLY), amount);
    } else {
      NotSupply(gen, tx);
      UnchangedValues(gen, Bills, m, tx, amount, m');
    }
  }

  lemma SupplyAmount(gen: Gen, auth: Auth, succeeded: set<Tx>, m: Ledger, tx: Tx)
    requires UsesSupply(tx) && Validate(gen, auth, succeeded, m, tx).Some?
    ensures tx.attrs.TransDC? ==> ValueAt(Bills, m, tx.unitId) == tx.attrs.value
    ensures tx.attrs.SwapDC? ==>
      Validate(gen, auth, succeeded, m, tx).value == RecordSum(tx.attrs.dust) <= ValueAt(Bills, m, DC_SUPPLY)
  {
  }

  lemma NotSupply(gen: Gen, tx: Tx)
    requires GenOk(gen) && !UsesSupply(tx) && tx.unitId != DC_SUPPLY
    ensures DC_SUPPLY !in Touched(gen, tx)
  {
    TargetsOf(gen, tx);
    assert forall i :: 0 <= i < |Created(gen, tx)| ==> Created(gen, tx)[i] == gen(tx, i);
  }

  lemma NowSpent(gen: Gen, auth: Auth, succeeded: set<Tx>, m: Ledger, tx: Tx, m': Ledger)
    requires Validate(gen, auth, succeeded, m, tx).Some?
    requires IsEffect(gen, m, tx, Validate(gen, auth, succeeded, m, tx).value, m')
    ensures forall r :: r in Redeems(tx) ==> Spent(m', r)
  {
    forall r | r in Redeems(tx) ensures Spent(m', r) {
      var i :| 0 <= i < |Redeems(tx)| && Redeems(tx)[i] == r;
    }
  }

  lemma ExecutionBooks(gen: Gen, auth: Auth, succeeded: set<Tx>, redeemed: set<Tx>, m: Ledger, seen: set<Tx>,
                       tx: Tx, money: nat, supply: nat)
    requires GenOk(gen) && AuthOk(auth) && Inv(gen, m, seen) && succeeded <= seen && tx !in seen
    requires (tx.attrs.MintFT? ==> tx.attrs.value < TWO64)
    requires Books(m, succeeded, redeemed, money, supply) && Validate(gen, auth, succeeded, m, tx).Some?
    requires tx.stateLock.None?
    requires Execute(gen, m, tx, Validate(gen, auth, succeeded, m, tx).value).Some?
    ensures Books(Execute(gen, m, tx, Validate(gen, auth, succeeded, m, tx).value).value, succeeded + {tx},
        redeemed + (set r | r in Redeems(tx)), money, supply)
  {
    hide Execute, Validate, Total, TxSum, GenOk, Inv, IsEffect, Bounded, CountersGrow, Ready, Apart;
    var amount := Validate(gen, auth, succeeded, m, tx).value;
    var m' := Execute(gen, m, tx, amount).value;
    var records := set r | r in Redeems(tx);
    ValidUnit(gen, auth, succeeded, m, seen, tx);
    ExecuteEffect(gen, m, tx, amount);
    ValidIsReady(gen, auth, succeeded, m, tx);
    BillsConserved(gen, m, tx, amount, m');
    BoundsKept(gen, m, tx, amount, m');
    NotRedeemed(gen, auth, succeeded, redeemed, m, tx);
    SupplyMoves(gen, auth, succeeded, m, seen, tx, m');
    TxSumAdd(Dust, succeeded, tx);
    TxSumUnion(Dust, redeemed, records);
    RedeemedWorth(gen, auth, succeeded, m, tx, Dust);
    forall t
      ensures Total(Tokens(t), m') + TxSum(Burnt(t), succeeded + {tx}) ==
        TxSum(Minted(t), succeeded + {tx}) + TxSum(Burnt(t), redeemed + records)
    {
      TokensConserved(gen, m, tx, amount, m', t);
      TxSumAdd(Burnt(t), succeeded, tx);
      TxSumAdd(Minted(t), succeeded, tx);
      TxSumUnion(Burnt(t), redeemed, records);
      RedeemedWorth(gen, auth, succeeded, m, tx, Burnt(t));
    }
    EffectCounters(gen, m, tx, amount, m');
    NowSpent(gen, auth, succeeded, m, tx, m');
    StillSpent(m, m', redeemed);
  }

  lemma StillSpent(m: Ledger, m': Ledger, redeemed: set<Tx>)
    requires CountersGrow(m, m') && forall r :: r in redeemed ==> Spent(m, r)
    ensures forall r :: r in redeemed ==> Spent(m', r)
  {
    forall r | r in redeemed ensures Spent(m', r) {
      assert Spent(m, r);
    }
  }

  // ----- every step keeps the books -----

  lemma LockingBooks(gen: Gen, auth: Auth, succeeded: set<Tx>, redeemed: set<Tx>, m: Ledger, seen: set<Tx>, tx: Tx,
                     money: nat, supply: nat)
    requires GenOk(gen) && AuthOk(auth) && Inv(gen, m, seen) && succeeded <= seen && tx !in seen
    requires Books(m, succeeded, redeemed, money, supply) && Validate(gen, auth, succeeded, m, tx).Some?
    requires tx.stateLock.Some?
    requires LockAll(m, tx, Targets(gen, tx)).Some?
    ensures Books(LockAll(m, tx, Targets(gen, tx)).value, succeeded + {tx}, redeemed + (set r | r in Redeems(tx)),
        money, supply)
  {
    hide Validate, LockAll, Neutral, GenOk, Inv, TxSum, Total;
    var m' := LockAll(m, tx, Targets(gen, tx)).value;
    ValidUnit(gen, auth, succeeded, m, seen, tx);
    LockNeutral(gen, m, tx);
    NeutralBooks(m, m', succeeded, redeemed, money, supply);
    assert redeemed + (set r | r in Redeems(tx)) == redeemed;
    TxSumAdd(Dust, succeeded, tx);
    forall t
      ensures TxSum(Burnt(t), succeeded + {tx}) == TxSum(Burnt(t), succeeded)
      ensures TxSum(Minted(t), succeeded + {tx}) == TxSum(Minted(t), succeeded)
    {
      TxSumAdd(Burnt(t), succeeded, tx);
      TxSumAdd(Minted(t), succeeded, tx);
    }
  }

  lemma SuccessKeeps(gen: Gen, w: World, step: Step, w': World, money: nat, supply: nat)
    requires GenOk(gen) && RunInv(gen, w, money, supply) && step.Success? && Next(gen, w, step, w')
    ensures RunInv(gen, w', money, supply)
    ensures forall r :: r in Redeems(step.tx) ==> r in w.succeeded && r !in w.redeemed
  {
    hide Validate, LockAll, UnlockAll, Execute, Neutral, Inv, Books, Targets, GenOk, OnlyReleases, SameOutside;
    var tx, auth, left := step.tx, step.auth, Left(w, money);
    var m := w.ledger;
    var m1 := UnlockAll(gen, auth, m, tx, Targets(gen, tx), step.round).value;
    var m2 := Process(gen, auth, w.succeeded, m, tx, step.round).value;
    BooksBounded(m, w.succeeded, w.redeemed, left, supply);
    UnlockAllNeutral(gen, auth, m, w.seen, tx, Targets(gen, tx), step.round);
    UnlockAllKeeps(gen, auth, m, w.seen, tx, Targets(gen, tx), step.round);
    NeutralBooks(m, m1, w.succeeded, w.redeemed, left, supply);
    BooksBounded(m1, w.succeeded, w.redeemed, left, supply);
    NotRedeemed(gen, auth, w.succeeded, w.redeemed, m1, tx);
    if tx.stateLock.Some? {
      LockingBooks(gen, auth, w.succeeded, w.redeemed, m1, w.seen, tx, left, supply);
    } else {
      ExecutionBooks(gen, auth, w.succeeded, w.redeemed, m1, w.seen, tx, left, supply);
    }
    ProcessKeeps(gen, auth, w.succeeded, m, w.seen, tx, step.round);
    AlikeNeutral(m2, w'.ledger);
    NeutralBooks(m2, w'.ledger, w'.succeeded, w'.redeemed, left, supply);
    AlikeKeeps(gen, m2, w'.ledger, w'.seen);
  }

  lemma BooksBounded(m: Ledger, succeeded: set<Tx>, redeemed: set<Tx>, money: nat, supply: nat)
    requires Books(m, succeeded, redeemed, money, supply)
    ensures Bounded(m) && forall r :: r in redeemed ==> Spent(m, r)
  {
  }

  lemma FailureKeeps(gen: Gen, w: World, step: Step, w': World, money: nat, supply: nat)
    requires GenOk(gen) && RunInv(gen, w, money, supply) && step.Failure? && Next(gen, w, step, w')
    ensures RunInv(gen, w', money, supply)
  {
    AlikeNeutral(w.ledger, w'.ledger);
    NeutralBooks(w.ledger, w'.ledger, w.succeeded, w.redeemed, Left(w, money), supply);
    AlikeKeeps(gen, w.ledger, w'.ledger, w.seen);
    SeenGrows(gen, w'.ledger, w.seen, w'.seen);
  }

  lemma SeenGrows(gen: Gen, m: Ledger, seen: set<Tx>, seen': set<Tx>)
    requires Inv(gen, m, seen) && seen <= seen'
    ensures Inv(gen, m, seen')
  {
    forall id | id in m && m[id].lock.Some? ensures LockOk(gen, m, seen', id) {
      assert LockOk(gen, m, seen, id);
    }
  }

  /** Deleting fee credit records: the only lock such a record can carry is that of a transaction that
      does nothing and has no other unit. */
  lemma RecordsDeleted(gen: Gen, m: Ledger, seen: set<Tx>, expired: set<UnitId>)
    requires Inv(gen, m, seen) && forall id :: id in expired && id in m ==> m[id].data.Some? && m[id].data.value.Fcr?
    ensures Inv(gen, m - expired, seen) && Neutral(m, m - expired)
  {
    var m' := m - expired;
    forall id | id in m && id !in expired && m[id].lock.Some? ensures TargetSet(gen, m[id].lock.value) !! expired {
      var h := m[id].lock.value;
      assert LockOk(gen, m, seen, id);
      TargetsOf(gen, h);
      forall x | x in TargetSet(gen, h) ensures x !in expired {
        FcrOnlyNop(gen, m, h, x);
      }
    }
    ChangeKeeps(gen, m, m', seen, seen, expired);
    forall id ensures BillAt(m, id) == BillAt(m', id) && TokenAt(m, id) == TokenAt(m', id) {
      assert id in m && id in expired ==> m[id].data.value.Fcr?;
    }
    SameDataNeutral(m, m');
  }

  lemma FcrOnlyNop(gen: Gen, m: Ledger, h: Tx, x: UnitId)
    requires Lockable(h) && OnHold(gen, m, h) && x in TargetSet(gen, h)
    ensures x in m && (m[x].data.Some? && m[x].data.value.Fcr? ==> TargetSet(gen, h) == {x})
  {
    TargetsOf(gen, h);
    assert x in Targets(gen, h);
    if x in Created(gen, h) {
      var i :| 0 <= i < |Created(gen, h)| && Created(gen, h)[i] == x;
    }
  }

  lemma NewRoundKeeps(gen: Gen, w: World, step: Step, w': World, money: nat, supply: nat)
    requires GenOk(gen) && RunInv(gen, w, money, supply) && step.NewRound? && Next(gen, w, step, w')
    ensures RunInv(gen, w', money, supply)
  {
    hide Neutral, Books, Inv;
    RecordsDeleted(gen, w.ledger, w.seen, step.expired);
    var m1 := w.ledger - step.expired;
    NeutralBooks(w.ledger, m1, w.succeeded, w.redeemed, Left(w, money), supply);
    DeletionKeeps(gen, m1, w.seen, step.round);
    DeletionNeutral(gen, m1, w.seen, step.round);
    NeutralBooks(m1, w'.ledger, w.succeeded, w.redeemed, Left(w, money), supply);
  }

  // ----- fee credit -----

  /** Releasing a transaction that does nothing leaves the value and the owner of a bill as they were. */
  lemma NopReleased(gen: Gen, auth: Auth, m: Ledger, seen: set<Tx>, tx: Tx, id: UnitId, round: nat)
    requires GenOk(gen) && Inv(gen, m, seen) && MayUse(gen, auth, m, tx, id, round)
    ensures var m1 := Unlock(gen, auth, m, tx, id, round).value;
      BillAt(m1, id).value.value == BillAt(m, id).value.value && BillAt(m1, id).value.owner == BillAt(m, id).value.owner
  {
    if Held(m, id).Some? {
      var h := Held(m, id).value;
      assert LockOk(gen, m, seen, id);
      TargetsOf(gen, h);
      assert id == h.unitId;
      Store.OneAction(m, Store.UpdateUnitData(h.unitId, Counted));
    }
  }

  /** The books after a bill of another value. */
  lemma RevaluedBooks(m: Ledger, id: UnitId, value: nat, succeeded: set<Tx>, redeemed: set<Tx>, money: nat,
                      money': nat, supply: nat)
    requires BillAt(m, id).Some? && id != DC_SUPPLY && Books(m, succeeded, redeemed, money, supply)
    requires money' + BillAt(m, id).value.value == money + value && money' < TWO64
    ensures Books(Revalued(m, id, value), succeeded, redeemed, money', supply)
  {
    var m' := Revalued(m, id, value);
    TotalChange(Bills, m, m', {id});
    SumOfOne(Bills, m, id);
    SumOfOne(Bills, m', id);
    forall t ensures Total(Tokens(t), m') == Total(Tokens(t), m) {
      TotalChange(Tokens(t), m, m', {id});
      SumOfOne(Tokens(t), m, id);
      SumOfOne(Tokens(t), m', id);
    }
    StillSpent(m, m', redeemed);
  }

  lemma RevaluedKeeps(gen: Gen, m: Ledger, seen: set<Tx>, id: UnitId, value: nat)
    requires Inv(gen, m, seen) && BillAt(m, id).Some? && id != DC_SUPPLY && Held(m, id).None?
    ensures Inv(gen, Revalued(m, id, value), seen)
  {
    UnlockedClosed(gen, m, seen, {id});
    ChangeKeeps(gen, m, Revalued(m, id, value), seen, seen, {id});
  }

  /** Money that leaves the bills as fee credit, or comes back, keeps locks and books. */
  lemma FeeCreditKeeps(gen: Gen, w: World, step: Step, w': World, money: nat, supply: nat)
    requires GenOk(gen) && RunInv(gen, w, money, supply) && (step.Credit? || step.Reclaim?) && Next(gen, w, step, w')
    ensures RunInv(gen, w', money, supply)
  {
    hide Neutral, Books, Inv, Unlock, SameOutside, OnlyReleases, GenOk;
    var m, id, left, left' := w.ledger, step.id, Left(w, money), Left(w', money);
    var m1 := Unlock(gen, step.auth, m, step.tx, id, step.round).value;
    BooksBounded(m, w.succeeded, w.redeemed, left, supply);
    NopReleased(gen, step.auth, m, w.seen, step.tx, id, step.round);
    UnlockNeutral(gen, step.auth, m, w.seen, step.tx, id, step.round);
    UnlockKeeps(gen, step.auth, m, w.seen, step.tx, id, step.round);
    NeutralBooks(m, m1, w.succeeded, w.redeemed, left, supply);
    NotTheSupply(gen, step.auth, m, w.seen, step.tx, id, step.round);
    var v := BillAt(m1, id).value.value;
    BillInTotal(m1, w.succeeded, w.redeemed, left, supply, id);
    var value := if step.Credit? then Sub64(v, step.amount) else Add64(v, step.amount);
    RevaluedBooks(m1, id, value, w.succeeded, w.redeemed, left, left', supply);
    RevaluedKeeps(gen, m1, w.seen, id, value);
    var m2 := Revalued(m1, id, value);
    AlikeNeutral(m2, w'.ledger);
    NeutralBooks(m2, w'.ledger, w.succeeded, w.redeemed, left', supply);
    AlikeKeeps(gen, m2, w'.ledger, w.seen);
  }

  lemma NotTheSupply(gen: Gen, auth: Auth, m: Ledger, seen: set<Tx>, tx: Tx, id: UnitId, round: nat)
    requires Inv(gen, m, seen) && MayUse(gen, auth, m, tx, id, round)
    ensures id != DC_SUPPLY
  {
  }

  lemma BillInTotal(m: Ledger, succeeded: set<Tx>, redeemed: set<Tx>, money: nat, supply: nat, id: UnitId)
    requires Books(m, succeeded, redeemed, money, supply) && BillAt(m, id).Some?
    ensures BillAt(m, id).value.value <= money < TWO64
  {
    TotalParts(Bills, m, {id});
    SumOfOne(Bills, m, id);
  }

  // ----- theorems -----

  ghost predicate Start(gen: Gen, w: World, money: nat, supply: nat)
  {
    && w.seen == {} && w.succeeded == {} && w.redeemed == {} && w.credited == 0 && w.reclaimed == 0
    && SupplyOk(w.ledger) && ValueAt(Bills, w.ledger, DC_SUPPLY) == supply && Total(Bills, w.ledger) == money < TWO64
    && (forall id :: id in w.ledger ==>
        w.ledger[id].lock.None? && w.ledger[id].deletionRound == 0 && TokenAt(w.ledger, id).None?)
    && (forall t, i :: gen(t, i) !in w.ledger)
  }

  ghost predicate IsRun(gen: Gen, worlds: seq<World>, steps: seq<Step>, money: nat, supply: nat)
  {
    && |worlds| == |steps| + 1 && Start(gen, worlds[0], money, supply)
    && forall i :: 0 <= i < |steps| ==> Next(gen, worlds[i], steps[i], worlds[i + 1])
  }

  lemma StartOk(gen: Gen, w: World, money: nat, supply: nat)
    requires Start(gen, w, money, supply)
    ensures RunInv(gen, w, money, supply)
  {
    forall t ensures Total(Tokens(t), w.ledger) == 0 {
      forall id ensures ValueAt(Tokens(t), w.ledger, id) == 0 {
        assert id in w.ledger ==> TokenAt(w.ledger, id).None?;
      }
      SumOfNothing(Tokens(t), w.ledger, w.ledger.Keys);
    }
  }

  /** In every run: locks are all or nothing, all bills and the fee credit add up to the money there was at
      the start, the collector covers all dust not yet swapped, and tokens and unredeemed burns add up to the mints. */
  lemma {:induction false} RunInvariant(gen: Gen, worlds: seq<World>, steps: seq<Step>, money: nat, supply: nat, i: nat)
    requires GenOk(gen) && IsRun(gen, worlds, steps, money, supply) && i < |worlds|
    ensures RunInv(gen, worlds[i], money, supply)
  {
    hide RunInv, Next, Start, GenOk;
    if i == 0 {
      StartOk(gen, worlds[0], money, supply);
    } else {
      RunInvariant(gen, worlds, steps, money, supply, i - 1);
      match steps[i - 1]
      case Success(_, _, _) => SuccessKeeps(gen, worlds[i - 1], steps[i - 1], worlds[i], money, supply);
      case Failure(_) => FailureKeeps(gen, worlds[i - 1], steps[i - 1], worlds[i], money, supply);
      case NewRound(_, _) => NewRoundKeeps(gen, worlds[i - 1], steps[i - 1], worlds[i], money, supply);
      case _ => FeeCreditKeeps(gen, worlds[i - 1], steps[i - 1], worlds[i], money, supply);
    }
  }

  /** What is left to redeem is in the collector's hands; what is left of the burns makes up the tokens. */
  lemma Covered(gen: Gen, worlds: seq<World>, steps: seq<Step>, money: nat, supply: nat, i: nat, t: UnitId)
    requires GenOk(gen) && IsRun(gen, worlds, steps, money, supply) && i < |worlds|
    ensures var w := worlds[i];
      && Total(Bills, w.ledger) + w.credited == money + w.reclaimed
      && ValueAt(Bills, w.ledger, DC_SUPPLY) == supply + TxSum(Dust, w.succeeded - w.redeemed)
      && Total(Tokens(t), w.ledger) + TxSum(Burnt(t), w.succeeded - w.redeemed) == TxSum(Minted(t), w.succeeded)
  {
    var w := worlds[i];
    RunInvariant(gen, worlds, steps, money, supply, i);
    forall k: TxKind ensures TxSum(k, w.succeeded) == TxSum(k, w.redeemed) + TxSum(k, w.succeeded - w.redeemed) {
      TxSumUnion(k, w.redeemed, w.succeeded - w.redeemed);
      assert w.redeemed + (w.succeeded - w.redeemed) == w.succeeded;
    }
  }

  lemma {:induction false} RedeemedStays(gen: Gen, worlds: seq<World>, steps: seq<Step>, money: nat, supply: nat,
                                         i: nat, j: nat)
    requires IsRun(gen, worlds, steps, money, supply) && i <= j < |worlds|
    ensures worlds[i].redeemed <= worlds[j].redeemed
    decreases j - i
  {
    if i < j {
      RedeemedStays(gen, worlds, steps, money, supply, i, j - 1);
      assert Next(gen, worlds[j - 1], steps[j - 1], worlds[j]);
    }
  }

  /** A record of collected dust or burned tokens is redeemed at most once in a run, by a transaction that
      came after it. */
  lemma RedeemedAtMostOnce(gen: Gen, worlds: seq<World>, steps: seq<Step>, money: nat, supply: nat, i: nat, j: nat,
                           r: Tx)
    requires GenOk(gen) && IsRun(gen, worlds, steps, money, supply) && i < j < |steps| && steps[i].Success?
    requires steps[j].Success?
    requires r in Redeems(steps[i].tx)
    ensures r in worlds[i].succeeded && r !in Redeems(steps[j].tx)
  {
    RunInvariant(gen, worlds, steps, money, supply, i);
    RunInvariant(gen, worlds, steps, money, supply, j);
    SuccessKeeps(gen, worlds[i], steps[i], worlds[i + 1], money, supply);
    SuccessKeeps(gen, worlds[j], steps[j], worlds[j + 1], money, supply);
    RedeemedStays(gen, worlds, steps, money, supply, i + 1, j);
  }
}
