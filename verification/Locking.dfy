/** State locks.  A held transaction keeps its lock on all of its units or on none, and what was checked
    when it was put on hold stays true until it is released. */
module Locking {
  import opened Units
  import opened Transactions

  // ----- hypotheses on generated identifiers -----

  /** Identifiers made for different transactions, or different outputs of one, are different, and none
      is the dust collector's. */
  ghost predicate GenOk(gen: Gen)
  {
    && (forall t, i, t', j :: gen(t, i) == gen(t', j) ==> t == t' && i == j)
    && (forall t, i :: gen(t, i) != DC_SUPPLY)
  }

  /** Only transactions that were processed have made units. */
  ghost predicate MadeBySeen(gen: Gen, m: Ledger, seen: set<Tx>)
  {
    forall t, i :: gen(t, i) in m ==> t in seen
  }

  // ----- invariant -----

  predicate Lockable(tx: Tx)
  {
    tx.stateLock.Some? && !tx.attrs.TransDC? && !tx.attrs.SwapDC? && !tx.attrs.BurnFT? && !tx.attrs.JoinFT?
  }

  /** What validation found and execution relies on. */
  predicate StillValid(gen: Gen, m: Ledger, tx: Tx)
  {
    match tx.attrs
    case Transfer(_, _, _) => BillAt(m, tx.unitId).Some?
    case Split(ts, _) =>
      && BillAt(m, tx.unitId).Some? && SumOf(ts) < BillAt(m, tx.unitId).value.value
      && forall i :: 0 <= i < |ts| ==> gen(tx, i) in m && m[gen(tx, i)].data == None
    case TransferFT(_, _, _, _) => TokenAt(m, tx.unitId).Some?
    case SplitFT(_, _, v, _) =>
      TokenAt(m, tx.unitId).Some? && v < TokenAt(m, tx.unitId).value.value && gen(tx, 0) in m &&
      m[gen(tx, 0)].data == None
    case MintFT(_, _, _) => tx.unitId in m && m[tx.unitId].data == None
    case _ => true
  }

  /** A transaction on hold: every one of its units carries its lock. */
  ghost predicate OnHold(gen: Gen, m: Ledger, tx: Tx)
  {
    (forall id :: id in Targets(gen, tx) ==> id in m && m[id].lock == Some(tx)) && StillValid(gen, m, tx)
  }

  ghost predicate LockOk(gen: Gen, m: Ledger, seen: set<Tx>, id: UnitId)
    requires id in m && m[id].lock.Some?
  {
    var tx := m[id].lock.value;
    tx in seen && Lockable(tx) && id in Targets(gen, tx) && OnHold(gen, m, tx)
  }

  /** Only dummies are ever marked for deletion, and only a transaction that does nothing can lock one. */
  predicate MarkOk(u: Unit)
  {
    u.deletionRound > 0 ==> u.data.None? && (u.lock.Some? ==> u.lock.value.attrs.Nop?)
  }

  predicate SupplyOk(m: Ledger)
  {
    && BillAt(m, DC_SUPPLY).Some? && BillAt(m, DC_SUPPLY).value.owner == DC_PREDICATE
    && m[DC_SUPPLY].lock.None? && m[DC_SUPPLY].deletionRound == 0
  }

  ghost predicate Inv(gen: Gen, m: Ledger, seen: set<Tx>)
  {
    && MadeBySeen(gen, m, seen) && SupplyOk(m)
    && (forall id :: id in m && m[id].lock.Some? ==> LockOk(gen, m, seen, id))
    && (forall id :: id in m ==> MarkOk(m[id]))
  }

  /** All or nothing: the units that carry a transaction's lock are all of its units, or none. */
  lemma AllOrNothing(gen: Gen, m: Ledger, seen: set<Tx>, tx: Tx)
    requires Inv(gen, m, seen)
    ensures var locked := set id | id in m && m[id].lock == Some(tx); locked == {} || locked == TargetSet(gen, tx)
  {
    var locked := set id | id in m && m[id].lock == Some(tx);
    if id :| id in m && m[id].lock == Some(tx) {
      assert LockOk(gen, m, seen, id);
      forall x | x in TargetSet(gen, tx) ensures x in locked {
        assert x in Targets(gen, tx);
      }
      forall x | x in locked ensures x in TargetSet(gen, tx) {
        assert LockOk(gen, m, seen, x);
      }
    } else {
      assert forall x :: x !in locked;
    }
  }

  // ----- changing some units and leaving the others -----

  /** The same but for the log and for a fee credit balance. */
  predicate Alike(u: Unit, v: Unit)
  {
    u.lock == v.lock && u.deletionRound == v.deletionRound &&
    (u.data == v.data || (u.data.Some? && v.data.Some? && u.data.value.Fcr? && v.data.value.Fcr?))
  }

  ghost predicate SameOutside(m: Ledger, m': Ledger, ids: set<UnitId>)
  {
    forall id :: id !in ids ==> (id in m <==> id in m') && (id in m ==> Alike(m[id], m'[id]))
  }

  /** No transaction on hold has units both in and out of the set. */
  ghost predicate Closed(gen: Gen, m: Ledger, ids: set<UnitId>)
  {
    forall id :: id in m && id !in ids && m[id].lock.Some? ==> TargetSet(gen, m[id].lock.value) !! ids
  }

  lemma HoldStays(gen: Gen, m: Ledger, m': Ledger, ids: set<UnitId>, tx: Tx)
    requires SameOutside(m, m', ids) && OnHold(gen, m, tx) && TargetSet(gen, tx) !! ids
    ensures OnHold(gen, m', tx)
  {
    assert forall id :: id in Targets(gen, tx) ==> id in TargetSet(gen, tx);
    assert tx.unitId == Targets(gen, tx)[0];
    match tx.attrs
    case Split(ts, _) =>
      forall i | 0 <= i < |ts| ensures gen(tx, i) in m' && m'[gen(tx, i)].data == None {
        assert Targets(gen, tx)[i + 1] == gen(tx, i);
      }
    case SplitFT(_, _, _, _) => assert Targets(gen, tx)[1] == gen(tx, 0);
    case _ =>
  }

  lemma LocksStay(gen: Gen, m: Ledger, m': Ledger, seen: set<Tx>, seen': set<Tx>, ids: set<UnitId>)
    requires Inv(gen, m, seen) && seen <= seen' && SameOutside(m, m', ids) && Closed(gen, m, ids)
    requires forall id :: id in ids && id in m' && m'[id].lock.Some? ==> LockOk(gen, m', seen', id)
    ensures forall id :: id in m' && m'[id].lock.Some? ==> LockOk(gen, m', seen', id)
  {
    forall id | id in m' && m'[id].lock.Some? && id !in ids ensures LockOk(gen, m', seen', id) {
      assert Alike(m[id], m'[id]) && LockOk(gen, m, seen, id);
      HoldStays(gen, m, m', ids, m[id].lock.value);
    }
  }

  /** The invariant after a change, from what holds of the changed units. */
  lemma ChangeKeeps(gen: Gen, m: Ledger, m': Ledger, seen: set<Tx>, seen': set<Tx>, ids: set<UnitId>)
    requires Inv(gen, m, seen) && seen <= seen' && SameOutside(m, m', ids) && Closed(gen, m, ids) && SupplyOk(m')
    requires forall id :: id in ids && id in m' && m'[id].lock.Some? ==> LockOk(gen, m', seen', id)
    requires forall id :: id in ids && id in m' ==> MarkOk(m'[id])
    requires forall t, i :: gen(t, i) in ids && gen(t, i) in m' ==> t in seen'
    ensures Inv(gen, m', seen')
  {
    LocksStay(gen, m, m', seen, seen', ids);
    forall t, i | gen(t, i) in m' ensures t in seen' {
      var x := gen(t, i);
      if x !in ids {
        assert x in m <==> x in m';
      }
    }
  }

  /** The units of a transaction on hold form a closed set. */
  lemma HeldClosed(gen: Gen, m: Ledger, seen: set<Tx>, tx: Tx)
    requires Inv(gen, m, seen) && OnHold(gen, m, tx)
    ensures Closed(gen, m, TargetSet(gen, tx))
  {
    forall id | id in m && id !in TargetSet(gen, tx) && m[id].lock.Some?
      ensures TargetSet(gen, m[id].lock.value) !! TargetSet(gen, tx)
    {
      var h := m[id].lock.value;
      assert LockOk(gen, m, seen, id);
      forall x | x in TargetSet(gen, h) ensures x !in TargetSet(gen, tx) {
        assert x in Targets(gen, h) && m[x].lock == Some(h);
        assert x in TargetSet(gen, tx) ==> x in Targets(gen, tx);
      }
    }
  }

  lemma UnlockedClosed(gen: Gen, m: Ledger, seen: set<Tx>, ids: set<UnitId>)
    requires Inv(gen, m, seen) && forall id :: id in ids && id in m ==> m[id].lock.None?
    ensures Closed(gen, m, ids)
  {
    forall id | id in m && id !in ids && m[id].lock.Some? ensures TargetSet(gen, m[id].lock.value) !! ids {
      var h := m[id].lock.value;
      assert LockOk(gen, m, seen, id);
      forall x | x in TargetSet(gen, h) ensures x !in ids {
        assert x in Targets(gen, h) && m[x].lock == Some(h);
      }
    }
  }
}
