/** Every way to process a transaction keeps the lock invariant. */
module LockSafety {
  import opened Units
  import opened Transactions
  import opened Locking
  import opened Effects
  import Store

  // ----- releasing a held transaction -----

  /** A transaction on hold keeps to itself. */
  lemma HeldApart(gen: Gen, m: Ledger, h: Tx)
    requires GenOk(gen) && Lockable(h) && OnHold(gen, m, h)
    ensures Apart(gen, h)
  {
    if h.attrs.Split? {
      assert forall i :: 0 <= i < |h.attrs.targets| ==> gen(h, i) != h.unitId;
    }
  }

  /** What a release leaves behind: the units of the held transaction without locks, all others as they were. */
  ghost predicate Released(gen: Gen, m: Ledger, h: Tx, m': Ledger)
  {
    && m'.Keys == m.Keys && SameOutside(m, m', TargetSet(gen, h))
    && (forall id :: id in TargetSet(gen, h) && id in m' ==> m'[id].lock.None? && MarkOk(m'[id]))
  }

  lemma ReleasedKeeps(gen: Gen, m: Ledger, seen: set<Tx>, h: Tx, m': Ledger)
    requires Inv(gen, m, seen) && OnHold(gen, m, h) && Released(gen, m, h, m')
    ensures Inv(gen, m', seen)
  {
    HeldClosed(gen, m, seen, h);
    assert DC_SUPPLY !in TargetSet(gen, h);
    assert Alike(m[DC_SUPPLY], m'[DC_SUPPLY]);
    ChangeKeeps(gen, m, m', seen, seen, TargetSet(gen, h));
  }

  lemma ExecutedReleases(gen: Gen, m: Ledger, seen: set<Tx>, h: Tx)
    requires GenOk(gen) && Inv(gen, m, seen) && Lockable(h) && OnHold(gen, m, h) && Execute(gen, m, h, 0).Some?
    ensures Released(gen, m, h, Release(Execute(gen, m, h, 0).value, Targets(gen, h)))
  {
    hide Execute;
    HeldApart(gen, m, h);
    ExecuteEffect(gen, m, h, 0);
    TargetsOf(gen, h);
    var m1 := Execute(gen, m, h, 0).value;
    var m2 := Release(m1, Targets(gen, h));
    forall id | id in TargetSet(gen, h) ensures id in m && id in m1 && MarkOk(m2[id]) {
      assert id in Targets(gen, h);
      if id != h.unitId {
        var i :| 0 <= i < |Created(gen, h)| && Created(gen, h)[i] == id;
      } else {
        assert MarkOk(m[id]);
      }
    }
    assert forall id :: id in m2 <==> id in m;
    assert forall id :: id in m && id !in TargetSet(gen, h) ==> id !in Targets(gen, h) && m2[id] == m[id];
  }

  lemma AbandonedReleases(gen: Gen, m: Ledger, seen: set<Tx>, h: Tx, round: nat)
    requires Inv(gen, m, seen) && OnHold(gen, m, h) && Abandon(m, Targets(gen, h), round).Some?
    ensures Released(gen, m, h, Release(Abandon(m, Targets(gen, h), round).value, Targets(gen, h)))
  {
    var m1 := Abandon(m, Targets(gen, h), round).value;
    var m2 := Release(m1, Targets(gen, h));
    forall id | id in TargetSet(gen, h) ensures id in m2 && MarkOk(m2[id]) {
      assert id in Targets(gen, h) && MarkOk(m[id]);
    }
  }

  /** Locks only go away. */
  ghost predicate OnlyReleases(m: Ledger, m': Ledger)
  {
    m'.Keys == m.Keys && forall id :: id in m ==> m'[id].lock.None? || m'[id].lock == m[id].lock
  }

  /** Releasing a unit keeps the invariant, frees that unit, and leaves the locks of every other
      transaction alone. */
  lemma UnlockKeeps(gen: Gen, auth: Auth, m: Ledger, seen: set<Tx>, tx: Tx, id: UnitId, round: nat)
    requires GenOk(gen) && Inv(gen, m, seen) && Unlock(gen, auth, m, tx, id, round).Some?
    ensures var m' := Unlock(gen, auth, m, tx, id, round).value;
      && Inv(gen, m', seen) && OnlyReleases(m, m') && Held(m', id).None?
      && (forall x :: x in m && m[x].lock.Some? && m[x].lock != Held(m, id) ==> m'[x].lock == m[x].lock)
  {
    if Held(m, id).Some? {
      hide Execute, Abandon, Release, OnHold;
      var h := Held(m, id).value;
      assert LockOk(gen, m, seen, id);
      if tx.stateUnlock.value.kind.ToExecute? {
        ExecutedReleases(gen, m, seen, h);
      } else {
        AbandonedReleases(gen, m, seen, h, round);
      }
      var m' := Unlock(gen, auth, m, tx, id, round).value;
      ReleasedKeeps(gen, m, seen, h, m');
      OwnUnits(gen, m, seen, h);
    }
  }

  /** Every unit of a transaction on hold carries its lock and no other. */
  lemma OwnUnits(gen: Gen, m: Ledger, seen: set<Tx>, h: Tx)
    requires Inv(gen, m, seen) && OnHold(gen, m, h)
    ensures forall x :: x in TargetSet(gen, h) ==> x in m && m[x].lock == Some(h)
    ensures forall x :: x in m && m[x].lock == Some(h) ==> x in TargetSet(gen, h)
  {
    forall x | x in TargetSet(gen, h) ensures x in m && m[x].lock == Some(h) {
      assert x in Targets(gen, h);
    }
    forall x | x in m && m[x].lock == Some(h) ensures x in TargetSet(gen, h) {
      assert LockOk(gen, m, seen, x);
    }
  }

  lemma ReleasesCompose(m: Ledger, m1: Ledger, m2: Ledger)
    requires OnlyReleases(m, m1) && OnlyReleases(m1, m2)
    ensures OnlyReleases(m, m2)
    ensures forall id :: Held(m1, id).None? ==> Held(m2, id).None?
  {
  }

  lemma {:induction false} UnlockAllKeeps(gen: Gen, auth: Auth, m: Ledger, seen: set<Tx>, tx: Tx, ids: seq<UnitId>,
                                          round: nat)
    requires GenOk(gen) && Inv(gen, m, seen) && UnlockAll(gen, auth, m, tx, ids, round).Some?
    ensures var m' := UnlockAll(gen, auth, m, tx, ids, round).value;
      Inv(gen, m', seen) && OnlyReleases(m, m') && forall i :: 0 <= i < |ids| ==> Held(m', ids[i]).None?
    decreases |ids|
  {
    hide Inv, Unlock, OnlyReleases, Held, GenOk;
    if ids == [] {
      ReleasesNothing(m);
    } else {
      var n := |ids| - 1;
      UnlockAllKeeps(gen, auth, m, seen, tx, ids[..n], round);
      var m1 := UnlockAll(gen, auth, m, tx, ids[..n], round).value;
      UnlockKeeps(gen, auth, m1, seen, tx, ids[n], round);
      ReleasesCompose(m, m1, UnlockAll(gen, auth, m, tx, ids, round).value);
    }
  }

  lemma ReleasesNothing(m: Ledger)
    ensures OnlyReleases(m, m)
  {
  }

  // ----- validated transactions -----

  /** What validation says about the transaction's own unit. */
  lemma ValidUnit(gen: Gen, auth: Auth, succeeded: set<Tx>, m: Ledger, seen: set<Tx>, tx: Tx)
    requires GenOk(gen) && AuthOk(auth) && Inv(gen, m, seen) && tx !in seen
    requires Validate(gen, auth, succeeded, m, tx).Some?
    ensures tx.unitId != DC_SUPPLY && (tx.attrs.MintFT? <==> tx.unitId !in m)
    ensures tx.attrs.MintFT? ==> tx.unitId == gen(tx, 0)
    ensures tx.unitId in m && m[tx.unitId].data.None? ==> tx.attrs.Nop?
    ensures (forall i :: 0 <= i < |Created(gen, tx)| ==> Created(gen, tx)[i] !in m) && Apart(gen, tx)
    ensures tx.stateLock.Some? ==> Lockable(tx)
  {
    assert BillAt(m, DC_SUPPLY).value.owner == DC_PREDICATE;
    forall i | 0 <= i < |Created(gen, tx)| ensures Created(gen, tx)[i] !in m {
      assert Created(gen, tx)[i] == gen(tx, i);
    }
  }

  lemma ExecuteKeeps(gen: Gen, auth: Auth, succeeded: set<Tx>, m: Ledger, seen: set<Tx>, tx: Tx)
    requires GenOk(gen) && AuthOk(auth) && Inv(gen, m, seen) && tx !in seen
    requires Validate(gen, auth, succeeded, m, tx).Some?
    requires forall id :: id in Targets(gen, tx) ==> Held(m, id).None?
    requires Execute(gen, m, tx, Validate(gen, auth, succeeded, m, tx).value).Some?
    ensures Inv(gen, Execute(gen, m, tx, Validate(gen, auth, succeeded, m, tx).value).value, seen + {tx})
  {
    hide Execute, Validate;
    var amount := Validate(gen, auth, succeeded, m, tx).value;
    var m' := Execute(gen, m, tx, amount).value;
    ValidUnit(gen, auth, succeeded, m, seen, tx);
    ExecuteEffect(gen, m, tx, amount);
    TargetsOf(gen, tx);
    EffectKeeps(gen, m, seen, tx, amount, m');
  }

  lemma EffectKeeps(gen: Gen, m: Ledger, seen: set<Tx>, tx: Tx, amount: nat, m': Ledger)
    requires GenOk(gen) && Inv(gen, m, seen) && IsEffect(gen, m, tx, amount, m') && Apart(gen, tx)
    requires forall id :: id in Targets(gen, tx) ==> Held(m, id).None?
    requires tx.unitId != DC_SUPPLY && (tx.attrs.MintFT? ==> tx.unitId == gen(tx, 0))
    requires forall i :: 0 <= i < |Created(gen, tx)| ==> Created(gen, tx)[i] !in m
    ensures Inv(gen, m', seen + {tx})
  {
    TargetsOf(gen, tx);
    var ids := Touched(gen, tx);
    forall id | id in ids && id in m ensures m[id].lock.None? {
      assert id in TargetSet(gen, tx) ==> id in Targets(gen, tx);
      assert id in Targets(gen, tx) ==> Held(m, id).None?;
    }
    UnlockedClosed(gen, m, seen, ids);
    TouchedOk(gen, m, seen, tx, amount, m');
    ChangeKeeps(gen, m, m', seen, seen + {tx}, ids);
  }

  lemma TouchedOk(gen: Gen, m: Ledger, seen: set<Tx>, tx: Tx, amount: nat, m': Ledger)
    requires GenOk(gen) && Inv(gen, m, seen) && IsEffect(gen, m, tx, amount, m') && Apart(gen, tx)
    requires forall id :: id in Touched(gen, tx) && id in m ==> m[id].lock.None?
    requires tx.unitId != DC_SUPPLY && (tx.attrs.MintFT? ==> tx.unitId == gen(tx, 0))
    requires forall i :: 0 <= i < |Created(gen, tx)| ==> Created(gen, tx)[i] !in m
    ensures forall id :: id in Touched(gen, tx) && id in m' ==> m'[id].lock.None? && MarkOk(m'[id])
    ensures forall t, i :: gen(t, i) in Touched(gen, tx) && gen(t, i) in m' ==> t in seen + {tx}
    ensures SupplyOk(m')
  {
    TargetsOf(gen, tx);
    forall id | id in Touched(gen, tx) && id in m' ensures m'[id].lock.None? && MarkOk(m'[id]) {
      if id == tx.unitId {
        assert id in m ==> MarkOk(m[id]);
      } else if id in Created(gen, tx) {
        var i :| 0 <= i < |Created(gen, tx)| && Created(gen, tx)[i] == id;
      }
    }
    forall t, i | gen(t, i) in Touched(gen, tx) && gen(t, i) in m' ensures t in seen + {tx} {
      var id := gen(t, i);
      if id in Created(gen, tx) {
        var j :| 0 <= j < |Created(gen, tx)| && Created(gen, tx)[j] == id;
        assert id == gen(tx, j);
      }
    }
    assert forall j :: 0 <= j < |Created(gen, tx)| ==> Created(gen, tx)[j] == gen(tx, j);
    assert UsesSupply(tx) || DC_SUPPLY !in Touched(gen, tx);
  }

  // ----- putting a transaction on hold -----

  /** A transaction is put on hold exactly when none of its units is locked; it then holds all of them. */
  lemma {:induction false} LockAllEffect(m: Ledger, tx: Tx, ids: seq<UnitId>)
    requires forall i, j :: 0 <= i < j < |ids| ==> ids[i] != ids[j]
    ensures LockAll(m, tx, ids).Some? <==> forall i :: 0 <= i < |ids| ==> Held(m, ids[i]).None?
    ensures LockAll(m, tx, ids).Some? ==> IsLocked(m, tx, ids, LockAll(m, tx, ids).value)
    decreases |ids|
  {
    if ids != [] {
      var n := |ids| - 1;
      LockAllEffect(m, tx, ids[..n]);
      assert ids[n] !in ids[..n];
      if LockAll(m, tx, ids[..n]).Some? {
        assert Held(LockAll(m, tx, ids[..n]).value, ids[n]) == Held(m, ids[n]);
      }
    }
  }

  ghost predicate IsLocked(m: Ledger, tx: Tx, ids: seq<UnitId>, m': Ledger)
  {
    && (forall id :: id !in ids ==> (id in m <==> id in m') && (id in m ==> m'[id] == m[id]))
    && (forall id :: id in ids ==>
        id in m' && m'[id] == (if id in m then m[id] else Store.NewUnit(None)).(lock := Some(tx)))
  }

  lemma DistinctTargets(gen: Gen, tx: Tx)
    requires Apart(gen, tx)
    ensures forall i, j :: 0 <= i < j < |Targets(gen, tx)| ==> Targets(gen, tx)[i] != Targets(gen, tx)[j]
  {
    forall i, j | 0 <= i < j < |Targets(gen, tx)| ensures Targets(gen, tx)[i] != Targets(gen, tx)[j] {
      assert Targets(gen, tx)[j] == Created(gen, tx)[j - 1] == gen(tx, j - 1);
      if i > 0 {
        assert Targets(gen, tx)[i] == Created(gen, tx)[i - 1] == gen(tx, i - 1);
      }
    }
  }

  lemma NowOnHold(gen: Gen, auth: Auth, succeeded: set<Tx>, m: Ledger, seen: set<Tx>, tx: Tx, m': Ledger)
    requires GenOk(gen) && AuthOk(auth) && Inv(gen, m, seen) && tx !in seen
    requires Validate(gen, auth, succeeded, m, tx).Some?
    requires IsLocked(m, tx, Targets(gen, tx), m')
    ensures OnHold(gen, m', tx)
  {
    ValidUnit(gen, auth, succeeded, m, seen, tx);
    assert Targets(gen, tx)[0] == tx.unitId;
    match tx.attrs
    case Split(ts, _) =>
      forall i | 0 <= i < |ts| ensures gen(tx, i) in m' && m'[gen(tx, i)].data == None {
        assert Targets(gen, tx)[i + 1] == Created(gen, tx)[i] == gen(tx, i);
      }
    case SplitFT(_, _, _, _) =>
      assert Targets(gen, tx)[1] == Created(gen, tx)[0] == gen(tx, 0);
    case _ =>
  }

  lemma LockKeeps(gen: Gen, auth: Auth, succeeded: set<Tx>, m: Ledger, seen: set<Tx>, tx: Tx)
    requires GenOk(gen) && AuthOk(auth) && Inv(gen, m, seen) && tx !in seen
    requires Validate(gen, auth, succeeded, m, tx).Some?
    requires forall id :: id in Targets(gen, tx) ==> Held(m, id).None?
    requires tx.stateLock.Some? && LockAll(m, tx, Targets(gen, tx)).Some?
    ensures Inv(gen, LockAll(m, tx, Targets(gen, tx)).value, seen + {tx})
  {
    hide Validate, LockAll;
    var m' := LockAll(m, tx, Targets(gen, tx)).value;
    ValidUnit(gen, auth, succeeded, m, seen, tx);
    DistinctTargets(gen, tx);
    LockAllEffect(m, tx, Targets(gen, tx));
    NowOnHold(gen, auth, succeeded, m, seen, tx, m');
    LockedKeeps(gen, m, seen, tx, m');
  }

  lemma LockedKeeps(gen: Gen, m: Ledger, seen: set<Tx>, tx: Tx, m': Ledger)
    requires GenOk(gen) && Inv(gen, m, seen) && IsLocked(m, tx, Targets(gen, tx), m') && OnHold(gen, m', tx)
    requires Lockable(tx)
    requires forall id :: id in Targets(gen, tx) ==> Held(m, id).None?
    requires tx.unitId != DC_SUPPLY && (tx.attrs.MintFT? <==> tx.unitId !in m)
    requires (tx.attrs.MintFT? ==> tx.unitId == gen(tx, 0))
    requires tx.unitId in m && m[tx.unitId].data.None? ==> tx.attrs.Nop?
    requires forall i :: 0 <= i < |Created(gen, tx)| ==> Created(gen, tx)[i] !in m
    ensures Inv(gen, m', seen + {tx})
  {
    var ids := TargetSet(gen, tx);
    TargetsOf(gen, tx);
    forall id | id in ids ensures (id in m ==> m[id].lock.None?) && LockOk(gen, m', seen + {tx}, id) && MarkOk(m'[id]) {
      assert id in Targets(gen, tx) && Held(m, id).None?;
      if id in m {
        assert MarkOk(m[id]);
      }
    }
    UnlockedClosed(gen, m, seen, ids);
    forall t, i | gen(t, i) in ids ensures t in seen + {tx} {
      if gen(t, i) in Created(gen, tx) {
        var j :| 0 <= j < |Created(gen, tx)| && Created(gen, tx)[j] == gen(t, i);
        assert Created(gen, tx)[j] == gen(tx, j);
      }
    }
    assert forall j :: 0 <= j < |Created(gen, tx)| ==> Created(gen, tx)[j] == gen(tx, j);
    assert DC_SUPPLY !in Targets(gen, tx);
    ChangeKeeps(gen, m, m', seen, seen + {tx}, ids);
  }

  // ----- whole transactions and rounds -----

  /** Processing a new transaction keeps the lock invariant. */
  lemma ProcessKeeps(gen: Gen, auth: Auth, succeeded: set<Tx>, m: Ledger, seen: set<Tx>, tx: Tx, round: nat)
    requires GenOk(gen) && AuthOk(auth) && Inv(gen, m, seen) && tx !in seen
    requires Process(gen, auth, succeeded, m, tx, round).Some?
    ensures Inv(gen, Process(gen, auth, succeeded, m, tx, round).value, seen + {tx})
  {
    hide Inv, Execute, Validate, LockAll, UnlockAll;
    UnlockAllKeeps(gen, auth, m, seen, tx, Targets(gen, tx), round);
    var m1 := UnlockAll(gen, auth, m, tx, Targets(gen, tx), round).value;
    if tx.stateLock.Some? {
      LockKeeps(gen, auth, succeeded, m1, seen, tx);
    } else {
      ExecuteKeeps(gen, auth, succeeded, m1, seen, tx);
    }
  }

  /** So does the deletion of expired units at the start of a round. */
  lemma DeletionKeeps(gen: Gen, m: Ledger, seen: set<Tx>, round: nat)
    requires Inv(gen, m, seen)
    ensures Inv(gen, DeleteExpired(m, round), seen)
  {
    var m' := DeleteExpired(m, round);
    var gone := set id | id in m && id !in m';
    forall id | id in m && id !in gone && m[id].lock.Some? ensures TargetSet(gen, m[id].lock.value) !! gone {
      var h := m[id].lock.value;
      assert LockOk(gen, m, seen, id);
      forall x | x in TargetSet(gen, h) ensures x !in gone {
        assert x in Targets(gen, h) && MarkOk(m[x]);
        assert h.attrs.Nop? ==> Targets(gen, h) == [h.unitId];
      }
    }
    ChangeKeeps(gen, m, m', seen, seen, gone);
  }

  /** Fees and log entries do not touch locks. */
  lemma AlikeKeeps(gen: Gen, m: Ledger, m': Ledger, seen: set<Tx>)
    requires Inv(gen, m, seen) && SameOutside(m, m', {})
    ensures Inv(gen, m', seen)
  {
    assert Alike(m[DC_SUPPLY], m'[DC_SUPPLY]);
    ChangeKeeps(gen, m, m', seen, seen, {});
  }
}
