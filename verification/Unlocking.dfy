/** Who decides about a transaction on hold, and what becomes of it: it takes effect exactly when its
    execution predicate is satisfied, and is rolled back exactly when its rollback predicate is; otherwise
    it keeps all its locks, and whatever needs its units fails. */
module Unlocking {
  import opened Units
  import opened Transactions
  import opened Locking
  import opened Effects
  import opened Conservation
  import opened LockSafety
  import opened Outcomes
  import Runs
  import Store

  // ----- one lock -----

  /** The transaction asks for the execution of the one on hold, and satisfies its execution predicate. */
  predicate ByExecution(auth: Auth, tx: Tx, h: Tx)
  {
    && tx.stateUnlock.Some? && tx.stateUnlock.value.kind == ToExecute
    && h.stateLock.Some? && auth(h.stateLock.value.execution, tx)
  }

  predicate ByRollback(auth: Auth, tx: Tx, h: Tx)
  {
    && tx.stateUnlock.Some? && tx.stateUnlock.value.kind == ToRollback
    && h.stateLock.Some? && auth(h.stateLock.value.rollback, tx)
  }

  ghost predicate IsHeld(m: Ledger, h: Tx)
  {
    exists x :: x in m && m[x].lock == Some(h)
  }

  /** The transaction took effect on its units, and none of them is locked any more. */
  ghost predicate TookEffect(gen: Gen, m: Ledger, h: Tx, m': Ledger)
  {
    && h.unitId in m && h.unitId in m' && OwnOutcome(h, m[h.unitId].data, m'[h.unitId].data)
    && m'[h.unitId] == m[h.unitId].(data := m'[h.unitId].data, lock := None)
    && CreatedOutcome(gen, m, h, m')
  }

  /** Its units are as before and unlocked; those without data are deleted at the start of the next round. */
  ghost predicate RolledBack(gen: Gen, m: Ledger, h: Tx, round: nat, m': Ledger)
  {
    forall id :: id in TargetSet(gen, h) ==>
      id in m && id in m' && m'[id].data == m[id].data && m'[id].lock.None? && m'[id].logs == m[id].logs &&
      m'[id].deletionRound == if m[id].data.None? then round + 1 else m[id].deletionRound
  }

  ghost predicate SameOn(m: Ledger, m': Ledger, ids: set<UnitId>)
  {
    forall id :: id in ids ==> (id in m <==> id in m') && (id in m ==> m'[id] == m[id])
  }

  ghost predicate SameBut(m: Ledger, m': Ledger, ids: set<UnitId>)
  {
    forall id :: id !in ids ==> (id in m <==> id in m') && (id in m ==> m'[id] == m[id])
  }

  /** A rolled back transaction's units without data are there until the round is over, and gone then. */
  lemma RolledBackGone(gen: Gen, m: Ledger, h: Tx, round: nat, m': Ledger, later: nat)
    requires RolledBack(gen, m, h, round, m') && forall x :: x in TargetSet(gen, h) && x in m ==> MarkOk(m[x])
    ensures forall x :: x in TargetSet(gen, h) ==>
      (x in DeleteExpired(m', later) <==> x in m && (m[x].data.Some? || later <= round))
  {
    forall x | x in TargetSet(gen, h)
      ensures x in DeleteExpired(m', later) <==> x in m && (m[x].data.Some? || later <= round)
    {
      assert MarkOk(m[x]);
    }
  }

  lemma HeldFacts(gen: Gen, m: Ledger, seen: set<Tx>, h: Tx)
    requires Inv(gen, m, seen) && IsHeld(m, h)
    ensures h in seen && Lockable(h) && OnHold(gen, m, h)
    ensures forall x :: x in TargetSet(gen, h) ==> x in m && m[x].lock == Some(h)
    ensures forall x :: x in m && m[x].lock == Some(h) ==> x in TargetSet(gen, h)
  {
    var x :| x in m && m[x].lock == Some(h);
    assert LockOk(gen, m, seen, x);
    OwnUnits(gen, m, seen, h);
  }

  /** A transaction on hold can be executed, unless it is a mint. */
  lemma HeldExecutes(gen: Gen, m: Ledger, h: Tx)
    requires GenOk(gen) && Bounded(m) && Lockable(h) && OnHold(gen, m, h)
    ensures Execute(gen, m, h, 0).Some? <==> !h.attrs.MintFT?
  {
    assert Targets(gen, h)[0] == h.unitId;
    if h.attrs.MintFT? {
      Runs.HeldMintFails(gen, m, h);
    } else if h.attrs.Split? {
      HeldSplits(gen, m, h);
    } else {
      var actions := Actions(gen, m, h, 0).value;
      if h.attrs.SplitFT? {
        Two(m, actions[0], actions[1]);
        assert actions == [actions[0], actions[1]];
      } else {
        Store.OneAction(m, actions[0]);
        assert actions == [actions[0]];
      }
    }
  }

  lemma HeldSplits(gen: Gen, m: Ledger, h: Tx)
    requires GenOk(gen) && Bounded(m) && h.attrs.Split? && OnHold(gen, m, h)
    ensures Execute(gen, m, h, 0).Some?
  {
    hide Store.ActAll, Bounded, NewBills;
    var ts := h.attrs.targets;
    BillWithinTotal(m, h.unitId);
    NewBillsFit(gen, m, h, ts);
    NewBillsEffect(gen, m, h, ts);
    var m1 := Store.ActAll(m, NewBills(gen, h, ts)).ledger;
    assert h.unitId !in Ids(gen, h, |ts|) by {
      assert forall i :: 0 <= i < |ts| ==> m[gen(h, i)].data == None;
    }
    assert m1[h.unitId] == m[h.unitId];
    LastAction(m, NewBills(gen, h, ts), TakeFromBill(h.unitId, SumOf(ts)));
  }

  lemma {:induction false} NewBillsFit(gen: Gen, m: Ledger, h: Tx, ts: seq<Target>)
    requires GenOk(gen) && forall i :: 0 <= i < |ts| ==> gen(h, i) in m && m[gen(h, i)].data == None
    ensures Store.ActAll(m, NewBills(gen, h, ts)).Ok?
    decreases |ts|
  {
    if ts != [] {
      var k := |ts| - 1;
      assert NewBills(gen, h, ts)[..k] == NewBills(gen, h, ts[..k]);
      NewBillsFit(gen, m, h, ts[..k]);
      NewBillsEffect(gen, m, h, ts[..k]);
      assert gen(h, k) !in Ids(gen, h, k);
    }
  }

  lemma HeldTakesEffect(gen: Gen, m: Ledger, seen: set<Tx>, h: Tx)
    requires GenOk(gen) && Inv(gen, m, seen) && Bounded(m) && IsHeld(m, h) && Execute(gen, m, h, 0).Some?
    ensures var m' := Release(Execute(gen, m, h, 0).value, Targets(gen, h));
      TookEffect(gen, m, h, m') && SameBut(m, m', TargetSet(gen, h))
  {
    hide Execute, Bounded, OwnOutcome;
    HeldFacts(gen, m, seen, h);
    HeldExecutes(gen, m, h);
    HeldApart(gen, m, h);
    HeldIsReady(gen, m, h);
    ExecuteOutcome(gen, m, h, 0);
    TargetsOf(gen, h);
    var m1 := Execute(gen, m, h, 0).value;
    var m' := Release(m1, Targets(gen, h));
    assert h.unitId in Targets(gen, h);
    assert Touched(gen, h) == TargetSet(gen, h);
    ReleasedCreated(gen, m, h, m1);
  }

  /** New units are not locked, so releasing them changes nothing. */
  lemma ReleasedCreated(gen: Gen, m: Ledger, h: Tx, m1: Ledger)
    requires CreatedOutcome(gen, m, h, m1)
    ensures CreatedOutcome(gen, m, h, Release(m1, Targets(gen, h)))
  {
  }

  lemma HeldRollsBack(gen: Gen, m: Ledger, seen: set<Tx>, h: Tx, round: nat)
    requires Inv(gen, m, seen) && IsHeld(m, h)
    ensures Abandon(m, Targets(gen, h), round).Some?
    ensures var m' := Release(Abandon(m, Targets(gen, h), round).value, Targets(gen, h));
      RolledBack(gen, m, h, round, m') && SameBut(m, m', TargetSet(gen, h))
  {
    HeldFacts(gen, m, seen, h);
    var ids := Targets(gen, h);
    assert forall i :: 0 <= i < |ids| ==> ids[i] in TargetSet(gen, h);
    assert forall id :: id in TargetSet(gen, h) <==> id in ids;
  }

  /** Releasing a unit works exactly if the transaction satisfies the predicate of what it asks for; a mint on
      hold can only be rolled back. */
  lemma UnlockExactly(gen: Gen, auth: Auth, m: Ledger, seen: set<Tx>, tx: Tx, id: UnitId, round: nat)
    requires GenOk(gen) && Inv(gen, m, seen) && Bounded(m) && Held(m, id).Some?
    ensures var h, r := Held(m, id).value, Unlock(gen, auth, m, tx, id, round);
      && (r.Some? <==> ByRollback(auth, tx, h) || (ByExecution(auth, tx, h) && !h.attrs.MintFT?))
      && (r.Some? && ByExecution(auth, tx, h) ==> TookEffect(gen, m, h, r.value))
      && (r.Some? && ByRollback(auth, tx, h) ==> RolledBack(gen, m, h, round, r.value))
      && (r.Some? ==> SameBut(m, r.value, TargetSet(gen, h)))
  {
    hide Execute, Abandon, Release, Bounded, Inv, TookEffect, RolledBack, SameBut;
    var h := Held(m, id).value;
    assert IsHeld(m, h);
    HeldFacts(gen, m, seen, h);
    HeldExecutes(gen, m, h);
    HeldRollsBack(gen, m, seen, h, round);
    if Execute(gen, m, h, 0).Some? {
      HeldTakesEffect(gen, m, seen, h);
    }
  }

  // ----- all locks in the way of a transaction -----

  /** Some of the units belong to the transaction on hold. */
  ghost predicate Hits(gen: Gen, ids: seq<UnitId>, h: Tx)
  {
    exists id :: id in ids && id in TargetSet(gen, h)
  }

  /** What becomes of a transaction on hold: if its units are in the way, it is executed or rolled back, as its
      predicates say; otherwise its units stay as they are. */
  ghost predicate Fate(gen: Gen, auth: Auth, m: Ledger, tx: Tx, ids: seq<UnitId>, round: nat, h: Tx, m': Ledger)
  {
    if Hits(gen, ids, h) then
      || (ByExecution(auth, tx, h) && TookEffect(gen, m, h, m'))
      || (ByRollback(auth, tx, h) && RolledBack(gen, m, h, round, m'))
    else SameOn(m, m', TargetSet(gen, h))
  }

  ghost predicate UnlockedSame(m: Ledger, m': Ledger)
  {
    forall id :: (id in m ==> m[id].lock.None?) ==> (id in m <==> id in m') && (id in m ==> m'[id] == m[id])
  }

  ghost predicate AllFates(gen: Gen, auth: Auth, m: Ledger, tx: Tx, ids: seq<UnitId>, round: nat, m': Ledger)
  {
    UnlockedSame(m, m') && forall h :: IsHeld(m, h) ==> Fate(gen, auth, m, tx, ids, round, h, m')
  }

  /** Different transactions on hold have different units. */
  lemma HeldApartFrom(gen: Gen, m: Ledger, seen: set<Tx>, h: Tx, g: Tx)
    requires Inv(gen, m, seen) && IsHeld(m, h) && IsHeld(m, g) && h != g
    ensures TargetSet(gen, h) !! TargetSet(gen, g)
  {
    HeldFacts(gen, m, seen, h);
    HeldFacts(gen, m, seen, g);
    forall x | x in TargetSet(gen, h) ensures x !in TargetSet(gen, g) {
      assert m[x].lock == Some(h);
    }
  }

  lemma TargetsExactly(gen: Gen, h: Tx)
    ensures h.unitId in TargetSet(gen, h)
    ensures h.attrs.Split? ==> forall i :: 0 <= i < |h.attrs.targets| ==> gen(h, i) in TargetSet(gen, h)
    ensures h.attrs.SplitFT? ==> gen(h, 0) in TargetSet(gen, h)
  {
    TargetsOf(gen, h);
    assert h.attrs.Split? ==> forall i :: 0 <= i < |h.attrs.targets| ==> Created(gen, h)[i] == gen(h, i);
    assert h.attrs.SplitFT? ==> Created(gen, h)[0] == gen(h, 0);
  }

  /** An effect depends on the units of the transaction only. */
  lemma EffectOn(gen: Gen, m: Ledger, m1: Ledger, h: Tx, round: nat, m2: Ledger, m3: Ledger)
    requires SameOn(m, m1, TargetSet(gen, h)) && SameOn(m2, m3, TargetSet(gen, h))
    ensures TookEffect(gen, m1, h, m2) ==> TookEffect(gen, m, h, m3)
    ensures RolledBack(gen, m1, h, round, m2) ==> RolledBack(gen, m, h, round, m3)
  {
    hide OwnOutcome, TargetSet;
    TargetsExactly(gen, h);
  }

  lemma SameEverywhere(gen: Gen, m: Ledger, h: Tx)
    ensures SameOn(m, m, TargetSet(gen, h))
  {
  }

  lemma FirstFate(gen: Gen, auth: Auth, m: Ledger, tx: Tx, round: nat)
    ensures AllFates(gen, auth, m, tx, [], round, m)
  {
  }

  /** A unit that is locked after some releases was locked before, by the same transaction, and its own
      transaction was not released. */
  lemma StillHeld(gen: Gen, auth: Auth, m: Ledger, seen: set<Tx>, tx: Tx, ids: seq<UnitId>, round: nat, m1: Ledger,
                  x: UnitId)
    requires Inv(gen, m, seen) && AllFates(gen, auth, m, tx, ids, round, m1) && OnlyReleases(m, m1)
    requires Held(m1, x).Some?
    ensures IsHeld(m, Held(m1, x).value) && x in TargetSet(gen, Held(m1, x).value)
    ensures !Hits(gen, ids, Held(m1, x).value)
  {
    hide OwnOutcome;
    var h := Held(m1, x).value;
    assert m[x].lock == Some(h);
    assert IsHeld(m, h);
    HeldFacts(gen, m, seen, h);
    assert Fate(gen, auth, m, tx, ids, round, h, m1);
    if Hits(gen, ids, h) {
      UnlockedByFate(gen, auth, m, tx, ids, round, h, m1);
    }
  }

  /** Whichever way a transaction is released, all its units are unlocked. */
  lemma UnlockedByFate(gen: Gen, auth: Auth, m: Ledger, tx: Tx, ids: seq<UnitId>, round: nat, h: Tx, m': Ledger)
    requires Fate(gen, auth, m, tx, ids, round, h, m') && Hits(gen, ids, h)
    ensures forall x :: x in TargetSet(gen, h) ==> Held(m', x).None?
  {
    hide OwnOutcome;
    TargetsOf(gen, h);
    forall x | x in TargetSet(gen, h) ensures Held(m', x).None? {
      if x != h.unitId {
        var i :| 0 <= i < |Created(gen, h)| && Created(gen, h)[i] == x;
        assert x == gen(h, i);
      }
    }
  }

  lemma HitsMore(gen: Gen, ids: seq<UnitId>, x: UnitId, h: Tx)
    ensures Hits(gen, ids + [x], h) <==> Hits(gen, ids, h) || x in TargetSet(gen, h)
  {
    if Hits(gen, ids, h) {
      var id :| id in ids && id in TargetSet(gen, h);
      assert id in ids + [x];
    }
    assert x in ids + [x];
  }

  /** A unit that is not locked, or not any more, changes nobody's fate. */
  lemma FreeUnit(gen: Gen, auth: Auth, m: Ledger, seen: set<Tx>, tx: Tx, ids: seq<UnitId>, round: nat, m1: Ledger,
                 x: UnitId)
    requires Inv(gen, m, seen) && AllFates(gen, auth, m, tx, ids, round, m1) && Held(m1, x).None?
    ensures AllFates(gen, auth, m, tx, ids + [x], round, m1)
  {
    hide TookEffect, RolledBack, Hits;
    forall h | IsHeld(m, h) ensures Fate(gen, auth, m, tx, ids + [x], round, h, m1) {
      assert Fate(gen, auth, m, tx, ids, round, h, m1);
      HitsMore(gen, ids, x, h);
      HeldFacts(gen, m, seen, h);
    }
  }

  /** The fate of the transaction that is released is decided, that of all others stays. */
  lemma OneMoreFate(gen: Gen, auth: Auth, m: Ledger, seen: set<Tx>, tx: Tx, ids: seq<UnitId>, round: nat, m1: Ledger,
                    x: UnitId, m2: Ledger)
    requires GenOk(gen) && Inv(gen, m, seen) && Inv(gen, m1, seen) && Bounded(m1) && OnlyReleases(m, m1)
    requires AllFates(gen, auth, m, tx, ids, round, m1) && Held(m1, x).Some?
    requires Unlock(gen, auth, m1, tx, x, round) == Some(m2)
    ensures AllFates(gen, auth, m, tx, ids + [x], round, m2)
  {
    hide TookEffect, RolledBack, Hits, Inv, Bounded, Unlock, GenOk, Held, ByExecution, ByRollback, IsHeld;
    var g := Held(m1, x).value;
    StillHeld(gen, auth, m, seen, tx, ids, round, m1, x);
    UnlockExactly(gen, auth, m1, seen, tx, x, round);
    HeldFacts(gen, m, seen, g);
    assert Fate(gen, auth, m, tx, ids, round, g, m1);
    forall h | IsHeld(m, h) ensures Fate(gen, auth, m, tx, ids + [x], round, h, m2) {
      assert Fate(gen, auth, m, tx, ids, round, h, m1);
      HitsMore(gen, ids, x, h);
      if h == g {
        SameEverywhere(gen, m2, g);
        EffectOn(gen, m, m1, g, round, m2, m2);
      } else {
        HeldApartFrom(gen, m, seen, h, g);
        SameEverywhere(gen, m, h);
        assert SameOn(m1, m2, TargetSet(gen, h));
        EffectOn(gen, m, m, h, round, m1, m2);
      }
    }
  }

  /** All units of a transaction are released before anything else happens to them. */
  lemma {:induction false} UnlockAllExactly(gen: Gen, auth: Auth, m: Ledger, seen: set<Tx>, tx: Tx, ids: seq<UnitId>,
                                            round: nat)
    requires GenOk(gen) && Inv(gen, m, seen) && Bounded(m) && UnlockAll(gen, auth, m, tx, ids, round).Some?
    ensures AllFates(gen, auth, m, tx, ids, round, UnlockAll(gen, auth, m, tx, ids, round).value)
    decreases |ids|
  {
    hide Inv, Bounded, GenOk, AllFates, OnlyReleases;
    if ids == [] {
      FirstFate(gen, auth, m, tx, round);
    } else {
      var n := |ids| - 1;
      var before, x := ids[..n], ids[n];
      assert ids == before + [x];
      UnlockAllExactly(gen, auth, m, seen, tx, before, round);
      UnlockAllKeeps(gen, auth, m, seen, tx, before, round);
      Runs.UnlockAllNeutral(gen, auth, m, seen, tx, before, round);
      var m1 := UnlockAll(gen, auth, m, tx, before, round).value;
      if Held(m1, x).None? {
        FreeUnit(gen, auth, m, seen, tx, before, round, m1, x);
      } else {
        OneMoreFate(gen, auth, m, seen, tx, before, round, m1, x, UnlockAll(gen, auth, m, tx, ids, round).value);
      }
    }
  }

  /** A transaction that needs a unit on hold, and satisfies neither predicate, fails. */
  lemma {:induction false} NotEntitledFails(gen: Gen, auth: Auth, m: Ledger, seen: set<Tx>, tx: Tx, ids: seq<UnitId>,
                                            round: nat, h: Tx)
    requires GenOk(gen) && Inv(gen, m, seen) && Bounded(m) && IsHeld(m, h) && Hits(gen, ids, h)
    requires !ByExecution(auth, tx, h) && !ByRollback(auth, tx, h)
    ensures UnlockAll(gen, auth, m, tx, ids, round).None?
  {
    hide Inv, Bounded, GenOk, Hits, IsHeld, UnlockAll, ByExecution, ByRollback;
    if UnlockAll(gen, auth, m, tx, ids, round).Some? {
      UnlockAllExactly(gen, auth, m, seen, tx, ids, round);
    }
  }

  // ----- processing -----

  /** After a transaction was processed: every transaction on hold whose units it needed was executed or rolled
      back first, as its predicates say; all others keep their units and locks.  If it satisfies neither
      predicate of one of the former, it fails. */
  lemma ProcessObeysLocks(gen: Gen, auth: Auth, succeeded: set<Tx>, m: Ledger, seen: set<Tx>, tx: Tx, round: nat, h: Tx)
    requires GenOk(gen) && AuthOk(auth) && Inv(gen, m, seen) && Bounded(m) && tx !in seen && IsHeld(m, h)
    ensures var m1 := UnlockAll(gen, auth, m, tx, Targets(gen, tx), round);
      var r := Process(gen, auth, succeeded, m, tx, round);
      && (r.Some? ==> m1.Some? && Fate(gen, auth, m, tx, Targets(gen, tx), round, h, m1.value))
      && (r.Some? && !Hits(gen, Targets(gen, tx), h) ==> SameOn(m, r.value, TargetSet(gen, h)))
      && (Hits(gen, Targets(gen, tx), h) && !ByExecution(auth, tx, h) && !ByRollback(auth, tx, h) ==> r.None?)
  {
    hide Inv, Bounded, GenOk, Hits, IsHeld, UnlockAll, ByExecution, ByRollback, TookEffect, RolledBack, Execute,
      Validate, LockAll, SameOn, AuthOk;
    var ids := Targets(gen, tx);
    if Process(gen, auth, succeeded, m, tx, round).Some? {
      UnlockAllExactly(gen, auth, m, seen, tx, ids, round);
      if !Hits(gen, ids, h) {
        OthersUntouched(gen, auth, succeeded, m, seen, tx, round, h);
      }
    }
    if Hits(gen, ids, h) && !ByExecution(auth, tx, h) && !ByRollback(auth, tx, h) {
      NotEntitledFails(gen, auth, m, seen, tx, ids, round, h);
    }
  }

  lemma OthersUntouched(gen: Gen, auth: Auth, succeeded: set<Tx>, m: Ledger, seen: set<Tx>, tx: Tx, round: nat, h: Tx)
    requires GenOk(gen) && AuthOk(auth) && Inv(gen, m, seen) && Bounded(m) && tx !in seen && IsHeld(m, h)
    requires Process(gen, auth, succeeded, m, tx, round).Some? && !Hits(gen, Targets(gen, tx), h)
    ensures SameOn(m, Process(gen, auth, succeeded, m, tx, round).value, TargetSet(gen, h))
  {
    hide Inv, Bounded, GenOk, UnlockAll, Execute, Validate, LockAll, AuthOk, TookEffect, RolledBack, Targets;
    var ids := Targets(gen, tx);
    var m1 := UnlockAll(gen, auth, m, tx, ids, round).value;
    UnlockAllExactly(gen, auth, m, seen, tx, ids, round);
    UnlockAllKeeps(gen, auth, m, seen, tx, ids, round);
    HeldFacts(gen, m, seen, h);
    assert Fate(gen, auth, m, tx, ids, round, h, m1);
    NextChanges(gen, auth, succeeded, m1, seen, tx);
    forall id | id in TargetSet(gen, h) ensures id !in TargetSet(gen, tx) && id != DC_SUPPLY {
      assert id in TargetSet(gen, tx) ==> id in ids;
      SupplyFree(gen, m, seen);
    }
  }

  lemma SupplyFree(gen: Gen, m: Ledger, seen: set<Tx>)
    requires Inv(gen, m, seen)
    ensures DC_SUPPLY in m && m[DC_SUPPLY].lock.None?
  {
  }

  /** What happens after all locks are out of the way: the transaction is put on hold or executed. */
  ghost function Taken(gen: Gen, auth: Auth, succeeded: set<Tx>, m: Ledger, tx: Tx): (r: Option<Ledger>)
  {
    match Validate(gen, auth, succeeded, m, tx)
    case None => None
    case Some(amount) => if tx.stateLock.Some? then LockAll(m, tx, Targets(gen, tx)) else Execute(gen, m, tx, amount)
  }

  lemma NextChanges(gen: Gen, auth: Auth, succeeded: set<Tx>, m: Ledger, seen: set<Tx>, tx: Tx)
    requires GenOk(gen) && AuthOk(auth) && Inv(gen, m, seen) && tx !in seen
    requires Taken(gen, auth, succeeded, m, tx).Some?
    ensures SameBut(m, Taken(gen, auth, succeeded, m, tx).value, TargetSet(gen, tx) + {DC_SUPPLY})
  {
    hide Inv, Execute, Validate, LockAll;
    var amount := Validate(gen, auth, succeeded, m, tx).value;
    ValidUnit(gen, auth, succeeded, m, seen, tx);
    if tx.stateLock.Some? {
      DistinctTargets(gen, tx);
      LockAllEffect(m, tx, Targets(gen, tx));
      assert forall id :: id !in TargetSet(gen, tx) ==> id !in Targets(gen, tx);
    } else {
      ExecuteEffect(gen, m, tx, amount);
    }
  }

  // ----- runs -----

  /** The units of the transaction on hold are as they were, locks included. */
  ghost predicate KeepsHold(gen: Gen, m: Ledger, h: Tx, m': Ledger)
  {
    forall x :: x in TargetSet(gen, h) ==> x in m && x in m' && Alike(m[x], m'[x]) && m'[x].lock == Some(h)
  }

  /** Why a transaction is not on hold any more: somebody who satisfies its execution predicate had it executed,
      or somebody who satisfies its rollback predicate had it rolled back.  A transaction that does nothing
      can also be lost with its unit at the start of a round, when that is an expired fee credit record or a
      unit without data that was due to be deleted. */
  ghost predicate Decided(gen: Gen, w: Runs.World, step: Runs.Step, h: Tx, w': Runs.World)
  {
    match step
    case Success(tx, auth, round) =>
      var m1 := UnlockAll(gen, auth, w.ledger, tx, Targets(gen, tx), round);
      && m1.Some? && Hits(gen, Targets(gen, tx), h)
      && Fate(gen, auth, w.ledger, tx, Targets(gen, tx), round, h, m1.value)
    case Failure(_) => false
    case NewRound(round, _) =>
      && h.attrs.Nop? && h.unitId in w.ledger && h.unitId !in w'.ledger
      && var u := w.ledger[h.unitId];
         if u.data.None? then 0 < u.deletionRound <= round else u.data.value.Fcr?
    case Credit(tx, auth, _, id, _) => h.attrs.Nop? && id == h.unitId && Satisfies(auth, tx, h)
    case Reclaim(tx, auth, _, id, _) => h.attrs.Nop? && id == h.unitId && Satisfies(auth, tx, h)
  }

  predicate Satisfies(auth: Auth, tx: Tx, h: Tx) { ByExecution(auth, tx, h) || ByRollback(auth, tx, h) }

  lemma AlikeHold(gen: Gen, m: Ledger, h: Tx, m1: Ledger, m2: Ledger)
    requires (forall x :: x in TargetSet(gen, h) ==> x in m && m[x].lock == Some(h))
    requires SameOn(m, m1, TargetSet(gen, h)) && SameOutside(m1, m2, {})
    ensures KeepsHold(gen, m, h, m2)
  {
    forall x | x in TargetSet(gen, h) ensures x in m2 && Alike(m[x], m2[x]) {
      assert x !in {};
    }
  }

  lemma SuccessDecides(gen: Gen, w: Runs.World, step: Runs.Step, w': Runs.World, money: nat, supply: nat, h: Tx)
    requires GenOk(gen) && Runs.RunInv(gen, w, money, supply) && step.Success? && Runs.Next(gen, w, step, w')
    requires IsHeld(w.ledger, h)
    ensures KeepsHold(gen, w.ledger, h, w'.ledger) || Decided(gen, w, step, h, w')
  {
    hide Inv, GenOk, Process, UnlockAll, Fate, IsHeld, SameOutside, SameOn, KeepsHold, Hits, Bounded;
    ProcessObeysLocks(gen, step.auth, w.succeeded, w.ledger, w.seen, step.tx, step.round, h);
    HeldFacts(gen, w.ledger, w.seen, h);
    if !Hits(gen, Targets(gen, step.tx), h) {
      AlikeHold(gen, w.ledger, h, Process(gen, step.auth, w.succeeded, w.ledger, step.tx, step.round).value, w'.ledger);
    }
  }

  lemma RoundDecides(gen: Gen, w: Runs.World, step: Runs.Step, w': Runs.World, money: nat, supply: nat, h: Tx)
    requires GenOk(gen) && Runs.RunInv(gen, w, money, supply) && step.NewRound? && Runs.Next(gen, w, step, w')
    requires IsHeld(w.ledger, h)
    ensures KeepsHold(gen, w.ledger, h, w'.ledger) || Decided(gen, w, step, h, w')
  {
    hide GenOk;
    var m := w.ledger;
    HeldFacts(gen, m, w.seen, h);
    TargetsOf(gen, h);
    if h.attrs.Nop? {
      assert TargetSet(gen, h) == {h.unitId};
      assert MarkOk(m[h.unitId]);
    } else {
      forall x | x in TargetSet(gen, h) ensures x in w'.ledger {
        Runs.FcrOnlyNop(gen, m, h, x);
        NeverRecord(gen, m, h, x);
        assert MarkOk(m[x]);
      }
    }
  }

  /** Only a transaction that does nothing can have a fee credit record on hold. */
  lemma NeverRecord(gen: Gen, m: Ledger, h: Tx, x: UnitId)
    requires Lockable(h) && OnHold(gen, m, h) && !h.attrs.Nop? && x in TargetSet(gen, h) && x in m
    ensures m[x].data.Some? ==> !m[x].data.value.Fcr?
  {
    TargetsOf(gen, h);
    if x in Created(gen, h) {
      var i :| 0 <= i < |Created(gen, h)| && Created(gen, h)[i] == x;
    }
  }

  lemma CreditDecides(gen: Gen, w: Runs.World, step: Runs.Step, w': Runs.World, money: nat, supply: nat, h: Tx)
    requires GenOk(gen) && Runs.RunInv(gen, w, money, supply) && (step.Credit? || step.Reclaim?)
    requires Runs.Next(gen, w, step, w') && IsHeld(w.ledger, h)
    ensures KeepsHold(gen, w.ledger, h, w'.ledger) || Decided(gen, w, step, h, w')
  {
    hide Inv, GenOk, Unlock, SameOutside, KeepsHold, Bounded, TookEffect, RolledBack, Runs.Books, IsHeld;
    var m, id := w.ledger, step.id;
    var m1 := Unlock(gen, step.auth, m, step.tx, id, step.round).value;
    Runs.BooksBounded(m, w.succeeded, w.redeemed, Runs.Left(w, money), supply);
    HeldFacts(gen, m, w.seen, h);
    if Held(m, id).Some? {
      var g := Held(m, id).value;
      assert IsHeld(m, g) by {
        assert id in m && m[id].lock == Some(g);
        SomeHeld(m, id);
      }
      HeldFacts(gen, m, w.seen, g);
      UnlockExactly(gen, step.auth, m, w.seen, step.tx, id, step.round);
      OneUnit(gen, g);
      if h != g {
        HeldApartFrom(gen, m, w.seen, h, g);
      }
    } else {
      Unheld(gen, step.auth, m, step.tx, id, step.round);
    }
    if Held(m, id) != Some(h) {
      assert id !in TargetSet(gen, h);
      var value := if step.Credit? then Sub64(BillAt(m1, id).value.value, step.amount)
                   else Add64(BillAt(m1, id).value.value, step.amount);
      AlikeHold(gen, m, h, Runs.Revalued(m1, id, value), w'.ledger);
    }
  }

  lemma SomeHeld(m: Ledger, id: UnitId)
    requires id in m && m[id].lock.Some?
    ensures IsHeld(m, m[id].lock.value)
  {
  }

  lemma OneUnit(gen: Gen, g: Tx)
    ensures g.attrs.Nop? ==> TargetSet(gen, g) == {g.unitId}
  {
    TargetsOf(gen, g);
  }

  lemma Unheld(gen: Gen, auth: Auth, m: Ledger, tx: Tx, id: UnitId, round: nat)
    requires Held(m, id).None?
    ensures Unlock(gen, auth, m, tx, id, round) == Some(m)
  {
  }

  /** In every run: a transaction on hold keeps all its units and locks, step by step, until it is decided. */
  lemma LocksObeyed(gen: Gen, worlds: seq<Runs.World>, steps: seq<Runs.Step>, money: nat, supply: nat, i: nat, h: Tx)
    requires GenOk(gen) && Runs.IsRun(gen, worlds, steps, money, supply) && i < |steps| && IsHeld(worlds[i].ledger, h)
    ensures
      || KeepsHold(gen, worlds[i].ledger, h, worlds[i + 1].ledger)
      || Decided(gen, worlds[i], steps[i], h, worlds[i + 1])
  {
    hide KeepsHold, Decided, Runs.RunInv, Runs.Next, GenOk, IsHeld, Runs.Start;
    Runs.RunInvariant(gen, worlds, steps, money, supply, i);
    match steps[i]
    case Success(_, _, _) => SuccessDecides(gen, worlds[i], steps[i], worlds[i + 1], money, supply, h);
    case Failure(_) => FailureDecides(gen, worlds[i], steps[i], worlds[i + 1], money, supply, h);
    case NewRound(_, _) => RoundDecides(gen, worlds[i], steps[i], worlds[i + 1], money, supply, h);
    case _ => CreditDecides(gen, worlds[i], steps[i], worlds[i + 1], money, supply, h);
  }

  lemma FailureDecides(gen: Gen, w: Runs.World, step: Runs.Step, w': Runs.World, money: nat, supply: nat, h: Tx)
    requires GenOk(gen) && Runs.RunInv(gen, w, money, supply) && step.Failure? && Runs.Next(gen, w, step, w')
    requires IsHeld(w.ledger, h)
    ensures KeepsHold(gen, w.ledger, h, w'.ledger)
  {
    hide GenOk, Inv, IsHeld;
    HeldFacts(gen, w.ledger, w.seen, h);
    SameEverywhere(gen, w.ledger, h);
    AlikeHold(gen, w.ledger, h, w.ledger, w'.ledger);
  }
}
