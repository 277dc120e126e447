/** The units that a transaction reports for logging are all the units that it changes, so that after every
    transaction the state is what the logs say. */
module Logging {
  import opened Units
  import opened Transactions
  import opened Locking
  import opened Effects
  import opened Conservation
  import opened LockSafety
  import opened Unlocking
  import A = Avl
  import Runs
  import Store
  import TxSystem

  // ----- what is reported -----

  /** Releasing a unit reports all units of the transaction that had it on hold. */
  function UnlockReports(gen: Gen, m: Ledger, id: UnitId): (ids: seq<UnitId>)
  {
    match Held(m, id) case None => [] case Some(h) => Targets(gen, h)
  }

  function AllReports(gen: Gen, auth: Auth, m: Ledger, tx: Tx, ids: seq<UnitId>, round: nat): (reported: seq<UnitId>)
    decreases |ids|
  {
    if ids == [] then []
    else
      var before := ids[..|ids| - 1];
      match UnlockAll(gen, auth, m, tx, before, round)
      case None => []
      case Some(m1) =>
        TxSystem.Merge(AllReports(gen, auth, m, tx, before, round), UnlockReports(gen, m1, ids[|ids| - 1]))
  }

  /** A transaction reports its own unit and those it creates, and the collector's supply if it uses it. */
  function OwnReports(gen: Gen, tx: Tx): (ids: seq<UnitId>)
  {
    if tx.stateLock.None? && UsesSupply(tx) then [tx.unitId, DC_SUPPLY] else Targets(gen, tx)
  }

  function Reports(gen: Gen, auth: Auth, m: Ledger, tx: Tx, round: nat): (ids: seq<UnitId>)
  {
    TxSystem.Merge(AllReports(gen, auth, m, tx, Targets(gen, tx), round), OwnReports(gen, tx))
  }

  // ----- it is all that changes -----

  lemma ChangesCompose(m: Ledger, m1: Ledger, m2: Ledger, a: seq<UnitId>, b: seq<UnitId>)
    requires TxSystem.ChangesOnly(m, m1, a) && TxSystem.ChangesOnly(m1, m2, b)
    ensures TxSystem.ChangesOnly(m, m2, TxSystem.Merge(a, b))
  {
    TxSystem.MergeCollects(a, b);
  }

  lemma UnlockReported(gen: Gen, auth: Auth, m: Ledger, seen: set<Tx>, tx: Tx, id: UnitId, round: nat)
    requires GenOk(gen) && Inv(gen, m, seen) && Bounded(m) && Unlock(gen, auth, m, tx, id, round).Some?
    ensures TxSystem.ChangesOnly(m, Unlock(gen, auth, m, tx, id, round).value, UnlockReports(gen, m, id))
  {
    hide Inv, Bounded, GenOk, Unlock, TookEffect, RolledBack;
    if Held(m, id).Some? {
      UnlockExactly(gen, auth, m, seen, tx, id, round);
      assert forall x :: x in TargetSet(gen, Held(m, id).value) <==> x in Targets(gen, Held(m, id).value);
    } else {
      Unheld(gen, auth, m, tx, id, round);
    }
  }

  lemma {:induction false} AllReported(gen: Gen, auth: Auth, m: Ledger, seen: set<Tx>, tx: Tx, ids: seq<UnitId>,
                                       round: nat)
    requires GenOk(gen) && Inv(gen, m, seen) && Bounded(m) && UnlockAll(gen, auth, m, tx, ids, round).Some?
    ensures TxSystem.ChangesOnly(m, UnlockAll(gen, auth, m, tx, ids, round).value,
        AllReports(gen, auth, m, tx, ids, round))
    decreases |ids|
  {
    hide Inv, Bounded, GenOk, Unlock, OnlyReleases, UnlockReports, TxSystem.Merge, TxSystem.ChangesOnly;
    if ids == [] {
      TxSystem.NothingChanges(m);
    } else {
      var before, x := ids[..|ids| - 1], ids[|ids| - 1];
      AllReported(gen, auth, m, seen, tx, before, round);
      UnlockAllKeeps(gen, auth, m, seen, tx, before, round);
      Runs.UnlockAllNeutral(gen, auth, m, seen, tx, before, round);
      var m1 := UnlockAll(gen, auth, m, tx, before, round).value;
      UnlockReported(gen, auth, m1, seen, tx, x, round);
      ChangesCompose(m, m1, Unlock(gen, auth, m1, tx, x, round).value, AllReports(gen, auth, m, tx, before, round),
        UnlockReports(gen, m1, x));
    }
  }

  lemma OwnReported(gen: Gen, auth: Auth, succeeded: set<Tx>, m: Ledger, seen: set<Tx>, tx: Tx)
    requires GenOk(gen) && AuthOk(auth) && Inv(gen, m, seen) && tx !in seen
    requires Taken(gen, auth, succeeded, m, tx).Some?
    ensures TxSystem.ChangesOnly(m, Taken(gen, auth, succeeded, m, tx).value, OwnReports(gen, tx))
  {
    hide Inv, Execute, Validate, LockAll;
    var amount := Validate(gen, auth, succeeded, m, tx).value;
    ValidUnit(gen, auth, succeeded, m, seen, tx);
    assert forall x :: x in TargetSet(gen, tx) <==> x in Targets(gen, tx);
    if tx.stateLock.Some? {
      DistinctTargets(gen, tx);
      LockAllEffect(m, tx, Targets(gen, tx));
    } else {
      ExecuteEffect(gen, m, tx, amount);
      TargetsOf(gen, tx);
    }
  }

  /** Whatever a transaction changes, directly or by releasing others, it reports. */
  lemma ReportsCover(gen: Gen, auth: Auth, succeeded: set<Tx>, m: Ledger, seen: set<Tx>, tx: Tx, round: nat)
    requires GenOk(gen) && AuthOk(auth) && Inv(gen, m, seen) && Bounded(m) && tx !in seen
    requires Process(gen, auth, succeeded, m, tx, round).Some?
    ensures TxSystem.ChangesOnly(m, Process(gen, auth, succeeded, m, tx, round).value,
        Reports(gen, auth, m, tx, round))
  {
    hide Inv, Bounded, GenOk, UnlockAll, Execute, Validate, LockAll, OnlyReleases, AllReports, OwnReports, AuthOk,
      TxSystem.Merge, TxSystem.ChangesOnly;
    var ids := Targets(gen, tx);
    AllReported(gen, auth, m, seen, tx, ids, round);
    UnlockAllKeeps(gen, auth, m, seen, tx, ids, round);
    var m1 := UnlockAll(gen, auth, m, tx, ids, round).value;
    OwnReported(gen, auth, succeeded, m1, seen, tx);
    ChangesCompose(m, m1, Process(gen, auth, succeeded, m, tx, round).value, AllReports(gen, auth, m, tx, ids, round),
      OwnReports(gen, tx));
  }

  /** So fee and logs bring the state in line with the logs again. */
  lemma ProcessStaysLogged(gen: Gen, auth: Auth, succeeded: set<Tx>, m: Ledger, seen: set<Tx>, tx: Tx, round: nat,
                           fcr: UnitId, fee: nat, txr: Digest)
    requires GenOk(gen) && AuthOk(auth) && Inv(gen, m, seen) && Bounded(m) && tx !in seen && A.AllLogged(m)
    requires Process(gen, auth, succeeded, m, tx, round).Some?
    requires TxSystem.Settled(Process(gen, auth, succeeded, m, tx, round).value, Reports(gen, auth, m, tx, round), fcr,
        fee, txr).Some?
    ensures A.AllLogged(TxSystem.Settled(Process(gen, auth, succeeded, m, tx, round).value,
        Reports(gen, auth, m, tx, round), fcr, fee, txr).value)
  {
    hide Inv, Bounded, GenOk, Process, A.AllLogged, Reports, TxSystem.Settled, TxSystem.ChangesOnly;
    ReportsCover(gen, auth, succeeded, m, seen, tx, round);
    var m1, reported := Process(gen, auth, succeeded, m, tx, round).value, Reports(gen, auth, m, tx, round);
    TxSystem.LogsKeepUp(m, m1, reported, fcr, fee, txr);
  }

  /** Pruning keeps the last entry true, with its ledger head, and the state of every unit. */
  lemma PruningStaysLogged(m: Ledger)
    requires A.AllLogged(m)
    ensures A.AllLogged(Store.Prune(m)) && Store.Prune(m).Keys == m.Keys
    ensures forall id :: id in m ==>
      && |Store.Prune(m)[id].logs| <= 1 && Effective(Store.Prune(m)[id]) == Effective(m[id])
      && (|m[id].logs| > 0 ==>
          |Store.Prune(m)[id].logs| == 1 && Store.Prune(m)[id].logs[0].head == m[id].logs[|m[id].logs| - 1].head)
  {
    forall id | id in m ensures A.IsLogged(Store.Pruned(m[id])) && Effective(Store.Pruned(m[id])) == Effective(m[id]) {
      assert A.IsLogged(m[id]);
    }
  }

  lemma DeletionStaysLogged(m: Ledger, expired: set<UnitId>, round: nat)
    requires A.AllLogged(m)
    ensures A.AllLogged(DeleteExpired(m - expired, round))
  {
    forall id | id in DeleteExpired(m - expired, round) ensures A.IsLogged(DeleteExpired(m - expired, round)[id]) {
      assert A.IsLogged(m[id]);
    }
  }
}
