/** Whose consent a change needs, and why no transaction works twice: in every run a bill or a token changes
    only with the consent of its owner, and once a counter has moved on, whatever names an older one fails. */
module Consent {
  import opened Units
  import opened Transactions
  import opened Locking
  import opened Effects
  import opened Sums
  import opened Conservation
  import opened LockSafety
  import opened Outcomes
  import opened Runs
  import opened Unlocking
  import Store

  // ----- one transaction -----

  /** The words that a transaction may bring into the ledger fit their 64 bits. */
  predicate FitsWord(tx: Tx) { tx.attrs.MintFT? ==> tx.attrs.value < TWO64 }

  /** A transaction that succeeds was acceptable once the locks in its way were gone, and then had exactly the
      effect that its attributes say, or was put on hold. */
  lemma ProcessOutcome(gen: Gen, auth: Auth, succeeded: set<Tx>, m: Ledger, seen: set<Tx>, tx: Tx, round: nat)
    requires GenOk(gen) && AuthOk(auth) && Inv(gen, m, seen) && Bounded(m) && tx !in seen && FitsWord(tx)
    requires Process(gen, auth, succeeded, m, tx, round).Some?
    ensures var m1 := UnlockAll(gen, auth, m, tx, Targets(gen, tx), round);
      var m2 := Process(gen, auth, succeeded, m, tx, round).value;
      && m1.Some? && Acceptable(gen, auth, succeeded, m1.value, tx) && Apart(gen, tx)
      && if tx.stateLock.Some? then IsLocked(m1.value, tx, Targets(gen, tx), m2) else Outcome(gen, m1.value, tx, m2)
  {
    hide Inv, Bounded, Execute, Validate, LockAll, UnlockAll, Acceptable, Outcome, IsLocked, Targets, GenOk, Ready,
      OnlyReleases;
    var m1 := UnlockAll(gen, auth, m, tx, Targets(gen, tx), round).value;
    UnlockAllKeeps(gen, auth, m, seen, tx, Targets(gen, tx), round);
    UnlockAllNeutral(gen, auth, m, seen, tx, Targets(gen, tx), round);
    ValidatesExactly(gen, auth, succeeded, m1, tx);
    ValidUnit(gen, auth, succeeded, m1, seen, tx);
    if tx.stateLock.Some? {
      DistinctTargets(gen, tx);
      LockAllEffect(m1, tx, Targets(gen, tx));
    } else {
      ValidIsReady(gen, auth, succeeded, m1, tx);
      ExecuteOutcome(gen, m1, tx, Validate(gen, auth, succeeded, m1, tx).value);
    }
  }

  // ----- counters -----

  lemma CountersCompose(m: Ledger, m1: Ledger, m2: Ledger)
    requires CountersGrow(m, m1) && CountersGrow(m1, m2)
    ensures CountersGrow(m, m2)
  {
  }

  lemma SuccessCounters(gen: Gen, w: World, step: Step, w': World, money: nat, supply: nat)
    requires GenOk(gen) && RunInv(gen, w, money, supply) && step.Success? && Next(gen, w, step, w')
    ensures CountersGrow(w.ledger, w'.ledger)
  {
    hide Inv, Execute, Validate, LockAll, UnlockAll, CountersGrow, Targets, GenOk, OnlyReleases, SameOutside, Bounded,
      Books;
    var m, tx, auth := w.ledger, step.tx, step.auth;
    var m1 := UnlockAll(gen, auth, m, tx, Targets(gen, tx), step.round).value;
    var m2 := Process(gen, auth, w.succeeded, m, tx, step.round).value;
    BooksBounded(m, w.succeeded, w.redeemed, Left(w, money), supply);
    UnlockAllNeutral(gen, auth, m, w.seen, tx, Targets(gen, tx), step.round);
    UnlockAllKeeps(gen, auth, m, w.seen, tx, Targets(gen, tx), step.round);
    ValidUnit(gen, auth, w.succeeded, m1, w.seen, tx);
    if tx.stateLock.Some? {
      LockNeutral(gen, m1, tx);
    } else {
      var amount := Validate(gen, auth, w.succeeded, m1, tx).value;
      ExecuteEffect(gen, m1, tx, amount);
      EffectCounters(gen, m1, tx, amount, m2);
    }
    AlikeNeutral(m2, w'.ledger);
    CountersCompose(m, m1, m2);
    CountersCompose(m, m2, w'.ledger);
  }

  lemma CreditCounters(gen: Gen, w: World, step: Step, w': World, money: nat, supply: nat)
    requires GenOk(gen) && RunInv(gen, w, money, supply) && (step.Credit? || step.Reclaim?) && Next(gen, w, step, w')
    ensures CountersGrow(w.ledger, w'.ledger)
  {
    hide Inv, Unlock, CountersGrow, GenOk, SameOutside, Bounded, Books;
    var m, id := w.ledger, step.id;
    var m1 := Unlock(gen, step.auth, m, step.tx, id, step.round).value;
    BooksBounded(m, w.succeeded, w.redeemed, Left(w, money), supply);
    UnlockNeutral(gen, step.auth, m, w.seen, step.tx, id, step.round);
    var v := BillAt(m1, id).value.value;
    var m2 := Revalued(m1, id, if step.Credit? then Sub64(v, step.amount) else Add64(v, step.amount));
    RevaluedCounters(m1, id, if step.Credit? then Sub64(v, step.amount) else Add64(v, step.amount));
    AlikeNeutral(m2, w'.ledger);
    CountersCompose(m, m1, m2);
    CountersCompose(m, m2, w'.ledger);
  }

  lemma RevaluedCounters(m: Ledger, id: UnitId, value: nat)
    requires BillAt(m, id).Some?
    ensures CountersGrow(m, Revalued(m, id, value))
  {
  }

  lemma StepCounters(gen: Gen, w: World, step: Step, w': World, money: nat, supply: nat)
    requires GenOk(gen) && RunInv(gen, w, money, supply) && Next(gen, w, step, w')
    ensures CountersGrow(w.ledger, w'.ledger)
  {
    hide Inv, CountersGrow, GenOk, Process, Unlock, Books, SameOutside, DeleteExpired;
    match step
    case Success(_, _, _) => SuccessCounters(gen, w, step, w', money, supply);
    case Failure(_) => AlikeNeutral(w.ledger, w'.ledger);
    case NewRound(round, expired) =>
      RecordsDeleted(gen, w.ledger, w.seen, expired);
      DeletionNeutral(gen, w.ledger - expired, w.seen, round);
      CountersCompose(w.ledger, w.ledger - expired, w'.ledger);
    case _ => CreditCounters(gen, w, step, w', money, supply);
  }

  /** Bills and tokens stay what they are, and their counters never go back. */
  lemma {:induction false} RunCounters(gen: Gen, worlds: seq<World>, steps: seq<Step>, money: nat, supply: nat, i: nat,
                                       j: nat)
    requires GenOk(gen) && IsRun(gen, worlds, steps, money, supply) && i <= j < |worlds|
    ensures CountersGrow(worlds[i].ledger, worlds[j].ledger)
    decreases j - i
  {
    hide RunInv, Next, Start, GenOk, CountersGrow;
    if i == j {
      SameDataNeutral(worlds[i].ledger, worlds[i].ledger);
    } else {
      RunCounters(gen, worlds, steps, money, supply, i, j - 1);
      RunInvariant(gen, worlds, steps, money, supply, j - 1);
      StepCounters(gen, worlds[j - 1], steps[j - 1], worlds[j], money, supply);
      CountersCompose(worlds[i].ledger, worlds[j - 1].ledger, worlds[j].ledger);
    }
  }

  /** The unit is a bill or a token whose counter is higher. */
  predicate IsBeyond(m: Ledger, id: UnitId, c: nat)
  {
    || (BillAt(m, id).Some? && BillAt(m, id).value.counter > c)
    || (TokenAt(m, id).Some? && TokenAt(m, id).value.counter > c)
  }

  /** The counter that a transaction depends on: the one it names, or the one in the records that it redeems. */
  function BoundCounter(tx: Tx): (c: Option<nat>)
  {
    match tx.attrs
    case SwapDC(dust) => if dust == [] || !dust[0].attrs.TransDC? then None else Some(dust[0].attrs.dcTargetCounter)
    case JoinFT(burns) => if burns == [] || !burns[0].attrs.BurnFT? then None else Some(burns[0].attrs.ftTargetCounter)
    case _ => NamedCounter(tx)
  }

  lemma AcceptableCounter(gen: Gen, auth: Auth, succeeded: set<Tx>, m: Ledger, tx: Tx)
    requires Acceptable(gen, auth, succeeded, m, tx) && BoundCounter(tx).Some?
    ensures tx.unitId in m && m[tx.unitId].data.Some? && m[tx.unitId].data.value.counter == BoundCounter(tx).value
  {
    assert tx.attrs.SwapDC? && tx.attrs.dust != [] ==> tx.attrs.dust[0] in tx.attrs.dust;
    assert tx.attrs.JoinFT? && tx.attrs.burns != [] ==> tx.attrs.burns[0] in tx.attrs.burns;
  }

  lemma StaleNow(gen: Gen, auth: Auth, succeeded: set<Tx>, m: Ledger, seen: set<Tx>, tx: Tx, round: nat, c: nat)
    requires GenOk(gen) && Inv(gen, m, seen) && Bounded(m) && IsBeyond(m, tx.unitId, c)
    requires BoundCounter(tx).Some? && BoundCounter(tx).value <= c
    ensures Process(gen, auth, succeeded, m, tx, round).None?
  {
    hide Inv, Bounded, GenOk, UnlockAll, Validate, Execute, LockAll, Acceptable, BoundCounter;
    var m1 := UnlockAll(gen, auth, m, tx, Targets(gen, tx), round);
    if m1.Some? && Validate(gen, auth, succeeded, m1.value, tx).Some? {
      UnlockAllNeutral(gen, auth, m, seen, tx, Targets(gen, tx), round);
      ValidatesExactly(gen, auth, succeeded, m1.value, tx);
      AcceptableCounter(gen, auth, succeeded, m1.value, tx);
    }
  }

  /** Once a counter has moved on, every transaction that depends on an older one fails, for good, whoever sends
      it and whatever else it does. */
  lemma StaleFails(gen: Gen, worlds: seq<World>, steps: seq<Step>, money: nat, supply: nat, i: nat, j: nat, tx: Tx,
                   c: nat, auth: Auth, succeeded: set<Tx>, round: nat)
    requires GenOk(gen) && IsRun(gen, worlds, steps, money, supply) && i <= j < |worlds|
    requires IsBeyond(worlds[i].ledger, tx.unitId, c) && BoundCounter(tx).Some? && BoundCounter(tx).value <= c
    ensures Process(gen, auth, succeeded, worlds[j].ledger, tx, round).None?
  {
    hide IsRun, GenOk, Inv, Bounded, Process, BoundCounter;
    var w := worlds[j];
    RunCounters(gen, worlds, steps, money, supply, i, j);
    RunInvariant(gen, worlds, steps, money, supply, j);
    BooksBounded(w.ledger, w.succeeded, w.redeemed, Left(w, money), supply);
    StaleNow(gen, auth, succeeded, w.ledger, w.seen, tx, round, c);
  }

  /** A transaction that was executed has moved the counter that it depends on. */
  lemma MovesOn(gen: Gen, w: World, step: Step, w': World, money: nat, supply: nat)
    requires GenOk(gen) && RunInv(gen, w, money, supply) && step.Success? && Next(gen, w, step, w')
    requires step.tx.stateLock.None? && BoundCounter(step.tx).Some?
    requires step.tx.attrs.Nop? ==> BillAt(w.ledger, step.tx.unitId).Some? || TokenAt(w.ledger, step.tx.unitId).Some?
    ensures IsBeyond(w'.ledger, step.tx.unitId, BoundCounter(step.tx).value)
  {
    hide Inv, Bounded, GenOk, UnlockAll, Process, Acceptable, BoundCounter, Books, SameOutside, CreatedOutcome,
      SupplyOutcome, Apart;
    var m, tx, auth := w.ledger, step.tx, step.auth;
    BooksBounded(m, w.succeeded, w.redeemed, Left(w, money), supply);
    ProcessOutcome(gen, auth, w.succeeded, m, w.seen, tx, step.round);
    var m1 := UnlockAll(gen, auth, m, tx, Targets(gen, tx), step.round).value;
    UnlockAllNeutral(gen, auth, m, w.seen, tx, Targets(gen, tx), step.round);
    AcceptableCounter(gen, auth, w.succeeded, m1, tx);
    AlikeNeutral(Process(gen, auth, w.succeeded, m, tx, step.round).value, w'.ledger);
  }

  /** A transaction that was executed never succeeds again in the run, in no round and with nobody's help: not if it
      names a counter or redeems records, and not if it makes a token.  (A transaction that does nothing to a
      unit that is not a bill or a token is not covered.) */
  lemma NeverAgain(gen: Gen, worlds: seq<World>, steps: seq<Step>, money: nat, supply: nat, i: nat, j: nat, auth: Auth,
                   succeeded: set<Tx>, round: nat)
    requires GenOk(gen) && IsRun(gen, worlds, steps, money, supply) && i < j < |worlds| && steps[i].Success?
    requires var tx := steps[i].tx;
      && tx.stateLock.None? && (BoundCounter(tx).Some? || tx.attrs.MintFT?)
      && (tx.attrs.Nop? ==> BillAt(worlds[i].ledger, tx.unitId).Some? || TokenAt(worlds[i].ledger, tx.unitId).Some?)
    ensures Process(gen, auth, succeeded, worlds[j].ledger, steps[i].tx, round).None?
  {
    hide RunInv, Next, Start, GenOk, Process, CountersGrow;
    var tx := steps[i].tx;
    RunInvariant(gen, worlds, steps, money, supply, i);
    if BoundCounter(tx).Some? {
      MovesOn(gen, worlds[i], steps[i], worlds[i + 1], money, supply);
      StaleFails(gen, worlds, steps, money, supply, i + 1, j, tx, BoundCounter(tx).value, auth, succeeded, round);
    } else {
      RunInvariant(gen, worlds, steps, money, supply, j);
      Minted(gen, worlds[i], steps[i], worlds[i + 1], money, supply);
      RunCounters(gen, worlds, steps, money, supply, i + 1, j);
      NotMintedAgain(gen, auth, worlds[i + 1].ledger, worlds[j], tx, succeeded, round, money, supply);
    }
  }

  lemma Minted(gen: Gen, w: World, step: Step, w': World, money: nat, supply: nat)
    requires GenOk(gen) && RunInv(gen, w, money, supply) && step.Success? && Next(gen, w, step, w')
    requires step.tx.stateLock.None? && step.tx.attrs.MintFT?
    ensures TokenAt(w'.ledger, step.tx.unitId).Some?
  {
    hide Inv, Bounded, GenOk, UnlockAll, Process, Acceptable, Books, CreatedOutcome, SupplyOutcome, Apart;
    BooksBounded(w.ledger, w.succeeded, w.redeemed, Left(w, money), supply);
    ProcessOutcome(gen, step.auth, w.succeeded, w.ledger, w.seen, step.tx, step.round);
    AlikeNeutral(Process(gen, step.auth, w.succeeded, w.ledger, step.tx, step.round).value, w'.ledger);
  }

  lemma NotMintedAgain(gen: Gen, auth: Auth, m: Ledger, w: World, tx: Tx, succeeded: set<Tx>, round: nat, money: nat,
                       supply: nat)
    requires GenOk(gen) && RunInv(gen, w, money, supply) && tx.attrs.MintFT?
    requires TokenAt(m, tx.unitId).Some? && CountersGrow(m, w.ledger)
    ensures Process(gen, auth, succeeded, w.ledger, tx, round).None?
  {
    hide Inv, Bounded, GenOk, UnlockAll, Books, LockAll, Execute;
    var m1 := UnlockAll(gen, auth, w.ledger, tx, Targets(gen, tx), round);
    if m1.Some? {
      BooksBounded(w.ledger, w.succeeded, w.redeemed, Left(w, money), supply);
      UnlockAllNeutral(gen, auth, w.ledger, w.seen, tx, Targets(gen, tx), round);
      assert TokenAt(w.ledger, tx.unitId).Some?;
      assert TokenAt(m1.value, tx.unitId).Some?;
    }
  }

  // ----- sending a transaction again at once -----

  lemma {:induction false} NothingLocked(gen: Gen, auth: Auth, m: Ledger, tx: Tx, ids: seq<UnitId>, round: nat)
    requires forall id :: id in ids ==> Held(m, id).None?
    ensures UnlockAll(gen, auth, m, tx, ids, round) == Some(m)
    decreases |ids|
  {
    if ids != [] {
      NothingLocked(gen, auth, m, tx, ids[..|ids| - 1], round);
    }
  }

  lemma OutcomeUnlocked(gen: Gen, m: Ledger, tx: Tx, m': Ledger)
    requires Outcome(gen, m, tx, m') && forall id :: id in Targets(gen, tx) ==> Held(m, id).None?
    ensures forall id :: id in Targets(gen, tx) ==> Held(m', id).None?
  {
    assert Targets(gen, tx)[0] == tx.unitId;
    forall id | id in Targets(gen, tx) ensures Held(m', id).None? {
      if id != tx.unitId {
        var i :| 0 <= i < |Created(gen, tx)| && Created(gen, tx)[i] == id;
        assert id == gen(tx, i);
      }
    }
  }

  /** Right after its execution a transaction could be executed again exactly if it depends on no counter and makes
      no token: an empty swap, an empty join, or one that does nothing to a unit without data.  Only the buffer
      of executed transactions stops those. */
  lemma RepeatsExactly(gen: Gen, auth: Auth, succeeded: set<Tx>, m: Ledger, seen: set<Tx>, tx: Tx, round: nat)
    requires GenOk(gen) && AuthOk(auth) && Inv(gen, m, seen) && Bounded(m) && tx !in seen && FitsWord(tx)
    requires tx.stateLock.None? && Process(gen, auth, succeeded, m, tx, round).Some?
    ensures Process(gen, auth, succeeded, Process(gen, auth, succeeded, m, tx, round).value, tx, round).Some? <==>
      BoundCounter(tx).None? && !tx.attrs.MintFT?
  {
    hide Inv, Bounded, GenOk, UnlockAll, Execute, Validate, LockAll, Acceptable, Outcome, Apart, Held, BoundCounter,
      OnlyReleases, AuthOk;
    var ids := Targets(gen, tx);
    ProcessOutcome(gen, auth, succeeded, m, seen, tx, round);
    UnlockAllKeeps(gen, auth, m, seen, tx, ids, round);
    var m1, m2 := UnlockAll(gen, auth, m, tx, ids, round).value, Process(gen, auth, succeeded, m, tx, round).value;
    OutcomeUnlocked(gen, m1, tx, m2);
    NothingLocked(gen, auth, m2, tx, ids, round);
    ValidatesExactly(gen, auth, succeeded, m2, tx);
    AcceptedAgain(gen, auth, succeeded, m1, tx, m2);
    if Validate(gen, auth, succeeded, m2, tx).Some? {
      ExecutesAgain(gen, m2, tx, Validate(gen, auth, succeeded, m2, tx).value);
    }
  }

  lemma AcceptedAgain(gen: Gen, auth: Auth, succeeded: set<Tx>, m: Ledger, tx: Tx, m': Ledger)
    requires Apart(gen, tx) && Acceptable(gen, auth, succeeded, m, tx) && Outcome(gen, m, tx, m')
    ensures Acceptable(gen, auth, succeeded, m', tx) <==> BoundCounter(tx).None? && !tx.attrs.MintFT?
    ensures Acceptable(gen, auth, succeeded, m', tx) ==>
      && tx.unitId in m' && RightSort(tx, m'[tx.unitId].data) && (UsesSupply(tx) ==> BillAt(m', DC_SUPPLY).Some?)
      && (tx.attrs.SwapDC? || tx.attrs.JoinFT? || tx.attrs.Nop?)
  {
    hide Apart;
    assert tx.attrs.SwapDC? && tx.attrs.dust != [] ==> tx.attrs.dust[0] in tx.attrs.dust;
    assert tx.attrs.JoinFT? && tx.attrs.burns != [] ==> tx.attrs.burns[0] in tx.attrs.burns;
  }

  lemma ExecutesAgain(gen: Gen, m: Ledger, tx: Tx, amount: nat)
    requires tx.unitId in m && RightSort(tx, m[tx.unitId].data)
    requires tx.attrs.SwapDC? || tx.attrs.JoinFT? || tx.attrs.Nop?
    requires UsesSupply(tx) ==> BillAt(m, DC_SUPPLY).Some?
    ensures Execute(gen, m, tx, amount).Some?
  {
    var actions := Actions(gen, m, tx, amount).value;
    if tx.attrs.SwapDC? {
      Two(m, actions[0], actions[1]);
      assert actions == [actions[0], actions[1]];
    } else {
      Store.OneAction(m, actions[0]);
      assert actions == [actions[0]];
    }
  }

  // ----- owners -----

  /** The data of a bill or a token. */
  function Asset(m: Ledger, id: UnitId): (d: Option<UnitData>)
  {
    if BillAt(m, id).Some? then BillAt(m, id) else TokenAt(m, id)
  }

  /** Who is behind a change of the unit: a transaction that has the consent of its owner, or one that satisfies
      the execution predicate of the transaction that has the unit on hold; the collector's supply changes
      with the dust that comes and goes. */
  ghost predicate Allows(m: Ledger, step: Step, id: UnitId)
    requires Asset(m, id).Some?
  {
    match step
    case Success(tx, auth, _) =>
      || (tx.unitId == id && auth(Asset(m, id).value.owner, tx))
      || (Held(m, id).Some? && Held(m, id).value.unitId == id && ByExecution(auth, tx, Held(m, id).value))
      || (id == DC_SUPPLY && UsesSupply(tx))
    case Credit(tx, auth, _, unit, _) => unit == id && auth(Asset(m, id).value.owner, tx)
    case Reclaim(tx, auth, _, unit, _) => unit == id && auth(Asset(m, id).value.owner, tx)
    case _ => false
  }

  lemma AlikeAssets(m: Ledger, m': Ledger)
    requires SameOutside(m, m', {})
    ensures forall id :: Asset(m, id) == Asset(m', id)
  {
    forall id ensures Asset(m, id) == Asset(m', id) {
      assert id !in {};
      assert id in m ==> Alike(m[id], m'[id]);
    }
  }

  /** Releasing locks changes a bill or a token only by executing the transaction that has it on hold. */
  lemma ReleaseAllowed(gen: Gen, auth: Auth, m: Ledger, seen: set<Tx>, tx: Tx, ids: seq<UnitId>, round: nat, id: UnitId)
    requires GenOk(gen) && Inv(gen, m, seen) && Bounded(m) && UnlockAll(gen, auth, m, tx, ids, round).Some?
    requires Asset(m, id).Some? && Asset(UnlockAll(gen, auth, m, tx, ids, round).value, id) != Asset(m, id)
    ensures Held(m, id).Some? && Held(m, id).value.unitId == id && ByExecution(auth, tx, Held(m, id).value)
  {
    hide GenOk, Bounded, UnlockAll, OwnOutcome, Hits, Inv, ByExecution, ByRollback;
    var m1 := UnlockAll(gen, auth, m, tx, ids, round).value;
    UnlockAllExactly(gen, auth, m, seen, tx, ids, round);
    var h := m[id].lock.value;
    SomeHeld(m, id);
    assert Fate(gen, auth, m, tx, ids, round, h, m1);
    HeldFacts(gen, m, seen, h);
    CreatedAreDummies(gen, m, h);
  }

  /** The units that a transaction on hold would create have no data yet. */
  lemma CreatedAreDummies(gen: Gen, m: Ledger, h: Tx)
    requires OnHold(gen, m, h)
    ensures forall id :: id in TargetSet(gen, h) && id != h.unitId ==> Asset(m, id).None?
  {
    TargetsOf(gen, h);
    forall id | id in TargetSet(gen, h) && id != h.unitId ensures Asset(m, id).None? {
      var i :| 0 <= i < |Created(gen, h)| && Created(gen, h)[i] == id;
      assert id == gen(h, i);
    }
  }

  /** Execution changes only the unit of the transaction, the collector's supply, and units without data. */
  lemma TakenAllowed(gen: Gen, m: Ledger, tx: Tx, m': Ledger, id: UnitId)
    requires (if tx.stateLock.Some? then IsLocked(m, tx, Targets(gen, tx), m') else Outcome(gen, m, tx, m'))
    requires Asset(m, id).Some? && Asset(m', id) != Asset(m, id)
    ensures id == tx.unitId || (id == DC_SUPPLY && UsesSupply(tx))
  {
    if tx.stateLock.None? && id != tx.unitId {
      hide OwnOutcome, SupplyOutcome;
      TargetsOf(gen, tx);
      if id in Created(gen, tx) {
        var i :| 0 <= i < |Created(gen, tx)| && Created(gen, tx)[i] == id;
      }
    }
  }

  lemma AcceptableOwner(gen: Gen, auth: Auth, succeeded: set<Tx>, m: Ledger, tx: Tx)
    requires Acceptable(gen, auth, succeeded, m, tx) && Asset(m, tx.unitId).Some?
    ensures auth(Asset(m, tx.unitId).value.owner, tx)
  {
  }

  lemma SuccessAllowed(gen: Gen, w: World, step: Step, w': World, money: nat, supply: nat, id: UnitId)
    requires GenOk(gen) && RunInv(gen, w, money, supply) && step.Success? && Next(gen, w, step, w')
    requires Asset(w.ledger, id).Some? && Asset(w'.ledger, id) != Asset(w.ledger, id)
    ensures Allows(w.ledger, step, id)
  {
    hide Inv, Bounded, GenOk, UnlockAll, Process, Acceptable, Outcome, Books, SameOutside, Apart, IsLocked, Asset,
      ByExecution, UsesSupply;
    var m, tx, auth := w.ledger, step.tx, step.auth;
    BooksBounded(m, w.succeeded, w.redeemed, Left(w, money), supply);
    ProcessOutcome(gen, auth, w.succeeded, m, w.seen, tx, step.round);
    var m1 := UnlockAll(gen, auth, m, tx, Targets(gen, tx), step.round).value;
    var m2 := Process(gen, auth, w.succeeded, m, tx, step.round).value;
    AlikeAssets(m2, w'.ledger);
    if Asset(m1, id) != Asset(m, id) {
      ReleaseAllowed(gen, auth, m, w.seen, tx, Targets(gen, tx), step.round, id);
    } else {
      TakenAllowed(gen, m1, tx, m2, id);
      if id == tx.unitId {
        AcceptableOwner(gen, auth, w.succeeded, m1, tx);
      }
    }
  }

  lemma CreditAllowed(gen: Gen, w: World, step: Step, w': World, money: nat, supply: nat, id: UnitId)
    requires GenOk(gen) && RunInv(gen, w, money, supply) && (step.Credit? || step.Reclaim?) && Next(gen, w, step, w')
    requires Asset(w.ledger, id).Some? && Asset(w'.ledger, id) != Asset(w.ledger, id)
    ensures Allows(w.ledger, step, id)
  {
    hide Inv, Bounded, GenOk, Unlock, Books, SameOutside, OwnOutcome, RolledBack, CreatedOutcome, ByExecution,
      ByRollback;
    var m, unit := w.ledger, step.id;
    BooksBounded(m, w.succeeded, w.redeemed, Left(w, money), supply);
    var m1 := Unlock(gen, step.auth, m, step.tx, unit, step.round).value;
    var v := BillAt(m1, unit).value.value;
    AlikeAssets(Revalued(m1, unit, if step.Credit? then Sub64(v, step.amount) else Add64(v, step.amount)), w'.ledger);
    if Held(m, unit).Some? {
      var g := Held(m, unit).value;
      SomeHeld(m, unit);
      HeldFacts(gen, m, w.seen, g);
      OneUnit(gen, g);
      UnlockExactly(gen, step.auth, m, w.seen, step.tx, unit, step.round);
    } else {
      Unheld(gen, step.auth, m, step.tx, unit, step.round);
    }
  }

  lemma RoundAllowed(gen: Gen, w: World, step: Step, w': World, money: nat, supply: nat, id: UnitId)
    requires RunInv(gen, w, money, supply) && step.NewRound? && Next(gen, w, step, w')
    ensures Asset(w'.ledger, id) == Asset(w.ledger, id)
  {
    assert id in w.ledger ==> MarkOk(w.ledger[id]);
  }

  /** No step of a run changes a bill or a token in any way, or takes it away, unless it is allowed to. */
  lemma ChangesAllowed(gen: Gen, w: World, step: Step, w': World, money: nat, supply: nat, id: UnitId)
    requires GenOk(gen) && RunInv(gen, w, money, supply) && Next(gen, w, step, w')
    requires Asset(w.ledger, id).Some? && Asset(w'.ledger, id) != Asset(w.ledger, id)
    ensures Allows(w.ledger, step, id)
  {
    hide Inv, GenOk, Process, Books, SameOutside, Asset, Unlock;
    match step
    case Success(_, _, _) => SuccessAllowed(gen, w, step, w', money, supply, id);
    case Failure(_) => AlikeAssets(w.ledger, w'.ledger);
    case NewRound(_, _) => RoundAllowed(gen, w, step, w', money, supply, id);
    case _ => CreditAllowed(gen, w, step, w', money, supply, id);
  }

  /** What a transfer to fee credit or a reclaim makes of its bill: the amount goes or comes, the counter is at
      least one higher, and the owner stays. */
  lemma CreditOutcome(gen: Gen, w: World, step: Step, w': World, money: nat, supply: nat)
    requires GenOk(gen) && RunInv(gen, w, money, supply) && (step.Credit? || step.Reclaim?) && Next(gen, w, step, w')
    ensures BillAt(w'.ledger, step.id).Some?
    ensures var b, b' := BillAt(w.ledger, step.id).value, BillAt(w'.ledger, step.id).value;
      && b'.owner == b.owner && b'.counter > b.counter
      && b'.value == if step.Credit? then b.value - step.amount else b.value + step.amount
  {
    hide Inv, GenOk, Unlock, SameOutside, Books, Sub64, Add64, CountersGrow;
    var m, id, left := w.ledger, step.id, Left(w, money);
    BooksBounded(m, w.succeeded, w.redeemed, left, supply);
    var m1 := Unlock(gen, step.auth, m, step.tx, id, step.round).value;
    UnlockNeutral(gen, step.auth, m, w.seen, step.tx, id, step.round);
    NopReleased(gen, step.auth, m, w.seen, step.tx, id, step.round);
    GrownAt(m, m1, id);
    BillInTotal(m, w.succeeded, w.redeemed, left, supply, id);
    var v := BillAt(m1, id).value.value;
    NoWrap(v, step.amount);
    AlikeAssets(Revalued(m1, id, if step.Credit? then Sub64(v, step.amount) else Add64(v, step.amount)), w'.ledger);
    assert Asset(w'.ledger, id).Some?;
  }

  lemma GrownAt(m: Ledger, m': Ledger, id: UnitId)
    requires CountersGrow(m, m') && BillAt(m, id).Some? && BillAt(m', id).Some?
    ensures BillAt(m, id).value.counter <= BillAt(m', id).value.counter
  {
  }

  // ----- holds -----

  /** The step put the transaction on hold, with the consent of the unit's owner; what it says about the unit
      is true. */
  ghost predicate PutsOnHold(step: Step, h: Tx, d: UnitData)
  {
    step.Success? && step.tx == h && step.auth(d.owner, h) && SaysTrue(h, d)
  }

  /** The unit was on hold before, and is as it was, or the step put it on hold. */
  ghost predicate HoldComesFrom(m: Ledger, step: Step, h: Tx, m': Ledger)
    requires Asset(m', h.unitId).Some?
  {
    || (Held(m, h.unitId) == Some(h) && Asset(m, h.unitId) == Asset(m', h.unitId))
    || PutsOnHold(step, h, Asset(m', h.unitId).value)
  }

  lemma AlikeLocks(m: Ledger, m': Ledger)
    requires SameOutside(m, m', {})
    ensures forall id :: Held(m, id) == Held(m', id)
  {
    forall id ensures Held(m, id) == Held(m', id) {
      assert id !in {};
    }
  }

  /** A transaction leaves a lock on a unit only if it is put on hold itself, and then with the owner's consent. */
  lemma OwnLock(gen: Gen, auth: Auth, succeeded: set<Tx>, m: Ledger, tx: Tx, m': Ledger, h: Tx)
    requires Acceptable(gen, auth, succeeded, m, tx)
    requires (if tx.stateLock.Some? then IsLocked(m, tx, Targets(gen, tx), m') else Outcome(gen, m, tx, m'))
    requires Held(m', h.unitId) == Some(h) && Held(m, h.unitId) != Some(h) && Asset(m', h.unitId).Some?
    ensures tx == h && auth(Asset(m', h.unitId).value.owner, h) && SaysTrue(h, Asset(m', h.unitId).value)
  {
    if tx.stateLock.None? {
      NoNewLock(gen, m, tx, m', h.unitId);
    } else {
      assert Targets(gen, tx)[0] == tx.unitId;
      assert h.unitId in Targets(gen, tx);
    }
  }

  lemma NoNewLock(gen: Gen, m: Ledger, tx: Tx, m': Ledger, id: UnitId)
    requires Outcome(gen, m, tx, m')
    ensures Held(m', id).None? || Held(m', id) == Held(m, id)
  {
    hide OwnOutcome;
    TargetsOf(gen, tx);
    if id in Created(gen, tx) {
      var i :| 0 <= i < |Created(gen, tx)| && Created(gen, tx)[i] == id;
      assert id == gen(tx, i);
    }
  }

  lemma SuccessHolds(gen: Gen, w: World, step: Step, w': World, money: nat, supply: nat, h: Tx)
    requires GenOk(gen) && RunInv(gen, w, money, supply) && step.Success? && Next(gen, w, step, w')
    requires Held(w'.ledger, h.unitId) == Some(h) && Asset(w'.ledger, h.unitId).Some?
    ensures HoldComesFrom(w.ledger, step, h, w'.ledger)
  {
    hide Inv, Bounded, GenOk, UnlockAll, Process, Acceptable, Outcome, Books, SameOutside, Apart, IsLocked, Asset, Held,
      OnlyReleases, AllFates, Hits, IsHeld, AuthOk;
    var m, tx, auth, id := w.ledger, step.tx, step.auth, h.unitId;
    BooksBounded(m, w.succeeded, w.redeemed, Left(w, money), supply);
    ProcessOutcome(gen, auth, w.succeeded, m, w.seen, tx, step.round);
    var m1 := UnlockAll(gen, auth, m, tx, Targets(gen, tx), step.round).value;
    var m2 := Process(gen, auth, w.succeeded, m, tx, step.round).value;
    AlikeAssets(m2, w'.ledger);
    AlikeLocks(m2, w'.ledger);
    if Held(m1, id) == Some(h) {
      UnlockAllExactly(gen, auth, m, w.seen, tx, Targets(gen, tx), step.round);
      UnlockAllKeeps(gen, auth, m, w.seen, tx, Targets(gen, tx), step.round);
      StillHeld(gen, auth, m, w.seen, tx, Targets(gen, tx), step.round, m1, id);
      ProcessObeysLocks(gen, auth, w.succeeded, m, w.seen, tx, step.round, h);
      SameUnit(m, m2, TargetSet(gen, h), id);
    } else {
      OwnLock(gen, auth, w.succeeded, m1, tx, m2, h);
    }
  }

  lemma SameUnit(m: Ledger, m': Ledger, ids: set<UnitId>, id: UnitId)
    requires SameOn(m, m', ids) && id in ids
    ensures Held(m, id) == Held(m', id) && Asset(m, id) == Asset(m', id)
  {
  }

  lemma CreditHolds(gen: Gen, w: World, step: Step, w': World, money: nat, supply: nat, h: Tx)
    requires GenOk(gen) && RunInv(gen, w, money, supply) && (step.Credit? || step.Reclaim?) && Next(gen, w, step, w')
    requires Held(w'.ledger, h.unitId) == Some(h) && Asset(w'.ledger, h.unitId).Some?
    ensures HoldComesFrom(w.ledger, step, h, w'.ledger)
  {
    hide Inv, Bounded, GenOk, Unlock, Books, SameOutside, OnlyReleases, TookEffect, RolledBack, ByExecution, ByRollback;
    var m, unit := w.ledger, step.id;
    BooksBounded(m, w.succeeded, w.redeemed, Left(w, money), supply);
    var m1 := Unlock(gen, step.auth, m, step.tx, unit, step.round).value;
    var v := BillAt(m1, unit).value.value;
    var m2 := Revalued(m1, unit, if step.Credit? then Sub64(v, step.amount) else Add64(v, step.amount));
    AlikeAssets(m2, w'.ledger);
    AlikeLocks(m2, w'.ledger);
    UnlockKeeps(gen, step.auth, m, w.seen, step.tx, unit, step.round);
    assert unit != h.unitId;
    if Held(m, unit).Some? {
      SomeHeld(m, unit);
      HeldFacts(gen, m, w.seen, Held(m, unit).value);
      OneUnit(gen, Held(m, unit).value);
      UnlockExactly(gen, step.auth, m, w.seen, step.tx, unit, step.round);
    } else {
      Unheld(gen, step.auth, m, step.tx, unit, step.round);
    }
  }

  lemma StepHolds(gen: Gen, w: World, step: Step, w': World, money: nat, supply: nat, h: Tx)
    requires GenOk(gen) && RunInv(gen, w, money, supply) && Next(gen, w, step, w')
    requires Held(w'.ledger, h.unitId) == Some(h) && Asset(w'.ledger, h.unitId).Some?
    ensures HoldComesFrom(w.ledger, step, h, w'.ledger)
  {
    hide Inv, GenOk, Process, Books, SameOutside, Asset, Unlock;
    match step
    case Success(_, _, _) => SuccessHolds(gen, w, step, w', money, supply, h);
    case Failure(_) =>
      AlikeAssets(w.ledger, w'.ledger);
      AlikeLocks(w.ledger, w'.ledger);
    case NewRound(_, _) => RoundAllowed(gen, w, step, w', money, supply, h.unitId);
    case _ => CreditHolds(gen, w, step, w', money, supply, h);
  }

  /** Whoever has a bill or a token on hold was put there with the consent of the one who still owns it, and what
      it says about the unit is still true. */
  lemma {:induction false} HeldWithConsent(gen: Gen, worlds: seq<World>, steps: seq<Step>, money: nat, supply: nat,
                                           i: nat, h: Tx) returns (k: nat)
    requires GenOk(gen) && IsRun(gen, worlds, steps, money, supply) && i < |worlds|
    requires Held(worlds[i].ledger, h.unitId) == Some(h) && Asset(worlds[i].ledger, h.unitId).Some?
    ensures k < i && PutsOnHold(steps[k], h, Asset(worlds[i].ledger, h.unitId).value)
  {
    hide RunInv, Next, GenOk, Asset, PutsOnHold;
    if i == 0 {
      assert false;
    } else {
      RunInvariant(gen, worlds, steps, money, supply, i - 1);
      StepHolds(gen, worlds[i - 1], steps[i - 1], worlds[i], money, supply, h);
      if PutsOnHold(steps[i - 1], h, Asset(worlds[i].ledger, h.unitId).value) {
        k := i - 1;
      } else {
        k := HeldWithConsent(gen, worlds, steps, money, supply, i - 1, h);
      }
    }
  }

  // ----- theorem -----

  /** The owner agrees to what the step's transaction does. */
  ghost predicate Agrees(step: Step, owner: Predicate)
  {
    match step
    case Success(tx, auth, _) => auth(owner, tx)
    case Credit(tx, auth, _, _, _) => auth(owner, tx)
    case Reclaim(tx, auth, _, _, _) => auth(owner, tx)
    case _ => false
  }

  /** The transaction of the step is about this unit. */
  predicate IsAbout(step: Step, id: UnitId)
  {
    match step
    case Success(tx, _, _) => tx.unitId == id
    case Credit(_, _, _, unit, _) => unit == id
    case Reclaim(_, _, _, unit, _) => unit == id
    case _ => false
  }

  /** In every run: whenever a bill or a token changes, its owner has agreed to a transaction about it, with the step
      that changes it, or with the one that put that transaction on hold.  (The collector's supply is apart.) */
  lemma OwnersDecide(gen: Gen, worlds: seq<World>, steps: seq<Step>, money: nat, supply: nat, i: nat, id: UnitId)
    returns (k: nat)
    requires GenOk(gen) && IsRun(gen, worlds, steps, money, supply) && i < |steps| && id != DC_SUPPLY
    requires Asset(worlds[i].ledger, id).Some? && Asset(worlds[i + 1].ledger, id) != Asset(worlds[i].ledger, id)
    ensures k <= i && IsAbout(steps[k], id) && Agrees(steps[k], Asset(worlds[i].ledger, id).value.owner)
  {
    hide RunInv, Next, GenOk, Asset, Start;
    RunInvariant(gen, worlds, steps, money, supply, i);
    ChangesAllowed(gen, worlds[i], steps[i], worlds[i + 1], money, supply, id);
    if IsAbout(steps[i], id) && Agrees(steps[i], Asset(worlds[i].ledger, id).value.owner) {
      k := i;
    } else {
      k := HeldWithConsent(gen, worlds, steps, money, supply, i, Held(worlds[i].ledger, id).value);
    }
  }

  /** After a transfer it is the new owner who decides: as long as the unit is as the transfer left it and not on
      hold, no transaction about it succeeds without the new owner's consent. */
  lemma NewOwnerDecides(gen: Gen, worlds: seq<World>, steps: seq<Step>, money: nat, supply: nat, i: nat, j: nat, tx: Tx,
                        auth: Auth, succeeded: set<Tx>, round: nat)
    requires GenOk(gen) && IsRun(gen, worlds, steps, money, supply) && i < j < |worlds| && steps[i].Success?
    requires steps[i].tx.stateLock.None? && (steps[i].tx.attrs.Transfer? || steps[i].tx.attrs.TransferFT?)
    requires tx.unitId == steps[i].tx.unitId && Held(worlds[j].ledger, tx.unitId).None?
    requires Asset(worlds[j].ledger, tx.unitId) == Asset(worlds[i + 1].ledger, tx.unitId)
    requires Process(gen, auth, succeeded, worlds[j].ledger, tx, round).Some?
    ensures auth(steps[i].tx.attrs.newOwner, tx)
  {
    hide RunInv, Next, GenOk, Asset, Start, Process;
    RunInvariant(gen, worlds, steps, money, supply, i);
    RunInvariant(gen, worlds, steps, money, supply, j);
    TransferredTo(gen, worlds[i], steps[i], worlds[i + 1], money, supply);
    OwnerNeeded(gen, worlds[j], tx, auth, succeeded, round, money, supply);
  }

  lemma TransferredTo(gen: Gen, w: World, step: Step, w': World, money: nat, supply: nat)
    requires GenOk(gen) && RunInv(gen, w, money, supply) && step.Success? && Next(gen, w, step, w')
    requires step.tx.stateLock.None? && (step.tx.attrs.Transfer? || step.tx.attrs.TransferFT?)
    ensures Asset(w'.ledger, step.tx.unitId).Some?
    ensures Asset(w'.ledger, step.tx.unitId).value.owner == step.tx.attrs.newOwner
  {
    hide Inv, Bounded, GenOk, UnlockAll, Process, Acceptable, Books, SameOutside, CreatedOutcome, SupplyOutcome, Apart;
    BooksBounded(w.ledger, w.succeeded, w.redeemed, Left(w, money), supply);
    ProcessOutcome(gen, step.auth, w.succeeded, w.ledger, w.seen, step.tx, step.round);
    AlikeAssets(Process(gen, step.auth, w.succeeded, w.ledger, step.tx, step.round).value, w'.ledger);
  }

  lemma OwnerNeeded(gen: Gen, w: World, tx: Tx, auth: Auth, succeeded: set<Tx>, round: nat, money: nat, supply: nat)
    requires GenOk(gen) && RunInv(gen, w, money, supply) && Process(gen, auth, succeeded, w.ledger, tx, round).Some?
    requires Asset(w.ledger, tx.unitId).Some? && Held(w.ledger, tx.unitId).None?
    ensures auth(Asset(w.ledger, tx.unitId).value.owner, tx)
  {
    hide Inv, Bounded, GenOk, UnlockAll, Validate, Execute, LockAll, Acceptable, Books, ByExecution;
    var ids := Targets(gen, tx);
    var m1 := UnlockAll(gen, auth, w.ledger, tx, ids, round).value;
    BooksBounded(w.ledger, w.succeeded, w.redeemed, Left(w, money), supply);
    if Asset(m1, tx.unitId) != Asset(w.ledger, tx.unitId) {
      ReleaseAllowed(gen, auth, w.ledger, w.seen, tx, ids, round, tx.unitId);
    }
    ValidatesExactly(gen, auth, succeeded, m1, tx);
    AcceptableOwner(gen, auth, succeeded, m1, tx);
  }
}
