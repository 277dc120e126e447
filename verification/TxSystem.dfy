/** Executing a transaction against the state: savepoints, fees, logs and the duplicate buffer.

    What the handlers of a transaction do is left open: each stage (releasing locks, validation, locking
    or execution) is any sequence of atomic updates of the state, and may fail at any point. */
module TxSystem {
  import opened Units
  import Store
  import StateHeap
  import Fees
  import TxBuffer
  import AvlHeap
  import Summaries
  import A = Avl

  /** An atomic update that a handler makes; when it is optional the handler carries on if it fails. */
  datatype Update = Update(actions: seq<Store.Action>, optional: bool)

  /** A stage of processing: its updates, whether it fails after them, and the units it reports. */
  datatype Stage = Stage(updates: seq<Update>, fails: bool, targets: seq<UnitId>)

  // ----- what the stages do -----

  /** The ledger after the updates, and whether all that had to succeed did. */
  function Updated(m: Store.Ledger, updates: seq<Update>): (r: (Store.Ledger, bool))
    decreases |updates|
  {
    if updates == [] then (m, true)
    else
      var n := |updates| - 1;
      var (m1, ok) := Updated(m, updates[..n]);
      if !ok then (m1, false)
      else (Store.Apply(m1, updates[n].actions), updates[n].optional || Store.ActAll(m1, updates[n].actions).Ok?)
  }

  /** Unit identifiers collected without repetition. */
  function Merge(ids: seq<UnitId>, more: seq<UnitId>): (r: seq<UnitId>)
    decreases |more|
  {
    if more == [] then ids
    else
      var r := Merge(ids, more[..|more| - 1]);
      if more[|more| - 1] in r then r else r + [more[|more| - 1]]
  }

  datatype Progress = Progress(ledger: Store.Ledger, targets: seq<UnitId>, ok: bool)

  /** The stages one after the other, up to the first that fails. */
  function Processed(m: Store.Ledger, stages: seq<Stage>): (p: Progress)
    decreases |stages|
  {
    if stages == [] then Progress(m, [], true)
    else
      var n := |stages| - 1;
      var p := Processed(m, stages[..n]);
      if !p.ok then p
      else
        var (m1, ok) := Updated(p.ledger, stages[n].updates);
        if ok && !stages[n].fails then Progress(m1, Merge(p.targets, stages[n].targets), true)
        else Progress(m1, p.targets, false)
  }

  function Debit(fcr: UnitId, fee: nat): (a: Store.Action)
  {
    Store.UpdateUnitData(fcr, d => Fees.DecrCredit(d, fee))
  }

  /** A log entry for every target; None if a target does not exist. */
  function Logged(m: Store.Ledger, targets: seq<UnitId>, txr: Digest): (r: Option<Store.Ledger>)
    decreases |targets|
  {
    if targets == [] then Some(m)
    else
      match Logged(m, targets[..|targets| - 1], txr)
      case None => None
      case Some(m1) =>
        match Store.AddUnitLog(m1, targets[|targets| - 1], txr)
        case Ok(m2) => Some(m2)
        case Err(_) => None
  }

  /** Fee and logs on top of what the transaction did. */
  function Settled(m: Store.Ledger, targets: seq<UnitId>, fcr: UnitId, fee: nat, txr: Digest): (r: Option<Store.Ledger>)
  {
    if fee == 0 then Logged(m, targets, txr)
    else
      match Store.Act(m, Debit(fcr, fee))
      case Err(_) => None
      case Ok(m1) => Logged(m1, targets + [fcr], txr)
  }

  datatype Receipt = Refused | Receipt(success: bool)

  /** The result of an ordinary transaction: refused and nothing changed, or in the block with a success
      or a failure status. */
  function Executed(m: Store.Ledger, stages: seq<Stage>, fcr: UnitId, fee: nat,
                    txr: Digest): (r: (Store.Ledger, Receipt))
  {
    var p := Processed(m, stages);
    match Settled(if p.ok then p.ledger else m, if p.ok then p.targets else [], fcr, fee, txr)
    case None => (m, Refused)
    case Some(m') => (m', Receipt(p.ok))
  }

  /** A fee credit transaction on a unit: never on hold, only on a unit that is free or held by a
      transaction that does nothing, validated before anything changes, and all or nothing. */
  function FcExecuted(m: Store.Ledger, id: UnitId, conditional: bool, valid: bool, unlock: Stage, execution: Stage,
                      txr: Digest): (r: (Store.Ledger, Receipt))
  {
    if conditional || (id in m && m[id].lock.Some? && !m[id].lock.value.attrs.Nop?) || !valid then (m, Refused)
    else
      var p := Processed(m, [unlock, execution]);
      if !p.ok then (m, Refused)
      else
        match Logged(p.ledger, execution.targets, txr)
        case None => (m, Refused)
        case Some(m') => (m', Receipt(true))
  }

  /** Whether a fee credit record can pay the maximum fee. */
  predicate Credible(m: Store.Ledger, fcr: UnitId, maxFee: nat, authorized: bool)
  {
    fcr in m && m[fcr].data.Some? && m[fcr].data.value.Fcr? && m[fcr].data.value.balance >= maxFee && authorized
  }

  // ----- theorems about the result -----

  /** A transaction that fails leaves no trace but the fee and a log entry on the fee credit record. */
  lemma FailedChangesOnlyFee(m: Store.Ledger, stages: seq<Stage>, fcr: UnitId, fee: nat, txr: Digest)
    requires Executed(m, stages, fcr, fee, txr).1 == Receipt(false) && fee > 0
    ensures fcr in m && Fees.DecrCredit(m[fcr].data, fee).Some?
    ensures Executed(m, stages, fcr, fee, txr).0 ==
      m[fcr := Store.WithLog(m[fcr].(data := Fees.DecrCredit(m[fcr].data, fee).value), txr)]
    ensures IsPaid(m[fcr].data, fee, Executed(m, stages, fcr, fee, txr).0[fcr].data)
  {
    var m1 := Store.Act(m, Debit(fcr, fee)).ledger;
    assert [] + [fcr] == [fcr];
    assert [fcr][..0] == [];
    assert Logged(m1, [fcr], txr) == Some(m1[fcr := Store.WithLog(m1[fcr], txr)]);
  }

  /** A fee credit record that was credible pays for a failed transaction in any case. */
  lemma FailedIsPaid(m: Store.Ledger, stages: seq<Stage>, fcr: UnitId, fee: nat, maxFee: nat, txr: Digest)
    requires fcr in m && m[fcr].data.Some? && m[fcr].data.value.Fcr? && m[fcr].data.value.balance >= maxFee
    requires 0 < fee <= maxFee
    requires !Processed(m, stages).ok
    ensures Executed(m, stages, fcr, fee, txr).1 == Receipt(false)
  {
    var m1 := Store.Act(m, Debit(fcr, fee)).ledger;
    assert [] + [fcr] == [fcr];
    assert [fcr][..0] == [];
    assert Logged(m1, [], txr) == Some(m1);
    assert Store.AddUnitLog(m1, fcr, txr).Ok?;
  }

  /** The fee is gone from the balance, and nothing else of the record has changed. */
  predicate IsPaid(d: Option<UnitData>, fee: nat, d': Option<UnitData>)
  {
    && d.Some? && d'.Some? && d.value.Fcr? && d'.value.Fcr? && d'.value.balance + fee == d.value.balance
    && d'.value.counter == d.value.counter && d'.value.minLifetime == d.value.minLifetime
    && d'.value.owner == d.value.owner
  }

  // ----- what counts as a success -----

  /** The updates of a stage count as done exactly if each one that is not optional could be made in its turn. */
  lemma {:induction false} UpdatesExactly(m: Store.Ledger, updates: seq<Update>)
    ensures Updated(m, updates).1 <==> forall k :: 0 <= k < |updates| ==> IsMade(m, updates, k)
    decreases |updates|
  {
    if updates != [] {
      var n := |updates| - 1;
      UpdatesExactly(m, updates[..n]);
      assert forall k :: 0 <= k < n ==> updates[..n][..k] == updates[..k] && updates[..n][k] == updates[k];
      assert forall k :: 0 <= k < n ==> IsMade(m, updates[..n], k) == IsMade(m, updates, k);
      assert Updated(m, updates).1 <==> Updated(m, updates[..n]).1 && IsMade(m, updates, n);
    }
  }

  predicate IsMade(m: Store.Ledger, updates: seq<Update>, k: nat)
    requires k < |updates|
  {
    updates[k].optional || Store.ActAll(Updated(m, updates[..k]).0, updates[k].actions).Ok?
  }

  /** A transaction succeeds exactly if every stage, in its turn, does its updates and does not fail. */
  lemma {:induction false} SucceedsExactly(m: Store.Ledger, stages: seq<Stage>)
    ensures Processed(m, stages).ok <==> forall k :: 0 <= k < |stages| ==> IsPassed(m, stages, k)
    decreases |stages|
  {
    if stages != [] {
      var n := |stages| - 1;
      SucceedsExactly(m, stages[..n]);
      assert forall k :: 0 <= k < n ==> stages[..n][..k] == stages[..k] && stages[..n][k] == stages[k];
      assert forall k :: 0 <= k < n ==> IsPassed(m, stages[..n], k) == IsPassed(m, stages, k);
      assert Processed(m, stages).ok <==> Processed(m, stages[..n]).ok && IsPassed(m, stages, n);
    }
  }

  predicate IsPassed(m: Store.Ledger, stages: seq<Stage>, k: nat)
    requires k < |stages|
  {
    !stages[k].fails && Updated(Processed(m, stages[..k]).ledger, stages[k].updates).1
  }

  // ----- what is logged -----

  /** The unit has new log entries, all for the transaction; the last one has its present data, lock and
      deletion mark. */
  predicate NewlyLogged(u: Unit, u': Unit, txr: Digest)
  {
    && u' == u.(logs := u'.logs) && |u.logs| < |u'.logs| && u'.logs[..|u.logs|] == u.logs
    && (forall i :: |u.logs| <= i < |u'.logs| ==> u'.logs[i].txr == txr)
    && var last := u'.logs[|u'.logs| - 1];
    && last.data == u'.data && last.lock == u'.lock && last.deletionRound == u'.deletionRound
  }

  /** All units that exist can be logged; a target gets a new entry, every other unit stays as it is. */
  lemma {:induction false} LogsExactly(m: Store.Ledger, targets: seq<UnitId>, txr: Digest)
    ensures Logged(m, targets, txr).Some? <==> forall id :: id in targets ==> id in m
    ensures Logged(m, targets, txr).Some? ==>
      var m' := Logged(m, targets, txr).value;
      m'.Keys == m.Keys && forall id :: id in m ==>
        if id in targets then NewlyLogged(m[id], m'[id], txr) else m'[id] == m[id]
    decreases |targets|
  {
    hide NewlyLogged;
    if targets != [] {
      var n := |targets| - 1;
      LogsExactly(m, targets[..n], txr);
      assert forall id :: id in targets <==> id in targets[..n] || id == targets[n];
      if Logged(m, targets[..n], txr).Some? && targets[n] in m {
        OneLog(m[targets[n]], Logged(m, targets[..n], txr).value[targets[n]], txr);
      }
    }
  }

  /** One entry more. */
  lemma OneLog(u: Unit, u1: Unit, txr: Digest)
    requires u1 == u || NewlyLogged(u, u1, txr)
    ensures NewlyLogged(u, Store.WithLog(u1, txr), txr)
  {
    var logs := Store.WithLog(u1, txr).logs;
    assert logs[..|u1.logs|] == u1.logs;
  }

  lemma {:induction false} MergeCollects(ids: seq<UnitId>, more: seq<UnitId>)
    ensures forall id :: id in Merge(ids, more) <==> id in ids || id in more
    decreases |more|
  {
    if more != [] {
      var n := |more| - 1;
      MergeCollects(ids, more[..n]);
      assert forall id :: id in more <==> id in more[..n] || id == more[n];
    }
  }

  predicate IsReported(stages: seq<Stage>, id: UnitId)
  {
    exists k :: 0 <= k < |stages| && id in stages[k].targets
  }

  /** After a success every unit that some stage reported is a target, and no other. */
  lemma {:induction false} TargetsCollected(m: Store.Ledger, stages: seq<Stage>)
    requires Processed(m, stages).ok
    ensures forall id :: id in Processed(m, stages).targets <==> IsReported(stages, id)
    decreases |stages|
  {
    hide Merge, Updated;
    if stages != [] {
      var n := |stages| - 1;
      TargetsCollected(m, stages[..n]);
      MergeCollects(Processed(m, stages[..n]).targets, stages[n].targets);
      forall id ensures IsReported(stages, id) <==> IsReported(stages[..n], id) || id in stages[n].targets {
        if IsReported(stages[..n], id) {
          var k :| 0 <= k < n && id in stages[..n][k].targets;
          assert id in stages[k].targets;
        }
        if IsReported(stages, id) && id !in stages[n].targets {
          var k :| 0 <= k < |stages| && id in stages[k].targets;
          assert id in stages[..n][k].targets;
        }
      }
    }
  }

  /** Fee and logs: the fee is paid, the targets and the record that paid it are logged, all else stays. */
  lemma SettledExactly(m: Store.Ledger, targets: seq<UnitId>, fcr: UnitId, fee: nat, txr: Digest)
    requires Settled(m, targets, fcr, fee, txr).Some?
    ensures var m' := Settled(m, targets, fcr, fee, txr).value;
      && m'.Keys == m.Keys && (forall id :: id in targets ==> id in m)
      && (fee > 0 ==> fcr in m && IsPaid(m[fcr].data, fee, m'[fcr].data))
      && forall id :: id in m ==>
        if id in targets || (fee > 0 && id == fcr) then
          NewlyLogged(if fee > 0 && id == fcr then m[id].(data := m'[id].data) else m[id], m'[id], txr)
        else m'[id] == m[id]
  {
    hide Logged, NewlyLogged;
    if fee == 0 {
      LogsExactly(m, targets, txr);
    } else {
      var m1 := Store.Act(m, Debit(fcr, fee)).ledger;
      LogsExactly(m1, targets + [fcr], txr);
      var m' := Settled(m, targets, fcr, fee, txr).value;
      assert fcr in targets + [fcr];
      DataStays(m1[fcr], m'[fcr], txr);
      assert IsPaid(m[fcr].data, fee, m1[fcr].data);
      assert m1[fcr] == m[fcr].(data := m'[fcr].data);
      forall id | id in targets ensures id in m {
        assert id in targets + [fcr];
      }
    }
  }

  lemma DataStays(u: Unit, u': Unit, txr: Digest)
    requires NewlyLogged(u, u', txr)
    ensures u'.data == u.data && A.IsLogged(u')
  {
  }

  /** What a transaction that succeeds leaves behind: every unit that its stages reported, and the record that
      paid, has a new log entry with its present data, lock and mark; all other units are as the stages left
      them. */
  lemma SuccessLogs(m: Store.Ledger, stages: seq<Stage>, fcr: UnitId, fee: nat, txr: Digest)
    requires Executed(m, stages, fcr, fee, txr).1 == Receipt(true)
    ensures var p, m' := Processed(m, stages), Executed(m, stages, fcr, fee, txr).0;
      && p.ok && m'.Keys == p.ledger.Keys && (forall id :: IsReported(stages, id) ==> id in m')
      && (fee > 0 ==> fcr in m' && IsPaid(p.ledger[fcr].data, fee, m'[fcr].data))
      && forall id :: id in m' ==>
        if IsReported(stages, id) || (fee > 0 && id == fcr) then
          NewlyLogged(if fee > 0 && id == fcr then p.ledger[id].(data := m'[id].data) else p.ledger[id], m'[id], txr)
        else m'[id] == p.ledger[id]
  {
    hide Processed, Settled, NewlyLogged;
    var p := Processed(m, stages);
    TargetsCollected(m, stages);
    SettledExactly(p.ledger, p.targets, fcr, fee, txr);
  }

  /** Every unit that differs is among the given ones. */
  ghost predicate ChangesOnly(m: Store.Ledger, m': Store.Ledger, ids: seq<UnitId>)
  {
    forall id :: id in m' && !(id in m && m'[id] == m[id]) ==> id in ids
  }

  /** If all that changed is logged, units stay as their logs say. */
  lemma LogsKeepUp(m: Store.Ledger, m1: Store.Ledger, targets: seq<UnitId>, fcr: UnitId, fee: nat, txr: Digest)
    requires A.AllLogged(m) && ChangesOnly(m, m1, targets) && Settled(m1, targets, fcr, fee, txr).Some?
    ensures A.AllLogged(Settled(m1, targets, fcr, fee, txr).value)
  {
    hide Settled, NewlyLogged, A.IsLogged, IsPaid;
    var m' := Settled(m1, targets, fcr, fee, txr).value;
    SettledExactly(m1, targets, fcr, fee, txr);
    forall id | id in m' ensures A.IsLogged(m'[id]) {
      if id in targets || (fee > 0 && id == fcr) {
        DataStays(if fee > 0 && id == fcr then m1[id].(data := m'[id].data) else m1[id], m'[id], txr);
      } else {
        assert id in m && m1[id] == m[id];
      }
    }
  }

  /** So after every transaction whose stages report what they change, whether it succeeds, fails or is refused,
      units are as their logs say if they were before. */
  lemma StaysLogged(m: Store.Ledger, stages: seq<Stage>, fcr: UnitId, fee: nat, txr: Digest)
    requires A.AllLogged(m)
    requires Processed(m, stages).ok ==> ChangesOnly(m, Processed(m, stages).ledger, Processed(m, stages).targets)
    ensures A.AllLogged(Executed(m, stages, fcr, fee, txr).0)
  {
    hide Processed, Settled, A.AllLogged, ChangesOnly;
    var p := Processed(m, stages);
    if !Executed(m, stages, fcr, fee, txr).1.Refused? {
      NothingChanges(m);
      if p.ok {
        LogsKeepUp(m, p.ledger, p.targets, fcr, fee, txr);
      } else {
        LogsKeepUp(m, m, [], fcr, fee, txr);
      }
    }
  }

  lemma NothingChanges(m: Store.Ledger)
    ensures ChangesOnly(m, m, [])
  {
  }

  /** The same for a fee credit transaction. */
  lemma FcStaysLogged(m: Store.Ledger, id: UnitId, conditional: bool, valid: bool, unlock: Stage, execution: Stage,
                      txr: Digest)
    requires A.AllLogged(m)
    requires Processed(m, [unlock, execution]).ok ==>
      ChangesOnly(m, Processed(m, [unlock, execution]).ledger, execution.targets)
    ensures A.AllLogged(FcExecuted(m, id, conditional, valid, unlock, execution, txr).0)
  {
    hide Processed, A.IsLogged;
    var p := Processed(m, [unlock, execution]);
    if !FcExecuted(m, id, conditional, valid, unlock, execution, txr).1.Refused? {
      LogsKeepUp(m, p.ledger, execution.targets, id, 0, txr);
    }
  }

  // ----- generic_tx_system.go -----

  /** A received transaction: an ordinary one with its handler stages and fee credit record, or a fee credit
      transaction with what its checks found and its two stages. */
  datatype Order =
    | Ordinary(stages: seq<Stage>, fcr: UnitId, authorized: bool)
    | FeeCredit(id: UnitId, conditional: bool, valid: bool, unlock: Stage, execution: Stage)

  /** What a transaction makes of the ledger, and its receipt. */
  function Outcome(m: Store.Ledger, order: Order, maxFee: nat, fee: nat, txr: Digest): (r: (Store.Ledger, Receipt))
  {
    match order
    case FeeCredit(id, conditional, valid, unlock, execution) =>
      FcExecuted(m, id, conditional, valid, unlock, execution, txr)
    case Ordinary(stages, fcr, authorized) =>
      if Credible(m, fcr, maxFee, authorized) then Executed(m, stages, fcr, fee, txr) else (m, Refused)
  }

  /** Nothing changes unless the owner of a fee credit record that covers the highest fee has agreed to it; for a fee
      credit transaction, unless it is valid, unconditional, and about a unit that no transaction with any effect
      has on hold. */
  lemma OnlyAdmitted(m: Store.Ledger, order: Order, maxFee: nat, fee: nat, txr: Digest)
    requires Outcome(m, order, maxFee, fee, txr) != (m, Refused)
    ensures order.Ordinary? ==>
      order.authorized && order.fcr in m && m[order.fcr].data.Some? && m[order.fcr].data.value.Fcr? &&
      m[order.fcr].data.value.balance >= maxFee
    ensures order.FeeCredit? ==>
      order.valid && !order.conditional &&
      (order.id in m && m[order.id].lock.Some? ==> m[order.id].lock.value.attrs.Nop?)
  {
  }

  lemma FcRefusedKeeps(m: Store.Ledger, id: UnitId, conditional: bool, valid: bool, unlock: Stage,
                       execution: Stage, txr: Digest)
    ensures var r := FcExecuted(m, id, conditional, valid, unlock, execution, txr); r.1.Refused? ==> r.0 == m
  {
  }

  class GenericTxSystem {
    const state: StateHeap.State
    const etBuffer: TxBuffer.ETBuffer
    var currentRound: nat
    var roundCommitted: bool

    constructor (state: StateHeap.State, etBuffer: TxBuffer.ETBuffer)
      ensures this.state == state && this.etBuffer == etBuffer
    {
      this.state := state;
      this.etBuffer := etBuffer;
      currentRound := 0;
      roundCommitted := false;
    }

    /** Runs the updates of a stage on the latest savepoint. */
    method RunUpdates(updates: seq<Update>) returns (ok: bool)
      requires state.Valid()
      modifies state, state.repr
      ensures state.Valid() && fresh(state.repr - old(state.repr)) && state.cs == old(state.cs)
      ensures var m := Store.Top(old(state.Stack()));
        ok == Updated(m, updates).1 && state.Stack() == Store.SetTop(old(state.Stack()), Updated(m, updates).0)
    {
      hide StateHeap.State.Valid, StateHeap.State.Stack, StateHeap.State.OthersValid;
      ghost var st := state.Stack();
      ghost var m := Store.Top(st);
      for i := 0 to |updates|
        invariant state.Valid() && fresh(state.repr - old(state.repr)) && state.cs == old(state.cs)
        invariant Updated(m, updates[..i]).1 && state.Stack() == Store.SetTop(st, Updated(m, updates[..i]).0)
      {
        assert updates[..i + 1][..i] == updates[..i];
        var err := state.Apply(updates[i].actions);
        if err.Some? && !updates[i].optional {
          StopsHere(m, updates, i + 1);
          return false;
        }
      }
      assert updates[..|updates|] == updates;
      ok := true;
    }

    /** Runs the stages until one fails. */
    method RunStages(stages: seq<Stage>) returns (ok: bool, targets: seq<UnitId>)
      requires state.Valid()
      modifies state, state.repr
      ensures state.Valid() && fresh(state.repr - old(state.repr)) && state.cs == old(state.cs)
      ensures var p := Processed(Store.Top(old(state.Stack())), stages);
        ok == p.ok && targets == p.targets && state.Stack() == Store.SetTop(old(state.Stack()), p.ledger)
    {
      hide StateHeap.State.Valid, StateHeap.State.Stack, StateHeap.State.OthersValid, Updated, Merge;
      ghost var st := state.Stack();
      ghost var m := Store.Top(st);
      targets := [];
      for i := 0 to |stages|
        invariant state.Valid() && fresh(state.repr - old(state.repr)) && state.cs == old(state.cs)
        invariant var p := Processed(m, stages[..i]);
          p.ok && targets == p.targets && state.Stack() == Store.SetTop(st, p.ledger)
      {
        assert stages[..i + 1][..i] == stages[..i];
        ok := RunUpdates(stages[i].updates);
        if !ok || stages[i].fails {
          FailsHere(m, stages, i + 1);
          return false, targets;
        }
        targets := MergeTargets(targets, stages[i].targets);
      }
      assert stages[..|stages|] == stages;
      ok := true;
    }

    /** A log entry for every target. */
    method AddLogs(targets: seq<UnitId>, txr: Digest) returns (ok: bool)
      requires state.Valid()
      modifies state, state.repr
      ensures state.Valid() && fresh(state.repr - old(state.repr)) && state.cs == old(state.cs)
      ensures var r := Logged(Store.Top(old(state.Stack())), targets, txr);
        ok == r.Some? && |state.Stack()| == |old(state.Stack())| &&
        state.Stack()[..|state.Stack()| - 1] == old(state.Stack())[..|state.Stack()| - 1] &&
        (ok ==> state.Stack() == Store.SetTop(old(state.Stack()), r.value))
    {
      hide StateHeap.State.Valid, StateHeap.State.Stack, StateHeap.State.OthersValid;
      ghost var st := state.Stack();
      ghost var m := Store.Top(st);
      for i := 0 to |targets|
        invariant state.Valid() && fresh(state.repr - old(state.repr)) && state.cs == old(state.cs)
        invariant Logged(m, targets[..i], txr).Some?
        invariant state.Stack() == Store.SetTop(st, Logged(m, targets[..i], txr).value)
      {
        assert targets[..i + 1][..i] == targets[..i];
        ok := state.AddUnitLog(targets[i], txr);
        if !ok {
          NoLog(m, targets, txr, i + 1);
          return;
        }
      }
      assert targets[..|targets|] == targets;
      ok := true;
    }

    /** Takes the fee from the fee credit record. */
    method Charge(fcr: UnitId, fee: nat) returns (ok: bool)
      requires state.Valid()
      modifies state, state.repr
      ensures state.Valid() && fresh(state.repr - old(state.repr)) && state.cs == old(state.cs)
      ensures var r := Store.Act(Store.Top(old(state.Stack())), Debit(fcr, fee));
        ok == r.Ok? && state.Stack() == if ok then Store.SetTop(old(state.Stack()), r.ledger) else old(state.Stack())
    {
      hide StateHeap.State.Valid, StateHeap.State.Stack, StateHeap.State.OthersValid;
      ghost var st := state.Stack();
      Store.OneAction(Store.Top(st), Debit(fcr, fee));
      var err := state.Apply([Debit(fcr, fee)]);
      ok := err.None?;
    }

    /** Fee and logs.  After a failed transaction the savepoint is gone already, so that a second rollback
        would undo nothing; none is needed, because nothing can fail any more once the fee is paid. */
    method Settle(id: nat, ok: bool, reported: seq<UnitId>, fcr: UnitId, fee: nat, txr: Digest,
                  ghost st: Store.Stack, ghost m: Store.Ledger)
      returns (settled: bool)
      requires state.Valid() && id == |st| && state.Stack() == (if ok then st + [m] else st)
      requires (!ok ==> m == Store.Top(st) && reported == [])
      modifies state, state.repr
      ensures state.Valid() && fresh(state.repr - old(state.repr)) && state.cs == old(state.cs)
      ensures var r := Settled(m, reported, fcr, fee, txr);
        settled == r.Some? && state.Stack() == if settled then Store.SetTop(st, r.value) else st
    {
      hide StateHeap.State.Valid, StateHeap.State.Stack, StateHeap.State.OthersValid, Logged, Debit, Store.Act,
        Store.RollbackTo, Store.ReleaseTo;
      var targets := reported;
      Unwind(st, m, m);
      if fee > 0 {
        var charged := Charge(fcr, fee);
        if !charged {
          state.RollbackToSavepoint(id);
          return false;
        }
        targets := targets + [fcr];
      }
      ghost var m1 := Store.Top(state.Stack());
      assert state.Stack() == if ok then st + [m1] else Store.SetTop(st, m1);
      settled := AddLogs(targets, txr);
      FcrLogged(m, fcr, fee, txr);
      ghost var m2 := Store.Top(state.Stack());
      assert state.Stack() == if ok then st + [m2] else Store.SetTop(st, m2);
      Unwind(st, m2, m2);
      if !settled {
        state.RollbackToSavepoint(id);
        return;
      }
      state.ReleaseToSavepoint(id);
    }

    /** Executes an ordinary transaction.  Whatever happens inside, the savepoint stack is as deep as
        before and only its top may differ; when no record comes out, nothing differs at all. */
    method DoExecute(stages: seq<Stage>, fcr: UnitId, fee: nat, txr: Digest) returns (receipt: Receipt)
      requires state.Valid()
      modifies state, state.repr
      ensures state.Valid() && fresh(state.repr - old(state.repr)) && state.cs == old(state.cs)
      ensures var r := Executed(Store.Top(old(state.Stack())), stages, fcr, fee, txr);
        receipt == r.1 && state.Stack() == Store.SetTop(old(state.Stack()), r.0)
    {
      hide StateHeap.State.Valid, StateHeap.State.Stack, StateHeap.State.OthersValid, Processed, Settled;
      ghost var st := state.Stack();
      ghost var m := Store.Top(st);
      var id := state.Savepoint();
      var ok, targets := RunStages(stages);
      ghost var p := Processed(m, stages);
      assert state.Stack() == st + [p.ledger];
      Unwind(st, p.ledger, p.ledger);
      if !ok {
        targets := [];
        state.RollbackToSavepoint(id);
      }
      var settled := Settle(id, ok, targets, fcr, fee, txr, st, if ok then p.ledger else m);
      receipt := if settled then Receipt(ok) else Refused;
    }

    /** Whether a unit is held by a transaction that does something. */
    method IsBlocked(id: UnitId) returns (blocked: bool)
      requires state.Valid()
      ensures var m := Store.Top(state.Stack());
        blocked == (id in m && m[id].lock.Some? && !m[id].lock.value.attrs.Nop?)
    {
      var u := state.Get(id);
      blocked := u.Some? && u.value.lock.Some? && !u.value.lock.value.attrs.Nop?;
    }

    /** Executes a fee credit transaction. */
    method ExecuteFc(id: UnitId, conditional: bool, valid: bool, unlock: Stage, execution: Stage, txr: Digest)
      returns (receipt: Receipt)
      requires state.Valid()
      modifies state, state.repr
      ensures state.Valid() && fresh(state.repr - old(state.repr)) && state.cs == old(state.cs)
      ensures var r := FcExecuted(Store.Top(old(state.Stack())), id, conditional, valid, unlock, execution, txr);
        receipt == r.1 && state.Stack() == Store.SetTop(old(state.Stack()), r.0)
    {
      hide StateHeap.State.Valid, StateHeap.State.Stack, StateHeap.State.OthersValid, Processed, Logged,
        Store.RollbackTo, Store.ReleaseTo;
      ghost var st := state.Stack();
      ghost var m := Store.Top(st);
      assert Store.SetTop(st, m) == st;
      if conditional {
        return Refused;
      }
      var blocked := IsBlocked(id);
      if blocked || !valid {
        return Refused;
      }
      var savepoint := state.Savepoint();
      var ok, targets := RunStages([unlock, execution]);
      ghost var m1 := Processed(m, [unlock, execution]).ledger;
      assert state.Stack() == st + [m1];
      Unwind(st, m1, m1);
      if !ok {
        state.RollbackToSavepoint(savepoint);
        return Refused;
      }
      var logged := AddLogs(execution.targets, txr);
      ghost var m2 := Store.Top(state.Stack());
      assert state.Stack() == st + [m2];
      Unwind(st, m2, m2);
      if !logged {
        state.RollbackToSavepoint(savepoint);
        return Refused;
      }
      state.ReleaseToSavepoint(savepoint);
      receipt := Receipt(true);
    }

    /** Whether the fee credit record exists and covers the maximum fee. */
    method IsCredible(fcr: UnitId, maxFee: nat, authorized: bool) returns (ok: bool)
      requires state.Valid()
      ensures ok == Credible(Store.Top(state.Stack()), fcr, maxFee, authorized)
    {
      var u := state.Get(fcr);
      ok := u.Some? && u.value.data.Some? && u.value.data.value.Fcr? && u.value.data.value.balance >= maxFee &&
      authorized;
    }

    /** The fee of a transaction after the general charge and any further gas that its stages use. */
    method Price(maxFee: Fees.uint64, spends: seq<Fees.uint64>) returns (ok: bool, fee: Fees.uint64)
      ensures ok <==> Fees.BuyGas(maxFee) >= Fees.GENERAL_TX_GAS
      ensures ok ==> 1 <= fee <= maxFee
    {
      var left;
      ok, fee, left := Fees.ChargeTransaction(maxFee, spends, maxFee);
    }

    /** Executes a transaction that was received: duplicates, expired ones and ones that cannot pay are
        refused, and a refusal changes neither the state nor the buffer.  A credible ordinary transaction
        whose processing fails is paid for all the same; a fee credit transaction handles its fee itself. */
    method Execute(tx: TxBuffer.TxId, addressed: bool, order: Order, maxFee: Fees.uint64, spends: seq<Fees.uint64>,
                   txr: Digest)
      returns (receipt: Receipt, fee: Fees.uint64)
      requires state.Valid()
      modifies state, state.repr, etBuffer
      ensures state.Valid() && fresh(state.repr - old(state.repr)) && state.cs == old(state.cs)
      ensures receipt.Refused? ==>
        state.Stack() == old(state.Stack()) && etBuffer.Contents() == old(etBuffer.Contents())
      ensures !receipt.Refused? ==> etBuffer.Contents() == TxBuffer.Added(old(etBuffer.Contents()), tx)
      ensures !receipt.Refused? ==> TxBuffer.Accepts(old(etBuffer.Contents()), currentRound, tx) && 1 <= fee <= maxFee
      ensures !receipt.Refused? ==> var r := Outcome(Store.Top(old(state.Stack())), order, maxFee, fee, txr);
        receipt == r.1 && state.Stack() == Store.SetTop(old(state.Stack()), r.0)
      ensures var m := Store.Top(old(state.Stack()));
        (TxBuffer.Accepts(old(etBuffer.Contents()), currentRound, tx) && addressed &&
          Fees.BuyGas(maxFee) >= Fees.GENERAL_TX_GAS &&
         order.Ordinary? && Credible(m, order.fcr, maxFee, order.authorized) &&
         !Processed(m, order.stages).ok) ==> receipt == Receipt(false)
    {
      hide StateHeap.State.Valid, StateHeap.State.Stack, StateHeap.State.OthersValid, Processed, Executed, FcExecuted;
      receipt, fee := Refused, 0;
      var found := etBuffer.Get(tx);
      if found || currentRound > tx.timeout || !addressed {
        return;
      }
      var charged;
      charged, fee := Price(maxFee, spends);
      if !charged {
        return;
      }
      receipt := ExecuteOrder(order, maxFee, fee, txr);
      if !receipt.Refused? {
        etBuffer.Add(tx);
      }
    }

    /** Fee credit transactions go their own way; all others have to be credible. */
    method ExecuteOrder(order: Order, maxFee: Fees.uint64, fee: Fees.uint64, txr: Digest) returns (receipt: Receipt)
      requires state.Valid() && 1 <= fee <= maxFee
      modifies state, state.repr
      ensures state.Valid() && fresh(state.repr - old(state.repr)) && state.cs == old(state.cs)
      ensures receipt.Refused? ==> state.Stack() == old(state.Stack())
      ensures var r := Outcome(Store.Top(old(state.Stack())), order, maxFee, fee, txr);
        receipt == r.1 && state.Stack() == Store.SetTop(old(state.Stack()), r.0)
      ensures var m := Store.Top(old(state.Stack()));
        order.Ordinary? && Credible(m, order.fcr, maxFee, order.authorized) && !Processed(m, order.stages).ok ==>
          receipt == Receipt(false)
    {
      hide StateHeap.State.Valid, StateHeap.State.Stack, StateHeap.State.OthersValid, Processed, Executed, FcExecuted;
      ghost var st := state.Stack();
      ghost var m := Store.Top(st);
      assert Store.SetTop(st, m) == st;
      match order {
        case FeeCredit(id, conditional, valid, unlock, execution) =>
          FcRefusedKeeps(m, id, conditional, valid, unlock, execution, txr);
          receipt := ExecuteFc(id, conditional, valid, unlock, execution, txr);
        case Ordinary(stages, fcr, authorized) =>
          receipt := Refused;
          var credible := IsCredible(fcr, maxFee, authorized);
          if credible {
            RefusedKeeps(m, stages, fcr, fee, txr);
            if !Processed(m, stages).ok {
              FailedIsPaid(m, stages, fcr, fee, maxFee, txr);
            }
            receipt := DoExecute(stages, fcr, fee, txr);
          }
      }
    }

    /** The end of a block: expired entries leave the buffer and the root is calculated. */
    method EndBlock() returns (sum: A.Summary)
      requires state.Valid()
      modifies state, state.repr, etBuffer
      ensures state.Valid() && etBuffer.Contents() == TxBuffer.Cleared(old(etBuffer.Contents()), currentRound)
      ensures sum == A.Recompute(old(AvlHeap.View(state.ss[|state.ss| - 1])))
      ensures sum.value == Summaries.Worth(Store.Top(old(state.Stack())))
    {
      hide StateHeap.State.Valid, StateHeap.State.OthersValid, AvlHeap.View, A.Recompute, A.Entries, A.Contents,
        A.AllLogged, A.Stored, Summaries.Worth;
      state.OpenLatest();
      etBuffer.ClearExpired(currentRound);
      sum := state.CalculateRoot();
    }

    /** Commits state and buffer together, or neither. */
    method Commit(hash: Digest, value: nat) returns (ok: bool)
      requires state.Valid()
      modifies this, state, etBuffer
      ensures state.Valid()
      ensures etBuffer.Contents() ==
        if ok then TxBuffer.Committed(old(etBuffer.Contents()))
        else old(etBuffer.Contents())
      ensures
        if ok then state.Stack() == [Store.Top(old(state.Stack()))] && roundCommitted
        else state.Stack() == old(state.Stack()) && roundCommitted == old(roundCommitted)
    {
      ok := state.Commit(hash, value);
      if ok {
        roundCommitted := true;
        etBuffer.Commit();
      }
    }

    /** Reverts state and buffer to the last commit, unless the round is committed already. */
    method Revert()
      requires state.Valid()
      modifies state, etBuffer
      ensures state.Valid()
      ensures roundCommitted ==> state.Stack() == old(state.Stack()) && etBuffer.Contents() == old(etBuffer.Contents())
      ensures !roundCommitted ==>
        state.Stack() == [StateHeap.Contents(state.cs)] &&
        etBuffer.Contents() == TxBuffer.Reverted(old(etBuffer.Contents()))
    {
      if roundCommitted {
        return;
      }
      state.Revert();
      etBuffer.Revert();
    }
  }

  lemma RefusedKeeps(m: Store.Ledger, stages: seq<Stage>, fcr: UnitId, fee: nat, txr: Digest)
    ensures Executed(m, stages, fcr, fee, txr).1.Refused? ==> Executed(m, stages, fcr, fee, txr).0 == m
  {
  }

  /** Savepoint arithmetic: with the savepoint still there and with the savepoint gone. */
  lemma Unwind(st: Store.Stack, x: Store.Ledger, y: Store.Ledger)
    ensures Store.RollbackTo(st + [x], |st|) == st && Store.ReleaseTo(st + [x], |st|) == Store.SetTop(st, x)
    ensures Store.RollbackTo(Store.SetTop(st, y), |st|) == Store.ReleaseTo(Store.SetTop(st, y), |st|) ==
      Store.SetTop(st, y)
    ensures Store.RollbackTo(st, |st|) == st
  {
    Store.SavepointUndone(st, [x]);
  }

  method MergeTargets(ids: seq<UnitId>, more: seq<UnitId>) returns (r: seq<UnitId>)
    ensures r == Merge(ids, more)
  {
    r := ids;
    for i := 0 to |more|
      invariant r == Merge(ids, more[..i])
    {
      assert more[..i + 1][..i] == more[..i];
      if more[i] !in r {
        r := r + [more[i]];
      }
    }
    assert more[..|more|] == more;
  }

  lemma {:induction false} StopsHere(m: Store.Ledger, updates: seq<Update>, n: nat)
    requires n <= |updates| && !Updated(m, updates[..n]).1
    ensures Updated(m, updates) == Updated(m, updates[..n])
    decreases |updates| - n
  {
    if n < |updates| {
      assert updates[..n + 1][..n] == updates[..n];
      StopsHere(m, updates, n + 1);
    } else {
      assert updates[..n] == updates;
    }
  }

  lemma {:induction false} FailsHere(m: Store.Ledger, stages: seq<Stage>, n: nat)
    requires n <= |stages| && !Processed(m, stages[..n]).ok
    ensures Processed(m, stages) == Processed(m, stages[..n])
    decreases |stages| - n
  {
    if n < |stages| {
      assert stages[..n + 1][..n] == stages[..n];
      FailsHere(m, stages, n + 1);
    } else {
      assert stages[..n] == stages;
    }
  }

  lemma {:induction false} NoLog(m: Store.Ledger, targets: seq<UnitId>, txr: Digest, n: nat)
    requires n <= |targets| && Logged(m, targets[..n], txr).None?
    ensures Logged(m, targets, txr).None?
    decreases |targets| - n
  {
    if n < |targets| {
      assert targets[..n + 1][..n] == targets[..n];
      NoLog(m, targets, txr, n + 1);
    } else {
      assert targets[..n] == targets;
    }
  }

  /** After a failed transaction only the fee credit record is logged, and it exists: it was debited. */
  lemma FcrLogged(m: Store.Ledger, fcr: UnitId, fee: nat, txr: Digest)
    ensures fee == 0 ==> Logged(m, [], txr).Some?
    ensures fee > 0 && Store.Act(m, Debit(fcr, fee)).Ok? ==>
      Logged(Store.Act(m, Debit(fcr, fee)).ledger, [] + [fcr], txr).Some?
  {
    assert [] + [fcr] == [fcr];
    assert [fcr][..0] == [];
  }
}
