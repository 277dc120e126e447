/** The state, the handlers and the generic part put together: what the code does with a transaction is
    a step of the runs about which module Runs proves its theorems. */
module Partition {
  import opened Units
  import opened Transactions
  import opened Locking
  import Store
  import StateHeap
  import Conservation
  import Handlers
  import Runs
  import TxSystem
  import Logging
  import Summaries
  import Sums
  import A = Avl

  // ----- fees and logs change nothing else -----

  lemma {:induction false} LogsAlike(m: Ledger, targets: seq<UnitId>, txr: Digest)
    requires TxSystem.Logged(m, targets, txr).Some?
    ensures SameOutside(m, TxSystem.Logged(m, targets, txr).value, {})
    decreases |targets|
  {
    if targets != [] {
      LogsAlike(m, targets[..|targets| - 1], txr);
    }
  }

  lemma AlikeCompose(m: Ledger, m1: Ledger, m2: Ledger)
    requires SameOutside(m, m1, {}) && SameOutside(m1, m2, {})
    ensures SameOutside(m, m2, {})
  {
    forall id ensures (id in m <==> id in m2) && (id in m ==> Alike(m[id], m2[id])) {
      assert id !in {};
    }
  }

  /** Fee and logs leave every bill, token, lock and deletion mark as it was. */
  lemma SettlementAlike(m: Ledger, targets: seq<UnitId>, fcr: UnitId, fee: nat, txr: Digest)
    requires TxSystem.Settled(m, targets, fcr, fee, txr).Some?
    ensures SameOutside(m, TxSystem.Settled(m, targets, fcr, fee, txr).value, {})
  {
    if fee == 0 {
      LogsAlike(m, targets, txr);
    } else {
      var m1 := Store.Act(m, TxSystem.Debit(fcr, fee)).ledger;
      assert SameOutside(m, m1, {});
      LogsAlike(m1, targets + [fcr], txr);
      AlikeCompose(m, m1, TxSystem.Settled(m, targets, fcr, fee, txr).value);
    }
  }

  lemma BoundedWords(m: Ledger)
    requires Conservation.Bounded(m)
    ensures Handlers.Words(m)
  {
    forall id | BillAt(m, id).Some? ensures BillAt(m, id).value.value < TWO64 {
      Conservation.BillWithinTotal(m, id);
    }
  }

  // ----- one transaction -----

  /** Executes a transaction of the partition.  From a state of a run it makes a step of the run: a
      success, a failure, or nothing at all. */
  method ExecuteTransaction(sys: TxSystem.GenericTxSystem, gen: Gen, auth: Auth, succeeded: set<Tx>, tx: Tx,
                            fcr: UnitId, fee: nat, txr: Digest, ghost w: Runs.World, ghost money: nat,
                            ghost supply: nat)
    returns (receipt: TxSystem.Receipt, ghost w': Runs.World)
    requires sys.state.Valid() && GenOk(gen) && AuthOk(auth) && tx !in w.seen
    requires (tx.attrs.MintFT? ==> tx.attrs.value < TWO64)
    requires Runs.RunInv(gen, w, money, supply) && w.ledger == Store.Top(sys.state.Stack()) && succeeded == w.succeeded
    modifies sys.state, sys.state.repr
    ensures sys.state.Valid() && fresh(sys.state.repr - old(sys.state.repr)) && sys.state.cs == old(sys.state.cs)
    ensures sys.state.Stack() == Store.SetTop(old(sys.state.Stack()), w'.ledger) && Runs.RunInv(gen, w', money, supply)
    ensures match receipt
            case Refused => w' == w
            case Receipt(success) =>
              Runs.Next(gen, w, if success then Runs.Success(tx, auth, sys.currentRound) else Runs.Failure(tx), w')
    ensures A.AllLogged(w.ledger) ==> A.AllLogged(w'.ledger)
  {
    hide StateHeap.State.Valid, StateHeap.State.Stack, StateHeap.State.OthersValid, Process, Runs.RunInv,
      TxSystem.Settled, GenOk, SameOutside, Handlers.Words, UnlockAll, Targets, A.AllLogged, Logging.Reports;
    var state := sys.state;
    ghost var st := state.Stack();
    ghost var m := w.ledger;
    UnlockedWords(gen, auth, w, tx, sys.currentRound, money, supply);
    var id := state.Savepoint();
    var ok, targets := Handlers.ProcessTx(state, gen, auth, succeeded, tx, sys.currentRound);
    ghost var m1 := Store.Top(state.Stack());
    assert state.Stack() == st + [m1];
    TxSystem.Unwind(st, m1, m1);
    if !ok {
      targets := [];
      state.RollbackToSavepoint(id);
    }
    ghost var base := if ok then m1 else m;
    var settled := sys.Settle(id, ok, targets, fcr, fee, txr, st, base);
    assert Store.SetTop(st, m) == st;
    if !settled {
      return TxSystem.Refused, w;
    }
    receipt := TxSystem.Receipt(ok);
    SettlementAlike(base, targets, fcr, fee, txr);
    ghost var m' := TxSystem.Settled(base, targets, fcr, fee, txr).value;
    w' := After(w, tx, ok, m');
    if A.AllLogged(m) {
      SettledIsLogged(gen, auth, w, tx, sys.currentRound, ok, base, targets, fcr, fee, txr, money, supply);
    }
    StepOfRun(gen, auth, w, tx, sys.currentRound, ok, m1, m', money, supply);
  }

  lemma SettledIsLogged(gen: Gen, auth: Auth, w: Runs.World, tx: Tx, round: nat, ok: bool, base: Ledger,
                        targets: seq<UnitId>, fcr: UnitId, fee: nat, txr: Digest, money: nat, supply: nat)
    requires GenOk(gen) && AuthOk(auth) && Runs.RunInv(gen, w, money, supply) && tx !in w.seen && A.AllLogged(w.ledger)
    requires
      if ok then
        Process(gen, auth, w.succeeded, w.ledger, tx, round) == Some(base) &&
        targets == Logging.Reports(gen, auth, w.ledger, tx, round)
      else base == w.ledger && targets == []
    requires TxSystem.Settled(base, targets, fcr, fee, txr).Some?
    ensures A.AllLogged(TxSystem.Settled(base, targets, fcr, fee, txr).value)
  {
    hide Process, GenOk, Logging.Reports, A.AllLogged, TxSystem.Settled, Inv, Conservation.Bounded,
      TxSystem.ChangesOnly;
    Runs.BooksBounded(w.ledger, w.succeeded, w.redeemed, Runs.Left(w, money), supply);
    if ok {
      Logging.ProcessStaysLogged(gen, auth, w.succeeded, w.ledger, w.seen, tx, round, fcr, fee, txr);
    } else {
      TxSystem.NothingChanges(base);
      TxSystem.LogsKeepUp(base, base, [], fcr, fee, txr);
    }
  }

  // ----- the end of a block -----

  /** What is certified at the end of a block: the value of the root is the money there was at the start, without the
      fee credit that was taken out and with what was reclaimed. */
  method EndBlock(sys: TxSystem.GenericTxSystem, ghost gen: Gen, ghost w: Runs.World, ghost money: nat,
                  ghost supply: nat)
    returns (sum: A.Summary)
    requires sys.state.Valid() && Runs.RunInv(gen, w, money, supply) && A.AllLogged(w.ledger)
    requires w.ledger == Store.Top(sys.state.Stack())
    modifies sys.state, sys.state.repr, sys.etBuffer
    ensures sys.state.Valid() && sum.value == money + w.reclaimed - w.credited
  {
    hide StateHeap.State.Valid, StateHeap.State.Stack, StateHeap.State.OthersValid, A.Recompute, Summaries.Worth,
      A.AllLogged, Inv, Sums.Total;
    Summaries.LoggedWorth(w.ledger);
    sum := sys.EndBlock();
  }

  /** The world after a transaction. */
  ghost function After(w: Runs.World, tx: Tx, ok: bool, m: Ledger): (w': Runs.World)
  {
    if ok then
      w.(ledger := m, seen := w.seen + {tx}, succeeded := w.succeeded + {tx},
         redeemed := w.redeemed + (set r | r in Runs.Redeems(tx)))
    else w.(ledger := m, seen := w.seen + {tx})
  }

  lemma UnlockedWords(gen: Gen, auth: Auth, w: Runs.World, tx: Tx, round: nat, money: nat, supply: nat)
    requires GenOk(gen) && Runs.RunInv(gen, w, money, supply)
    ensures var m := UnlockAll(gen, auth, w.ledger, tx, Targets(gen, tx), round); m.Some? ==> Handlers.Words(m.value)
  {
    hide UnlockAll, Inv, GenOk;
    var m := UnlockAll(gen, auth, w.ledger, tx, Targets(gen, tx), round);
    if m.Some? {
      Runs.UnlockAllNeutral(gen, auth, w.ledger, w.seen, tx, Targets(gen, tx), round);
      BoundedWords(m.value);
    }
  }

  lemma StepOfRun(gen: Gen, auth: Auth, w: Runs.World, tx: Tx, round: nat, ok: bool, m1: Ledger, m': Ledger,
                  money: nat, supply: nat)
    requires GenOk(gen) && AuthOk(auth) && Runs.RunInv(gen, w, money, supply) && tx !in w.seen
    requires (tx.attrs.MintFT? ==> tx.attrs.value < TWO64)
    requires
      if ok then Process(gen, auth, w.succeeded, w.ledger, tx, round) == Some(m1) && SameOutside(m1, m', {})
      else SameOutside(w.ledger, m', {})
    ensures Runs.Next(gen, w, if ok then Runs.Success(tx, auth, round) else Runs.Failure(tx), After(w, tx, ok, m'))
    ensures Runs.RunInv(gen, After(w, tx, ok, m'), money, supply)
  {
    hide Process, Runs.RunInv, GenOk, SameOutside;
    if ok {
      Runs.SuccessKeeps(gen, w, Runs.Success(tx, auth, round), After(w, tx, ok, m'), money, supply);
    } else {
      Runs.FailureKeeps(gen, w, Runs.Failure(tx), After(w, tx, ok, m'), money, supply);
    }
  }
}
