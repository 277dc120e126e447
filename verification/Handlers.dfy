/** The handlers as they run on the state, with their loops; each computes what module Transactions says. */
module Handlers {
  import opened Units
  import opened Transactions
  import opened StateHeap
  import Store
  import Logging
  import TxSystem

  // ----- validation loops -----

  /** The checks on the outputs of a split, in one pass with an overflow check on the sum. */
  method ValidateSplit(ts: seq<Target>, value: nat) returns (ok: bool)
    requires value < TWO64
    ensures ok == ValidTargets(ts, value)
  {
    if |ts| == 0 {
      return false;
    }
    var sum := 0;
    for i := 0 to |ts|
      invariant sum == SumOf(ts[..i]) < TWO64
      invariant forall j :: 0 <= j < i ==> ts[j].amount > 0 && ts[j].owner != EMPTY_PREDICATE
    {
      assert ts[..i + 1][..i] == ts[..i];
      if ts[i].amount == 0 || ts[i].owner == EMPTY_PREDICATE {
        return false;
      }
      if sum + ts[i].amount >= TWO64 {
        SumGrows(ts, i + 1);
        return false;
      }
      sum := sum + ts[i].amount;
    }
    assert ts[..|ts|] == ts;
    ok := sum < value;
  }

  lemma {:induction false} SumGrows(ts: seq<Target>, n: nat)
    requires n <= |ts|
    ensures SumOf(ts[..n]) <= SumOf(ts)
    decreases |ts| - n
  {
    if n < |ts| {
      assert ts[..n + 1][..n] == ts[..n];
      SumGrows(ts, n + 1);
    } else {
      assert ts[..n] == ts;
    }
  }

  lemma RecordSnoc(txs: seq<Tx>, i: nat)
    requires i < |txs|
    ensures RecordSum(txs[..i + 1]) == RecordSum(txs[..i]) + RecordValue(txs[i])
  {
    assert txs[..i + 1][..i] == txs[..i];
  }

  /** The checks on the records of a swap, each against the one before it. */
  method VerifyDustTransfers(dust: seq<Tx>, target: UnitId, counter: nat) returns (sum: Option<nat>)
    ensures sum == if ValidDust(dust, target, counter) && RecordSum(dust) < TWO64 then Some(RecordSum(dust)) else None
  {
    hide RecordSum;
    NoRecords(dust);
    var s := 0;
    for i := 0 to |dust|
      invariant forall j :: 0 <= j < i ==>
        dust[j].attrs.TransDC? && dust[j].attrs.dcTarget == target && dust[j].attrs.dcTargetCounter == counter
      invariant forall j :: 0 < j < i ==> dust[j - 1].unitId < dust[j].unitId
      invariant s == RecordSum(dust[..i]) < TWO64
    {
      var d := dust[i];
      if !d.attrs.TransDC? || (i > 0 && d.unitId <= dust[i - 1].unitId) || d.attrs.dcTarget != target ||
         d.attrs.dcTargetCounter != counter {
        return None;
      }
      RecordSnoc(dust, i);
      if s + d.attrs.value >= TWO64 {
        RecordsGrow(dust, i + 1);
        return None;
      }
      s := s + d.attrs.value;
    }
    assert dust[..|dust|] == dust;
    sum := Some(s);
  }

  lemma NoRecords(txs: seq<Tx>)
    ensures RecordSum(txs[..0]) == 0
  {
  }

  /** The checks on the records of a join; the sum starts with the value of the token itself. */
  method VerifyBurns(burns: seq<Tx>, target: UnitId, typeId: UnitId, counter: nat, value: nat, succeeded: set<Tx>)
    returns (sum: Option<nat>)
    requires value < TWO64
    ensures sum ==
      if ValidBurns(burns, target, typeId, counter) && value + RecordSum(burns) < TWO64 &&
        AllSucceeded(succeeded, burns)
                   then Some(value + RecordSum(burns)) else None
  {
    hide RecordSum;
    NoRecords(burns);
    var s := value;
    for i := 0 to |burns|
      invariant forall j :: 0 <= j < i ==>
        burns[j].attrs.BurnFT? && burns[j].attrs.ftTarget == target && burns[j].attrs.typeId == typeId &&
                                           burns[j].attrs.ftTargetCounter == counter
      invariant forall j :: 0 <= j < i ==> burns[j] in succeeded
      invariant forall j :: 0 < j < i ==> burns[j - 1].unitId < burns[j].unitId
      invariant s == value + RecordSum(burns[..i]) < TWO64
    {
      var b := burns[i];
      if !b.attrs.BurnFT? {
        return None;
      }
      RecordSnoc(burns, i);
      if s + b.attrs.value >= TWO64 {
        RecordsGrow(burns, i + 1);
        return None;
      }
      s := s + b.attrs.value;
      if (i > 0 && b.unitId <= burns[i - 1].unitId) || b.attrs.typeId != typeId || b.attrs.ftTarget != target ||
         b.attrs.ftTargetCounter != counter || b !in succeeded {
        return None;
      }
    }
    assert burns[..|burns|] == burns;
    sum := Some(s);
  }

  lemma {:induction false} RecordsGrow(txs: seq<Tx>, n: nat)
    requires n <= |txs|
    ensures RecordSum(txs[..n]) <= RecordSum(txs)
    decreases |txs| - n
  {
    if n < |txs| {
      assert txs[..n + 1][..n] == txs[..n];
      RecordsGrow(txs, n + 1);
    } else {
      assert txs[..n] == txs;
    }
  }

  // ----- execution -----

  /** Only the top of the savepoint stack may differ. */
  ghost predicate SameBelow(a: Store.Stack, b: Store.Stack)
  {
    |a| == |b| && a[..|a| - 1] == b[..|a| - 1]
  }

  /** The actions of a split, collected target by target. */
  method SplitActions(gen: Gen, tx: Tx, ts: seq<Target>) returns (actions: Option<seq<Store.Action>>)
    ensures actions ==
      if SumOf(ts) < TWO64 then Some(NewBills(gen, tx, ts) + [TakeFromBill(tx.unitId, SumOf(ts))])
      else None
  {
    var all: seq<Store.Action> := [];
    var sum := 0;
    for i := 0 to |ts|
      invariant |all| == i && (forall j :: 0 <= j < i ==>
        all[j] == NewBills(gen, tx, ts)[j]) && sum == SumOf(ts[..i]) < TWO64
    {
      assert ts[..i + 1][..i] == ts[..i];
      all := all + [Store.AddOrPromoteUnit(gen(tx, i), Bill(ts[i].amount, 0, ts[i].owner))];
      if sum + ts[i].amount >= TWO64 {
        SumGrows(ts, i + 1);
        return None;
      }
      sum := sum + ts[i].amount;
    }
    assert ts[..|ts|] == ts;
    assert all == NewBills(gen, tx, ts);
    actions := Some(all + [TakeFromBill(tx.unitId, sum)]);
  }

  /** Only a token split looks at the state before it decides on its actions. */
  lemma ActionsNeedNoLedger(gen: Gen, m: Ledger, tx: Tx, amount: nat)
    requires !tx.attrs.SplitFT?
    ensures Actions(gen, m, tx, amount) == Actions(gen, map[], tx, amount)
  {
  }

  method PlanActions(state: State, gen: Gen, tx: Tx, amount: nat) returns (actions: Option<seq<Store.Action>>)
    requires state.Valid()
    ensures actions == Actions(gen, Store.Top(state.Stack()), tx, amount)
  {
    match tx.attrs {
      case Split(ts, _) => actions := SplitActions(gen, tx, ts);
      case SplitFT(_, owner, v, _) =>
        var u := state.Get(tx.unitId);
        if u.None? || u.value.data.None? || !u.value.data.value.Token? {
          return None;
        }
        actions := Some(TokenSplit(gen, tx, u.value.data.value.typeId, owner, v));
      case _ =>
        ActionsNeedNoLedger(gen, Store.Top(state.Stack()), tx, amount);
        actions := Actions(gen, map[], tx, amount);
    }
  }

  /** Executes a transaction on the state: all of its actions, or none. */
  method ExecuteTx(state: State, gen: Gen, tx: Tx, amount: nat) returns (ok: bool)
    requires state.Valid()
    modifies state, state.repr
    ensures state.Valid() && fresh(state.repr - old(state.repr)) && state.cs == old(state.cs)
    ensures var r := Execute(gen, Store.Top(old(state.Stack())), tx, amount);
      ok == r.Some? && state.Stack() == if ok then Store.SetTop(old(state.Stack()), r.value) else old(state.Stack())
  {
    hide State.Valid, State.Stack, State.OthersValid, Actions;
    var actions := PlanActions(state, gen, tx, amount);
    if actions.None? {
      return false;
    }
    ghost var st := state.Stack();
    assert Store.SetTop(st, Store.Top(st)) == st;
    var err := state.Apply(actions.value);
    ok := err.None?;
  }

  // ----- state_lock.go -----

  /** Puts a transaction on hold. */
  method ExecuteLockUnitState(state: State, tx: Tx, ids: seq<UnitId>) returns (ok: bool)
    requires state.Valid()
    modifies state, state.repr
    ensures state.Valid() && fresh(state.repr - old(state.repr)) && state.cs == old(state.cs)
    ensures ok == LockAll(Store.Top(old(state.Stack())), tx, ids).Some?
    ensures ok ==>
      state.Stack() == Store.SetTop(old(state.Stack()), LockAll(Store.Top(old(state.Stack())), tx, ids).value)
    ensures SameBelow(old(state.Stack()), state.Stack())
  {
    hide State.Valid, State.Stack, State.OthersValid, LockUnit;
    ghost var st := state.Stack();
    ghost var m := Store.Top(st);
    for i := 0 to |ids|
      invariant state.Valid() && fresh(state.repr - old(state.repr)) && state.cs == old(state.cs)
      invariant LockAll(m, tx, ids[..i]).Some? && state.Stack() == Store.SetTop(st, LockAll(m, tx, ids[..i]).value)
    {
      assert ids[..i + 1][..i] == ids[..i];
      ok := LockOne(state, tx, ids[i]);
      if !ok {
        NotAllLocked(m, tx, ids, i + 1);
        return;
      }
    }
    assert ids[..|ids|] == ids;
    ok := true;
  }

  method LockOne(state: State, tx: Tx, id: UnitId) returns (ok: bool)
    requires state.Valid()
    modifies state, state.repr
    ensures state.Valid() && fresh(state.repr - old(state.repr)) && state.cs == old(state.cs)
    ensures ok == LockUnit(Store.Top(old(state.Stack())), tx, id).Some?
    ensures ok ==>
      state.Stack() == Store.SetTop(old(state.Stack()), LockUnit(Store.Top(old(state.Stack())), tx, id).value)
    ensures SameBelow(old(state.Stack()), state.Stack())
  {
    hide State.Valid, State.Stack, State.OthersValid;
    ghost var m := Store.Top(state.Stack());
    ghost var locked := Store.NewUnit(None).(lock := Some(tx));
    assert id !in m ==> m[id := Store.NewUnit(None)][id := locked] == m[id := locked];
    Store.OneAction(m, Store.AddDummyUnit(id));
    var err := state.Apply([Store.AddDummyUnit(id)]);
    if err.Some? && err != Some(Store.AlreadyExists) {
      return false;
    }
    Store.OneAction(Store.Top(state.Stack()), Store.SetStateLock(id, tx));
    err := state.Apply([Store.SetStateLock(id, tx)]);
    ok := err.None?;
  }

  lemma {:induction false} NotAllLocked(m: Ledger, tx: Tx, ids: seq<UnitId>, n: nat)
    requires n <= |ids| && LockAll(m, tx, ids[..n]).None?
    ensures LockAll(m, tx, ids).None?
    decreases |ids| - n
  {
    if n < |ids| {
      assert ids[..n + 1][..n] == ids[..n];
      NotAllLocked(m, tx, ids, n + 1);
    } else {
      assert ids[..n] == ids;
    }
  }

  /** Takes the locks off, unit by unit; a missing or unlocked unit is no error. */
  method ReleaseUnits(state: State, ids: seq<UnitId>)
    requires state.Valid()
    modifies state, state.repr
    ensures state.Valid() && fresh(state.repr - old(state.repr)) && state.cs == old(state.cs)
    ensures state.Stack() == Store.SetTop(old(state.Stack()), Release(Store.Top(old(state.Stack())), ids))
  {
    hide State.Valid, State.Stack, State.OthersValid;
    ghost var st := state.Stack();
    ghost var m := Store.Top(st);
    assert Release(m, ids[..0]) == m;
    for i := 0 to |ids|
      invariant state.Valid() && fresh(state.repr - old(state.repr)) && state.cs == old(state.cs)
      invariant state.Stack() == Store.SetTop(st, Release(m, ids[..i]))
    {
      ReleaseOne(m, ids, i);
      Store.OneAction(Store.Top(state.Stack()), Store.RemoveStateLock(ids[i]));
      var err := state.Apply([Store.RemoveStateLock(ids[i])]);
    }
    assert ids[..|ids|] == ids;
  }

  lemma ReleaseOne(m: Ledger, ids: seq<UnitId>, i: nat)
    requires i < |ids|
    ensures Release(m, ids[..i + 1]) == Store.Apply(Release(m, ids[..i]), [Store.RemoveStateLock(ids[i])])
  {
    var before := Release(m, ids[..i]);
    Store.OneAction(before, Store.RemoveStateLock(ids[i]));
    assert ids[..i + 1] == ids[..i] + [ids[i]];
    assert Release(m, ids[..i + 1]) ==
      if ids[i] in before then before[ids[i] := before[ids[i]].(lock := None)]
      else before;
    assert ids[i] in before && before[ids[i]].lock.None? ==> before[ids[i] := before[ids[i]].(lock := None)] == before;
  }

  /** Marks the dummy units of a held transaction for deletion in the next round; fails if one of its
      units is missing. */
  method AbandonUnits(state: State, ids: seq<UnitId>, round: nat) returns (ok: bool)
    requires state.Valid()
    modifies state, state.repr
    ensures state.Valid() && fresh(state.repr - old(state.repr)) && state.cs == old(state.cs)
    ensures ok == Abandon(Store.Top(old(state.Stack())), ids, round).Some?
    ensures ok ==>
      state.Stack() == Store.SetTop(old(state.Stack()), Abandon(Store.Top(old(state.Stack())), ids, round).value)
    ensures SameBelow(old(state.Stack()), state.Stack())
  {
    hide State.Valid, State.Stack, State.OthersValid;
    ghost var st := state.Stack();
    ghost var m := Store.Top(st);
    AbandonNone(m, ids, round);
    for i := 0 to |ids|
      invariant state.Valid() && fresh(state.repr - old(state.repr)) && state.cs == old(state.cs)
      invariant (forall j :: 0 <= j < i ==> ids[j] in m) && Abandon(m, ids[..i], round).Some?
      invariant state.Stack() == Store.SetTop(st, Abandon(m, ids[..i], round).value)
    {
      var u := state.Get(ids[i]);
      if u.None? {
        return false;
      }
      AbandonOne(m, ids, i, round);
      if u.value.data.None? {
        Store.OneAction(Store.Top(state.Stack()), Store.MarkForDeletion(ids[i], round + 1));
        var err := state.Apply([Store.MarkForDeletion(ids[i], round + 1)]);
      }
    }
    assert ids[..|ids|] == ids;
    ok := true;
  }

  lemma AbandonNone(m: Ledger, ids: seq<UnitId>, round: nat)
    ensures Abandon(m, ids[..0], round) == Some(m)
  {
    assert Abandon(m, ids[..0], round).value == m;
  }

  lemma AbandonOne(m: Ledger, ids: seq<UnitId>, i: nat, round: nat)
    requires i < |ids| && Abandon(m, ids[..i], round).Some? && ids[i] in m
    ensures Abandon(m, ids[..i + 1], round).Some?
    ensures var before := Abandon(m, ids[..i], round).value;
      ids[i] in before && Abandon(m, ids[..i + 1], round).value ==
        if before[ids[i]].data.None? then before[ids[i] := before[ids[i]].(deletionRound := round + 1)] else before
  {
    assert ids[..i + 1] == ids[..i] + [ids[i]];
    assert forall j :: 0 <= j < i ==> ids[..i][j] in m;
    var before, after := Abandon(m, ids[..i], round).value, Abandon(m, ids[..i + 1], round).value;
    assert after ==
      if before[ids[i]].data.None? then before[ids[i] := before[ids[i]].(deletionRound := round + 1)]
      else before;
  }

  /** Releases the lock on a unit, if there is one: checks the proof, executes or rolls back the held
      transaction, and takes the locks off all its units. */
  method HandleUnlockUnitState(state: State, gen: Gen, auth: Auth, tx: Tx, id: UnitId, round: nat)
    returns (ok: bool, units: seq<UnitId>)
    requires state.Valid()
    modifies state, state.repr
    ensures state.Valid() && fresh(state.repr - old(state.repr)) && state.cs == old(state.cs)
    ensures ok ==> units == Logging.UnlockReports(gen, Store.Top(old(state.Stack())), id)
    ensures ok == Unlock(gen, auth, Store.Top(old(state.Stack())), tx, id, round).Some?
    ensures ok ==>
      state.Stack() ==
        Store.SetTop(old(state.Stack()), Unlock(gen, auth, Store.Top(old(state.Stack())), tx, id, round).value)
    ensures SameBelow(old(state.Stack()), state.Stack())
  {
    hide State.Valid, State.Stack, State.OthersValid, Execute, Abandon, Release, Targets;
    ghost var st := state.Stack();
    assert Store.SetTop(st, Store.Top(st)) == st;
    var u := state.Get(id);
    if u.None? || u.value.lock.None? {
      return true, [];
    }
    var h := u.value.lock.value;
    if tx.stateUnlock.None? || h.stateLock.None? {
      return false, [];
    }
    units := [];
    if tx.stateUnlock.value.kind.ToExecute? {
      if !auth(h.stateLock.value.execution, tx) {
        return false, [];
      }
      ok := ExecuteTx(state, gen, h, 0);
    } else {
      if !auth(h.stateLock.value.rollback, tx) {
        return false, [];
      }
      ok := AbandonUnits(state, Targets(gen, h), round);
    }
    if ok {
      units := Targets(gen, h);
      ReleaseUnits(state, units);
    }
  }

  /** Values in the state are 64-bit words. */
  ghost predicate Words(m: Ledger)
  {
    forall id ::
      (BillAt(m, id).Some? ==> BillAt(m, id).value.value < TWO64) &&
      (TokenAt(m, id).Some? ==> TokenAt(m, id).value.value < TWO64)
  }

  method GetData(state: State, id: UnitId) returns (found: bool, d: Option<UnitData>)
    requires state.Valid()
    ensures var m := Store.Top(state.Stack());
      found == (id in m) && (found ==> d == m[id].data) && (!found ==> d == None)
  {
    var u := state.Get(id);
    if u.None? {
      return false, None;
    }
    return true, u.value.data;
  }

  /** Validation of the transactions on bills. */
  method ValidateBillTx(state: State, gen: Gen, auth: Auth, succeeded: set<Tx>, tx: Tx) returns (amount: Option<nat>)
    requires state.Valid() && Words(Store.Top(state.Stack()))
    requires tx.attrs.Transfer? || tx.attrs.Split? || tx.attrs.TransDC? || tx.attrs.SwapDC?
    ensures amount == Validate(gen, auth, succeeded, Store.Top(state.Stack()), tx)
  {
    hide State.Valid, State.Stack, State.OthersValid, ValidTargets, ValidDust, RecordSum;
    ghost var m := Store.Top(state.Stack());
    var found, d := GetData(state, tx.unitId);
    assert BillAt(m, tx.unitId) == if d.Some? && d.value.Bill? then d else None;
    if d.None? || !d.value.Bill? {
      return None;
    }
    var bill := d.value;
    match tx.attrs {
      case Transfer(_, v, c) =>
        amount := if bill.counter == c && bill.value == v && auth(bill.owner, tx) then Some(0) else None;
      case TransDC(_, _, v, c) =>
        amount :=
          if tx.stateLock.None? && bill.counter == c && bill.value == v && auth(bill.owner, tx) then Some(0) else None;
      case Split(ts, c) =>
        var ok := ValidateSplit(ts, bill.value);
        amount := if bill.counter == c && ok && auth(bill.owner, tx) then Some(0) else None;
      case SwapDC(dust) =>
        var sum := VerifyDustTransfers(dust, tx.unitId, bill.counter);
        var supply;
        found, supply := GetData(state, DC_SUPPLY);
        assert BillAt(m, DC_SUPPLY) == if supply.Some? && supply.value.Bill? then supply else None;
        if tx.stateLock.Some? || !auth(bill.owner, tx) || sum.None? || supply.None? || !supply.value.Bill? ||
           supply.value.value < sum.value {
          return None;
        }
        var proven := AllProven(succeeded, dust);
        amount := if proven then sum else None;
    }
  }

  /** Proofs are verified last, one by one. */
  method AllProven(succeeded: set<Tx>, txs: seq<Tx>) returns (ok: bool)
    ensures ok == AllSucceeded(succeeded, txs)
  {
    for i := 0 to |txs|
      invariant forall j :: 0 <= j < i ==> txs[j] in succeeded
    {
      if txs[i] !in succeeded {
        return false;
      }
    }
    ok := true;
  }

  /** Validation of the transactions on existing tokens. */
  method ValidateTokenTx(state: State, gen: Gen, auth: Auth, succeeded: set<Tx>, tx: Tx) returns (amount: Option<nat>)
    requires state.Valid() && Words(Store.Top(state.Stack()))
    requires tx.attrs.TransferFT? || tx.attrs.SplitFT? || tx.attrs.BurnFT? || tx.attrs.JoinFT?
    ensures amount == Validate(gen, auth, succeeded, Store.Top(state.Stack()), tx)
  {
    hide State.Valid, State.Stack, State.OthersValid, ValidBurns, RecordSum, AllSucceeded;
    ghost var m := Store.Top(state.Stack());
    var found, d := GetData(state, tx.unitId);
    assert TokenAt(m, tx.unitId) == if d.Some? && d.value.Token? then d else None;
    if d.None? || !d.value.Token? {
      return None;
    }
    var token := d.value;
    match tx.attrs {
      case TransferFT(t, _, v, c) =>
        amount :=
          if token.value == v && token.counter == c && token.typeId == t && auth(token.owner, tx) then Some(0)
          else None;
      case SplitFT(t, _, v, c) =>
        amount :=
          if 0 < v < token.value && token.counter == c && token.typeId == t && auth(token.owner, tx) then Some(0)
          else None;
      case BurnFT(t, _, _, v, c) =>
        amount :=
          if tx.stateLock.None? && token.value == v && token.counter == c && token.typeId == t &&
            auth(token.owner, tx) then Some(0)
          else None;
      case JoinFT(burns) =>
        var sum := VerifyBurns(burns, tx.unitId, token.typeId, token.counter, token.value, succeeded);
        amount := if tx.stateLock.None? && sum.Some? && auth(token.owner, tx) then sum else None;
    }
  }

  method ValidateTx(state: State, gen: Gen, auth: Auth, succeeded: set<Tx>, tx: Tx) returns (amount: Option<nat>)
    requires state.Valid() && Words(Store.Top(state.Stack()))
    ensures amount == Validate(gen, auth, succeeded, Store.Top(state.Stack()), tx)
  {
    hide State.Valid, State.Stack, State.OthersValid, Words;
    match tx.attrs {
      case Nop(c, proof) =>
        var found, d := GetData(state, tx.unitId);
        amount := None;
        if found {
          match d {
            case None => amount := if c.None? && !proof then Some(0) else None;
            case Some(Bill(_, counter, owner)) =>
              amount := if c == Some(counter) && auth(owner, tx) then Some(0) else None;
            case Some(Fcr(_, counter, _, owner)) =>
              amount := if c == Some(counter) && auth(owner, tx) then Some(0) else None;
            case Some(Token(_, _, counter, owner)) =>
              amount := if c == Some(counter) && auth(owner, tx) then Some(0) else None;
          }
        }
      case MintFT(typeId, v, _) =>
        var found, d := GetData(state, tx.unitId);
        amount := if !found && v > 0 && tx.unitId == gen(tx, 0) && auth(typeId, tx) then Some(0) else None;
      case Transfer(_, _, _) => amount := ValidateBillTx(state, gen, auth, succeeded, tx);
      case Split(_, _) => amount := ValidateBillTx(state, gen, auth, succeeded, tx);
      case TransDC(_, _, _, _) => amount := ValidateBillTx(state, gen, auth, succeeded, tx);
      case SwapDC(_) => amount := ValidateBillTx(state, gen, auth, succeeded, tx);
      case _ => amount := ValidateTokenTx(state, gen, auth, succeeded, tx);
    }
  }

  /** Releases the units of a transaction one after the other. */
  method UnlockTargets(state: State, gen: Gen, auth: Auth, tx: Tx, ids: seq<UnitId>, round: nat)
    returns (ok: bool, units: seq<UnitId>)
    requires state.Valid()
    modifies state, state.repr
    ensures state.Valid() && fresh(state.repr - old(state.repr)) && state.cs == old(state.cs)
    ensures ok ==> units == Logging.AllReports(gen, auth, Store.Top(old(state.Stack())), tx, ids, round)
    ensures ok == UnlockAll(gen, auth, Store.Top(old(state.Stack())), tx, ids, round).Some?
    ensures ok ==>
      state.Stack() ==
        Store.SetTop(old(state.Stack()), UnlockAll(gen, auth, Store.Top(old(state.Stack())), tx, ids, round).value)
    ensures SameBelow(old(state.Stack()), state.Stack())
  {
    hide State.Valid, State.Stack, State.OthersValid, Unlock, TxSystem.Merge, Logging.UnlockReports;
    ghost var st := state.Stack();
    ghost var m := Store.Top(st);
    units := [];
    for i := 0 to |ids|
      invariant state.Valid() && fresh(state.repr - old(state.repr)) && state.cs == old(state.cs)
      invariant UnlockAll(gen, auth, m, tx, ids[..i], round).Some?
      invariant units == Logging.AllReports(gen, auth, m, tx, ids[..i], round)
      invariant state.Stack() == Store.SetTop(st, UnlockAll(gen, auth, m, tx, ids[..i], round).value)
    {
      assert ids[..i + 1][..i] == ids[..i];
      var more;
      ok, more := HandleUnlockUnitState(state, gen, auth, tx, ids[i], round);
      if !ok {
        NotAllReleased(gen, auth, m, tx, ids, round, i + 1);
        return;
      }
      units := TxSystem.MergeTargets(units, more);
    }
    assert ids[..|ids|] == ids;
    ok := true;
  }

  lemma {:induction false} NotAllReleased(gen: Gen, auth: Auth, m: Ledger, tx: Tx, ids: seq<UnitId>, round: nat, n: nat)
    requires n <= |ids| && UnlockAll(gen, auth, m, tx, ids[..n], round).None?
    ensures UnlockAll(gen, auth, m, tx, ids, round).None?
    decreases |ids| - n
  {
    hide Unlock;
    if n < |ids| {
      assert ids[..n + 1][..n] == ids[..n];
      NotAllReleased(gen, auth, m, tx, ids, round, n + 1);
    } else {
      assert ids[..n] == ids;
    }
  }

  /** Releases, validates, then executes or puts on hold: what a transaction does between its savepoint
      and its fee. */
  method ProcessTx(state: State, gen: Gen, auth: Auth, succeeded: set<Tx>, tx: Tx, round: nat)
    returns (ok: bool, reported: seq<UnitId>)
    requires state.Valid()
    requires var m := UnlockAll(gen, auth, Store.Top(state.Stack()), tx, Targets(gen, tx), round); m.Some? ==>
      Words(m.value)
    modifies state, state.repr
    ensures state.Valid() && fresh(state.repr - old(state.repr)) && state.cs == old(state.cs)
    ensures ok ==> reported == Logging.Reports(gen, auth, Store.Top(old(state.Stack())), tx, round)
    ensures ok == Process(gen, auth, succeeded, Store.Top(old(state.Stack())), tx, round).Some?
    ensures ok ==>
      state.Stack() ==
        Store.SetTop(old(state.Stack()), Process(gen, auth, succeeded, Store.Top(old(state.Stack())), tx, round).value)
    ensures SameBelow(old(state.Stack()), state.Stack())
  {
    hide State.Valid, State.Stack, State.OthersValid, UnlockAll, LockAll, Execute, Validate, Targets, Words,
      Logging.AllReports, TxSystem.Merge;
    ok, reported := UnlockTargets(state, gen, auth, tx, Targets(gen, tx), round);
    if !ok {
      return;
    }
    var amount := ValidateTx(state, gen, auth, succeeded, tx);
    if amount.None? {
      return false, [];
    }
    if tx.stateLock.Some? {
      ok := ExecuteLockUnitState(state, tx, Targets(gen, tx));
    } else {
      ok := ExecuteTx(state, gen, tx, amount.value);
    }
    reported := TxSystem.MergeTargets(reported, Logging.OwnReports(gen, tx));
  }
}
