/** No handler makes or loses value: bills keep their sum, and token sums change only by what is minted,
    burned and joined. */
module Conservation {
  import opened Units
  import opened Transactions
  import opened Effects
  import opened Sums
  import Locking

  /** What a handler counts on when it changes values.  Validation establishes it, and for a transaction
      on hold it still holds when the transaction is executed without being validated again. */
  predicate Ready(m: Ledger, tx: Tx, amount: nat)
  {
    match tx.attrs
    case Split(ts, _) => BillAt(m, tx.unitId).Some? && SumOf(ts) < BillAt(m, tx.unitId).value.value
    case TransDC(_, _, v, _) => BillAt(m, tx.unitId).Some? && BillAt(m, tx.unitId).value.value == v
    case SwapDC(dust) => BillAt(m, DC_SUPPLY).Some? && BillAt(m, DC_SUPPLY).value.value >= amount == RecordSum(dust)
    case SplitFT(_, _, v, _) => TokenAt(m, tx.unitId).Some? && v < TokenAt(m, tx.unitId).value.value
    case BurnFT(t, _, _, v, _) =>
      TokenAt(m, tx.unitId).Some? && TokenAt(m, tx.unitId).value.value == v && TokenAt(m, tx.unitId).value.typeId == t
    case JoinFT(burns) =>
      TokenAt(m, tx.unitId).Some? && amount == TokenAt(m, tx.unitId).value.value + RecordSum(burns) < TWO64
    case MintFT(_, v, _) => v < TWO64
    case _ => true
  }

  /** Values fit their 64 bits. */
  ghost predicate Bounded(m: Ledger)
  {
    Total(Bills, m) < TWO64 && forall id :: TokenAt(m, id).Some? ==> TokenAt(m, id).value.value < TWO64
  }

  lemma ValidIsReady(gen: Gen, auth: Auth, succeeded: set<Tx>, m: Ledger, tx: Tx)
    requires Validate(gen, auth, succeeded, m, tx).Some? && (tx.attrs.MintFT? ==> tx.attrs.value < TWO64)
    ensures Ready(m, tx, Validate(gen, auth, succeeded, m, tx).value)
  {
  }

  lemma HeldIsReady(gen: Gen, m: Ledger, h: Tx)
    requires Locking.Lockable(h) && Locking.StillValid(gen, m, h) && (h.attrs.MintFT? ==> h.attrs.value < TWO64)
    ensures Ready(m, h, 0)
  {
  }

  // ----- bills -----

  lemma BillWithinTotal(m: Ledger, id: UnitId)
    requires Bounded(m)
    ensures ValueAt(Bills, m, id) < TWO64
  {
    TotalParts(Bills, m, {id});
    SumOfOne(Bills, m, id);
  }

  ghost function CreatedSet(gen: Gen, tx: Tx): (ids: set<UnitId>)
  {
    set id | id in Created(gen, tx)
  }

  lemma TouchedParts(gen: Gen, tx: Tx)
    requires Apart(gen, tx)
    ensures Touched(gen, tx) == {tx.unitId} + CreatedSet(gen, tx) + (if UsesSupply(tx) then {DC_SUPPLY} else {})
    ensures forall i, j :: 0 <= i < j < |Created(gen, tx)| ==> Created(gen, tx)[i] != Created(gen, tx)[j]
  {
    TargetsOf(gen, tx);
    forall i, j | 0 <= i < j < |Created(gen, tx)| ensures Created(gen, tx)[i] != Created(gen, tx)[j] {
      assert Created(gen, tx)[i] == gen(tx, i) && Created(gen, tx)[j] == gen(tx, j);
    }
  }

  /** The sum over the units a transaction touches. */
  lemma TouchedSum(gen: Gen, k: Kind, m: Ledger, tx: Tx)
    requires Apart(gen, tx)
    ensures Sum(k, m, Touched(gen, tx)) ==
      ValueAt(k, m, tx.unitId) + Sum(k, m, CreatedSet(gen, tx)) + if UsesSupply(tx) then ValueAt(k, m, DC_SUPPLY) else 0
  {
    TouchedParts(gen, tx);
    var created := CreatedSet(gen, tx);
    SumOfOne(k, m, tx.unitId);
    SumUnion(k, m, {tx.unitId}, created);
    if UsesSupply(tx) {
      assert created == {};
      SumOfOne(k, m, DC_SUPPLY);
      SumUnion(k, m, {tx.unitId} + created, {DC_SUPPLY});
    } else {
      assert {tx.unitId} + created + {} == {tx.unitId} + created;
    }
  }

  /** The units that a transaction creates are worth nothing before and what it gives them after. */
  lemma CreatedSums(gen: Gen, k: Kind, m: Ledger, tx: Tx, amount: nat, m': Ledger)
    requires Apart(gen, tx) && IsEffect(gen, m, tx, amount, m')
    ensures Sum(k, m, CreatedSet(gen, tx)) == 0
    ensures Sum(k, m', CreatedSet(gen, tx)) == SeqSum(CreatedValues(gen, k, m, tx))
  {
    TouchedParts(gen, tx);
    var ids := Created(gen, tx);
    forall id | id in CreatedSet(gen, tx) ensures ValueAt(k, m, id) == 0 {
      var i :| 0 <= i < |ids| && ids[i] == id;
    }
    SumOfNothing(k, m, CreatedSet(gen, tx));
    SumOfSeq(k, m', ids, CreatedValues(gen, k, m, tx));
  }

  function CreatedValues(gen: Gen, k: Kind, m: Ledger, tx: Tx): (values: seq<nat>)
    ensures |values| == |Created(gen, tx)|
  {
    seq(|Created(gen, tx)|, i requires 0 <= i < |Created(gen, tx)| => Value(k, CreatedData(m, tx, i)))
  }

  lemma {:induction false} SplitValues(k: Kind, ts: seq<Target>)
    ensures SeqSum(seq(|ts|, i requires 0 <= i < |ts| => Value(k, Some(Bill(ts[i].amount, 0, ts[i].owner))))) ==
      if k.Bills? then SumOf(ts) else 0
    decreases |ts|
  {
    if ts != [] {
      var n := |ts| - 1;
      var values := seq(|ts|, i requires 0 <= i < |ts| => Value(k, Some(Bill(ts[i].amount, 0, ts[i].owner))));
      assert values[..n] ==
        seq(n, i requires 0 <= i < n => Value(k, Some(Bill(ts[..n][i].amount, 0, ts[..n][i].owner))));
      SplitValues(k, ts[..n]);
    }
  }

  /** What the created units are worth. */
  lemma CreatedWorth(gen: Gen, k: Kind, m: Ledger, tx: Tx)
    ensures SeqSum(CreatedValues(gen, k, m, tx)) ==
      match tx.attrs
      case Split(ts, _) => if k.Bills? then SumOf(ts) else 0
      case SplitFT(_, _, _, _) => Value(k, CreatedData(m, tx, 0))
      case _ => 0
  {
    match tx.attrs
    case Split(ts, _) =>
      SplitValues(k, ts);
      assert CreatedValues(gen, k, m, tx) ==
        seq(|ts|, i requires 0 <= i < |ts| => Value(k, Some(Bill(ts[i].amount, 0, ts[i].owner))));
    case SplitFT(_, _, _, _) =>
      assert CreatedValues(gen, k, m, tx) == [Value(k, CreatedData(m, tx, 0))];
      assert [Value(k, CreatedData(m, tx, 0))][..0] == [];
    case _ => assert CreatedValues(gen, k, m, tx) == [];
  }

  /** Execution keeps the sum of all bills; no addition or subtraction on the way wraps around. */
  lemma BillsConserved(gen: Gen, m: Ledger, tx: Tx, amount: nat, m': Ledger)
    requires Apart(gen, tx) && IsEffect(gen, m, tx, amount, m') && Ready(m, tx, amount) && Bounded(m)
    ensures Total(Bills, m') == Total(Bills, m)
  {
    hide IsEffect, Ready, Bounded, Apart, Sum, Total, CreatedValues, Created;
    UnchangedValues(gen, Bills, m, tx, amount, m');
    TotalChange(Bills, m, m', Touched(gen, tx));
    TouchedSum(gen, Bills, m, tx);
    TouchedSum(gen, Bills, m', tx);
    CreatedSums(gen, Bills, m, tx, amount, m');
    CreatedWorth(gen, Bills, m, tx);
    OwnBills(gen, m, tx, amount, m');
  }

  lemma UnchangedValues(gen: Gen, k: Kind, m: Ledger, tx: Tx, amount: nat, m': Ledger)
    requires IsEffect(gen, m, tx, amount, m')
    ensures forall id :: id !in Touched(gen, tx) ==> ValueAt(k, m, id) == ValueAt(k, m', id)
  {
  }

  /** A split gives away what its new bills get. */
  lemma SplitGives(gen: Gen, m: Ledger, tx: Tx, amount: nat, m': Ledger)
    requires tx.attrs.Split? && IsEffect(gen, m, tx, amount, m') && Ready(m, tx, amount) && Bounded(m)
    ensures ValueAt(Bills, m', tx.unitId) + SumOf(tx.attrs.targets) == ValueAt(Bills, m, tx.unitId)
  {
    hide IsEffect, Bounded, Sub64;
    OwnEffect(gen, m, tx, amount, m');
    BillWithinTotal(m, tx.unitId);
    NoWrap(ValueAt(Bills, m, tx.unitId), SumOf(tx.attrs.targets));
  }

  lemma SupplyWithinTotal(m: Ledger, id: UnitId)
    requires Bounded(m) && id != DC_SUPPLY
    ensures ValueAt(Bills, m, id) + ValueAt(Bills, m, DC_SUPPLY) < TWO64
  {
    hide Total;
    ValueWithinTotal(Bills, m, id, DC_SUPPLY);
  }

  /** Dust collection and swaps move value between the bill and the supply. */
  lemma SupplyGives(gen: Gen, m: Ledger, tx: Tx, amount: nat, m': Ledger)
    requires UsesSupply(tx) && Apart(gen, tx) && IsEffect(gen, m, tx, amount, m') && Ready(m, tx, amount) && Bounded(m)
    ensures ValueAt(Bills, m', tx.unitId) + ValueAt(Bills, m', DC_SUPPLY) ==
      ValueAt(Bills, m, tx.unitId) + ValueAt(Bills, m, DC_SUPPLY)
  {
    hide IsEffect, Bounded, Sub64, Add64;
    OwnEffect(gen, m, tx, amount, m');
    SupplyEffectOf(gen, m, tx, amount, m');
    SupplyWithinTotal(m, tx.unitId);
    NoWrap(ValueAt(Bills, m, DC_SUPPLY), ValueAt(Bills, m, tx.unitId));
    NoWrap(ValueAt(Bills, m, DC_SUPPLY), amount);
    NoWrap(ValueAt(Bills, m, tx.unitId), amount);
  }

  /** All others leave the value of a bill alone. */
  lemma OthersGive(gen: Gen, m: Ledger, tx: Tx, amount: nat, m': Ledger)
    requires !tx.attrs.Split? && !UsesSupply(tx) && IsEffect(gen, m, tx, amount, m')
    ensures ValueAt(Bills, m', tx.unitId) == ValueAt(Bills, m, tx.unitId)
  {
  }

  /** The unit of the transaction gives what the created units and the supply get. */
  lemma OwnBills(gen: Gen, m: Ledger, tx: Tx, amount: nat, m': Ledger)
    requires Apart(gen, tx) && IsEffect(gen, m, tx, amount, m') && Ready(m, tx, amount) && Bounded(m)
    ensures var given := if tx.attrs.Split? then SumOf(tx.attrs.targets) else 0;
      var supply, supply' := if UsesSupply(tx) then ValueAt(Bills, m, DC_SUPPLY) else 0,
          if UsesSupply(tx) then ValueAt(Bills, m', DC_SUPPLY) else 0;
      ValueAt(Bills, m', tx.unitId) + given + supply' == ValueAt(Bills, m, tx.unitId) + supply
  {
    hide IsEffect, Ready, Bounded, Apart, ValueAt;
    if tx.attrs.Split? {
      SplitGives(gen, m, tx, amount, m');
    } else if UsesSupply(tx) {
      SupplyGives(gen, m, tx, amount, m');
    } else {
      OthersGive(gen, m, tx, amount, m');
    }
  }

  // ----- tokens -----

  /** How the sum of the tokens of a type changes. */
  function Delta(m: Ledger, tx: Tx, t: UnitId): (d: int)
  {
    match tx.attrs
    case MintFT(t', v, _) => if t' == t then v else 0
    case BurnFT(t', _, _, v, _) => if t' == t then 0 - (v as int) else 0
    case JoinFT(burns) =>
      if TokenAt(m, tx.unitId).Some? && TokenAt(m, tx.unitId).value.typeId == t then RecordSum(burns) else 0
    case _ => 0
  }

  lemma TokensConserved(gen: Gen, m: Ledger, tx: Tx, amount: nat, m': Ledger, t: UnitId)
    requires Apart(gen, tx) && IsEffect(gen, m, tx, amount, m') && Ready(m, tx, amount) && Bounded(m)
    ensures Total(Tokens(t), m') == Total(Tokens(t), m) + Delta(m, tx, t)
  {
    hide IsEffect, Ready, Bounded, Apart, Sum, Total, CreatedValues, Created, Delta;
    var k := Tokens(t);
    UnchangedValues(gen, k, m, tx, amount, m');
    TotalChange(k, m, m', Touched(gen, tx));
    TouchedSum(gen, k, m, tx);
    TouchedSum(gen, k, m', tx);
    CreatedSums(gen, k, m, tx, amount, m');
    CreatedWorth(gen, k, m, tx);
    OwnTokens(gen, m, tx, amount, m', t);
  }

  lemma OwnTokens(gen: Gen, m: Ledger, tx: Tx, amount: nat, m': Ledger, t: UnitId)
    requires Apart(gen, tx) && IsEffect(gen, m, tx, amount, m') && Ready(m, tx, amount) && Bounded(m)
    ensures var k := Tokens(t);
      var given := if tx.attrs.SplitFT? then Value(k, CreatedData(m, tx, 0)) else 0;
      ValueAt(k, m', tx.unitId) + given == ValueAt(k, m, tx.unitId) + Delta(m, tx, t)
    ensures UsesSupply(tx) ==> ValueAt(Tokens(t), m, DC_SUPPLY) == ValueAt(Tokens(t), m', DC_SUPPLY) == 0
  {
  }

  /** Values stay within their bounds. */
  lemma BoundsKept(gen: Gen, m: Ledger, tx: Tx, amount: nat, m': Ledger)
    requires Apart(gen, tx) && IsEffect(gen, m, tx, amount, m') && Ready(m, tx, amount) && Bounded(m)
    ensures Bounded(m')
  {
    BillsConserved(gen, m, tx, amount, m');
    forall id | TokenAt(m', id).Some? ensures TokenAt(m', id).value.value < TWO64 {
      if id in Touched(gen, tx) && id != tx.unitId && id !in {DC_SUPPLY} {
        TargetsOf(gen, tx);
        var i :| 0 <= i < |Created(gen, tx)| && Created(gen, tx)[i] == id;
      } else {
        assert TokenAt(m, id).Some? || tx.attrs.MintFT?;
      }
    }
  }
}
