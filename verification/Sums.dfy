/** Sums over the units of a ledger and over sets of transactions. */
module Sums {
  import opened Units
  import opened Transactions

  // ----- values of units -----

  /** What is added up: the bills, or the tokens of one type. */
  datatype Kind = Bills | Tokens(typeId: UnitId)

  function Value(k: Kind, d: Option<UnitData>): (v: nat)
  {
    match d
    case Some(Bill(v, _, _)) => if k.Bills? then v else 0
    case Some(Token(t, v, _, _)) => if k == Tokens(t) then v else 0
    case _ => 0
  }

  function ValueAt(k: Kind, m: Ledger, id: UnitId): (v: nat)
  {
    if id in m then Value(k, m[id].data) else 0
  }

  ghost function Sum(k: Kind, m: Ledger, ids: set<UnitId>): (s: nat)
  {
    if exists x :: x in ids then
      var x :| x in ids;
      ValueAt(k, m, x) + Sum(k, m, ids - {x})
    else 0
  }

  ghost function Total(k: Kind, m: Ledger): (s: nat)
  {
    Sum(k, m, m.Keys)
  }

  lemma {:induction false} SumPick(k: Kind, m: Ledger, ids: set<UnitId>, x: UnitId)
    requires x in ids
    ensures Sum(k, m, ids) == ValueAt(k, m, x) + Sum(k, m, ids - {x})
    decreases ids
  {
    var y :| y in ids && Sum(k, m, ids) == ValueAt(k, m, y) + Sum(k, m, ids - {y});
    if y != x {
      SumPick(k, m, ids - {y}, x);
      SumPick(k, m, ids - {x}, y);
      assert ids - {y} - {x} == ids - {x} - {y};
    }
  }

  lemma {:induction false} SumSame(k: Kind, m: Ledger, m': Ledger, ids: set<UnitId>)
    requires forall id :: id in ids ==> ValueAt(k, m, id) == ValueAt(k, m', id)
    ensures Sum(k, m, ids) == Sum(k, m', ids)
    decreases ids
  {
    if x :| x in ids {
      SumPick(k, m, ids, x);
      SumPick(k, m', ids, x);
      SumSame(k, m, m', ids - {x});
    }
  }

  lemma {:induction false} SumUnion(k: Kind, m: Ledger, a: set<UnitId>, b: set<UnitId>)
    requires a !! b
    ensures Sum(k, m, a + b) == Sum(k, m, a) + Sum(k, m, b)
    decreases a
  {
    if x :| x in a {
      SumPick(k, m, a, x);
      SumPick(k, m, a + b, x);
      assert (a + b) - {x} == (a - {x}) + b;
      SumUnion(k, m, a - {x}, b);
    } else {
      assert forall x :: x in a + b ==> x in b;
      assert a + b == b;
    }
  }

  lemma {:induction false} SumOfNothing(k: Kind, m: Ledger, ids: set<UnitId>)
    requires forall id :: id in ids ==> ValueAt(k, m, id) == 0
    ensures Sum(k, m, ids) == 0
    decreases ids
  {
    if x :| x in ids {
      SumPick(k, m, ids, x);
      SumOfNothing(k, m, ids - {x});
    }
  }

  lemma SumOfOne(k: Kind, m: Ledger, x: UnitId)
    ensures Sum(k, m, {x}) == ValueAt(k, m, x)
  {
    SumPick(k, m, {x}, x);
    assert {x} - {x} == {};
  }

  /** The total is what the units of a set hold and what the others hold. */
  lemma TotalParts(k: Kind, m: Ledger, ids: set<UnitId>)
    ensures Total(k, m) == Sum(k, m, ids) + Sum(k, m, m.Keys - ids)
  {
    var missing, here := ids - m.Keys, ids * m.Keys;
    SumOfNothing(k, m, missing);
    SumUnion(k, m, missing, here);
    assert missing + here == ids;
    SumUnion(k, m, here, m.Keys - ids);
    assert here + (m.Keys - ids) == m.Keys;
  }

  /** If values change on some units only, the total changes by what they change. */
  lemma TotalChange(k: Kind, m: Ledger, m': Ledger, ids: set<UnitId>)
    requires forall id :: id !in ids ==> ValueAt(k, m, id) == ValueAt(k, m', id)
    ensures Total(k, m') + Sum(k, m, ids) == Total(k, m) + Sum(k, m', ids)
  {
    TotalParts(k, m, ids);
    TotalParts(k, m', ids);
    var others := (m.Keys + m'.Keys) - ids;
    SumSame(k, m, m', others);
    RestSum(k, m, m', ids);
    RestSum(k, m', m, ids);
    assert (m'.Keys + m.Keys) - ids == others;
  }

  lemma RestSum(k: Kind, m: Ledger, m': Ledger, ids: set<UnitId>)
    ensures Sum(k, m, (m.Keys + m'.Keys) - ids) == Sum(k, m, m.Keys - ids)
  {
    var extra := m'.Keys - m.Keys - ids;
    SumOfNothing(k, m, extra);
    SumUnion(k, m, extra, m.Keys - ids);
    assert extra + (m.Keys - ids) == (m.Keys + m'.Keys) - ids;
  }

  lemma ValueWithinTotal(k: Kind, m: Ledger, x: UnitId, y: UnitId)
    requires x != y
    ensures ValueAt(k, m, x) + ValueAt(k, m, y) <= Total(k, m)
  {
    TotalParts(k, m, {x, y});
    SumPick(k, m, {x, y}, x);
    assert {x, y} - {x} == {y};
    SumOfOne(k, m, y);
  }

  /** A sequence of different units. */
  lemma {:induction false} SumOfSeq(k: Kind, m: Ledger, ids: seq<UnitId>, values: seq<nat>)
    requires |ids| == |values| && (forall i, j :: 0 <= i < j < |ids| ==> ids[i] != ids[j])
    requires forall i :: 0 <= i < |ids| ==> ValueAt(k, m, ids[i]) == values[i]
    ensures Sum(k, m, set id | id in ids) == SeqSum(values)
  {
    if ids == [] {
      assert (set id | id in ids) == {};
    } else {
      var n := |ids| - 1;
      var all := set id | id in ids;
      assert all - {ids[n]} == set id | id in ids[..n];
      SumPick(k, m, all, ids[n]);
      SumOfSeq(k, m, ids[..n], values[..n]);
    }
  }

  function SeqSum(values: seq<nat>): (s: nat)
  {
    if values == [] then 0 else SeqSum(values[..|values| - 1]) + values[|values| - 1]
  }

  // ----- values of transactions -----

  /** Dust that was collected, tokens of a type that were burned, tokens of a type that were minted. */
  datatype TxKind = Dust | Burnt(typeId: UnitId) | Minted(typeId: UnitId)

  function TxValue(k: TxKind, tx: Tx): (v: nat)
  {
    match tx.attrs
    case TransDC(_, _, v, _) => if k.Dust? then v else 0
    case BurnFT(t, _, _, v, _) => if k == Burnt(t) then v else 0
    case MintFT(t, v, _) => if k == Minted(t) && tx.stateLock.None? then v else 0
    case _ => 0
  }

  ghost function TxSum(k: TxKind, txs: set<Tx>): (s: nat)
  {
    if txs == {} then 0 else
    var x :| x in txs;
    TxValue(k, x) + TxSum(k, txs - {x})
  }

  lemma {:induction false} TxSumPick(k: TxKind, txs: set<Tx>, x: Tx)
    requires x in txs
    ensures TxSum(k, txs) == TxValue(k, x) + TxSum(k, txs - {x})
    decreases txs
  {
    var y :| y in txs && TxSum(k, txs) == TxValue(k, y) + TxSum(k, txs - {y});
    if x != y {
      TxSumPick(k, txs - {y}, x);
      TxSumPick(k, txs - {x}, y);
      assert txs - {y} - {x} == txs - {x} - {y};
    }
  }

  lemma TxSumAdd(k: TxKind, txs: set<Tx>, x: Tx)
    requires x !in txs
    ensures TxSum(k, txs + {x}) == TxSum(k, txs) + TxValue(k, x)
  {
    TxSumPick(k, txs + {x}, x);
    assert txs + {x} - {x} == txs;
  }

  lemma {:induction false} TxSumUnion(k: TxKind, a: set<Tx>, b: set<Tx>)
    requires a !! b
    ensures TxSum(k, a + b) == TxSum(k, a) + TxSum(k, b)
    decreases a
  {
    if a == {} {
      assert a + b == b;
    } else {
      var x :| x in a;
      TxSumPick(k, a, x);
      TxSumPick(k, a + b, x);
      assert (a + b) - {x} == (a - {x}) + b;
      TxSumUnion(k, a - {x}, b);
    }
  }

  /** Records in strictly increasing order of their units are all different. */
  lemma {:induction false} Increasing(txs: seq<Tx>, i: nat, j: nat)
    requires (forall x :: 0 < x < |txs| ==> txs[x - 1].unitId < txs[x].unitId) && i < j < |txs|
    ensures txs[i].unitId < txs[j].unitId
  {
    if i < j - 1 {
      Increasing(txs, i, j - 1);
    }
  }

  lemma SetOfSnoc(txs: seq<Tx>, x: Tx)
    ensures (set tx | tx in txs + [x]) == (set tx | tx in txs) + {x}
  {
  }

  /** So a list of them is worth what the set of them is worth. */
  lemma {:induction false} RecordsAsSet(k: TxKind, txs: seq<Tx>)
    requires (forall x :: 0 < x < |txs| ==> txs[x - 1].unitId < txs[x].unitId)
    requires forall i :: 0 <= i < |txs| ==> TxValue(k, txs[i]) == RecordValue(txs[i])
    ensures TxSum(k, set tx | tx in txs) == RecordSum(txs)
  {
    hide TxSum, TxValue, RecordValue;
    if txs == [] {
      NoRecords(k);
      assert (set tx | tx in txs) == {};
    } else {
      var n := |txs| - 1;
      var init, last := txs[..n], txs[n];
      RecordsAsSet(k, init);
      forall i | 0 <= i < n ensures init[i] != last {
        Increasing(txs, i, n);
      }
      assert txs == init + [last];
      SetOfSnoc(init, last);
      TxSumAdd(k, (set tx | tx in init), last);
    }
  }

  lemma NoRecords(k: TxKind)
    ensures TxSum(k, {}) == 0
  {
  }
}
