/** What the summary of the state tree says: its value is the sum of all bills, and its hash pins down every
    unit that has a log. */
module Summaries {
  import opened Units
  import opened Sums
  import A = Avl
  import Store

  // ----- the value -----

  /** The units as their last log entries say. */
  function Shown(m: Store.Ledger): (m': Store.Ledger)
  {
    map id | id in m :: m[id].(data := Effective(m[id]).data)
  }

  /** The value of all bills, as a 64-bit word. */
  ghost function Worth(m: Store.Ledger): (v: nat)
  {
    Total(Bills, Shown(m)) % TWO64
  }

  lemma WordSum(a: nat, x: nat, y: nat)
    ensures (a + x % TWO64 + y % TWO64) % TWO64 == (a + x + y) % TWO64
  {
    var i, j := x / TWO64, y / TWO64;
    assert a + x + y == a + x % TWO64 + y % TWO64 + TWO64 * (i + j);
    WholeWords(a + x % TWO64 + y % TWO64, i + j);
  }

  lemma {:induction false} WholeWords(a: nat, n: nat)
    ensures (a + TWO64 * n) % TWO64 == a % TWO64
  {
    if n > 0 {
      WholeWords(a, n - 1);
      assert a + TWO64 * n == (a + TWO64 * (n - 1)) + TWO64;
    }
  }

  /** The bills below a node are its own, those on the left and those on the right. */
  lemma SplitTotal(t: A.Node, lo: Option<UnitId>, hi: Option<UnitId>)
    requires A.Within(t, lo, hi)
    ensures Total(Bills, Shown(A.Contents(t))) == Value(Bills, Effective(t.value).data) +
      Total(Bills, Shown(A.Contents(t.left))) + Total(Bills, Shown(A.Contents(t.right)))
  {
    hide A.Contents, Sum;
    var m, l, r := Shown(A.Contents(t)), Shown(A.Contents(t.left)), Shown(A.Contents(t.right));
    Parts(t, lo, hi);
    SumOfOne(Bills, m, t.key);
    SumUnion(Bills, m, l.Keys, {t.key});
    SumUnion(Bills, m, l.Keys + {t.key}, r.Keys);
    SumSame(Bills, m, l, l.Keys);
    SumSame(Bills, m, r, r.Keys);
    assert m.Keys == l.Keys + {t.key} + r.Keys;
  }

  lemma Parts(t: A.Node, lo: Option<UnitId>, hi: Option<UnitId>)
    requires A.Within(t, lo, hi)
    ensures var m, l, r := A.Contents(t), A.Contents(t.left), A.Contents(t.right);
      && m.Keys == l.Keys + {t.key} + r.Keys && t.key !in l && t.key !in r && l.Keys !! r.Keys
      && (forall k :: k in l ==> m[k] == l[k]) && (forall k :: k in r ==> m[k] == r[k])
      && m[t.key] == Core(t.value)
  {
    A.ContentsParts(t, lo, hi);
    forall k
      ensures k in A.Contents(t.left) ==> k < t.key
      ensures k in A.Contents(t.right) ==> t.key < k
    {
      A.ContentsLookup(t.left, lo, Some(t.key), k);
      A.ContentsLookup(t.right, Some(t.key), hi, k);
      if k >= t.key { A.OutOfBounds(t.left, lo, Some(t.key), k); }
      if k <= t.key { A.OutOfBounds(t.right, Some(t.key), hi, k); }
    }
  }

  lemma NodeValue(t: A.Node)
    ensures A.Recompute(t).value ==
      (Value(Bills, Effective(t.value).data) + A.Recompute(t.left).value + A.Recompute(t.right).value) % TWO64
  {
  }

  lemma EmptyValue(t: A.Tree)
    requires t.Nil?
    ensures A.Recompute(t).value == 0 == Worth(A.Contents(t))
  {
    SumOfNothing(Bills, Shown(A.Contents(t)), Shown(A.Contents(t)).Keys);
  }

  /** The value of the summary is the sum of the bills that the last log entries show. */
  lemma {:induction false} SummaryValue(t: A.Tree, lo: Option<UnitId>, hi: Option<UnitId>)
    requires A.Within(t, lo, hi)
    ensures A.Recompute(t).value == Worth(A.Contents(t))
  {
    hide A.Recompute, A.Contents, Total, Shown, Value, Effective;
    if t.Nil? {
      EmptyValue(t);
    } else {
      SummaryValue(t.left, lo, Some(t.key));
      SummaryValue(t.right, Some(t.key), hi);
      SplitTotal(t, lo, hi);
      NodeValue(t);
      WordSum(Value(Bills, Effective(t.value).data), Total(Bills, Shown(A.Contents(t.left))),
        Total(Bills, Shown(A.Contents(t.right))));
    }
  }

  /** Where all units are as their logs say, that is the sum of all bills. */
  lemma LoggedWorth(m: Store.Ledger)
    requires A.AllLogged(m)
    ensures Worth(m) == Total(Bills, m) % TWO64
  {
    forall id | id in m ensures ValueAt(Bills, m, id) == ValueAt(Bills, Shown(m), id) {
      assert A.IsLogged(m[id]);
    }
    SumSame(Bills, m, Shown(m), m.Keys);
    assert Shown(m).Keys == m.Keys;
  }

  // ----- the hash -----

  /** The root over a log pins down what was hashed of every entry. */
  lemma {:induction false} LogsRootBinds(a: seq<Log>, b: seq<Log>)
    requires LogsRoot(a) == LogsRoot(b)
    ensures |a| == |b| && forall i :: 0 <= i < |a| ==> LeafHash(a[i]) == LeafHash(b[i])
    decreases |a|
  {
    if |a| >= 2 && |b| >= 2 {
      var p, q := Pivot(|a|), Pivot(|b|);
      LogsRootBinds(a[..p], b[..q]);
      LogsRootBinds(a[p..], b[q..]);
      forall i | 0 <= i < |a| ensures LeafHash(a[i]) == LeafHash(b[i]) {
        if i < p {
          assert a[i] == a[..p][i] && b[i] == b[..q][i];
        } else {
          assert a[i] == a[p..][i - p] && b[i] == b[q..][i - q];
        }
      }
    }
  }

  /** The same units, with logs of which the same was hashed. */
  ghost predicate SameLogs(m: Store.Ledger, m': Store.Ledger)
  {
    m.Keys == m'.Keys && forall k :: k in m ==> SameLog(m[k], m'[k])
  }

  predicate SameLog(u: Unit, u': Unit)
  {
    && |u.logs| == |u'.logs| && (forall i :: 0 <= i < |u.logs| ==> LeafHash(u.logs[i]) == LeafHash(u'.logs[i]))
    && (|u.logs| > 0 ==> Effective(u) == Effective(u'))
  }

  /** Trees with the same root hash have the same units, with the same logs; a unit that has a log has the
      same data, lock and deletion round in both. */
  lemma {:induction false} RootBinds(t: A.Tree, t': A.Tree, lo: Option<UnitId>, hi: Option<UnitId>)
    requires A.Within(t, lo, hi) && A.Within(t', lo, hi) && A.LogsTrue(t) && A.LogsTrue(t')
    requires A.Recompute(t).hash == A.Recompute(t').hash
    ensures SameLogs(A.Contents(t), A.Contents(t'))
  {
    hide A.Contents, SameLog;
    if t.Nil? || t'.Nil? {
      Nothing(t, t');
    } else {
      RootBinds(t.left, t'.left, lo, Some(t.key));
      RootBinds(t.right, t'.right, Some(t.key), hi);
      LogsRootBinds(t.value.logs, t'.value.logs);
      LogsAlike(t.value, t'.value);
      Parts(t, lo, hi);
      Parts(t', lo, hi);
    }
  }

  lemma Nothing(t: A.Tree, t': A.Tree)
    requires t.Nil? && t'.Nil?
    ensures SameLogs(A.Contents(t), A.Contents(t'))
  {
  }

  lemma LogsAlike(u: Unit, u': Unit)
    requires |u.logs| == |u'.logs| && forall i :: 0 <= i < |u.logs| ==> LeafHash(u.logs[i]) == LeafHash(u'.logs[i])
    ensures SameLog(Core(u), Core(u'))
  {
  }
}
