/** The trust base of the root chain: validators, their stakes and the quorum threshold. */
module TrustBase {
  type Id = int

  /** The trust base: the stake of every validator and the stake that makes a quorum. */
  datatype Config = Config(stakes: map<Id, nat>, byzantine: set<Id>, threshold: nat) {
    const validators: set<Id> := stakes.Keys
  }

  function StakeOf(cfg: Config, a: Id): (n: nat)
  {
    if a in cfg.stakes then cfg.stakes[a] else 0
  }

  /** The stakes of a set of validators together. */
  ghost function Stake(cfg: Config, s: set<Id>): (n: nat)
  {
    if exists x :: x in s then
      var x :| x in s;
      StakeOf(cfg, x) + Stake(cfg, s - {x})
    else 0
  }

  /** Twice the quorum exceeds all stake together with that of the Byzantine validators. */
  ghost predicate QuorumsMeet(cfg: Config)
  {
    cfg.byzantine <= cfg.validators && 2 * cfg.threshold > Stake(cfg, cfg.validators) + Stake(cfg, cfg.byzantine)
  }

  predicate Honest(cfg: Config, a: Id) { a in cfg.validators && a !in cfg.byzantine }

  predicate AllHonest(cfg: Config) { forall a :: a in cfg.validators ==> a !in cfg.byzantine }

  function Honests(cfg: Config): (s: set<Id>) { cfg.validators - cfg.byzantine }

  /** Enough validators for a certificate.  One that was received has to carry the threshold in stake;
      one that a validator assembles itself by counting has to reach it in the number of signers. */
  ghost predicate IsQuorum(cfg: Config, s: set<Id>, counted: bool)
  {
    s <= cfg.validators && (Stake(cfg, s) >= cfg.threshold || (counted && |s| >= cfg.threshold))
  }

  predicate ShareHonest(cfg: Config, a: set<Id>, b: set<Id>)
  {
    exists x :: x in a && x in b && Honest(cfg, x)
  }

  /** Every quorum that certifies a block shares an honest validator with every quorum that times out a
      round.  Timeouts are always counted; `counted` says whether certificates of blocks that were only
      counted are meant too. */
  ghost predicate EveryQuorumMeets(cfg: Config, counted: bool)
  {
    forall a, b :: IsQuorum(cfg, a, counted) && IsQuorum(cfg, b, true) ==> ShareHonest(cfg, a, b)
  }

  /** Enough validators by number are enough by stake. */
  ghost predicate CountsSuffice(cfg: Config)
  {
    forall s :: s <= cfg.validators && |s| >= cfg.threshold ==> Stake(cfg, s) >= cfg.threshold
  }

  ghost predicate EveryoneHasStake(cfg: Config)
  {
    forall a :: a in cfg.validators ==> StakeOf(cfg, a) >= 1
  }

  lemma {:induction false} StakePick(cfg: Config, s: set<Id>, x: Id)
    requires x in s
    ensures Stake(cfg, s) == StakeOf(cfg, x) + Stake(cfg, s - {x})
    decreases s
  {
    var y :| y in s && Stake(cfg, s) == StakeOf(cfg, y) + Stake(cfg, s - {y});
    if y != x {
      StakePick(cfg, s - {y}, x);
      StakePick(cfg, s - {x}, y);
      assert s - {y} - {x} == s - {x} - {y};
    }
  }

  lemma {:induction false} StakeUnion(cfg: Config, a: set<Id>, b: set<Id>)
    requires a !! b
    ensures Stake(cfg, a + b) == Stake(cfg, a) + Stake(cfg, b)
    decreases a
  {
    if x :| x in a {
      StakePick(cfg, a, x);
      StakePick(cfg, a + b, x);
      assert (a + b) - {x} == (a - {x}) + b;
      StakeUnion(cfg, a - {x}, b);
    } else {
      assert forall x :: x in a + b ==> x in b;
      assert a + b == b;
    }
  }

  /** More validators have no less stake. */
  lemma StakeGrows(cfg: Config, a: set<Id>, b: set<Id>)
    requires a <= b
    ensures Stake(cfg, a) <= Stake(cfg, b)
  {
    StakeUnion(cfg, a, b - a);
    assert a + (b - a) == b;
  }

  lemma StakeOverlap(cfg: Config, a: set<Id>, b: set<Id>)
    ensures Stake(cfg, a) + Stake(cfg, b) == Stake(cfg, a + b) + Stake(cfg, a * b)
  {
    StakeUnion(cfg, a, b - a);
    StakeUnion(cfg, b - a, a * b);
    assert a + (b - a) == a + b;
    assert (b - a) + a * b == b;
  }

  /** Two quorums by stake share an honest validator. */
  lemma StakesShareHonest(cfg: Config, a: set<Id>, b: set<Id>)
    requires QuorumsMeet(cfg) && a <= cfg.validators && b <= cfg.validators
    requires Stake(cfg, a) >= cfg.threshold && Stake(cfg, b) >= cfg.threshold
    ensures ShareHonest(cfg, a, b)
  {
    var both := a * b;
    StakeOverlap(cfg, a, b);
    StakeGrows(cfg, a + b, cfg.validators);
    if forall y :: y in both ==> y in cfg.byzantine {
      StakeGrows(cfg, both, cfg.byzantine);
    }
    var x :| x in both && x !in cfg.byzantine;
  }

  /** Where every validator has a stake, a count never exceeds the stake; with stakes of one the two are
      the same. */
  lemma {:induction false} CountWithinStake(cfg: Config, s: set<Id>)
    requires forall a :: a in s ==> StakeOf(cfg, a) >= 1
    ensures |s| <= Stake(cfg, s)
    ensures (forall a :: a in s ==> StakeOf(cfg, a) == 1) ==> |s| == Stake(cfg, s)
    decreases s
  {
    if x :| x in s {
      StakePick(cfg, s, x);
      CountWithinStake(cfg, s - {x});
    } else {
      assert forall a :: a !in s;
      assert s == {};
    }
  }

  /** Where every validator has a stake, votes can be counted as well as weighed. */
  lemma StakedQuorumsMeet(cfg: Config)
    requires QuorumsMeet(cfg) && EveryoneHasStake(cfg)
    ensures CountsSuffice(cfg) && forall counted :: EveryQuorumMeets(cfg, counted)
  {
    forall s | s <= cfg.validators && |s| >= cfg.threshold ensures Stake(cfg, s) >= cfg.threshold {
      CountWithinStake(cfg, s);
    }
    forall a, b, counted | IsQuorum(cfg, a, counted) && IsQuorum(cfg, b, true) ensures ShareHonest(cfg, a, b) {
      StakesShareHonest(cfg, a, b);
    }
  }

  lemma {:induction false} NoStake(cfg: Config, s: set<Id>)
    requires forall a :: a in s ==> StakeOf(cfg, a) == 0
    ensures Stake(cfg, s) == 0
    decreases s
  {
    if x :| x in s {
      StakePick(cfg, s, x);
      NoStake(cfg, s - {x});
    }
  }

  lemma QuorumNotEmpty(cfg: Config, s: set<Id>)
    requires IsQuorum(cfg, s, true) && cfg.threshold > 0
    ensures exists x :: x in s
  {
    if x :| x in s {
    } else {
      NoStake(cfg, s);
      CountWithinStake(cfg, s);
    }
  }

  /** Four validators with a stake of one, of which one is Byzantine, and three Byzantine ones without
      stake. */
  const UNEVEN := Config(map[1 := 1, 2 := 1, 3 := 1, 4 := 1, 5 := 0, 6 := 0, 7 := 0], {4, 5, 6, 7}, 3)

  lemma UnevenStakes()
    ensures Stake(UNEVEN, {5, 6, 7}) == 0 && Stake(UNEVEN, {1, 2, 3}) == 3
    ensures Stake(UNEVEN, UNEVEN.byzantine) == 1 && Stake(UNEVEN, UNEVEN.validators) == 4
  {
    hide Stake;
    NoStake(UNEVEN, {5, 6, 7});
    CountWithinStake(UNEVEN, {1, 2, 3});
    CountWithinStake(UNEVEN, {4});
    StakeUnion(UNEVEN, {4}, {5, 6, 7});
    assert UNEVEN.byzantine == {4} + {5, 6, 7};
    StakeUnion(UNEVEN, {1, 2, 3}, UNEVEN.byzantine);
    assert UNEVEN.validators == {1, 2, 3} + UNEVEN.byzantine;
  }

  /** There quorums by stake share an honest validator, but three votes without stake fill the count. */
  lemma CountBeyondStake()
    ensures QuorumsMeet(UNEVEN) && Stake(UNEVEN, Honests(UNEVEN)) >= UNEVEN.threshold
    ensures !CountsSuffice(UNEVEN) && !EveryQuorumMeets(UNEVEN, false)
  {
    hide Stake;
    UnevenStakes();
    var s := {5, 6, 7};
    assert Honests(UNEVEN) == {1, 2, 3};
    assert s <= UNEVEN.validators && |s| == 3;
    assert IsQuorum(UNEVEN, {1, 2, 3}, false) && IsQuorum(UNEVEN, s, true) && !ShareHonest(UNEVEN, {1, 2, 3}, s);
  }
}
