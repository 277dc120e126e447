/** Agreement needs that every quorum by stake meets every quorum, counted or weighed: wherever two of
    them share no honest validator, and some validator is Byzantine, the validators can be brought to sign
    certificates that verify and commit two rounds which do not build on each other.  With
    `Network.CertificatesAgree` this is the exact condition. */
module Disagreement {
  import opened Units
  import opened TrustBase
  import opened Consensus
  import opened Network
  import opened Standstill
  import P = Progress
  import VR = VoteRegister
  import PM = Pacemaker

  // ----- certificates -----

  const BLOCK2 := Block(2, 0, 1, GENESIS_QC)
  const BLOCK4 := Block(4, 0, 1, GENESIS_QC)

  /** Another block of round 3, for those who should not hear of round 2. */
  const OTHER3 := Block(3, 0, 1, GENESIS_QC)

  function SealOf(S: Setting, block: Block): (seal: Seal) { VoteSeal(block, S.execute(block)) }

  function QcFor(S: Setting, block: Block, signers: set<Id>): (qc: QuorumCert)
  {
    QuorumCert(VoteInfo(block, S.execute(block)), SealOf(S, block), signers)
  }

  function Block3(S: Setting): (block: Block) { Block(3, 0, 1, QcFor(S, BLOCK2, S.cfg.validators)) }

  function Block5(S: Setting): (block: Block) { Block(5, 0, 1, QcFor(S, BLOCK4, S.cfg.validators)) }

  function TcFor(b: set<Id>, round: nat): (tc: TimeoutCert)
  {
    TimeoutCert(round, 0, GENESIS_QC, map x | x in b :: TimeoutVote(GENESIS_ROUND, 0))
  }

  function VotesFor(s: set<Id>, seal: Seal): (votes: set<VoteSig>)
  {
    set a | a in s :: VoteSig(a, seal)
  }

  predicate AllVoted(w: World, s: set<Id>, seal: Seal) { forall a :: a in s ==> VoteSig(a, seal) in w.votes }

  predicate AllExpired(w: World, s: set<Id>, round: nat, hqcRound: nat)
  {
    forall a :: a in s ==> TimeoutSig(a, round, 0, hqcRound) in w.timeouts
  }

  /** The votes of a quorum of stake make a certificate. */
  lemma QuorumCertifies(S: Setting, w: World, block: Block, a: set<Id>)
    requires IsQuorum(S.cfg, a, false) && AllVoted(w, a, SealOf(S, block))
    requires InfoIsValid(VoteInfo(block, S.execute(block)))
    ensures QcVerifies(S.cfg, w, QcFor(S, block, a))
  {
    hide Stake;
  }

  /** A quorum of stake that times out on the genesis certificate. */
  lemma QuorumExpires(cfg: Config, w: World, b: set<Id>, round: nat)
    requires b <= cfg.validators && 0 < cfg.threshold <= Stake(cfg, b) && round > GENESIS_ROUND
    requires AllExpired(w, b, round, GENESIS_ROUND)
    ensures TcVerifies(cfg, w, TcFor(b, round))
  {
    hide Stake;
    QuorumNotEmpty(cfg, b);
    var tc := TcFor(b, round);
    var x :| x in b;
    assert tc.sigs.Keys == b && tc.sigs[x].hqcRound == GENESIS_ROUND;
  }

  /** The timeout certificate of everybody for round 3: quorum a timed out on round 2. */
  function Tc3(S: Setting, a: set<Id>): (tc: TimeoutCert)
  {
    TimeoutCert(3, 0, QcFor(S, BLOCK2, S.cfg.validators),
                map x | x in S.cfg.validators :: TimeoutVote(if x in a then 2 else GENESIS_ROUND, 0))
  }

  lemma EverybodyExpires(S: Setting, w: World, a: set<Id>)
    requires 0 < S.cfg.threshold <= Stake(S.cfg, S.cfg.validators) && IsQuorum(S.cfg, a, false)
    requires QcVerifies(S.cfg, w, QcFor(S, BLOCK2, S.cfg.validators))
    requires AllExpired(w, a, 3, 2) && AllExpired(w, S.cfg.validators - a, 3, GENESIS_ROUND)
    ensures TcVerifies(S.cfg, w, Tc3(S, a))
  {
    hide Stake, QcVerifies, SealOf;
    QuorumNotEmpty(S.cfg, a);
    var tc := Tc3(S, a);
    assert tc.sigs.Keys == S.cfg.validators;
    var x :| x in a;
    assert tc.sigs[x].hqcRound == 2;
  }

  // ----- events for many validators -----

  function Taken(n: Node, qc: QuorumCert, tc: Option<TimeoutCert>): (n': Node) { TakeTc(TakeQc(n, qc), tc) }

  ghost predicate Grown(s: Net, s': Net)
  {
    Grows(s, s') && s'.nodes.Keys == s.nodes.Keys && s'.w.stored.Keys == s.w.stored.Keys
  }

  /** The validators of the set have voted for the block; nothing else has changed. */
  ghost predicate Voted(S: Setting, s: Net, s': Net, block: Block, tc: Option<TimeoutCert>, who: set<Id>)
  {
    && Grown(s, s') && s'.w.timeouts == s.w.timeouts && s'.w.votes == s.w.votes + VotesFor(who, SealOf(S, block))
    && (forall u :: u in s.nodes ==>
          s'.nodes[u] == if u in who then Taken(s.nodes[u], block.qc, tc) else s.nodes[u])
    && (forall u :: u in s.nodes && u in s.w.stored ==>
          s'.w.stored[u] == if u in who then StoreVote(s.w.stored[u], block) else s.w.stored[u])
  }

  ghost predicate WouldVote(s: Net, block: Block, tc: Option<TimeoutCert>, u: Id)
  {
    && u in s.nodes && u in s.w.stored && s.nodes[u].round <= block.round
    && IsSafeToVote(s.w.stored[u], block, Taken(s.nodes[u], block.qc, tc).lastTc)
  }

  ghost predicate IsOut(S: Setting, s: Net, z: Id, block: Block, tc: Option<TimeoutCert>)
  {
    Proposal(z, block, tc) in s.sent && ProposalVerifies(S, s.w, z, block, tc)
  }

  lemma VoteOnce(S: Setting, s: Net, z: Id, block: Block, tc: Option<TimeoutCert>, u: Id) returns (s': Net)
    requires Reachable(S, s) && IsOut(S, s, z, block, tc) && WouldVote(s, block, tc, u)
    ensures Reachable(S, s') && Voted(S, s, s', block, tc, {u}) && IsOut(S, s', z, block, tc)
  {
    hide Reachable, QcVerifies, TcVerifies, IsSafeToVote, VoteSeal, TakeQc, TakeTc;
    var e := Deliver(u, Proposal(z, block, tc), false, 1);
    s' := After(S, s, e);
    ReachOn(S, s, e);
    CertificatesLast(S.cfg, s.w, s'.w);
  }

  lemma {:induction false} VoteEach(S: Setting, s: Net, z: Id, block: Block, tc: Option<TimeoutCert>, who: set<Id>)
    returns (s': Net)
    requires Reachable(S, s) && IsOut(S, s, z, block, tc) && forall u :: u in who ==> WouldVote(s, block, tc, u)
    ensures Reachable(S, s') && Voted(S, s, s', block, tc, who)
    decreases who
  {
    hide Reachable, IsOut, IsSafeToVote, SealOf, Taken, StoreVote;
    if u :| u in who {
      var s1 := VoteOnce(S, s, z, block, tc, u);
      s' := VoteEach(S, s1, z, block, tc, who - {u});
      assert VotesFor(who, SealOf(S, block)) == VotesFor({u}, SealOf(S, block)) + VotesFor(who - {u}, SealOf(S, block));
    } else {
      s' := s;
      assert VotesFor(who, SealOf(S, block)) == {};
    }
  }

  lemma {:induction false} ForgeVotes(S: Setting, s: Net, block: Block, who: set<Id>) returns (s': Net)
    requires Reachable(S, s) && who <= S.cfg.byzantine * S.cfg.validators
    ensures Reachable(S, s') && Grown(s, s') && s'.nodes == s.nodes && s'.w.stored == s.w.stored
    ensures s'.w.timeouts == s.w.timeouts && s'.w.votes == s.w.votes + VotesFor(who, SealOf(S, block))
    decreases who
  {
    hide Reachable, SealOf;
    if x :| x in who {
      var e := Inject(Ballot(VR.VoteMsg(VoteInfo(block, S.execute(block)), SealOf(S, block), x), GENESIS_QC));
      var s1 := After(S, s, e);
      ReachOn(S, s, e);
      s' := ForgeVotes(S, s1, block, who - {x});
      assert VotesFor(who, SealOf(S, block)) == {VoteSig(x, SealOf(S, block))} + VotesFor(who - {x}, SealOf(S, block));
    } else {
      s' := s;
      assert VotesFor(who, SealOf(S, block)) == {};
    }
  }

  /** A Byzantine leader proposes the block; the honest ones of the set vote for it, the others sign too. */
  lemma EverybodyVotes(S: Setting, s: Net, z: Id, block: Block, tc: Option<TimeoutCert>, who: set<Id>)
    returns (s': Net)
    requires Reachable(S, s) && z in S.cfg.byzantine && who <= S.cfg.validators
    requires ProposalVerifies(S, s.w, z, block, tc)
    requires forall u :: u in who && u in s.nodes ==> WouldVote(s, block, tc, u)
    ensures Reachable(S, s') && Voted(S, s, s', block, tc, who)
  {
    hide Reachable, ProposalVerifies, IsSafeToVote, SealOf, Taken, StoreVote, NodeOk;
    ReachInv(S, s);
    LeaderThere(S, s.w, z, block, tc);
    var e := Inject(Proposal(z, block, tc));
    var s1 := After(S, s, e);
    ReachOn(S, s, e);
    var hon, byz := who * s.nodes.Keys, who - s.nodes.Keys;
    var s2 := VoteEach(S, s1, z, block, tc, hon);
    assert byz <= S.cfg.byzantine * S.cfg.validators;
    s' := ForgeVotes(S, s2, block, byz);
    VotesSplit(who, s.nodes.Keys, SealOf(S, block));
  }

  lemma LeaderThere(S: Setting, w: World, z: Id, block: Block, tc: Option<TimeoutCert>)
    requires ProposalVerifies(S, w, z, block, tc)
    ensures z in S.cfg.validators
  {
  }

  lemma VotesSplit(who: set<Id>, some: set<Id>, seal: Seal)
    ensures VotesFor(who, seal) == VotesFor(who * some, seal) + VotesFor(who - some, seal)
  {
    forall v | v in VotesFor(who, seal) ensures v in VotesFor(who * some, seal) + VotesFor(who - some, seal) {
      assert v.author in who * some || v.author in who - some;
    }
  }

  // ----- timeouts of many validators -----

  function TimeoutBy(x: Id, round: nat, highQc: QuorumCert, lastTc: Option<TimeoutCert>): (v: PM.TimeoutMsg)
  {
    PM.TimeoutMsg(VR.Timeout(round, 0, highQc), x, lastTc)
  }

  predicate AllSent(s: Net, who: set<Id>, round: nat, highQc: QuorumCert, lastTc: Option<TimeoutCert>)
  {
    forall x :: x in who ==>
      var v := TimeoutBy(x, round, highQc, lastTc); Expiry(v) in s.sent && Signed(v) in s.w.timeouts
  }

  ghost predicate WouldExpire(s: Net, round: nat, highQc: QuorumCert, lastTc: Option<TimeoutCert>, u: Id)
  {
    && u in s.nodes && u in s.w.stored && s.nodes[u].expiry.None?
    && s.nodes[u].round == round && s.nodes[u].highQc == highQc && s.nodes[u].lastTc == lastTc
    && PM.IsValidTimeout(TimeoutBy(u, round, highQc, lastTc))
    && IsSafeToTimeout(s.w.stored[u], round, highQc.info.round, lastTc)
  }

  /** The validators of the set have timed out; nothing else has changed. */
  ghost predicate Expired(s: Net, s': Net, round: nat, highQc: QuorumCert, lastTc: Option<TimeoutCert>, who: set<Id>)
  {
    && Grown(s, s') && s'.w.votes == s.w.votes && AllSent(s', who, round, highQc, lastTc)
    && (forall u :: u in s.nodes ==>
          s'.nodes[u] == if u in who then s.nodes[u].(expiry := s'.nodes[u].expiry) else s.nodes[u])
    && (forall u :: u in s.nodes && u in s.w.stored ==>
          s'.w.stored[u] == if u in who then StoreTimeout(s.w.stored[u], round) else s.w.stored[u])
  }

  lemma ExpireOnce(S: Setting, s: Net, round: nat, highQc: QuorumCert, lastTc: Option<TimeoutCert>, u: Id)
    returns (s': Net)
    requires Reachable(S, s) && u in S.cfg.validators && s.nodes.Keys == Honests(S.cfg)
    requires u in s.nodes ==> WouldExpire(s, round, highQc, lastTc, u)
    ensures Reachable(S, s') && Expired(s, s', round, highQc, lastTc, {u})
  {
    hide Reachable, PM.IsValidTimeout, IsSafeToTimeout;
    var e := if u in s.nodes then RunOut(u) else Inject(Expiry(TimeoutBy(u, round, highQc, lastTc)));
    s' := After(S, s, e);
    ReachOn(S, s, e);
  }

  lemma {:induction false} ExpireEach(S: Setting, s: Net, round: nat, highQc: QuorumCert, lastTc: Option<TimeoutCert>,
                                      who: set<Id>)
    returns (s': Net)
    requires Reachable(S, s) && who <= S.cfg.validators && s.nodes.Keys == Honests(S.cfg)
    requires forall u :: u in who && u in s.nodes ==> WouldExpire(s, round, highQc, lastTc, u)
    ensures Reachable(S, s') && Expired(s, s', round, highQc, lastTc, who)
    decreases who
  {
    hide Reachable, PM.IsValidTimeout, IsSafeToTimeout, StoreTimeout, TimeoutBy, Signed;
    if u :| u in who {
      var s1 := ExpireOnce(S, s, round, highQc, lastTc, u);
      s' := ExpireEach(S, s1, round, highQc, lastTc, who - {u});
    } else {
      s' := s;
    }
  }

  // ----- counting timeouts -----

  /** The validator has collected the timeouts of some of them for round 3, all on the genesis certificate. */
  predicate Counting(n: Node, base: Node, some: set<Id>)
  {
    && base.round == 3 && base.pending.None? && base.highQc.info.round >= GENESIS_ROUND
    && n == base.(pending := if some == {} then None else Some(TcFor(some, 3)))
  }

  lemma CountStep(S: Setting, u: Id, n: Node, base: Node, some: set<Id>, x: Id, tc: Option<TimeoutCert>)
    returns (o: Outcome)
    requires Counting(n, base, some) && x !in some && PM.TcRound(tc) < 3
    ensures o == OnExpiry(S, u, n, TimeoutBy(x, 3, GENESIS_QC, tc), 1)
    ensures |some| + 1 < S.cfg.threshold ==> Counting(o.node, base, some + {x})
    ensures |some| + 1 >= S.cfg.threshold ==> o.node == Enter(base, 4, Some(TcFor(some + {x}, 3)))
  {
    hide Collect, TcFor;
    o := OnExpiry(S, u, n, TimeoutBy(x, 3, GENESIS_QC, tc), 1);
    OneMore(some, x, tc);
    assert some + {x} != {};
  }

  lemma OneMore(some: set<Id>, x: Id, tc: Option<TimeoutCert>)
    requires x !in some
    ensures var p := if some == {} then None else Some(TcFor(some, 3));
      Collect(p, TimeoutBy(x, 3, GENESIS_QC, tc)) == Some(TcFor(some + {x}, 3))
    ensures |TcFor(some + {x}, 3).sigs| == |some| + 1 && TcFor(some + {x}, 3).round == 3
  {
    var p := if some == {} then None else Some(TcFor(some, 3));
    var p' := Collect(p, TimeoutBy(x, 3, GENESIS_QC, tc)).value;
    assert p'.sigs == TcFor(some + {x}, 3).sigs;
    assert |p'.sigs.Keys| == |p'.sigs| && p'.sigs.Keys == some + {x} && |some + {x}| == |some| + 1;
  }

  /** Only this validator has changed. */
  ghost predicate OnlyNode(s: Net, s': Net, u: Id, n: Node)
  {
    s'.w == s.w && s.sent <= s'.sent && u in s.nodes && s'.nodes == s.nodes[u := n]
  }

  lemma {:induction false} CountThem(S: Setting, s: Net, u: Id, base: Node, b: set<Id>, some: set<Id>,
                                     tc: Option<TimeoutCert>)
    returns (s': Net)
    requires Reachable(S, s) && u in s.nodes && Counting(s.nodes[u], base, some) && b <= S.cfg.validators
    requires |b| == S.cfg.threshold > |some| && some <= b && AllSent(s, b, 3, GENESIS_QC, tc)
    requires tc.Some? && tc.value.round == 2 && TcVerifies(S.cfg, s.w, tc.value)
    ensures Reachable(S, s') && OnlyNode(s, s', u, Enter(base, 4, Some(TcFor(b, 3))))
    decreases S.cfg.threshold - |some|
  {
    hide Reachable, TcVerifies, After, OnExpiry, TcFor, PM.MsgVerifies;
    var x := NotYet(some, b);
    var v := TimeoutBy(x, 3, GENESIS_QC, tc);
    GenesisTimeout(S, s.w, x, tc);
    var o := CountStep(S, u, s.nodes[u], base, some, x, tc);
    var e := Deliver(u, Expiry(v), false, 1);
    P.Delivered(S, s, u, v);
    ReachOn(S, s, e);
    var s1 := After(S, s, e);
    assert |some + {x}| == |some| + 1;
    if |some| + 1 < S.cfg.threshold {
      s' := CountThem(S, s1, u, base, b, some + {x}, tc);
    } else {
      AllOfThem(some + {x}, b);
      s' := s1;
    }
  }

  lemma GenesisTimeout(S: Setting, w: World, x: Id, tc: Option<TimeoutCert>)
    requires x in S.cfg.validators && tc.Some? && tc.value.round == 2 && TcVerifies(S.cfg, w, tc.value)
    requires Signed(TimeoutBy(x, 3, GENESIS_QC, tc)) in w.timeouts
    ensures PM.MsgVerifies(S.cfg, w, TimeoutBy(x, 3, GENESIS_QC, tc)) && RootKnown(GENESIS_QC)
  {
    hide TcVerifies;
  }

  /** The validators of the set, which are all at the start of round 3, count them. */
  lemma {:induction false} CountEach(S: Setting, s: Net, b: set<Id>, tc: Option<TimeoutCert>, who: set<Id>)
    returns (s': Net)
    requires Reachable(S, s) && b <= S.cfg.validators && |b| == S.cfg.threshold > 0 && who <= s.nodes.Keys
    requires AllSent(s, b, 3, GENESIS_QC, tc) && tc.Some? && tc.value.round == 2 && TcVerifies(S.cfg, s.w, tc.value)
    requires forall u :: u in who ==> Counting(s.nodes[u], s.nodes[u], {})
    ensures Reachable(S, s') && s'.w == s.w && s.sent <= s'.sent && s'.nodes.Keys == s.nodes.Keys
    ensures forall u :: u in s.nodes ==>
      s'.nodes[u] == if u in who then Enter(s.nodes[u], 4, Some(TcFor(b, 3))) else s.nodes[u]
    decreases who
  {
    hide Reachable, TcVerifies, Enter, TcFor, Signed;
    if u :| u in who {
      var s1 := CountThem(S, s, u, s.nodes[u], b, {}, tc);
      s' := CountEach(S, s1, b, tc, who - {u});
    } else {
      s' := s;
    }
  }

  // ----- two commits that do not agree -----

  /** A Byzantine validator leads rounds 2 to 5, and a quorum of stake and another one, which may be
      counted, share no honest validator. */
  ghost predicate IsSplit(S: Setting, z: Id, a: set<Id>, b: set<Id>)
  {
    && z in S.cfg.byzantine && z in S.cfg.validators && (forall r :: 2 <= r <= 5 ==> S.leader(r) == z)
    && 0 < S.cfg.threshold <= Stake(S.cfg, S.cfg.validators)
    && IsQuorum(S.cfg, a, false) && IsQuorum(S.cfg, b, true) && !ShareHonest(S.cfg, a, b)
  }

  function Tc2(S: Setting): (tc: TimeoutCert) { TcFor(S.cfg.validators, 2) }

  function Qc2(S: Setting): (qc: QuorumCert) { QcFor(S, BLOCK2, S.cfg.validators) }

  /** Everybody votes in round 2 and then times out in it. */
  lemma RoundTwo(S: Setting, z: Id, a: set<Id>, b: set<Id>) returns (s: Net)
    requires IsSplit(S, z, a, b)
    ensures Reachable(S, s) && s.w.votes == VotesFor(S.cfg.validators, SealOf(S, BLOCK2))
    ensures QcVerifies(S.cfg, s.w, Qc2(S)) && TcVerifies(S.cfg, s.w, Tc2(S))
    ensures forall u :: u in s.nodes ==>
      && u in s.w.stored && s.w.stored[u] == Storage(2, GENESIS_ROUND)
      && s.nodes[u] == Node(2, None, GENESIS_QC, None, map[], None, s.nodes[u].expiry)
  {
    hide Reachable, Stake, SealOf, QcVerifies, TcVerifies, TcFor;
    var s0 := StartAlone(S);
    FirstProposal(S, s0.w, z);
    var s1 := EverybodyVotes(S, s0, z, BLOCK2, None, S.cfg.validators);
    s := ExpireEach(S, s1, 2, GENESIS_QC, None, S.cfg.validators);
    AllAreQuorum(S.cfg);
    VotesAll(s.w, S.cfg.validators, SealOf(S, BLOCK2));
    QuorumCertifies(S, s.w, BLOCK2, S.cfg.validators);
    SentExpired(s, S.cfg.validators, 2, GENESIS_QC, None);
    QuorumExpires(S.cfg, s.w, S.cfg.validators, 2);
  }

  lemma FirstProposal(S: Setting, w: World, z: Id)
    requires z in S.cfg.validators && S.leader(2) == z
    ensures ProposalVerifies(S, w, z, BLOCK2, None)
  {
  }

  lemma AllAreQuorum(cfg: Config)
    requires cfg.threshold <= Stake(cfg, cfg.validators)
    ensures IsQuorum(cfg, cfg.validators, false)
  {
  }

  lemma VotesAll(w: World, s: set<Id>, seal: Seal)
    requires VotesFor(s, seal) <= w.votes
    ensures AllVoted(w, s, seal)
  {
    forall a | a in s ensures VoteSig(a, seal) in w.votes {
      assert VoteSig(a, seal) in VotesFor(s, seal);
    }
  }

  lemma SentExpired(s: Net, who: set<Id>, round: nat, highQc: QuorumCert, lastTc: Option<TimeoutCert>)
    requires AllSent(s, who, round, highQc, lastTc)
    ensures AllExpired(s.w, who, round, highQc.info.round)
  {
  }

  /** Where everybody stands in round 3. */
  ghost predicate InRoundThree(S: Setting, s: Net, a: set<Id>)
  {
    forall u :: u in s.nodes ==>
      && u in s.w.stored && s.w.stored[u] == Storage(3, if u in a then 2 else GENESIS_ROUND)
      && s.nodes[u] == if u in a then Node(3, None, Qc2(S), None, map[], None, s.nodes[u].expiry)
                       else Node(3, Some(Tc2(S)), GENESIS_QC, None, map[], None, s.nodes[u].expiry)
  }

  /** Quorum a votes in round 3 on top of round 2, everybody else on the genesis certificate. */
  lemma VoteInThree(S: Setting, s: Net, z: Id, a: set<Id>, b: set<Id>) returns (s': Net)
    requires IsSplit(S, z, a, b) && Reachable(S, s) && QcVerifies(S.cfg, s.w, Qc2(S)) && TcVerifies(S.cfg, s.w, Tc2(S))
    requires forall u :: u in s.nodes ==>
      && u in s.w.stored && s.w.stored[u] == Storage(2, GENESIS_ROUND)
      && s.nodes[u] == Node(2, None, GENESIS_QC, None, map[], None, s.nodes[u].expiry)
    ensures Reachable(S, s') && Grown(s, s') && InRoundThree(S, s', a)
    ensures forall u :: u in s'.nodes ==> s'.nodes[u].expiry.None?
    ensures s'.w.votes == s.w.votes + VotesFor(a, SealOf(S, Block3(S))) + VotesFor(s.nodes.Keys - a, SealOf(S, OTHER3))
  {
    hide Reachable, Stake, SealOf, QcVerifies, TcVerifies;
    assert ProposalVerifies(S, s.w, z, Block3(S), None);
    ReachInv(S, s);
    var s1 := EverybodyVotes(S, s, z, Block3(S), None, a);
    CertificatesLast(S.cfg, s.w, s1.w);
    GenesisVerifies(S.cfg, s1.w);
    assert ProposalVerifies(S, s1.w, z, OTHER3, Some(Tc2(S)));
    s' := EverybodyVotes(S, s1, z, OTHER3, Some(Tc2(S)), s.nodes.Keys - a);
  }

  lemma GenesisVerifies(cfg: Config, w: World)
    ensures QcVerifies(cfg, w, GENESIS_QC)
  {
  }

  /** Everybody times out in round 3 on the certificate it voted on; quorum b on the genesis certificate. */
  lemma ExpireInThree(S: Setting, s: Net, z: Id, a: set<Id>, b: set<Id>) returns (s': Net)
    requires IsSplit(S, z, a, b) && Reachable(S, s) && QcVerifies(S.cfg, s.w, Qc2(S)) && TcVerifies(S.cfg, s.w, Tc2(S))
    requires InRoundThree(S, s, a) && forall u :: u in s.nodes ==> s.nodes[u].expiry.None?
    ensures Reachable(S, s') && Grown(s, s') && s'.w.votes == s.w.votes && InRoundThree(S, s', a)
    ensures AllSent(s', b, 3, GENESIS_QC, Some(Tc2(S))) && TcVerifies(S.cfg, s'.w, Tc3(S, a))
    ensures TcVerifies(S.cfg, s'.w, Tc2(S))
  {
    hide Reachable, Stake, SealOf, QcVerifies, TcVerifies, TcFor, Tc3, Signed;
    ReachInv(S, s);
    assert Tc2(S).round == 2 by {
      TcRounds(S);
    }
    var rest := S.cfg.validators - (a - S.cfg.byzantine);
    var s1 := ExpireEach(S, s, 3, GENESIS_QC, Some(Tc2(S)), rest);
    s' := ExpireEach(S, s1, 3, Qc2(S), None, a);
    SentExpired(s1, rest, 3, GENESIS_QC, Some(Tc2(S)));
    SentExpired(s', a, 3, Qc2(S), None);
    CertificatesLast(S.cfg, s.w, s'.w);
    EverybodyExpires(S, s'.w, a);
    forall x | x in b ensures x in rest {
    }
  }

  lemma TcRounds(S: Setting)
    ensures Tc2(S).round == 2
  {
  }

  /** The honest validators are in round 4 with a TC that knows nothing of round 2. */
  ghost predicate InRoundFour(s: Net, voted: nat)
  {
    forall u :: u in s.nodes ==>
      && u in s.w.stored && s.w.stored[u].voted == voted && s.nodes[u].round == 4
      && s.nodes[u].lastTc.Some? && s.nodes[u].lastTc.value.round == 3
      && s.nodes[u].lastTc.value.highQc == GENESIS_QC && s.nodes[u].highQc.info.round < 4
  }

  /** Everybody votes for a block of round 4 on the genesis certificate: with the TC of quorum b if it has the
      stake, and otherwise after having counted it. */
  lemma VoteInFour(S: Setting, s: Net, z: Id, a: set<Id>, b: set<Id>) returns (s': Net)
    requires IsSplit(S, z, a, b) && Reachable(S, s) && InRoundThree(S, s, a)
    requires AllSent(s, b, 3, GENESIS_QC, Some(Tc2(S)))
    requires TcVerifies(S.cfg, s.w, Tc3(S, a)) && TcVerifies(S.cfg, s.w, Tc2(S))
    ensures Reachable(S, s') && Grown(s, s') && InRoundFour(s', 4)
    ensures s'.w.votes == s.w.votes + VotesFor(S.cfg.validators, SealOf(S, BLOCK4))
  {
    hide *;
    if Stake(S.cfg, b) >= S.cfg.threshold {
      s' := VoteByStake(S, s, z, a, b);
    } else {
      s' := VoteByCount(S, s, z, a, b);
    }
  }

  lemma VoteByStake(S: Setting, s: Net, z: Id, a: set<Id>, b: set<Id>) returns (s': Net)
    requires IsSplit(S, z, a, b) && Reachable(S, s) && InRoundThree(S, s, a)
    requires AllSent(s, b, 3, GENESIS_QC, Some(Tc2(S)))
    requires TcVerifies(S.cfg, s.w, Tc3(S, a)) && TcVerifies(S.cfg, s.w, Tc2(S))
    requires Stake(S.cfg, b) >= S.cfg.threshold
    ensures Reachable(S, s') && Grown(s, s') && InRoundFour(s', 4)
    ensures s'.w.votes == s.w.votes + VotesFor(S.cfg.validators, SealOf(S, BLOCK4))
  {
    hide Reachable, Stake, SealOf, QcVerifies, TcVerifies, TcFor, Tc3, Signed;
    ReachInv(S, s);
    GenesisVerifies(S.cfg, s.w);
    FourRounds(S, a, b);
    SentExpired(s, b, 3, GENESIS_QC, Some(Tc2(S)));
    QuorumExpires(S.cfg, s.w, b, 3);
    s' := EverybodyVotes(S, s, z, BLOCK4, Some(TcFor(b, 3)), S.cfg.validators);
  }

  lemma VoteByCount(S: Setting, s: Net, z: Id, a: set<Id>, b: set<Id>) returns (s': Net)
    requires IsSplit(S, z, a, b) && Reachable(S, s) && InRoundThree(S, s, a)
    requires AllSent(s, b, 3, GENESIS_QC, Some(Tc2(S)))
    requires TcVerifies(S.cfg, s.w, Tc3(S, a)) && TcVerifies(S.cfg, s.w, Tc2(S))
    requires Stake(S.cfg, b) < S.cfg.threshold
    ensures Reachable(S, s') && Grown(s, s') && InRoundFour(s', 4)
    ensures s'.w.votes == s.w.votes + VotesFor(S.cfg.validators, SealOf(S, BLOCK4))
  {
    hide Reachable, Stake, SealOf, QcVerifies, TcVerifies, TcFor, Tc3, Signed;
    ReachInv(S, s);
    GenesisVerifies(S.cfg, s.w);
    FourRounds(S, a, b);
    var x := NotYet({}, b);
    var b' := SomeOf(b, x, S.cfg.threshold);
    FourRounds(S, a, b');
    var s1 := CountEach(S, s, b', Some(Tc2(S)), s.nodes.Keys);
    s' := EverybodyVotes(S, s1, z, BLOCK4, Some(Tc3(S, a)), S.cfg.validators);
  }

  lemma FourRounds(S: Setting, a: set<Id>, b: set<Id>)
    ensures Tc2(S).round == 2 && Tc3(S, a).round == 3 && TcFor(b, 3).round == 3 && TcFor(b, 3).highQc == GENESIS_QC
  {
  }

  /** And then for one of round 5 on top of it. */
  lemma VoteInFive(S: Setting, s: Net, z: Id, a: set<Id>, b: set<Id>) returns (s': Net)
    requires IsSplit(S, z, a, b) && Reachable(S, s) && InRoundFour(s, 4)
    requires AllVoted(s.w, S.cfg.validators, SealOf(S, BLOCK4))
    ensures Reachable(S, s') && Grown(s, s')
    ensures s'.w.votes == s.w.votes + VotesFor(S.cfg.validators, SealOf(S, Block5(S)))
  {
    hide Reachable, Stake, SealOf, QcVerifies;
    AllAreQuorum(S.cfg);
    QuorumCertifies(S, s.w, BLOCK4, S.cfg.validators);
    assert ProposalVerifies(S, s.w, z, Block5(S), None);
    s' := EverybodyVotes(S, s, z, Block5(S), None, S.cfg.validators);
  }

  /** What was signed in the end. */
  ghost predicate OnlyThese(S: Setting, w: World)
  {
    forall v :: v in w.votes ==>
      v.seal in {SealOf(S, BLOCK2), SealOf(S, Block3(S)), SealOf(S, OTHER3), SealOf(S, BLOCK4), SealOf(S, Block5(S))}
  }

  lemma ParentsAreThese(S: Setting, w: World, qc: QuorumCert)
    requires OnlyThese(S, w) && S.cfg.threshold > 0 && QcHeld(S.cfg, w, qc)
    ensures qc.info.round == 5 ==> qc.info.parent == 4
    ensures qc.info.round == 4 ==> qc.info.parent == GENESIS_ROUND
    ensures qc.info.round == GENESIS_ROUND ==> qc.info.parent == 0
    ensures qc.info.round > 0
  {
    hide Stake, IsQuorum;
    if qc.info.round > GENESIS_ROUND {
      KnownByQuorum(S.cfg, w, qc, true);
      QuorumNotEmpty(S.cfg, qc.signers);
      var x :| x in qc.signers;
      assert VoteSig(x, qc.seal) in w.votes;
    }
  }

  lemma NoChain(S: Setting, w: World, chain: seq<QuorumCert>)
    requires OnlyThese(S, w) && S.cfg.threshold > 0 && IsChain(S.cfg, w, chain) && chain[0].info.round == 5
    ensures chain[|chain| - 1].info.round != 2
  {
    hide OnlyThese, QcVerifies;
    ParentsAreThese(S, w, chain[0]);
    if |chain| > 1 {
      ParentsAreThese(S, w, chain[1]);
      if |chain| > 2 {
        ParentsAreThese(S, w, chain[2]);
        if |chain| > 3 {
          ParentsAreThese(S, w, chain[3]);
        }
      }
    }
  }

  /** Some run ends with certificates that commit rounds 2 and 4 and do not build on each other. */
  lemma Disagree(S: Setting, z: Id, a: set<Id>, b: set<Id>) returns (s: Net, qc1: QuorumCert, qc2: QuorumCert)
    requires IsSplit(S, z, a, b)
    ensures Reachable(S, s) && Commits(S.cfg, s.w, qc1, 2, false) && Commits(S.cfg, s.w, qc2, 4, false)
    ensures !Consistent(S.cfg, s.w, qc1, 2, qc2, 4)
  {
    hide Reachable, Stake, IsQuorum, QcHeld, QcVerifies, TcVerifies, InRoundThree, InRoundFour, VoteSeal;
    var s2 := RoundTwo(S, z, a, b);
    var s3 := VoteInThree(S, s2, z, a, b);
    CertificatesLast(S.cfg, s2.w, s3.w);
    var s4 := ExpireInThree(S, s3, z, a, b);
    var s5 := VoteInFour(S, s4, z, a, b);
    VotesAll(s5.w, S.cfg.validators, SealOf(S, BLOCK4));
    s := VoteInFive(S, s5, z, a, b);
    qc1, qc2 := QcFor(S, Block3(S), a), QcFor(S, Block5(S), S.cfg.validators);
    VotesAll(s.w, a, SealOf(S, Block3(S)));
    VotesAll(s.w, S.cfg.validators, SealOf(S, Block5(S)));
    TheyCommit(S, s.w, a);
    forall chain | Builds(S.cfg, s.w, chain, qc1, 2, qc2) ensures false {
      NoChain(S, s.w, chain);
    }
  }

  lemma TheyCommit(S: Setting, w: World, a: set<Id>)
    requires 0 < S.cfg.threshold <= Stake(S.cfg, S.cfg.validators) && IsQuorum(S.cfg, a, false)
    requires AllVoted(w, a, SealOf(S, Block3(S))) && AllVoted(w, S.cfg.validators, SealOf(S, Block5(S)))
    ensures Commits(S.cfg, w, QcFor(S, Block3(S), a), 2, false)
    ensures Commits(S.cfg, w, QcFor(S, Block5(S), S.cfg.validators), 4, false)
  {
    hide Stake, IsQuorum, QcHeld;
    AllAreQuorum(S.cfg);
    QuorumCertifies(S, w, Block3(S), a);
    QuorumCertifies(S, w, Block5(S), S.cfg.validators);
  }

  // ----- the exact condition -----

  ghost predicate BothCommit(S: Setting, run: seq<Net>, i: nat, qc1: QuorumCert, r1: nat, j: nat, qc2: QuorumCert,
                             r2: nat)
  {
    && NetRun(S, run) && i < |run| && j < |run|
    && Commits(S.cfg, run[i].w, qc1, r1, false) && Commits(S.cfg, run[j].w, qc2, r2, false) && r1 <= r2
  }

  /** Whatever certificates that verify commit in a run, at any two points, agrees. */
  ghost predicate AlwaysAgrees(S: Setting)
  {
    forall run: seq<Net>, i, qc1, r1, j, qc2, r2 :: BothCommit(S, run, i, qc1, r1, j, qc2, r2) ==>
      Consistent(S.cfg, run[Max(i, j)].w, qc1, r1, qc2, r2)
  }

  /** Whoever leads. */
  ghost predicate AgreesForAll(cfg: Config)
  {
    forall S: Setting :: S.cfg == cfg ==> AlwaysAgrees(S)
  }

  lemma SplitDisagrees(S: Setting, z: Id, a: set<Id>, b: set<Id>)
    requires IsSplit(S, z, a, b)
    ensures !AlwaysAgrees(S)
  {
    hide Commits, Consistent, IsSplit, Start, Moves;
    var s, qc1, qc2 := Disagree(S, z, a, b);
    var run: seq<Net> :| NetRun(S, run) && run[|run| - 1] == s;
    var i := |run| - 1;
    assert BothCommit(S, run, i, qc1, 2, i, qc2, 4) && !Consistent(S.cfg, run[Max(i, i)].w, qc1, 2, qc2, 4);
  }

  /** Where some validator is Byzantine and the threshold can be reached, agreement is kept in all runs,
      whoever leads, if and only if every quorum by stake shares an honest validator with every quorum, by
      stake or by number. */
  lemma AgreesExactly(cfg: Config)
    requires 0 < cfg.threshold <= Stake(cfg, cfg.validators) && !AllHonest(cfg)
    ensures AgreesForAll(cfg) <==> EveryQuorumMeets(cfg, false)
  {
    hide NetRun, Commits, Consistent, Stake, IsQuorum, AlwaysAgrees;
    if EveryQuorumMeets(cfg, false) {
      forall S: Setting | S.cfg == cfg ensures AlwaysAgrees(S) {
        MeetingAgrees(S);
      }
    } else {
      var a, b :| IsQuorum(cfg, a, false) && IsQuorum(cfg, b, true) && !ShareHonest(cfg, a, b);
      var z :| z in cfg.validators && z in cfg.byzantine;
      var S := Setting(cfg, r => z, block => 7);
      SplitDisagrees(S, z, a, b);
    }
  }

  lemma MeetingAgrees(S: Setting)
    requires EveryQuorumMeets(S.cfg, false)
    ensures AlwaysAgrees(S)
  {
    hide NetRun, Commits, Consistent, EveryQuorumMeets;
    forall run: seq<Net>, i, qc1, r1, j, qc2, r2 | BothCommit(S, run, i, qc1, r1, j, qc2, r2)
      ensures Consistent(S.cfg, run[Max(i, j)].w, qc1, r1, qc2, r2)
    {
      CertificatesAgree(S, run, i, qc1, r1, j, qc2, r2, false);
    }
  }

  /** With validators that have no stake, quorums by stake meet and agreement still fails. */
  lemma UnevenDisagrees()
    ensures QuorumsMeet(UNEVEN) && !AgreesForAll(UNEVEN)
  {
    hide Stake, EveryQuorumMeets, AgreesForAll;
    CountBeyondStake();
    UnevenStakes();
    assert 4 in UNEVEN.validators && 4 in UNEVEN.byzantine;
    AgreesExactly(UNEVEN);
  }
}
