/** When honest validators can go on by themselves: if as many as the threshold hold nothing that the
    others would refuse, and enough votes by number are enough by stake.  They leave their rounds together
    by timeouts, through the rounds of other leaders, until they lead three rounds in a row. */
module Progress {
  import opened Units
  import opened TrustBase
  import opened Consensus
  import opened Network
  import VR = VoteRegister
  import PM = Pacemaker

  ghost predicate Enough(S: Setting, g: set<Id>)
  {
    CountsSuffice(S.cfg) && |g| >= S.cfg.threshold >= 2
  }

  /** All signatures are for epoch zero. */
  predicate EpochZero(tc: TimeoutCert) { tc.epoch == 0 && forall a :: a in tc.sigs ==> tc.sigs[a].epoch == 0 }

  /** The TC that led to the round verifies, and the timeouts collected are for the round and epoch zero. */
  ghost predicate Unspoilt(S: Setting, w: World, n: Node)
  {
    && (n.lastTc.Some? ==> TcVerifies(S.cfg, w, n.lastTc.value))
    && (n.pending.Some? ==> n.pending.value.round == n.round && EpochZero(n.pending.value))
  }

  ghost predicate Well(S: Setting, s: Net, g: set<Id>)
  {
    NetInv(S, s) && g <= s.nodes.Keys && forall a :: a in g ==> Unspoilt(S, s.w, s.nodes[a])
  }

  /** The same validators, of which only one has changed. */
  ghost predicate OnlyMoves(s: Net, s': Net, a: Id)
  {
    Grows(s, s') && s'.nodes.Keys == s.nodes.Keys && forall b :: b in s.nodes && b != a ==> s'.nodes[b] == s.nodes[b]
  }

  lemma StepOn(S: Setting, g: set<Id>, s: Net, e: Event)
    requires Well(S, s, g) && IsHonest(e) && Possible(S, s, e)
    requires Unspoilt(S, After(S, s, e).w, After(S, s, e).nodes[Actor(e)])
    ensures Well(S, After(S, s, e), g) && Leads(S, s, After(S, s, e)) && OnlyMoves(s, After(S, s, e), Actor(e))
  {
    hide NetInv, React, TcVerifies, QcVerifies;
    var s' := After(S, s, e);
    EventKeeps(S, s, e);
    LeadsBy(S, s, e);
    CertificatesLast(S.cfg, s.w, s'.w);
    forall b | b in g ensures Unspoilt(S, s'.w, s'.nodes[b]) {
      if b != Actor(e) {
        assert Unspoilt(S, s.w, s.nodes[b]);
      }
    }
  }

  lemma Verified(S: Setting, w: World, qc: QuorumCert)
    requires CountsSuffice(S.cfg) && QcHeld(S.cfg, w, qc)
    ensures QcVerifies(S.cfg, w, qc)
  {
  }

  lemma TakeUnspoilt(S: Setting, w: World, n: Node, qc: QuorumCert, tc: Option<TimeoutCert>)
    requires Unspoilt(S, w, n) && (tc.Some? ==> TcVerifies(S.cfg, w, tc.value))
    ensures Unspoilt(S, w, TakeTc(TakeQc(n, qc), tc))
  {
    hide TcVerifies;
  }

  // ----- timing out -----

  /** A timeout vote of the validator for the round that everybody accepts. */
  ghost predicate IsTimeoutOf(S: Setting, s: Net, a: Id, round: nat, v: PM.TimeoutMsg)
  {
    && Expiry(v) in s.sent && v.author == a && v.timeout.round == round && v.timeout.epoch == 0
    && PM.MsgVerifies(S.cfg, s.w, v) && RootKnown(v.timeout.highQc) && PM.TcRound(v.lastTc) < round
  }

  ghost predicate HasTimedOut(S: Setting, s: Net, a: Id, round: nat)
  {
    exists v :: IsTimeoutOf(S, s, a, round, v)
  }

  lemma TimeoutLasts(S: Setting, s: Net, s': Net, a: Id, round: nat, v: PM.TimeoutMsg)
    requires IsTimeoutOf(S, s, a, round, v) && Grows(s, s')
    ensures IsTimeoutOf(S, s', a, round, v)
  {
    hide TcVerifies, QcVerifies;
    CertificatesLast(S.cfg, s.w, s'.w);
  }

  lemma TimeoutsLast(S: Setting, s: Net, s': Net, round: nat, who: set<Id>)
    requires Grows(s, s') && forall a :: a in who ==> HasTimedOut(S, s, a, round)
    ensures forall a :: a in who ==> HasTimedOut(S, s', a, round)
  {
    hide IsTimeoutOf;
    forall a | a in who ensures HasTimedOut(S, s', a, round) {
      var v :| IsTimeoutOf(S, s, a, round, v);
      TimeoutLasts(S, s, s', a, round, v);
    }
  }

  /** An honest validator can always time out in its round. */
  lemma TimeOutOne(S: Setting, g: set<Id>, s: Net, a: Id) returns (s': Net)
    requires Enough(S, g) && Well(S, s, g) && a in g
    ensures Well(S, s', g) && Leads(S, s, s') && OnlyMoves(s, s', a) && HasTimedOut(S, s', a, s.nodes[a].round)
    ensures s'.nodes[a] == s.nodes[a].(expiry := s'.nodes[a].expiry)
  {
    hide TcHeld, QcVerifies, TcVerifies, TcCollected, HoldsPending, HoldsBallots, CountsSuffice;
    var n := s.nodes[a];
    assert NodeOk(S, s, a, n);
    if n.expiry.Some? {
      s' := s;
      LeadsNowhere(S, s);
    } else {
      Anchored(S, s.w, n);
      s' := After(S, s, RunOut(a));
      CertificatesLast(S.cfg, s.w, s'.w);
      StepOn(S, g, s, RunOut(a));
      assert NodeOk(S, s', a, s'.nodes[a]);
    }
    var v := s'.nodes[a].expiry.value;
    Verified(S, s'.w, v.timeout.highQc);
    assert Unspoilt(S, s'.w, s'.nodes[a]);
    assert IsTimeoutOf(S, s', a, n.round, v);
  }

  lemma Anchored(S: Setting, w: World, n: Node)
    requires HoldsCerts(S, w, n)
    ensures GENESIS_ROUND <= n.highQc.info.round < n.round
  {
  }

  lemma {:induction false} TimeOutAll(S: Setting, g: set<Id>, s: Net, m: nat, todo: set<Id>) returns (s': Net)
    requires Enough(S, g) && Well(S, s, g) && todo <= g && forall a :: a in g ==> s.nodes[a].round == m
    requires forall a :: a in g && a !in todo ==> HasTimedOut(S, s, a, m)
    ensures Well(S, s', g) && Leads(S, s, s') && s'.nodes.Keys == s.nodes.Keys
    ensures forall a :: a in g ==> s'.nodes[a].round == m && HasTimedOut(S, s', a, m)
    decreases todo
  {
    hide NetInv, Unspoilt, HasTimedOut, Leads, Enough;
    if a :| a in todo {
      var s1 := TimeOutOne(S, g, s, a);
      TimeoutsLast(S, s, s1, m, g - todo);
      s' := TimeOutAll(S, g, s1, m, todo - {a});
      LeadsOn(S, s, s1, s');
    } else {
      s' := s;
      LeadsNowhere(S, s);
    }
  }

  // ----- catching up -----

  /** A message that is accepted changes just the receiver. */
  lemma Delivered(S: Setting, s: Net, l: Id, v: PM.TimeoutMsg)
    requires l in s.nodes && Expiry(v) in s.sent && s.nodes[l].round <= v.timeout.round
    requires PM.MsgVerifies(S.cfg, s.w, v) && RootKnown(v.timeout.highQc)
    ensures var o := OnExpiry(S, l, s.nodes[l], v, 1);
      After(S, s, Deliver(l, Expiry(v), false, 1)) == Net(s.w, s.nodes[l := o.node], s.sent + o.out)
  {
    hide PM.MsgVerifies;
  }

  /** A timeout of a later round brings a validator there. */
  lemma CatchUpOne(S: Setting, g: set<Id>, s: Net, x: Id, m: nat, v: PM.TimeoutMsg, u: Id) returns (s': Net)
    requires Enough(S, g) && Well(S, s, g) && IsTimeoutOf(S, s, x, m, v) && u in g && s.nodes[u].round < m
    ensures Well(S, s', g) && Leads(S, s, s') && OnlyMoves(s, s', u) && s'.nodes[u].round == m
  {
    hide NetInv, PM.MsgVerifies, After, OnExpiry, CountsSuffice;
    var o := CatchingUp(S, g, s, x, m, v, u);
    Delivered(S, s, u, v);
    s' := After(S, s, Deliver(u, Expiry(v), false, 1));
    StepOn(S, g, s, Deliver(u, Expiry(v), false, 1));
  }

  lemma CatchingUp(S: Setting, g: set<Id>, s: Net, x: Id, m: nat, v: PM.TimeoutMsg, u: Id) returns (o: Outcome)
    requires Enough(S, g) && Well(S, s, g) && IsTimeoutOf(S, s, x, m, v) && u in g && s.nodes[u].round < m
    ensures o == OnExpiry(S, u, s.nodes[u], v, 1) && Unspoilt(S, s.w, o.node) && o.node.round == m
  {
    hide TcHeld, QcVerifies, TcVerifies, HoldsPending, HoldsBallots, HoldsExpiry, CountsSuffice;
    var n := s.nodes[u];
    assert NodeOk(S, s, u, n);
    VerifiedIsHeld(S.cfg, s.w, v.timeout.highQc);
    PM.VerifiedIsHeld(S.cfg, s.w, v.lastTc);
    TakeKeeps(S, s.w, n, v.timeout.highQc, v.lastTc);
    TakeUnspoilt(S, s.w, n, v.timeout.highQc, v.lastTc);
    assert |map[v.author := TimeoutVote(v.timeout.highQc.info.round, v.timeout.epoch)]| == 1;
    o := OnExpiry(S, u, n, v, 1);
  }

  lemma {:induction false} CatchUp(S: Setting, g: set<Id>, s: Net, x: Id, m: nat, v: PM.TimeoutMsg, todo: set<Id>)
    returns (s': Net)
    requires Enough(S, g) && Well(S, s, g) && IsTimeoutOf(S, s, x, m, v) && todo <= g
    requires forall a :: a in g ==> s.nodes[a].round <= m && (a !in todo ==> s.nodes[a].round == m)
    ensures Well(S, s', g) && Leads(S, s, s') && s'.nodes.Keys == s.nodes.Keys
    ensures forall a :: a in g ==> s'.nodes[a].round == m
    decreases todo
  {
    hide NetInv, Unspoilt, IsTimeoutOf, Leads, Enough;
    if u :| u in todo {
      if s.nodes[u].round < m {
        var s1 := CatchUpOne(S, g, s, x, m, v, u);
        TimeoutLasts(S, s, s1, x, m, v);
        s' := CatchUp(S, g, s1, x, m, v, todo - {u});
        LeadsOn(S, s, s1, s');
      } else {
        s' := CatchUp(S, g, s, x, m, v, todo - {u});
      }
    } else {
      s' := s;
      LeadsNowhere(S, s);
    }
  }

  /** Everybody comes to the last round that anybody has reached, and times out in it. */
  lemma Regroup(S: Setting, g: set<Id>, s: Net, x: Id) returns (s': Net)
    requires Enough(S, g) && Well(S, s, g) && x in g
    requires forall a :: a in g ==> s.nodes[a].round <= s.nodes[x].round
    ensures Well(S, s', g) && Leads(S, s, s') && s'.nodes.Keys == s.nodes.Keys
    ensures forall a :: a in g ==>
      s'.nodes[a].round == s.nodes[x].round && HasTimedOut(S, s', a, s.nodes[x].round)
  {
    hide NetInv, Unspoilt, IsTimeoutOf, Leads, Enough;
    var m := s.nodes[x].round;
    var s1 := TimeOutOne(S, g, s, x);
    var v :| IsTimeoutOf(S, s1, x, m, v);
    var s2 := CatchUp(S, g, s1, x, m, v, g);
    s' := TimeOutAll(S, g, s2, m, g);
    LeadsOn(S, s, s1, s2);
    LeadsOn(S, s, s2, s');
  }

  // ----- a timeout certificate -----

  function Collected(n: Node): (s: set<Id>)
  {
    if n.pending.Some? then n.pending.value.sigs.Keys else {}
  }

  /** Counting makes no difference here: what was collected verifies. */
  lemma CountedVerifies(S: Setting, w: World, tc: TimeoutCert)
    requires CountsSuffice(S.cfg) && TcCollected(S.cfg, w, tc) && EpochZero(tc) && |tc.sigs| >= S.cfg.threshold
    ensures TcVerifies(S.cfg, w, tc)
  {
    hide Stake;
    assert |tc.sigs.Keys| == |tc.sigs|;
  }

  /** The timeout vote of somebody whose vote is not there yet is collected. */
  lemma CollectOne(S: Setting, g: set<Id>, s: Net, l: Id, x: Id, v: PM.TimeoutMsg) returns (s': Net)
    requires Enough(S, g) && Well(S, s, g) && l in g && IsTimeoutOf(S, s, x, s.nodes[l].round, v)
    requires x !in Collected(s.nodes[l])
    ensures Well(S, s', g) && Leads(S, s, s') && OnlyMoves(s, s', l) && s'.w == s.w
    ensures s'.nodes[l].round == s.nodes[l].round ==> Collected(s'.nodes[l]) == Collected(s.nodes[l]) + {x}
    ensures s'.nodes[l].round != s.nodes[l].round ==> Opens(S, s', l, s.nodes[l].round + 1)
  {
    hide NetInv, TcVerifies, QcVerifies, PM.MsgVerifies, React, After, OnExpiry, Collect, CountsSuffice, TcCollected;
    var n1, p := Collecting(S, g, s, l, x, v);
    Completed(S, g, s, l, v, n1, p);
    Delivered(S, s, l, v);
    s' := After(S, s, Deliver(l, Expiry(v), false, 1));
    StepOn(S, g, s, Deliver(l, Expiry(v), false, 1));
  }

  lemma Completed(S: Setting, g: set<Id>, s: Net, l: Id, v: PM.TimeoutMsg, n1: Node, p: TimeoutCert)
    requires Enough(S, g) && Well(S, s, g) && l in g && n1 == s.nodes[l].(highQc := n1.highQc)
    requires n1 == TakeTc(TakeQc(s.nodes[l], v.timeout.highQc), v.lastTc) && Collect(n1.pending, v) == Some(p)
    requires p.round == n1.round && EpochZero(p) && TcCollected(S.cfg, s.w, p)
    ensures var o := OnExpiry(S, l, s.nodes[l], v, 1);
      && o.step.None? && Unspoilt(S, s.w, o.node)
      && if |p.sigs| < S.cfg.threshold then o.node == n1.(pending := Some(p))
         else o.node == Enter(n1, n1.round + 1, Some(p)) && o.out == Propose(S, l, o.node, 1)
  {
    hide TcVerifies, TcCollected, CountsSuffice, NetInv;
    if |p.sigs| >= S.cfg.threshold {
      CountedVerifies(S, s.w, p);
    }
  }

  lemma Collecting(S: Setting, g: set<Id>, s: Net, l: Id, x: Id, v: PM.TimeoutMsg) returns (n1: Node, p: TimeoutCert)
    requires Enough(S, g) && Well(S, s, g) && l in g && IsTimeoutOf(S, s, x, s.nodes[l].round, v)
    requires x !in Collected(s.nodes[l])
    ensures n1 == TakeTc(TakeQc(s.nodes[l], v.timeout.highQc), v.lastTc) && n1 == s.nodes[l].(highQc := n1.highQc)
    ensures Collect(n1.pending, v) == Some(p) && p.round == n1.round && EpochZero(p) && TcCollected(S.cfg, s.w, p)
    ensures p.sigs.Keys == Collected(s.nodes[l]) + {x} && p.highQc.info.round <= n1.highQc.info.round < n1.round
  {
    hide TcHeld, QcVerifies, TcVerifies, HoldsBallots, HoldsExpiry, CountsSuffice;
    var n := s.nodes[l];
    assert NodeOk(S, s, l, n);
    VerifiedIsHeld(S.cfg, s.w, v.timeout.highQc);
    PM.VerifiedIsHeld(S.cfg, s.w, v.lastTc);
    TakeKeeps(S, s.w, n, v.timeout.highQc, v.lastTc);
    n1 := TakeTc(TakeQc(n, v.timeout.highQc), v.lastTc);
    MovedKeeps(S, s.w, n, n1);
    p := Collect(n1.pending, v).value;
    PM.VerifiedCounts(S.cfg, s.w, v);
    CollectOk(S, s.w, n1, v);
  }

  /** The validator is at the start of the round, with a TC that its own highest QC is not behind of, and
      has proposed a block if it is the leader. */
  ghost predicate Opens(S: Setting, s: Net, l: Id, round: nat)
  {
    && l in s.nodes
    && var n := s.nodes[l];
    && n.round == round && n.ballots == map[] && n.lastTc.Some?
    && n.lastTc.value.highQc.info.round <= n.highQc.info.round
    && (S.leader(round) == l ==> Proposal(l, Block(round, 0, 1, n.highQc), n.lastTc) in s.sent)
  }

  /** The timeouts of all honest validators make a TC. */
  lemma {:induction false} Gather(S: Setting, g: set<Id>, s: Net, l: Id) returns (s': Net)
    requires Enough(S, g) && Well(S, s, g) && l in g
    requires forall a :: a in g ==> HasTimedOut(S, s, a, s.nodes[l].round)
    ensures Well(S, s', g) && Leads(S, s, s') && OnlyMoves(s, s', l) && s'.w == s.w
    ensures Opens(S, s', l, s.nodes[l].round + 1)
    decreases g - Collected(s.nodes[l])
  {
    hide IsTimeoutOf, Leads, Unspoilt, HoldsBallots, HoldsExpiry, HoldsPending, HoldsCerts, CountsSuffice, Opens;
    var n := s.nodes[l];
    assert NodeOk(S, s, l, n) && Unspoilt(S, s.w, n);
    if x :| x in g && x !in Collected(n) {
      var v :| IsTimeoutOf(S, s, x, n.round, v);
      var s1 := CollectOne(S, g, s, l, x, v);
      if s1.nodes[l].round == n.round {
        TimeoutsLast(S, s, s1, n.round, g);
        s' := Gather(S, g, s1, l);
        LeadsOn(S, s, s1, s');
      } else {
        s' := s1;
      }
    } else {
      assert forall x :: x in g ==> x in Collected(n);
      SubsetSize(g, Collected(n));
      NotFull(S, s.w, n);
      assert false;
    }
  }

  lemma NotFull(S: Setting, w: World, n: Node)
    requires HoldsPending(S, w, n) && Unspoilt(S, w, n) && S.cfg.threshold > 0
    ensures |Collected(n)| < S.cfg.threshold
  {
    if n.pending.Some? {
      assert |n.pending.value.sigs.Keys| == |n.pending.value.sigs|;
    }
  }

  // ----- votes -----

  /** A TC, if there is one, is for the round before the block and not ahead of its QC. */
  predicate IsSafeParent(block: Block, tc: Option<TimeoutCert>)
  {
    match tc
    case None => IsConsecutive(block.round, block.qc.info.round)
    case Some(t) => IsConsecutive(block.round, t.round) && block.qc.info.round >= t.highQc.info.round
  }

  ghost predicate MayVote(s: Net, block: Block, u: Id)
  {
    && u in s.nodes && u in s.w.stored && s.nodes[u].round <= block.round && s.w.stored[u].voted < block.round
    && (s.nodes[u].round == block.round ==> s.nodes[u].ballots == map[] && IsSafeParent(block, s.nodes[u].lastTc))
  }

  ghost predicate IsProposed(S: Setting, s: Net, l: Id, block: Block, tc: Option<TimeoutCert>)
  {
    && Proposal(l, block, tc) in s.sent && ProposalVerifies(S, s.w, l, block, tc) && block.timestamp > 0
    && IsSafeParent(block, tc)
  }

  function VoteOn(S: Setting, block: Block, u: Id): (vote: VR.VoteMsg)
  {
    VR.VoteMsg(VoteInfo(block, S.execute(block)), VoteSeal(block, S.execute(block)), u)
  }

  ghost predicate IsVoteOf(S: Setting, s: Net, block: Block, u: Id, qc: QuorumCert)
  {
    Ballot(VoteOn(S, block, u), qc) in s.sent && BallotVerifies(S, s.w, VoteOn(S, block, u), qc)
  }

  /** The validator is in the round of the block and has voted for it. */
  ghost predicate HasVoted(S: Setting, s: Net, block: Block, u: Id)
  {
    exists qc :: IsVoteOf(S, s, block, u, qc)
  }

  lemma VoteLasts(S: Setting, s: Net, s': Net, block: Block, who: set<Id>)
    requires Grows(s, s') && forall u :: u in who ==> HasVoted(S, s, block, u)
    ensures forall u :: u in who ==> HasVoted(S, s', block, u)
  {
    hide QcVerifies;
    CertificatesLast(S.cfg, s.w, s'.w);
    forall u | u in who ensures HasVoted(S, s', block, u) {
      var qc :| IsVoteOf(S, s, block, u, qc);
      assert IsVoteOf(S, s', block, u, qc);
    }
  }

  lemma ProposalLasts(S: Setting, s: Net, s': Net, l: Id, block: Block, tc: Option<TimeoutCert>)
    requires Grows(s, s') && IsProposed(S, s, l, block, tc)
    ensures IsProposed(S, s', l, block, tc)
  {
    hide QcVerifies, TcVerifies;
    CertificatesLast(S.cfg, s.w, s'.w);
  }

  /** A proposal brings a validator to its round and makes it vote. */
  lemma Voting(S: Setting, g: set<Id>, s: Net, l: Id, block: Block, tc: Option<TimeoutCert>, u: Id) returns (o: Outcome)
    requires Enough(S, g) && Well(S, s, g) && IsProposed(S, s, l, block, tc) && u in g && MayVote(s, block, u)
    ensures o == OnProposal(S, s.w, u, s.nodes[u], block, tc) && o.node.round == block.round && o.node.ballots == map[]
    ensures o.step == Some(Vote(u, block, S.execute(block), o.node.lastTc, true)) && Unspoilt(S, s.w, o.node)
    ensures o.out == {Ballot(VoteOn(S, block, u), o.node.highQc)} && QcVerifies(S.cfg, s.w, o.node.highQc)
    ensures u in S.cfg.validators
  {
    hide TcHeld, QcVerifies, TcVerifies, HoldsPending, HoldsBallots, HoldsExpiry, CountsSuffice, QcHeld;
    var n := s.nodes[u];
    assert NodeOk(S, s, u, n);
    ProposalFollows(S, s.w, l, block, tc);
    TakeKeeps(S, s.w, n, block.qc, tc);
    TakeUnspoilt(S, s.w, n, block.qc, tc);
    o := OnProposal(S, s.w, u, n, block, tc);
    Verified(S, s.w, o.node.highQc);
  }

  lemma VoteOne(S: Setting, g: set<Id>, s: Net, l: Id, block: Block, tc: Option<TimeoutCert>, u: Id) returns (s': Net)
    requires Enough(S, g) && Well(S, s, g) && IsProposed(S, s, l, block, tc) && u in g && MayVote(s, block, u)
    ensures Well(S, s', g) && Leads(S, s, s') && OnlyMoves(s, s', u) && HasVoted(S, s', block, u)
    ensures s'.nodes[u].round == block.round && s'.nodes[u].ballots == map[]
    ensures s'.w.stored == s.w.stored[u := StoreVote(s.w.stored[u], block)]
  {
    hide NetInv, TcVerifies, QcVerifies, CountsSuffice, OnProposal, VoteSeal, MayVote, IsSafeParent;
    var o := Voting(S, g, s, l, block, tc, u);
    var e := Deliver(u, Proposal(l, block, tc), false, 1);
    MayVoteParts(s, block, u);
    s' := After(S, s, e);
    CertificatesLast(S.cfg, s.w, s'.w);
    StepOn(S, g, s, e);
    GoodInfo(S, s.w, l, block, tc);
    assert IsVoteOf(S, s', block, u, o.node.highQc) by {
      assert VoteOn(S, block, u).seal == VoteSeal(block, S.execute(block));
      SealNamesInfo(S, block, u);
    }
  }

  lemma MayVoteParts(s: Net, block: Block, u: Id)
    requires MayVote(s, block, u)
    ensures u in s.nodes && u in s.w.stored && s.nodes[u].round <= block.round
  {
  }

  lemma GoodInfo(S: Setting, w: World, l: Id, block: Block, tc: Option<TimeoutCert>)
    requires ProposalVerifies(S, w, l, block, tc) && block.timestamp > 0
    ensures InfoIsValid(VoteInfo(block, S.execute(block)))
  {
  }

  lemma SealNamesInfo(S: Setting, block: Block, u: Id)
    ensures VoteOn(S, block, u).seal.infoHash == HashOf(VoteOn(S, block, u).info)
  {
  }

  lemma {:induction false} VoteAll(S: Setting, g: set<Id>, s: Net, l: Id, block: Block, tc: Option<TimeoutCert>,
                                   todo: set<Id>)
    returns (s': Net)
    requires Enough(S, g) && Well(S, s, g) && IsProposed(S, s, l, block, tc) && todo <= g
    requires forall u :: u in todo ==> MayVote(s, block, u)
    requires forall u :: u in g && u !in todo ==>
      HasVoted(S, s, block, u) && s.nodes[u].round == block.round && s.nodes[u].ballots == map[]
    ensures Well(S, s', g) && Leads(S, s, s') && s'.nodes.Keys == s.nodes.Keys
    ensures forall u :: u in g ==>
      HasVoted(S, s', block, u) && s'.nodes[u].round == block.round && s'.nodes[u].ballots == map[]
    decreases todo
  {
    hide NetInv, Unspoilt, HasVoted, Leads, Enough, IsProposed, IsSafeParent;
    if u :| u in todo {
      var s1 := VoteOne(S, g, s, l, block, tc, u);
      ProposalLasts(S, s, s1, l, block, tc);
      VoteLasts(S, s, s1, block, g - todo);
      s' := VoteAll(S, g, s1, l, block, tc, todo - {u});
      LeadsOn(S, s, s1, s');
    } else {
      s' := s;
      LeadsNowhere(S, s);
    }
  }

  // ----- a quorum certificate -----

  /** All votes collected are for the block. */
  predicate OnlyFor(S: Setting, n: Node, block: Block)
  {
    forall x :: x in n.ballots ==> n.ballots[x].seal == VoteOn(S, block, x).seal
  }

  /** The votes of all honest validators certify the block, and the next leader proposes on top of it. */
  ghost predicate Certifies(S: Setting, s: Net, l: Id, block: Block)
  {
    && l in s.nodes
    && var n := s.nodes[l];
    && n.round == block.round + 1 && n.lastTc.None? && n.ballots == map[]
    && n.highQc.info == VoteInfo(block, S.execute(block)) && n.highQc.seal == VoteSeal(block, S.execute(block))
    && Proposal(l, Block(n.round, 0, 1, n.highQc), None) in s.sent
  }

  lemma DeliveredBallot(S: Setting, s: Net, l: Id, vote: VR.VoteMsg, qc: QuorumCert)
    requires l in s.nodes && Ballot(vote, qc) in s.sent && BallotVerifies(S, s.w, vote, qc)
    ensures var o := OnBallot(S, l, s.nodes[l], vote, true, 1);
      After(S, s, Deliver(l, Ballot(vote, qc), true, 1)) == Net(s.w, s.nodes[l := o.node], s.sent + o.out)
  {
    hide BallotVerifies;
  }

  /** What one more vote for the block does. */
  lemma Tallying(S: Setting, l: Id, n: Node, block: Block, x: Id) returns (o: Outcome)
    requires n.round == block.round && S.leader(block.round + 1) == l && n.highQc.info.round < n.round
    requires OnlyFor(S, n, block) && x !in n.ballots
    ensures o == OnBallot(S, l, n, VoteOn(S, block, x), true, 1)
    ensures |n.ballots| + 1 < S.cfg.threshold ==>
      o.node == n.(ballots := n.ballots[x := VoteOn(S, block, x)], roundQc := None)
    ensures |n.ballots| + 1 >= S.cfg.threshold ==>
      && o.node.round == block.round + 1 && o.node.lastTc.None? && o.node.pending.None? && o.node.ballots == map[]
      && o.node.highQc.info == VoteOn(S, block, x).info && o.node.highQc.seal == VoteOn(S, block, x).seal
      && o.out == {Proposal(l, Block(block.round + 1, 0, 1, o.node.highQc), None)}
  {
    hide VoteSeal;
    o := OnBallot(S, l, n, VoteOn(S, block, x), true, 1);
    var ballots := n.ballots[x := VoteOn(S, block, x)];
    SameSeal(ballots, VoteOn(S, block, x).seal);
    assert ballots.Keys == n.ballots.Keys + {x} && |ballots.Keys| == |n.ballots.Keys| + 1;
    assert |n.ballots.Keys| == |n.ballots|;
  }

  lemma TallyOne(S: Setting, g: set<Id>, s: Net, l: Id, block: Block, x: Id) returns (s': Net)
    requires Enough(S, g) && Well(S, s, g) && l in g && s.nodes[l].round == block.round
    requires S.leader(block.round + 1) == l
    requires OnlyFor(S, s.nodes[l], block) && HasVoted(S, s, block, x) && x !in s.nodes[l].ballots
    ensures Well(S, s', g) && Leads(S, s, s') && OnlyMoves(s, s', l) && s'.w == s.w
    ensures |s.nodes[l].ballots| + 1 >= S.cfg.threshold ==> Certifies(S, s', l, block)
    ensures |s.nodes[l].ballots| + 1 < S.cfg.threshold ==>
      s'.nodes[l] == s.nodes[l].(ballots := s.nodes[l].ballots[x := VoteOn(S, block, x)], roundQc := None)
  {
    hide NetInv, TcVerifies, CountsSuffice, VoteSeal, BallotVerifies, HasVoted, After, OnBallot, OnlyFor;
    var qc := Voter(S, s, block, x);
    Behind(S, s, l);
    var o := Tallying(S, l, s.nodes[l], block, x);
    DeliveredBallot(S, s, l, VoteOn(S, block, x), qc);
    s' := After(S, s, Deliver(l, Ballot(VoteOn(S, block, x), qc), true, 1));
    assert Unspoilt(S, s.w, s.nodes[l]);
    StepOn(S, g, s, Deliver(l, Ballot(VoteOn(S, block, x), qc), true, 1));
  }

  lemma SameSeal(ballots: map<Id, VR.VoteMsg>, seal: Seal)
    requires forall y :: y in ballots ==> ballots[y].seal == seal
    ensures Voters(ballots, seal) == ballots.Keys
  {
    forall y | y in ballots ensures y in Voters(ballots, seal) {
    }
  }

  lemma Voter(S: Setting, s: Net, block: Block, x: Id) returns (qc: QuorumCert)
    requires HasVoted(S, s, block, x)
    ensures IsVoteOf(S, s, block, x, qc)
  {
    qc :| IsVoteOf(S, s, block, x, qc);
  }

  lemma Behind(S: Setting, s: Net, l: Id)
    requires NetInv(S, s) && l in s.nodes
    ensures s.nodes[l].highQc.info.round < s.nodes[l].round
  {
  }

  lemma {:induction false} Tally(S: Setting, g: set<Id>, s: Net, l: Id, block: Block) returns (s': Net)
    requires Enough(S, g) && Well(S, s, g) && l in g && s.nodes[l].round == block.round
    requires S.leader(block.round + 1) == l
    requires OnlyFor(S, s.nodes[l], block) && |s.nodes[l].ballots| < S.cfg.threshold
    requires forall u :: u in g ==> HasVoted(S, s, block, u)
    ensures Well(S, s', g) && Leads(S, s, s') && OnlyMoves(s, s', l) && s'.w == s.w && Certifies(S, s', l, block)
    decreases g - s.nodes[l].ballots.Keys
  {
    hide Leads, HasVoted, Certifies, Unspoilt, NodeOk, CountsSuffice;
    var n := s.nodes[l];
    if x :| x in g && x !in n.ballots {
      var s1 := TallyOne(S, g, s, l, block, x);
      if |n.ballots| + 1 >= S.cfg.threshold {
        s' := s1;
      } else {
        VoteLasts(S, s, s1, block, g);
        assert s1.nodes[l].ballots.Keys == n.ballots.Keys + {x};
        assert |s1.nodes[l].ballots.Keys| == |n.ballots.Keys| + 1;
        s' := Tally(S, g, s1, l, block);
        LeadsOn(S, s, s1, s');
      }
    } else {
      assert forall x :: x in g ==> x in n.ballots.Keys;
      assert |n.ballots.Keys| == |n.ballots|;
      SubsetSize(g, n.ballots.Keys);
      assert false;
    }
  }

  // ----- going on -----

  /** Everybody leaves the last round by a timeout, and the given validator opens the next one. */
  lemma NextRound(S: Setting, g: set<Id>, s: Net, x: Id, l: Id) returns (s': Net)
    requires Enough(S, g) && Well(S, s, g) && x in g && l in g
    requires forall a :: a in g ==> s.nodes[a].round <= s.nodes[x].round
    ensures Well(S, s', g) && Leads(S, s, s') && s'.nodes.Keys == s.nodes.Keys
    ensures Opens(S, s', l, s.nodes[x].round + 1)
    ensures forall a :: a in g && a != l ==> s'.nodes[a].round == s.nodes[x].round
    ensures forall a :: a in g ==> a in s'.w.stored && s'.w.stored[a].voted <= s.nodes[x].round
  {
    hide HasTimedOut, Leads, Enough, Unspoilt, Opens, HoldsCerts, HoldsPending, HoldsBallots, HoldsExpiry;
    var s1 := Regroup(S, g, s, x);
    s' := Gather(S, g, s1, l);
    LeadsOn(S, s, s1, s');
    forall a | a in g ensures a in s'.w.stored && s'.w.stored[a].voted <= s.nodes[x].round {
      assert NodeOk(S, s1, a, s1.nodes[a]);
    }
  }

  /** Round by round, up to one with an honest leader, who then proposes a block. */
  lemma {:induction false} Climb(S: Setting, g: set<Id>, s: Net, x: Id, r: nat) returns (s': Net)
    requires Enough(S, g) && Well(S, s, g) && x in g && s.nodes[x].round < r && S.leader(r) in g
    requires forall a :: a in g ==> s.nodes[a].round <= s.nodes[x].round
    ensures Well(S, s', g) && Leads(S, s, s') && s'.nodes.Keys == s.nodes.Keys && Opens(S, s', S.leader(r), r)
    ensures forall a :: a in g ==> a in s'.w.stored && s'.w.stored[a].voted < r
    ensures forall a :: a in g && a != S.leader(r) ==> s'.nodes[a].round < r
    decreases r - s.nodes[x].round
  {
    hide NetInv, Unspoilt, Leads, Enough;
    if s.nodes[x].round + 1 == r {
      s' := NextRound(S, g, s, x, S.leader(r));
    } else {
      var s1 := NextRound(S, g, s, x, x);
      s' := Climb(S, g, s1, x, r);
      LeadsOn(S, s, s1, s');
    }
  }

  /** The opening proposal is one that everybody votes for. */
  lemma OpeningVotable(S: Setting, g: set<Id>, s: Net, r: nat)
    requires Enough(S, g) && Well(S, s, g) && S.leader(r) in g && Opens(S, s, S.leader(r), r)
    requires forall a :: a in g ==> a in s.w.stored && s.w.stored[a].voted < r
    requires forall a :: a in g && a != S.leader(r) ==> s.nodes[a].round < r
    ensures var n := s.nodes[S.leader(r)];
      IsProposed(S, s, S.leader(r), Block(r, 0, 1, n.highQc), n.lastTc) &&
      forall u :: u in g ==> MayVote(s, Block(r, 0, 1, n.highQc), u)
  {
    hide TcHeld, QcVerifies, TcVerifies, HoldsPending, HoldsBallots, HoldsExpiry, CountsSuffice;
    var l := S.leader(r);
    var n := s.nodes[l];
    assert NodeOk(S, s, l, n) && Unspoilt(S, s.w, n);
    Verified(S, s.w, n.highQc);
  }

  /** So is the one after a certified block. */
  lemma NextVotable(S: Setting, g: set<Id>, s: Net, block: Block)
    requires Enough(S, g) && Well(S, s, g) && S.leader(block.round + 1) in g
    requires Certifies(S, s, S.leader(block.round + 1), block)
    requires forall a :: a in g ==> a in s.w.stored && s.w.stored[a].voted <= block.round
    requires forall a :: a in g && a != S.leader(block.round + 1) ==> s.nodes[a].round == block.round
    ensures var n := s.nodes[S.leader(block.round + 1)];
      IsProposed(S, s, S.leader(block.round + 1), Block(block.round + 1, 0, 1, n.highQc), None) &&
      forall u :: u in g ==> MayVote(s, Block(block.round + 1, 0, 1, n.highQc), u)
  {
    hide TcHeld, QcVerifies, TcVerifies, HoldsPending, HoldsBallots, HoldsExpiry, CountsSuffice;
    var l := S.leader(block.round + 1);
    var n := s.nodes[l];
    assert NodeOk(S, s, l, n) && Unspoilt(S, s.w, n);
    Verified(S, s.w, n.highQc);
  }

  /** Everybody votes, and the next leader certifies the block. */
  lemma CertifyBlock(S: Setting, g: set<Id>, s: Net, block: Block, tc: Option<TimeoutCert>) returns (s': Net)
    requires Enough(S, g) && Well(S, s, g) && IsProposed(S, s, S.leader(block.round), block, tc)
    requires S.leader(block.round + 1) in g && forall u :: u in g ==> MayVote(s, block, u)
    ensures Well(S, s', g) && Leads(S, s, s') && s'.nodes.Keys == s.nodes.Keys
    ensures Certifies(S, s', S.leader(block.round + 1), block)
    ensures forall a :: a in g ==> a in s'.w.stored && s'.w.stored[a].voted <= block.round
    ensures forall a :: a in g && a != S.leader(block.round + 1) ==> s'.nodes[a].round == block.round
  {
    hide HasVoted, Leads, Unspoilt, IsProposed, MayVote, Certifies, HoldsCerts, HoldsPending, HoldsBallots, HoldsExpiry;
    var l := S.leader(block.round + 1);
    var s1 := VoteAll(S, g, s, S.leader(block.round), block, tc, g);
    assert s1.nodes[l].ballots == map[];
    s' := Tally(S, g, s1, l, block);
    LeadsOn(S, s, s1, s');
    forall a | a in g ensures a in s'.w.stored && s'.w.stored[a].voted <= block.round {
      assert NodeOk(S, s1, a, s1.nodes[a]);
    }
  }

  lemma {:induction false} Latest(s: Net, who: set<Id>) returns (x: Id)
    requires who <= s.nodes.Keys && exists a :: a in who
    ensures x in who && forall a :: a in who ==> s.nodes[a].round <= s.nodes[x].round
    decreases who
  {
    var y :| y in who;
    x := y;
    assert forall b :: b in who ==> b == y || b in who - {y};
    if exists z :: z in who - {y} {
      var b := Latest(s, who - {y});
      x := if s.nodes[b].round > s.nodes[y].round then b else y;
    }
  }

  /** Three leaders in a row are in the set. */
  predicate LeadersIn(S: Setting, g: set<Id>, r: nat)
  {
    S.leader(r) in g && S.leader(r + 1) in g && S.leader(r + 2) in g
  }

  ghost predicate LeadersAfter(S: Setting, g: set<Id>, m: nat) { exists r :: r > m && LeadersIn(S, g, r) }

  /** That happens again and again. */
  ghost predicate FairLeaders(S: Setting, g: set<Id>) { forall m: nat :: LeadersAfter(S, g, m) }

  /** From an opened round on, two certified blocks in a row commit the first. */
  lemma CommitRound(S: Setting, g: set<Id>, s: Net, r: nat) returns (s': Net)
    requires Enough(S, g) && Well(S, s, g) && LeadersIn(S, g, r) && Opens(S, s, S.leader(r), r)
    requires forall a :: a in g ==> a in s.w.stored && s.w.stored[a].voted < r
    requires forall a :: a in g && a != S.leader(r) ==> s.nodes[a].round < r
    ensures Leads(S, s, s') && S.leader(r + 2) in s'.nodes && HasCommitted(s'.nodes[S.leader(r + 2)], r)
  {
    hide Leads, Enough, Unspoilt, NodeOk, IsProposed, MayVote;
    LaterThanGenesis(S, s, r);
    var n := s.nodes[S.leader(r)];
    OpeningVotable(S, g, s, r);
    var s1 := CertifyBlock(S, g, s, Block(r, 0, 1, n.highQc), n.lastTc);
    NextVotable(S, g, s1, Block(r, 0, 1, n.highQc));
    var n1 := s1.nodes[S.leader(r + 1)];
    s' := CertifyBlock(S, g, s1, Block(r + 1, 0, 1, n1.highQc), None);
    LeadsOn(S, s, s1, s');
  }

  lemma LaterThanGenesis(S: Setting, s: Net, r: nat)
    requires NetInv(S, s) && Opens(S, s, S.leader(r), r)
    ensures r > GENESIS_ROUND
  {
    var n := s.nodes[S.leader(r)];
    assert NodeOk(S, s, S.leader(r), n);
    Anchored(S, s.w, n);
  }

  /** Whatever has happened: if as many honest validators as the threshold are not spoilt, enough votes by
      number are enough by stake, and these validators come to lead three rounds in a row again and again,
      then they can go on by themselves until one of them commits a new round. */
  lemma NeverStuck(S: Setting, g: set<Id>, s: Net)
    requires Enough(S, g) && FairLeaders(S, g) && Well(S, s, g)
    ensures CanCommit(S, s)
  {
    hide Leads, Enough, Unspoilt, HoldsCerts, HoldsPending, HoldsBallots, HoldsExpiry, Opens;
    SomeoneGood(S, g);
    var x := Latest(s, g);
    var y := Latest(s, s.nodes.Keys);
    assert LeadersAfter(S, g, s.nodes[y].round);
    var r :| r > s.nodes[y].round && LeadersIn(S, g, r);
    var s1 := Climb(S, g, s, x, r);
    var s2 := CommitRound(S, g, s1, r);
    LeadsOn(S, s, s1, s2);
    forall b | b in s.nodes && b in s.w.stored ensures r > s.w.stored[b].voted {
      assert NodeOk(S, s, b, s.nodes[b]);
    }
    assert CommitsNew(S, s, s2, S.leader(r + 2), r);
  }

  lemma NoOne(g: set<Id>)
    requires forall a :: a !in g
    ensures |g| == 0
  {
    assert forall a :: a in g ==> a in {};
    SubsetSize(g, {});
  }

  lemma SomeoneGood(S: Setting, g: set<Id>)
    requires Enough(S, g)
    ensures exists a :: a in g
  {
    if a :| a in g {
    } else {
      NoOne(g);
    }
  }
}
