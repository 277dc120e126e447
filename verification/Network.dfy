/** The validators and the messages between them: what the consensus manager does with a proposal, a vote
    or a timeout that it receives, and when its round matures or runs out.  A message counts only if the
    certificates that it carries verify; certificates that a validator assembles itself are not verified.

    The network may delay, lose, repeat and reorder messages.  Byzantine validators send what they like
    and may attach other certificates to what honest ones signed, because those are not signed.  Every
    validator has the blocks it needs. */
module Network {
  import opened Units
  import opened TrustBase
  import opened Consensus
  import VR = VoteRegister
  import PM = Pacemaker

  /** The trust base, the leader of every round, and the state root that executing a block leads to. */
  datatype Setting = Setting(cfg: Config, leader: nat -> Id, execute: Block -> int)

  datatype Msg =
    | Proposal(author: Id, block: Block, lastTc: Option<TimeoutCert>)
    | Ballot(vote: VR.VoteMsg, highQc: QuorumCert)
    | Expiry(timeout: PM.TimeoutMsg)

  /** A validator: its round, the TC that led there, the highest QC it knows, the timeouts and votes it has
      collected in the round, the QC it made of those votes, and its own timeout vote of the round. */
  datatype Node = Node(
    round: nat,
    lastTc: Option<TimeoutCert>,
    highQc: QuorumCert,
    pending: Option<TimeoutCert>,
    ballots: map<Id, VR.VoteMsg>,
    roundQc: Option<QuorumCert>,
    expiry: Option<PM.TimeoutMsg>)

  /** What was signed and persisted, the honest validators, and all messages sent so far. */
  datatype Net = Net(w: World, nodes: map<Id, Node>, sent: set<Msg>)

  // ----- certificates -----

  /** Everything that belongs to the old round is dropped. */
  function Enter(n: Node, round: nat, tc: Option<TimeoutCert>): (n': Node)
  {
    Node(round, tc, n.highQc, None, map[], None, None)
  }

  function TakeQc(n: Node, qc: QuorumCert): (n': Node)
  {
    var known := if qc.info.round > n.highQc.info.round then n.(highQc := qc) else n;
    if qc.info.round < n.round then known else Enter(known, qc.info.round + 1, None)
  }

  function TakeTc(n: Node, tc: Option<TimeoutCert>): (n': Node)
  {
    if tc.None? || tc.value.round < n.round then n else Enter(n, tc.value.round + 1, tc)
  }

  /** The local block of the certified round has the certified root. */
  predicate RootKnown(qc: QuorumCert)
  {
    qc.info.round == GENESIS_ROUND ==> qc.info.root == GENESIS_ROOT
  }

  // ----- proposals -----

  datatype Outcome = Outcome(node: Node, step: Option<Step>, out: set<Msg>)

  /** The leader's proposal for the round it is in, on the highest QC it knows. */
  function Propose(S: Setting, a: Id, n: Node, time: nat): (out: set<Msg>)
  {
    if S.leader(n.round) == a && n.round == Max(n.highQc.info.round, PM.TcRound(n.lastTc)) + 1 then
      {Proposal(a, Block(n.round, 0, time, n.highQc), n.lastTc)}
    else {}
  }

  ghost predicate ProposalVerifies(S: Setting, w: World, author: Id, block: Block, tc: Option<TimeoutCert>)
  {
    && author in S.cfg.validators && author == S.leader(block.round)
    && QcVerifies(S.cfg, w, block.qc) && RootKnown(block.qc) && block.qc.info.round < block.round
    && block.round == Max(block.qc.info.round, PM.TcRound(tc)) + 1
    && (tc.Some? ==> TcVerifies(S.cfg, w, tc.value))
  }

  /** The certificates are processed, then the validator votes if that is safe with the TC it holds. */
  function OnProposal(S: Setting, w: World, a: Id, n: Node, block: Block, tc: Option<TimeoutCert>): (o: Outcome)
  {
    var n' := TakeTc(TakeQc(n, block.qc), tc);
    if a in w.stored && IsSafeToVote(w.stored[a], block, n'.lastTc) then
      var root := S.execute(block);
      var vote := VR.VoteMsg(VoteInfo(block, root), VoteSeal(block, root), a);
      Outcome(n', Some(Vote(a, block, root, n'.lastTc, true)), {Ballot(vote, n'.highQc)})
    else Outcome(n', None, {})
  }

  // ----- votes -----

  /** Who voted for the seal. */
  function Voters(ballots: map<Id, VR.VoteMsg>, seal: Seal): (s: set<Id>)
  {
    set x | x in ballots && ballots[x].seal == seal
  }

  function Count(S: Setting, ballots: map<Id, VR.VoteMsg>, vote: VR.VoteMsg): (qc: Option<QuorumCert>)
  {
    var voters := Voters(ballots, vote.seal);
    if |voters| >= S.cfg.threshold then Some(QuorumCert(vote.info, vote.seal, voters)) else None
  }

  ghost predicate BallotVerifies(S: Setting, w: World, vote: VR.VoteMsg, highQc: QuorumCert)
  {
    VR.VoteVerifies(S.cfg, w, vote) && QcVerifies(S.cfg, w, highQc)
  }

  /** A vote counts for the leader of the next round; a QC leads to a proposal once the round is mature. */
  function OnBallot(S: Setting, a: Id, n: Node, vote: VR.VoteMsg, mature: bool, time: nat): (o: Outcome)
  {
    if vote.info.round != n.round || S.leader(n.round + 1) != a || vote.author in n.ballots then Outcome(n, None, {})
    else
      var ballots := n.ballots[vote.author := vote];
      var qc := Count(S, ballots, vote);
      var counted := n.(ballots := ballots, roundQc := qc);
      if qc.Some? && mature then
        var n' := TakeQc(counted, qc.value);
        Outcome(n', None, Propose(S, a, n', time))
      else Outcome(counted, None, {})
  }

  // ----- timeouts -----

  /** The timeouts collected so far and one more; refused for another round or a known author. */
  function Collect(p: Option<TimeoutCert>, vote: PM.TimeoutMsg): (p': Option<TimeoutCert>)
  {
    var t := vote.timeout;
    var sig := TimeoutVote(t.highQc.info.round, t.epoch);
    match p
    case None => Some(TimeoutCert(t.round, t.epoch, t.highQc, map[vote.author := sig]))
    case Some(tc) =>
      if tc.round != t.round || vote.author in tc.sigs then None
      else if t.highQc.info.round > tc.highQc.info.round then
        Some(TimeoutCert(t.round, t.epoch, t.highQc, tc.sigs[vote.author := sig]))
      else Some(tc.(sigs := tc.sigs[vote.author := sig]))
  }

  /** The certificates are processed, the vote is collected, and a TC that it completes is processed. */
  function OnExpiry(S: Setting, a: Id, n: Node, vote: PM.TimeoutMsg, time: nat): (o: Outcome)
  {
    var n1 := TakeTc(TakeQc(n, vote.timeout.highQc), vote.lastTc);
    var p := Collect(n1.pending, vote);
    if p.None? then Outcome(n1, None, {})
    else
      var n2 := n1.(pending := p);
      if |p.value.sigs| < S.cfg.threshold then Outcome(n2, None, {})
      else
        var n' := TakeTc(n2, p);
        Outcome(n', None, Propose(S, a, n', time))
  }

  /** The round runs out: a timeout vote is made once, on the highest QC, with the TC that led here. */
  function OnLocalTimeout(w: World, a: Id, n: Node): (o: Outcome)
  {
    var vote := PM.TimeoutMsg(VR.Timeout(n.round, 0, n.highQc), a, n.lastTc);
    if n.expiry.None? && PM.IsValidTimeout(vote) && a in w.stored &&
       IsSafeToTimeout(w.stored[a], n.round, n.highQc.info.round, n.lastTc)
    then Outcome(n.(expiry := Some(vote)), Some(TimeOut(a, n.round, 0, n.highQc, n.lastTc, true)), {Expiry(vote)})
    else Outcome(n, None, {})
  }

  // ----- events -----

  datatype Event =
    | Deliver(to: Id, msg: Msg, mature: bool, time: nat)
    | Mature(at: Id, time: nat)
    | RunOut(at: Id)
    | Inject(msg: Msg)

  ghost function OnMessage(S: Setting, w: World, a: Id, n: Node, msg: Msg, mature: bool, time: nat): (o: Outcome)
  {
    match msg
    case Proposal(author, block, tc) =>
      if n.round <= block.round && ProposalVerifies(S, w, author, block, tc) then OnProposal(S, w, a, n, block, tc)
      else Outcome(n, None, {})
    case Ballot(vote, highQc) =>
      if BallotVerifies(S, w, vote, highQc) then OnBallot(S, a, n, vote, mature, time) else Outcome(n, None, {})
    case Expiry(vote) =>
      if n.round <= vote.timeout.round && PM.MsgVerifies(S.cfg, w, vote) && RootKnown(vote.timeout.highQc)
      then OnExpiry(S, a, n, vote, time)
      else Outcome(n, None, {})
  }

  /** The leader of the next round uses the QC it has; in the first round its leader just proposes. */
  function OnMature(S: Setting, a: Id, n: Node, time: nat): (o: Outcome)
  {
    if n.roundQc.Some? && S.leader(n.round + 1) == a then
      var n' := TakeQc(n, n.roundQc.value);
      Outcome(n', None, Propose(S, a, n', time))
    else if n.round == GENESIS_ROUND + 1 then Outcome(n, None, Propose(S, a, n, time))
    else Outcome(n, None, {})
  }

  predicate IsHonest(e: Event) { !e.Inject? }

  function Actor(e: Event): (a: Id)
    requires IsHonest(e)
  {
    match e
    case Deliver(a, _, _, _) => a
    case Mature(a, _) => a
    case RunOut(a) => a
  }

  /** A Byzantine validator may send whatever it can sign itself, and may change the certificates that are
      attached to what somebody else signed. */
  predicate CanInject(S: Setting, s: Net, msg: Msg)
  {
    && !AllHonest(S.cfg)
    && match msg
       case Proposal(author, block, _) =>
         author in S.cfg.byzantine || exists m :: m in s.sent && m.Proposal? && m.author == author && m.block == block
       case Ballot(vote, _) => vote.author in S.cfg.byzantine || VoteSig(vote.author, vote.seal) in s.w.votes
       case Expiry(vote) => vote.author in S.cfg.byzantine || Signed(vote) in s.w.timeouts
  }

  function Signed(vote: PM.TimeoutMsg): (sig: TimeoutSig)
  {
    TimeoutSig(vote.author, vote.timeout.round, vote.timeout.epoch, vote.timeout.highQc.info.round)
  }

  ghost predicate Possible(S: Setting, s: Net, e: Event)
  {
    match e
    case Deliver(a, msg, _, time) => a in s.nodes && msg in s.sent && time > 0
    case Mature(a, time) => a in s.nodes && time > 0
    case RunOut(a) => a in s.nodes
    case Inject(msg) => CanInject(S, s, msg)
  }

  ghost function React(S: Setting, s: Net, e: Event): (o: Outcome)
    requires IsHonest(e) && Actor(e) in s.nodes
  {
    var n := s.nodes[Actor(e)];
    match e
    case Deliver(a, msg, mature, time) => OnMessage(S, s.w, a, n, msg, mature, time)
    case Mature(a, time) => OnMature(S, a, n, time)
    case RunOut(a) => OnLocalTimeout(s.w, a, n)
  }

  function Forged(w: World, msg: Msg): (w': World)
  {
    match msg
    case Proposal(_, _, _) => w
    case Ballot(vote, _) => Do(w, ForgeVote(VoteSig(vote.author, vote.seal)))
    case Expiry(vote) => Do(w, ForgeTimeout(Signed(vote)))
  }

  ghost function After(S: Setting, s: Net, e: Event): (s': Net)
    requires Possible(S, s, e)
  {
    if IsHonest(e) then
      var o := React(S, s, e);
      Net(if o.step.Some? then Do(s.w, o.step.value) else s.w, s.nodes[Actor(e) := o.node], s.sent + o.out)
    else Net(Forged(s.w, e.msg), s.nodes, s.sent + {e.msg})
  }

  ghost predicate Start(S: Setting, s: Net)
  {
    && Initial(S.cfg, s.w) && s.sent == {} && s.nodes.Keys == Honests(S.cfg)
    && forall a :: a in s.nodes ==> s.nodes[a] == Node(GENESIS_ROUND + 1, None, GENESIS_QC, None, map[], None, None)
  }

  ghost predicate Moves(S: Setting, s: Net, s': Net)
  {
    exists e :: Possible(S, s, e) && s' == After(S, s, e)
  }

  ghost predicate NetRun(S: Setting, run: seq<Net>)
  {
    |run| > 0 && Start(S, run[0]) && forall i :: 0 <= i < |run| - 1 ==> Moves(S, run[i], run[i + 1])
  }

  // ----- invariant -----

  ghost predicate HoldsPending(S: Setting, w: World, n: Node)
  {
    n.pending.Some? ==>
      var p := n.pending.value;
      TcCollected(S.cfg, w, p) && p.highQc.info.round <= n.highQc.info.round &&
      (p.round >= n.round ==> |p.sigs| < S.cfg.threshold)
  }

  ghost predicate HoldsBallots(S: Setting, w: World, n: Node)
  {
    && (forall x :: x in n.ballots ==>
          n.ballots[x].author == x && VR.VoteVerifies(S.cfg, w, n.ballots[x]) && n.ballots[x].info.round == n.round)
    && (n.roundQc.Some? ==> QcHeld(S.cfg, w, n.roundQc.value) && n.roundQc.value.info.round == n.round)
  }

  /** The certificates of a validator are verified or assembled, and lead to its round. */
  ghost predicate HoldsCerts(S: Setting, w: World, n: Node)
  {
    && QcHeld(S.cfg, w, n.highQc) && RootKnown(n.highQc) && n.highQc.info.round < n.round
    && (n.lastTc.Some? ==> TcHeld(S.cfg, w, n.lastTc.value) && n.lastTc.value.round + 1 == n.round)
    && (n.lastTc.None? ==> n.highQc.info.round + 1 == n.round)
  }

  /** What it has persisted is not ahead of it. */
  predicate IsAhead(st: Storage, n: Node) { st.voted <= n.round && st.qc <= n.highQc.info.round }

  ghost predicate HoldsExpiry(S: Setting, s: Net, a: Id, n: Node)
  {
    n.expiry.Some? ==>
      var v := n.expiry.value;
      && Expiry(v) in s.sent && v.author == a && v.timeout.round == n.round && v.timeout.epoch == 0
      && v.lastTc == n.lastTc && Signed(v) in s.w.timeouts && PM.IsValidTimeout(v)
      && QcHeld(S.cfg, s.w, v.timeout.highQc) && RootKnown(v.timeout.highQc)
  }

  ghost predicate NodeOk(S: Setting, s: Net, a: Id, n: Node)
  {
    && a in s.w.stored && IsAhead(s.w.stored[a], n) && HoldsCerts(S, s.w, n) && HoldsPending(S, s.w, n)
    && HoldsBallots(S, s.w, n) && HoldsExpiry(S, s, a, n)
  }

  ghost predicate NetInv(S: Setting, s: Net)
  {
    && s.nodes.Keys == Honests(S.cfg) && s.w.stored.Keys == S.cfg.validators
    && forall a :: a in s.nodes ==> NodeOk(S, s, a, s.nodes[a])
  }

  // ----- the invariant is kept -----

  ghost predicate Grows(s: Net, s': Net)
  {
    s.w.votes <= s'.w.votes && s.w.timeouts <= s'.w.timeouts && s.sent <= s'.sent
  }

  lemma NodeLasts(S: Setting, s: Net, s': Net, a: Id, n: Node)
    requires Grows(s, s') && NodeOk(S, s, a, n) && a in s'.w.stored && s'.w.stored[a] == s.w.stored[a]
    ensures NodeOk(S, s', a, n)
  {
    hide QcHeld, TcHeld, TcSigned, TcCollected;
    CertificatesLast(S.cfg, s.w, s'.w);
    CollectedLasts(S.cfg, s.w, s'.w);
  }

  lemma CollectedLasts(cfg: Config, w: World, w': World)
    requires w.votes <= w'.votes && w.timeouts <= w'.timeouts
    ensures forall tc :: TcCollected(cfg, w, tc) ==> TcCollected(cfg, w', tc)
  {
    hide Stake, Follows;
    CertificatesLast(cfg, w, w');
    assert forall round :: Certified(cfg, w, round) ==> Certified(cfg, w', round);
  }

  /** The validator is in the same round with the same TC, or in a later one with nothing collected. */
  predicate Moved(n: Node, n': Node)
  {
    && n.round <= n'.round && n.highQc.info.round <= n'.highQc.info.round
    && if n.round == n'.round then n' == n.(highQc := n'.highQc)
       else n'.pending.None? && n'.ballots == map[] && n'.roundQc.None? && n'.expiry.None?
  }

  lemma TakeKeeps(S: Setting, w: World, n: Node, qc: QuorumCert, tc: Option<TimeoutCert>)
    requires HoldsCerts(S, w, n) && QcHeld(S.cfg, w, qc) && RootKnown(qc)
    requires tc.Some? ==> TcHeld(S.cfg, w, tc.value)
    ensures HoldsCerts(S, w, TakeTc(TakeQc(n, qc), tc)) && Moved(n, TakeTc(TakeQc(n, qc), tc))
    ensures TakeTc(TakeQc(n, qc), tc).highQc.info.round >= qc.info.round
    ensures TakeTc(TakeQc(n, qc), tc).round == PM.NextRound(PM.NextRound(n.round, qc.info.round), PM.TcRound(tc))
  {
    hide QcHeld, TcHeld;
  }

  lemma MovedKeeps(S: Setting, w: World, n: Node, n': Node)
    requires Moved(n, n') && HoldsPending(S, w, n) && HoldsBallots(S, w, n)
    ensures HoldsPending(S, w, n') && HoldsBallots(S, w, n')
  {
  }

  lemma ProposalFollows(S: Setting, w: World, author: Id, block: Block, tc: Option<TimeoutCert>)
    requires ProposalVerifies(S, w, author, block, tc)
    ensures Follows(S.cfg, w, block.round, block.qc.info.round) && QcHeld(S.cfg, w, block.qc)
    ensures tc.Some? ==> TcHeld(S.cfg, w, tc.value)
  {
    hide QcVerifies, TcVerifies;
  }

  /** What a handler does keeps the invariant of its validator, and what it signs is a step of the protocol. */
  ghost predicate Fine(S: Setting, s: Net, a: Id, o: Outcome)
  {
    && (o.step.Some? ==>
          && Enabled(S.cfg, s.w, o.step.value)
          && (o.step.value.Vote? || o.step.value.TimeOut?) && o.step.value.author == a)
    && (var w' := if o.step.Some? then Do(s.w, o.step.value) else s.w;
        NodeOk(S, Net(w', s.nodes, s.sent + o.out), a, o.node))
  }

  lemma TakeOk(S: Setting, s: Net, a: Id, n: Node, qc: QuorumCert, tc: Option<TimeoutCert>)
    requires NodeOk(S, s, a, n) && QcHeld(S.cfg, s.w, qc) && RootKnown(qc)
    requires tc.Some? ==> TcHeld(S.cfg, s.w, tc.value)
    ensures NodeOk(S, s, a, TakeTc(TakeQc(n, qc), tc)) && Moved(n, TakeTc(TakeQc(n, qc), tc))
  {
    hide QcHeld, TcHeld, HoldsCerts, HoldsPending, HoldsBallots;
    TakeKeeps(S, s.w, n, qc, tc);
    MovedKeeps(S, s.w, n, TakeTc(TakeQc(n, qc), tc));
  }

  lemma VoteOk(S: Setting, s: Net, a: Id, n: Node, block: Block, root: int, s': Net)
    requires NodeOk(S, s, a, n) && n.round == block.round && n.highQc.info.round >= block.qc.info.round
    requires Grows(s, s') && s'.w.stored == s.w.stored[a := StoreVote(s.w.stored[a], block)]
    ensures NodeOk(S, s', a, n)
  {
    hide QcHeld, TcHeld, TcCollected;
    CertificatesLast(S.cfg, s.w, s'.w);
    CollectedLasts(S.cfg, s.w, s'.w);
  }

  lemma ProposalFine(S: Setting, s: Net, a: Id, author: Id, block: Block, tc: Option<TimeoutCert>)
    requires NetInv(S, s) && a in s.nodes && s.nodes[a].round <= block.round
    requires ProposalVerifies(S, s.w, author, block, tc)
    ensures Fine(S, s, a, OnProposal(S, s.w, a, s.nodes[a], block, tc))
  {
    hide QcHeld, TcHeld, TcVerifies, QcVerifies, Follows, HoldsPending, HoldsBallots, HoldsExpiry;
    var n := s.nodes[a];
    ProposalFollows(S, s.w, author, block, tc);
    TakeKeeps(S, s.w, n, block.qc, tc);
    TakeOk(S, s, a, n, block.qc, tc);
    var o := OnProposal(S, s.w, a, n, block, tc);
    if o.step.Some? {
      var w' := Do(s.w, o.step.value);
      VoteOk(S, s, a, o.node, block, o.step.value.root, Net(w', s.nodes, s.sent + o.out));
    } else {
      QuietFine(S, s, a, o);
    }
  }

  lemma QuietFine(S: Setting, s: Net, a: Id, o: Outcome)
    requires NodeOk(S, s, a, o.node) && o.step.None?
    ensures Fine(S, s, a, o)
  {
    hide HoldsPending, HoldsBallots, HoldsCerts;
  }

  lemma BallotCounts(S: Setting, w: World, n: Node, vote: VR.VoteMsg)
    requires HoldsBallots(S, w, n) && VR.VoteVerifies(S.cfg, w, vote) && vote.info.round == n.round
    ensures var ballots := n.ballots[vote.author := vote];
      HoldsBallots(S, w, n.(ballots := ballots, roundQc := Count(S, ballots, vote)))
  {
    hide Stake;
    var ballots := n.ballots[vote.author := vote];
    var qc := Count(S, ballots, vote);
    if qc.Some? {
      VotersReal(S.cfg, w, ballots, vote.seal);
      assert QcSigned(S.cfg, w, qc.value);
    }
  }

  lemma VotersReal(cfg: Config, w: World, ballots: map<Id, VR.VoteMsg>, seal: Seal)
    requires forall x :: x in ballots ==> ballots[x].author == x && VR.VoteVerifies(cfg, w, ballots[x])
    ensures Voters(ballots, seal) <= cfg.validators
    ensures forall x :: x in Voters(ballots, seal) ==> VoteSig(x, seal) in w.votes
  {
    var voters := Voters(ballots, seal);
    forall x | x in voters ensures x in cfg.validators {
      assert x in ballots && VR.VoteVerifies(cfg, w, ballots[x]);
    }
    forall x | x in voters ensures VoteSig(x, seal) in w.votes {
      assert x in ballots && VR.VoteVerifies(cfg, w, ballots[x]);
    }
  }

  lemma BallotFine(S: Setting, s: Net, a: Id, vote: VR.VoteMsg, mature: bool, time: nat)
    requires NetInv(S, s) && a in s.nodes && VR.VoteVerifies(S.cfg, s.w, vote)
    ensures Fine(S, s, a, OnBallot(S, a, s.nodes[a], vote, mature, time))
  {
    hide QcHeld, TcHeld, HoldsPending;
    var n := s.nodes[a];
    var o := OnBallot(S, a, n, vote, mature, time);
    if vote.info.round == n.round && vote.author !in n.ballots {
      BallotCounts(S, s.w, n, vote);
      var ballots := n.ballots[vote.author := vote];
      var counted := n.(ballots := ballots, roundQc := Count(S, ballots, vote));
      assert HoldsPending(S, s.w, counted) by {
        PendingOnly(S, s.w, n, counted);
      }
      assert NodeOk(S, s, a, counted);
      if counted.roundQc.Some? {
        LaterRound(S, s.w, n);
        TakeOk(S, s, a, counted, counted.roundQc.value, None);
      }
    }
    QuietFine(S, s, a, o);
  }

  lemma LaterRound(S: Setting, w: World, n: Node)
    requires HoldsCerts(S, w, n)
    ensures n.round > GENESIS_ROUND
  {
  }

  lemma PendingOnly(S: Setting, w: World, n: Node, n': Node)
    requires HoldsPending(S, w, n) && n'.pending == n.pending && n'.round == n.round && n'.highQc == n.highQc
    ensures HoldsPending(S, w, n')
  {
  }

  lemma MatureFine(S: Setting, s: Net, a: Id, time: nat)
    requires NetInv(S, s) && a in s.nodes
    ensures Fine(S, s, a, OnMature(S, a, s.nodes[a], time))
  {
    hide QcHeld, TcHeld, HoldsPending;
    var n := s.nodes[a];
    if n.roundQc.Some? {
      LaterRound(S, s.w, n);
      TakeOk(S, s, a, n, n.roundQc.value, None);
    }
    QuietFine(S, s, a, OnMature(S, a, n, time));
  }

  /** What was collected with one more timeout that verifies. */
  lemma CollectOk(S: Setting, w: World, n: Node, vote: PM.TimeoutMsg)
    requires HoldsPending(S, w, n) && VR.TimeoutVerifies(S.cfg, w, vote.author, vote.timeout)
    requires Collect(n.pending, vote).Some?
    ensures TcCollected(S.cfg, w, Collect(n.pending, vote).value)
  {
    hide QcVerifies, Lapsed;
    var p := Collect(n.pending, vote).value;
    assert p.sigs[vote.author] == TimeoutVote(vote.timeout.highQc.info.round, vote.timeout.epoch);
    assert Certified(S.cfg, w, vote.timeout.highQc.info.round);
    if n.pending.Some? {
      var q := n.pending.value;
      var x :| x in q.sigs && q.sigs[x].hqcRound == q.highQc.info.round;
      assert p.sigs[x] == q.sigs[x];
      assert forall y :: y in p.sigs && y != vote.author ==> y in q.sigs && p.sigs[y] == q.sigs[y];
    }
  }

  lemma ExpiryFine(S: Setting, s: Net, a: Id, vote: PM.TimeoutMsg, time: nat)
    requires NetInv(S, s) && a in s.nodes && PM.MsgVerifies(S.cfg, s.w, vote) && RootKnown(vote.timeout.highQc)
    ensures Fine(S, s, a, OnExpiry(S, a, s.nodes[a], vote, time))
  {
    hide QcHeld, TcHeld, TcCollected, HoldsBallots, TcVerifies, QcVerifies;
    var n := s.nodes[a];
    PM.VerifiedIsHeld(S.cfg, s.w, vote.lastTc);
    PM.VerifiedCounts(S.cfg, s.w, vote);
    VerifiedIsHeld(S.cfg, s.w, vote.timeout.highQc);
    TakeOk(S, s, a, n, vote.timeout.highQc, vote.lastTc);
    var n1 := TakeTc(TakeQc(n, vote.timeout.highQc), vote.lastTc);
    TakeKeeps(S, s.w, n, vote.timeout.highQc, vote.lastTc);
    var p := Collect(n1.pending, vote);
    var o := OnExpiry(S, a, n, vote, time);
    if p.Some? {
      CollectOk(S, s.w, n1, vote);
      BallotsOnly(S, s.w, n1, n1.(pending := p));
      CompleteOk(S, s, a, n1, p.value);
    }
    QuietFine(S, s, a, o);
  }

  lemma BallotsOnly(S: Setting, w: World, n: Node, n': Node)
    requires HoldsBallots(S, w, n) && n'.ballots == n.ballots && n'.roundQc == n.roundQc && n'.round == n.round
    ensures HoldsBallots(S, w, n')
  {
  }

  lemma VerifiedIsHeld(cfg: Config, w: World, qc: QuorumCert)
    requires QcVerifies(cfg, w, qc)
    ensures QcHeld(cfg, w, qc)
  {
  }

  lemma CompleteOk(S: Setting, s: Net, a: Id, n: Node, p: TimeoutCert)
    requires NodeOk(S, s, a, n) && TcCollected(S.cfg, s.w, p) && p.highQc.info.round <= n.highQc.info.round
    requires HoldsBallots(S, s.w, n.(pending := Some(p)))
    ensures |p.sigs| < S.cfg.threshold ==> NodeOk(S, s, a, n.(pending := Some(p)))
    ensures |p.sigs| >= S.cfg.threshold ==> NodeOk(S, s, a, TakeTc(n.(pending := Some(p)), Some(p)))
  {
    hide QcHeld, TcVerifies, HoldsBallots, TcCollected;
    assert |p.sigs.Keys| == |p.sigs|;
    if |p.sigs| >= S.cfg.threshold && p.round >= n.round {
      FreshOk(S, s.w, TakeTc(n.(pending := Some(p)), Some(p)));
    }
  }

  lemma FreshOk(S: Setting, w: World, n: Node)
    requires n.pending.None? && n.ballots == map[] && n.roundQc.None?
    ensures HoldsPending(S, w, n) && HoldsBallots(S, w, n)
  {
  }

  lemma RunOutFine(S: Setting, s: Net, a: Id)
    requires NetInv(S, s) && a in s.nodes
    ensures Fine(S, s, a, OnLocalTimeout(s.w, a, s.nodes[a]))
  {
    hide QcHeld, TcHeld, TcCollected, HoldsBallots, HoldsPending;
    var n := s.nodes[a];
    var o := OnLocalTimeout(s.w, a, n);
    if o.step.Some? {
      var s' := Net(Do(s.w, o.step.value), s.nodes, s.sent + o.out);
      TimeoutOk(S, s, a, n, s');
      BallotsOnly(S, s'.w, n, o.node);
      PendingOnly(S, s'.w, n, o.node);
      CertificatesLast(S.cfg, s.w, s'.w);
    } else {
      QuietFine(S, s, a, o);
    }
  }

  lemma TimeoutOk(S: Setting, s: Net, a: Id, n: Node, s': Net)
    requires NodeOk(S, s, a, n) && Grows(s, s') && s'.w.stored == s.w.stored[a := StoreTimeout(s.w.stored[a], n.round)]
    ensures NodeOk(S, s', a, n)
  {
    hide QcHeld, TcHeld, TcCollected;
    CertificatesLast(S.cfg, s.w, s'.w);
    CollectedLasts(S.cfg, s.w, s'.w);
  }

  /** Every reaction of an honest validator keeps its invariant and is at most one step of the protocol. */
  lemma ReactFine(S: Setting, s: Net, e: Event)
    requires NetInv(S, s) && IsHonest(e) && Possible(S, s, e)
    ensures Fine(S, s, Actor(e), React(S, s, e))
  {
    hide Fine, QcVerifies, TcVerifies, NodeOk;
    var a := Actor(e);
    match e
    case Mature(_, time) => MatureFine(S, s, a, time);
    case RunOut(_) => RunOutFine(S, s, a);
    case Deliver(_, msg, mature, time) =>
      if React(S, s, e) == Outcome(s.nodes[a], None, {}) {
        QuietFine(S, s, a, React(S, s, e));
      } else {
        match msg
        case Proposal(author, block, tc) => ProposalFine(S, s, a, author, block, tc);
        case Ballot(vote, _) => BallotFine(S, s, a, vote, mature, time);
        case Expiry(vote) => ExpiryFine(S, s, a, vote, time);
      }
  }

  /** The protocol takes at most one step. */
  ghost predicate StepOrStay(cfg: Config, w: World, w': World) { w' == w || Next(cfg, w, w') }

  lemma EventKeeps(S: Setting, s: Net, e: Event)
    requires NetInv(S, s) && Possible(S, s, e)
    ensures NetInv(S, After(S, s, e)) && StepOrStay(S.cfg, s.w, After(S, s, e).w) && Grows(s, After(S, s, e))
  {
    hide HoldsCerts, HoldsPending, HoldsBallots, HoldsExpiry, QcVerifies, TcHeld, QcHeld, Follows;
    var s' := After(S, s, e);
    if IsHonest(e) {
      ReactFine(S, s, e);
      var a, o := Actor(e), React(S, s, e);
      NodeAlike(S, Net(s'.w, s.nodes, s.sent + o.out), s', a, o.node);
      forall b | b in s.nodes && b != a ensures NodeOk(S, s', b, s.nodes[b]) {
        NodeLasts(S, s, s', b, s.nodes[b]);
      }
    } else {
      InjectSteps(S, s, e.msg);
      forall b | b in s.nodes ensures NodeOk(S, s', b, s.nodes[b]) {
        NodeLasts(S, s, s', b, s.nodes[b]);
      }
    }
  }

  lemma NodeAlike(S: Setting, s: Net, s': Net, a: Id, n: Node)
    requires NodeOk(S, s, a, n) && s'.w == s.w && s'.sent == s.sent
    ensures NodeOk(S, s', a, n)
  {
    hide HoldsCerts, HoldsPending, HoldsBallots;
  }

  lemma InjectSteps(S: Setting, s: Net, msg: Msg)
    requires CanInject(S, s, msg)
    ensures StepOrStay(S.cfg, s.w, Forged(s.w, msg)) && Forged(s.w, msg).stored == s.w.stored
    ensures s.w.votes <= Forged(s.w, msg).votes && s.w.timeouts <= Forged(s.w, msg).timeouts
  {
    match msg
    case Proposal(_, _, _) =>
    case Ballot(vote, _) =>
      var sig := VoteSig(vote.author, vote.seal);
      if vote.author in S.cfg.byzantine {
        assert Enabled(S.cfg, s.w, ForgeVote(sig));
      } else {
        assert s.w.votes + {sig} == s.w.votes;
      }
    case Expiry(vote) =>
      if vote.author in S.cfg.byzantine {
        assert Enabled(S.cfg, s.w, ForgeTimeout(Signed(vote)));
      } else {
        assert s.w.timeouts + {Signed(vote)} == s.w.timeouts;
      }
  }

  lemma {:induction false} NetInvariant(S: Setting, run: seq<Net>, i: nat)
    requires NetRun(S, run) && i < |run|
    ensures NetInv(S, run[i])
  {
    hide NodeOk, Possible;
    if i > 0 {
      NetInvariant(S, run, i - 1);
      assert Moves(S, run[i - 1], run[i]);
      var e :| Possible(S, run[i - 1], e) && run[i] == After(S, run[i - 1], e);
      EventKeeps(S, run[i - 1], e);
    } else {
      StartOk(S, run[0]);
    }
  }

  lemma StartOk(S: Setting, s: Net)
    requires Start(S, s)
    ensures NetInv(S, s)
  {
  }

  // ----- every run of the network is a run of the protocol -----

  /** The worlds of a run of the network, without repetition, and where each state finds its own. */
  lemma {:induction false} Refines(S: Setting, run: seq<Net>) returns (worlds: seq<World>, at: seq<nat>)
    requires NetRun(S, run)
    ensures Run(S.cfg, worlds) && |at| == |run| && forall i :: 0 <= i < |at| ==> at[i] < |worlds|
    ensures forall i :: 0 <= i < |at| ==> worlds[at[i]] == run[i].w
    ensures forall i, j :: 0 <= i <= j < |at| ==> at[i] <= at[j]
    ensures at[|at| - 1] == |worlds| - 1
    decreases |run|
  {
    hide Initial, Next, NetInv, Possible;
    var k := |run| - 1;
    if k == 0 {
      worlds, at := [run[0].w], [0];
    } else {
      assert NetRun(S, run[..k]);
      var before, where := Refines(S, run[..k]);
      NetInvariant(S, run, k - 1);
      assert Moves(S, run[k - 1], run[k]);
      var e :| Possible(S, run[k - 1], e) && run[k] == After(S, run[k - 1], e);
      EventKeeps(S, run[k - 1], e);
      assert before[|before| - 1] == run[k - 1].w;
      worlds := if run[k].w == run[k - 1].w then before else before + [run[k].w];
      at := where + [|worlds| - 1];
    }
  }

  /** The validator has committed the round, with the highest QC it knows. */
  predicate HasCommitted(n: Node, r: nat)
  {
    n.highQc.info.round > GENESIS_ROUND && r > 0 && n.highQc.seal.commitRound == r
  }

  /** Whatever two certificates commit, at any two points of a run of the network, agrees. */
  lemma CertificatesAgree(S: Setting, run: seq<Net>, i: nat, qc1: QuorumCert, r1: nat, j: nat, qc2: QuorumCert, r2: nat,
                          counted: bool)
    requires EveryQuorumMeets(S.cfg, counted) && NetRun(S, run) && i < |run| && j < |run|
    requires Commits(S.cfg, run[i].w, qc1, r1, counted) && Commits(S.cfg, run[j].w, qc2, r2, counted) && r1 <= r2
    ensures Consistent(S.cfg, run[Max(i, j)].w, qc1, r1, qc2, r2)
  {
    hide EveryQuorumMeets, Run, NetRun, Commits, Consistent;
    var worlds, at := Refines(S, run);
    Agreement(S.cfg, worlds, at[i], qc1, r1, at[j], qc2, r2, counted);
    assert Max(at[i], at[j]) == at[Max(i, j)];
  }

  /** Whatever two honest validators have committed, with certificates that were verified or assembled, at
      any two points of a run, agrees. */
  lemma NodesAgree(S: Setting, run: seq<Net>, i: nat, a: Id, r1: nat, j: nat, b: Id, r2: nat)
    requires EveryQuorumMeets(S.cfg, true) && NetRun(S, run) && i < |run| && j < |run|
    requires a in run[i].nodes && HasCommitted(run[i].nodes[a], r1)
    requires b in run[j].nodes && HasCommitted(run[j].nodes[b], r2) && r1 <= r2
    ensures Consistent(S.cfg, run[Max(i, j)].w, run[i].nodes[a].highQc, r1, run[j].nodes[b].highQc, r2)
  {
    hide EveryQuorumMeets, NetRun, QcHeld, Consistent;
    NetInvariant(S, run, i);
    NetInvariant(S, run, j);
    assert NodeOk(S, run[i], a, run[i].nodes[a]) && NodeOk(S, run[j], b, run[j].nodes[b]);
    CertificatesAgree(S, run, i, run[i].nodes[a].highQc, r1, j, run[j].nodes[b].highQc, r2, true);
  }

  // ----- what the honest validators can do by themselves -----

  ghost predicate HonestMove(S: Setting, s: Net, s': Net)
  {
    exists e :: IsHonest(e) && Possible(S, s, e) && s' == After(S, s, e)
  }

  ghost predicate HonestPath(S: Setting, path: seq<Net>)
  {
    |path| > 0 && forall i :: 0 <= i < |path| - 1 ==> HonestMove(S, path[i], path[i + 1])
  }

  ghost predicate Connects(S: Setting, s: Net, path: seq<Net>, s': Net)
  {
    HonestPath(S, path) && path[0] == s && path[|path| - 1] == s'
  }

  /** The honest validators can get from one state to the other, with the messages sent so far and their own. */
  ghost predicate Leads(S: Setting, s: Net, s': Net)
  {
    exists path :: Connects(S, s, path, s')
  }

  lemma LeadsNowhere(S: Setting, s: Net)
    ensures Leads(S, s, s)
  {
    assert Connects(S, s, [s], s);
  }

  lemma LeadsBy(S: Setting, s: Net, e: Event)
    requires IsHonest(e) && Possible(S, s, e)
    ensures Leads(S, s, After(S, s, e))
  {
    var s' := After(S, s, e);
    assert HonestMove(S, s, s');
    assert Connects(S, s, [s, s'], s');
  }

  lemma LeadsOn(S: Setting, s: Net, s1: Net, s2: Net)
    requires Leads(S, s, s1) && Leads(S, s1, s2)
    ensures Leads(S, s, s2)
  {
    hide HonestMove;
    var p :| Connects(S, s, p, s1);
    var q :| Connects(S, s1, q, s2);
    var path := p + q[1..];
    forall i | 0 <= i < |path| - 1 ensures HonestMove(S, path[i], path[i + 1]) {
      if i >= |p| - 1 {
        assert path[i] == q[i - |p| + 1] && path[i + 1] == q[i - |p| + 2];
      }
    }
    assert Connects(S, s, path, s2);
  }

  /** An honest validator can be brought to commit a round in which no honest validator has voted yet. */
  ghost predicate CanCommit(S: Setting, s: Net)
  {
    exists s', a, r :: CommitsNew(S, s, s', a, r)
  }

  ghost predicate CommitsNew(S: Setting, s: Net, s': Net, a: Id, r: nat)
  {
    && Leads(S, s, s') && a in s'.nodes && HasCommitted(s'.nodes[a], r)
    && forall b :: b in s.nodes && b in s.w.stored ==> r > s.w.stored[b].voted
  }

  /** From every point of every run. */
  ghost predicate AlwaysGoesOn(S: Setting)
  {
    forall run :: NetRun(S, run) ==> CanCommit(S, run[|run| - 1])
  }
}
