/** The root chain's two-chain BFT protocol, as a step system: honest validators vote and time out
    under the safety rules, Byzantine ones sign anything, and everybody may crash at any point,
    because only what is persisted constrains an honest step.

    Signatures are unforgeable: a signature exists if and only if its owner made it.  Round info
    hashes are collision free. */
module Consensus {
  import opened TrustBase
  import opened Units

  const GENESIS_ROUND: nat := 1
  const GENESIS_ROOT: int := 0

  datatype RoundInfo = RoundInfo(round: nat, epoch: nat, timestamp: nat, parent: nat, root: int)

  datatype InfoHash = HashOf(info: RoundInfo) | OtherHash(n: int)

  /** The signed part of a vote: the hash of the round info, and the round it commits (0 for none). */
  datatype Seal = Seal(infoHash: InfoHash, commitRound: nat, epoch: nat, timestamp: nat, hash: int)

  datatype QuorumCert = QuorumCert(info: RoundInfo, seal: Seal, signers: set<Id>)

  /** A collected timeout signature: the high QC round and the epoch that it signs. */
  datatype TimeoutVote = TimeoutVote(hqcRound: nat, epoch: nat)

  datatype TimeoutCert = TimeoutCert(round: nat, epoch: nat, highQc: QuorumCert, sigs: map<Id, TimeoutVote>)

  datatype Block = Block(round: nat, epoch: nat, timestamp: nat, qc: QuorumCert)

  datatype VoteSig = VoteSig(author: Id, seal: Seal)

  datatype TimeoutSig = TimeoutSig(author: Id, round: nat, epoch: nat, hqcRound: nat)

  /** The first certificate: it is known to everybody, and its commit info is not looked at. */
  const GENESIS_QC: QuorumCert :=
    var info := RoundInfo(GENESIS_ROUND, 0, 1, 0, GENESIS_ROOT);
    QuorumCert(info, Seal(HashOf(info), GENESIS_ROUND, 0, 1, GENESIS_ROOT), {})

  // ----- safety_module.go -----

  /** What a validator persists: the highest round it voted or timed out in, and the highest QC round
      it has voted on. */
  datatype Storage = Storage(voted: nat, qc: nat)

  function Max(a: nat, b: nat): (m: nat) { if a > b then a else b }

  predicate IsConsecutive(blockRound: nat, round: nat) { round + 1 == blockRound }

  predicate IsSafeToVote(st: Storage, block: Block, lastTc: Option<TimeoutCert>)
  {
    && block.round > st.voted
    && match lastTc
       case None => IsConsecutive(block.round, block.qc.info.round)
       case Some(tc) => IsConsecutive(block.round, tc.round) && block.qc.info.round >= tc.highQc.info.round
  }

  predicate IsSafeToTimeout(st: Storage, round: nat, hqcRound: nat, lastTc: Option<TimeoutCert>)
  {
    && hqcRound >= st.qc && round > hqcRound && round >= st.voted
    && (IsConsecutive(round, hqcRound) || IsConsecutive(round, if lastTc.Some? then lastTc.value.round else 0))
  }

  function VoteInfo(block: Block, root: int): (info: RoundInfo)
  {
    RoundInfo(block.round, block.epoch, block.timestamp, block.qc.info.round, root)
  }

  /** A vote commits the parent exactly when the parent is the round before. */
  function CommitInfo(block: Block, infoHash: InfoHash): (seal: Seal)
  {
    var p := block.qc.info;
    if IsConsecutive(block.round, p.round) then Seal(infoHash, p.round, p.epoch, p.timestamp, p.root)
    else Seal(infoHash, 0, 0, 0, 0)
  }

  function VoteSeal(block: Block, root: int): (seal: Seal)
  {
    CommitInfo(block, HashOf(VoteInfo(block, root)))
  }

  /** What a vote for a block says: the block as it was proposed, the state root that its execution led to, and,
      if the parent is the round before, that the parent is committed as it was certified. */
  predicate Says(seal: Seal, block: Block, root: int)
  {
    && seal.infoHash.HashOf?
    && var info, parent := seal.infoHash.info, block.qc.info;
    && info.round == block.round && info.epoch == block.epoch && info.timestamp == block.timestamp
    && info.parent == parent.round && info.root == root
    && (if block.round == parent.round + 1 then
          seal.commitRound == parent.round && seal.epoch == parent.epoch && seal.timestamp == parent.timestamp &&
          seal.hash == parent.root
        else seal.commitRound == 0)
  }

  function StoreVote(st: Storage, block: Block): (st': Storage)
  {
    Storage(Max(block.round, st.voted), Max(block.qc.info.round, st.qc))
  }

  function StoreTimeout(st: Storage, round: nat): (st': Storage)
  {
    Storage(Max(round, st.voted), st.qc)
  }

  // ----- certificates -----

  /** Everything signed so far, and what the honest validators have persisted. */
  datatype World = World(votes: set<VoteSig>, timeouts: set<TimeoutSig>, stored: map<Id, Storage>)

  predicate InfoIsValid(info: RoundInfo)
  {
    info.round > 0 && (info.parent == 0 ==> info.round <= 1) && info.round > info.parent && info.timestamp > 0
  }

  /** The certificate is about its round info, and all its signatures are real. */
  predicate QcSigned(cfg: Config, w: World, qc: QuorumCert)
  {
    qc.signers <= cfg.validators && forall a :: a in qc.signers ==> VoteSig(a, qc.seal) in w.votes
  }

  /** A quorum certificate verifies; the genesis certificate is not signed. */
  ghost predicate QcVerifies(cfg: Config, w: World, qc: QuorumCert)
  {
    && InfoIsValid(qc.info) && qc.seal.infoHash == HashOf(qc.info)
    && (qc.info.round == GENESIS_ROUND || (QcSigned(cfg, w, qc) && Stake(cfg, qc.signers) >= cfg.threshold))
  }

  /** A quorum certificate that a validator may hold: it verifies, or was assembled from enough votes. */
  ghost predicate QcHeld(cfg: Config, w: World, qc: QuorumCert)
  {
    || QcVerifies(cfg, w, qc)
    || (InfoIsValid(qc.info) && qc.seal.infoHash == HashOf(qc.info) && QcSigned(cfg, w, qc) &&
        |qc.signers| >= cfg.threshold)
  }

  /** A quorum certificate that verifies or, if counted ones are meant too, that a validator may hold. */
  ghost predicate QcKnown(cfg: Config, w: World, qc: QuorumCert, counted: bool)
  {
    QcVerifies(cfg, w, qc) || (counted && QcHeld(cfg, w, qc))
  }

  /** The signatures of a timeout certificate are real, and its high QC is the highest that any signer
      reported. */
  ghost predicate TcSigned(cfg: Config, w: World, tc: TimeoutCert)
  {
    && QcVerifies(cfg, w, tc.highQc) && tc.round > tc.highQc.info.round && tc.sigs.Keys <= cfg.validators
    && (forall a :: a in tc.sigs ==> TimeoutSig(a, tc.round, tc.sigs[a].epoch, tc.sigs[a].hqcRound) in w.timeouts)
    && (forall a :: a in tc.sigs ==> tc.sigs[a].hqcRound <= tc.highQc.info.round)
    && exists a :: a in tc.sigs && tc.sigs[a].hqcRound == tc.highQc.info.round
  }

  /** A timeout certificate verifies: all signatures are for its epoch. */
  ghost predicate TcVerifies(cfg: Config, w: World, tc: TimeoutCert)
  {
    && TcSigned(cfg, w, tc) && Stake(cfg, tc.sigs.Keys) >= cfg.threshold
    && forall a :: a in tc.sigs ==> tc.sigs[a].epoch == tc.epoch
  }

  ghost predicate Certified(cfg: Config, w: World, round: nat)
  {
    exists qc :: QcVerifies(cfg, w, qc) && qc.info.round == round
  }

  /** A timeout certificate for the round verifies, so that it can be attached to messages. */
  ghost predicate Lapsed(cfg: Config, w: World, round: nat)
  {
    exists tc :: TcVerifies(cfg, w, tc) && tc.round == round
  }

  /** A message of this round on that QC can pass verification: the round before is the certified one, or
      it timed out. */
  ghost predicate Follows(cfg: Config, w: World, round: nat, certified: nat)
  {
    certified < round && (IsConsecutive(round, certified) || Lapsed(cfg, w, round - 1))
  }

  /** Every timeout in the certificate could be received: its high QC verifies, and so does the
      certificate for the round before. */
  ghost predicate TcCollected(cfg: Config, w: World, tc: TimeoutCert)
  {
    && TcSigned(cfg, w, tc)
    && forall a :: a in tc.sigs ==>
      Certified(cfg, w, tc.sigs[a].hqcRound) && Follows(cfg, w, tc.round, tc.sigs[a].hqcRound)
  }

  /** A timeout certificate that a validator may hold: it verifies, or was assembled from enough
      timeouts, whatever their epochs. */
  ghost predicate TcHeld(cfg: Config, w: World, tc: TimeoutCert)
  {
    TcVerifies(cfg, w, tc) || (TcCollected(cfg, w, tc) && |tc.sigs.Keys| >= cfg.threshold)
  }

  // ----- steps -----

  datatype Step =
    | Vote(author: Id, block: Block, root: int, lastTc: Option<TimeoutCert>, signed: bool)
    | TimeOut(author: Id, round: nat, epoch: nat, highQc: QuorumCert, lastTc: Option<TimeoutCert>, signed: bool)
    | ForgeVote(vote: VoteSig)
    | ForgeTimeout(timeout: TimeoutSig)

  ghost predicate Initial(cfg: Config, w: World)
  {
    w.votes == {} && w.timeouts == {} && w.stored.Keys == cfg.validators &&
    forall a :: a in w.stored ==> w.stored[a] == Storage(GENESIS_ROUND, GENESIS_ROUND)
  }

  /** The step may be taken.  An honest validator votes only for a proposal with a QC that verifies, and
      with a TC that verifies if the QC is not for the round before; its own last TC, and the high QC it
      reports in a timeout, may be ones that it assembled itself.  It knows the root hash of the genesis
      block.  `signed` is false when it crashes after persisting and before signing. */
  ghost predicate Enabled(cfg: Config, w: World, step: Step)
  {
    match step
    case Vote(a, block, _, tc, _) =>
      && Honest(cfg, a) && a in w.stored
      && QcVerifies(cfg, w, block.qc) && Follows(cfg, w, block.round, block.qc.info.round)
      && (block.qc.info.round == GENESIS_ROUND ==> block.qc.info.root == GENESIS_ROOT)
      && (tc.Some? ==> TcHeld(cfg, w, tc.value))
      && IsSafeToVote(w.stored[a], block, tc)
    case TimeOut(a, round, _, highQc, tc, _) =>
      && Honest(cfg, a) && a in w.stored
      && QcHeld(cfg, w, highQc) && (tc.Some? ==> TcHeld(cfg, w, tc.value))
      && IsSafeToTimeout(w.stored[a], round, highQc.info.round, tc)
    case ForgeVote(v) => v.author in cfg.byzantine
    case ForgeTimeout(t) => t.author in cfg.byzantine
  }

  function Do(w: World, step: Step): (w': World)
  {
    match step
    case Vote(a, block, root, _, signed) =>
      if a !in w.stored then w
      else
        var stored := w.stored[a := StoreVote(w.stored[a], block)];
        World(if signed then w.votes + {VoteSig(a, VoteSeal(block, root))} else w.votes, w.timeouts, stored)
    case TimeOut(a, round, epoch, highQc, _, signed) =>
      if a !in w.stored then w
      else
        var stored := w.stored[a := StoreTimeout(w.stored[a], round)];
        var timeout := TimeoutSig(a, round, epoch, highQc.info.round);
        World(w.votes, if signed then w.timeouts + {timeout} else w.timeouts, stored)
    case ForgeVote(v) => w.(votes := w.votes + {v})
    case ForgeTimeout(t) => w.(timeouts := w.timeouts + {t})
  }

  ghost predicate Next(cfg: Config, w: World, w': World)
  {
    exists step :: Enabled(cfg, w, step) && w' == Do(w, step)
  }

  ghost predicate Run(cfg: Config, worlds: seq<World>)
  {
    |worlds| > 0 && Initial(cfg, worlds[0]) && forall i :: 0 <= i < |worlds| - 1 ==> Next(cfg, worlds[i], worlds[i + 1])
  }

  // ----- invariant -----

  /** A certificate for the committed round carries what the seal commits. */
  ghost predicate CommitJustified(cfg: Config, w: World, seal: Seal)
  {
    exists qc :: QcVerifies(cfg, w, qc) && qc.info.round == seal.commitRound && qc.info.epoch == seal.epoch &&
                 qc.info.timestamp == seal.timestamp && qc.info.root == seal.hash &&
                 (qc.info.round == GENESIS_ROUND ==> qc.info.root == GENESIS_ROOT)
  }

  /** A timeout certificate lets a block skip rounds, down to the high QC of that certificate. */
  ghost predicate GapJustified(cfg: Config, w: World, round: nat, parent: nat)
  {
    exists tc :: TcHeld(cfg, w, tc) && tc.round + 1 == round && tc.highQc.info.round <= parent
  }

  /** What every vote of an honest validator says and what it rests on. */
  ghost predicate VoteJustified(cfg: Config, w: World, v: VoteSig)
  {
    && v.author in w.stored && v.seal.infoHash.HashOf?
    && var info := v.seal.infoHash.info;
    && GENESIS_ROUND < info.round <= w.stored[v.author].voted && info.parent <= w.stored[v.author].qc
    && info.parent < info.round
    && Certified(cfg, w, info.parent)
    && (if info.round == info.parent + 1 then v.seal.commitRound == info.parent && CommitJustified(cfg, w, v.seal)
        else v.seal.commitRound == 0 && GapJustified(cfg, w, info.round, info.parent))
  }

  ghost predicate VotesJustified(cfg: Config, w: World)
  {
    forall v :: v in w.votes && Honest(cfg, v.author) ==> VoteJustified(cfg, w, v)
  }

  function RoundOf(v: VoteSig): (round: nat)
  {
    if v.seal.infoHash.HashOf? then v.seal.infoHash.info.round else 0
  }

  function ParentOf(v: VoteSig): (round: nat)
  {
    if v.seal.infoHash.HashOf? then v.seal.infoHash.info.parent else 0
  }

  predicate SameRound(v: VoteSig, v': VoteSig) { v.author == v'.author && RoundOf(v) == RoundOf(v') }

  /** An honest validator votes at most once in a round. */
  ghost predicate OneVotePerRound(cfg: Config, w: World)
  {
    forall v, v' :: v in w.votes && v' in w.votes && Honest(cfg, v.author) && SameRound(v, v') ==> v == v'
  }

  predicate TimesOutAfter(t: TimeoutSig, v: VoteSig) { t.author == v.author && t.round >= RoundOf(v) }

  /** An honest validator that voted in a round and timed out in that round or later reported a high
      QC no older than the one it voted on. */
  ghost predicate TimeoutsRespectVotes(cfg: Config, w: World)
  {
    && (forall t :: t in w.timeouts && Honest(cfg, t.author) ==>
        t.author in w.stored && t.round <= w.stored[t.author].voted)
    && (forall v, t :: v in w.votes && t in w.timeouts && Honest(cfg, v.author) && TimesOutAfter(t, v) ==>
          t.hqcRound >= ParentOf(v))
  }

  ghost predicate Inv(cfg: Config, w: World)
  {
    w.stored.Keys == cfg.validators && (forall a :: a in w.stored ==> w.stored[a].voted >= GENESIS_ROUND) &&
    VotesJustified(cfg, w) && OneVotePerRound(cfg, w) && TimeoutsRespectVotes(cfg, w)
  }

  // ----- the invariant holds in every run -----

  /** Nothing that was signed is forgotten and storage only grows. */
  lemma Monotone(cfg: Config, w: World, step: Step)
    requires Enabled(cfg, w, step)
    ensures var w' := Do(w, step);
      w.votes <= w'.votes && w.timeouts <= w'.timeouts && w'.stored.Keys == w.stored.Keys &&
      forall a :: a in w.stored ==> w.stored[a].voted <= w'.stored[a].voted && w.stored[a].qc <= w'.stored[a].qc
  {
  }

  lemma CertificatesLast(cfg: Config, w: World, w': World)
    requires w.votes <= w'.votes && w.timeouts <= w'.timeouts
    ensures forall qc :: QcVerifies(cfg, w, qc) ==> QcVerifies(cfg, w', qc)
    ensures forall qc :: QcHeld(cfg, w, qc) ==> QcHeld(cfg, w', qc)
    ensures forall tc :: TcVerifies(cfg, w, tc) ==> TcVerifies(cfg, w', tc)
    ensures forall round, certified :: Follows(cfg, w, round, certified) ==> Follows(cfg, w', round, certified)
    ensures forall tc :: TcHeld(cfg, w, tc) ==> TcHeld(cfg, w', tc)
  {
    hide Stake;
    assert forall tc :: TcVerifies(cfg, w, tc) ==> TcVerifies(cfg, w', tc);
    assert forall round :: Lapsed(cfg, w, round) ==> Lapsed(cfg, w', round);
    assert forall tc :: TcCollected(cfg, w, tc) ==> TcCollected(cfg, w', tc);
  }

  lemma JustificationLasts(cfg: Config, w: World, w': World, v: VoteSig)
    requires VoteJustified(cfg, w, v)
    requires w.votes <= w'.votes && w.timeouts <= w'.timeouts && v.author in w'.stored
    requires w.stored[v.author].voted <= w'.stored[v.author].voted && w.stored[v.author].qc <= w'.stored[v.author].qc
    ensures VoteJustified(cfg, w', v)
  {
    CertificatesLast(cfg, w, w');
  }

  lemma NewVoteJustified(cfg: Config, w: World, step: Step)
    requires Inv(cfg, w) && step.Vote? && step.signed && Enabled(cfg, w, step)
    ensures VoteJustified(cfg, Do(w, step), VoteSig(step.author, VoteSeal(step.block, step.root)))
  {
    var w' := Do(w, step);
    Monotone(cfg, w, step);
    CertificatesLast(cfg, w, w');
    assert QcVerifies(cfg, w', step.block.qc);
    if step.lastTc.Some? {
      assert TcHeld(cfg, w', step.lastTc.value);
    }
  }

  lemma StepKeepsVotes(cfg: Config, w: World, step: Step)
    requires Inv(cfg, w) && Enabled(cfg, w, step)
    ensures VotesJustified(cfg, Do(w, step))
  {
    var w' := Do(w, step);
    Monotone(cfg, w, step);
    forall v | v in w'.votes && Honest(cfg, v.author) ensures VoteJustified(cfg, w', v) {
      if v in w.votes {
        JustificationLasts(cfg, w, w', v);
      } else {
        NewVoteJustified(cfg, w, step);
      }
    }
  }

  lemma StepKeepsOneVote(cfg: Config, w: World, step: Step)
    requires Inv(cfg, w) && Enabled(cfg, w, step)
    ensures OneVotePerRound(cfg, Do(w, step))
  {
  }

  lemma StepKeepsTimeouts(cfg: Config, w: World, step: Step)
    requires Inv(cfg, w) && Enabled(cfg, w, step)
    ensures TimeoutsRespectVotes(cfg, Do(w, step))
  {
  }

  lemma {:induction false} Invariant(cfg: Config, worlds: seq<World>, i: nat)
    requires Run(cfg, worlds) && i < |worlds|
    ensures Inv(cfg, worlds[i])
  {
    if i > 0 {
      Invariant(cfg, worlds, i - 1);
      assert Next(cfg, worlds[i - 1], worlds[i]);
      var step :| Enabled(cfg, worlds[i - 1], step) && worlds[i] == Do(worlds[i - 1], step);
      StepKeepsVotes(cfg, worlds[i - 1], step);
      StepKeepsOneVote(cfg, worlds[i - 1], step);
      StepKeepsTimeouts(cfg, worlds[i - 1], step);
      Monotone(cfg, worlds[i - 1], step);
    }
  }

  // ----- safety -----

  lemma KnownByQuorum(cfg: Config, w: World, qc: QuorumCert, counted: bool)
    requires QcKnown(cfg, w, qc, counted) && qc.info.round > GENESIS_ROUND
    ensures IsQuorum(cfg, qc.signers, counted) && QcSigned(cfg, w, qc) && qc.seal.infoHash == HashOf(qc.info)
  {
  }

  /** Two certificates of later rounds carry votes of a common honest validator. */
  lemma CommonVoter(cfg: Config, w: World, qc1: QuorumCert, qc2: QuorumCert, counted: bool) returns (a: Id)
    requires EveryQuorumMeets(cfg, counted) && QcKnown(cfg, w, qc1, counted) && QcKnown(cfg, w, qc2, counted)
    requires qc1.info.round > GENESIS_ROUND && qc2.info.round > GENESIS_ROUND
    ensures Honest(cfg, a) && VoteSig(a, qc1.seal) in w.votes && VoteSig(a, qc2.seal) in w.votes
  {
    KnownByQuorum(cfg, w, qc1, counted);
    KnownByQuorum(cfg, w, qc2, counted);
    assert ShareHonest(cfg, qc1.signers, qc2.signers);
    a :| a in qc1.signers && a in qc2.signers && Honest(cfg, a);
  }

  /** Every signed certificate carries the vote of an honest validator. */
  lemma HonestSigner(cfg: Config, w: World, qc: QuorumCert, counted: bool) returns (v: VoteSig)
    requires Inv(cfg, w) && EveryQuorumMeets(cfg, counted)
    requires QcKnown(cfg, w, qc, counted) && qc.info.round > GENESIS_ROUND
    ensures v in w.votes && v.seal == qc.seal && Honest(cfg, v.author) && VoteJustified(cfg, w, v)
    ensures RoundOf(v) == qc.info.round && ParentOf(v) == qc.info.parent
  {
    KnownByQuorum(cfg, w, qc, counted);
    var a := CommonVoter(cfg, w, qc, qc, counted);
    v := VoteSig(a, qc.seal);
  }

  /** At most one block is certified in a round: the certificates agree on all that is signed. */
  lemma UniqueCertificate(cfg: Config, w: World, qc1: QuorumCert, qc2: QuorumCert, counted: bool)
    requires Inv(cfg, w) && EveryQuorumMeets(cfg, counted)
    requires QcKnown(cfg, w, qc1, counted) && QcKnown(cfg, w, qc2, counted)
    requires qc1.info.round == qc2.info.round > GENESIS_ROUND
    ensures qc1.seal == qc2.seal && qc1.info == qc2.info
  {
    KnownByQuorum(cfg, w, qc1, counted);
    KnownByQuorum(cfg, w, qc2, counted);
    var a := CommonVoter(cfg, w, qc1, qc2, counted);
    assert RoundOf(VoteSig(a, qc1.seal)) == RoundOf(VoteSig(a, qc2.seal));
  }

  lemma TcByQuorum(cfg: Config, w: World, tc: TimeoutCert)
    requires TcHeld(cfg, w, tc)
    ensures TcSigned(cfg, w, tc) && IsQuorum(cfg, tc.sigs.Keys, true)
  {
  }

  /** Lock-in: when a round is certified on top of round r, every timeout certificate for that round or a
      later one, verified or assembled, has a high QC of round r or later. */
  lemma LockIn(cfg: Config, w: World, qc: QuorumCert, tc: TimeoutCert, counted: bool)
    requires Inv(cfg, w) && EveryQuorumMeets(cfg, counted) && QcKnown(cfg, w, qc, counted) && TcHeld(cfg, w, tc)
    requires GENESIS_ROUND < qc.info.round <= tc.round
    ensures tc.highQc.info.round >= qc.info.parent
  {
    hide VotesJustified, OneVotePerRound, QcHeld, TcHeld, IsQuorum;
    KnownByQuorum(cfg, w, qc, counted);
    TcByQuorum(cfg, w, tc);
    assert ShareHonest(cfg, qc.signers, tc.sigs.Keys);
    var a :| a in qc.signers && a in tc.sigs.Keys && Honest(cfg, a);
    var v, t := VoteSig(a, qc.seal), TimeoutSig(a, tc.round, tc.sigs[a].epoch, tc.sigs[a].hqcRound);
    assert v in w.votes && t in w.timeouts && RoundOf(v) <= t.round;
  }

  /** No honest validator votes in a later round for a block that hangs below r. */
  lemma NoVoteBelow(cfg: Config, w: World, qc: QuorumCert, v: VoteSig, counted: bool)
    requires Inv(cfg, w) && EveryQuorumMeets(cfg, counted)
    requires QcKnown(cfg, w, qc, counted) && GENESIS_ROUND < qc.info.round < RoundOf(v)
    requires v in w.votes && Honest(cfg, v.author)
    ensures ParentOf(v) >= qc.info.parent
  {
    assert VoteJustified(cfg, w, v);
    if RoundOf(v) != ParentOf(v) + 1 {
      var tc :| TcHeld(cfg, w, tc) && tc.round + 1 == RoundOf(v) && tc.highQc.info.round <= ParentOf(v);
      LockIn(cfg, w, qc, tc, counted);
    }
  }

  /** A certificate with which a validator commits its parent round. */
  ghost predicate Commits(cfg: Config, w: World, qc: QuorumCert, r: nat, counted: bool)
  {
    QcKnown(cfg, w, qc, counted) && qc.info.round > GENESIS_ROUND && r > 0 && qc.seal.commitRound == r
  }

  /** A committing certificate is for the next round, and what it commits is what every certificate of
      the committed round certified. */
  lemma CommitIsParent(cfg: Config, w: World, qc: QuorumCert, r: nat, counted: bool)
    requires Inv(cfg, w) && EveryQuorumMeets(cfg, counted) && Commits(cfg, w, qc, r, counted)
    ensures qc.info.parent == r && qc.info.round == r + 1 && Certified(cfg, w, r)
    ensures r == GENESIS_ROUND ==> qc.seal.hash == GENESIS_ROOT
    ensures forall p :: QcKnown(cfg, w, p, counted) && p.info.round == r > GENESIS_ROUND ==>
      p.info.root == qc.seal.hash && p.info.epoch == qc.seal.epoch && p.info.timestamp == qc.seal.timestamp
  {
    hide Stake, IsQuorum;
    var v := HonestSigner(cfg, w, qc, counted);
    var c :| QcVerifies(cfg, w, c) && c.info.round == r && c.info.epoch == qc.seal.epoch &&
             c.info.timestamp == qc.seal.timestamp && c.info.root == qc.seal.hash &&
             (c.info.round == GENESIS_ROUND ==> c.info.root == GENESIS_ROOT);
    forall p | QcKnown(cfg, w, p, counted) && p.info.round == r > GENESIS_ROUND ensures p.info == c.info {
      UniqueCertificate(cfg, w, p, c, counted);
    }
  }

  /** Two certificates that commit the same round agree on all that is signed. */
  lemma SameCommit(cfg: Config, w: World, qc1: QuorumCert, qc2: QuorumCert, r: nat, counted: bool)
    requires Inv(cfg, w) && EveryQuorumMeets(cfg, counted)
    requires Commits(cfg, w, qc1, r, counted) && Commits(cfg, w, qc2, r, counted)
    ensures qc1.seal == qc2.seal
  {
    hide QcHeld;
    CommitIsParent(cfg, w, qc1, r, counted);
    CommitIsParent(cfg, w, qc2, r, counted);
    UniqueCertificate(cfg, w, qc1, qc2, counted);
  }

  /** Certificates from round to round, each naming the next as its parent; all but the first verify. */
  ghost predicate IsChain(cfg: Config, w: World, chain: seq<QuorumCert>)
  {
    && |chain| > 0 && QcHeld(cfg, w, chain[0])
    && (forall i :: 0 < i < |chain| ==> QcVerifies(cfg, w, chain[i]))
    && (forall i :: 0 <= i < |chain| - 1 ==> chain[i].info.parent == chain[i + 1].info.round)
  }

  /** Every certified round from a committed round on descends from it. */
  lemma {:induction false} DescendsFromCommit(cfg: Config, w: World, commit: QuorumCert, r: nat, qc: QuorumCert,
                                              counted: bool)
    returns (chain: seq<QuorumCert>)
    requires Inv(cfg, w) && EveryQuorumMeets(cfg, counted) && Commits(cfg, w, commit, r, counted)
    requires QcKnown(cfg, w, qc, counted) && qc.info.round >= r
    ensures IsChain(cfg, w, chain) && chain[0] == qc && chain[|chain| - 1].info.round == r
    decreases qc.info.round
  {
    hide Stake, IsQuorum, EveryQuorumMeets, QcSigned;
    if qc.info.round == r {
      chain := [qc];
    } else {
      CommitIsParent(cfg, w, commit, r, counted);
      var v := HonestSigner(cfg, w, qc, counted);
      if qc.info.round == r + 1 {
        UniqueCertificate(cfg, w, qc, commit, counted);
      } else {
        NoVoteBelow(cfg, w, commit, v, counted);
      }
      var p :| QcVerifies(cfg, w, p) && p.info.round == qc.info.parent;
      var rest := DescendsFromCommit(cfg, w, commit, r, p, counted);
      chain := [qc] + rest;
    }
  }

  /** What two commits have to do with each other: the later one builds on the earlier one, through a
      round whose certified root hash is the one that was committed. */
  ghost predicate Builds(cfg: Config, w: World, chain: seq<QuorumCert>, qc1: QuorumCert, r1: nat, qc2: QuorumCert)
  {
    && IsChain(cfg, w, chain) && chain[0] == qc2 && chain[|chain| - 1].info.round == r1
    && qc1.seal.hash == if r1 > GENESIS_ROUND then chain[|chain| - 1].info.root else GENESIS_ROOT
  }

  /** Two commits at the same or different rounds agree. */
  ghost predicate Consistent(cfg: Config, w: World, qc1: QuorumCert, r1: nat, qc2: QuorumCert, r2: nat)
  {
    (r1 == r2 ==> qc1.seal == qc2.seal) && exists chain :: Builds(cfg, w, chain, qc1, r1, qc2)
  }

  /** Agreement, in every run: whatever two certificates commit, at any two points of the run, they agree.
      This holds of certificates that verify if every quorum by stake shares an honest validator with every
      quorum, and also of those that a validator only counted if every two quorums do. */
  lemma Agreement(cfg: Config, worlds: seq<World>, i: nat, qc1: QuorumCert, r1: nat, j: nat, qc2: QuorumCert, r2: nat,
                  counted: bool)
    requires EveryQuorumMeets(cfg, counted) && Run(cfg, worlds) && i < |worlds| && j < |worlds|
    requires Commits(cfg, worlds[i], qc1, r1, counted) && Commits(cfg, worlds[j], qc2, r2, counted) && r1 <= r2
    ensures Consistent(cfg, worlds[Max(i, j)], qc1, r1, qc2, r2)
  {
    hide Next, Initial, QcHeld, QcVerifies, IsQuorum, Inv;
    var k := Max(i, j);
    Invariant(cfg, worlds, k);
    var w := worlds[k];
    RunMonotone(cfg, worlds, i, k);
    RunMonotone(cfg, worlds, j, k);
    if r1 == r2 {
      SameCommit(cfg, w, qc1, qc2, r1, counted);
    }
    CommitIsParent(cfg, w, qc1, r1, counted);
    CommitIsParent(cfg, w, qc2, r2, counted);
    var chain := DescendsFromCommit(cfg, w, qc1, r1, qc2, counted);
    LastIsKnown(cfg, w, chain, counted);
    assert Builds(cfg, w, chain, qc1, r1, qc2);
  }

  lemma LastIsKnown(cfg: Config, w: World, chain: seq<QuorumCert>, counted: bool)
    requires IsChain(cfg, w, chain) && QcKnown(cfg, w, chain[0], counted)
    ensures QcKnown(cfg, w, chain[|chain| - 1], counted)
  {
  }

  lemma {:induction false} RunMonotone(cfg: Config, worlds: seq<World>, i: nat, j: nat)
    requires Run(cfg, worlds) && i <= j < |worlds|
    ensures worlds[i].votes <= worlds[j].votes && worlds[i].timeouts <= worlds[j].timeouts
    ensures forall qc :: QcHeld(cfg, worlds[i], qc) ==> QcHeld(cfg, worlds[j], qc)
    ensures forall qc :: QcVerifies(cfg, worlds[i], qc) ==> QcVerifies(cfg, worlds[j], qc)
    decreases j - i
  {
    if i < j {
      RunMonotone(cfg, worlds, i, j - 1);
      assert Next(cfg, worlds[j - 1], worlds[j]);
      var step :| Enabled(cfg, worlds[j - 1], step) && worlds[j] == Do(worlds[j - 1], step);
      Monotone(cfg, worlds[j - 1], step);
      CertificatesLast(cfg, worlds[j - 1], worlds[j]);
    }
  }
}
