/** The safety module of a validator: it persists before it signs.  Its two signing operations are
    exactly the honest steps of the protocol. */
module SafetyRules {
  import opened Units
  import opened Consensus
  import opened TrustBase

  class SafetyModule {
    const id: Id
    var votedRound: nat   // persisted
    var qcRound: nat      // persisted

    constructor (id: Id)
      ensures this.id == id && Stored() == Storage(GENESIS_ROUND, GENESIS_ROUND)
    {
      this.id := id;
      votedRound, qcRound := GENESIS_ROUND, GENESIS_ROUND;
    }

    function Stored(): (st: Storage)
      reads this
    {
      Storage(votedRound, qcRound)
    }

    /** Both rounds are raised together, never lowered. */
    method SetHighestQcRound(qc: nat, voted: nat)
      modifies this
      ensures qcRound == Max(qc, old(qcRound)) && votedRound == Max(voted, old(votedRound))
    {
      qcRound := Max(qc, qcRound);
      votedRound := Max(voted, votedRound);
    }

    method SetHighestVotedRound(round: nat)
      modifies this`votedRound
      ensures votedRound == Max(round, old(votedRound))
    {
      votedRound := Max(round, votedRound);
    }

    method SafeToVote(block: Block, lastTc: Option<TimeoutCert>) returns (ok: bool)
      ensures ok == IsSafeToVote(Stored(), block, lastTc)
    {
      if block.round <= votedRound {
        return false;
      }
      var qc := block.qc.info.round;
      if lastTc.None? {
        return IsConsecutive(block.round, qc);
      }
      if !IsConsecutive(block.round, lastTc.value.round) {
        return false;
      }
      return !(qc < lastTc.value.highQc.info.round);
    }

    method SafeToTimeout(round: nat, hqcRound: nat, lastTc: Option<TimeoutCert>) returns (ok: bool)
      ensures ok == IsSafeToTimeout(Stored(), round, hqcRound, lastTc)
    {
      if hqcRound < qcRound || round <= hqcRound || round < votedRound {
        return false;
      }
      var tcRound := 0;
      if lastTc.Some? {
        tcRound := lastTc.value.round;
      }
      return IsConsecutive(round, hqcRound) || IsConsecutive(round, tcRound);
    }

    /** A vote, if it is safe.  For a verified proposal, with a last TC that was verified or assembled by
        counting, this is one honest step of the protocol: it is enabled, and its effect is what was
        persisted and the signature that was returned. */
    method MakeVote(block: Block, root: int, lastTc: Option<TimeoutCert>, ghost cfg: Config, ghost w: World)
      returns (vote: Option<VoteSig>, ghost step: Step)
      requires Honest(cfg, id) && id in w.stored && w.stored[id] == Stored()
      requires QcVerifies(cfg, w, block.qc) && Follows(cfg, w, block.round, block.qc.info.round)
      requires (lastTc.Some? ==> TcHeld(cfg, w, lastTc.value))
      requires block.qc.info.round == GENESIS_ROUND ==> block.qc.info.root == GENESIS_ROOT
      modifies this
      ensures vote.None? <==> !IsSafeToVote(old(Stored()), block, lastTc)
      ensures vote.None? ==> Stored() == old(Stored())
      ensures vote.Some? ==>
        Enabled(cfg, w, step) && Do(w, step) == World(w.votes + {vote.value}, w.timeouts, w.stored[id := Stored()])
      ensures vote.Some? ==>
        vote.value.author == id && RoundOf(vote.value) == block.round == votedRound > old(votedRound)
      ensures vote.Some? ==> Says(vote.value.seal, block, root)
    {
      step := Vote(id, block, root, lastTc, true);
      var ok := SafeToVote(block, lastTc);
      if !ok {
        return None, step;
      }
      SetHighestQcRound(block.qc.info.round, block.round);
      var info := RoundInfo(block.round, block.epoch, block.timestamp, block.qc.info.round, root);
      var seal := Seal(HashOf(info), 0, 0, 0, 0);
      if IsConsecutive(block.round, block.qc.info.round) {
        var p := block.qc.info;
        seal := Seal(HashOf(info), p.round, p.epoch, p.timestamp, p.root);
      }
      vote := Some(VoteSig(id, seal));
    }

    /** A timeout, if it is safe; after it no vote in this round is signed any more. */
    method SignTimeout(round: nat, epoch: nat, highQc: QuorumCert, lastTc: Option<TimeoutCert>, ghost cfg: Config,
                       ghost w: World)
      returns (timeout: Option<TimeoutSig>, ghost step: Step)
      requires Honest(cfg, id) && id in w.stored && w.stored[id] == Stored()
      requires QcHeld(cfg, w, highQc) && (lastTc.Some? ==> TcHeld(cfg, w, lastTc.value))
      modifies this
      ensures timeout.None? <==> !IsSafeToTimeout(old(Stored()), round, highQc.info.round, lastTc)
      ensures timeout.None? ==> Stored() == old(Stored())
      ensures timeout.Some? ==>
        Enabled(cfg, w, step) && Do(w, step) == World(w.votes, w.timeouts + {timeout.value}, w.stored[id := Stored()])
      ensures timeout.Some? ==> timeout.value == TimeoutSig(id, round, epoch, highQc.info.round) && votedRound == round
    {
      step := TimeOut(id, round, epoch, highQc, lastTc, true);
      var ok := SafeToTimeout(round, highQc.info.round, lastTc);
      if !ok {
        return None, step;
      }
      SetHighestVotedRound(round);
      timeout := Some(TimeoutSig(id, round, epoch, highQc.info.round));
    }
  }
}
