/** The pacemaker: which round a validator is in, and what it remembers of that round.  Time is left
    out; a timeout is just another event. */
module Pacemaker {
  import opened Units
  import opened Consensus
  import opened TrustBase
  import VR = VoteRegister

  datatype TimeoutMsg = TimeoutMsg(timeout: VR.Timeout, author: Id, lastTc: Option<TimeoutCert>)

  datatype LastVote = NoVote | Voted(vote: VR.VoteMsg) | TimedOut(timeout: TimeoutMsg)

  /** A certificate for a round moves on to the next one, unless that is in the past. */
  function NextRound(current: nat, certified: nat): (round: nat)
  {
    if certified < current then current else certified + 1
  }

  function TcRound(tc: Option<TimeoutCert>): (round: nat)
  {
    if tc.Some? then tc.value.round else 0
  }

  class Pacemaker {
    var lastQcToCommitRound: nat
    var currentRound: nat
    var lastRoundTC: Option<TimeoutCert>
    var voteSent: Option<VR.VoteMsg>
    var timeoutVote: Option<TimeoutMsg>
    var currentQC: Option<VR.ConsensusWithSignatures>
    var inTimeout: bool  // the round has timed out
    const pendingVotes: VR.Register

    ghost predicate Valid()
      reads this, pendingVotes, pendingVotes.Sets(), pendingVotes.timeoutCert
    {
      && pendingVotes.Valid()
      && (lastRoundTC.Some? ==> lastRoundTC.value.round + 1 == currentRound)
      && (voteSent.Some? ==> voteSent.value.info.round == currentRound)
      && (timeoutVote.Some? ==> timeoutVote.value.timeout.round == currentRound)
      && (forall s :: s in pendingVotes.hashToSignatures ==>
          pendingVotes.hashToSignatures[s].info.round == currentRound)
      && (currentQC.Some? ==> currentQC.value.info.round == currentRound)
    }

    constructor ()
      ensures Valid() && currentRound == 0 && fresh(pendingVotes)
    {
      pendingVotes := new VR.Register();
      lastQcToCommitRound, currentRound := 0, 0;
      lastRoundTC, voteSent, timeoutVote, currentQC := None, None, None, None;
      inTimeout := false;
    }

    /** What the safety rules are given as last TC was verified or assembled here, and so will be. */
    ghost predicate Holds(cfg: Config, w: World)
      reads this, pendingVotes, pendingVotes.timeoutCert
    {
      (lastRoundTC.Some? ==> TcHeld(cfg, w, lastRoundTC.value)) && pendingVotes.TimeoutsBacked(cfg, w)
    }

    method StartNewRound(round: nat)
      modifies this, pendingVotes
      ensures currentRound == round && voteSent == None && timeoutVote == None && currentQC == None && !inTimeout
      ensures lastRoundTC == old(lastRoundTC) && lastQcToCommitRound == old(lastQcToCommitRound)
      ensures pendingVotes.Valid() && pendingVotes.hashToSignatures == map[] && pendingVotes.authorToVote == map[]
      ensures pendingVotes.timeoutCert == null
    {
      currentQC, voteSent, timeoutVote := None, None, None;
      pendingVotes.Reset();
      currentRound, inTimeout := round, false;
    }

    /** Starts after the newer of the two certificates and restores the last vote if it is for that round. */
    method Reset(highQcRound: nat, lastTc: Option<TimeoutCert>, lastVote: LastVote)
      modifies this, pendingVotes
      ensures Valid() && currentRound == Max(highQcRound, TcRound(lastTc)) + 1
      ensures lastRoundTC == if highQcRound < TcRound(lastTc) then lastTc else None
      ensures voteSent ==
        if lastVote.Voted? && lastVote.vote.info.round == currentRound then Some(lastVote.vote) else None
      ensures timeoutVote ==
        if lastVote.TimedOut? && lastVote.timeout.timeout.round == currentRound then Some(lastVote.timeout) else None
    {
      lastRoundTC := None;
      lastQcToCommitRound := highQcRound;
      var lastRound := highQcRound;
      if highQcRound < TcRound(lastTc) {
        lastRound := lastTc.value.round;
        lastRoundTC := lastTc;
      }
      StartNewRound(lastRound + 1);
      match lastVote
      case Voted(vote) => SetVoted(vote);
      case TimedOut(timeout) => SetTimeoutVote(timeout);
      case NoVote =>
    }

    method SetVoted(vote: VR.VoteMsg)
      modifies this`voteSent
      ensures voteSent == if vote.info.round == currentRound then Some(vote) else old(voteSent)
    {
      if vote.info.round == currentRound {
        voteSent := Some(vote);
      }
    }

    method SetTimeoutVote(vote: TimeoutMsg)
      modifies this`timeoutVote
      ensures timeoutVote == if vote.timeout.round == currentRound then Some(vote) else old(timeoutVote)
    {
      if vote.timeout.round == currentRound {
        timeoutVote := Some(vote);
      }
    }

    /** A vote counts only in its own round. */
    method RegisterVote(vote: VR.VoteMsg, threshold: nat, ghost cfg: Config, ghost w: World)
      returns (ok: bool, qc: Option<VR.ConsensusWithSignatures>)
      requires Valid() && pendingVotes.AllBacked(cfg, w) && threshold == cfg.threshold && VR.VoteVerifies(cfg, w, vote)
      modifies this`currentQC, pendingVotes, pendingVotes.Sets()
      ensures Valid() && pendingVotes.AllBacked(cfg, w) && pendingVotes.timeoutCert == old(pendingVotes.timeoutCert)
      ensures ok <==> vote.info.round == currentRound && vote.author !in old(pendingVotes.authorToVote)
      ensures !ok ==>
        qc == None && currentQC == old(currentQC) && pendingVotes.authorToVote == old(pendingVotes.authorToVote)
      ensures ok ==> currentQC == qc
      ensures qc.Some? ==> qc.value.info.round == currentRound && QcHeld(cfg, w, VR.QcOf(qc.value))
      ensures qc.Some? ==>
        (QcVerifies(cfg, w, VR.QcOf(qc.value)) <==>
           currentRound == GENESIS_ROUND || Stake(cfg, VR.QcOf(qc.value).signers) >= threshold)
    {
      if vote.info.round != currentRound {
        return false, None;
      }
      var r := pendingVotes.InsertVote(vote, threshold, cfg, w);
      if r.Refused? {
        return false, None;
      }
      qc := if r.Quorum? then Some(r.cert) else None;
      currentQC := qc;
      ok := true;
    }

    /** Advances on a certificate for the current round or a later one; the same certificate cannot do
        so twice. */
    method AdvanceRoundQC(qc: Option<QuorumCert>) returns (advanced: bool)
      requires Valid()
      modifies this, pendingVotes
      ensures Valid() && advanced == (qc.Some? && qc.value.info.round >= old(currentRound))
      ensures currentRound == if qc.Some? then NextRound(old(currentRound), qc.value.info.round) else old(currentRound)
      ensures lastRoundTC == if advanced then None else old(lastRoundTC)
      ensures lastQcToCommitRound ==
        if advanced && qc.value.seal.commitRound != 0 then qc.value.info.round else old(lastQcToCommitRound)
      ensures advanced ==>
        voteSent == None && timeoutVote == None && pendingVotes.authorToVote == map[] &&
        pendingVotes.timeoutCert == null
      ensures !advanced ==> pendingVotes.timeoutCert == old(pendingVotes.timeoutCert)
    {
      if qc.None? || qc.value.info.round < currentRound {
        return false;
      }
      lastRoundTC := None;
      if qc.value.seal.commitRound != 0 {
        lastQcToCommitRound := qc.value.info.round;
      }
      StartNewRound(qc.value.info.round + 1);
      advanced := true;
    }

    method AdvanceRoundTC(tc: Option<TimeoutCert>)
      requires Valid()
      modifies this, pendingVotes
      ensures Valid()
      ensures currentRound == if tc.Some? then NextRound(old(currentRound), tc.value.round) else old(currentRound)
      ensures lastRoundTC == if currentRound != old(currentRound) then tc else old(lastRoundTC)
      ensures currentRound != old(currentRound) ==>
        voteSent == None && timeoutVote == None && pendingVotes.timeoutCert == null
      ensures currentRound == old(currentRound) ==> pendingVotes.timeoutCert == old(pendingVotes.timeoutCert)
    {
      if tc.None? || tc.value.round < currentRound {
        return;
      }
      lastRoundTC := tc;
      StartNewRound(tc.value.round + 1);
    }

    /** The round clock runs out. */
    method RoundTimesOut()
      modifies this`inTimeout
      ensures inTimeout
    {
      inTimeout := true;
    }

    /** Counts a timeout vote; when more than the faulty ones have timed out, so does this validator. */
    method RegisterTimeoutVote(vote: TimeoutMsg, threshold: nat, maxFaulty: nat, ghost cfg: Config, ghost w: World)
      returns (ok: bool, tc: VR.PartialTc?)
      requires Valid() && Holds(cfg, w) && threshold == cfg.threshold
      requires VR.TimeoutVerifies(cfg, w, vote.author, vote.timeout)
      modifies this`inTimeout, pendingVotes`timeoutCert, pendingVotes.timeoutCert
      ensures Valid() && Holds(cfg, w) && pendingVotes.timeoutCert != null
      ensures old(pendingVotes.timeoutCert) == null ==> ok && pendingVotes.timeoutCert.sigs.Keys == {vote.author}
      ensures tc != null ==> ok && TcHeld(cfg, w, tc.Cert()) && tc == pendingVotes.timeoutCert
      ensures ok ==>
        vote.author in pendingVotes.timeoutCert.sigs && (tc != null <==> |pendingVotes.timeoutCert.sigs| >= threshold)
      ensures inTimeout == (old(inTimeout) || (ok && tc == null && |pendingVotes.timeoutCert.sigs| > maxFaulty))
    {
      hide TcHeld, QcVerifies;
      var count;
      ok, tc, count := pendingVotes.InsertTimeoutVote(vote.author, vote.timeout, threshold, cfg, w);
      if ok && tc == null && count > maxFaulty && !inTimeout {
        inTimeout := true;
      }
    }

    /** Processes the certificates that a timeout message brings. */
    method ProcessCertificates(vote: TimeoutMsg, accepted: bool, ghost cfg: Config, ghost w: World)
      requires Valid() && Holds(cfg, w) && MsgVerifies(cfg, w, vote)
      modifies this, pendingVotes
      ensures Valid() && Holds(cfg, w)
      ensures currentRound == RoundAtRegistration(old(currentRound), vote, accepted) >= old(currentRound)
      ensures pendingVotes.timeoutCert ==
        if currentRound > old(currentRound) then null
        else old(pendingVotes.timeoutCert)
    {
      hide TcHeld, TcVerifies, TcSigned, QcVerifies;
      if accepted {
        var advanced := AdvanceRoundQC(Some(vote.timeout.highQc));
      }
      VerifiedIsHeld(cfg, w, vote.lastTc);
      AdvanceRoundTC(vote.lastTc);
    }

    /** Handles a timeout vote: stale ones and ones that do not verify are refused; otherwise its
        certificates are processed, then the vote is counted, and a certificate it completes is processed
        too.  `accepted` says whether the block store took the high QC. */
    method OnTimeoutMsg(vote: TimeoutMsg, verified: bool, accepted: bool, threshold: nat, maxFaulty: nat,
                        ghost cfg: Config, ghost w: World)
      returns (ok: bool, tc: VR.PartialTc?, ghost at: nat)
      requires Valid() && Holds(cfg, w) && threshold == cfg.threshold && (verified <==> MsgVerifies(cfg, w, vote))
      modifies this, pendingVotes, pendingVotes.timeoutCert
      ensures Valid() && Holds(cfg, w) && currentRound >= at >= old(currentRound)
      ensures vote.timeout.round < old(currentRound) || !verified ==>
        !ok && tc == null && currentRound == old(currentRound) &&
        pendingVotes.timeoutCert == old(pendingVotes.timeoutCert)
      ensures vote.timeout.round >= old(currentRound) && verified ==>
        at == RoundAtRegistration(old(currentRound), vote, accepted)
      ensures vote.timeout.round >= old(currentRound) && verified && accepted ==>
        (at == vote.timeout.round <==> TcRound(vote.lastTc) < vote.timeout.round)
      ensures currentRound == if tc == null then at else NextRound(at, tc.timeout.round)
      ensures currentRound > at ==> lastRoundTC == Some(tc.Cert()) && TcHeld(cfg, w, tc.Cert())
      ensures at > old(currentRound) ==> ok
      ensures at > old(currentRound) && tc == null ==>
        pendingVotes.timeoutCert != null && pendingVotes.timeoutCert.sigs.Keys == {vote.author}
    {
      hide TcHeld, TcVerifies, TcSigned, QcVerifies, RoundAtRegistration;
      at := currentRound;
      if vote.timeout.round < currentRound || !verified {
        return false, null, currentRound;
      }
      ProcessCertificates(vote, accepted, cfg, w);
      RegistrationRound(old(currentRound), vote);
      at := currentRound;
      VerifiedCounts(cfg, w, vote);
      ok, tc := RegisterTimeoutVote(vote, threshold, maxFaulty, cfg, w);
      if tc != null {
        AdvanceRoundTC(Some(tc.Cert()));
      }
    }
  }

  /** A timeout message that verifies, with its last TC. */
  ghost predicate MsgVerifies(cfg: Config, w: World, vote: TimeoutMsg)
  {
    && IsValidTimeout(vote) && vote.author in cfg.validators && QcVerifies(cfg, w, vote.timeout.highQc)
    && (vote.lastTc.Some? ==> TcVerifies(cfg, w, vote.lastTc.value))
    && var t := vote.timeout;
       TimeoutSig(vote.author, t.round, t.epoch, t.highQc.info.round) in w.timeouts
  }

  lemma VerifiedCounts(cfg: Config, w: World, vote: TimeoutMsg)
    requires MsgVerifies(cfg, w, vote)
    ensures VR.TimeoutVerifies(cfg, w, vote.author, vote.timeout)
  {
    hide QcVerifies, TcVerifies;
  }

  lemma VerifiedIsHeld(cfg: Config, w: World, tc: Option<TimeoutCert>)
    requires tc.Some? ==> TcVerifies(cfg, w, tc.value)
    ensures tc.Some? ==> TcHeld(cfg, w, tc.value)
  {
  }

  // ----- which round a timeout vote is counted in -----

  /** A timeout must come with a certificate for the round before it; the last TC is looked at only when
      the high QC is not that certificate. */
  predicate IsValidTimeout(vote: TimeoutMsg)
  {
    && vote.timeout.round > vote.timeout.highQc.info.round
    && (vote.timeout.round - 1 != vote.timeout.highQc.info.round ==>
        vote.lastTc.Some? && vote.lastTc.value.round == vote.timeout.round - 1)
  }

  function RoundAtRegistration(current: nat, vote: TimeoutMsg, accepted: bool): (round: nat)
  {
    var r := if accepted then NextRound(current, vote.timeout.highQc.info.round) else current;
    if vote.lastTc.Some? then NextRound(r, vote.lastTc.value.round) else r
  }

  /** A timeout vote is counted in its own round if and only if its last TC is older than that round. */
  lemma RegistrationRound(current: nat, vote: TimeoutMsg)
    requires IsValidTimeout(vote) && vote.timeout.round >= current
    ensures RoundAtRegistration(current, vote, true) == vote.timeout.round <==>
      TcRound(vote.lastTc) < vote.timeout.round
  {
  }

  /** A valid timeout vote for round 5 that brings a timeout certificate for round 7 is counted in round 8. */
  lemma CountedInAnotherRound(qc: QuorumCert, tc: TimeoutCert, author: Id)
    requires qc.info.round == 4 && tc.round == 7
    ensures var vote := TimeoutMsg(VR.Timeout(5, 0, qc), author, Some(tc));
      IsValidTimeout(vote) && RoundAtRegistration(5, vote, true) == 8
  {
  }

  // ----- whole runs between resets -----

  /** The round after a sequence of certificates. */
  function RoundAfter(start: nat, certs: seq<nat>): (round: nat)
  {
    if certs == [] then start else NextRound(RoundAfter(start, certs[..|certs| - 1]), certs[|certs| - 1])
  }

  predicate Advances(start: nat, certs: seq<nat>, i: nat)
    requires i < |certs|
  {
    certs[i] >= RoundAfter(start, certs[..i])
  }

  /** The round never goes back, and a certificate that advanced it once never does so again: the
      rounds of the advancing certificates are strictly increasing. */
  lemma {:induction false} RoundsAdvance(start: nat, certs: seq<nat>, i: nat, j: nat)
    requires i <= j <= |certs|
    ensures RoundAfter(start, certs[..i]) <= RoundAfter(start, certs[..j])
    ensures i < j && Advances(start, certs, i) ==> certs[i] < RoundAfter(start, certs[..j])
    ensures i < j < |certs| && Advances(start, certs, i) && Advances(start, certs, j) ==> certs[i] < certs[j]
    decreases j - i
  {
    if i < j {
      RoundsAdvance(start, certs, i, j - 1);
      assert certs[..j][..j - 1] == certs[..j - 1];
    }
  }
}
