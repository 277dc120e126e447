/** Collecting votes and timeouts of a round into certificates.

    The signature sets are objects: a certificate that was handed out shares its set with the
    register, which may still add to it, and clearing the register must not touch it. */
module VoteRegister {
  import opened Units
  import opened Consensus
  import opened TrustBase

  class Signatures {
    ghost const seal: Seal
    var authors: set<Id>

    constructor (seal: Seal)
      ensures this.seal == seal && authors == {}
    {
      this.seal := seal;
      authors := {};
    }
  }

  datatype VoteMsg = VoteMsg(info: RoundInfo, seal: Seal, author: Id)

  datatype ConsensusWithSignatures = ConsensusWithSignatures(info: RoundInfo, seal: Seal, signatures: Signatures)

  datatype InsertError = Duplicate | Equivocating

  datatype Inserted = Registered | Quorum(cert: ConsensusWithSignatures) | Refused(error: InsertError)

  /** A vote message that verifies. */
  predicate VoteVerifies(cfg: Config, w: World, vote: VoteMsg)
  {
    InfoIsValid(vote.info) && vote.seal.infoHash == HashOf(vote.info) && vote.author in cfg.validators &&
    VoteSig(vote.author, vote.seal) in w.votes
  }

  ghost function QcOf(c: ConsensusWithSignatures): (qc: QuorumCert)
    reads c.signatures
  {
    QuorumCert(c.info, c.seal, c.signatures.authors)
  }

  /** All signatures in the set are real. */
  ghost predicate Backed(cfg: Config, w: World, s: Signatures)
    reads s
  {
    s.authors <= cfg.validators && forall a :: a in s.authors ==> VoteSig(a, s.seal) in w.votes
  }

  /** A timeout vote as received: what is signed, and the high QC it refers to. */
  datatype Timeout = Timeout(round: nat, epoch: nat, highQc: QuorumCert)

  /** A timeout vote that verifies; it came with a certificate for the round before. */
  ghost predicate TimeoutVerifies(cfg: Config, w: World, author: Id, t: Timeout)
  {
    && author in cfg.validators && QcVerifies(cfg, w, t.highQc) && Follows(cfg, w, t.round, t.highQc.info.round)
    && TimeoutSig(author, t.round, t.epoch, t.highQc.info.round) in w.timeouts
  }

  class PartialTc {
    var timeout: Timeout
    var sigs: map<Id, TimeoutVote>

    constructor (timeout: Timeout)
      ensures this.timeout == timeout && sigs == map[]
    {
      this.timeout := timeout;
      sigs := map[];
    }

    function Cert(): (tc: TimeoutCert)
      reads this
    {
      TimeoutCert(timeout.round, timeout.epoch, timeout.highQc, sigs)
    }

    /** The collected signatures are real, and the kept high QC is the highest one reported. */
    ghost predicate Collected(cfg: Config, w: World)
      reads this
    {
      sigs != map[] ==> TcCollected(cfg, w, Cert())
    }

    /** Adds a timeout vote; refused for another round or a known author. */
    method Add(author: Id, t: Timeout, ghost cfg: Config, ghost w: World) returns (ok: bool)
      requires Collected(cfg, w) && (sigs == map[] ==> timeout == t) && TimeoutVerifies(cfg, w, author, t)
      modifies this
      ensures Collected(cfg, w) && timeout.round == old(timeout.round)
      ensures ok <==> t.round == old(timeout.round) && author !in old(sigs)
      ensures !ok ==> timeout == old(timeout) && sigs == old(sigs)
      ensures ok ==> sigs == old(sigs)[author := TimeoutVote(t.highQc.info.round, t.epoch)]
      ensures ok ==> timeout == if t.highQc.info.round > old(timeout.highQc.info.round) then t else old(timeout)
    {
      hide QcVerifies;
      if timeout.round != t.round || author in sigs {
        return false;
      }
      ghost var top := timeout.highQc.info.round;
      ghost var before := sigs;
      var h := t.highQc.info.round;
      if h > timeout.highQc.info.round {
        timeout := t;
      }
      sigs := sigs[author := TimeoutVote(h, t.epoch)];
      if before != map[] && h <= top {
        var a :| a in before && before[a].hqcRound == top;
        assert sigs[a].hqcRound == top;
      } else {
        assert sigs[author].hqcRound == timeout.highQc.info.round;
      }
      ok := true;
    }
  }

  class Register {
    var hashToSignatures: map<Seal, ConsensusWithSignatures>
    var timeoutCert: PartialTc?
    var authorToVote: map<Id, Seal>

    /** Who has voted for a seal. */
    ghost function Voters(seal: Seal): (s: set<Id>)
      reads this
    {
      set a | a in authorToVote && authorToVote[a] == seal
    }

    ghost function Sets(): (r: set<Signatures>)
      reads this
    {
      set seal | seal in hashToSignatures :: hashToSignatures[seal].signatures
    }

    /** Every author counts once, for the seal of its first vote. */
    ghost predicate Valid()
      reads this, Sets(), timeoutCert
    {
      && (forall a :: a in authorToVote ==> authorToVote[a] in hashToSignatures)
      && (forall s :: s in hashToSignatures ==>
            hashToSignatures[s].seal == s && hashToSignatures[s].signatures.seal == s &&
            hashToSignatures[s].signatures.authors == Voters(s))
      && (timeoutCert != null ==> timeoutCert.sigs != map[])
    }

    constructor ()
      ensures Valid() && hashToSignatures == map[] && authorToVote == map[] && timeoutCert == null
    {
      hashToSignatures, authorToVote, timeoutCert := map[], map[], null;
    }

    /** Every entry holds real signatures for its seal and the round info the seal refers to. */
    ghost predicate AllBacked(cfg: Config, w: World)
      reads this, Sets()
    {
      forall s :: s in hashToSignatures ==>
        Backed(cfg, w, hashToSignatures[s].signatures) && InfoIsValid(hashToSignatures[s].info) &&
        s.infoHash == HashOf(hashToSignatures[s].info)
    }

    /** The timeouts collected so far are real. */
    ghost predicate TimeoutsBacked(cfg: Config, w: World)
      reads this, timeoutCert
    {
      timeoutCert != null ==> TcCollected(cfg, w, timeoutCert.Cert())
    }

    /** Makes an entry without signatures for a seal not seen before. */
    method AddEntry(vote: VoteMsg, ghost cfg: Config, ghost w: World)
      requires Valid() && AllBacked(cfg, w) && VoteVerifies(cfg, w, vote)
      modifies this`hashToSignatures
      ensures Valid() && AllBacked(cfg, w) && vote.seal in hashToSignatures
      ensures forall o :: o in Sets() ==> o in old(Sets()) || fresh(o)
      ensures old(Sets()) <= Sets()
      ensures forall s :: s in hashToSignatures ==>
        if s in old(hashToSignatures) then hashToSignatures[s] == old(hashToSignatures)[s]
        else s == vote.seal && hashToSignatures[s].info == vote.info
    {
      if vote.seal !in hashToSignatures {
        assert forall a :: a in authorToVote ==> authorToVote[a] != vote.seal;
        assert Voters(vote.seal) == {};
        var sigs := new Signatures(vote.seal);
        hashToSignatures := hashToSignatures[vote.seal := ConsensusWithSignatures(vote.info, vote.seal, sigs)];
        forall o | o in old(Sets()) ensures o in Sets() {
          var s :| s in old(hashToSignatures) && old(hashToSignatures)[s].signatures == o;
          assert hashToSignatures[s].signatures == o;
        }
      }
    }

    /** Records the author's vote and adds the signature. */
    method AddSignature(vote: VoteMsg, ghost cfg: Config, ghost w: World) returns (quorum: ConsensusWithSignatures)
      requires Valid() && AllBacked(cfg, w) && VoteVerifies(cfg, w, vote)
      requires vote.seal in hashToSignatures && vote.author !in authorToVote
      modifies this`authorToVote, hashToSignatures[vote.seal].signatures
      ensures Valid() && AllBacked(cfg, w) && authorToVote == old(authorToVote)[vote.author := vote.seal]
      ensures vote.seal in hashToSignatures && quorum == hashToSignatures[vote.seal]
      ensures quorum.signatures.authors == old(quorum.signatures.authors) + {vote.author}
    {
      ghost var voters := Voters(vote.seal);
      authorToVote := authorToVote[vote.author := vote.seal];
      quorum := hashToSignatures[vote.seal];
      quorum.signatures.authors := quorum.signatures.authors + {vote.author};
      assert Voters(vote.seal) == voters + {vote.author};
      forall s | s in hashToSignatures && s != vote.seal ensures hashToSignatures[s].signatures.authors == Voters(s) {
        assert Voters(s) == old(Voters(s));
      }
    }

    /** Counts a vote.  An author's second vote is refused and changes nothing; a certificate is made
        exactly when enough authors have voted for the same seal.  The register counts authors and
        verification adds up their stakes, so the certificate verifies exactly when those suffice. */
    method InsertVote(vote: VoteMsg, threshold: nat, ghost cfg: Config, ghost w: World) returns (r: Inserted)
      requires Valid() && AllBacked(cfg, w) && threshold == cfg.threshold && VoteVerifies(cfg, w, vote)
      modifies this`hashToSignatures, this`authorToVote, Sets()
      ensures Valid() && AllBacked(cfg, w)
      ensures r.Refused? <==> vote.author in old(authorToVote)
      ensures r.Refused? ==> authorToVote == old(authorToVote) && hashToSignatures == old(hashToSignatures)
      ensures r.Refused? ==> r.error == if old(authorToVote)[vote.author] == vote.seal then Duplicate else Equivocating
      ensures forall o :: o in old(Sets()) ==>
        (old(o.authors) <= o.authors && (r.Refused? ==> o.authors == old(o.authors)))
      ensures !r.Refused? ==> authorToVote == old(authorToVote)[vote.author := vote.seal]
      ensures forall s :: s in hashToSignatures ==>
        if s in old(hashToSignatures) then hashToSignatures[s] == old(hashToSignatures)[s]
        else s == vote.seal && hashToSignatures[s].info == vote.info
      ensures r.Quorum? <==> !r.Refused? && |Voters(vote.seal)| >= threshold
      ensures r.Quorum? ==>
        QcOf(r.cert).signers == Voters(vote.seal) && r.cert.seal == vote.seal && r.cert.info.round == vote.info.round
      ensures r.Quorum? ==> QcHeld(cfg, w, QcOf(r.cert))
      ensures r.Quorum? ==>
        (QcVerifies(cfg, w, QcOf(r.cert)) <==>
           vote.info.round == GENESIS_ROUND || Stake(cfg, Voters(vote.seal)) >= threshold)
    {
      if vote.author in authorToVote {
        return Refused(if authorToVote[vote.author] == vote.seal then Duplicate else Equivocating);
      }
      AddEntry(vote, cfg, w);
      var quorum := AddSignature(vote, cfg, w);
      if |quorum.signatures.authors| >= threshold {
        return Quorum(quorum);
      }
      return Registered;
    }

    /** Counts a timeout vote.  A certificate is made from enough signers on; it verifies exactly when their
        stakes suffice and all of them signed the epoch of the timeout that is kept. */
    method InsertTimeoutVote(author: Id, t: Timeout, threshold: nat, ghost cfg: Config, ghost w: World)
      returns (ok: bool, tc: PartialTc?, count: nat)
      requires Valid() && TimeoutsBacked(cfg, w) && threshold == cfg.threshold && TimeoutVerifies(cfg, w, author, t)
      modifies this`timeoutCert, timeoutCert
      ensures Valid() && TimeoutsBacked(cfg, w)
      ensures timeoutCert == old(timeoutCert) || (old(timeoutCert) == null && fresh(timeoutCert))
      ensures ok <==>
        old(timeoutCert) == null || (old(timeoutCert.timeout.round) == t.round && author !in old(timeoutCert.sigs))
      ensures timeoutCert != null && (!ok ==> timeoutCert.sigs == old(timeoutCert.sigs))
      ensures ok ==> var before := if old(timeoutCert) == null then map[] else old(timeoutCert.sigs);
        timeoutCert.sigs == before[author := TimeoutVote(t.highQc.info.round, t.epoch)]
      ensures timeoutCert.timeout.round == if old(timeoutCert) == null then t.round else old(timeoutCert.timeout.round)
      ensures ok ==>
        count == |timeoutCert.sigs| && (tc != null <==> count >= threshold) && (tc != null ==> tc == timeoutCert)
      ensures !ok ==> tc == null && count == 0
      ensures tc != null ==> TcHeld(cfg, w, tc.Cert())
      ensures tc != null ==> (TcVerifies(cfg, w, tc.Cert()) <==>
        Stake(cfg, tc.sigs.Keys) >= threshold && forall a :: a in tc.sigs ==> tc.sigs[a].epoch == tc.timeout.epoch)
    {
      hide TcSigned, Stake;
      if timeoutCert == null {
        timeoutCert := new PartialTc(t);
      }
      ok := timeoutCert.Add(author, t, cfg, w);
      if !ok {
        return false, null, 0;
      }
      count := |timeoutCert.sigs|;
      tc := if count >= threshold then timeoutCert else null;
      assert |timeoutCert.sigs.Keys| == count;
    }

    /** Starts a new round; sets that belong to certificates handed out are left alone. */
    method Reset()
      modifies this
      ensures Valid() && hashToSignatures == map[] && authorToVote == map[] && timeoutCert == null
    {
      hashToSignatures, authorToVote, timeoutCert := map[], map[], null;
    }
  }

  /** A certificate that was handed out stays good when its signature set grows by real signatures. */
  lemma CertificateGrows(cfg: Config, w: World, qc: QuorumCert, more: set<Id>)
    requires QcVerifies(cfg, w, qc) && qc.signers <= more <= cfg.validators
    requires forall a :: a in more ==> VoteSig(a, qc.seal) in w.votes
    ensures QcVerifies(cfg, w, qc.(signers := more))
  {
    StakeGrows(cfg, qc.signers, more);
  }

  /** The same for one that was only counted. */
  lemma HeldGrows(cfg: Config, w: World, qc: QuorumCert, more: set<Id>)
    requires QcHeld(cfg, w, qc) && qc.signers <= more <= cfg.validators
    requires forall a :: a in more ==> VoteSig(a, qc.seal) in w.votes
    ensures QcHeld(cfg, w, qc.(signers := more))
  {
    StakeGrows(cfg, qc.signers, more);
    SubsetSize(qc.signers, more);
  }
}
