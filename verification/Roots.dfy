/** What certificates certify: in every run of the network, where quorums meet, the state root that executing
    a proposed block leads to.  So a validator that has the block accepts the certificate. */
module Roots {
  import opened Units
  import opened TrustBase
  import opened Consensus
  import opened Network
  import BlockStore

  ghost predicate Proposed(s: Net, b: Block)
  {
    exists m :: m in s.sent && m.Proposal? && m.block == b
  }

  /** The vote is for a block that was proposed, with the state root that its execution leads to. */
  ghost predicate IsFor(S: Setting, s: Net, v: VoteSig, b: Block)
  {
    Proposed(s, b) && Says(v.seal, b, S.execute(b)) && QcVerifies(S.cfg, s.w, b.qc)
  }

  ghost predicate IsForSome(S: Setting, s: Net, v: VoteSig) { exists b :: IsFor(S, s, v, b) }

  ghost predicate VotesAreReal(S: Setting, s: Net)
  {
    forall v :: v in s.w.votes && Honest(S.cfg, v.author) ==> IsForSome(S, s, v)
  }

  lemma VoteLasts(S: Setting, s: Net, s': Net, v: VoteSig)
    requires Grows(s, s') && IsForSome(S, s, v)
    ensures IsForSome(S, s', v)
  {
    hide QcVerifies;
    CertificatesLast(S.cfg, s.w, s'.w);
    var b :| IsFor(S, s, v, b);
    var m :| m in s.sent && m.Proposal? && m.block == b;
    assert m in s'.sent;
    assert IsFor(S, s', v, b);
  }

  /** The only votes that an honest validator makes are for a proposal that it has received and verified. */
  lemma NewVote(S: Setting, s: Net, e: Event, v: VoteSig)
    requires NetInv(S, s) && Possible(S, s, e) && v in After(S, s, e).w.votes && v !in s.w.votes
    requires Honest(S.cfg, v.author)
    ensures IsForSome(S, After(S, s, e), v)
  {
    hide NetInv, QcVerifies, TcVerifies;
    EventKeeps(S, s, e);
    var s' := After(S, s, e);
    CertificatesLast(S.cfg, s.w, s'.w);
    assert e.Deliver? && e.msg.Proposal?;
    assert e.msg in s'.sent;
    assert IsFor(S, s', v, e.msg.block);
  }

  /** In every run of the network every vote of an honest validator is for a block that was proposed, and says what
      its execution led to. */
  lemma {:induction false} HonestVotesReal(S: Setting, run: seq<Net>, i: nat)
    requires NetRun(S, run) && i < |run|
    ensures VotesAreReal(S, run[i])
  {
    hide NetInv, Possible, IsForSome;
    if i > 0 {
      HonestVotesReal(S, run, i - 1);
      NetInvariant(S, run, i - 1);
      assert Moves(S, run[i - 1], run[i]);
      var e :| Possible(S, run[i - 1], e) && run[i] == After(S, run[i - 1], e);
      EventKeeps(S, run[i - 1], e);
      forall v | v in run[i].w.votes && Honest(S.cfg, v.author) ensures IsForSome(S, run[i], v) {
        if v in run[i - 1].w.votes {
          VoteLasts(S, run[i - 1], run[i], v);
        } else {
          NewVote(S, run[i - 1], e, v);
        }
      }
    }
  }

  /** The certificate is for the block, with the state root that its execution leads to. */
  ghost predicate Certifies(S: Setting, qc: QuorumCert, b: Block)
  {
    qc.seal.infoHash == HashOf(qc.info) && Says(qc.seal, b, S.execute(b))
  }

  /** Every certificate after genesis is for a block that was proposed, and certifies what its execution leads to. */
  lemma CertifiedIsExecuted(S: Setting, run: seq<Net>, i: nat, qc: QuorumCert, counted: bool) returns (b: Block)
    requires EveryQuorumMeets(S.cfg, counted) && NetRun(S, run) && i < |run|
    requires QcKnown(S.cfg, run[i].w, qc, counted) && qc.info.round > GENESIS_ROUND
    ensures Proposed(run[i], b) && Certifies(S, qc, b) && QcVerifies(S.cfg, run[i].w, b.qc)
  {
    hide EveryQuorumMeets, Run, QcVerifies, QcHeld, Inv;
    var worlds, at := Refines(S, run);
    Invariant(S.cfg, worlds, at[i]);
    var v := HonestSigner(S.cfg, run[i].w, qc, counted);
    KnownByQuorum(S.cfg, run[i].w, qc, counted);
    HonestVotesReal(S, run, i);
    assert IsForSome(S, run[i], v);
    b :| IsFor(S, run[i], v, b);
  }

  /** What is committed after genesis is what the execution of a proposed block of that round leads to. */
  lemma CommittedIsExecuted(S: Setting, run: seq<Net>, i: nat, qc: QuorumCert, r: nat, counted: bool) returns (b: Block)
    requires EveryQuorumMeets(S.cfg, counted) && NetRun(S, run) && i < |run|
    requires Commits(S.cfg, run[i].w, qc, r, counted) && r > GENESIS_ROUND
    ensures Proposed(run[i], b) && b.round == r && qc.seal.hash == S.execute(b)
    ensures qc.seal.epoch == b.epoch && qc.seal.timestamp == b.timestamp
  {
    hide EveryQuorumMeets, QcVerifies;
    var child := CertifiedIsExecuted(S, run, i, qc, counted);
    b := CertifiedIsExecuted(S, run, i, child.qc, counted);
    CertifiedSays(S.cfg, run[i].w, child.qc);
  }

  lemma CertifiedSays(cfg: Config, w: World, qc: QuorumCert)
    requires QcVerifies(cfg, w, qc)
    ensures qc.seal.infoHash == HashOf(qc.info)
  {
  }

  /** The tree has the block, executed, and its parent with the state root that the block's certificate says. */
  ghost predicate Holds(S: Setting, t: BlockStore.BlockTree, b: Block)
    reads t
  {
    && b.round in t.blocks && t.blocks[b.round].rootHash == S.execute(b)
    && b.qc.info.round in t.blocks && t.blocks[b.qc.info.round].rootHash == b.qc.info.root
  }

  /** A validator that has the block does not refuse its certificate. */
  lemma CertifiedIsAccepted(S: Setting, t: BlockStore.BlockTree, qc: QuorumCert, b: Block)
    requires Certifies(S, qc, b) && Holds(S, t, b)
    ensures t.Accepts(qc)
  {
  }
}
