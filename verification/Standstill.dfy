/** When the honest validators cannot go on.  Every validator makes its own timeout certificates by
    counting, and attaches the last one to everything it sends.  If that one does not verify, because its
    signatures carry too little stake or are for different epochs, nobody accepts anything from it any
    more.  One Byzantine validator is enough to do that to all honest ones. */
module Standstill {
  import opened Units
  import opened TrustBase
  import opened Consensus
  import opened Network
  import opened Progress
  import VR = VoteRegister
  import PM = Pacemaker

  ghost predicate Reachable(S: Setting, s: Net)
  {
    exists run :: NetRun(S, run) && run[|run| - 1] == s
  }

  lemma ReachOn(S: Setting, s: Net, e: Event)
    requires Reachable(S, s) && Possible(S, s, e)
    ensures Reachable(S, After(S, s, e))
  {
    hide Possible, Start;
    var run :| NetRun(S, run) && run[|run| - 1] == s;
    var run' := run + [After(S, s, e)];
    assert Moves(S, s, After(S, s, e));
    forall i | 0 <= i < |run'| - 1 ensures Moves(S, run'[i], run'[i + 1]) {
      if i < |run| - 1 {
        assert run'[i] == run[i] && run'[i + 1] == run[i + 1];
      }
    }
    assert NetRun(S, run') && run'[|run'| - 1] == After(S, s, e);
  }

  lemma ReachInv(S: Setting, s: Net)
    requires Reachable(S, s)
    ensures NetInv(S, s)
  {
    var run :| NetRun(S, run) && run[|run| - 1] == s;
    NetInvariant(S, run, |run| - 1);
  }

  // ----- nothing is accepted any more -----

  /** The certificate does not verify, whatever else is signed. */
  ghost predicate Never(cfg: Config, tc: TimeoutCert)
  {
    forall w :: !TcVerifies(cfg, w, tc)
  }

  ghost predicate NeverVerifies(cfg: Config, tc: Option<TimeoutCert>) { tc.Some? && Never(cfg, tc.value) }

  /** A validator in round 3 refuses the message. */
  ghost predicate Refused(S: Setting, m: Msg)
  {
    match m
    case Proposal(_, block, tc) => block.round < 3 || NeverVerifies(S.cfg, tc)
    case Ballot(vote, _) => vote.info.round < 3
    case Expiry(v) => v.timeout.round < 3 || NeverVerifies(S.cfg, v.lastTc)
  }

  /** The validator is in round 3 with a TC that does not verify. */
  ghost predicate IsJammed(S: Setting, n: Node)
  {
    n.round == 3 && NeverVerifies(S.cfg, n.lastTc) && n.highQc == GENESIS_QC && n.roundQc.None?
  }

  ghost predicate AllRefused(S: Setting, s: Net) { forall m :: m in s.sent ==> Refused(S, m) }

  ghost predicate AllJammed(S: Setting, s: Net)
  {
    AllRefused(S, s) && forall a :: a in s.nodes ==> IsJammed(S, s.nodes[a])
  }

  lemma JammedReacts(S: Setting, s: Net, e: Event)
    requires AllJammed(S, s) && IsHonest(e) && Possible(S, s, e)
    ensures var o := React(S, s, e);
      o.node == s.nodes[Actor(e)].(expiry := o.node.expiry) && forall m :: m in o.out ==> Refused(S, m)
  {
    hide QcVerifies, IsSafeToTimeout, VR.VoteVerifies;
    assert IsJammed(S, s.nodes[Actor(e)]);
    if e.Deliver? {
      assert Refused(S, e.msg);
    }
  }

  lemma StaysJammed(S: Setting, s: Net, e: Event)
    requires AllJammed(S, s) && IsHonest(e) && Possible(S, s, e)
    ensures AllJammed(S, After(S, s, e))
  {
    hide Refused, NeverVerifies, React;
    JammedReacts(S, s, e);
  }

  lemma {:induction false} PathJammed(S: Setting, path: seq<Net>, i: nat)
    requires HonestPath(S, path) && i < |path| && AllJammed(S, path[0])
    ensures AllJammed(S, path[i])
  {
    hide AllJammed, Possible;
    if i > 0 {
      PathJammed(S, path, i - 1);
      assert HonestMove(S, path[i - 1], path[i]);
      var e :| IsHonest(e) && Possible(S, path[i - 1], e) && path[i] == After(S, path[i - 1], e);
      StaysJammed(S, path[i - 1], e);
    }
  }

  lemma JammedForGood(S: Setting, s: Net)
    requires AllJammed(S, s)
    ensures !CanCommit(S, s)
  {
    hide HonestPath, AllRefused, NeverVerifies;
    forall s', a, r | CommitsNew(S, s, s', a, r) ensures false {
      var path :| Connects(S, s, path, s');
      PathNotEmpty(S, path);
      PathJammed(S, path, |path| - 1);
    }
  }

  lemma PathNotEmpty(S: Setting, path: seq<Net>)
    requires HonestPath(S, path)
    ensures |path| > 0
  {
  }

  // ----- how to get there -----

  function Epoch(z: Option<Id>, x: Id): (epoch: nat) { if z == Some(x) then 9 else 0 }

  /** The timeout vote for round 2. */
  function Timeout2(z: Option<Id>, x: Id): (v: PM.TimeoutMsg)
  {
    PM.TimeoutMsg(VR.Timeout(2, Epoch(z, x), GENESIS_QC), x, None)
  }

  /** As many validators as the threshold, with too little stake, or with a Byzantine one among them. */
  ghost predicate IsBad(S: Setting, q: set<Id>, z: Option<Id>)
  {
    && q <= S.cfg.validators && |q| == S.cfg.threshold >= 2
    && (z.Some? ==> z.value in q && z.value in S.cfg.byzantine)
    && (Stake(S.cfg, q) < S.cfg.threshold || z.Some?)
  }

  predicate IsPoison(tc: TimeoutCert, q: set<Id>, z: Option<Id>)
  {
    && tc.round == 2 && tc.highQc == GENESIS_QC && tc.sigs.Keys == q
    && forall x :: x in q ==> tc.sigs[x].epoch == Epoch(z, x)
  }

  lemma PoisonNever(S: Setting, tc: TimeoutCert, q: set<Id>, z: Option<Id>)
    requires IsBad(S, q, z) && IsPoison(tc, q, z)
    ensures Never(S.cfg, tc)
  {
    hide Stake;
    if z.Some? {
      var y := Another(q, z.value);
      assert tc.sigs[y].epoch == 0 && tc.sigs[z.value].epoch == 9;
    }
  }

  lemma Another(q: set<Id>, x: Id) returns (y: Id)
    requires x in q && |q| >= 2
    ensures y in q && y != x
  {
    if forall y :: y in q ==> y == x {
      assert forall y :: y in q ==> y in {x};
      SubsetSize(q, {x});
    }
    y :| y in q && y != x;
  }

  /** Nothing has happened but timeouts. */
  predicate IsFresh(n: Node)
  {
    n == Node(2, None, GENESIS_QC, None, map[], None, n.expiry)
  }

  predicate HasSent(s: Net, z: Option<Id>, x: Id)
  {
    Expiry(Timeout2(z, x)) in s.sent && Signed(Timeout2(z, x)) in s.w.timeouts
  }

  /** All but the rest have timed out in round 2. */
  ghost predicate Expiring(S: Setting, s: Net, q: set<Id>, z: Option<Id>, rest: set<Id>)
  {
    && Reachable(S, s) && AllRefused(S, s) && rest <= q
    && (forall a :: a in s.nodes ==> IsFresh(s.nodes[a]))
    && (forall x :: x in q && x !in rest ==> HasSent(s, z, x))
    && (forall x :: x in s.nodes && x in rest ==>
          s.nodes[x].expiry.None? && x in s.w.stored && s.w.stored[x] == Storage(GENESIS_ROUND, GENESIS_ROUND))
  }

  lemma ExpireOne(S: Setting, s: Net, q: set<Id>, z: Option<Id>, rest: set<Id>, x: Id) returns (s': Net)
    requires IsBad(S, q, z) && Expiring(S, s, q, z, rest) && x in rest
    ensures Expiring(S, s', q, z, rest - {x})
  {
    hide Stake, NodeOk, Start, Reachable;
    ReachInv(S, s);
    if x in s.nodes {
      ReachOn(S, s, RunOut(x));
      s' := After(S, s, RunOut(x));
      assert s'.sent == s.sent + {Expiry(Timeout2(z, x))};
    } else {
      assert x in S.cfg.byzantine && x in S.cfg.validators;
      ReachOn(S, s, Inject(Expiry(Timeout2(z, x))));
      s' := After(S, s, Inject(Expiry(Timeout2(z, x))));
    }
  }

  lemma {:induction false} ExpireAll(S: Setting, s: Net, q: set<Id>, z: Option<Id>, rest: set<Id>) returns (s': Net)
    requires IsBad(S, q, z) && Expiring(S, s, q, z, rest)
    ensures Expiring(S, s', q, z, {})
    decreases rest
  {
    hide Expiring;
    if x :| x in rest {
      var s1 := ExpireOne(S, s, q, z, rest, x);
      s' := ExpireAll(S, s1, q, z, rest - {x});
    } else {
      assert forall x :: x in rest ==> x in {};
      assert rest == {};
      s' := s;
    }
  }

  /** The validators of the rest are fresh, the others jammed. */
  ghost predicate Jamming(S: Setting, s: Net, q: set<Id>, z: Option<Id>, rest: set<Id>)
  {
    && Reachable(S, s) && AllRefused(S, s) && rest <= s.nodes.Keys
    && (forall x :: x in q ==> HasSent(s, z, x))
    && (forall a :: a in s.nodes ==> if a in rest then IsFresh(s.nodes[a]) else IsJammed(S, s.nodes[a]))
  }

  /** The validator has collected the timeouts of some of them. */
  predicate IsCollecting(n: Node, q: set<Id>, z: Option<Id>, some: set<Id>)
  {
    && some <= q && n == Node(2, None, GENESIS_QC, n.pending, map[], None, n.expiry)
    && if n.pending.None? then some == {} else IsPoison(n.pending.value, some, z)
  }

  ghost predicate JammingOne(S: Setting, s: Net, q: set<Id>, z: Option<Id>, rest: set<Id>, a: Id, some: set<Id>)
  {
    && Reachable(S, s) && AllRefused(S, s) && rest <= s.nodes.Keys && a in rest && IsCollecting(s.nodes[a], q, z, some)
    && (forall x :: x in q ==> HasSent(s, z, x))
    && (forall b :: b in s.nodes && b != a ==> if b in rest then IsFresh(s.nodes[b]) else IsJammed(S, s.nodes[b]))
  }

  lemma TimeoutCounts(S: Setting, s: Net, z: Option<Id>, x: Id)
    requires HasSent(s, z, x) && x in S.cfg.validators
    ensures PM.MsgVerifies(S.cfg, s.w, Timeout2(z, x)) && RootKnown(GENESIS_QC)
  {
  }

  lemma JamStep(S: Setting, a: Id, n: Node, q: set<Id>, z: Option<Id>, some: set<Id>, x: Id) returns (o: Outcome)
    requires IsBad(S, q, z) && IsCollecting(n, q, z, some) && |some| < S.cfg.threshold && x in q && x !in some
    ensures o == OnExpiry(S, a, n, Timeout2(z, x), 1)
    ensures |some| + 1 < S.cfg.threshold ==> IsCollecting(o.node, q, z, some + {x}) && o.out == {}
    ensures |some| + 1 >= S.cfg.threshold ==> IsJammed(S, o.node) && forall m :: m in o.out ==> Refused(S, m)
  {
    hide Stake, TcVerifies;
    o := OnExpiry(S, a, n, Timeout2(z, x), 1);
    var p := Collect(n.pending, Timeout2(z, x)).value;
    assert p.sigs.Keys == some + {x} && |p.sigs.Keys| == |p.sigs| && |some + {x}| == |some| + 1;
    assert IsPoison(p, some + {x}, z);
    if |some| + 1 >= S.cfg.threshold {
      AllOfThem(some + {x}, q);
      PoisonNever(S, p, q, z);
    }
  }

  lemma AllOfThem(some: set<Id>, q: set<Id>)
    requires some <= q && |some| >= |q|
    ensures some == q
  {
    assert q == some + (q - some);
    assert |q| == |some| + |q - some|;
  }

  lemma JamDeliver(S: Setting, s: Net, q: set<Id>, z: Option<Id>, rest: set<Id>, a: Id, some: set<Id>, x: Id)
    returns (s': Net)
    requires IsBad(S, q, z) && JammingOne(S, s, q, z, rest, a, some) && |some| < S.cfg.threshold && x in q && x !in some
    ensures |some| + 1 < S.cfg.threshold ==> JammingOne(S, s', q, z, rest, a, some + {x})
    ensures |some| + 1 >= S.cfg.threshold ==> Jamming(S, s', q, z, rest - {a})
  {
    hide Stake, Reachable, After, OnExpiry, Refused, NeverVerifies, IsCollecting, PM.MsgVerifies;
    TimeoutCounts(S, s, z, x);
    var e := Deliver(a, Expiry(Timeout2(z, x)), false, 1);
    assert s.nodes[a].round == 2 by {
      InRoundTwo(s.nodes[a], q, z, some);
    }
    var o := JamStep(S, a, s.nodes[a], q, z, some, x);
    Delivered(S, s, a, Timeout2(z, x));
    ReachOn(S, s, e);
    s' := After(S, s, e);
  }

  lemma InRoundTwo(n: Node, q: set<Id>, z: Option<Id>, some: set<Id>)
    requires IsCollecting(n, q, z, some)
    ensures n.round == 2
  {
  }

  lemma {:induction false} JamOne(S: Setting, s: Net, q: set<Id>, z: Option<Id>, rest: set<Id>, a: Id, some: set<Id>)
    returns (s': Net)
    requires IsBad(S, q, z) && JammingOne(S, s, q, z, rest, a, some) && |some| < S.cfg.threshold
    ensures Jamming(S, s', q, z, rest - {a})
    decreases S.cfg.threshold - |some|
  {
    hide JammingOne, Jamming, Stake;
    var x := NotYet(some, q);
    var s1 := JamDeliver(S, s, q, z, rest, a, some, x);
    assert |some + {x}| == |some| + 1;
    if |some| + 1 < S.cfg.threshold {
      s' := JamOne(S, s1, q, z, rest, a, some + {x});
    } else {
      s' := s1;
    }
  }

  lemma NotYet(some: set<Id>, q: set<Id>) returns (x: Id)
    requires |some| < |q|
    ensures x in q && x !in some
  {
    if forall x :: x in q ==> x in some {
      SubsetSize(q, some);
    }
    x :| x in q && x !in some;
  }

  lemma {:induction false} JamAll(S: Setting, s: Net, q: set<Id>, z: Option<Id>, rest: set<Id>) returns (s': Net)
    requires IsBad(S, q, z) && Jamming(S, s, q, z, rest)
    ensures Reachable(S, s') && AllJammed(S, s')
    decreases rest
  {
    hide Reachable, AllRefused, IsJammed;
    if a :| a in rest {
      assert IsCollecting(s.nodes[a], q, z, {});
      var s1 := JamOne(S, s, q, z, rest, a, {});
      s' := JamAll(S, s1, q, z, rest - {a});
    } else {
      s' := s;
    }
  }

  lemma StartAlone(S: Setting) returns (s: Net)
    ensures Start(S, s) && Reachable(S, s)
  {
    var w := World({}, {}, map a | a in S.cfg.validators :: Storage(GENESIS_ROUND, GENESIS_ROUND));
    s := Net(w, map a | a in Honests(S.cfg) :: Node(2, None, GENESIS_QC, None, map[], None, None), {});
    assert NetRun(S, [s]);
  }

  /** A bad set of timeouts can bring all honest validators to a standstill. */
  lemma CanJam(S: Setting, q: set<Id>, z: Option<Id>) returns (s: Net)
    requires IsBad(S, q, z)
    ensures Reachable(S, s) && AllJammed(S, s) && !CanCommit(S, s)
  {
    hide Reachable, CanCommit, Stake;
    var s0 := StartAlone(S);
    assert Expiring(S, s0, q, z, q);
    var s1 := ExpireAll(S, s0, q, z, q);
    assert Jamming(S, s1, q, z, s1.nodes.Keys);
    s := JamAll(S, s1, q, z, s1.nodes.Keys);
    JammedForGood(S, s);
  }

  // ----- too few validators -----

  /** What is sent in the first round. */
  predicate IsFirst(m: Msg)
  {
    match m
    case Proposal(_, block, tc) => block.round == 2 && block.qc == GENESIS_QC && tc.None?
    case Ballot(_, _) => true
    case Expiry(v) => v.timeout.round == 2 && v.timeout.highQc == GENESIS_QC && v.lastTc.None?
  }

  ghost predicate IsIdle(S: Setting, n: Node)
  {
    && n == Node(2, None, GENESIS_QC, n.pending, n.ballots, None, n.expiry)
    && (n.pending.Some? ==> n.pending.value.sigs.Keys <= S.cfg.validators) && n.ballots.Keys <= S.cfg.validators
  }

  /** Everybody is in the first round. */
  ghost predicate AllIdle(S: Setting, s: Net)
  {
    (forall m :: m in s.sent ==> IsFirst(m)) && forall a :: a in s.nodes ==> IsIdle(S, s.nodes[a])
  }

  lemma IdleCollects(S: Setting, a: Id, n: Node, v: PM.TimeoutMsg, time: nat)
    requires |S.cfg.validators| < S.cfg.threshold && IsIdle(S, n) && IsFirst(Expiry(v)) && v.author in S.cfg.validators
    ensures IsIdle(S, OnExpiry(S, a, n, v, time).node) && OnExpiry(S, a, n, v, time).out == {}
  {
    var p := Collect(n.pending, v);
    if p.Some? {
      assert p.value.sigs.Keys <= S.cfg.validators;
      SubsetSize(p.value.sigs.Keys, S.cfg.validators);
      assert |p.value.sigs.Keys| == |p.value.sigs|;
    }
  }

  lemma IdleCounts(S: Setting, a: Id, n: Node, vote: VR.VoteMsg, mature: bool, time: nat)
    requires |S.cfg.validators| < S.cfg.threshold && IsIdle(S, n) && vote.author in S.cfg.validators
    ensures IsIdle(S, OnBallot(S, a, n, vote, mature, time).node) && OnBallot(S, a, n, vote, mature, time).out == {}
  {
    var ballots := n.ballots[vote.author := vote];
    assert ballots.Keys <= S.cfg.validators;
    assert forall x :: x in Voters(ballots, vote.seal) ==> x in S.cfg.validators;
    SubsetSize(Voters(ballots, vote.seal), S.cfg.validators);
  }

  lemma IdleReacts(S: Setting, s: Net, e: Event)
    requires |S.cfg.validators| < S.cfg.threshold && AllIdle(S, s) && IsHonest(e) && Possible(S, s, e)
    ensures IsIdle(S, React(S, s, e).node) && forall m :: m in React(S, s, e).out ==> IsFirst(m)
  {
    hide QcVerifies, TcVerifies, IsSafeToVote, IsSafeToTimeout, OnExpiry, OnBallot;
    var n := s.nodes[Actor(e)];
    assert IsIdle(S, n);
    if e.Deliver? {
      assert IsFirst(e.msg);
      match e.msg
      case Proposal(_, _, _) =>
      case Ballot(vote, qc) =>
        if BallotVerifies(S, s.w, vote, qc) {
          IdleCounts(S, e.to, n, vote, e.mature, e.time);
        }
      case Expiry(v) =>
        if PM.MsgVerifies(S.cfg, s.w, v) {
          IdleCollects(S, e.to, n, v, e.time);
        }
    }
  }

  lemma {:induction false} PathIdle(S: Setting, path: seq<Net>, i: nat)
    requires |S.cfg.validators| < S.cfg.threshold && HonestPath(S, path) && i < |path| && AllIdle(S, path[0])
    ensures AllIdle(S, path[i])
  {
    hide IsIdle, IsFirst, Possible, React;
    if i > 0 {
      PathIdle(S, path, i - 1);
      assert HonestMove(S, path[i - 1], path[i]);
      var e :| IsHonest(e) && Possible(S, path[i - 1], e) && path[i] == After(S, path[i - 1], e);
      assert Actor(e) in path[i - 1].nodes by {
        ActorThere(S, path[i - 1], e);
      }
      IdleReacts(S, path[i - 1], e);
    }
  }

  lemma ActorThere(S: Setting, s: Net, e: Event)
    requires IsHonest(e) && Possible(S, s, e)
    ensures Actor(e) in s.nodes
  {
  }

  /** With fewer validators than the threshold there is no certificate. */
  lemma TooFew(S: Setting) returns (s: Net)
    requires |S.cfg.validators| < S.cfg.threshold
    ensures Reachable(S, s) && !CanCommit(S, s)
  {
    hide HonestPath, Reachable, IsFirst;
    s := StartAlone(S);
    assert AllIdle(S, s);
    forall s', a, r | CommitsNew(S, s, s', a, r) ensures false {
      var path :| Connects(S, s, path, s');
      PathNotEmpty(S, path);
      PathIdle(S, path, |path| - 1);
    }
  }

  // ----- where everybody is honest -----

  /** An honest timeout vote: for epoch zero, with a TC that is older than its round. */
  predicate IsProper(m: Msg)
  {
    m.Expiry? ==> m.timeout.timeout.epoch == 0 && PM.TcRound(m.timeout.lastTc) < m.timeout.timeout.round
  }

  ghost predicate AllProper(S: Setting, s: Net)
  {
    && Well(S, s, s.nodes.Keys) && forall m :: m in s.sent ==> IsProper(m)
  }

  lemma CollectUnspoilt(S: Setting, s: Net, a: Id, v: PM.TimeoutMsg, time: nat)
    requires CountsSuffice(S.cfg) && AllProper(S, s) && a in s.nodes && s.nodes[a].round <= v.timeout.round
    requires IsProper(Expiry(v)) && PM.MsgVerifies(S.cfg, s.w, v) && RootKnown(v.timeout.highQc)
    ensures Unspoilt(S, s.w, OnExpiry(S, a, s.nodes[a], v, time).node)
    ensures forall m :: m in OnExpiry(S, a, s.nodes[a], v, time).out ==> IsProper(m)
  {
    hide TcVerifies, CountsSuffice, TcCollected, AllProper, PM.MsgVerifies, TakeQc, EpochZero, Collect;
    var n1 := TakeTc(TakeQc(s.nodes[a], v.timeout.highQc), v.lastTc);
    Arrives(S, s, a, v, n1);
    var p := Collect(n1.pending, v);
    if p.Some? && |p.value.sigs| >= S.cfg.threshold {
      CountedVerifies(S, s.w, p.value);
    }
  }

  /** A proper timeout is collected in its own round. */
  lemma Arrives(S: Setting, s: Net, a: Id, v: PM.TimeoutMsg, n1: Node)
    requires AllProper(S, s) && a in s.nodes && s.nodes[a].round <= v.timeout.round
    requires IsProper(Expiry(v)) && PM.MsgVerifies(S.cfg, s.w, v) && RootKnown(v.timeout.highQc)
    requires n1 == TakeTc(TakeQc(s.nodes[a], v.timeout.highQc), v.lastTc)
    ensures Unspoilt(S, s.w, n1) && n1.round == v.timeout.round
    ensures var p := Collect(n1.pending, v);
      p.Some? ==> p.value.round == n1.round && EpochZero(p.value) && TcCollected(S.cfg, s.w, p.value)
  {
    hide TcHeld, QcVerifies, TcVerifies, HoldsBallots, HoldsExpiry, TcCollected, AllProper;
    ProperParts(S, s, a);
    var n := s.nodes[a];
    VerifiedIsHeld(S.cfg, s.w, v.timeout.highQc);
    PM.VerifiedIsHeld(S.cfg, s.w, v.lastTc);
    TakeKeeps(S, s.w, n, v.timeout.highQc, v.lastTc);
    TakeUnspoilt(S, s.w, n, v.timeout.highQc, v.lastTc);
    MovedKeeps(S, s.w, n, n1);
    PM.VerifiedCounts(S.cfg, s.w, v);
    if Collect(n1.pending, v).Some? {
      CollectOk(S, s.w, n1, v);
    }
  }

  lemma ProperParts(S: Setting, s: Net, a: Id)
    requires AllProper(S, s) && a in s.nodes
    ensures NetInv(S, s) && NodeOk(S, s, a, s.nodes[a]) && Unspoilt(S, s.w, s.nodes[a])
  {
  }

  lemma ProperReacts(S: Setting, s: Net, e: Event)
    requires CountsSuffice(S.cfg) && AllProper(S, s) && IsHonest(e) && Possible(S, s, e)
    ensures Unspoilt(S, s.w, React(S, s, e).node) && forall m :: m in React(S, s, e).out ==> IsProper(m)
  {
    hide QcVerifies, TcVerifies, IsSafeToVote, IsSafeToTimeout, OnExpiry, CountsSuffice, HoldsBallots, HoldsExpiry;
    ProperParts(S, s, Actor(e));
    var n := s.nodes[Actor(e)];
    if e.Deliver? {
      assert IsProper(e.msg);
      match e.msg
      case Proposal(author, block, tc) =>
        if ProposalVerifies(S, s.w, author, block, tc) {
          TakeUnspoilt(S, s.w, n, block.qc, tc);
        }
      case Ballot(_, _) =>
      case Expiry(v) =>
        if n.round <= v.timeout.round && PM.MsgVerifies(S.cfg, s.w, v) && RootKnown(v.timeout.highQc) {
          CollectUnspoilt(S, s, e.to, v, e.time);
        }
    }
  }

  lemma StaysProper(S: Setting, s: Net, e: Event)
    requires CountsSuffice(S.cfg) && AllHonest(S.cfg) && AllProper(S, s) && Possible(S, s, e)
    ensures AllProper(S, After(S, s, e))
  {
    hide NetInv, React, TcVerifies, IsProper, CountsSuffice;
    ProperReacts(S, s, e);
    EventKeeps(S, s, e);
    var s' := After(S, s, e);
    CertificatesLast(S.cfg, s.w, s'.w);
    forall b | b in s'.nodes ensures Unspoilt(S, s'.w, s'.nodes[b]) {
      if b != Actor(e) {
        assert Unspoilt(S, s.w, s.nodes[b]);
      }
    }
  }

  lemma {:induction false} RunProper(S: Setting, run: seq<Net>, i: nat)
    requires CountsSuffice(S.cfg) && AllHonest(S.cfg) && NetRun(S, run) && i < |run|
    ensures AllProper(S, run[i])
  {
    hide AllProper, Possible, CountsSuffice;
    if i > 0 {
      RunProper(S, run, i - 1);
      assert Moves(S, run[i - 1], run[i]);
      var e :| Possible(S, run[i - 1], e) && run[i] == After(S, run[i - 1], e);
      StaysProper(S, run[i - 1], e);
    } else {
      StartProper(S, run[0]);
    }
  }

  lemma StartProper(S: Setting, s: Net)
    requires Start(S, s)
    ensures AllProper(S, s)
  {
    hide NetInv;
    StartOk(S, s);
  }

  // ----- the exact condition -----

  lemma {:induction false} SomeOf(s: set<Id>, z: Id, k: nat) returns (q: set<Id>)
    requires z in s && 1 <= k <= |s|
    ensures z in q && q <= s && |q| == k
    decreases |s|
  {
    if |s| == k {
      q := s;
    } else {
      var y := Another(s, z);
      assert |s - {y}| == |s| - 1;
      q := SomeOf(s - {y}, z, k);
    }
  }

  /** Honest validators that can always go on by themselves. */
  lemma HonestGoOn(S: Setting)
    requires S.cfg.threshold >= 2 && AllHonest(S.cfg) && |S.cfg.validators| >= S.cfg.threshold && CountsSuffice(S.cfg)
    requires forall r: nat :: S.leader(r) in S.cfg.validators
    ensures AlwaysGoesOn(S)
  {
    hide CountsSuffice, CanCommit;
    var g := Honests(S.cfg);
    EverybodyHonest(S.cfg);
    forall m: nat ensures LeadersAfter(S, g, m) {
      assert LeadersIn(S, g, m + 1);
    }
    forall run | NetRun(S, run) ensures CanCommit(S, run[|run| - 1]) {
      RunProper(S, run, |run| - 1);
      NeverStuck(S, g, run[|run| - 1]);
    }
  }

  lemma EverybodyHonest(cfg: Config)
    requires AllHonest(cfg)
    ensures Honests(cfg) == cfg.validators
  {
    forall a | a in cfg.validators ensures a in Honests(cfg) {
    }
  }

  /** Otherwise they can get stuck. */
  lemma CanGetStuck(S: Setting) returns (s: Net)
    requires S.cfg.threshold >= 2
    requires !(AllHonest(S.cfg) && |S.cfg.validators| >= S.cfg.threshold && CountsSuffice(S.cfg))
    ensures Reachable(S, s) && !CanCommit(S, s)
  {
    hide Reachable, CanCommit, Stake;
    if |S.cfg.validators| < S.cfg.threshold {
      s := TooFew(S);
    } else if z :| z in S.cfg.byzantine && z in S.cfg.validators {
      var q := SomeOf(S.cfg.validators, z, S.cfg.threshold);
      s := CanJam(S, q, Some(z));
    } else {
      assert AllHonest(S.cfg);
      var light :| light <= S.cfg.validators && |light| >= S.cfg.threshold && Stake(S.cfg, light) < S.cfg.threshold;
      var y := NotYet({}, light);
      var q := SomeOf(light, y, S.cfg.threshold);
      StakeGrows(S.cfg, q, light);
      s := CanJam(S, q, None);
    }
  }

  /** The validators can always go on by themselves, from every point of every run, if and only if all of
      them are honest, they are enough by number, and enough by number is enough by stake. */
  lemma ProgressExactly(S: Setting)
    requires S.cfg.threshold >= 2 && forall r: nat :: S.leader(r) in S.cfg.validators
    ensures AlwaysGoesOn(S) <==>
      AllHonest(S.cfg) && |S.cfg.validators| >= S.cfg.threshold && CountsSuffice(S.cfg)
  {
    hide CountsSuffice, CanCommit, AllHonest, Start, Moves;
    if AllHonest(S.cfg) && |S.cfg.validators| >= S.cfg.threshold && CountsSuffice(S.cfg) {
      HonestGoOn(S);
    } else {
      var s := CanGetStuck(S);
      var run :| NetRun(S, run) && run[|run| - 1] == s;
      assert !CanCommit(S, run[|run| - 1]);
    }
  }

  /** Four validators with a stake of one, of which one is Byzantine. */
  const FOUR := Config(map[1 := 1, 2 := 1, 3 := 1, 4 := 1], {4}, 3)

  lemma FourStakes()
    ensures QuorumsMeet(FOUR) && EveryoneHasStake(FOUR) && Stake(FOUR, Honests(FOUR)) >= FOUR.threshold
  {
    hide Stake;
    CountWithinStake(FOUR, {4});
    CountWithinStake(FOUR, {1, 2, 3});
    StakeUnion(FOUR, {1, 2, 3}, {4});
    assert FOUR.validators == {1, 2, 3} + {4} && Honests(FOUR) == {1, 2, 3};
  }

  /** There everything that safety needs is given, and three honest validators are enough in every way; but
      after the Byzantine one has signed one timeout for another epoch, everybody can be jammed. */
  lemma OneIsEnough(S: Setting) returns (s: Net)
    requires S.cfg == FOUR
    ensures EveryQuorumMeets(FOUR, true) && CountsSuffice(FOUR) && |Honests(FOUR)| >= FOUR.threshold
    ensures Reachable(S, s) && AllJammed(S, s) && !CanCommit(S, s)
  {
    hide Stake, EveryQuorumMeets, CountsSuffice, Reachable, AllJammed, CanCommit;
    FourStakes();
    StakedQuorumsMeet(FOUR);
    assert Honests(FOUR) == {1, 2, 3};
    s := CanJam(S, {1, 2, 4}, Some(4));
  }
}
