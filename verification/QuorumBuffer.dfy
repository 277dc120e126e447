/** Certification requests of a shard: the nodes' votes are counted until one request has a majority or
    none can get one any more. */
module QuorumBuffer {
  import opened Units

  type NodeId = int

  /** What is certified: input record, block size and state size. */
  datatype Content = Content(inputRecord: int, blockSize: nat, stateSize: nat)

  datatype Request = Request(node: NodeId, content: Content)

  datatype Status = Unknown | InProgress | Achieved | NotPossible

  /** First request of every node. */
  type Votes = map<NodeId, Content>

  function Quorum(total: nat): (q: nat) { total / 2 + 1 }

  ghost function Voters(votes: Votes, c: Content): (s: set<NodeId>)
  {
    set n | n in votes && votes[n] == c
  }

  ghost predicate Majority(votes: Votes, nodes: set<NodeId>, c: Content)
  {
    |Voters(votes, c)| >= Quorum(|nodes|)
  }

  /** More votes, from nodes that have not voted. */
  ghost predicate Completes(later: Votes, votes: Votes, nodes: set<NodeId>)
  {
    later.Keys <= nodes && forall n :: n in votes ==> n in later && later[n] == votes[n]
  }

  /** The decision, without any counting. */
  ghost predicate IsStatus(st: Status, votes: Votes, nodes: set<NodeId>)
  {
    match st
    case Achieved => exists c :: Majority(votes, nodes, c)
    case NotPossible => forall later, c :: Completes(later, votes, nodes) ==> !Majority(later, nodes, c)
    case InProgress =>
      && (forall c :: !Majority(votes, nodes, c))
      && (exists later, c :: Completes(later, votes, nodes) && Majority(later, nodes, c))
    case Unknown => false
  }

  // ----- counting -----

  /** A request wins if and only if more than half of the nodes sent it. */
  lemma MajorityExactly(votes: Votes, nodes: set<NodeId>, c: Content)
    ensures Majority(votes, nodes, c) <==> 2 * |Voters(votes, c)| > |nodes|
  {
  }

  /** At most one request has a majority. */
  lemma MajorityIsUnique(votes: Votes, nodes: set<NodeId>, c: Content, d: Content)
    requires votes.Keys <= nodes && Majority(votes, nodes, c) && Majority(votes, nodes, d)
    ensures c == d
  {
    if c != d {
      var x, y := Voters(votes, c), Voters(votes, d);
      assert x !! y && x + y <= nodes;
      SubsetSize(x + y, nodes);
    }
  }

  /** What the nodes that have not voted can add. */
  lemma CompletionBound(later: Votes, votes: Votes, nodes: set<NodeId>, c: Content)
    requires Completes(later, votes, nodes) && votes.Keys <= nodes
    ensures |Voters(later, c)| <= |Voters(votes, c)| + |nodes| - |votes.Keys|
  {
    var rest := nodes - votes.Keys;
    assert forall n :: n in Voters(later, c) ==> n in Voters(votes, c) || n in rest;
    SubsetSize(Voters(later, c), Voters(votes, c) + rest);
    Remaining(votes.Keys, nodes);
  }

  lemma Remaining(voted: set<NodeId>, nodes: set<NodeId>)
    requires voted <= nodes
    ensures |nodes - voted| == |nodes| - |voted|
  {
    assert nodes == (nodes - voted) + voted;
  }

  /** The bound is reached when all of them follow. */
  lemma CompletionReached(votes: Votes, nodes: set<NodeId>, c: Content) returns (later: Votes)
    requires votes.Keys <= nodes
    ensures Completes(later, votes, nodes) && |Voters(later, c)| == |Voters(votes, c)| + |nodes| - |votes.Keys|
  {
    var rest := nodes - votes.Keys;
    later := map n | n in nodes :: if n in votes then votes[n] else c;
    assert Voters(later, c) == Voters(votes, c) + rest;
    Remaining(votes.Keys, nodes);
  }

  /** The three-way test on the largest count is exact. */
  lemma CountingIsExact(votes: Votes, nodes: set<NodeId>, top: Content)
    requires votes.Keys <= nodes && forall c :: |Voters(votes, c)| <= |Voters(votes, top)|
    ensures var most := |Voters(votes, top)|;
      IsStatus(if most >= Quorum(|nodes|) then Achieved
               else if |nodes| - |votes.Keys| + most < Quorum(|nodes|) then NotPossible
               else InProgress, votes, nodes)
  {
    var most := |Voters(votes, top)|;
    if most >= Quorum(|nodes|) {
      assert Majority(votes, nodes, top);
    } else if |nodes| - |votes.Keys| + most < Quorum(|nodes|) {
      forall later, c | Completes(later, votes, nodes) ensures !Majority(later, nodes, c) {
        CompletionBound(later, votes, nodes, c);
      }
    } else {
      var later := CompletionReached(votes, nodes, top);
      assert Majority(later, nodes, top);
    }
  }

  /** There is exactly one right answer, so the order in which requests are looked at does not matter. */
  lemma StatusIsUnique(votes: Votes, nodes: set<NodeId>, s: Status, t: Status)
    requires votes.Keys <= nodes && IsStatus(s, votes, nodes) && IsStatus(t, votes, nodes)
    ensures s == t
  {
    assert Completes(votes, votes, nodes);
  }

  /** A final answer survives every later vote, and so does the winner. */
  lemma FinalStatusStays(votes: Votes, later: Votes, nodes: set<NodeId>, s: Status)
    requires votes.Keys <= nodes && Completes(later, votes, nodes) && IsStatus(s, votes, nodes)
    requires (s.Achieved? || s.NotPossible?)
    ensures IsStatus(s, later, nodes)
    ensures forall c :: Majority(votes, nodes, c) ==> Majority(later, nodes, c)
  {
    forall c | Majority(votes, nodes, c) ensures Majority(later, nodes, c) {
      assert forall n :: n in Voters(votes, c) ==> n in Voters(later, c);
      SubsetSize(Voters(votes, c), Voters(later, c));
    }
    if s.NotPossible? {
      forall more, c | Completes(more, later, nodes) ensures !Majority(more, nodes, c) {
        assert Completes(more, votes, nodes);
      }
    }
  }

  // ----- request_buffer.go -----

  /** The index holds every vote once, under its request. */
  ghost predicate Indexed(requests: map<Content, seq<Request>>, votes: Votes)
  {
    && (forall n :: n in votes ==> votes[n] in requests)
    && (forall c :: c in requests ==> Lists(requests[c], votes, Voters(votes, c)))
  }

  lemma IndexGrows(requests: map<Content, seq<Request>>, votes: Votes, req: Request)
    requires Indexed(requests, votes) && req.node !in votes
    ensures var reqs := if req.content in requests then requests[req.content] else [];
      Indexed(requests[req.content := reqs + [req]], votes[req.node := req.content])
  {
    hide Lists;
    var reqs := if req.content in requests then requests[req.content] else [];
    if req.content !in requests {
      NoVoters(votes, req.content);
    }
    ListGrows(req, reqs, votes);
    forall c | c in requests && c != req.content
      ensures Lists(requests[c], votes[req.node := req.content], Voters(votes[req.node := req.content], c))
    {
      ListStays(req, c, requests[c], votes);
    }
  }

  lemma NoVoters(votes: Votes, c: Content)
    requires forall n :: n in votes ==> votes[n] != c
    ensures Lists([], votes, Voters(votes, c))
  {
  }

  class RequestBuffer {
    var nodeRequest: set<NodeId>
    var requests: map<Content, seq<Request>>
    var status: Status
    ghost var votes: Votes

    ghost predicate Valid()
      reads this
    {
      nodeRequest == votes.Keys && Indexed(requests, votes)
    }

    constructor ()
      ensures Valid() && votes == map[] && status == InProgress
    {
      nodeRequest, requests, status, votes := {}, map[], InProgress, map[];
    }

    /** Stores the first request of a node and decides; later requests of the node are refused. */
    method Add(req: Request, nodes: set<NodeId>) returns (st: Status, proof: seq<Request>)
      requires Valid() && nodeRequest <= nodes && req.node in nodes
      modifies this
      ensures Valid()
      ensures req.node in old(votes) ==> st == Unknown && votes == old(votes) && status == old(status)
      ensures req.node !in old(votes) ==>
        votes == old(votes)[req.node := req.content] && IsStatus(st, votes, nodes) && status == st
      ensures st.Achieved? ==>
        proof != [] && Majority(votes, nodes, proof[0].content) && Lists(proof, votes, Voters(votes, proof[0].content))
      ensures st.NotPossible? ==> Lists(proof, votes, votes.Keys)
    {
      hide Indexed, IsStatus, Majority, Lists;
      if req.node in nodeRequest {
        return Unknown, [];
      }
      var reqs := if req.content in requests then requests[req.content] else [];
      IndexGrows(requests, votes, req);
      nodeRequest := nodeRequest + {req.node};
      requests := requests[req.content := reqs + [req]];
      votes := votes[req.node := req.content];
      assert req.node in votes;
      st, proof := IsConsensusReceived(nodes);
      status := st;
    }

    /** Finds the most popular request, in whatever order the map yields them, and compares. */
    method IsConsensusReceived(nodes: set<NodeId>) returns (st: Status, proof: seq<Request>)
      requires Valid() && nodeRequest <= nodes && exists n :: n in votes
      ensures IsStatus(st, votes, nodes)
      ensures st.Achieved? ==>
        proof != [] && Majority(votes, nodes, proof[0].content) && Lists(proof, votes, Voters(votes, proof[0].content))
      ensures st.NotPossible? ==> Lists(proof, votes, votes.Keys)
    {
      var most, best := 0, [];
      var left := requests.Keys;
      while left != {}
        invariant left <= requests.Keys && most == |best|
        invariant best == [] || exists c :: c in requests && requests[c] == best
        invariant forall c :: c in requests && c !in left ==> |requests[c]| <= most
      {
        var c :| c in left;
        if most < |requests[c]| {
          most, best := |requests[c]|, requests[c];
        }
        left := left - {c};
      }
      ghost var top := Best(best);
      CountingIsExact(votes, nodes, top);
      SubsetSize(nodeRequest, nodes);
      var quorum := Quorum(|nodes|);
      if most >= quorum {
        return Achieved, best;
      }
      var open: nat := |nodes| - |nodeRequest|;
      if open + most < quorum {
        var all := AllRequests();
        return NotPossible, all;
      }
      return InProgress, [];
    }

    lemma Best(best: seq<Request>) returns (top: Content)
      requires Valid() && exists n :: n in votes
      requires best == [] || exists c :: c in requests && requests[c] == best
      requires forall c :: c in requests ==> |requests[c]| <= |best|
      ensures best != [] && best[0].content == top && Lists(best, votes, Voters(votes, top))
      ensures |best| == |Voters(votes, top)|
      ensures forall c :: |Voters(votes, c)| <= |Voters(votes, top)|
    {
      var n :| n in votes;
      assert n in Voters(votes, votes[n]) && Request(n, votes[n]) in requests[votes[n]];
      top :| top in requests && requests[top] == best;
      ListSize(best, votes, Voters(votes, top));
      forall c ensures |Voters(votes, c)| <= |Voters(votes, top)| {
        if c in requests {
          ListSize(requests[c], votes, Voters(votes, c));
        } else {
          assert forall m :: m in votes ==> votes[m] != c;
          assert Voters(votes, c) == {};
        }
      }
    }

    /** All requests, request by request. */
    method AllRequests() returns (all: seq<Request>)
      requires Valid()
      ensures Lists(all, votes, votes.Keys)
    {
      all := [];
      var left := requests.Keys;
      ghost var nodes: set<NodeId> := {};
      while left != {}
        invariant left <= requests.Keys && Lists(all, votes, nodes)
        invariant forall n :: n in votes ==> (n in nodes <==> votes[n] !in left)
      {
        var c :| c in left;
        assert forall n :: n in Voters(votes, c) ==> n in votes && n !in nodes;
        ListsJoin(all, requests[c], votes, nodes, Voters(votes, c));
        all := all + requests[c];
        left := left - {c};
        nodes := nodes + Voters(votes, c);
      }
      assert forall n :: n in votes ==> n in nodes;
    }

    method Reset()
      modifies this
      ensures Valid() && votes == map[] && status == InProgress
    {
      nodeRequest, requests, status, votes := {}, map[], InProgress, map[];
    }
  }

  /** The requests of the nodes `ns`, one each. */
  ghost predicate Lists(reqs: seq<Request>, votes: Votes, ns: set<NodeId>)
  {
    && ns <= votes.Keys
    && (forall i :: 0 <= i < |reqs| ==> reqs[i].node in ns && reqs[i].content == votes[reqs[i].node])
    && (forall n :: n in ns ==> Request(n, votes[n]) in reqs)
    && (forall i, j :: 0 <= i < j < |reqs| ==> reqs[i].node != reqs[j].node)
  }

  lemma ListGrows(req: Request, reqs: seq<Request>, votes: Votes)
    requires req.node !in votes && Lists(reqs, votes, Voters(votes, req.content))
    ensures var later := votes[req.node := req.content]; Lists(reqs + [req], later, Voters(later, req.content))
  {
    var later := votes[req.node := req.content];
    assert Voters(later, req.content) == Voters(votes, req.content) + {req.node};
    assert (reqs + [req])[|reqs|] == req;
  }

  lemma ListStays(req: Request, c: Content, reqs: seq<Request>, votes: Votes)
    requires req.node !in votes && c != req.content && Lists(reqs, votes, Voters(votes, c))
    ensures var later := votes[req.node := req.content]; Lists(reqs, later, Voters(later, c))
  {
    assert Voters(votes[req.node := req.content], c) == Voters(votes, c);
  }

  lemma ListsJoin(a: seq<Request>, b: seq<Request>, votes: Votes, ns: set<NodeId>, ms: set<NodeId>)
    requires Lists(a, votes, ns) && Lists(b, votes, ms) && ns !! ms
    ensures Lists(a + b, votes, ns + ms)
  {
  }

  lemma {:induction false} ListSize(reqs: seq<Request>, votes: Votes, ns: set<NodeId>)
    requires Lists(reqs, votes, ns)
    ensures |reqs| == |ns|
  {
    if reqs == [] {
      assert ns == {};
    } else {
      var last := reqs[|reqs| - 1];
      var init, rest := reqs[..|reqs| - 1], ns - {last.node};
      forall n | n in rest ensures Request(n, votes[n]) in init {
        var i :| 0 <= i < |reqs| && reqs[i] == Request(n, votes[n]);
        assert init[i] == reqs[i];
      }
      ListSize(init, votes, rest);
    }
  }
}
