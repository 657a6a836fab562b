/** Timeouts, votes and winning, matched by steps of RaftCore. */
module RaftElections {
  import opened RaftTypes
  import opened RaftNode
  import opened RaftCore
  import opened RaftCoreSteps
  import opened RaftCluster
  import opened RaftCoupling
  import opened RaftSimulation

  // ----- elections -----

  lemma StandStep(c: Core, nd: Node) returns (d: Core)
    requires Good(c) && Fine(c, nd) && Valid(nd)
    ensures Still(c, d, nd.me) && Fine(d, ConvertToCandidate(nd))
    ensures Seat(nd.currentTerm + 1, nd.me) !in c.cand
    ensures forall p: nat :: p < nd.n && p != nd.me ==> Sent(d, VoteReq(p, VoteArgs(ConvertToCandidate(nd))))
  {
    var nd' := ConvertToCandidate(nd);
    NewSeat(c, nd);
    d := Stands(c, nd);
    NewCandidate(c, d, nd);
    CallsOK(d, nd');
  }

  /** A server has neither stood nor led in a term it has not reached. */
  lemma NewSeat(c: Core, nd: Node)
    requires Good(c) && Fine(c, nd)
    ensures Seat(nd.currentTerm + 1, nd.me) !in c.cand
    ensures nd.currentTerm + 1 in c.reigns ==> c.reigns[nd.currentTerm + 1].leader != nd.me
  {
    GoodIsInv(c);
    FineIsOK(c, nd);
    var t := nd.currentTerm + 1;
    assert Standing(c, Seat(t, nd.me)) ==> CandShape(c, Seat(t, nd.me));
    assert Reigning(c, t) ==> ReignShape(c, t);
  }

  lemma Stands(c: Core, nd: Node) returns (d: Core)
    requires Good(c) && Fine(c, nd)
    ensures nd.me < |c.peers| && Enabled(c, Stand(nd.me)) && d == Apply(c, Stand(nd.me)) && Still(c, d, nd.me)
  {
    GoodIsInv(c);
    IsServer(c, nd);
    d := Take(c, Stand(nd.me));
  }

  lemma NewCandidate(c: Core, d: Core, nd: Node)
    requires Fine(c, nd) && Valid(nd) && nd.me < |c.peers| && Enabled(c, Stand(nd.me)) && d == Apply(c, Stand(nd.me))
    requires nd.currentTerm + 1 in c.reigns ==> c.reigns[nd.currentTerm + 1].leader != nd.me
    ensures Fine(d, ConvertToCandidate(nd))
  {
    FineIsOK(c, nd);
    FineIsOK(d, ConvertToCandidate(nd));
  }

  lemma CallsOK(c: Core, nd: Node)
    requires Fine(c, nd) && Valid(nd) && nd.role == Candidate
    ensures forall p: nat :: p < nd.n && p != nd.me ==> Sent(c, VoteReq(p, VoteArgs(nd)))
  {
    forall p: nat | p < nd.n && p != nd.me ensures Sent(c, VoteReq(p, VoteArgs(nd))) {
      CallSent(c, nd, p);
    }
  }

  lemma CallSent(c: Core, nd: Node, p: nat)
    requires Fine(c, nd) && Valid(nd) && nd.role == Candidate && p < nd.n && p != nd.me
    ensures Sent(c, VoteReq(p, VoteArgs(nd)))
  {
    FineIsOK(c, nd);
    LastCompacted(nd.logs, nd.snapLastIndex, c.peers[nd.me].log, LastIndex(nd));
    SentIsOK(c, VoteReq(p, VoteArgs(nd)));
  }

  lemma OnTimeout(cl: Cluster, c: Core, s: nat) returns (d: Core)
    requires Tied(cl, c) && Wants(cl, Timeout(s)) && InBounds(cl, Timeout(s))
    ensures Moved(cl, c, Timeout(s), d) && Tied(Do(cl, Timeout(s)), d)
  {
    var nd := cl.nodes[s];
    Actors(cl, c, s);
    d := StandStep(c, nd);
    var nd' := ConvertToCandidate(nd);
    var cl' := Do(cl, Timeout(s));
    NewCalls(cl, c, nd');
    TiedIsCoupled(cl, c);
    FineIsOK(d, nd');
    forall m | m in Ballots(nd') ensures MsgOK(d, m) { SentIsOK(d, m); }
    Assemble(cl, cl', c, d, s);
    TiedIsCoupled(cl', d);
  }

  /** A candidate's calls are the first for its term. */
  lemma NewCalls(cl: Cluster, c: Core, nd: Node)
    requires Tied(cl, c) && Valid(nd) && Seat(nd.currentTerm, nd.me) !in c.cand
    ensures OneCallEach(cl.net + Ballots(nd)) && NoNewCalls(cl.net, cl.net + Ballots(nd), nd.me)
  {
    TiedIsCoupled(cl, c);
    var net' := cl.net + Ballots(nd);
    forall m | m in cl.net && IsVote(m) ensures Pending(cl.net, m.va.term, m.va.candidateId, m.peer) {
      assert Calls(m, m.va.term, m.va.candidateId, m.peer);
    }
    forall m | m in cl.net && IsVote(m) ensures Seat(m.va.term, m.va.candidateId) != Seat(nd.currentTerm, nd.me) {
      assert MsgOK(c, m);
    }
  }

  /** Answering a vote request, from the term it names. */
  lemma BallotStep(c: Core, nd: Node, a: RequestVoteArgs) returns (d: Core)
    requires Good(c) && NodeOK(c, nd) && nd.currentTerm == a.term && CallOK(c, nd.me, a)
    ensures Still(c, d, nd.me) && NodeOK(d, RequestVote(nd, a).0)
    ensures RequestVote(nd, a).1.voteGranted ==> HasVoteOf(d, a.term, a.candidateId, nd.me)
  {
    LastCompacted(nd.logs, nd.snapLastIndex, c.peers[nd.me].log, LastIndex(nd));
    assert Persist(nd) == nd;
    if RequestVote(nd, a).1.voteGranted && nd.votedFor < 0 {
      GoodIsInv(c);
      d := Take(c, Vote(nd.me, a.candidateId));
      VoteLeavesLeader(c, d, nd, a);
    } else {
      d := c;
      Stay(c, nd.me);
    }
  }

  lemma VoteLeavesLeader(c: Core, d: Core, nd: Node, a: RequestVoteArgs)
    requires NodeOK(c, nd) && nd.votedFor < 0 && Extends(c, d) && d.peers == c.peers && d.reigns == c.reigns
    requires Seat(nd.currentTerm, nd.me) in d.ballots && d.ballots[Seat(nd.currentTerm, nd.me)].candidate == a.candidateId
    ensures NodeOK(d, Persist(nd.(votedFor := a.candidateId)))
  {
    var nd' := Persist(nd.(votedFor := a.candidateId));
    if nd.role == Leader {
      forall p: nat | Other(nd', p) ensures PeerOK(d, nd', p) {
        assert Other(nd, p) && PeerOK(c, nd, p);
      }
    }
  }

  lemma RaisedVote(nd: Node, a: RequestVoteArgs)
    requires Valid(nd) && nd.currentTerm <= a.term
    ensures Valid(Raised(nd, a.term)) && Raised(nd, a.term).currentTerm == a.term
    ensures RequestVote(nd, a) == RequestVote(Raised(nd, a.term), a)
  {
  }

  lemma VoteStep(c: Core, nd: Node, a: RequestVoteArgs) returns (d: Core)
    requires Good(c) && Fine(c, nd) && Valid(nd) && Sent(c, VoteReq(nd.me, a))
    ensures Still(c, d, nd.me) && Fine(d, RequestVote(nd, a).0) && SameCount(nd, RequestVote(nd, a).0)
    ensures Sent(d, VoteRep(nd.me, a, RequestVote(nd, a).1))
  {
    FineIsOK(c, nd);
    SentIsOK(c, VoteReq(nd.me, a));
    if a.term < nd.currentTerm {
      d := c;
      Stay(c, nd.me);
    } else {
      var b := Raise(c, nd, a.term);
      RaisedVote(nd, a);
      d := BallotStep(b, Raised(nd, a.term), a);
      AfterTransitive(c, b, d, nd.me);
    }
    FineIsOK(d, RequestVote(nd, a).0);
    SentIsOK(d, VoteRep(nd.me, a, RequestVote(nd, a).1));
  }

  lemma OnVoteReq(cl: Cluster, c: Core, m: Message) returns (d: Core)
    requires Tied(cl, c) && m.VoteReq? && Wants(cl, Receive(m)) && InBounds(cl, Receive(m))
    ensures Moved(cl, c, Receive(m), d) && Tied(Handle(cl, m), d)
  {
    var nd := cl.nodes[m.peer];
    Actors(cl, c, m.peer);
    Messages(cl, c, m);
    d := VoteStep(c, nd, m.va);
    var (nd', r) := RequestVote(nd, m.va);
    FinishCall(cl, c, d, nd', m, {VoteRep(m.peer, m.va, r)});
  }

  /** The call `m` is answered by `sent`, or is over. */
  lemma FinishCall(cl: Cluster, c: Core, d: Core, nd: Node, m: Message, sent: set<Message>)
    requires Tied(cl, c) && nd.me < |cl.nodes| && After(c, d, nd.me) && m in cl.net && IsVote(m)
    requires TallyOK(cl.net - {m} + sent, d, nd) || SameCount(cl.nodes[nd.me], nd)
    requires Fine(d, nd)
    requires forall x :: x in sent ==> Calls(x, m.va.term, m.va.candidateId, m.peer) && Sent(d, x)
    requires forall x, y :: x in sent && y in sent ==> x == y
    ensures Tied(Cluster(cl.nodes[nd.me := nd], cl.net - {m} + sent, cl.deliveries), d)
  {
    var net' := cl.net - {m} + sent;
    var cl' := Cluster(cl.nodes[nd.me := nd], net', cl.deliveries);
    TiedIsCoupled(cl, c);
    assert Serves(c, nd.me);
    assert Calls(m, m.va.term, m.va.candidateId, m.peer);
    forall x | x in net' && IsVote(x) ensures Pending(cl.net, x.va.term, x.va.candidateId, x.peer) {
      if x in cl.net { assert Calls(x, x.va.term, x.va.candidateId, x.peer); }
    }
    if SameCount(cl.nodes[nd.me], nd) {
      forall p: nat | Pending(net', cl.nodes[nd.me].currentTerm, nd.me, p)
        ensures Pending(cl.net, cl.nodes[nd.me].currentTerm, nd.me, p)
      {
        var x :| x in net' && Calls(x, cl.nodes[nd.me].currentTerm, nd.me, p);
      }
      TallyGrows(cl.net, net', c, d, cl.nodes[nd.me].currentTerm, nd.me);
    }
    FineIsOK(d, nd);
    forall x | x in sent ensures MsgOK(d, x) { SentIsOK(d, x); }
    Assemble(cl, cl', c, d, nd.me);
    TiedIsCoupled(cl', d);
  }

  lemma RaiseStep(c: Core, nd: Node, t: nat) returns (d: Core)
    requires Good(c) && Fine(c, nd)
    ensures Still(c, d, nd.me) && Fine(d, Raised(nd, t)) && SameCount(nd, Raised(nd, t))
  {
    FineIsOK(c, nd);
    d := Raise(c, nd, t);
    FineIsOK(d, Raised(nd, t));
  }

  /** A vote received moves its voter from pending to counted. */
  lemma CountOne(cl: Cluster, c: Core, m: Message)
    requires Tied(cl, c) && m in cl.net && m.VoteRep? && m.vr.voteGranted
    ensures
      var t, s := m.va.term, m.va.candidateId;
      |Tally(cl.net, c, t, s)| < |Tally(cl.net - {m}, c, t, s)|
  {
    TiedIsCoupled(cl, c);
    var t, s, p := m.va.term, m.va.candidateId, m.peer;
    var net' := cl.net - {m};
    assert MsgOK(c, m);
    assert Calls(m, t, s, p) && Pending(cl.net, t, s, p);
    assert !Pending(net', t, s, p);
    var before, after := Tally(cl.net, c, t, s), Tally(net', c, t, s);
    assert HasVoteOf(c, t, s, p);
    assert before + {p} <= after by {
      forall q | q in before ensures q in after {
        assert !Pending(net', t, s, q);
      }
    }
    SubsetSize(before + {p}, after);
  }

  lemma CountStep(cl: Cluster, c: Core, m: Message)
    requires Tied(cl, c) && m in cl.net && m.VoteRep? && m.va.candidateId < |cl.nodes|
    requires cl.nodes[m.va.candidateId].currentTerm >= m.vr.term
    ensures
      var nd := cl.nodes[m.va.candidateId];
      var nd' := VoteReply(nd, m.va, m.vr);
      Fine(c, nd') && (TallyOK(cl.net - {m} + {}, c, nd') || SameCount(nd, nd'))
  {
    var nd := cl.nodes[m.va.candidateId];
    var nd' := VoteReply(nd, m.va, m.vr);
    Actors(cl, c, m.va.candidateId);
    FineIsOK(c, nd);
    FineIsOK(c, nd');
    assert cl.net - {m} + {} == cl.net - {m};
    if nd' != nd {
      TiedIsCoupled(cl, c);
      assert Serves(c, nd.me) && TallyOK(cl.net, c, nd);
      CountOne(cl, c, m);
    }
  }

  lemma OnVoteRep(cl: Cluster, c: Core, m: Message) returns (d: Core)
    requires Tied(cl, c) && m.VoteRep? && Wants(cl, Receive(m)) && InBounds(cl, Receive(m))
    ensures Moved(cl, c, Receive(m), d) && Tied(Handle(cl, m), d)
  {
    var nd := cl.nodes[m.va.candidateId];
    Actors(cl, c, m.va.candidateId);
    FineIsOK(c, nd);
    if nd.currentTerm < m.vr.term {
      d := RaiseStep(c, nd, m.vr.term);
    } else {
      d := c;
      Stay(c, nd.me);
      CountStep(cl, c, m);
    }
    FinishCall(cl, c, d, VoteReply(nd, m.va, m.vr), m, {});
    assert cl.net - {m} + {} == cl.net - {m};
  }

  // ----- winning -----

  /** The counted votes of a winner are a majority. */
  lemma CountedVotes(cl: Cluster, c: Core, s: nat) returns (q: set<nat>)
    requires Tied(cl, c) && s < |cl.nodes| && Wins(cl.nodes[s])
    ensures Quorum(|c.peers|, q)
    ensures forall v :: v in q ==> HasVoteOf(c, cl.nodes[s].currentTerm, s, v)
  {
    TiedIsCoupled(cl, c);
    assert Serves(c, s);
    var voters := Tally(cl.net, c, cl.nodes[s].currentTerm, s);
    q := voters + {s};
    assert |q| == |voters| + 1;
  }

  /** A winner's term has no other leader. */
  lemma Majority(cl: Cluster, c: Core, s: nat) returns (q: set<nat>)
    requires Tied(cl, c) && s < |cl.nodes| && Wins(cl.nodes[s])
    ensures Enabled(c, Elect(s, q))
  {
    q := CountedVotes(cl, c, s);
    Actors(cl, c, s);
    FineIsOK(c, cl.nodes[s]);
    GoodIsInv(c);
    var t := cl.nodes[s].currentTerm;
    assert forall v :: v in q ==> HasVoteOf(c, t, s, v);
    if Reigning(c, t) {
      OneLeader(c, s, q, t);
      assert false;
    }
  }

  lemma WinStep(c: Core, nd: Node, q: set<nat>) returns (d: Core)
    requires Good(c) && Fine(c, nd) && Valid(nd) && Wins(nd) && Enabled(c, Elect(nd.me, q))
    ensures Still(c, d, nd.me) && Fine(d, ConvertToLeader(nd))
  {
    GoodIsInv(c);
    FineIsOK(c, nd);
    d := Take(c, Elect(nd.me, q));
    NewLeader(d, nd);
  }

  lemma NewLeader(c: Core, nd: Node)
    requires nd.me < |c.peers| && Mirrors(c, nd) && VotedOK(c, nd) && Wins(nd) && IsLeader(c, nd.me)
    ensures Fine(c, ConvertToLeader(nd))
  {
    var nd' := ConvertToLeader(nd);
    forall p: nat | Other(nd', p) ensures PeerOK(c, nd', p) {
    }
    FineIsOK(c, nd');
  }

  lemma OnWin(cl: Cluster, c: Core, s: nat) returns (d: Core)
    requires Tied(cl, c) && Wants(cl, Win(s)) && InBounds(cl, Win(s))
    ensures Moved(cl, c, Win(s), d) && Tied(Do(cl, Win(s)), d)
  {
    Actors(cl, c, s);
    var q := Majority(cl, c, s);
    d := WinStep(c, cl.nodes[s], q);
    Finish(cl, c, d, ConvertToLeader(cl.nodes[s]), {}, []);
    assert cl.net + {} == cl.net && cl.deliveries + [] == cl.deliveries;
  }
}
