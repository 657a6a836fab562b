/**
 * How a cluster relates to RaftCore: each server's compacted log is a suffix of a
 * full log, every message in the network repeats something RaftCore has recorded,
 * and votes are counted once. RaftSimulation proves that every action keeps this.
 */
module RaftCoupling {
  import opened RaftTypes
  import opened RaftNode
  import opened RaftCore
  import opened RaftCluster

  /** `logs` holds what `full` has from index `snap` on, behind a sentinel with the term at `snap`. */
  predicate Compacts(logs: seq<Entry>, snap: nat, full: Log) {
    && snap <= |full|
    && |logs| == |full| - snap + 1
    && logs[0].term == TermAt(full, snap)
    && logs[1..] == full[snap..]
  }

  ghost predicate VotedOK(c: Core, nd: Node) {
    var seat := Seat(nd.currentTerm, nd.me);
    if nd.votedFor < 0 then seat !in c.ballots
    else seat in c.ballots && c.ballots[seat].candidate == nd.votedFor
  }

  ghost predicate PeerOK(c: Core, nd: Node, p: nat)
    requires p < |nd.matchIndex| && p < |nd.nextIndex| && nd.me < |c.peers|
  {
    && (nd.matchIndex[p] == 0 || Acked(c, nd.currentTerm, p, nd.matchIndex[p]))
    && 1 <= nd.nextIndex[p] <= |c.peers[nd.me].log| + 1
  }

  predicate Other(nd: Node, p: nat) { p < nd.n && p != nd.me }

  ghost predicate LeaderOK(c: Core, nd: Node)
    requires Valid(nd) && nd.n == |c.peers|
  {
    nd.role == Leader ==> IsLeader(c, nd.me) && forall p: nat :: Other(nd, p) ==> PeerOK(c, nd, p)
  }

  ghost predicate CandidateOK(c: Core, nd: Node)
    requires nd.me < |c.peers|
  {
    nd.role == Candidate ==>
      && nd.votedFor == nd.me
      && Seat(nd.currentTerm, nd.me) in c.cand
      && c.cand[Seat(nd.currentTerm, nd.me)] == c.peers[nd.me].log
      && (nd.currentTerm in c.reigns ==> c.reigns[nd.currentTerm].leader != nd.me)
  }

  /** The server's fields say what RaftCore says of it. */
  ghost predicate Mirrors(c: Core, nd: Node)
    requires nd.me < |c.peers|
  {
    var p := c.peers[nd.me];
    && Valid(nd)
    && nd.n == |c.peers|
    && nd.currentTerm == p.term
    && nd.commitIndex == p.commit <= |p.log|
    && nd.lastApplied <= nd.commitIndex
    && Compacts(nd.logs, nd.snapLastIndex, p.log)
    && nd.service == Commands(p.log[..nd.lastApplied])
    && nd.disk.snapshot <= nd.service
  }

  ghost predicate NodeOK(c: Core, nd: Node) {
    nd.me < |c.peers| && Mirrors(c, nd) && VotedOK(c, nd) && LeaderOK(c, nd) && CandidateOK(c, nd)
  }

  // ----- messages -----

  ghost predicate CallOK(c: Core, p: nat, a: RequestVoteArgs) {
    && p < |c.peers| && p != a.candidateId
    && Seat(a.term, a.candidateId) in c.cand
    && var l := c.cand[Seat(a.term, a.candidateId)];
       a.lastLogIndex == |l| && a.lastLogTerm == LastTerm(l)
  }

  ghost predicate AppendOK(c: Core, p: nat, a: AppendEntriesArgs) {
    && p < |c.peers| && p != a.leaderId
    && a.term in c.reigns && c.reigns[a.term].leader == a.leaderId
    && var r := c.reigns[a.term].log;
       var len := a.prevLogIndex + |a.entries|;
       && len <= |r|
       && a.entries == r[a.prevLogIndex..len]
       && a.prevLogTerm == TermAt(r, a.prevLogIndex)
       && a.leaderCommit <= len
       && CommittedPrefix(c, a.term, r[..a.leaderCommit])
  }

  ghost predicate HintOK(c: Core, a: AppendEntriesArgs, r: AppendEntriesReply)
    requires a.term in c.reigns
  {
    1 <= r.conflictIndex <= |c.reigns[a.term].log| + 1 && r.conflictTerm != 0
  }

  ghost predicate SnapOK(c: Core, p: nat, a: InstallSnapshotArgs) {
    && p < |c.peers| && p != a.leaderId
    && a.term in c.reigns && c.reigns[a.term].leader == a.leaderId
    && var r := c.reigns[a.term].log;
       && 1 <= a.lastIncludeIndex <= |r|
       && a.lastIncludeTerm == r[a.lastIncludeIndex - 1].term
       && a.data == Commands(r[..a.lastIncludeIndex])
       && CommittedPrefix(c, a.term, r[..a.lastIncludeIndex])
  }

  ghost predicate MsgOK(c: Core, m: Message) {
    match m
    case VoteReq(p, a) => CallOK(c, p, a)
    case VoteRep(p, a, r) =>
      CallOK(c, p, a) &&
      (r.voteGranted ==> Seat(a.term, p) in c.ballots && c.ballots[Seat(a.term, p)].candidate == a.candidateId)
    case AppendReq(p, a) => AppendOK(c, p, a)
    case AppendRep(p, a, r) =>
      AppendOK(c, p, a) &&
      (r.success ==> Acked(c, a.term, p, a.prevLogIndex + |a.entries|)) &&
      (!r.success && r.term == a.term ==> HintOK(c, a, r))
    case SnapReq(p, a) => SnapOK(c, p, a)
    case SnapRep(p, a, r) =>
      SnapOK(c, p, a) && (r.term == a.term ==> Acked(c, a.term, p, a.lastIncludeIndex))
  }

  // ----- counting votes -----

  predicate IsVote(m: Message) { m.VoteReq? || m.VoteRep? }

  predicate Calls(m: Message, t: nat, s: nat, p: nat) {
    IsVote(m) && m.va.term == t && m.va.candidateId == s && m.peer == p
  }

  ghost predicate Pending(net: set<Message>, t: nat, s: nat, p: nat) {
    exists m :: m in net && Calls(m, t, s, p)
  }

  ghost predicate HasVoteOf(c: Core, t: nat, s: nat, p: nat) {
    Seat(t, p) in c.ballots && c.ballots[Seat(t, p)].candidate == s
  }

  /** The peers whose vote for `s` in term `t` has been received. */
  ghost function Tally(net: set<Message>, c: Core, t: nat, s: nat): set<nat> {
    set p: nat | p < |c.peers| && p != s && HasVoteOf(c, t, s, p) && !Pending(net, t, s, p)
  }

  ghost predicate TallyOK(net: set<Message>, c: Core, nd: Node) {
    nd.role == Candidate ==> nd.voteCount <= 1 + |Tally(net, c, nd.currentTerm, nd.me)|
  }

  ghost predicate OneCallEach(net: set<Message>) {
    forall m, m' | m in net && m' in net ::
      IsVote(m) && IsVote(m') && Calls(m, m'.va.term, m'.va.candidateId, m'.peer) ==> m == m'
  }

  // ----- deliveries -----

  ghost predicate Decided(c: Core, p: Log) {
    exists bound: nat :: CommittedPrefix(c, bound, p)
  }

  ghost predicate DeliveryOK(c: Core, d: Delivery) {
    match d
    case Applied(_, i, x) => exists p: Log :: Decided(c, p) && 1 <= i == |p| && p[i - 1].command == x
    case Restored(_, xs) => exists p: Log :: Decided(c, p) && Commands(p) == xs
  }

  ghost predicate Coupled(cl: Cluster, c: Core) {
    && |cl.nodes| == |c.peers|
    && (forall s: nat :: Serves(c, s) ==>
         cl.nodes[s].me == s && NodeOK(c, cl.nodes[s]) && TallyOK(cl.net, c, cl.nodes[s]))
    && (forall m :: m in cl.net ==> MsgOK(c, m))
    && OneCallEach(cl.net)
    && (forall d :: d in cl.deliveries ==> DeliveryOK(c, d))
  }

  // ----- what one server does leaves the others coupled -----

  ghost predicate OnlyBy(c: Core, d: Core, s: nat) {
    && |d.peers| == |c.peers|
    && (forall u :: 0 <= u < |c.peers| && u != s ==> d.peers[u] == c.peers[u])
    && (forall k :: k in d.ballots ==> k.server == s || k in c.ballots)
    && (forall t :: t in d.reigns ==> d.reigns[t].leader == s || (t in c.reigns && d.reigns[t] == c.reigns[t]))
  }

  lemma EventOnlyBy(c: Core, e: Event)
    requires Enabled(c, e)
    ensures OnlyBy(c, Apply(c, e), e.s)
  {
  }

  lemma OnlyByTransitive(a: Core, b: Core, c: Core, s: nat)
    requires OnlyBy(a, b, s) && OnlyBy(b, c, s)
    ensures OnlyBy(a, c, s)
  {
  }

  lemma OthersOK(c: Core, d: Core, s: nat, nd: Node)
    requires Extends(c, d) && OnlyBy(c, d, s) && NodeOK(c, nd) && nd.me != s
    ensures NodeOK(d, nd)
  {
    assert d.peers[nd.me] == c.peers[nd.me];
    if nd.role == Leader {
      forall p: nat | Other(nd, p) ensures PeerOK(d, nd, p) {
        assert PeerOK(c, nd, p);
      }
    }
  }

  lemma MsgKept(c: Core, d: Core, m: Message)
    requires Extends(c, d) && MsgOK(c, m)
    ensures MsgOK(d, m)
  {
    match m {
      case AppendReq(p, a) => AppendKept(c, d, p, a);
      case AppendRep(p, a, r) => AppendKept(c, d, p, a);
      case SnapReq(p, a) => SnapKept(c, d, p, a);
      case SnapRep(p, a, r) => SnapKept(c, d, p, a);
      case _ =>
    }
  }

  lemma AppendKept(c: Core, d: Core, p: nat, a: AppendEntriesArgs)
    requires Extends(c, d) && AppendOK(c, p, a)
    ensures AppendOK(d, p, a)
  {
    var r, r' := c.reigns[a.term].log, d.reigns[a.term].log;
    var len := a.prevLogIndex + |a.entries|;
    assert r'[..len] == r[..len];
    assert r'[a.prevLogIndex..len] == r'[..len][a.prevLogIndex..] == r[..len][a.prevLogIndex..] == r[a.prevLogIndex..len];
    assert r'[..a.leaderCommit] == r'[..len][..a.leaderCommit] == r[..len][..a.leaderCommit] == r[..a.leaderCommit];
    CommittedPrefixExtends(c, d, a.term, a.term, r[..a.leaderCommit]);
  }

  lemma SnapKept(c: Core, d: Core, p: nat, a: InstallSnapshotArgs)
    requires Extends(c, d) && SnapOK(c, p, a)
    ensures SnapOK(d, p, a)
  {
    var r, r' := c.reigns[a.term].log, d.reigns[a.term].log;
    assert r'[..a.lastIncludeIndex] == r[..a.lastIncludeIndex];
    assert r'[a.lastIncludeIndex - 1] == r[a.lastIncludeIndex - 1];
    CommittedPrefixExtends(c, d, a.term, a.term, r[..a.lastIncludeIndex]);
  }

  lemma DeliveryKept(c: Core, d: Core, x: Delivery)
    requires Extends(c, d) && DeliveryOK(c, x)
    ensures DeliveryOK(d, x)
  {
    var p: Log :| Decided(c, p) &&
      (if x.Applied? then 1 <= x.index == |p| && p[x.index - 1].command == x.command else Commands(p) == x.commands);
    var bound: nat :| CommittedPrefix(c, bound, p);
    CommittedPrefixExtends(c, d, bound, bound, p);
    assert Decided(d, p);
  }

  lemma SubsetSize(a: set<nat>, b: set<nat>)
    requires a <= b
    ensures |a| <= |b|
  {
    assert b == a + (b - a);
  }

  /** No vote call of a candidate other than `s` appears out of nothing. */
  ghost predicate NoNewCalls(net: set<Message>, net': set<Message>, s: nat) {
    forall m :: m in net' && IsVote(m) && m.va.candidateId != s ==>
      Pending(net, m.va.term, m.va.candidateId, m.peer)
  }

  lemma TallyGrows(net: set<Message>, net': set<Message>, c: Core, d: Core, t: nat, s: nat)
    requires Extends(c, d)
    requires forall p: nat :: Pending(net', t, s, p) ==> Pending(net, t, s, p)
    ensures Tally(net, c, t, s) <= Tally(net', d, t, s)
    ensures |Tally(net, c, t, s)| <= |Tally(net', d, t, s)|
  {
    SubsetSize(Tally(net, c, t, s), Tally(net', d, t, s));
  }

  lemma OthersTally(cl: Cluster, net': set<Message>, c: Core, d: Core, s: nat, nd: Node)
    requires Extends(c, d) && TallyOK(cl.net, c, nd) && nd.me != s && NoNewCalls(cl.net, net', s)
    ensures TallyOK(net', d, nd)
  {
    forall p: nat | Pending(net', nd.currentTerm, nd.me, p) ensures Pending(cl.net, nd.currentTerm, nd.me, p) {
      var m :| m in net' && Calls(m, nd.currentTerm, nd.me, p);
    }
    TallyGrows(cl.net, net', c, d, nd.currentTerm, nd.me);
  }

  /** Assemble the coupling after a step of server `s` from what is new. */
  lemma Assemble(cl: Cluster, cl': Cluster, c: Core, d: Core, s: nat)
    requires Coupled(cl, c) && Extends(c, d) && OnlyBy(c, d, s) && s < |cl.nodes|
    requires |cl'.nodes| == |cl.nodes| && forall u :: 0 <= u < |cl.nodes| && u != s ==> cl'.nodes[u] == cl.nodes[u]
    requires cl'.nodes[s].me == s && NodeOK(d, cl'.nodes[s]) && TallyOK(cl'.net, d, cl'.nodes[s])
    requires forall m :: m in cl'.net ==> m in cl.net || MsgOK(d, m)
    requires NoNewCalls(cl.net, cl'.net, s) && OneCallEach(cl'.net)
    requires forall x :: x in cl'.deliveries ==> x in cl.deliveries || DeliveryOK(d, x)
    ensures Coupled(cl', d)
  {
    forall u: nat | Serves(d, u)
      ensures cl'.nodes[u].me == u && NodeOK(d, cl'.nodes[u]) && TallyOK(cl'.net, d, cl'.nodes[u])
    {
      if u != s {
        assert Serves(c, u);
        OthersOK(c, d, s, cl.nodes[u]);
        OthersTally(cl, cl'.net, c, d, s, cl.nodes[u]);
      }
    }
    forall m | m in cl'.net ensures MsgOK(d, m) {
      if m in cl.net { MsgKept(c, d, m); }
    }
    forall x | x in cl'.deliveries ensures DeliveryOK(d, x) {
      if x in cl.deliveries { DeliveryKept(c, d, x); }
    }
  }

  /** A network whose vote calls are unchanged. */
  lemma SameVotes(cl: Cluster, net': set<Message>, s: nat)
    requires OneCallEach(cl.net)
    requires forall m :: IsVote(m) ==> (m in net' <==> m in cl.net)
    ensures NoNewCalls(cl.net, net', s) && OneCallEach(net')
    ensures forall t: nat, u: nat, p: nat :: Pending(net', t, u, p) ==> Pending(cl.net, t, u, p)
  {
    forall m | m in net' && IsVote(m)
      ensures Pending(cl.net, m.va.term, m.va.candidateId, m.peer)
    {
      assert Calls(m, m.va.term, m.va.candidateId, m.peer);
    }
  }
}
