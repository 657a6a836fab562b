/**
 * Terms: whatever later term a message carries, request or reply, its receiver takes it and follows,
 * and nobody stays candidate or leader after hearing from the leader of a term not before its own.
 */
module RaftTerms {
  import opened RaftTypes
  import opened RaftNode
  import opened RaftCore
  import opened RaftCluster
  import opened RaftCoupling
  import opened RaftSimulation
  import opened RaftSafety
  import opened RaftBackup
  import opened RaftRuns

  /** The term in a call's arguments, or in a reply. */
  function Carries(m: Message): nat {
    match m
    case VoteReq(_, a) => a.term
    case VoteRep(_, _, r) => r.term
    case AppendReq(_, a) => a.term
    case AppendRep(_, _, r) => r.term
    case SnapReq(_, a) => a.term
    case SnapRep(_, _, r) => r.term
  }

  /**
   * `d` is in the later of the two terms. If that is a new one it follows, has voted for nobody or for
   * the candidate that asks, and has this on disk.
   */
  predicate Takes(nd: Node, d: Node, m: Message) {
    && d.currentTerm == Max(nd.currentTerm, Carries(m))
    && (nd.currentTerm < Carries(m) ==>
          && d.role == Follower
          && (d.votedFor == -1 || (m.VoteReq? && d.votedFor == m.va.candidateId))
          && d.disk.currentTerm == d.currentTerm && d.disk.votedFor == d.votedFor)
  }

  lemma HandlerTakes(cl: Cluster, m: Message)
    requires Wants(cl, Receive(m)) && InBounds(cl, Receive(m))
    ensures Takes(cl.nodes[Receiver(m)], Handle(cl, m).nodes[Receiver(m)], m)
  {
  }

  /** In every run, for each of the six messages. */
  lemma LaterTermIsTaken(run: seq<Cluster>, acts: seq<Action>, i: nat)
    requires IsRun(run, acts) && i < |acts| && acts[i].Receive?
    ensures
      var m := acts[i].m;
      var s := Receiver(m);
      s < |run[i].nodes| && s < |run[i + 1].nodes| && Takes(run[i].nodes[s], run[i + 1].nodes[s], m)
  {
    assert Step(run[i], acts[i], run[i + 1]);
    HandlerTakes(run[i], acts[i].m);
  }

  // ----- hearing from a leader -----

  predicate FromLeader(m: Message) { m.AppendReq? || m.SnapReq? }

  /** No leader is called by another leader of its term. */
  lemma NotBothLead(cl: Cluster, c: Core, m: Message)
    requires Tied(cl, c) && m in cl.net && FromLeader(m)
    ensures Receiver(m) < |cl.nodes| && !(cl.nodes[Receiver(m)].role == Leader && cl.nodes[Receiver(m)].currentTerm == Carries(m))
  {
    Messages(cl, c, m);
    SentIsOK(c, m);
    TiedIsCoupled(cl, c);
    Actors(cl, c, Receiver(m));
    FineIsOK(c, cl.nodes[Receiver(m)]);
  }

  /** In every run, who handles a leader's call of a term not before its own is afterwards a follower in that term. */
  lemma LeaderIsFollowed(run: seq<Cluster>, acts: seq<Action>, i: nat)
    requires IsRun(run, acts) && i < |acts| && acts[i].Receive? && FromLeader(acts[i].m)
    ensures
      var m := acts[i].m;
      var s := Receiver(m);
      && s < |run[i].nodes| && s < |run[i + 1].nodes|
      && (run[i].nodes[s].currentTerm <= Carries(m) ==>
            run[i + 1].nodes[s].role == Follower && run[i + 1].nodes[s].currentTerm == Carries(m))
  {
    assert Step(run[i], acts[i], run[i + 1]);
    var c := BehindRun(run, acts, i);
    NotBothLead(run[i], c, acts[i].m);
  }

  // ----- stale calls -----

  predicate IsCall(m: Message) { m.VoteReq? || FromLeader(m) }

  function Caller(m: Message): nat
    requires IsCall(m)
  {
    match m
    case VoteReq(_, a) => a.candidateId
    case AppendReq(_, a) => a.leaderId
    case SnapReq(_, a) => a.leaderId
  }

  /** The refusal of a server in term `t`. */
  function Refusal(m: Message, t: nat): Message
    requires IsCall(m)
  {
    match m
    case VoteReq(p, a) => VoteRep(p, a, RequestVoteReply(t, false))
    case AppendReq(p, a) => AppendRep(p, a, AppendEntriesReply(t, false, 0, -1))
    case SnapReq(p, a) => SnapRep(p, a, InstallSnapshotReply(t))
  }

  /** A call of an earlier term changes nobody and is answered with the receiver's own term. */
  lemma StaleIsRefused(cl: Cluster, m: Message)
    requires Wants(cl, Receive(m)) && InBounds(cl, Receive(m)) && IsCall(m)
    requires Carries(m) < cl.nodes[Receiver(m)].currentTerm
    ensures Handle(cl, m).nodes == cl.nodes && Refusal(m, cl.nodes[Receiver(m)].currentTerm) in Handle(cl, m).net
  {
  }

  lemma CallerIsServer(cl: Cluster, c: Core, m: Message)
    requires Tied(cl, c) && m in cl.net && IsCall(m)
    ensures Caller(m) < |cl.nodes| && Receiver(m) < |cl.nodes| && Caller(m) != Receiver(m)
  {
    Messages(cl, c, m);
    SentIsOK(c, m);
    TiedIsCoupled(cl, c);
    GoodIsInv(c);
    if m.VoteReq? {
      assert Standing(c, Seat(m.va.term, m.va.candidateId)) && CandShape(c, Seat(m.va.term, m.va.candidateId));
    } else {
      assert Reigning(c, Carries(m)) && ReignShape(c, Carries(m));
    }
  }

  /** `b` follows in the term of `f`, and has it on disk. */
  predicate Deposed(b: Node, f: Node) {
    b.role == Follower && b.currentTerm == f.currentTerm == b.disk.currentTerm && b.votedFor == -1 == b.disk.votedFor
  }

  /**
   * From every state of every run: a candidate or leader that is behind, and whose call reaches a server in a
   * later term, steps down to that term as soon as it has the answer, whatever the call was.
   */
  lemma AnsweredStepsDown(run: seq<Cluster>, acts: seq<Action>, m: Message) returns (run': seq<Cluster>, acts': seq<Action>)
    requires IsRun(run, acts) && m in Last(run).net && IsCall(m)
    requires
      var cl := Last(run);
      && Caller(m) < |cl.nodes| && Receiver(m) < |cl.nodes| && Carries(m) < cl.nodes[Receiver(m)].currentTerm
      && cl.nodes[Caller(m)].currentTerm < cl.nodes[Receiver(m)].currentTerm
    ensures IsRun(run', acts') && run <= run' && |acts'| <= |acts| + 2 && OnlyActs(acts', |acts|, {Caller(m), Receiver(m)})
    ensures |Last(run').nodes| == |Last(run).nodes| && Last(run').nodes[Receiver(m)] == Last(run).nodes[Receiver(m)]
    ensures Deposed(Last(run').nodes[Caller(m)], Last(run).nodes[Receiver(m)])
  {
    var cl, s, p := Last(run), Caller(m), Receiver(m);
    var h := Trace(run, acts, {s, p});
    Here(run, acts, {s, p});
    var c := Behind(h, 0, cl);
    CallerIsServer(cl, c, m);
    var b := Next(h, 0, cl, Receive(m));
    StaleIsRefused(cl, m);
    var r := Refusal(m, cl.nodes[p].currentTerm);
    var d := Next(h, 1, b, Receive(r));
    HandlerTakes(b, r);
    run', acts' := RunTo(h, 2, d);
  }

  // ----- votes -----

  /**
   * A vote is granted exactly when the candidate's term is not an earlier one, this server has not voted for another
   * in it, and the candidate's last entry is of a later term or is of the same term and not shorter.
   */
  lemma VoteExactly(nd: Node, a: RequestVoteArgs)
    requires Valid(nd)
    ensures
      var (d, r) := RequestVote(nd, a);
      var last := nd.logs[|nd.logs| - 1].term;
      && (r.voteGranted <==>
            && nd.currentTerm <= a.term
            && (nd.currentTerm < a.term || nd.votedFor == -1 || nd.votedFor == a.candidateId)
            && (last < a.lastLogTerm || (last == a.lastLogTerm && nd.snapLastIndex + |nd.logs| - 1 <= a.lastLogIndex)))
      && (r.voteGranted ==> d.votedFor == a.candidateId == d.disk.votedFor && d.currentTerm == a.term == d.disk.currentTerm)
      && (!r.voteGranted && nd.currentTerm == d.currentTerm ==> d.votedFor == nd.votedFor)
      && r.term == d.currentTerm && d.logs == nd.logs
  {
  }

  /** In every run a candidate can take office exactly when it counts more votes than half the servers. */
  lemma WinExactly(run: seq<Cluster>, acts: seq<Action>, s: nat)
    requires IsRun(run, acts) && s < |Last(run).nodes|
    ensures
      var nd := Last(run).nodes[s];
      Wants(Last(run), Win(s)) <==> nd.role == Candidate && nd.voteCount > |Last(run).nodes| - nd.voteCount
  {
    var c := BehindRun(run, acts, |acts|);
    HistoryIsLog(Last(run), c, s);
  }

  /** It then starts with every peer at its own end, and has heard from none. */
  lemma OfficeStarts(run: seq<Cluster>, acts: seq<Action>, i: nat, s: nat, p: nat)
    requires IsRun(run, acts) && i < |acts| && acts[i] == Win(s) && p < |run[i].nodes|
    ensures s < |run[i].nodes| == |run[i + 1].nodes|
    ensures
      var nd, d := run[i].nodes[s], run[i + 1].nodes[s];
      && d.role == Leader && d.currentTerm == nd.currentTerm && d.logs == nd.logs && 1 <= |d.logs|
      && p < |d.nextIndex| && p < |d.matchIndex| && d.nextIndex[p] == LastIndex(d) + 1 && d.matchIndex[p] == 0
  {
    assert Step(run[i], acts[i], run[i + 1]);
  }
}
