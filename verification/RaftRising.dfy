/** A run in which a rejection raises nextIndex: the follower has compacted the index the leader tries. */
module RaftRising {
  import opened RaftTypes
  import opened RaftNode
  import opened RaftCluster
  import opened RaftSafety
  import opened RaftRuns

  const S := Entry(0, NIL)
  const X := Entry(1, 7)

  /** A server of two that has compacted nothing. */
  function Server(me: nat, term: nat, voted: int, logs: seq<Entry>, commit: nat, next: nat, held: nat, role: Role, votes: nat): Node {
    Node(me, 2, term, voted, logs, commit, 0, [1, next], [0, held], role, votes, 0, 0, [], Disk(term, voted, logs, []))
  }

  function Leads(logs: seq<Entry>, commit: nat, next: nat, held: nat): Node {
    Server(0, 1, 0, logs, commit, next, held, Leader, 2)
  }

  function Follows(logs: seq<Entry>, commit: nat): Node {
    Server(1, 1, 0, logs, commit, 1, 0, Follower, 0)
  }

  const CALL := RequestVoteArgs(1, 0, 0, 0)

  lemma FreshServer(s: nat)
    requires s < 2
    ensures Fresh(s, 2) == Server(s, 0, -1, [S], 0, 1, 0, Follower, 0)
  {
    assert Fresh(s, 2).nextIndex == [1, 1] && Fresh(s, 2).matchIndex == [0, 0];
  }

  lemma Called(nd: Node)
    requires nd == Server(0, 1, 0, [S], 0, 1, 0, Candidate, 1)
    ensures Valid(nd) && VoteReq(1, CALL) in Ballots(nd)
  {
    assert VoteReq(1, VoteArgs(nd)) in Ballots(nd);
  }

  lemma Campaign() returns (cl: Cluster)
    ensures Onward(FromBoot(2), 1, cl)
    ensures cl.nodes == [Server(0, 1, 0, [S], 0, 1, 0, Candidate, 1), Server(1, 0, -1, [S], 0, 1, 0, Follower, 0)]
    ensures VoteReq(1, CALL) in cl.net
  {
    Booted(2);
    FreshServer(0);
    FreshServer(1);
    cl := Next(FromBoot(2), 0, Boot(2), Timeout(0));
    Called(cl.nodes[0]);
  }

  lemma Elected() returns (cl: Cluster)
    ensures Onward(FromBoot(2), 4, cl) && cl.nodes == [Leads([S], 0, 1, 0), Follows([S], 0)]
  {
    cl := Campaign();
    cl := Next(FromBoot(2), 1, cl, Receive(VoteReq(1, CALL)));
    assert cl.nodes[1] == Follows([S], 0);
    cl := Next(FromBoot(2), 2, cl, Receive(VoteRep(1, CALL, RequestVoteReply(1, true))));
    assert cl.nodes[0] == Server(0, 1, 0, [S], 0, 1, 0, Candidate, 2);
    cl := Next(FromBoot(2), 3, cl, Win(0));
    assert cl.nodes[0].nextIndex == [1, 1] && cl.nodes[0].matchIndex == [0, 0];
  }

  const EARLY := AppendEntriesArgs(1, 0, 1, 1, 0, [])
  const REJECTED := AppendEntriesReply(1, false, 1, -1)

  lemma Asks() returns (cl: Cluster)
    ensures Onward(FromBoot(2), 6, cl) && cl.nodes == [Leads([S, X], 0, 1, 0), Follows([S], 0)] && AppendReq(1, EARLY) in cl.net
  {
    cl := Elected();
    cl := Next(FromBoot(2), 4, cl, Submit(0, 7));
    assert [S] + [X] == [S, X];
    assert cl.nodes[0] == Leads([S, X], 0, 1, 0);
    cl := Next(FromBoot(2), 5, cl, Send(0, 1, 1, 0, 0));
    assert [S, X][2..2] == [];
  }

  /** The leader's first attempt finds the follower's log too short; the rejection stays in the network. */
  lemma Rejects() returns (cl: Cluster)
    ensures Onward(FromBoot(2), 7, cl) && cl.nodes == [Leads([S, X], 0, 1, 0), Follows([S], 0)] && AppendRep(1, EARLY, REJECTED) in cl.net
  {
    cl := Asks();
    cl := Next(FromBoot(2), 6, cl, Receive(AppendReq(1, EARLY)));
  }

  const WHOLE := AppendEntriesArgs(1, 0, 0, 0, 0, [X])
  const TAKEN := AppendEntriesReply(1, true, 0, -1)

  lemma Accepts() returns (cl: Cluster)
    ensures Onward(FromBoot(2), 9, cl) && cl.nodes == [Leads([S, X], 0, 1, 0), Follows([S, X], 0)]
    ensures AppendRep(1, EARLY, REJECTED) in cl.net && AppendRep(1, WHOLE, TAKEN) in cl.net
  {
    cl := Rejects();
    cl := Next(FromBoot(2), 7, cl, Send(0, 1, 0, 1, 0));
    assert [S, X][1..2] == [X];
    cl := Next(FromBoot(2), 8, cl, Receive(AppendReq(1, WHOLE)));
    assert [S][..1] + [X] == [S, X];
    assert cl.nodes[1] == Follows([S, X], 0);
  }

  lemma Replicates() returns (cl: Cluster)
    ensures Onward(FromBoot(2), 10, cl) && cl.nodes == [Leads([S, X], 1, 2, 1), Follows([S, X], 0)] && AppendRep(1, EARLY, REJECTED) in cl.net
  {
    cl := Accepts();
    cl := Next(FromBoot(2), 9, cl, Receive(AppendRep(1, WHOLE, TAKEN)));
    Counted(Leads([S, X], 0, 1, 0));
  }

  lemma Counted(l: Node)
    requires l == Leads([S, X], 0, 1, 0)
    ensures AppendReply(l, 1, WHOLE, TAKEN) == Leads([S, X], 1, 2, 1)
  {
    assert [1, 1][1 := 2] == [1, 2] && [0, 0][1 := 1] == [0, 1];
    var d := Leads([S, X], 0, 2, 1);
    assert Matched(l, 1, 1) == d;
    assert Holders(d, 1, 1) == 1;
    assert Holders(d, 1, 2) == 2;
    assert AdvanceCommit(d) == Leads([S, X], 1, 2, 1);
  }

  const NEWS := AppendEntriesArgs(1, 0, 1, 1, 1, [])

  function Compacted(): Node {
    Node(1, 2, 1, 0, [Entry(1, NIL)], 1, 1, [1, 1], [0, 0], Follower, 0, 1, 1, [7], Disk(1, 0, [Entry(1, NIL)], [7]))
  }

  lemma Learns() returns (cl: Cluster)
    ensures Onward(FromBoot(2), 12, cl) && cl.nodes == [Leads([S, X], 1, 2, 1), Follows([S, X], 1)] && AppendRep(1, EARLY, REJECTED) in cl.net
  {
    cl := Replicates();
    cl := Next(FromBoot(2), 10, cl, Send(0, 1, 1, 0, 1));
    assert [S, X][2..2] == [];
    cl := Next(FromBoot(2), 11, cl, Receive(AppendReq(1, NEWS)));
    assert cl.nodes[1] == Follows([S, X], 1);
  }

  lemma Compacts() returns (cl: Cluster)
    ensures Onward(FromBoot(2), 14, cl) && cl.nodes == [Leads([S, X], 1, 2, 1), Compacted()] && AppendRep(1, EARLY, REJECTED) in cl.net
  {
    cl := Learns();
    cl := Next(FromBoot(2), 12, cl, Hand(1));
    assert [] + [7] == [7];
    assert cl.nodes[1] == Follows([S, X], 1).(lastApplied := 1, service := [7]);
    cl := Next(FromBoot(2), 13, cl, Compact(1, 1));
    assert [Entry(1, NIL)] + [S, X][2..] == [Entry(1, NIL)] && [7][..1] == [7];
  }

  /** The old rejection takes the leader back to an index the follower has since compacted. */
  lemma TakenBack() returns (cl: Cluster)
    ensures Onward(FromBoot(2), 15, cl) && cl.nodes == [Leads([S, X], 1, 1, 1), Compacted()]
  {
    cl := Compacts();
    cl := Next(FromBoot(2), 14, cl, Receive(AppendRep(1, EARLY, REJECTED)));
    assert [1, 2][1 := 1] == [1, 1];
    assert AdvanceCommit(Leads([S, X], 1, 1, 1)) == Leads([S, X], 1, 1, 1);
  }

  /** From there the next attempt is rejected, and the rejection raises nextIndex from 1 to 2. */
  lemma RisingExample() returns (run: seq<Cluster>, acts: seq<Action>)
    ensures IsRun(run, acts) && |Last(run).nodes| == 2
    ensures
      var l, f := Last(run).nodes[0], Last(run).nodes[1];
      && Valid(l) && Valid(f) && l.role == Leader && l.n == 2 && l.nextIndex[1] == 1 && f.snapLastIndex == 1
      && l.snapLastIndex < l.nextIndex[1] <= LastIndex(l) + 1
      && var a := AppendArgs(l, 1);
         var r := AppendEntries(f, a).1;
         !r.success && BackUp(l, r) == 2 && AppendReply(l, 1, a, r).nextIndex == [1, 2]
  {
    var cl := TakenBack();
    run, acts := RunTo(FromBoot(2), 15, cl);
    assert AdvanceCommit(Leads([S, X], 1, 2, 1)) == Leads([S, X], 1, 2, 1);
  }
}
