/**
 * A family of runs of three servers: a first leader is left with entries nobody else has,
 * and a second leader commits others in their place. The numbers of entries are free.
 */
module RaftRivals {
  import opened RaftTypes
  import opened RaftNode
  import opened RaftCluster
  import opened RaftSafety
  import opened RaftRuns

  const S := Entry(0, NIL)

  function Copies(t: nat, x: Command, k: nat): Log {
    seq(k, i => Entry(t, x))
  }

  /** A server of three that has compacted and applied nothing. */
  function Server(me: nat, term: nat, voted: int, log: Log, commit: nat, next: seq<nat>, held: seq<nat>, role: Role, votes: nat): Node {
    Node(me, 3, term, voted, [S] + log, commit, 0, next, held, role, votes, 0, 0, [], Disk(term, voted, [S] + log, []))
  }

  function Follows(me: nat, term: nat, voted: int, log: Log): Node {
    Server(me, term, voted, log, 0, [1, 1, 1], [0, 0, 0], Follower, 0)
  }

  /** Server 0, leader of term 1. */
  function Old(log: Log): Node {
    Server(0, 1, 0, log, 0, [1, 1, 1], [0, 0, 0], Leader, 2)
  }

  /** Server 1, leader of term 2, elected with `len` entries. */
  function New(len: nat, log: Log): Node {
    Server(1, 2, 1, log, 0, [len + 1, len + 1, len + 1], [0, 0, 0], Leader, 2)
  }

  // ----- the first leader -----

  lemma FreshServer(s: nat)
    requires s < 3
    ensures Fresh(s, 3) == Follows(s, 0, -1, [])
  {
    var nd := Fresh(s, 3);
    assert nd.nextIndex == [1, 1, 1] && nd.matchIndex == [0, 0, 0] && [S] + [] == [S];
  }

  lemma Called(nd: Node, p: nat)
    requires Valid(nd) && p < nd.n && p != nd.me
    ensures VoteReq(p, VoteArgs(nd)) in Ballots(nd)
  {
  }

  function Leads(s: nat, term: nat, log: Log): Node {
    var next := |log| + 1;
    Server(s, term, s, log, 0, [next, next, next], [0, 0, 0], Leader, 2)
  }

  lemma Stands(h: Trace, k: nat, cl: Cluster, s: nat, u: nat, t: nat, v: int, log: Log) returns (d: Cluster)
    requires s in h.who && u in h.who
    requires Onward(h, k, cl) && |cl.nodes| == 3 && s < 3 && u < 3 && u != s && cl.nodes[s] == Follows(s, t, v, log)
    ensures Onward(h, k + 1, d) && d.nodes == cl.nodes[s := Server(s, t + 1, s, log, 0, [1, 1, 1], [0, 0, 0], Candidate, 1)]
    ensures VoteReq(u, RequestVoteArgs(t + 1, s, |log|, ([S] + log)[|log|].term)) in d.net
  {
    d := Next(h, k, cl, Timeout(s));
    Called(d.nodes[s], u);
  }

  /** Server `s` becomes leader with the vote of server `u`, whose log is empty. */
  lemma Elected(h: Trace, k: nat, cl: Cluster, s: nat, u: nat, t: nat, v: int, log: Log, t': nat, v': int) returns (d: Cluster)
    requires s in h.who && u in h.who
    requires Onward(h, k, cl) && |cl.nodes| == 3 && s < 3 && u < 3 && u != s && t' <= t
    requires cl.nodes[s] == Follows(s, t, v, log) && cl.nodes[u] == Follows(u, t', v', []) && -1 <= v'
    ensures Onward(h, k + 4, d) && d.nodes == cl.nodes[s := Leads(s, t + 1, log)][u := Follows(u, t + 1, s, [])]
  {
    var a := RequestVoteArgs(t + 1, s, |log|, ([S] + log)[|log|].term);
    var r := RequestVoteReply(t + 1, true);
    d := Stands(h, k, cl, s, u, t, v, log);
    assert [S] + [] == [S];
    d := Next(h, k + 1, d, Receive(VoteReq(u, a)));
    assert d.nodes[u] == Follows(u, t + 1, s, []) && VoteRep(u, a, r) in d.net;
    d := Next(h, k + 2, d, Receive(VoteRep(u, a, r)));
    d := Next(h, k + 3, d, Win(s));
    var next := |log| + 1;
    assert d.nodes[s].nextIndex == [next, next, next] && d.nodes[s].matchIndex == [0, 0, 0];
  }

  lemma FirstLeader() returns (cl: Cluster)
    ensures Onward(FromBoot(3), 4, cl) && cl.nodes == [Old([]), Follows(1, 1, 0, []), Follows(2, 0, -1, [])]
  {
    Booted(3);
    FreshServer(0);
    FreshServer(1);
    FreshServer(2);
    cl := Elected(FromBoot(3), 0, Boot(3), 0, 1, 0, -1, [], 0, -1);
  }

  // ----- commands -----

  function WithLog(nd: Node, log: Log): Node {
    nd.(logs := [S] + log, disk := nd.disk.(logs := [S] + log))
  }

  /** The leader `s` takes `n` times the command `x`. */
  lemma {:induction false} SubmitMany(h: Trace, k: nat, cl: Cluster, s: nat, log: Log, x: Command, n: nat) returns (d: Cluster)
    requires s in h.who
    requires Onward(h, k, cl) && s < |cl.nodes| && cl.nodes[s].role == Leader && cl.nodes[s].logs == [S] + log && Persisted(cl.nodes[s])
    ensures Onward(h, k + n, d)
    ensures d.nodes == cl.nodes[s := WithLog(cl.nodes[s], log + Copies(cl.nodes[s].currentTerm, x, n))]
  {
    var t := cl.nodes[s].currentTerm;
    if n == 0 {
      d := cl;
      assert log + Copies(t, x, 0) == log;
    } else {
      var b := SubmitMany(h, k, cl, s, log, x, n - 1);
      d := Next(h, k + n - 1, b, Submit(s, x));
      assert [S] + (log + Copies(t, x, n - 1)) + [Entry(t, x)] == [S] + (log + Copies(t, x, n));
    }
  }

  /** A follower with an empty log takes the whole log of a leader. */
  lemma TakesWhole(f: Node, a: AppendEntriesArgs)
    requires Valid(f) && f.logs == [S] && f.snapLastIndex == 0 && f.currentTerm == a.term && f.role == Follower
    requires a.prevLogIndex == 0 && a.prevLogTerm == 0 && a.leaderCommit == 0
    ensures AppendEntries(f, a) == (WithLog(f, a.entries), AppendEntriesReply(a.term, true, 0, -1))
  {
    assert Merge([S], 1, a.entries) == [S] + a.entries;
  }

  lemma SendWhole(h: Trace, k: nat, cl: Cluster, s: nat, u: nat, log: Log) returns (d: Cluster)
    requires s in h.who && u in h.who
    requires Onward(h, k, cl) && s < |cl.nodes| && u < |cl.nodes| && s != u
    requires cl.nodes[s].role == Leader && cl.nodes[s].logs == [S] + log && cl.nodes[s].snapLastIndex == 0 && cl.nodes[s].me == s
    requires
      var f := cl.nodes[u];
      Valid(f) && f.logs == [S] && f.snapLastIndex == 0 && f.currentTerm == cl.nodes[s].currentTerm && f.role == Follower
    ensures Onward(h, k + 2, d) && d.nodes == cl.nodes[u := WithLog(cl.nodes[u], log)]
    ensures
      var t := cl.nodes[s].currentTerm;
      AppendRep(u, AppendEntriesArgs(t, s, 0, 0, 0, log), AppendEntriesReply(t, true, 0, -1)) in d.net
  {
    var t := cl.nodes[s].currentTerm;
    var a := AppendEntriesArgs(t, s, 0, 0, 0, log);
    d := Next(h, k, cl, Send(s, u, 0, |log|, 0));
    assert ([S] + log)[1..1 + |log|] == log;
    assert AppendReq(u, a) in d.net;
    d := Next(h, k + 1, d, Receive(AppendReq(u, a)));
    TakesWhole(cl.nodes[u], a);
  }

  /** Both have `len` entries; then server 0 alone takes `stale` more. */
  function Stale(len: nat, stale: nat): Log {
    Copies(1, 1, len) + Copies(1, 2, stale)
  }

  lemma PartWays(len: nat, stale: nat) returns (k: nat, cl: Cluster)
    ensures Onward(FromBoot(3), k, cl)
    ensures cl.nodes == [Old(Stale(len, stale)), Follows(1, 1, 0, Copies(1, 1, len)), Follows(2, 0, -1, [])]
  {
    var h, common := FromBoot(3), Copies(1, 1, len);
    cl := FirstLeader();
    k := 4;
    cl := SubmitMany(h, k, cl, 0, [], 1, len);
    assert [] + common == common && cl.nodes[0] == Old(common);
    assert [S] + [] == [S];
    cl := SendWhole(h, k + len, cl, 0, 1, common);
    assert cl.nodes[1] == Follows(1, 1, 0, common);
    cl := SubmitMany(h, k + len + 2, cl, 0, common, 2, stale);
    k := k + len + 2 + stale;
  }

  // ----- the second leader -----

  lemma SecondLeader(len: nat, stale: nat) returns (k: nat, cl: Cluster)
    ensures Onward(FromBoot(3), k, cl)
    ensures cl.nodes == [Old(Stale(len, stale)), New(len, Copies(1, 1, len)), Follows(2, 2, 1, [])]
  {
    var h, common := FromBoot(3), Copies(1, 1, len);
    k, cl := PartWays(len, stale);
    cl := Elected(h, k, cl, 1, 2, 1, 0, common, 0, -1);
    k := k + 4;
  }

  /** Its log: the `len` common entries, and its own up to `lc`. */
  function Final(len: nat, lc: nat): Log
    requires len < lc
  {
    Copies(1, 1, len) + Copies(2, 3, lc - len)
  }

  /** Server 1 and server 2 have the `lc` entries, which server 1 knows to be committed. */
  predicate Rivals(cl: Cluster, len: nat, stale: nat, lc: nat)
    requires len < lc
  {
    var r := Final(len, lc);
    cl.nodes == [
      Old(Stale(len, stale)),
      Server(1, 2, 1, r, lc, [len + 1, len + 1, lc + 1], [0, 0, lc], Leader, 2),
      Follows(2, 2, 1, r)]
  }

  lemma Counts(len: nat, lc: nat)
    requires len < lc
    ensures
      var l, a, r := New(len, Final(len, lc)), AppendEntriesArgs(2, 1, 0, 0, 0, Final(len, lc)), AppendEntriesReply(2, true, 0, -1);
      AppendReply(l, 2, a, r) == Server(1, 2, 1, Final(len, lc), lc, [len + 1, len + 1, lc + 1], [0, 0, lc], Leader, 2)
  {
    var l := New(len, Final(len, lc));
    var d := Server(1, 2, 1, Final(len, lc), 0, [len + 1, len + 1, lc + 1], [0, 0, lc], Leader, 2);
    assert l.nextIndex[2 := lc + 1] == d.nextIndex && l.matchIndex[2 := lc] == d.matchIndex;
    assert Matched(l, 2, lc) == d;
    assert Holders(d, lc, 1) == 0;
    assert Holders(d, lc, 2) == 1;
    assert Holders(d, lc, 3) == 2;
    assert CommitScan(d, lc) == lc;
  }

  lemma RivalsExist(len: nat, stale: nat, lc: nat) returns (k: nat, cl: Cluster)
    requires len < lc
    ensures Onward(FromBoot(3), k, cl) && Rivals(cl, len, stale, lc)
  {
    var h, r := FromBoot(3), Final(len, lc);
    k, cl := SecondLeader(len, stale);
    cl := SubmitMany(h, k, cl, 1, Copies(1, 1, len), 3, lc - len);
    assert cl.nodes[1] == New(len, r);
    k := k + (lc - len);
    assert [S] + [] == [S];
    cl := SendWhole(h, k, cl, 1, 2, r);
    assert cl.nodes[2] == Follows(2, 2, 1, r);
    cl := Next(h, k + 2, cl, Receive(AppendRep(2, AppendEntriesArgs(2, 1, 0, 0, 0, r), AppendEntriesReply(2, true, 0, -1))));
    Counts(len, lc);
    k := k + 3;
  }
}
