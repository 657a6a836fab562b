/**
 * Nothing a run does can lock a cluster up: whatever messages were lost and whichever servers
 * crashed, a majority, with nobody else taking a step, can still elect a leader and deliver a
 * new command to all its services. Fewer never can.
 */
module RaftProgress {
  import opened RaftTypes
  import opened RaftNode
  import opened RaftCore
  import opened RaftCluster
  import opened RaftCoupling
  import opened RaftSimulation
  import opened RaftSafety
  import opened RaftBackup
  import opened RaftRuns
  import opened RaftCatchUp

  predicate Named(cl: Cluster, s: nat)
    requires s < |cl.nodes|
  {
    Valid(cl.nodes[s]) && cl.nodes[s].me == s && cl.nodes[s].n == |cl.nodes|
  }

  predicate AllNamed(cl: Cluster) {
    forall s: nat :: s < |cl.nodes| ==> Named(cl, s)
  }

  lemma Names(h: Trace, k: nat, cl: Cluster)
    requires Onward(h, k, cl)
    ensures AllNamed(cl)
  {
    var c := Behind(h, k, cl);
    forall s: nat | s < |cl.nodes| ensures Named(cl, s) {
      HistoryIsLog(cl, c, s);
    }
  }

  // ----- a server nobody can refuse -----

  /** Server `b` would vote for `a` in a later term. */
  predicate Outranks(a: Node, b: Node) {
    Valid(a) && Valid(b) && UpToDate(LastIndex(a), LogTerm(a, LastIndex(a)), LastIndex(b), LogTerm(b, LastIndex(b)))
  }

  lemma {:induction false} MostUpToDate(cl: Cluster, q: set<nat>) returns (s: nat)
    requires AllNamed(cl) && q != {} && q <= Servers(|cl.nodes|)
    ensures s in q && forall u: nat :: u in q ==> Outranks(cl.nodes[s], cl.nodes[u])
    decreases q
  {
    var v :| v in q;
    assert Named(cl, v);
    if q == {v} {
      s := v;
    } else {
      var b := MostUpToDate(cl, q - {v});
      assert Outranks(cl.nodes[b], cl.nodes[b]);
      s := if Outranks(cl.nodes[b], cl.nodes[v]) then b else v;
    }
  }

  lemma {:induction false} LatestTerm(nodes: seq<Node>) returns (t: nat)
    ensures forall u :: 0 <= u < |nodes| ==> nodes[u].currentTerm <= t
  {
    if nodes == [] {
      t := 0;
    } else {
      var t' := LatestTerm(nodes[1..]);
      t := Max(nodes[0].currentTerm, t');
      assert forall u :: 1 <= u < |nodes| ==> nodes[1..][u - 1] == nodes[u];
    }
  }

  // ----- an election it wins -----

  predicate OthersSame(cl: Cluster, d: Cluster, s: nat) {
    |d.nodes| == |cl.nodes| && forall u :: 0 <= u < |cl.nodes| && u != s ==> d.nodes[u] == cl.nodes[u]
  }

  /** A leader that must stand again comes back from a crash as a follower. */
  lemma NotLeading(h: Trace, k: nat, cl: Cluster, s: nat) returns (d: Cluster)
    requires Onward(h, k, cl) && s in h.who && s < |cl.nodes| && Named(cl, s)
    ensures Onward(h, k + 1, d) && OthersSame(cl, d, s) && SameLogs(cl.nodes[s], d.nodes[s]) && d.nodes[s].role == Follower
  {
    d := Next(h, k, cl, Crash(s));
  }

  /** `s` has called an election in a term after `t`, and its calls are in the network. */
  predicate Calling(cl: Cluster, s: nat, t: nat)
    requires s < |cl.nodes|
  {
    var nd := cl.nodes[s];
    && Named(cl, s) && nd.role == Candidate && nd.voteCount == 1 && t < nd.currentTerm
    && forall u: nat :: u < |cl.nodes| && u != s ==> VoteReq(u, VoteArgs(nd)) in cl.net
  }

  lemma {:induction false} StandsAfter(h: Trace, k: nat, cl: Cluster, s: nat, t: nat) returns (k': nat, d: Cluster)
    requires Onward(h, k, cl) && s in h.who && s < |cl.nodes| && Named(cl, s) && cl.nodes[s].role != Leader
    ensures Onward(h, k', d) && OthersSame(cl, d, s) && SameLogs(cl.nodes[s], d.nodes[s]) && Calling(d, s, t)
    decreases t - cl.nodes[s].currentTerm
  {
    d := Next(h, k, cl, Timeout(s));
    k' := k + 1;
    var nd := d.nodes[s];
    assert forall u: nat :: u < |cl.nodes| && u != s ==> VoteReq(u, VoteArgs(nd)) in Ballots(nd);
    if nd.currentTerm <= t {
      k', d := StandsAfter(h, k', d, s, t);
    }
  }

  /** The members of `q` below `j`, other than `s`. */
  function Below(q: set<nat>, s: nat, j: nat): set<nat> {
    set u | u in q && u < j && u != s
  }

  /** The members of `q` below `j` have voted for `s`; the rest of `q` has not been asked. */
  predicate Polled(cl: Cluster, q: set<nat>, s: nat, j: nat)
    requires s < |cl.nodes|
  {
    var nd := cl.nodes[s];
    && Named(cl, s) && nd.role == Candidate && nd.voteCount == 1 + |Below(q, s, j)|
    && (forall u: nat :: u < |cl.nodes| && u != s ==> cl.nodes[u].currentTerm <= nd.currentTerm)
    && (forall u: nat :: u in q && j <= u < |cl.nodes| && u != s ==> Willing(cl, s, u))
  }

  /** Server `u` will vote for `s` once it gets the call that is on its way. */
  predicate Willing(cl: Cluster, s: nat, u: nat)
    requires s < |cl.nodes| && u < |cl.nodes| && Named(cl, s)
  {
    var l, f := cl.nodes[s], cl.nodes[u];
    f.currentTerm < l.currentTerm && Outranks(l, f) && VoteReq(u, VoteArgs(l)) in cl.net
  }

  lemma Granted(f: Node, a: RequestVoteArgs)
    requires Valid(f) && f.currentTerm < a.term && UpToDate(a.lastLogIndex, a.lastLogTerm, LastIndex(f), LogTerm(f, LastIndex(f)))
    ensures RequestVote(f, a).1 == RequestVoteReply(a.term, true) && RequestVote(f, a).0.currentTerm == a.term
  {
  }

  lemma OneMoreVote(q: set<nat>, s: nat, u: nat)
    requires u in q && u != s
    ensures |Below(q, s, u + 1)| == |Below(q, s, u)| + 1
  {
    assert Below(q, s, u + 1) == Below(q, s, u) + {u};
  }

  lemma OneVote(h: Trace, k: nat, cl: Cluster, s: nat, u: nat) returns (d: Cluster)
    requires Onward(h, k, cl) && BothAct(h, s, u) && s < |cl.nodes| && u < |cl.nodes| && u != s && Polled(cl, h.who, s, u)
    ensures Onward(h, k + 2, d) && |d.nodes| == |cl.nodes| && Polled(d, h.who, s, u + 1)
    ensures d.nodes[s].currentTerm == cl.nodes[s].currentTerm
  {
    var l, f := cl.nodes[s], cl.nodes[u];
    var a := VoteArgs(l);
    var r := RequestVoteReply(a.term, true);
    assert Willing(cl, s, u);
    var b := Next(h, k, cl, Receive(VoteReq(u, a)));
    Granted(f, a);
    assert VoteRep(u, a, r) in b.net;
    d := Next(h, k + 1, b, Receive(VoteRep(u, a, r)));
    OneMoreVote(h.who, s, u);
    forall v: nat | v in h.who && u + 1 <= v < |d.nodes| && v != s ensures Willing(d, s, v) {
      assert Willing(cl, s, v);
    }
  }

  lemma SkipsOne(cl: Cluster, q: set<nat>, s: nat, j: nat)
    requires s < |cl.nodes| && Polled(cl, q, s, j) && (j == s || j !in q)
    ensures Polled(cl, q, s, j + 1)
  {
    assert Below(q, s, j + 1) == Below(q, s, j);
  }

  lemma {:induction false} AllVote(h: Trace, k: nat, cl: Cluster, s: nat, j: nat) returns (k': nat, d: Cluster)
    requires Onward(h, k, cl) && s in h.who && s < |cl.nodes| && j <= |cl.nodes| && Polled(cl, h.who, s, j)
    ensures Onward(h, k', d) && |d.nodes| == |cl.nodes| && Polled(d, h.who, s, |d.nodes|)
    ensures d.nodes[s].currentTerm == cl.nodes[s].currentTerm
    decreases |cl.nodes| - j
  {
    if j == |cl.nodes| {
      k', d := k, cl;
    } else {
      var b, kb := cl, k;
      if j != s && j in h.who {
        b := OneVote(h, k, cl, s, j);
        kb := k + 2;
      } else {
        SkipsOne(cl, h.who, s, j);
      }
      k', d := AllVote(h, kb, b, s, j + 1);
    }
  }

  /** `s` leads in the latest term there is. */
  predicate Rules(cl: Cluster, s: nat) {
    s < |cl.nodes| && cl.nodes[s].role == Leader && forall u: nat :: u < |cl.nodes| && u != s ==> Over(cl, s, u)
  }

  lemma CallingIsPolled(cl: Cluster, d: Cluster, q: set<nat>, s: nat, t: nat)
    requires AllNamed(cl) && s < |cl.nodes| && OthersSame(cl, d, s) && SameLogs(cl.nodes[s], d.nodes[s]) && Calling(d, s, t)
    requires q <= Servers(|cl.nodes|) && forall u: nat :: u in q ==> Outranks(cl.nodes[s], cl.nodes[u])
    requires forall u :: 0 <= u < |cl.nodes| ==> cl.nodes[u].currentTerm <= t
    ensures Polled(d, q, s, 0)
  {
    assert Below(q, s, 0) == {};
    forall u: nat | u in q && 0 <= u < |d.nodes| && u != s ensures Willing(d, s, u) {
      assert Outranks(cl.nodes[s], cl.nodes[u]);
    }
  }

  /** A majority of votes is enough. */
  lemma TakesOffice(h: Trace, k: nat, cl: Cluster, s: nat) returns (d: Cluster)
    requires Onward(h, k, cl) && s in h.who && s < |cl.nodes| && Polled(cl, h.who, s, |cl.nodes|) && Quorum(|cl.nodes|, h.who)
    ensures Onward(h, k + 1, d) && |d.nodes| == |cl.nodes| && Rules(d, s)
    ensures d.nodes[s].currentTerm == cl.nodes[s].currentTerm
  {
    assert Below(h.who, s, |cl.nodes|) == h.who - {s};
    d := Next(h, k, cl, Win(s));
  }

  /** Whatever has happened, any majority can elect one of its members in a term after all terms there are. */
  lemma CanElect(h: Trace, k: nat, cl: Cluster) returns (k': nat, d: Cluster, s: nat)
    requires Onward(h, k, cl) && Quorum(|cl.nodes|, h.who)
    ensures Onward(h, k', d) && |d.nodes| == |cl.nodes| && s in h.who && Rules(d, s)
    ensures forall u :: 0 <= u < |cl.nodes| ==> cl.nodes[u].currentTerm < d.nodes[s].currentTerm
  {
    Names(h, k, cl);
    s := MostUpToDate(cl, h.who);
    var t := LatestTerm(cl.nodes);
    assert Named(cl, s);
    var b := NotLeading(h, k, cl, s);
    Names(h, k + 1, b);
    assert Named(b, s);
    k', d := StandsAfter(h, k + 1, b, s, t);
    CallingIsPolled(cl, d, h.who, s, t);
    var c := d;
    k', d := AllVote(h, k', c, s, 0);
    d := TakesOffice(h, k', d, s);
    k' := k' + 1;
  }

  // ----- a command everybody gets -----

  /** `s` leads in the latest term and the members of `q` below `j` have its whole log. */
  predicate Spread(cl: Cluster, q: set<nat>, s: nat, j: nat) {
    && Rules(cl, s) && Named(cl, s)
    && forall u: nat :: u in q && u < j && u < |cl.nodes| && u != s ==> LastIndex(cl.nodes[s]) <= cl.nodes[s].matchIndex[u]
  }

  /** What a majority holds is committed. */
  predicate CommitsMajority(l: Node)
    requires Valid(l)
  {
    LogTerm(l, LastIndex(l)) == l.currentTerm && 2 * Holders(l, LastIndex(l), l.n) > l.n ==> l.commitIndex == LastIndex(l)
  }

  lemma StillRules(cl: Cluster, d: Cluster, s: nat, u: nat)
    requires Rules(cl, s) && u < |cl.nodes| && u != s && Carried(cl, d, s, u)
    ensures Rules(d, s)
  {
    forall v: nat | v < |d.nodes| && v != s ensures Over(d, s, v) {
      assert Over(cl, s, v);
    }
  }

  lemma SpreadsOn(cl: Cluster, d: Cluster, q: set<nat>, s: nat, j: nat)
    requires j < |cl.nodes| && j != s && Spread(cl, q, s, j) && Done(cl, d, s, j) && AllNamed(d)
    ensures Spread(d, q, s, j + 1) && CommitsMajority(d.nodes[s])
  {
    StillRules(cl, d, s, j);
    assert Named(d, s);
  }

  lemma {:induction false} SpreadsToAll(h: Trace, k: nat, cl: Cluster, s: nat, j: nat) returns (k': nat, d: Cluster)
    requires Onward(h, k, cl) && s in h.who && j <= |cl.nodes| && Spread(cl, h.who, s, j)
    requires Below(h.who, s, j) != {} ==> CommitsMajority(cl.nodes[s])
    ensures Onward(h, k', d) && |d.nodes| == |cl.nodes| && Spread(d, h.who, s, |d.nodes|) && StillLeads(cl.nodes[s], d.nodes[s])
    ensures Below(h.who, s, |d.nodes|) != {} ==> CommitsMajority(d.nodes[s])
    decreases |cl.nodes| - j
  {
    if j == |cl.nodes| {
      k', d := k, cl;
    } else if j == s || j !in h.who {
      assert Below(h.who, s, j + 1) == Below(h.who, s, j);
      k', d := SpreadsToAll(h, k, cl, s, j + 1);
    } else {
      assert Over(cl, s, j);
      var b := CatchesUp(h, k, cl, s, j);
      var kb := k + 3 * Left(cl, s, j) + 11;
      Names(h, kb, b);
      SpreadsOn(cl, b, h.who, s, j);
      k', d := SpreadsToAll(h, kb, b, s, j + 1);
    }
  }

  function UpTo(q: set<nat>, k: nat): set<nat> {
    set u | u in q && u < k
  }

  lemma UpToNext(q: set<nat>, k: nat)
    ensures |UpTo(q, k + 1)| == |UpTo(q, k)| + (if k in q then 1 else 0)
  {
    assert UpTo(q, k + 1) == if k in q then UpTo(q, k) + {k} else UpTo(q, k);
  }

  /** Whoever of `q` is below `k` holds index `i`, so at least so many do. */
  lemma {:induction false} ManyHold(l: Node, q: set<nat>, i: nat, k: nat)
    requires k <= |l.matchIndex| && forall u: nat :: u in q && u < k && u != l.me ==> i <= l.matchIndex[u]
    ensures |UpTo(q, k)| <= Holders(l, i, k)
  {
    if k == 0 {
      assert UpTo(q, k) == {};
    } else {
      ManyHold(l, q, i, k - 1);
      UpToNext(q, k - 1);
    }
  }

  lemma CommitsAll(cl: Cluster, q: set<nat>, s: nat)
    requires Quorum(|cl.nodes|, q) && Spread(cl, q, s, |cl.nodes|) && CommitsMajority(cl.nodes[s])
    requires LogTerm(cl.nodes[s], LastIndex(cl.nodes[s])) == cl.nodes[s].currentTerm
    ensures cl.nodes[s].commitIndex == LastIndex(cl.nodes[s])
  {
    ManyHold(cl.nodes[s], q, LastIndex(cl.nodes[s]), |cl.nodes|);
    assert UpTo(q, |cl.nodes|) == q;
  }

  /** The members of `q` below `j`, and the leader, know index `m` to be committed. */
  predicate Knows(cl: Cluster, q: set<nat>, s: nat, j: nat, m: nat) {
    && Rules(cl, s) && m <= cl.nodes[s].commitIndex
    && forall u: nat :: u in q && u < j && u < |cl.nodes| ==> m <= cl.nodes[u].commitIndex
  }

  lemma {:induction false} TellsAll(h: Trace, k: nat, cl: Cluster, s: nat, j: nat, m: nat) returns (k': nat, d: Cluster)
    requires Onward(h, k, cl) && s in h.who && j <= |cl.nodes| && Knows(cl, h.who, s, j, m)
    ensures Onward(h, k', d) && |d.nodes| == |cl.nodes| && Knows(d, h.who, s, |d.nodes|, m) && StillLeads(cl.nodes[s], d.nodes[s])
    decreases |cl.nodes| - j
  {
    if j == |cl.nodes| {
      k', d := k, cl;
    } else if j == s || j !in h.who {
      k', d := TellsAll(h, k, cl, s, j + 1, m);
    } else {
      assert Over(cl, s, j);
      var b := CatchesUp(h, k, cl, s, j);
      StillRules(cl, b, s, j);
      k', d := TellsAll(h, k + 3 * Left(cl, s, j) + 11, b, s, j + 1, m);
    }
  }

  // ----- handing it to the services -----

  predicate SameButApplied(a: Node, b: Node) {
    && b.role == a.role && b.currentTerm == a.currentTerm && b.logs == a.logs
    && b.commitIndex == a.commitIndex && b.snapLastIndex == a.snapLastIndex
  }

  lemma {:induction false} HandsUpTo(h: Trace, k: nat, cl: Cluster, u: nat, m: nat) returns (k': nat, d: Cluster)
    requires Onward(h, k, cl) && u in h.who && u < |cl.nodes| && m <= cl.nodes[u].commitIndex
    ensures Onward(h, k', d) && OthersSame(cl, d, u) && SameButApplied(cl.nodes[u], d.nodes[u]) && m <= d.nodes[u].lastApplied
    decreases m - cl.nodes[u].lastApplied
  {
    if m <= cl.nodes[u].lastApplied {
      k', d := k, cl;
    } else {
      var b := Next(h, k, cl, Hand(u));
      k', d := HandsUpTo(h, k + 1, b, u, m);
    }
  }

  predicate AllApplied(cl: Cluster, q: set<nat>, j: nat, m: nat) {
    forall u: nat :: u in q && u < |cl.nodes| ==> m <= cl.nodes[u].commitIndex && (u < j ==> m <= cl.nodes[u].lastApplied)
  }

  lemma {:induction false} HandsAll(h: Trace, k: nat, cl: Cluster, j: nat, m: nat) returns (k': nat, d: Cluster)
    requires Onward(h, k, cl) && j <= |cl.nodes| && AllApplied(cl, h.who, j, m)
    ensures Onward(h, k', d) && |d.nodes| == |cl.nodes| && AllApplied(d, h.who, |d.nodes|, m)
    ensures forall u: nat :: u < |cl.nodes| ==> SameButApplied(cl.nodes[u], d.nodes[u])
    decreases |cl.nodes| - j
  {
    if j == |cl.nodes| {
      k', d := k, cl;
    } else if j !in h.who {
      k', d := HandsAll(h, k, cl, j + 1, m);
    } else {
      var kb, b := HandsUpTo(h, k, cl, j, m);
      k', d := HandsAll(h, kb, b, j + 1, m);
    }
  }

  // ----- availability -----

  /** The leader's last entry is the command `x`, of its own term. */
  predicate EndsWith(l: Node, x: Command) {
    2 <= |l.logs| && l.logs[|l.logs| - 1] == Entry(l.currentTerm, x)
  }

  /** The service of every server in `q` has been handed `x` at position `m`, after all that any had been handed before. */
  ghost predicate Delivers(cl: Cluster, d: Cluster, q: set<nat>, x: Command, m: nat) {
    |d.nodes| == |cl.nodes| && forall v: nat :: v in q && v < |cl.nodes| ==> GotIt(cl, d, v, x, m)
  }

  ghost predicate GotIt(cl: Cluster, d: Cluster, v: nat, x: Command, m: nat)
    requires v < |d.nodes|
  {
    var service := d.nodes[v].service;
    m < |service| && service[m] == x && forall u :: 0 <= u < |cl.nodes| ==> cl.nodes[u].service <= service[..m]
  }

  /** A leader elected later has room only after everything any service was handed. */
  lemma AfterAll(h: Trace, k: nat, cl: Cluster, s: nat, u: nat)
    requires Onward(h, k, cl) && IsRun(h.run, h.acts) && u < |Last(h.run).nodes| && s < |cl.nodes|
    requires cl.nodes[s].role == Leader && Last(h.run).nodes[u].currentTerm < cl.nodes[s].currentTerm
    ensures 1 <= |cl.nodes[s].logs| && |Last(h.run).nodes[u].service| <= LastIndex(cl.nodes[s])
  {
    var run, acts := RunTo(h, k, cl);
    var i := |h.acts|;
    assert run[i] == Last(h.run);
    LeadersAreComplete(run, acts, i, |acts|, u, s);
    var c := Behind(h, k, cl);
    HistoryIsLog(cl, c, s);
    Here(h.run, h.acts, {});
    var c' := Behind(Trace(h.run, h.acts, {}), 0, Last(h.run));
    HistoryIsLog(Last(h.run), c', u);
  }

  lemma HandedLast(nd: Node, x: Command)
    requires EndsWith(nd, x) && nd.service == History(nd)
    ensures nd.service != [] && nd.service[|nd.service| - 1] == x
  {
    assert nd.logs[1..][|nd.logs| - 2] == nd.logs[|nd.logs| - 1];
  }

  lemma ServiceIsHistory(c: Core, nd: Node)
    requires nd.me < |c.peers| && Mirrors(c, nd) && LastIndex(nd) <= nd.lastApplied
    ensures nd.service == History(nd) && |nd.service| == LastIndex(nd)
  {
    var log := c.peers[nd.me].log;
    assert log[..|log|] == log;
    CompactedHistory(nd, log);
  }

  lemma WholeService(cl: Cluster, c: Core, s: nat)
    requires Tied(cl, c) && s < |cl.nodes| && 1 <= |cl.nodes[s].logs| && LastIndex(cl.nodes[s]) <= cl.nodes[s].lastApplied
    ensures cl.nodes[s].service == History(cl.nodes[s]) && |cl.nodes[s].service| == LastIndex(cl.nodes[s])
  {
    HistoryIsLog(cl, c, s);
    ServiceIsHistory(c, cl.nodes[s]);
  }

  /** A leader that has applied its whole log has handed over the last command. */
  lemma LastHanded(h: Trace, k: nat, cl: Cluster, s: nat, x: Command, m: nat)
    requires Onward(h, k, cl) && s < |cl.nodes| && EndsWith(cl.nodes[s], x)
    requires m == LastIndex(cl.nodes[s]) <= cl.nodes[s].lastApplied
    ensures m == |cl.nodes[s].service| && 1 <= m && cl.nodes[s].service[m - 1] == x
  {
    var c := Behind(h, k, cl);
    WholeService(cl, c, s);
    HandedLast(cl.nodes[s], x);
  }

  lemma SameService(run: seq<Cluster>, acts: seq<Action>, i: nat, s: nat, v: nat, x: Command, m: nat)
    requires IsRun(run, acts) && i < |run| && s < |Last(run).nodes| && v < |Last(run).nodes|
    requires var a, b := Last(run).nodes[s].service, Last(run).nodes[v].service; m < |a| && m < |b| && a[m] == x
    requires forall u :: 0 <= u < |run[i].nodes| ==> |run[i].nodes[u].service| <= m
    ensures GotIt(run[i], Last(run), v, x, m)
  {
    ServicesAgree(run, acts, |acts|, |acts|, s, v);
    var service := Last(run).nodes[v].service;
    forall u: nat | u < |run[i].nodes| ensures run[i].nodes[u].service <= service[..m] {
      ServicesAgree(run, acts, i, |acts|, u, v);
    }
  }

  lemma CommandDelivered(h: Trace, k: nat, cl: Cluster, s: nat, x: Command, m: nat)
    returns (run: seq<Cluster>, acts: seq<Action>)
    requires Onward(h, k, cl) && IsRun(h.run, h.acts) && s in h.who && s < |cl.nodes| && EndsWith(cl.nodes[s], x)
    requires m == LastIndex(cl.nodes[s]) && AllApplied(cl, h.who, |cl.nodes|, m) && |cl.nodes| == |Last(h.run).nodes|
    requires forall u :: 0 <= u < |cl.nodes| ==> |Last(h.run).nodes[u].service| < m
    ensures Continued(h, k, cl, run, acts) && 1 <= m && Delivers(Last(h.run), cl, h.who, x, m - 1)
  {
    run, acts := RunTo(h, k, cl);
    Names(h, k, cl);
    LastHanded(h, k, cl, s, x, m);
    var i, p := |h.acts|, m - 1;
    assert run[i] == Last(h.run);
    forall v: nat | v in h.who && v < |cl.nodes| ensures GotIt(run[i], cl, v, x, p) {
      assert Named(cl, v);
      SameService(run, acts, i, s, v, x, p);
    }
  }

  predicate StillLeader(a: Node, b: Node) {
    b.role == Leader && b.currentTerm == a.currentTerm
  }

  /** From a leader of the latest term: submit, replicate, commit, announce. */
  lemma Replicates(h: Trace, k: nat, cl: Cluster, s: nat, x: Command) returns (k': nat, d: Cluster)
    requires Onward(h, k, cl) && 2 <= |cl.nodes| && Quorum(|cl.nodes|, h.who) && s in h.who && Rules(cl, s)
    ensures Onward(h, k', d) && |d.nodes| == |cl.nodes| && s < |d.nodes| && EndsWith(d.nodes[s], x) && StillLeader(cl.nodes[s], d.nodes[s])
    ensures 1 <= |cl.nodes[s].logs| && LastIndex(d.nodes[s]) == LastIndex(cl.nodes[s]) + 1
    ensures AllApplied(d, h.who, 0, LastIndex(d.nodes[s]))
  {
    Names(h, k, cl);
    assert Named(cl, s);
    var b := Next(h, k, cl, Submit(s, x));
    Names(h, k + 1, b);
    assert Named(b, s);
    Submitted(cl, b, s);
    assert Below(h.who, s, 0) == {};
    var kc, c := SpreadsToAll(h, k + 1, b, s, 0);
    assert Below(h.who, s, |c.nodes|) == h.who - {s} && |h.who - {s}| == |h.who| - 1;
    CommitsAll(c, h.who, s);
    var m := LastIndex(c.nodes[s]);
    k', d := TellsAll(h, kc, c, s, 0, m);
  }

  lemma Submitted(cl: Cluster, b: Cluster, s: nat)
    requires Rules(cl, s) && OthersSame(cl, b, s) && b.nodes[s].role == Leader && b.nodes[s].currentTerm == cl.nodes[s].currentTerm
    ensures Rules(b, s)
  {
    forall u: nat | u < |b.nodes| && u != s ensures Over(b, s, u) {
      assert Over(cl, s, u);
    }
  }

  /**
   * Every run of two or more servers can be continued by the actions of any majority alone, so that one of it
   * leads in a term after all terms there were and any command is delivered to every service of the majority.
   */
  lemma MajorityIsAvailable(run: seq<Cluster>, acts: seq<Action>, q: set<nat>, x: Command)
    returns (run': seq<Cluster>, acts': seq<Action>, s: nat, m: nat)
    requires IsRun(run, acts) && 2 <= |Last(run).nodes| && Quorum(|Last(run).nodes|, q)
    ensures IsRun(run', acts') && run <= run' && acts <= acts' && OnlyActs(acts', |acts|, q)
    ensures Delivers(Last(run), Last(run'), q, x, m) && s in q && s < |Last(run').nodes| && Last(run').nodes[s].role == Leader
    ensures forall u :: 0 <= u < |Last(run).nodes| ==> Last(run).nodes[u].currentTerm < Last(run').nodes[s].currentTerm
  {
    var h, cl := Trace(run, acts, q), Last(run);
    Here(run, acts, q);
    var kb, b;
    kb, b, s := CanElect(h, 0, cl);
    forall u: nat | u < |cl.nodes| ensures 1 <= |b.nodes[s].logs| && |cl.nodes[u].service| <= LastIndex(b.nodes[s]) {
      AfterAll(h, kb, b, s, u);
    }
    var kc, c := Replicates(h, kb, b, s, x);
    m := LastIndex(c.nodes[s]);
    var kd, d := HandsAll(h, kc, c, 0, m);
    run', acts' := CommandDelivered(h, kd, d, s, x, m);
    m := m - 1;
  }

  /** ... and so that any command is delivered to every service. */
  lemma AlwaysAvailable(run: seq<Cluster>, acts: seq<Action>, x: Command)
    returns (run': seq<Cluster>, acts': seq<Action>, m: nat)
    requires IsRun(run, acts) && 2 <= |Last(run).nodes|
    ensures IsRun(run', acts') && run <= run' && acts <= acts'
    ensures Delivers(Last(run), Last(run'), Servers(|Last(run).nodes|), x, m)
  {
    var s;
    run', acts', s, m := MajorityIsAvailable(run, acts, Servers(|Last(run).nodes|), x);
  }

  // ----- a server alone -----

  /** Nobody to hear from, nothing committed. */
  predicate Alone(cl: Cluster) {
    && |cl.nodes| == 1 && cl.net == {}
    && var nd := cl.nodes[0];
       nd.me == 0 && nd.n == 1 && nd.commitIndex == 0 && nd.lastApplied == 0 && nd.service == [] && nd.disk.snapshot == []
  }

  lemma AloneStep(cl: Cluster, a: Action, d: Cluster)
    requires Alone(cl) && Step(cl, a, d)
    ensures Alone(d)
  {
  }

  /** The commit rule runs when a peer replies, so a server alone never commits. */
  lemma {:induction false} AloneForever(run: seq<Cluster>, acts: seq<Action>, i: nat)
    requires IsRun(run, acts) && i < |run| && |run[0].nodes| == 1
    ensures Alone(run[i])
  {
    if i != 0 {
      AloneForever(run, acts, i - 1);
      assert Step(run[i - 1], acts[i - 1], run[i]);
      AloneStep(run[i - 1], acts[i - 1], run[i]);
    }
  }

  lemma NothingAlone(run: seq<Cluster>, acts: seq<Action>, cl: Cluster, x: Command, m: nat)
    requires IsRun(run, acts) && |run[0].nodes| == 1
    ensures |cl.nodes| == 1 ==> !Delivers(cl, Last(run), {0}, x, m)
  {
    AloneForever(run, acts, |acts|);
    assert !GotIt(cl, Last(run), 0, x, m);
  }

  // ----- less than a majority -----

  /** Servers that take no step are as they were at boot. */
  lemma {:induction false} Idle(run: seq<Cluster>, acts: seq<Action>, q: set<nat>, i: nat, u: nat)
    requires IsRun(run, acts) && i < |run| && OnlyActs(acts, 0, q) && u < |run[0].nodes| && u !in q
    ensures |run[i].nodes| == |run[0].nodes| && run[i].nodes[u] == Fresh(u, |run[0].nodes|)
  {
    if i != 0 {
      Idle(run, acts, q, i - 1, u);
      assert Step(run[i - 1], acts[i - 1], run[i]);
    }
  }

  /** A reign needs the votes of a majority, and only who has acted has voted. */
  lemma VotersActed(c: Core, q: set<nat>, t: nat)
    requires Inv(c) && t in c.reigns && forall u: nat :: u < |c.peers| && u !in q ==> c.peers[u].term == 0
    ensures c.reigns[t].voters <= q && Quorum(|c.peers|, c.reigns[t].voters)
  {
    assert Reigning(c, t);
    forall v | v in c.reigns[t].voters ensures v in q {
      assert HasVoted(c, Seat(t, v)) && BallotShape(c, Seat(t, v));
    }
  }

  lemma NoReign(run: seq<Cluster>, acts: seq<Action>, q: set<nat>, c: Core)
    requires IsRun(run, acts) && OnlyActs(acts, 0, q) && 2 * |q| <= |run[0].nodes| && Tied(Last(run), c)
    ensures c.reigns == map[]
  {
    SameNumber(run, acts, |acts|);
    GoodOf(Last(run), c);
    forall u: nat | u < |run[0].nodes| && u !in q ensures u < |c.peers| && c.peers[u].term == 0 {
      Idle(run, acts, q, |acts|, u);
      HistoryIsLog(Last(run), c, u);
    }
    TiedIsCoupled(Last(run), c);
    if t :| t in c.reigns {
      VotersActed(c, q, t);
      SubsetSize(c.reigns[t].voters, q);
    }
  }

  /** From boot, servers that are not a majority never elect anybody and hand over nothing. */
  lemma MinorityIsSilent(run: seq<Cluster>, acts: seq<Action>, q: set<nat>, s: nat)
    requires IsRun(run, acts) && OnlyActs(acts, 0, q) && 2 * |q| <= |run[0].nodes| && s < |Last(run).nodes|
    ensures Last(run).nodes[s].role != Leader && Last(run).nodes[s].service == []
  {
    var c := BehindRun(run, acts, |acts|);
    NoReign(run, acts, q, c);
    Actors(Last(run), c, s);
    FineIsOK(c, Last(run).nodes[s]);
    ServerCommits(Last(run), c, s);
  }

  ghost predicate CanDeliver(run: seq<Cluster>, acts: seq<Action>, q: set<nat>, x: Command)
    requires run != []
  {
    exists run', acts', m: nat :: DeliversBy(run, acts, q, x, run', acts', m)
  }

  /** A continuation by `q` alone that delivers `x` to all of `q`. */
  ghost predicate DeliversBy(
    run: seq<Cluster>, acts: seq<Action>, q: set<nat>, x: Command, run': seq<Cluster>, acts': seq<Action>, m: nat)
    requires run != []
  {
    IsRun(run', acts') && run <= run' && acts <= acts' && OnlyActs(acts', |acts|, q) && Delivers(Last(run), Last(run'), q, x, m)
  }

  /** All servers together can always still deliver any command exactly when there are two or more. */
  lemma AvailableExactly(run: seq<Cluster>, acts: seq<Action>, x: Command)
    requires IsRun(run, acts) && 1 <= |run[0].nodes|
    ensures CanDeliver(run, acts, Servers(|run[0].nodes|), x) <==> 2 <= |run[0].nodes|
  {
    var q := Servers(|run[0].nodes|);
    SameNumber(run, acts, |acts|);
    if 2 <= |run[0].nodes| {
      var run', acts', s, m := MajorityIsAvailable(run, acts, q, x);
      assert DeliversBy(run, acts, q, x, run', acts', m);
    } else if CanDeliver(run, acts, q, x) {
      var run', acts', m: nat :| DeliversBy(run, acts, q, x, run', acts', m);
      assert q == {0};
      NothingAlone(run', acts', Last(run), x, m);
    }
  }

  /** From boot, a set of servers can deliver a command on its own exactly when it is a majority of two or more. */
  lemma MajorityExactly(n: nat, q: set<nat>, x: Command)
    requires q != {} && q <= Servers(n)
    ensures CanDeliver([Boot(n)], [], q, x) <==> Quorum(n, q) && 2 <= n
  {
    assert IsRun([Boot(n)], []);
    if Quorum(n, q) && 2 <= n {
      var run, acts, s, m := MajorityIsAvailable([Boot(n)], [], q, x);
      assert DeliversBy([Boot(n)], [], q, x, run, acts, m);
    } else if CanDeliver([Boot(n)], [], q, x) {
      var run, acts, m: nat :| DeliversBy([Boot(n)], [], q, x, run, acts, m);
      CannotDeliver(n, q, x, run, acts, m);
    }
  }

  lemma CannotDeliver(n: nat, q: set<nat>, x: Command, run: seq<Cluster>, acts: seq<Action>, m: nat)
    requires q != {} && q <= Servers(n) && IsRun(run, acts) && [Boot(n)] <= run && OnlyActs(acts, 0, q)
    requires !(Quorum(n, q) && 2 <= n)
    ensures !Delivers(Boot(n), Last(run), q, x, m)
  {
    assert run[0] == Boot(n);
    SameNumber(run, acts, |acts|);
    if Quorum(n, q) {
      AloneForever(run, acts, |acts|);
      assert !GotIt(Boot(n), Last(run), 0, x, m);
      assert 0 in q;
    } else {
      var v :| v in q;
      MinorityIsSilent(run, acts, q, v);
      assert !GotIt(Boot(n), Last(run), v, x, m);
    }
  }

  lemma {:induction false} SameNumber(run: seq<Cluster>, acts: seq<Action>, i: nat)
    requires IsRun(run, acts) && i < |run|
    ensures |run[i].nodes| == |run[0].nodes|
  {
    if i != 0 {
      SameNumber(run, acts, i - 1);
      assert Step(run[i - 1], acts[i - 1], run[i]);
    }
  }
}
