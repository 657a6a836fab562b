/**
 * Fast back-up as steps of the cluster: from every state of every run, a leader and a peer
 * that is not in a later term can exchange messages until the peer has the leader's whole log.
 */
module RaftCatchUp {
  import opened RaftTypes
  import opened RaftNode
  import opened RaftCore
  import opened RaftCluster
  import opened RaftCoupling
  import opened RaftSimulation
  import opened RaftSafety
  import opened RaftBackup
  import opened RaftRuns

  /** Server `s` leads, and `u` is another server, not in a later term. */
  predicate Over(cl: Cluster, s: nat, u: nat) {
    && s < |cl.nodes| && u < |cl.nodes| && s != u
    && cl.nodes[s].role == Leader && cl.nodes[u].currentTerm <= cl.nodes[s].currentTerm
  }

  /** What holds of such a pair in every run. */
  ghost predicate Ready(cl: Cluster, s: nat, u: nat)
    requires Over(cl, s, u)
  {
    var l, f := cl.nodes[s], cl.nodes[u];
    && Pair(l, f) && l.me == s && f.me == u && l.n == |cl.nodes|
    && 1 <= l.nextIndex[u] <= LastIndex(l) + 1
    && l.commitIndex <= LastIndex(l) && l.matchIndex[u] <= LastIndex(l)
  }

  // ----- what the leader counts on -----

  /** The follower has the leader's log up to `m`. */
  predicate MatchHeld(l: Node, f: Node, m: nat)
    requires 1 <= |l.logs| && 1 <= |f.logs|
  {
    m <= LastIndex(f) && m <= LastIndex(l) && (Holds(l, m) && Holds(f, m) ==> LogTerm(l, m) == LogTerm(f, m))
  }

  /** What a server acknowledged to the leader of the latest term it has seen, it still holds. */
  lemma AckStillHeld(c: Core, t: nat, u: nat, m: nat)
    requires Inv(c) && u < |c.peers| && c.peers[u].term <= t && Acked(c, t, u, m)
    ensures t in c.reigns && m <= |c.reigns[t].log| && c.reigns[t].log[..m] <= c.peers[u].log
  {
    var a :| a in c.acks && a.term == t && a.server == u && m <= a.len;
    assert HasAcked(c, a) && AckShape(c, a);
    assert StillHolds(c, a, c.peers[u].log, c.peers[u].term);
    assert Kept(c, t, m, c.peers[u].log, c.peers[u].term);
  }

  /** The leader's log and what one of its peers holds. */
  ghost predicate LeaderAndPeer(c: Core, l: Node, f: Node) {
    && Inv(c) && l.me < |c.peers| && Mirrors(c, l) && f.me < |c.peers| && Mirrors(c, f)
    && IsLeader(c, l.me) && f.currentTerm <= l.currentTerm && f.me < l.n && PeerOK(c, l, f.me)
  }

  lemma AckedPrefix(c: Core, l: Node, f: Node)
    requires LeaderAndPeer(c, l, f)
    ensures
      var m := l.matchIndex[f.me];
      m <= LastIndex(l) == |c.peers[l.me].log| && c.peers[l.me].log[..m] <= c.peers[f.me].log
  {
    var m := l.matchIndex[f.me];
    if m != 0 { AckStillHeld(c, l.currentTerm, f.me, m); }
  }

  lemma HoldsMatch(c: Core, l: Node, f: Node, m: nat)
    requires l.me < |c.peers| && Mirrors(c, l) && f.me < |c.peers| && Mirrors(c, f)
    requires m <= |c.peers[l.me].log| && c.peers[l.me].log[..m] <= c.peers[f.me].log
    ensures MatchHeld(l, f, m)
  {
    assert c.peers[l.me].log[..m] == c.peers[f.me].log[..m];
    TermsShow(c, l, c, f, m);
  }

  lemma InCore(cl: Cluster, c: Core, s: nat, u: nat)
    requires Tied(cl, c) && Over(cl, s, u)
    ensures LeaderAndPeer(c, cl.nodes[s], cl.nodes[u]) && cl.nodes[s].me == s && cl.nodes[u].me == u
  {
    Actors(cl, c, s);
    Actors(cl, c, u);
    FineIsOK(c, cl.nodes[s]);
    FineIsOK(c, cl.nodes[u]);
    GoodOf(cl, c);
    assert Other(cl.nodes[s], u) && PeerOK(c, cl.nodes[s], u);
  }

  lemma GoodOf(cl: Cluster, c: Core)
    requires Tied(cl, c)
    ensures Inv(c)
  {
    GoodIsInv(c);
  }

  lemma MatchInCore(cl: Cluster, c: Core, s: nat, u: nat)
    requires Tied(cl, c) && Over(cl, s, u)
    ensures
      var l, f := cl.nodes[s], cl.nodes[u];
      && Valid(l) && Valid(f) && l.me == s && f.me == u && l.n == |cl.nodes| && u < l.n
      && l.commitIndex <= LastIndex(l) && l.matchIndex[u] <= LastIndex(l) && MatchHeld(l, f, l.matchIndex[u])
  {
    InCore(cl, c, s, u);
    AckedPrefix(c, cl.nodes[s], cl.nodes[u]);
    HoldsMatch(c, cl.nodes[s], cl.nodes[u], cl.nodes[s].matchIndex[u]);
    Actors(cl, c, s);
  }

  lemma InRun(h: Trace, k: nat, cl: Cluster, s: nat, u: nat)
    requires Onward(h, k, cl) && Over(cl, s, u)
    ensures Ready(cl, s, u) && MatchHeld(cl.nodes[s], cl.nodes[u], cl.nodes[s].matchIndex[u])
  {
    var c := Behind(h, k, cl);
    PairInRun(cl, c, s, u);
    MatchInCore(cl, c, s, u);
  }

  predicate BothAct(h: Trace, s: nat, u: nat) { s in h.who && u in h.who }

  // ----- one round: an AppendEntries call, its handling, its reply -----

  function Asked(cl: Cluster, s: nat, u: nat): AppendEntriesArgs
    requires s < |cl.nodes| && var l := cl.nodes[s]; u < |l.nextIndex| && l.snapLastIndex < l.nextIndex[u] <= l.snapLastIndex + |l.logs|
  {
    AppendArgs(cl.nodes[s], u)
  }

  lemma Round(h: Trace, k: nat, cl: Cluster, s: nat, u: nat) returns (d: Cluster)
    requires BothAct(h, s, u)
    requires Onward(h, k, cl) && Over(cl, s, u) && Ready(cl, s, u) && cl.nodes[s].snapLastIndex < cl.nodes[s].nextIndex[u]
    ensures Onward(h, k + 3, d)
    ensures
      var l, f, a := cl.nodes[s], cl.nodes[u], Asked(cl, s, u);
      var (f', r) := AppendEntries(f, a);
      && d.nodes == cl.nodes[u := f'][s := AppendReply(l, u, a, r)]
      && (NeedsSnapshot(l, a, r) ==> SnapReq(u, SnapshotArgs(l)) in d.net)
  {
    var l, a := cl.nodes[s], Asked(cl, s, u);
    var prev := l.nextIndex[u] - 1;
    d := Next(h, k, cl, Send(s, u, prev, LastIndex(l) - prev, l.commitIndex));
    assert AppendReq(u, a) in d.net && d.nodes == cl.nodes;
    d := Next(h, k + 1, d, Receive(AppendReq(u, a)));
    var r := AppendEntries(cl.nodes[u], a).1;
    assert AppendRep(u, a, r) in d.net && d.nodes[s] == l;
    d := Next(h, k + 2, d, Receive(AppendRep(u, a, r)));
  }

  /** `b` has the log, the snapshot and the term of the leader `a`, and has lost none of its acknowledgements. */
  predicate StillLeads(a: Node, b: Node) {
    && b.role == Leader && b.currentTerm == a.currentTerm && b.logs == a.logs && b.me == a.me && b.n == a.n
    && b.snapLastIndex == a.snapLastIndex && SnapshotArgs(b) == SnapshotArgs(a) && a.commitIndex <= b.commitIndex
    && |b.matchIndex| == |a.matchIndex| && forall p :: 0 <= p < |a.matchIndex| ==> a.matchIndex[p] <= b.matchIndex[p]
  }

  predicate OnlyThese(cl: Cluster, d: Cluster, s: nat, u: nat) {
    |d.nodes| == |cl.nodes| && forall v :: 0 <= v < |cl.nodes| && v != s && v != u ==> d.nodes[v] == cl.nodes[v]
  }

  /** The outcome for one peer: the leader is still there, nobody else has changed. */
  predicate Carried(cl: Cluster, d: Cluster, s: nat, u: nat) {
    OnlyThese(cl, d, s, u) && Over(cl, s, u) && Over(d, s, u) && StillLeads(cl.nodes[s], d.nodes[s])
  }

  /** The leader knows that peer `u` has its whole log, and has committed what a majority has. */
  predicate CaughtUp(l: Node, u: nat) {
    && Valid(l) && u < l.n && l.matchIndex[u] == LastIndex(l)
    && (LogTerm(l, LastIndex(l)) == l.currentTerm && 2 * Holders(l, LastIndex(l), l.n) > l.n ==> l.commitIndex == LastIndex(l))
  }

  /** ... and the peer has learnt all that was committed when this began. */
  predicate Done(cl: Cluster, d: Cluster, s: nat, u: nat) {
    Carried(cl, d, s, u) && CaughtUp(d.nodes[s], u) && cl.nodes[s].commitIndex <= d.nodes[u].commitIndex
  }

  // ----- what a round leaves -----

  lemma AnswerOf(cl: Cluster, s: nat, u: nat)
    requires Over(cl, s, u) && Ready(cl, s, u) && cl.nodes[s].snapLastIndex < cl.nodes[s].nextIndex[u]
    ensures
      var l, f := cl.nodes[s], cl.nodes[u];
      var next := l.nextIndex[u];
      Tries(l, f, u, next) && AppendEntries(f, Asked(cl, s, u)).1 == Answer(l, f, u, next).(term := l.currentTerm)
  {
    var l, f := cl.nodes[s], cl.nodes[u];
    assert l.nextIndex[u := l.nextIndex[u]] == l.nextIndex;
    AnswerIsReply(l, f, u, l.nextIndex[u]);
  }

  lemma Accepts(l: Node, u: nat, a: AppendEntriesArgs, r: AppendEntriesReply)
    requires Valid(l) && u < l.n && l.role == Leader && a.term == r.term == l.currentTerm && r.success
    requires a.prevLogIndex + |a.entries| == LastIndex(l) && l.matchIndex[u] <= LastIndex(l) && l.commitIndex <= LastIndex(l)
    ensures
      var l' := AppendReply(l, u, a, r);
      StillLeads(l, l') && CaughtUp(l', u)
  {
    var d := Matched(l, u, LastIndex(l));
    CommitScanRises(d, LastIndex(d));
    SameHolders(d, AdvanceCommit(d), LastIndex(d), d.n);
  }

  lemma {:induction false} SameHolders(a: Node, b: Node, i: nat, k: nat)
    requires a.me == b.me && a.matchIndex == b.matchIndex && k <= |a.matchIndex|
    ensures Holders(a, i, k) == Holders(b, i, k)
  {
    if k != 0 { SameHolders(a, b, i, k - 1); }
  }

  lemma Rejects(l: Node, u: nat, a: AppendEntriesArgs, r: AppendEntriesReply)
    requires Valid(l) && u < l.n && l.role == Leader && a.term == r.term == l.currentTerm && !r.success
    ensures
      var l' := AppendReply(l, u, a, r);
      && StillLeads(l, l')
      && l'.nextIndex[u] == (if r.conflictIndex < l.snapLastIndex then l.nextIndex[u] else BackUp(l, r))
  {
    if l.snapLastIndex <= r.conflictIndex {
      var d := l.(nextIndex := l.nextIndex[u := BackUp(l, r)]);
      CommitScanRises(d, LastIndex(d));
    }
  }

  /** A follower that says no keeps its log. */
  lemma KeepsLog(f: Node, a: AppendEntriesArgs)
    requires Valid(f) && f.currentTerm <= a.term && !AppendEntries(f, a).1.success
    ensures SameLogs(f, AppendEntries(f, a).0) && AppendEntries(f, a).0.currentTerm == a.term
  {
  }

  lemma Exchanged(cl: Cluster, d: Cluster, s: nat, u: nat, l': Node, f': Node)
    requires Over(cl, s, u) && d.nodes == cl.nodes[u := f'][s := l']
    requires StillLeads(cl.nodes[s], l') && f'.currentTerm == l'.currentTerm
    ensures Carried(cl, d, s, u) && d.nodes[s] == l' && d.nodes[u] == f'
  {
  }

  lemma RejectedRound(h: Trace, k: nat, cl: Cluster, s: nat, u: nat) returns (d: Cluster)
    requires BothAct(h, s, u)
    requires Onward(h, k, cl) && Over(cl, s, u) && Ready(cl, s, u) && cl.nodes[s].snapLastIndex < cl.nodes[s].nextIndex[u]
    requires var l, f := cl.nodes[s], cl.nodes[u]; Tries(l, f, u, l.nextIndex[u]) && !Answer(l, f, u, l.nextIndex[u]).success
    ensures Onward(h, k + 3, d) && Carried(cl, d, s, u) && SameLogs(cl.nodes[u], d.nodes[u])
    ensures
      var l, l' := cl.nodes[s], d.nodes[s];
      var r := Answer(l, cl.nodes[u], u, l.nextIndex[u]);
      if r.conflictIndex < l.snapLastIndex then SnapReq(u, SnapshotArgs(l')) in d.net
      else u < |l'.nextIndex| && l'.nextIndex[u] == BackUp(l, r)
  {
    var l, f, a := cl.nodes[s], cl.nodes[u], Asked(cl, s, u);
    AnswerOf(cl, s, u);
    var (f', r) := AppendEntries(f, a);
    d := Round(h, k, cl, s, u);
    Rejects(l, u, a, r);
    KeepsLog(f, a);
    Exchanged(cl, d, s, u, AppendReply(l, u, a, r), f');
  }

  lemma AcceptedRound(h: Trace, k: nat, cl: Cluster, s: nat, u: nat) returns (d: Cluster)
    requires BothAct(h, s, u)
    requires Onward(h, k, cl) && Over(cl, s, u) && Ready(cl, s, u) && cl.nodes[s].snapLastIndex < cl.nodes[s].nextIndex[u]
    requires var l, f := cl.nodes[s], cl.nodes[u]; Tries(l, f, u, l.nextIndex[u]) && Answer(l, f, u, l.nextIndex[u]).success
    ensures Onward(h, k + 3, d) && Done(cl, d, s, u)
  {
    var l, f, a := cl.nodes[s], cl.nodes[u], Asked(cl, s, u);
    AnswerOf(cl, s, u);
    var (f', r) := AppendEntries(f, a);
    d := Round(h, k, cl, s, u);
    Accepts(l, u, a, r);
    CommitTaken(f, a);
    Exchanged(cl, d, s, u, AppendReply(l, u, a, r), f');
  }

  /** Accepting every entry the leader has, a follower takes over its commit index. */
  lemma CommitTaken(f: Node, a: AppendEntriesArgs)
    requires Valid(f) && f.currentTerm <= a.term && AppendEntries(f, a).1.success && a.leaderCommit <= a.prevLogIndex + |a.entries|
    ensures a.leaderCommit <= AppendEntries(f, a).0.commitIndex && AppendEntries(f, a).0.currentTerm == a.term
  {
    var d := Persist(Follow(f, a.term));
    MergeReaches(d.logs, a.prevLogIndex - d.snapLastIndex + 1, a.entries);
  }

  lemma {:induction false} MergeReaches(logs: seq<Entry>, k: nat, es: seq<Entry>)
    requires k <= |logs|
    ensures k + |es| <= |Merge(logs, k, es)|
    decreases |es|
  {
    if es != [] && k < |logs| && logs[k].term == es[0].term { MergeReaches(logs, k + 1, es[1..]); }
  }

  // ----- until the follower accepts or is sent the snapshot -----

  lemma SameBackUp(l: Node, l': Node, r: AppendEntriesReply, t: nat)
    requires 1 <= |l.logs| && SameLogs(l, l')
    ensures BackUp(l', r.(term := t)) == BackUp(l, r)
  {
  }

  lemma SameAnswer(l: Node, l': Node, f: Node, f': Node, p: nat, next: nat)
    requires SameLogs(l, l') && SameLogs(f, f') && Tries(l, f, p, next) && Tries(l', f', p, next)
    ensures
      var r, r' := Answer(l, f, p, next), Answer(l', f', p, next);
      r' == r.(term := r'.term) && BackUp(l', r') == BackUp(l, r)
  {
    var a := AppendArgs(l.(nextIndex := l.nextIndex[p := next]), p);
    var a' := AppendArgs(l'.(nextIndex := l'.nextIndex[p := next]), p);
    SameConflict(f, f', a, a');
    SameBackUp(l, l', Conflict(f, a), f'.currentTerm);
  }

  /** How often the follower says no depends on the two logs only. */
  lemma {:induction false} SameRejections(l: Node, l': Node, f: Node, f': Node, p: nat, next: nat)
    requires SameLogs(l, l') && SameLogs(f, f') && Pair(l, f) && Pair(l', f') && p < l.n && p < l'.n && 1 <= next <= LastIndex(l) + 1
    ensures Rejections(l, f, p, next) == Rejections(l', f', p, next)
    decreases Rank(f, next)
  {
    if l.snapLastIndex < next {
      SameAnswer(l, l', f, f', p, next);
      var r := Answer(l, f, p, next);
      if !r.success && l.snapLastIndex <= r.conflictIndex {
        RejectionLowersNext(l, f, p, next);
        RankFalls(l, f, p, next);
        SameRejections(l, l', f, f', p, BackUp(l, r));
      }
    }
  }

  lemma SendsSnapshot(h: Trace, k: nat, cl: Cluster, s: nat, u: nat) returns (d: Cluster)
    requires BothAct(h, s, u)
    requires Onward(h, k, cl) && Over(cl, s, u) && Ready(cl, s, u) && cl.nodes[s].nextIndex[u] <= cl.nodes[s].snapLastIndex
    ensures Onward(h, k + 1, d) && d.nodes == cl.nodes && SnapReq(u, SnapshotArgs(cl.nodes[s])) in d.net
  {
    var l := cl.nodes[s];
    var prev := l.nextIndex[u] - 1;
    d := Next(h, k, cl, Send(s, u, prev, LastIndex(l) - prev, l.commitIndex));
  }

  ghost function Left(cl: Cluster, s: nat, u: nat): nat
    requires Over(cl, s, u) && Ready(cl, s, u)
  {
    Rejections(cl.nodes[s], cl.nodes[u], u, cl.nodes[s].nextIndex[u])
  }

  /** After one round with a rejection there is one rejection less to come. */
  lemma OneLess(h: Trace, k: nat, cl: Cluster, s: nat, u: nat, d: Cluster)
    requires Onward(h, k, d) && Over(cl, s, u) && Ready(cl, s, u) && cl.nodes[s].snapLastIndex < cl.nodes[s].nextIndex[u]
    requires Carried(cl, d, s, u) && SameLogs(cl.nodes[u], d.nodes[u]) && Ready(d, s, u)
    requires
      var l, f := cl.nodes[s], cl.nodes[u];
      && Tries(l, f, u, l.nextIndex[u])
      && var r := Answer(l, f, u, l.nextIndex[u]);
         !r.success && l.snapLastIndex <= r.conflictIndex && d.nodes[s].nextIndex[u] == BackUp(l, r)
    ensures Left(cl, s, u) == 1 + Left(d, s, u)
  {
    SameRejections(cl.nodes[s], d.nodes[s], cl.nodes[u], d.nodes[u], u, d.nodes[s].nextIndex[u]);
  }

  lemma CarriedOn(a: Cluster, b: Cluster, c: Cluster, s: nat, u: nat)
    requires Carried(a, b, s, u) && Carried(b, c, s, u)
    ensures Carried(a, c, s, u)
  {
  }

  /** The peer has the whole log or the snapshot is on its way. */
  predicate Settled(cl: Cluster, d: Cluster, s: nat, u: nat) {
    Done(cl, d, s, u) || (Carried(cl, d, s, u) && SnapReq(u, SnapshotArgs(d.nodes[s])) in d.net)
  }

  lemma Rejected(h: Trace, k: nat, cl: Cluster, s: nat, u: nat) returns (d: Cluster)
    requires BothAct(h, s, u)
    requires Onward(h, k, cl) && Over(cl, s, u) && Ready(cl, s, u) && cl.nodes[s].snapLastIndex < cl.nodes[s].nextIndex[u]
    requires var l, f := cl.nodes[s], cl.nodes[u]; Tries(l, f, u, l.nextIndex[u]) && !Answer(l, f, u, l.nextIndex[u]).success
    ensures Onward(h, k + 3, d) && Carried(cl, d, s, u)
    ensures Settled(cl, d, s, u) || (Ready(d, s, u) && Left(cl, s, u) == 1 + Left(d, s, u))
  {
    var l := cl.nodes[s];
    d := RejectedRound(h, k, cl, s, u);
    if l.snapLastIndex <= Answer(l, cl.nodes[u], u, l.nextIndex[u]).conflictIndex {
      InRun(h, k + 3, d, s, u);
      OneLess(h, k + 3, cl, s, u, d);
    }
  }

  lemma Attempt(h: Trace, k: nat, cl: Cluster, s: nat, u: nat) returns (d: Cluster)
    requires BothAct(h, s, u)
    requires Onward(h, k, cl) && Over(cl, s, u) && Ready(cl, s, u)
    ensures Onward(h, k + 3, d) && Carried(cl, d, s, u)
    ensures Settled(cl, d, s, u) || (Ready(d, s, u) && Left(cl, s, u) == 1 + Left(d, s, u))
  {
    var l := cl.nodes[s];
    if l.nextIndex[u] <= l.snapLastIndex {
      d := SendsSnapshot(h, k, cl, s, u);
      Longer(h, k + 1, k + 3, d);
    } else {
      AnswerOf(cl, s, u);
      if Answer(l, cl.nodes[u], u, l.nextIndex[u]).success {
        d := AcceptedRound(h, k, cl, s, u);
      } else {
        d := Rejected(h, k, cl, s, u);
      }
    }
  }

  /** At most one round for each rejection, and one more. */
  lemma {:induction false} BacksUp(h: Trace, k: nat, cl: Cluster, s: nat, u: nat) returns (d: Cluster)
    requires BothAct(h, s, u)
    requires Onward(h, k, cl) && Over(cl, s, u) && Ready(cl, s, u)
    ensures Onward(h, k + 3 * (Left(cl, s, u) + 1), d) && Settled(cl, d, s, u)
    decreases Left(cl, s, u)
  {
    var b := Attempt(h, k, cl, s, u);
    if Settled(cl, b, s, u) {
      d := b;
      Longer(h, k + 3, k + 3 * (Left(cl, s, u) + 1), d);
    } else {
      d := BacksUp(h, k + 3, b, s, u);
      CarriedOn(cl, b, d, s, u);
    }
  }

  // ----- through the snapshot -----

  lemma Installing(f: Node, a: InstallSnapshotArgs)
    requires Valid(f) && |a.data| == a.lastIncludeIndex && f.currentTerm <= a.term
    ensures InstallSnapshot(f, a).0.currentTerm == a.term && InstallSnapshot(f, a).1.term == a.term
  {
  }

  lemma SnapshotTaken(l: Node, u: nat, a: InstallSnapshotArgs, r: InstallSnapshotReply)
    requires Valid(l) && u < l.n && l.role == Leader && a == SnapshotArgs(l) && r.term == l.currentTerm
    ensures
      var l' := SnapshotReply(l, u, a, r);
      StillLeads(l, l') && l.snapLastIndex <= l'.matchIndex[u] && l'.nextIndex[u] == l'.matchIndex[u] + 1
  {
  }

  lemma Installed(h: Trace, k: nat, cl: Cluster, s: nat, u: nat) returns (d: Cluster)
    requires BothAct(h, s, u)
    requires Onward(h, k, cl) && Over(cl, s, u) && Ready(cl, s, u) && SnapReq(u, SnapshotArgs(cl.nodes[s])) in cl.net
    ensures Onward(h, k + 2, d) && Carried(cl, d, s, u)
    ensures
      var l := d.nodes[s];
      u < |l.nextIndex| && u < |l.matchIndex| && l.snapLastIndex <= l.matchIndex[u] && l.nextIndex[u] == l.matchIndex[u] + 1
  {
    var l, f := cl.nodes[s], cl.nodes[u];
    var a := SnapshotArgs(l);
    d := Next(h, k, cl, Receive(SnapReq(u, a)));
    Installing(f, a);
    var r := InstallSnapshot(f, a).1;
    assert SnapRep(u, a, r) in d.net && d.nodes[s] == l;
    d := Next(h, k + 1, d, Receive(SnapRep(u, a, r)));
    SnapshotTaken(l, u, a, r);
  }

  /** From what the peer has acknowledged, at most one attempt is below its snapshot. */
  lemma FromMatch(h: Trace, k: nat, cl: Cluster, s: nat, u: nat) returns (d: Cluster)
    requires BothAct(h, s, u)
    requires Onward(h, k, cl) && Over(cl, s, u) && Ready(cl, s, u) && MatchHeld(cl.nodes[s], cl.nodes[u], cl.nodes[s].matchIndex[u])
    requires var l := cl.nodes[s]; l.snapLastIndex <= l.matchIndex[u] && l.nextIndex[u] == l.matchIndex[u] + 1
    ensures Onward(h, k + 6, d) && Done(cl, d, s, u)
  {
    var l, f := cl.nodes[s], cl.nodes[u];
    AnswerOf(cl, s, u);
    if f.snapLastIndex <= l.matchIndex[u] {
      d := AcceptedRound(h, k, cl, s, u);
      Longer(h, k + 3, k + 6, d);
    } else {
      BelowSnapshot(l, f, u, l.nextIndex[u]);
      var b := RejectedRound(h, k, cl, s, u);
      InRun(h, k + 3, b, s, u);
      AnswerOf(b, s, u);
      AtSnapshot(b.nodes[s], b.nodes[u], u);
      d := AcceptedRound(h, k + 3, b, s, u);
      CarriedOn(cl, b, d, s, u);
    }
  }

  lemma Finishes(h: Trace, k: nat, cl: Cluster, b: Cluster, s: nat, u: nat) returns (d: Cluster)
    requires BothAct(h, s, u)
    requires Onward(h, k, b) && Settled(cl, b, s, u)
    ensures Onward(h, k + 8, d) && Done(cl, d, s, u)
  {
    if Done(cl, b, s, u) {
      d := b;
      Longer(h, k, k + 8, d);
    } else {
      InRun(h, k, b, s, u);
      var c := Installed(h, k, b, s, u);
      InRun(h, k + 2, c, s, u);
      d := FromMatch(h, k + 2, c, s, u);
      CarriedOn(cl, b, c, s, u);
      CarriedOn(cl, c, d, s, u);
    }
  }

  /**
   * From every state of every run, any leader can bring any peer that is not in a later term to hold
   * its whole log, compacted or not, within three actions for each rejection and eleven more.
   */
  lemma CatchesUp(h: Trace, k: nat, cl: Cluster, s: nat, u: nat) returns (d: Cluster)
    requires BothAct(h, s, u)
    requires Onward(h, k, cl) && Over(cl, s, u)
    ensures Ready(cl, s, u) && Onward(h, k + 3 * Left(cl, s, u) + 11, d)
    ensures Done(cl, d, s, u)
  {
    InRun(h, k, cl, s, u);
    var b := BacksUp(h, k, cl, s, u);
    d := Finishes(h, k + 3 * (Left(cl, s, u) + 1), cl, b, s, u);
  }

  /** The peer has every entry of the leader's log, and so all its history. */
  ghost predicate HasAll(l: Node, f: Node) {
    1 <= |l.logs| && 1 <= |f.logs| && SameTermsUpTo(l, f, LastIndex(l)) && History(l) <= History(f)
  }

  lemma WholePrefix(c: Core, l: Node, f: Node)
    requires LeaderAndPeer(c, l, f) && CaughtUp(l, f.me)
    ensures HasAll(l, f)
  {
    AckedPrefix(c, l, f);
    var log := c.peers[l.me].log;
    assert log[..|log|] == log;
    WholeShows(c, l, c, f);
  }

  lemma WholeLog(h: Trace, k: nat, cl: Cluster, s: nat, u: nat)
    requires Onward(h, k, cl) && Over(cl, s, u) && CaughtUp(cl.nodes[s], u)
    ensures HasAll(cl.nodes[s], cl.nodes[u])
  {
    var c := Behind(h, k, cl);
    InCore(cl, c, s, u);
    WholePrefix(c, cl.nodes[s], cl.nodes[u]);
  }

  lemma LeftBounded(cl: Cluster, s: nat, u: nat)
    requires Over(cl, s, u) && Ready(cl, s, u)
    ensures Left(cl, s, u) <= 2 + |Terms(cl.nodes[u].logs, |cl.nodes[u].logs| - 1)|
  {
    RejectionsBounded(cl.nodes[s], cl.nodes[u], u, cl.nodes[s].nextIndex[u]);
  }

  lemma CatchesUpSoon(h: Trace, k: nat, cl: Cluster, s: nat, u: nat) returns (d: Cluster)
    requires BothAct(h, s, u)
    requires Onward(h, k, cl) && Over(cl, s, u)
    ensures 1 <= |cl.nodes[u].logs|
    ensures Onward(h, k + 3 * |Terms(cl.nodes[u].logs, |cl.nodes[u].logs| - 1)| + 17, d) && Done(cl, d, s, u)
  {
    d := CatchesUp(h, k, cl, s, u);
    LeftBounded(cl, s, u);
    Longer(h, k + 3 * Left(cl, s, u) + 11, k + 3 * |Terms(cl.nodes[u].logs, |cl.nodes[u].logs| - 1)| + 17, d);
  }

  /**
   * Every run with a leader can be continued, by actions of the two alone, so that a peer not in a later
   * term has the leader's log and history.
   */
  lemma PeerCatchesUp(run: seq<Cluster>, acts: seq<Action>, s: nat, u: nat) returns (run': seq<Cluster>, acts': seq<Action>)
    requires IsRun(run, acts) && Over(Last(run), s, u)
    ensures IsRun(run', acts') && run <= run' && acts <= acts' && OnlyActs(acts', |acts|, {s, u}) && 1 <= |Last(run).nodes[u].logs|
    ensures |acts'| <= |acts| + 3 * |Terms(Last(run).nodes[u].logs, |Last(run).nodes[u].logs| - 1)| + 17
    ensures Done(Last(run), Last(run'), s, u) && HasAll(Last(run').nodes[s], Last(run').nodes[u])
  {
    var h, cl := Trace(run, acts, {s, u}), Last(run);
    Here(run, acts, {s, u});
    var d := CatchesUpSoon(h, 0, cl, s, u);
    var k := 3 * |Terms(cl.nodes[u].logs, |cl.nodes[u].logs| - 1)| + 17;
    WholeLog(h, k, d, s, u);
    run', acts' := RunTo(h, k, d);
  }
}
