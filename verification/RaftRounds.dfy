/**
 * What the handlers achieve: exact conditions for granting, cutting and committing,
 * the effect of whole request/reply rounds, and repeats that change nothing.
 */
module RaftRounds {
  import opened RaftTypes
  import opened RaftNode
  import opened RaftCore
  import opened RaftCluster
  import opened RaftCoupling
  import opened RaftSimulation
  import opened RaftReplication
  import opened RaftSafety

  // ----- votes -----

  /** A vote once granted is a promise: kept, also across a crash, against every request not of a later term. */
  lemma VoteIsAPromise(nd: Node, a: RequestVoteArgs, b: RequestVoteArgs)
    requires Valid(nd) && RequestVote(nd, a).1.voteGranted && b.term <= a.term
    ensures var d := RequestVote(nd, a).0;
      RequestVote(d, b).1.voteGranted || RequestVote(Restart(nd.me, nd.n, d.disk), b).1.voteGranted ==>
        b.term == a.term && b.candidateId == a.candidateId
  {
  }

  /** A voter in an earlier term grants exactly when the candidate's log is up to date, and the candidate counts it. */
  lemma VoteRound(cand: Node, voter: Node)
    requires Valid(cand) && Valid(voter) && cand.role == Candidate && voter.currentTerm < cand.currentTerm
    ensures var a := VoteArgs(cand);
      var (d, r) := RequestVote(voter, a);
      && d.currentTerm == cand.currentTerm && d.role == Follower && d.logs == voter.logs
      && (r.voteGranted <==> UpToDate(a.lastLogIndex, a.lastLogTerm, LastIndex(voter), LogTerm(voter, LastIndex(voter))))
      && VoteReply(cand, a, r) == cand.(voteCount := cand.voteCount + (if r.voteGranted then 1 else 0))
  {
  }

  // ----- merging entries -----

  /** Every entry sent is already in the log, by term. */
  predicate Present(logs: seq<Entry>, k: nat, es: seq<Entry>) {
    k + |es| <= |logs| && forall i :: 0 <= i < |es| ==> logs[k + i].term == es[i].term
  }

  /** The first `m` entries sent are in the log and the next one is not. */
  predicate Diverges(logs: seq<Entry>, k: nat, es: seq<Entry>, m: nat) {
    m < |es| && k + m <= |logs| && Present(logs, k, es[..m]) && (k + m < |logs| ==> logs[k + m].term != es[m].term)
  }

  lemma PresentTail(logs: seq<Entry>, k: nat, es: seq<Entry>)
    requires k < |logs| && es != [] && logs[k].term == es[0].term
    ensures Present(logs, k, es) <==> Present(logs, k + 1, es[1..])
  {
    if Present(logs, k + 1, es[1..]) {
      forall i | 0 <= i < |es| ensures logs[k + i].term == es[i].term {
        if i > 0 { assert logs[k + 1 + (i - 1)].term == es[1..][i - 1].term; }
      }
    }
    if Present(logs, k, es) {
      forall i | 0 <= i < |es| - 1 ensures logs[k + 1 + i].term == es[1..][i].term {
        assert logs[k + (i + 1)].term == es[i + 1].term;
      }
    }
  }

  lemma {:induction false} MergeCuts(logs: seq<Entry>, k: nat, es: seq<Entry>) returns (m: nat)
    requires k <= |logs| && !Present(logs, k, es)
    ensures Diverges(logs, k, es, m) && Merge(logs, k, es) == logs[..k + m] + es[m..]
    decreases |es|
  {
    if k < |logs| && logs[k].term == es[0].term {
      PresentTail(logs, k, es);
      var m' := MergeCuts(logs, k + 1, es[1..]);
      m := m' + 1;
      forall i | 0 <= i < m ensures logs[k + i].term == es[..m][i].term {
        if i > 0 { assert es[..m][i] == es[1..][..m'][i - 1] && logs[k + i] == logs[k + 1 + (i - 1)]; }
      }
      assert es[1..][m'] == es[m] && es[1..][m'..] == es[m..];
    } else {
      m := 0;
    }
  }

  /** The log is cut exactly on a conflict or extended exactly when short: otherwise it stays as it is. */
  lemma {:induction false} MergeExactly(logs: seq<Entry>, k: nat, es: seq<Entry>)
    requires k <= |logs|
    ensures Merge(logs, k, es) == logs <==> Present(logs, k, es)
    ensures Present(Merge(logs, k, es), k, es)
  {
    if Present(logs, k, es) {
      MergeStays(logs, k, es);
    } else {
      var m := MergeCuts(logs, k, es);
      var r := logs[..k + m] + es[m..];
      assert r[k + m] == es[m];
      forall i | 0 <= i < |es| ensures r[k + i].term == es[i].term {
        if i < m { assert es[..m][i] == es[i]; }
      }
    }
  }

  lemma {:induction false} MergeStays(logs: seq<Entry>, k: nat, es: seq<Entry>)
    requires k <= |logs| && Present(logs, k, es)
    ensures Merge(logs, k, es) == logs
    decreases |es|
  {
    if es != [] {
      assert logs[k + 0].term == es[0].term;
      PresentTail(logs, k, es);
      MergeStays(logs, k + 1, es[1..]);
    }
  }

  // ----- repeats -----

  lemma MergeTwice(logs: seq<Entry>, k: nat, es: seq<Entry>)
    requires k <= |logs|
    ensures Merge(Merge(logs, k, es), k, es) == Merge(logs, k, es)
  {
    MergeExactly(logs, k, es);
    MergeStays(Merge(logs, k, es), k, es);
  }

  lemma AcceptTwice(d: Node, a: AppendEntriesArgs)
    requires Valid(d) && d.currentTerm == a.term && d.role != Candidate && Conflict(d, a).success
    ensures Valid(AppendEntries(d, a).0) && AppendEntries(AppendEntries(d, a).0, a) == AppendEntries(d, a)
  {
    AppendEntriesValid(d, a);
    AcceptsAs(d, a);
    MergeTwice(d.logs, a.prevLogIndex - d.snapLastIndex + 1, a.entries);
    AcceptsAs(AppendEntries(d, a).0, a);
  }

  function CommitAfter(commit: nat, leaderCommit: nat, last: nat): nat {
    if commit < leaderCommit then Min(leaderCommit, last) else commit
  }

  /** What accepting entries changes, field by field. */
  lemma AcceptsAs(d: Node, a: AppendEntriesArgs)
    requires Valid(d) && d.currentTerm == a.term && d.role != Candidate && Conflict(d, a).success
    ensures
      var logs := Merge(d.logs, a.prevLogIndex - d.snapLastIndex + 1, a.entries);
      var d' := d.(logs := logs, disk := d.disk.(logs := logs),
                   commitIndex := CommitAfter(d.commitIndex, a.leaderCommit, |logs| - 1 + d.snapLastIndex));
      AppendEntries(d, a) == (d', AppendEntriesReply(a.term, true, 0, -1)) && Valid(d') && Conflict(d', a).success
  {
    assert Persist(Follow(d, a.term)) == d;
  }

  /** Delivering the same AppendEntries twice is the same as once, reply included. */
  lemma AppendTwice(nd: Node, a: AppendEntriesArgs)
    requires Valid(nd)
    ensures Valid(AppendEntries(nd, a).0) && AppendEntries(AppendEntries(nd, a).0, a) == AppendEntries(nd, a)
  {
    AppendEntriesValid(nd, a);
    if nd.currentTerm <= a.term {
      FollowedAppend(nd, a);
      var d := Persist(Follow(nd, a.term));
      if Conflict(d, a).success { AcceptTwice(d, a); }
    }
  }

  lemma InstallTwice(nd: Node, a: InstallSnapshotArgs)
    requires Valid(nd) && |a.data| == a.lastIncludeIndex
    ensures Valid(InstallSnapshot(nd, a).0) && InstallSnapshot(InstallSnapshot(nd, a).0, a) == InstallSnapshot(nd, a)
  {
  }

  // ----- committing -----

  /** The rule of section 5.4.2: a majority has the index, and its entry is of the leader's own term. */
  predicate Committable(nd: Node, i: nat)
    requires Valid(nd)
  {
    nd.commitIndex < i <= LastIndex(nd) && LogTerm(nd, i) == nd.currentTerm && Quorum(nd.n, HoldersSet(nd, i, nd.n))
  }

  lemma {:induction false} ScanCovers(nd: Node, top: nat, i: nat)
    requires Valid(nd) && i <= top <= LastIndex(nd) && Committable(nd, i)
    ensures i <= CommitScan(nd, top)
  {
    HoldersCount(nd, top, nd.n);
    if i < top && !(LogTerm(nd, top) == nd.currentTerm && 2 * Holders(nd, top, nd.n) > nd.n) {
      ScanCovers(nd, top - 1, i);
    }
  }

  /** The commit index becomes the largest committable index, or stays if there is none. */
  lemma CommitExactly(nd: Node)
    requires Valid(nd)
    ensures var c := AdvanceCommit(nd).commitIndex;
      && (c == nd.commitIndex || Committable(nd, c))
      && forall i: nat :: Committable(nd, i) ==> i <= c
  {
    var c := CommitScan(nd, LastIndex(nd));
    CommitScanRises(nd, LastIndex(nd));
    HoldersCount(nd, c, nd.n);
    forall i: nat | Committable(nd, i) ensures i <= c {
      ScanCovers(nd, LastIndex(nd), i);
    }
  }

  // ----- replication rounds -----

  /** An accepted message leaves the follower with every entry sent, and knowing what the leader has committed. */
  lemma Accepted(f: Node, a: AppendEntriesArgs)
    requires Valid(f) && f.currentTerm <= a.term && Conflict(f, a).success && a.leaderCommit <= a.prevLogIndex + |a.entries|
    ensures var (f', r) := AppendEntries(f, a);
      && Valid(f') && r == AppendEntriesReply(a.term, true, 0, -1) && f'.snapLastIndex <= a.prevLogIndex
      && a.prevLogIndex + |a.entries| <= LastIndex(f')
      && Present(f'.logs, a.prevLogIndex + 1 - f'.snapLastIndex, a.entries)
      && f'.commitIndex == Max(f.commitIndex, a.leaderCommit)
  {
    var d := Persist(Follow(f, a.term));
    MergeExactly(d.logs, a.prevLogIndex - d.snapLastIndex + 1, a.entries);
    AppendEntriesValid(f, a);
  }

  lemma Learned(l: Node, p: nat, a: AppendEntriesArgs)
    requires Valid(l) && l.role == Leader && p < l.n && a.term == l.currentTerm
    ensures var l' := AppendReply(l, p, a, AppendEntriesReply(a.term, true, 0, -1));
      && |l'.matchIndex| == l.n == |l'.nextIndex|
      && l'.matchIndex[p] == Max(l.matchIndex[p], a.prevLogIndex + |a.entries|) && l'.nextIndex[p] == l'.matchIndex[p] + 1
      && forall q :: 0 <= q < l.n && q != p ==> l'.matchIndex[q] == l.matchIndex[q] && l'.nextIndex[q] == l.nextIndex[q]
  {
  }

  /** A follower whose log matches at nextIndex - 1 takes the rest of the leader's log, and the leader learns it. */
  lemma AppendRound(l: Node, f: Node, p: nat)
    requires Valid(l) && Valid(f) && l.role == Leader && p < l.n && f.currentTerm <= l.currentTerm
    requires l.commitIndex <= LastIndex(l) && l.snapLastIndex < l.nextIndex[p] <= LastIndex(l) + 1
    requires Conflict(f, AppendArgs(l, p)).success
    ensures var a := AppendArgs(l, p);
      var (f', r) := AppendEntries(f, a);
      var l' := AppendReply(l, p, a, r);
      && 1 <= |f'.logs| && LastIndex(l) <= LastIndex(f') && f'.commitIndex == Max(f.commitIndex, l.commitIndex)
      && f'.snapLastIndex <= a.prevLogIndex && Present(f'.logs, a.prevLogIndex + 1 - f'.snapLastIndex, a.entries)
      && |l'.matchIndex| == l.n && l'.matchIndex[p] == Max(l.matchIndex[p], LastIndex(l))
  {
    Accepted(f, AppendArgs(l, p));
    Learned(l, p, AppendArgs(l, p));
  }

  /** The leader `s` tries peer `u` where their logs match. */
  predicate Meets(cl: Cluster, s: nat, u: nat) {
    && s < |cl.nodes| && u < |cl.nodes| && s != u
    && var l, f := cl.nodes[s], cl.nodes[u];
       && Valid(l) && Valid(f) && l.role == Leader && u < l.n && f.currentTerm <= l.currentTerm
       && l.snapLastIndex < l.nextIndex[u] <= LastIndex(l) + 1 && Conflict(f, AppendArgs(l, u)).success
  }

  function Answered(cl: Cluster, s: nat, u: nat): Node
    requires Meets(cl, s, u)
  {
    AppendEntries(cl.nodes[u], AppendArgs(cl.nodes[s], u)).0
  }

  /** In a run, that makes the follower's log, terms and commands, the leader's up to the leader's last index. */
  lemma RoundGivesLog(run: seq<Cluster>, acts: seq<Action>, i: nat, s: nat, u: nat)
    requires IsRun(run, acts) && i < |run| && Meets(run[i], s, u)
    ensures
      var l, f' := run[i].nodes[s], Answered(run[i], s, u);
      1 <= |f'.logs| && SameTermsUpTo(l, f', LastIndex(l)) && History(l) <= History(f')
  {
    var cores := Shadow(run, acts);
    HistoryIsLog(run[i], cores[i], s);
    var d := RoundInCore(run[i], cores[i], s, u);
    WholeShows(cores[i], run[i].nodes[s], d, Answered(run[i], s, u));
  }

  lemma RoundInCore(cl: Cluster, c: Core, s: nat, u: nat) returns (d: Core)
    requires Tied(cl, c) && Meets(cl, s, u)
    ensures
      var f' := Answered(cl, s, u);
      s < |c.peers| && f'.me == u < |d.peers| && Mirrors(d, f') && c.peers[s].log <= d.peers[u].log
  {
    var l, f := cl.nodes[s], cl.nodes[u];
    var a := AppendArgs(l, u);
    Actors(cl, c, s);
    Actors(cl, c, u);
    SendsAll(c, l, u);
    d := AppendStep(c, f, a);
    RoundAdopts(c, f, a, d.peers[u].log);
    FineIsOK(d, AppendEntries(f, a).0);
  }

  lemma RoundAdopts(c: Core, f: Node, a: AppendEntriesArgs, l': Log)
    requires Good(c) && Fine(c, f) && Valid(f) && f.me < |c.peers| && Sent(c, AppendReq(f.me, a))
    requires f.currentTerm <= a.term && Conflict(f, a).success && Merged(f, a, c.peers[f.me].log, l')
    requires a.term in c.reigns && a.prevLogIndex + |a.entries| == |c.reigns[a.term].log|
    ensures c.reigns[a.term].log <= l'
  {
    SentIsOK(c, AppendReq(f.me, a));
    AppendedLog(c, f, a);
    var r := c.reigns[a.term].log;
    assert r[..|r|] == r;
  }

  lemma SendsAll(c: Core, l: Node, p: nat)
    requires Good(c) && Fine(c, l) && Valid(l) && l.role == Leader && p < l.n && p != l.me
    requires l.snapLastIndex < l.nextIndex[p] <= LastIndex(l) + 1
    ensures Sent(c, AppendReq(p, AppendArgs(l, p)))
    ensures
      var a := AppendArgs(l, p);
      l.me < |c.peers| && a.term in c.reigns && c.reigns[a.term].log == c.peers[l.me].log
      && a.prevLogIndex + |a.entries| == |c.peers[l.me].log|
  {
    FineIsOK(c, l);
    assert Other(l, p);
    SendsAppend(c, l, p, l.nextIndex[p] - 1, LastIndex(l) - (l.nextIndex[p] - 1), l.commitIndex);
  }

  /** A follower behind the leader's snapshot gets exactly it, and the leader moves past it. */
  lemma SnapshotRound(l: Node, f: Node, p: nat)
    requires Valid(l) && Valid(f) && l.role == Leader && p < l.n && f.currentTerm <= l.currentTerm
    requires f.commitIndex < l.snapLastIndex
    ensures var a := SnapshotArgs(l);
      var (f', r) := InstallSnapshot(f, a);
      var l' := SnapshotReply(l, p, a, r);
      && f'.service == l.disk.snapshot && f'.snapLastIndex == l.snapLastIndex == f'.lastApplied == f'.commitIndex
      && f'.logs[0].term == l.logs[0].term && f'.disk == Disk(l.currentTerm, f'.votedFor, f'.logs, l.disk.snapshot)
      && l'.matchIndex[p] == Max(l.matchIndex[p], l.snapLastIndex) && l'.nextIndex[p] == l'.matchIndex[p] + 1
  {
  }

  /** Compaction forgets nothing above the snapshot, and a restart finds the rest in the snapshot. */
  lemma SnapshotKeeps(nd: Node, index: nat, i: nat)
    requires Valid(nd) && index <= nd.lastApplied && index <= nd.commitIndex && index <= LastIndex(nd)
    requires Max(index, nd.snapLastIndex) <= i <= LastIndex(nd)
    ensures var d := Snapshot(nd, index);
      var back := Restart(nd.me, nd.n, d.disk);
      && Valid(d) && LastIndex(d) == LastIndex(nd) && LogTerm(d, i) == LogTerm(nd, i)
      && (Max(index, nd.snapLastIndex) < i ==> d.logs[i - d.snapLastIndex] == nd.logs[i - nd.snapLastIndex])
      && d.service == nd.service && d.commitIndex == nd.commitIndex
      && (nd.disk.snapshot <= nd.service ==> back.service <= nd.service && |back.service| == Max(index, nd.snapLastIndex))
      && back.logs == d.logs && back.snapLastIndex == d.snapLastIndex
  {
  }
}
