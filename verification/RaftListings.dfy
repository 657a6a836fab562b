/**
 * Four places where the printed listings of the handlers need a condition to be right.
 * Each is stated exactly: what the listing computes, and when that is what is meant.
 */
module RaftListings {
  import opened RaftTypes
  import opened RaftNode
  import opened RaftCore
  import opened RaftCoreSteps
  import opened RaftCluster
  import opened RaftSimulation
  import opened RaftSafety
  import opened RaftBackup
  import opened RaftRuns
  import opened RaftCatchUp
  import opened RaftProgress
  import opened RaftRivals

  // ----- InstallSnapshot, the retained suffix -----

  /** The log after InstallSnapshot as the listing slices it. */
  function RetainAsPrinted(logs: seq<Entry>, snap: nat, last: nat, term: nat): seq<Entry>
    requires snap <= last
  {
    if snap + |logs| < last then [Entry(term, NIL)] else [Entry(term, NIL)] + logs[last - snap..]
  }

  /** The log it is meant to leave: the entries that follow the snapshot. */
  function RetainFollowing(logs: seq<Entry>, snap: nat, last: nat, term: nat): seq<Entry>
    requires snap <= last
  {
    [Entry(term, NIL)] + (if last - snap < |logs| then logs[last - snap + 1..] else [])
  }

  /** The listing keeps the entry at the snapshot's own index exactly when the log reaches it. */
  lemma RetainedExactly(logs: seq<Entry>, snap: nat, last: nat, term: nat)
    requires 1 <= |logs| && snap < last
    ensures RetainAsPrinted(logs, snap, last, term) == RetainFollowing(logs, snap, last, term) <==> snap + |logs| - 1 < last
    ensures last <= snap + |logs| - 1 ==> RetainAsPrinted(logs, snap, last, term)[1] == logs[last - snap]
  {
    assert |RetainAsPrinted(logs, snap, last, term)| ==
      if snap + |logs| < last then 1 else 1 + |logs| - (last - snap);
  }

  /** The leader `l` has compacted its log up to `last`, and its snapshot is one that `f` installs. */
  predicate Offers(l: Node, f: Node, last: nat) {
    && Valid(l) && Valid(f) && l.role == Leader && 1 <= last == l.snapLastIndex
    && f.snapLastIndex < last && Installs(f, SnapshotArgs(l))
  }

  lemma CompactsAll(nd: Node, last: nat)
    requires Valid(nd) && nd.snapLastIndex == 0 && 1 <= last == LastIndex(nd) == nd.lastApplied == nd.commitIndex
    ensures
      var d := Snapshot(nd, last);
      Valid(d) && d.snapLastIndex == last && SnapshotArgs(d) == InstallSnapshotArgs(nd.currentTerm, nd.me, last, nd.logs[last].term, nd.service)
  {
    assert nd.service[..last] == nd.service;
  }

  /** The second of two rivals compacts everything; the others still have all their entries. */
  lemma RivalsCompacted(len: nat, stale: nat, lc: nat) returns (run: seq<Cluster>, acts: seq<Action>)
    requires len < lc
    ensures IsRun(run, acts) && |Last(run).nodes| == 3
    ensures
      var l, f, g := Last(run).nodes[1], Last(run).nodes[0], Last(run).nodes[2];
      && Offers(l, f, lc) && Offers(l, g, lc) && SnapshotArgs(l).lastIncludeTerm == 2
      && f == Old(Stale(len, stale)) && g == Follows(2, 2, 1, Final(len, lc))
  {
    var h := FromBoot(3);
    var k, cl := RivalsExist(len, stale, lc);
    k, cl := HandsUpTo(h, k, cl, 1, lc);
    Names(h, k, cl);
    assert Named(cl, 1);
    var d := Next(h, k, cl, Compact(1, lc));
    CompactsAll(cl.nodes[1], lc);
    run, acts := RunTo(h, k + 1, d);
  }

  /** In a run: a follower that has the leader's log up to its snapshot and installs it would keep an entry too many. */
  lemma RetainedFails(last: nat) returns (run: seq<Cluster>, acts: seq<Action>)
    requires 1 <= last
    ensures IsRun(run, acts) && |Last(run).nodes| == 3
    ensures
      var l, f := Last(run).nodes[1], Last(run).nodes[2];
      && Offers(l, f, last)
      && RetainAsPrinted(f.logs, f.snapLastIndex, last, l.snapLastTerm) != InstallSnapshot(f, SnapshotArgs(l)).0.logs
  {
    run, acts := RivalsCompacted(last - 1, 0, last);
    var f := Last(run).nodes[2];
    RetainedExactly(f.logs, 0, last, 2);
  }

  // ----- InstallSnapshot, the term at the snapshot's end -----

  /** The follower's full log after keeping whatever follows the leader's first `len` entries. */
  function KeptBlindly(l: Log, r: Log, len: nat): Log
    requires len <= |r|
  {
    r[..len] + (if len < |l| then l[len..] else [])
  }

  lemma SuffixTerm(c: Core, l: Log, r: Log, len: nat)
    requires Grounded(c, l) && 1 <= len <= |r| && len < |l| && Grounded(c, KeptBlindly(l, r, len))
    ensures l[len - 1].term == r[len - 1].term
  {
    var kept := KeptBlindly(l, r, len);
    assert kept[len] == l[len] && kept[len - 1] == r[len - 1];
    Matching(c, kept, l, len);
    assert kept[..len + 1][len - 1] == l[..len + 1][len - 1];
  }

  /**
   * Keeping the suffix without comparing terms leaves a log some leader could have had
   * exactly when there is no suffix or the terms at the snapshot's end agree.
   */
  lemma SuffixNeedsTerm(c: Core, l: Log, r: Log, len: nat)
    requires Grounded(c, l) && Grounded(c, r) && 1 <= len <= |r|
    ensures Grounded(c, KeptBlindly(l, r, len)) <==> |l| <= len || l[len - 1].term == r[len - 1].term
  {
    var kept := KeptBlindly(l, r, len);
    if |l| <= len {
      assert kept == r[..len];
      GroundedPrefix(c, r, len);
    } else {
      if Grounded(c, kept) { SuffixTerm(c, l, r, len); }
      if l[len - 1].term == r[len - 1].term {
        Matching(c, l, r, len - 1);
        assert kept == l[..len] + l[len..] == l;
      }
    }
  }

  /** In every run the terms in every server's log never decrease. */
  lemma LogsAreOrdered(run: seq<Cluster>, acts: seq<Action>, i: nat, s: nat)
    requires IsRun(run, acts) && i < |run| && s < |run[i].nodes|
    ensures Ordered(run[i].nodes[s])
  {
    var cores := Shadow(run, acts);
    HistoryIsLog(run[i], cores[i], s);
    OrderedServer(cores[i], run[i].nodes[s]);
  }

  /** In a run: a server that installs the leader's snapshot and keeps its suffix unseen has a log no server ever has. */
  lemma SuffixFails(len: nat) returns (run: seq<Cluster>, acts: seq<Action>)
    requires 1 <= len
    ensures IsRun(run, acts) && |Last(run).nodes| == 3
    ensures
      var l, f := Last(run).nodes[1], Last(run).nodes[0];
      && Offers(l, f, len)
      && !Ordered(InstallSnapshot(f, SnapshotArgs(l)).0.(logs := RetainFollowing(f.logs, f.snapLastIndex, len, l.snapLastTerm)))
  {
    run, acts := RivalsCompacted(len - 1, 2, len);
    var l, f := Last(run).nodes[1], Last(run).nodes[0];
    var kept := RetainFollowing(f.logs, 0, len, 2);
    assert kept[0].term == 2 && kept[1].term == 1;
  }

  // ----- Snapshot, the two saves -----

  /** What the persister holds between the listing's two saves: the old log, the new snapshot. */
  function BetweenSaves(nd: Node, index: nat): Disk
    requires index <= |nd.service|
  {
    if index <= nd.snapLastIndex then nd.disk else nd.disk.(snapshot := nd.service[..index])
  }

  /** A restart from there finds the log where it was exactly when Snapshot had nothing to do. */
  lemma CrashBetweenSaves(nd: Node, index: nat)
    requires Valid(nd) && index <= nd.lastApplied && index <= nd.commitIndex && index <= LastIndex(nd)
    ensures LastIndex(Restart(nd.me, nd.n, BetweenSaves(nd, index))) == LastIndex(nd) <==> index <= nd.snapLastIndex
    ensures LastIndex(Restart(nd.me, nd.n, Snapshot(nd, index).disk)) == LastIndex(nd)
  {
  }

  /** So it is at every moment of every run at which the service asks for a snapshot. */
  lemma CompactionNeedsOneSave(run: seq<Cluster>, acts: seq<Action>, s: nat, index: nat)
    requires IsRun(run, acts) && Wants(Last(run), Compact(s, index))
    ensures
      var nd := Last(run).nodes[s];
      && Valid(nd) && index <= nd.lastApplied <= nd.commitIndex <= LastIndex(nd)
      && LastIndex(Restart(nd.me, nd.n, BetweenSaves(nd, index))) != LastIndex(nd)
      && LastIndex(Restart(nd.me, nd.n, Snapshot(nd, index).disk)) == LastIndex(nd)
  {
    NeverOutOfBounds(run, acts, Compact(s, index));
    CrashBetweenSaves(Last(run).nodes[s], index);
  }

  // ----- AppendEntries, the cap on the commit index -----

  /** Everything the follower takes as committed, capped by its own last index, is the leader's. */
  predicate CapIsSafe(l: Log, r: Log, prev: nat, len: nat, leaderCommit: nat)
    requires prev <= len <= |r| && prev <= |l|
  {
    var after := MergeFull(l, prev, r[prev..len]);
    var k := Min(leaderCommit, |after|);
    k <= |r| && after[..k] == r[..k]
  }

  /** A follower that accepts entries prev+1 .. len of the leader's log `r`. */
  ghost predicate Accepting(c: Core, l: Log, r: Log, prev: nat) {
    Grounded(c, l) && prev <= |l| && prev <= |r| && l[..prev] == r[..prev]
  }

  /** Some leader put another entry at an index after `len` and up to `leaderCommit`. */
  ghost predicate Overwritten(c: Core, r: Log, len: nat, leaderCommit: nat, w: nat, q: nat) {
    && Reigning(c, w) && len <= q < leaderCommit && q < |c.reigns[w].log| && q < |r|
    && len <= |r| && r[..len] <= c.reigns[w].log && c.reigns[w].log[q] != r[q]
  }

  lemma CapFailsFor(c: Core, r: Log, prev: nat, len: nat, leaderCommit: nat, w: nat, q: nat)
    requires AllGrounded(c) && Grounded(c, r) && prev <= len <= |r| && Overwritten(c, r, len, leaderCommit, w, q)
    ensures
      var l := c.reigns[w].log[..q + 1];
      Accepting(c, l, r, prev) && !CapIsSafe(l, r, prev, len, leaderCommit)
  {
    var l := c.reigns[w].log[..q + 1];
    GroundedPrefix(c, c.reigns[w].log, q + 1);
    assert l[..len] == c.reigns[w].log[..len] == r[..len];
    assert l[..prev] == l[..len][..prev] == r[..len][..prev] == r[..prev];
    LogsAgree(c, l, r);
    MergeFullAdopts(l, r, prev, len);
    assert Adopt(l, r, len) == l;
    var k := Min(leaderCommit, |l|);
    if k <= |r| { assert l[..k][q] != r[..k][q]; }
  }

  lemma CapFailsOnlyFor(c: Core, l: Log, r: Log, prev: nat, len: nat, leaderCommit: nat) returns (w: nat, q: nat)
    requires Grounded(c, r) && prev <= len <= |r| && leaderCommit <= |r| && Accepting(c, l, r, prev)
    requires !CapIsSafe(l, r, prev, len, leaderCommit)
    ensures Overwritten(c, r, len, leaderCommit, w, q)
  {
    LogsAgree(c, l, r);
    MergeFullAdopts(l, r, prev, len);
    var after := Adopt(l, r, len);
    var k := Min(leaderCommit, |after|);
    assert after == l;
    q :| 0 <= q < k && l[q] != r[q];
    assert l[..len] == r[..len];
    assert len <= q by { assert forall i :: 0 <= i < len ==> l[..len][i] == r[..len][i]; }
    w := l[q].term;
    assert At(l, q) && GroundedAt(c, l, q);
    var other := c.reigns[w].log;
    assert l[..q + 1] == other[..q + 1];
    assert other[q] == l[..q + 1][q];
    assert r[..len] == l[..q + 1][..len] == other[..len];
  }

  /**
   * Capping the commit index by the follower's own last index is safe for every follower that
   * accepts exactly when no leader put another entry after what is sent and up to the commit index.
   */
  lemma CapExactly(c: Core, t: nat, prev: nat, len: nat, leaderCommit: nat)
    requires AllGrounded(c) && Reigning(c, t) && prev <= len <= |c.reigns[t].log| && leaderCommit <= |c.reigns[t].log|
    ensures
      var r := c.reigns[t].log;
      (forall l :: Accepting(c, l, r, prev) ==> CapIsSafe(l, r, prev, len, leaderCommit))
      <==> (forall w: nat, q: nat :: !Overwritten(c, r, len, leaderCommit, w, q))
  {
    var r := c.reigns[t].log;
    if w: nat, q: nat :| Overwritten(c, r, len, leaderCommit, w, q) {
      CapFailsFor(c, r, prev, len, leaderCommit, w, q);
    } else {
      forall l | Accepting(c, l, r, prev) ensures CapIsSafe(l, r, prev, len, leaderCommit) {
        if !CapIsSafe(l, r, prev, len, leaderCommit) {
          var w, q := CapFailsOnlyFor(c, l, r, prev, len, leaderCommit);
        }
      }
    }
  }

  /** The leader `s` could send `u` its entries prev+1 .. len with this commit index, and `u` would accept them. */
  ghost predicate CanHappen(cl: Cluster, s: nat, u: nat, prev: nat, len: nat, leaderCommit: nat) {
    && Over(cl, s, u) && Ready(cl, s, u)
    && var l := cl.nodes[s];
       && l.snapLastIndex <= prev <= len <= LastIndex(l) && leaderCommit <= l.commitIndex
       && AppendEntries(cl.nodes[u], AppendSlice(l, prev, len - prev, leaderCommit)).1.success
  }

  /** What `u` then takes as committed is the leader's. */
  ghost predicate TakesLeaders(cl: Cluster, s: nat, u: nat, prev: nat, len: nat, leaderCommit: nat)
    requires CanHappen(cl, s, u, prev, len, leaderCommit)
  {
    var l := cl.nodes[s];
    var f' := AppendEntries(cl.nodes[u], AppendSlice(l, prev, len - prev, leaderCommit)).0;
    f'.commitIndex <= |History(f')| && History(f')[..f'.commitIndex] <= History(l)
  }

  /** What a peer not in a later term knows to be committed is in the leader's log. */
  lemma LeaderHasCommitted(h: Trace, k: nat, cl: Cluster, s: nat, u: nat)
    requires Onward(h, k, cl) && Over(cl, s, u)
    ensures
      var l, f := cl.nodes[s], cl.nodes[u];
      f.commitIndex <= |History(f)| && History(f)[..f.commitIndex] <= History(l)
  {
    var c := Behind(h, k, cl);
    InCore(cl, c, s, u);
    ServerCommits(cl, c, u);
    var p := c.peers[u];
    CommittedInReign(c, p.term, p.log[..p.commit], c.peers[s].term);
    PrefixSeen(cl, c, u, cl, c, s, p.commit);
  }

  lemma CapHolds(h: Trace, k: nat, cl: Cluster, s: nat, u: nat, prev: nat, len: nat, leaderCommit: nat)
    requires Onward(h, k, cl) && BothAct(h, s, u) && CanHappen(cl, s, u, prev, len, leaderCommit) && leaderCommit <= len
    ensures TakesLeaders(cl, s, u, prev, len, leaderCommit)
  {
    var a := AppendSlice(cl.nodes[s], prev, len - prev, leaderCommit);
    var b := Next(h, k, cl, Send(s, u, prev, len - prev, leaderCommit));
    assert AppendReq(u, a) in b.net;
    var d := Next(h, k + 1, b, Receive(AppendReq(u, a)));
    CommitTaken(cl.nodes[u], a);
    LeaderHasCommitted(h, k + 2, d, s, u);
  }

  /** Merging entries that are there already changes nothing. */
  lemma {:induction false} MergeSame(logs: seq<Entry>, k: nat, es: seq<Entry>)
    requires k + |es| <= |logs| && logs[k..k + |es|] == es
    ensures Merge(logs, k, es) == logs
    decreases |es|
  {
    if es != [] {
      assert logs[k] == logs[k..k + |es|][0];
      assert logs[k + 1..k + 1 + |es[1..]|] == logs[k..k + |es|][1..];
      MergeSame(logs, k + 1, es[1..]);
    }
  }

  /** With more committed than sent, server 0 of two rivals takes its own stale entry as committed. */
  lemma RivalTakesStale(f: Node, a: AppendEntriesArgs, prev: nat, len: nat, lc: nat)
    requires prev <= len < lc && f == Old(Stale(len, 1))
    requires a == AppendEntriesArgs(2, 1, prev, ([S] + Final(len, lc))[prev].term, lc, ([S] + Final(len, lc))[prev + 1..len + 1])
    ensures
      var (f', r) := AppendEntries(f, a);
      r.success && f'.logs == f.logs && f'.commitIndex == len + 1 && f'.disk.snapshot == []
  {
    var mine, theirs := [S] + Stale(len, 1), [S] + Final(len, lc);
    assert mine[..len + 1] == theirs[..len + 1];
    assert mine[prev] == mine[..len + 1][prev] == theirs[..len + 1][prev] == theirs[prev];
    assert mine[prev + 1..len + 1] == mine[..len + 1][prev + 1..] == theirs[..len + 1][prev + 1..] == theirs[prev + 1..len + 1];
    MergeSame(mine, prev + 1, theirs[prev + 1..len + 1]);
  }

  lemma TheyDisagree(f: Node, l: Node, len: nat, lc: nat)
    requires len < lc && f.logs == [S] + Stale(len, 1) && f.disk.snapshot == [] && l.logs == [S] + Final(len, lc) && l.disk.snapshot == []
    ensures len + 1 <= |History(f)| && !(History(f)[..len + 1] <= History(l))
  {
    assert f.logs[1..] == Stale(len, 1) && l.logs[1..] == Final(len, lc);
    assert History(f)[..len + 1][len] == 2 && History(l)[len] == 3;
  }

  lemma CapFails(prev: nat, len: nat, leaderCommit: nat) returns (run: seq<Cluster>, acts: seq<Action>)
    requires prev <= len < leaderCommit
    ensures IsRun(run, acts) && CanHappen(Last(run), 1, 0, prev, len, leaderCommit)
    ensures !TakesLeaders(Last(run), 1, 0, prev, len, leaderCommit)
  {
    var h := FromBoot(3);
    var k, cl := RivalsExist(len, 1, leaderCommit);
    InRun(h, k, cl, 1, 0);
    var l, f := cl.nodes[1], cl.nodes[0];
    var a := AppendSlice(l, prev, len - prev, leaderCommit);
    RivalTakesStale(f, a, prev, len, leaderCommit);
    TheyDisagree(AppendEntries(f, a).0, l, len, leaderCommit);
    run, acts := RunTo(h, k, cl);
  }

  /** What the sender must check: the cap is safe in every run exactly when it sends up to its commit index. */
  lemma CapRule(prev: nat, len: nat, leaderCommit: nat)
    requires prev <= len
    ensures
      (forall run, acts, s: nat, u: nat :: IsRun(run, acts) && CanHappen(Last(run), s, u, prev, len, leaderCommit) ==>
         TakesLeaders(Last(run), s, u, prev, len, leaderCommit))
      <==> leaderCommit <= len
  {
    if leaderCommit <= len {
      forall run, acts, s: nat, u: nat | IsRun(run, acts) && CanHappen(Last(run), s, u, prev, len, leaderCommit)
        ensures TakesLeaders(Last(run), s, u, prev, len, leaderCommit)
      {
        Here(run, acts, {s, u});
        CapHolds(Trace(run, acts, {s, u}), 0, Last(run), s, u, prev, len, leaderCommit);
      }
    } else {
      var run, acts := CapFails(prev, len, leaderCommit);
    }
  }
}
