/** What a leader does: taking commands, sending, and handling replies. */
module RaftReplication {
  import opened RaftTypes
  import opened RaftNode
  import opened RaftCore
  import opened RaftCoreSteps
  import opened RaftCluster
  import opened RaftCoupling
  import opened RaftSimulation
  import opened RaftElections

  // ----- commands -----

  lemma SubmitStep(c: Core, nd: Node, x: Command) returns (d: Core)
    requires Good(c) && Fine(c, nd) && nd.role == Leader
    ensures After(c, d, nd.me) && Fine(d, StartCommand(nd, x))
    ensures nd.me < |c.peers| && nd.me < |d.peers| && d.peers[nd.me].log == c.peers[nd.me].log + [Entry(nd.currentTerm, x)]
  {
    GoodIsInv(c);
    FineIsOK(c, nd);
    d := Take(c, Propose(nd.me, x));
    LongerLog(c, d, nd, x);
  }

  lemma LongerLog(c: Core, d: Core, nd: Node, x: Command)
    requires NodeOK(c, nd) && nd.role == Leader && Extends(c, d) && IsLeader(d, nd.me) && d.ballots == c.ballots
    requires d.peers[nd.me] == c.peers[nd.me].(log := c.peers[nd.me].log + [Entry(nd.currentTerm, x)])
    ensures Fine(d, StartCommand(nd, x))
  {
    var nd' := StartCommand(nd, x);
    var l := c.peers[nd.me].log;
    var l' := d.peers[nd.me].log;
    assert l'[..nd.lastApplied] == l[..nd.lastApplied];
    assert nd'.logs[1..] == nd.logs[1..] + [Entry(nd.currentTerm, x)] == l'[nd.snapLastIndex..];
    forall p: nat | Other(nd', p) ensures PeerOK(d, nd', p) {
      assert Other(nd, p) && PeerOK(c, nd, p);
    }
    FineIsOK(d, nd');
  }

  lemma OnSubmit(cl: Cluster, c: Core, s: nat, x: Command) returns (d: Core)
    requires Tied(cl, c) && Wants(cl, Submit(s, x)) && InBounds(cl, Submit(s, x))
    ensures Moved(cl, c, Submit(s, x), d) && Tied(Do(cl, Submit(s, x)), d)
  {
    Actors(cl, c, s);
    d := SubmitStep(c, cl.nodes[s], x);
    Finish(cl, c, d, StartCommand(cl.nodes[s], x), {}, []);
    assert cl.net + {} == cl.net && cl.deliveries + [] == cl.deliveries;
  }

  // ----- sending -----

  lemma CommittedUpTo(c: Core, s: nat, k: nat)
    requires Good(c) && s < |c.peers| && k <= c.peers[s].commit
    ensures k <= |c.peers[s].log| && CommittedPrefix(c, c.peers[s].term, c.peers[s].log[..k])
  {
    GoodIsInv(c);
    var p := c.peers[s];
    assert Serves(c, s) && CommitSafe(c, s);
    ShorterCommitted(c, p.term, p.log[..p.commit], k);
    assert p.log[..p.commit][..k] == p.log[..k];
  }

  lemma SliceOf(logs: seq<Entry>, snap: nat, l: Log, prev: nat, count: nat)
    requires Compacts(logs, snap, l) && snap <= prev && prev + count <= |l|
    ensures var k := prev - snap + 1; logs[k..k + count] == l[prev..prev + count]
  {
    var k := prev - snap + 1;
    var a, b := logs[k..k + count], l[prev..prev + count];
    forall i: nat | i < count ensures a[i] == b[i] {
      assert logs[1..][k + i - 1] == l[snap..][k + i - 1];
    }
  }

  lemma SendsAppend(c: Core, nd: Node, p: nat, prev: nat, count: nat, commit: nat)
    requires Good(c) && Fine(c, nd) && nd.role == Leader && Other(nd, p) && Valid(nd)
    requires nd.snapLastIndex <= prev && prev + count <= LastIndex(nd) && commit <= nd.commitIndex && commit <= prev + count
    ensures Sent(c, AppendReq(p, AppendSlice(nd, prev, count, commit)))
  {
    FineIsOK(c, nd);
    CommittedUpTo(c, nd.me, commit);
    AppendSliceOK(c, nd, p, prev, count, commit);
    SentIsOK(c, AppendReq(p, AppendSlice(nd, prev, count, commit)));
  }

  lemma AppendSliceOK(c: Core, nd: Node, p: nat, prev: nat, count: nat, commit: nat)
    requires Other(nd, p) && Valid(nd) && nd.snapLastIndex <= prev && prev + count <= LastIndex(nd) && commit <= prev + count
    requires nd.n == |c.peers| && IsLeader(c, nd.me) && nd.currentTerm == c.peers[nd.me].term
    requires Compacts(nd.logs, nd.snapLastIndex, c.peers[nd.me].log)
    requires CommittedPrefix(c, nd.currentTerm, c.peers[nd.me].log[..commit])
    ensures AppendOK(c, p, AppendSlice(nd, prev, count, commit))
  {
    LastCompacted(nd.logs, nd.snapLastIndex, c.peers[nd.me].log, prev);
    SliceOf(nd.logs, nd.snapLastIndex, c.peers[nd.me].log, prev, count);
  }

  lemma SendsSnapshot(c: Core, nd: Node, p: nat)
    requires Good(c) && Fine(c, nd) && nd.role == Leader && Other(nd, p) && 1 <= nd.snapLastIndex
    ensures Sent(c, SnapReq(p, SnapshotArgs(nd)))
  {
    FineIsOK(c, nd);
    var l := c.peers[nd.me].log;
    CommittedUpTo(c, nd.me, nd.snapLastIndex);
    assert nd.disk.snapshot == nd.service[..nd.snapLastIndex] == Commands(l[..nd.lastApplied])[..nd.snapLastIndex];
    assert Commands(l[..nd.lastApplied])[..nd.snapLastIndex] == Commands(l[..nd.snapLastIndex]);
    SentIsOK(c, SnapReq(p, SnapshotArgs(nd)));
  }

  lemma OnSend(cl: Cluster, c: Core, a: Action)
    requires Tied(cl, c) && a.Send? && Wants(cl, a) && InBounds(cl, a)
    ensures Moved(cl, c, a, c) && Tied(Do(cl, a), c)
  {
    var nd := cl.nodes[a.s];
    Actors(cl, c, a.s);
    Stay(c, a.s);
    if a.prev < nd.snapLastIndex {
      SendsSnapshot(c, nd, a.p);
    } else {
      SendsAppend(c, nd, a.p, a.prev, a.count, a.commit);
    }
    Finish(cl, c, c, nd, {Outgoing(nd, a.p, a.prev, a.count, a.commit)}, []);
    assert cl.nodes[a.s := nd] == cl.nodes && cl.deliveries + [] == cl.deliveries;
  }

  // ----- replies -----

  lemma MatchedOK(c: Core, nd: Node, p: nat, m: nat)
    requires Good(c) && Fine(c, nd) && Valid(nd) && nd.role == Leader && Other(nd, p) && Acked(c, nd.currentTerm, p, m)
    ensures Fine(c, Matched(nd, p, m))
  {
    GoodIsInv(c);
    FineIsOK(c, nd);
    var nd' := Matched(nd, p, m);
    assert PeerOK(c, nd, p);
    var a :| a in c.acks && a.term == nd.currentTerm && a.server == p && nd'.matchIndex[p] <= a.len;
    assert HasAcked(c, a);
    forall q: nat | Other(nd', q) ensures PeerOK(c, nd', q) {
      assert Other(nd, q) && PeerOK(c, nd, q);
    }
    FineIsOK(c, nd');
  }

  lemma BackedUpOK(c: Core, nd: Node, p: nat, a: AppendEntriesArgs, r: AppendEntriesReply)
    requires Fine(c, nd) && Valid(nd) && nd.role == Leader && p < nd.n && a.term == nd.currentTerm
    requires a.term in c.reigns && HintOK(c, a, r)
    ensures Fine(c, nd.(nextIndex := nd.nextIndex[p := BackUp(nd, r)]))
  {
    FineIsOK(c, nd);
    var nd' := nd.(nextIndex := nd.nextIndex[p := BackUp(nd, r)]);
    forall q: nat | Other(nd', q) ensures PeerOK(c, nd', q) {
      assert Other(nd, q) && PeerOK(c, nd, q);
    }
    FineIsOK(c, nd');
  }

  /** The servers that count as holding index `i`. */
  function HoldersSet(nd: Node, i: nat, k: nat): set<nat>
    requires k <= |nd.matchIndex|
  {
    set v: nat | v < k && (v == nd.me || i <= nd.matchIndex[v])
  }

  lemma {:induction false} HoldersCount(nd: Node, i: nat, k: nat)
    requires k <= |nd.matchIndex|
    ensures Holders(nd, i, k) == |HoldersSet(nd, i, k)|
  {
    if k == 0 {
      assert HoldersSet(nd, i, 0) == {};
    } else {
      HoldersCount(nd, i, k - 1);
      var rest := HoldersSet(nd, i, k - 1);
      if k - 1 == nd.me || i <= nd.matchIndex[k - 1] {
        assert HoldersSet(nd, i, k) == rest + {k - 1};
      } else {
        assert HoldersSet(nd, i, k) == rest;
      }
    }
  }

  /** The commit rule of a leader is RaftCore's. */
  lemma RuleCommits(c: Core, nd: Node, i: nat)
    requires Good(c) && Fine(c, nd) && Valid(nd) && nd.role == Leader && nd.commitIndex < i <= LastIndex(nd)
    requires LogTerm(nd, i) == nd.currentTerm && 2 * Holders(nd, i, nd.n) > nd.n
    ensures nd.me < |c.peers| && nd.currentTerm == c.peers[nd.me].term && Committed(c, nd.currentTerm, i)
  {
    var q := HoldersSet(nd, i, nd.n);
    HoldersCount(nd, i, nd.n);
    OwnEntry(c, nd, i);
    forall v: nat | v in q ensures Acked(c, nd.currentTerm, v, i) {
      HolderAcked(c, nd, i, v);
    }
    assert AckQuorum(c, nd.currentTerm, i, q);
  }

  lemma OwnEntry(c: Core, nd: Node, i: nat)
    requires Fine(c, nd) && Valid(nd) && nd.role == Leader && nd.snapLastIndex < i <= LastIndex(nd)
    ensures nd.me < |c.peers| == nd.n && nd.currentTerm == c.peers[nd.me].term && IsLeader(c, nd.me)
    ensures i <= |c.peers[nd.me].log| && c.peers[nd.me].log[i - 1].term == LogTerm(nd, i)
  {
    FineIsOK(c, nd);
    LastCompacted(nd.logs, nd.snapLastIndex, c.peers[nd.me].log, i);
  }

  lemma HolderAcked(c: Core, nd: Node, i: nat, v: nat)
    requires Good(c) && Fine(c, nd) && Valid(nd) && nd.role == Leader && nd.snapLastIndex < i <= LastIndex(nd)
    requires LogTerm(nd, i) == nd.currentTerm && v in HoldersSet(nd, i, nd.n)
    ensures Acked(c, nd.currentTerm, v, i)
  {
    OwnEntry(c, nd, i);
    if v == nd.me {
      GoodIsInv(c);
      OwnAck(c, v, i);
    } else {
      FineIsOK(c, nd);
      assert Other(nd, v) && PeerOK(c, nd, v);
    }
  }

  lemma OwnAck(c: Core, s: nat, i: nat)
    requires TermBounds(c) && AllGrounded(c) && Tips(c) && s < |c.peers| && IsLeader(c, s) && 1 <= i <= |c.peers[s].log|
    requires c.peers[s].log[i - 1].term == c.peers[s].term
    ensures Acked(c, c.peers[s].term, s, i)
  {
    var l, t := c.peers[s].log, c.peers[s].term;
    assert Serves(c, s) && Reigning(c, t);
    Monotone(c, l, i - 1, |l| - 1);
    assert Ack(t, s, |l|) in c.acks;
  }

  lemma AdvanceStep(c: Core, nd: Node) returns (d: Core)
    requires Good(c) && Fine(c, nd) && Valid(nd) && nd.role == Leader
    ensures Still(c, d, nd.me) && Fine(d, AdvanceCommit(nd))
  {
    CommitScanRises(nd, LastIndex(nd));
    var i := CommitScan(nd, LastIndex(nd));
    if i == nd.commitIndex {
      d := c;
      FineIsOK(c, nd);
      Stay(c, nd.me);
    } else {
      RuleCommits(c, nd, i);
      d := AdvanceTo(c, nd, i);
    }
  }

  lemma AdvanceTo(c: Core, nd: Node, i: nat) returns (d: Core)
    requires Good(c) && Fine(c, nd) && nd.role == Leader && nd.commitIndex < i
    requires nd.me < |c.peers| && nd.currentTerm == c.peers[nd.me].term && Committed(c, nd.currentTerm, i)
    ensures Still(c, d, nd.me) && Fine(d, nd.(commitIndex := i))
  {
    GoodIsInv(c);
    FineIsOK(c, nd);
    d := Take(c, Advance(nd.me, i));
    var nd' := nd.(commitIndex := i);
    forall p: nat | Other(nd', p) ensures PeerOK(d, nd', p) {
      assert Other(nd, p) && PeerOK(c, nd, p);
    }
    FineIsOK(d, nd');
  }

  lemma ReplyStep(c: Core, nd: Node, p: nat, a: AppendEntriesArgs, r: AppendEntriesReply) returns (d: Core)
    requires Good(c) && Fine(c, nd) && Valid(nd) && Other(nd, p) && Sent(c, AppendRep(p, a, r))
    ensures Still(c, d, nd.me) && Fine(d, AppendReply(nd, p, a, r)) && SameCount(nd, AppendReply(nd, p, a, r))
  {
    if nd.currentTerm < r.term {
      d := RaiseStep(c, nd, r.term);
    } else if !Current(nd, a.term, r.term) || NeedsSnapshot(nd, a, r) {
      d := c;
      FineIsOK(c, nd);
      Stay(c, nd.me);
    } else {
      SentIsOK(c, AppendRep(p, a, r));
      if r.success {
        MatchedOK(c, nd, p, a.prevLogIndex + |a.entries|);
        d := AdvanceStep(c, Matched(nd, p, a.prevLogIndex + |a.entries|));
      } else {
        BackedUpOK(c, nd, p, a, r);
        d := AdvanceStep(c, nd.(nextIndex := nd.nextIndex[p := BackUp(nd, r)]));
      }
    }
  }

  lemma OnAppendRep(cl: Cluster, c: Core, m: Message) returns (d: Core)
    requires Tied(cl, c) && m.AppendRep? && Wants(cl, Receive(m)) && InBounds(cl, Receive(m))
    ensures Moved(cl, c, Receive(m), d) && Tied(Handle(cl, m), d)
  {
    var s := m.aa.leaderId;
    var nd := cl.nodes[s];
    Actors(cl, c, s);
    Messages(cl, c, m);
    SentIsOK(c, m);
    d := ReplyStep(c, nd, m.peer, m.aa, m.ar);
    var nd' := AppendReply(nd, m.peer, m.aa, m.ar);
    assert cl.net + {} == cl.net && cl.deliveries + [] == cl.deliveries;
    if NeedsSnapshot(nd, m.aa, m.ar) {
      SendsSnapshot(c, nd, m.peer);
      SentKept(c, d, SnapReq(m.peer, SnapshotArgs(nd)));
      Finish(cl, c, d, nd', {SnapReq(m.peer, SnapshotArgs(nd))}, []);
    } else {
      Finish(cl, c, d, nd', {}, []);
    }
  }

  lemma OnSnapRep(cl: Cluster, c: Core, m: Message) returns (d: Core)
    requires Tied(cl, c) && m.SnapRep? && Wants(cl, Receive(m)) && InBounds(cl, Receive(m))
    ensures Moved(cl, c, Receive(m), d) && Tied(Handle(cl, m), d)
  {
    var s := m.sa.leaderId;
    var nd := cl.nodes[s];
    Actors(cl, c, s);
    Messages(cl, c, m);
    SentIsOK(c, m);
    var nd' := SnapshotReply(nd, m.peer, m.sa, m.sr);
    if nd.currentTerm < m.sr.term {
      d := RaiseStep(c, nd, m.sr.term);
    } else {
      d := c;
      Stay(c, s);
      if Current(nd, m.sa.term, m.sr.term) { MatchedOK(c, nd, m.peer, m.sa.lastIncludeIndex); }
    }
    Finish(cl, c, d, nd', {}, []);
    assert cl.net + {} == cl.net && cl.deliveries + [] == cl.deliveries;
  }
}
