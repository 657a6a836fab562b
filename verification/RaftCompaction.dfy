/** Applying, snapshots and crashes, matched by steps of RaftCore. */
module RaftCompaction {
  import opened RaftTypes
  import opened RaftNode
  import opened RaftCore
  import opened RaftCoreSteps
  import opened RaftCluster
  import opened RaftCoupling
  import opened RaftSimulation
  import opened RaftReplication

  // ----- installing a snapshot -----

  /** With a matching term at its end, retaining what follows a snapshot is adopting its prefix. */
  lemma RetainAdopts(logs: seq<Entry>, snap: nat, l: Log, r: Log, len: nat)
    requires Compacts(logs, snap, l) && Agree(l, r) && snap <= len && 1 <= len <= |r|
    ensures Compacts(Retain(logs, len - snap, r[len - 1].term), len, Adopt(l, r, len))
  {
    var k := len - snap;
    if len <= |l| {
      LastCompacted(logs, snap, l, len);
    }
    if k < |logs| && logs[k].term == r[len - 1].term {
      assert l[..len - 1 + 1] == r[..len - 1 + 1];
      CompactsMore(logs, snap, l, len);
    } else {
      assert Adopt(l, r, len) == r[..len];
    }
  }

  lemma InstallAccepted(c: Core, nd: Node, a: InstallSnapshotArgs)
    requires Good(c) && Fine(c, nd) && Valid(nd) && nd.me < |c.peers| && SnapOK(c, nd.me, a)
    requires nd.role == Follower && nd.currentTerm == a.term && Installs(nd, a)
    ensures
      TakesOver(nd, InstallSnapshot(nd, a).0,
               Adopt(c.peers[nd.me].log, c.reigns[a.term].log, a.lastIncludeIndex), a.lastIncludeIndex)
    ensures Restores(nd, a, c.peers[nd.me].log, Adopt(c.peers[nd.me].log, c.reigns[a.term].log, a.lastIncludeIndex))
  {
    GoodIsInv(c);
    FineIsOK(c, nd);
    var l, r, len := c.peers[nd.me].log, c.reigns[a.term].log, a.lastIncludeIndex;
    assert Serves(c, nd.me) && Reigning(c, a.term);
    LogsAgree(c, l, r);
    Installed(nd, a, l, r);
    AdoptReplaces(a, l, r);
  }

  lemma AdoptReplaces(a: InstallSnapshotArgs, l: Log, r: Log)
    requires Agree(l, r) && 1 <= a.lastIncludeIndex <= |r|
    requires a.lastIncludeTerm == r[a.lastIncludeIndex - 1].term && a.data == Commands(r[..a.lastIncludeIndex])
    ensures Replaced(l, Adopt(l, r, a.lastIncludeIndex), a, r[..a.lastIncludeIndex])
  {
    var len := a.lastIncludeIndex;
    if len <= |l| && l[len - 1].term == r[len - 1].term {
      assert l[..len - 1 + 1] == r[..len - 1 + 1];
      assert l == r[..len] + l[len..];
    } else {
      assert Adopt(l, r, len) == r[..len];
    }
  }

  lemma Installed(nd: Node, a: InstallSnapshotArgs, l: Log, r: Log)
    requires Valid(nd) && nd.role == Follower && nd.currentTerm == a.term && Installs(nd, a)
    requires Compacts(nd.logs, nd.snapLastIndex, l) && Agree(l, r)
    requires 1 <= a.lastIncludeIndex <= |r| && a.lastIncludeTerm == r[a.lastIncludeIndex - 1].term
    requires a.data == Commands(r[..a.lastIncludeIndex])
    ensures TakesOver(nd, InstallSnapshot(nd, a).0, Adopt(l, r, a.lastIncludeIndex), a.lastIncludeIndex)
  {
    var len := a.lastIncludeIndex;
    RetainAdopts(nd.logs, nd.snapLastIndex, l, r, len);
    AdoptHolds(l, r, len, len);
    assert Persist(Follow(nd, a.term)) == nd;
  }

  lemma AlreadyHas(c: Core, nd: Node, a: InstallSnapshotArgs)
    requires Good(c) && Fine(c, nd) && Valid(nd) && nd.me < |c.peers| && SnapOK(c, nd.me, a)
    requires nd.role == Follower && nd.currentTerm == a.term && !Installs(nd, a)
    ensures InstallSnapshot(nd, a).0 == nd
    ensures Adopt(c.peers[nd.me].log, c.reigns[a.term].log, a.lastIncludeIndex) == c.peers[nd.me].log
    ensures TakesOver(nd, nd, Adopt(c.peers[nd.me].log, c.reigns[a.term].log, a.lastIncludeIndex), a.lastIncludeIndex)
  {
    GoodIsInv(c);
    FineIsOK(c, nd);
    var p, r, len := c.peers[nd.me], c.reigns[a.term].log, a.lastIncludeIndex;
    assert Serves(c, nd.me) && CommitSafe(c, nd.me);
    CommittedInReign(c, p.term, p.log[..p.commit], a.term);
    assert r[..len] == p.log[..p.commit][..len] == p.log[..len];
    assert Persist(Follow(nd, a.term)) == nd;
  }

  lemma InstallsHere(c: Core, nd: Node, a: InstallSnapshotArgs) returns (d: Core)
    requires Good(c) && Fine(c, nd) && Valid(nd) && Sent(c, SnapReq(nd.me, a))
    requires nd.role == Follower && nd.currentTerm == a.term && |a.data| == a.lastIncludeIndex
    ensures After(c, d, nd.me) && Fine(d, InstallSnapshot(nd, a).0)
    ensures Sent(d, SnapRep(nd.me, a, InstallSnapshot(nd, a).1))
    ensures nd.me < |c.peers| && nd.me < |d.peers| && Restores(nd, a, c.peers[nd.me].log, d.peers[nd.me].log)
  {
    SentIsOK(c, SnapReq(nd.me, a));
    var len := a.lastIncludeIndex;
    AppliedKept(c, nd, len);
    if Installs(nd, a) { InstallAccepted(c, nd, a); } else { AlreadyHas(c, nd, a); }
    d := AcceptMirrors(c, nd, len, len, InstallSnapshot(nd, a).0);
    SnapKept(c, d, nd.me, a);
    SentIsOK(d, SnapRep(nd.me, a, InstallSnapshot(nd, a).1));
  }

  lemma FollowedInstall(nd: Node, a: InstallSnapshotArgs)
    requires Valid(nd) && nd.currentTerm <= a.term && |a.data| == a.lastIncludeIndex
    ensures Valid(Persist(Follow(nd, a.term)))
    ensures InstallSnapshot(nd, a) == InstallSnapshot(Persist(Follow(nd, a.term)), a)
  {
  }

  lemma HeardSnapshot(c: Core, nd: Node, a: InstallSnapshotArgs) returns (d: Core)
    requires Good(c) && Fine(c, nd) && Sent(c, SnapReq(nd.me, a)) && nd.currentTerm <= a.term
    ensures Still(c, d, nd.me)
    ensures
      var nd' := Persist(Follow(nd, a.term));
      Fine(d, nd') && nd'.role == Follower && nd'.currentTerm == a.term
  {
    FineIsOK(c, nd);
    SentIsOK(c, SnapReq(nd.me, a));
    if nd.currentTerm == a.term { NotToLeader(c, nd, a.leaderId, a.term); }
    d := Followed(c, nd, a.term);
  }

  lemma InstallStep(c: Core, nd: Node, a: InstallSnapshotArgs) returns (d: Core)
    requires Good(c) && Fine(c, nd) && Valid(nd) && Sent(c, SnapReq(nd.me, a)) && |a.data| == a.lastIncludeIndex
    ensures After(c, d, nd.me) && Fine(d, InstallSnapshot(nd, a).0) && SameCount(nd, InstallSnapshot(nd, a).0)
    ensures Sent(d, SnapRep(nd.me, a, InstallSnapshot(nd, a).1))
    ensures nd.me < |c.peers| && nd.me < |d.peers| && Restores(nd, a, c.peers[nd.me].log, d.peers[nd.me].log)
  {
    IsServer(c, nd);
    if a.term < nd.currentTerm {
      d := c;
      Stay(c, nd.me);
      SentIsOK(c, SnapReq(nd.me, a));
      SentIsOK(c, SnapRep(nd.me, a, InstallSnapshot(nd, a).1));
    } else {
      var b := HeardSnapshot(c, nd, a);
      SentKept(c, b, SnapReq(nd.me, a));
      FollowedInstall(nd, a);
      d := InstallsHere(b, Persist(Follow(nd, a.term)), a);
      AfterTransitive(c, b, d, nd.me);
      assert Installs(nd, a) <==> Installs(Persist(Follow(nd, a.term)), a);
    }
  }

  lemma OnSnapReq(cl: Cluster, c: Core, m: Message) returns (d: Core)
    requires Tied(cl, c) && m.SnapReq? && Wants(cl, Receive(m)) && InBounds(cl, Receive(m))
    ensures Moved(cl, c, Receive(m), d) && Tied(Handle(cl, m), d)
  {
    var nd := cl.nodes[m.peer];
    Actors(cl, c, m.peer);
    Messages(cl, c, m);
    d := InstallStep(c, nd, m.sa);
    SentKept(c, d, m);
    Restoration(d, m);
    var (nd', r) := InstallSnapshot(nd, m.sa);
    Finish(cl, c, d, nd', {SnapRep(m.peer, m.sa, r)}, if Installs(nd, m.sa) then [Restored(m.peer, m.sa.data)] else []);
  }

  lemma Restoration(c: Core, m: Message)
    requires m.SnapReq? && Sent(c, m)
    ensures DeliveryOK(c, Restored(m.peer, m.sa.data))
  {
    SentIsOK(c, m);
    assert Decided(c, c.reigns[m.sa.term].log[..m.sa.lastIncludeIndex]);
  }

  // ----- applying -----

  lemma HandStep(c: Core, nd: Node)
    requires Good(c) && Fine(c, nd) && Valid(nd) && nd.lastApplied < nd.commitIndex <= LastIndex(nd)
    ensures Fine(c, ApplyNext(nd).0)
    ensures DeliveryOK(c, Applied(nd.me, nd.lastApplied + 1, ApplyNext(nd).1))
  {
    FineIsOK(c, nd);
    var l, i := c.peers[nd.me].log, nd.lastApplied + 1;
    var (nd', x) := ApplyNext(nd);
    LastCompacted(nd.logs, nd.snapLastIndex, l, i);
    assert l[..i] == l[..i - 1] + [l[i - 1]];
    assert nd'.service == Commands(l[..i]);
    CommittedUpTo(c, nd.me, i);
    assert Decided(c, l[..i]);
    if nd.role == Leader {
      forall p: nat | Other(nd', p) ensures PeerOK(c, nd', p) { assert Other(nd, p) && PeerOK(c, nd, p); }
    }
    FineIsOK(c, nd');
  }

  lemma OnHand(cl: Cluster, c: Core, s: nat)
    requires Tied(cl, c) && Wants(cl, Hand(s)) && InBounds(cl, Hand(s))
    ensures Moved(cl, c, Hand(s), c) && Tied(Do(cl, Hand(s)), c)
  {
    var nd := cl.nodes[s];
    Actors(cl, c, s);
    HandStep(c, nd);
    Stay(c, s);
    var (nd', x) := ApplyNext(nd);
    Finish(cl, c, c, nd', {}, [Applied(s, nd'.lastApplied, x)]);
    assert cl.net + {} == cl.net;
  }

  // ----- taking a snapshot -----

  lemma CompactStep(c: Core, nd: Node, i: nat)
    requires Fine(c, nd) && Valid(nd) && nd.snapLastIndex < i <= nd.lastApplied <= nd.commitIndex <= LastIndex(nd)
    ensures Fine(c, Snapshot(nd, i))
  {
    FineIsOK(c, nd);
    var l := c.peers[nd.me].log;
    var nd' := Snapshot(nd, i);
    LastCompacted(nd.logs, nd.snapLastIndex, l, i);
    CompactsMore(nd.logs, nd.snapLastIndex, l, i);
    if nd.role == Leader {
      forall p: nat | Other(nd', p) ensures PeerOK(c, nd', p) { assert Other(nd, p) && PeerOK(c, nd, p); }
    }
    FineIsOK(c, nd');
  }

  lemma OnCompact(cl: Cluster, c: Core, s: nat, i: nat)
    requires Tied(cl, c) && Wants(cl, Compact(s, i)) && InBounds(cl, Compact(s, i))
    ensures Moved(cl, c, Compact(s, i), c) && Tied(Do(cl, Compact(s, i)), c)
  {
    Actors(cl, c, s);
    CompactStep(c, cl.nodes[s], i);
    Stay(c, s);
    Finish(cl, c, c, Snapshot(cl.nodes[s], i), {}, []);
    assert cl.net + {} == cl.net && cl.deliveries + [] == cl.deliveries;
  }

  // ----- crashing -----

  lemma CrashStep(c: Core, nd: Node) returns (d: Core)
    requires Good(c) && Fine(c, nd) && Valid(nd)
    ensures Still(c, d, nd.me) && Fine(d, Restart(nd.me, nd.n, nd.disk))
  {
    FineIsOK(c, nd);
    d := Forgets(c, nd.me, nd.snapLastIndex);
    RestartOK(c, d, nd);
  }

  lemma Forgets(c: Core, s: nat, k: nat) returns (d: Core)
    requires Good(c) && s < |c.peers| && k <= c.peers[s].commit
    ensures Still(c, d, s) && d == c.(peers := c.peers[s := c.peers[s].(commit := k)])
  {
    GoodIsInv(c);
    d := Take(c, Forget(s, k));
  }

  lemma RestartOK(c: Core, d: Core, nd: Node)
    requires NodeOK(c, nd) && d == c.(peers := c.peers[nd.me := c.peers[nd.me].(commit := nd.snapLastIndex)])
    ensures Fine(d, Restart(nd.me, nd.n, nd.disk))
  {
    var l := c.peers[nd.me].log;
    assert nd.disk.snapshot == nd.service[..nd.snapLastIndex];
    assert Commands(l[..nd.lastApplied])[..nd.snapLastIndex] == Commands(l[..nd.snapLastIndex]);
    FineIsOK(d, Restart(nd.me, nd.n, nd.disk));
  }

  lemma OnCrash(cl: Cluster, c: Core, s: nat) returns (d: Core)
    requires Tied(cl, c) && Wants(cl, Crash(s)) && InBounds(cl, Crash(s))
    ensures Moved(cl, c, Crash(s), d) && Tied(Do(cl, Crash(s)), d)
  {
    var nd := cl.nodes[s];
    Actors(cl, c, s);
    d := CrashStep(c, nd);
    Finish(cl, c, d, Restart(nd.me, nd.n, nd.disk), {}, []);
    assert cl.net + {} == cl.net && cl.deliveries + [] == cl.deliveries;
  }
}
