/** Every action of a cluster is matched by steps of RaftCore. */
module RaftSimulation {
  import opened RaftTypes
  import opened RaftNode
  import opened RaftCore
  import opened RaftCoreSteps
  import opened RaftCluster
  import opened RaftCoupling

  // The large invariants are stated under a `Look` predicate each, so that the verifier
  // opens one only in the proofs that ask for it through the lemmas below.

  predicate LookCore(k: nat) { true }
  predicate LookNode(k: nat) { true }
  predicate LookMessage(k: nat) { true }
  predicate LookCluster(k: nat) { true }
  predicate LookPath(k: nat) { true }

  ghost predicate Good(c: Core) {
    forall k: nat :: LookCore(k) ==> Inv(c)
  }

  ghost predicate Fine(c: Core, nd: Node) {
    forall k: nat :: LookNode(k) ==> NodeOK(c, nd)
  }

  ghost predicate Sent(c: Core, m: Message) {
    forall k: nat :: LookMessage(k) ==> MsgOK(c, m)
  }

  ghost predicate Tied(cl: Cluster, c: Core) {
    Good(c) && forall k: nat :: LookCluster(k) ==> Coupled(cl, c)
  }

  lemma GoodIsInv(c: Core)
    ensures Good(c) <==> Inv(c)
  {
    assert LookCore(0);
  }

  lemma FineIsOK(c: Core, nd: Node)
    ensures Fine(c, nd) <==> NodeOK(c, nd)
  {
    assert LookNode(0);
  }

  lemma SentIsOK(c: Core, m: Message)
    ensures Sent(c, m) <==> MsgOK(c, m)
  {
    assert LookMessage(0);
  }

  lemma TiedIsCoupled(cl: Cluster, c: Core)
    ensures Tied(cl, c) <==> Good(c) && Coupled(cl, c)
  {
    assert LookCluster(0);
  }

  lemma Actors(cl: Cluster, c: Core, s: nat)
    requires Tied(cl, c) && s < |cl.nodes|
    ensures |cl.nodes| == |c.peers| && cl.nodes[s].me == s && Fine(c, cl.nodes[s])
  {
    TiedIsCoupled(cl, c);
    assert Serves(c, s);
    FineIsOK(c, cl.nodes[s]);
  }

  lemma IsServer(c: Core, nd: Node)
    requires Fine(c, nd)
    ensures nd.me < |c.peers|
  {
    FineIsOK(c, nd);
  }

  lemma Messages(cl: Cluster, c: Core, m: Message)
    requires Tied(cl, c) && m in cl.net
    ensures Sent(c, m)
  {
    TiedIsCoupled(cl, c);
    SentIsOK(c, m);
  }

  /** Some sequence of enabled events leads from `c` to `d`. */
  ghost predicate Reached(c: Core, d: Core) {
    forall k: nat :: LookPath(k) ==> exists es :: Path(c, es, d)
  }

  lemma ReachedByNothing(c: Core)
    ensures Reached(c, c)
  {
    assert Path(c, [], c);
  }

  lemma ReachedByOne(c: Core, e: Event)
    requires Enabled(c, e)
    ensures Reached(c, Apply(c, e))
  {
    var d := Apply(c, e);
    assert Path(d, [], d) && [e][1..] == [];
    assert Path(c, [e], d);
  }

  lemma ReachedTransitive(a: Core, b: Core, c: Core)
    requires Reached(a, b) && Reached(b, c)
    ensures Reached(a, c)
  {
    assert LookPath(0);
    var es :| Path(a, es, b);
    var fs :| Path(b, fs, c);
    PathConcat(a, es, b, fs, c);
  }

  /** Server `s`, and no other, took some steps of RaftCore. */
  ghost predicate After(c: Core, d: Core, s: nat) {
    Good(d) && Extends(c, d) && OnlyBy(c, d, s) && Reached(c, d)
  }

  predicate SameLog(c: Core, d: Core, s: nat) {
    s < |c.peers| && s < |d.peers| && d.peers[s].log == c.peers[s].log
  }

  /** ... and its log is what it was. */
  ghost predicate Still(c: Core, d: Core, s: nat) {
    After(c, d, s) && SameLog(c, d, s)
  }

  lemma Stay(c: Core, s: nat)
    requires Good(c)
    ensures After(c, c, s) && (s < |c.peers| ==> Still(c, c, s))
  {
    ReachedByNothing(c);
  }

  lemma Take(c: Core, e: Event) returns (d: Core)
    requires Inv(c) && Enabled(c, e)
    ensures d == Apply(c, e) && After(c, d, e.s)
  {
    d := Apply(c, e);
    StepInv(c, e);
    EventOnlyBy(c, e);
    ReachedByOne(c, e);
    GoodIsInv(d);
  }

  lemma AfterTransitive(a: Core, b: Core, c: Core, s: nat)
    requires After(a, b, s) && After(b, c, s)
    ensures After(a, c, s) && (SameLog(a, b, s) && SameLog(b, c, s) ==> Still(a, c, s))
  {
    ExtendsTransitive(a, b, c);
    OnlyByTransitive(a, b, c, s);
    ReachedTransitive(a, b, c);
  }

  // ----- how a step changes the uncompacted log -----

  /** Conflict-only truncation of a log that was never compacted. */
  function MergeFull(l: Log, prev: nat, es: seq<Entry>): Log
    requires prev <= |l|
  {
    Merge([Entry(0, NIL)] + l, prev + 1, es)[1..]
  }

  /** What follows index `len` in `l`, if the entry there is of term `t`. */
  function Following(l: Log, len: nat, t: nat): Log {
    if len <= |l| && TermAt(l, len) == t then l[len..] else []
  }

  /** `p` is what the snapshot stands for, and `l'` is `p` with the retained suffix of `l`. */
  predicate Replaced(l: Log, l': Log, a: InstallSnapshotArgs, p: Log) {
    && |p| == a.lastIncludeIndex && LastTerm(p) == a.lastIncludeTerm && Commands(p) == a.data
    && l' == p + Following(l, a.lastIncludeIndex, a.lastIncludeTerm)
  }

  predicate Merged(nd: Node, a: AppendEntriesArgs, l: Log, l': Log)
    requires Valid(nd)
  {
    if nd.currentTerm <= a.term && Conflict(nd, a).success
    then a.prevLogIndex <= |l| && l' == MergeFull(l, a.prevLogIndex, a.entries)
    else l' == l
  }

  ghost predicate Restores(nd: Node, a: InstallSnapshotArgs, l: Log, l': Log) {
    if Installs(nd, a) then exists p :: Replaced(l, l', a, p) else l' == l
  }

  /** How the uncompacted log of the server that acts goes from `l` to `l'`. */
  ghost predicate Evolves(nd: Node, a: Action, l: Log, l': Log)
    requires Valid(nd)
  {
    match a
    case Submit(_, x) => l' == l + [Entry(nd.currentTerm, x)]
    case Receive(AppendReq(_, aa)) => Merged(nd, aa, l, l')
    case Receive(SnapReq(_, sa)) => Restores(nd, sa, l, l')
    case _ => l' == l
  }

  /** What every action does to RaftCore. */
  ghost predicate Moved(cl: Cluster, c: Core, a: Action, d: Core)
    requires Actor(a) < |cl.nodes| && Valid(cl.nodes[Actor(a)])
  {
    var s := Actor(a);
    After(c, d, s) && s < |c.peers| && s < |d.peers| && Evolves(cl.nodes[s], a, c.peers[s].log, d.peers[s].log)
  }

  // ----- compacted logs -----

  lemma LastCompacted(logs: seq<Entry>, snap: nat, full: Log, i: nat)
    requires Compacts(logs, snap, full) && snap <= i <= |full|
    ensures logs[i - snap].term == TermAt(full, i)
    ensures snap < i ==> logs[i - snap] == full[i - 1]
  {
    if snap < i { assert logs[1..][i - snap - 1] == full[snap..][i - snap - 1]; }
  }

  ghost predicate Agree(a: Log, b: Log) {
    forall k :: 0 <= k < |a| && k < |b| && a[k].term == b[k].term ==> a[..k + 1] == b[..k + 1]
  }

  lemma LogsAgree(c: Core, a: Log, b: Log)
    requires Grounded(c, a) && Grounded(c, b)
    ensures Agree(a, b)
  {
    forall k | 0 <= k < |a| && k < |b| && a[k].term == b[k].term ensures a[..k + 1] == b[..k + 1] {
      Matching(c, a, b, k);
    }
  }

  /** Conflict-only truncation of a matching log is exactly adoption of the leader's prefix. */
  lemma {:induction false} MergeAdopts(logs: seq<Entry>, snap: nat, full: Log, r: Log, prev: nat, len: nat)
    requires Compacts(logs, snap, full) && Agree(full, r)
    requires snap <= prev <= |full| && prev <= len <= |r| && full[..prev] == r[..prev]
    ensures Compacts(Merge(logs, prev - snap + 1, r[prev..len]), snap, Adopt(full, r, len))
    decreases len - prev
  {
    if prev == len {
      assert r[..len] <= full;
    } else if prev < |full| && full[prev].term == r[prev].term {
      MergeSkips(logs, snap, full, r, prev, len);
      assert full[..prev + 1] == r[..prev + 1];
      MergeAdopts(logs, snap, full, r, prev + 1, len);
    } else {
      CutAdopts(logs, snap, full, r, prev, len);
    }
  }

  lemma MergeSkips(logs: seq<Entry>, snap: nat, full: Log, r: Log, prev: nat, len: nat)
    requires Compacts(logs, snap, full) && snap <= prev < |full| && prev < len <= |r| && full[prev].term == r[prev].term
    ensures Merge(logs, prev - snap + 1, r[prev..len]) == Merge(logs, prev - snap + 2, r[prev + 1..len])
  {
    LastCompacted(logs, snap, full, prev + 1);
    assert r[prev..len][1..] == r[prev + 1..len];
  }

  /** Without compaction in between, merging is adopting. */
  lemma MergeFullAdopts(l: Log, r: Log, prev: nat, len: nat)
    requires Agree(l, r) && prev <= |l| && prev <= len <= |r| && l[..prev] == r[..prev]
    ensures MergeFull(l, prev, r[prev..len]) == Adopt(l, r, len)
  {
    var logs := [Entry(0, NIL)] + l;
    assert logs[1..] == l && l[0..] == l;
    MergeAdopts(logs, 0, l, r, prev, len);
    assert Adopt(l, r, len)[0..] == Adopt(l, r, len);
  }

  lemma CutAdopts(logs: seq<Entry>, snap: nat, full: Log, r: Log, prev: nat, len: nat)
    requires Compacts(logs, snap, full)
    requires snap <= prev <= |full| && prev < len <= |r| && full[..prev] == r[..prev]
    requires prev == |full| || full[prev].term != r[prev].term
    ensures Compacts(Merge(logs, prev - snap + 1, r[prev..len]), snap, Adopt(full, r, len))
  {
    var k := prev - snap + 1;
    if prev < |full| {
      LastCompacted(logs, snap, full, prev + 1);
    }
    assert r[..len][prev] == r[prev];
    assert Adopt(full, r, len) == r[..len];
    assert Merge(logs, k, r[prev..len]) == logs[..k] + r[prev..len];
    CutCompacts(logs, snap, full, r, prev, len);
  }

  lemma CutCompacts(logs: seq<Entry>, snap: nat, full: Log, r: Log, prev: nat, len: nat)
    requires Compacts(logs, snap, full)
    requires snap <= prev <= |full| && prev < len <= |r| && full[..prev] == r[..prev]
    ensures Compacts(logs[..prev - snap + 1] + r[prev..len], snap, r[..len])
  {
    var cut := logs[..prev - snap + 1] + r[prev..len];
    assert TermAt(full, snap) == TermAt(full[..prev], snap) == TermAt(r[..prev], snap) == TermAt(r[..len], snap);
    forall i: nat | i < len - snap ensures cut[1..][i] == r[..len][snap..][i] {
      if snap + i < prev {
        assert logs[1..][i] == full[snap..][i] == full[..prev][snap + i] == r[..prev][snap + i];
      }
    }
  }

  lemma CompactsMore(logs: seq<Entry>, snap: nat, full: Log, i: nat)
    requires Compacts(logs, snap, full) && snap <= i <= |full|
    ensures Compacts([Entry(TermAt(full, i), NIL)] + logs[i - snap + 1..], i, full)
  {
    assert logs[i - snap + 1..] == logs[1..][i - snap..] == full[snap..][i - snap..] == full[i..];
  }

  // ----- hearing a term -----

  function Raised(nd: Node, t: nat): Node {
    if nd.currentTerm < t then Persist(StepDown(nd, t)) else nd
  }

  ghost predicate SameHistory(c: Core, d: Core, s: nat) {
    && c.cand == d.cand && c.ballots == d.ballots && c.reigns == d.reigns && c.acks == d.acks
    && s < |c.peers| == |d.peers| && d.peers[s].log == c.peers[s].log
  }

  lemma Raise(c: Core, nd: Node, t: nat) returns (d: Core)
    requires Good(c) && NodeOK(c, nd)
    ensures Still(c, d, nd.me) && SameHistory(c, d, nd.me) && NodeOK(d, Raised(nd, t))
  {
    if nd.currentTerm < t {
      GoodIsInv(c);
      d := Take(c, Bump(nd.me, t));
      var seat := Seat(t, nd.me);
      assert HasVoted(c, seat) ==> BallotShape(c, seat);
    } else {
      d := c;
      Stay(c, nd.me);
    }
  }

  lemma Followed(c: Core, nd: Node, t: nat) returns (d: Core)
    requires Good(c) && NodeOK(c, nd) && nd.currentTerm <= t
    requires nd.role == Leader ==> nd.currentTerm < t
    ensures Still(c, d, nd.me)
    ensures
      var nd' := Persist(Follow(nd, t));
      Fine(d, nd') && nd'.role == Follower && nd'.currentTerm == t
  {
    d := Raise(c, nd, t);
    assert Persist(nd) == nd;
    FineIsOK(d, Persist(Follow(nd, t)));
  }

  /** A leader is not sent its own term's messages. */
  lemma NotToLeader(c: Core, nd: Node, leader: nat, t: nat)
    requires NodeOK(c, nd) && t in c.reigns && c.reigns[t].leader == leader && leader != nd.me
    requires nd.currentTerm == t
    ensures nd.role != Leader
  {
  }

  lemma SentKept(c: Core, d: Core, m: Message)
    requires Extends(c, d) && Sent(c, m)
    ensures Sent(d, m)
  {
    SentIsOK(c, m);
    MsgKept(c, d, m);
    SentIsOK(d, m);
  }

  // ----- putting a step together -----

  /** A step of server `s` to `nd` that sends no vote calls. */
  lemma Finish(cl: Cluster, c: Core, d: Core, nd: Node, sent: set<Message>, xs: seq<Delivery>)
    requires Tied(cl, c) && nd.me < |cl.nodes| && After(c, d, nd.me)
    requires Fine(d, nd) && SameCount(cl.nodes[nd.me], nd)
    requires forall m :: m in sent ==> !IsVote(m) && Sent(d, m)
    requires forall x :: x in xs ==> DeliveryOK(d, x)
    ensures Tied(Cluster(cl.nodes[nd.me := nd], cl.net + sent, cl.deliveries + xs), d)
  {
    var cl' := Cluster(cl.nodes[nd.me := nd], cl.net + sent, cl.deliveries + xs);
    TiedIsCoupled(cl, c);
    assert Serves(c, nd.me);
    SameVotes(cl, cl'.net, nd.me);
    TallyGrows(cl.net, cl'.net, c, d, cl.nodes[nd.me].currentTerm, nd.me);
    FineIsOK(d, nd);
    forall m | m in sent ensures MsgOK(d, m) { SentIsOK(d, m); }
    Assemble(cl, cl', c, d, nd.me);
    TiedIsCoupled(cl', d);
  }

  /** Only a vote reply raises the vote count of a candidate that stays one. */
  predicate SameCount(nd: Node, nd': Node) {
    nd'.role == Candidate ==>
      nd.role == Candidate && nd'.voteCount == nd.voteCount && nd'.currentTerm == nd.currentTerm
  }

  // ----- accepting entries -----

  /** What a follower has applied it keeps when it adopts its leader's prefix. */
  lemma AppliedKept(c: Core, nd: Node, len: nat)
    requires Good(c) && Fine(c, nd) && nd.me < |c.peers|
    requires nd.currentTerm in c.reigns && len <= |c.reigns[nd.currentTerm].log|
    ensures nd.currentTerm == c.peers[nd.me].term && nd.lastApplied <= nd.commitIndex && nd.disk.snapshot <= nd.service
    ensures
      var l := Adopt(c.peers[nd.me].log, c.reigns[nd.currentTerm].log, len);
      nd.commitIndex <= |l| && nd.service == Commands(l[..nd.lastApplied])
  {
    GoodIsInv(c);
    FineIsOK(c, nd);
    var p := c.peers[nd.me];
    var l := Adopt(p.log, c.reigns[nd.currentTerm].log, len);
    AcceptKeepsCommitted(c, nd.me, len);
    assert l[..nd.lastApplied] == p.log[..p.commit][..nd.lastApplied] == p.log[..nd.lastApplied];
  }

  /** `nd'` is `nd` with the log `full` and the commit index raised to `lc`. */
  ghost predicate TakesOver(nd: Node, nd': Node, full: Log, lc: nat) {
    && nd'.me == nd.me && nd'.n == nd.n && Valid(nd') && nd'.role == Follower
    && nd'.currentTerm == nd.currentTerm && nd'.votedFor == nd.votedFor
    && nd'.commitIndex == Max(nd.commitIndex, lc)
    && nd'.lastApplied <= nd'.commitIndex <= |full|
    && Compacts(nd'.logs, nd'.snapLastIndex, full)
    && nd'.service == Commands(full[..nd'.lastApplied])
    && nd'.disk.snapshot <= nd'.service
  }

  lemma AcceptMirrors(c: Core, nd: Node, len: nat, lc: nat, nd': Node) returns (d: Core)
    requires Good(c) && Fine(c, nd) && Enabled(c, Accept(nd.me, len, lc)) && nd.currentTerm == c.peers[nd.me].term
    requires TakesOver(nd, nd', Adopt(c.peers[nd.me].log, c.reigns[nd.currentTerm].log, len), lc)
    ensures After(c, d, nd.me) && Fine(d, nd') && Acked(d, nd.currentTerm, nd.me, len)
    ensures nd.me < |d.peers| && d.peers[nd.me].log == Adopt(c.peers[nd.me].log, c.reigns[nd.currentTerm].log, len)
  {
    GoodIsInv(c);
    FineIsOK(c, nd);
    d := Take(c, Accept(nd.me, len, lc));
    assert Ack(nd.currentTerm, nd.me, len) in d.acks;
    FineIsOK(d, nd');
  }

  lemma AppendedLog(c: Core, nd: Node, a: AppendEntriesArgs)
    requires Good(c) && Fine(c, nd) && Valid(nd) && Conflict(nd, a).success
    requires nd.me < |c.peers| && AppendOK(c, nd.me, a)
    ensures Compacts(Merge(nd.logs, a.prevLogIndex - nd.snapLastIndex + 1, a.entries), nd.snapLastIndex,
                     Adopt(c.peers[nd.me].log, c.reigns[a.term].log, a.prevLogIndex + |a.entries|))
    ensures a.prevLogIndex <= |c.peers[nd.me].log|
    ensures MergeFull(c.peers[nd.me].log, a.prevLogIndex, a.entries)
         == Adopt(c.peers[nd.me].log, c.reigns[a.term].log, a.prevLogIndex + |a.entries|)
  {
    GoodIsInv(c);
    FineIsOK(c, nd);
    assert Serves(c, nd.me) && Reigning(c, a.term);
    LogsAgree(c, c.peers[nd.me].log, c.reigns[a.term].log);
    AppendedTo(nd, a, c.peers[nd.me].log, c.reigns[a.term].log);
  }

  lemma AppendedTo(nd: Node, a: AppendEntriesArgs, l: Log, r: Log)
    requires Valid(nd) && Compacts(nd.logs, nd.snapLastIndex, l) && Agree(l, r) && Conflict(nd, a).success
    requires a.prevLogIndex + |a.entries| <= |r| && a.entries == r[a.prevLogIndex..a.prevLogIndex + |a.entries|]
    requires a.prevLogTerm == TermAt(r, a.prevLogIndex)
    ensures Compacts(Merge(nd.logs, a.prevLogIndex - nd.snapLastIndex + 1, a.entries), nd.snapLastIndex,
                     Adopt(l, r, a.prevLogIndex + |a.entries|))
    ensures a.prevLogIndex <= |l| && MergeFull(l, a.prevLogIndex, a.entries) == Adopt(l, r, a.prevLogIndex + |a.entries|)
  {
    var prev, len := a.prevLogIndex, a.prevLogIndex + |a.entries|;
    MatchedBelow(nd, a, l, r);
    MergeAdopts(nd.logs, nd.snapLastIndex, l, r, prev, len);
    MergeFullAdopts(l, r, prev, len);
  }

  lemma MatchedBelow(nd: Node, a: AppendEntriesArgs, l: Log, r: Log)
    requires Valid(nd) && Compacts(nd.logs, nd.snapLastIndex, l) && Agree(l, r) && Conflict(nd, a).success
    requires a.prevLogIndex <= |r| && a.prevLogTerm == TermAt(r, a.prevLogIndex)
    ensures nd.snapLastIndex <= a.prevLogIndex <= |l| && l[..a.prevLogIndex] == r[..a.prevLogIndex]
  {
    var prev := a.prevLogIndex;
    LastCompacted(nd.logs, nd.snapLastIndex, l, prev);
    assert 0 < prev ==> l[..prev - 1 + 1] == r[..prev - 1 + 1];
  }

  lemma Accepts(c: Core, nd: Node, a: AppendEntriesArgs) returns (d: Core)
    requires Good(c) && Fine(c, nd) && Valid(nd) && nd.role == Follower && a.term == nd.currentTerm
    requires nd.me < |c.peers| && AppendOK(c, nd.me, a) && Conflict(nd, a).success
    ensures After(c, d, nd.me) && Fine(d, AppendEntries(nd, a).0)
    ensures Acked(d, a.term, nd.me, a.prevLogIndex + |a.entries|)
    ensures nd.me < |d.peers| && Merged(nd, a, c.peers[nd.me].log, d.peers[nd.me].log)
  {
    var len := a.prevLogIndex + |a.entries|;
    AppendedLog(c, nd, a);
    AppliedKept(c, nd, len);
    AppendAccepted(nd, a, Adopt(c.peers[nd.me].log, c.reigns[a.term].log, len));
    d := AcceptMirrors(c, nd, len, a.leaderCommit, AppendEntries(nd, a).0);
  }

  lemma AppendAccepted(nd: Node, a: AppendEntriesArgs, full: Log)
    requires Valid(nd) && nd.role == Follower && a.term == nd.currentTerm && Conflict(nd, a).success
    requires Compacts(Merge(nd.logs, a.prevLogIndex - nd.snapLastIndex + 1, a.entries), nd.snapLastIndex, full)
    requires a.leaderCommit <= |full| && nd.lastApplied <= nd.commitIndex <= |full|
    requires nd.service == Commands(full[..nd.lastApplied]) && nd.disk.snapshot <= nd.service
    ensures TakesOver(nd, AppendEntries(nd, a).0, full, a.leaderCommit)
  {
    assert Persist(Follow(nd, a.term)) == nd;
  }

  /** A follower's snapshot ends inside its leader's log. */
  lemma SnapshotInReign(c: Core, nd: Node, t: nat)
    requires Inv(c) && NodeOK(c, nd) && nd.currentTerm == t && Reigning(c, t)
    ensures nd.snapLastIndex <= |c.reigns[t].log|
  {
    var p := c.peers[nd.me];
    assert Serves(c, nd.me) && CommitSafe(c, nd.me);
    CommittedInReign(c, p.term, p.log[..p.commit], t);
  }

  /** Only index 0 has term 0. */
  lemma HasTerm(c: Core, nd: Node, l: Log, i: nat)
    requires Shape(c) && Grounded(c, l) && Valid(nd) && Compacts(nd.logs, nd.snapLastIndex, l)
    requires nd.snapLastIndex <= i <= LastIndex(nd) && 1 <= i
    ensures 1 <= LogTerm(nd, i)
  {
    LastCompacted(nd.logs, nd.snapLastIndex, l, i);
    assert At(l, i - 1) && GroundedAt(c, l, i - 1) && ReignShape(c, l[i - 1].term);
  }

  /** The hints of a rejection are in range. */
  lemma HintsOK(c: Core, nd: Node, a: AppendEntriesArgs)
    requires Inv(c) && NodeOK(c, nd) && AppendOK(c, nd.me, a) && a.term == nd.currentTerm
    requires !Conflict(nd, a).success
    ensures HintOK(c, a, Conflict(nd, a))
  {
    assert Reigning(c, a.term);
    if a.prevLogIndex < nd.snapLastIndex {
      SnapshotInReign(c, nd, a.term);
    } else if a.prevLogIndex <= LastIndex(nd) {
      MismatchHint(c, nd, a);
    }
  }

  lemma MismatchHint(c: Core, nd: Node, a: AppendEntriesArgs)
    requires Inv(c) && NodeOK(c, nd) && AppendOK(c, nd.me, a)
    requires nd.snapLastIndex <= a.prevLogIndex <= LastIndex(nd) && !Conflict(nd, a).success
    ensures HintOK(c, a, Conflict(nd, a))
  {
    var first := nd.snapLastIndex + RunStart(nd.logs, a.prevLogIndex - nd.snapLastIndex);
    assert LogTerm(nd, first) == LogTerm(nd, a.prevLogIndex);
    if a.prevLogIndex == 0 {
      ZeroTerm(c, nd);
    } else {
      assert Serves(c, nd.me);
      HasTerm(c, nd, c.peers[nd.me].log, a.prevLogIndex);
      if first == 0 { ZeroTerm(c, nd); }
    }
  }

  lemma ZeroTerm(c: Core, nd: Node)
    requires NodeOK(c, nd) && nd.snapLastIndex == 0
    ensures LogTerm(nd, 0) == 0
  {
  }

  /** AppendEntries is AppendEntries after adopting the sender's term. */
  lemma FollowedAppend(nd: Node, a: AppendEntriesArgs)
    requires Valid(nd) && nd.currentTerm <= a.term
    ensures Valid(Persist(Follow(nd, a.term))) && AppendEntries(nd, a) == AppendEntries(Persist(Follow(nd, a.term)), a)
  {
  }

  lemma MergedToo(nd: Node, a: AppendEntriesArgs, l: Log, l': Log)
    requires Valid(nd) && nd.currentTerm <= a.term && Valid(Persist(Follow(nd, a.term)))
    requires Merged(Persist(Follow(nd, a.term)), a, l, l')
    ensures Merged(nd, a, l, l')
  {
  }

  lemma AppendStep(c: Core, nd: Node, a: AppendEntriesArgs) returns (d: Core)
    requires Good(c) && Fine(c, nd) && Valid(nd) && Sent(c, AppendReq(nd.me, a))
    ensures After(c, d, nd.me) && Fine(d, AppendEntries(nd, a).0) && SameCount(nd, AppendEntries(nd, a).0)
    ensures Sent(d, AppendRep(nd.me, a, AppendEntries(nd, a).1))
    ensures nd.me < |c.peers| && nd.me < |d.peers| && Merged(nd, a, c.peers[nd.me].log, d.peers[nd.me].log)
  {
    IsServer(c, nd);
    if a.term < nd.currentTerm {
      d := c;
      Stay(c, nd.me);
      SentIsOK(c, AppendReq(nd.me, a));
      SentIsOK(c, AppendRep(nd.me, a, AppendEntries(nd, a).1));
    } else {
      var b := Heard(c, nd, a);
      SentKept(c, b, AppendReq(nd.me, a));
      FollowedAppend(nd, a);
      d := Answers(b, Persist(Follow(nd, a.term)), a);
      AfterTransitive(c, b, d, nd.me);
      MergedToo(nd, a, c.peers[nd.me].log, d.peers[nd.me].log);
    }
  }

  lemma Heard(c: Core, nd: Node, a: AppendEntriesArgs) returns (d: Core)
    requires Good(c) && Fine(c, nd) && Sent(c, AppendReq(nd.me, a)) && nd.currentTerm <= a.term
    ensures Still(c, d, nd.me)
    ensures
      var nd' := Persist(Follow(nd, a.term));
      Fine(d, nd') && nd'.role == Follower && nd'.currentTerm == a.term
  {
    FineIsOK(c, nd);
    SentIsOK(c, AppendReq(nd.me, a));
    if nd.currentTerm == a.term { NotToLeader(c, nd, a.leaderId, a.term); }
    d := Followed(c, nd, a.term);
  }

  lemma Answers(c: Core, nd: Node, a: AppendEntriesArgs) returns (d: Core)
    requires Good(c) && Fine(c, nd) && Sent(c, AppendReq(nd.me, a))
    requires Valid(nd) && nd.role == Follower && nd.currentTerm == a.term
    ensures After(c, d, nd.me) && Fine(d, AppendEntries(nd, a).0)
    ensures Sent(d, AppendRep(nd.me, a, AppendEntries(nd, a).1))
    ensures nd.me < |c.peers| && nd.me < |d.peers| && Merged(nd, a, c.peers[nd.me].log, d.peers[nd.me].log)
  {
    SentIsOK(c, AppendReq(nd.me, a));
    if Conflict(nd, a).success {
      d := Accepts(c, nd, a);
      AppendKept(c, d, nd.me, a);
    } else {
      d := c;
      Stay(c, nd.me);
      Rejects(c, nd, a);
    }
    SentIsOK(d, AppendRep(nd.me, a, AppendEntries(nd, a).1));
  }

  lemma Rejects(c: Core, nd: Node, a: AppendEntriesArgs)
    requires Good(c) && Fine(c, nd) && AppendOK(c, nd.me, a)
    requires Valid(nd) && nd.role == Follower && nd.currentTerm == a.term && !Conflict(nd, a).success
    ensures AppendEntries(nd, a) == (nd, Conflict(nd, a)) && HintOK(c, a, Conflict(nd, a))
  {
    assert Persist(Follow(nd, a.term)) == nd;
    GoodIsInv(c);
    FineIsOK(c, nd);
    HintsOK(c, nd, a);
  }

  lemma OnAppendReq(cl: Cluster, c: Core, m: Message) returns (d: Core)
    requires Tied(cl, c) && m.AppendReq? && Wants(cl, Receive(m)) && InBounds(cl, Receive(m))
    ensures Moved(cl, c, Receive(m), d) && Tied(Handle(cl, m), d)
  {
    var nd := cl.nodes[m.peer];
    Actors(cl, c, m.peer);
    Messages(cl, c, m);
    d := AppendStep(c, nd, m.aa);
    var (nd', r) := AppendEntries(nd, m.aa);
    Finish(cl, c, d, nd', {AppendRep(m.peer, m.aa, r)}, []);
    assert cl.deliveries + [] == cl.deliveries;
  }
}
