/**
 * The safety properties of Raft over whole runs of the cluster: any number of
 * servers, any losses, delays and reorderings, any crashes, any snapshots.
 */
module RaftSafety {
  import opened RaftTypes
  import opened RaftNode
  import opened RaftCore
  import opened RaftCoreSteps
  import opened RaftCluster
  import opened RaftCoupling
  import opened RaftSimulation
  import opened RaftElections
  import opened RaftReplication
  import opened RaftCompaction

  // ----- the simulation -----

  lemma BootTied(n: nat)
    ensures Tied(Boot(n), Start(n))
  {
    var cl, c := Boot(n), Start(n);
    StartInv(n);
    GoodIsInv(c);
    forall s: nat | Serves(c, s)
      ensures cl.nodes[s].me == s && NodeOK(c, cl.nodes[s]) && TallyOK(cl.net, c, cl.nodes[s])
    {
      var nd := cl.nodes[s];
      assert c.peers[s].log[..0] == [];
      assert Mirrors(c, nd);
    }
    TiedIsCoupled(cl, c);
  }

  lemma OnReceive(cl: Cluster, c: Core, m: Message) returns (d: Core)
    requires Tied(cl, c) && Wants(cl, Receive(m)) && InBounds(cl, Receive(m))
    ensures Moved(cl, c, Receive(m), d) && Tied(Handle(cl, m), d)
  {
    match m {
      case VoteReq(_, _) => d := OnVoteReq(cl, c, m);
      case VoteRep(_, _, _) => d := OnVoteRep(cl, c, m);
      case AppendReq(_, _) => d := OnAppendReq(cl, c, m);
      case AppendRep(_, _, _) => d := OnAppendRep(cl, c, m);
      case SnapReq(_, _) => d := OnSnapReq(cl, c, m);
      case SnapRep(_, _, _) => d := OnSnapRep(cl, c, m);
    }
  }

  lemma Matches(cl: Cluster, c: Core, a: Action) returns (d: Core)
    requires Tied(cl, c) && Wants(cl, a) && InBounds(cl, a)
    ensures Moved(cl, c, a, d) && Tied(Do(cl, a), d)
  {
    match a {
      case Timeout(s) => d := OnTimeout(cl, c, s);
      case Win(s) => d := OnWin(cl, c, s);
      case Submit(s, x) => d := OnSubmit(cl, c, s, x);
      case Send(_, _, _, _, _) => d := c; OnSend(cl, c, a);
      case Receive(m) => d := OnReceive(cl, c, m);
      case Hand(s) => d := c; OnHand(cl, c, s);
      case Compact(s, i) => d := c; OnCompact(cl, c, s, i);
      case Crash(s) => d := OnCrash(cl, c, s);
    }
  }

  /** Whatever a cluster does is a sequence of steps of RaftCore. */
  lemma Simulates(cl: Cluster, c: Core, a: Action) returns (es: seq<Event>, d: Core)
    requires Tied(cl, c) && Wants(cl, a) && InBounds(cl, a)
    ensures Path(c, es, d) && Tied(Do(cl, a), d)
  {
    d := Matches(cl, c, a);
    assert LookPath(0);
    es :| Path(c, es, d);
  }

  ghost predicate Linked(run: seq<Cluster>, acts: seq<Action>, cores: seq<Core>, i: nat)
    requires |run| == |acts| + 1 == |cores| && i < |acts|
  {
    Wants(run[i], acts[i]) && InBounds(run[i], acts[i]) && Moved(run[i], cores[i], acts[i], cores[i + 1])
  }

  /** Beside the run there is one of RaftCore, each of whose states holds all that the earlier ones recorded. */
  ghost predicate Shadowed(run: seq<Cluster>, acts: seq<Action>, cores: seq<Core>) {
    && |run| == |acts| + 1 == |cores|
    && cores[0] == Start(|run[0].nodes|)
    && (forall i :: 0 <= i < |run| ==> Tied(run[i], cores[i]))
    && (forall i: nat :: i < |acts| ==> Linked(run, acts, cores, i))
    && (forall i: nat, j: nat :: i <= j < |run| ==> Later(cores, i, j))
  }

  ghost predicate Later(cores: seq<Core>, i: nat, j: nat)
    requires i <= j < |cores|
  {
    Extends(cores[i], cores[j])
  }

  lemma {:induction false} Shadow(run: seq<Cluster>, acts: seq<Action>) returns (cores: seq<Core>)
    requires IsRun(run, acts)
    ensures Shadowed(run, acts, cores)
    decreases |acts|
  {
    var n := |acts|;
    if n == 0 {
      cores := [Start(|run[0].nodes|)];
      BootTied(|run[0].nodes|);
    } else {
      assert Step(run[n - 1], acts[n - 1], run[n]);
      var before := Shadow(run[..n], acts[..n - 1]);
      var d := Matches(run[n - 1], before[n - 1], acts[n - 1]);
      cores := before + [d];
      ShadowNext(run, acts, before, d);
    }
  }

  lemma LaterThanAll(before: seq<Core>, last: nat, d: Core, i: nat)
    requires |before| == last + 1 && i <= |before| && Extends(before[last], d)
    requires i <= last ==> Later(before, i, last)
    ensures Extends((before + [d])[i], d)
  {
    if i <= last {
      ExtendsTransitive(before[i], before[last], d);
    }
  }

  lemma ShadowNext(run: seq<Cluster>, acts: seq<Action>, before: seq<Core>, d: Core)
    requires acts != [] && |run| == |acts| + 1 && Shadowed(run[..|acts|], acts[..|acts| - 1], before)
    requires Step(run[|acts| - 1], acts[|acts| - 1], run[|acts|])
    requires Tied(run[|acts|], d) && Moved(run[|acts| - 1], before[|acts| - 1], acts[|acts| - 1], d)
    ensures Shadowed(run, acts, before + [d])
  {
    var n := |acts|;
    var cores := before + [d];
    forall i: nat, j: nat | i <= j <= n ensures Later(cores, i, j) {
      if j < n { assert Later(before, i, j); } else { LaterThanAll(before, n - 1, d, i); }
    }
    forall i: nat | i < n ensures Linked(run, acts, cores, i) {
      if i < n - 1 { assert Linked(run[..n], acts[..n - 1], before, i); }
    }
  }

  lemma LinkReached(run: seq<Cluster>, acts: seq<Action>, cores: seq<Core>, i: nat)
    requires |run| == |acts| + 1 == |cores| && i < |acts| && Linked(run, acts, cores, i)
    ensures Reached(cores[i], cores[i + 1])
  {
  }

  ghost predicate Continues(cores: seq<Core>, k: nat)
    requires k + 1 < |cores|
  {
    Reached(cores[k], cores[k + 1])
  }

  lemma {:induction false} ReachedInCore(cores: seq<Core>, i: nat)
    requires i < |cores| && forall k: nat :: k + 1 < |cores| ==> Continues(cores, k)
    ensures Reached(cores[0], cores[i])
  {
    if i == 0 {
      ReachedByNothing(cores[0]);
    } else {
      ReachedInCore(cores, i - 1);
      assert Continues(cores, i - 1);
      ReachedTransitive(cores[0], cores[i - 1], cores[i]);
    }
  }

  /** Every state of a run is tied to one that RaftCore reaches from its start. */
  lemma RunOfCore(run: seq<Cluster>, acts: seq<Action>, i: nat) returns (es: seq<Event>, c: Core)
    requires IsRun(run, acts) && i < |run|
    ensures Path(Start(|run[0].nodes|), es, c) && Tied(run[i], c)
  {
    var cores := Shadow(run, acts);
    forall k: nat | k + 1 < |cores| ensures Continues(cores, k) { LinkReached(run, acts, cores, k); }
    ReachedInCore(cores, i);
    c := cores[i];
    assert LookPath(0);
    es :| Path(cores[0], es, c);
  }

  // ----- what a server holds -----

  /** Every command a server's snapshot and log hold, in index order. */
  function History(nd: Node): seq<Command> {
    nd.disk.snapshot + Commands(if nd.logs == [] then [] else nd.logs[1..])
  }

  lemma HistoryIsLog(cl: Cluster, c: Core, s: nat)
    requires Tied(cl, c) && s < |cl.nodes|
    ensures |cl.nodes| == |c.peers| && cl.nodes[s].me == s && Mirrors(c, cl.nodes[s])
    ensures History(cl.nodes[s]) == Commands(c.peers[s].log)
  {
    Actors(cl, c, s);
    FineIsOK(c, cl.nodes[s]);
    CompactedHistory(cl.nodes[s], c.peers[s].log);
  }

  lemma CompactedHistory(nd: Node, l: Log)
    requires Valid(nd) && Compacts(nd.logs, nd.snapLastIndex, l) && nd.lastApplied <= |l|
    requires nd.service == Commands(l[..nd.lastApplied]) && nd.disk.snapshot <= nd.service
    ensures History(nd) == Commands(l)
  {
    var k := nd.snapLastIndex;
    forall i: nat | i < |l| ensures History(nd)[i] == Commands(l)[i] {
      if i < k {
        assert nd.disk.snapshot[i] == nd.service[i];
      } else {
        assert nd.logs[1..][i - k] == l[k..][i - k];
      }
    }
  }

  // ----- theorems -----

  /** No step of a reachable cluster indexes a slice out of bounds. */
  lemma NeverOutOfBounds(run: seq<Cluster>, acts: seq<Action>, a: Action)
    requires IsRun(run, acts) && Wants(run[|acts|], a)
    ensures InBounds(run[|acts|], a)
  {
    var cores := Shadow(run, acts);
    var cl, c := run[|acts|], cores[|acts|];
    Actors(cl, c, Actor(a));
    FineIsOK(c, cl.nodes[Actor(a)]);
    match a {
      case Send(s, p, _, _, _) => assert Other(cl.nodes[s], p) && PeerOK(c, cl.nodes[s], p);
      case Receive(m) =>
        Messages(cl, c, m);
        SentIsOK(c, m);
      case _ =>
    }
  }

  // ----- uncompacted logs -----

  /** `nd` is a server with the log `full`, apart from having dropped the prefix its snapshot covers. */
  predicate RefinesFull(nd: Node, full: Log) {
    && Valid(nd) && Compacts(nd.logs, nd.snapLastIndex, full)
    && LastIndex(nd) == |full| && LogTerm(nd, LastIndex(nd)) == LastTerm(full)
    && nd.snapLastIndex <= nd.lastApplied <= nd.commitIndex <= |full|
    && nd.disk.snapshot == Commands(full[..nd.snapLastIndex])
    && nd.service == Commands(full[..nd.lastApplied])
  }

  lemma MirrorsRefines(c: Core, nd: Node)
    requires nd.me < |c.peers| && Mirrors(c, nd)
    ensures RefinesFull(nd, c.peers[nd.me].log)
  {
    var full, snap := c.peers[nd.me].log, nd.snapLastIndex;
    LastCompacted(nd.logs, snap, full, |full|);
    assert forall i :: 0 <= i < snap ==> nd.disk.snapshot[i] == nd.service[i];
  }

  /** One step: the server that acts changes its log as Evolves says, no other changes its own. */
  ghost predicate Evolved(run: seq<Cluster>, acts: seq<Action>, fulls: seq<seq<Log>>, i: nat, s: nat)
    requires |run| == |acts| + 1 == |fulls| && i < |acts| && s < |run[i].nodes| && s < |fulls[i]| && s < |fulls[i + 1]|
  {
    if s == Actor(acts[i])
    then Valid(run[i].nodes[s]) && Evolves(run[i].nodes[s], acts[i], fulls[i][s], fulls[i + 1][s])
    else fulls[i + 1][s] == fulls[i][s]
  }

  ghost predicate Sized(run: seq<Cluster>, fulls: seq<seq<Log>>) {
    |fulls| == |run| && forall i :: 0 <= i < |run| ==> |fulls[i]| == |run[0].nodes| == |run[i].nodes|
  }

  /** What a leader of a later term has of what a server knew to be committed. */
  predicate Complete(nd: Node, full: Log, leader: Node, leaders: Log) {
    leader.role == Leader && nd.currentTerm < leader.currentTerm ==> nd.commitIndex <= |full| && full[..nd.commitIndex] <= leaders
  }

  /** The run, told by logs that are never compacted. */
  ghost predicate FullLogs(run: seq<Cluster>, acts: seq<Action>, fulls: seq<seq<Log>>) {
    && |run| == |acts| + 1 && Sized(run, fulls)
    && (forall i: nat, s: nat :: i < |run| && s < |run[0].nodes| ==> RefinesFull(run[i].nodes[s], fulls[i][s]))
    && (forall i: nat, s: nat :: i < |acts| && s < |run[0].nodes| ==> Evolved(run, acts, fulls, i, s))
    && (forall i: nat, j: nat, s: nat, u: nat :: i < |run| && j < |run| && s < |run[0].nodes| && u < |run[0].nodes| ==>
          && Agree(fulls[i][s], fulls[j][u])
          && Complete(run[i].nodes[s], fulls[i][s], run[j].nodes[u], fulls[j][u]))
  }

  lemma SameSize(run: seq<Cluster>, acts: seq<Action>, cores: seq<Core>, i: nat)
    requires Shadowed(run, acts, cores) && i < |run|
    ensures |run[i].nodes| == |run[0].nodes| == |cores[i].peers|
  {
    TiedIsCoupled(run[0], cores[0]);
    TiedIsCoupled(run[i], cores[i]);
    assert Later(cores, 0, i);
  }

  function LogsOf(c: Core): seq<Log> {
    seq(|c.peers|, s requires 0 <= s < |c.peers| => c.peers[s].log)
  }

  function FullsOf(cores: seq<Core>): seq<seq<Log>> {
    seq(|cores|, i requires 0 <= i < |cores| => LogsOf(cores[i]))
  }

  lemma FullsRefine(run: seq<Cluster>, acts: seq<Action>, cores: seq<Core>, i: nat, s: nat)
    requires Shadowed(run, acts, cores) && i < |run| && s < |run[i].nodes|
    ensures s < |cores[i].peers| && RefinesFull(run[i].nodes[s], cores[i].peers[s].log)
  {
    HistoryIsLog(run[i], cores[i], s);
    MirrorsRefines(cores[i], run[i].nodes[s]);
  }

  lemma FullsEvolve(run: seq<Cluster>, acts: seq<Action>, cores: seq<Core>, i: nat, s: nat)
    requires Shadowed(run, acts, cores) && Sized(run, FullsOf(cores)) && i < |acts| && s < |run[i].nodes|
    ensures Evolved(run, acts, FullsOf(cores), i, s)
  {
    assert Linked(run, acts, cores, i);
  }

  /**
   * In every run, whatever was compacted or installed, the servers refine logs that are never compacted:
   * appended to by Start, merged by AppendEntries, replaced up to a snapshot's end by InstallSnapshot,
   * and otherwise left alone. These logs match, and every leader's holds what was committed in earlier terms.
   */
  lemma SnapshotsRefine(run: seq<Cluster>, acts: seq<Action>) returns (fulls: seq<seq<Log>>)
    requires IsRun(run, acts)
    ensures FullLogs(run, acts, fulls)
  {
    var cores := Shadow(run, acts);
    fulls := FullsOf(cores);
    forall i: nat | i < |run| ensures |fulls[i]| == |run[0].nodes| == |run[i].nodes| { SameSize(run, acts, cores, i); }
    forall i: nat, s: nat | i < |run| && s < |run[0].nodes| ensures RefinesFull(run[i].nodes[s], fulls[i][s]) {
      FullsRefine(run, acts, cores, i, s);
    }
    forall i: nat, s: nat | i < |acts| && s < |run[0].nodes| ensures Evolved(run, acts, fulls, i, s) {
      FullsEvolve(run, acts, cores, i, s);
    }
    forall i: nat, j: nat, s: nat, u: nat | i < |run| && j < |run| && s < |run[0].nodes| && u < |run[0].nodes|
      ensures Agree(fulls[i][s], fulls[j][u]) && Complete(run[i].nodes[s], fulls[i][s], run[j].nodes[u], fulls[j][u])
    {
      FullsAgree(run, acts, cores, i, j, s, u);
      FullsComplete(run, acts, cores, i, j, s, u);
    }
  }

  lemma FullsAgree(run: seq<Cluster>, acts: seq<Action>, cores: seq<Core>, i: nat, j: nat, s: nat, u: nat)
    requires Shadowed(run, acts, cores) && i < |run| && j < |run| && s < |cores[i].peers| && u < |cores[j].peers|
    ensures Agree(cores[i].peers[s].log, cores[j].peers[u].log)
  {
    var m := if i <= j then j else i;
    assert Later(cores, i, m) && Later(cores, j, m);
    PeerIsGrounded(cores[i], cores[m], s);
    PeerIsGrounded(cores[j], cores[m], u);
    LogsAgree(cores[m], cores[i].peers[s].log, cores[j].peers[u].log);
  }

  lemma FullsComplete(run: seq<Cluster>, acts: seq<Action>, cores: seq<Core>, i: nat, j: nat, s: nat, u: nat)
    requires Shadowed(run, acts, cores) && i < |run| && j < |run| && s < |run[i].nodes| && u < |run[j].nodes|
    ensures s < |cores[i].peers| && u < |cores[j].peers|
    ensures Complete(run[i].nodes[s], cores[i].peers[s].log, run[j].nodes[u], cores[j].peers[u].log)
  {
    var m := if i <= j then j else i;
    var c, d, e := cores[i], cores[j], cores[m];
    assert Later(cores, i, m) && Later(cores, j, m);
    ServerCommits(run[i], c, s);
    HistoryIsLog(run[j], d, u);
    if run[j].nodes[u].role == Leader && run[i].nodes[s].currentTerm < run[j].nodes[u].currentTerm {
      LeaderReached(run[j], c, d, e, s, u);
    }
  }

  lemma LeaderReached(cl: Cluster, c: Core, d: Core, e: Core, s: nat, u: nat)
    requires Tied(cl, d) && u < |cl.nodes| && cl.nodes[u].role == Leader && Good(e) && Extends(c, e) && Extends(d, e)
    requires s < |c.peers| && c.peers[s].commit <= |c.peers[s].log| && c.peers[s].term < cl.nodes[u].currentTerm
    requires CommittedPrefix(c, c.peers[s].term, c.peers[s].log[..c.peers[s].commit]) && TermsUpTo(c.peers[s].log, c.peers[s].term)
    ensures u < |d.peers| && c.peers[s].log[..c.peers[s].commit] <= d.peers[u].log
  {
    LeadersTerm(cl, d, u);
    CommittedReaches(c, d, e, c.peers[s].term, c.peers[s].log[..c.peers[s].commit], cl.nodes[u].currentTerm);
  }

  /** Who sent a snapshot, and when: a server whose own snapshot it then was. */
  predicate SnapshotFrom(run: seq<Cluster>, i: nat, a: InstallSnapshotArgs, j: nat) {
    j <= i < |run| && a.leaderId < |run[j].nodes| && a == SnapshotArgs(run[j].nodes[a.leaderId])
  }

  lemma {:induction false} SnapshotOrigin(run: seq<Cluster>, acts: seq<Action>, i: nat, m: Message) returns (j: nat)
    requires IsRun(run, acts) && i < |run| && m in run[i].net && m.SnapReq?
    ensures SnapshotFrom(run, i, m.sa, j)
  {
    assert 0 < i;
    assert Step(run[i - 1], acts[i - 1], run[i]);
    if m in run[i - 1].net {
      j := SnapshotOrigin(run, acts, i - 1, m);
    } else {
      j := i - 1;
      OwnName(run, acts, j, Actor(acts[j]));
    }
  }

  lemma OwnName(run: seq<Cluster>, acts: seq<Action>, i: nat, s: nat)
    requires IsRun(run, acts) && i < |run| && s < |run[i].nodes|
    ensures run[i].nodes[s].me == s
  {
    var cores := Shadow(run, acts);
    Actors(run[i], cores[i], s);
  }

  /** What a snapshot puts in place is the prefix of the log its sender then had. */
  lemma InstalledIsSenders(run: seq<Cluster>, acts: seq<Action>, fulls: seq<seq<Log>>, i: nat, m: Message) returns (j: nat)
    requires IsRun(run, acts) && FullLogs(run, acts, fulls) && i < |acts| && acts[i] == Receive(m) && m.SnapReq?
    requires m.peer < |run[i].nodes| && Installs(run[i].nodes[m.peer], m.sa)
    ensures SnapshotFrom(run, i, m.sa, j) && |fulls[j]| == |fulls[i + 1]| == |run[i].nodes|
    ensures m.sa.leaderId < |fulls[j]|
    ensures
      var sent, got, len := fulls[j][m.sa.leaderId], fulls[i + 1][m.peer], m.sa.lastIncludeIndex;
      len <= |sent| && got == sent[..len] + Following(fulls[i][m.peer], len, m.sa.lastIncludeTerm)
  {
    assert Step(run[i], acts[i], run[i + 1]);
    j := SnapshotOrigin(run, acts, i, m);
    var s, u, len := m.peer, m.sa.leaderId, m.sa.lastIncludeIndex;
    assert RefinesFull(run[j].nodes[u], fulls[j][u]) && Evolved(run, acts, fulls, i, s);
    assert Agree(fulls[i + 1][s], fulls[j][u]);
    SamePrefixInstalled(fulls[i][s], fulls[i + 1][s], m.sa, fulls[j][u]);
  }

  lemma SamePrefixInstalled(l: Log, l': Log, a: InstallSnapshotArgs, sent: Log)
    requires (exists p :: Replaced(l, l', a, p)) && Agree(l', sent) && 1 <= a.lastIncludeIndex <= |sent|
    requires TermAt(sent, a.lastIncludeIndex) == a.lastIncludeTerm
    ensures l' == sent[..a.lastIncludeIndex] + Following(l, a.lastIncludeIndex, a.lastIncludeTerm)
  {
    var p :| Replaced(l, l', a, p);
    var k := a.lastIncludeIndex - 1;
    assert l'[k].term == sent[k].term;
    assert l'[..k + 1] == p;
  }

  // ----- leaders and logs -----

  /** At most one server is ever leader in a term, over the whole run. */
  lemma ElectionSafety(run: seq<Cluster>, acts: seq<Action>, i: nat, j: nat, s: nat, u: nat)
    requires IsRun(run, acts) && i < |run| && j < |run| && s < |run[i].nodes| && u < |run[j].nodes|
    requires run[i].nodes[s].role == Leader && run[j].nodes[u].role == Leader
    requires run[i].nodes[s].currentTerm == run[j].nodes[u].currentTerm
    ensures s == u
  {
    var cores := Shadow(run, acts);
    LeadersTerm(run[i], cores[i], s);
    LeadersTerm(run[j], cores[j], u);
    var k := if i <= j then j else i;
    assert Later(cores, i, k) && Later(cores, j, k);
  }

  lemma LeadersTerm(cl: Cluster, c: Core, s: nat)
    requires Tied(cl, c) && s < |cl.nodes| && cl.nodes[s].role == Leader
    ensures s < |c.peers| && cl.nodes[s].currentTerm in c.reigns && c.reigns[cl.nodes[s].currentTerm].leader == s
    ensures c.reigns[cl.nodes[s].currentTerm].log == c.peers[s].log
    ensures History(cl.nodes[s]) == Commands(c.reigns[cl.nodes[s].currentTerm].log)
  {
    HistoryIsLog(cl, c, s);
    Actors(cl, c, s);
    FineIsOK(c, cl.nodes[s]);
  }

  lemma PeerIsGrounded(c: Core, d: Core, s: nat)
    requires Good(c) && Extends(c, d) && s < |c.peers|
    ensures Grounded(d, c.peers[s].log)
  {
    GoodIsInv(c);
    assert Serves(c, s);
    GroundedExtends(c, d, c.peers[s].log);
  }

  lemma MirrorTerm(c: Core, nd: Node, k: nat)
    requires nd.me < |c.peers| && Mirrors(c, nd) && Holds(nd, k)
    ensures k <= |c.peers[nd.me].log| && LogTerm(nd, k) == TermAt(c.peers[nd.me].log, k)
  {
    LastCompacted(nd.logs, nd.snapLastIndex, c.peers[nd.me].log, k);
  }

  lemma ServerLog(cl: Cluster, c: Core, s: nat, k: nat)
    requires Tied(cl, c) && s < |cl.nodes|
    requires 1 <= |cl.nodes[s].logs| && Holds(cl.nodes[s], k)
    ensures s < |c.peers| && k <= |c.peers[s].log|
    ensures LogTerm(cl.nodes[s], k) == TermAt(c.peers[s].log, k)
    ensures History(cl.nodes[s]) == Commands(c.peers[s].log)
  {
    HistoryIsLog(cl, c, s);
    MirrorTerm(c, cl.nodes[s], k);
  }

  /** Wherever both servers still have the term of an index up to `k`, it is the same. */
  ghost predicate SameTermsUpTo(a: Node, b: Node, k: nat)
    requires 1 <= |a.logs| && 1 <= |b.logs|
  {
    forall h: nat :: h <= k && Holds(a, h) && Holds(b, h) ==> LogTerm(a, h) == LogTerm(b, h)
  }

  /**
   * If a log at one moment and a log at any moment hold entries of equal term at index
   * `k`, everything up to `k` is the same in both, terms and commands, compacted or not.
   */
  lemma LogMatching(run: seq<Cluster>, acts: seq<Action>, i: nat, j: nat, s: nat, u: nat, k: nat)
    requires IsRun(run, acts) && i < |run| && j < |run| && s < |run[i].nodes| && u < |run[j].nodes|
    requires var a := run[i].nodes[s]; 1 <= |a.logs| && Holds(a, k)
    requires var b := run[j].nodes[u]; 1 <= |b.logs| && Holds(b, k)
    requires LogTerm(run[i].nodes[s], k) == LogTerm(run[j].nodes[u], k)
    ensures SameTermsUpTo(run[i].nodes[s], run[j].nodes[u], k)
    ensures k <= |History(run[i].nodes[s])| && k <= |History(run[j].nodes[u])|
    ensures History(run[i].nodes[s])[..k] == History(run[j].nodes[u])[..k]
  {
    var cores := Shadow(run, acts);
    ServerLog(run[i], cores[i], s, k);
    ServerLog(run[j], cores[j], u, k);
    FullsAgree(run, acts, cores, i, j, s, u);
    var a, b := cores[i].peers[s].log, cores[j].peers[u].log;
    assert 0 < k ==> a[..k - 1 + 1] == b[..k - 1 + 1];
    PrefixSeen(run[i], cores[i], s, run[j], cores[j], u, k);
  }

  lemma SamePrefix(a: Log, b: Log, k: nat)
    requires k <= |a| && k <= |b| && a[..k] == b[..k]
    ensures Commands(a)[..k] == Commands(b)[..k]
  {
    assert forall x: nat :: x < k ==> a[..k][x] == b[..k][x];
  }

  lemma TermsShow(c: Core, a: Node, d: Core, b: Node, k: nat)
    requires a.me < |c.peers| && Mirrors(c, a) && b.me < |d.peers| && Mirrors(d, b)
    requires k <= |c.peers[a.me].log| && k <= |d.peers[b.me].log| && c.peers[a.me].log[..k] == d.peers[b.me].log[..k]
    ensures SameTermsUpTo(a, b, k)
  {
    var l, r := c.peers[a.me].log, d.peers[b.me].log;
    forall h: nat | h <= k && Holds(a, h) && Holds(b, h) ensures LogTerm(a, h) == LogTerm(b, h) {
      MirrorTerm(c, a, h);
      MirrorTerm(d, b, h);
      assert TermAt(l, h) == TermAt(l[..k], h) == TermAt(r[..k], h) == TermAt(r, h);
    }
  }

  /** Servers whose uncompacted logs share a prefix show the same terms and commands up to its end. */
  lemma PrefixShows(c: Core, a: Node, d: Core, b: Node, k: nat)
    requires a.me < |c.peers| && Mirrors(c, a) && b.me < |d.peers| && Mirrors(d, b)
    requires k <= |c.peers[a.me].log| && c.peers[a.me].log[..k] <= d.peers[b.me].log
    ensures SameTermsUpTo(a, b, k)
    ensures k <= |History(a)| && k <= |History(b)| && History(a)[..k] == History(b)[..k]
  {
    var l, r := c.peers[a.me].log, d.peers[b.me].log;
    assert l[..k] == r[..k];
    CompactedHistory(a, l);
    CompactedHistory(b, r);
    SamePrefix(l, r, k);
    TermsShow(c, a, d, b, k);
  }

  lemma WholeShows(c: Core, a: Node, d: Core, b: Node)
    requires a.me < |c.peers| && Mirrors(c, a) && b.me < |d.peers| && Mirrors(d, b)
    requires c.peers[a.me].log <= d.peers[b.me].log
    ensures SameTermsUpTo(a, b, LastIndex(a)) && History(a) <= History(b)
  {
    var l := c.peers[a.me].log;
    assert l[..|l|] == l;
    PrefixShows(c, a, d, b, |l|);
    CompactedHistory(a, l);
    assert History(a)[..|l|] == History(a);
  }

  lemma PrefixSeen(cl: Cluster, c: Core, s: nat, cl': Cluster, c': Core, u: nat, k: nat)
    requires Tied(cl, c) && Tied(cl', c') && s < |cl.nodes| && u < |cl'.nodes| && s < |c.peers| && u < |c'.peers|
    requires k <= |c.peers[s].log| && c.peers[s].log[..k] <= c'.peers[u].log
    ensures 1 <= |cl.nodes[s].logs| && 1 <= |cl'.nodes[u].logs| && SameTermsUpTo(cl.nodes[s], cl'.nodes[u], k)
    ensures k <= |History(cl.nodes[s])| && k <= |History(cl'.nodes[u])|
    ensures History(cl.nodes[s])[..k] == History(cl'.nodes[u])[..k]
  {
    HistoryIsLog(cl, c, s);
    HistoryIsLog(cl', c', u);
    PrefixShows(c, cl.nodes[s], c', cl'.nodes[u], k);
  }

  lemma ServerCommits(cl: Cluster, c: Core, s: nat)
    requires Tied(cl, c) && s < |cl.nodes|
    ensures s < |c.peers| && cl.nodes[s].commitIndex == c.peers[s].commit <= |c.peers[s].log|
    ensures cl.nodes[s].currentTerm == c.peers[s].term
    ensures CommittedPrefix(c, c.peers[s].term, c.peers[s].log[..c.peers[s].commit])
    ensures TermsUpTo(c.peers[s].log, c.peers[s].term)
    ensures History(cl.nodes[s]) == Commands(c.peers[s].log)
  {
    HistoryIsLog(cl, c, s);
    GoodIsInv(c);
    assert Serves(c, s) && CommitSafe(c, s);
  }

  /**
   * What any server knew to be committed in a term is held by every leader of every
   * later term, whenever either is observed.
   */
  lemma LeadersAreComplete(run: seq<Cluster>, acts: seq<Action>, i: nat, j: nat, s: nat, u: nat)
    requires IsRun(run, acts) && i < |run| && j < |run| && s < |run[i].nodes| && u < |run[j].nodes|
    requires run[j].nodes[u].role == Leader && run[i].nodes[s].currentTerm < run[j].nodes[u].currentTerm
    ensures
      var k := run[i].nodes[s].commitIndex;
      && k <= |History(run[i].nodes[s])| && History(run[i].nodes[s])[..k] <= History(run[j].nodes[u])
      && 1 <= |run[i].nodes[s].logs| && 1 <= |run[j].nodes[u].logs| && SameTermsUpTo(run[i].nodes[s], run[j].nodes[u], k)
  {
    var cores := Shadow(run, acts);
    FullsComplete(run, acts, cores, i, j, s, u);
    ServerCommits(run[i], cores[i], s);
    PrefixSeen(run[i], cores[i], s, run[j], cores[j], u, run[i].nodes[s].commitIndex);
  }

  /** A committed prefix is in every later leader's log, even as it was before the commit. */
  lemma CommittedReaches(c: Core, d: Core, e: Core, bound: nat, p: Log, t: nat)
    requires Good(e) && Extends(c, e) && Extends(d, e)
    requires CommittedPrefix(c, bound, p) && TermsUpTo(p, bound) && bound < t && t in d.reigns
    ensures p <= d.reigns[t].log
  {
    GoodIsInv(e);
    CommittedPrefixExtends(c, e, bound, bound, p);
    CommittedInReign(e, bound, p, t);
    AlwaysHad(p, d.reigns[t].log, e.reigns[t].log, bound, t);
  }

  /** Two hand-outs to services that cannot both happen in one history. */
  predicate Compatible(x: Delivery, y: Delivery) {
    match (x, y)
    case (Applied(_, i, a), Applied(_, j, b)) => i == j ==> a == b
    case (Applied(_, i, a), Restored(_, ys)) => 1 <= i <= |ys| ==> ys[i - 1] == a
    case (Restored(_, xs), Applied(_, j, b)) => 1 <= j <= |xs| ==> xs[j - 1] == b
    case (Restored(_, xs), Restored(_, ys)) => xs <= ys || ys <= xs
  }

  function Last(run: seq<Cluster>): Cluster
    requires run != []
  {
    run[|run| - 1]
  }

  lemma DeliveryPrefix(c: Core, x: Delivery) returns (p: Log)
    requires DeliveryOK(c, x)
    ensures Decided(c, p)
    ensures x.Applied? ==> 1 <= x.index == |p| && p[x.index - 1].command == x.command
    ensures x.Restored? ==> Commands(p) == x.commands
  {
    if x.Applied? {
      p :| Decided(c, p) && 1 <= x.index == |p| && p[x.index - 1].command == x.command;
    } else {
      p :| Decided(c, p) && Commands(p) == x.commands;
    }
  }

  /**
   * State machine safety: no two servers, at any two moments of a run, hand their
   * services different commands for one index, whether one by one or in a snapshot.
   */
  lemma StateMachineSafety(run: seq<Cluster>, acts: seq<Action>, x: Delivery, y: Delivery)
    requires IsRun(run, acts) && x in Last(run).deliveries && y in Last(run).deliveries
    ensures Compatible(x, y)
  {
    var cores := Shadow(run, acts);
    var c := cores[|acts|];
    GoodIsInv(c);
    TiedIsCoupled(Last(run), c);
    assert DeliveryOK(c, x) && DeliveryOK(c, y);
    var p := DeliveryPrefix(c, x);
    var q := DeliveryPrefix(c, y);
    var bp: nat :| CommittedPrefix(c, bp, p);
    var bq: nat :| CommittedPrefix(c, bq, q);
    CommittedAgree(c, bp, p, bq, q);
    AgreeingDeliveries(x, y, p, q);
  }

  lemma AgreeingDeliveries(x: Delivery, y: Delivery, p: Log, q: Log)
    requires p <= q || q <= p
    requires x.Applied? ==> 1 <= x.index == |p| && p[x.index - 1].command == x.command
    requires x.Restored? ==> Commands(p) == x.commands
    requires y.Applied? ==> 1 <= y.index == |q| && q[y.index - 1].command == y.command
    requires y.Restored? ==> Commands(q) == y.commands
    ensures Compatible(x, y)
  {
    assert p <= q ==> Commands(p) <= Commands(q);
    assert q <= p ==> Commands(q) <= Commands(p);
  }

  /** What any two services have been fed, at any two moments, is one sequence cut at two points. */
  lemma ServicesAgree(run: seq<Cluster>, acts: seq<Action>, i: nat, j: nat, s: nat, u: nat)
    requires IsRun(run, acts) && i < |run| && j < |run| && s < |run[i].nodes| && u < |run[j].nodes|
    ensures
      var a, b := run[i].nodes[s].service, run[j].nodes[u].service;
      a <= b || b <= a
  {
    var cores := Shadow(run, acts);
    var m := if i <= j then j else i;
    var e := cores[m];
    assert Later(cores, i, m) && Later(cores, j, m);
    var p := FedLog(run[i], cores[i], e, s);
    var q := FedLog(run[j], cores[j], e, u);
    GoodIsInv(e);
    var bp: nat :| CommittedPrefix(e, bp, p);
    var bq: nat :| CommittedPrefix(e, bq, q);
    CommittedAgree(e, bp, p, bq, q);
    assert p <= q ==> Commands(p) <= Commands(q);
    assert q <= p ==> Commands(q) <= Commands(p);
  }

  lemma FedLog(cl: Cluster, c: Core, d: Core, s: nat) returns (p: Log)
    requires Tied(cl, c) && Extends(c, d) && s < |cl.nodes|
    ensures Decided(d, p) && cl.nodes[s].service == Commands(p)
  {
    HistoryIsLog(cl, c, s);
    var k := cl.nodes[s].lastApplied;
    CommittedUpTo(c, s, k);
    p := c.peers[s].log[..k];
    CommittedPrefixExtends(c, d, c.peers[s].term, c.peers[s].term, p);
  }
}
