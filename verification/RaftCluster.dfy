/**
 * A cluster of Raft servers over a network that may lose, delay, reorder and (for
 * AppendEntries and InstallSnapshot) repeat messages, with crashes at any moment.
 * A message that is never delivered is lost. A RequestVote call is handled at most
 * once and its reply received at most once, as labrpc guarantees.
 */
module RaftCluster {
  import opened RaftTypes
  import opened RaftNode

  /** `peer` is the server called; the caller is named in the arguments. */
  datatype Message =
    | VoteReq(peer: nat, va: RequestVoteArgs)
    | VoteRep(peer: nat, va: RequestVoteArgs, vr: RequestVoteReply)
    | AppendReq(peer: nat, aa: AppendEntriesArgs)
    | AppendRep(peer: nat, aa: AppendEntriesArgs, ar: AppendEntriesReply)
    | SnapReq(peer: nat, sa: InstallSnapshotArgs)
    | SnapRep(peer: nat, sa: InstallSnapshotArgs, sr: InstallSnapshotReply)

  /** What a server ever handed to its service, in order. */
  datatype Delivery =
    | Applied(server: nat, index: nat, command: Command)
    | Restored(server: nat, commands: seq<Command>)

  datatype Cluster = Cluster(nodes: seq<Node>, net: set<Message>, deliveries: seq<Delivery>)

  datatype Action =
    | Timeout(s: nat)
    | Win(s: nat)
    | Submit(s: nat, x: Command)
    | Send(s: nat, p: nat, prev: nat, count: nat, commit: nat)
    | Receive(m: Message)
    | Hand(s: nat)
    | Compact(s: nat, index: nat)
    | Crash(s: nat)

  function Boot(n: nat): Cluster {
    Cluster(seq(n, i requires 0 <= i < n => Fresh(i, n)), {}, [])
  }

  function Receiver(m: Message): nat {
    match m
    case VoteReq(p, _) => p
    case VoteRep(_, a, _) => a.candidateId
    case AppendReq(p, _) => p
    case AppendRep(_, a, _) => a.leaderId
    case SnapReq(p, _) => p
    case SnapRep(_, a, _) => a.leaderId
  }

  function Actor(a: Action): nat {
    if a.Receive? then Receiver(a.m) else a.s
  }

  /** When the source takes the step. */
  predicate Wants(c: Cluster, a: Action) {
    Actor(a) < |c.nodes| &&
    var nd := c.nodes[Actor(a)];
    match a
    case Timeout(_) => nd.role != Leader
    case Win(_) => Wins(nd)
    case Submit(_, _) => nd.role == Leader
    case Send(s, p, prev, count, commit) =>
      && nd.role == Leader && p < |c.nodes| && p != s
      && prev + count < nd.snapLastIndex + |nd.logs|
      && commit <= nd.commitIndex && commit <= prev + count
    case Receive(m) => m in c.net
    case Hand(_) => nd.lastApplied < nd.commitIndex
    case Compact(_, i) => nd.snapLastIndex < i <= nd.lastApplied
    case Crash(_) => true
  }

  /** When taking it indexes every slice within bounds. */
  predicate InBounds(c: Cluster, a: Action)
    requires Actor(a) < |c.nodes|
  {
    var nd := c.nodes[Actor(a)];
    && Valid(nd)
    && nd.n == |c.nodes|
    && match a
       case Send(_, p, _, _, _) => p < nd.n && 1 <= nd.nextIndex[p] <= LastIndex(nd) + 1
       case Receive(m) => m.peer < nd.n && (m.SnapReq? ==> |m.sa.data| == m.sa.lastIncludeIndex)
       case Hand(_) => nd.lastApplied < nd.commitIndex <= LastIndex(nd)
       case Compact(_, i) => i <= nd.lastApplied <= nd.commitIndex <= LastIndex(nd)
       case _ => true
  }

  /**
   * What a leader sends: any slice of its log after any index it still has, with any commit index
   * up to its own and to what it sends, or its snapshot. The source's choice is prev = nextIndex - 1.
   */
  function Outgoing(nd: Node, p: nat, prev: nat, count: nat, commit: nat): Message
    requires prev + count < nd.snapLastIndex + |nd.logs|
  {
    if prev < nd.snapLastIndex then SnapReq(p, SnapshotArgs(nd)) else AppendReq(p, AppendSlice(nd, prev, count, commit))
  }

  function Ballots(nd: Node): set<Message>
    requires Valid(nd)
  {
    set p: nat | p < nd.n && p != nd.me :: VoteReq(p, VoteArgs(nd))
  }

  function Do(c: Cluster, a: Action): Cluster
    requires Wants(c, a) && InBounds(c, a)
  {
    var s := Actor(a);
    var nd := c.nodes[s];
    match a
    case Timeout(_) =>
      var d := ConvertToCandidate(nd);
      c.(nodes := c.nodes[s := d], net := c.net + Ballots(d))
    case Win(_) => c.(nodes := c.nodes[s := ConvertToLeader(nd)])
    case Submit(_, x) => c.(nodes := c.nodes[s := StartCommand(nd, x)])
    case Send(_, p, prev, count, commit) => c.(net := c.net + {Outgoing(nd, p, prev, count, commit)})
    case Receive(m) => Handle(c, m)
    case Hand(_) =>
      var (d, x) := ApplyNext(nd);
      c.(nodes := c.nodes[s := d], deliveries := c.deliveries + [Applied(s, d.lastApplied, x)])
    case Compact(_, i) => c.(nodes := c.nodes[s := Snapshot(nd, i)])
    case Crash(_) => c.(nodes := c.nodes[s := Restart(nd.me, nd.n, nd.disk)])
  }

  function Handle(c: Cluster, m: Message): Cluster
    requires Wants(c, Receive(m)) && InBounds(c, Receive(m))
  {
    var s := Receiver(m);
    var nd := c.nodes[s];
    match m
    case VoteReq(p, a) =>
      var (d, r) := RequestVote(nd, a);
      c.(nodes := c.nodes[s := d], net := c.net - {m} + {VoteRep(p, a, r)})
    case VoteRep(p, a, r) =>
      c.(nodes := c.nodes[s := VoteReply(nd, a, r)], net := c.net - {m})
    case AppendReq(p, a) =>
      var (d, r) := AppendEntries(nd, a);
      c.(nodes := c.nodes[s := d], net := c.net + {AppendRep(p, a, r)})
    case AppendRep(p, a, r) =>
      c.(nodes := c.nodes[s := AppendReply(nd, p, a, r)],
      net := c.net + (if NeedsSnapshot(nd, a, r) then {SnapReq(p, SnapshotArgs(nd))} else {}))
    case SnapReq(p, a) =>
      var (d, r) := InstallSnapshot(nd, a);
      c.(nodes := c.nodes[s := d], net := c.net + {SnapRep(p, a, r)},
      deliveries := c.deliveries + (if Installs(nd, a) then [Restored(s, a.data)] else []))
    case SnapRep(p, a, r) =>
      c.(nodes := c.nodes[s := SnapshotReply(nd, p, a, r)])
  }

  predicate Step(c: Cluster, a: Action, d: Cluster) {
    Wants(c, a) && InBounds(c, a) && d == Do(c, a)
  }

  /** A run from boot: states, and the action between each state and the next. */
  predicate IsRun(run: seq<Cluster>, acts: seq<Action>) {
    && |run| == |acts| + 1
    && run[0] == Boot(|run[0].nodes|)
    && forall i :: 0 <= i < |acts| ==> Step(run[i], acts[i], run[i + 1])
  }
}
