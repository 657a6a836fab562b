/**
 * The server objects together are a cluster: driving them by any schedule of timeouts, deliveries,
 * commands, snapshots and crashes is a run of RaftCluster, so what holds of every run holds of them.
 */
module RaftFleet {
  import opened RaftTypes
  import N = RaftNode
  import opened RaftServer
  import opened RaftCluster
  import opened RaftRuns
  import opened RaftSafety

  class Fleet {
    var servers: seq<Raft>
    var net: set<Message>
    var deliveries: seq<Delivery>

    ghost function Disks(): set<Persister>
      reads this
    {
      set r | r in servers :: r.persister
    }

    function View(): Cluster
      reads this, servers, Disks()
    {
      Cluster(seq(|servers|, i requires 0 <= i < |servers| reads this, servers, Disks() => servers[i].Value()), net, deliveries)
    }

    /** No two servers share an object. */
    ghost predicate Separate()
      reads this
    {
      forall i, j :: 0 <= i < j < |servers| ==> servers[i] != servers[j] && servers[i].persister != servers[j].persister
    }

    ghost predicate Ready(a: Action)
      reads this, servers, Disks()
    {
      Separate() && Wants(View(), a) && InBounds(View(), a)
    }

    twostate lemma OnlyServer(s: nat)
      requires s < |servers| && servers == old(servers)
      requires forall i :: 0 <= i < |servers| && i != s ==> servers[i].Value() == old(servers[i].Value())
      ensures View().nodes == old(View()).nodes[s := servers[s].Value()]
    {
    }

    constructor (n: nat)
      ensures Separate() && View() == Boot(n)
      ensures forall r :: r in servers ==> fresh(r) && fresh(r.persister)
    {
      var made := MakeAll(n);
      servers, net, deliveries := made, {}, [];
      new;
      assert View().nodes == Boot(n).nodes;
    }

    static method MakeOne(i: nat, n: nat) returns (rf: Raft)
      requires i < n
      ensures fresh(rf) && fresh(rf.persister) && rf.Value() == N.Fresh(i, n)
    {
      var disk := new Persister();
      rf := new Raft(i, n, disk);
    }

    static method MakeAll(n: nat) returns (made: seq<Raft>)
      ensures |made| == n && forall i :: 0 <= i < n ==> fresh(made[i]) && fresh(made[i].persister)
      ensures forall i, j :: 0 <= i < j < n ==> made[i] != made[j] && made[i].persister != made[j].persister
      ensures forall i :: 0 <= i < n ==> made[i].Value() == N.Fresh(i, n)
    {
      made := [];
      for i := 0 to n
        invariant |made| == i && forall j :: 0 <= j < i ==> fresh(made[j]) && fresh(made[j].persister)
        invariant forall j, k :: 0 <= j < k < i ==> made[j] != made[k] && made[j].persister != made[k].persister
        invariant forall j :: 0 <= j < i ==> made[j].Value() == N.Fresh(j, n)
      {
        var rf := MakeOne(i, n);
        made := made + [rf];
      }
    }

    method Timeout(s: nat)
      requires Ready(Action.Timeout(s))
      modifies this`net, servers, Disks()
      ensures View() == Do(old(View()), Action.Timeout(s))
    {
      var rf := servers[s];
      rf.ConvertToCandidate();
      OnlyServer(s);
      net := net + Ballots(rf.Value());
    }

    method Win(s: nat)
      requires Ready(Action.Win(s))
      modifies servers
      ensures View() == Do(old(View()), Action.Win(s))
    {
      servers[s].ConvertToLeader();
      OnlyServer(s);
    }

    method Submit(s: nat, x: Command)
      requires Ready(Action.Submit(s, x))
      modifies servers, Disks()
      ensures View() == Do(old(View()), Action.Submit(s, x))
    {
      var index, term, isLeader := servers[s].Start(x);
      OnlyServer(s);
    }

    method Send(s: nat, p: nat, prev: nat, count: nat, commit: nat)
      requires Ready(Action.Send(s, p, prev, count, commit))
      modifies this`net
      ensures View() == Do(old(View()), Action.Send(s, p, prev, count, commit))
    {
      net := net + {Outgoing(servers[s].Value(), p, prev, count, commit)};
      OnlyServer(s);
    }

    method Hand(s: nat)
      requires Ready(Action.Hand(s))
      modifies this`deliveries, servers
      ensures View() == Do(old(View()), Action.Hand(s))
    {
      var x := servers[s].ApplyOne();
      OnlyServer(s);
      deliveries := deliveries + [Applied(s, servers[s].lastApplied, x)];
    }

    method Compact(s: nat, index: nat)
      requires Ready(Action.Compact(s, index))
      modifies servers, Disks()
      ensures View() == Do(old(View()), Action.Compact(s, index))
    {
      servers[s].Snapshot(index, servers[s].service[..index]);
      OnlyServer(s);
    }

    /** The old object and its persister are abandoned; the new server starts from a copy. */
    method Crash(s: nat)
      requires Ready(Action.Crash(s))
      modifies this`servers
      ensures Separate() && View() == Do(old(View()), Action.Crash(s))
      ensures forall r :: r in servers ==> r in old(servers) || (fresh(r) && fresh(r.persister))
    {
      var disk := servers[s].persister.Copy();
      var rf := new Raft(servers[s].me, servers[s].peers, disk);
      servers := servers[s := rf];
      assert View().nodes == old(View()).nodes[s := rf.Value()];
    }

    method OnVoteReq(m: Message)
      requires m.VoteReq? && Ready(Action.Receive(m))
      modifies this`net, servers, Disks()
      ensures View() == Handle(old(View()), m)
    {
      var r := servers[m.peer].RequestVote(m.va);
      OnlyServer(m.peer);
      net := net - {m} + {VoteRep(m.peer, m.va, r)};
    }

    method OnVoteRep(m: Message)
      requires m.VoteRep? && Ready(Action.Receive(m))
      modifies this`net, servers, Disks()
      ensures View() == Handle(old(View()), m)
    {
      servers[m.va.candidateId].HandleVoteReply(m.va, m.vr);
      OnlyServer(m.va.candidateId);
      net := net - {m};
    }

    method OnAppendReq(m: Message)
      requires m.AppendReq? && Ready(Action.Receive(m))
      modifies this`net, servers, Disks()
      ensures View() == Handle(old(View()), m)
    {
      var r := servers[m.peer].AppendEntries(m.aa);
      OnlyServer(m.peer);
      net := net + {AppendRep(m.peer, m.aa, r)};
    }

    method OnAppendRep(m: Message)
      requires m.AppendRep? && Ready(Action.Receive(m))
      modifies this`net, servers, Disks()
      ensures View() == Handle(old(View()), m)
    {
      var rf := servers[m.aa.leaderId];
      var install := rf.HandleAppendReply(m.peer, m.aa, m.ar);
      OnlyServer(m.aa.leaderId);
      if install {
        net := net + {SnapReq(m.peer, N.SnapshotArgs(rf.Value()))};
      }
      assert old(net) + {} == old(net);
    }

    method OnSnapReq(m: Message)
      requires m.SnapReq? && Ready(Action.Receive(m))
      modifies this`net, this`deliveries, servers, Disks()
      ensures View() == Handle(old(View()), m)
    {
      var rf := servers[m.peer];
      var installs := N.Installs(rf.Value(), m.sa);
      var r := rf.InstallSnapshot(m.sa);
      OnlyServer(m.peer);
      net := net + {SnapRep(m.peer, m.sa, r)};
      deliveries := deliveries + (if installs then [Restored(m.peer, m.sa.data)] else []);
    }

    method OnSnapRep(m: Message)
      requires m.SnapRep? && Ready(Action.Receive(m))
      modifies servers, Disks()
      ensures View() == Handle(old(View()), m)
    {
      servers[m.sa.leaderId].HandleSnapshotReply(m.peer, m.sa, m.sr);
      OnlyServer(m.sa.leaderId);
    }

    method Receive(m: Message)
      requires Ready(Action.Receive(m))
      modifies this`net, this`deliveries, servers, Disks()
      ensures View() == Handle(old(View()), m)
    {
      match m {
        case VoteReq(_, _) => OnVoteReq(m);
        case VoteRep(_, _, _) => OnVoteRep(m);
        case AppendReq(_, _) => OnAppendReq(m);
        case AppendRep(_, _, _) => OnAppendRep(m);
        case SnapReq(_, _) => OnSnapReq(m);
        case SnapRep(_, _, _) => OnSnapRep(m);
      }
    }

    /** Whatever is asked of the objects, together they do what RaftCluster says. */
    method Step(a: Action)
      requires Ready(a)
      modifies this, servers, Disks()
      ensures Separate() && View() == Do(old(View()), a)
      ensures forall r :: r in servers ==> r in old(servers) || (fresh(r) && fresh(r.persister))
    {
      match a {
        case Timeout(s) => Timeout(s);
        case Win(s) => Win(s);
        case Submit(s, x) => Submit(s, x);
        case Send(s, p, prev, count, commit) => Send(s, p, prev, count, commit);
        case Receive(m) => Receive(m);
        case Hand(s) => Hand(s);
        case Compact(s, i) => Compact(s, i);
        case Crash(s) => Crash(s);
      }
    }
  }

  /** Any schedule, from boot: the services of the objects never disagree. */
  method Drive(n: nat, schedule: seq<Action>) returns (fleet: Fleet)
    ensures forall x, y :: x in fleet.deliveries && y in fleet.deliveries ==> Compatible(x, y)
    ensures forall s, u :: 0 <= s < |fleet.servers| && 0 <= u < |fleet.servers| ==>
      var a, b := fleet.servers[s].service, fleet.servers[u].service; a <= b || b <= a
  {
    fleet := new Fleet(n);
    ghost var run, acts := [fleet.View()], [];
    for i := 0 to |schedule|
      invariant fresh(fleet) && fleet.Separate() && forall r :: r in fleet.servers ==> fresh(r) && fresh(r.persister)
      invariant IsRun(run, acts) && Last(run) == fleet.View()
    {
      var a := schedule[i];
      if Wants(fleet.View(), a) {
        NeverOutOfBounds(run, acts, a);
        fleet.Step(a);
        RunOn(run, acts, a, fleet.View());
        run, acts := run + [fleet.View()], acts + [a];
      }
    }
    forall x, y | x in fleet.deliveries && y in fleet.deliveries ensures Compatible(x, y) {
      StateMachineSafety(run, acts, x, y);
    }
    forall s, u | 0 <= s < |fleet.servers| && 0 <= u < |fleet.servers|
      ensures var a, b := fleet.servers[s].service, fleet.servers[u].service; a <= b || b <= a
    {
      ServicesAgree(run, acts, |acts|, |acts|, s, u);
    }
  }
}
