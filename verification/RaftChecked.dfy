/** Deliveries tell what services get; the online checker never reports an error on a run that takes no snapshots. */
module RaftChecked {
  import opened RaftTypes
  import opened RaftNode
  import opened RaftCluster
  import opened RaftSafety
  import opened ApplyChecker

  /** What the tester reads from the apply channels. */
  function Heard(ds: seq<Delivery>): (ms: seq<ApplyMsg>)
    ensures |ms| == |ds|
  {
    seq(|ds|, i requires 0 <= i < |ds| =>
      if ds[i].Applied? then ApplyMsg(ds[i].server, ds[i].index, ds[i].command) else ApplyMsg(ds[i].server, 0, NIL))
  }

  /** What a step with delivery `d` does to the service of server `s`. */
  predicate Tells(d: Delivery, s: nat, before: seq<Command>, after: seq<Command>) {
    if d.server != s then after == before
    else if d.Applied? then after == before + [d.command] && d.index == |after|
    else after == d.commands
  }

  /** In every run each step records at most one delivery, and apart from a crash no service changes but as it says. */
  lemma DeliveriesTell(run: seq<Cluster>, acts: seq<Action>, i: nat, s: nat)
    requires IsRun(run, acts) && i < |acts| && s < |run[i].nodes|
    ensures |run[i + 1].nodes| == |run[i].nodes| && run[i].deliveries <= run[i + 1].deliveries
    ensures
      var before, after, n := run[i].nodes[s], run[i + 1].nodes[s], |run[i].deliveries|;
      if acts[i] == Crash(s) then run[i + 1].deliveries == run[i].deliveries && after.service == before.disk.snapshot
      else if run[i + 1].deliveries == run[i].deliveries then after.service == before.service
      else |run[i + 1].deliveries| == n + 1 && Tells(run[i + 1].deliveries[n], s, before.service, after.service)
  {
    assert Step(run[i], acts[i], run[i + 1]);
  }

  predicate Uncompacted(cl: Cluster) {
    && (forall s :: 0 <= s < |cl.nodes| ==> cl.nodes[s].snapLastIndex == 0 && cl.nodes[s].me == s && cl.nodes[s].disk.snapshot == [])
    && (forall m :: m in cl.net ==> !m.SnapReq?)
    && (forall d :: d in cl.deliveries ==> d.Applied? && d.server < |cl.nodes|)
  }

  predicate HasApplied(ms: seq<ApplyMsg>, s: nat, i: nat) {
    exists x :: x in ms && x.server == s && x.index == i
  }

  /** Each server has handed out everything up to lastApplied, in some earlier life or this one. */
  predicate CaughtUp(cl: Cluster) {
    forall s: nat, i: nat :: s < |cl.nodes| && 1 <= i <= cl.nodes[s].lastApplied ==> HasApplied(Heard(cl.deliveries), s, i)
  }

  predicate Orderly(cl: Cluster) {
    Uncompacted(cl) && CaughtUp(cl) && InOrder(Heard(cl.deliveries))
  }

  /** The actor after a step keeps an uncompacted log and applies nothing but by Hand. */
  predicate Stays(nd: Node, nd': Node, hand: bool) {
    && nd'.snapLastIndex == 0 && nd'.me == nd.me && nd'.disk.snapshot == []
    && nd'.lastApplied <= if hand then nd.lastApplied + 1 else nd.lastApplied
  }

  lemma ReceiverStays(cl: Cluster, m: Message)
    requires Uncompacted(cl) && Wants(cl, Receive(m)) && InBounds(cl, Receive(m))
    ensures
      var d := Handle(cl, m);
      && |d.nodes| == |cl.nodes|
      && Stays(cl.nodes[Receiver(m)], d.nodes[Receiver(m)], false)
      && (forall s :: 0 <= s < |cl.nodes| && s != Receiver(m) ==> d.nodes[s] == cl.nodes[s])
      && (forall x :: x in d.net && x !in cl.net ==> !x.SnapReq?)
      && d.deliveries == cl.deliveries
  {
    assert !m.SnapReq?;
  }

  lemma NodeStays(cl: Cluster, a: Action)
    requires Uncompacted(cl) && Wants(cl, a) && InBounds(cl, a) && !a.Compact?
    ensures
      var d := Do(cl, a);
      && Uncompacted(d)
      && |d.nodes| == |cl.nodes|
      && (a.Hand? || d.deliveries == cl.deliveries)
      && forall s :: 0 <= s < |cl.nodes| ==>
           d.nodes[s].lastApplied <= if a == Hand(s) then cl.nodes[s].lastApplied + 1 else cl.nodes[s].lastApplied
  {
    if a.Receive? { ReceiverStays(cl, a.m); }
  }

  lemma HandInOrder(cl: Cluster, s: nat)
    requires Orderly(cl) && Wants(cl, Hand(s)) && InBounds(cl, Hand(s))
    ensures Orderly(Do(cl, Hand(s)))
  {
    NodeStays(cl, Hand(s));
    var d := Do(cl, Hand(s));
    var before, after := Heard(cl.deliveries), Heard(d.deliveries);
    var m := after[|before|];
    assert after == before + [m];
    var i := cl.nodes[s].lastApplied;
    if 1 <= i { assert HasApplied(before, s, i); }
    InOrderPrefix(after);
    assert after[..|before|] == before;
    forall u: nat, k: nat | u < |d.nodes| && 1 <= k <= d.nodes[u].lastApplied ensures HasApplied(after, u, k) {
      if u == s && k == i + 1 {
        assert m in after;
      } else {
        assert HasApplied(before, u, k);
      }
    }
  }

  lemma StepInOrder(cl: Cluster, a: Action)
    requires Orderly(cl) && Wants(cl, a) && InBounds(cl, a) && !a.Compact?
    ensures Orderly(Do(cl, a))
  {
    if a.Hand? { HandInOrder(cl, a.s); } else { NodeStays(cl, a); }
  }

  lemma {:induction false} RunInOrder(run: seq<Cluster>, acts: seq<Action>, k: nat)
    requires IsRun(run, acts) && k < |run| && forall a :: a in acts ==> !a.Compact?
    ensures Orderly(run[k])
  {
    if 0 < k {
      RunInOrder(run, acts, k - 1);
      assert Step(run[k - 1], acts[k - 1], run[k]);
      StepInOrder(run[k - 1], acts[k - 1]);
    }
  }

  lemma OneCommand(run: seq<Cluster>, acts: seq<Action>, cl: Cluster, i: nat, j: nat)
    requires IsRun(run, acts) && cl == Last(run) && Uncompacted(cl) && i < |cl.deliveries| && j < |cl.deliveries|
    requires Heard(cl.deliveries)[i].index == Heard(cl.deliveries)[j].index
    ensures Heard(cl.deliveries)[i].command == Heard(cl.deliveries)[j].command
  {
    var x, y := cl.deliveries[i], cl.deliveries[j];
    assert x in cl.deliveries && y in cl.deliveries;
    StateMachineSafety(run, acts, x, y);
  }

  /** Raft never trips the tester: over any run without snapshots, applier reports nothing. */
  lemma CheckerStaysSilent(run: seq<Cluster>, acts: seq<Action>)
    requires IsRun(run, acts) && forall a :: a in acts ==> !a.Compact?
    ensures
      var ms := Heard(Last(run).deliveries);
      Wellformed(|Last(run).nodes|, ms) && Silent(|Last(run).nodes|, ms)
  {
    RunInOrder(run, acts, |acts|);
    var cl := Last(run);
    var ms := Heard(cl.deliveries);
    forall i: nat, j: nat | i < |ms| && j < |ms| && ms[i].index == ms[j].index ensures ms[i].command == ms[j].command {
      OneCommand(run, acts, cl, i, j);
    }
    assert OneCommandPerIndex(ms);
    SilentExactly(|cl.nodes|, ms);
  }
}
