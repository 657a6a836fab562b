/** Continuing a run of a cluster one step at a time. */
module RaftRuns {
  import opened RaftCore
  import opened RaftCluster
  import opened RaftSimulation
  import opened RaftSafety

  /** A run so far, and the servers that act from now on. */
  datatype Trace = Trace(run: seq<Cluster>, acts: seq<Action>, who: set<nat>)

  function Servers(n: nat): (all: set<nat>)
    ensures |all| == n && forall s: nat :: s in all <==> s < n
  {
    if n == 0 then {} else Servers(n - 1) + {n - 1}
  }

  function FromBoot(n: nat): Trace {
    Trace([Boot(n)], [], Servers(n))
  }

  /** After the first `k` actions only servers in `who` act. */
  predicate OnlyActs(acts: seq<Action>, k: nat, who: set<nat>) {
    forall i :: k <= i < |acts| ==> Actor(acts[i]) in who
  }

  /** A run that continues `h` with at most `k` actions of its servers and ends in `cl`. */
  ghost predicate Continued(h: Trace, k: nat, cl: Cluster, run: seq<Cluster>, acts: seq<Action>) {
    && IsRun(run, acts) && h.run <= run && h.acts <= acts
    && |acts| <= |h.acts| + k && OnlyActs(acts, |h.acts|, h.who) && Last(run) == cl
  }

  predicate LookRun(j: nat) { true }

  /** There is one; stated behind a seal so that the run is not searched for. */
  ghost predicate Onward(h: Trace, k: nat, cl: Cluster) {
    forall j: nat :: LookRun(j) ==> exists run, acts :: Continued(h, k, cl, run, acts)
  }

  lemma RunTo(h: Trace, k: nat, cl: Cluster) returns (run: seq<Cluster>, acts: seq<Action>)
    requires Onward(h, k, cl)
    ensures Continued(h, k, cl, run, acts)
  {
    assert LookRun(0);
    run, acts :| Continued(h, k, cl, run, acts);
  }

  lemma RunOn(run: seq<Cluster>, acts: seq<Action>, a: Action, cl: Cluster)
    requires IsRun(run, acts) && Step(Last(run), a, cl)
    ensures IsRun(run + [cl], acts + [a])
  {
    var run', acts' := run + [cl], acts + [a];
    forall i | 0 <= i < |acts'| ensures Step(run'[i], acts'[i], run'[i + 1]) {
      if i < |acts| { assert Step(run[i], acts[i], run[i + 1]); }
    }
  }

  lemma Here(run: seq<Cluster>, acts: seq<Action>, who: set<nat>)
    requires IsRun(run, acts)
    ensures Onward(Trace(run, acts, who), 0, Last(run))
  {
    assert Continued(Trace(run, acts, who), 0, Last(run), run, acts);
  }

  lemma Booted(n: nat)
    ensures Onward(FromBoot(n), 0, Boot(n))
  {
    Here([Boot(n)], [], Servers(n));
  }

  lemma Longer(h: Trace, k: nat, k': nat, cl: Cluster)
    requires Onward(h, k, cl) && k <= k'
    ensures Onward(h, k', cl)
  {
    var run, acts := RunTo(h, k, cl);
    assert Continued(h, k', cl, run, acts);
  }

  lemma Next(h: Trace, k: nat, cl: Cluster, a: Action) returns (d: Cluster)
    requires Onward(h, k, cl) && Actor(a) in h.who && Wants(cl, a)
    ensures InBounds(cl, a) && d == Do(cl, a) && Onward(h, k + 1, d)
  {
    var run, acts := RunTo(h, k, cl);
    NeverOutOfBounds(run, acts, a);
    d := Do(cl, a);
    RunOn(run, acts, a, d);
    assert Continued(h, k + 1, d, run + [d], acts + [a]);
  }

  /** RaftCore stands behind every state so reached. */
  lemma Behind(h: Trace, k: nat, cl: Cluster) returns (c: Core)
    requires Onward(h, k, cl)
    ensures Tied(cl, c)
  {
    var run, acts := RunTo(h, k, cl);
    var cores := Shadow(run, acts);
    c := cores[|acts|];
  }
}
