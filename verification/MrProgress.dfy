/** No reachable state of a MapReduce job is stuck: from each of them Done() can still be reached. */
module MrProgress {
  import opened MrNames
  import opened MrWorker
  import opened MrReduce
  import opened MrCoordinator
  import opened MrSystem

  // ----- every task can be run -----

  predicate Fills(kva: seq<KeyValue>, h: Hash, n: nat, t: nat, name: string, b: nat)
    requires 0 < n
  {
    Select(kva, h, n, b) != [] && name == Intermediate(t, b)
  }

  /** Like Wrote, for the buckets below `k`. */
  ghost predicate WroteBelow(before: Files, after: Files, t: nat, kva: seq<KeyValue>, h: Hash, n: nat, k: nat)
    requires 0 < n
  {
    && (forall b: nat, name :: b < k && Fills(kva, h, n, t, name, b) ==> name in after && after[name] == Select(kva, h, n, b))
    && (forall name :: (forall b: nat :: b < k ==> !Fills(kva, h, n, t, name, b)) ==>
          (name in after <==> name in before) && (name in before ==> after[name] == before[name]))
  }

  lemma {:induction false} CanWriteBelow(before: Files, t: nat, kva: seq<KeyValue>, h: Hash, n: nat, k: nat) returns (after: Files)
    requires 0 < n
    ensures WroteBelow(before, after, t, kva, h, n, k)
  {
    after := before;
    if k > 0 {
      var earlier := CanWriteBelow(before, t, kva, h, n, k - 1);
      var last, bucket := Intermediate(t, k - 1), Select(kva, h, n, k - 1);
      after := if bucket == [] then earlier else earlier[last := bucket];
      forall b: nat, name | b < k && Fills(kva, h, n, t, name, b) ensures name in after && after[name] == Select(kva, h, n, b) {
        if b < k - 1 && name == last { IntermediateInjective(t, b, t, k - 1); }
      }
      forall name | forall b: nat :: b < k ==> !Fills(kva, h, n, t, name, b)
        ensures (name in after <==> name in before) && (name in before ==> after[name] == before[name])
      {
        assert !Fills(kva, h, n, t, name, k - 1);
      }
    }
  }

  lemma CanWrite(before: Files, t: nat, kva: seq<KeyValue>, h: Hash, n: nat) returns (after: Files)
    requires 0 < n
    ensures Wrote(before, after, t, kva, h, n)
  {
    after := CanWriteBelow(before, t, kva, h, n, n);
    forall b: nat | b < n && Select(kva, h, n, b) != []
      ensures Intermediate(t, b) in after && after[Intermediate(t, b)] == Select(kva, h, n, b)
    {
      assert Fills(kva, h, n, t, Intermediate(t, b), b);
    }
    forall name | forall b: nat :: b < n && Select(kva, h, n, b) != [] ==> name != Intermediate(t, b)
      ensures (name in after <==> name in before) && (name in before ==> after[name] == before[name])
    {
      assert forall b: nat :: b < n ==> !Fills(kva, h, n, t, name, b);
    }
  }

  lemma {:induction false} CanSort(kva: seq<KeyValue>) returns (r: seq<KeyValue>)
    ensures KeySorted(r) && multiset(r) == multiset(kva)
  {
    r := [];
    if kva != [] {
      var rest := CanSort(kva[1..]);
      InsertSorts(rest, kva[0]);
      InsertCounts(rest, kva[0]);
      assert kva == [kva[0]] + kva[1..];
      r := Insert(rest, kva[0]);
    }
  }

  // ----- what remains to be done -----

  function CountIn(s: set<nat>, n: nat): (k: nat)
    ensures k <= n
  {
    if n == 0 then 0 else CountIn(s, n - 1) + (if n - 1 in s then 1 else 0)
  }

  lemma {:induction false} CountOneMore(s: set<nat>, n: nat, t: nat)
    ensures CountIn(s + {t}, n) == CountIn(s, n) + (if t < n && t !in s then 1 else 0)
  {
    if n > 0 { CountOneMore(s, n - 1, t); }
  }

  ghost function Remaining(job: Job, s: Sys): nat
    requires Inv(job, s)
  {
    var m, r := |job.inputs|, job.nReduce;
    (m - s.coord.counterMap) + (m - CountIn(s.mapRan, m)) + (m - s.coord.doneMap)
    + (r - s.coord.counterReduce) + (r - CountIn(s.reduceRan, r)) + (r - s.coord.doneReduce)
  }

  lemma Unfinished(flags: seq<bool>) returns (i: nat)
    requires Count(flags) != |flags|
    ensures i < |flags| && !flags[i]
  {
    CountFull(flags);
    i :| 0 <= i < |flags| && !flags[i];
  }

  lemma AdvanceMap(job: Job, s: Sys) returns (a: Act, s': Sys)
    requires Inv(job, s) && s.coord.doneMap != |job.inputs|
    ensures Step(job, s, a, s') && Inv(job, s') && Remaining(job, s') < Remaining(job, s)
  {
    var m := |job.inputs|;
    if s.coord.counterMap < m {
      var (c, reply) := GiveMapTask(s.coord);
      a, s' := GiveMap, s.(coord := c, mapsGiven := s.mapsGiven + [reply.id]);
    } else {
      var t := Unfinished(s.coord.mapComplete);
      if t in s.mapRan {
        a, s' := ReportMap(t), s.(coord := CheckLastMapDone(s.coord, t));
      } else {
        assert s.mapsGiven[t] == t;
        var files := CanWrite(s.files, t, Emitted(job, t), job.ihash, job.nReduce);
        CountOneMore(s.mapRan, m, t);
        a, s' := RunMap(t), s.(files := files, mapRan := s.mapRan + {t});
      }
    }
    StepInv(job, s, a, s');
  }

  lemma AdvanceReduce(job: Job, s: Sys) returns (a: Act, s': Sys)
    requires Inv(job, s) && s.coord.doneMap == |job.inputs| && s.coord.doneReduce != job.nReduce
    ensures Step(job, s, a, s') && Inv(job, s') && Remaining(job, s') < Remaining(job, s)
  {
    if s.coord.counterReduce < job.nReduce {
      var (c, reply) := GiveReduceTask(s.coord);
      a, s' := GiveReduce, s.(coord := c, given := s.given[reply.id := reply.files]);
    } else {
      var r := Unfinished(s.coord.reduceComplete);
      if r in s.reduceRan {
        a, s' := ReportReduce(r), s.(coord := CheckLastReduceDone(s.coord, r));
      } else {
        var kva := CanSort(Contents(s.files, s.given[r]));
        CountOneMore(s.reduceRan, job.nReduce, r);
        a := RunReduce(r, kva);
        s' := s.(files := s.files[Output(r) := Reduced(kva, 0, job.reducef)], reduceRan := s.reduceRan + {r});
      }
    }
    StepInv(job, s, a, s');
  }

  lemma Advance(job: Job, s: Sys) returns (a: Act, s': Sys)
    requires Inv(job, s) && !Done(s.coord)
    ensures Step(job, s, a, s') && Inv(job, s') && Remaining(job, s') < Remaining(job, s)
  {
    if s.coord.doneMap != |job.inputs| {
      a, s' := AdvanceMap(job, s);
    } else {
      a, s' := AdvanceReduce(job, s);
    }
  }

  lemma RunExtends(job: Job, run: seq<Sys>, acts: seq<Act>, a: Act, s': Sys)
    requires 0 < job.nReduce && MrSystem.IsRun(job, run, acts) && Step(job, run[|run| - 1], a, s')
    ensures MrSystem.IsRun(job, run + [s'], acts + [a])
  {
    var run', acts' := run + [s'], acts + [a];
    forall i: nat | i < |acts'| ensures Steps(job, run', acts', i) {
      if i < |acts| { assert Steps(job, run, acts, i); }
    }
  }

  lemma {:induction false} Continue(job: Job, s: Sys, left: nat) returns (run: seq<Sys>, acts: seq<Act>)
    requires Inv(job, s) && Remaining(job, s) <= left
    ensures Follows(job, s, run, acts) && Done((if run == [] then s else run[|run| - 1]).coord)
    decreases left
  {
    run, acts := [], [];
    if !Done(s.coord) {
      var a, s' := Advance(job, s);
      var rest, more := Continue(job, s', left - 1);
      run, acts := [s'] + rest, [a] + more;
    }
  }

  /** A sequence of steps from `s`. */
  ghost predicate Follows(job: Job, s: Sys, run: seq<Sys>, acts: seq<Act>)
    requires 0 < job.nReduce
    decreases |run|
  {
    |run| == |acts| && (run == [] || (Step(job, s, acts[0], run[0]) && Follows(job, run[0], run[1..], acts[1..])))
  }

  lemma {:induction false} RunFollows(job: Job, run: seq<Sys>, acts: seq<Act>, more: seq<Sys>, steps: seq<Act>)
    requires 0 < job.nReduce && MrSystem.IsRun(job, run, acts) && Follows(job, run[|run| - 1], more, steps)
    ensures MrSystem.IsRun(job, run + more, acts + steps)
    decreases |more|
  {
    if more == [] {
      assert run + more == run && acts + steps == acts;
    } else {
      RunExtends(job, run, acts, steps[0], more[0]);
      RunFollows(job, run + [more[0]], acts + [steps[0]], more[1..], steps[1..]);
      assert run + [more[0]] + more[1..] == run + more && acts + [steps[0]] + steps[1..] == acts + steps;
    }
  }

  /** Every run, whatever was lost or re-executed on the way, can be continued to one in which Done() holds. */
  lemma DoneStaysReachable(job: Job, run: seq<Sys>, acts: seq<Act>) returns (more: seq<Sys>, steps: seq<Act>)
    requires 0 < job.nReduce && MrSystem.IsRun(job, run, acts)
    ensures var all := run + more; MrSystem.IsRun(job, all, acts + steps) && Done(all[|all| - 1].coord)
  {
    var s := run[|run| - 1];
    RunInv(job, run, acts, |run| - 1);
    more, steps := Continue(job, s, Remaining(job, s));
    RunFollows(job, run, acts, more, steps);
  }

  /** One map task that emits nothing, one reduce task, and a bucket file from an earlier job: a wrong output. */
  lemma LeftOverExample() returns (job: Job, run: seq<Sys>, acts: seq<Act>)
    ensures 0 < job.nReduce && MrSystem.IsRun(job, run, acts) && Done(run[|run| - 1].coord)
    ensures var files := run[|run| - 1].files; Output(0) in files && !Correct(job, 0, files[Output(0)])
  {
    var x := KeyValue("x", "1");
    job := Job([("input", "")], 1, (name, text) => [], (k, vs) => "", k => 0, map[Intermediate(0, 0) := [x]]);
    var s := Sys(Fresh(1, 1), job.initial, [], {}, {}, map[]);
    assert Emitted(job, 0) == [] && All(job, 1) == All(job, 0) + [] == [];
    assert MrSystem.IsRun(job, [s], []);
    var more, steps := DoneStaysReachable(job, [s], []);
    run, acts := [s] + more, [] + steps;
    LeftOverShows(job, run, acts, |run| - 1, 0, 0, x);
  }
}
