/** When every output is right: exactly when no bucket file was left over, if reducef tells its arguments apart. */
module MrExact {
  import opened MrNames
  import opened MrWorker
  import opened MrReduce
  import opened MrCoordinator
  import opened MrSystem

  /** Different values, up to order, give different results. */
  ghost predicate Exposes(f: Reducer) {
    forall k, vs, ws :: f(k, vs) == f(k, ws) ==> multiset(vs) == multiset(ws)
  }

  // ----- a reduce function that does: it writes its values down -----

  /** Each character behind a quote, and a full stop. */
  function Mark(v: string): string {
    if v == "" then "." else ['\'', v[0]] + Mark(v[1..])
  }

  function Spell(vs: seq<string>): string {
    if vs == [] then "" else Mark(vs[0]) + Spell(vs[1..])
  }

  lemma {:induction false} MarkEnds(v: string, w: string, x: string, y: string)
    requires Mark(v) + x == Mark(w) + y
    ensures v == w && x == y
  {
    assert (Mark(v) + x)[0] == (Mark(w) + y)[0];
    if v != "" {
      assert w != "" && (Mark(v) + x)[1] == (Mark(w) + y)[1];
      assert Mark(v[1..]) + x == (Mark(v) + x)[2..] == (Mark(w) + y)[2..] == Mark(w[1..]) + y;
      MarkEnds(v[1..], w[1..], x, y);
    } else {
      assert x == (Mark(v) + x)[1..] == (Mark(w) + y)[1..] == y;
    }
  }

  lemma {:induction false} SpellTells(vs: seq<string>, ws: seq<string>)
    requires Spell(vs) == Spell(ws)
    ensures vs == ws
  {
    if vs != [] && ws != [] {
      MarkEnds(vs[0], ws[0], Spell(vs[1..]), Spell(ws[1..]));
      SpellTells(vs[1..], ws[1..]);
      assert vs == [vs[0]] + vs[1..] && ws == [ws[0]] + ws[1..];
    }
  }

  lemma SpellExposes()
    ensures Exposes((k, vs) => Spell(vs))
  {
    forall vs, ws | Spell(vs) == Spell(ws) ensures multiset(vs) == multiset(ws) {
      SpellTells(vs, ws);
    }
  }

  // ----- outputs -----

  lemma NoKeyNoValues(kva: seq<KeyValue>, k: string)
    requires !HasKey(kva, k)
    ensures ValuesOf(kva, k) == []
  {
    ValuesOfRun(kva, k, false);
  }

  /** A correct output exposes the values its task read. */
  lemma KeyExposed(job: Job, r: nat, kva: seq<KeyValue>, k: string)
    requires 0 < job.nReduce && r < job.nReduce && Exposes(job.reducef) && KeySorted(kva)
    requires Correct(job, r, Reduced(kva, 0, job.reducef))
    ensures
      var bucket := Select(All(job, |job.inputs|), job.ihash, job.nReduce, r);
      multiset(ValuesOf(kva, k)) == multiset(ValuesOf(bucket, k))
  {
    var lines, all := Reduced(kva, 0, job.reducef), All(job, |job.inputs|);
    ReducedSummarises(kva, 0, job.reducef);
    assert kva[0..] == kva;
    if HasKey(lines, k) {
      var i :| 0 <= i < |lines| && lines[i].key == k;
      assert Reduces(job, lines[i]);
      var values :| ReducedFrom(job, lines[i], values);
      SelectValues(all, job.ihash, job.nReduce, r, k);
    } else {
      SelectKeys(all, job.ihash, job.nReduce, r, k);
      NoKeyNoValues(kva, k);
      NoKeyNoValues(Select(all, job.ihash, job.nReduce, r), k);
    }
  }

  lemma {:induction false} SameValuesSamePairs(a: seq<KeyValue>, b: seq<KeyValue>)
    requires forall k :: multiset(ValuesOf(a, k)) == multiset(ValuesOf(b, k))
    ensures multiset(a) == multiset(b)
  {
    forall x: KeyValue ensures multiset(a)[x] == multiset(b)[x] {
      assert x == KeyValue(x.key, x.value);
      ValuesCounted(a, x.key, x.value);
      ValuesCounted(b, x.key, x.value);
    }
  }

  /** With such a reducef, output `r` is correct when Done() holds if and only if nothing was left over for it. */
  lemma OutputIsExact(job: Job, run: seq<Sys>, acts: seq<Act>, k: nat, r: nat)
    requires 0 < job.nReduce && MrSystem.IsRun(job, run, acts) && k < |run| && Done(run[k].coord) && r < job.nReduce
    requires Exposes(job.reducef)
    ensures Output(r) in run[k].files && (Correct(job, r, run[k].files[Output(r)]) <==> Clean(job, r))
  {
    var s := run[k];
    var kva := TaskInput(job, run, acts, k, r);
    if Clean(job, r) {
      EndToEnd(job, run, acts, k, r);
    } else if Correct(job, r, s.files[Output(r)]) {
      forall key ensures multiset(ValuesOf(kva, key)) == multiset(ValuesOf(Select(All(job, |job.inputs|), job.ihash, job.nReduce, r), key)) {
        KeyExposed(job, r, kva, key);
      }
      SameValuesSamePairs(kva, Select(All(job, |job.inputs|), job.ihash, job.nReduce, r));
      InputIsExact(job, run, acts, k, r);
    }
  }

  lemma TaskInput(job: Job, run: seq<Sys>, acts: seq<Act>, k: nat, r: nat) returns (kva: seq<KeyValue>)
    requires 0 < job.nReduce && MrSystem.IsRun(job, run, acts) && k < |run| && Done(run[k].coord) && r < job.nReduce
    ensures r in run[k].given && KeySorted(kva) && multiset(kva) == multiset(Contents(run[k].files, run[k].given[r]))
    ensures Output(r) in run[k].files && run[k].files[Output(r)] == Reduced(kva, 0, job.reducef)
  {
    var s := run[k];
    RunInv(job, run, acts, k);
    CountFull(s.coord.reduceComplete);
    assert r in s.reduceRan && OutputIs(job, s, r);
    kva :| Read(job, s, r, kva) && s.files[Output(r)] == Reduced(kva, 0, job.reducef);
  }
}
