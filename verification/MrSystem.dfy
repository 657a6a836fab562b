/**
 * MapReduce end to end: a coordinator, workers that may run any task they were
 * given any number of times and at any moment, and the files they share.
 * Each handler call, each map task's writes and each reduce task's read and write
 * are one step. The monitor's redo of a task is one more run of it.
 */
module MrSystem {
  import opened MrNames
  import opened MrWorker
  import opened MrReduce
  import opened MrCoordinator

  type Mapper = (string, string) -> seq<KeyValue>

  /** The input files with their contents, the user's functions, and whatever files there are at the start. */
  datatype Job = Job(
    inputs: seq<(string, string)>, nReduce: nat, mapf: Mapper, reducef: Reducer, ihash: Hash, initial: Files)

  function Emitted(job: Job, t: nat): seq<KeyValue>
    requires t < |job.inputs|
  {
    job.mapf(job.inputs[t].0, job.inputs[t].1)
  }

  /** `mapsGiven` records the map tasks handed out, in order; `given` the reduce tasks with their files. */
  datatype Sys = Sys(
    coord: Coord, files: Files, mapsGiven: seq<nat>,
    mapRan: set<nat>, reduceRan: set<nat>,
    given: map<nat, seq<string>>)

  datatype Act =
    | GiveMap
    | RunMap(t: nat)
    | ReportMap(t: nat)
    | GiveReduce
    | RunReduce(r: nat, kva: seq<KeyValue>)
    | ReportReduce(r: nat)

  ghost predicate Init(job: Job, s: Sys) {
    && 0 < job.nReduce
    && s.coord == Fresh(|job.inputs|, job.nReduce)
    && s.mapsGiven == [] && s.mapRan == {} && s.reduceRan == {} && s.given == map[]
    && s.files == job.initial
  }

  ghost predicate Step(job: Job, s: Sys, a: Act, s': Sys)
    requires 0 < job.nReduce
  {
    match a
    case GiveMap =>
      var (c, reply) := GiveMapTask(s.coord);
      s' == s.(coord := c, mapsGiven := s.mapsGiven + (if reply.MapTask? then [reply.id] else []))
    case RunMap(t) =>
      && t in s.mapsGiven && t < |job.inputs|
      && Wrote(s.files, s'.files, t, Emitted(job, t), job.ihash, job.nReduce)
      && s' == s.(files := s'.files, mapRan := s.mapRan + {t})
    case ReportMap(t) =>
      && t in s.mapRan && t < |s.coord.mapComplete|
      && s' == s.(coord := CheckLastMapDone(s.coord, t))
    case GiveReduce =>
      var (c, reply) := GiveReduceTask(s.coord);
      s' == s.(coord := c, given := if reply.ReduceTask? then s.given[reply.id := reply.files] else s.given)
    case RunReduce(r, kva) =>
      && r in s.given
      && KeySorted(kva) && multiset(kva) == multiset(Contents(s.files, s.given[r]))
      && s' == s.(files := s.files[Output(r) := Reduced(kva, 0, job.reducef)], reduceRan := s.reduceRan + {r})
    case ReportReduce(r) =>
      && r in s.reduceRan && r < |s.coord.reduceComplete|
      && s' == s.(coord := CheckLastReduceDone(s.coord, r))
  }

  ghost predicate IsRun(job: Job, run: seq<Sys>, acts: seq<Act>) {
    && |run| == |acts| + 1
    && Init(job, run[0])
    && forall i: nat :: i < |acts| ==> Steps(job, run, acts, i)
  }

  ghost predicate Steps(job: Job, run: seq<Sys>, acts: seq<Act>, i: nat)
    requires 0 < job.nReduce && |run| == |acts| + 1 && i < |acts|
  {
    Step(job, run[i], acts[i], run[i + 1])
  }

  // ----- what the outputs must be -----

  /** Everything mapf emits for the first `m` input files, each given its name and contents. */
  function All(job: Job, m: nat): seq<KeyValue>
    requires m <= |job.inputs|
  {
    if m == 0 then [] else All(job, m - 1) + (var (name, contents) := job.inputs[m - 1]; job.mapf(name, contents))
  }

  predicate ReducedFrom(job: Job, line: KeyValue, values: seq<string>) {
    multiset(values) == multiset(ValuesOf(All(job, |job.inputs|), line.key)) && line.value == job.reducef(line.key, values)
  }

  /** The value is the user's reduce over all values emitted for the key, in some order. */
  ghost predicate Reduces(job: Job, line: KeyValue) {
    exists values :: ReducedFrom(job, line, values)
  }

  /** Output `r`: the emitted keys that hash to `r`, once each, in order, each reduced over all its values. */
  ghost predicate Correct(job: Job, r: nat, lines: seq<KeyValue>)
    requires 0 < job.nReduce
  {
    && StrictlySorted(lines)
    && (forall k :: HasKey(lines, k) <==> HasKey(All(job, |job.inputs|), k) && job.ihash(k) % job.nReduce == r)
    && (forall i :: 0 <= i < |lines| ==> Reduces(job, lines[i]))
  }

  // ----- the invariant -----

  /** The numbers below `n`, once each. */
  predicate InOrder(ids: seq<nat>, n: nat) {
    |ids| == n && forall i :: 0 <= i < n ==> ids[i] == i
  }

  predicate CoordOk(job: Job, s: Sys) {
    var c := s.coord;
    && |c.mapComplete| == |job.inputs| && |c.reduceComplete| == job.nReduce
    && c.counterMap <= |job.inputs| && c.counterReduce <= job.nReduce
    && c.doneMap == Count(c.mapComplete) && c.doneReduce == Count(c.reduceComplete)
    && InOrder(s.mapsGiven, c.counterMap) && (forall t :: t in s.mapRan ==> t in s.mapsGiven)
    && (forall t: nat :: t < |job.inputs| && c.mapComplete[t] ==> t in s.mapRan)
    && (forall r :: r in s.reduceRan ==> r in s.given)
    && (forall r: nat :: r < job.nReduce && c.reduceComplete[r] ==> r in s.reduceRan)
  }

  /** The phase barrier: a reduce task is out only when every map task is done, and reads all of them. */
  ghost predicate Barrier(job: Job, s: Sys) {
    && (forall r: nat :: r in s.given <==> r < s.coord.counterReduce)
    && (0 < s.coord.counterReduce ==> s.coord.doneMap == |job.inputs| && s.coord.counterMap == |job.inputs|)
    && (forall r :: r in s.given ==> s.given[r] == ReduceFiles(|job.inputs|, r))
  }

  function Bucket(job: Job, t: nat, b: nat): seq<KeyValue>
    requires 0 < job.nReduce && t < |job.inputs|
  {
    Select(Emitted(job, t), job.ihash, job.nReduce, b)
  }

  /** What a bucket file holds depends only on whether its map task has run; an empty bucket is never written. */
  ghost predicate Intermediates(job: Job, s: Sys)
    requires 0 < job.nReduce
  {
    forall t: nat, b: nat :: t < |job.inputs| && b < job.nReduce ==> FileOk(job, s, t, b)
  }

  predicate FileOk(job: Job, s: Sys, t: nat, b: nat)
    requires 0 < job.nReduce && t < |job.inputs|
  {
    Reads(s.files, Intermediate(t, b)) ==
      if t in s.mapRan && Bucket(job, t, b) != [] then Bucket(job, t, b) else Reads(job.initial, Intermediate(t, b))
  }

  /** What reduce task `r` reads once every map task has run. */
  ghost predicate Read(job: Job, s: Sys, r: nat, kva: seq<KeyValue>) {
    KeySorted(kva) && multiset(kva) == multiset(Contents(s.files, ReduceFiles(|job.inputs|, r)))
  }

  /** An output is the reduction of what its task reads, in some sorted order. */
  ghost predicate OutputIs(job: Job, s: Sys, r: nat) {
    Output(r) in s.files && exists kva :: Read(job, s, r, kva) && s.files[Output(r)] == Reduced(kva, 0, job.reducef)
  }

  ghost predicate Outputs(job: Job, s: Sys) {
    forall r :: r in s.reduceRan ==> OutputIs(job, s, r)
  }

  ghost predicate Inv(job: Job, s: Sys) {
    0 < job.nReduce && CoordOk(job, s) && Barrier(job, s) && Intermediates(job, s) && Outputs(job, s)
  }

  lemma InitInv(job: Job, s: Sys)
    requires Init(job, s)
    ensures Inv(job, s)
  {
    CountNone(|job.inputs|);
    CountNone(job.nReduce);
  }

  // ----- the coordinator's steps -----

  lemma AllMapsRan(job: Job, s: Sys)
    requires CoordOk(job, s) && s.coord.doneMap == |job.inputs|
    ensures s.coord.counterMap == |job.inputs| && forall t: nat :: t < |job.inputs| ==> t in s.mapRan
  {
    CountFull(s.coord.mapComplete);
    if 0 < |job.inputs| { assert |job.inputs| - 1 in s.mapRan; }
  }

  lemma ReportMapOk(job: Job, s: Sys, t: nat)
    requires CoordOk(job, s) && t in s.mapRan && t < |job.inputs|
    ensures CoordOk(job, s.(coord := CheckLastMapDone(s.coord, t)))
  {
    if !s.coord.mapComplete[t] { CountSet(s.coord.mapComplete, t); }
  }

  lemma ReportReduceOk(job: Job, s: Sys, r: nat)
    requires CoordOk(job, s) && r in s.reduceRan && r < job.nReduce
    ensures CoordOk(job, s.(coord := CheckLastReduceDone(s.coord, r)))
  {
    if !s.coord.reduceComplete[r] { CountSet(s.coord.reduceComplete, r); }
  }

  lemma CoordStep(job: Job, s: Sys, a: Act, s': Sys)
    requires 0 < job.nReduce && CoordOk(job, s) && Barrier(job, s) && Step(job, s, a, s')
    ensures CoordOk(job, s')
  {
    match a {
      case ReportMap(t) => ReportMapOk(job, s, t);
      case ReportReduce(r) => ReportReduceOk(job, s, r);
      case GiveMap => assert CoordOk(job, s');
      case GiveReduce => assert CoordOk(job, s');
      case RunMap(_) => assert CoordOk(job, s');
      case RunReduce(_, _) => assert CoordOk(job, s');
    }
  }

  lemma GiveReduceBarrier(job: Job, s: Sys, s': Sys)
    requires 0 < job.nReduce && CoordOk(job, s) && Barrier(job, s) && Step(job, s, GiveReduce, s')
    ensures Barrier(job, s')
  {
    if s.coord.doneMap == |job.inputs| { AllMapsRan(job, s); }
  }

  lemma BarrierStep(job: Job, s: Sys, a: Act, s': Sys)
    requires 0 < job.nReduce && CoordOk(job, s) && Barrier(job, s) && Step(job, s, a, s')
    ensures Barrier(job, s')
  {
    match a {
      case GiveReduce => GiveReduceBarrier(job, s, s');
      case ReportMap(t) =>
        if s.coord.doneMap == |job.inputs| { CountFull(s.coord.mapComplete); }
      case _ =>
    }
  }

  // ----- map tasks -----

  /** A map task leaves alone every file that is not one of its non-empty buckets. */
  lemma Untouched(job: Job, before: Files, after: Files, t: nat, name: string)
    requires 0 < job.nReduce && t < |job.inputs|
    requires Wrote(before, after, t, Emitted(job, t), job.ihash, job.nReduce)
    requires
      || (exists r: nat :: name == Output(r))
      || (exists u: nat, b: nat :: name == Intermediate(u, b) && (u != t || b >= job.nReduce || Bucket(job, t, b) == []))
    ensures (name in after <==> name in before) && (name in before ==> after[name] == before[name])
  {
    forall b: nat | b < job.nReduce && Bucket(job, t, b) != [] ensures name != Intermediate(t, b) {
      if r: nat :| name == Output(r) {
        OutputIsNotIntermediate(r, t, b);
      } else {
        var u: nat, d: nat :| name == Intermediate(u, d) && (u != t || d >= job.nReduce || Bucket(job, t, d) == []);
        if name == Intermediate(t, b) { IntermediateInjective(u, d, t, b); }
      }
    }
  }

  lemma MapIntermediates(job: Job, s: Sys, t: nat, s': Sys)
    requires Inv(job, s) && Step(job, s, RunMap(t), s')
    ensures Intermediates(job, s')
  {
    forall u: nat, b: nat | u < |job.inputs| && b < job.nReduce ensures FileOk(job, s', u, b) {
      assert FileOk(job, s, u, b);
      if u != t || Bucket(job, t, b) == [] {
        Untouched(job, s.files, s'.files, t, Intermediate(u, b));
      }
    }
  }

  lemma {:induction false} SameContents(before: Files, after: Files, names: seq<string>)
    requires forall i :: 0 <= i < |names| ==> Reads(after, names[i]) == Reads(before, names[i])
    ensures Contents(after, names) == Contents(before, names)
  {
    if names != [] {
      SameContents(before, after, names[..|names| - 1]);
    }
  }

  /** Once all map tasks have run, their buckets are settled. */
  lemma SettledContents(job: Job, s: Sys, s': Sys, r: nat)
    requires 0 < job.nReduce && Intermediates(job, s) && Intermediates(job, s') && r < job.nReduce
    requires forall t: nat :: t < |job.inputs| ==> t in s.mapRan && t in s'.mapRan
    ensures Contents(s'.files, ReduceFiles(|job.inputs|, r)) == Contents(s.files, ReduceFiles(|job.inputs|, r))
  {
    var names := ReduceFiles(|job.inputs|, r);
    forall i | 0 <= i < |names| ensures Reads(s'.files, names[i]) == Reads(s.files, names[i]) {
      assert FileOk(job, s, i, r) && FileOk(job, s', i, r);
    }
    SameContents(s.files, s'.files, names);
  }

  lemma OutputStays(job: Job, s: Sys, s': Sys, r: nat)
    requires OutputIs(job, s, r) && Output(r) in s'.files && s'.files[Output(r)] == s.files[Output(r)]
    requires Contents(s'.files, ReduceFiles(|job.inputs|, r)) == Contents(s.files, ReduceFiles(|job.inputs|, r))
    ensures OutputIs(job, s', r)
  {
    var kva :| Read(job, s, r, kva) && s.files[Output(r)] == Reduced(kva, 0, job.reducef);
    assert Read(job, s', r, kva);
  }

  lemma MapOutput(job: Job, s: Sys, t: nat, s': Sys, r: nat)
    requires 0 < job.nReduce && Intermediates(job, s) && Intermediates(job, s') && r < job.nReduce && t < |job.inputs|
    requires forall u: nat :: u < |job.inputs| ==> u in s.mapRan && u in s'.mapRan
    requires Wrote(s.files, s'.files, t, Emitted(job, t), job.ihash, job.nReduce) && OutputIs(job, s, r)
    ensures OutputIs(job, s', r)
  {
    SettledContents(job, s, s', r);
    Untouched(job, s.files, s'.files, t, Output(r));
    OutputStays(job, s, s', r);
  }

  lemma ReducedAfterMaps(job: Job, s: Sys, r: nat)
    requires CoordOk(job, s) && Barrier(job, s) && r in s.reduceRan
    ensures r < job.nReduce && forall t: nat :: t < |job.inputs| ==> t in s.mapRan
  {
    assert r in s.given;
    AllMapsRan(job, s);
  }

  /** So re-running a map task then changes no output. */
  lemma MapOutputs(job: Job, s: Sys, t: nat, s': Sys)
    requires 0 < job.nReduce && CoordOk(job, s) && Barrier(job, s) && Intermediates(job, s) && Outputs(job, s)
    requires Step(job, s, RunMap(t), s') && Intermediates(job, s')
    ensures Outputs(job, s')
  {
    forall r | r in s'.reduceRan ensures OutputIs(job, s', r) {
      ReducedAfterMaps(job, s, r);
      MapOutput(job, s, t, s', r);
    }
  }

  // ----- reduce tasks -----

  lemma {:induction false} SelectConcat(a: seq<KeyValue>, b: seq<KeyValue>, h: Hash, n: nat, r: nat)
    requires 0 < n
    ensures Select(a + b, h, n, r) == Select(a, h, n, r) + Select(b, h, n, r)
  {
    if b == [] {
      assert a + b == a;
    } else {
      var last := |b| - 1;
      assert (a + b)[..|a + b| - 1] == a + b[..last];
      SelectConcat(a, b[..last], h, n, r);
    }
  }

  /** Nothing was left over in the bucket files of reduce task `r` that stay unwritten. */
  ghost predicate Clean(job: Job, r: nat)
    requires 0 < job.nReduce
  {
    forall t: nat :: t < |job.inputs| && Bucket(job, t, r) == [] ==> Reads(job.initial, Intermediate(t, r)) == []
  }

  lemma NextFile(files: Files, m: nat, r: nat)
    requires 0 < m
    ensures Contents(files, ReduceFiles(m, r)) == Contents(files, ReduceFiles(m - 1, r)) + Reads(files, Intermediate(m - 1, r))
  {
    assert ReduceFiles(m, r)[..m - 1] == ReduceFiles(m - 1, r);
  }

  lemma NextBucket(job: Job, m: nat, r: nat)
    requires 0 < job.nReduce && 0 < m <= |job.inputs|
    ensures Select(All(job, m), job.ihash, job.nReduce, r)
         == Select(All(job, m - 1), job.ihash, job.nReduce, r) + Bucket(job, m - 1, r)
  {
    SelectConcat(All(job, m - 1), Emitted(job, m - 1), job.ihash, job.nReduce, r);
  }

  lemma BucketIsRead(job: Job, s: Sys, r: nat, t: nat)
    requires 0 < job.nReduce && r < job.nReduce && t < |job.inputs| && t in s.mapRan && Intermediates(job, s) && Clean(job, r)
    ensures Reads(s.files, Intermediate(t, r)) == Bucket(job, t, r)
  {
    assert FileOk(job, s, t, r);
  }

  predicate IsBucket(job: Job, files: Files, r: nat, t: nat)
    requires 0 < job.nReduce && t < |job.inputs|
  {
    Reads(files, Intermediate(t, r)) == Bucket(job, t, r)
  }

  /** What the first `m` map tasks put in bucket `r`. */
  function Bundle(job: Job, r: nat, m: nat): seq<KeyValue>
    requires 0 < job.nReduce && m <= |job.inputs|
  {
    if m == 0 then [] else Bundle(job, r, m - 1) + Bucket(job, m - 1, r)
  }

  lemma {:induction false} BundleIsSelected(job: Job, r: nat, m: nat)
    requires 0 < job.nReduce && m <= |job.inputs|
    ensures Select(All(job, m), job.ihash, job.nReduce, r) == Bundle(job, r, m)
  {
    if m != 0 {
      BundleIsSelected(job, r, m - 1);
      NextBucket(job, m, r);
    }
  }

  lemma {:induction false} FilesAreBundle(job: Job, files: Files, r: nat, m: nat)
    requires 0 < job.nReduce && m <= |job.inputs| && forall t: nat :: t < m ==> IsBucket(job, files, r, t)
    ensures Contents(files, ReduceFiles(m, r)) == Bundle(job, r, m)
  {
    if m != 0 {
      FilesAreBundle(job, files, r, m - 1);
      NextFile(files, m, r);
      assert IsBucket(job, files, r, m - 1);
    }
  }

  /** Reading a reduce task's files yields exactly the emitted pairs of its bucket, if nothing was left over. */
  lemma ContentsAreBucket(job: Job, s: Sys, r: nat)
    requires 0 < job.nReduce && r < job.nReduce && Intermediates(job, s) && Clean(job, r)
    requires forall t: nat :: t < |job.inputs| ==> t in s.mapRan
    ensures Contents(s.files, ReduceFiles(|job.inputs|, r)) == Select(All(job, |job.inputs|), job.ihash, job.nReduce, r)
  {
    forall t: nat | t < |job.inputs| ensures IsBucket(job, s.files, r, t) { BucketIsRead(job, s, r, t); }
    FilesAreBundle(job, s.files, r, |job.inputs|);
    BundleIsSelected(job, r, |job.inputs|);
  }

  /** How many left-over pairs reduce task `r` reads from the first `m` map tasks' files. */
  function LeftOver(job: Job, r: nat, m: nat): nat
    requires 0 < job.nReduce && m <= |job.inputs|
  {
    if m == 0 then 0
    else LeftOver(job, r, m - 1) + (if Bucket(job, m - 1, r) == [] then |Reads(job.initial, Intermediate(m - 1, r))| else 0)
  }

  predicate Sized(job: Job, files: Files, r: nat, t: nat)
    requires 0 < job.nReduce && t < |job.inputs|
  {
    |Reads(files, Intermediate(t, r))| ==
      |Bucket(job, t, r)| + (if Bucket(job, t, r) == [] then |Reads(job.initial, Intermediate(t, r))| else 0)
  }

  /** How many pairs the first `m` map tasks put in bucket `r`. */
  function Emits(job: Job, r: nat, m: nat): nat
    requires 0 < job.nReduce && m <= |job.inputs|
  {
    if m == 0 then 0 else Emits(job, r, m - 1) + |Bucket(job, m - 1, r)|
  }

  lemma {:induction false} BucketSize(job: Job, r: nat, m: nat)
    requires 0 < job.nReduce && m <= |job.inputs|
    ensures |Select(All(job, m), job.ihash, job.nReduce, r)| == Emits(job, r, m)
  {
    if m != 0 {
      BucketSize(job, r, m - 1);
      NextBucket(job, m, r);
    }
  }

  /** How many pairs the bucket files `r` of the first `m` map tasks hold. */
  function Kept(files: Files, r: nat, m: nat): nat {
    if m == 0 then 0 else Kept(files, r, m - 1) + |Reads(files, Intermediate(m - 1, r))|
  }

  lemma {:induction false} FilesSize(files: Files, r: nat, m: nat)
    ensures |Contents(files, ReduceFiles(m, r))| == Kept(files, r, m)
  {
    if m != 0 {
      FilesSize(files, r, m - 1);
      NextFile(files, m, r);
    }
  }

  lemma {:induction false} KeptSize(job: Job, files: Files, r: nat, m: nat)
    requires 0 < job.nReduce && m <= |job.inputs|
    requires forall t: nat :: t < m ==> Sized(job, files, r, t)
    ensures Kept(files, r, m) == Emits(job, r, m) + LeftOver(job, r, m)
  {
    if m != 0 {
      KeptSize(job, files, r, m - 1);
      assert Sized(job, files, r, m - 1);
    }
  }

  lemma ContentsSize(job: Job, files: Files, r: nat, m: nat)
    requires 0 < job.nReduce && m <= |job.inputs|
    requires forall t: nat :: t < m ==> Sized(job, files, r, t)
    ensures |Contents(files, ReduceFiles(m, r))| == |Select(All(job, m), job.ihash, job.nReduce, r)| + LeftOver(job, r, m)
  {
    FilesSize(files, r, m);
    KeptSize(job, files, r, m);
    BucketSize(job, r, m);
  }

  lemma {:induction false} NothingLeftOver(job: Job, r: nat, m: nat)
    requires 0 < job.nReduce && m <= |job.inputs| && LeftOver(job, r, m) == 0
    ensures forall t: nat :: t < m && Bucket(job, t, r) == [] ==> Reads(job.initial, Intermediate(t, r)) == []
  {
    if m != 0 { NothingLeftOver(job, r, m - 1); }
  }

  lemma {:induction false} SelectKeys(kva: seq<KeyValue>, h: Hash, n: nat, r: nat, k: string)
    requires 0 < n
    ensures HasKey(Select(kva, h, n, r), k) <==> HasKey(kva, k) && h(k) % n == r
  {
    if kva != [] {
      var front, last := kva[..|kva| - 1], kva[|kva| - 1];
      SelectKeys(front, h, n, r, k);
      assert kva == front + [last];
      HasKeyAppend(front, last, k);
      HasKeyAppend(Select(front, h, n, r), last, k);
      assert Select(front, h, n, r) + [] == Select(front, h, n, r);
    }
  }

  lemma {:induction false} SelectValues(kva: seq<KeyValue>, h: Hash, n: nat, r: nat, k: string)
    requires 0 < n && h(k) % n == r
    ensures ValuesOf(Select(kva, h, n, r), k) == ValuesOf(kva, k)
  {
    if kva != [] {
      var front, last := kva[..|kva| - 1], kva[|kva| - 1];
      SelectValues(front, h, n, r, k);
      assert kva == front + [last];
      ValuesOfConcat(front, [last], k);
      ValuesOfConcat(Select(front, h, n, r), [last], k);
      if h(last.key) % n != r {
        assert ValuesOf([last], k) == [];
        assert Select(front, h, n, r) + [] == Select(front, h, n, r);
      }
    }
  }

  lemma HasKeyAppend(front: seq<KeyValue>, last: KeyValue, k: string)
    ensures HasKey(front + [last], k) <==> HasKey(front, k) || last.key == k
  {
    assert (front + [last])[|front|] == last;
    assert forall i :: 0 <= i < |front| ==> (front + [last])[i] == front[i];
  }

  lemma SameKeys(s: seq<KeyValue>, t: seq<KeyValue>, k: string)
    requires multiset(s) == multiset(t)
    ensures HasKey(s, k) ==> HasKey(t, k)
  {
    if HasKey(s, k) {
      var i :| 0 <= i < |s| && s[i].key == k;
      assert s[i] in multiset(s);
      assert s[i] in t;
    }
  }

  lemma LineIsReduced(job: Job, r: nat, kva: seq<KeyValue>, line: KeyValue)
    requires 0 < job.nReduce && job.ihash(line.key) % job.nReduce == r
    requires multiset(kva) == multiset(Select(All(job, |job.inputs|), job.ihash, job.nReduce, r))
    requires line.value == job.reducef(line.key, ValuesOf(kva, line.key))
    ensures Reduces(job, line)
  {
    var all := All(job, |job.inputs|);
    SelectValues(all, job.ihash, job.nReduce, r, line.key);
    ValuesUpToOrder(kva, Select(all, job.ihash, job.nReduce, r), line.key);
    assert ReducedFrom(job, line, ValuesOf(kva, line.key));
  }

  lemma ReduceIsCorrect(job: Job, r: nat, kva: seq<KeyValue>)
    requires 0 < job.nReduce && r < job.nReduce && KeySorted(kva)
    requires multiset(kva) == multiset(Select(All(job, |job.inputs|), job.ihash, job.nReduce, r))
    ensures Correct(job, r, Reduced(kva, 0, job.reducef))
  {
    var all := All(job, |job.inputs|);
    var bucket := Select(all, job.ihash, job.nReduce, r);
    var lines := Reduced(kva, 0, job.reducef);
    ReducedSummarises(kva, 0, job.reducef);
    assert kva[0..] == kva;
    forall k ensures HasKey(lines, k) <==> HasKey(all, k) && job.ihash(k) % job.nReduce == r {
      SelectKeys(all, job.ihash, job.nReduce, r, k);
      SameKeys(kva, bucket, k);
      SameKeys(bucket, kva, k);
    }
    forall i | 0 <= i < |lines| ensures Reduces(job, lines[i]) {
      assert HasKey(lines, lines[i].key);
      LineIsReduced(job, r, kva, lines[i]);
    }
  }

  lemma ReduceReads(s: Sys, a: Act, s': Sys, t: nat, b: nat)
    requires a.RunReduce? && Output(a.r) in s'.files && s'.files == s.files[Output(a.r) := s'.files[Output(a.r)]]
    ensures Reads(s'.files, Intermediate(t, b)) == Reads(s.files, Intermediate(t, b))
  {
    OutputIsNotIntermediate(a.r, t, b);
  }

  lemma ReduceIntermediates(job: Job, s: Sys, a: Act, s': Sys)
    requires Inv(job, s) && a.RunReduce? && Step(job, s, a, s')
    ensures Intermediates(job, s')
  {
    forall t: nat, b: nat | t < |job.inputs| && b < job.nReduce ensures FileOk(job, s', t, b) {
      assert FileOk(job, s, t, b);
      ReduceReads(s, a, s', t, b);
    }
  }

  lemma ReduceContents(s: Sys, a: Act, s': Sys, m: nat, r: nat)
    requires a.RunReduce? && Output(a.r) in s'.files && s'.files == s.files[Output(a.r) := s'.files[Output(a.r)]]
    ensures Contents(s'.files, ReduceFiles(m, r)) == Contents(s.files, ReduceFiles(m, r))
  {
    var names := ReduceFiles(m, r);
    forall i | 0 <= i < |names| ensures Reads(s'.files, names[i]) == Reads(s.files, names[i]) {
      ReduceReads(s, a, s', i, r);
    }
    SameContents(s.files, s'.files, names);
  }

  lemma ReduceOutput(job: Job, s: Sys, a: Act, s': Sys, r: nat)
    requires Inv(job, s) && a.RunReduce? && Step(job, s, a, s') && r in s'.reduceRan
    ensures OutputIs(job, s', r)
  {
    ReduceContents(s, a, s', |job.inputs|, r);
    if r == a.r {
      assert Read(job, s', r, a.kva);
    } else {
      assert OutputIs(job, s, r);
      if Output(r) == Output(a.r) { OutputInjective(r, a.r); }
      OutputStays(job, s, s', r);
    }
  }

  lemma ReduceOutputs(job: Job, s: Sys, a: Act, s': Sys)
    requires Inv(job, s) && a.RunReduce? && Step(job, s, a, s')
    ensures Outputs(job, s')
  {
    forall r | r in s'.reduceRan ensures OutputIs(job, s', r) {
      ReduceOutput(job, s, a, s', r);
    }
  }

  // ----- every run -----

  lemma SameFiles(job: Job, s: Sys, s': Sys)
    requires 0 < job.nReduce && Intermediates(job, s) && Outputs(job, s)
    requires s'.files == s.files && s'.mapRan == s.mapRan && s'.reduceRan == s.reduceRan
    ensures Intermediates(job, s') && Outputs(job, s')
  {
    forall t: nat, b: nat | t < |job.inputs| && b < job.nReduce ensures FileOk(job, s', t, b) {
      assert FileOk(job, s, t, b);
    }
    forall r | r in s'.reduceRan ensures OutputIs(job, s', r) {
      OutputStays(job, s, s', r);
    }
  }

  lemma StepInv(job: Job, s: Sys, a: Act, s': Sys)
    requires Inv(job, s) && Step(job, s, a, s')
    ensures Inv(job, s')
  {
    CoordStep(job, s, a, s');
    BarrierStep(job, s, a, s');
    match a {
      case RunMap(t) =>
        MapIntermediates(job, s, t, s');
        MapOutputs(job, s, t, s');
      case RunReduce(_, _) =>
        ReduceIntermediates(job, s, a, s');
        ReduceOutputs(job, s, a, s');
      case _ => SameFiles(job, s, s');
    }
  }

  lemma {:induction false} RunInv(job: Job, run: seq<Sys>, acts: seq<Act>, k: nat)
    requires 0 < job.nReduce && IsRun(job, run, acts) && k < |run|
    ensures Inv(job, run[k])
  {
    if k == 0 {
      InitInv(job, run[0]);
    } else {
      RunInv(job, run, acts, k - 1);
      assert Steps(job, run, acts, k - 1);
      StepInv(job, run[k - 1], acts[k - 1], run[k]);
    }
  }

  /**
   * When Done() holds, output `r` is correct, whatever was re-executed and however often,
   * if no bucket file it reads that no map task writes was left over from before the job.
   */
  lemma EndToEnd(job: Job, run: seq<Sys>, acts: seq<Act>, k: nat, r: nat)
    requires 0 < job.nReduce && IsRun(job, run, acts) && k < |run| && Done(run[k].coord) && r < job.nReduce && Clean(job, r)
    ensures Output(r) in run[k].files && Correct(job, r, run[k].files[Output(r)])
  {
    var s := run[k];
    RunInv(job, run, acts, k);
    CountFull(s.coord.reduceComplete);
    AllMapsRan(job, s);
    assert OutputIs(job, s, r);
    var kva :| Read(job, s, r, kva) && s.files[Output(r)] == Reduced(kva, 0, job.reducef);
    ContentsAreBucket(job, s, r);
    ReduceIsCorrect(job, r, kva);
  }

  /** That condition is exact: a reduce task reads the pairs of its bucket if and only if nothing was left over. */
  lemma InputIsExact(job: Job, run: seq<Sys>, acts: seq<Act>, k: nat, r: nat)
    requires 0 < job.nReduce && IsRun(job, run, acts) && k < |run| && r in run[k].given
    ensures r < job.nReduce
    ensures
      var bucket := Select(All(job, |job.inputs|), job.ihash, job.nReduce, r);
      multiset(Contents(run[k].files, run[k].given[r])) == multiset(bucket) <==> Clean(job, r)
  {
    var s := run[k];
    RunInv(job, run, acts, k);
    AllMapsRan(job, s);
    if Clean(job, r) {
      ContentsAreBucket(job, s, r);
    } else {
      forall t: nat | t < |job.inputs| ensures Sized(job, s.files, r, t) {
        assert t in s.mapRan && FileOk(job, s, t, r);
      }
      ContentsSize(job, s.files, r, |job.inputs|);
      if LeftOver(job, r, |job.inputs|) == 0 { NothingLeftOver(job, r, |job.inputs|); }
      var contents, bucket := Contents(s.files, s.given[r]), Select(All(job, |job.inputs|), job.ihash, job.nReduce, r);
      assert |multiset(contents)| == |contents| && |multiset(bucket)| == |bucket|;
    }
  }

  lemma {:induction false} ContentsHold(files: Files, names: seq<string>, i: nat, x: KeyValue)
    requires i < |names| && x in Reads(files, names[i])
    ensures x in Contents(files, names)
  {
    if i < |names| - 1 { ContentsHold(files, names[..|names| - 1], i, x); }
  }

  /** A left-over pair whose key does not belong in output `r` is there whenever Done() holds. */
  lemma LeftOverShows(job: Job, run: seq<Sys>, acts: seq<Act>, k: nat, r: nat, t: nat, x: KeyValue)
    requires 0 < job.nReduce && IsRun(job, run, acts) && k < |run| && Done(run[k].coord) && r < job.nReduce
    requires t < |job.inputs| && Bucket(job, t, r) == [] && x in Reads(job.initial, Intermediate(t, r))
    requires HasKey(All(job, |job.inputs|), x.key) ==> job.ihash(x.key) % job.nReduce != r
    ensures Output(r) in run[k].files && HasKey(run[k].files[Output(r)], x.key) && !Correct(job, r, run[k].files[Output(r)])
  {
    var s, names := run[k], ReduceFiles(|job.inputs|, r);
    RunInv(job, run, acts, k);
    CountFull(s.coord.reduceComplete);
    AllMapsRan(job, s);
    assert OutputIs(job, s, r);
    var kva :| Read(job, s, r, kva) && s.files[Output(r)] == Reduced(kva, 0, job.reducef);
    assert FileOk(job, s, t, r);
    ContentsHold(s.files, names, t, x);
    assert HasKey(Contents(s.files, names), x.key);
    SameKeys(Contents(s.files, names), kva, x.key);
    ReducedSummarises(kva, 0, job.reducef);
    assert kva[0..] == kva;
  }

  /** A reduce task is given only when every map task has run, and its files are all of theirs. */
  lemma PhaseBarrier(job: Job, run: seq<Sys>, acts: seq<Act>, k: nat, r: nat)
    requires 0 < job.nReduce && IsRun(job, run, acts) && k < |run| && r in run[k].given
    ensures run[k].coord.doneMap == |job.inputs| == run[k].coord.counterMap
    ensures forall t: nat :: t < |job.inputs| ==> t in run[k].mapRan
    ensures run[k].given[r] == ReduceFiles(|job.inputs|, r)
  {
    RunInv(job, run, acts, k);
    AllMapsRan(job, run[k]);
  }

  /** In every run each map task below counterMap has been given exactly once, and no other. */
  lemma MapsGivenOnce(job: Job, run: seq<Sys>, acts: seq<Act>, k: nat)
    requires 0 < job.nReduce && IsRun(job, run, acts) && k < |run|
    ensures var ids := run[k].mapsGiven;
      && (forall t: nat :: t in ids <==> t < run[k].coord.counterMap)
      && (forall i, j :: 0 <= i < j < |ids| ==> ids[i] != ids[j])
  {
    RunInv(job, run, acts, k);
    var ids := run[k].mapsGiven;
    forall t: nat ensures t in ids <==> t < run[k].coord.counterMap {
      if t < |ids| { assert ids[t] == t; }
    }
  }

  /** In every run a worker asking for a map task is told there is none exactly when all are given, else gets a new one. */
  lemma MapReplyMeans(job: Job, run: seq<Sys>, acts: seq<Act>, k: nat)
    requires 0 < job.nReduce && IsRun(job, run, acts) && k < |run|
    ensures
      match GiveMapTask(run[k].coord).1
      case NoMapTask => forall t: nat :: t < |job.inputs| ==> t in run[k].mapsGiven
      case MapTask(id) => id < |job.inputs| && id !in run[k].mapsGiven
  {
    RunInv(job, run, acts, k);
    MapsGivenOnce(job, run, acts, k);
  }

  /**
   * In every run a worker asking for a reduce task is told to wait exactly while some map task has not been reported,
   * told there is none when all have been given, else gets a new one with the files of all map tasks.
   */
  lemma ReduceReplyMeans(job: Job, run: seq<Sys>, acts: seq<Act>, k: nat)
    requires 0 < job.nReduce && IsRun(job, run, acts) && k < |run|
    ensures |run[k].coord.mapComplete| == |job.inputs|
    ensures
      var s := run[k];
      match GiveReduceTask(s.coord).1
      case Wait => exists t: nat :: t < |job.inputs| && !s.coord.mapComplete[t]
      case NoReduceTask => (forall t: nat :: t < |job.inputs| ==> s.coord.mapComplete[t]) && forall r: nat :: r < job.nReduce ==> r in s.given
      case ReduceTask(id, files) =>
        && (forall t: nat :: t < |job.inputs| ==> s.coord.mapComplete[t])
        && id < job.nReduce && id !in s.given && |files| == |job.inputs|
        && forall t: nat :: t < |job.inputs| ==> files[t] == Intermediate(t, id)
  {
    RunInv(job, run, acts, k);
    CountFull(run[k].coord.mapComplete);
    if run[k].coord.doneMap == |job.inputs| { AllMapsRan(job, run[k]); }
  }

  lemma RunCoord(job: Job, run: seq<Sys>, acts: seq<Act>, k: nat)
    requires 0 < job.nReduce && IsRun(job, run, acts) && k < |run|
    ensures CoordOk(job, run[k])
  {
    RunInv(job, run, acts, k);
  }

  lemma DoneStep(job: Job, s: Sys, a: Act, s': Sys)
    requires 0 < job.nReduce && CoordOk(job, s) && Done(s.coord) && Step(job, s, a, s')
    ensures Done(s'.coord)
  {
    CountFull(s.coord.mapComplete);
    CountFull(s.coord.reduceComplete);
  }

  /** Done() never reverts. */
  lemma {:induction false} DoneIsFinal(job: Job, run: seq<Sys>, acts: seq<Act>, i: nat, k: nat)
    requires 0 < job.nReduce && IsRun(job, run, acts) && i <= k < |run| && Done(run[i].coord)
    ensures Done(run[k].coord)
  {
    if i < k {
      DoneIsFinal(job, run, acts, i, k - 1);
      RunCoord(job, run, acts, k - 1);
      assert Steps(job, run, acts, k - 1);
      DoneStep(job, run[k - 1], acts[k - 1], run[k]);
    }
  }

  /** Runs in which the same map tasks ran, in any order and any number of times, leave the same buckets. */
  lemma ReexecutionIsHarmless(
    job: Job, run: seq<Sys>, acts: seq<Act>, run': seq<Sys>, acts': seq<Act>, k: nat, k': nat, t: nat, b: nat)
    requires 0 < job.nReduce && IsRun(job, run, acts) && IsRun(job, run', acts') && k < |run| && k' < |run'|
    requires run[k].mapRan == run'[k'].mapRan && t < |job.inputs| && b < job.nReduce
    ensures Reads(run[k].files, Intermediate(t, b)) == Reads(run'[k'].files, Intermediate(t, b))
  {
    RunInv(job, run, acts, k);
    RunInv(job, run', acts', k');
    assert FileOk(job, run[k], t, b) && FileOk(job, run'[k'], t, b);
  }
}
