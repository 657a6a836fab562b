/** Reading buckets back and reducing them: one line per distinct key, in key order. */
module MrReduce {
  import opened MrWorker

  /** The records of several files, one after the other. */
  function Contents(files: Files, names: seq<string>): seq<KeyValue> {
    if names == [] then []
    else Contents(files, names[..|names| - 1]) + Reads(files, names[|names| - 1])
  }

  method ReadIntermediates(fs: FileSystem, names: seq<string>) returns (kva: seq<KeyValue>)
    ensures KeySorted(kva) && multiset(kva) == multiset(Contents(fs.files, names))
  {
    var all: seq<KeyValue> := [];
    for i := 0 to |names|
      invariant all == Contents(fs.files, names[..i])
    {
      assert names[..i + 1][..i] == names[..i];
      if names[i] in fs.files {
        all := all + fs.files[names[i]];
      }
    }
    assert names[..|names|] == names;
    kva := SortByKey(all);
  }

  // ----- runs of equal keys -----

  function Values(kva: seq<KeyValue>): (r: seq<string>)
    ensures |r| == |kva|
  {
    seq(|kva|, i requires 0 <= i < |kva| => kva[i].value)
  }

  /** End of the run of equal keys that starts at `i`, known to reach `j`. */
  function RunEnd(kva: seq<KeyValue>, i: nat, j: nat): (r: nat)
    requires i < j <= |kva| && forall k :: i <= k < j ==> kva[k].key == kva[i].key
    ensures j <= r <= |kva| && forall k :: i <= k < r ==> kva[k].key == kva[i].key
    ensures r < |kva| ==> kva[r].key != kva[i].key
    decreases |kva| - j
  {
    if j < |kva| && kva[j].key == kva[i].key then RunEnd(kva, i, j + 1) else j
  }

  /** The runs of equal keys from `i` on. */
  function Runs(kva: seq<KeyValue>, i: nat): seq<seq<KeyValue>>
    requires i <= |kva|
    decreases |kva| - i
  {
    if i == |kva| then []
    else
      var j := RunEnd(kva, i, i + 1);
      [kva[i..j]] + Runs(kva, j)
  }

  function Concat(runs: seq<seq<KeyValue>>): seq<KeyValue> {
    if runs == [] then [] else runs[0] + Concat(runs[1..])
  }

  function KeyOf(run: seq<KeyValue>): string {
    if run == [] then "" else run[0].key
  }

  predicate IsRun(run: seq<KeyValue>) {
    run != [] && forall i :: 0 <= i < |run| ==> run[i].key == KeyOf(run)
  }

  /** Runs of equal keys that cannot be joined. */
  predicate Maximal(runs: seq<seq<KeyValue>>) {
    && (forall i :: 0 <= i < |runs| ==> IsRun(runs[i]))
    && (forall i: nat :: i + 1 < |runs| ==> Apart(runs, i))
  }

  predicate Apart(runs: seq<seq<KeyValue>>, i: nat)
    requires i + 1 < |runs|
  {
    KeyOf(runs[i]) != KeyOf(runs[i + 1])
  }

  lemma MaximalPrepend(run: seq<KeyValue>, rest: seq<seq<KeyValue>>)
    requires IsRun(run) && Maximal(rest) && (rest != [] ==> KeyOf(run) != KeyOf(rest[0]))
    ensures Maximal([run] + rest)
  {
    var runs := [run] + rest;
    forall i: nat | i + 1 < |runs| ensures Apart(runs, i) {
      if 0 < i { assert Apart(rest, i - 1); }
    }
  }

  lemma ConcatPrepend(run: seq<KeyValue>, rest: seq<seq<KeyValue>>)
    ensures Concat([run] + rest) == run + Concat(rest)
  {
    assert ([run] + rest)[1..] == rest;
  }

  lemma {:induction false} RunsConcat(kva: seq<KeyValue>, i: nat)
    requires i <= |kva|
    ensures Concat(Runs(kva, i)) == kva[i..]
    decreases |kva| - i
  {
    if i < |kva| {
      var j := RunEnd(kva, i, i + 1);
      RunsConcat(kva, j);
      ConcatPrepend(kva[i..j], Runs(kva, j));
      assert kva[i..j] + kva[j..] == kva[i..];
    }
  }

  lemma {:induction false} RunsMaximal(kva: seq<KeyValue>, i: nat)
    requires i <= |kva|
    ensures Maximal(Runs(kva, i))
    ensures i < |kva| ==> Runs(kva, i) != [] && KeyOf(Runs(kva, i)[0]) == kva[i].key
    decreases |kva| - i
  {
    if i < |kva| {
      var j := RunEnd(kva, i, i + 1);
      RunsMaximal(kva, j);
      MaximalPrepend(kva[i..j], Runs(kva, j));
    }
  }

  /** The runs are maximal, and laid end to end they are the input. */
  lemma RunsPartition(kva: seq<KeyValue>, i: nat)
    requires i <= |kva|
    ensures Concat(Runs(kva, i)) == kva[i..] && Maximal(Runs(kva, i))
    ensures i < |kva| ==> Runs(kva, i) != [] && KeyOf(Runs(kva, i)[0]) == kva[i].key
  {
    RunsConcat(kva, i);
    RunsMaximal(kva, i);
  }

  function Line(run: seq<KeyValue>, f: Reducer): KeyValue
    requires run != []
  {
    KeyValue(run[0].key, f(run[0].key, Values(run)))
  }

  /** The lines for the pairs from `i` on: reducef once per run. */
  function Reduced(kva: seq<KeyValue>, i: nat, f: Reducer): seq<KeyValue>
    requires i <= |kva|
    decreases |kva| - i
  {
    if i == |kva| then []
    else
      var j := RunEnd(kva, i, i + 1);
      [Line(kva[i..j], f)] + Reduced(kva, j, f)
  }

  /** The lines are those of the runs. */
  lemma {:induction false} LinesAreRuns(kva: seq<KeyValue>, i: nat, f: Reducer)
    requires i <= |kva|
    ensures |Reduced(kva, i, f)| == |Runs(kva, i)|
    ensures forall k :: 0 <= k < |Runs(kva, i)| ==> Runs(kva, i)[k] != [] && Reduced(kva, i, f)[k] == Line(Runs(kva, i)[k], f)
    decreases |kva| - i
  {
    if i < |kva| { LinesAreRuns(kva, RunEnd(kva, i, i + 1), f); }
  }

  lemma ReducedNext(kva: seq<KeyValue>, i: nat, f: Reducer, lines: seq<KeyValue>)
    requires i < |kva|
    ensures
      var j := RunEnd(kva, i, i + 1);
      lines + Reduced(kva, i, f) == (lines + [Line(kva[i..j], f)]) + Reduced(kva, j, f)
  {
    var j := RunEnd(kva, i, i + 1);
    assert lines + ([Line(kva[i..j], f)] + Reduced(kva, j, f)) == (lines + [Line(kva[i..j], f)]) + Reduced(kva, j, f);
  }

  method PerformReduce(fs: FileSystem, f: Reducer, kva: seq<KeyValue>, name: string)
    modifies fs
    ensures fs.files == old(fs.files)[name := Reduced(kva, 0, f)]
  {
    fs.Truncate(name);
    ghost var lines: seq<KeyValue> := [];
    var i := 0;
    while i < |kva|
      invariant i <= |kva|
      invariant fs.files == old(fs.files)[name := lines]
      invariant lines + Reduced(kva, i, f) == Reduced(kva, 0, f)
    {
      ReducedNext(kva, i, f, lines);
      var j := ReduceRun(fs, f, kva, i, name);
      lines := lines + [Line(kva[i..j], f)];
      i := j;
    }
    assert lines + [] == lines;
  }

  /** One turn of the loop: find the run at `i`, collect its values, write its line. */
  method ReduceRun(fs: FileSystem, f: Reducer, kva: seq<KeyValue>, i: nat, name: string) returns (j: nat)
    requires i < |kva| && name in fs.files
    modifies fs
    ensures j == RunEnd(kva, i, i + 1)
    ensures fs.files == old(fs.files)[name := old(fs.files)[name] + [Line(kva[i..j], f)]]
  {
    j := i + 1;
    while j < |kva| && kva[j].key == kva[i].key
      invariant i < j <= |kva| && forall k :: i <= k < j ==> kva[k].key == kva[i].key
      invariant RunEnd(kva, i, j) == RunEnd(kva, i, i + 1)
    {
      j := j + 1;
    }
    var values: seq<string> := [];
    for k := i to j
      invariant values == Values(kva[i..k])
    {
      assert kva[i..k + 1] == kva[i..k] + [kva[k]];
      values := values + [kva[k].value];
    }
    fs.Encode(name, KeyValue(kva[i].key, f(kva[i].key, values)));
  }

  // ----- what sorted input reduces to -----

  /** The values of the pairs with key `k`, in order. */
  function ValuesOf(kva: seq<KeyValue>, k: string): seq<string> {
    if kva == [] then []
    else (if kva[0].key == k then [kva[0].value] else []) + ValuesOf(kva[1..], k)
  }

  lemma {:induction false} ValuesOfConcat(a: seq<KeyValue>, b: seq<KeyValue>, k: string)
    ensures ValuesOf(a + b, k) == ValuesOf(a, k) + ValuesOf(b, k)
  {
    if a == [] {
      assert a + b == b;
    } else {
      assert (a + b)[1..] == a[1..] + b;
      ValuesOfConcat(a[1..], b, k);
    }
  }

  lemma {:induction false} ValuesOfRun(run: seq<KeyValue>, k: string, same: bool)
    requires forall i :: 0 <= i < |run| ==> (run[i].key == k) == same
    ensures ValuesOf(run, k) == if same then Values(run) else []
  {
    if run != [] {
      ValuesOfRun(run[1..], k, same);
      assert Values(run) == [run[0].value] + Values(run[1..]);
    }
  }

  /** How often a value occurs under a key depends only on how often the pair occurs. */
  lemma {:induction false} ValuesCounted(kva: seq<KeyValue>, k: string, v: string)
    ensures multiset(ValuesOf(kva, k))[v] == multiset(kva)[KeyValue(k, v)]
  {
    if kva != [] {
      ValuesCounted(kva[1..], k, v);
      assert kva == [kva[0]] + kva[1..];
    }
  }

  lemma ValuesUpToOrder(s: seq<KeyValue>, t: seq<KeyValue>, k: string)
    requires multiset(s) == multiset(t)
    ensures multiset(ValuesOf(s, k)) == multiset(ValuesOf(t, k))
  {
    forall v ensures multiset(ValuesOf(s, k))[v] == multiset(ValuesOf(t, k))[v] {
      ValuesCounted(s, k, v);
      ValuesCounted(t, k, v);
    }
  }

  predicate HasKey(kva: seq<KeyValue>, k: string) {
    exists i :: 0 <= i < |kva| && kva[i].key == k
  }

  predicate StrictlySorted(lines: seq<KeyValue>) {
    forall i, j :: 0 <= i < j < |lines| ==> Below(lines[i].key, lines[j].key)
  }

  /** One line per key, in order, reducing all the values under that key. */
  ghost predicate Summarises(lines: seq<KeyValue>, kva: seq<KeyValue>, f: Reducer) {
    && StrictlySorted(lines)
    && (forall k :: HasKey(lines, k) <==> HasKey(kva, k))
    && (forall i :: 0 <= i < |lines| ==> lines[i].value == f(lines[i].key, ValuesOf(kva, lines[i].key)))
  }

  lemma RestIsAbove(kva: seq<KeyValue>, i: nat, j: nat)
    requires KeySorted(kva) && i < |kva| && j == RunEnd(kva, i, i + 1)
    ensures forall k :: 0 <= k < |kva[j..]| ==> Below(kva[i].key, kva[j..][k].key)
  {
    forall k | j <= k < |kva| ensures Below(kva[i].key, kva[k].key) {
      BelowTotal(kva[i].key, kva[k].key);
      BelowTotal(kva[i].key, kva[j].key);
    }
  }

  lemma {:induction false} ReducedSummarises(kva: seq<KeyValue>, i: nat, f: Reducer)
    requires KeySorted(kva) && i <= |kva|
    ensures Summarises(Reduced(kva, i, f), kva[i..], f)
    decreases |kva| - i
  {
    if i < |kva| {
      var j := RunEnd(kva, i, i + 1);
      RestIsAbove(kva, i, j);
      ReducedSummarises(kva, j, f);
      PrependLine(kva[i..j], kva[j..], Reduced(kva, j, f), f);
      assert kva[i..] == kva[i..j] + kva[j..];
    }
  }

  lemma PrependLine(run: seq<KeyValue>, rest: seq<KeyValue>, tail: seq<KeyValue>, f: Reducer)
    requires IsRun(run) && forall i :: 0 <= i < |rest| ==> Below(run[0].key, rest[i].key)
    requires Summarises(tail, rest, f)
    ensures Summarises([Line(run, f)] + tail, run + rest, f)
  {
    var lines := [Line(run, f)] + tail;
    TailIsAbove(run[0].key, rest, tail);
    forall k ensures HasKey(lines, k) <==> HasKey(run + rest, k) {
      KeysPrepend(run, rest, tail, k, f);
    }
    forall i | 0 <= i < |lines| ensures lines[i].value == f(lines[i].key, ValuesOf(run + rest, lines[i].key)) {
      if 0 < i { assert lines[i] == tail[i - 1]; }
      ValuesPrepend(run, rest, lines[i].key);
      BelowTotal(run[0].key, lines[i].key);
    }
  }

  lemma TailIsAbove(k0: string, rest: seq<KeyValue>, tail: seq<KeyValue>)
    requires forall i :: 0 <= i < |rest| ==> Below(k0, rest[i].key)
    requires forall k :: HasKey(tail, k) <==> HasKey(rest, k)
    ensures forall i :: 0 <= i < |tail| ==> Below(k0, tail[i].key)
  {
    forall i | 0 <= i < |tail| ensures Below(k0, tail[i].key) {
      assert HasKey(tail, tail[i].key);
    }
  }

  lemma ValuesPrepend(run: seq<KeyValue>, rest: seq<KeyValue>, k: string)
    requires IsRun(run) && forall i :: 0 <= i < |rest| ==> Below(run[0].key, rest[i].key)
    requires k == run[0].key || Below(run[0].key, k)
    ensures ValuesOf(run + rest, k) == if k == run[0].key then Values(run) else ValuesOf(rest, k)
  {
    ValuesOfConcat(run, rest, k);
    BelowTotal(run[0].key, run[0].key);
    ValuesOfRun(run, k, k == run[0].key);
    if k == run[0].key { ValuesOfRun(rest, k, false); }
  }

  lemma KeysPrepend(run: seq<KeyValue>, rest: seq<KeyValue>, tail: seq<KeyValue>, k: string, f: Reducer)
    requires IsRun(run) && (HasKey(tail, k) <==> HasKey(rest, k))
    ensures HasKey([Line(run, f)] + tail, k) <==> HasKey(run + rest, k)
  {
    var lines := [Line(run, f)] + tail;
    assert forall i :: 0 <= i < |tail| ==> lines[i + 1] == tail[i];
    assert forall i :: 0 <= i < |rest| ==> (run + rest)[|run| + i] == rest[i];
    assert lines[0].key == run[0].key && (run + rest)[0] == run[0];
  }
}
