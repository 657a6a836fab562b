/**
 * The MapReduce worker: splitting a map task's pairs into buckets, reading the
 * buckets back sorted by key, and reducing each run of equal keys to one line.
 */
module MrWorker {
  import opened MrNames

  datatype KeyValue = KeyValue(key: string, value: string)

  /** Every file as the sequence of records it holds; an output line is a key and a result. */
  type Files = map<string, seq<KeyValue>>

  type Hash = string -> nat
  type Reducer = (string, seq<string>) -> string

  /** What reading a file yields; a missing file reads as empty. */
  function Reads(files: Files, name: string): seq<KeyValue> {
    if name in files then files[name] else []
  }

  // ----- the order of keys -----

  /** Lexicographic order on strings. */
  predicate Below(a: string, b: string) {
    b != [] && (a == [] || a[0] < b[0] || (a[0] == b[0] && Below(a[1..], b[1..])))
  }

  lemma {:induction false} BelowTotal(a: string, b: string)
    ensures a == b || Below(a, b) || Below(b, a)
    ensures !(Below(a, b) && Below(b, a)) && (a == b ==> !Below(a, b))
  {
    if a != [] && b != [] {
      BelowTotal(a[1..], b[1..]);
      if a[0] == b[0] && a[1..] == b[1..] {
        assert a == [a[0]] + a[1..] && b == [b[0]] + b[1..];
      }
    }
  }

  lemma {:induction false} BelowTransitive(a: string, b: string, c: string)
    requires Below(a, b) && Below(b, c)
    ensures Below(a, c)
  {
    if a != [] && a[0] == b[0] == c[0] {
      BelowTransitive(a[1..], b[1..], c[1..]);
    }
  }

  /** `a` and `b` agree on the first `k` characters, and `a` ends there or has the smaller one. */
  predicate DiffersAt(a: string, b: string, k: nat) {
    k <= |a| && k < |b| && a[..k] == b[..k] && (k == |a| || a[k] < b[k])
  }

  lemma SameStart(a: string, b: string, k: nat)
    requires DiffersAt(a, b, k)
    ensures k == 0 || (a != [] && b != [] && a[0] == b[0])
  {
    if k != 0 { assert a[0] == a[..k][0] == b[..k][0] == b[0]; }
  }

  /** The order is that of the first difference, a proper prefix coming first. */
  lemma {:induction false} BelowExactly(a: string, b: string)
    ensures Below(a, b) <==> exists k: nat :: DiffersAt(a, b, k)
  {
    if a == [] || b == [] || a[0] != b[0] {
      if Below(a, b) { assert DiffersAt(a, b, 0); }
      if k: nat :| DiffersAt(a, b, k) { SameStart(a, b, k); }
    } else {
      BelowExactly(a[1..], b[1..]);
      if Below(a, b) {
        var k: nat :| DiffersAt(a[1..], b[1..], k);
        assert a[..k + 1] == [a[0]] + a[1..][..k] && b[..k + 1] == [b[0]] + b[1..][..k];
        assert DiffersAt(a, b, k + 1);
      }
      if k: nat :| DiffersAt(a, b, k) {
        assert a[1..][..k - 1] == a[..k][1..] && b[1..][..k - 1] == b[..k][1..];
        assert DiffersAt(a[1..], b[1..], k - 1);
      }
    }
  }

  predicate KeySorted(kva: seq<KeyValue>) {
    forall i, j :: 0 <= i < j < |kva| ==> !Below(kva[j].key, kva[i].key)
  }

  function Insert(kva: seq<KeyValue>, x: KeyValue): seq<KeyValue> {
    if kva == [] || Below(x.key, kva[0].key) then [x] + kva else [kva[0]] + Insert(kva[1..], x)
  }

  lemma {:induction false} InsertCounts(kva: seq<KeyValue>, x: KeyValue)
    ensures multiset(Insert(kva, x)) == multiset(kva) + multiset{x}
  {
    if kva != [] && !Below(x.key, kva[0].key) {
      InsertCounts(kva[1..], x);
      assert kva == [kva[0]] + kva[1..];
    }
  }

  lemma {:induction false} InsertSorts(kva: seq<KeyValue>, x: KeyValue)
    requires KeySorted(kva)
    ensures KeySorted(Insert(kva, x))
  {
    if kva == [] {
    } else if Below(x.key, kva[0].key) {
      forall j | 0 <= j < |kva| ensures !Below(kva[j].key, x.key) {
        if Below(kva[j].key, x.key) { BelowTransitive(kva[j].key, x.key, kva[0].key); }
        BelowTotal(x.key, kva[0].key);
      }
    } else {
      var rest := Insert(kva[1..], x);
      InsertSorts(kva[1..], x);
      InsertCounts(kva[1..], x);
      forall j | 0 <= j < |rest| ensures !Below(rest[j].key, kva[0].key) {
        assert rest[j] in multiset(rest);
        assert rest[j] == x || rest[j] in kva[1..];
      }
    }
  }

  /** sort.Sort(ByKey): which of the sorted permutations it returns is not specified. */
  method SortByKey(kva: seq<KeyValue>) returns (r: seq<KeyValue>)
    ensures KeySorted(r) && multiset(r) == multiset(kva)
  {
    r := [];
    for i := 0 to |kva|
      invariant KeySorted(r) && multiset(r) == multiset(kva[..i])
    {
      assert kva[..i + 1] == kva[..i] + [kva[i]];
      InsertSorts(r, kva[i]);
      InsertCounts(r, kva[i]);
      r := Insert(r, kva[i]);
    }
    assert kva[..|kva|] == kva;
  }

  // ----- buckets -----

  /** The pairs of `kva` that go to bucket `b`, in order. */
  function Select(kva: seq<KeyValue>, h: Hash, n: nat, b: nat): seq<KeyValue>
    requires 0 < n
  {
    if kva == [] then []
    else
      var last := kva[|kva| - 1];
      Select(kva[..|kva| - 1], h, n, b) + (if h(last.key) % n == b then [last] else [])
  }

  /** `after` is `before` once map task `t` has written its buckets. */
  ghost predicate Wrote(before: Files, after: Files, t: nat, kva: seq<KeyValue>, h: Hash, n: nat)
    requires 0 < n
  {
    && (forall b: nat :: b < n && Select(kva, h, n, b) != [] ==>
         Intermediate(t, b) in after && after[Intermediate(t, b)] == Select(kva, h, n, b))
    && (forall name :: (forall b: nat :: b < n && Select(kva, h, n, b) != [] ==> name != Intermediate(t, b)) ==>
         (name in after <==> name in before) && (name in before ==> after[name] == before[name]))
  }

  class FileSystem {
    var files: Files

    constructor (files: Files)
      ensures this.files == files
    {
      this.files := files;
    }

    /** os.OpenFile with O_CREATE and O_TRUNC. */
    method Truncate(name: string)
      modifies this
      ensures files == old(files)[name := []]
    {
      files := files[name := []];
    }

    method Encode(name: string, kv: KeyValue)
      requires name in files
      modifies this
      ensures files == old(files)[name := old(files)[name] + [kv]]
    {
      files := files[name := files[name] + [kv]];
    }
  }

  /** The buckets whose file is open after `kva` has been written. */
  ghost predicate Opened(handles: set<nat>, kva: seq<KeyValue>, h: Hash, n: nat)
    requires 0 < n
  {
    forall b: nat :: b in handles <==> b < n && Select(kva, h, n, b) != []
  }

  /** A bucket's file is truncated when its first pair arrives and appended to afterwards. */
  method BucketByIntermediateKey(fs: FileSystem, kva: seq<KeyValue>, t: nat, h: Hash, n: nat)
    requires 0 < n
    modifies fs
    ensures Wrote(old(fs.files), fs.files, t, kva, h, n)
  {
    var handles: set<nat> := {};
    for i := 0 to |kva|
      invariant Opened(handles, kva[..i], h, n)
      invariant Wrote(old(fs.files), fs.files, t, kva[..i], h, n)
    {
      assert kva[..i + 1][..i] == kva[..i];
      handles := WritePair(fs, handles, kva[..i + 1], t, h, n, old(fs.files));
    }
    assert kva[..|kva|] == kva;
  }

  /** One turn of the loop: the last pair of `kva` goes to its bucket. */
  method WritePair(fs: FileSystem, handles: set<nat>, kva: seq<KeyValue>, t: nat, h: Hash, n: nat, ghost start: Files)
    returns (handles': set<nat>)
    requires 0 < n && kva != []
    requires Opened(handles, kva[..|kva| - 1], h, n) && Wrote(start, fs.files, t, kva[..|kva| - 1], h, n)
    modifies fs
    ensures Opened(handles', kva, h, n) && Wrote(start, fs.files, t, kva, h, n)
  {
    var kv := kva[|kva| - 1];
    var b := h(kv.key) % n;
    ghost var before := fs.files;
    if b !in handles {
      fs.Truncate(Intermediate(t, b));
    }
    handles' := handles + {b};
    fs.Encode(Intermediate(t, b), kv);
    WroteOneMore(start, before, fs.files, t, kva, h, n);
  }

  lemma WroteOneMore(start: Files, before: Files, after: Files, t: nat, kva: seq<KeyValue>, h: Hash, n: nat)
    requires 0 < n && kva != []
    requires Wrote(start, before, t, kva[..|kva| - 1], h, n)
    requires
      var b := h(kva[|kva| - 1].key) % n;
      after == before[Intermediate(t, b) := Select(kva, h, n, b)]
    ensures Wrote(start, after, t, kva, h, n)
  {
    var last := h(kva[|kva| - 1].key) % n;
    forall b: nat | b < n && Select(kva, h, n, b) != []
      ensures Intermediate(t, b) in after && after[Intermediate(t, b)] == Select(kva, h, n, b)
    {
      if b != last && Intermediate(t, b) == Intermediate(t, last) {
        IntermediateInjective(t, b, t, last);
      }
    }
  }
}
