/** The MapReduce coordinator as a value: task counters, completion flags, and its handlers. */
module MrCoordinator {
  import opened MrNames

  datatype Coord = Coord(
    counterMap: nat, counterReduce: nat, doneMap: nat, doneReduce: nat,
    mapComplete: seq<bool>, reduceComplete: seq<bool>)

  /** io.EOF, or the number of the map task given. */
  datatype MapReply = NoMapTask | MapTask(id: nat)

  /** Task -1 (maps still running), io.EOF, or a reduce task with the files to read. */
  datatype ReduceReply = Wait | NoReduceTask | ReduceTask(id: nat, files: seq<string>)

  function Fresh(maps: nat, reduces: nat): Coord {
    Coord(0, 0, 0, 0, seq(maps, i => false), seq(reduces, i => false))
  }

  function GiveMapTask(c: Coord): (Coord, MapReply) {
    if c.counterMap >= |c.mapComplete| then (c, NoMapTask)
    else (c.(counterMap := c.counterMap + 1), MapTask(c.counterMap))
  }

  /** The bucket files of reduce task `r` over the first `maps` map tasks. */
  function ReduceFiles(maps: nat, r: nat): (names: seq<string>)
    ensures |names| == maps && forall i :: 0 <= i < maps ==> names[i] == Intermediate(i, r)
  {
    seq(maps, i requires 0 <= i < maps => Intermediate(i, r))
  }

  function GiveReduceTask(c: Coord): (Coord, ReduceReply) {
    if c.doneMap != |c.mapComplete| then (c, Wait)
    else if c.counterReduce >= |c.reduceComplete| then (c, NoReduceTask)
    else (c.(counterReduce := c.counterReduce + 1), ReduceTask(c.counterReduce, ReduceFiles(c.counterMap, c.counterReduce)))
  }

  function CheckLastMapDone(c: Coord, id: nat): Coord
    requires id < |c.mapComplete|
  {
    if c.mapComplete[id] then c else c.(mapComplete := c.mapComplete[id := true], doneMap := c.doneMap + 1)
  }

  function CheckLastReduceDone(c: Coord, id: nat): Coord
    requires id < |c.reduceComplete|
  {
    if c.reduceComplete[id] then c else c.(reduceComplete := c.reduceComplete[id := true], doneReduce := c.doneReduce + 1)
  }

  predicate Done(c: Coord) {
    c.doneMap == |c.mapComplete| && c.doneReduce == |c.reduceComplete|
  }

  // ----- counting flags -----

  function Count(flags: seq<bool>): (n: nat)
    ensures n <= |flags|
  {
    if flags == [] then 0 else Count(flags[..|flags| - 1]) + (if flags[|flags| - 1] then 1 else 0)
  }

  lemma {:induction false} CountSet(flags: seq<bool>, i: nat)
    requires i < |flags| && !flags[i]
    ensures Count(flags[i := true]) == Count(flags) + 1
  {
    var n := |flags| - 1;
    var after := flags[i := true];
    if i < n {
      assert after[..n] == flags[..n][i := true];
      CountSet(flags[..n], i);
    } else {
      assert after[..n] == flags[..n];
    }
  }

  lemma {:induction false} CountFull(flags: seq<bool>)
    ensures Count(flags) == |flags| <==> forall i :: 0 <= i < |flags| ==> flags[i]
  {
    if flags != [] {
      var n := |flags| - 1;
      CountFull(flags[..n]);
      assert forall i :: 0 <= i < n ==> flags[..n][i] == flags[i];
    }
  }

  lemma {:induction false} CountNone(n: nat)
    ensures Count(seq(n, i => false)) == 0
  {
    if n > 0 {
      CountNone(n - 1);
      assert seq(n, i => false)[..n - 1] == seq(n - 1, i => false);
    }
  }
}
