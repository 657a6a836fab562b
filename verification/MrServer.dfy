/** The coordinator object. Each RPC handler is one atomic step. */
module MrServer {
  import opened MrNames
  import C = MrCoordinator

  class Coordinator {
    const filenames: seq<string>
    const nReduce: nat
    var counterMap: nat
    var counterReduce: nat
    var doneMap: nat
    var doneReduce: nat
    var mapComplete: array<bool>
    var reduceComplete: array<bool>

    function Value(): C.Coord
      reads this, mapComplete, reduceComplete
    {
      C.Coord(counterMap, counterReduce, doneMap, doneReduce, mapComplete[..], reduceComplete[..])
    }

    predicate Ok()
      reads this
    {
      mapComplete.Length == |filenames| && reduceComplete.Length == nReduce && mapComplete != reduceComplete
    }

    /** doneMap and doneReduce count the flags that are set. */
    predicate Counted()
      reads this, mapComplete, reduceComplete
    {
      doneMap == C.Count(mapComplete[..]) && doneReduce == C.Count(reduceComplete[..])
    }

    constructor (files: seq<string>, nReduce: nat)
      ensures Ok() && fresh(mapComplete) && fresh(reduceComplete) && filenames == files && this.nReduce == nReduce
      ensures Value() == C.Fresh(|files|, nReduce) && Counted()
    {
      filenames, this.nReduce := files, nReduce;
      counterMap, counterReduce, doneMap, doneReduce := 0, 0, 0, 0;
      mapComplete := new bool[|files|](i => false);
      reduceComplete := new bool[nReduce](i => false);
      new;
      C.CountNone(|files|);
      C.CountNone(nReduce);
      assert mapComplete[..] == seq(|files|, i => false) && reduceComplete[..] == seq(nReduce, i => false);
    }

    method GiveMapTask() returns (reply: C.MapReply, filename: string)
      requires Ok()
      modifies this`counterMap
      ensures Ok() && (Value(), reply) == C.GiveMapTask(old(Value()))
      ensures reply.MapTask? ==> reply.id < |filenames| && filename == filenames[reply.id]
    {
      if counterMap >= |filenames| {
        return C.NoMapTask, "";
      }
      reply, filename := C.MapTask(counterMap), filenames[counterMap];
      counterMap := counterMap + 1;
    }

    method GiveReduceTask() returns (reply: C.ReduceReply)
      requires Ok()
      modifies this`counterReduce
      ensures Ok() && (Value(), reply) == C.GiveReduceTask(old(Value()))
    {
      if doneMap != |filenames| {
        return C.Wait;
      }
      if counterReduce >= nReduce {
        return C.NoReduceTask;
      }
      var files: seq<string> := [];
      for i := 0 to counterMap
        invariant files == C.ReduceFiles(i, counterReduce)
      {
        files := files + [Intermediate(i, counterReduce)];
      }
      reply := C.ReduceTask(counterReduce, files);
      counterReduce := counterReduce + 1;
    }

    /** `last` is whether the reply is nil: every map task has completed. */
    method CheckLastMapDone(id: nat) returns (last: bool)
      requires Ok() && id < |filenames|
      modifies this`doneMap, mapComplete
      ensures Ok() && Value() == C.CheckLastMapDone(old(Value()), id)
      ensures last == (doneMap == |filenames|)
      ensures old(Counted()) ==> Counted() && (last <==> forall i :: 0 <= i < |filenames| ==> mapComplete[i])
    {
      if !mapComplete[id] {
        C.CountSet(mapComplete[..], id);
        mapComplete[id] := true;
        doneMap := doneMap + 1;
      }
      C.CountFull(mapComplete[..]);
      last := doneMap == |filenames|;
    }

    method CheckLastReduceDone(id: nat) returns (last: bool)
      requires Ok() && id < nReduce
      modifies this`doneReduce, reduceComplete
      ensures Ok() && Value() == C.CheckLastReduceDone(old(Value()), id)
      ensures last == (doneReduce == nReduce)
      ensures old(Counted()) ==> Counted() && (last <==> forall i :: 0 <= i < nReduce ==> reduceComplete[i])
    {
      if !reduceComplete[id] {
        C.CountSet(reduceComplete[..], id);
        reduceComplete[id] := true;
        doneReduce := doneReduce + 1;
      }
      C.CountFull(reduceComplete[..]);
      last := doneReduce == nReduce;
    }
  }
}
