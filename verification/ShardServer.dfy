/** The shard controller object: the body of runShardCtrler, and registering for a reply. */
module ShardServer {
  import opened ShardCtrler
  import opened ShardReplies

  /** What arrives on applyCh: not an Op, not valid, or an op at an index. */
  datatype ApplyMsg = NotAnOp | Invalid | OpMsg(index: nat, op: Op)

  function OpsOf(msgs: seq<ApplyMsg>): seq<Op> {
    if msgs == [] then []
    else OpsOf(msgs[..|msgs| - 1]) + (if msgs[|msgs| - 1].OpMsg? then [msgs[|msgs| - 1].op] else [])
  }

  lemma NextMsg(st: State, msgs: seq<ApplyMsg>, i: nat, h: Handlers)
    requires i < |msgs|
    ensures var before := ExecuteAll(st, OpsOf(msgs[..i]), h);
      ExecuteAll(st, OpsOf(msgs[..i + 1]), h) == if msgs[i].OpMsg? then Execute(before, msgs[i].op, h).0 else before
  {
    var ops := OpsOf(msgs[..i]);
    assert msgs[..i + 1][..i] == msgs[..i];
    if msgs[i].OpMsg? {
      assert (ops + [msgs[i].op])[..|ops|] == ops;
    } else {
      assert ops + [] == ops;
    }
  }

  /** The ops before message `i`, and the op in it. */
  lemma OpAt(msgs: seq<ApplyMsg>, i: nat)
    requires i < |msgs| && msgs[i].OpMsg?
    ensures OpsOf(msgs[..i + 1]) == OpsOf(msgs[..i]) + [msgs[i].op]
  {
    assert msgs[..i + 1][..i] == msgs[..i];
  }

  lemma {:induction false} OpsGrow(msgs: seq<ApplyMsg>, i: nat, k: nat)
    requires i <= k <= |msgs|
    ensures OpsOf(msgs[..i]) <= OpsOf(msgs[..k])
    decreases k
  {
    if i < k {
      OpsGrow(msgs, i, k - 1);
      assert msgs[..k][..k - 1] == msgs[..k - 1];
    }
  }

  /** The buffer of message `i` holds what its waiter is owed by the ops of all the messages. */
  predicate Answered(chans: map<nat, Buffer>, msgs: seq<ApplyMsg>, i: nat, configs: seq<Config>, h: Handlers)
    requires i < |msgs| && msgs[i].OpMsg?
  {
    var log, pos := OpsOf(msgs), |OpsOf(msgs[..i])|;
    && pos < |log| && log[pos] == msgs[i].op && msgs[i].index in chans
    && chans[msgs[i].index] == Full(Owed(configs, log, pos, h))
  }

  /** ... or is owed by the messages up to it. */
  predicate SentAt(chans: map<nat, Buffer>, msgs: seq<ApplyMsg>, i: nat, configs: seq<Config>, h: Handlers)
    requires i < |msgs| && msgs[i].OpMsg?
  {
    var log := OpsOf(msgs[..i]);
    msgs[i].index in chans && chans[msgs[i].index] == Full(Owed(configs, log + [msgs[i].op], |log|, h))
  }

  lemma SentIsAnswered(chans: map<nat, Buffer>, msgs: seq<ApplyMsg>, i: nat, configs: seq<Config>, h: Handlers)
    requires i < |msgs| && msgs[i].OpMsg? && SentAt(chans, msgs, i, configs, h)
    ensures Answered(chans, msgs, i, configs, h)
  {
    OpAt(msgs, i);
    OpsGrow(msgs, i + 1, |msgs|);
    var some, all := OpsOf(msgs[..i + 1]), OpsOf(msgs);
    assert msgs[..|msgs|] == msgs;
    assert all == some + all[|some|..];
    OwedByPrefix(configs, some, all[|some|..], |some| - 1, h);
  }

  lemma AllAnswered(chans: map<nat, Buffer>, msgs: seq<ApplyMsg>, configs: seq<Config>, h: Handlers)
    requires forall i: nat :: i < |msgs| && msgs[i].OpMsg? ==> SentAt(chans, msgs, i, configs, h)
    ensures forall i: nat :: i < |msgs| && msgs[i].OpMsg? ==> Answered(chans, msgs, i, configs, h)
  {
    forall i: nat | i < |msgs| && msgs[i].OpMsg? ensures Answered(chans, msgs, i, configs, h) {
      SentIsAnswered(chans, msgs, i, configs, h);
    }
  }

  class Controller {
    const handlers: Handlers
    var configs: seq<Config>
    var cache: map<int, int>
    var indexChan: map<nat, Buffer>

    constructor (first: Config, handlers: Handlers)
      ensures this.handlers == handlers && configs == [first] && cache == map[] && indexChan == map[]
    {
      this.handlers := handlers;
      configs, cache, indexChan := [first], map[], map[];
    }

    function Value(): State
      reads this
    {
      State(configs, cache)
    }

    /** The channel of an index, made on first use by whichever side comes first. */
    method Channel(index: nat)
      modifies this`indexChan
      ensures indexChan == if index in old(indexChan) then old(indexChan) else old(indexChan)[index := Empty]
    {
      if index !in indexChan {
        indexChan := indexChan[index := Empty];
      }
    }

    /** `blocked`: the op has been executed, but its channel is full and the send waits with the lock held. */
    method ApplyOne(msg: ApplyMsg) returns (blocked: bool)
      modifies this
      ensures !msg.OpMsg? ==> Value() == old(Value()) && indexChan == old(indexChan) && !blocked
      ensures msg.OpMsg? ==>
        var (st, op) := Execute(old(Value()), msg.op, handlers);
        && Value() == st
        && (blocked <==> msg.index in old(indexChan) && old(indexChan)[msg.index].Full?)
        && indexChan == if blocked then old(indexChan) else old(indexChan)[msg.index := Full(op)]
    {
      blocked := false;
      if !msg.OpMsg? {
        return;
      }
      var op := msg.op;
      if op.clientId !in cache || op.timeStamp > cache[op.clientId] {
        cache := cache[op.clientId := op.timeStamp];
        if Known(op.command) {
          var (after, filled) := handlers(configs, op);
          configs, op := after, filled;
        }
      }
      Channel(msg.index);
      if indexChan[msg.index].Full? {
        return true;
      }
      indexChan := indexChan[msg.index := Full(op)];
    }

    /** Replaying what Raft delivers, each index once, never blocks and leaves the state and the replies the log means. */
    method Replay(msgs: seq<ApplyMsg>, first: Config)
      requires configs == [first] && cache == map[] && indexChan == map[]
      requires forall i, j :: 0 <= i < j < |msgs| && msgs[i].OpMsg? && msgs[j].OpMsg? ==> msgs[i].index != msgs[j].index
      modifies this
      ensures Value() == ExecuteAll(State([first], map[]), OpsOf(msgs), handlers)
      ensures configs == PerformAll([first], Effective(OpsOf(msgs)), handlers)
      ensures forall i: nat :: i < |msgs| && msgs[i].OpMsg? ==> Answered(indexChan, msgs, i, [first], handlers)
    {
      for i := 0 to |msgs|
        invariant Value() == ExecuteAll(State([first], map[]), OpsOf(msgs[..i]), handlers)
        invariant forall x :: x in indexChan ==> exists j :: 0 <= j < i && msgs[j].OpMsg? && msgs[j].index == x
        invariant forall j: nat :: j < i && msgs[j].OpMsg? ==> SentAt(indexChan, msgs, j, [first], handlers)
      {
        NextMsg(State([first], map[]), msgs, i, handlers);
        if msgs[i].OpMsg? { SendsOwed([first], OpsOf(msgs[..i]), msgs[i].op, handlers); }
        var blocked := ApplyOne(msgs[i]);
        assert !blocked;
      }
      assert msgs[..|msgs|] == msgs;
      AllAnswered(indexChan, msgs, [first], handlers);
      SuppressionIsExact([first], OpsOf(msgs), handlers);
    }
  }
}
