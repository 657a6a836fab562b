/**
 * The shard controller's reply hand-off as a step machine: the apply loop sends each
 * applied op on the capacity-1 channel of its index while it holds the lock; RPC
 * handlers register for an index before or after that, then receive or time out.
 */
module ShardReplies {
  import opened ShardCtrler

  datatype Buffer = Empty | Full(op: Op)
  datatype Waiter = Waiting(index: nat) | Got(index: nat, op: Op) | TimedOut(index: nat)
  datatype Delivery = Delivery(index: nat, op: Op)

  /** `log` records the ops as Raft delivers them, `applied` and `received` every send and every receive, in order. */
  datatype Sys = Sys(
    st: State, chans: map<nat, Buffer>, waiters: seq<Waiter>,
    log: seq<Op>, applied: seq<Delivery>, received: seq<Delivery>)

  datatype Action =
    | Apply(index: nat, op: Op)
    | Register(index: nat)
    | Receive(w: nat)
    | Expire(w: nat)

  /** The send would block, and the apply loop would hold the lock for ever. */
  predicate Blocks(s: Sys, index: nat) {
    index in s.chans && s.chans[index].Full?
  }

  predicate Enabled(s: Sys, a: Action) {
    match a
    case Apply(index, _) => !Blocks(s, index)
    case Register(_) => true
    case Receive(w) => w < |s.waiters| && s.waiters[w].Waiting? && Blocks(s, s.waiters[w].index)
    case Expire(w) => w < |s.waiters| && s.waiters[w].Waiting?
  }

  function Do(s: Sys, a: Action, h: Handlers): Sys
    requires Enabled(s, a)
  {
    match a
    case Apply(index, op) =>
      var (st, op') := Execute(s.st, op, h);
      s.(st := st, chans := s.chans[index := Full(op')], log := s.log + [op], applied := s.applied + [Delivery(index, op')])
    case Register(index) =>
      s.(chans := if index in s.chans then s.chans else s.chans[index := Empty], waiters := s.waiters + [Waiting(index)])
    case Receive(w) =>
      var index := s.waiters[w].index;
      var op := s.chans[index].op;
      s.(chans := s.chans[index := Empty], waiters := s.waiters[w := Got(index, op)],
         received := s.received + [Delivery(index, op)])
    case Expire(w) => s.(waiters := s.waiters[w := TimedOut(s.waiters[w].index)])
  }

  function Init(configs: seq<Config>): Sys {
    Sys(State(configs, map[]), map[], [], [], [], [])
  }

  predicate IsRun(run: seq<Sys>, acts: seq<Action>, configs: seq<Config>, h: Handlers) {
    && |run| == |acts| + 1
    && run[0] == Init(configs)
    && forall k: nat :: k < |acts| ==> Steps(run, acts, h, k)
  }

  predicate Steps(run: seq<Sys>, acts: seq<Action>, h: Handlers, k: nat)
    requires |run| == |acts| + 1 && k < |acts|
  {
    Enabled(run[k], acts[k]) && run[k + 1] == Do(run[k], acts[k], h)
  }

  /** The ops of the deliveries for one index, in order. */
  function At(log: seq<Delivery>, index: nat): seq<Op> {
    if log == [] then []
    else At(log[..|log| - 1], index) + (if log[|log| - 1].index == index then [log[|log| - 1].op] else [])
  }

  function InFlight(s: Sys, index: nat): seq<Op> {
    if Blocks(s, index) then [s.chans[index].op] else []
  }

  /** Nothing is lost, duplicated or reordered on any channel. */
  predicate Conserved(s: Sys, index: nat) {
    At(s.applied, index) == At(s.received, index) + InFlight(s, index)
  }

  /** What a waiter holds was received on its own channel. */
  predicate Honest(s: Sys, w: nat)
    requires w < |s.waiters|
  {
    s.waiters[w].Got? ==> Delivery(s.waiters[w].index, s.waiters[w].op) in s.received
  }

  ghost predicate Inv(s: Sys) {
    (forall index: nat :: Conserved(s, index)) && (forall w: nat :: w < |s.waiters| ==> Honest(s, w))
  }

  lemma AtAppend(log: seq<Delivery>, d: Delivery, index: nat)
    ensures At(log + [d], index) == At(log, index) + (if d.index == index then [d.op] else [])
  {
    assert (log + [d])[..|log|] == log;
  }

  lemma StepConserved(s: Sys, a: Action, h: Handlers, index: nat)
    requires Enabled(s, a) && Conserved(s, index)
    ensures Conserved(Do(s, a, h), index)
  {
    match a {
      case Apply(i, op) => ApplyConserved(s, i, op, h, index);
      case Register(_) => assert Conserved(Do(s, a, h), index);
      case Receive(w) => ReceiveConserved(s, w, h, index);
      case Expire(_) => assert Conserved(Do(s, a, h), index);
    }
  }

  lemma ApplyConserved(s: Sys, i: nat, op: Op, h: Handlers, index: nat)
    requires !Blocks(s, i) && Conserved(s, index)
    ensures Conserved(Do(s, Apply(i, op), h), index)
  {
    var sent := Execute(s.st, op, h).1;
    AtAppend(s.applied, Delivery(i, sent), index);
    var s' := Do(s, Apply(i, op), h);
    if i == index {
      assert InFlight(s, index) == [] && InFlight(s', index) == [sent];
    } else {
      assert InFlight(s', index) == InFlight(s, index);
    }
  }

  lemma ReceiveConserved(s: Sys, w: nat, h: Handlers, index: nat)
    requires Enabled(s, Receive(w)) && Conserved(s, index)
    ensures Conserved(Do(s, Receive(w), h), index)
  {
    var i := s.waiters[w].index;
    var op := s.chans[i].op;
    AtAppend(s.received, Delivery(i, op), index);
    var s' := Do(s, Receive(w), h);
    if i == index {
      assert InFlight(s, index) == [op] && InFlight(s', index) == [];
    } else {
      assert InFlight(s', index) == InFlight(s, index);
    }
  }

  lemma StepInv(s: Sys, a: Action, h: Handlers)
    requires Inv(s) && Enabled(s, a)
    ensures Inv(Do(s, a, h))
  {
    var s' := Do(s, a, h);
    forall index: nat ensures Conserved(s', index) {
      assert Conserved(s, index);
      StepConserved(s, a, h, index);
    }
    forall w: nat | w < |s'.waiters| ensures Honest(s', w) {
      assert w < |s.waiters| ==> Honest(s, w);
      assert s'.received[..|s.received|] == s.received;
    }
  }

  lemma {:induction false} RunInv(run: seq<Sys>, acts: seq<Action>, configs: seq<Config>, h: Handlers, k: nat)
    requires IsRun(run, acts, configs, h) && k < |run|
    ensures Inv(run[k])
  {
    if k > 0 {
      RunInv(run, acts, configs, h, k - 1);
      assert Steps(run, acts, h, k - 1);
      StepInv(run[k - 1], acts[k - 1], h);
    }
  }

  /** In every run: what was received on an index, then what is buffered, is what was applied there. */
  lemma Lossless(run: seq<Sys>, acts: seq<Action>, configs: seq<Config>, h: Handlers, k: nat, index: nat)
    requires IsRun(run, acts, configs, h) && k < |run|
    ensures At(run[k].applied, index) == At(run[k].received, index) + InFlight(run[k], index)
  {
    RunInv(run, acts, configs, h, k);
    assert Conserved(run[k], index);
  }

  /** A send at an index blocks exactly when an op applied there earlier has not been received. */
  lemma BlocksExactly(run: seq<Sys>, acts: seq<Action>, configs: seq<Config>, h: Handlers, k: nat, index: nat)
    requires IsRun(run, acts, configs, h) && k < |run|
    ensures Blocks(run[k], index) <==> At(run[k].received, index) != At(run[k].applied, index)
    ensures At(run[k].applied, index) == [] ==> !Blocks(run[k], index)
  {
    RunInv(run, acts, configs, h, k);
    assert Conserved(run[k], index);
  }

  lemma {:induction false} AtHolds(log: seq<Delivery>, d: Delivery)
    requires d in log
    ensures d.op in At(log, d.index)
  {
    var front, last := log[..|log| - 1], log[|log| - 1];
    if d != last {
      assert d in front;
      AtHolds(front, d);
    }
  }

  /** A waiter that has timed out never gets anything more. */
  lemma {:induction false} TimeoutIsFinal(run: seq<Sys>, acts: seq<Action>, configs: seq<Config>, h: Handlers, k: nat, l: nat, w: nat)
    requires IsRun(run, acts, configs, h) && k < l < |run| && acts[k] == Expire(w)
    ensures w < |run[k].waiters| && w < |run[l].waiters| && run[l].waiters[w] == TimedOut(run[k].waiters[w].index)
  {
    assert Steps(run, acts, h, l - 1);
    if k < l - 1 { TimeoutIsFinal(run, acts, configs, h, k, l - 1, w); }
  }

  /** A handler that registers has a channel and waits on it. */
  lemma RegisteredWaits(run: seq<Sys>, acts: seq<Action>, configs: seq<Config>, h: Handlers, k: nat, index: nat)
    requires IsRun(run, acts, configs, h) && k < |acts| && acts[k] == Register(index)
    ensures run[k + 1].waiters == run[k].waiters + [Waiting(index)] && index in run[k + 1].chans
    ensures Blocks(run[k + 1], index) <==> Blocks(run[k], index)
  {
    assert Steps(run, acts, h, k);
  }

  /** A waiter that receives takes the op off its channel and keeps it. */
  lemma {:induction false} ReceiptIsFinal(run: seq<Sys>, acts: seq<Action>, configs: seq<Config>, h: Handlers, k: nat, l: nat, w: nat)
    requires IsRun(run, acts, configs, h) && k < l < |run| && acts[k] == Receive(w)
    ensures w < |run[k].waiters| && Blocks(run[k], run[k].waiters[w].index) && !Blocks(run[k + 1], run[k].waiters[w].index)
    ensures
      var index := run[k].waiters[w].index;
      w < |run[l].waiters| && run[l].waiters[w] == Got(index, run[k].chans[index].op)
  {
    assert Steps(run, acts, h, k) && Steps(run, acts, h, l - 1);
    if k < l - 1 { ReceiptIsFinal(run, acts, configs, h, k, l - 1, w); }
  }

  // ----- what is sent -----

  /** The configurations and cache are the log's, and every op sent is what its waiter is owed. */
  ghost predicate Faithful(s: Sys, configs: seq<Config>, h: Handlers) {
    && s.st == ExecuteAll(State(configs, map[]), s.log, h)
    && |s.applied| == |s.log|
    && forall i: nat :: i < |s.log| ==> IsOwed(s, configs, h, i)
  }

  predicate IsOwed(s: Sys, configs: seq<Config>, h: Handlers, i: nat)
    requires i < |s.log| && |s.applied| == |s.log|
  {
    s.applied[i].op == Owed(configs, s.log, i, h)
  }

  lemma ApplyFaithful(s: Sys, index: nat, op: Op, configs: seq<Config>, h: Handlers)
    requires Faithful(s, configs, h) && !Blocks(s, index)
    ensures Faithful(Do(s, Apply(index, op), h), configs, h)
  {
    var s' := Do(s, Apply(index, op), h);
    assert s'.log[..|s.log|] == s.log;
    forall i: nat | i < |s'.log| ensures IsOwed(s', configs, h, i) {
      if i < |s.log| {
        assert IsOwed(s, configs, h, i);
        OwedByPrefix(configs, s.log, [op], i, h);
      } else {
        SendsOwed(configs, s.log, op, h);
      }
    }
  }

  lemma StepFaithful(s: Sys, a: Action, configs: seq<Config>, h: Handlers)
    requires Faithful(s, configs, h) && Enabled(s, a)
    ensures Faithful(Do(s, a, h), configs, h)
  {
    if a.Apply? {
      ApplyFaithful(s, a.index, a.op, configs, h);
    } else {
      var s' := Do(s, a, h);
      forall i: nat | i < |s'.log| ensures IsOwed(s', configs, h, i) {
        assert IsOwed(s, configs, h, i);
      }
    }
  }

  lemma {:induction false} RunFaithful(run: seq<Sys>, acts: seq<Action>, configs: seq<Config>, h: Handlers, k: nat)
    requires IsRun(run, acts, configs, h) && k < |run|
    ensures Faithful(run[k], configs, h)
  {
    if k > 0 {
      RunFaithful(run, acts, configs, h, k - 1);
      assert Steps(run, acts, h, k - 1);
      StepFaithful(run[k - 1], acts[k - 1], configs, h);
    }
  }

  /** In every run, the `i`th op applied is sent with the reply the log means, duplicates and unknown commands as they came. */
  lemma SentIsOwed(run: seq<Sys>, acts: seq<Action>, configs: seq<Config>, h: Handlers, k: nat, i: nat)
    requires IsRun(run, acts, configs, h) && k < |run| && i < |run[k].log|
    ensures |run[k].applied| == |run[k].log|
    ensures
      var log, sent := run[k].log, run[k].applied[i].op;
      sent ==
        if (forall j :: 0 <= j < i && log[j].clientId == log[i].clientId ==> log[j].timeStamp < log[i].timeStamp)
           && (log[i].command == "Join" || log[i].command == "Leave" || log[i].command == "Move" || log[i].command == "Query")
        then h(PerformAll(configs, Effective(log[..i]), h), log[i]).1
        else log[i]
  {
    RunFaithful(run, acts, configs, h, k);
    assert IsOwed(run[k], configs, h, i);
  }

  /**
   * If an index is applied once, as the `i`th op, what that op's waiter is owed is there for any waiter of the index that
   * registers before or after, until one has received it; no waiter of the index ever receives another op.
   */
  lemma HandOff(run: seq<Sys>, acts: seq<Action>, configs: seq<Config>, h: Handlers, k: nat, i: nat, w: nat)
    requires IsRun(run, acts, configs, h) && k < |run| && i < |run[k].log| && i < |run[k].applied|
    requires |At(run[k].applied, run[k].applied[i].index)| == 1
    requires w < |run[k].waiters| && run[k].waiters[w].index == run[k].applied[i].index
    ensures
      var s := run[k];
      var index, op := s.applied[i].index, Owed(configs, s.log, i, h);
      && (s.waiters[w].Waiting? && At(s.received, index) == [] ==> Enabled(s, Receive(w)) && s.chans[index] == Full(op))
      && (s.waiters[w].Got? ==> s.waiters[w].op == op && At(s.received, index) == [op])
  {
    RunInv(run, acts, configs, h, k);
    RunFaithful(run, acts, configs, h, k);
    var s := run[k];
    var index, op := s.applied[i].index, s.applied[i].op;
    assert IsOwed(s, configs, h, i);
    AtHolds(s.applied, s.applied[i]);
    assert At(s.applied, index) == [op];
    assert Conserved(s, index) && Honest(s, w);
    assert (At(s.received, index) + InFlight(s, index))[0] == op;
    assert |At(s.received, index)| + |InFlight(s, index)| == 1;
    if s.waiters[w].Got? {
      AtHolds(s.received, Delivery(index, s.waiters[w].op));
    }
  }
}
