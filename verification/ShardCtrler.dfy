/**
 * The shard controller's apply loop: duplicate suppression by the per-client cache,
 * and the index-keyed reply channels. What Join, Leave, Move and Query do to the
 * configurations is a parameter.
 */
module ShardCtrler {
  datatype Config = Config(num: int, shards: seq<int>, groups: map<int, seq<string>>)

  datatype Op = Op(
    command: string, argsJoin: map<int, seq<string>>, argsLeave: seq<int>, argsMoveShard: int, argsMoveGid: int,
    argsQuery: int, replyQuery: Config, clientId: int, timeStamp: int)

  /** The handlers behind the switch: new configurations, and the op with its reply filled in. */
  type Handlers = (seq<Config>, Op) -> (seq<Config>, Op)

  datatype State = State(configs: seq<Config>, cache: map<int, int>)

  predicate Known(command: string) {
    command == "Join" || command == "Leave" || command == "Move" || command == "Query"
  }

  predicate IsNew(cache: map<int, int>, op: Op) {
    op.clientId !in cache || op.timeStamp > cache[op.clientId]
  }

  function Perform(configs: seq<Config>, op: Op, h: Handlers): (seq<Config>, Op) {
    if Known(op.command) then h(configs, op) else (configs, op)
  }

  /** One applied op: the new state, and what goes to the op's reply channel. */
  function Execute(st: State, op: Op, h: Handlers): (State, Op) {
    if IsNew(st.cache, op) then
      var (configs, op') := Perform(st.configs, op, h);
      (State(configs, st.cache[op.clientId := op.timeStamp]), op')
    else (st, op)
  }

  function ExecuteAll(st: State, log: seq<Op>, h: Handlers): State {
    if log == [] then st else Execute(ExecuteAll(st, log[..|log| - 1], h), log[|log| - 1], h).0
  }

  // ----- the meaning of a log, without a cache -----

  /** No earlier op of the same client has this timestamp or a later one. */
  predicate First(log: seq<Op>, i: nat)
    requires i < |log|
  {
    forall j :: 0 <= j < i && log[j].clientId == log[i].clientId ==> log[j].timeStamp < log[i].timeStamp
  }

  /** The ops of the log that take effect. */
  function Effective(log: seq<Op>): seq<Op> {
    if log == [] then []
    else Effective(log[..|log| - 1]) + (if First(log, |log| - 1) then [log[|log| - 1]] else [])
  }

  /** The configurations after ops that all take effect: those of the four commands do, in order. */
  function PerformAll(configs: seq<Config>, ops: seq<Op>, h: Handlers): seq<Config> {
    if ops == [] then configs else
      var before, op := PerformAll(configs, ops[..|ops| - 1], h), ops[|ops| - 1];
      if op.command in ["Join", "Leave", "Move", "Query"] then h(before, op).0 else before
  }

  /**
   * What the waiter for the `i`th op of a log is owed: the op with its reply filled in from the configurations
   * before it, if it takes effect and is one of the four commands; otherwise the op as it came.
   */
  function Owed(configs: seq<Config>, log: seq<Op>, i: nat, h: Handlers): Op
    requires i < |log|
  {
    if First(log, i) && log[i].command in ["Join", "Leave", "Move", "Query"]
    then h(PerformAll(configs, Effective(log[..i]), h), log[i]).1
    else log[i]
  }

  /** The cache holds each client's largest timestamp so far. */
  ghost predicate CacheIs(cache: map<int, int>, log: seq<Op>) {
    && (forall i :: 0 <= i < |log| ==> log[i].clientId in cache && log[i].timeStamp <= cache[log[i].clientId])
    && (forall c :: c in cache ==> exists i :: 0 <= i < |log| && log[i].clientId == c && log[i].timeStamp == cache[c])
  }

  lemma CacheStep(cache: map<int, int>, log: seq<Op>)
    requires log != [] && CacheIs(cache, log[..|log| - 1])
    ensures var op := log[|log| - 1];
      && (IsNew(cache, op) <==> First(log, |log| - 1))
      && CacheIs(if IsNew(cache, op) then cache[op.clientId := op.timeStamp] else cache, log)
  {
    var n := |log| - 1;
    var front, op := log[..n], log[n];
    assert forall i :: 0 <= i < n ==> front[i] == log[i];
    if op.clientId in cache {
      var i :| 0 <= i < |front| && front[i].clientId == op.clientId && front[i].timeStamp == cache[op.clientId];
      assert log[i] == front[i];
    }
    var after := if IsNew(cache, op) then cache[op.clientId := op.timeStamp] else cache;
    forall c | c in after ensures exists i :: 0 <= i < |log| && log[i].clientId == c && log[i].timeStamp == after[c] {
      if c == op.clientId && IsNew(cache, op) {
        assert log[n].clientId == c;
      } else {
        var i :| 0 <= i < |front| && front[i].clientId == c && front[i].timeStamp == cache[c];
        assert log[i] == front[i];
      }
    }
  }

  lemma PerformNext(configs: seq<Config>, ops: seq<Op>, op: Op, h: Handlers)
    ensures PerformAll(configs, ops + [op], h) == Perform(PerformAll(configs, ops, h), op, h).0
  {
    assert (ops + [op])[..|ops|] == ops;
  }

  /** The loop with its cache computes exactly the effective ops, in order. */
  lemma {:induction false} SuppressionIsExact(configs: seq<Config>, log: seq<Op>, h: Handlers)
    ensures var st := ExecuteAll(State(configs, map[]), log, h);
      st.configs == PerformAll(configs, Effective(log), h) && CacheIs(st.cache, log)
  {
    if log != [] {
      var front := log[..|log| - 1];
      SuppressionIsExact(configs, front, h);
      CacheStep(ExecuteAll(State(configs, map[]), front, h).cache, log);
      if First(log, |log| - 1) {
        PerformNext(configs, Effective(front), log[|log| - 1], h);
      } else {
        assert Effective(log) == Effective(front);
      }
    }
  }

  /** Only what comes before an op matters to what its waiter is owed. */
  lemma OwedByPrefix(configs: seq<Config>, log: seq<Op>, more: seq<Op>, i: nat, h: Handlers)
    requires i < |log|
    ensures Owed(configs, log + more, i, h) == Owed(configs, log, i, h)
  {
    assert (log + more)[..i] == log[..i];
    assert forall j :: 0 <= j <= i ==> (log + more)[j] == log[j];
  }

  lemma NewIsFirst(configs: seq<Config>, log: seq<Op>, op: Op, h: Handlers)
    ensures IsNew(ExecuteAll(State(configs, map[]), log, h).cache, op) <==> First(log + [op], |log|)
  {
    assert (log + [op])[..|log|] == log;
    SuppressionIsExact(configs, log, h);
    CacheStep(ExecuteAll(State(configs, map[]), log, h).cache, log + [op]);
  }

  lemma ConfigsAre(configs: seq<Config>, log: seq<Op>, h: Handlers)
    ensures ExecuteAll(State(configs, map[]), log, h).configs == PerformAll(configs, Effective(log), h)
  {
    SuppressionIsExact(configs, log, h);
  }

  lemma Sends(st: State, op: Op, h: Handlers)
    ensures Execute(st, op, h).1 ==
      if IsNew(st.cache, op) && op.command in ["Join", "Leave", "Move", "Query"] then h(st.configs, op).1 else op
  {
  }

  /** The loop with its cache sends exactly what is owed. */
  lemma SendsOwed(configs: seq<Config>, log: seq<Op>, op: Op, h: Handlers)
    ensures Execute(ExecuteAll(State(configs, map[]), log, h), op, h).1 == Owed(configs, log + [op], |log|, h)
  {
    assert (log + [op])[..|log|] == log;
    NewIsFirst(configs, log, op, h);
    ConfigsAre(configs, log, h);
    Sends(ExecuteAll(State(configs, map[]), log, h), op, h);
  }

  lemma {:induction false} EffectiveIsFrom(log: seq<Op>, e: Op)
    requires e in Effective(log)
    ensures e in log
  {
    var front := log[..|log| - 1];
    if e in Effective(front) {
      EffectiveIsFrom(front, e);
    }
  }

  /** The effective ops of each client have strictly increasing timestamps. */
  lemma {:induction false} EffectiveIncreases(log: seq<Op>, i: nat, j: nat)
    requires i < j < |Effective(log)| && Effective(log)[i].clientId == Effective(log)[j].clientId
    ensures Effective(log)[i].timeStamp < Effective(log)[j].timeStamp
  {
    var n := |log| - 1;
    if j < |Effective(log[..n])| {
      EffectiveIncreases(log[..n], i, j);
    } else {
      var e := Effective(log)[i];
      assert e in Effective(log[..n]);
      EffectiveIsFrom(log[..n], e);
      var k :| 0 <= k < n && log[..n][k] == e;
      assert log[k] == e;
    }
  }

  // ----- repeats change nothing -----

  lemma {:induction false} CacheOnlyRises(st: State, log: seq<Op>, h: Handlers, c: int)
    requires c in st.cache
    ensures c in ExecuteAll(st, log, h).cache && st.cache[c] <= ExecuteAll(st, log, h).cache[c]
  {
    if log != [] {
      CacheOnlyRises(st, log[..|log| - 1], h, c);
    }
  }

  lemma {:induction false} ExecuteConcat(st: State, a: seq<Op>, b: seq<Op>, h: Handlers)
    ensures ExecuteAll(st, a + b, h) == ExecuteAll(ExecuteAll(st, a, h), b, h)
  {
    if b == [] {
      assert a + b == a;
    } else {
      assert (a + b)[..|a + b| - 1] == a + b[..|b| - 1];
      ExecuteConcat(st, a, b[..|b| - 1], h);
    }
  }

  /** Repeating, anywhere later in the log, an op with a client and timestamp already applied changes nothing. */
  lemma RepeatsAreHarmless(st: State, a: seq<Op>, op: Op, b: seq<Op>, again: Op, c: seq<Op>, h: Handlers)
    requires again.clientId == op.clientId && again.timeStamp == op.timeStamp
    ensures ExecuteAll(st, a + [op] + b + [again] + c, h) == ExecuteAll(st, a + [op] + b + c, h)
  {
    var before := ExecuteAll(st, a + [op], h);
    assert (a + [op])[..|a|] == a;
    var middle := ExecuteAll(before, b, h);
    CacheOnlyRises(before, b, h, op.clientId);
    ExecuteConcat(st, a + [op], b, h);
    assert (a + [op] + b + [again])[..|a + [op] + b|] == a + [op] + b;
    assert ExecuteAll(st, a + [op] + b + [again], h) == middle;
    ExecuteConcat(st, a + [op] + b + [again], c, h);
    ExecuteConcat(st, a + [op] + b, c, h);
  }
}
