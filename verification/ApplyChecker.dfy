/**
 * The tester's online check of what servers apply (checkLogs and applier): it is
 * silent exactly on histories in which all servers agree and each applies in order.
 */
module ApplyChecker {
  import opened RaftTypes

  datatype ApplyMsg = ApplyMsg(server: nat, index: int, command: Command)

  /** cfg.logs: for each server, the commands it has applied by index. */
  type Logs = seq<map<int, Command>>

  function Empty(n: nat): Logs {
    seq(n, i => map[])
  }

  function Record(logs: Logs, m: ApplyMsg): Logs
    requires m.server < |logs|
  {
    logs[m.server := logs[m.server][m.index := m.command]]
  }

  /** cfg.logs after a history of messages. */
  function Replay(n: nat, ms: seq<ApplyMsg>): (logs: Logs)
    requires forall m :: m in ms ==> m.server < n
    ensures |logs| == n
  {
    if ms == [] then Empty(n)
    else
      assert ms[|ms| - 1] in ms;
      Record(Replay(n, ms[..|ms| - 1]), ms[|ms| - 1])
  }

  /** Some server has applied a different command at this index. */
  predicate Clashes(logs: Logs, m: ApplyMsg) {
    exists j :: 0 <= j < |logs| && m.index in logs[j] && logs[j][m.index] != m.command
  }

  predicate OutOfOrder(logs: Logs, m: ApplyMsg)
    requires m.server < |logs|
  {
    1 < m.index && m.index - 1 !in logs[m.server]
  }

  class Checker {
    var logs: Logs
    var maxIndex: int

    constructor (n: nat)
      ensures logs == Empty(n)
    {
      logs, maxIndex := Empty(n), 0;
    }

    /** checkLogs: compare with every server's log, then record. */
    method CheckLogs(m: ApplyMsg) returns (differs: bool, prevOk: bool)
      requires m.server < |logs|
      modifies this
      ensures differs == Clashes(old(logs), m)
      ensures prevOk == (m.index - 1 in old(logs)[m.server])
      ensures logs == Record(old(logs), m)
      ensures maxIndex == if old(maxIndex) < m.index then m.index else old(maxIndex)
    {
      differs := false;
      for j := 0 to |logs|
        invariant differs == exists k :: 0 <= k < j && m.index in logs[k] && logs[k][m.index] != m.command
      {
        if m.index in logs[j] && logs[j][m.index] != m.command {
          differs := true;
        }
      }
      prevOk := m.index - 1 in logs[m.server];
      logs := Record(logs, m);
      if m.index > maxIndex {
        maxIndex := m.index;
      }
    }

    /** One message read by applier; `error` is what it would report. */
    method Apply(m: ApplyMsg) returns (error: bool)
      requires m.server < |logs|
      modifies this
      ensures error == (Clashes(old(logs), m) || OutOfOrder(old(logs), m))
      ensures logs == Record(old(logs), m)
    {
      var differs, prevOk := CheckLogs(m);
      error := differs || (1 < m.index && !prevOk);
    }
  }

  predicate Wellformed(n: nat, ms: seq<ApplyMsg>) {
    forall m :: m in ms ==> m.server < n
  }

  /** applier reports nothing over the whole history. */
  predicate Silent(n: nat, ms: seq<ApplyMsg>)
    requires Wellformed(n, ms)
  {
    ms == [] ||
    (var rest, m := ms[..|ms| - 1], ms[|ms| - 1];
     Silent(n, rest) && !Clashes(Replay(n, rest), m) && !OutOfOrder(Replay(n, rest), m))
  }

  /** All servers apply one command per index. */
  predicate OneCommandPerIndex(ms: seq<ApplyMsg>) {
    forall x, y :: x in ms && y in ms && x.index == y.index ==> x.command == y.command
  }

  predicate Before(ms: seq<ApplyMsg>, k: nat, m: ApplyMsg)
    requires k <= |ms|
  {
    exists x :: x in ms[..k] && x.server == m.server && x.index == m.index - 1
  }

  /** Every server has applied index - 1 before any index above 1. */
  predicate InOrder(ms: seq<ApplyMsg>) {
    forall k: nat :: k < |ms| && 1 < ms[k].index ==> Before(ms, k, ms[k])
  }

  /** What cfg.logs remembers: the last command each server applied at each index. */
  lemma {:induction false} Remembers(n: nat, ms: seq<ApplyMsg>, s: nat, i: int)
    requires Wellformed(n, ms) && s < n
    ensures i in Replay(n, ms)[s] <==> exists x :: x in ms && x.server == s && x.index == i
    ensures i in Replay(n, ms)[s] ==> ApplyMsg(s, i, Replay(n, ms)[s][i]) in ms
  {
    if ms != [] {
      var rest, m := ms[..|ms| - 1], ms[|ms| - 1];
      assert ms == rest + [m];
      Remembers(n, rest, s, i);
    }
  }

  lemma InOrderPrefix(ms: seq<ApplyMsg>)
    requires ms != []
    ensures
      var m := ms[|ms| - 1];
      InOrder(ms) <==> InOrder(ms[..|ms| - 1]) && (1 < m.index ==> Before(ms, |ms| - 1, m))
  {
    var rest := ms[..|ms| - 1];
    forall k: nat | k < |rest| ensures rest[..k] == ms[..k] {
    }
    assert forall k: nat :: k < |rest| ==> (Before(rest, k, rest[k]) <==> Before(ms, k, ms[k]));
  }

  lemma OnePerIndexPrefix(ms: seq<ApplyMsg>)
    requires ms != []
    ensures
      var rest, m := ms[..|ms| - 1], ms[|ms| - 1];
      OneCommandPerIndex(ms) <==>
        OneCommandPerIndex(rest) && forall x :: x in rest && x.index == m.index ==> x.command == m.command
  {
    var rest, m := ms[..|ms| - 1], ms[|ms| - 1];
    assert ms == rest + [m];
    assert m in ms;
    assert forall x :: x in ms <==> x in rest || x == m;
  }

  /** Whether a clash is seen depends only on the history, if there was none before. */
  lemma ClashMeans(n: nat, rest: seq<ApplyMsg>, m: ApplyMsg)
    requires Wellformed(n, rest) && OneCommandPerIndex(rest)
    ensures Clashes(Replay(n, rest), m) <==> exists x :: x in rest && x.index == m.index && x.command != m.command
  {
    var logs := Replay(n, rest);
    if Clashes(logs, m) {
      var j :| 0 <= j < |logs| && m.index in logs[j] && logs[j][m.index] != m.command;
      Remembers(n, rest, j, m.index);
    }
    if x :| x in rest && x.index == m.index && x.command != m.command {
      Remembers(n, rest, x.server, m.index);
      var y := ApplyMsg(x.server, m.index, logs[x.server][m.index]);
      assert y in rest && y.command == x.command;
    }
  }

  /** The check is exact. */
  lemma {:induction false} SilentExactly(n: nat, ms: seq<ApplyMsg>)
    requires Wellformed(n, ms)
    ensures Silent(n, ms) <==> OneCommandPerIndex(ms) && InOrder(ms)
  {
    if ms != [] {
      var rest, m := ms[..|ms| - 1], ms[|ms| - 1];
      assert m in ms;
      SilentExactly(n, rest);
      InOrderPrefix(ms);
      OnePerIndexPrefix(ms);
      if OneCommandPerIndex(rest) { ClashMeans(n, rest, m); }
      Remembers(n, rest, m.server, m.index - 1);
    }
  }

  /** Watching a history message by message, up to the first error. */
  method Watch(n: nat, ms: seq<ApplyMsg>) returns (silent: bool)
    requires Wellformed(n, ms)
    ensures silent == Silent(n, ms)
    ensures silent <==> OneCommandPerIndex(ms) && InOrder(ms)
  {
    SilentExactly(n, ms);
    var checker := new Checker(n);
    for k := 0 to |ms|
      invariant Wellformed(n, ms[..k]) && checker.logs == Replay(n, ms[..k]) && Silent(n, ms[..k])
    {
      assert ms[k] in ms;
      assert ms[..k + 1][..k] == ms[..k];
      var error := checker.Apply(ms[k]);
      if error {
        NotSilentAfter(n, ms, k + 1);
        return false;
      }
    }
    assert ms[..|ms|] == ms;
    return true;
  }

  lemma {:induction false} NotSilentAfter(n: nat, ms: seq<ApplyMsg>, k: nat)
    requires Wellformed(n, ms) && k <= |ms| && Wellformed(n, ms[..k]) && !Silent(n, ms[..k])
    ensures !Silent(n, ms)
  {
    if k < |ms| {
      var rest := ms[..|ms| - 1];
      assert rest[..k] == ms[..k];
      NotSilentAfter(n, rest, k);
    } else {
      assert ms[..k] == ms;
    }
  }
}
