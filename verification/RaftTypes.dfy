/** Vocabulary shared by the Raft modules: log entries, full logs and quorums. */
module RaftTypes {

  /** A client command. Raft never looks inside one. */
  type Command = int

  datatype Entry = Entry(term: nat, command: Command)

  /** A log without its sentinel: the entry at Raft index i is at position i - 1. */
  type Log = seq<Entry>

  /** The command of the sentinel kept at position 0 of a server's `logs`. */
  const NIL: Command := 0

  /** Term of the entry at Raft index `i`; index 0 is the sentinel, of term 0. */
  function TermAt(log: Log, i: nat): nat
    requires i <= |log|
  {
    if i == 0 then 0 else log[i - 1].term
  }

  function LastTerm(log: Log): nat {
    TermAt(log, |log|)
  }

  function Commands(log: Log): (r: seq<Command>)
    ensures |r| == |log|
    ensures forall i :: 0 <= i < |log| ==> r[i] == log[i].command
  {
    seq(|log|, i requires 0 <= i < |log| => log[i].command)
  }

  /** Section 5.4.1 of the Raft paper: later last term wins, then the longer log. */
  predicate UpToDate(candIndex: nat, candTerm: nat, ownIndex: nat, ownTerm: nat) {
    candTerm > ownTerm || (candTerm == ownTerm && candIndex >= ownIndex)
  }

  function Min(a: nat, b: nat): nat { if a < b then a else b }

  function Max(a: nat, b: nat): nat { if a < b then b else a }

  /** A majority of the servers 0 .. n-1. */
  predicate Quorum(n: nat, q: set<nat>) {
    (forall v :: v in q ==> v < n) && 2 * |q| > n
  }

  lemma {:induction false} BelowIsBounded(n: nat, q: set<nat>)
    requires forall v :: v in q ==> v < n
    ensures |q| <= n
  {
    if n == 0 {
      assert q == {};
    } else {
      var rest := q - {n - 1};
      BelowIsBounded(n - 1, rest);
      assert q <= rest + {n - 1};
      if n - 1 in q {
        assert q == rest + {n - 1};
      } else {
        assert q == rest;
      }
    }
  }

  /** Any two majorities share a server. */
  lemma QuorumsMeet(n: nat, a: set<nat>, b: set<nat>) returns (v: nat)
    requires Quorum(n, a) && Quorum(n, b)
    ensures v in a && v in b
  {
    BelowIsBounded(n, a + b);
    assert |a + b| == |a| + |b| - |a * b|;
    assert a * b != {};
    v :| v in a * b;
  }
}
