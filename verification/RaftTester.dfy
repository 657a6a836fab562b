/** The tester's crash1 and start1: superseding a server and its persister. */
module RaftTester {
  import opened RaftTypes
  import opened RaftNode
  import opened RaftServer

  class Config {
    const n: nat
    const saved: array<Persister?>
    const rafts: array<Raft?>

    predicate Ok() {
      saved.Length == n && rafts.Length == n
    }

    constructor (n: nat)
      ensures this.n == n && Ok() && fresh(saved) && fresh(rafts)
      ensures forall i :: 0 <= i < n ==> saved[i] == null && rafts[i] == null
    {
      this.n := n;
      saved := new Persister?[n](i => null);
      rafts := new Raft?[n](i => null);
    }

    /** What a server started in slot `i` now would find. */
    function Stored(i: nat): Disk
      requires Ok() && i < n
      reads saved, saved[i]
    {
      if saved[i] == null then Disk(0, -1, [Entry(0, NIL)], []) else saved[i].Contents()
    }

    /** The old instance keeps its persister; the slot gets another with the same contents. */
    method Crash1(i: nat)
      requires Ok() && i < n
      modifies saved, rafts
      ensures Stored(i) == old(Stored(i)) && rafts[i] == null
      ensures (saved[i] == null <==> old(saved[i]) == null) && (saved[i] != null ==> fresh(saved[i]))
      ensures forall j :: 0 <= j < n && j != i ==> saved[j] == old(saved[j]) && rafts[j] == old(rafts[j])
    {
      if saved[i] != null {
        saved[i] := saved[i].Copy();
      }
      rafts[i] := null;
      if saved[i] != null {
        var raftlog, snapshot := saved[i].raftstate, saved[i].snapshot;
        var p := new Persister();
        p.Save(raftlog, snapshot);
        saved[i] := p;
      }
    }

    /** The new server starts from exactly what was stored, on a persister no other server has. */
    method Start1(i: nat)
      requires Ok() && i < n && 1 <= |Stored(i).logs| && -1 <= Stored(i).votedFor
      modifies saved, rafts
      ensures saved[i] != null && fresh(saved[i]) && rafts[i] != null && fresh(rafts[i])
      ensures rafts[i].persister == saved[i] && rafts[i].Value() == Restart(i, n, old(Stored(i)))
      ensures forall j :: 0 <= j < n && j != i ==> saved[j] == old(saved[j]) && rafts[j] == old(rafts[j])
    {
      Crash1(i);
      if saved[i] != null {
        saved[i] := saved[i].Copy();
      } else {
        saved[i] := new Persister();
      }
      rafts[i] := new Raft(i, n, saved[i]);
    }
  }
}
