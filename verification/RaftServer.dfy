/**
 * The imperative form of a Raft server and its persister. Every method of `Raft`
 * leaves exactly the state the corresponding function of RaftNode computes; what
 * those functions guarantee together is proved in RaftSafety.
 */
module RaftServer {
  import opened RaftTypes
  import opened RaftNode

  /** The gob-encoded raft state: absent, or the three fields persist() encodes. */
  datatype Saved = Empty | Saved(currentTerm: nat, votedFor: int, logs: seq<Entry>)

  class Persister {
    var raftstate: Saved
    var snapshot: seq<Command>

    constructor ()
      ensures raftstate == Empty && snapshot == []
    {
      raftstate, snapshot := Empty, [];
    }

    /** Later saves to either persister do not reach the other. */
    method Copy() returns (np: Persister)
      ensures fresh(np) && np.raftstate == raftstate && np.snapshot == snapshot
    {
      np := new Persister();
      np.raftstate := raftstate;
      np.snapshot := snapshot;
    }

    method Save(raftstate: Saved, snapshot: seq<Command>)
      modifies this
      ensures this.raftstate == raftstate && this.snapshot == snapshot
    {
      this.raftstate := raftstate;
      this.snapshot := snapshot;
    }

    /** What a server restarting from this persister finds. */
    function Contents(): Disk
      reads this
    {
      match raftstate
      case Empty => Disk(0, -1, [Entry(0, NIL)], snapshot)
      case Saved(t, v, l) => Disk(t, v, l, snapshot)
    }
  }

  /** The commands of indices `from + 1` to `to` of a log compacted at `snap`. */
  function Feed(logs: seq<Entry>, snap: nat, from: nat, to: nat): seq<Command>
    requires snap <= from && (from < to ==> to < snap + |logs|)
  {
    if from < to then Feed(logs, snap, from, to - 1) + [logs[to - snap].command] else []
  }

  lemma {:induction false} FeedAt(logs: seq<Entry>, snap: nat, from: nat, to: nat, i: nat)
    requires snap <= from < i <= to < snap + |logs|
    ensures |Feed(logs, snap, from, to)| == to - from && Feed(logs, snap, from, to)[i - from - 1] == logs[i - snap].command
  {
    if from + 1 < to {
      FeedAt(logs, snap, from, to - 1, if i < to then i else to - 1);
    }
  }

  /** What installing a snapshot changes, field by field. */
  lemma InstallsAs(nd: Node, a: InstallSnapshotArgs)
    requires Valid(nd) && |a.data| == a.lastIncludeIndex && nd.commitIndex < a.lastIncludeIndex
    requires a.term == nd.currentTerm && nd.role != Candidate
    ensures
      var logs := Retain(nd.logs, a.lastIncludeIndex - nd.snapLastIndex, a.lastIncludeTerm);
      var nd' := nd.(logs := logs, snapLastIndex := a.lastIncludeIndex, snapLastTerm := a.lastIncludeTerm,
                     commitIndex := a.lastIncludeIndex, lastApplied := a.lastIncludeIndex, service := a.data,
                     disk := Disk(nd.currentTerm, nd.votedFor, logs, a.data));
      InstallSnapshot(nd, a).0 == nd' && Valid(nd')
  {
  }

  class Raft {
    const me: nat
    const peers: nat
    const persister: Persister
    var currentTerm: nat
    var votedFor: int
    var logs: seq<Entry>
    var commitIndex: nat
    var lastApplied: nat
    var nextIndex: seq<nat>
    var matchIndex: seq<nat>
    var state: Role
    var voteCount: nat
    var snapLastIndex: nat
    var snapLastTerm: nat
    /** What the service behind applyCh has been fed. */
    var service: seq<Command>

    function Value(): Node
      reads this, persister
    {
      Node(me, peers, currentTerm, votedFor, logs, commitIndex, lastApplied, nextIndex, matchIndex,
           state, voteCount, snapLastIndex, snapLastTerm, service, persister.Contents())
    }

    predicate Ok()
      reads this, persister
    {
      Valid(Value())
    }

    /** Make: restart from whatever the persister holds. */
    constructor (me: nat, peers: nat, persister: Persister)
      requires me < peers && 1 <= |persister.Contents().logs| && -1 <= persister.Contents().votedFor
      ensures this.persister == persister && Ok()
      ensures Value() == Restart(me, peers, persister.Contents())
    {
      this.me, this.peers, this.persister := me, peers, persister;
      var disk := persister.Contents();
      currentTerm, votedFor, logs := disk.currentTerm, disk.votedFor, disk.logs;
      snapLastIndex, snapLastTerm := |disk.snapshot|, disk.logs[0].term;
      commitIndex, lastApplied := |disk.snapshot|, |disk.snapshot|;
      service := disk.snapshot;
      nextIndex, matchIndex := seq(peers, i => 1), seq(peers, i => 0);
      state, voteCount := Follower, 0;
    }

    method Persist()
      modifies persister
      ensures Value() == RaftNode.Persist(old(Value()))
    {
      persister.Save(Saved(currentTerm, votedFor, logs), persister.snapshot);
    }

    function GetLastIndex(): nat
      requires 1 <= |logs|
      reads this
    {
      |logs| - 1 + snapLastIndex
    }

    method StepDownToFollower(term: nat)
      modifies this`currentTerm, this`votedFor, this`state
      ensures Value() == StepDown(old(Value()), term)
    {
      state, currentTerm, votedFor := Follower, term, -1;
    }

    method RequestVote(args: RequestVoteArgs) returns (reply: RequestVoteReply)
      requires Ok()
      modifies this, persister
      ensures Ok() && (Value(), reply) == RaftNode.RequestVote(old(Value()), args)
    {
      if args.term < currentTerm {
        return RequestVoteReply(currentTerm, false);
      }
      if currentTerm < args.term {
        StepDownToFollower(args.term);
      }
      var granted := false;
      if (votedFor < 0 || votedFor == args.candidateId)
         && UpToDate(args.lastLogIndex, args.lastLogTerm, GetLastIndex(), logs[|logs| - 1].term) {
        granted := true;
        votedFor := args.candidateId;
      }
      Persist();
      reply := RequestVoteReply(currentTerm, granted);
    }

    method ConvertToCandidate()
      requires Ok()
      modifies this, persister
      ensures Ok() && Value() == RaftNode.ConvertToCandidate(old(Value()))
    {
      state, currentTerm, votedFor, voteCount := Candidate, currentTerm + 1, me, 1;
      Persist();
    }

    method HandleVoteReply(args: RequestVoteArgs, reply: RequestVoteReply)
      requires Ok()
      modifies this, persister
      ensures Ok() && Value() == VoteReply(old(Value()), args, reply)
    {
      if currentTerm < reply.term {
        StepDownToFollower(reply.term);
        Persist();
        return;
      }
      if state != Candidate || args.term != currentTerm || reply.term < currentTerm {
        return;
      }
      if reply.voteGranted {
        voteCount := voteCount + 1;
      }
    }

    method ConvertToLeader()
      requires Ok() && Wins(Value())
      modifies this
      ensures Ok() && Value() == RaftNode.ConvertToLeader(old(Value()))
    {
      state := Leader;
      var last := GetLastIndex();
      nextIndex, matchIndex := seq(peers, i => last + 1), seq(peers, i => 0);
      assert Value().nextIndex == RaftNode.ConvertToLeader(old(Value())).nextIndex;
    }

    method Start(command: Command) returns (index: int, term: int, isLeader: bool)
      requires Ok()
      modifies this, persister
      ensures Ok() && isLeader == (old(state) == Leader) && term == old(currentTerm)
      ensures !isLeader ==> Value() == old(Value()) && index == -1
      ensures isLeader ==> Value() == StartCommand(old(Value()), command) && index == old(GetLastIndex()) + 1
    {
      if state != Leader {
        return -1, currentTerm, false;
      }
      logs := logs + [Entry(currentTerm, command)];
      Persist();
      return GetLastIndex(), currentTerm, true;
    }

    /** Walk down from position `k` to the first entry of its term. */
    method FirstOfRun(k: nat) returns (first: nat)
      requires k < |logs|
      ensures first == RunStart(logs, k)
    {
      first := k;
      while 0 < first && logs[first - 1].term == logs[k].term
        invariant first <= k && logs[first].term == logs[k].term
        invariant RunStart(logs, first) == RunStart(logs, k)
      {
        first := first - 1;
      }
    }

    /** Keep entries that agree with `entries` from position `k` on; cut at the first that does not. */
    method TruncateAndAppend(k: nat, entries: seq<Entry>)
      requires k <= |logs|
      modifies this`logs
      ensures logs == Merge(old(logs), k, entries)
    {
      var i, j := k, 0;
      while i < |logs| && j < |entries| && logs[i].term == entries[j].term
        invariant i == k + j <= |logs| && j <= |entries|
        invariant Merge(logs, i, entries[j..]) == Merge(logs, k, entries)
      {
        assert entries[j..][1..] == entries[j + 1..];
        i, j := i + 1, j + 1;
      }
      if j < |entries| {
        logs := logs[..i] + entries[j..];
      }
    }

    /** A message from the leader of `term`, which is not before ours. */
    method HearLeader(term: nat)
      requires Ok() && currentTerm <= term
      modifies this`currentTerm, this`votedFor, this`state, persister
      ensures Ok() && Value() == RaftNode.Persist(Follow(old(Value()), term))
    {
      if currentTerm < term {
        StepDownToFollower(term);
      } else if state == Candidate {
        state := Follower;
      }
      Persist();
    }

    /** The consistency check, with the conflict hints of a rejection. */
    method CheckPrev(args: AppendEntriesArgs) returns (reply: AppendEntriesReply)
      requires Ok()
      ensures reply == Conflict(Value(), args)
    {
      if args.prevLogIndex < snapLastIndex {
        return AppendEntriesReply(currentTerm, false, snapLastIndex + 1, -1);
      }
      // follower log is shorter than leader's
      if args.prevLogIndex > GetLastIndex() {
        return AppendEntriesReply(currentTerm, false, GetLastIndex() + 1, -1);
      }
      // different term at prevLogIndex
      var k := args.prevLogIndex - snapLastIndex;
      if logs[k].term != args.prevLogTerm {
        var first := FirstOfRun(k);
        return AppendEntriesReply(currentTerm, false, snapLastIndex + first, logs[k].term);
      }
      reply := AppendEntriesReply(currentTerm, true, 0, -1);
    }

    method AppendEntries(args: AppendEntriesArgs) returns (reply: AppendEntriesReply)
      requires Ok()
      modifies this, persister
      ensures Ok() && (Value(), reply) == RaftNode.AppendEntries(old(Value()), args)
    {
      AppendEntriesValid(Value(), args);
      if args.term < currentTerm {
        return AppendEntriesReply(currentTerm, false, 0, -1);
      }
      HearLeader(args.term);
      reply := CheckPrev(args);
      if !reply.success {
        return;
      }
      TruncateAndAppend(args.prevLogIndex - snapLastIndex + 1, args.entries);
      if commitIndex < args.leaderCommit {
        commitIndex := Min(args.leaderCommit, GetLastIndex());
      }
      Persist();
    }

    method CountHolders(index: nat) returns (count: nat)
      requires Ok()
      ensures count == Holders(Value(), index, peers)
    {
      count := 0;
      for i := 0 to peers
        invariant count == Holders(Value(), index, i)
      {
        if i == me || index <= matchIndex[i] {
          count := count + 1;
        }
      }
    }

    /** Commit the largest index of the current term that a majority holds. */
    method UpdateCommitIndex()
      requires Ok()
      modifies this`commitIndex
      ensures Ok() && Value() == AdvanceCommit(old(Value()))
    {
      var i: nat := GetLastIndex();
      ghost var nd := Value();
      CommitScanRises(nd, i);
      while commitIndex < i
        invariant Value() == nd && i <= LastIndex(nd)
        invariant CommitScan(nd, i) == CommitScan(nd, LastIndex(nd))
      {
        var count := CountHolders(i);
        if logs[i - snapLastIndex].term == currentTerm && 2 * count > peers {
          commitIndex := i;
          return;
        }
        i := i - 1;
      }
    }

    method FindLastOfTerm(term: int) returns (k: int)
      requires 1 <= |logs|
      ensures k == LastOfTerm(logs, |logs| - 1, term)
    {
      k := |logs| - 1;
      while 0 <= k && logs[k].term != term
        invariant -1 <= k < |logs|
        invariant LastOfTerm(logs, k, term) == LastOfTerm(logs, |logs| - 1, term)
      {
        k := k - 1;
      }
    }

    method RecordMatch(server: nat, index: nat)
      requires Ok() && server < peers
      modifies this`matchIndex, this`nextIndex
      ensures Ok() && Value() == Matched(old(Value()), server, index)
    {
      if matchIndex[server] < index {
        matchIndex := matchIndex[server := index];
      }
      nextIndex := nextIndex[server := matchIndex[server] + 1];
    }

    /** The reply half of sendAppendEntries; `install` says that a snapshot must be sent. */
    method HandleAppendReply(server: nat, args: AppendEntriesArgs, reply: AppendEntriesReply) returns (install: bool)
      requires Ok() && server < peers
      modifies this, persister
      ensures Ok() && Value() == AppendReply(old(Value()), server, args, reply)
      ensures install == NeedsSnapshot(old(Value()), args, reply)
    {
      install := false;
      if currentTerm < reply.term {
        StepDownToFollower(reply.term);
        Persist();
        return;
      }
      if state != Leader || args.term != currentTerm || reply.term != currentTerm {
        return;
      }
      if reply.success {
        RecordMatch(server, args.prevLogIndex + |args.entries|);
      } else if reply.conflictIndex < snapLastIndex {
        install := true;
        return;
      } else if reply.conflictTerm < 0 {
        nextIndex := nextIndex[server := reply.conflictIndex];
      } else {
        var k := FindLastOfTerm(reply.conflictTerm);
        nextIndex := nextIndex[server := if k < 0 then reply.conflictIndex else snapLastIndex + k];
      }
      UpdateCommitIndex();
    }

    /** Feed the service the next committed command. */
    method ApplyOne() returns (x: Command)
      requires Ok() && lastApplied < commitIndex <= GetLastIndex()
      modifies this`lastApplied, this`service
      ensures Ok() && (Value(), x) == ApplyNext(old(Value()))
    {
      x := logs[lastApplied + 1 - snapLastIndex].command;
      service := service + [x];
      lastApplied := lastApplied + 1;
    }

    /** applyLogs: feed the service everything committed and not yet applied. */
    method ApplyLogs()
      requires Ok() && commitIndex <= GetLastIndex()
      modifies this`lastApplied, this`service
      ensures Ok() && lastApplied == Max(old(lastApplied), commitIndex)
      ensures service == old(service) + Feed(logs, snapLastIndex, old(lastApplied), commitIndex)
    {
      while lastApplied < commitIndex
        invariant Ok() && old(lastApplied) <= lastApplied <= Max(old(lastApplied), commitIndex)
        invariant service == old(service) + Feed(logs, snapLastIndex, old(lastApplied), lastApplied)
      {
        var x := ApplyOne();
      }
    }

    method Snapshot(index: nat, snapshot: seq<Command>)
      requires Ok() && index <= lastApplied && index <= commitIndex && index <= GetLastIndex()
      requires snapshot == service[..index]
      modifies this, persister
      ensures Ok() && Value() == RaftNode.Snapshot(old(Value()), index)
    {
      if index <= snapLastIndex { return; }
      snapLastTerm := logs[index - snapLastIndex].term;
      logs := [Entry(snapLastTerm, NIL)] + logs[index - snapLastIndex + 1..];
      snapLastIndex := index;
      persister.Save(persister.raftstate, snapshot);
      Persist();
    }

    method InstallSnapshot(args: InstallSnapshotArgs) returns (reply: InstallSnapshotReply)
      requires Ok() && |args.data| == args.lastIncludeIndex
      modifies this, persister
      ensures Ok() && (Value(), reply) == RaftNode.InstallSnapshot(old(Value()), args)
    {
      if args.term < currentTerm {
        return InstallSnapshotReply(currentTerm);
      }
      HearLeader(args.term);
      reply := InstallSnapshotReply(currentTerm);
      if commitIndex < args.lastIncludeIndex {
        ReplaceBySnapshot(args);
      }
    }

    method ReplaceBySnapshot(args: InstallSnapshotArgs)
      requires Ok() && |args.data| == args.lastIncludeIndex
      requires commitIndex < args.lastIncludeIndex && args.term == currentTerm && state != Candidate
      modifies this, persister
      ensures Ok() && Value() == RaftNode.InstallSnapshot(old(Value()), args).0
    {
      InstallsAs(Value(), args);
      var k := args.lastIncludeIndex - snapLastIndex;
      if k < |logs| && logs[k].term == args.lastIncludeTerm {
        // retain what follows
        logs := [Entry(args.lastIncludeTerm, NIL)] + logs[k + 1..];
      } else {
        logs := [Entry(args.lastIncludeTerm, NIL)];
      }
      assert logs == Retain(old(logs), k, args.lastIncludeTerm);
      snapLastIndex, snapLastTerm := args.lastIncludeIndex, args.lastIncludeTerm;
      commitIndex, lastApplied, service := args.lastIncludeIndex, args.lastIncludeIndex, args.data;
      persister.Save(Saved(currentTerm, votedFor, logs), args.data);
    }

    /** The reply half of sendInstallSnapshot. */
    method HandleSnapshotReply(server: nat, args: InstallSnapshotArgs, reply: InstallSnapshotReply)
      requires Ok() && server < peers
      modifies this, persister
      ensures Ok() && Value() == SnapshotReply(old(Value()), server, args, reply)
    {
      if currentTerm < reply.term {
        StepDownToFollower(reply.term);
        Persist();
      } else if state == Leader && args.term == currentTerm && reply.term == currentTerm {
        RecordMatch(server, args.lastIncludeIndex);
      }
    }
  }
}
