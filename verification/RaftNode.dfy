/**
 * One Raft server as a value: the fields of `Raft`, what its persister holds, and
 * the service it feeds. Each function is one critical section of the server; the
 * methods of RaftServer.Raft are proved to compute exactly these functions.
 *
 * `logs[0]` is a sentinel standing for index `snapLastIndex`; the entry at Raft
 * index i is `logs[i - snapLastIndex]`. A snapshot is the list of commands it covers.
 */
module RaftNode {
  import opened RaftTypes

  datatype Role = Follower | Candidate | Leader

  datatype Disk = Disk(currentTerm: nat, votedFor: int, logs: seq<Entry>, snapshot: seq<Command>)

  datatype Node = Node(
    me: nat, n: nat,
    currentTerm: nat, votedFor: int, logs: seq<Entry>,
    commitIndex: nat, lastApplied: nat,
    nextIndex: seq<nat>, matchIndex: seq<nat>,
    role: Role, voteCount: nat,
    snapLastIndex: nat, snapLastTerm: nat,
    service: seq<Command>,
    disk: Disk)

  datatype RequestVoteArgs = RequestVoteArgs(term: nat, candidateId: nat, lastLogIndex: nat, lastLogTerm: nat)
  datatype RequestVoteReply = RequestVoteReply(term: nat, voteGranted: bool)

  datatype AppendEntriesArgs = AppendEntriesArgs(
    term: nat, leaderId: nat, prevLogIndex: nat, prevLogTerm: nat, leaderCommit: nat, entries: seq<Entry>)
  datatype AppendEntriesReply = AppendEntriesReply(term: nat, success: bool, conflictIndex: nat, conflictTerm: int)

  datatype InstallSnapshotArgs = InstallSnapshotArgs(
    term: nat, leaderId: nat, lastIncludeIndex: nat, lastIncludeTerm: nat, data: seq<Command>)
  datatype InstallSnapshotReply = InstallSnapshotReply(term: nat)

  /** What a server keeps true of its own fields, whatever it is sent. */
  predicate Valid(nd: Node) {
    && nd.me < nd.n
    && -1 <= nd.votedFor
    && 1 <= |nd.logs|
    && nd.logs[0].term == nd.snapLastTerm
    && |nd.nextIndex| == nd.n && |nd.matchIndex| == nd.n
    && nd.snapLastIndex == |nd.disk.snapshot|
    && nd.snapLastIndex <= nd.lastApplied && nd.snapLastIndex <= nd.commitIndex
    && |nd.service| == nd.lastApplied
    && Persisted(nd)
  }

  /** currentTerm, votedFor and logs are on disk. */
  predicate Persisted(nd: Node) {
    nd.disk.currentTerm == nd.currentTerm && nd.disk.votedFor == nd.votedFor && nd.disk.logs == nd.logs
  }

  function Persist(nd: Node): Node {
    nd.(disk := Disk(nd.currentTerm, nd.votedFor, nd.logs, nd.disk.snapshot))
  }

  function LastIndex(nd: Node): nat
    requires 1 <= |nd.logs|
  {
    |nd.logs| - 1 + nd.snapLastIndex
  }

  /** Index `i` is in the log or is the one its sentinel stands for. */
  predicate Holds(nd: Node, i: nat)
    requires 1 <= |nd.logs|
  {
    nd.snapLastIndex <= i <= LastIndex(nd)
  }

  function LogTerm(nd: Node, i: nat): nat
    requires nd.snapLastIndex <= i <= nd.snapLastIndex + |nd.logs| - 1
  {
    nd.logs[i - nd.snapLastIndex].term
  }

  function Fresh(me: nat, n: nat): Node
    requires me < n
  {
    Restart(me, n, Disk(0, -1, [Entry(0, NIL)], []))
  }

  /** Make: everything but the persisted state starts over. */
  function Restart(me: nat, n: nat, disk: Disk): Node
    requires me < n && 1 <= |disk.logs|
  {
    Node(me, n, disk.currentTerm, disk.votedFor, disk.logs,
         |disk.snapshot|, |disk.snapshot|, seq(n, i => 1), seq(n, i => 0),
         Follower, 0, |disk.snapshot|, disk.logs[0].term, disk.snapshot, disk)
  }

  function StepDown(nd: Node, term: nat): Node {
    nd.(currentTerm := term, votedFor := -1, role := Follower)
  }

  // ----- elections -----

  function RequestVote(nd: Node, a: RequestVoteArgs): (Node, RequestVoteReply)
    requires Valid(nd)
  {
    if a.term < nd.currentTerm then (nd, RequestVoteReply(nd.currentTerm, false))
    else
      var d := if nd.currentTerm < a.term then StepDown(nd, a.term) else nd;
      if (d.votedFor < 0 || d.votedFor == a.candidateId)
         && UpToDate(a.lastLogIndex, a.lastLogTerm, LastIndex(d), LogTerm(d, LastIndex(d)))
      then (Persist(d.(votedFor := a.candidateId)), RequestVoteReply(d.currentTerm, true))
      else (Persist(d), RequestVoteReply(d.currentTerm, false))
  }

  function ConvertToCandidate(nd: Node): Node {
    Persist(nd.(currentTerm := nd.currentTerm + 1, votedFor := nd.me, role := Candidate, voteCount := 1))
  }

  function VoteArgs(nd: Node): RequestVoteArgs
    requires Valid(nd)
  {
    RequestVoteArgs(nd.currentTerm, nd.me, LastIndex(nd), LogTerm(nd, LastIndex(nd)))
  }

  function VoteReply(nd: Node, a: RequestVoteArgs, r: RequestVoteReply): Node {
    if nd.currentTerm < r.term then Persist(StepDown(nd, r.term))
    else if nd.role != Candidate || a.term != nd.currentTerm || r.term < nd.currentTerm || !r.voteGranted then nd
    else nd.(voteCount := nd.voteCount + 1)
  }

  predicate Wins(nd: Node) {
    nd.role == Candidate && 2 * nd.voteCount > nd.n
  }

  function ConvertToLeader(nd: Node): Node
    requires Valid(nd) && Wins(nd)
  {
    nd.(role := Leader, nextIndex := seq(nd.n, i => LastIndex(nd) + 1), matchIndex := seq(nd.n, i => 0))
  }

  // ----- replication -----

  function StartCommand(nd: Node, x: Command): Node
    requires nd.role == Leader
  {
    Persist(nd.(logs := nd.logs + [Entry(nd.currentTerm, x)]))
  }

  /** A message with the `count` entries after index `prev`, none of them for a heartbeat. */
  function AppendSlice(nd: Node, prev: nat, count: nat, commit: nat): AppendEntriesArgs
    requires nd.snapLastIndex <= prev && prev + count < nd.snapLastIndex + |nd.logs|
  {
    var k := prev - nd.snapLastIndex + 1;
    AppendEntriesArgs(nd.currentTerm, nd.me, prev, LogTerm(nd, prev), commit, nd.logs[k..k + count])
  }

  /** Everything from nextIndex on. */
  function AppendArgs(nd: Node, p: nat): AppendEntriesArgs
    requires p < |nd.nextIndex| && nd.snapLastIndex < nd.nextIndex[p] <= nd.snapLastIndex + |nd.logs|
  {
    var prev := nd.nextIndex[p] - 1;
    AppendSlice(nd, prev, LastIndex(nd) - prev, nd.commitIndex)
  }

  /** First position, going down from `k`, of the run of entries with the term found at `k`. */
  function RunStart(logs: seq<Entry>, k: nat): (r: nat)
    requires k < |logs|
    ensures r <= k
    ensures forall i :: r <= i <= k ==> logs[i].term == logs[k].term
    ensures 0 < r ==> logs[r - 1].term != logs[k].term
  {
    if k == 0 || logs[k - 1].term != logs[k].term then k else RunStart(logs, k - 1)
  }

  /** Last position of `term` at or below `k`, or -1. */
  function LastOfTerm(logs: seq<Entry>, k: int, term: int): (r: int)
    requires k < |logs|
    ensures -1 <= r && (r <= k || r == -1)
    ensures 0 <= r ==> logs[r].term == term
    ensures forall i :: 0 <= i <= k && r < i ==> logs[i].term != term
    decreases if k < 0 then 0 else k + 1
  {
    if k < 0 then -1 else if logs[k].term == term then k else LastOfTerm(logs, k - 1, term)
  }

  /** Entries already present with the right term stay; the first conflict cuts the log. */
  function Merge(logs: seq<Entry>, k: nat, es: seq<Entry>): (r: seq<Entry>)
    requires k <= |logs|
    ensures k <= |r| && forall i :: 0 <= i < k ==> r[i] == logs[i]
    decreases |es|
  {
    if es == [] then logs
    else if k < |logs| && logs[k].term == es[0].term then Merge(logs, k + 1, es[1..])
    else logs[..k] + es
  }

  /** Success if the log matches at prevLogIndex, otherwise a rejection with the hints for fast back-up. */
  function Conflict(nd: Node, a: AppendEntriesArgs): (r: AppendEntriesReply)
    requires Valid(nd)
    ensures r.success <==> nd.snapLastIndex <= a.prevLogIndex <= LastIndex(nd) && LogTerm(nd, a.prevLogIndex) == a.prevLogTerm
    ensures r.term == nd.currentTerm
  {
    var t := nd.currentTerm;
    if a.prevLogIndex < nd.snapLastIndex then AppendEntriesReply(t, false, nd.snapLastIndex + 1, -1)
    else if a.prevLogIndex > LastIndex(nd) then AppendEntriesReply(t, false, LastIndex(nd) + 1, -1)
    else
      var k := a.prevLogIndex - nd.snapLastIndex;
      if nd.logs[k].term != a.prevLogTerm then
        AppendEntriesReply(t, false, nd.snapLastIndex + RunStart(nd.logs, k), nd.logs[k].term)
      else AppendEntriesReply(t, true, 0, -1)
  }

  /** Hear from the leader of `term`, which is not before ours. */
  function Follow(nd: Node, term: nat): Node {
    if nd.currentTerm < term then StepDown(nd, term)
    else if nd.role == Candidate then nd.(role := Follower)
    else nd
  }

  function AppendEntries(nd: Node, a: AppendEntriesArgs): (Node, AppendEntriesReply)
    requires Valid(nd)
  {
    if a.term < nd.currentTerm then (nd, AppendEntriesReply(nd.currentTerm, false, 0, -1))
    else
      var d := Persist(Follow(nd, a.term));
      var r := Conflict(d, a);
      if !r.success then (d, r)
      else
        var logs := Merge(d.logs, a.prevLogIndex - d.snapLastIndex + 1, a.entries);
        var commit := if d.commitIndex < a.leaderCommit
                      then Min(a.leaderCommit, |logs| - 1 + d.snapLastIndex)
                      else d.commitIndex;
        (Persist(d.(logs := logs, commitIndex := commit)), r)
  }

  /** How many servers among the first `k` hold index `i`, the leader included. */
  function Holders(nd: Node, i: nat, k: nat): nat
    requires k <= |nd.matchIndex|
  {
    if k == 0 then 0
    else Holders(nd, i, k - 1) + (if k - 1 == nd.me || i <= nd.matchIndex[k - 1] then 1 else 0)
  }

  /** The largest index at or below `i` a majority holds and that is of the current term. */
  function CommitScan(nd: Node, i: nat): nat
    requires Valid(nd) && i <= LastIndex(nd)
  {
    if i <= nd.commitIndex then nd.commitIndex
    else if LogTerm(nd, i) == nd.currentTerm && 2 * Holders(nd, i, nd.n) > nd.n then i
    else CommitScan(nd, i - 1)
  }

  function AdvanceCommit(nd: Node): Node
    requires Valid(nd)
  {
    nd.(commitIndex := CommitScan(nd, LastIndex(nd)))
  }

  predicate Current(nd: Node, argsTerm: nat, replyTerm: nat) {
    nd.role == Leader && argsTerm == nd.currentTerm && replyTerm == nd.currentTerm
  }

  predicate NeedsSnapshot(nd: Node, a: AppendEntriesArgs, r: AppendEntriesReply) {
    Current(nd, a.term, r.term) && !r.success && r.conflictIndex < nd.snapLastIndex
  }

  /** Where to try next after a rejection that does not need a snapshot. */
  function BackUp(nd: Node, r: AppendEntriesReply): nat
    requires 1 <= |nd.logs|
  {
    if r.conflictTerm < 0 then r.conflictIndex
    else
      var k := LastOfTerm(nd.logs, |nd.logs| - 1, r.conflictTerm);
      if k < 0 then r.conflictIndex else nd.snapLastIndex + k
  }

  /** matchIndex does not regress on a stale reply. */
  function Matched(nd: Node, p: nat, m: nat): Node
    requires p < |nd.matchIndex| && p < |nd.nextIndex|
  {
    var m' := Max(nd.matchIndex[p], m);
    nd.(matchIndex := nd.matchIndex[p := m'], nextIndex := nd.nextIndex[p := m' + 1])
  }

  function AppendReply(nd: Node, p: nat, a: AppendEntriesArgs, r: AppendEntriesReply): Node
    requires Valid(nd) && p < nd.n
  {
    if nd.currentTerm < r.term then Persist(StepDown(nd, r.term))
    else if !Current(nd, a.term, r.term) || NeedsSnapshot(nd, a, r) then nd
    else if r.success then AdvanceCommit(Matched(nd, p, a.prevLogIndex + |a.entries|))
    else AdvanceCommit(nd.(nextIndex := nd.nextIndex[p := BackUp(nd, r)]))
  }

  // ----- applying and snapshots -----

  function ApplyNext(nd: Node): (Node, Command)
    requires Valid(nd) && nd.lastApplied < nd.commitIndex <= LastIndex(nd)
  {
    var x := nd.logs[nd.lastApplied + 1 - nd.snapLastIndex].command;
    (nd.(lastApplied := nd.lastApplied + 1, service := nd.service + [x]), x)
  }

  /** Snapshot(index, data) with the data the service holds after `index` commands. */
  function Snapshot(nd: Node, index: nat): Node
    requires Valid(nd) && index <= nd.lastApplied && index <= nd.commitIndex && index <= LastIndex(nd)
  {
    if index <= nd.snapLastIndex then nd
    else
      var k := index - nd.snapLastIndex;
      Persist(nd.(snapLastTerm := nd.logs[k].term,
                  logs := [Entry(nd.logs[k].term, NIL)] + nd.logs[k + 1..],
                  snapLastIndex := index,
                  disk := nd.disk.(snapshot := nd.service[..index])))
  }

  function SnapshotArgs(nd: Node): InstallSnapshotArgs {
    InstallSnapshotArgs(nd.currentTerm, nd.me, nd.snapLastIndex, nd.snapLastTerm, nd.disk.snapshot)
  }

  /** What remains of `logs` above a snapshot ending at position `k` with term `t`. */
  function Retain(logs: seq<Entry>, k: nat, t: nat): seq<Entry> {
    [Entry(t, NIL)] + (if k < |logs| && logs[k].term == t then logs[k + 1..] else [])
  }

  predicate Installs(nd: Node, a: InstallSnapshotArgs) {
    nd.currentTerm <= a.term && nd.commitIndex < a.lastIncludeIndex
  }

  function InstallSnapshot(nd: Node, a: InstallSnapshotArgs): (Node, InstallSnapshotReply)
    requires Valid(nd) && |a.data| == a.lastIncludeIndex
  {
    if a.term < nd.currentTerm then (nd, InstallSnapshotReply(nd.currentTerm))
    else
      var d := Persist(Follow(nd, a.term));
      if !Installs(nd, a) then (d, InstallSnapshotReply(d.currentTerm))
      else
        (Persist(d.(logs := Retain(d.logs, a.lastIncludeIndex - d.snapLastIndex, a.lastIncludeTerm),
                    snapLastIndex := a.lastIncludeIndex, snapLastTerm := a.lastIncludeTerm,
                    commitIndex := a.lastIncludeIndex, lastApplied := a.lastIncludeIndex,
                    service := a.data, disk := d.disk.(snapshot := a.data))),
         InstallSnapshotReply(d.currentTerm))
  }

  function SnapshotReply(nd: Node, p: nat, a: InstallSnapshotArgs, r: InstallSnapshotReply): Node
    requires Valid(nd) && p < nd.n
  {
    if nd.currentTerm < r.term then Persist(StepDown(nd, r.term))
    else if !Current(nd, a.term, r.term) then nd
    else Matched(nd, p, a.lastIncludeIndex)
  }

  // ----- every handler keeps a server well formed -----

  lemma HandlersValid(nd: Node)
    requires Valid(nd)
    ensures forall a :: Valid(RequestVote(nd, a).0)
    ensures Valid(ConvertToCandidate(nd))
    ensures forall a, r :: Valid(VoteReply(nd, a, r))
    ensures Wins(nd) ==> Valid(ConvertToLeader(nd))
    ensures nd.role == Leader ==> forall x :: Valid(StartCommand(nd, x))
  {
  }

  lemma AppendEntriesValid(nd: Node, a: AppendEntriesArgs)
    requires Valid(nd)
    ensures Valid(AppendEntries(nd, a).0)
  {
  }

  lemma {:induction false} CommitScanRises(nd: Node, i: nat)
    requires Valid(nd) && i <= LastIndex(nd)
    ensures
      var c := CommitScan(nd, i);
      c == nd.commitIndex ||
      (nd.commitIndex < c <= i && LogTerm(nd, c) == nd.currentTerm && 2 * Holders(nd, c, nd.n) > nd.n)
  {
    if nd.commitIndex < i && !(LogTerm(nd, i) == nd.currentTerm && 2 * Holders(nd, i, nd.n) > nd.n) {
      CommitScanRises(nd, i - 1);
    }
  }

  lemma ReplyValid(nd: Node, p: nat, a: AppendEntriesArgs, r: AppendEntriesReply)
    requires Valid(nd) && p < nd.n
    ensures Valid(AppendReply(nd, p, a, r))
  {
    if nd.currentTerm >= r.term && Current(nd, a.term, r.term) && !NeedsSnapshot(nd, a, r) {
      var d := if r.success then Matched(nd, p, a.prevLogIndex + |a.entries|) else nd.(nextIndex := nd.nextIndex[p := BackUp(nd, r)]);
      CommitScanRises(d, LastIndex(d));
    }
  }

  lemma SnapshotsValid(nd: Node)
    requires Valid(nd)
    ensures nd.lastApplied < nd.commitIndex <= LastIndex(nd) ==> Valid(ApplyNext(nd).0)
    ensures forall i: nat :: i <= nd.lastApplied && i <= nd.commitIndex && i <= LastIndex(nd) ==> Valid(Snapshot(nd, i))
    ensures forall a: InstallSnapshotArgs :: |a.data| == a.lastIncludeIndex ==> Valid(InstallSnapshot(nd, a).0)
    ensures forall p: nat, a, r :: p < nd.n ==> Valid(SnapshotReply(nd, p, a, r))
    ensures Valid(Restart(nd.me, nd.n, nd.disk))
  {
  }
}
