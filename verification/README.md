# Verified model of the 6.5840 labs: Raft, MapReduce, labrpc, labgob, shard controller

This project models the distributed-systems code of the repository in Dafny and proves what it is
for: Raft's safety over every run and that no run ever makes it unable to go on, MapReduce's result over
every run, durability of acknowledged RPCs across crashes, and exact behaviour of the type checker, of the shard controller's apply loop
and of the test harness's agreement checker. `dafny verify dfyconfig.toml` checks everything.

## How it is built

**Raft.** `RaftNode` gives each handler as a function on one server's fields (compacted log with a
sentinel, `snapLastIndex`, what is on disk); `RaftServer` is the mutable object with its loops, each
method proved to leave exactly the state its function computes. `RaftCluster` is the protocol: a
cluster of servers and a bag of messages, whose steps are timeout, receipt of any of the six
messages, winning, `Start`, sending, applying, `Snapshot` and crash-and-restart. Messages may be lost,
delayed and reordered; AppendEntries and InstallSnapshot traffic may also be repeated. Vote messages
are consumed once, which is what labrpc provides (`LabRpc.AtMostOnce`).

The proof has two layers. `RaftCore` is a protocol without messages: the log of every leader's
reign, the votes with the log each voter had, and the acknowledgements. `RaftCoreSteps` proves its
invariants (every log is a prefix of what some leader had at each entry, votes and acknowledgements
bind later logs) and `RaftCore` derives leader completeness by quorum intersection.
`RaftCoupling` ties a cluster with compacted logs and messages in flight to a core;
`RaftSimulation`, `RaftElections`, `RaftReplication` and `RaftCompaction` prove that each cluster
step is matched by core steps. `RaftSafety` states the theorems about runs, `RaftRounds` and `RaftBackup`
what request and reply achieve, `RaftTerms` how terms move and who steps down. `RaftRuns` continues runs step by step: `RaftCatchUp` shows that from every
state a leader can bring any peer up to date, `RaftProgress` that any majority, acting alone, can always still
elect a leader and deliver a new command, and that fewer never can; `RaftRising` and `RaftRivals` build particular runs. `RaftFleet` drives the server objects by any schedule and proves that
this is a run of the cluster.

**Listings.** Most Raft bodies in `raft/raft.go` are elided. The model follows the printed listings in
the repository's own `README.md`, the comments left in `raft/raft.go`, and its own state and argument structures. Where a
listing stops short of what its comment says, `RaftListings` states what the listing computes and
exactly when that is right, with runs of three servers (`RaftRivals`) in which it is not: InstallSnapshot's
slice keeps one entry too many, keeping a suffix needs the term check, the two saves in Snapshot are not atomic, and the cap on the commit index needs the
leader to send up to its commit index. The cluster uses the form those comments describe.

Choices made where nothing is printed: a message whose previous index lies below the follower's
snapshot is rejected with a hint just above it; a snapshot is installed only if it reaches beyond the
follower's commit index; `nextIndex` backs up to the last index of the conflicting term; a leader may send
any slice of its log; a higher term always makes a server step down, although the printed
RequestVote omits it (the comment at `raft/raft.go:226` asks for it); a follower that is too short
answers with `ConflictTerm < 0` as the code at `raft/raft.go:302` expects, not with the term of its last
entry as the prose says. A snapshot's data is the list of commands it covers, as in the test harness.

**MapReduce.** `MrWorker` and `MrReduce` are the bucket writing, reading, sorting and grouping loops over
a file system of key/value lists; `MrServer` is the coordinator object, `MrCoordinator` its handlers as
functions; `MrSystem` interleaves coordinator and any number of workers, any task run any number of times.
Each handler call, one map task's writes, and one reduce task's read and write are one step; the source
tests some fields outside its lock, so this is an assumption. `mapf` and `reducef` are functions; the sort
is not stable, so `reducef` sees the values of a key in some order. `ihash` is any function. A map task opens
only the bucket files it has pairs for, so a file left over from an earlier job can be read as if it were a
bucket; `Clean` is the exact condition under which that does not happen, and `MrExact` shows that it is also
the exact condition for a correct output. `MrProgress` shows that no run is stuck.

**Network and persistence.** `LabRpc` runs calls, handlers, the drain goroutine, the network's tables, the
tester's crash and restart, and all server instances (dead ones keep saving) as one step machine. A
server object, once deleted, is not added again. `LabCalls` says over whole runs when a call is served, cut off
or can succeed, and what survives. `RaftTester` and `LabNetwork` are the objects themselves.

**The rest.** `LabGob` is the recursive type check over a possibly cyclic type graph; `isUpper` is a
parameter. `ShardCtrler`, `ShardReplies` and `ShardServer` are the apply loop, the reply channels and the
object; what the four commands do is a parameter. `ApplyChecker` is the harness's agreement check.

## Model

| member | source | states |
|---|---|---|
| RaftSafety.StateMachineSafety | README.md:178-198 | over every run with loss, reordering, crashes and snapshots, no two servers are ever handed different commands at one index |
| RaftSafety.ServicesAgree | README.md:193-196 | at any two moments of a run, of any two services one has been fed a prefix of the other |
| RaftSafety.LeadersAreComplete | raft/raft.go:316-317 | whatever any server has committed by some moment is, terms and commands, in the log of every leader of a later term, then or later |
| RaftSafety.LogMatching | README.md:162-165 | logs that have equal terms at one index, at any two moments, have the same terms wherever both still hold them and the same commands up to it, compacted or not |
| RaftSafety.ElectionSafety | README.md:138-155 | over the whole run, crashes included, at most one server is leader in a term |
| RaftSafety.NeverOutOfBounds | raft/raft.go:202-210 | no handler in a reachable cluster indexes a log or peer slice out of bounds |
| RaftSafety.SnapshotsRefine | README.md:241-287 | every run is told by logs that are never compacted: each server refines its own at every moment; Start appends, an accepted AppendEntries merges, InstallSnapshot puts the snapshot's prefix before the retained suffix, all else leaves them; entries of equal term at an index mean equal logs up to it, and later leaders hold what was committed |
| RaftSafety.InstalledIsSenders | README.md:264-287 | the prefix a snapshot puts in place is that of the log its sender had when it sent it |
| RaftSafety.Simulates | README.md:85-122 | every step of the cluster is matched by a sequence of enabled events of the message-free protocol that keeps the coupling |
| RaftSafety.Shadow | README.md:85-122 | every run has a run of the message-free protocol beside it, from its start, whose logs change as the actions say and each of whose states extends the earlier ones |
| RaftSafety.RunOfCore | README.md:85-122 | every state of a run is coupled to one that events of the message-free protocol lead to from its start |
| RaftCore.LeaderCompleteness | raft/raft.go:316-317 | a log prefix a majority acknowledged in one reign is in the log of every later reign |
| RaftCore.CandidateHolds | raft/raft.go:236-240 | a candidate at least as up to date as a voter that has a committed prefix has it too |
| RaftCore.Matching | README.md:164-165 | logs whose entries each come from the leader of their term agree up to any index where their terms agree |
| RaftCore.CommittedAgree | raft/raft.go:316-317 | two committed prefixes, of any terms, are prefixes of one another |
| RaftCore.AdoptKeeps | raft/raft.go:279-279 | conflict-only truncation keeps what the follower shares with the leader |
| RaftCoreSteps.StepInv | README.md:138-198 | every step keeps the full invariant: shape, groundedness, votes and acknowledgements that bind, commit prefixes |
| RaftCoreSteps.OneLeader | README.md:138-155 | a majority of votes in a term that has a leader is for that leader |
| RaftCoreSteps.HeldKept | README.md:214-214 | every step keeps: what a server acknowledged to a leader stays in its log until a later leader overrules it |
| RaftCoreSteps.SwornKept | README.md:148-153 | every step keeps: the log a voter had when it voted holds what it had acknowledged in earlier terms |
| RaftCoreSteps.CommitsKept | README.md:192-196 | every step keeps: each server's commit index covers a committed prefix |
| RaftElections.OnTimeout | README.md:104-119 | starting an election keeps the coupling |
| RaftElections.OnVoteReq | README.md:138-155 | handling a vote request keeps the coupling: a granted reply in flight stands for a vote cast |
| RaftElections.OnVoteRep | raft/raft.go:256-258 | handling a vote reply keeps the coupling: votes counted and granted replies in flight are of distinct voters |
| RaftElections.Majority | raft/raft.go:356-358 | a candidate whose count exceeds half has a majority set of voters of its term that elects it in the message-free protocol |
| RaftElections.OnWin | raft/raft.go:356-358 | becoming leader keeps the coupling: the reign that starts has the candidate's log |
| RaftTerms.LaterTermIsTaken | raft/raft.go:226-228 | in every run, whichever of the six messages is received, the receiver's term is afterwards the later of its own and the message's; if that is new it is a follower, has voted for nobody or for the candidate that asks, and has both on disk |
| RaftTerms.LeaderIsFollowed | README.md:126-128 | in every run, who handles a leader's call of a term not before its own is afterwards a follower in that term |
| RaftTerms.StaleIsRefused | README.md:143-147 | a call of an earlier term changes nobody and is refused with the receiver's own term |
| RaftTerms.AnsweredStepsDown | README.md:94-97 | every run in which a candidate's or leader's call is on its way to a server in a later term can be continued by those two so that the caller steps down to that term, on disk |
| RaftTerms.VoteExactly | README.md:138-155 | a vote is granted exactly when the term is not earlier, no other candidate has it, and the last entry is of a later term or of the same term in a log not shorter |
| RaftTerms.WinExactly | README.md:111-119 | in every run a candidate can take office exactly when it counts the votes of more than half the servers |
| RaftTerms.OfficeStarts | raft/raft.go:356-358 | it then has nextIndex after its last entry and matchIndex 0 for every peer |
| RaftSimulation.OnAppendReq | README.md:178-198 | handling AppendEntries, stale or not, keeps the coupling |
| RaftSimulation.MergeAdopts | raft/raft.go:279-279 | merging into a compacted log is adopting the leader's prefix in the uncompacted one |
| RaftReplication.OnSubmit | raft/raft.go:341-343 | appending a command keeps the coupling with the leader's reign one entry longer |
| RaftReplication.OnSend | raft/raft.go:323-327 | sending any slice of the log, an empty heartbeat included, with any commit index up to its own and to what is sent, or the snapshot, keeps the coupling |
| RaftReplication.OnAppendRep | raft/raft.go:290-321 | match, back-up and commit on a reply keep the coupling |
| RaftReplication.RuleCommits | raft/raft.go:316-317 | the counting rule implies commitment by a majority of acknowledgements |
| RaftReplication.HoldersCount | raft/raft.go:316-317 | the loop counts exactly the set of servers with matchIndex at least N, the leader included |
| RaftCompaction.OnSnapReq | README.md:264-287 | installing a snapshot, with a retained suffix or without, keeps the coupling |
| RaftCompaction.OnCompact | README.md:241-257 | taking a snapshot keeps the coupling |
| RaftCompaction.OnCrash | README.md:213-229 | a crash and restart from disk keeps the coupling |
| RaftCompaction.OnHand | raft/raft.go:242-249 | handing the service a command or a snapshot keeps the coupling |
| RaftRounds.MergeExactly | raft/raft.go:279-279 | the log changes exactly when some entry sent is missing or conflicts, and afterwards holds all of them |
| RaftRounds.MergeCuts | raft/raft.go:279-279 | when it changes, it is cut at the first entry that conflicts or is missing and continues with the entries sent |
| RaftRounds.AppendTwice | README.md:178-198 | a repeated AppendEntries changes nothing and gets the same reply |
| RaftRounds.CommitExactly | raft/raft.go:316-317 | the commit index becomes the largest index that a majority set holds and that is of the current term, or stays |
| RaftRounds.Accepted | README.md:178-198 | an accepted message leaves every entry sent in the log and the commit index at the larger of both |
| RaftRounds.AppendRound | raft/raft.go:290-297 | one round to a follower that matches puts every entry sent in its log and brings the leader's matchIndex to its last index |
| RaftRounds.RoundGivesLog | raft/raft.go:290-297 | in every run that makes the follower's log, terms and commands, the leader's up to the leader's last index |
| RaftRounds.SnapshotRound | raft/raft.go:157-166 | one round to a follower behind the snapshot gives it exactly the snapshot and the leader moves past it |
| RaftRounds.SnapshotKeeps | README.md:241-257 | a snapshot keeps every entry above it at its index, and a restart finds the rest in the snapshot |
| RaftNode.RunStart | README.md:174-174 | first position of the run of entries with the conflicting term |
| RaftNode.LastOfTerm | raft/raft.go:307-312 | last position of a term, or -1 if it does not occur |
| RaftNode.Conflict | README.md:181-186 | success exactly when the previous index is in the log with the previous term |
| RaftNode.CommitScanRises | raft/raft.go:316-317 | the commit index never falls, and rises only to an index the rule allows |
| RaftNode.AppendEntriesValid | README.md:178-198 | the server stays well formed and persisted, whatever it is sent |
| RaftNode.ReplyValid | raft/raft.go:290-321 | the server stays well formed and persisted after every AppendEntries reply |
| RaftNode.HandlersValid | README.md:213-226 | after every vote and leader step the term, vote and log are on disk |
| RaftNode.SnapshotsValid | README.md:241-287 | likewise after applying, Snapshot, InstallSnapshot and restart |
| RaftServer.Persister.constructor | raft/persister.go:20-22 | empty |
| RaftServer.Persister.Copy | raft/persister.go:30-37 | a new object with the same contents |
| RaftServer.Persister.Save | raft/persister.go:53-58 | replaces state and snapshot together |
| RaftServer.Raft.constructor | raft/raft.go:402-417 | the new server's whole state is that of a restart from the persister's contents |
| RaftServer.Raft.Persist | README.md:218-226 | writes term, vote and log, keeps the snapshot |
| RaftServer.Raft.RequestVote | README.md:138-155 | state and reply of the handler function |
| RaftServer.Raft.ConvertToCandidate | raft/raft.go:361-363 | the state an election starts from, persisted |
| RaftServer.Raft.HandleVoteReply | raft/raft.go:256-258 | the state after counting a reply or stepping down |
| RaftServer.Raft.ConvertToLeader | raft/raft.go:356-358 | fresh nextIndex and matchIndex for every peer |
| RaftServer.Raft.Start | raft/raft.go:341-343 | appends at the index returned, or refuses when not leader; the term returned is the current one |
| RaftServer.Raft.FirstOfRun | README.md:174-174 | the loop down the log finds the start of the run |
| RaftServer.Raft.TruncateAndAppend | README.md:188-189 | the loop over the entries computes the merge function |
| RaftServer.Raft.AppendEntries | README.md:178-198 | state and reply of the handler function |
| RaftServer.Raft.CountHolders | raft/raft.go:316-317 | the loop over matchIndex counts the holders |
| RaftServer.Raft.UpdateCommitIndex | raft/raft.go:316-317 | the loop down from the last index finds the largest the rule allows |
| RaftServer.Raft.FindLastOfTerm | raft/raft.go:307-312 | the loop finds the last position of the conflicting term |
| RaftServer.Raft.HandleAppendReply | raft/raft.go:290-321 | the state after a reply, and whether a snapshot must be sent |
| RaftServer.Raft.ApplyOne | raft/raft.go:247-249 | feeds the service the next committed command |
| RaftServer.Raft.ApplyLogs | raft/raft.go:247-249 | feeds the service every command from lastApplied + 1 to commitIndex in order |
| RaftServer.FeedAt | raft/raft.go:247-249 | the command fed at an index is the one in the log at that index |
| RaftServer.Raft.Snapshot | README.md:241-257 | the compacted log, snapshot and disk |
| RaftServer.Raft.InstallSnapshot | README.md:264-287 | state and reply of the handler function, retained suffix included |
| RaftServer.Raft.HandleSnapshotReply | raft/raft.go:157-166 | matchIndex and nextIndex after the snapshot is acknowledged |
| RaftBackup.BackUpBounded | README.md:167-210 | in every run, from any leader to any peer not in a later term, acceptance or a snapshot comes after at most one rejection for each distinct term in the peer's log and one more, or two more if the peer has compacted its log |
| RaftBackup.RejectionLowersNext | README.md:167-171 | a rejection lowers nextIndex if and only if the index tried is not below the follower's snapshot, and keeps it in range |
| RaftRising.RisingExample | README.md:167-171 | a run of two servers, from boot, after which the leader's next attempt is below the follower's snapshot and its rejection raises nextIndex |
| RaftBackup.AnswerIsReply | raft/raft.go:267-287 | the answers counted are the follower's replies |
| RaftBackup.KnownTermMatchesNext | README.md:201-204 | if the leader has the conflicting term, its next attempt is accepted, or is below one of the two snapshots |
| RaftBackup.RejectionsBounded | README.md:167-171 | the bound for any pair of servers whose logs have a common origin |
| RaftCatchUp.RejectedRound | raft/raft.go:290-312 | a rejected call, its handling and its reply, as three steps of the cluster, leave both logs as they were and nextIndex at the hint, or the leader's snapshot in the network |
| RaftCatchUp.AcceptedRound | raft/raft.go:290-320 | an accepted one leaves the leader knowing that the peer has its whole log, whatever a majority then has committed, and the peer with the leader's commit index |
| RaftCatchUp.SameRejections | README.md:167-171 | how many rejections are still to come depends on the two logs only, so the rounds that happen are the ones counted |
| RaftCatchUp.BacksUp | README.md:167-210 | every run can be continued so that after one round for each rejection and one more the peer has accepted or the snapshot is on its way |
| RaftCatchUp.CatchesUp | raft/raft.go:290-320 | from every state of every run a leader can bring any peer not in a later term to its whole log, through its snapshot if need be, in three steps for each rejection and eleven more; no other server changes |
| RaftCatchUp.PeerCatchesUp | README.md:158-171 | the same for whole runs, in steps counted by the terms in the peer's log, and the peer then has the leader's terms and commands |
| RaftProgress.CanElect | README.md:124-155 | whatever was lost and whoever crashed, every run can be continued by the actions of any majority alone so that one of it leads in a term after all the terms there were |
| RaftProgress.MajorityIsAvailable | README.md:113-229 | every run of two or more servers can be continued by any majority alone so that any command reaches each of its services, at one position, after everything any service had been handed |
| RaftProgress.MinorityIsSilent | README.md:113-128 | from boot, servers that are not a majority elect nobody and hand over nothing, whatever they do |
| RaftProgress.MajorityExactly | raft/raft.go:316-317 | from boot, a set of servers can deliver a command on its own if and only if it is a majority of two or more servers |
| RaftProgress.AlwaysAvailable | README.md:229-229 | every run of two or more servers can be continued so that any command reaches every service, at one position, after everything any service had been handed |
| RaftProgress.AvailableExactly | raft/raft.go:316-317 | all servers together can, in every run, if and only if there are two or more: the commit rule runs when a peer replies, so a server alone never commits |
| RaftListings.RetainedExactly | README.md:276-283 | the printed slice is the entries that follow the snapshot exactly when the log ends before the snapshot's index; otherwise it keeps the entry at the snapshot's own index too |
| RaftListings.RetainedFails | README.md:276-283 | for every snapshot index, a run with a follower that installs the leader's snapshot and for which it is wrong |
| RaftListings.SuffixNeedsTerm | README.md:276-283 | keeping the suffix yields a log a leader could have had if and only if there is none or the terms at the snapshot's end agree |
| RaftListings.SuffixFails | README.md:276-283 | for every snapshot index, a run with a server that installs the leader's snapshot and would be left with terms that decrease |
| RaftListings.LogsAreOrdered | README.md:162-165 | which the log of no server in any run does |
| RaftListings.CrashBetweenSaves | README.md:255-256 | a crash between the two saves restarts at the right last index exactly when there was nothing to compact |
| RaftListings.CompactionNeedsOneSave | README.md:255-256 | so at every moment of every run at which Snapshot compacts, that crash loses the place, and with one save it does not |
| RaftListings.CapExactly | README.md:192-196 | capping by the follower's own last index is safe for every log that could accept if and only if no leader put another entry after what is sent and up to the commit index |
| RaftListings.CapRule | README.md:192-196 | over all runs, leaders and peers that accept, the peer's committed prefix is then the leader's if and only if the leader sends up to its commit index |
| RaftListings.CapFails | README.md:192-196 | otherwise, for any such numbers, a run in which a server would take its own stale entry as committed |
| RaftRivals.RivalsExist | README.md:138-198 | the runs used: three servers, a first leader with entries nobody else has, a second that commits others in their place, any numbers of each |
| RaftFleet.Fleet.constructor | raft/config.go:98-102 | fresh server objects that share nothing form the booted cluster |
| RaftFleet.Fleet.Step | README.md:85-122 | whatever step is asked of the server objects, together they take that step of the cluster, and still share nothing |
| RaftFleet.Fleet.Receive | raft/raft.go:251-321 | each of the six handlers on its object, with what it sends, is the cluster's delivery of that message |
| RaftFleet.Fleet.Crash | raft/config.go:113-142 | replacing an object by one made from a copy of its persister is the cluster's crash and restart |
| RaftFleet.Drive | raft/config.go:165-185 | under any schedule from boot, what the server objects hand to their services never disagrees |
| RaftTester.Config.constructor | raft/config.go:77-84 | no server, nothing saved |
| RaftTester.Config.Crash1 | raft/config.go:113-142 | the slot gets a new persister with the same contents; other slots are untouched |
| RaftTester.Config.Start1 | raft/config.go:280-326 | the new server starts from exactly what was stored, on a persister of its own |
| ApplyChecker.Checker.CheckLogs | raft/config.go:144-161 | error exactly when some server already has another command there; records the command |
| ApplyChecker.Checker.Apply | raft/config.go:165-185 | one delivery, with the order check |
| ApplyChecker.Watch | raft/config.go:165-185 | the loop over a delivery sequence reports what the specification says |
| ApplyChecker.SilentExactly | raft/config.go:144-185 | no error over a whole sequence if and only if one command per index and each index after its predecessor |
| RaftChecked.CheckerStaysSilent | raft/config.go:165-185 | on every run that takes no snapshot the checker reports nothing |
| RaftChecked.RunInOrder | raft/config.go:173-176 | on such a run each server is handed every index after its predecessor |
| RaftChecked.DeliveriesTell | README.md:193-196 | in every run no service changes, apart from a restart, but by the delivery recorded at that step, and as it says |
| MrSystem.EndToEnd | mr/worker.go:108-227 | whenever Done() holds in any run, output r has exactly the emitted keys hashing to r, once each in order, each with reducef over all its values, if no bucket file it reads that stays unwritten was left over from before |
| MrSystem.InputIsExact | mr/worker.go:179-199 | what a reduce task reads is its bucket if and only if nothing was left over there |
| MrSystem.LeftOverShows | mr/worker.go:136-166 | in every run, a left-over pair whose key does not belong in output r is in it when Done() holds |
| MrExact.SpellExposes | mr/worker.go:214-218 | a reducef that writes its values down tells different values apart |
| MrExact.OutputIsExact | mr/worker.go:136-227 | for a reducef that tells different values apart, output r is correct when Done() holds if and only if nothing was left over for it |
| MrProgress.LeftOverExample | mr/worker.go:136-166 | a job and a run that end with such a wrong output |
| MrSystem.PhaseBarrier | mr/coordinator.go:113-139 | a reduce task is given only when every map task has run, and its file list names all of them |
| MrSystem.DoneIsFinal | mr/coordinator.go:47-52 | Done() never reverts |
| MrSystem.ReexecutionIsHarmless | mr/worker.go:252-276 | runs in which the same map tasks ran, in any order and number, leave the same buckets |
| MrSystem.StepInv | mr/coordinator.go:80-193 | counters equal the flags set, completed tasks were handed out and ran, buckets and outputs are right after every step |
| MrSystem.MapsGivenOnce | mr/coordinator.go:80-95 | in every run the map tasks handed out are exactly those below counter_map, each once |
| MrSystem.MapReplyMeans | mr/coordinator.go:80-95 | in every run a worker is told there is no map task only when all have been given, and otherwise gets one not given before |
| MrSystem.ReduceReplyMeans | mr/coordinator.go:113-139 | in every run a worker is told to wait while some map task is unreported, that there is none when all reduce tasks are given, and otherwise gets a new one with every map task's file |
| MrSystem.ContentsAreBucket | mr/worker.go:179-199 | reading a reduce task's files yields the emitted pairs of its bucket, missing files reading as empty, if nothing was left over |
| MrSystem.ReduceIsCorrect | mr/worker.go:201-227 | reducing any sorted permutation of a bucket yields the correct output |
| MrProgress.DoneStaysReachable | mr/coordinator.go:47-193 | every run can be continued to one in which Done() holds |
| MrServer.Coordinator.constructor | mr/coordinator.go:54-70 | nothing handed out, nothing complete |
| MrServer.Coordinator.GiveMapTask | mr/coordinator.go:80-95 | the next task with its file name, or end of file |
| MrServer.Coordinator.GiveReduceTask | mr/coordinator.go:113-139 | wait, end of file, or the next task with the list its loop builds |
| MrServer.Coordinator.CheckLastMapDone | mr/coordinator.go:160-175 | counts a task once and says whether all are done, that is whether every flag is set |
| MrServer.Coordinator.CheckLastReduceDone | mr/coordinator.go:177-193 | likewise for reduce tasks |
| MrCoordinator.CountFull | mr/coordinator.go:47-52 | the count equals the number of tasks exactly when every flag is set |
| MrNames.IntermediateInjective | mr/worker.go:147-148 | distinct (map, bucket) pairs have distinct file names |
| MrNames.OutputInjective | mr/worker.go:169-169 | distinct reduce tasks have distinct output names |
| MrNames.OutputIsNotIntermediate | mr/worker.go:169-169 | no output name is a bucket name |
| MrNames.AtoiItoa | mr/worker.go:147-148 | decimal printing can be read back |
| MrNames.NamesTell | mr/worker.go:147-169 | the names are mr-X-Y and mr-out-Y in decimal, from which X and Y can be read back |
| MrWorker.BucketByIntermediateKey | mr/worker.go:136-166 | each non-empty bucket file is exactly its pairs in order, every other file is untouched |
| MrWorker.SortByKey | mr/worker.go:29-35 | a key-sorted permutation |
| MrWorker.BelowExactly | mr/worker.go:29-35 | the order of keys is that of the first character in which they differ, a proper prefix coming first |
| MrReduce.ReadIntermediates | mr/worker.go:179-199 | a key-sorted permutation of the contents of the files |
| MrReduce.PerformReduce | mr/worker.go:201-227 | the output file is one line for each run |
| MrReduce.RunsPartition | mr/worker.go:208-213 | the nested loops split the list into maximal runs of equal keys whose concatenation is the list |
| MrReduce.LinesAreRuns | mr/worker.go:208-224 | one call of reducef for each run, on that run's values |
| MrReduce.ReducedSummarises | mr/worker.go:201-227 | on a sorted list: keys strictly increasing, exactly the list's keys, each reduced over all its values |
| MrReduce.ValuesUpToOrder | mr/worker.go:194-194 | permuting the list permutes the values of each key |
| LabRpc.AcknowledgedIsDurable | labrpc/labrpc.go:264-291 | once a Call has returned true, for ever after the slot's persister holds a state no older than what was saved when the handler returned |
| LabRpc.RestartsSeeAcknowledged | raft/config.go:280-326 | every server later started in that slot boots from a state no older than that |
| LabRpc.AtMostOnce | labrpc/labrpc.go:84-123 | at most one handler execution and one reply for a call; a positive return carries its own handler's value |
| LabRpc.ExactlyOneReceiver | labrpc/labrpc.go:239-262 | from dispatch until its send completes a handler has exactly one receiver, the waiter or the drainer, and exactly one of them can take the reply |
| LabRpc.UndisturbedCallSucceeds | labrpc/labrpc.go:218-291 | while the server stays reachable a call can run to a positive return of the handler's value |
| LabRpc.StepInv | labrpc/labrpc.go:218-309 | every step keeps the invariant of calls, slots and persisters, and nothing saved is lost |
| LabRpc.ProceedSlots | raft/config.go:113-142 | each step of crash1 and start1 keeps it; the state and the snapshot read separately are of one save |
| LabRpc.GuardsHold | raft/config.go:113-142 | the bounds in the step guards never hold a step back |
| LabCalls.RoutesExactly | labrpc/labrpc.go:192-221 | in every run a request reaches a server if and only if its end is enabled and connected to a name at which one is installed, and then that one |
| LabCalls.DecidesExactly | labrpc/labrpc.go:264-291 | in every run a reply goes back if and only if it was collected, is not dropped, and the end is enabled and the same server installed |
| LabCalls.GivesUpExactly | labrpc/labrpc.go:239-262 | in every run the network can stop waiting for a handler if and only if nobody else has taken over its reply and the end is disabled or another server, or none, is installed |
| LabCalls.EndsAreAsAsked | labrpc/labrpc.go:313-374 | in every run ends are enabled, connected and closed down exactly as was last asked |
| LabCalls.AbandonExactly | labrpc/labrpc.go:100-107 | a call can come back unsent if and only if the network was closed down |
| LabCalls.CutOffFails | labrpc/labrpc.go:208-276 | in every run, while its end is disabled or its server replaced a call is not acknowledged, and one not routed before is not executed |
| LabCalls.CallCanSucceed | labrpc/labrpc.go:218-291 | every run with a posted call whose server is reachable can be continued by that call's six steps to a positive return |
| LabCalls.CanRestart | raft/config.go:113-142 | every run with a slot that is not up can be continued by the tester's own steps until its server is installed and owns the slot's persister |
| LabCalls.AcknowledgedSaveSurvives | labrpc/labrpc.go:264-291 | a state an instance saved before its handler returned, if the call was acknowledged, is for ever after among those the slot's persister descends from |
| LabNetwork.Network.ReadEndnameInfo | labrpc/labrpc.go:192-206 | finds the server exactly when the end is enabled, connected and the server installed |
| LabNetwork.Network.IsServerDead | labrpc/labrpc.go:208-216 | dead exactly when disabled or another object, or none, is installed |
| LabNetwork.Network.AddServer | labrpc/labrpc.go:344-349 | installs the object |
| LabNetwork.Network.DeleteServer | labrpc/labrpc.go:351-356 | a nil entry is as good as none |
| LabGob.Checker.CheckType | labgob/labgob.go:72-113 | terminates on every graph; adds only types reachable from t, all of whose parts, element and key of a map included, end up checked, and counts their lower-case fields once |
| LabGob.Checker.CheckFields | labgob/labgob.go:89-101 | the loop over the fields checks every field type and counts the lower-case names |
| LabGob.Checker.CheckValue | labgob/labgob.go:68-113 | after each top-level call, checked is the least set that holds the types passed and with a struct its field types, with a slice, array or pointer its element, with a map its element and key; errorCount is the number of places in it where a field name is empty or does not start upper case |
| LabGob.Checker.CheckAll | labgob/labgob.go:68-113 | so the outcome of any sequence of calls depends only on the set of types passed |
| LabGob.ClosedIsReachable | labgob/labgob.go:72-113 | a closed set grown from the roots is exactly the reachable set |
| LabGob.ErrorsUnion | labgob/labgob.go:18-20 | the error count of disjoint sets adds up, whatever the order |
| LabGob.ErrorsAreSpots | labgob/labgob.go:89-99 | counting type by type counts every such place once |
| ShardCtrler.SuppressionIsExact | shardctrler/server.go:135-162 | the loop with its cache computes exactly the ops with no earlier op of that client at the same or a later time, and the cache is each client's latest time |
| ShardCtrler.RepeatsAreHarmless | shardctrler/server.go:149-162 | a repeat of an applied op anywhere later changes neither configurations nor cache |
| ShardCtrler.EffectiveIncreases | shardctrler/server.go:149-151 | the executed ops of each client have strictly increasing timestamps |
| ShardCtrler.SendsOwed | shardctrler/server.go:147-171 | after any log the loop sends, for the next op, what its waiter is owed |
| ShardReplies.Lossless | shardctrler/server.go:164-173 | on every index: what was received, then what is buffered, is what was applied |
| ShardReplies.BlocksExactly | shardctrler/server.go:164-173 | the send blocks exactly when an op applied at that index has not been received, so never on an index's first op |
| ShardReplies.SentIsOwed | shardctrler/server.go:147-171 | in every run the i-th op applied is sent with its reply filled in by its handler from the configurations the effective ops before it leave, if it is effective and a Join, Leave, Move or Query, and otherwise as it came |
| ShardReplies.HandOff | shardctrler/server.go:40-65 | a waiter finds what it is owed for its index's op whether it registers before or after the apply, and never another op |
| ShardReplies.RegisteredWaits | shardctrler/server.go:49-56 | a handler that registers has a channel and waits on it |
| ShardReplies.ReceiptIsFinal | shardctrler/server.go:58-60 | a waiter that receives takes the op off its channel and keeps it |
| ShardReplies.TimeoutIsFinal | shardctrler/server.go:61-64 | a waiter that has timed out never gets anything more |
| ShardServer.Controller.constructor | shardctrler/server.go:110-133 | one configuration, empty cache, no channels |
| ShardServer.Controller.ApplyOne | shardctrler/server.go:136-177 | one message: not an op, invalid, or executed and handed to its channel, blocking exactly when the channel is full |
| ShardServer.Controller.Channel | shardctrler/server.go:49-54 | the channel of an index is made by whichever side comes first |
| ShardServer.Controller.Replay | shardctrler/server.go:135-179 | delivering each index once never blocks and leaves the state, and on every index's channel the reply, that the log means |

## Left out

- RaftChecked.CheckerStaysSilent: only for runs that take no snapshot; the harness uses a different applier with snapshots, which is not modelled.
- RaftTester.Config.Start1: client ends, the applier goroutine and the harness's own log maps are not modelled.
- LabRpc.UndisturbedCallSucceeds: that a call can succeed, not that it must.
- MrSystem.EndToEnd: assumes atomic handlers and atomic task file writes, and at least one reduce task.
- LabGob.Checker.CheckType: sequential calls only; concurrent walks share the visited map without holding the lock between types.
- ShardCtrler.RepeatsAreHarmless: at most once for a client and timestamp; Join and Leave of the clerk take a new timestamp for every try, so not for a clerk call.
- Liveness of Raft: that progress comes, not only that it stays possible; timers, randomised timeouts, heartbeats and the channels between the main loop and the handlers. Timeouts are steps that may happen at any time.
- Snapshot's two saves and the service's part in it are one step of the cluster; RaftListings.CompactionNeedsOneSave says what a crash between them does.
- 64-bit overflow of terms, indices, counters and timestamps.
- The shard controller's handleJoin, handleLeave, handleMove and handleQuery, and isOpMatched: their bodies are elided.
- shardkv and the clerks: elided bodies, or retry loops over calls.
- Sockets, net/rpc, choice of a live worker, file-system errors, JSON and gob encodings, the FNV hash, checkDefault, reflection dispatch, statistics.
- A map task's truncation of a bucket while a reduce task reads it, and two copies of one map task writing at once.
