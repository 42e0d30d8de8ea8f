# nomad-lite, modelled and verified in Dafny

nomad-lite is a small job scheduler replicated by its own implementation of Raft. This project models the parts of it
that carry its guarantees and proves those guarantees for every input, every run and every cluster size:

- the Raft protocol as steps of a cluster over a network that loses, repeats, delays and reorders messages, with crashes
  that tear the write of the hard state;
- the log with an offset and a snapshot, against the plain log it replaces;
- the durable store, against the memory it must give back;
- the job state machine, its snapshots, the leader's optimistic assignment and the drain loop;
- log entries and snapshots on the wire.

Functions on values (`RaftSpec`, `Jobs`, `JobSnapshots`) say what each operation does. The objects that the code updates
in place (`RaftState`, `RaftStorage`, `PersistentNode`, `JobQueue`, `JobAssigner`) are classes whose methods follow the
code's branches and loops and are proved equal to those functions. The theorems are about the functions.

| file | contents |
|---|---|
| Types.dfy | commands, entries, snapshots, messages |
| CommitRule.dfy | the commit rule as an order statistic, quorums |
| RaftSpec.dfy | the node state and all handlers as functions |
| RaftStateObject.dfy | the same, in place; vote counting; windowed request building |
| Cluster.dfy | the protocol as steps; the conditions a run may observe |
| Elections.dfy, Logs.dfy, Acknowledgements.dfy, Commits.dfy | the inductive invariants, family by family |
| RaftSafety.dfy | the safety properties over runs |
| Electability.dfy, Progress.dfy | what a majority can bring about: a leader, a committed command |
| Exactness.dfy | counting, refusing, sending and compacting: no less than they should |
| LeaderNames.dfy | whom a node takes for the leader |
| WideRuns.dfy | Election Safety for nodes that also compact and install snapshots |
| CompactedCluster.dfy | nodes that compact simulate the protocol, so the safety properties hold of them |
| OrderlyRuns.dfy | runs of whole exchanges, whose conditions consult no history |
| ElectionRounds.dfy, RequestWindows.dfy | the code's election round and shared request window, joined to the protocol |
| Necessity.dfy, LateReplies.dfy | exactness of the conditions, and runs that break a property without them |
| Compaction.dfy, TwinRuns.dfy | the offset log beside an uncompacted twin; exactly-once application |
| CatchUp.dfy | back-off, snapshot fallback and termination of catch-up |
| Storage.dfy, Durability.dfy, TornWrites.dfy | the key-value store, the node that writes to it, and crashes in between |
| Jobs.dfy, JobRecords.dfy, JobSnapshots.dfy, OptimisticLeader.dfy, LostMarks.dfy, Scheduler.dfy, Draining.dfy | the job state machine and scheduler |
| JobFolds.dfy, ReplicatedJobs.dfy | from agreement on the log to agreement on the jobs and on what snapshots hold of them |
| Wire.dfy, WireFields.dfy, UnreadableEntries.dfy | encoding and decoding of log entries and snapshots; what arrives and what cannot be read |

## Where the code does less than the Raft paper

The paper is "In Search of an Understandable Consensus Algorithm (Extended Version)", Ongaro and Ousterhout, 2014. The
comment at src/raft/state.rs:98-130 claims its five safety properties. Read literally, the code meets them only under
four conditions. `Cluster.Discipline` names how many of them a run observes. `Necessity` says, for each, exactly what the
condition preserves, and gives a run that breaks a property without it.

1. *Monotone.* Vote and heartbeat replies are compared with a captured term and then clear the vote
   (src/raft/node.rs:402-404, src/raft/node.rs:535-538). The step opens no vote that the node had refused exactly when
   the reply's term is above the current one, or equals it and no vote is held (`StepDownExact`). Both other cases elect
   two leaders of one term: `TwoLeaders` by a late reply of the current term, `TermGoesBack` by one of an earlier term.
   The vote that a candidate forgets when it accepts a leader of its own term (src/raft/rpc.rs:72-74) is unconditional in
   the model and harmless.
2. *Not stale.* An accepted request with entries always truncates (src/raft/rpc.rs:140-141). It keeps everything
   follower and leader share exactly when it does not stop short of a shared entry (`StaleExact`); `LostCommit` is a run
   in which a late request makes a later leader lack a committed entry. Refused requests need no condition.
3. *Truthful.* An accepting follower reports its whole log (src/raft/rpc.rs:156-160), and the leader counts any success
   that does not carry a higher term (src/raft/node.rs:730-744). Whoever is counted must have held the log of the leader
   that counts it, in its current term, through the index that is recorded. The report is shared with the sender exactly
   when both have an entry of the same term there (`ReportExact`); it is exactly what the request established when the
   request carries entries or ends where the follower's log ends, and only then (`ReportsCovered`). `UnheldCommit` is a
   run, with no stale request, in which an over-report makes a later leader lack a committed entry. It does not suffice
   that the reply was true of the leader that asked: in `RecountedReply` a re-elected leader counts its own late reply of
   an earlier term. Exchanges that follow on one another and report the leader's last index are truthful, and nothing
   but the nodes and the network is needed to say so (`OrderlyCompleteness`).
4. *Commit agrees.* A heartbeat raises the commit index without a check (src/raft/node.rs:376-387,
   src/raft/rpc.rs:152-154). The raised index covers the sender's entries exactly when the entries there have the same
   term (`CommitExact`); `SplitCommit` is a run, in order and with truthful replies, in which two nodes commit different
   entries at one index. Requests that carry entries need no such condition (`FollowerAgreement`).

Other findings, each with its exact condition and a reachable input:

- A cluster of one node, the first setup that the repository's README.md:18-36 shows, never commits what it accepts,
  because only the reply of a peer advances the commit index (src/raft/node.rs:742-767): `LoneNodeNeverCommits`. In
  every larger cluster any majority can commit any command: `Committable`.
- A quorum that is credited with more than the leader's log stops the leader from committing: `CommitRuleExact`.
- Entries that start before the offset are stored at the wrong place and lost on reload: `FromOffsetExact` and
  `MisplacedEntry`, `HandleAppend` and `ForgetsOnReload`.
- A snapshot older than what has been applied leaves a gap: `ExactlyOnce` and `StepBackInstall`.
- A request none of whose entries can be read truncates all the same: `ReceiveExact` and `DropsStored`.
- A request some of whose entries cannot be read may leave a gap in the log: `GapExact` and `LeavesGap`.
- A full queue may not survive its own snapshot: `RebuildExact` and `FullQueueLosesJob`.
- An update to an active status revives a finished job and can exceed the capacity: `RevivalExact`, `OverflowExact` and
  `RevivedOverCapacity`.
- A job that the leader marks as running is stranded when its assignment is not appended or is overwritten:
  `StrandedExact` and `LostMark`. The leader's snapshot hands the mark on: `SnapshotSpreadsMarks` and `SpreadMark`.

On the wire, times lose what is below a millisecond, so a follower's entry is the normal form of the leader's; the
protocol model compares entries after that normalisation. The default for a peer that is missing from the next-index
table (src/raft/node.rs:609) is never used (`WindowAlwaysServes`).

## Model

| member | source | states |
|---|---|---|
| `CommitRule.PickCommit` | src/raft/node.rs:746-753 | the element picked from the sorted match list, own last index included, is the largest index held by at least n - n/2 nodes, for every n |
| `CommitRule.SortAscending` | src/raft/node.rs:750 | the sorted list is ascending and has as many elements at or above every bound as the input |
| `CommitRule.MatchValues` | src/raft/node.rs:747-749 | the collected values count, for every bound, the peers that reach it |
| `CommitRule.CommitPointUnique` | src/raft/node.rs:752-753 | the commit point is unique, so the rule is a function of the match table |
| `CommitRule.MiddleCounts` | src/raft/node.rs:752-753 | in any ascending list the middle element is reached by at least n - n/2 elements and nothing larger is |
| `CommitRule.CommitMeetsVote` | src/raft/node.rs:502-503 | every set that commits meets every set that elects, for every cluster size |
| `CommitRule.MajorityIffOdd` | src/raft/node.rs:752-753 | n - n/2 is a strict majority if and only if n is odd |
| `RaftStateObject.RaftState.constructor` | src/raft/state.rs:163-178 | a new node is fresh |
| `RaftStateObject.RaftState.Restored` | src/raft/node.rs:103-119 | a restored node has the durable fields and starts commit and apply at its snapshot |
| `RaftStateObject.RaftState.AppendEntry` | src/raft/state.rs:236-246 | the new entry carries the current term and the next index and ends the log |
| `RaftStateObject.RaftState.TruncateAndAppend` | src/raft/state.rs:249-260 | offset-aware truncation in place equals the specification, including the cleared log below the offset |
| `RaftStateObject.RaftState.CompactLog` | src/raft/state.rs:265-279 | dropping the covered prefix in place equals the specification |
| `RaftStateObject.RaftState.InstallSnapshot` | src/raft/state.rs:283-301 | retaining by index in place equals the specification; reports whether it installed |
| `RaftStateObject.RaftState.BecomeFollower` | src/raft/state.rs:316-321 | role, term, vote and count after stepping down |
| `RaftStateObject.RaftState.BecomeCandidate` | src/raft/state.rs:324-330 | role, term and own vote of a candidate |
| `RaftStateObject.RaftState.BecomeLeader` | src/raft/state.rs:333-345 | the peer loop fills next and match index for exactly the peers |
| `RaftStateObject.RaftState.HandleRequestVote` | src/raft/rpc.rs:12-49 | the handler's branches equal the specification, answer included; `OneGrants` and `Electable` say whom it must grant, `FirstWinner` whom it must not |
| `RaftStateObject.RaftState.FollowLeader` | src/raft/rpc.rs:77-160 | consistency check, truncation, storing and commit equal the specification |
| `RaftStateObject.RaftState.HandleAppendEntries` | src/raft/rpc.rs:52-161 | the whole handler equals the specification, answer included |
| `RaftStateObject.RaftState.ReceiveAppend` | src/raft/rpc.rs:121-141 | a request off the wire, unreadable entries filtered out and the log truncated even if none is left, equals the specification |
| `RaftStateObject.RaftState.HandleInstallSnapshot` | src/raft/rpc.rs:334-377 | the whole handler equals the specification |
| `RaftStateObject.RaftState.ReceiveInstall` | src/raft/rpc.rs:334-377 | a snapshot off the wire, unreadable jobs filtered out, equals the specification |
| `RaftStateObject.RaftState.ConcludeElection` | src/raft/node.rs:523-573 | polling replies in order, stopping at a higher term, then claiming the term, equals the tally's verdict; `MajorityWins` says when that is a win |
| `RaftStateObject.TallyCounts` | src/raft/node.rs:523-553 | the tally is one plus the granted replies when none has a higher term, and otherwise the first higher term |
| `RaftStateObject.RaftState.BuildReplication` | src/raft/node.rs:600-710 | the request cut from one shared window of the log is the request cut from the whole log, for a peer missing from the table if and only if the window reaches back to the first entry, or the log is empty or compacted |
| `RaftStateObject.WindowEnough` | src/raft/node.rs:599-603 | a window from the entry before the smallest next index on serves every peer |
| `RaftStateObject.WindowedExact` | src/raft/node.rs:599-710 | the same equivalence for the window that the smallest next index gives |
| `RaftStateObject.RaftState.HandleAppendReply` | src/raft/node.rs:729-774 | step-down, match record, sorted commit rule and back-off equal the specification |
| `RaftStateObject.RaftState.HandleInstallReply` | src/raft/node.rs:640-655 | step-down or the record of the sent snapshot |
| `RaftStateObject.RaftState.GetCommittedEntries` | src/raft/node.rs:1073-1085 | the loop hands over everything committed and unapplied that the log still has, in order |
| `Elections.FirstWinner` | src/raft/node.rs:496-582 | a candidate with a quorum of granted votes for its current term finds no earlier winner of that term |
| `Elections.ElectionInvStep` | src/raft/node.rs:496-582 | every step, torn crashes included, keeps the vote and election invariants |
| `Electability.OneGrants` | src/raft/state.rs:304-313 | of two nodes, in any term above theirs, one at least grants the other, and both do if and only if their logs end alike |
| `Electability.VoteRepeats` | src/raft/rpc.rs:22-35 | a vote asked for again is granted again and changes nothing |
| `Electability.MajorityWins` | src/raft/node.rs:555-573 | a node that is still the candidate it was and saw no higher term leads if and only if more than half of the cluster voted for it |
| `Electability.SomeFavoured` | src/raft/rpc.rs:12-49 | every group of nodes has a member whom all of it grants in any new term |
| `Electability.Electable` | src/raft/node.rs:496-582 | from any state, whatever a run has to observe, any majority can elect one of its members, which keeps its log, in a term new to them all |
| `Electability.ElectableRun` | src/raft/node.rs:496-582 | every run goes on to one in which the majority has a leader |
| `Progress.Committable` | src/raft/node.rs:586-774 | every run of a cluster of more than one node goes on to one in which any given majority has a leader in a new term and all of it holds, and knows committed, that leader's log with any given command at its end |
| `Progress.LoneNodeNeverCommits` | src/raft/node.rs:742-767 | over every run of a cluster of one node, whatever it observes, nothing is committed |
| `LeaderNames.NamesSender` | src/raft/rpc.rs:59-76 | a request names its sender as leader if and only if its term is not below the node's; otherwise the name stays |
| `LeaderNames.NamesInstaller` | src/raft/rpc.rs:334-352 | the same of a snapshot |
| `LeaderNames.NamesWinners` | src/raft/state.rs:316-345 | over every run, a leader names itself, a candidate nobody, and whoever is named has won a term that the node has reached |
| `LeaderNames.NamesTheLeader` | src/raft/rpc.rs:72-76 | over every run, a name learnt from a request is, until the node leaves the term or restarts, that of any node that leads the term at any moment |
| `Logs.AppendOutcome` | src/raft/rpc.rs:77-160 | what any delayed or repeated request does to a follower's log, in terms of the sender's history |
| `Logs.LogInvStep` | src/raft/rpc.rs:77-141 | every step keeps each log matched to one append-only history per term |
| `Acknowledgements.CountedIsInLater` | src/raft/state.rs:304-313 | an entry of a term held by a counted quorum is in the history of every later term |
| `Acknowledgements.OrderInvStep` | src/raft/rpc.rs:12-49 | every step keeps acknowledged entries at their holders, or overwritten by a later term, and votes up to date |
| `Commits.CommitsComplete` | src/raft/node.rs:742-767 | every recorded commit is in the history of every term from its own on |
| `Commits.ReplyCommits` | src/raft/node.rs:742-767 | counting a reply never lowers the commit index and raises it only to a commit point of the current term |
| `Exactness.CommitRuleExact` | src/raft/node.rs:742-767 | over every run, a counted reply moves the commit index to the largest index of the leader's term that enough nodes hold, or nowhere if none past it is; when a quorum is credited with more than the leader's log it does not move |
| `Exactness.RefusalExact` | src/raft/rpc.rs:77-119 | a request that conflicts at its previous index is refused and takes out exactly the conflicting entry and what follows; any other refusal takes out nothing |
| `Exactness.AnswersTruly` | src/raft/rpc.rs:12-161 | every answer, refusals included, carries the higher of the two terms, which the node is then in, and for a request the last index it then holds |
| `Exactness.DeposedExact` | src/raft/node.rs:729-740 | a leader steps down on the answer to its request if and only if the node it asked is in a later term, into that term, without a vote and with its log |
| `Exactness.SendsRest` | src/raft/node.rs:608-710 | a peer that reported m is sent exactly the entries after m with the term at m, and skipped if and only if there are none and it knows all that is committed |
| `WideRuns.ElectionSafety` | src/raft/state.rs:104-107 | over every run of nodes that also apply, compact and install snapshots, with crashes that leave any log, offset and snapshot behind, leaders of one term at any two moments are one node |
| `WideRuns.DeedKeeps` | src/raft/rpc.rs:334-377 | whatever a node does beside the protocol, or half does, keeps the election invariant and every recorded winner |
| `WideRuns.ProtocolRunIsWide` | src/raft/node.rs:496-582 | the runs of the protocol are among these runs |
| `TornWrites.TornLoad` | src/raft/storage.rs:57-81 | a load after the first k of the three puts finds term and vote as far as written, and of the log what lies past the offset that was written |
| `TornWrites.TornIsLoaded` | src/raft/storage.rs:182-261 | for a handler that leaves the offset alone, what is reloaded is the torn state of the protocol's crash step |
| `TornWrites.LoadedIsWide` | src/raft/node.rs:1019-1038 | what is reloaded after a torn install or compaction is a state of the wide runs |
| `ElectionRounds.RoundIsStep` | src/raft/node.rs:523-573 | an election round is a step-down of the protocol if and only if an answer carried a higher term, a win if and only if none did, the node is still the candidate it was and more than half of the cluster voted for it, and otherwise changes a count at most; the outcome is the code's |
| `ElectionRounds.ConcludedElectionIsStep` | src/raft/node.rs:496-582 | the same at every moment of every run, whatever it observes |
| `RequestWindows.WindowAlwaysServes` | src/raft/node.rs:600-710 | at every moment of every run, what a leader with a contiguous log cuts from its window for a peer is what the whole log gives |
| `RequestWindows.CompactedWindowServes` | src/raft/node.rs:600-710 | the same of compacting clusters, whose logs are contiguous |
| `RequestWindows.TabledRun` | src/raft/state.rs:333-345 | over every run, whatever it observes, a leader has a next index for every peer |
| `RaftSafety.LeaderAppendOnly` | src/raft/state.rs:109-112 | over every run, a leader's log within its term only grows at its end |
| `RaftSafety.LogMatching` | src/raft/state.rs:114-118 | in every reachable state, logs with the same term at an index are identical through it |
| `RaftSafety.LeaderCompleteness` | src/raft/state.rs:120-124 | over every run whose accepted requests are not stale and whose counted replies are truthful, what a leader commits by counting is in the log of every leader of a later term |
| `RaftSafety.StateMachineSafety` | src/raft/state.rs:126-130 | over every Verified run, any two nodes at any two moments agree on every entry both hold committed |
| `RaftSafety.FollowerAgreement` | src/raft/rpc.rs:120-160 | an accepted request with entries, however late, leaves the follower with the sender's log at send time, and raises the commit index within it |
| `RaftSafety.CommitNeverFalls` | src/raft/node.rs:755-759 | over every Verified run, no step short of a crash lowers a commit index |
| `RaftSafety.RequestsCompatible` | src/raft/node.rs:671-710 | over every Verified run, a request agrees with what its receiver has committed and, accepted without being stale, reaches past it |
| `RaftSafety.ExchangeInOrder` | src/raft/node.rs:586-774 | request, handler and reply taken as one exchange, with a counted reply equal to the leader's last index, observe what Leader Completeness needs |
| `OrderlyRuns.OrderlyCompleteness` | src/raft/node.rs:586-774 | over every run of elections, proposals, heartbeats, crashes and whole exchanges whose accepted requests are answered with the leader's last index, what a leader commits is in the log of every leader of a later term |
| `CompactedCluster.MoveSimulates` | src/raft/state.rs:265-301 | every move of a cluster whose nodes apply and compact, or crash in a handler, is an allowed step of the uncompacted protocol or none, and the two stay beside each other |
| `CompactedCluster.LeaderAppendOnly` | src/raft/state.rs:109-112 | what a compacting leader holds it goes on holding within its term, or has compacted |
| `CompactedCluster.LogMatching` | src/raft/state.rs:114-118 | compacting nodes that hold entries of one term at an index hold the same entries up to it, as far back as both still hold them |
| `CompactedCluster.LeaderCompleteness` | src/raft/state.rs:120-124 | what a compacting leader commits by counting, every leader of a later term holds or has compacted |
| `CompactedCluster.StateMachineSafety` | src/raft/state.rs:126-130 | any two compacting nodes at any two moments hold the same entry at every index both consider committed and neither has compacted |
| `CompactedCluster.IndexChain` | src/raft/state.rs:236-301 | offset, applied, commit and last index stay in order at every node of every such run |
| `Necessity.StepDownExact` | src/raft/node.rs:535-538 | a step-down opens no vote that the node had refused, in any term it has reached, if and only if it is monotone |
| `Necessity.StaleExact` | src/raft/rpc.rs:140-141 | storing entries keeps all the follower shares with the sender if and only if the request is not stale |
| `Necessity.ReportExact` | src/raft/rpc.rs:156-160 | the reported index is one the follower shares with the sender if and only if both have an entry of the same term there |
| `Necessity.ReportsCovered` | src/raft/rpc.rs:156-160 | the reported index is what the request established if and only if the request carries entries or ends where the follower's log ends; it is then shared |
| `Necessity.CommitExact` | src/raft/rpc.rs:152-154 | a raised commit index covers the sender's entries if and only if the terms there agree; with entries they always do |
| `Necessity.TwoLeaders` | src/raft/node.rs:535-538 | a run of three nodes with two leaders of one term, after a late reply of the current term |
| `Necessity.TermGoesBack` | src/raft/node.rs:535-538 | a run of three nodes with two leaders of one term, after a late reply takes a node back to an earlier term |
| `Necessity.LostCommit` | src/raft/state.rs:249-260 | a run in which a later leader lacks a committed entry, after a late request |
| `Necessity.SplitCommit` | src/raft/node.rs:376-387 | a run in which two nodes commit different entries at one index, after a heartbeat |
| `Necessity.UnheldCommit` | src/raft/rpc.rs:156-160 | a run without stale requests in which a later leader lacks an entry that was committed by counting an over-report |
| `LateReplies.RecountedReply` | src/raft/node.rs:730-744 | a run of five nodes without stale requests, every counted reply true of the leader that asked, in which a re-elected leader counts a reply of an earlier term and a later leader lacks what it then commits |
| `Compaction.SameReads` | src/raft/state.rs:181-233 | last index, last term, up-to-dateness and reads past the offset are those of the plain log |
| `Compaction.VoteTwin` | src/raft/rpc.rs:12-49 | a vote request is answered as the twin answers it |
| `Compaction.AppendTwin` | src/raft/rpc.rs:77-160 | an AppendEntries request is answered, and stored, as by the twin |
| `Compaction.FromOffsetExact` | src/raft/state.rs:249-252 | an accepted request with entries keeps the twins together if and only if it starts at or after the offset |
| `Compaction.CompactTwin` | src/node.rs:448-482 | compacting at an applied point leaves the twin's node |
| `Exactness.CompactExact` | src/node.rs:448-482 | a log of at least the threshold is cut to exactly what has not been applied and the snapshot stands for exactly what has, with the term of its last entry; a shorter log is left alone |
| `Compaction.InstallTwin` | src/raft/state.rs:283-301 | installing a snapshot is splicing the entries it stands for into the plain log |
| `Compaction.RestartTwin` | src/raft/node.rs:103-119 | a restart from disk is the twin's restart at the snapshot index |
| `Compaction.ReplicationTwin` | src/raft/node.rs:608-710 | a peer past the offset is sent what the plain log would send |
| `Compaction.ReplyTwin` | src/raft/node.rs:729-774 | a counted reply commits what it would commit on the plain log |
| `Compaction.ApplyTwin` | src/raft/node.rs:1073-1085 | the same batch is handed to the state machine |
| `TwinRuns.CompactionInvisible` | src/raft/state.rs:265-279 | over every sequence of operations a compacting node and its twin give the same answers |
| `TwinRuns.ChainHolds` | src/raft/state.rs:236-301 | offset, applied, commit and last index stay in order and the stored entries stay consecutive, over every run |
| `TwinRuns.ExactlyOnce` | src/raft/node.rs:1073-1085 | over every run, the joined batches since the last rebuild are the entries up to what is applied, in order, without gap or repeat, if and only if that rebuild did not step back |
| `TwinRuns.InstallDelivers` | src/raft/state.rs:292-298 | a rebuild delivers without a gap if and only if its snapshot is not older than what was applied |
| `TwinRuns.StepBackInstall` | src/raft/state.rs:292-298 | a run in which an older snapshot leaves an applied entry that the rebuilt state machine never gets |
| `TwinRuns.MisplacedEntry` | src/raft/state.rs:249-252 | a run after which an accepted request puts its entry at the wrong place of a compacted log |
| `CatchUp.CatchUpCorrect` | src/raft/node.rs:608-774 | catch-up ends; the leader's log is then a prefix of the follower's, equal if entries were carried, or the follower holds all that is committed |
| `CatchUp.RoundAdvances` | src/raft/node.rs:767-773 | each unfinished round lowers the next index or lifts the follower's offset to the leader's |
| `CatchUp.ProbeFits` | src/raft/node.rs:671-683 | no probe starts below the follower's offset and each agrees with its compacted part |
| `Storage.LogKeyOrder` | src/raft/storage.rs:35-40 | log keys order lexicographically as their indices do, and distinct indices have distinct keys |
| `Storage.NamedAfterLog` | src/raft/storage.rs:12-20 | every named key follows every log key and does not start like one |
| `Storage.ScanIsRange` | src/raft/storage.rs:100-114 | the scanned keys before the first that fails the test are exactly a range of indices |
| `Storage.RaftStorage.Scan` | src/raft/storage.rs:100-102 | the iterator yields exactly the stored keys from the start key on, ascending |
| `Storage.TakeLogKeys` | src/raft/storage.rs:103-114 | the collected keys are exactly the stored log keys of the range |
| `Storage.RaftStorage.SaveHardState` | src/raft/storage.rs:57-81 | term, vote and offset are written and nothing else |
| `Storage.RaftStorage.AppendEntry` | src/raft/storage.rs:84-94 | the entry is written under its index |
| `Storage.RaftStorage.TruncateFrom` | src/raft/storage.rs:98-122 | removes exactly the indices at or after the given one |
| `Storage.RaftStorage.SaveSnapshot` | src/raft/storage.rs:127-178 | writes snapshot and offset and removes exactly indices 1 through the offset |
| `Storage.RaftStorage.LoadLog` | src/raft/storage.rs:234-252 | reads exactly the entries past the offset, in increasing order |
| `Storage.RaftStorage.Load` | src/raft/storage.rs:182-261 | nothing on a fresh store, otherwise what is stored |
| `Storage.LoadExact` | src/raft/storage.rs:182-261 | a load returns the one state the store represents |
| `Storage.HardStateKept` | src/raft/storage.rs:57-81 | saving the hard state changes the stored term and vote only |
| `Storage.AppendKept` | src/raft/storage.rs:84-94 | appending the next entry appends to the stored log |
| `Storage.TruncateKept` | src/raft/storage.rs:98-122 | deleting from an index on cuts the stored log there |
| `Storage.SnapshotKept` | src/raft/storage.rs:127-178 | saving a snapshot drops the covered part of the stored log |
| `Durability.PersistentNode.StartElection` | src/raft/node.rs:496-508 | after an election start, a load gives back memory |
| `Durability.PersistentNode.HandleVote` | src/raft/node.rs:811-829 | after a vote, a load gives back memory |
| `Durability.PersistentNode.HandleAppend` | src/raft/node.rs:832-860 | after a request, a load gives back memory, if and only if accepted entries start at or after the offset |
| `Durability.PersistentNode.HandleInstall` | src/raft/node.rs:1019-1038 | after a snapshot install, a load gives back memory |
| `Durability.PersistentNode.AppendCommand` | src/raft/node.rs:788-809 | after a leader append, a load gives back memory; others refuse |
| `Durability.PersistentNode.HandleReply` | src/raft/node.rs:729-740 | after a reply, a load gives back memory |
| `Durability.PersistentNode.HandleBeatReply` | src/raft/node.rs:402-411 | after the answer to a heartbeat, compared with the term it was sent in, a load gives back memory |
| `Durability.PersistentNode.HandleInstallAnswer` | src/raft/node.rs:640-655 | after an answer to a snapshot, a load gives back memory |
| `Durability.PersistentNode.Conclude` | src/raft/node.rs:535-573 | after an election's end, a load gives back memory |
| `Durability.PersistentNode.Compact` | src/node.rs:448-489 | after a compaction, a load gives back memory; `CompactExact` says when and how far it compacts, `SnapshotHoldsJobs` what the snapshot holds |
| `Durability.PersistentNode.Apply` | src/raft/node.rs:1073-1085 | handing over committed entries changes nothing durable |
| `Durability.PersistentNode.Restart` | src/raft/node.rs:103-119 | a restart gives the restored durable part of what was in memory |
| `Durability.AppendWritten` | src/raft/node.rs:845-859 | the writes after a handled request store the new log, unless entries start before the offset |
| `Durability.ForgetsOnReload` | src/raft/node.rs:845-859 | a node that stores, applies and compacts two entries and then accepts a late request does not get its memory back from disk |
| `Durability.InstallWritten` | src/raft/node.rs:1023-1037 | the writes after a handled snapshot store the new state, although the offset is written first |
| `Jobs.CancelledForever` | src/node.rs:312-347 | over every command sequence a cancelled job never changes and no job is forgotten |
| `Jobs.BatchIsSingles` | src/node.rs:327-344 | a batch update equals its updates one by one |
| `JobRecords.UpdateStands` | src/scheduler/queue.rs:121-140 | over every command sequence, a job that is not cancelled shows status, executor, exit code and time of the last update that a command makes of it, and is otherwise unchanged, until another command speaks of it |
| `JobRecords.AssignmentStands` | src/node.rs:353-365 | over every sequence, an assigned pending job runs on the named worker, unchanged otherwise, until spoken of; any other job is left alone |
| `JobRecords.CancellationStands` | src/scheduler/queue.rs:155-164 | over every sequence, a cancelled active job stays cancelled as of the time the command was applied, unchanged otherwise; a finished one is left alone |
| `JobRecords.SubmissionExact` | src/node.rs:295-310 | a job is in the queue after a command if and only if it was, or is submitted while there is room; it is then as submitted |
| `JobRecords.SubmissionStands` | src/node.rs:295-310 | over every sequence, a new job carries id, command, image and time of a submission that found room |
| `JobRecords.WorkersExact` | src/node.rs:349-365 | over every sequence, the known workers are exactly those that were known, registered or given a pending job |
| `JobRecords.RegistrationClears` | src/scheduler/assigner.rs:49-62 | after a registration nothing that is applied gives the worker anything to do |
| `Jobs.LifecycleHolds` | src/scheduler/queue.rs:37-51 | when no update sets an active status, finished jobs stay finished and active jobs stay within capacity, over every sequence |
| `Jobs.RevivalExact` | src/scheduler/queue.rs:121-140 | a command, batches included, makes a finished job active if and only if its last update of that job sets an active status and neither the job nor an update of it is cancelled |
| `Jobs.OverflowExact` | src/scheduler/queue.rs:37-51 | a command, batches included, exceeds the capacity if and only if it revives more jobs than the free places and the jobs it retires make room for |
| `Jobs.RevivedOverCapacity` | src/node.rs:327-344 | a reachable full queue that a batch takes over its capacity by reviving a finished job |
| `JobSnapshots.RebuildExact` | src/node.rs:536-552 | a rebuild gives back the queue if and only if the active jobs before the last listed one leave room and no job names node 0 |
| `JobSnapshots.BelowCapacityFits` | src/scheduler/queue.rs:37-43 | active jobs below capacity always leave room |
| `JobSnapshots.SnapshotPlusTail` | src/node.rs:500-556 | snapshot after any prefix, rebuild and the rest give the jobs and worker ids of the whole log |
| `ReplicatedJobs.ReplicasAgree` | src/node.rs:288-387 | any two nodes of a compacting cluster at any two moments, each rebuilt from the snapshot it keeps and fed what its log holds of the first x committed entries, have the same jobs, up to the times cancellations were seen, and the same workers |
| `ReplicatedJobs.SnapshotHoldsJobs` | src/node.rs:448-533 | over every run, the snapshot a node keeps restores exactly the jobs and workers that the entries it stands for come to, and its state machine is what the entries it applied come to |
| `ReplicatedJobs.MachinesAgree` | src/node.rs:288-387 | state machines that have applied equally many entries, at any two nodes and moments, agree |
| `ReplicatedJobs.InstalledHoldsJobs` | src/raft/rpc.rs:334-377 | a node that installs what a leader sends is rebuilt to what the leader's entries up to the offset come to |
| `ReplicatedJobs.InstalledOverWire` | src/raft/rpc.rs:334-415 | the same through the wire: every job of the sender's snapshot with its times cut to the millisecond, and the same workers |
| `JobSnapshots.FullQueueLosesJob` | src/scheduler/queue.rs:37-43 | a reachable full queue that its own snapshot does not restore |
| `JobSnapshots.RestoredJob` | src/scheduler/job.rs:90-112 | a job survives its snapshot form if and only if it does not name node 0 |
| `OptimisticLeader.LeaderRefinesReplica` | src/node.rs:395-441 | over every run, leader and follower have the same jobs and active jobs, differ in status only on outstanding assignments, and on none once none is outstanding |
| `LostMarks.LeaderTracksReplica` | src/node.rs:425-437 | over every history, marks that are lost or overwritten included, leader and follower have the same jobs and active jobs, differ only where the leader shows a pending job as running, and agree up to outstanding assignments if and only if no job is stranded |
| `LostMarks.StrandedExact` | src/node.rs:425-437 | exactly which deeds leave a job stranded, from the queues and the log before |
| `LostMarks.StaysStranded` | src/node.rs:403-441 | until a command names it, a stranded job stays so and is not assigned again |
| `LostMarks.LostMark` | src/node.rs:431-437 | a reachable queue with a stranded job and an empty tail |
| `LostMarks.SnapshotSpreadsMarks` | src/node.rs:500-533 | over every history, a node rebuilt from the leader's snapshot differs from a follower in the status of exactly the jobs the leader marked and the follower has not seen assigned |
| `LostMarks.SpreadMark` | src/node.rs:500-556 | a reachable queue, with nothing outstanding, whose snapshot restores a job as running that followers hold as pending |
| `OptimisticLeader.RunsOnOneWorker` | src/node.rs:353-365 | over every run, a job assigned at most once, whose updates only finish it, runs on the same worker at leader and follower |
| `OptimisticLeader.AssignAgrees` | src/node.rs:353-365 | committing an assignment brings the follower level with the early mark |
| `OptimisticLeader.CancelAgrees` | src/node.rs:366-383 | a cancellation in between keeps leader and follower in step |
| `Scheduler.JobQueue.ActiveJobCount` | src/scheduler/queue.rs:46-51 | counts exactly the pending and running jobs |
| `Scheduler.JobQueue.AddJob` | src/scheduler/queue.rs:37-43 | adds the job if and only if there is room |
| `Scheduler.JobQueue.UpdateStatusMetadata` | src/scheduler/queue.rs:121-140 | writes status, executor, exit code and completion time of a known job and nothing else; `UpdateStands` says what that comes to |
| `Scheduler.JobQueue.AssignJob` | src/scheduler/queue.rs:143-151 | marks a known job running on the worker, whatever its status |
| `Scheduler.JobQueue.CancelJob` | src/scheduler/queue.rs:155-164 | cancels a pending or running job and nothing else |
| `Scheduler.JobQueue.FirstPending` | src/scheduler/queue.rs:167-172 | finds a pending job if and only if there is one |
| `Scheduler.JobQueue.AllJobs` | src/scheduler/queue.rs:175-179 | lists every job once, by creation time |
| `Scheduler.JobAssigner.RegisterWorker` | src/scheduler/assigner.rs:49-52 | registers the worker with nothing running |
| `Scheduler.JobAssigner.WorkerHeartbeat` | src/scheduler/assigner.rs:55-62 | registers an unknown worker, leaves a known one |
| `Scheduler.JobAssigner.LeastLoaded` | src/scheduler/assigner.rs:75-87 | finds a live worker with the fewest running jobs if and only if one is live |
| `Scheduler.CompletionUndoesStart` | src/scheduler/assigner.rs:95-110 | the removal that `JobCompleted` makes undoes a start, lowers the worker's load by one if and only if the worker was running it, and nobody else's |
| `Scheduler.ApplyOne` | src/node.rs:292-385 | one committed command, branch by branch, equals the specification |
| `Scheduler.ApplyEntries` | src/node.rs:288-387 | the apply loop folds the committed commands in order |
| `Scheduler.BuildSnapshot` | src/node.rs:500-533 | the snapshot holds every job once by creation time, and exactly the worker ids |
| `Scheduler.RebuildFromSnapshot` | src/node.rs:536-556 | clearing and refilling equals the rebuild, capacity check included |
| `Draining.AssignNext` | src/node.rs:406-436 | one pass gives a pending job to a least loaded live worker, or finds none of one kind |
| `Draining.Drain` | src/node.rs:403-441 | the loop ends; every pending job goes to exactly one live worker; nothing else changes; loads stay within the initial spread or 1 |
| `Draining.LoadConserved` | src/node.rs:417-424 | total load grows by exactly the number of jobs assigned |
| `Draining.SpreadKept` | src/scheduler/assigner.rs:81-87 | giving a job to a least loaded worker keeps any spread of at least 1 |
| `Wire.RoundTrip` | src/raft/rpc.rs:164-305 | decoding an encoded entry gives its normal form, for every command and batches of any length; `EntryArrives` says what of the entry that is |
| `WireFields.EntryArrives` | src/raft/rpc.rs:164-310 | every field of every command arrives as sent, except that times lose what is below a millisecond and an empty image becomes none |
| `WireFields.RequestArrives` | src/raft/rpc.rs:122-141 | the same of a whole request: header fields, number and order of entries, and each entry |
| `WireFields.SnapshotArrives` | src/raft/rpc.rs:380-415 | the same of a snapshot: index, term, workers, and each job in its place |
| `WireFields.RelayLossless` | src/raft/rpc.rs:164-310 | whatever was read is passed on without loss |
| `WireFields.ReadDefaults` | src/raft/rpc.rs:308-320 | an unset status is read as pending, and a time out of range as the epoch |
| `Wire.NormalTwice` | src/raft/rpc.rs:164-310 | the normal form is idempotent |
| `Wire.DecodedNormal` | src/raft/rpc.rs:164-224 | whatever decodes is in normal form |
| `Wire.DroppedExact` | src/raft/rpc.rs:164-224 | an entry is dropped if and only if a job id in it is unreadable |
| `Wire.RequestSurvives` | src/raft/rpc.rs:122-137 | the filter drops nothing from a request a leader built |
| `Wire.NumberingSurvives` | src/raft/rpc.rs:122-141 | indices and terms of a request survive the wire |
| `Wire.FilterExact` | src/raft/rpc.rs:122-137 | a request keeps its length if and only if every job id in it is readable |
| `Wire.ReceivedAsSent` | src/raft/rpc.rs:121-141 | a request a leader sent is handled as its normal form |
| `Wire.ReceiveExact` | src/raft/rpc.rs:121-141 | more happens to the log than handling what was read if and only if an accepted request had entries, none was readable, and the log goes on after their place |
| `UnreadableEntries.DropsStored` | src/raft/rpc.rs:121-141 | a request whose only entry is unreadable drops an entry that a follower had stored |
| `UnreadableEntries.GapExact` | src/raft/rpc.rs:122-141 | a request with consecutive entries leaves a contiguous log contiguous if and only if it is refused, empty, or read on without a gap |
| `UnreadableEntries.LeavesGap` | src/raft/rpc.rs:122-141 | a request whose first entry alone is unreadable leaves a gap |
| `Wire.InstallSurvives` | src/raft/rpc.rs:380-415 | a snapshot a leader sends arrives whole, every job once, in order and in normal form |
| `Wire.JobsFilterExact` | src/raft/rpc.rs:355 | the filter drops no snapshot job if and only if every job id is readable |

## Left out

- RaftSafety.LogMatching: stated for uncompacted logs, as are the other theorems of `RaftSafety`; `CompactedCluster` carries them to nodes that compact.
- CompactedCluster.MoveSimulates: InstallSnapshot between nodes is not among the moves; an installed snapshot keeps a suffix without comparing terms (src/raft/state.rs:290), and `TwinRuns` and `CatchUp` cover snapshots between one node and its leader.
- RaftSafety.LeaderCompleteness: stated for runs whose accepted requests are not stale and whose counted replies are truthful; without that it is false (`LostCommit`, `UnheldCommit`, `RecountedReply`).
- RaftSafety.StateMachineSafety: stated for runs that also verify a raised commit index; without that it is false (`SplitCommit`).
- WideRuns.ElectionSafety: stated for monotone step-downs; without that it is false (`TwoLeaders`, `TermGoesBack`).
- OptimisticLeader.LeaderRefinesReplica: every mark is proposed and every proposal commits in the end; `LostMarks` drops that. It says nothing of the assigned worker; `RunsOnOneWorker` does, for jobs assigned at most once whose updates only finish them.
- RequestWindows.WindowAlwaysServes: takes the leader's log to be contiguous, which an arbitrary snapshot may break (src/raft/state.rs:290).
- ReplicatedJobs.SnapshotHoldsJobs: takes compactions to list the node's own jobs when they can be restored (`RebuildExact`), and leaves out the leader's early marks, which a leader's snapshot does carry (`SnapshotSpreadsMarks`).
- Progress.Committable: stated for uncompacted logs and for what can happen, not for what must; timeouts are not modelled.
- Wire.RoundTrip: takes the text form of job ids as a given inverse pair and the representable milliseconds as a given range.
- Indices, terms and counters are unbounded; only the storage keys model 64-bit indices, and 64-bit overflow is otherwise not modelled.
- Stored values are kept decoded: JSON and the byte form of numbers are taken as inverse pairs.
- Leadership transfer and TimeoutNow (src/raft/node.rs:876-1016): the step-down restores a captured term and clears the vote.
- Timeouts, heartbeat intervals and worker liveness: an election may start at any moment and the set of live workers is an input.
- Races outside one lock: the storage write after the leader's append (src/raft/node.rs:799-805), the unlocked stretch of compaction (src/node.rs:453-480), the worker's own status write and the early add in the submit handler.
- Crashes in the middle of log or snapshot writes; torn writes are modelled for the hard state only.
- The hand-off of a pending snapshot to the scheduler for repeated or stale installs (src/raft/node.rs:1032-1043).
- Eviction of finished jobs by age, the executing node's own result record (src/scheduler/queue.rs:96-117), job output and error text, filtered listings.
- TLS, gRPC, the dashboard, the command line and job execution.
