# MeshWeaver: a verified model of its consensus, transaction and routing core

MeshWeaver is a peer-to-peer compute mesh written in Python. This project models, in Dafny, the parts of it
that promise agreement and durability, and proves what they promise for every run, log, schedule or input:

* **Leader election** (`Election`, `ElectionSafety`, `Votes`): the election engine as a class, and clusters of any size
  over a network that loses, duplicates and reorders messages.
* **The replicated log** (`RaftLog`, `LogRefinement`, `LogMatching`): the compacted log, the unbounded log it stands
  for, reconciliation of follower logs, and the reject/back-off exchange.
* **Replication** (`Engine`, `Replication`, `QuorumCommit`, `CompactedReplication`, `Applied`, `SnapshotTransfer`): the
  replication engine, whole runs under one stable leader with and without compaction, what exactly such a leader
  commits, application of committed entries, and snapshot transfer.
* **The state machine** (`StateMachine`, `Fencing`, `StoreHistory`, `JobHistory`, `KeyFates`, `Effects`, `Batches`):
  key-values, leased locks with fencing tokens, jobs, what every command answers on any history, and batches that raise
  half way.
* **Transactions and recovery** (`Transactions`, `TxSafety`, `TxOutcomes`, `BufferedView`, `Wal`, `Recovery`,
  `EntryReplay`): the coordinator with key locks and version checks, concurrent transactions as a state machine over its
  critical sections, the segmented write-ahead log, and crash replay.
* **Tree reduction** (`TreeReduce`), **Kademlia routing** (`Xor`, `KBuckets`, `BucketOrder`, `RoutingTables`) and the
  **token bucket** (`LoadShedder`).

State that the source updates in place is a class whose methods are proved against a specification function on plain
values (`ensures View() == Spec(old(View()), ...)`); the theorems are about those functions and about runs built from
them. In the table below the rows of such methods bind the code to its specification; what it promises over runs is in
the rows of the lemmas. Times, random choices, network delivery, segment sizes and directory listings are parameters.

## Where the code and its promises part

Each of these is stated with the exact condition under which the code keeps the promise.

* *One vote per node and term* does not hold. Granted votes are unique per node and term (`GrantsAreUnique`); a node
  votes twice in a term exactly when it stood, heard the term's leader while standing, and then granted its vote
  (`TwoVotesExactly`), and `VotesTwiceInATerm` is such a run. Election safety holds all the same.
* A batch that raises half way keeps its first effects and is run again (`RaisingBatchRepeats`). Whether an entry can
  ever do that is decided from its commands alone (`Clean`, `CleanExactly`); a node offered only clean entries always
  equals the fold of what it applied (`CleanEntriesFold`).
* A snapshot sent after the leader applied past its boundary carries effects that are then applied again. The follower
  agrees with a replay, for all boundaries, applied and commit indices, exactly when the snapshot is sent at the boundary
  (`SnapshotExactly`).
* An older snapshot that arrives late takes the state back while the applied index stays: the fold survives exactly when
  the snapshot is not older than what is applied (`InstallExactly`).
* A restored machine can answer differently: exactly when the original refuses a release of a lock that had expired by the
  export (`ReleaseTellsApart`, `SnapshotIsBisimulation`).
* `tree_reduce` is documented for associative operators. A leftover item moves to the front of the next level, so for
  an operator that does not commute the result is the fold exactly when no level has a leftover (`AssociativeExactly`).
* The recovery document says damage is truncated away. The code leaves the damaged line in place, and a record can be
  replayed exactly when no damaged line precedes it in its segment (`AppendedIsReadable`, `AppendAfterDamageIsLost`).
* The recovery document says version counters are restored. They count from the last restart, so a version is the number of
  commits on its key exactly when none came before that restart (`VersionCountsSinceRestart`), and two commits that
  expected the same version always have a restart between them (`SameVersionMeansRestart`).
* Segment files are listed by name with six digits; the order is right exactly below a million segments
  (`DiscoveryIsExact`).
* A blind increment of a key that the store holds as a non-zero number commits a value other than the buffered one;
  `BufferedViewExactly` is the exact condition.
* A k-bucket is documented to keep contacts from the least to the most recently seen. A promoted candidate goes to the end
  whenever it was seen: a removal keeps the order exactly when it promotes none seen before the newest contact
  (`RemoveKeepsOrderExactly`, `StaleCandidatePromoted`).
* A compacted follower raises exactly on a message from the very start that carries entries (`ReconcileHistory`).

## Model

| member | source | states |
|---|---|---|
| `Election.LeaderElectionEngine.DoStepDown` | meshweaver/leader_election.py:431-450 | stepping down never lowers the term, and clears role, vote and tally |
| `Election.LeaderElectionEngine.PromoteToLeader` | meshweaver/leader_election.py:330-354 | promotion makes exactly this node leader of its own term |
| `Election.LeaderElectionEngine.DoStartElection` | meshweaver/leader_election.py:207-248 | a candidacy raises the term, votes for itself and asks every peer for that term; a lone node wins at once |
| `Election.LeaderElectionEngine.HandleVoteRequest` | meshweaver/leader_election.py:250-296 | new state and reply of a vote request; a grant sets the vote, and within a term only a free or same vote is granted |
| `Election.LeaderElectionEngine.HandleVoteResponse` | meshweaver/leader_election.py:298-328 | votes of the current term are tallied per voter, and only a quorum of them promotes |
| `Election.LeaderElectionEngine.BroadcastHeartbeat` | meshweaver/leader_election.py:367-390 | only a leader sends heartbeats, one to each peer, naming itself and its term |
| `Election.LeaderElectionEngine.HandleLeaderHeartbeat` | meshweaver/leader_election.py:392-429 | stale heartbeats are refused; others set term and leader, and clear a candidate's vote |
| `ElectionSafety.PromotionIsFirst` | meshweaver/leader_election.py:298-328 | a candidate that reaches a quorum finds no other leader of its term, past or present |
| `ElectionSafety.PromotionFreezes` | meshweaver/leader_election.py:298-354 | promotion freezes the quorum: from then on no other candidate of that term can gather a majority |
| `ElectionSafety.StepKeeps` | meshweaver/leader_election.py:207-438 | every timeout, delivery, broadcast and loss keeps the election invariant |
| `ElectionSafety.ElectionSafety` | meshweaver/leader_election.py:207-438 | in every run at most one node is ever leader in a term, at whatever moments |
| `ElectionSafety.HeartbeatsNameTheLeader` | meshweaver/leader_election.py:367-390 | every heartbeat of a term names the one node that ever leads the term |
| `Election.PromotedExactly` | meshweaver/leader_election.py:207-328 | a node becomes leader exactly when it is alone and times out, or when a grant of its term completes a majority |
| `Election.LeaderNamedExactly` | meshweaver/leader_election.py:207-417 | whom a node takes for the leader changes only by its own promotion or candidacy, or to the sender of an accepted heartbeat |
| `Election.RepliesCarryTheTerm` | meshweaver/leader_election.py:250-429 | replies carry the later term; a grant or acceptance is of the sender's term, and a later term is always granted |
| `Election.VoteIsRepeatable` | meshweaver/leader_election.py:250-296 | a vote request heard twice changes nothing more and is answered alike |
| `Election.LaterTermDefers` | meshweaver/leader_election.py:250-438 | whoever hears of a later term joins it as a follower, with no vote but the one it then grants |
| `ElectionSafety.KnownLeaderWon` | meshweaver/leader_election.py:392-417 | in every run, whoever a node takes for the leader won a term that is not ahead of the node's |
| `ElectionSafety.HeartbeatIsFollowed` | meshweaver/leader_election.py:392-417 | a node that accepts a heartbeat joins its term and follows the one node that ever leads it |
| `Election.VoteDroppedExactly` | meshweaver/leader_election.py:392-438 | within a term a handler drops a vote exactly when it is a heartbeat of that term heard by a candidate |
| `Votes.DropsExactly` | meshweaver/leader_election.py:409-417 | a candidate becomes a follower of its own term exactly on hearing a heartbeat of that term |
| `Votes.StepVotes` | meshweaver/leader_election.py:250-438 | how any step moves one node's vote and the grants it has sent |
| `Votes.GrantsAreUnique` | meshweaver/leader_election.py:250-296 | over a whole run a node grants at most one other node its vote in a term, in won terms too |
| `Votes.SecondVoteIsGranted` | meshweaver/leader_election.py:207-438 | of two votes of a node in one term one is its own, the other is granted, it dropped its candidacy, and the term has a leader |
| `Votes.TwoVotesExactly` | meshweaver/leader_election.py:392-438 | a node votes twice in a term exactly when it dropped its candidacy in that term and granted its vote in it |
| `Votes.SecondVote` | meshweaver/leader_election.py:392-438 | a candidate that hears its term's leader grants a second vote in that term |
| `Votes.VotesTwiceInATerm` | meshweaver/leader_election.py:250-296 | a run of five nodes in which one node votes for two candidates in one term |
| `RaftLog.RaftLogStore.AppendEntry` | meshweaver/raft_log.py:70-79 | appends exactly at the next index; an index gap is refused and changes nothing |
| `RaftLog.RaftLogStore.TruncateFrom` | meshweaver/raft_log.py:142-157 | cuts the suffix and caps the commit index; cutting into the snapshot is refused |
| `RaftLog.RaftLogStore.ReconcileFollowerEntries` | meshweaver/raft_log.py:159-186 | the loop of keep, replace or append computes the specified reconciliation and reply, errors included |
| `RaftLog.RaftLogStore.AdvanceCommitIndex` | meshweaver/raft_log.py:188-196 | the commit index never moves back and never passes the last index |
| `RaftLog.RaftLogStore.GetUnappliedEntries` | meshweaver/raft_log.py:198-208 | collects in order the present entries between applied and commit |
| `RaftLog.RaftLogStore.DoMarkApplied` | meshweaver/raft_log.py:210-213 | the applied index moves forward up to the commit index |
| `RaftLog.RaftLogStore.CompactLogBefore` | meshweaver/raft_log.py:224-241 | moves the boundary forward only, never past what is applied or asked, and answers how many entries are left |
| `RaftLog.RaftLogStore.RestoreSnapshot` | meshweaver/raft_log.py:243-249 | adopts the boundary and keeps entries above it |
| `RaftLog.CompactIndexed` | meshweaver/raft_log.py:224-241 | compaction keeps entries contiguous from the boundary |
| `RaftLog.RestoreIndexed` | meshweaver/raft_log.py:243-249 | restoring keeps entries contiguous exactly when the boundary does not move back or no entry is held |
| `LogRefinement.LookupAgrees` | meshweaver/raft_log.py:106-113 | lookups equal those of the uncompacted log exactly outside the compacted range |
| `LogRefinement.TermAgrees` | meshweaver/raft_log.py:115-122 | terms at and above the boundary are the true ones, below it 0 |
| `LogRefinement.SliceAgrees` | meshweaver/raft_log.py:124-129 | slices equal those of the uncompacted log exactly when they start above the boundary or nothing is compacted |
| `LogRefinement.ConsistencyAgrees` | meshweaver/raft_log.py:131-140 | consistency checks at and above the boundary compare with the true history |
| `LogRefinement.AppendAgrees` | meshweaver/raft_log.py:70-79 | appending succeeds on both logs or neither, with the same history after |
| `LogRefinement.TruncateAgrees` | meshweaver/raft_log.py:142-157 | truncation above the boundary cuts both logs alike |
| `LogRefinement.ReconcileAgrees` | meshweaver/raft_log.py:159-186 | what a follower's compaction changes about its answer: nothing at or above its boundary, a refusal or an error below it |
| `LogRefinement.ReconcileBelow` | meshweaver/raft_log.py:131-186 | below its boundary a compacted follower changes nothing: it refuses, or raises on entries from the very start |
| `LogRefinement.CompactAgrees` | meshweaver/raft_log.py:224-241 | compaction changes no history and moves the boundary exactly to the capped target |
| `LogRefinement.RestoreAgrees` | meshweaver/raft_log.py:243-249 | restoring a snapshot of the same history, never backwards, still refines it |
| `LogRefinement.AppendForIsTrue` | meshweaver/raft_log.py:709-746 | a request above the snapshot carries the true previous term and the true suffix |
| `LogMatching.ReconcileSlice` | meshweaver/raft_log.py:159-186 | on an uncompacted log reconcile accepts exactly a shared prefix and yields the longer of its own log and the sender's |
| `LogMatching.ReconcileHistory` | meshweaver/raft_log.py:159-186 | wherever a message starts: a compacted follower raises exactly on entries from the very start, accepts exactly a shared prefix it can check, and refuses the rest |
| `LogMatching.LogMatchingKept` | meshweaver/raft_log.py:115-186 | after any reconcile the follower's history is unchanged or the sender's, every sent entry is present if accepted, nothing changes if refused or raised, and all logs still match pairwise |
| `LogMatching.CatchUpConverges` | meshweaver/raft_log.py:709-885 | from any starting index the exchange makes at most nextIndex - 1 rejections and ends with the leader's log as a prefix of the follower's; a start past the leader's end + 1 needs terms above 0 |
| `StateMachine.ReplicatedStateMachine.ApplyCommand` | meshweaver/raft_log.py:309-380 | every command type yields the specified state and reply, or raises |
| `StateMachine.ReplicatedStateMachine.ApplyLockAcquire` | meshweaver/raft_log.py:382-423 | grants a free or expired lock under the next token, renews its holder, refuses others |
| `StateMachine.ReplicatedStateMachine.ApplyLockRelease` | meshweaver/raft_log.py:425-441 | releases only on matching token and holder; an absent lock counts as released |
| `StateMachine.ReplicatedStateMachine.ApplyJobAssign` | meshweaver/raft_log.py:461-473 | assigns a known job under the next token |
| `StateMachine.ReplicatedStateMachine.ApplyJobComplete` | meshweaver/raft_log.py:475-489 | completes only when a presented token is the job's |
| `StateMachine.ReplicatedStateMachine.ApplyJobCancel` | meshweaver/raft_log.py:511-520 | cancels unless the job is completed or cancelled |
| `StateMachine.ReplicatedStateMachine.ApplyBatchEntry` | meshweaver/raft_log.py:548-556 | runs the operations in order and stops where one raises |
| `StateMachine.ReplicatedStateMachine.ImportState` | meshweaver/raft_log.py:570-581 | replaces the whole state by the snapshot's |
| `StateMachine.LockDefaults` | meshweaver/raft_log.py:384-429 | lock commands without a key share one resource, without a client one holder, and token zero is no token |
| `StateMachine.JobDefaults` | meshweaver/raft_log.py:445-513 | a job command without a key is about the id in its extra data |
| `StateMachine.ApplyIsFlat` | meshweaver/raft_log.py:309-380 | applying an entry, nested batches included, runs exactly its leaf commands once each in order |
| `StateMachine.LogIsFlat` | meshweaver/raft_log.py:309-380 | every log is a history of single commands |
| `StateMachine.StepRaisesCleanly` | meshweaver/raft_log.py:309-380 | a command that raises outside a batch changes nothing |
| `Fencing.AtIsRun` | meshweaver/raft_log.py:309-380 | the machine the history statements speak of is what running the commands before that position leads to |
| `Fencing.HistoryTokens` | meshweaver/raft_log.py:382-473 | tokens on stored locks and jobs are pairwise distinct and at most the counter, after every prefix of every history |
| `Fencing.NextTokenIsLargest` | meshweaver/raft_log.py:382-473 | the next token exceeds every token shown before to any lock or job |
| `Fencing.LocksReflectHistory` | meshweaver/raft_log.py:382-441 | the stored lock on a resource is exactly what its last effective acquire, renewal or release left |
| `Fencing.LockGrants` | meshweaver/raft_log.py:382-423 | stated on the history alone: free means a new largest token, the holder renews its token, anyone else is refused |
| `Fencing.ReleaseGrants` | meshweaver/raft_log.py:425-441 | stated on the history alone: a release succeeds exactly when nothing is held or its token and client, where given, are those of the latest grant; a refusal changes nothing |
| `Fencing.LockIsLostOnlyThus` | meshweaver/raft_log.py:382-441 | a granted lock passes on only after a release by its holder's leave or after its time ran out |
| `Fencing.NewGrantOnlyWhenFree` | meshweaver/raft_log.py:382-441 | a new token while the last touch was a grant means its TTL had run out at the new entry's timestamp |
| `Fencing.AssignIssuesFresh` | meshweaver/raft_log.py:461-473 | every assignment issues a token larger than all shown before |
| `Fencing.TokensAreConsecutive` | meshweaver/raft_log.py:409-470 | locks and jobs draw on one sequence: the n-th token issued is n |
| `Fencing.JobTokenReflectsHistory` | meshweaver/raft_log.py:443-473 | a job's token is the one of its latest effective submission or assignment |
| `Fencing.CompletionExactlyFenced` | meshweaver/raft_log.py:475-489 | a completion carrying t is accepted exactly when the job's latest submission or assignment is the assignment that issued t |
| `Fencing.SupersededWorkerRefused` | meshweaver/raft_log.py:443-489 | a worker superseded by a reassignment or resubmission can never publish a result |
| `Fencing.BoundedReassignment` | meshweaver/raft_log.py:461-520 | between submissions, assigned only while submitted, a job is assigned at most max(1, maxRetries) times |
| `JobHistory.JobReflectsHistory` | meshweaver/raft_log.py:443-520 | a job's status, worker and times are those its last change left, its failures are counted since submission, the rest is as submitted |
| `JobHistory.ResultReflectsHistory` | meshweaver/raft_log.py:475-489 | a job's result is the last one an accepted completion published since its submission |
| `JobHistory.ResultIsFenced` | meshweaver/raft_log.py:475-489 | a stored result came from the worker that then held the job, or from a completion without a token |
| `JobHistory.JobAnswers` | meshweaver/raft_log.py:443-509 | submission, assignment and failure answer the job they leave, or nothing if it is unknown |
| `JobHistory.CancelGrants` | meshweaver/raft_log.py:511-520 | cancelling succeeds exactly when the job's last change was neither completion nor cancellation |
| `StoreHistory.StoreReflectsHistory` | meshweaver/raft_log.py:317-349 | every key holds what the last write to it left |
| `StoreHistory.StoreAnswers` | meshweaver/raft_log.py:317-349 | every answer of the store, stated on the history: reads, removals, sums and exactly when a swap succeeds or an increment raises |
| `StoreHistory.KeylessAnswers` | meshweaver/raft_log.py:317-344 | commands without a key store nothing and give the empty answers |
| `StoreHistory.SwapsExclude` | meshweaver/raft_log.py:331-340 | of two compare-and-sets expecting one value both succeed only if a write between them put it back |
| `StoreHistory.IncrementsAddUp` | meshweaver/raft_log.py:342-349 | no increment is lost while nothing else writes the key |
| `StoreHistory.MembersReflectHistory` | meshweaver/raft_log.py:522-531 | the members are the peers whose last change added them |
| `StoreHistory.MembershipAnswers` | meshweaver/raft_log.py:522-531 | a membership change answers the members it leaves |
| `StoreHistory.QuietCommands` | meshweaver/raft_log.py:377-380 | a no-op is acknowledged, an unknown command answers nothing, and neither changes the machine |
| `Fencing.LogIsHistory` | meshweaver/raft_log.py:309-380 | the replies of any log, batches opened, are those of its history of single commands, position by position |
| `Fencing.LogTokens` | meshweaver/raft_log.py:382-473 | after every log, batches included, tokens of locks and jobs are pairwise distinct |
| `KeyFates.PassesExactly` | meshweaver/raft_log.py:318-352 | commands on one key can all succeed from some value exactly when the closed form says so |
| `KeyFates.MovesExactly` | meshweaver/raft_log.py:318-352 | commands on one key can change it exactly when they can succeed and one of them can |
| `KeyFates.MovesOddExactly` | meshweaver/raft_log.py:318-352 | commands on one key can change it to something that is not a number exactly when the closed form says so |
| `Effects.EffectWitness` | meshweaver/raft_log.py:382-531 | any effective command among others can be seen at the end on some machine: no later command hides it on all |
| `Batches.ApplyIsParts` | meshweaver/raft_log.py:548-556 | an entry, nested batches included, is its commands run until one raises |
| `Batches.CleanExactly` | meshweaver/raft_log.py:548-556 | an entry that raises leaves no trace, on every machine, exactly when it is clean, which is decided without a machine |
| `Engine.RaftReplicationEngine.ApplyCommittedEntries` | meshweaver/raft_log.py:992-1008 | applies committed entries in order, marking each, answers each with its result, and stops where one raises |
| `Engine.RaftReplicationEngine.HandleAppendEntriesRequest` | meshweaver/raft_log.py:759-818 | new log, machine and response of an append request, stale terms and errors included |
| `Engine.RaftReplicationEngine.BroadcastAppendEntries` | meshweaver/raft_log.py:699-757 | a leader sends exactly one message a peer, in order: the entries from its next index, or a snapshot if that is compacted away |
| `Engine.RaftReplicationEngine.SynchronizeFollowerProgress` | meshweaver/raft_log.py:872-885 | progress after a success or a rejection, for known and new followers |
| `Engine.RaftReplicationEngine.CountAt` | meshweaver/raft_log.py:901-913 | counts the peers known to hold an index, and the leader |
| `Engine.RaftReplicationEngine.CheckAndAdvanceQuorumCommit` | meshweaver/raft_log.py:887-926 | commits the highest index of the current term that a majority holds, then applies |
| `Engine.RaftReplicationEngine.HandleAppendEntriesResponse` | meshweaver/raft_log.py:928-955 | a response updates progress, and a success re-examines the quorum |
| `Engine.RaftReplicationEngine.CreateSnapshot` | meshweaver/raft_log.py:684-697 | compacts up to the target and exports the machine |
| `Engine.RaftReplicationEngine.HandleInstallSnapshotRequest` | meshweaver/raft_log.py:820-856 | refuses a stale leader, else installs state and boundary; the response carries term, success and index |
| `Replication.EngineApplies` | meshweaver/raft_log.py:992-1008 | wherever the engine stops applying is a step the replication model allows |
| `Replication.StepKeeps` | meshweaver/raft_log.py:699-1008 | every proposal, broadcast, delivery and application keeps the replication invariant |
| `Replication.FollowersArePrefixes` | meshweaver/raft_log.py:159-186 | in every run under one leader each follower's log is a prefix of the leader's |
| `Replication.DecidedIsHeld` | meshweaver/raft_log.py:887-926 | what the count of progress records decides is within the leader's log and held by a majority |
| `Replication.CommittedIsOnMajority` | meshweaver/raft_log.py:887-926 | every index the leader commits is held by a majority |
| `Replication.AppliedSequencesAgree` | meshweaver/raft_log.py:992-1008 | the command sequences any two nodes have applied, at any two moments, are prefixes of one another |
| `QuorumCommit.CountingIsExact` | meshweaver/raft_log.py:887-926 | counting finds the highest entry of the leader's own term that a majority of records reaches, on compacted logs too |
| `QuorumCommit.EngineCommitsExactly` | meshweaver/raft_log.py:887-926 | after the engine has counted, its commit index is that entry or unchanged, and its history untouched |
| `QuorumCommit.EngineReceives` | meshweaver/raft_log.py:759-818 | the follower's handler takes requests and answers as the steps of the runs do; stale ones change nothing |
| `QuorumCommit.EngineResponds` | meshweaver/raft_log.py:887-926 | the leader's handler moves and applies as the steps of the runs do |
| `QuorumCommit.MessageIsTrue` | meshweaver/raft_log.py:699-757 | a peer gets a snapshot exactly when its next entry is compacted away, and otherwise the true entries to the end |
| `QuorumCommit.DeliveryCommits` | meshweaver/raft_log.py:791-803 | a request is taken exactly when the follower's log reaches its start, and the commit index follows the leader's as far as the log goes |
| `QuorumCommit.NextIndexMoves` | meshweaver/raft_log.py:872-885 | after a refusal the leader tries the highest earlier index that follows the peer's log, after success the one past the acknowledged |
| `QuorumCommit.CommitIsHighest` | meshweaver/raft_log.py:887-926 | in every state of every run the commit index is the highest own-term entry acknowledged by a majority, or where the run began |
| `QuorumCommit.CommitMovesInTerm` | meshweaver/raft_log.py:916-924 | whenever the commit index moves it moves to an entry of the leader's own term |
| `QuorumCommit.AcknowledgedIsRecorded` | meshweaver/raft_log.py:872-881 | an acknowledgement once delivered stays in the leader's records |
| `QuorumCommit.MajorityCommits` | meshweaver/raft_log.py:928-955 | once a majority's acknowledgements of an own-term entry are delivered it is committed |
| `Engine.ResultsAreAnswers` | meshweaver/raft_log.py:992-1008 | one answer an entry, in order, each on the machine those before it leave, up to the first that raises |
| `CompactedReplication.StepFollows` | meshweaver/raft_log.py:699-1008 | every step of a cluster whose nodes compact is matched by a step of the uncompacted cluster, or by none |
| `CompactedReplication.RunFollows` | meshweaver/raft_log.py:224-241 | every run with compaction follows a run without |
| `CompactedReplication.FollowersArePrefixes` | meshweaver/raft_log.py:159-241 | whoever compacts, each follower's history is a prefix of the leader's |
| `CompactedReplication.CommittedIsOnMajority` | meshweaver/raft_log.py:887-926 | whoever compacts, every index the leader commits is held by a majority |
| `CompactedReplication.CommitIsHighest` | meshweaver/raft_log.py:887-926 | whoever compacts, the commit index is the highest own-term entry acknowledged by a majority, or where the run began |
| `CompactedReplication.CommitMovesInTerm` | meshweaver/raft_log.py:916-924 | whoever compacts, the commit index moves only to entries of the leader's own term |
| `CompactedReplication.AppliedSequencesAgree` | meshweaver/raft_log.py:992-1008 | whoever compacts, applied command sequences are prefixes of one another at any two moments |
| `Applied.ExecKeeps` | meshweaver/raft_log.py:142-249 | each of append, reconcile, commit, apply, compaction and snapshot install keeps the fold invariant and every applied entry |
| `Applied.RunKeeps` | meshweaver/raft_log.py:142-249 | between any two states of a run what was applied stays applied, unchanged |
| `Applied.AppliedStateIsFold` | meshweaver/raft_log.py:142-249 | in every state: snapshot <= applied <= commit <= last index, and the machine is entries 1..applied once each in order |
| `Applied.CleanEntriesFold` | meshweaver/raft_log.py:992-1008 | a node that is only offered clean entries always equals the fold, however often commands raise |
| `Applied.InstallExactly` | meshweaver/raft_log.py:850-855 | a snapshot of the same history keeps the fold, on every node, exactly when it is not older than what is applied |
| `Applied.RaisingBatchRepeats` | meshweaver/raft_log.py:548-556 | a batch whose second command raises leaves its first effect and repeats it at every retry |
| `SnapshotTransfer.StepAgrees` | meshweaver/raft_log.py:309-441 | a command time-stamped from the export on keeps the machines so related, raises on both or neither, and is answered alike exactly unless it is a release refused on a stale lock |
| `SnapshotTransfer.SnapshotIsBisimulation` | meshweaver/raft_log.py:558-581 | under later commands, nested batches included, original and restored machine agree, and answer alike exactly unless a stale lock's release is refused |
| `SnapshotTransfer.AgreeLater` | meshweaver/models.py:363-365 | machines that agree at one time agree on every lock that is unexpired at any later time |
| `SnapshotTransfer.ReleaseTellsApart` | meshweaver/raft_log.py:425-441 | a release is answered differently exactly when the original refuses it on a lock expired by the export |
| `SnapshotTransfer.RepliesAlike` | meshweaver/raft_log.py:558-581 | a log that releases no lock expired by the export is answered alike, entry by entry |
| `SnapshotTransfer.FollowerAfterSnapshot` | meshweaver/raft_log.py:684-856 | what a snapshot, and entries sent at any later moment, do to a lagging follower, exactly, and when its application raises |
| `SnapshotTransfer.SnapshotEqualsReplay` | meshweaver/raft_log.py:684-856 | a snapshot sent at the leader's applied index, and whatever it appended and committed since, make the follower agree with a full replay |
| `SnapshotTransfer.SnapshotExactly` | meshweaver/raft_log.py:684-856 | for all boundaries, applied and commit indices, followers always end in agreement exactly when the snapshot is sent at the boundary |
| `SnapshotTransfer.LateSnapshotCountsTwice` | meshweaver/raft_log.py:684-733 | for every boundary below the applied index there are logs on which entries count twice |
| `Transactions.TransactionContext.Set` | meshweaver/transactions.py:51-63 | buffers a set and its value, unless closed |
| `Transactions.TransactionContext.Increment` | meshweaver/transactions.py:65-82 | buffers an increment on the buffered, read or zero value, falling back to the delta |
| `Transactions.TransactionContext.Delete` | meshweaver/transactions.py:84-95 | buffers a delete as a null value |
| `Transactions.TransactionContext.Get` | meshweaver/transactions.py:97-108 | reads through the buffer and records what the store held |
| `Transactions.TransactionContext.Commit` | meshweaver/transactions.py:110-115 | closes once and commits the buffered operations; a second commit raises |
| `Transactions.TransactionContext.RollbackOnce` | meshweaver/transactions.py:117-122 | closes once, and rolls the transaction back; a second rollback answers false and changes nothing |
| `Transactions.TransactionCoordinator.BeginTransaction` | meshweaver/transactions.py:163-195 | records an active transaction |
| `Transactions.TransactionCoordinator.CheckVersions` | meshweaver/transactions.py:250-260 | true exactly when every expected version is current |
| `Transactions.TransactionCoordinator.CheckLocks` | meshweaver/transactions.py:236-248 | true exactly when no other transaction holds a key to be written |
| `Transactions.TransactionCoordinator.PrepareTransaction` | meshweaver/transactions.py:203-291 | votes yes exactly when unexpired, unlocked and current, and then locks the write set |
| `Transactions.TransactionCoordinator.ApplyOperations` | meshweaver/transactions.py:315-340 | applies the operations in order, bumps versions, releases exactly its own locks |
| `Transactions.TransactionCoordinator.RollbackTransaction` | meshweaver/transactions.py:358-379 | aborts and releases exactly its own locks; unknown ids change nothing |
| `Transactions.TransactionCoordinator.CommitTransaction` | meshweaver/transactions.py:293-340 | prepares if needed, then applies, or rolls back on a no vote |
| `TxSafety.StepKeeps` | meshweaver/transactions.py:110-379 | every critical section of every transaction, in any interleaving, keeps locks, versions and expectations in step |
| `TxSafety.LocksAreExact` | meshweaver/transactions.py:236-271 | in every run a key is locked by t exactly when t is prepared and writes it; prepared write sets are disjoint |
| `TxSafety.VersionIsCommitCount` | meshweaver/transactions.py:315-340 | a key's version is the number of operations committed on it |
| `TxSafety.ExpectedStillCurrentAtApply` | meshweaver/transactions.py:250-340 | what was checked at prepare is still current when the operations are applied, whatever ran in between |
| `TxSafety.SameVersionNeverTwice` | meshweaver/transactions.py:250-340 | two transactions that expected the same version of a key never both commit |
| `TxOutcomes.PrepareMeans` | meshweaver/transactions.py:203-291 | preparing stores nothing and ends prepared, timed out or as it was, by the clock, the locks and the versions |
| `TxOutcomes.CommitAnswers` | meshweaver/transactions.py:203-313 | commit answers true exactly when the transaction is prepared, or in time, unopposed and up to date |
| `TxOutcomes.CommitDone` | meshweaver/transactions.py:315-340 | true means the operations are stored in order, each counted in its key's version, and the record is committed |
| `TxOutcomes.CommitRefused` | meshweaver/transactions.py:300-313 | false means nothing is stored or counted and a known record is aborted |
| `TxOutcomes.CommitReleases` | meshweaver/transactions.py:334-337 | whatever the answer, exactly the transaction's own locks on keys it writes are given back |
| `TxOutcomes.CommitKeepsExact` | meshweaver/transactions.py:293-340 | where locks were exact they stay so and the transaction holds none |
| `TxOutcomes.RollbackMeans` | meshweaver/transactions.py:358-393 | rollback stores nothing, aborts, and gives back exactly its own locks |
| `TxOutcomes.CommitIsItsSteps` | meshweaver/transactions.py:293-340 | an uninterrupted commit is the run of its critical sections |
| `TxOutcomes.CommitContinuesRun` | meshweaver/transactions.py:293-340 | every run may go on with such a commit, so the theorems about runs hold after it |
| `TxOutcomes.AppliedAtMostOnce` | meshweaver/transactions.py:110-122 | however transactions interleave, each is applied at most once |
| `TxOutcomes.RefusedNeverApplies` | meshweaver/transactions.py:203-313 | a commit that finds its time run out, a key held or a version moved is never applied later |
| `BufferedView.BufferedViewExactly` | meshweaver/transactions.py:51-328 | the committed value equals the buffered one exactly unless the key was incremented blindly over a non-zero number |
| `BufferedView.BufferedViewEqualsCommit` | meshweaver/transactions.py:51-328 | with every increment after a set, delete or get of its key, commit stores the buffered value of each written key |
| `Wal.WALEngine.constructor` | meshweaver/wal.py:142-151 | opening takes the discovered segments and resumes the sequence number from the scans |
| `Wal.WALEngine.AppendRecord` | meshweaver/wal.py:213-254 | numbers the record next and writes it to the active or a new segment |
| `Wal.WALEngine.RotateSegment` | meshweaver/wal.py:256-263 | opens a segment with the next id |
| `Wal.WALEngine.IterAllRecords` | meshweaver/wal.py:265-269 | rediscovers the segments and reads each up to its first damaged line |
| `Wal.AppendPlaces` | meshweaver/wal.py:213-254 | a record goes to the end of the last segment, or alone into a new one when that is full |
| `Wal.ScanEndsOn` | meshweaver/wal.py:41-58 | the opening scan ends on the last line it can parse, even one with a wrong checksum |
| `Wal.AppendKeeps` | meshweaver/wal.py:213-254 | appending, with or without rotation, leaves segments that flatten to the longer history |
| `Wal.RotateKeeps` | meshweaver/wal.py:256-263 | rotation leaves the history unchanged |
| `Wal.MaxScanIsLength` | meshweaver/wal.py:41-57 | wherever segments are cut, the opening scans find the history's last number |
| `Wal.DiscoveryIsExact` | meshweaver/wal.py:175-197 | listing by file name gives the segments in written order exactly while there are fewer than a million |
| `Wal.RestartKeeps` | meshweaver/wal.py:142-151 | a restart over undamaged segments resumes exactly the log that was |
| `Wal.AllRead` | meshweaver/wal.py:99-120 | an undamaged log reads back as its append history, numbered from 1 without a gap |
| `Wal.TailDamageReadsPrefix` | meshweaver/wal.py:99-120 | damage at the tail of the last segment costs exactly the lines from the damage on |
| `Wal.AppendedIsReadable` | meshweaver/wal.py:99-120 | an appended record can be read back exactly when no damaged line precedes it in its segment |
| `Wal.AppendAfterDamageIsLost` | meshweaver/wal.py:35-57 | after a restart over a damaged last segment, the next record is never replayed |
| `Recovery.CrashRecoveryManager.ReplayTransaction` | meshweaver/wal.py:361-380 | replays each logged operation with a key, in order |
| `Recovery.CrashRecoveryManager.ReplayRecord` | meshweaver/wal.py:337-387 | one record's effect on log and machine, and whether it raised |
| `Recovery.CrashRecoveryManager.Recover` | meshweaver/wal.py:319-392 | folds all records, counts replays and errors, and reports the highest number |
| `Recovery.MaxSeqIsHighest` | meshweaver/wal.py:331-336 | the last sequence number reported is the highest of the records |
| `Recovery.PointersAreCounted` | meshweaver/wal.py:336-387 | the records neither replayed nor failed are exactly the pointers |
| `Recovery.ReplayIsApply` | meshweaver/wal.py:364-379 | logged operations replay to exactly what their commit applied |
| `Recovery.ReplayIsCommits` | meshweaver/wal.py:361-380 | replaying transaction markers executes the commits in order and nothing of begun, prepared or aborted transactions |
| `Recovery.EitherSaysCommitted` | meshweaver/wal.py:361-380 | a marker that says committed by action or by status alone replays its operations; any other is passed over |
| `Recovery.StepLogs` | meshweaver/transactions.py:315-353 | a critical section logs at most one marker, and the store changes exactly with a commit marker |
| `Recovery.EventKeeps` | meshweaver/wal.py:142-269 | transactions, rotations and crashes that lose a tail keep log, commits and store in step |
| `Recovery.LogIsAppendHistory` | meshweaver/wal.py:142-269 | in every run the segments read back as the markers in order with consecutive numbers |
| `Recovery.RecoveryIsCommitPrefix` | meshweaver/wal.py:335-383 | after tail damage recovery yields the key-values of a prefix of commit order, with every intact commit and nothing else |
| `Recovery.RecoveryIsLive` | meshweaver/wal.py:335-383 | undamaged, recovery yields exactly the live key-values |
| `Recovery.DurableLocksAreExact` | meshweaver/transactions.py:236-271 | through restarts too, a key is locked by t exactly when t is prepared and writes it |
| `Recovery.VersionCountsSinceRestart` | meshweaver/wal.py:335-383 | a version counts the commits since the last restart, and all commits exactly when none came before it |
| `Recovery.SameVersionMeansRestart` | meshweaver/wal.py:335-383 | two commits that expected the same version of a key have a restart between them |
| `Recovery.SameVersionTwiceAcrossRestart` | meshweaver/wal.py:335-383 | such a run exists: a restart lets two commits expect the same version |
| `EntryReplay.ReplayIsAsSaid` | meshweaver/wal.py:338-359 | any mixture of entries and commit markers rebuilds the gapless log, commits and applies as far as the records say, and executes just the committed entries |
| `EntryReplay.FailsExactly` | meshweaver/wal.py:338-359 | a record counts as an error exactly when it leaves a gap or its execution raises |
| `EntryReplay.EntriesReplay` | meshweaver/wal.py:338-353 | replaying a log's committed entries rebuilds the log, applied to its end, and the state they lead to |
| `TreeReduce.ReduceGroup` | meshweaver/map_reduce.py:215-219 | the accumulator loop is the left fold |
| `TreeReduce.Split` | meshweaver/map_reduce.py:207-212 | the stepping loop splits a level into the groups and the leftover |
| `TreeReduce.ReduceLevel` | meshweaver/map_reduce.py:203-232 | one level yields the leftover and then the folded groups |
| `TreeReduce.Run` | meshweaver/map_reduce.py:194-237 | the result and the number of rounds for any operator, empty and single inputs included |
| `TreeReduce.RoundsAreLeast` | meshweaver/map_reduce.py:203-232 | the rounds are exactly the least r with b^r >= n |
| `TreeReduce.TreeIsFold` | meshweaver/map_reduce.py:194-237 | for an associative and commutative operator the reduction is the sequential fold |
| `TreeReduce.InitialIsFirst` | meshweaver/map_reduce.py:234-237 | with an initial value it is the fold that starts there |
| `TreeReduce.EvenTreeIsFold` | meshweaver/map_reduce.py:194-237 | where no level has a leftover, associativity is enough |
| `TreeReduce.UnevenTurns` | meshweaver/map_reduce.py:207-212 | the first leftover puts the last item directly before the first, for good |
| `TreeReduce.AssociativeExactly` | meshweaver/map_reduce.py:190-193 | for words of any number n under concatenation the reduction is always the fold exactly when no level has a leftover |
| `Xor.DistanceInjective` | meshweaver/models.py:60-62 | from any target different identifiers lie at different distances |
| `Xor.DistanceZero` | meshweaver/models.py:60-62 | the distance is zero exactly between equal identifiers |
| `Xor.BitLengthBounds` | meshweaver/routing_table.py:27-33 | the bit length brackets a distance between powers of two |
| `KBuckets.KBucket.Add` | meshweaver/kbucket.py:49-79 | refreshes, appends or caches a node, as specified |
| `KBuckets.KBucket.Remove` | meshweaver/kbucket.py:81-98 | removes the node everywhere, promotes the oldest candidate, returns the removed contact |
| `KBuckets.AddKeeps` | meshweaver/kbucket.py:49-79 | adding keeps unique ids, sizes and a cache only when full; it drops no contact, and is true exactly when the node is a contact |
| `KBuckets.CacheKeeps` | meshweaver/kbucket.py:71-79 | a candidate is remembered and only the oldest candidate of a full cache can be lost |
| `KBuckets.RemoveKeeps` | meshweaver/kbucket.py:81-98 | removing forgets exactly that id and refills the bucket from its cache |
| `BucketOrder.AddPlaces` | meshweaver/kbucket.py:61-79 | a refreshed or new contact goes to the end with its new record, else a candidate to the end of the cache, and nothing else moves |
| `BucketOrder.RemovePlaces` | meshweaver/kbucket.py:86-98 | removal promotes the candidate that has waited longest and moves nothing else |
| `BucketOrder.RecordIsLatest` | meshweaver/kbucket.py:49-79 | after any operations each node is known by the record of its latest addition |
| `BucketOrder.AddKeepsOrder` | meshweaver/kbucket.py:49-79 | adding keeps contacts and candidates in the order they were seen |
| `BucketOrder.RemoveKeepsOrderExactly` | meshweaver/kbucket.py:81-98 | removing keeps that order exactly when it promotes no candidate seen before the newest contact |
| `BucketOrder.ContactsStandInOrder` | meshweaver/kbucket.py:49-98 | after any operations without such a promotion contacts stand from least to most recently seen |
| `BucketOrder.StaleCandidatePromoted` | meshweaver/kbucket.py:94-96 | operations after which a contact follows one seen later |
| `RoutingTables.BucketIndexExact` | meshweaver/routing_table.py:27-33 | another node's bucket is the one index i with 2^i <= distance < 2^(i+1) |
| `RoutingTables.RoutingTable.AddContact` | meshweaver/routing_table.py:35-45 | adds to the node's own bucket only; ignores this node |
| `RoutingTables.RoutingTable.RemoveContact` | meshweaver/routing_table.py:47-52 | removes from the node's own bucket only |
| `RoutingTables.RoutingTable.FindClosestNodes` | meshweaver/routing_table.py:61-81 | gathers, sorts and cuts as specified, negative and absent counts included |
| `RoutingTables.TableInvariant` | meshweaver/routing_table.py:35-52 | after any adds and removes every known node is in its distance's bucket, once, within capacity, and this node in none |
| `RoutingTables.BucketsStandAlone` | meshweaver/routing_table.py:35-52 | a bucket of the table is what the operations on nodes at its distances, in order, make of an empty bucket |
| `RoutingTables.AddAnswers` | meshweaver/routing_table.py:35-45 | adding answers whether the node is a contact afterwards |
| `RoutingTables.ClosestAreNearest` | meshweaver/routing_table.py:61-81 | a search returns exactly the nearest candidates in strictly increasing distance |
| `LoadShedder.AdaptiveLoadShedder.UpdateResourceTelemetry` | meshweaver/adaptive_load_shedder.py:46-49 | clamps measurements to 0..100 |
| `LoadShedder.AdaptiveLoadShedder.RefillTokens` | meshweaver/adaptive_load_shedder.py:87-93 | refills by elapsed time at the effective rate, up to the capacity |
| `LoadShedder.AdaptiveLoadShedder.TryAcquire` | meshweaver/adaptive_load_shedder.py:95-139 | admits exactly when not shed and affordable, and counts every attempt once |
| `LoadShedder.AdaptiveLoadShedder.Release` | meshweaver/adaptive_load_shedder.py:141-144 | gives a permit back, never below zero |
| `LoadShedder.AdaptiveLoadShedder.TuneConcurrencyLimits` | meshweaver/adaptive_load_shedder.py:163-172 | the ceiling follows the CPU as specified: one down to the minimum above the target, one up to 64 when idle |
| `LoadShedder.AdmittedExactly` | meshweaver/adaptive_load_shedder.py:51-139 | the admission rules, thresholds and refill rates on the load itself, and the state an attempt leaves |
| `LoadShedder.StartsFull` | meshweaver/adaptive_load_shedder.py:24-40 | a new shedder admits exactly what its capacity covers, priority 0 even without permits |
| `LoadShedder.ReadingsAreLatest` | meshweaver/adaptive_load_shedder.py:46-49 | in every run the readings are the last ones taken, cut to 0..100, and the clock that of the last attempt |
| `LoadShedder.PermitsAreCounted` | meshweaver/adaptive_load_shedder.py:132-144 | permits out are admissions less releases while nobody gives back what was not taken |
| `LoadShedder.CeilingHolds` | meshweaver/adaptive_load_shedder.py:125-130 | without priority 0 and retuning the permits stay within the ceiling |
| `LoadShedder.TuneWithin` | meshweaver/adaptive_load_shedder.py:163-172 | retuning keeps the ceiling in its range and moves it by one exactly under the load it names |
| `LoadShedder.UrgentFirst` | meshweaver/adaptive_load_shedder.py:106-139 | whatever admits a task admits a more urgent and no dearer one |
| `LoadShedder.TokensWithin` | meshweaver/adaptive_load_shedder.py:87-139 | in every run tokens stay between 0 and the capacity |
| `LoadShedder.RateBound` | meshweaver/adaptive_load_shedder.py:73-139 | in every run and window the admitted cost is at most the capacity plus the highest rate times the window's length |
| `LoadShedder.ClockBackCredits` | meshweaver/adaptive_load_shedder.py:87-93 | the bound needs the clock: after a reading that steps back, a spent bucket admits again without time passing |

## Left out

- Timers, leases and asyncio: timeouts, deadlines and clock readings are steps or parameters; a critical section that never suspends is one step.
- Leader completeness and state machine safety across changes of leader: vote granting does not compare logs, so only the pairwise and stable-leader statements hold.
- Dynamic quorum sizes from gossip and several progress records per follower: membership is fixed, one record per follower.
- Engine.RaftReplicationEngine.CountAt: counts one record per peer, without the alias records under other names of a node.
- Engine.RaftReplicationEngine.CheckAndAdvanceQuorumCommit: counts as CountAt does, without alias records.
- Engine.RaftReplicationEngine.HandleAppendEntriesResponse: updates one progress record, where the source updates one per alias of the sender.
- Engine.RaftReplicationEngine.ApplyCommittedEntries: does not resolve the futures of pending proposals.
- Transactions.TransactionCoordinator.PrepareTransaction: answers the vote only, without per-key fencing tokens and error texts.
- Replication runs with compaction leave out the snapshots a leader sends to followers behind its boundary; those are covered by SnapshotTransfer and Applied, one follower at a time.
- Election state does not survive a restart in the source; runs with restarting nodes are not modelled.
- Counters and metrics of every component, callbacks, log messages, and the message envelopes.
- Malformed message payloads and records whose dictionaries miss fields.
- Log entries with timestamp 0, which the source replaces by the current time.
- Python's equality across types in compare-and-set (`1 == 1.0 == True`): values compare as model values.
- A job's extra data beyond its id, token, worker, result and error.
- Transactions: per-key fencing tokens at prepare, validation of read sets (the source records reads but never checks them), isolation levels, and the participant message handlers of the node.
- A coordinator without a state machine, and state-machine commands that run beside transactions.
- WAL: purging, fsync policy, checksum arithmetic, JSON encoding, file I/O, and the option that disables it. A last line that is whole but lacks its newline merges with the next record; a line here is intact, damaged or blank as a whole.
- Snapshot files on disk (`meshweaver/storage.py`); replay starts from an empty state.
- `tree_reduce` with a branching factor below 2, which does not terminate, and the scheduling of its groups; `execute_map_reduce`.
- `KBuckets`: contacts are values, so a caller that keeps and changes a contact object it added is not modelled.
- `RoutingTables`: Python's sort is specified by insertion; with distinct distances every sort gives the same list. `get_contact`, `get_all_contacts` and `total_contacts` would only add easy members.
- `LoadShedder`: arithmetic is over reals, without floating-point rounding.
- Networking, gossip, DHT storage, task serialisation and caching, the priority queue, circuit breaker, barriers, semaphores, scheduler, pipelines, chaos injection, dashboard and cluster runner.
