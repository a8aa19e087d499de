# Verified model

Machine-checked models of the parts of this repository whose meaning does not depend on the operating
system. `dafny verify dfyconfig.toml` checks everything.

| files | what they model |
|---|---|
| `RaftProtocol`, `RaftCluster` | one Raft participant as a value, and a cluster of them taking steps: timeouts, votes, requests, answers, applying, crashes with restart. Messages are never removed, so any of them can be delayed, repeated or lost |
| `RaftHistory`, `RaftQuorums`, `RaftElection`, `RaftCommit`, `RaftSafety`, `RaftTheorems` | a history of leaders, votes, acknowledgements and applied entries beside the run, the invariants over it, and the safety claims of `docs/raft-kv.md` (Ongaro and Ousterhout 2014, sections 5.1 to 5.4 and Figure 2) |
| `RaftHandlers` | what every handler of `node.py` answers and changes, in terms of log entries, and that some node can always be elected |
| `RaftReplies`, `RaftPairs`, `RaftCounterexamples`, `RaftSizes` | where the code differs from its intent, exactly when, and for every cluster size either safety of all runs or a run that breaks it |
| `RaftNode`, `RaftLog`, `RaftState` | the objects that change in place, their methods proved against the protocol's functions |
| `Rollout`, `RolloutSafety`, `RolloutRace`, `RolloutPasses`, `RolloutConvergence`, `Workloads` | rolling updates: the Deployment and ReplicaSet passes, what every interleaving keeps, and why rollouts end |
| `ObjectStore`, `StoreContents`, `StoreConcurrency`, `StoreWatch`, `StoreGenerations`, `StoreReplicas`, `MemoryStore` | the versioned object store and its replicated twin |
| `ReplicatedStore` | the store on top of Raft |
| `WorkQueue`, `WorkQueueTheorems`, `WorkQueueObject` | the deduplicating work queue and its workers |
| `Scheduler` | placement and capacity |
| `Layers`, `LayerRoundTrip`, `LayerExtraction`, `LayerFiles` | image layers: difference, whiteouts, extraction |
| `Netlink` | route attributes (RFC 3549, section 2.2) |

The Raft theorems distinguish the code as written from the code as it is meant, which answers a request with
the last index it covers and ends an apply pass at the commit index it began with; a run may mix both. A run is
*sound* when the cluster has odd size or at most two nodes and no answer as written is given over a stale tail, an
entry of an older term that outlives the request. Every run of the code as meant in such a cluster is sound, and
so is every run of at most two nodes.

## Where the code and its intent differ

The models follow the code.

- The Raft quorum `(len(peers) + 2) // 2` is a majority only in clusters of odd size. A candidate needs at
  least one granted vote besides its own, so two nodes are safe as well; every even size from four on can
  elect two leaders in one term, and both can commit. The documentation promises one leader per term without this condition.
- A successful AppendEntries answers with `last_index()`, while Figure 2 of the paper and the comment in
  `raft.proto` mean the last index the request covers, `prev_log_index + len(entries)`. The answer is wrong
  exactly when an entry of an older term than the request outlives it: a longer tail of the leader's own
  entries, as a delayed request meets it, is harmless. Election safety, leader append-only and log matching
  hold regardless. As written, state machine safety holds in all runs of at most two nodes and fails in some
  run of every larger cluster; as meant, it holds in all runs of every odd size.
- `_apply_committed` sets `last_applied` from the commit index after its loop, so an entry committed during
  the loop is never applied.
- `RaftLog.snapshot` behind the current base takes a negative slice and moves entries off their indexes.
- Retiring old ReplicaSets rests on an earlier, unclamped count of the target's Ready pods, so rolling back
  onto a ReplicaSet that is still draining can break the availability floor.
- A ReplicaSet pass deletes what it listed earlier. When a listed pod has turned Ready since and one that stays
  has not, the delete costs a serving pod, and a Deployment pass in between may have drained another
  ReplicaSet on the strength of it.
- With `maxSurge` and `maxUnavailable` both 0 a rollout between two templates never ends.
- The surplus of a ReplicaSet is sorted oldest first, though the comment says newest first.
- A Deployment deleted and created again starts at generation 1 again, so a verdict on the old one can be
  published on the new one.
- A store that keeps no history answers a watcher with an empty list; `RaftStore.events_since` answers with
  what it has left.
- With more than one worker the queue can drop a delayed hint.
- The scheduler binds whatever pod has the key by then, without looking at its requests again; that is safe
  exactly when they are within the requests it evaluated.

## Model

| member | source | states |
|---|---|---|
| `RaftElection.ElectionSafety` | `docs/raft-kv.md:169` | two nodes that lead in one term, at any two moments of any run with delayed, repeated and lost messages and restarts, are the same node, in every cluster of odd size or of at most two nodes |
| `RaftSizes.ElectionSafetyIffSize` | `modules/raft-kv/raft_kv/raft/node.py:252-272` | for every cluster size: at most one leader per term in all runs if and only if the size is odd or at most two; every even size from four on has a run with two leaders in term 1 |
| `RaftElection.LeaderAppendOnly` | `docs/raft-kv.md:170` | in every cluster of odd size or of at most two nodes, while a node leads in a term its log only grows by entries of that term |
| `RaftElection.LogMatching` | `docs/raft-kv.md:171` | in every cluster of odd size or of at most two nodes, two logs of any two nodes at any two moments that hold an entry of the same index and term agree up to it, through both truncation branches |
| `RaftCommit.LeaderCompleteness` | `docs/raft-kv.md:172` | the step behind leader completeness, in any state that meets the invariants: an entry of its own term acknowledged by a quorum is in the log of every leader of a later term; rests on the log check of the vote and the term check of the commit scan |
| `RaftTheorems.ChosenInLaterLeaders` | `docs/raft-kv.md:172` | in every sound run, an entry of its own term acknowledged by a quorum is in the log of every leader of every later term, with everything before it |
| `RaftTheorems.LeadersHaveCommitted` | `docs/raft-kv.md:172` | in every sound run, whatever any node has committed is in the log of every leader of that or a later term from then on |
| `RaftTheorems.StateMachineSafety` | `docs/raft-kv.md:173` | in every sound run, two nodes, at any two moments and across restarts, never apply different entries at one index |
| `RaftTheorems.RepairedSafety` | `docs/raft-kv.md:173` | in every run of the code as it is meant, in a cluster of odd size or of at most two nodes, two nodes, at any two moments and across restarts, never apply different entries at one index |
| `RaftTheorems.RepairedIsSound` | `modules/raft-kv/raft_kv/raft/node.py:171-215` | every run of the code as it is meant, its answers prev_log_index + len(entries), in a cluster of odd size or of at most two nodes, is sound |
| `RaftPairs.PairsAreSound` | `modules/raft-kv/raft_kv/raft/node.py:171-272` | every run of a cluster of at most two nodes is sound, as written or as meant: no answer in it claims a stale tail |
| `RaftSizes.RepairedSafetyIffSize` | `modules/raft-kv/raft_kv/raft/node.py:252-272` | for every cluster size: as meant, no two nodes of any run apply different entries at one index if and only if the size is odd or at most two |
| `RaftSizes.WrittenSafetyIffSize` | `modules/raft-kv/raft_kv/raft/node.py:215` | for every cluster size: as written, the same holds of all runs if and only if there are at most two nodes |
| `RaftSizes.OddHistories` | `modules/raft-kv/raft_kv/raft/node.py:215` | for every odd size from three on, a run as written in which an answer counts a stale tail as replicated, a leader commits an entry without a quorum, and two nodes apply different entries at index 1 |
| `RaftReplies.MatchReplyIsExactIff` | `modules/raft-kv/raft_kv/raft/node.py:171-215` | a successful answer as written equals prev_log_index + len(entries) if and only if the follower's log does not go on beyond the request; otherwise it claims the whole log |
| `RaftReplies.AnswerIsHonestIff` | `modules/raft-kv/raft_kv/raft/node.py:171-215` | in every run of a cluster of odd size or of at most two nodes: an answer as meant claims only entries the follower shares with the leader of that term; an answer as written does if and only if no entry of an older term than the request outlives it, whatever was delayed or repeated |
| `RaftReplies.RefusalBacksOff` | `modules/raft-kv/raft_kv/raft/node.py:193-198` | a follower of no later term either accepts a request or makes the leader go back at least one entry, and at the start of the log it accepts |
| `RaftReplies.RequestsGetThrough` | `modules/raft-kv/raft_kv/raft/node.py:320-348` | repeating the request with the next index each refusal leaves gets through within next_index tries, as long as nothing else reaches leader or follower and the follower knows no later term |
| `RaftReplies.ApplyEndIsGapFreeIff` | `modules/raft-kv/raft_kv/raft/node.py:366-379` | the end of an apply pass leaves the applied sequence gap-free if and only if no commit landed during the pass |
| `RaftReplies.EndAsMeantIsGapFree` | `modules/raft-kv/raft_kv/raft/node.py:366-379` | ending a pass at the commit index it captured leaves the applied sequence gap-free, whatever landed meanwhile |
| `RaftReplies.AppliedInOrder` | `modules/raft-kv/raft_kv/raft/node.py:366-379` | in every sound run in which each pass that ends as written ends at the commit index it began with, every node at every moment has applied a gap-free prefix of its log |
| `RaftReplies.RepairedInOrder` | `modules/raft-kv/raft_kv/raft/node.py:366-379` | as meant, in a cluster of odd size or of at most two nodes, every node at every moment of every run has applied a gap-free prefix of its log, commits during a pass included |
| `RaftSizes.RepairedOrderIffSize` | `modules/raft-kv/raft_kv/raft/node.py:366-379` | for every cluster size: as meant, that holds of all runs if and only if the size is odd or at most two |
| `RaftSizes.WrittenOrderIffSize` | `modules/raft-kv/raft_kv/raft/node.py:366-379` | for every cluster size: as written, it holds of all runs if and only if there is at most one node |
| `RaftSizes.SkipsAnEntry` | `modules/raft-kv/raft_kv/raft/node.py:366-379` | for every size from two on, a run as written in which an entry commits during a leader's pass and the next pass begins behind it, so that it is never applied |
| `RaftTheorems.CommitsStand` | `modules/raft-kv/raft_kv/raft/node.py:193-213` | in every sound run no step but a crash of the node lowers its commit index or touches an entry it has committed |
| `RaftTheorems.LeaderCommitCovered` | `modules/raft-kv/raft_kv/raft/node.py:320-327` | in every sound run every AppendEntries ever sent announces a commit index within the entries it covers, which makes min(leader_commit, last_index()) safe |
| `RaftTheorems.RequestsWellIndexed` | `modules/raft-kv/raft_kv/raft/node.py:323-332` | in every run of every cluster, whatever its size, all logs carry consecutive indexes from 1 and the entries of every request from prev_log_index + 1 |
| `RaftElection.RunIsBasic` | `modules/raft-kv/raft_kv/raft/node.py:141-299` | in every cluster of odd size or of at most two nodes the invariant behind election safety and log matching holds in every state of every run |
| `RaftElection.StepKeepsBasic` | `modules/raft-kv/raft_kv/raft/node.py:141-348` | in such a cluster one step of the protocol keeps that invariant and only extends the history of leaders, votes and acknowledgements |
| `RaftTheorems.RunIsCommitted` | `modules/raft-kv/raft_kv/raft/node.py:193-362` | the invariant behind leader completeness holds in every state of every sound run |
| `RaftSafety.StepKeepsCommitted` | `modules/raft-kv/raft_kv/raft/node.py:193-362` | one step whose answer, if it gives one, claims no stale tail keeps that invariant |
| `RaftSafety.ScanFinds` | `modules/raft-kv/raft_kv/raft/node.py:350-362` | what the downward commit scan settles on: the old commit index, or an index of the current term that a quorum of match indexes reaches |
| `RaftQuorums.VotersMeet` | `modules/raft-kv/raft_kv/raft/node.py:252-272` | any two sets of voters large enough to elect share a member, in clusters of odd size or of at most two nodes |
| `RaftHandlers.VoteGrantedIff` | `modules/raft-kv/raft_kv/raft/node.py:141-169` | a vote is granted if and only if the term is not over, the vote of that term is free or the candidate's already, and the candidate's last entry is of a later term than the voter's, or of the same term in a log at least as long |
| `RaftHandlers.VoteLeaves` | `modules/raft-kv/raft_kv/raft/node.py:150-169` | a later term is taken over without a vote and as a follower, a granted vote is kept, and nothing else changes |
| `RaftHandlers.SomebodyCanWin` | `modules/raft-kv/raft_kv/raft/node.py:159-165` | whatever the logs of a cluster hold, one of its nodes gets the vote of every other in every term none has reached: the log check locks nobody out for good |
| `RaftHandlers.TimeoutAsks` | `modules/raft-kv/raft_kv/raft/node.py:241-261` | a timed-out node is a candidate of the next term with its own vote, and asks with the index and term of its last entry |
| `RaftHandlers.VoteAnswerTaken` | `modules/raft-kv/raft_kv/raft/node.py:264-269` | an answer of a later term ends the candidacy it was for, and no other answer changes anything |
| `RaftHandlers.FirstRequestIsEmpty` | `modules/raft-kv/raft_kv/raft/node.py:274-285` | a new leader's first request to each peer carries no entries and builds on its whole log, and it counts on nobody but itself |
| `RaftHandlers.LeaderBegins` | `modules/raft-kv/raft_kv/raft/node.py:274-285` | becoming leader changes the role, the known leader and the two tables, for the peers only |
| `RaftHandlers.AppendTakenIff` | `modules/raft-kv/raft_kv/raft/node.py:180-198` | a request is taken if and only if its term is not over and the log holds an entry of the right term where the request builds on one |
| `RaftHandlers.AppendTakes` | `modules/raft-kv/raft_kv/raft/node.py:200-215` | a log that takes a request stays as it is up to the first entry it does not hold, from there on is the entries of the request and nothing else, and stays whole if it holds them all; a leader's commit index that is ahead is followed as far as the log goes |
| `RaftHandlers.AppendRefused` | `modules/raft-kv/raft_kv/raft/node.py:180-198` | nothing happens in a term that is over; a log too short says how long it is; one with another term at prev_log_index is cut there |
| `RaftHandlers.AppendLeaves` | `modules/raft-kv/raft_kv/raft/node.py:180-190` | a term that is not over makes its leader known and ends a candidacy, a later one is taken over without a vote, and no other field changes |
| `RaftHandlers.AnswerTaken` | `modules/raft-kv/raft_kv/raft/node.py:336-348` | what each kind of answer does to the leader's two tables, its role and its term, and that it leaves those of other peers alone |
| `RaftHandlers.RequestCarriesRest` | `modules/raft-kv/raft_kv/raft/node.py:320-332` | what a leader sends, put behind what it builds on, is the leader's log |
| `RaftHandlers.ProposeTakes` | `modules/raft-kv/raft_kv/raft/node.py:117-125` | leaders alone take a command: one entry of their term at the next index, which is the answer |
| `RaftHandlers.CommitsHighest` | `modules/raft-kv/raft_kv/raft/node.py:350-362` | the commit index moves to the highest index above it whose entry is of the term and in a quorum of match indexes, and stays if there is none |
| `RaftHandlers.PassApplies` | `modules/raft-kv/raft_kv/raft/node.py:366-379` | an apply pass that nothing disturbs hands over exactly the committed entries not applied yet, in order, and leaves none |
| `RaftHandlers.AnswerClaims` | `modules/raft-kv/raft_kv/raft/node.py:215` | an answer to a request that is taken claims the whole log as written, and what the request covers as meant |
| `RaftHandlers.CrashKeeps` | `modules/raft-kv/raft_kv/raft/state.py:18-24` | term, vote and log survive a crash, and nothing else does |
| `RaftNodeObject.RaftNode.HandleRequestVote` | `modules/raft-kv/raft_kv/raft/node.py:141-169` | the vote is granted only in the current term, to one candidate, whose log is up to date: state, saved term and vote, and reply are those of the protocol step the theorems are about |
| `RaftNodeObject.RaftNode.HandleAppendEntries` | `modules/raft-kv/raft_kv/raft/node.py:171-215` | for entries that continue prev_log_index, as those of every request do: the loop over the log object, both truncations and the commit rule give the state and the reply of the protocol step, saved as well |
| `RaftNodeObject.RaftNode.Merge` | `modules/raft-kv/raft_kv/raft/node.py:200-210` | for such entries the loop keeps what agrees, cuts off at the first conflict and appends the rest: the merge the proofs are about, in memory and on disk |
| `RaftNodeObject.RaftNode.CheckPrevious` | `modules/raft-kv/raft_kv/raft/node.py:193-198` | refused past the end of the log or when the term at prev_log_index differs, and then the log is cut there; else nothing changes |
| `RaftNodeObject.RaftNode.Propose` | `modules/raft-kv/raft_kv/raft/node.py:117-125` | a leader appends one entry of its term at the next index and counts itself; others refuse |
| `RaftNodeObject.RaftNode.StartElection` | `modules/raft-kv/raft_kv/raft/node.py:241-249` | a new term and a vote for itself, both saved before anything is asked |
| `RaftNodeObject.RaftNode.BecomeLeader` | `modules/raft-kv/raft_kv/raft/node.py:274-285` | only a candidate still in the term becomes leader; the tables start over |
| `RaftNodeObject.RaftNode.AdvanceCommit` | `modules/raft-kv/raft_kv/raft/node.py:350-362` | the downward loop leaves the commit index at the highest index of the current term that a quorum has reached, or where it was |
| `RaftNodeObject.RaftNode.HandleAppendReply` | `modules/raft-kv/raft_kv/raft/node.py:336-348` | an answer of a later term ends the leadership; a success sets both indexes of the peer and may commit; a refusal sets next_index just past the index it reports, not below 1 |
| `RaftNodeObject.RaftNode.BuildRequest` | `modules/raft-kv/raft_kv/raft/node.py:323-332` | the request carries next_index - 1, the term there, and the whole log after it |
| `RaftNodeObject.RaftNode.ApplyCommitted` | `modules/raft-kv/raft_kv/raft/node.py:366-379` | with commits landing during the loop: exactly the entries committed when the pass began are applied, once each and in order, and last_applied ends at the commit index of the end of the loop |
| `RaftNodeObject.RaftNode.CheckTerm` | `modules/raft-kv/raft_kv/raft/node.py:296-299` | a later term is adopted without a vote, as a follower |
| `RaftLogFile.RaftLog.Append` | `modules/raft-kv/raft_kv/raft/log.py:53-56` | one more entry, in memory and on disk; a consecutive one extends the index map by itself |
| `RaftLogFile.RaftLog.AppendAll` | `modules/raft-kv/raft_kv/raft/log.py:58-62` | a list of entries is at the end of memory and file, one line each, and consecutive ones keep every index at its entry |
| `RaftLogFile.RaftLog.TruncateFrom` | `modules/raft-kv/raft_kv/raft/log.py:100-108` | exactly the entries below the index stay |
| `RaftLogFile.RaftLog.Snapshot` | `modules/raft-kv/raft_kv/raft/log.py:110-118` | base, base term and the remaining entries after a snapshot, negative slices included, on disk as well; every index still finds its entry if and only if the snapshot is not behind the base |
| `RaftLogFile.SnapshotIsSoundIff` | `modules/raft-kv/raft_kv/raft/log.py:110-118` | a snapshot keeps entries at their indexes if and only if it is not behind the base; then exactly the entries after it stay |
| `RaftLogFile.RaftLog.Get` | `modules/raft-kv/raft_kv/raft/log.py:64-67` | an index gives its entry, anything else nothing |
| `RaftLogFile.RaftLog.TermAtRead` | `modules/raft-kv/raft_kv/raft/log.py:81-89` | the term of a held entry; the base's own term from 1 up to the base; 0 at index 0 and past the end |
| `RaftLogFile.RaftLog.EntriesFrom` | `modules/raft-kv/raft_kv/raft/log.py:91-98` | exactly the held entries from an index on, in index order |
| `RaftLogFile.RaftLog.LastIndex` | `modules/raft-kv/raft_kv/raft/log.py:69-73` | base plus number of entries |
| `RaftLogFile.LoadRewritten` | `modules/raft-kv/raft_kv/raft/log.py:140-163` | loading a rewritten file gives back base, base term and entries |
| `RaftLogFile.LoadAppended` | `modules/raft-kv/raft_kv/raft/log.py:133-163` | lines appended one by one load to the old contents followed by the new entries |
| `RaftLogFile.RaftLog.constructor` | `modules/raft-kv/raft_kv/raft/log.py:41-49` | an object over a file that loads holds what the file says |
| `RaftLogFile.RaftLog.Open` | `modules/raft-kv/raft_kv/raft/log.py:41-49` | opening raises if and only if the file does not load, and otherwise holds what the file says |
| `RaftState.PersistentState.SetTerm` | `modules/raft-kv/raft_kv/raft/state.py:33-37` | term set, vote cleared, both on disk |
| `RaftState.PersistentState.IncrementTerm` | `modules/raft-kv/raft_kv/raft/state.py:39-44` | term plus one, vote cleared, both on disk |
| `RaftState.PersistentState.SetVotedFor` | `modules/raft-kv/raft_kv/raft/state.py:53-56` | vote set, term kept, both on disk |
| `RaftState.PersistentState.constructor` | `modules/raft-kv/raft_kv/raft/state.py:18-24` | a restart finds the saved term and vote |
| `RolloutSafety.RolloutKeepsFloor` | `modules/orchestrator/orchestrator/workloads.py:87-261` | in every interleaving of the steps of the Deployment pass, the steps of the ReplicaSet passes (read, list, one create or delete at a time) and pods becoming Ready, in which no listed surplus pod turns Ready while a pod that stays is not, and whose target starts without pods beyond its count or at the desired count: the pods that serve and are not about to go never number less than desired - maxUnavailable, or than at the start if that was less |
| `RolloutSafety.RolloutKeepsSurge` | `modules/orchestrator/orchestrator/workloads.py:200-213` | in every interleaving of those steps, from any ReplicaSets and with no condition on the pods, the replicas asked for never exceed desired + maxSurge, or what they were at the start |
| `RolloutSafety.NextKept` | `modules/orchestrator/orchestrator/workloads.py:87-285` | every single step under that condition keeps the invariant behind the floor |
| `RolloutRace.FloorHoldsIff` | `modules/orchestrator/orchestrator/workloads.py:96-115` | for every Deployment: without the condition on listed pods the floor holds in all runs if and only if desired - maxUnavailable is not above 0 |
| `RolloutRace.ListedPodBreaksFloor` | `modules/orchestrator/orchestrator/workloads.py:103-115` | for every Deployment with a floor above 0, a run in which a listed pod turns Ready, a Deployment pass drains the old ReplicaSet on the strength of it, and the pod is deleted: one below the floor |
| `Rollout.SurplusKeepsClampedIff` | `modules/orchestrator/orchestrator/workloads.py:103-115` | deleting a surplus listed earlier leaves the requested number of pods, and costs none of those that count if and only if no listed pod is Ready by then while a pod that stays is not |
| `Rollout.DeleteKeepsClampedIff` | `modules/orchestrator/orchestrator/workloads.py:110-115` | deleting one pod costs at most one of those that count, and none if and only if it is not Ready or more are Ready than asked for |
| `RolloutPasses.PassKeepsFloorIff` | `modules/orchestrator/orchestrator/workloads.py:196-261` | a whole pass keeps the floor if and only if it does not retire the old ReplicaSets on the strength of Ready pods beyond the target's own count |
| `RolloutPasses.CompleteIff` | `modules/orchestrator/orchestrator/workloads.py:263-275` | for any pods, a pass says complete if and only if at least the desired number of the target's pods are Ready, every other ReplicaSet asks for none, and every pod of another ReplicaSet is over |
| `RolloutPasses.PassCounts` | `modules/orchestrator/orchestrator/workloads.py:200-261` | for any counts and pods, what a pass leaves: the target raised into the room below the surge limit or cut to the desired count, the others at zero together once enough target pods are Ready, and until then less by exactly what is available above the floor |
| `RolloutPasses.StepsArePass` | `modules/orchestrator/orchestrator/workloads.py:157-275` | the steps of a pass, one per store access, add up to the whole pass when nothing comes in between |
| `RolloutPasses.RollbackBreaksFloor` | `modules/orchestrator/orchestrator/workloads.py:252-255` | rolling back onto a ReplicaSet whose pods are still draining: with maxUnavailable 0 one pass takes three serving pods to one |
| `RolloutConvergence.PassGetsCloserIff` | `modules/orchestrator/orchestrator/workloads.py:200-275` | over settled pods an incomplete rollout comes strictly closer in one pass if and only if it is not stuck |
| `RolloutConvergence.RolloutEnds` | `modules/orchestrator/orchestrator/workloads.py:200-275` | unless neither surge nor unavailability is allowed, every rollout over settling pods is complete after as many rounds as its distance |
| `RolloutConvergence.RolloutsEndIff` | `modules/orchestrator/orchestrator/workloads.py:160-166` | all rollouts end if and only if maxSurge + maxUnavailable is at least 1 or nothing is desired |
| `RolloutConvergence.StuckStays` | `modules/orchestrator/orchestrator/workloads.py:208-261` | a stuck rollout writes nothing and stays incomplete |
| `RolloutConvergence.CompleteStays` | `modules/orchestrator/orchestrator/workloads.py:263-275` | a complete rollout stays complete and its target has exactly the desired count |
| `Rollout.PassKeepsClamped` | `modules/orchestrator/orchestrator/workloads.py:87-115` | a ReplicaSet pass during which nothing else happens does not change how many pods count as serving, nor leaves more than are asked for |
| `RolloutRace.PassReachesCount` | `modules/orchestrator/orchestrator/workloads.py:87-115` | a ReplicaSet pass left alone, step by step and with free names, ends with exactly as many live pods as the count it read |
| `Rollout.AliveIs` | `modules/orchestrator/orchestrator/workloads.py:97` | pods count as alive in every phase but Succeeded and Failed |
| `Workloads.Workload.ReconcileDeployment` | `modules/orchestrator/orchestrator/workloads.py:157-275` | the new counts and the completion verdict of a whole pass are those the theorems on passes are about |
| `Workloads.Workload.EnsureTarget` | `modules/orchestrator/orchestrator/workloads.py:289-329` | the first ReplicaSet of the template's hash is selected again; without one a new one comes last, with the next revision and no replicas |
| `RolloutPasses.DrainNewestFirst` | `modules/orchestrator/orchestrator/workloads.py:240-249` | an older ReplicaSet only loses replicas once every newer one, the target apart, has none left |
| `RolloutPasses.DrainFacts` | `modules/orchestrator/orchestrator/workloads.py:239-249` | the drain takes no more availability than the surplus, leaves the target alone, and takes something if there is something to take |
| `RolloutPasses.DrainTakes` | `modules/orchestrator/orchestrator/workloads.py:240-249` | the drain takes exactly the surplus, or all the old ReplicaSets have |
| `Rollout.NewTargetComesLast` | `modules/orchestrator/orchestrator/workloads.py:289-329` | a new ReplicaSet has the revision after the highest and asks for no pods; revision order is kept |
| `Workloads.Workload.DrainOld` | `modules/orchestrator/orchestrator/workloads.py:240-249` | the loop from the newest on takes what is above the floor and stops: the drain whose facts are proved |
| `Workloads.Workload.RetireOld` | `modules/orchestrator/orchestrator/workloads.py:251-255` | every ReplicaSet but the target is at zero afterwards, and nothing else has changed |
| `Workloads.Workload.Scale` | `modules/orchestrator/orchestrator/workloads.py:331-340` | one count written, and whether it changed |
| `Workloads.Workload.ReconcileReplicaSet` | `modules/orchestrator/orchestrator/workloads.py:87-129` | with pods turning Ready between the listing and the writes: pods are created up to the listed shortfall or exactly the listed surplus goes, the count is met when there were too many or the names are fresh, and the status has the counts of the listing |
| `Workloads.Workload.Surplus` | `modules/orchestrator/orchestrator/workloads.py:103-110` | the surplus is as large as it must be; no Ready pod goes while one that is not stays, and of equally ready ones no younger pod goes while an older stays |
| `StoreConcurrency.VersionNamesObject` | `modules/orchestrator/orchestrator/store.py:99-139` | over every history, deletes and re-creations included, one key and one resource version name one object |
| `StoreConcurrency.WriteBackIff` | `modules/orchestrator/orchestrator/store.py:112-121` | a write-back succeeds if and only if the object is still exactly the one that was read |
| `StoreConcurrency.IncrementsAddUp` | `modules/orchestrator/orchestrator/store.py:65-85` | any number of interleaved clients: N successful increments add exactly N |
| `StoreWatch.WatchResumes` | `modules/orchestrator/orchestrator/store.py:162-178` | events_since either brings a watcher exactly up to date or raises, and it raises exactly when a needed event is gone |
| `StoreWatch.WatchResumesIff` | `modules/orchestrator/orchestrator/store.py:162-196` | that holds for every history if and only if the history limit is at least 1 |
| `StoreWatch.UncheckedWatchIff` | `modules/orchestrator/orchestrator/store.py:384-385` | without the gap check the answer is complete if and only if nothing needed has been trimmed |
| `StoreWatch.AlwaysExplained` | `modules/orchestrator/orchestrator/store.py:193-196` | the history is always the tail of one event per revision, and replaying all events gives the objects |
| `StoreGenerations.GenerationCountsSpecs` | `modules/orchestrator/orchestrator/store.py:123-127` | within a lifetime generations only grow, and two are equal if and only if the spec stayed the same between them |
| `StoreGenerations.CompletionIsForCurrentSpec` | `modules/orchestrator/orchestrator/cluster.py:154-175` | within one lifetime of the Deployment, a complete status observed at the current generation was computed by a pass that read exactly the current spec |
| `StoreGenerations.ClaimsAreBacked` | `modules/orchestrator/orchestrator/workloads.py:342-378` | within one lifetime, at every point of the history a claim of completion was made by a pass that saw that generation |
| `StoreGenerations.VerdictOutlivesDeployment` | `modules/orchestrator/orchestrator/workloads.py:346-350` | across a delete and re-create the verdict of the old Deployment is published on the new one and reads as complete |
| `StoreGenerations.VerdictCrossesIff` | `modules/orchestrator/orchestrator/workloads.py:346-350` | between two lifetimes that began at the same generation, the guard lets a verdict on the one through to the other if and only if both have changed their spec equally often by then |
| `StoreReplicas.MachineRefinesStore` | `modules/orchestrator/orchestrator/store.py:235-282` | request by request the replicated machine gives the verdicts, revisions, objects and events of a MemoryStore, equal in every field but the two times, for every replica however far behind |
| `ReplicatedStore.ReplicasShareOneHistory` | `modules/orchestrator/orchestrator/store.py:314-322` | on top of a sound run of Raft whose apply passes end at the commit index they began with, any two replicas at any two times are in states of one run of one store |
| `ReplicatedStore.VersionNamesObjectEverywhere` | `modules/orchestrator/orchestrator/store.py:314-322` | in such runs a key and a resource version name one object across all replicas and the whole run |
| `ReplicatedStore.OneOrder` | `docs/raft-kv.md:173` | in such runs, of two nodes at any two times, the one that applied less applied a prefix of what the other did |
| `ReplicatedStore.ReplicaNext` | `modules/orchestrator/orchestrator/store.py:235-249` | each entry a node applies takes effect on its machine once, in order, unless it does not parse |
| `ReplicatedStore.RepairedVersionNamesObject` | `modules/orchestrator/orchestrator/store.py:314-322` | as Raft is meant, in every run of a cluster of odd size or of at most two nodes, a key and a resource version name one object across all replicas and the whole run |
| `MemoryStore.MemoryStore.Create` | `modules/orchestrator/orchestrator/store.py:99-110` | a key that exists is refused and nothing changes; else the object is stored at the next revision, with its time if it has none, and one event says so; the fields stay what serving all requests so far leaves |
| `MemoryStore.MemoryStore.Update` | `modules/orchestrator/orchestrator/store.py:112-130` | a missing object or a version that is not current is refused and nothing changes; else the object is stored at the next revision, its generation one up exactly when the spec differs, and one event says so |
| `MemoryStore.MemoryStore.Delete` | `modules/orchestrator/orchestrator/store.py:132-139` | a missing key is refused; else it is gone, the revision moves on, and one event carries the last object with its time of deletion |
| `StoreContents.MemoryStoreAnswers` | `modules/orchestrator/orchestrator/store.py:99-139` | exactly when a request is refused, and that then nothing changes; an accepted create or update stores and returns the client's object with every field it set, at the next revision, its generation as asked on create and counted from the current object on update, its time of creation kept unless it was 0; no other object changes, and one event says so |
| `StoreContents.KeysAreApart` | `modules/orchestrator/orchestrator/objects.py:102-103` | two objects have one key if and only if kind, namespace and name are equal, as long as kinds and namespaces have no slash in them |
| `MemoryStore.MemoryStore.Emit` | `modules/orchestrator/orchestrator/store.py:193-196` | the history keeps the latest events, as many as the limit allows |
| `MemoryStore.MemoryStore.EventsSince` | `modules/orchestrator/orchestrator/store.py:162-178` | the loop gives, in order, exactly the retained events after the revision, or raises when one before them is gone |
| `MemoryStore.MemoryStore.UpdateWithRetry` | `modules/orchestrator/orchestrator/store.py:65-85` | with other clients served between every read and write: a write that succeeds replaced an object by the mutation of exactly that object; it gives up only after a conflict in every attempt, and never when left alone |
| `MemoryStore.ObjectStateMachine.Apply` | `modules/orchestrator/orchestrator/store.py:235-249` | parsed commands take effect and leave their result, unreadable ones leave a failure, malformed ones nothing |
| `MemoryStore.ObjectStateMachine.DoCreate` | `modules/orchestrator/orchestrator/store.py:251-258` | a key that exists is refused and nothing changes; else the object is stored at the next revision with the time it came with |
| `MemoryStore.ObjectStateMachine.DoUpdate` | `modules/orchestrator/orchestrator/store.py:260-274` | a missing object or a version that is not current is refused; else stored at the next revision, its generation one up exactly when the spec differs |
| `MemoryStore.ObjectStateMachine.DoDelete` | `modules/orchestrator/orchestrator/store.py:276-282` | a missing key is refused; else it is gone and one event carries the last object unchanged |
| `StoreContents.MachineAnswers` | `modules/orchestrator/orchestrator/store.py:251-282` | the same of the replicated machine, which sets no times |
| `WorkQueueTheorems.OneWorkerPerKey` | `modules/orchestrator/orchestrator/controller.py:86-107` | for any number of workers no key is ever reconciled by two at once |
| `WorkQueueTheorems.AddIsServed` | `modules/orchestrator/orchestrator/controller.py:65-78` | until a worker takes the key again, an added key is queued, or marked dirty and in process, pending or delayed |
| `WorkQueueTheorems.ServedInTurn` | `modules/orchestrator/orchestrator/controller.py:97-101` | the i-th key in line is served before i + 1 keys have been |
| `WorkQueueTheorems.StepHoldsIff` | `modules/orchestrator/orchestrator/controller.py:91-96` | a step loses a held key if and only if a hint falls due while the key is in process and not dirty |
| `WorkQueueTheorems.DelayedHintIsServed` | `modules/orchestrator/orchestrator/controller.py:229-242` | with one worker no delayed hint is lost |
| `WorkQueueTheorems.TwoWorkersDropHint` | `modules/orchestrator/orchestrator/controller.py:91-96` | with two workers one can be |
| `WorkQueue.AlwaysTidy` | `modules/orchestrator/orchestrator/controller.py:65-138` | in every state pending lists the queued keys without repetition, queued and in-process keys are disjoint, in-process keys are exactly those workers hold, and dirty keys are in process, queued or delayed |
| `WorkQueue.BackoffDoubles` | `modules/orchestrator/orchestrator/controller.py:124-134` | the retry delay starts at the base and doubles with each failure until it meets the cap |
| `WorkQueueTheorems.FailureWaits` | `modules/orchestrator/orchestrator/controller.py:124-138` | in every run, a key whose reconcile has failed m times in a row since its last success comes back after the base delay doubled m times, or the cap if that is less |
| `WorkQueueTheorems.SoonerIff` | `modules/orchestrator/orchestrator/controller.py:80-84` | after another hint a delayed key is due by a given time if and only if it was already or the hint is |
| `WorkQueueObject.WorkQueue.Add` | `modules/orchestrator/orchestrator/controller.py:65-78` | a key in process is marked dirty, a queued one is left alone, any other goes to the end of the line |
| `WorkQueueObject.WorkQueue.AddAfter` | `modules/orchestrator/orchestrator/controller.py:80-84` | the key is delayed until the sooner of its old and its new due time |
| `WorkQueueObject.WorkQueue.Poll` | `modules/orchestrator/orchestrator/controller.py:90-101` | every delayed key that is due, in the order the dictionary lists them, leaves the delayed ones and joins the line unless queued or in process; then the first of the line goes into process |
| `WorkQueueObject.WorkQueue.Done` | `modules/orchestrator/orchestrator/controller.py:109-122` | the key leaves process; if dirty it joins the line, else it is delayed if a delay was asked for |
| `WorkQueueObject.WorkQueue.Fail` | `modules/orchestrator/orchestrator/controller.py:124-134` | the key leaves process and is delayed by the backoff of its failures so far and one more; a dirty mark stays |
| `WorkQueueObject.WorkQueue.Succeed` | `modules/orchestrator/orchestrator/controller.py:136-138` | the key has no failures any more, and nothing else changes |
| `LayerRoundTrip.LayerRestoresChange` | `modules/image-toolkit/imagekit/layer.py:198-240` | if no new or changed name reads as a marker, nothing named `.wh..opq` vanished, and no rewrite kept mode, size and time, extracting the layer of a change onto a tree like the old one gives without an error a tree like the new one: the same paths, and at each the same kind, bytes, right of the owner to execute and link target; directory and file swaps and whole-subtree deletions included |
| `LayerRoundTrip.LayersFoldToImage` | `modules/image-toolkit/imagekit/build.py:386-390` | if that is so of every step of a build, unpacking all its layers from nothing gives a tree like the one it ended with, in the same sense |
| `LayerRoundTrip.NoMarkersExpressible` | `modules/image-toolkit/imagekit/layer.py:124-132` | trees without names beginning with the marker prefix meet the condition of the round trip |
| `LayerRoundTrip.ReservedNameIsLost` | `modules/image-toolkit/imagekit/layer.py:223-226` | a new entry with nothing below it and a name that reads as a marker never comes back |
| `LayerRoundTrip.WrittenNameIff` | `modules/image-toolkit/imagekit/layer.py:223-226` | for every non-empty name: all changes between well-formed trees that fingerprints notice and that write no marker-like name but this one are restored if and only if it does not read as a marker |
| `LayerRoundTrip.RemovedNameIff` | `modules/image-toolkit/imagekit/layer.py:212-221` | for every name: all such changes that write no marker-like name, and remove the reserved name `.wh..opq` only if it is this one, are restored if and only if it is another |
| `LayerRoundTrip.ParentsFirst` | `modules/image-toolkit/imagekit/build.py:541-542` | in sorted order a directory comes before everything below it |
| `LayerRoundTrip.GoneIsVanished` | `modules/image-toolkit/imagekit/layer.py:212-221` | the first pass removes exactly what vanished |
| `LayerFiles.DiffSnapshots` | `modules/image-toolkit/imagekit/build.py:249-252` | the two lists are sorted and hold exactly the changed and the vanished paths |
| `LayerFiles.WriteTar` | `modules/image-toolkit/imagekit/layer.py:115-132` | the changed paths in order, each with the bytes of its file or the target of its link, mode 755 or 644 by the owner's right to execute and no time; then one empty marker of mode 644 for every vanished path |
| `LayerFiles.RunLayer` | `modules/image-toolkit/imagekit/build.py:386-390` | what a RUN instruction records is a layer the round trip is about |
| `LayerFiles.RootFs.Extract` | `modules/image-toolkit/imagekit/layer.py:212-240` | the two loops compute the extraction, and it fails exactly when a parent is not a directory |
| `LayerExtraction.WhiteOutIs` | `modules/image-toolkit/imagekit/layer.py:212-221` | for any layer: an opaque marker empties its directory and keeps it, a marker removes what it names with everything below, and nothing else changes |
| `LayerExtraction.UnpackIs` | `modules/image-toolkit/imagekit/layer.py:223-240` | for any layer: a member fails to unpack if and only if something above it is not a directory; else it is there, missing directories are made, what was in its way is gone, and the rest is as it was |
| `LayerFiles.RootFs.UnpackOne` | `modules/image-toolkit/imagekit/layer.py:223-240` | what is in the way of a member goes, except a directory under a directory; missing parents are made; it fails if and only if a parent is something else |
| `LayerFiles.RootFs.Empty` | `modules/image-toolkit/imagekit/layer.py:214-218` | exactly what lies below the directory is gone |
| `Netlink.ParseWritten` | `modules/container-runtime/minicon/netlink.py:71-87` | parsing written attributes gives the last payload of each kind, whatever truncated attribute follows |
| `Netlink.ParseAttributes` | `modules/container-runtime/minicon/netlink.py:78-87` | on arbitrary bytes the loop ends with what the recursive reading gives: attributes up to the first length below four or past the end |
| `Netlink.EncodeAllIff` | `modules/container-runtime/minicon/netlink.py:71-75` | attributes can be written if and only if each payload is shorter than 65532 bytes |
| `Netlink.EncodedBytes` | `modules/container-runtime/minicon/netlink.py:71-75` | byte by byte: length and kind with the low byte first, the payload, zeros up to the next multiple of four |
| `Netlink.VethRoundTrip` | `modules/container-runtime/minicon/netlink.py:171-192` | under the kinds 3, 18, 1, 2 and 1 and behind two headers of 16 zero bytes, both interface names come back through all three levels of nesting |
| `Netlink.VethFitsIff` | `modules/container-runtime/minicon/netlink.py:171-192` | the exact lengths for which the request can be built |
| `Scheduler.CapacityHolds` | `modules/orchestrator/orchestrator/scheduler.py:90-122` | in every state of every run in which a bound pod asks no more than the pod evaluated under its key: whichever pods one picks that are assigned to a node and neither Succeeded nor Failed, together they ask no more of either resource than the node has |
| `Scheduler.PodAdds` | `modules/orchestrator/orchestrator/scheduler.py:42-59` | a pod adds exactly its request to what is committed on its node while it is Pending, Scheduled, Running, Ready or in a crash loop, and nothing anywhere else or later |
| `Scheduler.PicksWithin` | `modules/orchestrator/orchestrator/scheduler.py:42-59` | no choice of live pods of a node asks for more than what is committed there, and all of them together ask for just that |
| `Scheduler.RebindIsSafeIff` | `modules/orchestrator/orchestrator/scheduler.py:112-120` | for any two requests p and q: binding a pod that asks q under the key of one evaluated asking p keeps every node within capacity in all clusters and all runs if and only if q is within p |
| `Scheduler.RecreatedPodIsBound` | `modules/orchestrator/orchestrator/scheduler.py:112-120` | for any p and q, a run of six steps in which a pod asking p is evaluated, deleted and re-created under its key asking q before the binding; its node is within capacity if and only if q is within p |
| `Scheduler.NodeIsForLife` | `modules/orchestrator/orchestrator/scheduler.py:112-118` | once assigned, a pod keeps its node as long as it exists |
| `Scheduler.Evaluate` | `modules/orchestrator/orchestrator/scheduler.py:124-173` | each node gets the first obstacle it has: cordoned, not ready, a label of the selector missing or different, too little cpu beside what is committed, too little memory; feasible if and only if none |
| `Scheduler.AllocatedOn` | `modules/orchestrator/orchestrator/scheduler.py:42-59` | the loop sums the requests of exactly the pods assigned to the node and neither Succeeded nor Failed |

## Left out

- RaftTheorems.StateMachineSafety: assumes a sound run, because without that it is false (`RaftSizes.OddHistories`, `RaftSizes.RepairedSafetyIffSize`); which single runs of larger clusters stay safe although an answer claims a stale tail is not characterised.
- RaftElection.ElectionSafety: in clusters of odd size or of at most two nodes, because in every other it is false (`RaftSizes.ElectionSafetyIffSize`); LeaderAppendOnly and LogMatching are stated for the same sizes.
- RaftTheorems.LeadersHaveCommitted: assumes a sound run for the same reason as StateMachineSafety.
- RaftTheorems.ChosenInLaterLeaders: assumes a sound run for the same reason.
- RaftTheorems.CommitsStand: assumes a sound run for the same reason.
- RaftTheorems.LeaderCommitCovered: assumes a sound run for the same reason.
- RaftReplies.AppliedInOrder: assumes that a pass ending as written ends at the commit index it began with, the condition of `RaftReplies.ApplyEndIsGapFreeIff`, because otherwise it is false (`RaftSizes.SkipsAnEntry`).
- RaftNodeObject.RaftNode.ApplyCommitted: one commit index stands for all commits that land during the loop.
- RaftNodeObject.RaftNode.HandleAppendEntries: requires entries that continue prev_log_index, which those of every request in every run do (`RaftTheorems.RequestsWellIndexed`).
- RaftNodeObject.RaftNode.Merge: requires the same of the entries.
- Raft sends: the reads of term and entries after the lock is released are one step taken while the node still leads in that term, and answers reach it in the term they were asked in.
- Raft crashes: they happen between critical sections, not between two file writes of one; a restart needs a data directory.
- Raft timers, leader hints, wait_for_commit, gRPC and threads: steps are taken in any order instead, and no liveness of elections is claimed. Node identifiers are numbers.
- Raft snapshots in the protocol: node.py never takes one, so the base is 0 there; RaftLog has them.
- RaftLogFile.RaftLog.constructor: takes a file that loads; `RaftLogFile.RaftLog.Open` has the other case.
- RolloutSafety.RolloutKeepsFloor: assumes that no listed surplus pod turns Ready while a pod that stays is not, and that the target has no pods beyond its count at the start, or is at the desired count; without either it is false (`RolloutRace.FloorHoldsIff`, `RolloutPasses.RollbackBreaksFloor`), and `RolloutPasses.PassKeepsFloorIff` says exactly when for one pass.
- Rollouts: minReadySeconds is 0, pods do not crash, get evicted or lose readiness, the spec is fixed during a run, and one Deployment controller and one ReplicaSet controller run.
- Rollout status: fields other than the completion verdict, the progress deadline, revision listing and rollback's choice of a revision.
- RolloutConvergence.RolloutEnds: pods settle between any two Deployment passes; how they get there is left to the ReplicaSet pass and the node agents.
- Object copies: labels and annotations are shared between copies in the code and values here.
- MemoryStore.MemoryStore.Emit: the watchers are not called.
- Store listing, label selectors and watch callbacks. JSON is an injective encoding; floating-point times are whole numbers.
- StoreGenerations.CompletionIsForCurrentSpec: within one lifetime of the Deployment; across lifetimes it is false (`StoreGenerations.VerdictOutlivesDeployment`), and `StoreGenerations.VerdictCrossesIff` says exactly when a verdict crosses.
- ObjectStateMachine.restore, which does not restore the revision, and the waiting and error mapping of RaftStore._propose.
- ReplicatedStore.VersionNamesObjectEverywhere: under the assumptions of state machine safety and gap-free application; as Raft is meant it needs neither (`ReplicatedStore.RepairedVersionNamesObject`).
- ReplicatedStore.OneOrder: under the same assumptions.
- ReplicatedStore.ReplicasShareOneHistory: under the same assumptions.
- Work queue counters, closing, and the resync loop; that a wait inside get ends.
- Scheduler.CapacityHolds: assumes that a pod re-created under a key in flight asks no more than the one evaluated, because otherwise it is false (`Scheduler.RebindIsSafeIff`). Node capacities are fixed, resources exact, there is one scheduler, and scores and the unschedulable condition are not modelled.
- LayerRoundTrip.LayerRestoresChange: new or changed entries must not have names that read as markers, and nothing named `.wh..opq` may vanish; name by name that is exact (`LayerRoundTrip.WrittenNameIff`, `LayerRoundTrip.RemovedNameIff`), but which single changes with such names are restored all the same is not characterised. A rewrite that keeps size and time is in no layer.
- Layers: links to directories and member names with `..` or an absolute path; device nodes; that fingerprints miss a rewrite of the same size and time; tar, gzip and digests; COPY, the build cache and overlay mounts.
- Netlink sockets, replies, addresses and routes; byte order is little-endian.
- The task queue, the container runtime apart from netlink, dashboards, command lines and benchmarks.
