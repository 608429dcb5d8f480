# MyRaftKV in Dafny

A model of the logic of MyRaftKV, a Go repository with two Raft implementations and a
write-ahead-log writer, and proofs about it.  Section numbers of Raft refer to Ongaro and
Ousterhout, "In Search of an Understandable Consensus Algorithm" (extended version).

`dafny verify dfyconfig.toml` checks everything.

## What is modelled

**The `node/` cluster** (`NodeModel`, `Cluster`, `Elections`, `Replication`, `Completeness`, `Commits`,
`Rounds`, `Failures`).
The RPC handlers are functions on a node's record and, as the program has them, methods of a mutable
class proved to compute those functions.  `Cluster` puts any number of nodes on a network and lets
events interleave in any order: timeouts, elections in progress (each with the calls it has not yet
made, the replies it awaits and the accepts it counted), heartbeats, client values, append requests
and replies.  A run is any list of events; an event that is not possible where it occurs changes
nothing.  Messages are never removed from the network, so they may be lost, delayed, reordered and
delivered again; a reply to an election call is taken at most once, as an RPC returns once.  The
results:

- no two nodes win the same term (section 5.2), on every run that keeps two rules that the code does
  not enforce: an accepted Append does not lower the receiver's term, and a candidate that wins is
  still in the term it campaigned for.  For each rule a concrete run shows two winners of one term
  when only that rule is dropped;
- log matching (section 5.3), on every run whose client entries differ in (index, term), and hence,
  because elections are safe, on every run that keeps the two rules and takes client values only at
  leaders;
- whatever an accept index covers is held by more than half of the cluster, forever;
- leader completeness (section 5.4): once more than half of the cluster holds an item, every later
  winner has the whole list through it.  This rests on the voter comparing the candidate's accept
  index with its own tail, and needs neither of the two rules;
- what the protocol achieves when its messages get through: an election, its calls in any order, elects
  the candidate iff, with itself, more than half of the cluster can vote for it; an append is stored
  exactly by receivers that lack only the last item; and that item becomes accepted exactly when the
  peers that acknowledged it, without the sender, are more than half of the cluster;
- commits agree on every run in which a sender offers no commit beyond its own accept index.  The
  program offers commits without that comparison (node/node_client.go:69, node/node_client.go:99), and
  a concrete run of five nodes that keeps every other rule commits different items at index 1.

**The `raft/` package** (`Quorum`, `InflightRing`, `FlowControl`, `Storage`, `TieredLog`, `Probing`,
`ReadIndex`, `Roles`).  The package is unfinished; the model does what the code does, so its
theorems are about each part in any well-formed state.  Panics are the absence of a result, or
preconditions of the methods, and where a panic or an error depends on a condition the condition is
given exactly.

**The byte layer** (`PageWriter`, `Wal`).  The sink of the page writer is the list of writes issued
to it; `Wal` frames records and writes them through the page writer.

## How the program is read

- An item index or term is a natural number; the conversions to 32 bits do not wrap.
- A handler runs as one step; between the calls of an election anything may happen.
- Each goroutine of `election` and `AppendEntry` is paired with its own peer, although the closures
  capture the loop variable (node/node.go:245-254, node/node.go:321-331).
- The loop that would call `election` is commented out; as written there (node/node.go:200-202) it
  runs for candidates, one election at a time, and so it does here.
- Client values enter a node through its own `Append`, as the commented-out handler in
  raft/raft_server.go:35-49 has it.
- The catch-up goroutine after a refused append repeats an older item of the sender's list and
  ignores the replies (node/node_client.go:111-132); the model lets it send any item at any time.
- `leaderSendHeart` is heartbeats to the peers and a check of the commit index; the model has both as
  events of their own, possible at any time.
- A follower answers an append before its commit index with an acceptance and no further look
  (raft/raft.go:813-816); probing is about the appends it does look at.
- The write to Redis succeeds or fails arbitrarily.
- Where code and comments differ the code is followed: `MajorityConfig.CommittedIndex` does not sort,
  `decodeFrameSize` returns the record length twice, `MemoryStorage.Entries` refuses only indexes
  strictly below the compaction point, a granted vote is answered with a rejection,
  `raft.restore` does not stop after fast-forwarding the commit index.
- The order in which Go visits a map is a parameter.

## Model

| member | source | states |
|---|---|---|
| `NodeModel.Node.constructor` | node/node.go:150-174 | a new node is a follower of term 0 with the initial item 0 and one row per other node |
| `NodeModel.Node.GetTailItem` | node/node.go:109-114 | the last item, or the zero item of an empty list |
| `NodeModel.Node.GetPreItem` | node/node.go:96-108 | the item before the first one with the given index; the tail if none has it; the zero item before the first |
| `NodeModel.Node.Election` | node/node_server.go:34-58 | the vote handler used by the cluster theorems: grants exactly to a later term whose accept index reaches the voter's tail |
| `NodeModel.Node.Heart` | node/node_server.go:14-33 | the heartbeat handler used by the cluster theorems |
| `NodeModel.Node.Append` | node/node_server.go:59-100 | the append handler used by the cluster theorems, for a database write that succeeds or fails |
| `NodeModel.Node.StartElection` | node/node.go:241-243 | a campaign starts with the vote for oneself and a new term |
| `NodeModel.Node.OnElectionReply` | node/node_client.go:34-46 | counts an accept; a rejection from a later term, or from a higher position in the same term, makes a follower |
| `NodeModel.Node.EndElection` | node/node.go:257-273 | leader iff the accepts are more than half of the configuration |
| `NodeModel.Node.MakeAppend` | node/node_client.go:91-101 | the request names the tail, the item before it, and the next commit the peer may make |
| `NodeModel.Node.CheckAcceptId` | node/node.go:288-301 | the counting loop raises the accept index by one iff more than half of the cluster is recorded above it |
| `NodeModel.Node.CheckCommitId` | node/node.go:275-287 | the same for the commit index |
| `NodeModel.Node.OnAppendAccepted` | node/node_client.go:105-109 | records what the peer reported, then looks for majorities |
| `NodeModel.CheckAcceptExact` | node/node.go:288-301 | the accept index goes up by one exactly when the peers recorded beyond it, the node itself not counted, are more than half of the cluster; nothing else changes |
| `NodeModel.CheckCommitExact` | node/node.go:275-287 | so does the commit index |
| `NodeModel.CollectExact` | node/node_client.go:105-109 | an accept puts what the peer reported into its row and nothing else, and moves each index by one exactly when with that row more than half of the cluster is recorded beyond it |
| `NodeModel.HeartReplyExact` | node/node_server.go:21-25 | the reply names the commit index exactly when the heartbeat moved it |
| `NodeModel.AppendReplyExact` | node/node_server.go:59-100 | the reply tells the last index and commit index that the receiver then has, accepting iff its list grew; a failed write is an error; otherwise nothing changes |
| `Elections.AlwaysCount` | node/node.go:241-265 | on every run at all, the accepts counted by a running campaign come from that many different nodes |
| `Elections.TermFallsIff` | node/node_server.go:70-76 | an event lowers some node's term iff it is an accepted append whose entry is of an earlier term |
| `Elections.WinBackedIff` | node/node.go:257-264 | while no append lowers a term, a win is backed by a majority of votes for its own term iff the winner is still in the term of its campaign |
| `Elections.VoteOnce` | node/node_server.go:38-47 | while no append lowers a term, and whatever follows, a node's vote in a term, its self-vote included, is never changed |
| `Elections.ElectionSafety` | node/node_server.go:34-52 | over every run that keeps the two rules, no two nodes win the same term |
| `Replication.FitExtends` | node/node_server.go:62-72 | a request that fits the receiver's tail extends it to exactly the sender's list through the entry |
| `Replication.FitsIff` | node/node_server.go:62 | on every run with distinct client entries, a request fits exactly the receivers whose list is the sender's list up to the entry |
| `Replication.LogMatching` | node/node_server.go:59-78 | over every run with distinct client entries, indexes count up from the initial item, and lists that agree on the term at an index are equal up to it |
| `Replication.AlwaysLeader` | raft/raft_server.go:35-49 | over every run that keeps the two rules and takes values only at leaders, no two client entries share index and term |
| `Replication.LeaderLogMatching` | node/node_server.go:59-78 | so on those runs log matching holds outright |
| `Replication.AlwaysAccept` | node/node_client.go:105-109 | every recorded acceptance means that the peer shares the sender's list that far; commit indexes stay within the lists |
| `Replication.AcceptDurable` | node/node.go:288-301 | every item through the accept index is on more than half of the cluster as the sender holds it, and stays there in every continuation |
| `Commits.GuardBacksCommits` | node/node_client.go:66-71 | if no commit is offered beyond the sender's accept index, no node ever commits an item that a majority does not hold |
| `Commits.BackedCommitsAgree` | node/node_server.go:82-85 | if every commit is backed by a majority when made, committed prefixes of any two nodes are equal |
| `Commits.CommitAgreement` | node/node_client.go:99-101 | so if no commit is offered beyond the sender's accept index, committed prefixes of any two nodes are equal, on every run with distinct client entries |
| `Completeness.VoteNeedsItem` | node/node_server.go:38-47 | a node that holds a majority-held item votes only for candidates that hold it |
| `Completeness.LeaderCompleteness` | node/node_server.go:38-47 | whoever wins a campaign begun after a majority holds an item has the whole list through that item |
| `Rounds.CallOutcome` | node/node_client.go:25-46 | one election call and its answer: a voter of an earlier term whose list the candidate's accept index reaches follows it and is counted; any other stays as it is, and makes the candidate a follower exactly if it is of a later term, or of the same term and a higher position |
| `Rounds.ElectionOutcome` | node/node.go:241-273 | an election that nothing interferes with, its calls in any order: leader of the new term iff, with itself, more than half of the cluster can vote for it; otherwise follower iff some node is ahead; the voters follow it and nobody else changes |
| `Rounds.RunElects` | node/node.go:241-273 | every run in which a node is a candidate can be continued by an election with that outcome |
| `Rounds.BeatOutcome` | node/node_server.go:14-33 | a heartbeat that gets through makes a follower of every receiver that is not of a later term, and lets it commit its next item exactly when the sender takes it to have accepted but not committed that |
| `Rounds.ExchangeOutcome` | node/node_client.go:87-110 | an append of the sender's last item that gets through: a receiver that lacks exactly that item gets it, with its term, and the next commit if offered, and the sender records what it then has; any other receiver refuses and no node changes |
| `Rounds.AppendsOutcome` | node/node.go:288-301 | a round of appends to peers that lack the last item: it becomes accepted exactly when those that have acknowledged it, the sender not counted, are more than half of the cluster |
| `Failures.TwoWinnersAfterAppend` | node/node_server.go:73 | a run with two winners of term 2 in which only the append rule is broken |
| `Failures.TwoWinnersWithoutRecheck` | node/node.go:257-264 | a run with two winners of term 2 in which only the winning rule is broken |
| `Failures.CommitsDisagree` | node/node_client.go:99-101 | a run of five nodes that keeps both rules and commits two different items at index 1 |
| `Quorum.CountVotes` | raft/quorum/majority.go:11-25 | the counting loop counts the yes votes and the missing votes of the configuration |
| `Quorum.VoteResult` | raft/quorum/majority.go:7-34 | the verdict whose exactness is proved below |
| `Quorum.JointVoteResult` | raft/quorum/joint.go:14-24 | combines the verdicts of both halves |
| `Quorum.VerdictExact` | raft/quorum/joint.go:14-24 | won iff every completion of the vote wins both halves, lost iff none does |
| `Quorum.VerdictFinal` | raft/tracker/tracker.go:73-78 | a won or lost verdict survives any further recorded votes |
| `Quorum.RecordsFirst` | raft/tracker/tracker.go:73-78 | after any votes have come in every id has the vote it had, or else the first that came in from it, and no other id has one |
| `Quorum.WinnersShareVoter` | raft/quorum/majority.go:26-29 | two winning vote maps over one non-empty configuration share a yes voter |
| `Quorum.CommittedIndex` | raft/quorum/majority.go:36-59 | the filling loop puts the reports from the back and zeros in front, and the element taken is the one at n-(n/2+1) |
| `Quorum.JointCommittedIndex` | raft/quorum/joint.go:25-32 | the smaller of the two halves |
| `Quorum.AscendingIsQuorumIndex` | raft/quorum/majority.go:48-58 | if the filled slice is ascending, the element taken is the greatest index acknowledged by a majority, silent voters counting as 0 |
| `Quorum.JointIndexIsGreatest` | raft/quorum/joint.go:25-32 | then the smaller of the two is the greatest index that majorities of both halves acknowledged, an empty half standing in nobody's way |
| `Quorum.CommittedIndexRightIff` | raft/quorum/majority.go:48-58 | the unsorted result is the quorum index for every visiting order iff fewer than a quorum reported or all reports are equal |
| `Quorum.JointIndexRightIff` | raft/quorum/joint.go:25-32 | the joint result is right for every pair of visiting orders iff no choice among the reports of each half, or 0 for a half without a quorum of reports, changes the smaller of the two |
| `Quorum.WrongIndexExample` | raft/quorum/majority.go:48-58 | two voters with different reports for which some order is wrong |
| `InflightRing.Inflights.constructor` | raft/tracker/inflights.go:10-14 | an empty queue without a buffer |
| `InflightRing.Inflights.Clone` | raft/tracker/inflights.go:16-20 | the same queue in a buffer of its own |
| `InflightRing.Inflights.Add` | raft/tracker/inflights.go:21-35 | appends to the queue; all accesses are in bounds |
| `InflightRing.Inflights.Grow` | raft/tracker/inflights.go:36-46 | makes room without rotating and keeps the queue |
| `InflightRing.Inflights.FreeLE` | raft/tracker/inflights.go:49-69 | drops the leading elements up to the given index |
| `InflightRing.Inflights.FreeFirstOne` | raft/tracker/inflights.go:70-72 | drops the leading elements up to the first; an empty queue that has a buffer stays empty |
| `InflightRing.Inflights.Reset` | raft/tracker/inflights.go:79-82 | empties the queue |
| `InflightRing.DropLEExact` | raft/tracker/inflights.go:48-69 | on an increasing queue exactly the elements up to the index go, and the rest keep their order |
| `FlowControl.Progress.ToProbe` | raft/tracker/progress.go:61-70 | enters probing from just after Match or the pending snapshot |
| `FlowControl.Progress.ToReplicate` | raft/tracker/progress.go:71-74 | enters replication from just after Match with an empty window |
| `FlowControl.Progress.ToSnapshot` | raft/tracker/progress.go:75-78 | pauses for a snapshot |
| `FlowControl.Progress.Update` | raft/tracker/progress.go:83-92 | takes in an acknowledged index |
| `FlowControl.Progress.DecrTo` | raft/tracker/progress.go:106-120 | takes in a rejected index and hint |
| `FlowControl.Progress.Paused` | raft/tracker/progress.go:123-134 | whether the follower is throttled |
| `FlowControl.Progress.Send` | raft/raft.go:582-640 | one send to the follower and what it does to its record |
| `FlowControl.Progress.SendAll` | raft/raft.go:504-505 | the loop of sends ends, after one send at most |
| `FlowControl.Progress.TakeInReply` | raft/raft.go:465-493 | what a reply does before anything is sent |
| `FlowControl.Progress.Handle` | raft/raft.go:465-521 | one whole leader step that does not panic keeps the window |
| `FlowControl.SendPanicsIff` | raft/raft.go:592-636 | of the send path's panics only the snapshot can happen, and exactly when an active, unpaused follower needs compacted entries |
| `FlowControl.StepPanicsIff` | raft/raft.go:592-617 | a leader step panics iff it answers an active, unpaused follower that needs compacted entries |
| `FlowControl.StepKeepsWindow` | raft/raft.go:481-518 | every leader step that does not panic keeps the window and never lowers Match |
| `FlowControl.WindowForever` | raft/raft.go:481-518 | at every point of every run of leader steps that does not panic, while replicating, in-flight indexes ascend strictly between Match and Next, and Match never falls |
| `FlowControl.AcknowledgementRecorded` | raft/tracker/progress.go:83-92 | an acknowledgement makes Match the greater of what it was and what is acknowledged, with Next above that; no other step moves Match |
| `FlowControl.MatchIsGreatest` | raft/raft.go:481-518 | after every run of leader steps Match is the greatest index acknowledged in it, or where it began |
| `FlowControl.ModeMoves` | raft/raft.go:474-493 | replication ends exactly when the follower is unreachable or rejects an index above Match, with Next back at Match + 1 and nothing in flight; it begins exactly with a new acknowledgement of a probe, or of the pending snapshot, with Next just after it |
| `FlowControl.InFlightExact` | raft/raft.go:490-515 | what is in flight after a reply is what was, less what the acknowledgement covers, or up to the first index if a heartbeat's answer finds the window full; a loss leaves nothing |
| `FlowControl.AnswerLiftsPause` | raft/raft.go:511-516 | a heartbeat's answer lifts every pause but that of a snapshot, a counted rejection or new acknowledgement that of a probe; whoever answers is active |
| `FlowControl.NothingLeftUnsent` | raft/raft.go:495-518 | after a step that sends, the follower is paused, has been sent the last entry, or needs compacted entries |
| `FlowControl.SendingExact` | raft/raft.go:618-636 | in replication a send puts the last entry's index into the window and Next just after it; in a probe it only marks the probe as sent |
| `FlowControl.RejectionExact` | raft/tracker/progress.go:114-119 | outside replication a rejection counts only for the entry before Next, which then is the greatest from 1 on that keeps the probe below the refused entry and within the hint, or 1 if the hint wraps |
| `FlowControl.ProbeResumes` | raft/tracker/progress.go:61-70 | probing resumes at the least index above Match and a pending snapshot |
| `FlowControl.SnapshotEnds` | raft/tracker/progress.go:75-78 | a follower that is sent a snapshot stays paused until an acknowledgement reaches the snapshot |
| `FlowControl.ProbeKeepsOrderIff` | raft/tracker/progress.go:114-119 | a rejected probe keeps Next above Match iff nothing is matched, or the probe was above Match and the hint not below it nor the largest 64-bit number |
| `Storage.MemoryStorage.GetEntries` | raft/storage.go:51-66 | the requested run of entries, the errors, and that a request from the compaction point hands out the dummy |
| `Storage.MemoryStorage.GetTerm` | raft/storage.go:85-96 | the term at every index from the compaction point to the end, and which error elsewhere |
| `Storage.MemoryStorage.Append` | raft/storage.go:159-186 | the truncating append on the slice, for any entries that leave no gap |
| `Storage.MemoryStorage.Compact` | raft/storage.go:140-157 | compaction on the slice |
| `Storage.MemoryStorage.ApplySnapshot` | raft/storage.go:104-116 | a newer snapshot replaces everything |
| `Storage.AppendIsMapAppend` | raft/storage.go:159-186 | append keeps what lies before its first retained index, replaces everything from there, and keeps the entries contiguous |
| `Storage.CompactIsMapCompact` | raft/storage.go:140-157 | compaction keeps every term at or above and every entry above the compaction index |
| `Storage.StorageRefines` | raft/storage.go:104-186 | any sequence of operations does to the slice what it does to a partial map from indexes to entries |
| `TieredLog.RaftLog.constructor` | raft/log.go:28-50 | a log over given storage, with an empty tail right after it |
| `TieredLog.RaftLog.GetFirstIndex` | raft/log.go:140-149 | the flat log's first index |
| `TieredLog.RaftLog.GetLastIndex` | raft/log.go:150-159 | the flat log's last index |
| `TieredLog.RaftLog.GetTerm` | raft/log.go:221-237 | the flat log's term, 0 outside it, and never an error |
| `TieredLog.RaftLog.Slice` | raft/log.go:61-96 | exactly the flat log's entries of the range, never the dummy; refused iff it starts before the log, wherever it ends |
| `TieredLog.RaftLog.FindConflict` | raft/log.go:195-206 | the index of the first entry the log does not have, 0 if it has all |
| `TieredLog.RaftLog.FindConflictByTerm` | raft/log.go:207-220 | the last index at or before the given one whose term is not above the given one, wrapping round if even index 0 is above it |
| `TieredLog.RaftLog.DoStableTo` | raft/log_unstable.go:45-55 | gives up the tail through an index if the term matches |
| `TieredLog.RaftLog.DoCommitTo` | raft/log.go:168-175 | moves the commit index forward only |
| `TieredLog.RaftLog.DoMaybeCommit` | raft/log.go:111-117 | reports whether the commit index moved |
| `TieredLog.RaftLog.DoRestore` | raft/log.go:271-275 | the log becomes the snapshot |
| `TieredLog.RaftLog.DoRestoreFrom` | raft/raft.go:854-882 | a snapshot is taken iff it is beyond the commit index |
| `TieredLog.ReadsLikeFlat` | raft/log_unstable.go:12-44 | bounds and terms read from the two tiers agree with one flat log |
| `TieredLog.StableToExact` | raft/log_unstable.go:45-55 | giving up the tail leaves the flat log unchanged iff storage already holds those entries and, with a snapshot pending, some of the tail stays and storage was not compacted beyond the snapshot |
| `TieredLog.StableToIff` | raft/log_unstable.go:45-55 | the tail gives something up exactly for an index it holds, named with the log's own term there, and then everything through it |
| `TieredLog.ConflictByTermExact` | raft/log.go:207-220 | the search gives back an index beyond the log, else the greatest index not after the given one whose term is not above the given term, else wraps round |
| `TieredLog.RestoreIsFlat` | raft/log_unstable.go:77-81 | after a restore the log is the snapshot, with its index and term, nothing above it and all of it committed |
| `TieredLog.OpIsFlat` | raft/raft.go:854-885 | every commit, snapshot, persist and release does to the two tiers what it does to one flat log with a commit index, and panics exactly where that does or where entries to persist do not follow on |
| `TieredLog.TiersRefineFlat` | raft/raft.go:854-885 | along every run that does not panic the two tiers hold what the flat log would |
| `TieredLog.PersistKeeps` | raft/storage.go:159-186 | appending the front of the tail to storage leaves the flat log unchanged, and then storage holds it for the tail to give up |
| `TieredLog.MaybeCommitPanicsIff` | raft/log.go:111-117 | the out-of-range panic happens iff the term is 0 and the index is beyond the log, so never for a leader, even at the maximal index |
| `TieredLog.MaybeCommitOwnTerm` | raft/raft.go:575-578 | it moves iff the index is ahead, within the log, and of the leader's own term |
| `TieredLog.CommitForward` | raft/raft.go:854-885 | from a commit index not below storage's dummy, as a new log has it, along every run of commits, heartbeats, snapshots, and entries persisted to storage and released from the tail, the commit index never falls and never passes the last index |
| `Probing.Refuse` | raft/raft.go:822-827 | the follower's hint on its two-tier log |
| `Probing.ReadHint` | raft/raft.go:470-473 | the leader's reading of the hint on its two-tier log |
| `Probing.RejectSkipsNoMatch` | raft/raft.go:467-480 | a refused probe lowers Next, and no index between the new probe and the refused one is common to both logs |
| `Probing.ProbingConverges` | raft/raft.go:812-837 | probing ends within Next - 1 refusals at an index the follower accepts, with every common index still within reach |
| `Probing.ProbingFindsGreatest` | raft/raft.go:812-837 | for logs with positive terms, probing ends at an index common to both logs iff there is one within reach, and it is the greatest |
| `Probing.HintsExact` | raft/raft.go:822-823 | the hint is the follower's greatest index, not after the refused one, whose term is not above the refused one's, and the leader reads it as its own greatest index, not after the hint, whose term is not above the hint's |
| `Probing.ProbesEarlierTerm` | raft/raft.go:467-480 | after a refusal within the follower's log the next probe is accepted, of an earlier term, or before that log |
| `Probing.RefusalsPerTerm` | raft/raft.go:467-480 | there are no more refusals than terms in the leader's log up to the first probe and entries the follower compacted away |
| `ReadIndex.ReadOnly.Add` | raft/read_only.go:33-40 | a new context is queued once, with the commit index of its arrival |
| `ReadIndex.ReadOnly.Ack` | raft/read_only.go:42-49 | an acknowledgement is recorded for a pending context only |
| `ReadIndex.ReadOnly.Scan` | raft/read_only.go:59-77 | the scan finds the context iff it is queued, and its panic is unreachable |
| `ReadIndex.ReadOnly.AdvanceTo` | raft/read_only.go:59-86 | hands back the statuses through the acknowledged context, in order, and drops those |
| `ReadIndex.AdvanceExact` | raft/read_only.go:78-84 | exactly the front of the queue leaves, the rest is untouched, and queue and map stay in step |
| `ReadIndex.TimelineStep` | raft/read_only.go:33-86 | released indexes followed by waiting ones only ever grow at the end |
| `ReadIndex.ReadsInOrder` | raft/raft.go:936-946 | over every run in which the commit index does not fall, reads are released in order of non-decreasing index |
| `ReadIndex.AcksGrow` | raft/read_only.go:42-49 | while a context is pending only its acknowledgements change, and each adds its sender and nobody else |
| `ReadIndex.LeavesIff` | raft/read_only.go:59-86 | a pending context leaves exactly by a confirmation of it or of one queued behind it |
| `ReadIndex.PendingSince` | raft/read_only.go:33-49 | in every run a pending context was opened by a request, waits for the commit index of that request, and has been acknowledged since by exactly those whose acknowledgements came since |
| `Roles.Node.constructor` | raft/raft.go:236-248 | a valid configuration starts as a follower of nobody |
| `Roles.Node.DoReset` | raft/raft.go:165-175 | clears vote on a new term, and leader, timers and transfer always |
| `Roles.Node.ToFollower` | raft/raft.go:284-291 | as the transition function the theorems are about |
| `Roles.Node.ToCandidate` | raft/raft.go:295-305 | as the transition function, which panics for a leader |
| `Roles.Node.ToLeader` | raft/raft.go:306-319 | as the transition function, which panics for a follower |
| `Roles.Node.Run` | raft/raft.go:757-802 | the campaign, with its pre-vote requests that cannot be sent |
| `Roles.Node.Hup` | raft/raft.go:737-756 | when a campaign is started at all |
| `Roles.Node.AsLeader` | raft/raft.go:543-571 | the leader's step, of which only transfers touch these fields |
| `Roles.Node.AsCandidate` | raft/raft.go:645-683 | the candidate's step |
| `Roles.Node.AsFollower` | raft/raft.go:684-736 | the follower's step |
| `Roles.Node.Handle` | raft/raft.go:362-391 | dispatch by message type, with the vote |
| `Roles.Node.TakeMessage` | raft/raft.go:320-392 | the whole of Step |
| `Roles.Node.TakeTick` | raft/raft.go:249-258 | the installed tick function |
| `Roles.Node.TakeHeartbeatTick` | raft/raft.go:259-283 | the leader's tick |
| `Roles.StepGood` | raft/raft.go:320-392 | every step keeps role, vote, leader, timers and transfer consistent; unless it sends a candidate back with a leader's message that carries no term, it does not lower the term and keeps a cast vote |
| `Roles.VoteRecorded` | raft/raft.go:320-386 | a vote request of a later term, unless a lease holds it off, makes a follower of nobody in that term whose vote it gets iff its log is up to date; one of the own term, or of none, gets the vote iff the log is up to date, no other vote was cast and no leader is known; an earlier one nothing |
| `Roles.VoteRestartsTimer` | raft/raft.go:378-381 | a vote given restarts the election timer |
| `Roles.VotePanicsIff` | raft/raft.go:150-163 | answering a vote request panics exactly without a term at a node of term 0, a pre-vote request exactly at a node of a later term, unless a lease holds it off |
| `Roles.HupPanicsIff` | raft/raft.go:737-802 | exactly when the election timer running out panics, and when, without pre-votes, it makes a leader |
| `Roles.ForwardPanicsIff` | raft/raft.go:684-735 | a follower panics on forwarding to a known leader exactly what carries a term |
| `Roles.LeaderFollowed` | raft/raft.go:334-345 | a leader's message of the own or a later term makes every node but a leader of that term a follower of its sender, with a fresh timer and its vote standing within the term; an earlier one changes nothing; one without a term counts as of the own, but takes a candidate back to term 0 |
| `Roles.CampaignOutcome` | raft/raft.go:737-802 | within its term a node moves to the next term iff it campaigns, by a timeout with pre-votes or a leader's word; it has then voted for itself, with fresh timers, and leads iff the polls are won |
| `Roles.VotesDecide` | raft/raft.go:665-679 | a candidate leads iff the poll is won, follows nobody iff it is lost, and is unchanged while it is pending |
| `Roles.LeaderByPoll` | raft/raft.go:306-319 | a node becomes leader only by winning a poll, as a candidate or in a campaign the step starts |
| `Roles.TransferStarts` | raft/raft.go:543-571 | a request to hand over to a tracked voter makes that transfer pending, with a fresh timer unless it was so already; one to itself drops a pending transfer; no other message of the term touches it |
| `Roles.LeaderTick` | raft/raft.go:259-283 | each timer of a leader goes on by one and starts afresh when full, a full election timer ending a pending transfer |
| `Roles.TermFallsIff` | raft/raft.go:656-664 | a step lowers the term iff a candidate gets an append, heartbeat or snapshot without a term |
| `Roles.UnstampedHeartbeat` | raft/raft.go:659-661 | such a heartbeat takes a candidate of term 1 back to term 0 |
| `Roles.GoodThroughout` | raft/raft.go:284-392 | the consistency that `Roles.RolesConsistent` states is kept along every run from any state that has it |
| `Roles.OnwardThroughout` | raft/raft.go:165-175 | so is the order of terms and votes, if the node is never sent back |
| `Roles.RolesConsistent` | raft/raft.go:284-392 | at every point of every run of a new node the step and tick functions fit the role, a candidate voted for itself and has no leader, a leader voted for and follows itself, and a transfer is pending only at a leader towards another node |
| `Roles.TermsAndVotesIff` | raft/raft.go:656-664 | between any two points of a run the term has not fallen, and within a term a cast vote stands, iff no candidate is sent a leader's message without a term |
| `Roles.TermsAndVotes` | raft/raft.go:165-175 | so it is on such runs of a new node |
| `Roles.VotesOnce` | raft/raft.go:367-381 | on such runs all the requests that a node grants in a term come from one candidate |
| `Roles.TimesOut` | raft/raft.go:249-258 | a node that does not lead, can be promoted and hears nothing only counts ticks until its randomized timer is full, and then raises a timeout |
| `Roles.CampaignsInTime` | raft/raft.go:249-258 | with pre-votes it stands in the next term exactly then |
| `Roles.TransferTimesOut` | raft/raft.go:259-283 | on every run in which the leader gets no vote request from itself, a transfer neither cleared nor redirected has seen fewer than electionTimeout ticks since its timer started |
| `PageWriter.PageWriter.constructor` | pkg/ioutil/pagewriter.go:26-34 | an empty writer, for any page size, whose buffer has a page of room above the watermark |
| `PageWriter.PageWriter.Flush` | pkg/ioutil/pagewriter.go:82-97 | empties the buffer into the sink and keeps the stream |
| `PageWriter.PageWriter.FillPart` | pkg/ioutil/pagewriter.go:47-60 | a partial slack write stays within the buffer |
| `PageWriter.PageWriter.WriteFront` | pkg/ioutil/pagewriter.go:35-76 | what a write does before it calls itself: done exactly when `Recursion` has no call, and otherwise leaving the writer and the rest of the bytes as the arguments of that call |
| `PageWriter.PageWriter.Write` | pkg/ioutil/pagewriter.go:35-81 | for every write that ends, bytes sent followed by bytes buffered are all bytes written, every write issued ends on a page boundary, and the buffer is never overrun |
| `PageWriter.WriteEndsIff` | pkg/ioutil/pagewriter.go:67-79 | a write ends within one call to itself or never |
| `PageWriter.RecursionEndsIff` | pkg/ioutil/pagewriter.go:67-79 | all writes end iff a page fits under the watermark |
| `Wal.FrameSizeRoundTrip` | server/storage/wal/decoder.go:89-93 | for every length below 2^56 the low bits give the length, the pad bits the padding, and the sign is set iff there is padding |
| `Wal.WordRoundTrip` | server/storage/wal/decoder.go:112-116 | reading the eight little-endian bytes of a length field gives it back |
| `Wal.ReturnedPadRightIff` | server/storage/wal/decoder.go:94 | of the length field that the encoder writes for a record, the returned pair gives the padding right iff the record has 0 or 4 bytes |
| `Wal.FieldsNeverTorn` | server/storage/wal/encoder.go:70-78 | from an 8-aligned start every length field of any sequence of records is 8-aligned and lies within one sector |
| `Wal.FramesInjective` | server/storage/wal/encoder.go:43-68 | different lists of records never give the same bytes |
| `Wal.Encoder.Encode` | server/storage/wal/encoder.go:43-68 | through the page writer, the stream is the frames of all records in order |

## Left out

- Elections.ElectionSafety: needs the two rules, because an accepted append overwrites the term and a winner does not look at its term again; `Failures` has a violating run for each. Only one direction is stated for runs, because a run can break a rule without two nodes winning; for single events `Elections.TermFallsIff` and `Elections.WinBackedIff` are exact.
- Commits.CommitAgreement: needs the comparison with the accept index that the program omits. Only one direction is stated, because a sender learns late: its accept index lags behind what a majority holds, so an offer beyond it can still be backed.
- TieredLog.CommitForward: a heartbeat commit beyond the log ends the run, as the program panics there.
- FlowControl.WindowForever: is about runs that do not panic; `FlowControl.StepPanicsIff` says when a step does, since every snapshot is taken for empty and sending one panics.
- Probing.ProbingConverges: assumes that Next is at most one past the leader's last index and that terms do not fall along a log.
- PageWriter.PageWriter.Write: is about writes that end; `PageWriter.WriteEndsIff` says which do, and `PageWriter.RecursionEndsIff` when all do.
- TieredLog.PersistKeeps: needs a tail above storage's dummy, which can only fail while a snapshot is pending that storage has not been given.
- Roles.TransferTimesOut: excludes a vote request that the leader gets from itself, which no node sends and which would reset the election timer.
- Roles.TermsAndVotes: is about runs in which no candidate is sent a leader's message without a term, although `send` puts out no other; `Roles.TermsAndVotesIff` shows that this is exact.
- 32-bit wrap-around of indexes and terms in `node/`, and 64-bit wrap-around in `raft/`, except of a reject hint, which `findConflictByTerm` can wrap down and `MaybeDecrTo` up.
- `GetNextItem` and the replies to the catch-up goroutine of `SendAppendEntry`.
- Cluster-wide election safety of the `raft/` package: its vote replies, campaign test and vote reset are not yet those of an election.
- `maybeAppend` as an operation that writes the log, and the sending of snapshots: both depend on stubs.
- The messages that the `raft/` role machine puts out, except where sending one panics.
- Proposals, configuration changes and the size limit on uncommitted entries in `stepLeader`.
- `TallyVotes` counters, `Visit` and `insertionSort`.
- Aliasing of snapshot metadata in `MemoryStorage`; snapshots are values.
- Errors of the page writer's sink, checksums, and `decodeRecord`, which is unfinished.
- gRPC, Redis itself, logging, configuration, the HTTP server and wall-clock time.
- `raft/node.go`, `raft/rawnode.go`, `raft/status.go`, `raft/bootstrap.go` and `state/`.
