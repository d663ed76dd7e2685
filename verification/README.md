# A verified model of raft-consensus

This project models the four stateful cores of the raft-consensus repository in Dafny and proves
what they promise over all inputs, all runs and all interleavings.

* **Consensus** (`pkg/raft`). `RaftNode` gives every block that runs under the node's lock as a
  function on a node value; `RaftServer` is the `raft` object itself, with its fields and loops, proved
  equal to those functions. `RaftProtocol` runs a cluster of nodes over a network that may drop, delay,
  duplicate and reorder: elections with pre-vote, CheckQuorum step-down, transfer campaigns, proposals,
  appends with conflict hints, commit, apply and restarts. `AbstractRaft` and `AbstractSafety` prove
  Raft's safety argument for a small machine with a ghost history (one log per term, vote records with
  the voter's log, acknowledgements); `RaftRefinement`, `RaftSimulation`, `RaftReplication` and
  `RaftFollower` show that every step of the code is a step of that machine; `RaftTheorems` draws the
  conclusions for whole runs. `RaftCatchUp` is about conflict backoff, `RaftRedelivery` about requests the
  network delivers again, `SnapshotTransfer` about snapshot chunks, `Membership` and `JointQuorums` about
  (joint) quorums. Safety says what a server may do; `RaftProgress` says exactly when it must accept, vote,
  commit, take office and step down, and `RaftRounds`, `RaftExchange`, `RaftServing`, `RaftElecting` and
  `RaftAvailability` put that together over runs: no state a run can reach is stuck.
* **Key-value state machine** (`pkg/fsm`). `KvModel` says what one committed command does;
  `KvStore` is the `KVStore` object, whose map loops pick keys in an arbitrary order. `KvReads`,
  `KvChangelog`, `KvLifetimes`, `KvRetries`, `KvFresh`, `KvSnapshot` and `KvCommandCodec` prove what reads,
  events, versions, retries, fresh commands, snapshots and the wire form promise. `Watch` is the watch
  protocol. `ReplicatedStore` joins the state machine to the consensus theorems: it follows the store every
  server of a run builds. `ReplicatedService` follows one command from its wire form into all of them.
* **Write-ahead log** (`pkg/storage/wal.go`). `WalRecords` is the record format, `WalRecovery` torn-tail
  recovery, `WalIndex` and `WalLog` the segments and the index against a plain log, `WalGroupCommit` the
  fsync protocol.
* **Codec and routing**. `Varints`, `RpcCodec` and `RangeRouter`.

`LogTypes`, `Texts` and `Decimals` hold shared vocabulary: log entries, byte-wise string order, base-10
int64 text. Checking the project takes `dafny verify dfyconfig.toml`, which
sets the resource limit every proof stays within.

## Findings

Places where a natural property does not hold of the code as it stands. Each has a witness and the exact
condition under which the property holds.

* A joint commit counts learners, an election does not. With voters a, b, c and learner l on both sides of
  a joint change, c and l commit an entry that the election of a and b knows nothing of
  (`JointQuorums.LearnerCommitMissesElection`). Joint commits meet every election of the old, of the new
  and of the joint configuration exactly under the conditions of `JointQuorums.OldElectionsIff`,
  `NewElectionsIff` and `JointElectionsIff`, which only count voters and members. A configuration without
  learners, or with a single one beside an even number of voters, protects every election it takes part in,
  whatever the other configuration is (`JointQuorums.TightMeets`, `TightIff`).
* Conflict backoff uses term 0 for "no hint". A conflict at a term-0 entry resets `nextIndex` to 1, which
  undershoots unless the logs share nothing (`RaftCatchUp.TermZeroResets`; `RaftCatchUp.TermZeroUndershoots`
  shows it on logs with terms 0, 1 and 0, 0). Terms in a run start at 1, so runs are not affected
  (`RaftCatchUp.CatchUpInRuns`).
* `GroupsForPrefix` lists a group with an empty range although the range holds no key at all
  (`RangeRouter.EmptyRangeListed`, in a configuration the router accepts); for every range, holding a key
  with the prefix is the same as being non-empty and listed (`RangeRouter.SelectedIffHasKey`).
* The router refuses some configurations in which no two ranges share a key: an empty range inside another
  one counts as a clash (`RangeRouter.EmptyRangeRefused`). `RangeRouter.Build` states exactly which
  configurations are accepted, and `RangeRouter.AcceptedIffDisjoint` that among non-empty ranges they are the
  disjoint ones. Where an empty range starts at the same key as a non-empty one, the answer depends on how the
  unstable sort of the source happens to order the two (`RangeRouter.TieDecides`).

## Model

| member | source | states |
|---|---|---|
| Membership.GetServer | pkg/raft/types.go:57-66 | finds a server with the ID exactly when the configuration has one, and it is the first of them that decides whether it is a voter |
| Membership.IsVoter | pkg/raft/types.go:73-76 | true exactly when the first entry with the ID is no learner, which with distinct IDs is exactly for the voters |
| Membership.VoteCount | pkg/raft/types.go:78-86 | the number of non-learner entries, repeated IDs included; with distinct IDs the number of voters |
| Membership.AllServers | pkg/raft/joint.go:32-51 | every member of either configuration, once each, and nobody else |
| Membership.CountVoters | pkg/raft/raft.go:953-962 | the granted votes of recognised voters, whatever order the vote map is visited in and whether or not IDs repeat |
| Membership.HasVoteQuorum | pkg/raft/raft.go:953-968 | true exactly for a majority of the voter entries, in both configurations during a joint change; with distinct IDs a majority of voters |
| Membership.JointQuorumsIntersect | pkg/raft/raft.go:1548-1577 | over learner-free configurations with distinct IDs, any vote or replication set accepted in joint mode shares a voter with every set accepted under the old, the new or the same joint configuration |
| JointQuorums.OldElectionsIff | pkg/raft/raft.go:1548-1577 | every joint commit shares a voter with every election of the old configuration exactly unless the old one has members for a commit beside an election quorum and sparing the new one leaves it a commit quorum too |
| JointQuorums.NewElectionsIff | pkg/raft/raft.go:1548-1577 | the same for elections of the new configuration |
| JointQuorums.JointElectionsIff | pkg/raft/raft.go:1548-1577 | every joint commit shares a voter with every joint election exactly unless some number of common voters makes an election that leaves a commit quorum on both sides |
| JointQuorums.TightMeets | pkg/raft/raft.go:1548-1577 | a configuration with fewer members than two quorums protects the elections it takes part in, alone or joint, whatever the other one is |
| JointQuorums.TightIff | pkg/raft/raft.go:1548-1577 | that is, with no learner, or a single one beside an even number of voters |
| JointQuorums.LearnerCommitMissesElection | pkg/raft/raft.go:1548-1577 | three voters and a learner on both sides: a commit and an election the rules accept with no server in common |
| RaftServer.Server.PersistLog | pkg/raft/raft.go:2972-2996 | appends a batch exactly when it continues the log without a gap and keeps the cached last index and term right, otherwise changes nothing |
| RaftServer.Server.TruncateLog | pkg/raft/raft.go:2998-3021 | keeps the given prefix and caps the commit index at it |
| RaftServer.Server.FindLastIndexOfTerm | pkg/raft/raft.go:1515-1529 | the downward scan returns the index the backoff theorem reasons about |
| RaftServer.Server.FindRunStart | pkg/raft/raft.go:3146-3165 | the conflict loop returns the first index of the run of equal terms |
| RaftServer.Server.HandleAppendEntries | pkg/raft/raft.go:3090-3224 | new node state and reply are those of the append step, whose acceptance condition and outcome RaftProgress states on the fields |
| RaftServer.Server.CheckPrevious | pkg/raft/raft.go:3133-3166 | the consistency check with its index and term hints, refusing without touching the log |
| RaftServer.Server.StoreEntries | pkg/raft/raft.go:3168-3224 | skips what the log holds, cuts a conflicting uncommitted suffix and appends the rest, refusing exactly to cut committed entries |
| RaftServer.Server.HandleRequestVote | pkg/raft/raft.go:3226-3337 | new node state and reply are those of the vote step, whose granting condition RaftProgress states on the fields, with persisting the vote able to fail |
| RaftServer.Server.HandlePreVote | pkg/raft/raft.go:3236-3268 | a pre-vote is granted exactly for a current term, no leader heard from and a log at least as up to date, and changes nothing |
| RaftServer.Server.StartElectionWith | pkg/raft/raft.go:725-781 | pre-vote first unless it was won already or this is a transfer campaign, then a campaign in a fresh term |
| RaftServer.Server.BeginPreVote | pkg/raft/raft.go:787-823 | a pre-vote round proposes the next term without entering it |
| RaftServer.Server.ReceivePreVote | pkg/raft/raft.go:843-881 | counts pre-votes and campaigns exactly on a voter majority |
| RaftServer.Server.ReceiveVote | pkg/raft/raft.go:900-939 | counts votes of the current term and takes office exactly on a voter majority |
| RaftServer.Server.TakeOffice | pkg/raft/raft.go:970-1028 | fresh trackers for every other server, a no-op of the new term, and in a cluster of one an immediate commit |
| RaftServer.Server.CountHolders | pkg/raft/raft.go:1585-1600 | the number of distinct voters known to hold an index, the leader included |
| RaftServer.Server.AdvanceCommitIndex | pkg/raft/raft.go:1536-1613 | moves to the one right commit index, which RaftProgress.CommitExact spells out, and changes nothing else |
| RaftServer.Server.CollectBatch | pkg/raft/raft.go:1162-1180 | a contiguous batch from nextIndex: never empty when there is something to send, at most 100 entries, within the size limit after the first, and as long as those limits allow |
| RaftServer.Server.ReceiveAppendReply | pkg/raft/raft.go:1239-1352 | acts only on replies of its own term to requests of its own term; success tracks and commits, refusal backs off, a higher term deposes |
| RaftServer.Server.BackOff | pkg/raft/raft.go:1321-1352 | nextIndex follows the conflict hints exactly as the backoff theorem assumes |
| RaftServer.Server.HandleProposal | pkg/raft/raft.go:1643-1740 | appends a batch as consecutive entries of the current term, only while leading and not transferring |
| RaftCatchUp.RunIsOneTerm | pkg/raft/raft.go:3146-3165 | the conflict index starts the run: every entry from it to the conflict has the same term, and the one before it has another |
| RaftNode.FirstNew | pkg/raft/raft.go:3181-3186 | everything before the returned position is in the log with the same term and the entry at it is not |
| RaftCatchUp.ScanFindsLast | pkg/raft/raft.go:1515-1529 | in a log with rising terms the scan returns the highest index holding the term whenever one does |
| RaftNode.CommitPoint | pkg/raft/raft.go:1578-1613 | stays put or is committable, and no committable index lies beyond it |
| RaftProgress.AppendAcceptedIff | pkg/raft/raft.go:3090-3224 | a numbered append request is accepted exactly when its term is not older, the previous entry has the quoted term, and no entry differs in term from a committed one |
| RaftProgress.AcceptedAppend | pkg/raft/raft.go:3168-3224 | on acceptance the log keeps all it agrees with, takes the rest of the request from the first difference on and is cut only there, the commit index follows the leader as far as the request reaches, and the reply gives the new last index |
| RaftProgress.AcceptedIsHeld | pkg/raft/raft.go:3168-3207 | every entry of an accepted request stands at its own index, by term, and as sent where the log did not hold it; everything before the request is untouched |
| RaftProgress.RefusedAppend | pkg/raft/raft.go:3096-3166 | a refusal changes neither log nor commit index and names its reason: older term, end of the log, conflicting term or commit index |
| RaftProgress.VoteGrantedIff | pkg/raft/raft.go:3269-3337 | a real vote is granted exactly for a current term, no live leader to disrupt, a vote still free in that term, a log no worse than the own, and a write that reached disk; term and vote then name the candidate |
| RaftProgress.VoteRefused | pkg/raft/raft.go:3269-3334 | a refusal leaves the server alone, except that a later term not turned away for a live leader is adopted |
| RaftProgress.PreVoteGrantedIff | pkg/raft/raft.go:3236-3267 | a pre-vote is granted exactly for a current term, no live leader and a log no worse, and changes nothing |
| RaftProgress.CommitExact | pkg/raft/raft.go:1578-1613 | the commit index never falls, reaches every index of the current term that most voters hold, stops at such an index or where it was, and no other field changes |
| RaftProgress.SuccessCommits | pkg/raft/raft.go:1266-1320 | a success of the own term and request is tracked for its peer and commits exactly what most voters then hold |
| RaftProgress.OtherReplies | pkg/raft/raft.go:1239-1352 | every other reply is ignored, deposes on a later term, or moves only the next index of its peer |
| RaftProgress.OfficeExact | pkg/raft/raft.go:970-1028 | taking office appends a no-op of the new term, starts every tracker behind the old log, and commits at once exactly for the only voter |
| RaftProgress.VoteCountedExact | pkg/raft/raft.go:900-939 | a candidate takes office exactly when the vote just granted in its term makes more than half of the voters |
| RaftProgress.PreVoteCountedExact | pkg/raft/raft.go:843-881 | a pre-vote round becomes a campaign exactly when the pre-vote just granted makes more than half of the voters |
| RaftProgress.ElectionExact | pkg/raft/raft.go:725-823 | a timeout asks for pre-votes for the next term without entering it, or campaigns in the next term with the own vote and the end of the own log |
| RaftProgress.ProposalExact | pkg/raft/raft.go:1643-1740 | exactly a leader that is not handing over appends the whole batch in order under its term and the next indices |
| RaftProgress.StepDownIff | pkg/raft/raft.go:597-626 | a leader steps down exactly when the check is on and it, with the voters heard from recently, is no majority |
| RaftProgress.RestartExact | pkg/raft/raft.go:2828-2970 | a restart keeps term, vote and log, takes the persisted commit index as far as the log reaches and forgets the rest |
| AbstractRaft.LogMatching | pkg/raft/raft.go:3133-3207 | logs faithful to the per-term histories that agree on a term at an index agree up to it |
| AbstractRaft.ElectionSafety | pkg/raft/raft.go:883-939 | two candidates with a quorum of recorded votes in a term are one |
| AbstractSafety.RestrictionCarries | pkg/raft/raft.go:3306-3313 | a candidate at least as up to date as a voter holds every still choosable entry the voter holds |
| AbstractSafety.WinnerComplete | pkg/raft/raft.go:3226-3337 | whoever wins a term holds everything that may still be chosen in earlier terms |
| AbstractSafety.LeaderCompleteness | pkg/raft/raft.go:1536-1603 | a committed prefix is a prefix of the history of every later term |
| AbstractSafety.CommittedAgree | pkg/raft/raft.go:1536-1603 | any two committed prefixes are comparable |
| RaftFollower.StoreMerges | pkg/raft/raft.go:3168-3207 | storing what a leader quotes gives the longer of the quoted log and the own log when they agree, and the quoted log otherwise |
| RaftFollower.AppendSim | pkg/raft/raft.go:3090-3224 | handling an append request is accepting a prefix of the sender's term history, or nothing |
| RaftReplication.AppendReplyStep | pkg/raft/raft.go:1239-1352 | handling a reply keeps the trackers below what peers acknowledged, so that what it commits is chosen |
| RaftSimulation.VoteSim | pkg/raft/raft.go:3226-3337 | a vote request makes at most one ballot, in a term the voter had not voted in |
| RaftTheorems.ActRefines | pkg/raft/raft.go:557-1844 | every step of the code, deliveries, timeouts, restarts and applies included, is matched by a step of the abstract machine |
| RaftTheorems.ElectionSafetyTheorem | pkg/raft/raft.go:592-968 | at most one server is ever leader in a term, at any two moments of any run, pre-vote, transfer campaigns, CheckQuorum step-down and restarts included |
| RaftTheorems.LogMatchingTheorem | pkg/raft/raft.go:3133-3207 | any two logs of a run with the same term at an index are identical up to it |
| RaftTheorems.LogShapeTheorem | pkg/raft/raft.go:2972-3021 | in every run, logs number their entries from 1 and terms start at 1, never fall along the log and never exceed the server's own |
| RaftTheorems.LeaderCompletenessTheorem | pkg/raft/raft.go:1536-1603 | whatever a server takes to be committed is in the log of every leader of that term or later, from then on |
| RaftTheorems.CommittedEntriesStay | pkg/raft/raft.go:3168-3224 | no later step of a run changes an entry at or below a commit index a server once had, even where that index later falls |
| RaftTheorems.StateMachineSafetyTheorem | pkg/raft/raft.go:1754-1843 | no two servers ever apply different entries at one index, whenever they do |
| RaftRounds.RequestAcceptedIff | pkg/raft/raft.go:3090-3224 | in every run a server accepts an append request exactly when its term is not older and the previous entry matches: the commit index never stands in the way |
| RaftRounds.AcceptedIsStored | pkg/raft/raft.go:3168-3220 | and then holds every entry of it, as it was sent, at its own index |
| RaftExchange.AcceptedRound | pkg/raft/raft.go:1162-1320 | request, acceptance and bookkeeping: the peer holds the leader's log as far as was sent and knows what is committed in it, the leader tracks that and has nothing left to commit |
| RaftServing.CatchUp | pkg/raft/raft.go:1239-1352 | however far a peer's log departs from the leader's, refusals and one acceptance bring it to the leader's whole log |
| RaftServing.AllCommitted | pkg/raft/raft.go:1578-1613 | a leader whose log ends in its term and is held by everybody has committed all of it |
| RaftElecting.Elect | pkg/raft/raft.go:725-939 | from every state of a run timeouts and deliveries can put a leader in office, with and without pre-votes, and nobody is then in a later term |
| RaftAvailability.NeverStuck | pkg/raft/raft.go:557-1844 | every run, whatever was lost, restarted or in conflict, can go on to a state in which a given command is committed and every server has applied it at the same place |
| ReplicatedStore.SentIsRead | pkg/fsm/kv.go:1238-1296 | the entry carrying the wire form of a command is applied as exactly that command |
| ReplicatedStore.ActMoves | pkg/raft/raft.go:1754-1843 | only applying and restarting move a server's apply index, and applying records the entry at the next index |
| ReplicatedStore.ReplicaIsLogPrefix | pkg/raft/raft.go:1754-1843 | in every run a server with apply index i has fed its state machine exactly the first i entries of its log since it last started; its store and results are those of replaying their decoded commands from the empty store |
| ReplicatedStore.ReplicasAgree | pkg/raft/raft.go:1754-1843 | any two servers of a run at the same apply index, at any two moments and across restarts, hold the same store and have returned the same results |
| ReplicatedStore.LaggingReplica | pkg/raft/raft.go:1754-1843 | what a server that lags behind has yet to apply takes its own store and results to the other's |
| ReplicatedStore.OtherEntries | pkg/raft/raft.go:1786-1808 | no-ops and configuration entries are no commands, and a payload without the format byte is read as JSON |
| ReplicatedService.CommandTakesEffect | pkg/raft/raft.go:1754-1843 | every run can go on until every server has decoded a given command from its log and applied it, behind the same entries |
| RaftCatchUp.RefusalSteers | pkg/raft/raft.go:3133-3166 | the check fails exactly when previous entries differ, leaves the follower alone, and its hints give the backoff step |
| RaftCatchUp.RefusalLowers | pkg/raft/raft.go:1321-1352 | every refusal strictly lowers nextIndex and never below the first index past the logs' agreement, whichever hint branch runs |
| RaftCatchUp.RefusalJumps | pkg/raft/raft.go:1321-1352 | in one step a refusal takes the leader behind the end of a short log, behind its own last entry of the conflicting term, or past the whole run of a term it does not have |
| RaftCatchUp.TermZeroResets | pkg/raft/raft.go:1333-1341 | at a conflicting term 0 the refusal resets nextIndex to 1, which is sound exactly when the logs share nothing |
| RaftCatchUp.TermZeroUndershoots | pkg/raft/raft.go:1333-1341 | logs that agree on one entry, with a conflict at term 0, where the exchange falls back to index 1 |
| RaftCatchUp.BackoffConverges | pkg/raft/raft.go:1321-1352 | the exchange ends exactly at the first index past the agreement, or at once inside it |
| RaftCatchUp.LogsComparableInRuns | pkg/raft/raft.go:3133-3207 | any two logs of a run meet the assumptions of the backoff theorem |
| RaftCatchUp.CatchUpInRuns | pkg/raft/raft.go:1321-1352 | between any two servers of a run the exchange stops exactly where their logs part |
| RaftCatchUp.AppendKeepsCommitted | pkg/raft/raft.go:3168-3207 | no append request, however malformed, changes an entry at or below the receiver's commit index |
| RaftRedelivery.RequestsInSequence | pkg/raft/raft.go:1162-1210 | every append request of a run numbers its entries from prevIndex + 1 on |
| RaftRedelivery.SecondDeliveryIsIdle | pkg/raft/raft.go:3090-3224 | handling a request of a run twice in a row is handling it once, in every field of the server |
| RaftRedelivery.RedeliveryInRuns | pkg/raft/raft.go:3090-3224 | once a server has accepted a request, delivering it again at any later moment of the run, in the same or a later term, leaves its log as it is |
| SnapshotTransfer.Receiver.Receive | pkg/raft/raft.go:3370-3404 | restart at offset 0, continue contiguously, drop anything else, give up beyond the cap |
| SnapshotTransfer.ChunksAreGenuine | pkg/raft/raft.go:1429-1485 | every chunk of a transfer is a slice of the payload at its offset, and only a chunk reaching the end is marked done |
| SnapshotTransfer.BufferIsPrefix | pkg/raft/raft.go:3370-3404 | under any loss, duplication and reordering of chunks of any transfers the buffer is a prefix of its payload, and a transfer only completes with its whole payload |
| SnapshotTransfer.InOrderCompletes | pkg/raft/raft.go:3370-3404 | delivered in order, a transfer completes exactly when the payload is within the cap, whatever was buffered before and however it was cut |
| KvStore.EventRing.Emit | pkg/fsm/kv.go:669-685 | the ring holds the newest 1024 of its previous content and the new events, oldest first |
| KvStore.EventRing.Since | pkg/fsm/kv.go:791-809 | the buffered events after a revision, in order |
| KvStore.KVStore.ListValues | pkg/fsm/kv.go:286-300 | the values of exactly the live keys in key order, whatever order the map is visited in |
| KvStore.KVStore.RangePairs | pkg/fsm/kv.go:351-376 | the live entries under a prefix in key order, or an overflow exactly when there are more than 10000, whatever order the map is visited in |
| KvStore.KVStore.ApplyPut | pkg/fsm/kv.go:458-478 | one revision up, the entry replaced or created with its counters |
| KvStore.KVStore.AddDelta | pkg/fsm/kv.go:387-407 | the sum when both operands and it are base-10 int64s, with the machine overflow test, and the right refusal otherwise |
| KvStore.KVStore.SweepExpired | pkg/fsm/kv.go:492-521 | all expired keys deleted in one revision with their events in key order, whatever order the map is visited in |
| KvStore.KVStore.EvalCompare | pkg/fsm/kv.go:625-665 | a condition on value, version or revision with expired keys absent |
| KvStore.KVStore.ApplyTxn | pkg/fsm/kv.go:524-622 | the branch its conditions choose, run in order at one revision, or nothing at all when an operation deletes a missing key |
| KvStore.KVStore.FindOldest | pkg/fsm/kv.go:834-848 | the client with the least order and then ID, whatever order the table is visited in |
| KvStore.KVStore.EvictIfNeeded | pkg/fsm/kv.go:834-848 | one determined table results, whatever order it is visited in |
| KvStore.KVStore.Apply | pkg/fsm/kv.go:191-446 | one next state and one reply for a command, whatever orders the map loops inside choose; KvFresh and KvReads state which |
| KvModel.OldestUnique | pkg/fsm/kv.go:834-848 | there is only one client to evict |
| Texts.ListingUnique | pkg/fsm/kv.go:294-295 | there is only one sorted listing of a set of keys |
| Texts.Sort | pkg/fsm/kv.go:294-295 | sorting keys collected in any order gives that listing |
| Decimals.Format | pkg/fsm/kv.go:387-407 | what is stored for a counter reads back as its number |
| KvChangelog.ExecuteTold | pkg/fsm/kv.go:191-446 | every command changes data by at most one revision, all its events carry that revision, and replaying them gives exactly the new data |
| KvChangelog.AbortChangesNothing | pkg/fsm/kv.go:552-568 | a transaction with a doomed operation changes no data and no revision, emits nothing and reports failure |
| KvReads.ReadAfterPut | pkg/fsm/kv.go:306-349 | after a put and any commands that do not write its key, a read gives the value put until its TTL is over and not found from then on |
| KvReads.ReadAfterDelete | pkg/fsm/kv.go:254-284 | after a delete and any commands that do not write its key, the key is not found |
| KvReads.GetMeans | pkg/fsm/kv.go:337-349 | a read finds the stored entry exactly while it is stored and not expired |
| KvReads.RangeMeans | pkg/fsm/kv.go:351-376 | a range read gives the entries of exactly the keys under the prefix that are there, ascending, or too many |
| KvReads.ListMeans | pkg/fsm/kv.go:286-300 | a listing gives the values of exactly the keys that are there, in key order |
| KvReads.PutMeans | pkg/fsm/kv.go:306-335 | a put stores its value, counts versions on, tells what it stored and replaced in reply and event, and does nothing with no revision left |
| KvReads.DeleteMeans | pkg/fsm/kv.go:262-284 | a delete removes exactly a key that is there and tells what it was |
| KvReads.TickMeans | pkg/fsm/kv.go:492-521 | a tick deletes exactly the keys whose time has come, in key order, and counts them |
| KvReads.IncrMeans | pkg/fsm/kv.go:378-420 | a counter command stores the sum exactly when revisions are left, both operands are base-10 int64 texts and so is the sum, and otherwise says which fails first |
| KvReads.ConditionMeans | pkg/fsm/kv.go:625-665 | each relation of a condition on the stored version, revisions or value, with absent and expired keys counting as 0 |
| KvReads.TxnMeans | pkg/fsm/kv.go:524-622 | the success operations take effect exactly when every condition holds, the failure operations otherwise, key by key as the last operation on it says, unless there are none, no revision is left or one deletes a missing key |
| KvReads.ResultsMean | pkg/fsm/kv.go:580-615 | each put or delete of a transaction reports the entry it stored or removed |
| KvChangelog.StreamLeads | pkg/fsm/kv.go:669-685 | the events between two states of a run rebuild the second's data from the first's, in rising revisions strictly after the first, and the ring holds their newest part |
| KvChangelog.SameRevisionSameData | pkg/fsm/kv.go:191-446 | a run that does not raise the revision changes no data |
| KvChangelog.HistorySince | pkg/fsm/kv.go:791-809 | the history since a state is all that was emitted since exactly when that fits the ring, and its newest 1024 events otherwise |
| KvChangelog.HistoryRebuilds | pkg/fsm/kv.go:791-809 | data at a revision plus the history since rebuilds the current data whenever the ring still holds it all |
| KvLifetimes.VersionsCount | pkg/fsm/kv.go:458-478 | over every run, a key exists exactly while its lifetime is open, its version counts the puts of that lifetime, and its create and mod revisions are those of the first and last of them |
| KvLifetimes.IncrAdds | pkg/fsm/kv.go:378-420 | a successful counter command stores text that reads as the old number plus the delta |
| KvLifetimes.SweepRemovesExpired | pkg/fsm/kv.go:492-521 | a sweep removes exactly the keys that are no longer live |
| KvLifetimes.ExpiryNeverNegative | pkg/fsm/kv.go:202-208 | over every run the clock is never negative and every expiry is 0 or positive |
| KvLifetimes.ExpiryNeedsNoSweep | pkg/fsm/kv.go:484-486 | no reply to a read, counter or delete tells whether expired keys have been swept yet |
| KvLifetimes.ConditionsNeedNoSweep | pkg/fsm/kv.go:625-665 | nor does any transaction condition |
| KvRetries.MutationRemembered | pkg/fsm/kv.go:435-443 | a client command that counts as a mutation is remembered once applied, even when recording it evicts other clients |
| KvRetries.RetryIsIdle | pkg/fsm/kv.go:210-217 | a remembered command changes only the apply index and returns the recorded bytes |
| KvRetries.RetriesInvisible | pkg/fsm/kv.go:200-217 | striking any retries the store still remembers out of a log, evictions included, leaves data, revision, clock, events, dedup results and every remaining reply the same, from any store whose ages lie in the past |
| KvRetries.EvictedAlike | pkg/fsm/kv.go:834-848 | tables that order their clients alike evict the same ones and still do so afterwards |
| KvRetries.RunTableSound | pkg/fsm/kv.go:435-443 | every run keeps the table within its limit and all ages in the past |
| KvRetries.ExactlyOnce | pkg/fsm/kv.go:200-217 | from the empty store, repeating commands while their client is remembered changes neither the resulting data nor any other reply, whatever the number of clients |
| KvRetries.EvictedExact | pkg/fsm/kv.go:834-848 | exactly as many clients are evicted as are too many, and they are the oldest |
| KvFresh.ExecutedUnlessRetry | pkg/fsm/kv.go:200-217 | a command is answered from the table exactly when its client is named, recorded, and recorded at or past its sequence number; otherwise it is executed, told the outcome and recorded |
| KvFresh.TableTells | pkg/fsm/kv.go:435-443 | over every run, what the table holds for a client is what one of its commands was told when it was executed |
| KvFresh.RetryToldAgain | pkg/fsm/kv.go:210-217 | a retry is told again what the client was told for a command at or past the retried one |
| KvFresh.RisingRunsInFull | pkg/fsm/kv.go:210-217 | a log in which every client's sequence numbers rise gives the data, revision, clock, events and replies of the same log without client names: nothing is swallowed, whoever is evicted |
| KvSnapshot.WriteStream | pkg/fsm/kv.go:883-962 | a stream of the snapshot for some order of visiting its maps, whichever the loops take |
| KvSnapshot.StreamRoundTrip | pkg/fsm/kv.go:967-1052 | a stream written in any map order reads back as the snapshot |
| KvSnapshot.RestoreGivesBack | pkg/fsm/kv.go:1054-1091 | any stream of a snapshot, restored over any store, gives the same data, revision, index, clock and dedup table back with an empty event ring |
| KvSnapshot.SameStateRun | pkg/fsm/kv.go:191-446 | what the event ring holds never influences states or replies |
| KvSnapshot.CompactionInvisible | pkg/fsm/kv.go:1054-1091 | for every split of a log, streaming a snapshot at the split in any map order, restoring it over any store and applying the rest gives the state and the replies of the whole log, watch history aside |
| KvCommandCodec.Encode | pkg/fsm/kv.go:1201-1231 | the wire form with the TTL tail exactly when there is a timestamp or a TTL |
| KvCommandCodec.CommandRoundTrip | pkg/fsm/kv.go:1238-1296 | a command without transaction or previous-value request reaches the store as it was sent |
| KvCommandCodec.WireRoundTrip | pkg/fsm/kv.go:1238-1296 | decoding undoes encoding for every operation name, tail present or not, timestamps and TTLs of either sign |
| KvCommandCodec.WireLayout | pkg/fsm/kv.go:1201-1231 | format byte 1, operation, key, value, client, sequence number and tail stand one behind the other |
| Watch.WatchManager.Register | pkg/fsm/watch.go:170-209 | of any stream the new watcher gets live exactly the matching events after the revision of its registration, a replay is due exactly when the asked-for revision lies before it, nothing has been delivered yet and no other watcher changes |
| Watch.RegisteredIs | pkg/fsm/watch.go:170-209 | a watcher with these properties is the one the protocol registers |
| Watch.WatchManager.FanOutBatch | pkg/fsm/watch.go:99-147 | a subscribed watcher with room is sent exactly the events of the batch after its registration on keys it named, once each; one that is gone or full is sent nothing; whatever order watchers are visited in |
| Watch.SelectLive | pkg/fsm/watch.go:116-131 | exactly the matching events newer than the registration, once each |
| Watch.StepInv | pkg/fsm/watch.go:99-231 | every step keeps every watcher's account: each position delivered live or by replay, never both |
| Watch.DeliveredAtMostOnce | pkg/fsm/watch.go:99-231 | over every interleaving no event reaches a watcher twice, nor one that does not match or is not newer than asked for |
| Watch.UnhinderedSpares | pkg/fsm/watch.go:99-147 | while no dispatch finds a watcher full, it is not cancelled and no emission finds the event channel full, nothing meant for it is dropped |
| Watch.DeliveredExactlyOnce | pkg/fsm/watch.go:170-231 | over every run in which nothing is hindered from reaching it and its replay is read before the ring overwrites, a settled watcher has received every matching event after the revision it is owed from exactly once, and nothing else |
| Watch.ReplayCanProceed | pkg/fsm/watch.go:215-231 | a replay with events left can always send the next one |
| Watch.UnsettledCanStep | pkg/fsm/watch.go:99-231 | as long as a watcher is not settled, the dispatcher or its replay can take a step |
| Watch.PastIsHistory | pkg/fsm/watch.go:215-216 | what a replay reads is what the ring returns |
| Watch.StoreEmits | pkg/fsm/kv.go:669-685 | the store emits only what the protocol assumes: one revision up, every event at it |
| WalRecords.RecordRoundTrip | pkg/storage/wal.go:586-634 | a whole record reads back as the entry it encodes, wherever it lies and whatever the checksum function |
| WalRecords.TornRecord | pkg/storage/wal.go:1009-1059 | a record cut short never reads as a record: it is the end of the file without a whole header, corrupt with one |
| WalRecords.RecordLayout | pkg/storage/wal.go:586-634 | checksum, length plus 9, type, term, index and data stand at bytes 0, 4, 8, 9, 17 and 25 |
| WalRecords.BigEndianLayout | pkg/storage/wal.go:586-634 | numbers are written most significant byte first |
| WalRecovery.ProbeForward | pkg/storage/wal.go:267-286 | true exactly when some later position reads as a valid record |
| WalRecovery.RebuildIndex | pkg/storage/wal.go:198-259 | the recovery the theorems below are about, for any bytes at all |
| WalRecovery.TornTailRecovery | pkg/storage/wal.go:198-286 | for any byte prefix of encoded records recovery indexes exactly the whole ones or refuses, and refuses exactly when a whole header is left over and a valid record starts inside the torn bytes |
| WalRecovery.CleanRecovery | pkg/storage/wal.go:198-259 | a segment whose writes completed opens with every record and unchanged |
| WalRecovery.RecoveryIsStable | pkg/storage/wal.go:227-244 | once the torn bytes are cut off, opening again gives the same index and file |
| WalLog.WAL.AppendEntry | pkg/storage/wal.go:442-507 | the plain log with the entry, at any index from the next one on: its record at the end of the last file, and a new segment exactly when that file has reached the segment size |
| WalLog.WAL.Append | pkg/storage/wal.go:362-382 | a batch of rising indices is the plain log with all its entries |
| WalLog.WAL.Get | pkg/storage/wal.go:509-578 | exactly the live entry of an index, read back from the files, or not found |
| WalLog.WAL.UpperBound | pkg/storage/wal.go:652-660 | the least base above a segment's |
| WalLog.WAL.Bounds | pkg/storage/wal.go:888-908 | the least and greatest index a segment owns |
| WalLog.WAL.CutOffset | pkg/storage/wal.go:826-843 | the least offset in the segment of an entry from the given index on |
| WalLog.WAL.TruncateCurrent | pkg/storage/wal.go:733-745 | cutting the current file destroys no live record outside the range |
| WalLog.WAL.DropCovered | pkg/storage/wal.go:747-776 | deleting segment files destroys no live record outside the range, and no file the range covers is left |
| WalLog.WAL.DeleteRange | pkg/storage/wal.go:716-820 | the plain log without the range; the next index falls to the start of a range that reached the end and never rises, so an append at the old end or behind what is left stays possible |
| WalLog.WAL.Compact | pkg/storage/wal.go:867-882 | the plain log without anything up to the index, the next index never rising; every older segment left begins past the index or holds an entry past it |
| WalIndex.AppendSound | pkg/storage/wal.go:442-484 | a record at the end of the newest segment keeps every index entry pointing at its own record, offsets rising |
| WalIndex.CutSound | pkg/storage/wal.go:826-865 | cutting at the first deleted record keeps every record of a kept index whole |
| WalGroupCommit.StepInv | pkg/storage/wal.go:362-440 | every step of appenders, rotation and syncing keeps the protocol invariant |
| WalGroupCommit.AcknowledgedIsDurable | pkg/storage/wal.go:388-415 | an append returns success only when its whole batch is durable, over every interleaving, with failing writes and syncs |
| WalGroupCommit.OneSyncAtATime | pkg/storage/wal.go:388-415 | at most one thread runs the group fsync |
| WalGroupCommit.NoLostWakeup | pkg/storage/wal.go:388-415 | a sleeping appender always has a running syncer that will wake it |
| WalGroupCommit.DurableGrows | pkg/storage/wal.go:421-440 | what was durable at one moment of a run is durable ever after |
| WalGroupCommit.EveryAppendSucceeds | pkg/storage/wal.go:362-440 | as long as the disk does not fail, every append that returned returned success |
| WalGroupCommit.NoDeadlock | pkg/storage/wal.go:388-440 | while any append is under way, one of them can go on |
| Varints.UvarintRoundTrip | pkg/transport/binary.go:79-112 | every 64-bit number reads back with whatever follows untouched |
| Varints.ReadUvarintSuffix | pkg/transport/binary.go:106-112 | a reader takes bytes off the front and is always in bounds |
| Varints.ReadUvarintFromBounded | pkg/transport/binary.go:106-112 | whatever is accepted is a 64-bit number |
| Varints.VarintRoundTrip | pkg/fsm/kv.go:1226-1229 | every signed 64-bit number reads back through ZigZag |
| Varints.UvarintLayout | pkg/transport/binary.go:79-112 | seven bits per byte, lowest first, the high bit set on all but the last, no byte too many |
| Varints.VarintLayout | pkg/fsm/kv.go:1226-1229 | signed numbers alternate between even and odd codes |
| RpcCodec.Marshal | pkg/transport/binary.go:161-176 | the bytes of a message, field by field |
| RpcCodec.Unmarshal | pkg/transport/binary.go:179-239 | the offset-based decoder agrees with the grammar on every byte string and never leaves the data |
| RpcCodec.DecodeBytes | pkg/transport/binary.go:140-156 | length-prefixed bytes within the cap and the data, or an error |
| RpcCodec.MessageRoundTrip | pkg/transport/binary.go:179-239 | decoding undoes encoding exactly for messages within the limits and refuses every other one |
| RpcCodec.MessageLayout | pkg/transport/binary.go:161-176 | term, leader, previous index and term, commit index, count and then each entry's term, index, type and data stand one behind the other |
| RangeRouter.Build | pkg/multiraft/router.go:27-71 | a sorted arrangement of the configuration whose neighbours are separated; accepted whenever every two ranges are apart in start order, and only when they are for some order of equal starts, which is the same condition unless an empty range starts where a non-empty one does |
| RangeRouter.EmptyRangeRefused | pkg/multiraft/router.go:53-68 | an empty range inside another one is refused however the ranges are sorted, though no key is in both |
| RangeRouter.TieDecides | pkg/multiraft/router.go:39-68 | an empty and a non-empty range with one start are accepted in one order and refused in the other |
| RangeRouter.AcceptedIffDisjoint | pkg/multiraft/router.go:53-68 | among non-empty ranges that condition is that no two share a key |
| RangeRouter.ApartOrShared | pkg/multiraft/router.go:53-68 | a range and a later non-empty one are apart exactly when they share no key |
| RangeRouter.OneRangePerKey | pkg/multiraft/router.go:53-68 | in an accepted configuration no key is in two ranges, neighbours or not |
| RangeRouter.FirstBeyond | pkg/multiraft/router.go:86-95 | the binary search finds the first range that starts beyond the key |
| RangeRouter.GroupFor | pkg/multiraft/router.go:78-109 | a group exactly when some range contains the key, and that range's group |
| RangeRouter.GroupsForPrefix | pkg/multiraft/router.go:124-145 | the groups of the selected ranges in order |
| RangeRouter.SelectedIffHasKey | pkg/multiraft/router.go:124-145 | a range holds a key with the prefix exactly when it is non-empty and selected |
| RangeRouter.EmptyRangeListed | pkg/multiraft/router.go:124-145 | an accepted configuration with an empty range that a prefix query lists |
| RangeRouter.PrefixGroupsExact | pkg/multiraft/router.go:124-145 | with non-empty ranges, a group is listed exactly when one of its ranges holds a key with the prefix |

## Left out

- Dynamic membership, learners and joint configurations inside the protocol theorems: the cluster has fixed, distinct, non-learner servers; joint quorums are treated on their own in `Membership` and `JointQuorums`.
- Snapshots and log compaction inside the protocol theorems: logs there start at index 1, and a restarted server applies its log from the beginning.
- ReadIndex, lease reads, leadership transfer bookkeeping, futures, metrics, tracing, timers and shutdown: timeouts are steps that may happen at any time.
- RaftAvailability.NeverStuck: that a run can go on to the goal, not that it must; how timers and the network make it likely is not modelled.
- The inflight window and probe/replicate states: which and how many entries a leader sends, and when, is left open in the protocol.
- Storage failures in `pkg/raft`: writes of term, own vote and log succeed; only persisting a granted vote may fail. A crash falls between steps, not inside one.
- RaftServer.Server: vote maps, which only ever hold true, are sets, and the log store is a sequence.
- The simulator, the test clock and other test support.
- JSON: transaction commands, legacy snapshots and commands asking for the previous value have no wire form here; rendering a reply is a parameter.
- Log entries that do not decode: the store returns an error without counting them, and they are no commands here. How a JSON payload reads is a parameter of `ReplicatedStore`.
- TTL and counter arithmetic beyond 64 bits, revisions beyond the source's own ceiling included: numbers are unbounded, and encoders take numbers that fit their machine words.
- Public reads beside Apply (Get, Range, RangePage): they only read and would add easy members.
- ReplicatedService.CommandTakesEffect: for commands with a binary wire form; transactions and requests for the previous value travel as JSON, which is a parameter.
- RaftProgress.AppendAcceptedIff: for entries numbered from the previous index on, which RaftRedelivery.RequestsInSequence shows of every request of a run.
- The order of deliveries to a watcher, and Restore while watching: replay and live delivery run side by side in the source, so only counts are stated.
- Watch.Act: registering reads the revision and enters the watcher in one step, which the manager's lock justifies; channels are accounts of what was sent, with fullness chosen freely.
- WalLog.WAL.AppendEntry: takes an index at or past the next one and data whose length plus 9 fits 32 bits; the source checks neither.
- WalLog.WAL.Append: takes consecutive indices, as the consensus layer hands them over; the source does not check.
- WalLog.WAL: the cached last term, and restarts after tail deletions, which may leave deleted records in older files.
- WalRecovery.TornTailRecovery: one crash; a torn header stays in the file and later appends go behind it.
- WalGroupCommit: directory entries and partially written records; what a failed append left behind is not claimed to be durable or absent.
- The checksum's arithmetic, file names, fsync of directories, BoltDB and the snapshot store.
- The other RPC messages: their codecs are the same pieces without the entry loop.
- Command-line tools, clients, gRPC and TCP plumbing, TLS, backup, the etcd layer and the UI.
