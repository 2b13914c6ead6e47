# EnclaveRaft in Dafny

EnclaveRaft runs the *cornerstone* Raft server inside an enclave. This project models that server in Dafny, from the
bytes of its buffers to whole runs of a cluster, and proves what the code is for.

| part | modules |
|---|---|
| bytes and formats | `Types`, `Bytes`, `Codec` (formats as functions, round trips), `Buffers` (the raw block with its tagged header), `Entries`, `Serializer` (the serializers as loops over buffers) |
| log store | `LogStore` (map with a dummy slot and a start index), `LogMerge` (the three merge loops) |
| one server | `Quorum` (order statistics), `ServerSpec` (each handler as a function of the state), `Membership`, `Lease` (the leader's check on its quorum), `ServerNode` (the server as an object whose handlers do what `ServerSpec` says) |
| the cluster | `Protocol` (servers and a network that delays, reorders, repeats and loses), `Raft` (the inductive invariant over history variables), `Simulation` (every step of `Protocol` keeps it), `Safety`, `Durable`, `CommitSafety`, `Scenario` (concrete runs of three servers, step by step), `CommitFlaw`, `Cluster` (the server objects of `ServerNode` on one network) |
| two-party protocols | `CatchUp`, `SnapshotTransfer`, `ConfigWalk` |

A run of `Protocol` interleaves election timeouts, deliveries, client requests, heartbeats, failed calls, background
applies and restarts of any number of servers. The history variables of `Raft` (who led a term with which log, who voted
for whom with which log) exist only in the proofs; `Simulation.RunSim` constructs them for every run. `Cluster.Fleet`
closes the chain: whatever handlers of its server objects are called, in whatever order and with whatever messages lost,
the states they pass through are a run of `Protocol`, so the theorems hold of the objects.

Where code and comments disagree the model follows the code. A comment in `handle_peer_resp` says that answers of lower
terms are ignored; they are not. The quorum count does not look at the term of the entry it commits, `become_leader`
keeps the old matched indexes, and a follower takes over the leader's commit index without looking at its own log.
State Machine Safety is therefore false of the code. It holds in every run that meets three conditions
(`CommitSafety.StateMachineSafety`): a leader commits by an entry of its own term, by acknowledgements of its own term,
and a follower commits no further than the request vouches for. None of the three can be dropped:
`CommitFlaw.EachConditionNeeded` gives for each of them a run of three servers that keeps the other two at every step
and at whose end two servers have given different commands to their state machines at one index.

Three smaller promises fail as well, each with its exact condition. A transfer of a snapshot whose last answer is lost
cannot finish while that snapshot is the leader's latest, because the receiver declines every retry as old
(`SnapshotTransfer.FinishExact`, `StuckRun`, `NewerHelps`). A new server catches up only with a stop gap of at least 1:
with 0 it lacks the last committed entry forever (`CatchUp.StopGapExact`). The leader's check that a majority has
answered lately is never made again once it has passed (`Lease.GrantedExactly`, `LeaseExact`), and it goes by the low 32
bits of an age, so after an election the clock alone may pass it (`Lease.NeverAnswered`).

An error exit of the original, `system_exit` followed by an exception, cuts the handler short. The shipped `system_exit`
is empty and a request's exception is caught, so the server goes on; another state manager may stop it. Both are runs of
`Protocol`.

## Model

| member | source | states |
|---|---|---|
| Safety.ElectionSafety | raft_enclave/raft/src/raft_server_handle_resp.cxx:73-104 | over every run at most one server leads in any term, even though a candidate that stepped down goes on counting votes |
| Safety.NoRivalLeader | raft_enclave/raft/src/raft_server_handle_req.cxx:26-39 | no leader is ever sent an append request of its own term, so the exit for "another leader with same term" is unreachable |
| Safety.LogMatching | raft_enclave/raft/src/raft_server_handle_req.cxx:50-105 | two logs, of any servers at any two moments, that carry the same term at an index are identical up to it, payloads included |
| Safety.AckStability | raft_enclave/raft/src/raft_server_handle_req.cxx:44-109 | an accepted append answer means agreement with that term's leader below its next index, which the leader's log reaches from then on; the agreement lasts as long as the follower stays in the term, whatever old or repeated requests arrive |
| Safety.LeaderCompleteness | raft_enclave/raft/src/raft_server_handle_req.cxx:50-137 | once a majority with the leader has acknowledged an own-term entry in that term, every leader of every later term holds the same entries up to it |
| Durable.VotesOnce | raft_enclave/raft/src/raft_server_handle_req.cxx:125-132 | over every run with restarts, terms never decrease, a vote is never changed within its term, and the saved pair equals the live pair after every step |
| Durable.TermsGrow | raft_enclave/raft/src/raft_server.cxx:154-172 | a server's term never decreases, across restarts as well |
| Durable.AppliedInOrder | raft_enclave/raft/src/raft_server.cxx:662-685 | in every reachable state the applied index is the start index plus the number of applied entries and never passes the commit index |
| Durable.AppliedExactlyOnce | raft_enclave/raft/src/raft_server.cxx:662-685 | every entry that a server has applied since its last start was applied by one background step, from the log slot of its own index (never the dummy), and by no later one |
| Durable.AppliedGrows | raft_enclave/raft/src/raft_server.cxx:662-666 | what a server that stays up has applied only grows at the end |
| CommitSafety.StateMachineSafety | raft_enclave/raft/src/raft_server.cxx:174-192 | in every guarded run no two servers ever apply different entries at one index |
| CommitSafety.GuardedRunCommits | raft_enclave/raft/src/raft_server_handle_req.cxx:107-109 | in guarded runs every server's committed prefix is part of a log chosen by a majority in a term up to its own |
| CommitSafety.MergeKeepsCommitted | raft_enclave/raft/src/raft_server_handle_req.cxx:71-92 | accepting a leader's request never disturbs a follower's committed prefix and makes it agree with the leader up to the request's end |
| CommitFlaw.EachConditionNeeded | raft_enclave/raft/src/raft_server_handle_resp.cxx:116-134 | for each of the three conditions there is a run that keeps the other two at every step, breaks this one, and leaves two servers with different commands applied at one index |
| CommitFlaw.DivergedIsUnguarded | raft_enclave/raft/src/raft_server.cxx:662-666 | no run after which two servers have applied different commands at one index is guarded |
| CommitFlaw.OldEntryCommits | raft_enclave/raft/src/raft_server_handle_resp.cxx:132-133 | a re-elected leader commits and applies a command of an earlier term by counting replicas |
| CommitFlaw.OldTermRun | raft_enclave/raft/src/raft_server_handle_req.cxx:71-92 | a later leader that never saw it then commits and applies another command at the same index |
| CommitFlaw.SlowAnswerCounts | raft_enclave/raft/src/raft_server_handle_resp.cxx:45-52 | an acknowledgement that a server sent in an earlier term of the leader counts for the entry now at that index, which the server does not hold |
| CommitFlaw.OldAckRun | raft_enclave/raft/src/raft_server_handle_resp.cxx:116-133 | another leader then commits and applies its own command there |
| CommitFlaw.UncappedRun | raft_enclave/raft/src/raft_server_handle_req.cxx:107-109 | after two refusals of its own requests and one late answer of an earlier term, a leader sends a request that vouches for one entry; the follower commits and applies two more of its own, unlike those that the leader has applied |
| Scenario.Campaign | raft_enclave/raft/src/raft_server.cxx:25-53 | a server whose log is current enough for one other server leads the next term, with its first requests out to both others |
| Scenario.Overwrite | raft_enclave/raft/src/raft_server_handle_resp.cxx:135-150 | refusal by refusal the leader goes back to index 1, and then its log replaces one that has no entry in common with it |
| Scenario.MiddleIsQuorum | raft_enclave/raft/src/raft_server_handle_resp.cxx:123-133 | among three servers the majority index is the middle one |
| Simulation.RunSim | raft_enclave/raft/src/raft_server_public.cxx:27-78 | every run of the modelled code has a history under which the protocol invariant holds in each of its states |
| Simulation.StepSim | raft_enclave/raft/src/raft_server_public.cxx:40-57 | every single step, with any of its messages lost, keeps the invariant and only adds to the history |
| Simulation.ReactKeepsSaved | raft_enclave/raft/src/raft_server_handle_timeout.cxx:71-78 | no handler ends with a term or vote that is not saved, and none lowers the term |
| Raft.WinsOnce | raft_enclave/raft/src/raft_server_handle_resp.cxx:90-103 | a server whose counted votes make a majority is in a term that nobody has led |
| Raft.MergeAgrees | raft_enclave/raft/src/raft_server_handle_req.cxx:58-105 | merging a slice of a leader's log into a log that agrees with it before the slice makes them agree up to its end, and keeps any longer agreement |
| Raft.CurrentHasChosen | raft_enclave/raft/src/raft_server_handle_req.cxx:121-126 | a log that passes the voting rule against a voter's log with a chosen prefix has that prefix, if the leaders in between have it |
| Raft.LaterLeadersHoldChosen | raft_enclave/raft/src/raft_server.cxx:25-53 | by induction over terms, every leader after a chosen entry holds it |
| Quorum.CommitPick | raft_enclave/raft/src/raft_server_handle_resp.cxx:123-133 | for every cluster size the descending sort at half the size gives the largest index that a strict majority, counting this server, reaches |
| Quorum.LeasePick | raft_enclave/raft/src/raft_server_handle_req.cxx:146-154 | for every cluster size the ascending sort at half the peers gives the latest time since which a strict majority, counting this server, has answered |
| ServerSpec.CreateAppendReq | raft_enclave/raft/src/raft_server.cxx:282-348 | the request states a slice of the sender's log, its predecessor's term, as many entries as there are up to the limit, and the commit index |
| ServerSpec.TrySend | raft_enclave/raft/src/raft_server.cxx:66-75 | sending changes nothing but a peer's bookkeeping, and everything sent is a slice of the log |
| ServerSpec.SendAll | raft_enclave/raft/src/raft_server.cxx:61-63 | the same for all peers |
| ServerSpec.Commit | raft_enclave/raft/src/raft_server.cxx:174-187 | the commit index becomes the larger of the two, only a leader sends, and what it sends carries the new index |
| Cluster.Fleet.constructor | raft_enclave/raft/include/raft_server.hxx:30-121 | one new server object with an empty store for every listed id; the run that has just begun is theirs |
| Cluster.Fleet.Timeout | raft_enclave/raft/src/raft_server_handle_timeout.cxx:60-78 | the object's election timeout, whichever of its messages are lost, is the next step of the run |
| Cluster.Fleet.DeliverRequest | raft_enclave/raft/src/raft_server_public.cxx:27-58 | the same for a request that is under way, however late or repeated, with its entries as objects |
| Cluster.Fleet.DeliverResponse | raft_enclave/raft/src/raft_server_handle_resp.cxx:23-71 | the same for an answer |
| Cluster.Fleet.Serve | raft_enclave/raft/src/raft_server_handle_req.cxx:139-180 | the same for a client's entries; the event says whether the check on the quorum had expired |
| Cluster.Fleet.Heartbeat | raft_enclave/raft/src/raft_server_handle_timeout.cxx:90-107 | the same for a heartbeat |
| Cluster.Fleet.FailCall | raft_enclave/raft/include/peer.hxx:184-192 | the same for a failed call |
| Cluster.Fleet.Apply | raft_enclave/raft/src/raft_server.cxx:662-685 | the same for an iteration of the background thread |
| Cluster.Fleet.Restart | raft_enclave/raft/include/raft_server.hxx:30-121 | the same for a restart: a new object over the old store and what was saved takes the place of the old one |
| Cluster.Fleet.OneLeader | raft_enclave/raft/src/raft_server_handle_resp.cxx:73-104 | at most one of the objects leads in a term, after any calls |
| Cluster.Fleet.LogsMatch | raft_enclave/raft/src/raft_server_handle_req.cxx:50-105 | logs in two real stores that carry the same term at an index are identical up to it |
| Cluster.Fleet.AppliedAlike | raft_enclave/raft/src/raft_server.cxx:662-666 | if every commit so far met the three conditions, no two objects have applied different entries at one index |
| ServerNode.RaftServer.HandleRpcFailure | raft_enclave/raft/include/peer.hxx:184-192 | exactly the named peer, if it is known, becomes free |
| ServerNode.RaftServer.constructor | raft_enclave/raft/include/raft_server.hxx:30-121 | start-up yields the saved term and vote, the stored log, and one idle peer for every other listed server |
| ServerNode.PeersOf | raft_enclave/raft/include/raft_server.hxx:109-121 | the peers are exactly the other servers of the configuration |
| ServerNode.RaftServer.CreateRequest | raft_enclave/raft/src/raft_server.cxx:282-348 | over the real store the request is the specified slice, and none is made exactly when the peer's index is beyond the log |
| ServerNode.RaftServer.Request | raft_enclave/raft/src/raft_server.cxx:66-75 | a free peer is made busy and sent its request, a busy one is left alone |
| ServerNode.RaftServer.RequestEach | raft_enclave/raft/src/raft_server.cxx:180-186 | the loop over the peers, in any order, sends what the specification sends to all; when it is cut short, everything but the peers' records is as specified |
| ServerNode.RaftServer.CommitTo | raft_enclave/raft/src/raft_server.cxx:174-187 | the commit index becomes the larger of the two; only a leader, and only when the index advances, turns to its peers |
| ServerNode.RaftServer.RequestAppendEntries | raft_enclave/raft/src/raft_server.cxx:55-64 | a leader without peers commits its whole log, any other sends to all |
| ServerNode.RaftServer.SaveState | raft_enclave/app_impl/in_memory_state_mgr.hxx:56-61 | what is stored after serialization and deserialization is the live term and vote |
| ServerNode.RaftServer.UpdateTermTo | raft_enclave/raft/src/raft_server.cxx:154-172 | exactly a newer term is taken over, with the vote cleared, the count reset, the pair saved and the role follower |
| ServerNode.RaftServer.TakeOffice | raft_enclave/raft/src/raft_server.cxx:104-115 | every peer restarts at the end of the log, free, its matched index kept |
| ServerNode.RaftServer.LogConfig | raft_enclave/raft/src/raft_server.cxx:117-124 | the unlogged configuration becomes a conf entry of the leader's term that names its own index and predecessor |
| ServerNode.RaftServer.BecomeLeaderNow | raft_enclave/raft/src/raft_server.cxx:104-127 | role, leader and peers are reset, an unlogged configuration is logged first, and then every peer is sent to |
| ServerNode.RaftServer.AskForVotes | raft_enclave/raft/src/raft_server.cxx:39-52 | every peer is asked once, with the term and index of the last entry |
| ServerNode.RaftServer.RequestVotes | raft_enclave/raft/src/raft_server.cxx:25-53 | the candidate's vote for itself is saved before anything is sent, and the only server of a cluster leads at once |
| ServerNode.RaftServer.HandleElectionTimeout | raft_enclave/raft/src/raft_server_handle_timeout.cxx:60-78 | a leader stops; anyone else saves the next term without a vote, stands, and saves the vote for itself before asking |
| ServerNode.RaftServer.AnswerVote | raft_enclave/raft/src/raft_server_handle_req.cxx:116-137 | a vote is granted, saved and answered exactly by the voting rule |
| ServerNode.RaftServer.CheckLog | raft_enclave/raft/src/raft_server_handle_req.cxx:50-52 | true exactly at index 0 or at a slot of the log whose term the request names |
| ServerNode.RaftServer.TakeEntries | raft_enclave/raft/src/raft_server_handle_req.cxx:58-107 | the store ends up with the merged log |
| ServerNode.RaftServer.AnswerAppend | raft_enclave/raft/src/raft_server_handle_req.cxx:23-114 | older terms and gaps are refused with the follower's next slot; otherwise the log becomes the merge, the sender the leader, the commit index the request's, and the answer names the request's end; a leader of the same term stops |
| ServerNode.RaftServer.ProcessRequest | raft_enclave/raft/src/raft_server_public.cxx:40-58 | a newer term is taken over and saved before the request is looked at, then the request is answered in that term |
| ServerNode.RaftServer.TakeClientEntries | raft_enclave/raft/src/raft_server_handle_req.cxx:167-174 | the client's entries, of whatever kind, are appended in order with the leader's term |
| ServerNode.RaftServer.HandleClient | raft_enclave/raft/src/raft_server_handle_req.cxx:139-180 | only a leader accepts, and one with peers only if its remembered or new look at their answers is in time; then it sends to all |
| Lease.Clock.constructor | raft_enclave/raft/src/raft_server_handle_req.cxx:141 | nothing has been seen yet: longer ago than any limit |
| Lease.Clock.Check | raft_enclave/raft/src/raft_server_handle_req.cxx:143-161 | the times are sorted and looked at only while the remembered outcome is too old |
| Lease.LookIsMajority | raft_enclave/raft/src/raft_server_handle_req.cxx:146-154 | below 2^31 milliseconds a look passes if and only if a strict majority, counting this server, has answered within the limit; from there on none has |
| Lease.LookPasses | raft_enclave/raft/src/raft_server_handle_req.cxx:154-157 | for every age and limit a look passes exactly by the low 32 bits of the age |
| Lease.AnsweredSince | raft_enclave/raft/src/raft_server_handle_req.cxx:146-154 | a majority has answered since a time if and only if the middle one of the peers has |
| Lease.NeverAnswered | raft_enclave/raft/src/raft_server_handle_req.cxx:146-157 | when a majority has never answered, no look is in time, and whether it passes depends on the clock alone, with the exact condition |
| Lease.GrantedExactly | raft_enclave/raft/src/raft_server_handle_req.cxx:141-161 | over any series of looks a client is let in if and only if this or any earlier look passes: a pass is never revoked |
| Lease.LeaseExact | raft_enclave/raft/src/raft_server_handle_req.cxx:143-161 | letting a client in implies a recent majority if and only if no look has passed before |
| Lease.CutShort | raft_enclave/raft/src/raft_server_handle_req.cxx:154 | the cut to 32 bits lets a leader pass whose peer has never answered |
| ServerNode.RaftServer.CountResponse | raft_enclave/raft/src/raft_server_handle_resp.cxx:73-104 | outdated, late and repeated votes are ignored, and the deciding one makes a leader |
| ServerNode.RaftServer.QuorumTarget | raft_enclave/raft/src/raft_server_handle_resp.cxx:123-133 | filling the list in any order, sorting and indexing yields the one majority index |
| ServerNode.ListMatched | raft_enclave/raft/src/raft_server_handle_resp.cxx:127-130 | the list holds every peer's matched index once |
| ServerNode.RaftServer.NoteAccepted | raft_enclave/raft/src/raft_server_handle_resp.cxx:113-151 | progress is noted, the majority index committed, and the peer served again while something is pending |
| ServerNode.RaftServer.NoteRefused | raft_enclave/raft/src/raft_server_handle_resp.cxx:135-150 | the peer's next index jumps to the one it named if that is nearer the front, otherwise back by one, and a leader tries again |
| ServerNode.RaftServer.HandleResponse | raft_enclave/raft/src/raft_server_handle_resp.cxx:23-71 | an append answer frees its peer whatever its term, a newer term makes a follower and ends the handling, everything else goes to the handler of its kind |
| ServerNode.RaftServer.HandleHeartbeat | raft_enclave/raft/src/raft_server_handle_timeout.cxx:90-107 | only a leader sends |
| ServerNode.RaftServer.ApplyOne | raft_enclave/raft/src/raft_server.cxx:662-685 | the next committed entry is applied; a newer configuration makes its other members the peers, with the records of the known ones, and is taken over unless it does not list this server; one that cannot be read stops the thread after its entry was counted |
| LogMerge.MergeMeans | raft_enclave/raft/src/raft_server_handle_req.cxx:58-105 | agreeing requests change nothing, longer ones extend the log, and entries are dropped only from a conflict of terms on |
| LogMerge.MergedTerms | raft_enclave/raft/src/raft_server_handle_req.cxx:58-105 | the slots of the request end up with its terms |
| LogMerge.SkipAgreeing | raft_enclave/raft/src/raft_server_handle_req.cxx:59-69 | the first loop stops at the first conflict or end, with the rest of the merge still to do |
| LogMerge.Overwrite | raft_enclave/raft/src/raft_server_handle_req.cxx:71-92 | the second loop truncates at the conflict and leaves only appending |
| LogMerge.AppendRest | raft_enclave/raft/src/raft_server_handle_req.cxx:94-104 | the third loop appends the remaining entries in order |
| LogMerge.MergeEntries | raft_enclave/raft/src/raft_server_handle_req.cxx:58-105 | the three loops over the truncating store compute one simple merge, for any start index |
| LogStore.KeyCount | raft_enclave/app_impl/in_memory_log_store.hxx:51-55 | the number of slots gives the first free index |
| LogStore.TruncatedContiguous | raft_enclave/app_impl/in_memory_log_store.hxx:99-109 | a truncating write keeps the slots contiguous if and only if it is inside the log, right behind it, or at the dummy |
| LogStore.CompactedContiguous | raft_enclave/app_impl/in_memory_log_store.hxx:247-262 | a compaction keeps the slots contiguous if and only if it does not move the start back, or the store is empty |
| LogStore.Store.constructor | raft_enclave/app_impl/in_memory_log_store.hxx:40-42 | a new store is empty and starts at 1 |
| LogStore.Store.NextSlot | raft_enclave/app_impl/in_memory_log_store.hxx:51-55 | the first free index is the start plus the length of the modelled sequence |
| LogStore.Store.TermAtIndex | raft_enclave/app_impl/in_memory_log_store.hxx:161-172 | the modelled entry's term, or 0 outside the log |
| LogStore.Store.EntryAt | raft_enclave/app_impl/in_memory_log_store.hxx:142-153 | a new object with the whole modelled payload and its cursor at the front, or the dummy's |
| LogStore.Store.LastEntry | raft_enclave/app_impl/in_memory_log_store.hxx:69-79 | the same for the last entry |
| LogStore.Store.Append | raft_enclave/app_impl/in_memory_log_store.hxx:85-92 | the sequence grows by what the entry's cursor had left; the entry itself is not shared |
| LogStore.Store.WriteAt | raft_enclave/app_impl/in_memory_log_store.hxx:99-109 | inside the log or right behind it the sequence is cut at the index and the entry put there; anywhere else exactly then a gap is left |
| LogStore.Store.DropFrom | raft_enclave/app_impl/in_memory_log_store.hxx:102-107 | exactly the slots from the index on are erased |
| LogStore.Store.LogEntries | raft_enclave/app_impl/in_memory_log_store.hxx:117-135 | copies of exactly the requested range, in order |
| LogStore.Store.SerializeAll | raft_enclave/app_impl/in_memory_log_store.hxx:181-195 | every entry in a buffer of its own, the total size, and the store unchanged although payloads are rewound |
| LogStore.Store.Pack | raft_enclave/app_impl/in_memory_log_store.hxx:180-208 | the pack's bytes are the format's for the requested range; refused exactly when they do not fit in a buffer |
| LogStore.WriteParts | raft_enclave/app_impl/in_memory_log_store.hxx:197-207 | count, sizes and items fill the buffer exactly |
| LogStore.ReadItem | raft_enclave/app_impl/in_memory_log_store.hxx:221-224 | one item is read as the format says and the pack's cursor stands behind it |
| LogStore.Store.StoreItems | raft_enclave/app_impl/in_memory_log_store.hxx:217-229 | the pack's entries land in consecutive slots, and a malformed pack is noticed |
| LogStore.Store.FirstKey | raft_enclave/app_impl/in_memory_log_store.hxx:231-239 | the least index behind the dummy |
| LogStore.Store.ApplyPack | raft_enclave/app_impl/in_memory_log_store.hxx:215-240 | the pack is laid over the sequence and what lies around it stays, wherever they touch; exactly otherwise a gap is left; an empty store starts where the pack does |
| LogStore.Store.Compact | raft_enclave/app_impl/in_memory_log_store.hxx:247-262 | the sequence loses its front and the start moves behind it, even when nothing was there; a gap is left exactly if the start of a log moves back |
| Entries.LogEntry.Clone | raft_enclave/app_impl/in_memory_log_store.hxx:265-271 | a copy shares no memory with the original and holds what its cursor had left |
| Entries.LogEntry.Serialize | raft_enclave/raft/include/contribution/log_entry.hxx:54-62 | the payload is rewound and the whole entry written in its format |
| Entries.LogEntry.Deserialize | raft_enclave/raft/include/contribution/log_entry.hxx:64-69 | the format's reading, in memory of its own |
| Buffers.HeaderReads | raft_enclave/raft/src/buffer.cxx:20-42 | for all contents and cursors the header's tag bit tells the layouts apart and size and cursor are read back |
| Buffers.Buffer.constructor | raft_enclave/raft/src/buffer.cxx:56-66 | a block of the given size with the cursor at 0, in the layout its size demands |
| Buffers.Buffer.Alloc | raft_enclave/raft/src/buffer.cxx:51-67 | refused exactly from 2^31 bytes on |
| Buffers.Buffer.Size | raft_enclave/raft/src/buffer.cxx:76-78 | the number of bytes of contents, which no operation changes |
| Buffers.Buffer.GetPos | raft_enclave/raft/src/buffer.cxx:80-82 | the cursor |
| Buffers.Buffer.SetPos | raft_enclave/raft/src/buffer.cxx:133-136 | the cursor moves, but not past the end; contents and tag stay |
| Buffers.Buffer.MoveForward | raft_enclave/raft/src/buffer.cxx:30-35 | the cursor advances within the block and the tag stays |
| Buffers.Buffer.GetInt | raft_enclave/raft/src/buffer.cxx:88-103 | a signed 32-bit value, or an error that leaves the cursor, as the format says |
| Buffers.Buffer.GetULong | raft_enclave/raft/src/buffer.cxx:105-120 | an unsigned 64-bit value, or an error |
| Buffers.Buffer.GetByte | raft_enclave/raft/src/buffer.cxx:122-131 | a byte, or an error |
| Buffers.Buffer.GetStr | raft_enclave/raft/src/buffer.cxx:138-150 | the string before the next NUL; nothing for an empty or unterminated one, with the cursor left |
| Buffers.Buffer.Get | raft_enclave/raft/src/buffer.cxx:202-206 | the room left in the target is filled from the cursor on |
| Buffers.Buffer.PutByte | raft_enclave/raft/src/buffer.cxx:152-160 | one byte at the cursor, the rest untouched, refused when there is no room |
| Buffers.Buffer.PutInt | raft_enclave/raft/src/buffer.cxx:162-173 | the two's complement bytes at the cursor, the rest untouched |
| Buffers.Buffer.PutULong | raft_enclave/raft/src/buffer.cxx:175-186 | the little-endian bytes at the cursor |
| Buffers.Buffer.PutStr | raft_enclave/raft/src/buffer.cxx:188-200 | the string and a NUL at the cursor |
| Buffers.Buffer.PutBuffer | raft_enclave/raft/src/buffer.cxx:208-221 | what the source has left, with the source's cursor unmoved |
| Buffers.Buffer.Copy | raft_enclave/raft/src/buffer.cxx:69-74 | a new block with what the source has left, read from its front |
| Bytes.PutIntByte | raft_enclave/raft/src/buffer.cxx:168-170 | the arithmetic shifts of a negative number write its two's complement |
| Bytes.IntRoundTrip | raft_enclave/raft/src/buffer.cxx:88-173 | put then get is the identity on all signed 32-bit values |
| Bytes.ULongRoundTrip | raft_enclave/raft/src/buffer.cxx:105-186 | put then get is the identity on all unsigned 64-bit values |
| Bytes.StrRoundTrip | raft_enclave/raft/src/buffer.cxx:138-200 | a string is read back if and only if it is not empty and holds no NUL |
| Codec.SrvRoundTrip | raft_enclave/raft/include/srv_config.hxx:41-53 | a server entry is read back if and only if its endpoint is readable, and the reader stops at its end |
| Codec.ServersRoundTrip | raft_enclave/raft/include/cluster_config.hxx:79-94 | the same for any list of servers |
| Codec.ConfigRoundTrip | raft_enclave/raft/include/cluster_config.hxx:66-97 | the same for a configuration, whatever follows it |
| Codec.SnapshotRoundTrip | raft_enclave/raft/include/contribution/snapshot.hxx:48-65 | the same for a snapshot header |
| Codec.SyncRoundTrip | raft_enclave/raft/include/contribution/snapshot_sync_req.hxx:41-65 | a snapshot block is read back if and only if all endpoints are readable, three formats deep |
| Codec.EntryRoundTrip | raft_enclave/raft/include/contribution/log_entry.hxx:54-69 | a log entry is read back |
| Codec.PackRoundTrip | raft_enclave/app_impl/in_memory_log_store.hxx:180-229 | a pack of any number of entries is read back |
| Codec.StateRoundTrip | raft_enclave/raft/include/srv_state.hxx:40-52 | term and vote are read back, the vote for nobody included |
| Codec.EntriesRoundTrip | raft_enclave/port/msg_serializer.cxx:63-75 | the entry loop uses up the data exactly and yields the entries |
| Codec.ReqRoundTrip | raft_enclave/port/msg_serializer.cxx:15-78 | splitting a request's bytes at 45 and reading both parts gives the request back, for any list of entries |
| Codec.RespRoundTrip | raft_enclave/port/msg_serializer.cxx:80-104 | a response takes 26 bytes and is read back |
| Serializer.SerializeSrv | raft_enclave/raft/include/srv_config.hxx:41-47 | the bytes are the format's; refused exactly when they do not fit in a buffer |
| Serializer.DeserializeSrv | raft_enclave/raft/include/srv_config.hxx:49-53 | the format's reading, with the cursor behind it |
| Serializer.SerializeConfig | raft_enclave/raft/include/cluster_config.hxx:66-85 | the two loops write the format's bytes |
| Serializer.DeserializeConfig | raft_enclave/raft/include/cluster_config.hxx:87-97 | the format's reading, with the cursor behind it |
| Serializer.ReadConfig | raft_enclave/raft/src/raft_server.cxx:213-214 | the configuration that a stored entry holds, and that it can be written again |
| Serializer.DeserializeServers | raft_enclave/raft/include/cluster_config.hxx:92-94 | the counting loop reads as many servers as announced, none for a count below one |
| Serializer.SerializeSnapshot | raft_enclave/raft/include/contribution/snapshot.hxx:48-57 | the format's bytes |
| Serializer.DeserializeSnapshot | raft_enclave/raft/include/contribution/snapshot.hxx:59-65 | the format's reading, with the cursor behind it |
| Serializer.SerializeSync | raft_enclave/raft/include/contribution/snapshot_sync_req.hxx:41-50 | the format's bytes, with what the block's cursor has left |
| Serializer.DeserializeSync | raft_enclave/raft/include/contribution/snapshot_sync_req.hxx:52-65 | the format's reading, with the block in memory of its own |
| Serializer.SerializeState | raft_enclave/raft/include/srv_state.hxx:40-46 | the format's twelve bytes |
| Serializer.DeserializeState | raft_enclave/raft/include/srv_state.hxx:48-52 | the format's reading |
| Serializer.SerializeResp | raft_enclave/port/msg_serializer.cxx:80-92 | the format's bytes |
| Serializer.DeserializeResp | raft_enclave/port/msg_serializer.cxx:94-104 | the format's reading of the whole buffer |
| Serializer.SerializeEntries | raft_enclave/port/msg_serializer.cxx:17-29 | each entry in a buffer of its own and their total size, even if entries share a payload |
| Serializer.SerializeReq | raft_enclave/port/msg_serializer.cxx:15-47 | the format's bytes; refused exactly when they do not fit in a buffer |
| Serializer.ReadEntries | raft_enclave/port/msg_serializer.cxx:64-74 | the loop reads entries until the data is used up, or notices that it is malformed |
| Serializer.DeserializeReq | raft_enclave/port/msg_serializer.cxx:49-78 | the format's reading of both buffers, the second possibly missing |
| Membership.Reconfigure | raft_enclave/raft/src/raft_server.cxx:350-433 | for any peers and any configuration, either this server is not listed and stops, or its peers are exactly the other members, old ones untouched |
| Membership.FindAdded | raft_enclave/raft/src/raft_server.cxx:358-366 | the members that are neither known nor this server |
| Membership.FindRemoved | raft_enclave/raft/src/raft_server.cxx:368-379 | the peers that are not listed, and this server last if it is not |
| Membership.AddPeers | raft_enclave/raft/src/raft_server.cxx:381-409 | new peers start at the end of the log, the joining one at its own index; repeated entries do nothing |
| Membership.RemovePeers | raft_enclave/raft/src/raft_server.cxx:411-430 | every unlisted peer is gone before this server itself is looked at |
| Membership.GetServer | raft_enclave/raft/include/cluster_config.hxx:56-64 | found if and only if listed |
| Membership.SamePeers | raft_enclave/raft/src/raft_server.cxx:350-433 | a configuration with the same members leaves every peer as it was |
| ConfigWalk.WalkFinds | raft_enclave/raft/src/raft_server.cxx:210-235 | on a linked chain the walk ends at the newest configuration that is not newer than the index if the log holds one, and otherwise at one whose predecessor lies before the log |
| ConfigWalk.InForceUnique | raft_enclave/raft/src/raft_server.cxx:210-215 | only one configuration is in force at an index |
| ConfigWalk.ChoosesInForce | raft_enclave/raft/src/raft_server.cxx:210-235 | what is chosen is the configuration in force wherever one is |
| ConfigWalk.FindConfig | raft_enclave/raft/src/raft_server.cxx:210-235 | on a linked chain the loop returns the one configuration in force, and only without one the last snapshot's or nothing; on any other descending chain the walk's end, or nothing at an entry that cannot be read |
| CatchUp.SyncRound | raft_enclave/raft/src/raft_server.cxx:458-468 | a pack made from one store, sent as bytes and applied to another extends the newcomer's log by exactly the leader's next entries |
| CatchUp.PrefixAlways | raft_enclave/raft/src/raft_server_handle_req.cxx:297-314 | over every run with late and repeated packs and answers and a growing leader, the newcomer's log is a prefix of what the leader has committed and its commit index is not ahead |
| CatchUp.NothingBlocks | raft_enclave/raft/src/raft_server_handle_resp.cxx:211-219 | in every such state each answer can be acted on and each pack applied |
| CatchUp.Round | raft_enclave/raft/src/raft_server.cxx:440-471 | a round shrinks the gap by the batch, and strictly if and only if gap and batch are positive |
| CatchUp.Finishes | raft_enclave/raft/src/raft_server.cxx:440-456 | with a stop gap of at least 1 and a fixed commit index, at most one round per missing entry ends the catch-up |
| CatchUp.StepKeepsBehind | raft_enclave/raft/src/raft_server.cxx:462-463 | whatever happens, a newcomer that lacks the last committed entry goes on lacking it, and no pack holds it |
| CatchUp.Stalls | raft_enclave/raft/src/raft_server.cxx:442-463 | with a stop gap of 0 no sequence of events from the start, with a growing log or not, ends the catch-up |
| CatchUp.StopGapExact | raft_enclave/raft/src/raft_server.cxx:442-456 | the catch-up can end if and only if the stop gap is at least 1 |
| CatchUp.DoneExact | raft_enclave/raft/src/raft_server.cxx:442-443 | for every commit index the leader stops exactly by the low 32 bits of the gap |
| CatchUp.EndsTooSoon | raft_enclave/raft/src/raft_server.cxx:442-443 | with more than 2^31 committed entries the catch-up can end before the newcomer has any, whatever the stop gap |
| SnapshotTransfer.BlocksTile | raft_enclave/raft/src/raft_server_handle_req.cxx:384-401 | accepted blocks tile the snapshot without gap, and the done block is the one that completes the file |
| SnapshotTransfer.RetryIdempotent | raft_enclave/raft/src/raft_server_handle_req.cxx:398-400 | writing a block again changes nothing |
| SnapshotTransfer.AnswersAdvance | raft_enclave/raft/src/raft_server_handle_resp.cxx:163-181 | every answer finishes the transfer or strictly reduces the bytes left |
| SnapshotTransfer.FinishedMeansSaved | raft_enclave/raft/src/raft_server_handle_resp.cxx:170-176 | when the sender is done the receiver has saved exactly its bytes |
| SnapshotTransfer.StuckRun | raft_enclave/raft/src/raft_server_handle_req.cxx:385-389 | one byte, one block, one lost answer: the receiver has the snapshot and the sender is stuck |
| SnapshotTransfer.FinishExact | raft_enclave/raft/src/raft_server_handle_resp.cxx:163-184 | in every reachable state the transfer can finish without another snapshot if and only if it is not stuck |
| SnapshotTransfer.LastAnswerDecides | raft_enclave/raft/src/raft_server_handle_req.cxx:385-393 | once the last block of the latest snapshot is applied, the transfer can finish if and only if its answer arrives |
| SnapshotTransfer.NewerHelps | raft_enclave/raft/src/raft_server.cxx:517-540 | a stuck transfer can finish again once the leader has a newer snapshot, which it sends from the beginning |

## Left out

- CommitSafety.StateMachineSafety: for guarded runs; no condition of the guard can be dropped, but an unguarded commit may happen to be harmless in a particular run.
- CommitSafety.GuardedRunCommits: for guarded runs only, see above.
- Safety.LeaderCompleteness: takes the entry's own term and acknowledgements of that term as hypotheses, because the code's commit rule checks neither.
- ServerNode.RaftServer.HandleElectionTimeout: requires the next term to fit in 64 bits; terms and indexes of the protocol model do not wrap.
- Protocol: a run applies no configuration with other members; `ServerNode.RaftServer.ApplyOne` and `Membership` cover those for one server.
- ServerNode.RaftServer.constructor: requires a store that starts at 1; compaction is not part of the cluster model.
- Cluster.Fleet.Apply: requires that the next entry is not a configuration with other members, as `Protocol` does.
- ServerNode.RaftServer.HandleClient: the clock and the times of the peers' last answers are parameters.
- LogStore.Store.WriteAt: requires an index of at least 1, as the interface of the store does.
- LogStore.Store.LogEntries: requires the range to lie in the log, which the original asserts.
- LogStore.Store.Pack: requires the range to lie in the log, which the original asserts.
- LogStore.Store.ApplyPack: requires an index of at least 1, as the interface does; a negative count in a pack is read as zero, and a copy that would run past the end of the pack, which the code does not check, counts as malformed.
- LogStore.ReadItem: a copy past the end of the pack counts as malformed.
- Serializer.DeserializeReq: the same unchecked copy counts as a malformed request.
- Buffers.Buffer.Get: requires that the source holds what it is asked for, because the copy is unchecked.
- ConfigWalk.FindConfig: requires that no configuration points behind the log or at one that is not older; on a chain that points forward the original need not terminate.
- CatchUp.SyncRound: requires terms below 2^64, like every serialized number.
- CatchUp.StopGapExact: like `Round`, `Finishes` and `Stalls`, for commit indexes below 2^31; beyond, the gap does not fit in its 32 bits, and `CatchUp.DoneExact` and `EndsTooSoon` say what happens.
- Joining and leaving inside the cluster model: joining resets term, vote and commit indexes while keeping the log, so the safety theorems do not extend across it.
- Compaction and snapshots inside the cluster model; they are covered by the log store, the transfer and the configuration walk.
- A server's id is never -1, which stands for "nobody".
- That the memory of a server which stops at an error exit has no influence: the server may also go on, and then it has.
- Notices to the state machine (`pre_commit`, `rollback`), the flag for a pending configuration change, the step-down countdown, and logging.
- A refused log-sync answer (next index 0), which the leader does not tell from an accepted one.
- Timers, locks, sockets, RPC sessions, enclave set-up, attestation, TLS and key handling.
