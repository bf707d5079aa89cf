# Verified models of alopex-chirps

Dafny models of the parts of the alopex-chirps workspace whose correctness is a matter of
whole runs rather than of single calls, with machine-checked proofs: every
statement below is proved by the verifier for all inputs, all runs or all interleavings it
quantifies over.

`dafny verify dfyconfig.toml` checks the whole project.

| file | models |
|---|---|
| `Retransmit.dfy`, `Delivery.dfy` | deduplication table, retransmission buffer, and two nodes over a network that loses, duplicates and reorders |
| `Scheduler.dfy`, `Qos.dfy` | the deficit-weighted round-robin scheduler and the QoS controller above it |
| `Minimizer.dfy`, `SimNetwork.dfy` | the fault-schedule minimizer and the deterministic network simulator |
| `SnapshotTransfer.dfy` | chunking and out-of-order reassembly of snapshots |
| `StorageCodec.dfy` | the snapshot file format and WAL record framing |
| `RaftLog.dfy`, `LogCache.dfy`, `WalStorage.dfy`, `WalRaftStorage.dfy` | the Raft log in the WAL, its LRU cache, the storage over both, and recovery |
| `Durability.dfy` | the leader/waiter durability barrier, as steps of concurrent sinks |
| `Hlc.dfy`, `Gossip.dfy`, `GossipEngine.dfy`, `GossipOrders.dfy` | hybrid logical clocks, SWIM membership, and what the order of arrival does to it |
| `Bandwidth.dfy` | the token-bucket throttle |
| `PublishOrder.dfy` | the layered publish order with cycle detection |

## How the models are built

Where the source updates objects in place there is a class with the same fields and loops.
Each of its methods is proved to do what a function on values says (`View() == F(old(View()))`),
and the run-level theorems are about those functions, over sequences of operations. Where
threads interleave, each lock-protected block or atomic access is one step of a state
machine, and a schedule may name any step at any time. Machine integers are unbounded
naturals with saturation, wrap-around and overflow checks written out where they matter.
Clock readings, hash and checksum functions and state-machine answers are parameters.

## Where the code and its description differ

The models follow the code.

- `Truncate(i)` keeps index `i` itself (crates/chirps-raft-storage/src/wal_storage.rs:658-668).
- An installed snapshot removes old entries from the WAL scan but not from the cache, so a read at or below the snapshot can return more than the log (`WalStorage.CacheOutlivesSnapshot`; `WalStorage.FoundIsLog` gives the exact condition).
- A waiter released by a durability barrier is told Ok even if its append came after the leader had passed its file (`Durability.WaiterCanBeMissed`). What it is told is the result of the last barrier to finish, so it can also be told Ok of a later barrier when the one it joined failed and lost its file (`Durability.WaiterIsToldOfALaterBarrier`). `Durability.WaiterGuarantee` gives the exact condition for its records to be durable when it is told Ok, over every schedule.
- After a failing sync the files later in the leader's list stay marked clean, so a later barrier can return Ok without them, even to the sink whose own append it is (`Durability.FailureCanLoseAnAppend`). `Durability.OkIffNotLost` and `Durability.LeaderSyncsItself` give the exact condition over every schedule: no failing sync has lost the file, `Lost` being read off the schedule.
- `dequeue` of the scheduler can return None while messages wait (`Scheduler.NoneWhileWaiting`), exactly when no class can pay for its head (`Scheduler.NoneIffNothingAffordable`).
- `DeduplicationTable::default()` has a window of zero, unlike `new()`, and then accepts nothing (`Delivery.ZeroWindowNeverCatchesUp`).
- One wait computed by `missing_wait` can be too short for a single token (`Bandwidth.OneWaitMayNotBeEnough`; `Bandwidth.OneWaitIsEnoughIff` gives the exact condition); two never are.
- `last_log_id` reads the cache only, so after an eviction it can name an earlier entry than the log's last (`WalStorage.LastLogIdCanLag`), and after an installed snapshot one that has left the log (`WalStorage.CacheOutlivesSnapshot`); `WalStorage.LastCachedIsLast` gives the exact condition.
- A kind refused while it holds no frame is refused for good, because only a dequeue of that kind clears the flag; one frame of 90% of a limit offered to an empty kind does it (`Qos.OversizedFrameLocksOut`). `Qos.RecoversIffHeld` gives the exact condition.
- Timestamped gossip does not converge as plain gossip does, because an event stamped before the latest one of its peer is dropped whatever it claims (`GossipOrders.StampsCanDiverge`; `GossipOrders.OrdersAgreeIff` gives the exact condition).
- At the last representable timestamp the clock falls back instead of moving on, and an engine can emit an envelope that every receiver refuses (`GossipRuns.LimitBreaksEnvelopes`; `GossipRuns.EnvelopesAreWellStamped` gives the exact condition).
- The byte counter of the retransmission buffer saturates and is not exact after that (`Retransmit.PushExactIff`); `Delivery.BytesStayExact` says when it never happens.

## Model

| member | source | states |
|---|---|---|
| Retransmit.AdvanceMeaning | crates/chirps-transport-quic/src/retransmit.rs:60-78 | Moving the boundary over held numbers changes which numbers count as accepted not at all, and never moves the boundary back. |
| Retransmit.ObserveMeaning | crates/chirps-transport-quic/src/retransmit.rs:60-78 | A number is accepted if and only if it is positive, not accepted before and within the window; nothing else enters or leaves the accepted set. |
| Retransmit.Canonical | crates/chirps-transport-quic/src/retransmit.rs:22-78 | A table entry is determined by its accepted set, so the cumulative boundary is always as large as it can be. |
| Retransmit.DeduplicationTable.CheckAndUpdate | crates/chirps-transport-quic/src/retransmit.rs:60-78 | The loop over the ordered set answers newness and leaves exactly the observed state of that peer, others untouched. |
| Retransmit.DeduplicationTable.LastSeen | crates/chirps-transport-quic/src/retransmit.rs:80-85 | The boundary reported for acknowledgement is the contiguous one, zero for an unknown peer. |
| Retransmit.PushValid | crates/chirps-transport-quic/src/retransmit.rs:154-195 | Buffering keeps the numbers one gap-free increasing run that ends at the last number issued, and the byte counter never above the buffered bytes. |
| Retransmit.PushExactIff | crates/chirps-transport-quic/src/retransmit.rs:154-195 | Buffering keeps an exact byte counter exact if and only if the addition does not saturate. |
| Retransmit.ExpireMeaning | crates/chirps-transport-quic/src/retransmit.rs:255-295 | Expiry drops only expired messages, from the front, and stops at the first that is not. |
| Retransmit.ShrinkMeaning | crates/chirps-transport-quic/src/retransmit.rs:255-295 | The limit loop leaves a suffix that is within both limits or empty, and drops a message only while a limit is broken with it still in front, so no more than the limits need. |
| Retransmit.TrimMeaning | crates/chirps-transport-quic/src/retransmit.rs:255-295 | Both together leave a suffix within the limits from which all expired messages in front are gone, and every message dropped had expired or stood in front of a broken limit. |
| Retransmit.TrimExact | crates/chirps-transport-quic/src/retransmit.rs:255-295 | With an exact counter it stays exact, what is left has at most the configured bytes and messages, and what was dropped had expired or broke them. |
| Retransmit.AcknowledgeMeaning | crates/chirps-transport-quic/src/retransmit.rs:198-226 | Popping from the front removes exactly the acknowledged numbers, because the numbers form a run. |
| Retransmit.AcknowledgeKeepsExact | crates/chirps-transport-quic/src/retransmit.rs:198-226 | Acknowledgement subtracts from an exact counter the bytes it removes. |
| Retransmit.UnackedIsSuffix | crates/chirps-transport-quic/src/retransmit.rs:229-252 | What a drain returns is one suffix of the buffer, so it replays in order without gaps. |
| Retransmit.RetransmissionBuffer.BufferWithSize | crates/chirps-transport-quic/src/retransmit.rs:154-195 | The next number is returned and its message buffered and trimmed, or the number space is exhausted. |
| Retransmit.RetransmissionBuffer.ProcessAck | crates/chirps-transport-quic/src/retransmit.rs:198-226 | The acknowledged prefix goes, the count of removed messages is exact, and an unknown peer changes nothing. |
| Retransmit.RetransmissionBuffer.HandleOverflow | crates/chirps-transport-quic/src/retransmit.rs:255-295 | The two trimming loops leave the trimmed buffer and count what they dropped. |
| Retransmit.RetransmissionBuffer.DrainForRetransmit | crates/chirps-transport-quic/src/retransmit.rs:229-252 | The trimmed buffer's unacknowledged messages come back in order and stay buffered. |
| Delivery.RunKeepsInv | crates/chirps-transport-quic/src/receive.rs:115-147 | Every send, drain, emission, receive, acknowledgement and hand-up, in any interleaving on either side, keeps the two-party invariant. |
| Delivery.TwoPartyDelivery | crates/chirps-transport-quic/src/lib.rs:1675-1696 | In every run each number issued is accepted, still buffered or was evicted; the sender's acked boundary never passes the receiver's; no number is handed up twice; and the frame handed up is the one buffered under that number. |
| Delivery.EvictionsHaveReasons | crates/chirps-transport-quic/src/retransmit.rs:154-295 | A number evicted in any run left the buffer at a step of it, before which it was not evicted, because its message had expired then or a limit was broken with it still in front. |
| Delivery.EvictedForAReason | crates/chirps-transport-quic/src/retransmit.rs:154-295 | From the start and for both sides, so the escape clause of two-party delivery is never taken without such a step. |
| Delivery.BytesStayExact | crates/chirps-transport-quic/src/retransmit.rs:154-295 | In every run whose sends fit above the byte limit in 64 bits, both byte counters equal the buffered bytes and are within the limit between any two steps. |
| Delivery.RunsMirror | crates/chirps-transport-quic/src/receive.rs:115-147 | Exchanging the two sides of a schedule exchanges the two sides of the run. |
| Delivery.ReconnectCatchesUp | crates/chirps-transport-quic/src/lib.rs:788-828 | Replaying a drain in order brings the receiver's boundary to the last number issued if and only if everything evicted had been accepted, for every non-zero window and whatever was accepted out of order. |
| Delivery.ZeroWindowNeverCatchesUp | crates/chirps-transport-quic/src/retransmit.rs:22-57 | With a zero window no replay changes the table. |
| Delivery.Endpoint.SendToPeer | crates/chirps-transport-quic/src/lib.rs:1675-1696 | The envelope carries the new number and the receive boundary of that peer, and only that peer's buffer changes. |
| Delivery.Endpoint.ProcessEnvelope | crates/chirps-transport-quic/src/receive.rs:115-147 | An unknown kind changes nothing; a duplicate neither acknowledges nor delivers; a new frame does both. |
| Delivery.Endpoint.ReplayOnReconnect | crates/chirps-transport-quic/src/lib.rs:788-828 | One envelope per unacknowledged message, in order, all with one boundary reading. |
| Scheduler.PriorityScheduler.Enqueue | crates/chirps-transport-quic/src/priority.rs:80-89 | The message joins the end of its class queue with its class label; nothing else changes. |
| Scheduler.PriorityScheduler.Dequeue | crates/chirps-transport-quic/src/priority.rs:92-154 | The loop over classes, quantum grants, burst limit and deficits returns and leaves exactly what the dequeue function says. |
| Scheduler.ReachableIsValid | crates/chirps-transport-quic/src/priority.rs:69-154 | Every state reachable from `new` meets the scheduler invariant, whatever is put in. |
| Scheduler.ClassIsFifo | crates/chirps-transport-quic/src/priority.rs:80-154 | In every run, each class's output followed by its queue equals its initial queue followed by what was put in. |
| Scheduler.StarvationFree | crates/chirps-transport-quic/src/priority.rs:92-154 | While a class head of size s waits, under arbitrary arrivals, at most max(1, ceil(s/Q)) times the other classes' bursts come out and at most ceil(s/Q) calls return None. |
| Scheduler.QueueDrains | crates/chirps-transport-quic/src/priority.rs:92-154 | In every run with enough calls, a bound computed from the sizes in the queue alone, the whole queue of a class comes out in order, however many messages arrive meanwhile. |
| Scheduler.ZeroQuantumStarves | crates/chirps-transport-quic/src/priority.rs:92-154 | With a zero quantum a head its counter does not cover is never returned, so the positive quantum is needed. |
| Scheduler.IsWeightedRoundRobin | crates/chirps-transport-quic/src/priority.rs:92-154 | When every message fits the quantum and weights are positive, every run returns, call by call, what plain weighted round robin by message count returns. |
| Scheduler.FairNeverIdles | crates/chirps-transport-quic/src/priority.rs:92-154 | Such a scheduler returns None if and only if it is empty. |
| Scheduler.NoneIffNothingAffordable | crates/chirps-transport-quic/src/priority.rs:92-154 | In every state and for every configuration a call returns None if and only if no waiting head fits its class counter and the quantum due to it; otherwise it returns the head of the first class in rotation that does. |
| Scheduler.NoneWhileWaiting | crates/chirps-transport-quic/src/priority.rs:32-43 | With the default configuration one message of 1025 bytes in the lowest class makes the first call return None. |
| Qos.QosController.Enqueue | crates/chirps-transport-quic/src/qos.rs:93-192 | The hard and soft limits, hysteresis flag, counters and scheduler change exactly as the offer function says, and stay consistent. |
| Qos.QosController.Dequeue | crates/chirps-transport-quic/src/qos.rs:195-213 | The dequeued frame leaves its own kind's counters, and the flag is cleared exactly under 80%. |
| Qos.CountersStayConsistent | crates/chirps-transport-quic/src/qos.rs:93-213 | In every reachable state each kind's item and byte counters equal what the shared scheduler holds for it and are under 90% of both limits. |
| Qos.RefusedUntilRecovery | crates/chirps-transport-quic/src/qos.rs:105-192 | Once a kind is refused, every later offer of it is refused until a dequeue of that kind leaves it under 80%. |
| Qos.BackpressureHolds | crates/chirps-transport-quic/src/qos.rs:105-213 | The flag alone has that effect over every run without a recovering dequeue, and survives it. |
| Qos.RecoveryReadmits | crates/chirps-transport-quic/src/qos.rs:195-213 | After a recovering dequeue an offer is accepted if and only if it stays under 90%. |
| Qos.LockedOutForever | crates/chirps-transport-quic/src/qos.rs:93-213 | A refused kind that holds no frame never recovers in any run. |
| Qos.OversizedFrameLocksOut | crates/chirps-transport-quic/src/qos.rs:105-213 | One frame refused while its kind holds nothing, and every later frame of that kind is refused, whatever its size and whatever is dequeued. |
| Qos.RecoveryComes | crates/chirps-transport-quic/src/qos.rs:93-213 | A refused kind that holds a frame recovers in every run with enough dequeues, a bound computed from the queue of its class, whatever is offered meanwhile. |
| Qos.RecoversIffHeld | crates/chirps-transport-quic/src/qos.rs:93-213 | A refused kind can recover if and only if it holds a frame. |
| Qos.KindIsFifo | crates/chirps-transport-quic/src/qos.rs:93-213 | In every run the frames of one kind leave in the order they were accepted and none is lost. |
| Minimizer.CutChunks | crates/chirps-mock/src/deterministic.rs:186-211 | The chunk phase terminates for every predicate, with its granularity doubling, and returns a failing sub-schedule. |
| Minimizer.RemoveRules | crates/chirps-mock/src/deterministic.rs:213-224 | The rule phase returns a failing sub-schedule from which no single rule can go. |
| Minimizer.RemoveEffects | crates/chirps-mock/src/deterministic.rs:226-243 | The effect phase keeps the rules in place and returns a failing schedule from which no single effect can go. |
| Minimizer.RuleMinimalSurvives | crates/chirps-mock/src/deterministic.rs:213-243 | For a monotone failure, rule-minimality survives the removal of effects. |
| Minimizer.MinimizeSchedule | crates/chirps-mock/src/deterministic.rs:177-245 | Terminates always; a passing schedule is unchanged; a failing one becomes a failing sub-schedule without a removable effect and, for monotone predicates, without a removable rule. |
| SimNetwork.EveryRunIsSafe | crates/chirps-mock/src/deterministic.rs:374-655 | In every run each scheduled copy has exactly one fate, nothing is delivered early, across a partition or to a changed generation, and deliveries on a link follow queue-key order. |
| SimNetwork.UndelayedLinkIsFifo | crates/chirps-mock/src/deterministic.rs:503-655 | On a link without delay or reorder faults, deliveries come in send order, copies in copy order, whatever is partitioned, healed, dropped or duplicated. |
| SimNetwork.DeliverNextProgress | crates/chirps-mock/src/deterministic.rs:459-472 | Each delivery shrinks the queue, and when there is none only partition-blocked copies are left. |
| SimNetwork.DeterministicNetwork.Enqueue | crates/chirps-mock/src/deterministic.rs:503-587 | A send by a current endpoint gets its occurrence number, fault effects and copies; any other send is refused without a change. |
| SimNetwork.DeterministicNetwork.DeliverKey | crates/chirps-mock/src/deterministic.rs:602-655 | One copy is left in place by a partition, or dropped, found stale, delivered, or failed. |
| SimNetwork.DeterministicNetwork.AdvanceBy | crates/chirps-mock/src/deterministic.rs:445-449 | The clock moves and the due copies are resolved in queue order until one fails; the invariant holds. |
| SimNetwork.DeterministicNetwork.DeliverNext | crates/chirps-mock/src/deterministic.rs:459-472 | The first copy that is not behind a partition is resolved at its due time. |
| SimNetwork.DeterministicNetwork.RunUntilIdle | crates/chirps-mock/src/deterministic.rs:451-457 | Terminates; without a failing send only partition-blocked copies remain; otherwise a copy failed. |
| SimNetwork.DeterministicNetwork.Add | crates/chirps-mock/src/deterministic.rs:374-409 | A node joins with generation zero or, on return, the next one, recorded as a reconnect. |
| SimNetwork.DeterministicNetwork.Close | crates/chirps-mock/src/deterministic.rs:754-765 | Only the current registration disconnects its node. |
| SimNetwork.DeterministicNetwork.Partition | crates/chirps-mock/src/deterministic.rs:411-422 | The link is partitioned and the event recorded, unless it already was. |
| SimNetwork.DeterministicNetwork.Heal | crates/chirps-mock/src/deterministic.rs:424-435 | The link is healed and the event recorded, if it was partitioned. |
| SnapshotTransfer.GenuineIsValid | crates/alopex-chirps/src/snapshot.rs:521-598 | Every built chunk is the right slice of the original and passes validation, for every valid manifest and index. |
| SnapshotTransfer.ChunksCover | crates/alopex-chirps/src/snapshot.rs:521-548 | Every byte of the snapshot lies in the chunk computed for it. |
| SnapshotTransfer.CountersStayExact | crates/alopex-chirps/src/snapshot.rs:444-472 | Whatever arrives, the counters equal the number and total size of the accepted chunks. |
| SnapshotTransfer.DeliveriesAreFaithful | crates/alopex-chirps/src/snapshot.rs:444-472 | After any honest stream, in any order with any duplication, received positions hold original bytes, and an index is marked if and only if it arrived. |
| SnapshotTransfer.ReassemblyIsExact | crates/alopex-chirps/src/snapshot.rs:81-102 | For every byte string and accepted chunk size, verification succeeds if and only if every index has arrived, and then returns the original bytes. |
| SnapshotTransfer.SnapshotReceiver.Open | crates/alopex-chirps/src/snapshot.rs:421-441 | A receiver is made if and only if the manifest is valid, with nothing received; every other manifest is refused. |
| SnapshotTransfer.SnapshotReceiver.Accept | crates/alopex-chirps/src/snapshot.rs:444-472 | A chunk is refused, ignored as a duplicate, or copied into place and counted. |
| SnapshotTransfer.SnapshotReceiver.IntoVerified | crates/alopex-chirps/src/snapshot.rs:474-518 | The identifier, completeness and digest checks come in the source's order with its errors. |
| LittleEndian.Le32RoundTrip | crates/chirps-raft-storage/src/wal_storage.rs:1232-1270 | Reading a little-endian word gives back every number that fits 32 bits. |
| SnapshotFile.Encode | crates/chirps-raft-storage/src/wal_storage.rs:1232-1270 | The encoder's loop over a growing buffer writes header, blocks and terminator as the format says. |
| SnapshotFile.Decode | crates/chirps-raft-storage/src/wal_storage.rs:1084-1188 | The decoder's loop over offsets gives the format's content, or its error. |
| SnapshotFile.RoundTrip | crates/chirps-raft-storage/src/wal_storage.rs:1084-1270 | For lengths that fit 32 bits and every chunk size, decoding the encoded file returns metadata and data if and only if the metadata is not empty. |
| SnapshotFile.PrefixFree | crates/chirps-raft-storage/src/wal_storage.rs:1084-1188 | Of two files, one a prefix of the other, both decode only if they are equal. |
| SnapshotFile.TornFilesAreRefused | crates/chirps-raft-storage/src/wal_storage.rs:1084-1270 | No strict prefix and no strict extension of an encoded file decodes. |
| SnapshotFile.StandardFiles | crates/chirps-raft-storage/src/wal_storage.rs:1084-1270 | Round trip and refusal, for the little-endian words the code writes and any 32-bit checksum. |
| WalFraming.Validate | crates/chirps-raft-storage/src/wal_storage.rs:828-857 | The framing check accepts exactly the files made of complete records with good checksums. |
| WalFraming.TornWal | crates/chirps-raft-storage/src/wal_storage.rs:336-343 | A prefix of a WAL file passes the framing check if and only if it ends on a record boundary. |
| WalFraming.StandardTornWal | crates/chirps-raft-storage/src/wal_storage.rs:336-343 | The same for the words the code writes. |
| RaftLog.RangeScanIsFilteredReplay | crates/chirps-raft-storage/src/wal_storage.rs:727-780 | Scanning the WAL for a range collects exactly that part of the fully replayed log. |
| RaftLog.LogHoldsSurvivors | crates/chirps-raft-storage/src/wal_storage.rs:736-771 | The replayed log holds an entry if and only if some record appended it and no later record replaced, truncated, purged or snapshotted it. |
| RaftLog.LogAboveFloor | crates/chirps-raft-storage/src/wal_storage.rs:761-769 | Snapshots hide entries only at or below the largest index they cover. |
| RaftLog.ListingLists | crates/chirps-raft-storage/src/wal_storage.rs:774-777 | Listing a log gives each of its entries once, by strictly increasing index. |
| LogCache.EvictKeepsRecent | crates/chirps-raft-storage/src/wal_storage.rs:640-649 | The eviction loop keeps exactly the capacity's worth of most recently used entries. |
| LogCache.InsertKeepsValid | crates/chirps-raft-storage/src/wal_storage.rs:640-656 | After an insert the order is a permutation of the cached indices and the cache is within any capacity, zero included. |
| LogCache.InsertIsMostRecent | crates/chirps-raft-storage/src/wal_storage.rs:640-656 | With room for one, the inserted entry is cached and most recent. |
| LogCache.TruncateKeepsValid | crates/chirps-raft-storage/src/wal_storage.rs:658-668 | Truncation keeps the order a permutation of the cached indices. |
| LogCache.PurgeKeepsValid | crates/chirps-raft-storage/src/wal_storage.rs:670-676 | Purging does too. |
| WalStorage.AppendsAreCounted | crates/chirps-raft-storage/src/wal_storage.rs:782-806 | The unsynced count is exact throughout an append, and with an interval never reaches it between entries. |
| WalStorage.RunsAgreeWithWal | crates/chirps-raft-storage/src/wal_storage.rs:912-1017 | Between operations of every run, restarts included, everything is synced, and vote, purge and snapshot state and the cache agree with the WAL. |
| WalStorage.RestartKeepsSettled | crates/chirps-raft-storage/src/wal_storage.rs:578-638 | A restart of a settled storage succeeds, and the reopened storage is settled again. |
| WalStorage.FoundMeaning | crates/chirps-raft-storage/src/wal_storage.rs:876-910 | A read finds an index if and only if it is in range and in the log or the cache, and above the floor only the log's entry. |
| WalStorage.FoundIsLog | crates/chirps-raft-storage/src/wal_storage.rs:876-910 | A read is the log in its range if and only if every cached index in the range is in the log, which always holds above the installed snapshots. |
| WalStorage.ReadsAreTheLog | crates/chirps-raft-storage/src/wal_storage.rs:876-910 | In every run, restarts included, and for every capacity, a read above the installed snapshots lists exactly the log in that range, sorted, each entry once. |
| WalStorage.ReadsOfAnyRange | crates/chirps-raft-storage/src/wal_storage.rs:876-910 | In every run a read of any range is sorted without duplicates and holds what scan or cache hold there. |
| WalStorage.AppendCaches | crates/chirps-raft-storage/src/wal_storage.rs:782-806 | With room in the cache, an appended entry is cached. |
| WalStorage.InstallLeavesCache | crates/chirps-raft-storage/src/wal_storage.rs:1031-1079 | After installing a snapshot on any storage, cached entries it covers are still read although the log no longer holds them. |
| WalStorage.CacheOutlivesSnapshot | crates/chirps-raft-storage/src/wal_storage.rs:1019-1079 | An append and an installed snapshot that covers it leave the log empty, and yet the entry is still read and is still reported as the last. |
| WalStorage.LastCachedIsLast | crates/chirps-raft-storage/src/wal_storage.rs:698-703 | The greatest cached entry is the last of the log if and only if that one is cached and no later one that a snapshot covers is; otherwise it is an earlier one or such a covered one. |
| WalStorage.EmptyLogLastId | crates/chirps-raft-storage/src/wal_storage.rs:698-703 | When the log is empty, everything cached is covered by an installed snapshot. |
| WalStorage.LastLogIdCanLag | crates/chirps-raft-storage/src/wal_storage.rs:698-703 | With room for one entry, appending any two and reading the first leaves the first as the greatest cached entry while the log ends with the second. |
| WalStorage.RecoveredAgrees | crates/chirps-raft-storage/src/wal_storage.rs:578-638 | Replaying a WAL fails if and only if a checkpoint's snapshot file is missing; otherwise the memory agrees with that WAL, also one cut at any record. |
| WalStorage.RecoveryRestores | crates/chirps-raft-storage/src/wal_storage.rs:578-638 | Recovery after any run restores vote, last purged id, snapshot metadata and path, applied state unless `apply` moved it, and every read above the snapshots. |
| StorageEngine.SortedReadIsFound | crates/chirps-raft-storage/src/wal_storage.rs:884-905 | Sorting the cached entries and the scanned ones not cached lists exactly what the read finds. |
| StorageEngine.WalRaftStorage.InsertEntry | crates/chirps-raft-storage/src/wal_storage.rs:640-649 | The eviction loop terminates, because the order lists exactly the cached indices, and does what the cache function says. |
| StorageEngine.WalRaftStorage.TouchCache | crates/chirps-raft-storage/src/wal_storage.rs:651-656 | The index moves to the most recent place if it is cached and leaves the order if not. |
| StorageEngine.WalRaftStorage.TruncateCache | crates/chirps-raft-storage/src/wal_storage.rs:658-668 | Entries above the index go, the index itself stays. |
| StorageEngine.WalRaftStorage.PurgeCache | crates/chirps-raft-storage/src/wal_storage.rs:670-676 | Entries up to and including the index go. |
| StorageEngine.WalRaftStorage.ReadEntriesFromWal | crates/chirps-raft-storage/src/wal_storage.rs:727-780 | The range-bounded scan lists the replay of the WAL for that range. |
| StorageEngine.WalRaftStorage.TryGetLogEntries | crates/chirps-raft-storage/src/wal_storage.rs:876-910 | Answer and cache after a read are those of the read function, for every range `BTreeMap::range` accepts. |
| StorageEngine.WalRaftStorage.AppendEntryWithSync | crates/chirps-raft-storage/src/wal_storage.rs:782-806 | The record is in the WAL before memory changes, and the interval triggers a sync. |
| StorageEngine.WalRaftStorage.Append | crates/chirps-raft-storage/src/wal_storage.rs:912-942 | All entries are logged in order and nothing is left unsynced. |
| StorageEngine.WalRaftStorage.Truncate | crates/chirps-raft-storage/src/wal_storage.rs:944-954 | The record is synced and the cache truncated. |
| StorageEngine.WalRaftStorage.Purge | crates/chirps-raft-storage/src/wal_storage.rs:956-967 | The record is synced, the cache purged and the last purged id set. |
| StorageEngine.WalRaftStorage.SaveVote | crates/chirps-raft-storage/src/wal_storage.rs:1007-1017 | The vote is synced, then held. |
| StorageEngine.WalRaftStorage.InstallSnapshot | crates/chirps-raft-storage/src/wal_storage.rs:1031-1079 | The file precedes the WAL marker, which precedes the in-memory state; a failed restore leaves only the file. |
| StorageEngine.WalRaftStorage.Apply | crates/chirps-raft-storage/src/wal_storage.rs:981-1005 | Applied id and membership follow the applied entries; nothing else changes. |
| StorageEngine.WalRaftStorage.ApplyWalRecord | crates/chirps-raft-storage/src/wal_storage.rs:603-638 | A replayed record has the effect it had when written, or fails for a missing snapshot file. |
| StorageEngine.WalRaftStorage.ReplayWal | crates/chirps-raft-storage/src/wal_storage.rs:578-601 | The replay loop rebuilds the recovered memory, or fails where recovery does. |
| StorageEngine.WalRaftStorage.LastLogId | crates/chirps-raft-storage/src/wal_storage.rs:698-703 | The last id is the cache's greatest, none for an empty cache. |
| Durability.EveryRunIsSafe | crates/chirps-raft-storage/src/wal_storage.rs:202-236 | In every schedule there is at most one leader, the gate says whether there is one, no waiter waits for a finished barrier, and the generation is the number of completed barriers. |
| Durability.NothingIsForgotten | crates/chirps-raft-storage/src/wal_storage.rs:238-264 | In every schedule without a failing sync, a completed append that is not durable belongs to a dirty file or one the leader has collected. |
| Durability.LeaderMakesDurable | crates/chirps-raft-storage/src/wal_storage.rs:202-264 | In every schedule, failing syncs included, a leader about to return Ok has made durable every append to an open file completed before the leader looked at that file, if the file was covered then. |
| Durability.LookDecides | crates/chirps-raft-storage/src/wal_storage.rs:238-264 | Whatever failed before and whatever follows, an Ok makes the appends completed at the leader's look at a file durable if and only if the file was covered at that look. |
| Durability.CoveredIffNotLost | crates/chirps-raft-storage/src/wal_storage.rs:238-264 | In every schedule a file is covered if and only if no failing sync has lost it since its owner last stored its dirty flag. |
| Durability.OkIffNotLost | crates/chirps-raft-storage/src/wal_storage.rs:202-264 | For any history, the appends to an open file completed before the look are durable at the leader's Ok if and only if no failing sync has lost the file, unless its owner stores the flag meanwhile. |
| Durability.LeaderSyncsItself | crates/chirps-raft-storage/src/wal_storage.rs:353-368 | A sink that enters a barrier as leader and leads it to an Ok has every record it had written durable, which is what an append with sync promises, if and only if no failing sync has lost its file. |
| Durability.WaiterGuarantee | crates/chirps-raft-storage/src/wal_storage.rs:204-213 | For any history and any number of barriers before the waiter wakes, when it is told Ok its records are durable if and only if no failing sync has lost its file and either a barrier began after it joined, or at that time they were durable or the barrier it joined had yet to sync its file. |
| Durability.JoinedBarrierServes | crates/chirps-raft-storage/src/wal_storage.rs:204-213 | When the barrier a waiter joined succeeds, its records are durable if and only if, when it joined, they were, or the leader had yet to sync its file and no failing sync had lost it. |
| Durability.WaiterCanBeMissed | crates/chirps-raft-storage/src/wal_storage.rs:204-213 | A failure-free schedule in which a waiter is told Ok with a record that is not durable. |
| Durability.WaiterIsToldOfALaterBarrier | crates/chirps-raft-storage/src/wal_storage.rs:204-213 | A schedule in which a waiter joins a barrier that has yet to look at its file, that barrier fails, and the waiter is told Ok of the next one with a record that is not durable. |
| Durability.FailingSyncForgets | crates/chirps-raft-storage/src/wal_storage.rs:253-262 | After a failing sync a file is still covered if and only if it is the one that failed, is dirty again or had nothing left to sync. |
| Durability.ForgottenStays | crates/chirps-raft-storage/src/wal_storage.rs:238-264 | A forgotten file stays so, with nothing of it becoming durable, through every step but its owner storing the flag again. |
| Durability.ForgottenRun | crates/chirps-raft-storage/src/wal_storage.rs:202-264 | The same along every schedule, through any number of barriers that return Ok. |
| Durability.FailureCanLoseAnAppend | crates/chirps-raft-storage/src/wal_storage.rs:253-262 | A schedule in which a leader is about to return Ok although its own append, completed before its barrier, is not durable. |
| Hlc.NextIsLater | crates/chirps-wire/src/hlc.rs:30-35 | The next timestamp is later if and only if this one is not the last representable one. |
| Hlc.TickIsLater | crates/chirps-gossip-swim/src/hlc.rs:108-120 | A tick moves the clock forward, for any wall clock, if and only if it is not at that limit. |
| Hlc.ReceiveIsLater | crates/chirps-gossip-swim/src/hlc.rs:122-159 | An accepted receive is later than clock and message if and only if neither is at the limit. |
| Hlc.LocalHlc.Tick | crates/chirps-gossip-swim/src/hlc.rs:108-120 | The clock takes the wall time or the next timestamp. |
| Hlc.LocalHlc.Receive | crates/chirps-gossip-swim/src/hlc.rs:122-159 | The clock merges local, wall and remote time; a sender too far ahead changes nothing. |
| HlcRuns.HappensBeforeOrders | crates/chirps-gossip-swim/src/hlc.rs:108-159 | Over any number of nodes, any wall clocks and any refused receives, happens-before implies a strictly smaller timestamp, unless a timestamp is at the limit. |
| HlcRuns.PrecedenceOrders | crates/chirps-gossip-swim/src/hlc.rs:108-159 | One direct step of happens-before already does. |
| Membership.GossipTakesGreatest | crates/chirps-gossip-swim/src/engine.rs:292-338 | After any updates each peer holds the lexicographically greatest (incarnation, status) of its old claim and all updates, and is known if and only if there is one. |
| Membership.GossipConverges | crates/chirps-gossip-swim/src/engine.rs:239-338 | Two orders and repetitions of the same updates leave the same peers with the same incarnation and status. |
| GossipRuns.NewEngineIsOk | crates/chirps-gossip-swim/src/engine.rs:119-160 | A new engine over a table without stamps meets the clock invariant. |
| GossipRuns.RunKeepsOk | crates/chirps-gossip-swim/src/engine.rs:239-586 | In every run, whatever is received, no stamp and no latest timestamp passes the clock, as long as no clock or accepted message is at the last timestamp when it is used. |
| GossipRuns.EnvelopeWellStampedIff | crates/chirps-gossip-swim/src/engine.rs:414-446 | An envelope carries no update stamped later than itself if and only if the clock stamping it is not at the last timestamp, or nothing in it is later than where the clock falls back to. |
| GossipRuns.EnvelopesAreWellStamped | crates/chirps-gossip-swim/src/engine.rs:414-446 | After every such run, an emitted envelope is one no receiver refuses for an update stamped later than the envelope, exactly under that condition. |
| GossipRuns.LimitBreaksEnvelopes | crates/chirps-gossip-swim/src/engine.rs:414-446 | From a new engine, receiving one late envelope and meeting one peer leads to emitting an envelope every receiver refuses. |
| GossipRuns.RefusalChangesNothing | crates/chirps-gossip-swim/src/engine.rs:249-266 | A refused envelope changes nothing but the count of clock readings, and is called invalid exactly when an update is stamped later. |
| GossipRuns.GossipNeverLowers | crates/chirps-gossip-swim/src/engine.rs:239-290 | Along gossip with and without timestamps, received and emitted in any order, no peer is lost and no (incarnation, status) goes down. |
| GossipRuns.LatestOnlyGrows | crates/chirps-gossip-swim/src/engine.rs:249-290 | In every such run each peer's latest timestamp only grows and stays at or below the clock. |
| GossipRuns.EventsApplyOnce | crates/chirps-gossip-swim/src/engine.rs:268-289 | Over a whole run, with duplicated and repackaged envelopes, each membership event changes the table at most once. |
| GossipOrders.EventsSettle | crates/chirps-gossip-swim/src/engine.rs:268-289 | After any sequence of events a peer with news holds one of the claims made, no less than its old one and than that of an event with the latest timestamp, and a peer without news is unchanged. |
| GossipOrders.OrdersAgreeIff | crates/chirps-gossip-swim/src/engine.rs:268-338 | All orders and repetitions of a set of timestamped events leave a peer with the same (incarnation, status) if and only if each latest event that is news, or the table, claims at least as much as every event that is news. |
| GossipOrders.StampsCanDiverge | crates/chirps-gossip-swim/src/engine.rs:268-338 | Two events about an unknown peer that leave incarnation 2 in one order and 1 in the other. |
| GossipEngines.GossipEngine.ApplyOneMembershipUpdate | crates/chirps-gossip-swim/src/engine.rs:292-338 | An update is taken for an unknown peer, a newer incarnation or a stronger status at the same one. |
| GossipEngines.GossipEngine.ApplyMembershipUpdate | crates/chirps-gossip-swim/src/engine.rs:239-246 | Each taken update is stamped, in order. |
| GossipEngines.GossipEngine.ApplyHlcGossip | crates/chirps-gossip-swim/src/engine.rs:249-290 | Validity, clock and duplicate checks come in the source's order; the count is that of applied events. |
| GossipEngines.GossipEngine.StampMembershipEvent | crates/chirps-gossip-swim/src/engine.rs:565-573 | The clock ticks and the event id moves on even for an unknown peer; a known one is stamped. |
| GossipEngines.GossipEngine.NextEventId | crates/chirps-gossip-swim/src/engine.rs:552-562 | Event numbers wrap at 64 bits and skip zero. |
| GossipEngines.GossipEngine.TouchPeer | crates/chirps-gossip-swim/src/engine.rs:518-543 | A contact sets address and status, and is stamped if the status changed. |
| GossipEngines.GossipEngine.HandleAck | crates/chirps-gossip-swim/src/engine.rs:191-214 | Late acks of dead peers are ignored; a suspect becomes alive and is stamped. |
| GossipEngines.GossipEngine.EnsureMembershipStamps | crates/chirps-gossip-swim/src/engine.rs:575-586 | Exactly the unstamped peers are stamped. |
| GossipEngines.GossipEngine.BuildEnvelope | crates/chirps-gossip-swim/src/engine.rs:414-446 | Every listed peer has a stamp to read, and the envelope is stamped after them. |
| Bandwidth.GrantsAreBounded | crates/chirps-file-transfer/src/bandwidth.rs:45-81 | For every interleaving of `acquire` calls, the bytes granted to all calls together up to time t are at most limit + limit*(t - t0)/10^9. |
| Bandwidth.WindowsAreBounded | crates/chirps-file-transfer/src/bandwidth.rs:45-81 | Over every window of every interleaving, from any turn at time s to t, the bytes granted are less than limit + limit*(t - s)/10^9 + 1. |
| Bandwidth.RunKeepsBound | crates/chirps-file-transfer/src/bandwidth.rs:51-71 | Granted bytes and tokens at hand together never exceed the first bucketful and what has flowed in. |
| Bandwidth.TurnsRefill | crates/chirps-file-transfer/src/bandwidth.rs:53-63 | After every turn less than one token is due and not yet in the bucket. |
| Bandwidth.TokensAreNoMore | crates/chirps-file-transfer/src/bandwidth.rs:84-93 | The rounded, saturating refill never exceeds rate times time. |
| Bandwidth.CallsGetAtMostTheirShare | crates/chirps-file-transfer/src/bandwidth.rs:45-81 | No call is granted more than it asked for. |
| Bandwidth.TwoWaitsAreEnough | crates/chirps-file-transfer/src/bandwidth.rs:84-108 | After two waits at least one token is due, despite both roundings and all saturations. |
| Bandwidth.OneWaitIsEnoughIff | crates/chirps-file-transfer/src/bandwidth.rs:84-108 | One wait brings a token if and only if it was not rounded down, or rounding it down costs no more than the missing bytes beyond the first, for every 64-bit limit and amount. |
| Bandwidth.OneWaitMayNotBeEnough | crates/chirps-file-transfer/src/bandwidth.rs:84-108 | At 3 bytes per second one wait for one byte brings none. |
| Bandwidth.BandwidthThrottle.TakeTurn | crates/chirps-file-transfer/src/bandwidth.rs:53-72 | A turn refills, then grants what there is, up to what remains. |
| Bandwidth.BandwidthThrottle.Acquire | crates/chirps-file-transfer/src/bandwidth.rs:45-81 | A lone call terminates after at most two sleeps for each byte, however late they wake, and is granted exactly its bytes. |
| PublishOrder.LayersAreLongestChains | scripts/release/resolve-publish-order.py:89-103 | Every package is in exactly one layer, the one numbered (from zero) by its longest dependency chain. |
| PublishOrder.DependenciesComeFirst | scripts/release/resolve-publish-order.py:89-103 | Dependencies are in strictly earlier layers. |
| PublishOrder.LayersIffAcyclic | scripts/release/resolve-publish-order.py:89-103 | Layering succeeds if and only if the graph has no cycle. |
| PublishOrder.FailureMeansCycle | scripts/release/resolve-publish-order.py:93-96 | When it fails there is a cycle inside the packages reported. |
| PublishOrder.SuccessMeansAcyclic | scripts/release/resolve-publish-order.py:89-103 | When it succeeds no sequence of packages is a cycle. |
| PublishOrder.ResolveLayers | scripts/release/resolve-publish-order.py:89-103 | The loop that deletes from the remaining dictionary lists the layers, each sorted, or the sorted packages it is stuck on. |
| PublishOrder.Resolve | scripts/release/resolve-publish-order.py:78-103 | No packages, or a dependency on a non-publishable workspace package, is an error; otherwise the graph of publishable dependencies other than itself is layered. |

## Left out

- QUIC, TLS, handshakes, connection health and eviction, and reconnect backoff.
- Process restart of a transport peer: numbers start again at 1, so delivery is about one process lifetime on each side.
- Send retries: a retry takes a new number, so exactly-once is per number and not per application call.
- Metrics, tracing and completion hooks.
- Frame serialization failures, and the bincode, CRC-32, SHA-256 and compression algorithms, which are function parameters.
- I/O failures in the WAL storage, apart from a state machine that cannot restore a snapshot; failing syncs are part of the durability model.
- The WAL header record with its magic and format version.
- The increment of u64::MAX in `truncate_cache` and the scan, and the saturation of the unsynced counter.
- Building snapshots from the state machine (`get_snapshot_builder`), and the cache-only log reader.
- The f32 rounding of the QoS ratios, which are compared exactly, and the timing of the snapshot throttle, whose outcome is a parameter.
- The i64 range of the scheduler's deficit counters.
- The u64 range of packet ids and occurrence numbers in the simulator; `from_seed`, `stable_trace` and broadcast.
- The binary search in `effects_for`, modelled as a lookup of the first matching rule.
- Ping sequence numbers, pending pings and the choice of gossip targets; timeouts enter as arbitrary status changes of known peers.
- `PeerState` times (`last_seen`, `suspect_since`).
- The retry and progress reporting of the snapshot sender.
- Platforms on which a snapshot's 64-bit length does not fit `usize`.
- Reading Cargo manifests and collecting dependency names.
- Durability.LeaderMakesDurable: speaks of files that are still open at the end, because a dropped sink leaves the participant list without a sync.
- Bandwidth.GrantsAreBounded: stated for a positive limit, because zero means unlimited and takes no turns.
- Bandwidth.WindowsAreBounded: stated for a positive limit too.
- GossipOrders.OrdersAgreeIff: stated for events whose ids name one event each, as ids numbered per source do until the number wraps.
