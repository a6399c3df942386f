# Verified model of the gossip aggregation node

This project models, in Dafny 4.11, the replicated-data core of a gossip aggregation service: two
conflict-free aggregates (a SUM counter and a bounded TOP-K set), the anti-entropy protocol that
spreads them, the write-ahead durable manager that recovers them after a crash, and the membership
table that finds peers. `dafny verify dfyconfig.toml` checks everything.

## How it is built

Code that changes things step by step in the service is a class here, with the same fields and
loops: `Sum.GCounter`, `TopK.Set`, `History.DeltaHistory`, `Wal.Log`, `Storage.Store`,
`Manager.Manager`, `Guard.MessageGuard`, `GossipRuntime.GossipNode`, `MembershipTable.Table` and
`MembershipCluster.Bootstrapper`. Every method is proved against a function on values (for example
`Pipeline.Receive`, `Recovery.Step`, `Runtime.Handle`, `Membership.MergeAll`), and the results over
whole runs are proved about those functions. A run of the cluster is a sequence of steps that the
objects are proved to take: `GossipNode.HandleEnvelope` for deliveries, `TurnOutbound`, `Broadcast`
and `Update` for what a node does by itself, `Manager.Checkpoint`, and `GossipRuntime.Restart` after
a crash.

What the project assumes of encodings, that they can be read back, is shown to be possible in
`Encodings`, so that no contract that rests on it is empty.

| layer | files |
|---|---|
| names, 64-bit integers, orders | Base |
| aggregates | Sum, TopK |
| messages, digests, ranges | Protocol |
| delta history | History |
| replica and manager | Pipeline, Outcomes, Manager |
| journal, checkpoints, recovery | Wal, Storage, Recovery, Encodings |
| node and its handlers | Guard, Runtime, GossipRuntime |
| what a node may know and say, step by step | Knowledge, Handlers, Effects |
| all runs of a cluster | Cluster, OverAdvance, Swallowed |
| repair between two nodes | Rounds, SnapshotRepair, RangeRepair, JammedRun, ServedRun, Convergence, Continuation |
| membership | Membership, MembershipTable, MembershipCluster |

A cluster state keeps every envelope ever sent in one set. Any envelope may reach any node, any
number of times, late, or never, so loss, duplication, reordering and misdelivery are all covered.
Issued deltas, accepted increments, forwards and each node's observed deltas are history variables
that no branch reads. Nodes crash and recover from disk at any point.

## Where code and expectation part

The model follows the code. These results mark where a promise needs a condition, and give it
exactly:

- A snapshot that carries one aggregate raises watermarks for both. `PartialSnapshotUnsound` runs
  into it from the start state; `SoundExactlyWhenCarried` says when watermarks can be trusted.
- A journal append whose sync fails reports an error but keeps its record. `StepExact` makes this
  one of three conditions for exact recovery, `FailedSyncDiverges` shows it. The other two are a
  peer echoing an own sequence above the live one without news (`EchoDiverges`), and a snapshot
  whose good SUM fragment is followed by a bad TOPK fragment (`HalfMergedDiverges`).
- `SnapshotErrorUndone`: that last snapshot is reported as failed but leaves its SUM part merged.
- An invalid TOPK candidate in a delta is neither merged nor reported, because its error is
  assigned to a shadowed variable (`internal/aggregation/pipeline/pipeline.go:187`), yet its
  watermark moves. `AdvertisedTruly` says when such a watermark tells the truth, `EmptyItemPasses`
  gives a delta for which it does not. `ApplyLocalUpdate` never issues one.
- Opening a log that holds a blank line truncates too much (`ReopenKeepsRecords`,
  `BlankLineLosesRecord`), since skipped bytes are not counted into the valid size. The service
  itself never writes blank lines, and a log that it wrote survives any cut.
- Snapshot repair takes three exchanges, unless a version sits at 2^64-1 and the contents are
  incomparable (`SnapshotRepairConverges`, `WrapStaysApart`).
- A history with `capacity` entries above its watermark discards the delta it is waiting for
  (`NextRecordAdvances`, `RecordJammed`). Ranges then never close that origin's gap
  (`RepairedExactlyWithRoom`), and one lost delta is enough to get there (`JammedReachable`).
- The message guard remembers across a peer's restart, while the restarted node counts its envelopes
  from 1 again: its floods are refused until it passes its old count (`FloodAfterRestart`). Digests
  and repair do not pass the guard.
- Section 6.3 of the repository's protocol document orders statuses at equal incarnation; a missed
  probe may still turn a dead member into a suspect one, in exactly the case that `MarkMissedKey`
  names (`DeadBecomesSuspect`).
- The same section promises that an accusation is always topped; at incarnation 2^64-1 it cannot be,
  and Merge reports a change all the same (`MergeReports`, `Refutation`).
- The same section asks every batch to include the sender; `DisseminatedMembership` leaves it out
  exactly when it has no endpoint and the others fit (`NothingToTell`). The configuration rules that
  input out: it insists on a bind address with a port (`internal/config/config.go:123-125`), and the
  advertised endpoint is then never empty (`internal/membership/bootstrap.go:224-241`).
- Merge order does not matter to incarnations and statuses (`MergeIndependent`), but it does to
  endpoints, exactly when `EndpointsFirstWin` says so (`EndpointsDiffer`).
- The branch of Merge that fills in a missing endpoint (`internal/membership/table.go:156-161`) is
  unreachable: every other member always has an endpoint (`MergeEntry`).

## Model

| member | source | states |
|---|---|---|
| Sum.MergeSumMax | internal/aggregation/sum/sum.go:118-123 | every entry of a merge is the larger of the two, missing keys reading as 0 |
| Sum.MergeSumIsJoin | internal/aggregation/sum/sum.go:106-131 | a merge is the least upper bound, and reports news exactly when the peer was not already below |
| Sum.MergeSumCommutes | internal/aggregation/sum/sum.go:106-131 | SUM merge is commutative as functions with default 0 |
| Sum.MergeSumAssociates | internal/aggregation/sum/sum.go:106-131 | SUM merge is associative |
| Sum.TotalRemove | internal/aggregation/sum/sum.go:133-145 | the total does not depend on the order in which the map is ranged over |
| Sum.TotalMonotone | internal/aggregation/sum/sum.go:133-145 | estimates never fall as contents grow |
| Sum.GCounter.constructor | internal/aggregation/sum/sum.go:43-51 | a new counter holds an explicit zero for its own node |
| Sum.GCounter.Update | internal/aggregation/sum/sum.go:88-104 | non-positive and overflowing increments are refused without effect; all others add to the own entry and bump the version |
| Sum.GCounter.Merge | internal/aggregation/sum/sum.go:106-131 | the loop computes the pointwise maximum, reports news exactly, and moves the Lamport version |
| Sum.GCounter.Estimate | internal/aggregation/sum/sum.go:133-145 | the exact mathematical sum, or an error exactly when it exceeds 2^64-1, for every iteration order |
| Sum.GCounter.Deserialize | internal/aggregation/sum/sum.go:158-180 | restores a serialised state and keeps the own entry present; an invalid one changes nothing |
| TopK.TopUnique | internal/aggregation/topk/topk.go:305-320 | the best-k list of a set is unique, whatever order it was built in |
| TopK.CanonicalIsTop | internal/aggregation/topk/topk.go:272-288 | canonicalize returns the best kmax distinct candidates of its input |
| TopK.CanonicalOrder | internal/aggregation/topk/topk.go:272-320 | without naming the comparison: score down, then event time down, then origin up, then item up, and whatever is left out stands behind all of a full list |
| TopK.BetterMeaning | internal/aggregation/topk/topk.go:308-319 | the comparison is that order, key by key |
| TopK.LaterEventWins | internal/aggregation/topk/topk.go:312-313 | of two reports of one score the later event is kept, in either order of arrival |
| Base.StrLessMeaning | internal/aggregation/topk/topk.go:315-318 | names are compared lexicographically |
| TopK.CanonicalFixpoint | internal/aggregation/topk/topk.go:187-206 | canonical lists are fixed points, which is why reading a state back is exact |
| TopK.TruncationAbsorbed | internal/aggregation/topk/topk.go:117-138 | topK(A + B) = topK(topK(A) + B) |
| TopK.MergeTopMeaning | internal/aggregation/topk/topk.go:117-138 | merging two best-k lists gives the best k of everything either was cut from |
| TopK.MergeTopLaws | internal/aggregation/topk/topk.go:117-138 | truncated merge is commutative, associative and idempotent on the lists replicas hold |
| TopK.EvictedNeverReturns | internal/aggregation/topk/topk.go:272-288 | a candidate once cut never re-enters, however much is added |
| TopK.MergeUnchanged | internal/aggregation/topk/topk.go:129-137 | a merge changes nothing if and only if the list covers every incoming candidate |
| TopK.CoversAfterMerge | internal/aggregation/topk/topk.go:117-138 | what was covered, and what comes in, is covered after a merge |
| TopK.PrefixIsTop | internal/aggregation/topk/topk.go:140-174 | the first n of the best k are the best n |
| TopK.SortCandidates | internal/aggregation/topk/topk.go:305-320 | the result holds the same candidates, sorted key by key in the documented order |
| TopK.Canonicalize | internal/aggregation/topk/topk.go:272-288 | dedupe, sort and cut computes the canonical list |
| TopK.Set.Update | internal/aggregation/topk/topk.go:96-115 | an invalid candidate is refused without effect; a valid one is merged, and the version moves exactly on a change |
| TopK.Set.Merge | internal/aggregation/topk/topk.go:117-138 | whole new state of a merge, and news reported exactly on a change |
| TopK.Set.Estimate | internal/aggregation/topk/topk.go:140-174 | for k > 0, the true top min(k, kmax) of every set the list is the top of, sorted key by key, and whatever is left out stands behind it; an error otherwise |
| TopK.Set.Deserialize | internal/aggregation/topk/topk.go:187-206 | Deserialize(Serialize(s)) = s for canonical states; an invalid state changes nothing |
| Protocol.RangeOkMeaning | internal/gossip/protocol/sync.go:180-185 | the wrapping uint64 guard accepts exactly the ranges of 1 to 256 sequences over the integers |
| Protocol.ValidateDeltaRanges | internal/gossip/protocol/sync.go:174-192 | accepts exactly the non-empty lists of valid ranges with distinct origins |
| Protocol.ValidateRecoveredDeltas | internal/gossip/protocol/sync.go:194-216 | accepts exactly the non-empty lists of decodable deltas with valid origin and sequence |
| Protocol.RangeForMeaning | internal/gossip/anti_entropy/digest.go:19-31 | a requested range starts just above the local watermark and asks for at most 256, never past the peer |
| Protocol.RequestAgreement | internal/gossip/anti_entropy/digest.go:10-33 | every request built from a valid peer digest passes both the validator and the server's guard, one range for each origin that is behind |
| Protocol.MissingDeltaRanges | internal/gossip/anti_entropy/digest.go:10-33 | the two loops compute exactly those ranges, sorted by origin |
| History.RecordEffect | internal/gossip/anti_entropy/history.go:34-71 | Record keeps the invariant, never lowers a watermark, and passes only stored sequences |
| History.RecordExact | internal/gossip/anti_entropy/history.go:34-63 | Record adds the delta and drops, only when that is one too many, the entry with the lowest sequence |
| History.RecordedWhen | internal/gossip/anti_entropy/history.go:50-63 | a delta is held afterwards if and only if it was held, there was room, or something older could go |
| History.AdvanceEffect | internal/gossip/anti_entropy/history.go:86-108 | AdvanceWatermarks keeps the invariant, reaches what it is given, and forgets only what lies below |
| History.AdvanceForgets | internal/gossip/anti_entropy/history.go:86-108 | exactly what lies at or below a raised watermark is forgotten |
| History.NextRecordAdvances | internal/gossip/anti_entropy/history.go:50-69 | recording watermark+1 moves the watermark if and only if fewer than capacity entries lie above it |
| History.WatermarkAccounted | internal/gossip/anti_entropy/history.go:34-108 | over all call sequences, every stored delta was recorded, and 1..watermark was recorded or lies under an advance |
| History.DeltaHistory.Record | internal/gossip/anti_entropy/history.go:34-71 | whole new state: insert, evict the oldest beyond capacity, run the watermark on |
| History.DeltaHistory.Watermarks | internal/gossip/anti_entropy/history.go:73-84 | the loop lists an origin exactly when its watermark is positive, and then with that watermark |
| History.DeltaHistory.AdvanceWatermarks | internal/gossip/anti_entropy/history.go:86-108 | whole new state, whatever the order of iteration |
| History.DeltaHistory.Range | internal/gossip/anti_entropy/history.go:110-137 | exactly the deltas from..to in order or nothing; terminates even at 2^64-1 |
| Pipeline.MergeGrows | internal/aggregation/pipeline/pipeline.go:166-224 | a merge of either aggregate keeps the replica valid and only moves contents up |
| Pipeline.IssueGrows | internal/aggregation/pipeline/pipeline.go:89-158 | an issued delta is well formed, carries the next sequence, was not accounted for before and is afterwards |
| Pipeline.ReceiveGrows | internal/aggregation/pipeline/pipeline.go:166-224 | a received delta never lowers contents, and without news leaves them alone |
| Pipeline.ReceiveAdvancesOnce | internal/aggregation/pipeline/pipeline.go:166-224 | a well-formed delta is news if and only if it was not accounted for, and is accounted for afterwards |
| Pipeline.AppliedIsCovered | internal/aggregation/pipeline/pipeline.go:186-210 | a TOPK delta reported as applied is accounted for if and only if its candidate is valid or was outranked already |
| Pipeline.SnapshotGrows | internal/aggregation/pipeline/pipeline.go:323-349 | a snapshot never lowers contents, and without news leaves them alone |
| Pipeline.SnapshotErrorUndone | internal/aggregation/pipeline/pipeline.go:306-309 | a failed snapshot leaves contents alone if and only if it is not a newsworthy SUM fragment followed by a bad TOPK fragment |
| Pipeline.HalfMergedSnapshot | internal/aggregation/pipeline/pipeline.go:324-346 | a snapshot that is reported as failed and leaves its SUM part merged |
| Outcomes.SumIssuedExactly | internal/aggregation/pipeline/pipeline.go:94-120 | an increment is accepted if and only if it is positive and fits; the delta carries the new total under the next version and sequence |
| Outcomes.TopIssuedExactly | internal/aggregation/pipeline/pipeline.go:121-154 | a candidate is refused if and only if it is invalid, and makes no difference if and only if it is held or outranked |
| Outcomes.ReceiveVersion | internal/aggregation/pipeline/pipeline.go:182-204 | a received delta brings its version along: the larger of the two, and one above both when contents changed |
| Outcomes.ReceivedVersionIsCovered | internal/aggregation/pipeline/pipeline.go:226-248 | so the receiver's digest never lags behind a version it has merged |
| Outcomes.SnapshotVersion | internal/aggregation/pipeline/pipeline.go:323-349 | the same for each aggregate that a snapshot carries; the other one is left alone |
| Outcomes.ReceiveSequence | internal/aggregation/pipeline/pipeline.go:211-213 | only own deltas move the own sequence, and never down |
| Outcomes.ForgedOriginRefused | internal/gossip/protocol/delta.go:66-95 | a delta that speaks for another node than its origin is refused without effect |
| Outcomes.RecoveredExactly | internal/gossip/protocol/sync.go:194-216 | a recovered delta is let in if and only if it is numbered and its payload is of its kind and speaks for its valid origin |
| Outcomes.SnapshotCarries | internal/aggregation/pipeline/pipeline.go:261-292 | a snapshot holds exactly what was wanted, whole, with the own sequence |
| Outcomes.DigestDistinguishes | internal/aggregation/pipeline/pipeline.go:226-253 | digests differ exactly when states do |
| Outcomes.SnapshotWanted | internal/gossip/anti_entropy/digest.go:35-54 | an aggregate is asked for when the peer is ahead, or level with other contents |
| Manager.Manager.Enqueue | internal/aggregation/pipeline/pipeline.go:460-472 | a full or closed queue drops and counts; otherwise the delta goes to the end |
| Manager.Manager.Publish | internal/aggregation/pipeline/pipeline.go:112-120 | a delta reaches the queue only after the journal has taken it |
| Manager.Manager.ApplyLocalUpdate | internal/aggregation/pipeline/pipeline.go:89-158 | journal before publish; on a failed append contents, versions and sequence are exactly as before and nothing is enqueued |
| Manager.Manager.ApplyReceivedDelta | internal/aggregation/pipeline/pipeline.go:160-164 | value, result and disk after the call; a failed append undoes the merge exactly |
| Manager.Manager.ApplyReceivedDeltaLocked | internal/aggregation/pipeline/pipeline.go:166-224 | merge, advance the own sequence, journal only news, roll back on failure |
| Manager.Manager.MergeDelta | internal/aggregation/pipeline/pipeline.go:171-213 | the merging half, with the swallowed TOPK error |
| Manager.Manager.ApplySnapshot | internal/aggregation/pipeline/pipeline.go:294-321 | value, result and disk after the call; a failed append undoes both merges exactly |
| Manager.Manager.ApplySnapshotLocked | internal/aggregation/pipeline/pipeline.go:323-349 | SUM first; a bad TOPK fragment is noticed only afterwards |
| Manager.Manager.RestoreCheckpoint | internal/aggregation/pipeline/pipeline.go:357-371 | both fragments are required; replaces contents and versions and raises the sequence |
| Manager.Manager.ReplayDelta | internal/aggregation/pipeline/pipeline.go:373-378 | the received-delta path without a journal |
| Manager.Manager.ReplaySnapshot | internal/aggregation/pipeline/pipeline.go:380-385 | the snapshot path without a journal |
| Manager.Manager.Digest | internal/aggregation/pipeline/pipeline.go:226-253 | versions, checksums and a positive own sequence |
| Manager.Manager.Snapshot | internal/aggregation/pipeline/pipeline.go:255-292 | exactly the wanted fragments under the largest wanted version; nothing or an unknown name is an error |
| Manager.Manager.Checkpoint | internal/aggregation/pipeline/pipeline.go:387-401 | publishes the whole state for the journal index reached, or changes nothing on disk |
| Manager.Manager.NextOutbound | internal/aggregation/pipeline/pipeline.go:403-413 | takes deltas in the order they were published |
| Manager.RecoverAggregation | internal/app/app.go:240-264 | a new manager ends as exactly what recovery from the store's disk computes, and fails exactly when that has no result or the store cannot be read |
| Recovery.RecoverAppend | internal/app/app.go:250-262 | one more journaled record is one more replay step |
| Recovery.ReplayCongruent | internal/aggregation/pipeline/pipeline.go:373-385 | replay depends only on contents and sequence, not on Lamport versions |
| Recovery.ReplayIssued | internal/aggregation/pipeline/pipeline.go:112-119 | replaying an issued delta on the state before gives the contents after |
| Recovery.CheckpointExact | internal/aggregation/pipeline/pipeline.go:387-401 | a checkpoint covers the whole journal, and recovering from it gives back the replica itself, versions included |
| Recovery.StepExact | internal/aggregation/pipeline/pipeline.go:89-401 | one call keeps recovery exact if and only if its guard, checkable before the call, holds |
| Recovery.RecoveryRefinesLive | internal/app/app.go:240-264 | after any run whose guards hold, checkpoints and earlier crashes included, a crash changes neither contents nor sequence |
| Recovery.FailedSyncDiverges | internal/storage/wal/wal.go:131-139 | a failed sync leaves its record: two different deltas share a sequence and recovery differs from the live node |
| Recovery.EchoDiverges | internal/aggregation/pipeline/pipeline.go:211-213 | an own sequence echoed without news moves the live counter and not the journal, so recovery differs |
| Recovery.HalfMergedDiverges | internal/aggregation/pipeline/pipeline.go:306-309 | a half-merged snapshot is never journaled, so recovery differs |
| Wal.ScanCut | internal/storage/wal/wal.go:203-241 | truncated at any byte, a log reads as exactly the records whose full line fits |
| Wal.ScanAppend | internal/storage/wal/wal.go:116-133 | an appended line is read back as one more record, after all the earlier ones |
| Wal.ScanIndices | internal/storage/wal/wal.go:226-230 | records that are read carry consecutive indices |
| Wal.LineAccepted | internal/storage/wal/wal.go:219-231 | one more full line is read if and only if it is blank or holds a record with the next index, a kind, a payload and their checksum |
| Wal.TrimMeaning | internal/storage/wal/wal.go:220 | trimming takes exactly the white space at the two ends |
| Wal.ReopenKeepsRecords | internal/storage/wal/wal.go:80-95 | truncating to validSize keeps the records just read if and only if no blank line stands before the last of them |
| Wal.BlankLineLosesRecord | internal/storage/wal/wal.go:219-232 | one leading blank line is enough to lose a record |
| Wal.CrashLosesAtMostPending | internal/storage/wal/wal.go:134-140 | a crash at or after the durable prefix loses at most the unsynced records, from the end |
| Wal.AcknowledgedLoss | internal/storage/wal/wal.go:131-142 | with successful syncs: nothing is lost in always mode, at most batchSize-1 records in batch mode; the rest has indices 1..n |
| Wal.ReadRecords | internal/storage/wal/wal.go:203-241 | the loop returns the records of the scan and the sum of their line lengths, or the corruption error |
| Wal.Log.Open | internal/storage/wal/wal.go:59-105 | an error exactly on a corrupt record; otherwise the records read, their count as last index, and the file cut to validSize |
| Wal.Log.Append | internal/storage/wal/wal.go:107-142 | refused without effect, or one more record; a failed due sync reports an error but keeps the record |
| Wal.Log.Sync | internal/storage/wal/wal.go:172-179 | success makes every record durable; failure and closing change nothing |
| Wal.Log.Close | internal/storage/wal/wal.go:181-193 | a successful close makes every record durable |
| Wal.Log.RecordsAfter | internal/storage/wal/wal.go:144-164 | exactly the records above the index |
| Storage.DecodeRecords | internal/storage/store.go:140-160 | all mutations in order, or an error exactly when some record does not decode |
| Storage.Open | internal/storage/store.go:47-62 | an error exactly on a corrupt record; on intact files a valid store with exactly their mutations and newest checkpoint |
| Storage.Store.AppendDelta | internal/storage/store.go:64-76 | one more mutation on disk, none, or one with an error when only the sync failed |
| Storage.Store.AppendSnapshot | internal/storage/store.go:78-90 | as AppendDelta, for snapshots |
| Storage.Store.SaveCheckpoint | internal/storage/store.go:92-107 | sync before publish, so no checkpoint lies beyond the durable journal |
| Storage.Store.LoadLatest | internal/storage/snapshot/snapshot.go:102-143 | the snapshot with the highest index |
| Storage.Store.Recover | internal/storage/store.go:109-162 | never rejects the newest checkpoint, and returns it with exactly the journal tail above it |
| Storage.Store.Close | internal/storage/store.go:164-172 | changes nothing on disk; after a successful close a crash takes nothing |
| Storage.CheckpointNeverAhead | internal/storage/store.go:129-131 | in every sync mode the checkpoint index stays within what a crash leaves |
| Storage.CrashedStore | internal/storage/store.go:92-162 | what a crash leaves opens again with every checkpoint within it: the live node's very disk in always mode, all but at most batchSize-1 mutations in batch mode |
| Encodings.JsonExists | internal/storage/store.go:64-90 | encodings of all mutations that the store's assumptions ask for exist, so no result about stores is empty |
| Encodings.CodecExists | internal/storage/wal/wal.go:116-127 | record encodings as the log assumes them exist, for every checksum function |
| Guard.MessageGuard.Accept | internal/gossip/transport/reliability.go:119-138 | a message passes if and only if its sequence lies above everything accepted from its sender, whatever the clock does |
| Guard.MessageGuard.Prune | internal/gossip/transport/reliability.go:140-146 | forgets exactly what has expired |
| Runtime.AdvertisedIs | internal/gossip/delta/runtime.go:339-346 | the advertised watermark is the larger of own sequence and history |
| GossipRuntime.CopyLarger | internal/gossip/delta/runtime.go:385-395 | the pointwise maximum of the two maps |
| GossipRuntime.GossipNode.constructor | internal/gossip/delta/runtime.go:64-109 | a fresh history that starts at the recovered sequence |
| GossipRuntime.GossipNode.HandleStateDelta | internal/gossip/delta/runtime.go:133-161 | refines the model's delta step: guard, apply, record, forward exactly on news |
| GossipRuntime.GossipNode.ApplyRecovered | internal/gossip/delta/runtime.go:246-255 | the loop applies a prefix and stops at the first delta that fails |
| GossipRuntime.GossipNode.HandleDeltaRangeResp | internal/gossip/delta/runtime.go:239-258 | refines the range-response step; an early stop suppresses the digest |
| GossipRuntime.GossipNode.HandleStateDigest | internal/gossip/delta/runtime.go:163-208 | refines the digest step: ranges first, snapshot otherwise, silence when nothing is missing |
| GossipRuntime.GossipNode.CollectDeltas | internal/gossip/delta/runtime.go:217-225 | all requested ranges in order, or nothing |
| GossipRuntime.GossipNode.HandleDeltaRangeReq | internal/gossip/delta/runtime.go:210-237 | refines the range-request step, snapshot fallback included |
| GossipRuntime.GossipNode.SendFallback | internal/gossip/delta/runtime.go:348-359 | asks for what the requester's digest lacks, or for both aggregates |
| GossipRuntime.GossipNode.HandleSnapshotReq | internal/gossip/delta/runtime.go:260-267 | refines the snapshot-request step |
| GossipRuntime.GossipNode.SendState | internal/gossip/delta/runtime.go:361-374 | a snapshot of the wanted aggregates under all of the node's watermarks |
| GossipRuntime.GossipNode.HandleSnapshotResp | internal/gossip/delta/runtime.go:269-288 | refines the snapshot-response step: adopt the watermarks on success, announce news |
| GossipRuntime.GossipNode.HandleEnvelope | internal/gossip/delta/runtime.go:116-131 | on every envelope the object does exactly what the cluster model's step does, for the outcome its journal had |
| GossipRuntime.GossipNode.TurnOutbound | internal/gossip/delta/runtime.go:290-309 | refines the outbound step: record, then broadcast, in order |
| GossipRuntime.GossipNode.Adopt | internal/gossip/delta/runtime.go:275-280 | a snapshot applied, and its watermarks adopted exactly on success |
| GossipRuntime.GossipNode.Update | internal/aggregation/pipeline/pipeline.go:89-158 | refines the model's local update |
| GossipRuntime.Restart | internal/app/app.go:49-63 | refines the model's restart: recovery from the store, then the journal, then a new runtime; fails exactly when recovery has no result or the store cannot be read |
| Knowledge.RepresentsUnique | internal/aggregation/pipeline/pipeline.go:430-445 | what has been observed determines contents |
| Knowledge.RepresentsSubsumes | internal/aggregation/topk/topk.go:117-138 | what has been observed is accounted for, evicted candidates included |
| Effects.DeltaFlooded | internal/gossip/delta/runtime.go:133-161 | news that is journaled is flooded on as it came, and nothing else is |
| Effects.DeltaHeardOnce | internal/gossip/transport/reliability.go:119-138 | the same flood, or an older one of the same sender, does nothing the second time |
| Effects.FloodsOn | internal/gossip/delta/runtime.go:149-160 | in every run a delivery is one more forward if and only if it is accepted, journaled and news |
| Effects.OutboundTurn | internal/gossip/delta/runtime.go:290-309 | the oldest published delta is broadcast and recorded, and held exactly when there was room or something older to give up |
| Effects.UpdatePublished | internal/aggregation/pipeline/pipeline.go:112-121 | an update of a node with nothing waiting is the next and only message of its outbound turn |
| Effects.QueueOrder | internal/aggregation/pipeline/pipeline.go:460-474 | first in, first out: an update never overtakes what waits, and a full queue keeps what it has |
| Effects.OwnDeltaServed | internal/gossip/delta/runtime.go:210-237 | a request for exactly that delta is then answered with exactly that delta |
| Effects.SnapshotAnnounced | internal/gossip/delta/runtime.go:269-288 | an adopted snapshot raises every watermark to its own, and its news is announced by exactly the new digest |
| Effects.SnapshotNotAdopted | internal/gossip/delta/runtime.go:275-279 | a snapshot that fails says nothing and moves no watermark in the history |
| Effects.RecoveredAnnounced | internal/gossip/delta/runtime.go:239-258 | recovered deltas that are all applied are answered by exactly the new digest; a stopped response is silent |
| Effects.DigestAnswered | internal/gossip/delta/runtime.go:163-208 | gaps are asked for by one range each, otherwise what the peer is ahead in, always telling the own digest |
| Effects.RangesServed | internal/gossip/delta/runtime.go:217-236 | a request that the history covers is answered by all its deltas |
| Effects.RangesNotServed | internal/gossip/delta/runtime.go:218-223 | one that it does not cover is answered by a snapshot |
| Effects.FallbackCarries | internal/gossip/delta/runtime.go:348-359 | the fallback carries what the requester's digest lacks, or both aggregates |
| Effects.SnapshotRequestAnswered | internal/gossip/delta/runtime.go:260-267 | a snapshot request is answered with what it wants under every advertised watermark |
| Effects.RestartView | internal/gossip/delta/runtime.go:87-93 | after a restart the node advertises its own sequence and nothing else, with its contents intact |
| Effects.FloodAfterRestart | internal/gossip/transport/reliability.go:131-136 | the first flood after a restart reaches a peer if and only if that peer has accepted no flood of the node before |
| Handlers.HandleInv | internal/gossip/delta/runtime.go:116-131 | every delivery step keeps the node invariant, grows contents, and sends only messages that are true of the issuer |
| Handlers.LocalInv | internal/aggregation/pipeline/pipeline.go:89-158 | a local update keeps the node invariant and publishes the next sequence, or changes nothing that is known |
| Handlers.DequeueInv | internal/gossip/delta/runtime.go:290-309 | dequeuing keeps the node invariant |
| Handlers.RestartInv | internal/app/app.go:240-264 | a crash and restart keeps the node invariant and contents |
| Cluster.StepInv | internal/gossip/delta/runtime.go:116-309 | every step of the cluster keeps the cluster invariant |
| Cluster.WatermarkSoundness | internal/gossip/delta/runtime.go:133-288 | in every run whose applied snapshots carried aggregate k, whoever advertises w for an origin accounts for all its deltas of kind k up to w |
| Cluster.StrongConvergence | internal/aggregation/pipeline/pipeline.go:166-349 | in every run contents are the maximum and the top kmax of exactly the observed deltas, so equal observations give equal contents and estimates |
| Cluster.WriteAheadSafety | internal/aggregation/pipeline/pipeline.go:112-119 | in every run recovery succeeds, returns the issue counter, and no replica holds more of a node than that node would recover |
| Cluster.SequencesUnique | internal/aggregation/pipeline/pipeline.go:112-119 | in every run no sequence of an origin ever travels with two different deltas |
| Cluster.SumConservation | internal/aggregation/pipeline/pipeline.go:100-108 | in every run each replica's entry for a node is the total of a prefix of that node's accepted increments, and its own entry the total of all |
| Cluster.FloodingBounded | internal/gossip/delta/runtime.go:149-160 | in every run a node forwards a delta at most once, and forwards never exceed the pairs of node and delta |
| Cluster.ForwardObserves | internal/gossip/delta/runtime.go:149-160 | each forward strictly lowers the number of unobserved pairs |
| OverAdvance.FallbackOverAdvances | internal/gossip/delta/runtime.go:348-374 | from any state with such a pair of nodes, a digest, a request and a partial fallback snapshot break watermark soundness |
| OverAdvance.PartialSnapshotUnsound | internal/gossip/delta/runtime.go:354-367 | a concrete run from the start after which a node advertises a delta it never saw, for either aggregate |
| OverAdvance.SoundExactlyWhenCarried | internal/gossip/delta/runtime.go:269-280 | watermarks are sound for k in all runs if and only if every snapshot shape in use carries k |
| Swallowed.AdvertisedTruly | internal/aggregation/pipeline/pipeline.go:186-213 | after applying the next TOPK delta a node advertises it, truly if and only if the candidate is valid or was outranked |
| Swallowed.InvalidCandidatePasses | internal/gossip/delta/runtime.go:149-154 | an invalid candidate always succeeds: contents and disk stay, the history records it, and the watermark passes it |
| Swallowed.EmptyItemPasses | internal/gossip/protocol/sync.go:194-216 | one such delta passes the checks on received deltas and ends advertised but not held |
| SnapshotRepair.ThreePulls | internal/gossip/anti_entropy/digest.go:46-54 | three alternating pulls equalise any lattice if and only if no version can wrap or the contents were comparable |
| SnapshotRepair.NothingWanted | internal/gossip/anti_entropy/digest.go:35-54 | when neither side wants a pull the states are identical |
| SnapshotRepair.RoundPulls | internal/gossip/delta/runtime.go:192-207 | between aligned nodes a digest round is exactly one pull of each aggregate that is wanted |
| SnapshotRepair.SnapshotRepairConverges | internal/gossip/delta/runtime.go:163-288 | three alternating digest rounds equalise each aggregate under exactly that condition |
| SnapshotRepair.WrapStaysApart | internal/aggregation/sum/sum.go:124-130 | two nodes at version 2^64-1 with different contents that three rounds leave apart |
| RangeRepair.RangeRepairProgress | internal/gossip/delta/runtime.go:239-258 | one round lowers the gap by at least min(256, gap) when there is room, and moves a foreign watermark if and only if there is room |
| RangeRepair.RecordJammed | internal/gossip/anti_entropy/history.go:50-69 | a history full of entries above its watermark evicts the very delta it waits for |
| RangeRepair.RangeRepairTerminates | internal/gossip/anti_entropy/digest.go:10-33 | where every gap has room, n rounds close gaps of at most 256 n |
| RangeRepair.JammedStays | internal/gossip/delta/runtime.go:239-258 | a jammed foreign origin keeps its gap after any number of rounds |
| RangeRepair.RepairedExactlyWithRoom | internal/gossip/delta/runtime.go:239-258 | some number of rounds closes every gap if and only if every origin with a gap is the receiver's own or has room |
| JammedRun.JammedReachable | internal/gossip/anti_entropy/history.go:50-69 | a run from the start in which one lost delta jams a history for good |
| ServedRun.OwnDeltaServedInRun | internal/gossip/delta/runtime.go:301-307 | a run in which the flood of a delta is lost and its origin serves it from its own history |
| RangeRepair.ReachableReady | internal/gossip/delta/runtime.go:64-109 | every node of every run meets the standing assumptions of both repair results |
| Convergence.RoundLearned | internal/gossip/delta/runtime.go:163-288 | a digest round, however it is answered, raises the receiver on every origin on which it lags and on no other |
| Convergence.RepairConverges | internal/gossip/delta/runtime.go:163-288 | alternating rounds make watermarks equal, and three more make contents equal unless a version is exhausted |
| Convergence.QuiescentNodesConverge | internal/gossip/anti_entropy/digest.go:10-54 | so it is for any two nodes of any run once nothing else happens and no history is jammed |
| Continuation.RoundIsRun | internal/gossip/delta/runtime.go:116-131 | a digest round is a broadcast and at most three deliveries of the cluster |
| Continuation.RunsConverge | internal/gossip/delta/runtime.go:116-346 | every run in which neither history is jammed can be continued, by messages between the two nodes alone, to equal watermarks and, unless a version is exhausted, to equal contents |
| Membership.MergeOneKey | internal/membership/table.go:133-180 | one entry raises one record to the maximum, keeps the table valid, and is reported exactly on a rise or an unanswerable accusation |
| Membership.MergeIsMax | internal/membership/table.go:126-182 | Merge is the pointwise maximum for peers, and for the node itself the maximum of its own incarnation and one above every accusation |
| Membership.MergeReports | internal/membership/table.go:126-182 | true exactly when some record rose or an accusation at the last incarnation arrived |
| Membership.MergeIndependent | internal/membership/table.go:122-182 | order, batching, duplication and times do not matter to incarnations and statuses |
| Membership.MergeEndpoint | internal/membership/table.go:152-178 | a peer keeps its endpoint unless its record rises, and then gets that of the first entry with the highest claim |
| Membership.EndpointsFirstWin | internal/membership/table.go:152-178 | the order of a batch cannot matter to a peer's endpoint if and only if the record does not rise or all entries with the highest claim name one endpoint |
| Membership.EndpointsDiffer | internal/membership/table.go:153-163 | two entries whose order decides the endpoint |
| Membership.ObserveKey | internal/membership/table.go:85-120 | direct evidence sets the record to alive at the stated incarnation; it lowers a record only by clearing a suspicion or death of the same life |
| Membership.MarkMissedKey | internal/membership/table.go:244-261 | a missed probe lowers a record if and only if a dead member's misses lie between the two thresholds |
| Membership.DeadBecomesSuspect | internal/membership/table.go:253-260 | with the thresholds in use, the third missed probe turns a member reported dead into a suspect |
| Membership.ProbeCharged | internal/membership/table.go:244-261 | a missed probe is one more miss for the member behind the address, and nothing for anyone else |
| Membership.MissesAccumulate | internal/membership/table.go:253-260 | misses in a row make an alive member suspect and then dead, at exactly the thresholds |
| Membership.ContactMade | internal/membership/table.go:96-119 | direct contact makes the address the member's, forgives its misses, starts its clock, and drops its other addresses when its life or endpoint is new |
| Membership.RecordTaken | internal/membership/table.go:165-178 | an accepted record does so for its node |
| Membership.DialledAddress | internal/membership/table.go:231-242 | an address that was dialled leads to the member that answered |
| Membership.TimeoutsKey | internal/membership/table.go:263-279 | timeouts are a pointwise maximum with what the silence calls for, and never touch the node itself |
| Membership.ContactTimesOut | internal/membership/table.go:263-279 | after a contact the member is alive before suspectAfter, suspect from then on, dead from deadAfter on |
| Membership.ApplyKeeps | internal/membership/table.go:85-279 | every operation keeps the table valid, contact addresses pointing at known members, all members, and every incarnation from falling |
| MembershipTable.Table.constructor | internal/membership/table.go:53-75 | a table that knows only its own node, alive, at a non-zero incarnation |
| MembershipTable.Table.ObserveAlive | internal/membership/table.go:88-120 | whole new state, and whether anything but times changed |
| MembershipTable.Table.Merge | internal/membership/table.go:126-182 | the loop yields the pointwise maximum, and its result is exact |
| MembershipTable.Table.MergeEntry | internal/membership/table.go:133-180 | the loop body, including self-refutation; the branch that fills in a missing endpoint is never reached |
| MembershipTable.Table.ClearTargetsForNode | internal/membership/table.go:201-207 | exactly the contact addresses of one node go |
| MembershipTable.Table.AssociateTarget | internal/membership/table.go:231-242 | only known members gain contact addresses |
| MembershipTable.Table.MarkMissedByEndpoint | internal/membership/table.go:244-261 | whole new state of a missed probe |
| MembershipTable.Table.ApplyTimeouts | internal/membership/table.go:263-279 | whole new state, whatever the order of iteration |
| MembershipTable.Table.Entries | internal/membership/table.go:281-308 | every member with an endpoint, once, sorted by node id |
| MembershipTable.Table.DisseminatedMembership | internal/membership/bootstrap.go:453-470 | true records without duplicates, at most 64, complete when they fit; the own record is missing exactly when it has no endpoint and the others fit |
| MembershipTable.NothingToTell | internal/membership/bootstrap.go:453-456 | a new node without an endpoint tells nothing, not even itself |
| MembershipCluster.Bootstrapper.NewPayload | internal/membership/bootstrap.go:432-451 | a payload states the sender's own record and a disseminated batch |
| MembershipCluster.Bootstrapper.HandlePing | internal/membership/bootstrap.go:114-126 | merge, then observe the sender, then answer from the resulting table |
| MembershipCluster.Bootstrapper.HandleAck | internal/membership/bootstrap.go:387-397 | merge, observe, and remember the dialled address; refused without effect when malformed |
| MembershipCluster.StepInv | internal/membership/bootstrap.go:114-397 | no step lets a table or packet get ahead of the nodes it speaks of |
| MembershipCluster.NoFutureIncarnation | internal/membership/table.go:126-182 | in every run nothing held or in flight puts a node above its own incarnation, and every node holds itself alive |
| MembershipCluster.Refutation | internal/membership/table.go:139-150 | in every run a packet moves the own incarnation by at most one, exactly on an answerable accusation of the current life, and leaves every processed accusation strictly below unless made at 2^64-1 |
| MembershipCluster.ContactRevives | internal/membership/bootstrap.go:387-397 | in every run direct contact at the sender's current incarnation leaves the sender alive there, whatever was suspected |
| MembershipCluster.PingAckRevives | internal/membership/bootstrap.go:114-126 | in every run a Ping and its Ack leave each end alive at the other, at its current incarnation and stated endpoint |
| MembershipCluster.ExchangeInRun | internal/membership/bootstrap.go:353-399 | taken as three steps after any run, the exchange also leads the dialled address to the one who answered, and moves nobody else |
| MembershipCluster.IncarnationsNeverFall | internal/membership/table.go:122-125 | in every run no table returns to an older incarnation of anyone |

## Left out

- HTTP, configuration, logging, health endpoints, deployment: no state of their own worth stating.
- UDP, contexts, timers, retries, fan-out and peer sampling: replaced by the network that may do anything with an envelope except change it.
- JSON, SHA-256 and RFC 3339: encoders are functions that their decoders invert (Encodings shows that there are such functions), and equal checksums mean equal states; fields that carry only a creation time are dropped.
- Bytes of a log line: an encoded record is assumed non-empty, free of newlines and of surrounding blanks; the framing, the trimming and the scan are modelled byte by byte.
- Floating-point scores: integers, a strict total order; rounding, NaN, infinities and the two zeros do not occur. Event times are integers too.
- Blank trimming and Unicode spaces in names and endpoints: values are taken as already trimmed.
- Endpoint syntax: whether an endpoint has a host and a port is a predicate parameter that rejects the empty string.
- Concurrency below one locked call or one handler: each is one step. The service sends a snapshot in two locked reads (`internal/gossip/delta/runtime.go:362-367`), which the model makes one.
- Sequence and index exhaustion: local updates stop at delta sequence 2^64-1 and journal appends at index 2^64-1. Versions, envelope sequences, watermarks and ranges do wrap or saturate as in the code.
- Short writes: a write either adds the whole line or nothing; a cut line appears only through a crash.
- Torn or failed checkpoint publication: publishing a snapshot file is one atomic update that happens or not.
- Corrupt snapshot files and snapshot metadata: a published checkpoint reads back as written.
- Snapshot.Save and the renaming of files: part of SaveCheckpoint as a map update.
- Cluster: all nodes share one TOP-K bound, node names are unique, and journals sync on every append; batch and unsynced modes are covered by the log and checkpoint results only.
- Cluster.WatermarkSoundness: stated for an aggregate that all applied snapshots carried, because OverAdvance shows it false otherwise.
- Cluster.StrongConvergence: compares contents and estimates, not Lamport versions, which replay inflates.
- Recovery.RecoveryRefinesLive: contents and delta sequence, not Lamport versions, for the same reason.
- Envelope payload decoding: envelopes carry decoded messages; one that does not parse is dropped, like any lost envelope, though a flooded delta first moves the message guard. The checks made after parsing are modelled.
- Closing the outbound queue and draining it, DroppedOutbound, Estimates of the manager: one-line wrappers.
- The error of closing the log file itself, and the WAL index that Recover also returns and nobody reads.
- RetryingSender, GuardedReceiver and endpoint comparison: no kept state, or the same guard again.
- MembershipCluster: no restarts, so incarnations taken from the clock are only starting values; the sequence number that pairs an Ack with its Ping is dropped, which adds runs but removes none.
- MembershipTable.Table.DisseminatedMembership: the random shuffle is a parameter, any order of the other records.
- History.DeltaHistory.AdvanceEach, GossipRuntime.GossipNode.ApplyAndRecord and their like: loop bodies and pairs of statements given a name to keep their proofs short.
- Convergence.QuiescentNodesConverge: without a jammed origin; with one, whether the snapshot fallback happens to help depends on what the peer still stores.
