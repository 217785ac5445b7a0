# A verified model of replog

replog is a Kafka-style replicated log: a controller elects partition leaders, brokers append to segmented logs on
disk, followers copy their leader, and clients produce, fetch and commit offsets. This project models its storage
engine, its replication protocol, its two acknowledgement queues, its controller, wire format, group coordinator,
offsets store and offline checker, and proves what they keep over all inputs and all runs.

How the modules build on each other:

- **Storage.** `RecordCodec`, `Layout` and `SegmentSpec` go from bytes to records and index entries. `Index`,
  `SegmentFile` and `PartitionLog` are the classes that write through to `Disk.Directory`, a set of files each with
  the length that fsync has secured. `LogSpec.Inv` says that the directory and the fields in memory stand for one
  sequence of records, whatever the segment layout; `LogSpec` and `Truncation` prove that every operation keeps it.
  `LogBounds` says how much is at risk and how large segments get, `CrashRecovery` and `OpenLog` open what a crash left,
  and `Damage` is about directories that no crash leaves.
- **The partition thread.** `EpochHistory` is the epoch checkpoint, `AckLedger` the queue of durable
  acknowledgements, and `PartitionThread` the thread that serves commands over both and the log.
- **Replication.** `Follower` and `FetcherLoop` are a follower, `HighWatermark`, `Leadership` and `ReplicaState` a
  leader. `LogAgreement` is the protocol as a machine over any number of epochs and replicas, and `Lineage` traces
  every record in it to the epoch that it was written in. `EpochReconciliation` decides when the answer to an epoch
  check and the read for a fetch are safe, and `LogDivergence` has runs of the machine (put together with
  `ClusterRuns`) in which they are not. `AcksAll` is one leader epoch with its acknowledgements, `Durability` runs it
  inside `LogAgreement`, and `AcksQueue` follows one broker's queue of acks=all produces from role to role.
- **Control.** `ClusterState` and `ControllerProcess` are the controller, `Snapshot` its file, `LeaderTurns` its runs
  that publish the leaders of `LogDivergence`. `Groups` and `Coordinator` share partitions out among consumers,
  `Offsets` replays the offsets topic.
- **Messages.** `Wire` gives meaning to message formats, `Proto` lists them, `WireIO`, `ProtoIO` and `FetchIO` write
  and read them in place. `Checker` decides whether a recorded history is correct.

Classes are proved against functions of their abstract state; the theorems are about those functions. CRC-32 is a
parameter: nothing depends on what it computes.

## What turned out not to hold

- **Log agreement needs a condition on the epoch check.** A leader that does not list the follower's last epoch
  answers with the end of an earlier one, and whoever is asked may not lead the follower's epoch any more when it
  looks. `EpochReconciliation.CheckIsExact` gives the exact condition, over the two checkpoints alone, under which
  what the follower keeps is its epoch's whatever the logs hold; `LogDivergence.Divergence` is a run of twelve steps
  from an empty cluster in which a follower that has reconciled holds a record its leader does not.
  `LeaderTurns.DivergenceIsPublished` shows that the controller publishes the leaders of this run, and
  `LeaderTurns.LateReadIsPublished` and `LeaderTurns.SecondCutIsPublished` those of the two below.
- **It needs a condition on fetches too.** The leader looks at its role when a fetch arrives, waits for records, and
  reads its log later without looking again (`src/broker/mod.rs:1150-1173`, `src/broker/mod.rs:1396-1442`). In
  `LogDivergence.LateRead` it has become a follower of the next epoch by then, and what it read is taken for its old
  epoch's, although every epoch check met its condition. `EpochReconciliation.FetchIsExact` gives the exact condition:
  the checkpoint of whoever is read lists the fetcher's epoch and says that it has not ended before.
  `LogAgreement.Agreement` holds over all runs that meet both conditions; while the leader still leads, the second
  always holds (`LogAgreement.LeaderReads`) and the first comes down to an epoch that both list
  (`LogAgreement.LeaderAnswers`).
- **A follower that reconciles twice can lose more the second time**, with both answers meeting their condition.
  `LogDivergence.SecondCut` is such a run from an empty cluster: the record that goes is in the leader's log as well.
  `EpochReconciliation.SecondCheckIsExact` says when further checks cut nothing more, over the two checkpoints alone.
  Acknowledgements are not touched: no answer that meets its condition takes from a follower what the leader has
  written itself, in this epoch or in one that it led before (`Lineage.SecondCheckKeepsOwn`), so
  `Durability.AckedIsOnEveryBroker` needs no condition on second checks.
- **An acks=all acknowledgement needs a condition on ISR growth.** Admission looks at the clock, not at the offset, and
  the clock of a follower that has not fetched starts with its leader's. `AcksAll.LateAdmissionLosesAck` has a run for
  every `min_insync_replicas` and every lag: the ISR has its minimum size, all of it fetches a batch, the batch is
  acknowledged, and then a follower that has fetched nothing is taken into the ISR. `AcksAll.AdmissionIsExact` shows
  that, from what a leader knows, growing the ISR is safe if and only if whoever joins is known to have whatever counts
  below the mark; `AcksAll.AckedIsEverywhere` holds over all runs that do so.
- **A produce that begins to wait after its leader has stepped down can be acknowledged although it is lost.** Its
  batch is appended first and put in the queue later (`src/broker/mod.rs:930-961`); stepping down refuses what is in
  the queue by then, and nothing refuses what comes after. In `AcksQueue.LateParkIsFalse` the broker loses the batch
  as a follower, leads again, and answers it when the mark passes where it was. Whatever begins to wait while its
  leader still leads the epoch stays in the leader's log until it is answered or refused (`AcksQueue.WaitingIsOwn`).
  A broker that looked at its own checkpoint before it answers would give true answers only:
  `AcksQueue.AnswerIsExact` is the exact test.
- **A crash can strand the epoch checkpoint.** The checkpoint is fsynced at once and the records before it are not.
  `PartitionThread.CrashStrandsCheckpoint` is such a crash: afterwards the checkpoint starts past the log end and
  refuses the next epoch. No crash can do this if and only if what comes before the last epoch is on stable media
  (`PartitionThread.CheckpointSurvives`), and without a crash no epoch is refused
  (`PartitionThread.Writer.RecordEpoch`).
- **The record decoder accepts bytes that the encoder never writes**: exactly those with a key length below -1
  (`RecordCodec.DecodeIsCanonical`), and every such length occurs (`RecordCodec.OtherNullKeys`).
- `PLAN.md:81` says that recovery truncates at an offset discontinuity. The code returns an error, and so does the
  model (`SegmentFile.Segment.Recover`).

## Model

| member | source | states |
|---|---|---|
| RecordCodec.DecodeInverts | src/storage/record.rs:49-138 | decoding an encoded record followed by any bytes gives it back with its length, exactly when the length is within the reader's limit |
| RecordCodec.FieldsInPlace | src/storage/record.rs:49-76 | where each field of an encoded record is, with the lengths counted as the format says |
| Bytes.LittleEndian | src/storage/record.rs:49-76 | numbers are written with the least significant byte first |
| RecordCodec.TornIsIncomplete | src/storage/record.rs:78-138 | every proper prefix of an encoded record is incomplete, never a record and never corruption |
| RecordCodec.DecodeIsCanonical | src/storage/record.rs:78-138 | bytes that decode are the encoding of what they decode to, if and only if the key length field is at least -1 |
| RecordCodec.OtherNullKeys | src/storage/record.rs:78-138 | for every record without a key and every length below -1 there are such bytes |
| RecordCodec.DecodeIgnoresRest | src/storage/record.rs:78-138 | decoding depends on no byte past the record |
| RecordCodec.EncodeInto | src/storage/record.rs:54-76 | writing in place with a checksum patched in afterwards appends the record's encoding |
| Config.AcceptedIsReadable | src/storage/log.rs:121-131 | with a validated configuration, every record that the size test of an append lets through is decoded to itself under the same configuration |
| Layout.ScanTorn | src/storage/segment.rs:76-120 | a scan of a segment file cut anywhere finds exactly the records that survived whole, in order, and stops where the last of them ends |
| Layout.IndexIsSound | src/storage/segment.rs:149-164 | in a file below 4 GiB every index entry that appends make names a record by its true relative offset and position; the casts to 32 bits lose nothing |
| LogSpec.ScanIsShort | src/storage/segment.rs:149-164 | the index is dense enough: from where a lookup starts, a scan passes fewer bytes than the configured interval and one longest record before it reaches what was asked for |
| Layout.TornIndex | src/storage/index.rs:33-54 | an index file cut anywhere loads as a prefix of what was written, or is recognised as malformed |
| Layout.ParseEncodeEntries | src/storage/index.rs:33-64 | loading an index file gives back the entries that were written |
| Layout.EncodeParseEntries | src/storage/index.rs:33-64 | a file that loads is exactly what writing its entries gives |
| Index.SparseIndex.Load | src/storage/index.rs:33-54 | the loop over the file accepts exactly the files of strictly increasing entries |
| Layout.Lookup | src/storage/index.rs:66-75 | the greatest entry at or below the asked offset |
| SegmentSpec.ReadIsRun | src/storage/segment.rs:173-216 | on a good segment a read from an offset gives the budgeted run that starts there, for every index that is a subset of the true positions |
| SegmentSpec.BudgetedRunUnique | src/storage/segment.rs:173-216 | offset and budget determine that run: non-empty, within the budget unless it is one record, and as long as possible |
| SegmentSpec.PositionIsPos | src/storage/segment.rs:220-251 | on a good segment the position of an offset is where its record starts, for every index that is a subset of the true positions |
| SegmentFile.Segment.Recover | src/storage/segment.rs:50-145 | recovery of any file and any index file does what its specification says: the fields and what is left on disk, or the error |
| SegmentFile.Segment.Append | src/storage/segment.rs:149-164 | one record goes to the end of the file, with an index entry exactly when the configured number of bytes has passed since the last one |
| SegmentFile.Segment.ReadFrom | src/storage/segment.rs:173-216 | the read loop computes the specified read |
| SegmentFile.Segment.PositionOf | src/storage/segment.rs:220-251 | the search loop computes the specified position |
| Truncation.RecoverTorn | src/storage/segment.rs:50-145 | the newest segment, cut anywhere and under any index file, recovers as exactly its whole records with the index that appends build |
| Truncation.RecoverClosed | src/storage/segment.rs:50-101 | a closed segment recovers with all its records under an index file that has lost any entries, is unreadable or is gone |
| Damage.RecoverDamaged | src/storage/segment.rs:76-145 | good records followed by anything else: a record out of sequence is an error wherever it is; what is no record is cut off the newest segment, keeping all before it, and is an error in a closed one, each error naming the offset and the position |
| Damage.ReadDamaged | src/storage/segment.rs:173-216 | a read never passes over corruption: it gives the budgeted run of the good records before it if the budget ends there, and otherwise fails and says where |
| Damage.OpenIsContiguous | src/storage/log.rs:42-75 | a directory that opens has every segment: each begins where the one before it ends, and none in between is passed over |
| Damage.GapIsInvalidLayout | src/storage/log.rs:42-75 | when every segment by itself is good, a gap between them is the only reason to refuse a directory, and it is called an invalid layout |
| Truncation.CutKeepsInv | src/storage/log.rs:219-283 | cutting the tail leaves a good log, for every segment layout |
| LogSpec.AppendKeepsInv | src/storage/log.rs:121-152 | an append leaves a good log |
| LogBounds.AppendKeepsFit | src/storage/log.rs:121-152 | an append leaves every segment within the configured size unless it holds one record alone |
| LogBounds.CutKeepsFit | src/storage/log.rs:219-283 | so does a cut, which may make any closed segment the active one |
| LogBounds.UnflushedAfterCut | src/storage/log.rs:219-283 | a cut leaves no more at risk than there was: the durable offset stays if the cut is above it and is the new last record otherwise |
| LogBounds.LossIsBounded | src/storage/log.rs:121-163 | whatever prefix a crash leaves that reaches past the durable offset, the bytes missing are at most those of the records that were not durable |
| LogSpec.FlushKeepsInv | src/storage/log.rs:154-163 | fsyncing only the active file makes the whole log durable, because every closed segment already is |
| LogSpec.RollKeepsInv | src/storage/log.rs:186-193 | rolling a flushed segment leaves a good log, and the new segment's name was free |
| PartitionLog.Log.Append | src/storage/log.rs:97-152 | the sequence of records grows by the record at the next offset, or the record is too large and nothing changes |
| PartitionLog.Log.AppendReplicated | src/storage/log.rs:110-152 | a record that does not continue the log, or is too large, changes nothing; any other extends it by one |
| PartitionLog.Log.AppendRecord | src/storage/log.rs:121-152 | over the fields: the append rolls exactly when the segment is not empty and the record would pass the limit; it flushes always under `Always`, under `Batch` exactly when the bytes reach the limit or the window has expired, and never under `Os`; so the byte counter stays below the limit, and it covers whatever is not durable |
| PartitionLog.Log.Flush | src/storage/log.rs:154-163 | the records stay, the last offset is durable and nothing is at risk |
| PartitionLog.Log.Roll | src/storage/log.rs:186-193 | the records stay, the outgoing segment is durable and closed, the new one is empty |
| PartitionLog.Log.Read | src/storage/log.rs:165-184 | a non-empty contiguous run from the asked offset within the budget (or one record), empty at the end, an error outside |
| PartitionLog.Log.TruncateSuffix | src/storage/log.rs:219-283 | the sequence of records is cut at the offset for every segment layout; past the end nothing changes, before the start it is refused; a cut above the durable offset keeps it, any other makes it the new last record |
| PartitionLog.RecordAt | src/storage/log.rs:97-152 | in every good log each record sits at its own offset |
| OpenLog.Open | src/storage/log.rs:31-95 | opening any directory does what its specification says: the log and what is left on disk, or the error; sizes out of range are refused before anything is touched |
| OpenLog.OpenAfterCrash | src/storage/log.rs:31-95 | opening after a crash succeeds with a prefix of what was written, all that was durable in it; what comes back is durable, and what is missing is no more than was at risk |
| CrashRecovery.Recovery | src/storage/log.rs:31-95 | after a crash that keeps all synced bytes, any prefix of the rest of the active file and any prefix of each index file, opening gives a good log holding a prefix of what was written: every durable record, and the interrupted append whole or not at all |
| CrashRecovery.SecuredSurvives | src/storage/log.rs:31-95 | no crash leaves less than the records that are whole on stable media |
| CrashRecovery.WorstCrash | src/storage/log.rs:31-95 | some crash leaves no more than those |
| CrashRecovery.OpenRestores | src/storage/segment.rs:83-101 | opening undisturbed files restores every field: the index rebuilt from the file is the one that appends built |
| CrashRecovery.RecoveryIsIdempotent | src/storage/log.rs:31-95 | recovering a second time finds what the first found and changes nothing |
| EpochHistory.EpochCheckpoint.Load | src/storage/epoch.rs:29-60 | a checkpoint loads if and only if its bytes are the image of a monotone list |
| EpochHistory.EpochCheckpoint.Append | src/storage/epoch.rs:76-105 | repeating the last entry changes nothing, going back is refused, anything else is added to memory and file |
| EpochHistory.EpochCheckpoint.EndOffsetFor | src/storage/epoch.rs:107-118 | the loop finds where the epoch ended |
| EpochHistory.EndOfIs | src/storage/epoch.rs:107-118 | the three answers: 0 for an epoch before the whole history, the log end for the last epoch and later ones, and the start of the next listed epoch for any other |
| EpochHistory.EpochCheckpoint.TruncateTo | src/storage/epoch.rs:120-143 | the entries at or past the cut go, from memory and file |
| EpochHistory.SameFileSameEntries | src/storage/epoch.rs:29-60 | a checkpoint file is the image of one list only, so reloading gives the same entries |
| EpochHistory.EndOfGrows | src/storage/epoch.rs:107-118 | a later epoch ends no earlier, and none ends past the log |
| EpochHistory.KeptIsBelow | src/storage/epoch.rs:120-143 | the entries kept by a cut are all those below it, and are monotone and inside the shorter log |
| AckLedger.DrainMovesFront | src/broker/partition.rs:399-409 | draining moves exactly the covered front of the queue to the answers |
| AckLedger.DrainLeavesUncovered | src/broker/partition.rs:399-409 | after draining nothing that waits is covered, though only the front was looked at, and every answer given is true |
| AckLedger.AnswerIs | src/broker/partition.rs:271-304 | the answer to one append: at once for a failed batch (its error), an empty one, acks that ask for no durability, a broker that never flushes or a last record that is durable already; otherwise it waits for its last record, last in the queue |
| AckLedger.AppendKeeps | src/broker/partition.rs:242-304 | an append answered now or parked keeps the ledger: each ticket is answered at most once, every answer, positive or not, is true of what was asked with its ticket, and whatever waits is in order and has the flush timer armed |
| AckLedger.FlushKeeps | src/broker/partition.rs:390-409 | a flush keeps the ledger and empties the queue |
| AckLedger.ReplicatedKeeps | src/broker/partition.rs:325-347 | records appended for a follower leave every answer true and the queue in order |
| AckLedger.AckedSurvives | src/broker/partition.rs:284-304 | every positive answer names the whole batch, and a non-empty batch acknowledged as durable is in any log recovered as a prefix that reaches past the durable offset |
| PartitionThread.AppendAll | src/broker/partition.rs:242-270 | a batch is appended up to the first record that the log refuses, at consecutive offsets |
| PartitionThread.Writer.Append | src/broker/partition.rs:242-304 | one produce: what the log gains, and for its ticket, over the fields, exactly when it is answered at once and with what, and how it waits otherwise; a batch that stops at a record too large is refused for every kind of acknowledgement |
| PartitionThread.Writer.AtRisk | src/broker/partition.rs:166-198 | what a crash can cost a partition thread: nothing under `Always` and less than the byte limit under `Batch`, although the log under it has no time window of its own |
| PartitionThread.Writer.Read | src/broker/partition.rs:305-324 | what a read through the thread returns, and its errors |
| PartitionThread.Writer.AppendReplicated | src/broker/partition.rs:325-347 | the batch up to the first record that does not continue the log or is too large, which of the two the error says, and that the ledger stays sound |
| PartitionThread.Writer.TruncateTo | src/broker/partition.rs:348-361 | log and checkpoint are cut together, and the checkpoint stays inside the log |
| PartitionThread.Writer.RecordEpoch | src/broker/partition.rs:362-368 | the epoch starts at the log end, unless it is no later than the last one or the last one starts past the log end; a checkpoint inside the log never refuses it |
| PartitionThread.Writer.EpochEndFor | src/broker/partition.rs:372-374 | where an epoch ended, never past the log end |
| PartitionThread.Writer.Timeout | src/broker/partition.rs:375-381 | the timer flushes when its window is over: everything is durable and nothing waits |
| PartitionThread.Writer.Run | src/broker/partition.rs:220-388 | over any sequence of commands the log, the checkpoint and the ledger stay good and no answer is taken back; with commands from clients only, every answer is true, whatever waits has the timer armed and nothing waits at the end; with records from a fetcher but nothing cut, answers are still true, whatever waits is durable or has the timer armed, and nothing waits at the end |
| PartitionThread.SpawnAfterCrash | src/broker/partition.rs:166-198 | restarting on what a crash left, the log holds every batch that was acknowledged as durable |
| PartitionThread.CrashStrandsCheckpoint | src/broker/partition.rs:362-368 | a crash after which the checkpoint starts past the log end and refuses the next epoch |
| PartitionThread.CheckpointSurvives | src/broker/partition.rs:362-368 | after every crash the checkpoint lies inside the recovered log, if and only if all of its starts lie at or before the last record that is whole on stable media |
| FetcherLoop.Fetcher.Reconcile | src/broker/cluster.rs:150-212 | the follower's log and checkpoint are cut at the leader's answer if that lies inside the log and the replica's role is still the one the fetcher was started for |
| FetcherLoop.Fetcher.Fetch | src/broker/cluster.rs:214-273 | unless the role has changed, a new epoch is stamped at the log end before the fetched records that continue the log are appended |
| EpochReconciliation.CheckIsExact | src/broker/cluster.rs:165-212 | what a follower keeps is its epoch's, whatever the logs hold, and its next records are recorded under it, if and only if its own checkpoint, or the other together with an epoch that both list, covers what is kept, and a cut of an epoch that it lists already leaves it listed |
| EpochReconciliation.ListedIsShared | src/storage/epoch.rs:107-118 | an epoch that both list covers what is kept when the leader lists the follower's last epoch, or nothing at or below it |
| EpochReconciliation.SecondCheckIsExact | src/broker/cluster.rs:165-212 | for any two checkpoints, asking the same leader again cuts nothing more, however often, if and only if the first time cut nothing or everything, or the leader lists something at or below the last epoch that the follower has left and nothing later than that before where its log ends |
| EpochReconciliation.SecondCheckCuts | src/broker/cluster.rs:165-212 | that condition can fail while both answers meet theirs: two checkpoints for which it does |
| EpochReconciliation.FetchIsExact | src/broker/mod.rs:1396-1442 | what is read for a fetch is the fetcher's epoch's, whatever the logs hold, if and only if the checkpoint of whoever is read lists the epoch and says that it has not ended before the last record read |
| LogAgreement.Agreement | src/broker/cluster.rs:142-272 | over all runs of any number of replicas and epochs in which every answer to an epoch check and every read for a fetch met its condition, whenever it came: each log agrees with what an epoch's one leader wrote up to where it lists that epoch's end, a leader's log is its term, and a follower that has reconciled holds a prefix of its epoch's log and goes on doing so |
| LogAgreement.RunKeeps | src/broker/mod.rs:581-662 | the invariant behind it is kept by every step: publishing, adopting a role, appending, letting requests in, answering them later, reconciling, delivering and stopping |
| LogAgreement.LeaderAnswers | src/broker/mod.rs:1189-1229 | while the leader still leads the follower's epoch, the condition on its answer is that an epoch both list covers what is kept |
| LogAgreement.LeaderReads | src/broker/mod.rs:1396-1442 | while the leader still leads the fetcher's epoch, every read meets its condition |
| LogDivergence.Divergence | src/broker/mod.rs:1189-1229 | a run from an empty cluster after which a reconciled follower holds a record that its leader does not, at the same offset |
| LeaderTurns.DivergenceIsPublished | src/controller/mod.rs:391-425 | a run of the controller that publishes exactly the leaders of that first divergence, in order |
| LogDivergence.LateRead | src/broker/mod.rs:1396-1442 | a run from an empty cluster, every epoch check meeting its condition, after which a follower lists a record under an epoch whose leader never wrote it |
| LogDivergence.SecondCut | src/broker/cluster.rs:165-212 | a run from an empty cluster, every check and read meeting its condition, in which a follower's second check with one leader takes a record that both have |
| LeaderTurns.LateReadIsPublished | src/controller/mod.rs:391-425 | the same for the late read, among its three brokers |
| LeaderTurns.SecondCutIsPublished | src/controller/mod.rs:391-425 | the same for the second cut, whose first leader goes offline and leads again |
| Lineage.RunLine | src/storage/epoch.rs:76-143 | over all runs that meet the conditions on answers and reads, all checkpoints that cover an offset trace its record to one epoch, and each replica lists an epoch that it led from where it began to lead |
| Lineage.SecondCheckKeepsOwn | src/broker/cluster.rs:165-212 | a second check with the leader never takes from a follower a record that the leader wrote itself and that the first left |
| HighWatermark.CoveredIsLeast | src/broker/cluster.rs:78-97 | the mark is the greatest offset that every ISR member is known to have reached |
| HighWatermark.DrainSplits | src/broker/cluster.rs:107-122 | draining splits the queue by the mark and loses or doubles nothing, in whatever order batches were parked |
| ReplicaState.Replica.AdvanceHwm | src/broker/cluster.rs:78-104 | the mark moves up to what the ISR covers, never down, and what it passes is answered |
| ReplicaState.Replica.StartProduce | src/broker/mod.rs:857-945 | a refused produce appends and asks nothing; an accepted one appends up to the first record too large, and its ticket asks the log for its own kind of acknowledgement, or for acks=all for one as soon as it is written, whose answer is known at once |
| ReplicaState.Replica.FinishProduce | src/broker/mod.rs:946-985 | whatever has become of the role meanwhile, an acks=all batch that is in the log waits exactly until the mark has passed its last record, and nothing else waits |
| ReplicaState.Replica.ReplicaFetch | src/broker/mod.rs:1130-1188 | a follower's fetch records its offset, moves its catch-up time exactly if it asks from the log end or past it, and moves the mark |
| ReplicaState.Replica.ApplyMetadata | src/broker/mod.rs:581-662 | role, ISR, progress, fetcher and waiting produces after new metadata; a new leader stamps its epoch at its log end |
| ReplicaState.Replica.ProposeIsr | src/broker/mod.rs:685-727 | over the fields: the ISR asked for or kept is the leader and exactly the replicas whose last catch-up, or the begin of the leadership if they never caught up, lies within the lag; it is asked for in ascending order, exactly when it differs from the present one |
| ReplicaState.Replica.IsrAccepted | src/broker/mod.rs:728-741 | an accepted proposal takes effect only in the epoch it was made in |
| Leadership.DesiredIsRecent | src/broker/mod.rs:697-708 | the list holds exactly the leader and the replicas whose last catch-up, or the begin of the leadership for one that has not fetched, lies within the lag, whatever they hold |
| Leadership.WantedIsRecent | src/broker/mod.rs:697-725 | the same of the ISR that the leader asks for or keeps |
| Leadership.FetchCountsForLag | src/broker/mod.rs:1146-1188 | over calls: after a fetch at the log end a follower is wanted in the ISR exactly until the lag has passed since that fetch; a fetch below the log end changes nothing, nor does either for anyone else |
| ReplicaState.Replica.TryFetch | src/broker/mod.rs:1324-1392 | a consumer fetch gives a run from the asked offset below the mark, an error past the log end, or nothing yet |
| AcksAll.FetchesAgree | src/broker/mod.rs:1324-1392 | any two fetches that the leader serves within one run of its epoch agree on every offset both return |
| AcksAll.AckedIsEverywhere | src/broker/mod.rs:930-975 | over all runs of one leader epoch that admit only followers known to have what counts below the mark: the mark never falls and never passes the log end, each waiting batch is answered at most once, and every answered batch, those that waited from earlier epochs included, is in the log of every ISR member |
| Durability.AckedIsOnEveryBroker | src/broker/mod.rs:930-975 | from an empty cluster through any number of epochs to a new leader's, with followers that move on and requests that arrive late: what it acknowledges to acks=all produces is in the log of every broker of its ISR that is still in its epoch, and of the ISR member that leads the next one, under the conditions of log agreement and of admission |
| AcksQueue.WaitingIsOwn | src/broker/mod.rs:946-985 | over all runs of a broker through any roles in which every batch begins to wait while its epoch is still led: only a leader has batches waiting, and what waits or is answered is in its log as it wrote it for that batch, which is what `Durability` asks of a new leader's queue |
| AcksQueue.AnswerIsExact | src/broker/cluster.rs:78-122 | whatever the logs hold, an answer to a batch is true if and only if the broker's checkpoint lists the batch's epoch and says that it has not ended before the batch's last record |
| AcksQueue.LateParkIsFalse | src/broker/mod.rs:946-985 | a run from an empty cluster, every check and read meeting its condition, in which a batch that comes to the queue late is answered with success although its broker has lost it |
| AcksAll.AdmissionIsExact | src/broker/mod.rs:697-708 | in every state that looks the same to the leader the new ISR holds whatever counts below the mark, if and only if whoever joins is known to have fetched it |
| AcksAll.LateAdmissionLosesAck | src/broker/mod.rs:697-741 | a run, for every minimum size of the ISR and every lag, in which a batch that the whole ISR has is answered and the recency rule then admits a follower that lacks it |
| ClusterState.ElectionKeeps | src/controller/mod.rs:391-425 | election takes the leader from the previous ISR, raises the epoch, keeps the ISR a non-empty set of replicas with the leader in it, and leaves a leader exactly when an ISR member is alive |
| ClusterState.ElectionIs | src/controller/mod.rs:391-425 | partition by partition: a live leader stays; otherwise the first live ISR member leads the next epoch and the live members are the ISR, in their order (`ClusterState.RetainedInOrder`); with none alive the partition only goes offline |
| ClusterState.RetainedInOrder | src/controller/mod.rs:391-425 | the ISR after an election is what was alive in it, in the same order and each as often |
| ClusterState.WrapsOnce | src/controller/mod.rs:228-268 | the replicas of a new partition are distinct brokers |
| ClusterState.EventStep | src/controller/mod.rs:176-346 | every request, sweep and restart keeps all partitions good, availability (restart apart), and the meaning of the version |
| ClusterState.RunKeeps | src/controller/mod.rs:176-346 | over any run with restarts partitions stay good, epochs never go back and equal versions mean equal metadata; without a restart every partition with a live ISR member has a leader |
| ClusterState.OneLeaderPerEpoch | src/controller/mod.rs:391-425 | no partition ever has two leaders in one epoch |
| ClusterState.RegisterStep | src/controller/mod.rs:178-202 | a registration restores availability from any state |
| ClusterState.RegisterIs | src/controller/mod.rs:178-202 | after a registration the broker is alive under its addresses, every other is as before, elections follow, and the version grows unless nothing published changed |
| ClusterState.BeatIs | src/controller/mod.rs:203-223 | a heartbeat of an unknown broker changes nothing; any other revives and renews the broker, a revival elects, and the version grows exactly if the topics changed |
| ClusterState.CreateIs | src/controller/mod.rs:228-268 | a topic is created exactly if it is new, has 1 to 1024 partitions and at most as many replicas as brokers are alive: that many distinct replicas for each partition, around the live brokers from one place further each, the first of them leading epoch 1 with all in the ISR |
| ClusterState.AlterIs | src/controller/mod.rs:269-316 | an ISR change passes exactly if the partition exists, the epoch is its present one and the new ISR holds the leader and only replicas; then only the ISR and the version change, otherwise nothing |
| ClusterState.StaleLeaderIsFenced | src/controller/mod.rs:285-288 | over any run: once another broker leads a partition, an ISR change in the epoch of the one before is answered with a fenced epoch and changes nothing |
| ClusterState.SweepIs | src/controller/mod.rs:329-346 | a sweep takes for dead exactly the live brokers that have been silent for longer than the timeout; elections and a new version follow exactly if there was one |
| ClusterState.PublishesInOrder | src/controller/mod.rs:347-386 | what the controller publishes over a run is what log agreement assumes of it |
| Snapshot.SnapshotRoundTrip | src/controller/mod.rs:427-541 | loading a stored snapshot gives back the state, with every broker held dead |
| Snapshot.LoadedDead | src/controller/mod.rs:427-541 | whatever file is loaded, no broker is held alive |
| ControllerProcess.Controller.Start | src/controller/mod.rs:78-136 | a controller started on its file has the stored state field by field with no broker alive, and starts empty without one |
| ControllerProcess.Controller.Register | src/controller/mod.rs:178-202 | the state after a registration, saved before it is answered |
| ControllerProcess.Controller.Beat | src/controller/mod.rs:203-223 | the state after a heartbeat; only a revival elects |
| ControllerProcess.Controller.Create | src/controller/mod.rs:228-268 | the state after a topic is created, or the error that refuses it |
| ControllerProcess.Controller.Alter | src/controller/mod.rs:269-316 | over the fields: an ISR change in another epoch than the present one is fenced; it passes exactly if besides the new ISR holds the leader and only replicas, and then changes that ISR and nothing else |
| ControllerProcess.Controller.Sweep | src/controller/mod.rs:329-346 | silent brokers are dead and their partitions led by others, or nothing changed |
| ControllerProcess.Controller.ElectWhereNeeded | src/controller/mod.rs:391-425 | the election loop elects in every partition and says exactly whether anything changed |
| Groups.ExactlyOneOwner | src/broker/groups.rs:47-83 | every partition below the count of a topic that someone subscribes to has exactly one owner, a subscriber of it, and nothing else is owned |
| Groups.SharesAreEven | src/broker/groups.rs:47-83 | the subscribers, in ascending order of their ids, take consecutive stretches of a topic, the remainder going one each to the first of them |
| Names.NamesByFirstByte | src/broker/groups.rs:47-83 | the order of ids is that of the first byte in which they differ, a prefix before the longer |
| Groups.Assign | src/broker/groups.rs:47-83 | the loops over topics and members compute the range assignment |
| Coordinator.RunKeeps | src/broker/groups.rs:93-211 | over any run assignments stay range assignments, generations never go back, and a generation determines its assignment |
| Coordinator.OneOwnerInGroup | src/broker/groups.rs:93-211 | in every reachable state each partition of each known subscribed topic has exactly one owner in the group |
| Coordinator.JoinIs | src/broker/groups.rs:96-134 | whoever joins is a member under its id, or under the next new one, with what it asked for; a new member or new topics raise the generation by one and reassign the group, a repeat does neither, and other groups are untouched |
| Coordinator.NewMemberIsNew | src/broker/groups.rs:100-112 | in every reachable state a new member gets an id that no member of the group has |
| Coordinator.LeaveIs | src/broker/groups.rs:151-168 | a member that leaves is gone, all others stay as they are, the generation grows by one and the group is reassigned; a stranger changes nothing |
| Coordinator.ExpireIs | src/broker/groups.rs:189-211 | in each group exactly the members that have not been silent past their timeout stay, and the generation grows by one and the group is reassigned exactly if any went |
| Coordinator.ZombieIsFenced | src/broker/groups.rs:170-187 | over any run: once a group has changed its members, topics or assignment, every heartbeat and commit with the generation before is refused; one passes exactly for a member with the present generation |
| Coordinator.GroupCoordinator.Join | src/broker/groups.rs:96-134 | membership, generation and the answer after a join |
| Coordinator.GroupCoordinator.Heartbeat | src/broker/groups.rs:136-149 | over the fields: answered without error exactly for a member with the present generation, as stale for a member with another and as unknown for a stranger; it renews every member, also one with an old generation |
| Coordinator.GroupCoordinator.Leave | src/broker/groups.rs:151-168 | over the fields: a member that leaves is gone, the others share its partitions under the next generation, and a stranger changes nothing |
| Coordinator.GroupCoordinator.CheckCommit | src/broker/groups.rs:170-187 | over the fields: a commit passes exactly if it names no member, or a present one with the present generation; it is stale exactly for a present one with another |
| Coordinator.GroupCoordinator.Expire | src/broker/groups.rs:189-211 | exactly the silent members go, group by group, the rest are reassigned where any did, and the number that went is returned |
| Offsets.ReplayIsLast | src/broker/offsets.rs:42-68 | the replayed map holds a key exactly when a record mentions it, with the value of the last such record |
| Offsets.CommitReadsBack | src/broker/offsets.rs:22-38 | what a commit writes is decoded as the same key and offset |
| Offsets.OffsetsStore.Open | src/broker/offsets.rs:42-68 | replay by bounded reads ends and visits every record once, in order, for every segment layout and record size |
| Offsets.OffsetsStore.Commit | src/broker/offsets.rs:70-87 | a commit extends log and cache together, so the cache stays the replay of the log |
| Wire.EncDec | src/proto/wire.rs:1-123 | for every message format built from the primitives, nested counted lists included, decoding inverts encoding |
| Wire.DecStable | src/proto/wire.rs:52-123 | decoding looks at no byte past the value |
| Wire.PrefixRejected | src/proto/wire.rs:52-123 | no proper prefix of a body is a body of the same format |
| Wire.TrailingRejected | src/proto/wire.rs:115-123 | a body followed by anything is refused |
| WireIO.BodyWriter.OptBlob | src/proto/wire.rs:42-50 | an optional byte string written in place is the next part of the message |
| WireIO.Reader.OptBlob | src/proto/wire.rs:107-113 | an optional byte string read in place is the next part of the message, or the error is the message's error |
| Proto.RequestRoundTrip | src/proto/mod.rs:432-603 | every request within the size limits is read back, none of its proper prefixes is a request and none of its extensions |
| Proto.ResponseRoundTrip | src/proto/mod.rs:604-734 | the same for every response, nested cluster metadata included |
| ProtoIO.PutClusterMeta | src/proto/mod.rs:159-190 | the nested loops write the encoding of the metadata |
| ProtoIO.ReadClusterMeta | src/proto/mod.rs:191-239 | the nested loops read exactly what the format says, or fail as it does |
| ProtoIO.EncodeProduce | src/proto/mod.rs:419-480 | a produce request written in place is its length and its payload |
| ProtoIO.DecodeProduce | src/proto/mod.rs:746-800 | a produce frame read in place gives what the format says, or its error |
| FetchIO.EncodeFetched | src/proto/mod.rs:604-734 | a fetch response for a follower written in place is its length and its payload |
| FetchIO.DecodeFetched | src/proto/mod.rs:869-982 | a fetch response read in place gives what the format says, or its error |
| Checker.History.Verify | src/checker/mod.rs:146-201 | ok exactly when every acknowledged id was delivered, streams increase and each place has one id; each list of violations holds exactly the violations, and duplicates are deliveries minus distinct ids |
| Checker.History.VerifyFromStart | src/checker/mod.rs:209-232 | ok exactly when, besides, each partition's offsets are those from 0 to the greatest; a gap is reported for exactly the other partitions, with its first hole |
| Checker.Pigeonhole | src/checker/mod.rs:209-232 | counting the offsets decides whether all are there |

## Left out

- PartitionThread.Writer.AppendReplicated: does not state that an acknowledgement is sent when its batch becomes
  durable: the code neither drains nor fails the queue when a follower appends or cuts
  (`src/broker/partition.rs:325-361`), so one whose batch such an append makes durable waits, with no timer, until
  the next append or flush.
- PartitionThread.Writer.TruncateTo: what a cut under a waiting durable acknowledgement makes of it is not promised;
  across cuts only that each ticket is answered at most once.
- PartitionThread.Writer.RecordEpoch: that it is never refused is proved for a checkpoint inside the log; after a
  crash it may lie past the log end (`PartitionThread.CrashStrandsCheckpoint`).
- LogAgreement.Agreement: has the conditions on answers and reads as hypotheses (`LogAgreement.SoundChecks`,
  `LogAgreement.SoundFetches`), each exact. Three things are one step here and two in the source. A follower's look at
  its role and the truncation or append after it are a lock released and then a message to the partition thread
  (`src/broker/cluster.rs:178-200`, `src/broker/cluster.rs:238-258`); so are a leader's look at its role and the
  append of a produce (`src/broker/mod.rs:888-932`); and so are adopting a role and recording its epoch
  (`src/broker/mod.rs:615-639`). Replicas keep their logs when they restart: after a power loss a leader may resume
  the same epoch with a shorter log.
- LogAgreement.RunKeeps: takes the same three as one step.
- FetcherLoop.Fetcher.Reconcile: the look at the role and the truncation after it are one step.
- AcksAll.AckedIsEverywhere: has as a hypothesis that a follower admitted to the ISR is known to have whatever counts
  below the mark (exact by `AcksAll.AdmissionIsExact`). It covers one leader epoch, in which the mark begins no later
  than the log ends. A proposal and its acceptance are two steps, but the controller's acceptance and the leader's
  learning of it are one. A batch parked in the epoch was let in and appended in it; `AcksQueue` has the others.
- Durability.AckedIsOnEveryBroker: has the conditions of log agreement and of admission as hypotheses, and that
  whatever waits when the leader begins is its own (`AcksQueue.WaitingIsOwn`). It reaches from one leader to the next;
  survival over several failovers in a row is not claimed.
- AcksQueue.WaitingIsOwn: the mark is any that a leader's log allows, since the claim is about the leader's own log.
  A broker that is restarted while it follows keeps its list of batches here, which only adds runs.
- ReplicaState.Replica.FinishProduce: the 15-second timeout of a waiting produce is not modelled. That the ISR has its
  minimum size is checked on arrival only, as in the source.
- FetcherLoop.Fetcher.Fetch: the look at the role and the stamp and append after it are one step. The requests
  themselves, reconnecting and the loop around them are steps of `LogAgreement`, not part of this class.
- The standalone (unclustered) broker, topic directories on disk, the routing of requests to partitions and the
  length check of a frame read from a socket are not part of this model.
- CrashRecovery.Recovery: power loss after a reopen is excluded, since opening takes everything that survived as
  durable (`src/storage/log.rs:83-85`). Directory entries are taken as durable at once, and a crash in the middle of
  `truncate_suffix` (`src/storage/log.rs:244-261`) or of the deletion of a segment's two files is excluded: it may
  leave a gap that opening refuses.
- PartitionLog.Log.Append: offsets, epochs and versions stay below 2^64 by precondition (`NextOffset() <
  U64_RANGE`); the source has no check. I/O errors and poisoned locks are not part of this model.
- Coordinator.GroupCoordinator.CheckCommit: does not look at who owns the partition, as in the source.
- Offsets.OffsetsStore.Commit: the wait for the durable acknowledgement is not modelled, and commits are sequential.
- Proto.RequestRoundTrip: UTF-8 checking is not modelled, strings are byte strings.
- ProtoIO.EncodeProduce: of the messages, Produce, the fetch response for a follower and the cluster metadata are
  also written and read in place; the others are straight lines of the same calls and are modelled by their field
  tables (`Proto`) alone.
- Snapshot.SnapshotRoundTrip: the snapshot is encoded as a value of the wire grammar instead of by pushes and pops.
  The round trip is proved for every order of the topics, of which the source takes one, by sorted name
  (`src/controller/mod.rs:441`). That a failed write of the file is only
  logged is not modelled.
- Checker.History.Verify: violations are listed by delivery instead of as sentences; the text format of `save` and
  `load` is not modelled. `max + 1` overflows in the source when an offset is 2^64 - 1 (`src/checker/mod.rs:219`);
  here it does not.
- ReplicaState.Replica.ApplyMetadata: one partition at a time; the loop over topics and the choice of the leader's
  address are left out.
- Time: clocks are parameters. `expired`, `windowOver`, `now` and heartbeats are arbitrary, so nothing is said about
  how long anything takes.
- Sockets, tasks, the client library, benches, fault injection, the torture tests and other systems' adapters are
  not part of this model.
