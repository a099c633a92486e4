# simonMQ, verified

A Dafny model of the message queues of this repository, with proofs of what they promise.

Three parts are modelled.

- **durable-mq**: the write-ahead log from its bytes upwards, checkpointing, crash recovery, replay, restore, and the
  worker that acks into the log.
- **dist-mq**: the replicated state machine with its snapshots, and leader-local delivery across leadership terms.
- **simple-mq and simple-mq-2**: the slice queue and the growing, shrinking ring buffer that every other broker reuses.

## How the model is laid out

| files | what they hold |
|---|---|
| `Options`, `Records`, `LiveState`, `LiveLaw` | records, and the *live state*: the catalog plus every message that still waits for a subscriber, with what it holds told by the records alone. It is the reference that the rest of the log model is proved against |
| `Replay`, `ReplayLaw`, `Coordinator`, `Restore` | the startup replay and exactly which logs it accepts, the serving path that appends and applies, and the broker's queues while it serves and after a restart |
| `Compaction`, `Emission`, `CompactionLaws`, `Minimality`, `StrayAcks`, `CheckpointLaw`, `Compactor` | `CompactRecords`: the fold as a function and as the class the source has, the orders it may write out, its laws, and a log against its checkpoint |
| `Reader`, `LogView` | the one-pass `readLoop` and what it means |
| `Protocol`, `CrashSafety`, `Cleanup` | checkpointing, deletion, crash and restart as a state machine over its single steps, what is safe in all its runs, and what a sweep achieves |
| `Frames`, `Wal`, `Writer`, `Reading`, `Segments`, `LogReaders`, `Sessions` | bytes: frames, scanning, torn tails, segment files and their names, reading them back with checkpoints spliced in, and the life of a log over many crashes |
| `Startup`, `Boot`, `EndToEnd` | startup as a function of the directory and as the code that runs it, and the protocol's runs with what every step writes |
| `DurableWorker`, `DurableDelivery`, `DurableSafety`, `DurableSends` | durable-mq's delivery pass against the coordinator's log, delivery over crashes and restarts as a state machine, what holds in all its runs, and what is sent to whom |
| `Storage`, `History`, `Answers`, `Snapshots` | the replicated store, its contents and its answers in terms of the command log, and snapshots |
| `Worker`, `Manager`, `Leadership`, `DeliverySafety`, `Promotion`, `Redelivery`, `Resends`, `Wakeup` | one delivery pass, one term's manager, the cluster as a state machine, what holds in all its runs, and the wake-up token |
| `RingQueue`, `Brokers` | the ring buffer with its costs, and the two brokers answering alike |

Code that changes things in place is a class or a method with a loop, proved against a function of its inputs or its old
state. Protocols are state machines. The theorems are about runs of the machines and about those functions.

## What is assumed

- **Served logs.** A record is *legal* in a live state when its queue exists, an enqueued id is not pending, and an acked
  message is pending (`LiveState.Legal`); every key of a subscriber list is the name inside its policy. The coordinator
  checks this for everything but acks, so a log is *served* (`LiveState.ServedLog`) when it is legal except that an ack may
  name a message that nobody waits for any more. The laws of compaction, checkpointing and recovery are for served logs;
  `ReplayLaw` says of any record sequence at all whether it replays. Ids are fresh because they are UUIDs.
- **Failures.** The only failure is a crash, at any step, which may leave any proper prefix of a frame behind. Rename and
  fsync are atomic. Checkpoint file names are fresh.
- **Parameters.** The checksum is any function of the bytes. Payload codecs are a function from raw to decoded records. A
  send is a free choice of success or failure. Map iteration order is arbitrary.
- **Raft** is one committed command log and a growing applied prefix per node. A proposal that succeeds has been applied
  on the node that made it; one whose proposer got an error may commit at any later time. What a node schedules, its own
  store held after some prefix that it has applied. A promotion may start without having caught up, which is more than the
  barrier allows, except where `Promotion` asks for the barrier; a node that stops or crashes is a demoted one whose
  workers take no further step. `worker.go:112-132` in dist-mq is one atomic step.
- **Numbers.** Lengths and LSNs are unbounded, with the 32-bit and 64-bit fields of the frame cut to their width where it
  is written. The appends modelled end before LSN 2^64.
- Acked subscribers, kept as sorted lists or as maps to empty structs in the source, are sets.

## Where code and documentation part

The code is followed, and each difference has a witness or an exact condition.

- "The smallest set that replays to the same state" (`checkpointing.go:122-123`) holds if and only if no message that is
  pending at the end was, since its enqueue, acked for a subscriber outside its snapshot
  (`StrayAcks.MinimalIffNoneStray`; `StrayAcks.StrayAckIsNotMinimal` is a log that compacts to four records where three
  do).
- "The WAL alone always replays to correct state" (`checkpointing.go:22-23`) holds if and only if every ack's message was
  enqueued on its queue since that queue's last deletion, every policy record's queue exists, and every record decodes
  (`ReplayLaw.ReplaysIff`). A worker that drains its backlog after its queue was deleted logs an ack that stops the replay
  of that log until a checkpoint compacts it away (`ReplayLaw.DrainedBacklogStopsReplay`,
  `DurableWorker.DrainingStopsReplay`, `CheckpointLaw.DrainedBacklogHeals`).
- "A checkpoint is an optimization" (`checkpointing.go:22-25`): for any past and future, log and checkpoint come up with
  the same if and only if both of these hold or neither: the log replays, and every ack since the checkpoint is for a
  message that was pending then or enqueued since (`CheckpointLaw.OptimizationIff`). Both failures happen: an ack for a
  settled message stops only the checkpoint (`CompactionLaws.LateAckBreaksCheckpoint`), and a checkpoint comes up where
  the log does not (`CheckpointLaw.CheckpointHealsLog`).
- A body over 16 MiB is written but not read back. Startup reads everything if and only if no body anywhere is longer; one
  in any segment but the last stops every later startup (`Startup.ReadsAllIffSmall`, `Startup.OversizeStopsStartup`).
- A frame whose inner lengths contradict its length makes the decoder panic instead of ending the scan
  (`Wal.ShortBodyPanics`); recovery is a fixpoint if and only if it meets none (`Wal.RecoversTwiceIffNoPanic`).
- A body of 4 GiB or more wraps its length field: a record comes back from its frame if and only if it is shorter
  (`Frames.DecodesIffFits`).
- A frame larger than the segment size on an empty segment repeats that segment's name, and the reader then never gets
  past it (`Writer.LogWriter.Append`, `Reading.RepeatedNameNeverAdvances`).
- `RestoreWAL` drops queues beyond 128 (`Restore.Broker.RestoreWAL`), which a broker cannot have created
  (`Restore.Restart`).
- "No sweep can re-present" a forgotten message (`manager.go:188-189`) holds of every sweep that reads storage after the
  message was forgotten (`Redelivery.LaterSweepFindsNothing`). A schedule from an earlier read takes the message up again
  if and only if the log still owed it to someone at that read (`Redelivery.RepresentedIffOwedWhenRead`), and then it is
  delivered twice (`Redelivery.StaleSweepDeliversTwice`).
- Promotion rebuilds every line of copies if and only if no message id is on two queues (`Managers.RebuiltIffUnique`).

## Model

| member | source | states |
|---|---|---|
| `CrashSafety.RestartRecoversHistory` | durable-mq/coordinator/checkpointing.go:43-102 | in every state of every run of appends, rolls, checkpoint steps, single deletions, crashes and reopenings, late acks included, what the log and the checkpoint files hold comes up with the live state of the whole history if and only if every ack since the base checkpoint's BEGIN is for a message that was pending then or enqueued since, and otherwise not at all; a legal history always comes up |
| `CrashSafety.NextKeeps` | durable-mq/coordinator/checkpointing.go:47-102 | every step keeps the protocol's invariant: nothing needed by the newest valid checkpoint is missing, and what is doomed lies before it |
| `CrashSafety.RunKeeps` | durable-mq/wal/wal.go:180-197 | the invariant holds in every state of every run, restarts and startup sweeps included |
| `CrashSafety.ReopenKeeps` | durable-mq/wal/wal.go:180-197 | reopening after a crash reads a record sequence that comes up with the history's live state or is stopped by a late ack, and chooses deletions that are safe |
| `CrashSafety.DeriveKeeps` | durable-mq/coordinator/checkpointing.go:57-64 | reading up to BEGIN and compacting, at any later time, yields a checkpoint of exactly the history up to BEGIN |
| `CrashSafety.EndKeeps` | durable-mq/coordinator/checkpointing.go:76-91 | with END in the log the new checkpoint becomes the base that recovery stands on |
| `CrashSafety.DeleteSegmentKeeps` | durable-mq/wal/segment-mgr.go:134-170 | deleting any single doomed segment, in any order, keeps every record from the base's BEGIN on |
| `CrashSafety.DeleteFileKeeps` | durable-mq/wal/segment-mgr.go:305-320 | deleting any checkpoint file but the kept one leaves recovery unchanged |
| `Cleanup.SweepFreesSegments` | durable-mq/coordinator/checkpointing.go:93-102 | in every run: when a checkpoint or a startup has picked what to delete and has gone on, whatever is appended meanwhile, until nothing it picked is left, no segment lies wholly before the BEGIN of the base checkpoint |
| `EndToEnd.BytesRecoverHistory` | durable-mq/wal/segment-mgr.go:60-82 | in every state of every run whose appended bodies are within the limit, a startup from a sorted listing of the directory and the bytes in its files (all segments, torn tail, checkpoint files) comes up with the live state of the history, under the same exact condition on acks |
| `EndToEnd.ColdStart` | durable-mq/wal/wal.go:117-197 | the startup code itself, on the directory of any state of any such run: it comes up under exactly that condition, with a catalog and messages that are the live state of the history, and keeps the base checkpoint's file and the segments from its BEGIN on |
| `Boot.Start` | durable-mq/coordinator/coordinator.go:60-123 | for any directory at all: cutting the torn tail, the loop that reads all of the log with checkpoints spliced in, and the replay together come up, or not, with exactly what the startup function says |
| `Boot.Recover` | durable-mq/wal/segment-mgr.go:230-264 | the last file is cut where its valid data ends; it fails exactly when the decoder panics on it |
| `EndToEnd.EventDepicted` | durable-mq/coordinator/checkpointing.go:47-102 | what every protocol step writes, in bytes, keeps the directory a picture of the protocol's state |
| `EndToEnd.DerivedIsOnDisk` | durable-mq/coordinator/checkpointing.go:57-64 | what a checkpoint compacts it has read from some file, so every emitted body is within the limit |
| `EndToEnd.RenamedDecodes` | durable-mq/wal/segment-mgr.go:344-395 | the checkpoint file written from what was read decodes to exactly the compacted records |
| `EndToEnd.ServingReads` | durable-mq/wal/reader.go:57-63 | while the broker serves, reading the bytes up to BEGIN, whatever part of a frame is in flight behind it, gives without an error exactly the records that the protocol's derivation compacts |
| `EndToEnd.ListingIsNames` | durable-mq/wal/segment-mgr.go:60-82 | a listing of the directory sorted as strings names the segments in the order in which they were made |
| `Startup.ReadsAfterCrash` | durable-mq/wal/wal.go:117-138 | for every directory a crash can leave, what startup reads: the records up to the first oversize body anywhere, which breaks the read in an earlier segment and only ends it in the last |
| `Startup.ReadsAllIffSmall` | durable-mq/wal/wal.go:180-187 | startup reads everything written if and only if no body in any segment is over 16 MiB |
| `Startup.OversizeStopsStartup` | durable-mq/wal/reader.go:131-134 | an oversize body in any segment but the last stops every later startup, whatever the checkpoint files hold |
| `Startup.CkptDecodesIffSmall` | durable-mq/wal/reader.go:188-209 | a checkpoint file decodes to the records written if and only if no body is oversize, and otherwise counts as not decoding |
| `EndToEnd.DoomedAreTheFront` | durable-mq/wal/segment-mgr.go:134-170 | the protocol's doomed segments are exactly the leading ones that the segment manager deletes |
| `LogView.ViewReads` | durable-mq/wal/reader.go:66-100 | a log whose front is gone, with a base checkpoint, reads to a sequence that is as legal as the full history and has its live state |
| `LogView.ViewRecovers` | durable-mq/coordinator/coordinator.go:80-123 | and what was read comes up with that live state if and only if every ack since the base's BEGIN is for a message that was pending then or enqueued since |
| `LogView.ViewKeepsFiles` | durable-mq/wal/reader.go:162-176 | reading such a log never deletes a checkpoint file as corrupt |
| `Reader.ScanMeaning` | durable-mq/wal/reader.go:66-100 | the one-pass scan returns the file of the last END that resolves followed by every scanned record newer than that END's BEGIN; earlier ENDs leave no trace |
| `Reader.NothingResolves` | durable-mq/wal/reader.go:66-100 | when no END resolves, the scan returns the log itself and names no checkpoint |
| `Reader.ResolvesAlong` | durable-mq/wal/reader.go:162-176 | an END resolves in the scan exactly when its file is intact and no earlier END disputes the file's checksum |
| `Reader.FilesAlong` | durable-mq/wal/reader.go:162-176 | a checkpoint file survives the scan exactly when no scanned END contradicts its checksum |
| `Reader.ScannedFrom` | durable-mq/wal/reader.go:66-100 | whatever the scan returns was in the log or in some checkpoint file |
| `LogReaders.LogReader.ReadLoop` | durable-mq/wal/reader.go:66-100 | over whatever bytes the files hold, stopped at an LSN or not: the loop returns what `LogReaders.LoadsSpliced` and `LogReaders.LoadsPlain` say, the error or panic only if it comes before the stop, and deletes the checkpoint files that its records contradict |
| `LogReaders.LoadsSpliced` | durable-mq/wal/reader.go:66-100 | if an END resolves among the records read, the result is the file of the last one followed by every record read that is newer than its BEGIN, its name, that BEGIN's LSN, and the end of the read |
| `LogReaders.LoadsPlain` | durable-mq/wal/reader.go:66-100 | if none resolves, it is the records read, no name and LSN 0 |
| `LogReaders.ReadAllSpliced` | durable-mq/wal/reader.go:53-56 | with nothing to stop at, the same of the whole log, and the read ends as the files end |
| `LogReaders.ReadAllPlain` | durable-mq/wal/reader.go:53-56 | and of a whole log in which no END resolves |
| `LogReaders.LogReader.ResolveCheckpoint` | durable-mq/wal/reader.go:162-176 | from the bytes of the file: the records of an intact one, and the deletion of one whose checksum differs |
| `Reader.SplitIndex` | durable-mq/wal/reader.go:179-186 | finds the first record beyond the LSN |
| `Replay.StepSimulates` | durable-mq/coordinator/coordinator.go:92-118 | a legal record never fails to replay and moves the replayed state as the live state moves |
| `Replay.ReplaySimulates` | durable-mq/coordinator/coordinator.go:80-123 | replay of a legal log succeeds and ends in the live state the log stands for |
| `Replay.LegalLogRecovers` | durable-mq/coordinator/coordinator.go:80-123 | what a legal log recovers from an empty broker is its live state |
| `LiveLaw.PendingReadsOff` | durable-mq/delivery/delivery.go:47-103 | for any records: a message waits exactly when the last record to file anything under its key enqueued it, its queue was not deleted since, and some subscriber of its snapshot was not acked since; it waits with the content, snapshot and acks that those records name |
| `LiveLaw.PolicyReadsOff` | durable-mq/catalog/catalog.go:32-54 | a subscriber has exactly the policy last given to it while its queue existed, unless the queue was created or deleted since or the policy removed |
| `LiveLaw.QueueReadsOff` | durable-mq/catalog/catalog.go:32-54 | a queue is in the catalog exactly when it was created and not deleted since |
| `Replay.ServedSimulates` | durable-mq/delivery/delivery.go:72-99 | of served records only an ack of an unknown message stops the replay; all others move the replayed state as the live state moves |
| `ReplayLaw.ReplaysIff` | durable-mq/coordinator/coordinator.go:80-123 | any log replays if and only if every ack's message was enqueued on its queue since that queue's last deletion, every policy record's queue exists, and no record is undecodable or unknown |
| `ReplayLaw.RunMatchesLog` | durable-mq/coordinator/coordinator.go:92-118 | and what the replay then knows of queues and messages is what the records say |
| `ReplayLaw.AckReplaysIffKnown` | durable-mq/delivery/delivery.go:72-99 | an ack keeps a log replayable if and only if its message was enqueued since its queue's last deletion, settled or not |
| `ReplayLaw.CheckpointForgetsSettled` | durable-mq/coordinator/checkpointing.go:22-25 | for whatever was served before: one more ack replays from the log and stops its checkpoint if and only if the log replays and the message is known to it but no longer pending; the other way round if and only if the log had stopped and the message is pending |
| `ReplayLaw.DrainedBacklogStopsReplay` | durable-mq/queue/worker.go:17-34 | create, subscribe, enqueue, delete replays; with the ack that the draining worker then logs, that log does not |
| `CheckpointLaw.OptimizationIff` | durable-mq/coordinator/checkpointing.go:22-25 | for every served past and future: log and checkpoint come up with the same if and only if both hold or neither: the log replays, and every ack since the checkpoint is for a message that was pending then or enqueued since |
| `CheckpointLaw.CheckpointRecovers` | durable-mq/coordinator/checkpointing.go:43-102 | a checkpoint and whatever is served after it come up with the live state of the whole, if and only if every later ack is for a message that was pending at the checkpoint or enqueued since |
| `CheckpointLaw.CheckpointHealsLog` | durable-mq/coordinator/checkpointing.go:57-64 | a checkpoint always comes up, with the live state of what it was taken of; the log itself comes up with that if and only if it replays |
| `CheckpointLaw.ServedLogRecovers` | durable-mq/coordinator/coordinator.go:80-123 | a served log comes up with the live state it stands for, or not at all |
| `CheckpointLaw.OnlyAcksStop` | durable-mq/coordinator/coordinator.go:92-118 | in a served log nothing but an ack of an unknown message stops the replay |
| `CheckpointLaw.DrainedBacklogHeals` | durable-mq/coordinator/checkpointing.go:183-200 | the log with the drained backlog's ack does not come up; a checkpoint of it does, with nothing in it |
| `Coordination.ReplayLog` | durable-mq/coordinator/coordinator.go:80-123 | the loop over the catalog and delivery objects, each record filed, applied or dropped in place, succeeds exactly when the replay function does, with its result |
| `Coordination.ReplayOne` | durable-mq/coordinator/coordinator.go:92-118 | one record applied to the two objects, error cases included |
| `Coordination.Catalog.ProcessRecord` | durable-mq/catalog/catalog.go:32-54 | the catalog after one record, or an error with nothing changed |
| `Coordination.Delivery.ProcessAck` | durable-mq/delivery/delivery.go:72-99 | fails exactly for an unknown queue or message, and settles only subscribers of the snapshot |
| `Coordination.Coordinator.CreateQueue` | durable-mq/coordinator/coordinator.go:153-165 | appends one record; the catalog follows the log, which stays as legal and as replayable as it was |
| `Coordination.Coordinator.DeleteQueue` | durable-mq/coordinator/coordinator.go:167-183 | refuses an unknown queue without logging; otherwise the catalog follows the log, which stays as legal and as replayable as it was, late acks or not |
| `Coordination.Coordinator.UpdateSubPolicy` | durable-mq/coordinator/coordinator.go:185-206 | refuses an unknown queue without logging; otherwise the catalog follows the log, which stays as legal and as replayable as it was |
| `Coordination.Coordinator.DeleteSubPolicy` | durable-mq/coordinator/coordinator.go:208-229 | refuses an unknown queue without logging; otherwise the catalog follows the log, which stays as legal and as replayable as it was |
| `Coordination.Coordinator.Enqueue` | durable-mq/coordinator/coordinator.go:231-258 | logs the message with the snapshot of the queue's subscribers in the live state; the log stays as legal and as replayable as it was |
| `Coordination.Coordinator.Ack` | durable-mq/coordinator/coordinator.go:260-275 | appends without a check: the log stays a served one unless the id is pending on another queue, a legal log stays legal if and only if the message is pending, and a log that replays goes on replaying if and only if the message was enqueued since its queue's last deletion |
| `Restore.Broker.RestoreWAL` | durable-mq/queue/broker.go:44-77 | each restored queue holds exactly its pending messages, each once; all queues come back if and only if there are at most 128 |
| `Restore.Broker.CreateQueue` | durable-mq/queue/broker.go:79-105 | refuses a known name and a 129th queue, and otherwise adds an empty queue; logs it unless it comes from the log, and then keeps the broker's queues equal to the catalog's and at most 128 |
| `Restore.Broker.DeleteQueue` | durable-mq/queue/broker.go:107-126 | refuses an unknown queue; otherwise logs the deletion and keeps the broker's queues equal to the catalog's |
| `Restore.Broker.Enqueue` | durable-mq/queue/broker.go:141-159 | refuses an unknown queue; otherwise logs the message with its snapshot of subscribers, adds it last to the queue, and keeps the broker's queues equal to the catalog's |
| `Restore.Broker.AddSubscriber` | durable-mq/queue/broker.go:177-183 | logs the policy if the queue exists, and keeps the broker's queues equal to the catalog's |
| `Restore.Broker.RemoveSubscriber` | durable-mq/queue/broker.go:185-187 | logs the removal if the queue exists, and keeps the broker's queues equal to the catalog's |
| `Restore.Broker.OnAck` | durable-mq/queue/broker.go:96-98 | however late the ack is, the broker's queues stay equal to the catalog's, unless the id is pending on another queue |
| `Restore.Restart` | durable-mq/queue/broker.go:44-77 | a restart from the log of a broker served through its own operations comes up if and only if the log replays, and always if no ack came too late; then every queue is back with exactly its pending messages |
| `Restore.RestoreQueue` | durable-mq/queue/broker.go:58-74 | lists exactly the messages with an unsettled subscriber |
| `Restore.HasUnackedSubs` | durable-mq/queue/broker.go:63-69 | true exactly when some subscriber of the snapshot has not settled |
| `DurableWorker.ProcessMsg` | durable-mq/queue/worker.go:36-94 | whatever has become of the queue: the log grows by exactly one ack for each subscriber that the pass settles and could log, memory takes exactly those, and the message is requeued exactly when someone is left |
| `DurableWorker.PassedAgainstPass` | durable-mq/queue/worker.go:64-93 | the counts are those of dist-mq's pass, and who is left is who that pass leaves plus those whose ack could not be logged; with none of those the two passes are one |
| `DurableWorker.TakeResult` | durable-mq/queue/worker.go:65-89 | one result, in whatever order they arrive: memory takes the ack exactly when the log has |
| `DurableWorker.OnAck` | durable-mq/queue/worker.go:77-85 | a failed append changes nothing; otherwise the log grows by the ack |
| `DurableWorker.PassKeepsLegal` | durable-mq/queue/worker.go:36-94 | while the queue lives, a pass keeps a served log served and a legal one legal; memory and log then agree on who settled, a message that does not go back has left the live state, and nothing else has changed |
| `DurableWorker.DrainingStopsReplay` | durable-mq/queue/worker.go:17-34 | once the log has forgotten the message, a pass stops the replay of the log exactly when it settles some subscriber and logs it |
| `DurableWorker.DrainingIsCompacted` | durable-mq/coordinator/checkpointing.go:183-200 | a checkpoint taken after that comes up all the same, with the live state from before the pass |
| `DurableWorker.DeletionForgets` | durable-mq/queue/broker.go:107-126 | and deleting the queue makes the log forget every message of it |
| `DurableSafety.AtLeastOnce` | durable-mq/queue/worker.go:36-94 | over any number of crashes and restarts, a subscriber that was owed a message and is not any more lost it with its queue, or got it, or failed it from one copy as often as the enqueued policy allows |
| `DurableSafety.CopyDiesWithItsProcess` | durable-mq/queue/queue.go:44-55 | no copy made before a crash is ever in memory after it, so those failures are of one process |
| `DurableSafety.OwedIsInMemory` | durable-mq/queue/broker.go:44-77 | while a process is up, whoever the log owes a message is pending in the one copy of it in memory, in its queue or with the worker |
| `DurableSends.SentOnlyWhileOwed` | durable-mq/queue/worker.go:36-63 | in every run, restarts included, a round of sends goes only to subscribers to whom the log owes the message at that moment; only the backlog of a deleted queue may still be sent |
| `DurableSends.SentAsEnqueued` | durable-mq/queue/worker.go:96-114 | in every run, whatever is sent is the content that the log enqueued under that id on that queue, to a subscriber it was addressed to |
| `DurableSafety.NextKeeps` | durable-mq/queue/worker.go:36-94 | serving, a round of sends, a single ack logged or failed, the end of a pass, a discarded backlog, a crash and a restart all keep the invariant: counts are the failures on record, logged acks have evidence, and memory is in step with the log |
| `DurableSafety.RunKeeps` | durable-mq/queue/broker.go:44-77 | the invariant holds in every state of every run |
| `DurableDelivery.PassIsPath` | durable-mq/queue/worker.go:36-94 | a whole pass, as the contract of the modelled method has it, is a path of that machine |
| `CompactionLaws.CompactedIsLegal` | durable-mq/coordinator/checkpointing.go:122-147 | whatever was served, late acks included, compaction gives a legal log with the same live state |
| `CompactionLaws.CompactionPreservesMeaning` | durable-mq/coordinator/checkpointing.go:122-255 | for every legal history and every continuation, the compacted past followed by the continuation replays to the same live state |
| `CompactionLaws.CompactionIsFixpoint` | durable-mq/coordinator/checkpointing.go:124-255 | folding any possible output rebuilds the compaction state, so compacting again gives the same multiset of records |
| `CompactionLaws.CompactedAreInputs` | durable-mq/coordinator/checkpointing.go:234-255 | every emitted record is one of the input's own |
| `CompactionLaws.AckReplaysIffPending` | durable-mq/delivery/delivery.go:72-99 | after a checkpoint of whatever was served, an ack replays if and only if its message is still pending; `ReplayLaw.AckReplaysIffKnown` is the condition for the log itself |
| `CompactionLaws.LateAckBreaksCheckpoint` | durable-mq/coordinator/coordinator.go:260-275 | a repeated ack of a settled message replays from the log itself and stops the replay of its checkpoint |
| `Minimality.NoShorterLog` | durable-mq/coordinator/checkpointing.go:122-123 | no record sequence at all with a given live state is shorter than the number of its facts |
| `Minimality.CompactionIsMinimal` | durable-mq/coordinator/checkpointing.go:122-147 | when acks only name addressees, compaction is minimal |
| `StrayAcks.MinimalIffNoneStray` | durable-mq/coordinator/checkpointing.go:122-147 | a compaction of a served log is no longer than any record sequence with its live state if and only if no message pending at the end was, since it began, acked for a subscriber it was not addressed to |
| `StrayAcks.AcksMatchLog` | durable-mq/coordinator/checkpointing.go:183-200 | the acks that compaction keeps for a message are exactly those logged since its enqueue |
| `StrayAcks.StrayAckIsNotMinimal` | durable-mq/coordinator/checkpointing.go:183-200 | create, subscribe, enqueue and an ack for a stranger compact to four records where three have the same meaning |
| `Compaction.StepTracks` | durable-mq/coordinator/checkpointing.go:124-147 | one served record moves the compaction state as it moves the live state, an ack that comes too late not at all, and keeps remaining subscribers equal to the snapshot minus the acks |
| `Compaction.FoldTracks` | durable-mq/coordinator/checkpointing.go:124-147 | the fold of a served log stands for the log's live state |
| `Emission.EmissionRebuilds` | durable-mq/coordinator/checkpointing.go:234-255 | any order that respects the four groups is a legal log whose fold is the state it was emitted from |
| `Emission.PrefixRebuilds` | durable-mq/coordinator/checkpointing.go:234-255 | so is each prefix, for the part of the state that it establishes |
| `Compactor.CompactRecords` | durable-mq/coordinator/checkpointing.go:124-147 | the result is a possible emission of the fold of the input |
| `Compactor.CompactionState.ApplyDeleteQueue` | durable-mq/coordinator/checkpointing.go:149-162 | drops the queue, its policies, and every message of it with its acks |
| `Compactor.CompactionState.ApplyEnqueue` | durable-mq/coordinator/checkpointing.go:164-181 | files the message and its subscribers, unless the queue is unknown or nobody is addressed |
| `Compactor.CompactionState.ApplyAck` | durable-mq/coordinator/checkpointing.go:183-200 | settles one subscriber, and drops the message with its acks when nobody is left |
| `Compactor.CompactionState.Compacted` | durable-mq/coordinator/checkpointing.go:234-255 | four groups, each fact once, each group in whatever order its map is walked |
| `Frames.DecodeFrame` | durable-mq/record/record.go:32-84 | decoding a frame returns its record, whatever bytes follow |
| `Frames.DecodesIffFits` | durable-mq/record/record.go:32-84 | a record comes back from its frame if and only if its length field does not wrap |
| `Frames.CutFrameIsTooShort` | durable-mq/record/record.go:51-58 | no proper prefix of a frame decodes |
| `Frames.LittleEndianRoundTrip` | durable-mq/record/record.go:36-48 | a number that fits its width reads back unchanged |
| `Frames.LittleEndianByte` | durable-mq/record/record.go:36-48 | byte i of a number is its i-th digit to base 256, the lowest first |
| `Frames.FrameFields` | durable-mq/record/record.go:32-49 | where in a frame each field lies, lengths and checksum included |
| `Frames.Encode` | durable-mq/record/record.go:32-49 | fills one buffer in place with exactly the frame |
| `Wal.ScanWritten` | durable-mq/wal/segment-mgr.go:189-228 | scanning concatenated frames with any torn tail finds the records up to the first oversize one, and the byte where they end |
| `Wal.RecoversAllIffSmall` | durable-mq/wal/segment-mgr.go:205-207 | nothing written is lost if and only if no body exceeds 16 MiB |
| `Wal.TruncationIsFinal` | durable-mq/wal/segment-mgr.go:230-264 | for any bytes, cutting them where a scan got to leaves exactly what it got |
| `Wal.RecoversTwiceIffNoPanic` | durable-mq/wal/segment-mgr.go:230-264 | a second recovery finds the same and cuts nothing if and only if the first met no frame on which the decoder panics |
| `Wal.ShortBodyPanics` | durable-mq/record/record.go:63-70 | a frame whose body is shorter than its own fields makes the decoder panic, whatever stands before and after it |
| `Wal.CorruptFrameEndsScan` | durable-mq/wal/segment-mgr.go:189-228 | a frame with a wrong checksum ends the scan: exactly the records before it are found, and the file is cut there |
| `Wal.ScanSegment` | durable-mq/wal/segment-mgr.go:189-228 | the loop over the offset computes the scan, the decoder's panic included |
| `Writer.RecoveryCutsTornTail` | durable-mq/wal/segment-mgr.go:230-264 | cutting the last file leaves the records written, in a well-formed log, with the next LSN one past the last |
| `Writer.RecoveryIsExact` | durable-mq/wal/segment-mgr.go:230-264 | recovery loses nothing if and only if no body in the last segment is oversize |
| `Writer.Gapless` | durable-mq/wal/writer.go:49-73 | the records of a log from which nothing was deleted are numbered from 1 without a gap; every open, roll and append keeps it so |
| `Sessions.RunSessions` | durable-mq/wal/writer.go:19-73 | over any number of sessions of appends, each ended by a crash that leaves any torn frame, records are numbered from 1 without a gap, appending goes on at the next number, and with no body over the limit everything ever appended is there and reads back |
| `Writer.LogWriter.Open` | durable-mq/wal/writer.go:19-32 | opening a fresh log or one with a torn tail yields a valid writer that goes on at the recovered LSN |
| `Writer.LogWriter.RollSegment` | durable-mq/wal/writer.go:34-47 | the new segment is named by the next LSN and adjoins the last |
| `Writer.LogWriter.Append` | durable-mq/wal/writer.go:49-73 | the frame goes to the end of the last file, rolled if it would not fit; the log grows by exactly the stamped record, unless its length field wraps or no segment can take it, in which case a name is repeated |
| `Reading.RepeatedNameNeverAdvances` | durable-mq/wal/segment-mgr.go:98-107 | where a name is repeated, whatever segments come later, the reader's next segment is the one it is in |
| `LogReaders.LogReader.ReadNext` | durable-mq/wal/reader.go:103-157 | for whatever bytes the files hold, one step into what there is to read: a record, the end, an error, or the decoder's panic |
| `LogReaders.ReadToEnd` | durable-mq/wal/reader.go:103-157 | reading ends, and returns what there is to read and how it ended, whatever the files hold |
| `Reading.ReadsLayout` | durable-mq/wal/reader.go:103-157 | of what was written: the records up to the first oversize body, which is an error, and otherwise all up to the frame in flight |
| `Reading.CutFrameBreaks` | durable-mq/wal/reader.go:121-143 | a frame cut short ends the log in the last segment, unless its header says that it is oversize, and is an error in any other |
| `Reading.CorruptFrameEndsLog` | durable-mq/wal/reader.go:145-151 | a wrong checksum ends the log in whatever segment it is: what stands before it is read and nothing behind it |
| `Segments.NameRoundTrip` | durable-mq/wal/segment-mgr.go:176-187 | for every 64-bit LSN the file name parses back to it |
| `Segments.NamesSort` | durable-mq/wal/segment-mgr.go:270-272 | for every two LSNs the names compare as strings exactly as the LSNs compare |
| `Segments.StringOrderIsLogOrder` | durable-mq/wal/segment-mgr.go:60-82 | a directory listing is sorted as strings exactly when it is in LSN order |
| `Segments.Before` | durable-mq/wal/segment-mgr.go:134-150 | how many leading segments go: each has a successor at or before the LSN, and never the last segment |
| `Segments.SegmentManager.DeleteSegmentsBefore` | durable-mq/wal/segment-mgr.go:134-170 | exactly those leave the directory and the list |
| `DeliverySafety.AtLeastOnce` | dist-mq/delivery/worker.go:79-133 | over all runs and terms, an obligation that is owed no more went with its queue, or was delivered, or failed in one term as often as its retry policy allows |
| `DeliverySafety.OneCopyPerTerm` | dist-mq/delivery/manager.go:73-157 | in every reachable state an id is in the dedupe set exactly when exactly one copy of it is in the present term's queues or hands, and a manager that is not running has none |
| `DeliverySafety.MemoryFollowsLog` | dist-mq/delivery/worker.go:112-132 | an ack held in memory is committed, every copy still owes someone, and only subscribers of the enqueued snapshot |
| `DeliverySafety.ForgottenMeansSettled` | dist-mq/delivery/manager.go:188-194 | when an id leaves the set of a node that keeps running, the committed log owes the message to nobody |
| `Resends.SentOnlyIfOwedWhenRead` | dist-mq/delivery/manager.go:73-93 | in every run, whatever is ever sent from a copy goes to a subscriber to whom the log owed that message when the copy was read from storage; nobody whose ack had been applied by then is sent to from it |
| `Resends.PresentedOwes` | dist-mq/delivery/queue.go:49-68 | with fresh ids, a copy read from storage is pending for exactly those to whom the log owed the message then, with no failure counted |
| `Resends.SentAsEnqueued` | dist-mq/delivery/worker.go:135-155 | in every run, whatever is sent is the payload that the log enqueued under that id on that queue, to a subscriber it was addressed to |
| `Promotion.PromotionMissesNothing` | dist-mq/delivery/manager.go:118-143 | after the barrier and a finished sweep, whatever the log owed at the barrier is in flight on the new leader or not owed any more |
| `Redelivery.RepresentedIffOwedWhenRead` | dist-mq/delivery/manager.go:188-194 | after a message was forgotten, a running node takes it up again from storage as it was after some prefix of the log if and only if the log owed it to someone then; that prefix is shorter than the log was when it was forgotten |
| `Redelivery.TakesIffOpen` | dist-mq/delivery/manager.go:73-93 | in any reachable state, scheduling from a read of storage takes a message up that is not in flight if and only if it was owed to someone at that read |
| `Redelivery.LaterSweepFindsNothing` | dist-mq/delivery/manager.go:159-170 | the storage of the node that forgot a message never holds it again, so no sweep that reads afterwards presents it |
| `Redelivery.StaleSweepDeliversTwice` | dist-mq/delivery/manager.go:159-170 | a run of one leader, never demoted, with its barrier, whose sweep read storage before the settling ack was applied and schedules after it: a settled message is delivered a second time |
| `DeliverySafety.NextKeeps` | dist-mq/delivery/manager.go:73-217 | every step of the cluster keeps the invariant, stale schedules, late commits and demotions in mid-request included |
| `DeliverySafety.RunKeeps` | dist-mq/delivery/manager.go:73-217 | the invariant holds in every state of every run |
| `DeliverySafety.ScheduleKeeps` | dist-mq/delivery/manager.go:73-93 | scheduling a message however stale never makes a second copy |
| `DeliverySafety.AttemptKeeps` | dist-mq/delivery/worker.go:86-110 | retry counts equal the failures on record, and whoever a pass settles was reached or is out of retries |
| `DeliverySafety.SettleKeeps` | dist-mq/delivery/worker.go:112-132 | an ack that commits has its evidence, and the copy goes back or goes away |
| `DeliverySafety.DemoteKeeps` | dist-mq/delivery/manager.go:145-157 | demotion leaves no copy in a queue and disturbs no other node |
| `DeliverySafety.StoredAckWasCommitted` | dist-mq/storage/in-memory-storage.go:129-158 | an ack that storage holds is in the log, after the enqueue that addressed its subscriber |
| `Managers.RebuiltIffUnique` | dist-mq/delivery/manager.go:159-170 | a sweep into an empty manager gives every queue a line of copies of all its messages in log order, each with the stored payload and snapshot, pending for exactly those to whom storage owes it and with no failure counted, if and only if no id is on two queues; every pending id is in the set in any case |
| `Managers.LineOwesWhatLogOwes` | dist-mq/delivery/manager.go:159-170 | with fresh ids, a copy in a rebuilt line is pending for exactly those to whom the log still owes its message |
| `Managers.ScheduledKeeps` | dist-mq/delivery/manager.go:73-93 | scheduling keeps one copy per id |
| `Managers.WorkedKeeps` | dist-mq/delivery/worker.go:47-68 | so does a worker's turn, whether it requeues or forgets |
| `Managers.TurnLeaves` | dist-mq/delivery/worker.go:86-133 | a turn leaves its copy pending for whoever was pending and was neither reached nor out of retries, or for all of them if the ack did not commit; then it stands last in line with one more failure for each failed send, and otherwise copy and id are gone; no other line changes |
| `Managers.TurnsGoInLine` | dist-mq/delivery/worker.go:47-68 | whatever is scheduled, requeued or forgotten meanwhile, a copy gets its turn after exactly as many turns of its worker as copies stand before it |
| `Managers.Manager.Schedule` | dist-mq/delivery/manager.go:76-93 | drops what it should not act on, and otherwise puts one copy, with the message's payload, snapshot and acks and no failures, last in its line and notes the id |
| `Managers.Manager.QueueFor` | dist-mq/delivery/manager.go:198-217 | the queue exists afterwards, and no line changes |
| `Managers.Manager.Demote` | dist-mq/delivery/manager.go:147-157 | nothing is left and the manager is not running; again changes nothing |
| `Managers.Manager.Sweep` | dist-mq/delivery/manager.go:162-170 | presents every message of every queue in log order, each pending for exactly those to whom storage owes it, and schedules each |
| `Managers.Manager.Promote` | dist-mq/delivery/manager.go:121-143 | runs exactly when the barrier passes; then all pending ids are in flight, and the lines are rebuilt, as `Managers.RebuiltIffUnique` has it, if and only if ids are unique |
| `Managers.Manager.Work` | dist-mq/delivery/worker.go:47-68 | one turn of the worker: the oldest copy is processed and requeued last, or forgotten when it is done; demoted meanwhile, it is dropped with everything else |
| `Worker.Process` | dist-mq/delivery/worker.go:79-133 | which subscribers a pass acks, what the copy is afterwards, and whether it is forgotten, dropped or requeued, in all cases of failure |
| `Worker.QueueMsg.PendingSubs` | dist-mq/delivery/queue.go:70-79 | exactly the subscribers without an ack, with their policies |
| `Worker.QueueMsg.Collect` | dist-mq/delivery/worker.go:98-110 | in whatever order results arrive, counts and settled subscribers come out the same |
| `Worker.DoneMeansNonePending` | dist-mq/delivery/queue.go:81-83 | the comparison of sizes means that nobody is pending |
| `Worker.NotDoneMeansPending` | dist-mq/delivery/queue.go:81-83 | for any copy at all, one that is not done still owes someone |
| `Worker.RetriesEnd` | dist-mq/delivery/worker.go:79-133 | after as many passes as the largest budget, whatever the sends did, everybody is settled |
| `Worker.NoSendBeyondBudget` | dist-mq/delivery/worker.go:98-110 | a subscriber that a pass still sends to was pending in every pass before, and those were fewer than its budget: no send beyond it, none after settling |
| `Worker.GivesUpExactly` | dist-mq/delivery/worker.go:98-110 | a subscriber that never accepts is sent the message exactly as often as its policy says, and once if that says less than one |
| `Worker.AcceptingSettles` | dist-mq/delivery/worker.go:98-110 | and one that accepts while it is sent to is settled from then on |
| `Worker.RemainingBudgetFalls` | dist-mq/delivery/worker.go:98-110 | the sum of remaining budgets strictly falls with each pass |
| `Wakeup.NoLostWakeup` | dist-mq/delivery/queue.go:97-112 | over every interleaving of adders and worker, a sleeping worker over a queue with work has a token or an adder about to signal; what was added is popped in order, once |
| `Wakeup.WorkerRests` | dist-mq/delivery/worker.go:47-68 | without new work, worker and signals come to rest within a number of steps known in advance |
| `Wakeup.RestMeansDrained` | dist-mq/delivery/worker.go:47-68 | a worker at rest is stopped, or asleep with everything taken |
| `Storage.CompleteMeansCovered` | dist-mq/storage/in-memory-storage.go:148-156 | with acks inside the snapshot, the comparison of sizes means that all have acked |
| `Storage.StepKeepsInv` | dist-mq/fsm/fsm.go:23-52 | every command keeps stored acks a strict subset of the snapshot and sequence numbers distinct and below the next |
| `Storage.RunKeepsInv` | dist-mq/fsm/fsm.go:23-52 | so does every command sequence |
| `Snapshots.ApplyEntry` | dist-mq/fsm/fsm.go:23-52 | the dispatch to the store object, the four catalog commands included, does what the command means and answers as the `Answers` rows say; an entry that does not decode or is of no handled type changes nothing |
| `History.OwedMatchesLog` | dist-mq/storage/in-memory-storage.go:96-158 | with fresh ids, a subscriber is owed a message exactly when an enqueue on the live queue listed it and no later deletion of the queue or ack naming it followed |
| `History.QueueMatchesLog` | dist-mq/storage/in-memory-storage.go:46-70 | a queue exists exactly when it was created and not deleted since |
| `History.PolicyMatchesLog` | dist-mq/storage/in-memory-storage.go:72-94 | a queue has exactly the policy last put for a subscriber while the queue existed, unless it was removed or the queue deleted since |
| `Answers.CatalogAnswers` | dist-mq/storage/in-memory-storage.go:46-94 | what the four commands on queues and policies answer, by which queues the log has created and not deleted |
| `Answers.EnqueueOnNoQueue` | dist-mq/storage/in-memory-storage.go:96-103 | an enqueue fails exactly when the log does not have its queue, and then changes nothing |
| `Answers.EnqueueAnswersNew` | dist-mq/storage/in-memory-storage.go:96-127 | an enqueue of a message that is not held answers one with the command's own id, payload and snapshot and the next number, acked by nobody, and that is what is held from then on, if it is for anyone |
| `Answers.EnqueueAnswersHeld` | dist-mq/storage/in-memory-storage.go:96-127 | a repeated enqueue answers the message that is held, its acks included, and changes nothing |
| `Answers.NewIsOwedToAll` | dist-mq/storage/in-memory-storage.go:96-127 | a message with a new id is owed to exactly those in its snapshot |
| `Answers.AnswerIsPresented` | dist-mq/server/server.go:147-163 | what the server schedules on an enqueue's answer is the copy that a sweep of storage would present |
| `History.HeldWasEnqueued` | dist-mq/storage/in-memory-storage.go:96-127 | a stored message comes from an enqueue, with its id, payload and snapshot and the sequence number of that moment |
| `History.PendingInLogOrder` | dist-mq/storage/in-memory-storage.go:303-315 | sequence numbers compare exactly as the positions of the enqueues in the log |
| `Snapshots.SnapshotCommutes` | dist-mq/storage/in-memory-storage.go:229-295 | restoring a snapshot and applying any suffix gives the state and the responses of never having taken it |
| `Snapshots.SnapshotRoundTrip` | dist-mq/storage/in-memory-storage.go:261-295 | restoring a snapshot gives back the store |
| `Snapshots.SnapshotIsCanonical` | dist-mq/storage/in-memory-storage.go:229-259 | a store has one snapshot, whatever the order of its maps |
| `Snapshots.InMemoryStorage.Enqueue` | dist-mq/storage/in-memory-storage.go:96-127 | repeats answer with the stored message; a message for nobody is numbered but not kept; the `Answers` rows say what is answered and held, by the log |
| `Snapshots.InMemoryStorage.Ack` | dist-mq/storage/in-memory-storage.go:129-158 | settles the named subscribers of the snapshot in a loop and drops a message that all have acked; unknown queues and messages are no error |
| `Snapshots.InMemoryStorage.QueueNames` | dist-mq/storage/in-memory-storage.go:160-170 | every queue once, sorted |
| `Snapshots.InMemoryStorage.PendingMessages` | dist-mq/storage/in-memory-storage.go:199-208 | all messages of the queue in order of their numbers, or the error for an unknown queue |
| `Snapshots.InMemoryStorage.TakeSnapshot` | dist-mq/storage/in-memory-storage.go:229-259 | builds the snapshot of the store |
| `Snapshots.InMemoryStorage.Restore` | dist-mq/storage/in-memory-storage.go:261-295 | the store becomes what the snapshot holds |
| `Snapshots.InOrder` | dist-mq/storage/in-memory-storage.go:303-315 | every message once, by sequence number |
| `RingQueue.Drive` | dist-mq/delivery/queue.go:97-154 | over any run of n operations, what was popped followed by what is held is what was added, in order; resizing copies at most 12n + 10 slots, and the capacity is 10 or less than four times the contents |
| `RingQueue.PopsNothingIffDrained` | dist-mq/delivery/queue.go:114-131 | a pop gets nothing exactly when everything added before it has been taken |
| `RingQueue.Queue.Add` | dist-mq/delivery/queue.go:97-112 | the contents grow by the element, wrap-around and growth included; the copies are paid for by the potential |
| `RingQueue.Queue.Pop` | dist-mq/delivery/queue.go:114-131 | the oldest element, or none exactly when empty; shrinking is paid for by the potential |
| `RingQueue.Queue.CopyOver` | dist-mq/delivery/queue.go:141-154 | the new buffer holds the same contents from slot 0 on |
| `RingQueue.Straighten` | dist-mq/delivery/queue.go:141-154 | the two copies lay the ring out straight and move no more slots than either buffer has |
| `Brokers.ServeBoth` | simple-mq-2/broker.go:16-45 | for every sequence of requests over any queue names, the two brokers answer alike, and as FIFO queues: an enqueue answers its message; the k-th dequeue of a name that gets a message gets the payload of the k-th enqueue of that name; a dequeue gets none exactly when all earlier enqueues of its name have been taken |
| `Brokers.AnswersAreFifo` | simple-mq/broker.go:27-64 | that law of the answers, read off the requests alone |
| `Brokers.SimpleBroker.Enqueue` | simple-mq/broker.go:27-49 | the message with its queue's name and the payload is the answer and waits last in its queue, which is made on first use |
| `Brokers.SimpleBroker.Dequeue` | simple-mq/broker.go:51-64 | the first waiting message, or none for an empty or unknown queue |
| `Brokers.RingBroker.Enqueue` | simple-mq-2/broker.go:16-26 | the message with its queue's name and the payload is the answer and waits last in its queue, and no other queue changes |
| `Brokers.RingBroker.Dequeue` | simple-mq-2/broker.go:28-33 | the first waiting message or none, and no other queue changes |

## Left out

- HTTP servers, handlers and the sending of a request: a send has a payload and a subscriber, and its success is free.
- hashicorp/raft, BoltDB, `dist-mq/node/node.go` and the retry of a failed promotion: library wrappers and timing.
- JSON payload codecs: payloads are datatypes; records whose payload does not decode are kept as such.
- CRC-32 arithmetic: the laws hold for every checksum function, so nothing is said about damage that leaves the checksum right.
- UUID generation: ids and checkpoint names are assumed fresh.
- `ModeOff`, `ModeNoSync`, `ParseMode`, `ParseSize`, flags and main files: configuration with easy properties only.
- Disk errors without a crash and the missing fsync of the directory: outside the failure model.
- The threshold that decides when to checkpoint: a checkpoint may start whenever none is under way.
- push-mq: its ring buffer and worker repeat the ones modelled.
- The race of an old term's `forget` with the new term's set: worker.go:112-132 is taken as one step, so it does not show.
- Copying of maps and slices on the way out of the store: values cannot be aliased in the model.
- Writer.LogWriter.Append: asks that the LSN is below 2^64, where the source would wrap around to 0.
- EndToEnd.BytesRecoverHistory: runs in which a body over the limit is appended are left to `Startup.ReadsAfterCrash`.
- A read that overlaps appends or rolls sees the files of one moment, with one frame cut anywhere.
- A checkpoint file with a matching checksum on which the decoder would panic counts as one that does not decode.
- The race of an enqueue in durable-mq with the deletion and re-creation of its queue: the record and the copy are one step.
- Restore.RestoreQueue: the order of the restored messages is that of a map, so none is stated.
- e2e-tests, benchmarks, statistics, k8s and shell scripts.
