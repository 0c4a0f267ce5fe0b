# Verification of the WAL-to-audit-table pipeline

A Dafny model of how the worker turns the Debezium stream into rows of the audit table, and proofs
of what it promises: no accepted change is lost, no row carries a context that is not its own, and
neither crashes, replays nor redeliveries change which changes are stored. The way the stream is cut
into fetches can change which context a row carries; it is proved exactly when it does not.

`dafny verify dfyconfig.toml` checks the whole project.

## What is modelled

| file | what it models |
|---|---|
| `Objects.dfy` | a JavaScript object used as a dictionary, with its key order |
| `FetchedRecord.dfy` | `core/src/fetched-record.ts`: record kinds, parsing, value normalisation |
| `FetchedRecordBuffer.dfy` | `core/src/fetched-record-buffer.ts`: the persistent two-level buffer |
| `CaptureFilter.dfy` | `core/src/capture-filter.ts` |
| `Stitching.dfy`, `StitchingProperties.dfy` | `core/src/stitching.ts`: one pass, and what every pass keeps |
| `AuditTable.dfy` | the `changes` table: a unique key and conflict-ignoring inserts |
| `Ingestion.dfy`, `TurnProperties.dfy` | `core/src/ingestion.ts`: one turn of the loop |
| `Incarnation.dfy`, `BatchIndependence.dfy`, `UnbufferedBatches.dfy`, `LateContexts.dfy`, `Redelivery.dfy`, `BoundedMemory.dfy`, `IdleFetches.dfy`, `AckProgress.dfy`, `AckSending.dfy` | the loop from boot on, turn after turn |
| `Pipeline.dfy`, `LoopSteps.dfy`, `Safety.dfy`, `Guarantees.dfy`, `Progress.dfy`, `Attribution.dfy`, `Unreadable.dfy`, `DeployedWorker.dfy` | stream, worker and table as a transition system that may crash between any two sub-steps |
| `DebeziumStream.dfy` | `ensureDebeziumStream` in `core/src/nats.ts`, and its call in `worker/src/reset.ts` |
| `ReplicationSlots.dfy` | `core/src/replication-slot.ts` and the state `worker/src/index.ts` carries between polls |

The loops of the source are methods with loops, each proved equal to a specification function
(`Stitch`, `AddAll`, `AcceptAll`, `Normalised`, `IsEmpty`, `StateAfter`); objects whose fields
change are classes (`IngestionLoop`, `Table`, `StreamManager`, `SlotMonitor`). What the source
promises is then proved about those functions and about runs of the transition system. `Guarantees.dfy`
says the main results once more without the model's own vocabulary: by what a message is read as, the
columns of a row, and where the stream begins and is acked.

### The transition system

`Pipeline.State` has the stream (how much is accepted, where the current stream began, the first
sequence not purged), the consumer (ack floor, acks on their way), the worker (what was delivered,
`lastStreamSequence`, the buffer, the batches still to insert) and the table. The steps are
`Publish`, `Deliver`, `FinishFetch` (stitch and filter), `InsertBatch`, `FinishTurn` (ack), `AckLands`,
`Purge`, `Crash` and `Recreate`. `LoopSteps.dfy` ties the imperative loop body to them: a turn of
`IngestionLoop.RunOnce` is a list of these steps with the same table, memory and ack. A failed insert
or an unreadable message makes the loop throw, which is `Crash`. A publish that the full stream
rejects is a `Publish` that is not taken.

### What is assumed of the environment

* Stream sequences start at 1 and rise by one; recreating a stream starts them again and deletes its
  consumer.
* New messages that pass the consumer's subject filter are delivered in order and none is skipped, so
  their sequences may have gaps; messages above the ack floor may be redelivered at any time. After a crash delivery resumes from
  the ack floor. An ack may land at any later time or never, also after a crash.
* The table's unique key tells changes apart (`KeysTellApart`); the same change may be published
  twice. What needs no such key, such as `NeverWronglyAttributed`, is proved without it.
* Nothing is published between the lookup and the delete of `core/src/nats.ts:86-114`, and the worker
  starts afresh before it fetches from a recreated stream: `worker/src/reset.ts:46-53` finishes before
  the services that publish and fetch. `LateDeleteLoses` says when a delete would lose something otherwise.
* Subjects are not empty.
* Only logical messages carry a prefix. A logical message without one passes
  `core/src/fetched-record.ts:100` and is stored like a change; it is a fourth kind of record here
  (`IsSavable` but not `IsChange`), and it is never held.
* `insertBatchSize` is at least 1.

Attribution across crashes has a hypothesis (`Setting`, `TurnsEndWell`), for both values of
`useBuffer`. A transaction's first context precedes its changes. And a turn finishes, its records
inserted, with such a context delivered and a change of it still to come only if that change is already
durable, or `useBuffer` is on, no change of the transaction has come and nothing delivered is further
than the orphan gap beyond the context. Turns that throw or crash may end anywhere, a replay of what is stored may be
cut anywhere, and a change may be published again. Batch independence is of one incarnation:
`BatchesDoNotMatter` says exactly which cuts it holds for with `useBuffer` on, when contexts precede
changes and these follow within the gap, and `StraddlingChangeLosesContext` shows what any other cut
does; `UnbufferedBatchesDoNotMatter` says it with `useBuffer` off, for any stream.

### Readings of the code

* The running `maxSequence` takes the last record of each subject in (transaction id, sequence)
  order, `core/src/stitching.ts:27-32`. It is the greatest sequence exactly when a record with the
  greatest sequence is of the latest transaction of its subject (`UnbufferedAcksAll`). The model keeps
  this. Transactions may well commit in another order than they began, and then memory has no bound
  (`MemoryIsUnbounded`), an empty fetch can drop a context (`IdleFetchCanDrop`) and a heartbeat can free
  nothing (`HeartbeatCanLeaveChange`). What holds in any order is stated without the hypothesis
  (`HeldNearLastVisited`, `IdleFetchChangesNothing`, `HeartbeatFreesChanges`); the theorems that need
  the two orders to agree have `Steady` in their rows.
* An ack is sent only when it names a message of the current fetch, `core/src/ingestion.ts:165`.
* One unreadable message makes every fetch that has it throw, so it is never acked and nothing beyond
  it is ever inserted (`UnreadableHoldsBack`); `NothingIsLost` counts such messages as not to be lost. A
  message without a transaction id throws when it is buffered, `core/src/fetched-record-buffer.ts:15`,
  in the turn that reads it, and counts as unreadable; with a foreign prefix it is skipped before that.
* The source recognises the last record of a subject by reference. Sequences are distinct, so
  comparing values decides the same.
* Subjects are enumerated in the order of first insertion. JavaScript enumerates subjects that look
  like array indices first; the worker's subjects do not.

## Model

| member | source | states |
|---|---|---|
| FetchedRecords.Normalise | core/src/fetched-record.ts:31-43 | the overwriting loop computes, for every key, the side that was sent, judged on the images as received, or fails on a bare placeholder |
| FetchedRecords.NormalisationEqualises | core/src/fetched-record.ts:34-43 | both sides of a key end up equal exactly when they were, or the before-image has the key and a side was not sent; then both are the value that was sent; other values are untouched |
| FetchedRecords.RowEventIsRead | core/src/fetched-record.ts:12-69 | a row event with op c, u, d or t becomes a CREATE, UPDATE, DELETE or TRUNCATE of its database, schema, table, position and transaction, without context or prefix; no other op is read |
| FetchedRecords.RowEventImages | core/src/fetched-record.ts:31-43 | key by key, its images are those sent, except that an array with the placeholder gives way to the other side |
| FetchedRecords.RowEventCanBeRead | core/src/fetched-record.ts:24-43 | a row event is read if and only if its op is known, it has a transaction, and no key has a bare placeholder that no array explains |
| FetchedRecords.LogicalMessageIsRead | core/src/fetched-record.ts:45-113 | prefix `_bemi` makes a context message with its content as context, `_bemi_heartbeat` a heartbeat, none a record to be saved, any other nothing; what throws is a context that is not JSON or a missing transaction |
| FetchedRecordBuffers.AddFetchedRecords | core/src/fetched-record-buffer.ts:33-42 | the loop of persistent adds gives the fold of single adds, older buffer values staying what they were |
| FetchedRecordBuffers.AddKeepsValid | core/src/fetched-record-buffer.ts:12-31 | every stored record sits under its own subject and transaction id |
| FetchedRecordBuffers.AddAllRefinesMultiset | core/src/fetched-record-buffer.ts:12-42 | after any series of adds the buffer holds exactly the multiset of what it held and what was added |
| FetchedRecordBuffers.HasAddAll | core/src/fetched-record-buffer.ts:64-66 | looking under a record's subject and transaction finds it if and only if it was there or was added |
| FetchedRecordBuffers.SortRecordsSorts | core/src/fetched-record-buffer.ts:48-58 | what the callback gets is a permutation sorted by transaction id, then sequence |
| FetchedRecordBuffers.InSorted | core/src/fetched-record-buffer.ts:44-62 | a subject's visit meets exactly the records of that subject |
| FetchedRecordBuffers.SizeCounts | core/src/fetched-record-buffer.ts:68-76 | the sum of the per-subject sizes is the number of records held |
| FetchedRecordBuffers.AddAllInOrder | core/src/fetched-record-buffer.ts:12-42 | within a transaction the list stays in sequence order when records arrive in order |
| CaptureFilter.AllUnchanged | core/src/capture-filter.ts:62-66 | the loop with its early return says whether every one of the fields is the same on both sides |
| CaptureFilter.IsEmptyChange | core/src/capture-filter.ts:35-67 | the field loop with its early return decides: a non-empty ignore list, an UPDATE, a non-empty before-image, and every field that is not ignored the same on both sides, absent meaning undefined |
| CaptureFilter.KeptFieldwise | core/src/capture-filter.ts:73-87 | so a record is kept if and only if it is not an UPDATE, or has no before-image, or differs in a field that is not ignored |
| CaptureFilter.OutsideEqualFieldwise | core/src/capture-filter.ts:56-66 | comparing field by field, absent meaning undefined, is comparing the partial maps |
| CaptureFilter.FilterPartitions | core/src/capture-filter.ts:73-87 | kept plus skipped is the input as a multiset, the count is the number skipped, and a record is kept if and only if it is not empty |
| CaptureFilter.KeptConcat | core/src/capture-filter.ts:82-84 | filtering preserves order: it distributes over concatenation |
| CaptureFilter.NormalisedKeyIsNeutral | core/src/capture-filter.ts:56-66 | a key one side was not sent never by itself keeps an update: ignoring it as well changes nothing |
| Stitching.VisitRecord | core/src/stitching.ts:36-98 | one callback releases with the first context, holds, drops or passes over the record as its fate says, and advances the subject's progress only for the first and the last |
| Stitching.VisitSubject | core/src/stitching.ts:34-98 | one subject's loop releases, holds and records progress as the specification of its sorted records says |
| Stitching.VisitAll | core/src/stitching.ts:21-99 | the loop over the subjects, with the running maximum each one sees |
| Stitching.ChooseAck | core/src/stitching.ts:101-121 | the subject whose progress is acked, or the running maximum when nothing is held |
| Stitching.LeastBuffered | core/src/stitching.ts:128-135 | the least sequence left in the buffer |
| Stitching.StitchFetchedRecords | core/src/stitching.ts:12-155 | the nested loops and the clamp compute the specification of a pass |
| StitchingProperties.SelectedExactly | core/src/stitching.ts:36-98 | the pass releases, holds, drops or passes over exactly the buffered records with that fate |
| StitchingProperties.ContextHeldExactly | core/src/stitching.ts:62-80 | a context is held if and only if `useBuffer` is on, no record of its transaction has an operation other than MESSAGE, and no subject visited so far ends beyond the orphan gap after it |
| LateContexts.RowHeldExactly | core/src/stitching.ts:51-60 | a CREATE, UPDATE, DELETE or TRUNCATE is held if and only if `useBuffer` is on and every other record of its subject is of an earlier transaction |
| LateContexts.ReleasedWithFirstContext | core/src/stitching.ts:37-97 | whatever else is to be saved is released, unchanged but for the context of the least-sequence context message of its subject and transaction, if the pass has one |
| StitchingProperties.StitchReleases | core/src/stitching.ts:91-97 | what is released is the chosen records in visiting order, each with its own transaction's first context |
| StitchingProperties.Conservation | core/src/stitching.ts:36-98 | every record is released with only its context changed, held, dropped (contexts only) or passed over (heartbeats only), each exactly once |
| StitchingProperties.FirstContextIsLeast | core/src/stitching.ts:38-39 | in arrival order the context found is the one with the least sequence |
| StitchingProperties.MaxSequenceIsLast | core/src/stitching.ts:27-32 | the running maximum, when there is one, is the sequence of the last record, in visiting order, of one of the subjects visited so far |
| StitchingProperties.MaxSequenceCovers | core/src/stitching.ts:27-32 | and it is no less than the last record of any of them |
| StitchingProperties.AckBelowHeld | core/src/stitching.ts:123-142 | the ack is strictly below everything left in the buffer |
| StitchingProperties.AckOrigin | core/src/stitching.ts:101-142 | the ack is the sequence of a record of the pass, or just below a held one |
| AuditTable.Table.InsertIgnoringConflicts | core/src/ingestion.ts:39-40 | one statement appends rows in order until each record has a row that agrees with it on position, table, schema, database and operation, and no new row agrees with one before it |
| AuditTable.AppendedExactly | core/src/entities/Change.ts:25 | a row is appended if and only if none that is there agrees with it on those five columns |
| AuditTable.BothAreStored | core/src/entities/Change.ts:24-25 | two changes that differ in any of them, such as a CREATE and a DELETE at one position, are both stored |
| AuditTable.InsertAllOnlyAppends | core/src/entities/Change.ts:25 | existing rows are never altered, moved or removed, and keys stay unique |
| AuditTable.InsertAllKeys | core/src/ingestion.ts:39 | the keys afterwards are exactly the keys before and those inserted |
| AuditTable.InsertAllRows | core/src/ingestion.ts:39 | a new row is an inserted record whose key was not there |
| AuditTable.ReplayIsIdempotent | core/src/ingestion.ts:34-41 | crashing after any prefix and re-inserting from any point already written gives the very table of one clean insert |
| Ingestion.FetchNatsMessages | core/src/ingestion.ts:53-71 | the loop keeps, by sequence, the messages after the last stream sequence |
| Ingestion.AcceptedExactly | core/src/ingestion.ts:58-68 | a sequence is in the inbox if and only if it was delivered and is beyond the last stream sequence, with the message delivered last under it |
| Ingestion.AscendingKeysAscend | core/src/ingestion.ts:122 | the messages are enumerated in strictly ascending sequence, each once |
| Ingestion.ChunksCover | core/src/ingestion.ts:19-20 | the pieces concatenate to the input; none is empty, none exceeds the size, and all but the last have it |
| Ingestion.PersistFetchedRecords | core/src/ingestion.ts:22-42 | without a failure the table is one insert of everything; a failing batch leaves exactly the batches before it |
| Ingestion.IngestionLoop.RunOnce | core/src/ingestion.ts:98-166 | one turn: the table, the memory and the ack it sends are those of the specification of a turn, or it threw with the batches before the failure inserted |
| TurnProperties.ParsedExactly | core/src/ingestion.ts:122-125 | a fetch parses to exactly the records its messages are read as |
| TurnProperties.ParsesWhenAllRead | core/src/ingestion.ts:123-125 | a fetch parses if and only if every message of it can be read |
| TurnProperties.TurnAccounts | core/src/ingestion.ts:126-140 | every savable record offered is held, is empty as judged before its context is attached, or is kept with its first context |
| TurnProperties.TurnAck | core/src/ingestion.ts:126-166 | a turn's ack is no further than what it was offered and below all it still holds |
| TurnProperties.HeldInOrder | core/src/stitching.ts:58-74 | what a pass holds is again in sequence order within each transaction |
| LoopSteps.FetchInSteps | core/src/ingestion.ts:58-68 | delivering messages one by one fills the inbox exactly as the fetching loop does, and changes nothing else |
| LoopSteps.FinishTurnSends | core/src/ingestion.ts:163-166 | finishing a turn puts a sequence on its way if and only if it is the turn's ack, not zero and a message of the fetch |
| LoopSteps.TurnInSteps | core/src/ingestion.ts:111-166 | a turn that ends is the steps stitch, insert every batch, finish: same table and memory as the loop body, and its ack on its way if it names a fetched message |
| LoopSteps.ThrowInSteps | core/src/ingestion.ts:155-162 | a turn that throws at its n-th batch is n inserts and a crash: exactly the batches before stay |
| Guarantees.NoChangeIsLost | core/src/ingestion.ts:98-193 | told by messages and rows alone, in every state of every run: an accepted change is a row but for its context, or an UPDATE that differs in ignored fields only, or in the stream, neither purged nor acked |
| Guarantees.NoUnreadableIsLost | core/src/ingestion.ts:120-125 | and a message that cannot be read is in the stream, neither purged nor acked |
| Guarantees.EveryRowIsAChange | core/src/ingestion.ts:34-41 | a row is an accepted change but for its context, which is `{}` or that of an accepted context message of its subject and transaction, and was not to be dropped |
| Guarantees.RowCarriesFirstContext | core/src/stitching.ts:62-97 | under the attribution hypothesis, that is the message that comes first in the log, and `{}` only if there is none |
| Guarantees.NoTwoRowsAgree | core/src/entities/Change.ts:25 | no two rows agree on position, table, schema, database and operation |
| Guarantees.EveryChangeCanBeStored | core/src/ingestion.ts:98-193 | with `useBuffer` off, every log that can be read has a run that accepts all of it, stores every change that is not to be dropped, acks every record and purges it |
| Progress.AnythingMayRecur | core/src/ingestion.ts:98-193 | in every state any message that is not acked may be delivered again while the worker fetches, any ack on its way may land, and a crash may come, which loses no row and no ack on its way |
| Progress.AckCanLand | core/src/ingestion.ts:163-166 | with `useBuffer` off, in every run, the ack of the turn at hand can be sent and become the ack floor |
| Progress.PurgedToFloor | worker/src/index.ts:154-156 | purging at the ack floor leaves the stream starting just after it |
| Progress.CanStoreAll | core/src/ingestion.ts:98-193 | with `useBuffer` off, from any state of any run, if what is not acked can be read, the run can go on until everything published is stored, every record acked and purged |
| Safety.StepKeeps | core/src/ingestion.ts:98-187 | every step of the transition system keeps the invariant |
| Safety.NothingIsLost | core/src/ingestion.ts:98-193 | in every reachable state each accepted message to be kept is in the table, dropped as empty, or in the stream above the ack floor, not purged |
| Safety.StepTraces | core/src/ingestion.ts:98-187 | every step keeps what is held, fetched, pending and stored traceable to the log, whatever the keys |
| Safety.NeverWronglyAttributed | core/src/stitching.ts:37-39 | over every run, whatever the keys, a row is an accepted change with no context or that of an accepted context message of its subject and transaction |
| Safety.RowsAreOnlyAdded | core/src/ingestion.ts:39 | over every run, crashes included, the table only grows at its end: no row is altered, moved or removed, and keys stay unique |
| Unreadable.UnreadableHoldsBack | core/src/ingestion.ts:120-125 | in every reachable state a message that cannot be read is still in the stream and not acked, and no row comes from beyond it |
| Safety.ExactlyOnceWhenCaughtUp | core/src/entities/Change.ts:25 | once caught up, after any crashes, the keys in the table are exactly those of the accepted non-empty changes, each once |
| Safety.ReplaysAgree | core/src/ingestion.ts:34-41 | two runs over one log, with different batch sizes, buffering and crashes, have the same keys once caught up |
| Attribution.AckImpliesStored | core/src/stitching.ts:123-142 | when a turn ends well, an ack at or past a context implies that all its changes are durable |
| Attribution.StepStaysRight | core/src/ingestion.ts:98-187 | every step, crashes included, keeps each unsaved change together with its context; only a turn that finishes has to end well for it |
| Attribution.AttributionSurvivesCrashes | core/src/stitching.ts:62-97 | with `useBuffer` on or off, in every run with crashes and replays whose finished turns end well (the hypothesis above), each row carries its transaction's earliest context, or `{}` if there is none |
| DeployedWorker.TurnUnbuffered | core/src/stitching.ts:119-121 | without `useBuffer` nothing is held and the ack names a message of the same fetch |
| DeployedWorker.DeployedMode | worker/src/index.ts:145-157 | as deployed, in every reachable state the buffer is empty, a computed ack is really sent, and between turns everything up to the last stream sequence is durable |
| DeployedWorker.RowsCarryTheirFetch | core/src/stitching.ts:36-39 | with `useBuffer` off, in every run with crashes, whatever the keys and however the fetches end, each row was added by the turn over a fetch that has its change, and carries the first context of its transaction in that fetch, or `{}` if that has none |
| Incarnation.RunBalances | core/src/ingestion.ts:126-130 | over an incarnation each savable record was released as often as fetched, or is in the buffer |
| Incarnation.ReleasedAtMostOnce | core/src/ingestion.ts:126-130 | no sequence is released twice |
| Incarnation.AckBehindMemory | core/src/stitching.ts:123-142 | everything in memory is strictly beyond every ack computed so far |
| Incarnation.AcksAreMonotone | core/src/stitching.ts:101-142 | every ack is at least every earlier one |
| BatchIndependence.ContextStays | core/src/stitching.ts:66-80 | a fetched context is in the buffer as long as it has a change to come and none has come |
| BatchIndependence.HeldHasNoContext | core/src/stitching.ts:51-60 | a held change has no context in the whole stream, unless a fetch boundary severed it from one |
| BatchIndependence.WhatComesOut | core/src/stitching.ts:36-98 | with `useBuffer` on, for every way of cutting the stream, the released records and held changes are, as a multiset, each savable record with its transaction's first context, bare if an earlier fetch had a change of its transaction |
| BatchIndependence.BatchesDoNotMatter | core/src/stitching.ts:36-98 | that multiset is the one-pass stitching if and only if no fetch boundary separates a change from a later record of its transaction that the one pass gives a context |
| BatchIndependence.AnyTwoCutsAgree | core/src/fetched-record-buffer.ts:33-42 | two such ways of cutting one stream agree |
| BatchIndependence.ContextLeavesWithFirstChange | core/src/stitching.ts:66-80 | a context is dropped by the pass that sees any change of its transaction |
| BatchIndependence.StraddlingChangeLosesContext | core/src/stitching.ts:66-97 | in any run, buffered or not: whenever a fetch ends after a change and before a later record of its transaction, that record comes out bare, and if the one pass gives it a context the run differs from the one pass |
| BatchIndependence.StraddlingInput | core/src/stitching.ts:66-80 | the least input: a context and a change in one fetch, another change in the next |
| UnbufferedBatches.UnbufferedBatchesDoNotMatter | core/src/stitching.ts:36-98 | with `useBuffer` off, whatever the stream, what was released is the one-pass stitching if and only if each record gets in its own fetch what that pass gives it |
| UnbufferedBatches.UnbufferedBoundaries | core/src/stitching.ts:36-98 | so, when a transaction has one context message, if and only if no fetch boundary lies between a record and a context it needs |
| UnbufferedBatches.RepeatedContextInput | core/src/stitching.ts:38-39 | an input where boundaries do not decide: a second context of the same content comes with the change, and the cut does not matter |
| LateContexts.HeldChangesExactly | core/src/stitching.ts:51-60 | a change is held if and only if it is alone in its transaction and no record of its subject comes after it in visiting order |
| LateContexts.LateContextIsMet | core/src/stitching.ts:51-60 | a context that comes one fetch after its change still reaches it: the held change is released with the earliest context of its transaction in that fetch |
| Redelivery.RedeliveryIsTransparent | core/src/ingestion.ts:53-67 | mixing stale messages and repeats into the fetches of a run, in any order, changes neither memory nor what is released nor any ack |
| Redelivery.AcksNeverGoBack | core/src/ingestion.ts:111-118 | whatever is delivered, acks never decrease |
| Redelivery.AcksStayBehind | core/src/ingestion.ts:111-118 | whatever is delivered, no ack passes the last stream sequence or reaches anything in memory |
| Redelivery.NoSequenceTwice | core/src/ingestion.ts:53-67 | whatever is delivered, no sequence is released twice, and none released is still in memory |
| LateContexts.HeartbeatCanLeaveChange | core/src/stitching.ts:41-60 | an input where a heartbeat frees nothing: it follows a change of a later transaction, and the change stays held |
| BoundedMemory.HeldNearLastVisited | core/src/stitching.ts:68-75 | in any run, everything held is within the orphan gap of the last record that its subject's latest visit met |
| BoundedMemory.HeldWithinGap | core/src/stitching.ts:68-75 | in runs where, per subject, transaction ids rise with the sequences (`Steady`), everything held is within the gap of everything its subject has had so far |
| BoundedMemory.MemoryIsBounded | core/src/stitching.ts:51-81 | in such runs each subject holds at most the gap plus one records after every pass |
| BoundedMemory.MemoryIsUnbounded | core/src/stitching.ts:27-32 | in others there is no bound: n contexts of one subject whose transaction ids fall are all held after one fetch, for every n |
| BoundedMemory.LastFetchedIsLastVisited | core/src/stitching.ts:27-32 | in `Steady` runs the last record fetched is the last its subject's visit meets |
| BoundedMemory.HeartbeatFreesChanges | core/src/stitching.ts:41-60 | in any run, when a subject's visit ends with a heartbeat, no change of the subject is held |
| BoundedMemory.HeartbeatAdvancesAck | core/src/stitching.ts:101-142 | and if there is no other subject, the ack is at least the heartbeat less the gap less one, absent exactly when the first message is still held |
| IdleFetches.ShapeOfHeld | core/src/stitching.ts:51-81 | per subject a pass holds at most one change, the subject's last record, and never a change with a context of its transaction |
| IdleFetches.StitchingHeldIsIdle | core/src/stitching.ts:12-155 | for any pass over distinct sequences, stitching what it held releases nothing, acks nothing and gives back the same buffer, if and only if no held context lies more than the gap below the last held record of its own or an earlier held subject |
| IdleFetches.IdleFetchChangesNothing | core/src/stitching.ts:101-121 | so after any run over distinct sequences: a fetch that brings nothing is a fixed point if and only if no held context is that far behind |
| IdleFetches.SteadyRunsAreIdle | core/src/stitching.ts:101-121 | after a `Steady` run it always is |
| IdleFetches.IdleFetchCanDrop | core/src/stitching.ts:68-80 | an input where it is not: a context, a heartbeat of a later transaction and a far later context of a transaction between; the empty fetch drops the first context |
| AckProgress.PreferredIsFurthest | core/src/stitching.ts:104-117 | the subject the ack is taken from is as far as any other, unless it has records held |
| AckProgress.NamelessGivesWay | core/src/stitching.ts:104-108 | a subject with an empty name, were there one, is replaced by whichever is recorded next |
| AckProgress.PreferredIsChoice | core/src/stitching.ts:104-118 | the loop over recorded subjects falls on the visit chosen by reach and by what is held |
| AckProgress.AckReaches | core/src/stitching.ts:101-142 | when something is held, the ack reaches q if and only if something is done at or beyond q, everything held is beyond q, and no subject that has records held and led when visited stops short of q |
| AckProgress.AckCoversReleased | core/src/stitching.ts:101-142 | when something is held, a released or passed-over record is covered if and only if everything held comes later and no subject stops the ack short of it |
| AckProgress.OneSubjectAck | core/src/stitching.ts:101-142 | with one subject nothing stops the ack: it is limited by what is held alone |
| AckProgress.AckSticksAtFive | core/src/stitching.ts:104-117 | an input where it does stop: one subject reached 5 and holds 20, another reached 10, and the ack is 5 |
| AckProgress.NothingHeldAck | core/src/stitching.ts:119-121 | when nothing is held, the ack covers q if and only if some record at or beyond q is the last of its subject in visiting order |
| AckProgress.UnbufferedAcksAll | core/src/stitching.ts:26-32 | with `useBuffer` off a pass acks everything it was given if and only if a record with the greatest sequence is of the latest transaction of its subject |
| AckProgress.UnbufferedAckLags | core/src/stitching.ts:26-32 | an input where it does not: of two records the later one is of the earlier transaction, and the ack is the first |
| AckSending.UnheldAckIsSent | core/src/ingestion.ts:163-166 | with nothing held, the ack is sent if and only if some message of this fetch is the last of its subject in visiting order |
| AckSending.BufferedAckIsSent | core/src/ingestion.ts:163-166 | with something held, gaps or not, the ack is sent if and only if something of this fetch is done, everything held comes after the first sequence beyond the earlier fetches, no subject stops the ack there, and, when the ack would otherwise reach the least record held, the message just before that is in the fetch |
| AckSending.GapAckIsNotSent | core/src/stitching.ts:128-142 | an input where the last part decides: a heartbeat, a held context and a heartbeat, with a gap before the context; the ack gets beyond the fetches before, but names the message in the gap and is not sent |
| AckSending.LateAckIsNotSent | core/src/ingestion.ts:163-166 | an ack that is never sent: two turns over one message each, a change and then a context of a later transaction; the second releases the change and is the first whose ack covers it, and that ack is not sent |
| DebeziumStream.StreamManager.EnsureDebeziumStream | core/src/nats.ts:59-125 | creates, updates in place, recreates or refuses; no message is ever discarded, it refuses exactly when storage or retention would change and messages remain, and after any other boot the stream has the name and subjects given, is file-backed under Limits and DiscardNew with one replica, has the size and age given or 1 GiB and none, and a second boot changes nothing |
| DebeziumStream.RecreatingIsSafe | core/src/nats.ts:103-115 | whenever a boot recreates the stream, everything it ever accepted is durable |
| DebeziumStream.LateDeleteLoses | core/src/nats.ts:103-115 | were the pipeline to go on between the lookup and the delete, the delete would lose nothing if and only if everything published since is durable; so it loses nothing when nothing was published |
| ReplicationSlots.ObserveSlots | core/src/replication-slot.ts:88-154 | the loop computes the new timestamps and warnings from the old ones |
| ReplicationSlots.TimestampIsRunStart | core/src/replication-slot.ts:104-117 | a slot has a timestamp if and only if the latest poll saw it inactive, and it is the time of the first poll of its current unbroken inactive run |
| ReplicationSlots.MonitorRefinesHistory | worker/src/index.ts:81-100 | so it is over any attempts, failed ones included, for the polls that succeeded |
| ReplicationSlots.WarnsAfterGrace | core/src/replication-slot.ts:119-126 | the latest poll warns of inactivity if and only if that run has lasted at least the grace period |
| ReplicationSlots.WarnsAtOnce | core/src/replication-slot.ts:128-147 | retention is warned of if and only if an active slot is at the limit, trouble with its WAL if and only if its status is `unreserved` or `lost`, whatever the history |
| ReplicationSlots.SlotMonitor.RunPoll | worker/src/index.ts:81-100 | a poll keeps the stored state equal to that of the whole history of attempts |

## Left out

- Progress of the ack floor with `useBuffer` on: the code does not provide it, because an ack may name no message of the fetch; `BufferedAckIsSent` says exactly when one is sent, `LateAckIsNotSent` and `GapAckIsNotSent` give two that are not.
- Contexts of transactions whose changes straddle two fetches: the code drops them; `StraddlingChangeLosesContext` states it.
- NATS, Debezium, PostgreSQL and MikroORM internals: only a stream, a consumer with an ack floor, and a table with a unique key remain.
- Stream size limits: a rejected publish is one that does not happen.
- `buildConsumer`, `emitChangeContext`, environment parsing and `parseIgnoreFields`: configuration plumbing and validation.
- `changeAttributesOverride`: taken as the identity.
- Hashes, `createdAt`, commit and queue times, primary keys, base64, UTF-8 and JSON decoding: no decision reads them; contexts and column values are opaque values with equality.
- The text of slot warnings and `formatBytes`: presentation.
- The health server, timers, sleeps, logging, the retry loops at boot and dropping the replication slot on request.
- FetchedRecordBuffers.SortRecordsSorts: `Array.prototype.sort` is modelled as an insertion sort on values, not in place on the fresh array; with distinct sequences the sorted permutation is unique.
- ReplicationSlots.ObserveSlots: the warning carries slot and reason, not its message.
