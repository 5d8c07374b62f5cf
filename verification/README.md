# A verified model of the transferia data plane

This project models, in Dafny, the parts of transferia that decide whether data is safe: how a
partition pipeline commits source positions, how datasets are admitted while a sink runs, how memory
is budgeted, how state survives a power loss, and which schemas a sink may store. It proves what those
parts promise for every input, every interleaving and every reachable state.

`dafny verify dfyconfig.toml` checks all of it.

## What is modelled, and how

| files | component | form |
|---|---|---|
| `DeliveryTracker`, `RowCounts`, `CommitLedger` | tracker, row counter, reader ledger | classes changed in place, each method proved against a function on values; theorems about arbitrary operation sequences |
| `PipelineFront`, `FrontSafety` | reader, commit and parser over bounded FIFO queues, with the sink side left open | step system whose invariant has two numbers for the sink side: what it took, and what is durable there |
| `Pipeline`, `PipelineSafety`, `PipelineWitness` | the pipeline with one tracking sink | step system, and a run that shows the theorems are not empty |
| `Admission`, `AdmissionEvents`, `AdmissionWitness` | dataset admission barrier around sink sessions | step system, and the runs in which an expected promise fails |
| `EvolvingPipeline`, `EvolvingTheorems`, `EvolvingBarriers` | the pipeline with the admission barrier in the place of the sink | composition of the two step systems |
| `EvolvingRuns`, `EvolvingErrors`, `EvolvingWitness` | its runs, put together step by step | when the reader's protocol error is in reach; a run past a dataset barrier, one that ends in the protocol error, and one whose last delivery a tracker refuses |
| `Memory`, `MemorySafety`, `MemoryTheorems`, `MemoryOrdinary`, `TransformPressure` | `PipelineMemory` | step system with one step per atomic operation and a program counter per thread; the parser loop as a client |
| `MemoryBudget` | the same calls when they do not overlap | class with its leases |
| `DurableCodec`, `LocalFile` | the checksummed state file | functions, and a class for one call at a time |
| `DurableStore`, `DurableSafety`, `DurableTheorems`, `DurableWitness` | compare-and-exchange under a file lock, with process deaths and power losses between any two file operations | step system |
| `BlockHash`, `Murmur3` | incremental MurmurHash3 x64 128 | class with a block loop, against a one-shot reference, over abstract words and then 64-bit ones |
| `SchemaContract`, `ControlColumns`, `Projection`, `StoredContract` | schema checks at the sink boundary | methods with loops, proved to accept exactly a declarative contract |
| `RenameTemplate`, `RenameTable` | replacement templates | parser as a function and as a loop, printer, expansion loop |
| `Common` | results, machine integers, sums | functions and lemmas |

In every step system a run is a list of states in which each follows from the one before by one enabled
step of one participant. Theorems take a run and a position in it.

## Assumptions

- Delivery ids stay below `u64::MAX`. `DeliveryId::next` saturates there; `AcceptKeepsValidIff` shows that
  this is exactly where the tracker breaks.
- Channels are FIFO and bounded by eight. `commit_offsets`, `prepare` and `update_discovery` succeed or fail
  at will. The parser and the sink produce arbitrary outputs, unit counts and completions.
- A sink session that ends well after its input was closed, without cancellation, has drained its writes. A
  session reports only what is written, in order and once.
- Atomics are sequentially consistent, and a `notified()` future catches every `notify_waiters` after its
  creation. New bytes are asked for only while everything outstanding fits the word size.
- A rename is atomic and visible at once. It survives a power loss after a directory sync; file contents
  survive if the file was synced, and are arbitrary otherwise. The directory itself exists.
- Regular expressions yield matches from left to right, without overlap, inside the input. Text is a
  sequence of characters rather than of UTF-8 bytes.

## What the proofs found

- The row counter accepts a delivery id that was already committed. Its books are exact throughout a run if
  and only if no committed id is observed again (`RunIsExactIff`, with the failing run in
  `ReobservedDeliveryIsPendingAgain`). The pipeline never does that.
- `reserve_transform` looks at no limit, so the bound on transform memory is the parser loop's and not the
  budget's. One call keeps the retained bytes below the limit plus its own output if and only if they were below
  the limit before it (`ReserveTransformIgnoresLimit`); two unchecked calls break the bound for every limit
  (`UncheckedReservationsCascade`).
- A sink that closes its input without failing makes the admission barrier drop one delivery and still end
  well (`RefusedDeliveryIsDropped`). A run that ends well, uncancelled, has passed on every delivery if and only
  if that did not happen (`CompletedRunPassesAllIff`).
- The sink contract asks a session to drain its writes, not to report them. If a session drains without
  reporting, a dataset is acknowledged before the delivery ahead of it is reported
  (`DrainWithoutReportBreaksOrder`), and the reader then stops with its fatal protocol error
  (`UnreportedDrainStopsReader`). The order of the events is safe, and that error is out of reach, throughout a
  run if and only if every acknowledgement finds everything reported (`OrderIsSafeIff`, `RunIsSafeIff`).
- A dataset takes a delivery number that no sink session sees, while the delivery tracker accepts only
  consecutive numbers. Behind the admission barrier a tracking sink accepts a delivery if and only if no dataset
  came before it (`TrackerAcceptsIffNoDatasetBefore`). A run exists in which it refuses the first delivery after
  a dataset (`DeliveryAfterDatasetIsRefused`).
- After a power loss the state file holds the newest value or the one before if and only if at most one rename
  happened since the last directory sync (`PowerLossLeavesCompleteValue`). Two calls that die between rename
  and directory sync, one after the other, can lose two values that were readable (`TwoDeathsLoseTwoValues`).
  Values reported as applied are never among the lost.
- Three checks can never fail where they stand: the second overflow tests of growing and of companion leases
  (`GrowProgressSource`, `ReserveSourceCompanion`), and the last pairing test of the control columns
  (`CountingPairsEveryTarget`).
- The documentation of `validate_stored_projection` speaks of an exact projection. The code compares all but
  the source's own type text and lets the stored column refuse nulls (`MatchesIffTightens`). The model
  follows the code.

## Model

| member | source | states |
|---|---|---|
| `DeliveryTracking.DeliveryTracker.AcceptDelivery` | crates/transferia-delivery-contracts/src/delivery_tracker.rs:32-53 | accepts exactly the next id in order and records its units; any other id is refused and changes nothing |
| `DeliveryTracking.DeliveryTracker.CompleteUnits` | crates/transferia-delivery-contracts/src/delivery_tracker.rs:55-65 | takes units off a known delivery; an unknown id or an underflow is refused and changes nothing |
| `DeliveryTracking.DeliveryTracker.TakeCommitted` | crates/transferia-delivery-contracts/src/delivery_tracker.rs:67-84 | the loop over the finished front computes the tracker and report of the value-level `Take` |
| `DeliveryTracking.DeliveryTracker.IsEmpty` | crates/transferia-delivery-contracts/src/delivery_tracker.rs:87-89 | true exactly when no accepted delivery is outstanding |
| `DeliveryTracking.AcceptKeepsValidIff` | crates/transferia-core/src/sink.rs:27-29 | because ids saturate, accepting keeps the tracker consistent if and only if the id is below the top of the range |
| `DeliveryTracking.TakeReportsMaximalPrefix` | crates/transferia-delivery-contracts/src/delivery_tracker.rs:67-84 | a report covers exactly the deliveries from the old front to the new one with their message total; everything below the new front is finished and the front itself is not |
| `DeliveryTracking.CompleteKeepsAccounts` | crates/transferia-delivery-contracts/src/delivery_tracker.rs:55-65 | after a completion, open units are still accepted minus completed units for every delivery |
| `DeliveryTracking.RunsAreAccounted` | crates/transferia-delivery-contracts/src/delivery_tracker.rs:32-84 | in every interleaving of accept, complete and take the tracker holds what the history says, and the reports tile the ids from 1 to the front without gap or overlap |
| `DeliveryTracking.ReportsAdvance` | crates/transferia-delivery-contracts/src/delivery_tracker.rs:67-84 | in every run reported ids strictly increase, and every delivery up to a reported id has no unit left |
| `DeliveryTracking.MessagesConserved` | crates/transferia-delivery-contracts/src/delivery_tracker.rs:67-84 | the message counts of all reports add up to the messages of all reported deliveries, below saturation |
| `DeliveryTracking.OrderDoesNotMatter` | crates/transferia-delivery-contracts/src/delivery_tracker.rs:55-84 | two runs with the same accepted deliveries and the same multiset of completions end, after a take, in the same tracker |
| `DeliveryTracking.AcceptsIffNoneLeftOut` | crates/transferia-delivery-contracts/src/delivery_tracker.rs:32-53 | offered increasing ids, with any completions and takes in between and refusals changing nothing, the tracker accepts the next id if and only if no number was left out so far |
| `RowCounting.ValidatedCommittedCounts` | crates/transferia-pipeline/src/row_count.rs:166-198 | the loop yields, for every dataset, committed rows plus the rows of all pending deliveries up to the id, and succeeds exactly when the id is pending, every dataset is known and no total overflows |
| `RowCounting.OutputRowCounts.Register` | crates/transferia-pipeline/src/row_count.rs:30-47 | starts every dataset at zero; refused exactly for a repeated dataset |
| `RowCounting.OutputRowCounts.AdmitDatasets` | crates/transferia-pipeline/src/row_count.rs:49-53 | adds new datasets at zero and leaves known ones alone |
| `RowCounting.OutputRowCounts.ObserveDelivery` | crates/transferia-pipeline/src/row_count.rs:55-95 | records the rows of a delivery per dataset, all or nothing; says exactly when it is refused |
| `RowCounting.OutputRowCounts.CommitThrough` | crates/transferia-pipeline/src/row_count.rs:97-107 | publishes the totals through the id and drops those deliveries, or changes nothing |
| `RowCounting.OutputRowCounts.ValidateCommitThrough` | crates/transferia-pipeline/src/row_count.rs:109-115 | succeeds exactly when `CommitThrough` would |
| `RowCounting.OutputRowCounts.Merge` | crates/transferia-pipeline/src/row_count.rs:117-147 | adds another attempt's committed totals to every dataset, or, if one is unknown or overflows, to none |
| `RowCounting.ObserveKeepsExactIff` | crates/transferia-pipeline/src/row_count.rs:55-95 | observing keeps the books exact if and only if the id is not one already committed |
| `RowCounting.CommitKeepsExact` | crates/transferia-pipeline/src/row_count.rs:97-107 | after a commit each total is the sum of that dataset's rows over all observed deliveries up to the id, and pending is exactly what is above it |
| `RowCounting.RunIsExactIff` | crates/transferia-pipeline/src/row_count.rs:49-115 | after any sequence of observe, admit and commit, failures included, the totals are exact at every point if and only if no committed id is observed again |
| `RowCounting.ReobservedDeliveryIsPendingAgain` | crates/transferia-pipeline/src/row_count.rs:55-95 | the run that breaks exactness: observe, commit and observe the same id again |
| `RowCounting.ValidatedCommitSurvives` | crates/transferia-pipeline/src/row_count.rs:97-115 | once validation of an id succeeded, committing it succeeds and publishes the validated totals, whatever later deliveries are observed or datasets admitted in between |
| `RowCounting.MergesAddUp` | crates/transferia-pipeline/src/row_count.rs:117-147 | merging any list of attempts gives, per dataset, the start total plus the totals of the attempts that merged, without overflow; if the attempts are exact, these are the rows of their committed deliveries |
| `RowCounting.MergedAttemptAddsItsCommittedPrefix` | crates/transferia-pipeline/src/row_count.rs:117-147 | merging an exact attempt adds exactly the rows of its committed deliveries |
| `CommitLedger.Reader.CountCovered` | crates/transferia-pipeline/src/lib.rs:421-424 | counts the ledger prefix with ids not above the committed one |
| `CommitLedger.Reader.CollectMarkers` | crates/transferia-pipeline/src/lib.rs:425-429 | collects the markers of that prefix in order |
| `CommitLedger.Reader.CommitThrough` | crates/transferia-pipeline/src/lib.rs:401-448 | succeeds exactly when the id is in range, the rows can be published and the source accepts a non-empty group; then the prefix is dropped and the rows are published; an out-of-range id or unpublishable rows never reach the source; a refused source keeps ledger, totals and progress |
| `FrontSafety.StepKeepsFront` | crates/transferia-pipeline/src/lib.rs:540-752 | whatever is downstream, every step of reader, commit, parser or environment keeps one invariant: ids are consecutive between ledger and sink side, only durable ids are reported, and the row counter has observed exactly what was parsed |
| `FrontSafety.StepKeepsOrder` | crates/transferia-pipeline/src/lib.rs:401-448 | no step of the upstream half disturbs increasing reports, and in order they never stop the reader |
| `FrontSafety.CommittedIdIsKnown` | crates/transferia-pipeline/src/lib.rs:408-420 | an id being committed above the dropped prefix was issued, is in the ledger at its own place and is pending in the row counter |
| `FrontSafety.ValidateOutcome` | crates/transferia-pipeline/src/lib.rs:408-432 | a reported id is refused as unknown exactly if it is not above the dropped prefix; otherwise it is refused exactly if, for some dataset, the rows of all deliveries through it exceed 64 bits |
| `PipelineSafety.StepKeepsInv` | crates/transferia-pipeline/src/lib.rs:143-372 | with a tracking sink downstream, every step of every participant keeps the upstream invariant for what the tracker received and reported, and the reports in flight increase |
| `PipelineSafety.CommitsFollowDurability` | crates/transferia-pipeline/src/lib.rs:401-448 | for a fixed set of datasets, at every point of every run the marker groups given to the source concatenate to the markers of a prefix of the issued deliveries, in order and once each; every delivery of the prefix has no unit left at the sink; the finite source counts as drained only if the prefix is everything issued |
| `PipelineSafety.ProtocolErrorsAreUnreachable` | crates/transferia-pipeline/src/lib.rs:401-448 | no run ends in the branches for an unknown sink id, an unknown delivery in the row counter or a failed publication after the source commit, and the sink never sees deliveries out of order |
| `PipelineSafety.TotalsFollowSource` | crates/transferia-pipeline/src/lib.rs:430-441 | published totals are the rows of exactly the published deliveries; the source is ahead of them only inside a commit whose publication is sure to succeed, or after the source refused |
| `PipelineSafety.HistoryIsNeverRewritten` | crates/transferia-pipeline/src/lib.rs:699-733 | what was issued, offered and covered at one point of a run is a prefix of what is at any later point |
| `PipelineWitness.SomeRunDrains` | crates/transferia-pipeline/src/lib.rs:540-752 | for every marker, dataset and row count a run exists that commits the marker at the source, publishes exactly those rows and drains |
| `EvolvingPipeline.StepKeepsInv` | crates/transferia-pipeline/src/lib.rs:176-182 | with the admission barrier downstream, every step of every participant keeps the upstream invariant, the barrier's invariant, and that every input up to the highest id sent is durable |
| `EvolvingPipeline.ReportCovers` | crates/transferia-pipeline/src/admission.rs:88-118 | when a session reports a delivery, every delivery up to it in the input is written and every dataset before it is acknowledged |
| `EvolvingTheorems.CommitsFollowDurability` | crates/transferia-pipeline/src/lib.rs:540-752 | across dataset barriers, at every point of every run the marker groups given to the source are the markers of a prefix of the issued deliveries, in order and once each; every delivery of the prefix has entered a session and been written, every dataset of it has been acknowledged; drained means everything |
| `EvolvingTheorems.TotalsFollowSource` | crates/transferia-pipeline/src/lib.rs:357-366 | published totals follow the source also across datasets admitted on the way |
| `EvolvingTheorems.BarrierWaitsForCommit` | crates/transferia-pipeline/src/lib.rs:734-750 | the reader leaves a dataset barrier only when everything issued, the dataset included, is committed at the source and durable downstream |
| `EvolvingTheorems.ProtocolErrorsNeedDisorder` | crates/transferia-pipeline/src/lib.rs:408-441 | the row counter never stops the reader, and an unknown id does so only if the events came out of order |
| `EvolvingTheorems.ProtocolErrorsAreUnreachable` | crates/transferia-pipeline/src/lib.rs:401-448 | with every acknowledgement finding the deliveries before it reported, no run ends in a protocol error |
| `EvolvingTheorems.TrackerAcceptsIffNoDatasetBefore` | crates/transferia-delivery-contracts/src/delivery_tracker.rs:32-44 | behind the barrier, in every run, a tracker offered what entered the sessions so far, with any completions and takes in between, accepts the next delivery if and only if no dataset precedes it in the input |
| `EvolvingBarriers.NothingIsReadBehindDataset` | crates/transferia-core/src/data/message.rs:58-65 | in every run, whenever the reader takes a batch from the source, no dataset is between it and the admission barrier, and every dataset taken there has been acknowledged after its preparation and committed at the source |
| `EvolvingErrors.LeftBehindCanBreak` | crates/transferia-pipeline/src/lib.rs:408-420 | from every state of every run in which an entered delivery is unreported although a higher id was sent, some continuation without further acknowledgements ends in the fatal error for an unknown delivery, if the reader still reads, its totals fit, and a session is running or opens next |
| `EvolvingErrors.UnreportedAcknowledgementCanBreak` | crates/transferia-pipeline/src/admission.rs:119-136 | an acknowledgement that does not find everything reported always leaves such a continuation |
| `EvolvingErrors.RunIsSafeIff` | crates/transferia-pipeline/src/admission.rs:119-136 | the fatal error is out of reach after every prefix of a run, without further acknowledgements, if and only if every acknowledgement of the run finds everything reported |
| `EvolvingWitness.SomeRunPassesBarrier` | crates/transferia-pipeline/src/lib.rs:734-750 | for every two markers and every dataset a run exists whose last step leaves the barrier, with the delivery's and the dataset's marker committed in one group |
| `EvolvingWitness.UnreportedDrainStopsReader` | crates/transferia-pipeline/src/lib.rs:408-420 | a run in which a session drains without reporting ends in the fatal error for an unknown delivery |
| `EvolvingWitness.DeliveryAfterDatasetIsRefused` | crates/transferia-delivery-contracts/src/delivery_tracker.rs:38-43 | a run in which the first delivery of a new dataset enters a session, and a tracker that was offered the delivery before the dataset refuses it |
| `Admission.StepKeepsInv` | crates/transferia-pipeline/src/admission.rs:67-149 | every step of coordinator, sink or environment keeps order, session and catalog facts |
| `Admission.DeliveriesKeepTheirOrder` | crates/transferia-pipeline/src/admission.rs:85-118 | deliveries enter sessions in input order, once each; at most one is in hand; one is dropped only after a cancellation, a sink that closed its input, a rejection or a failure; a run that ends well without these passed on every delivery |
| `Admission.CompletedRunPassesAllIff` | crates/transferia-pipeline/src/admission.rs:106-127 | a run that ends well, uncancelled, has passed on every delivery if and only if no session refused one by closing its input early |
| `AdmissionWitness.RefusedDeliveryIsDropped` | crates/transferia-pipeline/src/admission.rs:111-127 | for every delivery, a run that ends well, uncancelled, and never passes it on |
| `Admission.DeliveriesEnterWithTheirDatasets` | crates/transferia-pipeline/src/admission.rs:98-114 | a delivery enters a running session only when all its datasets are in the installed catalog |
| `Admission.CatalogChangesBetweenSessions` | crates/transferia-pipeline/src/admission.rs:119-142 | the sink's catalog changes only with no session running and everything sent so far durable, and only grows |
| `Admission.AcknowledgementFollowsDrain` | crates/transferia-pipeline/src/admission.rs:129-136 | a dataset id is acknowledged, in input order, only when the dataset is installed and every delivery before it has entered a session and been drained |
| `AdmissionEvents.EventsStrictlyIncrease` | crates/transferia-pipeline/src/admission.rs:67-149 | sink reports and dataset acknowledgements reach the reader with strictly increasing ids, if every acknowledgement finds the deliveries before it reported |
| `AdmissionEvents.OrderIsSafeIff` | crates/transferia-pipeline/src/admission.rs:119-136 | that condition is exact: events are in order and below everything still to be reported, throughout a run, if and only if every acknowledgement finds all entered deliveries reported |
| `AdmissionWitness.DrainWithoutReportBreaksOrder` | crates/transferia-core/src/sink.rs:114-120 | a run within the sink contract in which the reader gets a dataset's id before the id of the delivery ahead of it |
| `MemorySafety.StepKeepsInv` | crates/transferia-core/src/memory.rs:104-520 | every atomic operation of every call keeps: each counter is the sum of live leases and calls in flight, the exclusive slots have at most one holder, and each call in flight still owes what its remaining operations say |
| `MemorySafety.NoOverflow` | crates/transferia-core/src/memory.rs:161-350 | no addition of a call in flight wraps and no subtraction underflows, at any step of any run |
| `MemorySafety.FinishFacts` | crates/transferia-core/src/memory.rs:310-338 | a call that finishes an active transform starts answerable for exactly the estimate and the active slot, and never pushes a counter above the larger of estimate and output |
| `MemorySafety.FinishLeavesNoGap` | crates/transferia-core/src/memory.rs:310-338 | until the lease is handed out, finishing answers in `used` for at least the smaller of estimate and output, and for exactly the output after its first operation |
| `MemoryTheorems.CountersAlwaysAgree` | crates/transferia-core/src/memory.rs:104-350 | at every atomic step of every concurrent run `used` equals source plus transform plus active bytes up to the debt of the calls in flight; no call overflowed; at most one active transform and one progress-source lease exist |
| `MemoryTheorems.QuiescentCountersAreExact` | crates/transferia-core/src/memory.rs:499-520 | with no call in flight every counter is exactly the sum of its live leases |
| `MemoryTheorems.NoLostWakeup` | crates/transferia-core/src/memory.rs:108-148 | with no call in flight, a parked `reserve`, `reserve_progress_source`, `admit_active_transform` or `wait_transform_below_limit` that has not been notified cannot be admitted |
| `MemoryTheorems.BecomesAdmissible` | crates/transferia-core/src/memory.rs:460-488 | a request becomes admissible only by a step of a call that still owes a notification |
| `MemoryTheorems.WokenCallIsAdmitted` | crates/transferia-core/src/memory.rs:253-300 | a woken call that can be admitted is, by its own next steps, if no other thread moves in between |
| `MemoryOrdinary.OversizedReservationIsAlone` | crates/transferia-core/src/memory.rs:104-149 | in runs of `reserve`, clone, `shrink_to` and drop, after every atomic operation: above the limit there is exactly one reservation, live or on its way in or out, and nothing is used exactly when there is none; between calls these are the live leases |
| `TransformPressure.OverageNeverCascades` | crates/transferia-pipeline/src/lib.rs:157-165 | with the parser loop as the only transform reserver, every admission and every reservation of output starts below the limit, and retained transform bytes stay below the limit plus the latest output, on the typed, raw and empty paths |
| `TransformPressure.ReserveTransformIgnoresLimit` | crates/transferia-core/src/memory.rs:213-239 | one `reserve_transform` adds its bytes on top of anything, and leaves less than the limit plus its output if and only if retained bytes were below the limit before |
| `TransformPressure.UncheckedReservationsCascade` | crates/transferia-core/src/memory.rs:213-239 | for every limit, a run of two `reserve_transform` calls that ends at or above the limit plus the latest output |
| `MemoryBudget.Budget.TryReserve` | crates/transferia-core/src/memory.rs:104-149 | admitted exactly if it fits or is oversized and alone; then one source lease of at least a byte is added; otherwise nothing changes |
| `MemoryBudget.Budget.TryReserveProgressSource` | crates/transferia-core/src/memory.rs:161-201 | admitted exactly if no progress-source lease is live, whatever the limit |
| `MemoryBudget.Budget.ReserveTransform` | crates/transferia-core/src/memory.rs:213-239 | adds one transform lease and keeps every counter the sum of its leases |
| `MemoryBudget.Budget.TryAdmitActiveTransform` | crates/transferia-core/src/memory.rs:253-287 | admitted exactly if retained transform bytes are below the limit and no transform is active |
| `MemoryBudget.Budget.FinishActiveTransform` | crates/transferia-core/src/memory.rs:310-338 | the estimate becomes one transform lease of the exact size, whichever is larger |
| `MemoryBudget.Budget.AbandonActiveTransform` | crates/transferia-core/src/memory.rs:341-350 | the estimate is given back and no lease changes |
| `MemoryBudget.Budget.GrowProgressSource` | crates/transferia-core/src/memory.rs:361-399 | only a progress-source lease grows, never shrinks, and overflow of the total is refused without effect; the source total then cannot overflow |
| `MemoryBudget.Budget.ReserveSourceCompanion` | crates/transferia-core/src/memory.rs:409-453 | a progress-source lease yields an independent source lease; overflow is refused without effect |
| `MemoryBudget.Budget.ShrinkTo` | crates/transferia-core/src/memory.rs:460-488 | only ever shrinks, to at least a byte, and reports exactly whether it did |
| `MemoryBudget.Budget.Drop` | crates/transferia-core/src/memory.rs:499-520 | gives back exactly the lease's bytes in the right counters and frees its slot |
| `MemoryBudget.ZeroIffNoneLive` | crates/transferia-core/src/memory.rs:460-464 | because every lease keeps a byte, the counters are zero exactly when no lease is live |
| `DurableCodec.FromToLittleEndian` | crates/transferia-registry/src/durable.rs:299-300 | a number written in little-endian bytes reads back |
| `DurableCodec.ToFromLittleEndian` | crates/transferia-registry/src/durable.rs:259-260 | bytes read as a number write back the same |
| `DurableCodec.DecodeEncode` | crates/transferia-registry/src/durable.rs:248-302 | every representable revision and payload round-trips, for any checksum function |
| `DurableCodec.LengthTestIsExact` | crates/transferia-registry/src/durable.rs:261-268 | the length test rejects every wrong length even though its addition wraps |
| `DurableCodec.EncodeDecode` | crates/transferia-registry/src/durable.rs:248-279 | the format is canonical: accepted bytes are exactly what would be written for the value they yield |
| `DurableCodec.AcceptedIffWritten` | crates/transferia-registry/src/durable.rs:248-279 | a byte string is accepted if and only if it is the complete encoding of some representable value |
| `DurableCodec.EncodeIsInjective` | crates/transferia-registry/src/durable.rs:297-302 | two values never share an encoding |
| `LocalFile.EncodeBuffer` | crates/transferia-registry/src/durable.rs:297-302 | the buffer built piece by piece decodes to the value and is its encoding |
| `LocalFile.StateFile.Read` | crates/transferia-registry/src/durable.rs:248-279 | finds a value exactly in its complete encoding and none exactly in a missing file; every other file is rejected |
| `LocalFile.StateFile.CompareExchange` | crates/transferia-registry/src/durable.rs:155-185 | applies exactly when the file is readable, the expected revision is the stored one and has a successor, and then stores the next revision; a conflict returns the stored value; a corrupt file fails; nothing else changes the file |
| `DurableSafety.StepKeepsInv` | crates/transferia-registry/src/durable.rs:217-313 | every client step, failure, process death, directory flush and power loss keeps: one client in the critical section, the file is the newest value, the disk holds a complete older or equal one, and every acknowledged value is on disk |
| `DurableTheorems.FileAlwaysReads` | crates/transferia-registry/src/durable.rs:281-313 | in every reachable state the file reads back as the newest installed value, never torn |
| `DurableTheorems.RevisionsAreConsecutive` | crates/transferia-registry/src/durable.rs:155-185 | installed revisions are 0, 1, 2 and so on, and over a whole run, power losses included, each revision is reported as applied at most once |
| `DurableTheorems.AppliedIsNeverLost` | crates/transferia-registry/src/durable.rs:303-313 | a value reported as applied is in every later history at its own revision, and every later read finds it or a newer one |
| `DurableTheorems.PowerLossLeavesCompleteValue` | crates/transferia-registry/src/durable.rs:303-313 | after a power loss the file reads as a complete earlier value and nothing acknowledged is gone; it is the newest or the one before if and only if at most one rename happened since the last directory sync, which holds as long as no call gave up between rename and sync |
| `DurableWitness.TwoDeathsLoseTwoValues` | crates/transferia-registry/src/durable.rs:309-312 | a run in which two values were installed and readable, and after a power loss the file is missing |
| `DurableTheorems.HistoryChangesOnlyBy` | crates/transferia-registry/src/durable.rs:170-180 | only a rename adds a value, numbered right after the newest, and nothing but a power loss removes one: no update is overwritten unseen |
| `DurableTheorems.DecisionIsExact` | crates/transferia-registry/src/durable.rs:170-181 | a call conflicts exactly when the newest revision is not the expected one and then returns it, fails exactly at the last revision, and otherwise installs the next one; deciding changes nothing stored |
| `DurableTheorems.ReadFindsNewest` | crates/transferia-registry/src/durable.rs:146-153 | a read returns the newest installed value and never fails to decode |
| `DurableTheorems.AppliedIsDurableBeforeItIsReported` | crates/transferia-registry/src/durable.rs:303-313 | a value about to be reported as applied is the newest and would survive a power loss |
| `BlockHash.AssembledIsWord` | scripts/murmur3_x64_128.py:69-71 | xoring each tail byte in at its own place gives the same word as reading the bytes in little-endian order |
| `BlockHash.TailRulesAgree` | scripts/murmur3_x64_128.py:66-75 | mixing a tail half only when its word is not zero equals the reference's length-driven rule, for every tail |
| `BlockHash.BufferBlock` | scripts/murmur3_x64_128.py:40-46 | completing the buffered block and mixing it keeps the state the fold over all whole blocks |
| `BlockHash.Hasher.MixBlocks` | scripts/murmur3_x64_128.py:47-50 | the block loop absorbs the whole view, and the state stays the fold over whole blocks plus the remainder |
| `BlockHash.Hasher.Update` | scripts/murmur3_x64_128.py:37-50 | absorbs the payload at the end of what was absorbed, whatever was buffered |
| `BlockHash.Hasher.Digest` | scripts/murmur3_x64_128.py:66-84 | is the one-shot reference digest of everything absorbed |
| `BlockHash.HashChunks` | scripts/murmur3_x64_128.py:37-84 | any split of a message into chunks gives the reference digest of the whole message |
| `Murmur3.Murmur3IsLawful` | scripts/murmur3_x64_128.py:8-23 | the 64-bit words and the scrambling constants obey the laws the two tail rules rest on |
| `Murmur3.HashMessage` | scripts/murmur3_x64_128.py:29-84 | a seed outside 32 bits is refused, exactly; otherwise the digest is the reference digest under that seed |
| `SchemaContract.ElementsSize` | crates/transferia-core/src/delivery.rs:563-592 | a set collected from a list is as large as the list exactly when nothing repeats, which is how the source tests for repetition |
| `SchemaContract.ValidateNames` | crates/transferia-core/src/delivery.rs:560-625 | accepts exactly if incoming, stored and system names and system kinds are all distinct and every system column names an incoming column of its type that is not nullable |
| `ControlColumns.PairControls` | crates/transferia-core/src/delivery.rs:689-712 | the pairing loop accepts exactly distinct references that are the target names, each from a fitting control column |
| `ControlColumns.CountingPairsEveryTarget` | crates/transferia-core/src/delivery.rs:706-711 | distinct references into the targets, as many as targets, reach every target: the last test never fails |
| `ControlColumns.ListsPairIffPaired` | crates/transferia-core/src/delivery.rs:652-765 | the lists pair exactly if control columns and targets are in one-to-one correspondence as columns |
| `ControlColumns.ValidateControlColumns` | crates/transferia-core/src/delivery.rs:652-765 | accepts exactly if old values, when present, correspond one-to-one to current columns, old keys, when present, to primary keys, the two kinds never coexist, and both need a changelog |
| `StoredContract.AcceptedControlsAreBijection` | crates/transferia-core/src/delivery.rs:652-790 | in an accepted dataset there are as many control columns as targets, each target has exactly one with its own type, none is a system column, and only one kind occurs |
| `StoredContract.AcceptedUpsertKnowsOldKeys` | crates/transferia-core/src/delivery.rs:478-509 | in an accepted full-image upsert every stored key is described by exactly one control column, all of one kind |
| `StoredContract.ValidatePolicy` | crates/transferia-core/src/delivery.rs:478-509 | accepts exactly strict datasets and keyed changelogs that carry the old value of every key |
| `StoredContract.ValidateVersion` | crates/transferia-core/src/delivery.rs:510-521 | accepts exactly if at most one source version exists and it is a non-null unsigned changelog column |
| `StoredContract.ValidateStoredProjection` | crates/transferia-core/src/delivery.rs:468-558 | accepts exactly the datasets that keep the whole contract |
| `Projection.FiltersAgree` | crates/transferia-core/src/sink.rs:59-67 | the sink batch and the validator keep the same columns, for every column, system list and flag |
| `Projection.BatchProjectionIsExact` | crates/transferia-core/src/sink.rs:56-79 | what a batch stores always passes the exact-projection test |
| `Projection.MatchesIffTightens` | crates/transferia-core/src/delivery.rs:627-646 | a stored column matches exactly if it is the incoming one up to tightened nullability and the source's type text |
| `Projection.ExactProjectionIsFilter` | crates/transferia-core/src/delivery.rs:522-556 | a stored schema is accepted if and only if it is the incoming one filtered in order with tightened columns; then it holds no control or change column |
| `StoredContract.BatchDatasetAcceptedIff` | crates/transferia-core/src/sink.rs:56-79 | a dataset derived from a batch is accepted exactly if its incoming side is sound |
| `RenameTemplate.ParseDecimal` | crates/transferia-middleware-rename-table/src/lib.rs:208-211 | a printed index parses back to itself |
| `RenameTemplate.ResolveIsExact` | crates/transferia-middleware-rename-table/src/lib.rs:208-217 | a reference means a capture exactly if it is its number, or no capture's number and the first capture of that name |
| `RenameTemplate.ParseReplacement` | crates/transferia-middleware-rename-table/src/lib.rs:179-222 | the scan terminates and gives the parts, or the first error, of the grammar read from the left |
| `RenameTemplate.ParsedCapturesExist` | crates/transferia-middleware-rename-table/src/lib.rs:208-217 | every capture of an accepted template exists in the pattern |
| `RenameTemplate.ParseEscapedText` | crates/transferia-middleware-rename-table/src/lib.rs:182-188 | text with dollars doubled, in front of any template, adds exactly itself to every expansion |
| `RenameTemplate.ParseCapture` | crates/transferia-middleware-rename-table/src/lib.rs:190-218 | a printed capture in front of any template is read as that capture |
| `RenameTemplate.ParsePrint` | crates/transferia-middleware-rename-table/src/lib.rs:179-222 | for every list of literals and in-range captures, parsing the printed template expands alike for every match, failures included |
| `RenameTemplate.PrintParse` | crates/transferia-middleware-rename-table/src/lib.rs:179-222 | an accepted template, printed and parsed again, means the same |
| `RenameTemplate.BareEqualsBraced` | crates/transferia-middleware-rename-table/src/lib.rs:190-203 | a bare reference means the same as the braced one when nothing after it could extend it |
| `RenameTable.AppendExpansion` | crates/transferia-middleware-rename-table/src/lib.rs:143-153 | appends the expansion of the parts, or fails on the first capture that took no part |
| `RenameTable.Renamed` | crates/transferia-middleware-rename-table/src/lib.rs:134-161 | gives nothing without a match, otherwise the input with every match replaced and the rest unchanged, or the first error |
| `RenameTable.PrintedTemplateRenamesAlike` | crates/transferia-middleware-rename-table/src/lib.rs:134-161 | a printed and reparsed template renames every input alike |
| `RenameTable.WholeMatchIsIdentity` | crates/transferia-middleware-rename-table/src/lib.rs:134-161 | the template of the whole match gives every name back, for any matches |
| `RenameTable.WholeMatchTemplate` | crates/transferia-middleware-rename-table/src/lib.rs:179-222 | `${0}` is that template in every pattern |

## Left out

- AdmissionEvents.EventsStrictlyIncrease: needs every acknowledgement to find everything reported, which the sink contract does not say; the condition is exact.
- EvolvingTheorems.ProtocolErrorsAreUnreachable: needs the same, and `RunIsSafeIff` shows that this is exact.
- EvolvingErrors.LeftBehindCanBreak: excludes a reader at the end of its source, which stops without taking another event once its ledger is empty, and a barrier that is between sessions, preparing a dataset or on its way out.
- EvolvingErrors.RunIsSafeIff: is about runs whose counted rows fit 64 bits; otherwise the row counter may stop the reader first.
- PipelineSafety.CommitsFollowDurability: is about a fixed set of datasets, where the parser stops at a dataset payload and the reader never leaves a barrier; runs past a barrier are those of the evolving pipeline.
- MemoryTheorems.NoLostWakeup: is about states without a call in flight; a call in flight may be about to notify.
- MemoryTheorems.WokenCallIsAdmitted: says nothing about a woken call that other threads overtake.
- MemorySafety.NoOverflow: assumes that new bytes are asked for only while everything outstanding fits the word size, where the source panics otherwise.
- TransformPressure.OverageNeverCascades: takes the parser loop as the only transform reserver; sinks that reserve transform bytes of their own are outside it.
- Murmur3.HashMessage: gives the digest as a number, not as hexadecimal text.
- Sinks behind the admission barrier are modelled by their contract (entered, written, reported); with the delivery tracker they refuse deliveries after a dataset.
- The parser's and the middlewares' computation, Arrow data and regular-expression matching: only order, row counts, sizes and captures matter here.
- Names, namespaces and their validation after a rename: short case tables.
- Durable keys and their file paths, execution leases and the creation of directories: one key and one directory are modelled.
- Connectors, worker assignment, retry delays, previews, metrics and the web interface: network, registration and presentation.
- Weak memory orders and the internals of the async runtime: sequential consistency and the notify contract are assumed.
