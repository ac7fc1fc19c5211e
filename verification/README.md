# Hot-block service: a verified model

This project models the hot-block service for EVM chains and proves what it is for. The service
buffers the head of a chain, follows reorganisations, tracks finality, and serves resumable
responses over what it holds. A block is its height, its hash and its parent link; hashes are
opaque strings with equality. The upstream, the clock and the completion of asynchronous tasks are
parameters that may answer anything: each is a finite script of answers, so a theorem about a method
over a script holds for every behaviour of the outside world and every prefix of a run.

How the files fit together:

- `Types`, `Sequences`, `Window` - heights, refs, blocks; the buffered window as a value, and what a
  push, a finality report and a compaction mean for it, without any search order.
- `Chain` - the in-memory buffer as a class: bisection, an undo log, in-place reorganisation.
- `RefModel`, `Refinement` - the repository's own executable model, and the proof that the service's
  step (early rejection, undo log, bisection) accepts, rejects and leaves exactly what the model's
  step (linear scans, whole-state checkpoint) does.
- `Service`, `Ingestion`, `Finality` - seeding, the atomic batch step, sessions, the run loop with
  its restart ladder; what is never undone over a whole run.
- `Acquisition`, `Enrichment`, `Inflight`, `Emission`, `Strides`, `Pipeline`, `Ingest` - acquisition in
  its three modes: what the queues of answers and completions determine, where every emitted block
  and report comes from, and why a stream ends where it does.
- `Forks`, `Source`, `HeadStream`, `Recovery` - the continuity gate, the choice of a resume point, and
  the run of forks down to the newest block the upstream agrees with.
- `Prober`, `FinalizedHead` - the finality prober with its queue, and the epoch-guarded view of the
  upstream's finalized head.
- `Queries`, `BelowQuery` - window queries with their conflict lists, the client's recovery loop, and
  backfilled responses below the window.
- `RateMeter`, `RateLimiter`, `Batching` - the ring-buffer rate meter against its full event log, the
  reservation loop, recursive batch splitting.
- `Rlp`, `DebugTree`, `CallStack`, `Replays` - encoders against a decoder written from Appendix B of
  the Ethereum Yellow Paper; the gate that makes flattening a call tree lossless; the execution-stack
  check; one replay per transaction.

Where a claim is not true of the code, the exact condition is proved instead:

- Buffer and model always agree on accepting a block, but not on the kind of fault: for a rejected
  block they name different ones exactly when its ref is not held, it ascends, its parent's height
  lies below finality, and nothing is buffered at that height (`Refinement.PushAgrees`); there are
  such blocks (`Refinement.FaultsDiffer`).
- The buffer's resume point and the model's are the same for every buffer exactly when each
  signalled ref is the last one at or below its own height, which strictly ascending lists are
  (`Forks.ForkBaseIsForkTargetIffSettled`, `Forks.UnsettledSignalsDiverge`).
- A failing pipeline has emitted everything below the failed height, except that a failed poll does
  not wait for the bodies in flight (`Pipeline.PipelineEmits`, `Pipeline.FailedPollDropsBody`).
- What a fetch answers is ignored after its epoch exactly while the wrapping 64-bit counter still
  tells the epochs apart (`FinalizedHead.StaleAnswerIsDiscarded`), and a run can wrap it
  (`FinalizedHead.WrappedStateIsReachable`).

Where documentation and code differ, the code is followed: the repository's README.md (lines 130-133)
says an inconsistent block is retried by re-fetching all of it, up to 10 times; the code also retries
only the missing legs, up to 3 times in a row, and gives lagging data a wall-clock budget of its own
(crates/evm-source/src/fetch.rs:570-741).

## Model

| member | source | states |
|---|---|---|
| `ChainBuffer.Bisect` | crates/data-service-core/src/chain.rs:14-26 | the bisection finds the index a linear search for the first block at or above a height finds, on every chain |
| `ChainBuffer.Chain.BeginBatch` | crates/data-service-core/src/chain.rs:96-106 | opens an undo log whose checkpoint is the buffer as it stands |
| `ChainBuffer.Chain.CommitBatch` | crates/data-service-core/src/chain.rs:110-112 | keeps the buffer and drops the log |
| `ChainBuffer.Chain.RollbackBatch` | crates/data-service-core/src/chain.rs:115-120 | restores blocks and finality index to the checkpoint exactly, after any pushes, reorganisations and finalizations |
| `ChainBuffer.Chain.RecordRemoval` | crates/data-service-core/src/chain.rs:123-133 | saves only originals a truncation removes; the checkpoint never changes |
| `ChainBuffer.PushBySearch` | crates/data-service-core/src/chain.rs:142-217 | the verdict read off two bisections is the one defined by the buffer as a whole, and an insertion keeps exactly the blocks up to the named parent |
| `ChainBuffer.Chain.Push` | crates/data-service-core/src/chain.rs:142-217 | answers the search-free verdict, leaves the buffer it defines, and keeps the undo checkpoint whatever it removes |
| `ChainBuffer.Chain.Finalize` | crates/data-service-core/src/chain.rs:224-262 | advances to a buffered ref, finalizes everything under a report above the head, ignores stale reports, rejects contradictions without effect |
| `ChainBuffer.Chain.Compact` | crates/data-service-core/src/chain.rs:267-297 | becomes the compacted buffer, which is determined by what compaction keeps, and reports the excess and the height finality was forced past |
| `ChainBuffer.Chain.Query` | crates/data-service-core/src/chain.rs:308-384 | agrees with the model's verdict, without overflow above a head at the highest height; every conflict list is the one the height calls for, honest and below the requested height, but for the ref of a root block, which is listed whatever its height |
| `ChainBuffer.Chain.GetForkBase` | crates/data-service-core/src/chain.rs:396-424 | walks to the newest block at or above finality at which the popped list is empty or ends in that block |
| `Refinement.PushAgrees` | crates/harness/src/model.rs:312-359 | buffer and model accept the same pushes with the same effect, and name the same fault for every rejected block outside the gap below finality |
| `Refinement.PushInserts` | crates/data-service-core/src/chain.rs:142-217 | a push inserts exactly a new ref that ascends from a held block at or above the finalized head, in place of everything above that block |
| `Refinement.FaultsDiffer` | crates/data-service-core/src/chain.rs:186-197 | a buffer and a block with such a gap, on which the buffer reports a write below finality and the model a gap |
| `Refinement.FinalizeAgrees` | crates/harness/src/model.rs:362-386 | buffer and model take and reject the same reports, for the same reason and to the same finality index |
| `Refinement.PushesAgree` | crates/harness/src/model.rs:231-237 | whole runs of pushes agree in verdict and result |
| `Refinement.EarlyRejectionAgrees` | crates/data-service-core/src/service.rs:817-829 | a report that contradicts the maximum before the pushes is one the model rejects too |
| `Refinement.LateContradictionWasEarly` | crates/harness/src/model.rs:280-296 | a contradiction the model finds after settling was already there before the pushes |
| `Refinement.SettleIsIdempotent` | crates/harness/src/model.rs:298-310 | settling an obligation twice is settling it once |
| `Refinement.ServiceRefinesModel` | crates/data-service-core/src/service.rs:805-926 | the service accepts a batch exactly when the model applies it, and then to the same buffer and running maximum |
| `Refinement.BatchShape` | crates/data-service-core/src/service.rs:836-853 | an accepted batch is a redelivered part without effect and then a new part spliced in whole; it is accepted exactly when its first new block is |
| `Model.Scan` | crates/harness/src/model.rs:343-347 | the model's linear search finds the first block at a height or none |
| `Model.RefModel.PushBlock` | crates/harness/src/model.rs:312-359 | the model's push, in its own order of checks |
| `Model.RefModel.Apply` | crates/harness/src/model.rs:195-254 | a batch is applied whole, or the checkpoint restored whole |
| `Model.RefModel.ForkSignal` | crates/harness/src/model.rs:412-424 | the newest block at or above finality that is signalled, or lies below every signalled ref |
| `Model.RefModel.Query` | crates/harness/src/model.rs:427-464 | the model's query verdict by linear scan |
| `Model.RefModel.IsKnownRef` | crates/harness/src/model.rs:466-470 | a known ref is a buffered block or the parent of one that is not a root |
| `Ingestion.ValidateIngestBatch` | crates/data-service-core/src/service.rs:78-142 | accepts exactly the non-empty, pairwise linked, ascending batches with usable hashes |
| `Ingestion.SettleObligation` | crates/data-service-core/src/service.rs:1202-1214 | discharges the session's report as the specification does, keeping the undo checkpoint |
| `Ingestion.ApplyBatchLocked` | crates/data-service-core/src/service.rs:805-926 | runs the body inside one undo batch to the specified result, or leaves a checkpoint that is the buffer it found |
| `Ingestion.StepChain` | crates/data-service-core/src/service.rs:730-801 | validate, begin, apply, commit or roll back, compact: exactly the model's step on buffer and maximum; an applied batch leaves its last block at the head if it brought anything new, every report taken so far finalized as far as the buffer reaches, and no more compacted away than the bound demands; on rejection the buffer is as before |
| `Ingestion.DataService.Init` | crates/data-service-core/src/service.rs:435-529 | seeds from the finalized block the source names; a divergent or refused re-seed leaves the buffer |
| `Ingestion.DataService.IngestBatch` | crates/data-service-core/src/service.rs:730-801 | one batch takes the service's buffer where the model's step goes, with the same promises of what it leaves |
| `Ingestion.DataService.IngestSession` | crates/data-service-core/src/service.rs:684-801 | a session over any stream ends as the specified session does, with its buffer, its maximum and the commits it made |
| `Ingestion.DataService.RunLoop` | crates/data-service-core/src/service.rs:538-681 | a whole run ends as the specified run does, through restarts, re-seeds and forks, and its committed states since the last seeding are those of the run's history |
| `Service.TurnKeepsBase` | crates/data-service-core/src/service.rs:612-652 | every stream is opened above a ref the service holds, at or above finality |
| `Service.SessionAppliesInTurn` | crates/data-service-core/src/service.rs:684-801 | a session applies its batches one after another up to the first item that ends it, and that item says how |
| `Service.StreamReopens` | crates/data-service-core/src/service.rs:590-680 | a stream that ends or fails after a first block reopens above the head with no report held, the stall count one more exactly when the head stands where the base did; before a first block it ends the run; a fork keeps the reports held |
| `Service.ReseedDecides` | crates/data-service-core/src/service.rs:555-580 | a due re-seed that contradicts a held block ends the run, a refused one goes on above the same head once a first block was taken in, any other starts over from the seed |
| `Service.SeedMeans` | crates/data-service-core/src/service.rs:435-529 | a re-seed is taken exactly when the source delivers, well shaped, the block it named as finalized, and no other block is held at its height |
| `Service.SixStallsReseed` | crates/data-service-core/src/service.rs:538-681 | six sessions in a row without progress are followed by a re-seed, and none comes before |
| `Service.TurnExtends` | crates/data-service-core/src/service.rs:538-681 | until a re-seed every turn, the last one included, extends what was finalized; a re-seed never puts another block at a height still held |
| `Service.RunSafety` | spec/07-invariants.md:69-97 | over a whole run, of any two committed states with no seeding between the later has no lower finality and replaces no finalized block; the last committed state is the one the run ends with |
| `Finality.FinalizedNeverReplaced` | spec/07-invariants.md:69-77 | two states of one epoch that hold blocks at a finalized height hold the same block |
| `Finality.BatchExtends` | crates/data-service-core/src/service.rs:805-926 | every applied batch, with its settling and compaction, extends the state before it |
| `Finality.CompactionExtends` | crates/data-service-core/src/chain.rs:267-297 | compaction removes only blocks below the finalized head, oldest first |
| `Finality.CompactionBound` | spec/07-invariants.md:27-35 | the window bound is reached exactly unless finality lags and may not be forced; compacting twice is compacting once |
| `Finality.CompactionKeeps` | crates/data-service-core/src/chain.rs:267-297 | a buffer that fits is untouched; else no more goes than the bound demands, and the finalized head stays unless it had to be forced, and then is the lowest block kept |
| `Finality.CompactionIsDetermined` | crates/data-service-core/src/chain.rs:267-297 | these promises leave only one result |
| `Finality.ReportAdvances` | crates/data-service-core/src/chain.rs:224-262 | a report is taken exactly when it is stale, above the head, or names a buffered block, and then the finalized height is the higher of the old one and what it asks for |
| `Finality.AppliedIff` | crates/data-service-core/src/service.rs:805-926 | exactly which well-shaped batches are applied: by their blocks, the report held, and their own |
| `Finality.AppliedCommits` | crates/data-service-core/src/service.rs:730-926 | what every applied batch leaves: head, finalized height, maximum, and how much of it compaction keeps |
| `Finality.EpochSafety` | spec/07-invariants.md:69-97 | so it is for any two of the committed states the service has recorded since its last seeding |
| `Forks.AscendingSignalsAgree` | crates/data-service-core/src/chain.rs:396-424 | for non-empty strictly ascending signals the buffer rebases where the model says |
| `Forks.UnsettledSignalsDiverge` | crates/harness/src/model.rs:412-424 | every other kind of signal has a buffer, holding one block that the signal names, on which the two differ |
| `Forks.ForkBaseIsForkTargetIffSettled` | crates/data-service-core/src/chain.rs:396-424 | buffer and model agree on every buffer exactly for settled signals |
| `Source.LinkedPrefix` | crates/evm-source/src/source.rs:198-207 | the longest run that follows on, ending at the first break |
| `Source.GateBatch` | crates/evm-source/src/source.rs:190-228 | one batch passes whole under its own report, or its linked front does under the same report, followed by a one-ref fork signal naming the break's parent |
| `Source.EnsureContinuity` | crates/evm-source/src/source.rs:182-236 | what comes out is a linked prefix of what came in, cut exactly at the first break, faulted where the upstream was, or whole; it comes in the batches it was acquired in, each with its own report |
| `HeadStream.GetStream` | crates/evm-source/src/source.rs:452-473 | the stream is what the upstream's answers determine, gated: consecutive, linked heights from where it was opened, every block and every report given by the upstream; a finished, uncut one delivers all of them, a finalized one none above the heads it read |
| `HeadStream.CutStreamIsAttempt` | crates/data-service-core/src/service.rs:612-652 | a stream opened above a base and cut before its first block is a fork attempt in the sense of recovery |
| `HeadStream.CutStreamLowersBase` | crates/data-service-core/src/service.rs:612-652 | so it takes the run exactly one buffered block down, or at the finalized head ends it |
| `Recovery.SignalDescends` | crates/data-service-core/src/service.rs:612-652 | a one-ref signal from just above a base always rebases strictly below it, or at the finalized head ends the run |
| `Recovery.SignalDescendsByOne` | crates/data-service-core/src/chain.rs:396-424 | below the top of the height range it rebases to the very next block down |
| `Recovery.ForkRunIsBounded` | crates/data-service-core/src/service.rs:612-652 | with no batch committed between, at most one fork happens per block from the base down to finality, even against an upstream that changes at every attempt |
| `Recovery.ForkRunDescends` | crates/data-service-core/src/service.rs:538-681 | n forks in a row leave the base n blocks down and nothing else changed, or end the run terminal one step past finality |
| `Recovery.ForkRunDisagrees` | crates/evm-source/src/source.rs:190-228 | the upstream disagreed at every block such a run left behind |
| `Recovery.RecoveryStopsAtCommonBlock` | crates/data-service-core/src/service.rs:612-652 | recovery never rolls back past the newest block the upstream agrees with, and never ends terminal while one stands |
| `Strides.SplitRange` | crates/evm-source/src/ingest.rs:372-384 | the ranges tile the heights asked for, each exactly a stride long but the last |
| `Strides.Backfill` | crates/evm-source/src/ingest.rs:364-448 | the loop ends where the completions, in the order they come, determine |
| `Strides.BackfillEmits` | crates/evm-source/src/ingest.rs:364-448 | in whatever order strides complete, heights are emitted in order without a gap, from what the completions read brought, every batch under the finalized head the backfill was begun under; a failed backfill names the range and the completion it was held for, and everything below what that one did not bring is out; one that waits has used up all completions |
| `Inflight.FrontIsAwaited` | crates/evm-source/src/ingest.rs:405-412 | the front task is waited for: the first completion for it is the last one read |
| `Inflight.OthersAreNoted` | crates/evm-source/src/ingest.rs:392-412 | of the completions read meanwhile every other task has the first one for it |
| `Emission.BroughtKeepsAnswer` | crates/evm-source/src/ingest.rs:226-314 | what the first answer holds of a range, in order and linked, is emitted whatever comes after |
| `Pipeline.Speculate` | crates/evm-source/src/ingest.rs:449-670 | the loop ends where the polls and completions determine |
| `Pipeline.PipelineEmits` | crates/evm-source/src/ingest.rs:449-670 | the depth-3 pipeline emits in order, without reports: what is emitted and the at most three bodies in flight are all that was polled; it polls no further than the range, no further once strides are due, not after a failed poll, and not after an eleventh contradiction of a height; when it leaves for another mode nothing is in flight; when it fails of a body or of a contradictory height everything below that height is out, and when it fails of a poll everything below the bodies then in flight |
| `Pipeline.PollsWithoutWaiting` | crates/evm-source/src/ingest.rs:498-660 | while there is room in the pipeline it polls on without waiting, and in a pause an enriched front body goes out at once |
| `Pipeline.FailedPollDropsBody` | crates/evm-source/src/ingest.rs:528 | a failed poll ends the stream with a body already polled not emitted |
| `Pipeline.TaskDelivers` | crates/evm-source/src/ingest.rs:463-500 | a finished pipeline task is the next block, valid, enriched as requested, under a header the upstream gave |
| `Ingest.PollFinalized` | crates/evm-source/src/ingest.rs:671-743 | a turn ends where the heads and fetches determine |
| `Ingest.PollsEmits` | crates/evm-source/src/ingest.rs:671-743 | finalized polling emits the next heights, under its own last block as report, never past the end or past a head the upstream answered; a failure is an unreadable head or a range that its fetch did not fill, everything below what it did not bring out |
| `Ingest.PollsReads` | crates/evm-source/src/ingest.rs:675-700 | a turn reads a head exactly when it has none left to read under, and fetches exactly when a head at or above the next height is in hand |
| `Ingest.IngestRange` | crates/evm-source/src/ingest.rs:351-745 | the loop ends where the queues of answers and completions determine, across all mode switches |
| `Ingest.IngestEmits` | crates/evm-source/src/ingest.rs:351-745 | for all answers and all orders of completion the batches carry from, from+1, from+2, ..., only blocks that were read from the upstream, each batch a stride's under the finalized head the service was told of, a pipeline block without a report, or, under finalized commitment alone, a range under its own last block as report; a finalized stream stays under the heads it read; a finished stream has emitted exactly from..=to, a failed one everything below a height that what it read explains, a waiting one has used up a queue it reads from |
| `Ingest.TurnModes` | crates/evm-source/src/ingest.rs:351-400 | strides run exactly while the finalized head the turn read lies more than a stride ahead, and report it; otherwise the commitment decides which queues are read and what is reported |
| `Ingest.StreamIsItsTurns` | crates/evm-source/src/ingest.rs:351-745 | a stream is its turns, each where the one before left off |
| `Acquisition.AcquireOne` | crates/evm-source/src/ingest.rs:226-314 | one block is right or given up after at most ten re-acquisitions, as the answers determine, and the answers left are those it did not fetch |
| `Acquisition.AcquireRangeStride` | crates/evm-source/src/ingest.rs:226-314 | always a coherent prefix of what was asked, linked up to ASCII case, of blocks the upstream returned, short exactly on failure, taking at most 1 + 10 * n answers off the queue |
| `Acquisition.StrideAcquires` | crates/evm-source/src/ingest.rs:184-314 | so it is of the range the answers determine, for all answers |
| `Acquisition.FirstAnswerIsUsed` | crates/evm-source/src/ingest.rs:226-275 | the coherent front of the first answer begins the range, and an answer to every number is returned whole after one fetch |
| `Acquisition.RefetchedUntilCoherent` | crates/evm-source/src/ingest.rs:250-300 | a block that cannot stand is fetched until an answer brings one that can, within the budget |
| `Enrichment.ResidualRoundCompletes` | crates/evm-source/src/fetch.rs:148-174 | fetching only the missing legs of a lagging block leaves it either invalid or with every leg in hand |
| `Enrichment.FetchAndApply` | crates/evm-source/src/fetch.rs:1027-1099 | a round only adds legs, and an unmarked result has every leg it was asked for |
| `Enrichment.RoundVerdict` | crates/evm-source/src/fetch.rs:1027-1099 | an unmarked block is left unmarked exactly when every wanted leg landed, incoherent exactly when one contradicts, and its header contested exactly when the receipts were of another block and nothing contradicts |
| `Enrichment.LegsAreAnswered` | crates/evm-source/src/fetch.rs:1232-1345 | a leg is in hand after a round exactly when it was before, or was wanted and answered as landed |
| `Enrichment.CompleteMeans` | crates/evm-source/src/fetch.rs:148-174 | what a complete block holds, by the API that serves each leg |
| `Enrichment.MissingLegsAreMissing` | crates/evm-source/src/fetch.rs:148-174 | a residual request asks for nothing in hand, and for something exactly while a leg is missing |
| `Enrichment.EnrichBlockWithRetry` | crates/evm-source/src/fetch.rs:570-741 | a returned block is the requested one, valid, header honest, all legs in hand (genesis exempt from traces); a first round in which every leg lands is returned at once; the retries made, each of the kind its block was due, include at most ten of incoherent blocks and three legs-only ones in a row; it gives up only for want of transport or answers, past the deadline on lagging data, or with ten re-acquisitions of incoherent blocks made |
| `Enrichment.ClimbIsLadder` | crates/evm-source/src/fetch.rs:570-741 | the answers alone determine what enriching comes to |
| `Enrichment.KindsFollowBlocks` | crates/evm-source/src/fetch.rs:640-700 | a retry is of an unfinished block, and of lagging data only before the deadline; it counts against the incoherence budget exactly when that block was incoherent; it fetches legs alone exactly of lagging data under an uncontested header unless the last three did, keeping header and legs; any other takes the header it was answered |
| `Enrichment.LadderBudget` | crates/evm-source/src/fetch.rs:118-131 | both budgets hold of every prefix of every climb, however not-ready answers are interleaved |
| `Prober.EligibleIsPrefix` | crates/evm-source/src/fetch.rs:463-475 | an ascending probe list is answered for a prefix, in order, up to the finalized height |
| `Prober.Walk` | crates/evm-source/src/source.rs:320-352 | the walk settles the highest confirmed probe and keeps the uncontradicted ones above it |
| `Prober.FinalityProber.Absorb` | crates/evm-source/src/source.rs:44-73 | a message takes queue, confirmed ref and books where the step function says, and keeps the queue ascending, bounded and above the confirmed ref |
| `Prober.FinalityProber.ProbeRound` | crates/evm-source/src/source.rs:303-368 | a round sends the highest probe the upstream confirms, leaves the open ones, and raises what was confirmed; a failed one changes nothing |
| `Prober.RoundSettlesHighest` | crates/evm-source/src/source.rs:303-368 | a round settles a ref exactly when the upstream confirms one it asked about, then the highest, and leaves of those above it all that the upstream does not replace |
| `Prober.RunProber` | crates/evm-source/src/source.rs:274-370 | the loop ends in the state, and sends the refs, that the events determine |
| `Prober.ProberIsHonest` | crates/evm-source/src/source.rs:44-73 | over every run of events the refs sent ascend, were candidates, and are what some reply gave at a height it reported finalized; every candidate is queued, at or below a settled ref, replaced by another block some reply gave, or was the last of a full queue when a newer one came |
| `Prober.HeldIsHighest` | crates/evm-source/src/source.rs:372-434 | the report attached to a batch without its own is the highest ref settled so far |
| `Prober.SettledMeans` | crates/evm-source/src/source.rs:385-396 | what settles a ref: the prober's word, or a batch with a report of its own, its last block |
| `Prober.OutputsAreStamped` | crates/evm-source/src/source.rs:372-414 | position by position: a signal or error passes as it is; a batch keeps its own report, or without one takes the highest ref settled by then, or none if there is none |
| `Prober.OfferedAreUnsettled` | crates/evm-source/src/source.rs:397-404 | the candidates are exactly the blocks of batches that came without a report |
| `Prober.OutputsDeliverInput` | crates/evm-source/src/source.rs:385-414 | probing changes no block that passes and offers only delivered blocks |
| `Prober.OfferedAscend` | crates/evm-source/src/source.rs:400-404 | candidates of a consecutive stream ascend, as the prober needs |
| `Prober.FinalizeStream` | crates/evm-source/src/source.rs:372-434 | the stream loop emits one item for each that arrives, up to the first error, each batch with its blocks and its own report or else the highest ref settled by then |
| `FinalizedHead.Cache.Resync` | crates/evm-source/src/fetch.rs:280-286 | a re-seed replaces the view and opens an epoch; a failed read changes nothing |
| `FinalizedHead.Cache.BeginRefresh` | crates/evm-source/src/fetch.rs:315-331 | a refresh is claimed exactly when none is and the view has aged out |
| `FinalizedHead.Cache.Store` | crates/evm-source/src/fetch.rs:366-378 | an answer of another epoch is dropped, a lower one only renews the view |
| `FinalizedHead.SoundAlways` | crates/evm-source/src/fetch.rs:315-344 | over every interleaving at most one background refresh is out, and the counter counts epochs up to its width |
| `FinalizedHead.StaleAnswerIsDiscarded` | crates/evm-source/src/fetch.rs:361-370 | whatever a fetch begun under an older epoch answers is ignored exactly when the counter differs from the one it began with, which it does as long as fewer than 2^64 epochs have opened since |
| `FinalizedHead.WrappedStateIsReachable` | crates/evm-source/src/fetch.rs:283-284 | a run in which the counter has wrapped around to a fetch still under way |
| `FinalizedHead.ViewNeverFallsBetweenReseeds` | crates/evm-source/src/fetch.rs:300-312 | between two re-seeds the view never falls, whatever fetches run |
| `FinalizedHead.ViewShowsEpochsHighest` | crates/evm-source/src/fetch.rs:280-378 | the view is exactly the highest head the present epoch brought |
| `Queries.WindowConflictIsHonest` | crates/data-service-core/src/chain.rs:326-352 | the in-window conflict list is non-empty, ascending, at most 101 long, on the chain held, and never names the refused base |
| `Queries.HeadConflictIsHonest` | crates/data-service-core/src/chain.rs:358-372 | so is the list drawn from the head |
| `Queries.WindowConflictRefs` | crates/data-service-core/src/chain.rs:330-352 | which refs those are: the parents of the refused block and of up to a hundred before it, roots skipped, or the root itself |
| `Queries.HeadConflictRefs` | crates/data-service-core/src/chain.rs:362-370 | and these: the last hundred blocks, or all |
| `Queries.DataIsTheSuffix` | crates/harness/src/model.rs:427-464 | data is exactly the buffered suffix at or above the requested height, one chain to the head, on the client's base |
| `Queries.VerdictMeans` | crates/data-service-core/src/chain.rs:308-384 | exactly when a query is a backfill, a conflict, or up to date: right above the head by the head's hash, in the window by the parent of the lowest block at or above the height |
| `Queries.UncheckedQueryNeverConflicts` | crates/data-service-core/src/chain.rs:308-384 | without a parent hash there is never a conflict |
| `Queries.ConflictRoundProgresses` | spec/05-queries.md:75-100 | a client that rolls back to the newest listed ref it holds loses at least its last block |
| `Queries.RecoveryLoopEnds` | spec/05-queries.md:75-100 | so its recovery loop ends within as many rounds as it holds blocks |
| `BelowQuery.RequestReachesTheWindow` | crates/data-service-core/src/service.rs:1051-1064 | the backfill asks for exactly the heights from the client's base up to the window's parent |
| `BelowQuery.ProduceHead` | crates/data-service-core/src/service.rs:1113-1182 | the head forwards everything up to the first error or broken batch, is one chain from the client's parent hash, and is without a fault exactly when the source delivered a non-empty chain that splices onto the snapshot |
| `BelowQuery.Query` | crates/data-service-core/src/service.rs:1046-1197 | which first items are answered with which error, and what a response promises |
| `BelowQuery.BlockStream` | crates/data-service-core/src/http.rs:417-433 | the body is the head's records and then the tail's, or the head's up to its fault |
| `BelowQuery.ServedIsOneChain` | crates/data-service-core/src/service.rs:1236-1255 | against any source every prefix served is one chain from the client's parent hash, and a response without a fault reaches the snapshot's head |
| `BelowQuery.ConsecutiveIsOneChain` | crates/evm-source/src/source.rs:463-473 | what the adapter's own stream delivers always passes the continuity check |
| `Rate.RingCounts` | crates/rpc-client/src/rate.rs:51-68 | the ring still counts the whole log's window after an increment |
| `Rate.RingAdvances` | crates/rpc-client/src/rate.rs:51-66 | clearing the slots passed over keeps the ring in step with the log |
| `Rate.RateMeter.Inc` | crates/rpc-client/src/rate.rs:51-68 | adds the event to the log the ring stands for |
| `Rate.RateMeter.GetRate` | crates/rpc-client/src/rate.rs:70-83 | the rate is the contribution of every logged item of the last window_size + 1 slots |
| `Rate.FitsScaled` | crates/rpc-client/src/rate.rs:37-44 | comparing rates is comparing item counts with what the limit allows the window |
| `RateLimit.DefaultsAreAccepted` | crates/rpc-client/src/client.rs:134-186 | the default batch size is never why a configuration is rejected |
| `RateLimit.AcceptedBatchFits` | crates/rpc-client/src/client.rs:134-186 | whatever batch size an accepted configuration ends up with, an empty window has room for it |
| `RateLimit.IntervalBound` | crates/rpc-client/src/client.rs:466-483 | with a clock that never goes back, every closed interval one window long admits at most what the limit allows a window |
| `RateLimit.RateState.NeverOverLimit` | crates/rpc-client/src/client.rs:466-483 | the bound holds of every state the limiter can reach |
| `RateLimit.RateState.TryReserve` | crates/rpc-client/src/client.rs:466-483 | a reservation is made exactly when the window has room for it |
| `RateLimit.RateState.WaitForRate` | crates/rpc-client/src/client.rs:466-483 | without competition, a reservation an empty window can hold is admitted after at most window_size + 1 sleeps |
| `Batching.SendBatch` | crates/rpc-client/src/transport.rs:200-227 | succeeds exactly when the response ids are a permutation of the request ids, and answers in request order |
| `Batching.ExecuteBatch` | crates/rpc-client/src/client.rs:398-438 | succeeds exactly on such an array; then result i is that of the response to request i, an error exactly when that response is one |
| `Batching.SingleIsItsLastSend` | crates/rpc-client/src/client.rs:231-270 | a call's own ladder stops at its first send that is not a retryable failure, or with its retries spent, and its result is an error exactly when that send's was |
| `Batching.WholeDecides` | crates/rpc-client/src/client.rs:498-545 | a batch is sent again only after a retryable failure while retries last; its last send decides whether it succeeds, splits, which only failures that a smaller batch can cure do, or fails with that send's error |
| `Batching.AnsweredAtOnce` | crates/rpc-client/src/client.rs:488-510 | calls whose first send is answered by a permutation of its ids are done with it |
| `Batching.ExplainedIsOwn` | crates/rpc-client/src/transport.rs:149-166 | no result names another call than its own, and a result without a response is an error |
| `Batching.ReduceBatch` | crates/rpc-client/src/client.rs:488-560 | for every failure pattern an Ok has one result per call in call order, each the response to its call's own request or the end of its call's own ladder, within (2n-1) * (retries+1) sends; an error is that of one of its sends that no smaller batch could cure |
| `Batching.SplitCalls` | crates/rpc-client/src/client.rs:588-597 | chunks in order, none empty, none over size, together all the calls |
| `Batching.BatchCallReduceOnRetry` | crates/rpc-client/src/client.rs:305-324 | the same for the whole call list, chunk by chunk |
| `Rlp.MinimalValue` | crates/evm-source/src/verification.rs:140-148 | the minimal big-endian form is read back, without a leading zero |
| `Rlp.EncodeField` | crates/evm-source/src/verification.rs:122-128 | a field is encoded as the item it stands for |
| `Rlp.RlpEncodeList` | crates/evm-source/src/verification.rs:97-120 | a field list is encoded as the list of its items |
| `Rlp.EncodeRlpItems` | crates/evm-source/src/verification.rs:844-850 | items already encoded are framed as the list of them |
| `Rlp.DecodeEncode` | crates/evm-source/src/verification.rs:97-164 | decoding undoes encoding for every nested item with payloads under 2^64 bytes, whatever follows |
| `Rlp.EncodeDecode` | crates/evm-source/src/verification.rs:97-164 | a decoder of canonical forms reads nothing but encodings: what it takes off the front is the encoding of what it answers |
| `Rlp.StandardForms` | crates/evm-source/src/verification.rs:97-164 | the encodings are the forms the standard gives, byte for byte |
| `Rlp.EncodingIsPrefixFree` | crates/evm-source/src/verification.rs:130-164 | no encoding is a proper prefix of another's, and equal encodings have equal items |
| `Rlp.EqualListsHaveEqualFields` | crates/evm-source/src/verification.rs:97-120 | equal list encodings have equal field lists |
| `Rlp.UintRoundTrip` | crates/evm-source/src/verification.rs:140-148 | integers encode minimally and round-trip |
| `DebugTree.CheckFrameStructure` | crates/evm-source/src/verification.rs:1412-1509 | the walk with its pushed and popped path finds the first violation in preorder and restores the path |
| `DebugTree.GateIsExact` | crates/evm-source/src/verification.rs:1412-1509 | the gate passes exactly the empty trace and the trees whose every frame has what its kind needs |
| `DebugTree.IssueIsLocated` | crates/evm-source/src/verification.rs:1412-1509 | a violation names a frame of the tree, and that frame shows it in its fields |
| `DebugTree.IssueIsFirst` | crates/evm-source/src/verification.rs:1412-1509 | no frame before the one reported, in preorder, has a fault |
| `DebugTree.OwnFaultMeans` | crates/evm-source/src/verification.rs:1412-1509 | a frame has no fault of its own exactly when its fields hold what its type needs |
| `DebugTree.MapDebugFrame` | crates/evm-source/src/normalization.rs:814-938 | the loop emits the kept visits in order |
| `DebugTree.VisitsInPreorder` | crates/evm-source/src/normalization.rs:796-812 | trace addresses strictly increase |
| `DebugTree.RebuildTraverse` | crates/evm-source/src/normalization.rs:796-938 | the tree is read back from the kinds and subtrace counts of its traces |
| `DebugTree.GateMakesFlatteningLossless` | crates/evm-source/src/normalization.rs:814-938 | what passes the gate is flattened to one trace per frame, in preorder, every frame among them, the tree read back exactly |
| `DebugTree.FlatteningIsLosslessIff` | crates/evm-source/src/normalization.rs:814-938 | without the gate, traces are lost exactly when some frame is one normalization drops |
| `CallStack.CheckSubcalls` | crates/evm-source/src/verification.rs:1560-1610 | the walk finds the first fault in preorder and restores the path |
| `CallStack.CheckCallFrameTree` | crates/evm-source/src/verification.rs:1516-1558 | a STOP root passes; otherwise the root's own disagreement comes before any below |
| `CallStack.RootFaultMeans` | crates/evm-source/src/verification.rs:1516-1558 | the root agrees with its transaction exactly when the senders match and it creates where no target is named and else calls that target |
| `CallStack.NoFaultIffStackAgrees` | crates/evm-source/src/verification.rs:1560-1610 | on a well-shaped tree there is no fault exactly when every frame names as sender the account its parent runs as, its own caller for borrowed code and else its target, and every selfdestruct names a beneficiary |
| `CallStack.FaultIsLocated` | crates/evm-source/src/verification.rs:1560-1610 | a fault names by its path a frame that was not called so |
| `Replays.ReplaysOf` | crates/evm-source/src/fetch.rs:2047-2136 | accepted exactly when every replay is complete and there is one for each transaction and none besides |

## Left out

- `Ingest.IngestRange`: does not model the wrap of `last + 1` and of range ends at heights next to 2^64; heights there are unbounded sums.
- `Enrichment.EnrichBlockWithRetry`: whether the not-ready wall-clock budget is spent is an answer of the script, and the marks of a raw block are a value passed along, not a record shared by reference.
- `Batching.ExecuteBatch`: where the request counter stands is part of each exchange, so other calls may advance it in between; the hooks that judge a response are part of the answer.
- `Batching.BatchCallReduceOnRetry`: halves and chunks run one after another over one script of exchanges; which of several concurrent sends an answer meets is that script's order.
- `Ingestion.DataService.RunLoop`: the stop request is the end of the script; alarms, metrics, pauses between restarts and the 32-bit width of the stall counter are not modelled.
- `Model.RefModel.Apply`: the model's list of alarms is not modelled.
- `Rate.RateMeter.GetRate`: floating point is replaced by exact reals.
- `FinalizedHead.Cache.BeginCached`: the fetch itself and the mutex are not modelled; each locked section is one step.
- `CallStack.CheckCallFrameTree`, `DebugTree.CheckFrameStructure`: violations carry a fault and a path instead of an error text; the path buffer is returned instead of shared.
- Concurrency: tasks are modelled by the order in which they complete, channels by the order of their messages; scheduling, back-pressure and cancellation are left out.
- A candidate dropped at a full channel is one that does not occur among the prober's messages, so its theorems cover every pattern of drops.
- HTTP routing, headers, compression, response budgets, the waiting of a query above the head, WebSocket transport, command line, logging and Prometheus: input and output only.
- JSON parsing, payload bytes, per-transaction field lists, Keccak roots, signature recovery and Merkle proofs: outside the model.
- The harness's simulator, fault injectors, validators and benchmarks: test tooling, except the reference model itself.
