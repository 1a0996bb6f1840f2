# FleetOps verification model

FleetOps keeps append-only histories of assets, receipts, purchase orders and offline captures.
Its rules are spread over Python services, PL/pgSQL procedures, views and triggers, and a
TypeScript client, and several notions exist in more than one independent form. This project
models four connected parts for one organization and proves what they promise.

**Asset history.** Five history classes share one version counter per asset. `HistoryRows` to
`HistoryHealth` define the tables, views and checks on arbitrary rows and relate them to a local
chain condition. `AssetCommands` states what the operations do without consulting any view;
`AssetEffects` says what that means for a caller; `AssetRecord` proves that the procedures, with all
their checks, do exactly that; `AssetRuns`,
`EffectiveEvents`, `EffectiveHealth`, `HistoryAudit`, `AssetReaders` and `VersionAudit` prove the
properties of runs and readers; `Lifecycle` adds the state graph and interleaved sessions.

**Receipts.** `RecordPairs` covers correction pairs of procurement and receipt lines,
`Disagreements` the classification of received lines in its two forms. `ReceiptBook` and
`ReceiptSteps` define the tables and the operations, `ReceiptViews` the database's checks.
`ReceiptStable`, `ReceiptInvariant`, `ReceiptEvaluation`, `ReceiptSafety`, `ReceiptCapture` and
`ReceiptRuns` prove that every run keeps them all satisfied; `ReceiptEffects` says what a caller
gets, and `ReceiptDesk` holds the services.

**Offline capture.** `CaptureTypes`, `CaptureDevice` and `CaptureService` model both ends,
`CaptureProtocol`, `CaptureSafety` and `CaptureRuns` the protocol between them with any number of
synchronizers and an unreliable network, `CaptureLaws` what the server answers and its flags mean,
and `CaptureSync` the replay loop against the server, as a run of that protocol.

**Order lines.** `OrderLines` models supersession and the listing that checks it.

`Sorting` holds the shared facts about sequences. A table is a sequence or map, a view a function
or predicate on it, a stored procedure a method, and a transaction a step that commits whole or
leaves the state as it was. Identities are fresh values; in the receipt model they are positions in
their tables, and no order of identities is used. `dafny verify dfyconfig.toml` checks everything.

Two places where forms differ are stated as found. The SQL form of historical facts coalesces a
NULL owner with the initial one and the Python form does not; `AssetRuns.FactsFormsAgree` gives the
exact condition, which every asset that operations produce meets. Receiving sums only the lines in
the expected unit and re-evaluation sums all lines; `Disagreements.TotalsAgree` shows that this
never matters, since mixed units suppress the result in both.

## Model

| member | source | states |
|---|---|---|
| `HistoryRows.NormalizeIdempotent` | server/alembic/versions/0011_corrections.py:334-336 | trimming a stored reason again changes nothing, so the stored form is the one the views compare with |
| `HistoryChain.EffectiveIsBlockEnd` | server/alembic/versions/0011_corrections.py:358-363 | a row is effective exactly when it is not a REVERSAL and the next row, if any, is ordinary: one effective row per block, the last |
| `HistoryChain.LatestIsLast` | server/alembic/versions/0011_corrections.py:279-281 | the latest effective row of a class below a version is the last raw row of that class before it |
| `HistoryHealth.SoundIsWellFormed` | server/alembic/versions/0011_corrections.py:94-163 | a chained, coherent history makes every clause of the malformed-history view empty, source coherence of superseded generations included |
| `HistoryHealth.ChainCounts` | server/alembic/versions/0011_corrections.py:419-421 | such a history passes the count, distinct, minimum and maximum test |
| `AssetCommands.CreatedValid` | server/alembic/versions/0010_receiving.py:652-684 | a received unit starts with a valid one-row history and matching projections |
| `AssetCommands.ChangeKeepsValid` | server/alembic/versions/0007_asset_fact_history.py:254-300 | every ordinary change keeps the chain, coherence, typed facts and all five projections |
| `AssetCommands.FixKeepsValid` | server/alembic/versions/0011_corrections.py:261-308 | every correction pair keeps them too |
| `AssetRecord.AuthorityHolds` | server/alembic/versions/0011_corrections.py:406-423 | on every valid asset the authority check passes: projections, anomaly views, witnesses and counts |
| `AssetRecord.ChangeAdmissionAgrees` | server/alembic/versions/0006_assets.py:298-333 | the procedure with all its reads of raw history and its guards decides exactly as the view-free specification |
| `AssetRecord.HeadIsLastBlock` | server/alembic/versions/0011_corrections.py:272-276 | the effective row of a root carries the global version exactly when the root's block is the last one |
| `AssetRecord.FixAdmissionAgrees` | server/alembic/versions/0011_corrections.py:261-294 | the correction procedure, with its own head and prior lookups, decides exactly as the specification |
| `AssetEffects.ChangeTakesEffect` | server/alembic/versions/0007_asset_fact_history.py:292-300 | a committed change puts the requested target in force and into the projection of its class, and changes no other class |
| `AssetEffects.ChangeLeavesRow` | server/alembic/versions/0006_assets.py:324-333 | the appended row: from the fact in force to the target, with the request's reason, actor, time and evidence |
| `AssetEffects.ChangeAccepted` | server/alembic/versions/0006_assets.py:303-321 | a change is accepted exactly at the expected version, from the claimed state, to a known target of its class, with its evidence, under a new identity |
| `AssetEffects.FixTakesEffect` | server/alembic/versions/0011_corrections.py:297-307 | a committed correction puts the requested target in force and into the projection of its class, and changes no other class |
| `AssetEffects.FixLeavesPair` | server/alembic/versions/0011_corrections.py:291-304 | the two appended rows field by field: the cancelled assertion, then its replacement |
| `AssetEffects.FixAccepted` | server/alembic/versions/0011_corrections.py:264-290 | a correction is accepted exactly for the ordinary root of the last block, at the expected version, with target, metadata, evidence and new identities |
| `AssetRecord.AssetTables.Record` | server/alembic/versions/0008_assignment_configuration.py:286-350 | the six ordinary operations on the tables: outcome, appended row, projection and version; afterwards the target is the fact in force and the other classes are as they were |
| `AssetRecord.AssetTables.Correct` | server/alembic/versions/0011_corrections.py:261-308 | the five corrections on the tables: REVERSAL at N+1, CORRECTED at N+2, projection and version; afterwards the target is the fact in force and the other classes are as they were |
| `AssetRuns.RunSafe` | server/alembic/versions/0011_corrections.py:406-423 | in every run every state is valid and passes the authority check, so no legitimate operation is locked out; history is append-only |
| `AssetRuns.OneWriterWins` | server/alembic/versions/0006_assets.py:298-305 | after a commit no writer that expected the same version ever commits, whatever happens in between |
| `AssetRuns.Tiling` | server/alembic/versions/0011_corrections.py:261-308 | every version lies in exactly one block: an ordinary root followed by its 2·generation pair rows, across all five classes |
| `AssetRuns.CorrectableWhileLast` | server/alembic/versions/0011_corrections.py:272-276 | a root is refused as not being the global head if and only if another ordinary row follows it |
| `AssetRuns.FactsRemembered` | server/fleetops/capture/service.py:111-147 | `_facts` at a version the asset held returns what it showed then, after any further run |
| `AssetRuns.FactsAtReversal` | server/fleetops/capture/service.py:133-138 | at a REVERSAL version, which is never exposed, it returns the facts just before |
| `AssetRuns.FactsFormsAgree` | server/alembic/versions/0014_capture.py:22-55 | the Python and SQL forms agree if and only if no NULL owner shadows the initial one; always on assets that operations produce |
| `AssetRuns.AssigneeRemembered` | server/fleetops/capture/service.py:139-147 | the assignee reported at a held version is the target of the assignment then in force, and the other facts are those in force |
| `EffectiveEvents.EffectiveRows` | server/fleetops/domain/corrections.py:170-204 | on any rows `effective_events` returns if and only if they are replayable, and then exactly the rows of the effective view in version order |
| `EffectiveHealth.AcceptedIsReplayable` | server/alembic/versions/0011_corrections.py:94-163 | whatever the malformed-history view accepts, `effective_events` can read: its counting clauses pin the generations |
| `AssetReaders.HistoryReadable` | server/fleetops/domain/corrections.py:176-202 | on every asset that operations produce the reader never raises |
| `HistoryAudit.AuditRows` | server/fleetops/domain/corrections.py:207-224 | each REVERSAL's cell names the row it cancels, and the other cells are empty, on any rows |
| `HistoryAudit.CancellationInjective` | server/fleetops/domain/corrections.py:215-223 | in a replayable history distinct REVERSAL rows cancel distinct rows |
| `HistoryAudit.UncancelledIsEffective` | server/fleetops/domain/corrections.py:207-224 | the rows neither REVERSAL nor cancelled are exactly the effective rows |
| `HistoryAudit.Intervals` | server/fleetops/domain/assignments.py:86-99 | one interval per establishing event, ended by the next event whatever it is |
| `HistoryAudit.EstablishingExact` | server/fleetops/domain/assignments.py:87-88 | the establishing events are exactly those that name an assignee, each once and in order |
| `AssetReaders.AssignmentHistory` | server/fleetops/domain/assignments.py:55-100 | the intervals of all effective events, in order; at most the last is open, if and only if the asset is assigned, and the projection names its event |
| `VersionAudit.MissingRanges` | server/fleetops/domain/asset_facts.py:130-148 | the lag query yields the maximal missing runs in 1..version, in order, covering exactly the missing versions |
| `VersionAudit.CountsDecide` | server/alembic/versions/0011_corrections.py:419-421 | the counting test accepts if and only if no version is missing, duplicated or out of range (pigeonhole) |
| `Lifecycle.ClassifyIssues` | server/fleetops/domain/corrections.py:227-275 | reports an issue if and only if a corrected transition is off the graph or lacks disposal evidence |
| `Lifecycle.CreationSafe` | server/alembic/versions/0010_receiving.py:652-663 | a newly received asset with no session under way satisfies the lifecycle invariant |
| `Lifecycle.StepSafe` | server/fleetops/domain/assets.py:172-232 | every step of every session — static check, lock, read under the lock, commit, abort, other writers — keeps the recorded lifecycle legal |
| `Lifecycle.SessionsSafe` | server/fleetops/domain/corrections.py:99-167 | in every interleaving the effective transitions form a legal path and no lifecycle issue exists |
| `Lifecycle.EffectivePathLegal` | server/fleetops/domain/lifecycle.py:24-46 | the effective path starts at RECEIVED and every step is an edge of the graph or a return from hold |
| `Lifecycle.HoldExit` | server/fleetops/domain/lifecycle.py:40-46 | a hold is left only to its effective entry state or OUT_OF_SERVICE |
| `Lifecycle.HoldsDoNotNest` | server/fleetops/domain/lifecycle.py:24-33 | a hold is never entered from a hold |
| `Lifecycle.RetiredIsLast` | server/fleetops/domain/lifecycle.py:24-33 | nothing follows a retirement in the effective path |
| `Lifecycle.EntryLaw` | server/fleetops/domain/lifecycle.py:24-46 | a legal path enters each state only through the edges into it, or back from a hold on it |
| `Lifecycle.EdgesOpen` | server/fleetops/domain/lifecycle.py:40-46 | an edge is valid if and only if the graph read backwards has it, or it returns from a hold |
| `Lifecycle.ConfiguredFirst` | server/fleetops/domain/lifecycle.py:24-33 | nothing is ready, deployed or on hold from there that was not configured before |
| `Lifecycle.DeployedFromReady` | server/fleetops/domain/lifecycle.py:28-30 | DEPLOYED is entered only from READY or from a hold entered from it |
| `Lifecycle.LegalTransitionCommits` | server/fleetops/domain/assets.py:172-232 | a legal transition of an idle session on an unlocked asset commits in at most four steps |
| `Lifecycle.LegalFixCommits` | server/fleetops/domain/corrections.py:99-167 | so does a legal correction of a transition |
| `Lifecycle.NoLifecycleIssue` | server/fleetops/domain/corrections.py:257-275 | the lifecycle check never blocks the correction of a reachable asset |
| `Lifecycle.IssuesAreIllegal` | server/fleetops/domain/corrections.py:227-275 | on valid histories the check finds an issue if and only if a corrected transition is off the graph |
| `RecordPairs.HeadIsMax` | server/fleetops/domain/record_corrections.py:51-61 | the head carries the greatest generation of the root's CORRECTED rows |
| `RecordPairs.HeadAfterPair` | server/fleetops/domain/record_corrections.py:64-94 | a pair takes over its own root, one generation on, and no other |
| `RecordPairs.PairedIsHealthy` | server/alembic/correction_records_0011.py:43-76 | the anomaly view reports no root of a table written by pairs: repetition, partners and generation counts |
| `Disagreements.Classify` | server/fleetops/domain/record_corrections.py:144-219 | fails if and only if a named comparator is missing; otherwise lists the disagreements in order |
| `Disagreements.FormsAgree` | server/alembic/correction_evaluation_0011.py:40-67 | a key is in the service's list if and only if the disagreement view lists it |
| `Disagreements.FoundDistinct` | server/fleetops/domain/record_corrections.py:130-141 | no disagreement is found twice |
| `Disagreements.TotalsAgree` | server/fleetops/domain/receiving.py:334-347 | the sum filtered by unit and the unfiltered sum agree wherever either is used |
| `Disagreements.TotalsExclusive` | server/fleetops/domain/receiving.py:348-356 | SHORT and OVER exclude each other, and any line in another unit excludes both |
| `Disagreements.TotalsMean` | server/fleetops/domain/record_corrections.py:200-218 | SHORT is found if and only if everything received against the order line is in its unit and sums up to less than expected; OVER likewise with more |
| `Disagreements.TotalConcat` | server/fleetops/domain/receiving.py:336-341 | the sum is additive over concatenation of deliveries |
| `Disagreements.TotalSingle` | server/fleetops/domain/record_corrections.py:203-205 | a line counts with its quantity if it names the order line, and with nothing otherwise |
| `ReceiptStable.SeenStays` | server/alembic/correction_evaluation_0011.py:12-29 | a line seen through its pinned source reads the same forever |
| `ReceiptStable.LinesStay` | server/alembic/correction_health_0011.py:21-36 | the line population and generations of a past evaluation stay right |
| `ReceiptStable.ExpectationsStay` | server/alembic/correction_health_0011.py:38-58 | so do its expectations when later corrections introduce comparators |
| `ReceiptStable.SupportStays` | server/alembic/correction_health_0011.py:70-86 | so do its support flags |
| `ReceiptStable.CoverageStays` | server/alembic/correction_health_0011.py:88-98 | so does the exact coverage of its disagreements |
| `ReceiptStable.ConsequencesStay` | server/alembic/correction_health_0011.py:100-118 | so do prior events and resolutions when status events follow |
| `ReceiptStable.HeldStays` | server/alembic/correction_health_0011.py:12-118 | a past evaluation free of anomalies stays free under everything appended later |
| `ReceiptInvariant.PriorTells` | server/fleetops/domain/record_corrections.py:310-319 | the latest support flag is false if and only if some evaluation retired the observation |
| `ReceiptInvariant.FlowingIsHeld` | server/alembic/correction_records_0011.py:227-253 | the workflow view reports no observation whose events were appended by transitions |
| `ReceiptEvaluation.NeverRaises` | server/fleetops/domain/record_corrections.py:321-324 | neither "Duplicate supported observation" nor a missing comparator can occur |
| `ReceiptEvaluation.NewSupport` | server/fleetops/domain/record_corrections.py:309-333 | a link is supported exactly for a never-retired observation that is still true |
| `ReceiptEvaluation.NewCoverageHeld` | server/alembic/correction_evaluation_0011.py:175-186 | every disagreement has exactly one supported observation after an evaluation |
| `ReceiptEvaluation.EvaluationKeeps` | server/fleetops/domain/record_corrections.py:222-374 | an evaluation restores the one-to-one match and leaves every past evaluation and itself free of anomalies |
| `ReceiptEvaluation.EvaluationIsComplete` | server/alembic/correction_evaluation_0011.py:107-202 | the completeness check accepts every evaluation |
| `ReceiptSafety.CorrectKeeps` | server/fleetops/domain/record_corrections.py:377-418 | a correction past its admission goes through, is accepted as complete and keeps the invariant |
| `ReceiptSafety.AmendKeeps` | server/fleetops/domain/record_corrections.py:97-127 | a procurement correction leaves every pinned comparator at its live head |
| `ReceiptSafety.OperateKeeps` | server/alembic/correction_records_0011.py:255-302 | operator decisions keep the invariant |
| `ReceiptCapture.ReceiveKeeps` | server/fleetops/domain/receiving.py:218-306 | capturing a line records exactly its own exceptions |
| `ReceiptCapture.ReconcileKeeps` | server/fleetops/domain/receiving.py:309-356 | reconciliation adds exactly the quantity exceptions |
| `ReceiptCapture.ShortfallsAre` | server/fleetops/domain/receiving.py:319-356 | reconciliation against live values finds what evaluation finds against pinned ones |
| `ReceiptCapture.LineExceptionsExact` | server/alembic/versions/0010_receiving.py:534-571 | before any correction a line has an exception of a type if and only if the completeness trigger expects it |
| `ReceiptCapture.QuantityExceptionsExact` | server/alembic/versions/0010_receiving.py:573-594 | SHORT or OVER is on record if and only if the receipt is reconciled and the trigger's sum demands it |
| `ReceiptRuns.OneToOne` | server/alembic/correction_evaluation_0011.py:152-186 | in every run the never-retired observations match one to one the disagreements of the lines in force with the pinned expectations |
| `ReceiptRuns.AlwaysHealthy` | server/alembic/correction_health_0011.py:12-118 | in every run the health views of all past evaluations, of all workflows and of both correction tables are empty |
| `ReceiptRuns.CorrectionGoesThrough` | server/fleetops/domain/record_corrections.py:377-418 | in every run a correction fails only at its admission |
| `ReceiptRuns.LinesKeepIdentity` | server/alembic/correction_records_0011.py:110-154 | in every run a correction keeps a line's asset and serialization, one unit of the captured item where serialized, a known identifier where one was seen, and a bound comparator |
| `ReceiptRuns.PinnedForever` | server/fleetops/domain/receiving.py:112-157 | once bound, a purchase-order line's live value, generation and source are the pinned ones after any further run |
| `ReceiptEffects.CorrectionTakesEffect` | server/fleetops/domain/record_corrections.py:69-94 | afterwards the line in force has every supplied field and keeps every other; no other line changes |
| `ReceiptEffects.CorrectionLeavesPair` | server/fleetops/domain/record_corrections.py:71-93 | the two rows: the value in force, then its replacement, with generation, performer, time and trimmed reason |
| `ReceiptEffects.CorrectionAccepted` | server/alembic/correction_records_0011.py:99-187 | in every reachable state a correction is accepted exactly under the conditions of the service and its guards; the evaluation adds none |
| `ReceiptEffects.EvaluatesInForce` | server/alembic/correction_evaluation_0011.py:12-29 | the line an evaluation sees is the line in force, with the asset of its capture and the owner of the identifier it now names |
| `ReceiptEffects.ReceiveTakesEffect` | server/fleetops/domain/receiving.py:242-306 | a captured line carries the request's facts; a known identifier is noted as seen again, any other unit becomes a registered asset |
| `ReceiptEffects.ReceiveAccepted` | server/fleetops/domain/receiving.py:218-241 | a capture is accepted exactly while the receipt is open, its order line active at the expected generation, and the unit fits the item |
| `ReceiptEffects.OperateTakesEffect` | server/alembic/correction_records_0011.py:290-301 | an operator's decision is the status and the last event of its exception, and touches no other |
| `ReceiptEffects.AmendTakesEffect` | server/fleetops/domain/record_corrections.py:117-127 | a procurement correction puts its value in force for its line and no other |
| `ReceiptRuns.ReceivingExact` | server/alembic/versions/0010_receiving.py:446-598 | in every run, until the first correction, recorded and expected exceptions coincide in both directions |
| `ReceiptDesk.Desk.BindComparator` | server/fleetops/domain/receiving.py:112-157 | binds once, at the head generation, or refuses |
| `ReceiptDesk.Desk.RecordLine` | server/fleetops/domain/receiving.py:218-306 | comparator, line, asset registration and exceptions, all or nothing |
| `ReceiptDesk.Desk.ReconcileReceipt` | server/fleetops/domain/receiving.py:309-356 | closes once and records the quantity exceptions |
| `ReceiptDesk.Desk.Judge` | server/fleetops/domain/record_corrections.py:309-355 | the observation loop: support flags, duplicate test, links and automatic resolutions |
| `ReceiptDesk.Desk.Evaluate` | server/fleetops/domain/record_corrections.py:222-374 | the whole evaluation, refused if and only if a comparator is missing or two supported observations share a key |
| `ReceiptDesk.Desk.CorrectReceiptLine` | server/fleetops/domain/record_corrections.py:377-418 | pair, comparator and evaluation in one transaction that ends complete |
| `ReceiptDesk.Desk.TransitionException` | server/fleetops/domain/exception_workflow.py:26-50 | one legal status event, refused when stale or illegal |
| `ReceiptDesk.Desk.CreateReceipt` | server/fleetops/domain/receiving.py:386-400 | one call gives what the single calls give one after the other, and is refused if and only if one of them would be |
| `CaptureTypes.ReadingIsFaithful` | client/src/lib/sync.ts:28-35 | the client reads the recorded outcome from first and repeated replies if and only if the code tells the outcomes apart |
| `CaptureDevice.Device.Allocate` | client/src/lib/db.ts:70-93 | the next ordinal and stream position; a new epoch for a new scope or an exhausted sequence |
| `CaptureDevice.Device.Enqueue` | client/src/lib/db.ts:105-133 | allocation and insertion of a claim in one transaction |
| `CaptureDevice.Device.ResetEpoch` | client/src/lib/db.ts:134-144 | only future claims change epoch |
| `CaptureDevice.Device.EvidenceOperation` | client/src/lib/db.ts:167-202 | a link claim is allocated once per row and returned again afterwards |
| `CaptureDevice.Device.Settle` | client/src/lib/db.ts:152-166 | the stored outcome of a claim or of a link |
| `CaptureSafety.PendingIsUnsettled` | client/src/lib/sync.ts:63-75 | the queue offers a claim exactly while it is not settled |
| `CaptureSafety.NextIsReady` | client/src/lib/sync.ts:63-75 | what a pass picks has no unsettled predecessor in its scope |
| `CaptureSafety.NoSequenceFlag` | server/fleetops/capture/service.py:79-108 | a claim that reaches the server unrecorded is the next of its stream, owned by its actor |
| `CaptureSafety.AcceptedReply` | client/src/lib/sync.ts:12-35 | an accepted reply says what the server recorded |
| `CaptureSafety.ServeOrders` | server/fleetops/capture/service.py:228-246 | a first processing comes after those of all earlier claims of its scope |
| `CaptureSafety.StepKeeps` | client/src/lib/sync.ts:58-148 | capture, epoch reset, look, send, serve, late or repeated reply, crash, upload, link and foreign traffic all keep the invariant, whatever the leases do |
| `CaptureRuns.AtMostOnce` | server/fleetops/capture/service.py:228-331 | in every run each claim takes effect at most once, and a settled one exactly when the device shows it as applied |
| `CaptureRuns.OrdinalOrder` | client/src/lib/sync.ts:58-75 | in every run operations of one scope are first processed in ordinal order |
| `CaptureRuns.NeverFlagged` | server/fleetops/capture/service.py:96-102 | no claim of the device is recorded with a sequence flag or refused for its epoch's actor |
| `CaptureRuns.EpochsAreScoped` | client/src/lib/db.ts:80-91 | an epoch belongs to one scope, with sequences 1, 2, 3, … in ordinal order |
| `CaptureRuns.PhotoKept` | client/src/lib/sync.ts:96-108 | a photo leaves the device only after the server applied the link that carries it |
| `CaptureRuns.SettledStays` | client/src/lib/sync.ts:109-114 | no later event changes a settled outcome |
| `CaptureRuns.SettledForever` | client/src/lib/sync.ts:109-114 | nor does any run |
| `CaptureLaws.OthersNeverApply` | server/fleetops/capture/service.py:250-251 | an operation posted under another actor's credential commits nothing and is never answered as applied |
| `CaptureLaws.FirstProcessing` | server/fleetops/capture/service.py:246-331 | a first processing is refused, or records the domain's decision and answers with it |
| `CaptureLaws.Repeated` | server/fleetops/capture/service.py:242-245 | a repeated operation changes nothing, and only its own actor learns the recorded code |
| `CaptureLaws.EffectsAreOwn` | server/fleetops/capture/service.py:228-331 | in every run of own and foreign traffic whatever took effect was recorded under the credential of the actor who captured it |
| `CaptureLaws.RunsLawful` | server/fleetops/capture/service.py:103-107 | in every run each cursor stands at the greatest recorded sequence of its stream |
| `CaptureLaws.FlagsTell` | server/fleetops/capture/service.py:98-102 | SEQUENCE_REUSED and SEQUENCE_GAP say exactly what the stream has recorded at and around the sequence |
| `CaptureService.Ordered` | server/fleetops/capture/service.py:55-66 | every batch position once, streams together, each by sequence then position |
| `CaptureService.CaptureServer.Sequence` | server/fleetops/capture/service.py:79-108 | flags and cursor of one stream, or a refusal |
| `CaptureService.CaptureServer.Process` | server/fleetops/capture/service.py:228-331 | one transaction: duplicate, refusal, or record, cursor and consequences together |
| `CaptureService.CaptureServer.Batch` | server/fleetops/capture/service.py:334-356 | a transaction per operation in that order; replies at the positions of their operations; an expired credential stops the rest |
| `CaptureService.BatchUnflagged` | server/fleetops/capture/service.py:55-66 | the next operations of a stream are recorded without flags in whatever order the batch holds them |
| `CaptureSync.NextWork` | client/src/lib/sync.ts:63-75 | the pending claim or link with the smallest ordinal, or none |
| `CaptureSync.FindPhoto` | client/src/lib/sync.ts:76-83 | an applied row whose photo has no link claim, or none |
| `CaptureSync.Lighter` | client/src/lib/sync.ts:60-138 | a pass that lightens one row decreases the measure of the queue |
| `CaptureSync.SendPass` | client/src/lib/sync.ts:87-114 | a terminal reply changes one row: a claim is shown as it reads, a link is done or in error and its photo leaves only when done; the measure decreases; anything else leaves the queue |
| `CaptureSync.PhotoPass` | client/src/lib/sync.ts:115-137 | upload and link keep the photo and everything else of the row, add the link claim and decrease the measure, or leave the queue |
| `CaptureSync.SendIsRun` | client/src/lib/sync.ts:87-114 | a sending pass is a run of look, send, serve and receive or loss; a deciding server always gives a terminal reply |
| `CaptureSync.PhotoIsRun` | client/src/lib/sync.ts:115-137 | an uploading pass is a run of attach and link |
| `CaptureSync.Pass` | client/src/lib/sync.ts:59-138 | one pass against the server: its events continue the run that led to the present device and server |
| `CaptureSync.StoreIsTrue` | client/src/lib/sync.ts:96-114 | in every state that such runs lead to, an applied row took effect once, a rejected one did not, and likewise for links |
| `CaptureSync.Synchronize` | client/src/lib/sync.ts:42-152 | against the server, with lost requests and replies: what it does is a run of protocol events, so all results on runs hold of device and server; completed passes are paid for by the measure, other scopes are untouched, and without failures at most 1000 passes of work are drained |
| `CaptureSync.ProtocolQueue` | client/src/lib/db.ts:122-130 | every state of the protocol has a queue of the shape the loop relies on |
| `OrderLines.ListLines` | server/fleetops/domain/procurement.py:155-185 | terminates on any rows; succeeds if and only if they are disjoint single-rooted chains of constant number; returns a permutation by number from root to leaf |
| `OrderLines.OneActive` | server/fleetops/domain/procurement.py:125-135 | in sound rows each line number has exactly one active row |
| `OrderLines.WritesKeepChains` | server/alembic/versions/0009_procurement.py:305-332 | every run of admitted writes keeps the rows sound |
| `OrderLines.OneActiveAlways` | server/alembic/versions/0009_procurement.py:191-206 | every run of admitted writes leaves exactly one active row per line number |
| `OrderLines.OrderDesk.CreateLine` | server/fleetops/domain/procurement.py:188-217 | a root in a draft or a successor of an active line of an issued order, with the number of what it supersedes; refused exactly otherwise |
| `OrderLines.OrderDesk.IssueOrder` | server/fleetops/domain/procurement.py:104-122 | issues a draft once |

## Left out

- Tenancy, row-level security, grants, passwords, sessions and bearer tokens: one organization, with the actor as a value.
- Evidence bytes, storage, hashing and upload: valid evidence is a set that only grows, and an upload yields an identity or fails.
- Labels, printing, catalog, external references, the identifier resolver, the service worker, user interface, routers and schemas.
- Clocks: times are opaque values, and the isfinite checks on them are not modelled.
- Locks other than the asset row in `Lifecycle`: the other steps are whole transactions; deadlocks are not considered.
- Pair identities shared between different assets: the asset model holds one asset.
- Lease bookkeeping: the protocol lets every synchronizer act at any time, which covers all that leases allow.
- Fields that no rule compares: notes, owner and custodian of receipt lines, prices and expected dates of order lines, the attribution columns that guards copy to the child rows of an evaluation.
- NUMERIC: quantities are reals with exact addition.
- What a captured operation does in its domain: `CaptureTypes.Verdict` stands for its outcome, coded as the service codes it; other devices are assumed not to forge this device's identities, and fresh identities to be fresh.
- Receipt lines of several receipts at once: other receipts appear as changes of the order and of the asset registry.
- ReceiptSafety.AmendKeeps: only this receipt's comparators freeze a line, so the model refuses fewer procurement corrections than the source.
- ReceiptDesk.Desk.CorrectReceiptLine: the checks of the anomaly views are proved to pass rather than executed.
- AssetRecord.AssetTables.Correct: the deferred check at commit is likewise part of the proof that every valid state passes it.
- OrderLines.OrderDesk.CreateLine: the item lookup and the copied unit of measure are not modelled.
- The location cycle guard and the presentation order of the combined asset history.
