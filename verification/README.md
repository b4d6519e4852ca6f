# Verification model of the agent continuity store and its companions

This project models the parts of the repository whose correctness rests on state that survives crashes
and on two pieces of code that have to agree, and proves what they promise.

**The memory store** (`src/agent_continuity/memory_store.py`). Canonical events live in hash-chained
segments, one per session. Their effects are projected into tables (memories, task states, task ends,
blob catalog, citations), and large payloads are content-addressed blobs that are hot, archived, evicted
or rehydrated. The model covers:

- both replay orderings and the refinement of a full rebuild by incremental projection (`DependencyGraph`,
  `ReplayOrder`, `Projection`, `LogMeaning`, `Rebuild`, `RebuildAgrees`, `LifecycleLinks`, `Replay`, `ReplaySucceeds`,
  `ProjectedLog`, `RebuildEdges`, `RebuildFailures`);
- the files, receipts, stages, log and row of one blob through every sequence of operations with a crash
  after every durable step (`BlobCatalog`, `BlobLifecycle`, `BlobSafety`, `BlobRecovery`, `BlobRuns`,
  `BlobStore`, `TombstoneHistory`);
- retention planning and bounded collection (`Retention`, `DecisionMeaning`, `RetentionRuns`,
  `RetentionCatalog`, `RetentionEdges`, `GarbageCollection`);
- payload normalization, appending, reading and evicting (`HashChain`, `Payloads`, `PayloadMeaning`,
  `EventChain`).

**Around it**: the audit of a child's event stream against the runner that consumes it (`EventStream`,
`EventAudit`, `AuditMeaning`, `AuditTraces`, `Runner`, `RunnerMeaning`, `AuditSimulation`, `Bridge`);
transactional promotion and the repair controller (`Promotion`, `RepairController`); resumable finalization
(`Finalization`, `FinalizationRuns`, `FinalizationMeaning`); loss-checked
compaction (`TaskState`, `Compaction`); exact padding (`Padding`, `Whitespace`, `PromptCase`); the contract
between the sender and the receiver of a Swift verification (`SwiftCommand`, `Transfer`, `TransferAgrees`);
and maintenance evidence (`Maintenance`).

Code that changes state step by step is modelled by classes and methods with loops, each proved against a
specification function; the properties are lemmas about those functions. What an operation means is said
once more without them, over logs, rows, events or given fields alone, in the modules named `Meaning`.

## What is assumed

- SHA-256 (section 6.2 of FIPS 180-4) and canonical JSON are injective: a digest is a function with
  distinct values, and in `BlobLifecycle` it is the bytes or the receipt itself. `EventChain` also assumes
  that no payload contains its own digest.
- UUIDv5 ids (section 5.5 of RFC 9562) are injective in their name; ids are values with an order.
- Times are naturals. The code compares RFC 3339 texts as strings, so their order is taken to be
  chronological.
- Files are maps, each durable step is atomic, and a crash is a close followed by an open. `ProjectedLog`
  knows of the files only which blobs have lost their bytes.
- The log that a rebuild reads was written while the clock moved on between two lifecycle events of one blob
  (`LifecycleLinks.Ticking`).
- `BlobLifecycle` follows one digest. The statements over runs require new ids, a clock that moves past
  every lifecycle event of the blob, and a new month for a second archive of the same bytes; what happens
  without them is `BlobRuns.RehydratedHotIff` and `BlobRuns.BackdatedRehydration`.

## Where the code does less than it promises

Each of these is proved together with the exact condition under which the code does what it should.

- A store in which an archived blob was evicted cannot be opened again (`BlobRuns.EvictedArchiveBlocksOpen`).
- A store in which a payload was evicted that some event needs, or that was cited under two classes, cannot
  be opened or rebuilt again, and the payload cannot be rehydrated (`BlobRuns.OpensAfterEvictionIff`,
  `BlobRuns.NothingBringsItBack`, `RebuildFailures.NeededPayloadStopsRebuild`); for an archived blob a crash
  in the middle of the eviction is enough (`BlobRuns.OpensAfterReceiptIff`).
- A rebuild can change the status of a memory, or refuse a log that appends accepted
  (`RebuildEdges.StatusSurvivesRebuild`, `RebuildEdges.RebuildAcceptedIff`; inputs in `RebuildFailures`).
- A small payload that has the shape of a blob reference is appended and leaves the segment unreadable
  (`EventChain.AppendedIsAcceptedIff`, `EventChain.Bricked`).
- Collection can evict payloads that reading the log insists on (`RetentionEdges.EvictionBreaksReadingIff`).
- A changed repository file called `manifest.json` at the root defeats rollback (`Promotion.Restored`,
  `Promotion.ManifestIsLost`).
- The repair bound covers neither `run_shell_command` nor overlapping calls
  (`RepairController.ShellIsUnbounded`, `RepairController.OverlapIsUnbounded`); what does hold of every run is
  `RepairController.FailuresAreAccounted`.
- A failure report without a model request can never be finalized
  (`FinalizationRuns.UnavailableNeverCompletes`), and it shuts the session for a verified one
  (`FinalizationRuns.VerifiedRetryIsRefused`).
- A stage file where the control file has to go passes the sender and not the receiver
  (`TransferAgrees.SentIsAcceptedIff`, `TransferAgrees.ReservedDirectoryIsLost`).

## Model

| member | source | states |
|---|---|---|
| ReplayOrder.SupersessionVisit.Order | src/agent_continuity/memory_store.py:2394-2416 | the depth-first visit terminates; it lists every commit once, each after the commit it supersedes, and refuses exactly the graphs with a cycle |
| ReplayOrder.LayeredOrder | src/agent_continuity/memory_store.py:2518-2535 | the layered loop lists every lifecycle event once, each after its predecessor, layer by layer and within a layer in the given order of time and id; it refuses exactly the graphs with a cycle |
| DependencyGraph.StuckHasCycle | src/agent_continuity/memory_store.py:2518-2535 | when every remaining node waits for another remaining one, the dependency graph really has a cycle |
| DependencyGraph.TopologicalIsAcyclic | src/agent_continuity/memory_store.py:2399-2411 | a graph that can be listed in dependency order has no cycle |
| Projection.RowsAreIndependent | src/agent_continuity/memory_store.py:2251-2352 | a log is accepted by the reducers exactly when each projection row accepts its own events, and the tables show exactly those rows |
| Projection.ApplyShows | src/agent_continuity/memory_store.py:2208-2221 | one transaction writes every row its event touches as the row-wise reducer says, or refuses because one of them does |
| LogMeaning.TablesTellTheLog | src/agent_continuity/memory_store.py:2566-2943 | what the tables of any accepted log say, row by row: the last word on the status of a memory and on the end of its validity, the last state of a task, its terminal event with time and failure, the strongest class, citations and last availability of a blob |
| LogMeaning.TakenIff | src/agent_continuity/memory_store.py:2537-2806 | exactly which event an accepted log takes next, in terms of the log alone |
| Rebuild.OrderForced | src/agent_continuity/memory_store.py:2412-2432 | when each element must follow the one before it, every respectful order is the same order |
| RebuildAgrees.StatesAreForced | src/agent_continuity/memory_store.py:2695-2736 | sorting committed states by revision recovers their append order: each accepted state carries its position as revision |
| RebuildAgrees.MemoryIsForced | src/agent_continuity/memory_store.py:2566-2692 | the events of one memory have only one replay order when its status changes come last |
| RebuildAgrees.LifecycleIsForced | src/agent_continuity/memory_store.py:2434-2535 | consecutive lifecycle events of one blob are forced behind one another by their tombstone links |
| RebuildAgrees.LifecycleFold | src/agent_continuity/memory_store.py:2808-2943 | replayed behind all references, lifecycle events are accepted exactly when each fits the class and the references of the row, and leave the availability of the last one |
| RebuildAgrees.BlobsAgree | src/agent_continuity/memory_store.py:2312-2352 | a rebuild accepts a blob exactly when its lifecycle events fit its final row, and then leaves the incremental row |
| RebuildAgrees.SourcesAgree | src/agent_continuity/memory_store.py:2772-2806 | a rebuild accepts the citations of a source exactly when the source sorts before its citers, and then leaves the incremental row |
| RebuildAgrees.ForcedRowAgrees | src/agent_continuity/memory_store.py:2695-2770 | task states and terminal events always survive a rebuild; memories do when their status changes come last |
| RebuildAgrees.RebuildAgrees | src/agent_continuity/memory_store.py:995-1044 | for every well kept log, over any interleaving of segments, a rebuild under the stated conditions reads through, refuses nothing and reaches the tables of the appends |
| LifecycleLinks.LinkedByClock | src/agent_continuity/memory_store.py:3498-3513 | naming the latest receipt by time and id links every lifecycle event to the one before it, as long as the clock moves on between two events of one blob |
| LifecycleLinks.StoredIsWellKept | src/agent_continuity/memory_store.py:1623-1634 | every log the store writes while its clock moves on satisfies what the rebuild results ask for |
| LifecycleLinks.EvictedAsCatalogued | src/agent_continuity/memory_store.py:1084-1096 | an evicted blob takes no more citations, so its catalog row keeps the class of its receipt |
| ReplaySucceeds.AcceptedIsOrderable | src/agent_continuity/memory_store.py:2354-2432 | no log of accepted appends with linked tombstones makes a replay fail for duplicates, missing predecessors or cycles, in whatever order the segments are read |
| ReplaySucceeds.PredecessorIsPrevious | src/agent_continuity/memory_store.py:2471-2516 | the event a lifecycle event waits for in a replay is the one before it in its blob history |
| ProjectedLog.OrderCommits | src/agent_continuity/memory_store.py:2354-2411 | the commits come out once each in supersession order; the two errors are raised exactly for duplicate memories and for cycles |
| ProjectedLog.OrderLifecycle | src/agent_continuity/memory_store.py:2434-2535 | the lifecycle events come out once each behind their predecessors; the three errors are raised exactly for a twice consumed tombstone, a missing predecessor and a cycle |
| ProjectedLog.ProjectionOrder | src/agent_continuity/memory_store.py:2354-2432 | a replay order exists exactly when the events are orderable, and the result is a rearrangement that respects every precedence |
| ProjectedLog.Store.Append | src/agent_continuity/memory_store.py:727-834 | an append succeeds exactly when the log takes the event: no lifecycle event, a new id, no payload of an evicted blob, and in scope what it supersedes, changes, follows, ends or cites; then log and tables move together and the tables still tell the log |
| ProjectedLog.Store.Retire | src/agent_continuity/memory_store.py:1619-1724 | a retirement is logged exactly under a new id for a catalogued blob that is hot, or archived and evicted now, with its class and the latest receipt; the tables still tell the log |
| ProjectedLog.Store.Rehydrate | src/agent_continuity/memory_store.py:1098-1260 | a rehydration is logged exactly for an evicted blob whose latest receipt and citations the caller names, while every segment can be read; the tables still tell the log |
| ProjectedLog.Store.ReadSegments | src/agent_continuity/memory_store.py:3380-3414 | the reading pass gets through exactly when no evicted payload is needed or stored under another class |
| ProjectedLog.Store.Rebuild | src/agent_continuity/memory_store.py:995-1044 | a rebuild succeeds exactly when every segment reads and every row accepts its replay; a rebuildable log keeps its tables, one that cannot be read leaves everything, a refused replay leaves them cleared |
| ProjectedLog.ReadingOrderIsFree | src/agent_continuity/memory_store.py:1005-1030 | the order in which segments are read does not matter to what counts as a replay order |
| RebuildEdges.MemoryAfterRebuild | src/agent_continuity/memory_store.py:2425-2432 | a rebuild accepts a memory exactly when it is superseded at most once, and ends in the status of its latest status change, else of its supersession |
| RebuildEdges.StatusSurvivesRebuild | src/agent_continuity/memory_store.py:2583-2588 | a memory keeps its status over a rebuild exactly when it is superseded at most once and the last appended entry leaves what the last replayed one leaves |
| RebuildEdges.RebuildAcceptedIff | src/agent_continuity/memory_store.py:995-1044 | the exact condition, payload by payload and row by row, under which a rebuild accepts a log at all |
| RebuildEdges.DisputeOutlivesSupersession | src/agent_continuity/memory_store.py:2412-2432 | the code is not faithful here: commit, dispute, supersede ends superseded as appended and disputed after any rebuild |
| RebuildEdges.TwiceSupersededIsRefused | src/agent_continuity/memory_store.py:2583-2588 | supersede, dispute, supersede again is appended without complaint and refused by every rebuild |
| RebuildFailures.NeededPayloadStopsRebuild | src/agent_continuity/memory_store.py:3394-3412 | the code is not faithful here: once the payload of a task end was evicted, no rebuild gets through, although its replay would be accepted |
| RebuildFailures.MixedClassesStopRebuild | src/agent_continuity/memory_store.py:3386-3393 | cite as scratch and as bulk, evict as bulk: no reader needs the payload and no rebuild gets through |
| RebuildFailures.RaisedClassIsRefused | src/agent_continuity/memory_store.py:2826-2827 | cite as bulk, archive, cite as core is appended and refused by every rebuild |
| RebuildFailures.BackdatedCitationIsRefused | src/agent_continuity/memory_store.py:2437-2443 | a citation dated before the citation it cites is appended and refused by every rebuild |
| BlobSafety.CitingIsSafe | src/agent_continuity/memory_store.py:813-831 | an event whose payload is the blob, cut off after any step, keeps bytes, receipts, log and row in line |
| BlobSafety.RetiringIsSafe | src/agent_continuity/memory_store.py:1619-1724 | archiving or evicting, cut off after any of its steps, keeps every cited blob readable or its eviction on record |
| BlobSafety.RestoringIsSafe | src/agent_continuity/memory_store.py:1158-1260 | a rehydration, cut off after any of its steps, keeps the invariant; completed it leaves the supplied bytes hot |
| BlobSafety.LatestIsLast | src/agent_continuity/memory_store.py:3498-3513 | the receipt picked by time and id is the one of the last retirement in the log |
| BlobSafety.ReadsAsLogged | src/agent_continuity/memory_store.py:3837-3852 | a cited blob reads with its own content from the hot file or its archive, and as evicted only if its eviction is in the log |
| BlobRecovery.ReopeningIsSafe | src/agent_continuity/memory_store.py:537-689 | recovery, replay and reconciliation, cut off anywhere and repeated, keep the invariant, and completed leave a running store |
| BlobRecovery.ReopenedIsRecovered | src/agent_continuity/memory_store.py:1763-1814 | after a completed open the files agree with the log: no leftover archives, no stages, the hot file only where the row says |
| BlobRecovery.PromotionReplays | src/agent_continuity/memory_store.py:3748-3787 | replaying a rehydration either has nothing staged left to do or puts exactly the staged bytes in place |
| BlobRecovery.LastIsNotSuperseded | src/agent_continuity/memory_store.py:2945-2978 | with increasing times nothing counts as later than a rehydration that ends the log |
| BlobRecovery.MissingEventIsAccepted | src/agent_continuity/memory_store.py:2808-2943 | the one event a crash left unprojected satisfies its reducer when the store is reopened |
| BlobRecovery.OpenSucceedsIff | src/agent_continuity/memory_store.py:537-609 | from every reachable state an open gets through exactly when every segment reads as the files are and every archive named by a logged receipt is on disk |
| BlobRecovery.ReadsThroughIff | src/agent_continuity/memory_store.py:3380-3414 | reading gets past a blob exactly when its bytes are there, or no event that cites it is of a type readers need and all carry one class |
| BlobRecovery.RecoveredReadsThrough | src/agent_continuity/memory_store.py:545-577 | what recovery removes never makes the later reading fail |
| BlobRuns.RunIsSafe | src/agent_continuity/memory_store.py:537-689 | every moment of every history of crashing operations and crashing reopens keeps the invariant |
| BlobRuns.NeverLost | src/agent_continuity/memory_store.py:1619-1724 | whenever a crash happens, a cited blob has a copy on disk or its eviction is in the log with its receipt |
| BlobRuns.ReopenAfterAnyHistory | src/agent_continuity/memory_store.py:537-609 | after any history the exact condition for a reopen, in terms of bytes, citations and archives, and the recovered state it ends in |
| BlobRuns.UnlinksComeLast | src/agent_continuity/memory_store.py:1717-1723 | no copy that the log still relies on is unlinked before the event that retires it is durable |
| BlobRuns.EvictedArchiveBlocksOpen | src/agent_continuity/memory_store.py:571-578 | the code is not faithful here: once an archived blob is evicted and its archive gone, no open gets through |
| BlobRuns.ArchivedThenEvictedCannotReopen | src/agent_continuity/memory_store.py:1717-1721 | cite, archive, evict is a run after which the store cannot be opened, for all ids, times and months |
| BlobRuns.OpensAfterEvictionIff | src/agent_continuity/memory_store.py:1619-1724 | after an eviction the store opens again exactly when the blob was hot, no citation is needed, all carry the class of the row and no archive is missing |
| BlobRuns.OpensAfterReceiptIff | src/agent_continuity/memory_store.py:545-570 | a crash between the receipt and the event of the eviction of an archived blob leaves a store that opens exactly when no citation misses the payload |
| BlobRuns.NeededEvictionCannotReopen | src/agent_continuity/memory_store.py:3394-3412 | the code is not faithful here: cite by an event of a needed type, evict, and no open gets through |
| BlobRuns.MixedClassesCannotReopen | src/agent_continuity/memory_store.py:3386-3393 | cite as scratch and as bulk, evict, and no open gets through |
| BlobRuns.CrashedEvictionCannotReopen | src/agent_continuity/memory_store.py:545-570 | cite by an event of a needed type, archive, crash with the receipt of an eviction on disk, and no open gets through |
| BlobRuns.NothingBringsItBack | src/agent_continuity/memory_store.py:2945-2978 | once an evicted payload is missed by a citation, no later operation, rehydration included, brings its bytes back |
| BlobRuns.RehydratedHotIff | src/agent_continuity/memory_store.py:2915-2925 | a blob catalogued hot by a rehydration has its bytes exactly when a hot file was there or no lifecycle event is later by time and id |
| BlobRuns.BackdatedRehydration | src/agent_continuity/memory_store.py:2974-2978 | a rehydration dated before the eviction it undoes leaves the blob catalogued hot without bytes |
| BlobStore.Files.ReadBlob | src/agent_continuity/memory_store.py:3837-3852 | reads the hot file, else what the latest receipt points to |
| BlobStore.Files.ReadAll | src/agent_continuity/memory_store.py:3380-3414 | reading the payload of every citing event gets through exactly as specified |
| BlobStore.Files.Cite | src/agent_continuity/memory_store.py:786-831 | the durable steps of an append whose payload is the blob; an evicted blob is refused before any write |
| BlobStore.Files.CarryOut | src/agent_continuity/memory_store.py:1640-1724 | archive file, receipt, event, row, unlink, in this order and cut off anywhere |
| BlobStore.Files.ApplyDecision | src/agent_continuity/memory_store.py:1619-1724 | reads the bytes and the previous receipt and then carries the decision out as specified |
| BlobStore.Files.Rehydrate | src/agent_continuity/memory_store.py:1098-1260 | refuses other bytes, blobs that are not evicted, stale tombstones and unreadable segments, exactly, the last with its stage taken back; otherwise the specified steps |
| BlobStore.Files.RecoverArtifacts | src/agent_continuity/memory_store.py:537-689 | reads every segment first; then drops pending archives and receipts, orphan archives and spent stages, or stops where a named archive is gone |
| BlobStore.Files.ReplayMissing | src/agent_continuity/memory_store.py:2863-2943 | replays the event the row does not know, promoting its stage first |
| BlobStore.Files.Reconcile | src/agent_continuity/memory_store.py:1763-1814 | removes the hot file of a retired blob and the archives of an evicted one |
| BlobStore.Files.Open | src/agent_continuity/memory_store.py:282-343 | the stages of an open in their order, and that it gets through exactly when all of its checks do |
| BlobStore.PreviousIsLast | src/agent_continuity/memory_store.py:1623-1634 | the receipt an action names as its predecessor is the one of the last retirement |
| BlobCatalog.Merge | src/agent_continuity/memory_store.py:2312-2324 | references of two classes leave the stronger of the two |
| TombstoneHistory.Walk | src/agent_continuity/memory_store.py:879-904 | the walk from the root terminates and accepts a set of receipts exactly when they form one linear chain |
| Retention.PlanOf | src/agent_continuity/memory_store.py:1314-1403 | the plan holds exactly one decision for each row in scope, strictly ordered |
| Retention.SoonerIsOrder | src/agent_continuity/retention.py:203-212 | the plan order is irreflexive, transitive and total on distinct digests |
| DecisionMeaning.NoPinsIff | src/agent_continuity/memory_store.py:1405-1487 | a row has no pin exactly when every protection fails: core class, a reference outside the planned scopes, of an unended task or of a kept type, evidence and production claims, and mentions by live memories and states of unended tasks |
| DecisionMeaning.DecideEarned | src/agent_continuity/memory_store.py:1489-1526 | archived exactly: due hot evidence, and due hot bulk with an ordinary citation; evicted exactly: overdue hot scratch, due hot bulk without one, and archived bulk past its time; all of it only unprotected |
| DecisionMeaning.PlanMeans | src/agent_continuity/memory_store.py:1314-1403 | for every catalog and time: the plan decides each chosen row once, as it earned, in order of class, deadline and digest |
| DecisionMeaning.PartMoves | src/agent_continuity/memory_store.py:1576-1605 | any number of decisions of a plan carried out: each decided row is archived or evicted as earned, and every other row stays as it was |
| DecisionMeaning.HotBytesAdd | src/agent_continuity/memory_store.py:1321-1323 | the hot bytes are the sizes of the hot rows, added up |
| RetentionRuns.OthersUnchanged | src/agent_continuity/memory_store.py:1576-1605 | applying one decision leaves pins, eligibility and content of every other decision of the plan unchanged |
| RetentionRuns.PlanAfterOne | src/agent_continuity/memory_store.py:1576-1605 | after the first decision of a plan, planning again gives the rest of it in order |
| RetentionRuns.PlanStaysValid | src/agent_continuity/memory_store.py:1576-1605 | however many decisions were applied, planning again gives exactly the others: one staleness check covers the loop |
| RetentionCatalog.RefreshFits | src/agent_continuity/memory_store.py:2980-3029 | a recomputed deadline exists exactly when every task of the blob has ended, and is then the latest of their ends plus thirty days for scratch, ninety for bulk, a hundred and eighty for evidence |
| RetentionCatalog.ChangeKeeps | src/agent_continuity/memory_store.py:2980-3029 | citing, ending a task, collecting and rehydrating keep every hot deadline in step with the references |
| RetentionCatalog.CollectionIsSafe | src/agent_continuity/memory_store.py:1405-1526 | over every history, an applied decision archives only due hot evidence or cited bulk and evicts only overdue scratch, uncited bulk or expired archives, unprotected at that moment, with all tasks ended and the days of the class over; an archive goes ninety days after the collection that made it |
| RetentionCatalog.EvidenceNeverEvicted | src/agent_continuity/memory_store.py:1524-1525 | no history of collections ever evicts evidence |
| RetentionCatalog.ArchivedRowsFit | src/agent_continuity/memory_store.py:2834-2839 | over every history an archived bulk row expires exactly ninety days after the collection that archived it |
| RetentionEdges.EvictionBreaksReadingIff | src/agent_continuity/memory_store.py:3394-3412 | an eviction makes the log unreadable exactly when a memory, state, task, citation or lifecycle event carried the blob, or an event names another class or size than the row |
| RetentionEdges.CollectionKeepsReadingIff | src/agent_continuity/memory_store.py:3380-3414 | carrying out any decision leaves every segment readable exactly when it archives, or no reader needs the payload and all references agree with the row |
| RetentionEdges.OnlyEndedTasksIff | src/agent_continuity/memory_store.py:2980-2986 | a collected blob is referenced by ended tasks only, exactly unless a reference without a task came while it was archived |
| RetentionEdges.ClosingPayloadEvicted | src/agent_continuity/memory_store.py:1427-1434 | a reachable catalog whose plan evicts the bulk payload of a closing task event, after which no log with this catalog reads |
| GarbageCollection.HotBytesFall | src/agent_continuity/memory_store.py:1576-1605 | catalogued hot bytes fall by exactly the sizes of the applied decisions that were hot |
| GarbageCollection.OrderedMeans | src/agent_continuity/retention.py:203-212 | a plan is ordered exactly when no later decision comes first |
| GarbageCollection.SizeAdds | src/agent_continuity/memory_store.py:1583-1605 | the selected bytes are the sizes of the decisions, added up |
| GarbageCollection.Collector.ApplyDecisions | src/agent_continuity/memory_store.py:1583-1605 | a prefix of the decisions, within the limits of count, bytes and time, and the true reason for stopping; the catalog is the one that applying exactly this prefix leaves |
| GarbageCollection.Collector.RunGc | src/agent_continuity/memory_store.py:1528-1617 | malformed plans, limits that are not positive and stale plans are refused exactly; a dry run changes nothing; an applied plan archives and evicts exactly what earned it and leaves exactly its rest to be planned |
| Payloads.NormalizeSettles | src/agent_continuity/memory_store.py:3051-3300 | a normalized payload is a fixed point of normalization, whatever the clock says later |
| PayloadMeaning.NormalizeMeans | src/agent_continuity/memory_store.py:3051-3300 | exactly which payloads of each kind are normalized; every given field is kept, times by their instant, and only what is missing is filled with the named default |
| PayloadMeaning.SourcesMean | src/agent_continuity/memory_store.py:3156-3175 | a source list is taken exactly when it is not empty and every id is proper; the kept list is strictly ascending and has exactly the given values |
| PayloadMeaning.MemoryMeans | src/agent_continuity/memory_store.py:3060-3130 | exactly which memories are taken, and what is kept of each field and evidence row |
| Payloads.SourcesSettle | src/agent_continuity/memory_store.py:3168-3180 | sorted, unique, canonical source ids stay as they are |
| Payloads.ProofsSettle | src/agent_continuity/memory_store.py:3107-3129 | filled-in evidence rows stay as they are |
| HashChain.ReadSegment | src/agent_continuity/memory_store.py:3302-3436 | the reading loop accepts exactly the gap-free, correctly linked and hashed segments of acceptable records |
| HashChain.LastHashPinsChain | src/agent_continuity/memory_store.py:3368-3379 | two chains that end in the same hash are the same, record by record |
| EventChain.LastHashPinsSegment | src/agent_continuity/memory_store.py:3302-3436 | two accepted segments with the same last record hash are identical, whatever blobs each reader has |
| EventChain.AppendedIsAcceptedIff | src/agent_continuity/memory_store.py:748-823 | an appended record extends an accepted segment to an accepted one exactly unless its small payload has the shape of a blob reference that does not read as evicted |
| EventChain.Segment.Append | src/agent_continuity/memory_store.py:691-834 | the refusals before any write in their order and without effect, a bad payload exactly when it does not fit; otherwise a record that keeps the request and every given payload field, its blob and index, and exactly when the projection fails |
| EventChain.Segment.UnrefusedIff | src/agent_continuity/memory_store.py:691-812 | the exact condition under which nothing refuses a request |
| EventChain.UnprojectableIff | src/agent_continuity/memory_store.py:2251-2278 | a written record fails to project exactly when its small payload has the shape of a blob reference, unless that names an evicted blob and no reader needs it |
| EventChain.NewBlobIsHarmless | src/agent_continuity/memory_store.py:813-814 | storing a new blob does not change how earlier records read |
| EventChain.EvictionKeepsReadingIff | src/agent_continuity/memory_store.py:3380-3414 | after an eviction a segment still reads exactly when every record stored there may lose its payload and agrees with the tombstone |
| EventChain.ArchivingKeepsReading | src/agent_continuity/memory_store.py:3837-3852 | archiving a blob is not noticed by any reader |
| EventChain.Bricked | src/agent_continuity/memory_store.py:748-834 | the code is not faithful here: a small note of the shape of a blob reference is written to a new segment, fails to project, and every further append is refused |
| EventAudit.Auditor.Accept | adapters/deepseek/event_bridge.py:76-99 | each event moves the audit as specified or is refused with the specified fault |
| EventAudit.Auditor.OnToolStart | adapters/deepseek/event_bridge.py:114-148 | allowlist, budget, intent, side effects and duplicate effects of a tool start |
| EventAudit.Auditor.OnToolEnd | adapters/deepseek/event_bridge.py:150-169 | a result settles the one open call of its id and tool and may earn a success flag |
| EventAudit.Auditor.OnAgentEnd | adapters/deepseek/event_bridge.py:182-202 | the end matches the counts, leaves no call open and completes only with evidence |
| AuditMeaning.AuditIs | adapters/deepseek/event_bridge.py:76-210 | the audit accepts exactly the streams without an objectionable event, each judged by the events before it, and of the others reports the first objection; what it keeps of a stream is what the events say |
| AuditTraces.AcceptedIsHeard | adapters/deepseek/event_bridge.py:76-202 | every accepted stream is one the statements below speak about |
| AuditTraces.StartsDiffer | adapters/deepseek/event_bridge.py:119-120 | no two starts share a call id |
| AuditTraces.EndsDiffer | adapters/deepseek/event_bridge.py:156-157 | no call has two results |
| AuditTraces.EndFollowsStart | adapters/deepseek/event_bridge.py:150-161 | every result has an earlier start of the same call and tool |
| AuditTraces.EffectsHappenOnce | adapters/deepseek/event_bridge.py:130-137 | of all calls that name one effect, all but the first are denied as duplicates |
| AuditTraces.EndIsLast | adapters/deepseek/event_bridge.py:80-81 | nothing follows the end of the agent |
| AuditTraces.WithinBudgets | adapters/deepseek/event_bridge.py:110-122 | turns and calls stay within budget at every moment |
| AuditTraces.EveryCallSettled | adapters/deepseek/event_bridge.py:189-190 | at the end every call has its result |
| AuditTraces.CompletedHasEvidence | adapters/deepseek/event_bridge.py:199-200 | a completed agent has an undenied edit and an undenied test that came back clean, in either order |
| Runner.Run | adapters/runner.py:410-608 | the event loop and the checks at the end of the stream give the verdict whose meaning `RunnerMeaning.VerdictIs` spells out |
| Runner.ReadEvent | adapters/runner.py:434-591 | one turn of the loop |
| RunnerMeaning.VerdictIs | adapters/runner.py:410-608 | the verdict on every stream, read off its events: the first objectionable one and its fault; else the exit code, the missing end, an unsettled call; else accepted |
| RunnerMeaning.AcceptedIff | adapters/runner.py:434-608 | a stream is accepted exactly when the exit code is zero, no type names retry or compaction, turns and calls are within budget, every start is new, in scope or denied and within the limits, every result answers a waiting call of its id and tool, no provider error is reported, the agent ends and no call waits |
| RunnerMeaning.AwaitingIff | adapters/runner.py:472-520 | a call waits under a tool exactly when some start of that id and tool has no result behind it |
| RunnerMeaning.CallFieldsRead | adapters/runner.py:244-252 | under which names the id and the tool of a call are found |
| AuditSimulation.StepAgrees | adapters/runner.py:441-520 | one accepted event: the runner stops for scope or repetition, or its pending and settled calls mirror the audit |
| AuditSimulation.AuditSimulatesRunner | adapters/runner.py:441-520 | over every accepted stream the runner goes on exactly as long as calls stay in scope and within the edit and test limits |
| AuditSimulation.AcceptedStreamVerdict | adapters/runner.py:597-608 | a stream accepted to its end leaves the runner with the agent ended and no call pending |
| Bridge.Relay | adapters/deepseek/event_bridge.py:236-276 | a stream without objection that ends is relayed whole with the exit code of the child; of any other the longest accepted prefix and an error message, with code two |
| Bridge.RunnerAcceptsIff | adapters/runner.py:597-608 | behind the bridge the runner accepts a child exactly when the audit accepts all of its stream to the end, the calls are permitted and it exits cleanly |
| Promotion.Changed | src/agent_continuity/production_worker.py:144-149 | exactly the paths at which two manifests differ |
| Promotion.Restored | src/agent_continuity/production_worker.py:459-474 | a complete rollback restores the source exactly unless an applied path is the name of the promotion manifest and its content differs |
| Promotion.Promoter.Back | src/agent_continuity/production_worker.py:453-474 | the backup holds what the source had at the changed paths, and the manifest under its own name |
| Promotion.Promoter.Promote | src/agent_continuity/production_worker.py:476-492 | up to the first failing step, exactly the applied paths carry the staged content |
| Promotion.Promoter.RollBack | src/agent_continuity/production_worker.py:501-521 | every applied path is back as backed up, except those reported as errors, which carry the staged content |
| Promotion.Promoter.Recover | src/agent_continuity/production_worker.py:501-541 | the report says rolled back exactly when no step failed and the source is as before |
| Promotion.Promoter.Apply | src/agent_continuity/production_worker.py:434-545 | with any operation allowed to fail: source equal to stage, or every path restored or reported; no temporaries left in a report; what is reported when only the closing check fails |
| Promotion.ManifestIsLost | src/agent_continuity/production_worker.py:459-541 | the code is not faithful here: a change of `manifest.json` and a failing closing check leave the promotion manifest in its place |
| RepairController.Controller.Observe | src/agent_continuity/production_worker.py:316-369 | each event moves the controller as specified and is written down, or is refused |
| RepairController.EventsMean | src/agent_continuity/production_worker.py:316-362 | which events count as edits, gated calls and failures |
| RepairController.FailuresDiffer | src/agent_continuity/production_worker.py:357-362 | in every accepted run no failure repeats the evidence of an earlier one |
| RepairController.AtMostThreeFailures | src/agent_continuity/production_worker.py:331-340 | one command at a time, at most three commands fail after the first edit |
| RepairController.EditBetweenFailures | src/agent_continuity/production_worker.py:331-340 | between two failures after the first edit there is another edit |
| RepairController.ShellIsUnbounded | src/agent_continuity/production_worker.py:339-350 | the bound does not cover `run_shell_command`: any number of its calls may fail after one edit |
| RepairController.OverlapIsUnbounded | src/agent_continuity/production_worker.py:331-340 | nor does it cover overlapping calls of `pwsh`: any number may start before the first result and fail after one edit |
| RepairController.FailuresAreAccounted | src/agent_continuity/production_worker.py:327-366 | whatever the order of calls and results: every failure after the first edit is answered by one of at most two edits, displaced by a later result, or waiting |
| RepairController.AcceptedIff | src/agent_continuity/production_worker.py:327-366 | the controller accepts exactly the runs in which at most two edits answer a failure, no gated call starts while one waits, and every failure is new evidence |
| Finalization.Recorder.Finalize | src/agent_continuity/run_memory.py:288-439 | cut off after any append or not: exactly the first missing events in order, and how it ends, a run that has ended the other way included |
| Finalization.Recorder.EnsureStarted | src/agent_continuity/run_memory.py:109-171 | the start and the first state, or a refusal for another objective |
| Finalization.Recorder.RecordIntent | src/agent_continuity/run_memory.py:173-198 | granted exactly when no request is in the log and one append is left, and then exactly the request is added; otherwise an unsafe repeat or an interruption, without a trace |
| Finalization.Recorder.RecordResponse | src/agent_continuity/run_memory.py:200-228 | refused exactly without a request; logged exactly once |
| Finalization.Recorder.RecordImplementation | src/agent_continuity/run_memory.py:230-286 | the edit and then its test, each found or appended |
| FinalizationMeaning.OneIntentGranted | src/agent_continuity/run_memory.py:182-186 | over every history, once an intent was granted every later one is an unsafe repeat: no model call is sent twice |
| FinalizationMeaning.RepeatsAreUnsafe | src/agent_continuity/run_memory.py:182-186 | the same once a finalization has recovered the request |
| FinalizationMeaning.IntentAnswers | src/agent_continuity/run_memory.py:173-198 | in every state exactly when an intent is granted, repeated or cut off, and what it leaves |
| FinalizationMeaning.ResponseAnswers | src/agent_continuity/run_memory.py:200-228 | in every state exactly when a response is taken, lacks its request or is cut off |
| FinalizationMeaning.ResponseLeaves | src/agent_continuity/run_memory.py:200-228 | a response is logged exactly behind its request and once |
| FinalizationMeaning.StartAnswers | src/agent_continuity/run_memory.py:109-171 | a start leaves the start and the first state, or refuses another objective without a trace |
| FinalizationMeaning.ImplementationAnswers | src/agent_continuity/run_memory.py:230-286 | an uncut record of the implementation adds exactly the missing ones of edit and test |
| FinalizationMeaning.FinalizeLeaves | src/agent_continuity/run_memory.py:288-439 | after any history, an uncut finalization leaves exactly what was logged and the kinds its summary calls for, in sound order |
| FinalizationRuns.HistoryIsSound | src/agent_continuity/run_memory.py:441-446 | in every history of operations and cut-offs each kind of event is recorded at most once, one model request included, after the event it builds on, and the run ends one way only |
| FinalizationRuns.PlanResumes | src/agent_continuity/run_memory.py:581-588 | what a cut-off finalization has done is exactly what the next one leaves out |
| FinalizationRuns.FinalizeIsResumable | src/agent_continuity/run_memory.py:288-439 | after any number of cut-offs one complete run leaves the log and the outcome of an undisturbed one, and a further run appends nothing |
| FinalizationRuns.FinishedHasAll | src/agent_continuity/run_memory.py:288-439 | a finished finalization has each event of its script exactly once, up to the end of the run when that has come the other way |
| FinalizationRuns.CompletesIff | src/agent_continuity/run_memory.py:315-430 | after any history an undisturbed finalization succeeds exactly when it leaves its terminal event and the final state: the run has not ended the other way, and the locators differ or the final state was there |
| FinalizationRuns.UnavailableNeverCompletes | src/agent_continuity/run_memory.py:448-470 | a failure report without a model request never completes, however often it is finalized |
| FinalizationRuns.VerifiedRetryIsRefused | src/agent_continuity/memory_store.py:2751-2753 | the code is not faithful here: after a finalized failure report no verified finalization of the session ever gets to the end of the run |
| TaskState.ValidateChain | src/agent_continuity/compaction.py:804-820 | a chain is accepted exactly when all states are valid, of one task, and linked by digest from a first one |
| TaskState.LastDigestPinsChain | src/agent_continuity/compaction.py:804-820 | two accepted chains with the same last digest are identical |
| Compaction.CheckExact | src/agent_continuity/compaction.py:652-667 | the issues are exactly the omitted and the changed items |
| Compaction.CheckGoals | src/agent_continuity/compaction.py:669-719 | the issues are exactly the omitted, reworded, unproven and reversed criteria or blockers and their lost evidence |
| Compaction.CheckInvariants | src/agent_continuity/compaction.py:633-739 | the whole check reports exactly what is lost, changed or unproven |
| Compaction.CleanIffKeeps | src/agent_continuity/compaction.py:633-739 | between valid states the check is clean exactly when nothing is lost |
| Compaction.KeepsIsReflexive | src/agent_continuity/compaction.py:633-739 | a state keeps itself |
| Compaction.KeepsIsTransitive | src/agent_continuity/compaction.py:633-739 | keeping is transitive, newly proven goals included |
| Compaction.CheckReferences | src/agent_continuity/compaction.py:483-552 | no issue exactly when every event, evidence row and artifact that a field names resolves, field by field |
| Compaction.CheckSourceRange | src/agent_continuity/compaction.py:555-630 | no issue exactly when the frozen range resolves and the candidate runs through its last event |
| Compaction.ValidateProposal | src/agent_continuity/compaction.py:742-801 | no issue exactly for admissible proposals |
| Compaction.NothingLost | src/agent_continuity/compaction.py:742-801 | over any chain of accepted compactions every later state keeps everything of every earlier one |
| Compaction.ItemsNeverLost | src/agent_continuity/compaction.py:652-719 | what that means field by field: task, objective, constraints, decisions, completed work, next actions, open calls, artifacts, disputes, criteria and blockers |
| Compaction.AcceptedIsLinked | src/agent_continuity/compaction.py:804-820 | accepted compactions from a first state form a chain the chain check accepts |
| Padding.PadBeforeSuffix | evals/long_context/suite.py:196-278 | any returned text counts to exactly the target, starts with the prefix and ends with the suffix; too long fixed texts are refused exactly; with a monotone counter the target is found when a filler within reach hits it |
| Padding.Round | evals/long_context/suite.py:226-276 | a round finds the target or a longer prefix with strictly more tokens below it; the target is found when a filler within reach hits it |
| Padding.Search | evals/long_context/suite.py:246-261 | the binary search returns the target or a text below it; with a monotone counter, the target if any request hits it and else the largest count below |
| Whitespace.TokensAdd | evals/long_context/suite.py:155-158 | whitespace tokens add up over a separating space |
| Whitespace.FillerIsExact | evals/long_context/suite.py:161-189 | the deterministic filler holds exactly the requested tokens |
| Whitespace.FillerIsPrefixStable | evals/long_context/suite.py:161-162 | a longer filler continues a shorter one |
| Whitespace.LinesAreGrouped | evals/long_context/suite.py:188-189 | joining lines of forty-four words is the word by word text |
| Whitespace.DeterministicPadding | evals/long_context/suite.py:161-189 | the loop builds that filler |
| Whitespace.WhitespaceAlwaysHits | evals/long_context/suite.py:232-235 | with the whitespace counter and the deterministic filler one round suffices, so padding succeeds exactly when the fixed text is not too long |
| PromptCase.Place | evals/long_context/suite.py:403-410 | placing records keeps every earlier range and notes where each new one lies, behind its checkpoint and in the given order |
| PromptCase.BuildPrompt | evals/long_context/suite.py:378-421 | the prompt has exactly the target tokens, starts with the header, ends with the footer, every noted range still selects its record, and with distinct ids the early, middle and late records lie behind their own checkpoints and in that order |
| SwiftCommand.LocalPackage | bin/mac-swift-verifier.py:245-274 | the loop of the sender accepts exactly the package argument grammar |
| SwiftCommand.RemotePackage | mac/swift-verifier-remote.py:131-158 | the loop of the receiver accepts exactly the same grammar |
| SwiftCommand.PackageArgumentsIff | bin/mac-swift-verifier.py:245-274 | the grammar in one piece: the arguments can be cut into flags of the literal list and pairs with a checked value |
| SwiftCommand.RelativesAgree | mac/swift-verifier-remote.py:78-88 | the path checks differ exactly in drives |
| SwiftCommand.OrderedAndDistinct | bin/mac-swift-verifier.py:304-318 | sorted and free of duplicates is strictly ascending |
| SwiftCommand.LocalXcode | bin/mac-swift-verifier.py:277-301 | the checks of the sender accept exactly the Xcode grammar |
| SwiftCommand.RemoteXcode | mac/swift-verifier-remote.py:161-184 | the checks of the receiver accept exactly the Xcode grammar |
| SwiftCommand.LocalTypecheck | bin/mac-swift-verifier.py:304-318 | the checks of the sender accept exactly the type check grammar |
| SwiftCommand.RemoteTypecheck | mac/swift-verifier-remote.py:187-202 | the checks of the receiver accept exactly the type check grammar |
| SwiftCommand.LocalCommand | bin/mac-swift-verifier.py:212-242 | the mode a command is sent in |
| SwiftCommand.RemoteCommand | mac/swift-verifier-remote.py:91-128 | the mode a command is received in |
| SwiftCommand.SenderMatchesReceiver | mac/swift-verifier-remote.py:91-202 | the sender accepts exactly what the receiver accepts without drives, in the same mode |
| Transfer.ControlFits | bin/mac-swift-verifier.py:466-474 | the control file of a bounded command is far below the limit for one file |
| Transfer.Collect | bin/mac-swift-verifier.py:411-485 | a stage and command are collected exactly within the limits, and the listed files are the found ones with their roles, sizes and digests |
| Transfer.InsertKeepsOrder | bin/mac-swift-verifier.py:475-485 | the listing stays strictly sorted by path when the control file is put in its place |
| Transfer.CheckEntries | mac/swift-verifier-remote.py:361-379 | the declared entries pass exactly when paths are distinct and contained and sizes within bounds |
| Transfer.Unpack | mac/swift-verifier-remote.py:387-415 | every file is unpacked exactly when each member matches its entry and no path lies below another file |
| Transfer.Extract | mac/swift-verifier-remote.py:323-415 | a transfer is unpacked exactly when it carries an acceptable manifest |
| TransferAgrees.BuildTransfer | bin/mac-swift-verifier.py:504-547 | exactly for a stage and command within the limits: the manifest and the members |
| TransferAgrees.SentIsAcceptedIff | mac/swift-verifier-remote.py:323-415 | what the sender packs within its limits the receiver accepts, exactly unless a stage file lies where the control file or its directory has to go |
| TransferAgrees.ReservedDirectoryIsLost | mac/swift-verifier-remote.py:387-415 | the code is not faithful here: a stage file named like the directory of the control file is sent and refused on arrival |
| TransferAgrees.DigestPinsPayload | mac/swift-verifier-remote.py:342-345 | two accepted transfers with the same manifest digest unpack to the same files |
| Maintenance.RunMaintenance | src/agent_continuity/memory_maintenance.py:604-686 | a run without a mishap reports the status of its pressure, request and plan; an execution in a report tells exactly what was collected, within the limits, and why it stopped; the loader accepts every report of a run that did not fail, and a failed one exactly when its error text is not blank |
| Maintenance.PressedIff | src/agent_continuity/memory_maintenance.py:633-650 | the pressure reaches the threshold exactly when the disk or the hot blobs are at eight tenths of what they may take |
| Maintenance.StatusIsDetermined | src/agent_continuity/memory_maintenance.py:517-553 | the loader leaves no choice of status |

## Left out

- SQLite, fsync, OS locks, symlink and junction checks, zstd, ZIP and JSON parsing: library and platform behaviour, modelled as maps, atomic steps and injective encodings.
- Full-text search and ranking: the channels come from SQLite; only a sum and a sort would be left.
- Two live processes on one store while one has unprojected events: a crash is a close and a reopen here.
- Lifecycle events with payloads over the blob threshold: the store of `ProjectedLog` writes inline ones, which is what the fixed fields of these payloads amount to.
- `ProjectedLog.OrderLifecycle`: does not model predecessors that an earlier replay has already projected, because a rebuild replays everything.
- `BlobStore.Files.Rehydrate`: does not model the refusals of differing source events and scopes; the sources are in `ProjectedLog.Store.Rehydrate`, and scopes are compared by equality only.
- `BlobRuns`: an append to a segment that cannot be read itself is refused; the operations of a run append elsewhere. `EventChain.Segment.Append` has that refusal.
- `created_at`, pin reasons stored with the catalog row and reference counts: not part of the rebuild comparison, because the code refreshes them at some events only.
- Reading a blob, planning and collecting are modelled on the catalog in `GarbageCollection` and on the files of one blob in `BlobStore`; their product over many blobs is not built.
- Bulk admission under pressure: one comparison in front of an append.
- `EventChain.Segment.Append`: does not model the reducer preflight, which is the subject of `ProjectedLog.Store.Append`; malformed blob-shaped payloads, which the preflight refuses, are not modelled.
- `Payloads.NormalizeSettles`: field checks of a single branch (digest patterns, scope key texts, provenance texts) are one flag per payload.
- The planner's text searches for a digest or an event id inside memory objects and state texts are sets of mentions.
- Secret scanning, file encodings and the walk over directories in the transfer: one predicate on files and the list of what the walk found; nested paths are assumed canonical as a file system gives them.
- `TransferAgrees.SentIsAcceptedIff`: assumes a manifest within 4 MiB, which the sender does not check.
- The bounds on the size of event streams: the bridge counts the bytes it reads and the runner the bytes it is sent, which differ by JSON escapes.
- Case folding beyond ASCII in event types, and Unicode spaces in texts.
- `Runner.Run`: does not model timeouts, the size of the stream, job ownership, the verifier command and the comparison of directory snapshots, which happen outside the loop over events.
- `Promotion.Promoter.Apply`: files at one path only; a file that becomes a directory or the reverse, and paths that differ only in case, are not modelled.
- One session per task in `Finalization`; payload fields other than kinds, parents, objective and locators are not modelled.
- Telemetry, scores and degradation gates of the evaluation suite, which use floating point; the checkpoints of a prompt are parameters.
- `Maintenance.RunMaintenance`: a collection that fails does so before its first decision; in the code it can also fail between two.
- Elapsed time, evidence paths and scope key syntax of maintenance reports; a report larger than the loader's limit is outside `Maintenance.RunMaintenance`.
- The adapters for other agents, local edits, checkpoints and catalog maintenance: easier relatives of what is modelled.
