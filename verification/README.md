# Ownward, modelled and proved in Dafny

Ownward keeps a person's information on a host they control. This project models the parts of it where a mistake
would lose, repeat or leak work, and proves what they promise. It has three groups.

**The asset store and its clients** (`Options`, `Text`, `Ordering`, `AssetLog`, `AssetHistory`, `AssetOverwrite`,
`AssetSnapshot`, `AssetRuns`, `SourceIndex`, `AssetStore`, `Connector`, `LostRecords`, `ConnectorProgress`,
`HostConnector`). Assets live in an append-only log. `AssetLog` is the meaning of a log as a function of its records;
`AssetHistory` says what every replayable log guarantees; `AssetSnapshot` that compaction changes nothing;
`AssetOverwrite` what is lost when a record is written over the head of the log; `AssetRuns` what failed writes and
compactions, poisoning and crashes can and cannot do over whole runs. `AssetStore` has the store's mutable tables with its methods, each proved to do what the value semantics
says. `Connector` is the protocol between a client that records an operation before sending it and the store;
`LostRecords` says exactly which steps let a request be carried out twice, and `ConnectorProgress` which pending requests
can still be brought to an end.

**The move between hosts** (`Handoff`, `HandoffInvariant`, `HandoffSafety`, `HandoffProgress`, `HandoffFrozen`). One
source and any number of destinations, with durable and volatile state, messages that are lost, late or repeated, and
crashes between any two durable writes.

**Semantic preparation and retrieval** (`Passages`, `Decimal`, `Json`, `Bodies`, `Tables`, `CompactTables`, `Packing`,
`Publication`, `Submission`, `Repair`, `Selection`, `Preparation`, `Retrieval`, `RetrievalSafety`, `References`,
`Recheck`). Slicing sources and quoting from them, the tables a request is sent as, packing work into units, publishing
and submitting the results, repairing locations, sampling, and reading under a budget.

Where a source file works step by step, a class or a method with loops models it and is proved equal to a function on
values; the laws are lemmas about that function. Protocols are transition systems: `Do` is one action, `Run` a sequence
of them, and a law about runs holds for every sequence.

Several promises hold under a condition only. The condition is then stated and proved exact, or necessary by an input on
which the promise fails:

* A store in step stays in step exactly unless one of three things happens. The generation would wrap at its last value.
  A commit follows a compaction whose new file could not take the old one's place: the old file is then open at its
  start, and `appendOperationEvent`, unlike `Delete` and `appendLocked`, does not move to the end (both
  `AssetRuns.CommitInStep`; `AssetRuns.FailedReplacementOverwrites`). Or a failed write could not be rolled back
  (`AssetRuns.DirectInStep`): `Delete` and `appendLocked` do not poison the store then, so memory and file part.
* The connector's at-most-once promise holds while every operation that went out was reported to its caller or is in the
  vault, and a step that loses one is exactly what lets a later run break it (`LostRecords.LossIsExact`). Three things
  lead there. A call repeated after a failed first save sends the operation unsaved (`LostRecords.FailedSaveIsUnsafe`).
  After a success whose closing save failed, the caller gets an error and the operation is in the vault alone; the next
  save, for the repeated request or anything else, overwrites it unless a restart comes first
  (`LostRecords.FailedClosingIsUnsafe`). And the process may stop between that save and its answer
  (`LostRecords.UntoldIsUnsafe`).
* A pending request whose operation has expired uncommitted stays in the vault and no run ever reports it
  (`ConnectorProgress.VaultedCanComplete`).
* A frozen transfer can be finished exactly while no control decision has come since its freeze
  (`HandoffFrozen.FrozenCanFinish`); after one, nothing retires it.
* The deduplicated table, in either order, fails its own validator exactly when a presented candidate has a field named
  `body_ref`, or two sources of one id and revision differ and share a digest (`CompactTables.DefaultInputPasses`,
  `CompactTables.TargetsFirstPasses`).
* The plan of analysis units is shortest when, among the runs of each batch's work, fitting is closed under sub-runs.
  Work that all asks for an organization, or none of which does, is closed when its prompts grow
  (`Packing.UniformPlanIsBest`). Mixed work need not be (`Packing.MixedWorkIsRefused`); it is never refused
  when each work is within the bounds on its own (`Packing.AloneWithinIsPlanned`).
* The bound on works per unit is not checked for a first work, so it holds exactly when it is positive.
* A tool answer that raises while it is observed is not counted as a call (`RetrievalSafety.BrokenIsUnbounded`).
* A repair round stopped before its outcome is saved is asked again (`Submission.CallsAreUnbounded`).
* The selection of one hundred fails for fewer than one hundred questions.

## Model

| member | source | states |
|---|---|---|
| Text.Resolve | internal/domain/selector.go:16-40 | the scan over the occurrences succeeds exactly when the selector locates one passage, and then stands at the position returned, so missing, blank and ambiguous quotations fail |
| Text.StandsIsQuoteAt | internal/domain/selector.go:21-35 | standing between the right neighbours is the same as an occurrence of prefix, text and suffix together |
| AssetLog.PutAllContents | internal/assetlog/operation.go:219-227 | writing a batch stores each value under its id and leaves every other asset alone |
| AssetLog.BuryContents | internal/assetlog/forget.go:79-89 | burying a batch adds exactly its ids, with their revisions, and keeps the other tombstones |
| AssetLog.ApplyKeepsWellFormed | internal/assetlog/operation.go:131-228 | every accepted record keeps all receipts in the current generation, items and forgotten ids apart, and every item valid under its own id |
| AssetLog.ReplayConcat | internal/assetlog/store.go:375-443 | replaying a log and then another is replaying them joined, an error included |
| AssetHistory.AtMostOnce | internal/assetlog/operation.go:83-129 | in any log that replays, two commits never share a key and generation, so no operation identity changes the items twice, however often the table was emptied between |
| AssetHistory.SpentForever | internal/assetlog/operation.go:83-98 | an operation whose window is over or whose receipt is stored can never commit again, whatever the log goes on to say |
| AssetHistory.ReceiptKept | internal/assetlog/operation.go:83-129 | a stored receipt stays until a later generation empties the table, and nothing stands in for it then |
| AssetHistory.RetryFindsFirstReceipt | internal/assetlog/operation.go:83-98 | a retry inside the generation is answered with the receipt of the record that committed it; after the generation it is refused |
| AssetHistory.OneReceiptPerOperation | internal/assetlog/operation.go:106-129 | a log commits at most one receipt for an operation |
| AssetHistory.ReceiptsAreCommitted | internal/assetlog/operation.go:197-228 | every stored receipt was committed by some record of the log |
| AssetHistory.RevisionsRunInOrder | internal/assetlog/operation.go:131-169 | the versions of an asset in a replayable log carry revisions 1, 2, 3, ... under one creation time, and the state holds the last of them unless the asset is forgotten |
| AssetHistory.ForgottenForever | internal/assetlog/forget.go:52-89 | an asset once forgotten is never among the items again and keeps its tombstone |
| AssetSnapshot.SnapshotRoundTrip | internal/assetlog/forget.go:91-124 | the snapshot events, written in any order of the keys, replay from empty to the same generation, receipts, forgotten set and items |
| AssetSnapshot.CompactionPreservesMeaning | internal/assetlog/store.go:251-314 | replacing a log by the snapshot of what it replays to changes neither its meaning nor that of any later records |
| AssetRuns.PlannedCommitReplays | internal/assetlog/operation.go:106-169 | a record that passes the checks of a commit replays without error exactly when its generation does not wrap, and the receipt table keeps its bound of 4096 |
| AssetRuns.CommitInStep | internal/assetlog/operation.go:171-195 | after a commit, file, history and memory agree exactly unless the record of a wrapped generation reached the file, or anything was written while a failed compaction had left the file open at its start |
| AssetRuns.DirectInStep | internal/assetlog/store.go:335-374 | after a direct change or a forgetting they agree exactly unless the remains of a failed write could not be rolled back and differ from memory |
| AssetRuns.FailedRollbackStrays | internal/assetlog/forget.go:33-49 | such remains exist: a forgetting written but not synced whose rollback fails leaves an asset in memory that the file has forgotten |
| AssetRuns.FailedReplacementOverwrites | internal/assetlog/store.go:295-311 | whenever a compaction could not put its new file in place, the next commit that passes its checks is reported done, and the file, overwritten from its start, no longer replays to what was committed |
| AssetOverwrite.MutationOverwrites | internal/assetlog/operation.go:171-195 | a mutation written over any part of the head of a replayable log never leaves a log that means the old log followed by the mutation |
| AssetOverwrite.GenerationOverwrites | internal/assetlog/operation.go:112-117 | a new generation written over less of the log than its table has receipts leaves a log that does not replay |
| AssetOverwrite.LogLeavesTrace | internal/assetlog/store.go:375-443 | no log but the empty one replays to the empty store |
| AssetRuns.CompactInStep | internal/assetlog/store.go:251-314 | however a compaction ends, before, at or after replacing the file, file, history and memory agree |
| AssetRuns.ReopenInStep | internal/assetlog/store.go:60-90 | reopening after a stop at any point succeeds and yields the replay of the durable records |
| AssetRuns.RunsStayInStep | internal/assetlog/operation.go:171-195 | over every run of commits, changes, forgetting, compactions whether they succeed or not, failed writes and crashes without those three accidents, memory equals the replay of the file while not poisoned, and at most 4096 receipts are kept |
| AssetRuns.RunsCommitOnce | internal/assetlog/operation.go:106-129 | among all records such a run ever made durable, no two mutations carry one operation identity |
| AssetRuns.RunsKeepRevisions | internal/assetlog/operation.go:131-169 | over such a run an asset's durable versions are its revisions 1, 2, 3, ... |
| AssetRuns.CommittedStaysAnswered | internal/assetlog/operation.go:83-104 | what a run has committed, every longer run answers with the first receipt or refuses |
| AssetStore.Store.CommitMutation | internal/assetlog/operation.go:106-129 | the reply and the whole new store are those of the commit on values: stored receipt, refusal, uncertain write or commit, with the bump of a full table |
| AssetStore.Store.AppendOperationEvent | internal/assetlog/operation.go:171-195 | writes where the file stands; an unacknowledged write poisons the store and leaves memory; a synced one applies the record through the replaying function |
| AssetStore.Store.ReplayOperation | internal/assetlog/operation.go:197-228 | replay of an operation record changes the tables as the value semantics says, or reports its error and changes nothing that is used afterwards |
| AssetStore.Store.Delete | internal/assetlog/forget.go:20-50 | the reply and the whole new store of a forgetting, all or none, with its rollback |
| AssetStore.Store.ReplayDeletion | internal/assetlog/forget.go:79-89 | replay of a deletion record |
| AssetStore.Store.Create | internal/assetlog/store.go:108-118 | the reply and the whole new store of a creation, checks before the state of the store |
| AssetStore.Store.Update | internal/assetlog/store.go:184-203 | the reply and the whole new store of an update, refused unless the stored revision is the expected one |
| AssetStore.Store.Checked | internal/assetlog/store.go:375-443 | the checks on a single version accept exactly what replay accepts |
| AssetStore.Store.Compact | internal/assetlog/store.go:245-314 | in each of the six ways it can end, compaction leaves memory alone, the file as it was or the live snapshot, and the next write at the end, at the start or impossible |
| AssetStore.Store.Reopen | internal/assetlog/store.go:60-90 | opening drops an unfinished last line and rebuilds the tables and the derived index by replay |
| SourceIndex.IndexReadIsScan | internal/assetlog/source.go:45-70 | reading through the index gives exactly the clarifications of a full ordered scan of the items |
| SourceIndex.LeftMatches | internal/assetlog/source.go:34-43 | taking a source out leaves the index of the items without it, with no empty bucket, repeated relations included |
| SourceIndex.EnteredMatches | internal/assetlog/source.go:15-32 | entering a source gives the index of the items with it |
| AssetStore.Store.SetItem | internal/assetlog/source.go:15-32 | storing an item keeps fingerprints and index equal to what a scan gives |
| AssetStore.Store.RemoveSource | internal/assetlog/source.go:34-43 | removing a source takes its id out of every bucket it is in and drops emptied buckets |
| AssetStore.Store.ReadSource | internal/assetlog/source.go:45-70 | the asset, its fingerprint and exactly the clarifications of a sorted scan; nothing from a closed or poisoned store |
| Connector.RunKeepsInv | cmd/ownward/connector_operation.go:52-117 | over every run with losses, late and repeated deliveries, failed saves and crashes of either side, in which no step loses an operation that went out, every operation that is out was reported to the caller as a success or is in the vault, it went out in the mode its operation was drawn in, and only requests that were sent take effect |
| Connector.AppliedAndAcknowledged | cmd/ownward/connector_operation.go:52-117 | each operation is carried out by at most one durable record, every one reported to the caller as a success has been, and an unreported effect is the one still in the vault |
| Connector.AtMostOneUnacknowledged | cmd/ownward/connector_operation.go:65-87 | over such a run two operations drawn for one request are never both carried out and unreported, a success whose closing save failed counting as unreported |
| Connector.RepliesAgree | cmd/ownward/connector_operation.go:102-117 | every success ever reported for an operation carries the same receipt |
| Connector.RetryGetsFirstReceipt | cmd/ownward/connector_operation.go:52-117 | a retry within the generation leaves the store as it is and gets the first commit's receipt; after it, it leaves the store as it is and is refused |
| Connector.RetriesKeepMode | cmd/ownward/connector_operation.go:67-98 | an operation never goes out with its organization deferred one time and not another |
| LostRecords.LossIsExact | cmd/ownward/connector_operation.go:65-117 | for every step from a system such a run reaches: some later such run carries a request out twice unreported exactly when the step loses an operation that went out, by sending it unsaved or by a save that no longer has it, provided what is open for that request can still be carried out |
| LostRecords.FailedSaveIsUnsafe | cmd/ownward/connector_operation.go:79-96 | wherever the save of a draw fails, the next call can send the operation just drawn, which is not in the vault |
| LostRecords.FailedClosingIsUnsafe | cmd/ownward/connector_operation.go:107-115 | wherever the closing save of a success fails, only the vault still has the operation, carried out and unreported; every next save loses it, and a restart before any save brings it back |
| LostRecords.RepeatedAfterError | cmd/ownward/connector_operation.go:107-115 | so, with no restart between, a caller who repeats the request after that error lets a later run carry it out twice unreported |
| LostRecords.UntoldIsUnsafe | cmd/ownward/connector_operation.go:107-116 | a stop between the closing save and the answer loses the operation as well |
| ConnectorProgress.VaultedCanComplete | cmd/ownward/connector_operation.go:65-117 | an operation in the vault is reported by some later run exactly if a success for it is on its way, or the running store has its receipt, or the durable records have it or leave it open in their generation with room in the table; otherwise no run ever reports it |
| HostConnector.HostConnector.Ask | cmd/ownward/connector_operation.go:60-98 | the code up to the request acts as the protocol's recording step; an operation goes out in the mode it was drawn in, and what this call draws is in the vault when it is sent |
| HostConnector.HostConnector.Conclude | cmd/ownward/connector_operation.go:99-117 | only a success lets the operation go, and the caller is told of it only if the closing save succeeded; an error or a lost answer keeps it for the next call |
| HandoffInvariant.ReachableInv | cmd/ownward/service_runtime.go:260-450 | the invariant of both hosts holds in every state that any interleaving of their steps, of messages and of crashes reaches |
| HandoffSafety.OnePlaceServes | cmd/ownward/service_runtime.go:601-777 | a destination serves only if the source is durably retired in its favour; the source then does not serve, and no other destination does |
| HandoffSafety.FrozenDataArrives | cmd/ownward/service_runtime.go:601-727 | what a destination installs is the data that was frozen for exactly that transfer, which was never cancelled |
| HandoffSafety.CancelledNeverStarts | internal/informationcontrol/remote_access.go:455-500 | a transfer cancelled at the source starts at no destination, then or at any later time |
| HandoffSafety.RetiredForever | internal/informationcontrol/remote_access.go:431-454 | retirement is for good: the source neither serves again nor changes its transfer |
| HandoffProgress.RetiredCanAlwaysFinish | cmd/ownward/service_runtime.go:729-777 | from every reachable state with a retired source, whatever both hosts were stopped at, restarting them and resending the same permit makes the destination serve and the source let go of its copy |
| HandoffSafety.LateCancelIsHarmless | cmd/ownward/service_runtime.go:260-450 | in every reachable state no cancel on its way names the live transfer, and any number of cancels arriving in any order leaves what every place holds for it, ready or due to take over |
| HandoffFrozen.FrozenCanFinish | cmd/ownward/service_runtime.go:601-777 | from every reachable state with a frozen transfer, some continuation carries it through to a serving destination exactly while no control decision has come since the freeze; after one, no continuation retires it |
| HandoffFrozen.ReachablePromised | internal/informationcontrol/remote_access.go:455-500 | a destination that answered a reservation holds it until the source cancels it, and a frozen source has cleaned up all it cancelled |
| HandoffInvariant.ActiveStays | cmd/ownward/service_runtime.go:260-450 | a receiver recorded as active is never taken back |
| HandoffProgress.ActivationCompletes | internal/authoritysubstrate/handoff.go:111-136 | a permit received by an idle destination ends, after at most five steps, in a serving destination that has answered |
| Passages.SourcePassages | benchmarks/longmemeval_s/semantic_representation.py:328-366 | the loop slices the source as the specification does, in both forms |
| Passages.CutIsBest | benchmarks/longmemeval_s/semantic_representation.py:341-358 | a part ends at the first place where it ends well; failing that after the last space of a full window; failing that with the window |
| Passages.PassagesAreLossless | benchmarks/longmemeval_s/semantic_representation.py:328-366 | the passages join back to the source, there is at least one, and only the first can be blank |
| Passages.PassageSelector | benchmarks/longmemeval_s/semantic_representation.py:181-198 | fails only for a range outside the source or for a blank first passage alone; otherwise returns the quotation with the fewest doublings of context that occurs once, located at the range itself; the failure to be unique cannot happen |
| Passages.BlankRange | benchmarks/longmemeval_s/semantic_representation.py:191 | a range is blank exactly when it is the first passage alone and the source is empty or begins with a blank part |
| Passages.QuotationsResolve | internal/domain/selector.go:16-40 | every unique quotation of a non-blank range resolves in the information model at that range and nowhere else |
| Passages.Occurrences | benchmarks/longmemeval_s/semantic_representation.py:173-178 | one exactly when the text is not empty and occurs at one position, overlaps counted |
| Tables.DefaultSemanticInput | benchmarks/longmemeval_s/semantic_representation.py:390-432 | succeeds exactly when every presented source has an identity, and then builds the deduplicated table and its items |
| Bodies.TableKeeps | benchmarks/longmemeval_s/semantic_representation.py:394-404 | every source looked up has its body, no two bodies share id, revision and digest, and a name tells its position |
| Bodies.TableIsDistinct | benchmarks/longmemeval_s/semantic_representation.py:400-401 | the names of the bodies differ, whatever the digests in them: the padded number ends at its dash |
| Bodies.ToldApartIsListed | benchmarks/longmemeval_s/semantic_representation.py:394-404 | every source is listed with its own content exactly when no two sources of one id and revision share a digest while they differ |
| CompactTables.ListedOnce | benchmarks/longmemeval_s/semantic_representation.py:390-432 | no source body is listed twice |
| CompactTables.DefaultInputPasses | benchmarks/longmemeval_s/semantic_representation.py:435-482 | the deduplicated table passes its own validator exactly when no presented candidate brings a field named body_ref and no two sources of one id and revision share a digest while they differ |
| CompactTables.CompactSemanticInput | benchmarks/longmemeval_s/semantic_representation.py:485-561 | produces the index-compressed form, with every context list once, exactly when all bodies and contexts can be restored, and it then expands to the original work rows |
| CompactTables.ItemExpands | benchmarks/longmemeval_s/semantic_representation.py:529-561 | a compact row expands to its item exactly when the item names its bodies rightly and brings lists of contexts |
| CompactTables.WorkIsCompactable | benchmarks/longmemeval_s/semantic_representation.py:485-561 | for work without own references the compact form is produced exactly when every candidate brings a list of explicit contexts and every asset's contexts are a list |
| CompactTables.TargetsFirstKeeps | benchmarks/longmemeval_s/semantic_representation.py:599-608 | targets-first reordering keeps every body once |
| CompactTables.TargetsComeFirst | benchmarks/longmemeval_s/semantic_representation.py:603-607 | the reordered table begins with the bodies of the work's own sources, in work order |
| CompactTables.TargetsFirstPasses | benchmarks/longmemeval_s/semantic_representation.py:621-631 | reordered, the table made from work passes its own validator under exactly the same condition, for any digest; it names a body for every item, which reordering needs |
| CompactTables.TargetsFirstWorkIsCompactable | benchmarks/longmemeval_s/semantic_representation.py:612-617 | and it has a compact form under exactly the same condition on the contexts |
| CompactTables.TargetsFirstIsCompactable | benchmarks/longmemeval_s/semantic_representation.py:599-608 | what can be compacted in one order can be in the other |
| Decimal.PaddedIsInjective | benchmarks/longmemeval_s/semantic_representation.py:400 | zero-padded numbers of any length are told apart |
| Packing.AnalysisUnits | benchmarks/longmemeval_s/run.py:399-497 | either nothing is frozen, or the first group over its own input or output bound is reported, or the units of the greedy packing are returned, all within those bounds |
| Packing.PackBatch | benchmarks/longmemeval_s/run.py:421-443 | the packing loop over one batch gives the specified groups |
| Packing.GroupsKeepWork | benchmarks/longmemeval_s/run.py:444-495 | the groups put end to end are the frozen work in order |
| Packing.GroupsAreProper | benchmarks/longmemeval_s/run.py:421-496 | every group is non-empty and lies in one batch, and a group of several works is within all three bounds |
| Packing.UnitsTile | benchmarks/longmemeval_s/run.py:444-493 | each unit is the slice of the work between its ends and starts where the one before it stops |
| Packing.UnitPerGroup | benchmarks/longmemeval_s/run.py:453-494 | the units are the groups, one each, and the last ends where the work does |
| Packing.WorkBoundHolds | benchmarks/longmemeval_s/run.py:435-443 | every unit keeps the bound on works exactly when that bound is positive or there is no work |
| Packing.PlanIsShortest | benchmarks/longmemeval_s/run.py:421-443 | no other in-order split that respects batches and bounds uses fewer units, if among the runs of each batch's own work whatever fits still fits with work taken off either end |
| Packing.FittingSplitMeansPlanned | benchmarks/longmemeval_s/run.py:466-467 | under the same condition, if any such split exists the closing size checks pass |
| Packing.UniformPlanIsBest | benchmarks/longmemeval_s/run.py:421-467 | for batches that all ask for an organization or do not, with prompts that grow along their runs, the plan has as few units as any fitting split, and is refused only if there is none |
| Packing.UniformReservesMore | benchmarks/longmemeval_s/run.py:1246-1262 | the output reservation of a sub-run never exceeds that of its run when all work asks for an organization or none does |
| Packing.RefusedOnlyAlone | benchmarks/longmemeval_s/run.py:421-467 | a plan is refused exactly for a work that stands alone in its group and is over the input or output bound |
| Packing.AloneWithinIsPlanned | benchmarks/longmemeval_s/run.py:421-467 | so no plan is refused, mixed work or not, when every work is within both bounds on its own |
| Packing.MixedWorkIsRefused | benchmarks/longmemeval_s/run.py:1252-1262 | mixed work can be refused although all of it fits one unit, a part of it reserving more than the whole |
| Publication.PublishedInOrder | benchmarks/longmemeval_s/run.py:2447-2467 | whatever finishes first and wherever the process stops, the batches submitted are 0, 1, 2, ... without gap or repeat, the checkpoint names all of them or all but the last, and each has its units' results |
| Publication.SubmissionsOnlyGrow | benchmarks/longmemeval_s/run.py:2447-2467 | a submission is added only by the submitting step, for the next batch, and never withdrawn |
| Publication.HeldBackUntilAllFinish | benchmarks/longmemeval_s/run.py:2440-2450 | with a source that already has an organization, nothing is submitted before every unit has its result |
| Publication.AllFinishAllPublished | benchmarks/longmemeval_s/run.py:2413-2488 | after any run and any crash, starting again and letting the units finish in any order publishes every batch |
| Publication.PublishStops | benchmarks/longmemeval_s/run.py:2447-2467 | publishing stops exactly where the next batch is not ready |
| Publication.Publisher.PublishReady | benchmarks/longmemeval_s/run.py:2447-2467 | the loop leaves the variables and files as the specified publishing does, or untouched while it is held back |
| Submission.ReturnedIsAccepted | benchmarks/longmemeval_s/run.py:631-747 | when submission returns, across resumes, every work item has an accepted submission in its place with its work, source and revision |
| Submission.AcceptedForever | benchmarks/longmemeval_s/run.py:672-735 | a submission that was accepted is never altered afterwards, by no repair and over no resume |
| Submission.RepairsAreBounded | benchmarks/longmemeval_s/run.py:693-735 | the saved repair rounds stay within the attempts; the repair calls exceed them by exactly the rounds stopped before their outcome was saved and the one under way |
| Submission.CallsAreUnbounded | benchmarks/longmemeval_s/run.py:695-735 | those calls have no bound of their own: each stop before saving lets the round be asked again |
| Submission.Batch.SubmitBatch | benchmarks/longmemeval_s/run.py:631-747 | one call: its result is accepted and saved, keeps identities and positions, and alters nothing that had been accepted before |
| Retrieval.ActiveRetrievalSession.Call | benchmarks/longmemeval_s/run.py:963-1046 | the outcome and every field of the session after a call: budget refusal, recorded failure, answer, or an answer that raises and is not recorded |
| Retrieval.ActiveRetrievalSession.ResetAttempt | benchmarks/longmemeval_s/run.py:838-847 | a reset empties every field |
| RetrievalSafety.RunsStayInBudget | benchmarks/longmemeval_s/run.py:963-1046 | in every run, across resumes and resets, recorded calls, successful reads and characters stay within the budget, and the character count is the sum over the recorded reads |
| RetrievalSafety.RecordedUnlessBroken | benchmarks/longmemeval_s/run.py:963-1046 | a call that reaches the client is recorded exactly unless observing its accepted answer raises |
| RetrievalSafety.AskedIsBounded | benchmarks/longmemeval_s/run.py:966 | calls that reach the client are within the call budget, the raising ones counted apart |
| RetrievalSafety.BrokenIsUnbounded | benchmarks/longmemeval_s/run.py:987-1008 | the raising ones are not bounded: a search answered with null results reaches the client as often as it is tried |
| RetrievalSafety.RunsAreTraced | benchmarks/longmemeval_s/run.py:922-1046 | the session knows exactly what answers offered, and every id read, searched in or navigated from comes, step by step, from a search |
| RetrievalSafety.OffersWereReturned | benchmarks/longmemeval_s/run.py:950-1018 | whatever an answer makes usable stands in that answer |
| Selection.Select | benchmarks/longmemeval_s/prepare_materials.py:81-98 | the selection succeeds with exactly one hundred rows for distinct ids from one hundred questions on, never with fewer questions, and its rows are those of the chosen ids |
| Selection.SharesAreHundred | benchmarks/longmemeval_s/prepare_materials.py:82-86 | the shares of any non-empty population add up to exactly one hundred |
| Selection.SharesAreFair | benchmarks/longmemeval_s/prepare_materials.py:82-86 | a share is its exact quota rounded down or up, the quota itself when whole, and at most the category from one hundred questions on |
| Selection.LargerGetsMore | benchmarks/longmemeval_s/prepare_materials.py:85-86 | a larger category never gets fewer, nor the first in name order of two equal ones |
| Selection.EntryHasRest | benchmarks/longmemeval_s/prepare_materials.py:85-86 | only categories with a remainder get one more |
| Selection.ChosenByCategory | benchmarks/longmemeval_s/prepare_materials.py:87-91 | a question is chosen exactly when its category chooses it, and a category chooses as many as its share |
| Selection.LowestDigestsChosen | benchmarks/longmemeval_s/prepare_materials.py:88-91 | within a category no question left out has a lower digest than a chosen one |
| Selection.RowsAreQuestions | benchmarks/longmemeval_s/prepare_materials.py:92-93 | a row is exactly a chosen question with its position and category |
| Selection.RowsInOrder | benchmarks/longmemeval_s/prepare_materials.py:92-93 | the rows keep the order of the dataset |
| Preparation.EndIsComplete | benchmarks/longmemeval_s/prepare_materials.py:34-62 | when nothing is active, every started item has exactly one row, and either all items were started or a failure that is not a question's own stopped the run |
| Preparation.StopStartsNothing | benchmarks/longmemeval_s/prepare_materials.py:38-45 | after such a failure nothing new starts, and what was started still gets its row |
| Preparation.RunsKeepInv | benchmarks/longmemeval_s/prepare_materials.py:34-62 | at most the configured number of items is active, and each started item is active or has its one row |
| Preparation.Pool.PreparePending | benchmarks/longmemeval_s/prepare_materials.py:34-62 | the loop leaves the pool as the specified rounds do |
| References.EncodeKeeps | integrations/python/ownward_information_use.py:45-58 | encoding keeps the two maps inverse to each other and never changes an entry |
| References.DecodeUndoesEncode | integrations/python/ownward_information_use.py:45-58 | decoding an encoded tree gives it back, with the maps of that moment or any later one, even where an id is spelled like a reference |
| References.EncodedShowsRefs | integrations/python/ownward_information_use.py:45-58 | an encoded answer has a reference in every id position |
| References.EvidenceToolSession.TransformOut | integrations/python/ownward_information_use.py:45-58 | the traversal and the maps after it are those of the specified encoding |
| References.EvidenceToolSession.TransformIn | integrations/python/ownward_information_use.py:45-58 | the traversal is the specified decoding |
| References.EvidenceToolSession.Single | integrations/python/ownward_information_use.py:68-72 | the host is asked with ids, the caller sees references that decode to the host's answer, and earlier references keep their meaning |
| References.EvidenceToolSession.ReadMany | integrations/python/ownward_information_use.py:74-88 | a grouped read is refused as a whole outside its limits; otherwise it answers each reference in order, each sent as the id it was handed out for |
| Recheck.CheckMaterials | integrations/python/ownward_information_use.py:106-124 | one verdict per material, in order, from the answer to its own batch of 64 |
| Recheck.UnchangedWasSaid | integrations/python/ownward_information_use.py:106-124 | a verdict is about the material asked for, and unchanged exactly if the host said so of it in its place |
| Recheck.UseSession.Recheck | integrations/python/ownward_information_use.py:310-338 | the trace becomes the reads found unchanged, pending the last state of what was not, and the notes stay only if every read was unchanged and there is one |
| Recheck.KeptAreUnchanged | integrations/python/ownward_information_use.py:328-331 | an entry is kept exactly if it is a read found unchanged; leads are dropped |
| Recheck.PendingIsLastCheck | integrations/python/ownward_information_use.py:332-337 | a basis is pending exactly when its last check did not find it unchanged; one not checked stays as it was |
| Repair.AcceptedKeepsMeaning | benchmarks/longmemeval_s/organization_repair.py:123-183 | an accepted repair uses allowed pointers only; all else is equal, passages and mentions only grow at the end, every old mention differs at most in a location that an edit names, and link ends stay in their sources |
| Repair.AppendNewGrows | benchmarks/longmemeval_s/organization_repair.py:157-162 | appending keeps what is there, in place, and adds exactly what was missing |
| Repair.ComparisonDecides | benchmarks/longmemeval_s/organization_repair.py:166-173 | after successful edits the closing comparison passes exactly when every old mention has an id and mentions sharing one differ in location only |
| Repair.RepairOne | benchmarks/longmemeval_s/organization_repair.py:136-180 | the edits in place give the specified repair or none |
| Repair.ApplyRepairs | benchmarks/longmemeval_s/organization_repair.py:123-183 | a reply in the wrong order is refused as a whole; otherwise each item's outcome is filed |
| Repair.EachIsSettled | benchmarks/longmemeval_s/organization_repair.py:132-183 | every work item is accepted with its own repair or reported, never both, and nothing else is in either |

## Left out

- AssetStore.Store.Compact: closing the old file and seeking elsewhere than after a replacement are taken to succeed.
- AssetStore.Store.AppendOperationEvent: where a record is written over others, the remains of the last one reached, and a part of the new record followed by what it did not reach, are taken not to parse; a generation record, shorter than any with a receipt, is taken to reach over fewer than 4096 lines.
- AssetStore.Store.Create: the refusals of a version share one error, and a failed switch of the manifest's format is a write not begun.
- AssetStore.Store.Update: as for creation.
- Connector.RunKeepsInv: one process holds a connector's record; two that share a profile and a vault are not modelled.
- AssetStore.Store.Reopen: leaves the tables unspecified when replay fails, since the caller discards the store.
- Submission.Batch.SubmitBatch: the host and the repairing capability are functions of the attempt and the submissions, which within one call are each asked at most once with the same arguments; stops and resumes are in the transition system.
- Preparation.Pool.PreparePending: the waits are given as the rounds that completed; exceptions out of a worker end the run.
- Retrieval.ActiveRetrievalSession.Call: the conversions of odd values to integers and text are parameters; timings and the digest of the arguments are not recorded.
- Passages.PassageSelector: a single index is the range from it to itself; positions count characters, as the information model reports them.
- The manifest's formats themselves, `CreateBatch`, backup and restore, and the directory lock of the asset store.
- File, zip, fsync, HTTP and TLS calls: a write is done, torn, unsynced or not begun; a message is delivered at any later time or never.
- JSON text, SHA-256 and signatures: canonical encodings and digests are injective, but for the body table, whose laws take any digest; and a permit in the network was signed by the source.
- Concatenated keys of the receipt table: two identities may share one, and then the second is refused as reused; the model keeps that.
- The handoff is a transition system on values, its locks being the atomicity of its actions: a host's disk capacity checks, the time limit of an approval, the rights of the managing principal, the permit the destination keeps in its receiver file, and an onward move from an activated destination are left out; an export is taken to be a new archive every time.
- Numbers in JSON are integers and no booleans; a revision that is a boolean is taken as malformed.
- `Retrieval`: `passive_retrieve` and the wording of errors; `Packing`: digests and counts that a unit carries besides its work; `Submission` and `Publication`: token usage and timing.
- `Repair`: reading the rejection's text and the schemas of the output contract, apart from the shape of appended lists and the source a link's end must keep; the rejected organization is taken to have lists of units, mentions and links.
- Retries, streams and deadlines of model calls, model prompts, command parsing, service installation and the user interface.
