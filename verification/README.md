# Verification of the durable and concurrent cores

A Dafny 4.11 model of the parts of this repository whose guarantees have to survive a crash, an I/O error or
any interleaving, with proofs of those guarantees. `dafny verify dfyconfig.toml` checks everything.

## What is modelled

**Memory store** (`src/core/brain/context_compressor.py`). Entry files are authoritative, `MEMORY.md` is a derived
index and a one-record journal names the file a mutation is about to publish. A `Plan` gives every atomic disk
action one of three outcomes chosen by the environment: done, raised (with or without effect), died (with or without effect).
Theorems quantify over all plans, so they cover every crash point and every in-process failure, a failed
rollback included. `MemoryIndex` and `IndexRewrite` hold the row printer, its scanner and the rewriting of the index
text; `MemoryStore` the protocol as functions and as a class proved equal to them; `MemorySafety` and
`MemoryCompleteness` the invariants over whole histories, `MemoryEffects` what each operation does when nothing fails. `Json`, `JsonRoundTrip`, `Frontmatter` and `FrontmatterRoundTrip`
are the version 2 record codec; `JsonGraph` the explicit-stack validator on a heap with sharing and cycles.

**Consolidation** (same file). `Truncation` (bisection on a token estimate in exact sixtieths), `Titles` (compression
markers), `Merge` (duplicate absorption), `Compression` (ranking, budget, accounting) and `Consolidation`
(store-then-delete batch over the memory store).

**Run-state repository** (`src/adapters/file_run_state_repository.py`). `RunState` has staging, publishing, the signed
manifest, pruning and the two-step archive; `RunStateSafety` and `RunStateRetry` the invariant, old-or-new atomicity,
monotone revisions, archives that stay, exactly-once history and retries that get through. `Jsonl` and `JsonPrefix` decide
exactly when a log reads back.

**Task encoding** (`src/core/brain/orchestrator_worker.py`). `TaskBudget`, `TaskBudgetExact`, `TaskEncoding`: the byte budget
charged before encoding equals the encoded length.

**Concurrent lifecycles.** `PluginTransport` (`src/adapters/subprocess_plugin_runtime.py`), `AgentLifecycle`,
`AgentSafety`, `AgentOverlap` and `AgentService` (`src/core/brain/orchestrator.py`), `RoleLease` (`src/core/brain/role_dispatch_service.py`): each locked section
is a method proved equal to a function of the shared fields, and a step relation interleaves those functions over all threads.

**Derived state.** `RoleRegistry` (`src/core/brain/role_registry.py`), `SqliteIndex`
(`src/adapters/sqlite_memory_index.py`, `src/app/memory_api.py`), `CapabilityStore` (`src/adapters/file_capability_store.py`).

`Text`, `Lists`, `Wrappers` and `Faults` hold what several of these share. Text is `seq<char>` over Unicode scalar values;
only `TaskBudget` takes Python text that may hold lone surrogates. A float is identified with the literal its
`repr` prints, a dictionary with its ordered members (in key order where the source prints with `sort_keys`). SHA-256 and
HMAC are injective: a digest is identified with what it digests.

## Where the code falls short of a plain reading

Each is a lemma with the exact condition or a concrete input.

- An index creation cut inside the first header line hides the first stored row for good
  (`MemoryCompleteness.FirstStoreListedIffHeaderWhole`).
- `delete_probe` raises, instead of answering false, when a probe's token or the caller's is not ASCII (`MemoryEffects.ProbeDeleteTakesEffectIff`).
- Storing a record takes over the row of any other live record with the same title, so the index is complete if and only if
  live titles are distinct (`MemoryCompleteness.StoreCompleteIffFreshTitle`).
- Replaying a journalled store is not always byte-for-byte idempotent, as the comment on the recovery says: an appended row keeps the
  trailing blanks a replaced row loses (`MemoryCompleteness.UpdateTwiceIff`).
- An event or decision whose text holds U+0085, U+2028 or U+2029 is written raw and split by `splitlines` on the way back; the
  manifest is already replaced by then, and every later operation refuses (`Jsonl.JsonlReadsBackIff`,
  `RunStateRetry.SeparatorMakesRunUnreadable`, `RunStateSafety.CorruptIsFinal`). Six files that each fit 8 MiB but together exceed
  32 MiB do the same (`RunStateRetry.UnreadableSaveReplacesRun`).
- A record whose importance is an integer beyond the doubles passes validation and is then refused as not lossless
  (`FrontmatterRoundTrip.GuardFiresIff`, `FrontmatterRoundTrip.HugeImportanceIsRefused`).
- Staging directories left by interrupted attempts count against a bound of 8192 entries; beyond it the first save of that run is
  refused for good (`RunStateRetry.RetryGetsThroughIff`, `RunStateRetry.DeathsBlockRun`).
- A shutdown invocation left by an exception between request and answer keeps deferring the end of stream, until something
  terminates the worker or a later shutdown is answered (`PluginTransport.DeferredEofIff`, `PluginTransport.EscapedShutdownLosesEof`).
- A timeout that `join` refuses is taken for a failure of the handler although the handler runs, and a result that cannot be copied
  into the history gives its agent a failure verdict after the success. Through exactly these two, before shutdown, two handlers of one
  name can run (`AgentOverlap.OneHandlerIff`, `AgentOverlap.ExclusiveIff`; inputs in `AgentOverlap.RefusedTimeoutOverlaps`,
  `AgentOverlap.LateVerdictOverlaps` and `AgentOverlap.LateVerdictEndsQuarantine`).
- A name can be taken while its agent's handler runs exactly when the agent is shut down and not quarantined
  (`AgentSafety.NameTakenIff`, `AgentOverlap.ShutdownAllowsEarlyReplacement`); no second handler can start then, so one thread per name still holds.
- A role without registered ancestors keeps repeated list items; with ancestors they are removed (`RoleRegistry.ResolvedIsUnion`).
- One entry with an empty body among the next 32 stops the vector backlog for good, and nothing else does while the provider answers
  (`SqliteIndex.EmptyBodyBlocksBacklog`, `SqliteIndex.CatchUpSucceedsIff`, `SqliteIndex.BacklogEmptiesIff`).
- Rolling back after an upgrade restores the previous selection if and only if the newest revision was selected
  (`CapabilityStore.UpgradeThenRollback`).

## Model

| member | source | states |
|---|---|---|
| MemoryIndex.IndexInline | src/core/brain/context_compressor.py:1356-1378 | the escaping loop computes the per-character escape of the whole title or summary |
| MemoryIndex.InlineInjective | src/core/brain/context_compressor.py:1356-1378 | two texts escape alike only if they are equal |
| MemoryIndex.InlineNoBreak | src/core/brain/context_compressor.py:1356-1378 | escaped text never contains a line separator |
| MemoryIndex.IndexLineTargetsFilename | src/core/brain/context_compressor.py:1381-1409 | the scanner says whether a line is a link row whose target is exactly this filename |
| MemoryIndex.RowNoBreak | src/core/brain/context_compressor.py:1449-1482 | a printed row is one line |
| MemoryIndex.RowScansBack | src/core/brain/context_compressor.py:1356-1482 | a printed row, stripped or not, targets g exactly when g is its filename |
| MemoryIndex.RowMatchesExactly | src/core/brain/context_compressor.py:1449-1482 | a printed row matches another title's prefix exactly when the titles are equal |
| MemoryIndex.RowsEqualIff | src/core/brain/context_compressor.py:1449-1482 | two printed rows are equal exactly when title, file and the first 100 characters of the body are |
| MemoryIndex.PrefixDeterminesTitle | src/core/brain/context_compressor.py:1449-1482 | one line cannot carry the row prefixes of two titles |
| MemoryIndex.FilenameInjective | src/core/brain/context_compressor.py:840-849 | type and id are recovered from the entry filename |
| MemoryIndex.FilenameIsEntryFilename | src/core/brain/context_compressor.py:840-849 | the filename of a valid record passes the journal's filename check |
| IndexRewrite.RenderIndexUpdate | src/core/brain/context_compressor.py:1449-1482 | the loop replaces every matching row or appends one, within the size limit |
| IndexRewrite.RenderIndexRemoval | src/core/brain/context_compressor.py:1484-1494 | the loop keeps exactly the lines that do not target the filename, within the size limit |
| IndexRewrite.UpdateRefinesLines | src/core/brain/context_compressor.py:1449-1482 | on store-written text the update is the row-list update and the text stays closed by a newline |
| IndexRewrite.RemovalRefinesLines | src/core/brain/context_compressor.py:1484-1494 | on store-written text the removal is the row-list removal and the text stays closed by a newline |
| IndexRewrite.UpdateInstallsRow | src/core/brain/context_compressor.py:1449-1482 | after an update the file has a row under its title and no other row targets it or carries its title |
| IndexRewrite.UpdateKeepsUnrelatedRows | src/core/brain/context_compressor.py:1449-1482 | rows of other files and other titles survive an update, and nothing else appears |
| IndexRewrite.RemovalUndoesAppend | src/core/brain/context_compressor.py:1449-1494 | removing a freshly appended row gives back the text |
| IndexRewrite.RemovalNeverTooLarge | src/core/brain/context_compressor.py:1484-1494 | a removal never exceeds the limit the text already met |
| MemoryStore.MemoryStore.Recover | src/core/brain/context_compressor.py:673-736 | recovery rolls the journalled file forward into the index and clears the journal, at every fault as specified |
| MemoryStore.MemoryStore.StoreEntry | src/core/brain/context_compressor.py:944-981 | a store journals, installs, indexes and clears, at every fault as specified |
| MemoryStore.MemoryStore.PublishIndex | src/core/brain/context_compressor.py:1161-1190 | an index write that raises puts the previous entry back or removes the new one |
| MemoryStore.MemoryStore.DeleteEntry | src/core/brain/context_compressor.py:1496-1581 | a deletion journals, unlinks, indexes and clears behind its caller's guards, at every fault as specified |
| MemoryStore.MemoryStore.EnsureIndexFile | src/core/brain/context_compressor.py:911-938 | a missing index is created with its header; a failure may leave any prefix of it |
| MemoryStore.MemoryStore.Execute | src/core/brain/context_compressor.py:660-671 | every mutation first rolls the journal forward and is refused when that fails |
| MemorySafety.RecoverKeepsInv | src/core/brain/context_compressor.py:673-736 | recovery interrupted anywhere keeps the invariant, touches no entry file, and when it completes leaves no journal |
| MemorySafety.StoreKeepsInv | src/core/brain/context_compressor.py:944-981 | a store interrupted anywhere leaves no dangling row for a settled file |
| MemorySafety.DeleteKeepsInv | src/core/brain/context_compressor.py:1496-1536 | a deletion interrupted anywhere leaves no dangling row for a settled file |
| MemorySafety.RunKeepsInv | src/core/brain/context_compressor.py:660-736 | the same for every history of calls, failures and crashes |
| MemorySafety.NoDanglingRow | src/core/brain/context_compressor.py:673-681 | from an empty directory, a row targeting any file but the journalled one has that file |
| MemoryCompleteness.RunKeepsGood | src/core/brain/context_compressor.py:944-981 | with distinct live titles and a whole header line, every history also keeps a row for every settled file |
| MemoryCompleteness.EverySettledFileHasRow | src/core/brain/context_compressor.py:673-681 | from an empty directory, every file but the journalled one has its row under its title |
| MemoryCompleteness.CompletedRecoverySettlesEverything | src/core/brain/context_compressor.py:673-736 | after any number of interrupted recoveries a completed one leaves no journal, both directions for every filename, and the entry files as they were |
| MemoryCompleteness.StoreCompleteIffFreshTitle | src/core/brain/context_compressor.py:1449-1482 | a completed store leaves the index complete if and only if no other live record has the title |
| MemoryCompleteness.FirstStoreListedIffHeaderWhole | src/core/brain/context_compressor.py:911-925 | after an interrupted header creation the first store is listed if and only if the cut was not inside the header line |
| MemoryCompleteness.UpdateTwiceIff | src/core/brain/context_compressor.py:673-681 | replaying an update changes nothing if and only if a row was replaced or does not end in white space; a third pass never changes anything |
| MemoryEffects.StoreTakesEffectIff | src/core/brain/context_compressor.py:944-981 | with nothing failing a store succeeds exactly when the name is valid and the index text fits; exactly its file changes and, under a whole header, it is listed; otherwise no file changes |
| MemoryEffects.DeleteTakesEffectIff | src/core/brain/context_compressor.py:1705-1780 | with nothing failing `delete` removes exactly the file and its rows if and only if the file is readable and holds a record without a cleanup token; otherwise it answers false and changes nothing |
| MemoryEffects.ProbeDeleteTakesEffectIff | src/core/brain/context_compressor.py:1583-1703 | `delete_probe` likewise if and only if the title has the reserved prefix and the token is the recorded one, non-empty and ASCII; it raises exactly when a probe comparison meets text outside ASCII |
| MemoryEffects.RecoveryCompletesIff | src/core/brain/context_compressor.py:673-736 | with nothing failing recovery completes exactly when the row it has to write fits |
| MemoryEffects.RolledBackMutationKeepsFiles | src/core/brain/context_compressor.py:1161-1190 | an index write that raises and is rolled back leaves every entry file as it was |
| JsonRoundTrip.RoundTrip | src/core/brain/context_compressor.py:1343-1349 | parsing what the JSON printer wrote gives the value back, in both escape modes (RFC 8259) |
| FrontmatterRoundTrip.TextRoundTrip | src/core/brain/context_compressor.py:1321-1341 | a header text field decodes to the same text, whatever quotes, colons or separators it holds |
| FrontmatterRoundTrip.RawRoundTrip | src/core/brain/context_compressor.py:1901-1946 | header fields and body are split back exactly, even when the body holds fences or starts with newlines |
| FrontmatterRoundTrip.IdentityReads | src/core/brain/context_compressor.py:1071-1080 | the header of a valid record reads back its id, title, type and the first 100 characters of its body |
| FrontmatterRoundTrip.EntryRoundTrip | src/core/brain/context_compressor.py:2092-2185 | the payload of a valid record parses back to it under its filename if and only if its importance is within the doubles |
| FrontmatterRoundTrip.GuardFiresIff | src/core/brain/context_compressor.py:1060-1128 | the round-trip guard fires exactly on a valid record that fits and has an integer importance beyond the doubles |
| FrontmatterRoundTrip.HugeImportanceIsRefused | src/core/brain/context_compressor.py:2145-2147 | a valid small record with importance 10^400 is refused as not lossless |
| FrontmatterRoundTrip.PayloadInjective | src/core/brain/context_compressor.py:1060-1128 | a stored file determines its record |
| JsonGraph.ValidateJsonValue | src/core/brain/context_compressor.py:991-1022 | the explicit-stack loop ends on every object graph and accepts exactly the printable ones |
| JsonGraph.AcceptableIffPrintable | src/core/brain/context_compressor.py:991-1022 | bounded descent accepts a value exactly when every path from it is legal and never repeats a container |
| Truncation.TruncatedBody | src/core/brain/context_compressor.py:444-476 | bisection keeps the largest head and tail whose estimate fits, or the marker alone when it already fills the budget |
| Truncation.TruncateContent | src/core/brain/context_compressor.py:444-476 | bisection and linear search choose the same body |
| Truncation.BuildMonotone | src/core/brain/context_compressor.py:445-463 | the token estimate never falls as more of the body is kept |
| Truncation.WeightIsWeightedCount | src/core/brain/context_compressor.py:305-328 | the estimate's counts are a sum of per-character shares |
| Titles.StripMarkers | src/core/brain/context_compressor.py:87-104 | the sweeping loop removes exactly the trailing run of markers |
| Titles.BaseTitleOfMarked | src/core/brain/context_compressor.py:87-110 | marking a title never changes its base title |
| Titles.MarkingNeverStacks | src/core/brain/context_compressor.py:107-110 | only the last marker shows after repeated marking |
| Titles.SameBaseIff | src/core/brain/context_compressor.py:87-104 | two titles collide exactly when they extend one unmarked text by markers alone |
| Merge.MergeDuplicates | src/core/brain/context_compressor.py:504-528 | the loop with its position table folds each record into the first one of its base title |
| Merge.AbsorbShape | src/core/brain/context_compressor.py:530-593 | the absorbing record carries both bodies, both tag sets and the base title, keeps one of the two files, and stays within the limit when it appends |
| Merge.AbsorbKeepsReadMost | src/core/brain/context_compressor.py:530-593 | the record read more often keeps its identity, the earlier on a tie; the other body is appended unless empty or contained, and absorption is refused exactly when that is too long |
| Merge.AbsorbTakesExtremes | src/core/brain/context_compressor.py:530-593 | earliest creation, latest access, most reads and highest importance survive |
| Merge.AbsorbRecordsSources | src/core/brain/context_compressor.py:559-605 | absorbed ids are recorded after the survivor's own, at most 64 |
| Merge.MergeIsLossless | src/core/brain/context_compressor.py:504-528 | each input's body, tags and base title are carried by some output |
| Merge.MergeIsBounded | src/core/brain/context_compressor.py:530-560 | an output body longer than 8192 characters is some input's own |
| Merge.MergeKeepsFiles | src/core/brain/context_compressor.py:504-528 | outputs keep the files of inputs, each at most once |
| Merge.OwnFileCovers | src/core/brain/context_compressor.py:504-528 | the output in an input's own file carries that input |
| Merge.SameCountMeansUnchanged | src/core/brain/context_compressor.py:504-528 | a pass that keeps the count changed nothing |
| Merge.PassesConverge | src/core/brain/context_compressor.py:504-528 | n records reach a fixed point in at most n passes |
| Merge.PassesAreLossless | src/core/brain/context_compressor.py:504-528 | no number of passes loses a body, a tag or a base title |
| Merge.FixedPointIff | src/core/brain/context_compressor.py:504-528 | a list is a fixed point exactly when no record fits into the first earlier one of its base title |
| Compression.RankedIsStableSort | src/core/brain/context_compressor.py:381 | the ranking is descending, a permutation, and stable |
| Compression.Compress | src/core/brain/context_compressor.py:371-417 | the budget loop keeps, truncates, summarises or prunes each record in rank order and counts it |
| Compression.CompressionBalances | src/core/brain/context_compressor.py:371-417 | every record is counted once and the tokens saved are exactly those no longer held before merging |
| Compression.WholeWithinBudget | src/core/brain/context_compressor.py:391-411 | records kept whole because they fit never exceed the budget together |
| Compression.TransformsKeepRecord | src/core/brain/context_compressor.py:429-502 | truncating or summarising keeps id, type, base title, tags, times and reads |
| Compression.FateAtRank | src/core/brain/context_compressor.py:386-421 | a record is dropped exactly when it is forgotten and below 0.5, or has no room and is below 0.3; it passes unchanged when it fits or is important and short; an important one is truncated, any other summarised |
| Compression.ImportantRecordsSurvive | src/core/brain/context_compressor.py:386-421 | a record of importance 0.7 or more is always carried by a survivor, whole or cut to 500 tokens |
| Compression.TruncationKeepsOrigin | src/core/brain/context_compressor.py:429-442 | a truncated record keeps importance and every metadata key but its mark, and names its origin |
| Compression.SummaryKeepsOrigin | src/core/brain/context_compressor.py:478-502 | a summary records the original length and its origin, scales the importance and keeps every other metadata key |
| Compression.SurvivorsCoverKept | src/core/brain/context_compressor.py:371-417 | every body that passes the budget loop is carried by a survivor, and by the one in its own file if there is one |
| Consolidation.Consolidate | src/core/brain/context_compressor.py:2390-2429 | compress, store every survivor, then delete the rest, stopping at the first failure |
| Consolidation.InterruptedConsolidationKeepsBody | src/core/brain/context_compressor.py:2410-2427 | interrupted at any step, a body kept unmodified is still part of some file |
| Consolidation.CompletedConsolidationIsExact | src/core/brain/context_compressor.py:2410-2427 | when every step succeeds the listed files are exactly the survivors', and others are untouched |
| Consolidation.HistoryKeepsInv | src/core/brain/context_compressor.py:2385-2429 | histories that include consolidations never leave a dangling row for a settled file |
| JsonPrefix.CutObjectIsRefused | src/adapters/file_run_state_repository.py:1157-1181 | the printed text of an object stops parsing as soon as any of its end is cut off |
| Jsonl.JsonlReadsBackIff | src/adapters/file_run_state_repository.py:1131-1181 | a log reads back as its records when none holds U+0085, U+2028 or U+2029, and is refused otherwise |
| RunState.FileRunStateRepository.StageFiles | src/adapters/file_run_state_repository.py:1036-1044 | six files are written one by one into staging, stopping at the first failure |
| RunState.FileRunStateRepository.PublishRevision | src/adapters/file_run_state_repository.py:1027-1084 | six staged files are renamed into place together, or an existing directory is compared |
| RunState.FileRunStateRepository.PrunedRevisions | src/adapters/file_run_state_repository.py:874-977 | every other revision stays, loses files or goes, the kept one is untouched |
| RunState.FileRunStateRepository.SaveState | src/adapters/file_run_state_repository.py:241-359 | the save's branches, retries included, at every fault as specified |
| RunState.FileRunStateRepository.InstallRevision | src/adapters/file_run_state_repository.py:309-359 | publish, recheck, replace the manifest, read back, prune |
| RunState.FileRunStateRepository.ArchiveActive | src/adapters/file_run_state_repository.py:501-534 | the manifest is copied before the active one is removed, at every fault as specified |
| RunStateSafety.PublishEffect | src/adapters/file_run_state_repository.py:1027-1084 | a revision directory appears only whole and an existing one never changes |
| RunStateSafety.LoadExact | src/adapters/file_run_state_repository.py:371-499 | loading gives exactly the run the manifest was written for, or refuses exactly when it cannot be read back |
| RunStateSafety.SaveEffect | src/adapters/file_run_state_repository.py:241-359 | a save interrupted anywhere leaves the old run or exactly the new one, and answers only what is then loaded |
| RunStateSafety.ArchiveEffect | src/adapters/file_run_state_repository.py:501-534 | archiving interrupted anywhere leaves the run active and unchanged, or inactive under its own archived manifest |
| RunStateSafety.RunKeepsInv | src/adapters/file_run_state_repository.py:371-499 | at every point of every history the active and every archived manifest names a complete revision directory |
| RunStateSafety.RevisionOnlyGrows | src/adapters/file_run_state_repository.py:262-285 | within a run the active revision only grows until the run is archived |
| RunStateSafety.ArchivedStaysArchived | src/adapters/file_run_state_repository.py:296-307 | an archived run never becomes active again and its archive never changes |
| RunStateSafety.PendingArchiveAgrees | src/adapters/file_run_state_repository.py:513-532 | an archive beside an active manifest is that manifest, so the conflict refusal is never reached |
| RunStateSafety.DifferentRequestRefused | src/adapters/file_run_state_repository.py:1032-1034 | a different request at a published unreferenced revision is refused and leaves it alone |
| RunStateSafety.SaveLoadsBackIff | src/adapters/file_run_state_repository.py:349-359 | an installed manifest loads if and only if the logs are line safe and the six files fit together |
| RunStateSafety.CorruptIsFinal | src/adapters/file_run_state_repository.py:251-255 | once the active run cannot be read every later operation changes nothing |
| RunStateRetry.AcknowledgedOnce | src/adapters/file_run_state_repository.py:266-285 | after any interrupted attempts the acknowledged one has applied the request exactly once |
| RunStateRetry.ExactlyOnceHistory | src/adapters/file_run_state_repository.py:251-294 | over a run of retried saves the stored events and decisions are each request's records, once and in order |
| RunStateRetry.HistoryKeepsDocuments | src/adapters/file_run_state_repository.py:285-294 | the loaded artifacts and verification are those of the last request that gave any, the resume is the last request's |
| RunStateRetry.FirstSaveIsRequest | src/adapters/file_run_state_repository.py:291-316 | after an acknowledged first save all six parts of the loaded run are the request's own |
| RunStateRetry.SaveAcceptedIff | src/adapters/file_run_state_repository.py:251-307 | without faults a save is accepted exactly when it repeats the active request or may take its place, fits, reads back and finds its revision free or its own |
| RunStateRetry.AcceptedSavePrunes | src/adapters/file_run_state_repository.py:874-898 | an accepted save in which nothing fails leaves its own revision as the only one of the run |
| RunStateRetry.ArchiveTakesEffectIff | src/adapters/file_run_state_repository.py:501-534 | without faults archiving moves exactly a readable active run of the expected id under its own manifest, answers when nothing is active, and is refused otherwise |
| RunStateRetry.RetryGetsThroughIff | src/adapters/file_run_state_repository.py:784-817 | after failed attempts a request acceptable before them is accepted with the same answer if and only if a manifest is active or at most 8192 entries are left over |
| RunStateRetry.EntriesGrowSlowly | src/adapters/file_run_state_repository.py:1027-1065 | an attempt leaves at most one more entry |
| RunStateRetry.DeathsBlockRun | src/adapters/file_run_state_repository.py:784-799 | after 8193 deaths in a first save every later save of that run is refused and changes nothing |
| RunStateRetry.InstallCompletesIff | src/adapters/file_run_state_repository.py:309-359 | without faults a newer revision gets through exactly when it fits, reads back, and its directory is free or its own |
| RunStateRetry.UnreadableSaveReplacesRun | src/adapters/file_run_state_repository.py:349-354 | a request that cannot be read back is refused only after it replaced the run |
| RunStateRetry.SeparatorMakesRunUnreadable | src/adapters/file_run_state_repository.py:1131-1181 | one event holding U+2028 makes the first save leave an unreadable repository |
| TaskBudget.JsonStringByteLength | src/core/brain/orchestrator_worker.py:47-75 | the loop gives the quoted UTF-8 length or refuses surrogates and oversized text |
| TaskBudget.NormalizeValue | src/core/brain/orchestrator_worker.py:83-191 | the traversal normalises and charges as specified, leaving the budget at the charged total |
| TaskBudget.EncodeBoundedJson | src/core/brain/orchestrator_worker.py:194-217 | the streaming encoder joins the chunks unless their UTF-8 length exceeds the limit |
| TaskBudget.EncodeTaskStream | src/core/brain/orchestrator_worker.py:288-338 | encoding a task is the specified encoding however the encoder cuts its output |
| TaskBudgetExact.NormalizeExact | src/core/brain/orchestrator_worker.py:83-191 | a structurally safe value is charged exactly its printed UTF-8 length; an unsafe one is refused |
| TaskEncoding.FrameExact | src/core/brain/orchestrator_worker.py:261-285 | the frame charge plus the metadata length is the length of the whole object |
| TaskEncoding.CanonLength | src/core/brain/orchestrator_worker.py:194-217 | sorting keys does not change the encoded length |
| TaskEncoding.AcceptedIffEncodingFits | src/core/brain/orchestrator_worker.py:261-338 | a task is accepted if and only if it is safe and its encoding is at most 32768 bytes; the encoder never rejects afterwards |
| TaskEncoding.AcceptedByFieldsIff | src/core/brain/orchestrator_worker.py:288-338 | accepted exactly are tasks with a non-empty id, an identifier as agent, a prompt with more than white space, a timeout of 1 to 300, a priority of 0 to 3, safe metadata, and an encoding of at most 32768 bytes |
| TaskEncoding.CanonKeepsLookups | src/core/brain/orchestrator_worker.py:194-217 | the sorted object answers every key as before |
| TaskEncoding.ChildReadsEncodedTask | src/core/brain/orchestrator_worker.py:341-395 | the child accepts what the parent encodes and reads the same task |
| TaskEncoding.ChildHoldsTask | src/core/brain/orchestrator_worker.py:288-395 | the child holds the parent's texts and numbers, and under each metadata key the value that reads as the parent's up to nested key order |
| TaskEncoding.NormReadsBack | src/core/brain/orchestrator_worker.py:83-191 | normalising changes no value: read as Python again it is the value itself |
| PluginTransport.SubprocessPluginRuntime.ObserveTransportFault | src/adapters/subprocess_plugin_runtime.py:657-680 | the first fault is recorded, a crash before hello as a failed handshake, an expected end of stream deferred |
| PluginTransport.SubprocessPluginRuntime.CompleteShutdownResponse | src/adapters/subprocess_plugin_runtime.py:697-713 | a failed shutdown turns a deferred end of stream into the fault |
| PluginTransport.SubprocessPluginRuntime.ScheduleTransportContainment | src/adapters/subprocess_plugin_runtime.py:726-745 | at most one containment thread, none once termination started |
| PluginTransport.StepIsFinal | src/adapters/subprocess_plugin_runtime.py:288-295 | one step never replaces a fault or ends termination; only a start without fault or termination makes the generation usable |
| PluginTransport.FaultRecordedIff | src/adapters/subprocess_plugin_runtime.py:657-680 | in every reachable state an observation records a fault exactly when the worker is ready, not terminating, without a fault and no shutdown waits for the end of stream, operation active or not; under its own code, or as a failed handshake for a crash before hello |
| PluginTransport.ObservedFaultTerminates | src/adapters/subprocess_plugin_runtime.py:407-415 | such an observation has led to termination under its code once the operation is over and every thread has run its remaining steps |
| PluginTransport.FailedResponseRecords | src/adapters/subprocess_plugin_runtime.py:697-713 | a shutdown answered with failure turns the end of stream it held back into a crash |
| PluginTransport.StartUsableIff | src/adapters/subprocess_plugin_runtime.py:286-295 | a start makes the generation usable exactly when no fault came first |
| PluginTransport.FirstFaultIsFinal | src/adapters/subprocess_plugin_runtime.py:657-680 | in every interleaving the first fault stays, termination stays, and neither is followed by a usable generation |
| PluginTransport.NoLostWakeUp | src/adapters/subprocess_plugin_runtime.py:407-415 | with no operation or scheduling under way a recorded fault implies termination started or a running containment thread |
| PluginTransport.EveryFaultIsContained | src/adapters/subprocess_plugin_runtime.py:726-753 | whichever thread starts fail, once all threads run their remaining steps a fault has led to termination |
| PluginTransport.DeferredEofIff | src/adapters/subprocess_plugin_runtime.py:697-713 | between operations an end of stream is expected exactly after a request an exception carried off, and deferred exactly when the reader also reported it and termination has not started |
| PluginTransport.EscapedShutdownLosesEof | src/adapters/subprocess_plugin_runtime.py:337-396 | a concrete run where such an exception leaves a dead worker usable and unnoticed |
| AgentLifecycle.RegisteredAgent.TryAssignTask | src/core/brain/orchestrator.py:180-189 | assignment reaps first and succeeds only from idle |
| AgentLifecycle.RegisteredAgent.QuarantineThread | src/core/brain/orchestrator.py:246-254 | a timed-out handler keeps the agent out of service |
| AgentLifecycle.RegisteredAgent.ReapFinishedExecution | src/core/brain/orchestrator.py:309-331 | quarantine is lifted only after the thread ended |
| AgentLifecycle.RegisteredAgent.RecoverFromError | src/core/brain/orchestrator.py:235-244 | only a recoverable error returns to idle |
| AgentSafety.RunKeepsInv | src/core/brain/orchestrator.py:175-331 | every interleaving without a harmful event keeps the invariant |
| AgentSafety.OneHandlerPerName | src/core/brain/orchestrator.py:963-989 | at most one handler thread per agent name is alive in every interleaving with no harmful event before the shutdown, and with any event after it |
| AgentOverlap.OneHandlerIff | src/core/brain/orchestrator.py:591-656 | one handler per name survives every ordinary continuation of an event exactly when the event is not a join raising on a live handler or a late failure verdict on a busy or quarantined agent, or comes after shutdown |
| AgentOverlap.ExclusiveIff | src/core/brain/orchestrator.py:547-656 | a history is free of such events before the shutdown exactly when no prefix of it can be continued to two handlers of one name |
| AgentOverlap.RefusedTimeoutOverlaps | src/core/brain/orchestrator.py:979-981 | one task whose timeout `join` refuses, then recovery and dispatch: two handlers run |
| AgentOverlap.LateVerdictOverlaps | src/core/brain/orchestrator.py:592-645 | a result that cannot be recorded fails an agent that runs its next task: two handlers run |
| AgentOverlap.LateVerdictEndsQuarantine | src/core/brain/orchestrator.py:592-645 | the same verdict makes a quarantined agent recoverable while its handler lives |
| AgentSafety.AcceptedMeansAlone | src/core/brain/orchestrator.py:547-578 | in every state reached without a harmful event, a dispatch is accepted only when no earlier handler of that name is alive and none is pending |
| AgentService.AcceptedIff | src/core/brain/orchestrator.py:551-578 | a dispatch is accepted exactly when the orchestrator serves, the name is registered and its agent is idle or quarantined on an ended handler |
| AgentService.RegisterIff | src/core/brain/orchestrator.py:417-431 | registering puts a new idle agent under the name exactly when the name is unknown or its agent neither busy nor quarantined on a live handler |
| AgentService.UnregisterIff | src/core/brain/orchestrator.py:501-515 | unregistering takes the name away exactly then |
| AgentService.RecoverIff | src/core/brain/orchestrator.py:235-244 | recovery returns an agent in error to idle exactly when the error is recoverable or its quarantined handler has ended |
| AgentService.TaskEnds | src/core/brain/orchestrator.py:591-656 | a handler that ends in time leaves its agent idle with one more success, or in error with one more error |
| AgentService.TaskTimesOut | src/core/brain/orchestrator.py:613-626 | a handler that outlives its timeout leaves its agent quarantined on it, and idle once it has ended |
| AgentSafety.QuarantineHolds | src/core/brain/orchestrator.py:246-254 | while its thread lives a quarantined agent stays in place, out of service and without dispatch through every event that is not harmful |
| AgentSafety.QuarantineOutlastsHistory | src/core/brain/orchestrator.py:309-331 | the same over any history without a harmful event in which the thread has not ended |
| AgentSafety.NameTakenIff | src/core/brain/orchestrator.py:411-431 | a name is taken from an agent with a live handler exactly by registering or unregistering it when the agent is shut down and not quarantined |
| AgentSafety.ReplacedMeansFinished | src/core/brain/orchestrator.py:411-431 | before shutdown a name is taken only when its handler thread has ended |
| AgentSafety.ShutdownIsAbsorbing | src/core/brain/orchestrator.py:949-957 | shutdown of an agent and of the orchestrator is final and admits no new dispatch |
| AgentService.ShutdownStops | src/core/brain/orchestrator.py:949-957 | shutdown stops every agent registered when it begins |
| AgentOverlap.ShutdownAllowsEarlyReplacement | src/core/brain/orchestrator.py:411-431 | a concrete run where a name is taken after shutdown while its handler still runs |
| RoleLease.RoleDispatchService.ReserveRole | src/core/brain/role_dispatch_service.py:169-186 | a lease is taken over only from a task that is not pending and is unknown or confirmed terminal |
| RoleLease.RoleDispatchService.ReleaseTerminalLease | src/core/brain/role_dispatch_service.py:188-194 | only a confirmed terminal record releases, and only its own lease |
| RoleLease.RoleDispatchService.SubmissionFailed | src/core/brain/role_dispatch_service.py:100-112 | a failed submission gives up the lease only when the supervisor knows nothing of the task |
| RoleLease.OneUnconfirmedTaskPerRole | src/core/brain/role_dispatch_service.py:92-121 | in every interleaving a role has at most one unconfirmed task, and the lease names it |
| RoleLease.BusyIff | src/core/brain/role_dispatch_service.py:169-186 | a role is refused as busy exactly while one of its tasks is being submitted or unconfirmed |
| RoleLease.FinishedRoleIsFree | src/core/brain/role_dispatch_service.py:169-194 | no lease is leaked: when all its tasks are over the role can be reserved |
| RoleRegistry.RoleRegistry.ValidateAcyclicRegistration | src/core/brain/role_registry.py:80-94 | the walk accepts exactly the registrations that keep inheritance acyclic |
| RoleRegistry.RoleRegistry.Register | src/core/brain/role_registry.py:72-78 | a duplicate or cycle-closing registration is refused and changes nothing |
| RoleRegistry.RoleRegistry.ResolveInheritance | src/core/brain/role_registry.py:114-138 | resolution ends and folds the whole chain of registered ancestors from the root down |
| RoleRegistry.CycleIff | src/core/brain/role_registry.py:80-94 | a registration closes a cycle exactly when following parents from its own parent comes back to it |
| RoleRegistry.AlwaysAcyclic | src/core/brain/role_registry.py:72-98 | inheritance stays acyclic under any order of register and unregister, late parents included, when each addition is decided by following parents alone |
| RoleRegistry.ResolvedIsUnion | src/core/brain/role_registry.py:124-138 | lists are the ordered duplicate-free union along the chain, the priority its maximum, presentation the child's own |
| RoleRegistry.NearestMetadataWins | src/core/brain/role_registry.py:124-138 | a metadata key resolves to the nearest profile that has it |
| RoleRegistry.ChainUnique | src/core/brain/role_registry.py:114-122 | the ancestor chain is determined by the registry |
| SqliteIndex.SqliteMemoryIndex.Reconcile | src/adapters/sqlite_memory_index.py:498-584 | the snapshot replaces the table in one transaction, or is skipped on an equal fingerprint, or refused |
| SqliteIndex.RowRoundTrip | src/adapters/sqlite_memory_index.py:609-640 | a stored row reads back as the row that was stored |
| SqliteIndex.ReconcileKeepsInv | src/adapters/sqlite_memory_index.py:513-584 | the stored fingerprint is absent or that of the table, whatever fails |
| SqliteIndex.ReconcileAgrees | src/adapters/sqlite_memory_index.py:498-606 | after every successful reconcile, skipped or not, the index reads back as the id-sorted snapshot |
| SqliteIndex.SnapshotIsIndexed | src/adapters/sqlite_memory_index.py:223-267 | after a successful reconcile the fetched rows are ordered by id, as many as the entries, and each entry has a row that mirrors it field by field |
| SqliteIndex.FetchFirst | src/adapters/sqlite_memory_index.py:586-606 | a bounded read gives the first rows in id order |
| SqliteIndex.ReconcileSucceedsIff | src/adapters/sqlite_memory_index.py:498-513 | a reconcile in which nothing fails succeeds exactly when the snapshot has at most 8192 entries, distinct ids and every field within its bound |
| SqliteIndex.VectorsFollowEntries | src/adapters/sqlite_memory_index.py:572-575 | a rewriting reconcile keeps exactly the vectors of the entries still there |
| SqliteIndex.SqliteMemoryIndex.VectorBacklog | src/adapters/sqlite_memory_index.py:684-707 | the rows without a vector of the model for their current content, in order |
| SqliteIndex.SqliteMemoryIndex.StoreVectorBatch | src/adapters/sqlite_memory_index.py:709-764 | a batch is stored whole or refused |
| SqliteIndex.SearchExact | src/adapters/sqlite_memory_index.py:766-819 | hits are exactly the rows whose vector is for their current content and the query's dimensionality, best first, ties by id |
| SqliteIndex.SqliteMemoryIndex.CatchUpBacklog | src/app/memory_api.py:270-281 | each request embeds and stores at most 32 backlog rows |
| SqliteIndex.CatchUpShrinksBacklog | src/app/memory_api.py:270-281 | a successful request removes exactly the first min(32, size) rows of the backlog |
| SqliteIndex.CatchUpStoresOwnVectors | src/app/memory_api.py:270-281 | each row of the batch gets the vector of its own text, cut to 8192 characters, under its current content; other vectors stay |
| SqliteIndex.CatchUpSucceedsIff | src/app/memory_api.py:270-281 | with a provider that answers, a request embeds its batch exactly when none of the bodies in it is empty |
| SqliteIndex.BacklogEmptiesIff | src/app/memory_api.py:270-281 | k requests empty the backlog exactly when 32 k reaches its size and none of its bodies is empty |
| SqliteIndex.EmptyBodyBlocksBacklog | src/core/contracts/embedding_provider.py:79-98 | an empty body among the next 32 rows makes every request fail without progress |
| CapabilityStore.RevisionPathInjective | src/adapters/file_capability_store.py:294-304 | distinct ids or revisions never share a directory |
| CapabilityStore.FileCapabilityStore.Install | src/adapters/file_capability_store.py:392-425 | install publishes before the index names the revision, or verifies what is already there |
| CapabilityStore.FileCapabilityStore.Upgrade | src/adapters/file_capability_store.py:427-469 | upgrade appends and selects a new revision, up to 64 |
| CapabilityStore.FileCapabilityStore.Rollback | src/adapters/file_capability_store.py:471-520 | rollback selects a verified listed revision |
| CapabilityStore.FileCapabilityStore.Remove | src/adapters/file_capability_store.py:522-592 | remove moves the directory aside, rewrites the index, and restores the directory when the write raises |
| CapabilityStore.RunKeepsInv | src/adapters/file_capability_store.py:392-592 | every indexed capability keeps 1 to 64 distinct revisions containing the selected one, each with its own directory |
| CapabilityStore.RemoveKeepsInvIff | src/adapters/file_capability_store.py:573-586 | a removal keeps that exactly unless the process dies between the move and the index write |
| CapabilityStore.ReducedOK | src/adapters/file_capability_store.py:545-583 | removing a revision leaves a sound entry of the other listed ones, moves the selection only if it was selected, and ends the capability exactly with its last revision |
| CapabilityStore.ReducedCut | src/adapters/file_capability_store.py:547-583 | the list loses exactly that revision; a removed selection falls back to its predecessor, or to the next when it was the oldest |
| CapabilityStore.InstallTakesEffectIff | src/adapters/file_capability_store.py:392-425 | a new capability is installed with its one revision; the same package again is answered without a change; anything else is refused without one |
| CapabilityStore.UpgradeTakesEffectIff | src/adapters/file_capability_store.py:427-469 | a new revision is appended and selected, up to 64; a listed one is answered without a change; anything else is refused without one |
| CapabilityStore.NamedRollbackIff | src/adapters/file_capability_store.py:471-520 | a rollback to a listed revision selects it and answers it; any other is refused |
| CapabilityStore.RemoveTakesEffect | src/adapters/file_capability_store.py:522-592 | a removal answers the revision and takes exactly its directory and its place in the list |
| CapabilityStore.DefaultRollbackDescends | src/adapters/file_capability_store.py:488-517 | default rollback selects the previous revision and is refused exactly at the oldest |
| CapabilityStore.RollbacksReachOldest | src/adapters/file_capability_store.py:488-517 | repeated default rollback strictly descends and then stays refused |
| CapabilityStore.UpgradeThenRollback | src/adapters/file_capability_store.py:427-520 | upgrade then rollback restores the selection if and only if the newest revision was selected |
| CapabilityStore.PathsAreConsistent | src/adapters/file_capability_store.py:727-748 | the conflict loops accept exactly the archives whose members form one tree |

## Left out

- CapabilityStore.RunKeepsInv: excludes a process death inside `remove` between the move and the index write; `RemoveKeepsInvIff` shows that this window breaks it.
- MemoryCompleteness.RunKeepsGood: asks for distinct live titles and an uncut header line; `StoreCompleteIffFreshTitle` and `FirstStoreListedIffHeaderWhole` show both are needed.
- Compression.Compress: float scaling of an importance, the age of a timestamp and the choice of summary sentences come from the environment.
- SqliteIndex.SearchExact: the cosine of unit float32 vectors is an arbitrary score; normalisation and rounding are not modelled.
- SqliteIndex.ReconcileAgrees: an integer importance is kept as the literal of the same value; from 2^53 on the float the table returns may differ, and from 10^16 on it prints with an exponent.
- FrontmatterRoundTrip.EntryRoundTrip: a float literal stands for a finite float, and interpreters that refuse to print integers of more than 4300 digits would refuse such records too.
- Jsonl.JsonlReadsBackIff: records holding NaN or infinities, which the log prints and reads back, are not represented.
- RunStateSafety.SaveLoadsBackIff: the same for requests with such records.
- TaskBudget.NormalizeValue: values are trees; a cyclic container, which the source refuses before its depth limit would, is not represented.
- AgentSafety.RunKeepsInv: a handler that raises the orchestrator's private timeout exception itself, and interrupts delivered to the dispatching thread, are not modelled.
- Truncation.TruncatedBody: the estimate is in exact sixtieths, not in floats; the halving loop after the bisection never runs and is not modelled.
- Memory store: locks are one exclusive lock; descriptor, identity and reparse-point checks, directory flushes and the 8 MiB entry read limit appear only as faults or as `readable`.
- Memory store: stray temporary files and their purge, legacy version 1 records, newline normalisation of a foreign index, read-only loading and its bounds.
- Memory store: recursion limits and digit limits of Python's JSON, NaN constants, and lone surrogates in records.
- Run-state repository: manifests in the older layout without revision directories, secret redaction, key handling, state schema validation, the size of the manifest itself.
- Run-state repository: an indented document is identified with its value; only its size is computed from its text.
- Plugin runtime: spawning, sandboxes, deadlines, the output queue, process signalling and the broker; only the transport-fault state is modelled.
- Orchestrator: child-process agents, the content of the result history, statistics, backoff; a retry is its resets and dispatches as separate events.
- Role dispatch: record decoding and batch routing; the supervisor is an arbitrary environment that keeps a record until termination is confirmed.
- Role registry: listing by capability, JSON import and export, prompt rendering.
- SQLite index: full-text search, schema upgrades, read-only mode, lexical search.
- Capability store: ZIP decoding, manifest validation, rebuilding, the 4 MiB bound on reading the index; archive names arrive normalised and case-folded.
- HTTP interfaces, user interface, LLM compression, memory import and export: no deep state.
