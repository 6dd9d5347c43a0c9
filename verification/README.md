# Cairn: a verified model of its store, history and transports

Cairn is a clipboard manager. This project models the parts of it that carry state across calls and
crashes, and proves what they promise:

- the append-only sealed log (`LogFile`, `Records`, `LogStore`, `StoreRuns`, `StoreObject`): torn tails,
  hash chain, record binding, compaction, tamper evidence;
- the event-sourced history over it (`EventLog`, `HistoryState`, `History`, `HistorySteps`, `HistoryRuns`): the fast
  in-memory state is the replay of the log through every call, failed append, lock and reload; blobs are
  reference counted; crashes at any point recover;
- the chunked transports in both directions (`Chunker`, `Reassembler`, `ChangeAssembly`, `ChangeSteps`,
  `ChangeAssembler`, `WriteUpload`, `WriteTransfer`) and the line splitter under them (`Framing`);
- the kernels they use (`Retention`, `SearchIndex`, `Masking`, `ItemIds`, `Sorting`).

Components that update themselves in place are classes with the source's fields; each of their methods
is proved against a function of the old state or against the invariant it keeps, and the theorems about
whole runs are proved over those. A log line is a datatype that records what it was sealed under, the
chain hash is a free constructor, and the disk is the log, an optional torn tail and a set of blobs. The
ghost trace `disks` of a store collects every state a crash could leave behind. A load is a begin and an
end, so that locking can fall between them.

Some promises turned out to hold only under a condition. Each is stated with its exact condition:

- an append of an empty tag succeeds and makes the log unreadable (`LogStore.SealedLinesReadBack`, with
  the input `LogStore.EmptyTagBreaksTheLog`);
- re-adding a live id lets compaction reorder items (`EventLog.CompactionKeepsOrderIff`, with the log
  `EventLog.ReAddedItemChangesPlace`);
- an error can come too late: an append whose line was written all the same, or a compaction whose rename
  landed and whose directory sync failed (its error says it failed before the rename). The counters are
  then behind the file, and the log is damaged for good if and only if another append lands before the
  store is relaunched or a compaction goes through (`StoreRuns.HonestLogsReadBack`, `StoreRuns.ModesMove`,
  `StoreRuns.UnsyncedCompactionReadsBackIff`, with the run `StoreRuns.AppendAfterUnsyncedCompaction`);
- a legal write to an idle agent that the host reports as failed was written all the same if and only if
  every request arrived in time and only the reply to the last one was lost
  (`WriteTransfer.WriteTransport.Write`, with the run `WriteTransfer.ReportedFailedYetWritten`).

Two further conditions are slight. A representation with neither bytes nor a stream is lost
(`ChangeAssembly.EmissionPartitions`), but the wire schema refuses one
(packages/protocol/src/agent.ts:26). And memory agrees with the log before the first load only when there
is nothing to load (`History.History.constructor`), which is the property unfolded: `HistoryRuns.Run`
begins where memory and log agree, as after a load that went through, so operations after a first load
that failed, whose result the application ignores (apps/desktop/main/src/index.ts:202), are outside it.

Verify everything with `dafny verify dfyconfig.toml` (Dafny 4.11). Nothing here runs Cairn's code.

## Model

| member | source | states |
|---|---|---|
| `LogFile.RepairTornLine` | packages/store/src/log-store.ts:185-203 | opening the file keeps everything up to and including the last LF and nothing after it; `torn` exactly when something was cut off |
| `LogFile.FileTextReadsBack` | packages/store/src/log-store.ts:205-212 | a file made by appending LF-terminated lines splits back into just those lines |
| `LogFile.CrashedAppendReadsBack` | packages/store/src/log-store.ts:185-212 | crash at any byte of an append: after repair the old lines read back, plus the new line exactly when its LF landed |
| `Records.RecordAadInjective` | packages/store/src/record.ts:20-25 | for counters below 2^64 the authenticated bytes of two records are equal exactly when line index, seq and kind are |
| `Records.Authenticates` | packages/store/src/record.ts:41-61 | comparing the authenticated bytes, which is what opening a line does, is comparing kind, line index and seq |
| `Records.OpenRecordAnyKind` | packages/store/src/record.ts:69-83 | trying the kinds in turn opens a line as the kind it was sealed under and fails under every kind otherwise |
| `Records.ComputeChainTip` | packages/store/src/chain.ts:12-16 | the loop computes the fold of the hash chain over the lines in file order |
| `Records.ChainTipInjective` | packages/store/src/chain.ts:7-16 | with a collision-free hash, equal tips mean equal logs, line by line |
| `LogStore.ReadAll` | packages/store/src/log-store.ts:273-315 | the loop yields the events before the first bad line and that line's error, with each check in the order the store makes it |
| `LogStore.ReadStopsAtFailure` | packages/store/src/log-store.ts:286-313 | nothing after the first bad line has any influence on what is read |
| `LogStore.SealedLinesReadBack` | packages/store/src/log-store.ts:273-315 | lines the store sealed one after another read back as their events, seq = anchor + index; reading fails if and only if a tab event with an empty tag is among them |
| `LogStore.EmptyTagBreaksTheLog` | packages/store/src/log-store.ts:273-315 | an input that shows it: a log that reads back in full, and the same log after an empty tag was appended, which opens but reports an error after its last good event |
| `LogStore.ReadAcceptsExactly` | packages/store/src/log-store.ts:273-315 | reading a file reports no error if and only if its lines are, one by one, what the store would have sealed there, and no tab event has an empty tag |
| `LogStore.AppendKeepsConsistent` | packages/store/src/log-store.ts:220-243 | sealing onto the tip keeps the counters exact and adds just one event, numbered maxSeq + 1 |
| `LogStore.ReopenRestoresCounters` | packages/store/src/log-store.ts:245-269 | quit and reopen: anchor, line count and chain tip are rebuilt from the file exactly |
| `LogStore.SealAllInOrder` | packages/store/src/log-store.ts:430-476 | a generation built line by line in memory is sealed in order and numbered without a gap from its base |
| `LogStore.FoldLines` | packages/store/src/log-store.ts:389-423 | compaction's own loop over the log, with its own checks, as a function of the lines |
| `LogStore.FoldOfSealedLines` | packages/store/src/log-store.ts:394-423 | on an honest log that loop gives the live items, their insertion order and the tabs, or the error for an unreadable event |
| `LogStore.FoldIsCollapse` | packages/store/src/log-store.ts:389-423 | whatever the compaction loop gets through without error, it folds to the live state of those events |
| `LogStore.UnreportedAppend` | packages/store/src/log-store.ts:220-243 | an append that wrote its line and then reported an error leaves a file that reads and reopens with that event, while the counters are one line behind |
| `LogStore.AppendAfterUnreported` | packages/store/src/log-store.ts:220-243 | from those counters the next append that lands gives a file that no reader and no compaction gets through |
| `LogStore.StaleReadFails` | packages/store/src/log-store.ts:483-493 | a generation that memory does not know of, because its directory sync failed, cannot be read with the old counters |
| `LogStore.StaleAppendFitsNowhere` | packages/store/src/log-store.ts:220-243 | a record sealed from those counters belongs to neither generation, and no compaction gets past it |
| `LogStore.FoldChecksTheChain` | packages/store/src/log-store.ts:406-407 | whatever compaction folds without error is linked line by line and bound to its positions: a spliced log is not laundered |
| `EventLog.ReplayCoherent` | packages/history/src/history.ts:227-263 | every replayed item is filed under its own id, has tags and title keys, and has a place in the order; nothing else has |
| `EventLog.CollapseMatchesReplay` | packages/store/src/log-store.ts:389-423 | what compaction collects and what a load replays agree on ids, on items up to the defaults for legacy records, and on tabs |
| `EventLog.CompactionPreservesMeaning` | packages/store/src/log-store.ts:425-476 | replaying the new generation gives the old replay restricted to the requested ids (deleted ids stay deleted), the same tabs, nothing to free, and order numbers counting up in insertion order |
| `EventLog.CompactionKeepsOrderIff` | packages/store/src/log-store.ts:426-463 | compaction keeps the recency tiebreak between every two kept items if and only if their order numbers ascended in insertion order before |
| `EventLog.InsertionOrderAscends` | packages/history/src/history.ts:259-261 | while no live id is re-added, insertion order and order numbers agree |
| `EventLog.CompactionKeepsOrder` | packages/store/src/log-store.ts:427-428 | so on such logs compaction keeps the order, as its comment promises |
| `EventLog.ReAddedItemChangesPlace` | packages/store/src/log-store.ts:410-428 | a concrete log with a re-added live id where the promise fails |
| `StoreRuns.StepSound` | packages/store/src/log-store.ts:220-513 | append (landing, failing, landing with an error reported, or crashing), compaction (failing before its rename, renamed with the sync failing, or going through) and relaunch each keep the store's invariant |
| `StoreRuns.RunsAreSound` | packages/store/src/log-store.ts:171-513 | so does every run of them, starting from an empty directory |
| `StoreRuns.HonestLogsReadBack` | packages/store/src/log-store.ts:273-315 | after any such run reading gives every event in the file in order, numbered without a gap, if and only if the steps left the store in a mode that reads and no empty tag was committed; after a relaunch if and only if they did not damage the file; seqs returned to callers strictly increase across generations |
| `StoreRuns.ModesMove` | packages/store/src/log-store.ts:220-493 | how memory stands to the file (in step, one line behind, one generation behind, file damaged) after each kind of step, exactly |
| `StoreRuns.ModesFollow` | packages/store/src/log-store.ts:171-513 | and so after any sequence of steps |
| `StoreRuns.LateErrorReadsBackIff` | packages/store/src/log-store.ts:220-493 | after any step, one that reported an error too late included, and whatever follows it, compactions included, the store reads back with nothing lost if and only if what followed left it in a mode that reads |
| `StoreRuns.UnsyncedCompactionReadsBackIff` | packages/store/src/log-store.ts:483-493 | a compaction renamed its file but its directory sync failed: among the plain appends and relaunches that follow, the store reads back, with nothing lost, if and only if a relaunch comes before the next append that lands; otherwise not even a relaunch helps |
| `StoreRuns.AppendAfterUnsyncedCompaction` | packages/store/src/log-store.ts:483-493 | a run that shows it: a new store compacted without the sync; with an append next the log cannot be read again, with a relaunch next it reads back |
| `StoreRuns.CompactionStepKeepsMeaning` | packages/store/src/log-store.ts:388-513 | in any reachable state a compaction whose rename happened, synced or not, keeps items (restricted to the ids asked for) and tabs |
| `StoreRuns.AcceptedIsGeneration` | packages/store/src/log-store.ts:245-315 | a file opens and reads without error if and only if it is a readable generation: an anchor and lines sealed in order on it |
| `StoreRuns.SpliceEvidence` | packages/store/src/log-store.ts:253-315 | a file ending in a line the store ever sealed opens and reads without error if and only if it is the log the store's counters stood for then, plus the line, in order and readable; unless the file is broken that log is in order |
| `StoreRuns.TruncationIsAccepted` | packages/store/src/chain.ts:24-45 | what the chain rightly cannot show: a non-empty prefix of the log is accepted, always while the file is not broken and otherwise exactly when the prefix is still in order |
| `StoreObject.Store.Create` | packages/store/src/log-store.ts:245-249 | a new store holds one anchor numbered 1 and no blobs |
| `StoreObject.Store.Open` | packages/store/src/log-store.ts:171-269 | opening any lines on disk: a fresh anchor for none, the restored counters, or the anchor's error; every generation the store wrote opens with all its events |
| `StoreObject.Store.SealAndAppend` | packages/store/src/log-store.ts:220-243 | one record lands at maxSeq + 1 on the tip, or nothing changes and the error says so, or the line is in the file although the error says otherwise and the counters are one behind; the durable states on the way are recorded |
| `StoreObject.Store.AppendEvent` | packages/store/src/log-store.ts:320-370 | an item whose blobs are not all on disk is refused and changes nothing; otherwise exactly one event is committed, or nothing changes, or the line landed unreported |
| `StoreObject.Store.PlaceCheckpoint` | packages/store/src/log-store.ts:371-383 | a checkpoint carries the seq before it; it is the event returned and committed exactly when its line is kept and reported so |
| `StoreObject.Store.PutBlob` | packages/store/src/blobs.ts:59-95 | content addressed: the id is the hash, a present blob needs no write; an error comes with the blob written only if the rename happened and the sync failed |
| `StoreObject.Store.GetBlob` | packages/store/src/blobs.ts:96-121 | exactly the bytes that were put under the id, or missing |
| `StoreObject.Store.DeleteBlob` | packages/store/src/blobs.ts:122-132 | absent is fine; present goes, stays with an error, or goes with an error when only the sync failed; nothing else changes |
| `StoreObject.Store.FoldLog` | packages/store/src/log-store.ts:389-423 | the collapsed live state of the store's log, or the error that stops compaction |
| `StoreObject.Store.Prepare` | packages/store/src/log-store.ts:425-500 | the generation built in memory is a compaction of the log, and its keep set is exactly what its items refer to, all on disk |
| `StoreObject.Store.Compact` | packages/store/src/log-store.ts:388-513 | an unreadable log or an error before the rename changes nothing; with the rename the log is a compaction of the old one; blobs only go after it, never one that is referenced, and the result is ok if and only if every blob to go would unlink; when the directory sync fails the error leaves the old counters over the new file, which then cannot be read; every durable state on the way has all its references |
| `StoreObject.Store.Replace` | packages/store/src/log-store.ts:483-489 | the rename alone: the file is the new generation, the counters are the old ones, and nothing can be read |
| `StoreObject.Store.CollectGarbage` | packages/store/src/log-store.ts:495-510 | at every unlink each referenced blob is still there; ok if and only if none of the others is stuck, and then only the referenced ones remain |
| `HistoryState.SoundIsHealthy` | packages/history/src/history.ts:174-190 | the invariant of memory gives a disk that loads: readable, one item per content, no dangling reference |
| `HistoryState.UpdateSound` | packages/history/src/history.ts:193-208 | remembering the patched item after its record keeps memory equal to the replay, scrubbed or not |
| `HistoryState.AddSound` | packages/history/src/history.ts:386-391 | likewise for a new item, its order number, its hash and its blobs |
| `HistoryState.DeleteSound` | packages/history/src/history.ts:209-215 | likewise for a deletion, whose blobs join those waiting |
| `HistoryState.TabCreatedSound` | packages/history/src/history.ts:528-530 | likewise for a tab that is kept without items |
| `HistoryState.TabDeletedSound` | packages/history/src/history.ts:544-551 | likewise for a tab that is taken off every item |
| `HistoryState.PreviewEvictionSound` | packages/history/src/history.ts:649-656 | scrubbing every item keeps memory equal to the scrubbed replay |
| `HistoryState.PublishedSound` | packages/history/src/history.ts:279-291 | publishing the replay of any healthy disk establishes the whole invariant from nothing |
| `History.History.constructor` | packages/history/src/history.ts:174-187 | before the first load memory agrees with the log if and only if the log brings back no item and no tab |
| `History.History.Append` | packages/store/src/log-store.ts:320-370 | one record is committed and the disk backs the memory that must follow, or nothing changed |
| `History.History.CommitUpdate` | packages/history/src/history.ts:475-483 | commits one update and memory follows: the item's new entry is put into the search index (and stays if there is room), or the index is left alone while previews are evicted; on error nothing moves |
| `History.History.CommitAdd` | packages/history/src/history.ts:386-391 | commits one new item and memory follows with its seq as order number; on error neither moves |
| `History.History.CommitDelete` | packages/history/src/history.ts:602-605 | commits one deletion, queues its blobs and forgets the item everywhere, its search entry alone included; on error nothing moves |
| `History.History.CommitTabCreated` | packages/history/src/history.ts:528-530 | commits the tab and remembers it; on error neither |
| `History.History.CommitTabDeleted` | packages/history/src/history.ts:544-551 | commits the tab's deletion and untags every carrier; each carrier's new entry is in the search index if it has room for every item, and the other entries stay |
| `HistoryState.FiledInRoom` | packages/search/src/index.ts:104-108 | with room for every item, re-filing one replaces its own entry and touches no other |
| `History.History.DeleteUnreferencedBlobs` | packages/history/src/history.ts:234-248 | every waiting blob no item refers to is gone except those that would not unlink; those whose unlink reported an error stay waiting; a referenced one is taken off the list |
| `History.History.BeginLoad` | packages/history/src/history.ts:298-301 | at most one replay in flight; a second call joins it |
| `History.History.FinishLoad` | packages/history/src/history.ts:250-295 | a rejected file changes nothing; otherwise one complete snapshot is published, previews showing and (with room) every item filed for search if and only if no eviction came after its start, and the sweep's exact result |
| `History.ReplayFile` | packages/history/src/history.ts:250-278 | the loop folds the events read, or gives the first read error |
| `History.History.EvictPreviewCache` | packages/history/src/history.ts:649-656 | at any moment, a load in flight or not: no previews, an empty index, a new epoch, and the invariant kept |
| `History.LockedHoldsNothing` | packages/history/src/history.ts:184-208 | while previews are evicted no item has a preview, a title or a mask span and the index is empty |
| `History.History.Pin` | packages/history/src/history.ts:462-487 | the answer in every case; a secret is never pinned; on error nothing moved; otherwise exactly one update was committed and memory followed |
| `History.History.Tag` | packages/history/src/history.ts:489-515 | the answer in every case of adding or removing a tag, the cap included; one update or nothing |
| `History.History.SetTitle` | packages/history/src/history.ts:556-576 | the answer in every case; an unchanged title writes nothing while previews show; one update or nothing |
| `History.History.AddTab` | packages/history/src/history.ts:517-533 | the answer in every case; the cap counts explicit tabs and the tags of live items; one record or nothing |
| `History.History.RemoveTab` | packages/history/src/history.ts:535-554 | how many items carried the tag, all untagged by one record, or nothing |
| `History.History.Remove` | packages/history/src/history.ts:592-611 | the deletion survives a failing unlink; the blobs left and the list of those waiting are exact; a failing append moves nothing |
| `History.History.PutReps` | packages/history/src/history.ts:346-357 | the references name the blobs written; the blobs on disk and the result are exactly those of writing the contents in order up to the first failure |
| `History.History.Ingest` | packages/history/src/history.ts:303-400 | the answer in every case: skipped if and only if the privacy layer says so, else the live duplicate moved by one update, else the new item added by one record after all its blobs, or the error; an error leaves log and memory alone and at most this candidate's blobs orphaned |
| `History.History.EvictNow` | packages/history/src/history.ts:613-647 | of the retention plan exactly the evictions before the first append that fails are committed, in plan order, and published; the sweep comes in any case, and blobs, waiting list and result are exact |
| `History.PlanIsThePlan` | packages/history/src/retention.ts:73-76 | the plan the loop applies is a function of the items, whatever order the map yields them in |
| `History.PlanIsExecutable` | packages/history/src/history.ts:618-637 | the plan over the live items names each id once and only live ids |
| `History.NothingWaitingMeansExact` | packages/history/src/history.ts:230-248 | with nothing waiting and nothing orphaned the disk holds exactly the blobs that items refer to |
| `HistoryRuns.Perform` | packages/history/src/history.ts:297-661 | any single call leads to exactly the state its effect is defined to be, on memory, log, blobs, replay and epoch, and keeps the invariant; a clean call leaves nothing behind |
| `HistoryRuns.Run` | packages/history/src/history.ts:297-661 | refinement over whole runs: whatever is called and whichever appends, writes and unlinks fail, the state is what the calls lead to one by one; every record committed by any of them is in the final log in its place; memory is the replay of the log up to scrubbing, the duplicate index and search index agree with it, and every durable state was recoverable |
| `HistoryRuns.RunCleanly` | packages/history/src/history.ts:230-248 | over whole runs in which ingests get through and unlinks succeed, with the state again what the calls lead to, the blobs on disk are exactly those of live items |
| `HistoryRuns.RunLocked` | packages/history/src/history.ts:184-208 | after an eviction, under any calls, previews show again only if a whole load started after the last eviction; until then nothing is held and the index is empty; the calls made meanwhile have their effect, and their records are in the log |
| `HistoryRuns.StepLocks` | packages/history/src/history.ts:250-295 | only the end of a load that started in the current epoch shows previews again, and only an eviction moves the epoch |
| `HistorySteps.StepAgrees` | packages/history/src/history.ts:193-661 | any call, with any faults, turns memory that is the replay of the log into memory that is the replay of the new log, scrubbed while locked |
| `HistorySteps.RunAgrees` | packages/history/src/history.ts:297-661 | and so does any run of calls |
| `HistorySteps.RecordsStay` | packages/history/src/history.ts:297-661 | the log after any part of a run is a prefix of the log at its end |
| `HistorySteps.StepKeepsEdits` | packages/history/src/history.ts:462-611 | one call changes of each stored item only what it is about: title, pin or tags of the item it names, the tags a removed tab takes, or it deletes the item |
| `HistorySteps.EditsPersist` | packages/history/src/history.ts:462-661 | over any run an item that is live at the end was live all along, and its stored title, pin and tags are those of the start unless a call was about them |
| `HistorySteps.TitlesPersist` | packages/history/src/history.ts:556-576 | a title that was set, locked or not, is what the log says until another call sets it, through evictions, loads and failures, and what memory shows whenever previews show |
| `HistoryRuns.Relaunch` | packages/history/src/history.ts:250-301 | a new process over the same directory gets the same items, order and tabs, unlocked, and reclaims what the log says was freed |
| `HistoryRuns.CrashRecovers` | packages/history/src/history.ts:250-295 | a crash in any durable state ever reached leaves a log that loads with every live item's blobs present |
| `Retention.PlanEviction` | packages/history/src/retention.ts:60-110 | the four loops give the plan as a function of the sorted items |
| `Retention.CondemnByCount` | packages/history/src/retention.ts:95-101 | the third loop condemns exactly the contenders beyond the count limit |
| `Retention.CondemnByBytes` | packages/history/src/retention.ts:102-108 | the fourth loop condemns exactly those beyond the byte limit among the ones the count limit spared |
| `Retention.PlanIsCanonical` | packages/history/src/retention.ts:73-76 | the plan is the same for every permutation of the items |
| `Retention.PlanFollowsVerdicts` | packages/history/src/retention.ts:78-108 | an item is condemned for a reason if and only if that is the first limit it breaks |
| `Retention.KeptOnlyDieAsSecrets` | packages/history/src/retention.ts:41-52 | a pinned or filed item is only condemned for an expired secret |
| `Retention.CondemnedOnce` | packages/history/src/retention.ts:67-71 | no id is condemned twice |
| `Retention.PlanIdsKnown` | packages/history/src/retention.ts:60-110 | only ids of the given items are condemned |
| `Retention.StayingIsLongestPrefix` | packages/history/src/retention.ts:95-108 | what stays is the longest newest-first prefix of the unkept survivors of TTL and age meeting both limits |
| `Retention.ReplanningCondemnsNothing` | packages/history/src/retention.ts:60-110 | planning again over the survivors, in any order, gives nothing |
| `SearchIndex.SearchIndex.Add` | packages/search/src/index.ts:104-108 | the new entry replaces its old one; then either the index fits or only pinned and filed rows remain to drop, and only the oldest others were dropped |
| `SearchIndex.SearchIndex.EvictOverflow` | packages/search/src/index.ts:87-101 | overflow drops the oldest droppable rows and no more than needed |
| `SearchIndex.SearchIndex.Remove` | packages/search/src/index.ts:109-113 | removes just that id and says whether it was there |
| `SearchIndex.SearchIndex.Rebuild` | packages/search/src/index.ts:77-85 | whether or not it sorts, afterwards the cached list is the recency sort of the entries |
| `SearchIndex.SearchIndex.Candidates` | packages/search/src/index.ts:126-154 | the surviving rows are exactly those without the excluded text that embed all tokens in order, in recency order |
| `SearchIndex.ScanTokens` | packages/search/src/index.ts:146-153 | the greedy leftmost scan accepts a text if and only if some in-order, non-overlapping embedding of all tokens exists |
| `Reassembler.Reassembler.Declare` | packages/agent-host/src/reassembler.ts:108-129 | a repeated id, a ninth stream or an oversized one is refused and nothing opens; otherwise one empty stream opens |
| `Reassembler.Reassembler.Chunk` | packages/agent-host/src/reassembler.ts:131-177 | a chunk extends its stream, ends it with the fault that applies, or completes it; a chunk without a stream is only logged, told apart by what ended lately |
| `Reassembler.CompletionIsExact` | packages/agent-host/src/reassembler.ts:157-176 | what a final chunk completes is the concatenation of the parts in order, of the declared length, hash and type; the stream closes |
| `Reassembler.ChunkKeepsBounds` | packages/agent-host/src/reassembler.ts:143-152 | each stream holds at most what it declared, and never more than 20 MiB |
| `Reassembler.BufferIsBounded` | packages/agent-host/src/reassembler.ts:186-190 | all streams together never buffer more than eight times that |
| `ChangeAssembler.Run` | packages/agent-host/src/reassembler.ts:228-333 | exactly once over any run of changes, chunks, timeouts and aborts, reused ids and ninth streams included: each change was emitted once, as it arrived, or waits as it arrived, never both; after an abort of everything all were; the object's state is what the events lead to step by step |
| `ChangeSteps.SettledSlotsHaveCauses` | packages/agent-host/src/reassembler.ts:263-333 | over any run, what a slot holds was put there by one event for that slot's own cause: its inline bytes, the completion or fault of the stream it owned, a refusal in its turn, a timeout or an abort |
| `ChangeSteps.SettledSlotsStay` | packages/agent-host/src/reassembler.ts:263-278 | once settled, a slot keeps what it holds for the rest of the run, emission included |
| `ChangeSteps.EmissionsHaveCauses` | packages/agent-host/src/reassembler.ts:238-258 | so every representation in an emitted payload, and every one dropped from it, has its cause among the events, and the payload is that of the change as it arrived |
| `ChangeSteps.EventSettles` | packages/agent-host/src/reassembler.ts:263-333 | one event never changes a settled slot, and settles a slot only for such a cause |
| `ChangeSteps.ChunkFillsOne` | packages/agent-host/src/reassembler.ts:157-191 | a chunk that ends its stream fills the slot owning it with the bytes or the fault, and no other slot of any change |
| `ChangeSteps.AbortsFillTheirs` | packages/agent-host/src/reassembler.ts:327-333 | giving streams up, in any order, drops just their slots, each with the given code |
| `ChangeSteps.ChangedKeeps` | packages/agent-host/src/reassembler.ts:282-321 | taking in a change, turn by turn, keeps owner map, open streams, outstanding counts and ledger in agreement |
| `ChangeAssembly.WaitsExactlyForItsStreams` | packages/agent-host/src/reassembler.ts:234-236 | a change is pending if and only if one of the open streams is its own |
| `ChangeAssembly.EmittedOnce` | packages/agent-host/src/reassembler.ts:238-258 | each change so far is emitted exactly once, as it arrived, or still pending, and every emission accounts for each declared slot |
| `ChangeAssembly.EmissionPartitions` | packages/agent-host/src/reassembler.ts:240-245 | emitted and dropped representations account for the whole change if and only if each was declared inline or as a stream |
| `ChangeAssembly.PayloadKeepsWireOrder` | packages/agent-host/src/reassembler.ts:240-256 | both lists keep wire order, no slot is in both, and each declared slot is in one, with its bytes or its reason |
| `ChangeAssembly.BuildPayload` | packages/agent-host/src/reassembler.ts:238-258 | the loop over the slots builds that payload |
| `ChangeAssembly.LastSlotCompletes` | packages/agent-host/src/reassembler.ts:269-277 | when nothing is outstanding any more, every declared slot holds its representation or a reason |
| `ChangeAssembly.SettleLoose` | packages/agent-host/src/reassembler.ts:263-278 | settling a slot keeps the owner map equal to the open streams and the ledger exact, whether or not the change goes out |
| `ChangeAssembly.StreamEnds` | packages/agent-host/src/reassembler.ts:263-278 | a stream that completes or aborts settles the slot that declared it with what was declared, or with the reason |
| `ChangeAssembler.ChangeAssembler.HandleChunk` | packages/agent-host/src/reassembler.ts:323-325 | the exact next state: the stream grows, or ends and its slot is settled by the outcome, the change going out with its last slot; emissions are only added |
| `ChangeAssembler.ChangeAssembler.DeclareSlot` | packages/agent-host/src/reassembler.ts:310-320 | the exact next state: the slot's stream opens and is owned if its id is free, fewer than eight are open and it is not too large; otherwise the slot is settled with that refusal |
| `ChangeAssembler.ChangeAssembler.HandleChanged` | packages/agent-host/src/reassembler.ts:282-321 | the exact next state: emitted at once as it arrived, or pending with each declared stream given its turn in wire order |
| `ChangeAssembler.ChangeAssembler.Timeout` | packages/agent-host/src/reassembler.ts:98-100 | the exact next state: that stream alone is given up and its slot dropped with the timeout code |
| `ChangeAssembler.ChangeAssembler.AbortAll` | packages/agent-host/src/reassembler.ts:327-333 | the exact next state: every open stream given up once with the code, in some order; no stream, owner or pending change is left |
| `Chunker.Split` | agents/macos/Sources/Chunker.swift:29-38 | the pieces concatenate to the original, none is empty, all but the last are full |
| `Chunker.Prepare` | agents/macos/Sources/Chunker.swift:46-59 | inline below 64 KiB, a stream of pieces from there on, with the length and hash of the bytes |
| `Chunker.AnyInterleavingRebuildsEachOnce` | agents/macos/Sources/Chunker.swift:61-72 | end to end with the reassembler: whatever way declarations and chunks of any number of streams are interleaved, at most eight at a time, ids reused or not, the host is told exactly the originals, each once, in the order of their last chunks, and has open just what the agent is still sending, within bounds at every moment |
| `Chunker.ReceivedStaysBounded` | packages/agent-host/src/reassembler.ts:143-152 | the host's open streams and bytes stay within bounds even off such a schedule |
| `Chunker.Emit` | agents/macos/Sources/Chunker.swift:61-72 | the two loops put out every chunk of every stream in order, numbered from 0, the last one marked |
| `Chunker.EmittedArrives` | agents/macos/Sources/Chunker.swift:61-72 | what the loops put out after up to eight declarations is such a schedule: every original arrives once, in order, and nothing stays open |
| `WriteUpload.WriteUpload.Begin` | agents/macos/Sources/WriteUpload.swift:28-47 | each refusal in the order the agent checks, or one empty transfer |
| `WriteUpload.WriteUpload.Append` | agents/macos/Sources/WriteUpload.swift:49-71 | the chunk is taken or the transfer is discarded with the fault |
| `WriteUpload.WriteUpload.Commit` | agents/macos/Sources/WriteUpload.swift:73-88 | the whole write is handed over or the transfer is discarded with the fault; either way none is left |
| `WriteUpload.WriteUpload.Abort` | agents/macos/Sources/WriteUpload.swift:90-94 | only the named transfer is dropped |
| `WriteUpload.WriteUpload.Expire` | agents/macos/Sources/WriteUpload.swift:96-101 | a transfer idle for 5 s or 30 s old is dropped, any other kept |
| `WriteUpload.StepKeepsBounds` | agents/macos/Sources/WriteUpload.swift:28-115 | every call keeps each representation within what it declared and the declared total within 64 MiB |
| `WriteUpload.BufferIsBounded` | agents/macos/Sources/WriteUpload.swift:36-40 | so the agent never buffers more than 64 MiB |
| `WriteUpload.CommitIsFaithful` | agents/macos/Sources/WriteUpload.swift:73-88 | in any run with any clock a committed write is exactly the chunks accepted since its begin, numbered 0, 1, 2 ..., of declared length and hash, in time |
| `WriteUpload.ChunkAcceptedIff` | agents/macos/Sources/WriteUpload.swift:49-71 | a chunk is accepted if and only if it is the next one of a live transfer and fits |
| `WriteUpload.FaultsAreFatal` | agents/macos/Sources/WriteUpload.swift:67-87 | any fault of a transfer's own chunk or commit leaves no transfer |
| `WriteUpload.DeadStaysDead` | agents/macos/Sources/WriteUpload.swift:103-107 | with no transfer, nothing can be committed by any later calls until another is begun |
| `WriteTransfer.LegalIffLimits` | packages/agent-host/src/write-transfer.ts:20-41 | the host's checks let a write through if and only if it meets every documented limit |
| `WriteTransfer.WriteTransport.CheckReps` | packages/agent-host/src/write-transfer.ts:27-41 | the loop reports the first fault in order, or none |
| `WriteTransfer.WriteTransport.Upload` | packages/agent-host/src/write-transfer.ts:50-81 | an ok means the agent committed exactly the caller's write; at most one ever lands; to an idle agent it is ok if and only if every request was on time, and lands if and only if all but the last were and the last got there in time; an error over a delivering channel leaves no transfer of this id behind |
| `WriteTransfer.WriteTransport.Write` | packages/agent-host/src/write-transfer.ts:18-86 | end to end over any channel: ok means exactly the caller's representations were written; never anything else, never twice; an error means nothing was written unless the last reply was lost; to an idle agent a legal write succeeds, lands, and lands under an error each under its exact condition on the channel |
| `WriteTransfer.UnnoticedIffReplyLost` | packages/agent-host/src/write-transfer.ts:76-86 | a write that lands goes unnoticed if and only if the reply to its last request is lost |
| `WriteTransfer.ReportedFailedYetWritten` | packages/agent-host/src/write-transfer.ts:76-86 | a run with one lost reply in which the host reports an error and the clipboard has the write |
| `WriteTransfer.CommitWritesIntended` | agents/macos/Sources/WriteUpload.swift:73-88 | when the agent holds every byte, what its commit writes is what the caller gave: bytes, types, order, transient flag |
| `WriteTransfer.CommitAccepted` | agents/macos/Sources/WriteUpload.swift:73-88 | and that commit lands if and only if it reaches the agent in time |
| `WriteTransfer.ChunkAccepted` | agents/macos/Sources/WriteUpload.swift:49-71 | a chunk in its turn is accepted if and only if it reaches the agent in time |
| `WriteTransfer.BeginAccepted` | agents/macos/Sources/WriteUpload.swift:28-47 | an idle agent takes a legal begin if and only if it reaches it |
| `WriteTransfer.LostReplyHidesCommit` | packages/agent-host/src/write-transfer.ts:76-81 | when every byte has arrived in time and only the reply to the commit is lost, the write lands all the same |
| `Framing.HostSplitter.Push` | packages/agent-host/src/framing.ts:32-62 | after any push the lines, the number of overflow reports, the buffer and the discarding flag are those of the whole stream split at LF, whatever the cuts; the buffer is within the cap |
| `Framing.HostSplitter.Reset` | packages/agent-host/src/framing.ts:63-66 | the stream starts over; what was emitted stays |
| `Framing.AgentSplitter.Push` | agents/macos/Sources/Wire.swift:206-227 | the same for the agent's splitter, which returns exactly the lines completed |
| `Framing.PiecesRebuildText` | packages/agent-host/src/framing.ts:34-37 | splitting loses no byte: lines, terminators and residual are the stream again |
| `Framing.SplittersAgree` | packages/agent-host/src/framing.ts:26-70 | two different cuttings of one stream give the host's and the agent's splitter the same lines and reports |
| `Framing.WrittenLinesArrive` | packages/agent-host/src/framing.ts:34-49 | lines written one after another, each within the cap, all arrive and nothing else does |
| `ItemIds.NewItemId` | packages/protocol/src/id.ts:6-26 | anything but ten random bytes is refused; otherwise the two packing loops give ten digits of time and sixteen of the bytes' 80-bit number |
| `ItemIds.ShiftInWraps` | packages/protocol/src/id.ts:19 | shifting a byte into the wrapped accumulator gives the wrapped true number |
| `ItemIds.FiveBitsSurvive` | packages/protocol/src/id.ts:22 | the five bits taken are those of the true number although the accumulator wrapped at 32 bits |
| `ItemIds.IdShape` | packages/protocol/src/id.ts:6-26 | an id is 26 characters of the alphabet |
| `ItemIds.IdsSortByTime` | packages/protocol/src/id.ts:10-13 | ids compare as strings if and only if their times (modulo 2^50) and then their bytes compare so |
| `ItemIds.IdsNeverCollide` | packages/protocol/src/id.ts:6-26 | two ids are equal if and only if their times agree modulo 2^50 and their bytes are equal |
| `Masking.MergeSpans` | packages/privacy/src/detectors.ts:40-54 | the result is sorted and disjoint, covers exactly what the input covers, keeps each span within one merged span, joins none without need, and labels each merged span by its first named member |
| `Masking.NamedWins` | packages/privacy/src/detectors.ts:49 | so a merged span is called high-entropy if and only if all its members are |
| `Masking.MaskWith` | packages/privacy/src/mask.ts:8-18 | the preview is the text's own gaps, verbatim and in order, woven with the tokens of the masked spans |
| `Masking.Mask` | packages/privacy/src/mask.ts:8-18 | the two together: exactly the detected text is masked, each detection under one token |
| `Masking.TokenReveals` | packages/protocol/src/constants.ts:81-83 | two secrets get the same token if and only if both are short, or both are long with equal first and last four characters |
| `Sorting.SortedIsUnique` | packages/history/src/retention.ts:73-76 | under an order without ties there is one sorted arrangement, which is what makes the plan canonical |

## Left out

- StoreObject.Store.Compact: after a failed directory sync the object is left with stale counters (`LeftBehind`), and the methods of the class, which take a valid store, do not say what it does next; `StoreRuns` does, on values.
- StoreObject.Store.SealAndAppend: after a line that landed unreported the object is left one line behind its file (`LineAhead`), and the methods of the class do not say what it does next; `StoreRuns` does, on values.
- History.History.Append: at this level an append lands and returns ok, or changes nothing; History goes on with memory that lacks the record when an append lands unreported, which `HistoryRuns` does not cover.
- StoreObject.Store.GetBlob: blob bodies are kept by their content, so the errors for a blob file that was tampered with or does not decrypt cannot arise.
- StoreRuns.SpliceEvidence: truncation and rollback of the whole file are not excluded (`TruncationIsAccepted`), as the source says; lines of an append that failed or of a compaction that never renamed were sealed too, so the log it names need not have been on disk, and after an unsynced compaction it is the log the counters stood for.
- LogStore.SealedLinesReadBack: reading fails after an empty tag was appended although the append succeeded; the store does not check tags on the way in, History does.
- EventLog.CompactionKeepsOrder: only for logs that never re-add a live id; `CompactionKeepsOrderIff` is the exact condition and `ReAddedItemChangesPlace` the log that breaks it.
- History.History.CommitUpdate: with a full index which rows stay is `SearchIndex.Add`'s promise (fair trimming), so the new entry itself may be the one dropped.
- History.History.constructor: before the first load the invariant only holds for a log that brings nothing back; the source does not force a load either, and calls made after a first load that failed are not covered.
- HistoryRuns.Perform: a call made while a replay is in flight waits for it; here it has no effect until after the replay ended, and the error it returns when that replay failed is not modelled.
- HistoryRuns.RunLocked: covers what History holds; JavaScript strings that were handed out earlier cannot be taken back.
- ChangeAssembly.EmissionPartitions: a representation with neither inline bytes nor a stream id is neither emitted nor dropped; the wire schema refuses one.
- ChangeAssembler.ChangeAssembler.DeclareSlot: asks for the stream before it records the owner, where the source records the owner first and lets the refusal take it out again; the state after is the same.
- ChangeAssembler.ChangeAssembler.AbortAll: the order in which streams are aborted is open, and so is the order of the payloads it causes.
- WriteTransfer.WriteTransport.Write: for an agent that already holds another transfer only the one-sided clauses are stated; two writes at once appear only through the `active` flag, and the length of the request envelope is a parameter.
- ItemIds.IdsSortByTime: time counts modulo 2^50 (the year 37,000), exactly as the ten digits do.
- Masking.MergeSpans: takes spans with start <= end, which is all a detector produces.
- Retention.PlanEviction: items have distinct ids and non-negative sizes, as in History's map. The comment over `planEviction` says kept items are exempt from every limit; the code, and `isKept`'s own comment, except the secret TTL, and the model follows the code.
- Chunker.AnyInterleavingRebuildsEachOnce: for at most eight streams at a time; a ninth is refused, which `ChangeSteps` covers. Declarations are single streams here, and whole changes there.
- Cryptography: a sealed line is a datatype that carries what it was sealed under and opens under nothing else, the hash is injective; key derivation, passphrases, file names of blobs and zeroing of buffers are not part of the model.
- The file system below "append a line", "rename", "unlink": modes, sync calls and metadata files.
- JSON, base64 and the wire schemas are exact round trips; a chunk whose text is not strict base64 is an input. The upper bound of exact JavaScript integers is not modelled.
- Clocks, random bytes, fault outcomes and timer firings are parameters or events; random ids are taken as new.
- Title and tag normalisation, the classification of a capture, preview truncation, the detectors, entropy and the ranking of hits are inputs; case folding is a parameter of the literal scan. String lengths are counted in characters, not in UTF-16 units or graphemes.
- `list`, `search` filtering, `tabs`, `pinnedCount`, `resolveReps`, `setMaxItems`, listeners and logging in History: reads and setters with easy members.
- The item fields `kind` and `sourceApp`, and the hints of a clipboard change, which are only carried through.
- The order in which JavaScript maps iterate, except the insertion order that compaction relies on.
- Windows, hotkeys, the palette, child processes, pipes and the suspend reasons of the agent.
