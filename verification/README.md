# LevelDB, as vendored with the iOS pods

A model of the key-value store under `ios/Pods/leveldb-library` (LevelDB 1.22) and proofs of what it
promises: that reads at a snapshot see the history of writes, that compactions, flushes, crashes and
file deletion keep it so, and that the parts below (iterators, skip list, write queue, logs, tables,
checksums, filters, caches) do what the store relies on.

## How it is built

- **The store over runs.** `DbState` is the store as a state machine: memtables, version, logs, manifest
  numbers, table files, snapshots, and the readers at work with the memtables and versions they hold.
  Its steps are writes, memtable switches, flushes (also in the middle of a compaction), the start and
  end of a compaction, trivial moves, taking and releasing snapshots and references, deleting obsolete
  files, and crashes with recovery. A ghost history of all writes says what a read should return.
  `DbRuns`, `DbViews` (what readers see) and `ManifestRuns` hold the theorems about all runs from the empty
  store. `DbImpls` is the class with the store's fields; each of its methods is proved to be exactly one step
  (or a path of steps), manifest record included.
- **Choosing and running a compaction.** `Inputs`, `Boundary`, `Picking`, `SetupInputs`, `FlushPlacement`,
  `CompactionLoop`, `DropRules`, `Outputs`, `VersionBuilder`, `Manifest`, `Install`, `InFlight`,
  `CompactionReads`, and `ManualCompaction`.
- **Reading.** `Lookup` for point lookups; `Merging`, `LiveMap`, `DbIterator`, `Sources` for iteration.
- **Concurrency.** `SkipLists` is the list with nobody else running, `SkipListRuns` the list with one
  writer and any number of lock-free readers, interleaved at every load and store of a link; `MemTables` joins
  it to memtable lookups. `WriteQueue`, `GroupCommit` and `NullBatches` are group commit under every
  interleaving of writers; `GroupWrites` joins it to the store's write step.
- **Bytes.** `LogFormat`, `LogRoundTrip`, `LogFiles`, `WriteBatches`, `EditFormat`, `KeyFormat`, `Coding`,
  `Words`, `Crc32c`; `DiskRestart` puts them together: a restart from log files cut off at any byte and from
  the bytes of the manifest.
- **Tables and caches.** `BlockFormat`, `BlockBuilders`, `BlockIterators`, `BlockRoundTrip`, `Separators`,
  `Tables`, `TwoLevel`, `Bloom`, `FilterBlock`, `HandleTables`, `LruLists`, `LruCaches`.

`dafny verify dfyconfig.toml` checks the whole project.

## What does not hold

Five promises turned out to be false of the code. Each has its input and its exact condition.

- **A deleted key can come back.** `SetupOtherInputs` adds boundary files at the level compacted but not at
  the next one (`db/version_set.cc:1406-1411`). If a user key continues from the last selected file of the
  next level into an unselected one that starts with a value, and a deletion of that key is dropped because
  no deeper level holds it, the older value is visible again. This is the predicate
  `CompactionReads.Hazard`. `CompactionReads.CompactionPreservesReadsIff` shows that a compaction preserves
  reads if and only if there is no hazard, `DbRuns.ReadsSeeHistoryIff` says the same of whole runs, and
  `Resurrection.DeletedKeyComesBack` is a run of 18 steps from the empty store that ends in it. Theorems that
  tie reads to the history therefore ask `HazardFree` of the run as far as it matters: for a reader, up to the
  step at which it took its references (`DbViews.ReadersKeepTheirView`); without it they say exactly when a
  read is right (`DbViews.ReaderIsRightIff`, `DbRuns.RestartKeepsWrites`).
  `DbRuns.ClosedStartsAvoidHazard` gives a condition that can be checked when a compaction starts. The
  theorems about levels, files, sequence numbers, the manifest, what readers hold and what a restart brings
  back hold over all runs.
- **A request to switch the memtable can be lost.** A writer with a null batch asks for a switch, but an
  earlier leader's group takes it in if it and all before it fit (`db/db_impl.cc:1278-1303`), and then it
  is completed without one. `LostSwitches.SwitchIsLost` is a run of seven steps in which that happens;
  `WriteQueue.GroupReachesIff` and `NullBatches.NullBatchSwitchesIff` say exactly when it does.
- **A manual compaction can hide a write.** `CompactRange` takes all files that overlap a range
  (`db/version_set.cc:1464-1495`), which may leave a gap that no file of either level covers. A memtable flushed
  meanwhile can be placed into that gap at the output level, and the compaction's output then spans it. The
  binary search of a level needs disjoint files, and finds the output instead of the flushed table:
  `HiddenWrites` is such a compaction, with the flushes from the empty version that lead to it (`Flushes`) and
  the search that misses the newest entry of a key (`WriteIsHidden`); a build with assertions stops at the overlap
  instead (`db/version_set.cc:723-735`). `ManualCompaction.InstallIff`
  says exactly when installing keeps a version in order; inputs without a gap always do
  (`InFlight.FlushKeepsPending`, `Install.ReplaceKeepsInvariant`), and the store picks no others by itself
  (`SetupInputs.PickCompaction`).
- **Decoding a manifest record into a used object keeps its compaction pointers.** `VersionEdit::Clear` does
  not clear them (`db/version_edit.cc:26-39`). `EditFormat.DecodeEncode` says what decoding gives,
  `EditFormat.RoundTripIff` when the round trip is exact.
- **Replaying a manifest is not the same as installing its edits one at a time** if a file number is added,
  deleted and added again with other contents (`Manifest.ReusedNumberDiffers`). It is the same, wherever the
  manifest ends, if and only if additions with the same number add the same file and none adds a number of the
  base (`Manifest.ReplayRebuildsIff`; recovery starts from an empty base). The store never writes a manifest
  that fails this: `ManifestRuns.ManifestKeepsNumbers` shows it of every run, and
  `ManifestRuns.ManifestRebuildsVersion` that recovery gives the current version.

## Model

| member | source | states |
|---|---|---|
| `DbRuns.RunKeepsInv` | ios/Pods/leveldb-library/db/db_impl.cc:688-767 | Every state of every run of the store (writes, switches, flushes, moves, compactions with flushes in between, snapshots, readers, file deletion, crashes) meets the whole invariant. |
| `DbRuns.LevelsStayGood` | ios/Pods/leveldb-library/db/version_set.cc:695-754 | In every state of every run the levels above 0 are sorted and disjoint, level 0 is newest by number, shallower levels hold newer entries of a key than deeper ones, and the memtables are newer than the version. |
| `DbRuns.NeededFilesStay` | ios/Pods/leveldb-library/db/db_impl.cc:223-278 | In every state of every run the tables of the current version, of every version a reader holds and of the running compaction's version are on disk, and so are its outputs and the logs of both memtables. |
| `DbRuns.ReadsSeeHistoryIff` | ios/Pods/leveldb-library/db/db_impl.cc:1112-1136 | Every lookup of every key at every usable snapshot agrees with the history of writes in all states up to `n` if and only if no compaction finished before `n` met the hazard. |
| `DbViews.AnswersStay` | ios/Pods/leveldb-library/db/db_impl.cc:1112-1139 | In every run a reader answers, until it ends, exactly what the store answered when the reader took its references, whatever is written, flushed, compacted or deleted meanwhile. |
| `DbViews.ReaderIsRightIff` | ios/Pods/leveldb-library/db/db_impl.cc:1112-1139 | A reader reads what the history says if and only if the store did when the reader took its references. |
| `DbViews.ReadersKeepTheirView` | ios/Pods/leveldb-library/db/db_impl.cc:1112-1139 | A reader at snapshot `s` reads the history of every state that had published `s`, and its tables stay on disk, if no compaction had met the hazard before the reader took its references. |
| `DbViews.Get` | ios/Pods/leveldb-library/db/db_impl.cc:1100-1145 | The lookup through references taken in an earlier state, with any steps of other threads between, returns what the store read there, and the history if no compaction had met the hazard by then. |
| `DbViews.IterationStays` | ios/Pods/leveldb-library/db/db_impl.cc:1147-1157 | The list of live pairs an iterator goes through stays what it was when the iterator was made, in every run, although the memtable it shares grows and turns immutable. |
| `DbRuns.HistoryBelow` | ios/Pods/leveldb-library/db/db_impl.cc:1209-1237 | What was written at or below a published sequence number never changes in a run, and published numbers never go back, crashes included. |
| `DbRuns.RestartKeepsStore` | ios/Pods/leveldb-library/db/db_impl.cc:280-369 | After a crash the store holds exactly the entries it held before and the entries of the unfinished batch as far as the log has them, in every run. |
| `DbRuns.RestartKeepsWrites` | ios/Pods/leveldb-library/db/db_impl.cc:280-369 | After a crash a key reads what the history says if and only if the batch in flight came back with the key or the key read so before the crash; so every key does if no compaction had met the hazard. |
| `DbRuns.SequenceResumes` | ios/Pods/leveldb-library/db/db_impl.cc:364-366 | The sequence a restarted store resumes from is never below the one it had published. |
| `DbRuns.ClosedStartsAvoidHazard` | ios/Pods/leveldb-library/db/version_set.cc:1406-1411 | Runs whose compactions leave no boundary file behind at the next level when they start never meet the hazard. |
| `DbReads.NextSees` | ios/Pods/leveldb-library/db/db_impl.cc:878-1048 | Every single step keeps reads of the store and of every reader in agreement with the history, except the end of a compaction that meets the hazard. |
| `DbReads.HazardShows` | ios/Pods/leveldb-library/db/version_set.cc:1406-1411 | If the end of a compaction meets the hazard, there is a key that the history says is deleted for a usable snapshot and the store finds. |
| `DbRecovery.CrashKeepsInv` | ios/Pods/leveldb-library/db/db_impl.cc:280-369 | A crash at any point, the loss of the memtables and the replay of the logs lead back to a state that meets the invariant. |
| `Resurrection.DeletedKeyComesBack` | ios/Pods/leveldb-library/db/version_set.cc:1403-1462 | A concrete run of 18 steps from the empty store (contiguous sequence numbers) after which the newest snapshot reads a value of a key whose last write is a deletion. |
| `ManifestRuns.ManifestRebuildsVersion` | ios/Pods/leveldb-library/db/version_set.cc:886-1011 | In every state of every run, replaying the manifest written so far into one builder gives every level of the current version exactly, and all its file numbers are below the recorded next number. |
| `ManifestRuns.ManifestKeepsNumbers` | ios/Pods/leveldb-library/db/version_set.cc:801-884 | No run writes a manifest that is replayed wrongly: at every level, wherever the manifest is cut, one builder over its edits gives what installing them one at a time gives. |
| `DbImpls.DbImpl.constructor` | ios/Pods/leveldb-library/db/db_impl.cc:182-212 | A new store is the initial state of the state machine. |
| `DbImpls.DbImpl.InsertInto` | ios/Pods/leveldb-library/db/write_batch.cc:117-137 | The memtable gains each operation under the next sequence number. |
| `DbImpls.DbImpl.Write` | ios/Pods/leveldb-library/db/db_impl.cc:1209-1237 | A write is exactly the write step: log, memtable, published sequence and shared memtables of readers change together, nothing else does. |
| `DbImpls.DbImpl.SwitchMemtable` | ios/Pods/leveldb-library/db/db_impl.cc:1345-1367 | The switch step: the memtable becomes the immutable one, and a new log and an empty memtable take over. |
| `DbImpls.DbImpl.MakeRoomForWrite` | ios/Pods/leveldb-library/db/db_impl.cc:1310-1370 | One round of the loop, a background error included: a switch or no change at all, and for each outcome the condition that justifies it. |
| `DbImpls.DbImpl.Get` | ios/Pods/leveldb-library/db/db_impl.cc:1100-1145 | The lookup reads the union of memtables and version at the snapshot; the history, if the store agrees with it. |
| `DbImpls.DbImpl.BeginRead` | ios/Pods/leveldb-library/db/db_impl.cc:1112-1117 | Taking references is exactly the pin step. |
| `DbImpls.DbImpl.ReadThrough` | ios/Pods/leveldb-library/db/db_impl.cc:1119-1136 | A lookup through references taken earlier reads what those references reach; the history at the reader's snapshot, if the store agrees with it. |
| `DbImpls.DbImpl.EndRead` | ios/Pods/leveldb-library/db/db_impl.cc:1141-1143 | Dropping references is exactly the unpin step. |
| `DbImpls.DbImpl.GetSnapshot` | ios/Pods/leveldb-library/db/db_impl.cc:1166-1169 | The snapshot is the published sequence and joins the live ones. |
| `DbImpls.DbImpl.ReleaseSnapshot` | ios/Pods/leveldb-library/db/db_impl.cc:1171-1175 | Exactly that snapshot goes. |
| `DbImpls.DbImpl.LogAndApply` | ios/Pods/leveldb-library/db/version_set.cc:801-884 | The version becomes what the record makes of it, the manifest gains that record, and log number, sequence and next file number are recorded. |
| `DbImpls.DbImpl.WriteLevel0Table` | ios/Pods/leveldb-library/db/db_impl.cc:491-533 | A table with exactly the memtable's entries and a new number, and a level at which it overlaps nothing on the way. |
| `DbImpls.DbImpl.CompactMemTable` | ios/Pods/leveldb-library/db/db_impl.cc:535-566 | A flush is exactly the flush step of the state machine, at level 2 at most. |
| `DbImpls.DbImpl.PickCompaction` | ios/Pods/leveldb-library/db/version_set.cc:1270-1322 | The inputs are good inputs, start at the sought file or at the first one after the compaction pointer (wrapping around), the pointer moves to their largest key, and the grandparents are the overlapping ones. |
| `DbImpls.DbImpl.BackgroundCompaction` | ios/Pods/leveldb-library/db/db_impl.cc:711-743 | From the picked inputs exactly a move step if they are one file without parents and with little grandparent overlap, and exactly the start of a compaction if not. |
| `DbImpls.DbImpl.MoveFile` | ios/Pods/leveldb-library/db/db_impl.cc:718-733 | A trivial move is exactly the move step: one file, one level down, logged in the manifest. |
| `DbImpls.DbImpl.OpenCompactionOutputFile` | ios/Pods/leveldb-library/db/db_impl.cc:786-809 | The output gets the next file number, which is pending from then on. |
| `DbImpls.DbImpl.CompactInputs` | ios/Pods/leveldb-library/db/db_impl.cc:906-999 | The merged inputs run through the loop give what the drop rules leave of them. |
| `DbImpls.DbImpl.InstallCompactionResults` | ios/Pods/leveldb-library/db/db_impl.cc:860-876 | Installing is exactly the finish step: inputs out, outputs in, in one manifest record, nothing pending left. |
| `DbImpls.DbImpl.DoCompactionWork` | ios/Pods/leveldb-library/db/db_impl.cc:878-1048 | From picked inputs to installed outputs is a path of steps of the state machine. |
| `DbImpls.DbImpl.DeleteObsoleteFiles` | ios/Pods/leveldb-library/db/db_impl.cc:223-278 | Exactly the delete step: tables of no live version and logs before the manifest's go, everything else stays. |
| `DbImpls.DbImpl.OpenFrom` | ios/Pods/leveldb-library/db/db_impl.cc:280-369 | Opening from a rebuilt version, numbers, compaction pointers and log records is exactly the crash step of the state machine, and the pointers are restored. |
| `DbImpls.DbImpl.CrashAndOpen` | ios/Pods/leveldb-library/db/db_impl.cc:280-369 | Losing the memory and opening again (version rebuilt from the manifest, logs replayed) is exactly the crash step of the state machine. |
| `DbCalls.AddPinnedFiles` | ios/Pods/leveldb-library/db/version_set.cc:1167-1177 | The live set gains exactly the file numbers of all versions readers hold. |
| `InternalKeys.CompareIsTotalOrder` | ios/Pods/leveldb-library/db/dbformat.cc:51-67 | The internal comparator is a strict total order that equates only equal keys. |
| `InternalKeys.SeekKeySkips` | ios/Pods/leveldb-library/db/dbformat.cc:121-137 | Before a lookup key come exactly smaller user keys and the newer entries of the same one. |
| `Version.FindFile` | ios/Pods/leveldb-library/db/version_set.cc:88-106 | In a disjoint level the binary search returns the first file whose largest key is at or after the target; in any other list, what `Search` says. |
| `Version.LookupInNewest` | ios/Pods/leveldb-library/db/memtable.cc:100-134 | The first entry at or after the lookup key, if of that user key, is the newest visible one; otherwise there is none. |
| `Lookup.GetLevel0` | ios/Pods/leveldb-library/db/version_set.cc:349-417 | Among overlapping level-0 files, newest first, the first hit is the newest visible entry; no hit means there is none. |
| `Lookup.GetSortedLevel` | ios/Pods/leveldb-library/db/version_set.cc:365-417 | In a disjoint level the one file the binary search finds answers for the level, even if the key spans files; in any other, what `LevelAnswer` says. |
| `Lookup.VersionGet` | ios/Pods/leveldb-library/db/version_set.cc:326-421 | The first hit from level 0 down is the newest visible entry of the whole version; no hit means there is none. |
| `Lookup.DbGet` | ios/Pods/leveldb-library/db/db_impl.cc:1121-1133 | Memtable, immutable memtable and version searched in turn give the read of the union of all entries. |
| `Inputs.SomeFileOverlapsRange` | ios/Pods/leveldb-library/db/version_set.cc:122-158 | True if and only if some file overlaps the user-key range, with null bounds and on both search paths. |
| `Inputs.GetOverlappingInputs` | ios/Pods/leveldb-library/db/version_set.cc:519-559 | The overlapping files; on level 0 those of the least range that includes the given one and is closed under overlap (the restarts of the loop). |
| `Boundary.FindSmallestBoundaryFile` | ios/Pods/leveldb-library/db/version_set.cc:1344-1362 | The boundary file with the least smallest key; none if and only if there is no boundary file. |
| `Boundary.AddBoundaryInputs` | ios/Pods/leveldb-library/db/version_set.cc:1378-1401 | No boundary file is left out, nothing but a chain of boundary files is added, and a contiguous selection stays contiguous. |
| `SetupInputs.SetupOtherInputs` | ios/Pods/leveldb-library/db/version_set.cc:1403-1462 | Both input levels: what stays behind at the level is newer, the parents are exactly the overlapping ones, the inputs have no gap, and the grandparents are exactly the overlapping ones. |
| `SetupInputs.GrowInputs` | ios/Pods/leveldb-library/db/version_set.cc:1417-1447 | The inputs become all files over the range of both levels (with their boundary files) exactly if that adds some, stays under the byte limit and brings in no further parent; if not, they stay. |
| `SetupInputs.ExpansionKeepsParents` | ios/Pods/leveldb-library/db/version_set.cc:1430-1433 | A wider range with the same number of parents has the same parents. |
| `SetupInputs.FirstAfterPointer` | ios/Pods/leveldb-library/db/version_set.cc:1284-1296 | The first file after the compaction pointer, or the first of the level. |
| `SetupInputs.PickCompaction` | ios/Pods/leveldb-library/db/version_set.cc:1305-1319 | From any starting file, on any level, to good inputs that include it. |
| `Picking.GetRange` | ios/Pods/leveldb-library/db/version_set.cc:1205-1222 | The least smallest and greatest largest key of the files. |
| `FlushPlacement.PickLevelForMemTableOutput` | ios/Pods/leveldb-library/db/version_set.cc:491-517 | The table goes down from level 0 until a file of the next level is met or too many bytes below it, exactly, and never below level 2. |
| `InFlight.PickedIsPending` | ios/Pods/leveldb-library/db/version_set.cc:1270-1322 | Freshly picked inputs are such as a running compaction needs. |
| `InFlight.FlushKeepsPending` | ios/Pods/leveldb-library/db/db_impl.cc:908-918 | A memtable flushed in the middle of a compaction, to whichever level, leaves the inputs as the compaction needs them. |
| `ManualCompaction.CompactRange` | ios/Pods/leveldb-library/db/version_set.cc:1464-1495 | The inputs of a manual compaction: nothing exactly if no file overlaps the range; if some do, on level 0 all of them, above it the first ones up to the byte limit, with the parents and grandparents they overlap. Without gaps they are such as the store picks itself. |
| `ManualCompaction.InstallIff` | ios/Pods/leveldb-library/db/version_set.cc:723-754 | Installing any compaction, gaps in its inputs or not, keeps the version invariant if and only if no file at the output level overlaps an output. |
| `HiddenWrites.Flushes` | ios/Pods/leveldb-library/db/version_set.cc:491-517 | From the empty version on, five flushes put two tables on level 2, two on level 1 above them, and, while the compaction runs, the last one into the gap on level 2, under any byte limit above zero. |
| `HiddenWrites.TakesAll` | ios/Pods/leveldb-library/db/version_set.cc:1464-1495 | Meanwhile the manual compaction of level 1 has those files around the gap as its inputs. |
| `HiddenWrites.OutputSurvives` | ios/Pods/leveldb-library/db/db_impl.cc:906-999 | What the compaction loop leaves of them is one table from key 1 to key 5. |
| `HiddenWrites.InstallsOverlap` | ios/Pods/leveldb-library/db/version_set.cc:723-754 | Installing that table leaves level 2 with overlapping files. |
| `HiddenWrites.WriteIsHidden` | ios/Pods/leveldb-library/db/version_set.cc:365-417 | Key 3 is in the version, the newest entry of its key, and the search of every level misses it at every snapshot. |
| `CompactionLoop.Compaction.IsBaseLevelForKey` | ios/Pods/leveldb-library/db/version_set.cc:1533-1552 | With keys asked in order, the advancing cursors answer exactly whether no deeper level covers the key. |
| `CompactionLoop.Compaction.ShouldStopBefore` | ios/Pods/leveldb-library/db/version_set.cc:1554-1576 | The cursor stands at the first grandparent not before the key, the overlap counted is the bytes passed since the last cut, and the answer is yes exactly if that is above the limit. |
| `CompactionLoop.DropEntry` | ios/Pods/leveldb-library/db/db_impl.cc:929-963 | From what the loop remembers of the entry before, exactly the entries that the declarative rules drop. |
| `CompactionLoop.DoCompactionWork` | ios/Pods/leveldb-library/db/db_impl.cc:906-999 | The outputs, put together, are exactly the surviving entries in order, and none is empty. |
| `Outputs.SurvivorsMeaning` | ios/Pods/leveldb-library/db/db_impl.cc:946-960 | The survivors are exactly the entries not hidden by a newer one all snapshots see and not an obsolete deletion. |
| `Outputs.TablesMeaning` | ios/Pods/leveldb-library/db/db_impl.cc:811-858 | The output tables are disjoint, in order, and hold exactly the survivors. |
| `DropRules.PreservesReadsIff` | ios/Pods/leveldb-library/db/db_impl.cc:946-960 | Replacing any inputs by what the rules keep preserves all reads from a floor on if and only if no dropped deletion covered an older value outside the inputs. |
| `CompactionReads.CompactionPreservesReadsIff` | ios/Pods/leveldb-library/db/version_set.cc:1406-1411 | Installing a compaction preserves all reads from a floor on if and only if there is no hazard: an unselected boundary file at the next level that continues, with a value, a key whose visible deletion is dropped. |
| `CompactionReads.HazardIsRead` | ios/Pods/leveldb-library/db/version_set.cc:1406-1411 | With the hazard, a key that read as deleted reads the boundary file's value afterwards. |
| `CompactionReads.ClosedParentsAvoidHazard` | ios/Pods/leveldb-library/db/version_set.cc:1410-1411 | If no key continues from the selected parents into an unselected one, there is no hazard. |
| `Install.FlushKeepsInvariant` | ios/Pods/leveldb-library/db/version_set.cc:723-754 | Adding a flushed table at the level chosen keeps the version invariant. |
| `Install.ReplaceKeepsInvariant` | ios/Pods/leveldb-library/db/version_set.cc:723-754 | Replacing good inputs by the outputs keeps the version invariant. |
| `VersionBuilder.SaveTo` | ios/Pods/leveldb-library/db/version_set.cc:695-739 | The merge loop with upper bounds saves exactly the merge of base and added files without the deleted ones. |
| `VersionBuilder.SaveLevelMeaning` | ios/Pods/leveldb-library/db/version_set.cc:695-739 | What is saved is sorted and is exactly the base and added files whose numbers are not deleted. |
| `Manifest.ReplayRebuildsIff` | ios/Pods/leveldb-library/db/version_set.cc:924-992 | One builder over the edits, saved once, gives what installing them one at a time gives, for every prefix of the edits, if and only if no edit adds a number the base holds and additions with the same number add the same file. |
| `Manifest.ReplayRebuildsLevel` | ios/Pods/leveldb-library/db/version_set.cc:924-975 | So it does if no number is added twice. |
| `Manifest.ReusedNumberDiffers` | ios/Pods/leveldb-library/db/version_set.cc:658-692 | If a number is added, deleted and added again with other contents, the one builder keeps both files. |
| `DbEdits.InstallRecord` | ios/Pods/leveldb-library/db/version_set.cc:816-821 | Every level becomes what the builder saves for it. |
| `DbEdits.InstalledReplace` | ios/Pods/leveldb-library/db/db_impl.cc:866-875 | The record of a compaction, by file numbers, replaces exactly the input files. |
| `DbEdits.RebuildVersion` | ios/Pods/leveldb-library/db/version_set.cc:924-992 | The loop over the manifest's records computes the version replay specifies. |
| `DbEdits.RebuildsCurrent` | ios/Pods/leveldb-library/db/version_set.cc:924-992 | That version is the one the store had. |
| `DbEdits.InputMerges` | ios/Pods/leveldb-library/db/version_set.cc:1237-1268 | The children over the inputs (one per level-0 file, one per other level) merge into every input entry once, in order. |
| `RecoverLogs.LogsToReplay` | ios/Pods/leveldb-library/db/db_impl.cc:323-350 | The logs from the manifest's on, each once, in increasing order. |
| `RecoverLogs.RecoverLogFile` | ios/Pods/leveldb-library/db/db_impl.cc:371-489 | One log: tables that hold its entries in stretches, new numbers, and the greatest sequence found. |
| `RecoverLogs.ReplayLogs` | ios/Pods/leveldb-library/db/db_impl.cc:349-362 | All logs: the tables hold exactly their entries in order, and the logs' numbers are used up. |
| `RecoverLogs.Recover` | ios/Pods/leveldb-library/db/db_impl.cc:314-366 | From the logs on disk and the manifest's numbers to the tables, the next number and the greatest sequence. |
| `DiskRestart.TornLogGivesBatches` | ios/Pods/leveldb-library/db/db_impl.cc:417-453 | A log file cut off at any byte yields exactly the entries of the batches that are whole. |
| `DiskRestart.WholeBatchesSurvive` | ios/Pods/leveldb-library/db/log_reader.cc:56-174 | Every batch that was whole in the file before the cut is among those read. |
| `DiskRestart.CrashFilesGiveLogs` | ios/Pods/leveldb-library/db/db_impl.cc:417-453 | From the bytes of the log files after a crash: every acknowledged entry comes back, and the batch in flight as a whole or not at all. |
| `DiskRestart.ManifestReadsBack` | ios/Pods/leveldb-library/db/version_set.cc:924-948 | The edits decoded from a manifest file are those encoded into it. |
| `DiskRestart.AppendKeepsManifestFile` | ios/Pods/leveldb-library/db/version_set.cc:841-860 | The edit LogAndApply appends keeps the file a manifest of the store, with the numbers of the new state. |
| `DiskRestart.RecoverManifest` | ios/Pods/leveldb-library/db/version_set.cc:886-1011 | From any bytes: succeeds exactly if all records decode, the comparator is the store's and the three numbers are there; the version is the replay of the edits and each number the last one given. |
| `DiskRestart.ManifestGivesStore` | ios/Pods/leveldb-library/db/version_set.cc:886-1011 | From the bytes of the store's manifest come its version, its log number, last sequence and next file number, and the last compaction pointers. |
| `DiskRestart.OpenFromBytes` | ios/Pods/leveldb-library/db/db_impl.cc:280-369 | From the bytes of the manifest and of the cut logs alone the store goes on by exactly the crash step, with the batch in flight whole or not at all. |
| `LogFiles.Writer.AddRecord` | ios/Pods/leveldb-library/db/log_writer.cc:34-80 | The file gains the record's fragments and block trailers as the format says. |
| `LogFiles.Writer.EmitPhysicalRecord` | ios/Pods/leveldb-library/db/log_writer.cc:82-108 | Header with masked checksum, length and type, then the payload. |
| `LogFiles.Reader.ReadPhysicalRecord` | ios/Pods/leveldb-library/db/log_reader.cc:189-271 | At any byte position of any file: the type and payload, the end, or damage with or without a report, as the format defines them. |
| `LogFiles.Reader.ReadRecord` | ios/Pods/leveldb-library/db/log_reader.cc:56-174 | For any file, well formed or not: the next logical record, its offset, the position after it and the number of reports. |
| `LogFiles.WriteLog` | ios/Pods/leveldb-library/db/log_writer.cc:34-80 | The file holds exactly the records given, in the format. |
| `LogFiles.ReadLog` | ios/Pods/leveldb-library/db/db_impl.cc:417-453 | The loop over a log cut off anywhere finds exactly the whole records and reports nothing. |
| `LogFiles.WriteAndRead` | ios/Pods/leveldb-library/db/log_reader.cc:56-174 | Records written through the writer come back from the reader, of a file cut off anywhere those that are whole. |
| `LogRoundTrip.ReadEmitted` | ios/Pods/leveldb-library/db/log_reader.cc:56-174 | Reading where a record was written gives it back; if the file ends inside it, it is dropped without a report. |
| `LogRoundTrip.TornLogReadsBack` | ios/Pods/leveldb-library/db/log_reader.cc:56-174 | Any prefix of a log reads back as exactly the records that are whole in it, without a report. |
| `LogRoundTrip.LogReadsBack` | ios/Pods/leveldb-library/db/log_reader.cc:56-174 | A whole log reads back as its records at their offsets. |
| `LogFormat.StoredCrcMatches` | ios/Pods/leveldb-library/db/log_reader.cc:244-257 | The reader accepts every checksum the writer stores. |
| `Merging.SmallestIsNext` | ios/Pods/leveldb-library/table/merger.cc:148-161 | With every child at its first entry of rank `m` or more, the least child stands at the merge's entry of rank `m`; none is valid exactly at the end. |
| `Merging.LargestIsPrevious` | ios/Pods/leveldb-library/table/merger.cc:163-176 | With every child at its last entry of rank below `m`, the greatest child stands at rank `m - 1`. |
| `Merging.MergingIterator.FindSmallest` | ios/Pods/leveldb-library/table/merger.cc:148-161 | The cursor is at rank `m`, all children in place. |
| `Merging.MergingIterator.FindLargest` | ios/Pods/leveldb-library/table/merger.cc:163-176 | The cursor is at rank `m - 1`, or invalid. |
| `Merging.MergingIterator.SeekToFirst` | ios/Pods/leveldb-library/table/merger.cc:31-37 | The first entry of the merge. |
| `Merging.MergingIterator.SeekToLast` | ios/Pods/leveldb-library/table/merger.cc:39-45 | The last entry of the merge. |
| `Merging.MergingIterator.Seek` | ios/Pods/leveldb-library/table/merger.cc:47-53 | The first entry of the merge at or after the target. |
| `Merging.MergingIterator.Next` | ios/Pods/leveldb-library/table/merger.cc:55-79 | One entry on in the merge, from either direction. |
| `Merging.MergingIterator.Prev` | ios/Pods/leveldb-library/table/merger.cc:81-108 | One entry back in the merge, from either direction. |
| `DbIterator.DBIter.Seek` | ios/Pods/leveldb-library/db/db_iter.cc:269-281 | The first live key at or after the target. |
| `DbIterator.DBIter.SeekToFirst` | ios/Pods/leveldb-library/db/db_iter.cc:283-292 | The first live key. |
| `DbIterator.DBIter.SeekToLast` | ios/Pods/leveldb-library/db/db_iter.cc:294-299 | The last live key. |
| `DbIterator.DBIter.Next` | ios/Pods/leveldb-library/db/db_iter.cc:141-166 | The next live key, from either direction. |
| `DbIterator.DBIter.Prev` | ios/Pods/leveldb-library/db/db_iter.cc:200-225 | The previous live key, from either direction. |
| `DbIterator.DBIter.FindNextUserEntry` | ios/Pods/leveldb-library/db/db_iter.cc:168-198 | Stops at the first acceptable entry from its start on, and skips no acceptable one. |
| `DbIterator.DBIter.FindPrevUserEntry` | ios/Pods/leveldb-library/db/db_iter.cc:227-267 | Stops behind the last live entry before its start with its key and value saved, and skips no live one. |
| `DbIterator.Drive` | ios/Pods/leveldb-library/db/db_iter.cc:141-299 | After any sequence of seeks and moves the iterator stands where the same moves lead in the list of live keys and shows that pair. |
| `Sources.ChildrenMerge` | ios/Pods/leveldb-library/db/db_impl.cc:1062-1087 | The sources of an iterator have distinct keys and merge into exactly what lookups can reach. |
| `Sources.IterationAgreesWithReads` | ios/Pods/leveldb-library/db/db_impl.cc:1147-1157 | An iterator lists exactly the keys and values that lookups find at its snapshot, in increasing order. |
| `LiveMap.GrowthKeepsCursor` | ios/Pods/leveldb-library/db/db_impl.cc:1062-1087 | Entries newer than an iterator's sequence that its children gain meanwhile leave the list of live pairs and the cursor's place in it as they were. |
| `SkipLists.SkipList.FindGreaterOrEqual` | ios/Pods/leveldb-library/db/skiplist.h:260-281 | The least key at or after the target, and the place to link in on every level. |
| `SkipLists.SkipList.FindLessThan` | ios/Pods/leveldb-library/db/skiplist.h:283-302 | The greatest key before the target. |
| `SkipLists.SkipList.FindLast` | ios/Pods/leveldb-library/db/skiplist.h:304-322 | The greatest key. |
| `SkipLists.SkipList.Insert` | ios/Pods/leveldb-library/db/skiplist.h:337-368 | Exactly the levels below the height gain the key, all stay in order. |
| `SkipLists.SkipList.Contains` | ios/Pods/leveldb-library/db/skiplist.h:371-378 | Membership, both ways. |
| `SkipListRuns.LevelsStaySorted` | ios/Pods/leveldb-library/db/skiplist.h:337-368 | In every interleaving of one writer and any readers, the links of each level visit its keys once, in order, and levels nest. |
| `SkipListRuns.KeysGrow` | ios/Pods/leveldb-library/db/skiplist.h:16-26 | No key is ever taken out. |
| `SkipListRuns.SeekMissesNothing` | ios/Pods/leveldb-library/db/skiplist.h:260-281 | A lock-free seek ends at the least key at or after its target, and before no key inserted earlier in the run. |
| `SkipListRuns.BackwardSearchesEnd` | ios/Pods/leveldb-library/db/skiplist.h:283-322 | The backward searches end at the greatest key before the target, and at the greatest key. |
| `SkipListRuns.ScanMeetsAll` | ios/Pods/leveldb-library/db/skiplist.h:207-231 | A scan meets every key that was there when it began, in order, and only keys that are there. |
| `SkipListRuns.InsertIsAtomic` | ios/Pods/leveldb-library/db/skiplist.h:361-367 | A key appears at one store, the one that links it in on level 0, and is there when Insert returns. |
| `MemTables.SeekIsLookup` | ios/Pods/leveldb-library/db/memtable.cc:100-134 | The node a seek to the lookup key finds answers as the search of the sorted entries does. |
| `MemTables.ConcurrentGet` | ios/Pods/leveldb-library/db/memtable.cc:100-134 | In every interleaving of one writer and any readers, a memtable lookup that began after its snapshot was published answers as the memtable of that moment. |
| `WriteQueue.BuildBatchGroup` | ios/Pods/leveldb-library/db/db_impl.cc:1260-1306 | The group is the longest prefix of the queue that the size and sync rules allow, and its operations are those of the prefix in order. |
| `WriteQueue.GroupReachesIff` | ios/Pods/leveldb-library/db/db_impl.cc:1278-1303 | A writer is in the group if and only if every writer up to it fits. |
| `GroupCommit.CompletedOnceInOrder` | ios/Pods/leveldb-library/db/db_impl.cc:1185-1256 | In every interleaving each writer is completed once, in the order of arrival, or still waits in that order. |
| `GroupCommit.RangesAreConsecutive` | ios/Pods/leveldb-library/db/db_impl.cc:1209-1237 | Sequence ranges of completed writers are consecutive and add up to the published sequence. |
| `GroupCommit.SyncMeansSynced` | ios/Pods/leveldb-library/db/db_impl.cc:1218-1233 | A successful write is in a log record at its own numbers, and in a synced one if it asked for sync, whoever led its group. |
| `GroupCommit.NobodyIsForgotten` | ios/Pods/leveldb-library/db/db_impl.cc:1240-1254 | The front of the queue is never left asleep, and no completed writer is. |
| `GroupCommit.ReadersSeeWholeGroups` | ios/Pods/leveldb-library/db/db_impl.cc:1209-1237 | A sequence published in any state shows, now and in every later state, exactly the operations acknowledged until then. |
| `GroupCommit.PublishIsAtomic` | ios/Pods/leveldb-library/db/db_impl.cc:1209-1237 | A group becomes visible as a whole in one step, or not at all if it failed. |
| `NullBatches.NullBatchSwitchesIff` | ios/Pods/leveldb-library/db/db_impl.cc:1201-1248 | In every interleaving a writer with a null batch has forced a memtable switch if and only if it succeeded and no earlier leader's group took it in. |
| `LostSwitches.SwitchIsLost` | ios/Pods/leveldb-library/db/db_impl.cc:1278-1303 | A concrete run of seven steps in which a writer with a null batch is completed with success and no memtable has been switched. |
| `GroupWrites.QueueRunIsStoreRun` | ios/Pods/leveldb-library/db/db_impl.cc:1185-1256 | Every run of the write queue without a failed group is a run of the store with one write step for each published group, and both have published the same operations under the same numbers. |
| `WriteBatches.WriteBatch.Add` | ios/Pods/leveldb-library/db/write_batch.cc:98-109 | The count goes up by one and the record is appended. |
| `WriteBatches.WriteBatch.SetSequence` | ios/Pods/leveldb-library/db/write_batch.cc:94-96 | Only the sequence changes. |
| `WriteBatches.WriteBatch.Append` | ios/Pods/leveldb-library/db/write_batch.cc:144-149 | The batch holds its operations and then those of the other. |
| `WriteBatches.WriteBatch.InsertInto` | ios/Pods/leveldb-library/db/write_batch.cc:132-137 | On any bytes, damaged ones too: the operations before the damage are inserted under consecutive numbers, and the status is that of the iteration. |
| `WriteBatches.IterateReadsBack` | ios/Pods/leveldb-library/db/write_batch.cc:42-80 | A batch is read back as exactly the operations put into it. |
| `WriteBatches.InsertedInOrder` | ios/Pods/leveldb-library/db/write_batch.cc:117-137 | Inserted operations get consecutive numbers in order from the batch's sequence. |
| `WriteBatches.AppendAll` | ios/Pods/leveldb-library/db/db_impl.cc:1278-1303 | The group's batch holds the operations of all its writers in order. |
| `Crc32c.Extend` | ios/Pods/leveldb-library/util/crc32c.cc:276-377 | The four-stride table loop, with its alignment and tail paths, computes the CRC defined bit by bit, for every data and address. |
| `Crc32c.Step4IsStride` | ios/Pods/leveldb-library/util/crc32c.cc:293-300 | One step of an accumulator is sixteen zero bytes and the new word. |
| `Crc32c.CombineStep` | ios/Pods/leveldb-library/util/crc32c.cc:318-356 | Feeding a word to the accumulator in turn is taking the word into the combined register. |
| `Crc32c.ExtendConcat` | ios/Pods/leveldb-library/util/crc32c.h:13-17 | Extending over two pieces is extending over their concatenation. |
| `Crc32c.ByteTableEntries` | ios/Pods/leveldb-library/util/crc32c.cc:20-63 | The entries of the byte table at powers of two have the literal values of the source. |
| `Crc32c.ByteTableLinear` | ios/Pods/leveldb-library/util/crc32c.cc:20-63 | The other entries are sums of those. |
| `Coding.Varint32RoundTrip` | ios/Pods/leveldb-library/util/coding.cc:47-73 | Every 32-bit value is read back, with what follows it. |
| `Coding.Varint64RoundTrip` | ios/Pods/leveldb-library/util/coding.cc:81-90 | Every 64-bit value is read back, with what follows it. |
| `Coding.DecodeVarint` | ios/Pods/leveldb-library/util/coding.cc:112-157 | The shifting loop computes the value of the digits, or fails where they do. |
| `Coding.SliceRoundTrip` | ios/Pods/leveldb-library/util/coding.cc:181-190 | A length-prefixed slice is read back, with what follows it. |
| `Coding.Fixed64Iff` | ios/Pods/leveldb-library/util/coding.h:74-85 | Eight bytes decode to a value exactly if they are its encoding. |
| `EditFormat.EncodeTo` | ios/Pods/leveldb-library/db/version_edit.cc:41-85 | The fields in the order and with the tags of the format. |
| `EditFormat.DecodeFrom` | ios/Pods/leveldb-library/db/version_edit.cc:107-205 | Succeeds exactly where the format decodes; the fields become those of the part that was read, after an error too. |
| `EditFormat.DecodeEncode` | ios/Pods/leveldb-library/db/version_edit.cc:26-39 | What decoding an encoded edit gives into any object: the edit, behind whatever compaction pointers the object held. |
| `EditFormat.RoundTripIff` | ios/Pods/leveldb-library/db/version_edit.cc:26-39 | The round trip into an object is exact if and only if the object held no compaction pointers. |
| `KeyFormat.ParsesIff` | ios/Pods/leveldb-library/db/dbformat.h:165-175 | A string parses as a key if and only if it is that key's encoding. |
| `KeyFormat.CompareEncoded` | ios/Pods/leveldb-library/db/dbformat.cc:51-67 | On encodings the comparator orders by user key, then decreasing sequence, and tells any two keys apart. |
| `KeyFormat.ReadAdded` | ios/Pods/leveldb-library/db/memtable.cc:75-134 | An added memtable entry is read back, whatever follows it in the arena. |
| `Bloom.Probes` | ios/Pods/leveldb-library/util/bloom.cc:19-24 | The bits per key times 0.69, rounded down and clamped to 1..30. |
| `Bloom.CreateFilter` | ios/Pods/leveldb-library/util/bloom.cc:28-54 | Exactly the bits probed by some key are set, and the probe count is stored. |
| `Bloom.MayMatch` | ios/Pods/leveldb-library/util/bloom.cc:56-80 | The probe loop answers what the specification does, short and reserved filters included. |
| `Bloom.NoFalseNegatives` | ios/Pods/leveldb-library/util/bloom.cc:56-80 | A filter matches every key it was made for. |
| `FilterBlock.FilterBlockBuilder.StartBlock` | ios/Pods/leveldb-library/table/filter_block.cc:21-27 | Filters are generated up to the block's slot, and every key added stays covered. |
| `FilterBlock.FilterBlockBuilder.AddKey` | ios/Pods/leveldb-library/table/filter_block.cc:29-33 | The key is added at the current block's offset. |
| `FilterBlock.FilterBlockBuilder.GenerateFilter` | ios/Pods/leveldb-library/table/filter_block.cc:51-75 | One more slot, earlier ones unchanged, pending keys covered. |
| `FilterBlock.FilterBlockBuilder.Finish` | ios/Pods/leveldb-library/table/filter_block.cc:35-49 | The reader of the finished block answers yes for every key added, at its offset. |
| `FilterBlock.ReaderAsksSlot` | ios/Pods/leveldb-library/table/filter_block.cc:90-104 | The reader answers what the filter of the offset's slot says, and yes past the last slot. |
| `FilterBlock.LayoutOfBlock` | ios/Pods/leveldb-library/table/filter_block.cc:77-88 | The reader finds the offsets where the builder put them. |
| `BlockFormat.DecodeRoundTrip` | ios/Pods/leveldb-library/table/block.cc:54-74 | The entry header is decoded as it was encoded, on the short and the general path. |
| `BlockBuilders.BlockBuilder.Add` | ios/Pods/leveldb-library/table/block_builder.cc:72-106 | The block holds one more entry, with prefixes shared and restart points where the interval says. |
| `BlockBuilders.BlockBuilder.Finish` | ios/Pods/leveldb-library/table/block_builder.cc:62-70 | The entries, then the restart array and its length. |
| `BlockIterators.Iter.ParseNextKey` | ios/Pods/leveldb-library/table/block.cc:224-251 | From before any entry to that entry, its key rebuilt from the shared prefix. |
| `BlockIterators.Iter.Next` | ios/Pods/leveldb-library/table/block.cc:137-140 | One entry on. |
| `BlockIterators.Iter.Prev` | ios/Pods/leveldb-library/table/block.cc:142-161 | One entry back, by way of the restart point before. |
| `BlockIterators.Iter.Seek` | ios/Pods/leveldb-library/table/block.cc:163-201 | The first entry at or after the target. |
| `BlockIterators.Iter.SeekToFirst` | ios/Pods/leveldb-library/table/block.cc:203-206 | The first entry. |
| `BlockIterators.Iter.SeekToLast` | ios/Pods/leveldb-library/table/block.cc:208-213 | The last entry. |
| `BlockRoundTrip.ReadBack` | ios/Pods/leveldb-library/table/block.cc:137-251 | A built block iterates, forwards and backwards, over exactly the entries added. |
| `Separators.FindShortestSeparator` | ios/Pods/leveldb-library/util/comparator.cc:29-50 | The result is the start, or lies strictly between and is no longer; it stays below the limit. |
| `Separators.FindShortSuccessor` | ios/Pods/leveldb-library/util/comparator.cc:52-64 | A key no smaller and no longer; unchanged only if it is all 0xff bytes. |
| `Separators.InternalSeparator` | ios/Pods/leveldb-library/db/dbformat.cc:69-86 | At or after the start, before the limit, on internal keys. |
| `Separators.InternalSuccessor` | ios/Pods/leveldb-library/db/dbformat.cc:88-101 | At or after the key. |
| `Tables.TableBuilder.Add` | ios/Pods/leveldb-library/table/table_builder.cc:94-123 | The table holds one more entry; pending index key, block boundary and filter block are in order. |
| `Tables.TableBuilder.Finish` | ios/Pods/leveldb-library/table/table_builder.cc:198-253 | The blocks hold exactly the entries added, the index separates them, and the finished filter block answers yes for every key at its block's offset. |
| `Tables.IndexedIsSeparated` | ios/Pods/leveldb-library/table/table_builder.cc:98-106 | Index keys made by shortening separate the blocks. |
| `Tables.SeekLands` | ios/Pods/leveldb-library/table/two_level_iterator.cc:82-87 | The index seek and the block seek together find the place among all entries. |
| `Tables.InternalGet` | ios/Pods/leveldb-library/table/table.cc:216-244 | Through the filter block that was built, or none: the table lookup finds the first entry at or after the key whenever it has the key's user key. |
| `Tables.GetIsLookup` | ios/Pods/leveldb-library/db/version_set.cc:263-276 | With the user-key check of the caller it is the lookup in the table's entries. |
| `Tables.BuildAndGet` | ios/Pods/leveldb-library/table/table.cc:216-244 | A table built from sorted entries, with its filter block, looks up as the sorted entries do. |
| `TwoLevel.TwoLevelIterator.Seek` | ios/Pods/leveldb-library/table/two_level_iterator.cc:82-87 | The first entry at or after the target, over all blocks. |
| `TwoLevel.TwoLevelIterator.SeekToFirst` | ios/Pods/leveldb-library/table/two_level_iterator.cc:89-94 | The first entry. |
| `TwoLevel.TwoLevelIterator.SeekToLast` | ios/Pods/leveldb-library/table/two_level_iterator.cc:96-101 | The last entry. |
| `TwoLevel.TwoLevelIterator.Next` | ios/Pods/leveldb-library/table/two_level_iterator.cc:103-107 | One entry on, over empty blocks. |
| `TwoLevel.TwoLevelIterator.Prev` | ios/Pods/leveldb-library/table/two_level_iterator.cc:109-113 | One entry back, over empty blocks. |
| `TwoLevel.TwoLevelIterator.EntryAtCursor` | ios/Pods/leveldb-library/table/two_level_iterator.cc:33-41 | The entry shown is the one at the position among all blocks' entries. |
| `TwoLevel.Scan` | ios/Pods/leveldb-library/table/two_level_iterator.cc:89-113 | From the first entry to the end the iterator shows exactly the entries of all blocks. |
| `HandleTables.HandleTable.Lookup` | ios/Pods/leveldb-library/util/cache.cc:74-76 | The handle of the key, if there is one. |
| `HandleTables.HandleTable.Insert` | ios/Pods/leveldb-library/util/cache.cc:78-92 | The map with the key changed, and the handle it replaced. |
| `HandleTables.HandleTable.Remove` | ios/Pods/leveldb-library/util/cache.cc:94-102 | The map without the key, and the handle it had. |
| `HandleTables.HandleTable.Resize` | ios/Pods/leveldb-library/util/cache.cc:122-147 | More buckets, no handle lost or changed. |
| `LruCaches.LRUCache.Ref` | ios/Pods/leveldb-library/util/cache.cc:217-223 | One more reference; a handle that was only cached moves to the in-use list. |
| `LruCaches.LRUCache.Lookup` | ios/Pods/leveldb-library/util/cache.cc:252-259 | The cached handle, with one more reference; every other handle, key and list entry stays. |
| `LruCaches.LRUCache.Release` | ios/Pods/leveldb-library/util/cache.cc:225-237 | One reference fewer: the last frees the handle, the last but the cache's moves it to the end of the LRU list. |
| `LruCaches.LRUCache.FinishErase` | ios/Pods/leveldb-library/util/cache.cc:307-316 | Off its list, its charge out of the usage, freed unless a client holds it. |
| `LruCaches.LRUCache.Erase` | ios/Pods/leveldb-library/util/cache.cc:318-321 | Exactly that key goes. |
| `LruCaches.LRUCache.EvictOldest` | ios/Pods/leveldb-library/util/cache.cc:293-301 | The oldest unheld handle goes, and the rest of the cache stays as it was. |
| `LruCaches.LRUCache.Insert` | ios/Pods/leveldb-library/util/cache.cc:266-304 | The whole new state: the key maps to the new handle, a prefix of the LRU list just long enough is evicted, and all other handles, keys and charges stay. |
| `LruCaches.LRUCache.Prune` | ios/Pods/leveldb-library/util/cache.cc:323-333 | Exactly the unheld handles go; every other handle and key stays. |

## Left out

Contracts that say less than the code does:

- DbViews.ReadersKeepTheirView: supposes that no compaction had finished with the hazard before the reader took its references; without that the property is false, as stated above, and `DbViews.ReaderIsRightIff` says when it holds.
- DbViews.Get: the references are those a reader of the run holds, as values of the state in which the lookup goes through them.
- DbImpls.DbImpl.Get: no step of another thread falls into the lookup; `DbViews.Get` is the lookup with any steps in between.
- DbImpls.DbImpl.DoCompactionWork: no step of another thread falls between its calls; the state machine allows them anywhere, and `InFlight.FlushKeepsPending` covers the flushes.
- DbImpls.DbImpl.BackgroundCompaction: the level or file to compact and the byte limits are parameters; the branch for a manual compaction is `ManualCompaction.CompactRange` and is not a step of the runs.
- DbImpls.DbImpl.MakeRoomForWrite: one round of the loop; waiting is the caller's, and memory usage and whether there is a background error are parameters.
- DbImpls.DbImpl.CrashAndOpen: the log records and the size at which a recovered memtable is full are parameters; `DiskRestart.OpenFromBytes` derives the records, the version and the numbers from bytes.
- RecoverLogs.RecoverLogFile: a record is the list of its entries; records too small or damaged inside, whose batch fails to insert, stop or are skipped depending on paranoid checks, and are not part of this model.
- RecoverLogs.LogsToReplay: the previous log number, which only versions of the store older than this one recorded, is not considered.
- DiskRestart.OpenFromBytes: what a table file holds is an arbitrary function of its number, and the manifest must be whole: the code syncs it with every record.
- GroupWrites.QueueRunIsStoreRun: for runs of the queue in which no published group had failed, as the store's write step has no failures.
- SkipLists.SkipList.Insert: the height is a parameter instead of a random number.
- Bloom.CreateFilter: the hash is an arbitrary function, and 0.69 times the bits per key is taken in real numbers instead of floating point.
- Tables.InternalGet: blocks are lists of entries; reading blocks from files, compression and the block cache are not part of it.
- Tables.TableBuilder.Add: when a block is full and how many bytes it takes are parameters.
- Crc32c.Extend: the stride tables are given by their defining relation; only the byte table's entries at powers of two are compared with the source's literals.
- HandleTables.HandleTable.Resize: chains are lists, and the bucket of a hash is its remainder, which for a length that is a power of two is the mask the code uses.

What the model does not have:

- User keys are reals in the modules above the byte formats: the code only compares them, and every countable total order embeds in the reals. `DiskRestart` maps key bytes to them by an arbitrary function.
- Sequence numbers are bounded as the code assumes (below 2^56 - 1), and blocks and batches as their 32-bit fields allow; overflow beyond that is not modelled.
- Snapshots are a list in order of creation, cache handles are kept in a map by address, and the circular lists of both are sequences.
- Iterators over a memtable that grows meanwhile: the methods of `DbIterator` go over sources fixed when the iterator is made; that growth changes neither the list they go through nor a place in it is `DbViews.IterationStays` and `LiveMap.GrowthKeepsCursor`.
- The skip list's memory is sequentially consistent, but for the list's height, of which a reader may see any earlier value.
- Error paths: I/O errors, what sets a background error, shutdown in the middle of a compaction, read errors in tables, corrupt keys inside tables and the iterators' status.
- `RepairDB`, `DestroyDB`, `reuse_logs`, reading a log from an initial offset, and the file lock.
- Manual compactions as steps of the store's runs: `DBImpl::CompactRange` and `TEST_CompactRange` with their waiting and resuming. The theorems over runs are about runs without them.
- Compaction scores, seek charging and read sampling: which level or file is compacted next is left open, so the results hold for every choice.
- `GetProperty`, `GetApproximateSizes`, the arena, file naming, the table cache and the environment: they would only add easy members.
