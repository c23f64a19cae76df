# LevelDB and nanopb, modelled in Dafny

The application in this repository stores its data through two vendored
libraries: the LevelDB storage engine and the nanopb codec for Protocol Buffers.
This project models both, layer by layer, and proves what each layer promises
to the one above it.

**The store.** A database is a multi-version map: a set of entries (user key,
sequence number, put or delete). A read at sequence number `s` is the newest
entry of the user key that is not newer than `s` (`Store.Read`). Everything
else is measured against that.

- `Keys`, `InternalKeys`, `MemTables`, `WriteBatches`: keys and their order, on
  values and on bytes; the memtable; write batches as bytes.
- `Lsm`, `Compaction`, `CompactionSafety`, `SplitBoundary`: the tree of levels,
  the merge-and-drop loop with its one-way cursors, and when dropping is safe.
- `Selection`: which files a compaction takes. `Lookup`: how a read walks the
  tree. `Manifest`, `VersionEdits`: versions as edits, and edits as bytes.
- `Machine`, `MachineSafety`, `ManifestSafety`, `Fidelity`: the whole engine as a
  state machine, with background jobs cut into the steps between which other
  threads run or the process dies. `CrashSafety`: what a crash leaves is enough.
  `Runs`: what every run keeps.
- `DiskLogs`, `Recovery`, `Reopening`: the code that opens a database, from the
  bytes of logs and manifests that end anywhere, proved to be the machine's
  recovery step. `BackgroundCompactions`: the code of the background thread,
  proved to be the machine's job steps. `SplitRun`: a run to the version on which
  a compaction errs.
- `GroupCommit`, `SkipList`: the writer queue and the skip list, as step
  machines over all interleavings.
- `DbIter`, `Merger`, `TwoLevelIterators`, `Blocks`: cursors. Each is proved to be
  a place in a sorted sequence, for any mix of moves and turns.
- `Handles`, `HandleTables`, `LruCaches`: the cache on the heap, with chained
  buckets, circular lists and reference counts.
- `TableFormat`, `TableFiles`, `Tables`: whole table files, from the builder's calls
  to the bytes and back to a lookup, with `Separators`, `Bloom` and `FilterBlocks`.
- `Logs`, `LogDamage`: log files, whole, cut off or overwritten. `Coding`, `Crc`,
  `Crc32c`: the other formats.
- `Nanopb`, `NanopbStream`: messages described by field tables; the streams
  that write, size and read them.

**Main results.** In every state of every run of the machine, crashes included,
a read at a live snapshot or at the last sequence number is the read of the
batches that the actions of the run have committed
(`Runs.SnapshotReadsHistory`), and whatever was committed is read from then on,
or hidden by something newer (`Runs.CommittedIsRead`, `Runs.RecoveryLosesNothing`).
The recovery in these runs is the code's: opening a database from the bytes that
a crash in any state leaves, wherever they are cut, is that crash step, and finds
what was committed and no more than the batch whose record reached the log
(`Reopening.Reopen`). So are the jobs of the background thread
(`BackgroundCompactions.BackgroundCompaction`). Under all this lies the
compaction theorem: reads are kept if and only if no tombstone is dropped from
above a value (`CompactionSafety.CompactionPreservesReads`,
`MachineSafety.CompactionIsExact`), and the machine's compactions are those for
which this holds. The code does not check that condition: the comment in the
merge loop relies on both levels of the inputs being closed, which is enough
(`CompactionSafety.ClosedIsHarmless`), while the selection closes only the upper
one. `Selection.ClosedIffNoBoundary` says when the lower one is closed, in terms
of the files' bounds; `SplitRun.SplitIsReached` is a run to a version where it is
not, which `SplitRun.SplitIsPicked` compacts and on which a deleted value comes
back (`SplitBoundary.OpenLowerLevelResurrects`). For tables,
`TableFiles.WriteAndGet` and `TwoLevelIterators.WriteAndScan` go from sorted
entries to the bytes of a file and back to a lookup or a scan, past shortened
index keys and Bloom filters. For logs, `LogDamage.DamageIsLocal` says that damage
costs only the records that touch the blocks it is in.

**How to read it.** A class stands for an object that the source changes in
place; its ghost fields hold the mathematical value its `Valid` ties to the real
fields. Where the source is a loop, there is a method with that loop, proved
against a function or a predicate, and the lemmas are about that. `requires` on
a method is what the source's callers guarantee. The records of the manifest are
part of the machine's state; a crash keeps or loses the log record that is being
written, and finds the manifest record that is being written or not.

**Where code and comments differ.** `VersionEdit::Clear` leaves the compaction
pointers, so decoding into a used object keeps them; the model does the same.

`dafny verify dfyconfig.toml` checks the project.

## Model
| member | source | states |
|---|---|---|
| Lookup.FindFile | InstagramClone/Pods/leveldb-library/db/version_set.cc:87-105 | The result splits a sorted level: every file left of it ends before the key, every other file ends at or after it. |
| Lookup.SeekAnswers | InstagramClone/Pods/leveldb-library/db/dbformat.cc:117-134 | Seeking the lookup key of (user key, s) and comparing the user key found decides a read: the entry found is the newest visible one, and otherwise no entry is visible. |
| Lookup.ProbeLevel | InstagramClone/Pods/leveldb-library/db/version_set.cc:306-321 | Opening one file of a sorted level settles the read over all files of the level. |
| Lookup.ProbeLevel0 | InstagramClone/Pods/leveldb-library/db/version_set.cc:281-304 | Probing the overlapping files by falling file number settles the read over all of level 0, although the files overlap. |
| Lookup.VersionGet | InstagramClone/Pods/leveldb-library/db/version_set.cc:324-400 | Stopping at the first level that answers gives the newest visible entry of all seven levels, or none exists. |
| Lookup.Get | InstagramClone/Pods/leveldb-library/db/db_impl.cc:1110-1155 | Memtable, immutable memtable, version, in this order, answer what the specification reads from the union of the three. |
| Lsm.DropPreservesReadsIff | InstagramClone/Pods/leveldb-library/db/db_impl.cc:947-973 | Rules (A) and (B) of the merge loop change no read of a user key at any snapshot from the smallest one on if and only if no tombstone dropped by rule (B) has a value of its key under it outside the inputs. |
| SplitBoundary.OpenLowerLevelResurrects | InstagramClone/Pods/leveldb-library/db/version_set.cc:1384-1399 | A concrete well-shaped version and a plan with two files of level+1 that share a user key, of which one is an input: the compaction is not harmless, and the loop brings a deleted value back. |
| SplitRun.SplitIsReached | InstagramClone/Pods/leveldb-library/db/db_impl.cc:984-1008 | A run of the machine reaches that version: a compaction under a snapshot cuts its output inside a user key. |
| SplitRun.CutIsForced | InstagramClone/Pods/leveldb-library/db/db_impl.cc:998-1005 | The cut is the one the size limit forces: uncompressed, the first entry stays in the open block, and with the tombstone, whose user key alone has the default size of an output file, the block is written and the file is full. |
| SplitRun.SplitIsPicked | InstagramClone/Pods/leveldb-library/db/version_set.cc:1380-1424 | On that version the selection picks just that plan, whatever the size limit, and the lower inputs are not closed. |
| Selection.ClosedIffNoBoundary | InstagramClone/Pods/leveldb-library/db/version_set.cc:1342-1378 | Seen from the bounds of the files: a run of files of a sorted level is closed if and only if no file starts behind it with its last user key. |
| CompactionSafety.NothingBelow | InstagramClone/Pods/leveldb-library/db/db_impl.cc:960-968 | With the inputs of both levels closed, any entry of the key outside them is newer than the tombstone, when no deeper level holds the key. |
| CompactionSafety.NothingResurrects | InstagramClone/Pods/leveldb-library/db/db_impl.cc:957-970 | Closed inputs meet the exact condition of Lsm.DropPreservesReadsIff for every user key. |
| CompactionSafety.CompactionPreservesReads | InstagramClone/Pods/leveldb-library/db/db_impl.cc:887-1046 | Whatever the inputs, replacing them by the outputs changes no read of any user key at any sequence number from the smallest snapshot on, with the memtables on top, if and only if no dropped tombstone has a value under it outside the inputs. |
| CompactionSafety.ClosedIsHarmless | InstagramClone/Pods/leveldb-library/db/version_set.cc:1342-1399 | With the inputs of both levels closed that condition holds, whatever the memtables hold. |
| CompactionSafety.ResurrectsUpTo | InstagramClone/Pods/leveldb-library/db/db_impl.cc:947-973 | What the smallest snapshot does not see has no part in the condition, so it still holds after later writes. |
| CompactionSafety.OutputsFit | InstagramClone/Pods/leveldb-library/db/version_set.cc:1380-1399 | Output files fit between the files left at level+1: no key range overlaps. |
| CompactionSafety.CompactionKeepsShape | InstagramClone/Pods/leveldb-library/db/db_impl.cc:869-885 | Installing a compaction keeps levels 1 and deeper disjoint and shallower entries of a user key newer. |
| CompactionSafety.LevelsStayOrdered | InstagramClone/Pods/leveldb-library/db/version_set.cc:1510-1529 | After a compaction the entries of a user key are still newer at a shallower level, for each pair of levels. |
| CompactionSafety.MoveFits | InstagramClone/Pods/leveldb-library/db/version_set.cc:1492-1500 | A trivially moved file meets what placing files at level+1 asks of compaction outputs. |
| CompactionSafety.FlushKeepsShape | InstagramClone/Pods/leveldb-library/db/version_set.cc:470-495 | A memtable table placed at the level picked for it keeps the shape of the tree and adds exactly its entries. |
| Compaction.Compaction.IsBaseLevelForKey | InstagramClone/Pods/leveldb-library/db/version_set.cc:1510-1529 | With user keys asked in nondecreasing order, the cursors that only move forward answer what a full scan of levels level+2 and deeper would. |
| Compaction.Compaction.ShouldDrop | InstagramClone/Pods/leveldb-library/db/db_impl.cc:945-973 | The decision from the last key and its sequence number alone is that of rules (A) and (B) stated over the whole input. |
| Compaction.Compaction.DoCompactionWork | InstagramClone/Pods/leveldb-library/db/db_impl.cc:887-1046 | Wherever the outputs are cut, they are sorted, disjoint, with fresh ascending numbers, and hold exactly the surviving entries. |
| Compaction.Compaction.DropsAgree | InstagramClone/Pods/leveldb-library/db/db_impl.cc:957-970 | An entry is dropped by the loop if and only if it is not in the set the read theorem speaks of. |
| Compaction.Compaction.WritesOutputs | InstagramClone/Pods/leveldb-library/db/db_impl.cc:887-1046 | The files the loop writes are outputs in the sense of CompactionSafety.CompactionPreservesReads. |
| Compaction.Compaction.SurvivorsSorted | InstagramClone/Pods/leveldb-library/db/db_impl.cc:984-1008 | What survives of a sorted input is sorted and comes from the input. |
| Selection.GetOverlappingInputs | InstagramClone/Pods/leveldb-library/db/version_set.cc:498-538 | Terminates despite its restarts; at level 0 the result is the set of files that meet the least closed range around the one asked for, elsewhere the files that meet the range asked for. |
| Selection.SomeFileOverlapsRange | InstagramClone/Pods/leveldb-library/db/version_set.cc:121-160 | True if and only if some file of the level meets the range, by scan or by binary search, with open ends. |
| Selection.PickLevelForMemTableOutput | InstagramClone/Pods/leveldb-library/db/version_set.cc:470-495 | No file on the way meets the table, so it can be placed there; the level is the deepest of the first three that overlaps and the bound on the overlap after that allow, and no other. |
| Selection.FindSmallestBoundaryFile | InstagramClone/Pods/leveldb-library/db/version_set.cc:1321-1340 | The smallest of all files that start behind the key with its user key, or there is none. |
| Selection.AddBoundaryInputs | InstagramClone/Pods/leveldb-library/db/version_set.cc:1355-1378 | Terminates; keeps the inputs in front, adds boundary files only, leaves no file of the level that starts behind the largest input with its user key, and on a sorted level a run stays a run. |
| Selection.GetRange | InstagramClone/Pods/leveldb-library/db/version_set.cc:1182-1198 | The bounds are attained and bound every file. |
| Selection.RunIsClosed | InstagramClone/Pods/leveldb-library/db/version_set.cc:1342-1378 | A run of files without a boundary file behind it leaves no older entry of its user keys at the level. |
| Selection.RangeIsClosed | InstagramClone/Pods/leveldb-library/db/version_set.cc:498-538 | At level 0 the files of a closed range leave no older entry of their user keys at the level. |
| Selection.CloseInputs | InstagramClone/Pods/leveldb-library/db/version_set.cc:1384-1384 | From what the pickers start with, the upper inputs become closed at their level. |
| Selection.TryGrow | InstagramClone/Pods/leveldb-library/db/version_set.cc:1393-1424 | The wider upper inputs are closed and hold the old ones; they are taken exactly when they are more files, within the size limit, and meet the very same files of level+1. |
| Selection.Expand | InstagramClone/Pods/leveldb-library/db/version_set.cc:1389-1399 | The wider upper inputs are closed at their level and hold every file there that meets the span of all inputs of both levels. |
| Selection.SetupOtherInputs | InstagramClone/Pods/leveldb-library/db/version_set.cc:1380-1424 | The plan has closed upper inputs, the picked files among them, and exactly the files of level+1 that meet their span; these are closed if and only if no file of that level starts behind them with their last user key. |
| Manifest.LevelState.Apply | InstagramClone/Pods/leveldb-library/db/version_set.cc:629-669 | On one level, applying an edit whose file numbers are new has the effect the edit has on its own: deletions first, then additions. |
| Manifest.LevelState.SaveTo | InstagramClone/Pods/leveldb-library/db/version_set.cc:672-714 | The merge of base and added files is in order and lists exactly the files not deleted. |
| Manifest.OrderIsUnique | InstagramClone/Pods/leveldb-library/db/version_set.cc:570-590 | A set of files has one list in the order of smallest key and number. |
| Manifest.Replay | InstagramClone/Pods/leveldb-library/db/version_set.cc:902-978 | A whole manifest through one builder gives, in order, the files that the edits leave one after the other. |
| Manifest.InstallEach | InstagramClone/Pods/leveldb-library/db/version_set.cc:777-860 | A builder and a saved version per edit gives, in order, the files that the edits leave one after the other. |
| Manifest.RecoveredEqualsInstalled | InstagramClone/Pods/leveldb-library/db/version_set.cc:902-978 | If each number is added to a level at most once, replaying the manifest gives the very file list that was current. |
| Manifest.SavedIsSorted | InstagramClone/Pods/leveldb-library/db/version_set.cc:698-712 | The order of a saved level whose files are apart is the one lookups search. |
| VersionEdits.EditReadBack | InstagramClone/Pods/leveldb-library/db/version_edit.cc:41-203 | Decoding an encoded edit gives no fault and the same edit, in every field and in order; only the compaction pointers the object held before stay in front, because Clear leaves them. |
| VersionEdits.ItemsRead | InstagramClone/Pods/leveldb-library/db/version_edit.cc:105-203 | Any sequence of well-formed tagged parts is read back as it was written, up to the end of the input. |
| VersionEdits.ItemRead | InstagramClone/Pods/leveldb-library/db/version_edit.cc:118-189 | Each tagged part is read back from in front of any bytes. |
| VersionEdits.VersionEdit.EncodeTo | InstagramClone/Pods/leveldb-library/db/version_edit.cc:41-84 | Appends the encoding of all parts, in the order numbers, pointers, deleted files, new files. |
| VersionEdits.VersionEdit.DecodeFrom | InstagramClone/Pods/leveldb-library/db/version_edit.cc:105-203 | On any bytes, the parts in front of the first fault take effect and the fault is reported. |
| VersionEdits.Inserted | InstagramClone/Pods/leveldb-library/db/version_edit.h:84-86 | Adding to the ordered set of deleted files adds that file only and keeps the order. |
| DiskLogs.RecoverManifest | InstagramClone/Pods/leveldb-library/db/version_set.cc:902-970 | From any byte prefix of a manifest, the edits of the records wholly in it are applied, up to the first bad record, and the last value of each number counts; the missing numbers are reported in the order of the code. |
| DiskLogs.EditSurvives | InstagramClone/Pods/leveldb-library/db/version_set.cc:822-838 | An edit of the version model survives encoding and decoding, keys included. |
| DiskLogs.RecoverVersion | InstagramClone/Pods/leveldb-library/db/version_set.cc:902-978 | From a manifest cut off anywhere, every level gets in order exactly the files it had after the last record that is wholly in the bytes, and the numbers are those of the last record that has some. |
| DiskLogs.ConcatAscends | InstagramClone/Pods/leveldb-library/db/db_impl.cc:360-378 | Logs taken in the order of their numbers have their batches in the order of sequence numbers. |
| ManifestSafety.EditLogged | InstagramClone/Pods/leveldb-library/db/version_set.cc:777-838 | Logging a job's edit keeps the records' replay equal to the version's files; no number enters a level twice, a number stands for one file, and files only move down. |
| ManifestSafety.JobDoes | InstagramClone/Pods/leveldb-library/db/version_set.cc:629-669 | Deleting by number and adding files is what the job does to each level. |
| Reopening.Open | InstagramClone/Pods/leveldb-library/db/db_impl.cc:289-378 | The code that opens a database, from the bytes of its manifest and logs and the numbers of the files there, reports corruption with just the missing numbers if the number of a listed table is on no file; else it gets the version, the numbers and the sequence that a recovery step of the machine has. |
| Reopening.CutIsBytes | InstagramClone/Pods/leveldb-library/db/version_set.cc:822-838 | Wherever a crash cuts the manifest inside the record being written and the newest log inside its last record, the bytes are those of a step of the machine. |
| Reopening.Reopen | InstagramClone/Pods/leveldb-library/db/db_impl.cc:289-498 | For a crash in any state of any run and any such cut, no table is missing, and opening the database is the crash step alone, or behind the step that logs the manifest record under way. What is committed then is what was, with the batch on its way exactly when the log has its whole record, and reads are those of just that. |
| MachineSafety.InitInv | InstagramClone/Pods/leveldb-library/db/db_impl.cc:181-211 | A new database satisfies the invariant. |
| MachineSafety.AppendLogKeeps | InstagramClone/Pods/leveldb-library/db/db_impl.cc:1214-1228 | Appending a group to the log keeps the invariant. |
| MachineSafety.ApplyBatchKeeps | InstagramClone/Pods/leveldb-library/db/db_impl.cc:1233-1249 | Applying the group and publishing its sequence number keeps the invariant: reads of all live snapshots are those of the history. |
| MachineSafety.SwitchMemtableKeeps | InstagramClone/Pods/leveldb-library/db/db_impl.cc:1355-1375 | A memtable switch, possible only without an immutable memtable, keeps the invariant: the older log still holds the immutable memtable. |
| MachineSafety.BuildFlushKeeps | InstagramClone/Pods/leveldb-library/db/db_impl.cc:500-542 | Writing the immutable memtable as a table keeps the invariant, while writes go on. |
| MachineSafety.BuildMoveKeeps | InstagramClone/Pods/leveldb-library/db/db_impl.cc:723-738 | Starting a trivial move keeps the invariant. |
| MachineSafety.BuildCompactionKeeps | InstagramClone/Pods/leveldb-library/db/db_impl.cc:887-1046 | Writing the outputs of a harmless compaction keeps the invariant. |
| MachineSafety.CompactionIsExact | InstagramClone/Pods/leveldb-library/db/db_impl.cc:945-973 | The condition of the step is exact: in a state with the invariant, the tree with the outputs in place reads like the history from the smallest snapshot on if and only if the compaction is harmless. |
| BackgroundCompactions.BackgroundCompaction | InstagramClone/Pods/leveldb-library/db/db_impl.cc:697-776 | From whatever the pickers picked: the file moved, or the files written after selecting and merging the inputs, are a step of the machine; for a compaction just when it is harmless, and always with closed lower inputs. |
| BackgroundCompactions.CompactMemTable | InstagramClone/Pods/leveldb-library/db/db_impl.cc:500-578 | Writing the immutable memtable at the level picked for it is a step of the machine; an empty one writes nothing. |
| BackgroundCompactions.MakeInputIterator | InstagramClone/Pods/leveldb-library/db/version_set.cc:1214-1245 | Merging the iterators of the input files, level-0 files one by one and a deeper level as a whole, gives the entries of all inputs in order. |
| BackgroundCompactions.ConcatSorted | InstagramClone/Pods/leveldb-library/db/version_set.cc:1235-1243 | The files of a sorted level, read one after the other, give their entries in order. |
| MachineSafety.ComposeRecordKeeps | InstagramClone/Pods/leveldb-library/db/version_set.cc:777-794 | The numbers put into the manifest record cover all its files, and all newer entries are in logs it still names. |
| MachineSafety.LogRecordKeeps | InstagramClone/Pods/leveldb-library/db/version_set.cc:822-838 | The record on disk and the version in memory may differ between writing and installing: the invariant covers a crash in between. |
| MachineSafety.InstallVersionKeeps | InstagramClone/Pods/leveldb-library/db/version_set.cc:842-849 | Installing the version keeps the invariant. |
| MachineSafety.RemoveObsoleteKeeps | InstagramClone/Pods/leveldb-library/db/db_impl.cc:222-287 | Removing old logs, and tables that neither the current version nor one held by a reader lists, between jobs removes nothing that recovery or a reader needs. |
| Runs.PinnedTablesStay | InstagramClone/Pods/leveldb-library/db/version_set.cc:1144-1154 | In every state of every run, the tables of every version that a reader holds are on disk. |
| MachineSafety.TakeSnapshotKeeps | InstagramClone/Pods/leveldb-library/db/snapshot.h:57-76 | Snapshots stay in ascending order, and no compaction has dropped anything a new one can see. |
| MachineSafety.ReleaseSnapshotKeeps | InstagramClone/Pods/leveldb-library/db/snapshot.h:79-87 | Releasing any snapshot keeps the invariant; the smallest snapshot only grows. |
| CrashSafety.RecoveredTail | InstagramClone/Pods/leveldb-library/db/db_impl.cc:330-378 | The logs the manifest on disk still names hold exactly what its files lack, at each stage of a background job. |
| CrashSafety.LastRecovered | InstagramClone/Pods/leveldb-library/db/db_impl.cc:440-447 | The largest sequence number that recovery meets, in the manifest or in any batch, empty ones included, is the last of the recovered history. |
| CrashSafety.PlaceAllReads | InstagramClone/Pods/leveldb-library/db/db_impl.cc:463-492 | Flushing recovered entries into level-0 tables, oldest first, keeps every read. |
| CrashSafety.DiskIsSound | InstagramClone/Pods/leveldb-library/db/db_impl.cc:544-575 | In every state that satisfies the invariant, what is on disk is enough: the logs beyond the manifest, on top of its files, read like the history, and the numbers on disk lead to its end. |
| CrashSafety.TornKeeps | InstagramClone/Pods/leveldb-library/db/db_impl.cc:1223-1236 | If the record on its way to the log is cut off, what is left satisfies the invariant without it. |
| CrashSafety.AbortKeeps | InstagramClone/Pods/leveldb-library/db/db_impl.cc:289-378 | A recovery that is killed itself, having written tables and an empty log but not the new manifest, leaves a disk as good as before. |
| CrashSafety.RecoveryKeeps | InstagramClone/Pods/leveldb-library/db/db_impl.cc:1478-1521 | A recovery that gets through, from any such disk, satisfies the invariant with the recovered history. |
| CrashSafety.CrashAndRecoverKeeps | InstagramClone/Pods/leveldb-library/db/db_impl.cc:289-498 | A crash at any point, with the last log record torn or not and any number of recoveries killed after it, and the recovery that gets through keep the invariant; the history loses nothing but a torn record. |
| Runs.RunKeepsInv | InstagramClone/Pods/leveldb-library/db/db_impl.cc:697-776 | The invariant holds in every state of every run with writes, switches, flushes, moves, harmless compactions, snapshots and crashes in any order. |
| Runs.SnapshotReadsHistory | InstagramClone/Pods/leveldb-library/db/db_impl.cc:1110-1155 | In every state of every run, a read at a live snapshot or at the last sequence number is the read of the batches that the actions of the run have committed. |
| Runs.SnapshotIsStable | InstagramClone/Pods/leveldb-library/db/db_impl.cc:1176-1185 | A snapshot reads the same in any two states of a run in which it is live, whatever happened in between. |
| Runs.CommittedIsRead | InstagramClone/Pods/leveldb-library/db/db_impl.cc:1195-1268 | Durability: an entry committed in one state of a run is read in every later one, after any crashes in between, at every sequence number from that time on, or hidden by a newer entry of its key, which was committed by then, too, if its number is of that time. |
| Runs.RecoveryLosesNothing | InstagramClone/Pods/leveldb-library/db/db_impl.cc:289-378 | Right after a crash the database reads as the batches committed before and the one on its way, if its record was whole; the sequence numbers go on from there. |
| Runs.GetAtSnapshot | InstagramClone/Pods/leveldb-library/db/db_impl.cc:1110-1155 | Get, in any reachable state, returns the read of the committed history. |
| Machine.ConsecutiveUnique | InstagramClone/Pods/leveldb-library/db/db_impl.cc:1226-1228 | Batches numbered one after the other never share a sequence number. |
| Fidelity.FaithfulCompact | InstagramClone/Pods/leveldb-library/db/db_impl.cc:869-885 | A compaction keeps all reads from the higher of the old floor and its smallest snapshot on. |
| Fidelity.FaithfulFlush | InstagramClone/Pods/leveldb-library/db/db_impl.cc:544-575 | Moving the immutable memtable into a table keeps all reads. |
| Fidelity.FaithfulSplit | InstagramClone/Pods/leveldb-library/db/db_impl.cc:1355-1375 | Splitting a memtable by age keeps all reads. |
| Recovery.RecoverLogFile | InstagramClone/Pods/leveldb-library/db/db_impl.cc:380-498 | Replaying a log, flushing whenever the memtable is full, gives tables in order of age that hold exactly the batches of the log, and the largest sequence number. |
| DiskLogs.RecoverLogs | InstagramClone/Pods/leveldb-library/db/db_impl.cc:330-378 | From the bytes of the logs, in the order of their numbers, the tables hold exactly the batches of all logs the manifest names, in order of age; the last sequence number is the largest of any batch or the one of the manifest, and no number of a log is given out again. |
| Recovery.BuildTable | InstagramClone/Pods/leveldb-library/db/builder.cc:17-60 | The table's bounds are its first and its last key. |
| DiskLogs.ReadBatches | InstagramClone/Pods/leveldb-library/db/db_impl.cc:421-447 | From any byte prefix of a log, exactly the batches wholly in it come back, in order, with their sequence numbers. |
| DiskLogs.RecoverLog | InstagramClone/Pods/leveldb-library/db/db_impl.cc:380-498 | From a log cut off inside one more record, the tables hold exactly the batches wholly in it, and the sequence number is the largest of theirs or the one before. |
| Keys.InternalKeysOrdered | InstagramClone/Pods/leveldb-library/db/dbformat.cc:47-63 | The order of internal keys is a strict total order. |
| InternalKeys.CompareIsOrder | InstagramClone/Pods/leveldb-library/db/dbformat.cc:47-63 | Comparing encoded internal keys is the order by user key, falling sequence number and falling type; equal means the same key. |
| InternalKeys.KeyReadBack | InstagramClone/Pods/leveldb-library/db/dbformat.h:171-181 | ParseInternalKey undoes AppendInternalKey. |
| MemTables.MemTable.Add | InstagramClone/Pods/leveldb-library/db/memtable.cc:76-99 | The record laid out goes to its place among the sorted records, and the contents gain that entry. |
| MemTables.MemTable.Get | InstagramClone/Pods/leveldb-library/db/memtable.cc:101-135 | Answers if and only if some entry of the user key is visible at the snapshot, and then with the newest one: its value or not found. |
| MemTables.EarlierIsBefore | InstagramClone/Pods/leveldb-library/db/memtable.cc:28-34 | The comparator on records is the order of their keys. |
| WriteBatches.ParsesBack | InstagramClone/Pods/leveldb-library/db/write_batch.cc:42-80 | Iterating over an encoded batch gives its operations in order and no fault. |
| WriteBatches.ParseEncoded | InstagramClone/Pods/leveldb-library/db/write_batch.cc:42-80 | Operations in front of any bytes, faulty or not, are all handed over before what follows. |
| WriteBatches.EncodeJoined | InstagramClone/Pods/leveldb-library/db/write_batch.cc:144-148 | Appending contents is appending operations. |
| WriteBatches.Iterate | InstagramClone/Pods/leveldb-library/db/write_batch.cc:42-80 | On any bytes, the operations in front of the first fault are handed over, and the fault is the one of the code, a wrong count included. |
| WriteBatches.WriteBatch.Append | InstagramClone/Pods/leveldb-library/db/write_batch.cc:144-148 | The batch holds its operations and then the other's, with the right count. |
| WriteBatches.WriteBatch.Put | InstagramClone/Pods/leveldb-library/db/write_batch.cc:98-103 | The batch gains one operation at its end and keeps its sequence number. |
| WriteBatches.InsertInto | InstagramClone/Pods/leveldb-library/db/write_batch.cc:132-137 | The memtable gains the batch's entries, numbered from its sequence number on. |
| GroupCommit.BuildBatchGroup | InstagramClone/Pods/leveldb-library/db/db_impl.cc:1270-1316 | The group is a prefix of the queue led by its first writer: no sync writer rides with a leader that does not sync, and the batch holds the group's operations in queue order. |
| GroupCommit.GroupSize | InstagramClone/Pods/leveldb-library/db/db_impl.cc:1276-1307 | A group that grew stays within the size limit. |
| GroupCommit.StepKeepsInv | InstagramClone/Pods/leveldb-library/db/db_impl.cc:1195-1268 | Each step of leaders, followers and the log keeps the protocol's invariant. |
| GroupCommit.RunKeepsInv | InstagramClone/Pods/leveldb-library/db/db_impl.cc:1195-1268 | The invariant holds in every state of every run. |
| GroupCommit.AppliedOnceInOrder | InstagramClone/Pods/leveldb-library/db/db_impl.cc:1216-1268 | Every operation of a writer that has left the queue is in the memtable once, at its place in queue order, with the number of that place; no number is used twice. |
| GroupCommit.SnapshotSeesWholeBatches | InstagramClone/Pods/leveldb-library/db/db_impl.cc:1226-1250 | A snapshot taken in any state sees all of each batch of the writers that had left the queue, and nothing of any other, now and in every later state. |
| GroupCommit.SyncedBeforeReturn | InstagramClone/Pods/leveldb-library/db/db_impl.cc:1223-1236 | When a sync write returns, its operations are in the synced part of the log. |
| GroupCommit.LogHoldsMem | InstagramClone/Pods/leveldb-library/db/db_impl.cc:1223-1236 | Between groups the memtable holds exactly what the log holds, with consecutive numbers. |
| SkipList.FindGreaterOrEqual | InstagramClone/Pods/leveldb-library/db/skiplist.h:260-281 | The writer's search returns the first node at or after the key and, for every level, the node a new one goes behind. |
| SkipList.PublishKeeps | InstagramClone/Pods/leveldb-library/db/skiplist.h:356-367 | Linking the new node at one level keeps every level a sorted sublist of the level below, for all readers under way. |
| SkipList.MoveDecides | InstagramClone/Pods/leveldb-library/db/skiplist.h:260-320 | A reader's step keeps it on track; where the search ends, the answer is right for the list of that moment. |
| SkipList.NextKeeps | InstagramClone/Pods/leveldb-library/db/skiplist.h:207-211 | An iterator's step leads to the next node of the bottom level of that moment. |
| SkipList.StepKeepsInv | InstagramClone/Pods/leveldb-library/db/skiplist.h:337-369 | Every step of the writer or of a reader keeps the invariant. |
| SkipList.RunKeepsInv | InstagramClone/Pods/leveldb-library/db/skiplist.h:337-369 | Every interleaving keeps every level a sorted sublist of the level below. |
| SkipList.RunGrows | InstagramClone/Pods/leveldb-library/db/skiplist.h:337-369 | Nothing ever leaves the list and no node changes its key. |
| SkipList.SearchMissesNothing | InstagramClone/Pods/leveldb-library/db/skiplist.h:260-281 | A reader's search that ends in a later state stops at or before every node that was in the list in any earlier state and is not before its key. |
| SkipList.OneKeyAtATime | InstagramClone/Pods/leveldb-library/db/skiplist.h:356-367 | The list gains a key exactly when the writer links its node at the bottom level. |
| DbIter.DBIter.Next | InstagramClone/Pods/leveldb-library/db/db_iter.cc:141-175 | From either direction, to the next live entry: the newest visible one of a later user key, if it is a value. |
| DbIter.DBIter.Prev | InstagramClone/Pods/leveldb-library/db/db_iter.cc:209-234 | From either direction, to the live entry before. |
| DbIter.DBIter.Seek | InstagramClone/Pods/leveldb-library/db/db_iter.cc:278-290 | To the first live entry whose user key is not before the target. |
| DbIter.DBIter.SeekToFirst | InstagramClone/Pods/leveldb-library/db/db_iter.cc:292-301 | To the first live entry. |
| DbIter.DBIter.SeekToLast | InstagramClone/Pods/leveldb-library/db/db_iter.cc:303-308 | To the last live entry. |
| DbIter.DBIter.FindNextUserEntry | InstagramClone/Pods/leveldb-library/db/db_iter.cc:177-207 | Skips hidden and deleted entries and stops at the first live entry beyond the key. |
| DbIter.DBIter.FindPrevUserEntry | InstagramClone/Pods/leveldb-library/db/db_iter.cc:236-276 | Stops with the iterator before all entries of the last live key, with only invisible ones in between. |
| DbIter.LiveKeysAscend | InstagramClone/Pods/leveldb-library/db/db_iter.cc:141-308 | The live entries have strictly ascending user keys. |
| DbIter.LiveIsRead | InstagramClone/Pods/leveldb-library/db/db_iter.cc:141-308 | Each live entry is what a read of its user key at the snapshot finds. |
| DbIter.ReadIsLive | InstagramClone/Pods/leveldb-library/db/db_iter.cc:141-308 | Each key that a read finds is a live entry: the cursor misses none. |
| Merger.MergingIterator.Next | InstagramClone/Pods/leveldb-library/table/merger.cc:55-79 | From any valid position and either direction, one position on in the sorted union of the children. |
| Merger.MergingIterator.Prev | InstagramClone/Pods/leveldb-library/table/merger.cc:81-108 | From any valid position and either direction, one position back. |
| Merger.MergingIterator.Seek | InstagramClone/Pods/leveldb-library/table/merger.cc:47-53 | To the first entry of the union at or after the target. |
| Merger.MergingIterator.SeekToFirst | InstagramClone/Pods/leveldb-library/table/merger.cc:31-37 | To the first entry of the union. |
| Merger.MergingIterator.SeekToLast | InstagramClone/Pods/leveldb-library/table/merger.cc:39-45 | To the last entry of the union. |
| Merger.MergingIterator.TurnForward | InstagramClone/Pods/leveldb-library/table/merger.cc:63-74 | Turning round leaves the position where it is, with all children behind it. |
| Merger.MergingIterator.SmallestIsNext | InstagramClone/Pods/leveldb-library/table/merger.cc:148-161 | If the children are cut at a position, the smallest of their current keys is the union's entry there. |
| Merger.MergingIterator.LargestIsPrevious | InstagramClone/Pods/leveldb-library/table/merger.cc:163-174 | If the children are cut behind a position, the largest of their current keys is the union's entry there. |
| TwoLevelIterators.TwoLevelIterator.Next | InstagramClone/Pods/leveldb-library/table/two_level_iterator.cc:103-107 | One position on among the entries of the table, read from the bytes of its blocks, over empty blocks. |
| TwoLevelIterators.TwoLevelIterator.Prev | InstagramClone/Pods/leveldb-library/table/two_level_iterator.cc:109-113 | One position back among the entries of the table, over empty blocks. |
| TwoLevelIterators.TwoLevelIterator.Seek | InstagramClone/Pods/leveldb-library/table/two_level_iterator.cc:82-87 | To the first entry of the whole table at or after the target, although the index holds shortened keys. |
| TwoLevelIterators.TwoLevelIterator.SeekToFirst | InstagramClone/Pods/leveldb-library/table/two_level_iterator.cc:89-94 | To the first entry of the table. |
| TwoLevelIterators.TwoLevelIterator.SeekToLast | InstagramClone/Pods/leveldb-library/table/two_level_iterator.cc:96-101 | To the last entry of the table. |
| TwoLevelIterators.TwoLevelIterator.SkipEmptyDataBlocksForward | InstagramClone/Pods/leveldb-library/table/two_level_iterator.cc:115-126 | A position at the end of a block is the start of the next block that is not empty, or the end. |
| TwoLevelIterators.TwoLevelIterator.SkipEmptyDataBlocksBackward | InstagramClone/Pods/leveldb-library/table/two_level_iterator.cc:128-139 | A position in front of a block is the last entry of a block before it that is not empty, or none. |
| TwoLevelIterators.TwoLevelIterator.InitDataBlock | InstagramClone/Pods/leveldb-library/table/two_level_iterator.cc:146-163 | The open block is the one the index is at; it is read anew unless its handle is the one it was read with. |
| TwoLevelIterators.TwoLevelIterator.Current | InstagramClone/Pods/leveldb-library/table/two_level_iterator.cc:30-41 | Key and value read are those of the entry at the position. |
| TwoLevelIterators.OneBlock | InstagramClone/Pods/leveldb-library/table/two_level_iterator.cc:151-155 | A handle stands for one block, so comparing handles is enough. |
| TwoLevelIterators.IteratorWrapper.Seek | InstagramClone/Pods/leveldb-library/table/iterator_wrapper.h:65-69 | The wrapper is at the first key of its block at or after the target, with that key at hand. |
| TwoLevelIterators.WriteAndScan | InstagramClone/Pods/leveldb-library/table/table_builder.cc:94-253 | For every sorted list of entries, block size, restart interval and filter policy: reading the bytes of the file written, from the first entry on, gives just the list. |
| TableFiles.TableBuilder.Add | InstagramClone/Pods/leveldb-library/table/table_builder.cc:94-123 | The entries grow by the new one; the block bytes, the filter with each key under its block's offset, and the index entry of the block before all stand for them, and a full block goes to the file. |
| TableFiles.TableBuilder.AddIndexEntry | InstagramClone/Pods/leveldb-library/table/table_builder.cc:103-110 | The index gets the handle of the last block under its last key or the earliest key of a user key strictly between the two blocks. |
| TableFiles.TableBuilder.Flush | InstagramClone/Pods/leveldb-library/table/table_builder.cc:125-139 | The block is written, sealed with type and checksum, the filter moves on to the new offset, and the index entry waits for the next key. |
| TableFiles.TableBuilder.Finish | InstagramClone/Pods/leveldb-library/table/table_builder.cc:198-253 | The file is a table of the entries added: blocks, filter, metaindex and index at the handles that the footer and the metaindex name, every block full and with a separating key. |
| TableFiles.Open | InstagramClone/Pods/leveldb-library/table/table.cc:38-132 | Of a builder's file the index is read and, by way of footer and metaindex, the filter it was written with. |
| TableFiles.FilterKnows | InstagramClone/Pods/leveldb-library/table/filter_block.cc:90-104 | If the filter says no for a block, the block has no entry of the user key. |
| Tables.ShortSeparates | InstagramClone/Pods/leveldb-library/db/dbformat.cc:65-97 | A shortened key separates all entries, not just its neighbours, and no entry has its user key. |
| TableFiles.Table.InternalGet | InstagramClone/Pods/leveldb-library/table/table.cc:214-242 | From the bytes: the one block that the index names, if the filter does not exclude it, gives the newest visible entry of the whole table, or none exists. |
| TableFiles.WriteAndGet | InstagramClone/Pods/leveldb-library/table/table_builder.cc:94-253 | For every sorted list of entries, block size, restart interval, hash function and number of probes, with or without a filter: a lookup in the bytes of the file written gives the newest visible entry, or there is none. |
| TableFiles.IndexInOrder | InstagramClone/Pods/leveldb-library/db/dbformat.cc:65-97 | The shortened keys of the index ascend strictly. |
| TableFormat.StoredIsRead | InstagramClone/Pods/leveldb-library/table/format.cc:64-139 | A sealed block is read back, its checksum verified or not. |
| TableFormat.FooterRead | InstagramClone/Pods/leveldb-library/table/format.cc:31-62 | The footer's handles and magic number are read back. |
| TableFormat.HandleRead | InstagramClone/Pods/leveldb-library/table/format.cc:15-29 | Handles are read back from in front of any bytes. |
| Separators.SeparatorIsShortest | InstagramClone/Pods/leveldb-library/util/comparator.cc:31-52 | A changed separator lies strictly between the keys, and no key from the first up to the second is shorter. |
| Separators.SuccessorIsBehind | InstagramClone/Pods/leveldb-library/util/comparator.cc:54-66 | The successor is the key itself just when it is all 0xff, else it is behind everything the key is a prefix of. |
| Separators.FindShortestSeparator | InstagramClone/Pods/leveldb-library/util/comparator.cc:31-52 | The loop computes the separator function. |
| Separators.FindShortSuccessor | InstagramClone/Pods/leveldb-library/util/comparator.cc:54-66 | The loop computes the successor function. |
| Separators.InternalSeparator | InstagramClone/Pods/leveldb-library/db/dbformat.cc:65-82 | At or after the first key and before the second: the shortened user key with the earliest possible number, or the first key. |
| Separators.InternalSuccessor | InstagramClone/Pods/leveldb-library/db/dbformat.cc:84-97 | At or after the key: the shortened user key with the earliest possible number, or the key. |
| Blocks.BlockBuilder.Add | InstagramClone/Pods/leveldb-library/table/block_builder.cc:71-105 | For any restart interval, the bytes are those of the pairs added so far, each with what it shares with the one before. |
| Blocks.BlockBuilder.Finish | InstagramClone/Pods/leveldb-library/table/block_builder.cc:61-69 | The block is that of its pairs and restart points. |
| Blocks.LengthsRoundTrip | InstagramClone/Pods/leveldb-library/table/block.cc:55-75 | The three lengths of an entry are read back from in front of any bytes. |
| Blocks.DecodeEntry | InstagramClone/Pods/leveldb-library/table/block.cc:55-75 | The path for three single bytes agrees with the general decoding on all bytes. |
| Blocks.PairRead | InstagramClone/Pods/leveldb-library/table/block.cc:225-252 | Decoding at a pair's offset gives its lengths, its key's own part and its value. |
| Blocks.RestartRead | InstagramClone/Pods/leveldb-library/table/block.cc:100-103 | The restart array gives the offsets of the restart points. |
| Blocks.BlockIter.ParseNextKey | InstagramClone/Pods/leveldb-library/table/block.cc:225-252 | On a builder's block, on to the next pair or to the end; on any bytes, it stays inside them. |
| Blocks.BlockIter.Next | InstagramClone/Pods/leveldb-library/table/block.cc:138-141 | One pair on. |
| Blocks.BlockIter.Prev | InstagramClone/Pods/leveldb-library/table/block.cc:143-162 | One pair back, across restart points too. |
| Blocks.BlockIter.Seek | InstagramClone/Pods/leveldb-library/table/block.cc:164-202 | To the first pair not before the target, by binary search and scan; on any bytes it ends and stays inside them. |
| Blocks.BlockIter.SeekToFirst | InstagramClone/Pods/leveldb-library/table/block.cc:204-207 | To the first pair. |
| Blocks.BlockIter.SeekToLast | InstagramClone/Pods/leveldb-library/table/block.cc:209-214 | To the last pair. |
| Blocks.BlockIter.Value | InstagramClone/Pods/leveldb-library/table/block.cc:133-136 | The value of the pair the iterator is at. |
| Blocks.NewIterator | InstagramClone/Pods/leveldb-library/table/block.cc:255-267 | An iterator over the pairs of a builder's block; none for contents that cannot be a block. |
| Bloom.CreateFilter | InstagramClone/Pods/leveldb-library/util/bloom.cc:28-54 | The bytes appended are the filter of the keys: an array with the probes of each key set in turn, and their number. |
| Bloom.AllSetMatches | InstagramClone/Pods/leveldb-library/util/bloom.cc:66-82 | The probing loop says yes just when all probes are set. |
| Bloom.KeyMayMatch | InstagramClone/Pods/leveldb-library/util/bloom.cc:56-82 | The loop computes the match function, for any bytes as a filter. |
| Bloom.KeysMatch | InstagramClone/Pods/leveldb-library/util/bloom.cc:40-53 | In the array that setting the probes of all keys leaves, all probes of each key are set. |
| Bloom.NoFalseNegatives | InstagramClone/Pods/leveldb-library/util/bloom.cc:28-82 | Whatever the hash function, the filter that is created for keys denies none of them. |
| Bloom.OnlySets | InstagramClone/Pods/leveldb-library/util/bloom.cc:46-50 | Setting a bit sets that bit of the array and leaves all others. |
| FilterBlocks.FilterBlockBuilder.StartBlock | InstagramClone/Pods/leveldb-library/table/filter_block.cc:21-27 | Filters of the 2 KB steps passed are generated; the keys recorded so far stay with their blocks. |
| FilterBlocks.FilterBlockBuilder.AddKey | InstagramClone/Pods/leveldb-library/table/filter_block.cc:29-33 | The key is recorded for the current block. |
| FilterBlocks.FilterBlockBuilder.Finish | InstagramClone/Pods/leveldb-library/table/filter_block.cc:35-49 | Every key added is in the list of its block's filter, and the block is that of the lists. |
| FilterBlocks.FilterBlockReader.KeyMayMatch | InstagramClone/Pods/leveldb-library/table/filter_block.cc:90-104 | On a filter block that the builder made, the answer is that of the policy for the filter of the offset's two kilobytes, through the stored offsets. |
| FilterBlocks.BloomIsHonest | InstagramClone/Pods/leveldb-library/util/bloom.cc:28-82 | The built-in policy denies no key its filters were made of. |
| FilterBlocks.InternalIsHonest | InstagramClone/Pods/leveldb-library/db/dbformat.cc:101-115 | Through the policy for internal keys, a key is not denied when its user key is in the filter, under whatever sequence number. |
| FilterBlocks.FilterRead | InstagramClone/Pods/leveldb-library/table/filter_block.cc:90-99 | The offset array gives the bounds of each filter, the last one's too. |
| Logs.LogWriter.AddRecord | InstagramClone/Pods/leveldb-library/db/log_writer.cc:34-80 | Onto any file, also one reopened at its length, goes the framing of the record; a log of records becomes the log of one more. |
| Logs.LogWriter.EmitPhysicalRecord | InstagramClone/Pods/leveldb-library/db/log_writer.cc:82-108 | Masked checksum, length, type and payload, in this order. |
| Logs.LogReader.ReadPhysicalRecord | InstagramClone/Pods/leveldb-library/db/log_reader.cc:189-271 | On any bytes: the next fragment, the place behind it and the corruption reported are those that Logs.NextPhysical says. |
| Logs.FragmentNext | InstagramClone/Pods/leveldb-library/db/log_reader.cc:189-271 | In front of a fragment of a log, whatever the padding before it holds, that is the fragment whole with its type, with the others ahead; where the file ends inside it, the end and no corruption. |
| Logs.LogReader.ReadRecord | InstagramClone/Pods/leveldb-library/db/log_reader.cc:56-174 | On any bytes: the next record, the place behind it and the corruption reported are those that Logs.NextRecord says. |
| Logs.RecordNext | InstagramClone/Pods/leveldb-library/db/log_reader.cc:56-174 | In front of a record of a log, that is the record joined from its fragments, whatever was being put together before, or the end if the file is cut off inside it; no corruption in the middle of the log. |
| Logs.TailPassed | InstagramClone/Pods/leveldb-library/db/log_reader.cc:120-145 | The fragments of a record whose start is lost are passed over. |
| Logs.ReadNext | InstagramClone/Pods/leveldb-library/db/log_reader.cc:56-174 | The next record comes back if and only if all of it is in the file. |
| Logs.ReadLog | InstagramClone/Pods/leveldb-library/db/log_reader.cc:56-174 | On any bytes, the loop finds the records and reports the corruption that Logs.RecordsFrom and Logs.DropsFrom say. |
| Logs.ReadBack | InstagramClone/Pods/leveldb-library/db/log_reader.cc:56-174 | Any byte prefix of a log has exactly the records wholly inside it, and no corruption is reported. |
| LogDamage.DamageIsLocal | InstagramClone/Pods/leveldb-library/db/log_reader.cc:189-271 | Whatever bytes of a log are overwritten up to some block boundary, and wherever the file ends: every record that ends before them is read, then perhaps something else, and then every whole record that starts behind the boundary. |
| LogDamage.Resync | InstagramClone/Pods/leveldb-library/db/log_reader.cc:227-262 | From any place in front of a block boundary, with anything in front of it and any record half put together, the reader finds every whole record behind it. |
| LogDamage.FramesCross | InstagramClone/Pods/leveldb-library/db/log_writer.cc:34-80 | No fragment crosses a block boundary: the rest of a record starts there with a header. |
| Logs.LogGrows | InstagramClone/Pods/leveldb-library/db/log_writer.cc:34-80 | The log of the first records is a prefix of the log of all. |
| Crc.UnmaskMask | InstagramClone/Pods/leveldb-library/util/crc32c.h:29-38 | Unmask inverts Mask on all 32-bit values. |
| Crc32c.StrideIsSixteen | InstagramClone/Pods/leveldb-library/util/crc32c.cc:294-300 | With tables that hold what they are for, one step of a stride takes its partial result over sixteen zero bytes and adds the new word. |
| Crc32c.WordSteps | InstagramClone/Pods/leveldb-library/util/crc32c.cc:313-320 | Four single-byte steps are one word step. |
| Crc32c.OneMoreWord | InstagramClone/Pods/leveldb-library/util/crc32c.cc:350-358 | A stride step and the turn of the four partial results process exactly one more word. |
| Crc32c.Extend | InstagramClone/Pods/leveldb-library/util/crc32c.cc:276-377 | For every length and alignment, the four interleaved strides compute what one step per byte does. |
| Crc32c.ByWords | InstagramClone/Pods/leveldb-library/util/crc32c.cc:332-366 | The strided part leaves the state that single steps over the bytes consumed leave. |
| Crc32c.ExtendTwice | InstagramClone/Pods/leveldb-library/util/crc32c.h:15-17 | Extending by one piece and then another is extending by both. |
| Coding.Varint32RoundTrip | InstagramClone/Pods/leveldb-library/util/coding.cc:21-114 | 32-bit varints are read back from in front of any bytes. |
| Coding.Varint64RoundTrip | InstagramClone/Pods/leveldb-library/util/coding.cc:55-143 | 64-bit varints are read back from in front of any bytes. |
| Coding.PrefixedRoundTrip | InstagramClone/Pods/leveldb-library/util/coding.cc:72-163 | Length-prefixed strings are read back from in front of any bytes. |
| HandleTables.HandleTable.FindPointer | InstagramClone/Pods/leveldb-library/util/cache.cc:112-121 | The handle of the key and hash, with the link that leads to it, or none matches. |
| HandleTables.HandleTable.Insert | InstagramClone/Pods/leveldb-library/util/cache.cc:79-93 | The table gains the handle; the one with its key, if any, is taken out and returned. |
| HandleTables.HandleTable.Remove | InstagramClone/Pods/leveldb-library/util/cache.cc:95-103 | The table loses the handle that matches, and nothing else. |
| HandleTables.HandleTable.Resize | InstagramClone/Pods/leveldb-library/util/cache.cc:123-148 | Every handle is in the larger table, in the bucket of its hash. |
| Handles.Unlink | InstagramClone/Pods/leveldb-library/util/cache.cc:240-243 | Splicing out leaves the circle of the others. |
| Handles.Append | InstagramClone/Pods/leveldb-library/util/cache.cc:245-251 | The handle is the newest, in front of the dummy head. |
| LruCaches.LruCache.Lookup | InstagramClone/Pods/leveldb-library/util/cache.cc:253-260 | A hit gives one more reference and moves an idle entry to the busy list; a miss changes nothing and no cached entry matches. |
| LruCaches.LruCache.Release | InstagramClone/Pods/leveldb-library/util/cache.cc:262-265 | The last reference of a client makes a cached entry the newest idle one, and deletes one no longer cached. |
| LruCaches.LruCache.Insert | InstagramClone/Pods/leveldb-library/util/cache.cc:267-304 | The entry is cached and busy; the one replaced goes; the oldest idle entries are evicted, no more than it takes, until the charge fits or none is idle; each deletion is recorded once. |
| LruCaches.LruCache.Shrink | InstagramClone/Pods/leveldb-library/util/cache.cc:293-301 | Evicts a prefix of the idle list, oldest first, until the charge fits or the list is empty. |
| LruCaches.LruCache.EvictOldest | InstagramClone/Pods/leveldb-library/util/cache.cc:293-300 | The oldest idle entry is deleted and leaves table, list and charge. |
| LruCaches.LruCache.FinishErase | InstagramClone/Pods/leveldb-library/util/cache.cc:308-317 | The entry leaves its list and the charge, and is deleted if no client holds it. |
| LruCaches.LruCache.Erase | InstagramClone/Pods/leveldb-library/util/cache.cc:319-322 | The entry of the key leaves the cache; its clients keep it until they release it. |
| LruCaches.LruCache.Prune | InstagramClone/Pods/leveldb-library/util/cache.cc:324-334 | All idle entries are deleted, oldest first; busy ones stay. |
| LruCaches.LruCache.Ref | InstagramClone/Pods/leveldb-library/util/cache.cc:218-224 | One reference more; an idle entry becomes busy. |
| LruCaches.LruCache.Unref | InstagramClone/Pods/leveldb-library/util/cache.cc:226-238 | One reference less; at zero the entry is deleted, at one a cached entry becomes idle. |
| LruCaches.LruCache.Counts | InstagramClone/Pods/leveldb-library/util/cache.cc:150-180 | An entry is idle just when it is cached with one reference, busy just when it is cached with more; the references are those of its clients and the cache's. |
| LruCaches.LruCache.OldestFirst | InstagramClone/Pods/leveldb-library/util/cache.cc:294-297 | The entry behind the dummy head is the oldest idle one, and erasing its key takes out just it. |
| Nanopb.MessageBack | InstagramClone/Pods/nanopb/pb_decode.c:1084-1096 | Decoding what encoding a message gives, for any described message of in-range values with required, optional, repeated, union and nested fields, is the message. |
| Nanopb.FieldsBack | InstagramClone/Pods/nanopb/pb_decode.c:934-1082 | From any field on, the rest of the encoding decodes into the slots the fields before have left. |
| Nanopb.SlotBack | InstagramClone/Pods/nanopb/pb_decode.c:406-483 | The encoding of one field, in front of any bytes, fills its slot and leaves the others. |
| Nanopb.PackedSlotBack | InstagramClone/Pods/nanopb/pb_decode.c:424-453 | A packed array is read back, up to its capacity. |
| Nanopb.EachBack | InstagramClone/Pods/nanopb/pb_decode.c:454-464 | Repeated strings and messages are read back element by element. |
| Nanopb.PutSingle | InstagramClone/Pods/nanopb/pb_decode.c:466-478 | Setting a field, also a member of a union, leaves the slots as the message has them. |
| Nanopb.ValueBack | InstagramClone/Pods/nanopb/pb_decode.c:1525-1547 | A value of any kind, a nested message included, is read back in front of any bytes. |
| Nanopb.NumberBack | InstagramClone/Pods/nanopb/pb_decode.c:1334-1445 | Numbers of every kind and width are read back, through sign extension and zigzag. |
| Nanopb.SignedBack | InstagramClone/Pods/nanopb/pb_decode.c:1285-1380 | Two's complement in 64 bits and zigzag are undone on the whole range of each width. |
| Nanopb.FindField | InstagramClone/Pods/nanopb/pb_common.c:87-104 | The field with the tag, or no field has it. |
| NanopbStream.Encode | InstagramClone/Pods/nanopb/pb_encode.c:528-550 | True just when the whole encoding fits, and then exactly that was written or, when sizing, counted. |
| NanopbStream.EncodeField | InstagramClone/Pods/nanopb/pb_encode.c:341-426 | The same for one field of any rule. |
| NanopbStream.EncodePackedArray | InstagramClone/Pods/nanopb/pb_encode.c:147-236 | The same for a packed array, whose size comes first. |
| NanopbStream.PackedSize | InstagramClone/Pods/nanopb/pb_encode.c:169-189 | The size found, by multiplication or by a sizing pass, is that of the bytes written afterwards. |
| NanopbStream.EncodeSubmessage | InstagramClone/Pods/nanopb/pb_encode.c:717-765 | The sizing pass equals the bytes written, at every depth: the final check for a changed size never fails. |
| NanopbStream.GetEncodedSize | InstagramClone/Pods/nanopb/pb_encode.c:567-577 | The size is that of what encoding writes. |
| NanopbStream.OStream.Write | InstagramClone/Pods/nanopb/pb_encode.c:103-130 | Writes all bytes or none, counts them, and fails just when they do not fit. |
| NanopbStream.DecodeNoinit | InstagramClone/Pods/nanopb/pb_decode.c:934-1082 | On any input, the loop computes the decoding function, failures included. |
| NanopbStream.DecodeField | InstagramClone/Pods/nanopb/pb_decode.c:406-483 | On any input, one field is decoded as the function says, and what is left is what follows it. |
| NanopbStream.DecodeOne | InstagramClone/Pods/nanopb/pb_decode.c:1334-1547 | On any input, one value is decoded as the function says; a nested message reads just its own bytes. |
| NanopbStream.EncodeAndDecode | InstagramClone/Pods/nanopb/pb_encode.c:528-550 | Encoding into a stream with room and decoding gives the message; without room it fails. |

## Left out

- Runs.RunKeepsInv: compactions that are not harmless are outside the runs, since reads fail after them (MachineSafety.CompactionIsExact).
- BackgroundCompactions.BackgroundCompaction: the input is merged before the loop reads it; tables are read by a function from files to their entries, which TwoLevelIterators proves from bytes.
- MachineSafety.BuildCompactionKeeps: a compaction is one step with flushes before or after it; flushing inside the merge loop needs a further condition on the inputs.
- Reopening.Open: the previous log number is always zero, and no log has it; a killed recovery leaves the old manifest in force until the new one is complete, so the CURRENT file is not modelled.
- Runs.RecoveryLosesNothing: files survive a crash up to a torn last record, whether synced or not.
- Compaction.Compaction.ShouldDrop: the smallest snapshot is below the largest sequence number, on which the sentinel relies.
- Compaction.Compaction.DoCompactionWork: where output files end, how large tables are and when memtables are full is any choice, so those sizes are not proved.
- I/O errors short of a crash, corrupt keys, repair, reuse of logs, manual compaction ranges, compaction scores, seek budgets and statistics.
- Compaction pointers and how the next file is picked; any start that the pickers may make is covered.
- The merging and the database iterator take their sources as sequences of entries, and Lookup.SeekStore stands for a seek in a memtable or a table: MemTables.MemTable.Get, TableFiles.Table.InternalGet and TwoLevelIterators are proved from bytes with the same answer. Snappy and the block cache of BlockReader are not modelled.
- TableFiles.WriteAndGet: the file is smaller than 4 GB, so that 32-bit offsets inside blocks and filters do not wrap.
- Comparators other than the bytewise one.
- Numbers are unbounded unless a width matters for the format; 64-bit counters do not wrap.
- Manifest.LevelState.Apply: the class stands for one of the seven levels of a builder.
- HandleTables.HandleTable.FindPointer: the bucket is the hash modulo the number of buckets, which the code computes with a mask as the number is a power of two.
- LruCaches.LruCache.Insert: values and the deleter are a record of what was deleted; sharding by hash and the destructor are not modelled.
- SkipList.RunKeepsInv: steps are sequentially consistent, the writer's own search is one step, and heights are any choice. Arena allocation is not modelled.
- GroupCommit.RunKeepsInv: left out are waiting in MakeRoomForWrite, and a switch forced by a null batch, which another leader's group may absorb; no claim is made that it happens.
- Logs.LogReader.ReadRecord: initial offset 0 only, and corruption reports are counted, not described.
- LogDamage.DamageIsLocal: what is read from the damaged part itself is anything, because the checksum is any function and may hold of damaged bytes.
- Logs.ReadLog: the checksum is any function of the bytes.
- DiskLogs.ReadBatches: the records of a log are batches; records too short or faulty, which the code drops or passes over, are not modelled here (WriteBatches.Iterate covers faulty contents).
- The list of snapshots is a sequence; its links are not modelled (Handles proves such a list for the cache).
- Blocks.BlockIter.Seek: lengths in damaged blocks are added without wrapping at 32 bits.
- Bloom.CreateFilter: the number of probes is given, from 1 to 30; the code derives it from bits per key with a floating point product.
- FilterBlocks.FilterBlockReader.KeyMayMatch: nothing is claimed for contents that no builder made, except that reading stays inside them.
- Crc32c.Extend: the tables are any that meet their contract; their literal values and the accelerated path are not modelled.
- Nanopb.MessageBack: callbacks, extensions, fields behind pointers, arrays of a fixed count and proto3 fields without presence are not modelled; the contents of an absent optional field are not part of a message.
- Nanopb.Varint32: over-long and sign-extended forms of 32-bit varints that no encoder here writes are not accepted as the code accepts them.
- NanopbStream.DecodeOne: numbers are decoded by functions; the streams are objects, and a nested message gets a stream of its own.
