// Crashes, at any point, with any number of recoveries that are killed too: what
// is on disk is enough, and a recovery that gets through finds it
// (db/db_impl.cc, db/version_set.cc).
module CrashSafety {
  import opened Keys
  import opened Store
  import opened Lsm
  import opened CompactionSafety
  import opened Compaction
  import opened Lookup
  import opened Fidelity
  import opened Machine
  import opened ManifestSafety
  import opened MachineSafety
  import opened Options
  import Manifest

  // ---- What is on disk ----

  // The logs beyond the manifest, on top of its files, read like the history,
  // and recovery can go by the numbers it finds.
  ghost predicate DiskSound(k: Disk, h: seq<Batch>, floor: nat) {
    && Faithful(LogEntriesFrom(k.logs, k.manifest.logNumber), {}, k.manifestLevels, Written(h), floor)
    && Consecutive(h) && floor < NextSequence(h)
    && Reaches(k, NextSequence(h))
    && LogsInOrder(k.logs, NextSequence(h))
    && (forall l, f :: 0 <= l < NUM_LEVELS && f in k.manifestLevels[l] ==>
        Has(k.tables, f) && f.number < k.manifest.nextFile)
    && RecordsSound(k)
  }

  // The last sequence number is in the manifest or in a log it names.
  ghost predicate Reaches(k: Disk, end: nat) {
    && k.manifest.lastSequence < end
    && (k.manifest.lastSequence + 1 < end ==>
          exists e :: e in LogEntriesFrom(k.logs, k.manifest.logNumber) && e.key.sequence + 1 == end)
  }

  ghost predicate RecordsSound(k: Disk) {
    LastRecord(k.edits) == Some(k.manifest) && Replays(k.edits, k.manifestLevels) &&
      WellNumbered(k.edits, k.manifestLevels)
  }

  // What the logs hold beyond the manifest is just what it does not cover.
  lemma RecoveredTail(d: Db)
    requires LogsSound(d) && StageSound(d) && ManifestSound(d)
    ensures LogEntriesFrom(d.logs, d.manifest.logNumber) ==
              UpperAfter(d, d.stage.Logged? && d.stage.job.IsFlush()) + Written(Pending(d))
  {
    var lo, hi := d.manifest.logNumber, d.logFile + 1;
    assert LogEntriesFrom(d.logs, lo) == LogEntries(d.logs, lo, hi);
    LogEntriesSplit(d.logs, lo, d.logFile, hi);
    assert LogEntries(d.logs, d.logFile, d.logFile) == {};
  }

  // Before the recovered logs are flushed, they sit on the manifest's files as
  // one memtable would.
  lemma RecoveredReads(d: Db)
    requires HistorySound(d) && ReadsSound(d) && SnapshotsSound(d) && StageSound(d) && ManifestSound(d)
    ensures Faithful(UpperAfter(d, d.stage.Logged? && d.stage.job.IsFlush()) + Written(Pending(d)), {},
                     d.manifestLevels, Written(d.history + Pending(d)),
                     RecoveredFloor(d))
  {
    var h := Written(d.history + Pending(d));
    var mem := d.mem + Written(Pending(d));
    PendingReads(d);
    PendingIsLater(d);
    if d.stage.Logged? {
      JobReads(d, mem, h, d.stage.job);
      var imm := if d.stage.job.IsFlush() then {} else Imm(d);
      FaithfulMerge(mem, imm, d.manifestLevels, h, RaisedFloor(d));
      assert mem + imm == UpperAfter(d, d.stage.job.IsFlush()) + Written(Pending(d));
    } else {
      FaithfulMerge(mem, Imm(d), d.manifestLevels, h, d.floor);
      assert mem + Imm(d) == UpperAfter(d, false) + Written(Pending(d));
    }
  }

  lemma PendingIsLater(d: Db)
    requires HistorySound(d) && ReadsSound(d) && SnapshotsSound(d)
    ensures forall e :: e in Written(Pending(d)) ==> SmallestSnapshot(d) < e.key.sequence
  {
    if d.inLog.Some? {
      WrittenOne(d.inLog.value);
      InOwnPlace(d);
      forall e | e in d.inLog.value.Entries() ensures d.lastSequence < e.key.sequence {
        EntryOfBatch(d.inLog.value, e);
      }
    }
  }

  lemma PendingReads(d: Db)
    requires HistorySound(d) && ReadsSound(d)
    ensures Faithful(d.mem + Written(Pending(d)), Imm(d), d.levels, Written(d.history + Pending(d)), d.floor)
  {
    if d.inLog.Some? {
      var b := d.inLog.value;
      assert Pending(d) == [b];
      WrittenOne(b);
      WrittenAppend(d.history, b);
      ConsecutiveUnique(d.history + [b]);
      WrittenBelow(d);
      forall e, f | e in b.Entries() && f in Written(d.history)
        ensures e.key.sequence > f.key.sequence
      {
        EntryOfBatch(b, e);
      }
      FaithfulWrite(d.mem, Imm(d), d.levels, Written(d.history), d.floor, b.Entries());
    } else {
      assert Pending(d) == [] && d.history + [] == d.history;
      assert d.mem + Written([]) == d.mem;
    }
  }

  lemma DiskIsSound(d: Db)
    requires Inv(d)
    ensures DiskSound(DiskOf(d), d.history + Pending(d), RecoveredFloor(d))
  {
    hide Faithful, LogsInOrder, WellNumbered, Replays, LastRecord, LogEntriesFrom, NextSequence;
    RecoveredTail(d);
    RecoveredReads(d);
    FloorIsBelow(d);
    DiskReaches(d);
    DiskFiles(d);
  }

  lemma DiskFiles(d: Db)
    requires TablesSound(d) && StageSound(d) && ManifestSound(d)
    ensures forall l, f :: 0 <= l < NUM_LEVELS && f in d.manifestLevels[l] ==>
              Has(d.tables, f) && f.number < d.manifest.nextFile
  {
    ManifestCovers(d);
  }

  lemma DiskReaches(d: Db)
    requires HistorySound(d) && ReadsSound(d) && LogsSound(d) && StageSound(d) && ManifestSound(d)
    ensures Reaches(DiskOf(d), NextSequence(d.history + Pending(d)))
    ensures d.lastSequence < NextSequence(d.history + Pending(d))
  {
    hide Faithful, LogEntriesFrom, NextSequence;
    RecoveredTail(d);
    ManifestCovers(d);
    PendingSequence(d);
  }

  lemma ManifestCovers(d: Db)
    requires StageSound(d) && ManifestSound(d)
    ensures Covers(d, d.manifest, d.manifestLevels, UpperAfter(d, d.stage.Logged? && d.stage.job.IsFlush()))
  {
  }

  lemma PendingSequence(d: Db)
    requires HistorySound(d)
    ensures d.lastSequence + 1 <= NextSequence(d.history + Pending(d))
    ensures forall e :: e in Written(Pending(d)) ==> e.key.sequence < NextSequence(d.history + Pending(d))
    ensures d.lastSequence + 1 < NextSequence(d.history + Pending(d)) ==>
              exists e :: e in Written(Pending(d)) && e.key.sequence + 1 == NextSequence(d.history + Pending(d))
  {
    if d.inLog.Some? {
      var b := d.inLog.value;
      WrittenOne(b);
      WrittenAppend(d.history, b);
      forall e | e in b.Entries() ensures e.key.sequence < b.first + |b.ops| { EntryOfBatch(b, e); }
      if |b.ops| > 0 {
        var i := |b.ops| - 1;
        assert Entry(IKey(b.ops[i].user, b.first + i, b.ops[i].kind), b.ops[i].value) in b.Entries();
      }
    } else {
      assert d.history + [] == d.history;
    }
  }

  lemma FloorIsBelow(d: Db)
    requires StageSound(d) && SnapshotsSound(d) && d.floor <= d.lastSequence
    ensures RecoveredFloor(d) <= d.lastSequence
  {
  }

  // ---- The record on its way to the log ----

  lemma TornKeeps(d: Db)
    requires Inv(d)
    ensures Inv(Torn(d))
    ensures Torn(d).history == d.history && Pending(Torn(d)) == []
  {
    hide Faithful, LogEntries, LogsInOrder, NextSequence, Consecutive, JobSound, RecordSound, Covers, EditsSound;
    if d.inLog.Some? {
      var d' := Torn(d);
      TornLogs(d);
      TornOrder(d);
      StageStable(d, d');
      ManifestStable(d, d');
      TablesStable(d, d');
      EditsStable(d, d');
    }
  }

  lemma TornLogs(d: Db)
    requires HistorySound(d) && ReadsSound(d) && LogsSound(d) && LogsOrdered(d) && d.inLog.Some?
    ensures LogsSound(Torn(d)) && HistorySound(Torn(d))
  {
    hide Faithful, LogEntries, LogsInOrder, NextSequence;
    var b, d' := d.inLog.value, Torn(d);
    assert Pending(d) == [b] && Pending(d') == [] && d.history + [] == d.history;
    WrittenAppend(d.history, b);
    WrittenOne(b);
    NothingPending(d');
    FrontOfLog(d);
    WithoutLast(d.mem, LogEntries(d'.logs, d.logFile, d.logFile + 1), b.Entries());
    WrittenBelow(d);
  }

  lemma NothingPending(d: Db)
    requires d.inLog.None?
    ensures Written(Pending(d)) == {}
  {
  }

  lemma WithoutLast(a: set<Entry>, b: set<Entry>, c: set<Entry>)
    requires a + c == b + c && a !! c && b !! c
    ensures a == b
  {
    assert a == (a + c) - c && b == (b + c) - c;
  }

  // The last batch of the log has entries of its own.
  lemma FrontOfLog(d: Db)
    requires HistorySound(d) && ReadsSound(d) && LogsSound(d) && LogsOrdered(d) && d.inLog.Some?
    ensures var b, logs := d.inLog.value, Torn(d).logs;
            && LogEntries(logs, d.logFile, d.logFile + 1) + b.Entries() == d.mem + b.Entries()
            && LogEntries(logs, d.logFile, d.logFile + 1) !! b.Entries() && d.mem !! b.Entries()
            && LogEntries(logs, d.logNumber, d.logFile) == LogEntries(d.logs, d.logNumber, d.logFile)
  {
    hide NextSequence, LogsInOrder, ReadsSound, HistorySound, LogEntries, Batch.Entries, Written;
    var b, logs := d.inLog.value, Torn(d).logs;
    TornIs(d);
    WrittenOne(b);
    LogAppended(logs, d.logFile, b);
    InOwnPlace(d);
    FrontBelow(d);
    forall x | x in b.Entries() ensures x.key.sequence >= b.first {
      EntryOfBatch(b, x);
    }
  }

  lemma TornIs(d: Db)
    requires LogsOrdered(d) && d.inLog.Some?
    ensures var b, logs := d.inLog.value, Torn(d).logs;
            && d.logFile in logs && d.logs == logs[d.logFile := logs[d.logFile] + [b]] && Pending(d) == [b]
  {
    hide LogsInOrder, NextSequence;
    var log := d.logs[d.logFile];
    assert log == log[..|log| - 1] + [d.inLog.value];
  }

  lemma FrontBelow(d: Db)
    requires LogsOrdered(d) && d.inLog.Some?
    ensures d.logFile in Torn(d).logs
    ensures forall x :: x in LogEntries(Torn(d).logs, d.logFile, d.logFile + 1) ==> x.key.sequence < d.inLog.value.first
  {
    hide NextSequence, Batch.Entries;
    var log := d.logs[d.logFile];
    var front := Torn(d).logs[d.logFile];
    forall x | x in LogEntries(Torn(d).logs, d.logFile, d.logFile + 1)
      ensures x.key.sequence < d.inLog.value.first
    {
      var i :| 0 <= i < |front| && x in front[i].Entries();
      EntryOfBatch(front[i], x);
      assert log[i] == front[i] && log[|log| - 1] == d.inLog.value;
    }
  }

  lemma InOwnPlace(d: Db)
    requires HistorySound(d) && ReadsSound(d) && d.inLog.Some?
    ensures d.inLog.value.first == d.lastSequence + 1
    ensures forall e :: e in d.mem ==> e.key.sequence <= d.lastSequence
  {
    assert Pending(d) == [d.inLog.value];
    WrittenAppend(d.history, d.inLog.value);
    EntriesBelow(d);
  }

  lemma TornOrder(d: Db)
    requires HistorySound(d) && LogsSound(d) && LogsOrdered(d) && d.inLog.Some?
    ensures LogsOrdered(Torn(d))
  {
    hide LogEntries;
    var b, d' := d.inLog.value, Torn(d);
    var log := d.logs[d.logFile];
    assert Pending(d) == [b] && Pending(d') == [] && d.history + [] == d.history;
    WrittenAppend(d.history, b);
    forall n, i | n in d'.logs && 0 <= i < |d'.logs[n]|
      ensures d'.logs[n][i] == d.logs[n][i] && d'.logs[n][i].End() <= NextSequence(d.history)
    {
      assert d.logs[d.logFile][|log| - 1] == b;
    }
  }

  // ---- Recoveries that are killed ----

  lemma AbortKeeps(k: Disk, h: seq<Batch>, floor: nat, a: Abort)
    requires DiskSound(k, h, floor) && Leaves(k, a)
    ensures DiskSound(Aborted(k, a), h, floor)
  {
    hide Faithful, Replays, WellNumbered, LastRecord, LogEntriesFrom, StoreAll;
    StoredAll(k.tables, a.files);
    EmptyLog(k, a);
  }

  lemma EmptyLog(k: Disk, a: Abort)
    requires Leaves(k, a)
    ensures forall lo: nat :: LogEntriesFrom(Aborted(k, a).logs, lo) == LogEntriesFrom(k.logs, lo)
    ensures forall end: nat :: LogsInOrder(k.logs, end) ==> LogsInOrder(Aborted(k, a).logs, end)
  {
    var logs := Aborted(k, a).logs;
    assert forall n :: n in k.logs ==> n in logs && logs[n] == k.logs[n];
    assert forall n :: n in logs ==> n in k.logs || logs[n] == [];
  }

  lemma {:induction false} AbortsKeep(k: Disk, h: seq<Batch>, floor: nat, aborts: seq<Abort>)
    requires DiskSound(k, h, floor) && LeaveAll(k, aborts)
    ensures DiskSound(AfterAborts(k, aborts), h, floor)
  {
    hide DiskSound, Leaves, Aborted;
    if aborts != [] {
      var front := aborts[..|aborts| - 1];
      forall i | 0 <= i < |front| ensures Leaves(AfterAborts(k, front[..i]), front[i]) {
        assert front[..i] == aborts[..i];
      }
      AbortsKeep(k, h, floor, front);
      AbortKeeps(AfterAborts(k, front), h, floor, aborts[|aborts| - 1]);
    }
  }

  // ---- A recovery that gets through ----

  // The last sequence number is that of the recovered history.
  lemma LastRecovered(k: Disk, h: seq<Batch>, last: nat)
    requires Reaches(k, NextSequence(h)) && LogsInOrder(k.logs, NextSequence(h))
    requires MaxSequence(last, k.manifest.lastSequence, k.logs, k.manifest.logNumber)
    ensures last + 1 == NextSequence(h)
  {
    hide NextSequence;
    if k.manifest.lastSequence + 1 < NextSequence(h) {
      var e :| e in LogEntriesFrom(k.logs, k.manifest.logNumber) && e.key.sequence + 1 == NextSequence(h);
      var n, i :| n in k.logs && k.manifest.logNumber <= n && 0 <= i < |k.logs[n]| && e in k.logs[n][i].Entries();
      EntryOfBatch(k.logs[n][i], e);
    }
  }

  // Flushing the recovered entries table by table, oldest first, keeps the
  // reads.
  lemma {:induction false} PlaceAllReads(levels: Levels, files: seq<File>, tail: set<Entry>, first: nat,
                                         h: set<Entry>, floor: nat)
    requires SplitInOrder(files, tail, first)
    requires forall g :: g in levels[0] ==> g.number < first
    requires Faithful(tail, {}, levels, h, floor)
    ensures Faithful({}, {}, PlaceAll(levels, files), h, floor)
    decreases |files|
  {
    if files == [] {
      assert tail == {};
    } else {
      var rest := Contents(Listed(files[1..]));
      PeelOldest(files, tail, first);
      PlaceOne(levels, rest, files[0], h, floor);
      PlaceAllReads(Place(levels, 0, files[0]), files[1..], rest, files[0].number + 1, h, floor);
    }
  }

  lemma PlaceOne(levels: Levels, rest: set<Entry>, f: File, h: set<Entry>, floor: nat)
    requires Faithful(rest + f.contents, {}, levels, h, floor)
    requires Newer(rest, f.contents) && f.Valid()
    requires forall g :: g in levels[0] ==> g.number < f.number
    ensures Faithful(rest, {}, Place(levels, 0, f), h, floor)
  {
    FaithfulSplit(rest, f.contents, levels, h, floor);
    FaithfulFlush(rest, levels, 0, f, h, floor);
  }

  lemma {:induction false} PlaceAllFiles(levels: Levels, files: seq<File>)
    ensures PlaceAll(levels, files)[0] == levels[0] + Listed(files)
    ensures forall l :: 1 <= l < NUM_LEVELS ==> PlaceAll(levels, files)[l] == levels[l]
    decreases |files|
  {
    if files != [] {
      PlaceAllFiles(Place(levels, 0, files[0]), files[1..]);
      assert files == [files[0]] + files[1..];
    }
  }

  lemma PeelOldest(files: seq<File>, tail: set<Entry>, first: nat)
    requires files != [] && SplitInOrder(files, tail, first)
    ensures tail == Contents(Listed(files[1..])) + files[0].contents
    ensures Newer(Contents(Listed(files[1..])), files[0].contents)
    ensures files[0].Valid() && first <= files[0].number
    ensures SplitInOrder(files[1..], Contents(Listed(files[1..])), files[0].number + 1)
  {
    PeelListed(files);
    PeelSplit(files, tail, first);
    var f := files[0];
    hide Listed;
    forall e, g | e in Contents(Listed(files[1..])) && g in f.contents
      ensures e.key.sequence > g.key.sequence
    {
      var h := InContents(Listed(files[1..]), e);
      var i :| 0 <= i < |files[1..]| && files[1..][i] == h;
      assert OlderThan(f.contents, files[1 + i].contents);
    }
  }

  lemma PeelListed(files: seq<File>)
    requires files != []
    ensures Listed(files) == {files[0]} + Listed(files[1..])
    ensures Contents(Listed(files)) == Contents(Listed(files[1..])) + files[0].contents
  {
    assert files == [files[0]] + files[1..];
  }

  lemma PeelSplit(files: seq<File>, tail: set<Entry>, first: nat)
    requires files != [] && SplitInOrder(files, tail, first)
    ensures SplitInOrder(files[1..], Contents(Listed(files[1..])), files[0].number + 1)
  {
    hide Contents, Listed, OlderThan;
  }

  ghost predicate Recovered(k: Disk, h: seq<Batch>, floor: nat, d: Db, files: seq<File>, last: nat, newLog: nat,
                            snapshot: seq<(nat, File)>) {
    DiskSound(k, h, floor) && Recovers(k, h, floor, d, files, last, newLog, snapshot)
  }

  lemma RecoveredReadsHold(k: Disk, h: seq<Batch>, floor: nat, d: Db, files: seq<File>, last: nat, newLog: nat,
                           snapshot: seq<(nat, File)>)
    requires Recovered(k, h, floor, d, files, last, newLog, snapshot)
    ensures Faithful({}, {}, d.levels, Written(h), floor)
    ensures HistorySound(d) && ReadsSound(d) && SnapshotsSound(d)
  {
    hide Faithful, LogEntriesFrom, PlaceAll, StoreAll, LogsInOrder, SplitInOrder, MaxSequence, Reaches, NextSequence,
         RecordsSound, Snapshot, Consecutive;
    LastRecovered(k, h, last);
    PlaceAllReads(k.manifestLevels, files, LogEntriesFrom(k.logs, k.manifest.logNumber), k.manifest.nextFile,
                  Written(h), floor);
    assert d.history + Pending(d) == h;
  }

  lemma RecoveredLogs(k: Disk, h: seq<Batch>, floor: nat, d: Db, files: seq<File>, last: nat, newLog: nat,
                      snapshot: seq<(nat, File)>)
    requires Recovered(k, h, floor, d, files, last, newLog, snapshot)
    ensures LogsSound(d) && LogsOrdered(d)
  {
    hide Faithful, LogEntriesFrom, PlaceAll, StoreAll, SplitInOrder, MaxSequence, Reaches, NextSequence, RecordsSound,
         Snapshot, Consecutive;
    assert LogEntries(d.logs, newLog, newLog + 1) == {};
    assert LogEntries(d.logs, newLog, newLog) == {};
    assert Pending(d) == [] && Written([]) == {} && d.history + [] == h;
  }

  lemma RecoveredFiles(k: Disk, h: seq<Batch>, floor: nat, d: Db, files: seq<File>, last: nat, newLog: nat,
                       snapshot: seq<(nat, File)>)
    requires Recovered(k, h, floor, d, files, last, newLog, snapshot)
    ensures TablesSound(d) && ManifestSound(d) && StageSound(d)
  {
    hide LogEntriesFrom, PlaceAll, StoreAll, LogsInOrder, MaxSequence, Reaches, NextSequence, RecordsSound, Snapshot,
         Faithful, SplitInOrder, DiskSound, Has, Consecutive;
    RecoveredTables(k, h, floor, d, files, last, newLog, snapshot);
    RecoveredBelow(k, h, floor, d, files, last, newLog, snapshot);
  }

  lemma RecoveredTables(k: Disk, h: seq<Batch>, floor: nat, d: Db, files: seq<File>, last: nat, newLog: nat,
                        snapshot: seq<(nat, File)>)
    requires Recovered(k, h, floor, d, files, last, newLog, snapshot)
    ensures forall l, f :: 0 <= l < NUM_LEVELS && f in d.levels[l] ==> Has(d.tables, f) && f.number < newLog
  {
    hide LogEntriesFrom, PlaceAll, StoreAll, LogsInOrder, MaxSequence, Reaches, NextSequence, RecordsSound, Snapshot,
         OlderThan, Faithful, Consecutive, Contents;
    PlaceAllFiles(k.manifestLevels, files);
    StoredAll(k.tables, files);
    forall l, f | 0 <= l < NUM_LEVELS && f in d.levels[l]
      ensures Has(d.tables, f) && f.number < newLog
    {
      if f in files {
        var i :| 0 <= i < |files| && files[i] == f;
      } else {
        assert f in k.manifestLevels[l];
      }
    }
  }

  lemma RecoveredBelow(k: Disk, h: seq<Batch>, floor: nat, d: Db, files: seq<File>, last: nat, newLog: nat,
                       snapshot: seq<(nat, File)>)
    requires Recovered(k, h, floor, d, files, last, newLog, snapshot)
    ensures forall e :: e in All(d.levels) ==> e.key.sequence <= d.lastSequence
  {
    hide LogEntriesFrom, PlaceAll, StoreAll, LogsInOrder, MaxSequence, Reaches, NextSequence, RecordsSound, Snapshot,
         SplitInOrder, Consecutive;
    LastRecovered(k, h, last);
    RecoveredReadsHold(k, h, floor, d, files, last, newLog, snapshot);
    ConsecutiveUnique(h);
  }

  // The new manifest begins with all files there were.
  lemma RecoveredEdits(k: Disk, h: seq<Batch>, floor: nat, d: Db, files: seq<File>, last: nat, newLog: nat,
                       snapshot: seq<(nat, File)>)
    requires Recovered(k, h, floor, d, files, last, newLog, snapshot)
    ensures EditsSound(d)
  {
    hide Faithful, LogEntriesFrom, PlaceAll, StoreAll, LogsInOrder, MaxSequence, Reaches, NextSequence, OlderThan,
         RecordsSound, NamedAt, Manifest.AddedOnce, EditsOf, LastRecord, Manifest.Edit.AddedAt, Manifest.Numbers,
         Contents, Listed, WellNumbered;
    PlaceAllFiles(k.manifestLevels, files);
    forall l | 0 <= l < NUM_LEVELS
      ensures NamedAt(d.edits, l) == d.levels[l] == Manifest.AfterAll({}, EditsOf(d.edits), l)
      ensures Manifest.AddedOnce({}, EditsOf(d.edits), l)
    {
      FilesUnlisted(k, files, l);
      TwoRecords(k, d.levels, d.edits, files, l, snapshot);
    }
    RecordAdded([d.edits[0]], d.edits[1], 0);
    assert d.edits == [d.edits[0]] + [d.edits[1]];
    RecoveredFiles(k, h, floor, d, files, last, newLog, snapshot);
    RecoveredNumbers(k, h, floor, d, files, last, newLog, snapshot);
    NamedAreListed(d);
  }

  lemma TwoRecords(k: Disk, levels: Levels, edits: seq<ManifestRecord>, files: seq<File>, l: nat,
                   snapshot: seq<(nat, File)>)
    requires |edits| == 2 && l < NUM_LEVELS && Snapshot(snapshot, k.manifestLevels)
    requires edits[0].edit == Manifest.Edit({}, snapshot) && edits[1].edit == Manifest.Edit({}, AtLevel(0, files))
    requires levels[l] == k.manifestLevels[l] + if l == 0 then Listed(files) else {}
    requires forall f :: f in files && l == 0 ==> f.number !in Manifest.Numbers(k.manifestLevels[l])
    ensures NamedAt(edits, l) == levels[l] == Manifest.AfterAll({}, EditsOf(edits), l)
    ensures Manifest.AddedOnce({}, EditsOf(edits), l)
  {
    hide Manifest.Edit.AddedAt, Manifest.Edit.DeletedAt, Manifest.AddedOnce, Manifest.Numbers, NamedAt, Manifest.Named,
         Manifest.AfterAll, EditsOf;
    var e0, e1 := edits[0].edit, edits[1].edit;
    assert edits == [edits[0]] + [edits[1]] && [] + [edits[0]] == [edits[0]] && [] + [e0] == [e0];
    RecordAdded([], edits[0], l);
    RecordAdded([edits[0]], edits[1], l);
    NoRecords(l);
    NamedIs([edits[0]], l);
    AllAtLevel(0, files, l);
    NothingDeleted(k.manifestLevels[l], e0, l);
    NothingDeleted(k.manifestLevels[l], e1, l);
    AddedOnceMore([], e0, l);
    FilesAreNew(k.manifestLevels[l], files, l);
    assert EditsOf([edits[0]]) == [e0];
    assert e1.AddedAt(l) == if l == 0 then Listed(files) else {};
    assert NamedAt([edits[0]], l) == e0.AddedAt(l) == k.manifestLevels[l];
    assert Manifest.Named({}, [e0], l) == k.manifestLevels[l];
    AddedOnceMore([e0], e1, l);
  }

  lemma NoRecords(l: nat)
    ensures EditsOf([]) == [] && NamedAt([], l) == {} && Manifest.Named({}, [], l) == {}
    ensures Manifest.AfterAll({}, [], l) == {} && Manifest.AddedOnce({}, [], l) && Manifest.Numbers({}) == {}
  {
  }

  lemma NamedIs(logged: seq<ManifestRecord>, l: nat)
    ensures NamedAt(logged, l) == Manifest.Named({}, EditsOf(logged), l)
  {
  }

  lemma NothingDeleted(files: set<File>, e: Manifest.Edit, l: nat)
    requires e.deleted == {}
    ensures Manifest.After(files, e, l) == files + e.AddedAt(l)
    ensures Manifest.After({}, e, l) == e.AddedAt(l)
  {
    assert e.DeletedAt(l) == {};
  }

  lemma FilesUnlisted(k: Disk, files: seq<File>, l: nat)
    requires l < NUM_LEVELS && forall i :: 0 <= i < |files| ==> k.manifest.nextFile <= files[i].number
    requires forall m, f :: 0 <= m < NUM_LEVELS && f in k.manifestLevels[m] ==> f.number < k.manifest.nextFile
    ensures forall f :: f in files ==> f.number !in Manifest.Numbers(k.manifestLevels[l])
  {
  }

  lemma FilesAreNew(before: set<File>, files: seq<File>, l: nat)
    requires forall f :: f in files && l == 0 ==> f.number !in Manifest.Numbers(before)
    ensures Manifest.Numbers(before) !! Manifest.Numbers(if l == 0 then Listed(files) else {})
  {
    NumbersApart(before, if l == 0 then Listed(files) else {});
  }

  lemma RecoveredNumbers(k: Disk, h: seq<Batch>, floor: nat, d: Db, files: seq<File>, last: nat, newLog: nat,
                         snapshot: seq<(nat, File)>)
    requires Recovered(k, h, floor, d, files, last, newLog, snapshot)
    ensures forall l, m, f :: 0 <= l < m < NUM_LEVELS && f in d.levels[l] ==> f.number !in Manifest.Numbers(d.levels[m])
  {
    hide Faithful, LogEntriesFrom, PlaceAll, StoreAll, LogsInOrder, MaxSequence, Reaches, NextSequence, OlderThan,
         Replays, NamedAt, LastRecord, Manifest.AddedOnce;
    PlaceAllFiles(k.manifestLevels, files);
    forall l, m, f, g | 0 <= l < m < NUM_LEVELS && f in d.levels[l] && g in d.levels[m]
      ensures f.number != g.number
    {
      NamedHolds(k.edits, k.manifestLevels, m);
      assert g in k.manifestLevels[m] && g.number in Manifest.Numbers(NamedAt(k.edits, m));
      if f in files {
        var i :| 0 <= i < |files| && files[i] == f;
      }
    }
  }

  // Right after recovery the manifest has named just the files there are.
  lemma NamedAreListed(d: Db)
    requires TablesSound(d)
    requires forall l :: 0 <= l < NUM_LEVELS ==>
               NamedAt(d.edits, l) == d.levels[l] &&
               Manifest.AddedOnce({}, EditsOf(d.edits), l)
    requires forall l, m, f :: 0 <= l < m < NUM_LEVELS && f in d.levels[l] ==>
             f.number !in Manifest.Numbers(d.levels[m])
    ensures WellNumbered(d.edits, d.levels)
    ensures forall l, f :: 0 <= l < NUM_LEVELS && f in NamedAt(d.edits, l) ==> f.number < d.nextFile
  {
    hide NamedAt, Manifest.AddedOnce, EditsOf;
  }

  lemma RecoveryKeeps(k: Disk, h: seq<Batch>, floor: nat, d: Db, files: seq<File>, last: nat, newLog: nat,
                      snapshot: seq<(nat, File)>)
    requires DiskSound(k, h, floor) && Recovers(k, h, floor, d, files, last, newLog, snapshot)
    ensures Inv(d) && d.history == h && d.lastSequence + 1 == NextSequence(h)
  {
    hide DiskSound, HistorySound, ReadsSound, SnapshotsSound, LogsSound, LogsOrdered, TablesSound, ManifestSound,
         StageSound, EditsSound, Recovers;
    RecoveredReadsHold(k, h, floor, d, files, last, newLog, snapshot);
    RecoveredLogs(k, h, floor, d, files, last, newLog, snapshot);
    RecoveredFiles(k, h, floor, d, files, last, newLog, snapshot);
    RecoveredEdits(k, h, floor, d, files, last, newLog, snapshot);
    RecoveredHistory(k, h, floor, d, files, last, newLog, snapshot);
  }

  lemma RecoveredHistory(k: Disk, h: seq<Batch>, floor: nat, d: Db, files: seq<File>, last: nat, newLog: nat,
                         snapshot: seq<(nat, File)>)
    requires Recovered(k, h, floor, d, files, last, newLog, snapshot)
    ensures d.history == h && d.lastSequence == last && last + 1 == NextSequence(h)
  {
    hide Faithful, LogEntriesFrom, MaxSequence, Reaches, LogsInOrder, RecordsSound, SplitInOrder;
    LastRecovered(k, h, last);
  }

  lemma CrashAndRecoverKeeps(d: Db, d': Db, torn: bool, aborts: seq<Abort>, files: seq<File>, last: nat, newLog: nat,
                             snapshot: seq<(nat, File)>)
    requires Inv(d) && CrashAndRecover(d, d', torn, aborts, files, last, newLog, snapshot)
    ensures Inv(d')
    ensures d'.history == d.history + if torn then [] else Pending(d)
    ensures d'.lastSequence + 1 == NextSequence(d'.history)
  {
    hide Inv, DiskSound, Recovers, LeaveAll, Aborted;
    var left := if torn then Torn(d) else d;
    if torn {
      TornKeeps(d);
    }
    DiskIsSound(left);
    var h, floor := left.history + Pending(left), RecoveredFloor(left);
    AbortsKeep(DiskOf(left), h, floor, aborts);
    RecoveryKeeps(AfterAborts(DiskOf(left), aborts), h, floor, d', files, last, newLog, snapshot);
  }
}
