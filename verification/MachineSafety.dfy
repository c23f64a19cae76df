// What every step of the database machine but a crash keeps.
module MachineSafety {
  import opened Keys
  import opened Store
  import opened Lsm
  import opened CompactionSafety
  import opened Compaction
  import opened Lookup
  import opened Fidelity
  import opened Machine
  import opened ManifestSafety
  import opened Options
  import Manifest

  lemma NoEntries(levels: Levels)
    requires forall l :: 0 <= l < NUM_LEVELS ==> levels[l] == {}
    ensures All(levels) == {} && Shaped(levels)
  {
    forall l, m | 0 <= l < m < NUM_LEVELS
      ensures Newer(Contents(levels[l]), Contents(levels[m]))
    {
      assert levels[l] == {};
    }
    forall l | 0 <= l < NUM_LEVELS ensures FilesValid(levels[l]) {}
    forall l | 1 <= l < NUM_LEVELS ensures Disjoint(levels[l]) {}
  }

  lemma InitInv(d: Db)
    requires Init(d)
    ensures Inv(d)
  {
    hide All, Shaped, LogEntries, Faithful, EditsSound;
    NoEntries(d.levels);
    InitReads(d);
    InitLogs(d);
    InitEdits(d);
  }

  lemma InitReads(d: Db)
    requires Init(d) && All(d.levels) == {} && Shaped(d.levels)
    ensures HistorySound(d) && ReadsSound(d)
  {
    hide All, Shaped;
    assert d.history + Pending(d) == [];
    assert Written([]) == {};
  }

  lemma InitLogs(d: Db)
    requires Init(d)
    ensures LogsSound(d) && LogsOrdered(d)
  {
    assert Written([]) == {};
    assert LogEntries(d.logs, d.logFile, d.logFile + 1) == {};
    assert LogEntries(d.logs, d.logNumber, d.logFile) == {};
  }

  lemma InitEdits(d: Db)
    requires Init(d)
    ensures EditsSound(d)
  {
    assert LastRecord(d.edits) == d.edits[1].record;
    forall l | 0 <= l < NUM_LEVELS
      ensures NamedAt(d.edits, l) == {} && Manifest.AfterAll({}, EditsOf(d.edits), l) == {}
      ensures Manifest.AddedOnce({}, EditsOf(d.edits), l)
    {
      var e := Manifest.Edit({}, []);
      assert d.edits == [ManifestRecord(e, None)] + [d.edits[1]];
      RecordAdded([], ManifestRecord(e, None), l);
      RecordAdded([ManifestRecord(e, None)], d.edits[1], l);
      assert e.AddedAt(l) == {} && EditsOf([]) == [];
    }
  }

  // ---- What foreground steps leave alone ----

  ghost predicate FlushUnderWay(d: Db) {
    !d.stage.Idle? && d.stage.job.IsFlush()
  }

  // The version and the background job are as before; logs and memtables may
  // have moved on.
  ghost predicate Undisturbed(d: Db, d': Db) {
    && d'.levels == d.levels && d'.stage == d.stage
    && d'.manifest == d.manifest && d'.manifestLevels == d.manifestLevels && d'.logNumber == d.logNumber
    && (FlushUnderWay(d) ==> d'.imm == d.imm && d'.logFile == d.logFile)
    && d'.tables == d.tables && d'.edits == d.edits && d'.pinned == d.pinned
    && d.nextFile <= d'.nextFile
    && SmallestSnapshot(d) <= SmallestSnapshot(d')
    && d.lastSequence <= d'.lastSequence
    && UpperAfter(d, FlushUnderWay(d)) <= UpperAfter(d', FlushUnderWay(d))
    && UpperAfter(d, false) <= UpperAfter(d', false)
    && (forall e :: e in UpperAfter(d', false) - UpperAfter(d, false) ==> SmallestSnapshot(d) < e.key.sequence)
    && (d.lastSequence < d'.lastSequence ==> exists e :: e in d'.mem && e.key.sequence == d'.lastSequence)
  }

  lemma CoversStable(d: Db, d': Db, record: Record, levels: Levels, upper: set<Entry>, upper': set<Entry>)
    requires Covers(d, record, levels, upper)
    requires upper <= upper' && d'.mem <= upper'
    requires d.lastSequence <= d'.lastSequence
    requires d.lastSequence < d'.lastSequence ==> exists e :: e in d'.mem && e.key.sequence == d'.lastSequence
    ensures Covers(d', record, levels, upper')
  {
  }

  lemma JobStable(d: Db, d': Db)
    requires Undisturbed(d, d') && !d.stage.Idle? && JobSound(d, d.stage.job)
    ensures JobSound(d', d'.stage.job)
  {
    hide Harmless, Selected, Outputs, Placeable, File.Valid;
    if d.stage.job.Compact? { HarmlessStays(d, d.mem + Imm(d), d'.mem + Imm(d'), d.stage.job); }
  }

  // What is written later is not seen at the job's snapshot.
  lemma HarmlessStays(d: Db, upper: set<Entry>, upper': set<Entry>, job: Job)
    requires job.Compact? && Harmless(upper, d.levels, job.plan, job.snap) && job.snap <= SmallestSnapshot(d)
    requires upper <= upper' && forall e :: e in upper' - upper ==> SmallestSnapshot(d) < e.key.sequence
    ensures Harmless(upper', d.levels, job.plan, job.snap)
  {
    hide Resurrects, Rest;
    forall e | e in UpTo(upper', job.snap) ensures e in upper {
      assert e !in upper' - upper;
    }
    assert UpTo(upper, job.snap) == UpTo(upper', job.snap);
  }

  lemma StageStable(d: Db, d': Db)
    requires Undisturbed(d, d') && StageSound(d)
    ensures StageSound(d')
  {
    if !d.stage.Idle? {
      JobStable(d, d');
      if d.stage.Composed? || d.stage.Logged? {
        var flush := d.stage.job.IsFlush();
        CoversStable(d, d', d.stage.record, JobLevels(d.levels, d.stage.job), UpperAfter(d, flush),
                     UpperAfter(d', flush));
      }
    }
  }

  lemma ManifestStable(d: Db, d': Db)
    requires Undisturbed(d, d') && ManifestSound(d)
    ensures ManifestSound(d')
  {
    if !d.stage.Logged? {
      CoversStable(d, d', d.manifest, d.levels, UpperAfter(d, false), UpperAfter(d', false));
    }
  }

  lemma TablesStable(d: Db, d': Db)
    requires Undisturbed(d, d') && TablesSound(d)
    ensures TablesSound(d')
  {
  }

  // ---- Writes ----

  lemma AppendLogKeeps(d: Db, d': Db, b: Batch)
    requires Inv(d) && AppendLog(d, d', b)
    ensures Inv(d')
  {
    hide Faithful, LogEntries, JobSound, RecordSound, Covers, EditsSound, LogsInOrder, NextSequence, Consecutive;
    AppendLogLogs(d, d', b);
    StageStable(d, d');
    ManifestStable(d, d');
    TablesStable(d, d');
    AppendLogHistory(d, d', b);
    EditsStable(d, d');
    AppendLogOrder(d, d', b);
  }

  lemma AppendLogOrder(d: Db, d': Db, b: Batch)
    requires LogsSound(d) && LogsOrdered(d) && HistorySound(d) && AppendLog(d, d', b)
    ensures LogsOrdered(d')
  {
    assert Pending(d) == [] && Pending(d') == [b] && d.history + [] == d.history;
    var n := |d.logs[d.logFile]|;
    assert forall i :: 0 <= i < n ==> d'.logs[d.logFile][i] == d.logs[d.logFile][i];
    assert d'.logs[d.logFile][n] == b;
    assert forall m :: m in d.logs && m != d.logFile ==> d'.logs[m] == d.logs[m];
  }

  lemma AppendLogHistory(d: Db, d': Db, b: Batch)
    requires HistorySound(d) && AppendLog(d, d', b)
    ensures HistorySound(d')
  {
    assert d.history + [] == d.history;
    var all := d.history + [b];
    assert forall i :: 0 <= i < |d.history| ==> all[i] == d.history[i];
  }

  lemma AppendLogLogs(d: Db, d': Db, b: Batch)
    requires LogsSound(d) && AppendLog(d, d', b)
    ensures LogsSound(d')
  {
    assert Written([]) == {};
    WrittenOne(b);
    LogAppended(d.logs, d.logFile, b);
  }

  lemma WrittenOne(b: Batch)
    ensures Written([b]) == b.Entries()
  {
    assert [b][0] == b;
  }

  lemma LogAppended(logs: map<nat, seq<Batch>>, n: nat, b: Batch)
    requires n in logs
    ensures LogEntries(logs[n := logs[n] + [b]], n, n + 1) == LogEntries(logs, n, n + 1) + b.Entries()
    ensures forall lo: nat :: LogEntries(logs[n := logs[n] + [b]], lo, n) == LogEntries(logs, lo, n)
  {
    var after := logs[n := logs[n] + [b]];
    assert after[n][|logs[n]|] == b;
    assert forall i :: 0 <= i < |logs[n]| ==> after[n][i] == logs[n][i];
    forall lo: nat
      ensures LogEntries(after, lo, n) == LogEntries(logs, lo, n)
    {
      assert forall m :: m in logs && m < n ==> after[m] == logs[m];
    }
  }

  lemma ApplyBatchKeeps(d: Db, d': Db)
    requires Inv(d) && ApplyBatch(d, d')
    ensures Inv(d')
  {
    hide Faithful, LogEntries, JobSound, RecordSound, Covers, EditsSound, LogsInOrder, Consecutive;
    ApplyBatchHistory(d, d');
    ApplyBatchLogs(d, d');
    BatchReads(d, d', d.inLog.value);
    ApplyBatchUndisturbed(d, d');
    StageStable(d, d');
    ManifestStable(d, d');
    TablesStable(d, d');
    EditsStable(d, d');
    assert d'.history + Pending(d') == d.history + Pending(d);
  }

  lemma ApplyBatchHistory(d: Db, d': Db)
    requires HistorySound(d) && ApplyBatch(d, d')
    ensures HistorySound(d')
    ensures d.inLog.value.first == d.lastSequence + 1
    ensures Written(d'.history) == Written(d.history) + d.inLog.value.Entries()
    ensures UniqueSequences(Written(d'.history))
  {
    var b := d.inLog.value;
    assert Pending(d) == [b] && d'.history + [] == d.history + [b];
    WrittenAppend(d.history, b);
    ConsecutiveUnique(d.history + [b]);
  }

  lemma ApplyBatchLogs(d: Db, d': Db)
    requires LogsSound(d) && ApplyBatch(d, d')
    ensures LogsSound(d')
  {
    WrittenOne(d.inLog.value);
    assert Pending(d) == [d.inLog.value];
    assert Written(Pending(d')) == {};
  }

  lemma ApplyBatchUndisturbed(d: Db, d': Db)
    requires ApplyBatch(d, d') && d.inLog.value.first == d.lastSequence + 1 && SnapshotsSound(d)
    ensures Undisturbed(d, d')
  {
    var b := d.inLog.value;
    forall e | e in b.Entries() ensures SmallestSnapshot(d) < e.key.sequence { EntryOfBatch(b, e); }
    if |b.ops| > 0 {
      var i := |b.ops| - 1;
      var e := Entry(IKey(b.ops[i].user, b.first + i, b.ops[i].kind), b.ops[i].value);
      assert e in b.Entries() && e in d'.mem && e.key.sequence == d'.lastSequence;
    }
  }

  lemma BatchReads(d: Db, d': Db, b: Batch)
    requires ReadsSound(d) && HistorySound(d) && ApplyBatch(d, d') && d.inLog.value == b
    requires Written(d'.history) == Written(d.history) + b.Entries()
    requires UniqueSequences(Written(d.history) + b.Entries())
    requires b.first == d.lastSequence + 1
    ensures ReadsSound(d')
  {
    WrittenBelow(d);
    forall e, f | e in b.Entries() && f in Written(d.history)
      ensures e.key.sequence > f.key.sequence
    {
      EntryOfBatch(b, e);
    }
    FaithfulWrite(d.mem, Imm(d), d.levels, Written(d.history), d.floor, b.Entries());
  }

  lemma WrittenBelow(d: Db)
    requires HistorySound(d)
    ensures Consecutive(d.history)
    ensures forall f :: f in Written(d.history) ==> f.key.sequence <= d.lastSequence
  {
    var all := d.history + Pending(d);
    assert forall i :: 0 <= i < |d.history| ==> all[i] == d.history[i];
    ConsecutiveUnique(d.history);
  }

  // ---- Memtable switch, snapshots and clean-up ----

  lemma SwitchMemtableKeeps(d: Db, d': Db)
    requires Inv(d) && SwitchMemtable(d, d')
    ensures Inv(d')
  {
    hide Faithful, LogEntries, JobSound, RecordSound, Covers, EditsSound, LogsInOrder, Consecutive, NextSequence;
    NoFlushYet(d);
    SwitchLogs(d, d');
    SwitchOrder(d, d');
    FaithfulSwitch(d.mem, d.levels, Written(d.history), d.floor);
    assert UpperAfter(d', false) == d.mem;
    StageStable(d, d');
    ManifestStable(d, d');
    TablesStable(d, d');
    EditsStable(d, d');
    assert Pending(d') == Pending(d);
  }

  // A flush needs an immutable memtable.
  lemma NoFlushYet(d: Db)
    requires StageSound(d) && d.imm.None?
    ensures !FlushUnderWay(d)
  {
    hide Placeable, Selected, Closed, Outputs, RecordSound;
  }

  lemma SwitchOrder(d: Db, d': Db)
    requires LogsSound(d) && LogsOrdered(d) && SwitchMemtable(d, d')
    ensures LogsOrdered(d')
  {
    hide LogEntries, NextSequence;
    assert Pending(d') == Pending(d);
    assert forall n :: n in d'.logs ==> if n in d.logs then d'.logs[n] == d.logs[n] else d'.logs[n] == [];
  }

  lemma SwitchLogs(d: Db, d': Db)
    requires LogsSound(d) && SwitchMemtable(d, d')
    ensures LogsSound(d')
  {
    assert Written([]) == {};
    var n := d.nextFile;
    assert n !in d.logs;
    assert forall m :: m in d.logs ==> d'.logs[m] == d.logs[m];
    assert LogEntries(d'.logs, n, n + 1) == {};
    assert LogEntries(d'.logs, d.logNumber, n) == LogEntries(d.logs, d.logNumber, n);
    LogEntriesSplit(d.logs, d.logNumber, d.logFile, n);
    assert LogEntries(d.logs, d.logFile, n) == LogEntries(d.logs, d.logFile, d.logFile + 1);
  }

  lemma LogEntriesSplit(logs: map<nat, seq<Batch>>, lo: nat, mid: nat, hi: nat)
    requires lo <= mid <= hi
    ensures LogEntries(logs, lo, hi) == LogEntries(logs, lo, mid) + LogEntries(logs, mid, hi)
  {
  }

  lemma SnapshotChangeKeeps(d: Db, d': Db)
    requires Inv(d) && d' == d.(snapshots := d'.snapshots)
    requires SnapshotsSound(d') && SmallestSnapshot(d) <= SmallestSnapshot(d')
    ensures Inv(d')
  {
    StageStable(d, d');
    ManifestStable(d, d');
    TablesStable(d, d');
    SameStores(d, d');
    EditsStable(d, d');
  }

  // What is written, and what is read, does not depend on the other fields.
  lemma SameStores(d: Db, d': Db)
    requires HistorySound(d) && ReadsSound(d) && LogsSound(d) && LogsOrdered(d)
    requires d' == d.(snapshots := d'.snapshots, stage := d'.stage, nextFile := d'.nextFile, tables := d'.tables,
                      edits := d'.edits, manifest := d'.manifest, manifestLevels := d'.manifestLevels)
    requires d.nextFile <= d'.nextFile
    ensures HistorySound(d') && ReadsSound(d') && LogsSound(d') && LogsOrdered(d')
    ensures Imm(d') == Imm(d)
  {
    hide LogsInOrder, Faithful, LogEntries;
    assert Imm(d') == Imm(d) && Pending(d') == Pending(d);
  }

  lemma PinKeeps(d: Db, d': Db)
    requires Inv(d) && Pin(d, d')
    ensures Inv(d')
  {
    PinsKeep(d, d');
  }

  lemma UnpinKeeps(d: Db, d': Db, i: nat)
    requires Inv(d) && Unpin(d, d', i)
    ensures Inv(d')
  {
    forall k | 0 <= k < |d'.pinned|
      ensures d'.pinned[k] in d.pinned
    {
      assert d'.pinned[k] == d.pinned[if k < i then k else k + 1];
    }
    PinsKeep(d, d');
  }

  lemma PinsKeep(d: Db, d': Db)
    requires Inv(d) && d' == d.(pinned := d'.pinned)
    requires forall v :: v in d'.pinned ==> v == d.levels || v in d.pinned
    ensures Inv(d')
  {
    hide Faithful, LogEntries, RecordSound, Covers, EditsSound, LogsInOrder, Consecutive, NextSequence, JobSound;
    assert Pending(d') == Pending(d) && Imm(d') == Imm(d);
    PinsStage(d, d');
    PinsTables(d, d');
    EditsStable(d, d');
  }

  lemma PinsTables(d: Db, d': Db)
    requires TablesSound(d) && d' == d.(pinned := d'.pinned)
    requires forall v :: v in d'.pinned ==> v == d.levels || v in d.pinned
    ensures TablesSound(d')
  {
    hide Has;
    forall i, l, f | 0 <= i < |d'.pinned| && 0 <= l < NUM_LEVELS && f in d'.pinned[i][l]
      ensures Has(d'.tables, f) && f.number < d'.nextFile
    {
      assert d'.pinned[i] in d'.pinned;
    }
  }

  lemma PinsStage(d: Db, d': Db)
    requires StageSound(d) && ManifestSound(d) && d' == d.(pinned := d'.pinned)
    ensures StageSound(d') && ManifestSound(d')
  {
    hide File.Valid, Placeable, Selected, Closed, Outputs, NumbersAscend, Has;
  }

  lemma TakeSnapshotKeeps(d: Db, d': Db)
    requires Inv(d) && TakeSnapshot(d, d')
    ensures Inv(d')
  {
    TakenIsNewest(d, d');
    SnapshotChangeKeeps(d, d');
  }

  lemma TakenIsNewest(d: Db, d': Db)
    requires SnapshotsSound(d) && d.floor <= d.lastSequence && TakeSnapshot(d, d')
    ensures SnapshotsSound(d') && SmallestSnapshot(d) <= SmallestSnapshot(d')
  {
  }

  lemma ReleaseSnapshotKeeps(d: Db, d': Db, i: nat)
    requires Inv(d) && ReleaseSnapshot(d, d', i)
    ensures Inv(d')
  {
    ReleasedStaysSorted(d, d', i);
    SnapshotChangeKeeps(d, d');
  }

  lemma ReleasedStaysSorted(d: Db, d': Db, i: nat)
    requires SnapshotsSound(d) && ReleaseSnapshot(d, d', i)
    ensures SnapshotsSound(d') && SmallestSnapshot(d) <= SmallestSnapshot(d')
  {
    forall k | 0 <= k < |d'.snapshots|
      ensures d'.snapshots[k] == d.snapshots[if k < i then k else k + 1]
    {
    }
  }

  lemma RemoveObsoleteKeeps(d: Db, d': Db)
    requires Inv(d) && RemoveObsolete(d, d')
    ensures Inv(d')
  {
    hide ReadsSound, HistorySound, LogsSound, LogsOrdered, EditsSound, ManifestSound, TablesSound, SnapshotsSound;
    RemoveObsoleteLogs(d, d');
    RemoveObsoleteTables(d, d');
    EditsStable(d, d');
  }

  lemma RemoveObsoleteLogs(d: Db, d': Db)
    requires HistorySound(d) && ReadsSound(d) && SnapshotsSound(d) && LogsSound(d) && LogsOrdered(d) &&
             RemoveObsolete(d, d')
    ensures HistorySound(d') && ReadsSound(d') && SnapshotsSound(d') && LogsSound(d') && LogsOrdered(d')
  {
    hide Faithful, LogEntries, LogsInOrder, NextSequence, Consecutive;
    FewerLogs(d.logs, d'.logs, d.logNumber);
    assert Pending(d') == Pending(d) && Imm(d') == Imm(d);
  }

  lemma FewerLogs(logs: map<nat, seq<Batch>>, fewer: map<nat, seq<Batch>>, lo: nat)
    requires fewer == map n | n in logs && n >= lo :: logs[n]
    ensures forall a: nat, b: nat :: lo <= a ==> LogEntries(fewer, a, b) == LogEntries(logs, a, b)
    ensures forall end: nat :: LogsInOrder(logs, end) ==> LogsInOrder(fewer, end)
  {
    assert forall n :: n in fewer ==> fewer[n] == logs[n];
    assert forall n: nat :: n >= lo ==> (n in fewer <==> n in logs);
  }

  lemma RemoveObsoleteTables(d: Db, d': Db)
    requires ManifestSound(d) && TablesSound(d) && RemoveObsolete(d, d')
    ensures ManifestSound(d') && TablesSound(d') && StageSound(d')
  {
    CoversStable(d, d', d.manifest, d.levels, UpperAfter(d, false), UpperAfter(d', false));
  }

  // ---- Background jobs ----

  // No table file is replaced that has a number given out before.
  ghost predicate OnlyNew(d: Db, d': Db) {
    forall f: File :: f.number < d.nextFile && Has(d.tables, f) ==> Has(d'.tables, f)
  }

  // Distinct numbers: all files are there, and the files of other numbers still.
  lemma {:induction false} StoredAll(tables: map<nat, File>, files: seq<File>)
    ensures NumbersAscend(files) ==> forall i :: 0 <= i < |files| ==> Has(StoreAll(tables, files), files[i])
    ensures forall f: File :: Has(tables, f) && (forall i :: 0 <= i < |files| ==> files[i].number != f.number) ==>
              Has(StoreAll(tables, files), f)
  {
    if files != [] {
      var front := files[..|files| - 1];
      StoredAll(tables, front);
      forall f: File | Has(tables, f) && (forall i :: 0 <= i < |files| ==> files[i].number != f.number)
        ensures Has(StoreAll(tables, files), f)
      {
        assert forall i :: 0 <= i < |front| ==> front[i] == files[i];
      }
    }
  }

  // Starting a job touches nothing but the stage, new tables and file numbers.
  lemma BuiltKeeps(d: Db, d': Db, job: Job)
    requires Inv(d) && d.stage.Idle?
    requires d' == d.(stage := Built(job), nextFile := d'.nextFile, tables := d'.tables)
    requires d.nextFile <= d'.nextFile && OnlyNew(d, d')
    requires JobSound(d', job)
    requires forall i :: 0 <= i < |NewFiles(job)| ==> d.nextFile <= NewFiles(job)[i].number
    ensures Inv(d')
  {
    hide HistorySound, ReadsSound, LogsSound, LogsOrdered, SnapshotsSound, EditsSound, JobSound;
    SameStores(d, d');
    SameSnapshots(d, d');
    BuiltEdits(d, d', job);
    assert ManifestSound(d') by {
      CoversStable(d, d', d.manifest, d.levels, UpperAfter(d, false), UpperAfter(d', false));
    }
  }

  lemma SameSnapshots(d: Db, d': Db)
    requires SnapshotsSound(d)
    requires d'.snapshots == d.snapshots && d'.floor == d.floor && d'.lastSequence == d.lastSequence
    ensures SnapshotsSound(d') && SmallestSnapshot(d') == SmallestSnapshot(d)
  {
  }

  lemma BuildFlushKeeps(d: Db, d': Db, level: nat, f: File)
    requires Inv(d) && BuildFlush(d, d', level, f)
    ensures Inv(d')
  {
    hide LogsSound, ReadsSound, EditsSound, LogsOrdered, HistorySound, SnapshotsSound;
    BuiltKeeps(d, d', d'.stage.job);
  }

  lemma BuildMoveKeeps(d: Db, d': Db, p: Plan, f: File)
    requires Inv(d) && BuildMove(d, d', p, f)
    ensures Inv(d')
  {
    hide LogsSound, ReadsSound, EditsSound, LogsOrdered, HistorySound, SnapshotsSound, ManifestSound, TablesSound,
         Closed;
    BuiltKeeps(d, d', Move(p, f));
  }

  lemma BuildCompactionKeeps(d: Db, d': Db, p: Plan, outputs: seq<File>, nextFile: nat)
    requires Inv(d) && BuildCompaction(d, d', p, outputs, nextFile)
    ensures Inv(d')
  {
    hide LogsSound, ReadsSound, EditsSound, LogsOrdered, HistorySound, SnapshotsSound;
    StoredAll(d.tables, outputs);
    BuiltKeeps(d, d', d'.stage.job);
  }

  // A tree with the invariant is ready for any plan the selection makes.
  lemma InvIsReady(d: Db, p: Plan)
    requires Inv(d) && Selected(d.levels, p)
    ensures Ready(d.mem + Imm(d), d.levels, p)
  {
    hide Selected, Shaped;
    FewerUnique(d.mem + Imm(d) + All(d.levels), Written(d.history));
  }

  // The step's condition is exact: with its outputs in place, a compaction reads
  // like the history from the smallest snapshot on if and only if it is harmless.
  lemma CompactionIsExact(d: Db, p: Plan, outputs: set<File>)
    requires Inv(d) && Selected(d.levels, p) && Outputs(d.levels, p, SmallestSnapshot(d), outputs)
    ensures Harmless(d.mem + Imm(d), d.levels, p, SmallestSnapshot(d)) <==>
            forall u: UserKey, s: nat :: SmallestSnapshot(d) <= s ==>
              Read(d.mem + Imm(d) + All(Replace(d.levels, p, outputs)), u, s) == Read(Written(d.history), u, s)
  {
    hide Selected, Outputs, Harmless, Replace, Inv;
    InvIsReady(d, p);
    LaterReads(d);
    CompactionPreservesReads(d.mem + Imm(d), d.levels, p, SmallestSnapshot(d), outputs);
  }

  lemma LaterReads(d: Db)
    requires Inv(d)
    ensures forall u: UserKey, s: nat :: SmallestSnapshot(d) <= s ==>
              Read(d.mem + Imm(d) + All(d.levels), u, s) == Read(Written(d.history), u, s)
  {
    hide Shaped, Written;
  }

  // What the levels hold once the job is done.
  lemma JobContents(d: Db, job: Job)
    requires ReadsSound(d) && JobSound(d, job)
    ensures All(JobLevels(d.levels, job)) <= All(d.levels) + if job.IsFlush() then Imm(d) else {}
    ensures job.IsFlush() ==> All(JobLevels(d.levels, job)) == All(d.levels) + Imm(d)
  {
    match job
    case FlushEmpty =>
    case Flush(level, f) => AllPlace(d.levels, level, f);
    case Move(p, f) => MoveFits(d.levels, p, f);
    case Compact(p, snap, outputs) => CompactionAddsNothing(d.levels, p, Listed(outputs));
  }

  // A file of the job's levels is one of a level, or new and in order.
  lemma JobFile(d: Db, job: Job, l: nat, f: File)
    requires JobSound(d, job) && l < NUM_LEVELS && f in JobLevels(d.levels, job)[l]
    ensures (exists m :: 0 <= m < NUM_LEVELS && f in d.levels[m]) || (f.number < d.nextFile && Has(d.tables, f))
  {
    match job
    case FlushEmpty => assert f in d.levels[l];
    case Flush(level, g) => if f != g { assert f in d.levels[l]; }
    case Move(p, g) => if f != g { assert f in d.levels[l]; } else { assert f in d.levels[p.level]; }
    case Compact(p, snap, outputs) => if f !in outputs { assert f in d.levels[l]; }
  }

  lemma EntriesBelow(d: Db)
    requires HistorySound(d) && ReadsSound(d)
    ensures forall e :: e in d.mem + Imm(d) + All(d.levels) ==> e.key.sequence <= d.lastSequence
  {
    WrittenBelow(d);
  }

  lemma ComposeRecordKeeps(d: Db, d': Db)
    requires Inv(d) && ComposeRecord(d, d')
    ensures Inv(d')
  {
    hide HistorySound, ReadsSound, LogsSound, LogsOrdered, SnapshotsSound, EditsSound, JobSound, RecordSound,
         TablesSound, ManifestSound;
    var job := d.stage.job;
    JobContents(d, job);
    EntriesBelow(d);
    RecordCovers(d, d');
    EditsStable(d, d');
    JobStays(d, d', job);
    ManifestStays(d, d');
    SameStores(d, d');
    SameSnapshots(d, d');
    SameTables(d, d');
  }

  lemma JobStays(d: Db, d': Db, job: Job)
    requires JobSound(d, job)
    requires d' == d.(stage := d'.stage, edits := d'.edits, manifest := d'.manifest,
                      manifestLevels := d'.manifestLevels)
    ensures JobSound(d', job)
  {
    hide File.Valid, Placeable, Selected, Closed, Outputs, NumbersAscend, Has;
  }

  lemma SameTables(d: Db, d': Db)
    requires TablesSound(d) && d' == d.(stage := d'.stage)
    ensures TablesSound(d')
  {
  }

  lemma RecordCovers(d: Db, d': Db)
    requires ComposeRecord(d, d') && JobSound(d, d.stage.job)
    requires forall e :: e in d.mem + Imm(d) + All(d.levels) ==> e.key.sequence <= d.lastSequence
    requires All(JobLevels(d.levels, d.stage.job)) <= All(d.levels) + Imm(d)
    requires TablesSound(d)
    ensures RecordSound(d', d'.stage.job, d'.stage.record)
  {
    var job := d.stage.job;
    forall l, f | 0 <= l < NUM_LEVELS && f in JobLevels(d.levels, job)[l]
      ensures f.number < d.nextFile
    {
      JobFile(d, job, l, f);
    }
  }

  lemma ManifestStays(d: Db, d': Db)
    requires ManifestSound(d) && !d.stage.Logged? && !d'.stage.Logged?
    requires d' == d.(stage := d'.stage)
    ensures ManifestSound(d')
  {
    assert UpperAfter(d', false) == UpperAfter(d, false);
    CoversStable(d, d', d.manifest, d.levels, UpperAfter(d, false), UpperAfter(d', false));
  }

  lemma LogRecordKeeps(d: Db, d': Db)
    requires Inv(d) && LogRecord(d, d')
    ensures Inv(d')
  {
    hide HistorySound, ReadsSound, LogsSound, LogsOrdered, SnapshotsSound, EditsSound, JobSound, RecordSound;
    var job := d.stage.job;
    JobStays(d, d', job);
    RecordStays(d, d');
    JobTables(d, job);
    LoggedEdits(d, d');
    SameStores(d, d');
    SameSnapshots(d, d');
  }

  lemma RecordStays(d: Db, d': Db)
    requires LogRecord(d, d') && RecordSound(d, d.stage.job, d.stage.record)
    ensures RecordSound(d', d.stage.job, d.stage.record)
  {
    var flush := d.stage.job.IsFlush();
    assert UpperAfter(d', flush) == UpperAfter(d, flush);
    CoversStable(d, d', d.stage.record, JobLevels(d.levels, d.stage.job), UpperAfter(d, flush), UpperAfter(d', flush));
  }

  lemma JobTables(d: Db, job: Job)
    requires JobSound(d, job) && TablesSound(d)
    ensures forall l, f :: 0 <= l < NUM_LEVELS && f in JobLevels(d.levels, job)[l] ==>
              Has(d.tables, f) && f.number < d.nextFile
  {
    forall l, f | 0 <= l < NUM_LEVELS && f in JobLevels(d.levels, job)[l]
      ensures Has(d.tables, f) && f.number < d.nextFile
    {
      JobFile(d, job, l, f);
    }
  }

  // The reads survive any job, with whatever memtable is on top.
  lemma JobReads(d: Db, mem: set<Entry>, h: set<Entry>, job: Job)
    requires Faithful(mem, Imm(d), d.levels, h, d.floor)
    requires JobSound(d, job)
    requires d.mem <= mem && forall e :: e in mem - d.mem ==> SmallestSnapshot(d) < e.key.sequence
    ensures Faithful(mem, if job.IsFlush() then {} else Imm(d), JobLevels(d.levels, job), h,
                     if job.Compact? && d.floor < job.snap then job.snap else d.floor)
  {
    match job
    case FlushEmpty =>
    case Flush(level, f) => FaithfulFlush(mem, d.levels, level, f, h, d.floor);
    case Move(p, f) => FaithfulMove(mem, Imm(d), d.levels, p, f, h, d.floor);
    case Compact(p, snap, outputs) =>
      HarmlessStays(d, d.mem + Imm(d), mem + Imm(d), job);
      FaithfulCompact(mem, Imm(d), d.levels, p, snap, Listed(outputs), h, d.floor,
                      if d.floor < snap then snap else d.floor);
  }

  lemma InstallVersionKeeps(d: Db, d': Db)
    requires Inv(d) && InstallVersion(d, d')
    ensures Inv(d')
  {
    hide Faithful, LogEntries, JobSound, Covers, EditsSound, LogsInOrder, Consecutive, NextSequence, JobLevels;
    JobReads(d, d.mem, Written(d.history), d.stage.job);
    InstallLogs(d, d');
    InstallManifest(d, d');
    InstallFloor(d, d');
    InstallTables(d, d');
    EditsStable(d, d');
    assert Pending(d') == Pending(d);
  }

  lemma InstallLogs(d: Db, d': Db)
    requires InstallVersion(d, d') && LogsSound(d) && RecordSound(d, d.stage.job, d.stage.record)
    ensures LogsSound(d')
  {
    assert Pending(d') == Pending(d);
    assert LogEntries(d.logs, d.logFile, d.logFile) == {};
  }

  lemma InstallManifest(d: Db, d': Db)
    requires StageSound(d) && ManifestSound(d) && InstallVersion(d, d')
    ensures ManifestSound(d')
  {
    var flush := d.stage.job.IsFlush();
    assert UpperAfter(d', false) == UpperAfter(d, flush);
    CoversStable(d, d', d.stage.record, d'.levels, UpperAfter(d, flush), UpperAfter(d', false));
  }

  lemma InstallFloor(d: Db, d': Db)
    requires StageSound(d) && SnapshotsSound(d) && d.floor <= d.lastSequence && InstallVersion(d, d')
    ensures SnapshotsSound(d') && d'.floor <= d'.lastSequence
  {
  }

  lemma InstallTables(d: Db, d': Db)
    requires StageSound(d) && ManifestSound(d) && TablesSound(d) && InstallVersion(d, d')
    ensures TablesSound(d')
  {
    JobTables(d, d.stage.job);
  }
}
