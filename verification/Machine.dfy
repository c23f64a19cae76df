// The database as a machine: writes, memtable switches, background jobs,
// snapshots, clean-up, and crashes with recovery (db/db_impl.cc,
// db/version_set.cc).
module Machine {
  import opened Keys
  import opened Store
  import opened Lsm
  import opened CompactionSafety
  import opened Compaction
  import opened Lookup
  import opened Fidelity
  import opened Options
  import Manifest

  datatype Op = Op(user: UserKey, kind: Kind, value: Bytes)

  // A write batch with the sequence number of its first operation.
  datatype Batch = Batch(first: nat, ops: seq<Op>) {
    ghost function Entries(): set<Entry> {
      set i | 0 <= i < |ops| :: Entry(IKey(ops[i].user, first + i, ops[i].kind), ops[i].value)
    }

    function Last(): int {
      first + |ops| - 1
    }

    // The sequence number behind its own.
    function End(): nat {
      first + |ops|
    }
  }

  // A background job: the edit it will log and install.
  datatype Job =
    | FlushEmpty
    | Flush(level: nat, file: File)
    | Move(plan: Plan, moved: File)
    | Compact(plan: Plan, snap: nat, outputs: seq<File>)
  {
    predicate IsFlush() {
      FlushEmpty? || Flush?
    }
  }

  // The fields LogAndApply writes besides the files.
  datatype Record = Record(logNumber: nat, nextFile: nat, lastSequence: nat)

  // A manifest record: files out and in, and numbers unless it is a snapshot.
  datatype ManifestRecord = ManifestRecord(edit: Manifest.Edit, record: Option<Record>)

  // How far the job has come: table built, record composed, record on disk.
  datatype Stage = Idle | Built(job: Job) | Composed(job: Job, record: Record) | Logged(job: Job, record: Record)

  datatype Db = Db(
    history: seq<Batch>,       // batches a writer was told are committed
    floor: nat,                // newest smallest_snapshot of any compaction
    inLog: Option<Batch>,            // appended to the log, not applied yet
    mem: set<Entry>,
    imm: Option<set<Entry>>,
    levels: Levels,                  // current version
    pinned: seq<Levels>,             // versions that readers hold
    snapshots: seq<nat>,             // oldest first
    lastSequence: nat,
    logFile: nat,                    // logfile_number_
    logNumber: nat,                  // log number of the current version
    nextFile: nat,
    stage: Stage,
    logs: map<nat, seq<Batch>>,      // log files on disk
    tables: map<nat, File>,          // table files on disk, by number
    edits: seq<ManifestRecord>,              // the records of the manifest,
    manifest: Record,                // the numbers that replaying them yields ...
    manifestLevels: Levels           // ... and the files
  )

  // What a crash leaves.
  datatype Disk = Disk(logs: map<nat, seq<Batch>>, tables: map<nat, File>, edits: seq<ManifestRecord>, manifest: Record,
                       manifestLevels: Levels)

  function DiskOf(d: Db): Disk {
    Disk(d.logs, d.tables, d.edits, d.manifest, d.manifestLevels)
  }

  ghost function Written(batches: seq<Batch>): set<Entry> {
    set i, e | 0 <= i < |batches| && e in batches[i].Entries() :: e
  }

  // Entries in the log files numbered lo or higher, and below hi.
  ghost function LogEntries(logs: map<nat, seq<Batch>>, lo: nat, hi: nat): set<Entry> {
    set n, i, e | n in logs && lo <= n < hi && 0 <= i < |logs[n]| && e in logs[n][i].Entries() :: e
  }

  ghost function LogEntriesFrom(logs: map<nat, seq<Batch>>, lo: nat): set<Entry> {
    set n, i, e | n in logs && lo <= n && 0 <= i < |logs[n]| && e in logs[n][i].Entries() :: e
  }

  predicate Fitting(job: Job) {
    && (job.Flush? ==> job.level < NUM_LEVELS)
    && (job.Move? || job.Compact? ==> job.plan.level + 1 < NUM_LEVELS)
  }

  ghost function JobLevels(levels: Levels, job: Job): Levels
    requires Fitting(job)
  {
    match job
    case FlushEmpty => levels
    case Flush(level, f) => Place(levels, level, f)
    case Move(p, f) => Replace(levels, p, {f})
    case Compact(p, _, outputs) => Replace(levels, p, Listed(outputs))
  }

  // The tables the job has written.
  function NewFiles(job: Job): seq<File> {
    match job
    case Flush(_, f) => [f]
    case Compact(_, _, outputs) => outputs
    case _ => []
  }

  function AtLevel(l: nat, files: seq<File>): seq<(nat, File)> {
    seq(|files|, i requires 0 <= i < |files| => (l, files[i]))
  }

  // The edit it logs.
  function JobEdit(job: Job): Manifest.Edit {
    match job
    case FlushEmpty => Manifest.Edit({}, [])
    case Flush(level, f) => Manifest.Edit({}, [(level, f)])
    case Move(p, f) => Manifest.Edit({(p.level, f.number)}, [(p.level + 1, f)])
    case Compact(p, _, outputs) =>
      Manifest.Edit((set f | f in p.in0 :: (p.level, f.number)) + (set f | f in p.in1 :: (p.level + 1, f.number)),
        AtLevel(p.level + 1, outputs))
  }

  // ---- Table files ----

  predicate Has(tables: map<nat, File>, f: File) {
    f.number in tables && tables[f.number] == f
  }

  // Writing a file replaces what had its number.
  function StoreAll(tables: map<nat, File>, files: seq<File>): map<nat, File> {
    if files == [] then tables
    else StoreAll(tables, files[..|files| - 1])[files[|files| - 1].number := files[|files| - 1]]
  }

  ghost predicate NumbersAscend(files: seq<File>) {
    forall i, j :: 0 <= i < j < |files| ==> files[i].number < files[j].number
  }

  // ---- The manifest ----

  ghost function EditsOf(logged: seq<ManifestRecord>): seq<Manifest.Edit> {
    seq(|logged|, i requires 0 <= i < |logged| => logged[i].edit)
  }

  function LastRecord(logged: seq<ManifestRecord>): Option<Record> {
    if logged == [] then None
    else if logged[|logged| - 1].record.Some? then logged[|logged| - 1].record
    else LastRecord(logged[..|logged| - 1])
  }

  // Every file the manifest has named at a level.
  ghost function NamedAt(logged: seq<ManifestRecord>, l: nat): set<File> {
    Manifest.Named({}, EditsOf(logged), l)
  }

  ghost predicate Replays(logged: seq<ManifestRecord>, levels: Levels) {
    forall l :: 0 <= l < NUM_LEVELS ==> levels[l] == Manifest.AfterAll({}, EditsOf(logged), l)
  }

  // A number stands for one file, which enters a level at most once and only
  // moves down.
  ghost predicate WellNumbered(logged: seq<ManifestRecord>, levels: Levels) {
    && (forall l :: 0 <= l < NUM_LEVELS ==> Manifest.AddedOnce({}, EditsOf(logged), l))
    && (forall l, m, f, g :: 0 <= l < NUM_LEVELS && 0 <= m < NUM_LEVELS &&
                             f in NamedAt(logged, l) && g in NamedAt(logged, m) ==>
          f.number == g.number ==> f == g)
    && (forall l, m, f :: 0 <= l < m < NUM_LEVELS && f in levels[l] ==>
        f.number !in Manifest.Numbers(NamedAt(logged, m)))
  }

  ghost predicate Unnamed(logged: seq<ManifestRecord>, number: nat) {
    forall l :: 0 <= l < NUM_LEVELS ==> number !in Manifest.Numbers(NamedAt(logged, l))
  }

  function SmallestSnapshot(d: Db): nat {
    if d.snapshots == [] then d.lastSequence else d.snapshots[0]
  }

  function Imm(d: Db): set<Entry> {
    if d.imm.Some? then d.imm.value else {}
  }

  function Pending(d: Db): seq<Batch> {
    if d.inLog.Some? then [d.inLog.value] else []
  }

  // ---- Sequence numbers ----

  // Batches take consecutive sequence numbers from 1 on.
  ghost predicate Consecutive(batches: seq<Batch>) {
    && (batches != [] ==> batches[0].first == 1)
    && forall i :: 0 < i < |batches| ==> batches[i].first == batches[i - 1].first + |batches[i - 1].ops|
  }

  function NextSequence(batches: seq<Batch>): nat {
    if batches == [] then 1 else batches[|batches| - 1].first + |batches[|batches| - 1].ops|
  }

  lemma EntryOfBatch(b: Batch, e: Entry)
    requires e in b.Entries()
    ensures b.first <= e.key.sequence < b.first + |b.ops|
    ensures e == Entry(IKey(b.ops[e.key.sequence - b.first].user, e.key.sequence, b.ops[e.key.sequence - b.first].kind),
                       b.ops[e.key.sequence - b.first].value)
  {
  }

  lemma {:induction false} BatchesAscend(batches: seq<Batch>, i: nat, j: nat)
    requires Consecutive(batches) && i < j < |batches|
    ensures batches[i].first + |batches[i].ops| <= batches[j].first
  {
    if i + 1 < j {
      BatchesAscend(batches, i, j - 1);
    }
  }

  lemma ConsecutiveUnique(batches: seq<Batch>)
    requires Consecutive(batches)
    ensures UniqueSequences(Written(batches))
    ensures forall e :: e in Written(batches) ==> e.key.sequence < NextSequence(batches)
  {
    forall e | e in Written(batches)
      ensures e.key.sequence < NextSequence(batches)
    {
      var i :| 0 <= i < |batches| && e in batches[i].Entries();
      EntryOfBatch(batches[i], e);
      if i < |batches| - 1 { BatchesAscend(batches, i, |batches| - 1); }
    }
    forall e, f | e in Written(batches) && f in Written(batches) && e.key.sequence == f.key.sequence
      ensures e == f
    {
      var i :| 0 <= i < |batches| && e in batches[i].Entries();
      var j :| 0 <= j < |batches| && f in batches[j].Entries();
      EntryOfBatch(batches[i], e);
      EntryOfBatch(batches[j], f);
      if i < j { BatchesAscend(batches, i, j); }
      if j < i { BatchesAscend(batches, j, i); }
    }
  }

  lemma WrittenAppend(batches: seq<Batch>, b: Batch)
    ensures Written(batches + [b]) == Written(batches) + b.Entries()
    ensures Consecutive(batches + [b]) ==> Consecutive(batches) && b.first == NextSequence(batches)
  {
    var all := batches + [b];
    assert all[|batches|] == b;
    assert forall i :: 0 <= i < |batches| ==> all[i] == batches[i];
  }

  // ---- The invariant ----

  ghost predicate HistorySound(d: Db) {
    && Consecutive(d.history + Pending(d))
    && NextSequence(d.history) == d.lastSequence + 1
  }

  ghost predicate ReadsSound(d: Db) {
    && Faithful(d.mem, Imm(d), d.levels, Written(d.history), d.floor)
    && d.floor <= d.lastSequence
  }

  ghost predicate SnapshotsSound(d: Db) {
    && (forall i :: 0 <= i < |d.snapshots| ==> d.floor <= d.snapshots[i] <= d.lastSequence)
    && (forall i, j :: 0 <= i < j < |d.snapshots| ==> d.snapshots[i] <= d.snapshots[j])
  }

  // The current log holds what is in the memtable or about to be; the logs
  // before it, from the version's log number on, what is in the immutable one.
  ghost predicate LogsSound(d: Db) {
    && d.logFile in d.logs
    && d.logNumber <= d.logFile < d.nextFile
    && (forall n :: n in d.logs ==> n <= d.logFile)
    && LogEntries(d.logs, d.logFile, d.logFile + 1) == d.mem + Written(Pending(d))
    && LogEntries(d.logs, d.logNumber, d.logFile) == Imm(d)
  }

  ghost predicate JobSound(d: Db, job: Job) {
    && Fitting(job)
    && match job
       case FlushEmpty => d.imm == Some({})
       case Flush(level, f) =>
         && d.imm == Some(f.contents)
         && f.Valid()
         && Placeable(d.levels, level, f)
         && (forall g :: g in d.levels[0] ==> g.number < f.number)
         && f.number < d.nextFile
         && Has(d.tables, f)
       case Move(p, f) => Selected(d.levels, p) && p.in0 == {f} && p.in1 == {}
       case Compact(p, snap, outputs) =>
         && Selected(d.levels, p)
         && Harmless(d.mem + Imm(d), d.levels, p, snap)
         && Outputs(d.levels, p, snap, Listed(outputs))
         && snap <= SmallestSnapshot(d)
         && NumbersAscend(outputs)
         && forall i :: 0 <= i < |outputs| ==> outputs[i].number < d.nextFile && Has(d.tables, outputs[i])
  }

  // What the memtables still hold once the job is installed.
  function UpperAfter(d: Db, flushed: bool): set<Entry> {
    if flushed then d.mem else d.mem + Imm(d)
  }

  // A manifest record is good enough to recover from: its sequence and file
  // numbers cover its files, and newer sequence numbers are in the logs.
  ghost predicate Covers(d: Db, record: Record, levels: Levels, upper: set<Entry>) {
    && record.lastSequence <= d.lastSequence
    && (forall e :: e in All(levels) ==> e.key.sequence <= record.lastSequence)
    && (record.lastSequence < d.lastSequence ==> exists e :: e in upper && e.key.sequence == d.lastSequence)
    && (forall l, f :: 0 <= l < NUM_LEVELS && f in levels[l] ==> f.number < record.nextFile)
  }

  ghost predicate RecordSound(d: Db, job: Job, record: Record)
    requires Fitting(job)
  {
    && record.logNumber == (if job.IsFlush() then d.logFile else d.logNumber)
    && Covers(d, record, JobLevels(d.levels, job), UpperAfter(d, job.IsFlush()))
  }

  ghost predicate StageSound(d: Db) {
    && (d.stage.Idle? || JobSound(d, d.stage.job))
    && (d.stage.Composed? || d.stage.Logged? ==> RecordSound(d, d.stage.job, d.stage.record))
  }

  ghost predicate ManifestSound(d: Db) {
    if d.stage.Logged? then
      Fitting(d.stage.job) && d.manifestLevels == JobLevels(d.levels, d.stage.job) && d.manifest == d.stage.record
    else
      && d.manifestLevels == d.levels
      && d.manifest.logNumber == d.logNumber
      && Covers(d, d.manifest, d.levels, UpperAfter(d, false))
  }

  ghost predicate TablesSound(d: Db) {
    && (forall l, f :: 0 <= l < NUM_LEVELS && f in d.levels[l] ==> Has(d.tables, f) && f.number < d.nextFile)
    && (forall i, l, f :: 0 <= i < |d.pinned| && 0 <= l < NUM_LEVELS && f in d.pinned[i][l] ==>
          Has(d.tables, f) && f.number < d.nextFile)
    && (forall l, f :: 0 <= l < NUM_LEVELS && f in d.manifestLevels[l] ==> Has(d.tables, f))
  }

  // The manifest's records yield its files, and no number is used twice.
  ghost predicate EditsSound(d: Db) {
    && LastRecord(d.edits) == Some(d.manifest)
    && Replays(d.edits, d.manifestLevels)
    && WellNumbered(d.edits, d.manifestLevels)
    && (forall l, f :: 0 <= l < NUM_LEVELS && f in NamedAt(d.edits, l) ==> f.number < d.nextFile)
    && (d.stage.Built? || d.stage.Composed? ==>
          forall i :: 0 <= i < |NewFiles(d.stage.job)| ==> Unnamed(d.edits, NewFiles(d.stage.job)[i].number))
  }

  // Inside a log, and from a log to a later one, sequence numbers go up.
  ghost predicate LogsInOrder(logs: map<nat, seq<Batch>>, end: nat) {
    && (forall n, i :: n in logs && 0 <= i < |logs[n]| ==> 1 <= logs[n][i].first && logs[n][i].End() <= end)
    && (forall n, i, m, j :: n in logs && 0 <= i < |logs[n]| && m in logs && 0 <= j < |logs[m]| &&
                             (n < m || (n == m && i < j)) ==>
          logs[n][i].End() <= logs[m][j].first)
  }

  ghost predicate LogsOrdered(d: Db) {
    && LogsInOrder(d.logs, NextSequence(d.history + Pending(d)))
    && (d.inLog.Some? ==>
          d.logFile in d.logs && d.logs[d.logFile] != [] && d.logs[d.logFile][|d.logs[d.logFile]| - 1] == d.inLog.value)
  }

  ghost predicate Inv(d: Db) {
    && HistorySound(d)
    && ReadsSound(d)
    && SnapshotsSound(d)
    && LogsSound(d)
    && StageSound(d)
    && ManifestSound(d)
    && TablesSound(d)
    && EditsSound(d)
    && LogsOrdered(d)
  }

  // ---- The steps ----

  // A fresh database after NewDB and Open.
  function NewDb(): Db {
    Db([], 0, None, {}, None, seq(NUM_LEVELS, _ => {}), [], [], 0, 3, 3, 4, Idle,
            map[3 := []], map[],
            [ManifestRecord(Manifest.Edit({}, []), None), ManifestRecord(Manifest.Edit({}, []), Some(Record(3, 4, 0)))],
            Record(3, 4, 0), seq(NUM_LEVELS, _ => {}))
  }

  ghost predicate Init(d: Db) {
    d == NewDb()
  }

  // The leader's record reaches the log ...
  ghost predicate AppendLog(d: Db, d': Db, b: Batch) {
    && d.inLog.None?
    && b.first == d.lastSequence + 1
    && d.logFile in d.logs
    && d' == d.(inLog := Some(b), logs := d.logs[d.logFile := d.logs[d.logFile] + [b]])
  }

  // ... and then the memtable, and the writers are told.
  ghost predicate ApplyBatch(d: Db, d': Db) {
    && d.inLog.Some?
    && var b := d.inLog.value;
       d' == d.(inLog := None, mem := d.mem + b.Entries(), history := d.history + [b],
                lastSequence := d.lastSequence + |b.ops|)
  }

  // MakeRoomForWrite starts a new log and memtable; an immutable memtable
  // still waiting blocks it.
  ghost predicate SwitchMemtable(d: Db, d': Db) {
    && d.inLog.None? && d.imm.None?
    && d' == d.(imm := Some(d.mem), mem := {}, logFile := d.nextFile, nextFile := d.nextFile + 1,
                logs := d.logs[d.nextFile := []])
  }

  // WriteLevel0Table for the immutable memtable.
  ghost predicate BuildFlush(d: Db, d': Db, level: nat, f: File) {
    && d.stage.Idle? && d.imm.Some?
    && if d.imm.value == {} then d' == d.(stage := Built(FlushEmpty), nextFile := d.nextFile + 1)
       else
         && f.number == d.nextFile && f.Valid() && f.contents == d.imm.value
         && Placeable(d.levels, level, f)
         && d' == d.(stage := Built(Flush(level, f)), nextFile := d.nextFile + 1, tables := d.tables[f.number := f])
  }

  ghost predicate BuildMove(d: Db, d': Db, p: Plan, f: File) {
    && d.stage.Idle?
    && Selected(d.levels, p) && p.in0 == {f} && p.in1 == {}
    && d' == d.(stage := Built(Move(p, f)))
  }

  // The compaction is harmless; the tables are written at once.
  ghost predicate BuildCompaction(d: Db, d': Db, p: Plan, outputs: seq<File>, nextFile: nat) {
    && d.stage.Idle?
    && Selected(d.levels, p) && Harmless(d.mem + Imm(d), d.levels, p, SmallestSnapshot(d))
    && Outputs(d.levels, p, SmallestSnapshot(d), Listed(outputs))
    && nextFile >= d.nextFile
    && NumbersAscend(outputs) && (forall i :: 0 <= i < |outputs| ==> d.nextFile <= outputs[i].number < nextFile)
    && d' == d.(stage := Built(Compact(p, SmallestSnapshot(d), outputs)), nextFile := nextFile,
                tables := StoreAll(d.tables, outputs))
  }

  // LogAndApply: first the record is composed under the lock,
  ghost predicate ComposeRecord(d: Db, d': Db) {
    && d.stage.Built?
    && d' == d.(stage := Composed(d.stage.job, Record(if d.stage.job.IsFlush() then d.logFile else d.logNumber,
                                                      d.nextFile, d.lastSequence)))
  }

  // then it is written without the lock,
  ghost predicate LogRecord(d: Db, d': Db) {
    && d.stage.Composed? && Fitting(d.stage.job)
    && d' == d.(stage := Logged(d.stage.job, d.stage.record),
                edits := d.edits + [ManifestRecord(JobEdit(d.stage.job), Some(d.stage.record))],
                manifest := d.stage.record, manifestLevels := JobLevels(d.levels, d.stage.job))
  }

  function RaisedFloor(d: Db): nat {
    if !d.stage.Idle? && d.stage.job.Compact? && d.floor < d.stage.job.snap then d.stage.job.snap else d.floor
  }

  // and then the version is installed.
  ghost predicate InstallVersion(d: Db, d': Db) {
    && d.stage.Logged? && Fitting(d.stage.job)
    && d' == d.(stage := Idle, levels := JobLevels(d.levels, d.stage.job), logNumber := d.stage.record.logNumber,
                imm := if d.stage.job.IsFlush() then None else d.imm,
                floor := RaisedFloor(d))
  }

  // RemoveObsoleteFiles, between jobs.
  ghost predicate RemoveObsolete(d: Db, d': Db) {
    && d.stage.Idle?
    && d' == d.(logs := map n | n in d.logs && n >= d.logNumber :: d.logs[n],
                tables := map n | n in d.tables &&
                  (Lists(d.levels, n) || exists i :: 0 <= i < |d.pinned| && Lists(d.pinned[i], n))
                            :: d.tables[n])
  }

  ghost predicate Lists(levels: Levels, number: nat) {
    exists l, f :: 0 <= l < NUM_LEVELS && f in levels[l] && f.number == number
  }

  // A reader refers to the current version, and lets it go.
  ghost predicate Pin(d: Db, d': Db) {
    d' == d.(pinned := d.pinned + [d.levels])
  }

  ghost predicate Unpin(d: Db, d': Db, i: nat) {
    i < |d.pinned| && d' == d.(pinned := d.pinned[..i] + d.pinned[i + 1..])
  }

  ghost predicate TakeSnapshot(d: Db, d': Db) {
    d' == d.(snapshots := d.snapshots + [d.lastSequence])
  }

  ghost predicate ReleaseSnapshot(d: Db, d': Db, i: nat) {
    i < |d.snapshots| && d' == d.(snapshots := d.snapshots[..i] + d.snapshots[i + 1..])
  }

  // ---- Crash and recovery ----

  ghost function PlaceAll(levels: Levels, files: seq<File>): Levels
    decreases |files|
  {
    if files == [] then levels else PlaceAll(Place(levels, 0, files[0]), files[1..])
  }

  // Recovery replays the logs in order and writes a level-0 table whenever its
  // memtable is full, and once more at the end of a log.
  ghost predicate SplitInOrder(files: seq<File>, tail: set<Entry>, firstNumber: nat) {
    && (forall i :: 0 <= i < |files| ==> files[i].Valid() && firstNumber <= files[i].number)
    && (forall i, j :: 0 <= i < j < |files| ==>
          files[i].number < files[j].number && OlderThan(files[i].contents, files[j].contents))
    && Contents(Listed(files)) == tail
  }

  ghost predicate OlderThan(a: set<Entry>, b: set<Entry>) {
    forall e, f :: e in a && f in b ==> e.key.sequence < f.key.sequence
  }

  // max(manifest's last sequence, last sequence of any batch replayed)
  ghost predicate MaxSequence(r: nat, manifest: nat, logs: map<nat, seq<Batch>>, lo: nat) {
    && manifest <= r
    && (forall n, i :: n in logs && lo <= n && 0 <= i < |logs[n]| ==> logs[n][i].Last() <= r)
    && (r == manifest || exists n, i :: n in logs && lo <= n && 0 <= i < |logs[n]| && r == logs[n][i].Last())
  }

  // The last record of the log is cut off.
  function Torn(d: Db): Db {
    if d.inLog.None? || d.logFile !in d.logs || d.logs[d.logFile] == [] then d
    else d.(inLog := None, logs := d.logs[d.logFile := d.logs[d.logFile][..|d.logs[d.logFile]| - 1]])
  }

  // What a recovery that is killed itself may leave: tables, and its new log.
  datatype Abort = Abort(files: seq<File>, log: Option<nat>)

  ghost predicate Leaves(k: Disk, a: Abort) {
    && (forall i :: 0 <= i < |a.files| ==> k.manifest.nextFile <= a.files[i].number)
    && (a.log.Some? ==> forall n :: n in k.logs ==> n < a.log.value)
  }

  function Aborted(k: Disk, a: Abort): Disk {
    k.(tables := StoreAll(k.tables, a.files), logs := if a.log.Some? then k.logs[a.log.value := []] else k.logs)
  }

  function AfterAborts(k: Disk, aborts: seq<Abort>): Disk {
    if aborts == [] then k else Aborted(AfterAborts(k, aborts[..|aborts| - 1]), aborts[|aborts| - 1])
  }

  ghost predicate LeaveAll(k: Disk, aborts: seq<Abort>) {
    forall i :: 0 <= i < |aborts| ==> Leaves(AfterAborts(k, aborts[..i]), aborts[i])
  }

  // All files of a version.
  ghost predicate Snapshot(files: seq<(nat, File)>, levels: Levels) {
    forall l :: 0 <= l < NUM_LEVELS ==> Manifest.Edit({}, files).AddedAt(l) == levels[l]
  }

  // The database once it is open.
  ghost function RecoveredDb(k: Disk, history: seq<Batch>, floor: nat, files: seq<File>, lastSequence: nat, newLog: nat,
                             snapshot: seq<(nat, File)>): Db {
    var levels, record := PlaceAll(k.manifestLevels, files), Record(newLog, newLog + 1, lastSequence);
    Db(history, floor, None, {}, None, levels, [], [], lastSequence, newLog, newLog, newLog + 1, Idle,
       k.logs[newLog := []],
      StoreAll(k.tables, files),
      [ManifestRecord(Manifest.Edit({}, snapshot), None),
       ManifestRecord(Manifest.Edit({}, AtLevel(0, files)), Some(record))],
      record, levels)
  }

  // DB::Open reads back the manifest and the logs it does not cover, flushes
  // what it finds and starts a new manifest and log.
  ghost predicate Recovers(k: Disk, history: seq<Batch>, floor: nat, d': Db, files: seq<File>, lastSequence: nat,
                           newLog: nat, snapshot: seq<(nat, File)>) {
    && SplitInOrder(files, LogEntriesFrom(k.logs, k.manifest.logNumber), k.manifest.nextFile)
    && MaxSequence(lastSequence, k.manifest.lastSequence, k.logs, k.manifest.logNumber)
    && (forall n :: n in k.logs ==> n < newLog)
    && (forall f :: f in files ==> f.number < newLog)
    && k.manifest.nextFile <= newLog
    && Snapshot(snapshot, k.manifestLevels)
    && d' == RecoveredDb(k, history, floor, files, lastSequence, newLog, snapshot)
  }

  function RecoveredFloor(d: Db): nat {
    if d.stage.Logged? then RaisedFloor(d) else d.floor
  }

  // A crash, any number of recoveries that are killed, and one that is not.  The
  // record on its way to the log may be there or not.
  ghost predicate CrashAndRecover(d: Db, d': Db, torn: bool, aborts: seq<Abort>, files: seq<File>, lastSequence: nat,
                                  newLog: nat, snapshot: seq<(nat, File)>) {
    var left := if torn then Torn(d) else d;
    && LeaveAll(DiskOf(left), aborts)
    && Recovers(AfterAborts(DiskOf(left), aborts), left.history + Pending(left), RecoveredFloor(left), d',
                files, lastSequence, newLog, snapshot)
  }

  // One step of the machine.
  datatype Action =
    | DoAppend(b: Batch)
    | DoApply
    | DoSwitch
    | DoBuildFlush(level: nat, file: File)
    | DoBuildMove(plan: Plan, moved: File)
    | DoBuildCompaction(plan: Plan, outputs: seq<File>, nextFile: nat)
    | DoCompose
    | DoLog
    | DoInstall
    | DoRemoveObsolete
    | DoPin
    | DoUnpin(i: nat)
    | DoTakeSnapshot
    | DoReleaseSnapshot(i: nat)
    | DoCrash(torn: bool, aborts: seq<Abort>, files: seq<File>, lastSequence: nat, newLog: nat,
              snapshot: seq<(nat, File)>)

  ghost predicate Step(d: Db, d': Db, a: Action) {
    match a
    case DoAppend(b) => AppendLog(d, d', b)
    case DoApply => ApplyBatch(d, d')
    case DoSwitch => SwitchMemtable(d, d')
    case DoBuildFlush(level, f) => BuildFlush(d, d', level, f)
    case DoBuildMove(p, f) => BuildMove(d, d', p, f)
    case DoBuildCompaction(p, outputs, n) => BuildCompaction(d, d', p, outputs, n)
    case DoCompose => ComposeRecord(d, d')
    case DoLog => LogRecord(d, d')
    case DoInstall => InstallVersion(d, d')
    case DoRemoveObsolete => RemoveObsolete(d, d')
    case DoPin => Pin(d, d')
    case DoUnpin(i) => Unpin(d, d', i)
    case DoTakeSnapshot => TakeSnapshot(d, d')
    case DoReleaseSnapshot(i) => ReleaseSnapshot(d, d', i)
    case DoCrash(torn, aborts, files, last, newLog, snapshot) =>
      CrashAndRecover(d, d', torn, aborts, files, last, newLog, snapshot)
  }

  ghost predicate Run(states: seq<Db>, actions: seq<Action>) {
    && |states| == |actions| + 1
    && Init(states[0])
    && forall i :: 0 <= i < |actions| ==> Step(states[i], states[i + 1], actions[i])
  }
}
