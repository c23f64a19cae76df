// Opening a database from the bytes that a crash has left of its manifest and its
// logs (db/db_impl.cc, db/version_set.cc).
module Reopening {
  import opened Keys
  import opened Store
  import opened Lsm
  import opened CompactionSafety
  import opened Compaction
  import opened Fidelity
  import opened Machine
  import opened ManifestSafety
  import opened MachineSafety
  import opened CrashSafety
  import opened Options
  import opened DiskLogs
  import Logs
  import Manifest
  import Runs
  import VersionEdits

  // The bytes of the files, each cut off at most inside its last record.
  ghost predicate BytesOf(k: Disk, crc: Logs.Checksum, name: seq<Byte>, tables: nat -> set<Entry>, manifest: seq<Byte>,
                          logs: map<nat, seq<Byte>>) {
    && HoldsRecords(crc, manifest, name, tables, k.edits)
    && logs.Keys == k.logs.Keys
    && forall n :: n in k.logs ==> HoldsLog(crc, logs[n], k.logs[n])
  }

  // The logs to replay, in the order in which they were generated.
  method LogsFrom(all: set<nat>, lo: nat) returns (numbers: seq<nat>)
    ensures NumbersUp(numbers) && forall n :: n in numbers <==> n in all && lo <= n
  {
    numbers := [];
    var rest := all;
    while rest != {}
      invariant rest <= all && NumbersUp(numbers)
      invariant forall n :: n in numbers <==> n in all - rest && lo <= n
      decreases rest
    {
      var n :| n in rest;
      if lo <= n {
        numbers := InsertNumber(numbers, n);
      }
      rest := rest - {n};
    }
  }

  method InsertNumber(numbers: seq<nat>, n: nat) returns (r: seq<nat>)
    requires NumbersUp(numbers) && n !in numbers
    ensures NumbersUp(r) && forall m :: m in r <==> m in numbers || m == n
  {
    var i := 0;
    while i < |numbers| && numbers[i] < n
      invariant 0 <= i <= |numbers|
      invariant forall j :: 0 <= j < i ==> numbers[j] < n
    {
      i := i + 1;
    }
    assert numbers == numbers[..i] + numbers[i..];
    r := numbers[..i] + [n] + numbers[i..];
  }

  // VersionSet::WriteSnapshot: all files, level by level.
  method WriteSnapshot(v: seq<seq<File>>) returns (added: seq<(nat, File)>)
    requires |v| == NUM_LEVELS
    ensures forall l :: 0 <= l < NUM_LEVELS ==> Manifest.Edit({}, added).AddedAt(l) == Listed(v[l])
  {
    added := [];
    for l := 0 to NUM_LEVELS
      invariant forall m :: 0 <= m < NUM_LEVELS ==>
                Manifest.Edit({}, added).AddedAt(m) == if m < l then Listed(v[m]) else {}
    {
      forall m | 0 <= m < NUM_LEVELS
        ensures Manifest.Edit({}, added + AtLevel(l, v[l])).AddedAt(m) ==
                  Manifest.Edit({}, added).AddedAt(m) + if m == l then Listed(v[l]) else {}
      {
        AddedTogether(added, AtLevel(l, v[l]), m);
        AllAtLevel(l, v[l], m);
      }
      added := added + AtLevel(l, v[l]);
    }
  }

  lemma AddedTogether(a: seq<(nat, File)>, b: seq<(nat, File)>, l: nat)
    ensures Manifest.Edit({}, a + b).AddedAt(l) == Manifest.Edit({}, a).AddedAt(l) + Manifest.Edit({}, b).AddedAt(l)
  {
    var all := a + b;
    assert forall i :: 0 <= i < |a| ==> all[i] == a[i];
    assert forall i :: 0 <= i < |b| ==> all[|a| + i] == b[i];
  }

  // LogAndApply of the recovered tables, for one level.
  method AddTables(base: seq<File>, files: seq<File>, l: nat) returns (v: seq<File>)
    requires Manifest.InOrder(base) && NumbersAscend(files)
    requires Manifest.NumbersIdentify(Listed(base))
    requires forall f, g :: f in Listed(base) && g in files ==> f.number < g.number
    ensures Manifest.InOrder(v) && Listed(v) == Listed(base) + if l == 0 then Listed(files) else {}
  {
    var edit := Manifest.Edit({}, AtLevel(0, files));
    AllAtLevel(0, files, l);
    NothingDeleted(Listed(base), edit, l);
    var builder := new Manifest.LevelState(l, base);
    builder.Apply(edit);
    v := builder.SaveTo();
  }

  // AddLiveFiles: the numbers of all files of the version.
  method LiveNumbers(v: seq<seq<File>>) returns (live: set<nat>)
    ensures live == set l, i | 0 <= l < |v| && 0 <= i < |v[l]| :: v[l][i].number
  {
    live := {};
    for l := 0 to |v|
      invariant live == set m, i | 0 <= m < l && 0 <= i < |v[m]| :: v[m][i].number
    {
      for j := 0 to |v[l]|
        invariant live == (set m, i | 0 <= m < l && 0 <= i < |v[m]| :: v[m][i].number) +
                  set i | 0 <= i < j :: v[l][i].number
      {
        live := live + {v[l][j].number};
      }
    }
  }

  datatype Status = Ok | Corruption(missing: set<nat>)

  // Listed in the manifest, but no file on disk has the number.
  ghost function Missing(k: Disk, present: set<nat>): set<nat> {
    set l, f | 0 <= l < NUM_LEVELS && f in k.manifestLevels[l] && f.number !in present :: f.number
  }

  lemma MissingAre(k: Disk, v: seq<seq<File>>, live: set<nat>, present: set<nat>)
    requires |v| == NUM_LEVELS && forall l :: 0 <= l < NUM_LEVELS ==> Listed(v[l]) == k.manifestLevels[l]
    requires live == set l, i | 0 <= l < |v| && 0 <= i < |v[l]| :: v[l][i].number
    ensures live - present == Missing(k, present)
  {
    forall n | n in live - present ensures n in Missing(k, present) {
      var l, i :| 0 <= l < |v| && 0 <= i < |v[l]| && v[l][i].number == n;
      assert v[l][i] in Listed(v[l]);
    }
    forall n | n in Missing(k, present) ensures n in live {
      var l, f :| 0 <= l < NUM_LEVELS && f in k.manifestLevels[l] && f.number == n;
      assert f in Listed(v[l]);
      var i :| 0 <= i < |v[l]| && v[l][i] == f;
    }
  }

  // What recovery goes by, whether the tables are there or not.
  ghost predicate DiskReadable(k: Disk, history: seq<Batch>) {
    && LogsInOrder(k.logs, NextSequence(history)) && RecordsSound(k)
    && forall l, f :: 0 <= l < NUM_LEVELS && f in k.manifestLevels[l] ==> f.number < k.manifest.nextFile
  }

  // After a crash no table is missing.
  lemma SoundIsReadable(k: Disk, history: seq<Batch>, floor: nat)
    requires DiskSound(k, history, floor)
    ensures DiskReadable(k, history) && Missing(k, k.tables.Keys) == {}
  {
    hide Faithful, LogsInOrder, NextSequence, Reaches, LastRecord, RecordsSound;
  }

  // What the disk tells about numbers.
  lemma DiskNames(k: Disk, history: seq<Batch>)
    requires DiskReadable(k, history)
    ensures LastRecord(k.edits) == Some(k.manifest) && LogsInOrder(k.logs, NextSequence(history))
    ensures forall l :: 0 <= l < NUM_LEVELS ==>
              && Manifest.AddedOnce({}, EditsOf(k.edits), l) && Manifest.NumbersIdentify(NamedAt(k.edits, l))
              && k.manifestLevels[l] == Manifest.AfterAll({}, EditsOf(k.edits), l)
              && Manifest.NumbersIdentify(k.manifestLevels[l])
              && forall f :: f in k.manifestLevels[l] ==> f.number < k.manifest.nextFile
  {
    hide Faithful, LogsInOrder, NextSequence, Reaches, LastRecord, NamedAt;
    forall l | 0 <= l < NUM_LEVELS
      ensures Manifest.NumbersIdentify(NamedAt(k.edits, l)) && Manifest.NumbersIdentify(k.manifestLevels[l])
    {
      NamedHolds(k.edits, k.manifestLevels, l);
    }
  }

  lemma FromLower(files: seq<File>, tail: set<Entry>, first: nat, lower: nat)
    requires SplitInOrder(files, tail, first) && lower <= first
    ensures SplitInOrder(files, tail, lower) && NumbersAscend(files)
    ensures forall f :: f in files ==> first <= f.number
  {
    hide OlderThan, Contents, Listed;
  }

  // The open database has these files, in order, and goes on from this number.
  ghost predicate Shows(d: Db, v: seq<seq<File>>, lastSequence: nat) {
    && lastSequence == d.lastSequence && |v| == NUM_LEVELS
    && forall l :: 0 <= l < NUM_LEVELS ==> Manifest.InOrder(v[l]) && Listed(v[l]) == d.levels[l]
  }

  // DBImpl::Recover and DB::Open.  They fail when the number of a table is on no
  // file; else what they find is a recovery of the disk, so every theorem about
  // crashes is about this code.
  method Open(crc: Logs.Checksum, name: seq<Byte>, tables: nat -> set<Entry>, manifest: seq<Byte>,
              logs: map<nat, seq<Byte>>, present: set<nat>, ghost k: Disk, ghost history: seq<Batch>, ghost floor: nat)
      returns (status: Status, v: seq<seq<File>>, files: seq<File>, lastSequence: nat, newLog: nat,
               snapshot: seq<(nat, File)>)
    requires DiskReadable(k, history) && BytesOf(k, crc, name, tables, manifest, logs)
    ensures status == if Missing(k, present + logs.Keys) == {} then Ok else Corruption(Missing(k, present + logs.Keys))
    ensures status.Ok? ==>
              var d := RecoveredDb(k, history, floor, files, lastSequence, newLog, snapshot);
              Recovers(k, history, floor, d, files, lastSequence, newLog, snapshot) && Shows(d, v, lastSequence)
  {
    hide HoldsLog, HoldsRecords, DiskReadable, Missing, Manifest.AddedOnce, Manifest.AfterAll, NextSequence,
         LogsInOrder, LogEntriesFrom, LastRecord, NamedAt, EditsOf, SplitInOrder, MaxSequence, PlaceAll, StoreAll,
         Listed, Manifest.Edit.AddedAt, AtLevel;
    DiskNames(k, history);
    var r, base := RecoverVersion(crc, manifest, name, tables, k.edits);
    var live := LiveNumbers(base);
    MissingAre(k, base, live, present + logs.Keys);
    var missing := live - (present + logs.Keys);
    if missing != {} {
      return Corruption(missing), [], [], 0, 0, [];
    }
    status := Ok;
    var next := r.nextFile;
    if next <= r.log {
      next := r.log + 1;
    }
    var numbers := LogsFrom(logs.Keys, r.log);
    ghost var first := next;
    files, next, lastSequence := RecoverLogs(crc, logs, numbers, next, r.lastSequence, k.logs, r.log,
                                             NextSequence(history));
    newLog := next;
    FromLower(files, LogEntriesFrom(k.logs, r.log), first, k.manifest.nextFile);
    snapshot := WriteSnapshot(base);
    v := [];
    for l := 0 to NUM_LEVELS
      invariant |v| == l
      invariant forall m :: 0 <= m < l ==>
                  Manifest.InOrder(v[m]) && Listed(v[m]) == Listed(base[m]) + if m == 0 then Listed(files) else {}
    {
      var level := AddTables(base[l], files, l);
      v := v + [level];
    }
    PlaceAllFiles(k.manifestLevels, files);
  }

  // ---- From the state of a run ----

  // The manifest's records, with the one that is being written.
  ghost function Coming(d: Db): seq<ManifestRecord> {
    d.edits + if d.stage.Composed? then [ManifestRecord(JobEdit(d.stage.job), Some(d.stage.record))] else []
  }

  // The file is cut off behind the records that are wholly written.
  ghost predicate ManifestCut(d: Db, crc: Logs.Checksum, name: seq<Byte>, tables: nat -> set<Entry>,
                              manifest: seq<Byte>) {
    exists fields :: RecordsCut(d, crc, name, tables, manifest, fields)
  }

  ghost predicate RecordsCut(d: Db, crc: Logs.Checksum, name: seq<Byte>, tables: nat -> set<Entry>, manifest: seq<Byte>,
                             fields: seq<VersionEdits.Fields>) {
    && |fields| == |Coming(d)| && (forall i :: 0 <= i < |fields| ==> Says(fields[i], Coming(d)[i], tables, name))
    && |Logs.LogOf(crc, EditRecords(fields)[..|d.edits|])| <= |manifest|
    && manifest <= Logs.LogOf(crc, EditRecords(fields))
  }

  // The newest log is cut off behind the batches that were committed.
  ghost predicate LogsCut(d: Db, crc: Logs.Checksum, logs: map<nat, seq<Byte>>) {
    && logs.Keys == d.logs.Keys
    && (forall n :: n in d.logs && (n != d.logFile || d.inLog.None?) ==> HoldsLog(crc, logs[n], d.logs[n]))
    && (d.inLog.Some? && d.logFile in d.logs && d.logs[d.logFile] != [] ==>
          var log := d.logs[d.logFile];
          && (forall b :: b in log ==> Storable(b))
          && |Logs.LogOf(crc, Reps(log)[..|log| - 1])| <= |logs[d.logFile]|
          && logs[d.logFile] <= Logs.LogOf(crc, Reps(log)))
  }

  // A file cut off inside its last record has that record whole or not.
  lemma LastOrNot(crc: Logs.Checksum, file: seq<Byte>, records: seq<seq<Byte>>, n: nat)
    requires n <= |records| <= n + 1 && |Logs.LogOf(crc, records[..n])| <= |file|
    requires file <= Logs.LogOf(crc, records)
    ensures Whole(crc, file, records, n) || (|records| == n + 1 && Whole(crc, file, records, n + 1))
  {
    hide Logs.LogOf;
    assert records[..|records|] == records;
  }

  lemma WholeOrCut(crc: Logs.Checksum, file: seq<Byte>, records: seq<seq<Byte>>, n: nat)
    requires |records| == n + 1 && (Whole(crc, file, records, n) || Whole(crc, file, records, n + 1))
    ensures Whole(crc, file, records, n) <==> |file| < |Logs.LogOf(crc, records)|
  {
    hide Logs.LogOf;
    assert records[..n + 1] == records;
  }

  lemma RecordsWritten(d: Db, crc: Logs.Checksum, name: seq<Byte>, tables: nat -> set<Entry>, manifest: seq<Byte>)
    requires ManifestCut(d, crc, name, tables, manifest)
    ensures HoldsRecords(crc, manifest, name, tables, d.edits) ||
            (d.stage.Composed? && HoldsRecords(crc, manifest, name, tables, Coming(d)))
  {
    hide Logs.LogOf, Says, Whole;
    var fields :| RecordsCut(d, crc, name, tables, manifest, fields);
    LastOrNot(crc, manifest, EditRecords(fields), |d.edits|);
    if Whole(crc, manifest, EditRecords(fields), |d.edits|) {
      assert HoldsFields(crc, manifest, name, tables, d.edits, fields);
    } else {
      assert HoldsFields(crc, manifest, name, tables, Coming(d), fields);
    }
  }

  lemma BatchesWritten(d: Db, crc: Logs.Checksum, logs: map<nat, seq<Byte>>) returns (torn: bool)
    requires LogsOrdered(d) && LogsCut(d, crc, logs)
    ensures torn <==> LastIsCut(d, crc, logs)
    ensures var left := if torn then Torn(d) else d;
            && left.logs.Keys == logs.Keys
            && forall n :: n in left.logs ==> HoldsLog(crc, logs[n], left.logs[n])
  {
    hide Logs.LogOf, Storable, Whole, LogsInOrder, NextSequence;
    torn := false;
    if d.inLog.Some? {
      var log, file := d.logs[d.logFile], logs[d.logFile];
      LastOrNot(crc, file, Reps(log), |log| - 1);
      torn := Whole(crc, file, Reps(log), |log| - 1);
      WholeOrCut(crc, file, Reps(log), |log| - 1);
      assert HoldsLogPart(crc, file, if torn then log[..|log| - 1] else log, log);
    }
  }

  // Whatever the cut, it is that of a step of the machine.
  lemma CutIsBytes(d: Db, crc: Logs.Checksum, name: seq<Byte>, tables: nat -> set<Entry>, manifest: seq<Byte>,
                   logs: map<nat, seq<Byte>>)
      returns (mid: Db, steps: seq<Action>, torn: bool)
    requires Inv(d) && ManifestCut(d, crc, name, tables, manifest) && LogsCut(d, crc, logs)
    ensures (steps == [] && mid == d) || (steps == [DoLog] && Step(d, mid, DoLog))
    ensures BytesOf(DiskOf(if torn then Torn(mid) else mid), crc, name, tables, manifest, logs)
    ensures (torn <==> LastIsCut(d, crc, logs)) && Torn(mid).tables == d.tables && mid.tables == d.tables
  {
    hide HoldsRecords, HoldsLog, ManifestCut, LogsCut, Inv, Step, Coming, StageSound, LogsOrdered;
    InvParts(d);
    RecordsWritten(d, crc, name, tables, manifest);
    torn := BatchesWritten(d, crc, logs);
    mid, steps := d, [];
    if !HoldsRecords(crc, manifest, name, tables, d.edits) {
      mid := RecordLogged(d);
      steps := [DoLog];
    }
  }

  lemma InvParts(d: Db)
    requires Inv(d)
    ensures StageSound(d) && LogsOrdered(d)
  {
    hide HistorySound, ReadsSound, SnapshotsSound, LogsSound, StageSound, ManifestSound, TablesSound, EditsSound,
         LogsOrdered;
  }

  // The manifest's record is written; nothing else has changed.
  lemma RecordLogged(d: Db) returns (mid: Db)
    requires Inv(d) && d.stage.Composed?
    ensures Step(d, mid, DoLog) && mid.edits == Coming(d)
    ensures mid.tables == d.tables && Torn(mid).tables == d.tables
    ensures mid.logs == d.logs && Torn(mid).logs == Torn(d).logs && Torn(mid).edits == mid.edits
  {
    hide JobLevels, JobEdit, RecordSound, HistorySound, ReadsSound, SnapshotsSound, LogsSound, ManifestSound,
         TablesSound, EditsSound, LogsOrdered;
    mid := d.(stage := Logged(d.stage.job, d.stage.record), edits := Coming(d), manifest := d.stage.record,
              manifestLevels := JobLevels(d.levels, d.stage.job));
  }

  // The run goes on with the crash alone, or with the manifest record that was on
  // its way and the crash.  What is committed then is what was, and the batch on
  // its way to the log if its record is whole; and just that is read.
  ghost predicate GoesOn(states: seq<Db>, actions: seq<Action>, after: seq<Db>, more: seq<Action>, torn: bool) {
    && Run(after, more) && states <= after && actions <= more && |more| > |actions|
    && more[|more| - 1].DoCrash? && more[|more| - 1].torn == torn
    && (more[|actions|..] == [more[|more| - 1]] || more[|actions|..] == [DoLog, more[|more| - 1]])
    && Runs.Committed(more) == Left(Runs.WritesOf(actions), torn)
    && var d := after[|more|];
       forall u :: Runs.Sees(d, u, d.lastSequence) ==
         Read(Written(Left(Runs.WritesOf(actions), torn)), u, d.lastSequence)
  }

  function Left(w: Runs.Writes, torn: bool): seq<Batch> {
    w.committed + if torn || w.onItsWay.None? then [] else [w.onItsWay.value]
  }

  // The newest log ends inside the record of the batch on its way.
  ghost predicate LastIsCut(d: Db, crc: Logs.Checksum, logs: map<nat, seq<Byte>>) {
    && d.inLog.Some? && d.logFile in d.logs && d.logFile in logs
    && |logs[d.logFile]| < |Logs.LogOf(crc, Reps(d.logs[d.logFile]))|
  }

  // A crash in any state of any run, and the code that opens the database from
  // the bytes it leaves: together they are a step of the machine, or two.  So the
  // database opens, what was committed is read, and nothing else but the batch
  // whose record reached the log.
  method Reopen(crc: Logs.Checksum, name: seq<Byte>, tables: nat -> set<Entry>, manifest: seq<Byte>,
                logs: map<nat, seq<Byte>>, present: set<nat>, ghost states: seq<Db>, ghost actions: seq<Action>)
      returns (status: Status, v: seq<seq<File>>, lastSequence: nat)
    requires Run(states, actions) && present == states[|actions|].tables.Keys
    requires ManifestCut(states[|actions|], crc, name, tables, manifest) && LogsCut(states[|actions|], crc, logs)
    ensures status == Ok
    ensures exists after, more ::
              GoesOn(states, actions, after, more, LastIsCut(states[|actions|], crc, logs)) &&
                Shows(after[|more|], v, lastSequence)
  {
    hide ManifestCut, LogsCut, LastIsCut, Inv, BytesOf, DiskSound, DiskReadable, Recovers, Missing, Runs.Sees,
         Runs.Committed, Runs.WritesOf, Left, Written;
    ghost var d := states[|actions|];
    Runs.RunKeepsInv(states, actions, |actions|);
    ghost var mid, steps, torn := CutIsBytes(d, crc, name, tables, manifest, logs);
    MidKeeps(d, mid, steps);
    ghost var left := if torn then Torn(mid) else mid;
    if torn {
      TornKeeps(mid);
    }
    DiskIsSound(left);
    var files, newLog, snapshot;
    SoundIsReadable(DiskOf(left), left.history + Pending(left), RecoveredFloor(left));
    NoneMissing(DiskOf(left), present, logs.Keys);
    status, v, files, lastSequence, newLog, snapshot :=
      Open(crc, name, tables, manifest, logs, present, DiskOf(left), left.history + Pending(left),
           RecoveredFloor(left));
    ghost var d' := RecoveredDb(DiskOf(left), left.history + Pending(left), RecoveredFloor(left), files, lastSequence,
                                newLog, snapshot);
    assert AfterAborts(DiskOf(left), []) == DiskOf(left) && LeaveAll(DiskOf(left), []);
    ghost var crash := DoCrash(torn, [], files, lastSequence, newLog, snapshot);
    assert Step(mid, d', crash);
    ghost var after, more := Longer(states, actions, mid, steps, d', crash);
    CrashLeaves(actions, more, steps, crash);
    ReadsGoOn(after, more);
  }

  lemma NoneMissing(k: Disk, present: set<nat>, others: set<nat>)
    requires Missing(k, present) == {}
    ensures Missing(k, present + others) == {}
  {
    forall n | n in Missing(k, present + others) ensures n in Missing(k, present) {}
  }

  // What the crash leaves of what was written before.
  lemma CrashLeaves(actions: seq<Action>, more: seq<Action>, steps: seq<Action>, crash: Action)
    requires (steps == [] || steps == [DoLog]) && more == actions + steps + [crash] && crash.DoCrash?
    ensures Runs.Committed(more) == Left(Runs.WritesOf(actions), crash.torn)
  {
    var front := actions + steps;
    assert more[..|more| - 1] == front && more[|more| - 1] == crash;
    assert Runs.WritesOf(front) == Runs.WritesOf(actions) by {
      if steps != [] {
        assert front[..|front| - 1] == actions && front[|front| - 1] == DoLog;
      } else {
        assert front == actions;
      }
    }
  }

  lemma MidKeeps(d: Db, mid: Db, steps: seq<Action>)
    requires Inv(d) && ((steps == [] && mid == d) || (steps == [DoLog] && Step(d, mid, DoLog)))
    ensures Inv(mid)
  {
    hide Inv, Step;
    if steps != [] {
      Runs.StepKeepsInv(d, mid, DoLog);
    }
  }

  lemma Longer(states: seq<Db>, actions: seq<Action>, mid: Db, steps: seq<Action>, d: Db, crash: Action)
      returns (after: seq<Db>, more: seq<Action>)
    requires Run(states, actions)
    requires (steps == [] && mid == states[|actions|]) || (steps == [DoLog] && Step(states[|actions|], mid, DoLog))
    requires Step(mid, d, crash)
    ensures Run(after, more) && states <= after && actions <= more && |more| > |actions|
    ensures more == actions + steps + [crash] && after[|more|] == d
  {
    hide Step, Init;
    after, more := states, actions;
    if steps != [] {
      Runs.OneMoreStep(after, more, mid, DoLog);
      after, more := after + [mid], more + [DoLog];
    }
    Runs.OneMoreStep(after, more, d, crash);
    after, more := after + [d], more + [crash];
  }

  lemma ReadsGoOn(states: seq<Db>, actions: seq<Action>)
    requires Run(states, actions)
    ensures var d := states[|actions|];
            forall u :: Runs.Sees(d, u, d.lastSequence) == Read(Written(Runs.Committed(actions)), u, d.lastSequence)
  {
    hide Step, Init, Runs.Committed, Runs.Sees, Written;
    var d := states[|actions|];
    assert actions[..|actions|] == actions;
    forall u ensures Runs.Sees(d, u, d.lastSequence) == Read(Written(Runs.Committed(actions)), u, d.lastSequence) {
      Runs.SnapshotReadsHistory(states, actions, |actions|, u, d.lastSequence);
    }
  }
}
