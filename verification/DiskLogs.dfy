// Logs and manifests as files of bytes that a crash may cut off anywhere
// (db/db_impl.cc, db/version_set.cc).
module DiskLogs {
  import opened Keys
  import opened Store
  import opened Coding
  import opened Options
  import opened Lsm
  import opened InternalKeys
  import opened Machine
  import Logs
  import Compaction
  import Manifest
  import Recovery
  import WriteBatches
  import VersionEdits

  type Record = seq<Byte>

  // n records are wholly in the file, and no more.
  ghost predicate Whole(crc: Logs.Checksum, file: seq<Byte>, records: seq<Record>, n: nat) {
    && n <= |records|
    && |Logs.LogOf(crc, records[..n])| <= |file|
    && (n < |records| ==> |Logs.LogOf(crc, records[..n + 1])| > |file|)
  }

  // ---- The write-ahead log ----

  ghost predicate Storable(b: Batch) {
    && (forall op :: op in b.ops ==> WriteBatches.WellFormed(op))
    && |b.ops| < WORD
    && b.first < VersionEdits.DWORD
  }

  // The contents of a write batch.
  ghost function Rep(b: Batch): Record {
    Fixed(b.first, 8) + Fixed(|b.ops|, 4) + WriteBatches.Encode(b.ops)
  }

  ghost function Reps(batches: seq<Batch>): seq<Record> {
    seq(|batches|, i requires 0 <= i < |batches| => Rep(batches[i]))
  }

  lemma EachRep(batches: seq<Batch>)
    ensures |Reps(batches)| == |batches|
    ensures forall i :: 0 <= i < |batches| ==> Reps(batches)[i] == Rep(batches[i])
  {
    hide Rep;
  }

  // SetContents, then iterate.
  method ReadBatch(rep: Record, ghost b: Batch) returns (r: Batch)
    requires Storable(b) && rep == Rep(b)
    ensures r == b
  {
    hide Fixed, DecodeFixed, WriteBatches.Encode, WriteBatches.Parse;
    WriteBatches.Sections(rep, Fixed(b.first, 8), Fixed(|b.ops|, 4), WriteBatches.Encode(b.ops));
    Fixed64RoundTrip(b.first);
    Fixed32RoundTrip(|b.ops|);
    WriteBatches.ParsesBack(b.ops);
    var handled, fault := WriteBatches.Iterate(rep);
    r := Batch(DecodeFixed(rep[..8]), handled);
  }

  // The batches wholly in the file come back, in order.
  method ReadBatches(crc: Logs.Checksum, file: seq<Byte>, ghost batches: seq<Batch>)
      returns (got: seq<Batch>)
    requires forall b :: b in batches ==> Storable(b)
    requires file <= Logs.LogOf(crc, Reps(batches))
    ensures got <= batches && Whole(crc, file, Reps(batches), |got|)
  {
    hide Logs.LogOf, Logs.InFile, Logs.BlockEnd, Reps, Rep, Storable;
    var reader := new Logs.LogReader(crc, file);
    ghost var records := Reps(batches);
    got := [];
    ghost var n := 0;
    Logs.NoRecords(crc);
    assert records[..0] == [];
    EachRep(batches);
    while true
      invariant fresh(reader) && Logs.At(reader, records, n) && got == batches[..n]
      invariant reader.crc == crc && reader.file == file
      decreases |file| - reader.Here().pos
    {
      var ok, record := Logs.ReadNext(reader, records, n);
      if !ok {
        break;
      }
      var batch := ReadBatch(record, batches[n]);
      got := got + [batch];
      n := n + 1;
    }
  }

  // The file has these batches whole, and of one more at most a part.
  ghost predicate HoldsLog(crc: Logs.Checksum, file: seq<Byte>, batches: seq<Batch>) {
    exists all: seq<Batch> :: HoldsLogPart(crc, file, batches, all)
  }

  ghost predicate HoldsLogPart(crc: Logs.Checksum, file: seq<Byte>, batches: seq<Batch>, all: seq<Batch>) {
    && batches <= all && (forall b :: b in all ==> Storable(b))
    && file <= Logs.LogOf(crc, Reps(all)) && Whole(crc, file, Reps(all), |batches|)
  }

  lemma WholeOnce(crc: Logs.Checksum, file: seq<Byte>, records: seq<Record>, m: nat, n: nat)
    requires Whole(crc, file, records, m) && Whole(crc, file, records, n)
    ensures m == n
  {
    hide Logs.LogOf;
    if m < n {
      MoreIsLonger(crc, records, m + 1, n);
    } else if n < m {
      MoreIsLonger(crc, records, n + 1, m);
    }
  }

  lemma MoreIsLonger(crc: Logs.Checksum, records: seq<Record>, m: nat, n: nat)
    requires m <= n <= |records|
    ensures |Logs.LogOf(crc, records[..m])| <= |Logs.LogOf(crc, records[..n])|
  {
    hide Logs.LogOf;
    Logs.LogGrows(crc, records[..n], m);
    assert records[..n][..m] == records[..m];
  }

  // RecoverLogFile from the bytes of a log.
  method RecoverLog(crc: Logs.Checksum, file: seq<Byte>, ghost batches: seq<Batch>, files: seq<File>,
                    ghost seen: seq<Batch>, ghost first: nat, next: nat, maxSequence: nat)
      returns (r: seq<File>, nextNumber: nat, newMax: nat)
    requires HoldsLog(crc, file, batches) && forall b :: b in batches ==> b.first > 0
    requires Recovery.Replayed(files, {}, seen, first, next)
    requires Recovery.Ascending(seen + batches)
    requires forall e :: e in Written(seen) ==> e.key.sequence <= maxSequence
    ensures Recovery.Replayed(r, {}, seen + batches, first, nextNumber)
    ensures maxSequence <= newMax && forall e :: e in Written(seen + batches) ==> e.key.sequence <= newMax
    ensures forall b :: b in batches ==> b.Last() <= newMax
    ensures newMax == maxSequence || exists b :: b in batches && newMax == b.Last()
  {
    hide Recovery.Replayed, Recovery.Ascending, Written, Storable, Reps, Whole, Logs.LogOf;
    ghost var all :| HoldsLogPart(crc, file, batches, all);
    var got := ReadBatches(crc, file, all);
    WholeOnce(crc, file, Reps(all), |got|, |batches|);
    assert got == batches;
    r, nextNumber, newMax := Recovery.RecoverLogFile(got, files, seen, first, next, maxSequence);
  }

  // ---- All logs ----

  // The batches of these logs, one log after the other.
  ghost function Concat(logs: map<nat, seq<Batch>>, numbers: seq<nat>): seq<Batch>
    requires forall n :: n in numbers ==> n in logs
  {
    if numbers == [] then []
    else Concat(logs, numbers[..|numbers| - 1]) + logs[numbers[|numbers| - 1]]
  }

  ghost predicate NumbersUp(numbers: seq<nat>) {
    forall i, j :: 0 <= i < j < |numbers| ==> numbers[i] < numbers[j]
  }

  lemma {:induction false} InSomeLog(logs: map<nat, seq<Batch>>, numbers: seq<nat>)
    requires forall n :: n in numbers ==> n in logs
    ensures forall b :: b in Concat(logs, numbers) ==>
            exists n, i :: n in numbers && 0 <= i < |logs[n]| && logs[n][i] == b
    ensures forall n, i :: n in numbers && 0 <= i < |logs[n]| ==> logs[n][i] in Concat(logs, numbers)
  {
    if numbers != [] {
      var front, last := numbers[..|numbers| - 1], numbers[|numbers| - 1];
      InSomeLog(logs, front);
      assert numbers == front + [last];
      forall b | b in Concat(logs, numbers)
        ensures exists n, i :: n in numbers && 0 <= i < |logs[n]| && logs[n][i] == b
      {
        if b in Concat(logs, front) {
          var n, i :| n in front && 0 <= i < |logs[n]| && logs[n][i] == b;
          assert n in numbers;
        } else {
          var i :| 0 <= i < |logs[last]| && logs[last][i] == b;
          assert last in numbers;
        }
      }
    }
  }

  // Logs in the order of their numbers have their batches in order.
  lemma {:induction false} ConcatAscends(logs: map<nat, seq<Batch>>, numbers: seq<nat>, end: nat)
    requires (forall n :: n in numbers ==> n in logs) && NumbersUp(numbers) && LogsInOrder(logs, end)
    ensures Recovery.Ascending(Concat(logs, numbers))
    ensures forall b :: b in Concat(logs, numbers) ==> b.first > 0
  {
    if numbers != [] {
      var front, last := numbers[..|numbers| - 1], numbers[|numbers| - 1];
      ConcatAscends(logs, front, end);
      InSomeLog(logs, front);
      var a, b := Concat(logs, front), logs[last];
      forall i, j | 0 <= i < |a| && 0 <= j < |b|
        ensures a[i].End() <= b[j].first
      {
        assert a[i] in a;
        var n, k :| n in front && 0 <= k < |logs[n]| && logs[n][k] == a[i];
      }
      BothAscend(a, b);
    }
  }

  lemma BothAscend(a: seq<Batch>, b: seq<Batch>)
    requires Recovery.Ascending(a) && Recovery.Ascending(b)
    requires forall i, j :: 0 <= i < |a| && 0 <= j < |b| ==> a[i].End() <= b[j].first
    ensures Recovery.Ascending(a + b)
  {
  }

  // Just the logs recovery looks at.
  ghost predicate Relevant(numbers: seq<nat>, logs: map<nat, seq<Batch>>, lo: nat) {
    NumbersUp(numbers) && forall n :: n in numbers <==> n in logs && lo <= n
  }

  lemma ConcatIsTail(logs: map<nat, seq<Batch>>, numbers: seq<nat>, lo: nat)
    requires Relevant(numbers, logs, lo)
    ensures Written(Concat(logs, numbers)) == LogEntriesFrom(logs, lo)
  {
    hide Batch.Entries;
    InSomeLog(logs, numbers);
    var all := Concat(logs, numbers);
    forall e | e in Written(all)
      ensures e in LogEntriesFrom(logs, lo)
    {
      var i :| 0 <= i < |all| && e in all[i].Entries();
      assert all[i] in all;
      var n, k :| n in numbers && 0 <= k < |logs[n]| && logs[n][k] == all[i];
    }
    forall e | e in LogEntriesFrom(logs, lo)
      ensures e in Written(all)
    {
      var n, k :| n in logs && lo <= n && 0 <= k < |logs[n]| && e in logs[n][k].Entries();
      assert logs[n][k] in all;
      var i :| 0 <= i < |all| && all[i] == logs[n][k];
    }
  }

  // DBImpl::Recover over the bytes of the logs, in the order of their numbers.
  // Numbers of logs are used up as they are met.
  method RecoverLogs(crc: Logs.Checksum, files: map<nat, seq<Byte>>, numbers: seq<nat>, next: nat, lastSequence: nat,
                     ghost logs: map<nat, seq<Batch>>, ghost lo: nat, ghost end: nat)
      returns (tables: seq<File>, nextNumber: nat, newLast: nat)
    requires Relevant(numbers, logs, lo) && LogsInOrder(logs, end)
    requires forall n :: n in numbers ==> n in files && HoldsLog(crc, files[n], logs[n])
    ensures SplitInOrder(tables, LogEntriesFrom(logs, lo), next)
    ensures next <= nextNumber && (forall f :: f in tables ==> f.number < nextNumber) &&
            (forall n :: n in numbers ==> n < nextNumber)
    ensures MaxSequence(newLast, lastSequence, logs, lo)
  {
    hide Written, OlderThan, LogsInOrder, Recovery.Ascending, HoldsLog, LogEntriesFrom, Recovery.Replayed;
    tables, nextNumber := [], next;
    Recovery.NothingWritten();
    var maxSequence := 0;
    assert numbers[..0] == [];
    NoneReplayed(next);
    for i := 0 to |numbers|
      invariant Recovery.Replayed(tables, {}, Concat(logs, numbers[..i]), next, nextNumber)
      invariant forall e :: e in Written(Concat(logs, numbers[..i])) ==> e.key.sequence <= maxSequence
      invariant Reached(maxSequence, Concat(logs, numbers[..i]))
      invariant next <= nextNumber && forall k :: 0 <= k < i ==> numbers[k] < nextNumber
    {
      var n: nat := numbers[i];
      ghost var seen := Concat(logs, numbers[..i]);
      assert numbers[..i + 1][..i] == numbers[..i] && numbers[..i + 1][i] == n;
      FirstLogs(logs, numbers, i + 1, end);
      assert Concat(logs, numbers[..i + 1]) == seen + logs[n];
      ghost var before := maxSequence;
      tables, nextNumber, maxSequence := RecoverLog(crc, files[n], logs[n], tables, seen, next, nextNumber,
                                                    maxSequence);
      StillReached(before, maxSequence, seen, logs[n]);
      UsedUp(tables, seen + logs[n], next, nextNumber, if nextNumber <= n then n + 1 else nextNumber);
      if nextNumber <= n {
        nextNumber := n + 1;
      }
    }
    assert numbers[..|numbers|] == numbers;
    newLast := if lastSequence < maxSequence then maxSequence else lastSequence;
    ConcatIsTail(logs, numbers, lo);
    FilesReplayed(tables, Concat(logs, numbers), next, nextNumber);
    LastOfAll(logs, numbers, lo, lastSequence, maxSequence);
  }

  // The largest last sequence number of these batches, or zero.
  ghost predicate Reached(max: nat, batches: seq<Batch>) {
    (forall b :: b in batches ==> b.Last() <= max) && (max == 0 || exists b :: b in batches && b.Last() == max)
  }

  lemma StillReached(before: nat, after: nat, seen: seq<Batch>, log: seq<Batch>)
    requires Reached(before, seen) && before <= after
    requires forall b :: b in log ==> b.Last() <= after
    requires after == before || exists b :: b in log && after == b.Last()
    ensures Reached(after, seen + log)
  {
    if after != before {
      var b :| b in log && after == b.Last();
      assert b in seen + log;
    } else if after != 0 {
      var b :| b in seen && b.Last() == before;
      assert b in seen + log;
    }
  }

  lemma FirstLogs(logs: map<nat, seq<Batch>>, numbers: seq<nat>, i: nat, end: nat)
    requires (forall n :: n in numbers ==> n in logs) && NumbersUp(numbers) && LogsInOrder(logs, end) && i <= |numbers|
    ensures forall n :: n in numbers[..i] ==> n in logs
    ensures Recovery.Ascending(Concat(logs, numbers[..i]))
    ensures forall b :: b in Concat(logs, numbers[..i]) ==> b.first > 0
  {
    hide LogsInOrder;
    ConcatAscends(logs, numbers[..i], end);
  }

  lemma NoneReplayed(next: nat)
    ensures Recovery.Replayed([], {}, [], next, next)
  {
  }

  lemma UsedUp(tables: seq<File>, seen: seq<Batch>, first: nat, next: nat, more: nat)
    requires Recovery.Replayed(tables, {}, seen, first, next) && next <= more
    ensures Recovery.Replayed(tables, {}, seen, first, more)
  {
  }

  lemma FilesReplayed(tables: seq<File>, seen: seq<Batch>, first: nat, next: nat)
    requires Recovery.Replayed(tables, {}, seen, first, next)
    ensures SplitInOrder(tables, Written(seen), first) && forall f :: f in tables ==> f.number < next
  {
    hide OlderThan, Written;
    assert Contents(Compaction.Listed(tables)) + {} == Contents(Compaction.Listed(tables));
  }

  lemma LastOfAll(logs: map<nat, seq<Batch>>, numbers: seq<nat>, lo: nat, lastSequence: nat, max: nat)
    requires Relevant(numbers, logs, lo) && Reached(max, Concat(logs, numbers))
    ensures MaxSequence(if lastSequence < max then max else lastSequence, lastSequence, logs, lo)
  {
    InSomeLog(logs, numbers);
  }

  // ---- The manifest ----

  // What an edit read from a record holds.
  function Decoded(record: Record): VersionEdits.Fields {
    VersionEdits.SetAll(VersionEdits.Cleared([]), VersionEdits.Parse(record).items)
  }

  // The last value any edit has for each number.
  datatype Numbers = Numbers(log: Option<nat>, prevLog: Option<nat>, nextFile: Option<nat>, lastSequence: Option<nat>)

  function Merged(edits: seq<VersionEdits.Fields>): Numbers {
    if edits == [] then Numbers(None, None, None, None)
    else Newer(Merged(edits[..|edits| - 1]), edits[|edits| - 1])
  }

  function Newer(n: Numbers, f: VersionEdits.Fields): Numbers {
    Numbers(VersionEdits.Either(f.logNumber, n.log), VersionEdits.Either(f.prevLogNumber, n.prevLog),
      VersionEdits.Either(f.nextFileNumber, n.nextFile), VersionEdits.Either(f.lastSequence, n.lastSequence))
  }

  predicate SameComparator(f: VersionEdits.Fields, name: seq<Byte>) {
    f.comparator.Some? ==> f.comparator.value == name
  }

  datatype Recovered =
    | Recovered(log: nat, prevLog: nat, nextFile: nat, lastSequence: nat)
    | Corrupt(fault: VersionEdits.Fault)
    | WrongComparator
    | NoNextFile
    | NoLogNumber
    | NoLastSequence

  function Outcome(n: Numbers): (r: Recovered)
    ensures !r.Corrupt? && !r.WrongComparator?
  {
    if n.nextFile.None? then NoNextFile
    else if n.log.None? then NoLogNumber
    else if n.lastSequence.None? then NoLastSequence
    else Recovered(n.log.value, if n.prevLog.None? then 0 else n.prevLog.value, n.nextFile.value + 1,
                   n.lastSequence.value)
  }

  // The first records are good, and these are their edits.
  ghost predicate Taken(records: seq<Record>, applied: seq<VersionEdits.Fields>, name: seq<Byte>) {
    && |applied| <= |records|
    && forall i :: 0 <= i < |applied| ==>
         VersionEdits.Parse(records[i]).fault.None? && applied[i] == Decoded(records[i]) &&
           SameComparator(applied[i], name)
  }

  lemma TakeNone(records: seq<Record>, name: seq<Byte>)
    ensures records[..0] == [] && Taken(records, [], name) && Merged([]) == Numbers(None, None, None, None)
  {
  }

  lemma TakeOne(records: seq<Record>, applied: seq<VersionEdits.Fields>, name: seq<Byte>)
    requires Taken(records, applied, name) && |applied| < |records|
    ensures var record := records[|applied|];
            VersionEdits.Parse(record).fault.None? && SameComparator(Decoded(record), name) ==>
              && Taken(records, applied + [Decoded(record)], name)
              && Merged(applied + [Decoded(record)]) == Newer(Merged(applied), Decoded(record))
  {
    hide Decoded, SameComparator, VersionEdits.Parse, Newer, Merged;
    MergeOne(applied, Decoded(records[|applied|]));
  }

  lemma MergeOne(edits: seq<VersionEdits.Fields>, f: VersionEdits.Fields)
    ensures Merged(edits + [f]) == Newer(Merged(edits), f)
  {
    hide Newer;
    assert (edits + [f])[..|edits|] == edits;
  }

  // VersionSet::Recover over the bytes of a manifest: the edits given to the
  // builder, and the numbers. It stops at the first bad record.
  method RecoverManifest(crc: Logs.Checksum, file: seq<Byte>, name: seq<Byte>, ghost records: seq<Record>)
      returns (r: Recovered, applied: seq<VersionEdits.Fields>)
    requires file <= Logs.LogOf(crc, records)
    ensures Taken(records, applied, name)
    ensures r.Corrupt? ==> |applied| < |records| && VersionEdits.Parse(records[|applied|]).fault == Some(r.fault)
    ensures r.WrongComparator? ==> |applied| < |records| && !SameComparator(Decoded(records[|applied|]), name)
    ensures r.Corrupt? || r.WrongComparator? ==>
              |applied| < |records| && |Logs.LogOf(crc, records[..|applied| + 1])| <= |file|
    ensures !r.Corrupt? && !r.WrongComparator? ==>
              Whole(crc, file, records, |applied|) && r == Outcome(Merged(applied))
  {
    hide Logs.LogOf, Logs.InFile, Logs.BlockEnd, Decoded, Outcome, Newer, Merged, Taken, SameComparator,
         VersionEdits.Parse;
    var reader := new Logs.LogReader(crc, file);
    var numbers := Numbers(None, None, None, None);
    applied := [];
    ghost var n := 0;
    Logs.NoRecords(crc);
    TakeNone(records, name);
    while true
      invariant fresh(reader) && Logs.At(reader, records, n) && n == |applied|
      invariant reader.crc == crc && reader.file == file
      invariant Taken(records, applied, name) && numbers == Merged(applied)
      decreases |file| - reader.Here().pos
    {
      var ok, record := Logs.ReadNext(reader, records, n);
      if !ok {
        break;
      }
      var f, fault := ReadEdit(record);
      if fault.Some? {
        return Corrupt(fault.value), applied;
      }
      if !SameComparator(f, name) {
        return WrongComparator, applied;
      }
      TakeOne(records, applied, name);
      applied := applied + [f];
      numbers := Newer(numbers, f);
      n := n + 1;
    }
    r := Outcome(numbers);
  }

  method ReadEdit(record: Record) returns (f: VersionEdits.Fields, fault: Option<VersionEdits.Fault>)
    ensures f == Decoded(record) && fault == VersionEdits.Parse(record).fault
  {
    var edit := new VersionEdits.VersionEdit();
    fault := edit.DecodeFrom(record);
    f := edit.Contents();
  }

  // ---- Files of a version ----

  predicate KeysParse(f: VersionEdits.Fields) {
    forall i :: 0 <= i < |f.newFiles| ==>
      ParseKey(f.newFiles[i].1.smallest).Some? && ParseKey(f.newFiles[i].1.largest).Some?
  }

  // A table file by its number holds what was once built into it.
  function FileOf(m: VersionEdits.Meta, tables: nat -> set<Entry>): File
    requires ParseKey(m.smallest).Some? && ParseKey(m.largest).Some?
  {
    File(m.number, m.size, ParseKey(m.smallest).value, ParseKey(m.largest).value, tables(m.number))
  }

  function EditOf(f: VersionEdits.Fields, tables: nat -> set<Entry>): Manifest.Edit
    requires KeysParse(f)
  {
    Manifest.Edit(
      set d | d in f.deletedFiles,
      seq(|f.newFiles|, i requires 0 <= i < |f.newFiles| => (f.newFiles[i].0, FileOf(f.newFiles[i].1, tables))))
  }

  function MetaOf(f: File): VersionEdits.Meta {
    VersionEdits.Meta(f.number, f.size, EncodeKey(f.smallest), EncodeKey(f.largest))
  }

  // The edit's record, as LogAndApply fills it in.
  ghost predicate Writes(f: VersionEdits.Fields, edit: Manifest.Edit, tables: nat -> set<Entry>) {
    && VersionEdits.Fits(f)
    && (forall d :: d in f.deletedFiles <==> d in edit.deleted)
    && |f.newFiles| == |edit.added|
    && forall i :: 0 <= i < |edit.added| ==> WritesFile(f.newFiles[i], edit.added[i], tables)
  }

  ghost predicate WritesFile(written: (nat, VersionEdits.Meta), added: (nat, File), tables: nat -> set<Entry>) {
    var f := added.1;
    && written == (added.0, MetaOf(f))
    && f.smallest.sequence <= MAX_SEQUENCE && f.largest.sequence <= MAX_SEQUENCE
    && tables(f.number) == f.contents
  }

  lemma FileReadBack(written: (nat, VersionEdits.Meta), added: (nat, File), tables: nat -> set<Entry>)
    requires WritesFile(written, added, tables)
    ensures ParseKey(written.1.smallest).Some? && ParseKey(written.1.largest).Some?
    ensures (written.0, FileOf(written.1, tables)) == added
  {
    hide ParseKey, EncodeKey;
    KeyReadBack(added.1.smallest);
    KeyReadBack(added.1.largest);
  }

  // An edit survives its way through the bytes.
  lemma EditSurvives(f: VersionEdits.Fields, edit: Manifest.Edit, tables: nat -> set<Entry>)
    requires Writes(f, edit, tables)
    ensures var record := VersionEdits.EncodeItems(VersionEdits.Items(f));
            && VersionEdits.Parse(record).fault.None? && Decoded(record) == f
            && KeysParse(f) && EditOf(f, tables) == edit
  {
    hide ParseKey, FileOf, WritesFile, VersionEdits.EncodeItems, VersionEdits.Items, VersionEdits.Parse,
         VersionEdits.SetAll, VersionEdits.Fits;
    VersionEdits.EditReadBack(f, []);
    assert [] + f.compactPointers == f.compactPointers;
    forall i | 0 <= i < |f.newFiles|
      ensures ParseKey(f.newFiles[i].1.smallest).Some? && ParseKey(f.newFiles[i].1.largest).Some?
      ensures (f.newFiles[i].0, FileOf(f.newFiles[i].1, tables)) == edit.added[i]
    {
      FileReadBack(f.newFiles[i], edit.added[i], tables);
    }
    assert EditOf(f, tables).added == edit.added;
    assert EditOf(f, tables).deleted == edit.deleted;
  }

  ghost function EditRecords(fields: seq<VersionEdits.Fields>): seq<Record> {
    seq(|fields|, i requires 0 <= i < |fields| => VersionEdits.EncodeItems(VersionEdits.Items(fields[i])))
  }

  // A record of the machine's manifest, as LogAndApply and WriteSnapshot fill it
  // in.
  ghost predicate Says(f: VersionEdits.Fields, r: ManifestRecord, tables: nat -> set<Entry>, name: seq<Byte>) {
    && Writes(f, r.edit, tables) && SameComparator(f, name)
    && NumbersOf(f) == match r.record
                       case None => Numbers(None, None, None, None)
                       case Some(n) => Numbers(Some(n.logNumber), Some(0), Some(n.nextFile), Some(n.lastSequence))
  }

  function NumbersOf(f: VersionEdits.Fields): Numbers {
    Numbers(f.logNumber, f.prevLogNumber, f.nextFileNumber, f.lastSequence)
  }

  // The file has these records whole, and of one more at most a part.
  ghost predicate HoldsRecords(crc: Logs.Checksum, file: seq<Byte>, name: seq<Byte>, tables: nat -> set<Entry>,
                               logged: seq<ManifestRecord>) {
    exists fields :: HoldsFields(crc, file, name, tables, logged, fields)
  }

  ghost predicate HoldsFields(crc: Logs.Checksum, file: seq<Byte>, name: seq<Byte>, tables: nat -> set<Entry>,
                              logged: seq<ManifestRecord>, fields: seq<VersionEdits.Fields>) {
    && |logged| <= |fields| && (forall i :: 0 <= i < |logged| ==> Says(fields[i], logged[i], tables, name))
    && file <= Logs.LogOf(crc, EditRecords(fields)) && Whole(crc, file, EditRecords(fields), |logged|)
  }

  // The numbers are those of the last record that has some.
  lemma {:induction false} LastNumbers(fields: seq<VersionEdits.Fields>, logged: seq<ManifestRecord>,
                                       tables: nat -> set<Entry>, name: seq<Byte>)
    requires |fields| == |logged| && forall i :: 0 <= i < |logged| ==> Says(fields[i], logged[i], tables, name)
    ensures Merged(fields) == match LastRecord(logged)
                              case None => Numbers(None, None, None, None)
                              case Some(n) => Numbers(Some(n.logNumber), Some(0), Some(n.nextFile),
                                                      Some(n.lastSequence))
  {
    hide Writes, SameComparator;
    if fields != [] {
      var n := |fields| - 1;
      assert Says(fields[n], logged[n], tables, name);
      LastNumbers(fields[..n], logged[..n], tables, name);
    }
  }

  // From a manifest cut off anywhere, each level gets the files it had after the
  // last record that is wholly there, and the numbers are of that time.
  method RecoverVersion(crc: Logs.Checksum, file: seq<Byte>, name: seq<Byte>, tables: nat -> set<Entry>,
                        ghost logged: seq<ManifestRecord>)
      returns (r: Recovered, v: seq<seq<File>>)
    requires HoldsRecords(crc, file, name, tables, logged) && LastRecord(logged).Some?
    requires forall l :: 0 <= l < NUM_LEVELS ==>
               Manifest.AddedOnce({}, EditsOf(logged), l) && Manifest.NumbersIdentify(NamedAt(logged, l))
    ensures var n := LastRecord(logged).value; r == Recovered(n.logNumber, 0, n.nextFile + 1, n.lastSequence)
    ensures |v| == NUM_LEVELS && forall l :: 0 <= l < NUM_LEVELS ==>
              Manifest.InOrder(v[l]) && Compaction.Listed(v[l]) == Manifest.AfterAll({}, EditsOf(logged), l)
  {
    hide Logs.LogOf, Decoded, Merged, Whole, KeysParse, EditOf, Says, LastRecord, NamedAt, EditsOf, Manifest.AddedOnce,
         Manifest.NumbersIdentify, Manifest.AfterAll, Taken, EditRecords;
    ghost var fields :| HoldsFields(crc, file, name, tables, logged, fields);
    ghost var records := EditRecords(fields);
    var applied;
    r, applied := RecoverManifest(crc, file, name, records);
    AllTaken(crc, file, name, tables, logged, fields, r, applied);
    LastNumbers(applied, logged, tables, name);
    KeysTaken(applied, logged, tables, name);
    var edits := seq(|applied|, i requires 0 <= i < |applied| => EditOf(applied[i], tables));
    EditsTaken(applied, logged, tables, name, edits);
    v := [];
    for l := 0 to NUM_LEVELS
      invariant |v| == l && forall m :: 0 <= m < l ==>
                  Manifest.InOrder(v[m]) && Compaction.Listed(v[m]) == Manifest.AfterAll({}, edits, m)
    {
      NamedFromNone(logged, l);
      var files := Manifest.Replay([], edits, l);
      v := v + [files];
    }
  }

  lemma NamedFromNone(logged: seq<ManifestRecord>, l: nat)
    ensures Compaction.Listed([]) == {} && NamedAt(logged, l) == Manifest.Named({}, EditsOf(logged), l)
    ensures Manifest.InOrder([])
  {
  }

  // Reading takes every whole record, and no fault stops it before.
  lemma AllTaken(crc: Logs.Checksum, file: seq<Byte>, name: seq<Byte>, tables: nat -> set<Entry>,
                 logged: seq<ManifestRecord>, fields: seq<VersionEdits.Fields>, r: Recovered,
                 applied: seq<VersionEdits.Fields>)
    requires HoldsFields(crc, file, name, tables, logged, fields)
    requires Taken(EditRecords(fields), applied, name)
    requires r.Corrupt? ==>
               |applied| < |EditRecords(fields)| &&
               VersionEdits.Parse(EditRecords(fields)[|applied|]).fault == Some(r.fault)
    requires r.WrongComparator? ==>
               |applied| < |EditRecords(fields)| &&
               !SameComparator(Decoded(EditRecords(fields)[|applied|]), name)
    requires r.Corrupt? || r.WrongComparator? ==>
               |applied| < |EditRecords(fields)| && |Logs.LogOf(crc, EditRecords(fields)[..|applied| + 1])| <= |file|
    requires !r.Corrupt? && !r.WrongComparator? ==> Whole(crc, file, EditRecords(fields), |applied|)
    ensures !r.Corrupt? && !r.WrongComparator?
    ensures |applied| == |logged| && forall i :: 0 <= i < |logged| ==> Says(applied[i], logged[i], tables, name)
  {
    hide Logs.LogOf, Decoded, Writes, VersionEdits.Parse, VersionEdits.EncodeItems, VersionEdits.Items, SameComparator;
    var records := EditRecords(fields);
    forall i | 0 <= i < |logged|
      ensures VersionEdits.Parse(records[i]).fault.None? && Decoded(records[i]) == fields[i] &&
              SameComparator(fields[i], name)
    {
      assert Says(fields[i], logged[i], tables, name);
      EditSurvives(fields[i], logged[i].edit, tables);
    }
    if r.Corrupt? || r.WrongComparator? {
      if |applied| >= |logged| {
        MoreIsLonger(crc, records, |logged| + 1, |applied| + 1);
      }
      assert false;
    }
    WholeOnce(crc, file, records, |applied|, |logged|);
  }

  lemma KeysTaken(applied: seq<VersionEdits.Fields>, logged: seq<ManifestRecord>, tables: nat -> set<Entry>,
                  name: seq<Byte>)
    requires |applied| == |logged|
    requires forall i :: 0 <= i < |logged| ==> Says(applied[i], logged[i], tables, name)
    ensures forall i :: 0 <= i < |applied| ==> KeysParse(applied[i])
  {
    hide Decoded, Writes, VersionEdits.Parse, VersionEdits.EncodeItems, VersionEdits.Items, SameComparator, EditOf,
         KeysParse;
    forall i | 0 <= i < |applied| ensures KeysParse(applied[i]) {
      assert Says(applied[i], logged[i], tables, name);
      EditSurvives(applied[i], logged[i].edit, tables);
    }
  }

  lemma EditsTaken(applied: seq<VersionEdits.Fields>, logged: seq<ManifestRecord>, tables: nat -> set<Entry>,
                   name: seq<Byte>,
                   edits: seq<Manifest.Edit>)
    requires |applied| == |logged| == |edits|
    requires forall i :: 0 <= i < |logged| ==> Says(applied[i], logged[i], tables, name)
    requires forall i :: 0 <= i < |edits| ==> KeysParse(applied[i]) && edits[i] == EditOf(applied[i], tables)
    ensures edits == EditsOf(logged)
  {
    hide Decoded, Writes, VersionEdits.Parse, VersionEdits.EncodeItems, VersionEdits.Items, SameComparator, EditOf,
         KeysParse;
    forall i | 0 <= i < |edits| ensures edits[i] == logged[i].edit {
      assert Says(applied[i], logged[i], tables, name);
      EditSurvives(applied[i], logged[i].edit, tables);
    }
  }
}
