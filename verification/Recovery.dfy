// RecoverLogFile: replaying logs into memtables and level-0 tables
// (db/db_impl.cc, db/write_batch.cc, db/builder.cc).
module Recovery {
  import opened Keys
  import opened Store
  import opened Lsm
  import opened CompactionSafety
  import opened Compaction
  import opened Machine

  // Later batches carry higher sequence numbers.
  ghost predicate Ascending(batches: seq<Batch>) {
    forall i, j :: 0 <= i < j < |batches| ==> batches[i].first + |batches[i].ops| <= batches[j].first
  }

  // MemTableInserter: one sequence number per operation, from the batch's on.
  method AddBatch(b: Batch, mem: set<Entry>) returns (r: set<Entry>)
    ensures r == mem + b.Entries()
  {
    r := mem;
    var sequence := b.first;
    for i := 0 to |b.ops|
      invariant sequence == b.first + i
      invariant r == mem + set k | 0 <= k < i :: Entry(IKey(b.ops[k].user, b.first + k, b.ops[k].kind), b.ops[k].value)
    {
      r := r + {Entry(IKey(b.ops[i].user, sequence, b.ops[i].kind), b.ops[i].value)};
      sequence := sequence + 1;
    }
  }

  // BuildTable: the bounds are the first and the last key of the memtable.
  method BuildTable(mem: set<Entry>, number: nat) returns (f: File)
    requires mem != {}
    ensures f.Valid() && f.contents == mem && f.number == number
  {
    InternalKeysOrdered();
    var e :| e in mem;
    var smallest, largest := e.key, e.key;
    var rest := mem - {e};
    while rest != {}
      invariant rest <= mem
      invariant forall x :: x in mem - rest ==> !Before(x.key, smallest) && !Before(largest, x.key)
      invariant exists x :: x in mem && x.key == smallest
      invariant exists x :: x in mem && x.key == largest
      decreases rest
    {
      var x :| x in rest;
      if Before(x.key, smallest) {
        smallest := x.key;
      }
      if Before(largest, x.key) {
        largest := x.key;
      }
      rest := rest - {x};
    }
    var size: nat := *;
    f := File(number, size, smallest, largest, mem);
  }

  // The tables and the memtable hold the batches replayed so far, oldest first.
  ghost predicate Replayed(files: seq<File>, mem: set<Entry>, seen: seq<Batch>, first: nat, next: nat) {
    && first <= next
    && (forall i :: 0 <= i < |files| ==> files[i].Valid() && first <= files[i].number < next)
    && (forall i, j :: 0 <= i < j < |files| ==>
          files[i].number < files[j].number && OlderThan(files[i].contents, files[j].contents))
    && (forall i :: 0 <= i < |files| ==> OlderThan(files[i].contents, mem))
    && Contents(Listed(files)) + mem == Written(seen)
  }

  lemma TableAdded(files: seq<File>, f: File, seen: seq<Batch>, first: nat, next: nat)
    requires Replayed(files, f.contents, seen, first, next) && f.Valid() && f.number == next
    ensures Replayed(files + [f], {}, seen, first, next + 1)
  {
    hide Written, Contents, Listed, OlderThan;
    AppendedContents(files, f);
    assert forall i :: 0 <= i < |files| ==> OlderThan(files[i].contents, {}) by { OlderThanNone(files); }
    OlderThanNone([f]);
    assert Contents(Listed(files + [f])) + {} == Written(seen);
  }

  lemma OlderThanNone(files: seq<File>)
    ensures forall i :: 0 <= i < |files| ==> OlderThan(files[i].contents, {})
  {
  }

  // WriteLevel0Table during recovery; an empty memtable leaves no table.
  method WriteTable(files: seq<File>, mem: set<Entry>, ghost seen: seq<Batch>, ghost first: nat, next: nat)
      returns (r: seq<File>, nextNumber: nat)
    requires Replayed(files, mem, seen, first, next)
    ensures Replayed(r, {}, seen, first, nextNumber)
  {
    hide Written, Contents, Listed, OlderThan;
    nextNumber := next + 1;
    r := files;
    if mem != {} {
      var f := BuildTable(mem, next);
      r := files + [f];
      TableAdded(files, f, seen, first, next);
    }
  }

  lemma SeenIsOlder(seen: seq<Batch>, b: Batch)
    requires Ascending(seen + [b])
    ensures forall e, f :: e in Written(seen) && f in b.Entries() ==> e.key.sequence < f.key.sequence
  {
    forall e, f | e in Written(seen) && f in b.Entries()
      ensures e.key.sequence < f.key.sequence
    {
      var i :| 0 <= i < |seen| && e in seen[i].Entries();
      EntryOfBatch(seen[i], e);
      EntryOfBatch(b, f);
      assert (seen + [b])[i] == seen[i] && (seen + [b])[|seen|] == b;
    }
  }

  lemma ReplayOne(files: seq<File>, mem: set<Entry>, seen: seq<Batch>, first: nat, next: nat, b: Batch)
    requires Replayed(files, mem, seen, first, next)
    requires Ascending(seen + [b])
    ensures Replayed(files, mem + b.Entries(), seen + [b], first, next)
    ensures forall e, f :: e in Written(seen) && f in b.Entries() ==> e.key.sequence < f.key.sequence
  {
    WrittenAppend(seen, b);
    SeenIsOlder(seen, b);
    hide Written, Ascending, Batch.Entries;
    forall i | 0 <= i < |files|
      ensures OlderThan(files[i].contents, mem + b.Entries())
    {
      assert files[i] in Listed(files);
      forall e | e in files[i].contents ensures e in Written(seen) {
        assert e in Contents(Listed(files));
      }
    }
  }

  method RecoverLogFile(log: seq<Batch>, files: seq<File>, ghost seen: seq<Batch>, ghost first: nat, next: nat,
                        maxSequence: nat)
      returns (r: seq<File>, nextNumber: nat, newMax: nat)
    requires Replayed(files, {}, seen, first, next)
    requires Ascending(seen + log)
    requires forall b :: b in log ==> b.first > 0
    requires forall e :: e in Written(seen) ==> e.key.sequence <= maxSequence
    ensures Replayed(r, {}, seen + log, first, nextNumber)
    ensures maxSequence <= newMax && forall e :: e in Written(seen + log) ==> e.key.sequence <= newMax
    ensures forall b :: b in log ==> b.Last() <= newMax
    ensures newMax == maxSequence || exists b :: b in log && newMax == b.Last()
  {
    hide Replayed, Ascending, Written;
    r, nextNumber, newMax := files, next, maxSequence;
    var mem: set<Entry> := {};
    assert seen + log[..0] == seen;
    for i := 0 to |log|
      invariant Replayed(r, mem, seen + log[..i], first, nextNumber)
      invariant maxSequence <= newMax && forall e :: e in Written(seen + log[..i]) ==> e.key.sequence <= newMax
      invariant forall b :: b in log[..i] ==> b.Last() <= newMax
      invariant newMax == maxSequence || exists b :: b in log && newMax == b.Last()
    {
      var batch := log[i];
      var before := seen + log[..i];
      assert seen + log[..i + 1] == before + [batch];
      AscendingPrefix(seen + log, |seen| + i + 1);
      assert (seen + log)[..|seen| + i + 1] == before + [batch];
      ReplayOne(r, mem, before, first, nextNumber, batch);
      mem := AddBatch(batch, mem);
      WrittenAppend(before, batch);
      LastBounds(batch);
      var lastSeq := batch.Last();
      if lastSeq > newMax {
        newMax := lastSeq;
      }
      var full: bool := *;
      if full {
        r, nextNumber := WriteTable(r, mem, before + [batch], first, nextNumber);
        mem := {};
      }
    }
    assert log[..|log|] == log;
    r, nextNumber := WriteTable(r, mem, seen + log, first, nextNumber);
  }

  lemma AscendingPrefix(batches: seq<Batch>, n: nat)
    requires Ascending(batches) && n <= |batches|
    ensures Ascending(batches[..n])
  {
  }

  lemma LastBounds(b: Batch)
    ensures forall e :: e in b.Entries() ==> e.key.sequence <= b.Last()
  {
    forall e | e in b.Entries() ensures e.key.sequence <= b.Last() { EntryOfBatch(b, e); }
  }

  lemma NothingWritten()
    ensures Written([]) == {}
  {
  }
}
