// One turn of the background thread: select, merge, write, or move a file, or
// flush the memtable (db/db_impl.cc, db/version_set.cc).  What it does is a step
// of the machine.
module BackgroundCompactions {
  import opened Keys
  import opened Store
  import opened Lsm
  import opened CompactionSafety
  import opened Compaction
  import opened DbIter
  import opened Fidelity
  import opened Lookup
  import opened Machine
  import opened MachineSafety
  import opened Merger
  import opened Options
  import opened Recovery
  import opened Selection

  // ---- The merged input ----

  // A table's iterator yields its entries in order.
  ghost predicate ReadsTables(table: File -> seq<Entry>, files: set<File>) {
    forall f :: f in files ==> SortedEntries(table(f)) && Elements(table(f)) == f.contents
  }

  ghost predicate Distinct(files: seq<File>) {
    forall i, j :: 0 <= i < j < |files| ==> files[i] != files[j]
  }

  // Files of a sorted level are read one after the other.
  function Concat(files: seq<File>, table: File -> seq<Entry>): seq<Entry> {
    if files == [] then [] else Concat(files[..|files| - 1], table) + table(files[|files| - 1])
  }

  // MakeInputIterator: level-0 files each by itself, a deeper level as a whole.
  function Sources(level0: bool, files: seq<File>, table: File -> seq<Entry>): seq<seq<Entry>> {
    if level0 then seq(|files|, i requires 0 <= i < |files| => table(files[i]))
    else if files == [] then []
    else [Concat(files, table)]
  }

  ghost predicate Apart(sources: seq<seq<Entry>>) {
    && (forall i :: 0 <= i < |sources| ==> SortedEntries(sources[i]))
    && forall i, j :: 0 <= i < j < |sources| ==> Elements(sources[i]) !! Elements(sources[j])
  }

  ghost function Union(sources: seq<seq<Entry>>): set<Entry> {
    set i, e | 0 <= i < |sources| && e in sources[i] :: e
  }

  lemma {:induction false} ConcatSorted(files: seq<File>, table: File -> seq<Entry>)
    requires SortedFiles(files) && ReadsTables(table, Listed(files))
    ensures SortedEntries(Concat(files, table)) && Elements(Concat(files, table)) == Contents(Listed(files))
  {
    if files != [] {
      var n := |files| - 1;
      LastFile(files, table);
      ConcatSorted(files[..n], table);
      FrontApart(files, Concat(files[..n], table), table(files[n]));
      TwoSorted(Concat(files[..n], table), table(files[n]));
    }
  }

  lemma LastFile(files: seq<File>, table: File -> seq<Entry>)
    requires files != [] && SortedFiles(files) && ReadsTables(table, Listed(files))
    ensures var n := |files| - 1;
            && SortedFiles(files[..n]) && ReadsTables(table, Listed(files[..n])) && ReadsTables(table, {files[n]})
            && Contents(Listed(files)) == Contents(Listed(files[..n])) + files[n].contents
  {
    hide File.Valid, Before, Contents;
    var n := |files| - 1;
    assert files == files[..n] + [files[n]] && files[n] in Listed(files);
    AppendedContents(files[..n], files[n]);
    assert forall f :: f in Listed(files[..n]) ==> f in Listed(files);
  }

  lemma FrontApart(files: seq<File>, a: seq<Entry>, b: seq<Entry>)
    requires files != [] && SortedFiles(files)
    requires Elements(a) == Contents(Listed(files[..|files| - 1])) && Elements(b) == files[|files| - 1].contents
    ensures forall i, j :: 0 <= i < |a| && 0 <= j < |b| ==> Before(a[i].key, b[j].key)
  {
    hide SortedFiles;
    var n := |files| - 1;
    forall i, j | 0 <= i < |a| && 0 <= j < |b| ensures Before(a[i].key, b[j].key) {
      assert a[i] in Elements(a) && b[j] in Elements(b);
      var f := InContents(Listed(files[..n]), a[i]);
      var k :| 0 <= k < n && files[k] == f;
      FilesApart(files, k, n, a[i], b[j]);
    }
  }

  lemma TwoSorted(a: seq<Entry>, b: seq<Entry>)
    requires SortedEntries(a) && SortedEntries(b)
    requires forall i, j :: 0 <= i < |a| && 0 <= j < |b| ==> Before(a[i].key, b[j].key)
    ensures SortedEntries(a + b) && Elements(a + b) == Elements(a) + Elements(b)
  {
    hide Before;
  }

  lemma FilesApart(files: seq<File>, i: nat, j: nat, e: Entry, g: Entry)
    requires SortedFiles(files) && i < j < |files| && e in files[i].contents && g in files[j].contents
    ensures Before(e.key, g.key)
  {
    assert files[i].Valid() && files[j].Valid();
    InternalKeysOrdered();
  }

  lemma {:induction false} TouchingDistinct(files: seq<File>, r: Range)
    requires Distinct(files)
    ensures Distinct(Touching(files, r))
  {
    if files != [] {
      TouchingDistinct(files[..|files| - 1], r);
      InTouching(files[..|files| - 1], r);
    }
  }

  // The sources of one level: apart, and together its files.
  lemma LevelSources(files: seq<seq<File>>, levels: Levels, l: nat, inputs: seq<File>, table: File -> seq<Entry>)
    requires Holds7(files, levels) && Shaped(levels) && UniqueSequences(All(levels)) && l < NUM_LEVELS
    requires inputs == [] || Pickable(files[l], l == 0, inputs)
    requires ReadsTables(table, levels[l]) && (l == 0 ==> Distinct(files[l]))
    ensures Apart(Sources(l == 0, inputs, table)) && Union(Sources(l == 0, inputs, table)) == Contents(Listed(inputs))
    ensures Listed(inputs) <= levels[l]
  {
    hide Shaped, UniqueSequences, Apart, Union, Contents, SortedFiles, All, Elements, SortedEntries;
    if inputs == [] {
      NoSources();
      assert Sources(l == 0, inputs, table) == [];
    } else {
      LevelFacts(files, levels, l);
      PickedFiles(files[l], l == 0, inputs);
      if l == 0 {
        Level0Sources(levels, inputs, table);
      } else {
        ConcatSorted(inputs, table);
        OneSource(Concat(inputs, table));
      }
    }
  }

  lemma PickedFiles(levelFiles: seq<File>, level0: bool, inputs: seq<File>)
    requires Pickable(levelFiles, level0, inputs) && (if level0 then Distinct(levelFiles) else SortedFiles(levelFiles))
    ensures Listed(inputs) <= Listed(levelFiles) && if level0 then Distinct(inputs) else SortedFiles(inputs)
  {
    hide File.Valid, Before;
    if level0 {
      var r: Range :| ClosedRange(levelFiles, r) && inputs == Touching(levelFiles, r);
      TouchingDistinct(levelFiles, r);
      InTouching(levelFiles, r);
    } else {
      var start: nat :| IsRun(levelFiles, start, inputs);
    }
  }

  lemma NoSources()
    ensures Apart([]) && Union([]) == {} && Contents(Listed([])) == {}
  {
  }

  lemma OneSource(entries: seq<Entry>)
    requires SortedEntries(entries)
    ensures Apart([entries]) && Union([entries]) == Elements(entries)
  {
    assert [entries][0] == entries;
  }

  lemma Level0Sources(levels: Levels, inputs: seq<File>, table: File -> seq<Entry>)
    requires Shaped(levels) && Listed(inputs) <= levels[0] && Distinct(inputs) && ReadsTables(table, levels[0])
    ensures Apart(Sources(true, inputs, table)) && Union(Sources(true, inputs, table)) == Contents(Listed(inputs))
  {
    hide Shaped;
    FileByFile(inputs, table);
    forall i | 0 <= i < |inputs| ensures SortedEntries(table(inputs[i])) {
      assert inputs[i] in Listed(inputs);
    }
    forall i, j, e | 0 <= i < j < |inputs| && e in inputs[i].contents ensures e !in inputs[j].contents {
      assert inputs[i] in Listed(inputs) && inputs[j] in Listed(inputs);
      if e in inputs[j].contents { OnePlace(levels, 0, inputs[i], 0, inputs[j], e); }
    }
  }

  lemma FileByFile(files: seq<File>, table: File -> seq<Entry>)
    requires ReadsTables(table, Listed(files))
    ensures Union(Sources(true, files, table)) == Contents(Listed(files))
    ensures forall i :: 0 <= i < |files| ==> Elements(Sources(true, files, table)[i]) == files[i].contents
  {
    var sources := Sources(true, files, table);
    forall i | 0 <= i < |files| ensures Elements(sources[i]) == files[i].contents {
      assert files[i] in Listed(files);
    }
    forall e | e in Contents(Listed(files)) ensures e in Union(sources) {
      var f := InContents(Listed(files), e);
      var i :| 0 <= i < |files| && files[i] == f;
      assert e in Elements(sources[i]);
    }
    forall e | e in Union(sources) ensures e in Contents(Listed(files)) {
      var i :| 0 <= i < |sources| && e in sources[i];
      assert e in Elements(sources[i]) && files[i] in Listed(files);
    }
  }

  lemma TogetherApart(a: seq<seq<Entry>>, b: seq<seq<Entry>>)
    requires Apart(a) && Apart(b) && Union(a) !! Union(b)
    ensures Apart(a + b) && Union(a + b) == Union(a) + Union(b)
  {
    var all := a + b;
    forall i, j, e | 0 <= i < j < |all| && e in all[i] ensures e !in all[j] {
      if i < |a| && |a| <= j {
        assert e in Union(a) && e !in Union(b) && all[j] == b[j - |a|];
      } else if j < |a| {
        assert e in Elements(a[i]) && e !in Elements(a[j]);
      } else {
        assert e in Elements(b[i - |a|]) && e !in Elements(b[j - |a|]);
      }
    }
    forall e | e in Union(a) + Union(b) ensures e in Union(all) {
      if e in Union(a) {
        var i :| 0 <= i < |a| && e in a[i];
        assert e in all[i];
      } else {
        var i :| 0 <= i < |b| && e in b[i];
        assert e in all[|a| + i];
      }
    }
  }

  // Entries with sequence numbers of their own can be put in order.
  lemma {:induction false} SortedExists(store: set<Entry>) returns (merged: seq<Entry>)
    requires UniqueSequences(store)
    ensures SortedEntries(merged) && Elements(merged) == store
    decreases store
  {
    merged := [];
    if store != {} {
      var e :| e in store;
      var rest := SortedExists(store - {e});
      var p := FallsSomewhere(rest, e.key);
      KeyIsNew(store, rest, e);
      merged := rest[..p] + [e] + rest[p..];
      Inserted(rest, e, p);
    }
  }

  lemma KeyIsNew(store: set<Entry>, rest: seq<Entry>, e: Entry)
    requires UniqueSequences(store) && e in store && Elements(rest) == store - {e}
    ensures forall i :: 0 <= i < |rest| ==> rest[i].key != e.key
  {
    forall i | 0 <= i < |rest| ensures rest[i].key != e.key {
      assert rest[i] in Elements(rest);
    }
  }

  lemma Inserted(rest: seq<Entry>, e: Entry, p: nat)
    requires SortedEntries(rest) && p <= |rest| && Falls(rest, p, e.key)
    requires forall i :: 0 <= i < |rest| ==> rest[i].key != e.key
    ensures SortedEntries(rest[..p] + [e] + rest[p..]) && Elements(rest[..p] + [e] + rest[p..]) == Elements(rest) + {e}
  {
    hide Before;
    forall i | p <= i < |rest| ensures Before(e.key, rest[i].key) {
      ComesAfter(e.key, rest[i].key);
    }
    assert rest == rest[..p] + rest[p..];
  }

  lemma ComesAfter(a: IKey, b: IKey)
    requires !Before(b, a) && a != b
    ensures Before(a, b)
  {
    InternalKeysOrdered();
  }

  // An iterator on each source.
  method MakeChildren(sources: seq<seq<Entry>>) returns (children: seq<InternalIterator>)
    requires forall i :: 0 <= i < |sources| ==> SortedEntries(sources[i])
    ensures |children| == |sources|
    ensures forall k :: 0 <= k < |children| ==>
              fresh(children[k]) && children[k].Ok() &&
              children[k].entries == sources[k]
    ensures forall j, k :: 0 <= j < k < |children| ==> children[j] != children[k]
  {
    children := [];
    for i := 0 to |sources|
      invariant |children| == i
      invariant forall k :: 0 <= k < i ==> fresh(children[k]) && children[k].Ok() && children[k].entries == sources[k]
      invariant forall j, k :: 0 <= j < k < i ==> children[j] != children[k]
    {
      var child := new InternalIterator(sources[i]);
      children := children + [child];
    }
  }

  // The merging iterator, read to its end.
  method MergeInputs(sources: seq<seq<Entry>>, ghost store: set<Entry>) returns (input: seq<Entry>)
    requires Apart(sources) && Union(sources) == store && UniqueSequences(store)
    ensures SortedEntries(input) && Elements(input) == store
  {
    hide Union, Elements, Cut, UniqueSequences, MergingIterator.Shares;
    ghost var merged := SortedExists(store);
    var children := MakeChildren(sources);
    Shared(children, sources, merged);
    var it := new MergingIterator(children, merged);
    input := ReadToEnd(it);
  }

  method ReadToEnd(it: MergingIterator) returns (input: seq<Entry>)
    requires it.Ok()
    modifies it, it.children
    ensures input == it.merged
  {
    hide Cut, MergingIterator.Shares, SortedEntries;
    it.SeekToFirst();
    input := [];
    while it.current.Some?
      invariant it.Ok() && input == it.merged[..it.pos]
      decreases |it.merged| - it.pos
    {
      var child := it.children[it.current.value];
      input := input + [child.entries[child.pos]];
      it.Next();
    }
  }

  lemma Shared(children: seq<InternalIterator>, sources: seq<seq<Entry>>, merged: seq<Entry>)
    requires Apart(sources) && SortedEntries(merged) && Elements(merged) == Union(sources)
    requires |children| == |sources| && forall k :: 0 <= k < |children| ==> children[k].entries == sources[k]
    requires forall j, k :: 0 <= j < k < |children| ==> children[j] != children[k]
    ensures MergingIterator.Shares(children, merged)
  {
    forall i, e | 0 <= i < |children| && e in children[i].entries ensures e in merged {
      assert e in sources[i] && e in Union(sources);
    }
    forall e | e in merged ensures exists i :: 0 <= i < |children| && e in children[i].entries {
      assert e in Elements(merged);
      var i :| 0 <= i < |sources| && e in sources[i];
      assert e in children[i].entries;
    }
    forall i, j, e | 0 <= i < j < |children| && e in children[i].entries ensures e !in children[j].entries {
      assert e in Elements(sources[i]) && e !in Elements(sources[j]);
    }
  }

  // ---- The compaction that was selected ----

  // Its input, merged.
  method MakeInputIterator(files: seq<seq<File>>, ghost levels: Levels, p: Plan, in0: seq<File>, in1: seq<File>,
                           table: File -> seq<Entry>)
      returns (input: seq<Entry>)
    requires Holds7(files, levels) && Shaped(levels) && UniqueSequences(All(levels)) && Selected(levels, p)
    requires p.in0 == Listed(in0) && p.in1 == Listed(in1)
    requires Pickable(files[p.level], p.level == 0, in0) && (in1 == [] || Pickable(files[p.level + 1], false, in1))
    requires Distinct(files[0]) && ReadsTables(table, levels[p.level] + levels[p.level + 1])
    ensures SortedEntries(input) && Elements(input) == p.Inputs() && UniqueSequences(p.Inputs())
  {
    hide Shaped, SortedEntries, Elements, Union, Apart, Listed, Contents, All, Pickable, Sources;
    LevelSources(files, levels, p.level, in0, table);
    LevelSources(files, levels, p.level + 1, in1, table);
    InputsApart(levels, p);
    var a, b := Sources(p.level == 0, in0, table), Sources(false, in1, table);
    TogetherApart(a, b);
    input := MergeInputs(a + b, p.Inputs());
  }

  lemma InputsApart(levels: Levels, p: Plan)
    requires Shaped(levels) && UniqueSequences(All(levels)) && Selected(levels, p)
    ensures Contents(p.in0) !! Contents(p.in1) && Contents(p.in0) + Contents(p.in1) == p.Inputs()
    ensures UniqueSequences(p.Inputs())
  {
    hide Shaped;
    AllInputs(levels, p);
    FewerUnique(p.Inputs(), All(levels));
    forall e | e in Contents(p.in0) ensures e !in Contents(p.in1) {
      var f := InContents(p.in0, e);
      if e in Contents(p.in1) {
        var g := InContents(p.in1, e);
        OnePlace(levels, p.level, f, p.level + 1, g, e);
      }
    }
  }

  // DoCompactionWork on it.
  method WriteOutputs(files: seq<seq<File>>, ghost levels: Levels, p: Plan, in0: seq<File>, in1: seq<File>,
                      table: File -> seq<Entry>, snap: nat, nextFile: nat)
      returns (outputs: seq<File>, next: nat)
    requires Holds7(files, levels) && Shaped(levels) && UniqueSequences(All(levels)) && Selected(levels, p)
    requires p.in0 == Listed(in0) && p.in1 == Listed(in1)
    requires Pickable(files[p.level], p.level == 0, in0) && (in1 == [] || Pickable(files[p.level + 1], false, in1))
    requires Distinct(files[0]) && ReadsTables(table, levels[p.level] + levels[p.level + 1])
    requires snap < MAX_SEQUENCE
    ensures Outputs(levels, p, snap, Listed(outputs))
    ensures next >= nextFile && NumbersAscend(outputs)
    ensures forall i :: 0 <= i < |outputs| ==> nextFile <= outputs[i].number < next
  {
    hide Shaped, SortedEntries, Elements, Listed, Contents, All, Pickable, Outputs, UniqueSequences, SortedFiles;
    var input := MakeInputIterator(files, levels, p, in0, in1, table);
    var c := new Compaction(p.level, files);
    outputs, next := c.DoCompactionWork(input, snap, nextFile);
    c.WritesOutputs(levels, p, input, snap, outputs);
  }

  // The compaction step that builds these files, whether it is allowed or not.
  function CompactedDb(d: Db, job: Job, nextFile: nat): Db
    requires job.Compact?
  {
    d.(stage := Built(job), nextFile := nextFile, tables := StoreAll(d.tables, job.outputs))
  }

  // Compaction::IsTrivialMove.
  method IsTrivialMove(files: seq<seq<File>>, level: nat, in0: seq<File>, in1: seq<File>, maxGrandParentOverlap: nat)
      returns (r: bool)
    requires |files| == NUM_LEVELS && in0 != []
    ensures r ==> |in0| == 1 && in1 == []
  {
    var start, limit := GetRange(in0 + in1);
    var grandparents := [];
    if level + 2 < NUM_LEVELS {
      ghost var range;
      grandparents, range := GetOverlappingInputs(files[level + 2], false, Span(start, limit));
    }
    var overlap := TotalFileSize(grandparents);
    r := |in0| == 1 && |in1| == 0 && overlap <= maxGrandParentOverlap;
  }

  // DBImpl::BackgroundCompaction, for whatever was picked: a file is moved, or
  // the inputs are selected, merged and written.  Either is a step of the machine,
  // a compaction just when it is harmless, and always with closed inputs.
  method BackgroundCompaction(files: seq<seq<File>>, ghost d: Db, table: File -> seq<Entry>, level: nat,
                              picked: seq<File>,
                              manual: bool, expandedLimit: nat, maxGrandParentOverlap: nat, snap: nat, nextFile: nat)
      returns (job: Job, next: nat)
    requires Inv(d) && d.stage.Idle? && Holds7(files, d.levels) && Distinct(files[0])
    requires level + 1 < NUM_LEVELS && Pickable(files[level], level == 0, picked)
    requires ReadsTables(table, d.levels[level] + d.levels[level + 1])
    requires snap == SmallestSnapshot(d) < MAX_SEQUENCE && nextFile == d.nextFile
    ensures job.Move? || job.Compact?
    ensures job.plan.level == level && forall f :: f in picked ==> f in job.plan.in0
    ensures job.Move? ==> !manual && next == nextFile && BuildMove(d, d.(stage := Built(job)), job.plan, job.moved)
    ensures job.Compact? ==>
              && job.snap == snap && Selected(d.levels, job.plan) &&
                Outputs(d.levels, job.plan, snap, Listed(job.outputs))
              && (BuildCompaction(d, CompactedDb(d, job, next), job.plan, job.outputs, next) <==>
                  Harmless(d.mem + Imm(d), d.levels, job.plan, snap))
              && (Closed(job.plan.in1, d.levels[level + 1]) ==> Harmless(d.mem + Imm(d), d.levels, job.plan, snap))
  {
    hide Inv, Shaped, Selected, All, Outputs, ClosedRange, IsRun, Harmless, Closed, UniqueSequences, NoBoundaryLeft,
         SmallestOf, LargestOf, ReadsTables;
    InvShape(d);
    var in0, in1, smallest, largest := SetupOtherInputs(files, d.levels, level, picked, expandedLimit);
    PickedLower(files, d.levels, level + 1, Span(smallest, largest));
    var p := Plan(level, (set f | f in in0), (set f | f in in1), smallest.user, largest.user);
    InvIsReady(d, p);
    var trivial := IsTrivialMove(files, level, in0, in1, maxGrandParentOverlap);
    if !manual && trivial {
      job, next := Move(p, in0[0]), nextFile;
    } else {
      var outputs;
      outputs, next := WriteOutputs(files, d.levels, p, in0, in1, table, snap, nextFile);
      job := Compact(p, snap, outputs);
      IfClosed(d, p, snap);
    }
  }

  lemma IfClosed(d: Db, p: Plan, snap: nat)
    requires Ready(d.mem + Imm(d), d.levels, p) && p.level + 1 < NUM_LEVELS
    ensures Closed(p.in1, d.levels[p.level + 1]) ==> Harmless(d.mem + Imm(d), d.levels, p, snap)
  {
    hide Ready, Closed, Harmless;
    if Closed(p.in1, d.levels[p.level + 1]) { ClosedIsHarmless(d.mem + Imm(d), d.levels, p, snap); }
  }

  lemma InvShape(d: Db)
    requires Inv(d)
    ensures Shaped(d.levels) && UniqueSequences(All(d.levels))
  {
    hide Shaped;
    FewerUnique(All(d.levels), Written(d.history));
  }

  lemma PickedLower(files: seq<seq<File>>, levels: Levels, l: nat, r: Range)
    requires Holds7(files, levels) && 0 < l < NUM_LEVELS
    ensures Touching(files[l], r) == [] || Pickable(files[l], false, Touching(files[l], r))
  {
    var start := TouchingIsRun(files[l], r);
  }

  // DBImpl::CompactMemTable up to LogAndApply: a step of the machine.
  method CompactMemTable(files: seq<seq<File>>, ghost d: Db, imm: set<Entry>, maxGrandParentOverlap: nat, nextFile: nat)
      returns (job: Job, next: nat)
    requires Inv(d) && d.stage.Idle? && Holds7(files, d.levels) && d.imm == Some(imm) && nextFile == d.nextFile
    requires forall l :: 1 <= l < NUM_LEVELS ==> SequencesFit(files[l])
    ensures job == FlushEmpty || (job.Flush? && job.file.number == nextFile && job.file.contents == imm)
    ensures var tables := if job.Flush? then d.tables[nextFile := job.file] else d.tables;
            var d' := d.(stage := Built(job), nextFile := next, tables := tables);
            if job.Flush? then BuildFlush(d, d', job.level, job.file)
            else forall level, f :: BuildFlush(d, d', level, f)
  {
    hide Inv, Placeable, File.Valid, SequencesFit, SortedFiles;
    next := nextFile + 1;
    if imm == {} {
      job := FlushEmpty;
    } else {
      var f := BuildTable(imm, nextFile);
      var level := PickLevelForMemTableOutput(files, d.levels, f, maxGrandParentOverlap);
      job := Flush(level, f);
    }
  }
}
