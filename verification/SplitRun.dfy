// A run that reaches the version of SplitBoundary: the machine cuts a compaction's
// output inside a user key, and the selection then picks one of the two files.
module SplitRun {
  import opened Keys
  import opened Store
  import opened Lsm
  import opened CompactionSafety
  import opened Compaction
  import opened Lookup
  import opened Machine
  import opened MachineSafety
  import opened Options
  import opened Selection
  import opened SplitBoundary
  import Blocks
  import Coding
  import InternalKeys
  import Runs
  import TableFiles

  // Between writes and jobs.
  ghost predicate Calm(d: Db) {
    d.inLog.None? && d.imm.None? && d.stage.Idle? && d.logFile in d.logs
  }

  lemma Write(states: seq<Db>, actions: seq<Action>, ops: seq<Op>) returns (after: seq<Db>, more: seq<Action>)
    requires Run(states, actions) && Calm(states[|actions|])
    ensures Run(after, more) && Calm(after[|more|])
    ensures var d, e := states[|actions|], after[|more|];
            && e.mem == d.mem + Batch(d.lastSequence + 1, ops).Entries() && e.lastSequence == d.lastSequence + |ops|
            && e.levels == d.levels && e.snapshots == d.snapshots && e.nextFile == d.nextFile
  {
    hide Step, Init;
    var d := states[|actions|];
    var b := Batch(d.lastSequence + 1, ops);
    var d1 := d.(inLog := Some(b), logs := d.logs[d.logFile := d.logs[d.logFile] + [b]]);
    var d2 := d1.(inLog := None, mem := d.mem + b.Entries(), history := d.history + [b],
                  lastSequence := d.lastSequence + |ops|);
    WriteSteps(d, d1, d2, b);
    Runs.OneMoreStep(states, actions, d1, DoAppend(b));
    Runs.OneMoreStep(states + [d1], actions + [DoAppend(b)], d2, DoApply);
    after, more := states + [d1] + [d2], actions + [DoAppend(b)] + [DoApply];
  }

  lemma WriteSteps(d: Db, d1: Db, d2: Db, b: Batch)
    requires Calm(d) && b.first == d.lastSequence + 1
    requires d1 == d.(inLog := Some(b), logs := d.logs[d.logFile := d.logs[d.logFile] + [b]])
    requires d2 == d1.(inLog := None, mem := d.mem + b.Entries(), history := d.history + [b],
                       lastSequence := d.lastSequence + |b.ops|)
    ensures Step(d, d1, DoAppend(b)) && Step(d1, d2, DoApply)
  {
  }

  // The last three steps of every job.
  lemma Finish(states: seq<Db>, actions: seq<Action>) returns (after: seq<Db>, more: seq<Action>)
    requires Run(states, actions)
    requires var d := states[|actions|]; d.stage.Built? && Fitting(d.stage.job) && d.inLog.None? && d.logFile in d.logs
    ensures Run(after, more)
    ensures var d, e := states[|actions|], after[|more|];
            && e.levels == JobLevels(d.levels, d.stage.job) && e.stage.Idle? && e.inLog.None? && e.logFile in e.logs
            && e.imm == (if d.stage.job.IsFlush() then None else d.imm) && e.mem == d.mem
            && e.snapshots == d.snapshots && e.lastSequence == d.lastSequence && e.nextFile == d.nextFile
  {
    hide Step, Init, JobLevels, JobEdit;
    var d := states[|actions|];
    var job := d.stage.job;
    var record := Record(if job.IsFlush() then d.logFile else d.logNumber, d.nextFile, d.lastSequence);
    var d1 := d.(stage := Composed(job, record));
    var d2 := d1.(stage := Stage.Logged(job, record), edits := d.edits + [ManifestRecord(JobEdit(job), Some(record))],
                  manifest := record, manifestLevels := JobLevels(d.levels, job));
    var d3 := d2.(stage := Idle, levels := JobLevels(d.levels, job), logNumber := record.logNumber,
                  imm := if job.IsFlush() then None else d.imm, floor := RaisedFloor(d2));
    FinishSteps(d, d1, d2, d3);
    Runs.OneMoreStep(states, actions, d1, DoCompose);
    Runs.OneMoreStep(states + [d1], actions + [DoCompose], d2, DoLog);
    Runs.OneMoreStep(states + [d1] + [d2], actions + [DoCompose] + [DoLog], d3, DoInstall);
    after, more := states + [d1] + [d2] + [d3], actions + [DoCompose] + [DoLog] + [DoInstall];
  }

  lemma FinishSteps(d: Db, d1: Db, d2: Db, d3: Db)
    requires d.stage.Built? && Fitting(d.stage.job)
    requires var job := d.stage.job;
             var record := Record(if job.IsFlush() then d.logFile else d.logNumber, d.nextFile, d.lastSequence);
             && d1 == d.(stage := Composed(job, record))
             && d2 == d1.(stage := Stage.Logged(job, record),
                          edits := d.edits + [ManifestRecord(JobEdit(job), Some(record))],
                          manifest := record, manifestLevels := JobLevels(d.levels, job))
             && d3 == d2.(stage := Idle, levels := JobLevels(d.levels, job), logNumber := record.logNumber,
                          imm := if job.IsFlush() then None else d.imm, floor := RaisedFloor(d2))
    ensures Step(d, d1, DoCompose) && Step(d1, d2, DoLog) && Step(d2, d3, DoInstall)
  {
    hide JobLevels, JobEdit;
  }

  // Switch the memtable and flush it to this level.
  lemma FlushTo(states: seq<Db>, actions: seq<Action>, level: nat, f: File) returns (after: seq<Db>, more: seq<Action>)
    requires Run(states, actions) && Calm(states[|actions|])
    requires var d := states[|actions|];
             d.mem == f.contents && d.mem != {} && f.Valid() && f.number == d.nextFile + 1 &&
               Placeable(d.levels, level, f)
    ensures Run(after, more) && Calm(after[|more|]) && level < NUM_LEVELS
    ensures var d, e := states[|actions|], after[|more|];
            && e.levels == Place(d.levels, level, f) && e.mem == {} && e.nextFile == d.nextFile + 2
            && e.snapshots == d.snapshots && e.lastSequence == d.lastSequence
  {
    hide Step, Init, Placeable, File.Valid, Place;
    var d := states[|actions|];
    var d1 := d.(imm := Some(d.mem), mem := {}, logFile := d.nextFile, nextFile := d.nextFile + 1,
                 logs := d.logs[d.nextFile := []]);
    var d2 := d1.(stage := Built(Flush(level, f)), nextFile := d1.nextFile + 1, tables := d1.tables[f.number := f]);
    FlushSteps(d, d1, d2, level, f);
    Runs.OneMoreStep(states, actions, d1, DoSwitch);
    Runs.OneMoreStep(states + [d1], actions + [DoSwitch], d2, DoBuildFlush(level, f));
    after, more := Finish(states + [d1] + [d2], actions + [DoSwitch] + [DoBuildFlush(level, f)]);
  }

  lemma FlushSteps(d: Db, d1: Db, d2: Db, level: nat, f: File)
    requires Calm(d) && d.mem == f.contents && d.mem != {} && f.Valid() && f.number == d.nextFile + 1
    requires Placeable(d.levels, level, f)
    requires d1 == d.(imm := Some(d.mem), mem := {}, logFile := d.nextFile, nextFile := d.nextFile + 1,
                      logs := d.logs[d.nextFile := []])
    requires d2 == d1.(stage := Built(Flush(level, f)), nextFile := d1.nextFile + 1, tables := d1.tables[f.number := f])
    ensures Step(d, d1, DoSwitch) && Step(d1, d2, DoBuildFlush(level, f)) && level < NUM_LEVELS
  {
    hide File.Valid;
  }

  lemma CompactTo(states: seq<Db>, actions: seq<Action>, p: Plan, outputs: seq<File>, nextFile: nat)
      returns (after: seq<Db>, more: seq<Action>)
    requires Run(states, actions) && Calm(states[|actions|])
    requires var d := states[|actions|];
             && Selected(d.levels, p) && Closed(p.in1, d.levels[p.level + 1])
             && Outputs(d.levels, p, SmallestSnapshot(d), Listed(outputs)) && nextFile >= d.nextFile
             && NumbersAscend(outputs) && forall i :: 0 <= i < |outputs| ==> d.nextFile <= outputs[i].number < nextFile
    ensures Run(after, more) && Calm(after[|more|]) && p.level + 1 < NUM_LEVELS
    ensures var d, e := states[|actions|], after[|more|];
            && e.levels == Replace(d.levels, p, Listed(outputs)) && e.mem == d.mem && e.nextFile == nextFile
            && e.snapshots == d.snapshots && e.lastSequence == d.lastSequence
  {
    hide Step, Init, Inv, Outputs, Closed, Harmless, Replace, StoreAll;
    var d := states[|actions|];
    Runs.RunKeepsInv(states, actions, |actions|);
    InvIsReady(d, p);
    ClosedIsHarmless(d.mem + Imm(d), d.levels, p, SmallestSnapshot(d));
    var job := Compact(p, SmallestSnapshot(d), outputs);
    var d1 := d.(stage := Built(job), nextFile := nextFile, tables := StoreAll(d.tables, outputs));
    CompactStep(d, d1, p, outputs, nextFile);
    Runs.OneMoreStep(states, actions, d1, DoBuildCompaction(p, outputs, nextFile));
    after, more := Finish(states + [d1], actions + [DoBuildCompaction(p, outputs, nextFile)]);
  }

  lemma CompactStep(d: Db, d1: Db, p: Plan, outputs: seq<File>, nextFile: nat)
    requires Calm(d) && Selected(d.levels, p) && Harmless(d.mem + Imm(d), d.levels, p, SmallestSnapshot(d))
    requires Outputs(d.levels, p, SmallestSnapshot(d), Listed(outputs)) && nextFile >= d.nextFile
    requires NumbersAscend(outputs) && forall i :: 0 <= i < |outputs| ==> d.nextFile <= outputs[i].number < nextFile
    requires d1 == d.(stage := Built(Compact(p, SmallestSnapshot(d), outputs)), nextFile := nextFile,
                      tables := StoreAll(d.tables, outputs))
    ensures Step(d, d1, DoBuildCompaction(p, outputs, nextFile))
  {
    hide Outputs, Harmless, StoreAll;
  }

  lemma ChangeSnapshots(states: seq<Db>, actions: seq<Action>, a: Action) returns (after: seq<Db>, more: seq<Action>)
    requires Run(states, actions) && Calm(states[|actions|])
    requires a.DoTakeSnapshot? || (a.DoReleaseSnapshot? && a.i < |states[|actions|].snapshots|)
    ensures Run(after, more) && Calm(after[|more|])
    ensures var d, e := states[|actions|], after[|more|];
            && e == d.(snapshots := e.snapshots)
            && e.snapshots == if a.DoTakeSnapshot? then d.snapshots + [d.lastSequence]
                              else d.snapshots[..a.i] + d.snapshots[a.i + 1..]
  {
    var d := states[|actions|];
    var e := d.(snapshots := if a.DoTakeSnapshot? then d.snapshots + [d.lastSequence]
                             else d.snapshots[..a.i] + d.snapshots[a.i + 1..]);
    assert Step(d, e, a);
    Runs.OneMoreStep(states, actions, e, a);
    after, more := states + [e], actions + [a];
  }

  // ---- The run ----

  const FIRST_OPS: seq<Op> := [Op(KEY_A, Value, [2]), Op(KEY_B, Value, [3])]
  const FIRST_FILE := File(5, 2_097_400, OLD.key, BURIED.key, {OLD, BURIED})
  const SECOND_FILE := File(7, 2_097_400, TOMBSTONE.key, TOMBSTONE.key, {TOMBSTONE})
  const MERGE := Plan(1, {SECOND_FILE}, {FIRST_FILE}, KEY_B, KEY_B)
  const NONE: Levels := [{}, {}, {}, {}, {}, {}, {}]
  const ONE: Levels := [{}, {}, {FIRST_FILE}, {}, {}, {}, {}]
  const TWO: Levels := [{}, {SECOND_FILE}, {FIRST_FILE}, {}, {}, {}, {}]
  const CUT: Levels := [{}, {}, {LOWER_FILE, NEXT_FILE}, {}, {}, {}, {}]

  lemma OneOp(first: nat, op: Op)
    ensures Batch(first, [op]).Entries() == {Entry(IKey(op.user, first, op.kind), op.value)}
  {
    assert [op][0] == op;
  }

  lemma FirstEntries()
    ensures Batch(1, FIRST_OPS).Entries() == {OLD, BURIED}
  {
    assert FIRST_OPS[0] == Op(KEY_A, Value, [2]) && FIRST_OPS[1] == Op(KEY_B, Value, [3]);
  }

  lemma FilesAreSound()
    ensures FIRST_FILE.Valid() && SECOND_FILE.Valid() && UPPER_FILE.Valid()
  {
    KeysDiffer();
    assert OLD in FIRST_FILE.contents && BURIED in FIRST_FILE.contents;
    assert TOMBSTONE in SECOND_FILE.contents && TOP in UPPER_FILE.contents;
  }

  lemma Places()
    ensures Placeable(NONE, 2, FIRST_FILE) && Place(NONE, 2, FIRST_FILE) == ONE
    ensures Placeable(ONE, 1, SECOND_FILE) && Place(ONE, 1, SECOND_FILE) == TWO
    ensures Placeable(CUT, 1, UPPER_FILE) && Place(CUT, 1, UPPER_FILE) == SPLIT_LEVELS
  {
    assert NONE[2] + {FIRST_FILE} == {FIRST_FILE};
    assert ONE[1] + {SECOND_FILE} == {SECOND_FILE};
    assert CUT[1] + {UPPER_FILE} == {UPPER_FILE};
  }

  lemma MergeSelected()
    ensures Selected(TWO, MERGE) && Closed(MERGE.in1, TWO[2])
  {
    KeysDiffer();
    assert FIRST_FILE.Overlaps(KEY_B, KEY_B);
    assert (set g | g in TWO[2] && g.Overlaps(KEY_B, KEY_B)) == {FIRST_FILE};
    assert TWO[1] - MERGE.in0 == {} && TWO[2] - MERGE.in1 == {};
  }

  const BLOCK_SIZE: nat := 4096

  ghost function DataOf(entries: seq<Entry>): seq<Byte> {
    Blocks.Data(TableFiles.PairsOf(entries), [0])
  }

  // The first entry stays in the open block; with the tombstone the block is
  // written, and the file is as large as an output may get.  So it ends there.
  lemma CutIsForced()
    ensures |DataOf([OLD])| + 8 < BLOCK_SIZE <= MAX_FILE_SIZE <= |DataOf([OLD, TOMBSTONE])|
    ensures MAX_FILE_SIZE <= |DataOf([BURIED])|
  {
    FirstPair(OLD);
    FirstPair(BURIED);
    var pairs := TableFiles.PairsOf([OLD, TOMBSTONE]);
    assert pairs[0].key == InternalKeys.EncodeKey(OLD.key) && pairs[1].key == InternalKeys.EncodeKey(TOMBSTONE.key);
    assert Blocks.Data(pairs, [0]) == Blocks.Data(pairs[..1], [0]) +
           Blocks.PairBytes(pairs[1], Blocks.SharedAt(pairs, [0], 1));
  }

  lemma FirstPair(e: Entry)
    ensures var n := |e.key.user| + 8;
            |DataOf([e])| == |Coding.Varint(0)| + |Coding.Varint(n)| + |Coding.Varint(|e.value|)| + n + |e.value|
  {
    var pairs := TableFiles.PairsOf([e]);
    assert |pairs| == 1 && pairs[0] == TableFiles.PairOf(e) && pairs[..0] == [];
    assert Blocks.Data(pairs, [0]) == Blocks.Data([], [0]) + Blocks.PairBytes(pairs[0], 0);
  }

  // A snapshot keeps the value under the tombstone, so both are written.
  lemma MergeOutputs()
    ensures Outputs(TWO, MERGE, 2, Listed([LOWER_FILE, NEXT_FILE]))
    ensures Replace(TWO, MERGE, Listed([LOWER_FILE, NEXT_FILE])) == CUT
  {
    hide Contents, Listed, Kept, FilesValid, Disjoint;
    TwoListed();
    SplitFilesSound();
    AllKept();
    BothContents();
    assert TWO[1] - MERGE.in0 == {} && TWO[2] - MERGE.in1 + {LOWER_FILE, NEXT_FILE} == {LOWER_FILE, NEXT_FILE};
  }

  lemma TwoListed()
    ensures Listed([LOWER_FILE, NEXT_FILE]) == {LOWER_FILE, NEXT_FILE}
  {
    var files := [LOWER_FILE, NEXT_FILE];
    assert files[0] == LOWER_FILE && files[1] == NEXT_FILE;
  }

  lemma BothContents()
    ensures Contents({LOWER_FILE, NEXT_FILE}) == {OLD, TOMBSTONE, BURIED}
  {
    assert OLD in LOWER_FILE.contents && TOMBSTONE in LOWER_FILE.contents && BURIED in NEXT_FILE.contents;
  }

  lemma AllKept()
    ensures Kept(TWO, MERGE, 2) == {OLD, TOMBSTONE, BURIED}
  {
    assert OLD in FIRST_FILE.contents && BURIED in FIRST_FILE.contents && TOMBSTONE in SECOND_FILE.contents;
    assert MERGE.Inputs() == {OLD, TOMBSTONE, BURIED};
    KeysDiffer();
    assert !Hidden(MERGE.Inputs(), 2, OLD) && !Hidden(MERGE.Inputs(), 2, BURIED) &&
           !Hidden(MERGE.Inputs(), 2, TOMBSTONE);
  }

  // Two flushes, with a snapshot in between.
  lemma TwoFlushes() returns (states: seq<Db>, actions: seq<Action>)
    ensures Run(states, actions) && Calm(states[|actions|])
    ensures var d := states[|actions|];
            d.levels == TWO && d.mem == {} && d.snapshots == [2] && d.lastSequence == 3 && d.nextFile == 8
  {
    hide Step, Place, Placeable, File.Valid, Batch.Entries;
    var d := NewDb();
    states, actions := [d], [];
    assert d.levels == NONE;
    FilesAreSound();
    Places();
    FirstEntries();
    states, actions := Write(states, actions, FIRST_OPS);
    states, actions := FlushTo(states, actions, 2, FIRST_FILE);
    states, actions := ChangeSnapshots(states, actions, DoTakeSnapshot);
    OneOp(3, Op(KEY_B, Deletion, []));
    states, actions := Write(states, actions, [Op(KEY_B, Deletion, [])]);
    states, actions := FlushTo(states, actions, 1, SECOND_FILE);
  }

  // The machine reaches the version: two flushes, a compaction under a snapshot
  // whose outputs are cut inside a user key, and one more flush.
  lemma SplitIsReached() returns (states: seq<Db>, actions: seq<Action>)
    ensures Run(states, actions)
    ensures var d := states[|actions|];
            d.levels == SPLIT_LEVELS && d.mem == {} && d.imm.None? && d.stage.Idle? && SmallestSnapshot(d) == 4
  {
    hide Step, Init, Place, Placeable, Replace, Selected, Outputs, Closed, Listed, File.Valid, Batch.Entries;
    FilesAreSound();
    Places();
    MergeSelected();
    MergeOutputs();
    states, actions := TwoFlushes();
    states, actions := CompactTo(states, actions, MERGE, [LOWER_FILE, NEXT_FILE], 10);
    states, actions := ChangeSnapshots(states, actions, DoReleaseSnapshot(0));
    OneOp(4, Op(KEY_A, Value, [1]));
    states, actions := Write(states, actions, [Op(KEY_A, Value, [1])]);
    states, actions := FlushTo(states, actions, 1, UPPER_FILE);
  }

  // ---- The selection ----

  const SPLIT_FILES: seq<seq<File>> := [[], [UPPER_FILE], [LOWER_FILE, NEXT_FILE], [], [], [], []]

  lemma SplitFilesListed()
    ensures Holds7(SPLIT_FILES, SPLIT_LEVELS)
  {
    SplitFilesSound();
    assert SPLIT_FILES[2][0] == LOWER_FILE && SPLIT_FILES[2][1] == NEXT_FILE && SPLIT_FILES[1][0] == UPPER_FILE;
    assert Listed(SPLIT_FILES[2]) == {LOWER_FILE, NEXT_FILE} && Listed(SPLIT_FILES[1]) == {UPPER_FILE};
    KeysDiffer();
  }

  // SetupOtherInputs picks just these inputs, and leaves the lower ones open.
  method SplitIsPicked(limit: nat) returns (in0: seq<File>, in1: seq<File>)
    ensures Listed(in0) == SPLIT_PLAN.in0 && Listed(in1) == SPLIT_PLAN.in1
    ensures !Closed(Listed(in1), SPLIT_LEVELS[2])
  {
    hide Shaped, Selected, UniqueSequences, Closed;
    SplitLevelsShaped();
    SplitReadBefore();
    SplitFilesListed();
    SplitPlanSelected();
    assert IsRun(SPLIT_FILES[1], 0, [UPPER_FILE]);
    var smallest, largest;
    in0, in1, smallest, largest := SetupOtherInputs(SPLIT_FILES, SPLIT_LEVELS, 1, [UPPER_FILE], limit);
    OnlyPlan(in0, in1, smallest, largest);
  }

  lemma OnlyPlan(in0: seq<File>, in1: seq<File>, smallest: IKey, largest: IKey)
    requires Selected(SPLIT_LEVELS, Plan(1, Listed(in0), Listed(in1), smallest.user, largest.user))
    requires UPPER_FILE in in0 && SmallestOf(in0, smallest) && LargestOf(in0, largest)
    ensures Listed(in0) == {UPPER_FILE} && Listed(in1) == {LOWER_FILE}
  {
    KeysDiffer();
    assert Listed(in0) <= {UPPER_FILE};
    assert UPPER_FILE in Listed(in0);
    assert smallest == TOP.key && largest == TOP.key;
    assert LOWER_FILE.Overlaps(KEY_A, KEY_A) && !NEXT_FILE.Overlaps(KEY_A, KEY_A);
  }
}
