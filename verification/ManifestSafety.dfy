// The records of the manifest yield the version's files, whatever the machine
// does, and no file number is used twice (db/version_set.cc).
module ManifestSafety {
  import opened Keys
  import opened Lsm
  import opened CompactionSafety
  import opened Compaction
  import opened Machine
  import opened Options
  import Manifest

  // ---- One more record ----

  lemma RecordAdded(logged: seq<ManifestRecord>, r: ManifestRecord, l: nat)
    ensures EditsOf(logged + [r]) == EditsOf(logged) + [r.edit]
    ensures NamedAt(logged + [r], l) == NamedAt(logged, l) + r.edit.AddedAt(l)
    ensures Manifest.AfterAll({}, EditsOf(logged + [r]), l) ==
            Manifest.After(Manifest.AfterAll({}, EditsOf(logged), l), r.edit, l)
    ensures LastRecord(logged + [r]) == if r.record.Some? then r.record else LastRecord(logged)
  {
    hide Manifest.After, Manifest.Edit.AddedAt;
    var more := logged + [r];
    assert more[..|logged|] == logged;
    assert EditsOf(more) == EditsOf(logged) + [r.edit];
    assert EditsOf(more)[..|logged|] == EditsOf(logged);
  }

  lemma AddedOnceMore(edits: seq<Manifest.Edit>, e: Manifest.Edit, l: nat)
    requires Manifest.AddedOnce({}, edits, l)
    requires Manifest.Numbers(Manifest.Named({}, edits, l)) !! Manifest.Numbers(e.AddedAt(l))
    ensures Manifest.AddedOnce({}, edits + [e], l)
  {
    hide Manifest.Named, Manifest.Numbers, Manifest.Edit.AddedAt;
    var more := edits + [e];
    forall n | 0 <= n < |more|
      ensures Manifest.Numbers(Manifest.Named({}, more[..n], l)) !! Manifest.Numbers(more[n].AddedAt(l))
    {
      assert more[..n] == edits[..n];
      if n == |edits| { assert edits[..n] == edits; }
    }
  }

  // Numbers of files added at a level are new there.
  lemma NumbersApart(a: set<File>, b: set<File>)
    requires forall f :: f in b ==> f.number !in Manifest.Numbers(a)
    ensures Manifest.Numbers(a) !! Manifest.Numbers(b)
  {
  }

  lemma NamedHolds(logged: seq<ManifestRecord>, levels: Levels, l: nat)
    requires Replays(logged, levels) && l < NUM_LEVELS
    ensures levels[l] <= NamedAt(logged, l)
  {
    Manifest.AfterIsNamed({}, EditsOf(logged), l);
  }

  // ---- The job's edit ----

  ghost predicate Applicable(levels: Levels, job: Job) {
    && Fitting(job)
    && (job.Move? || job.Compact? ==>
         job.plan.in0 <= levels[job.plan.level] &&
         job.plan.in1 <= levels[job.plan.level + 1])
    && (job.Move? ==> job.plan.in0 == {job.moved} && job.plan.in1 == {})
  }

  // What it adds at a level.
  ghost function Adds(job: Job, l: nat): set<File> {
    match job
    case FlushEmpty => {}
    case Flush(level, f) => if l == level then {f} else {}
    case Move(p, f) => if l == p.level + 1 then {f} else {}
    case Compact(p, _, outputs) => if l == p.level + 1 then Listed(outputs) else {}
  }

  lemma JobAdds(job: Job, l: nat)
    ensures JobEdit(job).AddedAt(l) == Adds(job, l)
  {
    match job
    case FlushEmpty =>
    case Flush(level, f) =>
      assert JobEdit(job).added[0] == (level, f);
    case Move(p, f) =>
      assert JobEdit(job).added[0] == (p.level + 1, f);
    case Compact(p, _, outputs) =>
      AllAtLevel(p.level + 1, outputs, l);
  }

  lemma AllAtLevel(level: nat, files: seq<File>, l: nat)
    ensures Manifest.Edit({}, AtLevel(level, files)).AddedAt(l) == if l == level then Listed(files) else {}
    ensures forall deleted ::
              Manifest.Edit(deleted, AtLevel(level, files)).AddedAt(l) == if l == level then Listed(files) else {}
  {
    var added := AtLevel(level, files);
    forall f | f in files ensures (level, f) in added {
      var i :| 0 <= i < |files| && files[i] == f;
      assert added[i] == (level, f);
    }
  }

  // The edit does to the files what the job does to the levels.
  lemma JobDoes(levels: Levels, job: Job, l: nat)
    requires Applicable(levels, job) && l < NUM_LEVELS
    requires Manifest.NumbersIdentify(levels[l])
    ensures Manifest.After(levels[l], JobEdit(job), l) == JobLevels(levels, job)[l]
  {
    JobAdds(job, l);
    match job
    case FlushEmpty =>
    case Flush(level, f) =>
    case Move(p, f) =>
      assert forall n :: n in JobEdit(job).DeletedAt(l) <==> l == p.level && n == f.number;
    case Compact(p, _, outputs) =>
      DeletedNumbers(job, l);
  }

  lemma DeletedNumbers(job: Job, l: nat)
    requires job.Compact?
    ensures var p := job.plan;
            JobEdit(job).DeletedAt(l) == if l == p.level then Manifest.Numbers(p.in0)
                                         else if l == p.level + 1 then Manifest.Numbers(p.in1) else {}
  {
    var p := job.plan;
    forall n | n in Manifest.Numbers(p.in0) ensures (p.level, n) in JobEdit(job).deleted {
      var f :| f in p.in0 && f.number == n;
    }
    forall n | n in Manifest.Numbers(p.in1) ensures (p.level + 1, n) in JobEdit(job).deleted {
      var f :| f in p.in1 && f.number == n;
    }
  }

  // ---- Numbers ----

  // Before the edit is logged: new numbers are in no record, and in order.
  ghost predicate Numbered(logged: seq<ManifestRecord>, levels: Levels, job: Job) {
    && Replays(logged, levels) && WellNumbered(logged, levels) && Applicable(levels, job)
    && NumbersAscend(NewFiles(job))
    && forall i :: 0 <= i < |NewFiles(job)| ==> Unnamed(logged, NewFiles(job)[i].number)
  }

  lemma NewOrMoved(levels: Levels, job: Job, l: nat, f: File)
    requires Applicable(levels, job) && f in Adds(job, l)
    ensures f in NewFiles(job) || (job.Move? && f == job.moved && l == job.plan.level + 1)
    ensures job.Move? ==> NewFiles(job) == [] && job.moved in levels[job.plan.level]
  {
  }

  lemma OneFile(logged: seq<ManifestRecord>, levels: Levels, job: Job, l: nat, f: File, m: nat, g: File)
    requires Numbered(logged, levels, job) && l < NUM_LEVELS && m < NUM_LEVELS
    requires f in NamedAt(logged, l) + Adds(job, l) && g in NamedAt(logged, m) + Adds(job, m) && f.number == g.number
    ensures f == g
  {
    hide NamedAt, Replays, Adds;
    if f in NamedAt(logged, l) && g in NamedAt(logged, m) {
    } else if f in NamedAt(logged, l) {
      AddedIsOld(logged, levels, job, l, f, m, g);
    } else if g in NamedAt(logged, m) {
      AddedIsOld(logged, levels, job, m, g, l, f);
    } else {
      NewOrMoved(levels, job, l, f);
      NewOrMoved(levels, job, m, g);
    }
  }

  // A file that has its number in a record is a file that moves.
  lemma AddedIsOld(logged: seq<ManifestRecord>, levels: Levels, job: Job, l: nat, f: File, m: nat, g: File)
    requires Numbered(logged, levels, job) && l < NUM_LEVELS && m < NUM_LEVELS
    requires f in NamedAt(logged, l) && g in Adds(job, m) && f.number == g.number
    ensures f == g && job.Move? && g == job.moved && m == job.plan.level + 1
  {
    hide NamedAt, Replays, Adds;
    NewOrMoved(levels, job, m, g);
    assert f.number in Manifest.Numbers(NamedAt(logged, l));
    if job.Move? {
      NamedHolds(logged, levels, job.plan.level);
    }
  }

  lemma AddedIsNew(logged: seq<ManifestRecord>, levels: Levels, job: Job, l: nat)
    requires Numbered(logged, levels, job) && l < NUM_LEVELS
    ensures Manifest.Numbers(NamedAt(logged, l)) !! Manifest.Numbers(Adds(job, l))
  {
    hide NamedAt, Replays, Adds;
    forall g | g in Adds(job, l)
      ensures g.number !in Manifest.Numbers(NamedAt(logged, l))
    {
      if f :| f in NamedAt(logged, l) && f.number == g.number {
        AddedIsOld(logged, levels, job, l, f, l, g);
        assert g in levels[job.plan.level];
      }
    }
    NumbersApart(NamedAt(logged, l), Adds(job, l));
  }

  lemma KeptOnlyDown(logged: seq<ManifestRecord>, levels: Levels, job: Job, l: nat, f: File, m: nat, g: File)
    requires Numbered(logged, levels, job) && l < m < NUM_LEVELS
    requires f in levels[l] && f in JobLevels(levels, job)[l] && g in NamedAt(logged, m) + Adds(job, m)
    ensures f.number != g.number
  {
    hide NamedAt, Replays, Adds;
    if f.number == g.number && g !in NamedAt(logged, m) {
      NamedHolds(logged, levels, l);
      AddedIsOld(logged, levels, job, l, f, m, g);
      NamedHolds(logged, levels, job.plan.level);
    }
  }

  lemma AddedOnlyDown(logged: seq<ManifestRecord>, levels: Levels, job: Job, l: nat, f: File, m: nat, g: File)
    requires Numbered(logged, levels, job) && l < m < NUM_LEVELS
    requires f in Adds(job, l) && g in NamedAt(logged, m)
    ensures f.number != g.number
  {
    hide NamedAt, Replays, Adds;
    assert g.number in Manifest.Numbers(NamedAt(logged, m));
    if f.number == g.number {
      AddedIsOld(logged, levels, job, m, g, l, f);
    }
  }

  // What is at a level afterwards has never been further down.
  lemma OnlyDown(logged: seq<ManifestRecord>, levels: Levels, job: Job, l: nat, f: File, m: nat)
    requires Numbered(logged, levels, job) && l < m < NUM_LEVELS
    requires f in JobLevels(levels, job)[l]
    ensures f.number !in Manifest.Numbers(NamedAt(logged, m) + Adds(job, m))
  {
    hide NamedAt, Replays, WellNumbered;
    assert f in levels[l] + Adds(job, l);
    forall g | g in NamedAt(logged, m) + Adds(job, m)
      ensures f.number != g.number
    {
      if f in levels[l] {
        KeptOnlyDown(logged, levels, job, l, f, m, g);
      } else if g in NamedAt(logged, m) {
        AddedOnlyDown(logged, levels, job, l, f, m, g);
      } else {
        assert false;  // a job adds at one level
      }
    }
  }

  lemma EditLogged(logged: seq<ManifestRecord>, levels: Levels, job: Job, record: Record)
    requires Numbered(logged, levels, job)
    ensures var more := logged + [ManifestRecord(JobEdit(job), Some(record))];
            && Replays(more, JobLevels(levels, job)) && WellNumbered(more, JobLevels(levels, job))
            && LastRecord(more) == Some(record)
            && forall l :: 0 <= l < NUM_LEVELS ==> NamedAt(more, l) == NamedAt(logged, l) + Adds(job, l)
  {
    hide NamedAt, Adds, JobEdit, JobLevels, EditsOf, LastRecord;
    var more := logged + [ManifestRecord(JobEdit(job), Some(record))];
    forall l | 0 <= l < NUM_LEVELS
      ensures NamedAt(more, l) == NamedAt(logged, l) + Adds(job, l)
      ensures JobLevels(levels, job)[l] == Manifest.AfterAll({}, EditsOf(more), l)
      ensures Manifest.AddedOnce({}, EditsOf(more), l)
    {
      RecordAdded(logged, more[|logged|], l);
      JobAdds(job, l);
      NamedHolds(logged, levels, l);
      JobDoes(levels, job, l);
      AddedIsNew(logged, levels, job, l);
      MoreAdded(logged, job, l);
    }
    RecordAdded(logged, more[|logged|], 0);
    forall l, m, f, g | 0 <= l < NUM_LEVELS && 0 <= m < NUM_LEVELS && f in NamedAt(more, l) &&
      g in NamedAt(more, m) && f.number == g.number
      ensures f == g
    {
      OneFile(logged, levels, job, l, f, m, g);
    }
    forall l, m, f | 0 <= l < m < NUM_LEVELS && f in JobLevels(levels, job)[l]
      ensures f.number !in Manifest.Numbers(NamedAt(more, m))
    {
      OnlyDown(logged, levels, job, l, f, m);
    }
  }

  lemma MoreAdded(logged: seq<ManifestRecord>, job: Job, l: nat)
    requires Manifest.AddedOnce({}, EditsOf(logged), l)
    requires Manifest.Numbers(NamedAt(logged, l)) !! Manifest.Numbers(Adds(job, l))
    ensures Manifest.AddedOnce({}, EditsOf(logged) + [JobEdit(job)], l)
  {
    hide Manifest.AddedOnce, Manifest.Named, Manifest.Numbers, JobEdit, Adds;
    JobAdds(job, l);
    AddedOnceMore(EditsOf(logged), JobEdit(job), l);
  }

  // ---- The steps ----

  // Nothing is logged, and no new job begins.
  lemma EditsStable(d: Db, d': Db)
    requires EditsSound(d)
    requires d'.edits == d.edits && d'.manifest == d.manifest && d'.manifestLevels == d.manifestLevels
    requires d.nextFile <= d'.nextFile
    requires d'.stage.Built? || d'.stage.Composed? ==>
             (d.stage.Built? || d.stage.Composed?) && d'.stage.job == d.stage.job
    ensures EditsSound(d')
  {
    hide NamedAt, Replays, WellNumbered, LastRecord;
  }

  // A job begins, with numbers of its own.
  lemma BuiltEdits(d: Db, d': Db, job: Job)
    requires EditsSound(d)
    requires d'.edits == d.edits && d'.manifest == d.manifest && d'.manifestLevels == d.manifestLevels
    requires d.nextFile <= d'.nextFile && d'.stage == Built(job)
    requires forall i :: 0 <= i < |NewFiles(job)| ==> d.nextFile <= NewFiles(job)[i].number
    ensures EditsSound(d')
  {
    hide NamedAt, Replays, WellNumbered, LastRecord;
  }

  lemma LoggedEdits(d: Db, d': Db)
    requires EditsSound(d) && LogRecord(d, d') && StageSound(d) && ManifestSound(d)
    ensures EditsSound(d')
  {
    hide NamedAt, Replays, WellNumbered, LastRecord, JobLevels, JobEdit;
    var job := d.stage.job;
    JobNumbered(d);
    EditLogged(d.edits, d.manifestLevels, job, d.stage.record);
    forall l, f | 0 <= l < NUM_LEVELS && f in NamedAt(d'.edits, l)
      ensures f.number < d'.nextFile
    {
      if f !in NamedAt(d.edits, l) {
        NewOrMoved(d.levels, job, l, f);
        JobNumbersKnown(d, f);
      }
    }
  }

  lemma JobNumbered(d: Db)
    requires EditsSound(d) && d.stage.Composed? && StageSound(d) && ManifestSound(d)
    ensures Numbered(d.edits, d.manifestLevels, d.stage.job) && d.manifestLevels == d.levels
  {
    hide NamedAt, Replays, WellNumbered, LastRecord;
  }

  lemma JobNumbersKnown(d: Db, f: File)
    requires EditsSound(d) && d.stage.Composed? && StageSound(d) && ManifestSound(d)
    requires f in NewFiles(d.stage.job) || (d.stage.job.Move? && f == d.stage.job.moved)
    ensures f.number < d.nextFile
  {
    hide NamedAt, WellNumbered, LastRecord;
    if d.stage.job.Move? { NamedHolds(d.edits, d.levels, d.stage.job.plan.level); }
  }
}
