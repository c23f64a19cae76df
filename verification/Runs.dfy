// What every run of the database machine keeps: reads at live snapshots are those
// of the batches that were committed, and no crash loses one.
module Runs {
  import opened Keys
  import opened Store
  import opened Lsm
  import opened Lookup
  import opened Fidelity
  import opened Machine
  import opened MachineSafety
  import opened CrashSafety
  import opened Options

  lemma StepKeepsInv(d: Db, d': Db, a: Action)
    requires Inv(d) && Step(d, d', a)
    ensures Inv(d')
  {
    hide Inv, AppendLog, ApplyBatch, SwitchMemtable, BuildFlush, BuildMove, BuildCompaction, ComposeRecord, LogRecord,
         InstallVersion, RemoveObsolete, Pin, Unpin, TakeSnapshot, ReleaseSnapshot, CrashAndRecover;
    match a
    case DoAppend(b) => AppendLogKeeps(d, d', b);
    case DoApply => ApplyBatchKeeps(d, d');
    case DoSwitch => SwitchMemtableKeeps(d, d');
    case DoBuildFlush(level, f) => BuildFlushKeeps(d, d', level, f);
    case DoBuildMove(p, f) => BuildMoveKeeps(d, d', p, f);
    case DoBuildCompaction(p, outputs, n) => BuildCompactionKeeps(d, d', p, outputs, n);
    case DoCompose => ComposeRecordKeeps(d, d');
    case DoLog => LogRecordKeeps(d, d');
    case DoInstall => InstallVersionKeeps(d, d');
    case DoRemoveObsolete => RemoveObsoleteKeeps(d, d');
    case DoPin => PinKeeps(d, d');
    case DoUnpin(i) => UnpinKeeps(d, d', i);
    case DoTakeSnapshot => TakeSnapshotKeeps(d, d');
    case DoReleaseSnapshot(i) => ReleaseSnapshotKeeps(d, d', i);
    case DoCrash(torn, aborts, files, last, newLog, snapshot) =>
      CrashAndRecoverKeeps(d, d', torn, aborts, files, last, newLog, snapshot);
  }

  lemma {:induction false} RunKeepsInv(states: seq<Db>, actions: seq<Action>, i: nat)
    requires Run(states, actions) && i < |states|
    ensures Inv(states[i])
  {
    hide Inv, Init, Step;
    if i == 0 {
      InitInv(states[0]);
    } else {
      RunKeepsInv(states, actions, i - 1);
      NextInv(states, actions, i - 1);
    }
  }

  lemma NextInv(states: seq<Db>, actions: seq<Action>, i: nat)
    requires Run(states, actions) && i < |actions| && Inv(states[i])
    ensures Inv(states[i + 1])
  {
    hide Inv, Init, Step;
    StepKeepsInv(states[i], states[i + 1], actions[i]);
  }

  lemma OneMoreStep(states: seq<Db>, actions: seq<Action>, d: Db, a: Action)
    requires Run(states, actions) && Step(states[|actions|], d, a)
    ensures Run(states + [d], actions + [a])
  {
    hide Step, Init;
    var after, more := states + [d], actions + [a];
    forall i | 0 <= i < |more| ensures Step(after[i], after[i + 1], more[i]) {
      if i < |actions| {
        assert after[i] == states[i] && after[i + 1] == states[i + 1] && more[i] == actions[i];
      } else {
        assert after[i] == states[|actions|];
      }
    }
  }

  // What a reader sees at sequence number s.
  ghost function Sees(d: Db, u: UserKey, s: nat): Answer {
    Read(d.mem + Imm(d) + All(d.levels), u, s)
  }

  // ---- What was committed, by the actions alone ----

  datatype Writes = Writes(committed: seq<Batch>, onItsWay: Option<Batch>)

  // A batch is committed when its writers are told, or when it is found in the
  // log after a crash.
  function After(w: Writes, a: Action): Writes {
    match a
    case DoAppend(b) => w.(onItsWay := Some(b))
    case DoApply => Commit(w)
    case DoCrash(torn, _, _, _, _, _) => if torn then w.(onItsWay := None) else Commit(w)
    case _ => w
  }

  function Commit(w: Writes): Writes {
    Writes(w.committed + (if w.onItsWay.Some? then [w.onItsWay.value] else []), None)
  }

  function WritesOf(actions: seq<Action>): Writes {
    if actions == [] then Writes([], None)
    else After(WritesOf(actions[..|actions| - 1]), actions[|actions| - 1])
  }

  function Committed(actions: seq<Action>): seq<Batch> {
    WritesOf(actions).committed
  }

  lemma StepWrites(d: Db, d': Db, a: Action)
    requires Inv(d) && Step(d, d', a)
    ensures Writes(d'.history, d'.inLog) == After(Writes(d.history, d.inLog), a)
  {
    hide Inv, LeaveAll, Recovers, Selected, JobLevels;
    match a
    case DoCrash(torn, aborts, files, last, newLog, snapshot) =>
      CrashWrites(d, d', torn, aborts, files, last, newLog, snapshot);
    case _ =>
  }

  lemma CrashWrites(d: Db, d': Db, torn: bool, aborts: seq<Abort>, files: seq<File>, last: nat, newLog: nat,
                    snapshot: seq<(nat, File)>)
    requires Inv(d) && CrashAndRecover(d, d', torn, aborts, files, last, newLog, snapshot)
    ensures d'.history == d.history + (if torn then [] else Pending(d)) && d'.inLog.None?
  {
    hide Inv, LeaveAll;
    CrashAndRecoverKeeps(d, d', torn, aborts, files, last, newLog, snapshot);
  }

  lemma {:induction false} RunWrites(states: seq<Db>, actions: seq<Action>, i: nat)
    requires Run(states, actions) && i < |states|
    ensures WritesOf(actions[..i]) == Writes(states[i].history, states[i].inLog)
  {
    hide Inv, Step;
    if i > 0 {
      RunWrites(states, actions, i - 1);
      RunKeepsInv(states, actions, i - 1);
      assert actions[..i][..i - 1] == actions[..i - 1];
      StepWrites(states[i - 1], states[i], actions[i - 1]);
    }
  }

  lemma {:induction false} CommittedGrows(actions: seq<Action>, i: nat, j: nat)
    requires i <= j <= |actions|
    ensures Committed(actions[..i]) <= Committed(actions[..j])
  {
    if i < j {
      CommittedGrows(actions, i, j - 1);
      assert actions[..j][..j - 1] == actions[..j - 1];
    }
  }

  lemma RunFacts(states: seq<Db>, actions: seq<Action>, i: nat)
    requires Run(states, actions) && i < |states|
    ensures |states| == |actions| + 1 && states[i].history == Committed(actions[..i])
    ensures Consecutive(states[i].history) && NextSequence(states[i].history) == states[i].lastSequence + 1
    ensures UniqueSequences(Written(states[i].history))
    ensures forall s :: s in states[i].snapshots ==> s <= states[i].lastSequence
  {
    RunKeepsInv(states, actions, i);
    RunWrites(states, actions, i);
    WrittenBelow(states[i]);
    ConsecutiveUnique(states[i].history);
  }

  // ---- Reads ----

  // In every state of every run, a read at a live snapshot, or at the last
  // sequence, is the read of all batches committed so far.
  lemma SnapshotReadsHistory(states: seq<Db>, actions: seq<Action>, i: nat, u: UserKey, s: nat)
    requires Run(states, actions) && i < |states|
    requires s in states[i].snapshots || s == states[i].lastSequence
    ensures Sees(states[i], u, s) == Read(Written(Committed(actions[..i])), u, s)
  {
    hide Committed, Run;
    RunKeepsInv(states, actions, i);
    RunFacts(states, actions, i);
    InvReads(states[i], u, s);
  }

  lemma InvReads(d: Db, u: UserKey, s: nat)
    requires Inv(d) && (s in d.snapshots || s == d.lastSequence)
    ensures Sees(d, u, s) == Read(Written(d.history), u, s)
  {
  }

  lemma LaterIsInvisible(a: seq<Batch>, b: seq<Batch>, last: nat, u: UserKey, s: nat)
    requires a <= b && Consecutive(b) && NextSequence(a) == last + 1 && s <= last
    ensures Read(Written(a), u, s) == Read(Written(b), u, s)
  {
    ConsecutiveUnique(b);
    assert forall i :: 0 <= i < |a| ==> a[i] == b[i];
    FewerUnique(Written(a), Written(b));
    forall e: Entry | e.VisibleTo(u, s) && e in Written(b)
      ensures e in Written(a)
    {
      var i :| 0 <= i < |b| && e in b[i].Entries();
      EntryOfBatch(b[i], e);
      if i >= |a| && |a| > 0 { BatchesAscend(b, |a| - 1, i); }
      if i >= |a| && |a| == 0 && i > 0 { BatchesAscend(b, 0, i); }
    }
    ReadIgnoresInvisible(Written(a), Written(b), u, s);
  }

  // A version that a reader holds has all its tables on disk.
  lemma PinnedTablesStay(states: seq<Db>, actions: seq<Action>, i: nat, k: nat, l: nat, f: File)
    requires Run(states, actions) && i < |states| && k < |states[i].pinned|
    requires l < NUM_LEVELS && f in states[i].pinned[k][l]
    ensures Has(states[i].tables, f)
  {
    RunKeepsInv(states, actions, i);
  }

  // A snapshot reads the same for as long as it lives.
  lemma SnapshotIsStable(states: seq<Db>, actions: seq<Action>, i: nat, j: nat, u: UserKey, s: nat)
    requires Run(states, actions) && i <= j < |states|
    requires s in states[i].snapshots && s in states[j].snapshots
    ensures Sees(states[i], u, s) == Sees(states[j], u, s)
  {
    hide Committed, Run;
    SnapshotReadsHistory(states, actions, i, u, s);
    SnapshotReadsHistory(states, actions, j, u, s);
    RunFacts(states, actions, i);
    RunFacts(states, actions, j);
    CommittedGrows(actions, i, j);
    LaterIsInvisible(states[i].history, states[j].history, states[i].lastSequence, u, s);
  }

  // Durability: what is committed in one state is read in every later one, after
  // any crashes in between, or hidden by a newer entry of its key.  A newer entry
  // with a sequence number of that time was committed by then, too.
  lemma CommittedIsRead(states: seq<Db>, actions: seq<Action>, i: nat, j: nat, e: Entry, s: nat) returns (f: Entry)
    requires Run(states, actions) && i <= j < |states|
    requires e in Written(Committed(actions[..i]))
    requires states[i].lastSequence <= s && (s in states[j].snapshots || s == states[j].lastSequence)
    ensures Sees(states[j], e.key.user, s) == AnswerOf(f)
    ensures f == e || (f.key.user == e.key.user && e.key.sequence < f.key.sequence <= s)
    ensures f in Written(Committed(actions[..j]))
    ensures f.key.sequence <= states[i].lastSequence ==> f in Written(Committed(actions[..i]))
  {
    hide Committed, Run, Sees;
    RunFacts(states, actions, i);
    RunFacts(states, actions, j);
    CommittedGrows(actions, i, j);
    SnapshotReadsHistory(states, actions, j, e.key.user, s);
    var a, b := Committed(actions[..i]), Committed(actions[..j]);
    ConsecutiveUnique(a);
    WrittenPrefix(a, b);
    assert e.VisibleTo(e.key.user, s);
    f := NewestExists(Written(b), e.key.user, s);
    ReadNewest(Written(b), e.key.user, s, f);
    if f.key.sequence <= states[i].lastSequence { EarlyIsInPrefix(a, b, f); }
  }

  lemma WrittenPrefix(a: seq<Batch>, b: seq<Batch>)
    requires a <= b
    ensures Written(a) <= Written(b)
  {
    assert forall i :: 0 <= i < |a| ==> a[i] == b[i];
  }

  lemma EarlyIsInPrefix(a: seq<Batch>, b: seq<Batch>, f: Entry)
    requires a <= b && Consecutive(b) && f in Written(b) && f.key.sequence < NextSequence(a)
    ensures f in Written(a)
  {
    var i :| 0 <= i < |b| && f in b[i].Entries();
    EntryOfBatch(b[i], f);
    if i < |a| {
      assert a[i] == b[i];
    } else if |a| > 0 {
      assert a[|a| - 1] == b[|a| - 1];
      BatchesAscend(b, |a| - 1, i);
    } else if i > 0 {
      BatchesAscend(b, 0, i);
    }
  }

  // A crash: every committed batch is still there, and the one on its way to the
  // log when its record was complete; reads and numbers go on from there.
  lemma RecoveryLosesNothing(states: seq<Db>, actions: seq<Action>, i: nat, u: UserKey)
    requires Run(states, actions) && i < |actions| && actions[i].DoCrash?
    ensures var before, after := WritesOf(actions[..i]), Committed(actions[..i + 1]);
            && after == before.committed +
                         (if actions[i].torn || before.onItsWay.None? then [] else [before.onItsWay.value])
            && states[i + 1].lastSequence + 1 == NextSequence(after)
            && Sees(states[i + 1], u, states[i + 1].lastSequence) == Read(Written(after), u, states[i + 1].lastSequence)
  {
    hide Step, Init, Written, Sees;
    RunFacts(states, actions, i + 1);
    SnapshotReadsHistory(states, actions, i + 1, u, states[i + 1].lastSequence);
    assert actions[..i + 1][..i] == actions[..i];
  }

  // DBImpl::Get in a reachable state, at a live snapshot.
  method GetAtSnapshot(d: Db, files: seq<seq<File>>, u: UserKey, s: nat) returns (a: Answer)
    requires Inv(d) && Holds7(files, d.levels)
    requires s in d.snapshots || s == d.lastSequence
    ensures a == Read(Written(d.history), u, s)
  {
    a := Get(d.mem, d.imm, files, d.levels, u, s);
  }
}
