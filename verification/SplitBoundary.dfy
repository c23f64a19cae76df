// The compaction that does change a read: a version every step keeps, and
// inputs the selection may pick, for which dropping a tombstone brings a
// deleted value back.
module SplitBoundary {
  import opened Keys
  import opened Store
  import opened Lsm
  import opened CompactionSafety
  import opened Compaction
  import opened Lookup
  import opened Machine
  import opened Selection
  import Runs

  // Two files of level + 1 may meet inside a user key, and SetupOtherInputs
  // only takes the ones that meet the upper inputs.  Here the tombstone of "b"
  // is compacted away while the value under it sits in the next file.  The user
  // key "bb..." alone fills an output file of the default size.
  const MAX_FILE_SIZE: nat := 2 * 1024 * 1024
  const KEY_A: UserKey := [97]
  const KEY_B: UserKey := seq(MAX_FILE_SIZE, _ => 98)
  const OLD := Entry(IKey(KEY_A, 1, Value), [2])
  const BURIED := Entry(IKey(KEY_B, 2, Value), [3])
  const TOMBSTONE := Entry(IKey(KEY_B, 3, Deletion), [])
  const TOP := Entry(IKey(KEY_A, 4, Value), [1])
  const LOWER_FILE := File(8, 2_097_400, OLD.key, TOMBSTONE.key, {OLD, TOMBSTONE})
  const NEXT_FILE := File(9, 2_097_400, BURIED.key, BURIED.key, {BURIED})
  const UPPER_FILE := File(11, 100, TOP.key, TOP.key, {TOP})
  const SPLIT_LEVELS: Levels := [{}, {UPPER_FILE}, {LOWER_FILE, NEXT_FILE}, {}, {}, {}, {}]
  const SPLIT_PLAN := Plan(1, {UPPER_FILE}, {LOWER_FILE}, KEY_A, KEY_A)

  lemma SplitFilesSound()
    ensures FilesValid({UPPER_FILE}) && FilesValid({LOWER_FILE, NEXT_FILE})
    ensures Disjoint({UPPER_FILE}) && Disjoint({LOWER_FILE, NEXT_FILE})
    ensures Newer(Contents({UPPER_FILE}), Contents({LOWER_FILE, NEXT_FILE}))
  {
    hide Newer, Contents;
    KeysDiffer();
    assert TOP in UPPER_FILE.contents && OLD in LOWER_FILE.contents;
    assert TOMBSTONE in LOWER_FILE.contents && BURIED in NEXT_FILE.contents;
    SplitFilesNewer();
  }

  lemma KeysDiffer()
    ensures Less(KEY_A, KEY_B) && !Less(KEY_B, KEY_A) && KEY_A != KEY_B && !Less(KEY_A, KEY_A) && !Less(KEY_B, KEY_B)
  {
    hide Less;
    assert KEY_A[0] == 97 && KEY_B[0] == 98;
    FirstByte(KEY_A, KEY_B);
    LessIrreflexive(KEY_A);
    LessIrreflexive(KEY_B);
  }

  lemma FirstByte(a: UserKey, b: UserKey)
    requires a != [] && b != [] && a[0] < b[0]
    ensures Less(a, b) && !Less(b, a)
  {
  }

  lemma SplitFilesNewer()
    ensures Newer(Contents({UPPER_FILE}), Contents({LOWER_FILE, NEXT_FILE}))
  {
    hide Less;
    KeysDiffer();
  }

  lemma SplitLevelsShaped()
    ensures Shaped(SPLIT_LEVELS)
  {
    SplitFilesSound();
    TwoLevelsShaped(SPLIT_LEVELS);
  }

  lemma TwoLevelsShaped(v: Levels)
    requires forall l :: 0 <= l < NUM_LEVELS && l != 1 && l != 2 ==> v[l] == {}
    requires FilesValid(v[1]) && Disjoint(v[1]) && FilesValid(v[2]) && Disjoint(v[2])
    requires Newer(Contents(v[1]), Contents(v[2]))
    ensures Shaped(v)
  {
    forall l, m | 0 <= l < m < NUM_LEVELS
      ensures Newer(Contents(v[l]), Contents(v[m]))
    {
      if l != 1 || m != 2 { EmptyIsNewer(v[l], v[m]); }
    }
  }

  lemma EmptyIsNewer(a: set<File>, b: set<File>)
    requires a == {} || b == {}
    ensures Newer(Contents(a), Contents(b))
  {
  }

  lemma SplitPlanSelected()
    ensures Selected(SPLIT_LEVELS, SPLIT_PLAN)
    ensures !Closed(SPLIT_PLAN.in1, SPLIT_LEVELS[2])
  {
    var v, p := SPLIT_LEVELS, SPLIT_PLAN;
    assert LOWER_FILE.Overlaps(KEY_A, KEY_A) && !NEXT_FILE.Overlaps(KEY_A, KEY_A);
    assert (set g | g in v[2] && g.Overlaps(p.lo, p.hi)) == {LOWER_FILE};
    assert LOWER_FILE != NEXT_FILE;
    assert TOMBSTONE in Contents({LOWER_FILE}) && BURIED in Contents(v[2] - p.in1);
  }

  lemma SplitEntries()
    ensures All(SPLIT_LEVELS) == {TOP, OLD, TOMBSTONE, BURIED}
    ensures Rest({}, SPLIT_LEVELS, SPLIT_PLAN) == {BURIED}
    ensures SPLIT_PLAN.Inputs() == {TOP, OLD, TOMBSTONE}
  {
    var v, p := SPLIT_LEVELS, SPLIT_PLAN;
    assert UPPER_FILE in v[1] && LOWER_FILE in v[2] && NEXT_FILE in v[2];
    forall e | e in All(v) ensures e in {TOP, OLD, TOMBSTONE, BURIED} {
      var l, f := InAll(v, e);
    }
    assert TOP in UPPER_FILE.contents && OLD in LOWER_FILE.contents;
    assert TOMBSTONE in LOWER_FILE.contents && BURIED in NEXT_FILE.contents;
    var r := Replace(v, p, {});
    assert r[2] == {NEXT_FILE} && r[1] == {};
    forall e | e in All(r) ensures e == BURIED {
      var l, f := InAll(r, e);
    }
  }

  lemma SplitReadBefore()
    ensures UniqueSequences(All(SPLIT_LEVELS))
    ensures Read(All(SPLIT_LEVELS), KEY_B, 4) == NotFound
  {
    SplitEntries();
    ReadNewest(All(SPLIT_LEVELS), KEY_B, 4, TOMBSTONE);
  }

  lemma SplitDropsTombstone()
    ensures TOMBSTONE !in Kept(SPLIT_LEVELS, SPLIT_PLAN, 4)
    ensures Kept(SPLIT_LEVELS, SPLIT_PLAN, 4) <= {TOP, OLD}
  {
    SplitEntries();
    assert BaseLevel(SPLIT_LEVELS, 3, KEY_B);
    assert Obsolete(4, BaseLevel(SPLIT_LEVELS, 3, KEY_B), TOMBSTONE);
  }

  lemma SplitReadAfter()
    ensures Read(Rest({}, SPLIT_LEVELS, SPLIT_PLAN) + Kept(SPLIT_LEVELS, SPLIT_PLAN, 4), KEY_B, 4) == Found([3])
  {
    var v, p := SPLIT_LEVELS, SPLIT_PLAN;
    SplitEntries();
    SplitDropsTombstone();
    OnlyBuriedIsLeft(Kept(v, p, 4));
  }

  lemma OnlyBuriedIsLeft(kept: set<Entry>)
    requires kept <= {TOP, OLD}
    ensures Read({BURIED} + kept, KEY_B, 4) == Found([3])
  {
    assert forall e :: e in kept ==> e == TOP || e == OLD;
    ReadNewest({BURIED} + kept, KEY_B, 4, BURIED);
  }

  // A version every step keeps and a plan the selection may make, for which
  // the loop's rule (B) brings a deleted value back.
  lemma OpenLowerLevelResurrects()
    ensures Ready({}, SPLIT_LEVELS, SPLIT_PLAN)
    ensures !Closed(SPLIT_PLAN.in1, SPLIT_LEVELS[2])
    ensures Read(All(SPLIT_LEVELS), KEY_B, 4) == NotFound
    ensures Read(Rest({}, SPLIT_LEVELS, SPLIT_PLAN) + Kept(SPLIT_LEVELS, SPLIT_PLAN, 4), KEY_B, 4) == Found([3])
    ensures !Harmless({}, SPLIT_LEVELS, SPLIT_PLAN, 4)
  {
    hide Shaped, Selected, Closed, Resurrects, Kept, All, Read;
    SplitLevelsShaped();
    SplitPlanSelected();
    SplitReadBefore();
    SplitReadAfter();
    assert {} + All(SPLIT_LEVELS) == All(SPLIT_LEVELS);
    RestApart({}, SPLIT_LEVELS, SPLIT_PLAN);
    DropPreservesReadsIff(SPLIT_LEVELS, SPLIT_PLAN, Rest({}, SPLIT_LEVELS, SPLIT_PLAN), 4, KEY_B);
    assert UpTo({}, 4) == {};
  }
}
