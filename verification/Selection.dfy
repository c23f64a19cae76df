// Choosing files: which overlap a range, which must be compacted together, and
// where a flushed table may go (db/version_set.cc).
module Selection {
  import opened Keys
  import opened Store
  import opened Lsm
  import opened CompactionSafety
  import opened Compaction
  import opened Lookup
  import opened Options

  // A user key range; a missing bound is open.
  datatype Range = Range(lo: Option<UserKey>, hi: Option<UserKey>) {
    predicate Behind(f: File) {
      lo.Some? && Less(f.largest.user, lo.value)
    }

    predicate Ahead(f: File) {
      hi.Some? && Less(hi.value, f.smallest.user)
    }

    predicate Touches(f: File) {
      !Behind(f) && !Ahead(f)
    }

    predicate Covers(f: File) {
      && (lo.Some? ==> !Less(f.smallest.user, lo.value))
      && (hi.Some? ==> !Less(hi.value, f.largest.user))
    }

    predicate Includes(r: Range) {
      && (lo.Some? ==> r.lo.Some? && !Less(r.lo.value, lo.value))
      && (hi.Some? ==> r.hi.Some? && !Less(hi.value, r.hi.value))
    }
  }

  // Every file that touches the range lies inside it.
  ghost predicate ClosedRange(files: seq<File>, r: Range) {
    forall f :: f in files && r.Touches(f) ==> r.Covers(f)
  }

  function Touching(files: seq<File>, r: Range): (inputs: seq<File>) {
    if files == [] then []
    else
      var n := |files| - 1;
      Touching(files[..n], r) + if r.Touches(files[n]) then [files[n]] else []
  }

  lemma {:induction false} InTouching(files: seq<File>, r: Range)
    ensures forall f :: f in Touching(files, r) <==> f in files && r.Touches(f)
  {
    if files != [] {
      var n := |files| - 1;
      InTouching(files[..n], r);
      assert files == files[..n] + [files[n]];
    }
  }

  // r is the least closed range around `asked`.
  ghost predicate LeastClosed(files: seq<File>, asked: Range, r: Range) {
    && r.Includes(asked)
    && ClosedRange(files, r)
    && forall wide: Range :: wide.Includes(asked) && ClosedRange(files, wide) ==> wide.Includes(r)
  }

  lemma IncludesItself(r: Range)
    ensures r.Includes(r)
  {
    UserKeysOrdered();
  }

  // A file that touches a range sticks out of it: every closed range around
  // must take it in.
  lemma WidenBelow(files: seq<File>, r: Range, wide: Range, f: File)
    requires wide.Includes(r) && ClosedRange(files, wide)
    requires f in files && r.Touches(f) && r.lo.Some?
    ensures wide.Includes(r.(lo := Some(f.smallest.user)))
  {
    UserKeysOrdered();
    assert wide.Touches(f);
  }

  lemma WidenAbove(files: seq<File>, r: Range, wide: Range, f: File)
    requires wide.Includes(r) && ClosedRange(files, wide)
    requires f in files && r.Touches(f) && r.hi.Some?
    ensures wide.Includes(r.(hi := Some(f.largest.user)))
  {
    UserKeysOrdered();
    assert wide.Touches(f);
  }

  // Files that start before the range, or end after it: what a restart uses up.
  ghost function StickOutBelow(files: seq<File>, r: Range): set<int> {
    set i | 0 <= i < |files| && r.lo.Some? && Less(files[i].smallest.user, r.lo.value)
  }

  ghost function StickOutAbove(files: seq<File>, r: Range): set<int> {
    set i | 0 <= i < |files| && r.hi.Some? && Less(r.hi.value, files[i].largest.user)
  }

  // GetOverlappingInputs.  At level 0 the scan starts over with a wider range
  // whenever a file sticks out of it.
  method GetOverlappingInputs(files: seq<File>, level0: bool, asked: Range)
      returns (inputs: seq<File>, ghost r: Range)
    ensures inputs == Touching(files, r)
    ensures if level0 then LeastClosed(files, asked, r) else r == asked
    ensures !level0 ==> inputs == Touching(files, asked)
    ensures level0 ==> exists least :: LeastClosed(files, asked, least) && inputs == Touching(files, least)
  {
    inputs, r := [], asked;
    var range := asked;
    var i := 0;
    IncludesItself(asked);
    while i < |files|
      invariant 0 <= i <= |files|
      invariant inputs == Touching(files[..i], range)
      invariant !level0 ==> range == asked
      invariant level0 ==> forall f :: f in files[..i] && range.Touches(f) ==> range.Covers(f)
      invariant range.Includes(asked)
      invariant forall wide: Range :: wide.Includes(asked) && ClosedRange(files, wide) ==> wide.Includes(range)
      decreases StickOutBelow(files, range), StickOutAbove(files, range), |files| - i
    {
      var f := files[i];
      i := i + 1;
      assert files[..i][..i - 1] == files[..i - 1] && files[..i][i - 1] == f;
      if range.Touches(f) {
        inputs := inputs + [f];
        if level0 {
          if range.lo.Some? && Less(f.smallest.user, range.lo.value) {
            forall wide: Range | wide.Includes(asked) && ClosedRange(files, wide) { WidenBelow(files, range, wide, f); }
            RestartBelow(files, range, i - 1, asked);
            range := range.(lo := Some(f.smallest.user));
            inputs, i := [], 0;
          } else if range.hi.Some? && Less(range.hi.value, f.largest.user) {
            forall wide: Range | wide.Includes(asked) && ClosedRange(files, wide) { WidenAbove(files, range, wide, f); }
            RestartAbove(files, range, i - 1, asked);
            range := range.(hi := Some(f.largest.user));
            inputs, i := [], 0;
          }
        }
      }
    }
    assert files[..|files|] == files;
    r := range;
  }

  lemma RestartBelow(files: seq<File>, r: Range, i: nat, asked: Range)
    requires i < |files| && r.lo.Some? && Less(files[i].smallest.user, r.lo.value)
    requires r.Includes(asked)
    ensures StickOutBelow(files, r.(lo := Some(files[i].smallest.user))) < StickOutBelow(files, r)
    ensures r.(lo := Some(files[i].smallest.user)).Includes(asked)
  {
    UserKeysOrdered();
    assert i in StickOutBelow(files, r) && i !in StickOutBelow(files, r.(lo := Some(files[i].smallest.user)));
  }

  lemma RestartAbove(files: seq<File>, r: Range, i: nat, asked: Range)
    requires i < |files| && r.hi.Some? && Less(r.hi.value, files[i].largest.user)
    requires r.Includes(asked)
    ensures StickOutBelow(files, r.(hi := Some(files[i].largest.user))) == StickOutBelow(files, r)
    ensures StickOutAbove(files, r.(hi := Some(files[i].largest.user))) < StickOutAbove(files, r)
    ensures r.(hi := Some(files[i].largest.user)).Includes(asked)
  {
    UserKeysOrdered();
    assert i in StickOutAbove(files, r) && i !in StickOutAbove(files, r.(hi := Some(files[i].largest.user)));
  }

  // ---- Overlap tests and the level of a flushed memtable ----

  lemma UserOrderOfFiles(files: seq<File>, i: nat, j: nat)
    requires SortedFiles(files) && i < j < |files|
    ensures AtMost(files[i].smallest.user, files[j].smallest.user)
    ensures AtMost(files[i].largest.user, files[j].smallest.user)
    ensures AtMost(files[i].largest.user, files[j].largest.user)
  {
    assert files[i].Valid() && files[j].Valid();
    UserKeysOrdered();
  }

  ghost predicate SequencesFit(files: seq<File>) {
    forall f :: f in files ==> f.largest.sequence <= MAX_SEQUENCE
  }

  ghost predicate AnyTouch(files: seq<File>, r: Range) {
    exists f :: f in files && r.Touches(f)
  }

  method SomeFileOverlapsRange(disjoint: bool, files: seq<File>, r: Range) returns (overlap: bool)
    requires disjoint ==> SortedFiles(files) && SequencesFit(files)
    ensures overlap <==> AnyTouch(files, r)
  {
    if !disjoint {
      for i := 0 to |files|
        invariant forall f :: f in files[..i] ==> !r.Touches(f)
      {
        assert files[..i + 1] == files[..i] + [files[i]];
        if r.Touches(files[i]) {
          return true;
        }
      }
      assert files[..|files|] == files;
      return false;
    }
    var index := 0;
    if r.lo.Some? {
      index := FindFile(files, IKey(r.lo.value, MAX_SEQUENCE, Value));
    }
    FirstNotBehind(files, r, index);
    if index >= |files| {
      return false;
    }
    overlap := !r.Ahead(files[index]);
    if overlap { assert r.Touches(files[index]); }
  }

  lemma FirstNotBehind(files: seq<File>, r: Range, index: nat)
    requires SortedFiles(files) && SequencesFit(files) && index <= |files|
    requires if r.lo.None? then index == 0 else
               var key := IKey(r.lo.value, MAX_SEQUENCE, Value);
               (forall i :: 0 <= i < index ==> Before(files[i].largest, key)) &&
               (forall i :: index <= i < |files| ==> !Before(files[i].largest, key))
    ensures forall i :: 0 <= i < index ==> r.Behind(files[i])
    ensures forall i :: index <= i < |files| ==> !r.Behind(files[i])
    ensures index < |files| && r.Ahead(files[index]) ==> forall i :: index <= i < |files| ==> r.Ahead(files[i])
  {
    forall i | 0 <= i < index
      ensures r.Behind(files[i])
    {
      assert files[i].largest.sequence <= MAX_SEQUENCE;
    }
    forall i | index < i < |files| && r.Ahead(files[index])
      ensures r.Ahead(files[i])
    {
      UserOrderOfFiles(files, index, i);
      UserKeysOrdered();
    }
  }

  function Total(files: seq<File>): nat {
    if files == [] then 0 else Total(files[..|files| - 1]) + files[|files| - 1].size
  }

  method TotalFileSize(files: seq<File>) returns (sum: nat)
    ensures sum == Total(files)
  {
    sum := 0;
    for i := 0 to |files|
      invariant sum == Total(files[..i])
    {
      assert files[..i + 1][..i] == files[..i];
      sum := sum + files[i].size;
    }
    assert files[..|files|] == files;
  }

  // A table with this range may go one level further down: nothing there meets
  // it, and not too much in the level after that.
  ghost predicate MaySink(files: seq<seq<File>>, level: nat, r: Range, maxOverlap: nat) {
    level + 2 < |files| && !AnyTouch(files[level + 1], r) && Total(Touching(files[level + 2], r)) <= maxOverlap
  }

  // The table goes below level 0 only when no table on the way meets it.
  method PickLevelForMemTableOutput(files: seq<seq<File>>, ghost levels: Levels, f: File, maxGrandParentOverlap: nat)
      returns (level: nat)
    requires Holds7(files, levels)
    requires forall l :: 1 <= l < NUM_LEVELS ==> SequencesFit(files[l])
    ensures Placeable(levels, level, f)
    ensures level <= MAX_MEM_COMPACT_LEVEL
    ensures var r := Range(Some(f.smallest.user), Some(f.largest.user));
            && (level > 0 ==> !AnyTouch(files[0], r))
            && (forall l :: 0 <= l < level ==> MaySink(files, l, r, maxGrandParentOverlap))
            && (level < MAX_MEM_COMPACT_LEVEL ==>
                  AnyTouch(files[0], r) || !MaySink(files, level, r, maxGrandParentOverlap))
  {
    hide Total, Touching;
    var r := Range(Some(f.smallest.user), Some(f.largest.user));
    level := 0;
    var overlap := SomeFileOverlapsRange(false, files[0], r);
    if !overlap {
      NoneTouches(files, levels, 0, f);
      while level < MAX_MEM_COMPACT_LEVEL
        invariant 0 <= level <= MAX_MEM_COMPACT_LEVEL
        invariant forall l, g :: 0 <= l <= level && g in levels[l] ==> !g.Overlaps(f.smallest.user, f.largest.user)
        invariant forall l :: 0 <= l < level ==> MaySink(files, l, r, maxGrandParentOverlap)
      {
        assert SortedFiles(files[level + 1]);
        overlap := SomeFileOverlapsRange(true, files[level + 1], r);
        if overlap {
          break;
        }
        NoneTouches(files, levels, level + 1, f);
        if level + 2 < NUM_LEVELS {
          var overlaps, _ := GetOverlappingInputs(files[level + 2], false, r);
          var sum := TotalFileSize(overlaps);
          if sum > maxGrandParentOverlap {
            break;
          }
        }
        level := level + 1;
      }
    }
  }

  lemma NoneTouches(files: seq<seq<File>>, levels: Levels, l: nat, f: File)
    requires Holds7(files, levels) && l < NUM_LEVELS
    requires forall g :: g in files[l] ==> !Range(Some(f.smallest.user), Some(f.largest.user)).Touches(g)
    ensures forall g :: g in levels[l] ==> !g.Overlaps(f.smallest.user, f.largest.user)
  {
    assert levels[l] == Listed(files[l]);
  }

  // ---- Boundary files ----

  // Compare only looks at the order, so equal bounds keep the first file.
  method FindLargestKey(files: seq<File>) returns (largest: IKey)
    requires files != []
    ensures LargestOf(files, largest)
  {
    InternalKeysOrdered();
    largest := files[0].largest;
    for i := 1 to |files|
      invariant exists f :: f in files && f.largest == largest
      invariant forall k :: 0 <= k < i ==> !Before(largest, files[k].largest)
    {
      if Before(largest, files[i].largest) {
        largest := files[i].largest;
      }
    }
  }

  predicate Boundary(f: File, largest: IKey) {
    Before(largest, f.smallest) && f.smallest.user == largest.user
  }

  method FindSmallestBoundaryFile(files: seq<File>, largest: IKey) returns (b: Option<File>)
    ensures b.None? ==> forall f :: f in files ==> !Boundary(f, largest)
    ensures b.Some? ==> b.value in files && Boundary(b.value, largest)
    ensures b.Some? ==> forall f :: f in files && Boundary(f, largest) ==> !Before(f.smallest, b.value.smallest)
  {
    InternalKeysOrdered();
    b := None;
    for i := 0 to |files|
      invariant b.None? ==> forall k :: 0 <= k < i ==> !Boundary(files[k], largest)
      invariant b.Some? ==> b.value in files && Boundary(b.value, largest)
      invariant b.Some? ==>
                  forall k :: 0 <= k < i && Boundary(files[k], largest) ==> !Before(files[k].smallest, b.value.smallest)
    {
      if Boundary(files[i], largest) {
        if b.None? || Before(files[i].smallest, b.value.smallest) {
          b := Some(files[i]);
        }
      }
    }
  }

  // Tables that start after the largest key: what adding a boundary file uses up.
  ghost function StartingAfter(files: seq<File>, key: IKey): set<int> {
    set i | 0 <= i < |files| && Before(key, files[i].smallest)
  }

  // AddBoundaryInputs.  Afterwards no file of the level starts with the largest
  // input's user key behind it; on a sorted level a run of files stays a run.
  method AddBoundaryInputs(levelFiles: seq<File>, inputs: seq<File>, ghost run: Option<nat>) returns (r: seq<File>)
    requires forall f :: f in levelFiles ==> f.Valid()
    requires run.Some? ==> SortedFiles(levelFiles) && IsRun(levelFiles, run.value, inputs)
    ensures |inputs| <= |r| && r[..|inputs|] == inputs
    ensures forall f :: f in r ==> f in inputs || f in levelFiles
    ensures inputs == [] ==> r == []
    ensures inputs != [] ==> NoBoundaryLeft(levelFiles, r)
    ensures forall k :: |inputs| <= k < |r| ==> AddedAtBoundary(r, k)
    ensures run.Some? ==> IsRun(levelFiles, run.value, r)
  {
    r := inputs;
    if inputs == [] {
      return;
    }
    var largestKey := FindLargestKey(inputs);
    var continueSearching := true;
    while continueSearching
      invariant |inputs| <= |r| && r[..|inputs|] == inputs
      invariant forall f :: f in r ==> f in inputs || f in levelFiles
      invariant LargestOf(r, largestKey)
      invariant forall k :: |inputs| <= k < |r| ==> AddedAtBoundary(r, k)
      invariant !continueSearching ==> forall f :: f in levelFiles ==> !Boundary(f, largestKey)
      invariant run.Some? ==> IsRun(levelFiles, run.value, r)
      decreases StartingAfter(levelFiles, largestKey), continueSearching
    {
      var b := FindSmallestBoundaryFile(levelFiles, largestKey);
      if b.Some? {
        BoundaryAdvances(levelFiles, largestKey, b.value);
        if run.Some? { RunExtends(levelFiles, run.value, r, largestKey, b.value); }
        NewLargest(r, largestKey, b.value);
        Appended(r, b.value, |inputs|, largestKey);
        r := r + [b.value];
        assert r[|r| - 1] == b.value;
        largestKey := b.value.largest;
      } else {
        continueSearching := false;
      }
    }
  }

  // File k of the list starts inside the last user key of the files before it.
  ghost predicate AddedAtBoundary(r: seq<File>, k: nat)
    requires k < |r|
  {
    exists key :: LargestOf(r[..k], key) && Boundary(r[k], key)
  }

  lemma Appended(r: seq<File>, b: File, n: nat, key: IKey)
    requires LargestOf(r, key) && Boundary(b, key)
    requires forall k :: n <= k < |r| ==> AddedAtBoundary(r, k)
    ensures forall k :: n <= k < |r + [b]| ==> AddedAtBoundary(r + [b], k)
  {
    forall k | n <= k < |r + [b]|
      ensures AddedAtBoundary(r + [b], k)
    {
      if k < |r| {
        assert (r + [b])[..k] == r[..k];
        assert AddedAtBoundary(r, k);
      } else {
        assert (r + [b])[..k] == r;
      }
    }
  }

  ghost predicate LargestOf(files: seq<File>, key: IKey) {
    (exists f :: f in files && f.largest == key) && forall f :: f in files ==> !Before(key, f.largest)
  }

  ghost predicate NoBoundaryLeft(levelFiles: seq<File>, r: seq<File>) {
    exists largest :: LargestOf(r, largest) && forall f :: f in levelFiles ==> !Boundary(f, largest)
  }

  lemma NewLargest(r: seq<File>, key: IKey, b: File)
    requires forall f :: f in r ==> !Before(key, f.largest)
    requires Before(key, b.smallest) && b.Valid()
    ensures forall f :: f in r + [b] ==> !Before(b.largest, f.largest)
  {
    InternalKeysOrdered();
  }

  lemma BoundaryAdvances(files: seq<File>, key: IKey, b: File)
    requires b in files && b.Valid() && Boundary(b, key)
    ensures StartingAfter(files, b.largest) < StartingAfter(files, key)
  {
    InternalKeysOrdered();
    var i :| 0 <= i < |files| && files[i] == b;
    assert i in StartingAfter(files, key) && i !in StartingAfter(files, b.largest);
  }

  ghost predicate IsRun(files: seq<File>, start: nat, inputs: seq<File>) {
    start + |inputs| <= |files| && inputs == files[start..start + |inputs|]
  }

  // On a sorted level the boundary file is the file right after the run.
  lemma RunExtends(files: seq<File>, start: nat, inputs: seq<File>, key: IKey, b: File)
    requires SortedFiles(files) && inputs != [] && IsRun(files, start, inputs)
    requires LargestOf(inputs, key)
    requires b in files && Boundary(b, key)
    requires forall f :: f in files && Boundary(f, key) ==> !Before(f.smallest, b.smallest)
    ensures IsRun(files, start, inputs + [b])
  {
    hide SortedFiles, LargestOf, Before;
    var end := start + |inputs|;
    LastOfRun(files, start, inputs, key);
    var k :| 0 <= k < |files| && files[k] == b;
    if k < end {
      FileBeforeKey(files, k, end - 1);
      assert false;
    }
    if k > end {
      BetweenBoundary(files, end, k, key);
      assert false;
    }
  }

  lemma LastOfRun(files: seq<File>, start: nat, inputs: seq<File>, key: IKey)
    requires SortedFiles(files) && inputs != [] && IsRun(files, start, inputs)
    requires LargestOf(inputs, key)
    ensures files[start + |inputs| - 1].largest == key
  {
    var n := |inputs| - 1;
    var f :| f in inputs && f.largest == key;
    var i :| 0 <= i < |inputs| && inputs[i] == f;
    assert inputs[n] in inputs && inputs[n] in files && inputs[n].Valid();
    assert inputs[i] == files[start + i] && inputs[n] == files[start + n];
    InternalKeysOrdered();
  }

  lemma FileBeforeKey(files: seq<File>, k: nat, last: nat)
    requires SortedFiles(files) && k <= last < |files|
    ensures !Before(files[last].largest, files[k].smallest)
  {
    assert files[k].Valid() && files[last].Valid();
    InternalKeysOrdered();
  }

  lemma BetweenBoundary(files: seq<File>, i: nat, k: nat, key: IKey)
    requires SortedFiles(files) && 0 < i < k < |files| && files[i - 1].largest == key
    requires Boundary(files[k], key)
    ensures Boundary(files[i], key) && Before(files[i].smallest, files[k].smallest) && files[i] in files
  {
    assert files[i].Valid();
    InternalKeysOrdered();
    UserKeysOrdered();
  }

  // ---- All inputs of a compaction ----

  ghost predicate SmallestOf(files: seq<File>, key: IKey) {
    (exists f :: f in files && f.smallest == key) && forall f :: f in files ==> !Before(f.smallest, key)
  }

  method GetRange(files: seq<File>) returns (smallest: IKey, largest: IKey)
    requires files != []
    ensures SmallestOf(files, smallest) && LargestOf(files, largest)
  {
    InternalKeysOrdered();
    smallest, largest := files[0].smallest, files[0].largest;
    for i := 1 to |files|
      invariant exists f :: f in files && f.smallest == smallest
      invariant exists f :: f in files && f.largest == largest
      invariant forall k :: 0 <= k < i ==> !Before(files[k].smallest, smallest) && !Before(largest, files[k].largest)
    {
      if Before(files[i].smallest, smallest) {
        smallest := files[i].smallest;
      }
      if Before(largest, files[i].largest) {
        largest := files[i].largest;
      }
    }
  }

  function Span(smallest: IKey, largest: IKey): Range {
    Range(Some(smallest.user), Some(largest.user))
  }

  // A run with no boundary file behind it is closed.
  lemma RunIsClosed(files: seq<File>, start: nat, r: seq<File>)
    requires SortedFiles(files) && r != [] && IsRun(files, start, r)
    requires NoBoundaryLeft(files, r)
    requires UniqueSequences(Contents(Listed(files)))
    ensures Closed(Listed(r), Listed(files))
  {
    var largest :| LargestOf(r, largest) && forall f :: f in files ==> !Boundary(f, largest);
    LastOfRun(files, start, r, largest);
    forall e, f | e in Contents(Listed(r)) && f in Contents(Listed(files) - Listed(r)) && e.key.user == f.key.user
      ensures f.key.sequence > e.key.sequence
    {
      PairClosed(files, start, r, largest, e, f);
    }
  }

  // A file that starts behind the run with its last user key holds an older entry
  // of that key.
  lemma BoundaryIsOpen(files: seq<File>, start: nat, r: seq<File>, largest: IKey, b: File)
    requires SortedFiles(files) && r != [] && IsRun(files, start, r)
    requires LargestOf(r, largest) && b in files && Boundary(b, largest)
    ensures !Closed(Listed(r), Listed(files))
  {
    var last :| last in r && last.largest == largest;
    assert last in files && last.Valid() && b.Valid();
    var e :| e in last.contents && e.key == largest;
    var f :| f in b.contents && f.key == b.smallest;
    assert b !in r by {
      if b in r { InternalKeysOrdered(); }
    }
    assert e in Contents(Listed(r)) && f in Contents(Listed(files) - Listed(r));
  }

  // What can be seen from the bounds of the files: the files picked are closed if
  // and only if no file starts behind them with their last user key.
  lemma ClosedIffNoBoundary(files: seq<File>, start: nat, r: seq<File>)
    requires SortedFiles(files) && IsRun(files, start, r)
    requires UniqueSequences(Contents(Listed(files)))
    ensures Closed(Listed(r), Listed(files)) <==> r == [] || NoBoundaryLeft(files, r)
  {
    hide Before, Boundary;
    if r != [] && NoBoundaryLeft(files, r) {
      RunIsClosed(files, start, r);
    } else if r != [] {
      var smallest, largest := BoundsOf(r);
      var b :| b in files && Boundary(b, largest);
      BoundaryIsOpen(files, start, r, largest, b);
    }
  }

  lemma {:induction false} BoundsOf(files: seq<File>) returns (smallest: IKey, largest: IKey)
    requires files != []
    ensures SmallestOf(files, smallest) && LargestOf(files, largest)
  {
    InternalKeysOrdered();
    var f := files[|files| - 1];
    smallest, largest := f.smallest, f.largest;
    if |files| > 1 {
      var front := files[..|files| - 1];
      var a, b := BoundsOf(front);
      assert files == front + [f];
      if Before(a, smallest) { smallest := a; }
      if Before(largest, b) { largest := b; }
    }
  }

  lemma PairClosed(files: seq<File>, start: nat, r: seq<File>, largest: IKey, e: Entry, f: Entry)
    requires SortedFiles(files) && r != [] && IsRun(files, start, r)
    requires UniqueSequences(Contents(Listed(files)))
    requires files[start + |r| - 1].largest == largest && forall g :: g in files ==> !Boundary(g, largest)
    requires e in Contents(Listed(r)) && f in Contents(Listed(files) - Listed(r)) && e.key.user == f.key.user
    ensures f.key.sequence > e.key.sequence
  {
    hide SortedFiles, UniqueSequences, Boundary, Contents, Listed;
    var i := InRun(files, start, r, e);
    var k := OutOfRun(files, r, f);
    RunHasAll(files, start, r, k);
    OneEntryPerSequence(files, i, e, k, f);
    RunClosedAt(files, start, |r|, largest, i, e, k, f);
  }

  lemma InRun(files: seq<File>, start: nat, r: seq<File>, e: Entry) returns (i: nat)
    requires IsRun(files, start, r) && e in Contents(Listed(r))
    ensures start <= i < start + |r| && e in files[i].contents
  {
    var a := InContents(Listed(r), e);
    var j :| 0 <= j < |r| && r[j] == a;
    i := start + j;
  }

  lemma OutOfRun(files: seq<File>, r: seq<File>, f: Entry) returns (k: nat)
    requires f in Contents(Listed(files) - Listed(r))
    ensures k < |files| && files[k] !in r && f in files[k].contents
  {
    var b := InContents(Listed(files) - Listed(r), f);
    k :| 0 <= k < |files| && files[k] == b;
  }

  lemma RunHasAll(files: seq<File>, start: nat, r: seq<File>, k: nat)
    requires IsRun(files, start, r)
    ensures start <= k < start + |r| ==> files[k] in r
  {
    if start <= k < start + |r| { assert r[k - start] == files[k]; }
  }

  lemma OneEntryPerSequence(files: seq<File>, i: nat, e: Entry, k: nat, f: Entry)
    requires UniqueSequences(Contents(Listed(files)))
    requires i < |files| && e in files[i].contents && k < |files| && f in files[k].contents
    ensures e.key.sequence == f.key.sequence ==> e == f
  {
    assert files[i] in Listed(files) && files[k] in Listed(files);
    assert e in Contents(Listed(files)) && f in Contents(Listed(files));
  }

  lemma RunClosedAt(files: seq<File>, start: nat, n: nat, largest: IKey, i: nat, e: Entry, k: nat, f: Entry)
    requires SortedFiles(files) && start <= i < start + n <= |files| && k < |files|
    requires files[start + n - 1].largest == largest && forall g :: g in files ==> !Boundary(g, largest)
    requires e in files[i].contents && f in files[k].contents
    requires !(start <= k < start + n)
    requires e.key.sequence == f.key.sequence ==> e == f
    requires e.key.user == f.key.user
    ensures f.key.sequence > e.key.sequence
  {
    if k < start {
      FilesApart(files, k, i, f, e);
      LessIrreflexive(e.key.user);
    } else if k >= start + n {
      NoneBehindRun(files, i, start + n, k, e, f, largest);
    }
  }

  lemma FilesApart(files: seq<File>, i: nat, k: nat, e: Entry, f: Entry)
    requires SortedFiles(files) && i < k < |files|
    requires e in files[i].contents && f in files[k].contents
    ensures Before(e.key, f.key)
  {
    assert files[i].Valid() && files[k].Valid();
    InternalKeysOrdered();
  }

  lemma NoneBehindRun(files: seq<File>, i: nat, end: nat, k: nat, e: Entry, f: Entry, largest: IKey)
    requires SortedFiles(files) && i < end <= k < |files|
    requires files[end - 1].largest == largest && forall g :: g in files ==> !Boundary(g, largest)
    requires e in files[i].contents && f in files[k].contents
    ensures e.key.user != f.key.user
  {
    assert files[end] in files && files[end].Valid() && files[k].Valid() && files[i].Valid();
    if e.key.user == f.key.user {
      if i < end - 1 { UserOrderOfFiles(files, i, end - 1); }
      if end < k { UserOrderOfFiles(files, end, k); }
      UserKeysOrdered();
    }
  }

  // At level 0 the files of a closed range are closed.
  lemma RangeIsClosed(files: seq<File>, range: Range)
    requires forall f :: f in files ==> f.Valid()
    requires ClosedRange(files, range)
    ensures Closed(Listed(Touching(files, range)), Listed(files))
  {
    var r := Touching(files, range);
    InTouching(files, range);
    forall e, f | e in Contents(Listed(r)) && f in Contents(Listed(files) - Listed(r))
      ensures e.key.user != f.key.user
    {
      var a := InContents(Listed(r), e);
      var b := InContents(Listed(files) - Listed(r), f);
      KeyInside(range, a, e, b, f);
    }
  }

  lemma KeyInside(range: Range, a: File, e: Entry, b: File, f: Entry)
    requires a.Valid() && b.Valid() && e in a.contents && f in b.contents
    requires range.Covers(a) && !range.Touches(b)
    ensures e.key.user != f.key.user
  {
    UserKeysOrdered();
  }

  // Level 0 has nothing on the boundary of a closed range.
  lemma NothingAdded(files: seq<File>, range: Range, r: seq<File>)
    requires forall f :: f in files ==> f.Valid()
    requires ClosedRange(files, range)
    requires |Touching(files, range)| <= |r| && r[..|Touching(files, range)|] == Touching(files, range)
    requires forall f :: f in r ==> f in files
    requires forall k :: |Touching(files, range)| <= k < |r| ==> AddedAtBoundary(r, k)
    ensures r == Touching(files, range)
  {
    var n := |Touching(files, range)|;
    InTouching(files, range);
    if n < |r| {
      assert AddedAtBoundary(r, n);
      var key :| LargestOf(r[..n], key) && Boundary(r[n], key);
      var f :| f in r[..n] && f.largest == key;
      assert r[n] in files;
      UserKeysOrdered();
      assert range.Touches(r[n]);
      assert r[n] in Touching(files, range);
      InternalKeysOrdered();
    }
  }

  // The level + 1 inputs are all files there that meet the span of the others.
  lemma PlanSelected(files: seq<seq<File>>, levels: Levels, level: nat, in0: seq<File>, smallest: IKey, largest: IKey)
      returns (p: Plan)
    requires Holds7(files, levels) && level + 1 < NUM_LEVELS
    requires in0 != [] && forall f :: f in in0 ==> f in files[level]
    requires SmallestOf(in0, smallest) && LargestOf(in0, largest)
    requires Closed(Listed(in0), levels[level])
    ensures p == Plan(level, Listed(in0), Listed(Touching(files[level + 1], Span(smallest, largest))),
                      smallest.user, largest.user)
    ensures Selected(levels, p)
  {
    var in1 := Touching(files[level + 1], Span(smallest, largest));
    p := Plan(level, Listed(in0), Listed(in1), smallest.user, largest.user);
    InTouching(files[level + 1], Span(smallest, largest));
    assert levels[level] == Listed(files[level]) && levels[level + 1] == Listed(files[level + 1]);
    assert in0[0] in Listed(in0);
    UserKeysOrdered();
  }

  lemma {:induction false} TouchingGrows(files: seq<File>, narrow: Range, wide: Range)
    requires wide.Includes(narrow)
    ensures |Touching(files, narrow)| <= |Touching(files, wide)|
    ensures |Touching(files, narrow)| == |Touching(files, wide)| ==> Touching(files, narrow) == Touching(files, wide)
  {
    if files != [] {
      TouchingGrows(files[..|files| - 1], narrow, wide);
      TouchesWider(narrow, wide, files[|files| - 1]);
    }
  }

  lemma TouchesWider(narrow: Range, wide: Range, f: File)
    requires wide.Includes(narrow)
    ensures narrow.Touches(f) ==> wide.Touches(f)
  {
    UserKeysOrdered();
  }

  // A sorted level: the files that touch a range are a run.
  lemma TouchingIsRun(files: seq<File>, r: Range) returns (start: nat)
    requires SortedFiles(files)
    ensures IsRun(files, start, Touching(files, r))
  {
    var i := 0;
    while i < |files| && r.Behind(files[i])
      invariant i <= |files| && forall k :: 0 <= k < i ==> r.Behind(files[k])
    {
      i := i + 1;
    }
    var j := i;
    while j < |files| && !r.Ahead(files[j])
      invariant i <= j <= |files| && forall k :: i <= k < j ==> !r.Ahead(files[k])
    {
      j := j + 1;
    }
    forall k | i < k < |files| ensures !r.Behind(files[k]) { WasBehind(files, r, i, k); }
    forall k | j < k < |files| ensures r.Ahead(files[k]) { StaysAhead(files, r, j, k); }
    TouchingBetween(files, r, i, j, |files|);
    assert files[..|files|] == files;
    start := i;
  }

  lemma {:induction false} TouchingBetween(files: seq<File>, r: Range, i: nat, j: nat, n: nat)
    requires i <= j <= |files| && n <= |files|
    requires forall k :: 0 <= k < i ==> r.Behind(files[k])
    requires forall k :: i <= k < j ==> r.Touches(files[k])
    requires forall k :: j <= k < |files| ==> r.Ahead(files[k])
    ensures Touching(files[..n], r) == if n <= i then [] else if n <= j then files[i..n] else files[i..j]
  {
    hide Touching, Less;
    TouchingStep(files, r, n);
    if n > 0 {
      TouchingBetween(files, r, i, j, n - 1);
    }
  }

  lemma TouchingStep(files: seq<File>, r: Range, n: nat)
    requires n <= |files|
    ensures n == 0 ==> Touching(files[..n], r) == []
    ensures n > 0 ==>
              Touching(files[..n], r) == Touching(files[..n - 1], r) +
              if r.Touches(files[n - 1]) then [files[n - 1]] else []
  {
    hide Less;
    if n > 0 {
      assert files[..n][..n - 1] == files[..n - 1] && files[..n][n - 1] == files[n - 1];
    }
  }

  lemma StaysAhead(files: seq<File>, r: Range, i: nat, j: nat)
    requires SortedFiles(files) && i < j < |files| && r.Ahead(files[i])
    ensures r.Ahead(files[j])
  {
    UserOrderOfFiles(files, i, j);
    UserKeysOrdered();
  }

  lemma WasBehind(files: seq<File>, r: Range, i: nat, j: nat)
    requires SortedFiles(files) && i < j < |files|
    ensures r.Behind(files[j]) ==> r.Behind(files[i])
  {
    UserOrderOfFiles(files, i, j);
    UserKeysOrdered();
  }

  // What PickCompaction and CompactRange start from: at level 0 the files of a
  // closed range, at a sorted level a run of files.
  ghost predicate Pickable(levelFiles: seq<File>, level0: bool, picked: seq<File>) {
    && picked != []
    && if level0 then exists r: Range :: ClosedRange(levelFiles, r) && picked == Touching(levelFiles, r)
       else exists start: nat :: IsRun(levelFiles, start, picked)
  }

  // Boundary files close the inputs of the upper level.
  method CloseInputs(levelFiles: seq<File>, level0: bool, picked: seq<File>) returns (in0: seq<File>)
    requires forall f :: f in levelFiles ==> f.Valid()
    requires !level0 ==> SortedFiles(levelFiles)
    requires UniqueSequences(Contents(Listed(levelFiles)))
    requires Pickable(levelFiles, level0, picked)
    ensures in0 != [] && forall f :: f in in0 ==> f in levelFiles
    ensures forall f :: f in picked ==> f in in0
    ensures Closed(Listed(in0), Listed(levelFiles)) && Pickable(levelFiles, level0, in0)
  {
    ghost var run := None;
    if !level0 {
      ghost var start: nat :| IsRun(levelFiles, start, picked);
      run := Some(start);
    } else {
      ghost var r: Range :| ClosedRange(levelFiles, r) && picked == Touching(levelFiles, r);
      InTouching(levelFiles, r);
    }
    in0 := AddBoundaryInputs(levelFiles, picked, run);
    assert forall f :: f in picked ==> f in in0[..|picked|];
    if level0 {
      ghost var r: Range :| ClosedRange(levelFiles, r) && picked == Touching(levelFiles, r);
      InTouching(levelFiles, r);
      NothingAdded(levelFiles, r, in0);
      RangeIsClosed(levelFiles, r);
    } else {
      RunIsClosed(levelFiles, run.value, in0);
    }
  }

  ghost predicate PlanInputs(files: seq<seq<File>>, levels: Levels, level: nat, in0: seq<File>)
    requires Holds7(files, levels) && level + 1 < NUM_LEVELS
  {
    && in0 != []
    && (forall f :: f in in0 ==> f in files[level])
    && Closed(Listed(in0), levels[level])
    && Pickable(files[level], level == 0, in0)
  }

  // The upper inputs that meet the whole compaction, boundary files included.
  method Expand(files: seq<seq<File>>, ghost levels: Levels, level: nat, base: seq<File>, in1: seq<File>)
      returns (expanded0: seq<File>)
    requires Holds7(files, levels) && Shaped(levels) && UniqueSequences(All(levels))
    requires level + 1 < NUM_LEVELS && PlanInputs(files, levels, level, base)
    ensures PlanInputs(files, levels, level, expanded0)
    ensures forall f :: f in base ==> f in expanded0
    ensures exists lo, hi :: SmallestOf(base + in1, lo) && LargestOf(base + in1, hi) &&
              forall f :: f in files[level] && Span(lo, hi).Touches(f) ==> f in expanded0
  {
    LevelFacts(files, levels, level);
    var allStart, allLimit := GetRange(base + in1);
    var touched, range := GetOverlappingInputs(files[level], level == 0, Span(allStart, allLimit));
    ghost var start := BaseTouches(files[level], level == 0, base, in1, allStart, allLimit, range);
    expanded0 := CloseInputs(files[level], level == 0, touched);
    InTouching(files[level], range);
    forall f | f in files[level] && Span(allStart, allLimit).Touches(f)
      ensures f in expanded0
    {
      TouchesWider(Span(allStart, allLimit), range, f);
    }
  }

  // See if the upper inputs can grow without picking up more files below.
  method TryGrow(files: seq<seq<File>>, ghost levels: Levels, level: nat, base: seq<File>, in1: seq<File>,
                 ghost span: Range, limit: nat)
      returns (grown: bool, in0: seq<File>, smallest: IKey, largest: IKey)
    requires Holds7(files, levels) && Shaped(levels) && UniqueSequences(All(levels))
    requires level + 1 < NUM_LEVELS && PlanInputs(files, levels, level, base)
    requires SpanOf(base, span) && in1 == Touching(files[level + 1], span)
    ensures PlanInputs(files, levels, level, in0) && forall f :: f in base ==> f in in0
    ensures SmallestOf(in0, smallest) && LargestOf(in0, largest)
    ensures grown <==> |in0| > |base| && Total(in1) + Total(in0) < limit &&
                       Touching(files[level + 1], Span(smallest, largest)) == in1
  {
    in0 := Expand(files, levels, level, base, in1);
    var inputs1Size := TotalFileSize(in1);
    var expanded0Size := TotalFileSize(in0);
    smallest, largest := GetRange(in0);
    grown := false;
    if |in0| > |base| && inputs1Size + expanded0Size < limit {
      var expanded1, _ := GetOverlappingInputs(files[level + 1], false, Span(smallest, largest));
      WiderSpan(base, in0, span, smallest, largest);
      TouchingGrows(files[level + 1], span, Span(smallest, largest));
      grown := |expanded1| == |in1|;
    }
  }

  ghost predicate SpanOf(files: seq<File>, r: Range) {
    exists lo, hi :: SmallestOf(files, lo) && LargestOf(files, hi) && r == Span(lo, hi)
  }

  lemma LevelFacts(files: seq<seq<File>>, levels: Levels, level: nat)
    requires Holds7(files, levels) && Shaped(levels) && level < NUM_LEVELS
    requires UniqueSequences(All(levels))
    ensures levels[level] == Listed(files[level])
    ensures forall f :: f in files[level] ==> f.Valid()
    ensures level > 0 ==> SortedFiles(files[level])
    ensures UniqueSequences(Contents(Listed(files[level])))
  {
    assert FilesValid(levels[level]);
    assert levels[level] == Listed(files[level]);
    forall e | e in Contents(levels[level]) ensures e in All(levels) {
      var f := InContents(levels[level], e);
    }
    if level > 0 { assert SortedFiles(files[level]); }
  }

  lemma BaseTouches(levelFiles: seq<File>, level0: bool, base: seq<File>, in1: seq<File>, lo: IKey, hi: IKey,
                    range: Range)
      returns (start: nat)
    requires base != [] && forall f :: f in base ==> f in levelFiles
    requires forall f :: f in levelFiles ==> f.Valid()
    requires SmallestOf(base + in1, lo) && LargestOf(base + in1, hi)
    requires range.Includes(Span(lo, hi))
    requires if level0 then ClosedRange(levelFiles, range) else SortedFiles(levelFiles)
    ensures forall f :: f in base ==> f in Touching(levelFiles, range)
    ensures Pickable(levelFiles, level0, Touching(levelFiles, range))
  {
    InTouching(levelFiles, range);
    forall f | f in base
      ensures range.Touches(f)
    {
      assert f in base + in1 && f.Valid();
      UserKeysOrdered();
    }
    assert base[0] in base && base[0] in Touching(levelFiles, range);
    start := 0;
    if !level0 { start := TouchingIsRun(levelFiles, range); }
  }

  lemma WiderSpan(few: seq<File>, many: seq<File>, narrow: Range, lo: IKey, hi: IKey)
    requires SpanOf(few, narrow)
    requires forall f :: f in few ==> f in many
    requires SmallestOf(many, lo) && LargestOf(many, hi)
    ensures Span(lo, hi).Includes(narrow)
  {
    var a, b :| SmallestOf(few, a) && LargestOf(few, b) && narrow == Span(a, b);
    var f :| f in few && f.smallest == a;
    var g :| g in few && g.largest == b;
    assert !Before(a, lo) && !Before(hi, b);
  }

  method SetupOtherInputs(files: seq<seq<File>>, ghost levels: Levels, level: nat, picked: seq<File>, limit: nat)
      returns (in0: seq<File>, in1: seq<File>, smallest: IKey, largest: IKey)
    requires Holds7(files, levels) && Shaped(levels) && UniqueSequences(All(levels))
    requires level + 1 < NUM_LEVELS && Pickable(files[level], level == 0, picked)
    ensures Selected(levels, Plan(level, Listed(in0), Listed(in1), smallest.user, largest.user))
    ensures forall f :: f in picked ==> f in in0
    ensures SmallestOf(in0, smallest) && LargestOf(in0, largest)
    ensures in1 == Touching(files[level + 1], Span(smallest, largest)) && Pickable(files[level], level == 0, in0)
    ensures Closed(Listed(in1), levels[level + 1]) <==> in1 == [] || NoBoundaryLeft(files[level + 1], in1)
  {
    hide Closed, NoBoundaryLeft, Shaped, UniqueSequences;
    LevelFacts(files, levels, level);
    in0 := CloseInputs(files[level], level == 0, picked);
    smallest, largest := GetRange(in0);
    ghost var r;
    in1, r := GetOverlappingInputs(files[level + 1], false, Span(smallest, largest));
    assert SpanOf(in0, r);
    if in1 != [] {
      var grown, expanded0, newStart, newLimit := TryGrow(files, levels, level, in0, in1, r, limit);
      if grown {
        in0, smallest, largest := expanded0, newStart, newLimit;
      }
    }
    ghost var p := PlanSelected(files, levels, level, in0, smallest, largest);
    LowerClosedIff(files, levels, level + 1, Span(smallest, largest));
  }

  // Whether the lower inputs are closed is not settled by the selection.
  lemma LowerClosedIff(files: seq<seq<File>>, levels: Levels, l: nat, r: Range)
    requires Holds7(files, levels) && Shaped(levels) && UniqueSequences(All(levels)) && 0 < l < NUM_LEVELS
    ensures var in1 := Touching(files[l], r);
            Closed(Listed(in1), levels[l]) <==> in1 == [] || NoBoundaryLeft(files[l], in1)
  {
    hide Closed, NoBoundaryLeft;
    LevelFacts(files, levels, l);
    var start := TouchingIsRun(files[l], r);
    ClosedIffNoBoundary(files[l], start, Touching(files[l], r));
  }
}
