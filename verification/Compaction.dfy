// The compaction loop (Compaction in db/version_set.cc, DoCompactionWork in
// db/db_impl.cc), over the sorted file lists of the input version.
module Compaction {
  import opened Keys
  import opened Store
  import opened Lsm
  import opened CompactionSafety
  import opened Options

  ghost function Listed(files: seq<File>): set<File> {
    set f | f in files
  }

  ghost predicate SortedFiles(files: seq<File>) {
    && (forall f :: f in files ==> f.Valid())
    && (forall i, j :: 0 <= i < j < |files| ==> Before(files[i].largest, files[j].smallest))
  }

  ghost predicate SortedEntries(entries: seq<Entry>) {
    forall i, j :: 0 <= i < j < |entries| ==> Before(entries[i].key, entries[j].key)
  }

  ghost function Elements(entries: seq<Entry>): set<Entry> {
    set e | e in entries
  }

  // The file of a level that the key falls before closes the rest of the level.
  lemma RestIsPast(files: seq<File>, k: nat, u: UserKey)
    requires SortedFiles(files) && k < |files|
    requires Less(u, files[k].smallest.user)
    ensures forall i :: k <= i < |files| ==> !files[i].Overlaps(u, u)
  {
    UserKeysOrdered();
    forall i | k < i < |files|
      ensures Less(u, files[i].smallest.user)
    {
      assert files[k] in files && files[k].Valid();
    }
  }

  lemma StillBehind(f: File, last: UserKey, u: UserKey)
    requires Less(f.largest.user, last) && AtMost(last, u)
    ensures Less(f.largest.user, u)
  {
    UserKeysOrdered();
  }

  class Compaction {
    const level: nat
    const files: seq<seq<File>>
    const levelPtrs: array<nat>
    ghost var last: Option<UserKey>

    // A cursor never passes a file that a key still to come could meet.
    ghost predicate Valid()
      reads this, levelPtrs
    {
      && level + 1 < NUM_LEVELS
      && |files| == NUM_LEVELS
      && levelPtrs.Length == NUM_LEVELS
      && (forall l :: level + 2 <= l < NUM_LEVELS ==> SortedFiles(files[l]))
      && (forall l :: 0 <= l < NUM_LEVELS ==> levelPtrs[l] <= |files[l]|)
      && (forall l, i :: level + 2 <= l < NUM_LEVELS && 0 <= i < levelPtrs[l] ==>
            last.Some? && Less(files[l][i].largest.user, last.value))
    }

    // The full scan that the cursors save.
    ghost predicate NoDeeperFile(u: UserKey)
      requires |files| == NUM_LEVELS
    {
      forall l, i :: level + 2 <= l < NUM_LEVELS && 0 <= i < |files[l]| ==> !files[l][i].Overlaps(u, u)
    }

    constructor (level: nat, files: seq<seq<File>>)
      requires level + 1 < NUM_LEVELS && |files| == NUM_LEVELS
      requires forall l :: level + 2 <= l < NUM_LEVELS ==> SortedFiles(files[l])
      ensures Valid() && last == None && fresh(levelPtrs)
      ensures this.level == level && this.files == files
    {
      this.level, this.files := level, files;
      levelPtrs := new nat[NUM_LEVELS](_ => 0);
      last := None;
    }

    method IsBaseLevelForKey(u: UserKey) returns (r: bool)
      requires Valid()
      requires last.Some? ==> AtMost(last.value, u)
      modifies this`last, levelPtrs
      ensures Valid() && last == Some(u)
      ensures r <==> NoDeeperFile(u)
    {
      forall l, i | level + 2 <= l < NUM_LEVELS && 0 <= i < levelPtrs[l]
        ensures Less(files[l][i].largest.user, u)
      {
        StillBehind(files[l][i], last.value, u);
      }
      last := Some(u);
      var lvl := level + 2;
      while lvl < NUM_LEVELS
        invariant level + 2 <= lvl <= NUM_LEVELS
        invariant Valid() && last == Some(u)
        invariant forall l, i :: level + 2 <= l < lvl && 0 <= i < |files[l]| ==> !files[l][i].Overlaps(u, u)
      {
        var list := files[lvl];
        while levelPtrs[lvl] < |list|
          invariant Valid() && last == Some(u)
          decreases |list| - levelPtrs[lvl]
        {
          var f := list[levelPtrs[lvl]];
          if !Less(f.largest.user, u) {
            if !Less(u, f.smallest.user) {
              return false;
            }
            RestIsPast(list, levelPtrs[lvl], u);
            break;
          }
          levelPtrs[lvl] := levelPtrs[lvl] + 1;
        }
        assert forall i :: 0 <= i < levelPtrs[lvl] ==> Less(list[i].largest.user, u);
        lvl := lvl + 1;
      }
      return true;
    }

    // Rules (A) and (B) of the loop, in terms of the whole input.
    ghost predicate DroppedAt(input: seq<Entry>, i: nat, snap: nat)
      requires i < |input| && |files| == NUM_LEVELS
    {
      || Seen(input, i, snap)
      || Obsolete(snap, NoDeeperFile(input[i].key.user), input[i])
    }

    ghost function Survivors(input: seq<Entry>, n: nat, snap: nat): seq<Entry>
      requires n <= |input| && |files| == NUM_LEVELS
    {
      if n == 0 then []
      else Survivors(input, n - 1, snap) + if DroppedAt(input, n - 1, snap) then [] else [input[n - 1]]
    }

    // The cursors have not been asked about a key beyond the current one.
    ghost predicate Behind(current: Option<UserKey>)
      reads this
    {
      last.Some? ==> current.Some? && AtMost(last.value, current.value)
    }

    // The loop's decision on entry i.
    method ShouldDrop(input: seq<Entry>, i: nat, snap: nat, current: Option<UserKey>, lastSequence: nat)
        returns (drop: bool)
      requires Valid() && Behind(current)
      requires SortedEntries(input) && i < |input| && snap < MAX_SEQUENCE
      requires Remembers(input, i, current, lastSequence)
      modifies this`last, levelPtrs
      ensures Valid() && Behind(Some(input[i].key.user))
      ensures drop <==> DroppedAt(input, i, snap)
    {
      var ikey := input[i].key;
      var lastSequenceForKey := lastSequence;
      LastDecides(input, i, snap);
      UserKeysOrdered();
      if current != Some(ikey.user) {
        lastSequenceForKey := MAX_SEQUENCE;
      }
      drop := false;
      if lastSequenceForKey <= snap {
        drop := true;
      } else if ikey.kind.Deletion? && ikey.sequence <= snap {
        drop := IsBaseLevelForKey(ikey.user);
      }
    }

    // After n entries: what the loop remembers, and that the finished outputs
    // with the open builder hold the survivors so far.
    ghost predicate Progress(input: seq<Entry>, n: nat, snap: nat, first: nat, st: LoopState, groups: seq<seq<Entry>>)
      requires n <= |input| && |files| == NUM_LEVELS
    {
      && Remembers(input, n, st.currentUserKey, st.lastSequenceForKey)
      && st.w.Numbered(first)
      && st.w.Wrote(groups)
      && Flatten(groups) + st.w.builder == Survivors(input, n, snap)
    }

    // The loop's body.  Where an output file is closed is left open: before an
    // entry or after it.
    method Process(input: seq<Entry>, i: nat, snap: nat, ghost first: nat, st: LoopState, ghost groups: seq<seq<Entry>>)
        returns (r: LoopState, ghost g: seq<seq<Entry>>)
      requires Valid() && Behind(st.currentUserKey)
      requires SortedEntries(input) && i < |input| && snap < MAX_SEQUENCE
      requires Progress(input, i, snap, first, st, groups)
      modifies this`last, levelPtrs
      ensures Valid() && Behind(r.currentUserKey)
      ensures Progress(input, i + 1, snap, first, r, g)
    {
      var stopBefore: bool := *;
      var w;
      w, g := Close(stopBefore, st.w, groups, first);
      var drop := ShouldDrop(input, i, snap, st.currentUserKey, st.lastSequenceForKey);
      if !drop {
        w, g := Take(w, g, input[i], first);
      }
      r := LoopState(w, Some(input[i].key.user), input[i].key.sequence);
    }

    method DoCompactionWork(input: seq<Entry>, snap: nat, firstNumber: nat)
        returns (outputs: seq<File>, nextNumber: nat)
      requires Valid() && last == None
      requires SortedEntries(input)
      requires snap < MAX_SEQUENCE
      modifies this`last, levelPtrs
      ensures SortedFiles(outputs)
      ensures Contents(Listed(outputs)) == Elements(Survivors(input, |input|, snap))
      ensures firstNumber <= nextNumber
      ensures forall k :: 0 <= k < |outputs| ==> firstNumber <= outputs[k].number < nextNumber
      ensures forall k, l :: 0 <= k < l < |outputs| ==> outputs[k].number < outputs[l].number
    {
      var st := LoopState(Writer([], [], 0, firstNumber), None, MAX_SEQUENCE);
      ghost var groups: seq<seq<Entry>> := [];
      var i := 0;
      while i < |input|
        invariant 0 <= i <= |input|
        invariant Valid() && Behind(st.currentUserKey)
        invariant Progress(input, i, snap, firstNumber, st, groups)
      {
        st, groups := Process(input, i, snap, firstNumber, st, groups);
        i := i + 1;
      }
      var w;
      w, groups := Close(true, st.w, groups, firstNumber);
      AllWritten(w, groups, input, snap);
      outputs, nextNumber := w.outputs, w.nextNumber;
    }

    lemma AllWritten(w: Writer, groups: seq<seq<Entry>>, input: seq<Entry>, snap: nat)
      requires SortedEntries(input) && |files| == NUM_LEVELS
      requires w.Wrote(groups) && w.builder == []
      requires Flatten(groups) + w.builder == Survivors(input, |input|, snap)
      ensures SortedFiles(w.outputs)
      ensures Contents(Listed(w.outputs)) == Elements(Survivors(input, |input|, snap))
    {
      assert Flatten(groups) == Survivors(input, |input|, snap);
      SurvivorsSorted(input, |input|, snap);
      GroupsSorted(w.outputs, groups);
    }

    // The file lists the loop walks are those of the levels.
    ghost predicate Walks(levels: Levels, p: Plan)
      requires |files| == NUM_LEVELS
    {
      && level == p.level
      && (forall l {:trigger files[l]} :: 0 <= l < NUM_LEVELS ==> levels[l] == Listed(files[l]))
    }

    lemma DropsAgree(levels: Levels, p: Plan, input: seq<Entry>, i: nat, snap: nat)
      requires SortedEntries(input) && i < |input| && |files| == NUM_LEVELS
      requires Walks(levels, p) && Elements(input) == p.Inputs() && UniqueSequences(p.Inputs())
      ensures DroppedAt(input, i, snap) <==> input[i] !in Kept(levels, p, snap)
    {
      assert input[i] in Elements(input);
      SeenIsHidden(input, i, snap);
      var u := input[i].key.user;
      assert NoDeeperFile(u) <==> BaseLevel(levels, p.level + 2, u) by {
        forall l, f | level + 2 <= l < NUM_LEVELS && f in levels[l]
          ensures exists k :: 0 <= k < |files[l]| && files[l][k] == f
        {
          assert f in Listed(files[l]);
        }
        forall l, k | level + 2 <= l < NUM_LEVELS && 0 <= k < |files[l]|
          ensures files[l][k] in levels[l]
        {
          assert files[l][k] in Listed(files[l]);
        }
      }
    }

    lemma {:induction false} SurvivorsAre(kept: set<Entry>, input: seq<Entry>, n: nat, snap: nat)
      requires n <= |input| && |files| == NUM_LEVELS
      requires forall i :: 0 <= i < |input| ==> (DroppedAt(input, i, snap) <==> input[i] !in kept)
      ensures Elements(Survivors(input, n, snap)) == kept * Elements(input[..n])
    {
      if n > 0 {
        SurvivorsAre(kept, input, n - 1, snap);
        assert input[..n] == input[..n - 1] + [input[n - 1]];
        ElementsStep(input[..n - 1], input[n - 1], Survivors(input, n - 1, snap), kept);
      }
    }

    // What DoCompactionWork writes is what the compaction theorem speaks of.
    lemma WritesOutputs(levels: Levels, p: Plan, input: seq<Entry>, snap: nat, outputs: seq<File>)
      requires SortedEntries(input) && |files| == NUM_LEVELS
      requires Walks(levels, p) && Elements(input) == p.Inputs() && UniqueSequences(p.Inputs())
      requires SortedFiles(outputs)
      requires Contents(Listed(outputs)) == Elements(Survivors(input, |input|, snap))
      ensures Outputs(levels, p, snap, Listed(outputs))
    {
      var kept := Kept(levels, p, snap);
      forall i | 0 <= i < |input|
        ensures DroppedAt(input, i, snap) <==> input[i] !in kept
      {
        DropsAgree(levels, p, input, i, snap);
      }
      SurvivorsAre(kept, input, |input|, snap);
      assert input[..|input|] == input;
      assert kept <= Elements(input);
    }

    lemma {:induction false} SurvivorsSorted(input: seq<Entry>, n: nat, snap: nat)
      requires SortedEntries(input) && n <= |input| && |files| == NUM_LEVELS
      ensures SortedEntries(Survivors(input, n, snap))
      ensures forall e :: e in Survivors(input, n, snap) ==> e in input[..n]
    {
      if n > 0 {
        SurvivorsSorted(input, n - 1, snap);
        var before := Survivors(input, n - 1, snap);
        assert input[..n] == input[..n - 1] + [input[n - 1]];
        forall k | 0 <= k < |before|
          ensures Before(before[k].key, input[n - 1].key)
        {
          assert before[k] in input[..n - 1];
        }
      }
    }
  }

  // What the loop carries along.
  datatype LoopState = LoopState(w: Writer, currentUserKey: Option<UserKey>, lastSequenceForKey: nat)

  // The finished outputs, the open builder, its file number and the next one.
  datatype Writer = Writer(outputs: seq<File>, builder: seq<Entry>, number: nat, nextNumber: nat) {
    ghost predicate Numbered(first: nat) {
      && first <= nextNumber
      && (builder != [] ==> first <= number == nextNumber - 1)
      && (forall k :: 0 <= k < |outputs| ==> first <= outputs[k].number < if builder != [] then number else nextNumber)
      && (forall k, l :: 0 <= k < l < |outputs| ==> outputs[k].number < outputs[l].number)
    }

    // Each output holds one group of consecutive entries, bounds included.
    ghost predicate Wrote(groups: seq<seq<Entry>>) {
      && |groups| == |outputs|
      && forall k :: 0 <= k < |outputs| ==> Holds(outputs[k], groups[k])
    }

    // The entry goes to the open output file; one is opened if there is none.
    function Add(e: Entry): Writer {
      if builder == [] then Writer(outputs, [e], nextNumber, nextNumber + 1)
      else this.(builder := builder + [e])
    }
  }

  ghost predicate Holds(f: File, entries: seq<Entry>) {
    && entries != []
    && f.smallest == entries[0].key
    && f.largest == entries[|entries| - 1].key
    && f.contents == Elements(entries)
  }

  ghost function Flatten(groups: seq<seq<Entry>>): seq<Entry> {
    if groups == [] then [] else Flatten(groups[..|groups| - 1]) + groups[|groups| - 1]
  }

  // FinishCompactionOutputFile, when asked to and a file is open.
  method Close(close: bool, w: Writer, ghost groups: seq<seq<Entry>>, ghost first: nat)
      returns (r: Writer, ghost g: seq<seq<Entry>>)
    requires w.Numbered(first) && w.Wrote(groups)
    ensures r.Numbered(first) && r.Wrote(g)
    ensures Flatten(g) + r.builder == Flatten(groups) + w.builder
    ensures close ==> r.builder == []
  {
    r, g := w, groups;
    if close && w.builder != [] {
      var size: nat := *;
      var file := File(w.number, size, w.builder[0].key, w.builder[|w.builder| - 1].key, set e | e in w.builder);
      r := Writer(w.outputs + [file], [], w.number, w.nextNumber);
      g := groups + [w.builder];
      assert g[..|groups|] == groups;
    }
  }

  // Write an entry, and close the output file if it is big enough now.
  method Take(w: Writer, ghost groups: seq<seq<Entry>>, e: Entry, ghost first: nat)
      returns (r: Writer, ghost g: seq<seq<Entry>>)
    requires w.Numbered(first) && w.Wrote(groups)
    ensures r.Numbered(first) && r.Wrote(g)
    ensures Flatten(g) + r.builder == Flatten(groups) + w.builder + [e]
  {
    var full: bool := *;
    r, g := Close(full, w.Add(e), groups, first);
  }

  // Cutting a sorted run into files gives sorted files with just its entries.
  lemma {:induction false} GroupsSorted(outputs: seq<File>, groups: seq<seq<Entry>>)
    requires |outputs| == |groups| && forall k :: 0 <= k < |outputs| ==> Holds(outputs[k], groups[k])
    requires SortedEntries(Flatten(groups))
    ensures SortedFiles(outputs)
    ensures Contents(Listed(outputs)) == Elements(Flatten(groups))
  {
    if groups != [] {
      var n := |groups| - 1;
      var before, last := Flatten(groups[..n]), groups[n];
      assert Flatten(groups) == before + last;
      HalvesSorted(before, last);
      GroupsSorted(outputs[..n], groups[..n]);
      assert outputs == outputs[..n] + [outputs[n]];
      AppendedContents(outputs[..n], outputs[n]);
      HeldFileValid(outputs[n], last);
      forall k | 0 <= k < n
        ensures Before(outputs[k].largest, outputs[n].smallest)
      {
        LargestIn(outputs[..n], outputs[k], before);
      }
    }
  }

  lemma LargestIn(outputs: seq<File>, f: File, before: seq<Entry>)
    requires f in outputs && f.Valid()
    requires Contents(Listed(outputs)) == Elements(before)
    ensures exists i :: 0 <= i < |before| && before[i].key == f.largest
  {
    var e :| e in f.contents && e.key == f.largest;
    assert e in Contents(Listed(outputs));
    assert e in before;
  }

  lemma HalvesSorted(a: seq<Entry>, b: seq<Entry>)
    requires SortedEntries(a + b)
    ensures SortedEntries(a) && SortedEntries(b)
    ensures forall i, j :: 0 <= i < |a| && 0 <= j < |b| ==> Before(a[i].key, b[j].key)
  {
    assert forall i :: 0 <= i < |a| ==> a[i] == (a + b)[i];
    assert forall j :: 0 <= j < |b| ==> b[j] == (a + b)[|a| + j];
  }

  lemma HeldFileValid(f: File, entries: seq<Entry>)
    requires Holds(f, entries) && SortedEntries(entries)
    ensures f.Valid()
  {
    InternalKeysOrdered();
    assert entries[0] in f.contents && entries[|entries| - 1] in f.contents;
  }

  // An entry of the same user key that every snapshot sees came before.
  ghost predicate Seen(input: seq<Entry>, i: nat, snap: nat)
    requires i < |input|
  {
    exists j :: 0 <= j < i && input[j].key.user == input[i].key.user && input[j].key.sequence <= snap
  }

  lemma ElementsStep(all: seq<Entry>, e: Entry, some: seq<Entry>, kept: set<Entry>)
    requires Elements(some) == kept * Elements(all)
    ensures Elements(some + if e in kept then [e] else []) == kept * Elements(all + [e])
  {
    assert Elements(all + [e]) == Elements(all) + {e};
    assert Elements(some + [e]) == Elements(some) + {e};
    assert some + [] == some;
  }

  // Earlier in the merged input is newer, for one user key.
  lemma SeenIsHidden(input: seq<Entry>, i: nat, snap: nat)
    requires SortedEntries(input) && i < |input| && UniqueSequences(Elements(input))
    ensures Seen(input, i, snap) <==> Hidden(Elements(input), snap, input[i])
  {
    var e := input[i];
    assert !Less(e.key.user, e.key.user) by { LessIrreflexive(e.key.user); }
    if Seen(input, i, snap) {
      var j :| 0 <= j < i && input[j].key.user == e.key.user && input[j].key.sequence <= snap;
      assert input[j] in Elements(input) && e in Elements(input);
    }
    if Hidden(Elements(input), snap, e) {
      var f :| f in Elements(input) && f.key.user == e.key.user && e.key.sequence < f.key.sequence <= snap;
      var j :| 0 <= j < |input| && input[j] == f;
      if i < j { assert Before(e.key, f.key); }
    }
  }

  // What the loop carries from one entry to the next.
  ghost predicate Remembers(input: seq<Entry>, i: nat, current: Option<UserKey>, lastSequence: nat)
    requires i <= |input|
  {
    if i == 0 then current.None?
    else current == Some(input[i - 1].key.user) && lastSequence == input[i - 1].key.sequence
  }

  // The previous entry alone tells whether one came before.
  lemma LastDecides(input: seq<Entry>, i: nat, snap: nat)
    requires SortedEntries(input) && i < |input|
    ensures i > 0 ==> AtMost(input[i - 1].key.user, input[i].key.user)
    ensures Seen(input, i, snap) <==>
              i > 0 && input[i - 1].key.user == input[i].key.user && input[i - 1].key.sequence <= snap
  {
    UserKeysOrdered();
  }

  lemma AppendedContents(outputs: seq<File>, f: File)
    ensures Contents(Listed(outputs + [f])) == Contents(Listed(outputs)) + f.contents
  {
    assert (outputs + [f])[|outputs|] == f;
    assert Listed(outputs + [f]) == Listed(outputs) + {f};
    forall e | e in Contents(Listed(outputs)) + f.contents
      ensures e in Contents(Listed(outputs) + {f})
    {
      if e !in f.contents { var g := InContents(Listed(outputs), e); }
    }
  }
}
