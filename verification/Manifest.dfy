// Versions as edits: VersionSet::Builder and the replay of a manifest
// (db/version_set.cc, db/version_edit.h).
module Manifest {
  import opened Keys
  import opened Store
  import opened Lsm
  import opened Compaction

  // A file number stands for one file at a level.
  datatype Edit = Edit(deleted: set<(nat, nat)>, added: seq<(nat, File)>) {
    ghost function AddedAt(l: nat): set<File> {
      set k | 0 <= k < |added| && added[k].0 == l :: added[k].1
    }

    function DeletedAt(l: nat): set<nat> {
      set d | d in deleted && d.0 == l :: d.1
    }
  }

  ghost function Numbers(files: set<File>): set<nat> {
    set f | f in files :: f.number
  }

  // What one edit does to one level.
  ghost function After(files: set<File>, edit: Edit, l: nat): set<File> {
    (set f | f in files && f.number !in edit.DeletedAt(l)) + edit.AddedAt(l)
  }

  ghost function AfterAll(files: set<File>, edits: seq<Edit>, l: nat): set<File> {
    if edits == [] then files
    else After(AfterAll(files, edits[..|edits| - 1], l), edits[|edits| - 1], l)
  }

  // Every file a history names at a level, from its base on.
  ghost function Named(files: set<File>, edits: seq<Edit>, l: nat): set<File> {
    if edits == [] then files
    else Named(files, edits[..|edits| - 1], l) + edits[|edits| - 1].AddedAt(l)
  }

  // Each number is added at most once at the level.
  ghost predicate AddedOnce(files: set<File>, edits: seq<Edit>, l: nat) {
    forall n :: 0 <= n < |edits| ==> Numbers(Named(files, edits[..n], l)) !! Numbers(edits[n].AddedAt(l))
  }

  // The order of FileSet: by smallest key, then by number.
  predicate BySmallest(f: File, g: File) {
    Before(f.smallest, g.smallest) || (f.smallest == g.smallest && f.number < g.number)
  }

  ghost predicate InOrder(files: seq<File>) {
    forall i, j :: 0 <= i < j < |files| ==> BySmallest(files[i], files[j])
  }

  ghost predicate NumbersIdentify(files: set<File>) {
    forall f, g :: f in files && g in files && f.number == g.number ==> f == g
  }

  lemma BySmallestOrdered()
    ensures forall f: File :: !BySmallest(f, f)
    ensures forall f: File, g: File, h: File :: BySmallest(f, g) && BySmallest(g, h) ==> BySmallest(f, h)
    ensures forall f: File, g: File ::
              BySmallest(f, g) || BySmallest(g, f) || (f.smallest == g.smallest && f.number == g.number)
  {
    InternalKeysOrdered();
  }

  // One list in order per set of files.
  lemma {:induction false} OrderIsUnique(a: seq<File>, b: seq<File>)
    requires InOrder(a) && InOrder(b) && Listed(a) == Listed(b)
    ensures a == b
  {
    if a == [] {
      if b != [] { HasFiles(b); }
    } else {
      var n, m := |a| - 1, |b| - 1;
      assert a[n] in Listed(b);
      assert b[m] in Listed(b);
      LastIsGreatest(a, b[m]);
      LastIsGreatest(b, a[n]);
      BySmallestOrdered();
      assert a[n] == b[m];
      WithoutLast(a);
      WithoutLast(b);
      OrderIsUnique(a[..n], b[..m]);
      assert a == a[..n] + [a[n]] && b == b[..m] + [b[m]];
    }
  }

  lemma HasFiles(b: seq<File>)
    requires b != []
    ensures Listed(b) != {}
  {
    assert b[0] in Listed(b);
  }

  lemma LastIsGreatest(a: seq<File>, f: File)
    requires InOrder(a) && f in Listed(a)
    ensures f == a[|a| - 1] || BySmallest(f, a[|a| - 1])
  {
  }

  lemma WithoutLast(a: seq<File>)
    requires InOrder(a) && a != []
    ensures InOrder(a[..|a| - 1]) && Listed(a[..|a| - 1]) == Listed(a) - {a[|a| - 1]}
  {
    BySmallestOrdered();
    var n := |a| - 1;
    assert a == a[..n] + [a[n]];
    forall f | f in Listed(a[..n]) ensures f != a[n] {
      var i :| 0 <= i < n && a[i] == f;
      assert BySmallest(a[i], a[n]);
    }
  }

  // Keep the added files of a level in order; an equal key and number is kept.
  lemma ListedInsert(files: seq<File>, i: nat, f: File)
    requires i <= |files|
    ensures Listed(files[..i] + [f] + files[i..]) == Listed(files) + {f}
  {
    var r := files[..i] + [f] + files[i..];
    assert r[i] == f;
    assert forall k :: 0 <= k < i ==> r[k] == files[k];
    assert forall k :: i <= k < |files| ==> r[k + 1] == files[k];
  }

  method InsertFile(files: seq<File>, f: File) returns (r: seq<File>)
    requires InOrder(files) && NumbersIdentify(Listed(files) + {f})
    ensures InOrder(r) && Listed(r) == Listed(files) + {f}
  {
    BySmallestOrdered();
    var i := 0;
    while i < |files| && BySmallest(files[i], f)
      invariant 0 <= i <= |files|
      invariant forall k :: 0 <= k < i ==> BySmallest(files[k], f)
    {
      i := i + 1;
    }
    if i < |files| && !BySmallest(f, files[i]) {
      assert files[i] in Listed(files) + {f};
      assert files[i] == f;
      r := files;
    } else {
      r := files[..i] + [f] + files[i..];
      ListedInsert(files, i, f);
    }
  }

  lemma FewerIdentify(few: set<File>, many: set<File>)
    requires few <= many && NumbersIdentify(many)
    ensures NumbersIdentify(few)
  {
  }

  // The state VersionSet::Builder keeps for one level.
  class LevelState {
    const level: nat
    const base: seq<File>
    var deletedFiles: set<nat>
    var addedFiles: seq<File>

    ghost predicate Valid()
      reads this
    {
      InOrder(base) && InOrder(addedFiles) && Listed(base) !! Listed(addedFiles)
    }

    // What SaveTo would write for the level now.
    ghost function Saved(): set<File>
      reads this
    {
      set f | f in Listed(base) + Listed(addedFiles) && f.number !in deletedFiles
    }

    ghost function Known(): set<File>
      reads this
    {
      Listed(base) + Listed(addedFiles)
    }

    constructor (level: nat, base: seq<File>)
      requires InOrder(base)
      ensures Valid() && this.level == level && this.base == base
      ensures Saved() == Listed(base) && Known() == Listed(base)
    {
      this.level, this.base := level, base;
      deletedFiles, addedFiles := {}, [];
    }

    // An edit whose numbers are all new acts as it would on its own.
    method Apply(edit: Edit)
      requires Valid()
      requires NumbersIdentify(Known() + edit.AddedAt(level))
      requires Numbers(Known()) !! Numbers(edit.AddedAt(level))
      modifies this
      ensures Valid()
      ensures Saved() == After(old(Saved()), edit, level)
      ensures Known() == old(Known()) + edit.AddedAt(level)
    {
      hide InOrder;
      ghost var known, added := Known(), Listed(addedFiles);
      deletedFiles := deletedFiles + edit.DeletedAt(level);
      ghost var deleted := deletedFiles;
      for i := 0 to |edit.added|
        invariant Valid()
        invariant Listed(addedFiles) == added + AddedUpTo(edit, i, level)
        invariant deletedFiles == deleted - Numbers(AddedUpTo(edit, i, level))
      {
        AddedStep(edit, i, level);
        if edit.added[i].0 == level {
          var f := edit.added[i].1;
          deletedFiles := deletedFiles - {f.number};
          assert f in edit.AddedAt(level) && f.number in Numbers(edit.AddedAt(level));
          assert f in known ==> f.number in Numbers(known);
          FewerIdentify(Listed(addedFiles) + {f}, known + edit.AddedAt(level));
          addedFiles := InsertFile(addedFiles, f);
        }
      }
      NetEffect(known, edit.AddedAt(level), old(deletedFiles), edit.DeletedAt(level));
    }

    // Merge the base files and the added files, leaving out the deleted ones.
    method SaveTo() returns (v: seq<File>)
      requires Valid() && NumbersIdentify(Known())
      ensures InOrder(v) && Listed(v) == Saved()
    {
      v := [];
      var b := 0;
      for a := 0 to |addedFiles|
        invariant b <= |base|
        invariant Merged(base, b, addedFiles, a, deletedFiles, v)
      {
        var f := addedFiles[a];
        while b < |base| && !BySmallest(f, base[b])
          invariant b <= |base|
          invariant Merged(base, b, addedFiles, a, deletedFiles, v)
        {
          NotAfter(base, b, addedFiles, a);
          TakeBase(base, b, addedFiles, a, deletedFiles, v);
          v := MaybeAddFile(v, base[b]);
          b := b + 1;
        }
        NextBaseAfter(base, b, f);
        TakeAdded(base, b, addedFiles, a, deletedFiles, v);
        v := MaybeAddFile(v, f);
      }
      while b < |base|
        invariant b <= |base|
        invariant Merged(base, b, addedFiles, |addedFiles|, deletedFiles, v)
      {
        TakeBase(base, b, addedFiles, |addedFiles|, deletedFiles, v);
        v := MaybeAddFile(v, base[b]);
        b := b + 1;
      }
      assert base[..b] + addedFiles[..|addedFiles|] == base + addedFiles;
    }

    method MaybeAddFile(files: seq<File>, f: File) returns (r: seq<File>)
      ensures r == if f.number in deletedFiles then files else files + [f]
    {
      r := if f.number in deletedFiles then files else files + [f];
    }
  }

  // b base files and a added files have been merged; every one of them comes
  // before all the files of the other list still to come.
  ghost predicate Merged(base: seq<File>, b: nat, added: seq<File>, a: nat, deleted: set<nat>, v: seq<File>)
    requires b <= |base| && a <= |added|
  {
    && InOrder(v)
    && Listed(v) == Remaining(base[..b] + added[..a], deleted)
    && (forall i, j :: 0 <= i < a && b <= j < |base| ==> BySmallest(added[i], base[j]))
    && (forall i, j :: a <= i < |added| && 0 <= j < b ==> BySmallest(base[j], added[i]))
  }

  // A base file that the next added file does not precede goes first.
  lemma NotAfter(base: seq<File>, b: nat, added: seq<File>, a: nat)
    requires InOrder(base) && InOrder(added) && b < |base| && a < |added|
    requires Listed(base) !! Listed(added) && NumbersIdentify(Listed(base) + Listed(added))
    requires !BySmallest(added[a], base[b])
    ensures forall i :: a <= i < |added| ==> BySmallest(base[b], added[i])
  {
    BySmallestOrdered();
    assert base[b] in Listed(base) && added[a] in Listed(added);
  }

  lemma NextBaseAfter(base: seq<File>, b: nat, f: File)
    requires InOrder(base) && b <= |base| && (b < |base| ==> BySmallest(f, base[b]))
    ensures forall j :: b <= j < |base| ==> BySmallest(f, base[j])
  {
    BySmallestOrdered();
  }

  lemma TakeBase(base: seq<File>, b: nat, added: seq<File>, a: nat, deleted: set<nat>, v: seq<File>)
    requires InOrder(base) && b < |base| && a <= |added|
    requires Merged(base, b, added, a, deleted, v)
    requires forall i :: a <= i < |added| ==> BySmallest(base[b], added[i])
    ensures Merged(base, b + 1, added, a, deleted, if base[b].number in deleted then v else v + [base[b]])
  {
    forall f | f in v
      ensures BySmallest(f, base[b])
    {
      assert f in Listed(v);
      assert f in base[..b] || f in added[..a];
    }
    AppendInOrder(v, base[b]);
    assert Remaining(base[..b + 1] + added[..a], deleted)
        == Remaining(base[..b] + added[..a], deleted) + (if base[b].number in deleted then {} else {base[b]}) by {
      assert base[..b + 1] == base[..b] + [base[b]];
    }
  }

  lemma TakeAdded(base: seq<File>, b: nat, added: seq<File>, a: nat, deleted: set<nat>, v: seq<File>)
    requires InOrder(added) && b <= |base| && a < |added|
    requires Merged(base, b, added, a, deleted, v)
    requires forall j :: b <= j < |base| ==> BySmallest(added[a], base[j])
    ensures Merged(base, b, added, a + 1, deleted, if added[a].number in deleted then v else v + [added[a]])
  {
    forall f | f in v
      ensures BySmallest(f, added[a])
    {
      assert f in Listed(v);
      assert f in base[..b] || f in added[..a];
    }
    AppendInOrder(v, added[a]);
    assert Remaining(base[..b] + added[..a + 1], deleted)
        == Remaining(base[..b] + added[..a], deleted) + (if added[a].number in deleted then {} else {added[a]}) by {
      assert added[..a + 1] == added[..a] + [added[a]];
    }
  }

  lemma AppendInOrder(v: seq<File>, f: File)
    requires InOrder(v) && forall g :: g in v ==> BySmallest(g, f)
    ensures InOrder(v + [f]) && Listed(v + [f]) == Listed(v) + {f}
  {
    assert (v + [f])[|v|] == f;
  }

  ghost function Remaining(files: seq<File>, deleted: set<nat>): set<File> {
    set f | f in files && f.number !in deleted
  }

  ghost function AddedUpTo(edit: Edit, n: nat, l: nat): set<File>
    requires n <= |edit.added|
  {
    set k | 0 <= k < n && edit.added[k].0 == l :: edit.added[k].1
  }

  lemma AddedStep(edit: Edit, n: nat, l: nat)
    requires n < |edit.added|
    ensures AddedUpTo(edit, n + 1, l) == AddedUpTo(edit, n, l) + if edit.added[n].0 == l then {edit.added[n].1} else {}
    ensures AddedUpTo(edit, n + 1, l) <= edit.AddedAt(l)
  {
  }

  lemma NetEffect(known: set<File>, added: set<File>, deleted: set<nat>, more: set<nat>)
    requires Numbers(known) !! Numbers(added)
    ensures (set f | f in known + added && f.number !in (deleted + more) - Numbers(added))
         == (set f | f in (set g | g in known && g.number !in deleted) && f.number !in more) + added
  {
    assert forall f :: f in known ==> f.number in Numbers(known);
    assert forall f :: f in added ==> f.number in Numbers(added);
  }

  // ---- Replay ----

  // VersionSet::Recover: a whole manifest through one builder, saved once.
  method Replay(base: seq<File>, edits: seq<Edit>, l: nat) returns (v: seq<File>)
    requires InOrder(base) && NumbersIdentify(Named(Listed(base), edits, l))
    requires AddedOnce(Listed(base), edits, l)
    ensures InOrder(v) && Listed(v) == AfterAll(Listed(base), edits, l)
  {
    var builder := new LevelState(l, base);
    for i := 0 to |edits|
      invariant builder.Valid() && fresh(builder) && builder.level == l
      invariant builder.Known() == Named(Listed(base), edits[..i], l)
      invariant builder.Saved() == AfterAll(Listed(base), edits[..i], l)
    {
      assert edits[..i + 1][..i] == edits[..i] && edits[..i + 1][i] == edits[i];
      NamedGrows(Listed(base), edits, i + 1, l);
      FewerIdentify(Named(Listed(base), edits[..i + 1], l), Named(Listed(base), edits, l));
      builder.Apply(edits[i]);
    }
    assert edits[..|edits|] == edits;
    v := builder.SaveTo();
  }

  lemma {:induction false} NamedGrows(files: set<File>, edits: seq<Edit>, n: nat, l: nat)
    requires n <= |edits|
    ensures Named(files, edits[..n], l) <= Named(files, edits, l)
    decreases |edits| - n
  {
    if n < |edits| {
      assert edits[..n + 1][..n] == edits[..n];
      NamedGrows(files, edits, n + 1, l);
    } else {
      assert edits[..n] == edits;
    }
  }

  // VersionSet::LogAndApply, once per edit: a builder and a version each time.
  method InstallEach(base: seq<File>, edits: seq<Edit>, l: nat) returns (v: seq<File>)
    requires InOrder(base) && NumbersIdentify(Named(Listed(base), edits, l))
    requires AddedOnce(Listed(base), edits, l)
    ensures InOrder(v) && Listed(v) == AfterAll(Listed(base), edits, l)
  {
    v := base;
    for i := 0 to |edits|
      invariant InOrder(v) && Listed(v) == AfterAll(Listed(base), edits[..i], l)
    {
      assert edits[..i + 1][..i] == edits[..i] && edits[..i + 1][i] == edits[i];
      NamedGrows(Listed(base), edits, i + 1, l);
      AfterIsNamed(Listed(base), edits[..i], l);
      FewerIdentify(Listed(v) + edits[i].AddedAt(l), Named(Listed(base), edits, l));
      var builder := new LevelState(l, v);
      builder.Apply(edits[i]);
      FewerIdentify(builder.Known(), Named(Listed(base), edits, l));
      v := builder.SaveTo();
    }
    assert edits[..|edits|] == edits;
  }

  lemma {:induction false} AfterIsNamed(files: set<File>, edits: seq<Edit>, l: nat)
    ensures AfterAll(files, edits, l) <= Named(files, edits, l)
    ensures Numbers(AfterAll(files, edits, l)) <= Numbers(Named(files, edits, l))
  {
    if edits != [] {
      AfterIsNamed(files, edits[..|edits| - 1], l);
    }
  }

  // Recovery rebuilds exactly the file lists that were current.
  method RecoveredEqualsInstalled(base: seq<File>, edits: seq<Edit>, l: nat)
      returns (recovered: seq<File>, installed: seq<File>)
    requires InOrder(base) && NumbersIdentify(Named(Listed(base), edits, l))
    requires AddedOnce(Listed(base), edits, l)
    ensures recovered == installed
  {
    recovered := Replay(base, edits, l);
    installed := InstallEach(base, edits, l);
    OrderIsUnique(recovered, installed);
  }

  // A level whose files are apart is saved in the order lookups rely on.
  lemma SavedIsSorted(v: seq<File>)
    requires InOrder(v) && FilesValid(Listed(v)) && Disjoint(Listed(v))
    ensures SortedFiles(v)
  {
    BySmallestOrdered();
    forall f | f in v ensures f.Valid() { assert f in Listed(v); }
    forall i, j | 0 <= i < j < |v|
      ensures Before(v[i].largest, v[j].smallest)
    {
      assert v[i] in Listed(v) && v[j] in Listed(v) && v[i] != v[j];
      SmallestFirst(v[i], v[j]);
    }
  }

  lemma SmallestFirst(f: File, g: File)
    requires f.Valid() && g.Valid() && BySmallest(f, g)
    requires Before(f.largest, g.smallest) || Before(g.largest, f.smallest)
    ensures Before(f.largest, g.smallest)
  {
    InternalKeysOrdered();
  }
}
