// The tree of levels: table files, the shape every version keeps, and what one
// compaction does to it (db/version_set.cc, db/db_impl.cc).
module Lsm {
  import opened Keys
  import opened Store

  const NUM_LEVELS: nat := 7
  const MAX_MEM_COMPACT_LEVEL: nat := 2

  // A table file: its number, its size in bytes, its bounds and what it holds.
  datatype File = File(number: nat, size: nat, smallest: IKey, largest: IKey, contents: set<Entry>) {
    ghost predicate Valid() {
      && (forall e :: e in contents ==> !Before(e.key, smallest) && !Before(largest, e.key))
      && (exists e :: e in contents && e.key == smallest)
      && (exists e :: e in contents && e.key == largest)
    }

    // The file meets the user keys lo..hi.
    predicate Overlaps(lo: UserKey, hi: UserKey) {
      !Less(largest.user, lo) && !Less(hi, smallest.user)
    }
  }

  type Levels = levels: seq<set<File>> | |levels| == NUM_LEVELS witness seq(NUM_LEVELS, _ => {})

  ghost function Contents(files: set<File>): set<Entry> {
    set f, e | f in files && e in f.contents :: e
  }

  ghost function All(levels: seq<set<File>>): set<Entry> {
    set l, f, e | 0 <= l < |levels| && f in levels[l] && e in f.contents :: e
  }

  ghost predicate FilesValid(files: set<File>) {
    forall f :: f in files ==> f.Valid()
  }

  // No two files of a level share an internal key range.
  ghost predicate Disjoint(files: set<File>) {
    forall f, g :: f in files && g in files && f != g ==>
      Before(f.largest, g.smallest) || Before(g.largest, f.smallest)
  }

  // Level-0 files may overlap, but a higher number means newer entries.
  ghost predicate NewerByNumber(files: set<File>) {
    forall f, g :: f in files && g in files && f != g ==>
      f.number != g.number && (f.number > g.number ==> Newer(f.contents, g.contents))
  }

  ghost predicate Shaped(levels: Levels) {
    && (forall l {:trigger FilesValid(levels[l])} :: 0 <= l < NUM_LEVELS ==> FilesValid(levels[l]))
    && (forall l {:trigger Disjoint(levels[l])} :: 1 <= l < NUM_LEVELS ==> Disjoint(levels[l]))
    && NewerByNumber(levels[0])
    && (forall l, m {:trigger Newer(Contents(levels[l]), Contents(levels[m]))} :: 0 <= l < m < NUM_LEVELS ==>
        Newer(Contents(levels[l]), Contents(levels[m])))
  }

  // ---- One compaction of `level` into `level + 1` ----

  // What SetupOtherInputs settles: the input files of both levels and the user
  // keys lo..hi spanned by the inputs of the upper level.
  datatype Plan = Plan(level: nat, in0: set<File>, in1: set<File>, lo: UserKey, hi: UserKey) {
    ghost function Inputs(): set<Entry> {
      Contents(in0 + in1)
    }
  }

  // Files left at a level hold nothing older than an input entry of their key.
  ghost predicate Closed(inputs: set<File>, files: set<File>) {
    forall e, f :: e in Contents(inputs) && f in Contents(files - inputs) && e.key.user == f.key.user ==>
      f.key.sequence > e.key.sequence
  }

  ghost predicate Selected(levels: Levels, p: Plan)
  {
    && p.level + 1 < NUM_LEVELS
    && p.in0 <= levels[p.level]
    && p.in0 != {}
    && (forall f :: f in p.in0 ==> AtMost(p.lo, f.smallest.user) && AtMost(f.largest.user, p.hi))
    && p.in1 == (set g | g in levels[p.level + 1] && g.Overlaps(p.lo, p.hi))
    && Closed(p.in0, levels[p.level])
  }

  // No level from `first` on has a file whose user key range meets u.
  ghost predicate BaseLevel(levels: Levels, first: nat, u: UserKey)
  {
    forall l, f :: first <= l < NUM_LEVELS && f in levels[l] ==> !f.Overlaps(u, u)
  }

  // Rule (A): hidden behind a newer input entry every snapshot sees.
  ghost predicate Hidden(inputs: set<Entry>, snap: nat, e: Entry) {
    exists f :: f in inputs && f.key.user == e.key.user && e.key.sequence < f.key.sequence <= snap
  }

  // Rule (B): a deletion every snapshot sees, with nothing below to delete.
  predicate Obsolete(snap: nat, base: bool, e: Entry) {
    e.key.kind.Deletion? && e.key.sequence <= snap && base
  }

  ghost function Kept(levels: Levels, p: Plan, snap: nat): set<Entry>
  {
    set e | e in p.Inputs() &&
            !Hidden(p.Inputs(), snap, e) &&
            !Obsolete(snap, BaseLevel(levels, p.level + 2, e.key.user), e)
  }

  // The edit a compaction installs.
  function Replace(levels: Levels, p: Plan, outputs: set<File>): Levels
    requires p.level + 1 < NUM_LEVELS
  {
    levels[p.level := levels[p.level] - p.in0][p.level + 1 := levels[p.level + 1] - p.in1 + outputs]
  }

  // ---- What reads see ----

  // A tombstone that every snapshot from snap on reads is dropped by rule (B)
  // although a value lies under it outside the inputs.
  ghost predicate Resurrects(levels: Levels, p: Plan, rest: set<Entry>, snap: nat, u: UserKey)
  {
    && BaseLevel(levels, p.level + 2, u)
    && (exists d :: d in p.Inputs() && d.key.kind.Deletion? && Newest(rest + p.Inputs(), u, snap, d))
    && Read(rest, u, snap).Found?
  }

  // Exactly when dropping entries is invisible: for every snapshot not older
  // than the smallest one, the reads of u agree unless a value resurfaces.
  lemma DropPreservesReadsIff(levels: Levels, p: Plan, rest: set<Entry>, snap: nat, u: UserKey)
    requires UniqueSequences(rest + p.Inputs())
    requires rest !! p.Inputs()
    ensures (forall s: nat :: snap <= s ==>
               Read(rest + Kept(levels, p, snap), u, s) == Read(rest + p.Inputs(), u, s))
            <==> !Resurrects(levels, p, rest, snap, u)
  {
    var before, after := rest + p.Inputs(), rest + Kept(levels, p, snap);
    if Resurrects(levels, p, rest, snap, u) {
      var d :| d in p.Inputs() && d.key.kind.Deletion? && Newest(before, u, snap, d);
      ReadNewest(before, u, snap, d);
      ReadIgnoresInvisible(after, rest, u, snap);
      assert Read(after, u, snap) != Read(before, u, snap);
    } else {
      forall s: nat | snap <= s
        ensures Read(after, u, s) == Read(before, u, s)
      {
        DropPreservesRead(levels, p, rest, snap, u, s);
      }
    }
  }

  lemma DropPreservesRead(levels: Levels, p: Plan, rest: set<Entry>, snap: nat, u: UserKey, s: nat)
    requires UniqueSequences(rest + p.Inputs())
    requires rest !! p.Inputs()
    requires !Resurrects(levels, p, rest, snap, u)
    requires snap <= s
    ensures Read(rest + Kept(levels, p, snap), u, s) == Read(rest + p.Inputs(), u, s)
  {
    var before, after := rest + p.Inputs(), rest + Kept(levels, p, snap);
    if NoneVisible(before, u, s) {
      ReadNone(before, u, s);
      ReadNone(after, u, s);
    } else {
      var n := NewestExists(before, u, s);
      ReadNewest(before, u, s, n);
      if n in after {
        ReadNewest(after, u, s, n);
      } else {
        assert !Hidden(p.Inputs(), snap, n);
        assert Obsolete(snap, BaseLevel(levels, p.level + 2, u), n);
        assert Newest(before, u, snap, n);
        ReadIgnoresInvisible(after, rest, u, s);
        ReadIgnoresInvisible(rest, rest, u, s);
        assert Read(rest, u, s) == Read(rest, u, snap) by {
          SameVisible(rest, u, s, snap);
        }
      }
    }
  }

  lemma SameVisible(store: set<Entry>, u: UserKey, s: nat, t: nat)
    requires UniqueSequences(store)
    requires forall e :: e in store ==> (e.VisibleTo(u, s) <==> e.VisibleTo(u, t))
    ensures Read(store, u, s) == Read(store, u, t)
  {
    if NoneVisible(store, u, s) {
      ReadNone(store, u, s);
      ReadNone(store, u, t);
    } else {
      var e := NewestExists(store, u, s);
      ReadNewest(store, u, s, e);
      ReadNewest(store, u, t, e);
    }
  }
}
