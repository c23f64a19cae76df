// Why a compaction changes no read, and the one case in which it does.
module CompactionSafety {
  import opened Keys
  import opened Store
  import opened Lsm

  // Everything the inputs leave behind: the memtables and the other files.
  ghost function Rest(upper: set<Entry>, levels: Levels, p: Plan): set<Entry>
    requires p.level + 1 < NUM_LEVELS
  {
    upper + All(Replace(levels, p, {}))
  }

  // What the tree satisfies whenever a compaction is picked.
  ghost predicate Ready(upper: set<Entry>, levels: Levels, p: Plan) {
    && Shaped(levels)
    && Newer(upper, All(levels))
    && UniqueSequences(upper + All(levels))
    && Selected(levels, p)
  }

  // The files a compaction writes: sorted apart, holding just what is kept.
  ghost predicate Outputs(levels: Levels, p: Plan, snap: nat, outputs: set<File>) {
    && FilesValid(outputs)
    && Disjoint(outputs)
    && Contents(outputs) == Kept(levels, p, snap)
  }

  // What placing files at level + 1 asks of them, whoever wrote them.
  ghost predicate Fits(p: Plan, outputs: set<File>) {
    FilesValid(outputs) && Disjoint(outputs) && Contents(outputs) <= p.Inputs()
  }

  lemma InAll(levels: Levels, e: Entry) returns (l: nat, f: File)
    requires e in All(levels)
    ensures l < NUM_LEVELS && f in levels[l] && e in f.contents
  {
    l, f :| 0 <= l < |levels| && f in levels[l] && e in f.contents;
  }

  lemma InContents(files: set<File>, e: Entry) returns (f: File)
    requires e in Contents(files)
    ensures f in files && e in f.contents
  {
    f :| f in files && e in f.contents;
  }

  lemma AllReplace(levels: Levels, p: Plan, outputs: set<File>)
    requires p.level + 1 < NUM_LEVELS
    ensures All(Replace(levels, p, outputs)) == All(Replace(levels, p, {})) + Contents(outputs)
  {
    var a, b := Replace(levels, p, {}), Replace(levels, p, outputs);
    forall e | e in All(b)
      ensures e in All(a) + Contents(outputs)
    {
      var l, f := InAll(b, e);
      if f !in a[l] { assert f in outputs; }
    }
    forall e | e in All(a)
      ensures e in All(b)
    {
      var l, f := InAll(a, e);
      assert f in b[l];
    }
    forall e | e in Contents(outputs)
      ensures e in All(b)
    {
      var f := InContents(outputs, e);
      assert f in b[p.level + 1];
    }
  }

  lemma AllInputs(levels: Levels, p: Plan)
    requires Selected(levels, p)
    ensures All(levels) == All(Replace(levels, p, {})) + p.Inputs()
  {
    var a := Replace(levels, p, {});
    forall e | e in All(levels)
      ensures e in All(a) + p.Inputs()
    {
      var l, f := InAll(levels, e);
      if f !in a[l] { assert f in p.in0 + p.in1; }
    }
    forall e | e in All(a)
      ensures e in All(levels)
    {
      var l, f := InAll(a, e);
      assert f in levels[l];
    }
    forall e | e in p.Inputs()
      ensures e in All(levels)
    {
      var f := InContents(p.in0 + p.in1, e);
      if f in p.in0 { assert f in levels[p.level]; } else { assert f in levels[p.level + 1]; }
    }
  }

  // A table that holds a key in lo..hi meets lo..hi.
  lemma Meets(f: File, e: Entry, lo: UserKey, hi: UserKey)
    requires f.Valid() && e in f.contents
    requires AtMost(lo, e.key.user) && AtMost(e.key.user, hi)
    ensures f.Overlaps(lo, hi)
  {
    UserKeysOrdered();
  }

  lemma UserBetween(e: IKey, a: IKey, b: IKey, lo: UserKey, hi: UserKey)
    requires !Before(e, a) && !Before(b, e)
    requires AtMost(lo, a.user) && AtMost(b.user, hi)
    ensures AtMost(lo, e.user) && AtMost(e.user, hi)
  {
    UserKeysOrdered();
  }

  // Deeper levels hold older entries.
  lemma LevelOrder(levels: Levels, l: nat, f: File, m: nat, g: File, e: Entry, r: Entry)
    requires Shaped(levels)
    requires l < m < NUM_LEVELS && f in levels[l] && g in levels[m]
    requires e in f.contents && r in g.contents && e.key.user == r.key.user
    ensures e.key.sequence > r.key.sequence
  {
    assert Newer(Contents(levels[l]), Contents(levels[m]));
    assert e in Contents(levels[l]) && r in Contents(levels[m]);
  }

  // Tables of a level that are apart share no entry.
  lemma ApartShareNothing(f: File, g: File, e: Entry)
    requires f.Valid() && g.Valid()
    requires Before(f.largest, g.smallest)
    requires e in f.contents
    ensures e !in g.contents
  {
    InternalKeysOrdered();
  }

  // An entry is in one table only.
  lemma OnePlace(levels: Levels, l: nat, f: File, m: nat, g: File, e: Entry)
    requires Shaped(levels)
    requires l <= m < NUM_LEVELS && f in levels[l] && g in levels[m]
    requires e in f.contents && e in g.contents
    ensures l == m && f == g
  {
    if l < m {
      LevelOrder(levels, l, f, m, g, e, e);
    } else if f != g && l > 0 {
      assert Disjoint(levels[l]) && FilesValid(levels[l]);
      if Before(f.largest, g.smallest) { ApartShareNothing(f, g, e); } else { ApartShareNothing(g, f, e); }
    }
  }

  // The inputs and the rest are two halves of the store.
  lemma RestApart(upper: set<Entry>, levels: Levels, p: Plan)
    requires Shaped(levels) && Selected(levels, p)
    requires Newer(upper, All(levels))
    ensures Rest(upper, levels, p) !! p.Inputs()
    ensures upper + All(levels) == Rest(upper, levels, p) + p.Inputs()
  {
    AllInputs(levels, p);
    forall e | e in p.Inputs()
      ensures e !in Rest(upper, levels, p)
    {
      var f := InContents(p.in0 + p.in1, e);
      var m := if f in p.in0 then p.level else p.level + 1;
      assert e in All(levels);
      if e in All(Replace(levels, p, {})) {
        var l, g := InAll(Replace(levels, p, {}), e);
        if l <= m { OnePlace(levels, l, g, m, f, e); } else { OnePlace(levels, m, f, l, g, e); }
      }
    }
  }

  // With both levels closed, nothing outside the inputs lies under an input
  // entry of its user key, unless a deeper level holds the key.
  lemma NothingBelow(levels: Levels, p: Plan, f: File, d: Entry, l: nat, g: File, r: Entry)
    requires Shaped(levels) && Selected(levels, p)
    requires Closed(p.in1, levels[p.level + 1])
    requires BaseLevel(levels, p.level + 2, d.key.user)
    requires f in p.in0 + p.in1 && d in f.contents
    requires l < NUM_LEVELS && g in Replace(levels, p, {})[l] && r in g.contents
    requires r.key.user == d.key.user
    ensures r.key.sequence > d.key.sequence
  {
    assert FilesValid(levels[l]) && FilesValid(levels[p.level]) && FilesValid(levels[p.level + 1]);
    if l >= p.level + 2 {
      Meets(g, r, d.key.user, d.key.user);
      assert false;
    } else if l < p.level || (l == p.level && f !in p.in0) {
      LevelOrder(levels, l, g, if f in p.in0 then p.level else p.level + 1, f, r, d);
    } else if l == p.level {
      assert d in Contents(p.in0) && r in Contents(levels[l] - p.in0);
    } else if f in p.in0 {
      UserBetween(d.key, f.smallest, f.largest, p.lo, p.hi);
      Meets(g, r, p.lo, p.hi);
    } else {
      assert d in Contents(p.in1) && r in Contents(levels[l] - p.in1);
    }
  }

  lemma NothingResurrects(upper: set<Entry>, levels: Levels, p: Plan, snap: nat, u: UserKey)
    requires Ready(upper, levels, p)
    requires Closed(p.in1, levels[p.level + 1])
    ensures !Resurrects(levels, p, Rest(upper, levels, p), snap, u)
  {
    var rest := Rest(upper, levels, p);
    RestApart(upper, levels, p);
    if Resurrects(levels, p, rest, snap, u) {
      var d :| d in p.Inputs() && d.key.kind.Deletion? && Newest(rest + p.Inputs(), u, snap, d);
      var r := NewestExists(rest, u, snap);
      var f := InContents(p.in0 + p.in1, d);
      assert r in rest + p.Inputs() && r.VisibleTo(u, snap);
      assert d in All(levels);
      if r !in upper {
        var l, g := InAll(Replace(levels, p, {}), r);
        NothingBelow(levels, p, f, d, l, g, r);
      }
      assert false;
    }
  }

  ghost function UpTo(store: set<Entry>, s: nat): set<Entry> {
    set e | e in store && e.key.sequence <= s
  }

  // Nothing is under a tombstone that the loop drops by rule (B).  Of the
  // memtables, only what the snapshot sees matters.
  ghost predicate Harmless(upper: set<Entry>, levels: Levels, p: Plan, snap: nat) {
    && p.level + 1 < NUM_LEVELS
    && forall u :: !Resurrects(levels, p, Rest(UpTo(upper, snap), levels, p), snap, u)
  }

  // Neither half of Resurrects looks at entries that the snapshot does not see.
  lemma ResurrectsUpTo(upper: set<Entry>, levels: Levels, p: Plan, snap: nat, u: UserKey)
    requires p.level + 1 < NUM_LEVELS
    requires UniqueSequences(Rest(upper, levels, p))
    ensures Resurrects(levels, p, Rest(upper, levels, p), snap, u) <==>
            Resurrects(levels, p, Rest(UpTo(upper, snap), levels, p), snap, u)
  {
    hide Replace, BaseLevel;
    var few, many := Rest(UpTo(upper, snap), levels, p), Rest(upper, levels, p);
    assert few <= many;
    ReadIgnoresInvisible(many, few, u, snap);
    forall d ensures Newest(many + p.Inputs(), u, snap, d) <==> Newest(few + p.Inputs(), u, snap, d) {
      assert forall e: Entry :: e.VisibleTo(u, snap) ==> (e in many <==> e in few);
    }
  }

  // Closed inputs are harmless.
  lemma ClosedIsHarmless(upper: set<Entry>, levels: Levels, p: Plan, snap: nat)
    requires Ready(upper, levels, p)
    requires Closed(p.in1, levels[p.level + 1])
    ensures Harmless(upper, levels, p, snap)
  {
    hide Ready, Resurrects, Closed;
    RestUnique(upper, levels, p);
    forall u ensures !Resurrects(levels, p, Rest(UpTo(upper, snap), levels, p), snap, u) {
      NothingResurrects(upper, levels, p, snap, u);
      ResurrectsUpTo(upper, levels, p, snap, u);
    }
  }

  lemma RestUnique(upper: set<Entry>, levels: Levels, p: Plan)
    requires Ready(upper, levels, p)
    ensures p.level + 1 < NUM_LEVELS
    ensures UniqueSequences(Rest(upper, levels, p)) && UniqueSequences(Rest(upper, levels, p) + p.Inputs())
  {
    RestApart(upper, levels, p);
  }

  // The main theorem: a compaction changes no read at or after its smallest
  // snapshot, whatever it dropped, exactly when it is harmless.
  lemma CompactionPreservesReads(upper: set<Entry>, levels: Levels, p: Plan, snap: nat, outputs: set<File>)
    requires Ready(upper, levels, p)
    requires Outputs(levels, p, snap, outputs)
    ensures Harmless(upper, levels, p, snap) <==>
            forall u: UserKey, s: nat :: snap <= s ==>
              Read(upper + All(Replace(levels, p, outputs)), u, s) == Read(upper + All(levels), u, s)
  {
    hide Ready, Resurrects, Rest, Outputs, Replace;
    RestUnique(upper, levels, p);
    var before, after := upper + All(levels), upper + All(Replace(levels, p, outputs));
    if Harmless(upper, levels, p, snap) {
      forall u: UserKey, s: nat | snap <= s ensures Read(after, u, s) == Read(before, u, s) {
        assert !Resurrects(levels, p, Rest(UpTo(upper, snap), levels, p), snap, u);
        PreservesReadsOf(upper, levels, p, snap, outputs, u);
      }
    } else {
      var u :| Resurrects(levels, p, Rest(UpTo(upper, snap), levels, p), snap, u);
      PreservesReadsOf(upper, levels, p, snap, outputs, u);
    }
  }

  lemma PreservesReadsOf(upper: set<Entry>, levels: Levels, p: Plan, snap: nat, outputs: set<File>, u: UserKey)
    requires Ready(upper, levels, p)
    requires Outputs(levels, p, snap, outputs)
    ensures !Resurrects(levels, p, Rest(UpTo(upper, snap), levels, p), snap, u) <==>
            forall s: nat :: snap <= s ==>
              Read(upper + All(Replace(levels, p, outputs)), u, s) == Read(upper + All(levels), u, s)
  {
    hide Ready, Resurrects, Replace, Kept, Outputs;
    RestUnique(upper, levels, p);
    Halves(upper, levels, p, snap, outputs);
    DropPreservesReadsIff(levels, p, Rest(upper, levels, p), snap, u);
    ResurrectsUpTo(upper, levels, p, snap, u);
  }

  lemma Halves(upper: set<Entry>, levels: Levels, p: Plan, snap: nat, outputs: set<File>)
    requires Ready(upper, levels, p) && Outputs(levels, p, snap, outputs)
    ensures Rest(upper, levels, p) !! p.Inputs()
    ensures upper + All(levels) == Rest(upper, levels, p) + p.Inputs()
    ensures upper + All(Replace(levels, p, outputs)) == Rest(upper, levels, p) + Kept(levels, p, snap)
  {
    RestApart(upper, levels, p);
    AllReplace(levels, p, outputs);
  }

  // ---- The tree keeps its shape ----

  // Entries are bounded by some input table.
  lemma OutputsWithin(p: Plan, outputs: set<File>, f: File)
      returns (a: File, b: File)
    requires Fits(p, outputs) && f in outputs
    requires FilesValid(p.in0 + p.in1)
    ensures a in p.in0 + p.in1 && !Before(f.smallest, a.smallest)
    ensures b in p.in0 + p.in1 && !Before(b.largest, f.largest)
  {
    var first :| first in f.contents && first.key == f.smallest;
    var last :| last in f.contents && last.key == f.largest;
    assert first in Contents(outputs) && last in Contents(outputs);
    a := InContents(p.in0 + p.in1, first);
    b := InContents(p.in0 + p.in1, last);
  }

  lemma BeforeChain(a: IKey, b: IKey, c: IKey)
    requires Before(a, b) && !Before(c, b)
    ensures Before(a, c)
  {
    InternalKeysOrdered();
  }

  lemma BeforeChainLeft(a: IKey, b: IKey, c: IKey)
    requires !Before(b, a) && Before(b, c)
    ensures Before(a, c)
  {
    InternalKeysOrdered();
  }

  // A table that stays at level + 1 is on one side of every input table.
  lemma OutsideIsApart(levels: Levels, p: Plan, g: File, a: File, b: File)
    requires Shaped(levels) && Selected(levels, p)
    requires g in levels[p.level + 1] - p.in1
    requires a in p.in0 + p.in1 && b in p.in0 + p.in1
    ensures (Before(a.largest, g.smallest) && Before(b.largest, g.smallest))
         || (Before(g.largest, a.smallest) && Before(g.largest, b.smallest))
  {
    assert FilesValid(levels[p.level]) && FilesValid(levels[p.level + 1]);
    assert Disjoint(levels[p.level + 1]);
    var f :| f in p.in0;
    SameSide(p, g, a, f);
    SameSide(p, g, b, f);
    UserKeysOrdered();
  }

  // ... namely on the side on which it is of the span lo..hi.
  lemma SameSide(p: Plan, g: File, a: File, f: File)
    requires g.Valid() && a.Valid() && f.Valid()
    requires f in p.in0 && AtMost(p.lo, f.smallest.user) && AtMost(f.largest.user, p.hi)
    requires !g.Overlaps(p.lo, p.hi)
    requires || (AtMost(p.lo, a.smallest.user) && AtMost(a.largest.user, p.hi))
             || (a.Overlaps(p.lo, p.hi) && (Before(a.largest, g.smallest) || Before(g.largest, a.smallest)))
    ensures if Less(g.largest.user, p.lo) then Before(g.largest, a.smallest) else Before(a.largest, g.smallest)
  {
    UserKeysOrdered();
  }

  lemma OutputsFit(levels: Levels, p: Plan, outputs: set<File>)
    requires Shaped(levels) && Selected(levels, p) && Fits(p, outputs)
    ensures Disjoint(levels[p.level + 1] - p.in1 + outputs)
  {
    assert FilesValid(levels[p.level]) && FilesValid(levels[p.level + 1]);
    assert Disjoint(levels[p.level + 1]);
    forall f, g | f in outputs && g in levels[p.level + 1] - p.in1
      ensures Before(f.largest, g.smallest) || Before(g.largest, f.smallest)
    {
      var a, b := OutputsWithin(p, outputs, f);
      OutsideIsApart(levels, p, g, a, b);
      if Before(b.largest, g.smallest) {
        BeforeChainLeft(f.largest, b.largest, g.smallest);
      } else {
        BeforeChain(g.largest, a.smallest, f.smallest);
      }
    }
  }

  // Where an entry of the new tree was before: in place, or one level up.
  lemma Origin(levels: Levels, p: Plan, outputs: set<File>, l: nat, e: Entry) returns (k: nat, f: File)
    requires Selected(levels, p) && Fits(p, outputs)
    requires l < NUM_LEVELS && e in Contents(Replace(levels, p, outputs)[l])
    ensures k < NUM_LEVELS && f in levels[k] && e in f.contents
    ensures k == l || (k == p.level && l == p.level + 1 && f in p.in0)
    ensures l == p.level ==> f !in p.in0
  {
    f := InContents(Replace(levels, p, outputs)[l], e);
    k := l;
    if f !in levels[l] || l == p.level + 1 {
      if f in outputs {
        assert e in Contents(outputs);
        f := InContents(p.in0 + p.in1, e);
        k := if f in p.in1 then l else p.level;
      }
    }
  }

  lemma LevelsStayOrdered(levels: Levels, p: Plan, outputs: set<File>, l: nat, m: nat)
    requires Shaped(levels) && Selected(levels, p) && Fits(p, outputs)
    requires l < m < NUM_LEVELS
    ensures Newer(Contents(Replace(levels, p, outputs)[l]), Contents(Replace(levels, p, outputs)[m]))
  {
    var after := Replace(levels, p, outputs);
    forall e, r | e in Contents(after[l]) && r in Contents(after[m]) && e.key.user == r.key.user
      ensures e.key.sequence > r.key.sequence
    {
      var i, f := Origin(levels, p, outputs, l, e);
      var j, g := Origin(levels, p, outputs, m, r);
      if i < j {
        LevelOrder(levels, i, f, j, g, e, r);
      } else {
        assert r in Contents(p.in0) && e in Contents(levels[p.level] - p.in0);
      }
    }
  }

  lemma LevelStaysSound(levels: Levels, p: Plan, outputs: set<File>, l: nat)
    requires Shaped(levels) && Selected(levels, p)
    requires Fits(p, outputs)
    requires l < NUM_LEVELS
    ensures FilesValid(Replace(levels, p, outputs)[l])
    ensures if l == 0 then NewerByNumber(Replace(levels, p, outputs)[l]) else Disjoint(Replace(levels, p, outputs)[l])
  {
    assert FilesValid(levels[l]);
    if l == p.level + 1 {
      OutputsFit(levels, p, outputs);
      assert Replace(levels, p, outputs)[l] == levels[p.level + 1] - p.in1 + outputs;
    } else if l > 0 {
      assert Disjoint(levels[l]);
    }
  }

  // A compaction keeps levels >= 1 apart and shallower entries newer.
  lemma CompactionKeepsShape(levels: Levels, p: Plan, outputs: set<File>)
    requires Shaped(levels) && Selected(levels, p)
    requires Fits(p, outputs)
    ensures Shaped(Replace(levels, p, outputs))
  {
    forall l, m | 0 <= l < m < NUM_LEVELS
      ensures Newer(Contents(Replace(levels, p, outputs)[l]), Contents(Replace(levels, p, outputs)[m]))
    {
      LevelsStayOrdered(levels, p, outputs, l, m);
    }
    forall l | 0 <= l < NUM_LEVELS
      ensures FilesValid(Replace(levels, p, outputs)[l])
      ensures if l == 0 then NewerByNumber(Replace(levels, p, outputs)[l]) else Disjoint(Replace(levels, p, outputs)[l])
    {
      LevelStaysSound(levels, p, outputs, l);
    }
  }

  lemma CompactionAddsNothing(levels: Levels, p: Plan, outputs: set<File>)
    requires Selected(levels, p) && Fits(p, outputs)
    ensures All(Replace(levels, p, outputs)) <= All(levels)
  {
    AllInputs(levels, p);
    AllReplace(levels, p, outputs);
  }

  // A trivial move is the plan without level + 1 inputs, writing nothing.
  lemma MoveFits(levels: Levels, p: Plan, f: File)
    requires Shaped(levels) && Selected(levels, p)
    requires p.in0 == {f} && p.in1 == {}
    ensures Fits(p, {f})
    ensures All(Replace(levels, p, {f})) == All(levels)
  {
    assert FilesValid(levels[p.level]);
    assert p.in0 + p.in1 == {f};
    AllReplace(levels, p, {f});
    AllInputs(levels, p);
  }

  // ---- Adding a flushed memtable ----

  function Place(levels: Levels, level: nat, f: File): Levels
    requires level < NUM_LEVELS
  {
    levels[level := levels[level] + {f}]
  }

  // Where PickLevelForMemTableOutput may put a new table: at level 0, or below
  // it when no table down to that level meets its user keys.
  ghost predicate Placeable(levels: Levels, level: nat, f: File) {
    && level <= MAX_MEM_COMPACT_LEVEL
    && (level > 0 ==>
          forall l, g :: 0 <= l <= level && g in levels[l] ==> !g.Overlaps(f.smallest.user, f.largest.user))
  }

  lemma AllPlace(levels: Levels, level: nat, f: File)
    requires level < NUM_LEVELS
    ensures All(Place(levels, level, f)) == All(levels) + f.contents
  {
    var after := Place(levels, level, f);
    forall e | e in All(after)
      ensures e in All(levels) + f.contents
    {
      var l, g := InAll(after, e);
      if g != f { assert g in levels[l]; }
    }
    forall e | e in All(levels)
      ensures e in All(after)
    {
      var l, g := InAll(levels, e);
      assert g in after[l];
    }
    forall e | e in f.contents
      ensures e in All(after)
    {
      assert f in after[level];
    }
  }

  lemma OverlapsBetween(g: File, f: File, e: Entry, r: Entry)
    requires f.Valid() && g.Valid() && e in f.contents && r in g.contents && e.key.user == r.key.user
    ensures g.Overlaps(f.smallest.user, f.largest.user)
  {
    UserKeysOrdered();
  }

  lemma ApartByUser(g: File, f: File)
    requires f.Valid() && g.Valid() && !g.Overlaps(f.smallest.user, f.largest.user)
    ensures Before(g.largest, f.smallest) || Before(f.largest, g.smallest)
  {
  }

  lemma PlacedLevelSound(levels: Levels, level: nat, f: File, l: nat)
    requires Shaped(levels) && f.Valid() && Placeable(levels, level, f)
    requires Newer(f.contents, All(levels))
    requires forall g :: g in levels[0] ==> g.number < f.number
    requires l < NUM_LEVELS
    ensures FilesValid(Place(levels, level, f)[l])
    ensures if l == 0 then NewerByNumber(Place(levels, level, f)[l]) else Disjoint(Place(levels, level, f)[l])
  {
    hide File.Valid, Before;
    assert FilesValid(levels[l]);
    var after := Place(levels, level, f);
    if l == 0 {
      forall g | g in levels[0]
        ensures Newer(f.contents, g.contents)
      {
        forall e | e in g.contents ensures e in All(levels) {}
      }
    } else {
      assert Disjoint(levels[l]);
      if l == level {
        forall g | g in levels[l] {
          ApartByUser(g, f);
        }
      }
    }
  }

  lemma PlacedLevelsOrdered(levels: Levels, level: nat, f: File, l: nat, m: nat)
    requires Shaped(levels) && f.Valid() && Placeable(levels, level, f)
    requires Newer(f.contents, All(levels))
    requires l < m < NUM_LEVELS
    ensures Newer(Contents(Place(levels, level, f)[l]), Contents(Place(levels, level, f)[m]))
  {
    var after := Place(levels, level, f);
    assert FilesValid(levels[l]) && FilesValid(levels[m]);
    forall e, r | e in Contents(after[l]) && r in Contents(after[m]) && e.key.user == r.key.user
      ensures e.key.sequence > r.key.sequence
    {
      var g := InContents(after[l], e);
      var h := InContents(after[m], r);
      if g in levels[l] && h in levels[m] {
        LevelOrder(levels, l, g, m, h, e, r);
      } else if h in levels[m] {
        assert r in All(levels);
      } else if g in levels[l] {
        OverlapsBetween(g, f, r, e);
      }
    }
  }

  // A flushed memtable placed there keeps the shape of the tree.
  lemma FlushKeepsShape(levels: Levels, level: nat, f: File)
    requires Shaped(levels) && f.Valid() && Placeable(levels, level, f)
    requires Newer(f.contents, All(levels))
    requires forall g :: g in levels[0] ==> g.number < f.number
    ensures Shaped(Place(levels, level, f))
    ensures All(Place(levels, level, f)) == All(levels) + f.contents
  {
    var after := Place(levels, level, f);
    AllPlace(levels, level, f);
    forall l | 0 <= l < NUM_LEVELS
      ensures FilesValid(after[l])
      ensures if l == 0 then NewerByNumber(after[l]) else Disjoint(after[l])
    {
      PlacedLevelSound(levels, level, f, l);
    }
    forall l, m | 0 <= l < m < NUM_LEVELS
      ensures Newer(Contents(after[l]), Contents(after[m]))
    {
      PlacedLevelsOrdered(levels, level, f, l, m);
    }
  }
}
