// When memtables and levels together read like the history of all writes, and
// what each change of the tree does to that (db/db_impl.cc).
module Fidelity {
  import opened Keys
  import opened Store
  import opened Lsm
  import opened CompactionSafety
  import opened Compaction
  import opened Lookup

  // ---- A tree that reads like a history ----

  // Memtable, immutable memtable and levels answer every read from sequence
  // `floor` on as the set h of all entries ever written does.
  ghost predicate Faithful(mem: set<Entry>, imm: set<Entry>, levels: Levels, h: set<Entry>, floor: nat) {
    && Stacked(mem, imm, levels)
    && UniqueSequences(h)
    && mem + imm + All(levels) <= h
    && forall u: UserKey, s: nat :: floor <= s ==> Read(mem + imm + All(levels), u, s) == Read(h, u, s)
  }

  lemma FewerUnique(few: set<Entry>, many: set<Entry>)
    requires few <= many && UniqueSequences(many)
    ensures UniqueSequences(few)
  {
  }

  // Entries newer than all others extend both sides alike.
  lemma ReadsExtend(a: set<Entry>, b: set<Entry>, added: set<Entry>, u: UserKey, s: nat)
    requires a <= b && UniqueSequences(b + added)
    requires forall e, f :: e in added && f in b ==> e.key.sequence > f.key.sequence
    requires Read(a, u, s) == Read(b, u, s)
    ensures Read(added + a, u, s) == Read(added + b, u, s)
  {
    FewerUnique(added + a, b + added);
    assert added + b == b + added;
    ReadNewerFirst(added, a, u, s);
    ReadNewerFirst(added, b, u, s);
  }

  lemma FaithfulWrite(mem: set<Entry>, imm: set<Entry>, levels: Levels, h: set<Entry>, floor: nat, added: set<Entry>)
    requires Faithful(mem, imm, levels, h, floor)
    requires UniqueSequences(h + added)
    requires forall e, f :: e in added && f in h ==> e.key.sequence > f.key.sequence
    ensures Faithful(mem + added, imm, levels, h + added, floor)
  {
    var store := mem + imm + All(levels);
    assert mem + added + imm + All(levels) == added + store;
    FewerUnique(added + store, h + added);
    forall u: UserKey, s: nat | floor <= s
      ensures Read(added + store, u, s) == Read(h + added, u, s)
    {
      ReadsExtend(store, h, added, u, s);
      assert added + h == h + added;
    }
  }

  lemma FaithfulSwitch(mem: set<Entry>, levels: Levels, h: set<Entry>, floor: nat)
    requires Faithful(mem, {}, levels, h, floor)
    ensures Faithful({}, mem, levels, h, floor)
  {
    assert {} + mem + All(levels) == mem + {} + All(levels);
    assert {} + All(levels) == All(levels);
  }

  lemma FaithfulFlush(mem: set<Entry>, levels: Levels, level: nat, f: File, h: set<Entry>, floor: nat)
    requires Faithful(mem, f.contents, levels, h, floor)
    requires f.Valid() && Placeable(levels, level, f)
    requires forall g :: g in levels[0] ==> g.number < f.number
    ensures Faithful(mem, {}, Place(levels, level, f), h, floor)
  {
    FlushKeepsShape(levels, level, f);
    assert mem + {} + All(Place(levels, level, f)) == mem + f.contents + All(levels);
    assert {} + All(Place(levels, level, f)) == f.contents + All(levels);
  }

  lemma FaithfulCompact(mem: set<Entry>, imm: set<Entry>, levels: Levels, p: Plan, snap: nat, outputs: set<File>,
                        h: set<Entry>, floor: nat, floor2: nat)
    requires Faithful(mem, imm, levels, h, floor)
    requires Selected(levels, p) && Harmless(mem + imm, levels, p, snap)
    requires Outputs(levels, p, snap, outputs)
    requires floor <= floor2 && snap <= floor2
    ensures Faithful(mem, imm, Replace(levels, p, outputs), h, floor2)
  {
    var after := Replace(levels, p, outputs);
    CompactionKeepsShape(levels, p, outputs);
    CompactionAddsNothing(levels, p, outputs);
    FewerUnique(mem + imm + All(after), mem + imm + All(levels));
    assert Newer(mem + imm, All(levels));
    CompactionPreservesReads(mem + imm, levels, p, snap, outputs);
  }

  lemma FaithfulMove(mem: set<Entry>, imm: set<Entry>, levels: Levels, p: Plan, f: File, h: set<Entry>, floor: nat)
    requires Faithful(mem, imm, levels, h, floor)
    requires Selected(levels, p) && p.in0 == {f} && p.in1 == {}
    ensures Faithful(mem, imm, Replace(levels, p, {f}), h, floor)
  {
    MoveFits(levels, p, f);
    CompactionKeepsShape(levels, p, {f});
  }

  // Two memtables in a row read like one, and one like two with the older half
  // set apart.
  lemma FaithfulMerge(mem: set<Entry>, imm: set<Entry>, levels: Levels, h: set<Entry>, floor: nat)
    requires Faithful(mem, imm, levels, h, floor)
    ensures Faithful(mem + imm, {}, levels, h, floor)
  {
    assert mem + imm + {} + All(levels) == mem + imm + All(levels);
    assert {} + All(levels) == All(levels);
  }

  lemma FaithfulSplit(mem: set<Entry>, older: set<Entry>, levels: Levels, h: set<Entry>, floor: nat)
    requires Faithful(mem + older, {}, levels, h, floor)
    requires Newer(mem, older)
    ensures Faithful(mem, older, levels, h, floor)
  {
    assert mem + older + {} + All(levels) == mem + older + All(levels);
    assert {} + All(levels) == All(levels);
  }
}
