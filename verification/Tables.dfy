// Blocks of one sorted sequence behind an index of short keys
// (table/table.cc).
module Tables {
  import opened Keys
  import opened Store
  import opened Compaction
  import opened Lookup
  import opened Options
  import opened Separators

  // ---- Blocks of one sorted sequence ----

  // Block b holds the entries from where the one before it ends to ends[b].
  function StartOf(ends: seq<nat>, b: nat): nat
    requires b <= |ends|
  {
    if b == 0 then 0 else ends[b - 1]
  }

  ghost predicate Cuts(ends: seq<nat>, n: nat) {
    && (forall b, c :: 0 <= b <= c < |ends| ==> ends[b] <= ends[c])
    && (forall b :: 0 <= b < |ends| ==> ends[b] <= n)
  }

  ghost predicate CutInto(entries: seq<Entry>, ends: seq<nat>, blocks: seq<seq<Entry>>) {
    && SortedEntries(entries) && Cuts(ends, |entries|) && |blocks| == |ends|
    && forall b :: 0 <= b < |blocks| ==> blocks[b] == entries[StartOf(ends, b)..ends[b]]
  }

  // The key separates the entries in front of `end` from the others.
  ghost predicate Separates(entries: seq<Entry>, end: nat, key: IKey) {
    && (forall i :: 0 <= i < end && i < |entries| ==> !Before(key, entries[i].key))
    && (forall i :: end <= i < |entries| ==> Before(key, entries[i].key))
  }

  // The key is the last one in front, or of a user key between the two sides.
  ghost predicate Short(entries: seq<Entry>, end: nat, key: IKey) {
    && 0 < end <= |entries|
    && (key == entries[end - 1].key ||
        (Less(entries[end - 1].key.user, key.user) && (end < |entries| ==> Less(key.user, entries[end].key.user))))
  }

  lemma ShortSeparates(entries: seq<Entry>, end: nat, key: IKey)
    requires SortedEntries(entries) && Short(entries, end, key)
    ensures Separates(entries, end, key)
    ensures key != entries[end - 1].key ==> forall e :: e in entries ==> e.key.user != key.user
  {
    forall i | 0 <= i < |entries|
      ensures i < end ==> !Before(key, entries[i].key)
      ensures i >= end ==> Before(key, entries[i].key)
      ensures key != entries[end - 1].key ==> entries[i].key.user != key.user
    {
      OneSide(entries, end, key, i);
    }
  }

  lemma OneSide(entries: seq<Entry>, end: nat, key: IKey, i: nat)
    requires SortedEntries(entries) && Short(entries, end, key) && i < |entries|
    ensures i < end ==> !Before(key, entries[i].key)
    ensures i >= end ==> Before(key, entries[i].key)
    ensures key != entries[end - 1].key ==> entries[i].key.user != key.user
  {
    UserKeysOrdered();
    var e, last := entries[i].key, entries[end - 1].key;
    if i < end {
      assert e == last || Before(e, last);
    } else {
      var first := entries[end].key;
      assert e == first || Before(first, e);
      assert Before(last, e);
    }
  }

  // ---- Cutting ----

  lemma BlockBounds(entries: seq<Entry>, ends: seq<nat>, blocks: seq<seq<Entry>>)
    requires CutInto(entries, ends, blocks)
    ensures SortedEntries(entries) && |ends| == |blocks| && StartOf(ends, |ends|) <= |entries|
    ensures forall b :: 0 <= b < |ends| ==> StartOf(ends, b) <= ends[b] <= |entries|
  {
  }

  lemma EndAdded(ends: seq<nat>, n: nat)
    ensures StartOf(ends + [n], |ends| + 1) == n
    ensures forall b :: 0 <= b <= |ends| ==> StartOf(ends + [n], b) == StartOf(ends, b)
  {
  }

  lemma BlocksGrow(entries: seq<Entry>, ends: seq<nat>, blocks: seq<seq<Entry>>, e: Entry)
    requires CutInto(entries, ends, blocks)
    requires entries != [] ==> Before(entries[|entries| - 1].key, e.key)
    ensures CutInto(entries + [e], ends, blocks)
  {
    var more := entries + [e];
    forall i, j | 0 <= i < j < |more|
      ensures Before(more[i].key, more[j].key)
    {
      if j == |entries| && i < |entries| - 1 {
        Chained(entries[i].key, entries[|entries| - 1].key, e.key);
      }
    }
    forall b | 0 <= b < |blocks|
      ensures blocks[b] == more[StartOf(ends, b)..ends[b]]
    {
      assert blocks[b] == entries[StartOf(ends, b)..ends[b]];
    }
  }

  lemma Chained(a: IKey, b: IKey, c: IKey)
    requires Before(a, b) && Before(b, c)
    ensures Before(a, c)
  {
    InternalKeysOrdered();
  }

  lemma ShortStays(entries: seq<Entry>, end: nat, key: IKey, e: Entry)
    requires Short(entries, end, key) && end < |entries|
    ensures Short(entries + [e], end, key)
  {
    hide Less;
  }

  lemma BlockDone(entries: seq<Entry>, ends: seq<nat>, blocks: seq<seq<Entry>>)
    requires CutInto(entries, ends, blocks)
    ensures StartOf(ends, |ends|) <= |entries|
    ensures CutInto(entries, ends + [|entries|], blocks + [entries[StartOf(ends, |ends|)..]])
  {
    hide Before;
  }

  // ---- Reading ----

  lemma IsInFront(entries: seq<Entry>, end: nat, key: IKey, target: IKey, i: nat)
    requires Separates(entries, end, key) && i < end && i < |entries|
    requires Before(key, target)
    ensures Before(entries[i].key, target)
  {
    InternalKeysOrdered();
  }

  lemma IsBehind(entries: seq<Entry>, end: nat, key: IKey, target: IKey, i: nat)
    requires Separates(entries, end, key) && end <= i < |entries|
    requires !Before(key, target)
    ensures !Before(entries[i].key, target)
  {
    InternalKeysOrdered();
  }

  lemma BlocksSorted(entries: seq<Entry>, ends: seq<nat>, blocks: seq<seq<Entry>>)
    requires CutInto(entries, ends, blocks)
    ensures forall b :: 0 <= b < |blocks| ==> SortedEntries(blocks[b])
  {
    hide Before, StartOf;
    BlockBounds(entries, ends, blocks);
    forall b | 0 <= b < |blocks|
      ensures SortedEntries(blocks[b])
    {
      assert blocks[b] == entries[StartOf(ends, b)..ends[b]];
    }
  }

  // ---- Lookup ----

  lemma VisibleNotBefore(e: Entry, u: UserKey, s: nat)
    requires e.VisibleTo(u, s)
    ensures !Before(e.key, LookupKey(u, s))
  {
    UserKeysOrdered();
  }

  // If the index names block b, and an entry behind it is visible, then the
  // last entry of block b belongs to the user key, too.
  lemma VisibleBehind(entries: seq<Entry>, end: nat, key: IKey, u: UserKey, s: nat, i: nat)
    requires SortedEntries(entries) && Short(entries, end, key) && !Before(key, LookupKey(u, s))
    requires end <= i < |entries| && entries[i].VisibleTo(u, s)
    ensures key == entries[end - 1].key && key.user == u
  {
    UserKeysOrdered();
    var e, first := entries[i].key, entries[end].key;
    assert e == first || Before(first, e);
    if key == entries[end - 1].key {
      assert Before(key, e);
    }
  }

  // Entries in front of the block the index names are before the lookup key.
  lemma FrontIsBefore(entries: seq<Entry>, ends: seq<nat>, index: seq<IKey>, k: IKey, b: nat, i: nat)
    requires SortedEntries(entries) && |index| == |ends| && b <= |ends|
    requires forall c :: 0 <= c < b ==> Short(entries, ends[c], index[c]) && Before(index[c], k)
    requires i < StartOf(ends, b) && i < |entries|
    ensures Before(entries[i].key, k)
  {
    hide Before, Short;
    ShortSeparates(entries, ends[b - 1], index[b - 1]);
    IsInFront(entries, ends[b - 1], index[b - 1], k, i);
  }

  // A visible entry is in the block the index names, or shares its user key
  // with the last entry there.
  lemma WhereVisible(entries: seq<Entry>, ends: seq<nat>, index: seq<IKey>, u: UserKey, s: nat, b: nat, i: nat)
    requires SortedEntries(entries) && |index| == |ends| && b < |ends|
    requires forall c :: 0 <= c <= b ==> Short(entries, ends[c], index[c])
    requires forall c :: 0 <= c < b ==> Before(index[c], LookupKey(u, s))
    requires !Before(index[b], LookupKey(u, s))
    requires i < |entries| && entries[i].VisibleTo(u, s)
    ensures StartOf(ends, b) <= i
    ensures 0 < ends[b] <= |entries|
    ensures i < ends[b] || (entries[ends[b] - 1].key.user == u && !Before(entries[ends[b] - 1].key, LookupKey(u, s)))
  {
    hide Before, StartOf;
    VisibleNotBefore(entries[i], u, s);
    if i < StartOf(ends, b) {
      FrontIsBefore(entries, ends, index, LookupKey(u, s), b, i);
    }
    if i >= ends[b] {
      VisibleBehind(entries, ends[b], index[b], u, s, i);
    }
  }

  // Entry i in its block, if it is in block b.
  lemma InItsBlock(entries: seq<Entry>, ends: seq<nat>, blocks: seq<seq<Entry>>, b: nat, i: nat)
    requires CutInto(entries, ends, blocks) && b < |ends| && StartOf(ends, b) < ends[b]
    ensures ends[b] - StartOf(ends, b) == |blocks[b]| && ends[b] <= |entries|
    ensures StartOf(ends, b) <= i < ends[b] ==> blocks[b][i - StartOf(ends, b)] == entries[i]
    ensures blocks[b][|blocks[b]| - 1] == entries[ends[b] - 1]
  {
    hide Before, StartOf;
    BlockBounds(entries, ends, blocks);
    assert blocks[b] == entries[StartOf(ends, b)..ends[b]];
  }

  lemma OneBlockDecides(entries: seq<Entry>, ends: seq<nat>, blocks: seq<seq<Entry>>, index: seq<IKey>,
                        u: UserKey, s: nat, b: nat, q: nat)
    requires CutInto(entries, ends, blocks) && |index| == |ends| && b < |ends| && StartOf(ends, b) < ends[b]
    requires forall c :: 0 <= c <= b ==> Short(entries, ends[c], index[c])
    requires forall c :: 0 <= c < b ==> Before(index[c], LookupKey(u, s))
    requires !Before(index[b], LookupKey(u, s))
    requires q <= |blocks[b]| && forall i :: 0 <= i < q ==> Before(blocks[b][i].key, LookupKey(u, s))
    requires q < |blocks[b]| ==> !Before(blocks[b][q].key, LookupKey(u, s))
    ensures Settles(Elements(entries), u, s,
                    if q < |blocks[b]| && blocks[b][q].key.user == u then Some(blocks[b][q]) else None)
  {
    hide Before, Short, StartOf, Cuts;
    var k := LookupKey(u, s);
    BlockBounds(entries, ends, blocks);
    var at := StartOf(ends, b) + q;
    assert blocks[b] == entries[StartOf(ends, b)..ends[b]];
    if q < |blocks[b]| {
      assert blocks[b][q] == entries[at];
      forall i | StartOf(ends, b) <= i < at
        ensures Before(entries[i].key, k)
      {
        assert blocks[b][i - StartOf(ends, b)] == entries[i];
      }
      FirstInAll(entries, ends, index, k, b, at);
      SeekAnswers(Elements(entries), u, s, Some(entries[at]));
    } else {
      forall e | e in Elements(entries)
        ensures !e.VisibleTo(u, s)
      {
        var i :| 0 <= i < |entries| && entries[i] == e;
        InItsBlock(entries, ends, blocks, b, i);
        if e.VisibleTo(u, s) {
          WhereVisible(entries, ends, index, u, s, b, i);
          VisibleNotBefore(e, u, s);
          assert false;
        }
      }
    }
  }

  // The first entry of the block at or after the key is the first of all.
  lemma FirstInAll(entries: seq<Entry>, ends: seq<nat>, index: seq<IKey>, k: IKey, b: nat, at: nat)
    requires SortedEntries(entries) && |index| == |ends| && b < |ends|
    requires forall c :: 0 <= c <= b ==> Short(entries, ends[c], index[c])
    requires forall c :: 0 <= c < b ==> Before(index[c], k)
    requires StartOf(ends, b) <= at < |entries| && !Before(entries[at].key, k)
    requires forall i :: StartOf(ends, b) <= i < at ==> Before(entries[i].key, k)
    ensures FirstFrom(Elements(entries), k, Some(entries[at]))
  {
    hide Before, Short, StartOf;
    forall e | e in Elements(entries)
      ensures Before(e.key, k) || !Before(e.key, entries[at].key)
    {
      var i :| 0 <= i < |entries| && entries[i] == e;
      if i < StartOf(ends, b) {
        FrontIsBefore(entries, ends, index, k, b, i);
      } else if i >= at {
        NotBackwards(entries[at].key, e.key);
      }
    }
  }

  lemma NotBackwards(a: IKey, b: IKey)
    ensures a == b || Before(a, b) ==> !Before(b, a)
  {
    InternalKeysOrdered();
  }

  lemma NotInBlock(entries: seq<Entry>, ends: seq<nat>, blocks: seq<seq<Entry>>, index: seq<IKey>,
                   u: UserKey, s: nat, b: nat)
    requires CutInto(entries, ends, blocks) && |index| == |ends| && b < |ends| && StartOf(ends, b) < ends[b]
    requires forall c :: 0 <= c <= b ==> Short(entries, ends[c], index[c])
    requires forall c :: 0 <= c < b ==> Before(index[c], LookupKey(u, s))
    requires !Before(index[b], LookupKey(u, s))
    requires forall e :: e in blocks[b] ==> e.key.user != u
    ensures NoneVisible(Elements(entries), u, s)
  {
    hide Before, Short, StartOf, Cuts;
    BlockBounds(entries, ends, blocks);
    assert blocks[b] == entries[StartOf(ends, b)..ends[b]];
    forall e | e in Elements(entries)
      ensures !e.VisibleTo(u, s)
    {
      var i :| 0 <= i < |entries| && entries[i] == e;
      InItsBlock(entries, ends, blocks, b, i);
      if e.VisibleTo(u, s) {
        WhereVisible(entries, ends, index, u, s, b, i);
        assert false;
      }
    }
  }

  lemma AllBehind(entries: seq<Entry>, ends: seq<nat>, index: seq<IKey>, u: UserKey, s: nat)
    requires SortedEntries(entries) && |index| == |ends| && StartOf(ends, |ends|) == |entries|
    requires forall c :: 0 <= c < |ends| ==> Short(entries, ends[c], index[c]) && Before(index[c], LookupKey(u, s))
    ensures NoneVisible(Elements(entries), u, s)
  {
    hide Before, Short, StartOf;
    forall e | e in Elements(entries)
      ensures !e.VisibleTo(u, s)
    {
      var i :| 0 <= i < |entries| && entries[i] == e;
      FrontIsBefore(entries, ends, index, LookupKey(u, s), |ends|, i);
      if e.VisibleTo(u, s) { VisibleNotBefore(e, u, s); }
    }
  }
}
