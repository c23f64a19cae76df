// The iterator of a table file: one over the index block, and one over the data
// block it is at (table/two_level_iterator.cc, table/iterator_wrapper.h).
module TwoLevelIterators {
  import opened Keys
  import opened Store
  import opened Coding
  import opened Compaction
  import opened Crc
  import opened InternalKeys
  import opened Options
  import opened TableFiles
  import opened TableFormat
  import opened Tables
  import Blocks
  import FilterBlocks

  // A block's iterator, with what it says kept at hand.
  class IteratorWrapper {
    const iter: Blocks.BlockIter
    var valid: bool
    var key: seq<Byte>
    ghost const keys: seq<IKey>
    ghost var pos: nat       // |keys| when not valid

    // The block has a pair for each key, in order.
    ghost predicate Over() {
      iter.before == KeyOrder() && iter.Whole() && Keyed(iter.pairs, keys) && Blocks.Ascend(KeyOrder(), iter.pairs)
    }

    ghost predicate Ok()
      reads this, iter
    {
      && Over() && iter.Valid() && pos <= |keys| && iter.Stands(pos)
      && (valid <==> pos < |keys|) && (valid ==> key == EncodeKey(keys[pos]))
    }

    constructor (iter: Blocks.BlockIter, ghost keys: seq<IKey>)
      requires iter.before == KeyOrder() && iter.Whole() && Keyed(iter.pairs, keys) &&
               Blocks.Ascend(KeyOrder(), iter.pairs)
      requires iter.Valid() && iter.current == iter.restarts
      ensures Ok() && pos == |keys| && this.iter == iter && this.keys == keys
    {
      this.iter, this.keys := iter, keys;
      valid, key, pos := false, [], |keys|;
    }

    method Update(ghost p: nat)
      requires Over() && iter.Valid() && p <= |keys| && iter.Stands(p)
      modifies this
      ensures Ok() && pos == p
    {
      hide KeyOrder, Blocks.Ascend, EncodeKey, Blocks.BlockIter.Whole, Blocks.Offset;
      iter.LastOffset(p);
      valid := iter.current < iter.restarts;
      if valid {
        key := iter.key;
      }
      pos := p;
    }

    method Next()
      requires Ok() && valid
      modifies this, iter
      ensures Ok() && pos == old(pos) + 1
    {
      hide KeyOrder, Blocks.Ascend, EncodeKey, Blocks.BlockIter.Whole, Blocks.Offset;
      iter.LastOffset(pos);
      iter.Next(pos);
      Update(pos + 1);
    }

    method Prev()
      requires Ok() && valid
      modifies this, iter
      ensures Ok() && pos == if old(pos) == 0 then |keys| else old(pos) - 1
    {
      hide KeyOrder, Blocks.Ascend, EncodeKey, Blocks.BlockIter.Whole, Blocks.Offset;
      iter.LastOffset(pos);
      iter.Prev(pos);
      Update(if pos == 0 then |keys| else pos - 1);
    }

    method SeekToFirst()
      requires Ok()
      modifies this, iter
      ensures Ok() && pos == 0
    {
      hide KeyOrder, Blocks.Ascend, EncodeKey, Blocks.BlockIter.Whole, Blocks.BlockIter.Stands;
      iter.SeekToFirst();
      Update(0);
    }

    method SeekToLast()
      requires Ok()
      modifies this, iter
      ensures Ok() && pos == if keys == [] then 0 else |keys| - 1
    {
      hide KeyOrder, Blocks.Ascend, EncodeKey, Blocks.BlockIter.Whole, Blocks.BlockIter.Stands;
      iter.SeekToLast();
      Update(if keys == [] then 0 else |keys| - 1);
    }

    method Seek(target: IKey)
      requires Ok() && target.sequence <= MAX_SEQUENCE
      modifies this, iter
      ensures Ok() && forall i :: 0 <= i < pos ==> Before(keys[i], target)
      ensures pos < |keys| ==> !Before(keys[pos], target)
    {
      hide Before, KeyOrder, Blocks.Ascend, EncodeKey, Blocks.BlockIter.Whole, Blocks.BlockIter.Stands;
      ghost var p := iter.Seek(EncodeKey(target));
      InRange(p);
      PlaceOfKey(iter.pairs, keys, target, p);
      Update(p);
    }

    lemma InRange(p: nat)
      requires iter.Stands(p)
      ensures p <= |iter.pairs|
    {
    }

    method Value() returns (v: seq<Byte>)
      requires Ok() && valid
      ensures v == iter.pairs[pos].value
    {
      hide KeyOrder, Blocks.Ascend, EncodeKey, Blocks.Offset;
      iter.LastOffset(pos);
      v := iter.Value();
    }
  }

  // ---- Where the blocks are among the entries ----

  lemma BlockEnds(t: Layout, b: nat)
    requires t.Sound() && b < |t.index|
    ensures |t.blocks| == |t.index| == |t.ends| == |t.handles|
    ensures StartOf(t.ends, b) + |t.blocks[b]| == t.ends[b] == StartOf(t.ends, b + 1) <= |t.entries|
    ensures b + 1 == |t.index| ==> t.ends[b] == |t.entries|
    ensures t.blocks[b] == t.entries[StartOf(t.ends, b)..t.ends[b]] && |KeysOf(t.blocks[b])| == |t.blocks[b]| > 0
  {
    hide Before, Short;
    BlockBounds(t.entries, t.ends, t.blocks);
  }

  lemma Sizes(t: Layout)
    requires t.Sound()
    ensures |t.blocks| == |t.index| == |t.ends| == |t.handles| && (t.index == [] ==> t.entries == []) &&
            StartOf(t.ends, 0) == 0
  {
    hide Before, Short;
  }

  lemma AllSeparate(t: Layout)
    requires t.Sound()
    ensures |t.index| == |t.ends| && forall b :: 0 <= b < |t.index| ==> Separates(t.entries, t.ends[b], t.index[b])
  {
    hide Before, Short, CutInto, StartOf, Separates;
    AllShort(t);
    forall b | 0 <= b < |t.index| ensures Separates(t.entries, t.ends[b], t.index[b]) {
      ShortSeparates(t.entries, t.ends[b], t.index[b]);
    }
  }

  // The block holds the first entry that is not before the target, or that
  // entry is the first one behind it.
  lemma BlockDecides(t: Layout, target: IKey, b: nat, p: nat)
    requires t.Sound() && b <= |t.index|
    requires forall c :: 0 <= c < b ==> Before(t.index[c], target)
    requires b < |t.index| ==> !Before(t.index[b], target)
    requires b == |t.index| ==> p == |t.entries|
    requires b < |t.index| ==>
               && |t.ends| == |t.blocks| == |t.index| && StartOf(t.ends, b) <= p <= t.ends[b]
               && p - StartOf(t.ends, b) <= |t.blocks[b]|
               && (forall i :: 0 <= i < p - StartOf(t.ends, b) ==> Before(t.blocks[b][i].key, target))
               && (p - StartOf(t.ends, b) < |t.blocks[b]| ==> !Before(t.blocks[b][p - StartOf(t.ends, b)].key, target))
    ensures forall i :: 0 <= i < p && i < |t.entries| ==> Before(t.entries[i].key, target)
    ensures p < |t.entries| ==> !Before(t.entries[p].key, target)
  {
    hide Before, CutInto, Separates, Layout.Sound, Short;
    Sizes(t);
    AllSeparate(t);
    if b < |t.index| { BlockEnds(t, b); }
    forall i | 0 <= i < p && i < |t.entries|
      ensures Before(t.entries[i].key, target)
    {
      if b < |t.index| && StartOf(t.ends, b) <= i {
        assert t.blocks[b][i - StartOf(t.ends, b)] == t.entries[i];
      } else {
        InFrontOf(t, b, i);
        IsInFront(t.entries, t.ends[b - 1], t.index[b - 1], target, i);
      }
    }
    if p < |t.entries| {
      if p < t.ends[b] {
        assert t.blocks[b][p - StartOf(t.ends, b)] == t.entries[p];
      } else {
        IsBehind(t.entries, t.ends[b], t.index[b], target, p);
      }
    }
  }

  lemma InFrontOf(t: Layout, b: nat, i: nat)
    requires t.Sound() && b <= |t.index| && i < |t.entries|
    requires b < |t.index| ==> |t.ends| == |t.index| && i < StartOf(t.ends, b)
    ensures 0 < b && |t.ends| == |t.index| && i < t.ends[b - 1]
  {
    hide Before, Short, CutInto;
  }

  // Blocks with the same bytes start with the same key, so they are one block.
  lemma OneBlock(crc: Checksum, file: seq<Byte>, t: Layout, b: nat, c: nat)
    requires t.Sound() && Sequenced(t) && HoldsBlocks(crc, file, t) && |file| < WORD
    requires b < |t.blocks| && c < |t.blocks| && t.handles[b] == t.handles[c]
    ensures b == c
  {
    hide Layout.Sound, HasBlock, PairsOf, ReadBlock, EncodeKey, Blocks.Describes, Keyed;
    var pb := BlockRead(crc, false, file, t.handles[b], PairsOf(t.blocks[b]));
    var pc := BlockRead(crc, false, file, t.handles[c], PairsOf(t.blocks[c]));
    FirstOf(t, b);
    FirstOf(t, c);
    SameFirst(ReadBlock(crc, false, file, t.handles[b]).value, PairsOf(t.blocks[b]), pb, PairsOf(t.blocks[c]), pc);
    FirstsDiffer(t, b, c);
  }

  lemma FirstOf(t: Layout, b: nat)
    requires t.Sound() && Sequenced(t) && b < |t.blocks|
    ensures t.blocks[b] != [] && PairsOf(t.blocks[b]) != [] &&
            PairsOf(t.blocks[b])[0].key == EncodeKey(t.blocks[b][0].key)
    ensures ParseKey(EncodeKey(t.blocks[b][0].key)) == Some(t.blocks[b][0].key)
  {
    hide Layout.Sound, Blocks.Ascend, KeyOrder, EncodeKey, ParseKey;
    AllShort(t);
    BlockAscends(t, b);
    EntryBack(t.blocks[b], 0);
  }

  lemma SameFirst(contents: seq<Byte>, a: seq<Blocks.Pair>, pa: seq<nat>, b: seq<Blocks.Pair>, pb: seq<nat>)
    requires Blocks.Describes(contents, a, pa) && Blocks.Describes(contents, b, pb) && a != [] && b != []
    ensures a[0].key == b[0].key
  {
    hide Blocks.Describes, FirstKey, Blocks.Data;
    Blocks.CountRead(contents, a, pa);
    Blocks.CountRead(contents, b, pb);
    FirstIs(contents, a, pa);
    FirstIs(contents, b, pb);
  }

  // The first key of a block whose restart points are at this place.
  ghost function FirstKey(contents: seq<Byte>, limit: nat): seq<Byte> {
    if limit > |contents| then [] else
      match Blocks.EntryLengths(contents[0..limit])
      case None => []
      case Some(l) => var from := limit - |l.rest|;
        if 0 <= from <= from + l.unshared <= |contents| then contents[from..from + l.unshared] else []
  }

  lemma FirstIs(contents: seq<Byte>, pairs: seq<Blocks.Pair>, points: seq<nat>)
    requires Blocks.Describes(contents, pairs, points) && pairs != []
    ensures pairs[0].key == FirstKey(contents, |Blocks.Data(pairs, points)|)
  {
    hide Blocks.Describes, Blocks.EntryLengths, Blocks.Data;
    Blocks.PairRead(contents, pairs, points, 0);
    StartsAtZero(pairs, points);
    assert pairs[0].key[0..] == pairs[0].key;
  }

  lemma StartsAtZero(pairs: seq<Blocks.Pair>, points: seq<nat>)
    ensures Blocks.Offset(pairs, points, 0) == 0
  {
    assert pairs[..0] == [];
  }

  lemma FirstsDiffer(t: Layout, b: nat, c: nat)
    requires t.Sound() && b < |t.blocks| && c < |t.blocks|
    requires t.blocks[b] != [] && t.blocks[c] != [] && t.blocks[b][0].key == t.blocks[c][0].key
    ensures b == c
  {
    hide Layout.Sound, Before;
    Sizes(t);
    BlockEnds(t, b);
    BlockEnds(t, c);
    if b < c { LaterBlock(t, b, c); }
    if c < b { LaterBlock(t, c, b); }
  }

  lemma LaterBlock(t: Layout, b: nat, c: nat)
    requires t.Sound() && b < c < |t.blocks| && |t.ends| == |t.blocks|
    requires StartOf(t.ends, b) < t.ends[b] <= |t.entries| && StartOf(t.ends, c) < t.ends[c] <= |t.entries|
    ensures t.entries[StartOf(t.ends, b)].key != t.entries[StartOf(t.ends, c)].key
  {
    hide Short;
    BlockBounds(t.entries, t.ends, t.blocks);
    assert t.ends[b] <= t.ends[c - 1] == StartOf(t.ends, c);
    LessIrreflexive(t.entries[StartOf(t.ends, b)].key.user);
    assert Before(t.entries[StartOf(t.ends, b)].key, t.entries[StartOf(t.ends, c)].key);
  }

  // ---- The two levels ----

  // The table is one that a builder wrote, and these are the pairs of its index.
  ghost predicate IndexOf(table: Table, t: Layout, keys: seq<IKey>, pairs: seq<Blocks.Pair>) {
    && t.Sound() && Sequenced(t) && HoldsBlocks(table.crc, table.file, t) && |table.file| < WORD
    && |t.index| <= |t.handles| && keys == t.index && pairs == IndexPairs(t.index, t.handles)
  }

  ghost predicate OneHandleEach(t: Layout) {
    |t.blocks| == |t.index| == |t.ends| == |t.handles|
  }

  lemma IndexFacts(table: Table, t: Layout, keys: seq<IKey>, pairs: seq<Blocks.Pair>)
    requires IndexOf(table, t, keys, pairs)
    ensures t.Sound() && Sequenced(t) && OneHandleEach(t) && |pairs| == |keys|
    ensures t.index == [] ==> t.entries == []
    ensures StartOf(t.ends, 0) == 0
    ensures forall b :: 0 <= b < |t.index| ==> pairs[b].value == EncodeHandle(t.handles[b])
  {
    hide Layout.Sound, Sequenced, HoldsBlocks, EncodeHandle, EncodeKey;
    Sizes(t);
  }

  class TwoLevelIterator {
    const table: Table
    const index: IteratorWrapper
    var data: IteratorWrapper?
    var dataHandle: seq<Byte>        // the index value data was made from
    ghost const t: Layout
    ghost var block: nat             // the block it stands for

    // The index is that of the table's blocks.
    ghost predicate Reads() {
      IndexOf(table, t, index.keys, index.iter.pairs) && OneHandleEach(t) && index.keys == t.index
    }

    ghost function Cursors(): set<object>
      reads this
    {
      if data == null then {index, index.iter} else {index, index.iter, data, data.iter}
    }

    // A block that is open is one of the table.
    ghost predicate Usable()
      reads this, Cursors()
    {
      && Reads() && index.Ok()
      && (data != null ==>
            && data != index && data.iter != index.iter && data.Ok()
            && block < |t.blocks| && data.keys == KeysOf(t.blocks[block])
            && data.iter.pairs == PairsOf(t.blocks[block]) && dataHandle == EncodeHandle(t.handles[block]))
    }

    // The block the index is at has been opened.
    ghost predicate Opened()
      reads this, Cursors()
    {
      Usable() && if data != null then index.pos < |t.index| && block == index.pos else index.pos == |t.index|
    }

    // At entry p, or at none.
    ghost predicate At(p: nat)
      reads this, Cursors()
    {
      && Usable()
      && if p < |t.entries| then
           && Opened() && data != null && data.valid && index.pos <= |t.ends|
           && StartOf(t.ends, index.pos) + data.pos == p
         else p == |t.entries| && data == null
    }

    constructor (table: Table, index: IteratorWrapper, ghost t: Layout)
      requires IndexOf(table, t, index.keys, index.iter.pairs) && OneHandleEach(t) && index.keys == t.index &&
               index.Ok()
      ensures At(|t.entries|) && this.t == t && this.index == index && Cursors() == {index, index.iter}
    {
      hide IndexOf, StartOf, EncodeHandle, EncodeKey, PairsOf, KeysOf, IteratorWrapper.Over, Blocks.BlockIter.Stands,
           Blocks.BlockIter.Valid;
      this.table, this.index, this.t := table, index, t;
      data, dataHandle, block := null, [], 0;
    }

    predicate Valid()
      reads this, data
    {
      data != null && data.valid
    }

    // BlockReader: a new iterator on the block the handle names.
    method BlockReader(handle: seq<Byte>, ghost b: nat) returns (it: IteratorWrapper)
      requires Reads() && b < |t.blocks| && handle == EncodeHandle(t.handles[b])
      ensures fresh(it) && fresh(it.iter) && it.Ok() && it.keys == KeysOf(t.blocks[b]) &&
              it.iter.pairs == PairsOf(t.blocks[b])
    {
      hide Layout.Sound, HoldsBlocks, HasBlock, KeyOrder, Keyed, KeysOf, PairsOf, Blocks.Ascend, Blocks.Describes,
           ReadBlock, EncodeHandle, DecodeHandle, Blocks.BlockIter.Whole;
      HandleBack(table.crc, table.file, t, b);
      BlockThere(b);
      BlockAscends(t, b);
      ghost var pairs := PairsOf(t.blocks[b]);
      ghost var points := BlockRead(table.crc, table.verify, table.file, t.handles[b], pairs);
      var h := DecodeHandle(handle);
      var contents := ReadBlock(table.crc, table.verify, table.file, h.value.0);
      var iter := Blocks.NewIterator(KeyOrder(), contents.value, pairs, points);
      it := new IteratorWrapper(iter, KeysOf(t.blocks[b]));
    }

    lemma BlockThere(b: nat)
      requires Reads() && b < |t.blocks|
      ensures HasBlock(table.crc, table.file, t.handles[b], PairsOf(t.blocks[b]))
    {
      hide HasBlock, Layout.Sound;
    }

    // Open the block at the index, unless it is open.
    method InitDataBlock()
      requires Usable()
      modifies this
      ensures Opened() && fresh(Cursors() - old(Cursors()))
    {
      hide IndexOf, StartOf, EncodeHandle, EncodeKey, PairsOf, KeysOf, IteratorWrapper.Over, Blocks.BlockIter.Stands,
           Blocks.BlockIter.Valid;
      IndexFacts(table, t, index.keys, index.iter.pairs);
      if !index.valid {
        data := null;
      } else {
        var handle := index.Value();
        if data != null && handle == dataHandle {
          SameHandle(index.pos, block);
        } else {
          data := BlockReader(handle, index.pos);
          dataHandle, block := handle, index.pos;
        }
      }
    }

    lemma SameHandle(b: nat, c: nat)
      requires Reads() && b < |t.blocks| && c < |t.blocks|
      requires EncodeHandle(t.handles[b]) == EncodeHandle(t.handles[c])
      ensures b == c
    {
      hide Layout.Sound, HoldsBlocks, EncodeHandle, DecodeHandle;
      HandleBack(table.crc, table.file, t, b);
      HandleBack(table.crc, table.file, t, c);
      OneBlock(table.crc, table.file, t, b, c);
    }

    // The entries in front of the position: p of them.
    ghost predicate InFront(p: nat)
      requires Opened()
      reads this, Cursors()
    {
      p == if data != null && index.pos <= |t.ends| then StartOf(t.ends, index.pos) + data.pos else |t.entries|
    }

    // On to the next block that is not empty, when the current one is at its end.
    method SkipEmptyDataBlocksForward(ghost p: nat)
      requires Opened() && InFront(p) && p <= |t.entries|
      modifies this, Cursors()
      ensures At(p) && fresh(Cursors() - old(Cursors()))
    {
      hide IndexOf, StartOf, EncodeHandle, EncodeKey, PairsOf, KeysOf, IteratorWrapper.Over, Blocks.BlockIter.Stands,
           Blocks.BlockIter.Valid;
      while data == null || !data.valid
        invariant Opened() && InFront(p) && fresh(Cursors() - old(Cursors()))
        decreases |t.index| - index.pos
      {
        if !index.valid {
          data := null;
          return;
        }
        NextBlock(p);
      }
      IndexFacts(table, t, index.keys, index.iter.pairs);
      BlockEnds(t, index.pos);
    }

    method NextBlock(ghost p: nat)
      requires Opened() && InFront(p) && index.valid && data != null && !data.valid
      modifies this, Cursors()
      ensures Opened() && InFront(p) && fresh(Cursors() - old(Cursors())) && index.pos == old(index.pos) + 1
    {
      hide IndexOf, StartOf, EncodeHandle, EncodeKey, PairsOf, KeysOf, IteratorWrapper.Over, Blocks.BlockIter.Stands,
           Blocks.BlockIter.Valid;
      IndexFacts(table, t, index.keys, index.iter.pairs);
      BlockEnds(t, index.pos);
      index.Next();
      InitDataBlock();
      if data != null {
        data.SeekToFirst();
      }
    }

    // The same when it goes back: q entries are in front of and at the position.
    ghost predicate UpTo(q: nat)
      requires Opened()
      reads this, Cursors()
    {
      q == if data == null || index.pos > |t.ends| then 0
           else StartOf(t.ends, index.pos) + if data.valid then data.pos + 1 else 0
    }

    // Back to the last entry of a block in front, when the current one is at
    // its start.
    method SkipEmptyDataBlocksBackward(ghost q: nat)
      requires Opened() && UpTo(q) && q <= |t.entries|
      modifies this, Cursors()
      ensures At(if q == 0 then |t.entries| else q - 1) && fresh(Cursors() - old(Cursors()))
    {
      hide IndexOf, StartOf, EncodeHandle, EncodeKey, PairsOf, KeysOf, IteratorWrapper.Over, Blocks.BlockIter.Stands,
           Blocks.BlockIter.Valid;
      while data == null || !data.valid
        invariant Opened() && UpTo(q) && fresh(Cursors() - old(Cursors()))
        decreases if index.pos == |t.index| then 0 else index.pos + 1
      {
        if !index.valid {
          data := null;
          return;
        }
        PreviousBlock(q);
      }
      IndexFacts(table, t, index.keys, index.iter.pairs);
      BlockEnds(t, index.pos);
    }

    method PreviousBlock(ghost q: nat)
      requires Opened() && UpTo(q) && index.valid && data != null && !data.valid
      modifies this, Cursors()
      ensures Opened() && UpTo(q) && fresh(Cursors() - old(Cursors()))
      ensures index.pos == if old(index.pos) == 0 then |t.index| else old(index.pos) - 1
    {
      hide IndexOf, StartOf, EncodeHandle, EncodeKey, PairsOf, KeysOf, IteratorWrapper.Over, Blocks.BlockIter.Stands,
           Blocks.BlockIter.Valid;
      IndexFacts(table, t, index.keys, index.iter.pairs);
      index.Prev();
      InitDataBlock();
      if data != null {
        BlockEnds(t, index.pos);
        data.SeekToLast();
      }
    }

    method Next(ghost p: nat)
      requires At(p) && p < |t.entries|
      modifies this, Cursors()
      ensures At(p + 1) && fresh(Cursors() - old(Cursors()))
    {
      hide IndexOf, StartOf, EncodeHandle, EncodeKey, PairsOf, KeysOf, IteratorWrapper.Over, Blocks.BlockIter.Stands,
           Blocks.BlockIter.Valid;
      data.Next();
      SkipEmptyDataBlocksForward(p + 1);
    }

    method Prev(ghost p: nat)
      requires At(p) && p < |t.entries|
      modifies this, Cursors()
      ensures At(if p == 0 then |t.entries| else p - 1) && fresh(Cursors() - old(Cursors()))
    {
      hide IndexOf, StartOf, EncodeHandle, EncodeKey, PairsOf, KeysOf, IteratorWrapper.Over, Blocks.BlockIter.Stands,
           Blocks.BlockIter.Valid;
      data.Prev();
      SkipEmptyDataBlocksBackward(p);
    }

    method SeekToFirst()
      requires Usable()
      modifies this, Cursors()
      ensures At(0) && fresh(Cursors() - old(Cursors()))
    {
      hide IndexOf, StartOf, EncodeHandle, EncodeKey, PairsOf, KeysOf, IteratorWrapper.Over, Blocks.BlockIter.Stands,
           Blocks.BlockIter.Valid;
      IndexFacts(table, t, index.keys, index.iter.pairs);
      index.SeekToFirst();
      InitDataBlock();
      if data != null {
        data.SeekToFirst();
      }
      SkipEmptyDataBlocksForward(0);
    }

    method SeekToLast()
      requires Usable()
      modifies this, Cursors()
      ensures At(if t.entries == [] then 0 else |t.entries| - 1) && fresh(Cursors() - old(Cursors()))
    {
      hide IndexOf, StartOf, EncodeHandle, EncodeKey, PairsOf, KeysOf, IteratorWrapper.Over, Blocks.BlockIter.Stands,
           Blocks.BlockIter.Valid;
      IndexFacts(table, t, index.keys, index.iter.pairs);
      index.SeekToLast();
      InitDataBlock();
      if data != null {
        BlockEnds(t, index.pos);
        data.SeekToLast();
      }
      SkipEmptyDataBlocksBackward(|t.entries|);
    }

    // To the first entry that is not before the target.
    method Seek(target: IKey) returns (ghost p: nat)
      requires Usable() && target.sequence <= MAX_SEQUENCE
      modifies this, Cursors()
      ensures At(p) && fresh(Cursors() - old(Cursors()))
      ensures forall i :: 0 <= i < p && i < |t.entries| ==> Before(t.entries[i].key, target)
      ensures p < |t.entries| ==> !Before(t.entries[p].key, target)
    {
      hide Before, IndexOf, StartOf, EncodeHandle, EncodeKey, PairsOf, KeysOf, IteratorWrapper.Over,
           Blocks.BlockIter.Stands, Blocks.BlockIter.Valid;
      IndexFacts(table, t, index.keys, index.iter.pairs);
      index.Seek(target);
      p := SeekInBlock(target);
      SkipEmptyDataBlocksForward(p);
    }

    // key() and value()
    method Current(ghost p: nat) returns (e: Entry)
      requires At(p) && p < |t.entries|
      ensures e == t.entries[p]
    {
      hide IndexOf, StartOf, EncodeHandle, EncodeKey, PairsOf, KeysOf, IteratorWrapper.Over, Blocks.BlockIter.Stands,
           Blocks.BlockIter.Valid;
      IndexFacts(table, t, index.keys, index.iter.pairs);
      BlockEnds(t, index.pos);
      BlockAscends(t, block);
      EntryBack(t.blocks[block], data.pos);
      var value := data.Value();
      assert t.blocks[block][data.pos] == t.entries[p];
      var key := ParseKey(data.key);
      e := Entry(key.value, value);
    }

    method SeekInBlock(target: IKey) returns (ghost p: nat)
      requires Usable() && target.sequence <= MAX_SEQUENCE
      requires forall b :: 0 <= b < index.pos ==> Before(t.index[b], target)
      requires index.pos < |t.index| ==> !Before(t.index[index.pos], target)
      modifies this, Cursors()
      ensures Opened() && InFront(p) && p <= |t.entries| && fresh(Cursors() - old(Cursors()))
      ensures forall i :: 0 <= i < p && i < |t.entries| ==> Before(t.entries[i].key, target)
      ensures p < |t.entries| ==> !Before(t.entries[p].key, target)
    {
      hide Before, IndexOf, StartOf, EncodeHandle, EncodeKey, PairsOf, KeysOf, IteratorWrapper.Over,
           Blocks.BlockIter.Stands, Blocks.BlockIter.Valid;
      IndexFacts(table, t, index.keys, index.iter.pairs);
      InitDataBlock();
      if data != null {
        data.Seek(target);
      }
      p := Decided(t, target, index.pos, if data != null then data.pos else 0);
    }
  }

  // The first entry that is not before the target, from the two places found.
  lemma Decided(t: Layout, target: IKey, b: nat, q: nat) returns (p: nat)
    requires t.Sound() && OneHandleEach(t) && b <= |t.index|
    requires forall c :: 0 <= c < b ==> Before(t.index[c], target)
    requires b < |t.index| ==>
               && !Before(t.index[b], target) && q <= |KeysOf(t.blocks[b])|
               && (forall i :: 0 <= i < q ==> Before(KeysOf(t.blocks[b])[i], target))
               && (q < |KeysOf(t.blocks[b])| ==> !Before(KeysOf(t.blocks[b])[q], target))
    ensures p == (if b < |t.index| then StartOf(t.ends, b) + q else |t.entries|) && p <= |t.entries|
    ensures forall i :: 0 <= i < p && i < |t.entries| ==> Before(t.entries[i].key, target)
    ensures p < |t.entries| ==> !Before(t.entries[p].key, target)
  {
    hide Before, StartOf, Layout.Sound;
    p := |t.entries|;
    if b < |t.index| {
      BlockEnds(t, b);
      p := StartOf(t.ends, b) + q;
      assert forall i :: 0 <= i < |t.blocks[b]| ==> KeysOf(t.blocks[b])[i] == t.blocks[b][i].key;
    }
    BlockDecides(t, target, b, p);
  }

  // Table::NewIterator.
  method NewIterator(table: Table, ghost name: seq<Byte>, ghost p: Parts) returns (it: TwoLevelIterator?)
    requires table.Serves(name, p) && Sequenced(p.t)
    ensures it != null && fresh(it) && fresh(it.Cursors()) && it.t == p.t && it.At(|p.t.entries|)
  {
    hide Layout.Sound, HoldsBlocks, HasBlock, IndexPairs, MetaPairs, EncodeFooter, HasFilter, KeyOrder, Keyed,
         Blocks.Ascend, Blocks.Describes, Blocks.BlockIter.Whole, StartOf, EncodeHandle, EncodeKey, PairsOf, KeysOf,
         IteratorWrapper.Over, Blocks.BlockIter.Stands;
    ghost var pairs := IndexPairs(p.t.index, p.t.handles);
    ghost var points :| Blocks.Describes(table.indexContents, pairs, points);
    IndexAscends(p.t);
    Sizes(p.t);
    var iter := Blocks.NewIterator(KeyOrder(), table.indexContents, pairs, points);
    var index := new IteratorWrapper(iter, p.t.index);
    it := new TwoLevelIterator(table, index, p.t);
  }

  // A table written and read from the first entry to the last, through the bytes.
  method WriteAndScan(crc: Checksum, blockSize: nat, interval: nat, policy: Option<FilterBlocks.Policy>,
                      name: seq<Byte>,
                      verify: bool, entries: seq<Entry>)
      returns (file: seq<Byte>, read: seq<Entry>)
    requires interval >= 1 && SortedEntries(entries) && forall e :: e in entries ==> e.key.sequence <= MAX_SEQUENCE
    ensures |file| < WORD ==> read == entries
  {
    hide Before, IsTable, SortedEntries, IsBlock, IndexOf, StartOf, EncodeHandle, EncodeKey, PairsOf, KeysOf,
         IteratorWrapper.Over, IteratorWrapper.Ok, Blocks.BlockIter.Stands, Blocks.BlockIter.Valid;
    ghost var parts;
    file, parts := WriteTable(crc, blockSize, interval, policy, name, entries);
    var table := Open(crc, verify, policy, name, file, parts);
    read := [];
    if table != null && |file| < WORD {
      var it := NewIterator(table, name, parts);
      read := ReadAll(it);
    }
  }

  method ReadAll(it: TwoLevelIterator) returns (read: seq<Entry>)
    requires it.Usable()
    modifies it, it.Cursors()
    ensures read == it.t.entries
  {
    hide IndexOf, StartOf, EncodeHandle, EncodeKey, PairsOf, KeysOf, IteratorWrapper.Over, Blocks.BlockIter.Stands,
         Blocks.BlockIter.Valid;
    it.SeekToFirst();
    read := [];
    while it.Valid()
      invariant |read| <= |it.t.entries| && it.At(|read|) && read == it.t.entries[..|read|]
      invariant fresh(it.Cursors() - old(it.Cursors()))
      decreases |it.t.entries| - |read|
    {
      var e := it.Current(|read|);
      it.Next(|read|);
      read := read + [e];
    }
  }
}
