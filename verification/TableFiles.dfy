// Table files, from the builder's calls to the bytes, and from the bytes to a
// lookup (table/table_builder.cc, table/table.cc).
module TableFiles {
  import opened Keys
  import opened Store
  import opened Coding
  import opened Compaction
  import opened Lookup
  import opened Options
  import opened Separators
  import opened InternalKeys
  import opened Tables
  import opened TableFormat
  import opened Crc
  import Blocks
  import Bloom
  import FilterBlocks

  // ---- Entries as pairs of bytes ----

  function PairOf(e: Entry): Blocks.Pair {
    Blocks.Pair(EncodeKey(e.key), e.value)
  }

  function PairsOf(entries: seq<Entry>): seq<Blocks.Pair> {
    seq(|entries|, i requires 0 <= i < |entries| => PairOf(entries[i]))
  }

  // The index has a key and a handle for each block.
  function IndexPairs(index: seq<IKey>, handles: seq<Handle>): seq<Blocks.Pair>
    requires |index| <= |handles|
  {
    seq(|index|, i requires 0 <= i < |index| => Blocks.Pair(EncodeKey(index[i]), EncodeHandle(handles[i])))
  }

  lemma OnePairMore(entries: seq<Entry>, e: Entry)
    ensures PairsOf(entries + [e]) == PairsOf(entries) + [PairOf(e)]
    ensures PairsOf([]) == []
  {
  }

  lemma OneIndexMore(index: seq<IKey>, handles: seq<Handle>, key: IKey)
    requires |index| < |handles|
    ensures IndexPairs(index + [key], handles) ==
              IndexPairs(index, handles) + [Blocks.Pair(EncodeKey(key), EncodeHandle(handles[|index|]))]
  {
  }

  // The file has the block of these pairs.
  ghost predicate HasBlock(crc: Checksum, file: seq<Byte>, h: Handle, pairs: seq<Blocks.Pair>) {
    exists points :: HasBlockOf(crc, file, h, pairs, points)
  }

  ghost predicate HasBlockOf(crc: Checksum, file: seq<Byte>, h: Handle, pairs: seq<Blocks.Pair>, points: seq<nat>) {
    && (forall k :: 0 <= k < |points| ==> points[k] <= |pairs|)
    && Stored(crc, file, h, Blocks.BlockOf(pairs, points))
    && (h.size < WORD ==> Blocks.Describes(Blocks.BlockOf(pairs, points), pairs, points))
  }

  lemma BlockStays(crc: Checksum, file: seq<Byte>, more: seq<Byte>, h: Handle, pairs: seq<Blocks.Pair>)
    requires HasBlock(crc, file, h, pairs)
    ensures HasBlock(crc, file + more, h, pairs)
  {
    hide Stored, Blocks.BlockOf, Blocks.Describes;
    var points :| HasBlockOf(crc, file, h, pairs, points);
    StoredStays(crc, file, more, h, Blocks.BlockOf(pairs, points));
    assert HasBlockOf(crc, file + more, h, pairs, points);
  }

  ghost predicate HoldsBlocks(crc: Checksum, file: seq<Byte>, t: Layout) {
    |t.handles| == |t.blocks| && forall b :: 0 <= b < |t.blocks| ==>
      HasBlock(crc, file, t.handles[b], PairsOf(t.blocks[b]))
  }

  datatype Layout = Layout(entries: seq<Entry>, ends: seq<nat>, blocks: seq<seq<Entry>>, index: seq<IKey>,
                           handles: seq<Handle>) {
    // Every block is full, and has a short key in the index.
    ghost predicate Sound() {
      && CutInto(entries, ends, blocks) && StartOf(ends, |ends|) == |entries|
      && |handles| == |blocks| == |index| == |ends|
      && (forall b :: 0 <= b < |ends| ==> StartOf(ends, b) < ends[b])
      && (forall b :: 0 <= b < |ends| ==> ShortKey(entries, ends[b], index[b]))
    }
  }

  // The last key of the block, or the earliest of a user key behind it.
  ghost predicate ShortKey(entries: seq<Entry>, end: nat, key: IKey) {
    Short(entries, end, key) && (key == entries[end - 1].key || key == Earliest(key.user))
  }

  // "filter." and the name of the policy
  const FILTER_PREFIX: seq<Byte> := [102, 105, 108, 116, 101, 114, 46]

  function MetaPairs(name: seq<Byte>, filter: Option<Handle>): seq<Blocks.Pair> {
    if filter.None? then [] else [Blocks.Pair(FILTER_PREFIX + name, EncodeHandle(filter.value))]
  }

  // The filter of a table, as it was built and where it is.
  datatype FilterPart = FilterPart(policy: FilterBlocks.Policy, lists: seq<seq<seq<Byte>>>, handle: Handle)

  datatype Parts = Parts(t: Layout, filter: Option<FilterPart>, metaindex: Handle, index: Handle) {
    function FilterHandle(): Option<Handle> {
      if filter.None? then None else Some(filter.value.handle)
    }
  }

  ghost predicate HasFilter(crc: Checksum, file: seq<Byte>, t: Layout, f: FilterPart) {
    Stored(crc, file, f.handle, FilterBlocks.BlockOf(f.policy, f.lists)) && Covers(f.lists, t)
  }

  // The file of a table: its blocks, filter, metaindex and index, and the footer
  // that leads to them.
  ghost predicate IsTable(crc: Checksum, file: seq<Byte>, name: seq<Byte>, p: Parts) {
    && |file| >= FOOTER && file[|file| - FOOTER..] == EncodeFooter(p.metaindex, p.index)
    && p.t.Sound() && Holds(crc, file, name, p)
  }

  ghost predicate Holds(crc: Checksum, file: seq<Byte>, name: seq<Byte>, p: Parts) {
    && |p.t.index| <= |p.t.handles|
    && HoldsBlocks(crc, file, p.t)
    && HasBlock(crc, file, p.index, IndexPairs(p.t.index, p.t.handles))
    && HasBlock(crc, file, p.metaindex, MetaPairs(name, p.FilterHandle()))
    && (p.filter.Some? ==> HasFilter(crc, file, p.t, p.filter.value))
  }

  // Every key of every block is in a list of the filter block, namely that for
  // the block's offset.
  ghost predicate Covers(lists: seq<seq<seq<Byte>>>, t: Layout) {
    && |t.handles| == |t.blocks|
    && forall b, i :: 0 <= b < |t.blocks| && 0 <= i < |t.blocks[b]| ==>
         InList(lists, t.handles[b].offset, EncodeKey(t.blocks[b][i].key))
  }

  ghost predicate InList(lists: seq<seq<seq<Byte>>>, offset: nat, key: seq<Byte>) {
    offset / FilterBlocks.BASE < |lists| && key in lists[offset / FilterBlocks.BASE]
  }

  // ---- Building ----

  // The entries of the block that is being filled.
  ghost function CurrentOf(t: Layout): seq<Entry> {
    if StartOf(t.ends, |t.ends|) <= |t.entries| then t.entries[StartOf(t.ends, |t.ends|)..] else []
  }

  // While blocks are written: the last one may wait for its index entry.
  ghost predicate CutSoFar(t: Layout, lastKey: IKey, pending: bool) {
    && CutInto(t.entries, t.ends, t.blocks) && |t.handles| == |t.blocks|
    && (t.entries != [] ==> lastKey == t.entries[|t.entries| - 1].key)
    && (if pending then CurrentOf(t) == [] && t.ends != [] && |t.index| == |t.ends| - 1 else |t.index| == |t.ends|)
    && (forall b :: 0 <= b < |t.ends| ==> StartOf(t.ends, b) < t.ends[b])
    && (forall b :: 0 <= b < |t.index| ==> ShortKey(t.entries, t.ends[b], t.index[b]))
  }

  // Every block but one that waits for the next key has more behind it.
  ghost predicate MoreBehind(t: Layout) {
    forall b :: 0 <= b < |t.index| && b < |t.ends| ==> t.ends[b] < |t.entries|
  }

  // The pending block is the last one written, and nothing is behind it.
  lemma PendingLast(t: Layout, lastKey: IKey, pending: bool)
    requires CutSoFar(t, lastKey, pending)
    ensures pending ==>
              t.entries != [] && t.ends[|t.ends| - 1] == |t.entries| &&
              lastKey == t.entries[|t.entries| - 1].key
    ensures pending ==> |t.handles| == |t.index| + 1 && CurrentOf(t) == []
    ensures CurrentOf(t) == [] ==> StartOf(t.ends, |t.ends|) == |t.entries|
    ensures StartOf(t.ends, |t.ends|) <= |t.entries| && CurrentOf(t) == t.entries[StartOf(t.ends, |t.ends|)..]
    ensures |t.index| <= |t.handles| == |t.ends|
  {
    hide Before, Less, Short;
  }

  // The next entry, and the index entry that waited for it.
  lemma EntryAdded(t: Layout, more: Layout, lastKey: IKey, pending: bool, e: Entry)
    requires CutSoFar(t, lastKey, pending) && MoreBehind(t)
    requires t.entries != [] ==> Before(t.entries[|t.entries| - 1].key, e.key)
    requires more == t.(entries := t.entries + [e], index := more.index)
    requires if pending then |more.index| == |t.index| + 1 && more.index[..|t.index|] == t.index &&
                             ShortKey(more.entries, |t.entries|, more.index[|t.index|]) else more.index == t.index
    ensures CutSoFar(more, e.key, false) && MoreBehind(more) && CurrentOf(more) == CurrentOf(t) + [e]
  {
    hide Before, Less, CutInto, Short, StartOf;
    PendingLast(t, lastKey, pending);
    BlocksGrow(t.entries, t.ends, t.blocks, e);
    BlockBounds(t.entries, t.ends, t.blocks);
    forall b | 0 <= b < |more.index|
      ensures ShortKey(more.entries, t.ends[b], more.index[b]) && t.ends[b] < |more.entries|
    {
      if b < |t.index| {
        assert more.index[b] == t.index[b];
        ShortStays(t.entries, t.ends[b], t.index[b], e);
      }
    }
  }

  lemma BlockAdded(t: Layout, more: Layout, lastKey: IKey, h: Handle)
    requires CutSoFar(t, lastKey, false) && CurrentOf(t) != []
    requires more == t.(ends := t.ends + [|t.entries|], blocks := t.blocks + [CurrentOf(t)], handles := t.handles + [h])
    ensures CutSoFar(more, lastKey, true) && CurrentOf(more) == [] && (MoreBehind(t) ==> MoreBehind(more))
  {
    hide Before, Less, CutInto, Short, StartOf;
    PendingLast(t, lastKey, false);
    BlockBounds(t.entries, t.ends, t.blocks);
    BlockDone(t.entries, t.ends, t.blocks);
    EndAdded(t.ends, |t.entries|);
  }

  class TableBuilder {
    const crc: Checksum
    const blockSize: nat
    const filterBlock: FilterBlocks.FilterBlockBuilder?
    const dataBlock: Blocks.BlockBuilder
    const indexBlock: Blocks.BlockBuilder
    var file: seq<Byte>
    var lastKey: IKey
    var pendingIndexEntry: bool
    var pendingHandle: Handle
    ghost var t: Layout

    // What has been written, and what the sub-builders hold.
    ghost predicate Stands()
      reads this, dataBlock, indexBlock
    {
      && dataBlock != indexBlock && dataBlock.Valid() && indexBlock.Valid()
      && dataBlock.pairs == PairsOf(CurrentOf(t))
      && |t.index| <= |t.handles| && indexBlock.pairs == IndexPairs(t.index, t.handles)
      && HoldsBlocks(crc, file, t)
      && (pendingIndexEntry ==> t.handles != [] && pendingHandle == t.handles[|t.handles| - 1])
    }

    // The filter has every key with the offset of its block.
    ghost predicate Filters()
      reads this, filterBlock
    {
      filterBlock != null ==>
        filterBlock.Valid() && filterBlock.block == |file| && KeysAdded(filterBlock.added, t, |file|, CurrentOf(t))
    }

    ghost predicate Valid()
      reads this, dataBlock, indexBlock, filterBlock
    {
      CutSoFar(t, lastKey, pendingIndexEntry) && Stands() && Filters()
    }

    constructor (crc: Checksum, blockSize: nat, interval: nat, filterBlock: FilterBlocks.FilterBlockBuilder?)
      requires interval >= 1
      requires filterBlock != null ==> filterBlock.Valid() && filterBlock.block == 0
      ensures Valid() && MoreBehind(t) && t.entries == [] && fresh(dataBlock) && fresh(indexBlock)
      ensures this.filterBlock == filterBlock && this.crc == crc
    {
      this.crc, this.blockSize, this.filterBlock := crc, blockSize, filterBlock;
      dataBlock := new Blocks.BlockBuilder(interval);
      indexBlock := new Blocks.BlockBuilder(1);
      file, lastKey := [], Earliest([]);
      pendingIndexEntry, pendingHandle := false, Handle(0, 0);
      t := Layout([], [], [], [], []);
    }

    method Add(key: IKey, value: Bytes)
      requires Valid() && MoreBehind(t)
      requires t.entries != [] ==> Before(t.entries[|t.entries| - 1].key, key)
      modifies this, dataBlock, indexBlock, filterBlock
      ensures Valid() && MoreBehind(t) && t.entries == old(t.entries) + [Entry(key, value)]
    {
      hide Before, CutSoFar, MoreBehind, HoldsBlocks, EncodeKey, KeysAdded, PairsOf, IndexPairs, ShortKey, CurrentOf,
           Blocks.Data, Blocks.Offsets, Blocks.Spaced, FilterBlocks.Flat, FilterBlocks.Starts, FilterBlocks.Made,
           FilterBlocks.Recorded;
      ghost var e := Entry(key, value);
      PendingLast(t, lastKey, pendingIndexEntry);
      ghost var before, was, waits := t, lastKey, pendingIndexEntry;
      if pendingIndexEntry {
        AddIndexEntry(key, value);
      }
      ghost var more := t.(entries := t.entries + [e]);
      EntryAdded(before, more, was, waits, e);
      SameCurrent(before, t);
      AddToFilter(key, value, before, more);
      AddToBlock(key, value, more);
      var size := dataBlock.CurrentSizeEstimate();
      if size >= blockSize {
        Flush();
      }
    }

    method AddToFilter(key: IKey, ghost value: Bytes, ghost before: Layout, ghost more: Layout)
      requires filterBlock != null ==>
                 filterBlock.Valid() && filterBlock.block == |file| &&
                   KeysAdded(filterBlock.added, before, |file|, CurrentOf(before))
      requires more.blocks == before.blocks && more.handles == before.handles
      requires CurrentOf(more) == CurrentOf(before) + [Entry(key, value)]
      modifies filterBlock
      ensures filterBlock != null ==>
                filterBlock.Valid() && filterBlock.block == |file| &&
                  KeysAdded(filterBlock.added, more, |file|, CurrentOf(more))
    {
      hide EncodeKey, KeysAdded, CurrentOf, Blocks.Data, Blocks.Offsets, Blocks.Spaced, FilterBlocks.Flat,
           FilterBlocks.Starts, FilterBlocks.Made, FilterBlocks.Recorded;
      if filterBlock != null {
        KeyIsAdded(filterBlock.added, before, |file|, CurrentOf(before), Entry(key, value), more);
        filterBlock.AddKey(EncodeKey(key));
      }
    }

    method AddToBlock(key: IKey, value: Bytes, ghost more: Layout)
      requires Stands() && !pendingIndexEntry
      requires more == t.(entries := more.entries) && CurrentOf(more) == CurrentOf(t) + [Entry(key, value)]
      modifies this`lastKey, this`t, dataBlock
      ensures Stands() && t == more && lastKey == key
    {
      hide HoldsBlocks, EncodeKey, PairsOf, IndexPairs, CurrentOf, Blocks.Data, Blocks.Offsets, Blocks.Spaced;
      OnePairMore(CurrentOf(t), Entry(key, value));
      SameBlocks(crc, file, t, more);
      lastKey := key;
      dataBlock.Add(EncodeKey(key), value);
      t := more;
    }

    // The next key decides how short the key of the last block may be.
    method AddIndexEntry(key: IKey, ghost value: Bytes)
      requires CutSoFar(t, lastKey, true) && Stands() && pendingIndexEntry
      requires Before(t.entries[|t.entries| - 1].key, key)
      modifies this`lastKey, this`t, this`pendingIndexEntry, indexBlock
      ensures Stands() && !pendingIndexEntry
      ensures t == old(t).(index := t.index) && |t.index| == |old(t).index| + 1 &&
              t.index[..|old(t).index|] == old(t).index
      ensures ShortKey(t.entries + [Entry(key, value)], |t.entries|, t.index[|t.index| - 1])
    {
      hide Before, CutSoFar, HoldsBlocks, PairsOf, IndexPairs, EncodeHandle, EncodeKey, CurrentOf, Blocks.Data,
           Blocks.Offsets, Blocks.Spaced;
      PendingLast(t, lastKey, true);
      lastKey := InternalSeparator(lastKey, key);
      OneIndexMore(t.index, t.handles, lastKey);
      ghost var more := t.(index := t.index + [lastKey]);
      SameBlocks(crc, file, t, more);
      SameCurrent(t, more);
      indexBlock.Add(EncodeKey(lastKey), EncodeHandle(pendingHandle));
      t := more;
      pendingIndexEntry := false;
    }

    // WriteRawBlock, without compression.
    method WriteRawBlock(contents: seq<Byte>) returns (h: Handle)
      modifies this`file
      ensures file == old(file) + Sealed(crc, contents) && h == Handle(|old(file)|, |contents|)
    {
      h := Handle(|file|, |contents|);
      file := file + contents;
      file := file + ([0] + Fixed(Mask(crc(contents + [0])), 4));
    }

    method Flush()
      requires Valid()
      modifies this, dataBlock, indexBlock, filterBlock
      ensures Valid() && t.entries == old(t.entries) && (old(MoreBehind(t)) ==> MoreBehind(t))
      ensures CurrentOf(t) == [] && t.index == old(t.index)
    {
      hide Before, CutSoFar, MoreBehind, HoldsBlocks, KeysAdded, PairsOf, IndexPairs, CurrentOf, Sealed, Blocks.Data,
           Blocks.Offsets, Blocks.Spaced, FilterBlocks.Flat, FilterBlocks.Starts, FilterBlocks.Made,
           FilterBlocks.Recorded;
      PendingLast(t, lastKey, pendingIndexEntry);
      NoPairs(CurrentOf(t));
      var empty := dataBlock.Empty();
      if !empty {
        ghost var before, offset := t, |file|;
        WriteBlock();
        BlockAdded(before, t, lastKey, t.handles[|t.handles| - 1]);
        if filterBlock != null {
          KeysMoved(filterBlock.added, before, t, offset, CurrentOf(before), |file|);
          filterBlock.StartBlock(|file|);
        }
      }
    }

    // The data block goes to the file.
    method WriteBlock()
      requires Stands()
      modifies this`file, this`pendingHandle, this`pendingIndexEntry, this`t, dataBlock
      ensures Stands() && pendingIndexEntry && |file| >= |old(file)|
      ensures var was := old(t);
              t == was.(ends := was.ends + [|was.entries|], blocks := was.blocks + [CurrentOf(was)],
                        handles := was.handles + [pendingHandle]) && pendingHandle.offset == |old(file)|
    {
      hide HoldsBlocks, PairsOf, IndexPairs, CurrentOf, Sealed, Blocks.BlockOf, Blocks.Describes, Blocks.Data,
           Blocks.Offsets, Blocks.Spaced;
      ghost var points := dataBlock.points;
      var contents := dataBlock.Finish();
      ghost var h := Handle(|file|, |contents|);
      ghost var more := t.(ends := t.ends + [|t.entries|], blocks := t.blocks + [CurrentOf(t)],
                           handles := t.handles + [h]);
      BlockWritten(crc, file, contents, t, more, CurrentOf(t), points);
      MoreHandles(t.index, t.handles, h);
      pendingHandle := WriteRawBlock(contents);
      dataBlock.Reset();
      t := more;
      pendingIndexEntry := true;
      NoPairs([]);
      NothingLeft(t);
    }

    // What is left of the table: the filter, the metaindex, the index, the footer.
    method Finish(name: seq<Byte>) returns (ghost parts: Parts)
      requires Valid() && MoreBehind(t)
      modifies this, dataBlock, indexBlock, filterBlock
      ensures parts.t.entries == old(t.entries) && IsTable(crc, file, name, parts)
      ensures parts.filter.Some? <==> filterBlock != null
      ensures filterBlock != null ==> parts.filter.value.policy == filterBlock.policy
    {
      hide Before, CutSoFar, MoreBehind, HoldsBlocks, KeysAdded, PairsOf, IndexPairs, MetaPairs, CurrentOf, Sealed,
           HasBlock, Stored, HasFilter, EncodeFooter, Blocks.Data, Blocks.Offsets, Blocks.Spaced, FilterBlocks.Flat,
           FilterBlocks.Starts, FilterBlocks.Made, FilterBlocks.Recorded, Layout.Sound;
      Flush();
      var filterHandle, filter := WriteFilter();
      ghost var filtered, withFilter := t, file;
      var metaindex := WriteMetaindex(name, filterHandle);
      ghost var withMeta := file;
      var indexHandle := WriteIndex();
      parts := Parts(t, filter, metaindex, indexHandle);
      Grown(withFilter, file);
      Grown(withMeta, file);
      BlockStays(crc, withMeta, file[|withMeta|..], metaindex, MetaPairs(name, filterHandle));
      if filter.Some? {
        FilterStays(crc, withFilter, file[|withFilter|..], filtered, t, filter.value);
      }
      var footer := EncodeFooter(metaindex, indexHandle);
      AllStay(crc, file, footer, name, parts);
      file := file + footer;
    }

    method WriteFilter() returns (h: Option<Handle>, ghost filter: Option<FilterPart>)
      requires Valid() && CurrentOf(t) == []
      modifies this`file, filterBlock
      ensures old(file) <= file && Stands()
      ensures (h.Some? <==> filterBlock != null) && (filter.Some? <==> filterBlock != null)
      ensures filterBlock != null ==> filter.value.handle == h.value && filter.value.policy == filterBlock.policy &&
                                      HasFilter(crc, file, t, filter.value)
    {
      hide KeysAdded, HoldsBlocks, CutSoFar, PairsOf, IndexPairs, CurrentOf, Blocks.Data, Blocks.Offsets,
           Blocks.Spaced, FilterBlocks.Flat, FilterBlocks.Starts, FilterBlocks.Made, FilterBlocks.Recorded,
           FilterBlocks.BlockOf, Sealed, Covers, Stored;
      h, filter := None, None;
      if filterBlock != null {
        ghost var was := file;
        var contents := filterBlock.Finish();
        AllCovered(filterBlock.added, filterBlock.lists, t, |file|, CurrentOf(t));
        var handle := WriteRawBlock(contents);
        StoredLast(crc, was, contents);
        BlocksStay(crc, was, Sealed(crc, contents), t);
        h, filter := Some(handle), Some(FilterPart(filterBlock.policy, filterBlock.lists, handle));
      }
    }

    // A block with one pair at most: where the filter is.
    method WriteMetaindex(name: seq<Byte>, filter: Option<Handle>) returns (h: Handle)
      requires Stands()
      modifies this`file
      ensures Stands() && old(file) <= file && HasBlock(crc, file, h, MetaPairs(name, filter))
    {
      hide HasBlock, HoldsBlocks, PairsOf, IndexPairs, MetaPairs, CurrentOf, Sealed, Blocks.Data, Blocks.Offsets,
           Blocks.Spaced, Blocks.BlockOf, Blocks.Describes;
      ghost var was, points := file, [];
      var contents;
      contents, points := MetaBlock(name, filter);
      h := WriteRawBlock(contents);
      LastBlock(crc, was, contents, MetaPairs(name, filter), points);
      BlocksStay(crc, was, Sealed(crc, contents), t);
    }

    // The last block gets a short key that nothing follows.
    method WriteIndex() returns (h: Handle)
      requires CutSoFar(t, lastKey, pendingIndexEntry) && Stands() && CurrentOf(t) == []
      modifies this`file, this`lastKey, this`t, this`pendingIndexEntry, indexBlock
      ensures old(file) <= file && t == old(t).(index := t.index)
      ensures t.Sound() && |t.index| <= |t.handles| && HasBlock(crc, file, h, IndexPairs(t.index, t.handles))
      ensures HoldsBlocks(crc, file, t)
    {
      hide Before, CutSoFar, HoldsBlocks, PairsOf, IndexPairs, CurrentOf, HasBlock, Blocks.Data, Blocks.Offsets,
           Blocks.Spaced, Blocks.BlockOf, Blocks.Describes, EncodeHandle, EncodeKey, Layout.Sound, Sealed;
      PendingLast(t, lastKey, pendingIndexEntry);
      ghost var was, waits, key := t, pendingIndexEntry, lastKey;
      if pendingIndexEntry {
        lastKey := InternalSuccessor(lastKey);
        OneIndexMore(t.index, t.handles, lastKey);
        indexBlock.Add(EncodeKey(lastKey), EncodeHandle(pendingHandle));
        t := t.(index := t.index + [lastKey]);
        pendingIndexEntry := false;
      }
      LayoutDone(was, t, key, waits, lastKey);
      ghost var points, before := indexBlock.points, file;
      var contents := indexBlock.Finish();
      h := WriteRawBlock(contents);
      LastBlock(crc, before, contents, IndexPairs(t.index, t.handles), points);
      SameBlocks(crc, before, was, t);
      BlocksStay(crc, before, Sealed(crc, contents), t);
    }
  }

  method MetaBlock(name: seq<Byte>, filter: Option<Handle>) returns (contents: seq<Byte>, ghost points: seq<nat>)
    ensures (forall k :: 0 <= k < |points| ==> points[k] <= |MetaPairs(name, filter)|)
    ensures contents == Blocks.BlockOf(MetaPairs(name, filter), points)
    ensures |contents| < WORD ==> Blocks.Describes(contents, MetaPairs(name, filter), points)
  {
    hide Blocks.Data, Blocks.Offsets, Blocks.Spaced, Blocks.BlockOf, Blocks.Describes, EncodeHandle;
    var builder := new Blocks.BlockBuilder(16);
    if filter.Some? {
      builder.Add(FILTER_PREFIX + name, EncodeHandle(filter.value));
    }
    points := builder.points;
    assert builder.pairs == MetaPairs(name, filter);
    contents := builder.Finish();
  }

  lemma Grown<T>(a: seq<T>, b: seq<T>)
    requires a <= b
    ensures b == a + b[|a|..]
  {
  }

  lemma LayoutDone(t: Layout, more: Layout, lastKey: IKey, pending: bool, successor: IKey)
    requires CutSoFar(t, lastKey, pending) && CurrentOf(t) == []
    requires if pending then more == t.(index := t.index + [successor]) &&
                             (successor == lastKey ||
                              (Less(lastKey.user, successor.user) &&
                               successor == Earliest(successor.user))) else more == t
    ensures more.Sound()
  {
    hide Before, Less, CutInto, StartOf;
    PendingLast(t, lastKey, pending);
    BlockBounds(t.entries, t.ends, t.blocks);
  }

  lemma BlocksStay(crc: Checksum, file: seq<Byte>, more: seq<Byte>, t: Layout)
    requires HoldsBlocks(crc, file, t)
    ensures HoldsBlocks(crc, file + more, t)
  {
    hide HasBlock, PairsOf;
    forall b | 0 <= b < |t.blocks| ensures HasBlock(crc, file + more, t.handles[b], PairsOf(t.blocks[b])) {
      BlockStays(crc, file, more, t.handles[b], PairsOf(t.blocks[b]));
    }
  }

  lemma FilterStays(crc: Checksum, file: seq<Byte>, more: seq<Byte>, t: Layout, after: Layout, f: FilterPart)
    requires HasFilter(crc, file, t, f) && after.blocks == t.blocks && after.handles == t.handles
    ensures HasFilter(crc, file + more, after, f)
  {
    hide Stored, InList, FilterBlocks.BlockOf;
    StoredStays(crc, file, more, f.handle, FilterBlocks.BlockOf(f.policy, f.lists));
  }

  lemma AllStay(crc: Checksum, file: seq<Byte>, more: seq<Byte>, name: seq<Byte>, p: Parts)
    requires Holds(crc, file, name, p)
    ensures Holds(crc, file + more, name, p)
  {
    hide HasBlock, HoldsBlocks, HasFilter, IndexPairs, MetaPairs;
    BlocksStay(crc, file, more, p.t);
    BlockStays(crc, file, more, p.index, IndexPairs(p.t.index, p.t.handles));
    BlockStays(crc, file, more, p.metaindex, MetaPairs(name, p.FilterHandle()));
    if p.filter.Some? {
      FilterStays(crc, file, more, p.t, p.t, p.filter.value);
    }
  }

  // All keys are in the lists of the finished filter.
  lemma AllCovered(added: set<(nat, seq<Byte>)>, lists: seq<seq<seq<Byte>>>, t: Layout, offset: nat,
                   current: seq<Entry>)
    requires KeysAdded(added, t, offset, current)
    requires forall a :: a in added ==> a.0 / FilterBlocks.BASE < |lists| && a.1 in lists[a.0 / FilterBlocks.BASE]
    ensures Covers(lists, t)
  {
    hide EncodeKey;
  }

  lemma NothingLeft(t: Layout)
    requires t.ends != [] && t.ends[|t.ends| - 1] == |t.entries|
    ensures CurrentOf(t) == []
  {
  }

  // Blocks do not depend on the other parts.
  lemma SameBlocks(crc: Checksum, file: seq<Byte>, t: Layout, more: Layout)
    requires more.blocks == t.blocks && more.handles == t.handles
    ensures HoldsBlocks(crc, file, t) ==> HoldsBlocks(crc, file, more)
  {
  }

  lemma SameCurrent(t: Layout, more: Layout)
    requires more.entries == t.entries && more.ends == t.ends
    ensures CurrentOf(more) == CurrentOf(t)
  {
  }

  lemma NoPairs(entries: seq<Entry>)
    ensures PairsOf(entries) == [] <==> entries == []
  {
  }

  lemma MoreHandles(index: seq<IKey>, handles: seq<Handle>, h: Handle)
    requires |index| <= |handles|
    ensures IndexPairs(index, handles + [h]) == IndexPairs(index, handles)
  {
  }

  // A block goes to the end of the file.
  lemma BlockWritten(crc: Checksum, file: seq<Byte>, contents: seq<Byte>, t: Layout, more: Layout, block: seq<Entry>,
                     points: seq<nat>)
    requires HoldsBlocks(crc, file, t)
    requires more.blocks == t.blocks + [block] && more.handles == t.handles + [Handle(|file|, |contents|)]
    requires (forall k :: 0 <= k < |points| ==> points[k] <= |PairsOf(block)|) &&
             contents == Blocks.BlockOf(PairsOf(block), points)
    requires |contents| < WORD ==> Blocks.Describes(contents, PairsOf(block), points)
    ensures HoldsBlocks(crc, file + Sealed(crc, contents), more)
  {
    hide HasBlock, Sealed, PairsOf, Blocks.BlockOf, Blocks.Describes;
    var after := file + Sealed(crc, contents);
    forall b | 0 <= b < |more.blocks|
      ensures HasBlock(crc, after, more.handles[b], PairsOf(more.blocks[b]))
    {
      if b < |t.blocks| {
        BlockStays(crc, file, Sealed(crc, contents), t.handles[b], PairsOf(t.blocks[b]));
      } else {
        LastBlock(crc, file, contents, PairsOf(block), points);
      }
    }
  }

  lemma LastBlock(crc: Checksum, file: seq<Byte>, contents: seq<Byte>, pairs: seq<Blocks.Pair>, points: seq<nat>)
    requires (forall k :: 0 <= k < |points| ==> points[k] <= |pairs|) && contents == Blocks.BlockOf(pairs, points)
    requires |contents| < WORD ==> Blocks.Describes(contents, pairs, points)
    ensures HasBlock(crc, file + Sealed(crc, contents), Handle(|file|, |contents|), pairs)
  {
    hide Sealed, Stored, Blocks.BlockOf, Blocks.Describes;
    StoredLast(crc, file, contents);
    assert HasBlockOf(crc, file + Sealed(crc, contents), Handle(|file|, |contents|), pairs, points);
  }

  lemma KeyIsAdded(added: set<(nat, seq<Byte>)>, t: Layout, offset: nat, current: seq<Entry>, e: Entry, more: Layout)
    requires KeysAdded(added, t, offset, current) && more.blocks == t.blocks && more.handles == t.handles
    ensures KeysAdded(added + {(offset, EncodeKey(e.key))}, more, offset, current + [e])
  {
    hide EncodeKey;
  }

  // The block that is written keeps the offset its keys were added with.
  lemma KeysMoved(added: set<(nat, seq<Byte>)>, t: Layout, more: Layout, offset: nat, current: seq<Entry>, next: nat)
    requires KeysAdded(added, t, offset, current)
    requires more.blocks == t.blocks + [current] && |more.handles| == |t.handles| + 1
    requires t.handles == more.handles[..|t.handles|] && more.handles[|t.handles|].offset == offset
    ensures KeysAdded(added, more, next, [])
  {
    hide EncodeKey;
    forall b, i | 0 <= b < |more.blocks| && 0 <= i < |more.blocks[b]|
      ensures (more.handles[b].offset, EncodeKey(more.blocks[b][i].key)) in added
    {
      if b < |t.blocks| {
        assert more.handles[b] == t.handles[b];
      }
    }
  }

  ghost predicate KeysAdded(added: set<(nat, seq<Byte>)>, t: Layout, offset: nat, current: seq<Entry>) {
    && |t.handles| == |t.blocks|
    && (forall b, i :: 0 <= b < |t.blocks| && 0 <= i < |t.blocks[b]| ==>
          (t.handles[b].offset, EncodeKey(t.blocks[b][i].key)) in added)
    && (forall i :: 0 <= i < |current| ==> (offset, EncodeKey(current[i].key)) in added)
  }

  // ---- Reading ----

  // The order of encoded internal keys.
  function KeyOrder(): Blocks.Comparator {
    (a, b) => |a| >= 8 && |b| >= 8 && Compare(a, b) < 0
  }

  lemma CompareChains(a: seq<Byte>, b: seq<Byte>, c: seq<Byte>)
    requires |a| >= 8 && |b| >= 8 && |c| >= 8 && Compare(a, b) < 0 && Compare(b, c) < 0
    ensures Compare(a, c) < 0
  {
    hide Less, Trailer, ExtractUserKey;
    UserKeysOrdered();
  }

  ghost predicate Keyed(pairs: seq<Blocks.Pair>, keys: seq<IKey>) {
    && |pairs| == |keys|
    && forall i :: 0 <= i < |keys| ==> keys[i].sequence <= MAX_SEQUENCE && pairs[i].key == EncodeKey(keys[i])
  }

  // Keys in order are pairs in order.
  lemma KeysAscend(pairs: seq<Blocks.Pair>, keys: seq<IKey>)
    requires Keyed(pairs, keys) && forall i, j :: 0 <= i < j < |keys| ==> Before(keys[i], keys[j])
    ensures Blocks.Ascend(KeyOrder(), pairs)
  {
    hide Before, EncodeKey, Compare;
    var order := KeyOrder();
    forall a, b, c | order(a, b) && order(b, c) ensures order(a, c) {
      CompareChains(a, b, c);
    }
    forall i, j | 0 <= i < j < |pairs| ensures order(pairs[i].key, pairs[j].key) {
      CompareIsOrder(keys[i], keys[j]);
    }
  }

  // Where a search among the pairs ends, it ends among the keys.
  lemma PlaceOfKey(pairs: seq<Blocks.Pair>, keys: seq<IKey>, k: IKey, p: nat)
    requires Keyed(pairs, keys) && k.sequence <= MAX_SEQUENCE && p <= |pairs|
    requires forall q :: 0 <= q < p ==> KeyOrder()(pairs[q].key, EncodeKey(k))
    requires p < |pairs| ==> !KeyOrder()(pairs[p].key, EncodeKey(k))
    ensures forall q :: 0 <= q < p ==> Before(keys[q], k)
    ensures p < |keys| ==> !Before(keys[p], k)
  {
    hide Before, EncodeKey, Compare;
    forall q | 0 <= q <= p && q < |keys| ensures KeyOrder()(pairs[q].key, EncodeKey(k)) <==> Before(keys[q], k) {
      CompareIsOrder(keys[q], k);
    }
  }

  // The pair a block's iterator stops at.
  method SeekBlock(order: Blocks.Comparator, contents: seq<Byte>, target: seq<Byte>, ghost pairs: seq<Blocks.Pair>,
                   ghost points: seq<nat>)
      returns (found: Option<Blocks.Pair>, ghost p: nat)
    ensures Blocks.Describes(contents, pairs, points) && Blocks.Ascend(order, pairs) ==>
              && p <= |pairs| && found == (if p < |pairs| then Some(pairs[p]) else None)
              && (forall q :: 0 <= q < p ==> order(pairs[q].key, target))
              && (p < |pairs| ==> !order(pairs[p].key, target))
  {
    hide Blocks.Describes, Blocks.Ascend, Blocks.Offset, Blocks.Data;
    found, p := None, 0;
    var it := Blocks.NewIterator(order, contents, pairs, points);
    if it != null {
      p := it.Seek(target);
      ghost var good := Blocks.Describes(contents, pairs, points) && Blocks.Ascend(order, pairs);
      if good {
        it.LastOffset(p);
      }
      if it.current < it.restarts {
        var value := it.Value();
        found := Some(Blocks.Pair(it.key, value));
      }
    }
  }

  lemma BlockRead(crc: Checksum, verify: bool, file: seq<Byte>, h: Handle,
                  pairs: seq<Blocks.Pair>) returns (points: seq<nat>)
    requires HasBlock(crc, file, h, pairs) && |file| < WORD
    ensures ReadBlock(crc, verify, file, h).Some?
    ensures Blocks.Describes(ReadBlock(crc, verify, file, h).value, pairs, points)
  {
    hide Blocks.BlockOf, Blocks.Describes, ReadBlock;
    points :| HasBlockOf(crc, file, h, pairs, points);
    StoredIsRead(crc, verify, file, h, Blocks.BlockOf(pairs, points));
  }

  ghost predicate IsBlock(contents: seq<Byte>, pairs: seq<Blocks.Pair>) {
    exists points :: Blocks.Describes(contents, pairs, points)
  }

  // ---- The index and the blocks ----

  ghost predicate Sequenced(t: Layout) {
    forall e :: e in t.entries ==> e.key.sequence <= MAX_SEQUENCE
  }

  lemma IndexAscends(t: Layout)
    requires t.Sound() && Sequenced(t)
    ensures Keyed(IndexPairs(t.index, t.handles), t.index) && Blocks.Ascend(KeyOrder(), IndexPairs(t.index, t.handles))
  {
    hide Before, EncodeKey, EncodeHandle, KeyOrder, Blocks.Ascend, CutInto, Short;
    BlockBounds(t.entries, t.ends, t.blocks);
    forall b | 0 <= b < |t.index| ensures t.index[b].sequence <= MAX_SEQUENCE {
      LastOfBlock(t, b);
    }
    forall b, c | 0 <= b < c < |t.index| ensures Before(t.index[b], t.index[c]) {
      IndexInOrder(t, b, c);
    }
    KeysAscend(IndexPairs(t.index, t.handles), t.index);
  }

  lemma LastOfBlock(t: Layout, b: nat)
    requires t.Sound() && b < |t.index|
    ensures 0 < t.ends[b] <= |t.entries| && t.entries[t.ends[b] - 1] in t.entries &&
            Short(t.entries, t.ends[b], t.index[b])
    ensures t.index[b] == t.entries[t.ends[b] - 1].key || t.index[b].sequence == MAX_SEQUENCE
  {
    hide Before, CutInto;
  }

  lemma IndexInOrder(t: Layout, b: nat, c: nat)
    requires t.Sound() && b < c < |t.index|
    ensures Before(t.index[b], t.index[c])
  {
    hide Before, Short, StartOf;
    LastOfBlock(t, b);
    LastOfBlock(t, c);
    EndsAscend(t, b, c);
    ShortSeparates(t.entries, t.ends[b], t.index[b]);
    ShortSeparates(t.entries, t.ends[c], t.index[c]);
    InternalKeysOrdered();
  }

  lemma EndsAscend(t: Layout, b: nat, c: nat)
    requires t.Sound() && b < c < |t.index|
    ensures t.ends[b] < t.ends[c] <= |t.entries| && SortedEntries(t.entries)
  {
    hide Before, Short;
    BlockBounds(t.entries, t.ends, t.blocks);
    assert t.ends[b] <= t.ends[c - 1] == StartOf(t.ends, c);
  }

  lemma BlockAscends(t: Layout, b: nat)
    requires t.Sound() && Sequenced(t) && b < |t.blocks|
    ensures Keyed(PairsOf(t.blocks[b]), KeysOf(t.blocks[b])) && Blocks.Ascend(KeyOrder(), PairsOf(t.blocks[b]))
  {
    hide Before, Layout.Sound, EncodeKey, KeyOrder, Blocks.Ascend;
    BlockInOrder(t, b);
    var block := t.blocks[b];
    forall i | 0 <= i < |block| ensures block[i].key.sequence <= MAX_SEQUENCE {
      assert block[i] in t.entries;
    }
    KeysAscend(PairsOf(block), KeysOf(block));
  }

  lemma BlockInOrder(t: Layout, b: nat)
    requires t.Sound() && b < |t.blocks|
    ensures SortedEntries(t.blocks[b]) && forall e :: e in t.blocks[b] ==> e in t.entries
  {
    hide Before, Short, SortedEntries;
    BlockBounds(t.entries, t.ends, t.blocks);
    BlocksSorted(t.entries, t.ends, t.blocks);
    assert t.blocks[b] == t.entries[StartOf(t.ends, b)..t.ends[b]];
  }

  function KeysOf(entries: seq<Entry>): seq<IKey> {
    seq(|entries|, i requires 0 <= i < |entries| => entries[i].key)
  }

  // The handle in the index leads to the block.
  lemma HandleBack(crc: Checksum, file: seq<Byte>, t: Layout, b: nat)
    requires HoldsBlocks(crc, file, t) && |file| < WORD && b < |t.blocks|
    ensures DecodeHandle(EncodeHandle(t.handles[b])) == Some((t.handles[b], []))
  {
    hide EncodeHandle, DecodeHandle, Blocks.BlockOf, Blocks.Describes, PairsOf;
    var h := t.handles[b];
    var points :| HasBlockOf(crc, file, h, PairsOf(t.blocks[b]), points);
    HandleRead(h, []);
    assert EncodeHandle(h) + [] == EncodeHandle(h);
  }

  // If the filter says no, the block has no entry of the user key.
  lemma FilterKnows(t: Layout, f: FilterPart, user: FilterBlocks.Policy, u: UserKey, s: nat, b: nat)
    requires Covers(f.lists, t) && b < |t.blocks| && t.blocks[b] != []
    requires f.policy == FilterBlocks.InternalPolicy(user) && user.Honest()
    ensures var i := t.handles[b].offset / FilterBlocks.BASE;
            && i < |f.lists|
            && (!f.policy.mayMatch(EncodeKey(LookupKey(u, s)), FilterBlocks.FilterOf(f.policy, f.lists[i])) ==>
                  forall e :: e in t.blocks[b] ==> e.key.user != u)
  {
    hide FilterBlocks.InternalPolicy, FilterBlocks.FilterOf, EncodeKey;
    var i := t.handles[b].offset / FilterBlocks.BASE;
    assert InList(f.lists, t.handles[b].offset, EncodeKey(t.blocks[b][0].key));
    forall j | 0 <= j < |t.blocks[b]| && t.blocks[b][j].key.user == u
      ensures f.policy.mayMatch(EncodeKey(LookupKey(u, s)), FilterBlocks.FilterOf(f.policy, f.lists[i]))
    {
      var stored := EncodeKey(t.blocks[b][j].key);
      assert InList(f.lists, t.handles[b].offset, stored);
      UserPartOf(t.blocks[b][j].key);
      UserPartOf(LookupKey(u, s));
      FilterBlocks.InternalIsHonest(user, f.lists[i], stored, EncodeKey(LookupKey(u, s)));
    }
  }

  lemma UserPartOf(key: IKey)
    ensures FilterBlocks.UserPart(EncodeKey(key)) == key.user
  {
    hide Fixed;
  }

  // What the search of the index tells.
  lemma IndexPlace(t: Layout, k: IKey, b: nat)
    requires t.Sound() && Sequenced(t) && k.sequence <= MAX_SEQUENCE && b <= |t.index|
    requires forall q :: 0 <= q < b ==> KeyOrder()(IndexPairs(t.index, t.handles)[q].key, EncodeKey(k))
    requires b < |t.index| ==> !KeyOrder()(IndexPairs(t.index, t.handles)[b].key, EncodeKey(k))
    ensures forall c :: 0 <= c < b ==> Before(t.index[c], k)
    ensures b < |t.index| ==> !Before(t.index[b], k)
  {
    hide Before, EncodeKey, KeyOrder, CutInto, EncodeHandle, Short, Blocks.Ascend;
    IndexAscends(t);
    PlaceOfKey(IndexPairs(t.index, t.handles), t.index, k, b);
  }

  lemma AllShort(t: Layout)
    requires t.Sound()
    ensures |t.index| == |t.ends| == |t.blocks| && SortedEntries(t.entries) && CutInto(t.entries, t.ends, t.blocks)
    ensures forall c :: 0 <= c < |t.ends| ==> Short(t.entries, t.ends[c], t.index[c]) && StartOf(t.ends, c) < t.ends[c]
    ensures forall c :: 0 <= c < |t.blocks| ==> t.blocks[c] != []
  {
    hide Before, Short;
    BlockBounds(t.entries, t.ends, t.blocks);
    forall c | 0 <= c < |t.blocks| ensures t.blocks[c] != [] {
      assert t.blocks[c] == t.entries[StartOf(t.ends, c)..t.ends[c]];
    }
  }

  lemma IndexSizes(t: Layout)
    requires |t.index| <= |t.handles|
    ensures |IndexPairs(t.index, t.handles)| == |t.index|
    ensures forall b :: 0 <= b < |t.index| ==> IndexPairs(t.index, t.handles)[b].value == EncodeHandle(t.handles[b])
  {
  }

  lemma FilterPolicy(crc: Checksum, file: seq<Byte>, t: Layout, f: FilterPart)
    requires HasFilter(crc, file, t, f)
    ensures Covers(f.lists, t)
  {
  }

  lemma NoneInBlock(t: Layout, u: UserKey, s: nat, b: nat)
    requires t.Sound() && b < |t.blocks| && forall e :: e in t.blocks[b] ==> e.key.user != u
    requires forall c :: 0 <= c < b ==> Before(t.index[c], LookupKey(u, s))
    requires b < |t.index| && !Before(t.index[b], LookupKey(u, s))
    ensures Settles(Elements(t.entries), u, s, None)
  {
    hide Before, Short, CutInto, StartOf, Elements;
    AllShort(t);
    NotInBlock(t.entries, t.ends, t.blocks, t.index, u, s, b);
  }

  lemma NoneAtAll(t: Layout, u: UserKey, s: nat)
    requires t.Sound() && forall c :: 0 <= c < |t.index| ==> Before(t.index[c], LookupKey(u, s))
    ensures Settles(Elements(t.entries), u, s, None)
  {
    hide Before, Short, CutInto, StartOf, Elements;
    AllShort(t);
    AllBehind(t.entries, t.ends, t.index, u, s);
  }

  class Table {
    const crc: Checksum
    const verify: bool
    const file: seq<Byte>
    const indexContents: seq<Byte>
    const filter: FilterBlocks.FilterBlockReader?

    // The index block is read, and the filter if there is one.
    ghost predicate Serves(name: seq<Byte>, p: Parts) {
      && |p.t.index| <= |p.t.handles| && IsTable(crc, file, name, p) && |file| < WORD
      && IsBlock(indexContents, IndexPairs(p.t.index, p.t.handles))
      && (filter != null ==>
            && p.filter.Some? && filter.Valid() && filter.policy == p.filter.value.policy
            && filter.Reads(p.filter.value.lists))
    }

    constructor (crc: Checksum, verify: bool, file: seq<Byte>, indexContents: seq<Byte>,
                 filter: FilterBlocks.FilterBlockReader?)
      ensures this.crc == crc && this.verify == verify && this.file == file
      ensures this.indexContents == indexContents && this.filter == filter
    {
      this.crc, this.verify, this.file, this.indexContents, this.filter := crc, verify, file, indexContents, filter;
    }

    // The block the index names, if the filter does not exclude it, settles the
    // read.
    method InternalGet(u: UserKey, s: nat, ghost name: seq<Byte>, ghost p: Parts, ghost user: FilterBlocks.Policy)
        returns (r: Option<Entry>)
      requires Serves(name, p) && s <= MAX_SEQUENCE && Sequenced(p.t)
      requires p.filter.Some? ==> p.filter.value.policy == FilterBlocks.InternalPolicy(user) && user.Honest()
      ensures Settles(Elements(p.t.entries), u, s, r)
    {
      hide Before, Short, CutInto, StartOf, Elements, Settles, EncodeKey, PairsOf, IndexPairs, HoldsBlocks, HasFilter,
           HasBlock, Blocks.Describes, Blocks.Ascend, DecodeHandle, EncodeHandle, EncodeFooter, KeyOrder,
           FilterBlocks.InternalPolicy, FilterBlocks.FilterOf, Layout.Sound, FilterBlocks.BlockOf, FilterBlocks.Flat,
           FilterBlocks.Made;
      r := None;
      var k := LookupKey(u, s);
      var target := EncodeKey(k);
      ghost var t, pairs := p.t, IndexPairs(p.t.index, p.t.handles);
      ghost var points :| Blocks.Describes(indexContents, pairs, points);
      IndexAscends(t);
      AllShort(t);
      var at, b := SeekBlock(KeyOrder(), indexContents, target, pairs, points);
      IndexSizes(t);
      IndexPlace(t, k, b);
      if at.Some? {
        HandleBack(crc, file, t, b);
        var h := DecodeHandle(at.value.value);
        var mayMatch := true;
        if filter != null {
          FilterPolicy(crc, file, t, p.filter.value);
          FilterKnows(t, p.filter.value, user, u, s, b);
          mayMatch := filter.KeyMayMatch(h.value.0.offset, target, p.filter.value.lists);
        }
        if mayMatch {
          r := BlockGet(h.value.0, u, s, t, b);
        } else {
          NoneInBlock(t, u, s, b);
        }
      } else {
        NoneAtAll(t, u, s);
      }
    }

    method BlockGet(h: Handle, u: UserKey, s: nat, ghost t: Layout, ghost b: nat) returns (r: Option<Entry>)
      requires HoldsBlocks(crc, file, t) && |file| < WORD && t.Sound() && Sequenced(t) && s <= MAX_SEQUENCE
      requires b < |t.blocks| && h == t.handles[b]
      requires forall c :: 0 <= c < b ==> Before(t.index[c], LookupKey(u, s))
      requires !Before(t.index[b], LookupKey(u, s))
      ensures Settles(Elements(t.entries), u, s, r)
    {
      hide Before, Short, CutInto, StartOf, Elements, Settles, EncodeKey, PairsOf, HasBlock, Blocks.Describes,
           Blocks.Ascend, ReadBlock, KeyOrder, ParseKey, Layout.Sound;
      var k := LookupKey(u, s);
      ghost var block, pairs := t.blocks[b], PairsOf(t.blocks[b]);
      ghost var points := BlockRead(crc, verify, file, h, pairs);
      var contents := ReadBlock(crc, verify, file, h);
      BlockAscends(t, b);
      var at, q := SeekBlock(KeyOrder(), contents.value, EncodeKey(k), pairs, points);
      BlockPlace(block, k, q);
      AllShort(t);
      OneBlockDecides(t.entries, t.ends, t.blocks, t.index, u, s, b, q);
      r := None;
      if at.Some? {
        EntryBack(block, q);
        var parsed := ParseKey(at.value.key);
        if parsed.Some? && parsed.value.user == u {
          r := Some(Entry(parsed.value, at.value.value));
        }
      }
    }
  }

  lemma BlockPlace(block: seq<Entry>, k: IKey, q: nat)
    requires Keyed(PairsOf(block), KeysOf(block)) && k.sequence <= MAX_SEQUENCE && q <= |PairsOf(block)|
    requires forall i :: 0 <= i < q ==> KeyOrder()(PairsOf(block)[i].key, EncodeKey(k))
    requires q < |PairsOf(block)| ==> !KeyOrder()(PairsOf(block)[q].key, EncodeKey(k))
    ensures q <= |block| == |PairsOf(block)| && forall i :: 0 <= i < q ==> Before(block[i].key, k)
    ensures q < |block| ==> !Before(block[q].key, k)
  {
    hide Before, EncodeKey, KeyOrder;
    PlaceOfKey(PairsOf(block), KeysOf(block), k, q);
    assert forall i :: 0 <= i < |block| ==> KeysOf(block)[i] == block[i].key;
  }

  lemma EntryBack(block: seq<Entry>, q: nat)
    requires q < |block| && Keyed(PairsOf(block), KeysOf(block))
    ensures PairsOf(block)[q] == Blocks.Pair(EncodeKey(block[q].key), block[q].value)
    ensures ParseKey(EncodeKey(block[q].key)) == Some(block[q].key)
  {
    hide ParseKey, EncodeKey;
    assert KeysOf(block)[q] == block[q].key;
    KeyReadBack(block[q].key);
  }

  // ---- Opening ----

  lemma HandleInFile(crc: Checksum, file: seq<Byte>, h: Handle, pairs: seq<Blocks.Pair>)
    requires HasBlock(crc, file, h, pairs) && |file| < WORD
    ensures HandleFits(h)
  {
    hide Blocks.BlockOf, Blocks.Describes;
  }

  // Table::Open: the footer leads to the index and, by way of the metaindex, to
  // the filter.
  method Open(crc: Checksum, verify: bool, policy: Option<FilterBlocks.Policy>, name: seq<Byte>, file: seq<Byte>,
              ghost p: Parts)
      returns (table: Table?)
    requires policy.Some? && p.filter.Some? ==> p.filter.value.policy == policy.value
    ensures table != null ==> fresh(table)
    ensures IsTable(crc, file, name, p) && |file| < WORD ==>
              && table != null && table.Serves(name, p)
              && (policy.Some? && p.filter.Some? ==> table.filter != null)
  {
    hide HasBlock, HoldsBlocks, HasFilter, IndexPairs, MetaPairs, EncodeFooter, DecodeFooter, Layout.Sound, ReadBlock,
         Blocks.Describes, FilterBlocks.BlockOf, FilterBlocks.Flat, FilterBlocks.Made;
    table := null;
    ghost var good := IsTable(crc, file, name, p) && |file| < WORD;
    if |file| < FOOTER {
      return;
    }
    if good {
      HandleInFile(crc, file, p.metaindex, MetaPairs(name, p.FilterHandle()));
      HandleInFile(crc, file, p.index, IndexPairs(p.t.index, p.t.handles));
      FooterRead(p.metaindex, p.index);
      ghost var points := BlockRead(crc, verify, file, p.index, IndexPairs(p.t.index, p.t.handles));
    }
    var footer := DecodeFooter(file[|file| - FOOTER..]);
    if footer.None? {
      return;
    }
    var contents := ReadBlock(crc, verify, file, footer.value.1);
    if contents.None? {
      return;
    }
    var filter := null;
    if policy.Some? {
      filter := ReadMeta(crc, verify, policy.value, name, file, footer.value.0, p);
    }
    table := new Table(crc, verify, file, contents.value, filter);
  }

  method ReadMeta(crc: Checksum, verify: bool, policy: FilterBlocks.Policy, name: seq<Byte>, file: seq<Byte>,
                  h: Handle, ghost p: Parts)
      returns (filter: FilterBlocks.FilterBlockReader?)
    requires p.filter.Some? ==> p.filter.value.policy == policy
    ensures IsTable(crc, file, name, p) && |file| < WORD && h == p.metaindex ==>
              && (filter != null <==> p.filter.Some?)
              && (filter != null ==> filter.Valid() && filter.policy == policy && filter.Reads(p.filter.value.lists))
  {
    hide HasBlock, HoldsBlocks, Stored, IndexPairs, EncodeFooter, Layout.Sound, ReadBlock, Blocks.Describes,
         Blocks.Ascend, EncodeHandle, DecodeHandle, FilterBlocks.BlockOf, FilterBlocks.Flat, FilterBlocks.Made, Covers;
    filter := null;
    ghost var good := IsTable(crc, file, name, p) && |file| < WORD && h == p.metaindex;
    ghost var pairs, points := MetaPairs(name, p.FilterHandle()), [];
    var key := FILTER_PREFIX + name;
    if good {
      points := BlockRead(crc, verify, file, h, pairs);
      OneAscends(pairs, key);
    }
    var contents := ReadBlock(crc, verify, file, h);
    if contents.None? {
      return;
    }
    var at, i := SeekBlock(ByteOrder(), contents.value, key, pairs, points);
    if good && p.filter.Some? {
      assert pairs[0].key == key;
      assert i == 0;
    }
    if at.Some? && at.value.key == key {
      if good {
        FilterBack(crc, verify, file, p.t, p.filter.value);
      }
      var handle := DecodeHandle(at.value.value);
      if handle.Some? {
        var block := ReadBlock(crc, verify, file, handle.value.0);
        if block.Some? {
          filter := new FilterBlocks.FilterBlockReader(policy, block.value);
        }
      }
    }
  }

  function ByteOrder(): Blocks.Comparator {
    (a, b) => Less(a, b)
  }

  lemma OneAscends(pairs: seq<Blocks.Pair>, key: seq<Byte>)
    requires |pairs| <= 1
    ensures Blocks.Ascend(ByteOrder(), pairs) && !ByteOrder()(key, key)
  {
    hide Less;
    UserKeysOrdered();
  }

  // The filter block is where the metaindex says.
  lemma FilterBack(crc: Checksum, verify: bool, file: seq<Byte>, t: Layout, f: FilterPart)
    requires HasFilter(crc, file, t, f) && |file| < WORD
    ensures DecodeHandle(EncodeHandle(f.handle)) == Some((f.handle, []))
    ensures ReadBlock(crc, verify, file, f.handle) == Some(FilterBlocks.BlockOf(f.policy, f.lists))
    ensures |FilterBlocks.BlockOf(f.policy, f.lists)| < WORD
  {
    hide EncodeHandle, DecodeHandle, Sealed, Covers, FilterBlocks.BlockOf, ReadBlock;
    StoredIsRead(crc, verify, file, f.handle, FilterBlocks.BlockOf(f.policy, f.lists));
    HandleRead(f.handle, []);
    assert EncodeHandle(f.handle) + [] == EncodeHandle(f.handle);
  }

  // A table written entry by entry.
  method WriteTable(crc: Checksum, blockSize: nat, interval: nat, policy: Option<FilterBlocks.Policy>, name: seq<Byte>,
                    entries: seq<Entry>)
      returns (file: seq<Byte>, ghost parts: Parts)
    requires interval >= 1 && SortedEntries(entries)
    ensures parts.t.entries == entries && IsTable(crc, file, name, parts)
    ensures parts.filter.Some? <==> policy.Some?
    ensures policy.Some? ==> parts.filter.value.policy == policy.value
  {
    hide Before, CutSoFar, MoreBehind, IsTable, FilterBlocks.Flat, FilterBlocks.Starts, FilterBlocks.Made,
         FilterBlocks.Recorded, Blocks.Data, Blocks.Offsets, Blocks.Spaced, HoldsBlocks, KeysAdded, PairsOf,
         IndexPairs, CurrentOf;
    var filterBlock := null;
    if policy.Some? {
      filterBlock := new FilterBlocks.FilterBlockBuilder(policy.value);
    }
    var builder := new TableBuilder(crc, blockSize, interval, filterBlock);
    for i := 0 to |entries|
      invariant builder.Valid() && MoreBehind(builder.t) && builder.t.entries == entries[..i]
      invariant fresh(builder) && fresh(builder.dataBlock) && fresh(builder.indexBlock)
      invariant builder.filterBlock == filterBlock && builder.crc == crc
      invariant filterBlock != null ==> fresh(filterBlock) && filterBlock.policy == policy.value
    {
      builder.Add(entries[i].key, entries[i].value);
      assert entries[..i + 1] == entries[..i] + [entries[i]];
    }
    assert entries[..|entries|] == entries;
    parts := builder.Finish(name);
    file := builder.file;
  }

  // A table written and looked up: whatever the block size, the restart interval
  // and the hash function, and with or without a filter, a lookup in the bytes
  // gives the newest visible entry, or there is none.
  method WriteAndGet(crc: Checksum, blockSize: nat, interval: nat, filtered: bool, hash: Bloom.Hash, bitsPerKey: nat,
                     probes: Byte,
                     name: seq<Byte>, verify: bool, entries: seq<Entry>, u: UserKey, s: nat)
      returns (file: seq<Byte>, r: Option<Entry>)
    requires interval >= 1 && 1 <= probes <= 30
    requires SortedEntries(entries) && s <= MAX_SEQUENCE && forall e :: e in entries ==> e.key.sequence <= MAX_SEQUENCE
    ensures |file| < WORD ==> Settles(Elements(entries), u, s, r)
  {
    hide Before, Settles, Elements, IsTable, SortedEntries, FilterBlocks.BloomPolicy, FilterBlocks.InternalPolicy,
         FilterBlocks.Policy.Honest, IsBlock;
    FilterBlocks.BloomIsHonest(hash, bitsPerKey, probes);
    var user := FilterBlocks.BloomPolicy(hash, bitsPerKey, probes);
    var policy := if filtered then Some(FilterBlocks.InternalPolicy(user)) else None;
    ghost var parts;
    file, parts := WriteTable(crc, blockSize, interval, policy, name, entries);
    var table := Open(crc, verify, policy, name, file, parts);
    r := None;
    if table != null && |file| < WORD {
      r := table.InternalGet(u, s, name, parts, user);
    }
  }
}
