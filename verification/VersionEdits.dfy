// Version edits as the records of a manifest (db/version_edit.cc,
// db/version_edit.h).
module VersionEdits {
  import opened Keys
  import opened Coding
  import opened Lsm
  import opened Options

  const DWORD: nat := 0x1_0000_0000_0000_0000

  // What an edit says of a file. The keys are encoded internal keys.
  datatype Meta = Meta(number: nat, size: nat, smallest: seq<Byte>, largest: seq<Byte>)

  datatype Fields = Fields(
    comparator: Option<seq<Byte>>,
    logNumber: Option<nat>,
    prevLogNumber: Option<nat>,
    nextFileNumber: Option<nat>,
    lastSequence: Option<nat>,
    compactPointers: seq<(nat, seq<Byte>)>,
    deletedFiles: seq<(nat, nat)>,          // a set, in order
    newFiles: seq<(nat, Meta)>)

  // One tagged part of a record.
  datatype Item =
    | Comparator(name: seq<Byte>)
    | LogNumber(n: nat)
    | NextFileNumber(n: nat)
    | LastSequence(n: nat)
    | CompactPointer(level: nat, key: seq<Byte>)
    | DeletedFile(level: nat, n: nat)
    | NewFile(level: nat, meta: Meta)
    | PrevLogNumber(n: nat)

  datatype Fault =
    | BadComparator | BadLogNumber | BadPrevLogNumber | BadNextFileNumber | BadLastSequence
    | BadCompactPointer | BadDeletedFile | BadNewFile | UnknownTag | InvalidTag

  predicate KeyFits(key: seq<Byte>) {
    0 < |key| < WORD
  }

  predicate ItemFits(item: Item) {
    match item
    case Comparator(name) => |name| < WORD
    case CompactPointer(level, key) => level < NUM_LEVELS && KeyFits(key)
    case DeletedFile(level, n) => level < NUM_LEVELS && n < DWORD
    case NewFile(level, m) =>
      level < NUM_LEVELS && m.number < DWORD && m.size < DWORD && KeyFits(m.smallest) && KeyFits(m.largest)
    case _ => item.n < DWORD
  }

  function Tag(item: Item): nat {
    match item
    case Comparator(_) => 1
    case LogNumber(_) => 2
    case NextFileNumber(_) => 3
    case LastSequence(_) => 4
    case CompactPointer(_, _) => 5
    case DeletedFile(_, _) => 6
    case NewFile(_, _) => 7
    case PrevLogNumber(_) => 9
  }

  function Body(item: Item): seq<Byte> {
    match item
    case Comparator(name) => Prefixed(name)
    case CompactPointer(level, key) => Varint(level) + Prefixed(key)
    case DeletedFile(level, n) => Varint(level) + Varint(n)
    case NewFile(level, m) =>
      Varint(level) + Varint(m.number) + Varint(m.size) + Prefixed(m.smallest) + Prefixed(m.largest)
    case _ => Varint(item.n)
  }

  function EncodeItem(item: Item): seq<Byte> {
    Varint(Tag(item)) + Body(item)
  }

  function EncodeItems(items: seq<Item>): seq<Byte> {
    if items == [] then [] else EncodeItems(items[..|items| - 1]) + EncodeItem(items[|items| - 1])
  }

  // ---- Reading ----

  // An internal key is never empty.
  function GetInternalKey(input: seq<Byte>): (r: Option<(seq<Byte>, seq<Byte>)>)
    ensures r.Some? ==> |r.value.1| < |input|
  {
    var r := GetPrefixed(input);
    if r.Some? && r.value.0 != [] then r else None
  }

  function GetLevel(input: seq<Byte>): (r: Option<(nat, seq<Byte>)>)
    ensures r.Some? ==> r.value.0 < NUM_LEVELS && |r.value.1| < |input|
  {
    GetVarintShrinks(input, 5);
    var r := GetVarint32(input);
    if r.Some? && r.value.0 < NUM_LEVELS then r else None
  }

  function GetNumber(input: seq<Byte>): (r: Option<(nat, seq<Byte>)>)
    ensures r.Some? ==> r.value.0 < DWORD && |r.value.1| < |input|
  {
    GetVarintShrinks(input, 10);
    GetVarint64(input)
  }

  datatype Got = Got(item: Item, rest: seq<Byte>) | Bad(fault: Fault)

  function GetNewFile(input: seq<Byte>): (r: Option<(Item, seq<Byte>)>)
    ensures r.Some? ==> |r.value.1| < |input|
  {
    var level := GetLevel(input);
    if level.None? then None else
    var number := GetNumber(level.value.1);
    if number.None? then None else
    var size := GetNumber(number.value.1);
    if size.None? then None else
    var smallest := GetInternalKey(size.value.1);
    if smallest.None? then None else
    var largest := GetInternalKey(smallest.value.1);
    if largest.None? then None else
    var meta := Meta(number.value.0, size.value.0, smallest.value.0, largest.value.0);
    Some((NewFile(level.value.0, meta), largest.value.1))
  }

  // What stands behind a tag.
  function GetItem(tag: nat, input: seq<Byte>): (r: Got)
    ensures r.Got? ==> |r.rest| < |input|
  {
    if tag == 1 then
      var r := GetPrefixed(input);
      if r.None? then Bad(BadComparator) else Got(Comparator(r.value.0), r.value.1)
    else if tag == 2 then
      var r := GetNumber(input);
      if r.None? then Bad(BadLogNumber) else Got(LogNumber(r.value.0), r.value.1)
    else if tag == 9 then
      var r := GetNumber(input);
      if r.None? then Bad(BadPrevLogNumber) else Got(PrevLogNumber(r.value.0), r.value.1)
    else if tag == 3 then
      var r := GetNumber(input);
      if r.None? then Bad(BadNextFileNumber) else Got(NextFileNumber(r.value.0), r.value.1)
    else if tag == 4 then
      var r := GetNumber(input);
      if r.None? then Bad(BadLastSequence) else Got(LastSequence(r.value.0), r.value.1)
    else if tag == 5 then
      var level := GetLevel(input);
      if level.None? then Bad(BadCompactPointer) else
      var key := GetInternalKey(level.value.1);
      if key.None? then Bad(BadCompactPointer) else Got(CompactPointer(level.value.0, key.value.0), key.value.1)
    else if tag == 6 then
      var level := GetLevel(input);
      if level.None? then Bad(BadDeletedFile) else
      var number := GetNumber(level.value.1);
      if number.None? then Bad(BadDeletedFile) else Got(DeletedFile(level.value.0, number.value.0), number.value.1)
    else if tag == 7 then
      var r := GetNewFile(input);
      if r.None? then Bad(BadNewFile) else Got(r.value.0, r.value.1)
    else Bad(UnknownTag)
  }

  // The parts before the first fault.
  datatype Parsed = Parsed(items: seq<Item>, fault: Option<Fault>)

  function Parse(input: seq<Byte>): Parsed
    decreases |input|
  {
    GetVarintShrinks(input, 5);
    var tag := GetVarint32(input);
    if tag.None? then Parsed([], if input == [] then None else Some(InvalidTag))
    else
      var got := GetItem(tag.value.0, tag.value.1);
      if got.Bad? then Parsed([], Some(got.fault))
      else
        var others := Parse(got.rest);
        Parsed([got.item] + others.items, others.fault)
  }

  // ---- Round trip of the parts ----

  lemma NumberRead(n: nat, rest: seq<Byte>)
    requires n < DWORD
    ensures GetNumber(Varint(n) + rest) == Some((n, rest))
  {
    hide Varint;
    Varint64RoundTrip(n, rest);
  }

  lemma LevelRead(l: nat, rest: seq<Byte>)
    requires l < NUM_LEVELS
    ensures GetLevel(Varint(l) + rest) == Some((l, rest))
  {
    hide Varint;
    Varint32RoundTrip(l, rest);
  }

  lemma KeyRead(key: seq<Byte>, rest: seq<Byte>)
    requires KeyFits(key)
    ensures GetInternalKey(Prefixed(key) + rest) == Some((key, rest))
  {
    hide Varint, Prefixed;
    PrefixedRoundTrip(key, rest);
  }

  lemma NewFileRead(level: nat, m: Meta, rest: seq<Byte>)
    requires ItemFits(NewFile(level, m))
    ensures GetNewFile(Varint(level) + Varint(m.number) + Varint(m.size) + Prefixed(m.smallest) +
                       Prefixed(m.largest) + rest)
            == Some((NewFile(level, m), rest))
  {
    hide Varint, Prefixed, GetLevel, GetNumber, GetInternalKey;
    var fromLargest := Prefixed(m.largest) + rest;
    var fromSmallest := Prefixed(m.smallest) + fromLargest;
    var fromSize := Varint(m.size) + fromSmallest;
    var fromNumber := Varint(m.number) + fromSize;
    assert Varint(level) + Varint(m.number) + Varint(m.size) + Prefixed(m.smallest) + Prefixed(m.largest) + rest
        == Varint(level) + fromNumber;
    LevelRead(level, fromNumber);
    NumberRead(m.number, fromSize);
    NumberRead(m.size, fromSmallest);
    KeyRead(m.smallest, fromLargest);
    KeyRead(m.largest, rest);
  }

  lemma ItemRead(item: Item, rest: seq<Byte>)
    requires ItemFits(item)
    ensures GetItem(Tag(item), Body(item) + rest) == Got(item, rest)
  {
    hide Varint, Prefixed, GetLevel, GetNumber, GetInternalKey, GetPrefixed, GetNewFile;
    match item {
      case Comparator(name) =>
        PrefixedRoundTrip(name, rest);
      case CompactPointer(level, key) =>
        assert Body(item) + rest == Varint(level) + (Prefixed(key) + rest);
        LevelRead(level, Prefixed(key) + rest);
        KeyRead(key, rest);
      case DeletedFile(level, n) =>
        assert Body(item) + rest == Varint(level) + (Varint(n) + rest);
        LevelRead(level, Varint(n) + rest);
        NumberRead(n, rest);
      case NewFile(level, m) =>
        NewFileRead(level, m, rest);
      case _ =>
        NumberRead(item.n, rest);
    }
  }

  lemma {:induction false} ItemsFront(item: Item, items: seq<Item>)
    ensures EncodeItems([item] + items) == EncodeItem(item) + EncodeItems(items)
  {
    hide EncodeItem;
    var all := [item] + items;
    if items == [] {
      assert all[..0] == [];
    } else {
      assert all[..|all| - 1] == [item] + items[..|items| - 1];
      ItemsFront(item, items[..|items| - 1]);
    }
  }

  lemma {:induction false} ItemsJoined(a: seq<Item>, b: seq<Item>)
    ensures EncodeItems(a + b) == EncodeItems(a) + EncodeItems(b)
  {
    hide EncodeItem;
    if b == [] {
      assert a + b == a;
    } else {
      assert (a + b)[..|a + b| - 1] == a + b[..|b| - 1];
      ItemsJoined(a, b[..|b| - 1]);
    }
  }

  lemma {:induction false} ItemsRead(items: seq<Item>)
    requires forall i :: 0 <= i < |items| ==> ItemFits(items[i])
    ensures Parse(EncodeItems(items)) == Parsed(items, None)
  {
    hide Varint, GetItem, ItemFits, Body;
    if items != [] {
      assert items == [items[0]] + items[1..];
      ItemsFront(items[0], items[1..]);
      var more := EncodeItems(items[1..]);
      assert EncodeItems(items) == Varint(Tag(items[0])) + (Body(items[0]) + more);
      ItemRead(items[0], more);
      Varint32RoundTrip(Tag(items[0]), Body(items[0]) + more);
      ItemsRead(items[1..]);
    }
  }

  // ---- What the parts do to an edit ----

  predicate Earlier(a: (nat, nat), b: (nat, nat)) {
    a.0 < b.0 || (a.0 == b.0 && a.1 < b.1)
  }

  predicate FilesInOrder(files: seq<(nat, nat)>) {
    forall i, j :: 0 <= i < j < |files| ==> Earlier(files[i], files[j])
  }

  // Adding to the ordered set.
  function Inserted(files: seq<(nat, nat)>, f: (nat, nat)): (r: seq<(nat, nat)>)
    ensures forall g :: g in r <==> g in files || g == f
    ensures FilesInOrder(files) ==> FilesInOrder(r)
  {
    if files == [] then [f]
    else if Earlier(f, files[0]) then [f] + files
    else if f == files[0] then files
    else
      assert files == [files[0]] + files[1..];
      var rest := Inserted(files[1..], f);
      assert FilesInOrder(files) ==> FilesInOrder(rest) && forall g :: g in rest ==> Earlier(files[0], g);
      [files[0]] + rest
  }

  lemma {:induction false} InsertedLast(files: seq<(nat, nat)>, f: (nat, nat))
    requires forall g :: g in files ==> Earlier(g, f)
    ensures Inserted(files, f) == files + [f]
  {
    if files != [] {
      assert files[0] in files && forall g :: g in files[1..] ==> g in files;
      InsertedLast(files[1..], f);
      assert files == [files[0]] + files[1..];
    }
  }

  function Set(f: Fields, item: Item): Fields {
    match item
    case Comparator(name) => f.(comparator := Some(name))
    case LogNumber(n) => f.(logNumber := Some(n))
    case PrevLogNumber(n) => f.(prevLogNumber := Some(n))
    case NextFileNumber(n) => f.(nextFileNumber := Some(n))
    case LastSequence(n) => f.(lastSequence := Some(n))
    case CompactPointer(level, key) => f.(compactPointers := f.compactPointers + [(level, key)])
    case DeletedFile(level, n) => f.(deletedFiles := Inserted(f.deletedFiles, (level, n)))
    case NewFile(level, meta) => f.(newFiles := f.newFiles + [(level, meta)])
  }

  function SetAll(f: Fields, items: seq<Item>): Fields {
    if items == [] then f else Set(SetAll(f, items[..|items| - 1]), items[|items| - 1])
  }

  lemma {:induction false} SetJoined(f: Fields, a: seq<Item>, b: seq<Item>)
    ensures SetAll(f, a + b) == SetAll(SetAll(f, a), b)
  {
    hide Set;
    if b == [] {
      assert a + b == a;
    } else {
      assert (a + b)[..|a + b| - 1] == a + b[..|b| - 1];
      SetJoined(f, a, b[..|b| - 1]);
    }
  }

  // Clear leaves the compaction pointers.
  function Cleared(pointers: seq<(nat, seq<Byte>)>): Fields {
    Fields(None, None, None, None, None, pointers, [], [])
  }

  // The parts in the order in which they are written.
  function NamePart(f: Fields): seq<Item> {
    if f.comparator.None? then [] else [Comparator(f.comparator.value)]
  }

  function LogPart(f: Fields): seq<Item> {
    if f.logNumber.None? then [] else [LogNumber(f.logNumber.value)]
  }

  function PrevLogPart(f: Fields): seq<Item> {
    if f.prevLogNumber.None? then [] else [PrevLogNumber(f.prevLogNumber.value)]
  }

  function NextFilePart(f: Fields): seq<Item> {
    if f.nextFileNumber.None? then [] else [NextFileNumber(f.nextFileNumber.value)]
  }

  function SequencePart(f: Fields): seq<Item> {
    if f.lastSequence.None? then [] else [LastSequence(f.lastSequence.value)]
  }

  function Heads(f: Fields): seq<Item> {
    NamePart(f) + LogPart(f) + PrevLogPart(f) + NextFilePart(f) + SequencePart(f)
  }

  function Pointers(ps: seq<(nat, seq<Byte>)>): seq<Item> {
    seq(|ps|, i requires 0 <= i < |ps| => CompactPointer(ps[i].0, ps[i].1))
  }

  function Deleted(ds: seq<(nat, nat)>): seq<Item> {
    seq(|ds|, i requires 0 <= i < |ds| => DeletedFile(ds[i].0, ds[i].1))
  }

  function New(ns: seq<(nat, Meta)>): seq<Item> {
    seq(|ns|, i requires 0 <= i < |ns| => NewFile(ns[i].0, ns[i].1))
  }

  function Items(f: Fields): seq<Item> {
    Heads(f) + Pointers(f.compactPointers) + Deleted(f.deletedFiles) + New(f.newFiles)
  }

  predicate Fits(f: Fields) {
    && FilesInOrder(f.deletedFiles)
    && forall i :: 0 <= i < |Items(f)| ==> ItemFits(Items(f)[i])
  }

  lemma HeadsSet(f: Fields, pointers: seq<(nat, seq<Byte>)>)
    ensures SetAll(Cleared(pointers), Heads(f)) == f.(compactPointers := pointers, deletedFiles := [], newFiles := [])
  {
    hide SetAll, Set, NamePart, LogPart, PrevLogPart, NextFilePart, SequencePart;
    var a, b, c, d, e := NamePart(f), LogPart(f), PrevLogPart(f), NextFilePart(f), SequencePart(f);
    var f0 := Cleared(pointers);
    SetJoined(f0, a + b + c + d, e);
    SetJoined(f0, a + b + c, d);
    SetJoined(f0, a + b, c);
    SetJoined(f0, a, b);
    PartsSet(f0, f);
    PartsSet(SetAll(f0, a), f);
    PartsSet(SetAll(f0, a + b), f);
    PartsSet(SetAll(f0, a + b + c), f);
    PartsSet(SetAll(f0, a + b + c + d), f);
  }

  function Either<T>(a: Option<T>, b: Option<T>): Option<T> {
    if a.Some? then a else b
  }

  lemma PartsSet(g: Fields, f: Fields)
    ensures SetAll(g, NamePart(f)) == g.(comparator := Either(f.comparator, g.comparator))
    ensures SetAll(g, LogPart(f)) == g.(logNumber := Either(f.logNumber, g.logNumber))
    ensures SetAll(g, PrevLogPart(f)) == g.(prevLogNumber := Either(f.prevLogNumber, g.prevLogNumber))
    ensures SetAll(g, NextFilePart(f)) == g.(nextFileNumber := Either(f.nextFileNumber, g.nextFileNumber))
    ensures SetAll(g, SequencePart(f)) == g.(lastSequence := Either(f.lastSequence, g.lastSequence))
  {
    hide SetAll;
    AtMostOne(g, NamePart(f));
    AtMostOne(g, LogPart(f));
    AtMostOne(g, PrevLogPart(f));
    AtMostOne(g, NextFilePart(f));
    AtMostOne(g, SequencePart(f));
  }

  lemma AtMostOne(f: Fields, items: seq<Item>)
    requires |items| <= 1
    ensures SetAll(f, items) == if items == [] then f else Set(f, items[0])
  {
    if items != [] {
      assert items[..0] == [];
    }
  }

  lemma {:induction false} PointersSet(f: Fields, ps: seq<(nat, seq<Byte>)>)
    ensures SetAll(f, Pointers(ps)) == f.(compactPointers := f.compactPointers + ps)
  {
    if ps == [] {
      assert f.compactPointers + ps == f.compactPointers;
    } else {
      var n := |ps| - 1;
      assert Pointers(ps)[..n] == Pointers(ps[..n]);
      PointersSet(f, ps[..n]);
      assert ps == ps[..n] + [ps[n]];
    }
  }

  lemma {:induction false} DeletedSet(f: Fields, ds: seq<(nat, nat)>)
    requires FilesInOrder(ds) && f.deletedFiles == []
    ensures SetAll(f, Deleted(ds)) == f.(deletedFiles := ds)
  {
    hide Inserted;
    if ds != [] {
      var n := |ds| - 1;
      assert Deleted(ds)[..n] == Deleted(ds[..n]);
      DeletedSet(f, ds[..n]);
      InsertedLast(ds[..n], ds[n]);
      assert ds == ds[..n] + [ds[n]];
    }
  }

  lemma {:induction false} NewSet(f: Fields, ns: seq<(nat, Meta)>)
    ensures SetAll(f, New(ns)) == f.(newFiles := f.newFiles + ns)
  {
    if ns == [] {
      assert f.newFiles + ns == f.newFiles;
    } else {
      var n := |ns| - 1;
      assert New(ns)[..n] == New(ns[..n]);
      NewSet(f, ns[..n]);
      assert ns == ns[..n] + [ns[n]];
    }
  }

  lemma AllSet(f: Fields, pointers: seq<(nat, seq<Byte>)>)
    requires FilesInOrder(f.deletedFiles)
    ensures SetAll(Cleared(pointers), Items(f)) == f.(compactPointers := pointers + f.compactPointers)
  {
    hide SetAll, Heads, Pointers, Deleted, New, FilesInOrder;
    var f0 := Cleared(pointers);
    var h, p, d, n := Heads(f), Pointers(f.compactPointers), Deleted(f.deletedFiles), New(f.newFiles);
    SetJoined(f0, h + p + d, n);
    SetJoined(f0, h + p, d);
    SetJoined(f0, h, p);
    HeadsSet(f, pointers);
    PointersSet(SetAll(f0, h), f.compactPointers);
    DeletedSet(SetAll(f0, h + p), f.deletedFiles);
    NewSet(SetAll(f0, h + p + d), f.newFiles);
  }

  // Reading back what was written gives the edit, behind the compaction
  // pointers that the edit read into had already.
  lemma EditReadBack(f: Fields, pointers: seq<(nat, seq<Byte>)>)
    requires Fits(f)
    ensures Parse(EncodeItems(Items(f))).fault == None
    ensures SetAll(Cleared(pointers), Parse(EncodeItems(Items(f))).items) ==
            f.(compactPointers := pointers + f.compactPointers)
  {
    hide SetAll, Items, Parse, EncodeItems, ItemFits, FilesInOrder;
    ItemsRead(Items(f));
    AllSet(f, pointers);
  }

  class VersionEdit {
    var comparator: Option<seq<Byte>>
    var logNumber: Option<nat>
    var prevLogNumber: Option<nat>
    var nextFileNumber: Option<nat>
    var lastSequence: Option<nat>
    var compactPointers: seq<(nat, seq<Byte>)>
    var deletedFiles: seq<(nat, nat)>
    var newFiles: seq<(nat, Meta)>

    function Contents(): Fields
      reads this
    {
      Fields(comparator, logNumber, prevLogNumber, nextFileNumber, lastSequence, compactPointers, deletedFiles,
             newFiles)
    }

    constructor ()
      ensures Contents() == Cleared([])
    {
      comparator, logNumber, prevLogNumber, nextFileNumber, lastSequence := None, None, None, None, None;
      compactPointers, deletedFiles, newFiles := [], [], [];
    }

    method Clear()
      modifies this
      ensures Contents() == Cleared(old(compactPointers))
    {
      comparator, logNumber, prevLogNumber, nextFileNumber, lastSequence := None, None, None, None, None;
      deletedFiles, newFiles := [], [];
    }

    method EncodeTo(dst: seq<Byte>) returns (r: seq<Byte>)
      ensures r == dst + EncodeItems(Items(Contents()))
    {
      hide EncodeItems, Heads, Pointers, Deleted, New, Varint, Prefixed;
      r := EncodeHeads(dst);
      ghost var done := Heads(Contents());
      NoParts();
      assert compactPointers[..0] == [] && deletedFiles[..0] == [] && newFiles[..0] == [];
      for i := 0 to |compactPointers|
        invariant r == dst + EncodeItems(done) && done == Heads(Contents()) + Pointers(compactPointers[..i])
      {
        r := r + Varint(5);
        r := r + Varint(compactPointers[i].0);
        r := r + Prefixed(compactPointers[i].1);
        OnePointer(compactPointers, i);
        done := Wrote(done, CompactPointer(compactPointers[i].0, compactPointers[i].1));
      }
      assert compactPointers[..|compactPointers|] == compactPointers;
      ghost var before := done;
      for i := 0 to |deletedFiles|
        invariant r == dst + EncodeItems(done) && done == before + Deleted(deletedFiles[..i])
      {
        r := r + Varint(6);
        r := r + Varint(deletedFiles[i].0);
        r := r + Varint(deletedFiles[i].1);
        OneDeleted(deletedFiles, i);
        done := Wrote(done, DeletedFile(deletedFiles[i].0, deletedFiles[i].1));
      }
      assert deletedFiles[..|deletedFiles|] == deletedFiles;
      before := done;
      for i := 0 to |newFiles|
        invariant r == dst + EncodeItems(done) && done == before + New(newFiles[..i])
      {
        var meta := newFiles[i].1;
        r := r + Varint(7);
        r := r + Varint(newFiles[i].0);
        r := r + Varint(meta.number);
        r := r + Varint(meta.size);
        r := r + Prefixed(meta.smallest);
        r := r + Prefixed(meta.largest);
        OneNew(newFiles, i);
        done := Wrote(done, NewFile(newFiles[i].0, meta));
      }
      assert newFiles[..|newFiles|] == newFiles;
    }

    method EncodeHeads(dst: seq<Byte>) returns (r: seq<Byte>)
      ensures r == dst + EncodeItems(Heads(Contents()))
    {
      hide Tagged, EncodeItems, Heads, Named;
      r := PutName(dst);
      r := PutNumber(r, 2, logNumber);
      r := PutNumber(r, 9, prevLogNumber);
      r := PutNumber(r, 3, nextFileNumber);
      r := PutNumber(r, 4, lastSequence);
      Regroup(dst, Named(comparator), Tagged(2, logNumber), Tagged(9, prevLogNumber), Tagged(3, nextFileNumber),
        Tagged(4, lastSequence));
      HeadsWritten(Contents());
    }

    method PutName(dst: seq<Byte>) returns (r: seq<Byte>)
      ensures r == dst + Named(comparator)
    {
      hide Varint, Prefixed;
      r := dst;
      if comparator.Some? {
        r := r + Varint(1);
        r := r + Prefixed(comparator.value);
      }
    }

    // The parts before the first fault take effect.
    method DecodeFrom(src: seq<Byte>) returns (fault: Option<Fault>)
      modifies this
      ensures fault == Parse(src).fault
      ensures Contents() == SetAll(Cleared(old(compactPointers)), Parse(src).items)
    {
      hide GetItem, Inserted, SetAll;
      Clear();
      fault := None;
      var input := src;
      ghost var seen: seq<Item> := [];
      ghost var f0 := Cleared(compactPointers);
      NoneSet(f0);
      while true
        invariant Parse(src) == Parsed(seen + Parse(input).items, Parse(input).fault)
        invariant Contents() == SetAll(f0, seen)
        decreases |input|
      {
        var tag := GetVarint32(input);
        if tag.None? {
          break;
        }
        GetVarintShrinks(input, 5);
        var got := GetItem(tag.value.0, tag.value.1);
        if got.Bad? {
          fault := Some(got.fault);
          assert seen + [] == seen;
          return;
        }
        OneMoreSet(f0, seen, got.item);
        match got.item {
          case Comparator(name) => comparator := Some(name);
          case LogNumber(n) => logNumber := Some(n);
          case PrevLogNumber(n) => prevLogNumber := Some(n);
          case NextFileNumber(n) => nextFileNumber := Some(n);
          case LastSequence(n) => lastSequence := Some(n);
          case CompactPointer(level, key) => compactPointers := compactPointers + [(level, key)];
          case DeletedFile(level, n) => deletedFiles := Inserted(deletedFiles, (level, n));
          case NewFile(level, meta) => newFiles := newFiles + [(level, meta)];
        }
        assert Parse(input) == Parsed([got.item] + Parse(got.rest).items, Parse(got.rest).fault);
        seen := seen + [got.item];
        input := got.rest;
      }
      assert seen + [] == seen;
      if input != [] {
        fault := Some(InvalidTag);
      }
    }
  }

  // The parts written so far and one more.
  ghost function Wrote(done: seq<Item>, item: Item): (all: seq<Item>)
    ensures all == done + [item] && EncodeItems(all) == EncodeItems(done) + EncodeItem(item)
  {
    assert (done + [item])[..|done|] == done;
    done + [item]
  }

  function Named(name: Option<seq<Byte>>): seq<Byte> {
    if name.None? then [] else Varint(1) + Prefixed(name.value)
  }

  lemma Regroup<T>(a: seq<T>, b: seq<T>, c: seq<T>, d: seq<T>, e: seq<T>, f: seq<T>)
    ensures a + b + c + d + e + f == a + (b + c + d + e + f)
  {
  }

  // A number that the edit may lack, with its tag.
  function Tagged(tag: nat, v: Option<nat>): seq<Byte> {
    if v.None? then [] else Varint(tag) + Varint(v.value)
  }

  method PutNumber(dst: seq<Byte>, tag: nat, v: Option<nat>) returns (r: seq<Byte>)
    ensures r == dst + Tagged(tag, v)
  {
    r := dst;
    if v.Some? {
      r := r + Varint(tag);
      r := r + Varint(v.value);
    }
  }

  lemma HeadsWritten(f: Fields)
    ensures EncodeItems(Heads(f)) ==
              Named(f.comparator) + Tagged(2, f.logNumber) + Tagged(9, f.prevLogNumber) +
                Tagged(3, f.nextFileNumber) + Tagged(4, f.lastSequence)
  {
    hide EncodeItems, Varint, Prefixed;
    var a, b, c, d, e := NamePart(f), LogPart(f), PrevLogPart(f), NextFilePart(f), SequencePart(f);
    ItemsJoined(a + b + c + d, e);
    ItemsJoined(a + b + c, d);
    ItemsJoined(a + b, c);
    ItemsJoined(a, b);
    OneOrNone(a);
    OneOrNone(b);
    OneOrNone(c);
    OneOrNone(d);
    OneOrNone(e);
  }

  lemma OneOrNone(items: seq<Item>)
    requires |items| <= 1
    ensures EncodeItems(items) == if items == [] then [] else EncodeItem(items[0])
  {
    if items != [] {
      assert items[..0] == [];
    }
  }

  lemma NoParts()
    ensures Pointers([]) == [] && Deleted([]) == [] && New([]) == []
  {
  }

  lemma OnePointer(ps: seq<(nat, seq<Byte>)>, n: nat)
    requires n < |ps|
    ensures Pointers(ps[..n + 1]) == Pointers(ps[..n]) + [CompactPointer(ps[n].0, ps[n].1)]
  {
  }

  lemma OneDeleted(ds: seq<(nat, nat)>, n: nat)
    requires n < |ds|
    ensures Deleted(ds[..n + 1]) == Deleted(ds[..n]) + [DeletedFile(ds[n].0, ds[n].1)]
  {
  }

  lemma OneNew(ns: seq<(nat, Meta)>, n: nat)
    requires n < |ns|
    ensures New(ns[..n + 1]) == New(ns[..n]) + [NewFile(ns[n].0, ns[n].1)]
  {
  }

  lemma NoneSet(f: Fields)
    ensures SetAll(f, []) == f
  {
  }

  lemma OneMoreSet(f: Fields, items: seq<Item>, item: Item)
    ensures SetAll(f, items + [item]) == Set(SetAll(f, items), item)
  {
    assert (items + [item])[..|items|] == items;
  }
}
