// Log files: records cut into fragments that never cross a block
// (db/log_format.h, db/log_writer.cc, db/log_reader.cc).
module Logs {
  import opened Keys
  import opened Coding
  import opened Crc
  import opened Options

  const BLOCK_SIZE := 32768
  const HEADER_SIZE := 7

  const ZERO: Byte := 0
  const FULL: Byte := 1
  const FIRST: Byte := 2
  const MIDDLE: Byte := 3
  const LAST: Byte := 4

  type Checksum = seq<Byte> -> Word

  function TypeOf(begin: bool, end: bool): Byte {
    if begin && end then FULL else if begin then FIRST else if end then LAST else MIDDLE
  }

  // Masked checksum of type and payload, length, type.
  function Header(crc: Checksum, t: Byte, payload: seq<Byte>): (h: seq<Byte>)
    requires |payload| < 0x1_0000
    ensures |h| == HEADER_SIZE
  {
    Fixed(Mask(crc([t] + payload)), 4) + [|payload| % 256, |payload| / 256, t]
  }

  function Zeros(n: nat): (z: seq<Byte>)
    ensures |z| == n
  {
    seq(n, _ => ZERO)
  }

  // What fills up a block with too little room for a header.
  function Padding(offset: nat): nat
    requires offset <= BLOCK_SIZE
  {
    if BLOCK_SIZE - offset < HEADER_SIZE then BLOCK_SIZE - offset else 0
  }

  // Where the next fragment starts in its block.
  function Start(offset: nat): (s: nat)
    requires offset <= BLOCK_SIZE
    ensures s + HEADER_SIZE <= BLOCK_SIZE
  {
    if BLOCK_SIZE - offset < HEADER_SIZE then 0 else offset
  }

  // As much of the data as fits into the block.
  function Fragment(offset: nat, data: seq<Byte>): (n: nat)
    requires offset <= BLOCK_SIZE
    ensures n <= |data| && Start(offset) + HEADER_SIZE + n <= BLOCK_SIZE
  {
    var avail := BLOCK_SIZE - Start(offset) - HEADER_SIZE;
    if |data| < avail then |data| else avail
  }

  // The fragments of the data, from this offset in a block on.
  function Frames(crc: Checksum, offset: nat, data: seq<Byte>, begin: bool): seq<Byte>
    requires offset <= BLOCK_SIZE
    decreases |data|, Fragment(offset, data) == 0
  {
    var n := Fragment(offset, data);
    Zeros(Padding(offset)) + Header(crc, TypeOf(begin, n == |data|), data[..n]) + data[..n] +
    if n == |data| then [] else Frames(crc, Start(offset) + HEADER_SIZE + n, data[n..], false)
  }

  function LogOf(crc: Checksum, records: seq<seq<Byte>>): seq<Byte> {
    if records == [] then []
    else
      var rest := LogOf(crc, records[..|records| - 1]);
      rest + Frames(crc, |rest| % BLOCK_SIZE, records[|records| - 1], true)
  }

  // A full block and an empty one are the same place.
  lemma FullBlock(crc: Checksum, data: seq<Byte>, begin: bool)
    ensures Frames(crc, BLOCK_SIZE, data, begin) == Frames(crc, 0, data, begin)
  {
    hide Frames, Zeros;
    PaddingFirst(crc, BLOCK_SIZE, data, begin);
    assert Zeros(0) == [];
  }

  lemma FramesStart(crc: Checksum, offset: nat, data: seq<Byte>, begin: bool)
    requires offset <= BLOCK_SIZE
    ensures var n := Fragment(offset, data);
            Frames(crc, offset, data, begin) ==
              Zeros(Padding(offset)) + Header(crc, TypeOf(begin, n == |data|), data[..n]) + data[..n] +
              if data[n..] == [] then [] else Frames(crc, Start(offset) + HEADER_SIZE + n, data[n..], false)
  {
    hide Header, Zeros;
  }

  lemma Regroup<T>(a: seq<T>, z: seq<T>, h: seq<T>, p: seq<T>, more: seq<T>)
    ensures a + (z + h + p + more) == a + z + h + p + more
  {
  }

  lemma LogAppend(crc: Checksum, records: seq<seq<Byte>>, data: seq<Byte>)
    ensures LogOf(crc, records + [data]) ==
              LogOf(crc, records) + Frames(crc, |LogOf(crc, records)| % BLOCK_SIZE, data, true)
  {
    assert (records + [data])[..|records|] == records;
  }

  lemma SameRest(a: nat, b: nat, n: nat)
    requires a % BLOCK_SIZE == b % BLOCK_SIZE
    ensures (a + n) % BLOCK_SIZE == (b + n) % BLOCK_SIZE
  {
    var q, r := a / BLOCK_SIZE, b / BLOCK_SIZE;
    assert a + n == (b + n) + (q - r) * BLOCK_SIZE;
  }

  class LogWriter {
    const crc: Checksum
    var dest: seq<Byte>      // the file
    var blockOffset: nat

    ghost predicate Valid()
      reads this
    {
      blockOffset <= BLOCK_SIZE && blockOffset % BLOCK_SIZE == |dest| % BLOCK_SIZE
    }

    // A new file, or one that is appended to.
    constructor (crc: Checksum, dest: seq<Byte>)
      ensures Valid() && this.crc == crc && this.dest == dest
    {
      this.crc, this.dest := crc, dest;
      blockOffset := |dest| % BLOCK_SIZE;
    }

    method AddRecord(slice: seq<Byte>)
      requires Valid()
      modifies this
      ensures Valid()
      ensures dest == old(dest) + Frames(crc, |old(dest)| % BLOCK_SIZE, slice, true)
      ensures forall records :: old(dest) == LogOf(crc, records) ==> dest == LogOf(crc, records + [slice])
    {
      hide Frames, Fragment, LogOf;
      FullBlock(crc, slice, true);
      ghost var all := old(dest) + Frames(crc, blockOffset, slice, true);
      var left := slice;
      var begin := true;
      while true
        invariant Valid()
        invariant dest + Frames(crc, blockOffset, left, begin) == all
        decreases |left|, Fragment(blockOffset, left) == 0
      {
        left := WriteFragment(left, begin);
        begin := false;
        if left == [] {
          break;
        }
      }
      forall records | old(dest) == LogOf(crc, records)
        ensures dest == LogOf(crc, records + [slice])
      {
        LogAppend(crc, records, slice);
      }
    }

    // Pad the block if no header fits, and write what goes into it.
    method WriteFragment(data: seq<Byte>, begin: bool) returns (left: seq<Byte>)
      requires Valid()
      modifies this
      ensures Valid()
      ensures dest + (if left == [] then [] else Frames(crc, blockOffset, left, false)) ==
                old(dest) + Frames(crc, old(blockOffset), data, begin)
      ensures left == [] || |left| < |data| ||
              (|left| == |data| && Fragment(old(blockOffset), data) == 0 && Fragment(blockOffset, left) != 0)
    {
      hide Header, Zeros, Mask;
      ghost var was, offset := dest, blockOffset;
      var leftover := BLOCK_SIZE - blockOffset;
      if leftover < HEADER_SIZE {
        dest := dest + Zeros(leftover);
        blockOffset := 0;
      }
      assert dest == was + Zeros(Padding(offset));
      var avail := BLOCK_SIZE - blockOffset - HEADER_SIZE;
      var n := if |data| < avail then |data| else avail;
      assert n == Fragment(offset, data) && blockOffset == Start(offset);
      EmitPhysicalRecord(TypeOf(begin, |data| == n), data[..n]);
      left := data[n..];
      ghost var more := if left == [] then [] else Frames(crc, blockOffset, left, false);
      FramesStart(crc, offset, data, begin);
      Regroup(was, Zeros(Padding(offset)), Header(crc, TypeOf(begin, n == |data|), data[..n]), data[..n], more);
    }

    method EmitPhysicalRecord(t: Byte, payload: seq<Byte>)
      requires Valid() && blockOffset + HEADER_SIZE + |payload| <= BLOCK_SIZE
      modifies this
      ensures Valid() && blockOffset == old(blockOffset) + HEADER_SIZE + |payload|
      ensures dest == old(dest) + Header(crc, t, payload) + payload
    {
      hide Header;
      SameRest(blockOffset, |dest|, HEADER_SIZE + |payload|);
      dest := dest + Header(crc, t, payload);
      dest := dest + payload;
      blockOffset := blockOffset + HEADER_SIZE + |payload|;
    }
  }

  // ---- Reading: what any bytes mean ----

  // What ReadPhysicalRecord returns: a record with its type, the end of the
  // file, or a bad record.
  datatype Physical = Record(t: Byte, payload: seq<Byte>) | Eof | Bad

  // Where a reader stands, and where the block starts that it has read last.
  datatype Place = Place(pos: nat, block: int)

  const START := Place(0, -BLOCK_SIZE)

  function BlockEnd(size: nat, block: int): int {
    if block + BLOCK_SIZE < size then block + BLOCK_SIZE else size
  }

  predicate InFile(size: nat, p: Place) {
    p.block % BLOCK_SIZE == 0 && p.block <= p.pos <= BlockEnd(size, p.block) && p.pos <= p.block + BLOCK_SIZE
  }

  // What is read, where the reader stands then, and how much corruption it
  // reports.
  datatype Reading = Reading(r: Physical, next: Place, drops: nat)

  function StoredSum(bytes: seq<Byte>): Word
    requires |bytes| == 4
  {
    DecodeFixedBound(bytes);
    Unmask(DecodeFixed(bytes))
  }

  // The fragment that the rest of a block starts with, how many bytes are used up,
  // and how much corruption is reported.
  datatype Parsed = Parsed(r: Physical, used: nat, drops: nat)

  function ParseBuffer(crc: Checksum, buffer: seq<Byte>, eof: bool): (n: Parsed)
    requires |buffer| >= HEADER_SIZE
    ensures 0 < n.used <= |buffer| && (n.r.Eof? ==> eof && n.drops == 0)
  {
    var lo: int, hi: int, kind := buffer[4], buffer[5], buffer[6];
    var length := lo + hi * 256;
    if HEADER_SIZE + length > |buffer| then Parsed(if eof then Eof else Bad, |buffer|, if eof then 0 else 1)
    else if kind == ZERO && length == 0 then Parsed(Bad, |buffer|, 0)
    else
      var body := buffer[HEADER_SIZE..HEADER_SIZE + length];
      if crc([kind] + body) != StoredSum(buffer[..4]) then Parsed(Bad, |buffer|, 1)
      else Parsed(Record(kind, body), HEADER_SIZE + length, 0)
  }

  function Parse(crc: Checksum, file: seq<Byte>, p: Place): (n: Reading)
    requires InFile(|file|, p) && BlockEnd(|file|, p.block) - p.pos >= HEADER_SIZE
    ensures InFile(|file|, n.next) && n.next.block == p.block && n.next.pos > p.pos
    ensures n.r.Eof? ==> BlockEnd(|file|, p.block) < p.block + BLOCK_SIZE && n.drops == 0
  {
    var end := BlockEnd(|file|, p.block);
    var n := ParseBuffer(crc, file[p.pos..end], end < p.block + BLOCK_SIZE);
    Reading(n.r, Place(p.pos + n.used, p.block), n.drops)
  }

  // The next fragment: in this block, or in the next one if no header fits.
  function NextPhysical(crc: Checksum, file: seq<Byte>, p: Place): (n: Reading)
    requires InFile(|file|, p)
    ensures InFile(|file|, n.next) && (n.r.Eof? || n.next.pos > p.pos)
  {
    var end := BlockEnd(|file|, p.block);
    if end - p.pos >= HEADER_SIZE then Parse(crc, file, p)
    else if end < p.block + BLOCK_SIZE then Reading(Eof, Place(end, p.block), 0)
    else
      var q := Place(end, p.block + BLOCK_SIZE);
      if BlockEnd(|file|, q.block) - end >= HEADER_SIZE then Parse(crc, file, q)
      else Reading(Eof, Place(BlockEnd(|file|, q.block), q.block), 0)
  }

  // The record that is being put together.
  datatype Assembly = Assembly(inFragmented: bool, scratch: seq<Byte>)

  datatype Outcome = Go(a: Assembly, drops: nat) | Got(record: seq<Byte>, drops: nat) | Ended

  const NOTHING := Assembly(false, [])

  // What a fragment does to it.
  function Take(a: Assembly, r: Physical): Outcome {
    match r
    case Eof => Ended
    case Bad => if a.inFragmented then Go(NOTHING, 1) else Go(a, 0)
    case Record(t, fragment) =>
      var broken := if a.inFragmented && a.scratch != [] then 1 else 0;
      if t == FULL then Got(fragment, broken)
      else if t == FIRST then Go(Assembly(true, fragment), broken)
      else if t == MIDDLE then if a.inFragmented then Go(Assembly(true, a.scratch + fragment), 0) else Go(a, 1)
      else if t == LAST then if a.inFragmented then Got(a.scratch + fragment, 0) else Go(a, 1)
      else Go(NOTHING, 1)
  }

  datatype Found = Found(record: Option<seq<Byte>>, next: Place, drops: nat)

  function NextRecord(crc: Checksum, file: seq<Byte>, p: Place, a: Assembly): (f: Found)
    requires InFile(|file|, p)
    ensures InFile(|file|, f.next) && (f.record.Some? ==> f.next.pos > p.pos)
    decreases |file| - p.pos
  {
    var n := NextPhysical(crc, file, p);
    match Take(a, n.r)
    case Ended => Found(None, n.next, n.drops)
    case Got(record, drops) => Found(Some(record), n.next, n.drops + drops)
    case Go(b, drops) =>
      var f := NextRecord(crc, file, n.next, b);
      f.(drops := n.drops + drops + f.drops)
  }

  lemma Step(crc: Checksum, file: seq<Byte>, p: Place, a: Assembly)
    requires InFile(|file|, p)
    ensures var n := NextPhysical(crc, file, p);
            && InFile(|file|, n.next) && (!Take(a, n.r).Ended? ==> n.next.pos > p.pos)
            && NextRecord(crc, file, p, a) ==
                 match Take(a, n.r)
                 case Ended => Found(None, n.next, n.drops)
                 case Got(record, drops) => Found(Some(record), n.next, n.drops + drops)
                 case Go(b, drops) =>
                   var f := NextRecord(crc, file, n.next, b);
                   f.(drops := n.drops + drops + f.drops)
  {
    hide NextPhysical;
  }

  // All records that a reader finds from here on.
  function RecordsFrom(crc: Checksum, file: seq<Byte>, p: Place, a: Assembly): seq<seq<Byte>>
    requires InFile(|file|, p)
    decreases |file| - p.pos
  {
    var f := NextRecord(crc, file, p, a);
    if f.record.None? then [] else [f.record.value] + RecordsFrom(crc, file, f.next, NOTHING)
  }

  // The corruptions that it reports.
  function DropsFrom(crc: Checksum, file: seq<Byte>, p: Place): nat
    requires InFile(|file|, p)
    decreases |file| - p.pos
  {
    var f := NextRecord(crc, file, p, NOTHING);
    f.drops + if f.record.None? then 0 else DropsFrom(crc, file, f.next)
  }

  class LogReader {
    const crc: Checksum
    const file: seq<Byte>
    var filePos: nat         // how much of the file has been read
    var buffer: seq<Byte>    // what is left of the last block read
    var eof: bool            // that block was short
    var drops: nat           // corruptions reported
    ghost var block: int     // where that block starts

    ghost predicate Valid()
      reads this
    {
      && |buffer| <= filePos <= |file|
      && buffer == file[filePos - |buffer|..filePos]
      && InFile(|file|, Here()) && filePos == BlockEnd(|file|, block)
      && (eof <==> filePos < block + BLOCK_SIZE)
    }

    ghost function Here(): Place
      requires |buffer| <= filePos
      reads this
    {
      Place(filePos - |buffer|, block)
    }

    // Nothing read yet: as behind a block in front of the file.
    constructor (crc: Checksum, file: seq<Byte>)
      ensures Valid() && this.crc == crc && this.file == file && Here() == START && drops == 0
    {
      this.crc, this.file := crc, file;
      filePos, buffer, eof, drops, block := 0, [], false, 0, -BLOCK_SIZE;
    }

    method ReadBlock()
      requires Valid() && !eof
      modifies this
      ensures Valid() && drops == old(drops) && Here() == Place(old(filePos), old(block) + BLOCK_SIZE)
    {
      buffer := file[filePos..if filePos + BLOCK_SIZE < |file| then filePos + BLOCK_SIZE else |file|];
      block := filePos;
      filePos := filePos + |buffer|;
      if |buffer| < BLOCK_SIZE {
        eof := true;
      }
    }

    // Whatever the bytes are.
    method ReadPhysicalRecord() returns (r: Physical)
      requires Valid()
      modifies this
      ensures Valid() && drops >= old(drops)
      ensures Reading(r, Here(), drops - old(drops)) == NextPhysical(crc, file, old(Here()))
    {
      hide ParseBuffer;
      while |buffer| < HEADER_SIZE
        invariant Valid() && drops == old(drops)
        invariant NextPhysical(crc, file, Here()) == NextPhysical(crc, file, old(Here()))
        decreases |file| - filePos + if eof then 0 else 1
      {
        if eof {
          buffer := [];
          return Eof;
        }
        ReadBlock();
      }
      r := ParseRecord();
    }

    method ParseRecord() returns (r: Physical)
      requires Valid() && |buffer| >= HEADER_SIZE
      modifies this
      ensures Valid() && drops >= old(drops) && filePos == old(filePos) && block == old(block)
      ensures |buffer| <= |old(buffer)|
      ensures Parsed(r, |old(buffer)| - |buffer|, drops - old(drops)) == ParseBuffer(crc, old(buffer), old(eof))
    {
      hide StoredSum;
      var kind, lo: int, hi: int := buffer[6], buffer[4], buffer[5];
      var length := lo + hi * 256;
      if HEADER_SIZE + length > |buffer| {
        buffer := [];
        if eof {
          return Eof;
        }
        drops := drops + 1;  // bad record length
        return Bad;
      }
      if kind == ZERO && length == 0 {
        buffer := [];
        return Bad;
      }
      var body := buffer[HEADER_SIZE..HEADER_SIZE + length];
      if crc([kind] + body) != StoredSum(buffer[..4]) {
        buffer := [];
        drops := drops + 1;  // checksum mismatch
        return Bad;
      }
      buffer := buffer[HEADER_SIZE + length..];
      r := Record(kind, body);
    }

    method ReadRecord() returns (record: Option<seq<Byte>>)
      requires Valid()
      modifies this
      ensures Valid() && drops >= old(drops)
      ensures Found(record, Here(), drops - old(drops)) == NextRecord(crc, file, old(Here()), NOTHING)
    {
      hide NextPhysical, NextRecord, InFile;
      var scratch: seq<Byte> := [];
      var inFragmented := false;
      while true
        invariant Valid() && drops >= old(drops)
        invariant var f := NextRecord(crc, file, Here(), Assembly(inFragmented, scratch));
                  NextRecord(crc, file, old(Here()), NOTHING) == f.(drops := f.drops + drops - old(drops))
        decreases |file| - Here().pos
      {
        Step(crc, file, Here(), Assembly(inFragmented, scratch));
        var r := ReadPhysicalRecord();
        match r
        case Eof => return None;
        case Bad =>
          if inFragmented {
            drops := drops + 1;  // error in middle of record
            inFragmented := false;
            scratch := [];
          }
        case Record(t, fragment) =>
          if t == FULL {
            if inFragmented && scratch != [] {
              drops := drops + 1;  // partial record without end
            }
            return Some(fragment);
          } else if t == FIRST {
            if inFragmented && scratch != [] {
              drops := drops + 1;  // partial record without end
            }
            scratch := fragment;
            inFragmented := true;
          } else if t == MIDDLE {
            if !inFragmented {
              drops := drops + 1;  // missing start of fragmented record
            } else {
              scratch := scratch + fragment;
            }
          } else if t == LAST {
            if !inFragmented {
              drops := drops + 1;  // missing start of fragmented record
            } else {
              return Some(scratch + fragment);
            }
          } else {
            drops := drops + 1;  // unknown record type
            inFragmented := false;
            scratch := [];
          }
      }
    }
  }

  // ---- What was written is read ----

  // The same where they are both defined.
  ghost predicate Agree<T>(a: seq<T>, b: seq<T>) {
    forall i :: 0 <= i < |a| && i < |b| ==> a[i] == b[i]
  }

  // Where the next header is: behind the padding if there is any.
  function HeaderPos(p: Place): nat
    requires 0 <= p.pos - p.block <= BLOCK_SIZE
  {
    p.pos + Padding(p.pos - p.block)
  }

  // The fragments of this data are next, as far as the file goes.  What the
  // padding in front of them holds does not matter.
  ghost predicate Ahead(crc: Checksum, file: seq<Byte>, p: Place, data: seq<Byte>, begin: bool) {
    && InFile(|file|, p)
    && (HeaderPos(p) <= |file| ==> Agree(file[HeaderPos(p)..], Frames(crc, Start(p.pos - p.block), data, begin)))
  }

  // Where they end.
  ghost function EndOf(crc: Checksum, p: Place, data: seq<Byte>, begin: bool): nat
    requires 0 <= p.pos - p.block <= BLOCK_SIZE
  {
    HeaderPos(p) + |Frames(crc, Start(p.pos - p.block), data, begin)|
  }

  // So much of the fragment as the file still has is in the file.
  ghost predicate Holds(crc: Checksum, file: seq<Byte>, at: nat, t: Byte, payload: seq<Byte>)
    requires |payload| < 0x1_0000
  {
    && (at + HEADER_SIZE <= |file| ==> file[at..at + HEADER_SIZE] == Header(crc, t, payload))
    && (at + HEADER_SIZE + |payload| <= |file| ==>
          file[at + HEADER_SIZE..at + HEADER_SIZE + |payload|] == payload)
  }

  lemma HeaderParts(crc: Checksum, t: Byte, payload: seq<Byte>)
    requires |payload| < 0x1_0000
    ensures var h := Header(crc, t, payload);
            var lo: int, hi: int := h[4], h[5];
            && lo + hi * 256 == |payload| && h[6] == t && StoredSum(h[..4]) == crc([t] + payload)
  {
    hide Fixed, DecodeFixed, Mask, Unmask;
    var c := crc([t] + payload);
    assert Header(crc, t, payload)[..4] == Fixed(Mask(c), 4);
    Fixed32RoundTrip(Mask(c));
    UnmaskMask(c);
  }

  // A fragment in the file is parsed; of one that is cut off the end of the file
  // is seen.
  lemma ParseHeld(crc: Checksum, file: seq<Byte>, p: Place, t: Byte, payload: seq<Byte>)
    requires InFile(|file|, p) && BlockEnd(|file|, p.block) - p.pos >= HEADER_SIZE
    requires t != ZERO && p.pos - p.block + HEADER_SIZE + |payload| <= BLOCK_SIZE && Holds(crc, file, p.pos, t, payload)
    ensures var end := p.pos + HEADER_SIZE + |payload|;
            var n := Parse(crc, file, p);
            if end <= |file| then n == Reading(Record(t, payload), Place(end, p.block), 0)
            else n.r == Eof && n.drops == 0
  {
    hide Header, StoredSum;
    HeaderParts(crc, t, payload);
    var buffer := file[p.pos..BlockEnd(|file|, p.block)];
    assert buffer[..HEADER_SIZE] == Header(crc, t, payload) && buffer[..HEADER_SIZE][..4] == buffer[..4];
    if p.pos + HEADER_SIZE + |payload| <= |file| {
      assert buffer[HEADER_SIZE..HEADER_SIZE + |payload|] == payload;
    }
  }

  lemma PaddingFirst(crc: Checksum, offset: nat, data: seq<Byte>, begin: bool)
    requires offset <= BLOCK_SIZE
    ensures Frames(crc, offset, data, begin) == Zeros(Padding(offset)) + Frames(crc, Start(offset), data, begin)
  {
    hide Header, Frames, Zeros;
    var n := Fragment(offset, data);
    assert Zeros(0) == [] && Start(Start(offset)) == Start(offset) && Padding(Start(offset)) == 0;
    assert Fragment(Start(offset), data) == n;
    FramesStart(crc, offset, data, begin);
    FramesStart(crc, Start(offset), data, begin);
    Regrouped(Zeros(Padding(offset)), Header(crc, TypeOf(begin, n == |data|), data[..n]), data[..n],
              if data[n..] == [] then [] else Frames(crc, Start(offset) + HEADER_SIZE + n, data[n..], false));
  }

  lemma Regrouped<T>(z: seq<T>, h: seq<T>, p: seq<T>, more: seq<T>)
    ensures z + h + p + more == z + ([] + h + p + more)
  {
  }

  // Frames from where a header fits: header, payload, and the others.
  lemma FirstAndOthers(crc: Checksum, offset: nat, data: seq<Byte>, begin: bool)
    requires offset + HEADER_SIZE <= BLOCK_SIZE
    ensures var n := Fragment(offset, data);
            Frames(crc, offset, data, begin) ==
              Header(crc, TypeOf(begin, n == |data|), data[..n]) + data[..n] +
              if n == |data| then [] else Frames(crc, offset + HEADER_SIZE + n, data[n..], false)
  {
    hide Header, Frames, Zeros;
    assert Zeros(0) == [];
    FramesStart(crc, offset, data, begin);
  }

  lemma HeldInFile(crc: Checksum, file: seq<Byte>, at: nat, t: Byte, payload: seq<Byte>, more: seq<Byte>)
    requires at <= |file| && |payload| < 0x1_0000 && Agree(file[at..], Header(crc, t, payload) + payload + more)
    ensures Holds(crc, file, at, t, payload)
    ensures var end := at + HEADER_SIZE + |payload|; end <= |file| ==> Agree(file[end..], more)
  {
    hide Header;
    var all, rest := Header(crc, t, payload) + payload + more, file[at..];
    assert forall i :: 0 <= i < HEADER_SIZE ==> all[i] == Header(crc, t, payload)[i];
    assert forall i :: 0 <= i < |payload| ==> all[HEADER_SIZE + i] == payload[i];
    assert forall i :: 0 <= i < |more| ==> all[HEADER_SIZE + |payload| + i] == more[i];
    assert forall i :: 0 <= i < |rest| ==> rest[i] == file[at + i];
  }

  // A next header falls behind the padding, where the others go on.
  lemma OthersAhead(crc: Checksum, file: seq<Byte>, q: Place, data: seq<Byte>)
    requires InFile(|file|, q) && Agree(file[q.pos..], Frames(crc, q.pos - q.block, data, false))
    ensures Ahead(crc, file, q, data, false)
    ensures EndOf(crc, q, data, false) == q.pos + |Frames(crc, q.pos - q.block, data, false)|
  {
    hide Frames, Zeros, Agree;
    var offset := q.pos - q.block;
    PaddingFirst(crc, offset, data, false);
    AgreeBehind(file, q.pos, Zeros(Padding(offset)), Frames(crc, Start(offset), data, false));
  }

  lemma AgreeBehind(file: seq<Byte>, pos: nat, z: seq<Byte>, more: seq<Byte>)
    requires pos <= |file| && Agree(file[pos..], z + more)
    ensures pos + |z| <= |file| ==> Agree(file[pos + |z|..], more)
  {
    var rest := file[pos..];
    assert forall i :: 0 <= i < |more| ==> (z + more)[|z| + i] == more[i];
    if pos + |z| <= |file| {
      assert file[pos + |z|..] == rest[|z|..];
    }
  }

  // The first fragment of what is ahead is read next; the others are ahead then.
  lemma FragmentNext(crc: Checksum, file: seq<Byte>, p: Place, data: seq<Byte>, begin: bool)
    requires Ahead(crc, file, p, data, begin)
    ensures var offset := Start(p.pos - p.block);
            var n, r := Fragment(offset, data), NextPhysical(crc, file, p);
            var end := HeaderPos(p) + HEADER_SIZE + n;
            if end > |file| then r.r == Eof && r.drops == 0 && EndOf(crc, p, data, begin) > |file|
            else
              && r.r == Record(TypeOf(begin, n == |data|), data[..n]) && r.drops == 0 && r.next.pos == end
              && (if n == |data| then EndOf(crc, p, data, begin) == end else
                    Ahead(crc, file, r.next, data[n..], false) &&
                    EndOf(crc, r.next, data[n..], false) == EndOf(crc, p, data, begin))
  {
    hide Frames, Header, Parse, Agree, Ahead;
    AheadAgrees(crc, file, p, data, begin);
    var offset := Start(p.pos - p.block);
    var n := Fragment(offset, data);
    FirstAndOthers(crc, offset, data, begin);
    if HeaderPos(p) + HEADER_SIZE <= |file| {
      var more := if n == |data| then [] else Frames(crc, offset + HEADER_SIZE + n, data[n..], false);
      HeldInFile(crc, file, HeaderPos(p), TypeOf(begin, n == |data|), data[..n], more);
      var q := HeaderPlace(|file|, p);
      ParseHeld(crc, file, q, TypeOf(begin, n == |data|), data[..n]);
      if HeaderPos(p) + HEADER_SIZE + n <= |file| && n < |data| {
        OthersAhead(crc, file, Place(HeaderPos(p) + HEADER_SIZE + n, q.block), data[n..]);
      }
    } else {
      NoHeader(crc, file, p);
    }
  }

  lemma AheadAgrees(crc: Checksum, file: seq<Byte>, p: Place, data: seq<Byte>, begin: bool)
    requires Ahead(crc, file, p, data, begin)
    ensures InFile(|file|, p)
    ensures HeaderPos(p) <= |file| ==> Agree(file[HeaderPos(p)..], Frames(crc, Start(p.pos - p.block), data, begin))
  {
    hide Frames, Agree;
  }

  // The place of the next header, in its block.
  lemma HeaderPlace(size: nat, p: Place) returns (q: Place)
    requires InFile(size, p) && HeaderPos(p) + HEADER_SIZE <= size
    ensures q.pos == HeaderPos(p) && InFile(size, q) && q.pos - q.block == Start(p.pos - p.block)
    ensures BlockEnd(size, q.block) - q.pos >= HEADER_SIZE
    ensures forall crc, file :: |file| == size ==> NextPhysical(crc, file, p) == Parse(crc, file, q)
  {
    hide Parse;
    q := if p.pos == HeaderPos(p) && p.pos - p.block < BLOCK_SIZE then p else Place(HeaderPos(p), p.block + BLOCK_SIZE);
  }

  lemma NoHeader(crc: Checksum, file: seq<Byte>, p: Place)
    requires InFile(|file|, p) && HeaderPos(p) + HEADER_SIZE > |file|
    ensures var r := NextPhysical(crc, file, p); r.r == Eof && r.drops == 0
  {
  }

  // The record that is ahead is found, whole, if the file has all of it.
  lemma {:induction false} RecordNext(crc: Checksum, file: seq<Byte>, p: Place, data: seq<Byte>, begin: bool,
                                      a: Assembly)
    requires Ahead(crc, file, p, data, begin) && (begin || a.inFragmented)
    ensures var f := NextRecord(crc, file, p, a);
            && (f.record.Some? <==> EndOf(crc, p, data, begin) <= |file|)
            && (f.record.Some? ==>
                  && f.record.value == (if begin then [] else a.scratch) + data
                  && f.next.pos == EndOf(crc, p, data, begin))
            && (a == NOTHING || !begin ==> f.drops == 0)
    decreases |file| - p.pos
  {
    hide Frames, NextPhysical, Ahead, NextRecord;
    FragmentNext(crc, file, p, data, begin);
    AheadAgrees(crc, file, p, data, begin);
    Step(crc, file, p, a);
    var r := NextPhysical(crc, file, p);
    var n := Fragment(Start(p.pos - p.block), data);
    var front := if begin then [] else a.scratch;
    assert data[..|data|] == data && [] + data[..n] == data[..n];
    if r.r.Record? && n < |data| {
      var scratch := front + data[..n];
      RecordNext(crc, file, r.next, data[n..], false, Assembly(true, scratch));
      assert scratch + data[n..] == front + data;
    }
  }

  // The end of a record whose start is lost is passed over.
  lemma {:induction false} TailPassed(crc: Checksum, file: seq<Byte>, p: Place, data: seq<Byte>,
                                      a: Assembly) returns (q: Place)
    requires Ahead(crc, file, p, data, false) && !a.inFragmented
    ensures var end := EndOf(crc, p, data, false);
            if end > |file| then NextRecord(crc, file, p, a).record.None? else
              && InFile(|file|, q) && q.pos == end > p.pos
              && NextRecord(crc, file, p, a).record == NextRecord(crc, file, q, a).record
              && NextRecord(crc, file, p, a).next == NextRecord(crc, file, q, a).next
    decreases |file| - p.pos
  {
    hide Frames, NextPhysical, Ahead, NextRecord;
    FragmentNext(crc, file, p, data, false);
    AheadAgrees(crc, file, p, data, false);
    Step(crc, file, p, a);
    var r := NextPhysical(crc, file, p);
    q := r.next;
    var n := Fragment(Start(p.pos - p.block), data);
    if r.r.Record? && n < |data| {
      q := TailPassed(crc, file, r.next, data[n..], a);
    }
  }

  lemma {:induction false} LogGrows(crc: Checksum, records: seq<seq<Byte>>, n: nat)
    requires n <= |records|
    ensures LogOf(crc, records[..n]) <= LogOf(crc, records)
    ensures n < |records| ==>
              var log := LogOf(crc, records[..n]);
              LogOf(crc, records[..n + 1]) == log + Frames(crc, |log| % BLOCK_SIZE, records[n], true)
  {
    hide Frames;
    if n < |records| {
      var front := records[..|records| - 1];
      assert front[..n] == records[..n];
      LogGrows(crc, front, n);
      assert records[..n + 1] == records[..n] + [records[n]];
      LogAppend(crc, records[..n], records[n]);
    } else {
      assert records[..n] == records;
    }
  }

  // The file is the log from there on, as far as it goes.
  ghost predicate SameFrom(file: seq<Byte>, log: seq<Byte>, from: nat) {
    from <= |file| <= |log| && file[from..] == log[from..|file|]
  }

  // The same bytes in this part of the file.
  ghost predicate SameIn(file: seq<Byte>, log: seq<Byte>, from: nat, to: nat) {
    forall k :: from <= k < to && k < |file| && k < |log| ==> file[k] == log[k]
  }

  lemma SameBehind(file: seq<Byte>, log: seq<Byte>, from: nat, k: nat, to: nat)
    requires SameFrom(file, log, from) && from <= k
    ensures SameIn(file, log, k, to)
  {
    forall i | from <= i < |file| ensures file[i] == log[i] {
      assert file[from..][i - from] == log[from..|file|][i - from];
    }
  }

  // Where the header of record n is.
  ghost function RecordPos(crc: Checksum, records: seq<seq<Byte>>, n: nat): nat
    requires n <= |records|
  {
    |LogOf(crc, records[..n])| + Padding(|LogOf(crc, records[..n])| % BLOCK_SIZE)
  }

  // What is in front of the header, and the fragments behind it.
  lemma RecordBytes(crc: Checksum, records: seq<seq<Byte>>, n: nat) returns (front: seq<Byte>)
    requires n < |records|
    ensures |front| == RecordPos(crc, records, n)
    ensures var frames := Frames(crc, Start(|LogOf(crc, records[..n])| % BLOCK_SIZE), records[n], true);
            && LogOf(crc, records[..n + 1]) == front + frames
            && |front| + |frames| <= |LogOf(crc, records)| &&
              LogOf(crc, records)[..|front| + |frames|] == front + frames
  {
    hide Frames, LogOf, Zeros;
    var log := LogOf(crc, records[..n]);
    LogGrows(crc, records, n);
    LogGrows(crc, records, n + 1);
    PaddingFirst(crc, |log| % BLOCK_SIZE, records[n], true);
    front := log + Zeros(Padding(|log| % BLOCK_SIZE));
  }

  // A reader that looks for a header there has record n ahead.
  lemma RecordAhead(crc: Checksum, file: seq<Byte>, records: seq<seq<Byte>>, n: nat, p: Place)
    requires n < |records| && InFile(|file|, p) && HeaderPos(p) == RecordPos(crc, records, n)
    requires SameIn(file, LogOf(crc, records), HeaderPos(p), |LogOf(crc, records[..n + 1])|)
    ensures Ahead(crc, file, p, records[n], true) && EndOf(crc, p, records[n], true) == |LogOf(crc, records[..n + 1])|
  {
    hide Frames, LogOf, SameIn, Agree;
    var front := RecordBytes(crc, records, n);
    var s := |LogOf(crc, records[..n])|;
    SameStart(p, s);
    PartAgrees(file, LogOf(crc, records), front, Frames(crc, Start(s % BLOCK_SIZE), records[n], true));
  }

  lemma SameStart(p: Place, s: nat)
    requires p.block % BLOCK_SIZE == 0 && 0 <= p.pos - p.block <= BLOCK_SIZE
    requires HeaderPos(p) == s + Padding(s % BLOCK_SIZE)
    ensures Start(p.pos - p.block) == Start(s % BLOCK_SIZE)
  {
    StartIs(p.pos, p.pos - p.block);
    StartIs(s, s % BLOCK_SIZE);
  }

  lemma StartIs(s: nat, offset: nat)
    requires offset <= BLOCK_SIZE && (s - offset) % BLOCK_SIZE == 0
    ensures Start(offset) == (s + Padding(offset)) % BLOCK_SIZE
  {
    var k := (s - offset) / BLOCK_SIZE;
    assert s == offset + k * BLOCK_SIZE;
    if Padding(offset) == 0 && offset < BLOCK_SIZE {
      assert (offset + k * BLOCK_SIZE) % BLOCK_SIZE == offset;
    } else {
      assert (s + Padding(offset)) == (k + 1) * BLOCK_SIZE;
    }
  }

  lemma PartAgrees(file: seq<Byte>, log: seq<Byte>, front: seq<Byte>, part: seq<Byte>)
    requires SameIn(file, log, |front|, |front| + |part|)
    requires |front| + |part| <= |log| && log[..|front| + |part|] == front + part
    ensures |front| <= |file| ==> Agree(file[|front|..], part)
  {
    assert forall i :: 0 <= i < |part| ==> log[|front| + i] == (front + part)[|front| + i] == part[i];
  }

  // From record n on all whole records are found, whatever was found before.
  lemma {:induction false} FromRecord(crc: Checksum, file: seq<Byte>, records: seq<seq<Byte>>, n: nat, p: Place,
                                      a: Assembly,
                                      from: nat)
      returns (m: nat)
    requires n <= |records| && InFile(|file|, p) && HeaderPos(p) == RecordPos(crc, records, n)
    requires SameFrom(file, LogOf(crc, records), from) && from <= HeaderPos(p)
    ensures n <= m <= |records| && RecordsFrom(crc, file, p, a) == records[n..m]
    ensures m > n ==> |LogOf(crc, records[..m])| <= |file|
    ensures m < |records| ==> |LogOf(crc, records[..m + 1])| > |file|
    decreases |records| - n
  {
    hide Frames, LogOf, NextRecord, SameFrom;
    m := n;
    if n == |records| {
      assert records[..n] == records;
      NothingNext(crc, file, records, p, a, from);
    } else {
      SameBehind(file, LogOf(crc, records), from, HeaderPos(p), |LogOf(crc, records[..n + 1])|);
      RecordAhead(crc, file, records, n, p);
      RecordNext(crc, file, p, records[n], true, a);
      var f := NextRecord(crc, file, p, a);
      if f.record.Some? {
        EndIsStart(crc, records, n + 1, f.next);
        m := FromRecord(crc, file, records, n + 1, f.next, NOTHING, from);
        assert [] + records[n] == records[n];
        assert records[n..m] == [records[n]] + records[n + 1..m];
      }
    }
  }

  lemma NothingNext(crc: Checksum, file: seq<Byte>, records: seq<seq<Byte>>, p: Place, a: Assembly, from: nat)
    requires InFile(|file|, p) && HeaderPos(p) >= |LogOf(crc, records)| && SameFrom(file, LogOf(crc, records), from)
    ensures NextRecord(crc, file, p, a).record.None? && NextRecord(crc, file, p, a).drops == 0
  {
    hide NextPhysical, NextRecord, LogOf;
    NoHeader(crc, file, p);
    Step(crc, file, p, a);
  }

  // Where a record ends, the next one is looked for.
  lemma EndIsStart(crc: Checksum, records: seq<seq<Byte>>, n: nat, p: Place)
    requires n <= |records| && p.pos == |LogOf(crc, records[..n])|
    requires p.block % BLOCK_SIZE == 0 && 0 <= p.pos - p.block <= BLOCK_SIZE
    ensures HeaderPos(p) == RecordPos(crc, records, n)
  {
    hide LogOf;
    SameOffset(p.pos, p.block);
  }

  lemma SameOffset(pos: int, block: int)
    requires block % BLOCK_SIZE == 0
    ensures (pos - block) % BLOCK_SIZE == pos % BLOCK_SIZE
  {
  }

  // In a log that is cut off anywhere, the next record is found when the file
  // has all of it.
  lemma NextInLog(crc: Checksum, file: seq<Byte>, records: seq<seq<Byte>>, n: nat, p: Place)
    requires n <= |records| && file <= LogOf(crc, records)
    requires InFile(|file|, p) && p.pos == |LogOf(crc, records[..n])|
    ensures var f := NextRecord(crc, file, p, NOTHING);
            && f.drops == 0
            && (f.record.Some? <==> n < |records| && |LogOf(crc, records[..n + 1])| <= |file|)
            && (f.record.Some? ==> f.record.value == records[n] && f.next.pos == |LogOf(crc, records[..n + 1])|)
  {
    hide Frames, LogOf, NextRecord;
    EndIsStart(crc, records, n, p);
    assert SameFrom(file, LogOf(crc, records), 0);
    if n < |records| {
      SameBehind(file, LogOf(crc, records), 0, HeaderPos(p), |LogOf(crc, records[..n + 1])|);
      RecordAhead(crc, file, records, n, p);
      RecordNext(crc, file, p, records[n], true, NOTHING);
      assert [] + records[n] == records[n];
    } else {
      assert records[..n] == records;
      NothingNext(crc, file, records, p, NOTHING, 0);
    }
  }

  // Standing at the end of the first n records.
  ghost predicate At(reader: LogReader, records: seq<seq<Byte>>, n: nat)
    reads reader
  {
    && reader.Valid() && n <= |records| && reader.file <= LogOf(reader.crc, records)
    && reader.Here().pos == |LogOf(reader.crc, records[..n])| <= |reader.file|
  }

  method ReadNext(reader: LogReader, ghost records: seq<seq<Byte>>, ghost n: nat) returns (ok: bool, record: seq<Byte>)
    requires At(reader, records, n)
    modifies reader
    ensures reader.Valid() && reader.drops == old(reader.drops)
    ensures ok <==> n < |records| && |LogOf(reader.crc, records[..n + 1])| <= |reader.file|
    ensures ok ==> record == records[n] && At(reader, records, n + 1) && reader.Here().pos > old(reader.Here().pos)
  {
    hide LogOf, NextRecord, RecordsFrom;
    NextInLog(reader.crc, reader.file, records, n, reader.Here());
    var found := reader.ReadRecord();
    ok := found.Some?;
    record := if ok then found.value else [];
  }

  // All records of a file, whatever its bytes.
  method ReadLog(crc: Checksum, file: seq<Byte>) returns (got: seq<seq<Byte>>, drops: nat)
    ensures got == RecordsFrom(crc, file, START, NOTHING) && drops == DropsFrom(crc, file, START)
  {
    hide NextRecord, RecordsFrom, DropsFrom, InFile, BlockEnd;
    var reader := new LogReader(crc, file);
    got := [];
    while true
      invariant fresh(reader) && reader.Valid() && reader.crc == crc && reader.file == file
      invariant RecordsFrom(crc, file, START, NOTHING) == got + RecordsFrom(crc, file, reader.Here(), NOTHING)
      invariant DropsFrom(crc, file, START) == reader.drops + DropsFrom(crc, file, reader.Here())
      decreases |file| - reader.Here().pos
    {
      OneMore(crc, file, reader.Here());
      var record := reader.ReadRecord();
      if record.None? {
        break;
      }
      Appended(got, record.value, RecordsFrom(crc, file, reader.Here(), NOTHING));
      got := got + [record.value];
    }
    drops := reader.drops;
  }

  lemma Appended<T>(got: seq<T>, record: T, rest: seq<T>)
    ensures got + ([record] + rest) == got + [record] + rest
  {
  }

  // A log, or any part of it from its start, has exactly the records that are
  // wholly in it, and no corruption is reported.
  lemma ReadBack(crc: Checksum, file: seq<Byte>, records: seq<seq<Byte>>) returns (m: nat)
    requires file <= LogOf(crc, records)
    ensures m <= |records| && RecordsFrom(crc, file, START, NOTHING) == records[..m] && DropsFrom(crc, file, START) == 0
    ensures |LogOf(crc, records[..m])| <= |file|
    ensures m < |records| ==> |LogOf(crc, records[..m + 1])| > |file|
  {
    hide LogOf, RecordsFrom, DropsFrom;
    NoRecords(crc);
    assert records[..0] == [];
    m := WholeFrom(crc, file, records, 0, START);
  }

  lemma {:induction false} WholeFrom(crc: Checksum, file: seq<Byte>, records: seq<seq<Byte>>, n: nat,
                                     p: Place) returns (m: nat)
    requires n <= |records| && file <= LogOf(crc, records)
    requires InFile(|file|, p) && p.pos == |LogOf(crc, records[..n])| <= |file|
    ensures n <= m <= |records| && RecordsFrom(crc, file, p, NOTHING) == records[n..m] && DropsFrom(crc, file, p) == 0
    ensures |LogOf(crc, records[..m])| <= |file|
    ensures m < |records| ==> |LogOf(crc, records[..m + 1])| > |file|
    decreases |records| - n
  {
    hide LogOf, NextRecord, RecordsFrom, DropsFrom, InFile, BlockEnd, Frames;
    OneMore(crc, file, p);
    NextInLog(crc, file, records, n, p);
    var f := NextRecord(crc, file, p, NOTHING);
    m := n;
    if f.record.Some? {
      m := WholeFrom(crc, file, records, n + 1, f.next);
      assert records[n..m] == [records[n]] + records[n + 1..m];
    }
  }

  lemma OneMore(crc: Checksum, file: seq<Byte>, p: Place)
    requires InFile(|file|, p)
    ensures var f := NextRecord(crc, file, p, NOTHING);
            && RecordsFrom(crc, file, p, NOTHING) ==
              (if f.record.None? then [] else [f.record.value] + RecordsFrom(crc, file, f.next, NOTHING))
            && DropsFrom(crc, file, p) == f.drops + if f.record.None? then 0 else DropsFrom(crc, file, f.next)
  {
    hide NextRecord;
  }

  lemma NoRecords(crc: Checksum)
    ensures LogOf(crc, []) == []
  {
  }
}
