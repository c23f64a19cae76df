// Block handles, sealed blocks and the footer of a table file (table/format.h,
// table/format.cc).
module TableFormat {
  import opened Keys
  import opened Coding
  import opened Crc
  import opened Options

  const TRAILER := 5
  const FOOTER := 48
  const MAGIC_LOW: nat := 0x8b80_fb57
  const MAGIC_HIGH: nat := 0xdb47_7524
  const DWORD: nat := 0x1_0000_0000_0000_0000

  type Checksum = seq<Byte> -> Word

  // ---- Handles ----

  datatype Handle = Handle(offset: nat, size: nat)

  predicate HandleFits(h: Handle) {
    h.offset < DWORD && h.size < DWORD
  }

  function EncodeHandle(h: Handle): seq<Byte> {
    Varint(h.offset) + Varint(h.size)
  }

  function DecodeHandle(input: seq<Byte>): Option<(Handle, seq<Byte>)> {
    var offset := GetVarint64(input);
    if offset.None? then None else
    var size := GetVarint64(offset.value.1);
    if size.None? then None else Some((Handle(offset.value.0, size.value.0), size.value.1))
  }

  lemma HandleRead(h: Handle, rest: seq<Byte>)
    requires HandleFits(h)
    ensures DecodeHandle(EncodeHandle(h) + rest) == Some((h, rest))
  {
    hide Varint;
    assert EncodeHandle(h) + rest == Varint(h.offset) + (Varint(h.size) + rest);
    Varint64RoundTrip(h.offset, Varint(h.size) + rest);
    Varint64RoundTrip(h.size, rest);
  }

  lemma {:induction false} VarintLength(v: nat, groups: nat)
    requires groups > 0 && v < Pow(128, groups)
    ensures |Varint(v)| <= groups
  {
    if v >= 128 {
      assert v / 128 < Pow(128, groups - 1);
      VarintLength(v / 128, groups - 1);
    }
  }

  lemma HandleLength(h: Handle)
    requires HandleFits(h)
    ensures |EncodeHandle(h)| <= 20
  {
    hide Varint;
    assert DWORD <= Pow(128, 10);
    VarintLength(h.offset, 10);
    VarintLength(h.size, 10);
  }

  // ---- Blocks ----

  // The contents, their type, and the checksum of both.
  function Sealed(crc: Checksum, contents: seq<Byte>): (bytes: seq<Byte>)
    ensures |bytes| == |contents| + TRAILER
  {
    contents + [0] + Fixed(Mask(crc(contents + [0])), 4)
  }

  function ReadBlock(crc: Checksum, verify: bool, file: seq<Byte>, h: Handle): Option<seq<Byte>> {
    var n := h.offset + h.size;
    if n + TRAILER > |file| then None
    else
      DecodeFixedBound(file[n + 1..n + TRAILER]);
      assert Pow(256, 4) == WORD;
      if verify && crc(file[h.offset..n + 1]) != Unmask(DecodeFixed(file[n + 1..n + TRAILER])) then None
      else if file[n] == 0 then Some(file[h.offset..n]) else None
  }

  ghost predicate Stored(crc: Checksum, file: seq<Byte>, h: Handle, contents: seq<Byte>) {
    && h.size == |contents| && h.offset + h.size + TRAILER <= |file|
    && file[h.offset..h.offset + h.size + TRAILER] == Sealed(crc, contents)
  }

  lemma StoredIsRead(crc: Checksum, verify: bool, file: seq<Byte>, h: Handle, contents: seq<Byte>)
    requires Stored(crc, file, h, contents)
    ensures ReadBlock(crc, verify, file, h) == Some(contents)
  {
    hide Fixed, DecodeFixed, Mask, Unmask;
    var n := h.offset + h.size;
    var bytes := file[h.offset..n + TRAILER];
    var sum := Mask(crc(contents + [0]));
    Fixed32RoundTrip(sum);
    UnmaskMask(crc(contents + [0]));
    assert bytes[..h.size] == contents && bytes[..h.size + 1] == contents + [0] && bytes[h.size + 1..] == Fixed(sum, 4);
    assert file[h.offset..n] == bytes[..h.size] && file[h.offset..n + 1] == bytes[..h.size + 1];
    assert file[n + 1..n + TRAILER] == bytes[h.size + 1..];
  }

  lemma StoredStays(crc: Checksum, file: seq<Byte>, more: seq<Byte>, h: Handle, contents: seq<Byte>)
    requires Stored(crc, file, h, contents)
    ensures Stored(crc, file + more, h, contents)
  {
    hide Sealed;
    var end := h.offset + h.size + TRAILER;
    assert (file + more)[h.offset..end] == file[h.offset..end];
  }

  lemma StoredLast(crc: Checksum, file: seq<Byte>, contents: seq<Byte>)
    ensures Stored(crc, file + Sealed(crc, contents), Handle(|file|, |contents|), contents)
  {
  }

  // ---- The footer ----

  // The handles, resized to forty bytes, and the magic number.
  function EncodeFooter(metaindex: Handle, index: Handle): (bytes: seq<Byte>)
    ensures |bytes| == FOOTER
  {
    (EncodeHandle(metaindex) + EncodeHandle(index) + seq(40, _ => 0))[..40] + Fixed(MAGIC_LOW, 4) + Fixed(MAGIC_HIGH, 4)
  }

  function DecodeFooter(bytes: seq<Byte>): Option<(Handle, Handle)>
    requires |bytes| == FOOTER
  {
    if DecodeFixed(bytes[40..44]) != MAGIC_LOW || DecodeFixed(bytes[44..]) != MAGIC_HIGH then None
    else
      var metaindex := DecodeHandle(bytes);
      if metaindex.None? then None else
      var index := DecodeHandle(metaindex.value.1);
      if index.None? then None else Some((metaindex.value.0, index.value.0))
  }

  lemma FooterRead(metaindex: Handle, index: Handle)
    requires HandleFits(metaindex) && HandleFits(index)
    ensures DecodeFooter(EncodeFooter(metaindex, index)) == Some((metaindex, index))
  {
    hide Fixed, DecodeFixed, EncodeHandle, DecodeHandle;
    HandleLength(metaindex);
    HandleLength(index);
    var bytes := EncodeFooter(metaindex, index);
    var handles := EncodeHandle(metaindex) + EncodeHandle(index);
    var rest := seq(40 - |handles|, _ => 0) + Fixed(MAGIC_LOW, 4) + Fixed(MAGIC_HIGH, 4);
    assert (handles + seq(40, _ => 0))[..40] == handles + seq(40 - |handles|, _ => 0);
    Fixed32RoundTrip(MAGIC_LOW);
    Fixed32RoundTrip(MAGIC_HIGH);
    assert bytes[40..44] == Fixed(MAGIC_LOW, 4) && bytes[44..] == Fixed(MAGIC_HIGH, 4);
    assert bytes == EncodeHandle(metaindex) + (EncodeHandle(index) + rest);
    HandleRead(metaindex, EncodeHandle(index) + rest);
    HandleRead(index, rest);
  }
}
