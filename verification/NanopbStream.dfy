// nanopb's streams: the encoder's walk over a message either counts its bytes or
// writes them, and the decoder consumes them (pb_encode.c, pb_decode.c).
module NanopbStream {
  import opened Keys
  import opened Coding
  import opened Nanopb
  import opened Options

  // A stream without a callback only counts.
  class OStream {
    const sizing: bool
    const max: nat
    var written: nat
    var output: seq<Byte>

    constructor (sizing: bool, max: nat)
      ensures this.sizing == sizing && this.max == max && written == 0 && output == []
    {
      this.sizing, this.max, written, output := sizing, max, 0, [];
    }

    ghost predicate Valid()
      reads this
    {
      sizing || written <= max
    }

    // What is left holds these bytes.
    ghost predicate HasRoom(n: nat)
      reads this
    {
      sizing || written + n <= max
    }

    method Write(bytes: seq<Byte>) returns (ok: bool)
      requires Valid()
      modifies this
      ensures Valid() && (ok <==> old(HasRoom(|bytes|)))
      ensures ok ==> written == old(written) + |bytes| && output == old(output) + if sizing then [] else bytes
    {
      if |bytes| > 0 && !sizing {
        if written + |bytes| > max {
          return false;
        }
        output := output + bytes;
      }
      written := written + |bytes|;
      assert output == old(output) + if sizing then [] else bytes;
      ok := true;
    }

    // Only the count, when sizing.
    method Count(n: nat)
      requires sizing
      modifies this`written
      ensures written == old(written) + n
    {
      written := written + n;
    }
  }

  // These bytes have gone into the stream, or been counted.
  ghost predicate Took(s: OStream, written: nat, output: seq<Byte>, bytes: seq<Byte>)
    reads s
  {
    s.written == written + |bytes| && s.output == output + if s.sizing then [] else bytes
  }

  lemma TookMore(s: OStream, written: nat, output: seq<Byte>, a: seq<Byte>, b: seq<Byte>)
    requires s.written == written + |a| + |b|
    requires s.output == output + (if s.sizing then [] else a) + if s.sizing then [] else b
    ensures Took(s, written, output, a + b)
  {
  }

  // pb_encode: true just when all of the encoding fits, and then that is what
  // has been counted or written.
  method Encode(s: OStream, fields: seq<Field>, slots: seq<Slot>) returns (ok: bool)
    requires s.Valid() && MessageFits(fields, slots)
    modifies s
    ensures s.Valid() && (ok <==> old(s.HasRoom(|EncodeMessage(fields, slots)|)))
    ensures ok ==> Took(s, old(s.written), old(s.output), EncodeMessage(fields, slots))
    decreases fields, 4, 0
  {
    hide EncodeMessage, SlotFits, EncodeSlot;
    ghost var all := EncodeMessage(fields, slots);
    ghost var done: seq<Byte> := [];
    FrontAndRest(fields, slots, 0);
    NoneYet(fields, slots);
    assert s.output + (if s.sizing then [] else []) == s.output;
    for i := 0 to |fields|
      invariant s.Valid() && MessageFits(fields[..i], slots[..i]) && done == EncodeMessage(fields[..i], slots[..i])
      invariant Took(s, old(s.written), old(s.output), done)
    {
      Parts(fields, slots, i);
      ghost var part := EncodeSlot(fields[i], slots[i]);
      assert fields[i] in fields;
      var fits := EncodeField(s, fields[i], slots[i]);
      if !fits {
        return false;
      }
      TookMore(s, old(s.written), old(s.output), done, part);
      done := done + part;
    }
    assert fields[..|fields|] == fields && slots[..|fields|] == slots;
    ok := true;
  }

  lemma NoneYet(fields: seq<Field>, slots: seq<Slot>)
    requires MessageFits(fields, slots)
    ensures MessageFits(fields[..0], slots[..0]) && EncodeMessage(fields[..0], slots[..0]) == []
  {
  }

  lemma Parts(fields: seq<Field>, slots: seq<Slot>, i: nat)
    requires MessageFits(fields, slots) && i < |fields|
    ensures SlotFits(fields[i], slots[i])
    ensures MessageFits(fields[..i], slots[..i]) && MessageFits(fields[..i + 1], slots[..i + 1])
    ensures EncodeMessage(fields[..i + 1], slots[..i + 1]) ==
              EncodeMessage(fields[..i], slots[..i]) + EncodeSlot(fields[i], slots[i])
    ensures |EncodeMessage(fields[..i + 1], slots[..i + 1])| <= |EncodeMessage(fields, slots)|
  {
    hide EncodeSlot, SlotFits;
    FrontAndRest(fields, slots, i);
    FrontAndRest(fields, slots, i + 1);
    assert fields[..i + 1][..i] == fields[..i] && slots[..i + 1][..i] == slots[..i];
  }

  // encode_basic_field
  method EncodeField(s: OStream, f: Field, slot: Slot) returns (ok: bool)
    requires s.Valid() && SlotFits(f, slot)
    modifies s
    ensures s.Valid() && (ok <==> old(s.HasRoom(|EncodeSlot(f, slot)|)))
    ensures ok ==> Took(s, old(s.written), old(s.output), EncodeSlot(f, slot))
    decreases f, 4, 0
  {
    hide EncodeEach, EncodePacked, Tag, Prefixed, Packable, Fits;
    if slot == [] {
      assert s.output + [] == s.output;
      return true;
    }
    if f.rule.Repeated? && Packable(f.kind) {
      ok := EncodePackedArray(s, f, slot);
    } else {
      ok := EncodeUnpacked(s, f, slot);
    }
  }

  // A tag for each value.
  method EncodeUnpacked(s: OStream, f: Field, slot: Slot) returns (ok: bool)
    requires s.Valid() && forall k :: 0 <= k < |slot| ==> Fits(f.kind, slot[k])
    modifies s
    ensures s.Valid() && (ok <==> old(s.HasRoom(|EncodeEach(f, slot)|)))
    ensures ok ==> Took(s, old(s.written), old(s.output), EncodeEach(f, slot))
    decreases f, 3, 0
  {
    hide EncodeEach, EncodeValue, Tag, Fits, WireType;
    ghost var done: seq<Byte> := [];
    NoneOfEach(f, slot);
    assert s.output + (if s.sizing then [] else []) == s.output;
    for k := 0 to |slot|
      invariant s.Valid() && done == EncodeEach(f, slot[..k]) && Took(s, old(s.written), old(s.output), done)
    {
      OneOfEach(f, slot, k);
      ghost var t, part := Tag(f.tag, WireType(f.kind)), EncodeValue(f.kind, slot[k]);
      var fits := s.Write(Tag(f.tag, WireType(f.kind)));
      if !fits {
        return false;
      }
      fits := EncodeOne(s, f.kind, slot[k]);
      if !fits {
        return false;
      }
      TookMore(s, old(s.written), old(s.output), done + t, part);
      done := done + t + part;
    }
    assert slot[..|slot|] == slot;
    ok := true;
  }

  lemma NoneOfEach(f: Field, slot: Slot)
    ensures EncodeEach(f, slot[..0]) == []
  {
  }

  lemma OneOfEach(f: Field, slot: Slot, k: nat)
    requires (forall j :: 0 <= j < |slot| ==> Fits(f.kind, slot[j])) && k < |slot|
    ensures EncodeEach(f, slot[..k + 1]) ==
              EncodeEach(f, slot[..k]) + Tag(f.tag, WireType(f.kind)) + EncodeValue(f.kind, slot[k])
    ensures |EncodeEach(f, slot[..k + 1])| <= |EncodeEach(f, slot)|
  {
    hide EncodeValue, Fits, Tag, WireType;
    assert slot[..k + 1][..k] == slot[..k];
    EachIs(f, slot, k + 1);
  }

  // encode_array, packed: the size first, then the numbers; nothing is written
  // twice when only sizing.
  method EncodePackedArray(s: OStream, f: Field, slot: Slot) returns (ok: bool)
    requires s.Valid() && SlotFits(f, slot) && f.rule.Repeated? && Packable(f.kind) && slot != []
    modifies s
    ensures s.Valid() && (ok <==> old(s.HasRoom(|EncodeSlot(f, slot)|)))
    ensures ok ==> Took(s, old(s.written), old(s.output), EncodeSlot(f, slot))
    decreases f, 3, 0
  {
    hide EncodePacked, EncodeValue, Tag, Fits, Varint, Packable;
    ghost var t, packed := Tag(f.tag, 2), EncodePacked(f.kind, slot);
    ghost var head := t + Varint(|packed|);
    assert EncodeSlot(f, slot) == head + packed;
    ok := s.Write(Tag(f.tag, 2));
    if !ok {
      return;
    }
    var size := PackedSize(f.kind, slot);
    ok := s.Write(Varint(size));
    if !ok {
      return;
    }
    assert Took(s, old(s.written), old(s.output), head);
    if s.sizing {
      s.Count(size);
      return;
    }
    ok := WritePacked(s, f.kind, slot);
    if ok {
      TookMore(s, old(s.written), old(s.output), head, packed);
    }
  }

  // The total size: known for fixed-width numbers, else by a sizing stream.
  method PackedSize(kind: Nanopb.Kind, slot: Slot) returns (size: nat)
    requires Packable(kind) && forall k :: 0 <= k < |slot| ==> Fits(kind, slot[k])
    ensures size == |EncodePacked(kind, slot)|
  {
    hide EncodePacked, Fits, EncodeValue, Packable;
    if kind.Fixed32? || kind.Fixed64? {
      FixedWidth(kind, slot);
      size := (if kind.Fixed32? then 4 else 8) * |slot|;
    } else {
      var sizeStream := new OStream(true, 0);
      var ok := WritePacked(sizeStream, kind, slot);
      size := sizeStream.written;
    }
  }

  lemma {:induction false} FixedWidth(kind: Nanopb.Kind, slot: Slot)
    requires (forall k :: 0 <= k < |slot| ==> Fits(kind, slot[k])) && (kind.Fixed32? || kind.Fixed64?)
    ensures |EncodePacked(kind, slot)| == (if kind.Fixed32? then 4 else 8) * |slot|
  {
    if slot != [] {
      FixedWidth(kind, slot[..|slot| - 1]);
    }
  }

  method WritePacked(s: OStream, kind: Nanopb.Kind, slot: Slot) returns (ok: bool)
    requires s.Valid() && Packable(kind) && forall k :: 0 <= k < |slot| ==> Fits(kind, slot[k])
    modifies s
    ensures s.Valid() && (ok <==> old(s.HasRoom(|EncodePacked(kind, slot)|)))
    ensures ok ==> Took(s, old(s.written), old(s.output), EncodePacked(kind, slot))
  {
    hide EncodePacked, EncodeValue, Fits, Packable;
    ghost var done: seq<Byte> := [];
    NonePacked(kind);
    assert slot[..0] == [] && s.output + (if s.sizing then [] else []) == s.output;
    for k := 0 to |slot|
      invariant s.Valid() && done == EncodePacked(kind, slot[..k]) && Took(s, old(s.written), old(s.output), done)
    {
      OneOfPacked(kind, slot, k);
      ghost var part := EncodeValue(kind, slot[k]);
      var fits := s.Write(EncodeValue(kind, slot[k]));
      if !fits {
        return false;
      }
      TookMore(s, old(s.written), old(s.output), done, part);
      done := done + part;
    }
    assert slot[..|slot|] == slot;
    ok := true;
  }

  lemma OneOfPacked(kind: Nanopb.Kind, slot: Slot, k: nat)
    requires (forall j :: 0 <= j < |slot| ==> Fits(kind, slot[j])) && k < |slot|
    ensures EncodePacked(kind, slot[..k + 1]) == EncodePacked(kind, slot[..k]) + EncodeValue(kind, slot[k])
    ensures |EncodePacked(kind, slot[..k + 1])| <= |EncodePacked(kind, slot)|
  {
    hide EncodeValue, Fits;
    assert slot[..k + 1][..k] == slot[..k];
    PackedIs(kind, slot, k + 1);
  }

  // One value: a length and bytes, a submessage, or a number.
  method EncodeOne(s: OStream, kind: Nanopb.Kind, v: Value) returns (ok: bool)
    requires s.Valid() && Fits(kind, v)
    modifies s
    ensures s.Valid() && (ok <==> old(s.HasRoom(|EncodeValue(kind, v)|)))
    ensures ok ==> Took(s, old(s.written), old(s.output), EncodeValue(kind, v))
    decreases kind, 6, 0
  {
    hide MessageFits, EncodeMessage, Varint, Prefixed;
    if kind.Message? {
      ok := EncodeSubmessage(s, kind.fields, v.slots);
    } else if kind.Bytes? || kind.Text? || kind.FixedBytes? {
      ok := EncodeString(s, v.bytes);
    } else {
      ok := s.Write(EncodeValue(kind, v));
    }
  }

  method EncodeString(s: OStream, bytes: seq<Byte>) returns (ok: bool)
    requires s.Valid()
    modifies s
    ensures s.Valid() && (ok <==> old(s.HasRoom(|Prefixed(bytes)|)))
    ensures ok ==> Took(s, old(s.written), old(s.output), Prefixed(bytes))
  {
    hide Varint;
    ok := s.Write(Varint(|bytes|));
    if ok {
      ok := s.Write(bytes);
    }
    if ok {
      TookMore(s, old(s.written), old(s.output), Varint(|bytes|), bytes);
    }
  }

  // pb_encode_submessage: a sizing pass, the length, and the writing pass, which
  // comes to the same size.
  method EncodeSubmessage(s: OStream, fields: seq<Field>, slots: seq<Slot>) returns (ok: bool)
    requires s.Valid() && MessageFits(fields, slots)
    modifies s
    ensures s.Valid() && (ok <==> old(s.HasRoom(|Prefixed(EncodeMessage(fields, slots))|)))
    ensures ok ==> Took(s, old(s.written), old(s.output), Prefixed(EncodeMessage(fields, slots)))
    decreases fields, 5, 0
  {
    hide MessageFits, EncodeMessage, Varint;
    ghost var body := EncodeMessage(fields, slots);
    var counter := new OStream(true, 0);
    ok := Encode(counter, fields, slots);
    var size := counter.written;
    ok := s.Write(Varint(size));
    if !ok {
      return;
    }
    if s.sizing {
      s.Count(size);
      return;
    }
    if s.written + size > s.max {
      return false;
    }
    var substream := new OStream(false, size);
    ok := Encode(substream, fields, slots);
    s.written := s.written + substream.written;
    s.output := s.output + substream.output;
    ok := ok && substream.written == size;
    TookMore(s, old(s.written), old(s.output), Varint(size), body);
  }

  // The size that pb_get_encoded_size gives is the size of what pb_encode writes.
  method GetEncodedSize(fields: seq<Field>, slots: seq<Slot>) returns (size: nat)
    requires MessageFits(fields, slots)
    ensures size == |EncodeMessage(fields, slots)|
  {
    hide MessageFits, EncodeMessage;
    var stream := new OStream(true, 0);
    var ok := Encode(stream, fields, slots);
    size := stream.written;
  }

  // ---- Decoding ----

  class IStream {
    var left: seq<Byte>

    constructor (bytes: seq<Byte>)
      ensures left == bytes
    {
      left := bytes;
    }

    method ReadVarint32() returns (n: Option<nat>)
      modifies this
      ensures var r := Varint32(old(left));
              if r.None? then n.None? && left == old(left) else n == Some(r.value.0) && left == r.value.1
    {
      var r := Varint32(left);
      if r.None? {
        return None;
      }
      left := r.value.1;
      n := Some(r.value.0);
    }

    // pb_make_string_substream: the substream is taken out of this one.
    method MakeSubstream() returns (sub: IStream?)
      modifies this
      ensures var r := Substream(old(left));
              if r.None? then sub == null else sub != null && fresh(sub) && sub.left == r.value.0 && left == r.value.1
    {
      sub := null;
      var size := ReadVarint32();
      if size.Some? && |left| >= size.value {
        sub := new IStream(left[..size.value]);
        left := left[size.value..];
      }
    }
  }

  // pb_decode_noinit: field after field, into the slots that are there.
  method DecodeNoinit(s: IStream, fields: seq<Field>, initial: seq<Slot>) returns (r: Option<seq<Slot>>)
    requires |initial| == |fields|
    modifies s
    ensures r == DecodeFields(fields, initial, {}, old(s.left))
    decreases fields, 1, 0
  {
    hide DecodeSlot, Put, FindField, AllSeen, Skip, Varint32;
    var slots := initial;
    var seen: set<nat> := {};
    while s.left != []
      invariant |slots| == |fields|
      invariant DecodeFields(fields, initial, {}, old(s.left)) == DecodeFields(fields, slots, seen, s.left)
      decreases |s.left|
    {
      ghost var input := s.left;
      var key := s.ReadVarint32();
      Shorter(input);
      if key.None? {
        return None;
      }
      if key.value == 0 {
        return if AllSeen(fields, seen) then Some(slots) else None;
      }
      var tag, wire := key.value / 8, key.value % 8;
      var i := FindField(fields, tag);
      if i.None? {
        var after := Skip(wire, s.left);
        if after.None? {
          return None;
        }
        s.left := after.value;
      } else {
        var slot := DecodeField(s, fields[i.value], slots[i.value], wire);
        if slot.None? {
          return None;
        }
        slots := Put(fields, slots, i.value, slot.value);
        seen := seen + {i.value};
      }
    }
    r := if AllSeen(fields, seen) then Some(slots) else None;
  }

  lemma Shorter(input: seq<Byte>)
    ensures Varint32(input).Some? ==> |Varint32(input).value.1| < |input|
  {
  }

  // decode_static_field
  method DecodeField(s: IStream, f: Field, slot: Slot, wire: nat) returns (r: Option<Slot>)
    modifies s
    ensures var d := DecodeSlot(f, slot, wire, old(s.left));
            if d.None? then r.None? else r == Some(d.value.0) && s.left == d.value.1
    ensures r.Some? ==> |s.left| < |old(s.left)|
    decreases f, 1, 0
  {
    hide DecodeValue, DecodePacked, Substream, Packable;
    if f.rule.Repeated? && wire == 2 && Packable(f.kind) {
      var sub := s.MakeSubstream();
      if sub == null {
        return None;
      }
      r := DecodePackedArray(sub, f.kind, slot, f.rule.max);
    } else if f.rule.Repeated? {
      if |slot| >= f.rule.max {
        return None;
      }
      var v := DecodeOne(s, f.kind, Default(f.kind));
      r := if v.None? then None else Some(slot + [v.value]);
    } else {
      var v := DecodeOne(s, f.kind, if slot == [] then Default(f.kind) else slot[0]);
      r := if v.None? then None else Some([v.value]);
    }
  }

  method DecodePackedArray(sub: IStream, kind: Nanopb.Kind, initial: Slot, max: nat) returns (r: Option<Slot>)
    requires Packable(kind)
    modifies sub
    ensures r == DecodePacked(kind, initial, max, old(sub.left))
  {
    hide DecodeValue, Default, Packable;
    var slot := initial;
    while sub.left != [] && |slot| < max
      invariant DecodePacked(kind, initial, max, old(sub.left)) == DecodePacked(kind, slot, max, sub.left)
      decreases |sub.left|
    {
      var d := DecodeValue(kind, Default(kind), sub.left);
      if d.None? {
        return None;
      }
      sub.left := d.value.1;
      slot := slot + [d.value.0];
    }
    r := if sub.left != [] then None else Some(slot);
  }

  // One value; a submessage takes a substream of its own.
  method DecodeOne(s: IStream, kind: Nanopb.Kind, previous: Value) returns (r: Option<Value>)
    modifies s
    ensures var d := DecodeValue(kind, previous, old(s.left));
            if d.None? then r.None? else r == Some(d.value.0) && s.left == d.value.1
    ensures r.Some? ==> |s.left| < |old(s.left)|
    decreases kind, 1, 0
  {
    hide DecodeFields, Substream, Defaults, Varint32, Varint64;
    if kind.Message? {
      var sub := s.MakeSubstream();
      if sub == null {
        return None;
      }
      var slots := if previous.Msg? && |previous.slots| == |kind.fields| then previous.slots else Defaults(kind.fields);
      var m := DecodeNoinit(sub, kind.fields, slots);
      r := if m.None? then None else Some(Msg(m.value));
    } else {
      var d := DecodeValue(kind, previous, s.left);
      if d.None? {
        return None;
      }
      s.left := d.value.1;
      r := Some(d.value.0);
    }
  }

  // What is encoded into a stream with room for it is decoded to the same
  // message.
  method EncodeAndDecode(fields: seq<Field>, slots: seq<Slot>, max: nat) returns (r: Option<seq<Slot>>)
    requires MessageFits(fields, slots) && Described(fields) && max < WORD
    ensures r == if |EncodeMessage(fields, slots)| <= max then Some(slots) else None
  {
    hide MessageFits, Described, EncodeMessage, DecodeFields, Defaults;
    var s := new OStream(false, max);
    var ok := Encode(s, fields, slots);
    if !ok {
      return None;
    }
    assert s.output == EncodeMessage(fields, slots);
    MessageBack(fields, slots);
    var input := new IStream(s.output);
    r := DecodeNoinit(input, fields, Defaults(fields));
  }
}
