// nanopb: messages as bytes, driven by field descriptors (pb_encode.c,
// pb_decode.c). The wire format is that of the Protocol Buffers Encoding guide.
module Nanopb {
  import opened Keys
  import opened Coding
  import opened Options

  datatype Kind =
    | Bool
    | Int(bits: nat)
    | UInt(bits: nat)
    | SInt(bits: nat)
    | Fixed32
    | Fixed64
    | Bytes(max: nat)
    | Text(max: nat)
    | FixedBytes(size: nat)
    | Message(fields: seq<Field>)

  datatype Rule = Required | Optional | Repeated(max: nat) | OneOf(group: nat)

  // A field may have a default value of its own; a message has those of its fields.
  datatype Field = Field(tag: nat, rule: Rule, kind: Kind, preset: Option<Value>)

  // A message has a slot for each field: no value when it is absent, and any
  // number for a repeated field.
  datatype Value = Num(n: int) | Blob(bytes: seq<Byte>) | Msg(slots: seq<Slot>)
  type Slot = seq<Value>

  const WORD64: nat := 0x1_0000_0000_0000_0000

  // Signed integers of that many bits are below this limit.
  function Limit(bits: nat): int {
    if bits == 8 then 0x80 else if bits == 16 then 0x8000 else if bits == 32 then 0x8000_0000 else 0x8000_0000_0000_0000
  }

  predicate Packable(kind: Kind) {
    kind.Bool? || kind.Int? || kind.UInt? || kind.SInt? || kind.Fixed32? || kind.Fixed64?
  }

  // ---- Encoding ----

  // Two's complement in 64 bits.
  function Unsigned(n: int): nat
    requires -0x8000_0000_0000_0000 <= n < WORD64
  {
    if n < 0 then n + WORD64 else n
  }

  function ZigZag(n: int): nat {
    if n < 0 then -2 * n - 1 else 2 * n
  }

  function WireType(kind: Kind): nat {
    match kind
    case Bool => 0
    case Int(_) => 0
    case UInt(_) => 0
    case SInt(_) => 0
    case Fixed64 => 1
    case Bytes(_) => 2
    case Text(_) => 2
    case FixedBytes(_) => 2
    case Message(_) => 2
    case Fixed32 => 5
  }

  function Tag(tag: nat, wire: nat): seq<Byte> {
    Varint(8 * tag + wire)
  }

  // In-range values of a field's kind.
  ghost predicate Fits(kind: Kind, v: Value)
    decreases kind
  {
    match kind
    case Bool => v.Num? && (v.n == 0 || v.n == 1)
    case Int(bits) => v.Num? && bits in {8, 16, 32, 64} && -Limit(bits) <= v.n < Limit(bits)
    case UInt(bits) => v.Num? && bits in {8, 16, 32, 64} && 0 <= v.n < 2 * Limit(bits)
    case SInt(bits) => v.Num? && bits in {8, 16, 32, 64} && -Limit(bits) <= v.n < Limit(bits)
    case Fixed32 => v.Num? && 0 <= v.n < WORD
    case Fixed64 => v.Num? && 0 <= v.n < WORD64
    case Bytes(max) => v.Blob? && |v.bytes| <= max < WORD
    case Text(max) => v.Blob? && |v.bytes| < max < WORD && 0 !in v.bytes
    case FixedBytes(size) => v.Blob? && |v.bytes| == size < WORD
    case Message(fields) => v.Msg? && MessageFits(fields, v.slots)
  }

  // At most one member of a union is set.
  ghost predicate MessageFits(fields: seq<Field>, slots: seq<Slot>)
    decreases fields
  {
    && |slots| == |fields|
    && (forall i :: 0 <= i < |fields| ==> SlotFits(fields[i], slots[i]))
    && (forall i, j :: 0 <= i < j < |fields| && fields[i].rule.OneOf? && fields[i].rule == fields[j].rule ==>
          slots[i] == [] || slots[j] == [])
  }

  ghost predicate SlotFits(f: Field, slot: Slot)
    decreases f
  {
    && (forall k :: 0 <= k < |slot| ==> Fits(f.kind, slot[k]))
    && match f.rule
       case Required => |slot| == 1
       case Optional => |slot| <= 1
       case Repeated(max) => |slot| <= max
       case OneOf(_) => |slot| <= 1
  }

  function EncodeValue(kind: Kind, v: Value): seq<Byte>
    requires Fits(kind, v)
    decreases kind, 0, 0
  {
    match kind
    case Bool => Varint(v.n)
    case Int(bits) => Varint(Unsigned(v.n))
    case UInt(bits) => Varint(v.n)
    case SInt(bits) => Varint(ZigZag(v.n))
    case Fixed32 => Fixed(v.n, 4)
    case Fixed64 => Fixed(v.n, 8)
    case Bytes(_) => Prefixed(v.bytes)
    case Text(_) => Prefixed(v.bytes)
    case FixedBytes(_) => Prefixed(v.bytes)
    case Message(fields) => Prefixed(EncodeMessage(fields, v.slots))
  }

  function EncodeMessage(fields: seq<Field>, slots: seq<Slot>): seq<Byte>
    requires MessageFits(fields, slots)
    decreases fields, 0, 0
  {
    if fields == [] then []
    else
      var n := |fields| - 1;
      EncodeMessage(fields[..n], slots[..n]) + EncodeSlot(fields[n], slots[n])
  }

  // Repeated numbers are packed into one field.
  function EncodeSlot(f: Field, slot: Slot): seq<Byte>
    requires SlotFits(f, slot)
    decreases f, 1, 0
  {
    if slot == [] then []
    else if f.rule.Repeated? && Packable(f.kind) then Tag(f.tag, 2) + Prefixed(EncodePacked(f.kind, slot))
    else EncodeEach(f, slot)
  }

  function EncodePacked(kind: Kind, slot: Slot): seq<Byte>
    requires forall k :: 0 <= k < |slot| ==> Fits(kind, slot[k])
    decreases kind, 1, |slot|
  {
    if slot == [] then [] else EncodePacked(kind, slot[..|slot| - 1]) + EncodeValue(kind, slot[|slot| - 1])
  }

  function EncodeEach(f: Field, slot: Slot): seq<Byte>
    requires forall k :: 0 <= k < |slot| ==> Fits(f.kind, slot[k])
    decreases f, 0, |slot|
  {
    if slot == [] then []
    else EncodeEach(f, slot[..|slot| - 1]) + Tag(f.tag, WireType(f.kind)) + EncodeValue(f.kind, slot[|slot| - 1])
  }

  // ---- Decoding ----

  function Varint32(input: seq<Byte>): (r: Option<(nat, seq<Byte>)>)
    ensures r.Some? ==> |r.value.1| < |input| && r.value.0 < WORD
  {
    GetVarintShrinks(input, 10);
    var r := GetVarint(input, 10);
    if r.None? || r.value.0 >= WORD then None else r
  }

  function Varint64(input: seq<Byte>): (r: Option<(nat, seq<Byte>)>)
    ensures r.Some? ==> |r.value.1| < |input| && r.value.0 < WORD64
  {
    GetVarintShrinks(input, 10);
    var r := GetVarint(input, 10);
    if r.None? then None else Some((r.value.0 % WORD64, r.value.1))
  }

  // A length and the substream of that length.
  function Substream(input: seq<Byte>): (r: Option<(seq<Byte>, seq<Byte>)>)
    ensures r.Some? ==> |r.value.1| < |input| && |r.value.0| < |input|
  {
    var size := Varint32(input);
    if size.None? || |size.value.1| < size.value.0 then None
    else Some((size.value.1[..size.value.0], size.value.1[size.value.0..]))
  }

  // The signed value of so many low bits.
  function Signed(n: nat, half: nat): int
    requires half > 0
  {
    var low := n % (2 * half);
    if low < half then low else low - 2 * half
  }

  // 64-bit fields take all bits; the others are cast to 32 bits first, and must
  // fit their size then.
  function Clamped(bits: nat, n: nat): Option<int> {
    if bits == 64 then Some(Signed(n, 0x8000_0000_0000_0000))
    else
      var v := Signed(n, 0x8000_0000);
      if -Limit(bits) <= v < Limit(bits) then Some(v) else None
  }

  function UnZigZag(n: nat): int {
    if n % 2 == 1 then -(n / 2) - 1 else n / 2
  }

  function Default(kind: Kind): Value
    decreases kind, 0, 0
  {
    match kind
    case Bytes(_) => Blob([])
    case Text(_) => Blob([])
    case FixedBytes(size) => Blob(seq(size, _ => 0))
    case Message(fields) => Msg(Defaults(fields))
    case _ => Num(0)
  }

  // Counts and presence are reset, required fields get their defaults.
  function Defaults(fields: seq<Field>): (slots: seq<Slot>)
    ensures |slots| == |fields|
    decreases fields, 0, 0
  {
    if fields == [] then []
    else
      var n := |fields| - 1;
      Defaults(fields[..n]) + [DefaultSlot(fields[n])]
  }

  function DefaultSlot(f: Field): Slot
    decreases f, 0, 0
  {
    if !f.rule.Required? then []
    else if f.preset.Some? && !f.kind.Message? then [f.preset.value]
    else [Default(f.kind)]
  }

  function Number(r: Option<(nat, seq<Byte>)>): Option<(Value, seq<Byte>)> {
    if r.None? then None else Some((Num(r.value.0), r.value.1))
  }

  // One value; a submessage is decoded into the value that is there.
  function DecodeValue(kind: Kind, previous: Value, input: seq<Byte>): (r: Option<(Value, seq<Byte>)>)
    ensures r.Some? ==> |r.value.1| < |input|
    decreases kind, 0, 0
  {
    match kind
    case Bool =>
      var r := Varint32(input);
      if r.None? then None else Some((Num(if r.value.0 == 0 then 0 else 1), r.value.1))
    case Int(bits) =>
      var r := Varint64(input);
      if r.None? then None
      else
        var v := Clamped(bits, r.value.0);
        if v.None? then None else Some((Num(v.value), r.value.1))
    case UInt(bits) =>
      var r := Varint64(input);
      if r.None? || r.value.0 >= 2 * Limit(bits) then None else Number(r)
    case SInt(bits) =>
      var r := Varint64(input);
      if r.None? then None
      else
        var v := UnZigZag(r.value.0);
        if -Limit(bits) <= v < Limit(bits) then Some((Num(v), r.value.1)) else None
    case Fixed32 => if |input| < 4 then None else Some((Num(DecodeFixed(input[..4])), input[4..]))
    case Fixed64 => if |input| < 8 then None else Some((Num(DecodeFixed(input[..8])), input[8..]))
    case Bytes(max) =>
      var r := Substream(input);
      if r.None? || |r.value.0| > max then None else Some((Blob(r.value.0), r.value.1))
    case Text(max) =>
      var r := Substream(input);
      if r.None? || |r.value.0| >= max then None else Some((Blob(r.value.0), r.value.1))
    case FixedBytes(size) =>
      var r := Substream(input);
      if r.None? then None
      else if r.value.0 == [] then Some((Blob(seq(size, _ => 0)), r.value.1))
      else if |r.value.0| != size then None
      else Some((Blob(r.value.0), r.value.1))
    case Message(fields) =>
      var r := Substream(input);
      if r.None? then None
      else
        var slots := if previous.Msg? && |previous.slots| == |fields| then previous.slots else Defaults(fields);
        var m := DecodeFields(fields, slots, {}, r.value.0);
        if m.None? then None else Some((Msg(m.value), r.value.1))
  }

  // The rest of a packed array.
  function DecodePacked(kind: Kind, slot: Slot, max: nat, input: seq<Byte>): Option<Slot>
    decreases kind, 1, |input|
  {
    if input == [] then Some(slot)
    else if |slot| >= max then None
    else
      var r := DecodeValue(kind, Default(kind), input);
      if r.None? then None else DecodePacked(kind, slot + [r.value.0], max, r.value.1)
  }

  // A field with this wire type, into its slot.
  function DecodeSlot(f: Field, slot: Slot, wire: nat, input: seq<Byte>): (r: Option<(Slot, seq<Byte>)>)
    ensures r.Some? ==> |r.value.1| < |input|
    decreases f, 0, 0
  {
    match f.rule
    case Repeated(max) =>
      if wire == 2 && Packable(f.kind) then
        var sub := Substream(input);
        if sub.None? then None
        else
          var all := DecodePacked(f.kind, slot, max, sub.value.0);
          if all.None? then None else Some((all.value, sub.value.1))
      else if |slot| >= max then None
      else
        var r := DecodeValue(f.kind, Default(f.kind), input);
        if r.None? then None else Some((slot + [r.value.0], r.value.1))
    case _ =>
      var r := DecodeValue(f.kind, if slot == [] then Default(f.kind) else slot[0], input);
      if r.None? then None else Some(([r.value.0], r.value.1))
  }

  function FindField(fields: seq<Field>, tag: nat): (i: Option<nat>)
    ensures i.Some? ==> i.value < |fields| && fields[i.value].tag == tag
    ensures i.None? ==> forall k :: 0 <= k < |fields| ==> fields[k].tag != tag
  {
    if fields == [] then None
    else if fields[|fields| - 1].tag == tag then Some(|fields| - 1)
    else FindField(fields[..|fields| - 1], tag)
  }

  // Fields that are not known are skipped.
  function Skip(wire: nat, input: seq<Byte>): (r: Option<seq<Byte>>)
    ensures r.Some? ==> |r.value| <= |input|
  {
    if wire == 0 then SkipVarint(input)
    else if wire == 1 then if |input| < 8 then None else Some(input[8..])
    else if wire == 5 then if |input| < 4 then None else Some(input[4..])
    else if wire == 2 then
      var r := Substream(input);
      if r.None? then None else Some(r.value.1)
    else None
  }

  function SkipVarint(input: seq<Byte>): (r: Option<seq<Byte>>)
    ensures r.Some? ==> |r.value| <= |input|
  {
    if input == [] then None else if input[0] < 128 then Some(input[1..]) else SkipVarint(input[1..])
  }

  // At most 64 required fields are checked.
  const MAX_REQUIRED := 64

  function RequiredBefore(fields: seq<Field>, i: nat): nat
    requires i <= |fields|
  {
    if i == 0 then 0 else RequiredBefore(fields, i - 1) + if fields[i - 1].rule.Required? then 1 else 0
  }

  predicate AllSeen(fields: seq<Field>, seen: set<nat>) {
    forall i :: 0 <= i < |fields| && fields[i].rule.Required? && RequiredBefore(fields, i) < MAX_REQUIRED ==> i in seen
  }

  // Setting a member of a union clears the others.
  function Put(fields: seq<Field>, slots: seq<Slot>, i: nat, slot: Slot): (r: seq<Slot>)
    requires |slots| == |fields| && i < |fields|
    ensures |r| == |slots|
  {
    seq(|slots|, k requires 0 <= k < |slots| =>
      if k == i then slot
      else if fields[i].rule.OneOf? && fields[k].rule == fields[i].rule then [] else slots[k])
  }

  // pb_decode_noinit
  function DecodeFields(fields: seq<Field>, slots: seq<Slot>, seen: set<nat>, input: seq<Byte>): (r: Option<seq<Slot>>)
    requires |slots| == |fields|
    ensures r.Some? ==> |r.value| == |fields|
    decreases fields, 1, |input|
  {
    var done := if AllSeen(fields, seen) then Some(slots) else None;
    if input == [] then done
    else
      var key := Varint32(input);
      if key.None? then None
      else if key.value.0 == 0 then done
      else
        var tag, wire, rest := key.value.0 / 8, key.value.0 % 8, key.value.1;
        var i := FindField(fields, tag);
        if i.None? then
          var after := Skip(wire, rest);
          if after.None? then None else DecodeFields(fields, slots, seen, after.value)
        else
          var r := DecodeSlot(fields[i.value], slots[i.value], wire, rest);
          if r.None? then None
          else DecodeFields(fields, Put(fields, slots, i.value, r.value.0), seen + {i.value}, r.value.1)
  }

  function Decode(fields: seq<Field>, input: seq<Byte>): Option<seq<Slot>> {
    DecodeFields(fields, Defaults(fields), {}, input)
  }

  // ---- Decoding undoes encoding ----

  // Tags are small enough for 32 bits, not zero, and different.
  ghost predicate Described(fields: seq<Field>)
    decreases fields
  {
    && (forall i :: 0 <= i < |fields| ==> FieldDescribed(fields[i]))
    && (forall i, j :: 0 <= i < j < |fields| ==> fields[i].tag != fields[j].tag)
  }

  ghost predicate FieldDescribed(f: Field)
    decreases f
  {
    0 < f.tag < 0x2000_0000 && KindDescribed(f.kind)
  }

  ghost predicate KindDescribed(kind: Kind)
    decreases kind
  {
    kind.Message? ==> Described(kind.fields)
  }

  lemma Varint32Back(n: nat, rest: seq<Byte>)
    requires n < WORD
    ensures Varint32(Varint(n) + rest) == Some((n, rest))
  {
    assert Pow(128, 10) == Pow(128, 5) * Pow(128, 5);
    assert Pow(128, 5) == 0x8_0000_0000;
    VarintRoundTrip(n, 10, rest);
  }

  lemma Varint64Back(n: nat, rest: seq<Byte>)
    requires n < WORD64
    ensures Varint64(Varint(n) + rest) == Some((n, rest))
  {
    assert Pow(128, 10) == Pow(128, 5) * Pow(128, 5);
    assert Pow(128, 5) == 0x8_0000_0000;
    VarintRoundTrip(n, 10, rest);
  }

  lemma SubstreamBack(s: seq<Byte>, rest: seq<Byte>)
    requires |s| < WORD
    ensures Substream(Prefixed(s) + rest) == Some((s, rest))
  {
    hide Varint, Varint32;
    assert Prefixed(s) + rest == Varint(|s|) + (s + rest);
    Varint32Back(|s|, s + rest);
  }

  lemma SignedBack(bits: nat, n: int)
    requires bits in {8, 16, 32, 64} && -Limit(bits) <= n < Limit(bits)
    ensures 0 <= Unsigned(n) < WORD64 && Clamped(bits, Unsigned(n)) == Some(n)
    ensures 0 <= ZigZag(n) < WORD64 && UnZigZag(ZigZag(n)) == n
  {
  }

  // Numbers.
  lemma NumberBack(kind: Kind, v: Value, previous: Value, rest: seq<Byte>)
    requires Packable(kind) && Fits(kind, v)
    ensures DecodeValue(kind, previous, EncodeValue(kind, v) + rest) == Some((v, rest))
    ensures EncodeValue(kind, v) != []
  {
    hide Varint, Varint32, Varint64, Fixed, DecodeFixed, Clamped, ZigZag, UnZigZag;
    match kind
    case Bool => Varint32Back(v.n, rest);
    case Int(bits) =>
      SignedBack(bits, v.n);
      Varint64Back(Unsigned(v.n), rest);
    case UInt(bits) => Varint64Back(v.n, rest);
    case SInt(bits) =>
      SignedBack(bits, v.n);
      Varint64Back(ZigZag(v.n), rest);
    case Fixed32 =>
      Fixed32RoundTrip(v.n);
      assert (Fixed(v.n, 4) + rest)[..4] == Fixed(v.n, 4) && (Fixed(v.n, 4) + rest)[4..] == rest;
    case Fixed64 =>
      Fixed64RoundTrip(v.n);
      assert (Fixed(v.n, 8) + rest)[..8] == Fixed(v.n, 8) && (Fixed(v.n, 8) + rest)[8..] == rest;
  }

  // The encoding of the fields from i on.
  function EncodeFrom(fields: seq<Field>, slots: seq<Slot>, i: nat): seq<Byte>
    requires MessageFits(fields, slots) && i <= |fields|
    decreases |fields| - i
  {
    if i == |fields| then [] else EncodeSlot(fields[i], slots[i]) + EncodeFrom(fields, slots, i + 1)
  }

  lemma {:induction false} FrontAndRest(fields: seq<Field>, slots: seq<Slot>, i: nat)
    requires MessageFits(fields, slots) && i <= |fields|
    ensures MessageFits(fields[..i], slots[..i])
    ensures EncodeMessage(fields, slots) == EncodeMessage(fields[..i], slots[..i]) + EncodeFrom(fields, slots, i)
    decreases |fields| - i
  {
    hide EncodeSlot, SlotFits;
    if i == |fields| {
      assert fields[..i] == fields && slots[..i] == slots;
    } else {
      FrontAndRest(fields, slots, i + 1);
      assert fields[..i + 1][..i] == fields[..i] && slots[..i + 1][..i] == slots[..i];
    }
  }

  // The slots after the first i fields: those are decoded, the others still
  // have their defaults.
  ghost function After(fields: seq<Field>, slots: seq<Slot>, i: nat): (r: seq<Slot>)
    requires |slots| == |fields| && i <= |fields|
    ensures |r| == |fields|
  {
    slots[..i] + Defaults(fields)[i..]
  }

  lemma {:induction false} DefaultAt(fields: seq<Field>, i: nat)
    requires i < |fields|
    ensures Defaults(fields)[i] == DefaultSlot(fields[i])
  {
    hide DefaultSlot;
    if i < |fields| - 1 {
      DefaultAt(fields[..|fields| - 1], i);
    }
  }

  lemma {:induction false} FindsField(fields: seq<Field>, i: nat)
    requires i < |fields| && forall j, k :: 0 <= j < k < |fields| ==> fields[j].tag != fields[k].tag
    ensures FindField(fields, fields[i].tag) == Some(i)
  {
    if i < |fields| - 1 {
      FindsField(fields[..|fields| - 1], i);
    }
  }

  // One field of the input.
  lemma OneField(fields: seq<Field>, slots: seq<Slot>, seen: set<nat>, i: nat, wire: nat, body: seq<Byte>,
                 slot: Slot, rest: seq<Byte>)
    requires Described(fields) && |slots| == |fields| && i < |fields| && wire < 8
    requires DecodeSlot(fields[i], slots[i], wire, body) == Some((slot, rest))
    ensures DecodeFields(fields, slots, seen, Tag(fields[i].tag, wire) + body) ==
              DecodeFields(fields, Put(fields, slots, i, slot), seen + {i}, rest)
  {
    hide Varint, Varint32, DecodeSlot, FindField, AllSeen, Put;
    assert FieldDescribed(fields[i]);
    var key := 8 * fields[i].tag + wire;
    assert key / 8 == fields[i].tag && key % 8 == wire;
    Varint32Back(key, body);
    FindsField(fields, i);
    SomeBytes(key, body);
  }

  lemma SomeBytes(key: nat, body: seq<Byte>)
    ensures Varint(key) + body != []
  {
  }

  // A field that is not repeated.
  lemma PutSingle(fields: seq<Field>, slots: seq<Slot>, i: nat)
    requires MessageFits(fields, slots) && i < |fields| && slots[i] != []
    ensures Put(fields, After(fields, slots, i), i, slots[i]) == After(fields, slots, i + 1)
  {
    hide SlotFits, Defaults, DefaultSlot;
    var before, after := After(fields, slots, i), After(fields, slots, i + 1);
    forall k | 0 <= k < |fields|
      ensures Put(fields, before, i, slots[i])[k] == after[k]
    {
      DefaultAt(fields, k);
      UnionSlot(fields, k);
    }
  }

  lemma UnionSlot(fields: seq<Field>, k: nat)
    requires k < |fields|
    ensures fields[k].rule.OneOf? ==> DefaultSlot(fields[k]) == []
  {
  }

  // ---- Packed arrays ----

  function PackedFrom(kind: Kind, slot: Slot, k: nat): seq<Byte>
    requires (forall j :: 0 <= j < |slot| ==> Fits(kind, slot[j])) && k <= |slot|
    decreases |slot| - k
  {
    if k == |slot| then [] else EncodeValue(kind, slot[k]) + PackedFrom(kind, slot, k + 1)
  }

  lemma {:induction false} PackedIs(kind: Kind, slot: Slot, k: nat)
    requires (forall j :: 0 <= j < |slot| ==> Fits(kind, slot[j])) && k <= |slot|
    ensures EncodePacked(kind, slot) == EncodePacked(kind, slot[..k]) + PackedFrom(kind, slot, k)
    decreases |slot| - k
  {
    hide EncodeValue, Fits;
    if k == |slot| {
      assert slot[..k] == slot;
    } else {
      PackedIs(kind, slot, k + 1);
      assert slot[..k + 1][..k] == slot[..k];
    }
  }

  lemma {:induction false} PackedBack(kind: Kind, slot: Slot, k: nat, max: nat)
    requires Packable(kind) && (forall j :: 0 <= j < |slot| ==> Fits(kind, slot[j])) && k <= |slot| <= max
    ensures DecodePacked(kind, slot[..k], max, PackedFrom(kind, slot, k)) == Some(slot)
    decreases |slot| - k
  {
    hide EncodeValue, DecodeValue, Fits, Default;
    if k == |slot| {
      assert slot[..k] == slot;
    } else {
      var rest := PackedFrom(kind, slot, k + 1);
      NumberBack(kind, slot[k], Default(kind), rest);
      PackedBack(kind, slot, k + 1, max);
      assert slot[..k] + [slot[k]] == slot[..k + 1];
    }
  }

  lemma PackedSlotBack(f: Field, slot: Slot, tail: seq<Byte>)
    requires SlotFits(f, slot) && f.rule.Repeated? && Packable(f.kind)
    requires |EncodePacked(f.kind, slot)| < WORD
    ensures DecodeSlot(f, [], 2, Prefixed(EncodePacked(f.kind, slot)) + tail) == Some((slot, tail))
  {
    hide Prefixed, Substream, DecodePacked, EncodePacked, PackedFrom, Fits;
    SubstreamBack(EncodePacked(f.kind, slot), tail);
    PackedIs(f.kind, slot, 0);
    PackedBack(f.kind, slot, 0, f.rule.max);
    NonePacked(f.kind);
    assert slot[..0] == [];
    assert EncodePacked(f.kind, slot) == PackedFrom(f.kind, slot, 0);
  }

  lemma NonePacked(kind: Kind)
    ensures EncodePacked(kind, []) == []
  {
  }

  // ---- Values, slots and messages ----

  lemma {:induction false} ValueBack(kind: Kind, v: Value, previous: Value, rest: seq<Byte>)
    requires KindDescribed(kind) && Fits(kind, v) && |EncodeValue(kind, v)| < WORD
    requires kind.Message? ==> previous == Default(kind)
    ensures DecodeValue(kind, previous, EncodeValue(kind, v) + rest) == Some((v, rest))
    decreases kind, 0, 0
  {
    hide Prefixed, Substream, DecodeFields, EncodeMessage, Defaults;
    match kind
    case Bytes(_) => SubstreamBack(v.bytes, rest);
    case Text(_) => SubstreamBack(v.bytes, rest);
    case FixedBytes(size) =>
      SubstreamBack(v.bytes, rest);
      assert size == 0 ==> v.bytes == seq(size, _ => 0);
    case Message(fields) =>
      PrefixedLength(EncodeMessage(fields, v.slots));
      MessageBack(fields, v.slots);
      SubstreamBack(EncodeMessage(fields, v.slots), rest);
    case _ => NumberBack(kind, v, previous, rest);
  }

  lemma PrefixedLength(s: seq<Byte>)
    ensures |Prefixed(s)| > |s|
  {
  }

  // A value of a field, behind its tag.
  lemma {:induction false} OneValueBack(f: Field, slot: Slot, v: Value, tail: seq<Byte>)
    requires FieldDescribed(f) && Fits(f.kind, v) && |EncodeValue(f.kind, v)| < WORD
    requires f.rule.Repeated? ==> |slot| < f.rule.max && !Packable(f.kind)
    requires !f.rule.Repeated? ==> slot == DefaultSlot(f)
    ensures DecodeSlot(f, slot, WireType(f.kind), EncodeValue(f.kind, v) + tail) ==
              Some((if f.rule.Repeated? then slot + [v] else [v], tail))
    decreases f, 0, 0
  {
    hide EncodeValue, DecodeValue, Fits, Default;
    ValueBack(f.kind, v, if f.rule.Repeated? || slot == [] then Default(f.kind) else slot[0], tail);
  }

  function EachFrom(f: Field, slot: Slot, k: nat): seq<Byte>
    requires (forall j :: 0 <= j < |slot| ==> Fits(f.kind, slot[j])) && k <= |slot|
    decreases |slot| - k
  {
    if k == |slot| then []
    else Tag(f.tag, WireType(f.kind)) + EncodeValue(f.kind, slot[k]) + EachFrom(f, slot, k + 1)
  }

  lemma {:induction false} EachIs(f: Field, slot: Slot, k: nat)
    requires (forall j :: 0 <= j < |slot| ==> Fits(f.kind, slot[j])) && k <= |slot|
    ensures EncodeEach(f, slot) == EncodeEach(f, slot[..k]) + EachFrom(f, slot, k)
    decreases |slot| - k
  {
    hide EncodeValue, Fits, Tag, WireType;
    if k == |slot| {
      assert slot[..k] == slot;
    } else {
      EachIs(f, slot, k + 1);
      assert slot[..k + 1][..k] == slot[..k];
    }
  }

  // The elements of a repeated field from k on, one after the other.
  lemma {:induction false} EachBack(fields: seq<Field>, slots: seq<Slot>, i: nat, k: nat, seen: set<nat>,
                                    tail: seq<Byte>)
    requires MessageFits(fields, slots) && Described(fields) && i < |fields| && k < |slots[i]|
    requires SlotFits(fields[i], slots[i]) && fields[i].rule.Repeated? && !Packable(fields[i].kind)
    requires |EachFrom(fields[i], slots[i], k)| < WORD
    ensures DecodeFields(fields, After(fields, slots, i)[i := slots[i][..k]], seen,
                         EachFrom(fields[i], slots[i], k) + tail) ==
              DecodeFields(fields, After(fields, slots, i + 1), seen + {i}, tail)
    decreases fields, 0, |slots[i]| - k
  {
    hide EncodeValue, DecodeFields, DecodeSlot, Tag, WireType, Packable;
    var f, slot := fields[i], slots[i];
    var now := After(fields, slots, i)[i := slot[..k]];
    var next := After(fields, slots, i)[i := slot[..k + 1]];
    var rest := EachFrom(f, slot, k + 1) + tail;
    assert SlotFits(f, slot) && FieldDescribed(f);
    assert EachFrom(f, slot, k) + tail == Tag(f.tag, WireType(f.kind)) + (EncodeValue(f.kind, slot[k]) + rest);
    OneValueBack(f, slot[..k], slot[k], rest);
    assert slot[..k] + [slot[k]] == slot[..k + 1];
    WireFits(f.kind);
    OneField(fields, now, seen, i, WireType(f.kind), EncodeValue(f.kind, slot[k]) + rest, slot[..k + 1], rest);
    assert Put(fields, now, i, slot[..k + 1]) == next;
    if k + 1 < |slot| {
      EachBack(fields, slots, i, k + 1, seen + {i}, tail);
      assert seen + {i} + {i} == seen + {i};
    } else {
      assert slot[..k + 1] == slot && EachFrom(f, slot, k + 1) + tail == tail;
      NextSlot(fields, slots, i);
    }
  }

  lemma WireFits(kind: Kind)
    ensures WireType(kind) < 8
  {
  }

  lemma NextSlot(fields: seq<Field>, slots: seq<Slot>, i: nat)
    requires |slots| == |fields| && i < |fields|
    ensures After(fields, slots, i)[i := slots[i]] == After(fields, slots, i + 1)
    ensures After(fields, slots, i)[i] == DefaultSlot(fields[i])
  {
    hide DefaultSlot, Defaults;
    DefaultAt(fields, i);
  }

  lemma PackedSlot(fields: seq<Field>, slots: seq<Slot>, i: nat, seen: set<nat>, tail: seq<Byte>)
    requires |slots| == |fields|
    requires MessageFits(fields, slots) && Described(fields) && i < |fields| && slots[i] != []
    requires SlotFits(fields[i], slots[i]) && fields[i].rule.Repeated? && Packable(fields[i].kind)
    requires |EncodeSlot(fields[i], slots[i])| < WORD
    ensures DecodeFields(fields, After(fields, slots, i), seen, EncodeSlot(fields[i], slots[i]) + tail) ==
              DecodeFields(fields, After(fields, slots, i + 1), seen + {i}, tail)
  {
    hide EncodeValue, DecodeFields, DecodeSlot, Tag, WireType, EncodePacked, Packable, Put, Prefixed, Described, Fits;
    hide After, MessageFits;
    var f, slot := fields[i], slots[i];
    NextSlot(fields, slots, i);
    var body := Prefixed(EncodePacked(f.kind, slot)) + tail;
    PrefixedLength(EncodePacked(f.kind, slot));
    PackedSlotBack(f, slot, tail);
    OneField(fields, After(fields, slots, i), seen, i, 2, body, slot, tail);
    PutSingle(fields, slots, i);
    assert EncodeSlot(f, slot) + tail == Tag(f.tag, 2) + body;
  }

  lemma {:induction false} SingleSlot(fields: seq<Field>, slots: seq<Slot>, i: nat, seen: set<nat>, tail: seq<Byte>)
    requires |slots| == |fields|
    requires MessageFits(fields, slots) && Described(fields) && i < |fields| && |slots[i]| == 1
    requires SlotFits(fields[i], slots[i]) && FieldDescribed(fields[i]) && !fields[i].rule.Repeated?
    requires |EncodeSlot(fields[i], slots[i])| < WORD
    ensures DecodeFields(fields, After(fields, slots, i), seen, EncodeSlot(fields[i], slots[i]) + tail) ==
              DecodeFields(fields, After(fields, slots, i + 1), seen + {i}, tail)
    decreases fields, 0, 0
  {
    hide EncodeValue, DecodeFields, DecodeSlot, Tag, WireType, Packable, Put, Described, Fits, FieldDescribed;
    hide After, MessageFits;
    var f, slot := fields[i], slots[i];
    var v := slot[0];
    assert slot == [v];
    NextSlot(fields, slots, i);
    EachIs(f, slot, 0);
    NoneEach(f, slot);
    assert EachFrom(f, slot, 0) == Tag(f.tag, WireType(f.kind)) + EncodeValue(f.kind, v);
    var body := EncodeValue(f.kind, v) + tail;
    OneValueBack(f, DefaultSlot(f), v, tail);
    WireFits(f.kind);
    OneField(fields, After(fields, slots, i), seen, i, WireType(f.kind), body, slot, tail);
    PutSingle(fields, slots, i);
    assert EncodeSlot(f, slot) + tail == Tag(f.tag, WireType(f.kind)) + body;
  }

  // One slot that is not empty.
  lemma {:induction false} SlotBack(fields: seq<Field>, slots: seq<Slot>, i: nat, seen: set<nat>, tail: seq<Byte>)
    requires |slots| == |fields|
    requires MessageFits(fields, slots) && Described(fields) && i < |fields| && slots[i] != []
    requires SlotFits(fields[i], slots[i]) && FieldDescribed(fields[i])
    requires |EncodeSlot(fields[i], slots[i])| < WORD
    ensures DecodeFields(fields, After(fields, slots, i), seen, EncodeSlot(fields[i], slots[i]) + tail) ==
              DecodeFields(fields, After(fields, slots, i + 1), seen + {i}, tail)
    decreases fields, 1, 0
  {
    hide EncodeValue, DecodeFields, Tag, WireType, Packable, Described, Fits, FieldDescribed, MessageFits;
    var f, slot := fields[i], slots[i];
    if f.rule.Repeated? && Packable(f.kind) {
      PackedSlot(fields, slots, i, seen, tail);
    } else if f.rule.Repeated? {
      EachIs(f, slot, 0);
      NoneEach(f, slot);
      assert EncodeEach(f, slot) == EachFrom(f, slot, 0);
      EachBack(fields, slots, i, 0, seen, tail);
      RepeatedStart(fields, slots, i);
    } else {
      SingleSlot(fields, slots, i, seen, tail);
    }
  }

  lemma RepeatedStart(fields: seq<Field>, slots: seq<Slot>, i: nat)
    requires |slots| == |fields| && i < |fields| && fields[i].rule.Repeated?
    ensures After(fields, slots, i)[i := slots[i][..0]] == After(fields, slots, i)
  {
    NextSlot(fields, slots, i);
  }

  lemma NoneEach(f: Field, slot: Slot)
    ensures EncodeEach(f, slot[..0]) == []
  {
  }

  // The fields from i on, into what the others have left.
  lemma {:induction false} FieldsBack(fields: seq<Field>, slots: seq<Slot>, i: nat, seen: set<nat>)
    requires MessageFits(fields, slots) && Described(fields) && i <= |fields|
    requires |EncodeFrom(fields, slots, i)| < WORD
    requires forall j :: 0 <= j < i && fields[j].rule.Required? ==> j in seen
    ensures DecodeFields(fields, After(fields, slots, i), seen, EncodeFrom(fields, slots, i)) == Some(slots)
    decreases fields, 2, |fields| - i
  {
    hide EncodeSlot, Described, FieldDescribed, DecodeSlot;
    if i == |fields| {
      assert After(fields, slots, i) == slots;
    } else {
      var tail := EncodeFrom(fields, slots, i + 1);
      if slots[i] == [] {
        EmptySlot(fields, slots, i);
        assert EncodeFrom(fields, slots, i) == tail;
        FieldsBack(fields, slots, i + 1, seen);
      } else {
        FieldIs(fields, slots, i);
        SlotBack(fields, slots, i, seen, tail);
        FieldsBack(fields, slots, i + 1, seen + {i});
      }
    }
  }

  lemma FieldIs(fields: seq<Field>, slots: seq<Slot>, i: nat)
    requires MessageFits(fields, slots) && Described(fields) && i < |fields|
    ensures SlotFits(fields[i], slots[i]) && FieldDescribed(fields[i])
  {
  }

  lemma EmptySlot(fields: seq<Field>, slots: seq<Slot>, i: nat)
    requires MessageFits(fields, slots) && i < |fields| && slots[i] == []
    ensures EncodeSlot(fields[i], slots[i]) == [] && !fields[i].rule.Required?
    ensures After(fields, slots, i) == After(fields, slots, i + 1)
  {
    assert SlotFits(fields[i], slots[i]);
    NextSlot(fields, slots, i);
    assert After(fields, slots, i)[i := []] == After(fields, slots, i);
  }

  // pb_decode of pb_encode's output is the message.
  lemma {:induction false} MessageBack(fields: seq<Field>, slots: seq<Slot>)
    requires MessageFits(fields, slots) && Described(fields) && |EncodeMessage(fields, slots)| < WORD
    ensures Decode(fields, EncodeMessage(fields, slots)) == Some(slots)
    decreases fields, 3, 0
  {
    hide EncodeSlot, Described, DecodeFields;
    FrontAndRest(fields, slots, 0);
    assert fields[..0] == [] && slots[..0] == [];
    NoFields();
    assert After(fields, slots, 0) == Defaults(fields);
    assert EncodeMessage(fields, slots) == EncodeFrom(fields, slots, 0);
    FieldsBack(fields, slots, 0, {});
  }

  lemma NoFields()
    ensures MessageFits([], []) && EncodeMessage([], []) == []
  {
  }
}
