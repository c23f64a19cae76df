// WriteBatch: operations as bytes (db/write_batch.cc).
module WriteBatches {
  import opened Keys
  import opened Store
  import opened Coding
  import opened Machine
  import opened Options
  import Recovery

  // sequence: fixed64, count: fixed32
  const HEADER := 12

  datatype Fault = TooSmall | BadPut | BadDelete | UnknownTag | WrongCount

  // The operations before the first fault, which the handler has been given.
  datatype Parsed = Parsed(ops: seq<Op>, fault: Option<Fault>)

  // A deletion has no value, and lengths are written in 32 bits.
  predicate WellFormed(op: Op) {
    && |op.user| < 0x1_0000_0000
    && |op.value| < 0x1_0000_0000
    && (op.kind.Deletion? ==> op.value == [])
  }

  function EncodeOp(op: Op): seq<Byte> {
    match op.kind
    case Value => [1] + Prefixed(op.user) + Prefixed(op.value)
    case Deletion => [0] + Prefixed(op.user)
  }

  function Encode(ops: seq<Op>): seq<Byte> {
    if ops == [] then [] else Encode(ops[..|ops| - 1]) + EncodeOp(ops[|ops| - 1])
  }

  // One record, and the bytes after it.
  function ParseOp(data: seq<Byte>): (r: (Option<Op>, Option<Fault>, seq<Byte>))
    requires data != []
    ensures r.0.Some? <==> r.1.None?
    ensures r.0.Some? ==> |r.2| < |data|
  {
    var key := GetPrefixed(data[1..]);
    if data[0] == 1 then
      if key.None? then (None, Some(BadPut), [])
      else
        var value := GetPrefixed(key.value.1);
        if value.None? then (None, Some(BadPut), [])
        else (Some(Op(key.value.0, Value, value.value.0)), None, value.value.1)
    else if data[0] == 0 then
      if key.None? then (None, Some(BadDelete), [])
      else (Some(Op(key.value.0, Deletion, [])), None, key.value.1)
    else (None, Some(UnknownTag), [])
  }

  function Parse(data: seq<Byte>): Parsed
    decreases |data|
  {
    if data == [] then Parsed([], None)
    else
      var (op, fault, rest) := ParseOp(data);
      if op.None? then Parsed([], fault)
      else
        var others := Parse(rest);
        Parsed([op.value] + others.ops, others.fault)
  }

  lemma ParseOpRoundTrip(op: Op, rest: seq<Byte>)
    requires WellFormed(op)
    ensures ParseOp(EncodeOp(op) + rest) == (Some(op), None, rest)
  {
    var data := EncodeOp(op) + rest;
    match op.kind
    case Value =>
      assert data[1..] == Prefixed(op.user) + (Prefixed(op.value) + rest);
      PrefixedRoundTrip(op.user, Prefixed(op.value) + rest);
      PrefixedRoundTrip(op.value, rest);
    case Deletion =>
      assert data[1..] == Prefixed(op.user) + rest;
      PrefixedRoundTrip(op.user, rest);
  }

  lemma {:induction false} EncodeFront(op: Op, ops: seq<Op>)
    ensures Encode([op] + ops) == EncodeOp(op) + Encode(ops)
  {
    hide EncodeOp;
    var all := [op] + ops;
    if ops == [] {
      assert all[..0] == [];
    } else {
      assert all[..|all| - 1] == [op] + ops[..|ops| - 1];
      EncodeFront(op, ops[..|ops| - 1]);
    }
  }

  lemma EncodeBack(ops: seq<Op>, op: Op)
    ensures Encode(ops + [op]) == Encode(ops) + EncodeOp(op)
    ensures op.kind.Value? ==> EncodeOp(op) == [1] + Prefixed(op.user) + Prefixed(op.value)
    ensures op.kind.Deletion? ==> EncodeOp(op) == [0] + Prefixed(op.user)
  {
    assert (ops + [op])[..|ops|] == ops;
  }

  // What was put in comes out, in order; bytes appended later are read after it.
  lemma {:induction false} ParseEncoded(ops: seq<Op>, rest: seq<Byte>)
    requires forall op :: op in ops ==> WellFormed(op)
    ensures Parse(Encode(ops) + rest) == Parsed(ops + Parse(rest).ops, Parse(rest).fault)
  {
    hide EncodeOp, ParseOp;
    if ops == [] {
      assert Encode(ops) + rest == rest;
    } else {
      assert ops == [ops[0]] + ops[1..];
      EncodeFront(ops[0], ops[1..]);
      assert Encode(ops) + rest == EncodeOp(ops[0]) + (Encode(ops[1..]) + rest);
      ParseOpRoundTrip(ops[0], Encode(ops[1..]) + rest);
      ParseEncoded(ops[1..], rest);
    }
  }

  lemma ParsesBack(ops: seq<Op>)
    requires forall op :: op in ops ==> WellFormed(op)
    ensures Parse(Encode(ops)) == Parsed(ops, None)
  {
    ParseEncoded(ops, []);
    assert Encode(ops) + [] == Encode(ops);
    assert ops + [] == ops;
  }

  lemma {:induction false} EncodeJoined(a: seq<Op>, b: seq<Op>)
    ensures Encode(a + b) == Encode(a) + Encode(b)
  {
    hide EncodeOp;
    if b == [] {
      assert a + b == a;
    } else {
      var all := a + b;
      assert all[..|all| - 1] == a + b[..|b| - 1];
      EncodeJoined(a, b[..|b| - 1]);
    }
  }

  // ByteSize of a batch with these operations.
  function ByteSize(ops: seq<Op>): nat {
    HEADER + |Encode(ops)|
  }

  lemma Sections<T>(s: seq<T>, a: seq<T>, b: seq<T>, c: seq<T>)
    requires s == a + b + c
    ensures s[..|a|] == a && s[|a|..|a| + |b|] == b && s[|a| + |b|..] == c
    ensures s[|a|..] == b + c
  {
  }

  class WriteBatch {
    var rep: seq<Byte>
    ghost var first: nat
    ghost var ops: seq<Op>

    ghost predicate Valid()
      reads this
    {
      && (forall op :: op in ops ==> WellFormed(op))
      && |ops| < 0x1_0000_0000
      && rep == Fixed(first, 8) + Fixed(|ops|, 4) + Encode(ops)
    }

    constructor ()
      ensures Valid() && ops == []
    {
      rep := Fixed(0, 8) + Fixed(0, 4);
      first, ops := 0, [];
    }

    method Clear()
      modifies this
      ensures Valid() && ops == []
    {
      rep := Fixed(0, 8) + Fixed(0, 4);
      first, ops := 0, [];
    }

    method Count() returns (n: nat)
      requires Valid()
      ensures n == |ops|
    {
      Fixed32RoundTrip(|ops|);
      assert rep[8..12] == Fixed(|ops|, 4);
      n := DecodeFixed(rep[8..12]);
    }

    method Sequence() returns (n: nat)
      requires Valid() && first < 0x1_0000_0000_0000_0000
      ensures n == first
    {
      Fixed64RoundTrip(first);
      assert rep[..8] == Fixed(first, 8);
      n := DecodeFixed(rep[..8]);
    }

    method SetSequence(n: nat)
      requires Valid()
      modifies this
      ensures Valid() && first == n && ops == old(ops)
    {
      hide Fixed, Encode;
      Sections(rep, Fixed(first, 8), Fixed(|ops|, 4), Encode(ops));
      rep := Fixed(n, 8) + rep[8..];
      first := n;
    }

    // Count the record in the header, then append its bytes.
    method Put(key: seq<Byte>, value: seq<Byte>)
      requires Valid() && |ops| + 1 < 0x1_0000_0000
      requires |key| < 0x1_0000_0000 && |value| < 0x1_0000_0000
      modifies this
      ensures Valid() && ops == old(ops) + [Op(key, Value, value)] && first == old(first)
    {
      hide Prefixed, Fixed, Encode, EncodeOp;
      var n := Count();
      Sections(rep, Fixed(first, 8), Fixed(n, 4), Encode(ops));
      rep := rep[..8] + Fixed(n + 1, 4) + rep[12..];
      rep := rep + [1];
      rep := rep + Prefixed(key);
      rep := rep + Prefixed(value);
      EncodeBack(ops, Op(key, Value, value));
      ops := ops + [Op(key, Value, value)];
    }

    method Delete(key: seq<Byte>)
      requires Valid() && |ops| + 1 < 0x1_0000_0000 && |key| < 0x1_0000_0000
      modifies this
      ensures Valid() && ops == old(ops) + [Op(key, Deletion, [])] && first == old(first)
    {
      hide Prefixed, Fixed, Encode, EncodeOp;
      var n := Count();
      Sections(rep, Fixed(first, 8), Fixed(n, 4), Encode(ops));
      rep := rep[..8] + Fixed(n + 1, 4) + rep[12..];
      rep := rep + [0];
      rep := rep + Prefixed(key);
      EncodeBack(ops, Op(key, Deletion, []));
      ops := ops + [Op(key, Deletion, [])];
    }

    method Append(src: WriteBatch)
      requires Valid() && src.Valid() && |ops| + |src.ops| < 0x1_0000_0000
      modifies this
      ensures Valid() && ops == old(ops) + old(src.ops) && first == old(first)
    {
      hide Encode, Fixed;
      var n := Count();
      var m := src.Count();
      EncodeJoined(ops, src.ops);
      Sections(rep, Fixed(first, 8), Fixed(n, 4), Encode(ops));
      Sections(src.rep, Fixed(src.first, 8), Fixed(m, 4), Encode(src.ops));
      ghost var all := ops + src.ops;
      rep := rep[..8] + Fixed(n + m, 4) + rep[12..] + src.rep[12..];
      ops := all;
    }
  }

  // Feeds the operations to a handler; on a fault the ones before it have been
  // handled already.
  method Iterate(rep: seq<Byte>) returns (handled: seq<Op>, fault: Option<Fault>)
    ensures |rep| < HEADER ==> handled == [] && fault == Some(TooSmall)
    ensures |rep| >= HEADER ==>
              && handled == Parse(rep[HEADER..]).ops
              && fault == (if Parse(rep[HEADER..]).fault.Some? then Parse(rep[HEADER..]).fault
                           else if |handled| != DecodeFixed(rep[8..12]) then Some(WrongCount) else None)
  {
    hide ParseOp, DecodeFixed;
    handled, fault := [], None;
    if |rep| < HEADER {
      fault := Some(TooSmall);
      return;
    }
    var input := rep[HEADER..];
    var found := 0;
    while input != []
      invariant found == |handled|
      invariant Parse(rep[HEADER..]) == Parsed(handled + Parse(input).ops, Parse(input).fault)
      decreases |input|
    {
      found := found + 1;
      var (op, bad, rest) := ParseOp(input);
      if op.None? {
        fault := bad;
        return;
      }
      handled := handled + [op.value];
      input := rest;
    }
    if found != DecodeFixed(rep[8..12]) {
      fault := Some(WrongCount);
    }
  }

  // Applying a batch's bytes to a memtable adds the entries of its operations,
  // numbered from the batch's sequence number on.
  method InsertInto(b: WriteBatch, mem: set<Entry>) returns (r: set<Entry>, fault: Option<Fault>)
    requires b.Valid() && b.first < 0x1_0000_0000_0000_0000
    ensures fault.None? && r == mem + Batch(b.first, b.ops).Entries()
  {
    hide Parse, Encode, DecodeFixed, Fixed;
    var sequence := b.Sequence();
    var handled;
    assert b.rep[HEADER..] == Encode(b.ops);
    ParsesBack(b.ops);
    Fixed32RoundTrip(|b.ops|);
    assert b.rep[8..12] == Fixed(|b.ops|, 4);
    handled, fault := Iterate(b.rep);
    r := Recovery.AddBatch(Batch(sequence, handled), mem);
  }
}
