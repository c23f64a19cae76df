// Blocks of prefix-compressed pairs with restart points
// (table/block_builder.cc, table/block.cc).
module Blocks {
  import opened Keys
  import opened Coding
  import opened Options

  datatype Pair = Pair(key: seq<Byte>, value: seq<Byte>)

  // How many bytes two keys share at their front.
  function Common(a: seq<Byte>, b: seq<Byte>): (n: nat)
    ensures n <= |a| && n <= |b| && a[..n] == b[..n]
  {
    if a != [] && b != [] && a[0] == b[0] then 1 + Common(a[1..], b[1..]) else 0
  }

  function SharedAt(pairs: seq<Pair>, points: seq<nat>, i: nat): (n: nat)
    requires i < |pairs|
    ensures n <= |pairs[i].key|
    ensures n > 0 ==> i > 0 && n <= |pairs[i - 1].key| && pairs[i - 1].key[..n] == pairs[i].key[..n]
  {
    if i == 0 || i in points then 0 else Common(pairs[i - 1].key, pairs[i].key)
  }

  function PairBytes(pair: Pair, shared: nat): (bytes: seq<Byte>)
    requires shared <= |pair.key|
    ensures |bytes| >= 3 + |pair.key| - shared + |pair.value|
  {
    Varint(shared) + Varint(|pair.key| - shared) + Varint(|pair.value|) + pair.key[shared..] + pair.value
  }

  // The pairs with restart points at these indices.
  function Data(pairs: seq<Pair>, points: seq<nat>): seq<Byte> {
    if pairs == [] then []
    else
      var i := |pairs| - 1;
      Data(pairs[..i], points) + PairBytes(pairs[i], SharedAt(pairs, points, i))
  }

  function Offset(pairs: seq<Pair>, points: seq<nat>, i: nat): nat
    requires i <= |pairs|
  {
    |Data(pairs[..i], points)|
  }

  function Offsets(pairs: seq<Pair>, points: seq<nat>): (offsets: seq<nat>)
    requires forall k :: 0 <= k < |points| ==> points[k] <= |pairs|
    ensures |offsets| == |points|
  {
    seq(|points|, k requires 0 <= k < |points| => Offset(pairs, points, points[k]))
  }

  // The first pair is a restart point, and so is every interval-th after it.
  ghost predicate Spaced(points: seq<nat>, interval: nat, n: nat) {
    && points != [] && points[0] == 0
    && (forall k :: 0 < k < |points| ==> points[k] == points[k - 1] + interval)
    && (points[|points| - 1] < n || (n == 0 && |points| == 1))
  }

  ghost predicate Increasing(points: seq<nat>, n: nat) {
    && points != [] && points[0] == 0
    && (forall j, k :: 0 <= j < k < |points| ==> points[j] < points[k])
    && (forall k :: 0 < k < |points| ==> points[k] < n)
  }

  function BlockOf(pairs: seq<Pair>, points: seq<nat>): seq<Byte>
    requires forall k :: 0 <= k < |points| ==> points[k] <= |pairs|
  {
    Data(pairs, points) + Fixed32s(Offsets(pairs, points)) + Fixed(|points|, 4)
  }

  // ---- Building ----

  lemma {:induction false} LaterPoint(pairs: seq<Pair>, points: seq<nat>, m: nat)
    requires m >= |pairs|
    ensures Data(pairs, points + [m]) == Data(pairs, points)
  {
    hide PairBytes;
    if pairs != [] {
      LaterPoint(pairs[..|pairs| - 1], points, m);
      assert |pairs| - 1 in points + [m] <==> |pairs| - 1 in points;
    }
  }

  // A restart point where the next pair will be.
  lemma PointAdded(pairs: seq<Pair>, points: seq<nat>)
    requires forall k :: 0 <= k < |points| ==> points[k] <= |pairs|
    ensures var more := points + [|pairs|];
            && Data(pairs, more) == Data(pairs, points)
            && Offsets(pairs, more) == Offsets(pairs, points) + [|Data(pairs, points)|]
  {
    hide Data;
    var n := |pairs|;
    LaterPoint(pairs, points, n);
    assert pairs[..n] == pairs;
    forall k | 0 <= k < |points|
      ensures Offset(pairs, points + [n], points[k]) == Offset(pairs, points, points[k])
    {
      LaterPoint(pairs[..points[k]], points, n);
    }
  }

  lemma PairAdded(pairs: seq<Pair>, points: seq<nat>, pair: Pair)
    requires forall k :: 0 <= k < |points| ==> points[k] <= |pairs|
    ensures var more := pairs + [pair];
            && Data(more, points) == Data(pairs, points) + PairBytes(pair, SharedAt(more, points, |pairs|))
            && Offsets(more, points) == Offsets(pairs, points)
  {
    hide PairBytes;
    var more := pairs + [pair];
    assert more[..|pairs|] == pairs;
    forall k | 0 <= k < |points|
      ensures Offset(more, points, points[k]) == Offset(pairs, points, points[k])
    {
      assert more[..points[k]] == pairs[..points[k]];
    }
  }

  // Below the next restart point there is none.
  lemma LastPoint(points: seq<nat>, interval: nat, n: nat)
    requires Spaced(points, interval, n)
    ensures n > 0 ==> n !in points
    ensures Spaced(points, interval, n + 1)
    ensures points[|points| - 1] + interval == n && n > 0 ==> Spaced(points + [n], interval, n + 1)
  {
    if n in points {
      var j :| 0 <= j < |points| && points[j] == n;
      PointsAscend(points, interval, j);
    }
  }

  lemma SpacedIncreases(points: seq<nat>, interval: nat, n: nat)
    requires Spaced(points, interval, n) && interval >= 1
    ensures Increasing(points, n)
  {
    forall j, k | 0 <= j < k < |points|
      ensures points[j] < points[k] && points[k] < n
    {
      PointsAscend(points[..k], interval, j);
      assert points[k] == points[k - 1] + interval;
      PointsAscend(points, interval, k);
    }
  }

  lemma PointsKnown(points: seq<nat>, interval: nat, n: nat)
    requires Spaced(points, interval, n)
    ensures points != [] && (n == 0 ==> points == [0]) && (n > 0 ==> points[|points| - 1] < n)
  {
  }

  lemma NoneShared(key: seq<Byte>)
    ensures Common([], key) == 0
  {
  }

  lemma {:induction false} PointsAscend(points: seq<nat>, interval: nat, j: nat)
    requires points != [] && j < |points|
    requires forall k :: 0 < k < |points| ==> points[k] == points[k - 1] + interval
    ensures points[j] <= points[|points| - 1]
    decreases |points| - j
  {
    if j < |points| - 1 {
      PointsAscend(points, interval, j + 1);
      assert points[j + 1] == points[j] + interval;
    }
  }

  class BlockBuilder {
    const interval: nat      // block_restart_interval
    var buffer: seq<Byte>
    var restarts: seq<nat>
    var counter: nat
    var lastKey: seq<Byte>
    ghost var pairs: seq<Pair>
    ghost var points: seq<nat>

    ghost predicate Valid()
      reads this
    {
      && interval >= 1
      && Spaced(points, interval, |pairs|)
      && (forall k :: 0 <= k < |points| ==> points[k] <= |pairs|)
      && buffer == Data(pairs, points)
      && restarts == Offsets(pairs, points)
      && counter == |pairs| - points[|points| - 1] <= interval
      && lastKey == if pairs == [] then [] else pairs[|pairs| - 1].key
    }

    constructor (interval: nat)
      requires interval >= 1
      ensures Valid() && pairs == [] && this.interval == interval
    {
      this.interval := interval;
      buffer, restarts, counter, lastKey := [], [0], 0, [];
      pairs, points := [], [0];
    }

    method Reset()
      requires interval >= 1
      modifies this
      ensures Valid() && pairs == []
    {
      buffer, restarts, counter, lastKey := [], [0], 0, [];
      pairs, points := [], [0];
    }

    method Empty() returns (empty: bool)
      requires Valid()
      ensures empty <==> pairs == []
    {
      hide PairBytes, SharedAt;
      empty := buffer == [];
    }

    method CurrentSizeEstimate() returns (size: nat)
      requires Valid()
      ensures size == |Data(pairs, points)| + 4 * |points| + 4
    {
      size := |buffer| + 4 * |restarts| + 4;
    }

    method Add(key: seq<Byte>, value: seq<Byte>)
      requires Valid()
      modifies this
      ensures Valid() && pairs == old(pairs) + [Pair(key, value)]
    {
      hide Data, Offsets, Common, Spaced, PairBytes, SharedAt;
      ghost var pair := Pair(key, value);
      var shared := Share(key, value);
      PairAdded(pairs, points, pair);
      AppendPair(shared, key, value);
      lastKey := lastKey[..shared] + key[shared..];
      counter := counter + 1;
      pairs := pairs + [pair];
    }

    // How much of the key the previous one can supply: nothing at a restart.
    method Share(key: seq<Byte>, ghost value: seq<Byte>) returns (shared: nat)
      requires Valid()
      modifies this`restarts, this`counter, this`points
      ensures forall k :: 0 <= k < |points| ==> points[k] <= |pairs|
      ensures points != [] && Spaced(points, interval, |pairs| + 1)
      ensures buffer == Data(pairs, points) && restarts == Offsets(pairs, points)
      ensures counter == |pairs| - points[|points| - 1] < interval
      ensures shared <= |key| && shared == SharedAt(pairs + [Pair(key, value)], points, |pairs|)
      ensures shared <= |lastKey| && lastKey[..shared] + key[shared..] == key
    {
      hide Data, Offsets, Common, Spaced;
      ghost var n := |pairs|;
      PointsKnown(points, interval, n);
      LastPoint(points, interval, n);
      shared := 0;
      if counter < interval {
        shared := CommonLength(lastKey, key);
        NoneShared(key);
      } else {
        PointAdded(pairs, points);
        restarts := restarts + [|buffer|];
        counter := 0;
        points := points + [n];
      }
    }

    method AppendPair(shared: nat, key: seq<Byte>, value: seq<Byte>)
      requires shared <= |key|
      modifies this`buffer
      ensures buffer == old(buffer) + PairBytes(Pair(key, value), shared)
    {
      hide Varint;
      buffer := buffer + Varint(shared);
      buffer := buffer + Varint(|key| - shared);
      buffer := buffer + Varint(|value|);
      buffer := buffer + key[shared..];
      buffer := buffer + value;
    }

    method Finish() returns (block: seq<Byte>)
      requires Valid()
      modifies this`buffer
      ensures block == BlockOf(pairs, points)
      ensures |block| < WORD ==> Describes(block, pairs, points)
    {
      hide Data, Offsets, Offset;
      SpacedIncreases(points, interval, |pairs|);
      for i := 0 to |restarts|
        invariant buffer == Data(pairs, points) + Fixed32s(restarts[..i])
      {
        buffer := buffer + Fixed(restarts[i], 4);
        assert restarts[..i + 1][..i] == restarts[..i];
      }
      assert restarts[..|restarts|] == restarts;
      buffer := buffer + Fixed(|restarts|, 4);
      block := buffer;
    }
  }

  method CommonLength(a: seq<Byte>, b: seq<Byte>) returns (shared: nat)
    ensures shared == Common(a, b)
  {
    var minLength := if |a| < |b| then |a| else |b|;
    shared := 0;
    while shared < minLength && a[shared] == b[shared]
      invariant shared <= minLength
      invariant Common(a, b) == shared + Common(a[shared..], b[shared..])
    {
      assert a[shared..][1..] == a[shared + 1..] && b[shared..][1..] == b[shared + 1..];
      shared := shared + 1;
    }
  }

  // ---- Reading ----

  // Shared, unshared and value lengths, and the bytes behind them.
  datatype Lengths = Lengths(shared: nat, unshared: nat, value: nat, rest: seq<Byte>)

  function ThreeLengths(input: seq<Byte>): (r: Option<Lengths>)
    ensures r.Some? ==> |r.value.rest| + 3 <= |input|
  {
    GetVarintShrinks(input, 5);
    var a := GetVarint32(input);
    if a.None? then None
    else
      GetVarintShrinks(a.value.1, 5);
      var b := GetVarint32(a.value.1);
      if b.None? then None
      else
        GetVarintShrinks(b.value.1, 5);
        var c := GetVarint32(b.value.1);
        if c.None? then None else Some(Lengths(a.value.0, b.value.0, c.value.0, c.value.1))
  }

  // The lengths, if the bytes they promise are there.
  function EntryLengths(input: seq<Byte>): (r: Option<Lengths>)
    ensures r.Some? ==> |r.value.rest| + 3 <= |input|
  {
    var r := ThreeLengths(input);
    if r.None? || |r.value.rest| < r.value.unshared + r.value.value then None else r
  }

  // The fast path for three single bytes agrees with the general decoding.
  method DecodeEntry(input: seq<Byte>) returns (r: Option<Lengths>)
    ensures r == EntryLengths(input)
  {
    if |input| < 3 {
      return None;
    }
    var lengths: Lengths;
    if input[0] < 128 && input[1] < 128 && input[2] < 128 {
      OneByte(input);
      OneByte(input[1..]);
      OneByte(input[1..][1..]);
      assert input[1..][1..] == input[2..] && input[2..][1..] == input[3..];
      lengths := Lengths(input[0], input[1], input[2], input[3..]);
    } else {
      var decoded := ThreeLengths(input);
      if decoded.None? {
        return None;
      }
      lengths := decoded.value;
    }
    if |lengths.rest| < lengths.unshared + lengths.value {
      return None;
    }
    r := Some(lengths);
  }

  lemma OneByte(input: seq<Byte>)
    requires input != [] && input[0] < 128
    ensures GetVarint32(input) == Some((input[0] as nat, input[1..]))
  {
  }

  lemma LengthsRoundTrip(pair: Pair, shared: nat, rest: seq<Byte>)
    requires shared <= |pair.key| < WORD && |pair.key| - shared + |pair.value| < WORD
    ensures EntryLengths(PairBytes(pair, shared) + rest) ==
              Some(Lengths(shared, |pair.key| - shared, |pair.value|, pair.key[shared..] + pair.value + rest))
  {
    hide Varint, GetVarint32;
    var tail := pair.key[shared..] + pair.value + rest;
    var c := Varint(|pair.value|) + tail;
    var b := Varint(|pair.key| - shared) + c;
    assert PairBytes(pair, shared) + rest == Varint(shared) + b;
    Varint32RoundTrip(shared, b);
    Varint32RoundTrip(|pair.key| - shared, c);
    Varint32RoundTrip(|pair.value|, tail);
  }

  // Pair i is where its offset says.
  lemma {:induction false} PairIsThere(pairs: seq<Pair>, points: seq<nat>, i: nat)
    requires i < |pairs|
    ensures Offset(pairs, points, i) + |PairBytes(pairs[i], SharedAt(pairs, points, i))| == Offset(pairs, points, i + 1)
    ensures Offset(pairs, points, i + 1) <= |Data(pairs, points)|
    ensures Data(pairs, points)[Offset(pairs, points, i)..Offset(pairs, points, i + 1)] ==
              PairBytes(pairs[i], SharedAt(pairs, points, i))
  {
    hide PairBytes;
    var front := pairs[..|pairs| - 1];
    if i == |pairs| - 1 {
      assert pairs[..i] == front && pairs[..i + 1] == pairs;
    } else {
      assert front[..i] == pairs[..i] && front[..i + 1] == pairs[..i + 1];
      PairIsThere(front, points, i);
    }
  }

  lemma {:induction false} OffsetsAscend(pairs: seq<Pair>, points: seq<nat>, i: nat, j: nat)
    requires i <= j <= |pairs|
    ensures i < j ==> Offset(pairs, points, i) + 3 <= Offset(pairs, points, j)
    ensures Offset(pairs, points, |pairs|) == |Data(pairs, points)|
    decreases j - i
  {
    hide PairBytes, Data;
    assert pairs[..|pairs|] == pairs;
    if i < j {
      PairIsThere(pairs, points, i);
      OffsetsAscend(pairs, points, i + 1, j);
    }
  }

  // ---- The iterator ----

  // A block of these pairs that 32-bit offsets can describe.
  ghost predicate Describes(data: seq<Byte>, pairs: seq<Pair>, points: seq<nat>) {
    && Increasing(points, |pairs|)
    && (forall k :: 0 <= k < |points| ==> points[k] <= |pairs|)
    && data == BlockOf(pairs, points) && |data| < WORD
  }

  // The pair at its offset, decoded.
  lemma PairRead(data: seq<Byte>, pairs: seq<Pair>, points: seq<nat>, i: nat)
    requires Describes(data, pairs, points) && i < |pairs|
    ensures var limit, from, to := |Data(pairs, points)|, Offset(pairs, points, i), Offset(pairs, points, i + 1);
            var shared, pair := SharedAt(pairs, points, i), pairs[i];
            && from < to <= limit <= |data|
            && to >= |pair.value| + |pair.key| - shared
            && EntryLengths(data[from..limit]) ==
                 Some(Lengths(shared, |pair.key| - shared, |pair.value|,
                              data[to - |pair.value| - (|pair.key| - shared)..limit]))
            && data[to - |pair.value| - (|pair.key| - shared)..to - |pair.value|] == pair.key[shared..]
            && data[to - |pair.value|..to] == pair.value
  {
    hide Data, EntryLengths, SharedAt, Fixed32s, Offset, Increasing, Varint;
    PairIsThere(pairs, points, i);
    var limit, from, to := |Data(pairs, points)|, Offset(pairs, points, i), Offset(pairs, points, i + 1);
    var shared, pair := SharedAt(pairs, points, i), pairs[i];
    assert data[..limit] == Data(pairs, points);
    assert data[from..to] == PairBytes(pair, shared);
    SplitPair(data, from, to, limit, pair, shared);
    KeyFits(pairs, points, i);
    LengthsRoundTrip(pair, shared, data[to..limit]);
  }

  // A key is no longer than the block up to it: what it shares is there.
  lemma {:induction false} KeyFits(pairs: seq<Pair>, points: seq<nat>, i: nat)
    requires i < |pairs|
    ensures |pairs[i].key| <= Offset(pairs, points, i + 1)
  {
    hide Data, PairBytes, SharedAt;
    PairIsThere(pairs, points, i);
    if i > 0 {
      KeyFits(pairs, points, i - 1);
    }
  }

  lemma SplitPair(data: seq<Byte>, from: nat, to: nat, limit: nat, pair: Pair, shared: nat)
    requires from <= to <= limit <= |data| && shared <= |pair.key| && data[from..to] == PairBytes(pair, shared)
    ensures to - from >= 3 + |pair.key| - shared + |pair.value|
    ensures data[from..limit] == PairBytes(pair, shared) + data[to..limit]
    ensures var p := to - |pair.value| - (|pair.key| - shared);
            && data[p..to - |pair.value|] == pair.key[shared..] && data[to - |pair.value|..to] == pair.value
            && data[p..limit] == pair.key[shared..] + pair.value + data[to..limit]
  {
    hide Varint;
    var bytes := PairBytes(pair, shared);
    var head := Varint(shared) + Varint(|pair.key| - shared) + Varint(|pair.value|);
    assert bytes == head + pair.key[shared..] + pair.value;
    var p := from + |head|;
    assert data[p..to - |pair.value|] == bytes[|head|..|bytes| - |pair.value|];
    assert data[to - |pair.value|..to] == bytes[|bytes| - |pair.value|..];
  }

  lemma RestartRead(data: seq<Byte>, pairs: seq<Pair>, points: seq<nat>, j: nat)
    requires Describes(data, pairs, points) && j < |points|
    ensures var at := |Data(pairs, points)| + 4 * j;
            at + 4 <= |data| && DecodeFixed(data[at..at + 4]) == Offset(pairs, points, points[j])
  {
    hide Data, Offset, Fixed, Fixed32s;
    var offsets := Offsets(pairs, points);
    ValueIsThere(offsets, j);
    OffsetsAscend(pairs, points, points[j], |pairs|);
    Fixed32RoundTrip(offsets[j]);
    var at := |Data(pairs, points)| + 4 * j;
    assert data[at..at + 4] == Fixed32s(offsets)[4 * j..4 * j + 4];
  }

  // What a pair shares with the one before it is in the key parsed last.
  lemma Supplied(pairs: seq<Pair>, points: seq<nat>, i: nat, key: seq<Byte>)
    requires i < |pairs| && (i in points || (i > 0 && key == pairs[i - 1].key))
    ensures var shared := SharedAt(pairs, points, i);
            && shared <= |key| && shared <= |pairs[i].key|
            && key[..shared] + pairs[i].key[shared..] == pairs[i].key
  {
    hide Common;
  }

  type Comparator = (seq<Byte>, seq<Byte>) -> bool

  // The keys ascend.
  ghost predicate Ascend(before: Comparator, pairs: seq<Pair>) {
    && (forall a, b, c :: before(a, b) && before(b, c) ==> before(a, c))
    && (forall i, j :: 0 <= i < j < |pairs| ==> before(pairs[i].key, pairs[j].key))
  }

  class BlockIter {
    const before: Comparator
    const data: seq<Byte>
    const restarts: nat      // where the restart array starts
    const numRestarts: nat
    var current: nat         // restarts when not valid
    var restartIndex: nat
    var key: seq<Byte>
    var valueStart: nat
    var valueEnd: nat
    var corrupt: bool
    ghost const pairs: seq<Pair>
    ghost const points: seq<nat>

    // The bytes may be anything.
    ghost predicate Valid()
      reads this
    {
      && numRestarts > 0 && restarts + 4 * numRestarts <= |data|
      && current <= restarts && valueStart <= valueEnd
      && (current < restarts ==> restartIndex < numRestarts && current < valueEnd <= restarts)
    }

    // The bytes are a block of the pairs.
    ghost predicate Whole() {
      Describes(data, pairs, points) && restarts == |Data(pairs, points)| && numRestarts == |points|
    }

    // The restart point of pair i, or the one before that.
    ghost predicate Near(i: nat)
      reads this
    {
      && restartIndex < |points| && points[restartIndex] <= i
      && (restartIndex + 1 < |points| ==> i <= points[restartIndex + 1])
    }

    ghost predicate Stands(i: nat)
      reads this
    {
      if i < |pairs| then
        && current == Offset(pairs, points, i) && key == pairs[i].key
        && valueEnd == Offset(pairs, points, i + 1) && valueStart + |pairs[i].value| == valueEnd
        && Near(i)
      else i == |pairs| && current == restarts
    }

    // Pair i can be parsed next.
    ghost predicate NextIs(i: nat)
      reads this
    {
      && i <= |pairs| && valueEnd == Offset(pairs, points, i)
      && (i < |pairs| ==>
            && restartIndex < |points| && points[restartIndex] <= i
            && (i in points || (i > 0 && key == pairs[i - 1].key)))
    }

    method GetRestartPoint(index: nat) returns (offset: nat)
      requires Valid() && index < numRestarts
      ensures Whole() ==> offset == Offset(pairs, points, points[index])
    {
      hide Data, Offset, BlockOf, Increasing;
      var at := restarts + 4 * index;
      offset := DecodeFixed(data[at..at + 4]);
      if Whole() {
        RestartRead(data, pairs, points, index);
      }
    }

    method CorruptionError()
      requires numRestarts > 0 && restarts + 4 * numRestarts <= |data|
      modifies this
      ensures Valid() && current == restarts
    {
      current, restartIndex, corrupt := restarts, numRestarts, true;
      key, valueStart, valueEnd := [], 0, 0;
    }

    method SeekToRestartPoint(index: nat)
      requires Valid() && index < numRestarts
      modifies this`key, this`restartIndex, this`valueStart, this`valueEnd, this`current
      ensures Valid() && restartIndex == index && key == []
      ensures Whole() ==> NextIs(points[index])
    {
      hide Data, Offset, BlockOf;
      key := [];
      restartIndex := index;
      var offset := GetRestartPoint(index);
      valueStart, valueEnd := offset, offset;
      current := restarts;
    }

    // On to the last restart point in front of the current entry.
    method AdvanceRestart(ghost i: nat)
      requires Valid() && current < restarts
      modifies this`restartIndex
      ensures Valid()
      ensures Whole() && i < |pairs| && current == Offset(pairs, points, i) && points[old(restartIndex)] <= i ==>
              Near(i)
    {
      hide Data, Offset, BlockOf, Increasing;
      ghost var good := Whole() && i < |pairs| && current == Offset(pairs, points, i) && points[restartIndex] <= i;
      while restartIndex + 1 < numRestarts
        invariant Valid() && restartIndex < numRestarts
        invariant good ==> points[restartIndex] <= i
      {
        var next := GetRestartPoint(restartIndex + 1);
        if good {
          Compare(points[restartIndex + 1], i);
        }
        if next >= current {
          break;
        }
        restartIndex := restartIndex + 1;
      }
    }

    // Offsets compare as the indices do.
    lemma Compare(i: nat, j: nat)
      requires i <= |pairs| && j <= |pairs|
      ensures i < j <==> Offset(pairs, points, i) < Offset(pairs, points, j)
    {
      hide Data, Offset;
      if i < j { OffsetsAscend(pairs, points, i, j); } else { OffsetsAscend(pairs, points, j, i); }
    }

    lemma LastOffset(i: nat)
      requires Whole() && i <= |pairs|
      ensures i < |pairs| <==> Offset(pairs, points, i) < restarts
      ensures Offset(pairs, points, |pairs|) == restarts
    {
      hide Data, Offset, BlockOf, Increasing;
      Compare(i, |pairs|);
      OffsetsAscend(pairs, points, i, |pairs|);
    }

    method ParseNextKey(ghost i: nat) returns (ok: bool)
      requires Valid() && restartIndex < numRestarts
      modifies this
      ensures Valid() && (ok <==> current < restarts)
      ensures ok ==> valueEnd > old(valueEnd)
      ensures Whole() && old(NextIs(i)) ==> Stands(i) && (ok <==> i < |pairs|)
    {
      hide Data, Offset, BlockOf, Increasing, EntryLengths, SharedAt, Describes;
      ghost var good := Whole() && NextIs(i);
      current := valueEnd;
      if good {
        LastOffset(i);
        if i < |pairs| {
          PairRead(data, pairs, points, i);
          Supplied(pairs, points, i, key);
        }
      }
      if current >= restarts {
        current, restartIndex := restarts, numRestarts;
        return false;
      }
      var lengths := DecodeEntry(data[current..restarts]);
      Bounded(data[current..restarts]);
      if lengths.None? || |key| < lengths.value.shared {
        CorruptionError();
        return false;
      }
      var Lengths(shared, unshared, valueLength, rest) := lengths.value;
      var p := restarts - |rest|;
      key := key[..shared] + data[p..p + unshared];
      valueStart := p + unshared;
      valueEnd := valueStart + valueLength;
      AdvanceRestart(i);
      ok := true;
    }

    lemma Bounded(input: seq<Byte>)
      ensures var r := EntryLengths(input);
              r.Some? ==> |r.value.rest| + 3 <= |input| && r.value.unshared + r.value.value <= |r.value.rest|
    {
      hide ThreeLengths;
    }

    method Next(ghost i: nat)
      requires Valid() && current < restarts
      modifies this
      ensures Valid()
      ensures Whole() && i < |pairs| && old(Stands(i)) ==> Stands(i + 1)
    {
      hide Data, Offset, Describes;
      var ok := ParseNextKey(i + 1);
    }

    method SeekToFirst()
      requires Valid()
      modifies this
      ensures Valid() && (Whole() ==> Stands(0))
    {
      hide Data, Offset, BlockOf;
      SeekToRestartPoint(0);
      var ok := ParseNextKey(0);
    }

    method SeekToLast()
      requires Valid()
      modifies this
      ensures Valid() && (Whole() ==> Stands(if pairs == [] then 0 else |pairs| - 1))
    {
      hide Data, Offset, BlockOf, NextIs;
      SeekToRestartPoint(numRestarts - 1);
      ghost var i: nat := if Whole() then points[|points| - 1] else 0;
      var ok := ParseNextKey(i);
      while ok && valueEnd < restarts
        invariant Valid() && (ok <==> current < restarts)
        invariant Whole() ==> Stands(i) && (i < |pairs| || i == |pairs| == 0)
        decreases if ok then restarts - valueEnd + 1 else 0
      {
        NextAfter(i);
        i := i + 1;
        ok := ParseNextKey(i);
      }
      if Whole() && i < |pairs| {
        LastOffset(i);
        LastOffset(i + 1);
      }
    }

    // Behind the entry the iterator stands at, the next one can be parsed.
    lemma NextAfter(i: nat)
      ensures Whole() && Stands(i) && i < |pairs| ==> NextIs(i + 1)
      ensures Whole() && Stands(i) && i < |pairs| && valueEnd < restarts ==> i + 1 < |pairs|
    {
      hide Data, Offset, BlockOf, Increasing;
      if Whole() && i < |pairs| {
        LastOffset(i + 1);
      }
    }

    method Prev(ghost i: nat)
      requires Valid() && current < restarts
      modifies this
      ensures Valid()
      ensures Whole() && i < |pairs| && old(Stands(i)) ==> Stands(if i == 0 then |pairs| else i - 1)
    {
      hide Data, Offset, BlockOf, NextIs, Increasing;
      ghost var good := Whole() && i < |pairs| && Stands(i);
      var original := current;
      var found := FindRestart(original, i);
      if !found {
        current, restartIndex := restarts, numRestarts;
        return;
      }
      ghost var j: nat := if good then points[restartIndex] else 0;
      SeekToRestartPoint(restartIndex);
      var ok := ParseNextKey(j);
      while ok && valueEnd < original
        invariant Valid() && (ok <==> current < restarts)
        invariant good ==> Stands(j) && j < i
        decreases if ok then restarts - valueEnd + 1 else 0
      {
        NextAfter(j);
        if good {
          Compare(j + 1, i);
        }
        j := j + 1;
        ok := ParseNextKey(j);
      }
      if good {
        Compare(j + 1, i);
        LastOffset(j);
      }
    }

    // Scan back to a restart point in front of the entry.
    method FindRestart(original: nat, ghost i: nat) returns (found: bool)
      requires Valid() && restartIndex < numRestarts && original == current < restarts
      modifies this`restartIndex
      ensures Valid() && restartIndex < numRestarts
      ensures Whole() && i < |pairs| && old(Stands(i)) ==>
                (found <==> i > 0) && (found ==> points[restartIndex] < i)
    {
      hide Data, Offset, BlockOf;
      ghost var good := Whole() && i < |pairs| && Stands(i);
      var point := GetRestartPoint(restartIndex);
      while point >= original
        invariant Valid() && restartIndex < numRestarts
        invariant good ==> points[restartIndex] <= i && point == Offset(pairs, points, points[restartIndex])
        decreases restartIndex
      {
        if good {
          Compare(points[restartIndex], i);
        }
        if restartIndex == 0 {
          return false;
        }
        restartIndex := restartIndex - 1;
        if good {
          assert points[restartIndex] < points[restartIndex + 1];
        }
        point := GetRestartPoint(restartIndex);
      }
      if good {
        Compare(points[restartIndex], i);
      }
      found := true;
    }

    // A binary search of the restart points, and then a scan: the first entry
    // that is not before the target.
    method Seek(target: seq<Byte>) returns (ghost p: nat)
      requires Valid()
      modifies this
      ensures Valid()
      ensures Whole() && Ascend(before, pairs) ==>
                && Stands(p)
                && (forall q :: 0 <= q < p ==> before(pairs[q].key, target))
                && (p < |pairs| ==> !before(pairs[p].key, target))
    {
      hide Data, Offset, BlockOf, NextIs, Ascend, Increasing;
      ghost var good := Whole() && Ascend(before, pairs);
      var found, left := FindRegion(target);
      if !found {
        return 0;
      }
      p := if good then points[left] else 0;
      if good {
        AllBefore(target, left);
      }
      SeekToRestartPoint(left);
      while true
        invariant Valid() && restartIndex < numRestarts
        invariant good ==> p <= |pairs| && NextIs(p) && forall q :: 0 <= q < p ==> before(pairs[q].key, target)
        decreases restarts - valueEnd
      {
        var ok := ParseNextKey(p);
        if !ok || !before(key, target) {
          return p;
        }
        NextAfter(p);
        p := p + 1;
      }
    }

    // The last restart point whose key is before the target.
    method FindRegion(target: seq<Byte>) returns (found: bool, left: nat)
      requires Valid()
      modifies this
      ensures Valid() && left < numRestarts
      ensures Whole() ==> found
      ensures Whole() && left > 0 ==> points[left] < |pairs| && before(pairs[points[left]].key, target)
    {
      hide Data, Offset, BlockOf;
      left := 0;
      var right := numRestarts - 1;
      while left < right
        invariant Valid() && left <= right < numRestarts
        invariant Whole() && left > 0 ==> points[left] < |pairs| && before(pairs[points[left]].key, target)
      {
        var mid := (left + right + 1) / 2;
        var midKey := RestartKey(mid);
        if midKey.None? {
          CorruptionError();
          return false, 0;
        }
        if before(midKey.value, target) {
          left := mid;
        } else {
          right := mid - 1;
        }
      }
      found := true;
    }

    method RestartKey(mid: nat) returns (midKey: Option<seq<Byte>>)
      requires Valid() && 0 < mid < numRestarts
      ensures Whole() ==> points[mid] < |pairs| && midKey == Some(pairs[points[mid]].key)
    {
      hide Data, Offset, BlockOf, EntryLengths;
      var offset := GetRestartPoint(mid);
      if Whole() {
        PairRead(data, pairs, points, points[mid]);
      }
      if offset > restarts {
        return None;
      }
      var lengths := DecodeEntry(data[offset..restarts]);
      Bounded(data[offset..restarts]);
      if lengths.None? || lengths.value.shared != 0 {
        return None;
      }
      var p := restarts - |lengths.value.rest|;
      midKey := Some(data[p..p + lengths.value.unshared]);
    }

    // Entries in front of that restart point are before the target, too.
    lemma AllBefore(target: seq<Byte>, left: nat)
      requires Whole() && Ascend(before, pairs) && left < |points|
      requires left > 0 ==> points[left] < |pairs| && before(pairs[points[left]].key, target)
      ensures points[left] <= |pairs|
      ensures forall q :: 0 <= q < points[left] ==> before(pairs[q].key, target)
    {
      hide Data, BlockOf;
    }

    // The value of the current entry.
    method Value() returns (v: seq<Byte>)
      requires Valid() && current < restarts
      ensures forall i: nat :: Whole() && i < |pairs| && Stands(i) ==> v == pairs[i].value
    {
      hide Data, Offset, BlockOf, EntryLengths, Near;
      v := data[valueStart..valueEnd];
      forall i: nat | Whole() && i < |pairs| && Stands(i)
        ensures v == pairs[i].value
      {
        PairRead(data, pairs, points, i);
      }
    }

    // Over the restarts the last four bytes count.
    constructor (before: Comparator, data: seq<Byte>, restarts: nat, numRestarts: nat,
                 ghost pairs: seq<Pair>, ghost points: seq<nat>)
      requires numRestarts > 0 && restarts + 4 * numRestarts <= |data|
      ensures Valid() && current == this.restarts && this.before == before
      ensures this.data == data && this.restarts == restarts && this.numRestarts == numRestarts
      ensures this.pairs == pairs && this.points == points
    {
      this.before, this.data, this.restarts, this.numRestarts := before, data, restarts, numRestarts;
      this.pairs, this.points := pairs, points;
      current, restartIndex, key, valueStart, valueEnd, corrupt := restarts, numRestarts, [], 0, 0, false;
    }
  }

  // Nothing for a block that is too short or has no restart points.
  method NewIterator(before: Comparator, contents: seq<Byte>, ghost pairs: seq<Pair>, ghost points: seq<nat>)
      returns (it: BlockIter?)
    ensures it != null ==> fresh(it) && it.Valid() && it.before == before && it.current == it.restarts
    ensures Describes(contents, pairs, points) ==> it != null && it.Whole() && it.pairs == pairs && it.points == points
  {
    hide Data, Fixed, DecodeFixed, Fixed32s;
    it := null;
    var size := |contents|;
    if Describes(contents, pairs, points) {
      CountRead(contents, pairs, points);
    }
    if size >= 4 {
      var numRestarts := DecodeFixed(contents[size - 4..]);
      if numRestarts <= (size - 4) / 4 && numRestarts > 0 {
        it := new BlockIter(before, contents, size - (1 + numRestarts) * 4, numRestarts, pairs, points);
      }
    }
  }

  lemma CountRead(contents: seq<Byte>, pairs: seq<Pair>, points: seq<nat>)
    requires Describes(contents, pairs, points)
    ensures |contents| >= 4 && DecodeFixed(contents[|contents| - 4..]) == |points| <= (|contents| - 4) / 4
    ensures |Data(pairs, points)| == |contents| - (1 + |points|) * 4
  {
    hide Data, Fixed, DecodeFixed, Fixed32s;
    Fixed32RoundTrip(|points|);
    assert contents[|contents| - 4..] == Fixed(|points|, 4);
  }
}
