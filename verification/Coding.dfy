// Integers and strings as bytes (util/coding.cc, util/coding.h).
module Coding {
  import opened Keys
  import opened Options

  // 32-bit unsigned values.
  const WORD: nat := 0x1_0000_0000
  type Word = w: int | 0 <= w < WORD

  // n bytes, least significant first; the rest of v is cut off.
  function Fixed(v: nat, n: nat): (bytes: seq<Byte>)
    ensures |bytes| == n
  {
    if n == 0 then [] else [v % 256] + Fixed(v / 256, n - 1)
  }

  function DecodeFixed(bytes: seq<Byte>): nat {
    if bytes == [] then 0 else bytes[0] + 256 * DecodeFixed(bytes[1..])
  }

  function Pow(base: nat, n: nat): nat {
    if n == 0 then 1 else base * Pow(base, n - 1)
  }

  lemma {:induction false} FixedRoundTrip(v: nat, n: nat)
    requires v < Pow(256, n)
    ensures DecodeFixed(Fixed(v, n)) == v
  {
    if n > 0 {
      assert v / 256 < Pow(256, n - 1);
      FixedRoundTrip(v / 256, n - 1);
      assert Fixed(v, n)[1..] == Fixed(v / 256, n - 1);
    }
  }

  lemma Fixed32RoundTrip(v: nat)
    requires v < WORD
    ensures DecodeFixed(Fixed(v, 4)) == v
  {
    hide Fixed, DecodeFixed;
    FixedRoundTrip(v, 4);
  }

  lemma Fixed64RoundTrip(v: nat)
    requires v < 0x1_0000_0000_0000_0000
    ensures DecodeFixed(Fixed(v, 8)) == v
  {
    hide Fixed, DecodeFixed;
    FixedRoundTrip(v, 8);
  }

  // 32-bit values one after the other.
  function Fixed32s(values: seq<nat>): (bytes: seq<Byte>)
    ensures |bytes| == 4 * |values|
  {
    if values == [] then [] else Fixed32s(values[..|values| - 1]) + Fixed(values[|values| - 1], 4)
  }

  lemma {:induction false} ValueIsThere(values: seq<nat>, k: nat)
    requires k < |values|
    ensures Fixed32s(values)[4 * k..4 * k + 4] == Fixed(values[k], 4)
  {
    hide Fixed;
    if k < |values| - 1 {
      ValueIsThere(values[..|values| - 1], k);
    }
  }

  lemma {:induction false} DecodeFixedBound(bytes: seq<Byte>)
    ensures DecodeFixed(bytes) < Pow(256, |bytes|)
  {
    if bytes != [] {
      DecodeFixedBound(bytes[1..]);
    }
  }

  // Seven bits a byte, the high bit set on all but the last.
  function Varint(v: nat): (bytes: seq<Byte>)
    ensures bytes != []
  {
    if v < 128 then [v] else [128 + v % 128] + Varint(v / 128)
  }

  // Reads at most `groups` bytes: the value and what follows it.
  function GetVarint(input: seq<Byte>, groups: nat): Option<(nat, seq<Byte>)> {
    if groups == 0 || input == [] then None
    else if input[0] < 128 then Some((input[0], input[1..]))
    else
      var rest := GetVarint(input[1..], groups - 1);
      if rest.None? then None else Some((input[0] - 128 + 128 * rest.value.0, rest.value.1))
  }

  // Bits shifted out of a 32-bit or 64-bit word are lost.
  function GetVarint32(input: seq<Byte>): Option<(nat, seq<Byte>)> {
    var r := GetVarint(input, 5);
    if r.None? then None else Some((r.value.0 % WORD, r.value.1))
  }

  function GetVarint64(input: seq<Byte>): Option<(nat, seq<Byte>)> {
    var r := GetVarint(input, 10);
    if r.None? then None else Some((r.value.0 % 0x1_0000_0000_0000_0000, r.value.1))
  }

  lemma {:induction false} VarintRoundTrip(v: nat, groups: nat, rest: seq<Byte>)
    requires groups > 0 && v < Pow(128, groups)
    ensures GetVarint(Varint(v) + rest, groups) == Some((v, rest))
  {
    if v < 128 {
      assert (Varint(v) + rest)[1..] == rest;
    } else {
      assert v / 128 < Pow(128, groups - 1);
      VarintRoundTrip(v / 128, groups - 1, rest);
      assert (Varint(v) + rest)[1..] == Varint(v / 128) + rest;
    }
  }

  lemma Varint32RoundTrip(v: nat, rest: seq<Byte>)
    requires v < 0x1_0000_0000
    ensures GetVarint32(Varint(v) + rest) == Some((v, rest))
  {
    hide Varint, GetVarint;
    VarintRoundTrip(v, 5, rest);
  }

  lemma Varint64RoundTrip(v: nat, rest: seq<Byte>)
    requires v < 0x1_0000_0000_0000_0000
    ensures GetVarint64(Varint(v) + rest) == Some((v, rest))
  {
    hide Varint, GetVarint;
    VarintRoundTrip(v, 10, rest);
  }

  method PutVarint64(dst: seq<Byte>, v: nat) returns (r: seq<Byte>)
    ensures r == dst + Varint(v)
  {
    r := dst;
    var w := v;
    while w >= 128
      invariant r + Varint(w) == dst + Varint(v)
    {
      r := r + [128 + w % 128];
      w := w / 128;
    }
    r := r + [w];
  }

  function Prefixed(s: seq<Byte>): seq<Byte> {
    Varint(|s|) + s
  }

  function GetPrefixed(input: seq<Byte>): (r: Option<(seq<Byte>, seq<Byte>)>)
    ensures r.Some? ==> |r.value.1| < |input|
  {
    var r := GetVarint32(input);
    if r.None? || |r.value.1| < r.value.0 then None
    else
      GetVarintShrinks(input, 5);
      Some((r.value.1[..r.value.0], r.value.1[r.value.0..]))
  }

  lemma {:induction false} GetVarintShrinks(input: seq<Byte>, groups: nat)
    ensures GetVarint(input, groups).Some? ==> |GetVarint(input, groups).value.1| < |input|
  {
    if groups > 0 && input != [] && input[0] >= 128 {
      GetVarintShrinks(input[1..], groups - 1);
    }
  }

  lemma PrefixedRoundTrip(s: seq<Byte>, rest: seq<Byte>)
    requires |s| < 0x1_0000_0000
    ensures GetPrefixed(Prefixed(s) + rest) == Some((s, rest))
  {
    assert Prefixed(s) + rest == Varint(|s|) + (s + rest);
    Varint32RoundTrip(|s|, s + rest);
    assert (s + rest)[..|s|] == s && (s + rest)[|s|..] == rest;
  }
}
