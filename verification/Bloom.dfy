// Bloom filters (util/bloom.cc).
module Bloom {
  import opened Keys
  import opened Coding
  import opened Crc

  type Hash = seq<Byte> -> Word

  // Bit i, lowest first.
  predicate Bit(b: nat, i: nat) {
    if i == 0 then b % 2 == 1 else Bit(b / 2, i - 1)
  }

  // b | (1 << i)
  function WithBit(b: nat, i: nat): nat {
    if i == 0 then b / 2 * 2 + 1 else 2 * WithBit(b / 2, i - 1) + b % 2
  }

  lemma {:induction false} OnlyBit(b: nat, i: nat, j: nat)
    ensures Bit(WithBit(b, i), j) <==> i == j || Bit(b, j)
  {
    if i > 0 && j > 0 {
      OnlyBit(b / 2, i - 1, j - 1);
      assert WithBit(b, i) / 2 == WithBit(b / 2, i - 1);
    }
  }

  lemma {:induction false} BitFits(b: nat, i: nat, n: nat)
    requires i < n && b < Pow(2, n)
    ensures WithBit(b, i) < Pow(2, n)
  {
    if i > 0 {
      assert b / 2 < Pow(2, n - 1);
      BitFits(b / 2, i - 1, n - 1);
    }
  }

  function ByteWithBit(b: Byte, i: nat): Byte
    requires i < 8
  {
    assert Pow(2, 8) == 256;
    BitFits(b, i, 8);
    WithBit(b, i)
  }

  // Bit p of an array of bytes.
  predicate IsSet(bytes: seq<Byte>, p: nat)
    requires p < 8 * |bytes|
  {
    Bit(bytes[p / 8], p % 8)
  }

  function Setting(bytes: seq<Byte>, p: nat): (r: seq<Byte>)
    requires p < 8 * |bytes|
    ensures |r| == |bytes|
  {
    bytes[p / 8 := ByteWithBit(bytes[p / 8], p % 8)]
  }

  lemma OnlySets(bytes: seq<Byte>, p: nat, q: nat)
    requires p < 8 * |bytes| && q < 8 * |bytes|
    ensures IsSet(Setting(bytes, p), q) <==> p == q || IsSet(bytes, q)
  {
    if p / 8 == q / 8 {
      OnlyBit(bytes[p / 8], p % 8, q % 8);
    }
  }

  // Rotate right by 17 bits.
  function Delta(h: Word): Word {
    h / 0x2_0000 + (h % 0x2_0000) * 0x8000
  }

  // The j-th hash value of double hashing, in 32 bits.
  function Probe(h: Word, j: nat): Word {
    if j == 0 then h else (Probe(h, j - 1) + Delta(h)) % WORD
  }

  predicate ProbeSet(bits: seq<Byte>, h: Word, j: nat)
    requires bits != []
  {
    IsSet(bits, Probe(h, j) % (8 * |bits|))
  }

  // The first k probes of a key are all set.
  ghost predicate Matches(bits: seq<Byte>, h: Word, k: nat)
    requires bits != []
  {
    forall j :: 0 <= j < k ==> ProbeSet(bits, h, j)
  }

  // Bits that stay set keep a key's match.
  ghost predicate Keeps(bits: seq<Byte>, r: seq<Byte>) {
    |r| == |bits| && forall q :: 0 <= q < 8 * |r| && IsSet(bits, q) ==> IsSet(r, q)
  }

  lemma StillMatches(bits: seq<Byte>, r: seq<Byte>, h: Word, k: nat)
    requires bits != [] && Keeps(bits, r) && Matches(bits, h, k)
    ensures Matches(r, h, k)
  {
    hide Probe, IsSet;
    forall j | 0 <= j < k
      ensures ProbeSet(r, h, j)
    {
      assert ProbeSet(bits, h, j);
    }
  }

  // How many bytes there are for n keys.
  function Bytes(n: nat, bitsPerKey: nat): (bytes: nat)
    ensures bytes >= 8
  {
    var bits := n * bitsPerKey;
    ((if bits < 64 then 64 else bits) + 7) / 8
  }

  // The first k probes of a key set.
  function WithProbes(bits: seq<Byte>, h: Word, k: nat): (r: seq<Byte>)
    requires bits != []
    ensures |r| == |bits|
  {
    if k == 0 then bits else Setting(WithProbes(bits, h, k - 1), Probe(h, k - 1) % (8 * |bits|))
  }

  function WithKeys(hash: Hash, bits: seq<Byte>, k: nat, keys: seq<seq<Byte>>): (r: seq<Byte>)
    requires bits != []
    ensures |r| == |bits|
  {
    if keys == [] then bits
    else WithProbes(WithKeys(hash, bits, k, keys[..|keys| - 1]), hash(keys[|keys| - 1]), k)
  }

  // The filter of the keys, with the number of probes at its end.
  function Filter(hash: Hash, bitsPerKey: nat, k: Byte, keys: seq<seq<Byte>>): seq<Byte> {
    WithKeys(hash, seq(Bytes(|keys|, bitsPerKey), _ => 0), k, keys) + [k]
  }

  method CreateFilter(hash: Hash, bitsPerKey: nat, k: Byte, keys: seq<seq<Byte>>, dst: seq<Byte>) returns (r: seq<Byte>)
    requires 1 <= k <= 30
    ensures r == dst + Filter(hash, bitsPerKey, k, keys)
  {
    hide WithProbes;
    var bytes := Bytes(|keys|, bitsPerKey);
    var bits: seq<Byte> := seq(bytes, _ => 0);
    ghost var none := bits;
    for i := 0 to |keys|
      invariant |bits| == bytes && bits == WithKeys(hash, none, k, keys[..i])
    {
      assert keys[..i + 1][..i] == keys[..i];
      bits := AddKey(bits, hash(keys[i]), k);
    }
    assert keys[..|keys|] == keys;
    r := dst + bits + [k];
  }

  // Set the probes of one key.
  method AddKey(bits: seq<Byte>, h0: Word, k: nat) returns (r: seq<Byte>)
    requires bits != []
    ensures r == WithProbes(bits, h0, k)
  {
    hide Probe, Setting, IsSet;
    r := bits;
    var h := h0;
    var delta := Delta(h0);
    FirstProbe(h0);
    for j := 0 to k
      invariant r == WithProbes(bits, h0, j) && h == Probe(h0, j)
    {
      var bitpos := h % (8 * |r|);
      r := Setting(r, bitpos);
      NextProbe(h0, j);
      h := (h + delta) % WORD;
    }
  }

  // A key's probes are set, and bits that were set stay set.
  lemma {:induction false} ProbesAreSet(bits: seq<Byte>, h: Word, k: nat)
    requires bits != []
    ensures Keeps(bits, WithProbes(bits, h, k)) && Matches(WithProbes(bits, h, k), h, k)
  {
    hide Probe, Setting, IsSet;
    if k > 0 {
      ProbesAreSet(bits, h, k - 1);
      var front := WithProbes(bits, h, k - 1);
      SetsMore(front, Probe(h, k - 1) % (8 * |bits|));
      StillMatches(front, WithProbes(bits, h, k), h, k - 1);
    }
  }

  lemma {:induction false} KeysMatch(hash: Hash, bits: seq<Byte>, k: nat, keys: seq<seq<Byte>>, key: seq<Byte>)
    requires bits != [] && key in keys
    ensures Matches(WithKeys(hash, bits, k, keys), hash(key), k)
  {
    hide Matches, Keeps, WithProbes;
    var front, last := keys[..|keys| - 1], keys[|keys| - 1];
    var before := WithKeys(hash, bits, k, front);
    ProbesAreSet(before, hash(last), k);
    if key != last {
      assert keys == front + [last];
      KeysMatch(hash, bits, k, front, key);
      StillMatches(before, WithProbes(before, hash(last), k), hash(key), k);
    }
  }

  lemma FirstProbe(h: Word)
    ensures Probe(h, 0) == h
  {
  }

  lemma NextProbe(h: Word, j: nat)
    ensures Probe(h, j + 1) == (Probe(h, j) + Delta(h)) % WORD
  {
  }

  lemma SetsMore(bytes: seq<Byte>, p: nat)
    requires p < 8 * |bytes|
    ensures IsSet(Setting(bytes, p), p) && Keeps(bytes, Setting(bytes, p))
  {
    hide IsSet, Setting;
    OnlySets(bytes, p, p);
    forall q | 0 <= q < 8 * |bytes| && IsSet(bytes, q)
      ensures IsSet(Setting(bytes, p), q)
    {
      OnlySets(bytes, p, q);
    }
  }

  // The filter's own number of probes counts.
  function MayMatch(hash: Hash, key: seq<Byte>, filter: seq<Byte>): bool {
    if |filter| < 2 then false
    else if filter[|filter| - 1] > 30 then true
    else AllSet(filter[..|filter| - 1], hash(key), 0, filter[|filter| - 1])
  }

  predicate AllSet(bits: seq<Byte>, h: Word, j: nat, k: nat)
    requires bits != []
    decreases k - j
  {
    j < k ==> ProbeSet(bits, h, j) && AllSet(bits, h, j + 1, k)
  }

  lemma {:induction false} AllSetMatches(bits: seq<Byte>, h: Word, j: nat, k: nat)
    requires bits != [] && j <= k
    ensures AllSet(bits, h, j, k) <==> forall i :: j <= i < k ==> ProbeSet(bits, h, i)
    decreases k - j
  {
    hide ProbeSet;
    if j < k {
      AllSetMatches(bits, h, j + 1, k);
    }
  }

  method KeyMayMatch(hash: Hash, key: seq<Byte>, filter: seq<Byte>) returns (r: bool)
    ensures r == MayMatch(hash, key, filter)
  {
    hide Probe, IsSet;
    var len := |filter|;
    if len < 2 {
      return false;
    }
    var bits, k := filter[..len - 1], filter[len - 1];
    if k > 30 {
      return true;
    }
    var h := hash(key);
    var delta := Delta(h);
    FirstProbe(h);
    ghost var h0 := h;
    for j := 0 to k
      invariant h == Probe(h0, j) && MayMatch(hash, key, filter) == AllSet(bits, h0, j, k)
    {
      if !IsSet(bits, h % (8 * |bits|)) {
        return false;
      }
      NextProbe(h0, j);
      h := (h + delta) % WORD;
    }
    r := true;
  }

  // No false negatives, whatever the hash function.
  lemma NoFalseNegatives(hash: Hash, bitsPerKey: nat, k: Byte, keys: seq<seq<Byte>>, key: seq<Byte>)
    requires 1 <= k <= 30 && key in keys
    ensures MayMatch(hash, key, Filter(hash, bitsPerKey, k, keys))
  {
    hide ProbeSet, WithKeys, AllSet;
    var filter := Filter(hash, bitsPerKey, k, keys);
    var none: seq<Byte> := seq(Bytes(|keys|, bitsPerKey), _ => 0);
    assert filter[..|filter| - 1] == WithKeys(hash, none, k, keys);
    KeysMatch(hash, none, k, keys, key);
    AllSetMatches(filter[..|filter| - 1], hash(key), 0, k);
  }
}
