// Internal keys as bytes (db/dbformat.h, db/dbformat.cc).
module InternalKeys {
  import opened Keys
  import opened Coding
  import opened Options

  function KindCode(kind: Kind): nat {
    if kind.Value? then 1 else 0
  }

  // Sequence number and type in one 64-bit word.
  function Pack(sequence: nat, kind: Kind): nat {
    sequence * 256 + KindCode(kind)
  }

  function EncodeKey(key: IKey): (bytes: seq<Byte>)
    ensures |bytes| == |key.user| + 8
  {
    key.user + Fixed(Pack(key.sequence, key.kind), 8)
  }

  function ExtractUserKey(bytes: seq<Byte>): UserKey
    requires |bytes| >= 8
  {
    bytes[..|bytes| - 8]
  }

  function Trailer(bytes: seq<Byte>): nat
    requires |bytes| >= 8
  {
    DecodeFixed(bytes[|bytes| - 8..])
  }

  // Fails on short keys and on unknown types.
  function ParseKey(bytes: seq<Byte>): Option<IKey> {
    if |bytes| < 8 || Trailer(bytes) % 256 > 1 then None
    else
      var num := Trailer(bytes);
      Some(IKey(ExtractUserKey(bytes), num / 256, if num % 256 == 1 then Value else Deletion))
  }

  // InternalKeyComparator: user keys up, then packed numbers down.
  function Compare(a: seq<Byte>, b: seq<Byte>): int
    requires |a| >= 8 && |b| >= 8
  {
    if Less(ExtractUserKey(a), ExtractUserKey(b)) then -1
    else if Less(ExtractUserKey(b), ExtractUserKey(a)) then 1
    else if Trailer(a) > Trailer(b) then -1
    else if Trailer(a) < Trailer(b) then 1
    else 0
  }

  lemma PartsOfKey(key: IKey)
    requires key.sequence <= MAX_SEQUENCE
    ensures ExtractUserKey(EncodeKey(key)) == key.user
    ensures Trailer(EncodeKey(key)) == Pack(key.sequence, key.kind)
  {
    hide Fixed, DecodeFixed;
    var word := Pack(key.sequence, key.kind);
    Fixed64RoundTrip(word);
    assert EncodeKey(key)[|key.user|..] == Fixed(word, 8);
  }

  lemma KeyReadBack(key: IKey)
    requires key.sequence <= MAX_SEQUENCE
    ensures ParseKey(EncodeKey(key)) == Some(key)
  {
    hide Fixed, DecodeFixed, EncodeKey, ExtractUserKey, Trailer;
    PartsOfKey(key);
  }

  // Comparing the bytes is comparing the keys.
  lemma CompareIsOrder(a: IKey, b: IKey)
    requires a.sequence <= MAX_SEQUENCE && b.sequence <= MAX_SEQUENCE
    ensures Compare(EncodeKey(a), EncodeKey(b)) < 0 <==> Before(a, b)
    ensures Compare(EncodeKey(a), EncodeKey(b)) == 0 <==> a == b
  {
    hide EncodeKey, ExtractUserKey, Trailer;
    PartsOfKey(a);
    PartsOfKey(b);
    UserKeysOrdered();
  }
}
