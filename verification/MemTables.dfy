// MemTable: entries as length-prefixed records in key order (db/memtable.cc).
module MemTables {
  import opened Keys
  import opened Store
  import opened Coding
  import opened InternalKeys
  import opened Options
  import opened Lookup

  // klength varint32, internal key, vlength varint32, value
  function Record(e: Entry): seq<Byte> {
    Prefixed(EncodeKey(e.key)) + Prefixed(e.value)
  }

  predicate Fits(e: Entry) {
    && e.key.sequence <= MAX_SEQUENCE
    && |e.key.user| + 8 < WORD
    && |e.value| < WORD
  }

  // LookupKey::memtable_key
  function MemtableKey(u: UserKey, s: nat): seq<Byte> {
    Prefixed(EncodeKey(IKey(u, s, Value)))
  }

  // KeyComparator
  predicate Earlier(a: seq<Byte>, b: seq<Byte>) {
    var ka, kb := GetPrefixed(a), GetPrefixed(b);
    ka.Some? && kb.Some? && |ka.value.0| >= 8 && |kb.value.0| >= 8 && Compare(ka.value.0, kb.value.0) < 0
  }

  lemma RecordParts(e: Entry)
    requires Fits(e)
    ensures GetPrefixed(Record(e)) == Some((EncodeKey(e.key), Prefixed(e.value)))
    ensures GetPrefixed(Prefixed(e.value)) == Some((e.value, []))
  {
    hide Prefixed, EncodeKey;
    PrefixedRoundTrip(EncodeKey(e.key), Prefixed(e.value));
    PrefixedRoundTrip(e.value, []);
    assert Prefixed(e.value) + [] == Prefixed(e.value);
  }

  lemma EarlierIsBefore(e: Entry, f: Entry)
    requires Fits(e) && Fits(f)
    ensures Earlier(Record(e), Record(f)) <==> Before(e.key, f.key)
  {
    hide Prefixed, Before, Compare, EncodeKey, Record;
    RecordParts(e);
    RecordParts(f);
    CompareIsOrder(e.key, f.key);
  }

  lemma EarlierThanTarget(e: Entry, u: UserKey, s: nat)
    requires Fits(e) && s <= MAX_SEQUENCE && |u| + 8 < WORD
    ensures Earlier(Record(e), MemtableKey(u, s)) <==> Before(e.key, IKey(u, s, Value))
  {
    hide Prefixed, Before, Compare, EncodeKey, Record;
    RecordParts(e);
    var key := EncodeKey(IKey(u, s, Value));
    PrefixedRoundTrip(key, []);
    assert Prefixed(key) + [] == Prefixed(key);
    CompareIsOrder(e.key, IKey(u, s, Value));
  }

  class MemTable {
    var table: seq<seq<Byte>>
    ghost var entries: seq<Entry>

    ghost predicate Valid()
      reads this
    {
      Written(entries, table) && Sorted(entries)
    }

    ghost function Contents(): set<Entry>
      reads this
    {
      set e | e in entries
    }

    constructor ()
      ensures Valid() && Contents() == {}
    {
      table, entries := [], [];
    }

    // The first record not before the target, as the list's search finds it.
    method Seek(target: seq<Byte>) returns (n: nat)
      requires Valid()
      ensures n <= |table|
      ensures forall i :: 0 <= i < n ==> Earlier(table[i], target)
      ensures n < |table| ==> !Earlier(table[n], target)
    {
      hide Earlier, Record, Fits, Before;
      n := 0;
      while n < |table| && Earlier(table[n], target)
        invariant n <= |table|
        invariant forall i :: 0 <= i < n ==> Earlier(table[i], target)
      {
        n := n + 1;
      }
    }

    // No key is added twice.
    method Add(s: nat, kind: Kind, key: UserKey, value: Bytes)
      requires Valid() && Fits(Entry(IKey(key, s, kind), value))
      requires forall e :: e in Contents() ==> e.key != IKey(key, s, kind)
      modifies this
      ensures Valid()
      ensures Contents() == old(Contents()) + {Entry(IKey(key, s, kind), value)}
    {
      hide Prefixed, Before, Earlier, Record;
      var e := Entry(IKey(key, s, kind), value);
      var buf := Varint(|key| + 8) + key + Fixed(Pack(s, kind), 8) + Varint(|value|) + value;
      AsWritten(e);
      var n := Seek(buf);
      PlaceOf(entries, e, n, table);
      table := table[..n] + [buf] + table[n..];
      entries := entries[..n] + [e] + entries[n..];
    }

    // An answer exactly when the snapshot sees an entry of the key, and then
    // the newest one's.
    method Get(u: UserKey, s: nat) returns (r: Option<Answer>)
      requires Valid() && s <= MAX_SEQUENCE && |u| + 8 < WORD
      requires UniqueSequences(Contents())
      ensures r.None? <==> NoneVisible(Contents(), u, s)
      ensures r.Some? ==> r.value == Read(Contents(), u, s)
    {
      hide Prefixed, Before, Earlier, Record, EncodeKey, ExtractUserKey, Trailer;
      var n := Seek(MemtableKey(u, s));
      r := None;
      WhereSeekStops(entries, u, s, n, table);
      if n < |table| {
        var e := entries[n];
        RecordParts(e);
        PartsOfKey(e.key);
        var key := GetPrefixed(table[n]).value;
        if ExtractUserKey(key.0) == u {
          ReadNewest(Contents(), u, s, e);
          if Trailer(key.0) % 256 == 1 {
            r := Some(Found(GetPrefixed(key.1).value.0));
          } else {
            r := Some(NotFound);
          }
        }
      }
    }
  }

  // The bytes Add lays out are the record.
  lemma AsWritten(e: Entry)
    ensures Varint(|e.key.user| + 8) + e.key.user + Fixed(Pack(e.key.sequence, e.key.kind), 8) + Varint(|e.value|) +
            e.value
         == Record(e)
  {
    hide Varint, Fixed;
  }

  ghost predicate Written(entries: seq<Entry>, table: seq<seq<Byte>>) {
    |table| == |entries| && forall i :: 0 <= i < |entries| ==> Fits(entries[i]) && table[i] == Record(entries[i])
  }

  ghost predicate Sorted(entries: seq<Entry>) {
    forall i, j :: 0 <= i < j < |entries| ==> Before(entries[i].key, entries[j].key)
  }

  lemma PlaceOf(entries: seq<Entry>, e: Entry, n: nat, table: seq<seq<Byte>>)
    requires Written(entries, table) && Sorted(entries) && Fits(e) && n <= |entries|
    requires forall f :: f in entries ==> f.key != e.key
    requires forall i :: 0 <= i < n ==> Earlier(table[i], Record(e))
    requires n < |table| ==> !Earlier(table[n], Record(e))
    ensures var all := entries[..n] + [e] + entries[n..];
            && Written(all, table[..n] + [Record(e)] + table[n..]) && Sorted(all)
            && forall f :: f in all <==> f in entries || f == e
  {
    hide Earlier, Record, Fits, Sorted, Before;
    forall i | 0 <= i < |entries|
      ensures i < n ==> Before(entries[i].key, e.key)
      ensures i == n ==> Before(e.key, entries[i].key)
    {
      EarlierIsBefore(entries[i], e);
      InternalKeysOrdered();
    }
    SortedWith(entries, e, n);
    assert entries == entries[..n] + entries[n..];
  }

  lemma SortedWith(entries: seq<Entry>, e: Entry, n: nat)
    requires Sorted(entries) && n <= |entries|
    requires forall i :: 0 <= i < n ==> Before(entries[i].key, e.key)
    requires n < |entries| ==> Before(e.key, entries[n].key)
    ensures Sorted(entries[..n] + [e] + entries[n..])
  {
    hide Before;
    InternalKeysOrdered();
    var all := entries[..n] + [e] + entries[n..];
    forall i, j | 0 <= i < j < |all| ensures Before(all[i].key, all[j].key) {
      var a, b := if i < n then i else i - 1, if j < n then j else j - 1;
      if i != n && j != n {
        assert all[i] == entries[a] && all[j] == entries[b];
      } else if i == n {
        assert all[j] == entries[b] && (b == n || Before(entries[n].key, entries[b].key));
      } else {
        assert all[i] == entries[a];
      }
    }
  }

  lemma WhereSeekStops(entries: seq<Entry>, u: UserKey, s: nat, n: nat, table: seq<seq<Byte>>)
    requires Written(entries, table) && Sorted(entries) && n <= |entries| && s <= MAX_SEQUENCE && |u| + 8 < WORD
    requires forall i :: 0 <= i < n ==> Earlier(table[i], MemtableKey(u, s))
    requires n < |table| ==> !Earlier(table[n], MemtableKey(u, s))
    ensures var store := set e | e in entries;
            && (n < |entries| && entries[n].key.user == u ==> Newest(store, u, s, entries[n]))
            && (!(n < |entries| && entries[n].key.user == u) ==> NoneVisible(store, u, s))
  {
    hide Before, Earlier, Record, MemtableKey;
    var store := set e | e in entries;
    var r := if n < |entries| then Some(entries[n]) else None;
    forall i | 0 <= i < |entries|
      ensures Earlier(table[i], MemtableKey(u, s)) <==> Before(entries[i].key, LookupKey(u, s))
    {
      EarlierThanTarget(entries[i], u, s);
    }
    forall i | n <= i < |entries| ensures !Before(entries[i].key, entries[n].key) {
      InternalKeysOrdered();
    }
    assert FirstFrom(store, LookupKey(u, s), r);
    SeekAnswers(store, u, s, r);
  }
}
