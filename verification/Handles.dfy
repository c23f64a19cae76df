// Cache entries on circular doubly linked lists (util/cache.cc).
module Handles {
  import opened Keys

  class Handle {
    const key: seq<Byte>
    const hash: nat
    const charge: nat
    var nextHash: Handle?
    var next: Handle?
    var prev: Handle?
    var inCache: bool
    var refs: nat

    constructor (key: seq<Byte>, hash: nat, charge: nat)
      ensures this.key == key && this.hash == hash && this.charge == charge
      ensures refs == 1 && !inCache
    {
      this.key, this.hash, this.charge := key, hash, charge;
      nextHash, next, prev := null, null, null;
      inCache, refs := false, 1;
    }

    predicate Matches(k: seq<Byte>, h: nat) {
      hash == h && key == k
    }
  }

  ghost predicate Distinct(r: seq<Handle>) {
    forall i, j :: 0 <= i < j < |r| ==> r[i] != r[j]
  }

  function Next(i: nat, n: nat): (j: nat)
    requires i < n
    ensures j < n
  {
    if i + 1 < n then i + 1 else 0
  }

  function Prev(i: nat, n: nat): (j: nat)
    requires i < n
    ensures j < n
  {
    if i > 0 then i - 1 else n - 1
  }

  // The handles of r form a circle; r[0] is its dummy head.
  ghost predicate Ring(r: seq<Handle>)
    reads r`next, r`prev
  {
    && r != []
    && Distinct(r)
    && (forall i :: 0 <= i < |r| ==> r[i].next == r[Next(i, |r|)])
    && (forall i :: 0 <= i < |r| ==> r[i].prev == r[Prev(i, |r|)])
  }

  function Without<T>(r: seq<T>, i: nat): (w: seq<T>)
    requires i < |r|
  {
    r[..i] + r[i + 1..]
  }

  // An empty list.
  method MakeRing(list: Handle)
    modifies list`next, list`prev
    ensures Ring([list])
  {
    list.next := list;
    list.prev := list;
  }

  // LRU_Remove
  method Unlink(e: Handle, ghost r: seq<Handle>, ghost i: nat)
    requires Ring(r) && 0 < i < |r| && r[i] == e
    modifies r`next, r`prev
    ensures Ring(Without(r, i))
  {
    assert e.next == r[Next(i, |r|)] && e.prev == r[i - 1];
    e.next.prev := e.prev;
    e.prev.next := e.next;
    assert forall k :: 0 <= k < |r| && k != i && k != i - 1 ==> r[k].next == r[Next(k, |r|)];
    assert forall k :: 0 <= k < |r| && k != i && k != Next(i, |r|) ==> r[k].prev == r[Prev(k, |r|)];
    StillRing(r, i);
  }

  // Only the neighbours of r[i] have new links, and they skip it.
  lemma StillRing(r: seq<Handle>, i: nat)
    requires Distinct(r) && 0 < i < |r|
    requires forall k :: 0 <= k < |r| && k != i && k != i - 1 ==> r[k].next == r[Next(k, |r|)]
    requires forall k :: 0 <= k < |r| && k != i && k != Next(i, |r|) ==> r[k].prev == r[Prev(k, |r|)]
    requires r[i - 1].next == r[Next(i, |r|)] && r[Next(i, |r|)].prev == r[i - 1]
    ensures Ring(Without(r, i))
  {
    var w := Without(r, i);
    forall k | 0 <= k < |w|
      ensures w[k].next == w[Next(k, |w|)]
    {
      var j := if k < i then k else k + 1;
      assert w[k] == r[j];
    }
    forall k | 0 <= k < |w|
      ensures w[k].prev == w[Prev(k, |w|)]
    {
      var j := if k < i then k else k + 1;
      assert w[k] == r[j];
    }
  }

  // LRU_Append: just in front of the dummy head, as the newest.
  method Append(list: Handle, e: Handle, ghost r: seq<Handle>)
    requires Ring(r) && r[0] == list && e !in r
    modifies r`next, r`prev, e`next, e`prev
    ensures Ring(r + [e])
  {
    assert list.prev == r[|r| - 1];
    e.next := list;
    e.prev := list.prev;
    e.prev.next := e;
    e.next.prev := e;
  }
}
