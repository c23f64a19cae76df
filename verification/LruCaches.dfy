// LRUCache: a hash table of entries, each on one of two lists, counted by its
// references (util/cache.cc).
module LruCaches {
  import opened Keys
  import opened Handles
  import opened HandleTables

  function Charges(s: seq<Handle>): nat {
    if s == [] then 0 else Charges(s[..|s| - 1]) + s[|s| - 1].charge
  }

  // The list without e.
  ghost function Minus(s: seq<Handle>, e: Handle?): seq<Handle> {
    if s == [] then []
    else Minus(s[..|s| - 1], e) + if s[|s| - 1] == e then [] else [s[|s| - 1]]
  }

  ghost predicate Apart(r: seq<Handle>, s: seq<Handle>) {
    forall h :: h in r ==> h !in s
  }

  lemma {:induction false} MinusMembers(s: seq<Handle>, e: Handle?)
    ensures forall h :: h in Minus(s, e) ==> h in s && h != e
    ensures forall h :: h in s && h != e ==> h in Minus(s, e)
    ensures Distinct(s) ==> Distinct(Minus(s, e))
  {
    if s != [] {
      MinusMembers(s[..|s| - 1], e);
      assert s == s[..|s| - 1] + [s[|s| - 1]];
      if Distinct(s) {
        assert Distinct(s[..|s| - 1]);
        assert s[|s| - 1] !in s[..|s| - 1];
      }
    }
  }

  lemma {:induction false} MinusOther(s: seq<Handle>, e: Handle?)
    requires e == null || e !in s
    ensures Minus(s, e) == s
  {
    if s != [] {
      MinusOther(s[..|s| - 1], e);
      assert s == s[..|s| - 1] + [s[|s| - 1]];
    }
  }

  lemma {:induction false} MinusAt(s: seq<Handle>, i: nat)
    requires Distinct(s) && i < |s|
    ensures Minus(s, s[i]) == Without(s, i)
    ensures Charges(Minus(s, s[i])) == Charges(s) - s[i].charge
  {
    var front, last := s[..|s| - 1], s[|s| - 1];
    assert s == front + [last];
    if i == |s| - 1 {
      MinusOther(front, last);
      assert Without(s, i) == front;
    } else {
      assert Distinct(front) && front[i] == s[i];
      MinusAt(front, i);
      assert Without(s, i) == Without(front, i) + [last];
      assert Minus(s, s[i]) == Minus(front, s[i]) + [last];
      ChargesPut(Minus(front, s[i]), last);
    }
  }

  lemma ChargesPut(s: seq<Handle>, e: Handle)
    ensures Charges(s + [e]) == Charges(s) + e.charge
  {
    assert (s + [e])[..|s|] == s;
  }

  lemma {:induction false} ChargesFront(s: seq<Handle>)
    requires s != []
    ensures Charges(s) == s[0].charge + Charges(s[1..])
  {
    if |s| > 1 {
      ChargesFront(s[..|s| - 1]);
      assert s[..|s| - 1][1..] == s[1..][..|s| - 2];
    }
  }

  class LruCache {
    const table: HandleTable
    const lru: Handle             // dummy head; the first behind it is the oldest
    const inUse: Handle           // dummy head
    var capacity: nat
    var usage: nat
    ghost var idle: seq<Handle>   // behind lru
    ghost var busy: seq<Handle>   // behind inUse
    ghost var clients: multiset<Handle>  // handed out and not released
    ghost var live: set<Handle>          // created and not deleted
    ghost var created: set<Handle>
    ghost var deleted: seq<Handle>       // calls of deleters, in order

    ghost predicate Lists()
      reads this`idle, this`busy, this`live, Nodes()`next, Nodes()`prev
    {
      && (forall h :: h in idle ==> h in live)
      && (forall h :: h in busy ==> h in live)
      && Ring([lru] + idle) && Ring([inUse] + busy) && Apart([lru] + idle, [inUse] + busy)
    }

    ghost function Nodes(): set<Handle>
      reads this`live
    {
      live + {lru, inUse}
    }

    // An entry has one reference for each client and one for the cache.
    ghost predicate Counted()
      reads this`idle, this`busy, this`live, this`clients, live`refs, live`inCache
    {
      && (forall h :: h in live ==> (h.inCache <==> h in idle || h in busy))
      && (forall h :: h in live ==> h.refs == clients[h] + if h.inCache then 1 else 0)
      && (forall h :: h in live ==> h.refs > 0)
      && (forall h :: h in idle ==> clients[h] == 0)
      && (forall h :: h in busy ==> clients[h] > 0)
      && (forall h :: h in clients ==> h in live)
    }

    // Each entry created is alive or was deleted once.
    ghost predicate Accounted()
      reads this`idle, this`busy, this`live, this`usage, this`created, this`deleted
    {
      && usage == Charges(idle) + Charges(busy)
      && lru !in created && inUse !in created
      && created == live + Members(deleted) && live !! Members(deleted)
      && Distinct(deleted)
    }

    ghost function Cached(): set<Handle>
      reads this`idle, this`busy
    {
      Members(idle) + Members(busy)
    }

    ghost predicate Valid()
      reads this, live, lru, inUse, table, table.list, table.handles`nextHash
    {
      Lists() && Counted() && Accounted() && table.Valid() && table.handles == Cached()
    }

    constructor (capacity: nat)
      ensures Valid() && this.capacity == capacity && usage == 0
      ensures idle == [] && busy == [] && clients == multiset{} && created == {}
    {
      hide Valid, Lists, Counted, Accounted, Next, Prev, Distinct, Buckets, Keyed;
      this.capacity, usage := capacity, 0;
      table := new HandleTable();
      lru := new Handle([], 0, 0);
      inUse := new Handle([], 0, 0);
      idle, busy, clients, live, created, deleted := [], [], multiset{}, {}, {}, [];
      new;
      MakeRing(lru);
      MakeRing(inUse);
      Empty();
    }

    lemma Empty()
      requires Ring([lru]) && Ring([inUse]) && lru != inUse
      requires table.Valid() && table.handles == {}
      requires idle == [] && busy == [] && clients == multiset{}
      requires live == {} && created == {} && deleted == [] && usage == 0
      ensures Valid()
    {
      assert [lru] + idle == [lru] && [inUse] + busy == [inUse];
    }

    // Take e off the list it is on.
    method LruRemove(e: Handle)
      requires Lists() && (e in idle || e in busy)
      modifies this`idle, this`busy, Nodes()`next, Nodes()`prev
      ensures Lists() && idle == Minus(old(idle), e) && busy == Minus(old(busy), e)
      ensures old(e in idle) ==> busy == old(busy)
      ensures old(e in busy) ==> idle == old(idle)
    {
      hide Minus, Charges, Ring, Distinct, Without, Apart;
      ghost var left := e in idle;
      ghost var head, s := if left then lru else inUse, if left then idle else busy;
      ghost var i :| 0 <= i < |s| && s[i] == e;
      RingMinus(head, s, i);
      NotOnBoth(lru, idle, inUse, busy, e);
      UnlinkFrom(e, [head] + s, i + 1, if left then [inUse] + busy else [lru] + idle);
      idle, busy := Minus(idle, e), Minus(busy, e);
    }

    // Make e the newest of a list.
    method LruAppend(list: Handle, e: Handle)
      requires Lists() && e in live && e !in idle && e !in busy && e != lru && e != inUse
      requires list == lru || list == inUse
      modifies this`idle, this`busy, Nodes()`next, Nodes()`prev
      ensures Lists()
      ensures idle == old(idle) + (if list == lru then [e] else [])
      ensures busy == old(busy) + (if list == lru then [] else [e])
    {
      hide Ring, Distinct, Apart;
      ghost var left := list == lru;
      ApartGrows(lru, idle, inUse, busy, e);
      AppendTo(list, e, [list] + if left then idle else busy, if left then [inUse] + busy else [lru] + idle);
      assert idle + [] == idle && busy + [] == busy;
      idle := idle + if left then [e] else [];
      busy := busy + if left then [] else [e];
    }

    // A client gets another reference; an idle entry becomes busy.
    method Ref(e: Handle)
      requires Lists() && e in live && (e in idle <==> e.refs == 1 && e.inCache) && e != lru && e != inUse
      modifies this`idle, this`busy, Nodes()`next, Nodes()`prev
      modifies e`refs
      ensures Lists() && e.refs == old(e.refs) + 1
      ensures idle == Minus(old(idle), e)
      ensures busy == old(busy) + if e in old(idle) then [e] else []
    {
      hide Minus, Ring, Distinct, Apart;
      if e.refs == 1 && e.inCache {
        MinusMembers(idle, e);
        ApartLists();
        LruRemove(e);
        LruAppend(inUse, e);
      } else {
        MinusOther(idle, e);
      }
      e.refs := e.refs + 1;
    }

    lemma ApartLists()
      requires Lists()
      ensures forall h :: h in idle ==> h !in busy && h != lru && h != inUse
      ensures forall h :: h in busy ==> h != lru && h != inUse
      ensures lru != inUse
      ensures Distinct(idle) && Distinct(busy)
    {
      hide Next, Prev;
      RingTail(lru, idle);
      RingTail(inUse, busy);
      assert forall h :: h in idle ==> h in [lru] + idle;
      assert lru in [lru] + idle && inUse in [inUse] + busy;
      assert forall h :: h in busy ==> h in [inUse] + busy;
    }

    // Drop a reference: the last one deletes the entry, the last one of a client
    // makes a cached entry idle, the newest of the idle ones.
    method Unref(e: Handle)
      requires Lists() && e in live && e.refs > 0
      requires if e.inCache then e in busy && e.refs > 1 else e !in idle && e !in busy
      modifies this`idle, this`busy, this`live, this`deleted, Nodes()`next, Nodes()`prev, e`refs
      ensures Lists() && e.refs == old(e.refs) - 1
      ensures deleted == old(deleted) + (if e.refs == 0 then [e] else [])
      ensures live == old(live) - (if e.refs == 0 then {e} else {})
      ensures busy == (if e.inCache && e.refs == 1 then Minus(old(busy), e) else old(busy))
      ensures idle == (if e.inCache && e.refs == 1 then old(idle) + [e] else old(idle))
    {
      hide Minus, Ring, Distinct, Apart;
      assert deleted + [] == deleted && live - {} == live;
      e.refs := e.refs - 1;
      if e.refs == 0 {
        deleted := deleted + [e];
        live := live - {e};
      } else if e.inCache && e.refs == 1 {
        ApartLists();
        MinusMembers(busy, e);
        LruRemove(e);
        LruAppend(lru, e);
      }
    }

    // What the reference counts say about a live entry.
    lemma Counts(e: Handle)
      requires Lists() && Counted() && e in live
      ensures e.refs > 0 && (e.inCache <==> e in idle || e in busy)
      ensures e in idle <==> e.refs == 1 && e.inCache
      ensures e in busy <==> e.refs > 1 && e.inCache
      ensures e.inCache ==> e.refs == clients[e] + 1
      ensures !e.inCache ==> e.refs == clients[e]
    {
    }

    // One entry's count has changed, and so has its membership of the lists.
    twostate lemma StillCounted(e: Handle)
      requires old(Counted()) && e in old(live)
      requires live == old(live) || live == old(live) - {e}
      requires forall h :: h in live && h != e ==> h.refs == old(h.refs) && h.inCache == old(h.inCache)
      requires forall h :: h in live && h != e ==> clients[h] == old(clients[h])
      requires Moves(old(idle), idle, e) && Moves(old(busy), busy, e)
      requires forall h :: h in clients ==> h in old(clients) || h == e
      requires e in live ==>
                 && (e.inCache <==> e in idle || e in busy)
                 && e.refs == clients[e] + (if e.inCache then 1 else 0) && e.refs > 0
                 && (e in idle ==> clients[e] == 0) && (e in busy ==> clients[e] > 0)
      requires e !in live ==> e !in idle && e !in busy && clients[e] == 0
      ensures Counted()
    {
    }

    lemma Parts()
      requires Valid()
      ensures Lists() && Counted() && Accounted() && table.Valid() && table.handles == Cached()
    {
    }

    lemma Whole()
      requires Lists() && Counted() && Accounted() && table.Valid() && table.handles == Cached()
      ensures Valid()
    {
    }

    // Nothing the table is made of has changed.
    twostate lemma TableStill()
      requires old(table.Valid())
      requires unchanged(table) && unchanged(table.list)
      requires forall h :: h in table.handles ==> h.nextHash == old(h.nextHash)
      ensures table.Valid()
    {
    }

    // The sum of the charges still matches, and e alone may have been deleted.
    twostate lemma StillAccounted(e: Handle)
      requires old(Accounted()) && e in old(live) && created == old(created)
      requires usage == Charges(idle) + Charges(busy)
      requires (live == old(live) && deleted == old(deleted)) ||
               (live == old(live) - {e} && deleted == old(deleted) + [e])
      ensures Accounted()
    {
      var d := old(deleted);
      if live != old(live) {
        assert forall i :: 0 <= i < |d| ==> d[i] in Members(d);
      }
    }

    lemma Charged()
      requires Accounted()
      ensures usage == Charges(idle) + Charges(busy)
    {
    }

    method Lookup(key: seq<Byte>, hash: nat) returns (e: Handle?)
      requires Valid()
      modifies this`idle, this`busy, this`clients, Nodes()`next, Nodes()`prev, live`refs
      ensures Valid() && Cached() == old(Cached())
      ensures e == null ==> clients == old(clients) && idle == old(idle) && busy == old(busy) &&
                            forall g :: g in Cached() ==> !g.Matches(key, hash)
      ensures e != null ==>
                && e in Cached() && e.Matches(key, hash) && clients == old(clients) + multiset{e}
                && idle == Minus(old(idle), e)
                && busy == old(busy) + (if e in old(idle) then [e] else [])
    {
      hide Minus, Charges, Distinct, Apart, Ring, HandleTable.Valid, Valid, Lists, Counted, Accounted, Cached, Members;
      Parts();
      CachedLive();
      e := table.Lookup(key, hash);
      if e != null {
        Give(e);
      }
      TableStill();
      Whole();
    }

    // A client gets a reference to a cached entry.
    method Give(e: Handle)
      requires Lists() && Counted() && Accounted() && e in Cached()
      modifies this`idle, this`busy, this`clients, Nodes()`next, Nodes()`prev, e`refs
      ensures Lists() && Counted() && Accounted() && Cached() == old(Cached())
      ensures clients == old(clients) + multiset{e}
      ensures idle == Minus(old(idle), e) && busy == old(busy) + (if e in old(idle) then [e] else [])
    {
      hide Minus, Charges, Distinct, Apart, Ring, Moves, Accounted, Counted;
      Counts(e);
      Charged();
      ApartLists();
      Moved(idle, busy, e);
      OnlyMoves(idle, e);
      OnlyMoves(busy, e);
      Ref(e);
      clients := clients + multiset{e};
      StillCounted(e);
      StillAccounted(e);
    }

    method Release(e: Handle)
      requires Valid() && e in clients
      modifies this`idle, this`busy, this`live, this`clients, this`deleted, Nodes()`next, Nodes()`prev, live`refs
      ensures Valid() && Cached() == old(Cached()) && clients == old(clients) - multiset{e}
      ensures var last := old(clients[e]) == 1;
              && deleted == old(deleted) + (if last && !e.inCache then [e] else [])
              && busy == (if last && e.inCache then Minus(old(busy), e) else old(busy))
              && idle == (if last && e.inCache then old(idle) + [e] else old(idle))
    {
      hide Minus, Charges, Distinct, Apart, Ring, HandleTable.Valid, Valid, Lists, Counted, Accounted, Cached, Members;
      Parts();
      Return(e);
      TableStill();
      Whole();
    }

    // A client's reference goes.
    method Return(e: Handle)
      requires Lists() && Counted() && Accounted() && e in clients
      modifies this`idle, this`busy, this`live, this`clients, this`deleted, Nodes()`next, Nodes()`prev, e`refs
      ensures Lists() && Counted() && Accounted() && Cached() == old(Cached())
      ensures clients == old(clients) - multiset{e} && live <= old(live)
      ensures var last := old(clients[e]) == 1;
              && deleted == old(deleted) + (if last && !e.inCache then [e] else [])
              && busy == (if last && e.inCache then Minus(old(busy), e) else old(busy))
              && idle == (if last && e.inCache then old(idle) + [e] else old(idle))
    {
      hide Minus, Charges, Distinct, Apart, Ring, Moves, Accounted, Counted, Members;
      ClientsLive(e);
      Counts(e);
      Charged();
      ApartLists();
      Moved(busy, idle, e);
      OnlyMoves(idle, e);
      OnlyMoves(busy, e);
      Unref(e);
      clients := clients - multiset{e};
      StillCounted(e);
      StillAccounted(e);
    }

    lemma ClientsLive(e: Handle)
      requires Counted() && e in clients
      ensures e in live && clients[e] > 0
    {
    }

    // A cached entry leaves the lists, and the cache's reference goes.
    method Forget(e: Handle)
      requires Lists() && Counted() && Accounted() && e in Cached()
      modifies this`idle, this`busy, this`live, this`deleted, this`usage, Nodes()`next, Nodes()`prev, e`refs, e`inCache
      ensures Lists() && Counted() && Accounted()
      ensures idle == Minus(old(idle), e) && busy == Minus(old(busy), e)
      ensures Cached() == old(Cached()) - {e} && live <= old(live)
      ensures usage == old(usage) - e.charge
      ensures deleted == old(deleted) + (if e in old(idle) then [e] else [])
    {
      hide Minus, Charges, Distinct, Apart, Ring, Moves, Accounted, Counted;
      Counts(e);
      Charged();
      ApartLists();
      OnlyMoves(idle, e);
      OnlyMoves(busy, e);
      WithoutOne(idle, busy, e);
      LruRemove(e);
      e.inCache := false;
      usage := usage - e.charge;
      Unref(e);
      StillCounted(e);
      StillAccounted(e);
    }

    // The entry is out of the table already.
    method FinishErase(e: Handle?) returns (erased: bool)
      requires Lists() && Counted() && Accounted()
      requires Opt(e) <= Cached() && table.Valid() && table.handles == Cached() - Opt(e)
      modifies this`idle, this`busy, this`live, this`deleted, this`usage, Nodes()`next, Nodes()`prev
      modifies Opt(e)`refs, Opt(e)`inCache
      ensures Valid() && erased == (e != null) && live <= old(live)
      ensures idle == Minus(old(idle), e) && busy == Minus(old(busy), e)
      ensures e == null ==> usage == old(usage) && deleted == old(deleted)
      ensures e != null ==> usage == old(usage) - e.charge
      ensures e != null ==> deleted == old(deleted) + (if e in old(idle) then [e] else [])
    {
      hide Minus, Charges, Distinct, Apart, Ring, HandleTable.Valid, Valid, Lists, Counted, Accounted, Cached, Members;
      if e != null {
        Forget(e);
      } else {
        MinusOther(idle, e);
        MinusOther(busy, e);
      }
      TableStill();
      Whole();
      erased := e != null;
    }

    // Drop the entry of a key; its clients may go on using it.
    method Erase(key: seq<Byte>, hash: nat) returns (ghost e: Handle?)
      requires Valid()
      modifies this, table, table.list, Nodes()
      ensures Valid()
      ensures e == null ==> forall g :: g in old(Cached()) ==> !g.Matches(key, hash)
      ensures e != null ==> e in old(Cached()) && e.Matches(key, hash)
      ensures idle == Minus(old(idle), e) && busy == Minus(old(busy), e)
      ensures clients == old(clients) && capacity == old(capacity)
      ensures deleted == old(deleted) + (if e != null && e in old(idle) then [e] else [])
    {
      hide Minus, Charges, Distinct, Apart, Ring, HandleTable.Valid, Valid, Lists, Counted, Accounted, Cached, Members;
      Parts();
      CachedLive();
      var removed := table.Remove(key, hash);
      e := removed;
      var erased := FinishErase(removed);
    }

    lemma CachedLive()
      requires Lists()
      ensures Cached() <= live
    {
    }

    // The oldest idle entry goes.
    method EvictOldest()
      requires Valid() && idle != []
      modifies this, table, table.list, Nodes()
      ensures Valid() && clients == old(clients) && capacity == old(capacity)
      ensures live <= old(live) && table.list == old(table.list)
      ensures idle == old(idle)[1..] && busy == old(busy)
      ensures deleted == old(deleted) + [old(idle)[0]]
      ensures usage == old(usage) - old(idle)[0].charge
    {
      hide Minus, Charges, Distinct, Apart, Ring, HandleTable.Valid, Valid, Lists, Counted, Accounted, Cached, Members;
      Parts();
      CachedLive();
      OldestFirst();
      var oldest: Handle := lru.next;
      var removed := table.Remove(oldest.key, oldest.hash);
      var erased := FinishErase(removed);
    }

    // Behind the dummy head is the oldest entry.
    lemma OldestFirst()
      requires Valid()
      ensures idle == [] <==> lru.next == lru
      ensures idle != [] ==> lru.next == idle[0] && idle[0] in Cached()
      ensures idle != [] ==> forall g :: g in Cached() && g.Matches(idle[0].key, idle[0].hash) ==> g == idle[0]
      ensures idle != [] ==> Minus(idle, idle[0]) == idle[1..] && Minus(busy, idle[0]) == busy
    {
      hide Minus, Charges, Accounted, Buckets;
      ApartLists();
      var r := [lru] + idle;
      assert r[0] == lru && (idle != [] ==> r[1] == idle[0]);
      if idle != [] {
        assert idle[0] in idle;
        MinusAt(idle, 0);
        MinusOther(busy, idle[0]);
        assert Without(idle, 0) == idle[1..];
      }
    }

    method Prune()
      requires Valid()
      modifies this, table, table.list, Nodes()
      ensures Valid() && clients == old(clients) && capacity == old(capacity)
      ensures idle == [] && busy == old(busy) && deleted == old(deleted) + old(idle)
    {
      hide Valid;
      OldestFirst();
      ghost var n := 0;
      while lru.next != lru
        invariant Valid() && clients == old(clients) && capacity == old(capacity)
        invariant live <= old(live) && table.list == old(table.list)
        invariant n <= |old(idle)| && idle == old(idle)[n..] && busy == old(busy)
        invariant deleted == old(deleted) + old(idle)[..n]
        invariant idle == [] <==> lru.next == lru
        decreases |idle|
      {
        EvictOldest();
        OldestFirst();
        n := n + 1;
      }
    }

    // Evict the oldest entries, no more than it takes.
    method Shrink() returns (ghost n: nat)
      requires Valid()
      modifies this, table, table.list, Nodes()
      ensures Valid() && clients == old(clients) && capacity == old(capacity)
      ensures n <= |old(idle)| && idle == old(idle)[n..] && busy == old(busy)
      ensures deleted == old(deleted) + old(idle)[..n]
      ensures usage <= capacity || idle == []
      ensures usage == old(usage) - Charges(old(idle)[..n])
      ensures forall m :: 0 <= m < n ==> old(usage) - Charges(old(idle)[..m]) > capacity
    {
      hide Valid, Charges;
      OldestFirst();
      n := 0;
      ghost var was := idle;
      NoCharge();
      while usage > capacity && lru.next != lru
        invariant Valid() && clients == old(clients) && capacity == old(capacity)
        invariant live <= old(live) && table.list == old(table.list)
        invariant n <= |was| && idle == was[n..] && busy == old(busy)
        invariant deleted == old(deleted) + was[..n]
        invariant idle == [] <==> lru.next == lru
        invariant usage == old(usage) - Charges(was[..n])
        invariant forall m :: 0 <= m < n ==> old(usage) - Charges(was[..m]) > capacity
        decreases |idle|
      {
        EvictOldest();
        OldestFirst();
        ChargesPut(was[..n], was[n]);
        assert was[..n + 1] == was[..n] + [was[n]];
        n := n + 1;
      }
    }

    lemma NoCharge()
      ensures Charges([]) == 0
      ensures idle[..0] == []
    {
    }

    // A new entry with one client, not cached.
    method Create(key: seq<Byte>, hash: nat, charge: nat) returns (e: Handle)
      requires Valid()
      modifies this`live, this`created, this`clients
      ensures Valid() && fresh(e) && e.key == key && e.hash == hash && e.charge == charge
      ensures e.refs == 1 && !e.inCache && live == old(live) + {e} && clients == old(clients) + multiset{e}
      ensures clients[e] == 1 && e !in idle && e !in busy
    {
      hide Charges, Distinct, Apart, Ring, HandleTable.Valid, Valid, Lists, Counted, Accounted;
      Parts();
      e := new Handle(key, hash, charge);
      live, created := live + {e}, created + {e};
      clients := clients + multiset{e};
      ListsStill();
      CreatedCounts(e);
      TableStill();
      Whole();
    }

    // Links have stayed, whatever else has changed.
    twostate lemma ListsStill()
      requires old(Lists()) && idle == old(idle) && busy == old(busy) && old(live) <= live
      requires forall h :: h in old(live) ==> unchanged(h`next) && unchanged(h`prev)
      requires unchanged(lru`next) && unchanged(lru`prev) && unchanged(inUse`next) && unchanged(inUse`prev)
      ensures Lists()
    {
      hide Distinct, Apart, Next, Prev;
      var r, t := [lru] + idle, [inUse] + busy;
      forall k | 0 <= k < |r|
        ensures r[k].next == old(r[k].next) && r[k].prev == old(r[k].prev)
      {
        if k > 0 { assert r[k] == idle[k - 1] && idle[k - 1] in idle; }
      }
      RingStill(r);
      forall k | 0 <= k < |t|
        ensures t[k].next == old(t[k].next) && t[k].prev == old(t[k].prev)
      {
        if k > 0 { assert t[k] == busy[k - 1] && busy[k - 1] in busy; }
      }
      RingStill(t);
    }

    twostate lemma CreatedCounts(new e: Handle)
      requires old(Lists()) && old(Counted()) && old(Accounted()) && fresh(e)
      requires idle == old(idle) && busy == old(busy) && usage == old(usage) && deleted == old(deleted)
      requires live == old(live) + {e} && created == old(created) + {e} && clients == old(clients) + multiset{e}
      requires forall h :: h in old(live) ==> unchanged(h)
      requires e.refs == 1 && !e.inCache
      ensures Counted() && Accounted()
      ensures clients[e] == 1 && e !in idle && e !in busy
    {
      hide Ring, Apart, Charges;
    }

    // The cache takes a new entry in, in the place of one with the same key.
    method Admit(e: Handle) returns (ghost replaced: Handle?)
      requires Valid() && e in live && !e.inCache
      modifies this, table, table.list, Nodes()
      ensures Valid() && clients == old(clients) && capacity == old(capacity)
      ensures replaced == null ==> forall g :: g in old(Cached()) ==> !g.Matches(e.key, e.hash)
      ensures replaced != null ==> replaced in old(Cached()) && replaced.Matches(e.key, e.hash)
      ensures idle == Minus(old(idle), replaced) && busy == Minus(old(busy) + [e], replaced)
      ensures usage == old(usage) + e.charge - (if replaced == null then 0 else replaced.charge)
      ensures deleted == old(deleted) + (if replaced != null && replaced in old(idle) then [replaced] else [])
      ensures table.list == old(table.list) || fresh(table.list)
      ensures live <= old(live)
    {
      hide Minus, Charges, Distinct, Apart, Ring, HandleTable.Valid, Valid, Lists, Counted, Accounted, Cached, Members;
      Parts();
      CachedLive();
      Counts(e);
      AddToBusy(e);
      TableStill();
      replaced := Enter(e);
    }

    // The table gets a handle that is on the lists already.
    method Enter(e: Handle) returns (ghost replaced: Handle?)
      requires Lists() && Counted() && Accounted() && table.Valid()
      requires e in Cached() && e !in table.handles && Cached() == table.handles + {e}
      modifies this`idle, this`busy, this`live, this`deleted, this`usage, table, table.list, Nodes()
      ensures Valid()
      ensures replaced == null ==> forall g :: g in old(table.handles) ==> !g.Matches(e.key, e.hash)
      ensures replaced != null ==> replaced in old(table.handles) && replaced.Matches(e.key, e.hash)
      ensures idle == Minus(old(idle), replaced) && busy == Minus(old(busy), replaced)
      ensures usage == old(usage) - (if replaced == null then 0 else replaced.charge)
      ensures deleted == old(deleted) + (if replaced != null && replaced in old(idle) then [replaced] else [])
      ensures table.list == old(table.list) || fresh(table.list)
      ensures live <= old(live)
    {
      hide Minus, Charges, Distinct, Apart, Ring, HandleTable.Valid, Valid, Lists, Counted, Accounted, Cached, Members;
      CachedLive();
      var displaced := table.Insert(e);
      replaced := displaced;
      TableChanged();
      var erased := FinishErase(displaced);
    }

    // Only the table and the chains have changed.
    twostate lemma TableChanged()
      requires old(Lists()) && old(Counted()) && old(Accounted())
      requires unchanged(this) && unchanged(lru`next) && unchanged(lru`prev) && unchanged(inUse`next) &&
               unchanged(inUse`prev)
      requires forall h :: h in live ==>
                 unchanged(h`next) && unchanged(h`prev) && unchanged(h`refs) &&
                 unchanged(h`inCache)
      ensures Lists() && Counted() && Accounted()
    {
      hide Ring, Apart, Charges, Distinct;
      ListsStill();
    }

    // The cache's reference comes.
    method AddToBusy(e: Handle)
      requires Lists() && Counted() && Accounted() && e in live && !e.inCache
      modifies this`idle, this`busy, this`usage, Nodes()`next, Nodes()`prev, e`refs, e`inCache
      ensures Lists() && Counted() && Accounted()
      ensures idle == old(idle) && busy == old(busy) + [e] && usage == old(usage) + e.charge
      ensures Cached() == old(Cached()) + {e} && e !in old(Cached())
    {
      hide Charges, Distinct, Apart, Ring, Moves, Accounted, Counted;
      Counts(e);
      Charged();
      ApartLists();
      NotHead(e);
      OnlyMoves(idle, e);
      OnlyMoves(busy, e);
      ChargesPut(busy, e);
      e.refs := e.refs + 1;
      e.inCache := true;
      LruAppend(inUse, e);
      usage := usage + e.charge;
      StillCounted(e);
      StillAccounted(e);
    }

    lemma NotHead(e: Handle)
      requires Accounted() && e in live
      ensures e != lru && e != inUse
    {
    }

    method Insert(key: seq<Byte>, hash: nat, charge: nat) returns (e: Handle, ghost replaced: Handle?, ghost n: nat)
      requires Valid()
      modifies this, table, table.list, Nodes()
      ensures Valid() && fresh(e) && e.key == key && e.hash == hash && e.charge == charge
      ensures clients == old(clients) + multiset{e} && capacity == old(capacity)
      ensures capacity == 0 ==> replaced == null && busy == old(busy)
      ensures capacity > 0 ==>
                && busy == Minus(old(busy) + [e], replaced)
                && (replaced == null ==> forall g :: g in old(Cached()) ==> !g.Matches(key, hash))
                && (replaced != null ==> replaced in old(Cached()) && replaced.Matches(key, hash))
      ensures var kept := Minus(old(idle), replaced);
              var added := if capacity > 0 then charge else 0;
              var dropped := if replaced == null then 0 else replaced.charge;
              && n <= |kept| && idle == kept[n..]
              && (usage <= capacity || idle == [])
              && (forall m :: 0 <= m < n ==> old(usage) + added - dropped - Charges(kept[..m]) > capacity)
              && deleted == old(deleted) +
                   (if replaced != null && replaced in old(idle) then [replaced] else []) + kept[..n]
    {
      hide Minus, Charges, Valid;
      e := Create(key, hash, charge);
      replaced := null;
      MinusOther(idle, null);
      if capacity > 0 {
        replaced := Admit(e);
      }
      n := Shrink();
    }
  }

  twostate lemma RingStill(r: seq<Handle>)
    requires old(Ring(r)) && forall k :: 0 <= k < |r| ==> r[k].next == old(r[k].next) && r[k].prev == old(r[k].prev)
    ensures Ring(r)
  {
  }

  method AppendTo(list: Handle, e: Handle, ghost r: seq<Handle>, ghost other: seq<Handle>)
    requires Ring(r) && r[0] == list && e !in r
    requires Ring(other) && e !in other && forall h :: h in other ==> h !in r
    modifies r`next, r`prev, e`next, e`prev
    ensures Ring(r + [e]) && Ring(other)
  {
    hide Next, Prev, Distinct;
    assert forall k :: 0 <= k < |other| ==> other[k] in other && other[k] !in r && other[k] != e;
    Append(list, e, r);
  }

  // Other lists are left alone.
  method UnlinkFrom(e: Handle, ghost r: seq<Handle>, ghost i: nat, ghost other: seq<Handle>)
    requires Ring(r) && 0 < i < |r| && r[i] == e
    requires Ring(other) && forall h :: h in other ==> h !in r
    modifies r`next, r`prev
    ensures Ring(Without(r, i)) && Ring(other)
  {
    hide Next, Prev, Distinct, Without;
    assert forall k :: 0 <= k < |other| ==> other[k] in other && other[k] !in r;
    Unlink(e, r, i);
  }

  // The same members, e perhaps apart.
  ghost predicate Moves(s: seq<Handle>, s': seq<Handle>, e: Handle) {
    && (forall h :: h in s && h != e ==> h in s')
    && (forall h :: h in s' && h != e ==> h in s)
  }

  lemma OnlyMoves(s: seq<Handle>, e: Handle)
    ensures Moves(s, s, e) && Moves(s, s + [e], e) && Moves(s, s + [], e) && Moves(s, Minus(s, e), e)
    ensures e in s + [e] && e !in Minus(s, e) && s + [] == s
  {
    hide Minus;
    MinusMembers(s, e);
  }

  lemma ChargesMinus(s: seq<Handle>, e: Handle?)
    requires Distinct(s)
    ensures Charges(Minus(s, e)) == Charges(s) - if e in s then e.charge else 0
  {
    hide Minus, Charges, Distinct;
    if e in s {
      var i :| 0 <= i < |s| && s[i] == e;
      MinusAt(s, i);
    } else {
      MinusOther(s, e);
    }
  }

  // An entry goes from one list to the other.
  lemma Moved(from: seq<Handle>, to: seq<Handle>, e: Handle)
    requires Distinct(from)
    ensures var more := to + if e in from then [e] else [];
            && Members(Minus(from, e)) + Members(more) == Members(from) + Members(to)
            && Charges(Minus(from, e)) + Charges(more) == Charges(from) + Charges(to)
  {
    hide Minus, Charges, Distinct;
    MinusMembers(from, e);
    ChargesMinus(from, e);
    ChargesPut(to, e);
    assert to + [] == to;
  }

  lemma WithoutOne(idle: seq<Handle>, busy: seq<Handle>, e: Handle)
    requires Distinct(idle) && Distinct(busy) && (e in idle <==> e !in busy)
    ensures Members(Minus(idle, e)) + Members(Minus(busy, e)) == Members(idle) + Members(busy) - {e}
    ensures Charges(Minus(idle, e)) + Charges(Minus(busy, e)) == Charges(idle) + Charges(busy) - e.charge
  {
    hide Minus, Charges, Distinct;
    MinusMembers(idle, e);
    MinusMembers(busy, e);
    ChargesMinus(idle, e);
    ChargesMinus(busy, e);
  }

  lemma RingMinus(head: Handle, s: seq<Handle>, i: nat)
    requires Ring([head] + s) && i < |s|
    ensures Without([head] + s, i + 1) == [head] + Minus(s, s[i])
  {
    hide Minus, Charges, Next, Prev;
    RingTail(head, s);
    MinusAt(s, i);
  }

  lemma RingTail(head: Handle, s: seq<Handle>)
    requires Distinct([head] + s)
    ensures Distinct(s) && head !in s
  {
    var r := [head] + s;
    assert r[0] == head && forall j :: 0 <= j < |s| ==> s[j] == r[j + 1];
  }

  lemma ApartGrows(lru: Handle, idle: seq<Handle>, inUse: Handle, busy: seq<Handle>, e: Handle)
    requires Apart([lru] + idle, [inUse] + busy) && e !in idle && e !in busy && e != lru && e != inUse
    ensures Apart([lru] + (idle + [e]), [inUse] + busy) && Apart([lru] + idle, [inUse] + (busy + [e]))
    ensures [lru] + idle + [e] == [lru] + (idle + [e]) && [inUse] + busy + [e] == [inUse] + (busy + [e])
    ensures forall h :: h in [inUse] + busy ==> h !in [lru] + idle
    ensures e !in [lru] + idle && e !in [inUse] + busy
  {
    assert [lru] + idle + [e] == [lru] + (idle + [e]) && [inUse] + busy + [e] == [inUse] + (busy + [e]);
    assert forall h :: h in [lru] + (idle + [e]) ==> h in [lru] + idle || h == e;
    assert forall h :: h in [inUse] + (busy + [e]) ==> h in [inUse] + busy || h == e;
  }

  // An entry is on one list; taking it off leaves the other as it is.
  lemma NotOnBoth(lru: Handle, idle: seq<Handle>, inUse: Handle, busy: seq<Handle>, e: Handle)
    requires Apart([lru] + idle, [inUse] + busy) && (e in idle || e in busy)
    ensures e in idle ==> Minus(busy, e) == busy
    ensures e in busy ==> Minus(idle, e) == idle
    ensures e in idle ==> e !in busy
    ensures if e in idle then forall h :: h in [inUse] + busy ==> h !in [lru] + idle
            else forall h :: h in [lru] + idle ==> h !in [inUse] + busy
    ensures Apart([lru] + Minus(idle, e), [inUse] + Minus(busy, e))
    ensures forall h :: h in Minus(idle, e) ==> h in idle
    ensures forall h :: h in Minus(busy, e) ==> h in busy
  {
    hide Minus;
    assert forall h :: h in idle ==> h in [lru] + idle;
    assert forall h :: h in busy ==> h in [inUse] + busy;
    if e in idle { MinusOther(busy, e); } else { MinusOther(idle, e); }
    MinusMembers(idle, e);
    MinusMembers(busy, e);
  }
}
