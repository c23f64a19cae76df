// HandleTable: the cache's hash table with chained buckets (util/cache.cc).
module HandleTables {
  import opened Keys
  import opened Handles

  ghost predicate Linked(chain: seq<Handle>, first: Handle?)
    reads chain`nextHash
  {
    if chain == [] then first == null
    else
      && first == chain[0]
      && (forall k :: 0 <= k < |chain| - 1 ==> chain[k].nextHash == chain[k + 1])
      && chain[|chain| - 1].nextHash == null
  }

  // Each handle is in one place, in the bucket of its hash.
  ghost predicate Spread(chains: seq<seq<Handle>>, handles: set<Handle>) {
    && chains != []
    && (forall b, k :: 0 <= b < |chains| && 0 <= k < |chains[b]| ==>
          chains[b][k] in handles && chains[b][k].hash % |chains| == b)
    && (forall h :: h in handles ==> h in chains[h.hash % |chains|])
    && (forall b :: 0 <= b < |chains| ==> Distinct(chains[b]))
  }

  ghost predicate Buckets(list: array<Handle?>, chains: seq<seq<Handle>>, handles: set<Handle>)
    reads list, handles`nextHash
  {
    && Spread(chains, handles)
    && list.Length == |chains|
    && (forall b :: 0 <= b < |chains| ==> Linked(chains[b], list[b]))
  }

  // No two handles have the same key and hash.
  ghost predicate Keyed(handles: set<Handle>) {
    forall g, h :: g in handles && h in handles && g.Matches(h.key, h.hash) ==> g == h
  }

  function Opt(h: Handle?): set<Handle> {
    if h == null then {} else {h}
  }

  // The links of the first k handles, and of the ones after chain[k].
  lemma Unroll(chain: seq<Handle>, first: Handle?, k: nat)
    requires Linked(chain, first) && k <= |chain|
    ensures forall j :: 0 <= j < k - 1 ==> chain[j].nextHash == chain[j + 1]
    ensures k > 0 ==> first == chain[0]
    ensures k < |chain| ==> Linked(chain[k + 1..], chain[k].nextHash)
  {
  }

  lemma RestLinked(chain: seq<Handle>, first: Handle?, k: nat)
    requires Linked(chain, first) && Distinct(chain) && k <= |chain|
    ensures k < |chain| ==> Linked(chain[k + 1..], chain[k].nextHash)
    ensures Linked([], null)
    ensures k < |chain| ==> forall h :: h in chain[k + 1..] ==> h !in chain[..k]
  {
    if k < |chain| {
      Unroll(chain, first, k);
      forall h | h in chain[k + 1..]
        ensures h !in chain[..k]
      {
        var j :| k < j < |chain| && chain[j] == h;
      }
    }
  }

  lemma JoinLinked(chain: seq<Handle>, tail: seq<Handle>, first: Handle?, start: Handle?)
    requires Linked(tail, first)
    requires chain == [] ==> start == first
    requires chain != [] ==> start == chain[0] && chain[|chain| - 1].nextHash == first
    requires forall j :: 0 <= j < |chain| - 1 ==> chain[j].nextHash == chain[j + 1]
    ensures Linked(chain + tail, start)
  {
  }

  // Bucket b gets a new chain.
  lemma SpreadUpdated(chains: seq<seq<Handle>>, handles: set<Handle>, b: nat, chain: seq<Handle>, handles': set<Handle>)
    requires Spread(chains, handles) && b < |chains|
    requires Distinct(chain) && forall h :: h in chain ==> h.hash % |chains| == b
    requires forall h: Handle :: h in handles' <==> if h.hash % |chains| == b then h in chain else h in handles
    ensures Spread(chains[b := chain], handles')
  {
    var after := chains[b := chain];
    forall c, k | 0 <= c < |after| && 0 <= k < |after[c]|
      ensures after[c][k] in handles' && after[c][k].hash % |after| == c
    {
      assert after[c][k] in after[c];
    }
  }

  lemma ChainOf(chains: seq<seq<Handle>>, handles: set<Handle>, b: nat)
    requires Spread(chains, handles) && b < |chains|
    ensures Distinct(chains[b])
    ensures forall g :: g in chains[b] <==> g in handles && g.hash % |chains| == b
  {
  }

  lemma KeyedPut(handles: set<Handle>, replaced: Handle?, h: Handle)
    requires Keyed(handles) && h !in handles
    requires replaced == null ==> forall g :: g in handles ==> !g.Matches(h.key, h.hash)
    requires replaced != null ==> replaced in handles && replaced.Matches(h.key, h.hash)
    ensures Keyed(handles - Opt(replaced) + {h})
    ensures |handles - Opt(replaced) + {h}| == if replaced == null then |handles| + 1 else |handles|
  {
  }

  // Handle h takes the place of chain[k], or the end of the chain.
  lemma SpreadPut(chains: seq<seq<Handle>>, handles: set<Handle>, b: nat, k: nat, h: Handle)
    requires Spread(chains, handles) && b < |chains| && k <= |chains[b]|
    requires h !in handles && h.hash % |chains| == b
    ensures var chain := chains[b];
            if k < |chain| then Spread(chains[b := chain[..k] + ([h] + chain[k + 1..])], handles - {chain[k]} + {h})
            else Spread(chains[b := chain[..k] + ([h] + [])], handles + {h})
  {
    var chain := chains[b];
    if k < |chain| {
      var after := chain[..k] + ([h] + chain[k + 1..]);
      assert forall i :: 0 <= i < |chain| && i != k ==> after[i] == chain[i];
      MembersButOne(chain, after, k, h);
      SpreadUpdated(chains, handles, b, after, handles - {chain[k]} + {h});
    } else {
      SpreadUpdated(chains, handles, b, chain[..k] + ([h] + []), handles + {h});
    }
  }

  lemma MembersButOne(chain: seq<Handle>, after: seq<Handle>, k: nat, h: Handle)
    requires Distinct(chain) && k < |chain| && h !in chain
    requires after == chain[..k] + ([h] + chain[k + 1..])
    ensures Distinct(after) && forall g :: g in after <==> g == h || (g in chain && g != chain[k])
  {
  }

  lemma SpreadCut(chains: seq<seq<Handle>>, handles: set<Handle>, b: nat, k: nat)
    requires Spread(chains, handles) && b < |chains| && k < |chains[b]|
    ensures var chain := chains[b];
            Spread(chains[b := chain[..k] + chain[k + 1..]], handles - {chain[k]})
  {
    var chain := chains[b];
    var after := chain[..k] + chain[k + 1..];
    MembersWithout(chain, after, k);
    SpreadUpdated(chains, handles, b, after, handles - {chain[k]});
  }

  lemma MembersWithout(chain: seq<Handle>, after: seq<Handle>, k: nat)
    requires Distinct(chain) && k < |chain| && after == chain[..k] + chain[k + 1..]
    ensures Distinct(after) && forall g :: g in after <==> g in chain && g != chain[k]
  {
  }

  lemma Assemble(list: array<Handle?>, chains: seq<seq<Handle>>, handles: set<Handle>)
    requires Spread(chains, handles) && list.Length == |chains|
    requires forall b :: 0 <= b < |chains| ==> Linked(chains[b], list[b])
    ensures Buckets(list, chains, handles)
  {
  }

  lemma TableSize(list: array<Handle?>, chains: seq<seq<Handle>>, handles: set<Handle>)
    requires Buckets(list, chains, handles)
    ensures list.Length == |chains| > 0 && Spread(chains, handles)
    ensures forall b :: 0 <= b < |chains| ==> Linked(chains[b], list[b])
  {
  }

  lemma EmptyBuckets(list: array<Handle?>, chains: seq<seq<Handle>>)
    requires list.Length == |chains| > 0
    requires forall b :: 0 <= b < |chains| ==> chains[b] == [] && list[b] == null
    ensures Buckets(list, chains, {})
  {
  }

  // Push a handle onto its bucket of the new list.
  method MoveTo(list: array<Handle?>, h: Handle, ghost chains: seq<seq<Handle>>, ghost moved: set<Handle>)
      returns (ghost newChains: seq<seq<Handle>>)
    requires Buckets(list, chains, moved) && h !in moved
    modifies list, h`nextHash
    ensures Buckets(list, newChains, moved + {h})
  {
    var b := h.hash % list.Length;
    ghost var chain := chains[b];
    h.nextHash := list[b];
    list[b] := h;
    JoinLinked([h], chain, h.nextHash, h);
    newChains := chains[b := [h] + chain];
    SpreadUpdated(chains, moved, b, [h] + chain, moved + {h});
  }

  ghost function Members(chain: seq<Handle>): set<Handle> {
    set h | h in chain
  }

  method MoveChain(first: Handle?, list: array<Handle?>, ghost chain: seq<Handle>, ghost chains: seq<seq<Handle>>,
                   ghost moved: set<Handle>)
      returns (ghost newChains: seq<seq<Handle>>)
    requires Linked(chain, first) && Distinct(chain)
    requires Buckets(list, chains, moved) && forall h :: h in chain ==> h !in moved
    modifies list, chain`nextHash
    ensures Buckets(list, newChains, moved + Members(chain))
  {
    hide Buckets;
    newChains := chains;
    var h := first;
    ghost var k := 0;
    assert chain[0..] == chain && moved + Members(chain[..0]) == moved;
    while h != null
      invariant k <= |chain| && Linked(chain[k..], h)
      invariant Buckets(list, newChains, moved + Members(chain[..k]))
      decreases |chain| - k
    {
      var next := h.nextHash;
      FirstOfChain(chain, h, k);
      newChains := MoveTo(list, h, newChains, moved + Members(chain[..k]));
      assert moved + Members(chain[..k]) + {h} == moved + Members(chain[..k + 1]);
      h := next;
      k := k + 1;
    }
    assert chain[..k] == chain;
  }

  lemma FirstOfChain(chain: seq<Handle>, h: Handle, k: nat)
    requires Distinct(chain) && k <= |chain| && Linked(chain[k..], h)
    ensures k < |chain| && h == chain[k] && Linked(chain[k + 1..], h.nextHash)
    ensures h !in chain[..k] && h !in chain[k + 1..]
    ensures Members(chain[..k + 1]) == Members(chain[..k]) + {h}
  {
    assert chain[k..][0] == chain[k];
    Unroll(chain[k..], h, 0);
    assert chain[k..][1..] == chain[k + 1..];
    assert chain[..k + 1] == chain[..k] + [h];
  }

  class HandleTable {
    var list: array<Handle?>
    var elems: nat
    ghost var chains: seq<seq<Handle>>
    ghost var handles: set<Handle>

    ghost predicate Valid()
      reads this, list, handles`nextHash
    {
      Buckets(list, chains, handles) && Keyed(handles) && elems == |handles|
    }

    constructor ()
      ensures Valid() && handles == {} && fresh(list)
    {
      list := new Handle?[4](_ => null);
      elems, chains, handles := 0, seq(4, _ => []), {};
      new;
      EmptyBuckets(list, chains);
    }

    // Walk the chain of the hash's bucket: the handle that matches, or null,
    // and the one before it, or null when that slot is the bucket itself.
    method FindPointer(key: seq<Byte>, hash: nat) returns (before: Handle?, h: Handle?, ghost k: nat)
      requires Valid()
      ensures h == null ==> forall g :: g in handles ==> !g.Matches(key, hash)
      ensures h != null ==> h in handles && h.Matches(key, hash)
      ensures Found(before, h, hash % |chains|, k)
    {
      before, h, k := null, list[hash % list.Length], 0;
      ghost var chain := chains[hash % |chains|];
      while h != null && !(h.hash == hash && h.key == key)
        invariant k <= |chain|
        invariant h == (if k < |chain| then chain[k] else null)
        invariant before == (if k > 0 then chain[k - 1] else null)
        invariant forall i :: 0 <= i < k ==> !chain[i].Matches(key, hash)
        decreases |chain| - k
      {
        before := h;
        h := h.nextHash;
        k := k + 1;
      }
    }

    method Lookup(key: seq<Byte>, hash: nat) returns (h: Handle?)
      requires Valid()
      ensures h == null ==> forall g :: g in handles ==> !g.Matches(key, hash)
      ensures h != null ==> h in handles && h.Matches(key, hash)
    {
      ghost var k;
      var before;
      before, h, k := FindPointer(key, hash);
    }

    // Take the place of the handle with the same key, or the end of its chain.
    method Insert(h: Handle) returns (replaced: Handle?)
      requires Valid() && h !in handles
      modifies this, list, handles`nextHash, h`nextHash
      ensures Valid() && (list == old(list) || fresh(list))
      ensures handles == old(handles) - Opt(replaced) + {h}
      ensures replaced == null ==> forall g :: g in old(handles) ==> !g.Matches(h.key, h.hash)
      ensures replaced != null ==> replaced in old(handles) && replaced.Matches(h.key, h.hash)
    {
      hide Buckets, Keyed;
      var before;
      ghost var k;
      before, replaced, k := FindPointer(h.key, h.hash);
      KeyedPut(handles, replaced, h);
      Put(before, replaced, h, k);
      if replaced == null {
        elems := elems + 1;
        if elems > list.Length {
          Resize();
        }
      }
    }

    // What chain b becomes when h goes in at place k.
    ghost function WithHandle(b: nat, k: nat, h: Handle): seq<Handle>
      requires b < |chains| && k <= |chains[b]|
      reads this
    {
      chains[b][..k] + ([h] + if k < |chains[b]| then chains[b][k + 1..] else [])
    }

    ghost predicate Found(before: Handle?, h: Handle?, b: nat, k: nat)
      reads this
    {
      && b < |chains| && k <= |chains[b]|
      && h == (if k < |chains[b]| then chains[b][k] else null)
      && before == (if k > 0 then chains[b][k - 1] else null)
    }

    lemma FoundInChain(before: Handle?, h: Handle?, b: nat, k: nat)
      requires Found(before, h, b, k)
      ensures b < |chains| && k <= |chains[b]| && h == if k < |chains[b]| then chains[b][k] else null
    {
    }

    // *ptr = h
    method LinkIn(before: Handle?, replaced: Handle?, h: Handle, b: nat, ghost k: nat)
      requires Buckets(list, chains, handles) && h !in handles
      requires b < |chains| && Found(before, replaced, b, k)
      modifies list, handles`nextHash, h`nextHash
      ensures forall c :: 0 <= c < |chains| ==> Linked(if c == b then WithHandle(b, k, h) else chains[c], list[c])
    {
      hide Linked, Distinct;
      ghost var chain := chains[b];
      ghost var rest := if k < |chain| then chain[k + 1..] else [];
      h.nextHash := if replaced == null then null else replaced.nextHash;
      RestLinked(chain, list[b], k);
      JoinLinked([h], rest, h.nextHash, h);
      SetSlot(before, h, b, k, [h] + rest);
    }

    method Put(before: Handle?, replaced: Handle?, h: Handle, ghost k: nat)
      requires Buckets(list, chains, handles) && h !in handles
      requires Found(before, replaced, h.hash % |chains|, k)
      modifies this`chains, this`handles, list, handles`nextHash, h`nextHash
      ensures Buckets(list, chains, handles) && handles == old(handles) - Opt(replaced) + {h}
    {
      hide Linked, Spread, Buckets, Distinct, Found;
      TableSize(list, chains, handles);
      var b := h.hash % list.Length;
      FoundInChain(before, replaced, b, k);
      LinkIn(before, replaced, h, b, k);
      SpreadPut(chains, handles, b, k, h);
      assert handles - {} + {h} == handles + {h};
      Assemble(list, chains[b := WithHandle(b, k, h)], handles - Opt(replaced) + {h});
      chains := chains[b := WithHandle(b, k, h)];
      handles := handles - Opt(replaced) + {h};
    }

    method Remove(key: seq<Byte>, hash: nat) returns (removed: Handle?)
      requires Valid()
      modifies this, list, handles`nextHash
      ensures Valid() && list == old(list)
      ensures handles == old(handles) - Opt(removed)
      ensures removed == null ==> forall g :: g in old(handles) ==> !g.Matches(key, hash)
      ensures removed != null ==> removed in old(handles) && removed.Matches(key, hash)
    {
      hide Buckets;
      var before;
      ghost var k;
      before, removed, k := FindPointer(key, hash);
      if removed != null {
        Cut(before, removed, k);
        elems := elems - 1;
      }
    }

    // *ptr = removed->next_hash
    method Cut(before: Handle?, removed: Handle, ghost k: nat)
      requires Buckets(list, chains, handles)
      requires Found(before, removed, removed.hash % |chains|, k)
      modifies this`chains, this`handles, list, handles`nextHash
      ensures Buckets(list, chains, handles) && handles == old(handles) - {removed}
    {
      hide Linked, Distinct;
      var b := removed.hash % list.Length;
      ghost var chain := chains[b];
      RestLinked(chain, list[b], k);
      SetSlot(before, removed.nextHash, b, k, chain[k + 1..]);
      SpreadCut(chains, handles, b, k);
      chains := chains[b := chain[..k] + chain[k + 1..]];
      handles := handles - {removed};
    }

    // Write through the slot that FindPointer found.
    method SetSlot(before: Handle?, first: Handle?, b: nat, ghost k: nat, ghost tail: seq<Handle>)
      requires Buckets(list, chains, handles) && b < |chains| && k <= |chains[b]|
      requires before == if k > 0 then chains[b][k - 1] else null
      requires Linked(tail, first) && forall h :: h in tail ==> h !in chains[b][..k]
      modifies list, Opt(before)`nextHash
      ensures forall c :: 0 <= c < |chains| ==> Linked(if c == b then chains[b][..k] + tail else chains[c], list[c])
    {
      ghost var chain := chains[b];
      Unroll(chain, list[b], k);
      if before == null {
        list[b] := first;
      } else {
        assert before == chain[..k][k - 1];
        assert forall h :: h in tail ==> h != before;
        before.nextHash := first;
      }
      JoinLinked(chain[..k], tail, first, list[b]);
    }

    method NewLength() returns (n: nat)
      ensures n >= 4 && n >= elems
    {
      n := 4;
      while n < elems
        invariant n >= 4
        decreases elems - n
      {
        n := n * 2;
      }
    }

    // Move every handle to a larger list of buckets.
    method Resize()
      requires Valid()
      modifies this, list, handles`nextHash
      ensures Valid() && handles == old(handles) && elems == old(elems) && fresh(list)
      ensures list.Length >= 4 && list.Length >= elems
    {
      hide Linked, Spread, Buckets, Distinct, Keyed;
      var newLength := NewLength();
      var newList := new Handle?[newLength](_ => null);
      ghost var newChains: seq<seq<Handle>> := seq(newLength, _ => []);
      ghost var moved: set<Handle> := {};
      EmptyBuckets(newList, newChains);
      TableSize(list, chains, handles);
      for i := 0 to list.Length
        invariant chains == old(chains) && handles == old(handles) && list == old(list) && elems == old(elems)
        invariant Spread(chains, handles) && list.Length == |chains|
        invariant fresh(newList) && Buckets(newList, newChains, moved)
        invariant forall g :: g in moved <==> g in handles && g.hash % |chains| < i
        invariant forall c :: i <= c < |chains| ==> Linked(chains[c], list[c])
      {
        ChainOf(chains, handles, i);
        newChains := MoveChain(list[i], newList, chains[i], newChains, moved);
        moved := moved + Members(chains[i]);
      }
      list, chains := newList, newChains;
      assert moved == handles;
    }
  }
}
