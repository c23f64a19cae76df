// MergingIterator: several sorted sources as one (table/merger.cc).
module Merger {
  import opened Keys
  import opened Store
  import opened Compaction
  import opened DbIter
  import opened Options

  // Where an iterator stands between its entries: everything before is in front.
  ghost function Ahead(it: InternalIterator): nat
    reads it
  {
    it.pos
  }

  // The same for an iterator read backwards: its current entry is in front.
  ghost function Behind(it: InternalIterator): nat
    requires it.Ok()
    reads it
  {
    if it.pos < |it.entries| then it.pos + 1 else 0
  }

  // Entries before n belong to the first p of the merged ones, the rest to the
  // others.
  ghost predicate Cut(entries: seq<Entry>, n: nat, merged: seq<Entry>, p: nat)
    requires n <= |entries| && p <= |merged|
  {
    && (forall i :: 0 <= i < n ==> entries[i] in merged[..p])
    && (forall i :: n <= i < |entries| ==> entries[i] in merged[p..])
  }

  lemma InOneHalf(merged: seq<Entry>, p: nat, e: Entry)
    requires SortedEntries(merged) && p <= |merged|
    ensures e in merged[..p] ==> e !in merged[p..]
  {
    if e in merged[..p] {
      var i :| 0 <= i < p && merged[..p][i] == e;
      forall j | 0 <= j < |merged[p..]|
        ensures merged[p..][j] != e
      {
        TwoEntries(merged, i, p + j);
      }
    }
  }

  lemma TwoEntries(merged: seq<Entry>, i: nat, j: nat)
    requires SortedEntries(merged) && i < j < |merged|
    ensures merged[i] != merged[j]
  {
    LessIrreflexive(merged[i].key.user);
    assert Before(merged[i].key, merged[j].key);
  }

  // A source without merged[p] is cut at p and at p + 1 alike.
  lemma CutMoves(entries: seq<Entry>, n: nat, merged: seq<Entry>, p: nat)
    requires n <= |entries| && p < |merged| && merged[p] !in entries
    ensures Cut(entries, n, merged, p) <==> Cut(entries, n, merged, p + 1)
  {
    assert merged[..p + 1] == merged[..p] + [merged[p]];
    assert merged[p..] == [merged[p]] + merged[p + 1..];
  }

  // The source that holds merged[p] moves over it.
  lemma CutSteps(entries: seq<Entry>, n: nat, merged: seq<Entry>, p: nat)
    requires SortedEntries(merged) && SortedEntries(entries)
    requires n < |entries| && p < |merged| && entries[n] == merged[p]
    ensures Cut(entries, n, merged, p) <==> Cut(entries, n + 1, merged, p + 1)
  {
    assert merged[..p + 1] == merged[..p] + [merged[p]];
    assert merged[p..] == [merged[p]] + merged[p + 1..];
    forall i | 0 <= i < |entries| && i != n
      ensures entries[i] != merged[p]
    {
      LessIrreflexive(merged[p].key.user);
      if i < n {
        assert Before(entries[i].key, entries[n].key);
      } else {
        assert Before(entries[n].key, entries[i].key);
      }
    }
  }

  // p is where the target falls among the merged entries.
  ghost predicate Falls(merged: seq<Entry>, p: nat, target: IKey)
    requires p <= |merged|
  {
    && (forall j :: 0 <= j < p ==> Before(merged[j].key, target))
    && (forall j :: p <= j < |merged| ==> !Before(merged[j].key, target))
  }

  lemma FallsSomewhere(merged: seq<Entry>, target: IKey) returns (p: nat)
    requires SortedEntries(merged)
    ensures p <= |merged| && Falls(merged, p, target)
  {
    InternalKeysOrdered();
    p := 0;
    while p < |merged| && Before(merged[p].key, target)
      invariant p <= |merged| && forall j :: 0 <= j < p ==> Before(merged[j].key, target)
    {
      p := p + 1;
    }
  }

  lemma FallsAtItself(merged: seq<Entry>, p: nat)
    requires SortedEntries(merged) && p < |merged|
    ensures Falls(merged, p, merged[p].key)
  {
    InternalKeysOrdered();
  }

  lemma SeekCuts(entries: seq<Entry>, n: nat, merged: seq<Entry>, p: nat, target: IKey)
    requires SortedEntries(entries) && n <= |entries| && p <= |merged|
    requires forall e :: e in entries ==> e in merged
    requires Falls(merged, p, target)
    requires forall i :: 0 <= i < n ==> Before(entries[i].key, target)
    requires n < |entries| ==> !Before(entries[n].key, target)
    ensures Cut(entries, n, merged, p)
  {
    InternalKeysOrdered();
    forall i | 0 <= i < |entries|
      ensures if i < n then entries[i] in merged[..p] else entries[i] in merged[p..]
    {
      assert entries[i] in entries;
      var j :| 0 <= j < |merged| && merged[j] == entries[i];
      if i < n {
        assert merged[..p][j] == entries[i];
      } else {
        assert n < i ==> Before(entries[n].key, entries[i].key);
        assert merged[p..][j - p] == entries[i];
      }
    }
  }

  // The entry a source is at, cut at p, comes no earlier than merged[p].
  lemma NotEarlier(entries: seq<Entry>, n: nat, merged: seq<Entry>, p: nat)
    requires SortedEntries(merged) && p <= |merged|
    requires n < |entries| && Cut(entries, n, merged, p)
    ensures p < |merged| && !Before(entries[n].key, merged[p].key)
    ensures entries[n].key == merged[p].key ==> entries[n] == merged[p]
  {
    assert entries[n] in merged[p..];
    var j :| p <= j < |merged| && merged[j] == entries[n];
    LessIrreflexive(merged[p].key.user);
    if p < j { InternalKeysOrdered(); }
  }

  // The source that holds merged[p], cut at p, is at it.
  lemma HolderIsThere(entries: seq<Entry>, n: nat, merged: seq<Entry>, p: nat)
    requires SortedEntries(merged) && SortedEntries(entries) && n <= |entries| && p < |merged|
    requires merged[p] in entries && Cut(entries, n, merged, p)
    ensures n < |entries| && entries[n] == merged[p]
  {
    var i :| 0 <= i < |entries| && entries[i] == merged[p];
    assert merged[p..][0] == merged[p];
    InOneHalf(merged, p, merged[p]);
    if n < i {
      NotEarlier(entries, n, merged, p);
    }
  }

  lemma NotLater(entries: seq<Entry>, n: nat, merged: seq<Entry>, p: nat)
    requires SortedEntries(merged) && p <= |merged|
    requires 0 < n <= |entries| && Cut(entries, n, merged, p)
    ensures p > 0 && !Before(merged[p - 1].key, entries[n - 1].key)
    ensures entries[n - 1].key == merged[p - 1].key ==> entries[n - 1] == merged[p - 1]
  {
    assert entries[n - 1] in merged[..p];
    var j :| 0 <= j < p && merged[j] == entries[n - 1];
    LessIrreflexive(entries[n - 1].key.user);
    if j < p - 1 { InternalKeysOrdered(); }
  }

  lemma HolderIsBehind(entries: seq<Entry>, n: nat, merged: seq<Entry>, p: nat)
    requires SortedEntries(merged) && SortedEntries(entries) && n <= |entries| && 0 < p <= |merged|
    requires merged[p - 1] in entries && Cut(entries, n, merged, p)
    ensures 0 < n && entries[n - 1] == merged[p - 1]
  {
    var i :| 0 <= i < |entries| && entries[i] == merged[p - 1];
    assert merged[..p][p - 1] == merged[p - 1];
    InOneHalf(merged, p, merged[p - 1]);
    if i < n - 1 {
      NotLater(entries, n, merged, p);
    }
  }

  // Move a source that does not hold merged[p] right behind that entry.
  method StepBehind(child: InternalIterator, key: IKey, ghost merged: seq<Entry>, ghost p: nat)
    requires child.Ok() && SortedEntries(merged) && p < |merged| && merged[p].key == key
    requires forall e :: e in child.entries ==> e in merged && e != merged[p]
    modifies child
    ensures child.Ok() && Cut(child.entries, child.pos, merged, p)
  {
    FallsAtItself(merged, p);
    child.Seek(key);
    SeekCuts(child.entries, child.pos, merged, p, key);
    if child.Valid() {
      NotEarlier(child.entries, child.pos, merged, p);
      assert child.entries[child.pos] in child.entries;
      if child.entries[child.pos].key == key {
        assert false;  // no two sources share a key
      }
    }
  }

  // Move a source that does not hold merged[p] right in front of that entry.
  method StepInFront(child: InternalIterator, key: IKey, ghost merged: seq<Entry>, ghost p: nat)
    requires child.Ok() && SortedEntries(merged) && p < |merged| && merged[p].key == key
    requires forall e :: e in child.entries ==> e in merged && e != merged[p]
    modifies child
    ensures child.Ok() && Cut(child.entries, Behind(child), merged, p + 1)
  {
    FallsAtItself(merged, p);
    child.Seek(key);
    SeekCuts(child.entries, child.pos, merged, p, key);
    CutMoves(child.entries, child.pos, merged, p);
    if child.Valid() {
      child.Prev();
    } else {
      child.SeekToLast();
    }
  }

  class MergingIterator {
    const children: seq<InternalIterator>
    ghost const merged: seq<Entry>
    var current: Option<nat>
    var direction: Direction
    ghost var pos: nat       // position in merged; |merged| when not valid

    // The children hold the merged entries, each in one of them.
    static ghost predicate Shares(children: seq<InternalIterator>, merged: seq<Entry>)
    {
      && SortedEntries(merged)
      && (forall i, j :: 0 <= i < j < |children| ==> children[i] != children[j])
      && (forall i, e :: 0 <= i < |children| && e in children[i].entries ==> e in merged)
      && (forall e :: e in merged ==> exists i :: 0 <= i < |children| && e in children[i].entries)
      && (forall i, j, e :: 0 <= i < j < |children| && e in children[i].entries ==> e !in children[j].entries)
    }

    ghost predicate Sources() { Shares(children, merged) }

    constructor (children: seq<InternalIterator>, ghost merged: seq<Entry>)
      requires Shares(children, merged)
      requires forall i :: 0 <= i < |children| ==> children[i].Ok()
      ensures Ok() && this.children == children && this.merged == merged && current.None?
    {
      this.children, this.merged := children, merged;
      current, direction, pos := None, Forward, |merged|;
    }

    ghost predicate Forwards(p: nat)
      requires p <= |merged|
      reads children
    {
      forall i :: 0 <= i < |children| ==>
        children[i].Ok() && Cut(children[i].entries, children[i].pos, merged, p)
    }

    ghost predicate Backwards(p: nat)
      requires p <= |merged|
      reads children
    {
      forall i :: 0 <= i < |children| ==>
        children[i].Ok() && Cut(children[i].entries, Behind(children[i]), merged, p)
    }

    // Child c, and no other, holds the entry at pos.
    ghost predicate Holds(c: nat)
      reads this, children
    {
      && pos < |merged| && c < |children|
      && children[c].Valid() && children[c].entries[children[c].pos] == merged[pos]
      && forall i :: 0 <= i < |children| && i != c ==> merged[pos] !in children[i].entries
    }

    ghost predicate Ok()
      reads this, children
    {
      && Sources()
      && pos <= |merged|
      && (forall i :: 0 <= i < |children| ==> children[i].Ok())
      && (current.Some? <==> pos < |merged|)
      && (current.Some? ==>
            && current.value < |children|
            && children[current.value].Valid()
            && children[current.value].entries[children[current.value].pos] == merged[pos])
      && (current.Some? && direction.Forward? ==> Forwards(pos))
      && (current.Some? && direction.Reverse? ==> Backwards(pos + 1))
    }

    // Pick the child with the smallest key.
    method FindSmallest()
      requires Sources() && pos <= |merged| && Forwards(pos) && direction.Forward?
      modifies this`current
      ensures Ok()
    {
      hide Cut;
      current := None;
      for i := 0 to |children|
        invariant Sources() && pos <= |merged| && Forwards(pos) && direction.Forward?
        invariant current.None? ==> forall k :: 0 <= k < i ==> !children[k].Valid()
        invariant current.Some? ==> current.value < i && children[current.value].Valid()
        invariant current.Some? ==> forall k :: 0 <= k < i && children[k].Valid() ==>
                    !Before(children[k].entries[children[k].pos].key,
                            children[current.value].entries[children[current.value].pos].key)
      {
        InternalKeysOrdered();
        if children[i].Valid() {
          if current.None? {
            current := Some(i);
          } else if Before(children[i].entries[children[i].pos].key,
                           children[current.value].entries[children[current.value].pos].key) {
            current := Some(i);
          }
        }
      }
      SmallestIsNext();
    }

    lemma SmallestIsNext()
      requires Sources() && pos <= |merged| && Forwards(pos)
      requires current.None? ==> forall k :: 0 <= k < |children| ==> !children[k].Valid()
      requires current.Some? ==> current.value < |children| && children[current.value].Valid()
      requires current.Some? ==> forall k :: 0 <= k < |children| && children[k].Valid() ==>
                 !Before(children[k].entries[children[k].pos].key,
                         children[current.value].entries[children[current.value].pos].key)
      ensures current.Some? <==> pos < |merged|
      ensures current.Some? ==> children[current.value].entries[children[current.value].pos] == merged[pos]
    {
      if pos < |merged| {
        assert merged[pos] in merged;
        var c :| 0 <= c < |children| && merged[pos] in children[c].entries;
        HolderIsThere(children[c].entries, children[c].pos, merged, pos);
      }
      if current.Some? {
        var it := children[current.value];
        NotEarlier(it.entries, it.pos, merged, pos);
        InternalKeysOrdered();
      }
    }

    method FindLargest(ghost p: nat)
      requires Sources() && p <= |merged| && Backwards(p) && direction.Reverse?
      modifies this`current, this`pos
      ensures Ok() && pos == if p == 0 then |merged| else p - 1
    {
      hide Cut;
      current := None;
      var i := |children|;
      while i > 0
        invariant 0 <= i <= |children|
        invariant Sources() && Backwards(p) && direction.Reverse?
        invariant current.None? ==> forall k :: i <= k < |children| ==> !children[k].Valid()
        invariant current.Some? ==> i <= current.value < |children| && children[current.value].Valid()
        invariant current.Some? ==> forall k :: i <= k < |children| && children[k].Valid() ==>
                    !Before(children[current.value].entries[children[current.value].pos].key,
                            children[k].entries[children[k].pos].key)
      {
        InternalKeysOrdered();
        i := i - 1;
        if children[i].Valid() {
          if current.None? {
            current := Some(i);
          } else if Before(children[current.value].entries[children[current.value].pos].key,
                           children[i].entries[children[i].pos].key) {
            current := Some(i);
          }
        }
      }
      LargestIsPrevious(p);
      pos := if p == 0 then |merged| else p - 1;
    }

    lemma LargestIsPrevious(p: nat)
      requires Sources() && p <= |merged| && Backwards(p)
      requires current.None? ==> forall k :: 0 <= k < |children| ==> !children[k].Valid()
      requires current.Some? ==> current.value < |children| && children[current.value].Valid()
      requires current.Some? ==> forall k :: 0 <= k < |children| && children[k].Valid() ==>
                 !Before(children[current.value].entries[children[current.value].pos].key,
                         children[k].entries[children[k].pos].key)
      ensures current.Some? <==> p > 0
      ensures current.Some? ==> children[current.value].entries[children[current.value].pos] == merged[p - 1]
    {
      if p > 0 {
        assert merged[p - 1] in merged;
        var c :| 0 <= c < |children| && merged[p - 1] in children[c].entries;
        HolderIsBehind(children[c].entries, Behind(children[c]), merged, p);
      }
      if current.Some? {
        var it := children[current.value];
        NotLater(it.entries, Behind(it), merged, p);
        InternalKeysOrdered();
      }
    }

    method SeekToFirst()
      requires Ok()
      modifies this, children
      ensures Ok() && pos == 0
    {
      for i := 0 to |children|
        invariant Sources()
        invariant forall k :: 0 <= k < |children| ==> children[k].Ok()
        invariant forall k :: 0 <= k < i ==> Cut(children[k].entries, children[k].pos, merged, 0)
      {
        children[i].SeekToFirst();
        AllAhead(children[i].entries, i);
      }
      pos, direction := 0, Forward;
      FindSmallest();
    }

    method SeekToLast()
      requires Ok()
      modifies this, children
      ensures Ok() && pos == if merged == [] then 0 else |merged| - 1
    {
      for i := 0 to |children|
        invariant Sources()
        invariant forall k :: 0 <= k < |children| ==> children[k].Ok()
        invariant forall k :: 0 <= k < i ==> Cut(children[k].entries, Behind(children[k]), merged, |merged|)
      {
        children[i].SeekToLast();
        AllBehind(children[i].entries, i);
      }
      direction := Reverse;
      FindLargest(|merged|);
    }

    lemma AllAhead(entries: seq<Entry>, i: nat)
      requires Sources() && i < |children| && entries == children[i].entries
      ensures Cut(entries, 0, merged, 0)
    {
      assert merged[0..] == merged;
      assert forall k :: 0 <= k < |entries| ==> entries[k] in entries;
    }

    lemma AllBehind(entries: seq<Entry>, i: nat)
      requires Sources() && i < |children| && entries == children[i].entries
      ensures Cut(entries, |entries|, merged, |merged|)
    {
      assert merged[..|merged|] == merged;
      assert forall k :: 0 <= k < |entries| ==> entries[k] in entries;
    }

    method Seek(target: IKey)
      requires Ok()
      modifies this, children
      ensures Ok()
      ensures forall j :: 0 <= j < pos ==> Before(merged[j].key, target)
      ensures pos < |merged| ==> !Before(merged[pos].key, target)
    {
      ghost var p := FallsSomewhere(merged, target);
      for i := 0 to |children|
        invariant Sources()
        invariant forall k :: 0 <= k < |children| ==> children[k].Ok()
        invariant forall k :: 0 <= k < i ==> Cut(children[k].entries, children[k].pos, merged, p)
      {
        children[i].Seek(target);
        SeekCuts(children[i].entries, children[i].pos, merged, p, target);
      }
      pos, direction := p, Forward;
      FindSmallest();
    }

    // Bring the other children behind key(), when the last move was backwards.
    method TurnForward()
      requires Ok() && current.Some? && direction.Reverse?
      modifies this`direction, children
      ensures Ok() && direction.Forward? && current.Some?
    {
      var key := children[current.value].entries[children[current.value].pos].key;
      CurrentCut();
      for i := 0 to |children|
        invariant Sources() && Holds(current.value)
        invariant children[current.value].pos == old(children[current.value].pos)
        invariant forall k :: 0 <= k < |children| ==> children[k].Ok()
        invariant forall k :: 0 <= k < |children| && (k < i || k == current.value) ==>
                    Cut(children[k].entries, children[k].pos, merged, pos)
      {
        if i != current.value {
          StepBehind(children[i], key, merged, pos);
        }
      }
      direction := Forward;
    }

    // Bring the other children in front of key(), when the last move was forwards.
    method TurnBack()
      requires Ok() && current.Some? && direction.Forward?
      modifies this`direction, children
      ensures Ok() && direction.Reverse? && current.Some?
    {
      var key := children[current.value].entries[children[current.value].pos].key;
      CurrentCut();
      for i := 0 to |children|
        invariant Sources() && Holds(current.value)
        invariant children[current.value].pos == old(children[current.value].pos)
        invariant forall k :: 0 <= k < |children| ==> children[k].Ok()
        invariant forall k :: 0 <= k < |children| && (k < i || k == current.value) ==>
                    Cut(children[k].entries, Behind(children[k]), merged, pos + 1)
      {
        if i != current.value {
          StepInFront(children[i], key, merged, pos);
        }
      }
      direction := Reverse;
    }

    method Next()
      requires Ok() && current.Some?
      modifies this, children
      ensures Ok() && pos == old(pos) + 1
    {
      if direction != Forward {
        TurnForward();
      }
      Advance();
      pos := pos + 1;
      FindSmallest();
    }

    // Move the current child on over the current entry.
    method Advance()
      requires Ok() && current.Some? && direction.Forward?
      modifies children
      ensures Sources() && Forwards(pos + 1)
    {
      var it := children[current.value];
      OthersMove();
      CutSteps(it.entries, it.pos, merged, pos);
      it.Next();
    }

    method Prev()
      requires Ok() && current.Some?
      modifies this, children
      ensures Ok() && pos == if old(pos) == 0 then |merged| else old(pos) - 1
    {
      if direction != Reverse {
        TurnBack();
      }
      Retreat();
      FindLargest(pos);
    }

    // Move the current child back over the current entry.
    method Retreat()
      requires Ok() && current.Some? && direction.Reverse?
      modifies children
      ensures Sources() && Backwards(pos)
    {
      var it := children[current.value];
      OthersMove();
      CutSteps(it.entries, it.pos, merged, pos);
      it.Prev();
    }

    // The current child is cut at its own entry, in either direction.
    lemma CurrentCut()
      requires Ok() && current.Some?
      ensures var it := children[current.value];
              Cut(it.entries, it.pos, merged, pos) && Cut(it.entries, it.pos + 1, merged, pos + 1)
    {
      var it := children[current.value];
      CutSteps(it.entries, it.pos, merged, pos);
    }

    // The current entry is in no other child.
    lemma OtherCutMoves(i: nat, n: nat)
      requires Sources() && pos < |merged| && current.Some? && current.value < |children|
      requires children[current.value].Valid()
      requires children[current.value].entries[children[current.value].pos] == merged[pos]
      requires i < |children| && i != current.value && n <= |children[i].entries|
      ensures Cut(children[i].entries, n, merged, pos) <==> Cut(children[i].entries, n, merged, pos + 1)
    {
      assert merged[pos] in children[current.value].entries;
      CutMoves(children[i].entries, n, merged, pos);
    }

    lemma OthersMove()
      requires Ok() && current.Some?
      ensures forall i, n :: 0 <= i < |children| && i != current.value && 0 <= n <= |children[i].entries| ==>
                (Cut(children[i].entries, n, merged, pos) <==> Cut(children[i].entries, n, merged, pos + 1))
    {
      forall i, n | 0 <= i < |children| && i != current.value && 0 <= n <= |children[i].entries|
        ensures Cut(children[i].entries, n, merged, pos) <==> Cut(children[i].entries, n, merged, pos + 1)
      {
        OtherCutMoves(i, n);
      }
    }
  }
}
