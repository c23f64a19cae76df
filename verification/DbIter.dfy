// DBIter: a cursor over the live keys of a snapshot (db/db_iter.cc).
module DbIter {
  import opened Keys
  import opened Store
  import opened Compaction
  import opened Options

  // An iterator over sorted internal entries; |entries| is the invalid position.
  class InternalIterator {
    const entries: seq<Entry>
    var pos: nat

    ghost predicate Ok()
      reads this
    {
      SortedEntries(entries) && pos <= |entries|
    }

    constructor (entries: seq<Entry>)
      requires SortedEntries(entries)
      ensures Ok() && this.entries == entries && !Valid()
    {
      this.entries, pos := entries, |entries|;
    }

    predicate Valid()
      reads this
    {
      pos < |entries|
    }

    method Next()
      requires Ok() && Valid()
      modifies this
      ensures Ok() && pos == old(pos) + 1
    {
      pos := pos + 1;
    }

    method Prev()
      requires Ok() && Valid()
      modifies this
      ensures Ok() && pos == if old(pos) == 0 then |entries| else old(pos) - 1
    {
      pos := if pos == 0 then |entries| else pos - 1;
    }

    method SeekToFirst()
      requires Ok()
      modifies this
      ensures Ok() && pos == 0
    {
      pos := 0;
    }

    method SeekToLast()
      requires Ok()
      modifies this
      ensures Ok() && pos == if entries == [] then 0 else |entries| - 1
    {
      pos := if |entries| == 0 then 0 else |entries| - 1;
    }

    method Seek(target: IKey)
      requires Ok()
      modifies this
      ensures Ok()
      ensures forall i :: 0 <= i < pos ==> Before(entries[i].key, target)
      ensures pos < |entries| ==> !Before(entries[pos].key, target)
    {
      pos := 0;
      while pos < |entries| && Before(entries[pos].key, target)
        invariant Ok()
        invariant forall i :: 0 <= i < pos ==> Before(entries[i].key, target)
      {
        pos := pos + 1;
      }
    }
  }

  // ---- The live list ----

  predicate Visible(entries: seq<Entry>, s: nat, i: int)
    requires 0 <= i < |entries|
  {
    entries[i].key.sequence <= s
  }

  // Entry i is the newest of its user key at s, and a value: the live list of
  // the snapshot consists of just these entries.
  ghost predicate Live(entries: seq<Entry>, s: nat, i: int)
    requires 0 <= i < |entries|
  {
    && Visible(entries, s, i)
    && entries[i].key.kind.Value?
    && forall j :: 0 <= j < i && Visible(entries, s, j) ==> entries[j].key.user != entries[i].key.user
  }

  function User(entries: seq<Entry>, i: int): UserKey
    requires 0 <= i < |entries|
  {
    entries[i].key.user
  }

  predicate Beyond(u: UserKey, after: Option<UserKey>) {
    after.Some? ==> Less(after.value, u)
  }

  ghost predicate NoneLive(entries: seq<Entry>, s: nat, lo: nat, hi: nat, after: Option<UserKey>)
    requires lo <= hi <= |entries|
  {
    forall q :: lo <= q < hi && Live(entries, s, q) ==> !Beyond(User(entries, q), after)
  }

  // The first live entry from p on whose user key is beyond `after`.
  ghost predicate NextLive(entries: seq<Entry>, s: nat, p: nat, after: Option<UserKey>, r: Option<nat>)
    requires p <= |entries|
  {
    match r
    case None => NoneLive(entries, s, p, |entries|, after)
    case Some(c) =>
      && p <= c < |entries| && Live(entries, s, c) && Beyond(User(entries, c), after)
      && NoneLive(entries, s, p, c, after)
  }

  // The last live entry before p.
  ghost predicate PrevLive(entries: seq<Entry>, s: nat, p: nat, r: Option<nat>)
    requires p <= |entries|
  {
    match r
    case None => forall q :: 0 <= q < p ==> !Live(entries, s, q)
    case Some(c) => c < p && Live(entries, s, c) && forall q :: c < q < p ==> !Live(entries, s, q)
  }

  lemma UsersAscend(entries: seq<Entry>, i: nat, j: nat)
    requires SortedEntries(entries) && i <= j < |entries|
    ensures AtMost(User(entries, i), User(entries, j))
  {
  }

  datatype Direction = Forward | Reverse

  class DBIter {
    const iter: InternalIterator
    const sequence: nat
    var savedKey: UserKey
    var savedValue: Bytes
    var direction: Direction
    var valid: bool
    ghost var at: nat      // the entry the cursor is at, while valid

    ghost predicate Ok()
      reads this, iter
    {
      && iter.Ok()
      && (valid ==> at < |iter.entries| && Live(iter.entries, sequence, at))
      && (valid && direction.Forward? ==> iter.pos == at)
      && (valid && direction.Reverse? ==>
            && savedKey == User(iter.entries, at)
            && savedValue == iter.entries[at].value
            && InFront(iter.entries, sequence, iter.pos, at))
    }

    constructor (iter: InternalIterator, sequence: nat)
      requires iter.Ok()
      ensures Ok() && !valid && this.iter == iter && this.sequence == sequence
    {
      this.iter, this.sequence := iter, sequence;
      savedKey, savedValue, direction, valid := [], [], Forward, false;
    }

    method Key() returns (k: UserKey)
      requires Ok() && valid
      ensures k == User(iter.entries, at)
    {
      k := if direction.Forward? then iter.entries[iter.pos].key.user else savedKey;
    }

    method CurrentValue() returns (v: Bytes)
      requires Ok() && valid
      ensures v == iter.entries[at].value
    {
      v := if direction.Forward? then iter.entries[iter.pos].value else savedValue;
    }

    method FindNextUserEntry(skip: bool, skipKey: UserKey, ghost after: Option<UserKey>)
      requires iter.Ok() && iter.Valid() && direction.Forward?
      requires Skips(iter.entries, sequence, iter.pos, iter.pos, after, skip, skipKey)
      requires NothingShared(iter.entries, sequence, iter.pos, after)
      modifies this, iter
      ensures Ok() && direction.Forward?
      ensures NextLive(iter.entries, sequence, old(iter.pos), after, if valid then Some(at) else None)
    {
      var skipping, skipTo := skip, skipKey;
      ghost var p0 := iter.pos;
      while iter.Valid()
        invariant iter.Ok() && p0 <= iter.pos
        invariant direction.Forward?
        invariant Skips(iter.entries, sequence, p0, iter.pos, after, skipping, skipTo)
        invariant NoneLive(iter.entries, sequence, p0, iter.pos, after)
        decreases |iter.entries| - iter.pos
      {
        var e := iter.entries[iter.pos];
        LiveHere(iter.entries, sequence, p0, iter.pos, after, skipping, skipTo);
        SkipsOn(iter.entries, sequence, p0, iter.pos, after, skipping, skipTo);
        if e.key.sequence <= sequence {
          if e.key.kind.Deletion? {
            skipTo := e.key.user;
            skipping := true;
          } else if !(skipping && AtMost(e.key.user, skipTo)) {
            valid := true;
            at := iter.pos;
            savedKey := [];
            return;
          }
        }
        iter.Next();
      }
      savedKey := [];
      valid := false;
    }

    method Next()
      requires Ok() && valid
      modifies this, iter
      ensures Ok()
      ensures NextLive(iter.entries, sequence, old(at) + 1, None, if valid then Some(at) else None)
    {
      ghost var c := at;
      if direction == Reverse {
        direction := Forward;
        if !iter.Valid() {
          iter.SeekToFirst();
        } else {
          iter.Next();
        }
        if !iter.Valid() {
          assert false;  // the entries of this->key() are still ahead
        }
        ghost var p := iter.pos;
        SkipsFromFront(iter.entries, sequence, p, c);
        FindNextUserEntry(true, savedKey, Some(User(iter.entries, c)));
        NextAfterKey(iter.entries, sequence, p, c, if valid then Some(at) else None);
      } else {
        savedKey := iter.entries[iter.pos].key.user;
        iter.Next();
        if !iter.Valid() {
          valid, savedKey := false, [];
          return;
        }
        SkipsPast(iter.entries, sequence, c);
        FindNextUserEntry(true, savedKey, Some(User(iter.entries, c)));
        NextPastKey(iter.entries, sequence, c, if valid then Some(at) else None);
      }
    }

    method Prev()
      requires Ok() && valid
      modifies this, iter
      ensures Ok()
      ensures PrevLive(iter.entries, sequence, old(at), if valid then Some(at) else None)
    {
      ghost var c := at;
      if direction == Forward {
        savedKey := iter.entries[iter.pos].key.user;
        while true
          invariant iter.Ok() && iter.pos <= c && savedKey == User(iter.entries, c)
          invariant forall q :: iter.pos <= q < c ==> User(iter.entries, q) == savedKey
          decreases iter.pos
        {
          iter.Prev();
          if !iter.Valid() {
            SameKeyNotLive(iter.entries, sequence, 0, c);
            valid := false;
            savedKey, savedValue := [], [];
            return;
          }
          UsersAscend(iter.entries, iter.pos, c);
          if Less(iter.entries[iter.pos].key.user, savedKey) {
            break;
          }
        }
        direction := Reverse;
        SameKeyNotLive(iter.entries, sequence, iter.pos + 1, c);
      }
      ghost var end := if iter.pos < |iter.entries| then iter.pos + 1 else 0;
      EndOfKeys(iter.entries, sequence, end, c);
      FindPrevUserEntry(end);
      BackFrom(iter.entries, sequence, end, c, if valid then Some(at) else None);
    }

    // The first live key at or after the target.
    method Seek(target: UserKey)
      requires Ok()
      modifies this, iter
      ensures Ok()
      ensures valid ==> Live(iter.entries, sequence, at) && !Less(User(iter.entries, at), target)
      ensures forall q :: 0 <= q < (if valid then at else |iter.entries|) && Live(iter.entries, sequence, q) ==>
                Less(User(iter.entries, q), target)
    {
      direction := Forward;
      savedValue, savedKey := [], [];
      iter.Seek(IKey(target, sequence, Value));
      SeekSkips(iter.entries, sequence, iter.pos, target);
      if iter.Valid() {
        FindNextUserEntry(false, savedKey, None);
      } else {
        valid := false;
      }
    }

    method SeekToFirst()
      requires Ok()
      modifies this, iter
      ensures Ok()
      ensures NextLive(iter.entries, sequence, 0, None, if valid then Some(at) else None)
    {
      direction := Forward;
      savedValue := [];
      iter.SeekToFirst();
      if iter.Valid() {
        FindNextUserEntry(false, savedKey, None);
      } else {
        valid := false;
      }
    }

    method SeekToLast()
      requires Ok()
      modifies this, iter
      ensures Ok()
      ensures PrevLive(iter.entries, sequence, |iter.entries|, if valid then Some(at) else None)
    {
      direction := Reverse;
      savedValue := [];
      iter.SeekToLast();
      FindPrevUserEntry(|iter.entries|);
    }

    method FindPrevUserEntry(ghost end: nat)
      requires iter.Ok() && direction.Reverse?
      requires end <= |iter.entries| && iter.pos == (if end == 0 then |iter.entries| else end - 1)
      requires KeysEnd(iter.entries, sequence, end)
      modifies this, iter
      ensures Ok()
      ensures PrevLive(iter.entries, sequence, end, if valid then Some(at) else None)
    {
      var valueType := Deletion;
      ghost var p: nat := end;        // entries from p on have been looked at
      ghost var m: nat := 0;          // the last visible one, when there is one
      ghost var any := false;
      while iter.Valid()
        invariant iter.Ok() && direction.Reverse? && p <= end
        invariant iter.pos == if p == 0 then |iter.entries| else p - 1
        invariant Scanned(iter.entries, sequence, p, end, any, m)
        invariant valueType == if any then iter.entries[m].key.kind else Deletion
        invariant valueType.Value? ==> savedKey == User(iter.entries, m) && savedValue == iter.entries[m].value
        decreases p
      {
        var e := iter.entries[iter.pos];
        if e.key.sequence <= sequence {
          if valueType != Deletion && Less(e.key.user, savedKey) {
            StopsHere(iter.entries, sequence, p, end, m);
            at := m;
            break;
          }
          ScanVisible(iter.entries, sequence, p, end, any, m);
          any, m := true, iter.pos;
          valueType := e.key.kind;
          if valueType == Deletion {
            savedKey, savedValue := [], [];
          } else {
            savedKey, savedValue := e.key.user, e.value;
          }
        } else {
          ScanInvisible(iter.entries, sequence, p, end, any, m);
        }
        iter.Prev();
        p := p - 1;
      }
      if valueType == Deletion {
        valid := false;
        savedKey, savedValue := [], [];
        direction := Forward;
      } else {
        if !iter.Valid() { StopsHere(iter.entries, sequence, 0, end, m); at := m; }
        valid := true;
      }
    }
  }

  // In reverse, the inner iterator is in front of all entries of the key, with
  // nothing visible in between.
  ghost predicate InFront(entries: seq<Entry>, s: nat, pos: nat, at: nat)
    requires at < |entries|
  {
    && (pos < |entries| ==> pos < at && Less(User(entries, pos), User(entries, at)))
    && forall q :: (if pos < |entries| then pos + 1 else 0) <= q < at ==> !Visible(entries, s, q)
  }

  // From position p on, the skip key hides just the visible entries whose key
  // was passed since p0, or is not beyond `after`.
  ghost predicate Skips(entries: seq<Entry>, s: nat, p0: nat, p: nat, after: Option<UserKey>, skipping: bool,
                        skip: UserKey)
    requires p0 <= p <= |entries|
  {
    forall q :: p <= q < |entries| && Visible(entries, s, q) ==>
      && (skipping ==> AtMost(skip, User(entries, q)))
      && ((skipping && User(entries, q) == skip) <==>
            (after.Some? && AtMost(User(entries, q), after.value)) || PassedKey(entries, s, p0, p, User(entries, q)))
  }

  ghost predicate PassedKey(entries: seq<Entry>, s: nat, p0: nat, p: nat, u: UserKey)
    requires p0 <= p <= |entries|
  {
    exists j :: p0 <= j < p && Visible(entries, s, j) && User(entries, j) == u
  }

  // No key from p0 on was visible before, unless `after` rules it out anyway.
  ghost predicate NothingShared(entries: seq<Entry>, s: nat, p0: nat, after: Option<UserKey>)
    requires p0 <= |entries|
  {
    forall j, q :: 0 <= j < p0 <= q < |entries| && Visible(entries, s, j) && Visible(entries, s, q) ==>
      User(entries, j) != User(entries, q) || !Beyond(User(entries, q), after)
  }

  lemma LiveHere(entries: seq<Entry>, s: nat, p0: nat, p: nat, after: Option<UserKey>, skipping: bool, skip: UserKey)
    requires SortedEntries(entries) && p0 <= p < |entries|
    requires Skips(entries, s, p0, p, after, skipping, skip) && NothingShared(entries, s, p0, after)
    ensures Live(entries, s, p) && Beyond(User(entries, p), after) <==>
              Visible(entries, s, p) && entries[p].key.kind.Value? && !(skipping && AtMost(User(entries, p), skip))
  {
    UserKeysOrdered();
    var u := User(entries, p);
    if Visible(entries, s, p) && entries[p].key.kind.Value? && !(skipping && AtMost(u, skip)) {
      assert !PassedKey(entries, s, p0, p, u) && Beyond(u, after);
    }
  }

  lemma SkipsOn(entries: seq<Entry>, s: nat, p0: nat, p: nat, after: Option<UserKey>, skipping: bool, skip: UserKey)
    requires SortedEntries(entries) && p0 <= p < |entries|
    requires Skips(entries, s, p0, p, after, skipping, skip)
    ensures Visible(entries, s, p) ==> Skips(entries, s, p0, p + 1, after, true, User(entries, p))
    ensures !Visible(entries, s, p) || (skipping && AtMost(User(entries, p), skip)) ==>
              Skips(entries, s, p0, p + 1, after, skipping, skip)
  {
    UserKeysOrdered();
    var u := User(entries, p);
    forall q | p + 1 <= q < |entries| && Visible(entries, s, q)
      ensures AtMost(u, User(entries, q))
      ensures PassedKey(entries, s, p0, p + 1, User(entries, q)) <==>
                PassedKey(entries, s, p0, p, User(entries, q)) || (Visible(entries, s, p) && User(entries, q) == u)
    {
      if Visible(entries, s, p) && User(entries, q) == u {
        assert p0 <= p < p + 1 && Visible(entries, s, p);
      }
    }
    if Visible(entries, s, p) { SkipsFrom(entries, s, p0, p, after, skipping, skip); }
  }

  lemma SkipsFrom(entries: seq<Entry>, s: nat, p0: nat, p: nat, after: Option<UserKey>, skipping: bool, skip: UserKey)
    requires SortedEntries(entries) && p0 <= p < |entries| && Visible(entries, s, p)
    requires Skips(entries, s, p0, p, after, skipping, skip)
    ensures Skips(entries, s, p0, p + 1, after, true, User(entries, p))
  {
    UserKeysOrdered();
    var u := User(entries, p);
    forall q | p + 1 <= q < |entries| && Visible(entries, s, q)
      ensures AtMost(u, User(entries, q))
      ensures User(entries, q) == u <==>
              (after.Some? && AtMost(User(entries, q), after.value)) ||
                PassedKey(entries, s, p0, p + 1, User(entries, q))
    {
      if User(entries, q) == u {
        assert PassedKey(entries, s, p0, p + 1, u);
      }
    }
  }

  // What is visible from position `end` on belongs to later user keys.
  ghost predicate KeysEnd(entries: seq<Entry>, s: nat, end: nat)
    requires end <= |entries|
  {
    forall i, q :: 0 <= i < end <= q < |entries| && Visible(entries, s, q) ==> User(entries, i) != User(entries, q)
  }

  // Entries p..end have been passed backwards: nothing live but perhaps m, the
  // last visible one.
  ghost predicate Scanned(entries: seq<Entry>, s: nat, p: nat, end: nat, any: bool, m: nat)
    requires p <= end <= |entries|
  {
    && (any ==> p <= m < end && Visible(entries, s, m))
    && (forall q :: p <= q < (if any then m else end) ==> !Visible(entries, s, q))
    && (any ==> forall q :: m < q < end ==> !Live(entries, s, q))
  }

  lemma ScanInvisible(entries: seq<Entry>, s: nat, p: nat, end: nat, any: bool, m: nat)
    requires 0 < p <= end <= |entries| && Scanned(entries, s, p, end, any, m)
    requires !Visible(entries, s, p - 1)
    ensures Scanned(entries, s, p - 1, end, any, m)
  {
  }

  lemma ScanVisible(entries: seq<Entry>, s: nat, p: nat, end: nat, any: bool, m: nat)
    requires SortedEntries(entries) && 0 < p <= end <= |entries| && Scanned(entries, s, p, end, any, m)
    requires Visible(entries, s, p - 1)
    requires any && entries[m].key.kind.Value? ==> !Less(User(entries, p - 1), User(entries, m))
    ensures Scanned(entries, s, p - 1, end, true, p - 1)
  {
    if any {
      UsersAscend(entries, p - 1, m);
    }
  }

  // The scan may stop at m: everything visible before p has a smaller key.
  lemma StopsHere(entries: seq<Entry>, s: nat, p: nat, end: nat, m: nat)
    requires SortedEntries(entries) && p <= end <= |entries| && Scanned(entries, s, p, end, true, m)
    requires entries[m].key.kind.Value?
    requires p > 0 ==> Less(User(entries, p - 1), User(entries, m))
    ensures PrevLive(entries, s, end, Some(m))
  {
    UserKeysOrdered();
    forall j | 0 <= j < m && Visible(entries, s, j)
      ensures User(entries, j) != User(entries, m)
    {
      UsersAscend(entries, j, p - 1);
    }
  }

  // Coming forward from entry c: its key is to be skipped, and only its key.
  lemma SkipsPast(entries: seq<Entry>, s: nat, c: nat)
    requires SortedEntries(entries) && c < |entries| && Live(entries, s, c)
    ensures Skips(entries, s, c + 1, c + 1, Some(User(entries, c)), true, User(entries, c))
    ensures NothingShared(entries, s, c + 1, Some(User(entries, c)))
  {
    UserKeysOrdered();
  }

  lemma NextPastKey(entries: seq<Entry>, s: nat, c: nat, r: Option<nat>)
    requires SortedEntries(entries) && c < |entries| && Live(entries, s, c)
    requires NextLive(entries, s, c + 1, Some(User(entries, c)), r)
    ensures NextLive(entries, s, c + 1, None, r)
  {
    UserKeysOrdered();
    forall q | c < q < |entries| && Live(entries, s, q)
      ensures Beyond(User(entries, q), Some(User(entries, c)))
    {
      UsersAscend(entries, c, q);
    }
  }

  // Coming from in front of entry c, with nothing visible up to it.
  lemma SkipsFromFront(entries: seq<Entry>, s: nat, p: nat, c: nat)
    requires SortedEntries(entries) && p <= c < |entries| && Live(entries, s, c)
    requires p > 0 ==> Less(User(entries, p - 1), User(entries, c))
    requires forall q :: p <= q < c ==> !Visible(entries, s, q)
    ensures Skips(entries, s, p, p, Some(User(entries, c)), true, User(entries, c))
    ensures NothingShared(entries, s, p, Some(User(entries, c)))
  {
    UserKeysOrdered();
  }

  lemma NextAfterKey(entries: seq<Entry>, s: nat, p: nat, c: nat, r: Option<nat>)
    requires SortedEntries(entries) && p <= c < |entries| && Live(entries, s, c)
    requires NextLive(entries, s, p, Some(User(entries, c)), r)
    requires forall q :: p <= q < c ==> !Visible(entries, s, q)
    ensures NextLive(entries, s, c + 1, None, r)
  {
    UserKeysOrdered();
    forall q | c < q < |entries| && Live(entries, s, q)
      ensures Beyond(User(entries, q), Some(User(entries, c)))
    {
      UsersAscend(entries, c, q);
    }
  }

  lemma SameKeyNotLive(entries: seq<Entry>, s: nat, lo: nat, c: nat)
    requires lo <= c < |entries| && Live(entries, s, c)
    requires forall q :: lo <= q < c ==> User(entries, q) == User(entries, c)
    ensures forall q :: lo <= q < c ==> !Visible(entries, s, q)
  {
    forall q | lo <= q < c
      ensures !Visible(entries, s, q)
    {
      assert User(entries, q) == User(entries, c);
    }
  }

  lemma EndOfKeys(entries: seq<Entry>, s: nat, end: nat, c: nat)
    requires SortedEntries(entries) && end <= c < |entries|
    requires end > 0 ==> Less(User(entries, end - 1), User(entries, c))
    requires forall q :: end <= q < c ==> !Visible(entries, s, q)
    ensures KeysEnd(entries, s, end)
  {
    UserKeysOrdered();
  }

  lemma BackFrom(entries: seq<Entry>, s: nat, end: nat, c: nat, r: Option<nat>)
    requires end <= c <= |entries| && PrevLive(entries, s, end, r)
    requires forall q :: end <= q < c ==> !Visible(entries, s, q)
    ensures PrevLive(entries, s, c, r)
  {
  }

  lemma SeekSkips(entries: seq<Entry>, s: nat, p: nat, target: UserKey)
    requires SortedEntries(entries) && p <= |entries|
    requires forall i :: 0 <= i < p ==> Before(entries[i].key, IKey(target, s, Value))
    requires p < |entries| ==> !Before(entries[p].key, IKey(target, s, Value))
    ensures Skips(entries, s, p, p, None, false, [])
    ensures NothingShared(entries, s, p, None)
    ensures forall q :: 0 <= q < p && Visible(entries, s, q) ==> Less(User(entries, q), target)
    ensures forall q :: p <= q < |entries| ==> !Less(User(entries, q), target)
  {
    UserKeysOrdered();
  }

  // ---- The live list is what point reads find ----

  lemma LiveKeysAscend(entries: seq<Entry>, s: nat, i: nat, j: nat)
    requires SortedEntries(entries) && i < j < |entries|
    requires Live(entries, s, i) && Live(entries, s, j)
    ensures Less(User(entries, i), User(entries, j))
  {
    UsersAscend(entries, i, j);
  }

  lemma LiveIsRead(entries: seq<Entry>, s: nat, i: nat)
    requires SortedEntries(entries) && UniqueSequences(Elements(entries))
    requires i < |entries| && Live(entries, s, i)
    ensures Read(Elements(entries), User(entries, i), s) == Found(entries[i].value)
  {
    FirstVisibleIsNewest(entries, s, i);
    ReadNewest(Elements(entries), User(entries, i), s, entries[i]);
  }

  lemma FirstVisibleIsNewest(entries: seq<Entry>, s: nat, i: nat)
    requires SortedEntries(entries) && i < |entries| && Visible(entries, s, i)
    requires forall j :: 0 <= j < i && Visible(entries, s, j) ==> entries[j].key.user != entries[i].key.user
    ensures Newest(Elements(entries), User(entries, i), s, entries[i])
  {
    var u := User(entries, i);
    LessIrreflexive(u);
    forall f | f in Elements(entries) && f.VisibleTo(u, s)
      ensures f.key.sequence <= entries[i].key.sequence
    {
      var j :| 0 <= j < |entries| && entries[j] == f;
      assert Visible(entries, s, j);
      if i < j { assert Before(entries[i].key, entries[j].key); }
    }
  }

  lemma ReadIsLive(entries: seq<Entry>, s: nat, u: UserKey) returns (i: nat)
    requires SortedEntries(entries) && UniqueSequences(Elements(entries))
    requires Read(Elements(entries), u, s).Found?
    ensures i < |entries| && Live(entries, s, i) && User(entries, i) == u
    ensures Read(Elements(entries), u, s) == Found(entries[i].value)
  {
    var store := Elements(entries);
    var e :| Newest(store, u, s, e);
    ReadNewest(store, u, s, e);
    i :| 0 <= i < |entries| && entries[i] == e;
    LessIrreflexive(u);
    forall j | 0 <= j < i && Visible(entries, s, j)
      ensures entries[j].key.user != u
    {
      assert Before(entries[j].key, entries[i].key);
      if entries[j].key.user == u {
        assert entries[j] in store && entries[j].VisibleTo(u, s);
      }
    }
  }
}
