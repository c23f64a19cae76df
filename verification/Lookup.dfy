// Point reads: FindFile, ForEachOverlapping and Get (db/version_set.cc), and
// the order in which DBImpl::Get asks the memtables and the version.
module Lookup {
  import opened Keys
  import opened Store
  import opened Lsm
  import opened CompactionSafety
  import opened Compaction
  import opened Options

  // The internal key a lookup seeks: it sorts before every entry of the user
  // key that the snapshot may see, and after all the others of that key.
  function LookupKey(u: UserKey, s: nat): IKey {
    IKey(u, s, Value)
  }

  // The first entry at or after the target in a sorted source.
  ghost predicate FirstFrom(store: set<Entry>, target: IKey, r: Option<Entry>) {
    match r
    case None => forall e :: e in store ==> Before(e.key, target)
    case Some(f) =>
      && f in store
      && !Before(f.key, target)
      && forall e :: e in store ==> Before(e.key, target) || !Before(e.key, f.key)
  }

  // Binary search over sorted, disjoint files: the first whose largest key is
  // at or after the key.
  method FindFile(files: seq<File>, key: IKey) returns (right: nat)
    requires SortedFiles(files)
    ensures right <= |files|
    ensures forall i :: 0 <= i < right ==> Before(files[i].largest, key)
    ensures forall i :: right <= i < |files| ==> !Before(files[i].largest, key)
  {
    var left := 0;
    right := |files|;
    while left < right
      invariant 0 <= left <= right <= |files|
      invariant forall i :: 0 <= i < left ==> Before(files[i].largest, key)
      invariant forall i :: right <= i < |files| ==> !Before(files[i].largest, key)
    {
      var mid := (left + right) / 2;
      LargestAscend(files, mid, key);
      if Before(files[mid].largest, key) {
        left := mid + 1;
      } else {
        right := mid;
      }
    }
  }

  lemma LargestAscend(files: seq<File>, mid: nat, key: IKey)
    requires SortedFiles(files) && mid < |files|
    ensures Before(files[mid].largest, key) ==> forall i :: 0 <= i <= mid ==> Before(files[i].largest, key)
    ensures !Before(files[mid].largest, key) ==> forall i :: mid <= i < |files| ==> !Before(files[i].largest, key)
  {
    InternalKeysOrdered();
    forall i | 0 <= i < |files| ensures !Before(files[i].largest, files[i].smallest) {
      assert files[i] in files;
    }
  }

  // A table or memtable seek.
  method SeekStore(store: set<Entry>, target: IKey) returns (r: Option<Entry>)
    ensures FirstFrom(store, target, r)
  {
    InternalKeysOrdered();
    r := None;
    var rest := store;
    while rest != {}
      invariant rest <= store
      invariant FirstFrom(store - rest, target, r)
      decreases rest
    {
      var e :| e in rest;
      if !Before(e.key, target) && (r.None? || Before(e.key, r.value.key)) {
        r := Some(e);
      }
      rest := rest - {e};
    }
    assert store - {} == store;
  }

  // What a seek means for a read: the entry found answers it if and only if it
  // belongs to the user key.
  lemma SeekAnswers(store: set<Entry>, u: UserKey, s: nat, r: Option<Entry>)
    requires FirstFrom(store, LookupKey(u, s), r)
    ensures r.Some? && r.value.key.user == u ==> Newest(store, u, s, r.value)
    ensures !(r.Some? && r.value.key.user == u) ==> NoneVisible(store, u, s)
  {
    UserKeysOrdered();
  }

  // Saver: keep the entry when its user key is the one asked for.
  method Probe(store: set<Entry>, u: UserKey, s: nat) returns (r: Option<Entry>)
    ensures Settles(store, u, s, r)
  {
    var e := SeekStore(store, LookupKey(u, s));
    SeekAnswers(store, u, s, e);
    r := if e.Some? && e.value.key.user == u then e else None;
  }

  // r is the newest visible entry of the store, or there is none.
  ghost predicate Settles(store: set<Entry>, u: UserKey, s: nat, r: Option<Entry>) {
    match r
    case Some(e) => Newest(store, u, s, e)
    case None => NoneVisible(store, u, s)
  }

  // ---- One sorted level ----

  method ProbeLevel(files: seq<File>, u: UserKey, s: nat) returns (r: Option<Entry>)
    requires SortedFiles(files)
    ensures Settles(Contents(Listed(files)), u, s, r)
  {
    var index := FindFile(files, LookupKey(u, s));
    r := None;
    if index < |files| {
      if !Less(u, files[index].smallest.user) {
        r := Probe(files[index].contents, u, s);
      }
    }
    LevelSettled(files, u, s, index, r);
  }

  lemma LevelSettled(files: seq<File>, u: UserKey, s: nat, index: nat, r: Option<Entry>)
    requires SortedFiles(files) && index <= |files|
    requires forall i :: 0 <= i < index ==> Before(files[i].largest, LookupKey(u, s))
    requires forall i :: index <= i < |files| ==> !Before(files[i].largest, LookupKey(u, s))
    requires index == |files| ==> r.None?
    requires index < |files| && Less(u, files[index].smallest.user) ==> r.None?
    requires index < |files| && !Less(u, files[index].smallest.user) ==> Settles(files[index].contents, u, s, r)
    ensures Settles(Contents(Listed(files)), u, s, r)
  {
    forall e | e in Contents(Listed(files)) && e.VisibleTo(u, s)
      ensures r.Some? && e.key.sequence <= r.value.key.sequence
    {
      var f := InContents(Listed(files), e);
      var i :| 0 <= i < |files| && files[i] == f;
      assert files[i] in files;
      if i < index {
        NotVisibleBefore(f, e, u, s);
      } else {
        assert files[index] in files;
        VisibleLater(files, u, s, index, r, i, e);
      }
    }
    if r.Some? {
      assert files[index] in Listed(files);
      assert r.value in Contents(Listed(files));
    }
  }

  lemma NotVisibleBefore(f: File, e: Entry, u: UserKey, s: nat)
    requires f.Valid() && e in f.contents && Before(f.largest, LookupKey(u, s))
    ensures !e.VisibleTo(u, s)
  {
    InternalKeysOrdered();
  }

  lemma VisibleLater(files: seq<File>, u: UserKey, s: nat, index: nat, r: Option<Entry>, i: nat, e: Entry)
    requires SortedFiles(files) && index <= i < |files|
    requires files[i].Valid() && files[index].Valid()
    requires !Before(files[index].largest, LookupKey(u, s))
    requires if Less(u, files[index].smallest.user) then r.None? else Settles(files[index].contents, u, s, r)
    requires e in files[i].contents && e.VisibleTo(u, s)
    ensures r.Some? && e.key.sequence <= r.value.key.sequence
  {
    if i > index {
      var last :| last in files[index].contents && last.key == files[index].largest;
      InternalKeysOrdered();
      assert Before(last.key, e.key);
      LastIsOfKey(last, e, u, s, files[index]);
    } else {
      UserKeysOrdered();
    }
  }

  // Between the lookup key and a visible entry lie only entries of its user key.
  lemma LastIsOfKey(last: Entry, e: Entry, u: UserKey, s: nat, f: File)
    requires !Before(last.key, LookupKey(u, s)) && Before(last.key, e.key) && e.VisibleTo(u, s)
    requires f.Valid() && last in f.contents
    ensures last.VisibleTo(u, s) && last.key.sequence >= e.key.sequence
    ensures !Less(u, f.smallest.user)
  {
    UserKeysOrdered();
  }

  // ---- Level 0 ----

  // Files of level 0 that may hold the user key, newest first.
  method PickLevel0(files: seq<File>, u: UserKey) returns (tmp: seq<File>)
    ensures forall f :: f in tmp <==> f in files && f.Overlaps(u, u)
    ensures forall i, j :: 0 <= i < j < |tmp| ==> tmp[i].number >= tmp[j].number
  {
    tmp := [];
    for i := 0 to |files|
      invariant forall f :: f in tmp <==> f in files[..i] && f.Overlaps(u, u)
      invariant forall k, l :: 0 <= k < l < |tmp| ==> tmp[k].number >= tmp[l].number
    {
      assert files[..i + 1] == files[..i] + [files[i]];
      if !Less(u, files[i].smallest.user) && !Less(files[i].largest.user, u) {
        tmp := InsertNewestFirst(tmp, files[i]);
      }
    }
    assert files[..|files|] == files;
  }

  method InsertNewestFirst(sorted: seq<File>, f: File) returns (r: seq<File>)
    requires forall k, l :: 0 <= k < l < |sorted| ==> sorted[k].number >= sorted[l].number
    ensures forall k, l :: 0 <= k < l < |r| ==> r[k].number >= r[l].number
    ensures forall g :: g in r <==> g in sorted || g == f
  {
    var i := 0;
    while i < |sorted| && sorted[i].number >= f.number
      invariant 0 <= i <= |sorted|
      invariant forall k :: 0 <= k < i ==> sorted[k].number >= f.number
    {
      i := i + 1;
    }
    r := sorted[..i] + [f] + sorted[i..];
    assert forall g :: g in sorted <==> g in sorted[..i] || g in sorted[i..];
  }

  method ProbeLevel0(files: seq<File>, u: UserKey, s: nat) returns (r: Option<Entry>)
    requires FilesValid(Listed(files)) && NewerByNumber(Listed(files))
    ensures Settles(Contents(Listed(files)), u, s, r)
  {
    var tmp := PickLevel0(files, u);
    r := None;
    var i := 0;
    while i < |tmp|
      invariant 0 <= i <= |tmp|
      invariant forall k :: 0 <= k < i ==> NoneVisible(tmp[k].contents, u, s)
    {
      r := Probe(tmp[i].contents, u, s);
      if r.Some? {
        NewestInLevel0(files, tmp, i, u, s, r.value);
        return;
      }
      i := i + 1;
    }
    forall e | e in Contents(Listed(files))
      ensures !e.VisibleTo(u, s)
    {
      var f := InContents(Listed(files), e);
      if e.key.user == u {
        Meets(f, e, u, u);
        assert f in tmp;
      }
    }
    r := None;
  }

  lemma NewestInLevel0(files: seq<File>, tmp: seq<File>, i: nat, u: UserKey, s: nat, e: Entry)
    requires FilesValid(Listed(files)) && NewerByNumber(Listed(files))
    requires forall f :: f in tmp <==> f in files && f.Overlaps(u, u)
    requires forall k, l :: 0 <= k < l < |tmp| ==> tmp[k].number >= tmp[l].number
    requires i < |tmp| && forall k :: 0 <= k < i ==> NoneVisible(tmp[k].contents, u, s)
    requires Newest(tmp[i].contents, u, s, e)
    ensures Newest(Contents(Listed(files)), u, s, e)
  {
    assert tmp[i] in tmp && tmp[i] in Listed(files);
    assert e in Contents(Listed(files));
    forall g | g in Contents(Listed(files)) && g.VisibleTo(u, s)
      ensures g.key.sequence <= e.key.sequence
    {
      var f := InContents(Listed(files), g);
      Meets(f, g, u, u);
      var k :| 0 <= k < |tmp| && tmp[k] == f;
      assert i <= k;
    }
  }

  // ---- The whole database ----

  ghost predicate Holds7(files: seq<seq<File>>, levels: Levels) {
    && |files| == NUM_LEVELS
    && (forall l {:trigger files[l]} :: 0 <= l < NUM_LEVELS ==> levels[l] == Listed(files[l]))
    && (forall l {:trigger SortedFiles(files[l])} :: 1 <= l < NUM_LEVELS ==> SortedFiles(files[l]))
  }

  // Version::Get: level 0 by number, then one file of each deeper level.
  method VersionGet(files: seq<seq<File>>, ghost levels: Levels, u: UserKey, s: nat) returns (r: Option<Entry>)
    requires Holds7(files, levels) && Shaped(levels)
    ensures Settles(All(levels), u, s, r)
  {
    assert FilesValid(levels[0]);
    assert levels[0] == Listed(files[0]);
    r := ProbeLevel0(files[0], u, s);
    if r.Some? {
      NewestFromLevel(levels, 0, u, s, r.value);
      return;
    }
    var level := 1;
    while level < NUM_LEVELS
      invariant 1 <= level <= NUM_LEVELS
      invariant forall l {:trigger Contents(levels[l])} :: 0 <= l < level ==> NoneVisible(Contents(levels[l]), u, s)
    {
      assert SortedFiles(files[level]) && levels[level] == Listed(files[level]);
      r := ProbeLevel(files[level], u, s);
      if r.Some? {
        NewestFromLevel(levels, level, u, s, r.value);
        return;
      }
      level := level + 1;
    }
    NoneInAll(levels, u, s);
    r := None;
  }

  lemma NoneInAll(levels: Levels, u: UserKey, s: nat)
    requires forall l {:trigger Contents(levels[l])} :: 0 <= l < NUM_LEVELS ==> NoneVisible(Contents(levels[l]), u, s)
    ensures NoneVisible(All(levels), u, s)
  {
    forall e | e in All(levels)
      ensures !e.VisibleTo(u, s)
    {
      var l, f := InAll(levels, e);
      assert e in Contents(levels[l]);
    }
  }

  lemma NewestFromLevel(levels: Levels, level: nat, u: UserKey, s: nat, e: Entry)
    requires Shaped(levels) && level < NUM_LEVELS
    requires forall l {:trigger Contents(levels[l])} :: 0 <= l < level ==> NoneVisible(Contents(levels[l]), u, s)
    requires Newest(Contents(levels[level]), u, s, e)
    ensures Newest(All(levels), u, s, e)
  {
    var f := InContents(levels[level], e);
    assert e in All(levels);
    forall g | g in All(levels) && g.VisibleTo(u, s)
      ensures g.key.sequence <= e.key.sequence
    {
      var l, h := InAll(levels, g);
      assert g in Contents(levels[l]);
      if l > level { LevelOrder(levels, level, f, l, h, e, g); }
    }
  }

  // What DBImpl::Get relies on: the memtable is newer than the immutable one,
  // and both are newer than the version.
  ghost predicate Stacked(mem: set<Entry>, imm: set<Entry>, levels: Levels) {
    && Newer(mem, imm + All(levels))
    && Newer(imm, All(levels))
    && UniqueSequences(mem + imm + All(levels))
    && Shaped(levels)
  }

  method Get(mem: set<Entry>, imm: Option<set<Entry>>, files: seq<seq<File>>, ghost levels: Levels,
             u: UserKey, s: nat)
      returns (a: Answer)
    requires Holds7(files, levels)
    requires Stacked(mem, if imm.Some? then imm.value else {}, levels)
    ensures a == Read(mem + (if imm.Some? then imm.value else {}) + All(levels), u, s)
  {
    ghost var older := if imm.Some? then imm.value else {};
    assert mem + older + All(levels) == mem + (older + All(levels));
    ReadNewerFirst(mem, older + All(levels), u, s);
    ReadNewerFirst(older, All(levels), u, s);
    var r := Probe(mem, u, s);
    if r.Some? {
      ReadNewest(mem, u, s, r.value);
      return AnswerOf(r.value);
    }
    if imm.Some? {
      r := Probe(imm.value, u, s);
      if r.Some? {
        ReadNewest(imm.value, u, s, r.value);
        return AnswerOf(r.value);
      }
    }
    r := VersionGet(files, levels, u, s);
    if r.Some? {
      ReadNewest(All(levels), u, s, r.value);
      return AnswerOf(r.value);
    }
    return NotFound;
  }
}
