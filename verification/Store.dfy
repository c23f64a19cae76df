// The specification every layer is measured against: a multi-version map, read
// as "the newest entry of a user key with a sequence number of at most s".
module Store {
  import opened Keys

  type Bytes = seq<Byte>

  datatype Entry = Entry(key: IKey, value: Bytes) {
    // The snapshot s may look at this entry when it reads user key u.
    predicate VisibleTo(u: UserKey, s: nat) {
      key.user == u && key.sequence <= s
    }
  }

  datatype Answer = NotFound | Found(value: Bytes)

  function AnswerOf(e: Entry): Answer {
    if e.key.kind.Value? then Found(e.value) else NotFound
  }

  ghost predicate Newest(store: set<Entry>, u: UserKey, s: nat, e: Entry) {
    && e in store
    && e.VisibleTo(u, s)
    && forall f :: f in store && f.VisibleTo(u, s) ==> f.key.sequence <= e.key.sequence
  }

  ghost predicate NoneVisible(store: set<Entry>, u: UserKey, s: nat) {
    forall f :: f in store ==> !f.VisibleTo(u, s)
  }

  ghost function Read(store: set<Entry>, u: UserKey, s: nat): Answer {
    if exists e :: Newest(store, u, s, e) then
      var e :| Newest(store, u, s, e);
      AnswerOf(e)
    else NotFound
  }

  // A sequence number belongs to one entry only.
  ghost predicate UniqueSequences(store: set<Entry>) {
    forall e, f :: e in store && f in store && e.key.sequence == f.key.sequence ==> e == f
  }

  // Every entry of a user key in `a` is newer than its entries in `b`.
  ghost predicate Newer(a: set<Entry>, b: set<Entry>) {
    forall e, f :: e in a && f in b && e.key.user == f.key.user ==> e.key.sequence > f.key.sequence
  }

  lemma ReadNewest(store: set<Entry>, u: UserKey, s: nat, e: Entry)
    requires UniqueSequences(store)
    requires Newest(store, u, s, e)
    ensures Read(store, u, s) == AnswerOf(e)
  {
    var f :| Newest(store, u, s, f) && Read(store, u, s) == AnswerOf(f);
    assert Newest(store, u, s, f);
  }

  lemma ReadNone(store: set<Entry>, u: UserKey, s: nat)
    requires NoneVisible(store, u, s)
    ensures Read(store, u, s) == NotFound
  {
  }

  // A store that shows something shows a newest something.
  lemma {:induction false} NewestExists(store: set<Entry>, u: UserKey, s: nat) returns (e: Entry)
    requires !NoneVisible(store, u, s)
    ensures Newest(store, u, s, e)
    decreases store
  {
    var f :| f in store && f.VisibleTo(u, s);
    var rest := store - {f};
    if NoneVisible(rest, u, s) {
      e := f;
      assert forall g :: g in store ==> g in rest || g == f;
    } else {
      var g := NewestExists(rest, u, s);
      e := if f.key.sequence > g.key.sequence then f else g;
      assert forall h :: h in store ==> h in rest || h == f;
    }
  }

  // Entries the snapshot cannot see do not change what it reads.
  lemma ReadIgnoresInvisible(a: set<Entry>, b: set<Entry>, u: UserKey, s: nat)
    requires UniqueSequences(a) && UniqueSequences(b)
    requires forall e: Entry :: e.VisibleTo(u, s) ==> (e in a <==> e in b)
    ensures Read(a, u, s) == Read(b, u, s)
  {
    if NoneVisible(a, u, s) {
      ReadNone(a, u, s);
      ReadNone(b, u, s);
    } else {
      var e := NewestExists(a, u, s);
      ReadNewest(a, u, s, e);
      ReadNewest(b, u, s, e);
    }
  }

  // Looking in the newer part first gives the newest entry of the union.
  lemma ReadNewerFirst(a: set<Entry>, b: set<Entry>, u: UserKey, s: nat)
    requires UniqueSequences(a + b)
    requires Newer(a, b)
    ensures Read(a + b, u, s) == if NoneVisible(a, u, s) then Read(b, u, s) else Read(a, u, s)
  {
    if NoneVisible(a, u, s) {
      ReadIgnoresInvisible(a + b, b, u, s);
    } else {
      var e := NewestExists(a, u, s);
      ReadNewest(a, u, s, e);
      ReadNewest(a + b, u, s, e);
    }
  }
}
