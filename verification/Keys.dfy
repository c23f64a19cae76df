// Keys and their orders (util/comparator.cc, db/dbformat.h, db/dbformat.cc).
module Keys {
  type Byte = b: int | 0 <= b < 256

  type UserKey = seq<Byte>

  // The bytewise comparator: memcmp on the common length, then the shorter first.
  predicate Less(a: UserKey, b: UserKey) {
    if |a| == 0 || |b| == 0 then |a| < |b|
    else a[0] < b[0] || (a[0] == b[0] && Less(a[1..], b[1..]))
  }

  predicate AtMost(a: UserKey, b: UserKey) {
    a == b || Less(a, b)
  }

  // Value types; a deletion is code 0 and a value is code 1.
  datatype Kind = Deletion | Value

  datatype IKey = IKey(user: UserKey, sequence: nat, kind: Kind)

  const MAX_SEQUENCE: nat := 0xff_ffff_ffff_ffff

  // The order of internal keys: user key ascending, then sequence number
  // descending, then type descending.
  predicate Before(a: IKey, b: IKey) {
    || Less(a.user, b.user)
    || (a.user == b.user && (a.sequence > b.sequence ||
                             (a.sequence == b.sequence && a.kind.Value? && b.kind.Deletion?)))
  }

  lemma {:induction false} LessIrreflexive(a: UserKey)
    ensures !Less(a, a)
  {
    if a != [] {
      LessIrreflexive(a[1..]);
    }
  }

  lemma {:induction false} LessTransitive(a: UserKey, b: UserKey, c: UserKey)
    requires Less(a, b) && Less(b, c)
    ensures Less(a, c)
  {
    if |a| > 0 && a[0] == b[0] && b[0] == c[0] {
      LessTransitive(a[1..], b[1..], c[1..]);
    }
  }

  lemma {:induction false} LessTotal(a: UserKey, b: UserKey)
    ensures Less(a, b) || a == b || Less(b, a)
  {
    if |a| > 0 && |b| > 0 && a[0] == b[0] {
      LessTotal(a[1..], b[1..]);
      assert a == [a[0]] + a[1..] && b == [b[0]] + b[1..];
    }
  }

  // User keys are totally ordered.
  lemma UserKeysOrdered()
    ensures forall a: UserKey :: !Less(a, a)
    ensures forall a: UserKey, b: UserKey, c: UserKey :: Less(a, b) && Less(b, c) ==> Less(a, c)
    ensures forall a: UserKey, b: UserKey :: Less(a, b) || a == b || Less(b, a)
  {
    forall a: UserKey { LessIrreflexive(a); }
    forall a: UserKey, b: UserKey, c: UserKey | Less(a, b) && Less(b, c) { LessTransitive(a, b, c); }
    forall a: UserKey, b: UserKey { LessTotal(a, b); }
  }

  // Internal keys are totally ordered.
  lemma InternalKeysOrdered()
    ensures forall a: IKey :: !Before(a, a)
    ensures forall a: IKey, b: IKey, c: IKey :: Before(a, b) && Before(b, c) ==> Before(a, c)
    ensures forall a: IKey, b: IKey :: Before(a, b) || a == b || Before(b, a)
  {
    UserKeysOrdered();
  }
}
