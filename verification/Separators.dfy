// Short keys between two blocks (util/comparator.cc, db/dbformat.cc).
module Separators {
  import opened Keys

  // The first byte that differs grows by one, if that leaves it smaller than
  // the limit's, and ends the key.
  function Separator(start: UserKey, limit: UserKey): UserKey {
    if start == [] || limit == [] then start
    else if start[0] == limit[0] then [start[0]] + Separator(start[1..], limit[1..])
    else if start[0] < 0xff && start[0] + 1 < limit[0] then [start[0] + 1]
    else start
  }

  // The first byte that can grow does, and ends the key.
  function Successor(key: UserKey): UserKey {
    if key == [] then key
    else if key[0] != 0xff then [key[0] + 1]
    else [key[0]] + Successor(key[1..])
  }

  // Either start itself, or the shortest of all keys from start up to the limit,
  // and strictly between them.
  lemma {:induction false} SeparatorIsShortest(start: UserKey, limit: UserKey, k: UserKey)
    ensures var r := Separator(start, limit);
            r != start ==>
              Less(start, r) && Less(r, limit) && |r| <= |start| &&
              (!Less(k, start) && Less(k, limit) ==> |r| <= |k|)
  {
    if start != [] && limit != [] && start[0] == limit[0] {
      assert start == [start[0]] + start[1..];
      SeparatorIsShortest(start[1..], limit[1..], if k == [] then k else k[1..]);
    }
  }

  // The key itself when it is all 0xff, else a key behind everything that the key
  // is a prefix of.
  lemma {:induction false} SuccessorIsBehind(key: UserKey, more: UserKey)
    ensures var r := Successor(key);
            && (r == key <==> forall i :: 0 <= i < |key| ==> key[i] == 0xff)
            && (r != key ==> Less(key, r) && Less(key + more, r) && |r| <= |key|)
  {
    if key != [] && key[0] == 0xff {
      assert key == [key[0]] + key[1..];
      assert (key + more)[1..] == key[1..] + more;
      SuccessorIsBehind(key[1..], more);
      assert Successor(key)[1..] == Successor(key[1..]);
    }
  }

  // The front that the keys share stays.
  lemma SeparatorAt(start: UserKey, limit: UserKey, i: nat)
    requires i <= |start| && i <= |limit|
    ensures i == |start| || i == |limit| ==> start[..i] + Separator(start[i..], limit[i..]) == start
    ensures i < |start| && i < |limit| && start[i] == limit[i] ==>
              start[..i] + Separator(start[i..], limit[i..]) == start[..i + 1] +
                Separator(start[i + 1..], limit[i + 1..])
    ensures i < |start| && i < |limit| && start[i] != limit[i] ==>
              start[..i] + Separator(start[i..], limit[i..]) ==
              if start[i] < 0xff && start[i] + 1 < limit[i] then start[..i] + [start[i] + 1] else start
  {
    var a, b := start[i..], limit[i..];
    assert start == start[..i] + a;
    if i < |start| && i < |limit| {
      assert a[1..] == start[i + 1..] && b[1..] == limit[i + 1..];
      assert start[..i + 1] == start[..i] + [start[i]];
    }
  }

  method FindShortestSeparator(start: UserKey, limit: UserKey) returns (r: UserKey)
    ensures r == Separator(start, limit)
  {
    hide Separator;
    var minLength := if |start| < |limit| then |start| else |limit|;
    var diffIndex := 0;
    while diffIndex < minLength && start[diffIndex] == limit[diffIndex]
      invariant diffIndex <= minLength
      invariant start[..diffIndex] + Separator(start[diffIndex..], limit[diffIndex..]) == Separator(start, limit)
    {
      SeparatorAt(start, limit, diffIndex);
      diffIndex := diffIndex + 1;
    }
    SeparatorAt(start, limit, diffIndex);
    r := start;
    if diffIndex < minLength {
      var diffByte: int := start[diffIndex];
      if diffByte < 0xff && diffByte + 1 < limit[diffIndex] {
        r := start[..diffIndex] + [diffByte + 1];
      }
    }
  }

  method FindShortSuccessor(key: UserKey) returns (r: UserKey)
    ensures r == Successor(key)
  {
    for i := 0 to |key|
      invariant key[..i] + Successor(key[i..]) == Successor(key)
    {
      if key[i] != 0xff {
        r := key[..i] + [key[i] + 1];
        return;
      }
    }
    r := key;
  }

  // The earliest internal key of a user key.
  function Earliest(u: UserKey): IKey {
    IKey(u, MAX_SEQUENCE, Value)
  }

  lemma NotBack(key: IKey, u: UserKey)
    ensures !Before(key, key)
    ensures Less(key.user, u) ==> !Before(Earliest(u), key)
    ensures Less(u, key.user) ==> Before(Earliest(u), key)
  {
    UserKeysOrdered();
  }

  method InternalSeparator(start: IKey, limit: IKey) returns (r: IKey)
    requires Before(start, limit)
    ensures r == var u := Separator(start.user, limit.user); if |u| < |start.user| then Earliest(u) else start
    ensures !Before(r, start) && Before(r, limit)
    ensures r == start || (Less(start.user, r.user) && Less(r.user, limit.user) && r == Earliest(r.user))
  {
    var tmp := FindShortestSeparator(start.user, limit.user);
    SeparatorIsShortest(start.user, limit.user, []);
    NotBack(start, tmp);
    NotBack(limit, tmp);
    r := start;
    if |tmp| < |start.user| && Less(start.user, tmp) {
      r := Earliest(tmp);
    }
  }

  method InternalSuccessor(key: IKey) returns (r: IKey)
    ensures r == var u := Successor(key.user); if |u| < |key.user| then Earliest(u) else key
    ensures !Before(r, key)
    ensures r == key || (Less(key.user, r.user) && r == Earliest(r.user))
  {
    var tmp := FindShortSuccessor(key.user);
    SuccessorIsBehind(key.user, []);
    NotBack(key, tmp);
    r := key;
    if |tmp| < |key.user| && Less(key.user, tmp) {
      r := Earliest(tmp);
    }
  }
}
