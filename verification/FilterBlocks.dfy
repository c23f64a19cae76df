// The filter block of a table: one filter for each 2 KB of the file
// (table/filter_block.cc).
module FilterBlocks {
  import opened Keys
  import opened Coding
  import opened Options
  import InternalKeys
  import Bloom

  const BASE_LG: Byte := 11
  const BASE := 2048

  // A filter policy; its filters deny no key they were made of.
  datatype Policy = Policy(create: seq<seq<Byte>> -> seq<Byte>, mayMatch: (seq<Byte>, seq<Byte>) -> bool) {
    ghost predicate Honest() {
      forall keys, key :: key in keys ==> mayMatch(key, create(keys))
    }
  }

  // The filter of a list of keys; none for no keys.
  function FilterOf(p: Policy, keys: seq<seq<Byte>>): seq<Byte> {
    if keys == [] then [] else p.create(keys)
  }

  function Flat(pieces: seq<seq<Byte>>): seq<Byte> {
    if pieces == [] then [] else Flat(pieces[..|pieces| - 1]) + pieces[|pieces| - 1]
  }

  // Where each piece starts.
  function Starts(pieces: seq<seq<Byte>>): (r: seq<nat>)
    ensures |r| == |pieces| && forall i :: 0 <= i < |r| ==> r[i] == |Flat(pieces[..i])|
  {
    seq(|pieces|, i requires 0 <= i < |pieces| => |Flat(pieces[..i])|)
  }

  lemma PieceAdded(pieces: seq<seq<Byte>>, piece: seq<Byte>)
    ensures Flat(pieces + [piece]) == Flat(pieces) + piece
    ensures Starts(pieces + [piece]) == Starts(pieces) + [|Flat(pieces)|]
  {
    var more := pieces + [piece];
    assert more[..|pieces|] == pieces;
    forall i | 0 <= i < |pieces|
      ensures Starts(more)[i] == Starts(pieces)[i]
    {
      assert more[..i] == pieces[..i];
    }
  }

  lemma {:induction false} PieceIsThere(pieces: seq<seq<Byte>>, i: nat)
    requires i < |pieces|
    ensures |Flat(pieces[..i])| + |pieces[i]| == |Flat(pieces[..i + 1])| <= |Flat(pieces)|
    ensures Flat(pieces)[|Flat(pieces[..i])|..|Flat(pieces[..i + 1])|] == pieces[i]
  {
    var front := pieces[..|pieces| - 1];
    if i == |pieces| - 1 {
      assert pieces[..i] == front && pieces[..i + 1] == pieces;
    } else {
      assert front[..i] == pieces[..i] && front[..i + 1] == pieces[..i + 1];
      PieceIsThere(front, i);
    }
  }

  // The filters of lists of keys.
  function Made(p: Policy, lists: seq<seq<seq<Byte>>>): (r: seq<seq<Byte>>)
    ensures |r| == |lists|
  {
    seq(|lists|, i requires 0 <= i < |lists| => FilterOf(p, lists[i]))
  }

  function BlockOf(p: Policy, lists: seq<seq<seq<Byte>>>): seq<Byte> {
    var filters := Flat(Made(p, lists));
    filters + Fixed32s(Starts(Made(p, lists))) + Fixed(|filters|, 4) + [BASE_LG]
  }

  // ---- Building ----

  class FilterBlockBuilder {
    const policy: Policy
    var keys: seq<Byte>
    var start: seq<nat>
    var result: seq<Byte>
    var filterOffsets: seq<nat>
    ghost var lists: seq<seq<seq<Byte>>>      // the keys of the filters made
    ghost var pending: seq<seq<Byte>>         // the keys of the next one
    ghost var block: nat                      // the offset of the current block
    ghost var added: set<(nat, seq<Byte>)>    // blocks' offsets and their keys

    ghost predicate Sound()
      reads this
    {
      && keys == Flat(pending) && start == Starts(pending)
      && result == Flat(Made(policy, lists)) && filterOffsets == Starts(Made(policy, lists))
      && forall a :: a in added ==> Recorded(lists, pending, a.0, a.1)
    }

    // The next filter is that of the current block.
    ghost predicate Valid()
      reads this
    {
      Sound() && block / BASE == |lists|
    }

    constructor (policy: Policy)
      ensures Valid() && this.policy == policy && added == {} && block == 0
    {
      this.policy := policy;
      keys, start, result, filterOffsets := [], [], [], [];
      lists, pending, block, added := [], [], 0, {};
    }

    // Offsets do not go back.
    method StartBlock(blockOffset: nat)
      requires Valid() && block <= blockOffset
      modifies this
      ensures Valid() && block == blockOffset && added == old(added)
    {
      hide Recorded, Flat, Starts;
      var filterIndex := blockOffset / BASE;
      while filterIndex > |filterOffsets|
        invariant Sound() && added == old(added) && |filterOffsets| <= filterIndex
      {
        GenerateFilter();
      }
      block := blockOffset;
    }

    method AddKey(key: seq<Byte>)
      requires Valid()
      modifies this
      ensures Valid() && block == old(block) && added == old(added) + {(block, key)}
    {
      hide Flat, Starts, Made;
      PieceAdded(pending, key);
      MoreRecorded(lists, pending, added, block, key);
      start := start + [|keys|];
      keys := keys + key;
      pending := pending + [key];
      added := added + {(block, key)};
    }

    method GenerateFilter()
      requires Sound()
      modifies this`keys, this`start, this`result, this`filterOffsets, this`lists, this`pending
      ensures Sound() && lists == old(lists) + [old(pending)] && pending == []
    {
      hide Flat, Starts, Recorded, Made;
      FilterAdded(policy, lists, pending);
      AllRecorded(lists, pending, added);
      var numKeys := |start|;
      if numKeys == 0 {
        filterOffsets := filterOffsets + [|result|];
      } else {
        var tmpKeys := TmpKeys();
        filterOffsets := filterOffsets + [|result|];
        result := result + policy.create(tmpKeys);
        keys, start := [], [];
      }
      lists, pending := lists + [pending], [];
    }

    // The list of keys from the flattened ones.
    method TmpKeys() returns (tmpKeys: seq<seq<Byte>>)
      requires keys == Flat(pending) && start == Starts(pending)
      ensures tmpKeys == pending
    {
      hide Flat, Starts;
      tmpKeys := [];
      var ends := start + [|keys|];
      for i := 0 to |start|
        invariant tmpKeys == pending[..i]
      {
        PieceIsThere(pending, i);
        assert i + 1 == |pending| ==> pending[..i + 1] == pending;
        tmpKeys := tmpKeys + [keys[ends[i]..ends[i + 1]]];
      }
    }

    method Finish() returns (contents: seq<Byte>)
      requires Valid()
      modifies this
      ensures added == old(added) && contents == BlockOf(policy, lists)
      ensures forall a :: a in added ==> a.0 / BASE < |lists| && a.1 in lists[a.0 / BASE]
    {
      hide Flat, Starts, Made;
      NonePending();
      if start != [] {
        GenerateFilter();
      }
      var arrayOffset, n := |result|, |filterOffsets|;
      ghost var filters := result;
      for i := 0 to n
        invariant |filterOffsets| == n && result == filters + Fixed32s(filterOffsets[..i])
        invariant filters == Flat(Made(policy, lists)) && filterOffsets == Starts(Made(policy, lists))
        invariant added == old(added) && forall a :: a in added ==> a.0 / BASE < |lists| && a.1 in lists[a.0 / BASE]
      {
        result := result + Fixed(filterOffsets[i], 4);
        assert filterOffsets[..i + 1][..i] == filterOffsets[..i];
      }
      assert filterOffsets[..|filterOffsets|] == filterOffsets;
      result := result + Fixed(arrayOffset, 4);
      result := result + [BASE_LG];
      contents := result;
    }

    lemma NonePending()
      requires Sound()
      ensures start == [] ==> pending == []
    {
    }
  }

  // The key is in the filter of its block, or will be.
  ghost predicate Recorded(lists: seq<seq<seq<Byte>>>, pending: seq<seq<Byte>>, offset: nat, key: seq<Byte>) {
    if offset / BASE < |lists| then key in lists[offset / BASE] else offset / BASE == |lists| && key in pending
  }

  lemma AllRecorded(lists: seq<seq<seq<Byte>>>, pending: seq<seq<Byte>>, added: set<(nat, seq<Byte>)>)
    requires forall a :: a in added ==> Recorded(lists, pending, a.0, a.1)
    ensures forall a :: a in added ==> Recorded(lists + [pending], [], a.0, a.1)
  {
  }

  lemma MoreRecorded(lists: seq<seq<seq<Byte>>>, pending: seq<seq<Byte>>, added: set<(nat, seq<Byte>)>, block: nat,
                     key: seq<Byte>)
    requires forall a :: a in added ==> Recorded(lists, pending, a.0, a.1)
    requires block / BASE == |lists|
    ensures forall a :: a in added + {(block, key)} ==> Recorded(lists, pending + [key], a.0, a.1)
  {
  }

  lemma FilterAdded(p: Policy, lists: seq<seq<seq<Byte>>>, list: seq<seq<Byte>>)
    ensures Flat(Made(p, lists + [list])) == Flat(Made(p, lists)) + FilterOf(p, list)
    ensures Starts(Made(p, lists + [list])) == Starts(Made(p, lists)) + [|Flat(Made(p, lists))|]
    ensures Flat([]) == [] && Starts([]) == []
  {
    hide Flat, Starts;
    assert Made(p, lists + [list]) == Made(p, lists) + [FilterOf(p, list)];
    PieceAdded(Made(p, lists), FilterOf(p, list));
    NoPieces();
  }

  lemma NoPieces()
    ensures Flat([]) == [] && Starts([]) == []
  {
  }

  // ---- Reading ----

  class FilterBlockReader {
    const policy: Policy
    const contents: seq<Byte>
    const arrayOffset: nat
    const num: nat
    const baseLg: nat

    ghost predicate Valid() {
      num > 0 ==> arrayOffset + 4 * num + 5 <= |contents|
    }

    constructor (policy: Policy, contents: seq<Byte>)
      ensures Valid() && this.policy == policy && this.contents == contents
      ensures forall lists: seq<seq<seq<Byte>>> :: contents == BlockOf(policy, lists) && |contents| < WORD ==>
              Reads(lists)
    {
      hide Flat, Starts, Made, Fixed, DecodeFixed;
      this.policy, this.contents := policy, contents;
      arrayOffset, num, baseLg := 0, 0, 0;
      var n := |contents|;
      if n >= 5 {
        baseLg := contents[n - 1];
        var lastWord := DecodeFixed(contents[n - 5..n - 1]);
        if lastWord <= n - 5 {
          arrayOffset, num := lastWord, (n - 5 - lastWord) / 4;
        }
      }
      new;
      forall lists: seq<seq<seq<Byte>>> | contents == BlockOf(policy, lists) && |contents| < WORD
        ensures arrayOffset == |Flat(Made(policy, lists))| && num == |lists| && baseLg == BASE_LG
      {
        TrailerRead(policy, contents, lists);
      }
    }

    // The bytes are the filter block of these lists.
    ghost predicate Reads(lists: seq<seq<seq<Byte>>>) {
      && contents == BlockOf(policy, lists) && |contents| < WORD
      && arrayOffset == |Flat(Made(policy, lists))| && num == |lists| && baseLg == BASE_LG
    }

    // The answer of the policy for the filter of the block's two kilobytes.
    method KeyMayMatch(blockOffset: nat, key: seq<Byte>, ghost lists: seq<seq<seq<Byte>>>) returns (r: bool)
      requires Valid()
      ensures Reads(lists) && blockOffset / BASE < |lists| ==>
                r == policy.mayMatch(key, FilterOf(policy, lists[blockOffset / BASE]))
    {
      hide Flat, Starts, Made, Fixed, DecodeFixed, BlockOf, Pow;
      PowerOfBase(baseLg);
      var index := blockOffset / Pow(2, baseLg);
      r := true;
      if index < num {
        var at := arrayOffset + index * 4;
        var start := DecodeFixed(contents[at..at + 4]);
        var limit := DecodeFixed(contents[at + 4..at + 8]);
        if Reads(lists) {
          FilterRead(policy, contents, lists, index);
        }
        if start <= limit && limit <= arrayOffset {
          r := policy.mayMatch(key, contents[start..limit]);
        } else if start == limit {
          r := false;
        }
      }
    }
  }

  lemma {:induction false} PowerPositive(n: nat)
    ensures Pow(2, n) > 0
  {
    if n > 0 { PowerPositive(n - 1); }
  }

  lemma PowerOfBase(n: nat)
    ensures Pow(2, n) > 0
    ensures n == BASE_LG ==> Pow(2, n) == BASE
  {
    PowerPositive(n);
    assert Pow(2, 11) == BASE;
  }

  lemma TrailerRead(p: Policy, contents: seq<Byte>, lists: seq<seq<seq<Byte>>>)
    requires contents == BlockOf(p, lists) && |contents| < WORD
    ensures var n, size := |contents|, |Flat(Made(p, lists))|;
            && n >= 5 && contents[n - 1] == BASE_LG
            && DecodeFixed(contents[n - 5..n - 1]) == size <= n - 5
            && (n - 5 - size) / 4 == |lists|
  {
    hide Flat, Starts, Made, Fixed, DecodeFixed, Fixed32s;
    var n, size := |contents|, |Flat(Made(p, lists))|;
    Fixed32RoundTrip(size);
    assert contents[n - 5..n - 1] == Fixed(size, 4);
  }

  // The bounds of a filter; the last one is the offset of the array itself.
  lemma FilterRead(p: Policy, contents: seq<Byte>, lists: seq<seq<seq<Byte>>>, i: nat)
    requires contents == BlockOf(p, lists) && |contents| < WORD && i < |lists|
    ensures var made := Made(p, lists);
            var at := |Flat(made)| + 4 * i;
            var from, to := |Flat(made[..i])|, |Flat(made[..i + 1])|;
            && at + 8 <= |contents|
            && DecodeFixed(contents[at..at + 4]) == from && DecodeFixed(contents[at + 4..at + 8]) == to
            && from <= to <= |Flat(made)| && contents[from..to] == FilterOf(p, lists[i])
  {
    hide Flat, Starts, Fixed, DecodeFixed, Fixed32s;
    var made := Made(p, lists);
    PieceIsThere(made, i);
    var size := |Flat(made)|;
    var starts := Starts(made);
    var words := Fixed32s(starts);
    assert contents == Flat(made) + words + Fixed(size, 4) + [BASE_LG];
    var from, to := |Flat(made[..i])|, |Flat(made[..i + 1])|;
    assert contents[from..to] == Flat(made)[from..to];
    ValueIsThere(starts, i);
    assert contents[size + 4 * i..size + 4 * i + 4] == words[4 * i..4 * i + 4];
    Fixed32RoundTrip(from);
    Fixed32RoundTrip(to);
    if i + 1 < |lists| {
      ValueIsThere(starts, i + 1);
      assert contents[size + 4 * i + 4..size + 4 * i + 8] == words[4 * (i + 1)..4 * (i + 1) + 4];
    } else {
      assert made[..i + 1] == made;
      assert contents[size + 4 * i + 4..size + 4 * i + 8] == Fixed(size, 4);
    }
  }

  // ---- Policies ----

  // The built-in policy: Bloom filters, for any hash function.
  function BloomPolicy(hash: Bloom.Hash, bitsPerKey: nat, k: Byte): Policy {
    Policy(keys => Bloom.Filter(hash, bitsPerKey, k, keys), (key, filter) => Bloom.MayMatch(hash, key, filter))
  }

  lemma BloomIsHonest(hash: Bloom.Hash, bitsPerKey: nat, k: Byte)
    requires 1 <= k <= 30
    ensures BloomPolicy(hash, bitsPerKey, k).Honest()
  {
    hide Bloom.Filter, Bloom.MayMatch;
    forall keys: seq<seq<Byte>>, key | key in keys
      ensures Bloom.MayMatch(hash, key, Bloom.Filter(hash, bitsPerKey, k, keys))
    {
      Bloom.NoFalseNegatives(hash, bitsPerKey, k, keys, key);
    }
  }

  function UserPart(key: seq<Byte>): seq<Byte> {
    if |key| < 8 then key else InternalKeys.ExtractUserKey(key)
  }

  function UserParts(keys: seq<seq<Byte>>): seq<seq<Byte>> {
    seq(|keys|, i requires 0 <= i < |keys| => UserPart(keys[i]))
  }

  // InternalFilterPolicy: filters of user keys, asked about internal keys.
  function InternalPolicy(user: Policy): Policy {
    Policy(keys => user.create(UserParts(keys)), (key, filter) => user.mayMatch(UserPart(key), filter))
  }

  // An internal key is not denied when its user key is in the filter, under
  // whatever sequence number.
  lemma InternalIsHonest(user: Policy, keys: seq<seq<Byte>>, stored: seq<Byte>, key: seq<Byte>)
    requires user.Honest() && stored in keys && UserPart(stored) == UserPart(key)
    ensures var p := InternalPolicy(user); p.mayMatch(key, FilterOf(p, keys))
  {
    hide UserPart;
    var i :| 0 <= i < |keys| && keys[i] == stored;
    assert UserParts(keys)[i] == UserPart(key);
  }
}
