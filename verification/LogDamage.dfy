// Damage to a log stays where it is: the reader goes on at the next block
// (db/log_reader.cc, db/log_format.h).
module LogDamage {
  import opened Keys
  import opened Logs
  import opened Options

  // ---- What a block boundary cuts ----

  // At e the log has the rest of a record and record j behind it, or just record j.
  ghost predicate Resumes(crc: Checksum, records: seq<seq<Byte>>, e: nat, j: nat, rest: Option<seq<Byte>>) {
    && j <= |records|
    && match rest
       case None => RecordPos(crc, records, j) == e
       case Some(data) =>
         var end := |LogOf(crc, records[..j])|;
         && e < end <= |LogOf(crc, records)| && LogOf(crc, records)[e..end] == Frames(crc, 0, data, false)
  }

  // A header is never behind the end of the block.
  lemma HeaderStays(s: nat, offset: nat, e: nat)
    requires offset <= BLOCK_SIZE && (s - offset) % BLOCK_SIZE == 0 && e % BLOCK_SIZE == 0
    ensures s <= e ==> s + Padding(offset) <= e
  {
    var b, c := (s - offset) / BLOCK_SIZE, e / BLOCK_SIZE;
    assert s - offset == b * BLOCK_SIZE && e == c * BLOCK_SIZE;
    assert offset > 0 && s <= e ==> b < c;
  }

  // Fragments do not cross the boundary, so the others start there.
  lemma {:induction false} FramesCross(crc: Checksum, pos: nat, data: seq<Byte>, begin: bool,
                                       e: nat) returns (rest: seq<Byte>)
    requires pos % BLOCK_SIZE + HEADER_SIZE <= BLOCK_SIZE && e % BLOCK_SIZE == 0
    requires pos < e < pos + |Frames(crc, pos % BLOCK_SIZE, data, begin)|
    ensures Frames(crc, pos % BLOCK_SIZE, data, begin)[e - pos..] == Frames(crc, 0, rest, false)
    decreases |data|, Fragment(pos % BLOCK_SIZE, data) == 0
  {
    hide Frames, Header;
    var offset := pos % BLOCK_SIZE;
    var n := Fragment(offset, data);
    FirstAndOthers(crc, offset, data, begin);
    BlockEndsBy(pos, e);
    rest := data[n..];
    var next := pos + HEADER_SIZE + n;
    FullBlock(crc, rest, false);
    if next < e {
      NextBlock(pos, n);
      var more := FramesCross(crc, next, rest, false, e);
      rest := more;
    }
  }

  lemma BlockEndsBy(pos: nat, e: nat)
    requires e % BLOCK_SIZE == 0 && pos < e
    ensures pos - pos % BLOCK_SIZE + BLOCK_SIZE <= e
  {
    var b, c := pos / BLOCK_SIZE, e / BLOCK_SIZE;
    assert pos == b * BLOCK_SIZE + pos % BLOCK_SIZE && e == c * BLOCK_SIZE;
    assert b < c;
    assert (b + 1) * BLOCK_SIZE <= c * BLOCK_SIZE;
  }

  lemma NextBlock(pos: nat, n: nat)
    requires pos % BLOCK_SIZE + HEADER_SIZE + n == BLOCK_SIZE
    ensures (pos + HEADER_SIZE + n) % BLOCK_SIZE == 0
  {
    assert pos + HEADER_SIZE + n == (pos / BLOCK_SIZE + 1) * BLOCK_SIZE;
  }

  // The first record that starts at or behind e.
  lemma FirstBehind(crc: Checksum, records: seq<seq<Byte>>, e: nat) returns (j: nat)
    requires e <= |LogOf(crc, records)|
    ensures j <= |records| && RecordPos(crc, records, j) >= e
    ensures j > 0 ==> RecordPos(crc, records, j - 1) < e
  {
    hide LogOf;
    j := 0;
    assert records[..|records|] == records;
    while RecordPos(crc, records, j) < e
      invariant j <= |records| && (j > 0 ==> RecordPos(crc, records, j - 1) < e)
      decreases |records| - j
    {
      j := j + 1;
    }
  }

  lemma AtBoundary(crc: Checksum, records: seq<seq<Byte>>, e: nat) returns (j: nat, rest: Option<seq<Byte>>)
    requires e % BLOCK_SIZE == 0 && e <= |LogOf(crc, records)|
    ensures Resumes(crc, records, e, j, rest) && RecordPos(crc, records, j) >= e
    ensures j > 0 ==> RecordPos(crc, records, j - 1) < e
  {
    hide LogOf, Frames;
    j := FirstBehind(crc, records, e);
    rest := None;
    if RecordPos(crc, records, j) > e {
      FirstIsAtStart(crc, records, e);
      var end := |LogOf(crc, records[..j])|;
      HeaderStays(end, end % BLOCK_SIZE, e);
      var tail := RecordCut(crc, records, e, j - 1);
      rest := Some(tail);
    }
  }

  lemma FirstIsAtStart(crc: Checksum, records: seq<seq<Byte>>, e: nat)
    ensures RecordPos(crc, records, 0) == 0
  {
    NoRecords(crc);
    assert records[..0] == [];
  }

  lemma RecordCut(crc: Checksum, records: seq<seq<Byte>>, e: nat, n: nat) returns (rest: seq<Byte>)
    requires n < |records| && e % BLOCK_SIZE == 0
    requires RecordPos(crc, records, n) < e < |LogOf(crc, records[..n + 1])|
    ensures var end := |LogOf(crc, records[..n + 1])|;
            end <= |LogOf(crc, records)| && LogOf(crc, records)[e..end] == Frames(crc, 0, rest, false)
  {
    hide LogOf, Frames, Zeros;
    var front, whole := LogOf(crc, records[..n]), LogOf(crc, records);
    var offset := |front| % BLOCK_SIZE;
    var pos := RecordPos(crc, records, n);
    LogGrows(crc, records, n);
    LogGrows(crc, records, n + 1);
    PaddingFirst(crc, offset, records[n], true);
    StartIs(|front|, offset);
    rest := FramesCross(crc, pos, records[n], true, e);
    var end := |LogOf(crc, records[..n + 1])|;
    var frames := Frames(crc, Start(offset), records[n], true);
    CutThere(whole, front, Zeros(Padding(offset)), frames, e);
  }

  lemma CutThere(whole: seq<Byte>, front: seq<Byte>, zeros: seq<Byte>, frames: seq<Byte>, e: nat)
    requires |front| + |zeros| <= e <= |front| + |zeros| + |frames| <= |whole|
    requires front + (zeros + frames) <= whole
    ensures whole[e..|front| + |zeros| + |frames|] == frames[e - |front| - |zeros|..]
  {
    var end := |front| + |zeros| + |frames|;
    assert whole[..end] == front + zeros + frames;
    assert forall i :: 0 <= i < |frames| ==> (front + zeros + frames)[|front| + |zeros| + i] == frames[i];
    assert forall i :: 0 <= i < end ==> whole[i] == whole[..end][i];
  }

  // ---- Up to the boundary ----

  // Before the boundary, every step stays before it or reaches it.
  lemma StepStays(crc: Checksum, file: seq<Byte>, p: Place, e: nat)
    requires InFile(|file|, p) && HeaderPos(p) < e <= |file| && e % BLOCK_SIZE == 0
    ensures var n := NextPhysical(crc, file, p);
            !n.r.Eof? && n.next.pos > p.pos && HeaderPos(n.next) <= e
  {
    hide Parse;
    StartIs(p.pos, p.pos - p.block);
    BlockEndsBy(HeaderPos(p), e);
    var q := HeaderPlace(|file|, p);
    var n := NextPhysical(crc, file, p);
    HeaderStays(n.next.pos, n.next.pos - n.next.block, e);
  }

  // At the boundary the rest of the cut record is next.
  lemma RestAhead(crc: Checksum, file: seq<Byte>, records: seq<seq<Byte>>, e: nat, p: Place, j: nat, data: seq<Byte>)
    requires InFile(|file|, p) && HeaderPos(p) == e && e % BLOCK_SIZE == 0
    requires SameFrom(file, LogOf(crc, records), e) && Resumes(crc, records, e, j, Some(data))
    ensures Ahead(crc, file, p, data, false) && EndOf(crc, p, data, false) == |LogOf(crc, records[..j])|
  {
    hide LogOf, Frames, SameIn, SameFrom, Agree;
    StartIs(p.pos, p.pos - p.block);
    var whole, end := LogOf(crc, records), |LogOf(crc, records[..j])|;
    SameBehind(file, whole, e, e, end);
    Joined(whole, e, end);
    PartAgrees(file, whole, whole[..e], Frames(crc, 0, data, false));
  }

  lemma Joined<T>(whole: seq<T>, e: nat, end: nat)
    requires e <= end <= |whole|
    ensures whole[..end] == whole[..e] + whole[e..end]
  {
  }

  // From the boundary on.
  lemma BehindBoundary(crc: Checksum, file: seq<Byte>, records: seq<seq<Byte>>, e: nat, p: Place, a: Assembly, j: nat,
                       rest: Option<seq<Byte>>)
      returns (junk: seq<seq<Byte>>, m: nat)
    requires InFile(|file|, p) && HeaderPos(p) == e && e % BLOCK_SIZE == 0
    requires SameFrom(file, LogOf(crc, records), e) && Resumes(crc, records, e, j, rest)
    ensures j <= m <= |records| && RecordsFrom(crc, file, p, a) == junk + records[j..m]
    ensures m > j ==> |LogOf(crc, records[..m])| <= |file|
    ensures m < |records| ==> |LogOf(crc, records[..m + 1])| > |file|
  {
    hide LogOf, Frames, NextRecord, Ahead;
    junk, m := [], j;
    match rest
    case None =>
      m := FromRecord(crc, file, records, j, p, a, e);
    case Some(data) =>
      RestAhead(crc, file, records, e, p, j, data);
      LogGrows(crc, records, j);
      if j < |records| { LogGrows(crc, records[..j + 1], j); assert records[..j + 1][..j] == records[..j]; }
      if a.inFragmented {
        RecordNext(crc, file, p, data, false, a);
        var f := NextRecord(crc, file, p, a);
        if f.record.Some? {
          junk := [f.record.value];
          EndIsStart(crc, records, j, f.next);
          m := FromRecord(crc, file, records, j, f.next, NOTHING, e);
        }
      } else {
        var q := TailPassed(crc, file, p, data, a);
        if |LogOf(crc, records[..j])| <= |file| {
          EndIsStart(crc, records, j, q);
          m := FromRecord(crc, file, records, j, q, a, e);
        }
      }
  }

  // Whatever is in front of the boundary, the records behind it are found.
  lemma {:induction false} Resync(crc: Checksum, file: seq<Byte>, records: seq<seq<Byte>>, e: nat, p: Place,
                                  a: Assembly, j: nat,
                                  rest: Option<seq<Byte>>)
      returns (junk: seq<seq<Byte>>, m: nat)
    requires InFile(|file|, p) && HeaderPos(p) <= e && e % BLOCK_SIZE == 0
    requires SameFrom(file, LogOf(crc, records), e) && Resumes(crc, records, e, j, rest)
    ensures j <= m <= |records| && RecordsFrom(crc, file, p, a) == junk + records[j..m]
    ensures m > j ==> |LogOf(crc, records[..m])| <= |file|
    ensures m < |records| ==> |LogOf(crc, records[..m + 1])| > |file|
    decreases |file| - p.pos
  {
    hide LogOf, Frames, NextRecord, NextPhysical, Resumes;
    if HeaderPos(p) == e {
      junk, m := BehindBoundary(crc, file, records, e, p, a, j, rest);
    } else {
      StepStays(crc, file, p, e);
      Step(crc, file, p, a);
      var n := NextPhysical(crc, file, p);
      match Take(a, n.r)
      case Got(record, _) =>
        junk, m := Resync(crc, file, records, e, n.next, NOTHING, j, rest);
        junk := [record] + junk;
      case Go(b, _) =>
        junk, m := Resync(crc, file, records, e, n.next, b, j, rest);
    }
  }

  // ---- In front of the damage ----

  ghost predicate FoundFirst(crc: Checksum, file: seq<Byte>, front: seq<seq<Byte>>, p: Place) {
    InFile(|file|, p) && RecordsFrom(crc, file, START, NOTHING) == front + RecordsFrom(crc, file, p, NOTHING)
  }

  // Records that end by s are found first.
  lemma {:induction false} FrontFound(crc: Checksum, file: seq<Byte>, records: seq<seq<Byte>>, s: nat,
                                      n: nat) returns (p: Place)
    requires n <= |records| && |LogOf(crc, records[..n])| <= s <= |file| && SameIn(file, LogOf(crc, records), 0, s)
    ensures FoundFirst(crc, file, records[..n], p) && p.pos == |LogOf(crc, records[..n])|
  {
    hide LogOf, Frames, NextRecord, Ahead;
    NoRecords(crc);
    if n == 0 {
      p := START;
      assert records[..0] == [];
    } else {
      LogGrows(crc, records[..n], n - 1);
      assert records[..n][..n - 1] == records[..n - 1];
      var q := FrontFound(crc, file, records, s, n - 1);
      EndIsStart(crc, records, n - 1, q);
      RecordAhead(crc, file, records, n - 1, q);
      RecordNext(crc, file, q, records[n - 1], true, NOTHING);
      p := NextRecord(crc, file, q, NOTHING).next;
      assert [] + records[n - 1] == records[n - 1];
      assert records[..n] == records[..n - 1] + [records[n - 1]];
    }
  }

  // The last record that ends by s.
  lemma LastBefore(crc: Checksum, records: seq<seq<Byte>>, s: nat) returns (i: nat)
    ensures i <= |records| && |LogOf(crc, records[..i])| <= s
    ensures i < |records| ==> |LogOf(crc, records[..i + 1])| > s
  {
    hide LogOf;
    NoRecords(crc);
    assert records[..0] == [];
    i := 0;
    while i < |records| && |LogOf(crc, records[..i + 1])| <= s
      invariant i <= |records| && |LogOf(crc, records[..i])| <= s
    {
      i := i + 1;
    }
  }

  // Bytes s to e of a log are overwritten, with anything, and its end may be
  // missing.  Every record that ends by s is read, then perhaps something else,
  // and then every record that starts behind e and is whole.  So only records that
  // touch the damaged blocks are lost.
  lemma DamageIsLocal(crc: Checksum, file: seq<Byte>, records: seq<seq<Byte>>, s: nat, e: nat)
      returns (i: nat, junk: seq<seq<Byte>>, j: nat, m: nat)
    requires s <= e <= |file| <= |LogOf(crc, records)| && e % BLOCK_SIZE == 0
    requires file[..s] == LogOf(crc, records)[..s] && file[e..] == LogOf(crc, records)[e..|file|]
    ensures i <= j <= m <= |records|
    ensures RecordsFrom(crc, file, START, NOTHING) == records[..i] + junk + records[j..m]
    ensures i < |records| ==> |LogOf(crc, records[..i + 1])| > s
    ensures j > 0 ==> RecordPos(crc, records, j - 1) < e
    ensures m < |records| ==> |LogOf(crc, records[..m + 1])| > |file|
  {
    hide LogOf, Frames, Resumes, SameIn, RecordsFrom;
    var log := LogOf(crc, records);
    i := LastBefore(crc, records, s);
    FrontSame(file, log, s);
    var p := FrontFound(crc, file, records, s, i);
    HeaderStays(p.pos, p.pos - p.block, e);
    var rest;
    j, rest := AtBoundary(crc, records, e);
    junk, m := Resync(crc, file, records, e, p, NOTHING, j, rest);
    InOrder(crc, records, i, j, s, e);
  }

  lemma FrontSame(file: seq<Byte>, log: seq<Byte>, s: nat)
    requires s <= |file| && s <= |log| && file[..s] == log[..s]
    ensures SameIn(file, log, 0, s)
  {
    assert forall k :: 0 <= k < s ==> file[k] == file[..s][k] == log[..s][k] == log[k];
  }

  lemma InOrder(crc: Checksum, records: seq<seq<Byte>>, i: nat, j: nat, s: nat, e: nat)
    requires i <= |records| && j <= |records| && |LogOf(crc, records[..i])| <= s <= e <= RecordPos(crc, records, j)
    requires e % BLOCK_SIZE == 0
    ensures i <= j
  {
    hide LogOf, Frames, Zeros;
    if j < i {
      LogGrows(crc, records, j);
      LogGrows(crc, records[..i], j + 1);
      assert records[..i][..j + 1] == records[..j + 1];
      PaddingFirst(crc, |LogOf(crc, records[..j])| % BLOCK_SIZE, records[j], true);
      FirstAndOthers(crc, Start(|LogOf(crc, records[..j])| % BLOCK_SIZE), records[j], true);
    }
  }
}
