// Group commit: the queue of writers, of which the first writes for several
// (DBImpl::Write and BuildBatchGroup, db/db_impl.cc).
module GroupCommit {
  import opened Keys
  import opened Store
  import opened Machine
  import opened WriteBatches
  import opened Options

  // One call of Write; no operations are given to force a memtable switch.
  datatype Writer = Writer(ops: Option<seq<Op>>, sync: bool) {
    function Ops(): seq<Op> {
      if ops.Some? then ops.value else []
    }
  }

  function Joined(ws: seq<Writer>): seq<Op> {
    if ws == [] then [] else Joined(ws[..|ws| - 1]) + ws[|ws| - 1].Ops()
  }

  lemma {:induction false} JoinedAppend(a: seq<Writer>, b: seq<Writer>)
    ensures Joined(a + b) == Joined(a) + Joined(b)
  {
    if b == [] {
      assert a + b == a;
    } else {
      assert (a + b)[..|a + b| - 1] == a + b[..|b| - 1];
      JoinedAppend(a, b[..|b| - 1]);
    }
  }

  // ---- Building a group ----

  const LARGE_GROUP := 0x10_0000
  const SMALL_GROUP := 0x2_0000

  // A small first batch does not wait for a large group.
  function MaxSize(first: seq<Op>): nat {
    if ByteSize(first) <= SMALL_GROUP then ByteSize(first) + SMALL_GROUP else LARGE_GROUP
  }

  function TotalSize(ws: seq<Writer>): nat {
    if ws == [] then 0
    else TotalSize(ws[..|ws| - 1]) + if ws[|ws| - 1].ops.Some? then ByteSize(ws[|ws| - 1].Ops()) else 0
  }

  // Writer k joins when it asks for no more syncing than the first writer, and
  // its batch still fits.
  predicate Joins(queue: seq<Writer>, k: nat)
    requires 0 < k < |queue|
  {
    && (queue[k].sync ==> queue[0].sync)
    && (queue[k].ops.Some? ==> TotalSize(queue[..k + 1]) <= MaxSize(queue[0].Ops()))
  }

  // The first n writers are as many as can go together.
  ghost predicate IsGroup(queue: seq<Writer>, n: nat) {
    && 0 < n <= |queue|
    && (forall k :: 0 < k < n ==> Joins(queue, k))
    && (n < |queue| ==> !Joins(queue, n))
  }

  // A waiting call with its batch in memory.
  datatype Waiter = Waiter(batch: WriteBatch?, sync: bool) {
    ghost predicate Valid()
      reads batch
    {
      batch != null ==> batch.Valid()
    }

    ghost function Call(): Writer
      reads batch
    {
      Writer(if batch == null then None else Some(batch.ops), sync)
    }
  }

  ghost function Batches(queue: seq<Waiter>): set<object> {
    set i | 0 <= i < |queue| && queue[i].batch != null :: queue[i].batch
  }

  ghost function Calls(queue: seq<Waiter>): (r: seq<Writer>)
    reads Batches(queue)
    ensures |r| == |queue| && forall i :: 0 <= i < |queue| ==> r[i] == queue[i].Call()
  {
    if queue == [] then [] else Calls(queue[..|queue| - 1]) + [queue[|queue| - 1].Call()]
  }

  lemma RepSize(b: WriteBatch)
    requires b.Valid()
    ensures |b.rep| == ByteSize(b.ops)
  {
  }

  lemma FirstAlone(ws: seq<Writer>)
    requires ws != [] && ws[0].ops.Some?
    ensures Joined(ws[..1]) == ws[0].Ops() && TotalSize(ws[..1]) == ByteSize(ws[0].Ops())
  {
    hide ByteSize;
    assert ws[..1][..0] == [];
  }

  lemma OneMore(ws: seq<Writer>, n: nat)
    requires n < |ws|
    ensures Joined(ws[..n + 1]) == Joined(ws[..n]) + ws[n].Ops()
    ensures TotalSize(ws[..n + 1]) == TotalSize(ws[..n]) + if ws[n].ops.Some? then ByteSize(ws[n].Ops()) else 0
  {
    hide ByteSize;
    assert ws[..n + 1][..n] == ws[..n];
  }

  // A batch has more bytes than operations.
  lemma {:induction false} MoreBytes(ops: seq<Op>)
    ensures |ops| <= |Encode(ops)|
  {
    if ops != [] {
      MoreBytes(ops[..|ops| - 1]);
    }
  }

  lemma {:induction false} MoreBytesInAll(ws: seq<Writer>)
    ensures |Joined(ws)| <= TotalSize(ws)
  {
    hide Encode;
    if ws != [] {
      MoreBytesInAll(ws[..|ws| - 1]);
      MoreBytes(ws[|ws| - 1].Ops());
    }
  }

  // Append to the group, which leaves the caller's batch for the temporary one.
  method AppendTo(result: WriteBatch, first: WriteBatch, tmp: WriteBatch, batch: WriteBatch) returns (r: WriteBatch)
    requires result.Valid() && tmp.Valid() && batch.Valid() && first != tmp && batch != tmp
    requires result == first ==> tmp.ops == []
    requires result == first || result == tmp
    requires |result.ops| + |batch.ops| < 0x1_0000_0000
    modifies tmp
    ensures r == tmp && tmp.Valid() && tmp.ops == old(result.ops) + batch.ops
  {
    hide WriteBatch.Valid;
    r := tmp;
    if result == first {
      tmp.Append(first);
    }
    tmp.Append(batch);
  }

  // The caller's batch is the group if nobody joins with one; otherwise the
  // temporary batch is, and no caller's batch changes.
  method BuildBatchGroup(queue: seq<Waiter>, tmp: WriteBatch) returns (n: nat, result: WriteBatch)
    requires queue != [] && queue[0].batch != null
    requires forall i :: 0 <= i < |queue| ==> queue[i].Valid() && queue[i].batch != tmp
    requires tmp.Valid() && tmp.ops == []
    modifies tmp
    ensures IsGroup(Calls(queue), n)
    ensures result.Valid() && result.ops == Joined(Calls(queue)[..n])
    ensures result == tmp || result == queue[0].batch
  {
    hide Joined, TotalSize, WriteBatch.Valid, Calls, Encode;
    var first := queue[0].batch;
    ghost var calls := Calls(queue);
    assert calls[0] == queue[0].Call();
    result := first;
    var size := |first.rep|;
    RepSize(first);
    var maxSize := LARGE_GROUP;
    if size <= SMALL_GROUP {
      maxSize := size + SMALL_GROUP;
    }
    FirstAlone(calls);
    n := 1;
    while n < |queue|
      invariant 0 < n <= |queue|
      invariant forall i :: 0 <= i < |queue| ==> queue[i].Valid()
      invariant calls == Calls(queue)
      invariant result == first || result == tmp
      invariant result.Valid() && result.ops == Joined(calls[..n])
      invariant size == TotalSize(calls[..n])
      invariant result == first ==> tmp.Valid() && tmp.ops == []
      invariant forall k :: 0 < k < n ==> Joins(calls, k)
    {
      var w := queue[n];
      assert calls[n] == w.Call();
      OneMore(calls, n);
      if w.sync && !queue[0].sync {
        break;
      }
      if w.batch != null {
        RepSize(w.batch);
        size := size + |w.batch.rep|;
        if size > maxSize {
          break;
        }
        MoreBytesInAll(calls[..n + 1]);
        result := AppendTo(result, first, tmp, w.batch);
      }
      n := n + 1;
    }
  }

  // What a leader's group takes is bounded, however long the queue is.
  lemma GroupSize(queue: seq<Writer>, n: nat)
    requires queue != [] && queue[0].ops.Some? && IsGroup(queue, n)
    ensures ByteSize(Joined(queue[..n])) <= ByteSize(queue[0].Ops()) ||
            ByteSize(Joined(queue[..n])) <= MaxSize(queue[0].Ops())
  {
    GroupSizeUpTo(queue, n);
  }

  lemma {:induction false} GroupSizeUpTo(queue: seq<Writer>, n: nat)
    requires queue != [] && queue[0].ops.Some? && 0 < n <= |queue|
    requires forall k :: 0 < k < n ==> Joins(queue, k)
    ensures ByteSize(Joined(queue[..n])) <= TotalSize(queue[..n])
    ensures TotalSize(queue[..n]) <= ByteSize(queue[0].Ops()) || TotalSize(queue[..n]) <= MaxSize(queue[0].Ops())
  {
    hide Joined, TotalSize, Encode, MaxSize;
    FirstAlone(queue);
    if n > 1 {
      GroupSizeUpTo(queue, n - 1);
      OneMore(queue, n - 1);
      EncodeJoined(Joined(queue[..n - 1]), queue[n - 1].Ops());
      assert Joins(queue, n - 1);
      NoOps(queue[n - 1]);
    }
  }

  lemma NoOps(w: Writer)
    ensures w.ops.None? ==> Encode(w.Ops()) == []
  {
  }

  // ---- The protocol ----

  // What the writer at the head of the queue is doing.
  datatype Phase =
    | Waiting
    | Grouped(n: nat, batch: Batch)              // BuildBatchGroup done, lock released
    | Recorded(n: nat, batch: Batch)               // record appended
    | Applying(n: nat, batch: Batch, k: nat)     // k operations in the memtable
  {
    function Size(): nat { if Waiting? then 0 else n }
    function Ops(): seq<Op> { if Waiting? then [] else batch.ops }
    function Applied(): nat { if Applying? then k else 0 }
    predicate InLog() { Recorded? || Applying? }
  }

  datatype State = State(
    writers: seq<Writer>,    // every call, in the order in which it queued
    head: nat,               // calls before it have left the queue
    done: set<nat>,          // finished by a leader, not yet awake
    returned: set<nat>,
    phase: Phase,
    log: seq<Batch>,
    synced: nat,             // log records known to be on disk
    mem: seq<Entry>,         // in the order of insertion
    lastSequence: nat
  )

  datatype Action =
    | Queue(w: Writer)
    | Group(n: nat)
    | Append
    | Sync
    | Skip
    | ApplyOne
    | Publish
    | ForceOnly
    | Wake(i: nat)

  ghost predicate Init(s: State) {
    s == State([], 0, {}, {}, Waiting, [], 0, [], 0)
  }

  function Between(lo: nat, hi: nat): (r: set<nat>)
    ensures forall i :: i in r <==> lo <= i < hi
  {
    if hi <= lo then {} else Between(lo, hi - 1) + {hi - 1}
  }

  ghost predicate Step(s: State, s': State, a: Action) {
    match a
    case Queue(w) => s' == s.(writers := s.writers + [w])
    case Group(n) =>
      && s.phase.Waiting? && s.head < |s.writers| && s.writers[s.head].ops.Some?
      && IsGroup(s.writers[s.head..], n)
      && s' == s.(phase := Grouped(n, Batch(s.lastSequence + 1, Joined(s.writers[s.head..s.head + n]))))
    case Append =>
      && s.phase.Grouped?
      && s' == s.(phase := Recorded(s.phase.n, s.phase.batch), log := s.log + [s.phase.batch])
    case Sync =>
      && s.phase.Recorded? && s.head < |s.writers| && s.writers[s.head].sync
      && s' == s.(phase := Applying(s.phase.n, s.phase.batch, 0), synced := |s.log|)
    case Skip =>
      && s.phase.Recorded? && s.head < |s.writers| && !s.writers[s.head].sync
      && s' == s.(phase := Applying(s.phase.n, s.phase.batch, 0))
    case ApplyOne =>
      && s.phase.Applying? && s.phase.k < |s.phase.batch.ops|
      && s' == s.(phase := s.phase.(k := s.phase.k + 1),
                  mem := s.mem + [EntryOf(s.phase.batch.ops[s.phase.k], s.phase.batch.first + s.phase.k)])
    case Publish =>
      && s.phase.Applying? && s.phase.k == |s.phase.batch.ops|
      && s' == s.(phase := Waiting, lastSequence := s.lastSequence + |s.phase.batch.ops|, head := s.head + s.phase.n,
                  returned := s.returned + {s.head}, done := s.done + Between(s.head + 1, s.head + s.phase.n))
    case ForceOnly =>  // no operations: only room was made
      && s.phase.Waiting? && s.head < |s.writers| && s.writers[s.head].ops.None?
      && s' == s.(head := s.head + 1, returned := s.returned + {s.head})
    case Wake(i) => i in s.done && s' == s.(done := s.done - {i}, returned := s.returned + {i})
  }

  function EntryOf(op: Op, sequence: nat): Entry {
    Entry(IKey(op.user, sequence, op.kind), op.value)
  }

  // ---- What every step keeps ----

  // Operations of writers that have left the queue.
  function Past(s: State): seq<Op>
    requires s.head <= |s.writers|
  {
    Joined(s.writers[..s.head])
  }

  ghost predicate QueueSound(s: State) {
    && s.head + s.phase.Size() <= |s.writers|
    && (!s.phase.Waiting? ==>
          && 0 < s.phase.n
          && s.phase.batch == Batch(s.lastSequence + 1, Joined(s.writers[s.head..s.head + s.phase.n]))
          && (forall i :: s.head <= i < s.head + s.phase.n && s.writers[i].sync ==> s.writers[s.head].sync))
    && s.done + s.returned == Between(0, s.head)
    && s.done !! s.returned
  }

  // Every operation that has left the queue is in the memtable once, in the
  // order of the queue, and numbered by its place.
  ghost predicate MemSound(s: State)
    requires s.head <= |s.writers|
  {
    var done := Past(s);
    && s.lastSequence == |done|
    && s.phase.Applied() <= |s.phase.Ops()|
    && |s.mem| == |done| + s.phase.Applied()
    && (forall i :: 0 <= i < |done| ==> s.mem[i] == EntryOf(done[i], i + 1))
    && (forall k :: 0 <= k < s.phase.Applied() ==> s.mem[|done| + k] == EntryOf(s.phase.Ops()[k], |done| + k + 1))
  }

  function LogOps(log: seq<Batch>): seq<Op> {
    if log == [] then [] else LogOps(log[..|log| - 1]) + log[|log| - 1].ops
  }

  ghost predicate LogSound(s: State)
    requires s.head <= |s.writers|
  {
    && Consecutive(s.log)
    && NextSequence(s.log) == |LogOps(s.log)| + 1
    && LogOps(s.log) == Past(s) + (if s.phase.InLog() then s.phase.Ops() else [])
  }

  // Writer i's operations end at this place.
  function EndOf(s: State, i: nat): nat
    requires i < |s.writers|
  {
    |Joined(s.writers[..i + 1])|
  }

  // What a sync writer wrote is on disk by the time it leaves the queue.
  ghost predicate SyncSound(s: State)
    requires s.head <= |s.writers|
  {
    && s.synced <= |s.log|
    && (forall i :: 0 <= i < s.head && s.writers[i].sync && s.writers[i].Ops() != [] ==>
          EndOf(s, i) <= |LogOps(s.log[..s.synced])|)
    && (s.phase.Applying? && s.head < |s.writers| && s.writers[s.head].sync ==> s.synced == |s.log|)
  }

  ghost predicate Inv(s: State) {
    QueueSound(s) && MemSound(s) && LogSound(s) && SyncSound(s)
  }

  lemma InitSound(s: State)
    requires Init(s)
    ensures Inv(s)
  {
  }

  lemma PastExtends(s: State, s': State)
    requires s.head <= s'.head <= |s.writers| && s.writers <= s'.writers
    ensures Past(s') == Past(s) + Joined(s.writers[s.head..s'.head])
  {
    assert s'.writers[..s'.head] == s.writers[..s.head] + s.writers[s.head..s'.head];
    JoinedAppend(s.writers[..s.head], s.writers[s.head..s'.head]);
  }

  // A group asks for no more syncing than its leader.
  lemma GroupFollowsLeader(queue: seq<Writer>, n: nat)
    requires IsGroup(queue, n)
    ensures forall i :: 0 <= i < n && queue[i].sync ==> queue[0].sync
  {
    forall i | 0 <= i < n && queue[i].sync
      ensures queue[0].sync
    {
      if i > 0 { assert Joins(queue, i); }
    }
  }

  lemma LongerQueue(s: State, w: Writer)
    requires QueueSound(s)
    ensures QueueSound(s.(writers := s.writers + [w]))
  {
    hide Joined, Between;
    if !s.phase.Waiting? {
      assert (s.writers + [w])[s.head..s.head + s.phase.n] == s.writers[s.head..s.head + s.phase.n];
    }
  }

  lemma QueueKept(s: State, s': State, a: Action)
    requires QueueSound(s) && Step(s, s', a)
    requires s.phase.Applied() <= |s.phase.Ops()|
    ensures QueueSound(s')
  {
    hide Joined, IsGroup;
    match a
    case Queue(w) => LongerQueue(s, w);
    case Group(n) =>
      IsGroupFits(s.writers[s.head..], n);
      GroupFollowsLeader(s.writers[s.head..], n);
      assert forall i :: s.head <= i < s.head + n ==> s.writers[i] == s.writers[s.head..][i - s.head];
    case Publish =>
      assert Between(0, s'.head) == Between(0, s.head) + {s.head} + Between(s.head + 1, s'.head);
    case ForceOnly =>
      assert Between(0, s'.head) == Between(0, s.head) + {s.head};
    case _ =>
  }

  lemma IsGroupFits(queue: seq<Writer>, n: nat)
    requires IsGroup(queue, n)
    ensures 0 < n <= |queue|
  {
  }

  lemma MemKept(s: State, s': State, a: Action)
    requires QueueSound(s) && MemSound(s) && Step(s, s', a) && s'.head <= |s'.writers|
    ensures MemSound(s')
  {
    hide Joined, IsGroup, Between, Past, EntryOf;
    match a
    case Queue(w) => SamePast(s, s');
    case Publish => PastExtends(s, s');
    case ForceOnly => NothingForced(s, s');
    case _ => SamePast(s, s');
  }

  lemma SamePast(s: State, s': State)
    requires s.head == s'.head <= |s.writers| && s.writers <= s'.writers
    ensures Past(s') == Past(s)
  {
    assert s'.writers[..s.head] == s.writers[..s.head];
  }

  lemma NothingForced(s: State, s': State)
    requires s.head < |s.writers| && s.writers[s.head].ops.None?
    requires s'.writers == s.writers && s'.head == s.head + 1
    ensures Past(s') == Past(s)
  {
    assert s.writers[..s.head + 1][..s.head] == s.writers[..s.head];
  }

  lemma LogGrows(log: seq<Batch>, b: Batch)
    requires Consecutive(log) && b.first == NextSequence(log)
    ensures Consecutive(log + [b]) && NextSequence(log + [b]) == NextSequence(log) + |b.ops|
    ensures LogOps(log + [b]) == LogOps(log) + b.ops
  {
    assert (log + [b])[..|log|] == log;
    assert forall i :: 0 <= i < |log| ==> (log + [b])[i] == log[i];
  }

  lemma LogKept(s: State, s': State, a: Action)
    requires QueueSound(s) && MemSound(s) && LogSound(s) && Step(s, s', a) && s'.head <= |s'.writers|
    ensures LogSound(s')
  {
    hide Joined, IsGroup, Between, EntryOf, Consecutive, NextSequence, LogOps;
    match a
    case Queue(w) => SamePast(s, s');
    case Append =>
      LogGrows(s.log, s.phase.batch);
    case Publish => PastExtends(s, s');
    case ForceOnly => NothingForced(s, s');
    case _ =>
  }

  lemma {:induction false} LogOpsGrow(log: seq<Batch>, n: nat)
    requires n <= |log|
    ensures |LogOps(log[..n])| <= |LogOps(log)|
  {
    if n < |log| {
      assert log[..|log| - 1][..n] == log[..n];
      LogOpsGrow(log[..|log| - 1], n);
    } else {
      assert log[..n] == log;
    }
  }

  lemma EndOfGrows(s: State, i: nat, j: nat)
    requires i < j <= |s.writers|
    ensures EndOf(s, i) <= |Joined(s.writers[..j])|
  {
    assert s.writers[..j] == s.writers[..i + 1] + s.writers[i + 1..j];
    JoinedAppend(s.writers[..i + 1], s.writers[i + 1..j]);
  }

  lemma SyncKept(s: State, s': State, a: Action)
    requires Inv(s) && Step(s, s', a) && s'.head <= |s'.writers|
    ensures SyncSound(s')
  {
    hide Joined, IsGroup, Between, Consecutive, NextSequence, LogOps, EntryOf;
    forall i | 0 <= i < s'.head && s'.writers[i].sync && s'.writers[i].Ops() != []
      ensures EndOf(s', i) <= |LogOps(s'.log[..s'.synced])|
    {
      assert s'.writers[..i + 1] == s.writers[..i + 1];
      if i >= s.head && a.Publish? {
        PublishedSynced(s, s', i);
      } else if a.Sync? {
        LogOpsGrow(s.log, s.synced);
        assert s.log[..|s.log|] == s.log;
      } else if a.Append? {
        assert s'.log[..s.synced] == s.log[..s.synced];
      }
    }
  }

  lemma PublishedSynced(s: State, s': State, i: nat)
    requires Inv(s) && Step(s, s', Publish)
    requires s.head <= i < s'.head && s'.writers[i].sync
    ensures EndOf(s', i) <= |LogOps(s'.log[..s'.synced])|
  {
    hide Consecutive, NextSequence, LogOps, Joined;
    EndOfGrows(s, i, s'.head);
    PastExtends(s, s');
    assert s.log[..|s.log|] == s.log;
  }

  lemma StepKeepsInv(s: State, s': State, a: Action)
    requires Inv(s) && Step(s, s', a)
    ensures Inv(s')
  {
    hide Step, QueueSound, LogSound, SyncSound;
    AppliedFits(s);
    QueueKept(s, s', a);
    HeadFits(s');
    MemKept(s, s', a);
    LogKept(s, s', a);
    SyncKept(s, s', a);
  }

  lemma AppliedFits(s: State)
    requires Inv(s)
    ensures s.phase.Applied() <= |s.phase.Ops()| && s.head <= |s.writers|
  {
  }

  lemma HeadFits(s: State)
    requires QueueSound(s)
    ensures s.head <= |s.writers|
  {
  }

  // ---- Every run ----

  ghost predicate Run(states: seq<State>, actions: seq<Action>) {
    && |states| == |actions| + 1
    && Init(states[0])
    && forall i :: 0 <= i < |actions| ==> Step(states[i], states[i + 1], actions[i])
  }

  lemma {:induction false} RunKeepsInv(states: seq<State>, actions: seq<Action>, i: nat)
    requires Run(states, actions) && i < |states|
    ensures Inv(states[i])
  {
    hide Inv, Init, Step;
    if i == 0 {
      InitSound(states[0]);
    } else {
      RunKeepsInv(states, actions, i - 1);
      StepKeepsInv(states[i - 1], states[i], actions[i - 1]);
    }
  }

  // Each operation of a writer that has left the queue was applied exactly
  // once, at its place in the order of the queue, under a number of its own.
  lemma AppliedOnceInOrder(states: seq<State>, actions: seq<Action>, n: nat, i: nat, k: nat)
    requires Run(states, actions) && n < |states|
    requires i < |states[n].writers| && k < |states[n].writers[i].Ops()|
    ensures var s := states[n];
            var place := |Joined(s.writers[..i])| + k;
            && (i < s.head ==> place < |s.mem| && s.mem[place] == EntryOf(s.writers[i].Ops()[k], place + 1))
            && (forall m :: 0 <= m < |s.mem| ==> s.mem[m].key.sequence == m + 1)
  {
    RunKeepsInv(states, actions, n);
    NumbersAreOwn(states[n]);
    if i < states[n].head {
      PlaceInPast(states[n], i, k);
    }
  }

  lemma NumbersAreOwn(s: State)
    requires QueueSound(s) && MemSound(s)
    ensures forall m :: 0 <= m < |s.mem| ==> s.mem[m].key.sequence == m + 1
  {
    hide Joined;
    forall m | 0 <= m < |s.mem|
      ensures s.mem[m].key.sequence == m + 1
    {
      if m >= |Past(s)| {
        var k := m - |Past(s)|;
        assert s.mem[|Past(s)| + k] == EntryOf(s.phase.Ops()[k], |Past(s)| + k + 1);
      }
    }
  }

  lemma PlaceInPast(s: State, i: nat, k: nat)
    requires s.head <= |s.writers| && i < s.head && k < |s.writers[i].Ops()|
    ensures var place := |Joined(s.writers[..i])| + k;
            place < |Past(s)| && Past(s)[place] == s.writers[i].Ops()[k]
  {
    assert s.writers[..i + 1][..i] == s.writers[..i];
    assert s.writers[..s.head] == s.writers[..i + 1] + s.writers[i + 1..s.head];
    JoinedAppend(s.writers[..i + 1], s.writers[i + 1..s.head]);
  }

  lemma StepGrows(s: State, s': State, a: Action)
    requires Step(s, s', a)
    ensures s.writers <= s'.writers && s.mem <= s'.mem && s.head <= s'.head
  {
    hide IsGroup, Joined;
  }

  lemma {:induction false} RunGrows(states: seq<State>, actions: seq<Action>, i: nat, j: nat)
    requires Run(states, actions) && i <= j < |states|
    ensures states[i].writers <= states[j].writers && states[i].mem <= states[j].mem && states[i].head <= states[j].head
  {
    hide Init, Step;
    if i < j {
      RunGrows(states, actions, i, j - 1);
      StepGrows(states[j - 1], states[j], actions[j - 1]);
    }
  }

  // A snapshot taken in state i, used in the same or any later state j, sees
  // every batch wholly or not at all: all entries of the writers that had left
  // the queue at i, and none of the others.
  lemma SnapshotSeesWholeBatches(states: seq<State>, actions: seq<Action>, i: nat, j: nat, w: nat, k: nat)
    requires Run(states, actions) && i <= j < |states|
    requires w < |states[j].writers| && k < |states[j].writers[w].Ops()|
    ensures var snapshot := states[i].lastSequence;
            var place := |Joined(states[j].writers[..w])| + k;
            if w < states[i].head then
              && place < |states[j].mem| && states[j].mem[place] == EntryOf(states[j].writers[w].Ops()[k], place + 1)
              && states[j].mem[place].key.sequence <= snapshot
            else
              place < |states[j].mem| ==> states[j].mem[place].key.sequence > snapshot
  {
    hide Init, Step, LogSound, SyncSound, MemSound, QueueSound;
    RunGrows(states, actions, i, j);
    RunKeepsInv(states, actions, i);
    RunKeepsInv(states, actions, j);
    HeadFits(states[i]);
    HeadFits(states[j]);
    NumbersAreOwn(states[j]);
    WholeBatch(states[i], states[j], w, k);
  }

  lemma WholeBatch(s: State, t: State, w: nat, k: nat)
    requires s.head <= |s.writers| && t.head <= |t.writers| && MemSound(s) && MemSound(t)
    requires s.writers <= t.writers && s.mem <= t.mem && s.head <= t.head
    requires w < |t.writers| && k < |t.writers[w].Ops()|
    ensures var place := |Joined(t.writers[..w])| + k;
            if w < s.head then
              place < s.lastSequence && place < |t.mem| && t.mem[place] == EntryOf(t.writers[w].Ops()[k], place + 1)
            else place >= s.lastSequence
  {
    hide Joined, EntryOf;
    SamePast(s, s.(writers := t.writers));
    if w < s.head {
      PlaceInPast(t, w, k);
      PlaceInPast(s.(writers := t.writers), w, k);
    } else {
      PastExtends(s.(writers := t.writers), t.(head := w));
    }
  }

  // Nobody returns from a sync write before its operations are on disk.
  lemma SyncedBeforeReturn(states: seq<State>, actions: seq<Action>, n: nat, i: nat)
    requires Run(states, actions) && n < |states|
    requires i in states[n].done + states[n].returned
    ensures i < |states[n].writers|
    ensures var s := states[n];
            s.writers[i].sync && s.writers[i].Ops() != [] ==>
              s.synced <= |s.log| && EndOf(s, i) <= |LogOps(s.log[..s.synced])|
  {
    RunKeepsInv(states, actions, n);
    hide Joined, LogOps;
  }

  // The entry stands at the place its sequence number says.
  ghost predicate InPlace(ops: seq<Op>, e: Entry) {
    1 <= e.key.sequence <= |ops| && e == EntryOf(ops[e.key.sequence - 1], e.key.sequence)
  }

  // Between groups the memtable holds what the log holds.
  lemma LogHoldsMem(states: seq<State>, actions: seq<Action>, n: nat)
    requires Run(states, actions) && n < |states| && states[n].phase.Waiting?
    ensures Consecutive(states[n].log) && NextSequence(states[n].log) == states[n].lastSequence + 1
    ensures forall e :: e in states[n].mem <==> e in Written(states[n].log)
  {
    RunKeepsInv(states, actions, n);
    var s := states[n];
    hide Joined, LogOps, Consecutive, NextSequence, Written;
    WrittenByPlace(s.log);
    NumbersAreOwn(s);
    forall e
      ensures e in s.mem <==> InPlace(Past(s), e)
    {
      if e in s.mem {
        var m :| 0 <= m < |s.mem| && s.mem[m] == e;
        assert s.mem[m] == EntryOf(Past(s)[m], m + 1);
      }
      if InPlace(Past(s), e) {
        assert s.mem[e.key.sequence - 1] == e;
      }
    }
  }

  lemma {:induction false} WrittenByPlace(log: seq<Batch>)
    requires Consecutive(log)
    ensures NextSequence(log) == |LogOps(log)| + 1
    ensures forall e :: e in Written(log) <==> InPlace(LogOps(log), e)
  {
    hide Written, InPlace;
    if log == [] {
      NothingWritten();
    } else {
      var rest, b := log[..|log| - 1], log[|log| - 1];
      assert log == rest + [b];
      WrittenAppend(rest, b);
      WrittenByPlace(rest);
      forall e
        ensures e in Written(log) <==> InPlace(LogOps(log), e)
      {
        ByPlace(LogOps(rest), b, e);
      }
    }
  }

  lemma NothingWritten()
    ensures Written([]) == {}
    ensures forall e :: !InPlace([], e)
  {
  }

  lemma ByPlace(ops: seq<Op>, b: Batch, e: Entry)
    requires b.first == |ops| + 1
    ensures InPlace(ops + b.ops, e) <==> InPlace(ops, e) || e in b.Entries()
  {
    if e in b.Entries() {
      EntryOfBatch(b, e);
    }
    if InPlace(ops + b.ops, e) && e.key.sequence > |ops| {
      assert b.ops[e.key.sequence - b.first] == (ops + b.ops)[e.key.sequence - 1];
    }
  }
}
