// The skip list: one writer that links a node level by level, bottom up, and
// readers that follow the links at the same time (db/skiplist.h).
module SkipList {
  import opened Keys
  import opened Options

  const MAX_HEIGHT := 12
  const HEAD: nat := 0

  datatype Node = Node(key: IKey, height: nat)

  // Nodes by number, their links by node and level, and max_height_.
  datatype List = List(nodes: seq<Node>, next: map<(nat, nat), Option<nat>>, maxHeight: nat)

  // What a search looks for: the first node with at least this key, the last
  // node with a smaller key, or the last node.
  datatype Goal = AtLeast(key: IKey) | LessThan(key: IKey) | Last

  function At(t: seq<nat>, p: nat): Option<nat> {
    if p < |t| then Some(t[p]) else None
  }

  ghost predicate Linked(d: List, l: nat, t: seq<nat>, p: nat)
    requires p < |t|
  {
    (t[p], l) in d.next && d.next[(t[p], l)] == At(t, p + 1)
  }

  // t is the chain at level l: the head, and then nodes with ascending keys.
  ghost predicate Level(d: List, l: nat, t: seq<nat>) {
    && t != [] && t[0] == HEAD
    && (forall p :: 0 <= p < |t| ==> Linked(d, l, t, p))
    && (forall p :: 1 <= p < |t| ==> 0 < t[p] < |d.nodes|)
    && (forall p, q :: 1 <= p < q < |t| ==> Before(d.nodes[t[p]].key, d.nodes[t[q]].key))
  }

  ghost predicate Within(t: seq<nat>, u: seq<nat>) {
    forall x :: x in t ==> x in u
  }

  // Every level is a sorted sublist of the level below.
  ghost predicate Shape(d: List, levels: seq<seq<nat>>) {
    && |levels| == MAX_HEIGHT && 1 <= d.maxHeight <= MAX_HEIGHT && d.nodes != []
    && (forall l :: 0 <= l < MAX_HEIGHT ==> Level(d, l, levels[l]))
    && (forall l, m :: 0 <= l < m < MAX_HEIGHT ==> Within(levels[m], levels[l]))
    && (forall l :: d.maxHeight <= l < MAX_HEIGHT ==> levels[l] == [HEAD])
  }

  // The search goes past this node.
  predicate Passes(d: List, x: nat, goal: Goal)
    requires x < |d.nodes|
  {
    goal.Last? || Before(d.nodes[x].key, goal.key)
  }

  // The search goes past the first p nodes of the chain, and no others.
  ghost predicate Splits(d: List, t: seq<nat>, goal: Goal, p: nat)
    requires forall q :: 1 <= q < |t| ==> 0 < t[q] < |d.nodes|
  {
    && 0 < p <= |t|
    && (forall q :: 1 <= q < p ==> Passes(d, t[q], goal))
    && (forall q :: p <= q < |t| ==> !Passes(d, t[q], goal))
  }

  // The answer to a search of this chain; none in place of the head.
  function Answer(t: seq<nat>, goal: Goal, p: nat): Option<nat>
    requires 0 < p <= |t|
  {
    if goal.AtLeast? then At(t, p) else if p == 1 then None else Some(t[p - 1])
  }

  ghost predicate Answers(d: List, l: nat, t: seq<nat>, goal: Goal, r: Option<nat>)
    requires Level(d, l, t)
  {
    exists p :: Splits(d, t, goal, p) && r == Answer(t, goal, p)
  }

  // x is on the chain, and the search is past it.
  ghost predicate Reached(d: List, t: seq<nat>, goal: Goal, x: nat) {
    x == HEAD || (x in t && x < |d.nodes| && Passes(d, x, goal))
  }

  // A new node with this key goes right behind node x of the chain.
  ghost predicate Precedes(d: List, l: nat, t: seq<nat>, key: IKey, x: nat)
    requires Level(d, l, t)
  {
    exists p :: Splits(d, t, AtLeast(key), p) && t[p - 1] == x
  }

  // Where the search stops, the chain splits.
  lemma SplitsAt(d: List, l: nat, t: seq<nat>, goal: Goal, p: nat)
    requires Level(d, l, t) && 0 < p <= |t|
    requires p > 1 ==> Passes(d, t[p - 1], goal)
    requires p < |t| ==> !Passes(d, t[p], goal)
    ensures Splits(d, t, goal, p)
  {
    forall q | 1 <= q < |t|
      ensures q < p ==> Passes(d, t[q], goal)
      ensures q >= p ==> !Passes(d, t[q], goal)
    {
      if !goal.Last? {
        if q < p - 1 { Chained(d.nodes[t[q]].key, d.nodes[t[p - 1]].key, goal.key); }
        if p < q { Chained(d.nodes[t[p]].key, d.nodes[t[q]].key, goal.key); }
      }
    }
  }

  lemma Chained(a: IKey, b: IKey, c: IKey)
    requires Before(a, b)
    ensures Before(b, c) ==> Before(a, c)
  {
    InternalKeysOrdered();
  }

  // The link of the node at place p - 1 leads to the node at place p.
  lemma LinkIs(d: List, l: nat, t: seq<nat>, p: nat)
    requires Level(d, l, t) && 0 < p <= |t|
    ensures (t[p - 1], l) in d.next && d.next[(t[p - 1], l)] == At(t, p)
    ensures p < |t| ==> 0 < t[p] < |d.nodes| && t[p] in t
  {
    assert Linked(d, l, t, p - 1);
  }

  lemma PlaceOf(t: seq<nat>, x: nat) returns (p: nat)
    requires t != [] && t[0] == HEAD && (x == HEAD || x in t)
    ensures 0 < p <= |t| && t[p - 1] == x
  {
    var q :| 0 <= q < |t| && t[q] == x;
    p := q + 1;
  }

  // The search cannot go on from the node at place p - 1.
  lemma Stops(d: List, l: nat, t: seq<nat>, goal: Goal, p: nat)
    requires Level(d, l, t) && 0 < p <= |t| && Reached(d, t, goal, t[p - 1])
    requires p < |t| ==> 0 < t[p] < |d.nodes| && !Passes(d, t[p], goal)
    ensures Splits(d, t, goal, p)
    ensures Answers(d, l, t, goal, Answer(t, goal, p))
    ensures goal.AtLeast? ==> Precedes(d, l, t, goal.key, t[p - 1])
  {
    SplitsAt(d, l, t, goal, p);
  }

  // On the level below, the search is at the same node.
  lemma Descends(d: List, levels: seq<seq<nat>>, l: nat, goal: Goal, x: nat) returns (p: nat)
    requires Shape(d, levels) && 0 < l < MAX_HEIGHT && Reached(d, levels[l], goal, x)
    ensures Reached(d, levels[l - 1], goal, x)
    ensures 0 < p <= |levels[l - 1]| && levels[l - 1][p - 1] == x
  {
    hide Before, Passes;
    assert Within(levels[l], levels[l - 1]) && Level(d, l - 1, levels[l - 1]);
    p := PlaceOf(levels[l - 1], x);
  }

  lemma EmptyLevels(d: List, levels: seq<seq<nat>>, key: IKey)
    requires Shape(d, levels)
    ensures forall l :: d.maxHeight <= l < MAX_HEIGHT ==> Precedes(d, l, levels[l], key, HEAD)
  {
    forall l | d.maxHeight <= l < MAX_HEIGHT
      ensures Precedes(d, l, levels[l], key, HEAD)
    {
      assert Splits(d, levels[l], AtLeast(key), 1) && levels[l][0] == HEAD;
    }
  }

  lemma LevelsOf(d: List, levels: seq<seq<nat>>)
    requires Shape(d, levels)
    ensures |levels| == MAX_HEIGHT && 1 <= d.maxHeight <= MAX_HEIGHT
    ensures forall l :: 0 <= l < MAX_HEIGHT ==> Level(d, l, levels[l]) && levels[l] != [] && levels[l][0] == HEAD
  {
  }

  // FindGreaterOrEqual, as the writer runs it, alone.
  method FindGreaterOrEqual(d: List, key: IKey, ghost levels: seq<seq<nat>>) returns (r: Option<nat>, prev: seq<nat>)
    requires Shape(d, levels)
    ensures Answers(d, 0, levels[0], AtLeast(key), r)
    ensures |prev| == MAX_HEIGHT && forall l :: 0 <= l < MAX_HEIGHT ==> Precedes(d, l, levels[l], key, prev[l])
  {
    hide Shape, Level, Splits, Precedes, Answers, Before;
    LevelsOf(d, levels);
    EmptyLevels(d, levels, key);
    var x, level := HEAD, d.maxHeight - 1;
    prev := seq(MAX_HEIGHT, _ => HEAD);
    ghost var p := 1;
    while true
      invariant 0 <= level < d.maxHeight
      invariant |prev| == MAX_HEIGHT && forall l :: level < l < MAX_HEIGHT ==> Precedes(d, l, levels[l], key, prev[l])
      invariant Reached(d, levels[level], AtLeast(key), x)
      invariant 0 < p <= |levels[level]| && levels[level][p - 1] == x
      decreases level, |levels[level]| - p
    {
      LinkIs(d, level, levels[level], p);
      var next := d.next[(x, level)];
      if next.Some? && Before(d.nodes[next.value].key, key) {
        x := next.value;
        p := p + 1;
      } else {
        prev := prev[level := x];
        Stops(d, level, levels[level], AtLeast(key), p);
        if level == 0 {
          return next, prev;
        }
        p := Descends(d, levels, level, AtLeast(key), x);
        level := level - 1;
      }
    }
  }

  // ---- One writer and many readers, step by step ----

  // The writer links a node from level 0 up: at each level first the node's own
  // link, then the link to it.
  datatype Writer = Idle | Linking(x: nat, height: nat, prev: seq<nat>, i: nat, own: bool)

  // A reader rests at a node, or at none, or its search has come to a node.
  datatype Reader = Resting(at: Option<nat>) | Searching(goal: Goal, x: nat, level: nat)

  // levels is what a picture of the list would show: the chains of all levels.
  datatype State = State(list: List, levels: seq<seq<nat>>, writer: Writer, readers: seq<Reader>)

  datatype Action =
    | Begin(key: IKey, height: nat, prev: seq<nat>)
    | SetOwn
    | Publish
    | Start(r: nat, goal: Goal)
    | Move(r: nat)
    | NextOf(r: nat)

  ghost predicate Init(s: State) {
    && s.list == List([Node(IKey([], 0, Value), MAX_HEIGHT)], map l | 0 <= l < MAX_HEIGHT :: (HEAD, l) := None, 1)
    && s.levels == seq(MAX_HEIGHT, _ => [HEAD])
    && s.writer.Idle?
    && forall r :: 0 <= r < |s.readers| ==> s.readers[r] == Resting(None)
  }

  ghost predicate Holds(d: List, t: seq<nat>, key: IKey) {
    exists x :: x in t && 0 < x < |d.nodes| && d.nodes[x].key == key
  }

  // The search for the key is over, the height drawn, and the node made.
  ghost predicate BeginStep(s: State, s': State, key: IKey, height: nat, prev: seq<nat>) {
    && s.writer.Idle?
    && |s.levels| == MAX_HEIGHT == |prev| && 1 <= height <= MAX_HEIGHT
    && !Holds(s.list, s.levels[0], key)
    && (forall l :: 0 <= l < height ==>
          Level(s.list, l, s.levels[l]) && Precedes(s.list, l, s.levels[l], key, prev[l]))
    && var x := |s.list.nodes|;
       s' == s.(list := s.list.(nodes := s.list.nodes + [Node(key, height)],
                                maxHeight := if height > s.list.maxHeight then height else s.list.maxHeight),
                writer := Linking(x, height, prev, 0, false))
  }

  ghost predicate SetOwnStep(s: State, s': State) {
    && s.writer.Linking? && !s.writer.own
    && var w := s.writer;
       && w.i < |w.prev| && (w.prev[w.i], w.i) in s.list.next
       && s' == s.(list := s.list.(next := s.list.next[(w.x, w.i) := s.list.next[(w.prev[w.i], w.i)]]),
                   writer := w.(own := true))
  }

  // The chain with x behind the node at place p - 1.
  function WithNode(t: seq<nat>, p: nat, x: nat): seq<nat>
    requires p <= |t|
  {
    t[..p] + [x] + t[p..]
  }

  ghost predicate PublishStep(s: State, s': State) {
    && s.writer.Linking? && s.writer.own
    && var w := s.writer;
       && w.i < |w.prev| && w.i < |s.levels|
       && exists p :: && 0 < p <= |s.levels[w.i]| && s.levels[w.i][p - 1] == w.prev[w.i]
                      && s' == s.(list := s.list.(next := s.list.next[(w.prev[w.i], w.i) := Some(w.x)]),
                                  levels := s.levels[w.i := WithNode(s.levels[w.i], p, w.x)],
                                  writer := if w.i + 1 == w.height then Idle else w.(i := w.i + 1, own := false))
  }

  ghost predicate StartStep(s: State, s': State, r: nat, goal: Goal) {
    && r < |s.readers| && s.readers[r].Resting? && s.list.maxHeight > 0
    && s' == s.(readers := s.readers[r := Searching(goal, HEAD, s.list.maxHeight - 1)])
  }

  // One turn of the loop: read one link, and go on, go down or stop.
  ghost predicate MoveStep(s: State, s': State, r: nat) {
    && r < |s.readers| && s.readers[r].Searching?
    && var Searching(goal, x, level) := s.readers[r];
       && (x, level) in s.list.next
       && var next := s.list.next[(x, level)];
          && (next.Some? ==> next.value < |s.list.nodes|)
          && s' == s.(readers := s.readers[r :=
                     if next.Some? && Passes(s.list, next.value, goal) then Searching(goal, next.value, level)
                     else if level > 0 then Searching(goal, x, level - 1)
                     else if goal.AtLeast? then Resting(next)
                     else Resting(if x == HEAD then None else Some(x))])
  }

  ghost predicate NextStep(s: State, s': State, r: nat) {
    && r < |s.readers| && s.readers[r].Resting? && s.readers[r].at.Some?
    && (s.readers[r].at.value, 0) in s.list.next
    && s' == s.(readers := s.readers[r := Resting(s.list.next[(s.readers[r].at.value, 0)])])
  }

  ghost predicate Step(s: State, s': State, a: Action) {
    match a
    case Begin(key, height, prev) => BeginStep(s, s', key, height, prev)
    case SetOwn => SetOwnStep(s, s')
    case Publish => PublishStep(s, s')
    case Start(r, goal) => StartStep(s, s', r, goal)
    case Move(r) => MoveStep(s, s', r)
    case NextOf(r) => NextStep(s, s', r)
  }

  // ---- What every step keeps ----

  // The new node is on the levels below i, and its place on the others is known.
  ghost predicate WriterSound(s: State)
    requires Shape(s.list, s.levels)
  {
    s.writer.Linking? ==>
      var w := s.writer;
      && 0 < w.x < |s.list.nodes| && w.i < w.height <= s.list.maxHeight && |w.prev| == MAX_HEIGHT
      && (forall l :: 0 <= l < w.i ==> w.x in s.levels[l])
      && (forall l :: w.i <= l < MAX_HEIGHT ==> w.x !in s.levels[l])
      && (forall l :: w.i <= l < w.height ==>
            Precedes(s.list, l, s.levels[l], s.list.nodes[w.x].key, w.prev[l]))
      && (w.i == 0 ==> !Holds(s.list, s.levels[0], s.list.nodes[w.x].key))
      && (w.own ==> (w.x, w.i) in s.list.next && (w.prev[w.i], w.i) in s.list.next &&
                    s.list.next[(w.x, w.i)] == s.list.next[(w.prev[w.i], w.i)])
  }

  ghost predicate ReaderSound(s: State, r: Reader) {
    match r
    case Resting(at) => at.Some? && s.levels != [] ==> at.value != HEAD && at.value in s.levels[0]
    case Searching(goal, x, level) => level < |s.levels| && Reached(s.list, s.levels[level], goal, x)
  }

  ghost predicate Inv(s: State) {
    && Shape(s.list, s.levels)
    && WriterSound(s)
    && forall r :: 0 <= r < |s.readers| ==> ReaderSound(s, s.readers[r])
  }

  lemma InitSound(s: State)
    requires Init(s)
    ensures Inv(s)
  {
    forall l | 0 <= l < MAX_HEIGHT
      ensures Level(s.list, l, s.levels[l])
    {
      assert Linked(s.list, l, s.levels[l], 0);
    }
  }

  // More nodes and other links do not disturb a chain.
  ghost predicate SameChain(d: List, d': List, l: nat, t: seq<nat>) {
    && d.nodes <= d'.nodes
    && forall x :: x in t && (x, l) in d.next ==> (x, l) in d'.next && d'.next[(x, l)] == d.next[(x, l)]
  }

  lemma ChainKept(d: List, d': List, l: nat, t: seq<nat>)
    requires Level(d, l, t) && SameChain(d, d', l, t)
    ensures Level(d', l, t)
    ensures forall key, x :: Precedes(d, l, t, key, x) ==> Precedes(d', l, t, key, x)
  {
    hide Before;
    forall p | 0 <= p < |t|
      ensures Linked(d', l, t, p)
    {
      assert t[p] in t && Linked(d, l, t, p);
    }
    forall key, x | Precedes(d, l, t, key, x)
      ensures Precedes(d', l, t, key, x)
    {
      var p :| Splits(d, t, AtLeast(key), p) && t[p - 1] == x;
      assert Splits(d', t, AtLeast(key), p);
    }
  }

  lemma ReaderKept(s: State, s': State, r: Reader)
    requires |s.levels| == |s'.levels| && s.list.nodes <= s'.list.nodes
    requires forall l :: 0 <= l < |s.levels| ==> Within(s.levels[l], s'.levels[l])
    requires ReaderSound(s, r)
    ensures ReaderSound(s', r)
  {
    hide Before;
  }

  lemma ReadersKept(s: State, s': State)
    requires |s.levels| == |s'.levels| && s.list.nodes <= s'.list.nodes && s'.readers == s.readers
    requires forall l :: 0 <= l < |s.levels| ==> Within(s.levels[l], s'.levels[l])
    requires forall r :: 0 <= r < |s.readers| ==> ReaderSound(s, s.readers[r])
    ensures forall r :: 0 <= r < |s'.readers| ==> ReaderSound(s', s'.readers[r])
  {
    hide ReaderSound, Within;
    forall r | 0 <= r < |s'.readers|
      ensures ReaderSound(s', s'.readers[r])
    {
      ReaderKept(s, s', s.readers[r]);
    }
  }

  lemma ShapeKept(d: List, d': List, levels: seq<seq<nat>>)
    requires Shape(d, levels) && d.maxHeight <= d'.maxHeight <= MAX_HEIGHT && d.nodes <= d'.nodes
    requires forall l :: 0 <= l < MAX_HEIGHT ==> SameChain(d, d', l, levels[l])
    ensures Shape(d', levels)
    ensures forall l, key, x :: 0 <= l < MAX_HEIGHT && Precedes(d, l, levels[l], key, x) ==>
            Precedes(d', l, levels[l], key, x)
  {
    hide Level, SameChain, Precedes, Before;
    forall l | 0 <= l < MAX_HEIGHT
      ensures Level(d', l, levels[l])
      ensures forall key, x :: Precedes(d, l, levels[l], key, x) ==> Precedes(d', l, levels[l], key, x)
    {
      ChainKept(d, d', l, levels[l]);
    }
  }

  lemma OldNodes(d: List, levels: seq<seq<nat>>)
    requires Shape(d, levels)
    ensures forall l, x :: 0 <= l < MAX_HEIGHT && x in levels[l] ==> x < |d.nodes|
  {
    forall l, x | 0 <= l < MAX_HEIGHT && x in levels[l]
      ensures x < |d.nodes|
    {
      var p :| 0 <= p < |levels[l]| && levels[l][p] == x;
      assert Level(d, l, levels[l]);
    }
  }

  lemma BeginKeeps(s: State, s': State, key: IKey, height: nat, prev: seq<nat>)
    requires Inv(s) && BeginStep(s, s', key, height, prev)
    ensures Inv(s')
  {
    hide Shape, WriterSound, Before, ReaderSound, Holds;
    NothingMoves(s, s');
    LevelsOf(s.list, s.levels);
    ShapeKept(s.list, s'.list, s.levels);
    ReadersKept(s, s');
    WriterBegins(s, s', key, height, prev);
  }

  lemma WriterBegins(s: State, s': State, key: IKey, height: nat, prev: seq<nat>)
    requires Shape(s.list, s.levels) && BeginStep(s, s', key, height, prev) && Shape(s'.list, s'.levels)
    ensures WriterSound(s')
  {
    hide Level, Precedes, Before, Holds;
    NothingMoves(s, s');
    ShapeKept(s.list, s'.list, s.levels);
    OldNodes(s.list, s.levels);
    HoldsKept(s.list, s'.list, s.levels[0], key);
  }

  // A new node disturbs nothing.
  lemma NothingMoves(s: State, s': State)
    requires Shape(s.list, s.levels) && s'.levels == s.levels
    requires s.list.nodes <= s'.list.nodes && s'.list.next == s.list.next
    ensures forall l :: 0 <= l < MAX_HEIGHT ==> SameChain(s.list, s'.list, l, s.levels[l])
    ensures forall l :: 0 <= l < |s.levels| ==> Within(s.levels[l], s'.levels[l])
  {
  }

  lemma HoldsKept(d: List, d': List, t: seq<nat>, key: IKey)
    requires d.nodes <= d'.nodes && !Holds(d, t, key)
    requires forall x :: x in t ==> x < |d.nodes|
    ensures !Holds(d', t, key)
  {
  }

  lemma SetOwnKeeps(s: State, s': State)
    requires Inv(s) && SetOwnStep(s, s')
    ensures Inv(s')
  {
    hide Level, Precedes, Before, ReaderSound, Holds;
    var w := s.writer;
    OwnLinkAside(s, s');
    ShapeKept(s.list, s'.list, s.levels);
    ReadersKept(s, s');
    NotItself(s);
    OldNodes(s.list, s.levels);
    if w.i == 0 {
      HoldsKept(s.list, s'.list, s.levels[0], s.list.nodes[w.x].key);
    }
  }

  // The link of x at level i is on no chain yet.
  lemma OwnLinkAside(s: State, s': State)
    requires Shape(s.list, s.levels) && WriterSound(s) && SetOwnStep(s, s')
    ensures forall l :: 0 <= l < MAX_HEIGHT ==> SameChain(s.list, s'.list, l, s.levels[l])
    ensures forall l :: 0 <= l < |s.levels| ==> Within(s.levels[l], s'.levels[l])
  {
    hide Level, Precedes, Before, Holds;
  }

  lemma NotItself(s: State)
    requires Shape(s.list, s.levels) && WriterSound(s) && s.writer.Linking?
    ensures s.writer.prev[s.writer.i] != s.writer.x
  {
    hide Before, Holds;
    var w := s.writer;
    assert Precedes(s.list, w.i, s.levels[w.i], s.list.nodes[w.x].key, w.prev[w.i]);
    assert w.prev[w.i] in s.levels[w.i];
  }

  // The chain with the new node in its place.
  lemma NodeInPlace(d: List, d': List, l: nat, t: seq<nat>, p: nat, x: nat)
    requires Level(d, l, t) && 0 < p <= |t| && 0 < x < |d.nodes| && x !in t
    requires Splits(d, t, AtLeast(d.nodes[x].key), p) && !Holds(d, t, d.nodes[x].key)
    requires (x, l) in d.next && d.next[(x, l)] == At(t, p)
    requires d'.nodes == d.nodes && d'.next == d.next[(t[p - 1], l) := Some(x)]
    ensures Level(d', l, WithNode(t, p, x))
  {
    hide Before, Holds;
    var u := WithNode(t, p, x);
    KeysInPlace(d, l, t, p, x);
    forall q | 0 <= q < |u|
      ensures Linked(d', l, u, q)
    {
      if q < p - 1 || q > p {
        var k := if q < p then q else q - 1;
        assert u[q] == t[k] && t[k] in t && Linked(d, l, t, k);
        OnePlace(d, l, t, k, p - 1);
      }
    }
  }

  lemma OnePlace(d: List, l: nat, t: seq<nat>, i: nat, j: nat)
    requires Level(d, l, t) && i < |t| && j < |t|
    ensures i != j ==> t[i] != t[j]
  {
    hide Before;
    if 1 <= i < j { NotBeforeItself(d.nodes[t[i]].key, d.nodes[t[j]].key); }
    if 1 <= j < i { NotBeforeItself(d.nodes[t[j]].key, d.nodes[t[i]].key); }
  }

  lemma NotBeforeItself(a: IKey, b: IKey)
    ensures Before(a, b) ==> a != b
    ensures !Before(a, b) && a != b ==> Before(b, a)
  {
    InternalKeysOrdered();
  }

  lemma WithNodeAt(t: seq<nat>, p: nat, x: nat, q: nat)
    requires p <= |t| && q <= |t|
    ensures WithNode(t, p, x)[q] == if q < p then t[q] else if q == p then x else t[q - 1]
  {
  }

  lemma KeyBehind(d: List, l: nat, t: seq<nat>, p: nat, x: nat, q: nat, r: nat)
    requires Level(d, l, t) && 0 < p <= |t| && 0 < x < |d.nodes|
    requires Splits(d, t, AtLeast(d.nodes[x].key), p) && !Holds(d, t, d.nodes[x].key)
    requires 1 <= q < r <= |t|
    ensures var u := WithNode(t, p, x);
            && 0 < u[q] < |d.nodes| && 0 < u[r] < |d.nodes|
            && Before(d.nodes[u[q]].key, d.nodes[u[r]].key)
  {
    hide Before, Holds, WithNode;
    WithNodeAt(t, p, x, q);
    WithNodeAt(t, p, x, r);
    if q == p {
      KeysDiffer(d, t, r - 1, d.nodes[x].key);
      NotBeforeItself(d.nodes[t[r - 1]].key, d.nodes[x].key);
      assert !Passes(d, t[r - 1], AtLeast(d.nodes[x].key));
    } else if r == p {
      assert Passes(d, t[q], AtLeast(d.nodes[x].key));
    }
  }

  lemma KeysInPlace(d: List, l: nat, t: seq<nat>, p: nat, x: nat)
    requires Level(d, l, t) && 0 < p <= |t| && 0 < x < |d.nodes|
    requires Splits(d, t, AtLeast(d.nodes[x].key), p) && !Holds(d, t, d.nodes[x].key)
    ensures var u := WithNode(t, p, x);
            && (forall q :: 1 <= q < |u| ==> 0 < u[q] < |d.nodes|)
            && (forall q, r :: 1 <= q < r < |u| ==> Before(d.nodes[u[q]].key, d.nodes[u[r]].key))
  {
    hide Before, Holds, Level, Splits;
    var u := WithNode(t, p, x);
    forall q | 1 <= q < |u|
      ensures 0 < u[q] < |d.nodes|
    {
      if q > 1 { KeyBehind(d, l, t, p, x, 1, q); } else if |t| > 1 { KeyBehind(d, l, t, p, x, q, 2); }
    }
    forall q, r | 1 <= q < r < |u|
      ensures Before(d.nodes[u[q]].key, d.nodes[u[r]].key)
    {
      KeyBehind(d, l, t, p, x, q, r);
    }
  }

  lemma KeysDiffer(d: List, t: seq<nat>, q: nat, key: IKey)
    requires !Holds(d, t, key) && q < |t| && 0 < t[q] < |d.nodes|
    ensures d.nodes[t[q]].key != key
  {
    assert t[q] in t;
  }

  // x is on the level above 0, and its key is no other node's.
  lemma KeyIsOwn(d: List, levels: seq<seq<nat>>, l: nat, x: nat)
    requires Shape(d, levels) && 0 < l < MAX_HEIGHT && 0 < x < |d.nodes|
    requires x in levels[0] && x !in levels[l]
    ensures !Holds(d, levels[l], d.nodes[x].key)
  {
    hide Before;
    if Holds(d, levels[l], d.nodes[x].key) {
      var y :| y in levels[l] && 0 < y < |d.nodes| && d.nodes[y].key == d.nodes[x].key;
      assert Within(levels[l], levels[0]) && Level(d, 0, levels[0]);
      SameKeySameNode(d, 0, levels[0], x, y);
      assert false;
    }
  }

  lemma SameKeySameNode(d: List, l: nat, t: seq<nat>, x: nat, y: nat)
    requires Level(d, l, t) && x in t && y in t && 0 < x < |d.nodes| && 0 < y < |d.nodes|
    ensures d.nodes[x].key == d.nodes[y].key ==> x == y
  {
    hide Before;
    var i :| 0 <= i < |t| && t[i] == x;
    var j :| 0 <= j < |t| && t[j] == y;
    if i < j { NotBeforeItself(d.nodes[x].key, d.nodes[y].key); }
    if j < i { NotBeforeItself(d.nodes[y].key, d.nodes[x].key); }
  }

  // The place where the writer's search left off.
  lemma WritersPlace(s: State, p: nat)
    requires Shape(s.list, s.levels) && WriterSound(s) && s.writer.Linking?
    requires var w := s.writer; 0 < p <= |s.levels[w.i]| && s.levels[w.i][p - 1] == w.prev[w.i]
    ensures var w := s.writer;
            && Splits(s.list, s.levels[w.i], AtLeast(s.list.nodes[w.x].key), p)
            && (w.prev[w.i], w.i) in s.list.next && s.list.next[(w.prev[w.i], w.i)] == At(s.levels[w.i], p)
            && !Holds(s.list, s.levels[w.i], s.list.nodes[w.x].key)
  {
    hide Before, Holds;
    var w := s.writer;
    var t := s.levels[w.i];
    assert Level(s.list, w.i, t);
    var q: nat :| Splits(s.list, t, AtLeast(s.list.nodes[w.x].key), q) && t[q - 1] == w.prev[w.i];
    OnePlace(s.list, w.i, t, p - 1, q - 1);
    LinkIs(s.list, w.i, t, p);
    if w.i > 0 {
      KeyIsOwn(s.list, s.levels, w.i, w.x);
    }
  }

  lemma PublishKeeps(s: State, s': State)
    requires Inv(s) && PublishStep(s, s')
    ensures Inv(s')
  {
    hide Shape, WriterSound, Level, Before, Holds, ReaderSound, Splits, WithNode;
    var w := s.writer;
    var p :| 0 < p <= |s.levels[w.i]| && s.levels[w.i][p - 1] == w.prev[w.i] &&
             s'.levels == s.levels[w.i := WithNode(s.levels[w.i], p, w.x)];
    LevelsOf(s.list, s.levels);
    PublishLevel(s, s', p);
    forall l | 0 <= l < MAX_HEIGHT && l != w.i
      ensures Level(s'.list, l, s'.levels[l])
    {
      OtherLevel(s.list, s'.list, l, s.levels[l], w.prev[w.i], w.i, Some(w.x));
    }
    MoreOnLevel(s, s', p);
    ReadersKept(s, s');
    PublishShape(s, s', p);
    WriterGoesOn(s, s', p);
  }

  lemma PublishLevel(s: State, s': State, p: nat)
    requires Shape(s.list, s.levels) && WriterSound(s) && PublishStep(s, s')
    requires 0 < p <= |s.levels[s.writer.i]| && s.levels[s.writer.i][p - 1] == s.writer.prev[s.writer.i]
    requires s'.levels == s.levels[s.writer.i := WithNode(s.levels[s.writer.i], p, s.writer.x)]
    ensures Level(s'.list, s.writer.i, s'.levels[s.writer.i])
  {
    hide Level, Precedes, Before, Holds, Splits, WithNode;
    var w := s.writer;
    WritersPlace(s, p);
    NodeInPlace(s.list, s'.list, w.i, s.levels[w.i], p, w.x);
  }

  // A link of another level.
  lemma OtherLevel(d: List, d': List, l: nat, t: seq<nat>, y: nat, i: nat, v: Option<nat>)
    requires Level(d, l, t) && l != i && d'.nodes == d.nodes && d'.next == d.next[(y, i) := v]
    ensures Level(d', l, t)
    ensures forall key, x :: Precedes(d, l, t, key, x) ==> Precedes(d', l, t, key, x)
  {
    hide Level, Precedes, Before;
    ChainKept(d, d', l, t);
  }

  lemma MoreOnLevel(s: State, s': State, p: nat)
    requires |s.levels| == MAX_HEIGHT && s.writer.Linking? && s.writer.i < MAX_HEIGHT && p <= |s.levels[s.writer.i]|
    requires s'.levels == s.levels[s.writer.i := WithNode(s.levels[s.writer.i], p, s.writer.x)]
    ensures forall l :: 0 <= l < MAX_HEIGHT ==> Within(s.levels[l], s'.levels[l])
    ensures forall y :: y in s'.levels[s.writer.i] ==> y in s.levels[s.writer.i] || y == s.writer.x
    ensures s.writer.x in s'.levels[s.writer.i]
  {
    var t, x := s.levels[s.writer.i], s.writer.x;
    var u := WithNode(t, p, x);
    forall y | y in t
      ensures y in u
    {
      var k :| 0 <= k < |t| && t[k] == y;
      assert u[if k < p then k else k + 1] == y;
    }
    assert u[p] == x;
  }

  lemma PublishShape(s: State, s': State, p: nat)
    requires Shape(s.list, s.levels) && WriterSound(s) && PublishStep(s, s')
    requires p <= |s.levels[s.writer.i]|
    requires s'.levels == s.levels[s.writer.i := WithNode(s.levels[s.writer.i], p, s.writer.x)]
    requires forall l :: 0 <= l < MAX_HEIGHT ==> Level(s'.list, l, s'.levels[l])
    ensures Shape(s'.list, s'.levels)
  {
    hide Level, Before, Holds, Splits, WithNode;
    MoreOnLevel(s, s', p);
    forall l, m | 0 <= l < m < MAX_HEIGHT
      ensures Within(s'.levels[m], s'.levels[l])
    {
      assert Within(s.levels[m], s.levels[l]);
    }
  }

  lemma WriterGoesOn(s: State, s': State, p: nat)
    requires Shape(s.list, s.levels) && WriterSound(s) && PublishStep(s, s') && Shape(s'.list, s'.levels)
    requires p <= |s.levels[s.writer.i]|
    requires s'.levels == s.levels[s.writer.i := WithNode(s.levels[s.writer.i], p, s.writer.x)]
    ensures WriterSound(s')
  {
    hide Level, Precedes, Before, Holds, Splits, WithNode;
    MoreOnLevel(s, s', p);
    var w := s.writer;
    forall l | w.i < l < w.height
      ensures Precedes(s'.list, l, s'.levels[l], s.list.nodes[w.x].key, w.prev[l])
    {
      OtherLevel(s.list, s'.list, l, s.levels[l], w.prev[w.i], w.i, Some(w.x));
    }
  }

  // ---- Readers ----

  lemma ReaderMoves(s: State, s': State, r: nat, now: Reader)
    requires Inv(s) && r < |s.readers| && ReaderSound(s, now)
    requires s' == s.(readers := s.readers[r := now])
    ensures Inv(s')
  {
    hide Shape, Before;
    forall q | 0 <= q < |s'.readers|
      ensures ReaderSound(s', s'.readers[q])
    {
      assert q != r ==> ReaderSound(s, s.readers[q]);
    }
  }

  lemma StartKeeps(s: State, s': State, r: nat, goal: Goal)
    requires Inv(s) && StartStep(s, s', r, goal)
    ensures Inv(s')
  {
    hide WriterSound, Level, Before;
    ReaderMoves(s, s', r, Searching(goal, HEAD, s.list.maxHeight - 1));
  }

  // Where a search ends, it has the answer for the list as it is at this
  // moment; before that, it stays on track.
  lemma MoveDecides(s: State, s': State, r: nat)
    requires Inv(s) && MoveStep(s, s', r)
    ensures Inv(s')
    ensures s'.readers[r].Resting? ==>
              && Level(s.list, 0, s.levels[0])
              && Answers(s.list, 0, s.levels[0], s.readers[r].goal, s'.readers[r].at)
  {
    hide WriterSound, Shape, Level, Before, Answers, Splits;
    var Searching(goal, x, level) := s.readers[r];
    assert ReaderSound(s, s.readers[r]);
    LevelsOf(s.list, s.levels);
    var p := PlaceOf(s.levels[level], x);
    LinkIs(s.list, level, s.levels[level], p);
    var next := s.list.next[(x, level)];
    if next.Some? && Passes(s.list, next.value, goal) {
      ReaderMoves(s, s', r, Searching(goal, next.value, level));
    } else if level > 0 {
      var q := Descends(s.list, s.levels, level, goal, x);
      ReaderMoves(s, s', r, Searching(goal, x, level - 1));
    } else {
      Stops(s.list, 0, s.levels[0], goal, p);
      HeadFirst(s.list, 0, s.levels[0], p);
      ReaderMoves(s, s', r, s'.readers[r]);
    }
  }

  lemma HeadFirst(d: List, l: nat, t: seq<nat>, p: nat)
    requires Level(d, l, t) && 0 < p <= |t|
    ensures t[p - 1] == HEAD <==> p == 1
    ensures t[p - 1] in t
  {
  }

  lemma NextKeeps(s: State, s': State, r: nat)
    requires Inv(s) && NextStep(s, s', r)
    ensures Inv(s')
    ensures Level(s.list, 0, s.levels[0]) && s.readers[r].at.value in s.levels[0]
    ensures exists p :: 0 < p <= |s.levels[0]| && s.levels[0][p - 1] == s.readers[r].at.value &&
                        s'.readers[r].at == At(s.levels[0], p)
  {
    hide WriterSound, Shape, Level, Before;
    assert ReaderSound(s, s.readers[r]);
    LevelsOf(s.list, s.levels);
    var n := s.readers[r].at.value;
    var p := PlaceOf(s.levels[0], n);
    LinkIs(s.list, 0, s.levels[0], p);
    ReaderMoves(s, s', r, s'.readers[r]);
  }

  lemma StepKeepsInv(s: State, s': State, a: Action)
    requires Inv(s) && Step(s, s', a)
    ensures Inv(s')
  {
    hide Inv, BeginStep, SetOwnStep, PublishStep, StartStep, MoveStep, NextStep;
    match a
    case Begin(key, height, prev) => BeginKeeps(s, s', key, height, prev);
    case SetOwn => SetOwnKeeps(s, s');
    case Publish => PublishKeeps(s, s');
    case Start(r, goal) => StartKeeps(s, s', r, goal);
    case Move(r) => MoveDecides(s, s', r);
    case NextOf(r) => NextKeeps(s, s', r);
  }

  ghost predicate Run(states: seq<State>, actions: seq<Action>) {
    && |states| == |actions| + 1
    && Init(states[0])
    && forall i :: 0 <= i < |actions| ==> Step(states[i], states[i + 1], actions[i])
  }

  lemma {:induction false} RunKeepsInv(states: seq<State>, actions: seq<Action>, i: nat)
    requires Run(states, actions) && i < |states|
    ensures Inv(states[i])
  {
    hide Inv, Init, Step;
    if i == 0 {
      InitSound(states[0]);
    } else {
      RunKeepsInv(states, actions, i - 1);
      StepKeepsInv(states[i - 1], states[i], actions[i - 1]);
    }
  }

  // Nothing ever leaves a level, and a node keeps its key.
  lemma StepGrows(s: State, s': State, a: Action)
    requires Inv(s) && Step(s, s', a)
    ensures |s.levels| == |s'.levels| == MAX_HEIGHT && s.list.nodes <= s'.list.nodes
    ensures Within(s.levels[0], s'.levels[0])
  {
  }

  lemma {:induction false} RunGrows(states: seq<State>, actions: seq<Action>, i: nat, j: nat)
    requires Run(states, actions) && i <= j < |states|
    ensures |states[i].levels| == |states[j].levels| == MAX_HEIGHT && states[i].list.nodes <= states[j].list.nodes
    ensures Within(states[i].levels[0], states[j].levels[0])
  {
    hide Inv, Init, Step;
    RunKeepsInv(states, actions, j);
    if i < j {
      RunGrows(states, actions, i, j - 1);
      RunKeepsInv(states, actions, j - 1);
      StepGrows(states[j - 1], states[j], actions[j - 1]);
    } else {
      AllLevels(states[i]);
    }
  }

  lemma AllLevels(s: State)
    requires Inv(s)
    ensures |s.levels| == MAX_HEIGHT
  {
  }

  // Whatever the writer does between its steps, a reader's search ends with the
  // answer for the list of that moment, and so misses nothing that was in the
  // list at any earlier moment: it stops at or before every such node that is
  // not before its key.
  lemma SearchMissesNothing(states: seq<State>, actions: seq<Action>, i: nat, j: nat, r: nat, x: nat)
    requires Run(states, actions) && i <= j < |actions| && actions[j] == Move(r)
    requires r < |states[j].readers| && states[j].readers[r].Searching? && states[j].readers[r].goal.AtLeast?
    requires r < |states[j + 1].readers| && states[j + 1].readers[r].Resting?
    requires 0 < |states[i].levels| && x in states[i].levels[0] && 0 < x < |states[i].list.nodes|
    requires !Before(states[i].list.nodes[x].key, states[j].readers[r].goal.key)
    ensures var s, at := states[j], states[j + 1].readers[r].at;
            && |s.levels| == MAX_HEIGHT && Level(s.list, 0, s.levels[0])
            && Answers(s.list, 0, s.levels[0], s.readers[r].goal, at)
            && at.Some? && at.value < |s.list.nodes|
            && !Before(states[i].list.nodes[x].key, s.list.nodes[at.value].key)
  {
    hide Inv, Init, BeginStep, SetOwnStep, PublishStep, StartStep, MoveStep, NextStep, Before, Level, Answers, Splits;
    RunKeepsInv(states, actions, j);
    MoveDecides(states[j], states[j + 1], r);
    RunGrows(states, actions, i, j);
    AnswerIsFirst(states[j].list, states[j].levels[0], states[j].readers[r].goal, states[j + 1].readers[r].at, x);
  }

  lemma AnswerIsFirst(d: List, t: seq<nat>, goal: Goal, at: Option<nat>, x: nat)
    requires Level(d, 0, t) && Answers(d, 0, t, goal, at) && goal.AtLeast?
    requires x in t && 0 < x < |d.nodes| && !Before(d.nodes[x].key, goal.key)
    ensures at.Some? && at.value < |d.nodes| && !Before(d.nodes[x].key, d.nodes[at.value].key)
  {
    hide Before;
    var p: nat :| Splits(d, t, goal, p) && at == Answer(t, goal, p);
    var q: nat :| q < |t| && t[q] == x;
    assert !Passes(d, t[q], goal);
    AscendsFrom(d, 0, t, p, q);
  }

  lemma AscendsFrom(d: List, l: nat, t: seq<nat>, p: nat, q: nat)
    requires Level(d, l, t) && 1 <= p <= q < |t|
    ensures t[p] < |d.nodes| && t[q] < |d.nodes| && !Before(d.nodes[t[q]].key, d.nodes[t[p]].key)
  {
    hide Before;
    NotAfter(d.nodes[t[p]].key, d.nodes[t[q]].key);
  }

  lemma NotAfter(a: IKey, b: IKey)
    ensures Before(a, b) || a == b ==> !Before(b, a)
  {
    InternalKeysOrdered();
  }

  // The list gains a key only when the writer links its node at level 0, and
  // then just that key.
  lemma OneKeyAtATime(s: State, s': State, a: Action, key: IKey)
    requires Inv(s) && Step(s, s', a)
    ensures |s.levels| == |s'.levels| == MAX_HEIGHT
    ensures var linked := a.Publish? && s.writer.Linking? && s.writer.i == 0 && s.writer.x < |s.list.nodes| &&
                          key == s.list.nodes[s.writer.x].key;
            Holds(s'.list, s'.levels[0], key) <==> Holds(s.list, s.levels[0], key) || linked
  {
    hide Before, Level;
    StepGrows(s, s', a);
    OldNodes(s.list, s.levels);
    if a.Publish? {
      var w := s.writer;
      var p :| 0 < p <= |s.levels[w.i]| && s.levels[w.i][p - 1] == w.prev[w.i] &&
               s'.levels == s.levels[w.i := WithNode(s.levels[w.i], p, w.x)];
      MoreOnLevel(s, s', p);
    } else if a.Begin? {
      if !Holds(s.list, s.levels[0], key) {
        HoldsKept(s.list, s'.list, s.levels[0], key);
      }
    }
  }
}
