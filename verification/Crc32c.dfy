// CRC32C by strides: the fast path and one byte at a time (util/crc32c.cc).
module Crc32c {
  type Octet = b: bv32 | b <= 0xff

  const ONES: bv32 := 0xffff_ffff

  function Xor(a: bv32, b: bv32): bv32 { a ^ b }
  function High(a: bv32): bv32 { a >> 8 }

  function Up(a: bv32): bv32 { a << 8 }

  function Low(a: bv32): Octet {
    LowFits(a);
    a & 0xff
  }

  lemma LowFits(a: bv32)
    ensures a & 0xff <= 0xff
  {
  }

  // The remainders of a byte, and those of the bytes of a word further on.
  datatype Tables = Tables(byte: Octet -> bv32, stride3: Octet -> bv32, stride2: Octet -> bv32, stride1: Octet -> bv32,
                           stride0: Octet -> bv32)

  // What the tables hold: the remainder is linear, and a stride table takes a
  // byte of its lane over sixteen zero bytes.
  ghost predicate Sound(t: Tables) {
    && (forall a: bv32, b: bv32 :: t.byte(Low(Xor(a, b))) == Xor(t.byte(Low(a)), t.byte(Low(b))))
    && (forall b: Octet :: t.stride3(b) == Sixteen(t, b))
    && (forall b: Octet :: t.stride2(b) == Sixteen(t, Up(b)))
    && (forall b: Octet :: t.stride1(b) == Sixteen(t, Up(Up(b))))
    && (forall b: Octet :: t.stride0(b) == Sixteen(t, Up(Up(Up(b)))))
  }

  // STEP1: one byte.
  function Step(t: Tables, l: bv32, b: Octet): bv32 {
    Xor(t.byte(Low(Xor(Low(l), b))), High(l))
  }

  function Steps(t: Tables, l: bv32, data: seq<Octet>): bv32 {
    if data == [] then l else Step(t, Steps(t, l, data[..|data| - 1]), data[|data| - 1])
  }

  // One, four and sixteen zero bytes.
  function Zero(t: Tables, l: bv32): bv32 {
    Xor(t.byte(Low(l)), High(l))
  }

  function Four(t: Tables, l: bv32): bv32 {
    Zero(t, Zero(t, Zero(t, Zero(t, l))))
  }

  function Sixteen(t: Tables, l: bv32): bv32 {
    Four(t, Four(t, Four(t, Four(t, l))))
  }

  // ---- Exclusive or ----

  lemma Regroup(a: bv32, b: bv32, c: bv32)
    ensures Xor(a, Xor(b, c)) == Xor(Xor(a, b), c) == Xor(b, Xor(a, c))
    ensures Xor(a, b) == Xor(b, a) && Xor(a, 0) == a
  {
  }

  lemma Exchange(a: bv32, b: bv32, c: bv32, d: bv32)
    ensures Xor(Xor(a, b), Xor(c, d)) == Xor(Xor(a, c), Xor(b, d))
  {
    hide Xor;
    Regroup(Xor(a, b), c, d);
    Regroup(c, a, b);
    Regroup(Xor(a, c), b, d);
  }

  lemma HighXor(a: bv32, b: bv32)
    ensures High(Xor(a, b)) == Xor(High(a), High(b))
  {
  }

  lemma LowXor(a: bv32, b: bv32)
    ensures Low(Xor(Low(a), Low(b))) == Low(Xor(a, b))
  {
  }

  lemma LowAndHigh(a: bv32)
    ensures a == Xor(Low(a), Up(High(a)))
  {
  }

  lemma UpXor(a: bv32, b: bv32)
    ensures Up(Xor(a, b)) == Xor(Up(a), Up(b))
  {
  }

  lemma NoMore(a: bv32)
    ensures High(High(High(High(a)))) == 0 && Low(High(High(High(a)))) == High(High(High(a)))
  {
  }

  lemma FourLanes(a: bv32)
    ensures a == Xor(Low(a), Xor(Up(Low(High(a))), Xor(Up(Up(Low(High(High(a))))), Up(Up(Up(High(High(High(a)))))))))
  {
    hide Xor, Up, High, Low;
    var b, c, d := High(a), High(High(a)), High(High(High(a)));
    LowAndHigh(a);
    LowAndHigh(b);
    LowAndHigh(c);
    UpXor(Low(b), Up(c));
    UpXor(Low(c), Up(d));
    UpXor(Up(Low(c)), Up(Up(d)));
  }

  // ---- Zero bytes are linear ----

  lemma ZeroLinear(t: Tables, a: bv32, b: bv32)
    requires Sound(t)
    ensures Zero(t, Xor(a, b)) == Xor(Zero(t, a), Zero(t, b))
  {
    hide Xor, High, Low, Sixteen;
    HighXor(a, b);
    Exchange(t.byte(Low(a)), t.byte(Low(b)), High(a), High(b));
  }

  lemma FourLinear(t: Tables, a: bv32, b: bv32)
    requires Sound(t)
    ensures Four(t, Xor(a, b)) == Xor(Four(t, a), Four(t, b))
  {
    hide Xor, Zero, Sound;
    ZeroLinear(t, a, b);
    ZeroLinear(t, Zero(t, a), Zero(t, b));
    ZeroLinear(t, Zero(t, Zero(t, a)), Zero(t, Zero(t, b)));
    ZeroLinear(t, Zero(t, Zero(t, Zero(t, a))), Zero(t, Zero(t, Zero(t, b))));
  }

  lemma SixteenLinear(t: Tables, a: bv32, b: bv32)
    requires Sound(t)
    ensures Sixteen(t, Xor(a, b)) == Xor(Sixteen(t, a), Sixteen(t, b))
  {
    hide Xor, Four, Sound;
    FourLinear(t, a, b);
    FourLinear(t, Four(t, a), Four(t, b));
    FourLinear(t, Four(t, Four(t, a)), Four(t, Four(t, b)));
    FourLinear(t, Four(t, Four(t, Four(t, a))), Four(t, Four(t, Four(t, b))));
  }

  // STEP4: a new word, and the old partial result sixteen bytes further on.
  function Stride(t: Tables, w: bv32, c: bv32): bv32 {
    Xor(w, Xor(t.stride3(Low(c)), Xor(t.stride2(Low(High(c))), Xor(t.stride1(Low(High(High(c)))),
                                                                    t.stride0(Low(High(High(High(c)))))))))
  }

  lemma StrideIsSixteen(t: Tables, w: bv32, c: bv32)
    requires Sound(t)
    ensures Stride(t, w, c) == Xor(w, Sixteen(t, c))
  {
    hide Xor, Up, High, Low, Sixteen;
    FourLanes(c);
    NoMore(c);
    var a: bv32, b, d, e := Low(c), Up(Low(High(c))), Up(Up(Low(High(High(c))))), Up(Up(Up(High(High(High(c))))));
    SixteenLinear(t, a, Xor(b, Xor(d, e)));
    SixteenLinear(t, b, Xor(d, e));
    SixteenLinear(t, d, e);
  }

  // ---- Words ----

  // ReadUint32LE
  function Word(data: seq<Octet>): bv32
    requires |data| == 4
  {
    Xor(data[0], Up(Xor(data[1], Up(Xor(data[2], Up(data[3]))))))
  }

  lemma WordParts(b: Octet, w: bv32)
    requires High(High(High(w))) == 0
    ensures Low(Xor(b, Up(w))) == b && High(Xor(b, Up(w))) == w
  {
  }

  // A step takes the lowest byte out of the word.
  lemma StepInWord(t: Tables, l: bv32, w: bv32)
    ensures Zero(t, Xor(l, w)) == Xor(Step(t, l, Low(w)), High(w))
  {
    hide Xor, High, Low;
    HighXor(l, w);
    LowXor(l, w);
    Regroup(t.byte(Low(Xor(l, w))), High(l), High(w));
  }

  lemma NothingHigh(b: Octet)
    ensures High(b) == 0 && High(0) == 0 && Low(b) == b
  {
  }

  lemma {:induction false} StepsMore(t: Tables, l: bv32, a: seq<Octet>, b: seq<Octet>)
    ensures Steps(t, l, a + b) == Steps(t, Steps(t, l, a), b)
  {
    hide Step;
    if b == [] {
      assert a + b == a;
    } else {
      assert (a + b)[..|a + b| - 1] == a + b[..|b| - 1];
      StepsMore(t, l, a, b[..|b| - 1]);
    }
  }

  // Four steps are one word.
  lemma WordSteps(t: Tables, l: bv32, data: seq<Octet>)
    requires |data| == 4
    ensures Steps(t, l, data) == Four(t, Xor(l, Word(data)))
  {
    hide Xor, Up, High, Low, Step, Zero;
    var w3: bv32 := data[3];
    NothingHigh(data[3]);
    var w2 := Xor(data[2], Up(w3));
    WordParts(data[2], w3);
    var w1 := Xor(data[1], Up(w2));
    WordParts(data[1], w2);
    var w := Xor(data[0], Up(w1));
    WordParts(data[0], w1);
    var l1 := Step(t, l, data[0]);
    var l2 := Step(t, l1, data[1]);
    var l3 := Step(t, l2, data[2]);
    StepInWord(t, l, w);
    StepInWord(t, l1, w1);
    StepInWord(t, l2, w2);
    StepInWord(t, l3, w3);
    Regroup(Step(t, l3, data[3]), 0, 0);
    FourSteps(t, l, data);
  }

  lemma FourSteps(t: Tables, l: bv32, data: seq<Octet>)
    requires |data| == 4
    ensures Steps(t, l, data) == Step(t, Step(t, Step(t, Step(t, l, data[0]), data[1]), data[2]), data[3])
  {
    hide Step;
    var a, b, c := data[..3], data[..2], data[..1];
    assert a[..2] == b && b[..1] == c && c[..0] == [];
    assert Steps(t, l, c) == Step(t, l, data[0]);
    assert Steps(t, l, b) == Step(t, Steps(t, l, c), data[1]);
    assert Steps(t, l, a) == Step(t, Steps(t, l, b), data[2]);
  }

  // STEP4W four times: the partial results, oldest first.
  function Combine(t: Tables, c0: bv32, c1: bv32, c2: bv32, c3: bv32): bv32 {
    Four(t, Xor(c3, Four(t, Xor(c2, Four(t, Xor(c1, Four(t, c0)))))))
  }

  // A stride and the turn of the partial results process one more word.
  lemma OneMoreWord(t: Tables, w: bv32, c0: bv32, c1: bv32, c2: bv32, c3: bv32)
    requires Sound(t)
    ensures Combine(t, c1, c2, c3, Stride(t, w, c0)) == Four(t, Xor(Combine(t, c0, c1, c2, c3), w))
  {
    hide Xor, Four, Sound, Stride;
    StrideIsSixteen(t, w, c0);
    var x1 := Four(t, c0);
    var x2 := Four(t, x1);
    var x3 := Four(t, x2);
    var x4 := Four(t, x3);
    var y1 := Four(t, c1);
    var y2 := Four(t, Xor(c2, y1));
    var y3 := Four(t, Xor(c3, y2));
    FourLinear(t, c1, x1);
    Carry(t, c2, y1, x2);
    Carry(t, c3, y2, x3);
    Regroup(y3, x4, w);
    Regroup(w, x4, y3);
    Regroup(w, Xor(y3, x4), 0);
  }

  // The oldest partial result goes through the others.
  lemma Carry(t: Tables, c: bv32, y: bv32, x: bv32)
    requires Sound(t)
    ensures Four(t, Xor(c, Xor(y, x))) == Xor(Four(t, Xor(c, y)), Four(t, x))
  {
    hide Xor, Four, Sound;
    Regroup(c, y, x);
    FourLinear(t, Xor(c, y), x);
  }

  // Extend, from any alignment of the data.
  method Extend(t: Tables, crc: bv32, data: seq<Octet>, untilAligned: nat) returns (r: bv32)
    requires Sound(t) && untilAligned < 4
    ensures r == Crc(t, crc, data)
  {
    hide Sound, Step, Xor, Four, Steps;
    ghost var l0 := Xor(crc, ONES);
    var l := Xor(crc, ONES);
    var p := 0;
    NoSteps(t, l0, data);
    if untilAligned <= |data| {
      while p != untilAligned
        invariant 0 <= p <= untilAligned && l == Steps(t, l0, data[..p])
      {
        OneStep(t, l0, data, p);
        l := Step(t, l, data[p]);
        p := p + 1;
      }
    }
    if |data| - p >= 16 {
      l, p := ByWords(t, l, data, p, l0);
    }
    while p != |data|
      invariant 0 <= p <= |data| && l == Steps(t, l0, data[..p])
    {
      OneStep(t, l0, data, p);
      l := Step(t, l, data[p]);
      p := p + 1;
    }
    assert data[..p] == data;
    r := Xor(l, ONES);
  }

  lemma NoSteps(t: Tables, l: bv32, data: seq<Octet>)
    ensures Steps(t, l, data[..0]) == l
  {
  }

  lemma OneStep(t: Tables, l: bv32, data: seq<Octet>, p: nat)
    requires p < |data|
    ensures Steps(t, l, data[..p + 1]) == Step(t, Steps(t, l, data[..p]), data[p])
  {
    hide Step;
    assert data[..p + 1][..p] == data[..p];
  }

  lemma OneWord(t: Tables, l: bv32, data: seq<Octet>, p: nat)
    requires p + 4 <= |data|
    ensures Steps(t, l, data[..p + 4]) == Four(t, Xor(Steps(t, l, data[..p]), Word(data[p..p + 4])))
  {
    hide Step, Xor, Four, Word;
    assert data[..p + 4] == data[..p] + data[p..p + 4];
    StepsMore(t, l, data[..p], data[p..p + 4]);
    WordSteps(t, Steps(t, l, data[..p]), data[p..p + 4]);
  }

  // Four interleaved strides.
  method ByWords(t: Tables, l: bv32, data: seq<Octet>, start: nat, ghost l0: bv32) returns (r: bv32, p: nat)
    requires Sound(t) && start + 16 <= |data| && l == Steps(t, l0, data[..start])
    ensures start <= p <= |data| && r == Steps(t, l0, data[..p])
  {
    hide Sound, Step, Xor, Four, Steps, Word, Combine, Stride;
    p := start;
    var crc0 := Xor(Word(data[p..p + 4]), l);
    var crc1 := Word(data[p + 4..p + 8]);
    var crc2 := Word(data[p + 8..p + 12]);
    var crc3 := Word(data[p + 12..p + 16]);
    FirstWords(t, l0, data, p);
    p := p + 16;
    while |data| - p >= 16
      invariant start <= p <= |data| && Combine(t, crc0, crc1, crc2, crc3) == Steps(t, l0, data[..p])
    {
      NextWord(t, l0, data, p, crc0, crc1, crc2, crc3);
      crc0 := Stride(t, Word(data[p..p + 4]), crc0);
      NextWord(t, l0, data, p + 4, crc1, crc2, crc3, crc0);
      crc1 := Stride(t, Word(data[p + 4..p + 8]), crc1);
      NextWord(t, l0, data, p + 8, crc2, crc3, crc0, crc1);
      crc2 := Stride(t, Word(data[p + 8..p + 12]), crc2);
      NextWord(t, l0, data, p + 12, crc3, crc0, crc1, crc2);
      crc3 := Stride(t, Word(data[p + 12..p + 16]), crc3);
      p := p + 16;
    }
    while |data| - p >= 4
      invariant start <= p <= |data| && Combine(t, crc0, crc1, crc2, crc3) == Steps(t, l0, data[..p])
    {
      NextWord(t, l0, data, p, crc0, crc1, crc2, crc3);
      crc0 := Stride(t, Word(data[p..p + 4]), crc0);
      crc0, crc1, crc2, crc3 := crc1, crc2, crc3, crc0;
      p := p + 4;
    }
    r := CombineAll(t, crc0, crc1, crc2, crc3);
  }

  method CombineAll(t: Tables, crc0: bv32, crc1: bv32, crc2: bv32, crc3: bv32) returns (l: bv32)
    ensures l == Combine(t, crc0, crc1, crc2, crc3)
  {
    hide Xor, Four;
    l := 0;
    Regroup(crc0, 0, 0);
    l := Four(t, Xor(crc0, l));
    l := Four(t, Xor(crc1, l));
    l := Four(t, Xor(crc2, l));
    l := Four(t, Xor(crc3, l));
  }

  lemma NextWord(t: Tables, l0: bv32, data: seq<Octet>, p: nat, c0: bv32, c1: bv32, c2: bv32, c3: bv32)
    requires Sound(t) && p + 4 <= |data| && Combine(t, c0, c1, c2, c3) == Steps(t, l0, data[..p])
    ensures Combine(t, c1, c2, c3, Stride(t, Word(data[p..p + 4]), c0)) == Steps(t, l0, data[..p + 4])
  {
    hide Sound, Step, Xor, Four, Steps, Word, Combine, Stride;
    OneMoreWord(t, Word(data[p..p + 4]), c0, c1, c2, c3);
    OneWord(t, l0, data, p);
  }

  lemma FirstWords(t: Tables, l0: bv32, data: seq<Octet>, p: nat)
    requires p + 16 <= |data|
    ensures Combine(t, Xor(Word(data[p..p + 4]), Steps(t, l0, data[..p])), Word(data[p + 4..p + 8]),
                    Word(data[p + 8..p + 12]), Word(data[p + 12..p + 16])) == Steps(t, l0, data[..p + 16])
  {
    hide Step, Xor, Four, Steps, Word;
    OneWord(t, l0, data, p);
    OneWord(t, l0, data, p + 4);
    OneWord(t, l0, data, p + 8);
    OneWord(t, l0, data, p + 12);
    Regroup(Word(data[p..p + 4]), Steps(t, l0, data[..p]), 0);
    Regroup(Word(data[p + 4..p + 8]), Steps(t, l0, data[..p + 4]), 0);
    Regroup(Word(data[p + 8..p + 12]), Steps(t, l0, data[..p + 8]), 0);
    Regroup(Word(data[p + 12..p + 16]), Steps(t, l0, data[..p + 12]), 0);
  }

  // The value of Extend.
  function Crc(t: Tables, crc: bv32, data: seq<Octet>): bv32 {
    Xor(Steps(t, Xor(crc, ONES), data), ONES)
  }

  // Extending by two pieces is extending by both at once.
  lemma ExtendTwice(t: Tables, crc: bv32, a: seq<Octet>, b: seq<Octet>)
    ensures Crc(t, Crc(t, crc, a), b) == Crc(t, crc, a + b)
  {
    hide Xor, Steps;
    var l := Steps(t, Xor(crc, ONES), a);
    Cancels(l);
    StepsMore(t, Xor(crc, ONES), a, b);
  }

  lemma Cancels(l: bv32)
    ensures Xor(Xor(l, ONES), ONES) == l
  {
  }
}
