/**
 A CRC register kept in a machine word in reflected order: the low bit of the word is the most significant
 coefficient, so a step shifts right and adds the reflected generator when a one drops out.

 Nothing here depends on how words are represented: a word type is described by its low bit, its right shift and
 its addition.
 */
module ReflectedRegister {
  import opened Gf2

  datatype WordOps<!W> = WordOps(low: W -> bool, shift: W -> W, add: (W, W) -> W)

  ghost predicate Reorders<W(!new)>(ops: WordOps<W>) {
    forall x, y, z :: ops.add(ops.add(x, y), z) == ops.add(ops.add(x, z), y)
  }

  ghost predicate Associates<W(!new)>(ops: WordOps<W>) {
    forall x, y, z :: ops.add(x, ops.add(y, z)) == ops.add(ops.add(x, y), z)
  }

  ghost predicate Cancels<W(!new)>(ops: WordOps<W>) {
    forall x, y :: ops.add(ops.add(x, y), y) == x
  }

  ghost predicate ShiftDistributes<W(!new)>(ops: WordOps<W>) {
    forall x, y :: ops.shift(ops.add(x, y)) == ops.add(ops.shift(x), ops.shift(y))
  }

  ghost predicate LowDistributes<W(!new)>(ops: WordOps<W>) {
    forall x, y :: ops.low(ops.add(x, y)) == (ops.low(x) != ops.low(y))
  }

  /** Word addition is addition over GF(2), and shifting and taking the low bit respect it. */
  ghost predicate Lawful<W(!new)>(ops: WordOps<W>) {
    Reorders(ops) && Associates(ops) && Cancels(ops) && ShiftDistributes(ops) && LowDistributes(ops)
  }

  function ShiftBy<W>(ops: WordOps<W>, x: W, n: nat): W
    decreases n
  {
    if n == 0 then x else ShiftBy(ops, ops.shift(x), n - 1)
  }

  function Bit<W>(ops: WordOps<W>, x: W, k: nat): bool {
    ops.low(ShiftBy(ops, x, k))
  }

  function WordBits<W>(ops: WordOps<W>, x: W, width: nat): (b: Bits)
    ensures |b| == width && forall k :: 0 <= k < width ==> b[k] == Bit(ops, x, k)
  {
    seq(width, k requires 0 <= k < width => Bit(ops, x, k))
  }

  /** No bit of the word at or above position `width` is set. */
  ghost predicate Fits<W>(ops: WordOps<W>, x: W, width: nat) {
    forall j: nat :: width <= j ==> !Bit(ops, x, j)
  }

  function Step<W>(ops: WordOps<W>, poly: W, x: W): W {
    if ops.low(x) then ops.add(ops.shift(x), poly) else ops.shift(x)
  }

  function Steps<W>(ops: WordOps<W>, poly: W, x: W, n: nat): W
    decreases n
  {
    if n == 0 then x else Steps(ops, poly, Step(ops, poly, x), n - 1)
  }

  lemma {:induction false} ShiftByPlus<W>(ops: WordOps<W>, x: W, m: nat, n: nat)
    ensures ShiftBy(ops, x, m + n) == ShiftBy(ops, ShiftBy(ops, x, m), n)
    decreases m
  {
    if m > 0 {
      ShiftByPlus(ops, ops.shift(x), m - 1, n);
    }
  }

  lemma {:induction false} BitAdd<W(!new)>(ops: WordOps<W>, x: W, y: W, k: nat)
    requires Lawful(ops)
    ensures Bit(ops, ops.add(x, y), k) == (Bit(ops, x, k) != Bit(ops, y, k))
    decreases k
  {
    if k > 0 {
      BitAdd(ops, ops.shift(x), ops.shift(y), k - 1);
    }
  }

  /** Adding words is adding bit strings. */
  lemma WordBitsAdd<W(!new)>(ops: WordOps<W>, x: W, y: W, width: nat)
    requires Lawful(ops)
    ensures WordBits(ops, ops.add(x, y), width) == Xor(WordBits(ops, x, width), WordBits(ops, y, width))
  {
    forall k: nat | k < width
      ensures Bit(ops, ops.add(x, y), k) == (Bit(ops, x, k) != Bit(ops, y, k))
    {
      BitAdd(ops, x, y, k);
    }
  }

  /** Reading a word past position n is reading the shifted word. */
  lemma WordBitsSplit<W>(ops: WordOps<W>, x: W, n: nat, rest: nat)
    ensures WordBits(ops, x, n + rest) == WordBits(ops, x, n) + WordBits(ops, ShiftBy(ops, x, n), rest)
  {
    forall k: nat | k < rest
      ensures WordBits(ops, x, n + rest)[n + k] == Bit(ops, ShiftBy(ops, x, n), k)
    {
      ShiftByPlus(ops, x, n, k);
    }
    var a, b := WordBits(ops, x, n + rest), WordBits(ops, x, n) + WordBits(ops, ShiftBy(ops, x, n), rest);
    forall k: nat | k < n + rest
      ensures a[k] == b[k]
    {
      if n <= k {
        assert a[n + (k - n)] == Bit(ops, ShiftBy(ops, x, n), k - n);
      }
    }
  }

  lemma StepFits<W(!new)>(ops: WordOps<W>, poly: W, x: W, width: nat)
    requires Lawful(ops) && Fits(ops, poly, width) && Fits(ops, x, width)
    ensures Fits(ops, Step(ops, poly, x), width)
  {
    forall j: nat | width <= j
      ensures !Bit(ops, Step(ops, poly, x), j)
    {
      BitAdd(ops, ops.shift(x), poly, j);
      assert Bit(ops, ops.shift(x), j) == Bit(ops, x, j + 1);
    }
  }

  lemma {:induction false} FitsWhenShiftedOut<W>(ops: WordOps<W>, x: W, width: nat, zero: W)
    requires ops.shift(zero) == zero && !ops.low(zero) && ShiftBy(ops, x, width) == zero
    ensures Fits(ops, x, width)
  {
    forall j: nat | width <= j
      ensures !Bit(ops, x, j)
    {
      ShiftByPlus(ops, x, width, j - width);
      ShiftByFixed(ops, zero, j - width);
    }
  }

  lemma {:induction false} ShiftByFixed<W>(ops: WordOps<W>, zero: W, n: nat)
    requires ops.shift(zero) == zero
    ensures ShiftBy(ops, zero, n) == zero
    decreases n
  {
    if n > 0 {
      ShiftByFixed(ops, zero, n - 1);
    }
  }

  /** Taking steps is linear. */
  lemma {:induction false} StepsLinear<W(!new)>(ops: WordOps<W>, poly: W, x: W, y: W, n: nat)
    requires Lawful(ops)
    ensures Steps(ops, poly, ops.add(x, y), n) == ops.add(Steps(ops, poly, x, n), Steps(ops, poly, y, n))
    decreases n
  {
    if n > 0 {
      var x', y' := ops.shift(x), ops.shift(y);
      assert ops.add(ops.add(x', y'), poly) == ops.add(ops.add(x', poly), y') == ops.add(x', ops.add(y', poly));
      assert ops.add(ops.add(x', poly), ops.add(y', poly)) == ops.add(x', y');
      assert Step(ops, poly, ops.add(x, y)) == ops.add(Step(ops, poly, x), Step(ops, poly, y));
      StepsLinear(ops, poly, Step(ops, poly, x), Step(ops, poly, y), n - 1);
    }
  }

  /** As long as only zeros drop out, taking steps is shifting. */
  lemma {:induction false} StepsShift<W>(ops: WordOps<W>, poly: W, x: W, n: nat)
    requires forall k: nat :: k < n ==> !Bit(ops, x, k)
    ensures Steps(ops, poly, x, n) == ShiftBy(ops, x, n)
    decreases n
  {
    if n > 0 {
      assert !Bit(ops, x, 0);
      forall k: nat | k < n - 1
        ensures !Bit(ops, ops.shift(x), k)
      {
        assert Bit(ops, x, k + 1) == Bit(ops, ops.shift(x), k);
      }
      StepsShift(ops, poly, ops.shift(x), n - 1);
    }
  }

  /** A step of the reflected register is a shift register step fed with a zero. */
  lemma StepIsFeed<W(!new)>(ops: WordOps<W>, poly: W, x: W, width: nat)
    requires Lawful(ops) && width > 0 && Fits(ops, x, width)
    ensures WordBits(ops, Step(ops, poly, x), width)
         == Feed(WordBits(ops, poly, width), WordBits(ops, x, width), false)
  {
    var reg := WordBits(ops, x, width);
    forall k: nat | k < width
      ensures ShiftOut(reg)[k] == Bit(ops, ops.shift(x), k)
    {
      assert Bit(ops, x, k + 1) == Bit(ops, ops.shift(x), k);
    }
    assert WordBits(ops, ops.shift(x), width) == ShiftOut(reg);
    WordBitsAdd(ops, ops.shift(x), poly, width);
    assert reg[0] == ops.low(x);
  }

  lemma {:induction false} StepsAreFeedAll<W(!new)>(ops: WordOps<W>, poly: W, x: W, width: nat, n: nat)
    requires Lawful(ops) && width > 0 && Fits(ops, poly, width) && Fits(ops, x, width)
    ensures WordBits(ops, Steps(ops, poly, x, n), width)
         == FeedAll(WordBits(ops, poly, width), WordBits(ops, x, width), Zeros(n))
    ensures Fits(ops, Steps(ops, poly, x, n), width)
    decreases n
  {
    if n > 0 {
      StepIsFeed(ops, poly, x, width);
      StepFits(ops, poly, x, width);
      StepsAreFeedAll(ops, poly, Step(ops, poly, x), width, n - 1);
      assert Zeros(n)[1..] == Zeros(n - 1);
    }
  }

  /** Adding n message bits to the register first and then taking n steps is feeding the bits one by one. */
  lemma AddThenStep<W(!new)>(ops: WordOps<W>, poly: W, x: W, m: W, width: nat, n: nat)
    requires Lawful(ops) && n <= width && width > 0
    requires Fits(ops, poly, width) && Fits(ops, x, width) && Fits(ops, m, n)
    ensures WordBits(ops, Steps(ops, poly, ops.add(x, m), n), width)
         == FeedAll(WordBits(ops, poly, width), WordBits(ops, x, width), WordBits(ops, m, n))
    ensures Fits(ops, Steps(ops, poly, ops.add(x, m), n), width)
  {
    var y := ops.add(x, m);
    forall j: nat | width <= j
      ensures !Bit(ops, y, j)
    {
      BitAdd(ops, x, m, j);
    }
    StepsAreFeedAll(ops, poly, y, width, n);
    WordBitsAdd(ops, x, m, width);
    assert WordBits(ops, m, width) == WordBits(ops, m, n) + Zeros(width - n);
    FeedUpFront(WordBits(ops, poly, width), WordBits(ops, x, width), WordBits(ops, m, n));
  }
}
