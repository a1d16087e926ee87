/**
 Polynomials over GF(2) as bit strings, most significant coefficient first.

 Two ways to reduce a message modulo a generator polynomial are defined here: the shift register that
 consumes one message bit per step, and schoolbook long division of the padded message. The generator is
 given by its low-order coefficients `poly`; its leading term x^|poly| is implicit.
 */
module Gf2 {

  type Bits = seq<bool>

  function Zeros(n: nat): (z: Bits)
    ensures |z| == n && forall k :: 0 <= k < n ==> !z[k]
  {
    seq(n, _ => false)
  }

  /** Polynomial addition of two equally long bit strings. */
  function Xor(a: Bits, b: Bits): (c: Bits)
    requires |a| == |b|
    ensures |c| == |a| && forall k :: 0 <= k < |c| ==> c[k] == (a[k] != b[k])
  {
    seq(|a|, k requires 0 <= k < |a| => a[k] != b[k])
  }

  /** Multiplication by x modulo x^n: the leading coefficient drops out, a zero enters at the end. */
  function ShiftOut(a: Bits): (r: Bits)
    requires |a| > 0
    ensures |r| == |a|
  {
    a[1..] + [false]
  }

  /** One step of the shift register: the message bit is added to the outgoing coefficient, and if the sum is
      one the generator is added to the shifted register. */
  function Feed(poly: Bits, reg: Bits, bit: bool): (r: Bits)
    requires |reg| == |poly| > 0
    ensures |r| == |poly|
  {
    if reg[0] != bit then Xor(ShiftOut(reg), poly) else ShiftOut(reg)
  }

  function FeedAll(poly: Bits, reg: Bits, message: Bits): (r: Bits)
    requires |reg| == |poly| > 0
    ensures |r| == |poly|
    decreases |message|
  {
    if message == [] then reg else FeedAll(poly, Feed(poly, reg, message[0]), message[1..])
  }

  /** Schoolbook long division: while the dividend is longer than the remainder may be, cancel its leading term
      by subtracting the generator aligned with it. */
  function LongDivision(poly: Bits, dividend: Bits): (r: Bits)
    requires |dividend| >= |poly| > 0
    ensures |r| == |poly|
    decreases |dividend|
  {
    if |dividend| == |poly| then dividend
    else
      var rest := dividend[1..];
      LongDivision(poly, if dividend[0] then Xor(rest[..|poly|], poly) + rest[|poly|..] else rest)
  }

  /** The dividend whose remainder is the CRC: message * x^w + init * x^n, with w = |init| and n = |message|. */
  function Augmented(init: Bits, message: Bits): (a: Bits)
    ensures |a| == |init| + |message|
  {
    Xor(init + Zeros(|message|), message + Zeros(|init|))
  }

  /** The shift register computes the remainder of long division. */
  lemma {:induction false} RegisterIsLongDivision(poly: Bits, reg: Bits, message: Bits)
    requires |reg| == |poly| > 0
    ensures FeedAll(poly, reg, message) == LongDivision(poly, Augmented(reg, message))
    decreases |message|
  {
    var a := Augmented(reg, message);
    if message == [] {
      assert a == reg;
    } else {
      var next := Feed(poly, reg, message[0]);
      var rest := a[1..];
      var b := if a[0] then Xor(rest[..|poly|], poly) + rest[|poly|..] else rest;
      assert b == Augmented(next, message[1..]);
      RegisterIsLongDivision(poly, next, message[1..]);
    }
  }

  lemma {:induction false} FeedAllConcat(poly: Bits, reg: Bits, m: Bits, n: Bits)
    requires |reg| == |poly| > 0
    ensures FeedAll(poly, reg, m + n) == FeedAll(poly, FeedAll(poly, reg, m), n)
    decreases |m|
  {
    if m == [] {
      assert m + n == n;
    } else {
      assert (m + n)[1..] == m[1..] + n;
      FeedAllConcat(poly, Feed(poly, reg, m[0]), m[1..], n);
    }
  }

  /** Feeding is linear: the difference of two runs is the run on the differences. */
  lemma FeedLinear(poly: Bits, r: Bits, s: Bits, a: bool, b: bool)
    requires |r| == |s| == |poly| > 0
    ensures Xor(Feed(poly, r, a), Feed(poly, s, b)) == Feed(poly, Xor(r, s), a != b)
  {
    var x := Xor(r, s);
    assert Xor(ShiftOut(r), ShiftOut(s)) == ShiftOut(x);
  }

  /** A message no longer than the register may be added to it up front and zeros fed instead. */
  lemma {:induction false} FeedUpFront(poly: Bits, reg: Bits, message: Bits)
    requires |reg| == |poly| > 0 && |message| <= |poly|
    ensures FeedAll(poly, reg, message)
         == FeedAll(poly, Xor(reg, message + Zeros(|poly| - |message|)), Zeros(|message|))
    decreases |message|
  {
    var pad := Zeros(|poly| - |message|);
    var sum := Xor(reg, message + pad);
    if message == [] {
      assert sum == reg;
    } else {
      var rest, bit := message[1..], message[0];
      FeedLinear(poly, reg, message + pad, bit, bit);
      assert Feed(poly, message + pad, bit) == ShiftOut(message + pad) == rest + Zeros(|poly| - |rest|);
      FeedUpFront(poly, Feed(poly, reg, bit), rest);
      assert Zeros(|message|)[1..] == Zeros(|rest|);
    }
  }

  /** A register fed with its own contents, most significant coefficient first, ends up zero. */
  lemma {:induction false} OwnContentsGiveZero(poly: Bits, reg: Bits, k: nat)
    requires |reg| == |poly| > 0 && k <= |poly|
    requires forall j :: k <= j < |reg| ==> !reg[j]
    ensures FeedAll(poly, reg, reg[..k]) == Zeros(|poly|)
    decreases k
  {
    if k == 0 {
      assert reg == Zeros(|poly|);
    } else {
      var next := Feed(poly, reg, reg[0]);
      OwnContentsGiveZero(poly, next, k - 1);
      assert reg[..k][1..] == next[..k - 1];
    }
  }

  /** A message followed by its remainder leaves the register at zero. */
  lemma RemainderAppended(poly: Bits, reg: Bits, message: Bits, remainder: Bits)
    requires |reg| == |poly| > 0
    requires remainder == LongDivision(poly, Augmented(reg, message))
    ensures FeedAll(poly, reg, message + remainder) == Zeros(|poly|)
  {
    RegisterIsLongDivision(poly, reg, message);
    FeedAllConcat(poly, reg, message, remainder);
    assert remainder[..|poly|] == remainder;
    OwnContentsGiveZero(poly, remainder, |poly|);
  }

  /** A step can be undone when the generator has a constant term, so different registers stay different. */
  lemma FeedInjective(poly: Bits, r: Bits, s: Bits, bit: bool)
    requires |r| == |s| == |poly| > 0 && poly[|poly| - 1]
    requires Feed(poly, r, bit) == Feed(poly, s, bit)
    ensures r == s
  {
    var w := |poly|;
    var r', s' := Feed(poly, r, bit), Feed(poly, s, bit);
    assert r'[w - 1] == (r[0] != bit) && s'[w - 1] == (s[0] != bit);
    forall k | 0 <= k < w
      ensures r[k] == s[k]
    {
      if k > 0 {
        assert ShiftOut(r)[k - 1] == r[k] && ShiftOut(s)[k - 1] == s[k];
        assert r'[k - 1] == s'[k - 1];
      }
    }
  }

  lemma {:induction false} FeedAllInjective(poly: Bits, r: Bits, s: Bits, m: Bits)
    requires |r| == |s| == |poly| > 0 && poly[|poly| - 1]
    requires FeedAll(poly, r, m) == FeedAll(poly, s, m)
    ensures r == s
    decreases |m|
  {
    if m != [] {
      FeedAllInjective(poly, Feed(poly, r, m[0]), Feed(poly, s, m[0]), m[1..]);
      FeedInjective(poly, r, s, m[0]);
    }
  }

  lemma {:induction false} FeedAllLinear(poly: Bits, r: Bits, s: Bits, a: Bits, b: Bits)
    requires |r| == |s| == |poly| > 0 && |a| == |b|
    ensures Xor(FeedAll(poly, r, a), FeedAll(poly, s, b)) == FeedAll(poly, Xor(r, s), Xor(a, b))
    decreases |a|
  {
    if a != [] {
      FeedLinear(poly, r, s, a[0], b[0]);
      assert Xor(a, b)[1..] == Xor(a[1..], b[1..]);
      FeedAllLinear(poly, Feed(poly, r, a[0]), Feed(poly, s, b[0]), a[1..], b[1..]);
    }
  }

  /** The only register that an error pattern no longer than the register drives to zero is the pattern itself,
      left-aligned. */
  lemma {:induction false} OnlyOwnContentsGiveZero(poly: Bits, reg: Bits, e: Bits)
    requires |reg| == |poly| > 0 && poly[|poly| - 1] && |e| <= |poly|
    requires FeedAll(poly, reg, e) == Zeros(|poly|)
    ensures reg == e + Zeros(|poly| - |e|)
    decreases |e|
  {
    var w := |poly|;
    if e == [] {
      assert reg == e + Zeros(w);
    } else {
      var next := Feed(poly, reg, e[0]);
      OnlyOwnContentsGiveZero(poly, next, e[1..]);
      assert !next[w - 1];
      assert reg[0] == e[0];
      assert next == ShiftOut(reg);
      forall k | 0 <= k < w
        ensures reg[k] == (e + Zeros(w - |e|))[k]
      {
        if k > 0 {
          assert reg[k] == next[k - 1];
        }
      }
    }
  }

  /** From one register, two strings no longer than the register that lead to the same register are equal. */
  lemma ShortStringsInjective(poly: Bits, reg: Bits, a: Bits, b: Bits)
    requires |reg| == |poly| > 0 && poly[|poly| - 1]
    requires |a| == |b| <= |poly|
    requires FeedAll(poly, reg, a) == FeedAll(poly, reg, b)
    ensures a == b
  {
    var e := Xor(a, b);
    FeedAllLinear(poly, reg, reg, a, b);
    assert FeedAll(poly, Zeros(|poly|), e) == Zeros(|poly|) by {
      assert Xor(reg, reg) == Zeros(|poly|);
      assert Xor(FeedAll(poly, reg, a), FeedAll(poly, reg, b)) == Zeros(|poly|);
    }
    OnlyOwnContentsGiveZero(poly, Zeros(|poly|), e);
    forall k | 0 <= k < |a|
      ensures a[k] == b[k]
    {
      assert (e + Zeros(|poly| - |e|))[k] == e[k];
    }
  }

  lemma FeedAllConcat3(poly: Bits, reg: Bits, l: Bits, m: Bits, n: Bits)
    requires |reg| == |poly| > 0
    ensures FeedAll(poly, reg, l + m + n) == FeedAll(poly, FeedAll(poly, FeedAll(poly, reg, l), m), n)
  {
    FeedAllConcat(poly, reg, l + m, n);
    FeedAllConcat(poly, reg, l, m);
  }

  /** Burst errors: two messages that differ only inside a window no longer than the register leave different
      registers. */
  lemma BurstDetected(poly: Bits, reg: Bits, before: Bits, a: Bits, b: Bits, after: Bits)
    requires |reg| == |poly| > 0 && poly[|poly| - 1]
    requires |a| == |b| <= |poly| && a != b
    ensures FeedAll(poly, reg, before + a + after) != FeedAll(poly, reg, before + b + after)
  {
    var r := FeedAll(poly, reg, before);
    FeedAllConcat3(poly, reg, before, a, after);
    FeedAllConcat3(poly, reg, before, b, after);
    if FeedAll(poly, FeedAll(poly, r, a), after) == FeedAll(poly, FeedAll(poly, r, b), after) {
      FeedAllInjective(poly, FeedAll(poly, r, a), FeedAll(poly, r, b), after);
      ShortStringsInjective(poly, r, a, b);
    }
  }
}
