/**
 The arithmetic of the TIMERs: a counter of the 16 MHz clock divided by 2^PRESCALER, wrapping at a width of 8, 16, 24
 or 32 bits, of which the model only keeps the time, in whole microseconds, at which it was zero.
 */
module TimerTime {
  import opened Arithmetic

  const TICKS_PER_US: int := 16

  /** 2^PRESCALER; PRESCALER is at most 9. */
  function Divider(prescaler: nat): (d: int)
    requires prescaler <= 9
    ensures d > 0
    ensures if prescaler >= 4 then d % 16 == 0 && d >= 16 else 16 % d == 0 && d <= 8
  {
    [1, 2, 4, 8, 16, 32, 64, 128, 256, 512][prescaler]
  }

  /** The number of values of a counter; BITMODE selects it. */
  function Range(bitmode: nat): (r: int)
    ensures 256 <= r <= 0x1_0000_0000 && r % 256 == 0
  {
    if bitmode == 0 then 0x1_0000
    else if bitmode == 1 then 0x100
    else if bitmode == 2 then 0x100_0000
    else 0x1_0000_0000
  }

  function Pow2(n: nat): (p: int)
    ensures p > 0
  {
    if n == 0 then 1 else 2 * Pow2(n - 1)
  }

  /** PRESCALER divides by a power of two. */
  lemma DividerIs(prescaler: nat)
    requires prescaler <= 9
    ensures Divider(prescaler) == Pow2(prescaler)
  {
    FirstPowers();
  }

  lemma FirstPowers()
    ensures Pow2(0) == 1 && Pow2(1) == 2 && Pow2(2) == 4 && Pow2(3) == 8 && Pow2(4) == 16 && Pow2(5) == 32
    ensures Pow2(6) == 64 && Pow2(7) == 128 && Pow2(8) == 256 && Pow2(9) == 512
  {
    assert Pow2(4) == 2 * Pow2(3);
    assert Pow2(8) == 2 * Pow2(7);
  }

  lemma {:induction false} PowersAdd(m: nat, n: nat)
    ensures Pow2(m + n) == Pow2(m) * Pow2(n)
  {
    if m > 0 {
      PowersAdd(m - 1, n);
    }
  }

  /** BITMODE selects a width of 16, 8, 24 or 32 bits. */
  lemma RangeIs(bitmode: nat)
    requires bitmode <= 3
    ensures Range(bitmode) == Pow2([16, 8, 24, 32][bitmode])
  {
    FirstPowers();
    PowersAdd(8, 8);
    PowersAdd(16, 8);
    PowersAdd(16, 16);
  }

  /** The `n`-th tick of a counter that was zero at `start`, a tick being `d` sixteenths of a microsecond long, falls
      into the microsecond that starts at `t`. */
  predicate TicksIn(n: int, start: int, d: int, t: int) {
    16 * (t - start) <= n * d < 16 * (t - start + 1)
  }

  /** The `n`-th tick has come by the time `t`, and the next one has not. */
  predicate LastTick(n: int, start: int, d: int, t: int) {
    n * d <= 16 * (t - start) < (n + 1) * d
  }

  function CounterToTime(c: int, d: int): int {
    c * d / TICKS_PER_US
  }

  lemma TimeOfTick(n: int, start: int, d: int, t: int)
    ensures TicksIn(n, start, d, t) <==> t == start + CounterToTime(n, d)
  {
  }

  lemma TicksUntil(start: int, d: int, t: int)
    requires d > 0
    ensures LastTick(TimeToCounter(t - start, d), start, d, t)
    ensures forall n :: LastTick(n, start, d, t) ==> n == TimeToCounter(t - start, d)
  {
    var x := 16 * (t - start);
    var q := TimeToCounter(t - start, d);
    assert x == d * (x / d) + x % d && (q + 1) * d == q * d + d && q * d == d * q;
    forall n | LastTick(n, start, d, t)
      ensures n == q
    {
      assert (n + 1) * d == n * d + d;
      DivIs(x, d, n);
    }
  }

  /** Ticks of the free-running counter after a time `x`. */
  function TimeToCounter(x: int, d: int): int
    requires d > 0
  {
    TICKS_PER_US * x / d
  }

  /** The time of one wrap; it is always a whole number of microseconds. */
  function WrapTime(range: int, d: int): int {
    CounterToTime(range, d)
  }

  lemma WrapTimeIsExact(range: int, d: int)
    requires range % 16 == 0 && range >= 16 && d > 0
    ensures TICKS_PER_US * WrapTime(range, d) == range * d
    ensures WrapTime(range, d) >= d
  {
    var r := range / 16;
    assert range * d == 16 * (r * d) by {
      assert range == 16 * r;
    }
    assert r * d >= d by {
      Product(r - 1, d);
      assert (r - 1) * d == r * d - d;
    }
  }

  /** The first time after `now` at which a counter that was zero at `start` becomes `c`, modulo its range. */
  function NextMatch(start: int, c: int, range: int, d: int, now: int): int
    requires WrapTime(range, d) > 0
  {
    NextAfter(start + CounterToTime(c, d), WrapTime(range, d), now)
  }

  /** The counter becomes `c`, for the (k + 1)-th time, during the microsecond that starts at `t`. */
  predicate ReachesAt(t: int, start: int, c: int, range: int, d: int, k: int) {
    TicksIn(c + k * range, start, d, t)
  }

  lemma WrapsAdd(c: int, range: int, d: int, k: int)
    requires range % 16 == 0 && range >= 16 && d > 0
    ensures CounterToTime(c + k * range, d) == CounterToTime(c, d) + k * WrapTime(range, d)
  {
    WrapTimeIsExact(range, d);
    var w := WrapTime(range, d);
    calc {
      (c + k * range) * d;
      c * d + k * range * d;
      { assert k * range * d == k * (range * d); }
      c * d + k * (16 * w);
      { assert k * (16 * w) == 16 * (k * w); }
      c * d + 16 * (k * w);
    }
    DivAdds(c * d, k * w);
  }

  lemma DivAdds(x: int, y: int)
    ensures (x + 16 * y) / 16 == x / 16 + y
  {
  }

  /** What the schedule must satisfy: the counter reaches the value then, and at no time in between. */
  ghost predicate IsNextMatch(t: int, start: int, c: int, range: int, d: int, now: int) {
    && now < t
    && (exists k :: ReachesAt(t, start, c, range, d, k))
    && (forall s, k :: now < s < t ==> !ReachesAt(s, start, c, range, d, k))
  }

  lemma NextMatchIsAfter(start: int, c: int, range: int, d: int, now: int) returns (k: int)
    requires range % 16 == 0 && range >= 16 && d > 0 && WrapTime(range, d) > 0
    ensures var m := NextMatch(start, c, range, d, now);
      && m == start + CounterToTime(c, d) + k * WrapTime(range, d) && now < m <= now + WrapTime(range, d)
      && ReachesAt(m, start, c, range, d, k)
  {
    k := NextAfterIs(start + CounterToTime(c, d), WrapTime(range, d), now);
    WrapsAdd(c, range, d, k);
    TimeOfTick(c + k * range, start, d, NextMatch(start, c, range, d, now));
  }

  lemma NextMatchIsUnique(m: int, start: int, c: int, range: int, d: int, now: int, k: int)
    requires range % 16 == 0 && range >= 16 && d > 0 && WrapTime(range, d) > 0
    requires m == start + CounterToTime(c, d) + k * WrapTime(range, d) && now < m <= now + WrapTime(range, d)
    ensures m == NextMatch(start, c, range, d, now)
  {
    NextAfterIsUnique(m, start + CounterToTime(c, d), WrapTime(range, d), now, k);
  }

  /** For every prescaler and width, the calculated time is the smallest one after `now` at which the counter reaches
      the value. */
  lemma NextMatchIsLeast(start: int, c: int, range: int, d: int, now: int)
    requires range % 16 == 0 && range >= 16 && d > 0 && WrapTime(range, d) > 0
    ensures IsNextMatch(NextMatch(start, c, range, d, now), start, c, range, d, now)
  {
    var m := NextMatch(start, c, range, d, now);
    var j := NextMatchIsAfter(start, c, range, d, now);
    forall s, k | now < s < m
      ensures !ReachesAt(s, start, c, range, d, k)
    {
      if ReachesAt(s, start, c, range, d, k) {
        WrapsAdd(c, range, d, k);
        TimeOfTick(c + k * range, start, d, s);
        NoneBetween(start + CounterToTime(c, d), WrapTime(range, d), now, s, k);
      }
    }
  }

  /** A slow counter, at most one tick per microsecond: then it reads exactly the value, and one microsecond earlier
      one less. */
  lemma SlowMatchIsExact(t: int, start: int, c: int, range: int, d: int, k: int)
    requires d >= 16 && d % 16 == 0 && ReachesAt(t, start, c, range, d, k)
    ensures TimeToCounter(t - start, d) == c + k * range && TimeToCounter(t - 1 - start, d) == c + k * range - 1
  {
    var n := c + k * range;
    assert n * d == 16 * (n * (d / 16)) by {
      assert d == 16 * (d / 16);
    }
    DivIs(16 * (t - start), d, n);
    assert (n - 1) * d == n * d - d;
    DivIs(16 * (t - 1 - start), d, n - 1);
  }

  /** A fast counter, several ticks per microsecond: it reaches the value during that microsecond. */
  lemma FastMatchIsWithin(t: int, start: int, c: int, range: int, d: int, k: int)
    requires 1 <= d <= 16 && 16 % d == 0 && ReachesAt(t, start, c, range, d, k)
    ensures TimeToCounter(t - start, d) <= c + k * range < TimeToCounter(t + 1 - start, d)
  {
    var n, q, x := c + k * range, 16 / d, t - start;
    assert 16 * x == (q * x) * d by {
      assert 16 == q * d;
    }
    assert 16 * (x + 1) == (q * (x + 1)) * d by {
      assert 16 == q * d;
    }
    DivIs(16 * x, d, q * x);
    DivIs(16 * (x + 1), d, q * (x + 1));
    assert 16 * x <= n * d < 16 * x + 16;
    Multiples(n, q * x, d);
    Multiples(n, q * (x + 1), d);
  }

  /** What COUNTER reads at the calculated time. */
  lemma NextMatchReads(start: int, c: int, bitmode: nat, prescaler: nat, now: int) returns (k: int)
    requires prescaler <= 9 && 0 <= c < Range(bitmode)
    ensures WrapTime(Range(bitmode), Divider(prescaler)) > 0
    ensures var d, r := Divider(prescaler), Range(bitmode);
      var x := NextMatch(start, c, r, d, now) - start;
      if prescaler >= 4
      then TimeToCounter(x, d) % r == c && TimeToCounter(x - 1, d) % r == (c - 1) % r
      else TimeToCounter(x, d) <= c + k * r < TimeToCounter(x + 1, d)
  {
    var d, r := Divider(prescaler), Range(bitmode);
    WrapTimeIsExact(r, d);
    k := NextMatchIsAfter(start, c, r, d, now);
    var m := NextMatch(start, c, r, d, now);
    if prescaler >= 4 {
      SlowMatchIsExact(m, start, c, r, d, k);
      ModWraps(c, r, k);
      ModWraps(c - 1, r, k);
    } else {
      FastMatchIsWithin(m, start, c, r, d, k);
    }
  }

  /** While the calculated time is not reached, calculating it again changes nothing. */
  lemma NextMatchStable(start: int, c: int, range: int, d: int, now: int, later: int)
    requires range % 16 == 0 && range >= 16 && d > 0 && WrapTime(range, d) > 0
    requires now <= later < NextMatch(start, c, range, d, now)
    ensures NextMatch(start, c, range, d, later) == NextMatch(start, c, range, d, now)
  {
    var k := NextMatchIsAfter(start, c, range, d, now);
    NextMatchIsUnique(NextMatch(start, c, range, d, now), start, c, range, d, later, k);
  }

  /** Reading the count of a time and turning it back into a time never goes beyond it. */
  lemma CountAndBack(x: nat, d: int)
    requires d > 0
    ensures 0 <= CounterToTime(TimeToCounter(x, d), d) <= x
  {
    var c := TimeToCounter(x, d);
    assert c * d <= 16 * x by {
      assert 16 * x == d * (16 * x / d) + 16 * x % d;
      assert d * c == c * d;
    }
    Product(c, d);
  }

  /** So does the count that is left of it in 32 bits. */
  lemma TruncatedCountAndBack(x: nat, d: int, range: int)
    requires d > 0 && range > 0
    ensures 0 <= TimeToCounter(x, d) % range < range
    ensures 0 <= CounterToTime(TimeToCounter(x, d) % range, d) <= x
  {
    CountAndBack(x, d);
    var c := TimeToCounter(x, d);
    assert 0 <= c % range <= c;
    Multiples(c % range, c, d);
    Product(c % range, d);
  }
}
