/**
 The arithmetic of the RTC. The model has no ticking counter: it keeps the time at which the counter was, or would
 have been, zero, and calculates from it both the value of COUNTER and the times at which it will match.

 Times called "sub" are in 1/512 us, in which the 32768 Hz clock has a period of a whole number of units; all other
 times are in microseconds.
 */
module RtcTime {
  import opened Arithmetic

  const SUB_US: int := 512
  const LF_CLOCK_PERIOD: int := 15625
  const COUNTER_RANGE: int := 0x100_0000
  const TRIGGER_OVERFLOW_VALUE: nat := 0xFF_FFF0

  /** The period of a prescaled tick. */
  function Period(prescaler: nat): (p: int)
    ensures p >= LF_CLOCK_PERIOD
  {
    LF_CLOCK_PERIOD * (prescaler + 1)
  }

  /** PRESCALER divides 32768 Hz: in as many seconds as it divides by, the counter ticks 32768 times. */
  lemma TicksPerSecond(origin: int, prescaler: nat, t: int)
    ensures Ticks(origin, Period(prescaler), t + 1_000_000 * (prescaler + 1))
         == Ticks(origin, Period(prescaler), t) + 32768
  {
    var p, x := Period(prescaler), SUB_US * t - origin;
    assert x == p * (x / p) + x % p;
    assert p * (x / p) == (x / p) * p;
    assert (x / p + 32768) * p == (x / p) * p + 32768 * p;
    DivIs(x + 32768 * p, p, x / p + 32768);
  }

  /** The time of one wrap of COUNTER. */
  function Wrap(p: int): int {
    COUNTER_RANGE * p
  }

  /** Conversion to microseconds, rounding up: an event is never registered before it happens. */
  function CeilUs(sub: int): int {
    sub / SUB_US + if sub % SUB_US != 0 then 1 else 0
  }

  // ---------- The counter that ticks ----------

  /** How many ticks have passed, since the counter was zero at `origin`, when the clock reads `t` us. */
  function Ticks(origin: int, p: int, t: int): int
    requires p > 0
  {
    (SUB_US * t - origin) / p
  }

  /** What COUNTER reads when the clock reads `t` us. */
  function Counter(origin: int, p: int, t: int): int
    requires p > 0
  {
    Ticks(origin, p, t) % COUNTER_RANGE
  }

  /** During the microsecond that ends at `t`, the counter ticks and becomes `c`. */
  predicate TicksInto(origin: int, p: int, c: int, t: int)
    requires p > 0
  {
    Ticks(origin, p, t) != Ticks(origin, p, t - 1) && (Ticks(origin, p, t) - c) % COUNTER_RANGE == 0
  }

  // ---------- The calculated match ----------

  /** The first time after `now` at which a counter with this origin becomes `c`. */
  function NextMatch(origin: int, c: int, p: int, now: int): int
    requires p > 0
  {
    NextAfter(origin + c * p, Wrap(p), now)
  }

  /** `m` is a match: `c` ticks, and some number `k` of wraps, after the origin. */
  predicate IsMatch(m: int, origin: int, c: int, p: int, k: int) {
    m == origin + c * p + k * Wrap(p)
  }

  /** `NextMatch` is a match after `now`, and there is none in between. */
  lemma NextMatchIsNext(origin: int, c: int, p: int, now: int) returns (k: int)
    requires p > 0
    ensures IsMatch(NextMatch(origin, c, p, now), origin, c, p, k)
    ensures now < NextMatch(origin, c, p, now) <= now + Wrap(p)
  {
    k := NextAfterIs(origin + c * p, Wrap(p), now);
  }

  lemma NextMatchIsUnique(m: int, origin: int, c: int, p: int, now: int, k: int)
    requires p > 0 && IsMatch(m, origin, c, p, k) && now < m <= now + Wrap(p)
    ensures m == NextMatch(origin, c, p, now)
  {
    NextAfterIsUnique(m, origin + c * p, Wrap(p), now, k);
  }

  lemma CeilUsIs(sub: int)
    ensures SUB_US * (CeilUs(sub) - 1) < sub <= SUB_US * CeilUs(sub)
  {
  }

  /** The `n`-th tick lies in the microsecond before its time rounded up. */
  lemma TickAt(origin: int, p: int, n: int)
    requires p >= LF_CLOCK_PERIOD
    ensures var t := CeilUs(origin + n * p); Ticks(origin, p, t) == n && Ticks(origin, p, t - 1) == n - 1
  {
    var m := origin + n * p;
    CeilUsIs(m);
    assert (n - 1) * p == n * p - p;
    DivIs(SUB_US * CeilUs(m) - origin, p, n);
    DivIs(SUB_US * (CeilUs(m) - 1) - origin, p, n - 1);
  }

  /** And no other microsecond has it. */
  lemma OnlyTickAt(origin: int, p: int, n: int, t: int)
    requires p >= LF_CLOCK_PERIOD && Ticks(origin, p, t) == n && Ticks(origin, p, t - 1) != n
    ensures t == CeilUs(origin + n * p)
  {
    var x := SUB_US * t - origin;
    assert n * p <= x < n * p + p by {
      assert x == p * (x / p) + x % p;
      assert p * (x / p) == n * p;
    }
    if x - SUB_US >= n * p {
      DivIs(x - SUB_US, p, n);
    }
    CeilUsIs(origin + n * p);
  }

  lemma WrapsAreTicks(origin: int, c: int, p: int, k: int)
    ensures origin + (c + k * COUNTER_RANGE) * p == origin + c * p + k * Wrap(p)
  {
    assert (c + k * COUNTER_RANGE) * p == c * p + k * COUNTER_RANGE * p;
  }

  /** A tick into `c` is a match, at its time rounded up. */
  lemma TicksIntoIsMatch(origin: int, p: int, c: int, t: int) returns (m: int, k: int)
    requires p >= LF_CLOCK_PERIOD && TicksInto(origin, p, c, t)
    ensures IsMatch(m, origin, c, p, k) && t == CeilUs(m)
  {
    var n := Ticks(origin, p, t);
    k := (n - c) / COUNTER_RANGE;
    m := origin + n * p;
    OnlyTickAt(origin, p, n, t);
    WrapsAreTicks(origin, c, p, k);
  }

  lemma MatchIsTicksInto(origin: int, p: int, c: int, m: int, k: int)
    requires p >= LF_CLOCK_PERIOD && IsMatch(m, origin, c, p, k)
    ensures TicksInto(origin, p, c, CeilUs(m))
    ensures Ticks(origin, p, CeilUs(m)) == c + k * COUNTER_RANGE
    ensures Ticks(origin, p, CeilUs(m) - 1) == c + k * COUNTER_RANGE - 1
  {
    WrapsAreTicks(origin, c, p, k);
    TickAt(origin, p, c + k * COUNTER_RANGE);
  }

  // ---------- The calculated matches are those of the counter that ticks ----------

  /** The calculated time is the first microsecond after `now` in which the ticking counter becomes `c`: then COUNTER
      reads `c`, and one microsecond before it read one less. */
  lemma NextMatchIsFirstTick(origin: int, c: int, p: int, now: int)
    requires p >= LF_CLOCK_PERIOD
    ensures var t := CeilUs(NextMatch(origin, c, p, SUB_US * now));
      && t > now && TicksInto(origin, p, c, t)
      && Counter(origin, p, t) == c % COUNTER_RANGE && Counter(origin, p, t - 1) == (c - 1) % COUNTER_RANGE
      && forall s :: now < s < t ==> !TicksInto(origin, p, c, s)
  {
    var m := NextMatch(origin, c, p, SUB_US * now);
    var k := NextMatchIsNext(origin, c, p, SUB_US * now);
    var t := CeilUs(m);
    CeilUsIs(m);
    MatchIsTicksInto(origin, p, c, m, k);
    ModWraps(c, COUNTER_RANGE, k);
    ModWraps(c - 1, COUNTER_RANGE, k);
    forall s | now < s < t
      ensures !TicksInto(origin, p, c, s)
    {
      if TicksInto(origin, p, c, s) {
        var n, j := TicksIntoIsMatch(origin, p, c, s);
        CeilUsIs(n);
        NoMatchBetween(origin, c, p, SUB_US * now, n, j);
      }
    }
  }

  lemma NoMatchBetween(origin: int, c: int, p: int, now: int, n: int, j: int)
    requires p > 0 && IsMatch(n, origin, c, p, j) && now < n
    ensures NextMatch(origin, c, p, now) <= n
  {
    NoneBetween(origin + c * p, Wrap(p), now, n, j);
  }

  /** While the calculated time is not reached, calculating it again changes nothing. */
  lemma NextMatchStable(origin: int, c: int, p: int, now: int, later: int)
    requires p > 0 && now <= later < CeilUs(NextMatch(origin, c, p, SUB_US * now))
    ensures NextMatch(origin, c, p, SUB_US * later) == NextMatch(origin, c, p, SUB_US * now)
  {
    var m := NextMatch(origin, c, p, SUB_US * now);
    var k := NextMatchIsNext(origin, c, p, SUB_US * now);
    CeilUsIs(m);
    NextMatchIsUnique(m, origin, c, p, SUB_US * later, k);
  }

  /** When it is reached, the next one is exactly one wrap later: the fraction of a microsecond is not lost. */
  lemma NextMatchAfterMatch(origin: int, c: int, p: int, now: int)
    requires p >= LF_CLOCK_PERIOD
    ensures var m := NextMatch(origin, c, p, SUB_US * now);
      NextMatch(origin, c, p, SUB_US * CeilUs(m)) == m + Wrap(p)
  {
    var m := NextMatch(origin, c, p, SUB_US * now);
    var k := NextMatchIsNext(origin, c, p, SUB_US * now);
    CeilUsIs(m);
    assert (k + 1) * Wrap(p) == k * Wrap(p) + Wrap(p);
    NextMatchIsUnique(m + Wrap(p), origin, c, p, SUB_US * CeilUs(m), k + 1);
  }

  /** Moving the origin by whole wraps, as every overflow does, changes no reading of COUNTER and no match. */
  lemma RebasedOrigin(origin: int, p: int, k: int, c: int, t: int)
    requires p > 0
    ensures Counter(origin + k * Wrap(p), p, t) == Counter(origin, p, t)
    ensures NextMatch(origin + k * Wrap(p), c, p, SUB_US * t) == NextMatch(origin, c, p, SUB_US * t)
  {
    var x := SUB_US * t - origin;
    var q := x / p;
    assert x == p * q + x % p;
    assert (q - k * COUNTER_RANGE) * p == q * p - k * COUNTER_RANGE * p;
    assert k * COUNTER_RANGE * p == k * Wrap(p);
    DivIs(x - k * Wrap(p), p, q - k * COUNTER_RANGE);
    ModWraps(q, COUNTER_RANGE, -k);
    var j := NextMatchIsNext(origin, c, p, SUB_US * t);
    assert (j - k) * Wrap(p) == j * Wrap(p) - k * Wrap(p);
    NextMatchIsUnique(NextMatch(origin, c, p, SUB_US * t), origin + k * Wrap(p), c, p, SUB_US * t, j - k);
  }

  // ---------- Setting the counter ----------

  function LastLfTick(firstTick: int, now: int): int {
    (SUB_US * now - firstTick) / LF_CLOCK_PERIOD * LF_CLOCK_PERIOD + firstTick
  }

  /** A counter whose origin is `v` ticks before the last tick of the 32768 Hz clock, which ticks every 15625 / 512 us
      from its first tick on, reads `v` now. */
  lemma OriginSetsCounter(firstTick: int, now: int, v: nat, p: int)
    requires p >= LF_CLOCK_PERIOD && v < COUNTER_RANGE
    ensures var last := LastLfTick(firstTick, now);
      && (last - firstTick) % 15625 == 0 && last <= 512 * now < last + 15625
      && Ticks(last - v * p, p, now) == v && Counter(last - v * p, p, now) == v
  {
    DivIs(SUB_US * now - (LastLfTick(firstTick, now) - v * p), p, v);
  }

  /** Its next overflow comes the remaining number of ticks after that last tick. */
  lemma OverflowAfterSet(firstTick: int, now: int, v: nat, p: int)
    requires p >= LF_CLOCK_PERIOD && v < COUNTER_RANGE
    ensures var last := LastLfTick(firstTick, now);
      NextMatch(last - v * p, COUNTER_RANGE, p, SUB_US * now) == last + (COUNTER_RANGE - v) * p
  {
    var last := LastLfTick(firstTick, now);
    OriginSetsCounter(firstTick, now, v, p);
    assert (COUNTER_RANGE - v) * p == COUNTER_RANGE * p - v * p;
    Multiples(v, COUNTER_RANGE, p);
    Multiples(0, v, p);
    hide NextMatch, LastLfTick, Ticks, Counter;
    NextMatchIsUnique(last + (COUNTER_RANGE - v) * p, last - v * p, COUNTER_RANGE, p, SUB_US * now, 0);
  }

  /** An overflow stores its time as the origin after its event, over the origin that a task may have set meanwhile so
      that COUNTER reads `v`. COUNTER then reads zero, and the origin is the one that was set exactly when `v` is zero
      and the overflow was a tick of the 32768 Hz clock. */
  lemma OverflowStoresOrigin(m: int, firstTick: int, v: nat, p: int)
    requires p >= LF_CLOCK_PERIOD && v < COUNTER_RANGE
    ensures var t := CeilUs(m);
      && Counter(m, p, t) == 0
      && (m == LastLfTick(firstTick, t) - v * p <==> v == 0 && (m - firstTick) % LF_CLOCK_PERIOD == 0)
  {
    var t := CeilUs(m);
    CeilUsIs(m);
    DivIs(SUB_US * t - m, p, 0);
    OriginSetsCounter(firstTick, t, v, p);
    Multiples(0, v, p);
    var j := (m - firstTick) / LF_CLOCK_PERIOD;
    if (m - firstTick) % LF_CLOCK_PERIOD == 0 {
      DivIs(SUB_US * t - firstTick, LF_CLOCK_PERIOD, j);
    }
  }
}
