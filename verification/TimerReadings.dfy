/**
 What a program reads of a TIMER: counters captured, cleared, stopped and started again, and events counted. A tick is
 2^PRESCALER sixteenths of a microsecond; what is stated here is stated in ticks, not in the formulas of the code.
 */
module TimerReadings {
  import opened Common
  import opened Arithmetic
  import opened TimerTime
  import opened Timer

  // ---------- Clearing and capturing ----------

  /** A counter that is cleared reads zero then, whether it runs or not, and a running one ticks on from there: a
      capture at any later time gives the whole ticks since, modulo the width. */
  lemma ClearThenCapture(u: Unit, cleared: int, v: Unit, k: nat, now: int)
    requires WellFormed(u) && !u.countMode && Cleared(u, cleared).startT == v.startT && SameSetup(u, v)
    requires WellFormed(v) && k < |v.cc| && cleared <= now
    ensures Cleared(u, cleared).counter == 0
    ensures Reads(u, cleared, Captured(v, k, now).cc[k], now)
  {
    CountReads(v, cleared, now);
  }

  /** A reading that is asked for before the first wrap is the number of whole ticks itself. */
  lemma ReadsTicks(u: Unit, start: int, c: int, now: int)
    requires WellFormed(u) && start <= now && Reads(u, start, c, now)
    requires 16 * (now - start) < Range(u.bitmode) * Pow2(u.prescaler)
    ensures c == 16 * (now - start) / Pow2(u.prescaler)
  {
    var d, r := Pow2(u.prescaler), Range(u.bitmode);
    var j: nat :| LastTick(c + j * r, start, d, now);
    FirstWrap(c, j, r, d, 16 * (now - start));
  }

  lemma FirstWrap(c: nat, j: nat, r: int, d: int, x: int)
    requires d > 0 && c < r && x < r * d && (c + j * r) * d <= x < (c + j * r + 1) * d
    ensures c == x / d
  {
    assert (r - 1) * d == r * d - d;
    if j > 0 {
      Product(j - 1, r);
      assert (j - 1) * r == j * r - r;
      Multiples(c + j * r, r - 1, d);
    }
    assert (c + 1) * d == c * d + d;
    DivIs(x, d, c);
  }

  /** A running counter that is captured has its next COMPARE exactly one wrap after the tick that was read. */
  lemma CapturedMatchesNextWrap(u: Unit, k: nat, now: int) returns (tick: int)
    requires Armed(u, now, {}) && Live(u) && k < |u.cc|
    ensures var d, r := Pow2(u.prescaler), Range(u.bitmode);
      var c := Captured(u, k, now).cc[k];
      && (exists j: nat :: 16 * (tick - u.startT.value) == (c + j * r) * d)
      && tick <= now && 16 * (now - tick) < d && 0 <= c < r
      && Captured(u, k, now).ccTimers[k] == Some(tick + r * d / 16)
  {
    hide *;
    var c, j := CapturedIs(u, k, now);
    var d, r, start := Pow2(u.prescaler), Range(u.bitmode), u.startT.value;
    tick := TickBefore(c + j * r, start, d, now);
    NextWrap(c, j, start, r, d, tick, now);
  }

  lemma CapturedIs(u: Unit, k: nat, now: int) returns (c: int, j: nat)
    requires Armed(u, now, {}) && Live(u) && k < |u.cc|
    ensures WellFormed(u) && u.startT.Some?
    ensures var d, r, v := Pow2(u.prescaler), Range(u.bitmode), Captured(u, k, now);
      && d > 0 && (if d >= 16 then d % 16 == 0 else 16 % d == 0) && r % 16 == 0 && r >= 16 && WrapTime(r, d) > 0
      && k < |v.cc| && k < |v.ccTimers| && v.cc[k] == c && 0 <= c < r
      && LastTick(c + j * r, u.startT.value, d, now)
      && v.ccTimers[k] == Some(NextMatch(u.startT.value, c, r, d, now))
  {
    var d, r, start := D(u), R(u), u.startT.value;
    DividerIs(u.prescaler);
    WrapTimeIsExact(r, d);
    CountReads(u, start, now);
    hide TimeToCounter, NextMatch, WrapTime, CounterToTime;
    c := Captured(u, k, now).cc[k];
    j :| LastTick(c + j * r, start, d, now);
  }

  lemma TickBefore(n: int, start: int, d: int, now: int) returns (tick: int)
    requires d > 0 && (if d >= 16 then d % 16 == 0 else 16 % d == 0) && LastTick(n, start, d, now)
    ensures 16 * (tick - start) == n * d && tick <= now && 16 * (now - tick) < d
  {
    assert (n + 1) * d == n * d + d;
    if d >= 16 {
      SixteenTimes(n, d);
      tick := start + n * d / 16;
    } else {
      var q, x := 16 / d, now - start;
      assert 16 * x == (q * x) * d by {
        assert 16 == q * d;
      }
      DivIs(16 * x, d, q * x);
      DivIs(16 * x, d, n);
      tick := now;
    }
  }

  lemma NextWrap(c: int, j: int, start: int, r: int, d: int, tick: int, now: int)
    requires r % 16 == 0 && r >= 16 && d > 0 && 16 * (tick - start) == (c + j * r) * d
    requires tick <= now && 16 * (now - tick) < d
    ensures WrapTime(r, d) > 0 && NextMatch(start, c, r, d, now) == tick + r * d / 16
  {
    WrapTimeIsExact(r, d);
    var w := WrapTime(r, d);
    WrapsAdd(c, r, d, j);
    TimeOfTick(c + j * r, start, d, tick);
    assert (j + 1) * w == j * w + w;
    hide WrapTime, CounterToTime;
    NextMatchIsUnique(tick + w, start, c, r, d, now, j + 1);
    assert 16 * w == r * d;
  }

  // ---------- Stopping and starting ----------

  /** START goes on with the value of the counter: that many ticks after its origin is this microsecond. */
  lemma StartGoesOn(u: Unit, now: int)
    requires WellFormed(u) && !u.running && !u.countMode
    ensures var r := Started(u, now);
      r.running && r.startT.Some? && TicksIn(u.counter, r.startT.value, Pow2(u.prescaler), now)
  {
    DividerIs(u.prescaler);
    TimeOfTick(u.counter, now - CounterToTime(u.counter, D(u)), D(u), now);
  }

  /** STOP leaves the ticks since the origin, in 32 bits; and START, after any pause, goes on from exactly there: the
      last of these ticks comes right then, for a prescaler below 4 too, where a microsecond has several ticks. */
  lemma StopThenStart(u: Unit, stopped: int, now: int) returns (j: nat)
    requires Armed(u, stopped, {}) && Live(u)
    ensures var s := Stopped(u, stopped);
      var r := Started(s, now);
      && !s.running && 0 <= s.counter < 0x1_0000_0000
      && LastTick(s.counter + j * 0x1_0000_0000, u.startT.value, Pow2(u.prescaler), stopped)
      && r.running && r.startT.Some?
      && s.counter * Pow2(u.prescaler) == 16 * (now - r.startT.value)
  {
    var d, x := D(u), stopped - u.startT.value;
    var n, s := TimeToCounter(x, d), Stopped(u, stopped);
    DividerIs(u.prescaler);
    TicksUntil(u.startT.value, d, stopped);
    j := n / 0x1_0000_0000;
    assert n == j * 0x1_0000_0000 + n % 0x1_0000_0000;
    WholeMicroseconds(x, d, j);
  }

  lemma WholeMicroseconds(x: nat, d: int, j: int)
    requires d > 0 && (if d >= 16 then d % 16 == 0 else 16 % d == 0)
    ensures var v := TimeToCounter(x, d) - j * 0x1_0000_0000; v * d == 16 * (v * d / 16)
  {
    var v := TimeToCounter(x, d) - j * 0x1_0000_0000;
    if d >= 16 {
      SixteenTimes(v, d);
    } else {
      var q := 16 / d;
      assert 16 * x == (q * x) * d by {
        assert 16 == q * d;
      }
      DivIs(16 * x, d, q * x);
      hide TimeToCounter;
      SplitProduct(TimeToCounter(x, d), j, d);
      Sixteenths(v * d, x - j * (0x1000_0000 * d));
    }
  }

  lemma SplitProduct(n: int, j: int, d: int)
    ensures (n - j * 0x1_0000_0000) * d == n * d - 16 * (j * (0x1000_0000 * d))
  {
    assert j * 0x1_0000_0000 * d == 16 * (j * (0x1000_0000 * d));
  }

  lemma Sixteenths(x: int, n: int)
    requires x == 16 * n
    ensures x == 16 * (x / 16)
  {
  }

  lemma SixteenTimes(v: int, d: int)
    requires d % 16 == 0
    ensures v * d == 16 * (v * d / 16)
  {
    var e := d / 16;
    assert v * d == 16 * (v * e) by {
      assert d == 16 * e;
    }
  }

  // ---------- A compare and its shortcuts ----------

  /** COMPARE sets its event, and its shortcuts clear and stop the counter; nothing else about it changes. */
  lemma CompareClearsAndStops(u: Unit, k: nat, now: int)
    requires WellFormed(u) && k < |u.cc|
    ensures var r := Compared(u, k, now);
      && r.events == u.events[k := true] && r.cc == u.cc && SameSetup(u, r)
      && r.compares == u.compares[k := u.compares[k] + [now]]
      && r.running == (u.running && !u.stopShorts[k])
      && (u.running && u.stopShorts[k] ==> forall j :: 0 <= j < |u.cc| ==> r.ccTimers[j] == None)
      && (u.clearShorts[k] ==> r.counter == 0 && r.startT == if u.countMode then u.startT else Some(now))
      && (!u.clearShorts[k] ==> r.startT == u.startT && (u.stopShorts[k] || r.counter == u.counter))
      && (u.countMode && !u.clearShorts[k] ==> r.counter == u.counter)
  {
    assert TimeToCounter(0, D(u)) == 0;
  }

  // ---------- Counting ----------

  /** Some compare before `j` that the count `n` has reached clears the counter. */
  predicate ClearedBefore(u: Unit, n: int, j: nat)
    requires WellFormed(u)
  {
    exists i :: 0 <= i < j && i < |u.cc| && u.cc[i] % Range(u.bitmode) == n && u.clearShorts[i]
  }

  /** What compare `j` sees of the count `n`. */
  function Seen(u: Unit, n: int, j: nat): int
    requires WellFormed(u)
  {
    if ClearedBefore(u, n, j) then 0 else n
  }

  /** Behind the compares before `k`, which have been looked at. */
  ghost predicate Counting(before: Unit, n: int, u: Unit, k: nat, now: int) {
    && WellFormed(before) && WellFormed(u) && SameSetup(before, u) && u.countMode && u.cc == before.cc && k <= |u.cc|
    && u.counter == Seen(before, n, k)
    && (forall j :: 0 <= j < |u.cc| ==>
          u.compares[j] == before.compares[j]
            + if j < k && u.cc[j] % Range(u.bitmode) == Seen(before, n, j) then [now] else [])
  }

  lemma CountsOn(before: Unit, n: int, u: Unit, k: nat, now: int)
    requires Counting(before, n, u, k, now) && k < |u.cc|
    ensures Counting(before, n, if u.counter == u.cc[k] % R(u) then Compared(u, k, now) else u, k + 1, now)
  {
    ClearedByNext(before, n, k);
    CompareClearsAndStops(u, k, now);
    hide Compared, ClearedBefore, Range;
  }

  lemma ClearedByNext(u: Unit, n: int, k: nat)
    requires WellFormed(u) && k < |u.cc|
    ensures ClearedBefore(u, n, k + 1) <==>
      ClearedBefore(u, n, k) || (u.cc[k] % Range(u.bitmode) == n && u.clearShorts[k])
  {
  }

  lemma {:induction false} CountsToEnd(before: Unit, n: int, u: Unit, k: nat, now: int)
    requires Counting(before, n, u, k, now)
    ensures Counting(before, n, ComparedFrom(u, k, now), |u.cc|, now)
    decreases |u.cc| - k
  {
    hide Compared;
    if k < |u.cc| {
      CountsOn(before, n, u, k, now);
      CountsToEnd(before, n, if u.counter == u.cc[k] % R(u) then Compared(u, k, now) else u, k + 1, now);
    }
  }

  /** COUNT: one more, modulo the width. A compare is signalled once if it equals the count, or zero if an earlier
      compare that equals the count has cleared it; and then zero is what the counter is left with. */
  lemma CountsOneMore(u: Unit, now: int)
    requires WellFormed(u) && u.countMode
    ensures var n := (u.counter + 1) % Range(u.bitmode);
      var r := ComparedFrom(u.(counter := n), 0, now);
      && |r.compares| == |u.cc| && r.counter == Seen(u, n, |u.cc|)
      && forall j :: 0 <= j < |u.cc| ==>
           r.compares[j] == u.compares[j] + if u.cc[j] % Range(u.bitmode) == Seen(u, n, j) then [now] else []
  {
    var n := (u.counter + 1) % Range(u.bitmode);
    var v := u.(counter := n);
    assert Counting(u, n, v, 0, now);
    CountsToEnd(u, n, v, 0, now);
  }
}
