/**
 The RTC peripheral: three counters with four compare registers each, whose compare and overflow times are
 calculated ahead, and one timer set to the earliest of them.

 PRESCALER does not change while its counter runs and CC values fit in 24 bits, as the hardware demands. Events are
 recorded; tasks of the RTC that the PPI runs inside of the handler are the subject of `RtcReentry`.
 */
module Rtc {
  import opened Common
  import opened RtcTime
  import opened Arithmetic

  const N_RTC: nat := 3
  const N_CC: nat := 4
  const TIME_NEVER: int := 0xFFFF_FFFF_FFFF_FFFF

  /** One counter. `startT`, or minus `negative`, is the time of COUNTER = 0; `counter` is the value it was stopped at;
      `compares` and `overflows` are the times of the events so far. */
  datatype Unit = Unit(running: bool, prescaler: nat, cc: seq<nat>, ccTimers: seq<Option<int>>,
                       overflowTimer: Option<int>, overflowSub: int, startT: int, negative: int, counter: nat,
                       compares: seq<seq<int>>, overflows: seq<int>)

  const RESET_UNIT := Unit(false, 0, [0, 0, 0, 0], [None, None, None, None], None, TIME_NEVER, TIME_NEVER, 0, 0,
                           [[], [], [], []], [])

  function P(u: Unit): (p: int)
    ensures p >= LF_CLOCK_PERIOD
  {
    Period(u.prescaler)
  }

  function Origin(u: Unit): int {
    u.startT - u.negative
  }

  predicate WellFormed(u: Unit) {
    && |u.cc| == |u.ccTimers| == |u.compares| == N_CC
    && (forall k :: 0 <= k < N_CC ==> u.cc[k] < COUNTER_RANGE)
    && u.counter < COUNTER_RANGE
  }

  /** When a running counter becomes `c` next. */
  function MatchSub(u: Unit, c: int, now: int): int {
    NextMatch(Origin(u), c, P(u), SUB_US * now)
  }

  function MatchUs(u: Unit, c: int, now: int): Option<int> {
    if u.running then Some(CeilUs(MatchSub(u, c, now))) else None
  }

  /** The origin of a running counter has passed, and it is kept in one of its two variables. */
  predicate Started(u: Unit, now: int) {
    u.running ==>
      now >= 0 && Origin(u) <= SUB_US * now
      && u.startT >= 0 && u.negative >= 0 && (u.startT > 0 ==> u.negative == 0)
  }

  /** All times of a counter are those of its next matches. */
  predicate Armed(u: Unit, now: int) {
    && WellFormed(u) && Started(u, now)
    && (forall k :: 0 <= k < N_CC ==> u.ccTimers[k] == MatchUs(u, u.cc[k], now))
    && u.overflowTimer == MatchUs(u, COUNTER_RANGE, now)
    && (u.running ==> u.overflowSub == MatchSub(u, COUNTER_RANGE, now))
  }

  /** What COUNTER reads. */
  function ReadCounter(u: Unit, now: int): int {
    if u.running then Counter(Origin(u), P(u), now) else u.counter % COUNTER_RANGE
  }

  /** Nothing of a counter changed but its origin and its times. */
  predicate SameSetup(a: Unit, b: Unit) {
    a.running == b.running && a.prescaler == b.prescaler && a.cc == b.cc
  }

  lemma NoTimes()
    ensures Earliest(Times([])) == None
  {
  }

  /** The times of all running counters. */
  function Times(units: seq<Unit>): seq<Option<int>> {
    if units == [] then []
    else
      var u := units[|units| - 1];
      var others := Times(units[..|units| - 1]);
      if u.running then others + (u.ccTimers + [u.overflowTimer]) else others
  }

  lemma TimesWithOneMore(units: seq<Unit>, u: Unit)
    ensures Times(units + [u]) == if u.running then Times(units) + (u.ccTimers + [u.overflowTimer]) else Times(units)
  {
    assert (units + [u])[..|units|] == units;
  }

  lemma {:induction false} TimesOfIdle(units: seq<Unit>)
    requires forall u <- units :: !u.running
    ensures Times(units) == []
  {
    if units != [] {
      TimesOfIdle(units[..|units| - 1]);
    }
  }

  lemma {:induction false} TimesOfAll(units: seq<Unit>, r: nat)
    requires r < |units| && units[r].running
    ensures units[r].overflowTimer in Times(units)
    ensures forall k :: 0 <= k < |units[r].ccTimers| ==> units[r].ccTimers[k] in Times(units)
  {
    if r < |units| - 1 {
      TimesOfAll(units[..|units| - 1], r);
    }
  }

  // ---------- The events of a run ----------

  /** The times, up to `until`, of a match that comes at `m` and then every `w`. */
  function Matches(m: int, w: int, until: int): seq<int>
    requires w >= SUB_US
    decreases until - CeilUs(m)
  {
    if CeilUs(m) > until then [] else [CeilUs(m)] + Matches(m + w, w, until)
  }

  /** The n-th of them comes exactly n wraps after the first one, rounded up once: there is no drift. */
  lemma {:induction false} MatchesDoNotDrift(m: int, w: int, until: int, n: nat)
    requires w >= SUB_US
    ensures n < |Matches(m, w, until)| <==> CeilUs(m + n * w) <= until
    ensures n < |Matches(m, w, until)| ==> Matches(m, w, until)[n] == CeilUs(m + n * w)
    decreases n
  {
    if n > 0 {
      assert n * w == w + (n - 1) * w;
      if CeilUs(m) <= until {
        MatchesDoNotDrift(m + w, w, until, n - 1);
      } else {
        assert (n - 1) * w >= 0;
      }
    }
  }

  /** In terms of the origin: the n-th COMPARE comes at (origin + CC * P + (k + n) * 2^24 * P) / 512, rounded up, where
      the k-th wrap is the first that is not over. */
  lemma ComparesAt(u: Unit, c: nat, now: int, until: int, n: nat) returns (k: int)
    requires n < |Matches(MatchSub(u, c, now), Wrap(P(u)), until)|
    ensures Matches(MatchSub(u, c, now), Wrap(P(u)), until)[n] == CeilUs(Origin(u) + c * P(u) + (k + n) * Wrap(P(u)))
    ensures SUB_US * now < Origin(u) + c * P(u) + k * Wrap(P(u)) <= SUB_US * now + Wrap(P(u))
  {
    k := NextMatchIsNext(Origin(u), c, P(u), SUB_US * now);
    MatchesDoNotDrift(MatchSub(u, c, now), Wrap(P(u)), until, n);
    assert (k + n) * Wrap(P(u)) == k * Wrap(P(u)) + n * Wrap(P(u));
  }

  /** They are all the microseconds, after `now` and up to `until`, in which the ticking counter becomes `c`. */
  lemma {:induction false} MatchesAreTheTicks(u: Unit, c: nat, now: int, until: int, t: int)
    ensures t in Matches(MatchSub(u, c, now), Wrap(P(u)), until)
       <==> now < t <= until && TicksInto(Origin(u), P(u), c, t)
    decreases Max(0, until - now)
  {
    var m := MatchSub(u, c, now);
    var first := CeilUs(m);
    NextMatchIsFirstTick(Origin(u), c, P(u), now);
    NextMatchAfterMatch(Origin(u), c, P(u), now);
    if first <= until {
      MatchesAreTheTicks(u, c, first, until, t);
    }
  }

  // ---------- What the timer does to one counter ----------

  function FiredCc(u: Unit, cc: nat, now: int): (r: Unit)
    requires WellFormed(u) && cc < N_CC
    ensures WellFormed(r)
  {
    if u.ccTimers[cc] != Some(now) then u
    else u.(ccTimers := u.ccTimers[cc := MatchUs(u, u.cc[cc], now)],
            compares := u.compares[cc := u.compares[cc] + [now]])
  }

  function FiredCcs(u: Unit, n: nat, now: int): (r: Unit)
    requires WellFormed(u) && n <= N_CC
    ensures WellFormed(r) && r == u.(ccTimers := r.ccTimers, compares := r.compares)
    ensures forall k :: 0 <= k < N_CC ==>
      if k < n && u.ccTimers[k] == Some(now)
      then r.ccTimers[k] == MatchUs(u, u.cc[k], now) && r.compares[k] == u.compares[k] + [now]
      else r.ccTimers[k] == u.ccTimers[k] && r.compares[k] == u.compares[k]
  {
    if n == 0 then u else FiredCc(FiredCcs(u, n - 1, now), n - 1, now)
  }

  /** An overflow moves the origin to the time, in sub-microsecond units, at which it happened. */
  function FiredOverflow(u: Unit, now: int): (r: Unit)
    requires WellFormed(u)
    ensures WellFormed(r) && SameSetup(u, r)
  {
    if u.overflowTimer != Some(now) then u
    else u.(overflowTimer := MatchUs(u, COUNTER_RANGE, now), overflowSub := MatchSub(u, COUNTER_RANGE, now),
            overflows := u.overflows + [now], startT := u.overflowSub, negative := 0)
  }

  function Fired(u: Unit, now: int): (r: Unit)
    requires WellFormed(u)
    ensures WellFormed(r) && SameSetup(u, r)
  {
    if u.running then FiredOverflow(FiredCcs(u, N_CC, now), now) else u
  }

  /** No time of this counter lies before `t`. */
  predicate NothingBefore(u: Unit, t: int) {
    && (forall k :: 0 <= k < |u.ccTimers| && u.ccTimers[k].Some? ==> t <= u.ccTimers[k].value)
    && (u.overflowTimer.Some? ==> t <= u.overflowTimer.value)
  }

  /** The match of a value, when the timer expires at `t`: the old one, unless that is due, and then one wrap later. */
  lemma MatchAfterTimer(u: Unit, c: int, now: int, t: int)
    requires now < t <= CeilUs(MatchSub(u, c, now))
    ensures var m := MatchSub(u, c, now); MatchSub(u, c, t) == if CeilUs(m) == t then m + Wrap(P(u)) else m
  {
    if t == CeilUs(MatchSub(u, c, now)) {
      NextMatchAfterMatch(Origin(u), c, P(u), now);
    } else {
      NextMatchStable(Origin(u), c, P(u), now, t);
    }
  }

  /** The new origin after an overflow is a whole number of wraps after the old one. */
  lemma OriginAfterTimer(u: Unit, now: int, t: int) returns (k: int)
    requires Armed(u, now) && now < t && NothingBefore(u, t) && u.running
    ensures var r := Fired(u, t); Origin(r) == Origin(u) + k * Wrap(P(u)) && Started(r, t)
  {
    var m := MatchSub(u, COUNTER_RANGE, now);
    k := NextMatchIsNext(Origin(u), COUNTER_RANGE, P(u), SUB_US * now);
    CeilUsIs(m);
    k := k + 1;
    assert k * Wrap(P(u)) == (k - 1) * Wrap(P(u)) + Wrap(P(u));
    if u.overflowTimer != Some(t) {
      k := 0;
    }
  }

  lemma {:induction false} FiredStaysArmed(u: Unit, now: int, t: int)
    requires Armed(u, now) && now < t && NothingBefore(u, t)
    ensures Armed(Fired(u, t), t)
  {
    if u.running {
      var k := OriginAfterTimer(u, now, t);
      var r := Fired(u, t);
      forall j | 0 <= j < N_CC
        ensures r.ccTimers[j] == MatchUs(r, r.cc[j], t)
      {
        MatchAfterTimer(u, u.cc[j], now, t);
        RebasedOrigin(Origin(u), P(u), k, u.cc[j], t);
      }
      MatchAfterTimer(u, COUNTER_RANGE, now, t);
      RebasedOrigin(Origin(u), P(u), k, COUNTER_RANGE, t);
    }
  }

  /** The events still to come, in terms of the matches. */
  ghost predicate SameFuture(a: Unit, aNow: int, b: Unit, bNow: int, until: int)
    requires WellFormed(a) && WellFormed(b)
  {
    && SameSetup(a, b)
    && (forall t :: Counter(Origin(a), P(a), t) == Counter(Origin(b), P(b), t))
    && (forall k :: 0 <= k < N_CC ==>
      a.compares[k] + Matches(MatchSub(a, a.cc[k], aNow), Wrap(P(a)), until)
        == b.compares[k] + Matches(MatchSub(b, b.cc[k], bNow), Wrap(P(b)), until))
    && a.overflows + Matches(MatchSub(a, COUNTER_RANGE, aNow), Wrap(P(a)), until)
        == b.overflows + Matches(MatchSub(b, COUNTER_RANGE, bNow), Wrap(P(b)), until)
  }

  lemma {:induction false} FiredKeepsFuture(u: Unit, now: int, t: int, until: int)
    requires Armed(u, now) && now < t <= until && NothingBefore(u, t) && u.running
    ensures SameFuture(u, now, Fired(u, t), t, until)
  {
    var k := OriginAfterTimer(u, now, t);
    var r, w := Fired(u, t), Wrap(P(u));
    forall s
      ensures Counter(Origin(u), P(u), s) == Counter(Origin(r), P(r), s)
    {
      RebasedOrigin(Origin(u), P(u), k, 0, s);
    }
    forall j | 0 <= j < N_CC
      ensures u.compares[j] + Matches(MatchSub(u, u.cc[j], now), w, until)
           == r.compares[j] + Matches(MatchSub(r, u.cc[j], t), w, until)
    {
      MatchAfterTimer(u, u.cc[j], now, t);
      RebasedOrigin(Origin(u), P(u), k, u.cc[j], t);
      EventMoves(u.compares[j], r.compares[j], MatchSub(u, u.cc[j], now), w, t, until);
    }
    MatchAfterTimer(u, COUNTER_RANGE, now, t);
    RebasedOrigin(Origin(u), P(u), k, COUNTER_RANGE, t);
    EventMoves(u.overflows, r.overflows, MatchSub(u, COUNTER_RANGE, now), w, t, until);
  }

  lemma EventMoves(before: seq<int>, after: seq<int>, m: int, w: int, t: int, until: int)
    requires w >= SUB_US && t <= CeilUs(m) && t <= until
    requires after == if CeilUs(m) == t then before + [t] else before
    ensures before + Matches(m, w, until)
         == after + Matches(if CeilUs(m) == t then m + w else m, w, until)
  {
    if CeilUs(m) == t {
      assert before + ([t] + Matches(m + w, w, until)) == before + [t] + Matches(m + w, w, until);
    }
  }

  lemma NothingBeforeEarliest(units: seq<Unit>, r: nat)
    requires r < |units| && Earliest(Times(units)).Some?
    requires !units[r].running ==> units[r].overflowTimer.None? && forall t <- units[r].ccTimers :: t.None?
    ensures NothingBefore(units[r], Earliest(Times(units)).value)
  {
    var u := units[r];
    if u.running {
      TimesOfAll(units, r);
      if u.overflowTimer.Some? {
        EarliestIsMinimum(Times(units), u.overflowTimer.value);
      }
      forall k | 0 <= k < |u.ccTimers| && u.ccTimers[k].Some?
        ensures Earliest(Times(units)).value <= u.ccTimers[k].value
      {
        EarliestIsMinimum(Times(units), u.ccTimers[k].value);
      }
    } else {
      assert forall k :: 0 <= k < |u.ccTimers| ==> u.ccTimers[k] in u.ccTimers;
    }
  }

  lemma RunningIsLater(u: Unit, now: int)
    requires Armed(u, now) && u.running
    ensures forall t <- u.ccTimers + [u.overflowTimer] :: t.Some? && t.value > now
  {
    NextMatchIsFirstTick(Origin(u), COUNTER_RANGE, P(u), now);
    forall k | 0 <= k < N_CC
      ensures u.ccTimers[k].Some? && u.ccTimers[k].value > now
    {
      NextMatchIsFirstTick(Origin(u), u.cc[k], P(u), now);
    }
  }

  lemma {:induction false} AllLater(units: seq<Unit>, now: int)
    requires forall u <- units :: Armed(u, now)
    ensures forall t <- Times(units) :: t.Some? ==> t.value > now
    ensures Earliest(Times(units)).Some? ==> Earliest(Times(units)).value > now
  {
    if units != [] {
      var u := units[|units| - 1];
      assert u in units;
      AllLater(units[..|units| - 1], now);
      if u.running {
        RunningIsLater(u, now);
      }
    }
    EarliestIsOneOfThem(Times(units));
  }

  /** What a stopped counter holds does not matter to the timer. */
  lemma {:induction false} TimesUnchanged(a: seq<Unit>, b: seq<Unit>, rtc: nat)
    requires |a| == |b| && rtc < |a| && b == a[rtc := b[rtc]] && !a[rtc].running && !b[rtc].running
    ensures Times(a) == Times(b)
  {
    var n := |a| - 1;
    if rtc < n {
      assert b[..n] == a[..n][rtc := b[rtc]];
      TimesUnchanged(a[..n], b[..n], rtc);
    } else {
      assert b[..n] == a[..n];
    }
  }

  /** Time passes, and nothing is due. */
  lemma StaysArmed(u: Unit, now: int, later: int)
    requires Armed(u, now) && now <= later && NothingBefore(u, later + 1)
    ensures Armed(u, later)
    ensures u.running ==> forall k :: 0 <= k < N_CC ==> Matches(MatchSub(u, u.cc[k], later), Wrap(P(u)), later) == []
    ensures u.running ==> Matches(MatchSub(u, COUNTER_RANGE, later), Wrap(P(u)), later) == []
    ensures u.running ==> forall until :: SameFuture(u, now, u, later, until)
  {
    if u.running {
      NextMatchStable(Origin(u), COUNTER_RANGE, P(u), now, later);
      forall k | 0 <= k < N_CC
        ensures MatchSub(u, u.cc[k], later) == MatchSub(u, u.cc[k], now)
      {
        NextMatchStable(Origin(u), u.cc[k], P(u), now, later);
      }
    }
  }

  // ---------- The peripheral ----------

  class Peripheral {
    var now: int
    var firstTick: int
    var units: seq<Unit>
    var timer: Option<int>

    ghost predicate Shaped()
      reads this
    {
      && |units| == N_RTC && now >= 0 && 0 <= firstTick <= SUB_US * now
      && forall r :: 0 <= r < N_RTC ==> WellFormed(units[r])
    }

    /** RTC2 has no interrupt and cannot be used. */
    ghost predicate Valid()
      reads this
    {
      && Shaped() && !units[2].running && timer == Earliest(Times(units))
      && forall r :: 0 <= r < N_RTC ==> Armed(units[r], now)
    }

    constructor ()
      ensures Valid() && now == 0 && units == [RESET_UNIT, RESET_UNIT, RESET_UNIT]
      ensures forall r :: 0 <= r < 3 ==>
        !units[r].running && units[r].prescaler == units[r].counter == 0 && units[r].cc == [0, 0, 0, 0]
    {
      now, firstTick, units, timer := 0, 0, [RESET_UNIT, RESET_UNIT, RESET_UNIT], None;
      TimesOfIdle([RESET_UNIT, RESET_UNIT, RESET_UNIT]);
    }

    method GetCounterMatchTime(c: nat, rtc: nat) returns (us: Option<int>, sub: int)
      requires Shaped() && rtc < N_RTC && c <= COUNTER_RANGE && Started(units[rtc], now)
      ensures us == MatchUs(units[rtc], c, now)
      ensures units[rtc].running ==> sub == MatchSub(units[rtc], c, now)
    {
      var u := units[rtc];
      us, sub := None, TIME_NEVER;
      if u.running {
        var matchSub := c * P(u);
        var w := Wrap(P(u));
        Multiples(c, COUNTER_RANGE, P(u));
        if u.startT > 0 {
          sub := u.startT + matchSub;
        } else if matchSub > u.negative {
          sub := matchSub - u.negative;
        } else {
          sub := w + matchSub - u.negative;
        }
        ghost var k := if sub == Origin(u) + matchSub then 0 else 1;
        sub := AddUntilAfter(sub, w, SUB_US * now);
        SameProgression(Origin(u) + matchSub, w, SUB_US * now, k);
        us := Some(CeilUs(sub));
      }
    }

    method UpdateMasterTimer()
      requires Shaped()
      modifies `timer
      ensures timer == Earliest(Times(units))
    {
      hide Times, Earliest, Earlier;
      timer := None;
      var rtc := 0;
      NoTimes();
      while rtc < N_RTC
        invariant 0 <= rtc <= N_RTC
        invariant timer == Earliest(Times(units[..rtc]))
      {
        var u := units[rtc];
        TimesWithOneMore(units[..rtc], u);
        assert units[..rtc + 1] == units[..rtc] + [u];
        if u.running {
          UpdateFrom(u, Times(units[..rtc]));
        }
        rtc := rtc + 1;
      }
      assert units[..rtc] == units;
    }

    /** The times of one counter. */
    method UpdateFrom(u: Unit, ghost before: seq<Option<int>>)
      requires timer == Earliest(before) && |u.ccTimers| == N_CC
      modifies `timer
      ensures timer == Earliest(before + (u.ccTimers + [u.overflowTimer]))
    {
      hide Earliest, Earlier;
      var cc := 0;
      assert before + u.ccTimers[..0] == before;
      while cc < N_CC
        invariant 0 <= cc <= N_CC
        invariant timer == Earliest(before + u.ccTimers[..cc])
      {
        EarliestWithOneMore(before + u.ccTimers[..cc], u.ccTimers[cc]);
        assert before + u.ccTimers[..cc] + [u.ccTimers[cc]] == before + u.ccTimers[..cc + 1];
        timer := Earlier(timer, u.ccTimers[cc]);
        cc := cc + 1;
      }
      EarliestWithOneMore(before + u.ccTimers[..N_CC], u.overflowTimer);
      assert before + u.ccTimers[..N_CC] + [u.overflowTimer] == before + (u.ccTimers + [u.overflowTimer]);
      timer := Earlier(timer, u.overflowTimer);
    }

    method UpdateCcTimer(rtc: nat, cc: nat)
      requires Shaped() && rtc < N_RTC && cc < N_CC && Started(units[rtc], now)
      modifies `units
      ensures units == old(units)[rtc := old(units[rtc]).(ccTimers :=
        old(units[rtc]).ccTimers[cc := MatchUs(old(units[rtc]), old(units[rtc]).cc[cc], now)])]
    {
      var t, _ := GetCounterMatchTime(units[rtc].cc[cc], rtc);
      units := units[rtc := units[rtc].(ccTimers := units[rtc].ccTimers[cc := t])];
    }

    method UpdateOverflowTimer(rtc: nat)
      requires Shaped() && rtc < N_RTC && Started(units[rtc], now)
      modifies `units
      ensures |units| == N_RTC && forall r :: 0 <= r < N_RTC && r != rtc ==> units[r] == old(units[r])
      ensures units[rtc] == old(units[rtc]).(overflowTimer := MatchUs(old(units[rtc]), COUNTER_RANGE, now),
                                             overflowSub := units[rtc].overflowSub)
      ensures units[rtc].running ==> units[rtc].overflowSub == MatchSub(old(units[rtc]), COUNTER_RANGE, now)
    {
      var t, s := GetCounterMatchTime(COUNTER_RANGE, rtc);
      units := units[rtc := units[rtc].(overflowTimer := t, overflowSub := s)];
    }

    /** All times of one counter are calculated anew. */
    method UpdateTimers(rtc: nat)
      requires Shaped() && rtc < N_RTC && Started(units[rtc], now)
      modifies `units, `timer
      ensures |units| == N_RTC && forall r :: 0 <= r < N_RTC && r != rtc ==> units[r] == old(units[r])
      ensures units[rtc] == old(units[rtc]).(ccTimers := units[rtc].ccTimers, overflowTimer := units[rtc].overflowTimer,
                                             overflowSub := units[rtc].overflowSub)
      ensures Armed(units[rtc], now) && timer == Earliest(Times(units))
    {
      var cc := 0;
      while cc < N_CC
        invariant 0 <= cc <= N_CC && Shaped()
        invariant forall r :: 0 <= r < N_RTC && r != rtc ==> units[r] == old(units[r])
        invariant units[rtc] == old(units[rtc]).(ccTimers := units[rtc].ccTimers)
        invariant forall k :: 0 <= k < cc ==> units[rtc].ccTimers[k] == MatchUs(units[rtc], units[rtc].cc[k], now)
      {
        UpdateCcTimer(rtc, cc);
        cc := cc + 1;
      }
      UpdateOverflowTimer(rtc);
      UpdateMasterTimer();
    }

    /** Like setting the counter, and the prescaler to zero, at the last tick of the 32768 Hz clock: COUNTER reads
        `value` at once, and overflows the remaining number of ticks after that tick. */
    method SetCounterTo(value: nat, rtc: nat)
      requires Shaped() && rtc < N_RTC && value < COUNTER_RANGE
      requires forall r :: 0 <= r < N_RTC && r != rtc ==> Armed(units[r], now)
      modifies `units, `timer
      ensures Shaped() && timer == Earliest(Times(units))
      ensures forall r :: 0 <= r < N_RTC ==> Armed(units[r], now)
      ensures forall r :: 0 <= r < N_RTC && r != rtc ==> units[r] == old(units[r])
      ensures SameSetup(units[rtc], old(units[rtc])) && units[rtc].compares == old(units[rtc]).compares
      ensures ReadCounter(units[rtc], now) == value
      ensures units[rtc].running ==>
        units[rtc].overflowSub == LastLfTick(firstTick, now) + (COUNTER_RANGE - value) * P(units[rtc])
    {
      hide LastLfTick, NextMatch, Ticks, CeilUs, Earliest, Times;
      var u := units[rtc];
      var valueSub := value * P(u);
      Multiples(0, value, P(u));
      var last := LastLfTick(firstTick, now);
      if last >= valueSub {
        u := u.(startT := last - valueSub, negative := 0);
      } else {
        u := u.(startT := 0, negative := valueSub - last);
      }
      units := units[rtc := u.(counter := value)];
      OriginSetsCounter(firstTick, now, value, P(u));
      OverflowAfterSet(firstTick, now, value, P(u));
      assert Started(units[rtc], now);
      UpdateTimers(rtc);
    }

    /** The value a program reads. */
    method UpdateCounter(rtc: nat) returns (value: int)
      requires Valid() && rtc < N_RTC
      ensures value == ReadCounter(units[rtc], now)
    {
      var u := units[rtc];
      if u.running {
        value := (SUB_US * now - u.startT + u.negative) / P(u) % COUNTER_RANGE;
      } else {
        value := u.counter % COUNTER_RANGE;
      }
    }

    method Start(rtc: nat)
      requires Valid() && rtc < N_RTC - 1
      modifies `units, `timer
      ensures Valid()
      ensures units[rtc].running && ReadCounter(units[rtc], now) == old(ReadCounter(units[rtc], now))
      ensures forall r :: 0 <= r < N_RTC && r != rtc ==> units[r] == old(units[r])
    {
      if units[rtc].running {
        return;
      }
      units := units[rtc := units[rtc].(running := true)];
      SetCounterTo(units[rtc].counter, rtc);
    }

    method Stop(rtc: nat)
      requires Valid() && rtc < N_RTC
      modifies `units, `timer
      ensures Valid()
      ensures !units[rtc].running && ReadCounter(units[rtc], now) == old(ReadCounter(units[rtc], now))
      ensures forall r :: 0 <= r < N_RTC && r != rtc ==> units[r] == old(units[r])
    {
      var u := units[rtc];
      if !u.running {
        return;
      }
      var value := (SUB_US * now - u.startT + u.negative) / P(u) % COUNTER_RANGE;
      units := units[rtc := u.(running := false, counter := value, ccTimers := [None, None, None, None],
                               overflowTimer := None)];
      UpdateMasterTimer();
    }

    method Clear(rtc: nat)
      requires Valid() && rtc < N_RTC
      modifies `units, `timer
      ensures Valid()
      ensures SameSetup(units[rtc], old(units[rtc])) && ReadCounter(units[rtc], now) == 0
      ensures forall r :: 0 <= r < N_RTC && r != rtc ==> units[r] == old(units[r])
    {
      SetCounterTo(0, rtc);
    }

    /** The counter overflows 16 ticks after the last tick. */
    method TriggerOverflow(rtc: nat)
      requires Valid() && rtc < N_RTC
      modifies `units, `timer
      ensures Valid()
      ensures SameSetup(units[rtc], old(units[rtc])) && ReadCounter(units[rtc], now) == 0xFF_FFF0
      ensures units[rtc].running ==>
        units[rtc].overflowTimer == Some(CeilUs(LastLfTick(firstTick, now) + 16 * P(units[rtc])))
      ensures forall r :: 0 <= r < N_RTC && r != rtc ==> units[r] == old(units[r])
    {
      SetCounterTo(TRIGGER_OVERFLOW_VALUE, rtc);
    }

    method WriteCc(rtc: nat, cc: nat, value: nat)
      requires Valid() && rtc < N_RTC && cc < N_CC && value < COUNTER_RANGE
      modifies `units, `timer
      ensures Valid()
      ensures units[rtc] == old(units[rtc]).(cc := old(units[rtc]).cc[cc := value], ccTimers := units[rtc].ccTimers)
      ensures forall r :: 0 <= r < N_RTC && r != rtc ==> units[r] == old(units[r])
    {
      hide NextMatch, CeilUs, Earliest, Times;
      units := units[rtc := units[rtc].(cc := units[rtc].cc[cc := value])];
      if units[rtc].running {
        UpdateCcTimer(rtc, cc);
        UpdateMasterTimer();
      } else {
        TimesUnchanged(old(units), units, rtc);
      }
    }

    method WritePrescaler(rtc: nat, value: nat)
      requires Valid() && rtc < N_RTC && !units[rtc].running
      modifies `units
      ensures Valid() && units == old(units)[rtc := old(units[rtc]).(prescaler := value)]
    {
      units := units[rtc := units[rtc].(prescaler := value)];
      TimesUnchanged(old(units), units, rtc);
    }

    // ---------- The timer ----------

    method HandleCcEvent(rtc: nat, cc: nat)
      requires Shaped() && rtc < N_RTC && cc < N_CC && Started(units[rtc], now) && timer == Some(now)
      modifies `units
      ensures units == old(units)[rtc := FiredCc(old(units[rtc]), cc, now)]
    {
      if units[rtc].ccTimers[cc] == timer {
        UpdateCcTimer(rtc, cc);
        var u := units[rtc];
        units := units[rtc := u.(compares := u.compares[cc := u.compares[cc] + [now]])];
      }
    }

    method HandleOverflowEvent(rtc: nat)
      requires Shaped() && rtc < N_RTC && units[rtc].running && Started(units[rtc], now) && timer == Some(now)
      modifies `units
      ensures |units| == N_RTC && forall r :: 0 <= r < N_RTC && r != rtc ==> units[r] == old(units[r])
      ensures units[rtc] == FiredOverflow(old(units[rtc]), now)
    {
      if units[rtc].overflowTimer == timer {
        var current := units[rtc].overflowSub;
        UpdateOverflowTimer(rtc);
        units := units[rtc := units[rtc].(overflows := units[rtc].overflows + [now], startT := current, negative := 0)];
      }
    }

    /** The timer is reached: every compare and overflow that is due is signalled once. */
    method TimerTriggered()
      requires Valid() && timer.Some?
      modifies `now, `units, `timer
      ensures Valid() && Some(now) == old(timer) && now > old(now)
      ensures forall r :: 0 <= r < N_RTC ==> units[r] == Fired(old(units[r]), now) && NothingBefore(old(units[r]), now)
    {
      ghost var before, previous := units, now;
      DueIsLater();
      var t := timer.value;
      now := t;
      var rtc := 0;
      while rtc < N_RTC - 1
        invariant 0 <= rtc <= N_RTC - 1 && |units| == N_RTC && now == t && timer == Some(t)
        invariant forall r :: 0 <= r < N_RTC ==> units[r] == if r < rtc then Fired(before[r], t) else before[r]
      {
        if units[rtc].running {
          FireAll(rtc);
        }
        rtc := rtc + 1;
      }
      forall r | 0 <= r < N_RTC
        ensures Armed(units[r], t)
      {
        FiredStaysArmed(before[r], previous, t);
      }
      UpdateMasterTimer();
    }

    method FireAll(rtc: nat)
      requires Shaped() && rtc < N_RTC && units[rtc].running && Started(units[rtc], now) && timer == Some(now)
      modifies `units
      ensures units == old(units)[rtc := Fired(old(units[rtc]), now)]
    {
      ghost var u := units[rtc];
      var cc := 0;
      while cc < N_CC
        invariant 0 <= cc <= N_CC
        invariant units == old(units)[rtc := FiredCcs(u, cc, now)]
      {
        HandleCcEvent(rtc, cc);
        cc := cc + 1;
      }
      HandleOverflowEvent(rtc);
    }

    /** Every time lies in the future, and none before the timer. */
    lemma DueIsLater()
      requires Valid() && timer.Some?
      ensures timer.value > now
      ensures forall r :: 0 <= r < N_RTC ==> NothingBefore(units[r], timer.value)
    {
      AllLater(units, now);
      forall r | 0 <= r < N_RTC
        ensures NothingBefore(units[r], timer.value)
      {
        NothingBeforeEarliest(units, r);
      }
    }

    /** The 32768 Hz clock has ticked for the first time. */
    method NotifyFirstLfTick()
      requires Valid()
      modifies `firstTick
      ensures Valid() && firstTick == SUB_US * now
    {
      firstTick := SUB_US * now;
    }

    /** Time goes on without any task. Every COMPARE and OVRFLW comes at exactly the times at which a ticking counter
        takes the value, none is missed or repeated, and the moving origin changes no reading of COUNTER. */
    method RunUntil(until: int)
      requires Valid() && now <= until
      modifies `now, `units, `timer
      ensures Valid() && now == until
      ensures forall r, k :: 0 <= r < N_RTC && old(units[r]).running && 0 <= k < N_CC ==>
        units[r].compares[k] == old(units[r]).compares[k]
          + Matches(MatchSub(old(units[r]), old(units[r]).cc[k], old(now)), Wrap(P(old(units[r]))), until)
      ensures forall r :: 0 <= r < N_RTC && old(units[r]).running ==>
        units[r].overflows == old(units[r]).overflows
          + Matches(MatchSub(old(units[r]), COUNTER_RANGE, old(now)), Wrap(P(old(units[r]))), until)
      ensures forall r :: 0 <= r < N_RTC ==> SameSetup(old(units[r]), units[r])
      ensures forall r :: 0 <= r < N_RTC && !old(units[r]).running ==> units[r] == old(units[r])
      ensures forall r, t :: 0 <= r < N_RTC && old(units[r]).running ==>
        Counter(Origin(units[r]), P(units[r]), t) == Counter(Origin(old(units[r])), P(old(units[r])), t)
    {
      ghost var before, start := units, now;
      while timer.Some? && timer.value <= until
        invariant Valid() && now <= until
        invariant forall r :: 0 <= r < N_RTC ==> SameSetup(before[r], units[r])
        invariant forall r :: 0 <= r < N_RTC && !before[r].running ==> units[r] == before[r]
        invariant forall r :: 0 <= r < N_RTC && before[r].running ==> SameFuture(before[r], start, units[r], now, until)
        decreases until - now
      {
        ghost var previous, t := units, now;
        TimerTriggered();
        forall r | 0 <= r < N_RTC && before[r].running
          ensures SameFuture(before[r], start, units[r], now, until)
        {
          FiredKeepsFuture(previous[r], t, now, until);
        }
      }
      NothingUntil(until);
      forall r | 0 <= r < N_RTC
        ensures Armed(units[r], until)
        ensures before[r].running ==> SameFuture(before[r], start, units[r], until, until)
        ensures before[r].running ==>
          forall k :: 0 <= k < N_CC ==>
            Matches(MatchSub(units[r], units[r].cc[k], until), Wrap(P(units[r])), until) == []
        ensures before[r].running ==> Matches(MatchSub(units[r], COUNTER_RANGE, until), Wrap(P(units[r])), until) == []
      {
        StaysArmed(units[r], now, until);
        assert before[r].running ==> SameFuture(units[r], now, units[r], until, until);
      }
      now := until;
    }

    /** A counter that is stopped, waits, and is started again continues with the value that it was stopped at. */
    method StopWaitStart(rtc: nat, until: int)
      requires Valid() && rtc < N_RTC - 1 && now <= until
      modifies `now, `units, `timer
      ensures Valid() && now == until && units[rtc].running
      ensures ReadCounter(units[rtc], now) == old(ReadCounter(units[rtc], now))
    {
      hide NextMatch, Ticks, CeilUs, Earliest, Times, Armed;
      Stop(rtc);
      RunUntil(until);
      Start(rtc);
    }

    lemma NothingUntil(until: int)
      requires Valid() && (timer.Some? ==> timer.value > until)
      ensures forall r :: 0 <= r < N_RTC ==> NothingBefore(units[r], until + 1)
    {
      forall r | 0 <= r < N_RTC
        ensures NothingBefore(units[r], until + 1)
      {
        if timer.Some? {
          NothingBeforeEarliest(units, r);
        } else if units[r].running {
          TimesOfAll(units, r);
          EarliestIsMinimum(Times(units), units[r].overflowTimer.value);
        }
      }
    }
  }
}
