/**
 The TIMER peripherals: five counters with four or six compare registers each, whose compare times are calculated
 ahead, and one timer set to the earliest of them. A COMPARE event may clear or stop its counter over a shortcut, and
 over the PPI trigger any task of any TIMER; all compares that are due together are collected before any is
 signalled.

 MODE, PRESCALER and BITMODE do not change while a counter runs, and CC values fit in its width.
 */
module Timer {
  import opened Common
  import opened Histories
  import opened Arithmetic
  import opened TimerTime

  const N_TIMERS: nat := 5
  const N_MAX_CC: nat := 6

  /** The number of compare registers of each TIMER. */
  function NCcs(t: nat): nat {
    if t < 3 then 4 else 6
  }

  const UINT32: int := 0x1_0000_0000

  /** One TIMER. `startT` is the time at which a running counter was zero; `intLine` is the level of its interrupt as
      the TIMER remembers it, and `irqLine` as it last told the interrupt controller; `compares` are the times of the
      COMPARE events so far. */
  datatype Unit = Unit(running: bool, countMode: bool, prescaler: nat, bitmode: nat, cc: seq<nat>,
                       ccTimers: seq<Option<int>>, startT: Option<int>, counter: int,
                       clearShorts: seq<bool>, stopShorts: seq<bool>,
                       events: seq<bool>, inten: seq<bool>, intLine: bool, irqLine: bool,
                       compares: seq<seq<int>>)

  function D(u: Unit): (d: int)
    requires u.prescaler <= 9
    ensures d > 0
  {
    Divider(u.prescaler)
  }

  function R(u: Unit): (r: int)
    ensures 256 <= r <= UINT32 && r % 256 == 0
  {
    Range(u.bitmode)
  }

  predicate WellFormed(u: Unit) {
    && u.prescaler <= 9 && |u.cc| <= N_MAX_CC
    && |u.ccTimers| == |u.clearShorts| == |u.stopShorts| == |u.events| == |u.inten| == |u.compares| == |u.cc|
    && (forall k :: 0 <= k < |u.cc| ==> u.cc[k] < R(u))
  }

  /** Running as a timer. */
  predicate Live(u: Unit) {
    u.running && !u.countMode
  }

  function W(u: Unit): (w: int)
    requires u.prescaler <= 9
    ensures w > 0
  {
    WrapTimeIsExact(R(u), D(u));
    WrapTime(R(u), D(u))
  }

  /** When compare `k` matches next. */
  function Timed(u: Unit, k: nat, now: int): Option<int>
    requires WellFormed(u) && k < |u.cc|
  {
    if Live(u) && u.startT.Some? then
      var w := W(u);
      Some(NextMatch(u.startT.value, u.cc[k], R(u), D(u), now))
    else None
  }

  predicate InterruptRequested(u: Unit)
    requires WellFormed(u)
  {
    exists k :: 0 <= k < |u.events| && u.events[k] && u.inten[k]
  }

  /** All compare times but the exempt ones are those of the next matches, the origin of the counter has passed, and
      the interrupt line shows whether an enabled event is set. */
  ghost predicate Armed(u: Unit, now: int, exempt: set<nat>) {
    && WellFormed(u) && now >= 0
    && (u.startT.Some? ==> 0 <= u.startT.value <= now)
    && (Live(u) ==> u.startT.Some?)
    && (!u.countMode && !u.running ==> CounterToTime(u.counter, D(u)) <= now)
    && 0 <= u.counter < UINT32
    && (forall k :: 0 <= k < |u.cc| && (k !in exempt || !Live(u)) ==> u.ccTimers[k] == Timed(u, k, now))
    && u.intLine == InterruptRequested(u) && u.irqLine == u.intLine
  }

  /** The interrupt line follows the enabled events; the interrupt controller is told of changes only. */
  function Evaluated(u: Unit): (r: Unit)
    requires WellFormed(u)
    ensures WellFormed(r) && r == u.(intLine := InterruptRequested(u), irqLine := r.irqLine)
    ensures u.irqLine == u.intLine ==> r.irqLine == r.intLine
  {
    var line := InterruptRequested(u);
    if u.intLine == line then u else u.(intLine := line, irqLine := line)
  }

  // ---------- Tasks ----------

  function Refreshed(u: Unit, now: int): (r: Unit)
    requires WellFormed(u)
    ensures WellFormed(r)
  {
    u.(ccTimers := seq(|u.cc|, k requires 0 <= k < |u.cc| => Timed(u, k, now)))
  }

  function Started(u: Unit, now: int): (r: Unit)
    requires WellFormed(u)
    ensures WellFormed(r)
  {
    if u.running then u
    else if u.countMode then u.(running := true)
    else Refreshed(u.(running := true, startT := Some(now - CounterToTime(u.counter, D(u)))), now)
  }

  function Idle(u: Unit): (r: Unit)
    requires WellFormed(u)
    ensures WellFormed(r)
  {
    u.(running := false, ccTimers := seq(|u.cc|, _ => None))
  }

  /** The time that a counter has run; it takes one that was never started for one started at the last possible time,
      in 64 bits. */
  function Elapsed(u: Unit, now: int): int {
    match u.startT
    case Some(t) => now - t
    case None => now + 1
  }

  function Stopped(u: Unit, now: int): (r: Unit)
    requires WellFormed(u)
    ensures WellFormed(r)
  {
    if !u.running then u
    else if u.countMode then Idle(u)
    else Idle(u).(counter := TimeToCounter(Elapsed(u, now), D(u)) % UINT32)
  }

  function ShutDown(u: Unit): (r: Unit)
    requires WellFormed(u)
    ensures WellFormed(r)
  {
    Idle(u).(counter := 0, startT := None)
  }

  function Cleared(u: Unit, now: int): (r: Unit)
    requires WellFormed(u)
    ensures WellFormed(r)
  {
    if u.countMode then u.(counter := 0) else Refreshed(u.(counter := 0, startT := Some(now)), now)
  }

  function Captured(u: Unit, k: nat, now: int): (r: Unit)
    requires WellFormed(u) && k < |u.cc|
    ensures WellFormed(r)
  {
    if u.countMode then u.(cc := u.cc[k := u.counter % R(u)])
    else
      var u := u.(cc := u.cc[k := TimeToCounter(Elapsed(u, now), D(u)) % R(u)]);
      u.(ccTimers := u.ccTimers[k := Timed(u, k, now)])
  }

  /** A counter that was zero at `start`, and has ticked on since, reads `c`: the last tick that has come is the `c`-th,
      or some wraps later. */
  ghost predicate Reads(u: Unit, start: int, c: int, now: int) {
    0 <= c < Range(u.bitmode)
    && exists j: nat :: LastTick(c + j * Range(u.bitmode), start, Pow2(u.prescaler), now)
  }

  lemma CountReads(u: Unit, start: int, now: int)
    requires WellFormed(u) && start <= now
    ensures Reads(u, start, TimeToCounter(now - start, D(u)) % R(u), now)
  {
    var d, r, n := D(u), R(u), TimeToCounter(now - start, D(u));
    DividerIs(u.prescaler);
    TicksUntil(start, d, now);
    assert n >= 0;
    var j := n / r;
    assert n == n % r + j * r;
    assert LastTick(n % r + j * r, start, Pow2(u.prescaler), now);
  }

  lemma CaptureIs(units: seq<Unit>, t: nat, k: nat, now: int, pending: set<(nat, nat)>)
    requires AllArmed(units, now, pending) && t < N_TIMERS && k < NCcs(t)
    ensures Shape(units) && (Live(units[t]) ==> units[t].startT.Some? && units[t].startT.value <= now)
    ensures var u, r := units[t], Captured(units[t], k, now);
      && AllArmed(units[t := r], now, pending) && SameEvents(units, units[t := r])
      && r.cc == u.cc[k := r.cc[k]]
      && (Live(u) ==> Reads(u, u.startT.value, r.cc[k], now))
      && (u.countMode ==> r.cc[k] == u.counter % Range(u.bitmode))
  {
    CaptureKeeps(units[t], k, now, Exempt(pending, t));
    OneReplaced(units, t, Captured(units[t], k, now), now, pending);
    if Live(units[t]) {
      CountReads(units[t], units[t].startT.value, now);
    }
    hide AllArmed, SameEvents, Reads, Timed, TimeToCounter;
  }

  /** The shortcuts of COMPARE `k`. */
  function Shortcut(u: Unit, k: nat, now: int): (r: Unit)
    requires WellFormed(u) && k < |u.cc|
    ensures WellFormed(r) && |r.cc| == |u.cc|
  {
    var c := if u.clearShorts[k] then Cleared(u, now) else u;
    if u.stopShorts[k] then Stopped(c, now) else c
  }

  function Recorded(u: Unit, k: nat, now: int): (r: Unit)
    requires WellFormed(u) && k < |u.cc|
    ensures WellFormed(r)
  {
    u.(events := u.events[k := true], compares := u.compares[k := u.compares[k] + [now]])
  }

  function Compared(u: Unit, k: nat, now: int): (r: Unit)
    requires WellFormed(u) && k < |u.cc|
    ensures WellFormed(r)
  {
    var r := Recorded(Shortcut(u, k, now), k, now);
    Evaluated(r)
  }

  /** What no task changes. */
  predicate SameSetup(a: Unit, b: Unit) {
    && a.countMode == b.countMode && a.prescaler == b.prescaler && a.bitmode == b.bitmode
    && a.clearShorts == b.clearShorts && a.stopShorts == b.stopShorts && a.inten == b.inten && |a.cc| == |b.cc|
  }

  lemma StartKeeps(u: Unit, now: int, exempt: set<nat>)
    requires Armed(u, now, exempt)
    ensures Armed(Started(u, now), now, exempt) && SameSetup(u, Started(u, now))
    ensures Started(u, now).compares == u.compares
  {
    Product(u.counter, D(u));
  }

  lemma StopKeeps(u: Unit, now: int, exempt: set<nat>)
    requires Armed(u, now, exempt)
    ensures Armed(Stopped(u, now), now, exempt) && SameSetup(u, Stopped(u, now))
    ensures Stopped(u, now).compares == u.compares
  {
    if Live(u) {
      TruncatedCountAndBack(Elapsed(u, now), D(u), UINT32);
    }
    hide CounterToTime, TimeToCounter, NextMatch, R;
  }

  lemma ShutDownKeeps(u: Unit, now: int, exempt: set<nat>)
    requires Armed(u, now, exempt)
    ensures Armed(ShutDown(u), now, exempt) && SameSetup(u, ShutDown(u))
    ensures ShutDown(u).compares == u.compares
  {
  }

  lemma ClearKeeps(u: Unit, now: int, exempt: set<nat>)
    requires Armed(u, now, exempt)
    ensures Armed(Cleared(u, now), now, exempt) && SameSetup(u, Cleared(u, now))
    ensures Cleared(u, now).compares == u.compares
  {
  }

  lemma CaptureKeeps(u: Unit, k: nat, now: int, exempt: set<nat>)
    requires Armed(u, now, exempt) && k < |u.cc|
    ensures Armed(Captured(u, k, now), now, exempt) && SameSetup(u, Captured(u, k, now))
    ensures Captured(u, k, now).compares == u.compares
  {
  }

  lemma CompareKeeps(u: Unit, k: nat, now: int, exempt: set<nat>)
    requires Armed(u, now, exempt) && k < |u.cc|
    ensures Armed(Compared(u, k, now), now, exempt) && SameSetup(u, Compared(u, k, now))
    ensures Compared(u, k, now).compares == u.compares[k := u.compares[k] + [now]]
  {
    ClearKeeps(u, now, exempt);
    var c := if u.clearShorts[k] then Cleared(u, now) else u;
    StopKeeps(c, now, exempt);
    RecordKeeps(Shortcut(u, k, now), k, now, exempt);
  }

  lemma RecordKeeps(u: Unit, k: nat, now: int, exempt: set<nat>)
    requires Armed(u, now, exempt) && k < |u.cc|
    ensures Armed(Evaluated(Recorded(u, k, now)), now, exempt)
  {
    var r := Recorded(u, k, now);
    assert forall j :: 0 <= j < |u.cc| ==> Timed(u, j, now) == Timed(Evaluated(r), j, now);
  }

  lemma CountKeeps(u: Unit, now: int, exempt: set<nat>)
    requires Armed(u, now, exempt) && u.countMode
    ensures Armed(u.(counter := (u.counter + 1) % R(u)), now, exempt)
  {
  }

  /** Time passes up to the next match. */
  lemma TimePasses(u: Unit, now: int, later: int)
    requires Armed(u, now, {}) && now <= later
    requires forall k :: 0 <= k < |u.cc| && u.ccTimers[k].Some? ==> later <= u.ccTimers[k].value
    ensures Armed(u, later, set k | 0 <= k < |u.cc| && u.ccTimers[k] == Some(later))
  {
    if Live(u) {
      forall k | 0 <= k < |u.cc| && u.ccTimers[k] != Some(later)
        ensures u.ccTimers[k] == Timed(u, k, later)
      {
        NextMatchStable(u.startT.value, u.cc[k], R(u), D(u), now, later);
      }
    }
  }

  /** The compare times of all running timers. */
  function Times(units: seq<Unit>): seq<Option<int>> {
    if units == [] then []
    else
      var u := units[|units| - 1];
      var others := Times(units[..|units| - 1]);
      if Live(u) then others + u.ccTimers else others
  }

  lemma NoTimes()
    ensures Earliest(Times([])) == None
  {
  }

  lemma TimesWithOneMore(units: seq<Unit>, u: Unit)
    ensures Times(units + [u]) == if Live(u) then Times(units) + u.ccTimers else Times(units)
  {
    assert (units + [u])[..|units|] == units;
  }

  lemma {:induction false} TimesOfAll(units: seq<Unit>, t: nat)
    requires t < |units| && Live(units[t])
    ensures forall k :: 0 <= k < |units[t].ccTimers| ==> units[t].ccTimers[k] in Times(units)
  {
    if t < |units| - 1 {
      TimesOfAll(units[..|units| - 1], t);
    }
  }

  lemma {:induction false} TimesOfIdle(units: seq<Unit>)
    requires forall u <- units :: !Live(u)
    ensures Times(units) == []
  {
    if units != [] {
      TimesOfIdle(units[..|units| - 1]);
    }
  }

  /** The compare times do not depend on anything else. */
  lemma {:induction false} TimesUnchanged(units: seq<Unit>, t: nat, u: Unit)
    requires t < |units| && Live(u) == Live(units[t]) && (Live(u) ==> u.ccTimers == units[t].ccTimers)
    ensures Times(units[t := u]) == Times(units)
  {
    var n := |units| - 1;
    if t < n {
      assert units[t := u][..n] == units[..n][t := u];
      TimesUnchanged(units[..n], t, u);
    } else {
      assert units[t := u][..n] == units[..n];
    }
  }

  lemma WriteKeeps(u: Unit, k: nat, value: nat, now: int, exempt: set<nat>)
    requires Armed(u, now, exempt) && k < |u.cc| && value < R(u)
    ensures var r := u.(cc := u.cc[k := value]);
      Armed(r.(ccTimers := r.ccTimers[k := Timed(r, k, now)]), now, exempt)
  {
  }

  lemma InterruptsKeep(u: Unit, inten: seq<bool>, events: seq<bool>, now: int, exempt: set<nat>)
    requires Armed(u, now, exempt) && |inten| == |events| == |u.cc|
    ensures var r := u.(inten := inten, events := events);
      Armed(Evaluated(r), now, exempt)
  {
    var r := u.(inten := inten, events := events);
    assert forall k :: 0 <= k < |u.cc| ==> Timed(Evaluated(r), k, now) == Timed(u, k, now);
  }

  function ResetUnit(n: nat): Unit {
    Unit(false, false, 0, 0, seq(n, _ => 0), seq(n, _ => None), None, 0, seq(n, _ => false), seq(n, _ => false),
         seq(n, _ => false), seq(n, _ => false), false, false, seq(n, _ => []))
  }

  lemma CountIs(units: seq<Unit>, t: nat, now: int, pending: set<(nat, nat)>)
    requires AllArmed(units, now, pending) && t < N_TIMERS && units[t].countMode
    ensures var u := units[t].(counter := (units[t].counter + 1) % R(units[t]));
      && WellFormed(u) && AllArmed(units[t := u], now, pending) && SameEvents(units, units[t := u])
  {
    CountKeeps(units[t], now, Exempt(pending, t));
    OneReplaced(units, t, units[t].(counter := (units[t].counter + 1) % R(units[t])), now, pending);
    hide Armed, Timed;
  }

  /** The compares of a counter, from `k` on, look at it one after the other. */
  function ComparedFrom(u: Unit, k: nat, now: int): (r: Unit)
    requires WellFormed(u)
    ensures WellFormed(r)
    decreases |u.cc| - k
  {
    if k >= |u.cc| then u
    else ComparedFrom(if u.counter == u.cc[k] % R(u) then Compared(u, k, now) else u, k + 1, now)
  }

  // ---------- All TIMERs together ----------

  predicate Shape(units: seq<Unit>) {
    |units| == N_TIMERS && forall t :: 0 <= t < N_TIMERS ==> WellFormed(units[t]) && |units[t].cc| == NCcs(t)
  }

  ghost function Exempt(pending: set<(nat, nat)>, t: nat): set<nat> {
    set k | 0 <= k < N_MAX_CC && (t, k) in pending
  }

  /** Everything is armed, but for the compares that are still to be signalled. */
  ghost predicate AllArmed(units: seq<Unit>, now: int, pending: set<(nat, nat)>) {
    Shape(units) && forall t :: 0 <= t < N_TIMERS ==> Armed(units[t], now, Exempt(pending, t))
  }

  /** The set-up is the same, and so are all events of timers. */
  predicate SameEvents(a: seq<Unit>, b: seq<Unit>) {
    && |a| == |b| && (forall t :: 0 <= t < |a| ==> SameSetup(a[t], b[t]))
    && (forall t :: 0 <= t < |a| && !a[t].countMode ==> a[t].compares == b[t].compares)
  }

  /** The set-up is the same, and all events of timers but for one more COMPARE `k` of TIMER `t`. */
  predicate OneMoreEvent(a: seq<Unit>, b: seq<Unit>, t: nat, k: nat, now: int) {
    && |a| == |b| && (forall s :: 0 <= s < |a| ==> SameSetup(a[s], b[s]))
    && (forall s :: 0 <= s < |a| && !a[s].countMode ==>
          b[s].compares == if s == t && k < |a[s].compares| then a[s].compares[k := a[s].compares[k] + [now]]
                           else a[s].compares)
  }

  lemma OneReplaced(units: seq<Unit>, t: nat, u: Unit, now: int, pending: set<(nat, nat)>)
    requires AllArmed(units, now, pending) && t < N_TIMERS
    requires Armed(u, now, Exempt(pending, t)) && |u.cc| == |units[t].cc|
    ensures AllArmed(units[t := u], now, pending)
    ensures SameSetup(units[t], u) && u.compares == units[t].compares ==> SameEvents(units, units[t := u])
  {
  }

  lemma OneReplacedWithEvent(units: seq<Unit>, t: nat, u: Unit, k: nat, now: int)
    requires t < |units| && SameSetup(units[t], u) && k < |units[t].compares|
    requires u.compares == units[t].compares[k := units[t].compares[k] + [now]]
    ensures OneMoreEvent(units, units[t := u], t, k, now)
  {
  }

  lemma ReplacedTwice(units: seq<Unit>, t: nat, a: Unit, b: Unit)
    requires t < |units|
    ensures units[t := a][t := b] == units[t := b]
  {
  }

  lemma SameAsItself(a: seq<Unit>)
    ensures SameEvents(a, a)
  {
  }

  lemma ThenSameEvents(a: seq<Unit>, b: seq<Unit>, c: seq<Unit>)
    requires SameEvents(a, b) && SameEvents(b, c)
    ensures SameEvents(a, c)
  {
  }

  lemma OneMoreThenSame(a: seq<Unit>, b: seq<Unit>, c: seq<Unit>, t: nat, k: nat, now: int)
    requires OneMoreEvent(a, b, t, k, now) && SameEvents(b, c)
    ensures OneMoreEvent(a, c, t, k, now)
  {
  }

  lemma SameButCounting(a: seq<Unit>, b: seq<Unit>, c: seq<Unit>, t: nat, k: nat, now: int)
    requires SameEvents(a, b) && OneMoreEvent(b, c, t, k, now) && t < |a| && a[t].countMode
    ensures SameEvents(a, c)
  {
  }

  // ---------- The timer is reached ----------

  predicate IsDue(u: Unit, k: nat, now: int) {
    Live(u) && k < |u.ccTimers| && u.ccTimers[k] == Some(now)
  }

  predicate DueIn(units: seq<Unit>, p: (nat, nat), now: int) {
    p.0 < |units| && IsDue(units[p.0], p.1, now)
  }

  ghost function Pairs(due: seq<(nat, nat)>): set<(nat, nat)> {
    set p | p in due
  }

  lemma RunningIsLater(u: Unit, now: int)
    requires Armed(u, now, {}) && Live(u)
    ensures forall k :: 0 <= k < |u.ccTimers| ==> u.ccTimers[k].Some? && u.ccTimers[k].value > now
  {
    forall k | 0 <= k < |u.ccTimers|
      ensures u.ccTimers[k].Some? && u.ccTimers[k].value > now
    {
      WrapTimeIsExact(R(u), D(u));
      var j := NextMatchIsAfter(u.startT.value, u.cc[k], R(u), D(u), now);
    }
  }

  /** Every compare time lies in the future. */
  lemma {:induction false} AllLater(units: seq<Unit>, now: int)
    requires forall u <- units :: Armed(u, now, {})
    ensures forall t <- Times(units) :: t.Some? ==> t.value > now
    ensures Earliest(Times(units)).Some? ==> Earliest(Times(units)).value > now
  {
    if units != [] {
      var u := units[|units| - 1];
      assert u in units;
      AllLater(units[..|units| - 1], now);
      if Live(u) {
        RunningIsLater(u, now);
      }
    }
    EarliestIsOneOfThem(Times(units));
  }

  /** Exempting more asks for less. */
  lemma ExemptMore(u: Unit, now: int, a: set<nat>, b: set<nat>)
    requires Armed(u, now, a) && a <= b
    ensures Armed(u, now, b)
  {
  }

  lemma NothingExempt(units: seq<Unit>, now: int)
    requires AllArmed(units, now, {})
    ensures forall u <- units :: Armed(u, now, {})
  {
    forall t | 0 <= t < N_TIMERS
      ensures Armed(units[t], now, {})
    {
      ExemptMore(units[t], now, Exempt({}, t), {});
    }
  }

  /** When the time of the earliest compare comes, the compares that are due are all that is not armed. */
  lemma AllTimePasses(units: seq<Unit>, now: int, later: int, pending: set<(nat, nat)>)
    requires AllArmed(units, now, {}) && now <= later
    requires Earliest(Times(units)).Some? ==> later <= Earliest(Times(units)).value
    requires forall p: (nat, nat) :: DueIn(units, p, later) ==> p in pending
    ensures AllArmed(units, later, pending)
  {
    forall t | 0 <= t < N_TIMERS
      ensures Armed(units[t], later, Exempt(pending, t))
    {
      var u := units[t];
      if Live(u) {
        TimesOfAll(units, t);
      }
      forall k | 0 <= k < |u.cc| && u.ccTimers[k].Some?
        ensures later <= u.ccTimers[k].value
      {
        EarliestIsMinimum(Times(units), u.ccTimers[k].value);
      }
      ExemptMore(u, now, Exempt({}, t), {});
      TimePasses(u, now, later);
      var a := set k | 0 <= k < |u.cc| && u.ccTimers[k] == Some(later);
      assert forall k <- a :: DueIn(units, (t, k), later);
      ExemptMore(u, later, a, Exempt(pending, t));
    }
  }

  /** A compare whose time has been calculated anew is no longer exempt. */
  lemma OneLessPending(units: seq<Unit>, now: int, due: seq<(nat, nat)>, t: nat, k: nat)
    requires AllArmed(units, now, Pairs(due + [(t, k)])) && t < N_TIMERS && k < NCcs(t)
    ensures var u := units[t];
      AllArmed(units[t := u.(ccTimers := u.ccTimers[k := Timed(u, k, now)])], now, Pairs(due))
  {
    var u := units[t];
    var v := u.(ccTimers := u.ccTimers[k := Timed(u, k, now)]);
    forall j | 0 <= j < |v.cc| && (j !in Exempt(Pairs(due), t) || !Live(v))
      ensures v.ccTimers[j] == Timed(v, j, now)
    {
      assert Timed(v, j, now) == Timed(u, j, now);
      if j != k {
        assert (t, j) in due + [(t, k)] ==> (t, j) in due;
      }
    }
    assert InterruptRequested(v) == InterruptRequested(u);
    forall s | 0 <= s < N_TIMERS && s != t
      ensures Armed(units[s], now, Exempt(Pairs(due), s))
    {
      assert Exempt(Pairs(due + [(t, k)]), s) == Exempt(Pairs(due), s);
    }
  }

  /** Of the compares in `all`, those of TIMER `t` that are no longer in `due` have been signalled once. */
  ghost predicate SignalledSoFar(before: Unit, u: Unit, t: nat, all: seq<(nat, nat)>, due: seq<(nat, nat)>, now: int) {
    && SameSetup(before, u) && |before.compares| == |u.compares| == |u.cc|
    && (!u.countMode ==> forall k :: 0 <= k < |u.compares| ==>
         u.compares[k] == before.compares[k] + if (t, k) in all && (t, k) !in due then [now] else [])
  }

  lemma SignalledOneMore(before: seq<Unit>, armed: seq<Unit>, after: seq<Unit>, all: seq<(nat, nat)>,
                         pending: seq<(nat, nat)>, due: seq<(nat, nat)>, t: nat, k: nat, now: int)
    requires |before| == |armed| == |after| == N_TIMERS && t < N_TIMERS && (t, k) in all
    requires pending == due + [(t, k)] && (t, k) !in due
    requires Live(before[t]) && k < |before[t].cc|
    requires OneMoreEvent(armed, after, t, k, now)
    requires forall s :: 0 <= s < N_TIMERS ==>
      WellFormed(after[s]) && SignalledSoFar(before[s], armed[s], s, all, pending, now)
    ensures forall s :: 0 <= s < N_TIMERS ==> SignalledSoFar(before[s], after[s], s, all, due, now)
  {
    forall s, j | 0 <= s < N_TIMERS && 0 <= j < |after[s].compares| && !after[s].countMode
      ensures after[s].compares[j] == before[s].compares[j] + if (s, j) in all && (s, j) !in due then [now] else []
    {
      assert (s, j) in pending <==> (s, j) in due || (s, j) == (t, k);
    }
  }

  predicate NeverStops(u: Unit) {
    forall k :: 0 <= k < |u.stopShorts| ==> !u.stopShorts[k]
  }

  /** What is left of a running timer that nothing stops, when the PPI connects nothing: a due compare with the CLEAR
      shortcut has restarted it. */
  ghost predicate Restarted(before: Unit, u: Unit, cleared: bool, now: int) {
    && Live(u) && u.cc == before.cc && u.startT == (if cleared then Some(now) else before.startT)
  }

  ghost predicate Dispatched(before: Unit, u: Unit, now: int) {
    Restarted(before, u,
      exists k :: 0 <= k < |before.clearShorts| && before.clearShorts[k] && IsDue(before, k, now), now)
  }

  ghost predicate DispatchedSoFar(before: Unit, u: Unit, t: nat, all: seq<(nat, nat)>, due: seq<(nat, nat)>, now: int) {
    Restarted(before, u,
      exists k :: 0 <= k < |before.clearShorts| && before.clearShorts[k] && (t, k) in all && (t, k) !in due, now)
  }

  ghost predicate AllDispatchedSoFar(before: seq<Unit>, units: seq<Unit>, all: seq<(nat, nat)>,
                                     due: seq<(nat, nat)>, now: int)
    requires |before| <= |units|
  {
    forall s :: 0 <= s < |before| && Live(before[s]) && NeverStops(before[s]) ==>
      DispatchedSoFar(before[s], units[s], s, all, due, now)
  }

  lemma DispatchedOneMore(before: seq<Unit>, armed: seq<Unit>, after: seq<Unit>, all: seq<(nat, nat)>,
                          pending: seq<(nat, nat)>, due: seq<(nat, nat)>, t: nat, k: nat, now: int)
    requires |before| == |armed| == |after| == N_TIMERS && t < N_TIMERS && (t, k) in all
    requires pending == due + [(t, k)] && (t, k) !in due
    requires WellFormed(armed[t]) && k < |armed[t].cc| && after == armed[t := Compared(armed[t], k, now)]
    requires forall s :: 0 <= s < N_TIMERS ==> SameSetup(before[s], armed[s]) && WellFormed(before[s])
    requires AllDispatchedSoFar(before, armed, all, pending, now)
    ensures AllDispatchedSoFar(before, after, all, due, now)
  {
    forall s | 0 <= s < N_TIMERS && Live(before[s]) && NeverStops(before[s])
      ensures DispatchedSoFar(before[s], after[s], s, all, due, now)
    {
      forall j: nat
        ensures (s, j) in pending <==> (s, j) in due || (s, j) == (t, k)
      {
      }
    }
  }

  /** A timer whose compare `n`, and no other one, clears it. */
  predicate Periodic(u: Unit, n: nat) {
    && WellFormed(u) && Live(u) && NeverStops(u) && n < |u.cc|
    && (forall k :: 0 <= k < |u.cc| ==> (u.clearShorts[k] <==> k == n))
  }

  function Period(u: Unit, n: nat): (p: int)
    requires WellFormed(u) && n < |u.cc|
    ensures p > 0
  {
    CcWithinWrap(u, n);
    var c := CounterToTime(u.cc[n], D(u));
    if c > 0 then c else W(u)
  }

  /** The period is the time of the compare value, floor(CC * 2^PRESCALER / 16), unless that is nothing. */
  lemma PeriodIs(u: Unit, n: nat)
    requires WellFormed(u) && n < |u.cc| && u.cc[n] * Pow2(u.prescaler) >= 16
    ensures Period(u, n) == u.cc[n] * Pow2(u.prescaler) / 16
  {
    DividerIs(u.prescaler);
  }

  lemma ClearedThenPeriod(u: Unit, n: nat, now: int)
    requires Armed(u, now, {}) && Live(u) && n < |u.cc| && u.startT == Some(now)
    ensures u.ccTimers[n] == Some(now + Period(u, n))
  {
    CcWithinWrap(u, n);
    WrapTimeIsExact(R(u), D(u));
    var c := CounterToTime(u.cc[n], D(u));
    NextMatchIsUnique(now + Period(u, n), now, u.cc[n], R(u), D(u), now, if c > 0 then 0 else 1);
  }

  /** The times from `first` up to `until`, every `step`. */
  function Every(first: int, step: int, until: int): seq<int>
    requires step > 0
    decreases until - first
  {
    if first > until then [] else [first] + Every(first + step, step, until)
  }

  lemma {:induction false} EveryAt(first: int, step: int, until: int, n: nat)
    requires step > 0
    ensures n < |Every(first, step, until)| <==> first + n * step <= until
    ensures n < |Every(first, step, until)| ==> Every(first, step, until)[n] == first + n * step
    decreases n
  {
    if n > 0 {
      assert n * step == step + (n - 1) * step;
      if first <= until {
        EveryAt(first + step, step, until, n - 1);
      } else {
        Product(n - 1, step);
      }
    }
  }

  // ---------- The peripherals ----------

  datatype Task =
    | Start(t: nat) | Stop(t: nat) | Shutdown(t: nat) | Clear(t: nat) | Capture(t: nat, k: nat) | Count(t: nat)

  /** What the tasks but COUNT do to their TIMER. */
  function TaskDone(u: Unit, task: Task, now: int): Unit
    requires WellFormed(u) && (task.Capture? ==> task.k < |u.cc|)
  {
    match task
    case Start(_) => Started(u, now)
    case Stop(_) => Stopped(u, now)
    case Shutdown(_) => ShutDown(u)
    case Clear(_) => Cleared(u, now)
    case Capture(_, k) => Captured(u, k, now)
    case Count(_) => u
  }

  predicate Exists(task: Task) {
    task.t < N_TIMERS && (task.Capture? ==> task.k < NCcs(task.t))
  }

  class Peripheral {
    /** What the PPI connects: the k-th COMPARE event triggers the tasks `plan[k]`. */
    const plan: seq<seq<Task>>

    var now: int
    var units: seq<Unit>
    var timer: Option<int>
    var signals: nat
    ghost var history: seq<Done<Task>>

    ghost predicate PlanExists() {
      forall k, task :: 0 <= k < |plan| && task in plan[k] ==> Exists(task)
    }

    /** COMPARE events that have not been signalled yet have triggered nothing. */
    ghost predicate Ready()
      reads `history, `signals
    {
      PlanExists() && NothingFrom(history, signals)
    }

    ghost predicate Valid()
      reads this
    {
      Ready() && AllArmed(units, now, {}) && timer == Earliest(Times(units))
    }

    /** Every COMPARE signalled since has triggered all tasks that the PPI connects to it, in order. */
    twostate predicate Triggered()
      reads `history, `signals
    {
      Performed(plan, old(history), old(signals), history, signals)
    }

    ghost function Remaining(): nat
      reads this
    {
      if signals < |plan| then |plan| - signals else 0
    }

    /** The next match, found by adding wraps. */
    method UpdateCcTimer(t: nat, k: nat)
      requires Shape(units) && t < N_TIMERS && k < NCcs(t)
      requires Live(units[t]) ==> units[t].startT.Some? && units[t].startT.value <= now
      modifies `units
      ensures var u := old(units[t]);
        units == old(units)[t := u.(ccTimers := u.ccTimers[k := Timed(u, k, now)])]
    {
      var u := units[t];
      var next := None;
      if Live(u) {
        CcWithinWrap(u, k);
        var m := AddUntilAfter(u.startT.value + CounterToTime(u.cc[k], D(u)), W(u), now);
        next := Some(m);
      }
      units := units[t := u.(ccTimers := u.ccTimers[k := next])];
    }

    method UpdateAllCcTimers(t: nat)
      requires Shape(units) && t < N_TIMERS
      requires Live(units[t]) ==> units[t].startT.Some? && units[t].startT.value <= now
      modifies `units
      ensures units == old(units)[t := Refreshed(old(units[t]), now)]
    {
      ghost var u := units[t];
      var k := 0;
      while k < NCcs(t)
        invariant 0 <= k <= NCcs(t) && |units| == N_TIMERS && |units[t].ccTimers| == |u.cc|
        invariant units == old(units)[t := u.(ccTimers := units[t].ccTimers)]
        invariant forall j :: 0 <= j < k ==> units[t].ccTimers[j] == Timed(u, j, now)
      {
        assert Timed(units[t], k, now) == Timed(u, k, now);
        UpdateCcTimer(t, k);
        k := k + 1;
      }
      assert units[t].ccTimers == Refreshed(u, now).ccTimers;
    }

    method UpdateMasterTimer()
      requires Shape(units)
      modifies `timer
      ensures timer == Earliest(Times(units))
    {
      hide Times, Earliest, Earlier, Live;
      timer := None;
      var t := 0;
      NoTimes();
      while t < N_TIMERS
        invariant 0 <= t <= N_TIMERS
        invariant timer == Earliest(Times(units[..t]))
      {
        var u := units[t];
        TimesWithOneMore(units[..t], u);
        assert units[..t + 1] == units[..t] + [u];
        if Live(u) {
          UpdateFrom(u.ccTimers, Times(units[..t]));
        }
        t := t + 1;
      }
      assert units[..t] == units;
    }

    method UpdateFrom(ccTimers: seq<Option<int>>, ghost before: seq<Option<int>>)
      requires timer == Earliest(before)
      modifies `timer
      ensures timer == Earliest(before + ccTimers)
    {
      hide Earliest, Earlier;
      assert before + ccTimers[..0] == before;
      var k := 0;
      while k < |ccTimers|
        invariant 0 <= k <= |ccTimers|
        invariant timer == Earliest(before + ccTimers[..k])
      {
        EarliestWithOneMore(before + ccTimers[..k], ccTimers[k]);
        assert before + ccTimers[..k] + [ccTimers[k]] == before + ccTimers[..k + 1];
        timer := Earlier(timer, ccTimers[k]);
        k := k + 1;
      }
      assert ccTimers[..k] == ccTimers;
    }

    // ---------- Registers ----------

    constructor (plan: seq<seq<Task>>)
      requires forall k, task :: 0 <= k < |plan| && task in plan[k] ==> Exists(task)
      ensures Valid() && this.plan == plan && now == 0 && timer == None
      ensures forall t :: 0 <= t < N_TIMERS ==> var u := units[t];
        && u == ResetUnit(if t < 3 then 4 else 6)
        && !u.running && !u.countMode && u.counter == 0 && u.startT == None && u.prescaler == 0 && !u.irqLine
        && u.cc == seq(|u.cc|, _ => 0) && u.compares == seq(|u.cc|, _ => []) && u.inten == seq(|u.cc|, _ => false)
        && u.clearShorts == u.stopShorts == u.events == u.inten
    {
      this.plan, now, timer, signals, history := plan, 0, None, 0, [];
      units := seq(N_TIMERS, t requires 0 <= t < N_TIMERS => ResetUnit(NCcs(t)));
      new;
      assert units == [ResetUnit(4), ResetUnit(4), ResetUnit(4), ResetUnit(6), ResetUnit(6)];
      TimesOfIdle(units);
    }

    /** MODE, PRESCALER and BITMODE are set while the counter is stopped, and zero. */
    method Configure(t: nat, countMode: bool, prescaler: nat, bitmode: nat)
      requires Valid() && t < N_TIMERS && prescaler <= 9 && !units[t].running && units[t].counter == 0
      requires forall k :: 0 <= k < |units[t].cc| ==> units[t].cc[k] < Range(bitmode)
      modifies `units
      ensures Valid()
      ensures units == old(units)[t :=
        old(units[t]).(countMode := countMode, prescaler := prescaler, bitmode := bitmode)]
    {
      var u := units[t].(countMode := countMode, prescaler := prescaler, bitmode := bitmode);
      TimesUnchanged(units, t, u);
      units := units[t := u];
    }

    method WriteCc(t: nat, k: nat, value: nat)
      requires Valid() && t < N_TIMERS && k < NCcs(t) && value < R(units[t])
      modifies `units, `timer
      ensures Valid()
      ensures units[t] == old(units[t]).(cc := old(units[t]).cc[k := value], ccTimers := units[t].ccTimers)
      ensures forall s :: 0 <= s < N_TIMERS && s != t ==> units[s] == old(units[s])
    {
      var u := units[t].(cc := units[t].cc[k := value]);
      if Live(u) {
        WriteKeeps(units[t], k, value, now, Exempt({}, t));
        ghost var r := u.(ccTimers := u.ccTimers[k := Timed(u, k, now)]);
        OneReplaced(units, t, r, now, {});
        ReplacedTwice(units, t, u, r);
        hide AllArmed, Timed, Times, Earliest, SameSetup, InterruptRequested;
        units := units[t := u];
        UpdateCcTimer(t, k);
        UpdateMasterTimer();
      } else {
        TimesUnchanged(units, t, u);
        units := units[t := u];
      }
    }

    /** INTENSET, INTENCLR, and writes to the event registers: the interrupt line follows. */
    method WriteInterrupts(t: nat, inten: seq<bool>, events: seq<bool>)
      requires Valid() && t < N_TIMERS && |inten| == |events| == NCcs(t)
      modifies `units
      ensures Valid()
      ensures units[t] == old(units[t]).(inten := inten, events := events, intLine := units[t].intLine,
                                               irqLine := units[t].irqLine)
      ensures units[t].irqLine <==> exists k :: 0 <= k < NCcs(t) && inten[k] && events[k]
      ensures forall s :: 0 <= s < N_TIMERS && s != t ==> units[s] == old(units[s])
    {
      InterruptsKeep(units[t], inten, events, now, Exempt({}, t));
      var u := units[t].(inten := inten, events := events);
      ghost var r := Evaluated(u);
      OneReplaced(units, t, r, now, {});
      TimesUnchanged(units, t, r);
      ReplacedTwice(units, t, u, r);
      hide Armed, AllArmed, Times, Earliest, SameSetup;
      units := units[t := u];
      EvalInterrupts(t);
    }

    // ---------- Tasks ----------

    method TaskStart(t: nat, ghost pending: set<(nat, nat)>)
      requires AllArmed(units, now, pending) && t < N_TIMERS
      modifies `units, `timer
      ensures AllArmed(units, now, pending) && SameEvents(old(units), units)
      ensures units == old(units)[t := Started(old(units[t]), now)]
      ensures timer == old(timer) || timer == Earliest(Times(units))
    {
      StartKeeps(units[t], now, Exempt(pending, t));
      OneReplaced(units, t, Started(units[t], now), now, pending);
      assert CounterToTime(units[t].counter, D(units[t])) >= 0;
      hide Armed, AllArmed, SameEvents, Timed, CounterToTime, Times, Earliest;
      var u := units[t];
      if !u.running {
        u := u.(running := true);
        if !u.countMode {
          u := u.(startT := Some(now - CounterToTime(u.counter, D(u))));
          ReplacedTwice(units, t, u, Refreshed(u, now));
          units := units[t := u];
          UpdateAllCcTimers(t);
          UpdateMasterTimer();
        } else {
          units := units[t := u];
        }
      }
    }

    method TaskStop(t: nat, ghost pending: set<(nat, nat)>)
      requires AllArmed(units, now, pending) && t < N_TIMERS
      modifies `units, `timer
      ensures AllArmed(units, now, pending) && SameEvents(old(units), units)
      ensures units == old(units)[t := Stopped(old(units[t]), now)]
      ensures timer == old(timer) || timer == Earliest(Times(units))
    {
      StopKeeps(units[t], now, Exempt(pending, t));
      OneReplaced(units, t, Stopped(units[t], now), now, pending);
      hide Armed, AllArmed, SameEvents, Times, Earliest;
      var u := units[t];
      if u.running {
        if !u.countMode {
          u := u.(counter := TimeToCounter(Elapsed(u, now), D(u)) % UINT32);
        }
        units := units[t := u.(running := false, ccTimers := seq(|u.cc|, _ => None))];
        UpdateMasterTimer();
      }
    }

    method TaskShutdown(t: nat, ghost pending: set<(nat, nat)>)
      requires AllArmed(units, now, pending) && t < N_TIMERS
      modifies `units, `timer
      ensures AllArmed(units, now, pending) && SameEvents(old(units), units)
      ensures units == old(units)[t := ShutDown(old(units[t]))]
      ensures timer == Earliest(Times(units))
    {
      ShutDownKeeps(units[t], now, Exempt(pending, t));
      OneReplaced(units, t, ShutDown(units[t]), now, pending);
      hide Armed, AllArmed, SameEvents, Times, Earliest;
      var u := units[t];
      units := units[t := u.(running := false, counter := 0, startT := None, ccTimers := seq(|u.cc|, _ => None))];
      UpdateMasterTimer();
    }

    method TaskClear(t: nat, ghost pending: set<(nat, nat)>)
      requires AllArmed(units, now, pending) && t < N_TIMERS
      modifies `units, `timer
      ensures AllArmed(units, now, pending) && SameEvents(old(units), units)
      ensures units == old(units)[t := Cleared(old(units[t]), now)]
      ensures timer == old(timer) || timer == Earliest(Times(units))
    {
      ClearKeeps(units[t], now, Exempt(pending, t));
      OneReplaced(units, t, Cleared(units[t], now), now, pending);
      hide Armed, AllArmed, SameEvents, Timed, Times, Earliest;
      var u := units[t].(counter := 0);
      if !u.countMode {
        u := u.(startT := Some(now));
        ReplacedTwice(units, t, u, Refreshed(u, now));
        units := units[t := u];
        UpdateAllCcTimers(t);
        UpdateMasterTimer();
      } else {
        units := units[t := u];
      }
    }

    method TaskCapture(t: nat, k: nat, ghost pending: set<(nat, nat)>)
      requires AllArmed(units, now, pending) && t < N_TIMERS && k < NCcs(t)
      modifies `units, `timer
      ensures AllArmed(units, now, pending) && SameEvents(old(units), units)
      ensures units == old(units)[t := Captured(old(units[t]), k, now)]
      ensures units[t].cc == old(units[t]).cc[k := units[t].cc[k]]
      ensures Live(old(units[t])) ==> Reads(old(units[t]), old(units[t]).startT.value, units[t].cc[k], now)
      ensures old(units[t]).countMode ==> units[t].cc[k] == old(units[t]).counter % Range(old(units[t]).bitmode)
      ensures timer == old(timer) || timer == Earliest(Times(units))
    {
      hide Armed, AllArmed, SameEvents, Timed, TimeToCounter, Times, Earliest, Reads;
      CaptureIs(units, t, k, now, pending);
      var u := units[t];
      if u.countMode {
        units := units[t := u.(cc := u.cc[k := u.counter % R(u)])];
      } else {
        u := u.(cc := u.cc[k := TimeToCounter(Elapsed(u, now), D(u)) % R(u)]);
        ReplacedTwice(units, t, u, u.(ccTimers := u.ccTimers[k := Timed(u, k, now)]));
        units := units[t := u];
        UpdateCcTimer(t, k);
        UpdateMasterTimer();
      }
    }

    /** The interrupt line follows the enabled events. */
    method EvalInterrupts(t: nat)
      requires t < |units| && WellFormed(units[t])
      modifies `units
      ensures units == old(units)[t := Evaluated(old(units[t]))]
      ensures old(units[t].irqLine == units[t].intLine) ==>
        (units[t].irqLine <==> exists k :: 0 <= k < |units[t].events| && units[t].events[k] && units[t].inten[k])
    {
      var u := units[t];
      var line := false;
      var k := 0;
      while k < |u.events|
        invariant 0 <= k <= |u.events|
        invariant !line && forall j :: 0 <= j < k ==> !(u.events[j] && u.inten[j])
      {
        if u.events[k] && u.inten[k] {
          line := true;
          break;
        }
        k := k + 1;
      }
      if !u.intLine && line {
        u := u.(intLine := true);
        u := u.(irqLine := true);
      } else if u.intLine && !line {
        u := u.(intLine := false);
        u := u.(irqLine := false);
      }
      units := units[t := u];
    }

    /** Signals COMPARE: its shortcuts, its event, its interrupt, and then whatever the PPI connects. */
    method SignalCompare(t: nat, k: nat, ghost pending: set<(nat, nat)>)
      requires Ready() && AllArmed(units, now, pending) && t < N_TIMERS && k < NCcs(t)
      modifies `units, `timer, `signals, `history
      ensures AllArmed(units, now, pending) && OneMoreEvent(old(units), units, t, k, now)
      ensures Ready() && Triggered() && signals > old(signals) && Remaining() <= old(Remaining())
      ensures old(Remaining()) == 0 ==> Remaining() == 0 && units == old(units)[t := Compared(old(units[t]), k, now)]
      decreases Remaining(), 1
    {
      hide Armed, Shape, SameEvents, OneMoreEvent, AllArmed, WellFormed, By, NothingFrom, Performed, PerformedAnd,
        Performing;
      Compare(t, k, pending);
      ghost var before, first := history, signals;
      var n := signals;
      signals := signals + 1;
      if n < |plan| {
        ghost var compared := units;
        SameAsItself(compared);
        StartsPerforming(plan, before, first);
        var i := 0;
        while i < |plan[n]|
          invariant 0 <= i <= |plan[n]| && AllArmed(units, now, pending) && SameEvents(compared, units)
          invariant Ready() && signals > first && Performing(plan, before, n, history, signals, i)
          invariant Remaining() < old(Remaining())
          decreases |plan[n]| - i
        {
          assert plan[n][i] in plan[n];
          ghost var between, done, started := units, history, signals;
          DoTask(plan[n][i], Some(n), pending);
          ThenSameEvents(compared, between, units);
          PerformsOneMore(plan, before, n, done, started, i, history, signals);
          i := i + 1;
        }
        OneMoreThenSame(old(units), compared, units, t, k, now);
        HasPerformed(plan, before, n, history, signals);
      } else {
        NothingPlanned(plan, before, n);
      }
    }

    method Compare(t: nat, k: nat, ghost pending: set<(nat, nat)>)
      requires AllArmed(units, now, pending) && t < N_TIMERS && k < NCcs(t)
      modifies `units, `timer
      ensures AllArmed(units, now, pending) && OneMoreEvent(old(units), units, t, k, now)
      ensures units == old(units)[t := Compared(old(units[t]), k, now)]
    {
      CompareKeeps(units[t], k, now, Exempt(pending, t));
      OneReplaced(units, t, Compared(units[t], k, now), now, pending);
      OneReplacedWithEvent(units, t, Compared(units[t], k, now), k, now);
      hide Armed, AllArmed, SameEvents, OneMoreEvent, Shortcut, InterruptRequested, Recorded, Evaluated;
      ghost var before, was := units, units[t];
      ghost var s := Shortcut(was, k, now);
      RunShortcuts(t, k, pending);
      Record(t, k);
      ReplacedTwice(before, t, s, Recorded(s, k, now));
      EvalInterrupts(t);
      ReplacedTwice(before, t, Recorded(s, k, now), Compared(was, k, now));
    }

    method Record(t: nat, k: nat)
      requires t < |units| && WellFormed(units[t]) && k < |units[t].cc|
      modifies `units
      ensures units == old(units)[t := Recorded(old(units[t]), k, now)]
    {
      var u := units[t];
      units := units[t := u.(events := u.events[k := true], compares := u.compares[k := u.compares[k] + [now]])];
    }

    method RunShortcuts(t: nat, k: nat, ghost pending: set<(nat, nat)>)
      requires AllArmed(units, now, pending) && t < N_TIMERS && k < NCcs(t)
      modifies `units, `timer
      ensures AllArmed(units, now, pending) && units == old(units)[t := Shortcut(old(units[t]), k, now)]
    {
      var u := units[t];
      if u.clearShorts[k] {
        TaskClear(t, pending);
      }
      if u.stopShorts[k] {
        TaskStop(t, pending);
      }
    }

    /** Counts, in counter mode; each compare looks at the counter anew, since the one before may have cleared it. */
    method TaskCount(t: nat, ghost pending: set<(nat, nat)>)
      requires Ready() && AllArmed(units, now, pending) && t < N_TIMERS
      modifies `units, `timer, `signals, `history
      ensures AllArmed(units, now, pending) && SameEvents(old(units), units)
      ensures Ready() && Triggered() && Remaining() <= old(Remaining())
      ensures !(old(units[t]).countMode && old(units[t]).running) ==> units == old(units)
      ensures old(units[t]).countMode && old(units[t]).running && old(Remaining()) == 0 ==>
        var u := old(units[t]);
        units == old(units)[t := ComparedFrom(u.(counter := (u.counter + 1) % Range(u.bitmode)), 0, now)]
      decreases Remaining(), 3
    {
      SameAsItself(units);
      NothingPerformed(plan, history, signals);
      if units[t].countMode && units[t].running {
        CountIs(units, t, now, pending);
        hide Armed, SameEvents, OneMoreEvent, Timed, Compared, ComparedFrom, AllArmed, WellFormed, Performed,
          NothingFrom;
        units := units[t := units[t].(counter := (units[t].counter + 1) % R(units[t]))];
        CompareAll(t, old(units), pending);
      }
    }

    method CompareAll(t: nat, ghost before: seq<Unit>, ghost pending: set<(nat, nat)>)
      requires Ready() && AllArmed(units, now, pending) && t < N_TIMERS
      requires SameEvents(before, units) && t < |before| && before[t].countMode
      modifies `units, `timer, `signals, `history
      ensures AllArmed(units, now, pending) && SameEvents(before, units)
      ensures Ready() && Triggered() && Remaining() <= old(Remaining())
      ensures old(Remaining()) == 0 ==> units == old(units)[t := ComparedFrom(old(units[t]), 0, now)]
      decreases Remaining(), 2
    {
      hide Armed, Timed, Compared, WellFormed, SameEvents, OneMoreEvent, Performed, NothingFrom;
      NothingPerformed(plan, history, signals);
      var k := 0;
      while k < NCcs(t)
        invariant 0 <= k <= NCcs(t) && AllArmed(units, now, pending) && SameEvents(before, units)
        invariant Ready() && Triggered() && Remaining() <= old(Remaining())
        invariant old(Remaining()) == 0 ==> Remaining() == 0 && units == old(units)[t := units[t]]
        invariant old(Remaining()) == 0 ==> ComparedFrom(units[t], k, now) == ComparedFrom(old(units[t]), 0, now)
      {
        if units[t].counter == units[t].cc[k] % R(units[t]) {
          ghost var between, done, n := units, history, signals;
          SignalCompare(t, k, pending);
          SameButCounting(before, between, units, t, k, now);
          PerformedThen(plan, old(history), old(signals), done, n, history, signals);
        }
        k := k + 1;
      }
    }

    /** A task is triggered, by the COMPARE with number `who`, or by nobody of them. */
    method DoTask(task: Task, ghost who: Option<nat>, ghost pending: set<(nat, nat)>)
      requires Ready() && AllArmed(units, now, pending) && Exists(task) && (who.Some? ==> who.value < signals)
      modifies `units, `timer, `signals, `history
      ensures AllArmed(units, now, pending) && SameEvents(old(units), units) && Remaining() <= old(Remaining())
      ensures Ready() && PerformedAnd(plan, old(history), old(signals), history, signals, Done(who, task))
      ensures !task.Count? ==> units == old(units)[task.t := TaskDone(old(units[task.t]), task, now)]
      ensures task.Count? && !(old(units[task.t]).countMode && old(units[task.t]).running) ==> units == old(units)
      decreases Remaining(), 4
    {
      hide Armed, AllArmed, SameEvents, By, NothingFrom, Performed, PerformedAnd, WellFormed;
      ghost var before, n, d := history, signals, Done(who, task);
      RecordedNothingFrom(history, signals, d);
      history := history + [d];
      NothingPerformed(plan, history, signals);
      match task {
        case Start(t) => TaskStart(t, pending);
        case Stop(t) => TaskStop(t, pending);
        case Shutdown(t) => TaskShutdown(t, pending);
        case Clear(t) => TaskClear(t, pending);
        case Capture(t, k) => TaskCapture(t, k, pending);
        case Count(t) => TaskCount(t, pending);
      }
      RecordedThen(plan, before, n, d, history, signals);
    }

    // ---------- The timer ----------

    /** The compares that are due, in ascending order. */
    method Collect() returns (due: seq<(nat, nat)>)
      requires Shape(units) && timer == Some(now)
      ensures forall p: (nat, nat) :: p in due <==> DueIn(units, p, now)
      ensures forall i, j :: 0 <= i < j < |due| ==> due[i] != due[j]
    {
      due := [];
      var t := 0;
      while t < N_TIMERS
        invariant 0 <= t <= N_TIMERS
        invariant forall p: (nat, nat) :: p in due <==> p.0 < t && DueIn(units, p, now)
        invariant forall i, j :: 0 <= i < j < |due| ==> due[i] != due[j]
      {
        if Live(units[t]) {
          var k := 0;
          while k < NCcs(t)
            invariant 0 <= k <= NCcs(t)
            invariant forall p: (nat, nat) :: p in due <==> (p.0 < t || (p.0 == t && p.1 < k)) && DueIn(units, p, now)
            invariant forall i, j :: 0 <= i < j < |due| ==> due[i] != due[j]
          {
            if units[t].ccTimers[k] == timer {
              assert (t, k) !in due;
              due := due + [(t, k)];
            }
            k := k + 1;
          }
        }
        t := t + 1;
      }
    }

    /** The timer is reached. Every compare of a timer that is due then is signalled exactly once, and no other one,
        whatever the shortcuts and the PPI do meanwhile to the counters; afterwards everything is armed again. */
    method TimerTriggered()
      requires Valid() && timer.Some?
      modifies `now, `units, `timer, `signals, `history
      ensures Valid() && Some(now) == old(timer) && now > old(now)
      ensures Triggered() && Remaining() <= old(Remaining())
      ensures forall t :: 0 <= t < N_TIMERS ==> SameSetup(old(units[t]), units[t])
      ensures forall t, k :: 0 <= t < N_TIMERS && 0 <= k < NCcs(t) && !units[t].countMode ==>
        units[t].compares[k] == old(units[t]).compares[k] + if IsDue(old(units[t]), k, now) then [now] else []
      ensures old(Remaining()) == 0 ==>
        forall t :: 0 <= t < N_TIMERS && Live(old(units[t])) && NeverStops(old(units[t])) ==>
          Dispatched(old(units[t]), units[t], now)
    {
      ghost var before, previous := units, now;
      NothingExempt(units, now);
      AllLater(units, now);
      now := timer.value;
      var due := Collect();
      AllTimePasses(units, previous, now, Pairs(due));
      DispatchAll(due);
      assert forall p: (nat, nat) :: p in due <==> DueIn(before, p, now);
      forall t, k | 0 <= t < N_TIMERS && 0 <= k < NCcs(t)
        ensures (t, k) in due <==> IsDue(before[t], k, now)
      {
        assert (t, k) in due <==> DueIn(before, (t, k), now);
      }
      UpdateMasterTimer();
    }

    method DispatchAll(all: seq<(nat, nat)>)
      requires Ready() && AllArmed(units, now, Pairs(all))
      requires forall p: (nat, nat) :: p in all ==> DueIn(units, p, now)
      requires forall i, j :: 0 <= i < j < |all| ==> all[i] != all[j]
      modifies `units, `timer, `signals, `history
      ensures AllArmed(units, now, {}) && Ready() && Triggered() && Remaining() <= old(Remaining())
      ensures forall t :: 0 <= t < N_TIMERS ==> SignalledSoFar(old(units[t]), units[t], t, all, [], now)
      ensures old(Remaining()) == 0 ==> AllDispatchedSoFar(old(units), units, all, [], now)
    {
      hide NothingFrom, Performed;
      ghost var before := units;
      NothingPerformed(plan, history, signals);
      var due := all;
      while |due| > 0
        invariant AllArmed(units, now, Pairs(due)) && Ready() && Triggered() && Remaining() <= old(Remaining())
        invariant forall p: (nat, nat) :: p in due ==> p in all
        invariant forall i, j :: 0 <= i < j < |due| ==> due[i] != due[j]
        invariant forall t :: 0 <= t < N_TIMERS ==> SignalledSoFar(before[t], units[t], t, all, due, now)
        invariant old(Remaining()) == 0 ==> Remaining() == 0 && AllDispatchedSoFar(before, units, all, due, now)
        decreases |due|
      {
        var (t, k) := due[|due| - 1];
        ghost var pending := due;
        due := due[..|due| - 1];
        assert pending == due + [(t, k)];
        assert DueIn(before, (t, k), now);
        ghost var done, n := history, signals;
        Dispatch(t, k, before, all, pending, due, old(Remaining()) == 0);
        PerformedThen(plan, old(history), old(signals), done, n, history, signals);
      }
      assert due == [] && Pairs(due) == {};
    }

    /** One compare that is due: its next time first, then its signal. */
    method Dispatch(t: nat, k: nat, ghost before: seq<Unit>, ghost all: seq<(nat, nat)>, ghost pending: seq<(nat, nat)>,
                    ghost due: seq<(nat, nat)>, ghost quiet: bool)
      requires Ready() && AllArmed(units, now, Pairs(pending)) && |before| == N_TIMERS && (t, k) in all
      requires pending == due + [(t, k)] && (t, k) !in due && t < N_TIMERS && Live(before[t]) && k < NCcs(t)
      requires forall s :: 0 <= s < N_TIMERS ==> WellFormed(before[s])
      requires forall s :: 0 <= s < N_TIMERS ==> SignalledSoFar(before[s], units[s], s, all, pending, now)
      requires quiet ==> Remaining() == 0 && AllDispatchedSoFar(before, units, all, pending, now)
      modifies `units, `timer, `signals, `history
      ensures AllArmed(units, now, Pairs(due)) && Ready() && Triggered() && Remaining() <= old(Remaining())
      ensures forall s :: 0 <= s < N_TIMERS ==> SignalledSoFar(before[s], units[s], s, all, due, now)
      ensures quiet ==> Remaining() == 0 && AllDispatchedSoFar(before, units, all, due, now)
    {
      hide NothingFrom, Performed;
      OneLessPending(units, now, due, t, k);
      UpdateCcTimer(t, k);
      ghost var armed := units;
      SignalCompare(t, k, Pairs(due));
      SignalledOneMore(before, armed, units, all, pending, due, t, k, now);
      if quiet {
        DispatchedOneMore(before, armed, units, all, pending, due, t, k, now);
      }
    }

    /** When nothing else interferes, a timer that its own compare clears fires periodically, without drift. */
    method RunPeriodic(t: nat, n: nat, until: int)
      requires Valid() && Remaining() == 0 && t < N_TIMERS && n < NCcs(t) && Periodic(units[t], n) && now <= until
      modifies `now, `units, `timer, `signals, `history
      ensures Valid() && now == until
      ensures old(units[t].ccTimers[n]).Some?
      ensures units[t].compares[n] == old(units[t].compares[n])
        + Every(old(units[t].ccTimers[n]).value, Period(old(units[t]), n), until)
    {
      NotBeforeEarliest(units, now, t, n);
      hide Armed, Every, Earliest, Times, Dispatched, Period, SameSetup;
      ghost var p := Period(units[t], n);
      ghost var all := units[t].compares[n] + Every(units[t].ccTimers[n].value, p, until);
      while timer.Some? && timer.value <= until
        invariant Valid() && Remaining() == 0 && now <= until && Periodic(units[t], n) && Period(units[t], n) == p
        invariant units[t].ccTimers[n].Some?
        invariant units[t].compares[n] + Every(units[t].ccTimers[n].value, p, until) == all
        decreases until - now
      {
        ghost var u, previous := units[t], now;
        NotBeforeEarliest(units, now, t, n);
        TimerTriggered();
        PeriodicFires(u, units[t], n, previous, now, until);
      }
      NotBeforeEarliest(units, now, t, n);
      IdleUntil(units, now, until);
      now := until;
      EveryIsOver(units[t].ccTimers[n].value, p, until);
    }
  }

  lemma NotBeforeEarliest(units: seq<Unit>, now: int, t: nat, n: nat)
    requires AllArmed(units, now, {}) && t < N_TIMERS && Live(units[t]) && n < |units[t].cc|
    ensures Armed(units[t], now, {}) && units[t].ccTimers[n].Some? && Earliest(Times(units)).Some?
    ensures Earliest(Times(units)).value <= units[t].ccTimers[n].value
  {
    NothingExempt(units, now);
    assert units[t] in units;
    TimesOfAll(units, t);
    EarliestIsMinimum(Times(units), units[t].ccTimers[n].value);
  }

  lemma EveryIsOver(first: int, step: int, until: int)
    requires step > 0 && first > until
    ensures Every(first, step, until) == []
  {
  }

  lemma IdleUntil(units: seq<Unit>, now: int, until: int)
    requires AllArmed(units, now, {}) && now <= until
    requires Earliest(Times(units)).Some? ==> until < Earliest(Times(units)).value
    ensures AllArmed(units, until, {})
  {
    forall p: (nat, nat) | DueIn(units, p, until)
      ensures false
    {
      NotBeforeEarliest(units, now, p.0, p.1);
    }
    AllTimePasses(units, now, until, {});
  }

  lemma PeriodicFires(u: Unit, r: Unit, n: nat, previous: int, now: int, until: int)
    requires Periodic(u, n) && Armed(u, previous, {}) && Armed(r, now, {}) && previous < now <= until
    requires u.ccTimers[n].Some? && now <= u.ccTimers[n].value
    requires SameSetup(u, r) && Dispatched(u, r, now)
    requires r.compares[n] == u.compares[n] + if IsDue(u, n, now) then [now] else []
    ensures Periodic(r, n) && Period(r, n) == Period(u, n) && r.ccTimers[n].Some?
    ensures r.compares[n] + Every(r.ccTimers[n].value, Period(u, n), until)
         == u.compares[n] + Every(u.ccTimers[n].value, Period(u, n), until)
  {
    if IsDue(u, n, now) {
      assert u.clearShorts[n];
      ClearedThenPeriod(r, n, now);
      assert u.compares[n] + [now] + Every(now + Period(u, n), Period(u, n), until)
          == u.compares[n] + ([now] + Every(now + Period(u, n), Period(u, n), until));
    } else {
      assert r.startT == u.startT;
      WrapTimeIsExact(R(u), D(u));
      NextMatchStable(u.startT.value, u.cc[n], R(u), D(u), previous, now);
    }
  }

  lemma CcWithinWrap(u: Unit, k: nat)
    requires WellFormed(u) && k < |u.cc|
    ensures 0 <= CounterToTime(u.cc[k], D(u)) <= W(u)
  {
    WrapTimeIsExact(R(u), D(u));
    Product(u.cc[k], D(u));
    Multiples(u.cc[k], R(u), D(u));
  }
}
