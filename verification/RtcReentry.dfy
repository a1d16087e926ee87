/**
 The timer handler of the RTC when the PPI runs tasks of the RTC inside of it. START, STOP, CLEAR and TRIGOVRFLW
 calculate all times of their counter anew and set the common timer to the earliest time of all, while the handler
 still compares the times of the counters with that timer.

 Here a counter is its five times, four compares and the overflow. What a task leaves behind is not calculated but
 arbitrary, except that times lie in the future, and that a stopped counter has none: `Rtc` proves that of every task.
 */
module RtcReentry {
  import opened Common
  import Rtc
  import RtcTime

  /** RTC0 and RTC1. */
  const N_UNITS: nat := 2
  const N_TIMES: nat := 5

  type Times = seq<Option<int>>

  /** What a task leaves of counter `rtc`. */
  datatype Change = Change(rtc: nat, running: bool, times: Times)

  /** The n-th event signalled runs the tasks `plan[n]`; the time that is calculated for it anew is `renewal(n)`. */
  datatype Env = Env(now: int, plan: seq<seq<Change>>, renewal: nat -> int)

  /** `touched` are the counters that a task has changed, `signalled` the events so far. */
  datatype State = State(running: seq<bool>, times: seq<Times>, timer: Option<int>,
                         touched: set<nat>, signalled: seq<(nat, nat)>)

  predicate InFuture(running: bool, times: Times, now: int) {
    |times| == N_TIMES
    && forall i :: 0 <= i < N_TIMES ==> if running then times[i].Some? && times[i].value > now else times[i].None?
  }

  ghost predicate Possible(env: Env) {
    && (forall n: nat :: env.renewal(n) > env.now)
    && (forall n, c :: 0 <= n < |env.plan| && c in env.plan[n] ==>
          c.rtc < N_UNITS && InFuture(c.running, c.times, env.now))
  }

  /** After every task of the RTC the times of a counter are like this. */
  lemma TasksLeaveFuture(u: Rtc.Unit, now: int)
    requires Rtc.Armed(u, now)
    ensures InFuture(u.running, u.ccTimers + [u.overflowTimer], now)
  {
    var times := u.ccTimers + [u.overflowTimer];
    if u.running {
      Rtc.RunningIsLater(u, now);
      assert forall i :: 0 <= i < N_TIMES ==> times[i] in times;
    }
  }

  predicate Shaped(s: State) {
    |s.running| == |s.times| == N_UNITS && forall r :: 0 <= r < N_UNITS ==> |s.times[r]| == N_TIMES
  }

  /** The times of the running counters. */
  function Live(s: State): (l: Times)
    requires Shaped(s)
    ensures forall t :: t in l <==> exists r :: 0 <= r < N_UNITS && s.running[r] && t in s.times[r]
  {
    (if s.running[0] then s.times[0] else []) + if s.running[1] then s.times[1] else []
  }

  // ---------- The handler ----------

  function Changed(s: State, c: Change): (r: State)
    requires Shaped(s) && c.rtc < N_UNITS && |c.times| == N_TIMES
    ensures Shaped(r) && r.signalled == s.signalled
  {
    var s := s.(running := s.running[c.rtc := c.running], times := s.times[c.rtc := c.times],
                touched := s.touched + {c.rtc});
    s.(timer := Earliest(Live(s)))
  }

  function ChangedAll(env: Env, s: State, changes: seq<Change>): (r: State)
    requires Shaped(s) && Possible(env)
    requires forall c <- changes :: c.rtc < N_UNITS && InFuture(c.running, c.times, env.now)
    ensures Shaped(r) && r.signalled == s.signalled
    decreases |changes|
  {
    if changes == [] then s
    else
      assert changes[0] in changes && InFuture(changes[0].running, changes[0].times, env.now);
      ChangedAll(env, Changed(s, changes[0]), changes[1..])
  }

  /** The event of time `i` of counter `r`: its next time first, then whatever the PPI runs. */
  function Signalled(env: Env, s: State, r: nat, i: nat): (q: State)
    requires Shaped(s) && Possible(env) && r < N_UNITS && i < N_TIMES
    ensures Shaped(q) && q.signalled == s.signalled + [(r, i)]
  {
    var n := |s.signalled|;
    var time := if s.running[r] then Some(env.renewal(n)) else None;
    var s := s.(times := s.times[r := s.times[r][i := time]], signalled := s.signalled + [(r, i)]);
    if n < |env.plan| then ChangedAll(env, s, env.plan[n]) else s
  }

  function Visited(env: Env, s: State, r: nat, i: nat): (q: State)
    requires Shaped(s) && Possible(env) && r < N_UNITS && i < N_TIMES
    ensures Shaped(q)
  {
    if s.times[r][i] == s.timer then Signalled(env, s, r, i) else s
  }

  /** Before time `i` of counter `r` is visited, the counter having been running when its turn came. */
  function Before(env: Env, s: State, r: nat, i: nat): (q: State)
    requires Shaped(s) && Possible(env) && r < N_UNITS && i <= N_TIMES
    ensures Shaped(q)
    decreases r, i
  {
    if i > 0 then
      var q := Before(env, s, r, i - 1);
      if Before(env, s, r, 0).running[r] then Visited(env, q, r, i - 1) else q
    else if r > 0 then Before(env, s, r - 1, N_TIMES)
    else s
  }

  function Handled(env: Env, s: State): (q: State)
    requires Shaped(s) && Possible(env)
    ensures Shaped(q)
  {
    var q := Before(env, s, N_UNITS - 1, N_TIMES);
    q.(timer := Earliest(Live(q)))
  }

  // ---------- What is signalled ----------

  /** The state in which the handler is entered: the timer is the earliest time, and it has come. */
  predicate Entered(env: Env, s: State) {
    && Shaped(s) && s.timer == Some(env.now) == Earliest(Live(s)) && s.touched == {} && s.signalled == []
    && (forall r, i :: 0 <= r < N_UNITS && 0 <= i < N_TIMES ==>
          if s.running[r] then s.times[r][i].Some? && s.times[r][i].value >= env.now else s.times[r][i].None?)
  }

  predicate IsDue(env: Env, s: State, r: nat, i: nat)
    requires Shaped(s) && r < N_UNITS && i < N_TIMES
  {
    s.running[r] && s.times[r][i] == Some(env.now)
  }

  predicate IsBefore(r: nat, i: nat, q: nat, j: nat) {
    r < q || (r == q && i < j)
  }

  /** Some time is still due. */
  predicate SomeDue(env: Env, q: State)
    requires Shaped(q)
  {
    exists r, i :: 0 <= r < N_UNITS && 0 <= i < N_TIMES && IsDue(env, q, r, i)
  }

  /** What a visit of (`r`, `i`) finds: a counter that no task has changed has the times not yet visited as they were;
      all other times are in the future; and the timer is still now, unless a task has been run and nothing is due. */
  predicate Midway(env: Env, s: State, q: State, r: nat, i: nat)
    requires Shaped(s)
  {
    && Shaped(q)
    && (forall u :: 0 <= u < N_UNITS && u in q.touched ==> InFuture(q.running[u], q.times[u], env.now))
    && (forall u :: 0 <= u < N_UNITS && u !in q.touched ==> q.running[u] == s.running[u])
    && (forall u, k :: 0 <= u < N_UNITS && 0 <= k < N_TIMES && u !in q.touched ==>
          if !IsBefore(u, k, r, i) then q.times[u][k] == s.times[u][k]
          else if s.running[u] then q.times[u][k].Some? && q.times[u][k].value > env.now
          else q.times[u][k].None?)
    && (q.timer == Some(env.now) || (q.touched != {} && !SomeDue(env, q)))
  }

  lemma EarliestOfLive(env: Env, q: State)
    requires Shaped(q)
    requires forall r, i :: 0 <= r < N_UNITS && 0 <= i < N_TIMES && q.running[r] ==>
      q.times[r][i].Some? && q.times[r][i].value >= env.now
    ensures Earliest(Live(q)) == Some(env.now) <==> SomeDue(env, q)
  {
    EarliestIsOneOfThem(Live(q));
    if Earliest(Live(q)) == Some(env.now) {
      var r :| 0 <= r < N_UNITS && q.running[r] && Some(env.now) in q.times[r];
      var i :| 0 <= i < N_TIMES && q.times[r][i] == Some(env.now);
      assert IsDue(env, q, r, i);
    }
    if SomeDue(env, q) {
      var r, i :| 0 <= r < N_UNITS && 0 <= i < N_TIMES && IsDue(env, q, r, i);
      assert Some(env.now) in Live(q);
      EarliestIsMinimum(Live(q), env.now);
    }
  }

  lemma ChangedStaysMidway(env: Env, s: State, q: State, r: nat, i: nat, c: Change)
    requires Possible(env) && Entered(env, s) && Midway(env, s, q, r, i)
    requires c.rtc < N_UNITS && InFuture(c.running, c.times, env.now)
    ensures Midway(env, s, Changed(q, c), r, i) && Changed(q, c).touched == q.touched + {c.rtc}
  {
    hide Earliest;
    EarliestOfLive(env, Changed(q, c));
  }

  lemma {:induction false} ChangedAllStaysMidway(env: Env, s: State, q: State, r: nat, i: nat, changes: seq<Change>)
    requires Possible(env) && Entered(env, s) && Midway(env, s, q, r, i)
    requires forall c <- changes :: c.rtc < N_UNITS && InFuture(c.running, c.times, env.now)
    ensures Midway(env, s, ChangedAll(env, q, changes), r, i)
    decreases |changes|
  {
    if changes != [] {
      assert changes[0] in changes;
      ChangedStaysMidway(env, s, q, r, i, changes[0]);
      ChangedAllStaysMidway(env, s, Changed(q, changes[0]), r, i, changes[1..]);
    }
  }

  lemma PassedStaysMidway(env: Env, s: State, q: State, r: nat, i: nat)
    requires Entered(env, s) && Midway(env, s, q, r, i) && r < N_UNITS && i < N_TIMES
    requires q.times[r][i] != q.timer
    ensures Midway(env, s, q, r, i + 1)
  {
    hide Earliest, Live;
    assert !IsDue(env, q, r, i);
  }

  lemma RenewedStaysMidway(env: Env, s: State, q: State, r: nat, i: nat, time: Option<int>)
    requires Entered(env, s) && Midway(env, s, q, r, i) && r < N_UNITS && i < N_TIMES
    requires if q.running[r] then time.Some? && time.value > env.now else time.None?
    ensures
      var v := q.(times := q.times[r := q.times[r][i := time]], signalled := q.signalled + [(r, i)]);
      Midway(env, s, v, r, i + 1)
  {
    hide Earliest, Live;
    var v := q.(times := q.times[r := q.times[r][i := time]], signalled := q.signalled + [(r, i)]);
    forall u, k | 0 <= u < N_UNITS && 0 <= k < N_TIMES && IsDue(env, v, u, k)
      ensures IsDue(env, q, u, k)
    {
    }
    assert SomeDue(env, v) ==> SomeDue(env, q);
  }

  lemma VisitedStaysMidway(env: Env, s: State, q: State, r: nat, i: nat)
    requires Possible(env) && Entered(env, s) && Midway(env, s, q, r, i) && r < N_UNITS && i < N_TIMES
    ensures Midway(env, s, Visited(env, q, r, i), r, i + 1)
  {
    hide Earliest, Live, Entered;
    var n := |q.signalled|;
    if q.times[r][i] == q.timer {
      var time := if q.running[r] then Some(env.renewal(n)) else None;
      var v := q.(times := q.times[r := q.times[r][i := time]], signalled := q.signalled + [(r, i)]);
      RenewedStaysMidway(env, s, q, r, i, time);
      hide Midway;
      if n < |env.plan| {
        ChangedAllStaysMidway(env, s, v, r, i + 1, env.plan[n]);
      }
    } else {
      PassedStaysMidway(env, s, q, r, i);
    }
  }

  lemma {:induction false} NotItsTurn(env: Env, s: State, r: nat, i: nat)
    requires Shaped(s) && Possible(env) && r < N_UNITS && i <= N_TIMES && !Before(env, s, r, 0).running[r]
    ensures Before(env, s, r, i) == Before(env, s, r, 0)
    decreases i
  {
    if i > 0 {
      NotItsTurn(env, s, r, i - 1);
    }
  }

  lemma {:induction false} BeforeIsMidway(env: Env, s: State, r: nat, i: nat)
    requires Possible(env) && Entered(env, s) && r < N_UNITS && i <= N_TIMES
    ensures Midway(env, s, Before(env, s, r, i), r, i)
    decreases r, i
  {
    hide Earliest, Live;
    if i > 0 {
      BeforeIsMidway(env, s, r, i - 1);
      if Before(env, s, r, 0).running[r] {
        VisitedStaysMidway(env, s, Before(env, s, r, i - 1), r, i - 1);
      } else {
        NotItsTurn(env, s, r, i - 1);
      }
    } else if r > 0 {
      BeforeIsMidway(env, s, r - 1, N_TIMES);
    }
  }

  /** The times of `r` are visited at all. */
  predicate HasTurn(env: Env, s: State, r: nat)
    requires Shaped(s) && Possible(env) && r < N_UNITS
  {
    Before(env, s, r, 0).running[r]
  }

  /** Nothing is due any more, a task has set the timer to a time in the future, or to none when no counter is running,
      and the time that is visited happens to be the same. */
  predicate Spurious(env: Env, s: State, r: nat, i: nat)
    requires Shaped(s) && Possible(env) && r < N_UNITS && i < N_TIMES
  {
    var b := Before(env, s, r, i);
    b.timer != Some(env.now) && b.times[r][i] == b.timer
  }

  /** A time that is due survives exactly as long as no task changes its counter before it is visited. */
  predicate Survives(env: Env, s: State, r: nat, i: nat)
    requires Shaped(s) && Possible(env) && r < N_UNITS && i < N_TIMES
  {
    IsDue(env, s, r, i) && r !in Before(env, s, r, i).touched
  }

  predicate Fires(env: Env, s: State, r: nat, i: nat)
    requires Shaped(s) && Possible(env) && r < N_UNITS && i < N_TIMES
  {
    Survives(env, s, r, i) || (HasTurn(env, s, r) && Spurious(env, s, r, i))
  }

  /** A visit signals its event exactly when the time is due and its counter unchanged, or else spuriously; and that is
      only possible when tasks have been run and nothing is due any more. */
  lemma SignalledExactly(env: Env, s: State, r: nat, i: nat)
    requires Possible(env) && Entered(env, s) && r < N_UNITS && i < N_TIMES
    ensures Before(env, s, r, i + 1).signalled
         == Before(env, s, r, i).signalled + if Fires(env, s, r, i) then [(r, i)] else []
    ensures Survives(env, s, r, i) ==> HasTurn(env, s, r) && !Spurious(env, s, r, i)
    ensures Spurious(env, s, r, i) ==> Before(env, s, r, i).touched != {} && !SomeDue(env, Before(env, s, r, i))
  {
    BeforeIsMidway(env, s, r, i);
    var b := Before(env, s, r, i);
    if !HasTurn(env, s, r) {
      NotItsTurn(env, s, r, i);
      assert IsDue(env, s, r, i) ==> r in b.touched;
    }
    if Survives(env, s, r, i) {
      assert IsDue(env, b, r, i);
    }
    hide Earliest, Live;
  }

  lemma {:induction false} SignalledBefore(env: Env, s: State, r: nat, i: nat, q: nat, j: nat)
    requires Possible(env) && Entered(env, s) && r < N_UNITS && i <= N_TIMES && q < N_UNITS && j < N_TIMES
    ensures (q, j) in Before(env, s, r, i).signalled <==> IsBefore(q, j, r, i) && Fires(env, s, q, j)
    decreases r, i
  {
    EnteredWithNothing(env, s);
    hide Fires, Entered, Visited;
    if i > 0 {
      SignalledExactly(env, s, r, i - 1);
      SignalledBefore(env, s, r, i - 1, q, j);
    } else if r > 0 {
      SignalledBefore(env, s, r - 1, N_TIMES, q, j);
    }
  }

  lemma EnteredWithNothing(env: Env, s: State)
    requires Entered(env, s)
    ensures Shaped(s) && s.signalled == []
  {
  }

  /** What the handler signals. */
  lemma HandlerSignals(env: Env, s: State, r: nat, i: nat)
    requires Possible(env) && Entered(env, s) && r < N_UNITS && i < N_TIMES
    ensures (r, i) in Handled(env, s).signalled <==> Fires(env, s, r, i)
  {
    SignalledBefore(env, s, N_UNITS - 1, N_TIMES, r, i);
    hide Fires, Before;
  }

  predicate Ascending(l: seq<(nat, nat)>) {
    forall a, b :: 0 <= a < b < |l| ==> IsBefore(l[a].0, l[a].1, l[b].0, l[b].1)
  }

  lemma {:induction false} SignalledOnce(env: Env, s: State, r: nat, i: nat)
    requires Possible(env) && Entered(env, s) && r < N_UNITS && i <= N_TIMES
    ensures var l := Before(env, s, r, i).signalled;
      Ascending(l) && forall k :: 0 <= k < |l| ==> IsBefore(l[k].0, l[k].1, r, i) && l[k].1 < N_TIMES
    decreases r, i
  {
    hide Fires, Entered, Visited;
    if i > 0 {
      SignalledExactly(env, s, r, i - 1);
      SignalledOnce(env, s, r, i - 1);
    } else if r > 0 {
      SignalledOnce(env, s, r - 1, N_TIMES);
    } else {
      EnteredWithNothing(env, s);
    }
  }

  /** Every event is signalled at most once, in ascending order; afterwards no time is due, and the timer is the
      earliest of those to come. */
  lemma HandlerRearms(env: Env, s: State)
    requires Possible(env) && Entered(env, s)
    ensures var q := Handled(env, s);
      && Ascending(q.signalled) && q.timer == Earliest(Live(q)) && !SomeDue(env, q)
      && forall r, i :: 0 <= r < N_UNITS && 0 <= i < N_TIMES && q.running[r] ==>
           q.times[r][i].Some? && q.times[r][i].value > env.now
  {
    var r := N_UNITS - 1;
    SignalledOnce(env, s, r, N_TIMES);
    BeforeIsMidway(env, s, r, N_TIMES);
    AllVisited(env, s, Before(env, s, r, N_TIMES));
    hide Before, Earliest, Live, Midway, Entered;
  }

  lemma AllVisited(env: Env, s: State, q: State)
    requires Entered(env, s) && Midway(env, s, q, N_UNITS - 1, N_TIMES)
    ensures !SomeDue(env, q)
    ensures forall r, i :: 0 <= r < N_UNITS && 0 <= i < N_TIMES && q.running[r] ==>
      q.times[r][i].Some? && q.times[r][i].value > env.now
  {
    hide Earliest, Live;
    forall r, i | 0 <= r < N_UNITS && 0 <= i < N_TIMES && q.running[r]
      ensures q.times[r][i].Some? && q.times[r][i].value > env.now
    {
      assert IsBefore(r, i, N_UNITS - 1, N_TIMES);
    }
  }

  // ---------- When it is right ----------

  /** No task of the RTC is connected. */
  predicate Unconnected(env: Env) {
    forall n :: 0 <= n < |env.plan| ==> env.plan[n] == []
  }

  lemma {:induction false} NothingTouched(env: Env, s: State, r: nat, i: nat)
    requires Possible(env) && Entered(env, s) && Unconnected(env) && r < N_UNITS && i <= N_TIMES
    ensures Before(env, s, r, i).touched == {}
    decreases r, i
  {
    if i > 0 {
      NothingTouched(env, s, r, i - 1);
    } else if r > 0 {
      NothingTouched(env, s, r - 1, N_TIMES);
    }
  }

  /** Then the handler signals exactly what is due. */
  lemma UnconnectedIsRight(env: Env, s: State, r: nat, i: nat)
    requires Possible(env) && Entered(env, s) && Unconnected(env) && r < N_UNITS && i < N_TIMES
    ensures (r, i) in Handled(env, s).signalled <==> IsDue(env, s, r, i)
  {
    NothingTouched(env, s, r, i);
    SignalledExactly(env, s, r, i);
    HandlerSignals(env, s, r, i);
    hide Before, Handled;
  }

  // ---------- When it is not ----------

  /** The times of a counter. */
  function TimesOf(u: Rtc.Unit, now: int): Times
    requires Rtc.WellFormed(u)
  {
    [Rtc.MatchUs(u, u.cc[0], now), Rtc.MatchUs(u, u.cc[1], now), Rtc.MatchUs(u, u.cc[2], now),
     Rtc.MatchUs(u, u.cc[3], now), Rtc.MatchUs(u, RtcTime.COUNTER_RANGE, now)]
  }

  /** A counter without prescaler that has been running since `startT`. */
  predicate Counts(u: Rtc.Unit, startT: int) {
    && Rtc.WellFormed(u) && u.running && u.prescaler == 0 && u.cc == [100, 50, 0, 0]
    && u.startT == startT && u.negative == 0
  }

  lemma MatchIs(u: Rtc.Unit, c: int, now: int, k: int, m: int)
    requires u.prescaler == 0 && u.running
    requires m == Rtc.Origin(u) + c * 15625 + k * 262144000000 && 512 * now < m <= 512 * now + 262144000000
    ensures Rtc.MatchUs(u, c, now) == Some(RtcTime.CeilUs(m))
  {
    assert Rtc.P(u) == 15625 && RtcTime.Wrap(15625) == 262144000000;
    RtcTime.NextMatchIsUnique(m, Rtc.Origin(u), c, 15625, 512 * now, k);
  }

  const BEFORE: Times := [Some(3052), Some(512001526), Some(512000000), Some(512000000), Some(512000000)]
  const AFTER: Times := [Some(6104), Some(4578), Some(512003052), Some(512003052), Some(512003052)]
  const STOPPED: Times := [None, None, None, None, None]

  lemma TimesBefore(u: Rtc.Unit)
    requires Counts(u, 0)
    ensures TimesOf(u, 3051) == BEFORE
  {
    MatchIs(u, 100, 3051, 0, 1562500);
    MatchIs(u, 50, 3051, 1, 262144781250);
    MatchIs(u, 0, 3051, 1, 262144000000);
    MatchIs(u, RtcTime.COUNTER_RANGE, 3051, 0, 262144000000);
    hide Rtc.MatchUs;
  }

  lemma TimesAfter(u: Rtc.Unit)
    requires Counts(u, 1562500)
    ensures TimesOf(u, 3052) == AFTER
  {
    MatchIs(u, 100, 3052, 0, 3125000);
    MatchIs(u, 50, 3052, 0, 2343750);
    MatchIs(u, 0, 3052, 1, 262145562500);
    MatchIs(u, RtcTime.COUNTER_RANGE, 3052, 0, 262145562500);
    hide Rtc.MatchUs;
  }

  /** COMPARE[0] at 100 ticks clears its counter over the PPI, and COMPARE[1], at 50 ticks, is the earliest time then:
      it is signalled in the same microsecond, 3052, although it is due at 4578. */
  lemma ClearOverPpiIsEarly(u: Rtc.Unit, cleared: Rtc.Unit, renewal: nat -> int)
    requires forall n: nat :: renewal(n) > 3052
    requires Counts(u, 0) && Counts(cleared, RtcTime.LastLfTick(0, 3052))
    ensures
      var env := Env(3052, [[Change(0, true, TimesOf(cleared, 3052))]], renewal);
      var s := State([true, false], [TimesOf(u, 3051), STOPPED], Some(3052), {}, []);
      && Possible(env) && Entered(env, s)
      && TimesOf(cleared, 3052)[1] == Some(4578) && (0, 1) in Handled(env, s).signalled
  {
    assert RtcTime.LastLfTick(0, 3052) == 1562500;
    TimesBefore(u);
    TimesAfter(cleared);
    EarlyCompare(renewal);
    hide TimesOf, Rtc.MatchUs, Counts, Possible, Entered, Handled;
  }

  lemma EarlyCompare(renewal: nat -> int)
    requires forall n: nat :: renewal(n) > 3052
    ensures
      var env := Env(3052, [[Change(0, true, AFTER)]], renewal);
      var s := State([true, false], [BEFORE, STOPPED], Some(3052), {}, []);
      Possible(env) && Entered(env, s) && (0, 1) in Handled(env, s).signalled
  {
    var env := Env(3052, [[Change(0, true, AFTER)]], renewal);
    var s := State([true, false], [BEFORE, STOPPED], Some(3052), {}, []);
    EarliestOfBoth();
    assert Live(s) == BEFORE + [] == BEFORE;
    hide Earliest, Live;
    assert Possible(env) && Entered(env, s);
    CompareOfCleared(env, s);
    HandlerSignals(env, s, 0, 1);
  }

  lemma EarliestOfBoth()
    ensures Earliest(BEFORE) == Some(3052) && Earliest(AFTER) == Some(4578)
  {
    assert Some(3052) in BEFORE && Some(4578) in AFTER;
    EarliestIsMinimum(BEFORE, 3052);
    EarliestIsOneOfThem(BEFORE);
    EarliestIsMinimum(AFTER, 4578);
    EarliestIsOneOfThem(AFTER);
    hide Earliest;
  }

  lemma CompareOfCleared(env: Env, s: State)
    requires Possible(env) && Entered(env, s) && env.now == 3052 && env.plan == [[Change(0, true, AFTER)]]
    requires s.running == [true, false] && s.times == [BEFORE, STOPPED]
    ensures Fires(env, s, 0, 1)
  {
    EarliestOfBoth();
    hide Earliest, Midway;
    assert Before(env, s, 0, 0) == s;
    var v := Visited(env, s, 0, 0);
    assert Before(env, s, 0, 1) == v;
    var changes := env.plan[0];
    var q := s.(times := s.times[0 := s.times[0][0 := Some(env.renewal(0))]], signalled := [(0, 0)]);
    assert changes[0] in changes && changes[1..] == [];
    assert v == Signalled(env, s, 0, 0);
    assert [] + [(0, 0)] == [(0, 0)];
    assert v == ChangedAll(env, q, changes);
    assert ChangedAll(env, q, changes) == ChangedAll(env, Changed(q, changes[0]), []);
    assert v == Changed(q, changes[0]);
    assert v.times[0] == AFTER;
    var l := q.(running := q.running[0 := true], times := q.times[0 := AFTER], touched := q.touched + {0});
    assert Live(l) == AFTER + [] == AFTER;
    assert v.timer == Some(4578);
  }

  // ---------- The code ----------

  /** The handler as the code has it, on variables updated in place. */
  class Handler {
    const env: Env
    var running: seq<bool>
    var times: seq<Times>
    var timer: Option<int>
    var touched: set<nat>
    var signalled: seq<(nat, nat)>

    function View(): State
      reads this
    {
      State(running, times, timer, touched, signalled)
    }

    constructor (env: Env, running: seq<bool>, times: seq<Times>, timer: Option<int>)
      ensures this.env == env && View() == State(running, times, timer, {}, [])
    {
      this.env, this.running, this.times, this.timer := env, running, times, timer;
      touched, signalled := {}, [];
    }

    method UpdateMasterTimer()
      requires Shaped(View())
      modifies `timer
      ensures timer == Earliest(Live(old(View())))
    {
      hide Earliest, Earlier;
      timer := None;
      ghost var before: Times := [];
      EarliestOfNone();
      var rtc := 0;
      while rtc < N_UNITS
        invariant 0 <= rtc <= N_UNITS && timer == Earliest(before)
        invariant before == (if rtc > 0 && running[0] then times[0] else [])
                            + (if rtc > 1 && running[1] then times[1] else [])
      {
        if running[rtc] {
          var cc := 0;
          assert before + times[rtc][..0] == before;
          while cc < N_TIMES
            invariant 0 <= cc <= N_TIMES && timer == Earliest(before + times[rtc][..cc])
          {
            EarliestWithOneMore(before + times[rtc][..cc], times[rtc][cc]);
            assert before + times[rtc][..cc] + [times[rtc][cc]] == before + times[rtc][..cc + 1];
            timer := Earlier(timer, times[rtc][cc]);
            cc := cc + 1;
          }
          assert times[rtc][..cc] == times[rtc];
          before := before + times[rtc];
        }
        rtc := rtc + 1;
      }
    }

    method RunTask(c: Change)
      requires Shaped(View()) && c.rtc < N_UNITS && |c.times| == N_TIMES
      modifies `running, `times, `timer, `touched
      ensures View() == Changed(old(View()), c)
    {
      running := running[c.rtc := c.running];
      times := times[c.rtc := c.times];
      touched := touched + {c.rtc};
      UpdateMasterTimer();
    }

    /** One time, if it is that of the timer: its next time first, then its event. */
    method HandleEvent(rtc: nat, i: nat)
      requires Shaped(View()) && Possible(env) && rtc < N_UNITS && i < N_TIMES
      modifies `running, `times, `timer, `touched, `signalled
      ensures View() == Visited(env, old(View()), rtc, i)
    {
      hide InFuture, Earliest, Live;
      if times[rtc][i] != timer {
        return;
      }
      var n := |signalled|;
      var next := None;
      if running[rtc] {
        next := Some(env.renewal(n));
      }
      times := times[rtc := times[rtc][i := next]];
      signalled := signalled + [(rtc, i)];
      if n < |env.plan| {
        RunTasks(env.plan[n]);
      }
    }

    method RunTasks(tasks: seq<Change>)
      requires Shaped(View()) && Possible(env)
      requires forall c <- tasks :: c.rtc < N_UNITS && InFuture(c.running, c.times, env.now)
      modifies `running, `times, `timer, `touched
      ensures View() == ChangedAll(env, old(View()), tasks)
    {
      ghost var s := View();
      var k := 0;
      while k < |tasks|
        invariant 0 <= k <= |tasks| && Shaped(View())
        invariant ChangedAll(env, View(), tasks[k..]) == ChangedAll(env, s, tasks)
        invariant signalled == old(signalled)
      {
        assert tasks[k] in tasks && tasks[k..][1..] == tasks[k + 1..];
        RunTask(tasks[k]);
        k := k + 1;
      }
    }

    /** Every event that is signalled is one that is due and whose counter no task has changed, or a spurious one. */
    method TimerTriggered()
      requires Possible(env) && Entered(env, View())
      modifies `running, `times, `timer, `touched, `signalled
      ensures View() == Handled(env, old(View()))
      ensures forall r, i :: 0 <= r < N_UNITS && 0 <= i < N_TIMES ==>
        ((r, i) in signalled <==> Fires(env, old(View()), r, i))
      ensures Ascending(signalled) && !SomeDue(env, View())
    {
      ghost var s := View();
      hide Entered, Fires, Visited, Live, Earliest;
      ShapedAtEntry(env, s);
      var rtc := 0;
      while rtc < N_UNITS
        invariant 0 <= rtc <= N_UNITS && Shaped(View())
        invariant View() == if rtc == 0 then s else Before(env, s, rtc - 1, N_TIMES)
      {
        assert View() == Before(env, s, rtc, 0);
        if running[rtc] {
          var i := 0;
          while i < N_TIMES
            invariant 0 <= i <= N_TIMES && View() == Before(env, s, rtc, i)
            invariant Shaped(View()) && Before(env, s, rtc, 0).running[rtc]
          {
            HandleEvent(rtc, i);
            i := i + 1;
          }
        } else {
          NotItsTurn(env, s, rtc, N_TIMES);
        }
        rtc := rtc + 1;
      }
      UpdateMasterTimer();
      HandlerRearms(env, s);
      forall r, i | 0 <= r < N_UNITS && 0 <= i < N_TIMES
        ensures (r, i) in signalled <==> Fires(env, s, r, i)
      {
        HandlerSignals(env, s, r, i);
      }
    }
  }

  lemma EarliestOfNone()
    ensures Earliest([]) == None
  {
  }

  lemma ShapedAtEntry(env: Env, s: State)
    requires Entered(env, s)
    ensures Shaped(s)
  {
  }
}
