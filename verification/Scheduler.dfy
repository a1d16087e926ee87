/**
 The top of the hardware models: one timer per model, of which the earliest is cached together with the model to call
 when it is reached.
 */
module Scheduler {
  import opened Common

  const N_TIMERS: nat := 15
  /** The last in the list: of timers with the same time it comes last. */
  const RADIO_ABORT_REEVAL_TIMER: nat := 14

  type Timers = t: seq<Option<int>> | |t| == N_TIMERS witness seq(N_TIMERS, _ => None)

  /** A timer that is never is later than any time. */
  predicate Later(a: Option<int>, b: Option<int>) {
    b.Some? && (a.None? || a.value > b.value)
  }

  /** `i` is the first of the earliest timers. */
  predicate IsNext(timers: seq<Option<int>>, i: nat) {
    && i < |timers|
    && (forall j :: 0 <= j < i ==> Later(timers[j], timers[i]))
    && (forall j :: i <= j < |timers| ==> !Later(timers[i], timers[j]))
  }

  /** There is only one. */
  lemma NextIsUnique(timers: seq<Option<int>>, i: nat, k: nat)
    requires IsNext(timers, i) && IsNext(timers, k) && timers[i].Some?
    ensures i == k
  {
  }

  lemma NextIsEarliest(timers: seq<Option<int>>, next: nat, i: nat)
    requires IsNext(timers, next) && i < |timers| && timers[i].Some?
    ensures timers[next].Some? && timers[next].value <= timers[i].value
  {
    assert i < next ==> Later(timers[i], timers[next]);
    assert i >= next ==> !Later(timers[next], timers[i]);
  }

  // ---------- Runs ----------

  /** One call of a model: when, which, and all timers at that moment. */
  datatype Call = Call(time: int, model: nat, timers: Timers)

  /** A model called at `now` leaves a timer alone, stops it, or sets it to now or later. */
  predicate Rearmed(before: Timers, after: Timers, now: int) {
    forall i :: 0 <= i < |after| ==> after[i] == before[i] || after[i].None? || after[i].value >= now
  }

  /** A sequence of calls in which each comes when the cached timer says, and finds the timers that the one before it
      left. */
  predicate IsRun(timers: Timers, calls: seq<Call>)
    decreases |calls|
  {
    calls == [] ||
    var c := calls[0];
    && c.timers == timers
    && IsNext(timers, c.model) && timers[c.model] == Some(c.time)
    && (|calls| > 1 ==> Rearmed(timers, calls[1].timers, c.time) && IsRun(calls[1].timers, calls[1..]))
  }

  predicate NoneBefore(timers: seq<Option<int>>, t: int) {
    forall i :: 0 <= i < |timers| && timers[i].Some? ==> timers[i].value >= t
  }

  /** Over a whole run, time never goes backwards. */
  lemma {:induction false} TimeNeverDecreases(timers: Timers, calls: seq<Call>, now: int, k: nat)
    requires IsRun(timers, calls) && NoneBefore(timers, now) && k < |calls|
    ensures calls[k].time >= now && NoneBefore(calls[k].timers, calls[k].time)
    ensures k + 1 < |calls| ==> calls[k].time <= calls[k + 1].time
    decreases |calls|
  {
    var c := calls[0];
    forall i | 0 <= i < N_TIMERS && timers[i].Some?
      ensures c.time <= timers[i].value
    {
      NextIsEarliest(timers, c.model, i);
    }
    if |calls| > 1 {
      assert NoneBefore(calls[1].timers, c.time);
      if k > 0 {
        TimeNeverDecreases(calls[1].timers, calls[1..], c.time, k - 1);
      } else {
        TimeNeverDecreases(calls[1].timers, calls[1..], c.time, 0);
      }
    }
  }

  /** No timer is passed over: a timer that is set to some time, and that no call changes, is called before any call
      with a later time. */
  lemma {:induction false} NoTimerIsSkipped(timers: Timers, calls: seq<Call>, i: nat, k: nat)
    requires IsRun(timers, calls) && k < |calls| && i < N_TIMERS && timers[i].Some?
    requires calls[k].time > timers[i].value
    ensures exists j :: 0 <= j < k && (calls[j].model == i || calls[j + 1].timers[i] != calls[j].timers[i])
    decreases |calls|
  {
    var c := calls[0];
    NextIsEarliest(timers, c.model, i);
    if k == 0 {
      assert false;
    } else if c.model != i && calls[1].timers[i] == timers[i] {
      NoTimerIsSkipped(calls[1].timers, calls[1..], i, k - 1);
      var j :| 0 <= j < k - 1
        && (calls[1..][j].model == i || calls[1..][j + 1].timers[i] != calls[1..][j].timers[i]);
      assert calls[j + 1].model == i || calls[j + 2].timers[i] != calls[j + 1].timers[i];
    } else {
      assert calls[0].model == i || calls[0 + 1].timers[i] != calls[0].timers[i];
    }
  }

  /** The answer to the Phy about aborting comes when nothing else is due at that time or before. */
  lemma {:induction false} AbortReevalComesLast(timers: Timers, calls: seq<Call>, k: nat, i: nat)
    requires IsRun(timers, calls) && k < |calls| && calls[k].model == RADIO_ABORT_REEVAL_TIMER == 14
    requires i < 14
    ensures calls[k].timers[i].Some? ==> calls[k].timers[i].value > calls[k].time
    decreases k
  {
    if k > 0 {
      AbortReevalComesLast(calls[1].timers, calls[1..], k - 1, i);
    } else {
      assert Later(timers[i], timers[RADIO_ABORT_REEVAL_TIMER]);
    }
  }

  /** What the last call left. */
  predicate Leaves(start: Timers, calls: seq<Call>, timers: Timers) {
    if calls == [] then timers == start else Rearmed(calls[|calls| - 1].timers, timers, calls[|calls| - 1].time)
  }

  lemma {:induction false} RunGrows(start: Timers, calls: seq<Call>, c: Call)
    requires IsRun(start, calls) && Leaves(start, calls, c.timers)
    requires IsNext(c.timers, c.model) && c.timers[c.model] == Some(c.time)
    ensures IsRun(start, calls + [c])
    decreases |calls|
  {
    if |calls| > 1 {
      RunGrows(calls[1].timers, calls[1..], c);
      assert (calls + [c])[1..] == calls[1..] + [c];
    } else if |calls| == 1 {
      assert (calls + [c])[1..] == [c];
    }
  }

  // ---------- The scheduler ----------

  class Top {
    var now: int
    var timers: Timers
    var mainTimer: Option<int>
    var next: nat
    ghost var start: Timers
    ghost var calls: seq<Call>

    /** The cache is right, and all calls so far make a run that ends with the timers as they are. */
    ghost predicate Valid()
      reads this
    {
      && IsNext(timers, next) && mainTimer == timers[next]
      && NoneBefore(timers, now)
      && IsRun(start, calls) && Leaves(start, calls, timers)
    }

    constructor (timers: Timers)
      requires NoneBefore(timers, 0)
      ensures Valid() && this.timers == timers && calls == []
    {
      now, mainTimer, next := 0, None, 0;
      this.timers, start, calls := timers, timers, [];
      new;
      FindNextTimer();
    }

    /** The first of the earliest timers, found from the first to the last. */
    method FindNextTimer()
      modifies `mainTimer, `next
      ensures IsNext(timers, next) && mainTimer == timers[next]
    {
      var newTimer := timers[0];
      next := 0;
      var i := 1;
      while i < N_TIMERS
        invariant 1 <= i <= N_TIMERS && next < i && newTimer == timers[next]
        invariant IsNext(timers[..i], next)
      {
        assert timers[..i + 1] == timers[..i] + [timers[i]];
        if Later(newTimer, timers[i]) {
          newTimer := timers[i];
          next := i;
        }
        i := i + 1;
      }
      assert timers[..i] == timers;
      if newTimer != mainTimer {
        mainTimer := newTimer;
      }
    }

    /** The main timer is reached: the model it belongs to is called, and leaves the timers as `after`. */
    method SomeTimerReached(after: Timers)
      requires Valid() && mainTimer.Some? && Rearmed(timers, after, mainTimer.value)
      modifies this
      ensures Valid() && Some(now) == old(mainTimer) && timers == after
      ensures calls == old(calls) + [Call(now, old(next), old(timers))]
    {
      assert NoneBefore(timers, mainTimer.value) by {
        forall i | 0 <= i < |timers| && timers[i].Some?
          ensures timers[i].value >= mainTimer.value
        {
          NextIsEarliest(timers, next, i);
        }
      }
      now := mainTimer.value;
      RunGrows(start, calls, Call(now, next, timers));
      calls := calls + [Call(now, next, timers)];
      timers := after;
      FindNextTimer();
    }
  }
}
