/**
 Clear channel assessment and energy detection: what a program hears of what the Phy measures, however often the Phy
 asks meanwhile whether to abort.
 */
module RadioAssessment {
  import opened Common
  import opened RadioTimings
  import opened RadioMachine
  import opened RadioTifs
  import opened RadioReception

  /** An assessment that starts at `start`: the Phy asks `asks` times, and then answers `reply`. */
  datatype Measurement = Measurement(start: int, ccaNotEd: bool, asks: nat, reply: Reply)

  function ScanEnd(c: Config, w: Measurement): int {
    w.start + ScanDuration(c, w.ccaNotEd)
  }

  /** When the assessment is over: when the Phy says, or else after the whole scan. */
  function EndOf(c: Config, w: Measurement): int {
    if w.reply.CcaEnd? then w.reply.ccaEndTime else ScanEnd(c, w)
  }

  /** The Phy asks only while the assessment is going on. */
  function AskedBefore(c: Config, w: Measurement): int {
    if EndOf(c, w) < ScanEnd(c, w) then EndOf(c, w) + 1 else ScanEnd(c, w)
  }

  ghost predicate Measures(env: Env, c: Config, w: Measurement, k: nat, n: nat) {
    Asks(env, k, n, AskedBefore(c, w)) && env.phy(k + n) == w.reply && w.reply != AbortReeval
  }

  predicate CanAssess(env: Env, c: Config, s: State, ccaNotEd: bool) {
    && Undisturbed(env, s) && s.m.abort == NoPendingAbortReeval && s.m.radio == RXIDLE
    && s.cfg == c && c.mode == Ieee154 && (ccaNotEd ==> c.ccaMode != UnknownCcaMode)
  }

  /** A channel counts as busy when the Phy has measured energy over the threshold, has found a modulated carrier, or
      both or either, as CCAMODE says. Without a report it is idle. */
  predicate IsBusy(mode: CcaMode, reply: Reply) {
    reply.CcaEnd? &&
    if mode == CarrierMode then reply.modFound
    else if mode == CarrierAndEdMode then reply.overThreshold && reply.modFound
    else if mode == CarrierOrEdMode then reply.overThreshold || reply.modFound
    else reply.overThreshold
  }

  function Assessed(c: Config, w: Measurement): Event {
    if !w.ccaNotEd then EDEND else if IsBusy(c.ccaMode, w.reply) then CCABUSY else CCAIDLE
  }

  lemma SilentIsIdle(mode: CcaMode, reply: Reply)
    ensures !reply.CcaEnd? ==> !IsBusy(mode, reply)
  {
  }

  lemma BusyAsReported(mode: CcaMode, reply: Reply)
    requires mode != UnknownCcaMode && reply.CcaEnd?
    ensures CcaIsBusy(mode, reply.overThreshold, reply.modFound) == IsBusy(mode, reply)
  {
  }

  /** The channel is being assessed. */
  predicate Assessing(env: Env, c: Config, w: Measurement, log: seq<(int, Event)>, s: State) {
    && Quiet(env, s) && s.fault == NoFault && !s.m.abortingSet
    && s.cfg == c && s.hist.log == log && s.m.radio == CCA_ED
    && s.air.cca.ccaNotEd == w.ccaNotEd && (w.ccaNotEd ==> c.ccaMode != UnknownCcaMode)
    && w.start <= s.now <= Max(w.start, EndOf(c, w))
  }

  /** The Phy is about to answer; it asks `n` more times. */
  ghost predicate Awaiting(env: Env, c: Config, w: Measurement, log: seq<(int, Event)>, s: State, n: nat) {
    && Assessing(env, c, w, log, s) && NothingPending(s) && !s.air.cca.isBusy
    && s.m.timer == Some(ScanEnd(c, w))
    && s.air.nextRecheck == env.recheck(s.hist.phyCalls) && Measures(env, c, w, s.hist.phyCalls, n)
  }

  /** The Phy waits to hear whether to abort. */
  ghost predicate Waiting(env: Env, c: Config, w: Measurement, log: seq<(int, Event)>, s: State, n: nat) {
    && Assessing(env, c, w, log, s) && s.m.timer == Some(ScanEnd(c, w)) && !s.air.cca.isBusy
    && s.m.abort == CcaAbortReeval && s.m.abortTimer.Some? && s.m.abortTimer.value < AskedBefore(c, w)
    && Measures(env, c, w, s.hist.phyCalls, n)
  }

  /** The Phy has answered. */
  predicate Measured(env: Env, c: Config, w: Measurement, log: seq<(int, Event)>, s: State) {
    && Assessing(env, c, w, log, s) && NothingPending(s) && s.m.timer == Some(EndOf(c, w))
    && (w.ccaNotEd ==> (s.air.cca.isBusy <==> Assessed(c, w) == CCABUSY))
  }

  ghost predicate WaitingOrMeasured(env: Env, c: Config, w: Measurement, log: seq<(int, Event)>, s: State) {
    Measured(env, c, w, log, s) || exists n: nat :: Waiting(env, c, w, log, s, n)
  }

  lemma MeasurementOrQuestion(env: Env, c: Config, w: Measurement, log: seq<(int, Event)>, s: State, n: nat)
    requires Awaiting(env, c, w, log, s, n)
    ensures WaitingOrMeasured(env, c, w, log, CcaResponse(env, s))
  {
    var r := CcaResponse(env, s);
    hide Keeps, Inv, Sound, Asks, Answered, ScanDuration, CcaIsBusy, IsBusy;
    if n > 0 {
      AsksOnce(env, s.hist.phyCalls, n, AskedBefore(c, w));
      assert Waiting(env, c, w, log, r, n - 1);
    } else {
      if w.ccaNotEd && w.reply.CcaEnd? {
        BusyAsReported(c.ccaMode, w.reply);
      }
      assert w.ccaNotEd && !w.reply.CcaEnd? ==> !IsBusy(c.ccaMode, w.reply) by {
        SilentIsIdle(c.ccaMode, w.reply);
      }
      assert Measured(env, c, w, log, r);
    }
  }

  lemma AssessmentStarts(env: Env, c: Config, w: Measurement, s: State)
    requires CanAssess(env, c, s, w.ccaNotEd) && w.start == s.now && Measures(env, c, w, s.hist.phyCalls, w.asks)
    ensures WaitingOrMeasured(env, c, w, s.hist.log, StartCcaEd(env, s, w.ccaNotEd))
  {
    var u := s.(m := s.m.(radio := CCA_ED), air := s.air.(cca := CcaStatus(w.ccaNotEd, false)));
    var v := UpdateAbort(env, u);
    var x := v.(m := v.m.(timer := Some(v.now + ScanDuration(c, w.ccaNotEd))));
    assert StartCcaEd(env, s, w.ccaNotEd) == CcaResponse(env, x);
    hide Keeps, Inv, Sound, Measures, Answered, ScanDuration, EndOf;
    assert Awaiting(env, c, w, s.hist.log, x, w.asks);
    MeasurementOrQuestion(env, c, w, s.hist.log, x, w.asks);
  }

  lemma QuestionAnswered(env: Env, c: Config, w: Measurement, log: seq<(int, Event)>, s: State)
    requires WaitingOrMeasured(env, c, w, log, s) && Due(s, AbortTimerReached)
    ensures WaitingOrMeasured(env, c, w, log, Do(env, s, AbortTimerReached))
  {
    var n: nat :| Waiting(env, c, w, log, s, n);
    var t := At(s, s.m.abortTimer);
    var v := UpdateAbort(env, t.(m := t.m.(abortTimer := None, abort := NoPendingAbortReeval)));
    assert Do(env, s, AbortTimerReached) == CcaResponse(env, v);
    hide Keeps, Inv, Sound, Measures, Answered, ScanDuration, EndOf;
    assert Awaiting(env, c, w, log, v, n);
    MeasurementOrQuestion(env, c, w, log, v, n);
  }

  lemma NoEndBeforeMeasurement(env: Env, c: Config, w: Measurement, log: seq<(int, Event)>, s: State)
    requires WaitingOrMeasured(env, c, w, log, s) && Due(s, MainTimerReached)
    ensures Measured(env, c, w, log, s)
  {
    hide ScanDuration, Measures, Asks;
  }

  lemma DisablesReceiver(env: Env, s: State)
    requires s.m.radio == RXIDLE
    ensures var r := Disable(env, s);
      r.m.radio == RXDISABLE && r.now == s.now && r.hist == s.hist && r.cfg == s.cfg
  {
  }

  /** The state that the event at the end leaves behind, with its shortcuts. */
  function StateBehind(c: Config, e: Event): RadioState {
    match e
    case EDEND => if c.shorts.edendDisable then RXDISABLE else RXIDLE
    case CCABUSY => if c.shorts.ccabusyDisable then RXDISABLE else RXIDLE
    case _ => if c.shorts.ccaidleTxen then TXRU else RXIDLE
  }

  lemma AssessmentEnds(env: Env, c: Config, w: Measurement, log: seq<(int, Event)>, s: State)
    requires Measured(env, c, w, log, s)
    ensures var r := Do(env, s, MainTimerReached);
      && r.now == Max(w.start, EndOf(c, w)) && r.hist.log == log + [(r.now, Assessed(c, w))]
      && r.m.radio == StateBehind(c, Assessed(c, w))
  {
    var t := At(s, s.m.timer);
    var u := t.(m := Halted(t.m, RXIDLE));
    hide Keeps, Inv, Sound, Answered, RampUp, Disable, EndOf, IsBusy, SignalEdEnd, SignalCcaBusy, SignalCcaIdle,
      StateBehind;
    assert Do(env, s, MainTimerReached) == CcaEdTimer(env, t);
    OutcomeSignals(env, u, c, Assessed(c, w));
  }

  /** Each outcome with its shortcuts. */
  lemma OutcomeSignals(env: Env, s: State, c: Config, e: Event)
    requires Quiet(env, s) && s.m.radio == RXIDLE && s.cfg == c
    ensures var r := match e
              case EDEND => SignalEdEnd(env, s)
              case CCABUSY => SignalCcaBusy(env, s)
              case _ => SignalCcaIdle(env, s);
      e in {EDEND, CCABUSY, CCAIDLE} ==>
        r.now == s.now && r.hist.log == s.hist.log + [(s.now, e)] && r.m.radio == StateBehind(c, e)
  {
    hide Keeps, Inv, Sound, Answered, RampUp, Disable;
    QuietEvent(env, s, e);
    DisablesReceiver(env, Logged(s, e));
  }

  lemma {:induction false} AssessmentRuns(env: Env, c: Config, w: Measurement, log: seq<(int, Event)>, s: State,
                                          steps: seq<Step>)
    requires WaitingOrMeasured(env, c, w, log, s)
    requires DueRun(env, s, steps) && Mains(steps) == 1 && steps[|steps| - 1] == MainTimerReached
    ensures var r := Run(env, s, steps);
      && r.now == Max(w.start, EndOf(c, w)) && r.hist.log == log + [(r.now, Assessed(c, w))]
      && r.m.radio == StateBehind(c, Assessed(c, w))
    decreases |steps|
  {
    hide Do, WaitingOrMeasured, EndOf, Assessed, StateBehind, Max, Measured;
    if steps[0] == MainTimerReached {
      NoEndBeforeMeasurement(env, c, w, log, s);
      AssessmentEnds(env, c, w, log, s);
      if |steps| > 1 {
        LastIsMain(steps[1..]);
      }
      assert steps[1..] == [];
    } else {
      QuestionAnswered(env, c, w, log, s);
      AssessmentRuns(env, c, w, log, Do(env, s, AbortTimerReached), steps[1..]);
    }
  }

  lemma StartsAssessment(env: Env, c: Config, w: Measurement, s: State)
    requires CanAssess(env, c, s, w.ccaNotEd)
    ensures w.ccaNotEd ==> c.ccaMode != UnknownCcaMode
    ensures StartCcaEd.requires(env, s, w.ccaNotEd)
    ensures StartCcaEd(env, s, w.ccaNotEd) == if w.ccaNotEd then CcaStart(env, s) else EdStart(env, s)
  {
    hide StartCcaEd;
  }

  lemma OutcomeIs(c: Config, w: Measurement)
    ensures !w.ccaNotEd ==> Assessed(c, w) == EDEND
    ensures w.ccaNotEd ==> Assessed(c, w) == if IsBusy(c.ccaMode, w.reply) then CCABUSY else CCAIDLE
    ensures StateBehind(c, EDEND) == if c.shorts.edendDisable then RXDISABLE else RXIDLE
    ensures StateBehind(c, CCABUSY) == if c.shorts.ccabusyDisable then RXDISABLE else RXIDLE
    ensures StateBehind(c, CCAIDLE) == if c.shorts.ccaidleTxen then TXRU else RXIDLE
    ensures Max(w.start, EndOf(c, w))
         == if w.reply.CcaEnd? then Max(w.start, w.reply.ccaEndTime)
            else if w.ccaNotEd then w.start + 128 else w.start + 128 * (c.edcnt + 1)
  {
  }

  /** Busy and idle, by CCAMODE and the report alone. */
  lemma BusyMeans(mode: CcaMode, reply: Reply)
    ensures IsBusy(mode, reply) ==> reply.CcaEnd?
    ensures reply.CcaEnd? && (mode == EdMode || mode == EdModeTest1) ==> IsBusy(mode, reply) == reply.overThreshold
    ensures reply.CcaEnd? && mode == CarrierMode ==> IsBusy(mode, reply) == reply.modFound
    ensures reply.CcaEnd? && mode == CarrierAndEdMode ==>
      IsBusy(mode, reply) == (reply.overThreshold && reply.modFound)
    ensures reply.CcaEnd? && mode == CarrierOrEdMode ==>
      IsBusy(mode, reply) == (reply.overThreshold || reply.modFound)
  {
  }

  /** Clear channel assessment: in every run of the two timers, at its end, which the Phy reports or else comes after
      128 us, exactly one of CCABUSY and CCAIDLE is raised, as CCAMODE demands of what the Phy reported after all its
      questions. A busy channel disables the receiver, and an idle one starts the transmitter, when the shortcut says
      so; otherwise the receiver is idle. */
  lemma ChannelIsAssessed(env: Env, c: Config, w: Measurement, s: State, steps: seq<Step>) returns (busy: bool)
    requires w.ccaNotEd && CanAssess(env, c, s, true) && w.start == s.now
    requires Measures(env, c, w, s.hist.phyCalls, w.asks)
    requires DueRun(env, CcaStart(env, s), steps) && Mains(steps) == 1 && steps[|steps| - 1] == MainTimerReached
    ensures var r := Run(env, CcaStart(env, s), steps);
      && r.now == (if w.reply.CcaEnd? then Max(s.now, w.reply.ccaEndTime) else s.now + 128)
      && r.hist.log == s.hist.log + [(r.now, if busy then CCABUSY else CCAIDLE)]
      && r.m.radio == (if busy && c.shorts.ccabusyDisable then RXDISABLE
                       else if !busy && c.shorts.ccaidleTxen then TXRU else RXIDLE)
    ensures busy ==> w.reply.CcaEnd?
    ensures w.reply.CcaEnd? ==> var (over, modulated) := (w.reply.overThreshold, w.reply.modFound);
      && (c.ccaMode == EdMode || c.ccaMode == EdModeTest1 ==> busy == over)
      && (c.ccaMode == CarrierMode ==> busy == modulated)
      && (c.ccaMode == CarrierAndEdMode ==> busy == (over && modulated))
      && (c.ccaMode == CarrierOrEdMode ==> busy == (over || modulated))
  {
    hide *;
    busy := IsBusy(c.ccaMode, w.reply);
    BusyMeans(c.ccaMode, w.reply);
    StartsAssessment(env, c, w, s);
    OutcomeIs(c, w);
    AssessmentStarts(env, c, w, s);
    AssessmentRuns(env, c, w, s.hist.log, StartCcaEd(env, s, true), steps);
  }

  /** Energy detection: in every run of the two timers, at its end, which the Phy reports or else comes after 128 us
      times one more than EDCNT, EDEND is raised, and the receiver disabled when the shortcut says so. */
  lemma EnergyIsDetected(env: Env, c: Config, w: Measurement, s: State, steps: seq<Step>)
    requires !w.ccaNotEd && CanAssess(env, c, s, false) && w.start == s.now
    requires Measures(env, c, w, s.hist.phyCalls, w.asks)
    requires DueRun(env, EdStart(env, s), steps) && Mains(steps) == 1 && steps[|steps| - 1] == MainTimerReached
    ensures var r := Run(env, EdStart(env, s), steps);
      && r.now == (if w.reply.CcaEnd? then Max(s.now, w.reply.ccaEndTime) else s.now + 128 * (c.edcnt + 1))
      && r.hist.log == s.hist.log + [(r.now, EDEND)]
      && r.m.radio == if c.shorts.edendDisable then RXDISABLE else RXIDLE
  {
    hide *;
    StartsAssessment(env, c, w, s);
    OutcomeIs(c, w);
    AssessmentStarts(env, c, w, s);
    AssessmentRuns(env, c, w, s.hist.log, StartCcaEd(env, s, false), steps);
  }
}
