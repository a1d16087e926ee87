/**
 What the tasks of the RADIO lead to, when nothing else interferes: ramping up ends with READY, ramping down ends with
 DISABLED, and what is stopped is never heard of again.
 */
module RadioTasks {
  import opened Common
  import opened RadioTimings
  import opened RadioMachine
  import opened RadioTifs

  function RampUpTime(s: State, txNotRx: bool): int {
    RampUp(txNotRx, s.cfg.mode, s.cfg.fastRampUp, s.turn.fromHw || HwTifsEnabled(s.cfg))
  }

  /** A number for each of the modulations; whatever is not supported counts as 1 Mbps. */
  datatype PerMode = PerMode(ble1M: int, ble2M: int, ieee154: int)

  function Of(n: PerMode, mode: Mode): int {
    if mode == Ble2M then n.ble2M else if mode == Ieee154 then n.ieee154 else n.ble1M
  }

  /** An automatic turnaround is going on, or the shortcuts ask for one. */
  predicate ForTurnaround(s: State) {
    s.turn.fromHw || (s.cfg.shorts.endDisable && (s.cfg.shorts.disabledTxen || s.cfg.shorts.disabledRxen))
  }

  lemma RampUpsInNumbers(s: State)
    ensures RampUpTime(s, true)
         == Of(if s.cfg.fastRampUp then PerMode(41, 40, 40)
               else if ForTurnaround(s) then PerMode(141, 140, 130) else PerMode(130, 129, 129), s.cfg.mode)
    ensures RampUpTime(s, false)
         == Of(if s.cfg.fastRampUp then PerMode(40, 40, 40)
               else if ForTurnaround(s) then PerMode(140, 140, 130) else PerMode(129, 129, 129), s.cfg.mode)
    ensures RampUpTime(s, true) > 0 && RampUpTime(s, false) > 0
  {
  }

  /** TXEN from any state in which it is allowed: after the ramp-up READY and TXREADY come, and the transmission
      starts if one of their shortcuts says so. */
  lemma TransmitterGetsReady(env: Env, s: State)
    requires Quiet(env, s) && s.fault == NoFault && s.m.radio in {DISABLED, TXIDLE, RXIDLE}
    ensures var t := s.now + Of(if s.cfg.fastRampUp then PerMode(41, 40, 40)
                                else if ForTurnaround(s) then PerMode(141, 140, 130)
                                else PerMode(130, 129, 129), s.cfg.mode);
      var r := Do(env, Txen(s), MainTimerReached);
      && Txen(s).m.radio == TXRU
      && r.now == t && r.hist.log == s.hist.log + [(t, READY), (t, TXREADY)]
      && r.m.radio == if s.cfg.shorts.readyStart || s.cfg.shorts.txreadyStart then TXSTARTING else TXIDLE
  {
    hide *;
    RampUpsInNumbers(s);
    TransmitterRampsUp(env, s);
  }

  lemma TransmitterRampsUp(env: Env, s: State)
    requires Quiet(env, s) && s.fault == NoFault && s.m.radio in {DISABLED, TXIDLE, RXIDLE} && RampUpTime(s, true) > 0
    ensures var t := s.now + RampUpTime(s, true);
      var r := Do(env, Txen(s), MainTimerReached);
      && Txen(s).m.radio == TXRU
      && r.now == t && r.hist.log == s.hist.log + [(t, READY), (t, TXREADY)]
      && r.m.radio == if s.cfg.shorts.readyStart || s.cfg.shorts.txreadyStart then TXSTARTING else TXIDLE
  {
    var t := At(Txen(s), Txen(s).m.timer);
    var u := t.(m := Halted(t.m, TXIDLE));
    hide Keeps, Inv, Sound, Answered, RampUp, HwTifsEnabled, SignalReady, SignalTxReady;
    assert Do(env, Txen(s), MainTimerReached) == SignalTxReady(env, SignalReady(env, u));
    ReadyTransmitter(env, u);
  }

  lemma ReadyTransmitter(env: Env, s: State)
    requires s.m.radio == TXIDLE && Quiet(env, s)
    ensures var r := SignalTxReady(env, SignalReady(env, s));
      && r.now == s.now && r.hist.log == s.hist.log + [(s.now, READY), (s.now, TXREADY)]
      && r.m.radio == if s.cfg.shorts.readyStart || s.cfg.shorts.txreadyStart then TXSTARTING else TXIDLE
  {
    hide Keeps, Inv, Sound, Answered, StartRx, StartCcaEd;
    QuietEvent(env, s, READY);
    QuietEvent(env, SignalReady(env, s), TXREADY);
  }

  predicate StartsReceiver(c: Config) {
    c.shorts.readyStart || c.shorts.readyEdstart || c.shorts.rxreadyStart || c.shorts.rxreadyCcastart
  }

  /** What the start of a reception or an assessment does not touch. */
  predicate OnlyStarted(s: State, r: State) {
    r.now == s.now && r.cfg == s.cfg && r.hist.log == s.hist.log && r.hist.ppiCalls == s.hist.ppiCalls
  }

  lemma StartsSilently(env: Env, s: State)
    ensures OnlyStarted(s, Start(env, s)) && OnlyStarted(s, EdStart(env, s)) && OnlyStarted(s, CcaStart(env, s))
  {
    RxStartsSilently(env, s);
    CcaStartsSilently(env, s, true);
    CcaStartsSilently(env, s, false);
    hide StartRx, StartCcaEd, Keeps, Inv;
  }

  lemma RxStartsSilently(env: Env, s: State)
    ensures s.m.radio == RXIDLE ==> OnlyStarted(s, StartRx(env, s))
  {
    hide Keeps, Inv, AirTime;
  }

  lemma CcaStartsSilently(env: Env, s: State, cca: bool)
    ensures s.m.radio == RXIDLE ==> OnlyStarted(s, StartCcaEd(env, s, cca))
  {
    hide Keeps, Inv, ScanDuration;
  }

  /** READY only starts what its shortcuts say. */
  lemma ReadyOnlyStarts(env: Env, s: State)
    requires Quiet(env, s)
    ensures var r := SignalReady(env, s);
      OnlyStarted(Logged(s, READY), r) && (!StartsReceiver(s.cfg) ==> r == Logged(s, READY))
  {
    QuietEvent(env, s, READY);
    var v := Logged(s, READY);
    StartsSilently(env, v);
    StartsSilently(env, Start(env, v));
    hide Keeps, Inv, Start, EdStart, CcaStart;
  }

  lemma RxReadyOnlyStarts(env: Env, s: State)
    requires Quiet(env, s)
    ensures var r := SignalRxReady(env, s);
      OnlyStarted(Logged(s, RXREADY), r) && (!StartsReceiver(s.cfg) ==> r == Logged(s, RXREADY))
  {
    QuietEvent(env, s, RXREADY);
    var v := Logged(s, RXREADY);
    StartsSilently(env, v);
    StartsSilently(env, Start(env, v));
    hide Keeps, Inv, Start, EdStart, CcaStart;
  }

  /** What the shortcuts of READY and RXREADY do to an idle receiver, when reception and assessment are supported: the
      first one that is set decides. */
  function StartedReceiver(c: Config): RadioState {
    if c.shorts.readyStart then RX
    else if c.shorts.readyEdstart then CCA_ED
    else if c.shorts.rxreadyStart then RX
    else if c.shorts.rxreadyCcastart then CCA_ED
    else RXIDLE
  }

  lemma StartsTo(env: Env, s: State)
    requires s.m.radio == RXIDLE && FormatSupported(s.cfg) && s.cfg.mode == Ieee154 && s.cfg.ccaMode != UnknownCcaMode
    ensures Start(env, s).m.radio == RX
    ensures EdStart(env, s).m.radio == CCA_ED && !EdStart(env, s).air.cca.ccaNotEd
    ensures CcaStart(env, s).m.radio == CCA_ED && CcaStart(env, s).air.cca.ccaNotEd
  {
    hide Keeps, Inv, ScanDuration, AirTime, BitsPer4us, RxChainDelay;
    CcaResponseKeeps(env, s, true);
    CcaResponseKeeps(env, s, false);
  }

  lemma CcaResponseKeeps(env: Env, s: State, cca: bool)
    requires s.m.radio == RXIDLE && s.cfg.mode == Ieee154 && s.cfg.ccaMode != UnknownCcaMode
    ensures var r := StartCcaEd(env, s, cca); r.m.radio == CCA_ED && r.air.cca.ccaNotEd == cca
  {
    hide Keeps, Inv, ScanDuration, CcaIsBusy;
  }

  /** RXEN likewise: READY and RXREADY, and then what the shortcuts say; without a shortcut the receiver is idle. */
  lemma ReceiverGetsReady(env: Env, s: State)
    requires Quiet(env, s) && s.fault == NoFault && s.m.radio in {DISABLED, TXIDLE, RXIDLE}
    ensures var t := s.now + Of(if s.cfg.fastRampUp then PerMode(40, 40, 40)
                                else if ForTurnaround(s) then PerMode(140, 140, 130)
                                else PerMode(129, 129, 129), s.cfg.mode);
      var r := Do(env, Rxen(s), MainTimerReached);
      && Rxen(s).m.radio == RXRU
      && r.now == t && r.hist.log == s.hist.log + [(t, READY), (t, RXREADY)]
      && (!StartsReceiver(s.cfg) ==> r.m.radio == RXIDLE)
  {
    hide *;
    RampUpsInNumbers(s);
    ReceiverRampsUp(env, s);
  }

  lemma ReceiverRampsUp(env: Env, s: State)
    requires Quiet(env, s) && s.fault == NoFault && s.m.radio in {DISABLED, TXIDLE, RXIDLE} && RampUpTime(s, false) > 0
    ensures var t := s.now + RampUpTime(s, false);
      var r := Do(env, Rxen(s), MainTimerReached);
      && Rxen(s).m.radio == RXRU
      && r.now == t && r.hist.log == s.hist.log + [(t, READY), (t, RXREADY)]
      && (!StartsReceiver(s.cfg) ==> r.m.radio == RXIDLE)
  {
    var t := At(Rxen(s), Rxen(s).m.timer);
    var u := t.(m := Halted(t.m, RXIDLE));
    hide Keeps, Inv, Sound, Answered, RampUp, HwTifsEnabled, SignalReady, SignalRxReady, StartsReceiver;
    assert Do(env, Rxen(s), MainTimerReached) == SignalRxReady(env, SignalReady(env, u));
    ReadyReceiver(env, u);
  }

  lemma ReadyReceiver(env: Env, s: State)
    requires s.m.radio == RXIDLE && Quiet(env, s)
    ensures var r := SignalRxReady(env, SignalReady(env, s));
      && r.now == s.now && r.hist.log == s.hist.log + [(s.now, READY), (s.now, RXREADY)]
      && (!StartsReceiver(s.cfg) ==> r.m.radio == RXIDLE)
  {
    ReadyOnlyStarts(env, s);
    RxReadyOnlyStarts(env, SignalReady(env, s));
    hide Keeps, Inv, SignalReady, SignalRxReady, StartsReceiver;
  }

  /** A receiver that gets ready starts what the first of its shortcuts says. */
  lemma ShortcutsStartReceiver(env: Env, s: State)
    requires Quiet(env, s) && s.fault == NoFault && s.m.radio == RXRU && s.m.timer.Some?
    requires s.cfg.mode == Ieee154 && s.cfg.pcnfSupported && s.cfg.crcInc && s.cfg.crcLen == 2
    requires s.cfg.ccaMode != UnknownCcaMode
    ensures Do(env, s, MainTimerReached).m.radio == StartedReceiver(s.cfg)
    ensures var r := Do(env, s, MainTimerReached);
      r.m.radio == CCA_ED ==> r.air.cca.ccaNotEd == !s.cfg.shorts.readyEdstart
  {
    var t := At(s, s.m.timer);
    var u := t.(m := Halted(t.m, RXIDLE));
    hide Keeps, Inv, Sound, Answered, SignalReady, SignalRxReady, StartedReceiver, FormatSupported;
    assert Do(env, s, MainTimerReached) == SignalRxReady(env, SignalReady(env, u));
    SupportedReceiver(u);
    ReadyStarts(env, u);
    RxReadyStarts(env, u);
  }

  lemma SupportedReceiver(s: State)
    requires s.cfg.mode == Ieee154 && s.cfg.pcnfSupported && s.cfg.crcInc && s.cfg.crcLen == 2
    ensures FormatSupported(s.cfg)
  {
  }

  lemma ReadyStarts(env: Env, s: State)
    requires Quiet(env, s) && s.m.radio == RXIDLE
    requires FormatSupported(s.cfg) && s.cfg.mode == Ieee154 && s.cfg.ccaMode != UnknownCcaMode
    ensures var r := SignalReady(env, s);
      && Quiet(env, r) && r.cfg == s.cfg
      && r.m.radio == (if s.cfg.shorts.readyStart then RX else if s.cfg.shorts.readyEdstart then CCA_ED else RXIDLE)
      && (r.m.radio == CCA_ED ==> !r.air.cca.ccaNotEd)
  {
    ReadyOnlyStarts(env, s);
    QuietEvent(env, s, READY);
    var v := Logged(s, READY);
    StartsTo(env, v);
    hide Keeps, Inv, StartRx, StartCcaEd, FormatSupported;
  }

  lemma RxReadyStarts(env: Env, s: State)
    requires Quiet(env, s) && s.m.radio == RXIDLE
    requires FormatSupported(s.cfg) && s.cfg.mode == Ieee154 && s.cfg.ccaMode != UnknownCcaMode
    ensures var r := SignalRxReady(env, SignalReady(env, s));
      && r.m.radio == StartedReceiver(s.cfg)
      && (r.m.radio == CCA_ED ==> r.air.cca.ccaNotEd == !s.cfg.shorts.readyEdstart)
  {
    ReadyStarts(env, s);
    var v := SignalReady(env, s);
    QuietEvent(env, v, RXREADY);
    hide Keeps, Inv, StartRx, StartCcaEd, FormatSupported, SignalReady;
    if v.m.radio == RXIDLE {
      StartsTo(env, Logged(v, RXREADY));
    }
  }

  predicate IsEnabled(m: Machine) {
    !m.radio.DISABLED? && !m.radio.TXDISABLE? && !m.radio.RXDISABLE?
  }

  function RampDownTime(s: State): int {
    if s.m.radio in {TXRU, TXIDLE, TXSTARTING, TX} then TxRampDown(s.cfg.mode) else RX_RAMP_DOWN
  }

  /** What DISABLED leaves behind: the automatic turnaround, with normal ramp-up only, replaces the shortcuts. */
  function StateBehind(c: Config): RadioState {
    if c.shorts.endDisable && !c.fastRampUp then DISABLED
    else if c.shorts.disabledTxen then TXRU
    else if c.shorts.disabledRxen then RXRU
    else DISABLED
  }

  lemma DisabledOnlyStarts(env: Env, s: State)
    requires Quiet(env, s) && s.m.radio == DISABLED && s.m.tifs == TIFS_DISABLE
    ensures var r := SignalDisabled(env, s);
      && r.m.radio == StateBehind(s.cfg) && r.now == s.now && r.hist.log == s.hist.log + [(s.now, DISABLED_EVENT)]
      && r.rssiOn == (s.rssiOn && !s.cfg.shorts.disabledRssistop)
  {
    hide Keeps, Inv, Sound, RampUp;
    QuietEvent(env, s, DISABLED_EVENT);
    var d := Logged(s, DISABLED_EVENT);
    assert TurnaroundTimer(d.m, d.turn.timer) == d.m;
  }

  /** DISABLE from any state that is not off: whatever was going on, and whatever turnaround was planned, after the
      ramp-down comes DISABLED, once, and then its shortcuts, unless the automatic turnaround has replaced them. */
  lemma DisabledInTime(env: Env, s: State)
    requires Quiet(env, s) && s.fault == NoFault && IsEnabled(s.m)
    ensures var sending := s.m.radio in {TXRU, TXIDLE, TXSTARTING, TX};
      var t := s.now + if sending then Of(PerMode(6, 6, 21), s.cfg.mode) else 0;
      var r := Do(env, Disable(env, s), MainTimerReached);
      && r.now == t && r.hist.log == s.hist.log + [(t, DISABLED_EVENT)]
      && r.m.radio == StateBehind(s.cfg) && r.rssiOn == (s.rssiOn && !s.cfg.shorts.disabledRssistop)
  {
    RampsDown(env, s);
    var d := Disable(env, s);
    var t := At(d, d.m.timer);
    var u := t.(m := Halted(t.m, DISABLED));
    assert Do(env, d, MainTimerReached) == SignalDisabled(env, u);
    DisabledOnlyStarts(env, u);
    hide Keeps, Inv, Disable, SignalDisabled, Do, StateBehind, RampDownTime, Of;
  }

  lemma RampsDown(env: Env, s: State)
    requires IsEnabled(s.m)
    ensures var r := Disable(env, s);
      && r.m.radio in {TXDISABLE, RXDISABLE} && r.m.tifs == TIFS_DISABLE && r.m.timer == Some(s.now + RampDownTime(s))
      && RampDownTime(s)
         == (if s.m.radio in {TXRU, TXIDLE, TXSTARTING, TX} then Of(PerMode(6, 6, 21), s.cfg.mode) else 0)
      && RampDownTime(s) >= 0 && r.rssiOn == s.rssiOn
      && r.now == s.now && r.cfg == s.cfg && r.hist == s.hist && r.fault == s.fault && r.turn.fromHw == s.turn.fromHw
  {
  }

  /** Nothing but a decision about aborting can be due. */
  predicate AtRest(s: State) {
    s.m.radio in {TXIDLE, RXIDLE} && s.m.timer == None
  }

  lemma AnsweredAtRest(env: Env, s: State)
    requires AtRest(s) && Due(s, AbortTimerReached)
    ensures var r := Do(env, s, AbortTimerReached);
      AtRest(r) && r.m.radio == s.m.radio && r.hist.log == s.hist.log
  {
    var t := At(s, s.m.abortTimer);
    var u := t.(m := t.m.(abortTimer := None));
    var v := UpdateAbort(env, u.(m := u.m.(abort := NoPendingAbortReeval)));
    hide Keeps, Inv, Sound, Answered, CcaIsBusy, RxChainDelay;
  }

  /** What STOP has stopped is never heard of again: in every run of the two timers no event is raised any more, and the
      radio stays idle. That the Phy is told to abort is `RadioSafety.DecisionsReachThePhy`. */
  lemma {:induction false} StoppedIsSilent(env: Env, s: State, steps: seq<Step>)
    requires AtRest(s) && DueRun(env, s, steps)
    ensures var r := Run(env, s, steps);
      AtRest(r) && r.m.radio == s.m.radio && r.hist.log == s.hist.log && Mains(steps) == 0
    decreases |steps|
  {
    hide Do;
    if steps != [] {
      AnsweredAtRest(env, s);
      StoppedIsSilent(env, Do(env, s, steps[0]), steps[1..]);
    }
  }

  /** STOP during a transmission, a reception or an assessment leaves the radio at rest, in the idle state of its
      direction. */
  lemma StopRests(s: State)
    requires s.m.radio in {TX, TXSTARTING, RX, CCA_ED}
    ensures AtRest(Stop(s)) && Stop(s).m.radio == (if s.m.radio in {TX, TXSTARTING} then TXIDLE else RXIDLE)
    ensures Stop(s).hist == s.hist
    ensures s.m.abort != NoPendingAbortReeval && s.m.radio != TXSTARTING ==> Stop(s).m.abortingSet
  {
  }
}
