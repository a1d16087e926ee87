/**
 The automatic turnaround (hardware TIFS): when the RADIO opens the receiver after a packet it sent, and when it is
 on the air after a packet it received. The timers of the RADIO expire in the order of the scheduler, the Phy may
 ask for abort decisions at any time, and nothing else interferes.
 */
module RadioTifs {
  import opened Common
  import opened RadioTimings
  import opened RadioMachine

  // ---------- Runs of the two timers ----------

  /** The PPI connects no event from now on. */
  predicate Quiet(env: Env, s: State) {
    |env.ppi| <= s.hist.ppiCalls
  }

  /** The earlier timer expires first; of two equal ones the abort timer expires last. */
  predicate Due(s: State, step: Step) {
    match step
    case MainTimerReached => s.m.timer.Some? && (s.m.abortTimer.Some? ==> s.m.timer.value <= s.m.abortTimer.value)
    case AbortTimerReached => s.m.abortTimer.Some? && (s.m.timer.Some? ==> s.m.abortTimer.value < s.m.timer.value)
    case _ => false
  }

  predicate DueRun(env: Env, s: State, steps: seq<Step>)
    decreases |steps|
  {
    steps == [] || (Due(s, steps[0]) && DueRun(env, Do(env, s, steps[0]), steps[1..]))
  }

  /** How often the main timer expires in a run. */
  function Mains(steps: seq<Step>): nat {
    if steps == [] then 0 else (if steps[0] == MainTimerReached then 1 else 0) + Mains(steps[1..])
  }

  /** Nothing is being aborted, and the Phy at most waits to hear whether to abort a transmission. */
  predicate Undisturbed(env: Env, s: State) {
    && Quiet(env, s) && s.fault == NoFault && !s.turn.fromHw
    && !s.m.abortingSet && (s.m.abort == NoPendingAbortReeval || s.m.abort == TxAbortReeval)
    && (s.m.abortTimer.Some? ==> s.m.abort == TxAbortReeval)
  }

  /** The Phy has been told not to abort, and was asked for an answer: if it asks back, the abort timer is set to when
      it will be told again; if not, nothing is pending but what was before. */
  predicate AskedWhileSending(env: Env, s: State, abort: AbortState, abortTimer: Option<int>, r: State) {
    && r.hist.aborts == s.hist.aborts + [None] && r.hist.phyCalls == s.hist.phyCalls + 1
    && if env.phy(s.hist.phyCalls) == AbortReeval
       then r.m.abort == TxAbortReeval && r.m.abortTimer == env.recheck(s.hist.phyCalls)
       else r.m.abort == abort && r.m.abortTimer == abortTimer
  }

  /** A decision about a transmission leaves everything else alone. */
  lemma AbortLeavesTheRest(env: Env, s: State)
    requires Undisturbed(env, s) && Due(s, AbortTimerReached)
    ensures var r := Do(env, s, AbortTimerReached);
      && Undisturbed(env, r)
      && r.m.radio == s.m.radio && r.m.sub == s.m.sub && r.m.timer == s.m.timer && r.m.tifs == s.m.tifs
      && r.cfg == s.cfg && r.turn == s.turn && r.air.tx == s.air.tx && r.air.rx == s.air.rx && r.hist.log == s.hist.log
      && r.air.crcStatus == s.air.crcStatus
      && r.now == Max(s.now, s.m.abortTimer.value)
      && AskedWhileSending(env, s, NoPendingAbortReeval, None, r)
  {
    var t := At(s, s.m.abortTimer);
    assert Do(env, s, AbortTimerReached)
        == TxResponse(env, UpdateAbort(env, t.(m := t.m.(abortTimer := None, abort := NoPendingAbortReeval))));
  }

  // ---------- From Tx to Rx ----------

  function PayloadLen(c: Config): nat
    requires PayloadLength(c, c.lengthField).Some?
  {
    PayloadLength(c, c.lengthField).value
  }

  predicate CanTransmit(c: Config) {
    FormatSupported(c) && PayloadLength(c, c.lengthField).Some? && PayloadLen(c) <= c.maxLen
  }

  /** The turnaround and the shortcuts are set so that the receiver starts by itself. */
  predicate TurnsToRx(c: Config) {
    && CanTransmit(c) && HwTifsEnabled(c) && !c.shorts.disabledTxen
    && (c.shorts.readyStart || (c.shorts.rxreadyStart && !c.shorts.readyEdstart))
  }

  /** The end on the air of a packet that starts on the air at `t0`. */
  function TxAirEnd(c: Config, t0: int): int
    requires CanTransmit(c)
  {
    t0 + PacketDuration(c.mode, PayloadLen(c), c.crcLen)
  }

  function TxAddressEnd(c: Config, t0: int): int {
    t0 + AirTime(BitsPer4us(c.mode), (PreambleLen(c.mode) + AddressLen(c.mode)) * 8) - TX_CHAIN_DELAY
  }

  function TxPayloadEnd(c: Config, t0: int): int
    requires CanTransmit(c)
  {
    TxAddressEnd(c, t0) + AirTime(BitsPer4us(c.mode), (HeaderLen(c.mode) + PayloadLen(c)) * 8)
  }

  function TxDisabled(c: Config, t0: int): int
    requires CanTransmit(c)
  {
    TxAirEnd(c, t0) - TX_CHAIN_DELAY + TxRampDown(c.mode)
  }

  /** When the receiver should start to ramp up. */
  function RxRampUpPlanned(c: Config, t0: int): int
    requires CanTransmit(c)
  {
    TxAirEnd(c, t0) + c.tifs - 3 - RampUp(false, c.mode, false, true)
  }

  /** When the receiver opens: it cannot ramp up before the transmitter has ramped down. */
  function RxOpens(c: Config, t0: int): int
    requires CanTransmit(c)
  {
    Max(TxDisabled(c, t0), RxRampUpPlanned(c, t0)) + RampUp(false, c.mode, false, true)
  }

  /** The receiver opens 3 us before the inter frame space is over, exactly when TIFS leaves the time to ramp down
      and up. */
  lemma RxOpensOnTime(c: Config, t0: int)
    requires CanTransmit(c)
    ensures RxOpens(c, t0) == TxAirEnd(c, t0) + c.tifs - 3
       <==> TxRampDown(c.mode) - TX_CHAIN_DELAY + RampUp(false, c.mode, false, true) + 3 <= c.tifs
  {
  }

  /** The events of the packet and the turnaround, in order and with their times. */
  function TxToRxEvents(c: Config, t0: int): seq<(int, Event)>
    requires CanTransmit(c)
  {
    [(TxAddressEnd(c, t0), ADDRESS), (TxAddressEnd(c, t0), FRAMESTART), (TxPayloadEnd(c, t0), PAYLOAD),
     (TxAirEnd(c, t0) - TX_CHAIN_DELAY, END), (TxAirEnd(c, t0) - TX_CHAIN_DELAY, PHYEND),
     (TxDisabled(c, t0), DISABLED_EVENT), (RxOpens(c, t0), READY), (RxOpens(c, t0), RXREADY)]
  }

  /** With `n` expirations of the main timer to go, the machine is where it should be. */
  predicate TxTrack(env: Env, c: Config, t0: int, log: seq<(int, Event)>, s: State, n: nat)
    requires CanTransmit(c) && n <= 7
  {
    var crcEnd := TxAirEnd(c, t0) - TX_CHAIN_DELAY;
    if n == 0 then s.m.radio == RX && s.now == RxOpens(c, t0) && s.hist.log == log + TxToRxEvents(c, t0)
    else
      && Undisturbed(env, s) && s.cfg == c
      && s.m.timer.Some? && (n != 2 ==> s.now <= s.m.timer.value)
      && (3 < n < 7 ==> s.m.radio == TX && s.air.tx == TxStatus(TxAddressEnd(c, t0), TxPayloadEnd(c, t0), crcEnd))
      && (n == 2 || n == 3 ==> !s.turn.toTx && s.turn.timer == Some(RxRampUpPlanned(c, t0)))
      && match n
         case 7 => s.m.radio == TXSTARTING && s.m.timer.value == t0 && s.hist.log == log
         case 6 => s.m.sub == TX_WAIT_FOR_ADDRESS_END && s.m.timer.value == TxAddressEnd(c, t0) && s.hist.log == log
         case 5 => s.m.sub == TX_WAIT_FOR_PAYLOAD_END && s.m.timer.value == TxPayloadEnd(c, t0)
                   && s.hist.log == log + TxToRxEvents(c, t0)[..2]
         case 4 => s.m.sub == TX_WAIT_FOR_CRC_END && s.m.timer.value == crcEnd
                   && s.hist.log == log + TxToRxEvents(c, t0)[..3]
         case 3 => s.m.radio == TXDISABLE && s.m.tifs == TIFS_WAITING_FOR_DISABLE
                   && s.m.timer.value == TxDisabled(c, t0)
                   && s.hist.log == log + TxToRxEvents(c, t0)[..5]
         case 2 => s.m.radio == DISABLED && s.m.tifs == TIFS_TRIGGERING_TRX_EN
                   && s.m.timer.value == RxRampUpPlanned(c, t0) && TxDisabled(c, t0) <= s.now
                   && Max(s.now, s.m.timer.value) == Max(TxDisabled(c, t0), RxRampUpPlanned(c, t0))
                   && s.hist.log == log + TxToRxEvents(c, t0)[..6]
         case 1 => s.m.radio == RXRU && s.m.timer.value == RxOpens(c, t0)
                   && s.hist.log == log + TxToRxEvents(c, t0)[..6]
  }

  lemma TxTrackAbort(env: Env, c: Config, t0: int, log: seq<(int, Event)>, s: State, n: nat)
    requires CanTransmit(c) && 1 <= n <= 7 && TxTrack(env, c, t0, log, s, n) && Due(s, AbortTimerReached)
    ensures TxTrack(env, c, t0, log, Do(env, s, AbortTimerReached), n)
  {
    hide Do;
    AbortLeavesTheRest(env, s);
  }

  /** Starting a transmission sets its three times and its timer, and at most leaves the Phy waiting for a decision. */
  lemma Transmission(env: Env, s: State)
    requires CanTransmit(s.cfg) && s.m.radio == TXSTARTING && s.m.timer.None? && Undisturbed(env, s)
    ensures var r := StartTx(env, s);
      && Undisturbed(env, r) && r.now == s.now && r.cfg == s.cfg && r.turn == s.turn && r.hist.log == s.hist.log
      && r.air.crcStatus == s.air.crcStatus
      && r.air.tx == TxStatus(TxAddressEnd(s.cfg, s.now), TxPayloadEnd(s.cfg, s.now),
                              TxAirEnd(s.cfg, s.now) - TX_CHAIN_DELAY)
      && r.m.radio == TX && r.m.sub == TX_WAIT_FOR_ADDRESS_END && r.m.timer == Some(TxAddressEnd(s.cfg, s.now))
      && AskedWhileSending(env, s, s.m.abort, s.m.abortTimer, r)
  {
    var c := s.cfg;
    var s1 := s.(m := s.m.(radio := TX, reg := TX), air := s.air.(rate := BitsPer4us(c.mode), pduStat := false));
    var s2 := UpdateAbort(env, s1);
    var s3 := TxResponse(env, s2);
    TxTimesAre(s3);
    hide AirTime, TxTimes, TxAddressEnd, TxPayloadEnd, TxAirEnd, BitsPer4us, Keeps, Inv, FormatSupported, TxRampDown;
    assert Undisturbed(env, s3) && s3.hist.log == s.hist.log && s3.air.rate == BitsPer4us(c.mode) && s3.m.radio == TX;
  }

  lemma TxTimesAre(s: State)
    requires CanTransmit(s.cfg) && s.air.rate == BitsPer4us(s.cfg.mode)
    ensures TxTimes(s, PayloadLen(s.cfg))
         == TxStatus(TxAddressEnd(s.cfg, s.now), TxPayloadEnd(s.cfg, s.now), TxAirEnd(s.cfg, s.now) - TX_CHAIN_DELAY)
  {
    IntervalsAddUp(s.cfg.mode, PayloadLen(s.cfg), s.cfg.crcLen);
    hide AirTime, PacketDuration, PreambleLen, AddressLen, HeaderLen;
  }

  lemma TxStarts(env: Env, c: Config, t0: int, log: seq<(int, Event)>, s: State)
    requires TurnsToRx(c) && TxTrack(env, c, t0, log, s, 7)
    ensures TxTrack(env, c, t0, log, Do(env, s, MainTimerReached), 6)
  {
    var t := At(s, s.m.timer);
    hide StartTx, AirTime, PacketDuration;
    assert Do(env, s, MainTimerReached) == StartTx(env, t.(m := t.m.(timer := None)));
    Transmission(env, t.(m := t.m.(timer := None)));
    AddressBeforeStart(c.mode);
  }

  lemma AddressBeforeStart(mode: Mode)
    ensures AirTime(BitsPer4us(mode), (PreambleLen(mode) + AddressLen(mode)) * 8) >= TX_CHAIN_DELAY
  {
  }

  lemma TxAddressSent(env: Env, c: Config, t0: int, log: seq<(int, Event)>, s: State)
    requires TurnsToRx(c) && TxTrack(env, c, t0, log, s, 6)
    ensures TxTrack(env, c, t0, log, Do(env, s, MainTimerReached), 5)
  {
    var t := At(s, s.m.timer);
    hide AirTime, PacketDuration, Inv, Sound, RampUp;
    var s1 := t.(m := t.m.(sub := TX_WAIT_FOR_PAYLOAD_END, timer := Some(t.air.tx.payloadEnd)));
    QuietEvent(env, s1, ADDRESS);
    var s2 := SignalAddress(env, s1);
    QuietEvent(env, s2, FRAMESTART);
    assert Do(env, s, MainTimerReached) == Logged(s2, FRAMESTART);
    assert TxToRxEvents(c, t0)[..2] == [(TxAddressEnd(c, t0), ADDRESS), (TxAddressEnd(c, t0), FRAMESTART)];
  }

  lemma TxPayloadSent(env: Env, c: Config, t0: int, log: seq<(int, Event)>, s: State)
    requires TurnsToRx(c) && TxTrack(env, c, t0, log, s, 5)
    ensures TxTrack(env, c, t0, log, Do(env, s, MainTimerReached), 4)
  {
    var t := At(s, s.m.timer);
    IntervalsAddUp(c.mode, PayloadLen(c), c.crcLen);
    hide AirTime, PacketDuration, Inv, Sound, RampUp;
    var s1 := t.(m := t.m.(sub := TX_WAIT_FOR_CRC_END, timer := Some(t.air.tx.crcEnd)));
    QuietEvent(env, s1, PAYLOAD);
    assert Do(env, s, MainTimerReached) == Logged(s1, PAYLOAD);
    assert TxToRxEvents(c, t0)[..3] == TxToRxEvents(c, t0)[..2] + [(TxPayloadEnd(c, t0), PAYLOAD)];
  }

  /** END_DISABLE ramps the transmitter down at once, and after that the other shortcuts of END find nothing to do. */
  lemma TxEndDisables(env: Env, s: State)
    requires s.m.radio == TXIDLE && s.cfg.shorts.endDisable && Quiet(env, s)
    ensures var r := SignalEnd(env, s);
      && r.m == s.m.(radio := TXDISABLE, reg := TXDISABLE, tifs := TIFS_DISABLE,
                     timer := Some(s.now + TxRampDown(s.cfg.mode)))
      && r.now == s.now && r.cfg == s.cfg && r.fault == s.fault && r.turn.fromHw == s.turn.fromHw
      && r.hist == Logged(s, END).hist
  {
    hide Keeps, Inv, TxRampDown;
    QuietEvent(env, s, END);
    assert Disable(env, Logged(s, END)).m.radio == TXDISABLE;
  }

  lemma TxPhyEndIsIdle(env: Env, s: State)
    requires s.m.radio == TXDISABLE && s.m.tifs == TIFS_DISABLE && Quiet(env, s)
    ensures SignalPhyEnd(env, s) == Logged(s, PHYEND)
  {
    hide Keeps, Inv;
    QuietEvent(env, s, PHYEND);
    assert Disable(env, Logged(s, PHYEND)) == Logged(s, PHYEND);
  }

  lemma TxPacketSent(env: Env, c: Config, t0: int, log: seq<(int, Event)>, s: State)
    requires TurnsToRx(c) && TxTrack(env, c, t0, log, s, 4)
    ensures TxTrack(env, c, t0, log, Do(env, s, MainTimerReached), 3)
  {
    var t := At(s, s.m.timer);
    hide AirTime, PacketDuration, Inv, Keeps, SignalEnd, SignalPhyEnd, TxRampDown;
    var s1 := t.(m := Halted(t.m, TXIDLE).(sub := SUB_STATE_INVALID));
    var s2 := SignalEnd(env, s1);
    TxEndDisables(env, s1);
    TxPhyEndIsIdle(env, s2);
    assert Do(env, s, MainTimerReached) == MaybePrepareTifs(Logged(s2, PHYEND), true);
    TxRampDownTakesTime(c.mode);
    var end := TxAirEnd(c, t0) - TX_CHAIN_DELAY;
    assert TxToRxEvents(c, t0)[..5] == TxToRxEvents(c, t0)[..3] + [(end, END)] + [(end, PHYEND)];
  }

  lemma TxRampDownTakesTime(mode: Mode)
    ensures TxRampDown(mode) > 0
  {
  }

  lemma TxRampedDown(env: Env, c: Config, t0: int, log: seq<(int, Event)>, s: State)
    requires TurnsToRx(c) && TxTrack(env, c, t0, log, s, 3)
    ensures TxTrack(env, c, t0, log, Do(env, s, MainTimerReached), 2)
  {
    var t := At(s, s.m.timer);
    hide AirTime, PacketDuration, Inv, Sound;
    var s1 := t.(m := Halted(t.m, DISABLED));
    QuietEvent(env, s1, DISABLED_EVENT);
    assert Do(env, s, MainTimerReached) == SignalDisabled(env, s1);
    assert TxToRxEvents(c, t0)[..6] == TxToRxEvents(c, t0)[..5] + [(TxDisabled(c, t0), DISABLED_EVENT)];
  }

  lemma RxRampsUp(env: Env, c: Config, t0: int, log: seq<(int, Event)>, s: State)
    requires TurnsToRx(c) && TxTrack(env, c, t0, log, s, 2)
    ensures TxTrack(env, c, t0, log, Do(env, s, MainTimerReached), 1)
  {
    var t := At(s, s.m.timer);
    hide AirTime, PacketDuration, Inv, Sound;
    assert Do(env, s, MainTimerReached) == TurnaroundTriggered(t);
  }

  /** A receiver that starts is receiving: the shortcuts that come after find nothing to do. */
  lemma ReceptionStarts(env: Env, s: State)
    requires s.m.radio == RXIDLE && FormatSupported(s.cfg)
    ensures var r := StartRx(env, s); r.m.radio == RX && r.hist.log == s.hist.log && r.hist.ppiCalls == s.hist.ppiCalls
  {
  }

  lemma RxOpened(env: Env, c: Config, t0: int, log: seq<(int, Event)>, s: State)
    requires TurnsToRx(c) && TxTrack(env, c, t0, log, s, 1)
    ensures TxTrack(env, c, t0, log, Do(env, s, MainTimerReached), 0)
  {
    var t := At(s, s.m.timer);
    hide AirTime, PacketDuration, Inv, Sound, StartRx, Answered;
    var s1 := t.(m := Halted(t.m, RXIDLE));
    QuietEvent(env, s1, READY);
    var s2 := SignalReady(env, s1);
    if c.shorts.readyStart {
      ReceptionStarts(env, Logged(s1, READY));
    }
    QuietEvent(env, s2, RXREADY);
    if !c.shorts.readyStart {
      ReceptionStarts(env, Logged(s2, RXREADY));
    }
    assert Do(env, s, MainTimerReached) == SignalRxReady(env, s2);
    assert TxToRxEvents(c, t0) == TxToRxEvents(c, t0)[..6] + [(RxOpens(c, t0), READY)] + [(RxOpens(c, t0), RXREADY)];
  }

  /** One expiration of the main timer. */
  lemma TxTrackMain(env: Env, c: Config, t0: int, log: seq<(int, Event)>, s: State, n: nat)
    requires TurnsToRx(c) && 1 <= n <= 7 && TxTrack(env, c, t0, log, s, n)
    ensures TxTrack(env, c, t0, log, Do(env, s, MainTimerReached), n - 1)
  {
    hide Do, TxTrack;
    match n
    case 7 => TxStarts(env, c, t0, log, s);
    case 6 => TxAddressSent(env, c, t0, log, s);
    case 5 => TxPayloadSent(env, c, t0, log, s);
    case 4 => TxPacketSent(env, c, t0, log, s);
    case 3 => TxRampedDown(env, c, t0, log, s);
    case 2 => RxRampsUp(env, c, t0, log, s);
    case 1 => RxOpened(env, c, t0, log, s);
  }

  /** From the start of a transmission, in every run of the two timers, the seventh expiration of the main timer opens
      the receiver at exactly `RxOpens`; on the way every event is raised once, in order, at its time. Here for `k` of
      the `n` expirations that are left. */
  lemma {:induction false} TxTurnsToRx(env: Env, c: Config, t0: int, log: seq<(int, Event)>, s: State, n: nat, k: nat,
                                       steps: seq<Step>)
    requires TurnsToRx(c) && 1 <= k <= n <= 7 && TxTrack(env, c, t0, log, s, n)
    requires DueRun(env, s, steps) && Mains(steps) == k && steps[|steps| - 1] == MainTimerReached
    ensures TxTrack(env, c, t0, log, Run(env, s, steps), n - k)
    decreases |steps|
  {
    hide Do, TxTrack, CanTransmit, HwTifsEnabled;
    var r := Do(env, s, steps[0]);
    if steps[0] == MainTimerReached {
      TxTrackMain(env, c, t0, log, s, n);
      if k == 1 {
        if |steps| > 1 {
          LastIsMain(steps[1..]);
        }
        assert steps[1..] == [];
      } else {
        TxTurnsToRx(env, c, t0, log, r, n - 1, k - 1, steps[1..]);
      }
    } else {
      TxTrackAbort(env, c, t0, log, s, n);
      TxTurnsToRx(env, c, t0, log, r, n, k, steps[1..]);
    }
  }

  lemma StartIsTracked(env: Env, s: State)
    requires Undisturbed(env, s) && s.m.radio == TXIDLE && CanTransmit(s.cfg)
    ensures TxTrack(env, s.cfg, s.now + TX_CHAIN_DELAY, s.hist.log, Start(env, s), 7)
  {
    hide RxOpens, TxAirEnd, Keeps;
  }

  // ---------- A turnaround that never comes ----------

  /** After the end of a packet that is to be followed by a reception, DISABLE clears the timer of the ramp-down: no
      timer is left that could end it. */
  lemma DisableStallsTurnaround(env: Env, s: State, steps: seq<Step>, at: int)
    requires Undisturbed(env, s) && s.m.radio == TXIDLE && TurnsToRx(s.cfg)
    requires DueRun(env, Start(env, s), steps) && Mains(steps) == 4 && steps[|steps| - 1] == MainTimerReached
    ensures var r := Do(env, Run(env, Start(env, s), steps), TaskTriggered(at, DISABLE));
      r.m.radio == TXDISABLE && r.m.timer == None && r.fault == NoFault
  {
    var t0 := s.now + TX_CHAIN_DELAY;
    StartIsTracked(env, s);
    hide Start, DueRun, CanTransmit;
    TxTurnsToRx(env, s.cfg, t0, s.hist.log, Start(env, s), 7, 4, steps);
    RampDownStalls(env, s.cfg, t0, s.hist.log, Run(env, Start(env, s), steps), at);
  }

  lemma RampDownStalls(env: Env, c: Config, t0: int, log: seq<(int, Event)>, s: State, at: int)
    requires CanTransmit(c) && TxTrack(env, c, t0, log, s, 3)
    ensures var r := Do(env, s, TaskTriggered(at, DISABLE));
      r.m.radio == TXDISABLE && r.m.timer == None && r.fault == NoFault
  {
    hide TxAirEnd, TxToRxEvents, RxRampUpPlanned, TxPayloadEnd, Keeps, Inv;
    var t := s.(now := Max(s.now, at));
    assert Do(env, s, TaskTriggered(at, DISABLE)) == Disable(env, t);
  }

  const STALL_CONFIG := RESET_CONFIG.(mode := Ble1M, pcnfSupported := true, crcLen := 3, maxLen := 255, tifs := 150,
    lengthField := 10, shorts := NO_SHORTS.(readyStart := true, endDisable := true, disabledRxen := true))

  const FOUR_EXPIRATIONS: seq<Step> := [MainTimerReached, MainTimerReached, MainTimerReached, MainTimerReached]

  /** Such a run from boot: a packet is sent with the turnaround to reception on, and DISABLE comes while the
      transmitter ramps down. The radio then stays there. */
  lemma StalledFromBoot(env: Env)
    requires env.ppi == []
    ensures var r := Run(env, BOOT, [Configured(STALL_CONFIG), TaskTriggered(0, TXEN), MainTimerReached]
                                    + FOUR_EXPIRATIONS + [TaskTriggered(0, DISABLE)]);
      r.m.radio == TXDISABLE && r.m.timer == None && r.fault == NoFault
  {
    var first: seq<Step> := [Configured(STALL_CONFIG), TaskTriggered(0, TXEN), MainTimerReached];
    ReadyFromBoot(env);
    hide Do, TxTrack;
    var last: seq<Step> := [TaskTriggered(0, DISABLE)];
    RunInParts(env, BOOT, first + FOUR_EXPIRATIONS, last);
    RunInParts(env, BOOT, first, FOUR_EXPIRATIONS);
    var s := Run(env, BOOT, first);
    FourExpirations(env, s);
    var t := Run(env, s, FOUR_EXPIRATIONS);
    RampDownStalls(env, STALL_CONFIG, 142, [(141, READY), (141, TXREADY)], t, 0);
    assert last[1..] == [];
    assert Run(env, t, last) == Do(env, t, last[0]);
  }

  /** Ramping up from boot. */
  predicate EnabledFromBoot(s: State) {
    && s.cfg == STALL_CONFIG && s.hist == BOOT.hist && s.fault == NoFault && s.turn == BOOT.turn && s.now == 0
    && s.m == BOOT.m.(radio := TXRU, reg := TXRU, timer := Some(141))
  }

  lemma EnabledIs(env: Env)
    ensures EnabledFromBoot(Do(env, Do(env, BOOT, Configured(STALL_CONFIG)), TaskTriggered(0, TXEN)))
  {
    var s1 := Do(env, BOOT, Configured(STALL_CONFIG));
    assert Do(env, s1, TaskTriggered(0, TXEN)) == Txen(s1.(now := 0));
  }

  lemma EnabledIsTracked(env: Env, s: State)
    requires env.ppi == [] && EnabledFromBoot(s)
    ensures TurnsToRx(STALL_CONFIG)
    ensures TxTrack(env, STALL_CONFIG, 142, [(141, READY), (141, TXREADY)], Do(env, s, MainTimerReached), 7)
  {
    hide Keeps, Inv, Sound, TxToRxEvents, RxRampUpPlanned, TxPayloadEnd, SignalReady, SignalTxReady, TxAirEnd;
    var t := At(s, s.m.timer);
    var u := t.(m := Halted(t.m, TXIDLE));
    assert Do(env, s, MainTimerReached) == SignalTxReady(env, SignalReady(env, u));
    ReadyStartsTx(env, u);
    assert [] + [(141, READY)] + [(141, TXREADY)] == [(141, READY), (141, TXREADY)];
  }

  lemma RunOfThree(env: Env, s: State, a: Step, b: Step, c: Step)
    ensures Run(env, s, [a, b, c]) == Do(env, Do(env, Do(env, s, a), b), c)
  {
    hide Do;
    assert [a, b, c][1..] == [b, c] && [b, c][1..] == [c] && [c][1..] == [];
    assert Run(env, Do(env, s, a), [b, c]) == Run(env, Do(env, Do(env, s, a), b), [c]);
  }

  lemma ReadyFromBoot(env: Env)
    requires env.ppi == []
    ensures TurnsToRx(STALL_CONFIG)
    ensures TxTrack(env, STALL_CONFIG, 142, [(141, READY), (141, TXREADY)],
                    Run(env, BOOT, [Configured(STALL_CONFIG), TaskTriggered(0, TXEN), MainTimerReached]), 7)
  {
    hide *;
    EnabledIs(env);
    RunOfThree(env, BOOT, Configured(STALL_CONFIG), TaskTriggered(0, TXEN), MainTimerReached);
    EnabledIsTracked(env, Do(env, Do(env, BOOT, Configured(STALL_CONFIG)), TaskTriggered(0, TXEN)));
  }

  lemma FourExpirations(env: Env, s: State)
    requires TurnsToRx(STALL_CONFIG) && TxTrack(env, STALL_CONFIG, 142, [(141, READY), (141, TXREADY)], s, 7)
    ensures TxTrack(env, STALL_CONFIG, 142, [(141, READY), (141, TXREADY)], Run(env, s, FOUR_EXPIRATIONS), 3)
  {
    hide Do, TxTrack, TurnsToRx;
    var log := [(141, READY), (141, TXREADY)];
    var c, m := STALL_CONFIG, FOUR_EXPIRATIONS;
    var s1 := Do(env, s, MainTimerReached);
    var s2 := Do(env, s1, MainTimerReached);
    var s3 := Do(env, s2, MainTimerReached);
    TxTrackMain(env, c, 142, log, s, 7);
    TxTrackMain(env, c, 142, log, s1, 6);
    TxTrackMain(env, c, 142, log, s2, 5);
    TxTrackMain(env, c, 142, log, s3, 4);
    assert Run(env, s, m) == Run(env, s1, m[1..]) == Run(env, s2, m[1..][1..]) == Run(env, s3, m[1..][1..][1..]);
    assert m[1..][1..][1..][1..] == [];
  }

  lemma {:induction false} RunInParts(env: Env, s: State, a: seq<Step>, b: seq<Step>)
    ensures Run(env, s, a + b) == Run(env, Run(env, s, a), b)
    decreases |a|
  {
    hide Do;
    if a == [] {
      assert a + b == b;
    } else {
      assert (a + b)[1..] == a[1..] + b;
      RunInParts(env, Do(env, s, a[0]), a[1..], b);
    }
  }

  lemma {:induction false} LastIsMain(steps: seq<Step>)
    requires steps != [] && steps[|steps| - 1] == MainTimerReached
    ensures Mains(steps) > 0
  {
    if |steps| > 1 {
      LastIsMain(steps[1..]);
    }
  }

  // ---------- From Rx to Tx ----------

  /** The turnaround and the shortcuts are set so that the transmission starts by itself, and PHYEND, which comes
      before END, does not restart the reception. */
  predicate TurnsToTx(c: Config) {
    && CanTransmit(c) && HwTifsEnabled(c) && c.shorts.disabledTxen
    && (c.shorts.phyendDisable || !c.shorts.phyendStart)
    && (c.shorts.readyStart || c.shorts.txreadyStart)
  }

  /** When the transmitter should start to ramp up after a packet that ended on the air at `e`. */
  function TxRampUpPlanned(c: Config, e: int): int {
    e + c.tifs - RampUp(true, c.mode, false, true)
  }

  /** When the transmitter is ready: it cannot ramp up before the end of the packet has come through. */
  function TxReady(c: Config, e: int): int {
    Max(e + RxChainDelay(c.mode), TxRampUpPlanned(c, e)) + RampUp(true, c.mode, false, true)
  }

  /** The packet starts on the air 1 us after the inter frame space, exactly when TIFS leaves the time for the
      receive chain and the ramp-up. */
  lemma TxStartsOnTime(c: Config, e: int)
    ensures TxReady(c, e) + TX_CHAIN_DELAY == e + c.tifs + 1
       <==> RxChainDelay(c.mode) + RampUp(true, c.mode, false, true) <= c.tifs
  {
  }

  function RxToTxEvents(c: Config, p: int, e: int, crcOk: bool): seq<(int, Event)> {
    var crc := e + RxChainDelay(c.mode);
    [(p, PAYLOAD), (crc, if crcOk then CRCOK else CRCERROR), (crc, PHYEND), (crc, END), (crc, DISABLED_EVENT),
     (TxReady(c, e), READY), (TxReady(c, e), TXREADY)]
  }

  /** With `n` expirations of the main timer to go; the Phy has reported the end `e` of the packet, whose payload
      ends at `p`. */
  predicate RxTrack(env: Env, c: Config, p: int, e: int, crcOk: bool, log: seq<(int, Event)>, s: State, n: nat)
    requires CanTransmit(c) && n <= 6
  {
    var crc := e + RxChainDelay(c.mode);
    && Undisturbed(env, s) && s.cfg == c && s.m.timer.Some? && p <= crc && s.air.crcStatus == crcOk
    && (n != 3 ==> s.now <= s.m.timer.value)
    && (n >= 5 ==> s.m.radio == RX && s.air.rx.crcEnd == crc && s.air.rx.crcOk == crcOk)
    && (n == 3 || n == 4 ==> s.turn.toTx && s.turn.timer == Some(TxRampUpPlanned(c, e)))
    && match n
       case 6 => s.m.sub == RX_WAIT_FOR_PAYLOAD_END && s.m.timer.value == p && s.hist.log == log
       case 5 => s.m.sub == RX_WAIT_FOR_CRC_END && s.m.timer.value == crc
                 && s.hist.log == log + RxToTxEvents(c, p, e, crcOk)[..1]
       case 4 => s.m.radio == RXDISABLE && s.m.timer.value == crc && s.m.tifs == TIFS_WAITING_FOR_DISABLE
                 && s.hist.log == log + RxToTxEvents(c, p, e, crcOk)[..4]
       case 3 => s.m.radio == DISABLED && s.m.tifs == TIFS_TRIGGERING_TRX_EN && s.m.timer.value == TxRampUpPlanned(c, e)
                 && Max(s.now, s.m.timer.value) == Max(crc, TxRampUpPlanned(c, e))
                 && s.hist.log == log + RxToTxEvents(c, p, e, crcOk)[..5]
       case 2 => s.m.radio == TXRU && s.m.timer.value == TxReady(c, e)
                 && s.hist.log == log + RxToTxEvents(c, p, e, crcOk)[..5]
       case 1 => s.m.radio == TXSTARTING && s.m.timer.value == TxReady(c, e) + TX_CHAIN_DELAY
                 && s.hist.log == log + RxToTxEvents(c, p, e, crcOk)
       case 0 => s.m.radio == TX && s.m.sub == TX_WAIT_FOR_ADDRESS_END
                 && s.m.timer.value == TxAddressEnd(c, TxReady(c, e) + TX_CHAIN_DELAY)
                 && s.hist.log == log + RxToTxEvents(c, p, e, crcOk)
  }

  lemma RxTrackAbort(env: Env, c: Config, p: int, e: int, crcOk: bool, log: seq<(int, Event)>, s: State, n: nat)
    requires CanTransmit(c) && n <= 6 && RxTrack(env, c, p, e, crcOk, log, s, n) && Due(s, AbortTimerReached)
    ensures RxTrack(env, c, p, e, crcOk, log, Do(env, s, AbortTimerReached), n)
  {
    hide Do;
    AbortLeavesTheRest(env, s);
  }

  lemma RxPayloadReceived(env: Env, c: Config, p: int, e: int, crcOk: bool, log: seq<(int, Event)>, s: State)
    requires TurnsToTx(c) && RxTrack(env, c, p, e, crcOk, log, s, 6)
    ensures RxTrack(env, c, p, e, crcOk, log, Do(env, s, MainTimerReached), 5)
  {
    var t := At(s, s.m.timer);
    hide Inv, Keeps, RampUp, RxChainDelay;
    var s1 := t.(m := t.m.(sub := RX_WAIT_FOR_CRC_END, timer := Some(t.air.rx.crcEnd)));
    QuietEvent(env, s1, PAYLOAD);
    assert Do(env, s, MainTimerReached) == Logged(s1, PAYLOAD);
    assert RxToTxEvents(c, p, e, crcOk)[..1] == [(p, PAYLOAD)];
  }

  /** PHYEND either already disables the receiver or leaves it idle; END disables it at the latest. */
  lemma RxEndDisables(env: Env, s: State)
    requires s.m.radio == RXIDLE && s.cfg.shorts.endDisable && Quiet(env, s)
    requires s.cfg.shorts.phyendDisable || !s.cfg.shorts.phyendStart
    ensures var r := SignalEnd(env, SignalPhyEnd(env, s));
      && r.m == s.m.(radio := RXDISABLE, reg := RXDISABLE, tifs := TIFS_DISABLE, timer := Some(s.now + RX_RAMP_DOWN))
      && r.now == s.now && r.cfg == s.cfg && r.fault == s.fault && r.turn.fromHw == s.turn.fromHw && r.air == s.air
      && r.hist == Logged(Logged(s, PHYEND), END).hist
  {
    hide Keeps, Inv;
    QuietEvent(env, s, PHYEND);
    var s1 := SignalPhyEnd(env, s);
    if s.cfg.shorts.phyendDisable {
      assert Disable(env, Logged(s, PHYEND)).m.radio == RXDISABLE;
      assert s1 == Disable(env, Logged(s, PHYEND));
    } else {
      assert s1 == Logged(s, PHYEND);
    }
    QuietEvent(env, s1, END);
    assert Disable(env, Logged(s1, END)).m.radio == RXDISABLE;
    assert SignalEnd(env, s1) == Disable(env, Logged(s1, END));
  }

  /** At the end of a received packet the turnaround is planned so that the packet starts on time. */
  lemma TurnaroundPlanned(s: State, c: Config, e: int)
    requires HwTifsEnabled(c) && s.cfg == c && s.now == e + RxChainDelay(c.mode)
    ensures MaybePrepareTifs(s, false)
         == s.(turn := s.turn.(toTx := c.shorts.disabledTxen, timer := Some(TxRampUpPlanned(c, e))),
               m := s.m.(tifs := TIFS_WAITING_FOR_DISABLE))
  {
    hide Keeps;
  }

  lemma RxPacketReceived(env: Env, c: Config, p: int, e: int, crcOk: bool, log: seq<(int, Event)>, s: State)
    requires TurnsToTx(c) && RxTrack(env, c, p, e, crcOk, log, s, 5)
    ensures RxTrack(env, c, p, e, crcOk, log, Do(env, s, MainTimerReached), 4)
  {
    var t := At(s, s.m.timer);
    hide Inv, Keeps, SignalEnd, SignalPhyEnd, RxChainDelay, TxRampUpPlanned, CanTransmit, MaybePrepareTifs;
    var s1 := t.(m := Halted(t.m, RXIDLE).(sub := SUB_STATE_INVALID));
    var crcEvent := if crcOk then CRCOK else CRCERROR;
    QuietEvent(env, s1, crcEvent);
    var s2 := Logged(s1, crcEvent);
    RxEndDisables(env, s2);
    TurnaroundPlanned(SignalEnd(env, SignalPhyEnd(env, s2)), c, e);
    assert Do(env, s, MainTimerReached) == MaybePrepareTifs(SignalEnd(env, SignalPhyEnd(env, s2)), false);
    var crc := e + RxChainDelay(c.mode);
    assert RxToTxEvents(c, p, e, crcOk)[..4]
        == RxToTxEvents(c, p, e, crcOk)[..1] + [(crc, crcEvent)] + [(crc, PHYEND)] + [(crc, END)];
  }

  lemma RxDisabled(env: Env, c: Config, p: int, e: int, crcOk: bool, log: seq<(int, Event)>, s: State)
    requires TurnsToTx(c) && RxTrack(env, c, p, e, crcOk, log, s, 4)
    ensures RxTrack(env, c, p, e, crcOk, log, Do(env, s, MainTimerReached), 3)
  {
    var t := At(s, s.m.timer);
    hide Inv, Keeps, RxChainDelay;
    var s1 := t.(m := Halted(t.m, DISABLED));
    QuietEvent(env, s1, DISABLED_EVENT);
    assert Do(env, s, MainTimerReached) == SignalDisabled(env, s1);
    assert RxToTxEvents(c, p, e, crcOk)[..5]
        == RxToTxEvents(c, p, e, crcOk)[..4] + [(e + RxChainDelay(c.mode), DISABLED_EVENT)];
  }

  lemma TxRampsUp(env: Env, c: Config, p: int, e: int, crcOk: bool, log: seq<(int, Event)>, s: State)
    requires TurnsToTx(c) && RxTrack(env, c, p, e, crcOk, log, s, 3)
    ensures RxTrack(env, c, p, e, crcOk, log, Do(env, s, MainTimerReached), 2)
  {
    var t := At(s, s.m.timer);
    hide Inv, Keeps, RxChainDelay;
    assert Do(env, s, MainTimerReached) == TurnaroundTriggered(t);
  }

  /** One of READY_START and TXREADY_START starts the transmission, and the other then finds nothing to do. */
  lemma ReadyStartsTx(env: Env, s: State)
    requires s.m.radio == TXIDLE && Quiet(env, s) && (s.cfg.shorts.readyStart || s.cfg.shorts.txreadyStart)
    ensures SignalTxReady(env, SignalReady(env, s))
         == Logged(Logged(s, READY), TXREADY)
              .(m := s.m.(radio := TXSTARTING, reg := TX, timer := Some(s.now + TX_CHAIN_DELAY)))
  {
    hide Keeps, Inv, StartRx, StartCcaEd;
    QuietEvent(env, s, READY);
    var s1 := SignalReady(env, s);
    assert s1 == if s.cfg.shorts.readyStart then Start(env, Logged(s, READY)) else Logged(s, READY);
    QuietEvent(env, s1, TXREADY);
  }

  lemma TxIsReady(env: Env, c: Config, p: int, e: int, crcOk: bool, log: seq<(int, Event)>, s: State)
    requires TurnsToTx(c) && RxTrack(env, c, p, e, crcOk, log, s, 2)
    ensures RxTrack(env, c, p, e, crcOk, log, Do(env, s, MainTimerReached), 1)
  {
    var t := At(s, s.m.timer);
    hide Inv, Keeps, RxChainDelay, SignalReady, SignalTxReady;
    ReadyStartsTx(env, t.(m := Halted(t.m, TXIDLE)));
    assert Do(env, s, MainTimerReached) == SignalTxReady(env, SignalReady(env, t.(m := Halted(t.m, TXIDLE))));
    assert RxToTxEvents(c, p, e, crcOk)
        == RxToTxEvents(c, p, e, crcOk)[..5] + [(TxReady(c, e), READY)] + [(TxReady(c, e), TXREADY)];
  }

  lemma TxOnAir(env: Env, c: Config, p: int, e: int, crcOk: bool, log: seq<(int, Event)>, s: State)
    requires TurnsToTx(c) && RxTrack(env, c, p, e, crcOk, log, s, 1)
    ensures RxTrack(env, c, p, e, crcOk, log, Do(env, s, MainTimerReached), 0)
    ensures Do(env, s, MainTimerReached).now == TxReady(c, e) + TX_CHAIN_DELAY
  {
    var t := At(s, s.m.timer);
    hide StartTx, AirTime, PacketDuration, RxChainDelay;
    assert Do(env, s, MainTimerReached) == StartTx(env, t.(m := t.m.(timer := None)));
    Transmission(env, t.(m := t.m.(timer := None)));
    AddressBeforeStart(c.mode);
  }

  lemma RxTrackMain(env: Env, c: Config, p: int, e: int, crcOk: bool, log: seq<(int, Event)>, s: State, n: nat)
    requires TurnsToTx(c) && 1 <= n <= 6 && RxTrack(env, c, p, e, crcOk, log, s, n)
    ensures RxTrack(env, c, p, e, crcOk, log, Do(env, s, MainTimerReached), n - 1)
    ensures n == 1 ==> Do(env, s, MainTimerReached).now == TxReady(c, e) + TX_CHAIN_DELAY
  {
    hide Do, RxTrack;
    match n
    case 6 => RxPayloadReceived(env, c, p, e, crcOk, log, s);
    case 5 => RxPacketReceived(env, c, p, e, crcOk, log, s);
    case 4 => RxDisabled(env, c, p, e, crcOk, log, s);
    case 3 => TxRampsUp(env, c, p, e, crcOk, log, s);
    case 2 => TxIsReady(env, c, p, e, crcOk, log, s);
    case 1 => TxOnAir(env, c, p, e, crcOk, log, s);
  }

  /** From the payload of a packet whose end the Phy has reported, in every run of the two timers, the sixth expiration
      of the main timer starts the transmission on the air at exactly `TxReady` plus the chain delay. */
  lemma {:induction false} RxTurnsToTx(env: Env, c: Config, p: int, e: int, crcOk: bool, log: seq<(int, Event)>,
                                       s: State, n: nat, steps: seq<Step>)
    requires TurnsToTx(c) && 1 <= n <= 6 && RxTrack(env, c, p, e, crcOk, log, s, n)
    requires DueRun(env, s, steps) && Mains(steps) == n && steps[|steps| - 1] == MainTimerReached
    ensures var r := Run(env, s, steps);
      RxTrack(env, c, p, e, crcOk, log, r, 0) && r.now == TxReady(c, e) + TX_CHAIN_DELAY
    decreases |steps|
  {
    hide Do, RxTrack, CanTransmit, HwTifsEnabled, RxChainDelay, TxReady;
    var r := Do(env, s, steps[0]);
    if steps[0] == MainTimerReached {
      RxTrackMain(env, c, p, e, crcOk, log, s, n);
      if n == 1 {
        if |steps| > 1 {
          LastIsMain(steps[1..]);
        }
        assert steps[1..] == [];
      } else {
        RxTurnsToTx(env, c, p, e, crcOk, log, r, n - 1, steps[1..]);
      }
    } else {
      RxTrackAbort(env, c, p, e, crcOk, log, s, n);
      RxTurnsToTx(env, c, p, e, crcOk, log, r, n, steps[1..]);
    }
  }
}
