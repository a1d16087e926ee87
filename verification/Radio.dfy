/**
 The RADIO peripheral: static variables updated in place by tasks, signals and timer handlers that call each other.
 Every method does to the whole state what `RadioMachine` says; `Do` and `RunSteps` take the peripheral through the
 steps and the whole runs for which `RadioSafety` proves that it stays valid.
 */
module Radio {
  import opened Common
  import opened RadioTimings
  import M = RadioMachine
  import S = RadioSafety

  class Peripheral {
    const env: M.Env

    var now: int
    var cfg: M.Config
    var m: M.Machine
    var turn: M.Turnaround
    var air: M.Air
    var rssiOn: bool
    var radioOn: bool
    var hist: M.History
    var fault: M.Fault

    function View(): M.State
      reads this
    {
      M.State(now, cfg, m, turn, air, rssiOn, radioOn, hist, fault)
    }

    /** STATE mirrors the machine, both timers are armed only where they have something to do, and no error branch has
        been reached. */
    predicate Valid()
      reads this
    {
      M.Inv(m) && M.Fine(fault)
    }

    constructor (env: M.Env)
      ensures this.env == env && View() == M.BOOT && Valid()
    {
      this.env := env;
      now, cfg, turn, rssiOn, radioOn := 0, M.RESET_CONFIG, M.Turnaround(false, None, false), false, false;
      m := M.Machine(M.DISABLED, M.DISABLED, M.SUB_STATE_INVALID, None, M.TIFS_DISABLE,
                     M.NoPendingAbortReeval, false, None);
      air := M.Air(M.TxStatus(0, 0, 0), M.RxStatus(0, 0, 0, 0, false, false, false), M.CcaStatus(false, false), 4, None,
                   false, false);
      hist, fault := M.History(0, [], 0, []), M.NoFault;
    }

    // ---------- Transactions with the Phy ----------

    method AbortIfNeeded()
      modifies this
      ensures View() == old(View()).(m := M.AbortIfNeeded(old(View()).m))
    {
      if m.abort != M.NoPendingAbortReeval {
        m := m.(abortingSet := true);
      }
      if m.sub == M.RX_WAIT_FOR_ADDRESS_END {
        m := m.(sub := M.SUB_STATE_INVALID);
      }
    }

    method UpdateAbort()
      modifies this
      ensures View() == M.UpdateAbort(env, old(View()))
    {
      air := air.(nextRecheck := env.recheck(hist.phyCalls));
      if m.abortingSet {
        m := m.(abortingSet := false);
        hist := hist.(aborts := hist.aborts + [Some(now)]);
      } else {
        hist := hist.(aborts := hist.aborts + [None]);
      }
    }

    method HandleTxResponse()
      modifies this
      ensures View() == M.TxResponse(env, old(View()))
    {
      var reply := env.phy(hist.phyCalls);
      hist := hist.(phyCalls := hist.phyCalls + 1);
      if reply == M.AbortReeval {
        m := m.(abort := M.TxAbortReeval, abortTimer := air.nextRecheck);
      }
    }

    method StartTx()
      requires m.radio == M.TXSTARTING && m.timer.None?
      modifies this
      ensures View() == M.StartTx(env, old(View()))
    {
      hide M.Keeps, M.Inv, M.Sound, M.TxResponse, M.FormatSupported;
      hide AirTime, PreambleLen, AddressLen, HeaderLen, BitsPer4us;
      m := m.(radio := M.TX, reg := M.TX);
      var payload := M.PayloadLength(cfg, cfg.lengthField);
      if !M.FormatSupported(cfg) || payload.None? || payload.value > cfg.maxLen {
        fault := M.NotSupported;
        return;
      }
      air := air.(rate := BitsPer4us(cfg.mode), pduStat := false);
      UpdateAbort();
      HandleTxResponse();
      var addressEnd := now + AirTime(air.rate, (PreambleLen(cfg.mode) + AddressLen(cfg.mode)) * 8) - TX_CHAIN_DELAY;
      var payloadEnd := addressEnd + AirTime(air.rate, (HeaderLen(cfg.mode) + payload.value) * 8);
      air := air.(tx := M.TxStatus(addressEnd, payloadEnd, payloadEnd + AirTime(air.rate, cfg.crcLen * 8)));
      m := m.(sub := M.TX_WAIT_FOR_ADDRESS_END, timer := Some(addressEnd));
    }

    method HandleRxEndResponse(reply: M.Reply)
      requires reply.RxEnd?
      modifies this
      ensures View() == M.RxEndResponse(old(View()), reply)
    {
      if reply.status != M.HeaderError {
        air := air.(rx := air.rx.(crcEnd := reply.endTime + RxChainDelay(cfg.mode)));
      }
      if reply.status == M.CrcIsOk {
        air := air.(rx := air.rx.(crcOk := true), crcStatus := true);
      }
    }

    method HandleAddressEndResponse(reply: M.Reply)
      requires reply.AddressFound?
      modifies this
      ensures View() == M.AddressEndResponse(old(View()), reply)
    {
      hide M.Keeps, M.Inv, AirTime, HeaderLen, RxChainDelay, M.PayloadLength;
      var length := M.PayloadLength(cfg, reply.lengthField);
      if length.None? {
        fault := M.NotSupported;
        return;
      }
      var chain := RxChainDelay(cfg.mode);
      air := air.(rx := air.rx.(addressEnd := reply.timeStamp + chain, matched := reply.matched));
      var accepted := length.value;
      if length.value > cfg.maxLen {
        accepted := cfg.maxLen;
        air := air.(pduStat := true, rx := air.rx.(rejected := true));
      } else {
        air := air.(pduStat := false, rx := air.rx.(rejected := false));
      }
      var payloadEnd := reply.stray;
      if cfg.mode != Unsupported {
        payloadEnd := reply.timeStamp + AirTime(air.rate, (HeaderLen(cfg.mode) + accepted) * 8);
      }
      air := air.(rx := air.rx.(payloadEnd := chain + payloadEnd));
      air := air.(rx := air.rx.(crcEnd := air.rx.payloadEnd + air.rx.crcDuration));
    }

    method HandleRxResponse()
      modifies this
      ensures View() == M.RxResponse(env, old(View()))
    {
      var reply := env.phy(hist.phyCalls);
      hist := hist.(phyCalls := hist.phyCalls + 1);
      if reply == M.AbortReeval {
        m := m.(abort := M.RxAbortReeval, abortTimer := M.LaterOf(air.nextRecheck, now));
      } else if reply.AddressFound? && m.radio == M.RX {
        HandleAddressEndResponse(reply);
        m := m.(sub := M.RX_WAIT_FOR_ADDRESS_END, timer := Some(air.rx.addressEnd));
      } else if reply.RxEnd? && m.radio == M.RX {
        HandleRxEndResponse(reply);
      }
    }

    method StartRx()
      requires m.radio == M.RXIDLE
      modifies this
      ensures View() == M.StartRx(env, old(View()))
    {
      if !M.FormatSupported(cfg) {
        fault := M.NotSupported;
        return;
      }
      m := m.(radio := M.RX, reg := M.RX);
      air := air.(crcStatus := false, rate := BitsPer4us(cfg.mode));
      air := air.(rx := air.rx.(crcDuration := AirTime(air.rate, cfg.crcLen * 8), crcOk := false));
      UpdateAbort();
      m := m.(sub := M.SUB_STATE_INVALID, timer := None);
      HandleRxResponse();
    }

    method HandleCcaResponse()
      modifies this
      ensures View() == M.CcaResponse(env, old(View()))
    {
      var reply := env.phy(hist.phyCalls);
      hist := hist.(phyCalls := hist.phyCalls + 1);
      if reply.CcaEnd? {
        if m.radio == M.CCA_ED {
          m := m.(timer := Some(reply.ccaEndTime));
        }
        if air.cca.ccaNotEd {
          if cfg.ccaMode == M.UnknownCcaMode {
            fault := M.NotSupported;
          } else {
            air := air.(cca := air.cca.(isBusy := M.CcaIsBusy(cfg.ccaMode, reply.overThreshold, reply.modFound)));
          }
        }
      } else if reply == M.AbortReeval {
        m := m.(abort := M.CcaAbortReeval, abortTimer := air.nextRecheck);
      }
    }

    method StartCcaEd(ccaNotEd: bool)
      requires m.radio == M.RXIDLE
      modifies this
      ensures View() == M.StartCcaEd(env, old(View()), ccaNotEd)
    {
      hide M.Keeps, M.Inv, M.Sound, M.ScanDuration, M.CcaResponse;
      m := m.(radio := M.CCA_ED);
      air := air.(cca := M.CcaStatus(ccaNotEd, false));
      if cfg.mode != Ieee154 || (ccaNotEd && cfg.ccaMode == M.UnknownCcaMode) {
        fault := M.NotSupported;
        return;
      }
      UpdateAbort();
      m := m.(timer := Some(now + M.ScanDuration(cfg, ccaNotEd)));
      HandleCcaResponse();
    }

    // ---------- Tasks ----------

    method Txen()
      modifies this
      ensures View() == M.Txen(old(View()))
    {
      if m.radio != M.DISABLED && m.radio != M.TXIDLE && m.radio != M.RXIDLE {
        return;
      }
      var rampUp := RampUp(true, cfg.mode, cfg.fastRampUp, turn.fromHw || M.HwTifsEnabled(cfg));
      m := m.(radio := M.TXRU, reg := M.TXRU, timer := Some(now + rampUp));
    }

    method Rxen()
      modifies this
      ensures View() == M.Rxen(old(View()))
    {
      if m.radio != M.DISABLED && m.radio != M.TXIDLE && m.radio != M.RXIDLE {
        return;
      }
      var rampUp := RampUp(false, cfg.mode, cfg.fastRampUp, turn.fromHw || M.HwTifsEnabled(cfg));
      m := m.(tifs := M.TIFS_DISABLE, radio := M.RXRU, reg := M.RXRU, timer := Some(now + rampUp));
    }

    method Start()
      modifies this
      ensures View() == M.Start(env, old(View()))
    {
      if m.radio == M.TXIDLE {
        m := m.(radio := M.TXSTARTING, reg := M.TX, timer := Some(now + TX_CHAIN_DELAY));
      } else if m.radio == M.RXIDLE {
        StartRx();
      }
    }

    method CcaStart()
      modifies this
      ensures View() == M.CcaStart(env, old(View()))
    {
      if m.radio == M.RXIDLE {
        StartCcaEd(true);
      }
    }

    method EdStart()
      modifies this
      ensures View() == M.EdStart(env, old(View()))
    {
      if m.radio == M.RXIDLE {
        StartCcaEd(false);
      }
    }

    method Stop()
      modifies this
      ensures View() == M.Stop(old(View()))
    {
      if m.radio == M.TX || m.radio == M.TXSTARTING {
        if m.radio == M.TX {
          AbortIfNeeded();
        }
        m := m.(radio := M.TXIDLE, reg := M.TXIDLE, timer := None);
      } else if m.radio == M.RX || m.radio == M.CCA_ED {
        AbortIfNeeded();
        m := m.(radio := M.RXIDLE, reg := M.RXIDLE, timer := None);
      }
    }

    method CcaStop()
      modifies this
      ensures View() == M.CcaStop(env, old(View()))
      decreases M.Pending(env, View()), 3
    {
      if m.radio == M.CCA_ED && air.cca.ccaNotEd {
        AbortIfNeeded();
        m := m.(radio := M.RXIDLE, reg := M.RXIDLE, timer := None);
        Raise(M.CCASTOPPED);
      }
    }

    method EdStop()
      modifies this
      ensures View() == M.EdStop(env, old(View()))
      decreases M.Pending(env, View()), 3
    {
      if m.radio == M.CCA_ED && !air.cca.ccaNotEd {
        AbortIfNeeded();
        m := m.(radio := M.RXIDLE, reg := M.RXIDLE, timer := None);
        Raise(M.EDSTOPPED);
      }
    }

    /** Stops whatever is on the air and forgets a pending turnaround. */
    method Interrupt()
      modifies this
      ensures View() == old(View()).(m := M.Interrupted(old(View()).m),
        turn := old(View()).turn.(timer := if old(m.tifs) != M.TIFS_DISABLE then None else old(turn.timer)))
    {
      if m.radio == M.TX || m.radio == M.TXSTARTING {
        if m.radio == M.TX {
          AbortIfNeeded();
        }
        m := m.(radio := M.TXIDLE, reg := M.TXIDLE);
      } else if m.radio == M.RX || m.radio == M.CCA_ED {
        AbortIfNeeded();
        m := m.(radio := M.RXIDLE, reg := M.RXIDLE);
      }
      if m.tifs != M.TIFS_DISABLE {
        m := m.(tifs := M.TIFS_DISABLE, timer := None);
        turn := turn.(timer := None);
      }
    }

    method Disable()
      modifies this
      ensures View() == M.Disable(env, old(View()))
      decreases M.Pending(env, View()), 4
    {
      Interrupt();
      if m.radio == M.TXRU || m.radio == M.TXIDLE {
        m := m.(radio := M.TXDISABLE, reg := M.TXDISABLE, tifs := M.TIFS_DISABLE,
                timer := Some(now + TxRampDown(cfg.mode)));
      } else if m.radio == M.RXRU || m.radio == M.RXIDLE {
        m := m.(radio := M.RXDISABLE, reg := M.RXDISABLE, tifs := M.TIFS_DISABLE, timer := Some(now + RX_RAMP_DOWN));
      } else if m.radio == M.DISABLED {
        SignalDisabled();
      }
    }

    /** A task from anywhere, with everything that it sets off. */
    method DoTask(t: M.Task)
      modifies this
      ensures View() == M.DoTask(env, old(View()), t)
      ensures (old(Valid()) ==> Valid()) && M.Answered(old(View()), View())
      decreases M.Pending(env, View()), 5
    {
      match t
      case TXEN => Txen();
      case RXEN => Rxen();
      case START => Start();
      case STOP => Stop();
      case DISABLE => Disable();
      case CCASTART => CcaStart();
      case CCASTOP => CcaStop();
      case EDSTART => EdStart();
      case EDSTOP => EdStop();
      case RSSISTART => rssiOn := true;
      case RSSISTOP => rssiOn := false;
    }

    // ---------- Signals ----------

    /** The PPI runs the tasks connected to an event before it returns. */
    method Raise(e: M.Event)
      modifies this
      ensures View() == M.Raise(env, old(View()), e)
      ensures (old(Valid()) ==> Valid()) && M.Answered(old(View()), View())
      decreases M.Pending(env, View()), 1
    {
      var n := hist.ppiCalls;
      hist := hist.(log := hist.log + [(now, e)], ppiCalls := hist.ppiCalls + 1);
      if n < |env.ppi| {
        ghost var s := View();
        var i := 0;
        while i < |env.ppi[n]|
          invariant 0 <= i <= |env.ppi[n]| && hist.ppiCalls > n
          invariant M.DoTasks(env, View(), env.ppi[n][i..]) == M.DoTasks(env, s, env.ppi[n])
        {
          assert env.ppi[n][i..][1..] == env.ppi[n][i + 1..];
          DoTask(env.ppi[n][i]);
          i := i + 1;
        }
      }
    }

    method SignalDisabled()
      requires m.radio == M.DISABLED
      modifies this
      ensures View() == M.SignalDisabled(env, old(View()))
      decreases M.Pending(env, View()), 2
    {
      Raise(M.DISABLED_EVENT);
      if M.HwTifsEnabled(cfg) {
        FakeTaskTrxenTifs();
      } else {
        if cfg.shorts.disabledTxen {
          Txen();
        }
        if cfg.shorts.disabledRxen {
          Rxen();
        }
      }
      if cfg.shorts.disabledRssistop {
        rssiOn := false;
      }
    }

    method FakeTaskTrxenTifs()
      modifies this
      ensures View() == old(View()).(m := M.TurnaroundTimer(old(View()).m, old(turn.timer)))
    {
      if m.tifs == M.TIFS_WAITING_FOR_DISABLE {
        m := m.(tifs := M.TIFS_TRIGGERING_TRX_EN, timer := turn.timer);
      }
    }

    method SignalReady()
      modifies this
      ensures View() == M.SignalReady(env, old(View()))
    {
      Raise(M.READY);
      if cfg.shorts.readyStart {
        Start();
      }
      if cfg.shorts.readyEdstart {
        EdStart();
      }
    }

    method SignalTxReady()
      modifies this
      ensures View() == M.SignalTxReady(env, old(View()))
    {
      Raise(M.TXREADY);
      if cfg.shorts.txreadyStart {
        Start();
      }
    }

    method SignalRxReady()
      modifies this
      ensures View() == M.SignalRxReady(env, old(View()))
    {
      Raise(M.RXREADY);
      if cfg.shorts.rxreadyStart {
        Start();
      }
      if cfg.shorts.rxreadyCcastart {
        CcaStart();
      }
    }

    method SignalAddress()
      modifies this
      ensures View() == M.SignalAddress(env, old(View()))
    {
      Raise(M.ADDRESS);
      if cfg.shorts.addressRssistart {
        rssiOn := true;
      }
    }

    method SignalEnd()
      modifies this
      ensures View() == M.SignalEnd(env, old(View()))
    {
      Raise(M.END);
      if cfg.shorts.endDisable {
        Disable();
      }
      if cfg.shorts.endStart {
        Start();
      }
    }

    method SignalPhyEnd()
      modifies this
      ensures View() == M.SignalPhyEnd(env, old(View()))
    {
      Raise(M.PHYEND);
      if cfg.shorts.phyendDisable {
        Disable();
      }
      if cfg.shorts.phyendStart {
        Start();
      }
    }

    method SignalCcaIdle()
      modifies this
      ensures View() == M.SignalCcaIdle(env, old(View()))
    {
      Raise(M.CCAIDLE);
      if cfg.shorts.ccaidleStop {
        Stop();
      }
      if cfg.shorts.ccaidleTxen {
        Txen();
      }
    }

    method SignalCcaBusy()
      modifies this
      ensures View() == M.SignalCcaBusy(env, old(View()))
    {
      Raise(M.CCABUSY);
      if cfg.shorts.ccabusyDisable {
        Disable();
      }
    }

    method SignalEdEnd()
      modifies this
      ensures View() == M.SignalEdEnd(env, old(View()))
    {
      Raise(M.EDEND);
      if cfg.shorts.edendDisable {
        Disable();
      }
    }

    // ---------- The timers ----------

    method MaybePrepareTifs(endOfTx: bool)
      modifies this
      ensures View() == M.MaybePrepareTifs(old(View()), endOfTx)
    {
      if !M.HwTifsEnabled(cfg) {
        m := m.(tifs := M.TIFS_DISABLE);
        return;
      }
      turn := turn.(toTx := cfg.shorts.disabledTxen);
      var delta;
      if endOfTx {
        delta := cfg.tifs + TX_CHAIN_DELAY - RampUp(false, cfg.mode, cfg.fastRampUp, true) - 3;
      } else {
        delta := cfg.tifs - RxChainDelay(cfg.mode) - TX_CHAIN_DELAY - RampUp(true, cfg.mode, cfg.fastRampUp, true) + 1;
      }
      turn := turn.(timer := Some(now + delta));
      m := m.(tifs := M.TIFS_WAITING_FOR_DISABLE);
    }

    method TxTimerTriggered()
      requires m.radio == M.TX
      modifies this
      ensures View() == M.TxTimer(env, old(View()))
    {
      if m.sub == M.TX_WAIT_FOR_ADDRESS_END {
        m := m.(sub := M.TX_WAIT_FOR_PAYLOAD_END, timer := Some(air.tx.payloadEnd));
        SignalAddress();
        Raise(M.FRAMESTART);
      } else if m.sub == M.TX_WAIT_FOR_PAYLOAD_END {
        m := m.(sub := M.TX_WAIT_FOR_CRC_END, timer := Some(air.tx.crcEnd));
        Raise(M.PAYLOAD);
      } else if m.sub == M.TX_WAIT_FOR_CRC_END {
        m := m.(sub := M.SUB_STATE_INVALID, radio := M.TXIDLE, reg := M.TXIDLE, timer := None);
        SignalEnd();
        SignalPhyEnd();
        MaybePrepareTifs(true);
      } else {
        fault := M.StrayTimer;
      }
    }

    method RxAddrReceived()
      modifies this
      ensures View() == M.AddressReceived(env, old(View()))
    {
      var acceptPacket := !air.rx.rejected;
      if rssiOn {
        Raise(M.RSSIEND);
      }
      if cfg.matchAddresses {
        if air.rx.matched {
          Raise(M.DEVMATCH);
        } else {
          Raise(M.DEVMISS);
        }
      }
      UpdateAbort();
      if acceptPacket {
        HandleRxResponse();
      }
    }

    method AddressEndTriggered()
      modifies this
      ensures View() == M.AddressEndTimer(env, old(View()))
    {
      hide M.Inv;
      m := m.(timer := None);
      Raise(M.SYNC);
      SignalAddress();
      Raise(M.FRAMESTART);
      RxAddrReceived();
      m := m.(sub := M.RX_WAIT_FOR_PAYLOAD_END, timer := Some(air.rx.payloadEnd));
    }

    method RxPacketEnded()
      requires m.radio == M.RX
      modifies this
      ensures View() == M.RxPacketEnd(env, old(View()))
    {
      hide M.Inv;
      m := m.(sub := M.SUB_STATE_INVALID, radio := M.RXIDLE, reg := M.RXIDLE, timer := None);
      if air.rx.crcOk {
        Raise(M.CRCOK);
      } else {
        Raise(M.CRCERROR);
      }
      SignalPhyEnd();
      SignalEnd();
      MaybePrepareTifs(false);
    }

    method RxTimerTriggered()
      requires m.radio == M.RX
      modifies this
      ensures View() == M.RxTimer(env, old(View()))
    {
      if m.sub == M.RX_WAIT_FOR_ADDRESS_END {
        AddressEndTriggered();
      } else if m.sub == M.RX_WAIT_FOR_PAYLOAD_END {
        m := m.(sub := M.RX_WAIT_FOR_CRC_END, timer := Some(air.rx.crcEnd));
        Raise(M.PAYLOAD);
      } else if m.sub == M.RX_WAIT_FOR_CRC_END {
        RxPacketEnded();
      } else {
        fault := M.StrayTimer;
      }
    }

    method CcaEdTimerTriggered()
      requires m.radio == M.CCA_ED
      modifies this
      ensures View() == M.CcaEdTimer(env, old(View()))
    {
      m := m.(radio := M.RXIDLE, reg := M.RXIDLE, timer := None);
      if air.cca.ccaNotEd {
        if air.cca.isBusy {
          SignalCcaBusy();
        } else {
          SignalCcaIdle();
        }
      } else {
        SignalEdEnd();
      }
    }

    method TurnaroundTriggered()
      requires m.radio == M.DISABLED
      modifies this
      ensures View() == M.TurnaroundTriggered(old(View()))
    {
      hide M.Inv, M.Answered;
      m := m.(tifs := M.TIFS_DISABLE, timer := None);
      turn := turn.(fromHw := true);
      if turn.toTx {
        Txen();
      } else {
        Rxen();
      }
      turn := turn.(fromHw := false);
    }

    /** The main timer: armed, it never reaches the error branch. */
    method TimerTriggered()
      modifies this
      ensures View() == M.MainTimer(env, old(View()))
      ensures old(Valid() && m.timer.Some? && S.SafeAtAddressEnd(env, View())) ==> Valid()
      ensures M.Answered(old(View()), View())
    {
      hide M.Inv, M.Fine, M.Answered, M.Keeps, M.TurnaroundTriggered, S.SafeAtAddressEnd;
      if Valid() && m.timer.Some? && S.SafeAtAddressEnd(env, View()) {
        S.MainTimerIsSafe(env, View());
      }
      if m.radio == M.TXRU {
        m := m.(radio := M.TXIDLE, reg := M.TXIDLE, timer := None);
        SignalReady();
        SignalTxReady();
      } else if m.radio == M.RXRU {
        m := m.(radio := M.RXIDLE, reg := M.RXIDLE, timer := None);
        SignalReady();
        SignalRxReady();
      } else if m.radio == M.TXSTARTING {
        m := m.(timer := None);
        StartTx();
      } else if m.radio == M.TX {
        TxTimerTriggered();
      } else if m.radio == M.RX {
        RxTimerTriggered();
      } else if m.radio == M.CCA_ED {
        CcaEdTimerTriggered();
      } else if m.radio == M.TXDISABLE || m.radio == M.RXDISABLE {
        m := m.(radio := M.DISABLED, reg := M.DISABLED, timer := None);
        SignalDisabled();
      } else if m.radio == M.DISABLED && m.tifs == M.TIFS_TRIGGERING_TRX_EN {
        TurnaroundTriggered();
      } else {
        fault := M.StrayTimer;
      }
    }

    /** The abort timer: armed, it finds a decision pending, and passes it on. */
    method AbortReevalTriggered()
      modifies this
      ensures View() == M.AbortTimer(env, old(View()))
      ensures old(Valid() && m.abortTimer.Some?) ==> Valid()
      ensures M.Answered(old(View()), View())
    {
      m := m.(abortTimer := None);
      var pending := m.abort;
      if pending == M.NoPendingAbortReeval {
        fault := M.StrayAbortTimer;
        return;
      }
      m := m.(abort := M.NoPendingAbortReeval);
      UpdateAbort();
      match pending
      case TxAbortReeval => HandleTxResponse();
      case RxAbortReeval => HandleRxResponse();
      case CcaAbortReeval => HandleCcaResponse();
    }

    method WritePower(on: bool)
      modifies this
      ensures View() == if on then M.PowerOn(old(View())) else old(View()).(radioOn := false)
      ensures (old(Valid()) ==> Valid()) && M.Answered(old(View()), View())
    {
      if !on {
        radioOn := false;
      } else if !radioOn {
        radioOn := true;
        AbortIfNeeded();
        Reset();
      }
    }

    method Reset()
      modifies this
      ensures View() == old(View()).(cfg := M.RESET_CONFIG, rssiOn := false,
        m := old(View()).m.(reg := M.DISABLED, radio := M.DISABLED, sub := M.SUB_STATE_INVALID, timer := None,
                            tifs := M.TIFS_DISABLE),
        turn := old(View()).turn.(toTx := false, timer := None),
        air := old(View()).air.(crcStatus := false, pduStat := false))
    {
      cfg := M.RESET_CONFIG;
      air := air.(crcStatus := false, pduStat := false);
      m := m.(reg := M.DISABLED, radio := M.DISABLED, sub := M.SUB_STATE_INVALID, timer := None,
              tifs := M.TIFS_DISABLE);
      rssiOn := false;
      turn := turn.(toTx := false, timer := None);
    }

    // ---------- Runs ----------

    /** One step from outside; a timer that lies in the past is reached at once. */
    method Do(step: M.Step)
      requires Valid() && S.Possible(env, View(), step)
      modifies this
      ensures View() == M.Do(env, old(View()), step)
      ensures Valid() && M.Answered(old(View()), View())
    {
      hide M.Inv, M.MainTimer, M.AbortTimer, M.DoTask, M.Raise, M.PowerOn, S.AddressEndOutline;
      if fault != M.NoFault {
        return;
      }
      match step {
        case MainTimerReached =>
          now := Max(now, m.timer.value);
          TimerTriggered();
        case AbortTimerReached =>
          now := Max(now, m.abortTimer.value);
          AbortReevalTriggered();
        case TaskTriggered(at, t) =>
          now := Max(now, at);
          DoTask(t);
        case BitCounterMatch(at) =>
          now := Max(now, at);
          Raise(M.BCMATCH);
        case PowerWritten(on) => WritePower(on);
        case Configured(c) => cfg := c;
      }
    }

    /** A whole run: the peripheral is valid after every step, does what the machine does, and passes every decision to
        abort on to the Phy. */
    method RunSteps(steps: seq<M.Step>)
      requires Valid() && S.PossibleRun(env, View(), steps)
      modifies this
      ensures View() == M.Run(env, old(View()), steps)
      ensures Valid() && M.Answered(old(View()), View())
    {
      hide M.Do, M.Answered, S.Possible, Valid;
      ghost var s := View();
      S.DecisionsReachThePhy(env, s, steps);
      var i := 0;
      while i < |steps|
        invariant 0 <= i <= |steps| && Valid()
        invariant S.PossibleRun(env, View(), steps[i..]) && M.Run(env, View(), steps[i..]) == M.Run(env, s, steps)
      {
        assert steps[i..][1..] == steps[i + 1..];
        Do(steps[i]);
        i := i + 1;
      }
    }
  }
}
