/**
 What the RADIO promises, in numbers: whole packets with their turnaround, the end of a packet without one, and the
 reset. The numbers and conditions are those of the timing tables and of the registers, written out once more; no
 function that the machine computes with occurs in what is promised here.
 */
module RadioPromises {
  import opened Common
  import opened RadioTimings
  import opened RadioMachine
  import opened RadioTifs
  import opened RadioReception

  /** Of a modulation: how long a byte is on the air, and the preamble with the address; the bytes of header and CRC;
      the ramp-down of the transmitter, the ramp-ups of a turnaround, and the delay of the receive chain. */
  datatype Numbers = Numbers(byte: int, address: int, header: int, crc: int,
                             txRampDown: int, rxRampUp: int, txRampUp: int, rxChain: int)

  /** How long so many bytes are on the air. */
  function Time(n: Numbers, bytes: int): int {
    n.byte * bytes
  }

  function NumbersOf(mode: Mode): Numbers {
    if mode == Ieee154 then Numbers(32, 160, 1, 2, 21, 130, 130, 22)
    else if mode == Ble2M then Numbers(4, 24, 2, 3, 6, 140, 140, 5)
    else Numbers(8, 40, 2, 3, 6, 140, 141, 9)
  }

  /** A packet format that is supported: BLE with three bytes of CRC, or 802.15.4 with two, which its length counts. */
  predicate Supported(c: Config) {
    c.pcnfSupported
    && if c.mode == Ieee154 then c.crcInc && c.crcLen == 2
       else (c.mode == Ble1M || c.mode == Ble2M) && c.crcLen == 3
  }

  /** A length field for so many bytes of payload. */
  predicate Encodes(c: Config, field: nat, length: nat) {
    field == if c.crcInc then length + c.crcLen else length
  }

  /** After a packet the RADIO turns to the other direction by itself. */
  predicate TurnsByItself(c: Config) {
    c.shorts.endDisable && (c.shorts.disabledTxen || c.shorts.disabledRxen) && !c.fastRampUp
  }

  lemma ByteTimes(mode: Mode, bytes: nat)
    ensures AirTime(BitsPer4us(mode), bytes * 8) == Time(NumbersOf(mode), bytes)
    ensures AirTime(BitsPer4us(mode), (PreambleLen(mode) + AddressLen(mode)) * 8) == NumbersOf(mode).address
    ensures HeaderLen(mode) == NumbersOf(mode).header
    ensures TxRampDown(mode) == NumbersOf(mode).txRampDown && RxChainDelay(mode) == NumbersOf(mode).rxChain
    ensures RampUp(false, mode, false, true) == NumbersOf(mode).rxRampUp
    ensures RampUp(true, mode, false, true) == NumbersOf(mode).txRampUp
  {
    WholeBytes(mode, bytes);
  }

  lemma SupportedIs(c: Config)
    ensures Supported(c) == FormatSupported(c)
    ensures forall n: nat, l: nat :: Encodes(c, n, l) <==> PayloadLength(c, n) == Some(l)
    ensures Supported(c) ==> c.crcLen == NumbersOf(c.mode).crc
    ensures TurnsByItself(c) == HwTifsEnabled(c)
  {
  }

  lemma LaterOne(a: int, b: int)
    ensures Max(a, b) == b <==> a <= b
  {
  }

  // ---------- A packet sent, and the receiver open ----------

  lemma SentInNumbers(c: Config, length: nat, t0: int)
    requires Supported(c) && Encodes(c, c.lengthField, length) && length <= c.maxLen
    ensures CanTransmit(c)
    ensures var n := NumbersOf(c.mode);
      var address, payload := t0 + n.address - 1, t0 + n.address - 1 + Time(n, n.header + length);
      var end := payload + Time(n, n.crc);
      var opens := Max(end + n.txRampDown, end + 1 + c.tifs - 3 - n.rxRampUp) + n.rxRampUp;
      && RxOpens(c, t0) == opens
      && TxToRxEvents(c, t0)
         == [(address, ADDRESS), (address, FRAMESTART), (payload, PAYLOAD), (end, END), (end, PHYEND),
             (end + n.txRampDown, DISABLED_EVENT), (opens, READY), (opens, RXREADY)]
  {
    SupportedIs(c);
    IntervalsAddUp(c.mode, length, c.crcLen);
    ByteTimes(c.mode, HeaderLen(c.mode) + length);
    ByteTimes(c.mode, c.crcLen);
    hide AirTime, PreambleLen, AddressLen, HeaderLen, BitsPer4us, RampUp, TxRampDown, RxChainDelay, NumbersOf,
      Supported, FormatSupported, Encodes, PacketDuration;
    assert TX_CHAIN_DELAY == 1;
  }

  /** From START over the packet to the open receiver, in every run of the two timers: every event is raised once, in
      order and on time, and the receiver opens 3 us before the inter frame space is over if and only if TIFS leaves
      the time to ramp down and up. */
  lemma SentAndListening(env: Env, s: State, length: nat, steps: seq<Step>)
    requires Undisturbed(env, s) && s.m.radio == TXIDLE
    requires Supported(s.cfg) && Encodes(s.cfg, s.cfg.lengthField, length) && length <= s.cfg.maxLen
    requires s.cfg.shorts.endDisable && s.cfg.shorts.disabledRxen && !s.cfg.shorts.disabledTxen && !s.cfg.fastRampUp
    requires s.cfg.shorts.readyStart || (s.cfg.shorts.rxreadyStart && !s.cfg.shorts.readyEdstart)
    requires DueRun(env, Start(env, s), steps) && Mains(steps) == 7 && steps[|steps| - 1] == MainTimerReached
    ensures var c, n, r := s.cfg, NumbersOf(s.cfg.mode), Run(env, Start(env, s), steps);
      var address, payload := s.now + n.address, s.now + n.address + Time(n, n.header + length);
      var end := payload + Time(n, n.crc);
      var opens := Max(end + n.txRampDown, end + 1 + c.tifs - 3 - n.rxRampUp) + n.rxRampUp;
      && r.m.radio == RX && r.now == opens
      && (opens == end + 1 + c.tifs - 3 <==> n.txRampDown + n.rxRampUp + 2 <= c.tifs)
      && r.hist.log == s.hist.log
           + [(address, ADDRESS), (address, FRAMESTART), (payload, PAYLOAD), (end, END), (end, PHYEND),
              (end + n.txRampDown, DISABLED_EVENT), (opens, READY), (opens, RXREADY)]
  {
    hide *;
    SentInNumbers(s.cfg, length, s.now + 1);
    TurnsToRxIs(s.cfg);
    SentOnTrack(env, s, steps);
    var n := NumbersOf(s.cfg.mode);
    LaterOne(s.now + n.address + Time(n, n.header + length) + Time(n, n.crc) + n.txRampDown,
             s.now + n.address + Time(n, n.header + length) + Time(n, n.crc) + s.cfg.tifs - 2 - n.rxRampUp);
  }

  lemma TurnsToRxIs(c: Config)
    requires CanTransmit(c)
    ensures TurnsToRx(c) == (c.shorts.endDisable && c.shorts.disabledRxen && !c.shorts.disabledTxen && !c.fastRampUp
                             && (c.shorts.readyStart || (c.shorts.rxreadyStart && !c.shorts.readyEdstart)))
  {
  }

  lemma SentOnTrack(env: Env, s: State, steps: seq<Step>)
    requires Undisturbed(env, s) && s.m.radio == TXIDLE && TurnsToRx(s.cfg)
    requires DueRun(env, Start(env, s), steps) && Mains(steps) == 7 && steps[|steps| - 1] == MainTimerReached
    ensures var r := Run(env, Start(env, s), steps);
      && r.m.radio == RX && r.now == RxOpens(s.cfg, s.now + 1)
      && r.hist.log == s.hist.log + TxToRxEvents(s.cfg, s.now + 1)
  {
    var t0 := s.now + TX_CHAIN_DELAY;
    StartIsTracked(env, s);
    hide Do, RxOpens, TxToRxEvents, Keeps, Start, DueRun, CanTransmit, Mains;
    TxTurnsToRx(env, s.cfg, t0, s.hist.log, Start(env, s), 7, 7, steps);
  }

  // ---------- A packet received, and the answer on the air ----------

  lemma ReceivedInNumbers(c: Config, p: Packet, heard: nat)
    requires HasLength(c, p) && Supported(c) && Encodes(c, p.lengthField, heard)
    ensures var n, cut := NumbersOf(c.mode), heard > c.maxLen;
      var address := p.found + n.rxChain;
      var payload := address + Time(n, n.header + if cut then c.maxLen else heard);
      var crc := if cut || p.status == HeaderError then payload + Time(n, n.crc) else p.endTime + n.rxChain;
      var ready := Max(crc, crc - n.rxChain + c.tifs - n.txRampUp) + n.txRampUp;
      && TooLong(c, p) == cut && AddressAt(c, p) == address && PayloadAt(c, p) == payload && CrcAt(c, p) == crc
      && TxReady(c, EndOnAir(c, p)) == ready
  {
    SupportedIs(c);
    ByteTimes(c.mode, HeaderLen(c.mode) + if heard > c.maxLen then c.maxLen else heard);
    ByteTimes(c.mode, c.crcLen);
    hide AirTime, HeaderLen, BitsPer4us, RampUp, RxChainDelay, NumbersOf, Supported, FormatSupported, Encodes,
      CanTransmit;
  }

  /** From START of an idle receiver, over the packet that the Phy hears, to the answer on the air, in every run of the
      two timers and whatever the Phy asks on the way: every event is raised once, in order and on time, CRCSTATUS says
      how the CRC was, and the answer starts one microsecond after the inter frame space if and only if TIFS leaves the
      time for the receive chain and the ramp-up. A packet that is longer than MAXLEN goes on as if it were as long as
      that, and its CRC counts as wrong. */
  lemma ReceivedAndAnswered(env: Env, s: State, p: Packet, heard: nat, answer: nat, steps: seq<Step>)
    requires Undisturbed(env, s) && s.m.abort == NoPendingAbortReeval && s.m.radio == RXIDLE
    requires Supported(s.cfg) && Encodes(s.cfg, s.cfg.lengthField, answer) && answer <= s.cfg.maxLen
    requires s.cfg.shorts.endDisable && s.cfg.shorts.disabledTxen && !s.cfg.fastRampUp
    requires s.cfg.shorts.phyendDisable || !s.cfg.shorts.phyendStart
    requires s.cfg.shorts.readyStart || s.cfg.shorts.txreadyStart
    requires Encodes(s.cfg, p.lengthField, heard)
    requires HasLength(s.cfg, p) && PayloadAt(s.cfg, p) <= CrcAt(s.cfg, p) && s.now <= AddressAt(s.cfg, p)
    requires Hears(env, s.cfg, p, s.hist.phyCalls, p.asksBefore)
    requires DueRun(env, Start(env, s), steps) && Mains(steps) == 7 && steps[|steps| - 1] == MainTimerReached
    ensures var c, n, r := s.cfg, NumbersOf(s.cfg.mode), Run(env, Start(env, s), steps);
      var rssi, cut := s.rssiOn || c.shorts.addressRssistart, heard > c.maxLen;
      var address := p.found + n.rxChain;
      var payload := address + Time(n, n.header + if cut then c.maxLen else heard);
      var crc := if cut || p.status == HeaderError then payload + Time(n, n.crc) else p.endTime + n.rxChain;
      var ready := Max(crc, crc - n.rxChain + c.tifs - n.txRampUp) + n.txRampUp;
      && r.m.radio == TX && r.now == ready + 1
      && (r.now == crc - n.rxChain + c.tifs + 1 <==> n.rxChain + n.txRampUp <= c.tifs)
      && r.air.crcStatus == (!cut && p.status == CrcIsOk)
      && r.hist.log == s.hist.log
           + ([(address, SYNC), (address, ADDRESS), (address, FRAMESTART)]
              + (if rssi then [(address, RSSIEND)] else [])
              + if c.matchAddresses then [(address, if p.matched then DEVMATCH else DEVMISS)] else [])
           + [(payload, PAYLOAD), (crc, if !cut && p.status == CrcIsOk then CRCOK else CRCERROR), (crc, PHYEND),
              (crc, END), (crc, DISABLED_EVENT), (ready, READY), (ready, TXREADY)]
  {
    hide *;
    var c, n := s.cfg, NumbersOf(s.cfg.mode);
    SentInNumbers(c, answer, 0);
    ReceivedInNumbers(c, p, heard);
    TurnsToTxIs(c);
    ReceptionPossible(c, p);
    AnsweredOnTrack(env, s, p, steps);
    ReceivedEventsAre(c, p, s.rssiOn || c.shorts.addressRssistart);
    LaterOne(CrcAt(c, p), CrcAt(c, p) - n.rxChain + c.tifs - n.txRampUp);
  }

  lemma ReceptionPossible(c: Config, p: Packet)
    requires HasLength(c, p)
    ensures CanReceive(c, p) == (PayloadAt(c, p) <= CrcAt(c, p))
  {
  }

  lemma TurnsToTxIs(c: Config)
    requires CanTransmit(c)
    ensures TurnsToTx(c) == (c.shorts.endDisable && c.shorts.disabledTxen && !c.fastRampUp
                             && (c.shorts.phyendDisable || !c.shorts.phyendStart)
                             && (c.shorts.readyStart || c.shorts.txreadyStart))
  {
  }

  lemma ReceivedEventsAre(c: Config, p: Packet, rssi: bool)
    requires HasLength(c, p)
    ensures AddressEvents(AddressAt(c, p), rssi, c.matchAddresses, p.matched)
         == [(AddressAt(c, p), SYNC), (AddressAt(c, p), ADDRESS), (AddressAt(c, p), FRAMESTART)]
            + (if rssi then [(AddressAt(c, p), RSSIEND)] else [])
            + if c.matchAddresses then [(AddressAt(c, p), if p.matched then DEVMATCH else DEVMISS)] else []
    ensures var crc, ready := CrcAt(c, p), TxReady(c, EndOnAir(c, p));
      RxToTxEvents(c, PayloadAt(c, p), EndOnAir(c, p), IsOk(c, p))
      == [(PayloadAt(c, p), PAYLOAD), (crc, if IsOk(c, p) then CRCOK else CRCERROR), (crc, PHYEND), (crc, END),
          (crc, DISABLED_EVENT), (ready, READY), (ready, TXREADY)]
    ensures IsOk(c, p) == (!TooLong(c, p) && p.status == CrcIsOk)
  {
    hide AddressAt, PayloadAt, TxReady, RxChainDelay, HasLength;
  }

  lemma AnsweredOnTrack(env: Env, s: State, p: Packet, steps: seq<Step>)
    requires Undisturbed(env, s) && s.m.abort == NoPendingAbortReeval && s.m.radio == RXIDLE
    requires TurnsToTx(s.cfg) && CanReceive(s.cfg, p) && Hears(env, s.cfg, p, s.hist.phyCalls, p.asksBefore)
    requires s.now <= AddressAt(s.cfg, p)
    requires DueRun(env, Start(env, s), steps) && Mains(steps) == 7 && steps[|steps| - 1] == MainTimerReached
    ensures var c, r := s.cfg, Run(env, Start(env, s), steps);
      && r.m.radio == TX && r.now == TxReady(c, EndOnAir(c, p)) + 1 && r.air.crcStatus == IsOk(c, p)
      && r.hist.log == s.hist.log
           + AddressEvents(AddressAt(c, p), s.rssiOn || c.shorts.addressRssistart, c.matchAddresses, p.matched)
           + RxToTxEvents(c, PayloadAt(c, p), EndOnAir(c, p), IsOk(c, p))
  {
    var c, rssi := s.cfg, s.rssiOn || s.cfg.shorts.addressRssistart;
    assert HasLength(c, p) && Start(env, s) == StartRx(env, s);
    ReceiverStarts(env, s, p);
    hide Do, Start, StartRx, TurnsToTx, ListeningOrFound, Hears, CanReceive, HasLength, PayloadAt, EndOnAir, AddressAt,
      TxReady, AddressEvents, RxToTxEvents, IsOk, Mains, DueRun;
    ReceptionTurnsToTx(env, c, p, s.hist.log, rssi, StartRx(env, s), 7, steps);
  }

  // ---------- What is refused ----------

  /** A packet goes on air if and only if its format is supported and its length, less the CRC that it counts, fits into
      MAXLEN; the receiver starts if and only if the format is supported, and an assessment only in 802.15.4 and in a
      CCAMODE that exists. Otherwise the simulation ends. */
  lemma OnlySupported(env: Env, s: State)
    requires s.fault == NoFault
    ensures s.m.radio == TXSTARTING && s.m.timer.Some? ==>
      var r := Do(env, s, MainTimerReached);
      var fits := exists length: nat :: Encodes(s.cfg, s.cfg.lengthField, length) && length <= s.cfg.maxLen;
      if Supported(s.cfg) && fits then r.fault == NoFault && r.m.sub == TX_WAIT_FOR_ADDRESS_END
      else r.fault == NotSupported
    ensures s.m.radio == RXIDLE ==>
      && (Start(env, s).m.radio == RX <==> Supported(s.cfg))
      && (!Supported(s.cfg) ==> Start(env, s).fault == NotSupported)
      && (s.cfg.mode != Ieee154 ==> CcaStart(env, s).fault == EdStart(env, s).fault == NotSupported)
      && (s.cfg.ccaMode == UnknownCcaMode ==> CcaStart(env, s).fault == NotSupported)
  {
    SupportedIs(s.cfg);
    hide Keeps, Inv, Answered, Supported, FormatSupported, RxChainDelay;
    if s.m.radio == TXSTARTING && s.m.timer.Some? {
      var t := At(s, s.m.timer);
      assert Do(env, s, MainTimerReached) == StartTx(env, t.(m := t.m.(timer := None)));
    }
  }

  // ---------- The end of a packet without a turnaround ----------

  /** A shortcut to DISABLE, and then one to START. */
  function WithShortcuts(env: Env, s: State, disable: bool, start: bool): State {
    var s := if disable then Disable(env, s) else s;
    if start then Start(env, s) else s
  }

  lemma EndsWithShortcuts(env: Env, s: State)
    requires Quiet(env, s)
    ensures SignalEnd(env, s) == WithShortcuts(env, Logged(s, END), s.cfg.shorts.endDisable, s.cfg.shorts.endStart)
    ensures SignalPhyEnd(env, s)
         == WithShortcuts(env, Logged(s, PHYEND), s.cfg.shorts.phyendDisable, s.cfg.shorts.phyendStart)
  {
    hide Disable, Start;
    QuietEvent(env, s, END);
    QuietEvent(env, s, PHYEND);
  }

  /** The state, with its timer, after a sent packet, when a shortcut has been set to DISABLE, or to START. */
  predicate SentAndLeft(s: State, t: int, disabled: bool, started: bool) {
    && s.now == t && s.m.tifs == TIFS_DISABLE
    && if disabled then s.m.radio == TXDISABLE && s.m.timer == Some(t + NumbersOf(s.cfg.mode).txRampDown)
       else if started then s.m.radio == TXSTARTING && s.m.timer == Some(t + 1)
       else s.m.radio == TXIDLE && s.m.timer == None
  }

  lemma LeavesSent(env: Env, s: State, t: int, disabled: bool, started: bool, disable: bool, start: bool)
    requires SentAndLeft(s, t, disabled, started)
    ensures var r := WithShortcuts(env, s, disable, start);
      SentAndLeft(r, t, disabled || disable, started || start) && r.hist == s.hist && r.cfg == s.cfg
  {
    hide Keeps, Inv, Sound, Answered, StartRx;
  }

  /** The packet is over, nothing has been signalled yet. */
  function Ended(s: State, idle: RadioState): State
    requires s.m.timer.Some?
  {
    s.(now := Max(s.now, s.m.timer.value), m := Halted(s.m, idle).(sub := SUB_STATE_INVALID))
  }

  lemma PacketEndIs(env: Env, s: State)
    requires s.fault == NoFault && s.m.timer.Some?
    ensures s.m.radio == TX && s.m.sub == TX_WAIT_FOR_CRC_END ==>
      Do(env, s, MainTimerReached) == MaybePrepareTifs(SignalPhyEnd(env, SignalEnd(env, Ended(s, TXIDLE))), true)
    ensures s.m.radio == RX && s.m.sub == RX_WAIT_FOR_CRC_END ==>
      var v := Raise(env, Ended(s, RXIDLE), if s.air.rx.crcOk then CRCOK else CRCERROR);
      Do(env, s, MainTimerReached) == MaybePrepareTifs(SignalEnd(env, SignalPhyEnd(env, v)), false)
  {
    hide Keeps, Inv, Answered, Raise, SignalEnd, SignalPhyEnd, MaybePrepareTifs;
  }

  lemma SentSignals(env: Env, s: State, t: int, disabled: bool, started: bool)
    requires Quiet(env, s) && SentAndLeft(s, t, disabled, started)
    ensures var r, sh := SignalEnd(env, s), s.cfg.shorts;
      && SentAndLeft(r, t, disabled || sh.endDisable, started || sh.endStart) && Quiet(env, r)
      && r.hist.log == s.hist.log + [(t, END)] && r.cfg == s.cfg
    ensures var r, sh := SignalPhyEnd(env, s), s.cfg.shorts;
      && SentAndLeft(r, t, disabled || sh.phyendDisable, started || sh.phyendStart) && Quiet(env, r)
      && r.hist.log == s.hist.log + [(t, PHYEND)] && r.cfg == s.cfg
  {
    var sh := s.cfg.shorts;
    EndsWithShortcuts(env, s);
    LeavesSent(env, Logged(s, END), t, disabled, started, sh.endDisable, sh.endStart);
    LeavesSent(env, Logged(s, PHYEND), t, disabled, started, sh.phyendDisable, sh.phyendStart);
    hide Keeps, Inv, NumbersOf, SignalEnd, SignalPhyEnd, WithShortcuts;
  }

  lemma NothingPlanned(s: State, endOfTx: bool)
    requires !TurnsByItself(s.cfg) && s.m.tifs == TIFS_DISABLE
    ensures MaybePrepareTifs(s, endOfTx) == s
  {
    SupportedIs(s.cfg);
    hide Keeps, TurnsByItself, HwTifsEnabled;
  }

  /** A sent packet ends with END and PHYEND. One of their shortcuts to DISABLE ramps the transmitter down, whatever the
      other ones start; otherwise one to START sends the next packet; otherwise the transmitter is idle, and nothing
      more is due. */
  lemma SentPacketEnds(env: Env, s: State)
    requires Quiet(env, s) && s.fault == NoFault && !TurnsByItself(s.cfg)
    requires s.m.radio == TX && s.m.sub == TX_WAIT_FOR_CRC_END && s.m.timer.Some?
    requires s.m.tifs == TIFS_DISABLE
    ensures var r, sh := Do(env, s, MainTimerReached), s.cfg.shorts;
      var t := Max(s.now, s.m.timer.value);
      && r.now == t && r.hist.log == s.hist.log + [(t, END), (t, PHYEND)] && r.m.tifs == TIFS_DISABLE
      && if sh.endDisable || sh.phyendDisable
         then r.m.radio == TXDISABLE && r.m.timer == Some(t + NumbersOf(s.cfg.mode).txRampDown)
         else if sh.endStart || sh.phyendStart then r.m.radio == TXSTARTING && r.m.timer == Some(t + 1)
         else r.m.radio == TXIDLE && r.m.timer == None
  {
    hide Keeps, Inv, Answered, TurnsByItself, NumbersOf, Do, SignalEnd, SignalPhyEnd, MaybePrepareTifs;
    PacketEndIs(env, s);
    var sh, u := s.cfg.shorts, Ended(s, TXIDLE);
    SentSignals(env, u, u.now, false, false);
    var v := SignalEnd(env, u);
    SentSignals(env, v, u.now, sh.endDisable, sh.endStart);
    NothingPlanned(SignalPhyEnd(env, v), true);
  }

  /** The same after a received packet. */
  predicate ReceivedAndLeft(s: State, t: int, disabled: bool, started: bool) {
    && s.now == t && s.m.tifs == TIFS_DISABLE
    && if disabled then s.m.radio == RXDISABLE && s.m.timer == Some(t)
       else if started then s.m.radio == RX
       else s.m.radio == RXIDLE && s.m.timer == None
  }

  lemma LeavesReceived(env: Env, s: State, t: int, disabled: bool, started: bool, disable: bool, start: bool)
    requires ReceivedAndLeft(s, t, disabled, started) && FormatSupported(s.cfg)
    ensures var r := WithShortcuts(env, s, disable, start);
      && ReceivedAndLeft(r, t, disabled || disable, started || start)
      && r.hist.log == s.hist.log && r.hist.ppiCalls == s.hist.ppiCalls && r.cfg == s.cfg
  {
    hide Keeps, Inv, Sound, Answered, StartRx, FormatSupported;
    if s.m.radio == RXIDLE {
      ReceptionStarts(env, s);
      StartsUnplanned(env, s);
    }
  }

  lemma StartsUnplanned(env: Env, s: State)
    requires s.m.radio == RXIDLE
    ensures StartRx(env, s).m.tifs == s.m.tifs && StartRx(env, s).now == s.now && StartRx(env, s).cfg == s.cfg
  {
    hide Inv, Answered;
  }

  lemma ReceivedSignals(env: Env, s: State, t: int, disabled: bool, started: bool)
    requires Quiet(env, s) && ReceivedAndLeft(s, t, disabled, started) && FormatSupported(s.cfg)
    ensures var r, sh := SignalEnd(env, s), s.cfg.shorts;
      && ReceivedAndLeft(r, t, disabled || sh.endDisable, started || sh.endStart) && Quiet(env, r)
      && r.hist.log == s.hist.log + [(t, END)] && r.cfg == s.cfg
    ensures var r, sh := SignalPhyEnd(env, s), s.cfg.shorts;
      && ReceivedAndLeft(r, t, disabled || sh.phyendDisable, started || sh.phyendStart) && Quiet(env, r)
      && r.hist.log == s.hist.log + [(t, PHYEND)] && r.cfg == s.cfg
  {
    var sh := s.cfg.shorts;
    EndsWithShortcuts(env, s);
    LeavesReceived(env, Logged(s, END), t, disabled, started, sh.endDisable, sh.endStart);
    LeavesReceived(env, Logged(s, PHYEND), t, disabled, started, sh.phyendDisable, sh.phyendStart);
    hide Keeps, Inv, SignalEnd, SignalPhyEnd, WithShortcuts, FormatSupported;
  }

  /** A received packet ends with the verdict on its CRC, then PHYEND, and then END, with the same shortcuts. */
  lemma ReceivedPacketEnds(env: Env, s: State)
    requires Quiet(env, s) && s.fault == NoFault && !TurnsByItself(s.cfg) && Supported(s.cfg)
    requires s.m.radio == RX && s.m.sub == RX_WAIT_FOR_CRC_END && s.m.timer.Some?
    requires s.m.tifs == TIFS_DISABLE
    ensures var r, sh := Do(env, s, MainTimerReached), s.cfg.shorts;
      var t := Max(s.now, s.m.timer.value);
      && r.now == t && r.m.tifs == TIFS_DISABLE
      && r.hist.log == s.hist.log + [(t, if s.air.rx.crcOk then CRCOK else CRCERROR), (t, PHYEND), (t, END)]
      && if sh.endDisable || sh.phyendDisable then r.m.radio == RXDISABLE && r.m.timer == Some(t)
         else if sh.endStart || sh.phyendStart then r.m.radio == RX
         else r.m.radio == RXIDLE && r.m.timer == None
  {
    SupportedIs(s.cfg);
    hide Keeps, Inv, Answered, TurnsByItself, Do, SignalEnd, SignalPhyEnd, MaybePrepareTifs, Supported, FormatSupported;
    PacketEndIs(env, s);
    var sh, crc := s.cfg.shorts, if s.air.rx.crcOk then CRCOK else CRCERROR;
    QuietEvent(env, Ended(s, RXIDLE), crc);
    var v := Logged(Ended(s, RXIDLE), crc);
    ReceivedSignals(env, v, v.now, false, false);
    var w := SignalPhyEnd(env, v);
    ReceivedSignals(env, w, v.now, sh.phyendDisable, sh.phyendStart);
    NothingPlanned(SignalEnd(env, w), false);
  }

  // ---------- The start of a turnaround ----------

  /** The ramp-up of a turnaround keeps its own time and direction, even when software has cleared the shortcuts. */
  lemma TurnaroundRampsUp(env: Env, s: State)
    requires s.fault == NoFault && s.m.radio == DISABLED && s.m.tifs == TIFS_TRIGGERING_TRX_EN && s.m.timer.Some?
    requires !s.cfg.fastRampUp
    ensures var r, n := Do(env, s, MainTimerReached), NumbersOf(s.cfg.mode);
      var t := Max(s.now, s.m.timer.value);
      && r.m.radio == (if s.turn.toTx then TXRU else RXRU) && r.m.tifs == TIFS_DISABLE && !r.turn.fromHw
      && r.m.timer == Some(t + if s.turn.toTx then n.txRampUp else n.rxRampUp)
      && r.now == t && r.hist == s.hist && r.cfg == s.cfg
  {
  }

  // ---------- Stopping an assessment ----------

  /** CCASTOP stops a clear channel assessment and EDSTOP an energy detection, each with its own event, and a Phy that
      waits is told to abort; neither task stops the other, or anything else. */
  lemma AssessmentStops(env: Env, s: State)
    requires Quiet(env, s)
    ensures var (c, e) := (CcaStop(env, s), EdStop(env, s));
      if s.m.radio != CCA_ED then c == s && e == s
      else
        var (r, event, other) := if s.air.cca.ccaNotEd then (c, CCASTOPPED, e) else (e, EDSTOPPED, c);
        && other == s
        && r.m.radio == RXIDLE && r.m.timer == None && r.hist.log == s.hist.log + [(s.now, event)]
        && (s.m.abort != NoPendingAbortReeval ==> r.m.abortingSet)
  {
    hide Keeps, Inv, Answered;
    var u := s.(m := Stopped(s.m));
    QuietEvent(env, u, CCASTOPPED);
    QuietEvent(env, u, EDSTOPPED);
  }

  // ---------- Reset ----------

  /** Whatever the RADIO is doing, POWER written 0 and then 1 leaves it disabled, with no main timer and no turnaround,
      all registers at their reset values and nothing received; a Phy that waits will be told to abort. Time, what has
      happened, and what the Phy waits for are left alone. POWER written 1 while it is 1 changes nothing. */
  lemma PowerResets(env: Env, s: State)
    requires s.fault == NoFault
    ensures var r := Do(env, Do(env, s, PowerWritten(false)), PowerWritten(true));
      && r.m.radio == DISABLED && r.m.reg == DISABLED && r.m.timer == None && r.m.sub == SUB_STATE_INVALID
      && r.m.tifs == TIFS_DISABLE && r.turn.timer == None && !r.turn.toTx
      && r.cfg.mode == Unsupported && r.cfg.tifs == 0 && r.cfg.crcLen == 0 && r.cfg.maxLen == 0 && r.cfg.edcnt == 0
      && !r.cfg.fastRampUp && !r.cfg.crcInc && !r.cfg.pcnfSupported && !r.cfg.matchAddresses
      && r.cfg.shorts == Shorts(false, false, false, false, false, false, false, false, false,
                                false, false, false, false, false, false, false, false)
      && !r.rssiOn && !r.air.crcStatus && !r.air.pduStat
      && r.now == s.now && r.hist == s.hist && r.fault == NoFault
      && r.m.abort == s.m.abort && r.m.abortTimer == s.m.abortTimer
      && (r.m.abortingSet <==> s.m.abortingSet || s.m.abort != NoPendingAbortReeval)
      && r.radioOn && Do(env, r, PowerWritten(true)) == r
      && forall step :: Due(r, step) ==> step == AbortTimerReached
    ensures s.radioOn ==> Do(env, s, PowerWritten(true)) == s
  {
  }
}
