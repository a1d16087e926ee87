/**
 The RADIO as a state machine: what every task, timer and Phy response does to the state.

 Tasks reach the RADIO from software, from its own shortcuts, and from the PPI in the middle of a signal. The
 Phy and the PPI are not modelled here but quantified over: an `Env` says what the n-th request to the Phy is
 answered, and which RADIO tasks the n-th event raised towards the PPI runs before it returns. Everything
 proved below holds for every `Env`.
 */
module RadioMachine {
  import opened Common
  import opened RadioTimings

  // ---------- Configuration registers ----------

  datatype CcaMode = EdMode | CarrierMode | CarrierAndEdMode | CarrierOrEdMode | EdModeTest1 | UnknownCcaMode

  /** SHORTS, one flag per shortcut that can move the state machine. */
  datatype Shorts = Shorts(
    readyStart: bool, readyEdstart: bool, txreadyStart: bool, rxreadyStart: bool, rxreadyCcastart: bool,
    endDisable: bool, endStart: bool, phyendDisable: bool, phyendStart: bool,
    disabledTxen: bool, disabledRxen: bool, disabledRssistop: bool, addressRssistart: bool,
    ccaidleStop: bool, ccaidleTxen: bool, ccabusyDisable: bool, edendDisable: bool)

  const NO_SHORTS := Shorts(false, false, false, false, false, false, false, false, false,
                            false, false, false, false, false, false, false, false)

  /**
   What software writes before it uses the RADIO. `fastRampUp` is MODECNF0.RU, `tifs` is TIFS, `crcLen`, `maxLen`
   and `crcInc` are the fields of CRCCNF and PCNF0/1, `pcnfSupported` says that the remaining PCNF0/1 fields are
   the ones of the one packet format supported for this MODE, `lengthField` is the length field of the packet
   at PACKETPTR, and `matchAddresses` says that DACNF enables some device address.
   */
  datatype Config = Config(mode: Mode, fastRampUp: bool, tifs: nat, shorts: Shorts,
                           pcnfSupported: bool, crcLen: nat, crcInc: bool, maxLen: nat, lengthField: nat,
                           matchAddresses: bool, ccaMode: CcaMode, edcnt: nat)

  /** After a reset MODE selects a modulation that is not supported. */
  const RESET_CONFIG := Config(Unsupported, false, 0, NO_SHORTS, false, 0, false, 0, 0, false, EdMode, 0)

  predicate HwTifsEnabled(c: Config) {
    c.shorts.endDisable && (c.shorts.disabledRxen || c.shorts.disabledTxen) && !c.fastRampUp
  }

  /** The packet configuration checks of each modulation. */
  predicate FormatSupported(c: Config) {
    match c.mode
    case Ble1M => c.pcnfSupported && c.crcLen == 3
    case Ble2M => c.pcnfSupported && c.crcLen == 3
    case Ieee154 => c.pcnfSupported && c.crcInc && c.crcLen == 2
    case Unsupported => false
  }

  /** Payload length encoded by a length field, or `None` when the field counts a CRC that does not fit in it. */
  function PayloadLength(c: Config, lengthField: nat): Option<nat> {
    if !c.crcInc then Some(lengthField)
    else if lengthField >= c.crcLen then Some(lengthField - c.crcLen)
    else None
  }

  // ---------- State ----------

  datatype RadioState = DISABLED | RXRU | RXIDLE | RX | RXDISABLE | TXRU | TXIDLE | TXSTARTING | TX | TXDISABLE | CCA_ED

  datatype SubState = SUB_STATE_INVALID
    | TX_WAIT_FOR_ADDRESS_END | TX_WAIT_FOR_PAYLOAD_END | TX_WAIT_FOR_CRC_END
    | RX_WAIT_FOR_ADDRESS_END | RX_WAIT_FOR_PAYLOAD_END | RX_WAIT_FOR_CRC_END

  datatype TifsState = TIFS_DISABLE | TIFS_WAITING_FOR_DISABLE | TIFS_TRIGGERING_TRX_EN

  datatype AbortState = NoPendingAbortReeval | TxAbortReeval | RxAbortReeval | CcaAbortReeval

  datatype TxStatus = TxStatus(addressEnd: int, payloadEnd: int, crcEnd: int)

  datatype RxStatus = RxStatus(addressEnd: int, payloadEnd: int, crcEnd: int, crcDuration: int,
                               crcOk: bool, rejected: bool, matched: bool)

  datatype CcaStatus = CcaStatus(ccaNotEd: bool, isBusy: bool)

  datatype Event = READY | ADDRESS | PAYLOAD | END | DISABLED_EVENT | DEVMATCH | DEVMISS | RSSIEND | BCMATCH
    | CRCOK | CRCERROR | FRAMESTART | EDEND | EDSTOPPED | CCAIDLE | CCABUSY | CCASTOPPED
    | TXREADY | RXREADY | SYNC | PHYEND

  datatype Task = TXEN | RXEN | START | STOP | DISABLE | CCASTART | CCASTOP | EDSTART | EDSTOP | RSSISTART | RSSISTOP

  /** The error traces, which end the simulation: the two that must never happen, and the unsupported set-ups. */
  datatype Fault = NoFault | StrayTimer | StrayAbortTimer | NotSupported

  /** The main machine with its timer, the turnaround machine, and the abort machine with its timer. */
  datatype Machine = Machine(reg: RadioState, radio: RadioState, sub: SubState, timer: Option<int>,
                             tifs: TifsState,
                             abort: AbortState, abortingSet: bool, abortTimer: Option<int>)

  datatype Turnaround = Turnaround(toTx: bool, timer: Option<int>, fromHw: bool)

  /** The ongoing transactions with the Phy. */
  datatype Air = Air(tx: TxStatus, rx: RxStatus, cca: CcaStatus, rate: Rate, nextRecheck: Option<int>,
                     crcStatus: bool, pduStat: bool)

  /** `phyCalls` requests were sent to the Phy, which was given the abort times `aborts`; `ppiCalls` events were
      raised, with their times, the ones in `log`. */
  datatype History = History(phyCalls: nat, aborts: seq<Option<int>>, ppiCalls: nat, log: seq<(int, Event)>)

  /** The static variables and registers of the model. */
  datatype State = State(now: int, cfg: Config, m: Machine, turn: Turnaround, air: Air, rssiOn: bool, radioOn: bool,
                         hist: History, fault: Fault)

  // ---------- Environment ----------

  datatype RxEndStatus = CrcIsOk | CrcIsWrong | HeaderError | NoSync

  /** What the Phy can answer. `stray` is whatever an uninitialised local holds (see `AddressEndResponse`). */
  datatype Reply =
    | TxEnd
    | AddressFound(timeStamp: int, lengthField: nat, matched: bool, stray: int)
    | RxEnd(endTime: int, status: RxEndStatus)
    | CcaEnd(ccaEndTime: int, overThreshold: bool, modFound: bool)
    | AbortReeval
    | Silence

  datatype Env = Env(phy: nat -> Reply, recheck: nat -> Option<int>, ppi: seq<seq<Task>>)

  /** How many events can still run tasks through the PPI. */
  function Pending(env: Env, s: State): nat {
    if s.hist.ppiCalls < |env.ppi| then |env.ppi| - s.hist.ppiCalls else 0
  }

  // ---------- The machine alone ----------

  /** What the STATE register shows. */
  function Shown(r: RadioState): RadioState {
    match r
    case TXSTARTING => TX
    case CCA_ED => RXIDLE
    case _ => r
  }

  /** The timer handler knows what to do in this state. */
  predicate HasTransition(m: Machine) {
    match m.radio
    case DISABLED => m.tifs == TIFS_TRIGGERING_TRX_EN
    case TXIDLE => false
    case RXIDLE => false
    case TX => m.sub.TX_WAIT_FOR_ADDRESS_END? || m.sub.TX_WAIT_FOR_PAYLOAD_END? || m.sub.TX_WAIT_FOR_CRC_END?
    case RX => m.sub.RX_WAIT_FOR_ADDRESS_END? || m.sub.RX_WAIT_FOR_PAYLOAD_END? || m.sub.RX_WAIT_FOR_CRC_END?
    case _ => true
  }

  /** STATE mirrors the machine, an armed timer has a transition, and an armed abort timer has a pending abort. */
  predicate Inv(m: Machine) {
    && m.reg == Shown(m.radio)
    && (m.timer.Some? ==> HasTransition(m))
    && (m.abortTimer.Some? ==> m.abort != NoPendingAbortReeval)
    && (m.abortingSet ==> m.abort != NoPendingAbortReeval)
    && (m.sub == RX_WAIT_FOR_ADDRESS_END ==> m.radio == RX)
  }

  // Sets of states that tasks, without the passing of time, cannot leave.
  predicate IsOff(r: RadioState) {
    r.DISABLED? || r.TXRU? || r.RXRU? || r.TXDISABLE? || r.RXDISABLE?
  }

  predicate IsReceiving(r: RadioState) {
    !r.DISABLED? && !r.TXIDLE? && !r.TXSTARTING? && !r.TX?
  }

  predicate Stays(a: Machine, b: Machine) {
    && (IsOff(a.radio) ==> IsOff(b.radio))
    && (IsReceiving(a.radio) ==> IsReceiving(b.radio))
    && (!a.radio.DISABLED? ==> !b.radio.DISABLED?)
  }

  /** The error branches of the two timers were not reached. */
  predicate Fine(f: Fault) {
    f.NoFault? || f.NotSupported?
  }

  /** What every task and every signal keeps. */
  predicate Sound(a: Machine, b: Machine) {
    (Inv(a) ==> Inv(b)) && Stays(a, b)
  }

  function Halted(m: Machine, radio: RadioState): Machine {
    m.(radio := radio, reg := radio, timer := None)
  }

  /** A Phy that waits for an abort decision will be told to abort, and one that waits at the end of an address is
      told right away. */
  function AbortIfNeeded(m: Machine): (r: Machine)
    ensures r == m.(abortingSet := r.abortingSet, sub := r.sub)
    ensures m.abort != NoPendingAbortReeval ==> r.abortingSet
    ensures r.sub != RX_WAIT_FOR_ADDRESS_END && (m.sub != RX_WAIT_FOR_ADDRESS_END ==> r.sub == m.sub)
  {
    m.(abortingSet := m.abortingSet || m.abort != NoPendingAbortReeval,
       sub := if m.sub == RX_WAIT_FOR_ADDRESS_END then SUB_STATE_INVALID else m.sub)
  }

  function Stopped(m: Machine): (r: Machine)
    ensures Sound(m, r)
  {
    match m.radio
    case TX => Halted(AbortIfNeeded(m), TXIDLE)
    case TXSTARTING => Halted(m, TXIDLE)
    case RX => Halted(AbortIfNeeded(m), RXIDLE)
    case CCA_ED => Halted(AbortIfNeeded(m), RXIDLE)
    case _ => m
  }

  /** The first half of DISABLE: whatever is on the air stops, and a pending turnaround is forgotten. */
  function Interrupted(m: Machine): (r: Machine)
    ensures m.radio == DISABLED ==> r.radio == DISABLED && Sound(m, r)
    ensures m.radio != DISABLED ==> r.radio != DISABLED
  {
    var n := match m.radio
      case TX => AbortIfNeeded(m).(radio := TXIDLE, reg := TXIDLE)
      case TXSTARTING => m.(radio := TXIDLE, reg := TXIDLE)
      case RX => AbortIfNeeded(m).(radio := RXIDLE, reg := RXIDLE)
      case CCA_ED => AbortIfNeeded(m).(radio := RXIDLE, reg := RXIDLE)
      case _ => m;
    if n.tifs != TIFS_DISABLE then n.(tifs := TIFS_DISABLE, timer := None) else n
  }

  /** The second half, when there is something to ramp down. */
  function RampingDown(m: Machine, txEnd: int, rxEnd: int): Machine {
    match m.radio
    case TXRU => m.(radio := TXDISABLE, reg := TXDISABLE, tifs := TIFS_DISABLE, timer := Some(txEnd))
    case TXIDLE => m.(radio := TXDISABLE, reg := TXDISABLE, tifs := TIFS_DISABLE, timer := Some(txEnd))
    case RXRU => m.(radio := RXDISABLE, reg := RXDISABLE, tifs := TIFS_DISABLE, timer := Some(rxEnd))
    case RXIDLE => m.(radio := RXDISABLE, reg := RXDISABLE, tifs := TIFS_DISABLE, timer := Some(rxEnd))
    case _ => m
  }

  /** DISABLE of anything but a radio that is already disabled. */
  function Disabling(m: Machine, txEnd: int, rxEnd: int): (r: Machine)
    requires m.radio != DISABLED
    ensures Sound(m, r)
  {
    RampingDown(Interrupted(m), txEnd, rxEnd)
  }

  predicate CanEnable(m: Machine) {
    m.radio.DISABLED? || m.radio.TXIDLE? || m.radio.RXIDLE?
  }

  function RampingUpTx(m: Machine, ready: int): (r: Machine)
    requires CanEnable(m)
    ensures Sound(m, r)
  {
    m.(radio := TXRU, reg := TXRU, timer := Some(ready))
  }

  function RampingUpRx(m: Machine, ready: int): (r: Machine)
    requires CanEnable(m)
    ensures Sound(m, r)
  {
    m.(tifs := TIFS_DISABLE, radio := RXRU, reg := RXRU, timer := Some(ready))
  }

  function AbortPending(m: Machine, who: AbortState, at: Option<int>): (r: Machine)
    requires who != NoPendingAbortReeval
    ensures Sound(m, r)
  {
    m.(abort := who, abortTimer := at)
  }

  function TurnaroundTimer(m: Machine, at: Option<int>): (r: Machine)
    ensures IsOff(m.radio) ==> Sound(m, r)
  {
    if m.tifs == TIFS_WAITING_FOR_DISABLE then m.(tifs := TIFS_TRIGGERING_TRX_EN, timer := at) else m
  }

  // ---------- Transactions with the Phy ----------

  /** What the Phy was told is only ever added to, and a decision to abort is not lost: it stands until the Phy is
      told, and then the first thing the Phy is told is to abort. */
  predicate Answered(s: State, r: State) {
    && |s.hist.aborts| <= |r.hist.aborts|
    && (s.m.abortingSet ==>
          if |s.hist.aborts| == |r.hist.aborts| then r.m.abortingSet else r.hist.aborts[|s.hist.aborts|].Some?)
    && (forall k :: 0 <= k < |s.hist.aborts| ==> s.hist.aborts[k] == r.hist.aborts[k])
  }

  /** What every task and every signal keeps. */
  predicate Keeps(s: State, r: State) {
    && Sound(s.m, r.m)
    && r.hist.ppiCalls >= s.hist.ppiCalls
    && r.now == s.now && r.cfg == s.cfg
    && Answered(s, r)
    && (Fine(s.fault) ==> Fine(r.fault))
  }

  /** Tells the Phy whether to abort right now, and when to ask again. */
  function UpdateAbort(env: Env, s: State): (r: State)
    ensures Keeps(s, r) && r.m == s.m.(abortingSet := false)
  {
    var abort := if s.m.abortingSet then Some(s.now) else None;
    s.(air := s.air.(nextRecheck := env.recheck(s.hist.phyCalls)),
       hist := s.hist.(aborts := s.hist.aborts + [abort]),
       m := s.m.(abortingSet := false))
  }

  /** The number of the next request, counted. */
  function Asked(s: State): State {
    s.(hist := s.hist.(phyCalls := s.hist.phyCalls + 1))
  }

  function TxResponse(env: Env, s: State): (r: State)
    ensures Keeps(s, r)
    ensures r.m == s.m.(abort := r.m.abort, abortTimer := r.m.abortTimer)
  {
    var reply := env.phy(s.hist.phyCalls);
    var s := Asked(s);
    if reply == AbortReeval then s.(m := AbortPending(s.m, TxAbortReeval, s.air.nextRecheck)) else s
  }

  function StartTx(env: Env, s: State): (r: State)
    requires s.m.radio == TXSTARTING && s.m.timer.None?
    ensures Keeps(s, r)
  {
    var s := s.(m := s.m.(radio := TX, reg := TX));
    var payload := PayloadLength(s.cfg, s.cfg.lengthField);
    if !FormatSupported(s.cfg) || payload.None? || payload.value > s.cfg.maxLen then s.(fault := NotSupported)
    else
      var s := s.(air := s.air.(rate := BitsPer4us(s.cfg.mode), pduStat := false));
      var s := TxResponse(env, UpdateAbort(env, s));
      var tx := TxTimes(s, payload.value);
      s.(air := s.air.(tx := tx), m := s.m.(sub := TX_WAIT_FOR_ADDRESS_END, timer := Some(tx.addressEnd)))
  }

  /** When the address, the payload and the CRC of a packet that starts now leave the RADIO. */
  function TxTimes(s: State, payloadLen: nat): TxStatus {
    var mode := s.cfg.mode;
    var addressEnd := s.now + AirTime(s.air.rate, (PreambleLen(mode) + AddressLen(mode)) * 8) - TX_CHAIN_DELAY;
    var payloadEnd := addressEnd + AirTime(s.air.rate, (HeaderLen(mode) + payloadLen) * 8);
    TxStatus(addressEnd, payloadEnd, payloadEnd + AirTime(s.air.rate, s.cfg.crcLen * 8))
  }

  function RxEndResponse(s: State, reply: Reply): (r: State)
    requires reply.RxEnd?
    ensures r.m == s.m && Keeps(s, r)
  {
    var s := if reply.status == HeaderError then s
             else s.(air := s.air.(rx := s.air.rx.(crcEnd := reply.endTime + RxChainDelay(s.cfg.mode))));
    if reply.status == CrcIsOk then s.(air := s.air.(rx := s.air.rx.(crcOk := true), crcStatus := true)) else s
  }

  /** A MODE that is not supported by now, unlike the one the reception started with, leaves the payload end
      uninitialised. */
  function AddressEndResponse(s: State, reply: Reply): (r: State)
    requires reply.AddressFound?
    ensures r.m == s.m && Keeps(s, r)
  {
    var chain := RxChainDelay(s.cfg.mode);
    var length := PayloadLength(s.cfg, reply.lengthField);
    if length.None? then s.(fault := NotSupported)
    else
      var rejected := length.value > s.cfg.maxLen;
      var length := if rejected then s.cfg.maxLen else length.value;
      var payloadEnd := chain + if s.cfg.mode == Unsupported then reply.stray
                                else reply.timeStamp + AirTime(s.air.rate, (HeaderLen(s.cfg.mode) + length) * 8);
      var rx := s.air.rx.(addressEnd := reply.timeStamp + chain, payloadEnd := payloadEnd,
                          crcEnd := payloadEnd + s.air.rx.crcDuration, rejected := rejected, matched := reply.matched);
      s.(air := s.air.(rx := rx, pduStat := rejected))
  }

  function LaterOf(recheck: Option<int>, now: int): Option<int> {
    match recheck
    case None => None
    case Some(t) => Some(Max(t, now))
  }

  function RxResponse(env: Env, s: State): (r: State)
    ensures Keeps(s, r)
    ensures r.m.radio == s.m.radio
  {
    var reply := env.phy(s.hist.phyCalls);
    var s := Asked(s);
    if reply == AbortReeval then
      s.(m := AbortPending(s.m, RxAbortReeval, LaterOf(s.air.nextRecheck, s.now)))
    else if reply.AddressFound? && s.m.radio == RX then
      var s := AddressEndResponse(s, reply);
      s.(m := s.m.(sub := RX_WAIT_FOR_ADDRESS_END, timer := Some(s.air.rx.addressEnd)))
    else if reply.RxEnd? && s.m.radio == RX then
      RxEndResponse(s, reply)
    else s
  }

  function StartRx(env: Env, s: State): (r: State)
    requires s.m.radio == RXIDLE
    ensures Keeps(s, r)
  {
    if !FormatSupported(s.cfg) then s.(fault := NotSupported)
    else
      var rate := BitsPer4us(s.cfg.mode);
      var rx := s.air.rx.(crcDuration := AirTime(rate, s.cfg.crcLen * 8), crcOk := false);
      var s := s.(m := s.m.(radio := RX, reg := RX), air := s.air.(rate := rate, rx := rx, crcStatus := false));
      var s := UpdateAbort(env, s);
      RxResponse(env, s.(m := s.m.(sub := SUB_STATE_INVALID, timer := None)))
  }

  function CcaIsBusy(mode: CcaMode, overThreshold: bool, modFound: bool): bool
    requires mode != UnknownCcaMode
  {
    match mode
    case EdMode => overThreshold
    case EdModeTest1 => overThreshold
    case CarrierMode => modFound
    case CarrierAndEdMode => modFound && overThreshold
    case CarrierOrEdMode => modFound || overThreshold
  }

  function CcaResponse(env: Env, s: State): (r: State)
    ensures Keeps(s, r)
  {
    var reply := env.phy(s.hist.phyCalls);
    var s := Asked(s);
    if reply.CcaEnd? then
      var s := if s.m.radio == CCA_ED then s.(m := s.m.(timer := Some(reply.ccaEndTime))) else s;
      if !s.air.cca.ccaNotEd then s
      else if s.cfg.ccaMode == UnknownCcaMode then s.(fault := NotSupported)
      else
        s.(air := s.air.(cca := s.air.cca.(isBusy := CcaIsBusy(s.cfg.ccaMode, reply.overThreshold, reply.modFound))))
    else if reply == AbortReeval then
      s.(m := AbortPending(s.m, CcaAbortReeval, s.air.nextRecheck))
    else s
  }

  const SYMBOL_TIME := 16

  function ScanDuration(c: Config, ccaNotEd: bool): nat {
    if ccaNotEd then 8 * SYMBOL_TIME else 8 * SYMBOL_TIME * (c.edcnt + 1)
  }

  function StartCcaEd(env: Env, s: State, ccaNotEd: bool): (r: State)
    requires s.m.radio == RXIDLE
    ensures Keeps(s, r)
  {
    var s := s.(m := s.m.(radio := CCA_ED), air := s.air.(cca := CcaStatus(ccaNotEd, false)));
    if s.cfg.mode != Ieee154 || (ccaNotEd && s.cfg.ccaMode == UnknownCcaMode) then s.(fault := NotSupported)
    else
      var s := UpdateAbort(env, s);
      CcaResponse(env, s.(m := s.m.(timer := Some(s.now + ScanDuration(s.cfg, ccaNotEd)))))
  }

  // ---------- Tasks ----------

  function ReadyAt(s: State, txNotRx: bool): int {
    s.now + RampUp(txNotRx, s.cfg.mode, s.cfg.fastRampUp, s.turn.fromHw || HwTifsEnabled(s.cfg))
  }

  function Txen(s: State): (r: State)
    ensures Keeps(s, r)
  {
    if CanEnable(s.m) then s.(m := RampingUpTx(s.m, ReadyAt(s, true))) else s
  }

  function Rxen(s: State): (r: State)
    ensures Keeps(s, r)
  {
    if CanEnable(s.m) then s.(m := RampingUpRx(s.m, ReadyAt(s, false))) else s
  }

  function Start(env: Env, s: State): (r: State)
    ensures Keeps(s, r)
  {
    if s.m.radio == TXIDLE then
      s.(m := s.m.(radio := TXSTARTING, reg := TX, timer := Some(s.now + TX_CHAIN_DELAY)))
    else if s.m.radio == RXIDLE then StartRx(env, s)
    else s
  }

  function CcaStart(env: Env, s: State): (r: State)
    ensures Keeps(s, r)
  {
    if s.m.radio == RXIDLE then StartCcaEd(env, s, true) else s
  }

  function EdStart(env: Env, s: State): (r: State)
    ensures Keeps(s, r)
  {
    if s.m.radio == RXIDLE then StartCcaEd(env, s, false) else s
  }

  function Stop(s: State): (r: State)
    ensures Keeps(s, r)
  {
    s.(m := Stopped(s.m))
  }

  function CcaStop(env: Env, s: State): (r: State)
    ensures Keeps(s, r)
    decreases Pending(env, s), 3
  {
    if s.m.radio == CCA_ED && s.air.cca.ccaNotEd then Raise(env, s.(m := Stopped(s.m)), CCASTOPPED) else s
  }

  function EdStop(env: Env, s: State): (r: State)
    ensures Keeps(s, r)
    decreases Pending(env, s), 3
  {
    if s.m.radio == CCA_ED && !s.air.cca.ccaNotEd then Raise(env, s.(m := Stopped(s.m)), EDSTOPPED) else s
  }

  function Disable(env: Env, s: State): (r: State)
    ensures Keeps(s, r)
    decreases Pending(env, s), 4
  {
    var timer := if s.m.tifs != TIFS_DISABLE then None else s.turn.timer;
    var s := s.(turn := s.turn.(timer := timer));
    if s.m.radio == DISABLED then SignalDisabled(env, s.(m := Interrupted(s.m)))
    else s.(m := Disabling(s.m, s.now + TxRampDown(s.cfg.mode), s.now + RX_RAMP_DOWN))
  }

  function DoTask(env: Env, s: State, t: Task): (r: State)
    ensures Keeps(s, r)
    decreases Pending(env, s), 5
  {
    match t
    case TXEN => Txen(s)
    case RXEN => Rxen(s)
    case START => Start(env, s)
    case STOP => Stop(s)
    case DISABLE => Disable(env, s)
    case CCASTART => CcaStart(env, s)
    case CCASTOP => CcaStop(env, s)
    case EDSTART => EdStart(env, s)
    case EDSTOP => EdStop(env, s)
    case RSSISTART => s.(rssiOn := true)
    case RSSISTOP => s.(rssiOn := false)
  }

  function DoTasks(env: Env, s: State, tasks: seq<Task>): (r: State)
    ensures Keeps(s, r)
    decreases Pending(env, s), 6, |tasks|
  {
    if tasks == [] then s else DoTasks(env, DoTask(env, s, tasks[0]), tasks[1..])
  }

  // ---------- Signals ----------

  function Logged(s: State, e: Event): State {
    s.(hist := s.hist.(log := s.hist.log + [(s.now, e)], ppiCalls := s.hist.ppiCalls + 1))
  }

  /** Sets the event register and lets the PPI run what is connected to it. */
  function Raise(env: Env, s: State, e: Event): (r: State)
    ensures Keeps(s, r)
    ensures r.hist.ppiCalls > s.hist.ppiCalls
    decreases Pending(env, s), 1
  {
    if s.hist.ppiCalls < |env.ppi| then DoTasks(env, Logged(s, e), env.ppi[s.hist.ppiCalls]) else Logged(s, e)
  }

  /** When the automatic turnaround is on, it replaces the DISABLED_TXEN and DISABLED_RXEN shortcuts. */
  function SignalDisabled(env: Env, s: State): (r: State)
    requires s.m.radio == DISABLED
    ensures Keeps(s, r)
    decreases Pending(env, s), 2
  {
    var s := Raise(env, s, DISABLED_EVENT);
    var s := if HwTifsEnabled(s.cfg) then s.(m := TurnaroundTimer(s.m, s.turn.timer))
             else
               var s := if s.cfg.shorts.disabledTxen then Txen(s) else s;
               if s.cfg.shorts.disabledRxen then Rxen(s) else s;
    if s.cfg.shorts.disabledRssistop then s.(rssiOn := false) else s
  }

  function SignalReady(env: Env, s: State): (r: State)
    ensures Keeps(s, r)
  {
    var s := Raise(env, s, READY);
    var s := if s.cfg.shorts.readyStart then Start(env, s) else s;
    if s.cfg.shorts.readyEdstart then EdStart(env, s) else s
  }

  function SignalTxReady(env: Env, s: State): (r: State)
    ensures Keeps(s, r)
  {
    var s := Raise(env, s, TXREADY);
    if s.cfg.shorts.txreadyStart then Start(env, s) else s
  }

  function SignalRxReady(env: Env, s: State): (r: State)
    ensures Keeps(s, r)
  {
    var s := Raise(env, s, RXREADY);
    var s := if s.cfg.shorts.rxreadyStart then Start(env, s) else s;
    if s.cfg.shorts.rxreadyCcastart then CcaStart(env, s) else s
  }

  function SignalAddress(env: Env, s: State): (r: State)
    ensures Keeps(s, r)
  {
    var s := Raise(env, s, ADDRESS);
    if s.cfg.shorts.addressRssistart then s.(rssiOn := true) else s
  }

  function SignalEnd(env: Env, s: State): (r: State)
    ensures Keeps(s, r)
  {
    var s := Raise(env, s, END);
    var s := if s.cfg.shorts.endDisable then Disable(env, s) else s;
    if s.cfg.shorts.endStart then Start(env, s) else s
  }

  function SignalPhyEnd(env: Env, s: State): (r: State)
    ensures Keeps(s, r)
  {
    var s := Raise(env, s, PHYEND);
    var s := if s.cfg.shorts.phyendDisable then Disable(env, s) else s;
    if s.cfg.shorts.phyendStart then Start(env, s) else s
  }

  function SignalCcaIdle(env: Env, s: State): (r: State)
    ensures Keeps(s, r)
  {
    var s := Raise(env, s, CCAIDLE);
    var s := if s.cfg.shorts.ccaidleStop then Stop(s) else s;
    if s.cfg.shorts.ccaidleTxen then Txen(s) else s
  }

  function SignalCcaBusy(env: Env, s: State): (r: State)
    ensures Keeps(s, r)
  {
    var s := Raise(env, s, CCABUSY);
    if s.cfg.shorts.ccabusyDisable then Disable(env, s) else s
  }

  function SignalEdEnd(env: Env, s: State): (r: State)
    ensures Keeps(s, r)
  {
    var s := Raise(env, s, EDEND);
    if s.cfg.shorts.edendDisable then Disable(env, s) else s
  }

  // ---------- The main timer ----------

  /** Prepares the automatic turnaround at the end of a packet: when the ramp-up towards the other direction must
      begin. */
  function MaybePrepareTifs(s: State, endOfTx: bool): (r: State)
    ensures s.m.radio != DISABLED ==> Keeps(s, r)
  {
    if !HwTifsEnabled(s.cfg) then s.(m := s.m.(tifs := TIFS_DISABLE))
    else
      var m := s.cfg.mode;
      var delta := if endOfTx then s.cfg.tifs + TX_CHAIN_DELAY - RampUp(false, m, s.cfg.fastRampUp, true) - 3
                   else s.cfg.tifs - RxChainDelay(m) - TX_CHAIN_DELAY - RampUp(true, m, s.cfg.fastRampUp, true) + 1;
      s.(turn := s.turn.(toTx := s.cfg.shorts.disabledTxen, timer := Some(s.now + delta)),
         m := s.m.(tifs := TIFS_WAITING_FOR_DISABLE))
  }

  function TxPacketEnd(env: Env, s: State): (r: State)
    requires s.m.radio == TX
    ensures Inv(s.m) ==> Inv(r.m)
    ensures (Fine(s.fault) ==> Fine(r.fault)) && Answered(s, r)
  {
    var s := s.(m := Halted(s.m, TXIDLE).(sub := SUB_STATE_INVALID));
    MaybePrepareTifs(SignalPhyEnd(env, SignalEnd(env, s)), true)
  }

  function TxTimer(env: Env, s: State): (r: State)
    requires s.m.radio == TX
    ensures Inv(s.m) && s.m.timer.Some? ==> Inv(r.m) && (Fine(s.fault) ==> Fine(r.fault))
    ensures Answered(s, r)
  {
    match s.m.sub
    case TX_WAIT_FOR_ADDRESS_END =>
      var s := s.(m := s.m.(sub := TX_WAIT_FOR_PAYLOAD_END, timer := Some(s.air.tx.payloadEnd)));
      Raise(env, SignalAddress(env, s), FRAMESTART)
    case TX_WAIT_FOR_PAYLOAD_END =>
      Raise(env, s.(m := s.m.(sub := TX_WAIT_FOR_CRC_END, timer := Some(s.air.tx.crcEnd))), PAYLOAD)
    case TX_WAIT_FOR_CRC_END => TxPacketEnd(env, s)
    case _ => s.(fault := StrayTimer)
  }

  /** Samples RSSI and compares the addresses; the Phy, if the packet is accepted, goes on. */
  function AddressReceived(env: Env, s: State): (r: State)
    ensures Keeps(s, r)
  {
    var accept := !s.air.rx.rejected;
    var s := if s.rssiOn then Raise(env, s, RSSIEND) else s;
    var s := if s.cfg.matchAddresses then Raise(env, s, if s.air.rx.matched then DEVMATCH else DEVMISS) else s;
    var s := UpdateAbort(env, s);
    if accept then RxResponse(env, s) else s
  }

  /** The signals at the end of the address, and only then the next sub-state: a task that comes in through the PPI
      in between does not stop the reception from being continued. */
  function AddressSignals(env: Env, s: State): (r: State)
    ensures Keeps(s.(m := s.m.(timer := None)), r)
  {
    var s := s.(m := s.m.(timer := None));
    var s := Raise(env, SignalAddress(env, Raise(env, s, SYNC)), FRAMESTART);
    AddressReceived(env, s)
  }

  function AddressEndTimer(env: Env, s: State): (r: State)
    ensures (Fine(s.fault) ==> Fine(r.fault)) && Answered(s, r)
  {
    var s := AddressSignals(env, s);
    s.(m := s.m.(sub := RX_WAIT_FOR_PAYLOAD_END, timer := Some(s.air.rx.payloadEnd)))
  }

  function RxPacketEnd(env: Env, s: State): (r: State)
    requires s.m.radio == RX
    ensures Inv(s.m) ==> Inv(r.m)
    ensures (Fine(s.fault) ==> Fine(r.fault)) && Answered(s, r)
  {
    var s := s.(m := Halted(s.m, RXIDLE).(sub := SUB_STATE_INVALID));
    var s := Raise(env, s, if s.air.rx.crcOk then CRCOK else CRCERROR);
    MaybePrepareTifs(SignalEnd(env, SignalPhyEnd(env, s)), false)
  }

  function RxTimer(env: Env, s: State): (r: State)
    requires s.m.radio == RX
    ensures Inv(s.m) && s.m.timer.Some? ==>
      (s.m.sub != RX_WAIT_FOR_ADDRESS_END ==> Inv(r.m)) && (Fine(s.fault) ==> Fine(r.fault))
    ensures Answered(s, r)
  {
    match s.m.sub
    case RX_WAIT_FOR_ADDRESS_END => AddressEndTimer(env, s)
    case RX_WAIT_FOR_PAYLOAD_END =>
      Raise(env, s.(m := s.m.(sub := RX_WAIT_FOR_CRC_END, timer := Some(s.air.rx.crcEnd))), PAYLOAD)
    case RX_WAIT_FOR_CRC_END => RxPacketEnd(env, s)
    case _ => s.(fault := StrayTimer)
  }

  function CcaEdTimer(env: Env, s: State): (r: State)
    requires s.m.radio == CCA_ED
    ensures Inv(s.m) ==> Inv(r.m)
    ensures (Fine(s.fault) ==> Fine(r.fault)) && Answered(s, r)
  {
    var s := s.(m := Halted(s.m, RXIDLE));
    if !s.air.cca.ccaNotEd then SignalEdEnd(env, s)
    else if s.air.cca.isBusy then SignalCcaBusy(env, s)
    else SignalCcaIdle(env, s)
  }

  /** The automatic turnaround starts the ramp-up. `fromHw` makes it the turnaround's, even when software cleared
      the shortcuts meanwhile. */
  function TurnaroundTriggered(s: State): (r: State)
    requires s.m.radio == DISABLED
    ensures Inv(s.m) ==> Inv(r.m)
    ensures (Fine(s.fault) ==> Fine(r.fault)) && Answered(s, r)
  {
    var s := s.(m := s.m.(tifs := TIFS_DISABLE, timer := None), turn := s.turn.(fromHw := true));
    var s := if s.turn.toTx then Txen(s) else Rxen(s);
    s.(turn := s.turn.(fromHw := false))
  }

  /** The main timer is reached. */
  function MainTimer(env: Env, s: State): (r: State)
    ensures Inv(s.m) && s.m.timer.Some? ==>
      (s.m.sub != RX_WAIT_FOR_ADDRESS_END ==> Inv(r.m)) && (Fine(s.fault) ==> Fine(r.fault))
    ensures Answered(s, r)
  {
    match s.m.radio
    case TXRU => SignalTxReady(env, SignalReady(env, s.(m := Halted(s.m, TXIDLE))))
    case RXRU => SignalRxReady(env, SignalReady(env, s.(m := Halted(s.m, RXIDLE))))
    case TXSTARTING => StartTx(env, s.(m := s.m.(timer := None)))
    case TX => TxTimer(env, s)
    case RX => RxTimer(env, s)
    case CCA_ED => CcaEdTimer(env, s)
    case TXDISABLE => SignalDisabled(env, s.(m := Halted(s.m, DISABLED)))
    case RXDISABLE => SignalDisabled(env, s.(m := Halted(s.m, DISABLED)))
    case DISABLED => if s.m.tifs == TIFS_TRIGGERING_TRX_EN then TurnaroundTriggered(s) else s.(fault := StrayTimer)
    case _ => s.(fault := StrayTimer)
  }

  /** The time has come to answer the Phy whether to abort. */
  function AbortTimer(env: Env, s: State): (r: State)
    ensures Inv(s.m) && s.m.abortTimer.Some? ==> Inv(r.m) && (Fine(s.fault) ==> Fine(r.fault))
    ensures Answered(s, r)
  {
    var pending := s.m.abort;
    var s := s.(m := s.m.(abortTimer := None));
    if pending == NoPendingAbortReeval then s.(fault := StrayAbortTimer)
    else
      var s := UpdateAbort(env, s.(m := s.m.(abort := NoPendingAbortReeval)));
      match pending
      case TxAbortReeval => TxResponse(env, s)
      case RxAbortReeval => RxResponse(env, s)
      case CcaAbortReeval => CcaResponse(env, s)
  }

  // ---------- Whole runs ----------

  /** POWER turned on resets the RADIO, all but the abort machine: the Phy may still wait for an answer. */
  function PowerOn(s: State): (r: State)
    ensures Inv(s.m) ==> Inv(r.m)
    ensures r.fault == s.fault && Answered(s, r)
  {
    if s.radioOn then s
    else
      var m := AbortIfNeeded(s.m);
      s.(radioOn := true, cfg := RESET_CONFIG, rssiOn := false,
         m := m.(reg := DISABLED, radio := DISABLED, sub := SUB_STATE_INVALID, timer := None, tifs := TIFS_DISABLE),
         turn := s.turn.(toTx := false, timer := None),
         air := s.air.(crcStatus := false, pduStat := false))
  }

  /** The state at boot. */
  const BOOT := State(0, RESET_CONFIG,
    Machine(DISABLED, DISABLED, SUB_STATE_INVALID, None, TIFS_DISABLE, NoPendingAbortReeval, false, None),
    Turnaround(false, None, false),
    Air(TxStatus(0, 0, 0), RxStatus(0, 0, 0, 0, false, false, false), CcaStatus(false, false), 4, None, false, false),
    false, false, History(0, [], 0, []), NoFault)

  /** What can happen to the RADIO: one of its timers is reached, somebody triggers a task, the bit counter matches,
      software writes registers. */
  datatype Step = MainTimerReached | AbortTimerReached | TaskTriggered(at: int, task: Task) | BitCounterMatch(at: int)
    | PowerWritten(on: bool) | Configured(cfg: Config)

  /** A timer that lies in the past is reached at once. */
  function At(s: State, t: Option<int>): State {
    match t
    case None => s
    case Some(t) => s.(now := Max(s.now, t))
  }

  /** A fault ends the simulation. */
  function Do(env: Env, s: State, step: Step): State {
    if s.fault != NoFault then s
    else
      match step
      case MainTimerReached => MainTimer(env, At(s, s.m.timer))
      case AbortTimerReached => AbortTimer(env, At(s, s.m.abortTimer))
      case TaskTriggered(at, t) => DoTask(env, s.(now := Max(s.now, at)), t)
      case BitCounterMatch(at) => Raise(env, s.(now := Max(s.now, at)), BCMATCH)
      case PowerWritten(on) => if on then PowerOn(s) else s.(radioOn := false)
      case Configured(cfg) => s.(cfg := cfg)
  }

  function Run(env: Env, s: State, steps: seq<Step>): State
    decreases |steps|
  {
    if steps == [] then s else Run(env, Do(env, s, steps[0]), steps[1..])
  }

  /** An event that the PPI connects to nothing is just recorded. */
  lemma QuietEvent(env: Env, s: State, e: Event)
    requires s.hist.ppiCalls < |env.ppi| ==> env.ppi[s.hist.ppiCalls] == []
    ensures Raise(env, s, e) == Logged(s, e)
  {
  }
}
