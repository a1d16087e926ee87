/**
 The reception of a packet, from the start of the receiver to the start of the answer. The Phy may ask any number of
 times whether to abort, before it finds the address and before it reports the end of the packet.
 */
module RadioReception {
  import opened Common
  import opened RadioTimings
  import opened RadioMachine
  import opened RadioTifs

  /** The Phy answers requests `k` up to before `k + n` by asking whether to abort. It asks at the time it was told to,
      and that is before `limit`, as long as the transaction is still going on. */
  ghost predicate Asks(env: Env, k: nat, n: nat, limit: int) {
    forall i: nat :: k <= i < k + n ==>
      env.phy(i) == AbortReeval && env.recheck(i).Some? && env.recheck(i).value < limit
  }

  lemma AsksOnce(env: Env, k: nat, n: nat, limit: int)
    requires Asks(env, k, n, limit) && n > 0
    ensures env.phy(k) == AbortReeval && env.recheck(k).Some? && env.recheck(k).value < limit
    ensures Asks(env, k + 1, n - 1, limit)
  {
  }

  // ---------- A packet on the air ----------

  /** Its address ends on the air at `found`; the Phy reports `status` and the time `endTime`. It asks `asksBefore`
      times before it finds the address, and `asksAfter` times before it reports the end. */
  datatype Packet = Packet(found: int, lengthField: nat, matched: bool, stray: int, endTime: int, status: RxEndStatus,
                           asksBefore: nat, asksAfter: nat)

  predicate HasLength(c: Config, p: Packet) {
    CanTransmit(c) && PayloadLength(c, p.lengthField).Some?
  }

  /** A packet that is too long is rejected, and goes on as if it were as long as allowed. */
  predicate TooLong(c: Config, p: Packet)
    requires HasLength(c, p)
  {
    PayloadLength(c, p.lengthField).value > c.maxLen
  }

  function Length(c: Config, p: Packet): nat
    requires HasLength(c, p)
  {
    if TooLong(c, p) then c.maxLen else PayloadLength(c, p.lengthField).value
  }

  function AddressAt(c: Config, p: Packet): int {
    p.found + RxChainDelay(c.mode)
  }

  function PayloadAt(c: Config, p: Packet): int
    requires HasLength(c, p)
  {
    AddressAt(c, p) + AirTime(BitsPer4us(c.mode), (HeaderLen(c.mode) + Length(c, p)) * 8)
  }

  /** When the CRC ends according to the length of the packet. */
  function ExpectedAt(c: Config, p: Packet): int
    requires HasLength(c, p)
  {
    PayloadAt(c, p) + AirTime(BitsPer4us(c.mode), c.crcLen * 8)
  }

  /** The end of the packet on the air: what the Phy reports, unless it heard no more than a header. */
  function EndOnAir(c: Config, p: Packet): int
    requires HasLength(c, p)
  {
    if TooLong(c, p) || p.status == HeaderError then ExpectedAt(c, p) - RxChainDelay(c.mode) else p.endTime
  }

  function CrcAt(c: Config, p: Packet): int
    requires HasLength(c, p)
  {
    EndOnAir(c, p) + RxChainDelay(c.mode)
  }

  predicate IsOk(c: Config, p: Packet)
    requires HasLength(c, p)
  {
    !TooLong(c, p) && p.status == CrcIsOk
  }

  /** The Phy has no reason to ask after the packet has ended; when it ends at another time than its length says, the
      report must come before the end of the payload. */
  function Deadline(c: Config, p: Packet): int
    requires HasLength(c, p)
  {
    if CrcAt(c, p) == ExpectedAt(c, p) then ExpectedAt(c, p) else PayloadAt(c, p)
  }

  predicate CanReceive(c: Config, p: Packet) {
    HasLength(c, p) && PayloadAt(c, p) <= CrcAt(c, p)
  }

  /** From request `k` on, the Phy asks `n` times and then reports the end of the packet. */
  ghost predicate HearsEnd(env: Env, c: Config, p: Packet, k: nat, n: nat)
    requires HasLength(c, p)
  {
    Asks(env, k, n, Deadline(c, p)) && env.phy(k + n) == RxEnd(p.endTime, p.status)
  }

  /** From request `k` on, the Phy asks `n` times, finds the address, and then, unless the packet is rejected, reports
      the end. */
  ghost predicate Hears(env: Env, c: Config, p: Packet, k: nat, n: nat)
    requires HasLength(c, p)
  {
    && Asks(env, k, n, AddressAt(c, p) + 1)
    && env.phy(k + n) == AddressFound(p.found, p.lengthField, p.matched, p.stray)
    && (!TooLong(c, p) ==> HearsEnd(env, c, p, k + n + 1, p.asksAfter))
  }

  /** For every packet there is such a Phy. */
  lemma SomePhyReports(c: Config, p: Packet) returns (env: Env)
    requires CanReceive(c, p)
    ensures Hears(env, c, p, 0, p.asksBefore) && env.ppi == []
  {
    TimesInOrder(c, p);
    var a, b, t := p.asksBefore, p.asksAfter, AddressAt(c, p);
    env := Env(i => if i == a then AddressFound(p.found, p.lengthField, p.matched, p.stray)
                    else if i == a + 1 + b then RxEnd(p.endTime, p.status) else AbortReeval, i => Some(t), []);
    hide AddressAt, Deadline, TooLong;
  }

  lemma TimesInOrder(c: Config, p: Packet)
    requires CanReceive(c, p)
    ensures AddressAt(c, p) < PayloadAt(c, p) < ExpectedAt(c, p) && AddressAt(c, p) < Deadline(c, p)
  {
  }

  /** The events at the end of an address. */
  function AddressEvents(t: int, rssiOn: bool, matching: bool, matched: bool): seq<(int, Event)> {
    [(t, SYNC), (t, ADDRESS), (t, FRAMESTART)] + (if rssiOn then [(t, RSSIEND)] else [])
    + if matching then [(t, if matched then DEVMATCH else DEVMISS)] else []
  }

  // ---------- Listening ----------

  /** The receiver is on, and nobody aborts it. */
  predicate Receiver(env: Env, c: Config, log: seq<(int, Event)>, s: State) {
    && Quiet(env, s) && s.fault == NoFault && !s.turn.fromHw && !s.m.abortingSet
    && s.cfg == c && s.hist.log == log && s.m.radio == RX && !s.air.rx.crcOk && !s.air.crcStatus
    && s.air.rate == BitsPer4us(c.mode) && s.air.rx.crcDuration == AirTime(BitsPer4us(c.mode), c.crcLen * 8)
  }

  predicate NothingPending(s: State) {
    s.m.abort == NoPendingAbortReeval && s.m.abortTimer == None
  }

  /** The Phy is about to answer; it asks `n` more times before it finds the address. */
  ghost predicate Awaiting(env: Env, c: Config, p: Packet, log: seq<(int, Event)>, s: State, n: nat)
    requires HasLength(c, p)
  {
    && Receiver(env, c, log, s) && NothingPending(s) && s.m.timer == None && s.now <= AddressAt(c, p)
    && s.air.nextRecheck == env.recheck(s.hist.phyCalls) && Hears(env, c, p, s.hist.phyCalls, n)
  }

  /** The Phy waits to hear whether to abort, and asks `n` more times before it finds the address. */
  ghost predicate Listening(env: Env, c: Config, p: Packet, log: seq<(int, Event)>, s: State, n: nat)
    requires HasLength(c, p)
  {
    && Receiver(env, c, log, s) && s.m.timer == None && s.now <= AddressAt(c, p)
    && s.m.abort == RxAbortReeval && s.m.abortTimer.Some? && s.m.abortTimer.value <= AddressAt(c, p)
    && Hears(env, c, p, s.hist.phyCalls, n)
  }

  /** The address is found; its end is still to come. */
  ghost predicate Found(env: Env, c: Config, p: Packet, log: seq<(int, Event)>, s: State)
    requires HasLength(c, p)
  {
    && Receiver(env, c, log, s) && NothingPending(s)
    && s.m.sub == RX_WAIT_FOR_ADDRESS_END && s.m.timer == Some(AddressAt(c, p)) && s.now <= AddressAt(c, p)
    && s.air.rx.rejected == s.air.pduStat == TooLong(c, p) && s.air.rx.matched == p.matched
    && s.air.rx.payloadEnd == PayloadAt(c, p) && s.air.rx.crcEnd == ExpectedAt(c, p)
    && (!TooLong(c, p) ==> HearsEnd(env, c, p, s.hist.phyCalls, p.asksAfter))
  }

  ghost predicate ListeningOrFound(env: Env, c: Config, p: Packet, log: seq<(int, Event)>, s: State)
    requires HasLength(c, p)
  {
    Found(env, c, p, log, s) || exists n: nat :: Listening(env, c, p, log, s, n)
  }

  /** The answer of the Phy: one question less, or the address. */
  lemma AddressOrQuestion(env: Env, c: Config, p: Packet, log: seq<(int, Event)>, s: State, n: nat)
    requires HasLength(c, p) && Awaiting(env, c, p, log, s, n)
    ensures ListeningOrFound(env, c, p, log, RxResponse(env, s))
  {
    var r := RxResponse(env, s);
    hide AirTime, HeaderLen, Keeps, Inv, Sound, PacketDuration, Asks, RxChainDelay, Answered;
    if n > 0 {
      AsksOnce(env, s.hist.phyCalls, n, AddressAt(c, p) + 1);
      assert Listening(env, c, p, log, r, n - 1);
    } else {
      assert r.air.rx.payloadEnd == PayloadAt(c, p);
      assert Found(env, c, p, log, r);
    }
  }

  lemma ReceiverStarts(env: Env, s: State, p: Packet)
    requires Undisturbed(env, s) && s.m.abort == NoPendingAbortReeval && s.m.radio == RXIDLE
    requires HasLength(s.cfg, p) && Hears(env, s.cfg, p, s.hist.phyCalls, p.asksBefore) && s.now <= AddressAt(s.cfg, p)
    ensures ListeningOrFound(env, s.cfg, p, s.hist.log, StartRx(env, s)) && StartRx(env, s).rssiOn == s.rssiOn
  {
    var rate := BitsPer4us(s.cfg.mode);
    var rx := s.air.rx.(crcDuration := AirTime(rate, s.cfg.crcLen * 8), crcOk := false);
    var u := s.(m := s.m.(radio := RX, reg := RX), air := s.air.(rate := rate, rx := rx, crcStatus := false));
    var v := UpdateAbort(env, u);
    var w := v.(m := v.m.(sub := SUB_STATE_INVALID, timer := None));
    assert StartRx(env, s) == RxResponse(env, w);
    hide AirTime, Keeps, Inv, Sound, PacketDuration, Hears, RxChainDelay, Answered, AddressAt, BitsPer4us, HeaderLen;
    assert Awaiting(env, s.cfg, p, s.hist.log, w, p.asksBefore);
    AddressOrQuestion(env, s.cfg, p, s.hist.log, w, p.asksBefore);
  }

  lemma QuestionAnswered(env: Env, c: Config, p: Packet, log: seq<(int, Event)>, s: State, n: nat)
    requires HasLength(c, p) && Listening(env, c, p, log, s, n)
    ensures var r := Do(env, s, AbortTimerReached); ListeningOrFound(env, c, p, log, r) && r.rssiOn == s.rssiOn
  {
    var t := At(s, s.m.abortTimer);
    var v := UpdateAbort(env, t.(m := t.m.(abortTimer := None, abort := NoPendingAbortReeval)));
    assert Do(env, s, AbortTimerReached) == RxResponse(env, v);
    hide AirTime, Keeps, Inv, Sound, PacketDuration, Hears, RxChainDelay, Answered, AddressAt, BitsPer4us, HeaderLen;
    assert Awaiting(env, c, p, log, v, n);
    AddressOrQuestion(env, c, p, log, v, n);
  }

  // ---------- The end of the address ----------

  function AddressRaised(s: State): State {
    var s := Logged(Logged(s.(m := s.m.(timer := None)), SYNC), ADDRESS);
    var s := Logged(s.(rssiOn := s.rssiOn || s.cfg.shorts.addressRssistart), FRAMESTART);
    var s := if s.rssiOn then Logged(s, RSSIEND) else s;
    if s.cfg.matchAddresses then Logged(s, if s.air.rx.matched then DEVMATCH else DEVMISS) else s
  }

  /** The events of the address end are raised one by one, and nothing else happens before the Phy is answered. */
  lemma AddressIsRaised(env: Env, s: State)
    requires Quiet(env, s)
    ensures var r := UpdateAbort(env, AddressRaised(s));
      AddressSignals(env, s) == if s.air.rx.rejected then r else RxResponse(env, r)
  {
    hide Keeps, Inv, Sound, Answered, RxResponse, UpdateAbort;
    var s0 := s.(m := s.m.(timer := None));
    QuietEvent(env, s0, SYNC);
    var s1 := Logged(s0, SYNC);
    QuietEvent(env, s1, ADDRESS);
    var s2 := SignalAddress(env, s1);
    QuietEvent(env, s2, FRAMESTART);
    var s3 := Logged(s2, FRAMESTART);
    QuietEvent(env, s3, RSSIEND);
    var s4 := if s3.rssiOn then Logged(s3, RSSIEND) else s3;
    QuietEvent(env, s4, if s4.air.rx.matched then DEVMATCH else DEVMISS);
  }

  lemma AddressRaisedIs(s: State)
    ensures var rssi := s.rssiOn || s.cfg.shorts.addressRssistart;
      var log := s.hist.log + AddressEvents(s.now, rssi, s.cfg.matchAddresses, s.air.rx.matched);
      var r := AddressRaised(s);
      r.hist.ppiCalls >= s.hist.ppiCalls
      && r == s.(m := s.m.(timer := None), rssiOn := rssi, hist := s.hist.(log := log, ppiCalls := r.hist.ppiCalls))
  {
  }

  /** The reception goes on behind the address, in the sub-state `sub` that ends at `timer`. */
  predicate Continuing(env: Env, c: Config, sub: SubState, timer: int, log: seq<(int, Event)>, s: State) {
    && Quiet(env, s) && s.fault == NoFault && !s.turn.fromHw && !s.m.abortingSet && s.cfg == c && s.hist.log == log
    && s.m.radio == RX && s.m.sub == sub && s.m.timer == Some(timer) && s.now <= timer
  }

  /** The Phy has reported the end, or has been told not to. */
  predicate Reported(c: Config, p: Packet, s: State)
    requires HasLength(c, p)
  {
    NothingPending(s) && s.air.rx.crcEnd == CrcAt(c, p) && s.air.rx.crcOk == s.air.crcStatus == IsOk(c, p)
  }

  /** The Phy is about to answer; it asks `n` more times before it reports the end. */
  ghost predicate AwaitingEnd(env: Env, c: Config, p: Packet, s: State, n: nat)
    requires HasLength(c, p)
  {
    && !TooLong(c, p) && NothingPending(s) && s.m.radio == RX && s.cfg == c && s.now < Deadline(c, p)
    && s.air.rx.crcEnd == ExpectedAt(c, p) && !s.air.rx.crcOk && !s.air.crcStatus
    && s.air.nextRecheck == env.recheck(s.hist.phyCalls) && HearsEnd(env, c, p, s.hist.phyCalls, n)
  }

  /** The Phy waits to hear whether to abort, and asks `n` more times before it reports the end. */
  ghost predicate Waiting(env: Env, c: Config, p: Packet, s: State, n: nat)
    requires HasLength(c, p)
  {
    && !TooLong(c, p) && s.m.radio == RX && s.cfg == c && s.now < Deadline(c, p)
    && s.air.rx.crcEnd == ExpectedAt(c, p) && !s.air.rx.crcOk && !s.air.crcStatus
    && s.m.abort == RxAbortReeval && s.m.abortTimer.Some? && s.m.abortTimer.value < Deadline(c, p)
    && HearsEnd(env, c, p, s.hist.phyCalls, n)
  }

  ghost predicate WaitingOrReported(env: Env, c: Config, p: Packet, s: State)
    requires HasLength(c, p)
  {
    Reported(c, p, s) || exists n: nat :: Waiting(env, c, p, s, n)
  }

  /** The answer of the Phy: one question less, or the end. Nothing else changes. */
  lemma EndOrQuestion(env: Env, c: Config, p: Packet, s: State, n: nat)
    requires HasLength(c, p) && AwaitingEnd(env, c, p, s, n)
    ensures var r := RxResponse(env, s);
      && WaitingOrReported(env, c, p, r)
      && r.m == s.m.(abort := r.m.abort, abortTimer := r.m.abortTimer)
      && r.now == s.now && r.cfg == s.cfg && r.turn == s.turn && r.fault == s.fault && r.rssiOn == s.rssiOn
      && r.hist == s.hist.(phyCalls := r.hist.phyCalls) && r.air.rx.payloadEnd == s.air.rx.payloadEnd
      && r.air.pduStat == s.air.pduStat
  {
    var r := RxResponse(env, s);
    hide AirTime, HeaderLen, Keeps, Inv, Sound, PacketDuration, Asks, RxChainDelay, Answered, PayloadAt;
    if n > 0 {
      AsksOnce(env, s.hist.phyCalls, n, Deadline(c, p));
      assert Waiting(env, c, p, r, n - 1);
    }
  }

  lemma AddressEndExpires(env: Env, s: State)
    requires s.m.radio == RX && s.m.sub == RX_WAIT_FOR_ADDRESS_END && s.fault == NoFault
    ensures var r := AddressSignals(env, At(s, s.m.timer));
      Do(env, s, MainTimerReached) == r.(m := r.m.(sub := RX_WAIT_FOR_PAYLOAD_END, timer := Some(r.air.rx.payloadEnd)))
  {
    hide AddressSignals;
  }

  /** The end of the address: its events, and then the Phy goes on, unless the packet is rejected. */
  lemma AddressIsSignalled(env: Env, c: Config, p: Packet, log: seq<(int, Event)>, s: State)
    requires CanReceive(c, p) && Found(env, c, p, log, s)
    ensures var r := AddressSignals(env, At(s, s.m.timer));
      var rssi := s.rssiOn || c.shorts.addressRssistart;
      && WaitingOrReported(env, c, p, r)
      && Quiet(env, r) && r.fault == NoFault && !r.turn.fromHw && !r.m.abortingSet && r.cfg == c && r.m.radio == RX
      && r.now == AddressAt(c, p) && r.air.rx.payloadEnd == PayloadAt(c, p) && r.air.pduStat == TooLong(c, p)
      && r.hist.log == log + AddressEvents(AddressAt(c, p), rssi, c.matchAddresses, p.matched)
  {
    var t := At(s, s.m.timer);
    AddressIsRaised(env, t);
    AddressRaisedIs(t);
    TimesInOrder(c, p);
    var u := UpdateAbort(env, AddressRaised(t));
    hide Answered, AddressSignals, AddressRaised, AddressEvents, RxResponse;
    hide CanReceive, PayloadAt, AddressAt, ExpectedAt, RxChainDelay, Deadline, HearsEnd, HasLength;
    if TooLong(c, p) {
      assert Reported(c, p, u);
    } else {
      assert AwaitingEnd(env, c, p, u, p.asksAfter);
      EndOrQuestion(env, c, p, u, p.asksAfter);
    }
  }

  // ---------- Behind the address ----------

  /** With six or five expirations of the main timer to go until the answer is on the air. */
  ghost predicate Behind(env: Env, c: Config, p: Packet, log: seq<(int, Event)>, s: State, n: nat)
    requires CanReceive(c, p) && (n == 5 || n == 6)
  {
    && WaitingOrReported(env, c, p, s)
    && if n == 6
       then Continuing(env, c, RX_WAIT_FOR_PAYLOAD_END, PayloadAt(c, p), log, s)
            && s.air.rx.payloadEnd == PayloadAt(c, p)
       else Continuing(env, c, RX_WAIT_FOR_CRC_END, CrcAt(c, p), log + [(PayloadAt(c, p), PAYLOAD)], s)
            && (!Reported(c, p, s) ==> CrcAt(c, p) == ExpectedAt(c, p))
  }

  lemma ReportedIsTracked(env: Env, c: Config, p: Packet, log: seq<(int, Event)>, s: State, n: nat)
    requires CanReceive(c, p) && (n == 5 || n == 6) && Behind(env, c, p, log, s, n) && Reported(c, p, s)
    ensures RxTrack(env, c, PayloadAt(c, p), EndOnAir(c, p), IsOk(c, p), log, s, n)
  {
    hide PayloadAt, EndOnAir, ExpectedAt, HasLength, RxChainDelay;
    assert RxToTxEvents(c, PayloadAt(c, p), EndOnAir(c, p), IsOk(c, p))[..1] == [(PayloadAt(c, p), PAYLOAD)];
  }

  lemma BehindAddress(env: Env, c: Config, p: Packet, log: seq<(int, Event)>, s: State)
    requires CanReceive(c, p) && Found(env, c, p, log, s)
    ensures var rssi := s.rssiOn || c.shorts.addressRssistart;
      Behind(env, c, p, log + AddressEvents(AddressAt(c, p), rssi, c.matchAddresses, p.matched),
             Do(env, s, MainTimerReached), 6)
  {
    AddressEndExpires(env, s);
    AddressIsSignalled(env, c, p, log, s);
    TimesInOrder(c, p);
    var v := AddressSignals(env, At(s, s.m.timer));
    var r := Do(env, s, MainTimerReached);
    hide CanReceive, PayloadAt, AddressAt, ExpectedAt, RxChainDelay, Deadline, HearsEnd, HasLength, Do, AddressSignals,
      AddressEvents;
    if !Reported(c, p, v) {
      var n: nat :| Waiting(env, c, p, v, n);
      assert Waiting(env, c, p, r, n);
    }
  }

  /** A question of the Phy is answered, and everything stays on course. */
  lemma QuestionBehind(env: Env, c: Config, p: Packet, log: seq<(int, Event)>, s: State, n: nat)
    requires CanReceive(c, p) && (n == 5 || n == 6) && Behind(env, c, p, log, s, n)
    requires Due(s, AbortTimerReached)
    ensures Behind(env, c, p, log, Do(env, s, AbortTimerReached), n)
  {
    var k: nat :| Waiting(env, c, p, s, k);
    var t := At(s, s.m.abortTimer);
    var v := UpdateAbort(env, t.(m := t.m.(abortTimer := None, abort := NoPendingAbortReeval)));
    assert Do(env, s, AbortTimerReached) == RxResponse(env, v);
    hide CanReceive, PayloadAt, AddressAt, ExpectedAt, RxChainDelay, Deadline, HearsEnd, HasLength, Do, RxResponse,
      Answered, CrcAt;
    assert AwaitingEnd(env, c, p, v, k);
    EndOrQuestion(env, c, p, v, k);
  }

  /** The payload ends while the Phy waits. */
  lemma PayloadBehind(env: Env, c: Config, p: Packet, log: seq<(int, Event)>, s: State)
    requires CanReceive(c, p) && Behind(env, c, p, log, s, 6) && !Reported(c, p, s) && Due(s, MainTimerReached)
    ensures Behind(env, c, p, log, Do(env, s, MainTimerReached), 5)
  {
    var k: nat :| Waiting(env, c, p, s, k);
    TimesInOrder(c, p);
    var t := At(s, s.m.timer);
    var u := t.(m := t.m.(sub := RX_WAIT_FOR_CRC_END, timer := Some(t.air.rx.crcEnd)));
    var r := Do(env, s, MainTimerReached);
    hide CanReceive, PayloadAt, AddressAt, ExpectedAt, RxChainDelay, HearsEnd, HasLength, Answered, CrcAt, Keeps, Inv;
    QuietEvent(env, u, PAYLOAD);
    assert r == Logged(u, PAYLOAD);
    assert Waiting(env, c, p, r, k);
  }

  /** The end of the CRC does not come before the report. */
  lemma NoCrcBeforeReport(env: Env, c: Config, p: Packet, log: seq<(int, Event)>, s: State)
    requires CanReceive(c, p) && Behind(env, c, p, log, s, 5) && Due(s, MainTimerReached)
    ensures Reported(c, p, s)
  {
    hide CanReceive, PayloadAt, AddressAt, ExpectedAt, RxChainDelay, HearsEnd, HasLength, CrcAt;
  }

  // ---------- From the receiver to the answer ----------

  function LogBehind(c: Config, p: Packet, log: seq<(int, Event)>, rssi: bool): seq<(int, Event)> {
    log + AddressEvents(AddressAt(c, p), rssi, c.matchAddresses, p.matched)
  }

  /** With `n` expirations of the main timer to go until the answer is on the air. `log` was logged before the address,
      and `rssi` says whether RSSI will be sampled. */
  ghost predicate Stage(env: Env, c: Config, p: Packet, log: seq<(int, Event)>, rssi: bool, s: State, n: nat)
    requires CanReceive(c, p) && n <= 7
  {
    if n == 7 then ListeningOrFound(env, c, p, log, s) && rssi == (s.rssiOn || c.shorts.addressRssistart)
    else
      || (n >= 5 && Behind(env, c, p, LogBehind(c, p, log, rssi), s, n))
      || RxTrack(env, c, PayloadAt(c, p), EndOnAir(c, p), IsOk(c, p), LogBehind(c, p, log, rssi), s, n)
  }

  lemma StageAbort(env: Env, c: Config, p: Packet, log: seq<(int, Event)>, rssi: bool, s: State, n: nat)
    requires CanReceive(c, p) && 5 <= n <= 7 && Stage(env, c, p, log, rssi, s, n) && Due(s, AbortTimerReached)
    ensures Stage(env, c, p, log, rssi, Do(env, s, AbortTimerReached), n)
  {
    assert HasLength(c, p);
    hide PayloadAt, ExpectedAt, LogBehind, HasLength, EndOnAir, Do, Behind, RxTrack, IsOk;
    if n == 7 {
      var k: nat :| Listening(env, c, p, log, s, k);
      QuestionAnswered(env, c, p, log, s, k);
    } else if Behind(env, c, p, LogBehind(c, p, log, rssi), s, n) {
      QuestionBehind(env, c, p, LogBehind(c, p, log, rssi), s, n);
    } else {
      RxTrackAbort(env, c, PayloadAt(c, p), EndOnAir(c, p), IsOk(c, p), LogBehind(c, p, log, rssi), s, n);
    }
  }

  lemma StageMain(env: Env, c: Config, p: Packet, log: seq<(int, Event)>, rssi: bool, s: State, n: nat)
    requires CanReceive(c, p) && TurnsToTx(c) && 5 <= n <= 7 && Stage(env, c, p, log, rssi, s, n)
    requires Due(s, MainTimerReached)
    ensures Stage(env, c, p, log, rssi, Do(env, s, MainTimerReached), n - 1)
  {
    assert HasLength(c, p);
    hide PayloadAt, ExpectedAt, AddressEvents, HasLength, EndOnAir, Do, RxTrack, TxReady, Behind, IsOk, TurnsToTx;
    if n == 7 {
      BehindAddress(env, c, p, log, s);
    } else {
      hide LogBehind, Reported;
      var log' := LogBehind(c, p, log, rssi);
      if n == 6 && Behind(env, c, p, log', s, n) && !Reported(c, p, s) {
        PayloadBehind(env, c, p, log', s);
      } else {
        if Behind(env, c, p, log', s, n) {
          if n == 5 {
            NoCrcBeforeReport(env, c, p, log', s);
          }
          ReportedIsTracked(env, c, p, log', s, n);
        }
        RxTrackMain(env, c, PayloadAt(c, p), EndOnAir(c, p), IsOk(c, p), log', s, n);
      }
    }
  }

  /** A run of more than one expiration, one step on. */
  lemma OneStep(env: Env, s: State, n: nat, steps: seq<Step>)
    requires DueRun(env, s, steps) && Mains(steps) == n >= 1 && steps[|steps| - 1] == MainTimerReached
    ensures Due(s, steps[0]) && DueRun(env, Do(env, s, steps[0]), steps[1..])
    ensures steps[0] == MainTimerReached || steps[0] == AbortTimerReached
    ensures Mains(steps[1..]) == if steps[0] == MainTimerReached then n - 1 else n
    ensures Run(env, s, steps) == Run(env, Do(env, s, steps[0]), steps[1..])
    ensures |steps[1..]| == |steps| - 1
    ensures n > 1 || steps[0] == AbortTimerReached ==>
      |steps| > 1 && steps[1..][|steps[1..]| - 1] == MainTimerReached
  {
    hide Do;
  }

  lemma ReportedTurnsToTx(env: Env, c: Config, p: Packet, log: seq<(int, Event)>, rssi: bool, s: State, n: nat,
                          steps: seq<Step>)
    requires CanReceive(c, p) && TurnsToTx(c) && 1 <= n < 5 && Stage(env, c, p, log, rssi, s, n)
    requires DueRun(env, s, steps) && Mains(steps) == n && steps[|steps| - 1] == MainTimerReached
    ensures var r := Run(env, s, steps);
      Stage(env, c, p, log, rssi, r, 0) && r.now == TxReady(c, EndOnAir(c, p)) + TX_CHAIN_DELAY
  {
    assert HasLength(c, p) && CanTransmit(c);
    hide Do, HasLength, CanReceive, CanTransmit, TurnsToTx, TxReady, EndOnAir, PayloadAt, LogBehind, RxTrack, DueRun,
      Run, IsOk, Mains;
    RxTurnsToTx(env, c, PayloadAt(c, p), EndOnAir(c, p), IsOk(c, p), LogBehind(c, p, log, rssi), s, n, steps);
  }

  /** In every run of the two timers, however often the Phy asks: the seventh expiration of the main timer starts the
      transmission on the air. */
  lemma {:induction false} ReceptionTurnsToTx(env: Env, c: Config, p: Packet, log: seq<(int, Event)>, rssi: bool,
                                              s: State, n: nat, steps: seq<Step>)
    requires CanReceive(c, p) && TurnsToTx(c) && 1 <= n <= 7 && Stage(env, c, p, log, rssi, s, n)
    requires DueRun(env, s, steps) && Mains(steps) == n && steps[|steps| - 1] == MainTimerReached
    ensures var r := Run(env, s, steps);
      Stage(env, c, p, log, rssi, r, 0) && r.now == TxReady(c, EndOnAir(c, p)) + TX_CHAIN_DELAY
    decreases |steps|
  {
    hide *;
    OneStep(env, s, n, steps);
    var r := Do(env, s, steps[0]);
    if n < 5 {
      ReportedTurnsToTx(env, c, p, log, rssi, s, n, steps);
    } else if steps[0] == MainTimerReached {
      StageMain(env, c, p, log, rssi, s, n);
      ReceptionTurnsToTx(env, c, p, log, rssi, r, n - 1, steps[1..]);
    } else {
      StageAbort(env, c, p, log, rssi, s, n);
      ReceptionTurnsToTx(env, c, p, log, rssi, r, n, steps[1..]);
    }
  }
}
