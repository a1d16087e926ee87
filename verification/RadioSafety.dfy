/**
 Safety of the RADIO over whole runs: whatever tasks, resets, configuration changes, Phy answers and PPI
 connections come in whatever order, a timer of the RADIO never expires in a state that cannot handle it.
 */
module RadioSafety {
  import opened Common
  import opened RadioTimings
  import opened RadioMachine

  // ---------- The one step that a task can disturb: the end of the address ----------

  predicate AtAddressEnd(s: State) {
    s.m.radio == RX && s.m.sub == RX_WAIT_FOR_ADDRESS_END
  }

  /** What decides about the end of an address: the radio state, whether a CCA and not an energy detection is going on,
      whether RSSI is sampled, and the number of the next event. */
  datatype Outline = Outline(radio: RadioState, cca: bool, rssiOn: bool, next: nat)

  function OutlineOf(s: State): Outline {
    Outline(s.m.radio, s.air.cca.ccaNotEd, s.rssiOn, s.hist.ppiCalls)
  }

  function Left(ppi: seq<seq<Task>>, o: Outline): nat {
    if o.next < |ppi| then |ppi| - o.next else 0
  }

  /** What a task does to a receiver, by the plan of the PPI alone; `supported` is whether START can receive. */
  function TaskOutline(ppi: seq<seq<Task>>, supported: bool, o: Outline, t: Task): (r: Outline)
    ensures r.next >= o.next
    decreases Left(ppi, o), 1
  {
    match t
    case TXEN => if o.radio.RXIDLE? then o.(radio := TXRU) else o
    case RXEN => if o.radio.RXIDLE? then o.(radio := RXRU) else o
    case START => if o.radio.RXIDLE? && supported then o.(radio := RX) else o
    case STOP => if o.radio.RX? || o.radio.CCA_ED? then o.(radio := RXIDLE) else o
    case DISABLE =>
      if o.radio.TXRU? then o.(radio := TXDISABLE)
      else if o.radio.TXDISABLE? then o
      else o.(radio := RXDISABLE)
    case CCASTART => if o.radio.RXIDLE? then o.(radio := CCA_ED, cca := true) else o
    case EDSTART => if o.radio.RXIDLE? then o.(radio := CCA_ED, cca := false) else o
    case CCASTOP => if o.radio.CCA_ED? && o.cca then EventOutline(ppi, supported, o.(radio := RXIDLE)) else o
    case EDSTOP => if o.radio.CCA_ED? && !o.cca then EventOutline(ppi, supported, o.(radio := RXIDLE)) else o
    case RSSISTART => o.(rssiOn := true)
    case RSSISTOP => o.(rssiOn := false)
  }

  function TasksOutline(ppi: seq<seq<Task>>, supported: bool, o: Outline, tasks: seq<Task>): (r: Outline)
    ensures r.next >= o.next
    decreases Left(ppi, o), 2, |tasks|
  {
    if tasks == [] then o else TasksOutline(ppi, supported, TaskOutline(ppi, supported, o, tasks[0]), tasks[1..])
  }

  function EventOutline(ppi: seq<seq<Task>>, supported: bool, o: Outline): (r: Outline)
    ensures r.next > o.next
    decreases Left(ppi, o), 0
  {
    var r := o.(next := o.next + 1);
    if o.next < |ppi| then TasksOutline(ppi, supported, r, ppi[o.next]) else r
  }

  /** The events of the address end, with everything the PPI runs in between. */
  function AddressEndOutline(ppi: seq<seq<Task>>, c: Config, o: Outline): Outline {
    var supported := FormatSupported(c);
    var o := EventOutline(ppi, supported, EventOutline(ppi, supported, o));
    var o := EventOutline(ppi, supported, o.(rssiOn := o.rssiOn || c.shorts.addressRssistart));
    var o := if o.rssiOn then EventOutline(ppi, supported, o) else o;
    if c.matchAddresses then EventOutline(ppi, supported, o) else o
  }

  /** The answer of the Phy changes nothing of that. */
  lemma RxResponseOutline(env: Env, s: State)
    ensures OutlineOf(RxResponse(env, s)) == OutlineOf(s)
  {
    hide Keeps, Inv, Answered, AirTime, RxChainDelay;
  }

  lemma CcaResponseOutline(env: Env, s: State)
    ensures OutlineOf(CcaResponse(env, s)) == OutlineOf(s)
  {
    hide Keeps, Inv, Answered;
  }

  lemma StartRxOutline(env: Env, s: State)
    requires s.m.radio == RXIDLE
    ensures OutlineOf(StartRx(env, s)) == if FormatSupported(s.cfg) then OutlineOf(s).(radio := RX) else OutlineOf(s)
  {
    var rate := BitsPer4us(s.cfg.mode);
    var rx := s.air.rx.(crcDuration := AirTime(rate, s.cfg.crcLen * 8), crcOk := false);
    var u := s.(m := s.m.(radio := RX, reg := RX), air := s.air.(rate := rate, rx := rx, crcStatus := false));
    var v := UpdateAbort(env, u);
    RxResponseOutline(env, v.(m := v.m.(sub := SUB_STATE_INVALID, timer := None)));
    hide Keeps, Inv, Answered, FormatSupported, AirTime, RxResponse;
  }

  lemma StartCcaEdOutline(env: Env, s: State, cca: bool)
    requires s.m.radio == RXIDLE
    ensures OutlineOf(StartCcaEd(env, s, cca)) == OutlineOf(s).(radio := CCA_ED, cca := cca)
  {
    var v := UpdateAbort(env, s.(m := s.m.(radio := CCA_ED), air := s.air.(cca := CcaStatus(cca, false))));
    CcaResponseOutline(env, v.(m := v.m.(timer := Some(v.now + ScanDuration(v.cfg, cca)))));
    hide Keeps, Inv, Answered, CcaResponse, ScanDuration;
  }

  lemma {:induction false} TaskHasOutline(env: Env, s: State, t: Task)
    requires IsReceiving(s.m.radio)
    ensures OutlineOf(DoTask(env, s, t)) == TaskOutline(env.ppi, FormatSupported(s.cfg), OutlineOf(s), t)
    decreases Pending(env, s), 1
  {
    hide Keeps, Inv, Answered, FormatSupported, AirTime, StartRx, StartCcaEd;
    if s.m.radio == RXIDLE {
      StartRxOutline(env, s);
      StartCcaEdOutline(env, s, true);
      StartCcaEdOutline(env, s, false);
    }
    match t
    case DISABLE => assert DoTask(env, s, t) == Disable(env, s);
    case CCASTOP =>
      if s.m.radio == CCA_ED && s.air.cca.ccaNotEd {
        EventHasOutline(env, s.(m := Stopped(s.m)), CCASTOPPED);
      }
    case EDSTOP =>
      if s.m.radio == CCA_ED && !s.air.cca.ccaNotEd {
        EventHasOutline(env, s.(m := Stopped(s.m)), EDSTOPPED);
      }
    case _ =>
  }

  lemma {:induction false} TasksHaveOutline(env: Env, s: State, tasks: seq<Task>)
    requires IsReceiving(s.m.radio)
    ensures OutlineOf(DoTasks(env, s, tasks)) == TasksOutline(env.ppi, FormatSupported(s.cfg), OutlineOf(s), tasks)
    decreases Pending(env, s), 2, |tasks|
  {
    hide DoTask, TaskOutline, Inv, Answered, FormatSupported;
    if tasks != [] {
      TaskHasOutline(env, s, tasks[0]);
      TasksHaveOutline(env, DoTask(env, s, tasks[0]), tasks[1..]);
    }
  }

  lemma {:induction false} EventHasOutline(env: Env, s: State, e: Event)
    requires IsReceiving(s.m.radio)
    ensures OutlineOf(Raise(env, s, e)) == EventOutline(env.ppi, FormatSupported(s.cfg), OutlineOf(s))
    decreases Pending(env, s), 0
  {
    hide DoTasks, TasksOutline, Inv, Answered, FormatSupported;
    var n := s.hist.ppiCalls;
    if n < |env.ppi| {
      TasksHaveOutline(env, Logged(s, e), env.ppi[n]);
    }
  }

  lemma {:induction false} AddressEndHasOutline(env: Env, s: State)
    requires IsReceiving(s.m.radio)
    ensures var r := AddressEndOutline(env.ppi, s.cfg, OutlineOf(s));
      AddressEndTimer(env, s).m.radio == r.radio && IsReceiving(r.radio)
  {
    hide Raise, EventOutline, Inv, Answered, RxResponse, FormatSupported;
    var s0 := s.(m := s.m.(timer := None));
    EventHasOutline(env, s0, SYNC);
    var s1 := Raise(env, s0, SYNC);
    EventHasOutline(env, s1, ADDRESS);
    var s2 := SignalAddress(env, s1);
    EventHasOutline(env, s2, FRAMESTART);
    var s3 := Raise(env, s2, FRAMESTART);
    EventHasOutline(env, s3, RSSIEND);
    var s4 := if s3.rssiOn then Raise(env, s3, RSSIEND) else s3;
    EventHasOutline(env, s4, if s4.air.rx.matched then DEVMATCH else DEVMISS);
  }

  /** The code overwrites the sub-state and the timer after the signals of the address end. The invariant survives
      that exactly when the tasks that the PPI connects to these events do not leave the receiver idle. */
  lemma AddressEndExactly(env: Env, s: State)
    requires Inv(s.m) && AtAddressEnd(s)
    ensures Inv(AddressEndTimer(env, s).m) <==> AddressEndOutline(env.ppi, s.cfg, OutlineOf(s)).radio != RXIDLE
  {
    hide AddressSignals, AddressEndOutline;
    var r := AddressSignals(env, s);
    assert Inv(s.m.(timer := None));
    assert Inv(r.m);
    AddressEndHasOutline(env, s);
  }

  // ---------- Two ways to tell it from the plan at a glance ----------

  /** The tasks connected to the events from the `a`-th to before the `b`-th. */
  ghost predicate Connected(ppi: seq<seq<Task>>, a: nat, b: nat, t: Task) {
    exists k :: a <= k < b && k < |ppi| && t in ppi[k]
  }

  /** Tasks that start nothing. */
  predicate Passive(t: Task) {
    t in {STOP, CCASTOP, EDSTOP, RSSISTART, RSSISTOP}
  }

  predicate Disconnecting(radio: RadioState) {
    radio.RX? || radio.RXDISABLE?
  }

  lemma {:induction false} HarmlessTasks(ppi: seq<seq<Task>>, supported: bool, o: Outline, tasks: seq<Task>)
    requires Disconnecting(o.radio) && STOP !in tasks
    ensures var r := TasksOutline(ppi, supported, o, tasks); Disconnecting(r.radio) && r.next == o.next
    decreases |tasks|
  {
    if tasks != [] {
      HarmlessTasks(ppi, supported, TaskOutline(ppi, supported, o, tasks[0]), tasks[1..]);
    }
  }

  lemma HarmlessEvent(ppi: seq<seq<Task>>, supported: bool, o: Outline, end: nat)
    requires Disconnecting(o.radio) && EventOutline(ppi, supported, o).next <= end && !Connected(ppi, o.next, end, STOP)
    ensures Disconnecting(EventOutline(ppi, supported, o).radio)
    ensures !Connected(ppi, EventOutline(ppi, supported, o).next, end, STOP)
  {
    if o.next < |ppi| {
      HarmlessTasks(ppi, supported, o.(next := o.next + 1), ppi[o.next]);
    }
  }

  /** When none of the events that are raised is connected to STOP, the reception goes on or is being disabled. */
  lemma {:induction false} AddressEndWithoutStop(ppi: seq<seq<Task>>, c: Config, o: Outline)
    requires o.radio == RX && !Connected(ppi, o.next, AddressEndOutline(ppi, c, o).next, STOP)
    ensures Disconnecting(AddressEndOutline(ppi, c, o).radio)
  {
    hide EventOutline, Connected, FormatSupported;
    var f, end := FormatSupported(c), AddressEndOutline(ppi, c, o).next;
    var o1 := EventOutline(ppi, f, o);
    var o2 := EventOutline(ppi, f, o1);
    var o3 := EventOutline(ppi, f, o2.(rssiOn := o2.rssiOn || c.shorts.addressRssistart));
    var o4 := if o3.rssiOn then EventOutline(ppi, f, o3) else o3;
    HarmlessEvent(ppi, f, o, end);
    HarmlessEvent(ppi, f, o1, end);
    HarmlessEvent(ppi, f, o2.(rssiOn := o2.rssiOn || c.shorts.addressRssistart), end);
    if o3.rssiOn {
      HarmlessEvent(ppi, f, o3, end);
    }
    if c.matchAddresses {
      HarmlessEvent(ppi, f, o4, end);
    }
  }

  ghost predicate OnlyPassive(ppi: seq<seq<Task>>, a: nat, b: nat) {
    forall k, t :: a <= k < b && k < |ppi| && t in ppi[k] ==> Passive(t)
  }

  predicate ReceiverOn(radio: RadioState) {
    radio.RX? || radio.RXIDLE?
  }

  lemma {:induction false} PassiveTasks(ppi: seq<seq<Task>>, supported: bool, o: Outline, tasks: seq<Task>)
    requires ReceiverOn(o.radio) && forall t <- tasks :: Passive(t)
    ensures var r := TasksOutline(ppi, supported, o, tasks);
      ReceiverOn(r.radio) && r.next == o.next && (r.radio.RXIDLE? <==> o.radio.RXIDLE? || STOP in tasks)
    decreases |tasks|
  {
    if tasks != [] {
      assert Passive(tasks[0]) && tasks == [tasks[0]] + tasks[1..];
      PassiveTasks(ppi, supported, TaskOutline(ppi, supported, o, tasks[0]), tasks[1..]);
    }
  }

  /** The receiver is on, and idle if and only if STOP is connected to an event since the `from`-th. */
  ghost predicate StoppedSince(ppi: seq<seq<Task>>, from: nat, o: Outline, end: nat) {
    && from <= o.next && ReceiverOn(o.radio) && OnlyPassive(ppi, o.next, end)
    && (o.radio.RXIDLE? <==> Connected(ppi, from, o.next, STOP))
  }

  lemma PassiveEvent(ppi: seq<seq<Task>>, supported: bool, from: nat, o: Outline, end: nat)
    requires StoppedSince(ppi, from, o, end) && EventOutline(ppi, supported, o).next <= end
    ensures StoppedSince(ppi, from, EventOutline(ppi, supported, o), end)
  {
    if o.next < |ppi| {
      PassiveTasks(ppi, supported, o.(next := o.next + 1), ppi[o.next]);
    }
  }

  /** When the events that are raised are connected to tasks that start nothing, the receiver is left idle if and only
      if one of these events is connected to STOP. */
  lemma {:induction false} StopAtAddressEnd(ppi: seq<seq<Task>>, c: Config, o: Outline)
    requires o.radio == RX && OnlyPassive(ppi, o.next, AddressEndOutline(ppi, c, o).next)
    ensures var r := AddressEndOutline(ppi, c, o);
      r.radio == RXIDLE <==> Connected(ppi, o.next, r.next, STOP)
  {
    var f, end := FormatSupported(c), AddressEndOutline(ppi, c, o).next;
    var from := o.next;
    assert StoppedSince(ppi, from, o, end);
    hide EventOutline, FormatSupported, Connected, OnlyPassive;
    var o1 := EventOutline(ppi, f, o);
    var o2 := EventOutline(ppi, f, o1);
    var o2' := o2.(rssiOn := o2.rssiOn || c.shorts.addressRssistart);
    var o3 := EventOutline(ppi, f, o2');
    var o4 := if o3.rssiOn then EventOutline(ppi, f, o3) else o3;
    PassiveEvent(ppi, f, from, o, end);
    PassiveEvent(ppi, f, from, o1, end);
    assert StoppedSince(ppi, from, o2', end);
    PassiveEvent(ppi, f, from, o2', end);
    if o3.rssiOn {
      PassiveEvent(ppi, f, from, o3, end);
    }
    if c.matchAddresses {
      PassiveEvent(ppi, f, from, o4, end);
    }
  }

  // ---------- All runs ----------

  /** At the end of an address, what the PPI connects to its events does not leave the receiver idle. */
  predicate SafeAtAddressEnd(env: Env, s: State) {
    AtAddressEnd(s) ==> AddressEndOutline(env.ppi, s.cfg, OutlineOf(s)).radio != RXIDLE
  }

  /** Timers expire only when armed. */
  predicate Possible(env: Env, s: State, step: Step) {
    match step
    case MainTimerReached => s.m.timer.Some? && SafeAtAddressEnd(env, s)
    case AbortTimerReached => s.m.abortTimer.Some?
    case _ => true
  }

  predicate PossibleRun(env: Env, s: State, steps: seq<Step>)
    decreases |steps|
  {
    steps == [] || (Possible(env, s, steps[0]) && PossibleRun(env, Do(env, s, steps[0]), steps[1..]))
  }

  lemma MainTimerIsSafe(env: Env, s: State)
    requires Inv(s.m) && Fine(s.fault) && s.m.timer.Some? && SafeAtAddressEnd(env, s)
    ensures var r := MainTimer(env, s); Inv(r.m) && Fine(r.fault)
  {
    hide AddressEndTimer, AddressEndOutline;
    if AtAddressEnd(s) {
      AddressEndExactly(env, s);
      assert MainTimer(env, s) == RxTimer(env, s) == AddressEndTimer(env, s);
    }
  }

  lemma StepIsSafe(env: Env, s: State, step: Step)
    requires Inv(s.m) && Fine(s.fault) && Possible(env, s, step)
    ensures var r := Do(env, s, step); Inv(r.m) && Fine(r.fault)
  {
    hide MainTimer, AbortTimer, DoTask, Raise, PowerOn, AddressEndOutline;
    if s.fault == NoFault && step == MainTimerReached {
      var t := At(s, s.m.timer);
      assert OutlineOf(t) == OutlineOf(s);
      MainTimerIsSafe(env, t);
    }
  }

  /** In every run from boot, whatever interleaving: STATE mirrors the machine, both timers are only armed where
      they have something to do, and neither error branch is ever reached. */
  lemma {:induction false} AllRunsAreSafe(env: Env, s: State, steps: seq<Step>)
    requires s == BOOT || (Inv(s.m) && Fine(s.fault))
    requires PossibleRun(env, s, steps)
    ensures var r := Run(env, s, steps);
      && Inv(r.m) && Fine(r.fault) && r.fault != StrayTimer && r.fault != StrayAbortTimer
      && r.m.reg == (match r.m.radio case TXSTARTING => TX case CCA_ED => RXIDLE case other => other)
    decreases |steps|
  {
    hide Do;
    if steps != [] {
      StepIsSafe(env, s, steps[0]);
      AllRunsAreSafe(env, Do(env, s, steps[0]), steps[1..]);
    }
  }

  /** A task that stops what the Phy is doing decides to abort, if the Phy waits for a decision. */
  lemma StoppingDecidesToAbort(env: Env, s: State, t: Task)
    requires s.m.radio in {TX, RX, CCA_ED} && s.m.abort != NoPendingAbortReeval
    requires t == STOP || t == DISABLE
    ensures DoTask(env, s, t).m.abortingSet
  {
    assert DoTask(env, s, t) == if t == STOP then Stop(s) else Disable(env, s);
  }

  /** In every run such a decision, once taken, reaches the Phy: the next time the Phy is told anything, it is told to
      abort at that moment. */
  lemma {:induction false} DecisionsReachThePhy(env: Env, s: State, steps: seq<Step>)
    ensures Answered(s, Run(env, s, steps))
    decreases |steps|
  {
    hide Do;
    if steps != [] {
      StepAnswers(env, s, steps[0]);
      DecisionsReachThePhy(env, Do(env, s, steps[0]), steps[1..]);
    }
  }

  lemma StepAnswers(env: Env, s: State, step: Step)
    ensures Answered(s, Do(env, s, step))
  {
    hide MainTimer, AbortTimer, DoTask, Raise, PowerOn;
  }

  // ---------- Two things that do not hold ----------

  const SYNC_CONFIG := RESET_CONFIG.(mode := Ble1M, pcnfSupported := true, crcLen := 3, maxLen := 255,
                                     shorts := NO_SHORTS.(readyStart := true))

  /** STOP connected to SYNC: the receiver is stopped at the end of the address, yet its timer is armed again, and the
      next time it expires the error branch is reached. */
  lemma StopAtSyncIsFatal(env: Env)
    requires env.ppi == [[], [], [STOP]]
    requires env.phy(0) == AddressFound(400, 10, false, 0) && env.phy(1) == Silence
    ensures Run(env, BOOT, [Configured(SYNC_CONFIG), TaskTriggered(0, RXEN),
                            MainTimerReached, MainTimerReached, MainTimerReached]).fault == StrayTimer
  {
    hide Do;
    var s1 := Do(env, BOOT, Configured(SYNC_CONFIG));
    var s2 := Do(env, s1, TaskTriggered(0, RXEN));
    RampingUpFromBoot(env);
    WaitingForAddress(env, s2);
    var s3 := Do(env, s2, MainTimerReached);
    StoppedAtSync(env, s3);
    IdleTimerIsFatal(env, Do(env, s3, MainTimerReached));
    var t := [MainTimerReached, MainTimerReached, MainTimerReached];
    RunThree(env, s2);
    var steps := [Configured(SYNC_CONFIG), TaskTriggered(0, RXEN)] + t;
    assert steps[1..] == [TaskTriggered(0, RXEN)] + t && steps[1..][1..] == t;
    assert Run(env, s1, steps[1..]) == Run(env, s2, t);
  }

  lemma RampingUpFromBoot(env: Env)
    ensures var r := Do(env, Do(env, BOOT, Configured(SYNC_CONFIG)), TaskTriggered(0, RXEN));
      r.m == BOOT.m.(radio := RXRU, reg := RXRU, timer := Some(129)) && r.cfg == SYNC_CONFIG && r.hist == BOOT.hist
      && r.fault == NoFault && !r.rssiOn
  {
    var s := Do(env, BOOT, Configured(SYNC_CONFIG));
    assert Do(env, s, TaskTriggered(0, RXEN)) == Rxen(s.(now := 0));
  }

  lemma IdleTimerIsFatal(env: Env, s: State)
    requires s.m.radio == RXIDLE && s.m.timer.Some? && s.fault == NoFault
    ensures Do(env, s, MainTimerReached).fault == StrayTimer
  {
  }

  lemma RunThree(env: Env, s: State)
    ensures Run(env, s, [MainTimerReached, MainTimerReached, MainTimerReached])
         == Do(env, Do(env, Do(env, s, MainTimerReached), MainTimerReached), MainTimerReached)
  {
    hide Do;
    var t := [MainTimerReached, MainTimerReached, MainTimerReached];
    assert t[1..] == [MainTimerReached, MainTimerReached] && t[1..][1..] == [MainTimerReached];
    var s1 := Do(env, s, MainTimerReached);
    assert Run(env, s1, t[1..]) == Run(env, Do(env, s1, MainTimerReached), t[1..][1..]);
  }

  lemma WaitingForAddress(env: Env, s: State)
    requires env.ppi == [[], [], [STOP]] && env.phy(0) == AddressFound(400, 10, false, 0)
    requires s.m.radio == RXRU && s.m.timer.Some? && s.fault == NoFault && !s.rssiOn
    requires s.hist == History(0, [], 0, []) && s.m.abort == NoPendingAbortReeval
    requires FormatSupported(s.cfg) && s.cfg.mode == Ble1M && s.cfg.maxLen == 255 && !s.cfg.crcInc
    requires !s.cfg.matchAddresses
    requires s.cfg.shorts == NO_SHORTS.(readyStart := true)
    ensures var r := Do(env, s, MainTimerReached);
      AtAddressEnd(r) && r.m.timer == Some(409) && r.hist.ppiCalls == 2 && r.hist.phyCalls == 1
      && r.cfg == s.cfg && !r.rssiOn && r.fault == NoFault && !r.air.rx.rejected
  {
    var s0 := At(s, s.m.timer);
    var s1 := s0.(m := Halted(s0.m, RXIDLE));
    QuietEvent(env, s1, READY);
    var s2 := StartRx(env, Logged(s1, READY));
    assert SignalReady(env, s1) == s2;
    assert AtAddressEnd(s2) && s2.hist.ppiCalls == 1;
    QuietEvent(env, s2, RXREADY);
    assert SignalRxReady(env, s2) == Logged(s2, RXREADY);
  }

  lemma StoppedAtSync(env: Env, s: State)
    requires env.ppi == [[], [], [STOP]] && env.phy(1) == Silence
    requires AtAddressEnd(s) && s.m.timer.Some? && s.fault == NoFault && !s.rssiOn && !s.cfg.matchAddresses
    requires s.hist.ppiCalls == 2 && s.hist.phyCalls == 1 && !s.air.rx.rejected
    requires s.cfg.shorts == NO_SHORTS.(readyStart := true)
    ensures var r := Do(env, s, MainTimerReached); r.m.radio == RXIDLE && r.m.timer.Some? && r.fault == NoFault
  {
    var s0 := At(s, s.m.timer);
    var s1 := s0.(m := s0.m.(timer := None), hist := s0.hist.(log := s0.hist.log + [(s0.now, SYNC)], ppiCalls := 3));
    assert DoTasks(env, s1, [STOP]) == DoTasks(env, DoTask(env, s1, STOP), []) == Stop(s1);
    assert Raise(env, s0.(m := s0.m.(timer := None)), SYNC) == Stop(s1);
    var s2 := SignalAddress(env, Stop(s1));
    assert s2.m.radio == RXIDLE && s2.hist.ppiCalls == 4;
    var s3 := Raise(env, s2, FRAMESTART);
    assert s3.m.radio == RXIDLE && s3.air.rx == s.air.rx && !s3.rssiOn;
    assert AddressSignals(env, s0) == AddressReceived(env, s3);
    assert Do(env, s, MainTimerReached) == AddressEndTimer(env, s0);
  }

  /** DISABLE while already ramping down clears the timer of the ramp-down exactly when a turnaround is pending. */
  lemma DisableDuringRampDown(env: Env, s: State)
    requires s.m.radio in {TXDISABLE, RXDISABLE} && s.m.timer.Some?
    ensures var r := Disable(env, s);
      r.m.radio == s.m.radio && (r.m.timer == s.m.timer <==> s.m.tifs == TIFS_DISABLE)
  {
  }
}
