/**
 The GPIO: two ports whose inputs, sense outputs, latches and outputs are evaluated again after every change. An
 evaluation calls back whoever listens to a pin, and a callback may change other pins, of the same port too, while the
 evaluation is under way. Bit masks over pins are sets of pin numbers.
 */
module Gpio {
  import opened Common
  import opened Histories

  const N_PORTS: nat := 2

  function NPins(port: nat): nat {
    if port == 0 then 32 else 10
  }

  /** PIN_CNF: DIR, INPUT (disconnected), and the two bits of SENSE. */
  datatype PinCnf = PinCnf(output: bool, disconnected: bool, sense: bool, senseLow: bool)

  /** What software writes, with the masks derived from PIN_CNF. */
  datatype Registers = Registers(out: set<nat>, dir: set<nat>, latchedMode: bool, pinCnf: seq<PinCnf>,
                                 inputMask: set<nat>, senseMask: set<nat>, senseInv: set<nat>)

  /** What other peripherals have taken over. */
  datatype Overrides = Overrides(out: set<nat>, input: set<nat>, connected: set<nat>, dir: set<nat>, driven: set<nat>)

  /** The sense output, what is latched of it, LATCH, and the detect signal to GPIOTE. */
  datatype Sense = Sense(detect: set<nat>, ldetect: set<nat>, latch: set<nat>, signal: bool)

  /** How often PORT was raised; all values that the detect signal was given, in order; and for every write to LATCH
      whether it cleared something and, in latched mode, left bits set. */
  datatype Counts = Counts(raised: nat, signals: seq<bool>, clears: seq<bool>)

  datatype Port = Port(regs: Registers, own: Overrides, externalOut: set<nat>, ioLevel: set<nat>, oLevel: set<nat>,
                       input: set<nat>, sense: Sense, counts: Counts)

  function Xor(a: set<nat>, b: set<nat>): set<nat> {
    (a - b) + (b - a)
  }

  /** `b` where `mask`, and `a` elsewhere. */
  function Override(mask: set<nat>, a: set<nat>, b: set<nat>): set<nat> {
    (a - mask) + (mask * b)
  }

  /** `pins` with pin `n` as given. */
  function With(pins: set<nat>, n: nat, on: bool): set<nat> {
    if on then pins + {n} else pins - {n}
  }

  function PinsBelow(n: nat): (pins: set<nat>)
    ensures forall k :: k in pins <==> 0 <= k < n
  {
    if n == 0 then {} else PinsBelow(n - 1) + {n - 1}
  }

  /** The pins whose input buffer is connected, out of some. */
  function EnabledOf(p: Port, pins: set<nat>): set<nat> {
    (pins - p.own.input - p.regs.inputMask) + (pins * p.own.input * p.own.connected)
  }

  function Dir(p: Port): set<nat> {
    Override(p.own.dir, p.regs.dir, p.own.driven)
  }

  function Driven(p: Port): set<nat> {
    Dir(p) * Override(p.own.out, p.regs.out, p.externalOut)
  }

  function Sensed(p: Port): set<nat> {
    Xor(p.input, p.regs.senseInv) * p.regs.senseMask
  }

  function DetectSignal(latchedMode: bool, s: Sense): bool {
    if latchedMode then s.ldetect != {} else s.detect != {}
  }

  /** How often a signal went from low to high. */
  function Rises(signals: seq<bool>): nat {
    if |signals| < 2 then 0
    else
      var n := |signals| - 1;
      Rises(signals[..n]) + if !signals[n - 1] && signals[n] then 1 else 0
  }

  function Trues(s: seq<bool>): nat {
    if s == [] then 0 else Trues(s[..|s| - 1]) + if s[|s| - 1] then 1 else 0
  }

  lemma RisesWithOneMore(signals: seq<bool>, b: bool)
    requires signals != []
    ensures Rises(signals + [b]) == Rises(signals) + if !signals[|signals| - 1] && b then 1 else 0
  {
    assert (signals + [b])[..|signals|] == signals;
  }

  lemma TruesWithOneMore(s: seq<bool>, b: bool)
    ensures Trues(s + [b]) == Trues(s) + if b then 1 else 0
  {
    assert (s + [b])[..|s|] == s;
  }

  // ---------- The quiescent invariant, in parts ----------

  /** DIR and the masks mirror PIN_CNF. */
  predicate Mirrored(r: Registers, n: nat) {
    && |r.pinCnf| == 32 && n <= 32
    && (forall k :: 0 <= k < n ==> (k in r.dir <==> r.pinCnf[k].output))
    && (forall k :: 0 <= k < n ==> (k in r.inputMask <==> r.pinCnf[k].disconnected))
    && (forall k :: 0 <= k < n ==> (k in r.senseMask <==> r.pinCnf[k].sense))
    && (forall k :: 0 <= k < n ==> (k in r.senseInv <==> r.pinCnf[k].senseLow))
  }

  /** PORT was raised exactly once for every rising edge that the detect signal ever had, and for every clear of LATCH
      that left bits set in latched mode. */
  predicate RaisedForEdges(p: Port) {
    && p.counts.signals != [] && p.counts.signals[|p.counts.signals| - 1] == p.sense.signal
    && p.counts.raised == Rises(p.counts.signals) + Trues(p.counts.clears)
  }

  /** Holds at all times: LATCH shows the latched detect, which includes the sensed one. */
  predicate Base(p: Port, n: nat) {
    && Mirrored(p.regs, n)
    && p.sense.latch == p.sense.ldetect && p.sense.detect <= p.sense.ldetect
    && RaisedForEdges(p)
  }

  /** IN shows the levels of the connected pins. */
  predicate InputSettled(p: Port) {
    p.input == EnabledOf(p, p.ioLevel)
  }

  /** The levels last driven are those that OUT and DIR ask for. */
  predicate OutputSettled(p: Port) {
    p.oLevel == Driven(p)
  }

  predicate SenseSettled(p: Port) {
    p.sense.detect == Sensed(p) && p.sense.signal == DetectSignal(p.regs.latchedMode, p.sense)
  }

  predicate Settled(p: Port) {
    InputSettled(p) && SenseSettled(p)
  }

  /** What every evaluation, and so every callback, does to a port: it does not unsettle it, writes no register, and
      clears no latched bit. */
  predicate Continues(a: Port, b: Port) {
    && (InputSettled(a) ==> InputSettled(b)) && (Settled(a) ==> Settled(b)) && (OutputSettled(a) ==> OutputSettled(b))
    && a.regs == b.regs && a.own == b.own && a.sense.ldetect <= b.sense.ldetect
    && a.counts.signals <= b.counts.signals && a.counts.clears == b.counts.clears
  }

  /** Between two moments PORT was raised exactly for the rising edges in between. */
  predicate RaisedBetween(a: Port, b: Port) {
    && a.counts.signals <= b.counts.signals
    && b.counts.raised - a.counts.raised == Rises(b.counts.signals) - Rises(a.counts.signals)
  }

  // ---------- Evaluations, when no callback interferes ----------

  function SenseEvaluated(p: Port): (r: Port)
    ensures SenseSettled(r) && r == p.(sense := r.sense, counts := r.counts)
    ensures forall n :: Base(p, n) ==> Base(r, n)
    ensures p.sense.ldetect <= r.sense.ldetect
    ensures r.counts.signals == p.counts.signals + [r.sense.signal] && r.counts.clears == p.counts.clears
    ensures r.counts.raised == p.counts.raised + if r.sense.signal && !p.sense.signal then 1 else 0
  {
    var l := p.sense.ldetect + Sensed(p);
    var s := Sense(Sensed(p), l, l, p.sense.signal);
    var s := s.(signal := DetectSignal(p.regs.latchedMode, s));
    var edge := if s.signal && !p.sense.signal then 1 else 0;
    assert RaisedForEdges(p) ==> Rises(p.counts.signals + [s.signal]) == Rises(p.counts.signals) + edge by {
      if RaisedForEdges(p) {
        RisesWithOneMore(p.counts.signals, s.signal);
      }
    }
    p.(sense := s, counts := p.counts.(signals := p.counts.signals + [s.signal], raised := p.counts.raised + edge))
  }

  function InputsEvaluated(p: Port): (r: Port)
    ensures Settled(r) && r == p.(input := EnabledOf(p, p.ioLevel), sense := r.sense, counts := r.counts)
  {
    SenseEvaluated(p.(input := EnabledOf(p, p.ioLevel)))
  }

  function OutputsEvaluated(p: Port): (r: Port)
    ensures r.regs == p.regs && r.own == p.own && r.oLevel == Driven(p)
    ensures Settled(p) || Driven(p) != p.oLevel ==> Settled(r)
  {
    if Driven(p) == p.oLevel then p
    else InputsEvaluated(p.(oLevel := Driven(p), ioLevel := Override(Dir(p), p.ioLevel, Driven(p))))
  }

  /** Once evaluated, evaluating again changes nothing: PORT is not raised twice for one edge. */
  lemma EvaluatedOnce(p: Port)
    ensures var r := InputsEvaluated(p);
      InputsEvaluated(r) == r.(counts := r.counts.(signals := r.counts.signals + [r.sense.signal]))
    ensures OutputsEvaluated(OutputsEvaluated(p)) == OutputsEvaluated(p)
  {
    var r := InputsEvaluated(p);
    assert r.sense.ldetect + r.sense.detect == r.sense.ldetect;
    hide Override, Xor;
  }

  // ---------- Pin by pin ----------

  /** What a settled port shows of a pin, by its PIN_CNF and the level outside: IN shows the level when the input buffer
      is connected, which the peripheral that has taken the input over decides, if there is one; DETECT shows a pin with
      SENSE high when IN is high, one with SENSE low when it is low, and no other. */
  lemma PinShows(p: Port, pins: nat, k: nat)
    requires Base(p, pins) && Settled(p) && k < pins
    ensures var cnf := p.regs.pinCnf[k];
      && (k in p.input <==> k in p.ioLevel && if k in p.own.input then k in p.own.connected else !cnf.disconnected)
      && (cnf.sense && !cnf.senseLow ==> (k in p.sense.detect <==> k in p.input))
      && (cnf.sense && cnf.senseLow ==> (k in p.sense.detect <==> k !in p.input))
      && (!cnf.sense ==> k !in p.sense.detect)
      && (k in p.sense.detect ==> k in p.sense.latch)
  {
  }

  /** What each DETECTMODE makes of it: the signal is high when some pin is sensed, or, in latched mode, when some bit
      of LATCH is set. */
  lemma SignalShows(p: Port, pins: nat)
    requires Base(p, pins) && Settled(p)
    ensures !p.regs.latchedMode ==> (p.sense.signal <==> exists k :: k in p.sense.detect)
    ensures p.regs.latchedMode ==> (p.sense.signal <==> exists k :: k in p.sense.latch)
  {
    assert p.sense.detect == {} <==> !exists k :: k in p.sense.detect;
    assert p.sense.latch == {} <==> !exists k :: k in p.sense.latch;
  }

  /** A pin is driven as DIR says, unless a peripheral has taken its direction over. */
  predicate IsOutput(p: Port, k: nat) {
    if k in p.own.dir then k in p.own.driven else k in p.regs.dir
  }

  /** It is driven to what OUT says, unless a peripheral has taken its output over. */
  predicate IsHigh(p: Port, k: nat) {
    if k in p.own.out then k in p.externalOut else k in p.regs.out
  }

  lemma PinIsDriven(p: Port, k: nat)
    ensures k in Dir(p) <==> IsOutput(p, k)
    ensures k in Driven(p) <==> IsOutput(p, k) && IsHigh(p, k)
    ensures OutputSettled(p) ==> (k in p.oLevel <==> IsOutput(p, k) && IsHigh(p, k))
  {
  }

  /** After an evaluation in which some driven level has changed, every output has the level that it is driven to, and
      every other pin the level that it had. */
  lemma OutputsHaveTheirLevel(p: Port, k: nat)
    requires Driven(p) != p.oLevel
    ensures k in OutputsEvaluated(p).ioLevel <==> if IsOutput(p, k) then IsHigh(p, k) else k in p.ioLevel
  {
    PinIsDriven(p, k);
  }

  /** So the pins that are driven have the level they are driven to exactly when some driven level had changed or they
      had it before: an unchanged driven level is not propagated again. */
  lemma DrivenPinsHaveTheirLevel(p: Port)
    ensures (forall k :: IsOutput(p, k) ==> (k in OutputsEvaluated(p).ioLevel <==> IsHigh(p, k)))
       <==> Driven(p) != p.oLevel || forall k :: IsOutput(p, k) ==> (k in p.ioLevel <==> IsHigh(p, k))
  {
    if Driven(p) != p.oLevel {
      forall k | IsOutput(p, k)
        ensures k in OutputsEvaluated(p).ioLevel <==> IsHigh(p, k)
      {
        OutputsHaveTheirLevel(p, k);
      }
    }
  }

  /** What a peripheral takes over of a pin, part by part: a part that is given is the peripheral's from then on, or is
      released; a part that is not given, and every other pin, stays. */
  lemma ClaimedPin(own: Overrides, n: nat, output: Option<bool>, input: Option<Control>, dir: Option<Control>, k: nat)
    ensures var r := Claimed(own, n, output, input, dir);
      && (k in r.out <==> if k == n && output.Some? then output.value else k in own.out)
      && (k in r.input <==> if k == n && input.Some? then input.value != Released else k in own.input)
      && (k in r.connected <==> if k == n && input.Some? then input.value == Connected else k in own.connected)
      && (k in r.dir <==> if k == n && dir.Some? then dir.value != Released else k in own.dir)
      && (k in r.driven <==> if k == n && dir.Some? then dir.value == Connected else k in own.driven)
  {
  }

  lemma SameSets(a: set<nat>, b: set<nat>)
    requires Xor(a, b) == {}
    ensures a == b
  {
    assert forall x <- a :: x in b || x in a - b;
    assert forall x <- b :: x in a || x in b - a;
  }

  /** Out of reset all pins are disconnected. */
  function ResetPort(): Port {
    Port(Registers({}, {}, false, seq(32, _ => PinCnf(false, true, false, false)), PinsBelow(32), {}, {}),
         Overrides({}, {}, {}, {}, {}), {}, {}, {}, {}, Sense({}, {}, {}, false), Counts(0, [false], []))
  }

  lemma ResetIsSettled(n: nat)
    requires n <= 32
    ensures Base(ResetPort(), n) && Settled(ResetPort()) && OutputSettled(ResetPort())
  {
    hide PinsBelow;
  }

  // ---------- The peripheral ----------

  /** What a callback may do: drive a pin from outside, or change an output that its peripheral owns. */
  datatype Action = DriveInput(port: nat, n: nat, level: bool) | ChangeOutput(port: nat, n: nat, level: bool)

  /** What a peripheral does with a pin: leaves it to the GPIO, or takes it over disconnected or connected. */
  datatype Control = Released | Disconnected | Connected

  predicate PinExists(port: nat, n: nat) {
    port < N_PORTS && n < NPins(port)
  }

  class Peripheral {
    /** The k-th callback does `plan[k]`. */
    const plan: seq<seq<Action>>
    var ports: seq<Port>
    var calls: nat
    ghost var history: seq<Done<Action>>

    ghost predicate PlanExists() {
      forall k, a :: 0 <= k < |plan| && a in plan[k] ==> PinExists(a.port, a.n)
    }

    /** Callbacks that have not come yet have done nothing. */
    ghost predicate Shaped()
      reads this
    {
      && PlanExists() && |ports| == N_PORTS && (forall p :: 0 <= p < N_PORTS ==> Base(ports[p], NPins(p)))
      && NothingFrom(history, calls)
    }

    /** Every callback since has done all that it does, in order. */
    twostate predicate Called()
      reads this
    {
      Performed(plan, old(history), old(calls), history, calls)
    }

    /** The same inside of an action of a callback. */
    twostate predicate CalledBy(d: Done<Action>)
      reads this
    {
      PerformedAnd(plan, old(history), old(calls), history, calls, d)
    }

    /** Between top-level operations everything is settled. */
    ghost predicate Valid()
      reads this
    {
      Shaped() && forall p :: 0 <= p < N_PORTS ==> Settled(ports[p]) && OutputSettled(ports[p])
    }

    ghost function Remaining(): nat
      reads this
    {
      if calls < |plan| then |plan| - calls else 0
    }

    twostate predicate Kept()
      reads this
    {
      && |ports| == old(|ports|) && Remaining() <= old(Remaining())
      && forall p :: 0 <= p < |ports| ==> Continues(old(ports[p]), ports[p])
    }

    /** On every port PORT was raised exactly for the rising edges of its detect signal since. */
    twostate predicate PortsRaised()
      reads this
    {
      |ports| == old(|ports|) && forall p :: 0 <= p < |ports| ==> RaisedBetween(old(ports[p]), ports[p])
    }

    twostate lemma KeptRaises()
      requires old(Shaped()) && Shaped() && Kept()
      ensures PortsRaised()
    {
      hide Mirrored, Rises, Trues;
      forall p | 0 <= p < |ports|
        ensures RaisedBetween(old(ports[p]), ports[p])
      {
        assert old(Base(ports[p], NPins(p))) && Base(ports[p], NPins(p));
      }
    }

    constructor (plan: seq<seq<Action>>)
      requires forall k, a :: 0 <= k < |plan| && a in plan[k] ==> PinExists(a.port, a.n)
      ensures Valid() && this.plan == plan && calls == 0 && history == []
      ensures forall q :: 0 <= q < N_PORTS ==> var p := ports[q];
        && p.regs.pinCnf == seq(32, _ => PinCnf(false, true, false, false)) && p.regs.out == {} && !p.regs.latchedMode
        && p.ioLevel == p.sense.latch == {} && p.counts.raised == 0
    {
      this.plan, calls, history := plan, 0, [];
      ports := [ResetPort(), ResetPort()];
      ResetIsSettled(NPins(0));
      ResetIsSettled(NPins(1));
      hide ResetPort, Base, Settled;
    }

    /** Whoever listens is called back, and does what is planned. */
    method CallBack()
      requires Shaped()
      modifies this
      ensures Shaped() && Kept() && Called() && calls > old(calls)
      ensures old(Remaining()) == 0 ==> ports == old(ports) && calls == old(calls) + 1
      decreases Remaining(), 0
    {
      hide Base, EnabledOf, Sensed, By, NothingFrom, Performed, PerformedAnd, Performing;
      ghost var before, k := history, calls;
      calls := calls + 1;
      var n := calls - 1;
      if n < |plan| {
        StartsPerforming(plan, before, k);
        var i := 0;
        while i < |plan[n]|
          invariant 0 <= i <= |plan[n]| && Shaped() && Kept() && Remaining() < old(Remaining())
          invariant calls > k && Performing(plan, before, k, history, calls, i)
          decreases |plan[n]| - i
        {
          ghost var between, started := history, calls;
          assert plan[n][i] in plan[n];
          match plan[n][i] {
            case DriveInput(port, pin, level) => EvalInput(port, pin, level, Some(k));
            case ChangeOutput(port, pin, level) => PeriChangeOutput(port, pin, level, Some(k));
          }
          PerformsOneMore(plan, before, k, between, started, i, history, calls);
          i := i + 1;
        }
        HasPerformed(plan, before, k, history, calls);
      } else {
        NothingPlanned(plan, before, k);
      }
    }

    ghost method Record(d: Done<Action>)
      requires NothingFrom(history, calls) && (d.who.Some? ==> d.who.value < calls)
      modifies `history
      ensures NothingFrom(history, calls) && history == old(history) + [d]
    {
      RecordedNothingFrom(history, calls, d);
      history := history + [d];
    }

    /** The lowest pin of a mask. */
    static method Lowest(pins: set<nat>) returns (n: nat)
      requires pins != {}
      ensures n in pins && forall k <- pins :: n <= k
    {
      n := 0;
      ghost var some :| some in pins;
      while n !in pins
        invariant forall k <- pins :: n <= k
        decreases some - n
      {
        n := n + 1;
      }
    }

    /** GPIOTE raises PORT, and the PPI what is connected to it. */
    method RaisePort(port: nat, ghost p: Port)
      requires |ports| == N_PORTS && port < N_PORTS && PlanExists()
      requires p == ports[port].(counts := ports[port].counts.(raised := ports[port].counts.raised + 1))
      requires Base(p, NPins(port)) && forall q :: 0 <= q < N_PORTS && q != port ==> Base(ports[q], NPins(q))
      requires NothingFrom(history, calls)
      modifies this
      ensures Shaped() && Remaining() <= old(Remaining()) && Called() && calls > old(calls)
      ensures forall q :: 0 <= q < N_PORTS ==> Continues(if q == port then p else old(ports[q]), ports[q])
      ensures old(Remaining()) == 0 ==> ports == old(ports)[port := p] && calls == old(calls) + 1
      decreases Remaining(), 1
    {
      hide Base, EnabledOf, Sensed, Performed, NothingFrom;
      ports := ports[port := ports[port].(counts := ports[port].counts.(raised := ports[port].counts.raised + 1))];
      CallBack();
    }

    /** Senses the inputs; a rising detect signal raises PORT. */
    method EvalSense(port: nat)
      requires Shaped() && port < N_PORTS && InputSettled(ports[port])
      modifies this
      ensures Shaped() && Kept() && Settled(ports[port]) && PortsRaised() && Called()
      ensures old(Remaining()) == 0 ==> ports == old(ports)[port := SenseEvaluated(old(ports[port]))]
      ensures old(Remaining()) == 0 ==>
        calls - old(calls) == ports[port].counts.raised - old(ports[port]).counts.raised
      decreases Remaining(), 2
    {
      hide Base, InputSettled, Settled, OutputSettled, Continues, RaisedBetween, SenseEvaluated, Performed, NothingFrom;
      ghost var before, p, r := ports, ports[port], SenseEvaluated(ports[port]);
      SenseContinues(ports, p, NPins(port));
      NothingPerformed(plan, history, calls);
      var rising := UpdateDetect(port);
      if rising {
        RaisePort(port, r);
        ContinuesThen(p, r, ports[port]);
      }
      assert forall q :: 0 <= q < N_PORTS ==> Continues(before[q], ports[q]);
      KeptRaises();
    }

    static lemma SenseContinues(ports: seq<Port>, p: Port, pins: nat)
      requires Base(p, pins) && InputSettled(p)
      ensures var r := SenseEvaluated(p); Base(r, pins) && Continues(p, r) && Settled(r)
      ensures SenseEvaluated(p).counts.raised
           == p.counts.raised + if SenseEvaluated(p).sense.signal && !p.sense.signal then 1 else 0
      ensures forall q <- ports :: Continues(q, q)
    {
      hide Base;
    }

    static lemma ContinuesThen(p: Port, r: Port, q: Port)
      requires Continues(p, r) && Continues(r, q) && Settled(r)
      ensures Continues(p, q) && Settled(q)
    {
      hide InputSettled, OutputSettled, Sensed;
    }

    /** What is sensed, what is latched of it, and the detect signal. */
    method UpdateDetect(port: nat) returns (rising: bool)
      requires |ports| == N_PORTS && port < N_PORTS
      modifies `ports
      ensures var p := old(ports[port]);
        var r := SenseEvaluated(p);
        && ports == old(ports)[port := r.(counts := r.counts.(raised := p.counts.raised))]
        && rising == (r.sense.signal && !p.sense.signal)
    {
      var p := ports[port];
      var s := p.sense.(detect := Sensed(p));
      s := s.(ldetect := s.ldetect + s.detect);
      s := s.(latch := s.ldetect);
      s := s.(signal := DetectSignal(p.regs.latchedMode, s));
      ports := ports[port := p.(sense := s, counts := p.counts.(signals := p.counts.signals + [s.signal]))];
      rising := s.signal && !p.sense.signal;
    }

    /** Two listen to an input. */
    method CallBackTwice()
      requires Shaped()
      modifies this
      ensures Shaped() && Kept() && Called() && calls >= old(calls) + 2
      ensures old(Remaining()) == 0 ==> ports == old(ports) && calls == old(calls) + 2
      decreases Remaining(), 1
    {
      hide Base, EnabledOf, Sensed, Performed, NothingFrom;
      CallBack();
      ghost var between, k := history, calls;
      CallBack();
      PerformedThen(plan, old(history), old(calls), between, k, history, calls);
    }

    /** Recalculates IN, calls back twice for every input that changed, and senses. */
    method EvalInputs(port: nat)
      requires Shaped() && port < N_PORTS
      modifies this
      ensures Shaped() && Kept() && Settled(ports[port]) && PortsRaised() && Called()
      ensures calls >= old(calls) + 2 * old(|Xor(EnabledOf(ports[port], ports[port].ioLevel), ports[port].input)|)
      ensures old(Remaining()) == 0 ==> ports == old(ports)[port := InputsEvaluated(old(ports[port]))]
      ensures old(Remaining()) == 0 ==>
        calls - old(calls) == 2 * |Xor(ports[port].input, old(ports[port]).input)|
                              + ports[port].counts.raised - old(ports[port]).counts.raised
      decreases Remaining(), 3
    {
      hide EnabledOf, Xor, Sensed, Base, InputSettled, SenseSettled, OutputSettled, Performed, NothingFrom,
        RaisedBetween;
      var p := ports[port];
      InputUpdated(p, NPins(port));
      var newInput := EnabledOf(p, p.ioLevel);
      var diff := Xor(newInput, p.input);
      ports := ports[port := p.(input := newInput)];
      ghost var before, all := ports, |diff|;
      NothingPerformed(plan, history, calls);
      while diff != {}
        invariant Shaped() && InputSettled(ports[port]) && Remaining() <= old(Remaining()) && Called()
        invariant forall q :: 0 <= q < N_PORTS ==> Continues(before[q], ports[q])
        invariant calls >= old(calls) + 2 * (all - |diff|)
        invariant old(Remaining()) == 0 ==> ports == before && calls == old(calls) + 2 * (all - |diff|)
        decreases diff
      {
        var n := Lowest(diff);
        ghost var between, k := history, calls;
        CallBackTwice();
        PerformedThen(plan, old(history), old(calls), between, k, history, calls);
        assert |diff - {n}| == |diff| - 1;
        diff := diff - {n};
      }
      ghost var between, k := history, calls;
      EvalSense(port);
      PerformedThen(plan, old(history), old(calls), between, k, history, calls);
      KeptRaises();
    }

    static lemma InputUpdated(p: Port, pins: nat)
      requires Base(p, pins)
      ensures var r := p.(input := EnabledOf(p, p.ioLevel)); InputSettled(r) && Continues(p, r) && Base(r, pins)
    {
    }

    static lemma OutputUpdated(p: Port, pins: nat)
      requires Base(p, pins)
      ensures var r := p.(oLevel := Driven(p), ioLevel := Override(Dir(p), p.ioLevel, Driven(p)));
        OutputSettled(r) && Base(r, pins)
    {
    }

    /** A level from outside does not concern what is driven, nor what is driven what is sensed so far. */
    static lemma LevelUpdated(p: Port, pins: nat, n: nat, out: set<nat>)
      requires Base(p, pins)
      ensures var r := p.(ioLevel := Xor(p.ioLevel, {n})); (OutputSettled(p) ==> OutputSettled(r)) && Base(r, pins)
      ensures var r := p.(externalOut := out);
        InputSettled(r) == InputSettled(p) && SenseSettled(r) == SenseSettled(p) && Base(r, pins)
    {
    }

    static lemma EvaluatedSame(p: Port)
      ensures InputsEvaluated(p).ioLevel == p.ioLevel
      ensures OutputsEvaluated(p).externalOut == p.externalOut
    {
    }

    static lemma LevelFlips(p: Port, n: nat, level: bool)
      ensures n in Dir(p) <==> IsOutput(p, n)
      ensures (n in p.ioLevel) != level ==>
        forall k :: k in Xor(p.ioLevel, {n}) <==> if k == n then level else k in p.ioLevel
    {
    }

    static lemma LevelContinues(p: Port, n: nat, r: Port)
      requires Continues(p.(ioLevel := Xor(p.ioLevel, {n})), r) && Settled(r)
      ensures Continues(p, r)
    {
      hide Sensed, EnabledOf;
    }

    static lemma OutputContinues(p: Port, r: Port)
      requires Continues(p.(oLevel := Driven(p), ioLevel := Override(Dir(p), p.ioLevel, Driven(p))), r) && Settled(r)
      ensures Continues(p, r) && OutputSettled(r)
    {
      OutputUpdatedSettles(p);
      hide Sensed, EnabledOf, OutputSettled, Override;
    }

    static lemma OutputUpdatedSettles(p: Port)
      ensures OutputSettled(p.(oLevel := Driven(p), ioLevel := Override(Dir(p), p.ioLevel, Driven(p))))
    {
    }

    static lemma ExternalContinues(p: Port, out: set<nat>, r: Port)
      requires Continues(p.(externalOut := out), r) && OutputSettled(r)
      ensures Continues(p, r)
    {
    }

    /** The level outside changes. */
    method ChangeLevel(port: nat, n: nat)
      requires Shaped() && PinExists(port, n)
      modifies this
      ensures Shaped() && Kept() && Called()
      ensures old(Remaining()) == 0 ==> ports == old(ports)[port :=
        InputsEvaluated(old(ports[port]).(ioLevel := Xor(old(ports[port]).ioLevel, {n})))]
      decreases Remaining(), 4
    {
      hide Xor, Base, Settled, OutputSettled, Continues, Performed, NothingFrom, RaisedBetween, InputsEvaluated;
      LevelUpdated(ports[port], NPins(port), n, {});
      ghost var before := ports;
      ports := ports[port := ports[port].(ioLevel := Xor(ports[port].ioLevel, {n}))];
      EvalInputs(port);
      LevelContinues(before[port], n, ports[port]);
    }

    /** Something outside drives a pin: a callback `who`, or nobody of them. */
    method EvalInput(port: nat, n: nat, level: bool, ghost who: Option<nat>)
      requires Shaped() && PinExists(port, n) && (who.Some? ==> who.value < calls)
      modifies this
      ensures Shaped() && Kept() && CalledBy(Done(who, DriveInput(port, n, level)))
      ensures old(Remaining()) == 0 ==> ports == old(ports)[port :=
        var p := old(ports[port]);
        if n in Dir(p) || (n in p.ioLevel) == level then p
        else InputsEvaluated(p.(ioLevel := Xor(p.ioLevel, {n})))]
      ensures old(Remaining()) == 0 ==> forall k ::
        k in ports[port].ioLevel <==>
          if k == n && !IsOutput(old(ports[port]), n) then level else k in old(ports[port]).ioLevel
      decreases Remaining(), 6
    {
      hide Base, Xor, Dir, IsOutput, Performed, PerformedAnd, NothingFrom, InputsEvaluated, InputSettled, SenseSettled,
        OutputSettled;
      LevelFlips(ports[port], n, level);
      EvaluatedSame(ports[port].(ioLevel := Xor(ports[port].ioLevel, {n})));
      ghost var d := Done(who, DriveInput(port, n, level));
      Record(d);
      NothingPerformed(plan, history, calls);
      var p := ports[port];
      if !(n in Dir(p) || (n in p.ioLevel) == level) {
        ChangeLevel(port, n);
      }
      RecordedThen(plan, old(history), old(calls), d, history, calls);
    }

    /** Recalculates the driven levels, and calls back for every one that has changed. When none has, nothing else
        happens: a pin that has just stopped being driven, or starts to be driven low, keeps its level. */
    method EvalOutputs(port: nat)
      requires Shaped() && port < N_PORTS
      modifies this
      ensures Shaped() && Kept() && Called()
      ensures old(Driven(ports[port]) != ports[port].oLevel) ==> Settled(ports[port])
      ensures OutputSettled(ports[port])
      ensures calls >= old(calls) + old(|Xor(Driven(ports[port]), ports[port].oLevel)|)
      ensures old(Remaining()) == 0 ==> ports == old(ports)[port := OutputsEvaluated(old(ports[port]))]
      decreases Remaining(), 5
    {
      hide EnabledOf, Sensed, Base, Xor, Override, Settled, OutputSettled, Continues, Performed, NothingFrom,
        RaisedBetween, InputsEvaluated;
      var p := ports[port];
      var newOutput := Driven(p);
      var diff := Xor(newOutput, p.oLevel);
      NothingPerformed(plan, history, calls);
      if diff == {} {
        SameSets(newOutput, p.oLevel);
        OutputsUnchanged(ports);
        return;
      }
      NotTheSame(newOutput, p.oLevel);
      OutputUpdated(p, NPins(port));
      ports := ports[port := p.(oLevel := newOutput, ioLevel := Override(Dir(p), p.ioLevel, newOutput))];
      CallBackAndEvaluate(port, diff);
      OutputContinues(p, ports[port]);
    }

    static lemma NotTheSame(a: set<nat>, b: set<nat>)
      requires Xor(a, b) != {}
      ensures a != b
    {
    }

    static lemma OutputsUnchanged(ports: seq<Port>)
      ensures forall p <- ports :: Continues(p, p) && (Driven(p) == p.oLevel ==> OutputSettled(p))
    {
    }

    method CallBackAndEvaluate(port: nat, pins: set<nat>)
      requires Shaped() && port < N_PORTS
      modifies this
      ensures Shaped() && Kept() && Called() && calls >= old(calls) + |pins| && Settled(ports[port])
      ensures old(Remaining()) == 0 ==> ports == old(ports)[port := InputsEvaluated(old(ports[port]))]
      decreases Remaining(), 4
    {
      hide Base, Xor, EnabledOf, InputSettled, SenseSettled, OutputSettled, Performed, NothingFrom, RaisedBetween,
        InputsEvaluated;
      CallBackForAll(pins);
      ghost var between, k := history, calls;
      EvalInputs(port);
      PerformedThen(plan, old(history), old(calls), between, k, history, calls);
    }

    /** Calls back for every pin, from the lowest up. */
    method CallBackForAll(pins: set<nat>)
      requires Shaped()
      modifies this
      ensures Shaped() && Kept() && Called() && calls >= old(calls) + |pins|
      ensures old(Remaining()) == 0 ==> ports == old(ports) && calls == old(calls) + |pins|
      decreases Remaining(), 1
    {
      hide Base, EnabledOf, Sensed, Performed, NothingFrom;
      var diff := pins;
      NothingPerformed(plan, history, calls);
      while diff != {}
        invariant Shaped() && Kept() && Called() && calls >= old(calls) + |pins| - |diff|
        invariant old(Remaining()) == 0 ==> ports == old(ports) && calls == old(calls) + |pins| - |diff|
        decreases diff
      {
        var n := Lowest(diff);
        ghost var between, k := history, calls;
        CallBack();
        PerformedThen(plan, old(history), old(calls), between, k, history, calls);
        assert |diff - {n}| == |diff| - 1;
        diff := diff - {n};
      }
    }

    method ChangeExternal(port: nat, n: nat, level: bool)
      requires Shaped() && PinExists(port, n)
      modifies this
      ensures Shaped() && Kept() && Called()
      ensures old(Remaining()) == 0 ==> ports == old(ports)[port :=
        OutputsEvaluated(old(ports[port]).(externalOut := With(old(ports[port]).externalOut, n, level)))]
      decreases Remaining(), 6
    {
      hide With, Base, Driven, Settled, OutputSettled, Continues, Performed, NothingFrom, OutputsEvaluated, Xor;
      ghost var before, out := ports, With(ports[port].externalOut, n, level);
      LevelUpdated(ports[port], NPins(port), n, out);
      ports := ports[port := ports[port].(externalOut := With(ports[port].externalOut, n, level))];
      EvalOutputs(port);
      ExternalContinues(before[port], out, ports[port]);
    }

    /** A peripheral changes an output that it owns, in a callback `who` or by itself. */
    method PeriChangeOutput(port: nat, n: nat, level: bool, ghost who: Option<nat>)
      requires Shaped() && PinExists(port, n) && (who.Some? ==> who.value < calls)
      modifies this
      ensures Shaped() && Kept() && CalledBy(Done(who, ChangeOutput(port, n, level)))
      ensures old(Remaining()) == 0 ==> ports == old(ports)[port :=
        var p := old(ports[port]);
        if n in p.own.out then OutputsEvaluated(p.(externalOut := With(p.externalOut, n, level))) else p]
      ensures old(Remaining()) == 0 ==> forall k ::
        k in ports[port].externalOut <==>
          if k == n && n in old(ports[port]).own.out then level else k in old(ports[port]).externalOut
      decreases Remaining(), 7
    {
      hide Base, Performed, PerformedAnd, NothingFrom, OutputsEvaluated, InputSettled, SenseSettled, OutputSettled;
      EvaluatedSame(ports[port].(externalOut := With(ports[port].externalOut, n, level)));
      ghost var d := Done(who, ChangeOutput(port, n, level));
      Record(d);
      NothingPerformed(plan, history, calls);
      if n in ports[port].own.out {
        ChangeExternal(port, n, level);
      }
      RecordedThen(plan, old(history), old(calls), d, history, calls);
    }

    // ---------- Top-level operations ----------

    /** The evaluations asked for, in order. */
    method Evaluate(port: nat, outputs: bool, inputs: bool, senses: bool)
      requires Shaped() && port < N_PORTS && (inputs || InputSettled(ports[port]))
      requires (inputs || senses || Settled(ports[port])) && (outputs || OutputSettled(ports[port]))
      requires forall q :: 0 <= q < N_PORTS && q != port ==> Settled(ports[q]) && OutputSettled(ports[q])
      modifies this
      ensures Valid() && Kept() && PortsRaised() && Called()
      ensures old(Remaining()) == 0 ==>
        ports == old(ports)[port := Evaluated(old(ports[port]), outputs, inputs, senses)]
    {
      hide EnabledOf, Sensed, Base, OutputsEvaluated, InputsEvaluated, SenseEvaluated, RaisedBetween, InputSettled,
        SenseSettled, OutputSettled, Performed, NothingFrom, Driven, Xor, Rises;
      NothingPerformed(plan, history, calls);
      if outputs {
        EvalOutputs(port);
      }
      ghost var between, k := history, calls;
      NothingPerformed(plan, history, calls);
      if inputs {
        EvalInputs(port);
      }
      PerformedThen(plan, old(history), old(calls), between, k, history, calls);
      between, k := history, calls;
      NothingPerformed(plan, history, calls);
      if senses {
        EvalSense(port);
      }
      PerformedThen(plan, old(history), old(calls), between, k, history, calls);
      KeptRaises();
    }

    method PeriPinControl(port: nat, n: nat, output: Option<bool>, input: Option<Control>, dir: Option<Control>,
                          level: Option<bool>)
      requires Valid() && PinExists(port, n)
      modifies this
      ensures Valid() && PortsRaised() && Called() && ports[port].regs == old(ports[port]).regs
      ensures ports[port].own == Claimed(old(ports[port]).own, n, output, input, dir)
      ensures old(Remaining()) == 0 ==> forall k ::
        k in ports[port].externalOut <==>
          if k == n && level.Some? then level.value else k in old(ports[port]).externalOut
      ensures old(Remaining()) == 0 ==> ports == old(ports)[port :=
        Evaluated(Controlled(old(ports[port]), n, output, input, dir, level),
                  output.Some? || dir.Some? || level.Some?, input.Some?, false)]
    {
      hide Base, Mirrored, Rises, Trues, Evaluated, InputSettled, SenseSettled, OutputSettled, Claimed, Performed,
        NothingFrom;
      var p := ports[port];
      ControlledSettles(p, NPins(port), n, output, input, dir, level);
      p := p.(own := Claimed(p.own, n, output, input, dir));
      if level.Some? {
        p := p.(externalOut := With(p.externalOut, n, level.value));
      }
      ports := ports[port := p];
      Evaluate(port, output.Some? || dir.Some? || level.Some?, input.Some?, false);
    }

    static lemma ControlledSettles(p: Port, pins: nat, n: nat, output: Option<bool>, input: Option<Control>,
                                   dir: Option<Control>, level: Option<bool>)
      requires Base(p, pins) && Settled(p) && OutputSettled(p)
      ensures var r, outputs := Controlled(p, n, output, input, dir, level), output.Some? || dir.Some? || level.Some?;
        && Base(r, pins) && (input.Some? || Settled(r)) && (outputs || OutputSettled(r))
        && (forall k :: k in r.externalOut <==> if k == n && level.Some? then level.value else k in p.externalOut)
        && Evaluated(r, outputs, input.Some?, false).externalOut == r.externalOut
    {
      hide Override;
    }

    /** New registers, and the evaluations that they ask for. */
    method Reprogram(port: nat, regs: Registers, outputs: bool, inputs: bool, senses: bool)
      requires Valid() && port < N_PORTS && Mirrored(regs, NPins(port))
      requires inputs || InputSettled(Programmed(ports[port], regs))
      requires inputs || senses || Settled(Programmed(ports[port], regs))
      requires outputs || OutputSettled(Programmed(ports[port], regs))
      modifies this
      ensures Valid() && PortsRaised() && Called() && ports[port].regs == regs
      ensures old(Remaining()) == 0 ==>
        ports == old(ports)[port := Evaluated(Programmed(old(ports[port]), regs), outputs, inputs, senses)]
    {
      hide Mirrored, Rises, Trues, Evaluated, InputSettled, SenseSettled;
      ports := ports[port := Programmed(ports[port], regs)];
      Evaluate(port, outputs, inputs, senses);
    }

    method WriteOut(port: nat, value: set<nat>)
      requires Valid() && port < N_PORTS
      modifies this
      ensures Valid() && PortsRaised() && Called() && ports[port].regs == old(ports[port]).regs.(out := value)
      ensures old(Remaining()) == 0 ==> ports[port] == OutputsEvaluated(Programmed(old(ports[port]), ports[port].regs))
    {
      Reprogram(port, ports[port].regs.(out := value), true, false, false);
    }

    /** DIR is mirrored into the DIR bit of every PIN_CNF. */
    method WriteDir(port: nat, value: set<nat>)
      requires Valid() && port < N_PORTS
      modifies this
      ensures Valid() && PortsRaised() && Called()
      ensures ports[port].regs == old(ports[port]).regs.(dir := value, pinCnf := ports[port].regs.pinCnf)
      ensures |ports[port].regs.pinCnf| == 32
      ensures forall k :: 0 <= k < (if port == 0 then 32 else 10) ==>
        (ports[port].regs.pinCnf[k].output <==> k in value)
      ensures old(Remaining()) == 0 ==> ports[port] == OutputsEvaluated(Programmed(old(ports[port]), ports[port].regs))
    {
      var before := ports[port].regs.pinCnf;
      var cnf := before;
      var k := 0;
      while k < NPins(port)
        invariant 0 <= k <= NPins(port) && |cnf| == |before| == 32
        invariant forall j :: 0 <= j < NPins(port) ==>
          cnf[j] == if j < k then before[j].(output := j in value) else before[j]
      {
        cnf := cnf[k := cnf[k].(output := k in value)];
        k := k + 1;
      }
      Reprogram(port, ports[port].regs.(dir := value, pinCnf := cnf), true, false, false);
    }

    /** Clears the written bits of LATCH; what is still sensed stays. In latched mode, bits that are left raise PORT
        again. */
    method WriteLatch(port: nat, value: set<nat>)
      requires Valid() && port < N_PORTS
      modifies this
      ensures Valid() && Called() && ports[port].regs == old(ports[port]).regs
      ensures var s := old(ports[port]).sense; s.ldetect - value + s.detect <= ports[port].sense.ldetect
      ensures var before, after := old(ports[port]).counts, ports[port].counts;
        var again := Again(old(ports[port]), value);
        && before.signals <= after.signals && after.clears == before.clears + [again]
        && after.raised == before.raised + Rises(after.signals) - Rises(before.signals) + if again then 1 else 0
      ensures old(Remaining()) == 0 ==>
        && ports[port].sense.latch == old(ports[port]).sense.ldetect - value + old(ports[port]).sense.detect
        && ports[port].counts.raised == old(ports[port]).counts.raised + if Again(old(ports[port]), value) then 1 else 0
    {
      hide Base, InputSettled, Settled, OutputSettled, Unlatched, Again, Rises, Trues, Performed, NothingFrom;
      ghost var p, r := ports[port], Unlatched(ports[port], value);
      UnlatchedKeeps(p, value, NPins(port));
      UnlatchedContinues(r);
      NothingPerformed(plan, history, calls);
      var again := ClearLatch(port, value);
      if again {
        RaisePort(port, r);
      }
      LatchWritten(p, value, ports[port], NPins(port));
    }

    method ClearLatch(port: nat, value: set<nat>) returns (again: bool)
      requires |ports| == N_PORTS && port < N_PORTS
      modifies `ports
      ensures var p, r := old(ports[port]), Unlatched(old(ports[port]), value);
        && again == Again(p, value)
        && ports == old(ports)[port := r.(counts := r.counts.(raised := p.counts.raised))]
        && r.counts.raised == p.counts.raised + if again then 1 else 0
    {
      var p := ports[port];
      var s := p.sense;
      s := s.(ldetect := s.ldetect - value + s.detect);
      s := s.(latch := s.ldetect);
      s := s.(signal := DetectSignal(p.regs.latchedMode, s));
      again := value != {} && s.ldetect != {} && p.regs.latchedMode;
      ports := ports[port := p.(sense := s, counts := p.counts.(signals := p.counts.signals + [s.signal],
                                                                clears := p.counts.clears + [again]))];
    }

    static lemma UnlatchedContinues(r: Port)
      ensures Continues(r, r)
    {
    }

    /** From before the write to after everything that it has set off. */
    static lemma LatchWritten(p: Port, value: set<nat>, q: Port, n: nat)
      requires Base(p, n) && Settled(p) && OutputSettled(p) && Base(q, n) && Continues(Unlatched(p, value), q)
      ensures Settled(q) && OutputSettled(q) && q.regs == p.regs
      ensures p.sense.ldetect - value + p.sense.detect <= q.sense.ldetect
      ensures p.counts.signals <= q.counts.signals && q.counts.clears == p.counts.clears + [Again(p, value)]
      ensures q.counts.raised == p.counts.raised + Rises(q.counts.signals) - Rises(p.counts.signals)
                                 + if Again(p, value) then 1 else 0
      ensures q == Unlatched(p, value) ==>
        && q.sense.latch == p.sense.ldetect - value + p.sense.detect
        && q.counts.raised == p.counts.raised + if Again(p, value) then 1 else 0
    {
      UnlatchedKeeps(p, value, n);
      TruesWithOneMore(p.counts.clears, Again(p, value));
      hide Mirrored, Rises, Trues, Settled, Again;
    }

    /** Clearing latched bits is never a rising edge, so PORT need not be raised for one. */
    static lemma UnlatchedKeeps(p: Port, value: set<nat>, n: nat)
      requires Base(p, n) && Settled(p)
      ensures var r := Unlatched(p, value);
        && Base(r, n) && Settled(r) && Rises(r.counts.signals) == Rises(p.counts.signals)
        && Trues(r.counts.clears) == Trues(p.counts.clears) + if Again(p, value) then 1 else 0
    {
      hide *;
      var r := Unlatched(p, value);
      UnlatchedSettles(p, value);
      UnlatchedIs(p, value, n);
      RisesWithOneMore(p.counts.signals, r.sense.signal);
      TruesWithOneMore(p.counts.clears, Again(p, value));
      StaysBased(p, r, n);
    }

    static lemma UnlatchedIs(p: Port, value: set<nat>, n: nat)
      requires Base(p, n) && Settled(p)
      ensures var r := Unlatched(p, value);
        && r.regs == p.regs && r.sense.latch == r.sense.ldetect && r.sense.detect <= r.sense.ldetect
        && (r.sense.signal ==> p.sense.signal)
        && p.counts.signals != [] && p.counts.signals[|p.counts.signals| - 1] == p.sense.signal
        && r.counts == Counts(p.counts.raised + if Again(p, value) then 1 else 0, p.counts.signals + [r.sense.signal],
                              p.counts.clears + [Again(p, value)])
    {
      NeverRises(p.sense, Unlatched(p, value).sense, p.regs.latchedMode);
      hide Again, Mirrored, InputSettled, Sensed, Rises, Trues;
    }

    static lemma StaysBased(p: Port, r: Port, n: nat)
      requires Base(p, n) && r.regs == p.regs && r.sense.latch == r.sense.ldetect && r.sense.detect <= r.sense.ldetect
      requires r.counts.signals != [] && r.counts.signals[|r.counts.signals| - 1] == r.sense.signal
      requires r.counts.raised - p.counts.raised
            == Rises(r.counts.signals) + Trues(r.counts.clears) - Rises(p.counts.signals) - Trues(p.counts.clears)
      ensures Base(r, n)
    {
      hide Mirrored, Rises, Trues;
    }

    static lemma UnlatchedSettles(p: Port, value: set<nat>)
      requires Settled(p)
      ensures Settled(Unlatched(p, value))
    {
      hide Again;
    }

    static lemma NeverRises(before: Sense, after: Sense, latchedMode: bool)
      requires before.signal == DetectSignal(latchedMode, before) && after.signal == DetectSignal(latchedMode, after)
      requires before.detect == after.detect && after.ldetect <= before.ldetect + before.detect
      requires before.detect <= before.ldetect
      ensures after.signal ==> before.signal
    {
    }

    method WriteDetectMode(port: nat, latched: bool)
      requires Valid() && port < N_PORTS
      modifies this
      ensures Valid() && PortsRaised() && Called() && ports[port].regs == old(ports[port]).regs.(latchedMode := latched)
      ensures old(Remaining()) == 0 ==> ports[port] == SenseEvaluated(Programmed(old(ports[port]), ports[port].regs))
    {
      Reprogram(port, ports[port].regs.(latchedMode := latched), false, false, true);
    }

    /** One pin is configured anew; only what has changed is evaluated. */
    method WritePinCnf(port: nat, n: nat, cnf: PinCnf)
      requires Valid() && PinExists(port, n)
      modifies this
      ensures Valid() && PortsRaised() && Called() && ports[port].regs == Configured(old(ports[port]).regs, n, cnf)
      ensures var r := ports[port].regs;
        && r.pinCnf == old(ports[port]).regs.pinCnf[n := cnf]
        && (n in r.dir) == cnf.output && (n in r.inputMask) == cnf.disconnected
        && (n in r.senseMask) == cnf.sense && (n in r.senseInv) == cnf.senseLow
    {
      var r := ports[port].regs;
      var outputs := (n in r.dir) != cnf.output;
      var inputs := (n in r.inputMask) != cnf.disconnected;
      var senses := (n in r.senseMask) != cnf.sense || (n in r.senseInv) != cnf.senseLow;
      ConfiguredSame(ports[port], n, cnf);
      Reprogram(port, Configured(r, n, cnf), outputs, inputs, senses);
    }
  }

  /** A write to LATCH clears something, and in latched mode leaves bits set: PORT is raised again. */
  predicate Again(p: Port, value: set<nat>) {
    value != {} && p.sense.ldetect - value + p.sense.detect != {} && p.regs.latchedMode
  }

  /** After a write to LATCH. */
  function Unlatched(p: Port, value: set<nat>): Port {
    var l := p.sense.ldetect - value + p.sense.detect;
    var s := p.sense.(ldetect := l, latch := l);
    var s := s.(signal := DetectSignal(p.regs.latchedMode, s));
    var again := Again(p, value);
    p.(sense := s, counts := Counts(p.counts.raised + if again then 1 else 0, p.counts.signals + [s.signal],
                                    p.counts.clears + [again]))
  }

  function Evaluated(p: Port, outputs: bool, inputs: bool, senses: bool): Port {
    var p := if outputs then OutputsEvaluated(p) else p;
    var p := if inputs then InputsEvaluated(p) else p;
    if senses then SenseEvaluated(p) else p
  }

  function Programmed(p: Port, regs: Registers): Port {
    p.(regs := regs)
  }

  function Claimed(own: Overrides, n: nat, output: Option<bool>, input: Option<Control>, dir: Option<Control>)
    : Overrides
  {
    var own := if output.Some? then own.(out := With(own.out, n, output.value)) else own;
    var own := if input.None? then own
               else own.(input := With(own.input, n, input.value != Released),
                         connected := With(own.connected, n, input.value == Connected));
    if dir.None? then own
    else own.(dir := With(own.dir, n, dir.value != Released), driven := With(own.driven, n, dir.value == Connected))
  }

  function Controlled(p: Port, n: nat, output: Option<bool>, input: Option<Control>, dir: Option<Control>,
                      level: Option<bool>): Port
  {
    var p := p.(own := Claimed(p.own, n, output, input, dir));
    if level.Some? then p.(externalOut := With(p.externalOut, n, level.value)) else p
  }

  function Configured(r: Registers, n: nat, cnf: PinCnf): Registers
    requires n < |r.pinCnf|
  {
    r.(pinCnf := r.pinCnf[n := cnf], dir := With(r.dir, n, cnf.output),
       inputMask := With(r.inputMask, n, cnf.disconnected),
       senseMask := With(r.senseMask, n, cnf.sense), senseInv := With(r.senseInv, n, cnf.senseLow))
  }

  /** What has not changed need not be evaluated. */
  lemma ConfiguredSame(p: Port, n: nat, cnf: PinCnf)
    requires n < |p.regs.pinCnf|
    ensures var q := Programmed(p, Configured(p.regs, n, cnf));
      && (OutputSettled(p) && (n in p.regs.dir) == cnf.output ==> OutputSettled(q))
      && (InputSettled(p) && (n in p.regs.inputMask) == cnf.disconnected ==> InputSettled(q))
      && (SenseSettled(p) && (n in p.regs.senseMask) == cnf.sense && (n in p.regs.senseInv) == cnf.senseLow
          ==> SenseSettled(q))
  {
    var q := Configured(p.regs, n, cnf);
    assert (n in p.regs.dir) == cnf.output ==> q.dir == p.regs.dir;
    assert (n in p.regs.inputMask) == cnf.disconnected ==> q.inputMask == p.regs.inputMask;
    assert (n in p.regs.senseMask) == cnf.sense ==> q.senseMask == p.regs.senseMask;
    assert (n in p.regs.senseInv) == cnf.senseLow ==> q.senseInv == p.regs.senseInv;
  }
}
