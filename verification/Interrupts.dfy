/**
 The interrupt controller, with its level lines, and the EGU as the representative peripheral that drives such lines.
 Bit masks over interrupts are sets of interrupt numbers.
 */
module Interrupts {
  import opened Common

  const N_IRQS: nat := 47
  const PHONY_HARD_IRQ: nat := 0xFFFF
  const NO_INTERRUPT_RUNNING: nat := 256

  /** What the choice among the pending interrupts comes to. `Undefined` is the shift by a negative amount that follows
      from looking for the lowest set bit in an int. */
  datatype Choice = Interrupt(irq: nat) | NoInterrupt | Undefined

  /** `w` is the lowest-numbered of those interrupts with the best priority that beats the running one. */
  predicate Wins(pending: set<nat>, prio: seq<nat>, running: nat, w: nat)
    requires forall i <- pending :: i < |prio|
  {
    && w in pending && prio[w] < running
    && forall i <- pending :: prio[w] < prio[i] || (prio[w] == prio[i] && w <= i)
  }

  predicate NoneWins(pending: set<nat>, prio: seq<nat>, running: nat)
    requires forall i <- pending :: i < |prio|
  {
    forall i <- pending :: prio[i] >= running
  }

  class Controller {
    var now: int
    var lines: set<nat>
    var status: set<nat>
    var premask: set<nat>
    var mask: set<nat>
    var locked: bool
    var lockIgnore: bool
    var prio: seq<nat>
    var runningPrio: nat
    var timer: Option<int>
    // How often the CPU was awoken, by the hardware or by software.
    var awoken: nat
    var vectored: nat
    /** The interrupts that were cleared, and whose line has not been looked at since. */
    ghost var acknowledged: set<nat>

    /** Enabled pending interrupts are signalled, what is signalled is pending, and a line that is high is pending, or
        its interrupt is being handled. */
    ghost predicate Valid()
      reads this
    {
      && InRange()
      && premask * mask <= status <= premask
      && lines <= premask + acknowledged
    }

    ghost predicate InRange()
      reads this
    {
      && (forall i <- premask :: i < N_IRQS) && (forall i <- lines :: i < N_IRQS)
      && |prio| == N_IRQS && (forall i :: 0 <= i < N_IRQS ==> prio[i] <= 255)
    }

    /** But for one interrupt that is just being raised or enabled. */
    ghost predicate ValidBut(irq: nat)
      reads this
    {
      && InRange()
      && premask * mask - {irq} <= status <= premask
      && lines - {irq} <= premask + acknowledged
    }

    constructor ()
      ensures Valid() && lines == status == premask == mask == {}
      ensures !locked && !lockIgnore && timer == None && awoken == vectored == 0 && now == 0
      ensures runningPrio == 256 && prio == seq(47, _ => 255)
    {
      now, lines, status, premask, mask, acknowledged := 0, {}, {}, {}, {}, {};
      locked, lockIgnore, prio, runningPrio := false, false, seq(N_IRQS, _ => 255), NO_INTERRUPT_RUNNING;
      timer, awoken, vectored := None, 0, 0;
    }

    /** Chooses the interrupt to handle. The lowest set bit is looked for in an int: with a pending interrupt beyond 31
        the choice is undefined, and only then. */
    method GetHighestPrioIrq() returns (choice: Choice)
      requires Valid()
      ensures locked ==> choice == NoInterrupt
      ensures choice == Undefined <==> !locked && exists i <- status :: i >= 32
      ensures choice.Interrupt? ==> Wins(status, prio, runningPrio, choice.irq)
      ensures choice == NoInterrupt && !locked ==> NoneWins(status, prio, runningPrio)
    {
      choice := NoInterrupt;
      if locked {
        return;
      }
      var pending := status;
      var winnerPrio := NO_INTERRUPT_RUNNING;
      while pending != {}
        invariant pending <= status && choice != Undefined
        invariant forall i <- status - pending :: i < 32
        invariant forall i <- status - pending, j <- pending :: i < j
        invariant if choice.Interrupt?
                  then Wins(status - pending, prio, runningPrio, choice.irq) && winnerPrio == prio[choice.irq]
                  else NoneWins(status - pending, prio, runningPrio) && winnerPrio == NO_INTERRUPT_RUNNING
        decreases pending
      {
        var irq := LowestOf32(pending);
        if irq.None? {
          ghost var i :| i in pending;
          assert i in status && i >= 32;
          return Undefined;
        }
        var n := irq.value;
        assert status - (pending - {n}) == status - pending + {n};
        pending := pending - {n};
        if winnerPrio > prio[n] && runningPrio > prio[n] {
          choice := Interrupt(n);
          winnerPrio := prio[n];
        }
      }
      assert status - pending == status;
    }

    /** The lowest of the bits 0 to 31 that is set. */
    static method LowestOf32(bits: set<nat>) returns (n: Option<nat>)
      ensures n.None? ==> forall i <- bits :: i >= 32
      ensures n.Some? ==> n.value in bits && n.value < 32 && forall i <- bits :: n.value <= i
    {
      var i: nat := 0;
      while i < 32
        invariant i <= 32 && forall j <- bits :: i <= j
      {
        if i in bits {
          return Some(i);
        }
        i := i + 1;
      }
      return None;
    }

    method ChangeLock(newLock: bool) returns (previous: bool)
      requires Valid()
      modifies `locked, `vectored
      ensures Valid() && locked == newLock && previous == old(locked)
      ensures vectored == old(vectored) + if old(locked) && !newLock && status != {} then 1 else 0
    {
      previous := locked;
      locked := newLock;
      if previous && !newLock && status != {} {
        vectored := vectored + 1;
      }
    }

    method ClearAllEnabledIrqs()
      requires Valid()
      modifies `status, `premask, `acknowledged
      ensures Valid() && status == {} && premask == old(premask) - mask
      ensures acknowledged == old(acknowledged) + old(premask) * mask
    {
      acknowledged := acknowledged + premask * mask;
      status := {};
      premask := premask - mask;
    }

    method ClearAllIrqs()
      requires Valid()
      modifies `status, `premask, `acknowledged
      ensures Valid() && status == premask == {} && acknowledged == old(acknowledged) + old(premask)
    {
      acknowledged := acknowledged + premask;
      status := {};
      premask := {};
    }

    method DisableIrq(irq: nat)
      requires Valid()
      modifies `mask
      ensures Valid() && mask == old(mask) - {irq}
    {
      mask := mask - {irq};
    }

    method EnableIrq(irq: nat)
      requires Valid() && irq < N_IRQS
      modifies `mask, `status, `premask, `lockIgnore, `vectored
      ensures Valid() && mask == old(mask) + {irq} && premask == old(premask)
      ensures status == old(status) + if irq in premask then {irq} else {}
      ensures vectored == old(vectored) + if irq in premask && !locked then 1 else 0
    {
      mask := mask + {irq};
      if irq in premask {
        RaiseImmediatelyFromSw(irq);
      }
    }

    /** The interrupt is being handled: it is no longer pending. */
    method ClearIrq(irq: nat)
      requires Valid()
      modifies `status, `premask, `acknowledged
      ensures Valid() && status == old(status) - {irq} && premask == old(premask) - {irq}
      ensures acknowledged == old(acknowledged) + {irq}
    {
      acknowledged := acknowledged + {irq};
      status := status - {irq};
      premask := premask - {irq};
    }

    /** The handler is left: if the line is still high, the interrupt is pending again. */
    method ReevalLevelIrq(irq: nat)
      requires Valid()
      modifies `status, `premask, `acknowledged
      ensures Valid() && acknowledged == old(acknowledged) - {irq}
      ensures premask == old(premask) + if irq in lines then {irq} else {}
      ensures status == old(status) + if irq in lines && irq in mask then {irq} else {}
    {
      acknowledged := acknowledged - {irq};
      if irq in lines {
        premask := premask + {irq};
        if irq in mask {
          status := status + {irq};
        }
      }
    }

    method RaisePrefix(irq: nat)
      requires if irq < N_IRQS then ValidBut(irq) else Valid()
      modifies `status, `premask, `lockIgnore
      ensures Valid()
      ensures premask == old(premask) + if irq < N_IRQS then {irq} else {}
      ensures status == old(status) + if irq < N_IRQS && irq in mask then {irq} else {}
      ensures lockIgnore == (old(lockIgnore) || irq == PHONY_HARD_IRQ)
    {
      if irq < N_IRQS {
        assert forall x <- lines :: x == irq || x in lines - {irq};
        assert forall x <- premask * mask :: x == irq || x in premask * mask - {irq};
        premask := premask + {irq};
        if irq in mask {
          status := status + {irq};
        }
      } else if irq == PHONY_HARD_IRQ {
        lockIgnore := true;
      }
    }

    /** A pulse: the CPU wakes up in this microsecond, unless interrupts are locked. */
    method SetIrq(irq: nat)
      requires if irq < N_IRQS then ValidBut(irq) else Valid()
      modifies `status, `premask, `lockIgnore, `timer
      ensures Valid()
      ensures premask == old(premask) + if irq < N_IRQS then {irq} else {}
      ensures status == old(status) + if irq < N_IRQS && irq in mask then {irq} else {}
      ensures timer == if !locked || old(lockIgnore) || irq == 0xFFFF then Some(now) else old(timer)
      ensures lockIgnore == (old(lockIgnore) || irq == 0xFFFF)
    {
      RaisePrefix(irq);
      if !locked || lockIgnore {
        timer := Some(now);
      }
    }

    /** A line that rises leaves its interrupt pending, signalled when it is enabled, and the CPU wakes up now, unless
        interrupts are locked; a line that is high already changes nothing. */
    method RaiseLevelIrqLine(irq: nat)
      requires Valid() && irq < N_IRQS
      modifies `lines, `status, `premask, `lockIgnore, `timer
      ensures Valid() && lines == old(lines) + {irq} && lockIgnore == old(lockIgnore)
      ensures irq !in old(lines) ==>
        && premask == old(premask) + {irq}
        && status == old(status) + (if irq in mask then {irq} else {})
        && timer == (if !locked || lockIgnore then Some(now) else old(timer))
      ensures irq in old(lines) ==> premask == old(premask) && status == old(status) && timer == old(timer)
    {
      if irq !in lines {
        lines := lines + {irq};
        SetIrq(irq);
      }
    }

    method LowerLevelIrqLine(irq: nat)
      requires Valid() && irq < N_IRQS
      modifies `lines
      ensures Valid() && lines == old(lines) - {irq}
    {
      lines := lines - {irq};
    }

    method RaisingFromHwNow()
      modifies `lockIgnore, `awoken
      ensures awoken == old(awoken) + if !locked || old(lockIgnore) then 1 else 0
      ensures !lockIgnore
    {
      if !locked || lockIgnore {
        lockIgnore := false;
        awoken := awoken + 1;
      }
    }

    method RaiseImmediately(irq: nat)
      requires Valid()
      modifies `status, `premask, `lockIgnore, `awoken
      ensures Valid() && premask == old(premask) + if irq < N_IRQS then {irq} else {}
      ensures status == old(status) + if irq < N_IRQS && irq in mask then {irq} else {}
      ensures awoken == old(awoken) + if !locked || old(lockIgnore) || irq == PHONY_HARD_IRQ then 1 else 0
      ensures !lockIgnore
    {
      RaisePrefix(irq);
      RaisingFromHwNow();
    }

    method RaiseImmediatelyFromSw(irq: nat)
      requires ValidBut(irq) && irq < N_IRQS && irq in mask
      modifies `status, `premask, `lockIgnore, `vectored
      ensures Valid() && premask == old(premask) + {irq} && status == old(status) + {irq}
      ensures vectored == old(vectored) + if locked then 0 else 1
    {
      RaisePrefix(irq);
      if !locked {
        vectored := vectored + 1;
      }
    }

    method TimerTriggered()
      requires Valid() && timer.Some?
      modifies `now, `timer, `lockIgnore, `awoken
      ensures Valid() && timer.None? && Some(now) == old(timer)
      ensures awoken == old(awoken) + if !locked || old(lockIgnore) then 1 else 0
    {
      now := timer.value;
      timer := None;
      RaisingFromHwNow();
    }
  }

  // ---------- EGU ----------

  const N_EGU: nat := 6
  const N_EGU_EVENTS: nat := 16
  const SWI0_EGU0_IRQN: nat := 20

  function LineOf(inst: nat): nat {
    SWI0_EGU0_IRQN + inst
  }

  /** Some event is set whose interrupt is enabled. */
  predicate Requested(inten: set<nat>, events: set<nat>) {
    exists i :: 0 <= i < 16 && i in inten && i in events
  }

  class Egu {
    const irq: Controller
    var inten: seq<set<nat>>
    var events: seq<set<nat>>
    var line: seq<bool>
    var signalled: seq<(nat, nat)>

    ghost predicate Shaped()
      reads this, irq
    {
      irq.Valid() && |inten| == |events| == |line| == N_EGU
    }

    /** Every line is what the registers ask for, and what the controller sees. */
    ghost predicate Valid()
      reads this, irq
    {
      && Shaped()
      && (forall i :: 0 <= i < N_EGU ==> line[i] == Requested(inten[i], events[i]))
      && (forall i :: 0 <= i < N_EGU ==> (line[i] <==> LineOf(i) in irq.lines))
    }

    constructor (irq: Controller)
      requires irq.Valid() && forall inst :: 0 <= inst < N_EGU ==> LineOf(inst) !in irq.lines
      ensures Valid() && this.irq == irq && inten == events == seq(6, _ => {}) && line == seq(6, _ => false)
    {
      this.irq := irq;
      inten, events := seq(N_EGU, _ => {}), seq(N_EGU, _ => {});
      line, signalled := seq(N_EGU, _ => false), [];
    }

    method EvalInterrupt(inst: nat)
      requires Shaped() && inst < N_EGU
      requires forall i :: 0 <= i < N_EGU && i != inst ==> line[i] == Requested(inten[i], events[i])
      requires forall i :: 0 <= i < N_EGU ==> (line[i] <==> LineOf(i) in irq.lines)
      modifies `line, irq`lines, irq`status, irq`premask, irq`lockIgnore, irq`timer
      ensures Valid() && forall i :: 0 <= i < N_EGU ==> (line[i] <==> 20 + i in irq.lines)
      ensures !old(line[inst]) && line[inst] && (!irq.locked || old(irq.lockIgnore)) ==> irq.timer == Some(irq.now)
    {
      var newLine := false;
      var i := 0;
      while i < N_EGU_EVENTS
        invariant 0 <= i <= N_EGU_EVENTS
        invariant newLine <==> exists j :: 0 <= j < i && j in inten[inst] && j in events[inst]
      {
        if i in inten[inst] && i in events[inst] {
          newLine := true;
        }
        i := i + 1;
      }
      if newLine && !line[inst] {
        line := line[inst := true];
        irq.RaiseLevelIrqLine(LineOf(inst));
      } else if !newLine && line[inst] {
        line := line[inst := false];
        irq.LowerLevelIrqLine(LineOf(inst));
      }
    }

    /** A triggered event that is enabled leaves its interrupt pending or being handled, and awakes the CPU when its
        line was low, unless interrupts are locked. */
    method TaskTrigger(inst: nat, n: nat)
      requires Valid() && inst < N_EGU && n < N_EGU_EVENTS
      modifies `events, `line, `signalled, irq`lines, irq`status, irq`premask, irq`lockIgnore, irq`timer
      ensures Valid() && events == old(events)[inst := old(events[inst]) + {n}]
      ensures n in inten[inst] ==> line[inst] && 20 + inst in irq.premask + irq.acknowledged
      ensures n in inten[inst] && !old(line[inst]) && (!irq.locked || old(irq.lockIgnore)) ==>
        irq.timer == Some(irq.now)
      ensures signalled == old(signalled) + [(inst, n)]
    {
      events := events[inst := events[inst] + {n}];
      EvalInterrupt(inst);
      assert n in inten[inst] ==> Requested(inten[inst], events[inst]);
      signalled := signalled + [(inst, n)];
    }

    method WriteIntenSet(inst: nat, value: set<nat>)
      requires Valid() && inst < N_EGU
      modifies `inten, `line, irq`lines, irq`status, irq`premask, irq`lockIgnore, irq`timer
      ensures Valid() && inten == old(inten)[inst := old(inten[inst]) + value]
    {
      if value != {} {
        inten := inten[inst := inten[inst] + value];
        EvalInterrupt(inst);
      } else {
        assert inten[inst] + value == inten[inst];
      }
    }

    method WriteIntenClr(inst: nat, value: set<nat>)
      requires Valid() && inst < N_EGU
      modifies `inten, `line, irq`lines, irq`status, irq`premask, irq`lockIgnore, irq`timer
      ensures Valid() && inten == old(inten)[inst := old(inten[inst]) - value]
    {
      if value != {} {
        inten := inten[inst := inten[inst] - value];
        EvalInterrupt(inst);
      } else {
        assert inten[inst] - value == inten[inst];
      }
    }

    method WriteInten(inst: nat, value: set<nat>)
      requires Valid() && inst < N_EGU
      modifies `inten, `line, irq`lines, irq`status, irq`premask, irq`lockIgnore, irq`timer
      ensures Valid() && inten == old(inten)[inst := value]
    {
      inten := inten[inst := value];
      EvalInterrupt(inst);
    }

    method WriteEvent(inst: nat, n: nat, set_: bool)
      requires Valid() && inst < N_EGU && n < N_EGU_EVENTS
      modifies `events, `line, irq`lines, irq`status, irq`premask, irq`lockIgnore, irq`timer
      ensures Valid()
      ensures events == old(events)[inst := if set_ then old(events[inst]) + {n} else old(events[inst]) - {n}]
    {
      events := events[inst := if set_ then events[inst] + {n} else events[inst] - {n}];
      EvalInterrupt(inst);
    }

    /** From clearing the interrupt until leaving its handler, whatever the handler does to the registers, no request is
        lost: if an enabled event is set when the handler is left, the interrupt is pending again. */
    method LeaveHandler(inst: nat)
      requires Valid() && inst < N_EGU
      modifies irq`status, irq`premask, irq`acknowledged
      ensures Valid()
      ensures forall n :: 0 <= n < 16 && n in inten[inst] && n in events[inst] ==>
        20 + inst in irq.premask && (20 + inst in irq.mask ==> 20 + inst in irq.status)
    {
      irq.ReevalLevelIrq(LineOf(inst));
      assert line[inst] == Requested(inten[inst], events[inst]);
    }
  }
}
