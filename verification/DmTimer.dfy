/**
 * The DMTIMER 7 interrupt source (lkml/dmtimer/dmtimer.c). Register meanings are those of
 * section 20.1 (DMTimer) of the AM335x Technical Reference Manual, SPRUH73: an up-counter that
 * reloads on overflow, a write-1-to-clear status register and set/clear enable registers.
 */
module DmTimer {
  import opened Wrappers
  import opened Arithmetic

  const TOP: nat := 0xFFFF_FFFF
  const RELOAD: nat := 0xFE91_C9FF
  const PERIOD: nat := U32 - RELOAD
  const CLOCK_HZ: nat := 24_000_000

  /** The three event bits of the interrupt registers. */
  datatype Events = Events(matched: bool, overflow: bool, captured: bool)

  datatype Hw = Hw(
    counter: nat,        // TCRR
    reload: nat,         // TLDR
    started: bool,       // TCLR bit 0
    autoReload: bool,    // TCLR bit 1
    status: Events,      // IRQSTATUS
    enabled: Events)     // the enabled interrupts

  function Bits(v: nat): Events {
    Events(v % 2 == 1, v / 2 % 2 == 1, v / 4 % 2 == 1)
  }

  function Without(e: Events, v: Events): Events {
    Events(e.matched && !v.matched, e.overflow && !v.overflow, e.captured && !v.captured)
  }

  function With(e: Events, v: Events): Events {
    Events(e.matched || v.matched, e.overflow || v.overflow, e.captured || v.captured)
  }

  /** iowrite32 to the timer block. */
  function Write(hw: Hw, offset: nat, value: nat): Hw {
    match offset
    case 0x28 => hw.(status := Without(hw.status, Bits(value)))
    case 0x2c => hw.(enabled := With(hw.enabled, Bits(value)))
    case 0x30 => hw.(enabled := Without(hw.enabled, Bits(value)))
    case 0x38 => hw.(started := value % 2 == 1, autoReload := value / 2 % 2 == 1)
    case 0x3c => hw.(counter := value % U32)
    case 0x40 => hw.(reload := value % U32)
    case _ => hw
  }

  predicate Overflowing(hw: Hw) {
    hw.started && hw.counter == TOP
  }

  /** One cycle of the timer clock. Without auto-reload the counter stops at zero. */
  function Tick(hw: Hw): Hw {
    if !hw.started then hw
    else if hw.counter == TOP then
      hw.(counter := if hw.autoReload then hw.reload else 0,
          started := hw.autoReload,
          status := hw.status.(overflow := true))
    else hw.(counter := hw.counter + 1)
  }

  function Ticks(hw: Hw, t: nat): Hw {
    if t == 0 then hw else Tick(Ticks(hw, t - 1))
  }

  function Overflows(hw: Hw, t: nat): nat {
    if t == 0 then 0 else Overflows(hw, t - 1) + if Overflowing(Ticks(hw, t - 1)) then 1 else 0
  }

  /** Two stretches of `d` and `e` ticks from phase `y`: one of them overflows iff their sum does. */
  lemma TwoStretches(y: nat, d: nat, e: nat, n: nat)
    requires y < n
    ensures (y + d) / n > 0 || ((y + d) % n + e) / n > 0 <==> y + d + e >= n
    ensures ((y + d) % n + e) % n == (y + d + e) % n
  {
    ModCompose(y + d, e, n);
    DivPositive(y + d, n);
    if y + d < n {
      DivModUnique(y + d, n, 0, y + d);
      DivPositive(y + d + e, n);
    }
  }

  // ---------------------------------------------------------------- the counter in closed form

  ghost predicate Cycling(hw: Hw) {
    hw.started && hw.autoReload && hw.reload <= hw.counter <= TOP
  }

  function PeriodOf(hw: Hw): nat
    requires hw.reload <= TOP
  {
    U32 - hw.reload
  }

  /**
   * After any number of ticks of an auto-reloading timer: the counter, the number of overflows
   * and the pending bit as functions of the tick count alone.
   */
  lemma {:induction false} TimerClosedForm(hw: Hw, t: nat)
    requires Cycling(hw)
    ensures var x, p := hw.counter - hw.reload + t, PeriodOf(hw);
            && Ticks(hw, t).counter == hw.reload + x % p
            && Overflows(hw, t) == x / p
            && Ticks(hw, t) == hw.(counter := hw.reload + x % p,
                                   status := hw.status.(overflow := hw.status.overflow || x / p > 0))
  {
    var x, p := hw.counter - hw.reload + t, PeriodOf(hw);
    if t == 0 {
      DivModUnique(x, p, 0, x);
    } else {
      TimerClosedForm(hw, t - 1);
      DivStep(x - 1, p);
    }
  }

  /** Two stretches of ticks with the interrupt disabled between them. */
  lemma TicksAroundDisable(hw: Hw, d: nat, e: nat)
    requires Cycling(hw)
    ensures var p, x := PeriodOf(hw), hw.counter - hw.reload;
            var after := Ticks(Write(Ticks(hw, d), 0x30, 0x02), e);
            after == hw.(counter := hw.reload + (x + d + e) % p, status := after.status,
                         enabled := hw.enabled.(overflow := false))
            && after.status == hw.status.(overflow := after.status.overflow)
  {
    var p, x := PeriodOf(hw), hw.counter - hw.reload;
    var mid := Write(Ticks(hw, d), 0x30, 0x02);
    TimerClosedForm(hw, d);
    var r, o := (x + d) % p, hw.status.overflow || (x + d) / p > 0;
    assert mid == hw.(counter := hw.reload + r, status := hw.status.(overflow := o),
                      enabled := hw.enabled.(overflow := false));
    TimerClosedForm(mid, e);
    ModCompose(x + d, e, p);
  }

  /** Two stretches of ticks with the interrupt enabled between them. */
  lemma TicksAroundEnable(hw: Hw, d: nat, e: nat)
    requires Cycling(hw) && !hw.status.overflow
    ensures var p, y := PeriodOf(hw), hw.counter - hw.reload;
            Ticks(Write(Ticks(hw, d), 0x2c, 0x02), e) ==
            hw.(counter := hw.reload + (y + d + e) % p,
                status := hw.status.(overflow := y + d + e >= p),
                enabled := hw.enabled.(overflow := true))
  {
    var p, y := PeriodOf(hw), hw.counter - hw.reload;
    var mid := Write(Ticks(hw, d), 0x2c, 0x02);
    TimerClosedForm(hw, d);
    var r, o := (y + d) % p, (y + d) / p > 0;
    assert mid == hw.(counter := hw.reload + r, status := hw.status.(overflow := o),
                      enabled := hw.enabled.(overflow := true));
    TimerClosedForm(mid, e);
    TwoStretches(y, d, e, p);
  }

  // ---------------------------------------------------------------- what the probe sets up

  /** The register writes at the end of dmtimer_probe, lines 231-238. */
  function Probe(hw: Hw): Hw {
    Write(Write(Write(Write(hw, 0x2c, 0x02), 0x3c, 0xFE91C9FF), 0x40, 0xFE91C9FF), 0x38, 0x03)
  }

  /** From any state the probe leaves the timer cycling from the reload value with its interrupt on. */
  lemma ProbeProgramsTimer(hw: Hw)
    ensures Cycling(Probe(hw)) && Probe(hw).counter == Probe(hw).reload == RELOAD
    ensures PeriodOf(Probe(hw)) == PERIOD == 24_000_001 && Probe(hw).enabled.overflow
    ensures Probe(hw).status == hw.status
  {
  }

  /** The k-th overflow happens at tick k * 24,000,001 and not before. */
  lemma OverflowTimes(hw: Hw, t: nat, k: nat)
    ensures Overflows(Probe(hw), t) == t / PERIOD
    ensures Overflows(Probe(hw), t) >= k <==> t >= k * PERIOD
    ensures Ticks(Probe(hw), t).counter == RELOAD + t % PERIOD
  {
    ProbeProgramsTimer(hw);
    TimerClosedForm(Probe(hw), t);
  }

  /**
   * One interrupt a second is not quite what comes out: k periods last k seconds of the 24 MHz
   * clock and k ticks, so that in s seconds one interrupt is missing for every (started) group
   * of 24,000,001 seconds.
   */
  lemma InterruptsInSeconds(hw: Hw, s: nat)
    ensures s * PERIOD == s * CLOCK_HZ + s
    ensures Overflows(Probe(hw), s * CLOCK_HZ) == s - (s + PERIOD - 1) / PERIOD
  {
    OverflowTimes(hw, s * CLOCK_HZ, 0);
    var c := (s + PERIOD - 1) / PERIOD;
    assert s * CLOCK_HZ == PERIOD * (s - c) + (PERIOD * c - s);
    DivModUnique(s * CLOCK_HZ, PERIOD, s - c, PERIOD * c - s);
  }

  /** The timer-block writes of dmtimer_remove, lines 257-258. */
  function Remove(hw: Hw): Hw {
    Write(Write(hw, 0x7c, 0x00), 0x2c, 0x00)
  }

  /** The interrupt line is up. */
  predicate LineUp(hw: Hw) {
    hw.status.overflow && hw.enabled.overflow
  }

  /** Writing zero to a set register sets nothing, so one period later the timer has overflowed again. */
  lemma PeriodAfterRemove(hw: Hw)
    requires Cycling(hw)
    ensures Ticks(Remove(hw), PeriodOf(hw)) == hw.(status := hw.status.(overflow := true))
  {
    var p, y := PeriodOf(hw), hw.counter - hw.reload;
    assert Remove(hw) == hw;
    TimerClosedForm(hw, p);
    assert y + p == p * 1 + y;
    DivModUnique(y + p, p, 1, y);
  }

  /**
   * After the driver is removed a running timer raises its line again if and only if its
   * interrupt was on before: removal silences exactly the timers that were silent.
   */
  lemma RemoveLeavesTimerFiringIff(hw: Hw)
    requires Cycling(hw)
    ensures (exists t: nat :: LineUp(Ticks(Remove(hw), t))) <==> hw.enabled.overflow
  {
    PeriodAfterRemove(hw);
    assert LineUp(Ticks(Remove(hw), PeriodOf(hw))) <==> hw.enabled.overflow;
    forall t: nat | LineUp(Ticks(Remove(hw), t)) ensures hw.enabled.overflow {
      TimerClosedForm(Remove(hw), t);
    }
  }

  // ---------------------------------------------------------------- handler and hardware together

  /** Where dmtimer_irq_handler stands. */
  datatype Pc = Idle | Entered | Disabled | Cleared

  datatype System = System(
    hw: Hw, pc: Pc,
    ticks: nat,        // clock cycles since the probe
    overflows: nat,    // counter overflows
    clears: nat,       // status writes of the handler
    coalesced: nat,    // overflows that found the last one still pending
    handled: nat)      // complete handler runs

  datatype Step = TickStep | Enter | Disable | Clear | Enable

  predicate CanStep(s: System, step: Step) {
    match step
    case TickStep => true
    case Enter => s.pc.Idle? && LineUp(s.hw)
    case Disable => s.pc.Entered?
    case Clear => s.pc.Disabled?
    case Enable => s.pc.Cleared?
  }

  function Next(s: System, step: Step): System
    requires CanStep(s, step)
  {
    match step
    case TickStep =>
      var o := if Overflowing(s.hw) then 1 else 0;
      s.(hw := Tick(s.hw), ticks := s.ticks + 1, overflows := s.overflows + o,
         coalesced := s.coalesced + if s.hw.status.overflow then o else 0)
    case Enter => s.(pc := Entered)                                             // line 276 gates the clock
    case Disable => s.(hw := Write(s.hw, 0x30, 0x02), pc := Disabled)           // line 278
    case Clear => s.(hw := Write(s.hw, 0x28, 0x02), pc := Cleared, clears := s.clears + 1)
    case Enable => s.(hw := Write(s.hw, 0x2c, 0x02), pc := Idle, handled := s.handled + 1)
  }

  /** Step `i` of the run leads from state `i` to the next. */
  ghost predicate Moves(t: seq<System>, steps: seq<Step>, i: nat) {
    i + 1 < |t| && i < |steps| && CanStep(t[i], steps[i]) && t[i + 1] == Next(t[i], steps[i])
  }

  ghost predicate IsRun(t: seq<System>, steps: seq<Step>) {
    && |t| == |steps| + 1
    && (exists hw :: t[0] == System(Probe(hw), Idle, 0, 0, 0, 0, 0))
    && forall i: nat | i < |steps| :: Moves(t, steps, i)
  }

  function Pending(s: System): nat {
    if s.hw.status.overflow then 1 else 0
  }

  /** `stale` is 1 if an event was already pending when the timer was programmed. */
  ghost predicate Inv(s: System, stale: nat) {
    && s.hw.started && s.hw.autoReload && s.hw.reload == RELOAD
    && s.hw.counter == RELOAD + s.ticks % PERIOD
    && s.overflows == s.ticks / PERIOD
    && s.overflows + stale == s.clears + Pending(s) + s.coalesced
    && s.clears == s.handled + (if s.pc.Cleared? then 1 else 0)
    && (s.pc.Entered? || s.pc.Disabled? ==> s.hw.status.overflow)
    && (s.hw.enabled.overflow <==> s.pc.Idle? || s.pc.Entered?)
  }

  lemma StepInv(s: System, step: Step, stale: nat)
    requires Inv(s, stale) && CanStep(s, step)
    ensures Inv(Next(s, step), stale)
  {
  }

  lemma {:induction false} RunInv(t: seq<System>, steps: seq<Step>, i: nat)
    requires IsRun(t, steps) && i < |t|
    ensures Inv(t[i], Pending(t[0]))
  {
    if i > 0 {
      RunInv(t, steps, i - 1);
      assert Moves(t, steps, i - 1);
      StepInv(t[i - 1], steps[i - 1], Pending(t[0]));
    }
  }

  /**
   * Interrupt accounting in every interleaving of clock and handler: the elapsed periods, and an
   * event left over from before the probe, which does not clear the status, are the events
   * cleared, the pending one and the coalesced ones; whenever the handler is not running
   * its interrupt is on, so that a pending event is always deliverable.
   */
  lemma InterruptAccounting(t: seq<System>, steps: seq<Step>, i: nat)
    requires IsRun(t, steps) && i < |t|
    ensures t[i].ticks / PERIOD + Pending(t[0]) == t[i].clears + Pending(t[i]) + t[i].coalesced
    ensures t[i].handled <= t[i].clears <= t[i].handled + 1
    ensures t[i].pc.Idle? ==> t[i].handled == t[i].clears && t[i].hw.enabled.overflow
    ensures t[i].pc.Idle? ==> (CanStep(t[i], Enter) <==> t[i].hw.status.overflow)
    ensures t[i].pc.Disabled? ==> t[i].hw.status.overflow
  {
    RunInv(t, steps, i);
  }

  /** The tick `k` of the run overflows while the last event is still pending. */
  ghost predicate LateAt(t: seq<System>, steps: seq<Step>, k: nat)
    requires |t| == |steps| + 1 && k < |steps|
  {
    steps[k].TickStep? && t[k].hw.counter == TOP && t[k].hw.status.overflow
  }

  /** Events are coalesced exactly when some overflow comes before the last one was cleared. */
  lemma {:induction false} CoalescedIff(t: seq<System>, steps: seq<Step>, i: nat)
    requires IsRun(t, steps) && i < |t|
    ensures t[i].coalesced == 0 <==> forall k: nat | k < i :: !LateAt(t, steps, k)
  {
    if i > 0 {
      CoalescedIff(t, steps, i - 1);
      RunInv(t, steps, i - 1);
      assert Moves(t, steps, i - 1);
      assert t[i].coalesced == t[i - 1].coalesced + if LateAt(t, steps, i - 1) then 1 else 0;
    }
  }

  /**
   * With a latency of at most `d` ticks from overflow to clear, short of a period, nothing is
   * coalesced: one handler run per elapsed period, up to the one under way or pending.
   */
  lemma TimelyHandling(t: seq<System>, steps: seq<Step>, i: nat, d: nat)
    requires IsRun(t, steps) && i < |t| && d < PERIOD - 1
    requires forall k: nat | k <= i :: t[k].hw.status.overflow ==> t[k].ticks % PERIOD <= d
    ensures t[i].coalesced == 0
    ensures t[i].pc.Idle? ==> t[i].handled == t[i].ticks / PERIOD + Pending(t[0]) - Pending(t[i])
  {
    forall k: nat | k < i ensures !LateAt(t, steps, k) {
      RunInv(t, steps, k);
      assert t[k].hw.status.overflow ==> t[k].ticks % PERIOD <= d;
    }
    CoalescedIff(t, steps, i);
    RunInv(t, steps, i);
  }

  // ---------------------------------------------------------------- the handler gets on

  /** The state after the steps `more`, if each of them is possible when its turn comes. */
  function After(s: System, more: seq<Step>): Option<System>
    decreases |more|
  {
    if more == [] then Some(s)
    else if CanStep(s, more[0]) then After(Next(s, more[0]), more[1..])
    else None
  }

  lemma {:induction false} AfterConcat(s: System, p: seq<Step>, q: seq<Step>)
    ensures After(s, p + q) == if After(s, p).None? then None else After(After(s, p).value, q)
    decreases |p|
  {
    if p == [] {
      assert p + q == q;
    } else {
      assert (p + q)[1..] == p[1..] + q;
      if CanStep(s, p[0]) {
        AfterConcat(Next(s, p[0]), p[1..], q);
      }
    }
  }

  lemma AfterOne(s: System, step: Step)
    ensures After(s, [step]) == if CanStep(s, step) then Some(Next(s, step)) else None
  {
    assert [step][1..] == [];
  }

  /** What is possible at the end of a run extends the run. */
  lemma {:induction false} RunGoesOn(t: seq<System>, steps: seq<Step>, more: seq<Step>) returns (t': seq<System>)
    requires IsRun(t, steps) && After(t[|steps|], more).Some?
    ensures IsRun(t', steps + more) && t <= t' && t'[|steps + more|] == After(t[|steps|], more).value
    decreases |more|
  {
    if more == [] {
      t' := t;
      assert steps + more == steps;
    } else {
      var next := t + [Next(t[|steps|], more[0])];
      forall i: nat | i < |steps| + 1 ensures Moves(next, steps + [more[0]], i) {
        assert i < |steps| ==> Moves(t, steps, i);
      }
      t' := RunGoesOn(next, steps + [more[0]], more[1..]);
      assert steps + [more[0]] + more[1..] == steps + more;
    }
  }

  function TickSteps(d: nat): seq<Step> {
    seq(d, i => TickStep)
  }

  /** The clock can always go on, whatever the handler is doing, and does nothing to it. */
  lemma {:induction false} ClockGoesOn(s: System, d: nat)
    ensures var r := After(s, TickSteps(d));
            && r.Some? && r.value.hw == Ticks(s.hw, d) && r.value.ticks == s.ticks + d
            && r.value.pc == s.pc && r.value.clears == s.clears && r.value.handled == s.handled
  {
    if d > 0 {
      ClockGoesOn(s, d - 1);
      assert TickSteps(d) == TickSteps(d - 1) + [TickStep];
      AfterConcat(s, TickSteps(d - 1), [TickStep]);
      AfterOne(After(s, TickSteps(d - 1)).value, TickStep);
    }
  }

  /** A step of the handler that is due, after `d` ticks. */
  lemma DueStep(s: System, d: nat, step: Step)
    requires (step.Disable? && s.pc.Entered?) || (step.Clear? && s.pc.Disabled?) || (step.Enable? && s.pc.Cleared?)
    ensures var r := After(s, TickSteps(d) + [step]);
            && r.Some? && r.value.ticks == s.ticks + d
            && r.value.hw
               == Write(Ticks(s.hw, d), if step.Disable? then 0x30 else if step.Clear? then 0x28 else 0x2c, 0x02)
            && r.value.pc == (if step.Disable? then Disabled else if step.Clear? then Cleared else Idle)
            && r.value.clears == s.clears + (if step.Clear? then 1 else 0)
            && r.value.handled == s.handled + (if step.Enable? then 1 else 0)
  {
    ClockGoesOn(s, d);
    AfterConcat(s, TickSteps(d), [step]);
    AfterOne(After(s, TickSteps(d)).value, step);
  }

  /** The handler from its first write on, with `d0`..`d3` ticks around its writes. */
  function HandlerSteps(d0: nat, d1: nat, d2: nat, d3: nat): seq<Step> {
    (TickSteps(d0) + [Disable]) + ((TickSteps(d1) + [Clear]) + ((TickSteps(d2) + [Enable]) + TickSteps(d3)))
  }

  /** The registers after the handler's three writes with these ticks around them. */
  function HandlerWrites(hw: Hw, d0: nat, d1: nat, d2: nat, d3: nat): Hw {
    var cleared := Write(Ticks(Write(Ticks(hw, d0), 0x30, 0x02), d1), 0x28, 0x02);
    Ticks(Write(Ticks(cleared, d2), 0x2c, 0x02), d3)
  }

  /**
   * The interrupt is on again, and an event is pending exactly when an overflow came after the
   * clear; nothing else about the timer has changed.
   */
  lemma HandlerClosedForm(hw: Hw, d0: nat, d1: nat, d2: nat, d3: nat)
    requires Cycling(hw)
    ensures var p, x := PeriodOf(hw), hw.counter - hw.reload + d0 + d1;
            HandlerWrites(hw, d0, d1, d2, d3)
            == hw.(counter := hw.reload + (x % p + d2 + d3) % p,
                   status := hw.status.(overflow := x % p + d2 + d3 >= p),
                   enabled := hw.enabled.(overflow := true))
  {
    TicksAroundDisable(hw, d0, d1);
    var cleared := Write(Ticks(Write(Ticks(hw, d0), 0x30, 0x02), d1), 0x28, 0x02);
    TicksAroundEnable(cleared, d2, d3);
  }

  /** The last write, from where the status has been cleared. */
  lemma FromCleared(s: System, d2: nat, d3: nat)
    requires s.pc.Cleared?
    ensures var r := After(s, (TickSteps(d2) + [Enable]) + TickSteps(d3));
            && r.Some? && r.value.pc.Idle? && r.value.handled == s.handled + 1 && r.value.clears == s.clears
            && r.value.ticks == s.ticks + d2 + d3 && r.value.hw == Ticks(Write(Ticks(s.hw, d2), 0x2c, 0x02), d3)
  {
    DueStep(s, d2, Enable);
    AfterConcat(s, TickSteps(d2) + [Enable], TickSteps(d3));
    ClockGoesOn(After(s, TickSteps(d2) + [Enable]).value, d3);
  }

  lemma FromDisabled(s: System, d1: nat, d2: nat, d3: nat)
    requires s.pc.Disabled?
    ensures var r := After(s, (TickSteps(d1) + [Clear]) + ((TickSteps(d2) + [Enable]) + TickSteps(d3)));
            && r.Some? && r.value.pc.Idle? && r.value.handled == s.handled + 1 && r.value.clears == s.clears + 1
            && r.value.ticks == s.ticks + d1 + d2 + d3
            && r.value.hw == Ticks(Write(Ticks(Write(Ticks(s.hw, d1), 0x28, 0x02), d2), 0x2c, 0x02), d3)
  {
    DueStep(s, d1, Clear);
    AfterConcat(s, TickSteps(d1) + [Clear], (TickSteps(d2) + [Enable]) + TickSteps(d3));
    FromCleared(After(s, TickSteps(d1) + [Clear]).value, d2, d3);
  }

  /**
   * Once entered, the handler goes through to its end, however many ticks fall between its
   * writes: one complete run more, one clear more, and the registers of the closed form.
   */
  lemma HandlerRuns(s: System, d0: nat, d1: nat, d2: nat, d3: nat)
    requires s.pc.Entered?
    ensures var r := After(s, HandlerSteps(d0, d1, d2, d3));
            && r.Some? && r.value.pc.Idle? && r.value.handled == s.handled + 1 && r.value.clears == s.clears + 1
            && r.value.ticks == s.ticks + d0 + d1 + d2 + d3 && r.value.hw == HandlerWrites(s.hw, d0, d1, d2, d3)
  {
    var rest := (TickSteps(d1) + [Clear]) + ((TickSteps(d2) + [Enable]) + TickSteps(d3));
    DueStep(s, d0, Disable);
    AfterConcat(s, TickSteps(d0) + [Disable], rest);
    FromDisabled(After(s, TickSteps(d0) + [Disable]).value, d1, d2, d3);
  }

  /** The writes of dmtimer_irq_handler that are still to come. */
  function WritesLeft(pc: Pc): seq<Step> {
    match pc
    case Idle => []
    case Entered => [Disable, Clear, Enable]
    case Disabled => [Clear, Enable]
    case Cleared => [Enable]
  }

  lemma WritesLeftUnpaced(pc: Pc)
    ensures pc.Entered? ==> WritesLeft(pc) == HandlerSteps(0, 0, 0, 0)
    ensures pc.Disabled? ==> WritesLeft(pc) == (TickSteps(0) + [Clear]) + ((TickSteps(0) + [Enable]) + TickSteps(0))
    ensures pc.Cleared? ==> WritesLeft(pc) == (TickSteps(0) + [Enable]) + TickSteps(0)
  {
  }

  /**
   * In every state of every run the handler can finish: its remaining writes are possible at
   * once and lead to an idle handler with one more run behind it and its interrupt on. Nothing is
   * pending then, unless the status had been cleared already and the timer has overflowed since.
   */
  lemma HandlerFinishes(t: seq<System>, steps: seq<Step>, i: nat)
    requires IsRun(t, steps) && i < |t| && !t[i].pc.Idle?
    ensures var r := After(t[i], WritesLeft(t[i].pc));
            && r.Some? && r.value.pc.Idle? && r.value.handled == t[i].handled + 1 && r.value.ticks == t[i].ticks
            && r.value.hw.enabled.overflow
            && (r.value.hw.status.overflow <==> t[i].pc.Cleared? && t[i].hw.status.overflow)
  {
    var s := t[i];
    WritesLeftUnpaced(s.pc);
    match s.pc
    case Entered => HandlerRuns(s, 0, 0, 0, 0);
    case Disabled => FromDisabled(s, 0, 0, 0);
    case Cleared => FromCleared(s, 0, 0);
  }

  /**
   * Between the writes of a handler that has been entered in a run any number of ticks may fall;
   * the registers are then those of the closed form, which TimerBlock.IrqHandler computes.
   */
  lemma HandlerRunsAsCoded(t: seq<System>, steps: seq<Step>, i: nat, d0: nat, d1: nat, d2: nat, d3: nat)
    requires IsRun(t, steps) && i < |t| && t[i].pc.Entered?
    ensures var r := After(t[i], HandlerSteps(d0, d1, d2, d3));
            var x := t[i].ticks % PERIOD + d0 + d1;
            && r.Some? && r.value.pc.Idle? && r.value.handled == t[i].handled + 1 && r.value.clears == t[i].clears + 1
            && r.value.hw == t[i].hw.(counter := RELOAD + (x % PERIOD + d2 + d3) % PERIOD,
                                      status := t[i].hw.status.(overflow := x % PERIOD + d2 + d3 >= PERIOD),
                                      enabled := t[i].hw.enabled.(overflow := true))
  {
    RunInv(t, steps, i);
    HandlerRuns(t[i], d0, d1, d2, d3);
    HandlerClosedForm(t[i].hw, d0, d1, d2, d3);
  }

  /** An idle handler: the ticks until its interrupt comes. */
  function UntilEvent(s: System): nat {
    if s.hw.status.overflow then 0 else PERIOD - s.ticks % PERIOD
  }

  lemma LineComesUp(s: System, stale: nat)
    requires Inv(s, stale) && s.pc.Idle?
    ensures LineUp(Ticks(s.hw, UntilEvent(s)))
  {
    TimerClosedForm(s.hw, UntilEvent(s));
    DivPositive(s.ticks % PERIOD + UntilEvent(s), PERIOD);
  }

  /**
   * The timer never stops being served: from every idle state of every run the next event comes
   * within a period, enters the handler, and the handler runs to its end once more.
   */
  lemma NextEventIsHandled(t: seq<System>, steps: seq<Step>, i: nat)
    requires IsRun(t, steps) && i < |t| && t[i].pc.Idle?
    ensures var d := UntilEvent(t[i]);
            var r := After(t[i], (TickSteps(d) + [Enter]) + HandlerSteps(0, 0, 0, 0));
            && d <= PERIOD && r.Some? && r.value.pc.Idle? && r.value.ticks == t[i].ticks + d
            && r.value.handled == t[i].handled + 1 && !r.value.hw.status.overflow && r.value.hw.enabled.overflow
  {
    var s, d := t[i], UntilEvent(t[i]);
    RunInv(t, steps, i);
    LineComesUp(s, Pending(t[0]));
    ClockGoesOn(s, d);
    AfterConcat(s, TickSteps(d), [Enter]);
    AfterOne(After(s, TickSteps(d)).value, Enter);
    var entered := After(s, TickSteps(d) + [Enter]).value;
    AfterConcat(s, TickSteps(d) + [Enter], HandlerSteps(0, 0, 0, 0));
    HandlerRuns(entered, 0, 0, 0, 0);
  }

  /** So there is no bound on the handler runs of a run, whatever state the probe found the timer in. */
  lemma {:induction false} ServedWithoutBound(hw: Hw, k: nat) returns (t: seq<System>, steps: seq<Step>)
    ensures IsRun(t, steps) && t[0].hw == Probe(hw) && t[|steps|].pc.Idle? && t[|steps|].handled == k
  {
    if k == 0 {
      t, steps := [System(Probe(hw), Idle, 0, 0, 0, 0, 0)], [];
    } else {
      t, steps := ServedWithoutBound(hw, k - 1);
      NextEventIsHandled(t, steps, |steps|);
      var more := (TickSteps(UntilEvent(t[|steps|])) + [Enter]) + HandlerSteps(0, 0, 0, 0);
      t := RunGoesOn(t, steps, more);
      steps := steps + more;
    }
  }

  // ---------------------------------------------------------------- the code, in place

  /** The mapped register block, written by the driver while the clock goes on. */
  class TimerBlock {
    var regs: Hw

    constructor (hw: Hw)
      ensures regs == hw
    {
      regs := hw;
    }

    method Iowrite32(value: nat, offset: nat)
      modifies this
      ensures regs == Write(old(regs), offset, value)
    {
      regs := Write(regs, offset, value);
    }

    /** `t` clock cycles go by. */
    method Elapse(t: nat)
      modifies this
      ensures regs == Ticks(old(regs), t)
    {
      for i := 0 to t
        invariant regs == Ticks(old(regs), i)
      {
        regs := Tick(regs);
      }
    }

    /** The end of dmtimer_probe: the four writes, in the order of the source. */
    method ProgramTimer()
      modifies this
      ensures regs == Probe(old(regs)) && Cycling(regs)
      ensures forall t: nat :: Overflows(regs, t) == t / PERIOD
    {
      ProbeProgramsTimer(regs);
      forall t: nat ensures Overflows(Probe(regs), t) == t / PERIOD {
        OverflowTimes(regs, t, 0);
      }
      Iowrite32(0x02, 0x2c);
      Iowrite32(0xFE91C9FF, 0x3c);
      Iowrite32(0xFE91C9FF, 0x40);
      Iowrite32(0x03, 0x38);
    }

    /** Disable and clear, lines 278-281, `d` and `e` ticks before each. */
    method DisableAndClear(d: nat, e: nat)
      requires Cycling(regs)
      modifies this
      ensures var p, x := PeriodOf(old(regs)), old(regs.counter) - old(regs.reload);
              regs == old(regs).(counter := old(regs.reload) + (x + d + e) % p,
                                 status := old(regs.status).(overflow := false),
                                 enabled := old(regs.enabled).(overflow := false))
      ensures Cycling(regs)
    {
      TicksAroundDisable(regs, d, e);
      Elapse(d);
      Iowrite32(0x02, 0x30);
      Elapse(e);
      Iowrite32(0x02, 0x28);
    }

    /** Enable again, line 282, `d` ticks before and `e` after. */
    method Reenable(d: nat, e: nat)
      requires Cycling(regs) && !regs.status.overflow
      modifies this
      ensures var p, y := PeriodOf(old(regs)), old(regs.counter) - old(regs.reload);
              regs == old(regs).(counter := old(regs.reload) + (y + d + e) % p,
                                 status := old(regs.status).(overflow := y + d + e >= p),
                                 enabled := old(regs.enabled).(overflow := true))
      ensures Cycling(regs)
    {
      TicksAroundEnable(regs, d, e);
      Elapse(d);
      Iowrite32(0x02, 0x2c);
      Elapse(e);
    }

    /**
     * The register protocol of dmtimer_irq_handler with `d0`..`d3` ticks going by around its
     * writes. Afterwards the interrupt is on again, and an event is pending exactly when an
     * overflow came after the clear; nothing else about the timer has changed.
     */
    method IrqHandler(d0: nat, d1: nat, d2: nat, d3: nat)
      requires Cycling(regs)
      modifies this
      ensures var p, x := PeriodOf(old(regs)), old(regs.counter) - old(regs.reload) + d0 + d1;
              regs == old(regs).(counter := old(regs.reload) + (x % p + d2 + d3) % p,
                                 status := old(regs.status).(overflow := x % p + d2 + d3 >= p),
                                 enabled := old(regs.enabled).(overflow := true))
      ensures Cycling(regs) && regs == HandlerWrites(old(regs), d0, d1, d2, d3)
    {
      HandlerClosedForm(regs, d0, d1, d2, d3);
      DisableAndClear(d0, d1);
      Reenable(d2, d3);
    }
  }
}
