/**
 The global CPU lock and the scheduler lock of the SMP kernel
 (rt-thread/src/cpu.c, rt-thread/src/scheduler_mp.c).

 One spin lock, `_cpus_lock`, protects the scheduler.  Whether a thread holds it is written in
 counters of the *thread*, while the spin lock is held by a *CPU*: a context switch therefore has
 to pass the lock on or drop it, depending on the counters of the thread it switches to.

 The protocol is a state machine.  A step is one action of one CPU between two points where other
 CPUs can interfere; waiting for the spin lock is such a point, so the counters are already
 incremented while a CPU still spins.  Guards say only what the hardware and a disciplined caller
 guarantee; what the source asserts is proved.
 */
module CpusLock {
  import opened Basics

  /** A section a thread has open, with the interrupt level the caller has to give back. */
  datatype Section = LockSection(irqOff: bool) | IrqSection(irqOff: bool)

  /** The open sections of a thread, innermost first. */
  datatype Sections = Closed | Open(last: Section, rest: Sections)

  /** How a thread that is not running will go on: inside `rt_schedule`, or where it was interrupted. */
  datatype Frame = InSchedule | Interrupted

  datatype Locks = Locks(
    cpusNest: int,         // cpus_lock_nest
    schedNest: int,        // scheduler_lock_nest
    criticalNest: nat,     // critical_lock_nest
    spins: nat,            // open rt_spin_lock sections
    open: Sections,        // open rt_cpus_lock sections and stretches with local interrupts off
    frame: Frame)

  datatype Wait = NotWaiting | ForLock | ForCritical(irqOff: bool)

  datatype Context = InThread | InHandler(base: Locks) | Leaving

  datatype Cpu = Cpu(current: nat, irqOff: bool, wait: Wait, context: Context, switchFlag: bool)

  datatype State = State(threads: seq<Locks>, cpus: seq<Cpu>, holder: Option<nat>)

  datatype Step =
    | LockBegin(c: nat)                  // rt_cpus_lock, up to the spin lock
    | Acquire(c: nat)                    // the spin lock is free: take it and go on
    | Unlock(c: nat)                     // rt_cpus_unlock
    | EnterCritical(c: nat)              // rt_enter_critical, up to the spin lock
    | ExitCritical(c: nat)               // rt_exit_critical, up to the rt_schedule it calls
    | PreemptDisable(c: nat)             // rt_spin_lock, and rt_spin_lock_irqsave up to the interrupt level
    | IrqSave(c: nat)                    // rt_hw_local_irq_disable, as in the rest of rt_spin_lock_irqsave
    | IrqRestore(c: nat)                 // rt_hw_local_irq_enable, as rt_spin_unlock_irqrestore begins
    | PreemptEnable(c: nat)              // rt_spin_unlock, and the rest of rt_spin_unlock_irqrestore, up to the
                                         // rt_schedule they call with interrupts off
    | Interrupt(c: nat)                  // an interrupt arrives
    | RequestSwitch(c: nat)              // rt_schedule inside a handler
    | LeaveHandler(c: nat)               // the handler is done; rt_scheduler_do_irq_switch follows
    | Return(c: nat)                     // back to the interrupted thread
    | Switch(c: nat, to: nat)            // the context switch of rt_schedule
    | IrqSwitch(c: nat, to: nat)         // the context switch of rt_scheduler_do_irq_switch

  function LockSections(open: Sections): nat {
    match open
    case Closed => 0
    case Open(last, rest) => LockSections(rest) + (if last.LockSection? then 1 else 0)
  }

  // ------------------------------------------------------------------ the counters of one thread

  /** `rt_cpus_lock` on the counters; the caller has to wait for the spin lock if `cpusNest` was 0. */
  function Nest(l: Locks): Locks {
    if l.cpusNest == 0 then l.(cpusNest := 1, schedNest := l.schedNest + 1)
    else l.(cpusNest := l.cpusNest + 1)
  }

  /** `rt_cpus_unlock` on the counters; the caller drops the spin lock if `cpusNest` becomes 0. */
  function Unnest(l: Locks): Locks {
    if l.cpusNest == 1 then l.(cpusNest := 0, schedNest := l.schedNest - 1)
    else l.(cpusNest := l.cpusNest - 1)
  }

  // ------------------------------------------------------------------ steps

  predicate OnCpu(s: State, c: nat) {
    c < |s.cpus| && s.cpus[c].current < |s.threads|
  }

  function Mine(s: State, c: nat): Locks
    requires OnCpu(s, c)
  {
    s.threads[s.cpus[c].current]
  }

  /** No CPU runs the thread. */
  predicate Idle(s: State, t: nat) {
    t < |s.threads| && forall d :: 0 <= d < |s.cpus| ==> s.cpus[d].current != t
  }

  /** The CPU runs code (it does not spin), as a thread or in an interrupt handler. */
  predicate Runs(s: State, c: nat) {
    OnCpu(s, c) && s.cpus[c].wait == NotWaiting && s.cpus[c].context != Leaving
  }

  /** The innermost section CPU `c` has open is a CPU-lock section. */
  predicate InLock(s: State, c: nat) {
    OnCpu(s, c) && s.cpus[c].wait == NotWaiting && Mine(s, c).open.Open? && Mine(s, c).open.last.LockSection?
  }

  predicate Enabled(s: State, step: Step) {
    match step
    case LockBegin(c) => Runs(s, c) ||
      (OnCpu(s, c) && s.cpus[c].wait == NotWaiting && Mine(s, c).open == Closed)
    case Acquire(c) => OnCpu(s, c) && s.cpus[c].wait != NotWaiting && s.holder == None
    case Unlock(c) => InLock(s, c)
    case EnterCritical(c) => Runs(s, c)
    case ExitCritical(c) => Runs(s, c) && Mine(s, c).criticalNest > 0
    case PreemptDisable(c) => Runs(s, c)
    case IrqSave(c) => Runs(s, c)
    case IrqRestore(c) => Runs(s, c) && Mine(s, c).open.Open? && Mine(s, c).open.last.IrqSection?
    case PreemptEnable(c) => Runs(s, c) && Mine(s, c).spins > 0
    case Interrupt(c) => Runs(s, c) && !s.cpus[c].irqOff
    case RequestSwitch(c) => InLock(s, c) && s.cpus[c].context.InHandler?
    // a handler gives back what it took
    case LeaveHandler(c) => Runs(s, c) && s.cpus[c].context == InHandler(Mine(s, c))
    case Return(c) => OnCpu(s, c) && s.cpus[c].wait == NotWaiting &&
      (s.cpus[c].context == Leaving && Mine(s, c).open == Closed)
    case Switch(c, to) =>
      InLock(s, c) && Idle(s, to) && s.cpus[c].context == InThread && Mine(s, c).schedNest == 1
    case IrqSwitch(c, to) =>
      InLock(s, c) && Idle(s, to) && s.cpus[c].context == Leaving && s.cpus[c].switchFlag && Mine(s, c).schedNest == 1
  }

  /** Write back what CPU `c` and the thread it runs look like now. */
  function Put(s: State, c: nat, cpu: Cpu, l: Locks, holder: Option<nat>): (r: State)
    requires OnCpu(s, c)
  {
    State(s.threads[s.cpus[c].current := l], s.cpus[c := cpu], holder)
  }

  /**
   `rt_cpus_lock_status_restore` after CPU `c` left a thread with counters `from`: the lock stays
   with the CPU exactly if the next thread had it.
   */
  function Restore(s: State, c: nat, from: Locks, to: nat, switchFlag: bool): State
    requires OnCpu(s, c) && to < |s.threads|
  {
    State(
      s.threads[s.cpus[c].current := from],
      s.cpus[c := Cpu(to, s.threads[to].frame == InSchedule, NotWaiting, InThread, switchFlag)],
      if s.threads[to].cpusNest == 0 then None else s.holder)
  }

  function BeginLock(s: State, c: nat): State
    requires OnCpu(s, c)
  {
    var cpu, l := s.cpus[c], Mine(s, c);
    Put(s, c, cpu.(irqOff := true, wait := if l.cpusNest == 0 then ForLock else NotWaiting),
      Nest(l).(open := Open(LockSection(cpu.irqOff), l.open)), s.holder)
  }

  function TakeLock(s: State, c: nat): State
    requires OnCpu(s, c)
  {
    var cpu, l := s.cpus[c], Mine(s, c);
    if cpu.wait.ForCritical? then
      Put(s, c, cpu.(wait := NotWaiting, irqOff := cpu.wait.irqOff),
        l.(criticalNest := l.criticalNest + 1, schedNest := l.schedNest + 1), Some(c))
    else
      Put(s, c, cpu.(wait := NotWaiting), l, Some(c))
  }

  function EndLock(s: State, c: nat): State
    requires InLock(s, c)
  {
    var cpu, l := s.cpus[c], Mine(s, c);
    Put(s, c, cpu.(irqOff := l.open.last.irqOff), Unnest(l).(open := l.open.rest),
      if l.cpusNest == 1 then None else s.holder)
  }

  function BeginCritical(s: State, c: nat): State
    requires OnCpu(s, c)
  {
    var cpu, l := s.cpus[c], Mine(s, c);
    if l.cpusNest == 0 then
      Put(s, c, cpu.(irqOff := true, wait := ForCritical(cpu.irqOff)), Nest(l), s.holder)
    else
      Put(s, c, cpu, Nest(l).(criticalNest := l.criticalNest + 1, schedNest := l.schedNest + 1), s.holder)
  }

  function EndCritical(s: State, c: nat): State
    requires OnCpu(s, c) && Mine(s, c).criticalNest > 0
  {
    var cpu, l := s.cpus[c], Mine(s, c);
    var m := Unnest(l.(criticalNest := l.criticalNest - 1, schedNest := l.schedNest - 1));
    Put(s, c, cpu, m.(schedNest := if m.schedNest <= 0 then 0 else m.schedNest),
      if l.cpusNest == 1 then None else s.holder)
  }

  function BeginSpin(s: State, c: nat): State
    requires OnCpu(s, c)
  {
    var l := Mine(s, c);
    Put(s, c, s.cpus[c], l.(spins := l.spins + 1, schedNest := l.schedNest + 1), s.holder)
  }

  function BeginIrq(s: State, c: nat): State
    requires OnCpu(s, c)
  {
    var cpu, l := s.cpus[c], Mine(s, c);
    Put(s, c, cpu.(irqOff := true), l.(open := Open(IrqSection(cpu.irqOff), l.open)), s.holder)
  }

  function EndIrq(s: State, c: nat): State
    requires OnCpu(s, c) && Mine(s, c).open.Open?
  {
    var cpu, l := s.cpus[c], Mine(s, c);
    Put(s, c, cpu.(irqOff := l.open.last.irqOff), l.(open := l.open.rest), s.holder)
  }

  /** `_cpu_preempt_enable` counts down and calls `rt_schedule` with interrupts off. */
  function EndSpin(s: State, c: nat): State
    requires OnCpu(s, c) && Mine(s, c).spins > 0
  {
    var cpu, l := s.cpus[c], Mine(s, c);
    Put(s, c, cpu.(irqOff := true),
      l.(spins := l.spins - 1, schedNest := l.schedNest - 1, open := Open(IrqSection(cpu.irqOff), l.open)), s.holder)
  }

  /** `rt_schedule` leaves its lock section open: the thread goes on in it when it runs again. */
  function SwitchTo(s: State, c: nat, to: nat): State
    requires OnCpu(s, c) && to < |s.threads|
  {
    Restore(s, c, Mine(s, c).(frame := InSchedule), to, s.cpus[c].switchFlag)
  }

  /** `rt_scheduler_do_irq_switch` undoes its own lock: the thread goes on where it was interrupted. */
  function IrqSwitchTo(s: State, c: nat, to: nat): State
    requires OnCpu(s, c) && to < |s.threads|
  {
    var l := Mine(s, c);
    Restore(s, c,
      l.(cpusNest := l.cpusNest - 1, schedNest := l.schedNest - 1, open := Closed, frame := Interrupted),
      to, false)
  }

  function Apply(s: State, step: Step): State
    requires Enabled(s, step)
  {
    match step
    case LockBegin(c) => BeginLock(s, c)
    case Acquire(c) => TakeLock(s, c)
    case Unlock(c) => EndLock(s, c)
    case EnterCritical(c) => BeginCritical(s, c)
    case ExitCritical(c) => EndCritical(s, c)
    case PreemptDisable(c) => BeginSpin(s, c)
    case IrqSave(c) => BeginIrq(s, c)
    case IrqRestore(c) => EndIrq(s, c)
    case PreemptEnable(c) => EndSpin(s, c)
    case Interrupt(c) =>
      Put(s, c, s.cpus[c].(irqOff := true, context := InHandler(Mine(s, c))), Mine(s, c), s.holder)
    case RequestSwitch(c) => Put(s, c, s.cpus[c].(switchFlag := true), Mine(s, c), s.holder)
    case LeaveHandler(c) => Put(s, c, s.cpus[c].(context := Leaving), Mine(s, c), s.holder)
    case Return(c) => Put(s, c, s.cpus[c].(context := InThread, irqOff := false), Mine(s, c), s.holder)
    case Switch(c, to) => SwitchTo(s, c, to)
    case IrqSwitch(c, to) => IrqSwitchTo(s, c, to)
  }

  // ------------------------------------------------------------------ the invariant

  /** The counters of a thread add up; it has one lock more while it waits to enter a critical section. */
  ghost predicate AddsUp(l: Locks, entering: bool) {
    && l.cpusNest == l.criticalNest + LockSections(l.open) + (if entering then 1 else 0)
    && l.schedNest == (if l.cpusNest > 0 then 1 else 0) + l.criticalNest + l.spins
  }

  /** Every section found interrupts off, but for the outermost one of a thread outside handlers. */
  ghost predicate Levels(open: Sections, handling: bool) {
    open.Open? ==> (open.last.irqOff <==> open.rest.Open? || handling) && Levels(open.rest, handling)
  }

  /** A thread that does not run is outside all critical and spin sections. */
  ghost predicate Parked(l: Locks) {
    && AddsUp(l, false) && l.criticalNest == 0 && l.spins == 0
    && Levels(l.open, false)
    && if l.frame.InSchedule? then l.open.Open? && l.open.last.LockSection? else l.open.Closed?
  }

  /** Interrupts are off exactly while a section is open, the lock is waited for, or an interrupt is handled. */
  ghost predicate IrqOk(cpu: Cpu, l: Locks) {
    var handling := cpu.context != InThread;
    && Levels(l.open, handling)
    && (cpu.irqOff <==> l.open.Open? || handling || cpu.wait != NotWaiting)
    && (cpu.context.InHandler? ==> cpu.context.base.open == Closed)
    && (cpu.context == Leaving && l.open.Open? ==> l.open.rest == Closed && l.open.last.LockSection?)
    && (cpu.wait.ForCritical? ==> cpu.context != Leaving && (cpu.wait.irqOff <==> l.open.Open? || handling))
  }

  /** The spin lock is held by `c` exactly if the thread it runs has it and `c` does not spin. */
  ghost predicate LockOk(cpu: Cpu, l: Locks, c: nat, holder: Option<nat>) {
    && AddsUp(l, cpu.wait.ForCritical?)
    && (cpu.wait != NotWaiting ==> l.cpusNest == 1 && holder != Some(c))
    && (cpu.wait == ForLock ==> l.open.Open? && l.open.last.LockSection?)
    && (cpu.wait == NotWaiting ==> (holder == Some(c) <==> l.cpusNest > 0))
  }

  ghost predicate CpuOk(s: State, c: nat)
    requires OnCpu(s, c)
  {
    IrqOk(s.cpus[c], Mine(s, c)) && LockOk(s.cpus[c], Mine(s, c), c, s.holder)
  }

  ghost predicate Inv(s: State) {
    && (forall c :: 0 <= c < |s.cpus| ==> OnCpu(s, c) && CpuOk(s, c))
    && (forall c, d :: 0 <= c < d < |s.cpus| ==> s.cpus[c].current != s.cpus[d].current)
    && (forall t: nat :: Idle(s, t) ==> Parked(s.threads[t]))
  }

  lemma PutInv(s: State, c: nat, cpu: Cpu, l: Locks, holder: Option<nat>)
    requires Inv(s) && OnCpu(s, c) && cpu.current == s.cpus[c].current
    requires holder == s.holder || (s.holder == None && holder == Some(c)) || (s.holder == Some(c) && holder == None)
    requires IrqOk(cpu, l) && LockOk(cpu, l, c, holder)
    ensures Inv(Put(s, c, cpu, l, holder))
  {
    hide IrqOk, AddsUp, Parked;
    var r := Put(s, c, cpu, l, holder);
    forall d | 0 <= d < |r.cpus| ensures OnCpu(r, d) && CpuOk(r, d) {
      assert OnCpu(s, d) && CpuOk(s, d);
    }
    forall t: nat | Idle(r, t) ensures Parked(r.threads[t]) {
      assert r.cpus[c].current != t;
      forall d | 0 <= d < |s.cpus| ensures s.cpus[d].current != t {
        assert r.cpus[d].current != t;
      }
      assert Idle(s, t);
    }
  }

  /** A parked thread fits on the CPU that switches to it. */
  lemma ParkedRuns(l: Locks, current: nat, flag: bool, c: nat)
    requires Parked(l)
    ensures IrqOk(Cpu(current, l.frame == InSchedule, NotWaiting, InThread, flag), l)
    ensures LockOk(Cpu(current, l.frame == InSchedule, NotWaiting, InThread, flag), l, c,
      if l.cpusNest == 0 then None else Some(c))
  {
  }

  lemma RestoreInv(s: State, c: nat, from: Locks, to: nat, flag: bool)
    requires Inv(s) && OnCpu(s, c) && Idle(s, to) && Parked(from) && s.holder == Some(c)
    ensures Inv(Restore(s, c, from, to, flag))
  {
    hide Parked, IrqOk, AddsUp, LockSections, Levels;
    var r := Restore(s, c, from, to, flag);
    ParkedRuns(s.threads[to], to, flag, c);
    forall d | 0 <= d < |r.cpus| ensures OnCpu(r, d) && CpuOk(r, d) {
      assert OnCpu(s, d) && CpuOk(s, d);
    }
    forall t: nat | Idle(r, t) ensures Parked(r.threads[t]) {
      assert r.cpus[c].current != t;
      if t != s.cpus[c].current {
        forall d | 0 <= d < |s.cpus| ensures s.cpus[d].current != t {
          assert r.cpus[d].current != t;
        }
        assert Idle(s, t);
      }
    }
  }

  lemma OpenIrq(cpu: Cpu, x: Section, cpu': Cpu, l: Locks, l': Locks)
    requires IrqOk(cpu, l) && cpu.wait == NotWaiting && x.irqOff == cpu.irqOff
    requires cpu.context == Leaving ==> l.open == Closed && x.LockSection?
    requires cpu'.irqOff && cpu'.context == cpu.context && !cpu'.wait.ForCritical? && l'.open == Open(x, l.open)
    ensures IrqOk(cpu', l')
  {
  }

  lemma CloseIrq(cpu: Cpu, l: Locks, cpu': Cpu, l': Locks)
    requires IrqOk(cpu, l) && l.open.Open? && cpu.wait == NotWaiting
    requires cpu'.irqOff == l.open.last.irqOff && cpu'.wait == NotWaiting && cpu'.context == cpu.context
    requires l'.open == l.open.rest
    ensures IrqOk(cpu', l')
  {
  }

  /** What the source asserts holds: nothing is unlocked that is not locked. */
  lemma AssertionsHold(s: State, step: Step)
    requires Inv(s) && Enabled(s, step)
    requires step.Unlock? || step.ExitCritical? || step.IrqSwitch?
    ensures Mine(s, step.c).cpusNest > 0 && s.holder == Some(step.c)
  {
    hide IrqOk;
    assert CpuOk(s, step.c);
  }

  lemma CpusOk(s: State, c: nat)
    requires Inv(s) && c < |s.cpus|
    ensures OnCpu(s, c) && CpuOk(s, c)
  {
  }

  lemma BeginLockInv(s: State, c: nat)
    requires Inv(s) && OnCpu(s, c) && s.cpus[c].wait == NotWaiting
    requires s.cpus[c].context == Leaving ==> Mine(s, c).open == Closed
    ensures Inv(BeginLock(s, c))
  {
    hide Inv;
    CpusOk(s, c);
    hide CpuOk, IrqOk;
    var cpu, l := s.cpus[c], Mine(s, c);
    var cpu' := cpu.(irqOff := true, wait := if l.cpusNest == 0 then ForLock else NotWaiting);
    var l' := Nest(l).(open := Open(LockSection(cpu.irqOff), l.open));
    OpenIrq(cpu, LockSection(cpu.irqOff), cpu', l, l');
    PutInv(s, c, cpu', l', s.holder);
  }

  lemma AcquireIrq(cpu: Cpu, l: Locks, m: Locks)
    requires IrqOk(cpu, l) && cpu.wait != NotWaiting && l.open == m.open && (cpu.wait == ForLock ==> l.open.Open?)
    ensures cpu.wait == ForLock ==> IrqOk(cpu.(wait := NotWaiting), m)
    ensures cpu.wait.ForCritical? ==> IrqOk(cpu.(wait := NotWaiting, irqOff := cpu.wait.irqOff), m)
  {
  }

  lemma TakeLockInv(s: State, c: nat)
    requires Inv(s) && OnCpu(s, c) && s.cpus[c].wait != NotWaiting && s.holder == None
    ensures Inv(TakeLock(s, c))
  {
    hide Inv;
    CpusOk(s, c);
    hide CpuOk, IrqOk, LockSections;
    var cpu, l := s.cpus[c], Mine(s, c);
    var m := if cpu.wait.ForCritical? then l.(criticalNest := l.criticalNest + 1, schedNest := l.schedNest + 1) else l;
    AcquireIrq(cpu, l, m);
    if cpu.wait.ForCritical? {
      PutInv(s, c, cpu.(wait := NotWaiting, irqOff := cpu.wait.irqOff), m, Some(c));
    } else {
      PutInv(s, c, cpu.(wait := NotWaiting), m, Some(c));
    }
  }

  lemma EndLockInv(s: State, c: nat)
    requires Inv(s) && InLock(s, c)
    ensures Inv(EndLock(s, c))
  {
    hide Inv;
    CpusOk(s, c);
    hide CpuOk, IrqOk;
    var cpu, l := s.cpus[c], Mine(s, c);
    var cpu' := cpu.(irqOff := l.open.last.irqOff);
    var l' := Unnest(l).(open := l.open.rest);
    CloseIrq(cpu, l, cpu', l');
    PutInv(s, c, cpu', l', if l.cpusNest == 1 then None else s.holder);
  }

  lemma BeginCriticalInv(s: State, c: nat)
    requires Inv(s) && Runs(s, c)
    ensures Inv(BeginCritical(s, c))
  {
    hide Inv;
    CpusOk(s, c);
    hide CpuOk, LockSections;
    var l := Mine(s, c);
    if l.cpusNest == 0 {
      PutInv(s, c, s.cpus[c].(irqOff := true, wait := ForCritical(s.cpus[c].irqOff)), Nest(l), s.holder);
    } else {
      PutInv(s, c, s.cpus[c],
        Nest(l).(criticalNest := l.criticalNest + 1, schedNest := l.schedNest + 1), s.holder);
    }
  }

  /** The clamp at the end of `rt_exit_critical` never has anything to do. */
  lemma ClampIdle(s: State, c: nat)
    requires Inv(s) && Runs(s, c) && Mine(s, c).criticalNest > 0
    ensures var less := Mine(s, c).(criticalNest := Mine(s, c).criticalNest - 1, schedNest := Mine(s, c).schedNest - 1);
            Unnest(less).schedNest >= 0
  {
    hide Inv;
    CpusOk(s, c);
    hide IrqOk;
  }

  lemma EndCriticalInv(s: State, c: nat)
    requires Inv(s) && Runs(s, c) && Mine(s, c).criticalNest > 0
    ensures Inv(EndCritical(s, c))
  {
    hide Inv;
    CpusOk(s, c);
    hide CpuOk, IrqOk, LockSections;
    var l := Mine(s, c);
    var m := Unnest(l.(criticalNest := l.criticalNest - 1, schedNest := l.schedNest - 1));
    assert m.schedNest >= 0;
    PutInv(s, c, s.cpus[c], m, if l.cpusNest == 1 then None else s.holder) by {
      assert IrqOk(s.cpus[c], m) by { SameOpen(s.cpus[c], l, m); }
    }
  }

  lemma SameOpen(cpu: Cpu, l: Locks, m: Locks)
    requires IrqOk(cpu, l) && l.open == m.open
    ensures IrqOk(cpu, m)
  {
  }

  /** Spin sections and the scheduler lock move together. */
  lemma SpinCounts(cpu: Cpu, l: Locks, cpu': Cpu, m: Locks, c: nat, holder: Option<nat>)
    requires LockOk(cpu, l, c, holder) && cpu.wait == cpu'.wait == NotWaiting
    requires m.cpusNest == l.cpusNest && m.criticalNest == l.criticalNest
    requires LockSections(m.open) == LockSections(l.open)
    requires m.schedNest - m.spins == l.schedNest - l.spins
    ensures LockOk(cpu', m, c, holder)
  {
  }

  lemma NoLock(irqOff: bool, open: Sections)
    ensures LockSections(Open(IrqSection(irqOff), open)) == LockSections(open)
  {
  }

  lemma BeginSpinInv(s: State, c: nat)
    requires Inv(s) && Runs(s, c)
    ensures Inv(BeginSpin(s, c))
  {
    hide Inv;
    CpusOk(s, c);
    hide CpuOk, IrqOk, LockOk, LockSections;
    var cpu, l := s.cpus[c], Mine(s, c);
    var m := l.(spins := l.spins + 1, schedNest := l.schedNest + 1);
    SameOpen(cpu, l, m);
    SpinCounts(cpu, l, cpu, m, c, s.holder);
    PutInv(s, c, cpu, m, s.holder);
  }

  lemma EndSpinInv(s: State, c: nat)
    requires Inv(s) && Runs(s, c) && Mine(s, c).spins > 0
    ensures Inv(EndSpin(s, c))
  {
    hide Inv, LockSections;
    CpusOk(s, c);
    hide CpuOk, IrqOk, LockOk;
    var cpu, l := s.cpus[c], Mine(s, c);
    NoLock(cpu.irqOff, l.open);
    var cpu' := cpu.(irqOff := true);
    var l' := l.(spins := l.spins - 1, schedNest := l.schedNest - 1, open := Open(IrqSection(cpu.irqOff), l.open));
    OpenIrq(cpu, IrqSection(cpu.irqOff), cpu', l, l');
    SpinCounts(cpu, l, cpu', l', c, s.holder);
    PutInv(s, c, cpu', l', s.holder);
  }

  lemma BeginIrqInv(s: State, c: nat)
    requires Inv(s) && Runs(s, c)
    ensures Inv(BeginIrq(s, c))
  {
    hide Inv, LockSections;
    CpusOk(s, c);
    hide CpuOk, IrqOk, LockOk;
    var cpu, l := s.cpus[c], Mine(s, c);
    NoLock(cpu.irqOff, l.open);
    var cpu' := cpu.(irqOff := true);
    var l' := l.(open := Open(IrqSection(cpu.irqOff), l.open));
    OpenIrq(cpu, IrqSection(cpu.irqOff), cpu', l, l');
    SpinCounts(cpu, l, cpu', l', c, s.holder);
    PutInv(s, c, cpu', l', s.holder);
  }

  lemma EndIrqInv(s: State, c: nat)
    requires Inv(s) && Runs(s, c) && Mine(s, c).open.Open? && Mine(s, c).open.last.IrqSection?
    ensures Inv(EndIrq(s, c))
  {
    hide Inv, LockSections;
    CpusOk(s, c);
    hide CpuOk, IrqOk, LockOk;
    var cpu, l := s.cpus[c], Mine(s, c);
    NoLock(l.open.last.irqOff, l.open.rest);
    var cpu' := cpu.(irqOff := l.open.last.irqOff);
    var l' := l.(open := l.open.rest);
    CloseIrq(cpu, l, cpu', l');
    SpinCounts(cpu, l, cpu', l', c, s.holder);
    PutInv(s, c, cpu', l', s.holder);
  }

  lemma IrqInv(s: State, c: nat, cpu: Cpu)
    requires Inv(s) && OnCpu(s, c)
    requires s.cpus[c].wait == cpu.wait == NotWaiting && s.cpus[c].current == cpu.current
    requires
      || (Runs(s, c) && !s.cpus[c].irqOff && cpu == s.cpus[c].(irqOff := true, context := InHandler(Mine(s, c))))
      || cpu == s.cpus[c].(switchFlag := true)
      || (s.cpus[c].context == InHandler(Mine(s, c)) && cpu == s.cpus[c].(context := Leaving))
      || (Mine(s, c).open == Closed && s.cpus[c].context == Leaving &&
        cpu == s.cpus[c].(context := InThread, irqOff := false))
    ensures Inv(Put(s, c, cpu, Mine(s, c), s.holder))
  {
    hide Inv;
    CpusOk(s, c);
    hide AddsUp;
    PutInv(s, c, cpu, Mine(s, c), s.holder);
  }

  /** At a switch the thread that leaves is outside every critical and every spin section. */
  lemma SwitchOutside(s: State, step: Step)
    requires Inv(s) && Enabled(s, step) && (step.Switch? || step.IrqSwitch?)
    ensures Mine(s, step.c).criticalNest == 0 && Mine(s, step.c).spins == 0
    ensures Mine(s, step.c).cpusNest > 0 && s.holder == Some(step.c)
  {
    hide IrqOk;
    assert CpuOk(s, step.c);
  }

  lemma ScheduleParks(l: Locks)
    requires AddsUp(l, false) && Levels(l.open, false) && l.open.Open? && l.open.last.LockSection? && l.schedNest == 1
    ensures Parked(l.(frame := InSchedule))
  {
  }

  lemma IrqParks(l: Locks)
    requires AddsUp(l, false) && l.open.Open? && l.open.last.LockSection? && l.open.rest == Closed && l.schedNest == 1
    ensures Parked(l.(cpusNest := l.cpusNest - 1, schedNest := l.schedNest - 1, open := Closed, frame := Interrupted))
  {
    assert LockSections(l.open) == 1;
    assert l.cpusNest == 1 && l.criticalNest == 0 && l.spins == 0;
    assert LockSections(Closed) == 0 && Levels(Closed, false);
  }

  lemma SwitchInv(s: State, c: nat, to: nat)
    requires Inv(s) && Enabled(s, Switch(c, to))
    ensures Inv(SwitchTo(s, c, to))
  {
    hide Inv;
    SwitchOutside(s, Switch(c, to));
    CpusOk(s, c);
    hide Parked, IrqOk, LockOk;
    ScheduleParks(Mine(s, c));
    RestoreInv(s, c, Mine(s, c).(frame := InSchedule), to, s.cpus[c].switchFlag);
  }

  lemma IrqSwitchInv(s: State, c: nat, to: nat)
    requires Inv(s) && Enabled(s, IrqSwitch(c, to))
    ensures Inv(IrqSwitchTo(s, c, to))
  {
    hide Inv;
    SwitchOutside(s, IrqSwitch(c, to));
    CpusOk(s, c);
    hide Parked, IrqOk, LockOk;
    IrqParks(Mine(s, c));
    var l := Mine(s, c);
    RestoreInv(s, c,
      l.(cpusNest := l.cpusNest - 1, schedNest := l.schedNest - 1, open := Closed, frame := Interrupted), to, false);
  }

  /** Every step of every CPU keeps the invariant. */
  lemma StepInv(s: State, step: Step)
    requires Inv(s) && Enabled(s, step)
    ensures Inv(Apply(s, step))
  {
    hide Inv, Put, Restore, BeginLock, TakeLock, EndLock, BeginCritical, EndCritical;
    hide BeginSpin, EndSpin, BeginIrq, EndIrq, SwitchTo, IrqSwitchTo;
    match step {
      case LockBegin(c) => BeginLockInv(s, c);
      case Acquire(c) => TakeLockInv(s, c);
      case Unlock(c) => EndLockInv(s, c);
      case EnterCritical(c) => BeginCriticalInv(s, c);
      case ExitCritical(c) => EndCriticalInv(s, c);
      case PreemptDisable(c) => BeginSpinInv(s, c);
      case IrqSave(c) => BeginIrqInv(s, c);
      case IrqRestore(c) => EndIrqInv(s, c);
      case PreemptEnable(c) => EndSpinInv(s, c);
      case Interrupt(c) => IrqInv(s, c, s.cpus[c].(irqOff := true, context := InHandler(Mine(s, c))));
      case RequestSwitch(c) => IrqInv(s, c, s.cpus[c].(switchFlag := true));
      case LeaveHandler(c) => IrqInv(s, c, s.cpus[c].(context := Leaving));
      case Return(c) => IrqInv(s, c, s.cpus[c].(context := InThread, irqOff := false));
      case Switch(c, to) => SwitchInv(s, c, to);
      case IrqSwitch(c, to) => IrqSwitchInv(s, c, to);
    }
  }

  // ------------------------------------------------------------------ runs

  ghost predicate Fresh(cpu: Cpu) {
    !cpu.irqOff && cpu.wait == NotWaiting && cpu.context == InThread && !cpu.switchFlag
  }

  /** After `rt_system_scheduler_start` on every CPU: distinct threads, nothing locked. */
  ghost predicate Init(s: State) {
    && s.holder == None
    && (forall t :: 0 <= t < |s.threads| ==> s.threads[t] == Locks(0, 0, 0, 0, Closed, Interrupted))
    && (forall c :: 0 <= c < |s.cpus| ==>
      s.cpus[c].current < |s.threads| && Fresh(s.cpus[c]))
    && (forall c, d :: 0 <= c < d < |s.cpus| ==> s.cpus[c].current != s.cpus[d].current)
  }

  /** The state after the steps of a run, if each was enabled when it was taken. */
  function Exec(init: State, steps: seq<Step>): Option<State> {
    if steps == [] then Some(init) else
      var before := Exec(init, steps[..|steps| - 1]);
      var step := steps[|steps| - 1];
      if before.Some? && Enabled(before.value, step) then Some(Apply(before.value, step)) else None
  }

  lemma InitInv(s: State)
    requires Init(s)
    ensures Inv(s)
  {
    forall c | 0 <= c < |s.cpus| ensures OnCpu(s, c) && CpuOk(s, c) {
      var l := Mine(s, c);
      assert l == Locks(0, 0, 0, 0, Closed, Interrupted);
      InitCpu(s.cpus[c], l, c);
    }
    forall t: nat | Idle(s, t) ensures Parked(s.threads[t]) {
      assert s.threads[t] == Locks(0, 0, 0, 0, Closed, Interrupted);
    }
  }

  lemma InitCpu(cpu: Cpu, l: Locks, c: nat)
    requires l == Locks(0, 0, 0, 0, Closed, Interrupted)
    requires Fresh(cpu)
    ensures IrqOk(cpu, l) && LockOk(cpu, l, c, None)
  {
  }

  lemma {:induction false} RunInv(init: State, steps: seq<Step>, s: State)
    requires Init(init) && Exec(init, steps) == Some(s)
    ensures Inv(s)
  {
    hide Inv, Init, Apply, Enabled;
    if steps == [] {
      InitInv(s);
    } else {
      var before := Exec(init, steps[..|steps| - 1]);
      RunInv(init, steps[..|steps| - 1], before.value);
      StepInv(before.value, steps[|steps| - 1]);
    }
  }

  /** CPU `c` is past the spin lock and its thread counts the CPU lock. */
  predicate HasLock(s: State, c: nat)
    requires OnCpu(s, c)
  {
    s.cpus[c].wait == NotWaiting && Mine(s, c).cpusNest > 0
  }

  /** In every state of every run the CPU lock is held by exactly the CPU whose thread counts it. */
  lemma LockIsCounted(init: State, steps: seq<Step>, s: State, c: nat)
    requires Init(init) && Exec(init, steps) == Some(s) && c < |s.cpus|
    ensures OnCpu(s, c) && (s.holder == Some(c) <==> HasLock(s, c))
    ensures forall d: nat :: d < |s.cpus| && d != c && HasLock(s, c) ==> OnCpu(s, d) && !HasLock(s, d)
  {
    RunInv(init, steps, s);
    CpusOk(s, c);
    forall d: nat | d < |s.cpus| && d != c && HasLock(s, c) ensures OnCpu(s, d) && !HasLock(s, d) {
      CpusOk(s, d);
    }
  }

  /** In every state of every run the scheduler lock of a thread is the sum of what it has open. */
  lemma SchedulerLockAddsUp(init: State, steps: seq<Step>, s: State, t: nat)
    requires Init(init) && Exec(init, steps) == Some(s) && t < |s.threads|
    ensures var l := s.threads[t];
      l.cpusNest >= 0 && l.schedNest == (if l.cpusNest > 0 then 1 else 0) + l.criticalNest + l.spins
    ensures Idle(s, t) ==> s.threads[t].criticalNest == 0 && s.threads[t].spins == 0
  {
    RunInv(init, steps, s);
    if !Idle(s, t) {
      var c :| 0 <= c < |s.cpus| && s.cpus[c].current == t;
      CpusOk(s, c);
    }
  }

  // ------------------------------------------------------------------ the state told by the run

  /** What the steps of a run are counted by. */
  datatype Kind = Locking | Unlocking | Entering | Exiting | Disabling | Enabling | Saving | Restoring | Switching

  predicate Is(step: Step, kind: Kind) {
    match kind
    case Locking => step.LockBegin?
    case Unlocking => step.Unlock?
    case Entering => step.EnterCritical?
    case Exiting => step.ExitCritical?
    case Disabling => step.PreemptDisable?
    case Enabling => step.PreemptEnable?
    case Saving => step.IrqSave?
    case Restoring => step.IrqRestore?
    case Switching => step.IrqSwitch?
  }

  /** The thread CPU `c` runs after the steps: the one last switched to. */
  function Runner(init: State, steps: seq<Step>, c: nat): nat
    requires c < |init.cpus|
  {
    if steps == [] then init.cpus[c].current else
      var step := steps[|steps| - 1];
      if step.c == c && (step.Switch? || step.IrqSwitch?) then step.to else Runner(init, steps[..|steps| - 1], c)
  }

  /** How many steps of a kind were taken on a CPU that ran thread `t`. */
  function Count(init: State, steps: seq<Step>, t: nat, kind: Kind): nat {
    if steps == [] then 0 else
      var before, step := steps[..|steps| - 1], steps[|steps| - 1];
      Count(init, before, t, kind)
      + if Is(step, kind) && step.c < |init.cpus| && Runner(init, before, step.c) == t then 1 else 0
  }

  /** Whether a handler on CPU `c` has asked for a switch that has not been made since. */
  function Asked(steps: seq<Step>, c: nat): bool {
    if steps == [] then false else
      var step := steps[|steps| - 1];
      if step == RequestSwitch(c) then true
      else if step.IrqSwitch? && step.c == c then false
      else Asked(steps[..|steps| - 1], c)
  }

  function IrqSections(open: Sections): nat {
    match open
    case Closed => 0
    case Open(last, rest) => IrqSections(rest) + (if last.IrqSection? then 1 else 0)
  }

  /** The thread spins for the lock, about to enter a critical section. */
  ghost predicate Enters(s: State, t: nat) {
    exists c :: 0 <= c < |s.cpus| && s.cpus[c].current == t && s.cpus[c].wait.ForCritical?
  }

  datatype Sums = Sums(spins: int, criticals: int, locks: int, irqs: int)

  ghost function SumsOf(s: State, t: nat): Sums
    requires t < |s.threads|
  {
    var l := s.threads[t];
    Sums(l.spins, l.criticalNest + (if Enters(s, t) then 1 else 0), LockSections(l.open), IrqSections(l.open))
  }

  function Gained(step: Step): Sums {
    match step
    case LockBegin(_) => Sums(0, 0, 1, 0)
    case Unlock(_) => Sums(0, 0, -1, 0)
    case EnterCritical(_) => Sums(0, 1, 0, 0)
    case ExitCritical(_) => Sums(0, -1, 0, 0)
    case PreemptDisable(_) => Sums(1, 0, 0, 0)
    case PreemptEnable(_) => Sums(-1, 0, 0, 1)
    case IrqSave(_) => Sums(0, 0, 0, 1)
    case IrqRestore(_) => Sums(0, 0, 0, -1)
    case IrqSwitch(_, _) => Sums(0, 0, -1, 0)
    case Acquire(_) => Sums(0, 0, 0, 0)
    case Interrupt(_) => Sums(0, 0, 0, 0)
    case RequestSwitch(_) => Sums(0, 0, 0, 0)
    case LeaveHandler(_) => Sums(0, 0, 0, 0)
    case Return(_) => Sums(0, 0, 0, 0)
    case Switch(_, _) => Sums(0, 0, 0, 0)
  }

  function Plus(a: Sums, b: Sums): Sums {
    Sums(a.spins + b.spins, a.criticals + b.criticals, a.locks + b.locks, a.irqs + b.irqs)
  }

  /** The same, by counting steps. */
  function Told(init: State, steps: seq<Step>, t: nat): Sums {
    Sums(
      Count(init, steps, t, Disabling) - Count(init, steps, t, Enabling),
      Count(init, steps, t, Entering) - Count(init, steps, t, Exiting),
      Count(init, steps, t, Locking) - Count(init, steps, t, Unlocking) - Count(init, steps, t, Switching),
      Count(init, steps, t, Saving) + Count(init, steps, t, Enabling) - Count(init, steps, t, Restoring))
  }

  lemma ToldMore(init: State, steps: seq<Step>, t: nat)
    requires steps != [] && steps[|steps| - 1].c < |init.cpus|
    ensures var before, step := steps[..|steps| - 1], steps[|steps| - 1];
            Told(init, steps, t) ==
            if Runner(init, before, step.c) == t then Plus(Told(init, before, t), Gained(step))
            else Told(init, before, t)
  {
    hide Runner;
  }

  /** A step on the current thread of a CPU is nobody else's. */
  lemma PutEnters(s: State, c: nat, cpu: Cpu, l: Locks, holder: Option<nat>, t: nat)
    requires Inv(s) && OnCpu(s, c) && cpu.current == s.cpus[c].current && t < |s.threads|
    ensures var r := Put(s, c, cpu, l, holder);
            && (t != cpu.current ==> r.threads[t] == s.threads[t] && (Enters(r, t) <==> Enters(s, t)))
            && (t == cpu.current ==> r.threads[t] == l && (Enters(r, t) <==> cpu.wait.ForCritical?)
                                     && (Enters(s, t) <==> s.cpus[c].wait.ForCritical?))
  {
    hide CpuOk, Parked, Idle;
    var r := Put(s, c, cpu, l, holder);
    assert r.cpus[c] == cpu;
    forall d | 0 <= d < |s.cpus| && d != c ensures r.cpus[d] == s.cpus[d] && s.cpus[d].current != cpu.current {
    }
    if Enters(s, t) {
      var d :| 0 <= d < |s.cpus| && s.cpus[d].current == t && s.cpus[d].wait.ForCritical?;
      assert r.cpus[d].current == t;
    }
  }

  /** A switch changes the sections of the thread that leaves only. */
  lemma RestoreEnters(s: State, c: nat, from: Locks, to: nat, flag: bool, t: nat)
    requires Inv(s) && OnCpu(s, c) && Idle(s, to) && s.cpus[c].wait == NotWaiting && t < |s.threads|
    ensures var r := Restore(s, c, from, to, flag);
            && |r.threads| == |s.threads|
            && r.threads[t] == (if t == s.cpus[c].current then from else s.threads[t])
            && (Enters(r, t) <==> Enters(s, t))
  {
    hide CpuOk, Parked;
    var r := Restore(s, c, from, to, flag);
    assert r.cpus[c].wait == NotWaiting;
    forall d | 0 <= d < |s.cpus| && d != c ensures r.cpus[d] == s.cpus[d] {
    }
    if Enters(s, t) {
      var d :| 0 <= d < |s.cpus| && s.cpus[d].current == t && s.cpus[d].wait.ForCritical?;
      assert d != c && r.cpus[d].current == t;
    }
    if Enters(r, t) {
      var d :| 0 <= d < |r.cpus| && r.cpus[d].current == t && r.cpus[d].wait.ForCritical?;
      assert d != c && s.cpus[d].current == t;
    }
  }

  /** Every step but a switch writes back one CPU and the thread it runs. */
  lemma ApplyPuts(s: State, step: Step)
    requires Enabled(s, step) && !step.Switch? && !step.IrqSwitch?
    ensures OnCpu(s, step.c) && |Apply(s, step).threads| == |s.threads| && |Apply(s, step).cpus| == |s.cpus|
    ensures var r, t := Apply(s, step), s.cpus[step.c].current;
            r.cpus[step.c].current == t && r == Put(s, step.c, r.cpus[step.c], r.threads[t], r.holder)
  {
  }

  /** What a step makes of the thread that takes it. */
  lemma StepGains(s: State, step: Step)
    requires Inv(s) && Enabled(s, step) && !step.Switch? && !step.IrqSwitch?
    ensures OnCpu(s, step.c) && |Apply(s, step).threads| == |s.threads| && |Apply(s, step).cpus| == |s.cpus|
    ensures var r, l := Apply(s, step), Mine(s, step.c);
            var m := r.threads[s.cpus[step.c].current];
            && m.spins == l.spins + Gained(step).spins
            && m.criticalNest + (if r.cpus[step.c].wait.ForCritical? then 1 else 0) ==
               l.criticalNest + (if s.cpus[step.c].wait.ForCritical? then 1 else 0) + Gained(step).criticals
            && LockSections(m.open) == LockSections(l.open) + Gained(step).locks
            && IrqSections(m.open) == IrqSections(l.open) + Gained(step).irqs
  {
    CpusOk(s, step.c);
    hide Inv, Idle, IrqOk, Levels;
  }

  lemma SwitchGains(l: Locks)
    requires l.open.Open? && l.open.rest == Closed && l.open.last.LockSection?
    ensures LockSections(Closed) == LockSections(l.open) - 1 && IrqSections(Closed) == IrqSections(l.open) == 0
  {
    assert LockSections(l.open.rest) == 0 && IrqSections(l.open.rest) == 0;
  }

  /** One step, on what is open: a thread gains exactly what the step says if it is the one that takes it. */
  lemma StepSums(s: State, step: Step, t: nat)
    requires Inv(s) && Enabled(s, step) && t < |s.threads|
    ensures OnCpu(s, step.c) && t < |Apply(s, step).threads|
    ensures SumsOf(Apply(s, step), t) ==
      if s.cpus[step.c].current == t then Plus(SumsOf(s, t), Gained(step)) else SumsOf(s, t)
  {
    var c := step.c;
    if step.Switch? || step.IrqSwitch? {
      SwitchSums(s, step, t);
    } else {
      hide Inv, Apply, Put, Enters, LockSections, IrqSections, Gained, CpuOk;
      ApplyPuts(s, step);
      StepGains(s, step);
      var r := Apply(s, step);
      PutEnters(s, c, r.cpus[c], r.threads[s.cpus[c].current], r.holder, t);
    }
  }

  lemma SwitchSums(s: State, step: Step, t: nat)
    requires Inv(s) && Enabled(s, step) && t < |s.threads| && (step.Switch? || step.IrqSwitch?)
    ensures OnCpu(s, step.c) && t < |Apply(s, step).threads|
    ensures SumsOf(Apply(s, step), t) ==
      if s.cpus[step.c].current == t then Plus(SumsOf(s, t), Gained(step)) else SumsOf(s, t)
  {
    SwitchIs(s, step);
    SwitchOpen(s, step);
    hide Inv, Apply, SumsOf, SwitchTo, IrqSwitchTo, Parked, Idle;
    if step.Switch? {
      SwitchToSums(s, step.c, step.to, t);
    } else {
      IrqSwitchToSums(s, step.c, step.to, t);
    }
  }

  lemma SwitchToSums(s: State, c: nat, to: nat, t: nat)
    requires Inv(s) && OnCpu(s, c) && Idle(s, to) && s.cpus[c].wait == NotWaiting && t < |s.threads|
    ensures |SwitchTo(s, c, to).threads| == |s.threads| && SumsOf(SwitchTo(s, c, to), t) == SumsOf(s, t)
  {
    hide Inv, Restore, Enters, Idle;
    RestoreEnters(s, c, Mine(s, c).(frame := InSchedule), to, s.cpus[c].switchFlag, t);
  }

  lemma IrqSwitchToSums(s: State, c: nat, to: nat, t: nat)
    requires Inv(s) && OnCpu(s, c) && Idle(s, to) && s.cpus[c].wait == NotWaiting && t < |s.threads|
    requires var l := Mine(s, c); l.open.Open? && l.open.rest == Closed && l.open.last.LockSection?
    ensures |IrqSwitchTo(s, c, to).threads| == |s.threads|
    ensures SumsOf(IrqSwitchTo(s, c, to), t) ==
      if s.cpus[c].current == t then Plus(SumsOf(s, t), Sums(0, 0, -1, 0)) else SumsOf(s, t)
  {
    hide Inv, Restore, Enters, Idle, LockSections, IrqSections;
    var l := Mine(s, c);
    SwitchGains(l);
    RestoreEnters(s, c,
      l.(cpusNest := l.cpusNest - 1, schedNest := l.schedNest - 1, open := Closed, frame := Interrupted),
      to, false, t);
  }

  /** What a thread that is switched out has open. */
  lemma SwitchOpen(s: State, step: Step)
    requires Inv(s) && Enabled(s, step) && (step.Switch? || step.IrqSwitch?)
    ensures OnCpu(s, step.c) && s.cpus[step.c].wait == NotWaiting
    ensures Mine(s, step.c).open.Open? && Mine(s, step.c).open.last.LockSection?
    ensures step.IrqSwitch? ==> Mine(s, step.c).open.rest == Closed
  {
    CpusOk(s, step.c);
    hide Inv, Levels, LockOk;
  }

  lemma StepSizes(s: State, step: Step)
    requires Enabled(s, step)
    ensures |Apply(s, step).cpus| == |s.cpus| && |Apply(s, step).threads| == |s.threads| && step.c < |s.cpus|
  {
  }

  /** Who runs and which switch is asked for, after one more step. */
  lemma StepCpu(s: State, step: Step, c: nat)
    requires Enabled(s, step) && c < |s.cpus|
    ensures |Apply(s, step).cpus| == |s.cpus|
    ensures var r := Apply(s, step).cpus[c];
            && r.current == (if step.c == c && (step.Switch? || step.IrqSwitch?) then step.to else s.cpus[c].current)
            && (r.switchFlag <==>
                  step == RequestSwitch(c) || (s.cpus[c].switchFlag && !(step.IrqSwitch? && step.c == c)))
  {
  }

  /** A run keeps what it counts. */
  lemma {:induction false} Follows(init: State, steps: seq<Step>, s: State)
    requires Init(init) && Exec(init, steps) == Some(s)
    ensures |s.cpus| == |init.cpus| && |s.threads| == |init.threads|
    ensures forall c: nat :: c < |s.cpus| ==>
      s.cpus[c].current == Runner(init, steps, c) && (s.cpus[c].switchFlag <==> Asked(steps, c))
    ensures forall t: nat :: t < |s.threads| ==> SumsOf(s, t) == Told(init, steps, t)
  {
    hide Inv, Apply, Enabled, Put, Restore, SumsOf, Told, Plus, Gained;
    if steps == [] {
      InitFollows(init);
    } else {
      var before, step := steps[..|steps| - 1], steps[|steps| - 1];
      var u := Exec(init, before).value;
      assert Enabled(u, step) && s == Apply(u, step);
      hide Init, Exec;
      StepSizes(u, step);
      RunInv(init, before, u);
      Follows(init, before, u);
      forall c: nat | c < |s.cpus|
        ensures s.cpus[c].current == Runner(init, steps, c) && (s.cpus[c].switchFlag <==> Asked(steps, c))
      {
        StepCpu(u, step, c);
      }
      forall t: nat | t < |s.threads| ensures SumsOf(s, t) == Told(init, steps, t) {
        StepSums(u, step, t);
        ToldMore(init, steps, t);
      }
    }
  }

  lemma InitFollows(init: State)
    requires Init(init)
    ensures forall c: nat :: c < |init.cpus| ==>
      init.cpus[c].current == Runner(init, [], c) && (init.cpus[c].switchFlag <==> Asked([], c))
    ensures forall t: nat :: t < |init.threads| ==> SumsOf(init, t) == Told(init, [], t)
  {
    forall t: nat | t < |init.threads| ensures SumsOf(init, t) == Told(init, [], t) {
      assert init.threads[t] == Locks(0, 0, 0, 0, Closed, Interrupted);
    }
  }

  /**
   In every run the counters of a thread are what its own steps say: its open spin sections are the
   spin locks it took less those it gave back, its critical nest the entries that got the lock less
   the exits, and its CPU lock count the sum of all sections it has begun and not ended.
   */
  lemma CountersCount(init: State, steps: seq<Step>, s: State, t: nat)
    requires Init(init) && Exec(init, steps) == Some(s) && t < |s.threads|
    ensures s.threads[t].spins == Count(init, steps, t, Disabling) - Count(init, steps, t, Enabling)
    ensures s.threads[t].criticalNest + (if Enters(s, t) then 1 else 0) ==
            Count(init, steps, t, Entering) - Count(init, steps, t, Exiting)
    ensures s.threads[t].cpusNest ==
            Count(init, steps, t, Locking) + Count(init, steps, t, Entering)
            - Count(init, steps, t, Unlocking) - Count(init, steps, t, Exiting) - Count(init, steps, t, Switching)
    ensures IrqSections(s.threads[t].open) ==
            Count(init, steps, t, Saving) + Count(init, steps, t, Enabling) - Count(init, steps, t, Restoring)
  {
    hide Init, Exec, Count, Inv;
    Follows(init, steps, s);
    assert SumsOf(s, t) == Told(init, steps, t);
    RunInv(init, steps, s);
    CountsAddUp(s, t);
  }

  /** The CPU lock count of any thread, running or parked. */
  lemma CountsAddUp(s: State, t: nat)
    requires Inv(s) && t < |s.threads|
    ensures var l := s.threads[t];
            && l.cpusNest == l.criticalNest + LockSections(l.open) + (if Enters(s, t) then 1 else 0)
            && l.schedNest == (if l.cpusNest > 0 then 1 else 0) + l.criticalNest + l.spins
  {
    hide IrqOk, Levels;
    if !Idle(s, t) {
      var c :| 0 <= c < |s.cpus| && s.cpus[c].current == t;
      CpusOk(s, c);
      PutEnters(s, c, s.cpus[c], Mine(s, c), s.holder, t);
    }
  }

  /** No thread is ever switched out between a spin lock or a critical section it took and giving it back. */
  lemma NeverInside(init: State, steps: seq<Step>, s: State, step: Step)
    requires Init(init) && Exec(init, steps) == Some(s)
    requires (step.Switch? || step.IrqSwitch?) && Enabled(s, step)
    ensures step.c < |init.cpus|
    ensures var t := Runner(init, steps, step.c);
            && Count(init, steps, t, Disabling) == Count(init, steps, t, Enabling)
            && Count(init, steps, t, Entering) == Count(init, steps, t, Exiting)
  {
    hide Init, Exec, Count, Inv, Runner;
    RunInv(init, steps, s);
    Follows(init, steps, s);
    SwitchOutside(s, step);
    var t := s.cpus[step.c].current;
    PutEnters(s, step.c, s.cpus[step.c], Mine(s, step.c), s.holder, t);
    CountersCount(init, steps, s, t);
  }

  /**
   In every run interrupts are off on a CPU exactly while its thread has a section open, waits for the
   lock, or an interrupt is being handled: every section gives back the level it found.
   */
  lemma LevelGivenBack(init: State, steps: seq<Step>, s: State, c: nat)
    requires Init(init) && Exec(init, steps) == Some(s) && c < |s.cpus|
    ensures OnCpu(s, c)
    ensures s.cpus[c].irqOff <==>
      Mine(s, c).open.Open? || s.cpus[c].context != InThread || s.cpus[c].wait != NotWaiting
  {
    hide Init, Exec, Inv;
    RunInv(init, steps, s);
    CpusOk(s, c);
  }

  /** On the way out of a handler a switch is made only if one was asked for since the last. */
  lemma SwitchAsked(init: State, steps: seq<Step>, s: State, c: nat, to: nat)
    requires Init(init) && Exec(init, steps) == Some(s) && Enabled(s, IrqSwitch(c, to))
    ensures Asked(steps, c)
  {
    hide Init, Exec, Asked;
    Follows(init, steps, s);
  }

  /** The counters the current thread of CPU `c` had when the last interrupt came. */
  function Found(init: State, steps: seq<Step>, c: nat): Option<Locks> {
    if steps == [] then None else
      var u := Exec(init, steps[..|steps| - 1]);
      if steps[|steps| - 1] == Interrupt(c) then (if u.Some? && OnCpu(u.value, c) then Some(Mine(u.value, c)) else None)
      else Found(init, steps[..|steps| - 1], c)
  }

  lemma StepHandles(s: State, step: Step, c: nat)
    requires Enabled(s, step) && c < |s.cpus|
    ensures |Apply(s, step).cpus| == |s.cpus| && (step == Interrupt(c) ==> OnCpu(s, c))
    ensures Apply(s, step).cpus[c].context.InHandler? ==>
      Apply(s, step).cpus[c].context ==
        if step == Interrupt(c) then InHandler(Mine(s, c)) else s.cpus[c].context
  {
  }

  lemma {:induction false} HandlerFound(init: State, steps: seq<Step>, s: State, c: nat)
    requires Init(init) && Exec(init, steps) == Some(s) && c < |s.cpus| && s.cpus[c].context.InHandler?
    ensures Found(init, steps, c) == Some(s.cpus[c].context.base)
  {
    hide Apply, Enabled;
    if steps != [] {
      var before, step := steps[..|steps| - 1], steps[|steps| - 1];
      var u := Exec(init, before).value;
      assert Enabled(u, step) && s == Apply(u, step);
      hide Init, Exec;
      StepSizes(u, step);
      StepHandles(u, step, c);
      if step != Interrupt(c) { HandlerFound(init, before, u, c); }
    }
  }

  /** A handler leaves the thread it interrupted with the counters and sections it found. */
  lemma HandlerGivesBack(init: State, steps: seq<Step>, s: State, c: nat)
    requires Init(init) && Exec(init, steps) == Some(s) && Enabled(s, LeaveHandler(c))
    ensures OnCpu(s, c) && Found(init, steps, c) == Some(Mine(s, c))
  {
    hide Init, Exec, Found;
    HandlerFound(init, steps, s, c);
  }

  lemma ParkedNest(l: Locks)
    requires Parked(l)
    ensures l.cpusNest == 0 <==> l.frame == Interrupted
  {
  }

  /** CPU `c` runs thread `to`, untouched, and has the lock exactly if that thread left holding it. */
  ghost predicate Passed(s: State, r: State, c: nat, to: nat) {
    && c < |r.cpus| && to < |s.threads| && to < |r.threads|
    && r.cpus[c].current == to && r.threads[to] == s.threads[to]
    && r.holder == (if s.threads[to].frame == InSchedule then Some(c) else None)
    && (r.cpus[c].irqOff <==> s.threads[to].frame == InSchedule)
  }

  lemma RestoreResult(s: State, c: nat, from: Locks, to: nat, flag: bool)
    requires OnCpu(s, c) && Idle(s, to) && Parked(s.threads[to]) && s.holder == Some(c)
    ensures Passed(s, Restore(s, c, from, to, flag), c, to)
  {
    hide Parked;
    assert s.cpus[c].current != to by { hide Restore; }
    ParkedNest(s.threads[to]);
  }

  /** Of the two ways to switch, what each leaves behind. */
  lemma SwitchPasses(s: State, c: nat, to: nat)
    requires OnCpu(s, c) && Idle(s, to) && Parked(s.threads[to]) && s.holder == Some(c)
    ensures Passed(s, SwitchTo(s, c, to), c, to) && Passed(s, IrqSwitchTo(s, c, to), c, to)
  {
    hide Parked, Restore, Idle;
    var l := Mine(s, c);
    RestoreResult(s, c, l.(frame := InSchedule), to, s.cpus[c].switchFlag);
    RestoreResult(s, c,
      l.(cpusNest := l.cpusNest - 1, schedNest := l.schedNest - 1, open := Closed, frame := Interrupted), to, false);
  }

  lemma SwitchIs(s: State, step: Step)
    requires Inv(s) && Enabled(s, step) && (step.Switch? || step.IrqSwitch?)
    ensures OnCpu(s, step.c) && Idle(s, step.to) && Parked(s.threads[step.to])
    ensures step.Switch? ==> Apply(s, step) == SwitchTo(s, step.c, step.to)
    ensures step.IrqSwitch? ==> Apply(s, step) == IrqSwitchTo(s, step.c, step.to)
  {
    hide Parked, OnCpu, CpuOk, SwitchTo, IrqSwitchTo;
  }

  /**
   A context switch of either kind happens with the lock held and outside all sections, and leaves
   the lock with the CPU exactly if the thread switched to left holding it.
   */
  lemma SwitchPassesLock(init: State, steps: seq<Step>, s: State, step: Step)
    requires Init(init) && Exec(init, steps) == Some(s)
    requires (step.Switch? || step.IrqSwitch?) && Enabled(s, step)
    ensures OnCpu(s, step.c) && s.holder == Some(step.c) && Mine(s, step.c).cpusNest > 0
    ensures Mine(s, step.c).criticalNest == 0 && Mine(s, step.c).spins == 0
    ensures Passed(s, Apply(s, step), step.c, step.to)
  {
    hide *;
    RunInv(init, steps, s);
    SwitchOutside(s, step);
    SwitchIs(s, step);
    SwitchPasses(s, step.c, step.to);
  }

  /** A waiting CPU never waits for a CPU that waits: the lock is free or its holder can move. */
  lemma HolderMoves(init: State, steps: seq<Step>, s: State, c: nat)
    requires Init(init) && Exec(init, steps) == Some(s)
    requires c < |s.cpus| && s.cpus[c].wait != NotWaiting
    ensures Enabled(s, Acquire(c)) ||
      (s.holder.Some? && s.holder.value != c && s.holder.value < |s.cpus| && s.cpus[s.holder.value].wait == NotWaiting)
  {
    RunInv(init, steps, s);
    HolderIsCpu(init, steps, s);
    CpusOk(s, c);
    if s.holder != None { CpusOk(s, s.holder.value); }
  }

  lemma {:induction false} HolderIsCpu(init: State, steps: seq<Step>, s: State)
    requires Init(init) && Exec(init, steps) == Some(s)
    ensures s.holder.Some? ==> s.holder.value < |s.cpus|
  {
    if steps != [] {
      HolderIsCpu(init, steps[..|steps| - 1], Exec(init, steps[..|steps| - 1]).value);
    }
  }

  /** A thread that does not run keeps its counters, whatever the CPUs do. */
  lemma ParkedKept(s: State, step: Step, t: nat)
    requires Enabled(s, step) && Idle(s, t)
    ensures t < |Apply(s, step).threads| && Apply(s, step).threads[t] == s.threads[t]
  {
  }

  lemma ExecStep(init: State, steps: seq<Step>, before: State, step: Step)
    requires Exec(init, steps) == Some(before) && Enabled(before, step)
    ensures Exec(init, steps + [step]) == Some(Apply(before, step))
  {
    hide Enabled, Apply;
    assert (steps + [step])[..|steps|] == steps;
  }

  const AT_REST: Locks := Locks(0, 0, 0, 0, Closed, Interrupted)
  const IN_LOCK: Locks := Locks(1, 1, 0, 0, Open(LockSection(false), Closed), Interrupted)
  const ON_THREAD_0: Cpu := Cpu(0, false, NotWaiting, InThread, false)
  const ON_THREAD_1: Cpu := Cpu(1, false, NotWaiting, InThread, false)

  /** Two CPUs and a third thread; CPU 0 asks for the lock, has it, and then CPU 1 spins for it. */
  const BOOTED: State := State([AT_REST, AT_REST, AT_REST], [ON_THREAD_0, ON_THREAD_1], None)
  const ASKED: State :=
    State([IN_LOCK, AT_REST, AT_REST], [Cpu(0, true, ForLock, InThread, false), ON_THREAD_1], None)
  const HELD: State :=
    State([IN_LOCK, AT_REST, AT_REST], [Cpu(0, true, NotWaiting, InThread, false), ON_THREAD_1], Some(0))
  const CONTENDED: State :=
    State([IN_LOCK, IN_LOCK, AT_REST],
          [Cpu(0, true, NotWaiting, InThread, false), Cpu(1, true, ForLock, InThread, false)], Some(0))

  lemma Asks()
    ensures Enabled(BOOTED, LockBegin(0)) && Apply(BOOTED, LockBegin(0)) == ASKED
  {
    assert [AT_REST, AT_REST, AT_REST][0 := IN_LOCK] == ASKED.threads;
    assert BOOTED.cpus[0 := ASKED.cpus[0]] == ASKED.cpus;
  }

  lemma Gets()
    ensures Enabled(ASKED, Acquire(0)) && Apply(ASKED, Acquire(0)) == HELD
  {
    assert ASKED.threads[0 := IN_LOCK] == HELD.threads;
    assert ASKED.cpus[0 := HELD.cpus[0]] == HELD.cpus;
  }

  lemma Contends()
    ensures Enabled(HELD, LockBegin(1)) && Apply(HELD, LockBegin(1)) == CONTENDED
  {
    assert HELD.threads[1 := IN_LOCK] == CONTENDED.threads;
    assert HELD.cpus[1 := CONTENDED.cpus[1]] == CONTENDED.cpus;
  }

  lemma Fight() returns (steps: seq<Step>)
    ensures Init(BOOTED) && Exec(BOOTED, steps) == Some(CONTENDED)
  {
    hide Enabled, Apply;
    assert Exec(BOOTED, []) == Some(BOOTED);
    hide Exec;
    Asks();
    Gets();
    Contends();
    ExecStep(BOOTED, [], BOOTED, LockBegin(0));
    ExecStep(BOOTED, [] + [LockBegin(0)], ASKED, Acquire(0));
    ExecStep(BOOTED, [] + [LockBegin(0)] + [Acquire(0)], HELD, LockBegin(1));
    steps := [] + [LockBegin(0)] + [Acquire(0)] + [LockBegin(1)];
  }

  /**
   A run in which the lock is fought for and passed on: CPU 1 spins while CPU 0 holds the lock and
   switches away from its thread, which stays parked with its count of one; then CPU 1 has it.
   */
  lemma HandedOver() returns (init: State, steps: seq<Step>, s: State)
    ensures Init(init) && Exec(init, steps) == Some(s) && |s.cpus| == 2 && |s.threads| == 3
    ensures s.holder == Some(1) && s.cpus[0].current == 2 && s.cpus[1].current == 1
    ensures s.threads[0].cpusNest == 1 && s.threads[1].cpusNest == 1 && s.threads[2].cpusNest == 0
  {
    hide Init, Exec;
    init := BOOTED;
    steps := Fight();
    assert Idle(CONTENDED, 2);
    var s4 := Apply(CONTENDED, Switch(0, 2));
    ExecStep(init, steps, CONTENDED, Switch(0, 2));
    s := Apply(s4, Acquire(1));
    ExecStep(init, steps + [Switch(0, 2)], s4, Acquire(1));
    steps := steps + [Switch(0, 2)] + [Acquire(1)];
  }
}
