/** Whole runs of the EE kernel: thread code, interrupt delivery and the scheduler loop taking turns
    on one CPU. What raises lines and marks alarms due (the clock, devices, register writes) is an
    arbitrary change of the line state. */
module Machine {
  import opened Sched
  import opened IntcLines

  /** Whom a delivery interrupted. */
  datatype Context =
    | OfThread              // thread code, at the end of a system call, an MMIO access or `ei`
    | OfLeave(tid: nat)     // the scheduler, just after `tid` gave up the CPU
    | OfIdle                // the scheduler's idle loop
    | OfSwitch              // the scheduler, about to resume the thread it just dispatched

  /** `Abort` is the fatal error of a yield outside any thread's coroutine. */
  datatype Pc = InThread | InHandler(ctx: Context) | InScheduler | Abort

  datatype Machine = Machine(k: Kernel, l: Lines, eie: bool, pc: Pc)

  datatype Step =
    | ThreadCall(c: Call)
    | ThreadEie(on: bool)
    | Deliver
    | Lines(l: Lines)           // lines and masks change under thread or handler code
    | HandlerCall(c: Call)
    | HandlerEie(on: bool)
    | EndDelivery
    | Resched
    | IdleTick(l: Lines)        // nothing ready: time jumps to the next event

  predicate CanStep(m: Machine, s: Step) {
    match s
    case ThreadCall(c) => m.pc.InThread? && Disciplined(m.k, c)
    case ThreadEie(_) => m.pc.InThread?
    case Deliver => m.pc.InThread?
    case Lines(_) => m.pc.InThread? || m.pc.InHandler?
    case HandlerCall(c) => m.pc.InHandler? && Disciplined(m.k, c)
    case HandlerEie(_) => m.pc.InHandler?
    case EndDelivery => m.pc.InHandler? && m.eie
    case Resched => m.pc.InScheduler? && BestReady(m.k.ready) >= 0 && m.k.ready[BestReady(m.k.ready)][0] < THREADS
    case IdleTick(_) => m.pc.InScheduler? && BestReady(m.k.ready) < 0
  }

  /** rt_intc_deliver up to its first handler, or past it when there is nothing to do. */
  function EnterDelivery(m: Machine, ctx: Context, otherwise: Machine): Machine {
    if m.eie && Pending(m.l) then m.(k := m.k.(inInterrupt := true), pc := InHandler(ctx)) else otherwise
  }

  function Reaped(m: Machine, tid: nat): Machine
    requires tid < THREADS
  {
    m.(k := Reap(m.k, tid), pc := InScheduler)
  }

  function SaveEie(k: Kernel, tid: nat, on: bool): Kernel
    requires tid < THREADS
  {
    SetThread(k, tid, k.threads[tid].(eie := on))
  }

  /** `tid` has given up the CPU: the scheduler saves its interrupt enable, turns interrupts on,
      which may deliver, and reaps it if it is dormant. */
  function Leave(m: Machine, tid: nat): Machine
    requires tid < THREADS
  {
    var m1 := m.(k := SaveEie(m.k, tid, m.eie), eie := true);
    EnterDelivery(m1, OfLeave(tid), Reaped(m1, tid))
  }

  /** Thread code goes on, unless what just happened took the thread off the CPU. */
  function Continue(m: Machine, tid: nat): Machine
    requires tid < THREADS
  {
    if m.k.current == 0 then Leave(m, tid) else m.(pc := InThread)
  }

  /** The delivery loop is done: out of interrupt context, then the preemption check. */
  function Finish(m: Machine, ctx: Context): Machine {
    var k1 := m.k.(inInterrupt := false);
    var m1 := m.(k := MaybePreempt(k1));
    match ctx
    case OfThread => Continue(m1, k1.current)
    case OfLeave(tid) => if tid < THREADS then Reaped(m1, tid) else m1.(pc := InScheduler)
    case OfIdle => m1.(pc := InScheduler)
    case OfSwitch => if m1.k == k1 then m1.(pc := InThread) else m1.(pc := Abort)
  }

  function Next(m: Machine, s: Step): Machine
    requires CanStep(m, s)
  {
    match s
    case ThreadCall(c) => Continue(m.(k := Do(m.k, c).k), m.k.current)
    case ThreadEie(on) => if on then EnterDelivery(m.(eie := true), OfThread, m.(eie := true)) else m.(eie := false)
    case Deliver => EnterDelivery(m, OfThread, m)
    case Lines(l) => m.(l := l)
    case HandlerCall(c) => m.(k := Do(m.k, c).k)
    case HandlerEie(on) => m.(eie := on)
    case EndDelivery => Finish(m, m.pc.ctx)
    case Resched =>
      var m1 := m.(k := Dispatch(m.k));
      var m2 := m1.(eie := m1.k.threads[m1.k.current].eie);
      EnterDelivery(m2, OfSwitch, m2.(pc := InThread))
    case IdleTick(l) =>
      var m1 := m.(l := l);
      EnterDelivery(m1, OfIdle, m1)
  }

  predicate Follows(a: Machine, s: Step, b: Machine) {
    CanStep(a, s) && b == Next(a, s)
  }

  /** A run: the states it went through and the steps between them. */
  ghost predicate IsRun(ms: seq<Machine>, steps: seq<Step>) {
    |ms| == |steps| + 1 && forall i | 0 <= i < |steps| :: Follows(ms[i], steps[i], ms[i + 1])
  }
}
