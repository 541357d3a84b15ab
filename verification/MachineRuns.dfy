/** What holds in every state of every run of the machine. */
module MachineRuns {
  import opened Sched
  import opened SchedPlacement
  import opened SchedCalls
  import opened SchedAccounts
  import opened IntcLines
  import opened Machine

  /** Who is on the CPU, by where the machine is. */
  predicate OnCpu(m: Machine) {
    match m.pc
    case InThread => m.k.current != 0
    case InHandler(OfThread) => m.k.current != 0
    case InHandler(OfSwitch) => m.k.current != 0
    case InHandler(OfLeave(tid)) => m.k.current == 0 && 0 < tid < THREADS
    case InHandler(OfIdle) => m.k.current == 0
    case InScheduler => m.k.current == 0 && m.eie
    case Abort => m.k.current == 0
  }

  /** Placement, both accounts, priority order while thread code runs, interrupt context exactly in
      handlers (which therefore never nest), and the scheduler with interrupts on. */
  ghost predicate Good(m: Machine) {
    && Inv(m.k) && Tokens(m.k) && Wakes(m.k) && PrioSafe(m.k)
    && m.k.inInterrupt == m.pc.InHandler?
    && OnCpu(m)
  }

  /** No thread, no semaphore, nothing ready. */
  function Nothing(): Kernel {
    Kern(seq(THREADS, _ => NO_THREAD), seq(SEMAS, _ => NO_SEMA), seq(PRIOS, _ => []), 0, false)
  }

  function Boot(): Machine {
    Machine(PushBack(Nothing(), 1), IntcLines.Lines({}, {}, {}, {}, {}), true, InScheduler)
  }

  lemma NothingInv()
    ensures Inv(Nothing()) && SetThread(Nothing(), 1, NO_THREAD) == Nothing()
  {
    var k := Nothing();
    forall p | 0 <= p < PRIOS ensures ReadyQueue(k, 0, p) {}
    forall s | 0 <= s < SEMAS ensures WaitQueue(k, 0, s) {}
    forall id | 0 < id < THREADS ensures ThreadOk(k, id) {}
  }

  lemma BootAccounts()
    ensures Tokens(Boot().k) && Wakes(Boot().k)
  {
    forall s | 0 <= s < SEMAS ensures SemaOk(Boot().k, s) {}
    forall i | 0 <= i < THREADS ensures CountOk(Boot().k, i) {}
  }

  lemma BootGood()
    ensures Good(Boot()) && !Pending(Boot().l)
  {
    NothingInv();
    BootAccounts();
    WakeInv(Nothing(), 1, NO_THREAD);
    hide Inv, Tokens, Wakes;
  }

  // ---- Small moves that leave the tables as they are -----------------------------

  lemma ModeAccounts(k: Kernel, b: bool)
    ensures (Tokens(k) ==> Tokens(k.(inInterrupt := b))) && (Wakes(k) ==> Wakes(k.(inInterrupt := b)))
  {
    AccountsStay(k, k.(inInterrupt := b), 0, 0);
  }

  lemma ModeInv(k: Kernel, b: bool)
    requires Inv(k)
    ensures Inv(k.(inInterrupt := b))
    ensures (Tokens(k) ==> Tokens(k.(inInterrupt := b))) && (Wakes(k) ==> Wakes(k.(inInterrupt := b)))
  {
    hide Tokens, Wakes;
    var r := k.(inInterrupt := b);
    ModeAccounts(k, b);
    forall p | 0 <= p < PRIOS ensures ReadyQueue(r, 0, p) { assert ReadyQueue(k, 0, p); }
    forall s | 0 <= s < SEMAS ensures WaitQueue(r, 0, s) { assert WaitQueue(k, 0, s); }
    forall id | 0 < id < THREADS ensures ThreadOk(r, id) { assert ThreadOk(k, id); }
  }

  lemma EnterGood(m: Machine, ctx: Context)
    requires Inv(m.k) && Tokens(m.k) && Wakes(m.k) && m.eie && Pending(m.l)
    requires OnCpu(m.(pc := InHandler(ctx)))
    ensures Good(EnterDelivery(m, ctx, m))
  {
    hide Placed, Tokens, Wakes;
    ModeInv(m.k, true);
  }

  lemma SaveKeeps(k: Kernel, tid: nat, on: bool)
    requires 0 < tid < THREADS && Inv(k) && Tokens(k) && Wakes(k)
    ensures Inv(SaveEie(k, tid, on)) && Tokens(SaveEie(k, tid, on)) && Wakes(SaveEie(k, tid, on))
  {
    hide Placed, Tokens, Wakes;
    InvThreadOk(k, tid);
    NoteInv(k, tid, k.threads[tid].(eie := on));
    SaveKeepsAccounts(k, tid, on);
  }

  lemma SaveKeepsAccounts(k: Kernel, tid: nat, on: bool)
    requires Tokens(k) && Wakes(k) && tid < THREADS
    ensures Tokens(SaveEie(k, tid, on)) && Wakes(SaveEie(k, tid, on))
  {
    AccountsStay(k, SaveEie(k, tid, on), tid, 0);
  }

  lemma LeaveGood(m: Machine, tid: nat)
    requires Inv(m.k) && Tokens(m.k) && Wakes(m.k) && !m.k.inInterrupt && m.k.current == 0 && 0 < tid < THREADS
    ensures Good(Leave(m, tid))
  {
    hide Placed, Tokens, Wakes, Reap;
    SaveKeeps(m.k, tid, m.eie);
    var m1 := m.(k := SaveEie(m.k, tid, m.eie), eie := true);
    ReapOk(m1.k, tid);
    if Pending(m1.l) { EnterGood(m1, OfLeave(tid)); }
  }

  lemma ContinueGood(m: Machine, tid: nat)
    requires Inv(m.k) && Tokens(m.k) && Wakes(m.k) && PrioSafe(m.k) && !m.k.inInterrupt && 0 < tid < THREADS
    ensures Good(Continue(m, tid))
  {
    hide Placed, Tokens, Wakes, Leave;
    if m.k.current == 0 { LeaveGood(m, tid); }
  }

  lemma FinishGood(m: Machine, ctx: Context)
    requires Good(m) && m.pc == InHandler(ctx) && m.eie
    ensures Good(Finish(m, ctx))
  {
    hide Placed, Tokens, Wakes, Reap, PrioSafe, Continue, MaybePreempt;
    var k1 := m.k.(inInterrupt := false);
    ModeInv(m.k, false);
    PreemptInv(k1);
    PreemptBalanced(k1);
    PreemptMakesSafe(k1);
    PreemptMoves(k1);
    match ctx
    case OfThread => ContinueGood(m.(k := MaybePreempt(k1)), k1.current);
    case OfLeave(tid) => ReapOk(MaybePreempt(k1), tid); SchedulerSafe(Reap(MaybePreempt(k1), tid));
    case OfIdle =>
    case OfSwitch =>
  }

  lemma PreemptMoves(k: Kernel)
    ensures MaybePreempt(k) == k || (k.current != 0 && MaybePreempt(k).current == 0)
  {}

  lemma SchedulerSafe(k: Kernel)
    ensures k.current == 0 || k.inInterrupt ==> PrioSafe(k)
  {}

  lemma CallGood(m: Machine, c: Call)
    requires Good(m) && (m.pc.InThread? || m.pc.InHandler?) && Disciplined(m.k, c)
    ensures var r := Do(m.k, c).k; Inv(r) && Tokens(r) && Wakes(r) && PrioSafe(r) && r.inInterrupt == m.k.inInterrupt
    ensures m.pc.InHandler? ==> Do(m.k, c).k.current == m.k.current
  {
    hide Placed, Tokens, Wakes, Do, PrioSafe;
    CallKeepsPlacement(m.k, c);
    CallKeepsAccounts(m.k, c);
    CallKeepsPriority(m.k, c);
    if m.pc.InHandler? { HandlerKeepsCurrent(m.k, c); }
  }

  lemma ReschedGood(m: Machine)
    requires Good(m) && CanStep(m, Resched)
    ensures Good(Next(m, Resched))
  {
    hide Placed, Tokens, Wakes, PrioSafe, Dispatch;
    DispatchOk(m.k);
    DispatchAccounts(m.k);
    var m1 := m.(k := Dispatch(m.k));
    var m2 := m1.(eie := m1.k.threads[m1.k.current].eie);
    if m2.eie && Pending(m2.l) { EnterGood(m2, OfSwitch); }
  }

  lemma DispatchAccounts(k: Kernel)
    requires BestReady(k.ready) >= 0 && k.ready[BestReady(k.ready)][0] < THREADS
    ensures (Tokens(k) ==> Tokens(Dispatch(k))) && (Wakes(k) ==> Wakes(Dispatch(k)))
    ensures Dispatch(k).inInterrupt == k.inInterrupt
    ensures Eies(Dispatch(k)) == Eies(k)
  {
    AccountsStay(k, Dispatch(k), k.ready[BestReady(k.ready)][0], 0);
  }

  /** Every step keeps every invariant. */
  lemma StepGood(m: Machine, s: Step)
    requires Good(m) && CanStep(m, s)
    ensures Good(Next(m, s))
  {
    hide Placed, Tokens, Wakes, PrioSafe, Do, Dispatch, Finish, Continue, Disciplined;
    match s
    case ThreadCall(c) => CallGood(m, c); ContinueGood(m.(k := Do(m.k, c).k), m.k.current);
    case ThreadEie(on) => if on && Pending(m.l) { EnterGood(m.(eie := true), OfThread); }
    case Deliver => if m.eie && Pending(m.l) { EnterGood(m, OfThread); }
    case Lines(l) =>
    case HandlerCall(c) => CallGood(m, c);
    case HandlerEie(on) =>
    case EndDelivery => FinishGood(m, m.pc.ctx);
    case Resched => ReschedGood(m);
    case IdleTick(l) => if Pending(l) { EnterGood(m.(l := l), OfIdle); }
  }

  /** Every state of every run keeps placement, token and wakeup accounts, and priority order. */
  lemma {:induction false} RunGood(ms: seq<Machine>, steps: seq<Step>, i: nat)
    requires IsRun(ms, steps) && i < |ms| && Good(ms[0])
    ensures Good(ms[i])
  {
    hide Good, CanStep, Next;
    if i > 0 {
      RunGood(ms, steps, i - 1);
      assert Follows(ms[i - 1], steps[i - 1], ms[i - 1 + 1]);
      StepGood(ms[i - 1], steps[i - 1]);
    }
  }

  /** What that says, from boot, whatever threads and handlers do: while thread code runs no ready
      thread has a better priority; tokens and wakeups balance; nobody sleeps with a wakeup banked. */
  lemma FromBoot(ms: seq<Machine>, steps: seq<Step>, i: nat)
    requires IsRun(ms, steps) && i < |ms| && ms[0] == Boot()
    ensures ms[i].pc.InThread? ==> NoneBetter(ms[i].k)
    ensures Tokens(ms[i].k) && Wakes(ms[i].k) && NobodyOversleeps(ms[i].k)
  {
    hide Follows, Placed;
    BootGood();
    RunGood(ms, steps, i);
    GoodMeans(ms[i]);
  }

  predicate NoneBetter(k: Kernel) {
    forall j | 0 < j < THREADS && k.threads[j].state == Ready :: k.threads[k.current].priority <= k.threads[j].priority
  }

  predicate NobodyOversleeps(k: Kernel) {
    forall j | 0 < j < THREADS && k.threads[j].wait == Sleeping :: k.threads[j].wakeups == 0
  }

  lemma GoodMeans(m: Machine)
    requires Good(m)
    ensures (m.pc.InThread? ==> NoneBetter(m.k)) && NobodyOversleeps(m.k)
  {
    hide Placed;
    forall j | 0 < j < THREADS && m.k.threads[j].wait == Sleeping ensures m.k.threads[j].wakeups == 0 {
      InvThreadOk(m.k, j);
    }
    forall j | 0 < j < THREADS && m.k.threads[j].state == Ready
      ensures m.pc.InThread? ==> m.k.threads[m.k.current].priority <= m.k.threads[j].priority
    {
      ReadyIsQueued(m.k, j);
    }
  }

  lemma ReadyIsQueued(k: Kernel, j: nat)
    requires Inv(k) && 0 < j < THREADS && k.threads[j].state == Ready
    ensures k.ready[k.threads[j].priority] != []
  {
    assert ReadyQueue(k, 0, k.threads[j].priority) && IsReady(k, 0, j, k.threads[j].priority);
  }

  // ---- Interrupt enable, thread by thread ------------------------------------------

  /** The interrupt enable saved for thread c. */
  function Saved(m: Machine, c: nat): bool {
    c < THREADS && m.k.threads[c].eie
  }

  predicate OffCpu(m: Machine, c: nat) {
    0 < c < THREADS && m.k.current != c && m.k.threads[c].state != Free
  }

  /** The step that takes c off the CPU saves the interrupt enable it ran with. */
  lemma LeavingSaves(m: Machine, s: Step)
    requires CanStep(m, s) && m.k.current != 0 && OffCpu(Next(m, s), m.k.current) && Next(m, s).pc != Abort && Good(m)
    ensures Saved(Next(m, s), m.k.current) == m.eie
  {
    hide Placed, Tokens, Wakes, PrioSafe, Do, Dispatch, MaybePreempt;
    var c := m.k.current;
    match s
    case ThreadCall(call) => CallKeepsAccounts(m.k, call);
    case EndDelivery =>
      PreemptMoves(m.k.(inInterrupt := false));
    case HandlerCall(call) => CallGood(m, call);
    case _ =>
  }

  /** Nothing that happens while a thread is away touches the value saved for it. */
  lemma StepKeepsEie(m: Machine, s: Step, c: nat)
    requires CanStep(m, s) && OffCpu(m, c) && Good(m)
    ensures Saved(Next(m, s), c) == Saved(m, c)
  {
    hide Placed, Tokens, Wakes, PrioSafe, Do, Dispatch, MaybePreempt, Disciplined;
    match s
    case ThreadCall(call) => CallKeepsEie(m.k, call, c);
    case HandlerCall(call) => CallKeepsEie(m.k, call, c);
    case EndDelivery =>
      var k1 := m.k.(inInterrupt := false);
      PreemptBalanced(k1);
      PreemptMoves(k1);
      assert Eies(MaybePreempt(k1))[c] == Eies(k1)[c];
    case Resched =>
      DispatchAccounts(m.k);
      assert Eies(Dispatch(m.k))[c] == Eies(m.k)[c];
    case _ =>
  }

  lemma {:induction false} AwayKeepsEie(ms: seq<Machine>, steps: seq<Step>, a: nat, b: nat, c: nat)
    requires IsRun(ms, steps) && a <= b < |ms| && (forall i | a <= i <= b :: OffCpu(ms[i], c)) && Good(ms[0])
    ensures Saved(ms[b], c) == Saved(ms[a], c)
    decreases b
  {
    hide Good, CanStep, Next;
    if a < b {
      AwayKeepsEie(ms, steps, a, b - 1, c);
      assert Follows(ms[b - 1], steps[b - 1], ms[b - 1 + 1]);
      RunGood(ms, steps, b - 1);
      StepKeepsEie(ms[b - 1], steps[b - 1], c);
    }
  }

  /** In any run: a thread that leaves the CPU at step a, and next gets it at step b, gets it with the
      interrupt enable it left with, however it left and whatever ran meanwhile. */
  lemma EieIsPerThread(ms: seq<Machine>, steps: seq<Step>, a: nat, b: nat)
    requires IsRun(ms, steps) && a < b < |steps| && ms[a].k.current != 0 && ms[a + 1].pc != Abort
    requires forall i | a < i <= b :: OffCpu(ms[i], ms[a].k.current)
    requires steps[b] == Resched && ms[b + 1].k.current == ms[a].k.current
    requires Good(ms[0])
    ensures ms[b + 1].eie == ms[a].eie
  {
    hide CanStep, Next, Good;
    assert Follows(ms[a], steps[a], ms[a + 1]);
    assert Follows(ms[b], steps[b], ms[b + 1]);
    RunGood(ms, steps, a);
    LeavingSaves(ms[a], steps[a]);
    AwayKeepsEie(ms, steps, a + 1, b, ms[a].k.current);
    DispatchLoads(ms[b]);
  }

  lemma DispatchLoads(b: Machine)
    requires CanStep(b, Resched)
    ensures Next(b, Resched).eie == Saved(b, Next(b, Resched).k.current)
  {}

  // ---- No yield outside a coroutine --------------------------------------------------

  predicate SchedulerContext(pc: Pc) {
    pc.InHandler? && (pc.ctx.OfLeave? || pc.ctx.OfIdle?)
  }

  /** The scheduler holds nothing pending, no delivery has started at a switch-in, and no thread
      switch was attempted from the scheduler itself. */
  predicate Quiet(m: Machine) {
    m.pc != Abort && m.pc != InHandler(OfSwitch) && (m.pc.InScheduler? ==> !Pending(m.l))
  }

  lemma StepQuiet(m: Machine, s: Step)
    requires Good(m) && Quiet(m) && CanStep(m, s)
    requires s == EndDelivery && SchedulerContext(m.pc) ==> !Pending(m.l)
    ensures Quiet(Next(m, s))
  {
    hide Placed, Tokens, Wakes, PrioSafe, Do, Dispatch, MaybePreempt, Disciplined, Reap;
  }

  /** When every delivery started with nothing on the CPU ends quiescent, no delivery ever starts at a
      switch-in, so the scheduler never tries to yield. */
  lemma {:induction false} NoStrayYield(ms: seq<Machine>, steps: seq<Step>, i: nat)
    requires IsRun(ms, steps) && i < |ms| && Quiet(ms[0])
    requires forall j | 0 <= j < |steps| && steps[j] == EndDelivery && SchedulerContext(ms[j].pc) :: !Pending(ms[j].l)
    requires Good(ms[0])
    ensures Quiet(ms[i])
  {
    hide Good, Quiet, CanStep, Next;
    if i > 0 {
      NoStrayYield(ms, steps, i - 1);
      assert Follows(ms[i - 1], steps[i - 1], ms[i - 1 + 1]);
      RunGood(ms, steps, i - 1);
      StepQuiet(ms[i - 1], steps[i - 1]);
    }
  }

  predicate BetterReady(k: Kernel) {
    exists p :: 0 <= p < k.threads[k.current].priority && k.ready[p] != []
  }

  function AfterDelivery(m: Machine): Pc {
    if CanStep(m, EndDelivery) then Next(m, EndDelivery).pc else m.pc
  }

  /** And when a delivery does start at switch-in, the run dies exactly if its handlers leave a
      thread ready that is better than the one about to be resumed. */
  lemma StrayYieldIff(m: Machine)
    requires m.pc == InHandler(OfSwitch) && m.eie && Good(m)
    ensures AfterDelivery(m) == if BetterReady(m.k) then Abort else InThread
  {
    hide Placed, Tokens, Wakes, PrioSafe;
    InvThreadOk(m.k, m.k.current);
  }
}
