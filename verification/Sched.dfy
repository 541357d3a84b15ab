/** EE kernel threads and semaphores: the calls as functions of the scheduler's tables.
    A guest thread is an opaque caller. Giving up the CPU is the step that leaves `current` at 0
    with the thread's own state already recorded. */
module Sched {

  const THREADS: nat := 128
  const SEMAS: nat := 256
  const PRIOS: nat := 128

  const KE_SEMA_ZERO: int := -419
  const KE_SEMA_OVF: int := -420

  datatype TState = Free | Dormant | Ready | Run | Wait | Suspend | WaitSuspend
  datatype WaitKind = NoWait | Sleeping | OnSema

  /** `sent`, `spent` and `dropped` are history variables: wakeups sent to the thread, consumed by
      SleepThread, and cancelled. */
  datatype Thread = Thread(
    state: TState,
    wait: WaitKind,
    waitSema: nat,
    priority: nat,
    wakeups: nat,
    pendingDelete: bool,
    releaseRet: int,
    eie: bool,
    sent: nat,
    spent: nat,
    dropped: nat)

  /** `taken` is a history variable: tokens handed out by WaitSema, PollSema and hand-offs. */
  datatype Sema = Sema(
    alive: bool,
    count: int,
    maxCount: int,
    initCount: int,
    waiters: seq<nat>,
    signals: nat,
    refused: nat,
    taken: nat)

  const NO_THREAD := Thread(Free, NoWait, 0, 0, 0, false, 0, true, 0, 0, 0)
  const NO_SEMA := Sema(false, 0, 0, 0, [], 0, 0, 0)

  datatype Kern = Kern(
    threads: seq<Thread>,
    semas: seq<Sema>,
    ready: seq<seq<nat>>,
    current: nat,
    inInterrupt: bool)

  predicate Sized(k: Kern) {
    |k.threads| == THREADS && |k.semas| == SEMAS && |k.ready| == PRIOS && k.current < THREADS
    && forall i | 0 <= i < THREADS :: k.threads[i].priority < PRIOS
  }

  type Kernel = k: Kern | Sized(k)
    witness Kern(seq(THREADS, _ => NO_THREAD), seq(SEMAS, _ => NO_SEMA), seq(PRIOS, _ => []), 0, false)

  // ---- Queues ------------------------------------------------------------------

  /** Erases the first occurrence of `id`. */
  function Without(q: seq<nat>, id: nat): seq<nat> {
    if q == [] then []
    else if q[0] == id then q[1..]
    else [q[0]] + Without(q[1..], id)
  }

  /** Least priority with a ready thread, or -1. */
  function BestReady(ready: seq<seq<nat>>): (p: int)
    ensures -1 <= p < |ready|
    ensures p >= 0 ==> ready[p] != []
    ensures forall q | 0 <= q < (if p < 0 then |ready| else p) :: ready[q] == []
  {
    if ready == [] then -1
    else
      var n := |ready| - 1;
      var b := BestReady(ready[..n]);
      if b >= 0 then b else if ready[n] != [] then n else -1
  }

  function SetThread(k: Kernel, id: nat, t: Thread): Kernel
    requires id < THREADS && t.priority < PRIOS
  {
    k.(threads := k.threads[id := t])
  }

  function SetSema(k: Kernel, id: nat, s: Sema): Kernel
    requires id < SEMAS
  {
    k.(semas := k.semas[id := s])
  }

  function PushBack(k: Kernel, id: nat): Kernel
    requires id < THREADS
  {
    var t := k.threads[id];
    SetThread(k, id, t.(state := Ready)).(ready := k.ready[t.priority := k.ready[t.priority] + [id]])
  }

  function PushFront(k: Kernel, id: nat): Kernel
    requires id < THREADS
  {
    var t := k.threads[id];
    SetThread(k, id, t.(state := Ready)).(ready := k.ready[t.priority := [id] + k.ready[t.priority]])
  }

  function Unready(k: Kernel, id: nat): Kernel
    requires id < THREADS
  {
    var p := k.threads[id].priority;
    k.(ready := k.ready[p := Without(k.ready[p], id)])
  }

  /** The running thread gives up the CPU. */
  function Yield(k: Kernel): Kernel {
    k.(current := 0)
  }

  /** The thread table slot an id names, or 0: out of range, free, or 0 with nothing running. */
  function Lookup(k: Kernel, id: int): nat {
    if 0 < id < THREADS && k.threads[id].state != Free then id else 0
  }

  function Resolve(k: Kernel, id: int): nat {
    Lookup(k, if id == 0 then k.current else id)
  }

  predicate LiveSema(k: Kernel, id: int) {
    0 < id < SEMAS && k.semas[id].alive
  }

  /** Takes `id` off the waiter list of the semaphore it waits on, if it waits on a live one. */
  function Unwait(k: Kernel, id: nat): Kernel
    requires id < THREADS
  {
    var t := k.threads[id];
    if t.wait == OnSema && LiveSema(k, t.waitSema) then
      SetSema(k, t.waitSema, k.semas[t.waitSema].(waiters := Without(k.semas[t.waitSema].waiters, id)))
    else k
  }

  /** The one place every wake goes through. */
  function Unblock(k: Kernel, id: nat, ret: int): Kernel
    requires id < THREADS
  {
    var t := k.threads[id].(releaseRet := ret);
    if t.state == Wait then PushBack(SetThread(k, id, t.(wait := NoWait)), id)
    else if t.state == WaitSuspend then SetThread(k, id, t.(wait := NoWait, state := Suspend))
    else SetThread(k, id, t)
  }

  function MaybePreempt(k: Kernel): Kernel {
    if k.inInterrupt || k.current == 0 || k.threads[k.current].state != Run then k
    else
      var best := BestReady(k.ready);
      if 0 <= best < k.threads[k.current].priority then Yield(PushFront(k, k.current)) else k
  }

  // ---- Calls -------------------------------------------------------------------

  datatype Outcome = Outcome(k: Kernel, ret: int)

  function FreeThread(ts: seq<Thread>): (i: nat)
    ensures i < |ts| ==> 2 <= i && ts[i].state == Free && forall j | 2 <= j < i :: ts[j].state != Free
    ensures i >= |ts| ==> forall j | 2 <= j < |ts| :: ts[j].state != Free
  {
    if |ts| <= 2 then 2
    else
      var n := |ts| - 1;
      var f := FreeThread(ts[..n]);
      if f < n then f else if ts[n].state == Free then n else n + 1
  }

  function CreateThread(k: Kernel, prio: int): Outcome {
    if prio < 0 || prio >= PRIOS then Outcome(k, -1)
    else
      var i := FreeThread(k.threads);
      if i >= THREADS then Outcome(k, -1)
      else Outcome(SetThread(k, i, NO_THREAD.(state := Dormant, priority := prio)), i)
  }

  function DeleteThread(k: Kernel, id: int): Outcome {
    var t := Lookup(k, id);
    if t == 0 || k.threads[t].state != Dormant || t == k.current then Outcome(k, -1)
    else Outcome(SetThread(k, t, k.threads[t].(state := Free)), 0)
  }

  function StartThread(k: Kernel, id: int): Outcome {
    var t := Lookup(k, id);
    if t == 0 || k.threads[t].state != Dormant then Outcome(k, -1)
    else Outcome(MaybePreempt(PushBack(k, t)), id)
  }

  function ExitThread(k: Kernel, andDelete: bool): Outcome {
    var t := k.threads[k.current];
    Outcome(Yield(SetThread(k, k.current, t.(state := Dormant, pendingDelete := andDelete))), 0)
  }

  /** The thread's root function returned. */
  function RootReturn(k: Kernel): Outcome {
    Outcome(Yield(SetThread(k, k.current, k.threads[k.current].(state := Dormant))), 0)
  }

  function TerminateThread(k: Kernel, id: int): Outcome {
    var t := Lookup(k, id);
    if t == 0 || t == k.current || k.threads[t].state == Dormant then Outcome(k, -1)
    else
      var k1 := if k.threads[t].state == Ready then Unready(k, t) else k;
      var k2 := Unwait(k1, t);
      Outcome(SetThread(k2, t, k.threads[t].(wait := NoWait, state := Dormant)), id)
  }

  function ChangePriority(k: Kernel, id: int, prio: int, fromInt: bool): Outcome {
    var t := Resolve(k, id);
    if t == 0 || prio < 0 || prio >= PRIOS then Outcome(k, -1)
    else
      var was := k.threads[t].priority;
      if t == k.current && !fromInt then
        Outcome(Yield(PushBack(SetThread(k, t, k.threads[t].(priority := prio)), t)), was)
      else
        var k1 := if k.threads[t].state == Ready
                  then PushBack(SetThread(Unready(k, t), t, k.threads[t].(priority := prio)), t)
                  else SetThread(k, t, k.threads[t].(priority := prio));
        Outcome(if t != k.current && !fromInt then MaybePreempt(k1) else k1, was)
  }

  function RotateReadyQueue(k: Kernel, prio: int, fromInt: bool): Outcome {
    if prio < 0 || prio >= PRIOS then Outcome(k, -1)
    else
      var c := Lookup(k, k.current);
      if !fromInt && c != 0 && k.threads[c].priority == prio then Outcome(Yield(PushBack(k, c)), prio)
      else if k.ready[prio] != [] then
        Outcome(k.(ready := k.ready[prio := k.ready[prio][1..] + [k.ready[prio][0]]]), prio)
      else Outcome(k, prio)
  }

  function SleepThread(k: Kernel): Outcome {
    var c := Lookup(k, k.current);
    if c == 0 then Outcome(k, -1)
    else
      var t := k.threads[c];
      if t.wakeups > 0 then Outcome(SetThread(k, c, t.(wakeups := t.wakeups - 1, spent := t.spent + 1)), 0)
      else Outcome(Yield(SetThread(k, c, t.(state := Wait, wait := Sleeping, waitSema := 0, releaseRet := 0))), 0)
  }

  function WakeupThread(k: Kernel, id: int, fromInt: bool): Outcome {
    var i := Resolve(k, id);
    if i == 0 then Outcome(k, -1)
    else
      var t := k.threads[i];
      if (t.state == Wait || t.state == WaitSuspend) && t.wait == Sleeping then
        var k1 := Unblock(SetThread(k, i, t.(sent := t.sent + 1, spent := t.spent + 1)), i, 0);
        Outcome(if fromInt then k1 else MaybePreempt(k1), id)
      else Outcome(SetThread(k, i, t.(sent := t.sent + 1, wakeups := t.wakeups + 1)), id)
  }

  function CancelWakeup(k: Kernel, id: int): Outcome {
    var i := Resolve(k, id);
    if i == 0 then Outcome(k, -1)
    else
      var t := k.threads[i];
      Outcome(SetThread(k, i, t.(wakeups := 0, dropped := t.dropped + t.wakeups)), t.wakeups)
  }

  function SuspendThread(k: Kernel, id: int): Outcome {
    var i := Resolve(k, id);
    if i == 0 then Outcome(k, -1)
    else
      var t := k.threads[i];
      match t.state
      case Run =>
        var k1 := SetThread(k, i, t.(state := Suspend));
        Outcome(if i == k.current then Yield(k1) else k1, id)
      case Ready => Outcome(SetThread(Unready(k, i), i, t.(state := Suspend)), id)
      case Wait => Outcome(SetThread(k, i, t.(state := WaitSuspend)), id)
      case _ => Outcome(k, -1)
  }

  function ResumeThread(k: Kernel, id: int): Outcome {
    var i := Resolve(k, id);
    if i == 0 then Outcome(k, -1)
    else
      var t := k.threads[i];
      if t.state == Suspend then Outcome(MaybePreempt(PushBack(k, i)), id)
      else if t.state == WaitSuspend then Outcome(SetThread(k, i, t.(state := Wait)), id)
      else Outcome(k, -1)
  }

  function ReleaseWait(k: Kernel, id: int, fromInt: bool): Outcome {
    var i := Lookup(k, id);
    if i == 0 || (k.threads[i].state != Wait && k.threads[i].state != WaitSuspend) then Outcome(k, -1)
    else
      var k1 := Unblock(Unwait(k, i), i, -1);
      Outcome(if fromInt then k1 else MaybePreempt(k1), id)
  }

  function DeadSema(ss: seq<Sema>): (i: nat)
    ensures i < |ss| ==> 1 <= i && !ss[i].alive && forall j | 1 <= j < i :: ss[j].alive
    ensures i >= |ss| ==> forall j | 1 <= j < |ss| :: ss[j].alive
  {
    if |ss| <= 1 then 1
    else
      var n := |ss| - 1;
      var f := DeadSema(ss[..n]);
      if f < n then f else if !ss[n].alive then n else n + 1
  }

  /** The source does not compare the initial count with the ceiling. */
  function CreateSema(k: Kernel, init: int, max: int): Outcome {
    var i := DeadSema(k.semas);
    if i >= SEMAS then Outcome(k, -1)
    else Outcome(SetSema(k, i, NO_SEMA.(alive := true, count := init, initCount := init, maxCount := max)), i)
  }

  /** Wakes every waiter, oldest first, with a failed wait. */
  function DrainSema(k: Kernel, id: nat): (r: Kernel)
    requires id < SEMAS
    ensures |r.semas| == SEMAS && r.semas[id].alive == k.semas[id].alive
    decreases |k.semas[id].waiters|
  {
    var s := k.semas[id];
    if s.waiters == [] then k
    else
      var k1 := SetSema(k, id, s.(waiters := s.waiters[1..]));
      var t := Lookup(k1, s.waiters[0]);
      DrainSema(if t == 0 then k1 else Unblock(k1, t, -1), id)
  }

  function DeleteSema(k: Kernel, id: int): Outcome {
    if !LiveSema(k, id) then Outcome(k, -1)
    else
      var k1 := DrainSema(k, id);
      Outcome(MaybePreempt(SetSema(k1, id, k1.semas[id].(alive := false))), id)
  }

  function SignalSema(k: Kernel, id: int, fromInt: bool): Outcome {
    if !LiveSema(k, id) then Outcome(k, -1)
    else
      var s := k.semas[id];
      if s.waiters == [] && s.count >= s.maxCount then
        Outcome(SetSema(k, id, s.(refused := s.refused + 1)), KE_SEMA_OVF)
      else if s.waiters != [] then
        var k1 := SetSema(k, id, s.(signals := s.signals + 1, taken := s.taken + 1, waiters := s.waiters[1..]));
        var t := Lookup(k1, s.waiters[0]);
        var k2 := if t == 0 then k1 else Unblock(k1, t, id);
        Outcome(if fromInt then k2 else MaybePreempt(k2), id)
      else Outcome(SetSema(k, id, s.(signals := s.signals + 1, count := s.count + 1)), id)
  }

  function WaitSema(k: Kernel, id: int): Outcome {
    if !LiveSema(k, id) then Outcome(k, -1)
    else
      var s := k.semas[id];
      if s.count > 0 then Outcome(SetSema(k, id, s.(count := s.count - 1, taken := s.taken + 1)), id)
      else
        var t := k.threads[k.current];
        var k1 := SetSema(k, id, s.(waiters := s.waiters + [k.current]));
        Outcome(Yield(SetThread(k1, k.current, t.(state := Wait, wait := OnSema, waitSema := id, releaseRet := 0))), 0)
  }

  function PollSema(k: Kernel, id: int): Outcome {
    if !LiveSema(k, id) then Outcome(k, -1)
    else
      var s := k.semas[id];
      if s.count > 0 then Outcome(SetSema(k, id, s.(count := s.count - 1, taken := s.taken + 1)), id)
      else Outcome(k, KE_SEMA_ZERO)
  }

  /** The scheduler loop puts the head of the best non-empty queue on the CPU. */
  function Dispatch(k: Kernel): Kernel
    requires BestReady(k.ready) >= 0
    requires k.ready[BestReady(k.ready)][0] < THREADS
  {
    var p := BestReady(k.ready);
    var id := k.ready[p][0];
    SetThread(k, id, k.threads[id].(state := Run)).(ready := k.ready[p := k.ready[p][1..]], current := id)
  }

  /** What the loop does with a thread that came back dormant. */
  function Reap(k: Kernel, id: nat): Kernel
    requires id < THREADS
  {
    var t := k.threads[id];
    if t.state == Dormant && t.pendingDelete then SetThread(k, id, t.(state := Free)) else k
  }

  datatype Call =
    | CCreateThread(prio: int)
    | CDeleteThread(id: int)
    | CStartThread(id: int)
    | CExitThread(andDelete: bool)
    | CRootReturn
    | CTerminateThread(id: int)
    | CChangePriority(id: int, prio: int, fromInt: bool)
    | CRotate(prio: int, fromInt: bool)
    | CSleep
    | CWakeup(id: int, fromInt: bool)
    | CCancelWakeup(id: int)
    | CSuspend(id: int)
    | CResume(id: int)
    | CReleaseWait(id: int, fromInt: bool)
    | CCreateSema(init: int, max: int)
    | CDeleteSema(id: int)
    | CSignalSema(id: int, fromInt: bool)
    | CWaitSema(id: int)
    | CPollSema(id: int)

  function Do(k: Kernel, c: Call): Outcome {
    match c
    case CCreateThread(prio) => CreateThread(k, prio)
    case CDeleteThread(id) => DeleteThread(k, id)
    case CStartThread(id) => StartThread(k, id)
    case CExitThread(d) => ExitThread(k, d)
    case CRootReturn => RootReturn(k)
    case CTerminateThread(id) => TerminateThread(k, id)
    case CChangePriority(id, prio, i) => ChangePriority(k, id, prio, i)
    case CRotate(prio, i) => RotateReadyQueue(k, prio, i)
    case CSleep => SleepThread(k)
    case CWakeup(id, i) => WakeupThread(k, id, i)
    case CCancelWakeup(id) => CancelWakeup(k, id)
    case CSuspend(id) => SuspendThread(k, id)
    case CResume(id) => ResumeThread(k, id)
    case CReleaseWait(id, i) => ReleaseWait(k, id, i)
    case CCreateSema(init, max) => CreateSema(k, init, max)
    case CDeleteSema(id) => DeleteSema(k, id)
    case CSignalSema(id, i) => SignalSema(k, id, i)
    case CWaitSema(id) => WaitSema(k, id)
    case CPollSema(id) => PollSema(k, id)
  }

  /** Calls that give up the CPU by blocking, exiting or rotating away, apart from preemption. */
  predicate GivesUpCpu(k: Kernel, c: Call) {
    match c
    case CExitThread(_) => true
    case CRootReturn => true
    case CSleep => k.current != 0 && k.threads[k.current].wakeups == 0
    case CWaitSema(id) => LiveSema(k, id) && k.semas[id].count <= 0
    case CChangePriority(id, prio, fromInt) =>
      !fromInt && k.current != 0 && Resolve(k, id) == k.current && 0 <= prio < PRIOS
    case CRotate(prio, fromInt) => !fromInt && k.current != 0 && k.threads[k.current].priority == prio
    case CSuspend(id) => k.current != 0 && Resolve(k, id) == k.current
    case _ => false
  }

  predicate FromInterrupt(c: Call) {
    match c
    case CChangePriority(_, _, i) => i
    case CRotate(_, i) => i
    case CWakeup(_, i) => i
    case CReleaseWait(_, i) => i
    case CSignalSema(_, i) => i
    case _ => false
  }

  /** The calling discipline: a handler makes no call that would give up the interrupted thread's
      CPU, and a thread does not use the i-variants. */
  predicate Disciplined(k: Kernel, c: Call) {
    if k.inInterrupt then !GivesUpCpu(k, c) else k.current != 0 && !FromInterrupt(c)
  }
}
