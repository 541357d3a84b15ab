/** What each kernel call does to the thread or semaphore it names, when it refuses, and what it
    leaves alone. A call that ends in the preemption check is described up to that check. */
module SchedEffects {
  import opened Sched
  import opened SchedPlacement
  import opened SchedCalls

  /** Nothing but thread x changes in the thread table, and no semaphore. */
  predicate OnlyThread(k: Kernel, r: Kernel, x: nat) {
    x < THREADS && r.threads == k.threads[x := r.threads[x]] && r.semas == k.semas && r.inInterrupt == k.inInterrupt
  }

  predicate InTable(k: Kernel, id: int) {
    0 < id < THREADS && k.threads[id].state != Free
  }

  /** x is the last of its ready queue and every other queue is as it was. */
  predicate QueuedLast(k: Kernel, r: Kernel, x: nat)
    requires x < THREADS
  {
    var p := r.threads[x].priority;
    r.threads[x].state == Ready && r.ready == k.ready[p := k.ready[p] + [x]]
  }

  /** x is in no queue at all. */
  ghost predicate Nowhere(k: Kernel, x: nat) {
    (forall p | 0 <= p < PRIOS :: x !in k.ready[p]) && (forall s | 0 <= s < SEMAS :: x !in k.semas[s].waiters)
  }

  lemma NotQueued(k: Kernel, x: nat)
    requires Inv(k) && 0 < x < THREADS && k.threads[x].state != Ready && k.threads[x].wait != OnSema
    ensures Nowhere(k, x)
  {
    forall p | 0 <= p < PRIOS ensures x !in k.ready[p] { assert ReadyQueue(k, 0, p); }
    forall s | 0 <= s < SEMAS ensures x !in k.semas[s].waiters { assert WaitQueue(k, 0, s); }
  }

  /** The check preempts exactly when a running thread outside a handler has a better one ready. */
  lemma PreemptsIff(k: Kernel)
    requires Inv(k)
    ensures MaybePreempt(k) != k <==>
            !k.inInterrupt && k.current != 0 && exists p :: 0 <= p < k.threads[k.current].priority && k.ready[p] != []
    ensures MaybePreempt(k) != k ==> OnlyThread(k, MaybePreempt(k), k.current) && MaybePreempt(k).current == 0
  {
    if k.current != 0 { InvThreadOk(k, k.current); }
  }

  lemma CreateEffect(k: Kernel, prio: int)
    ensures var (r, id) := (CreateThread(k, prio).k, CreateThread(k, prio).ret);
            && (id == -1 <==> !(0 <= prio < PRIOS) || forall j | 2 <= j < THREADS :: k.threads[j].state != Free)
            && (id == -1 ==> r == k)
            && (id != -1 ==>
                 && 2 <= id < THREADS && k.threads[id].state == Free && OnlyThread(k, r, id) && r.ready == k.ready
                 && r.threads[id].state == Dormant && r.threads[id].priority == prio && r.threads[id].wakeups == 0
                 && r.threads[id].eie && forall j | 2 <= j < id :: k.threads[j].state != Free)
  {}

  lemma DeleteEffect(k: Kernel, id: int)
    ensures var (r, ret) := (DeleteThread(k, id).k, DeleteThread(k, id).ret);
            && (ret == 0 <==> InTable(k, id) && k.threads[id].state == Dormant && id != k.current)
            && (ret == 0 ==> OnlyThread(k, r, id) && r.threads[id].state == Free && r.ready == k.ready)
            && (ret != 0 ==> ret == -1 && r == k)
  {}

  /** A thread created and deleted again leaves its slot to the next one, and nothing else. */
  lemma CreateThenDelete(k: Kernel, prio: int, again: int)
    requires CreateThread(k, prio).ret != -1 && k.current != CreateThread(k, prio).ret && 0 <= again < PRIOS
    ensures var (id, r) := (CreateThread(k, prio).ret, CreateThread(k, prio).k);
            && DeleteThread(r, id).ret == 0 && CreateThread(DeleteThread(r, id).k, again).ret == id
            && CreateThread(DeleteThread(r, id).k, again).k == CreateThread(k, again).k
  {
    var (id, r) := (CreateThread(k, prio).ret, CreateThread(k, prio).k);
    var d := DeleteThread(r, id).k;
    assert forall j | 2 <= j < id :: d.threads[j].state == k.threads[j].state;
    FirstFreeIs(d.threads, id);
    assert d.threads[id := NO_THREAD] == k.threads[id := NO_THREAD];
  }

  lemma FirstFreeIs(ts: seq<Thread>, i: nat)
    requires 2 <= i < |ts| && ts[i].state == Free && forall j | 2 <= j < i :: ts[j].state != Free
    ensures FreeThread(ts) == i
  {}

  lemma StartEffect(k: Kernel, id: int) returns (q: Kernel)
    ensures InTable(k, id) && k.threads[id].state == Dormant ==>
              && StartThread(k, id) == Outcome(MaybePreempt(q), id)
              && OnlyThread(k, q, id) && QueuedLast(k, q, id) && q.current == k.current
    ensures !(InTable(k, id) && k.threads[id].state == Dormant) ==> StartThread(k, id) == Outcome(k, -1)
  {
    q := if InTable(k, id) then PushBack(k, id) else k;
  }

  /** The thread is off the CPU and dormant; the scheduler frees it afterwards exactly if asked to. */
  lemma ExitEffect(k: Kernel, andDelete: bool)
    requires Inv(k) && k.current != 0
    ensures var (c, r) := (k.current, ExitThread(k, andDelete).k);
            && r.current == 0 && OnlyThread(k, r, c) && r.threads[c].state == Dormant && Nowhere(r, c)
            && Reap(r, c).threads[c].state == (if andDelete then Free else Dormant)
  {
    InvThreadOk(k, k.current);
    ExitInv(k, andDelete);
    NotQueued(ExitThread(k, andDelete).k, k.current);
  }

  lemma TerminateEffect(k: Kernel, id: int)
    requires Inv(k)
    ensures var (r, ret) := (TerminateThread(k, id).k, TerminateThread(k, id).ret);
            && (InTable(k, id) && id != k.current && k.threads[id].state != Dormant ==>
                 && ret == id && r.threads[id].state == Dormant && Nowhere(r, id)
                 && r.threads == k.threads[id := r.threads[id]]
                 && r.current == k.current)
            && (!(InTable(k, id) && id != k.current && k.threads[id].state != Dormant) ==> ret == -1 && r == k)
  {
    hide Placed, Nowhere, Without;
    TerminateThreadInv(k, id);
    if InTable(k, id) && id != k.current && k.threads[id].state != Dormant { NotQueued(TerminateThread(k, id).k, id); }
  }

  /** The old priority is the answer. A ready thread leaves its queue and goes to the tail of the new one;
      a thread that changes its own does so off the CPU; the queues are otherwise as they were. `q` is the
      state before the preemption check, which only another thread's change is followed by. */
  lemma ChangePriorityEffect(k: Kernel, id: int, prio: int, fromInt: bool) returns (x: nat, q: Kernel)
    requires Inv(k)
    ensures x == Resolve(k, id) && q.semas == k.semas
    ensures x == 0 || prio < 0 || prio >= PRIOS ==> ChangePriority(k, id, prio, fromInt) == Outcome(k, -1)
    ensures x != 0 && 0 <= prio < PRIOS ==>
              var own, was := x == k.current && !fromInt, k.threads[x];
              var before := k.ready[was.priority];
              var left := if was.state == Ready then k.ready[was.priority := Without(before, x)] else k.ready;
              && ChangePriority(k, id, prio, fromInt) ==
                 Outcome(if x != k.current && !fromInt then MaybePreempt(q) else q, was.priority)
              && OnlyThread(k, q, x)
              && q.threads[x] == was.(priority := prio, state := if own then Ready else was.state)
              && q.current == (if own then 0 else k.current)
              && q.ready == if own || was.state == Ready then left[prio := left[prio] + [x]] else k.ready
  {
    x := Resolve(k, id);
    q := k;
    if x != 0 && 0 <= prio < PRIOS {
      InvThreadOk(k, x);
      var k1 := SetThread(k, x, k.threads[x].(priority := prio));
      if x == k.current && !fromInt {
        q := Yield(PushBack(k1, x));
      } else if k.threads[x].state == Ready {
        q := PushBack(SetThread(Unready(k, x), x, k.threads[x].(priority := prio)), x);
      } else {
        q := k1;
      }
    }
  }

  /** The caller, rotating its own queue, goes to its tail and gives up the CPU. From a handler, or for a
      queue the caller is not of, the head goes to the tail and nobody else moves. */
  lemma RotateEffect(k: Kernel, prio: int, fromInt: bool)
    requires Inv(k)
    ensures prio < 0 || prio >= PRIOS ==> RotateReadyQueue(k, prio, fromInt) == Outcome(k, -1)
    ensures 0 <= prio < PRIOS ==>
              var (r, c) := (RotateReadyQueue(k, prio, fromInt).k, k.current);
              && RotateReadyQueue(k, prio, fromInt).ret == prio
              && (!fromInt && c != 0 && k.threads[c].priority == prio ==>
                   OnlyThread(k, r, c) && QueuedLast(k, r, c) && r.current == 0)
              && (!(!fromInt && c != 0 && k.threads[c].priority == prio) ==>
                   && r == k.(ready := k.ready[prio := r.ready[prio]])
                   && (k.ready[prio] == [] ==> r == k)
                   && forall x, rest | k.ready[prio] == [x] + rest :: r.ready[prio] == rest + [x])
  {
    if k.current != 0 { InvThreadOk(k, k.current); }
  }

  /** A queue of n threads rotated n times is as it was. */
  lemma {:induction false} RotateRound(k: Kernel, prio: nat, a: seq<nat>, b: seq<nat>)
    requires prio < PRIOS && k.ready[prio] == a + b
    ensures Rotated(k, prio, |a|) == k.(ready := k.ready[prio := b + a])
    decreases |a|
  {
    if a == [] {
      assert a + b == b + a;
    } else {
      var r := RotateReadyQueue(k, prio, true).k;
      assert r.ready[prio] == a[1..] + (b + [a[0]]);
      RotateRound(r, prio, a[1..], b + [a[0]]);
      assert b + [a[0]] + a[1..] == b + a;
    }
  }

  /** n rotations, from a handler. */
  function Rotated(k: Kernel, prio: nat, n: nat): Kernel
    decreases n
  {
    if n == 0 then k else Rotated(RotateReadyQueue(k, prio, true).k, prio, n - 1)
  }

  /** A banked wakeup is consumed at once; otherwise the caller sleeps. */
  lemma SleepEffect(k: Kernel)
    requires Inv(k) && k.current != 0
    ensures var (c, r) := (k.current, SleepThread(k).k);
            && OnlyThread(k, r, c)
            && (k.threads[c].wakeups > 0 ==>
                 && r.current == c && r.threads[c].state == Run
                 && r.threads[c].wakeups == k.threads[c].wakeups - 1)
            && (k.threads[c].wakeups == 0 ==>
                 && r.current == 0 && r.threads[c].state == Wait
                 && r.threads[c].wait == Sleeping && Nowhere(r, c))
  {
    InvThreadOk(k, k.current);
    SleepInv(k);
    if k.threads[k.current].wakeups == 0 { NotQueued(SleepThread(k).k, k.current); }
  }

  /** Waking a thread that sleeps makes it ready, or suspended if it was suspended too, and banks
      nothing; waking any other banks exactly one. */
  lemma WakeupEffect(k: Kernel, id: int)
    requires Resolve(k, id) != 0
    ensures var (x, r) := (Resolve(k, id), WakeupThread(k, id, true).k);
            && OnlyThread(k, r, x) && WakeupThread(k, id, true).ret == id
            && (k.threads[x].wait == Sleeping && k.threads[x].state == Wait ==>
                 && QueuedLast(k, r, x) && r.threads[x].wait == NoWait
                 && r.threads[x].wakeups == k.threads[x].wakeups && r.threads[x].releaseRet == 0)
            && (k.threads[x].wait == Sleeping && k.threads[x].state == WaitSuspend ==>
                 && r.threads[x].state == Suspend && r.threads[x].wait == NoWait
                 && r.threads[x].wakeups == k.threads[x].wakeups)
            && (!(k.threads[x].wait == Sleeping && k.threads[x].state in {Wait, WaitSuspend}) ==>
                 && r.threads[x].wakeups == k.threads[x].wakeups + 1
                 && r.threads[x].state == k.threads[x].state && r.ready == k.ready)
  {}

  lemma CancelEffect(k: Kernel, id: int)
    ensures var (x, r) := (Resolve(k, id), CancelWakeup(k, id));
            && (x == 0 ==> r == Outcome(k, -1))
            && (x != 0 ==>
                 && r.ret == k.threads[x].wakeups && OnlyThread(k, r.k, x) && r.k.threads[x].wakeups == 0
                 && r.k.threads[x].state == k.threads[x].state && r.k.ready == k.ready)
  {}

  /** n wakeups, from a handler. */
  function WokenUp(k: Kernel, id: int, n: nat): Kernel
    decreases n
  {
    if n == 0 then k else WokenUp(WakeupThread(k, id, true).k, id, n - 1)
  }

  /** No wakeup of a thread that does not sleep is lost: cancelling answers every one of them. */
  lemma {:induction false} CancelAnswersAll(k: Kernel, id: nat, n: nat)
    requires InTable(k, id) && k.threads[id].wait != Sleeping
    ensures CancelWakeup(WokenUp(k, id, n), id).ret == k.threads[id].wakeups + n
    ensures WokenUp(k, id, n).ready == k.ready
    decreases n
  {
    if n > 0 { CancelAnswersAll(WakeupThread(k, id, true).k, id, n - 1); }
  }

  /** Suspending and resuming a waiting thread leaves it waiting where it was; a ready thread that is
      suspended and resumed is at the tail of its queue. */
  lemma SuspendResumeEffect(k: Kernel, id: int)
    requires Inv(k) && k.inInterrupt && InTable(k, id) && id != k.current
    ensures k.threads[id].state == Wait ==> ResumeThread(SuspendThread(k, id).k, id).k == k
    ensures k.threads[id].state == Ready ==>
              var (s, r) := (SuspendThread(k, id).k, ResumeThread(SuspendThread(k, id).k, id).k);
              && Nowhere(s, id) && s.threads[id].state == Suspend && OnlyThread(k, s, id)
              && OnlyThread(k, r, id) && QueuedLast(s, r, id)
    ensures k.threads[id].state == Suspend ==>
              OnlyThread(k, ResumeThread(k, id).k, id) && QueuedLast(k, ResumeThread(k, id).k, id)
    ensures k.threads[id].state == WaitSuspend ==>
              ResumeThread(k, id).k == SetThread(k, id, k.threads[id].(state := Wait))
    ensures k.threads[id].state in {Dormant, Suspend, WaitSuspend} ==> SuspendThread(k, id) == Outcome(k, -1)
    ensures k.threads[id].state in {Dormant, Ready, Wait} ==> ResumeThread(k, id) == Outcome(k, -1)
  {
    InvThreadOk(k, id);
    if k.threads[id].state == Ready {
      SuspendInv(k, id);
      NotQueued(SuspendThread(k, id).k, id);
    }
    if k.threads[id].state == Wait {
      assert ResumeThread(SuspendThread(k, id).k, id).k.threads == k.threads;
    }
  }

  /** A thread that suspends itself is off the CPU and in no queue. */
  lemma SuspendSelfEffect(k: Kernel)
    requires Inv(k) && k.current != 0
    ensures var (c, r) := (k.current, SuspendThread(k, 0).k);
            OnlyThread(k, r, c) && r.current == 0 && r.threads[c].state == Suspend && Nowhere(r, c)
  {
    InvThreadOk(k, k.current);
    SuspendInv(k, 0);
    NotQueued(SuspendThread(k, 0).k, k.current);
  }

  /** A released thread's wait fails; it leaves whatever it waited on. */
  lemma ReleaseEffect(k: Kernel, id: int)
    requires Inv(k)
    ensures var r := ReleaseWait(k, id, true);
            && (InTable(k, id) && k.threads[id].wait != NoWait ==>
                 r.ret == id && r.k.threads == k.threads[id := r.k.threads[id]] && r.k.threads[id].releaseRet == -1
                 && r.k.threads[id].wait == NoWait
                 && r.k.threads[id].state == (if k.threads[id].state == Wait then Ready else Suspend)
                 && forall s | 0 <= s < SEMAS :: id !in r.k.semas[s].waiters)
            && (!(InTable(k, id) && k.threads[id].wait != NoWait) ==> r == Outcome(k, -1))
  {
    hide Placed, Without;
    if InTable(k, id) {
      InvThreadOk(k, id);
      ReleaseWaitInv(k, id, true);
      if k.threads[id].wait != NoWait { InNoLine(ReleaseWait(k, id, true).k, id); }
    }
  }

  lemma InNoLine(k: Kernel, x: nat)
    requires Inv(k) && 0 < x < THREADS && k.threads[x].wait != OnSema
    ensures forall s | 0 <= s < SEMAS :: x !in k.semas[s].waiters
  {
    forall s | 0 <= s < SEMAS ensures x !in k.semas[s].waiters { assert WaitQueue(k, 0, s); }
  }

  lemma CreateSemaEffect(k: Kernel, init: int, max: int)
    ensures var r := CreateSema(k, init, max);
            && (r.ret == -1 <==> forall j | 1 <= j < SEMAS :: k.semas[j].alive)
            && (r.ret == -1 ==> r.k == k)
            && (r.ret != -1 ==>
                 && 1 <= r.ret < SEMAS && !k.semas[r.ret].alive && LiveSema(r.k, r.ret)
                 && r.k.semas[r.ret].count == init && r.k.semas[r.ret].maxCount == max && r.k.semas[r.ret].waiters == []
                 && r.k.threads == k.threads && r.k.ready == k.ready && r.k.semas == k.semas[r.ret := r.k.semas[r.ret]])
  {}

  /** n polls of a semaphore. */
  function Polled(k: Kernel, id: nat, n: nat): Kernel
    decreases n
  {
    if n == 0 then k else Polled(PollSema(k, id).k, id, n - 1)
  }

  /** A semaphore gives out its tokens one by one and then no more. */
  lemma {:induction false} PollsUntilEmpty(k: Kernel, id: nat, n: nat)
    requires LiveSema(k, id) && n <= k.semas[id].count
    ensures var s := k.semas[id];
            Polled(k, id, n) == SetSema(k, id, s.(count := s.count - n, taken := s.taken + n))
    ensures PollSema(Polled(k, id, n), id).ret == if n < k.semas[id].count then id else KE_SEMA_ZERO
    decreases n
  {
    if n > 0 { PollsUntilEmpty(PollSema(k, id).k, id, n - 1); }
  }

  // ---- Deleting a semaphore -------------------------------------------------------

  /** What being thrown out of a deleted semaphore's line does to a thread. */
  function Evicted(t: Thread): Thread {
    t.(releaseRet := -1, wait := NoWait, state := if t.state == Wait then Ready else Suspend)
  }

  /** Those of the waiters that become ready at priority p, oldest first. */
  function Woken(k: Kernel, ws: seq<nat>, p: nat): seq<nat> {
    if ws == [] then []
    else (if ws[0] < THREADS && k.threads[ws[0]].state == Wait && k.threads[ws[0]].priority == p then [ws[0]] else [])
         + Woken(k, ws[1..], p)
  }

  lemma {:induction false} WokenSame(k: Kernel, r: Kernel, ws: seq<nat>, p: nat)
    requires forall i | 0 <= i < |ws| && ws[i] < THREADS :: r.threads[ws[i]] == k.threads[ws[i]]
    ensures Woken(r, ws, p) == Woken(k, ws, p)
  {
    if ws != [] { WokenSame(k, r, ws[1..], p); }
  }

  /** One turn of the drain loop. */
  function DrainOne(k: Kernel, id: nat): Kernel
    requires id < SEMAS && k.semas[id].waiters != [] && k.semas[id].waiters[0] < THREADS
  {
    var s := k.semas[id];
    Unblock(SetSema(k, id, s.(waiters := s.waiters[1..])), s.waiters[0], -1)
  }

  lemma DrainOneEffect(k: Kernel, id: nat)
    requires id < SEMAS && Inv(k) && k.semas[id].waiters != []
    ensures var (ws, x) := (k.semas[id].waiters, k.semas[id].waiters[0]);
            && 0 < x < THREADS && x !in ws[1..]
            && DrainSema(k, id) == DrainSema(DrainOne(k, id), id) && Inv(DrainOne(k, id))
            && DrainOne(k, id).threads == k.threads[x := Evicted(k.threads[x])]
            && DrainOne(k, id).semas == k.semas[id := k.semas[id].(waiters := ws[1..])]
            && (forall p: nat | p < PRIOS :: DrainOne(k, id).ready[p] == k.ready[p] +
                 (if k.threads[x].state == Wait && k.threads[x].priority == p then [x] else []))
  {
    hide Placed, Unblock;
    var s := k.semas[id];
    var k1 := SetSema(k, id, s.(waiters := s.waiters[1..]));
    WaiterIsBlocked(k, id);
    PopWaiter(k, id, s.(waiters := s.waiters[1..]));
    UnblockMoved(k1, s.waiters[0], -1);
    EvictOne(k1, s.waiters[0]);
    HeadOnce(k, id);
  }

  /** Every waiter's wait fails with -1 and nobody else changes. */
  lemma {:induction false} DrainEvicts(k: Kernel, id: nat)
    requires id < SEMAS && Inv(k)
    ensures var (ws, r) := (k.semas[id].waiters, DrainSema(k, id));
            && |r.threads| == THREADS && r.semas == k.semas[id := k.semas[id].(waiters := [])]
            && forall x: nat | x < THREADS :: r.threads[x] == if x in ws then Evicted(k.threads[x]) else k.threads[x]
    decreases |k.semas[id].waiters|
  {
    hide Inv, DrainOne, DrainSema, Evicted;
    if k.semas[id].waiters != [] {
      DrainOneEffect(k, id);
      DrainEvicts(DrainOne(k, id), id);
    } else {
      DrainedAlready(k, id);
    }
  }

  /** Each ready queue gains those of its priority, oldest first. */
  lemma {:induction false} DrainQueues(k: Kernel, id: nat, p: nat)
    requires id < SEMAS && p < PRIOS && Inv(k)
    ensures DrainSema(k, id).ready[p] == k.ready[p] + Woken(k, k.semas[id].waiters, p)
    decreases |k.semas[id].waiters|
  {
    hide Inv, DrainOne, DrainSema, Woken;
    var ws := k.semas[id].waiters;
    if ws != [] {
      DrainOneEffect(k, id);
      DrainQueues(DrainOne(k, id), id, p);
      WokenSame(k, DrainOne(k, id), ws[1..], p);
      WokenHead(k, ws, p);
    } else {
      DrainedAlready(k, id);
      WokenNone(k, p);
    }
  }

  lemma DrainedAlready(k: Kernel, id: nat)
    requires id < SEMAS && k.semas[id].waiters == []
    ensures DrainSema(k, id) == k
  {}

  lemma WokenNone(k: Kernel, p: nat)
    ensures Woken(k, [], p) == []
  {}

  lemma WokenHead(k: Kernel, ws: seq<nat>, p: nat)
    requires ws != [] && ws[0] < THREADS
    ensures Woken(k, ws, p) ==
            (if k.threads[ws[0]].state == Wait && k.threads[ws[0]].priority == p then [ws[0]] else [])
            + Woken(k, ws[1..], p)
  {}

  lemma HeadOnce(k: Kernel, id: nat)
    requires id < SEMAS && Inv(k) && k.semas[id].waiters != []
    ensures k.semas[id].waiters[0] !in k.semas[id].waiters[1..]
  {
    assert WaitQueue(k, 0, id);
  }

  lemma EvictOne(k: Kernel, x: nat)
    requires 0 < x < THREADS && (k.threads[x].state == Wait || k.threads[x].state == WaitSuspend)
    ensures var r := Unblock(k, x, -1);
            && r.threads == k.threads[x := Evicted(k.threads[x])] && r.semas == k.semas
            && (forall p: nat | p < PRIOS :: r.ready[p] == k.ready[p] +
                 (if k.threads[x].state == Wait && k.threads[x].priority == p then [x] else []))
  {}

  /** The semaphore is dead and out of every thread's way. */
  lemma DeleteSemaEffect(k: Kernel, id: int) returns (q: Kernel)
    requires Inv(k)
    ensures LiveSema(k, id) ==>
              && DeleteSema(k, id) == Outcome(MaybePreempt(q), id) && !LiveSema(q, id) && q.semas[id].waiters == []
              && (forall x: nat | x < THREADS ::
                    q.threads[x] == if x in k.semas[id].waiters then Evicted(k.threads[x]) else k.threads[x])
              && (forall p: nat | p < PRIOS :: q.ready[p] == k.ready[p] + Woken(k, k.semas[id].waiters, p))
    ensures !LiveSema(k, id) ==> DeleteSema(k, id) == Outcome(k, -1)
  {
    hide Placed, DrainSema, Woken, Evicted, MaybePreempt;
    q := k;
    if LiveSema(k, id) {
      DrainEvicts(k, id);
      forall p: nat | p < PRIOS ensures DrainSema(k, id).ready[p] == k.ready[p] + Woken(k, k.semas[id].waiters, p) {
        DrainQueues(k, id, p);
      }
      var k1 := DrainSema(k, id);
      q := SetSema(k1, id, k1.semas[id].(alive := false));
    }
  }
}
