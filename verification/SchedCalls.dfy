/** What every kernel call keeps: placement, token and wakeup accounting, and priority order. */
module SchedCalls {
  import opened Sched
  import opened SchedPlacement

  // ---- Placement, call by call -------------------------------------------------

  /** Moving the running thread off the CPU. */
  lemma LeaveCpu(k: Kernel, t: Thread)
    requires Inv(k) && k.current != 0 && t.priority < PRIOS
    ensures Placed(Yield(SetThread(k, k.current, t)), k.current)
  {
    assert ThreadOk(k, k.current);
    DetachOther(k, k.current);
    Moving(k, Yield(SetThread(k, k.current, t)), k.current);
  }

  lemma PreemptInv(k: Kernel)
    requires Inv(k)
    ensures Inv(MaybePreempt(k))
  {
    if MaybePreempt(k) != k {
      var c := k.current;
      assert ThreadOk(k, c);
      LeaveCpu(k, k.threads[c]);
      AttachFront(Yield(SetThread(k, c, k.threads[c])), c);
      assert SetThread(k, c, k.threads[c]) == k;
    }
  }

  /** A thread in no queue and not on the CPU becomes ready. */
  lemma WakeInv(k: Kernel, x: nat, t: Thread)
    requires Inv(k) && 0 < x < THREADS && x != k.current && k.threads[x].state != Ready && k.threads[x].wait != OnSema
    requires t.wait == NoWait && t.priority < PRIOS
    ensures Inv(PushBack(SetThread(k, x, t), x))
  {
    DetachOther(k, x);
    Moving(k, SetThread(k, x, t), x);
    AttachBack(SetThread(k, x, t), x);
  }

  /** A thread in no queue and not on the CPU changes to another state without a queue. */
  lemma ParkInv(k: Kernel, x: nat, t: Thread)
    requires Inv(k) && 0 < x < THREADS && t.priority < PRIOS
    requires k.threads[x].state != Ready && k.threads[x].wait != OnSema
    requires t.state != Ready && t.wait != OnSema && ThreadOk(SetThread(k, x, t), x)
    ensures Inv(SetThread(k, x, t))
  {
    DetachOther(k, x);
    Moving(k, SetThread(k, x, t), x);
    AttachIdle(SetThread(k, x, t), x);
  }

  /** Fields placement does not read. */
  lemma NoteInv(k: Kernel, x: nat, t: Thread)
    requires Inv(k) && 0 < x < THREADS
    requires t.state == k.threads[x].state && t.wait == k.threads[x].wait && t.waitSema == k.threads[x].waitSema
    requires t.priority == k.threads[x].priority && (t.wait == Sleeping ==> t.wakeups == 0)
    ensures Inv(SetThread(k, x, t))
  {
    var r := SetThread(k, x, t);
    forall p | 0 <= p < PRIOS ensures ReadyQueue(r, 0, p) { assert ReadyQueue(k, 0, p); }
    forall s | 0 <= s < SEMAS ensures WaitQueue(r, 0, s) { assert WaitQueue(k, 0, s); }
    forall id | 0 < id < THREADS ensures ThreadOk(r, id) { assert ThreadOk(k, id); }
  }

  /** Wait and WaitSuspend are the same place: the thread stays where it waits. */
  lemma SuspendWaitInv(k: Kernel, x: nat, st: TState)
    requires Inv(k) && 0 < x < THREADS && (k.threads[x].state == Wait || k.threads[x].state == WaitSuspend)
    requires st == Wait || st == WaitSuspend
    ensures Inv(SetThread(k, x, k.threads[x].(state := st)))
  {
    var r := SetThread(k, x, k.threads[x].(state := st));
    assert ThreadOk(k, x);
    forall p | 0 <= p < PRIOS ensures ReadyQueue(r, 0, p) { assert ReadyQueue(k, 0, p); }
    forall s | 0 <= s < SEMAS ensures WaitQueue(r, 0, s) { assert WaitQueue(k, 0, s); }
    forall id | 0 < id < THREADS ensures ThreadOk(r, id) { assert ThreadOk(k, id); }
  }

  /** Unblock completes the move of a thread that has left the list it waited on. */
  lemma UnblockMoved(k: Kernel, x: nat, ret: int)
    requires 0 < x < THREADS && Placed(k, x) && k.current != x
    requires k.threads[x].state == Wait || k.threads[x].state == WaitSuspend
    ensures Inv(Unblock(k, x, ret))
  {
    var t := k.threads[x].(releaseRet := ret, wait := NoWait);
    if t.state == Wait {
      var k1 := SetThread(k, x, t);
      Moving(k, k1, x);
      AttachBack(k1, x);
      assert Unblock(k, x, ret) == PushBack(k1, x);
    } else {
      var k1 := SetThread(k, x, t.(state := Suspend));
      Moving(k, k1, x);
      AttachIdle(k1, x);
    }
  }

  lemma BlockedIsNotRunning(k: Kernel, x: nat)
    requires Inv(k) && 0 < x < THREADS && (k.threads[x].state == Wait || k.threads[x].state == WaitSuspend)
    ensures x != k.current && k.threads[x].wait != NoWait
  {
    assert ThreadOk(k, x);
  }

  /** Leaving whatever the thread waits on. */
  lemma LeaveWait(k: Kernel, x: nat)
    requires Inv(k) && 0 < x < THREADS && k.threads[x].state != Ready
    ensures Placed(Unwait(k, x), x) && Unwait(k, x).threads == k.threads && Unwait(k, x).current == k.current
  {
    if k.threads[x].wait == OnSema { DetachWaiter(k, x); } else { DetachOther(k, x); }
  }

  lemma CreateThreadInv(k: Kernel, prio: int)
    requires Inv(k)
    ensures Inv(CreateThread(k, prio).k)
  {
    var i := FreeThread(k.threads);
    if 0 <= prio < PRIOS && i < THREADS {
      assert ThreadOk(k, i);
      ParkInv(k, i, NO_THREAD.(state := Dormant, priority := prio));
    }
  }

  lemma DeleteThreadInv(k: Kernel, id: int)
    requires Inv(k)
    ensures Inv(DeleteThread(k, id).k)
  {
    var t := Lookup(k, id);
    if DeleteThread(k, id).k != k {
      assert ThreadOk(k, t);
      ParkInv(k, t, k.threads[t].(state := Free));
    }
  }

  lemma StartThreadInv(k: Kernel, id: int)
    requires Inv(k)
    ensures Inv(StartThread(k, id).k)
  {
    var t := Lookup(k, id);
    if t != 0 && k.threads[t].state == Dormant {
      assert ThreadOk(k, t);
      WakeInv(k, t, k.threads[t]);
      assert SetThread(k, t, k.threads[t]) == k;
      PreemptInv(PushBack(k, t));
    }
  }

  lemma ExitInv(k: Kernel, del: bool)
    requires Inv(k) && k.current != 0
    ensures Inv(Yield(SetThread(k, k.current, k.threads[k.current].(state := Dormant, pendingDelete := del))))
  {
    var c := k.current;
    var t := k.threads[c].(state := Dormant, pendingDelete := del);
    assert ThreadOk(k, c);
    LeaveCpu(k, t);
    AttachIdle(Yield(SetThread(k, c, t)), c);
  }

  lemma TerminateThreadInv(k: Kernel, id: int)
    requires Inv(k)
    ensures Inv(TerminateThread(k, id).k)
  {
    var x := Lookup(k, id);
    if x != 0 && x != k.current && k.threads[x].state != Dormant {
      assert ThreadOk(k, x);
      var k2;
      if k.threads[x].state == Ready {
        DetachReady(k, x);
        k2 := Unready(k, x);
      } else {
        LeaveWait(k, x);
        k2 := Unwait(k, x);
      }
      var t := k.threads[x].(wait := NoWait, state := Dormant);
      Moving(k2, SetThread(k2, x, t), x);
      AttachIdle(SetThread(k2, x, t), x);
    }
  }

  lemma ChangePriorityInv(k: Kernel, id: int, prio: int, fromInt: bool)
    requires Inv(k)
    ensures Inv(ChangePriority(k, id, prio, fromInt).k)
  {
    var x := Resolve(k, id);
    if x != 0 && 0 <= prio < PRIOS {
      assert ThreadOk(k, x);
      var t := k.threads[x].(priority := prio);
      if x == k.current && !fromInt {
        LeaveCpu(k, t);
        AttachBack(Yield(SetThread(k, x, t)), x);
      } else if k.threads[x].state == Ready {
        DetachReady(k, x);
        var k1 := Unready(k, x);
        Moving(k1, SetThread(k1, x, t), x);
        AttachBack(SetThread(k1, x, t), x);
        PreemptInv(PushBack(SetThread(k1, x, t), x));
      } else {
        RePrioritize(k, x, prio);
        PreemptInv(SetThread(k, x, t));
      }
    }
  }

  /** The priority of a thread that is not ready is in no queue. */
  lemma RePrioritize(k: Kernel, x: nat, prio: nat)
    requires Inv(k) && 0 < x < THREADS && k.threads[x].state != Ready && prio < PRIOS
    ensures Inv(SetThread(k, x, k.threads[x].(priority := prio)))
  {
    var r := SetThread(k, x, k.threads[x].(priority := prio));
    forall p | 0 <= p < PRIOS ensures ReadyQueue(r, 0, p) { assert ReadyQueue(k, 0, p); }
    forall s | 0 <= s < SEMAS ensures WaitQueue(r, 0, s) { assert WaitQueue(k, 0, s); }
    forall id | 0 < id < THREADS ensures ThreadOk(r, id) { assert ThreadOk(k, id); }
  }

  lemma RotateInv(k: Kernel, prio: int, fromInt: bool)
    requires Inv(k)
    ensures Inv(RotateReadyQueue(k, prio, fromInt).k)
  {
    var c := Lookup(k, k.current);
    if 0 <= prio < PRIOS {
      if !fromInt && c != 0 && k.threads[c].priority == prio {
        assert ThreadOk(k, c);
        LeaveCpu(k, k.threads[c]);
        assert SetThread(k, c, k.threads[c]) == k;
        AttachBack(Yield(k), c);
        assert PushBack(Yield(k), c) == Yield(PushBack(k, c));
      } else if k.ready[prio] != [] {
        RotatedInv(k, prio);
      }
    }
  }

  lemma RotatedInv(k: Kernel, prio: nat)
    requires Inv(k) && prio < PRIOS && k.ready[prio] != []
    ensures Inv(k.(ready := k.ready[prio := k.ready[prio][1..] + [k.ready[prio][0]]]))
  {
    var q := k.ready[prio];
    var r := k.(ready := k.ready[prio := q[1..] + [q[0]]]);
    assert ReadyQueue(k, 0, prio);
    assert q == [q[0]] + q[1..];
    assert forall id: nat :: id in r.ready[prio] <==> id in q;
    forall p | 0 <= p < PRIOS ensures ReadyQueue(r, 0, p) { assert ReadyQueue(k, 0, p); }
    forall s | 0 <= s < SEMAS ensures WaitQueue(r, 0, s) { assert WaitQueue(k, 0, s); }
    forall id | 0 < id < THREADS ensures ThreadOk(r, id) { assert ThreadOk(k, id); }
  }

  lemma SleepInv(k: Kernel)
    requires Inv(k)
    ensures Inv(SleepThread(k).k)
  {
    var c := Lookup(k, k.current);
    if c != 0 {
      assert ThreadOk(k, c);
      var t := k.threads[c];
      if t.wakeups > 0 {
        NoteInv(k, c, t.(wakeups := t.wakeups - 1, spent := t.spent + 1));
      } else {
        var u := t.(state := Wait, wait := Sleeping, waitSema := 0, releaseRet := 0);
        LeaveCpu(k, u);
        AttachIdle(Yield(SetThread(k, c, u)), c);
      }
    }
  }

  lemma InvThreadOk(k: Kernel, x: nat)
    requires Inv(k) && 0 < x < THREADS
    ensures ThreadOk(k, x)
  {}

  lemma WakeupInv(k: Kernel, id: int, fromInt: bool)
    requires Inv(k)
    ensures Inv(WakeupThread(k, id, fromInt).k)
  {
    hide Unblock, MaybePreempt, Placed;
    var x := Resolve(k, id);
    if x != 0 {
      InvThreadOk(k, x);
      var t := k.threads[x];
      if (t.state == Wait || t.state == WaitSuspend) && t.wait == Sleeping {
        var k1 := SetThread(k, x, t.(sent := t.sent + 1, spent := t.spent + 1));
        DetachOther(k, x);
        Moving(k, k1, x);
        UnblockMoved(k1, x, 0);
        PreemptInv(Unblock(k1, x, 0));
      } else {
        NoteInv(k, x, t.(sent := t.sent + 1, wakeups := t.wakeups + 1));
      }
    }
  }

  lemma CancelInv(k: Kernel, id: int)
    requires Inv(k)
    ensures Inv(CancelWakeup(k, id).k)
  {
    var x := Resolve(k, id);
    if x != 0 { NoteInv(k, x, k.threads[x].(wakeups := 0, dropped := k.threads[x].dropped + k.threads[x].wakeups)); }
  }

  lemma SuspendInv(k: Kernel, id: int)
    requires Inv(k)
    ensures Inv(SuspendThread(k, id).k)
  {
    var x := Resolve(k, id);
    if x != 0 {
      assert ThreadOk(k, x);
      var t := k.threads[x].(state := Suspend);
      match k.threads[x].state {
        case Run =>
          LeaveCpu(k, t);
          AttachIdle(Yield(SetThread(k, x, t)), x);
        case Ready =>
          DetachReady(k, x);
          Moving(Unready(k, x), SetThread(Unready(k, x), x, t), x);
          AttachIdle(SetThread(Unready(k, x), x, t), x);
        case Wait => SuspendWaitInv(k, x, WaitSuspend);
        case _ =>
      }
    }
  }

  lemma ResumeInv(k: Kernel, id: int)
    requires Inv(k)
    ensures Inv(ResumeThread(k, id).k)
  {
    var x := Resolve(k, id);
    if x != 0 {
      assert ThreadOk(k, x);
      if k.threads[x].state == Suspend {
        WakeInv(k, x, k.threads[x]);
        assert SetThread(k, x, k.threads[x]) == k;
        PreemptInv(PushBack(k, x));
      } else if k.threads[x].state == WaitSuspend {
        SuspendWaitInv(k, x, Wait);
      }
    }
  }

  lemma ReleaseWaitInv(k: Kernel, id: int, fromInt: bool)
    requires Inv(k)
    ensures Inv(ReleaseWait(k, id, fromInt).k)
  {
    var x := Lookup(k, id);
    if x != 0 && (k.threads[x].state == Wait || k.threads[x].state == WaitSuspend) {
      BlockedIsNotRunning(k, x);
      LeaveWait(k, x);
      UnblockMoved(Unwait(k, x), x, -1);
      PreemptInv(Unblock(Unwait(k, x), x, -1));
    }
  }

  lemma CreateSemaInv(k: Kernel, init: int, max: int)
    requires Inv(k)
    ensures Inv(CreateSema(k, init, max).k)
  {
    var i := DeadSema(k.semas);
    if i < SEMAS {
      NobodyWaitsOnDead(k, i);
      SemaFields(k, CreateSema(k, init, max).k, 0);
    }
  }

  lemma NobodyWaitsOnDead(k: Kernel, s: nat)
    requires Inv(k) && s < SEMAS && !LiveSema(k, s)
    ensures k.semas[s].waiters == []
  {
    if k.semas[s].waiters != [] { WaiterIsBlocked(k, s); }
  }

  lemma WaiterIsBlocked(k: Kernel, s: nat)
    requires Inv(k) && s < SEMAS && k.semas[s].waiters != []
    ensures var x := k.semas[s].waiters[0];
            && Lookup(k, x) == x && 0 < x < THREADS && x != k.current
            && (k.threads[x].state == Wait || k.threads[x].state == WaitSuspend)
            && k.threads[x].wait == OnSema && k.threads[x].waitSema == s && LiveSema(k, s)
  {
    var x := k.semas[s].waiters[0];
    assert WaitQueue(k, 0, s) && x in k.semas[s].waiters;
    assert IsWaiter(k, 0, x, s) && ThreadOk(k, x);
  }

  /** Popping the oldest waiter is erasing it. */
  lemma PopWaiter(k: Kernel, s: nat, sm: Sema)
    requires Inv(k) && s < SEMAS && k.semas[s].waiters != []
    requires sm.waiters == k.semas[s].waiters[1..] && sm.alive == k.semas[s].alive
    ensures Placed(SetSema(k, s, sm), k.semas[s].waiters[0])
  {
    var x := k.semas[s].waiters[0];
    WaiterIsBlocked(k, s);
    DetachWaiter(k, x);
    SemaFields(Unwait(k, x), SetSema(k, s, sm), x);
  }

  lemma {:induction false} DrainInv(k: Kernel, id: nat)
    requires Inv(k) && id < SEMAS
    ensures Inv(DrainSema(k, id)) && DrainSema(k, id).semas[id].waiters == []
    ensures DrainSema(k, id).current == k.current && DrainSema(k, id).inInterrupt == k.inInterrupt
    decreases |k.semas[id].waiters|
  {
    var s := k.semas[id];
    if s.waiters != [] {
      var x := s.waiters[0];
      var k1 := SetSema(k, id, s.(waiters := s.waiters[1..]));
      WaiterIsBlocked(k, id);
      PopWaiter(k, id, s.(waiters := s.waiters[1..]));
      UnblockMoved(k1, x, -1);
      DrainInv(Unblock(k1, x, -1), id);
    }
  }

  lemma DeleteSemaInv(k: Kernel, id: int)
    requires Inv(k)
    ensures Inv(DeleteSema(k, id).k)
  {
    if LiveSema(k, id) {
      DrainInv(k, id);
      var k1 := DrainSema(k, id);
      var r := SetSema(k1, id, k1.semas[id].(alive := false));
      assert WaitQueue(k1, 0, id);
      forall p | 0 <= p < PRIOS ensures ReadyQueue(r, 0, p) { assert ReadyQueue(k1, 0, p); }
      forall s | 0 <= s < SEMAS ensures WaitQueue(r, 0, s) { assert WaitQueue(k1, 0, s); }
      forall x | 0 < x < THREADS ensures ThreadOk(r, x) {
        assert ThreadOk(k1, x);
        if k1.threads[x].wait == OnSema && k1.threads[x].waitSema == id { assert IsWaiter(k1, 0, x, id); }
      }
      PreemptInv(r);
    }
  }

  lemma SignalInv(k: Kernel, id: int, fromInt: bool)
    requires Inv(k)
    ensures Inv(SignalSema(k, id, fromInt).k)
  {
    hide Unblock, MaybePreempt, Placed;
    if LiveSema(k, id) {
      var s := k.semas[id];
      if s.waiters != [] {
        var sm := s.(signals := s.signals + 1, taken := s.taken + 1, waiters := s.waiters[1..]);
        var k1 := SetSema(k, id, sm);
        WaiterIsBlocked(k, id);
        PopWaiter(k, id, sm);
        UnblockMoved(k1, s.waiters[0], id);
        PreemptInv(Unblock(k1, s.waiters[0], id));
      } else {
        SemaFields(k, SignalSema(k, id, fromInt).k, 0);
      }
    }
  }

  lemma WaitSemaInv(k: Kernel, id: int)
    requires Inv(k) && (LiveSema(k, id) && k.semas[id].count <= 0 ==> k.current != 0)
    ensures Inv(WaitSema(k, id).k)
  {
    if LiveSema(k, id) {
      var s := k.semas[id];
      if s.count > 0 {
        SemaFields(k, WaitSema(k, id).k, 0);
      } else {
        var c := k.current;
        var u := k.threads[c].(state := Wait, wait := OnSema, waitSema := id, releaseRet := 0);
        LeaveCpu(k, u);
        AttachWaiter(Yield(SetThread(k, c, u)), c, id);
      }
    }
  }

  lemma PollInv(k: Kernel, id: int)
    requires Inv(k)
    ensures Inv(PollSema(k, id).k)
  {
    SemaFields(k, PollSema(k, id).k, 0);
  }

  /** Every disciplined call, made by a thread or by a handler, keeps every thread id in exactly
      the place its state says. */
  lemma CallKeepsPlacement(k: Kernel, c: Call)
    requires Inv(k) && Disciplined(k, c)
    ensures Inv(Do(k, c).k)
  {
    hide Placed, CreateThread, DeleteThread, StartThread, TerminateThread, ChangePriority, RotateReadyQueue;
    hide SleepThread, WakeupThread, CancelWakeup, SuspendThread, ResumeThread, ReleaseWait;
    hide CreateSema, DeleteSema, SignalSema, WaitSema, PollSema;
    match c
    case CCreateThread(prio) => CreateThreadInv(k, prio);
    case CDeleteThread(id) => DeleteThreadInv(k, id);
    case CStartThread(id) => StartThreadInv(k, id);
    case CExitThread(d) => ExitInv(k, d);
    case CRootReturn => ExitInv(k, k.threads[k.current].pendingDelete);
    case CTerminateThread(id) => TerminateThreadInv(k, id);
    case CChangePriority(id, prio, i) => ChangePriorityInv(k, id, prio, i);
    case CRotate(prio, i) => RotateInv(k, prio, i);
    case CSleep => SleepInv(k);
    case CWakeup(id, i) => WakeupInv(k, id, i);
    case CCancelWakeup(id) => CancelInv(k, id);
    case CSuspend(id) => SuspendInv(k, id);
    case CResume(id) => ResumeInv(k, id);
    case CReleaseWait(id, i) => ReleaseWaitInv(k, id, i);
    case CCreateSema(init, max) => CreateSemaInv(k, init, max);
    case CDeleteSema(id) => DeleteSemaInv(k, id);
    case CSignalSema(id, i) => SignalInv(k, id, i);
    case CWaitSema(id) => WaitSemaInv(k, id);
    case CPollSema(id) => PollInv(k, id);
  }
}
