/** The scheduler's tables as the source keeps them, changed in place: fixed thread, semaphore and
    ready-queue arrays. Every method is proved to do what the function of the same call says. */
module SchedKernel {
  import opened Sched

  class Scheduler {
    const threads: array<Thread>
    const semas: array<Sema>
    const ready: array<seq<nat>>
    var current: nat
    var inInterrupt: bool

    ghost predicate Valid()
      reads this, threads, semas, ready
    {
      && threads.Length == THREADS && semas.Length == SEMAS && ready.Length == PRIOS
      && current < THREADS
      && forall i | 0 <= i < THREADS :: threads[i].priority < PRIOS
    }

    ghost function State(): (k: Kernel)
      reads this, threads, semas, ready
      requires Valid()
    {
      Kern(threads[..], semas[..], ready[..], current, inInterrupt)
    }

    constructor ()
      ensures Valid() && fresh(threads) && fresh(semas) && fresh(ready)
      ensures State() == Kern(seq(THREADS, _ => NO_THREAD), seq(SEMAS, _ => NO_SEMA), seq(PRIOS, _ => []), 0, false)
    {
      threads := new Thread[THREADS](_ => NO_THREAD);
      semas := new Sema[SEMAS](_ => NO_SEMA);
      ready := new seq<nat>[PRIOS](_ => []);
      current := 0;
      inInterrupt := false;
    }

    // ---- Helpers the calls share -------------------------------------------------

    method TGet(id: int) returns (t: nat)
      requires Valid()
      ensures t == Lookup(State(), id)
    {
      t := if 0 < id < THREADS && threads[id].state != Free then id else 0;
    }

    method TResolve(id: int) returns (t: nat)
      requires Valid()
      ensures t == Resolve(State(), id)
    {
      t := TGet(if id == 0 then current else id);
    }

    method PutThread(id: nat, t: Thread)
      requires Valid() && id < THREADS && t.priority < PRIOS
      modifies threads
      ensures Valid() && State() == SetThread(old(State()), id, t)
    {
      threads[id] := t;
    }

    method PutSema(id: nat, s: Sema)
      requires Valid() && id < SEMAS
      modifies semas
      ensures Valid() && State() == SetSema(old(State()), id, s)
    {
      semas[id] := s;
    }

    method ReadyPushBack(id: nat)
      requires Valid() && id < THREADS
      modifies threads, ready
      ensures Valid() && State() == PushBack(old(State()), id)
    {
      var p := threads[id].priority;
      threads[id] := threads[id].(state := Ready);
      ready[p] := ready[p] + [id];
    }

    method ReadyPushFront(id: nat)
      requires Valid() && id < THREADS
      modifies threads, ready
      ensures Valid() && State() == PushFront(old(State()), id)
    {
      var p := threads[id].priority;
      threads[id] := threads[id].(state := Ready);
      ready[p] := [id] + ready[p];
    }

    /** The erase loop over a deque. */
    static method Erase(q: seq<nat>, id: nat) returns (r: seq<nat>)
      ensures r == Without(q, id)
    {
      var i := 0;
      assert q[0..] == q;
      while i < |q|
        invariant 0 <= i <= |q|
        invariant Without(q, id) == q[..i] + Without(q[i..], id)
      {
        if q[i] == id {
          assert q[i..][1..] == q[i + 1..];
          return q[..i] + q[i + 1..];
        }
        assert q[i..][1..] == q[i + 1..] && q[..i] + [q[i]] == q[..i + 1];
        i := i + 1;
      }
      assert q[..i] == q && q[i..] == [];
      r := q;
    }

    method ReadyRemove(id: nat)
      requires Valid() && id < THREADS
      modifies ready
      ensures Valid() && State() == Unready(old(State()), id)
    {
      var p := threads[id].priority;
      ready[p] := Erase(ready[p], id);
    }

    method BestReadyPrio() returns (best: int)
      requires Valid()
      ensures best == BestReady(State().ready)
    {
      for p := 0 to PRIOS
        invariant forall q | 0 <= q < p :: ready[q] == []
      {
        if ready[p] != [] {
          assert State().ready[p] != [];
          return p;
        }
      }
      return -1;
    }

    method LeaveWaiters(id: nat)
      requires Valid() && id < THREADS
      modifies semas
      ensures Valid() && State() == Unwait(old(State()), id)
    {
      var t := threads[id];
      if t.wait == OnSema && 0 < t.waitSema < SEMAS && semas[t.waitSema].alive {
        var w := Erase(semas[t.waitSema].waiters, id);
        semas[t.waitSema] := semas[t.waitSema].(waiters := w);
      }
    }

    method YieldCurrent()
      requires Valid()
      modifies this`current
      ensures Valid() && State() == Yield(old(State()))
    {
      current := 0;
    }

    method Wake(id: nat, ret: int)
      requires Valid() && id < THREADS
      modifies threads, ready
      ensures Valid() && State() == Unblock(old(State()), id, ret)
    {
      var t := threads[id].(releaseRet := ret);
      if t.state == Wait {
        PutThread(id, t.(wait := NoWait));
        ReadyPushBack(id);
      } else if t.state == WaitSuspend {
        PutThread(id, t.(wait := NoWait, state := Suspend));
      } else {
        PutThread(id, t);
      }
    }

    method Preempt()
      requires Valid()
      modifies this`current, threads, ready
      ensures Valid() && State() == MaybePreempt(old(State()))
    {
      hide PushFront;
      if inInterrupt || current == 0 || threads[current].state != Run { return; }
      var best := BestReadyPrio();
      if 0 <= best < threads[current].priority {
        ReadyPushFront(current);
        YieldCurrent();
      }
    }

    // ---- Thread calls --------------------------------------------------------------

    method Create(prio: int) returns (ret: int)
      requires Valid()
      modifies threads
      ensures Valid() && Outcome(State(), ret) == CreateThread(old(State()), prio)
    {
      if prio < 0 || prio >= PRIOS { return -1; }
      for i := 2 to THREADS
        invariant unchanged(threads)
        invariant forall j | 2 <= j < i :: threads[j].state != Free
      {
        if threads[i].state == Free {
          FirstFree(State(), i);
          PutThread(i, NO_THREAD.(state := Dormant, priority := prio));
          return i;
        }
      }
      NoneFree(State());
      return -1;
    }

    method Delete(id: int) returns (ret: int)
      requires Valid()
      modifies threads
      ensures Valid() && Outcome(State(), ret) == DeleteThread(old(State()), id)
    {
      var t := TGet(id);
      if t == 0 || threads[t].state != Dormant || t == current { return -1; }
      PutThread(t, threads[t].(state := Free));
      return 0;
    }

    method Start(id: int) returns (ret: int)
      requires Valid()
      modifies this`current, threads, ready
      ensures Valid() && Outcome(State(), ret) == StartThread(old(State()), id)
    {
      hide PushBack, MaybePreempt;
      var t := TGet(id);
      if t == 0 || threads[t].state != Dormant { return -1; }
      ReadyPushBack(t);
      Preempt();
      return id;
    }

    method ExitCurrent(andDelete: bool) returns (ret: int)
      requires Valid()
      modifies this`current, threads
      ensures Valid() && Outcome(State(), ret) == ExitThread(old(State()), andDelete)
    {
      PutThread(current, threads[current].(state := Dormant, pendingDelete := andDelete));
      YieldCurrent();
      return 0;
    }

    method ReturnFromRoot() returns (ret: int)
      requires Valid()
      modifies this`current, threads
      ensures Valid() && Outcome(State(), ret) == RootReturn(old(State()))
    {
      PutThread(current, threads[current].(state := Dormant));
      YieldCurrent();
      return 0;
    }

    method Terminate(id: int) returns (ret: int)
      requires Valid()
      modifies threads, semas, ready
      ensures Valid() && Outcome(State(), ret) == TerminateThread(old(State()), id)
    {
      hide Without;
      var t := TGet(id);
      if t == 0 || t == current || threads[t].state == Dormant { return -1; }
      if threads[t].state == Ready { ReadyRemove(t); }
      LeaveWaiters(t);
      PutThread(t, threads[t].(wait := NoWait, state := Dormant));
      return id;
    }

    method SetPriority(id: int, prio: int, fromInt: bool) returns (ret: int)
      requires Valid()
      modifies this`current, threads, ready
      ensures Valid() && Outcome(State(), ret) == ChangePriority(old(State()), id, prio, fromInt)
    {
      hide Without, MaybePreempt, PushBack;
      var t := TResolve(id);
      if t == 0 || prio < 0 || prio >= PRIOS { return -1; }
      ret := threads[t].priority;
      if t == current && !fromInt {
        PutThread(t, threads[t].(priority := prio));
        ReadyPushBack(t);
        YieldCurrent();
      } else {
        if threads[t].state == Ready {
          ReadyRemove(t);
          PutThread(t, threads[t].(priority := prio));
          ReadyPushBack(t);
        } else {
          PutThread(t, threads[t].(priority := prio));
        }
        if t != current && !fromInt { Preempt(); }
      }
    }

    method Rotate(prio: int, fromInt: bool) returns (ret: int)
      requires Valid()
      modifies this`current, threads, ready
      ensures Valid() && Outcome(State(), ret) == RotateReadyQueue(old(State()), prio, fromInt)
    {
      if prio < 0 || prio >= PRIOS { return -1; }
      var c := TGet(current);
      if !fromInt && c != 0 && threads[c].priority == prio {
        ReadyPushBack(c);
        YieldCurrent();
      } else if ready[prio] != [] {
        ghost var q := ready[prio];
        ready[prio] := ready[prio] + [ready[prio][0]];
        ready[prio] := ready[prio][1..];
        assert ready[prio] == q[1..] + [q[0]];
        assert State().ready == old(State()).ready[prio := q[1..] + [q[0]]];
      }
      return prio;
    }

    method Sleep() returns (ret: int)
      requires Valid()
      modifies this`current, threads
      ensures Valid() && Outcome(State(), ret) == SleepThread(old(State()))
    {
      var c := TGet(current);
      if c == 0 { return -1; }
      var t := threads[c];
      if t.wakeups > 0 {
        PutThread(c, t.(wakeups := t.wakeups - 1, spent := t.spent + 1));
      } else {
        PutThread(c, t.(state := Wait, wait := Sleeping, waitSema := 0, releaseRet := 0));
        YieldCurrent();
      }
      return 0;
    }

    method Wakeup(id: int, fromInt: bool) returns (ret: int)
      requires Valid()
      modifies this`current, threads, ready
      ensures Valid() && Outcome(State(), ret) == WakeupThread(old(State()), id, fromInt)
    {
      hide Unblock, MaybePreempt;
      var i := TResolve(id);
      if i == 0 { return -1; }
      var t := threads[i];
      if (t.state == Wait || t.state == WaitSuspend) && t.wait == Sleeping {
        PutThread(i, t.(sent := t.sent + 1, spent := t.spent + 1));
        Wake(i, 0);
        if !fromInt { Preempt(); }
      } else {
        PutThread(i, t.(sent := t.sent + 1, wakeups := t.wakeups + 1));
      }
      return id;
    }

    method Cancel(id: int) returns (ret: int)
      requires Valid()
      modifies threads
      ensures Valid() && Outcome(State(), ret) == CancelWakeup(old(State()), id)
    {
      var i := TResolve(id);
      if i == 0 { return -1; }
      ret := threads[i].wakeups;
      PutThread(i, threads[i].(wakeups := 0, dropped := threads[i].dropped + ret));
    }

    method SuspendById(id: int) returns (ret: int)
      requires Valid()
      modifies this`current, threads, ready
      ensures Valid() && Outcome(State(), ret) == SuspendThread(old(State()), id)
    {
      hide Without;
      var i := TResolve(id);
      if i == 0 { return -1; }
      match threads[i].state
      case Run =>
        PutThread(i, threads[i].(state := Suspend));
        if i == current { YieldCurrent(); }
        return id;
      case Ready =>
        ReadyRemove(i);
        PutThread(i, threads[i].(state := Suspend));
        return id;
      case Wait =>
        PutThread(i, threads[i].(state := WaitSuspend));
        return id;
      case _ =>
        return -1;
    }

    method ResumeById(id: int) returns (ret: int)
      requires Valid()
      modifies this`current, threads, ready
      ensures Valid() && Outcome(State(), ret) == ResumeThread(old(State()), id)
    {
      hide MaybePreempt, PushBack;
      var i := TResolve(id);
      if i == 0 { return -1; }
      if threads[i].state == Suspend {
        ReadyPushBack(i);
        Preempt();
        return id;
      }
      if threads[i].state == WaitSuspend {
        PutThread(i, threads[i].(state := Wait));
        return id;
      }
      return -1;
    }

    method Release(id: int, fromInt: bool) returns (ret: int)
      requires Valid()
      modifies this`current, threads, semas, ready
      ensures Valid() && Outcome(State(), ret) == ReleaseWait(old(State()), id, fromInt)
    {
      hide Unblock, Unwait, MaybePreempt;
      var i := TGet(id);
      if i == 0 || (threads[i].state != Wait && threads[i].state != WaitSuspend) { return -1; }
      LeaveWaiters(i);
      Wake(i, -1);
      if !fromInt { Preempt(); }
      return id;
    }

    // ---- Semaphore calls -----------------------------------------------------------

    method SemaCreate(init: int, max: int) returns (ret: int)
      requires Valid()
      modifies semas
      ensures Valid() && Outcome(State(), ret) == CreateSema(old(State()), init, max)
    {
      for i := 1 to SEMAS
        invariant unchanged(semas)
        invariant forall j | 1 <= j < i :: semas[j].alive
      {
        if !semas[i].alive {
          FirstDead(State(), i);
          PutSema(i, NO_SEMA.(alive := true, count := init, initCount := init, maxCount := max));
          return i;
        }
      }
      NoneDead(State());
      return -1;
    }

    method SemaDelete(id: int) returns (ret: int)
      requires Valid()
      modifies this`current, threads, semas, ready
      ensures Valid() && Outcome(State(), ret) == DeleteSema(old(State()), id)
    {
      hide Unblock, MaybePreempt;
      if !(0 < id < SEMAS && semas[id].alive) { return -1; }
      while semas[id].waiters != []
        invariant Valid() && DrainSema(State(), id) == DrainSema(old(State()), id)
        decreases |semas[id].waiters|
      {
        var tid := semas[id].waiters[0];
        PutSema(id, semas[id].(waiters := semas[id].waiters[1..]));
        var t := TGet(tid);
        if t != 0 { Wake(t, -1); }
      }
      PutSema(id, semas[id].(alive := false));
      Preempt();
      return id;
    }

    method SemaSignal(id: int, fromInt: bool) returns (ret: int)
      requires Valid()
      modifies this`current, threads, semas, ready
      ensures Valid() && Outcome(State(), ret) == SignalSema(old(State()), id, fromInt)
    {
      hide Unblock, MaybePreempt;
      if !(0 < id < SEMAS && semas[id].alive) { return -1; }
      var s := semas[id];
      if s.waiters == [] && s.count >= s.maxCount {
        PutSema(id, s.(refused := s.refused + 1));
        return KE_SEMA_OVF;
      }
      if s.waiters != [] {
        PutSema(id, s.(signals := s.signals + 1, taken := s.taken + 1, waiters := s.waiters[1..]));
        var t := TGet(s.waiters[0]);
        if t != 0 { Wake(t, id); }
        if !fromInt { Preempt(); }
      } else {
        PutSema(id, s.(signals := s.signals + 1, count := s.count + 1));
      }
      return id;
    }

    method SemaWait(id: int) returns (ret: int)
      requires Valid()
      modifies this`current, threads, semas
      ensures Valid() && Outcome(State(), ret) == WaitSema(old(State()), id)
    {
      if !(0 < id < SEMAS && semas[id].alive) { return -1; }
      var s := semas[id];
      if s.count > 0 {
        PutSema(id, s.(count := s.count - 1, taken := s.taken + 1));
        return id;
      }
      PutSema(id, s.(waiters := s.waiters + [current]));
      PutThread(current, threads[current].(state := Wait, wait := OnSema, waitSema := id, releaseRet := 0));
      YieldCurrent();
      return 0;
    }

    method SemaPoll(id: int) returns (ret: int)
      requires Valid()
      modifies semas
      ensures Valid() && Outcome(State(), ret) == PollSema(old(State()), id)
    {
      if !(0 < id < SEMAS && semas[id].alive) { return -1; }
      var s := semas[id];
      if s.count > 0 {
        PutSema(id, s.(count := s.count - 1, taken := s.taken + 1));
        return id;
      }
      return KE_SEMA_ZERO;
    }

    // ---- The scheduler loop ----------------------------------------------------------

    /** Picks the next thread and puts it on the CPU; false when nothing is ready. */
    method SwitchIn() returns (any: bool)
      requires Valid()
      requires forall p | 0 <= p < PRIOS && ready[p] != [] :: ready[p][0] < THREADS
      modifies this`current, threads, ready
      ensures Valid() && any == (BestReady(old(State()).ready) >= 0)
      ensures State() == if any then Dispatch(old(State())) else old(State())
    {
      var prio := BestReadyPrio();
      if prio < 0 { return false; }
      var id := ready[prio][0];
      ready[prio] := ready[prio][1..];
      threads[id] := threads[id].(state := Run);
      current := id;
      return true;
    }

    method ReapDormant(id: nat)
      requires Valid() && id < THREADS
      modifies threads
      ensures Valid() && State() == Reap(old(State()), id)
    {
      if threads[id].state == Dormant && threads[id].pendingDelete {
        PutThread(id, threads[id].(state := Free));
      }
    }
  }

  // ---- The slot searches find what the specification calls the first ------------------

  lemma FirstFree(k: Kernel, i: nat)
    requires 2 <= i < THREADS && k.threads[i].state == Free
    requires forall j | 2 <= j < i :: k.threads[j].state != Free
    ensures FreeThread(k.threads) == i
  {}

  lemma NoneFree(k: Kernel)
    requires forall j | 2 <= j < THREADS :: k.threads[j].state != Free
    ensures FreeThread(k.threads) >= THREADS
  {}

  lemma FirstDead(k: Kernel, i: nat)
    requires 1 <= i < SEMAS && !k.semas[i].alive
    requires forall j | 1 <= j < i :: k.semas[j].alive
    ensures DeadSema(k.semas) == i
  {}

  lemma NoneDead(k: Kernel)
    requires forall j | 1 <= j < SEMAS :: k.semas[j].alive
    ensures DeadSema(k.semas) >= SEMAS
  {}
}
