/** Token and wakeup accounting, priority order, and who is served first. */
module SchedAccounts {
  import opened Sched
  import opened SchedPlacement
  import opened SchedCalls

  // ---- Tokens --------------------------------------------------------------------

  function Max(a: int, b: int): int { if a < b then b else a }

  /** Initial count plus accepted signals is what is left plus what was taken; nobody waits while
      there are tokens; and the count never passes the ceiling it started under. */
  predicate TokensOk(s: Sema) {
    s.alive ==>
      && s.initCount + s.signals == s.count + s.taken
      && (s.count > 0 ==> s.waiters == [])
      && s.count <= Max(s.initCount, s.maxCount)
  }

  predicate SemaOk(k: Kernel, s: nat) {
    s < SEMAS && TokensOk(k.semas[s])
  }

  predicate Tokens(k: Kernel) {
    forall s | 0 <= s < SEMAS :: SemaOk(k, s)
  }

  /** No wakeup is lost or duplicated, thread by thread. */
  predicate WakesOk(t: Thread) {
    t.sent == t.wakeups + t.spent + t.dropped
  }

  predicate CountOk(k: Kernel, i: nat) {
    i < THREADS && WakesOk(k.threads[i])
  }

  predicate Wakes(k: Kernel) {
    forall i | 0 <= i < THREADS :: CountOk(k, i)
  }

  /** Tables that differ in one thread and one semaphore, whose accounts balance. */
  lemma AccountsStay(k: Kernel, r: Kernel, x: nat, y: nat)
    requires x < THREADS && r.threads == k.threads[x := r.threads[x]]
    requires WakesOk(k.threads[x]) ==> WakesOk(r.threads[x])
    requires y < SEMAS && r.semas == k.semas[y := r.semas[y]] && (TokensOk(k.semas[y]) ==> TokensOk(r.semas[y]))
    ensures (Tokens(k) ==> Tokens(r)) && (Wakes(k) ==> Wakes(r))
  {
    if Tokens(k) {
      forall s | 0 <= s < SEMAS ensures SemaOk(r, s) { assert SemaOk(k, s); }
    }
    if Wakes(k) {
      forall i | 0 <= i < THREADS ensures CountOk(r, i) { assert CountOk(k, i); }
    }
  }

  function Eies(k: Kernel): seq<bool> {
    seq(THREADS, i requires 0 <= i < THREADS => k.threads[i].eie)
  }

  /** From k to r both accounts stay balanced, saved interrupt-enable values stay, and nobody enters
      or leaves interrupt context or is put on the CPU. */
  predicate Balanced(k: Kernel, r: Kernel) {
    && (Tokens(k) ==> Tokens(r)) && (Wakes(k) ==> Wakes(r)) && Eies(r) == Eies(k)
    && r.inInterrupt == k.inInterrupt && (r.current == k.current || r.current == 0)
  }

  lemma ThreadBalanced(k: Kernel, x: nat, t: Thread)
    requires x < THREADS && t.priority < PRIOS && t.eie == k.threads[x].eie && (WakesOk(k.threads[x]) ==> WakesOk(t))
    ensures Balanced(k, SetThread(k, x, t))
  {
    AccountsStay(k, SetThread(k, x, t), x, 0);
  }

  lemma SemaBalanced(k: Kernel, s: nat, t: Sema)
    requires s < SEMAS && (TokensOk(k.semas[s]) ==> TokensOk(t))
    ensures Balanced(k, SetSema(k, s, t))
  {
    AccountsStay(k, SetSema(k, s, t), 0, s);
  }

  lemma QueuesBalanced(k: Kernel, r: Kernel)
    requires r.threads == k.threads && r.semas == k.semas && r.inInterrupt == k.inInterrupt
    requires r.current == k.current || r.current == 0
    ensures Balanced(k, r)
  {
    AccountsStay(k, r, 0, 0);
  }

  lemma PushBalanced(k: Kernel, x: nat)
    requires x < THREADS
    ensures Balanced(k, PushBack(k, x)) && Balanced(k, PushFront(k, x)) && Balanced(k, Unready(k, x))
    ensures Balanced(k, Yield(k)) && Balanced(k, Yield(PushBack(k, x)))
  {
    hide Tokens, Wakes, Eies;
    var t := k.threads[x].(state := Ready);
    QueuesBalanced(k, Yield(k));
    QueuesBalanced(PushBack(k, x), Yield(PushBack(k, x)));
    ThreadBalanced(k, x, t);
    QueuesBalanced(SetThread(k, x, t), PushBack(k, x));
    QueuesBalanced(SetThread(k, x, t), PushFront(k, x));
    QueuesBalanced(k, Unready(k, x));
  }

  lemma PreemptBalanced(k: Kernel)
    ensures Balanced(k, MaybePreempt(k))
  {
    hide Tokens, Wakes, Eies, PushFront, BestReady;
    PushBalanced(k, k.current);
    QueuesBalanced(PushFront(k, k.current), Yield(PushFront(k, k.current)));
  }

  lemma UnwaitBalanced(k: Kernel, x: nat)
    requires x < THREADS
    ensures Balanced(k, Unwait(k, x))
  {
    var t := k.threads[x];
    if t.wait == OnSema && LiveSema(k, t.waitSema) {
      var s := k.semas[t.waitSema];
      SemaBalanced(k, t.waitSema, s.(waiters := Without(s.waiters, x)));
    }
  }

  lemma UnblockBalanced(k: Kernel, x: nat, ret: int)
    requires x < THREADS
    ensures Balanced(k, Unblock(k, x, ret))
  {
    hide Tokens, Wakes, Eies, PushBack;
    var t := k.threads[x].(releaseRet := ret);
    ThreadBalanced(k, x, t);
    ThreadBalanced(k, x, t.(wait := NoWait));
    ThreadBalanced(k, x, t.(wait := NoWait, state := Suspend));
    PushBalanced(SetThread(k, x, t.(wait := NoWait)), x);
  }

  lemma {:induction false} DrainBalanced(k: Kernel, id: nat)
    requires id < SEMAS
    ensures Balanced(k, DrainSema(k, id))
    decreases |k.semas[id].waiters|
  {
    hide Tokens, Wakes, Eies, Unblock;
    var s := k.semas[id];
    if s.waiters != [] {
      var k1 := SetSema(k, id, s.(waiters := s.waiters[1..]));
      SemaBalanced(k, id, s.(waiters := s.waiters[1..]));
      var t := Lookup(k1, s.waiters[0]);
      UnblockBalanced(k1, t, -1);
      UnblockKeepsSemas(k1, t, -1);
      DrainBalanced(if t == 0 then k1 else Unblock(k1, t, -1), id);
    }
  }

  lemma UnblockKeepsSemas(k: Kernel, x: nat, ret: int)
    requires x < THREADS
    ensures Unblock(k, x, ret).semas == k.semas
  {}

  // ---- The calls that are more than one step ---------------------------------------

  lemma StartBalanced(k: Kernel, id: int)
    ensures Balanced(k, StartThread(k, id).k)
  {
    hide Tokens, Wakes, Eies, MaybePreempt, PushBack;
    var t := Lookup(k, id);
    PushBalanced(k, t);
    PreemptBalanced(PushBack(k, t));
  }

  lemma TerminateBalanced(k: Kernel, id: int)
    ensures Balanced(k, TerminateThread(k, id).k)
  {
    hide Tokens, Wakes, Eies;
    var t := Lookup(k, id);
    var k1 := if k.threads[t].state == Ready then Unready(k, t) else k;
    PushBalanced(k, t);
    UnwaitBalanced(k1, t);
    ThreadBalanced(Unwait(k1, t), t, k.threads[t].(wait := NoWait, state := Dormant));
  }

  lemma ChangePriorityBalanced(k: Kernel, id: int, prio: int, fromInt: bool)
    ensures Balanced(k, ChangePriority(k, id, prio, fromInt).k)
  {
    hide Tokens, Wakes, Eies, MaybePreempt, PushBack;
    var t := Resolve(k, id);
    if 0 <= prio < PRIOS {
      var u := k.threads[t].(priority := prio);
      PushBalanced(k, t);
      ThreadBalanced(k, t, u);
      ThreadBalanced(Unready(k, t), t, u);
      PushBalanced(SetThread(k, t, u), t);
      PushBalanced(SetThread(Unready(k, t), t, u), t);
      PreemptBalanced(PushBack(SetThread(Unready(k, t), t, u), t));
      PreemptBalanced(SetThread(k, t, u));
    }
  }

  lemma RotateBalanced(k: Kernel, prio: int, fromInt: bool)
    ensures Balanced(k, RotateReadyQueue(k, prio, fromInt).k)
  {
    hide Tokens, Wakes, Eies, PushBack;
    PushBalanced(k, Lookup(k, k.current));
    if 0 <= prio < PRIOS && k.ready[prio] != [] {
      QueuesBalanced(k, k.(ready := k.ready[prio := k.ready[prio][1..] + [k.ready[prio][0]]]));
    }
  }

  lemma SleepBalanced(k: Kernel)
    ensures Balanced(k, SleepThread(k).k)
  {
    hide Tokens, Wakes, Eies;
    var c := Lookup(k, k.current);
    var t := k.threads[c];
    if t.wakeups > 0 { ThreadBalanced(k, c, t.(wakeups := t.wakeups - 1, spent := t.spent + 1)); }
    var u := t.(state := Wait, wait := Sleeping, waitSema := 0, releaseRet := 0);
    ThreadBalanced(k, c, u);
    QueuesBalanced(SetThread(k, c, u), Yield(SetThread(k, c, u)));
  }

  lemma WakeupBalanced(k: Kernel, id: int, fromInt: bool)
    ensures Balanced(k, WakeupThread(k, id, fromInt).k)
  {
    hide Tokens, Wakes, Eies, Unblock, MaybePreempt;
    var i := Resolve(k, id);
    var t := k.threads[i];
    var k1 := SetThread(k, i, t.(sent := t.sent + 1, spent := t.spent + 1));
    ThreadBalanced(k, i, t.(sent := t.sent + 1, spent := t.spent + 1));
    ThreadBalanced(k, i, t.(sent := t.sent + 1, wakeups := t.wakeups + 1));
    UnblockBalanced(k1, i, 0);
    PreemptBalanced(Unblock(k1, i, 0));
  }

  lemma SuspendBalanced(k: Kernel, id: int)
    ensures Balanced(k, SuspendThread(k, id).k)
  {
    hide Tokens, Wakes, Eies;
    var i := Resolve(k, id);
    var t := k.threads[i];
    PushBalanced(k, i);
    ThreadBalanced(k, i, t.(state := Suspend));
    QueuesBalanced(SetThread(k, i, t.(state := Suspend)), Yield(SetThread(k, i, t.(state := Suspend))));
    ThreadBalanced(Unready(k, i), i, t.(state := Suspend));
    ThreadBalanced(k, i, t.(state := WaitSuspend));
  }

  lemma ResumeBalanced(k: Kernel, id: int)
    ensures Balanced(k, ResumeThread(k, id).k)
  {
    hide Tokens, Wakes, Eies, MaybePreempt, PushBack;
    var i := Resolve(k, id);
    PushBalanced(k, i);
    PreemptBalanced(PushBack(k, i));
    ThreadBalanced(k, i, k.threads[i].(state := Wait));
  }

  lemma ReleaseBalanced(k: Kernel, id: int, fromInt: bool)
    ensures Balanced(k, ReleaseWait(k, id, fromInt).k)
  {
    hide Tokens, Wakes, Eies, MaybePreempt, Unblock, Unwait;
    var i := Lookup(k, id);
    UnwaitBalanced(k, i);
    UnblockBalanced(Unwait(k, i), i, -1);
    PreemptBalanced(Unblock(Unwait(k, i), i, -1));
  }

  lemma DeleteSemaBalanced(k: Kernel, id: int)
    ensures Balanced(k, DeleteSema(k, id).k)
  {
    hide Tokens, Wakes, Eies, MaybePreempt, DrainSema;
    if LiveSema(k, id) {
      var k1 := DrainSema(k, id);
      var s := k1.semas[id].(alive := false);
      DrainBalanced(k, id);
      SemaBalanced(k1, id, s);
      PreemptBalanced(SetSema(k1, id, s));
    }
  }

  lemma SignalBalanced(k: Kernel, id: int, fromInt: bool)
    ensures Balanced(k, SignalSema(k, id, fromInt).k)
  {
    hide Tokens, Wakes, Eies, MaybePreempt, Unblock;
    if LiveSema(k, id) {
      var s := k.semas[id];
      if s.waiters != [] {
        var u := s.(signals := s.signals + 1, taken := s.taken + 1, waiters := s.waiters[1..]);
        var k1 := SetSema(k, id, u);
        var t := Lookup(k1, s.waiters[0]);
        SemaBalanced(k, id, u);
        UnblockBalanced(k1, t, id);
        PreemptBalanced(k1);
        PreemptBalanced(Unblock(k1, t, id));
      } else {
        SemaBalanced(k, id, s.(refused := s.refused + 1));
        if s.count < s.maxCount { SemaBalanced(k, id, s.(signals := s.signals + 1, count := s.count + 1)); }
      }
    }
  }

  lemma WaitBalanced(k: Kernel, id: int)
    ensures Balanced(k, WaitSema(k, id).k) && Balanced(k, PollSema(k, id).k)
  {
    hide Tokens, Wakes, Eies;
    if LiveSema(k, id) {
      var s := k.semas[id];
      if s.count > 0 {
        SemaBalanced(k, id, s.(count := s.count - 1, taken := s.taken + 1));
      } else {
        var k1 := SetSema(k, id, s.(waiters := s.waiters + [k.current]));
        var t := k.threads[k.current].(state := Wait, wait := OnSema, waitSema := id, releaseRet := 0);
        SemaBalanced(k, id, s.(waiters := s.waiters + [k.current]));
        ThreadBalanced(k1, k.current, t);
        QueuesBalanced(SetThread(k1, k.current, t), Yield(SetThread(k1, k.current, t)));
      }
    }
  }

  lemma LifecycleBalanced(k: Kernel, c: Call)
    requires c.CDeleteThread? || c.CExitThread? || c.CRootReturn? || c.CCancelWakeup? || c.CCreateSema?
    ensures Balanced(k, Do(k, c).k)
  {
    hide Tokens, Wakes;
    var r := Do(k, c).k;
    if c.CDeleteThread? {
      AccountsStay(k, r, Lookup(k, c.id), 0);
    } else if c.CCancelWakeup? {
      AccountsStay(k, r, Resolve(k, c.id), 0);
    } else if c.CCreateSema? {
      AccountsStay(k, r, 0, if DeadSema(k.semas) < SEMAS then DeadSema(k.semas) else 0);
    } else {
      AccountsStay(k, r, k.current, 0);
    }
  }

  /** A fresh thread starts with empty accounts and interrupts on. */
  lemma CreateKeepsAccounts(k: Kernel, prio: int)
    ensures var r := CreateThread(k, prio).k;
            && (Tokens(k) ==> Tokens(r)) && (Wakes(k) ==> Wakes(r))
            && r.inInterrupt == k.inInterrupt && r.current == k.current
            && forall i | 0 <= i < THREADS && k.threads[i].state != Free :: r.threads[i] == k.threads[i]
  {
    var i := FreeThread(k.threads);
    AccountsStay(k, CreateThread(k, prio).k, if i < THREADS then i else 0, 0);
  }

  /** Token and wakeup conservation hold across every call, by a thread or by a handler; and no
      call enters or leaves interrupt context or puts another thread on the CPU. */
  lemma CallKeepsAccounts(k: Kernel, c: Call)
    requires Tokens(k) && Wakes(k)
    ensures Tokens(Do(k, c).k) && Wakes(Do(k, c).k) && Do(k, c).k.inInterrupt == k.inInterrupt
    ensures Do(k, c).k.current == k.current || Do(k, c).k.current == 0
  {
    hide Do, Tokens, Wakes, Eies, CreateThread;
    if c.CCreateThread? { DoCreate(k, c); CreateKeepsAccounts(k, c.prio); } else { CallBalanced(k, c); }
  }

  lemma DoCreate(k: Kernel, c: Call)
    requires c.CCreateThread?
    ensures Do(k, c) == CreateThread(k, c.prio)
  {}

  /** No call changes the interrupt-enable value saved for a thread that exists. */
  lemma CallKeepsEie(k: Kernel, c: Call, x: nat)
    requires x < THREADS && k.threads[x].state != Free
    ensures Do(k, c).k.threads[x].eie == k.threads[x].eie
  {
    hide Do, Tokens, Wakes, CreateThread;
    if c.CCreateThread? {
      DoCreate(k, c);
      CreateKeepsAccounts(k, c.prio);
    } else {
      CallBalanced(k, c);
      assert Eies(Do(k, c).k)[x] == Eies(k)[x];
    }
  }

  lemma CallBalanced(k: Kernel, c: Call)
    requires !c.CCreateThread?
    ensures Balanced(k, Do(k, c).k)
  {
    hide Balanced, StartThread, TerminateThread, ChangePriority, RotateReadyQueue, SleepThread,
      WakeupThread, SuspendThread, ResumeThread, ReleaseWait, DeleteSema, SignalSema, WaitSema, PollSema;
    match c
    case CStartThread(id) => StartBalanced(k, id);
    case CTerminateThread(id) => TerminateBalanced(k, id);
    case CChangePriority(id, prio, i) => ChangePriorityBalanced(k, id, prio, i);
    case CRotate(prio, i) => RotateBalanced(k, prio, i);
    case CSleep => SleepBalanced(k);
    case CWakeup(id, i) => WakeupBalanced(k, id, i);
    case CSuspend(id) => SuspendBalanced(k, id);
    case CResume(id) => ResumeBalanced(k, id);
    case CReleaseWait(id, i) => ReleaseBalanced(k, id, i);
    case CDeleteSema(id) => DeleteSemaBalanced(k, id);
    case CSignalSema(id, i) => SignalBalanced(k, id, i);
    case CWaitSema(id) => WaitBalanced(k, id);
    case CPollSema(id) => WaitBalanced(k, id);
    case _ => LifecycleBalanced(k, c);
  }

  /** A handler that keeps the calling discipline leaves the interrupted thread on the CPU. */
  lemma HandlerKeepsCurrent(k: Kernel, c: Call)
    requires Inv(k) && k.inInterrupt && Disciplined(k, c)
    ensures Do(k, c).k.current == k.current
  {
    hide Placed, BestReady, Without, PushFront;
    if k.current != 0 { InvThreadOk(k, k.current); }
    if c.CDeleteSema? {
      if LiveSema(k, c.id) { DrainInv(k, c.id); }
    } else if !MayWake(c) {
      QuietCallKeepsCurrent(k, c);
    }
  }

  /** Calls that may make another thread ready. */
  predicate MayWake(c: Call) {
    c.CStartThread? || c.CWakeup? || c.CResume? || c.CReleaseWait? || c.CSignalSema? || c.CChangePriority?
  }

  lemma QuietCallKeepsCurrent(k: Kernel, c: Call)
    requires k.inInterrupt && Disciplined(k, c) && !MayWake(c) && !c.CDeleteSema?
    ensures Do(k, c).k.current == k.current
  {
    hide Without;
  }

  /** What WaitSema, PollSema and SignalSema answer says whether a token moved. */
  lemma TokenAnswers(k: Kernel, id: int)
    requires LiveSema(k, id)
    ensures PollSema(k, id).ret == id <==> k.semas[id].count > 0
    ensures PollSema(k, id).k.semas[id].taken == k.semas[id].taken + if PollSema(k, id).ret == id then 1 else 0
    ensures k.semas[id].count > 0 <==> WaitSema(k, id).k.semas[id].taken == k.semas[id].taken + 1
    ensures SignalSema(k, id, true).ret == id <==> k.semas[id].waiters != [] || k.semas[id].count < k.semas[id].maxCount
    ensures SignalSema(k, id, true).k.semas[id].signals ==
            k.semas[id].signals + if SignalSema(k, id, true).ret == id then 1 else 0
  {}

  // ---- Priority ------------------------------------------------------------------

  /** While thread code runs, no ready thread has a strictly better priority. */
  predicate PrioSafe(k: Kernel) {
    !k.inInterrupt && k.current != 0 ==>
      forall p | 0 <= p < k.threads[k.current].priority :: k.ready[p] == []
  }

  lemma PreemptMakesSafe(k: Kernel)
    requires Inv(k)
    ensures PrioSafe(MaybePreempt(k))
  {
    if k.current != 0 { InvThreadOk(k, k.current); }
  }

  lemma SameReadySafe(k: Kernel, r: Kernel)
    requires PrioSafe(k) && r.inInterrupt == k.inInterrupt
    requires r.current == k.current || r.current == 0
    requires forall p | 0 <= p < PRIOS :: k.ready[p] == [] ==> r.ready[p] == []
    requires r.threads[k.current].priority == k.threads[k.current].priority
    ensures PrioSafe(r)
  {}

  lemma StartSafe(k: Kernel, id: int)
    requires Inv(k) && PrioSafe(k)
    ensures PrioSafe(StartThread(k, id).k)
  {
    var t := Lookup(k, id);
    if t != 0 && k.threads[t].state == Dormant {
      InvThreadOk(k, t);
      WakeInv(k, t, k.threads[t]);
      assert SetThread(k, t, k.threads[t]) == k;
      PreemptMakesSafe(PushBack(k, t));
    }
  }

  lemma TerminateSafe(k: Kernel, id: int)
    requires Inv(k) && PrioSafe(k)
    ensures PrioSafe(TerminateThread(k, id).k)
  {
    SameReadySafe(k, TerminateThread(k, id).k);
  }

  lemma ChangePrioritySafe(k: Kernel, id: int, prio: int)
    requires Inv(k) && PrioSafe(k)
    ensures PrioSafe(ChangePriority(k, id, prio, false).k)
  {
    var x := Resolve(k, id);
    if x != 0 && 0 <= prio < PRIOS && x != k.current {
      InvThreadOk(k, x);
      var t := k.threads[x].(priority := prio);
      if k.threads[x].state == Ready {
        DetachReady(k, x);
        var k1 := Unready(k, x);
        Moving(k1, SetThread(k1, x, t), x);
        AttachBack(SetThread(k1, x, t), x);
        PreemptMakesSafe(PushBack(SetThread(k1, x, t), x));
      } else {
        RePrioritize(k, x, prio);
        PreemptMakesSafe(SetThread(k, x, t));
      }
    }
  }

  lemma WakeupSafe(k: Kernel, id: int)
    requires Inv(k) && PrioSafe(k)
    ensures PrioSafe(WakeupThread(k, id, false).k)
  {
    hide Unblock, MaybePreempt, Placed;
    var x := Resolve(k, id);
    if x != 0 {
      InvThreadOk(k, x);
      var t := k.threads[x];
      if (t.state == Wait || t.state == WaitSuspend) && t.wait == Sleeping {
        var k1 := SetThread(k, x, t.(sent := t.sent + 1, spent := t.spent + 1));
        DetachOther(k, x);
        Moving(k, k1, x);
        UnblockMoved(k1, x, 0);
        PreemptMakesSafe(Unblock(k1, x, 0));
      }
    }
  }

  lemma ResumeSafe(k: Kernel, id: int)
    requires Inv(k) && PrioSafe(k)
    ensures PrioSafe(ResumeThread(k, id).k)
  {
    var x := Resolve(k, id);
    if x != 0 && k.threads[x].state == Suspend {
      InvThreadOk(k, x);
      WakeInv(k, x, k.threads[x]);
      assert SetThread(k, x, k.threads[x]) == k;
      PreemptMakesSafe(PushBack(k, x));
    }
  }

  lemma ReleaseSafe(k: Kernel, id: int)
    requires Inv(k) && PrioSafe(k)
    ensures PrioSafe(ReleaseWait(k, id, false).k)
  {
    hide Unblock, MaybePreempt, Unwait;
    var x := Lookup(k, id);
    if x != 0 && (k.threads[x].state == Wait || k.threads[x].state == WaitSuspend) {
      BlockedIsNotRunning(k, x);
      LeaveWait(k, x);
      UnblockMoved(Unwait(k, x), x, -1);
      PreemptMakesSafe(Unblock(Unwait(k, x), x, -1));
    }
  }

  lemma DeleteSemaSafe(k: Kernel, id: int)
    requires Inv(k) && PrioSafe(k)
    ensures PrioSafe(DeleteSema(k, id).k)
  {
    if LiveSema(k, id) {
      DrainInv(k, id);
      var k1 := DrainSema(k, id);
      var r := SetSema(k1, id, k1.semas[id].(alive := false));
      if r.current != 0 { InvThreadOk(k1, r.current); }
    }
  }

  lemma SignalSafe(k: Kernel, id: int)
    requires Inv(k) && PrioSafe(k)
    ensures PrioSafe(SignalSema(k, id, false).k)
  {
    hide Unblock, MaybePreempt, Placed;
    if LiveSema(k, id) && k.semas[id].waiters != [] {
      var s := k.semas[id];
      var sm := s.(signals := s.signals + 1, taken := s.taken + 1, waiters := s.waiters[1..]);
      var k1 := SetSema(k, id, sm);
      WaiterIsBlocked(k, id);
      PopWaiter(k, id, sm);
      UnblockMoved(k1, s.waiters[0], id);
      PreemptMakesSafe(Unblock(k1, s.waiters[0], id));
    }
  }

  lemma SuspendSafe(k: Kernel, id: int)
    requires Inv(k) && PrioSafe(k)
    ensures PrioSafe(SuspendThread(k, id).k)
  {
    SameReadySafe(k, SuspendThread(k, id).k);
  }

  lemma CreateSafe(k: Kernel, prio: int)
    requires Inv(k) && PrioSafe(k)
    ensures PrioSafe(CreateThread(k, prio).k)
  {
    var i := FreeThread(k.threads);
    if k.current != 0 && i < THREADS { InvThreadOk(k, i); InvThreadOk(k, k.current); }
  }

  /** Priority safety survives every call a thread makes. */
  lemma CallKeepsPriority(k: Kernel, c: Call)
    requires Inv(k) && Tokens(k) && Wakes(k) && Disciplined(k, c) && PrioSafe(k)
    ensures PrioSafe(Do(k, c).k)
  {
    hide Do, Placed;
    if k.inInterrupt {
      CallKeepsAccounts(k, c);
    } else {
      ThreadCallKeepsPriority(k, c);
    }
  }

  lemma ThreadCallKeepsPriority(k: Kernel, c: Call)
    requires Inv(k) && !k.inInterrupt && Disciplined(k, c) && PrioSafe(k)
    ensures PrioSafe(Do(k, c).k)
  {
    hide Placed, StartThread, TerminateThread, ChangePriority, CreateThread,
      WakeupThread, SuspendThread, ResumeThread, ReleaseWait, DeleteSema, SignalSema;
      match c
      case CCreateThread(prio) => CreateSafe(k, prio);
      case CStartThread(id) => StartSafe(k, id);
      case CTerminateThread(id) => TerminateSafe(k, id);
      case CChangePriority(id, prio, _) => ChangePrioritySafe(k, id, prio);
      case CWakeup(id, _) => WakeupSafe(k, id);
      case CSuspend(id) => SuspendSafe(k, id);
      case CResume(id) => ResumeSafe(k, id);
      case CReleaseWait(id, _) => ReleaseSafe(k, id);
      case CDeleteSema(id) => DeleteSemaSafe(k, id);
      case CSignalSema(id, _) => SignalSafe(k, id);
      case _ =>
  }

  // ---- Who is served first -----------------------------------------------------

  /** Dispatch takes the head of the best non-empty queue, and keeps placement. */
  lemma DispatchOk(k: Kernel)
    requires Inv(k) && k.current == 0 && BestReady(k.ready) >= 0
    ensures var p := BestReady(k.ready);
            var id := k.ready[p][0];
            && 0 < id < THREADS && Inv(Dispatch(k)) && PrioSafe(Dispatch(k))
            && Dispatch(k).current == id && k.threads[id].priority == p
            && (forall j | 0 < j < THREADS && k.threads[j].state == Ready :: p <= k.threads[j].priority)
            && Dispatch(k).ready[p] == k.ready[p][1..]
  {
    var p := BestReady(k.ready);
    var id := k.ready[p][0];
    assert ReadyQueue(k, 0, p) && id in k.ready[p];
    assert IsReady(k, 0, id, p);
    InvThreadOk(k, id);
    DetachReady(k, id);
    var r := Dispatch(k);
    RunIt(Unready(k, id), r, id);
    forall j | 0 < j < THREADS && k.threads[j].state == Ready ensures p <= k.threads[j].priority {
      assert ReadyQueue(k, 0, k.threads[j].priority) && IsReady(k, 0, j, k.threads[j].priority);
    }
  }

  lemma RunIt(k: Kernel, r: Kernel, x: nat)
    requires 0 < x < THREADS && Placed(k, x) && k.current == 0
    requires k.threads[x].state == Ready && k.threads[x].wait == NoWait
    requires r == SetThread(k, x, k.threads[x].(state := Run)).(current := x)
    ensures Inv(r)
  {
    forall p | 0 <= p < PRIOS ensures ReadyQueue(r, 0, p) { assert ReadyQueue(k, x, p); }
    forall s | 0 <= s < SEMAS ensures WaitQueue(r, 0, s) { assert WaitQueue(k, x, s); }
    forall id | 0 < id < THREADS ensures ThreadOk(r, id) { if id != x { assert ThreadOk(k, id); } }
  }

  lemma ReapOk(k: Kernel, id: nat)
    requires Inv(k) && 0 < id < THREADS
    ensures Inv(Reap(k, id)) && Reap(k, id).ready == k.ready && Reap(k, id).semas == k.semas
    ensures Reap(k, id).current == k.current && Balanced(k, Reap(k, id))
  {
    hide Placed, Tokens, Wakes;
    InvThreadOk(k, id);
    var t := k.threads[id].(state := Free);
    if k.threads[id].state == Dormant && k.threads[id].pendingDelete {
      ParkInv(k, id, t);
      ThreadBalanced(k, id, t);
    }
  }

  /** A preempted thread goes ahead of its peers: it is at the head of its own queue, and is the
      next to be dispatched once nothing better is ready. */
  lemma PreemptedGoesFirst(k: Kernel)
    requires Inv(k) && MaybePreempt(k) != k
    ensures var (c, r) := (k.current, MaybePreempt(k));
            var p := k.threads[c].priority;
            && r.current == 0 && r.threads[c].state == Ready
            && r.ready == k.ready[p := [c] + k.ready[p]]
            && 0 <= BestReady(r.ready) < p
            && (forall u: Kernel :: BestReady(u.ready) == p && u.ready[p] == r.ready[p] ==> Dispatch(u).current == c)
  {
    assert BestReady(k.ready) < k.threads[k.current].priority;
    var r := MaybePreempt(k);
    assert r.ready[BestReady(k.ready)] != [];
  }

  /** A thread that rotates or re-prioritizes itself goes behind its peers. */
  lemma RotatedGoesLast(k: Kernel, prio: nat)
    requires Inv(k) && k.current != 0 && prio < PRIOS
    ensures k.threads[k.current].priority == prio ==>
              RotateReadyQueue(k, prio, false).k.ready == k.ready[prio := k.ready[prio] + [k.current]]
    ensures ChangePriority(k, 0, prio, false).k.ready == k.ready[prio := k.ready[prio] + [k.current]]
    ensures ChangePriority(k, 0, prio, false).k.threads[k.current].priority == prio
  {
    InvThreadOk(k, k.current);
  }

  /** A token offered while threads wait goes to the one that has waited longest, whose WaitSema
      answers the semaphore id; the others keep their order and the count does not move. */
  lemma HandOffIsFifo(k: Kernel, id: int)
    requires Inv(k) && LiveSema(k, id) && k.semas[id].waiters != []
    ensures var (q, r) := (k.semas[id].waiters, SignalSema(k, id, true).k);
            && 0 < q[0] < THREADS
            && r.semas[id].waiters == q[1..] && r.semas[id].count == k.semas[id].count
            && r.threads[q[0]].releaseRet == id && r.threads[q[0]].wait == NoWait
            && r.threads[q[0]].state == (if k.threads[q[0]].state == Wait then Ready else Suspend)
            && (forall j | 0 <= j < THREADS && j != q[0] :: r.threads[j] == k.threads[j])
  {
    WaiterIsBlocked(k, id);
  }

  /** A thread that has to wait for a token waits behind those already waiting. */
  lemma WaitQueuesLast(k: Kernel, id: int)
    requires Inv(k) && LiveSema(k, id) && k.semas[id].count <= 0 && k.current != 0
    ensures WaitSema(k, id).k.semas[id].waiters == k.semas[id].waiters + [k.current]
    ensures WaitSema(k, id).k.current == 0 && WaitSema(k, id).k.threads[k.current].state == Wait
  {}

  /** Terminating or releasing a thread erases it from where it waited and leaves everyone else's
      place in that line alone. */
  lemma LeavingKeepsOrder(k: Kernel, id: nat, a: seq<nat>, b: seq<nat>)
    requires Inv(k) && 0 < id < THREADS && id != k.current
    ensures k.threads[id].state == Ready && k.ready[k.threads[id].priority] == a + [id] + b ==>
              TerminateThread(k, id).k.ready == k.ready[k.threads[id].priority := a + b]
    ensures k.threads[id].wait == OnSema && k.semas[k.threads[id].waitSema % SEMAS].waiters == a + [id] + b ==>
              ReleaseWait(k, id, true).k.semas[k.threads[id].waitSema % SEMAS].waiters == a + b
  {
    InvThreadOk(k, id);
    if k.threads[id].state == Ready && k.ready[k.threads[id].priority] == a + [id] + b {
      assert ReadyQueue(k, 0, k.threads[id].priority);
      NotEarlier(a, id, b);
      WithoutKeepsOrder(a, id, b);
    }
    if k.threads[id].wait == OnSema && k.semas[k.threads[id].waitSema % SEMAS].waiters == a + [id] + b {
      assert WaitQueue(k, 0, k.threads[id].waitSema);
      NotEarlier(a, id, b);
      WithoutKeepsOrder(a, id, b);
    }
  }

  lemma NotEarlier(a: seq<nat>, id: nat, b: seq<nat>)
    requires NoDup(a + [id] + b)
    ensures id !in a
  {
    var q := a + [id] + b;
    assert q[|a|] == id;
    assert forall i | 0 <= i < |a| :: q[i] == a[i];
  }
}
