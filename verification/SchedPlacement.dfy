/** Placement: every thread id is in exactly the one place its state says, over every call. */
module SchedPlacement {
  import opened Sched

  ghost predicate NoDup(q: seq<nat>) {
    forall i, j | 0 <= i < j < |q| :: q[i] != q[j]
  }

  // Each predicate leaves out one id `x` (0 leaves out nobody): the thread being moved.

  predicate IsReady(k: Kernel, x: nat, id: nat, p: nat) {
    0 < id < THREADS && id != x && k.threads[id].state == Ready && k.threads[id].priority == p
  }

  predicate IsWaiter(k: Kernel, x: nat, id: nat, s: nat) {
    0 < id < THREADS && id != x && k.threads[id].wait == OnSema && k.threads[id].waitSema == s
  }

  ghost predicate ReadyQueue(k: Kernel, x: nat, p: nat)
    requires p < PRIOS
  {
    NoDup(k.ready[p]) && forall id: nat :: id in k.ready[p] <==> IsReady(k, x, id, p)
  }

  ghost predicate WaitQueue(k: Kernel, x: nat, s: nat)
    requires s < SEMAS
  {
    NoDup(k.semas[s].waiters) && forall id: nat :: id in k.semas[s].waiters <==> IsWaiter(k, x, id, s)
  }

  predicate ThreadOk(k: Kernel, id: nat)
    requires id < THREADS
  {
    var t := k.threads[id];
    && (t.state == Run <==> id == k.current)
    && (t.wait != NoWait <==> t.state == Wait || t.state == WaitSuspend)
    && (t.wait == OnSema ==> LiveSema(k, t.waitSema))
    && (t.wait == Sleeping ==> t.wakeups == 0)
  }

  ghost predicate Placed(k: Kernel, x: nat) {
    && k.threads[0] == NO_THREAD
    && (forall p | 0 <= p < PRIOS :: ReadyQueue(k, x, p))
    && (forall s | 0 <= s < SEMAS :: WaitQueue(k, x, s))
    && (forall id | 0 < id < THREADS && id != x :: ThreadOk(k, id))
  }

  /** A thread id is in ready[p] exactly once iff it is Ready at priority p, in a live semaphore's
      waiter list exactly once iff it waits on it, on the CPU iff it is Run, and in no two of them. */
  ghost predicate Inv(k: Kernel) {
    Placed(k, 0)
  }

  // ---- Queue facts -----------------------------------------------------------

  lemma {:induction false} WithoutMeans(q: seq<nat>, id: nat)
    requires NoDup(q)
    ensures NoDup(Without(q, id))
    ensures forall x: nat :: x in Without(q, id) <==> x in q && x != id
  {
    if q != [] && q[0] != id {
      WithoutMeans(q[1..], id);
      var r := Without(q[1..], id);
      assert q == [q[0]] + q[1..];
      assert q[0] !in q[1..];
      NoDupPrepend(q[0], r);
    } else if q != [] {
      assert q == [q[0]] + q[1..];
      assert id !in q[1..];
    }
  }

  lemma NoDupPrepend(x: nat, q: seq<nat>)
    requires NoDup(q) && x !in q
    ensures NoDup([x] + q)
  {}

  lemma NoDupAppend(q: seq<nat>, x: nat)
    requires NoDup(q) && x !in q
    ensures NoDup(q + [x])
  {}

  /** Erasing keeps the order of everyone else. */
  lemma {:induction false} WithoutKeepsOrder(a: seq<nat>, id: nat, b: seq<nat>)
    requires id !in a
    ensures Without(a + [id] + b, id) == a + b
  {
    if a == [] {
      assert a + [id] + b == [id] + b && a + b == b;
    } else {
      WithoutKeepsOrder(a[1..], id, b);
      assert (a + [id] + b)[1..] == a[1..] + [id] + b;
      assert a + b == [a[0]] + (a[1..] + b);
    }
  }

  // ---- Detaching the thread that is about to move ------------------------------

  lemma DetachReady(k: Kernel, x: nat)
    requires Placed(k, 0) && 0 < x < THREADS && k.threads[x].state == Ready
    ensures Placed(Unready(k, x), x)
  {
    var r := Unready(k, x);
    assert ThreadOk(k, x) && ReadyQueue(k, 0, k.threads[x].priority);
    WithoutMeans(k.ready[k.threads[x].priority], x);
    forall p | 0 <= p < PRIOS ensures ReadyQueue(r, x, p) { assert ReadyQueue(k, 0, p); }
    forall s | 0 <= s < SEMAS ensures WaitQueue(r, x, s) { assert WaitQueue(k, 0, s); }
    forall id | 0 < id < THREADS && id != x ensures ThreadOk(r, id) { assert ThreadOk(k, id); }
  }

  lemma DetachWaiter(k: Kernel, x: nat)
    requires Placed(k, 0) && 0 < x < THREADS && k.threads[x].wait == OnSema
    ensures Placed(Unwait(k, x), x)
  {
    var r := Unwait(k, x);
    assert ThreadOk(k, x) && WaitQueue(k, 0, k.threads[x].waitSema);
    WithoutMeans(k.semas[k.threads[x].waitSema].waiters, x);
    forall p | 0 <= p < PRIOS ensures ReadyQueue(r, x, p) { assert ReadyQueue(k, 0, p); }
    forall s | 0 <= s < SEMAS ensures WaitQueue(r, x, s) { assert WaitQueue(k, 0, s); }
    forall id | 0 < id < THREADS && id != x ensures ThreadOk(r, id) { assert ThreadOk(k, id); }
  }

  lemma DetachOther(k: Kernel, x: nat)
    requires Placed(k, 0) && x < THREADS && k.threads[x].state != Ready && k.threads[x].wait != OnSema
    ensures Placed(k, x)
  {
    forall p | 0 <= p < PRIOS ensures ReadyQueue(k, x, p) { assert ReadyQueue(k, 0, p); }
    forall s | 0 <= s < SEMAS ensures WaitQueue(k, x, s) { assert WaitQueue(k, 0, s); }
  }

  /** Placement does not look at the moving thread, nor at who is on the CPU when that is it. */
  lemma Moving(k: Kernel, r: Kernel, x: nat)
    requires 0 < x < THREADS && Placed(k, x)
    requires r.semas == k.semas && r.ready == k.ready
    requires r.threads == k.threads[x := r.threads[x]]
    requires r.current == k.current || (k.current == x && r.current == 0)
    ensures Placed(r, x)
  {
    forall p | 0 <= p < PRIOS ensures ReadyQueue(r, x, p) { assert ReadyQueue(k, x, p); }
    forall s | 0 <= s < SEMAS ensures WaitQueue(r, x, s) { assert WaitQueue(k, x, s); }
    forall id | 0 < id < THREADS && id != x ensures ThreadOk(r, id) { assert ThreadOk(k, id); }
  }

  // ---- Attaching it in its new place --------------------------------------------

  lemma AttachReady(k: Kernel, r: Kernel, x: nat)
    requires 0 < x < THREADS && Placed(k, x) && k.current != x && k.threads[x].wait == NoWait
    requires var t := k.threads[x];
             && r.threads == k.threads[x := t.(state := Ready)] && r.semas == k.semas && r.current == k.current
             && r.ready == k.ready[t.priority := r.ready[t.priority]]
             && NoDup(r.ready[t.priority])
             && (forall id: nat :: id in r.ready[t.priority] <==> id in k.ready[t.priority] || id == x)
    ensures Placed(r, 0)
  {
    forall p | 0 <= p < PRIOS ensures ReadyQueue(r, 0, p) { assert ReadyQueue(k, x, p); }
    forall s | 0 <= s < SEMAS ensures WaitQueue(r, 0, s) { assert WaitQueue(k, x, s); }
    forall id | 0 < id < THREADS ensures ThreadOk(r, id) { if id != x { assert ThreadOk(k, id); } }
  }

  lemma AttachBack(k: Kernel, x: nat)
    requires 0 < x < THREADS && Placed(k, x) && k.current != x && k.threads[x].wait == NoWait
    ensures Placed(PushBack(k, x), 0)
  {
    var p := k.threads[x].priority;
    assert ReadyQueue(k, x, p);
    NoDupAppend(k.ready[p], x);
    AttachReady(k, PushBack(k, x), x);
  }

  lemma AttachFront(k: Kernel, x: nat)
    requires 0 < x < THREADS && Placed(k, x) && k.current != x && k.threads[x].wait == NoWait
    ensures Placed(PushFront(k, x), 0)
  {
    var p := k.threads[x].priority;
    assert ReadyQueue(k, x, p);
    NoDupPrepend(x, k.ready[p]);
    AttachReady(k, PushFront(k, x), x);
  }

  /** Dormant, free, suspended, asleep or on the CPU: in no queue. */
  lemma AttachIdle(k: Kernel, x: nat)
    requires 0 < x < THREADS && Placed(k, x) && ThreadOk(k, x)
    requires k.threads[x].state != Ready && k.threads[x].wait != OnSema
    ensures Placed(k, 0)
  {
    forall p | 0 <= p < PRIOS ensures ReadyQueue(k, 0, p) { assert ReadyQueue(k, x, p); }
    forall s | 0 <= s < SEMAS ensures WaitQueue(k, 0, s) { assert WaitQueue(k, x, s); }
  }

  lemma AttachWaiter(k: Kernel, x: nat, s: nat)
    requires 0 < x < THREADS && Placed(k, x) && ThreadOk(k, x) && LiveSema(k, s)
    requires k.threads[x].wait == OnSema && k.threads[x].waitSema == s
    ensures Placed(SetSema(k, s, k.semas[s].(waiters := k.semas[s].waiters + [x])), 0)
  {
    var r := SetSema(k, s, k.semas[s].(waiters := k.semas[s].waiters + [x]));
    assert WaitQueue(k, x, s);
    NoDupAppend(k.semas[s].waiters, x);
    forall p | 0 <= p < PRIOS ensures ReadyQueue(r, 0, p) { assert ReadyQueue(k, x, p); }
    forall q | 0 <= q < SEMAS ensures WaitQueue(r, 0, q) { assert WaitQueue(k, x, q); }
    forall id | 0 < id < THREADS ensures ThreadOk(r, id) { assert ThreadOk(k, id); }
  }

  /** Semaphore bookkeeping that touches neither a waiter list nor liveness moves nobody. */
  lemma SemaFields(k: Kernel, r: Kernel, x: nat)
    requires Placed(k, x) && r.threads == k.threads && r.ready == k.ready && r.current == k.current
    requires forall s | 0 <= s < SEMAS ::
               r.semas[s].waiters == k.semas[s].waiters && (k.semas[s].alive ==> r.semas[s].alive)
    ensures Placed(r, x)
  {
    forall p | 0 <= p < PRIOS ensures ReadyQueue(r, x, p) { assert ReadyQueue(k, x, p); }
    forall q | 0 <= q < SEMAS ensures WaitQueue(r, x, q) { assert WaitQueue(k, x, q); }
    forall id | 0 < id < THREADS && id != x ensures ThreadOk(r, id) { assert ThreadOk(k, id); }
  }
}
