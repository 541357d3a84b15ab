/** Kernel alarms over whole runs of the timeline: one-shot, and on time to the cycle. */
module ClockAlarms {
  import opened VideoMode
  import opened Timers
  import opened Alarms
  import opened Sif
  import opened Clock
  import opened ClockRuns

  predicate About(e: Event, slot: nat) {
    match e
    case AlarmArmed(k, _, _, _) => k == slot
    case AlarmDue(k, _) => k == slot
    case AlarmFired(k, _) => k == slot
    case AlarmReleased(k, _) => k == slot
    case _ => false
  }

  /** The latest event of a history that concerns `slot`. */
  function SlotTail(tr: seq<Event>, slot: nat): Maybe {
    if tr == [] then None
    else if About(tr[|tr| - 1], slot) then Some(tr[|tr| - 1])
    else SlotTail(tr[..|tr| - 1], slot)
  }

  /** Deadline fixed by an arming event: the 16-bit tick count times the H-blank in force then. */
  function DueOf(e: Event): nat
    requires e.AlarmArmed?
  {
    e.at + e.ticks % 0x10000 * CyclesPerHblank(e.mode)
  }

  /** The slot is free after `last`: nothing yet, or its alarm fired or was released. */
  predicate FreeAfter(last: Maybe) {
    last.None? || last.e.AlarmFired? || last.e.AlarmReleased?
  }

  /** What may follow what in one slot's life. A handler runs only for an alarm that came due and has not
      run or been released since; a release ends one that is armed or due. */
  predicate SlotFollows(last: Maybe, e: Event) {
    match e
    case AlarmArmed(_, _, _, _) => FreeAfter(last)
    case AlarmDue(_, at) => last.Some? && last.e.AlarmArmed? && at == DueOf(last.e)
    case AlarmFired(_, at) => last.Some? && last.e.AlarmDue? && last.e.at <= at
    case AlarmReleased(_, _) => last.Some? && (last.e.AlarmArmed? || last.e.AlarmDue?)
    case _ => true
  }

  function SlotOf(e: Event): nat {
    match e
    case AlarmArmed(k, _, _, _) => k
    case AlarmDue(k, _) => k
    case AlarmFired(k, _) => k
    case AlarmReleased(k, _) => k
    case _ => 0
  }

  predicate OnTime(tr: seq<Event>) {
    tr != [] ==>
      var n := |tr| - 1;
      OnTime(tr[..n]) && SlotFollows(SlotTail(tr[..n], SlotOf(tr[n])), tr[n])
  }

  /** How a live slot relates to its history. */
  predicate SlotLink(a: Alarm, last: Maybe, now: nat) {
    if a.armed then !a.pending && last.Some? && last.e.AlarmArmed? && a.due == DueOf(last.e)
    else if a.pending then last.Some? && last.e.AlarmDue? && last.e.at <= now
    else FreeAfter(last)
  }

  predicate SlotsLink(slots: seq<Alarm>, tr: seq<Event>, now: nat) {
    forall i | 0 <= i < |slots| :: SlotLink(slots[i], SlotTail(tr, i), now)
  }

  predicate AlarmLink(s: Timeline) {
    OnTime(s.trace) && SlotsLink(s.alarms.slots, s.trace, s.now)
  }

  lemma LinkLater(slots: seq<Alarm>, tr: seq<Event>, now: nat, later: nat)
    requires SlotsLink(slots, tr, now) && now <= later
    ensures SlotsLink(slots, tr, later)
  {
    hide SlotTail;
    forall i | 0 <= i < |slots| ensures SlotLink(slots[i], SlotTail(tr, i), later) {
      assert SlotLink(slots[i], SlotTail(tr, i), now);
    }
  }

  lemma Snoc(tr: seq<Event>, e: Event, slot: nat)
    ensures SlotTail(tr + [e], slot) == if About(e, slot) then Some(e) else SlotTail(tr, slot)
    ensures OnTime(tr + [e]) <==> OnTime(tr) && SlotFollows(SlotTail(tr, SlotOf(e)), e)
  {
    assert (tr + [e])[..|tr|] == tr;
  }

  /** Events that concern no slot. */
  predicate NoAlarms(es: seq<Event>) {
    forall i | 0 <= i < |es| :: es[i].VbOn? || es[i].VbOff? || es[i].TimerLine? || es[i].SifOut?
  }

  lemma {:induction false} Quiet(tr: seq<Event>, es: seq<Event>, slot: nat)
    requires NoAlarms(es)
    ensures SlotTail(tr + es, slot) == SlotTail(tr, slot)
    ensures OnTime(tr + es) <==> OnTime(tr)
  {
    if es == [] {
      assert tr + es == tr;
    } else {
      var n := |es| - 1;
      Quiet(tr, es[..n], slot);
      Snoc(tr + es[..n], es[n], slot);
      assert tr + es == (tr + es[..n]) + [es[n]];
    }
  }

  lemma QuietLink(slots: seq<Alarm>, tr: seq<Event>, es: seq<Event>, now: nat)
    requires NoAlarms(es) && OnTime(tr) && SlotsLink(slots, tr, now)
    ensures OnTime(tr + es) && SlotsLink(slots, tr + es, now)
  {
    hide SlotLink, NoAlarms;
    Quiet(tr, es, 0);
    forall i | 0 <= i < |slots| ensures SlotLink(slots[i], SlotTail(tr + es, i), now) { Quiet(tr, es, i); }
  }

  /** One event about one slot: the other slots keep their history. */
  lemma OneSlot(slots: seq<Alarm>, tr: seq<Event>, k: nat, a: Alarm, e: Event, now: nat)
    requires k < |slots| && OnTime(tr) && SlotsLink(slots, tr, now)
    requires About(e, k) && SlotFollows(SlotTail(tr, k), e) && SlotLink(a, Some(e), now)
    ensures OnTime(tr + [e]) && SlotsLink(slots[k := a], tr + [e], now)
  {
    hide SlotLink;
    forall i | 0 <= i < |slots| ensures SlotLink(slots[k := a][i], SlotTail(tr + [e], i), now) {
      Snoc(tr, e, i);
    }
    Snoc(tr, e, k);
  }

  /** The table after the due scan has passed the first `n` slots. */
  function Scanned(slots: seq<Alarm>, c: nat, n: nat): seq<Alarm>
    requires n <= |slots|
  {
    MarkDue(slots[..n], c) + slots[n..]
  }

  lemma ScanOne(slots: seq<Alarm>, tr: seq<Event>, c: nat, m: nat)
    requires m < |slots| && OnTime(tr) && SlotsLink(Scanned(slots, c, m), tr, c)
    requires slots[m].armed ==> c <= slots[m].due
    ensures var es := if IsDue(slots[m], c) then [AlarmDue(m, c)] else [];
            OnTime(tr + es) && SlotsLink(Scanned(slots, c, m + 1), tr + es, c)
  {
    var was := Scanned(slots, c, m);
    assert slots[..m + 1] == slots[..m] + [slots[m]];
    if IsDue(slots[m], c) {
      var a := slots[m].(armed := false, pending := true);
      assert was[m] == slots[m];
      assert SlotLink(was[m], SlotTail(tr, m), c);
      OneSlot(was, tr, m, a, AlarmDue(m, c), c);
      assert Scanned(slots, c, m + 1) == was[m := a];
    } else {
      assert Scanned(slots, c, m + 1) == was;
      assert tr + [] == tr;
    }
  }

  /** The due scan, slot by slot: each slot that becomes pending does so on its own deadline. */
  lemma {:induction false} DueLink(slots: seq<Alarm>, tr: seq<Event>, c: nat, n: nat)
    requires n <= |slots| && OnTime(tr) && SlotsLink(slots, tr, c)
    requires forall i | 0 <= i < |slots| && slots[i].armed :: c <= slots[i].due
    ensures var tr' := tr + DueEvents(DueSlots(slots[..n], c), c);
            OnTime(tr') && SlotsLink(Scanned(slots, c, n), tr', c)
  {
    hide OnTime, SlotsLink, SlotTail;
    if n == 0 {
      assert tr + DueEvents([], c) == tr;
      assert Scanned(slots, c, 0) == slots;
    } else {
      var m := n - 1;
      DueLink(slots, tr, c, m);
      var ds := DueSlots(slots[..m], c);
      assert slots[..n][..m] == slots[..m];
      var es := if IsDue(slots[m], c) then [AlarmDue(m, c)] else [];
      ScanOne(slots, tr + DueEvents(ds, c), c, m);
      assert DueEvents(DueSlots(slots[..n], c), c) == DueEvents(ds, c) + es;
      assert tr + (DueEvents(ds, c) + es) == tr + DueEvents(ds, c) + es;
    }
  }

  lemma ProcessAlarmLink(s: Timeline, c: nat)
    requires Inv(s) && AlarmLink(s) && c == NextDeadline(s) && c <= HORIZON && AllInRange(s.timers, c)
    ensures AlarmLink(Process(s, c))
  {
    hide NextDeadline, OnTime, SlotsLink, TimerPart, VblankPart, SifPart;
    NextIsLeast(s);
    var slots := s.alarms.slots;
    assert forall i | 0 <= i < |slots| && slots[i].armed :: c <= slots[i].due;
    BeforeAlarms(s, c);
    hide Inv;
    var t := SifPart(TimerPart(VblankPart(At(s, c))));
    DueLink(slots, t.trace, c, |slots|);
    assert slots[..|slots|] == slots && MarkDue(slots, c) + [] == MarkDue(slots, c);
    assert Scanned(slots, c, |slots|) == MarkDue(slots, c) && Process(s, c) == AlarmPart(t);
  }

  lemma BeforeAlarms(s: Timeline, c: nat)
    requires AlarmLink(s) && s.now <= c && AllInRange(s.timers, c)
    ensures var v := VblankPart(At(s, c)); AllInRange(v.timers, v.now)
    ensures var t := SifPart(TimerPart(VblankPart(At(s, c))));
            AlarmLink(t) && t.alarms == s.alarms && t.now == c
  {
    hide OnTime, SlotsLink;
    LinkLater(s.alarms.slots, s.trace, s.now, c);
    var v := VblankPart(At(s, c));
    var es := v.trace[|s.trace|..];
    assert v.trace == s.trace + es;
    QuietLink(s.alarms.slots, s.trace, es, c);
    var t := TimerPart(v);
    QuietLink(s.alarms.slots, v.trace, LineEvents(RaisedLines(v.timers, c, Hb(v)), c), c);
    QuietLink(s.alarms.slots, t.trace, OutEvents(RunDue(t.sif, c, CyclesPerField(t.mode)).out, c), c);
  }

  lemma {:induction false} RunToAlarmLink(s: Timeline, target: nat)
    requires Inv(s) && AlarmLink(s) && s.now <= target <= HORIZON
    ensures AlarmLink(RunTo(s, target))
    decreases Ahead(s, target), AtNext(s)
  {
    hide NextDeadline, RunTo, Process, OnTime, SlotsLink, AtNext;
    RunToStep(s, target);
    if NextDeadline(s) <= target {
      ProcessAlarmLink(s, NextDeadline(s));
      RunToAlarmLink(Process(s, NextDeadline(s)), target);
    } else {
      LinkLater(s.alarms.slots, s.trace, s.now, target);
    }
  }

  lemma ApplyAlarmLink(s: Timeline, op: Op)
    requires Inv(s) && CanApply(s, op) && AlarmLink(s)
    ensures AlarmLink(Apply(s, op))
  {
    hide Apply, AlarmLink, Inv, CanApply;
    if op.Tick? {
      TickLink(s, op.cycles);
    } else if op.SetAlarm? {
      SetLink(s, op.ticks, op.handler, op.arg, op.gp);
    } else if op.ReleaseAlarm? {
      ReleaseLink(s, op.id);
    } else if op.DispatchAlarm? {
      DispatchLink(s, op.slot);
    } else {
      OtherLink(s, op);
    }
  }

  lemma TickLink(s: Timeline, n: nat)
    requires Inv(s) && CanApply(s, Tick(n)) && AlarmLink(s)
    ensures AlarmLink(Apply(s, Tick(n)))
  {
    hide RunTo, AlarmLink;
    RunToAlarmLink(s, s.now + n);
  }

  lemma SetLink(s: Timeline, ticks: nat, handler: nat, arg: nat, gp: nat)
    requires Inv(s) && AlarmLink(s)
    ensures AlarmLink(Apply(s, SetAlarm(ticks, handler, arg, gp)))
  {
    hide OnTime, SlotTail;
    var k := FirstFree(s.alarms.slots);
    if k < SLOTS {
      assert SlotLink(s.alarms.slots[k], SlotTail(s.trace, k), s.now);
      var a := Armed(ticks, handler, arg, gp, s.now, Hb(s));
      OneSlot(s.alarms.slots, s.trace, k, a, AlarmArmed(k, s.now, ticks, s.mode), s.now);
    } else {
      assert s.trace + [] == s.trace;
    }
  }

  lemma ReleaseLink(s: Timeline, id: int)
    requires Inv(s) && AlarmLink(s)
    ensures AlarmLink(Apply(s, ReleaseAlarm(id)))
  {
    hide OnTime, SlotTail;
    if 0 <= id < SLOTS && Live(s.alarms.slots[id]) {
      assert SlotLink(s.alarms.slots[id], SlotTail(s.trace, id), s.now);
      OneSlot(s.alarms.slots, s.trace, id, IDLE, AlarmReleased(id, s.now), s.now);
    } else {
      assert s.trace + [] == s.trace;
    }
  }

  /** The ops that concern no alarm. */
  lemma OtherLink(s: Timeline, op: Op)
    requires Inv(s) && CanApply(s, op) && AlarmLink(s)
    requires !op.Tick? && !op.SetAlarm? && !op.ReleaseAlarm? && !op.DispatchAlarm?
    ensures AlarmLink(Apply(s, op))
  {
    hide OnTime, SlotsLink;
    if op.ReadTimer? {
      var es := if Advance(s.timers[op.i], s.now, Hb(s)).raised then [TimerLine(op.i, s.now)] else [];
      QuietLink(s.alarms.slots, s.trace, es, s.now);
    }
  }

  lemma DispatchLink(s: Timeline, k: nat)
    requires Inv(s) && CanApply(s, DispatchAlarm(k)) && AlarmLink(s)
    ensures AlarmLink(Apply(s, DispatchAlarm(k)))
  {
    hide OnTime, SlotTail;
    assert SlotLink(s.alarms.slots[k], SlotTail(s.trace, k), s.now);
    OneSlot(s.alarms.slots, s.trace, k, IDLE, AlarmFired(k, s.now), s.now);
  }

  /** Alarms are one-shot and on time: over any run, each slot's life is arm, then due at exactly
      arm time + ticks x the H-blank in force at arming (whatever the mode does later), then one
      dispatch, never before it came due; or, in place of the last or the last two, a release; and
      no armed alarm is ever late. */
  lemma {:induction false} AlarmsOnTime(s: Timeline, ops: seq<Op>)
    requires Inv(s) && CanRun(s, ops) && AlarmLink(s)
    ensures AlarmLink(Run(s, ops)) && Accounted(Run(s, ops).alarms)
    ensures forall i | 0 <= i < SLOTS && Run(s, ops).alarms.slots[i].armed ::
              Run(s, ops).now <= Run(s, ops).alarms.slots[i].due
    decreases |ops|
  {
    hide AlarmLink, Apply;
    if ops != [] {
      ApplyOk(s, ops[0]);
      ApplyAlarmLink(s, ops[0]);
      AlarmsOnTime(Apply(s, ops[0]), ops[1..]);
    }
  }

  /** From boot, then, over every run. */
  lemma AlarmsFromBoot(ops: seq<Op>)
    requires Inv(BOOT) && CanRun(BOOT, ops)
    ensures OnTime(Run(BOOT, ops).trace) && Accounted(Run(BOOT, ops).alarms)
    ensures SlotsLink(Run(BOOT, ops).alarms.slots, Run(BOOT, ops).trace, Run(BOOT, ops).now)
  {
    hide Run;
    AlarmsOnTime(BOOT, ops);
  }

  /** Handler runs of a slot, or alarms of it come due. */
  function Count(tr: seq<Event>, slot: nat, fired: bool): nat {
    if tr == [] then 0
    else
      var e := tr[|tr| - 1];
      Count(tr[..|tr| - 1], slot, fired) +
      (if About(e, slot) && (if fired then e.AlarmFired? else e.AlarmDue?) then 1 else 0)
  }

  /** Every handler run is for its own due alarm: at any point of the history there have been at most as
      many as alarms come due, and short of that only by alarms still pending or released when due. */
  lemma {:induction false} OneRunPerDue(tr: seq<Event>, slot: nat)
    requires OnTime(tr)
    ensures Count(tr, slot, true) <= Count(tr, slot, false)
    ensures SlotTail(tr, slot).Some? && SlotTail(tr, slot).e.AlarmDue? ==>
              Count(tr, slot, true) < Count(tr, slot, false)
  {
    if tr != [] { OneRunPerDue(tr[..|tr| - 1], slot); }
  }
}
