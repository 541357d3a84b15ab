/** Whole runs of the timeline: any interleaving of billing, register traffic, video mode changes,
    alarm calls and SIF deadlines, and what its history looks like. */
module ClockRuns {
  import opened VideoMode
  import opened Timers
  import opened Alarms
  import opened Sif
  import opened Clock

  datatype Op =
    | Tick(cycles: nat)
    | SetMode(m: Mode)
    | WriteTimer(i: nat, w: RegWrite)
    | ReadTimer(i: nat)
    | SetAlarm(ticks: nat, handler: nat, arg: nat, gp: nat)
    | ReleaseAlarm(id: int)
    | DispatchAlarm(slot: nat)
    | SifSend(kind: Kind, tag: nat, hold: nat)
    | SifTaken

  /** What the callers of each entry point guarantee: time does not run out, timer numbers decode
      to 0..3, and only a pending slot is dispatched. */
  predicate CanApply(s: Timeline, op: Op) {
    match op
    case Tick(n) => s.now + n <= HORIZON
    case WriteTimer(i, _) => i < 4
    case ReadTimer(i) => i < 4
    case DispatchAlarm(k) => k < SLOTS && k < |s.alarms.slots| && s.alarms.slots[k].pending
    case _ => true
  }

  function Apply(s: Timeline, op: Op): Timeline
    requires Inv(s) && CanApply(s, op)
  {
    match op
    case Tick(n) => RunTo(s, s.now + n)
    case SetMode(m) => ChangeMode(s, m)
    case WriteTimer(i, w) => s.(timers := s.timers[i := WriteReg(s.timers[i], w, s.now, Hb(s))])
    case ReadTimer(i) =>
      var a := Advance(s.timers[i], s.now, Hb(s));
      s.(timers := s.timers[i := a.timer],
         trace := s.trace + if a.raised then [TimerLine(i, s.now)] else [])
    case SetAlarm(ticks, handler, arg, gp) =>
      var (id, t) := Arm(s.alarms, ticks, handler, arg, gp, s.now, Hb(s));
      s.(alarms := t,
         trace := s.trace + if id == -1 then [] else [AlarmArmed(FirstFree(s.alarms.slots), s.now, ticks, s.mode)])
    case ReleaseAlarm(id) =>
      var (r, t) := Cancel(s.alarms, id);
      s.(alarms := t, trace := s.trace + if r == -1 then [] else [AlarmReleased(id, s.now)])
    case DispatchAlarm(k) => s.(alarms := Fire(s.alarms, k), trace := s.trace + [AlarmFired(k, s.now)])
    case SifSend(kind, tag, hold) =>
      s.(sif := s.sif.(queue := s.sif.queue + [Delivery(kind, s.now + LATENCY + hold, tag)]))
    case SifTaken => s.(sif := s.sif.(busy := false))
  }

  function ChangeMode(s: Timeline, m: Mode): Timeline
    requires Shape(s)
  {
    if m == s.mode then s
    else
      s.(mode := m, nextEdge := s.now + CyclesPerField(m),
         timers := seq(4, i requires 0 <= i < 4 => ModeHook(s.timers[i], s.now, CyclesPerHblank(m))))
  }

  lemma ApplyOk(s: Timeline, op: Op)
    requires Inv(s) && CanApply(s, op)
    ensures Inv(Apply(s, op)) && s.now <= Apply(s, op).now
  {
    if op.Tick? { TickOk(s, op.cycles); }
    else if op.SetMode? { SetModeOk(s, op.m); }
    else if op.SifSend? || op.SifTaken? { SifOpOk(s, op); }
    else if op.WriteTimer? || op.ReadTimer? { TimerOpOk(s, op); }
    else { AlarmOpOk(s, op); }
  }

  lemma TickOk(s: Timeline, n: nat)
    requires Inv(s) && CanApply(s, Tick(n))
    ensures Inv(Apply(s, Tick(n))) && s.now <= Apply(s, Tick(n)).now
  {}

  lemma SetModeOk(s: Timeline, m: Mode)
    requires Inv(s)
    ensures Inv(Apply(s, SetMode(m))) && s.now <= Apply(s, SetMode(m)).now
  {
    ChangeModeOk(s, m);
  }

  lemma SifOpOk(s: Timeline, op: Op)
    requires Inv(s) && (op.SifSend? || op.SifTaken?)
    ensures Inv(Apply(s, op)) && s.now <= Apply(s, op).now
  {}

  lemma TimerOpOk(s: Timeline, op: Op)
    requires Inv(s) && CanApply(s, op) && (op.WriteTimer? || op.ReadTimer?)
    ensures Inv(Apply(s, op)) && s.now <= Apply(s, op).now
  {
    PeriodsNest(s.mode, s.mode);
    var r := Apply(s, op);
    if op.ReadTimer? {
      AdvancedCaughtUp(s.timers[op.i], s.now, Hb(s));
    }
    OneTimerOk(s, op.i, r.timers[op.i], r.trace);
  }

  lemma AlarmOpOk(s: Timeline, op: Op)
    requires Inv(s) && CanApply(s, op) && (op.SetAlarm? || op.ReleaseAlarm? || op.DispatchAlarm?)
    ensures Inv(Apply(s, op)) && s.now <= Apply(s, op).now
  {
    hide Arm, Cancel, Fire, Accounted;
    var r := Apply(s, op);
    match op {
      case SetAlarm(ticks, handler, arg, gp) => ArmLater(s, ticks, handler, arg, gp);
      case ReleaseAlarm(id) => CancelLater(s, id);
      case DispatchAlarm(k) => FireLater(s, k);
    }
    AlarmsOk(s, r.alarms, r.trace);
  }

  /** No armed alarm is overdue. */
  predicate DueLater(t: Table, now: nat)
    requires |t.slots| == SLOTS
  {
    forall i | 0 <= i < SLOTS && t.slots[i].armed :: now <= t.slots[i].due
  }

  lemma ArmLater(s: Timeline, ticks: nat, handler: nat, arg: nat, gp: nat)
    requires Inv(s)
    ensures var t := Arm(s.alarms, ticks, handler, arg, gp, s.now, Hb(s)).1; Accounted(t) && DueLater(t, s.now)
  {
    hide Accounted;
    ArmAccounted(s.alarms, ticks, handler, arg, gp, s.now, Hb(s));
  }

  lemma CancelLater(s: Timeline, id: int)
    requires Inv(s)
    ensures Accounted(Cancel(s.alarms, id).1) && DueLater(Cancel(s.alarms, id).1, s.now)
  {
    hide Accounted;
    CancelAccounted(s.alarms, id);
  }

  lemma FireLater(s: Timeline, k: nat)
    requires Inv(s) && k < SLOTS && s.alarms.slots[k].pending
    ensures Accounted(Fire(s.alarms, k)) && DueLater(Fire(s.alarms, k), s.now)
  {
    hide Accounted;
    FireAccounted(s.alarms, k);
  }

  lemma OneTimerOk(s: Timeline, i: nat, t: Timer, tr: seq<Event>)
    requires Inv(s) && i < 4 && InRange(t, s.now)
    ensures Inv(s.(timers := s.timers[i := t], trace := tr))
  {}

  lemma AlarmsOk(s: Timeline, t: Table, tr: seq<Event>)
    requires Inv(s) && Accounted(t)
    requires DueLater(t, s.now)
    ensures Inv(s.(alarms := t, trace := tr))
  {}

  /** The pending vblank end stays nearer than the re-derived field edge. */
  lemma ChangeModeOk(s: Timeline, m: Mode)
    requires Inv(s)
    ensures Inv(ChangeMode(s, m)) && ChangeMode(s, m).now == s.now
  {
    PeriodsNest(m, m);
  }

  predicate CanRun(s: Timeline, ops: seq<Op>)
    requires Inv(s)
    decreases |ops|
  {
    ops == [] || (CanApply(s, ops[0]) && (ApplyOk(s, ops[0]); CanRun(Apply(s, ops[0]), ops[1..])))
  }

  function Run(s: Timeline, ops: seq<Op>): (r: Timeline)
    requires Inv(s) && CanRun(s, ops)
    ensures Inv(r) && s.now <= r.now
    decreases |ops|
  {
    if ops == [] then s else
    ApplyOk(s, ops[0]);
    Run(Apply(s, ops[0]), ops[1..])
  }

  const BOOT := Timeline(0, Pal, FIELD_PAL, NEVER, 0, 0,
                         seq(4, _ => Timer(0, 0, 0, 0, 0, false, false, 0)), EMPTY, Link([], false, FIELD_PAL), [])

  lemma {:induction false} EmptyAccounted(slots: seq<Alarm>)
    requires forall i | 0 <= i < |slots| :: slots[i] == IDLE
    ensures LiveCount(slots) == 0
  {
    if slots != [] { EmptyAccounted(slots[..|slots| - 1]); }
  }

  lemma BootOk()
    ensures Inv(BOOT) && TimersOk(BOOT)
  {
    EmptyAccounted(EMPTY.slots);
    PeriodsNest(Pal, Pal);
    var t := Timer(0, 0, 0, 0, 0, false, false, 0);
    JustChecked(t, 0, Hb(BOOT));
    assert BOOT.timers == [t, t, t, t];
  }

  // ---- Timers: nothing overdue --------------------------------------------------

  /** The op is not a COMP write that puts COMP among the counts a running CMPE timer has passed since it
      was last evaluated. */
  ghost predicate Careful(s: Timeline, op: Op)
    requires Inv(s)
  {
    match op
    case WriteTimer(i, CompW(v)) =>
      i < 4 ==>
        var t := s.timers[i];
        !(Cue(t.mode) && Cmpe(t.mode) && Passed(t, SeenTicks(t, Hb(s)), RawTicks(t, s.now, Hb(s)), v % 0x10000))
    case _ => true
  }

  /** Nothing is overdue after the op exactly if it is careful. */
  ghost predicate TimersFollow(s: Timeline, op: Op)
    requires Inv(s) && CanApply(s, op)
  {
    var r := Apply(s, op);
    AllInRange(r.timers, r.now) && (TimersOk(r) <==> Careful(s, op))
  }

  /** Among the entry points such a COMP write, and only that, leaves an armed event overdue. */
  lemma ApplyTimersOk(s: Timeline, op: Op)
    requires Inv(s) && CanApply(s, op) && TimersOk(s)
    ensures TimersFollow(s, op)
  {
    hide Inv, CanApply, TimersOk, TimersFollow;
    if op.Tick? { TickFollows(s, op.cycles); }
    else if op.SetMode? { ModeTimersOk(s, op.m); }
    else if op.WriteTimer? { WriteTimersOk(s, op.i, op.w); }
    else if op.ReadTimer? { ReadTimersOk(s, op.i); }
    else { OtherTimersOk(s, op); }
  }

  lemma TickFollows(s: Timeline, n: nat)
    requires Inv(s) && CanApply(s, Tick(n)) && TimersOk(s)
    ensures TimersFollow(s, Tick(n))
  {
    hide RunTo, TimersOk;
    TickTimersOk(s, s.now + n);
  }

  lemma ReadTimersOk(s: Timeline, i: nat)
    requires Inv(s) && CanApply(s, ReadTimer(i)) && TimersOk(s)
    ensures TimersFollow(s, ReadTimer(i))
  {
    ApplyOk(s, ReadTimer(i));
    AdvancedCaughtUp(s.timers[i], s.now, Hb(s));
    OneTimer(s, Apply(s, ReadTimer(i)), i);
  }

  lemma OtherTimersOk(s: Timeline, op: Op)
    requires Inv(s) && CanApply(s, op) && TimersOk(s)
    requires !op.Tick? && !op.SetMode? && !op.WriteTimer? && !op.ReadTimer?
    ensures TimersFollow(s, op)
  {
    hide Arm, Cancel, Fire, TimersOk;
    SameTimers(s, Apply(s, op));
  }

  lemma {:induction false} TickTimersOk(s: Timeline, target: nat)
    requires Inv(s) && s.now <= target <= HORIZON && TimersOk(s)
    ensures AllInRange(RunTo(s, target).timers, target) && TimersOk(RunTo(s, target))
    decreases Ahead(s, target), AtNext(s)
  {
    hide NextDeadline, RunTo, Process, AtNext, TimersOk;
    RunToStep(s, target);
    if NextDeadline(s) <= target {
      TickTimersOk(Process(s, NextDeadline(s)), target);
    } else {
      WaitTimersOk(s, target);
    }
  }

  lemma ModeTimersOk(s: Timeline, m: Mode)
    requires Inv(s) && TimersOk(s)
    ensures TimersFollow(s, SetMode(m))
  {
    SetModeOk(s, m);
    forall i | 0 <= i < 4 ensures CaughtUp(ChangeMode(s, m).timers[i], s.now, Hb(ChangeMode(s, m))) {
      if m != s.mode { ModeHookCaughtUp(s.timers[i], s.now, Hb(s), CyclesPerHblank(m)); }
    }
  }

  lemma WriteTimersOk(s: Timeline, i: nat, w: RegWrite)
    requires Inv(s) && CanApply(s, WriteTimer(i, w)) && TimersOk(s)
    ensures TimersFollow(s, WriteTimer(i, w))
  {
    TimerOpOk(s, WriteTimer(i, w));
    var r := Apply(s, WriteTimer(i, w));
    if w.CompW? {
      CompWriteCaughtUpIff(s.timers[i], w.v, s.now, Hb(s));
    } else {
      WriteKeepsCaughtUp(s.timers[i], w, s.now, Hb(s));
    }
    hide CaughtUp, WriteReg, Passed;
    assert TimersOk(r) ==> CaughtUp(r.timers[i], r.now, Hb(r));
    if CaughtUp(r.timers[i], r.now, Hb(r)) { OneTimer(s, r, i); }
  }

  lemma OneTimer(s: Timeline, r: Timeline, i: nat)
    requires AllInRange(s.timers, s.now) && TimersOk(s) && r.now == s.now && r.mode == s.mode
    requires i < |s.timers| == |r.timers| && r.timers == s.timers[i := r.timers[i]] && AllInRange(r.timers, r.now)
    requires CaughtUp(r.timers[i], r.now, Hb(r))
    ensures TimersOk(r)
  {}

  lemma SameTimers(s: Timeline, r: Timeline)
    requires AllInRange(s.timers, s.now) && TimersOk(s) && r.now == s.now && r.mode == s.mode && r.timers == s.timers
    ensures TimersOk(r)
  {}

  ghost predicate AllCareful(s: Timeline, ops: seq<Op>)
    requires Inv(s) && CanRun(s, ops)
    decreases |ops|
  {
    ops == [] || (Careful(s, ops[0]) && (ApplyOk(s, ops[0]); AllCareful(Apply(s, ops[0]), ops[1..])))
  }

  /** Over every run without such a COMP write, no timer is ever overdue. */
  lemma {:induction false} RunTimersOk(s: Timeline, ops: seq<Op>)
    requires Inv(s) && CanRun(s, ops) && TimersOk(s) && AllCareful(s, ops)
    ensures TimersOk(Run(s, ops))
    decreases |ops|
  {
    hide Apply, Inv, CanApply, Careful, TimersOk;
    if ops != [] {
      ApplyOk(s, ops[0]);
      ApplyTimersOk(s, ops[0]);
      RunTimersOk(Apply(s, ops[0]), ops[1..]);
    }
  }

  // ---- Vertical blanks ---------------------------------------------------------

  datatype Maybe = None | Some(e: Event)

  /** The latest vblank event of a history. */
  function VbTail(tr: seq<Event>): Maybe {
    if tr == [] then None
    else
      var e := tr[|tr| - 1];
      if e.VbOn? || e.VbOff? then Some(e) else VbTail(tr[..|tr| - 1])
  }

  function Fields(tr: seq<Event>): nat {
    if tr == [] then 0
    else Fields(tr[..|tr| - 1]) + (if tr[|tr| - 1].VbOn? then 1 else 0)
  }

  /** `e` may follow a history whose latest vblank event is `last`: starts and ends alternate, and
      an end comes exactly one vblank, of the mode at its start, after that start. */
  predicate VbFollows(last: Maybe, e: Event) {
    match e
    case VbOn(at, m) => !(last.Some? && last.e.VbOn?) && (last.Some? && last.e.VbOff? ==> last.e.at < at)
    case VbOff(at) => last.Some? && last.e.VbOn? && at == last.e.at + CyclesVblank(last.e.mode)
    case _ => true
  }

  predicate VbAlternate(tr: seq<Event>) {
    tr != [] ==>
      var n := |tr| - 1;
      VbAlternate(tr[..n]) && VbFollows(VbTail(tr[..n]), tr[n])
  }

  /** How the live vblank registers relate to the history. */
  predicate VbLink(s: Timeline) {
    && VbAlternate(s.trace)
    && s.vblanks == Fields(s.trace) && s.field == s.vblanks % 2
    && match VbTail(s.trace)
       case None => s.vblankEnd == NEVER
       case Some(VbOn(at, m)) => s.vblankEnd == at + CyclesVblank(m) && s.vblankEnd != NEVER
       case Some(e) => s.vblankEnd == NEVER && e.VbOff? && e.at <= s.now
  }

  lemma VbSnoc(tr: seq<Event>, e: Event)
    ensures VbTail(tr + [e]) == if e.VbOn? || e.VbOff? then Some(e) else VbTail(tr)
    ensures Fields(tr + [e]) == Fields(tr) + if e.VbOn? then 1 else 0
    ensures VbAlternate(tr + [e]) <==> VbAlternate(tr) && VbFollows(VbTail(tr), e)
  {
    assert (tr + [e])[..|tr|] == tr;
  }

  lemma {:induction false} VbQuiet(tr: seq<Event>, es: seq<Event>)
    requires forall i | 0 <= i < |es| :: !es[i].VbOn? && !es[i].VbOff?
    ensures VbTail(tr + es) == VbTail(tr) && Fields(tr + es) == Fields(tr)
    ensures VbAlternate(tr + es) <==> VbAlternate(tr)
  {
    if es == [] {
      assert tr + es == tr;
    } else {
      var n := |es| - 1;
      VbQuiet(tr, es[..n]);
      VbSnoc(tr + es[..n], es[n]);
      assert tr + es == (tr + es[..n]) + [es[n]];
    }
  }

  lemma VblankPartLink(s: Timeline, c: nat)
    requires VbLink(s) && EdgesOk(s) && s.now <= c <= HORIZON && c <= s.nextEdge && c <= s.vblankEnd
    ensures VbLink(VblankPart(At(s, c)))
  {
    PeriodsNest(s.mode, s.mode);
    var a := At(s, c);
    if c >= a.nextEdge {
      VbSnoc(s.trace, VbOn(c, s.mode));
    } else if c >= a.vblankEnd {
      VbSnoc(s.trace, VbOff(c));
    }
  }

  /** After the edges, a pass adds no vblank event to the history. */
  lemma RestIsQuiet(v: Timeline)
    requires AllInRange(v.timers, v.now) && VbLink(v)
    ensures VbLink(AlarmPart(SifPart(TimerPart(v))))
  {
    hide VbAlternate, VbTail, Fields;
    var t := TimerPart(v);
    VbLinkFrame(v, t, LineEvents(RaisedLines(v.timers, v.now, Hb(v)), v.now));
    var q := SifPart(t);
    VbLinkFrame(t, q, OutEvents(RunDue(t.sif, t.now, CyclesPerField(t.mode)).out, t.now));
    VbLinkFrame(q, AlarmPart(q), DueEvents(DueSlots(q.alarms.slots, q.now), q.now));
  }

  lemma ProcessVbLink(s: Timeline, c: nat)
    requires Inv(s) && VbLink(s) && c == NextDeadline(s) && c <= HORIZON && AllInRange(s.timers, c)
    ensures VbLink(Process(s, c))
  {
    hide VbLink, NextDeadline;
    NextIsLeast(s);
    VblankPartLink(s, c);
    hide Inv;
    RestIsQuiet(VblankPart(At(s, c)));
  }

  lemma {:induction false} RunToVbLink(s: Timeline, target: nat)
    requires Inv(s) && VbLink(s) && s.now <= target <= HORIZON
    ensures VbLink(RunTo(s, target))
    decreases Ahead(s, target), AtNext(s)
  {
    hide NextDeadline, RunTo, Process, AtNext, VbAlternate, VbTail, Fields;
    RunToStep(s, target);
    if NextDeadline(s) <= target {
      ProcessVbLink(s, NextDeadline(s));
      RunToVbLink(Process(s, NextDeadline(s)), target);
    }
  }

  /** No entry point but Tick adds a vblank event to the history. */
  lemma OnlyTickStartsFields(s: Timeline, op: Op) returns (es: seq<Event>)
    requires Inv(s) && CanApply(s, op) && !op.Tick?
    ensures Apply(s, op).trace == s.trace + es
    ensures forall i | 0 <= i < |es| :: !es[i].VbOn? && !es[i].VbOff?
    ensures Apply(s, op).vblankEnd == s.vblankEnd && Apply(s, op).now == s.now
    ensures Apply(s, op).vblanks == s.vblanks && Apply(s, op).field == s.field
  {
    es := Apply(s, op).trace[|s.trace|..];
  }

  lemma ApplyVbLink(s: Timeline, op: Op)
    requires Inv(s) && CanApply(s, op) && VbLink(s)
    ensures VbLink(Apply(s, op))
  {
    if op.Tick? {
      TickVbLink(s, op.cycles);
    } else {
      hide Apply;
      var es := OnlyTickStartsFields(s, op);
      VbLinkFrame(s, Apply(s, op), es);
    }
  }

  lemma TickVbLink(s: Timeline, n: nat)
    requires Inv(s) && CanApply(s, Tick(n)) && VbLink(s)
    ensures VbLink(Apply(s, Tick(n)))
  {
    hide RunTo;
    RunToVbLink(s, s.now + n);
  }

  lemma VbLinkFrame(s: Timeline, r: Timeline, es: seq<Event>)
    requires VbLink(s) && r.trace == s.trace + es
    requires forall i | 0 <= i < |es| :: !es[i].VbOn? && !es[i].VbOff?
    requires r.vblankEnd == s.vblankEnd && r.now == s.now && r.vblanks == s.vblanks && r.field == s.field
    ensures VbLink(r)
  {
    VbQuiet(s.trace, es);
  }

  /** VB_ON and VB_OFF strictly alternate under any interleaving, each VB_OFF exactly one vblank
      of the mode at its VB_ON after it; the field is the parity of the fields started; and a
      pending vblank end always lies before the next field edge. */
  lemma {:induction false} VblanksAlternate(s: Timeline, ops: seq<Op>)
    requires Inv(s) && CanRun(s, ops) && VbLink(s)
    ensures VbLink(Run(s, ops))
    ensures VbAlternate(Run(s, ops).trace) && Run(s, ops).field == Fields(Run(s, ops).trace) % 2
    ensures Run(s, ops).vblankEnd != NEVER ==> Run(s, ops).now < Run(s, ops).vblankEnd < Run(s, ops).nextEdge
    decreases |ops|
  {
    if ops != [] {
      ApplyOk(s, ops[0]);
      ApplyVbLink(s, ops[0]);
      VblanksAlternate(Apply(s, ops[0]), ops[1..]);
    }
  }

  /** From boot, then, over every run. */
  lemma VblanksFromBoot(ops: seq<Op>)
    requires Inv(BOOT) && CanRun(BOOT, ops)
    ensures VbAlternate(Run(BOOT, ops).trace) && Run(BOOT, ops).field == Fields(Run(BOOT, ops).trace) % 2
    ensures Run(BOOT, ops).vblankEnd != NEVER ==>
              Run(BOOT, ops).now < Run(BOOT, ops).vblankEnd < Run(BOOT, ops).nextEdge
  {
    hide Run;
    VblanksAlternate(BOOT, ops);
  }
}
