/** The virtual clock: one timeline merged from vblank edges, timer events, kernel alarms and SIF
    deadlines, walked event by event whenever time is billed. */
module Clock {
  import opened VideoMode
  import opened Timers
  import opened Alarms
  import opened Sif

  /** Virtual time stays far enough below the source's NEVER for no deadline to collide with it. */
  const HORIZON: nat := NEVER - 2 * FIELD_PAL

  /** What the timeline does, in order. A history variable: the source keeps only status bits. */
  datatype Event =
    | VbOn(at: nat, mode: Mode)
    | VbOff(at: nat)
    | TimerLine(timer: nat, at: nat)
    | AlarmArmed(slot: nat, at: nat, ticks: nat, mode: Mode)
    | AlarmDue(slot: nat, at: nat)
    | AlarmFired(slot: nat, at: nat)
    | AlarmReleased(slot: nat, at: nat)
    | SifOut(kind: Kind, tag: nat, at: nat)

  datatype Timeline = Timeline(
    now: nat,
    mode: Mode,
    nextEdge: nat,
    vblankEnd: nat,
    field: nat,
    vblanks: nat,
    timers: seq<Timer>,
    alarms: Table,
    sif: Link,
    trace: seq<Event>)

  function Hb(s: Timeline): (hb: nat)
    ensures hb > 0
  {
    CyclesPerHblank(s.mode)
  }

  // ---- The tick loop ---------------------------------------------------------

  predicate Shape(s: Timeline) {
    && s.now <= HORIZON
    && |s.timers| == 4 && AllInRange(s.timers, s.now)
    && |s.alarms.slots| == SLOTS
  }

  function NextDeadline(s: Timeline): nat
    requires Shape(s)
  {
    Min(Min(Min(Min(s.nextEdge, s.vblankEnd), NextEvent(s.timers, s.now, Hb(s))), SifNext(s.sif)),
        NextDue(s.alarms.slots))
  }

  function StartField(s: Timeline): Timeline {
    s.(vblanks := s.vblanks + 1, field := 1 - s.field % 2,
       vblankEnd := s.nextEdge + CyclesVblank(s.mode),
       nextEdge := s.nextEdge + CyclesPerField(s.mode),
       trace := s.trace + [VbOn(s.now, s.mode)])
  }

  function EndVblank(s: Timeline): Timeline {
    s.(vblankEnd := NEVER, trace := s.trace + [VbOff(s.now)])
  }

  function LineEvents(lines: seq<nat>, at: nat): seq<Event> {
    seq(|lines|, i requires 0 <= i < |lines| => TimerLine(lines[i], at))
  }

  function DueEvents(slots: seq<nat>, at: nat): seq<Event> {
    seq(|slots|, i requires 0 <= i < |slots| => AlarmDue(slots[i], at))
  }

  function VblankPart(s: Timeline): Timeline {
    var e := if s.now >= s.nextEdge then StartField(s) else s;
    if e.now >= e.vblankEnd then EndVblank(e) else e
  }

  function TimerPart(s: Timeline): Timeline
    requires AllInRange(s.timers, s.now)
  {
    s.(timers := AdvanceAll(s.timers, s.now, Hb(s)),
       trace := s.trace + LineEvents(RaisedLines(s.timers, s.now, Hb(s)), s.now))
  }

  function OutEvents(out: seq<Delivery>, at: nat): seq<Event> {
    seq(|out|, i requires 0 <= i < |out| => SifOut(out[i].kind, out[i].tag, at))
  }

  function SifPart(s: Timeline): Timeline {
    var r := RunDue(s.sif, s.now, CyclesPerField(s.mode));
    s.(sif := r.link, trace := s.trace + OutEvents(r.out, s.now))
  }

  function AlarmPart(s: Timeline): Timeline {
    s.(alarms := s.alarms.(slots := MarkDue(s.alarms.slots, s.now)),
       trace := s.trace + DueEvents(DueSlots(s.alarms.slots, s.now), s.now))
  }

  function At(s: Timeline, c: nat): Timeline { s.(now := c) }

  /** One pass of the tick loop: everything due at cycle `c` happens, in the source's order. */
  function Process(s: Timeline, c: nat): Timeline
    requires AllInRange(s.timers, c)
  {
    AlarmPart(SifPart(TimerPart(VblankPart(At(s, c)))))
  }

  // ---- Invariant ---------------------------------------------------------------

  ghost predicate EdgesOk(s: Timeline) {
    && s.now < s.nextEdge <= s.now + FIELD_PAL
    && (s.vblankEnd != NEVER ==> s.now < s.vblankEnd < s.nextEdge && s.vblankEnd <= s.now + VBLANK_PAL)
  }

  ghost predicate QueuesOk(s: Timeline) {
    && NoneOverdue(s.sif, s.now)
    && (forall i | 0 <= i < |s.alarms.slots| && s.alarms.slots[i].armed :: s.now <= s.alarms.slots[i].due)
  }

  /** No timer has an armed event behind it. Every pass of the loop establishes this, and only a
      COMP write can break it (Timers.CompWriteCaughtUpIff). */
  ghost predicate TimersOk(s: Timeline)
    requires AllInRange(s.timers, s.now)
  {
    forall i | 0 <= i < |s.timers| :: CaughtUp(s.timers[i], s.now, Hb(s))
  }

  ghost predicate Inv(s: Timeline) {
    Shape(s) && EdgesOk(s) && QueuesOk(s) && Accounted(s.alarms)
  }

  /** Every source's next deadline is in the future. */
  ghost predicate Settled(s: Timeline)
    requires Shape(s)
  {
    s.now < NextDeadline(s)
  }

  lemma VblankPartOk(s: Timeline, c: nat)
    requires EdgesOk(s) && s.now <= c <= HORIZON && c <= s.nextEdge && c <= s.vblankEnd
    ensures EdgesOk(VblankPart(At(s, c)))
  {
    PeriodsNest(s.mode, s.mode);
    var e := if c >= s.nextEdge then StartField(At(s, c)) else At(s, c);
    assert c >= s.nextEdge ==> e.vblankEnd == c + CyclesVblank(s.mode) && e.nextEdge == c + CyclesPerField(s.mode);
  }

  lemma NextIsLeast(s: Timeline)
    requires Inv(s)
    ensures s.now <= NextDeadline(s) <= s.nextEdge && NextDeadline(s) <= s.vblankEnd
    ensures forall i | 0 <= i < 4 :: NextDeadline(s) <= TimerNext(s.timers[i], s.now, Hb(s))
    ensures forall i | 0 <= i < SLOTS && s.alarms.slots[i].armed :: NextDeadline(s) <= s.alarms.slots[i].due
    ensures NoneOverdue(s.sif, NextDeadline(s))
  {
    PeriodsNest(s.mode, s.mode);
    NextEventExact(s.timers, s.now, Hb(s));
    forall i | 0 <= i < 4 ensures NextDeadline(s) <= TimerNext(s.timers[i], s.now, Hb(s)) {
      NextEventIsLeast(s.timers, s.now, Hb(s), i);
    }
    assert s.now <= NextDue(s.alarms.slots);
    SifNextIsLeast(s.sif, s.now);
  }

  /** The next event is some source's own deadline. */
  lemma NextIsOne(s: Timeline)
    requires Inv(s)
    ensures var c := NextDeadline(s);
            || c == s.nextEdge || c == s.vblankEnd || c == s.sif.pad
            || (exists i :: 0 <= i < 4 && c == TimerNext(s.timers[i], s.now, Hb(s)))
            || (exists d :: d in s.sif.queue && c == d.due)
            || (exists i :: 0 <= i < SLOTS && s.alarms.slots[i].armed && c == s.alarms.slots[i].due)
  {
    PeriodsNest(s.mode, s.mode);
    NextIsLeast(s);
    var c := NextDeadline(s);
    if c == NextEvent(s.timers, s.now, Hb(s)) {
      var i := NextEventIsOne(s.timers, s.now, Hb(s));
    } else if s.sif.queue != [] && c == QueueNext(s.sif.queue) {
      assert s.sif.queue[Earliest(s.sif.queue)] in s.sif.queue;
    }
  }

  lemma InRangeLater(s: Timeline, c: nat)
    requires AllInRange(s.timers, s.now) && s.now <= c
    ensures AllInRange(s.timers, c)
  {}

  lemma TimerPartOk(v: Timeline)
    requires |v.timers| == 4 && AllInRange(v.timers, v.now)
    ensures |TimerPart(v).timers| == 4 && AllInRange(TimerPart(v).timers, v.now)
    ensures TimersOk(TimerPart(v))
  {
    PeriodsNest(v.mode, v.mode);
    forall i | 0 <= i < 4 ensures CaughtUp(TimerPart(v).timers[i], v.now, Hb(v)) {
      AdvancedCaughtUp(v.timers[i], v.now, Hb(v));
    }
  }

  /** Deliveries due at the next event. */
  function AtNext(s: Timeline): nat
    requires Shape(s)
  {
    DueBy(s.sif.queue, NextDeadline(s))
  }

  /** The loop gets on: to a later event, or to the same cycle with fewer deliveries left for it, because
      a packet has gone out or been put off. */
  ghost predicate Closer(s: Timeline, r: Timeline)
    requires Shape(s) && Shape(r)
  {
    NextDeadline(s) < NextDeadline(r) || (NextDeadline(s) == NextDeadline(r) && AtNext(r) < AtNext(s))
  }

  /** What is left of a pass once the vblank edges and the timers are done. */
  lemma TailOk(v: Timeline)
    requires Shape(v) && EdgesOk(v) && Accounted(v.alarms) && NoneOverdue(v.sif, v.now)
    ensures var r := AlarmPart(SifPart(v));
            && Inv(r) && v.now <= NextDeadline(r)
            && (NextDeadline(r) == v.now ==> DueBy(r.sif.queue, v.now) < DueBy(v.sif.queue, v.now))
  {
    hide RunQueue, DueBy, Accounted;
    MarkDueAccounted(v.alarms, v.now);
    RunQueueOk(v.sif, v.now);
    var r := AlarmPart(SifPart(v));
    NextIsLeast(r);
    if QueueNext(v.sif.queue) > v.now {
      QueueStays(v.sif, v.now);
      NothingDue(r);
    } else {
      PeriodsNest(v.mode, v.mode);
    }
  }

  /** The loop body moves time to the event, keeps the invariant and gets on. */
  lemma ProcessOk(s: Timeline, c: nat)
    requires Inv(s) && c == NextDeadline(s) && c <= HORIZON
    ensures AllInRange(s.timers, c)
    ensures Inv(Process(s, c)) && Process(s, c).now == c && Closer(s, Process(s, c))
    ensures TimersOk(Process(s, c))
  {
    hide NextDeadline, DueBy, RunDue;
    NextIsLeast(s);
    InRangeLater(s, c);
    VblankPartOk(s, c);
    TimerPartOk(VblankPart(At(s, c)));
    TailOk(TimerPart(VblankPart(At(s, c))));
  }

  lemma NothingDue(s: Timeline)
    requires Shape(s) && EdgesOk(s)
    requires s.now < QueueNext(s.sif.queue) && s.now < s.sif.pad
    requires forall i | 0 <= i < |s.alarms.slots| && s.alarms.slots[i].armed :: s.now < s.alarms.slots[i].due
    ensures Settled(s)
  {
    PeriodsNest(s.mode, s.mode);
    NextEventExact(s.timers, s.now, Hb(s));
  }

  lemma WaitOk(s: Timeline, c: nat)
    requires Inv(s) && s.now <= c <= HORIZON && c < NextDeadline(s)
    ensures Inv(At(s, c)) && NextDeadline(At(s, c)) == NextDeadline(s)
  {
    NextIsLeast(s);
    InRangeLater(s, c);
    PeriodsNest(s.mode, s.mode);
    NextEventStable(s.timers, s.now, c, Hb(s));
  }

  function Ahead(s: Timeline, target: nat): nat
    requires Shape(s)
  {
    if NextDeadline(s) <= target then target - NextDeadline(s) + 1 else 0
  }

  /** Billing up to the absolute cycle `target`. */
  function RunTo(s: Timeline, target: nat): (r: Timeline)
    requires Inv(s) && s.now <= target <= HORIZON
    ensures Inv(r) && r.now == target && Settled(r)
    decreases Ahead(s, target), AtNext(s)
  {
    var c := NextDeadline(s);
    if c > target then
      WaitOk(s, target);
      At(s, target)
    else
      ProcessOk(s, c);
      RunTo(Process(s, c), target)
  }

  lemma WaitTimersOk(s: Timeline, c: nat)
    requires Inv(s) && TimersOk(s) && s.now <= c <= HORIZON && c < NextDeadline(s)
    ensures AllInRange(s.timers, c) && TimersOk(At(s, c))
  {
    NextIsLeast(s);
    InRangeLater(s, c);
    PeriodsNest(s.mode, s.mode);
    forall i | 0 <= i < 4 ensures CaughtUp(s.timers[i], c, Hb(s)) {
      CaughtUpUntilNext(s.timers[i], s.now, c, Hb(s));
    }
  }

  /** One step of RunTo, for proofs that follow the loop. */
  lemma RunToStep(s: Timeline, target: nat)
    requires Inv(s) && s.now <= target <= HORIZON
    ensures var c := NextDeadline(s);
            if c > target then RunTo(s, target) == At(s, target)
            else AllInRange(s.timers, c) && Inv(Process(s, c)) && Process(s, c).now == c
                 && Closer(s, Process(s, c)) && TimersOk(Process(s, c))
                 && RunTo(s, target) == RunTo(Process(s, c), target)
  {
    if NextDeadline(s) <= target { ProcessOk(s, NextDeadline(s)); }
  }

  /** Virtual time does not depend on how it is billed: stopping at `mid` on the way to `target`
      changes no part of the state reached, the trace included. */
  lemma {:induction false} BillingIndependent(s: Timeline, mid: nat, target: nat)
    requires Inv(s) && s.now <= mid <= target <= HORIZON
    ensures RunTo(RunTo(s, mid), target) == RunTo(s, target)
    decreases Ahead(s, mid), AtNext(s)
  {
    hide NextDeadline, Process, RunTo, AtNext;
    var c := NextDeadline(s);
    RunToStep(s, mid);
    RunToStep(s, target);
    if c > mid {
      WaitOk(s, mid);
      RunToStep(At(s, mid), target);
      WaitThenPass(s, mid, c);
    } else {
      BillingIndependent(Process(s, c), mid, target);
    }
  }

  lemma WaitThenPass(s: Timeline, mid: nat, c: nat)
    requires AllInRange(s.timers, c)
    ensures AllInRange(At(s, mid).timers, c) && Process(At(s, mid), c) == Process(s, c)
  {}
}
