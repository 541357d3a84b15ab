/** When the timeline raises a timer's line. */
module ClockLines {
  import opened VideoMode
  import opened Timers
  import opened Alarms
  import opened Sif
  import opened Clock
  import opened ClockRuns

  /** Cycles at which timer `i` raised its line, in order. */
  function Lines(tr: seq<Event>, i: nat): seq<nat> {
    if tr == [] then []
    else
      var e := tr[|tr| - 1];
      Lines(tr[..|tr| - 1], i) + (if e.TimerLine? && e.timer == i then [e.at] else [])
  }

  lemma {:induction false} LinesConcat(a: seq<Event>, b: seq<Event>, i: nat)
    ensures Lines(a + b, i) == Lines(a, i) + Lines(b, i)
  {
    if b == [] {
      assert a + b == a;
      assert Lines(a, i) + [] == Lines(a, i);
    } else {
      var n := |b| - 1;
      LinesConcat(a, b[..n], i);
      LinesLast(a + b, i);
      LinesLast(b, i);
      assert (a + b)[..|a| + n] == a + b[..n];
      hide Lines;
    }
  }

  lemma LinesLast(tr: seq<Event>, i: nat)
    requires tr != []
    ensures var e := tr[|tr| - 1];
            Lines(tr, i) == Lines(tr[..|tr| - 1], i) + (if e.TimerLine? && e.timer == i then [e.at] else [])
  {}

  lemma {:induction false} LinesOfRaised(ts: seq<Timer>, c: nat, hb: nat, i: nat)
    requires hb > 0 && AllInRange(ts, c)
    ensures Lines(LineEvents(RaisedLines(ts, c, hb), c), i) ==
            if i < |ts| && Advance(ts[i], c, hb).raised then [c] else []
  {
    hide Lines, Advance;
    if ts == [] {
      assert LineEvents(RaisedLines(ts, c, hb), c) == [];
      LinesNone(i);
    } else {
      var n := |ts| - 1;
      LinesOfRaised(ts[..n], c, hb, i);
      var r := RaisedLines(ts[..n], c, hb);
      if Advance(ts[n], c, hb).raised {
        assert LineEvents(r + [n], c) == LineEvents(r, c) + [TimerLine(n, c)];
        LinesConcat(LineEvents(r, c), [TimerLine(n, c)], i);
        LinesOne(TimerLine(n, c), i);
      } else {
        assert r + [] == r;
      }
    }
  }

  lemma LinesNone(i: nat)
    ensures Lines([], i) == []
  {}

  lemma LinesOne(e: Event, i: nat)
    ensures Lines([e], i) == if e.TimerLine? && e.timer == i then [e.at] else []
  {
    assert [e][..0] == [];
  }

  lemma {:induction false} LinesQuiet(es: seq<Event>, i: nat)
    requires forall j | 0 <= j < |es| :: !es[j].TimerLine?
    ensures Lines(es, i) == []
  {
    if es != [] { LinesQuiet(es[..|es| - 1], i); }
  }

  lemma LinesOfVblank(s: Timeline, i: nat)
    ensures Lines(VblankPart(s).trace, i) == Lines(s.trace, i)
  {
    var vs := VblankPart(s).trace[|s.trace|..];
    assert VblankPart(s).trace == s.trace + vs;
    LinesConcat(s.trace, vs, i);
    LinesQuiet(vs, i);
  }

  lemma LinesOfTimers(s: Timeline, i: nat)
    requires |s.timers| == 4 && AllInRange(s.timers, s.now) && i < 4
    ensures Lines(TimerPart(s).trace, i) ==
            Lines(s.trace, i) + if Advance(s.timers[i], s.now, Hb(s)).raised then [s.now] else []
  {
    LinesConcat(s.trace, LineEvents(RaisedLines(s.timers, s.now, Hb(s)), s.now), i);
    LinesOfRaised(s.timers, s.now, Hb(s), i);
  }

  lemma LinesOfRest(s: Timeline, i: nat)
    ensures Lines(AlarmPart(SifPart(s)).trace, i) == Lines(s.trace, i)
  {
    var out := OutEvents(RunDue(s.sif, s.now, CyclesPerField(s.mode)).out, s.now);
    LinesConcat(s.trace, out, i);
    LinesQuiet(out, i);
    LinesOfAlarms(SifPart(s), i);
  }

  lemma LinesOfAlarms(s: Timeline, i: nat)
    ensures Lines(AlarmPart(s).trace, i) == Lines(s.trace, i)
  {
    var ds := DueEvents(DueSlots(s.alarms.slots, s.now), s.now);
    LinesConcat(s.trace, ds, i);
    LinesQuiet(ds, i);
  }

  /** In one pass at cycle c, timer i's line is raised exactly when its evaluation says so. */
  lemma LinesOfPass(s: Timeline, c: nat, i: nat)
    requires |s.timers| == 4 && AllInRange(s.timers, c) && i < 4
    ensures Lines(Process(s, c).trace, i) ==
            Lines(s.trace, i) + if Advance(s.timers[i], c, Hb(s)).raised then [c] else []
    ensures Process(s, c).timers[i] == Advance(s.timers[i], c, Hb(s)).timer && Hb(Process(s, c)) == Hb(s)
  {
    hide Lines;
    var v := VblankPart(At(s, c));
    LinesOfVblank(At(s, c), i);
    LinesOfTimers(v, i);
    LinesOfRest(TimerPart(v), i);
  }

  /** A pass raises timer i's line if and only if an armed compare or wrap of timer i falls on
      this very cycle. */
  lemma PassIsExact(s: Timeline, c: nat, i: nat)
    requires Inv(s) && i < 4 && CaughtUp(s.timers[i], s.now, Hb(s)) && c == NextDeadline(s) && c <= HORIZON
    ensures AllInRange(s.timers, c)
    ensures Lines(Process(s, c).trace, i) ==
            Lines(s.trace, i) + if s.now < c && FiresAt(s.timers[i], Hb(s), c) then [c] else []
  {
    NextIsLeast(s);
    InRangeLater(s, c);
    RaisedAtDeadline(s.timers[i], s.now, c, Hb(s));
    hide Process, Lines, FiresAt, Advance;
    LinesOfPass(s, c, i);
  }

  lemma RaisedAtDeadline(t: Timer, now: nat, c: nat, hb: nat)
    requires hb > 0 && InRange(t, now) && CaughtUp(t, now, hb)
    requires now <= c <= TimerNext(t, now, hb) && now < NEVER
    ensures Advance(t, c, hb).raised <==> now < c && FiresAt(t, hb, c)
  {
    if now < c {
      ServicedExactly(t, now, c, hb);
    } else if Cue(t.mode) {
      RaisedIff(t, c, hb);
    }
  }

  /** `cs` lists, in order, exactly the cycles in (lo, hi] at which timer `t` fires. */
  ghost predicate ExactlyTheFirings(cs: seq<nat>, t: Timer, hb: nat, lo: nat, hi: nat) {
    && (forall j, k | 0 <= j < k < |cs| :: cs[j] < cs[k])
    && (forall c: nat :: c in cs <==> lo < c <= hi && FiresAt(t, hb, c))
  }

  lemma FiringsCong(t: Timer, u: Timer, hb: nat, c: nat)
    requires SameSchedule(t, u)
    ensures FiresAt(t, hb, c) <==> FiresAt(u, hb, c)
  {
    assert forall k: nat :: EventTick(t, k) <==> EventTick(u, k);
    assert forall k: nat :: TickCycle(t, hb, k) == TickCycle(u, hb, k);
  }

  lemma FiringsStep(t: Timer, u: Timer, hb: nat, now: nat, c: nat, target: nat, rest: seq<nat>)
    requires SameSchedule(t, u) && now <= c <= target
    requires forall d :: now < d < c ==> !FiresAt(t, hb, d)
    requires ExactlyTheFirings(rest, u, hb, c, target)
    ensures ExactlyTheFirings((if now < c && FiresAt(t, hb, c) then [c] else []) + rest, t, hb, now, target)
  {
    forall d: nat ensures FiresAt(t, hb, d) <==> FiresAt(u, hb, d) { FiringsCong(t, u, hb, d); }
    hide FiresAt;
    var cs := (if now < c && FiresAt(t, hb, c) then [c] else []) + rest;
    assert forall d: nat :: d in cs <==> d in rest || (d == c && now < c && FiresAt(t, hb, c));
    assert forall j | 0 <= j < |rest| :: rest[j] in rest;
  }

  /** Timer interrupts are complete and exact: billing up to `target` raises the line of a timer
      without ZRET at every cycle its 16-bit count hits an armed COMP or wraps, in order, once
      each, and at no other cycle. */
  lemma {:induction false} LinesExact(s: Timeline, target: nat, i: nat) returns (cs: seq<nat>)
    requires Inv(s) && s.now <= target <= HORIZON
    requires i < 4 && CaughtUp(s.timers[i], s.now, Hb(s)) && !Zret(s.timers[i].mode)
    ensures Lines(RunTo(s, target).trace, i) == Lines(s.trace, i) + cs
    ensures ExactlyTheFirings(cs, s.timers[i], Hb(s), s.now, target)
    decreases Ahead(s, target), AtNext(s)
  {
    hide Lines, FiresAt, Process, NextDeadline, RunTo, AtNext;
    var c := NextDeadline(s);
    RunToStep(s, target);
    NothingBefore(s, i);
    if c > target {
      cs := [];
      assert Lines(s.trace, i) + [] == Lines(s.trace, i);
    } else {
      PassIsExact(s, c, i);
      PassKeepsSchedule(s, c, i);
      assert |Process(s, c).timers| == 4;
      var rest := LinesExact(Process(s, c), target, i);
      FiringsStep(s.timers[i], Process(s, c).timers[i], Hb(s), s.now, c, target, rest);
      var first := if s.now < c && FiresAt(s.timers[i], Hb(s), c) then [c] else [];
      cs := first + rest;
      assert (Lines(s.trace, i) + first) + rest == Lines(s.trace, i) + cs;
    }
  }

  lemma NothingBefore(s: Timeline, i: nat)
    requires Inv(s) && i < 4
    ensures s.now <= NextDeadline(s)
    ensures forall d :: s.now < d < NextDeadline(s) ==> !FiresAt(s.timers[i], Hb(s), d)
  {
    NextIsLeast(s);
    TimerNextExact(s.timers[i], s.now, Hb(s));
  }

  lemma PassKeepsSchedule(s: Timeline, c: nat, i: nat)
    requires |s.timers| == 4 && AllInRange(s.timers, c) && i < 4 && !Zret(s.timers[i].mode)
    ensures SameSchedule(s.timers[i], Process(s, c).timers[i])
    ensures Hb(Process(s, c)) == Hb(s) && !Zret(Process(s, c).timers[i].mode)
  {
    hide Process, Lines, Advance;
    LinesOfPass(s, c, i);
    AdvanceFlags(s.timers[i], c, Hb(s));
  }

  /** After any run from boot that makes no such COMP write as leaves a compare overdue, billing time raises
      the timer's line at exactly the cycles it fires. */
  lemma LinesExactFromBoot(ops: seq<Op>, target: nat, i: nat) returns (cs: seq<nat>)
    requires Inv(BOOT) && CanRun(BOOT, ops) && AllCareful(BOOT, ops)
    requires Run(BOOT, ops).now <= target <= HORIZON && i < 4 && !Zret(Run(BOOT, ops).timers[i].mode)
    ensures var s := Run(BOOT, ops);
            && Lines(RunTo(s, target).trace, i) == Lines(s.trace, i) + cs
            && ExactlyTheFirings(cs, s.timers[i], Hb(s), s.now, target)
  {
    hide Run, Lines, RunTo, AllCareful, CaughtUp;
    BootOk();
    RunTimersOk(BOOT, ops);
    cs := LinesExact(Run(BOOT, ops), target, i);
  }

  // ---- Periodic timers do not drift -----------------------------------------

  /** Timer i is a running ZRET + CMPE timer that has nothing overdue, whatever its count. */
  ghost predicate Steady(s: Timeline, i: nat) {
    && i < |s.timers| && InRange(s.timers[i], s.now) && s.now < NEVER
    && Beating(s.timers[i]) && CaughtUp(s.timers[i], s.now, Hb(s))
  }

  /** The cycle of its next event, NEVER when beyond the clock. */
  function NextOf(s: Timeline, i: nat): nat {
    if i < |s.timers| && InRange(s.timers[i], s.now) then TimerNext(s.timers[i], s.now, Hb(s)) else 0
  }

  function PeriodOf(s: Timeline, i: nat): nat {
    if i < |s.timers| then Period(s.timers[i], Hb(s)) else 0
  }

  function Beat(f: nat, p: nat, n: nat): nat { f + n * p }

  /** f, f + p, ..., f + (n - 1)p. */
  function Every(f: nat, p: nat, n: nat): seq<nat>
    decreases n
  {
    if n == 0 then [] else [f] + Every(f + p, p, n - 1)
  }

  /** From s to r, timer i raised its line n times: on its next event f, at f + P, ..., f + (n - 1)P and at no
      other cycle, and it is next due at f + nP. */
  ghost predicate Beats(s: Timeline, r: Timeline, i: nat, n: nat) {
    && Steady(s, i) && Steady(r, i) && s.now <= r.now
    && PeriodOf(r, i) == PeriodOf(s, i)
    && Lines(r.trace, i) == Lines(s.trace, i) + Every(NextOf(s, i), PeriodOf(s, i), n)
    && NextOf(r, i) == Min(NEVER, Beat(NextOf(s, i), PeriodOf(s, i), n))
    && (n > 0 ==> Beat(NextOf(s, i), PeriodOf(s, i), n - 1) <= r.now)
  }

  lemma {:induction false} EveryConcat(f: nat, p: nat, n: nat, m: nat)
    ensures Every(f, p, n) + Every(Beat(f, p, n), p, m) == Every(f, p, n + m)
    decreases n
  {
    hide Beat;
    BeatSum(f, p, 0, 1);
    if n > 0 {
      EveryConcat(f + p, p, n - 1, m);
      BeatSum(f, p, 1, n - 1);
      assert [f] + Every(f + p, p, n - 1) + Every(Beat(f, p, n), p, m)
          == [f] + (Every(f + p, p, n - 1) + Every(Beat(f, p, n), p, m));
    }
  }

  lemma BeatSum(f: nat, p: nat, n: nat, m: nat)
    ensures Beat(Beat(f, p, n), p, m) == Beat(f, p, n + m)
    ensures Beat(f, p, 0) == f && Beat(f, p, 1) == f + p && f <= Beat(f, p, n)
  {
    assert n * p + m * p == (n + m) * p;
  }

  lemma BeatsTrans(s: Timeline, q: Timeline, r: Timeline, i: nat, n: nat, m: nat)
    requires Beats(s, q, i, n) && Beats(q, r, i, m)
    ensures Beats(s, r, i, n + m)
  {
    hide Lines, Steady, PeriodOf, NextOf, Every, Beat;
    BeatsSteady(s, q, i, n);
    BeatsSteady(q, r, i, m);
    var f, p := NextOf(s, i), PeriodOf(s, i);
    BeatSum(f, p, n, m);
    if m == 0 {
      EveryNone(NextOf(q, i), p);
      BeatSum(NextOf(q, i), p, 0, 0);
    } else {
      BeatSum(NextOf(q, i), p, m - 1, 0);
      assert NextOf(q, i) == Beat(f, p, n);
      BeatSum(f, p, n, m - 1);
      EveryConcat(f, p, n, m);
      assert Lines(s.trace, i) + Every(f, p, n) + Every(Beat(f, p, n), p, m)
          == Lines(s.trace, i) + (Every(f, p, n) + Every(Beat(f, p, n), p, m));
    }
  }

  lemma EveryNone(f: nat, p: nat)
    ensures Every(f, p, 0) == []
  {}

  lemma EveryOne(f: nat, p: nat)
    ensures Every(f, p, 1) == [f]
  {}

  /** Nothing happened to the timer. */
  lemma BeatsRest(s: Timeline, r: Timeline, i: nat)
    requires Steady(s, i) && Steady(r, i) && s.now <= r.now < NextOf(s, i)
    requires SameSchedule(s.timers[i], r.timers[i]) && Lines(r.trace, i) == Lines(s.trace, i)
    requires Hblank(s.timers[i].mode) ==> r.mode == s.mode
    ensures Beats(s, r, i, 0)
  {
    hide Lines, Beating, CaughtUp;
    NextStays(s.timers[i], s.now, r.now, Hb(s));
    NextSame(s.timers[i], r.timers[i], r.now, Hb(s), Hb(r));
    EveryNone(NextOf(s, i), PeriodOf(s, i));
    assert Lines(s.trace, i) + [] == Lines(s.trace, i);
    TimerNextExact(s.timers[i], s.now, Hb(s));
  }

  lemma NextSame(t: Timer, u: Timer, now: nat, hb: nat, hb': nat)
    requires hb > 0 && hb' > 0 && InRange(t, now) && InRange(u, now) && SameSchedule(t, u)
    requires Hblank(t.mode) ==> hb' == hb
    ensures TimerNext(u, now, hb') == TimerNext(t, now, hb) && Period(u, hb') == Period(t, hb)
  {
    assert Prescale(u.mode, hb') == Prescale(t.mode, hb);
    assert RawTicks(u, now, hb') == RawTicks(t, now, hb);
    assert forall k: nat :: TickCycle(t, hb, k) == TickCycle(u, hb', k);
  }

  lemma DeadlineBeforeBeat(s: Timeline, i: nat)
    requires Inv(s) && Steady(s, i)
    ensures s.now <= NextDeadline(s) <= NextOf(s, i)
  {
    NextIsLeast(s);
  }

  lemma PassBeats(s: Timeline, c: nat, i: nat) returns (n: nat)
    requires Inv(s) && Steady(s, i) && c == NextDeadline(s) && c <= HORIZON
    ensures AllInRange(s.timers, c) && Beats(s, Process(s, c), i, n)
  {
    hide Lines, NextDeadline, Advance, TimerNext, Every;
    DeadlineBeforeBeat(s, i);
    ProcessOk(s, c);
    LinesOfPass(s, c, i);
    var t, r := s.timers[i], Process(s, c);
    assert |r.timers| == 4 && CaughtUp(r.timers[i], c, Hb(r));
    hide Process, CaughtUp, Inv;
    if c < NextOf(s, i) {
      n := 0;
      BeforeTheBeat(t, s.now, c, Hb(s));
      assert Lines(s.trace, i) + [] == Lines(s.trace, i);
      BeatsRest(s, r, i);
    } else {
      n := 1;
      OnTheBeat(t, s.now, c, Hb(s));
      EveryOne(NextOf(s, i), PeriodOf(s, i));
    }
  }

  lemma {:induction false} TickBeats(s: Timeline, target: nat, i: nat) returns (n: nat)
    requires Inv(s) && Steady(s, i) && s.now <= target <= HORIZON
    ensures Beats(s, RunTo(s, target), i, n)
    decreases Ahead(s, target), AtNext(s)
  {
    hide Lines, NextDeadline, RunTo, Process, Beats, AtNext;
    var c := NextDeadline(s);
    RunToStep(s, target);
    if c > target {
      n := 0;
      WaitBeats(s, target, i);
    } else {
      var a := PassBeats(s, c, i);
      BeatsSteady(s, Process(s, c), i, a);
      var b := TickBeats(Process(s, c), target, i);
      BeatsTrans(s, Process(s, c), RunTo(s, target), i, a, b);
      n := a + b;
    }
  }

  lemma BeatsSteady(s: Timeline, r: Timeline, i: nat, n: nat)
    requires Beats(s, r, i, n)
    ensures Steady(s, i) && Steady(r, i) && r.now < NEVER
  {}

  lemma WaitBeats(s: Timeline, c: nat, i: nat)
    requires Inv(s) && Steady(s, i) && s.now <= c <= HORIZON && c < NextDeadline(s)
    ensures Beats(s, At(s, c), i, 0)
  {
    hide Lines, NextDeadline;
    DeadlineBeforeBeat(s, i);
    CaughtUpUntilNext(s.timers[i], s.now, c, Hb(s));
    BeatsRest(s, At(s, c), i);
  }

  /** Operations that leave timer i alone: anything but a write to it and, when it counts
      H-blanks, a change of video mode. */
  predicate LeavesAlone(s: Timeline, op: Op, i: nat)
    requires i < |s.timers|
  {
    match op
    case WriteTimer(j, _) => j != i
    case SetMode(m) => !Hblank(s.timers[i].mode) || m == s.mode
    case _ => true
  }

  lemma QuietOp(s: Timeline, op: Op, i: nat)
    requires Inv(s) && CanApply(s, op) && Steady(s, i) && LeavesAlone(s, op, i) && !op.Tick? && !op.ReadTimer?
    ensures Apply(s, op).now == s.now && |Apply(s, op).timers| == 4 && Apply(s, op).timers[i] == s.timers[i]
    ensures Lines(Apply(s, op).trace, i) == Lines(s.trace, i)
    ensures Hblank(s.timers[i].mode) ==> Apply(s, op).mode == s.mode
  {
    hide Lines;
    var r := Apply(s, op);
    var es := r.trace[|s.trace|..];
    QuietOpSteps(s, op, i);
    assert r.trace == s.trace + es;
    LinesConcat(s.trace, es, i);
    LinesQuiet(es, i);
  }

  lemma QuietOpSteps(s: Timeline, op: Op, i: nat)
    requires Inv(s) && CanApply(s, op) && Steady(s, i) && LeavesAlone(s, op, i) && !op.Tick? && !op.ReadTimer?
    ensures var r := Apply(s, op);
            && |r.timers| == 4 && r.timers[i] == s.timers[i] && r.now == s.now
            && (Hblank(s.timers[i].mode) ==> r.mode == s.mode)
            && s.trace <= r.trace && forall j | |s.trace| <= j < |r.trace| :: !r.trace[j].TimerLine?
  {}

  lemma SteadyCong(s: Timeline, r: Timeline, i: nat)
    requires Steady(s, i) && i < |r.timers| && r.timers[i] == s.timers[i] && r.now == s.now
    requires Hblank(s.timers[i].mode) ==> r.mode == s.mode
    ensures Steady(r, i) && s.now < NextOf(s, i)
  {
    var t := s.timers[i];
    assert Prescale(t.mode, Hb(s)) == Prescale(t.mode, Hb(r));
    assert SeenTicks(t, Hb(s)) == SeenTicks(t, Hb(r)) && RawTicks(t, s.now, Hb(s)) == RawTicks(t, s.now, Hb(r));
    TimerNextExact(t, s.now, Hb(s));
  }

  lemma ReadBeats(s: Timeline, j: nat, i: nat)
    requires Inv(s) && j < 4 && Steady(s, i)
    ensures Beats(s, Apply(s, ReadTimer(j)), i, 0)
  {
    hide Lines, Advance, TimerNext, CaughtUp;
    var r := Apply(s, ReadTimer(j));
    var a := Advance(s.timers[j], s.now, Hb(s));
    var es := if a.raised then [TimerLine(j, s.now)] else [];
    assert r.trace == s.trace + es;
    LinesConcat(s.trace, es, i);
    LinesOne(TimerLine(j, s.now), i);
    LinesNone(i);
    TimerNextExact(s.timers[i], s.now, Hb(s));
    if j == i {
      BeforeTheBeat(s.timers[i], s.now, s.now, Hb(s));
      AdvancedCaughtUp(s.timers[i], s.now, Hb(s));
    } else {
      SteadyCong(s, r, i);
    }
    assert Lines(s.trace, i) + [] == Lines(s.trace, i);
    BeatsRest(s, r, i);
  }

  lemma OpBeats(s: Timeline, op: Op, i: nat) returns (n: nat)
    requires Inv(s) && CanApply(s, op) && Steady(s, i) && LeavesAlone(s, op, i)
    ensures Beats(s, Apply(s, op), i, n)
  {
    hide Lines, RunTo, Beats, NextDeadline;
    if op.Tick? {
      n := TickBeats(s, s.now + op.cycles, i);
    } else if op.ReadTimer? {
      n := 0;
      ReadBeats(s, op.i, i);
    } else {
      n := 0;
      QuietOp(s, op, i);
      SteadyCong(s, Apply(s, op), i);
      BeatsRest(s, Apply(s, op), i);
    }
  }

  predicate AllLeaveAlone(s: Timeline, ops: seq<Op>, i: nat)
    requires Inv(s) && CanRun(s, ops) && i < 4
    decreases |ops|
  {
    ops == [] || (LeavesAlone(s, ops[0], i) && (ApplyOk(s, ops[0]); AllLeaveAlone(Apply(s, ops[0]), ops[1..], i)))
  }

  lemma BeatsSelf(s: Timeline, i: nat)
    requires Steady(s, i)
    ensures Beats(s, s, i, 0)
  {
    hide Lines;
    TimerNextExact(s.timers[i], s.now, Hb(s));
    BeatsRest(s, s, i);
  }

  lemma {:induction false} RunBeats(s: Timeline, ops: seq<Op>, i: nat) returns (n: nat)
    requires Inv(s) && CanRun(s, ops) && Steady(s, i) && AllLeaveAlone(s, ops, i)
    ensures Beats(s, Run(s, ops), i, n)
    decreases |ops|
  {
    hide Lines, Beats, Apply, Inv, Steady, CanApply, LeavesAlone;
    if ops == [] {
      n := 0;
      BeatsSelf(s, i);
    } else {
      ApplyOk(s, ops[0]);
      var a := OpBeats(s, ops[0], i);
      BeatsSteady(s, Apply(s, ops[0]), i, a);
      var m := RunBeats(Apply(s, ops[0]), ops[1..], i);
      BeatsTrans(s, Apply(s, ops[0]), Run(s, ops), i, a, m);
      n := a + m;
    }
  }

  /** Periodic timers do not drift: over any run that leaves it alone, whatever else the timeline
      and the registers do, a ZRET + CMPE timer with nothing overdue, from whatever count, raises its line
      on its next event f, at f + P, at f + 2P, ..., where P is COMP (65536 when COMP is 0) times the
      prescale; every one of them that is not beyond the end of the run, and at no other cycle. */
  lemma NoDrift(s: Timeline, ops: seq<Op>, i: nat) returns (n: nat)
    requires Inv(s) && CanRun(s, ops) && Steady(s, i) && AllLeaveAlone(s, ops, i)
    ensures var f, p := NextOf(s, i), PeriodOf(s, i);
            && s.now < f
            && Lines(Run(s, ops).trace, i) == Lines(s.trace, i) + Every(f, p, n)
            && (n > 0 ==> Beat(f, p, n - 1) <= Run(s, ops).now)
            && Run(s, ops).now < Beat(f, p, n) && Run(s, ops).now < NEVER
  {
    hide Run, Lines, AllLeaveAlone;
    n := RunBeats(s, ops, i);
    AfterNow(s, i);
    AfterNow(Run(s, ops), i);
  }

  lemma AfterNow(s: Timeline, i: nat)
    requires Steady(s, i)
    ensures s.now < NextOf(s, i)
  {
    TimerNextExact(s.timers[i], s.now, Hb(s));
  }

  /** The cycle of its latest reset or rebase. */
  function BaseOf(s: Timeline, i: nat): nat {
    if i < |s.timers| then s.timers[i].baseVclk else 0
  }

  ghost predicate JustReset(s: Timeline, i: nat) {
    Steady(s, i) && s.timers[i].baseCount == 0 && s.now < BaseOf(s, i) + PeriodOf(s, i)
  }

  /** From a reset b, in particular: b + P, b + 2P, ... */
  lemma NoDriftFromReset(s: Timeline, ops: seq<Op>, i: nat) returns (n: nat)
    requires Inv(s) && CanRun(s, ops) && JustReset(s, i) && AllLeaveAlone(s, ops, i)
    ensures var b, p := BaseOf(s, i), PeriodOf(s, i);
            && Lines(Run(s, ops).trace, i) == Lines(s.trace, i) + Every(b + p, p, n)
            && Beat(b, p, n) <= Run(s, ops).now < Beat(b, p, n + 1)
  {
    hide Run, Lines, Every, AllLeaveAlone, Beats, JustReset, Beat;
    ResetSteady(s, i);
    n := RunBeats(s, ops, i);
    BeatsFromReset(s, Run(s, ops), i, n);
  }

  lemma ResetSteady(s: Timeline, i: nat)
    requires JustReset(s, i)
    ensures Steady(s, i) && i < |s.timers|
  {}

  lemma BeatsFromReset(s: Timeline, r: Timeline, i: nat, n: nat)
    requires Beats(s, r, i, n) && JustReset(s, i)
    ensures var b, p := BaseOf(s, i), PeriodOf(s, i);
            && Lines(r.trace, i) == Lines(s.trace, i) + Every(b + p, p, n)
            && Beat(b, p, n) <= r.now < Beat(b, p, n + 1)
  {
    hide Lines, Every, Beat, JustReset, Steady, PeriodOf, BaseOf, NextOf;
    var b, p := BaseOf(s, i), PeriodOf(s, i);
    BeatsSteady(s, r, i, n);
    AfterNow(r, i);
    NextFromReset(s, i);
    EveryNone(b + p, p);
    EveryNone(NextOf(s, i), p);
    FromReset(b, p, NextOf(s, i), n, r.now);
  }

  lemma NextFromReset(s: Timeline, i: nat)
    requires JustReset(s, i)
    ensures Steady(s, i) && i < |s.timers| && BaseOf(s, i) <= s.now
    ensures NextOf(s, i) == if BaseOf(s, i) + PeriodOf(s, i) < NEVER then BaseOf(s, i) + PeriodOf(s, i) else NEVER
  {
    PeriodicNext(s.timers[i], s.now, Hb(s));
  }

  lemma FromReset(b: nat, p: nat, f: nat, n: nat, now: nat)
    requires f == (if b + p < NEVER then b + p else NEVER) && b <= now < NEVER && now < Beat(f, p, n)
    requires n > 0 ==> Beat(f, p, n - 1) <= now
    ensures n > 0 ==> f == b + p
    ensures Beat(b, p, n) <= now < Beat(b, p, n + 1)
  {
    hide Beat;
    BeatSum(b, p, 1, n);
    BeatSum(f, p, 0, n);
    if n > 0 {
      BeatSum(f, p, n - 1, 0);
      BeatSum(b, p, 1, n - 1);
    }
  }

  /** However the timer was set up: after any run from boot that makes no COMP write as above. */
  lemma NoDriftFromBoot(ops: seq<Op>, more: seq<Op>, i: nat) returns (n: nat)
    requires Inv(BOOT) && CanRun(BOOT, ops) && AllCareful(BOOT, ops) && i < 4 && Beating(Run(BOOT, ops).timers[i])
    requires CanRun(Run(BOOT, ops), more) && AllLeaveAlone(Run(BOOT, ops), more, i)
    ensures var s := Run(BOOT, ops);
            var f, p := NextOf(s, i), PeriodOf(s, i);
            && s.now < f
            && Lines(Run(s, more).trace, i) == Lines(s.trace, i) + Every(f, p, n)
            && (n > 0 ==> Beat(f, p, n - 1) <= Run(s, more).now)
            && Run(s, more).now < Beat(f, p, n)
  {
    hide Run, Lines, AllCareful, AllLeaveAlone, CanRun;
    BootOk();
    RunTimersOk(BOOT, ops);
    n := NoDrift(Run(BOOT, ops), more, i);
  }
}
