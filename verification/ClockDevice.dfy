/** The clock as the runtime keeps it: live registers updated in place, the memoized timer
    predictor included, proved to be the timeline of module Clock. */
module ClockDevice {
  import opened VideoMode
  import opened Timers
  import opened Alarms
  import opened Sif
  import opened Clock
  import opened ClockRuns

  class VirtualClock {
    var now: nat
    var mode: Mode
    var everSet: bool
    var nextEdge: nat
    var vblankEnd: nat
    var field: nat
    var vblanks: nat
    const bank: TimerBank
    const table: AlarmTable
    const sif: SifLink
    ghost var trace: seq<Event>

    ghost function State(): Timeline
      reads this, bank, bank.t, table, table.slots, sif
    {
      Timeline(now, mode, nextEdge, vblankEnd, field, vblanks, bank.t[..], table.State(),
               sif.State(), trace)
    }

    ghost predicate Valid()
      reads this, bank, bank.t, table, table.slots, sif
    {
      && Inv(State())
      && table.slots.Length == SLOTS
      && bank.Ready(now, Hb(State())) && bank.MemoRight(now, Hb(State()))
    }

    constructor ()
      ensures Valid() && State() == BOOT
      ensures fresh(bank) && fresh(bank.t) && fresh(table) && fresh(table.slots) && fresh(sif)
    {
      now, mode, everSet := 0, Pal, false;
      nextEdge, vblankEnd := FIELD_PAL, NEVER;
      field, vblanks := 0, 0;
      bank := new TimerBank();
      table := new AlarmTable();
      sif := new SifLink(FIELD_PAL);
      trace := [];
      new;
      assert bank.t[..] == BOOT.timers;
      BootOk();
    }

    method NextEvent() returns (nxt: nat)
      requires Valid()
      modifies bank`cache, bank`valid
      ensures Valid() && State() == old(State()) && nxt == NextDeadline(State())
    {
      nxt := nextEdge;
      if vblankEnd < nxt { nxt := vblankEnd; }
      var t := bank.Next(now, CyclesPerHblank(mode));
      if t < nxt { nxt := t; }
      t := sif.NextEvent();
      if t < nxt { nxt := t; }
      t := table.NextEvent();
      if t < nxt { nxt := t; }
    }

    /** The vblank edges of one pass. */
    method Edges()
      modifies this`vblanks, this`field, this`vblankEnd, this`nextEdge, this`trace
      ensures State() == VblankPart(old(State()))
    {
      if now >= nextEdge {
        vblanks := vblanks + 1;
        field := 1 - field % 2;
        vblankEnd := nextEdge + CyclesVblank(mode);
        nextEdge := nextEdge + CyclesPerField(mode);
        trace := trace + [VbOn(now, mode)];
      }
      if now >= vblankEnd {
        vblankEnd := NEVER;
        trace := trace + [VbOff(now)];
      }
    }

    /** The timers, SIF and alarms of one pass. */
    method RunDue()
      requires bank.Ready(now, Hb(State())) && table.slots.Length == SLOTS
      modifies this`trace, bank`valid, bank.t, table.slots, sif
      ensures AllInRange(old(State()).timers, now) && State() == AlarmPart(SifPart(TimerPart(old(State()))))
      ensures !bank.valid && bank.Ready(now, Hb(State()))
    {
      var lines := bank.RunDue(now, CyclesPerHblank(mode));
      trace := trace + LineEvents(lines, now);
      var out := sif.Run(now, CyclesPerField(mode));
      trace := trace + OutEvents(out, now);
      var due := table.RunDue(now);
      trace := trace + DueEvents(due, now);
    }

    /** The body of the tick loop at event cycle `nxt`. */
    method Service(nxt: nat)
      requires Valid() && nxt == NextDeadline(State()) && nxt <= HORIZON
      modifies this, bank, bank.t, table, table.slots, sif
      ensures Valid() && AllInRange(old(State()).timers, nxt) && State() == Process(old(State()), nxt)
    {
      ghost var s := State();
      NextIsLeast(s);
      InRangeLater(s, nxt);
      ProcessOk(s, nxt);
      hide NextDeadline, Inv, VblankPart, TimerPart, AlarmPart;
      now := nxt;
      Edges();
      RunDue();
    }

    method Tick(cycles: nat)
      requires Valid() && now + cycles <= HORIZON
      modifies this, bank, bank.t, table, table.slots, sif
      ensures Valid() && State() == Apply(old(State()), ClockRuns.Op.Tick(cycles))
      ensures now == old(now) + cycles && now < NextDeadline(State())
    {
      hide RunTo, Process, NextDeadline, AtNext;
      ghost var s := State();
      var target := now + cycles;
      var nxt := NextEvent();
      while nxt <= target
        invariant Valid() && nxt == NextDeadline(State()) && now <= target <= HORIZON
        invariant RunTo(State(), target) == RunTo(s, target)
        decreases target + 1 - nxt, AtNext(State())
      {
        ghost var u := State();
        RunToStep(u, target);
        Service(nxt);
        nxt := NextEvent();
      }
      ghost var u := State();
      RunToStep(u, target);
      WaitOk(u, target);
      KeepMemo(target);
      now := target;
    }

    lemma KeepMemo(later: nat)
      requires Valid() && now <= later <= HORIZON && later < NextDeadline(State())
      ensures bank.Ready(later, Hb(State())) && bank.MemoRight(later, Hb(State()))
    {
      NextIsLeast(State());
      InRangeLater(State(), later);
      bank.MemoSurvives(now, later, Hb(State()));
    }

    method SetMode(m: Mode)
      requires Valid()
      modifies this, bank`valid, bank.t
      ensures Valid() && State() == Apply(old(State()), ClockRuns.Op.SetMode(m))
    {
      ghost var s := State();
      SetModeOk(s, m);
      var prev := mode;
      if m == prev && everSet { return; }
      everSet := true;
      mode := m;
      if m == prev { return; }
      nextEdge := now + CyclesPerField(m);
      bank.ModeChanged(now, CyclesPerHblank(m));
      assert bank.t[..] == ChangeMode(s, m).timers;
    }

    method ReadTimer(i: nat) returns (count: nat, modeWord: bv32)
      requires Valid() && i < 4
      modifies this`trace, bank`valid, bank.t
      ensures Valid() && State() == Apply(old(State()), ClockRuns.Op.ReadTimer(i))
      ensures count == CountNow(bank.t[i], now, Hb(State())) && modeWord == ModeRegister(bank.t[i])
    {
      ghost var s := State();
      TimerOpOk(s, ClockRuns.Op.ReadTimer(i));
      var raised;
      count, modeWord, raised := bank.Read(i, now, CyclesPerHblank(mode));
      if raised { trace := trace + [TimerLine(i, now)]; }
    }

    method WriteTimer(i: nat, w: RegWrite)
      requires Valid() && i < 4
      modifies bank`valid, bank.t
      ensures Valid() && State() == Apply(old(State()), ClockRuns.Op.WriteTimer(i, w))
    {
      TimerOpOk(State(), ClockRuns.Op.WriteTimer(i, w));
      bank.Write(i, w, now, CyclesPerHblank(mode));
    }

    method SetAlarm(ticks: nat, handler: nat, arg: nat, gp: nat) returns (id: int)
      requires Valid()
      modifies this`trace, table, table.slots
      ensures Valid() && State() == Apply(old(State()), ClockRuns.Op.SetAlarm(ticks, handler, arg, gp))
      ensures id == Arm(old(State()).alarms, ticks, handler, arg, gp, now, Hb(State())).0
    {
      AlarmOpOk(State(), ClockRuns.Op.SetAlarm(ticks, handler, arg, gp));
      id := table.Set(ticks, handler, arg, gp, now, CyclesPerHblank(mode));
      if id != -1 { trace := trace + [AlarmArmed(id, now, ticks, mode)]; }
    }

    method ReleaseAlarm(id: int) returns (r: int)
      requires Valid()
      modifies this`trace, table, table.slots
      ensures Valid() && State() == Apply(old(State()), ClockRuns.Op.ReleaseAlarm(id))
    {
      AlarmOpOk(State(), ClockRuns.Op.ReleaseAlarm(id));
      r := table.Release(id);
      if r != -1 { trace := trace + [AlarmReleased(id, now)]; }
    }

    /** The handler of a pending alarm is about to run. */
    method DispatchAlarm(slot: nat) returns (fired: Alarm)
      requires Valid() && slot < SLOTS && table.slots[slot].pending
      modifies this`trace, table, table.slots
      ensures Valid() && State() == Apply(old(State()), ClockRuns.Op.DispatchAlarm(slot))
      ensures fired == old(table.slots[slot])
    {
      AlarmOpOk(State(), ClockRuns.Op.DispatchAlarm(slot));
      fired := table.TakePending(slot);
      trace := trace + [AlarmFired(slot, now)];
    }

    method SendReply(kind: Kind, tag: nat, hold: nat)
      requires Valid()
      modifies sif
      ensures Valid() && State() == Apply(old(State()), ClockRuns.Op.SifSend(kind, tag, hold))
    {
      SifOpOk(State(), ClockRuns.Op.SifSend(kind, tag, hold));
      sif.Send(kind, tag, now, hold);
    }

    method TakePacket()
      requires Valid()
      modifies sif
      ensures Valid() && State() == Apply(old(State()), ClockRuns.Op.SifTaken)
    {
      SifOpOk(State(), ClockRuns.Op.SifTaken);
      sif.Taken();
    }
  }
}
