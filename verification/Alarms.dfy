/** Kernel alarms: a fixed table of one-shot deadlines counted in H-blanks. */
module Alarms {
  import opened Timers

  const SLOTS: nat := 64

  datatype Alarm = Alarm(armed: bool, pending: bool, time: nat, handler: nat, arg: nat, gp: nat, due: nat)

  const IDLE := Alarm(false, false, 0, 0, 0, 0, 0)

  predicate Live(a: Alarm) { a.armed || a.pending }

  /** The table and its counters. `releases` is a history variable: the source counts arms and
      fires only. */
  datatype Table = Table(slots: seq<Alarm>, arms: nat, fires: nat, releases: nat)

  const EMPTY := Table(seq(SLOTS, _ => IDLE), 0, 0, 0)

  function LiveCount(slots: seq<Alarm>): nat {
    if slots == [] then 0
    else LiveCount(slots[..|slots| - 1]) + (if Live(slots[|slots| - 1]) then 1 else 0)
  }

  /** Every slot is free, armed or pending and never two of them, and every arm is accounted for
      by exactly one fire, one release or one live slot. */
  ghost predicate Accounted(t: Table) {
    && |t.slots| == SLOTS
    && (forall i | 0 <= i < SLOTS :: !(t.slots[i].armed && t.slots[i].pending))
    && t.arms == t.fires + t.releases + LiveCount(t.slots)
  }

  /** Index of the first slot that is neither armed nor pending, or |slots|. */
  function FirstFree(slots: seq<Alarm>): (i: nat)
    ensures i <= |slots| && (i < |slots| ==> !Live(slots[i])) && forall j | 0 <= j < i :: Live(slots[j])
  {
    if slots == [] then 0
    else
      var n := |slots| - 1;
      var f := FirstFree(slots[..n]);
      if f < n then f else if Live(slots[n]) then n + 1 else n
  }

  function Armed(ticks: nat, handler: nat, arg: nat, gp: nat, now: nat, hb: nat): Alarm {
    Alarm(true, false, ticks % 0x10000, handler, arg, gp, now + ticks % 0x10000 * hb)
  }

  function Arm(t: Table, ticks: nat, handler: nat, arg: nat, gp: nat, now: nat, hb: nat): (int, Table)
    requires |t.slots| == SLOTS
  {
    var i: int := FirstFree(t.slots);
    if i == SLOTS then (-1, t)
    else (i, t.(slots := t.slots[i := Armed(ticks, handler, arg, gp, now, hb)], arms := t.arms + 1))
  }

  function Cancel(t: Table, id: int): (int, Table)
    requires |t.slots| == SLOTS
  {
    if id < 0 || id >= SLOTS || !Live(t.slots[id]) then (-1, t)
    else (id, t.(slots := t.slots[id := IDLE], releases := t.releases + 1))
  }

  predicate IsDue(a: Alarm, now: nat) { a.armed && a.due <= now }

  function MarkDue(slots: seq<Alarm>, now: nat): (r: seq<Alarm>)
    ensures |r| == |slots|
    ensures forall i | 0 <= i < |slots| ::
              r[i] == if IsDue(slots[i], now) then slots[i].(armed := false, pending := true) else slots[i]
  {
    seq(|slots|, i requires 0 <= i < |slots| =>
      if IsDue(slots[i], now) then slots[i].(armed := false, pending := true) else slots[i])
  }

  /** Slots that become pending, in table order. */
  function DueSlots(slots: seq<Alarm>, now: nat): (r: seq<nat>)
    ensures forall i: nat :: i in r <==> i < |slots| && IsDue(slots[i], now)
  {
    if slots == [] then []
    else
      var n := |slots| - 1;
      DueSlots(slots[..n], now) + (if IsDue(slots[n], now) then [n] else [])
  }

  /** One-shot: the slot is free again before the handler runs. */
  function Fire(t: Table, i: nat): Table
    requires i < |t.slots|
  {
    t.(slots := t.slots[i := IDLE], fires := t.fires + 1)
  }

  function NextDue(slots: seq<Alarm>): (best: nat)
    ensures best <= NEVER
    ensures forall i | 0 <= i < |slots| && slots[i].armed :: best <= slots[i].due
    ensures best < NEVER ==> exists i :: 0 <= i < |slots| && slots[i].armed && slots[i].due == best
  {
    if slots == [] then NEVER
    else
      var n := |slots| - 1;
      var b := NextDue(slots[..n]);
      if slots[n].armed && slots[n].due < b then slots[n].due else b
  }

  lemma {:induction false} LiveUpdate(slots: seq<Alarm>, i: nat, a: Alarm)
    requires i < |slots|
    ensures LiveCount(slots[i := a]) ==
            LiveCount(slots) - (if Live(slots[i]) then 1 else 0) + (if Live(a) then 1 else 0)
  {
    var n := |slots| - 1;
    if i < n {
      LiveUpdate(slots[..n], i, a);
      assert slots[i := a][..n] == slots[..n][i := a];
    } else {
      assert slots[i := a][..n] == slots[..n];
    }
  }

  lemma {:induction false} LiveMarkDue(slots: seq<Alarm>, now: nat)
    ensures LiveCount(MarkDue(slots, now)) == LiveCount(slots)
  {
    if slots != [] {
      var n := |slots| - 1;
      LiveMarkDue(slots[..n], now);
      assert MarkDue(slots, now)[..n] == MarkDue(slots[..n], now);
    }
  }

  lemma ArmAccounted(t: Table, ticks: nat, handler: nat, arg: nat, gp: nat, now: nat, hb: nat)
    requires Accounted(t)
    ensures var (id, t') := Arm(t, ticks, handler, arg, gp, now, hb);
            && Accounted(t')
            && (id == -1 <==> forall i | 0 <= i < SLOTS :: Live(t.slots[i]))
  {
    var i := FirstFree(t.slots);
    if i < SLOTS { LiveUpdate(t.slots, i, Armed(ticks, handler, arg, gp, now, hb)); }
  }

  lemma CancelAccounted(t: Table, id: int)
    requires Accounted(t)
    ensures Accounted(Cancel(t, id).1)
  {
    if 0 <= id < SLOTS && Live(t.slots[id]) { LiveUpdate(t.slots, id, IDLE); }
  }

  lemma MarkDueAccounted(t: Table, now: nat)
    requires Accounted(t)
    ensures Accounted(t.(slots := MarkDue(t.slots, now)))
  {
    LiveMarkDue(t.slots, now);
  }

  lemma FireAccounted(t: Table, i: nat)
    requires Accounted(t) && i < SLOTS && t.slots[i].pending
    ensures Accounted(Fire(t, i)) && !Live(Fire(t, i).slots[i])
  {
    LiveUpdate(t.slots, i, IDLE);
  }

  /** A handler may re-arm into the slot it fired from: when every other slot is live, it does. */
  lemma RearmOwnSlot(t: Table, i: nat, ticks: nat, handler: nat, arg: nat, gp: nat, now: nat, hb: nat)
    requires Accounted(t) && i < SLOTS && t.slots[i].pending
    ensures var (id, t') := Arm(Fire(t, i), ticks, handler, arg, gp, now, hb);
            && 0 <= id <= i && t'.slots[id].armed && !t'.slots[id].pending
            && ((forall j | 0 <= j < i :: Live(t.slots[j])) ==> id == i)
  {
    assert !Live(Fire(t, i).slots[i]);
  }

  class AlarmTable {
    const slots: array<Alarm>
    var arms: nat
    var fires: nat
    ghost var releases: nat

    constructor ()
      ensures fresh(slots) && slots.Length == SLOTS && State() == EMPTY
    {
      slots := new Alarm[SLOTS](_ => IDLE);
      arms, fires, releases := 0, 0, 0;
      new;
      assert slots[..] == EMPTY.slots;
    }

    ghost function State(): Table
      reads this, slots
    {
      Table(slots[..], arms, fires, releases)
    }

    method Set(ticks: nat, handler: nat, arg: nat, gp: nat, now: nat, hb: nat) returns (id: int)
      requires slots.Length == SLOTS
      modifies slots, this`arms
      ensures (id, State()) == Arm(old(State()), ticks, handler, arg, gp, now, hb)
    {
      for i := 0 to SLOTS
        invariant slots[..] == old(slots[..]) && arms == old(arms)
        invariant forall j | 0 <= j < i :: Live(slots[j])
      {
        if slots[i].armed || slots[i].pending { continue; }
        slots[i] := Alarm(true, false, ticks % 0x10000, handler, arg, gp, 0);
        slots[i] := slots[i].(due := now + ticks % 0x10000 * hb);
        arms := arms + 1;
        assert FirstFree(old(slots[..])) == i;
        assert slots[..] == old(slots[..])[i := Armed(ticks, handler, arg, gp, now, hb)];
        return i;
      }
      id := -1;
    }

    method Release(id: int) returns (r: int)
      requires slots.Length == SLOTS
      modifies slots, this`releases
      ensures (r, State()) == Cancel(old(State()), id)
    {
      if id < 0 || id >= SLOTS { return -1; }
      if !slots[id].armed && !slots[id].pending { return -1; }
      slots[id] := IDLE;
      releases := releases + 1;
      r := id;
    }

    method NextEvent() returns (best: nat)
      ensures best == NextDue(slots[..])
    {
      best := NEVER;
      for i := 0 to slots.Length
        invariant best == NextDue(slots[..i])
      {
        assert slots[..i + 1][..i] == slots[..i];
        if slots[i].armed && slots[i].due < best { best := slots[i].due; }
      }
      assert slots[..slots.Length] == slots[..];
    }

    method RunDue(now: nat) returns (due: seq<nat>)
      modifies slots
      ensures slots[..] == MarkDue(old(slots[..]), now) && due == DueSlots(old(slots[..]), now)
    {
      ghost var was := slots[..];
      due := [];
      for i := 0 to slots.Length
        invariant forall j | i <= j < slots.Length :: slots[j] == was[j]
        invariant forall j | 0 <= j < i :: slots[j] == MarkDue(was, now)[j]
        invariant due == DueSlots(was[..i], now)
      {
        assert was[..i + 1][..i] == was[..i];
        if !slots[i].armed || slots[i].due > now { continue; }
        slots[i] := slots[i].(armed := false);
        slots[i] := slots[i].(pending := true);
        due := due + [i];
      }
      assert was[..slots.Length] == was;
    }

    method AnyPending() returns (p: bool)
      ensures p <==> exists i :: 0 <= i < slots.Length && slots[i].pending
    {
      for i := 0 to slots.Length
        invariant forall j | 0 <= j < i :: !slots[j].pending
      {
        if slots[i].pending { return true; }
      }
      p := false;
    }

    /** One step of the dispatch loop: frees the slot and returns what its handler is called with. */
    method TakePending(i: nat) returns (fired: Alarm)
      requires i < slots.Length && slots[i].pending
      modifies slots, this`fires
      ensures fired == old(slots[i]) && State() == Fire(old(State()), i)
    {
      fired := slots[i];
      slots[i] := IDLE;
      fires := fires + 1;
    }
  }
}
