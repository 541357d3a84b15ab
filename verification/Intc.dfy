/** The interrupt lines: INTC and DMAC status and masks, and kernel alarms that have come due. A
    register word is the set of its set bits. */
module IntcLines {

  datatype Lines = Lines(istat: set<nat>, imask: set<nat>, dstat: set<nat>, dmask: set<nat>, alarms: set<nat>)

  /** Whether rt_intc_deliver has anything to do. */
  predicate Pending(l: Lines) {
    l.istat * l.imask != {} || l.dstat * l.dmask != {} || l.alarms != {}
  }
}

/** Raising, masking, acknowledging and delivering interrupts. */
module Intc {
  import opened IntcLines

  const CAUSES: nat := 15
  const CHANNELS: nat := 10
  const ALARMS: nat := 64
  const PASSES: nat := 64

  /** What can be waiting for a handler. */
  datatype Source = Cause(c: nat) | Channel(ch: nat) | Alarm(slot: nat)

  predicate Up(l: Lines, x: Source) {
    match x
    case Cause(c) => c in l.istat
    case Channel(ch) => ch in l.dstat
    case Alarm(i) => i in l.alarms
  }

  function SetUp(l: Lines, x: Source): Lines {
    match x
    case Cause(c) => l.(istat := l.istat + {c})
    case Channel(ch) => l.(dstat := l.dstat + {ch})
    case Alarm(i) => l.(alarms := l.alarms + {i})
  }

  function SetDown(l: Lines, x: Source): (r: Lines)
    ensures r.imask == l.imask && r.dmask == l.dmask && !Up(r, x)
  {
    match x
    case Cause(c) => l.(istat := l.istat - {c})
    case Channel(ch) => l.(dstat := l.dstat - {ch})
    case Alarm(i) => l.(alarms := l.alarms - {i})
  }

  /** What thread and handler code can do to the lines. `v` is a written word. `AlarmDue` is a clock
      tick passing an alarm's deadline; `AlarmGone` is its release. `Deliver` is a system call or MMIO
      access reaching its delivery point. */
  datatype Act =
    | Raise(cause: int)
    | DmacRaise(channel: int)
    | WriteIStat(v: set<nat>)
    | WriteIMask(v: set<nat>)
    | WriteDStat(v: set<nat>)
    | EnableIntc(cause: int)
    | DisableIntc(cause: int)
    | EnableDmac(channel: int)
    | DisableDmac(channel: int)
    | AlarmDue(slot: nat)
    | AlarmGone(slot: nat)
    | SetEie(on: bool)
    | Deliver

  /** The controller. `sets`, `served`, `acked` and `stale` are history: a line going up; a dispatch
      that found it up; a write or release taking it down; a dispatch that found it already down.
      `n` counts dispatches. */
  datatype State = State(
    l: Lines,
    eie: bool,
    inInterrupt: bool,
    n: nat,
    sets: multiset<Source>,
    served: multiset<Source>,
    acked: multiset<Source>,
    stale: multiset<Source>)

  /** What the handlers of the i-th dispatch do, in order. Any handlers are some such function. */
  type Handlers = nat -> seq<Act>

  // ---- Actions -------------------------------------------------------------------

  function Put(s: State, x: Source): State {
    if Up(s.l, x) then s else s.(l := SetUp(s.l, x), sets := s.sets + multiset{x})
  }

  function Low(v: set<nat>): set<nat> { set b | b in v && b < 16 }

  function High(v: set<nat>): set<nat> { set b | b in v && 16 <= b < 26 :: b - 16 }

  function Toggle(a: set<nat>, b: set<nat>): set<nat> { (a - b) + (b - a) }

  /** A write-1-to-clear of the causes or channels in v. */
  function AckCauses(s: State, v: set<nat>): State {
    s.(l := s.l.(istat := s.l.istat - v), acked := s.acked + multiset(set c | c in s.l.istat * v :: Cause(c)))
  }

  function AckChannels(s: State, v: set<nat>): State {
    s.(l := s.l.(dstat := s.l.dstat - v), acked := s.acked + multiset(set c | c in s.l.dstat * v :: Channel(c)))
  }

  /** What an action does besides being a delivery point. */
  function Plain(s: State, a: Act): (r: State)
    ensures r.inInterrupt == s.inInterrupt && r.n == s.n
  {
    match a
    case Raise(c) => if 0 <= c < CAUSES then Put(s, Cause(c)) else s
    case DmacRaise(ch) => if 0 <= ch < CHANNELS then Put(s, Channel(ch)) else s
    case WriteIStat(v) => AckCauses(s, v)
    case WriteIMask(v) => s.(l := s.l.(imask := Toggle(s.l.imask, set b | b in v && b < 15)))
    case WriteDStat(v) => var s1 := AckChannels(s, Low(v)); s1.(l := s1.l.(dmask := Toggle(s1.l.dmask, High(v))))
    case EnableIntc(c) => if 0 <= c < CAUSES then s.(l := s.l.(imask := s.l.imask + {c})) else s
    case DisableIntc(c) => if 0 <= c < CAUSES then s.(l := s.l.(imask := s.l.imask - {c})) else s
    case EnableDmac(ch) => if 0 <= ch < CHANNELS then s.(l := s.l.(dmask := s.l.dmask + {ch})) else s
    case DisableDmac(ch) => if 0 <= ch < CHANNELS then s.(l := s.l.(dmask := s.l.dmask - {ch})) else s
    case AlarmDue(i) => if i < ALARMS then Put(s, Alarm(i)) else s
    case AlarmGone(i) =>
      if i in s.l.alarms then s.(l := s.l.(alarms := s.l.alarms - {i}), acked := s.acked + multiset{Alarm(i)}) else s
    case SetEie(on) => s.(eie := on)
    case Deliver => s
  }

  predicate DeliveryPoint(a: Act) {
    a.Deliver? || (a.SetEie? && a.on)
  }

  // ---- Delivery. The first component of each measure is 0 inside a handler. ----------

  function Depth(s: State): nat {
    if s.inInterrupt then 0 else 1
  }

  function Do(s: State, a: Act, h: Handlers): (r: State)
    ensures r.inInterrupt == s.inInterrupt
    decreases Depth(s), 1
  {
    var s1 := Plain(s, a);
    if DeliveryPoint(a) then DeliverAll(s1, h) else s1
  }

  function DoAll(s: State, acts: seq<Act>, h: Handlers): (r: State)
    requires s.inInterrupt
    ensures r.inInterrupt
    decreases Depth(s), 2, |acts|
  {
    if acts == [] then s else DoAll(Do(s, acts[0], h), acts[1..], h)
  }

  function Counted(s: State, x: Source): (r: State)
    ensures r.l == s.l && r.n == s.n + 1 && r.inInterrupt == s.inInterrupt
  {
    var found := Up(s.l, x);
    s.(n := s.n + 1,
       served := if found then s.served + multiset{x} else s.served,
       stale := if found then s.stale else s.stale + multiset{x})
  }

  /** Takes the line down and counts how it was found. */
  function Take(s: State, x: Source): (r: State)
    ensures r.n == s.n + 1 && r.inInterrupt == s.inInterrupt
  {
    Counted(s, x).(l := SetDown(s.l, x))
  }

  function Dispatch(s: State, x: Source, h: Handlers): (r: State)
    requires s.inInterrupt
    ensures r.inInterrupt
    decreases Depth(s), 3
  {
    DoAll(Take(s, x), h(s.n), h)
  }

  /** The cause loop of a pass up to cause c, over the causes pending when the pass began. */
  function Causes(s: State, ipend: set<nat>, c: nat, h: Handlers): (r: State)
    requires s.inInterrupt
    ensures r.inInterrupt
    decreases Depth(s), 4, c
  {
    if c == 0 then s
    else
      var t := Causes(s, ipend, c - 1, h);
      if c - 1 in ipend then Dispatch(t, Cause(c - 1), h) else t
  }

  function Channels(s: State, dpend: set<nat>, c: nat, h: Handlers): (r: State)
    requires s.inInterrupt
    ensures r.inInterrupt
    decreases Depth(s), 4, c
  {
    if c == 0 then s
    else
      var t := Channels(s, dpend, c - 1, h);
      if c - 1 in dpend then Dispatch(t, Channel(c - 1), h) else t
  }

  /** Alarms are looked at when the loop reaches them. */
  function Alarms(s: State, i: nat, h: Handlers): (r: State)
    requires s.inInterrupt
    ensures r.inInterrupt
    decreases Depth(s), 4, i
  {
    if i == 0 then s
    else
      var t := Alarms(s, i - 1, h);
      if i - 1 in t.l.alarms then Dispatch(t, Alarm(i - 1), h) else t
  }

  function Pass(s: State, h: Handlers): (r: State)
    requires s.inInterrupt
    ensures r.inInterrupt
    decreases Depth(s), 5
  {
    var ipend, dpend, apend := s.l.istat * s.l.imask, s.l.dstat * s.l.dmask, s.l.alarms != {};
    var s1 := Causes(s, ipend, CAUSES, h);
    var s2 := Channels(s1, dpend, CHANNELS, h);
    if apend then Alarms(s2, ALARMS, h) else s2
  }

  function Passes(s: State, guard: nat, h: Handlers): (r: State)
    requires s.inInterrupt
    ensures r.inInterrupt
    decreases Depth(s), 6, PASSES - guard
  {
    if guard >= PASSES || !Pending(s.l) then s else Passes(Pass(s, h), guard + 1, h)
  }

  function DeliverAll(s: State, h: Handlers): (r: State)
    ensures r.inInterrupt == s.inInterrupt
    decreases Depth(s), 0
  {
    if s.inInterrupt || !s.eie || !Pending(s.l) then s
    else Passes(s.(inInterrupt := true), 0, h).(inInterrupt := false)
  }
}
