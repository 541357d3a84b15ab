/** Delivery loses and repeats nothing: conservation of line events, what one pass serves, how a
    delivery ends, and when a dispatch finds its line already acknowledged. */
module IntcDelivery {
  import opened IntcLines
  import opened Intc

  function Bit(l: Lines, x: Source): int { if Up(l, x) then 1 else 0 }

  /** Times a line went up, less the dispatches and acknowledgements that took it down, less whether
      it is up. */
  function Missing(s: State, x: Source): int {
    s.sets[x] - s.served[x] - s.acked[x] - Bit(s.l, x)
  }

  function Dispatches(s: State, x: Source): int { s.served[x] + s.stale[x] }

  /** From a to b every line event is accounted for, and counters only grow. */
  ghost predicate Accounted(a: State, b: State) {
    && a.n <= b.n && b.inInterrupt == a.inInterrupt
    && forall x: Source :: Step(a, b, x)
  }

  predicate Step(a: State, b: State, x: Source) {
    && Missing(b, x) == Missing(a, x)
    && a.served[x] <= b.served[x] && a.stale[x] <= b.stale[x] && a.acked[x] <= b.acked[x] && a.sets[x] <= b.sets[x]
  }

  /** No dispatch happened. */
  predicate Undispatched(a: State, b: State) {
    b.n == a.n && b.served == a.served && b.stale == a.stale
  }

  predicate Exists(x: Source) {
    match x
    case Cause(c) => c < CAUSES
    case Channel(ch) => ch < CHANNELS
    case Alarm(i) => i < ALARMS
  }

  /** Only bits that exist are ever set. */
  predicate WellFormed(l: Lines) {
    && (forall c | c in l.istat :: c < CAUSES)
    && (forall c | c in l.dstat :: c < CHANNELS)
    && (forall i | i in l.alarms :: i < ALARMS)
  }

  // ---- Actions -------------------------------------------------------------------

  lemma Then(a: State, b: State, c: State)
    requires Accounted(a, b) && Accounted(b, c)
    ensures Accounted(a, c)
  {
    forall x: Source ensures Step(a, c, x) { assert Step(a, b, x) && Step(b, c, x); }
  }

  lemma PlainAccounted(s: State, a: Act)
    ensures Accounted(s, Plain(s, a)) && Undispatched(s, Plain(s, a))
    ensures WellFormed(s.l) ==> WellFormed(Plain(s, a).l)
  {
    hide AckCauses, AckChannels, Put, SetUp, Step;
    match a
    case Raise(c) => if 0 <= c < CAUSES { PutAccounted(s, Cause(c)); } else { Idle(s, s); }
    case DmacRaise(ch) => if 0 <= ch < CHANNELS { PutAccounted(s, Channel(ch)); } else { Idle(s, s); }
    case AlarmDue(i) => if i < ALARMS { PutAccounted(s, Alarm(i)); } else { Idle(s, s); }
    case WriteIStat(v) => AckAccounted(s, v);
    case WriteDStat(v) =>
      var s1 := AckChannels(s, Low(v));
      AckAccounted(s, Low(v));
      Idle(s1, Plain(s, a));
      Then(s, s1, Plain(s, a));
    case AlarmGone(i) => if i in s.l.alarms { GoneAccounted(s, i); } else { Idle(s, s); }
    case _ => Idle(s, Plain(s, a));
  }

  lemma Idle(s: State, r: State)
    requires r.n == s.n && r.inInterrupt == s.inInterrupt && r.sets == s.sets && r.acked == s.acked
    requires Undispatched(s, r)
    requires r.l.istat == s.l.istat && r.l.dstat == s.l.dstat && r.l.alarms == s.l.alarms
    ensures Accounted(s, r)
  {
    forall x: Source ensures Step(s, r, x) {}
  }

  lemma PutAccounted(s: State, x: Source)
    ensures Accounted(s, Put(s, x)) && Undispatched(s, Put(s, x))
    ensures WellFormed(s.l) && Exists(x) ==> WellFormed(Put(s, x).l)
  {
    forall y: Source ensures Step(s, Put(s, x), y) {}
  }

  lemma GoneAccounted(s: State, i: nat)
    requires i in s.l.alarms
    ensures var r := Plain(s, AlarmGone(i));
            Accounted(s, r) && Undispatched(s, r) && (WellFormed(s.l) ==> WellFormed(r.l))
  {
    forall y: Source ensures Step(s, Plain(s, AlarmGone(i)), y) {}
  }

  lemma AckAccounted(s: State, v: set<nat>)
    ensures Accounted(s, AckCauses(s, v)) && Undispatched(s, AckCauses(s, v))
    ensures Accounted(s, AckChannels(s, v)) && Undispatched(s, AckChannels(s, v))
    ensures WellFormed(s.l) ==> WellFormed(AckCauses(s, v).l) && WellFormed(AckChannels(s, v).l)
  {
    hide Step;
    forall x: Source ensures Step(s, AckCauses(s, v), x) && Step(s, AckChannels(s, v), x) { AckCount(s, v, x); }
  }

  /** A write of 1s takes down and counts exactly the lines that were up. */
  lemma AckCount(s: State, v: set<nat>, x: Source)
    ensures Step(s, AckCauses(s, v), x) && Step(s, AckChannels(s, v), x)
  {
    var cs := set c | c in s.l.istat * v :: Cause(c);
    var ds := set c | c in s.l.dstat * v :: Channel(c);
    assert x in cs <==> x.Cause? && x.c in s.l.istat * v;
    assert x in ds <==> x.Channel? && x.ch in s.l.dstat * v;
  }

  /** Bit by bit: I_STAT and the low half of D_STAT clear where a 1 is written, I_MASK toggles its 15
      bits, and bits 16 to 25 of D_STAT toggle the ten channel masks. */
  lemma RegisterBits(s: State, v: set<nat>, c: nat)
    ensures c in Plain(s, WriteIStat(v)).l.istat <==> c in s.l.istat && c !in v
    ensures c in Plain(s, WriteIMask(v)).l.imask <==> (c in s.l.imask) != (c in v && c < 15)
    ensures c in Plain(s, WriteDStat(v)).l.dstat <==> c in s.l.dstat && !(c in v && c < 16)
    ensures c in Plain(s, WriteDStat(v)).l.dmask <==> (c in s.l.dmask) != (c + 16 in v && c < 10)
  {
    HighBits(v, c);
  }

  lemma HighBits(v: set<nat>, c: nat)
    ensures c in High(v) <==> c + 16 in v && c < 10
  {
    if c + 16 in v && c < 10 { assert (c + 16) - 16 in High(v); }
  }

  /** Inside a handler a delivery point does nothing: handlers never nest. */
  lemma HandlersDoNotNest(s: State, a: Act, h: Handlers)
    requires s.inInterrupt
    ensures Do(s, a, h) == Plain(s, a)
  {}

  lemma {:induction false} DoAllAccounted(s: State, acts: seq<Act>, h: Handlers)
    requires s.inInterrupt
    ensures Accounted(s, DoAll(s, acts, h)) && Undispatched(s, DoAll(s, acts, h))
    ensures WellFormed(s.l) ==> WellFormed(DoAll(s, acts, h).l)
    decreases |acts|
  {
    hide Plain, WellFormed, Missing;
    if acts != [] {
      HandlersDoNotNest(s, acts[0], h);
      PlainAccounted(s, acts[0]);
      DoAllAccounted(Do(s, acts[0], h), acts[1..], h);
      Then(s, Do(s, acts[0], h), DoAll(s, acts, h));
    } else {
      Idle(s, s);
    }
  }

  // ---- One dispatch and one pass -----------------------------------------------------

  lemma TakeAccounted(s: State, x: Source)
    ensures Accounted(s, Take(s, x)) && Take(s, x).n == s.n + 1
    ensures forall y: Source :: Dispatches(Take(s, x), y) == Dispatches(s, y) + if y == x then 1 else 0
    ensures WellFormed(s.l) ==> WellFormed(Take(s, x).l)
    ensures Take(s, x).stale[x] == s.stale[x] + 1 - Bit(s.l, x)
  {
    TakeSelf(s, x);
    TakeWellFormed(s, x);
    hide Step, Take, Dispatches, WellFormed;
    forall y: Source
      ensures Step(s, Take(s, x), y)
      ensures Dispatches(Take(s, x), y) == Dispatches(s, y) + if y == x then 1 else 0
    {
      if y != x { TakeOther(s, x, y); }
    }
  }

  lemma TakeSelf(s: State, x: Source)
    ensures Step(s, Take(s, x), x) && Dispatches(Take(s, x), x) == Dispatches(s, x) + 1
    ensures Take(s, x).stale[x] == s.stale[x] + 1 - Bit(s.l, x)
  {
    hide SetDown;
  }

  lemma TakeOther(s: State, x: Source, y: Source)
    requires y != x
    ensures Step(s, Take(s, x), y) && Dispatches(Take(s, x), y) == Dispatches(s, y)
  {
    DownOther(s.l, x, y);
    hide SetDown, Up;
  }

  lemma DownOther(l: Lines, x: Source, y: Source)
    requires y != x
    ensures Up(SetDown(l, x), y) == Up(l, y)
  {}

  lemma TakeWellFormed(s: State, x: Source)
    ensures WellFormed(s.l) ==> WellFormed(Take(s, x).l)
  {}

  /** One dispatch runs one line's handlers, and nothing else is dispatched meanwhile. */
  lemma DispatchAccounted(s: State, x: Source, h: Handlers)
    requires s.inInterrupt
    ensures var r := Dispatch(s, x, h);
            && Accounted(s, r) && r.n == s.n + 1 && (WellFormed(s.l) ==> WellFormed(r.l))
            && (forall y: Source :: Dispatches(r, y) == Dispatches(s, y) + if y == x then 1 else 0)
            && r.stale[x] == s.stale[x] + 1 - Bit(s.l, x)
  {
    hide WellFormed, Missing, Take, DoAll;
    TakeAccounted(s, x);
    DoAllAccounted(Take(s, x), h(s.n), h);
    Then(s, Take(s, x), Dispatch(s, x, h));
  }

  lemma {:induction false} CausesAccounted(s: State, ipend: set<nat>, c: nat, h: Handlers)
    requires s.inInterrupt
    ensures var r := Causes(s, ipend, c, h);
            && Accounted(s, r) && (WellFormed(s.l) ==> WellFormed(r.l))
            && (forall y: Source ::
                  Dispatches(r, y) == Dispatches(s, y) + if y.Cause? && y.c < c && y.c in ipend then 1 else 0)
            && (forall i | i < c && i in ipend :: r.n > s.n)
    decreases c
  {
    hide WellFormed, Missing, Dispatch;
    if c > 0 {
      var t := Causes(s, ipend, c - 1, h);
      CausesAccounted(s, ipend, c - 1, h);
      if c - 1 in ipend {
        DispatchAccounted(t, Cause(c - 1), h);
        Then(s, t, Causes(s, ipend, c, h));
      }
    } else {
      Idle(s, s);
    }
  }

  lemma {:induction false} ChannelsAccounted(s: State, dpend: set<nat>, c: nat, h: Handlers)
    requires s.inInterrupt
    ensures var r := Channels(s, dpend, c, h);
            && Accounted(s, r) && (WellFormed(s.l) ==> WellFormed(r.l))
            && (forall y: Source ::
                  Dispatches(r, y) == Dispatches(s, y) + if y.Channel? && y.ch < c && y.ch in dpend then 1 else 0)
            && (forall i | i < c && i in dpend :: r.n > s.n)
    decreases c
  {
    hide WellFormed, Missing, Dispatch;
    if c > 0 {
      var t := Channels(s, dpend, c - 1, h);
      ChannelsAccounted(s, dpend, c - 1, h);
      if c - 1 in dpend {
        DispatchAccounted(t, Channel(c - 1), h);
        Then(s, t, Channels(s, dpend, c, h));
      }
    } else {
      Idle(s, s);
    }
  }

  /** Alarms are never dispatched stale, and at most once a pass. */
  lemma {:induction false} AlarmsAccounted(s: State, c: nat, h: Handlers)
    requires s.inInterrupt
    ensures var r := Alarms(s, c, h);
            && Accounted(s, r) && (WellFormed(s.l) ==> WellFormed(r.l))
            && (forall y: Source ::
                  Dispatches(s, y) <= Dispatches(r, y) <= Dispatches(s, y) + if y.Alarm? && y.slot < c then 1 else 0)
            && (forall y: Source | y.Alarm? :: r.stale[y] == s.stale[y])
            && (r == s || r.n > s.n) && (forall i | i < c && i in s.l.alarms :: r.n > s.n)
    decreases c
  {
    hide WellFormed, Missing, Dispatch;
    if c > 0 {
      var t := Alarms(s, c - 1, h);
      AlarmsAccounted(s, c - 1, h);
      if c - 1 in t.l.alarms {
        DispatchAccounted(t, Alarm(c - 1), h);
        StaleOnlyOf(t, Alarm(c - 1), h);
        Then(s, t, Alarms(s, c, h));
      }
    } else {
      Idle(s, s);
    }
  }

  lemma StaleOnlyOf(s: State, x: Source, h: Handlers)
    requires s.inInterrupt
    ensures forall y: Source | y != x :: Dispatch(s, x, h).stale[y] == s.stale[y]
  {
    hide DoAll;
    DoAllAccounted(Take(s, x), h(s.n), h);
  }

  /** One pass: every line pending when it began is dispatched exactly once, no other cause or channel
      is, an alarm at most once; and if anything was pending, something was dispatched. */
  lemma PassAccounted(s: State, h: Handlers)
    requires s.inInterrupt && WellFormed(s.l)
    ensures var r := Pass(s, h);
            && Accounted(s, r) && WellFormed(r.l) && (Pending(s.l) ==> r.n > s.n)
            && (forall c: nat | c < CAUSES ::
                  Dispatches(r, Cause(c)) == Dispatches(s, Cause(c)) + if c in s.l.istat * s.l.imask then 1 else 0)
            && (forall c: nat | c < CHANNELS ::
                  Dispatches(r, Channel(c)) == Dispatches(s, Channel(c)) + if c in s.l.dstat * s.l.dmask then 1 else 0)
            && (forall i: nat :: Dispatches(s, Alarm(i)) <= Dispatches(r, Alarm(i)) <= Dispatches(s, Alarm(i)) + 1)
  {
    hide WellFormed, Missing, Causes, Channels, Alarms;
    var ipend, dpend := s.l.istat * s.l.imask, s.l.dstat * s.l.dmask;
    var s1 := Causes(s, ipend, CAUSES, h);
    var s2 := Channels(s1, dpend, CHANNELS, h);
    CausesAccounted(s, ipend, CAUSES, h);
    ChannelsAccounted(s1, dpend, CHANNELS, h);
    Then(s, s1, s2);
    AlarmsAccounted(s2, ALARMS, h);
    Then(s, s2, Alarms(s2, ALARMS, h));
    if Pending(s.l) { SomethingServed(s, h); }
  }

  lemma SomethingServed(s: State, h: Handlers)
    requires s.inInterrupt && WellFormed(s.l) && Pending(s.l)
    ensures Pass(s, h).n > s.n
  {
    hide Missing, Causes, Channels, Alarms;
    var ipend, dpend := s.l.istat * s.l.imask, s.l.dstat * s.l.dmask;
    var s1 := Causes(s, ipend, CAUSES, h);
    var s2 := Channels(s1, dpend, CHANNELS, h);
    CausesAccounted(s, ipend, CAUSES, h);
    ChannelsAccounted(s1, dpend, CHANNELS, h);
    AlarmsAccounted(s2, ALARMS, h);
    if ipend != {} {
      var c :| c in ipend;
      assert c in s.l.istat;
    } else if dpend != {} {
      var c :| c in dpend;
      assert c in s.l.dstat;
    } else {
      NoCauses(s, CAUSES, h);
      NoChannels(s, CHANNELS, h);
      var i :| i in s.l.alarms;
      assert s2 == s && i < ALARMS;
    }
  }

  lemma {:induction false} NoCauses(s: State, c: nat, h: Handlers)
    requires s.inInterrupt
    ensures Causes(s, {}, c, h) == s
    decreases c
  {
    if c > 0 { NoCauses(s, c - 1, h); }
  }

  lemma {:induction false} NoChannels(s: State, c: nat, h: Handlers)
    requires s.inInterrupt
    ensures Channels(s, {}, c, h) == s
    decreases c
  {
    if c > 0 { NoChannels(s, c - 1, h); }
  }

  // ---- Whole deliveries ------------------------------------------------------------

  lemma {:induction false} PassesAccounted(s: State, guard: nat, h: Handlers)
    requires s.inInterrupt && WellFormed(s.l) && guard <= PASSES
    ensures var r := Passes(s, guard, h);
            && Accounted(s, r) && WellFormed(r.l) && (Pending(r.l) ==> r.n >= s.n + (PASSES - guard))
    decreases PASSES - guard
  {
    hide WellFormed, Missing, Pass;
    if guard < PASSES && Pending(s.l) {
      PassAccounted(s, h);
      PassesAccounted(Pass(s, h), guard + 1, h);
      Then(s, Pass(s, h), Passes(s, guard, h));
    } else {
      Idle(s, s);
    }
  }

  /** Passes run, from pass number `guard` on. */
  function PassCount(s: State, guard: nat, h: Handlers): nat
    requires s.inInterrupt
    decreases PASSES - guard
  {
    if guard >= PASSES || !Pending(s.l) then 0 else 1 + PassCount(Pass(s, h), guard + 1, h)
  }

  /** The state after k passes. */
  function AfterPasses(s: State, k: nat, h: Handlers): (r: State)
    requires s.inInterrupt
    ensures r.inInterrupt
    decreases k
  {
    if k == 0 then s else AfterPasses(Pass(s, h), k - 1, h)
  }

  /** A delivery is so many passes, 64 at most, and stops short of that only with nothing pending; before
      each of them something was pending. */
  lemma {:induction false} PassesAre(s: State, guard: nat, h: Handlers)
    requires s.inInterrupt && guard <= PASSES
    ensures var k := PassCount(s, guard, h);
            && k <= PASSES - guard && Passes(s, guard, h) == AfterPasses(s, k, h)
            && (k < PASSES - guard ==> !Pending(AfterPasses(s, k, h).l))
            && forall j | 0 <= j < k :: Pending(AfterPasses(s, j, h).l)
    decreases PASSES - guard
  {
    hide Pass, Pending;
    if guard < PASSES && Pending(s.l) {
      PassesAre(Pass(s, h), guard + 1, h);
      var k := PassCount(s, guard, h);
      forall j | 0 <= j < k ensures Pending(AfterPasses(s, j, h).l) {
        if j > 0 { assert AfterPasses(s, j, h) == AfterPasses(Pass(s, h), j - 1, h); }
      }
    }
  }

  /** A delivery does nothing in a handler, with interrupts off or with nothing pending; otherwise it
      ends with nothing pending, or after 64 passes each of which served something. */
  lemma DeliveryEnds(s: State, h: Handlers)
    requires WellFormed(s.l)
    ensures var r := DeliverAll(s, h);
            && Accounted(s, r) && WellFormed(r.l)
            && (s.inInterrupt || !s.eie || !Pending(s.l) ==> r == s)
            && (!s.inInterrupt && s.eie && Pending(s.l) ==> r.n > s.n && (!Pending(r.l) || r.n >= s.n + PASSES))
  {
    hide WellFormed, Missing, Passes;
    if s.inInterrupt || !s.eie || !Pending(s.l) {
      Idle(s, s);
    } else {
      var s1 := s.(inInterrupt := true);
      PassesAccounted(s1, 0, h);
      SameLines(s, s1, DeliverAll(s, h), Passes(s1, 0, h));
      if !Pending(Passes(s1, 0, h).l) { FirstPassServes(s1, h); }
    }
  }

  lemma FirstPassServes(s: State, h: Handlers)
    requires s.inInterrupt && WellFormed(s.l) && Pending(s.l)
    ensures Passes(s, 0, h).n > s.n
  {
    hide WellFormed, Missing, Pass;
    PassAccounted(s, h);
    PassesAccounted(Pass(s, h), 1, h);
  }

  lemma SameLines(a: State, a1: State, b: State, b1: State)
    requires a1 == a.(inInterrupt := true) && b == b1.(inInterrupt := a.inInterrupt) && Accounted(a1, b1)
    ensures Accounted(a, b)
  {
    forall x: Source ensures Step(a, b, x) { assert Step(a1, b1, x); }
  }

  // ---- Runs --------------------------------------------------------------------------

  /** Thread and device actions outside handlers, each with whatever handlers are then installed. */
  function Run(s: State, acts: seq<(Act, Handlers)>): State
    decreases |acts|
  {
    if acts == [] then s else Run(Do(s, acts[0].0, acts[0].1), acts[1..])
  }

  const QUIET :=
    State(IntcLines.Lines({}, {}, {}, {}, {}), true, false, 0, multiset{}, multiset{}, multiset{}, multiset{})

  lemma {:induction false} RunAccounted(s: State, acts: seq<(Act, Handlers)>)
    requires WellFormed(s.l)
    ensures Accounted(s, Run(s, acts)) && WellFormed(Run(s, acts).l)
    decreases |acts|
  {
    hide WellFormed, Missing, Plain, DeliverAll;
    if acts == [] {
      Idle(s, s);
    } else {
      var (a, h) := acts[0];
      var s1 := Plain(s, a);
      PlainAccounted(s, a);
      DeliveryEnds(s1, h);
      if DeliveryPoint(a) { Then(s, s1, Do(s, a, h)); }
      RunAccounted(Do(s, a, h), acts[1..]);
      Then(s, Do(s, a, h), Run(s, acts));
    }
  }

  /** From reset, for every line: the times it went up are the dispatches that took it down, plus the
      acknowledgements that did, plus one if it is up now. */
  lemma NothingLostOrRepeated(acts: seq<(Act, Handlers)>, x: Source)
    ensures var r := Run(QUIET, acts); r.sets[x] == r.served[x] + r.acked[x] + (if Up(r.l, x) then 1 else 0)
  {
    hide Run;
    RunAccounted(QUIET, acts);
    assert Step(QUIET, Run(QUIET, acts), x);
  }

  // ---- What one pass does to one line -------------------------------------------------

  /** A line raised again while it is being served, and not acknowledged, is still pending after the
      pass: its own handler's raise waits for the next one. */
  lemma ReraiseStaysPending(s: State, c: nat, h: Handlers)
    requires s.inInterrupt && WellFormed(s.l) && c in s.l.istat * s.l.imask
    requires Pass(s, h).sets[Cause(c)] > s.sets[Cause(c)] && Pass(s, h).acked[Cause(c)] == s.acked[Cause(c)]
    ensures c in Pass(s, h).l.istat
  {
    hide Pass;
    PassAccounted(s, h);
    assert Step(s, Pass(s, h), Cause(c));
  }

  /** What an action does to a line: it sets it, takes it down, or leaves it. */
  datatype Touch = Sets | Clears | Leaves

  function TouchOf(a: Act, x: Source): Touch {
    match a
    case Raise(c) => if 0 <= c < CAUSES && x == Cause(c) then Sets else Leaves
    case DmacRaise(ch) => if 0 <= ch < CHANNELS && x == Channel(ch) then Sets else Leaves
    case AlarmDue(i) => if i < ALARMS && x == Alarm(i) then Sets else Leaves
    case WriteIStat(v) => if x.Cause? && x.c in v then Clears else Leaves
    case WriteDStat(v) => if x.Channel? && x.ch in v && x.ch < 16 then Clears else Leaves
    case AlarmGone(i) => if x == Alarm(i) then Clears else Leaves
    case _ => Leaves
  }

  /** What the last of the actions that touches the line does to it. */
  function LastTouch(acts: seq<Act>, x: Source): Touch {
    if acts == [] then Leaves
    else if LastTouch(acts[1..], x) != Leaves then LastTouch(acts[1..], x)
    else TouchOf(acts[0], x)
  }

  predicate After(up: bool, t: Touch) {
    t == Sets || (up && t == Leaves)
  }

  /** What the handlers of dispatches n to n + k - 1 do, in order. */
  function HandlerActs(h: Handlers, n: nat, k: nat): seq<Act> {
    if k == 0 then [] else HandlerActs(h, n, k - 1) + h(n + k - 1)
  }

  /** Pending numbers below c: the dispatches that come before c's. */
  function Before(pend: set<nat>, c: nat): nat {
    if c == 0 then 0 else Before(pend, c - 1) + if c - 1 in pend then 1 else 0
  }

  lemma PlainTouches(s: State, a: Act, x: Source)
    ensures Up(Plain(s, a).l, x) == After(Up(s.l, x), TouchOf(a, x))
  {
    hide Put, Toggle, High;
    match a
    case Raise(c) => if 0 <= c < CAUSES { PutUp(s, Cause(c), x); }
    case DmacRaise(ch) => if 0 <= ch < CHANNELS { PutUp(s, Channel(ch), x); }
    case AlarmDue(i) => if i < ALARMS { PutUp(s, Alarm(i), x); }
    case _ =>
  }

  lemma PutUp(s: State, y: Source, x: Source)
    ensures Up(Put(s, y).l, x) == (Up(s.l, x) || x == y)
  {}

  lemma {:induction false} DoAllTouches(s: State, acts: seq<Act>, h: Handlers, x: Source)
    requires s.inInterrupt
    ensures Up(DoAll(s, acts, h).l, x) == After(Up(s.l, x), LastTouch(acts, x))
    decreases |acts|
  {
    hide Plain, Up, TouchOf;
    if acts != [] {
      HandlersDoNotNest(s, acts[0], h);
      PlainTouches(s, acts[0], x);
      DoAllTouches(Do(s, acts[0], h), acts[1..], h, x);
    }
  }

  lemma {:induction false} TouchConcat(a: seq<Act>, b: seq<Act>, x: Source)
    ensures LastTouch(a + b, x) == if LastTouch(b, x) != Leaves then LastTouch(b, x) else LastTouch(a, x)
    decreases |a|
  {
    if a == [] {
      assert a + b == b;
    } else {
      TouchConcat(a[1..], b, x);
      assert (a + b)[1..] == a[1..] + b;
    }
  }

  lemma {:induction false} ActsConcat(h: Handlers, n: nat, j: nat, k: nat)
    ensures HandlerActs(h, n, j + k) == HandlerActs(h, n, j) + HandlerActs(h, n + j, k)
    decreases k
  {
    if k > 0 { ActsConcat(h, n, j, k - 1); }
  }

  /** One dispatch, for a line it does not itself take down. */
  lemma DispatchTouches(s: State, y: Source, h: Handlers, x: Source)
    requires s.inInterrupt && y != x
    ensures Dispatch(s, y, h).n == s.n + 1
    ensures Up(Dispatch(s, y, h).l, x) == After(Up(s.l, x), LastTouch(h(s.n), x))
  {
    DoAllTouches(Take(s, y), h(s.n), h, x);
    DoAllAccounted(Take(s, y), h(s.n), h);
    DownOther(s.l, y, x);
    hide DoAll, Up, SetDown, LastTouch, Accounted;
  }

  lemma {:induction false} CausesTouch(s: State, ipend: set<nat>, c: nat, h: Handlers, x: Source)
    requires s.inInterrupt && (x.Cause? ==> c <= x.c)
    ensures var t, k := Causes(s, ipend, c, h), Before(ipend, c);
            t.n == s.n + k && Up(t.l, x) == After(Up(s.l, x), LastTouch(HandlerActs(h, s.n, k), x))
    decreases c
  {
    hide Dispatch, Up, LastTouch;
    NoTouch(x);
    if c > 0 {
      CausesTouch(s, ipend, c - 1, h, x);
      if c - 1 in ipend {
        var t, k := Causes(s, ipend, c - 1, h), Before(ipend, c - 1);
        DispatchTouches(t, Cause(c - 1), h, x);
        TouchConcat(HandlerActs(h, s.n, k), h(s.n + k), x);
      }
    }
  }

  lemma {:induction false} ChannelsTouch(s: State, dpend: set<nat>, c: nat, h: Handlers, x: Source)
    requires s.inInterrupt && (x.Channel? ==> c <= x.ch)
    ensures var t, k := Channels(s, dpend, c, h), Before(dpend, c);
            t.n == s.n + k && Up(t.l, x) == After(Up(s.l, x), LastTouch(HandlerActs(h, s.n, k), x))
    decreases c
  {
    hide Dispatch, Up, LastTouch;
    NoTouch(x);
    if c > 0 {
      ChannelsTouch(s, dpend, c - 1, h, x);
      if c - 1 in dpend {
        var t, k := Channels(s, dpend, c - 1, h), Before(dpend, c - 1);
        DispatchTouches(t, Channel(c - 1), h, x);
        TouchConcat(HandlerActs(h, s.n, k), h(s.n + k), x);
      }
    }
  }

  lemma NoTouch(x: Source)
    ensures LastTouch([], x) == Leaves
  {}

  /** The causes are looked up once per pass, so a handler that acknowledges a later line does not
      stop its dispatch. A pending cause's dispatch finds the line already down if and only if, of what the
      handlers dispatched before it in the pass do, the last thing that touches the line is an
      acknowledgement of it. */
  lemma StaleIff(s: State, c: nat, h: Handlers)
    requires s.inInterrupt && WellFormed(s.l) && c in s.l.istat * s.l.imask
    ensures var x, acts := Cause(c), HandlerActs(h, s.n, Before(s.l.istat * s.l.imask, c));
            Pass(s, h).stale[x] == s.stale[x] + if LastTouch(acts, x) == Clears then 1 else 0
  {
    hide Pass, Missing, LastTouch, Before, HandlerActs;
    StaleAtTurn(s, c, h);
    CausesTouch(s, s.l.istat * s.l.imask, c, h, Cause(c));
  }

  /** The same for DMAC channels, which come after all the causes. */
  lemma ChannelStaleIff(s: State, ch: nat, h: Handlers)
    requires s.inInterrupt && WellFormed(s.l) && ch in s.l.dstat * s.l.dmask
    ensures var x, k := Channel(ch), Before(s.l.istat * s.l.imask, CAUSES) + Before(s.l.dstat * s.l.dmask, ch);
            Pass(s, h).stale[x] == s.stale[x] + if LastTouch(HandlerActs(h, s.n, k), x) == Clears then 1 else 0
  {
    hide Pass, Missing, LastTouch, Before, HandlerActs, Causes, Channels;
    var ipend, dpend, x := s.l.istat * s.l.imask, s.l.dstat * s.l.dmask, Channel(ch);
    var s1 := Causes(s, ipend, CAUSES, h);
    var j, k := Before(ipend, CAUSES), Before(dpend, ch);
    ChannelStaleAtTurn(s, ch, h);
    CausesTouch(s, ipend, CAUSES, h, x);
    ChannelsTouch(s1, dpend, ch, h, x);
    ActsConcat(h, s.n, j, k);
    TouchConcat(HandlerActs(h, s.n, j), HandlerActs(h, s.n + j, k), x);
  }

  /** A pending cause is dispatched stale exactly if it is down when its turn comes. */
  lemma StaleAtTurn(s: State, c: nat, h: Handlers)
    requires s.inInterrupt && WellFormed(s.l) && c in s.l.istat * s.l.imask
    ensures var x, t := Cause(c), Causes(s, s.l.istat * s.l.imask, c, h);
            Pass(s, h).stale[x] == s.stale[x] + 1 - Bit(t.l, x)
  {
    hide Pass, Missing, Alarms, Channels, Dispatch;
    var ipend := s.l.istat * s.l.imask;
    var x, t := Cause(c), Causes(s, ipend, c, h);
    DispatchAccounted(t, x, h);
    assert Causes(s, ipend, c + 1, h) == Dispatch(t, x, h);
    OthersLeaveStale(s, ipend, c, CAUSES, h);
    CausesLeaveStaleBefore(s, ipend, c, h);
    RestLeaveStale(s, c, h);
  }

  lemma ChannelStaleAtTurn(s: State, ch: nat, h: Handlers)
    requires s.inInterrupt && WellFormed(s.l) && ch in s.l.dstat * s.l.dmask
    ensures var x, s1 := Channel(ch), Causes(s, s.l.istat * s.l.imask, CAUSES, h);
            var t := Channels(s1, s.l.dstat * s.l.dmask, ch, h);
            Pass(s, h).stale[x] == s.stale[x] + 1 - Bit(t.l, x)
  {
    hide Missing, Alarms, Causes, Dispatch, Accounted;
    var ipend, dpend, x := s.l.istat * s.l.imask, s.l.dstat * s.l.dmask, Channel(ch);
    var s1 := Causes(s, ipend, CAUSES, h);
    var t := Channels(s1, dpend, ch, h);
    var s2 := Channels(s1, dpend, CHANNELS, h);
    CausesAccounted(s, ipend, CAUSES, h);
    NoStale(s, s1, x);
    ChannelsAccounted(s1, dpend, ch, h);
    NoStale(s1, t, x);
    DispatchAccounted(t, x, h);
    assert Channels(s1, dpend, ch + 1, h) == Dispatch(t, x, h);
    LaterChannelsLeaveStale(s1, dpend, ch, CHANNELS, h);
    AlarmsAccounted(s2, ALARMS, h);
    NoStale(s2, Alarms(s2, ALARMS, h), x);
  }

  lemma {:induction false} LaterChannelsLeaveStale(s: State, dpend: set<nat>, c: nat, d: nat, h: Handlers)
    requires s.inInterrupt && c < d
    ensures Channels(s, dpend, d, h).stale[Channel(c)] == Channels(s, dpend, c + 1, h).stale[Channel(c)]
    decreases d
  {
    hide Dispatch;
    if d > c + 1 {
      LaterChannelsLeaveStale(s, dpend, c, d - 1, h);
      var t := Channels(s, dpend, d - 1, h);
      if d - 1 in dpend { StaleOnlyOf(t, Channel(d - 1), h); }
    }
  }

  /** Counted: such a dispatch is stale exactly when, from the start of the pass to its turn, the line was
      acknowledged more often than it was raised. */
  lemma StaleByCounts(s: State, c: nat, h: Handlers)
    requires s.inInterrupt && WellFormed(s.l) && c in s.l.istat * s.l.imask
    ensures var x, t, r := Cause(c), Causes(s, s.l.istat * s.l.imask, c, h), Pass(s, h);
            r.stale[x] == s.stale[x] + if t.acked[x] + s.sets[x] > t.sets[x] + s.acked[x] then 1 else 0
  {
    hide Pass, Missing, Causes;
    var x, t := Cause(c), Causes(s, s.l.istat * s.l.imask, c, h);
    CausesAccounted(s, s.l.istat * s.l.imask, c, h);
    assert Step(s, t, x);
    TurnMissing(s, t, x);
    StaleAtTurn(s, c, h);
  }

  lemma TurnMissing(s: State, t: State, x: Source)
    requires Step(s, t, x) && Up(s.l, x) && t.served[x] == s.served[x]
    ensures Bit(t.l, x) == 0 <==> t.acked[x] + s.sets[x] > t.sets[x] + s.acked[x]
  {}

  lemma {:induction false} CausesLeaveStaleBefore(s: State, ipend: set<nat>, c: nat, h: Handlers)
    requires s.inInterrupt
    ensures Causes(s, ipend, c, h).stale[Cause(c)] == s.stale[Cause(c)]
  {
    CausesAccounted(s, ipend, c, h);
    assert Step(s, Causes(s, ipend, c, h), Cause(c));
  }

  lemma {:induction false} OthersLeaveStale(s: State, ipend: set<nat>, c: nat, d: nat, h: Handlers)
    requires s.inInterrupt && c < d
    ensures Causes(s, ipend, d, h).stale[Cause(c)] == Causes(s, ipend, c + 1, h).stale[Cause(c)]
    decreases d
  {
    hide Dispatch;
    if d > c + 1 {
      OthersLeaveStale(s, ipend, c, d - 1, h);
      var t := Causes(s, ipend, d - 1, h);
      if d - 1 in ipend { StaleOnlyOf(t, Cause(d - 1), h); }
    }
  }

  /** The channel and alarm loops dispatch no causes. */
  lemma RestLeaveStale(s: State, c: nat, h: Handlers)
    requires s.inInterrupt
    ensures Pass(s, h).stale[Cause(c)] == Causes(s, s.l.istat * s.l.imask, CAUSES, h).stale[Cause(c)]
  {
    hide Causes, Channels, Alarms, Accounted;
    var s1 := Causes(s, s.l.istat * s.l.imask, CAUSES, h);
    var s2 := Channels(s1, s.l.dstat * s.l.dmask, CHANNELS, h);
    ChannelsAccounted(s1, s.l.dstat * s.l.dmask, CHANNELS, h);
    AlarmsAccounted(s2, ALARMS, h);
    NoStale(s1, s2, Cause(c));
    NoStale(s2, Alarms(s2, ALARMS, h), Cause(c));
  }

  lemma NoStale(a: State, b: State, x: Source)
    requires Accounted(a, b) && Dispatches(b, x) == Dispatches(a, x)
    ensures b.stale[x] == a.stale[x] && b.served[x] == a.served[x]
  {
    assert Step(a, b, x);
  }

  /** It does happen: VB_ON and VB_OFF (causes 2 and 3) pending together, the VB_ON handler clears
      VB_OFF, and VB_OFF's handlers run all the same. */
  lemma AcknowledgedYetDispatched(s: State, h: Handlers)
    requires s == QUIET.(l := IntcLines.Lines({2, 3}, {2, 3}, {}, {}, {}), inInterrupt := true)
    requires h(0) == [WriteIStat({3})]
    ensures Pass(s, h).stale[Cause(3)] == 1
  {
    hide Pass;
    assert s.l.istat * s.l.imask == {2, 3};
    StaleIff(s, 3, h);
    assert Before({2, 3}, 1) == 0 && Before({2, 3}, 3) == 1;
    assert HandlerActs(h, 0, 0) + h(0) == h(0) && HandlerActs(h, 0, 1) == h(0);
    assert h(0)[1..] == [];
  }
}
