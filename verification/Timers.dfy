/** The four EE timers: a 16-bit count derived from the virtual clock, the predictor of the next
    interrupt, and the lazy evaluation that carries a timer forward to now. */
module Timers {

  // The source's "no deadline" value. Virtual time is assumed not to reach it.
  const NEVER: nat := 0xFFFF_FFFF_FFFF_FFFF

  datatype Timer = Timer(
    mode: bv32,
    comp: nat,
    hold: nat,
    baseVclk: nat,
    baseCount: nat,
    equf: bool,
    ovff: bool,
    lastCheck: nat)

  predicate Zret(m: bv32) { m & 0x40 != 0 }
  predicate Cue(m: bv32) { m & 0x80 != 0 }
  predicate Cmpe(m: bv32) { m & 0x100 != 0 }
  predicate Ovfe(m: bv32) { m & 0x200 != 0 }

  predicate Hblank(m: bv32) { m & 3 == 3 }

  function Prescale(m: bv32, hb: nat): (ps: nat)
    ensures hb > 0 ==> ps > 0
  {
    if Hblank(m) then hb else if m & 3 == 0 then 1 else if m & 3 == 1 then 16 else 256
  }

  /** What every reachable timer satisfies: 16-bit registers, and no base in the future. */
  predicate InRange(t: Timer, now: nat) {
    t.comp < 0x10000 && t.hold < 0x10000 && t.baseCount < 0x10000 && t.baseVclk <= now && t.lastCheck <= now
  }

  function Div(x: nat, y: nat): nat
    requires y > 0
  {
    x / y
  }

  function RawTicks(t: Timer, now: nat, hb: nat): nat
    requires hb > 0 && InRange(t, now)
  {
    if Cue(t.mode) then Div(now - t.baseVclk, Prescale(t.mode, hb)) else 0
  }

  function CountNow(t: Timer, now: nat, hb: nat): nat
    requires hb > 0 && InRange(t, now)
  {
    (t.baseCount + RawTicks(t, now, hb)) % 0x10000
  }

  /** The cycle of tick `k` of the current base. */
  function TickCycle(t: Timer, hb: nat, k: nat): nat {
    t.baseVclk + k * Prescale(t.mode, hb)
  }

  predicate AllInRange(ts: seq<Timer>, now: nat) {
    forall i | 0 <= i < |ts| :: InRange(ts[i], now)
  }

  function Wrap(n: nat): nat { n % 0x10000 }

  /** Ticks from a count of `cnt` until the count next equals `v` (1..65536). */
  function ToReach(cnt: nat, v: nat): nat {
    (v - cnt - 1) % 0x10000 + 1
  }

  function Min(a: nat, b: nat): nat { if b < a then b else a }

  /** One timer's contribution to the scan: its next compare, its next wrap, or NEVER. */
  function TimerNext(t: Timer, now: nat, hb: nat): nat
    requires hb > 0 && InRange(t, now)
  {
    if !Cue(t.mode) then NEVER else
    var ticks := RawTicks(t, now, hb);
    var cnt := (t.baseCount + ticks) % 0x10000;
    var cmp := if Cmpe(t.mode) then TickCycle(t, hb, ticks + ToReach(cnt, t.comp)) else NEVER;
    var ovf := if Ovfe(t.mode) then TickCycle(t, hb, ticks + (0x10000 - cnt)) else NEVER;
    Min(Min(NEVER, cmp), ovf)
  }

  function NextEvent(ts: seq<Timer>, now: nat, hb: nat): nat
    requires hb > 0 && AllInRange(ts, now)
  {
    if ts == [] then NEVER
    else Min(NextEvent(ts[..|ts| - 1], now, hb), TimerNext(ts[|ts| - 1], now, hb))
  }

  // ---- What a compare or a wrap is, independently of the scan ---------------

  /** The count is `v` just after tick `k` of the current base. */
  predicate Reaches(t: Timer, k: nat, v: nat) {
    k >= 1 && (t.baseCount + k) % 0x10000 == v
  }

  predicate EventTick(t: Timer, k: nat) {
    (Cmpe(t.mode) && Reaches(t, k, t.comp)) || (Ovfe(t.mode) && Reaches(t, k, 0))
  }

  /** An armed compare or wrap of a counting timer happens exactly at cycle `c`. */
  ghost predicate FiresAt(t: Timer, hb: nat, c: nat) {
    Cue(t.mode) && exists k: nat :: EventTick(t, k) && TickCycle(t, hb, k) == c
  }

  lemma TickBound(ps: nat, x: nat, k: nat)
    requires ps > 0
    ensures k * ps <= x <==> k <= Div(x, ps)
  {
    var q := Div(x, ps);
    assert q * ps <= x < q * ps + ps;
    if k <= q { MulMono(k, q, ps); } else { MulMono(q + 1, k, ps); assert (q + 1) * ps == q * ps + ps; }
  }

  lemma MulMono(a: nat, b: nat, c: nat)
    requires a <= b
    ensures a * c <= b * c
  {}

  lemma MulStrict(a: nat, b: nat, c: nat)
    requires c > 0
    ensures a * c < b * c <==> a < b
  {
    if a < b { MulMono(a + 1, b, c); assert (a + 1) * c == a * c + c; } else { MulMono(b, a, c); }
  }

  /** The modular distance that both the scan and the lazy evaluation use reaches `v`, and no
      shorter distance does. */
  lemma ToReachLeast(cnt: nat, v: nat, d: nat)
    requires cnt < 0x10000 && v < 0x10000 && 1 <= d <= ToReach(cnt, v)
    ensures 1 <= ToReach(cnt, v) <= 0x10000
    ensures Wrap(cnt + d) == v <==> d == ToReach(cnt, v)
  {}

  /** ToReach relative to a tick `p` of timer `t` finds the first tick after `p` at which the count is `v`. */
  lemma FirstReach(t: Timer, p: nat, v: nat)
    requires t.baseCount < 0x10000 && v < 0x10000
    ensures var d := ToReach((t.baseCount + p) % 0x10000, v);
            1 <= d <= 0x10000 && Reaches(t, p + d, v) && forall k :: p < k < p + d ==> !Reaches(t, k, v)
  {
    var c := (t.baseCount + p) % 0x10000;
    var d := ToReach(c, v);
    ToReachLeast(c, v, d);
    WrapSum(t.baseCount + p, d);
    forall k | p < k < p + d ensures !Reaches(t, k, v) {
      ToReachLeast(c, v, k - p);
      WrapSum(t.baseCount + p, k - p);
    }
  }

  lemma WrapSum(a: nat, b: nat)
    ensures Wrap(a % 0x10000 + b) == Wrap(a + b)
  {}

  lemma TickAfter(t: Timer, now: nat, hb: nat, k: nat)
    requires hb > 0 && InRange(t, now) && Cue(t.mode)
    ensures TickCycle(t, hb, k) > now <==> k > RawTicks(t, now, hb)
  {
    TickBound(Prescale(t.mode, hb), now - t.baseVclk, k);
  }

  lemma TickOrder(t: Timer, hb: nat, j: nat, k: nat)
    requires hb > 0
    ensures TickCycle(t, hb, j) < TickCycle(t, hb, k) <==> j < k
  {
    MulStrict(j, k, Prescale(t.mode, hb));
  }

  lemma ToWrap(cnt: nat)
    requires cnt < 0x10000
    ensures ToReach(cnt, 0) == 0x10000 - cnt
  {}

  lemma TimerNextExact(t: Timer, now: nat, hb: nat)
    requires hb > 0 && InRange(t, now) && now < NEVER
    ensures now < TimerNext(t, now, hb) <= NEVER
    ensures TimerNext(t, now, hb) < NEVER ==> FiresAt(t, hb, TimerNext(t, now, hb))
    ensures forall c :: now < c < TimerNext(t, now, hb) ==> !FiresAt(t, hb, c)
  {
    if Cue(t.mode) {
      hide Reaches, ToReach, RawTicks, Prescale;
      var n := TimerNext(t, now, hb);
      var p := RawTicks(t, now, hb);
      var cnt := (t.baseCount + p) % 0x10000;
      FirstReach(t, p, t.comp);
      FirstReach(t, p, 0);
      ToWrap(cnt);
      var kc, ko := p + ToReach(cnt, t.comp), p + ToReach(cnt, 0);
      TickAfter(t, now, hb, kc);
      TickAfter(t, now, hb, ko);
      assert Cmpe(t.mode) ==> EventTick(t, kc);
      assert Ovfe(t.mode) ==> EventTick(t, ko);
      assert Cmpe(t.mode) ==> n <= TickCycle(t, hb, kc);
      assert Ovfe(t.mode) ==> n <= TickCycle(t, hb, ko);
      assert n < NEVER ==> (Cmpe(t.mode) && n == TickCycle(t, hb, kc)) || (Ovfe(t.mode) && n == TickCycle(t, hb, ko));
      forall c | now < c < n ensures !FiresAt(t, hb, c) {
        if FiresAt(t, hb, c) {
          var k: nat :| EventTick(t, k) && TickCycle(t, hb, k) == c;
          TickAfter(t, now, hb, k);
          TickOrder(t, hb, k, kc);
          TickOrder(t, hb, k, ko);
        }
      }
    }
  }

  /** The predictor is exact: it names the least cycle after now at which any armed timer fires. */
  lemma {:induction false} NextEventExact(ts: seq<Timer>, now: nat, hb: nat)
    requires hb > 0 && now < NEVER && AllInRange(ts, now)
    ensures now < NextEvent(ts, now, hb) <= NEVER
    ensures NextEvent(ts, now, hb) < NEVER ==> exists t :: t in ts && FiresAt(t, hb, NextEvent(ts, now, hb))
    ensures forall t, c :: t in ts && now < c < NextEvent(ts, now, hb) ==> !FiresAt(t, hb, c)
  {
    if ts != [] {
      var last := ts[|ts| - 1];
      NextEventExact(ts[..|ts| - 1], now, hb);
      TimerNextExact(last, now, hb);
      forall t, c | t in ts && now < c < NextEvent(ts, now, hb) ensures !FiresAt(t, hb, c) {
        if t in ts[..|ts| - 1] {} else { assert t == last; }
      }
    }
  }

  /** ... and stays what it was until that cycle, which is what makes remembering it sound. */
  lemma NextEventStable(ts: seq<Timer>, now: nat, later: nat, hb: nat)
    requires hb > 0 && AllInRange(ts, now)
    requires now <= later < NextEvent(ts, now, hb) && now < NEVER && later < NEVER
    ensures NextEvent(ts, later, hb) == NextEvent(ts, now, hb)
  {
    NextEventExact(ts, now, hb);
    NextEventExact(ts, later, hb);
  }

  // ---- Lazy evaluation -----------------------------------------------------

  /** Result of carrying one timer forward: the timer, whether its INTC line was raised, and
      whether ZRET moved the base (which drops the predictor's memo). */
  datatype Advanced = Advanced(timer: Timer, raised: bool, rebased: bool)

  /** Ticks of the current base that the last evaluation had already seen. */
  function SeenTicks(t: Timer, hb: nat): nat
    requires hb > 0
  {
    if t.lastCheck > t.baseVclk then Div(t.lastCheck - t.baseVclk, Prescale(t.mode, hb)) else 0
  }

  lemma SeenBeforeNow(t: Timer, now: nat, hb: nat)
    requires hb > 0 && InRange(t, now) && Cue(t.mode)
    ensures SeenTicks(t, hb) <= RawTicks(t, now, hb)
  {
    if t.lastCheck > t.baseVclk {
      var ps := Prescale(t.mode, hb);
      var k := SeenTicks(t, hb);
      TickBound(ps, t.lastCheck - t.baseVclk, k);
      TickBound(ps, now - t.baseVclk, k);
    }
  }

  /** Where ZRET puts the base when it is applied `late` ticks after the compare. */
  function ResetBase(t: Timer, now: nat, hb: nat, late: nat): (base: nat)
    requires hb > 0 && InRange(t, now) && Cue(t.mode) && late <= RawTicks(t, now, hb)
    ensures t.baseVclk <= base <= now
  {
    TickBound(Prescale(t.mode, hb), now - t.baseVclk, late);
    now - late * Prescale(t.mode, hb)
  }

  function Advance(t: Timer, now: nat, hb: nat): Advanced
    requires hb > 0 && InRange(t, now)
  {
    if !Cue(t.mode) then Advanced(t.(lastCheck := now), false, false) else
    var prev := SeenTicks(t, hb);
    var cur := RawTicks(t, now, hb);
    if cur == prev then Advanced(t.(lastCheck := now), false, false) else
    SeenBeforeNow(t, now, hb);
    var span: nat := cur - prev;
    var cnt := (t.baseCount + prev) % 0x10000;
    var toComp := ToReach(cnt, t.comp);
    var toOvf := 0x10000 - cnt;
    var hit, wrap := toComp <= span, toOvf <= span;
    var reset := hit && Zret(t.mode);
    Advanced(
      t.(lastCheck := now, equf := t.equf || hit, ovff := t.ovff || wrap,
         baseVclk := if reset then ResetBase(t, now, hb, span - toComp) else t.baseVclk,
         baseCount := if reset then 0 else t.baseCount),
      (hit && Cmpe(t.mode)) || (wrap && Ovfe(t.mode)),
      reset)
  }

  /** The count passed `v` on some tick in the window (lo, hi]. */
  ghost predicate Passed(t: Timer, lo: nat, hi: nat, v: nat) {
    exists k: nat :: lo < k <= hi && Reaches(t, k, v)
  }

  lemma PassedIff(t: Timer, lo: nat, hi: nat, v: nat)
    requires t.baseCount < 0x10000 && v < 0x10000 && lo <= hi
    ensures Passed(t, lo, hi, v) <==> ToReach((t.baseCount + lo) % 0x10000, v) <= hi - lo
  {
    FirstReach(t, lo, v);
    var d := ToReach((t.baseCount + lo) % 0x10000, v);
    if d <= hi - lo { assert Reaches(t, lo + d, v); }
  }

  /** What evaluation means: every compare and wrap between the last evaluation and now is
      flagged, and the line is raised exactly when an enabled one of them happened. */
  lemma AdvanceMeaning(t: Timer, now: nat, hb: nat)
    requires hb > 0 && InRange(t, now) && Cue(t.mode)
    ensures var a := Advance(t, now, hb);
            var hit := Passed(t, SeenTicks(t, hb), RawTicks(t, now, hb), t.comp);
            var wrap := Passed(t, SeenTicks(t, hb), RawTicks(t, now, hb), 0);
            && SeenTicks(t, hb) <= RawTicks(t, now, hb)
            && (a.timer.equf <==> t.equf || hit)
            && (a.timer.ovff <==> t.ovff || wrap)
            && (a.raised <==> (hit && Cmpe(t.mode)) || (wrap && Ovfe(t.mode)))
            && (a.rebased <==> hit && Zret(t.mode))
            && InRange(a.timer, now) && a.timer.lastCheck == now
            && a.timer == t.(lastCheck := now, equf := a.timer.equf, ovff := a.timer.ovff,
                             baseVclk := a.timer.baseVclk, baseCount := a.timer.baseCount)
            && (!a.rebased ==> a.timer.baseVclk == t.baseVclk && a.timer.baseCount == t.baseCount)
  {
    SeenBeforeNow(t, now, hb);
    PassedIff(t, SeenTicks(t, hb), RawTicks(t, now, hb), t.comp);
    PassedIff(t, SeenTicks(t, hb), RawTicks(t, now, hb), 0);
    var cnt := (t.baseCount + SeenTicks(t, hb)) % 0x10000;
    assert ToReach(cnt, 0) == 0x10000 - cnt;
  }

  /** Lazy evaluation is transparent: without ZRET, evaluating at t1 and again at t2 leaves the
      timer exactly as evaluating once at t2 does, and the same line raises come out. */
  lemma LazyTransparent(t: Timer, t1: nat, t2: nat, hb: nat)
    requires hb > 0 && t1 <= t2 && InRange(t, t1) && !Zret(t.mode)
    ensures var a1 := Advance(t, t1, hb);
            InRange(a1.timer, t2) && InRange(t, t2)
            && Advance(a1.timer, t2, hb).timer == Advance(t, t2, hb).timer
            && (a1.raised || Advance(a1.timer, t2, hb).raised <==> Advance(t, t2, hb).raised)
  {
    hide Advance, Passed, SeenTicks, RawTicks, CountNow;
    if Cue(t.mode) {
      var a1 := Advance(t, t1, hb);
      AdvanceMeaning(t, t1, hb);
      AdvanceMeaning(t, t2, hb);
      AdvanceMeaning(a1.timer, t2, hb);
      SeenIsRaw(t, a1.timer, t1, t2, hb);
      PassedSplit(t, a1.timer, SeenTicks(t, hb), RawTicks(t, t1, hb), RawTicks(t, t2, hb), t.comp);
      PassedSplit(t, a1.timer, SeenTicks(t, hb), RawTicks(t, t1, hb), RawTicks(t, t2, hb), 0);
    } else {
      NotCounting(t, t1, hb);
      NotCounting(t, t2, hb);
      NotCounting(t.(lastCheck := t1), t2, hb);
    }
  }

  lemma NotCounting(t: Timer, now: nat, hb: nat)
    requires hb > 0 && InRange(t, now) && !Cue(t.mode)
    ensures Advance(t, now, hb) == Advanced(t.(lastCheck := now), false, false)
  {}

  /** An evaluation at t1 that leaves the base alone has seen every tick up to t1. */
  lemma SeenIsRaw(t: Timer, u: Timer, t1: nat, t2: nat, hb: nat)
    requires hb > 0 && t1 <= t2 && InRange(t, t1) && InRange(u, t1) && Cue(t.mode)
    requires SameSchedule(t, u) && u.lastCheck == t1
    ensures SeenTicks(u, hb) == RawTicks(t, t1, hb) && RawTicks(u, t2, hb) == RawTicks(t, t2, hb)
  {
    if t.baseVclk == t1 { assert Div(0, Prescale(t.mode, hb)) == 0; }
  }

  lemma PassedSplit(t: Timer, u: Timer, lo: nat, mid: nat, hi: nat, v: nat)
    requires lo <= mid <= hi && u.baseCount == t.baseCount
    ensures Passed(t, lo, hi, v) <==> Passed(t, lo, mid, v) || Passed(u, mid, hi, v)
  {
    assert forall k :: Reaches(t, k, v) <==> Reaches(u, k, v);
  }

  // ---- Being serviced on the cycle ------------------------------------------

  /** No armed event of the timer is waiting to be noticed at `now`. */
  ghost predicate CaughtUp(t: Timer, now: nat, hb: nat)
    requires hb > 0 && InRange(t, now)
  {
    Cue(t.mode) ==> forall k: nat :: SeenTicks(t, hb) < k <= RawTicks(t, now, hb) ==> !EventTick(t, k)
  }

  lemma AdvancedCaughtUp(t: Timer, now: nat, hb: nat)
    requires hb > 0 && InRange(t, now)
    ensures InRange(Advance(t, now, hb).timer, now) && CaughtUp(Advance(t, now, hb).timer, now, hb)
  {
    if Cue(t.mode) { AdvanceMeaning(t, now, hb); }
    JustChecked(Advance(t, now, hb).timer, now, hb);
  }

  lemma JustChecked(t: Timer, now: nat, hb: nat)
    requires hb > 0 && InRange(t, now) && t.lastCheck == now
    ensures CaughtUp(t, now, hb)
  {
    if Cue(t.mode) && t.baseVclk == now { TickBound(Prescale(t.mode, hb), 0, 1); }
  }

  lemma CaughtUpUntilNext(t: Timer, now: nat, later: nat, hb: nat)
    requires hb > 0 && InRange(t, now) && now <= later < TimerNext(t, now, hb) && CaughtUp(t, now, hb)
    ensures CaughtUp(t, later, hb)
  {
    TimerNextExact(t, now, hb);
    if Cue(t.mode) {
      forall k: nat | SeenTicks(t, hb) < k <= RawTicks(t, later, hb) ensures !EventTick(t, k) {
        TickAfter(t, now, hb, k);
        TickAfter(t, later, hb, k);
        if EventTick(t, k) { assert FiresAt(t, hb, TickCycle(t, hb, k)); }
      }
    }
  }

  lemma RaisedIff(t: Timer, now: nat, hb: nat)
    requires hb > 0 && InRange(t, now) && Cue(t.mode)
    ensures Advance(t, now, hb).raised <==>
            exists k: nat :: SeenTicks(t, hb) < k <= RawTicks(t, now, hb) && EventTick(t, k)
  {
    AdvanceMeaning(t, now, hb);
    if Advance(t, now, hb).raised {
      if Cmpe(t.mode) && Passed(t, SeenTicks(t, hb), RawTicks(t, now, hb), t.comp) {
        var k: nat :| SeenTicks(t, hb) < k <= RawTicks(t, now, hb) && Reaches(t, k, t.comp);
        assert EventTick(t, k);
      } else {
        var k: nat :| SeenTicks(t, hb) < k <= RawTicks(t, now, hb) && Reaches(t, k, 0);
        assert EventTick(t, k);
      }
    }
  }

  /** For a caught-up timer, whatever an evaluation at its next event notices happens there. */
  lemma NoticedOnCycle(t: Timer, now: nat, c: nat, hb: nat, k: nat)
    requires hb > 0 && InRange(t, now) && CaughtUp(t, now, hb) && Cue(t.mode)
    requires now < c <= TimerNext(t, now, hb) && now < NEVER
    ensures EventTick(t, k) ==>
              (SeenTicks(t, hb) < k <= RawTicks(t, c, hb) <==> TickCycle(t, hb, k) == c)
  {
    TimerNextExact(t, now, hb);
    TickAfter(t, now, hb, k);
    TickAfter(t, c, hb, k);
    SeenBeforeNow(t, now, hb);
    if EventTick(t, k) && TickCycle(t, hb, k) < c {
      assert FiresAt(t, hb, TickCycle(t, hb, k));
    }
  }

  /** A caught-up timer evaluated no later than its next event raises its line on exactly the
      cycle at which an armed compare or wrap happens. */
  lemma ServicedExactly(t: Timer, now: nat, c: nat, hb: nat)
    requires hb > 0 && InRange(t, now) && CaughtUp(t, now, hb)
    requires now < c <= TimerNext(t, now, hb) && now < NEVER
    ensures Advance(t, c, hb).raised <==> FiresAt(t, hb, c)
    ensures InRange(Advance(t, c, hb).timer, c) && CaughtUp(Advance(t, c, hb).timer, c, hb)
  {
    AdvancedCaughtUp(t, c, hb);
    hide CaughtUp;
    if Cue(t.mode) {
      RaisedIff(t, c, hb);
      forall k: nat ensures EventTick(t, k) ==>
              (SeenTicks(t, hb) < k <= RawTicks(t, c, hb) <==> TickCycle(t, hb, k) == c) {
        NoticedOnCycle(t, now, c, hb, k);
      }
    }
  }

  lemma RebasedWhere(t: Timer, now: nat, hb: nat) returns (k: nat)
    requires hb > 0 && InRange(t, now) && Cue(t.mode) && Advance(t, now, hb).rebased
    ensures Reaches(t, k, t.comp) && SeenTicks(t, hb) < k <= RawTicks(t, now, hb)
    ensures Advance(t, now, hb).timer.baseCount == 0
    ensures Advance(t, now, hb).timer.baseVclk == ResetBase(t, now, hb, RawTicks(t, now, hb) - k)
  {
    SeenBeforeNow(t, now, hb);
    var p := SeenTicks(t, hb);
    FirstReach(t, p, t.comp);
    k := p + ToReach((t.baseCount + p) % 0x10000, t.comp);
  }

  /** A ZRET timer that also has CMPE and is serviced on the cycle of its compare restarts from
      that very cycle. */
  lemma ResetOnCycle(t: Timer, now: nat, c: nat, hb: nat)
    requires hb > 0 && InRange(t, now) && CaughtUp(t, now, hb)
    requires now < c <= TimerNext(t, now, hb) && now < NEVER
    requires Cue(t.mode) && Zret(t.mode) && Cmpe(t.mode) && Advance(t, c, hb).rebased
    ensures Advance(t, c, hb).timer.baseVclk == c && Advance(t, c, hb).timer.baseCount == 0
  {
    var k := RebasedWhere(t, c, hb);
    NoticedOnCycle(t, now, c, hb, k);
    OnTime(t, c, hb, k);
  }

  lemma OnTime(t: Timer, c: nat, hb: nat, k: nat)
    requires hb > 0 && InRange(t, c) && Cue(t.mode) && TickCycle(t, hb, k) == c
    ensures RawTicks(t, c, hb) == k && ResetBase(t, c, hb, 0) == c
  {
    var q := RawTicks(t, c, hb);
    TickAfter(t, c, hb, q);
    TickAfter(t, c, hb, k);
    TickOrder(t, hb, k, q);
  }

  /** Distance between successive compares of a ZRET timer, in cycles. */
  function Period(t: Timer, hb: nat): nat {
    (if t.comp == 0 then 0x10000 else t.comp) * Prescale(t.mode, hb)
  }

  ghost predicate Periodic(t: Timer) {
    Cue(t.mode) && Zret(t.mode) && Cmpe(t.mode) && t.baseCount == 0
  }

  lemma PeriodIsFirst(t: Timer, hb: nat, c: nat)
    requires hb > 0 && InRange(t, t.baseVclk + t.lastCheck) && Periodic(t)
    ensures FiresAt(t, hb, t.baseVclk + Period(t, hb))
    ensures FiresAt(t, hb, c) ==> t.baseVclk + Period(t, hb) <= c
  {
    var n := if t.comp == 0 then 0x10000 else t.comp;
    assert TickCycle(t, hb, n) == t.baseVclk + Period(t, hb);
    assert EventTick(t, n);
    if FiresAt(t, hb, c) {
      var k: nat :| EventTick(t, k) && TickCycle(t, hb, k) == c;
      assert k >= n;
      TickOrder(t, hb, k, n);
    }
  }

  /** From a reset, the next event of a ZRET + CMPE timer is exactly one period after the base. */
  lemma PeriodicNext(t: Timer, now: nat, hb: nat)
    requires hb > 0 && InRange(t, now) && Periodic(t) && now < NEVER
    requires now < t.baseVclk + Period(t, hb)
    ensures TimerNext(t, now, hb) == Min(NEVER, t.baseVclk + Period(t, hb))
  {
    TimerNextExact(t, now, hb);
    PeriodIsFirst(t, hb, TimerNext(t, now, hb));
  }

  /** Evaluating a periodic timer at or before its next compare: on the compare it restarts from
      that cycle and raises its line, before it nothing happens. */
  lemma PeriodicAdvance(t: Timer, now: nat, c: nat, hb: nat)
    requires hb > 0 && InRange(t, now) && Periodic(t) && CaughtUp(t, now, hb) && now < NEVER
    requires now <= c <= t.baseVclk + Period(t, hb) && c < NEVER && now < t.baseVclk + Period(t, hb)
    ensures var a := Advance(t, c, hb);
            && a.timer.mode == t.mode && a.timer.comp == t.comp && a.timer.baseCount == 0
            && a.timer.baseVclk == (if c == t.baseVclk + Period(t, hb) then c else t.baseVclk)
            && (a.raised <==> c == t.baseVclk + Period(t, hb))
  {
    hide Advance, FiresAt, EventTick, Reaches, TickCycle, Period, CaughtUp;
    PeriodicNext(t, now, hb);
    var n := CompareTick(t, hb);
    if c < t.baseVclk + Period(t, hb) {
      BeforeTheBeat(t, now, c, hb);
      Unraised(t, c, hb);
    } else {
      OnTheBeat(t, now, c, hb);
      RebasedIff(t, c, hb);
      NoticedOnCycle(t, now, c, hb, n);
      ResetOnCycle(t, now, c, hb);
    }
  }

  lemma CompareTick(t: Timer, hb: nat) returns (n: nat)
    requires Periodic(t) && t.comp < 0x10000
    ensures TickCycle(t, hb, n) == t.baseVclk + Period(t, hb) && Reaches(t, n, t.comp) && EventTick(t, n)
  {
    n := if t.comp == 0 then 0x10000 else t.comp;
  }

  lemma RebasedIff(t: Timer, now: nat, hb: nat)
    requires hb > 0 && InRange(t, now) && Cue(t.mode)
    ensures Advance(t, now, hb).rebased <==>
            Zret(t.mode) && exists k: nat :: SeenTicks(t, hb) < k <= RawTicks(t, now, hb) && Reaches(t, k, t.comp)
    ensures Advance(t, now, hb).rebased && Cmpe(t.mode) ==> Advance(t, now, hb).raised
    ensures !Advance(t, now, hb).rebased ==> Advance(t, now, hb).timer.baseVclk == t.baseVclk
                                             && Advance(t, now, hb).timer.baseCount == t.baseCount
    ensures Advance(t, now, hb).timer.mode == t.mode && Advance(t, now, hb).timer.comp == t.comp
  {
    AdvanceMeaning(t, now, hb);
  }

  // ---- Periodic timers, from whatever count they start ------------------------

  /** A counting timer that restarts on its compare and raises its line there. */
  predicate Beating(t: Timer) {
    Cue(t.mode) && Zret(t.mode) && Cmpe(t.mode)
  }

  lemma NextStays(t: Timer, now: nat, later: nat, hb: nat)
    requires hb > 0 && InRange(t, now) && now <= later < TimerNext(t, now, hb) && now < NEVER
    ensures InRange(t, later) && TimerNext(t, later, hb) == TimerNext(t, now, hb)
  {
    TimerNextExact(t, now, hb);
    TimerNextExact(t, later, hb);
  }

  /** After a wrap that is not also the compare, the compare is one period on. */
  lemma NextAfterWrap(t: Timer, c: nat, hb: nat, k: nat)
    requires hb > 0 && InRange(t, c) && Beating(t) && t.comp != 0
    requires TickCycle(t, hb, k) == c && Reaches(t, k, 0)
    ensures TimerNext(t, c, hb) == Min(NEVER, c + Period(t, hb))
  {
    OnTime(t, c, hb, k);
    assert ToReach(0, t.comp) == t.comp;
    TickSum(t, hb, k, t.comp);
    TickSum(t, hb, k, 0x10000);
    MulMono(t.comp, 0x10000, Prescale(t.mode, hb));
  }

  lemma TickSum(t: Timer, hb: nat, k: nat, n: nat)
    ensures TickCycle(t, hb, k + n) == TickCycle(t, hb, k) + n * Prescale(t.mode, hb)
  {}

  lemma PeriodPositive(t: Timer, hb: nat)
    requires hb > 0
    ensures Period(t, hb) > 0
  {
    MulMono(1, if t.comp == 0 then 0x10000 else t.comp, Prescale(t.mode, hb));
  }

  /** Before its next event an evaluation of such a timer changes nothing of its schedule. */
  lemma BeforeTheBeat(t: Timer, now: nat, c: nat, hb: nat)
    requires hb > 0 && InRange(t, now) && Beating(t) && CaughtUp(t, now, hb) && now < NEVER
    requires now <= c < TimerNext(t, now, hb)
    ensures InRange(t, c) && !Advance(t, c, hb).raised && SameSchedule(t, Advance(t, c, hb).timer)
  {
    hide Advance, CaughtUp;
    CaughtUpUntilNext(t, now, c, hb);
    Unraised(t, c, hb);
    RebasedIff(t, c, hb);
  }

  lemma Unraised(t: Timer, now: nat, hb: nat)
    requires hb > 0 && InRange(t, now) && Cue(t.mode)
    ensures CaughtUp(t, now, hb) <==> !Advance(t, now, hb).raised
  {
    RaisedIff(t, now, hb);
  }

  /** On its next event the line is raised, and the one after is a whole period on: whether this one was
      the compare, from wherever the count began, or a wrap on the way to it. */
  lemma OnTheBeat(t: Timer, now: nat, c: nat, hb: nat)
    requires hb > 0 && InRange(t, now) && Beating(t) && CaughtUp(t, now, hb) && now < NEVER
    requires c == TimerNext(t, now, hb) && c < NEVER
    ensures now < c
    ensures var a := Advance(t, c, hb);
            && a.raised && InRange(a.timer, c) && a.timer.mode == t.mode && a.timer.comp == t.comp
            && TimerNext(a.timer, c, hb) == Min(NEVER, c + Period(t, hb))
  {
    hide Advance, CaughtUp, TimerNext, Period;
    TimerNextExact(t, now, hb);
    ServicedExactly(t, now, c, hb);
    RebasedIff(t, c, hb);
    PeriodCong(t, Advance(t, c, hb).timer, hb);
    PeriodPositive(t, hb);
    if Advance(t, c, hb).rebased {
      ResetOnCycle(t, now, c, hb);
      PeriodicNext(Advance(t, c, hb).timer, c, hb);
    } else {
      var k: nat :| EventTick(t, k) && TickCycle(t, hb, k) == c;
      NoticedOnCycle(t, now, c, hb, k);
      assert Reaches(t, k, 0) && t.comp != 0;
      NextAfterWrap(t, c, hb, k);
      TimerNextCong(t, Advance(t, c, hb).timer, c, hb);
    }
  }

  lemma PeriodCong(t: Timer, u: Timer, hb: nat)
    requires u.mode == t.mode && u.comp == t.comp
    ensures Period(u, hb) == Period(t, hb)
  {}

  // ---- Register writes and the video-mode hook ------------------------------

  datatype RegWrite = CountW(v: nat) | ModeW(bits: bv32) | CompW(v: nat) | HoldW(v: nat)

  /** EQUF and OVFF are write-1-to-clear; the other ten bits are stored. */
  function ModeBits(t: Timer, v: bv32): Timer {
    t.(equf := t.equf && v & 0x400 == 0, ovff := t.ovff && v & 0x800 == 0, mode := v & 0x3FF)
  }

  function WriteReg(t: Timer, w: RegWrite, now: nat, hb: nat): (r: Timer)
    requires hb > 0 && InRange(t, now)
    ensures InRange(r, now)
  {
    match w
    case CountW(v) => t.(baseCount := v % 0x10000, baseVclk := now)
    case ModeW(v) =>
      var u := ModeBits(t, v);
      u.(baseCount := CountNow(u, now, hb), baseVclk := now, lastCheck := now)
    case CompW(v) => t.(comp := v % 0x10000)
    case HoldW(v) => t.(hold := v % 0x10000)
  }

  /** A register reads back what was just written to it, and the read raises nothing: COUNT and COMP as
      16 bits, MODE as its ten control bits with each flag kept unless a 1 was written to it. */
  lemma WriteThenRead(t: Timer, w: RegWrite, now: nat, hb: nat)
    requires hb > 0 && InRange(t, now)
    ensures var a := Advance(WriteReg(t, w, now, hb), now, hb);
            && (w.CountW? ==> CountNow(a.timer, now, hb) == w.v % 0x10000 && !a.raised)
            && (w.ModeW? ==> a.timer.mode == w.bits & 0x3FF && !a.raised
                             && (a.timer.equf <==> t.equf && w.bits & 0x400 == 0)
                             && (a.timer.ovff <==> t.ovff && w.bits & 0x800 == 0))
            && (w.CompW? ==> a.timer.comp == w.v % 0x10000)
  {
    var u := WriteReg(t, w, now, hb);
    if w.CountW? || w.ModeW? { NothingSince(u, now, hb); }
  }

  /** A timer based at this very cycle has not counted. */
  lemma NothingSince(u: Timer, now: nat, hb: nat)
    requires hb > 0 && InRange(u, now) && u.baseVclk == now
    ensures Advance(u, now, hb) == Advanced(u.(lastCheck := now), false, false) && RawTicks(u, now, hb) == 0
  {}

  /** The hook runs after the new line length is in force, so the count it captures is the
      elapsed span over the new length. */
  function ModeHook(t: Timer, now: nat, hbNew: nat): (r: Timer)
    requires hbNew > 0 && InRange(t, now)
    ensures InRange(r, now)
  {
    if !Hblank(t.mode) then t
    else t.(baseCount := CountNow(t, now, hbNew), baseVclk := now, lastCheck := now)
  }

  /** COUNT across a video mode change: BUSCLK timers keep it, and a counting H-blank timer keeps
      it if and only if the elapsed span holds the same number of old and new lines mod 65536. */
  lemma CountAcrossModeChange(t: Timer, now: nat, hb: nat, hbNew: nat)
    requires hb > 0 && hbNew > 0 && InRange(t, now)
    ensures !Hblank(t.mode) ==> ModeHook(t, now, hbNew) == t
    ensures CountNow(ModeHook(t, now, hbNew), now, hbNew) == CountNow(t, now, hb)
            <==> (Hblank(t.mode) && Cue(t.mode) ==>
                    Wrap(Div(now - t.baseVclk, hbNew)) == Wrap(Div(now - t.baseVclk, hb)))
  {
    if Hblank(t.mode) {
      HookKeepsCapturedCount(t, now, hbNew);
      WrapCancel(t.baseCount, RawTicks(t, now, hbNew), RawTicks(t, now, hb));
    }
  }

  lemma HookKeepsCapturedCount(t: Timer, now: nat, hbNew: nat)
    requires hbNew > 0 && InRange(t, now) && Hblank(t.mode)
    ensures CountNow(ModeHook(t, now, hbNew), now, hbNew) == CountNow(t, now, hbNew)
  {
    assert Div(0, hbNew) == 0;
  }

  /** An H-blank count one line in is lost by a switch to the longer PAL line. */
  lemma HblankCountLost()
    ensures var t := Timer(0x83, 0, 0, 0, 0, false, false, 0);
            && CountNow(t, 9371, 9371) == 1
            && CountNow(ModeHook(t, 9371, 9437), 9371, 9437) == 0
  {
    var m: bv32 := 0x83;
    assert m & 3 == 3 && m & 0x80 != 0;
    assert Div(9371, 9371) == 1 && Div(9371, 9437) == 0 && Div(0, 9437) == 0;
  }

  lemma WrapCancel(b: nat, x: nat, y: nat)
    ensures Wrap(b + x) == Wrap(b + y) <==> Wrap(x) == Wrap(y)
  {}

  /** COUNT across a MODE write is evaluated under the new bits: kept if and only if the elapsed
      span is the same number of ticks mod 65536 before and after, in particular whenever CLKS
      and CUE do not change. */
  lemma CountAcrossModeWrite(t: Timer, v: bv32, now: nat, hb: nat)
    requires hb > 0 && InRange(t, now)
    ensures var u := WriteReg(t, ModeW(v), now, hb);
            var t' := t.(mode := v & 0x3FF);
            && (CountNow(u, now, hb) == CountNow(t, now, hb)
                <==> Wrap(RawTicks(t', now, hb)) == Wrap(RawTicks(t, now, hb)))
            && (t'.mode & 3 == t.mode & 3 && Cue(t'.mode) == Cue(t.mode) ==>
                  CountNow(u, now, hb) == CountNow(t, now, hb))
  {
    var u := WriteReg(t, ModeW(v), now, hb);
    var t' := t.(mode := v & 0x3FF);
    ModeWriteTicks(t, v, now, hb);
    WrapCancel(t.baseCount, RawTicks(t', now, hb), RawTicks(t, now, hb));
    if t'.mode & 3 == t.mode & 3 && Cue(t'.mode) == Cue(t.mode) { SameTicks(t, t', now, hb); }
    hide RawTicks;
  }

  lemma ModeWriteTicks(t: Timer, v: bv32, now: nat, hb: nat)
    requires hb > 0 && InRange(t, now)
    ensures RawTicks(ModeBits(t, v), now, hb) == RawTicks(t.(mode := v & 0x3FF), now, hb)
    ensures RawTicks(WriteReg(t, ModeW(v), now, hb), now, hb) == 0
  {
    assert Div(0, Prescale(v & 0x3FF, hb)) == 0;
  }

  lemma SameTicks(t: Timer, u: Timer, now: nat, hb: nat)
    requires hb > 0 && InRange(t, now) && InRange(u, now) && u.baseVclk == t.baseVclk
    requires u.mode & 3 == t.mode & 3 && Cue(u.mode) == Cue(t.mode)
    ensures RawTicks(u, now, hb) == RawTicks(t, now, hb)
  {}

  /** Starting a stopped timer with a MODE write does not keep its count: it jumps by the ticks
      since the base was last set. */
  lemma StartingAStoppedTimerJumps()
    ensures var t := Timer(0, 0, 0, 0, 0, false, false, 0);
            && CountNow(t, 1000, 9371) == 0
            && CountNow(WriteReg(t, ModeW(0x80), 1000, 9371), 1000, 9371) == 1000
  {
    var m: bv32 := 0x80;
    assert m & 0x3FF == 0x80 && m & 0x80 != 0 && m & 3 == 0;
    assert Div(1000, 1) == 1000 && Div(0, 1) == 0;
  }

  /** Every register write but COMP leaves a timer caught up. */
  lemma WriteKeepsCaughtUp(t: Timer, w: RegWrite, now: nat, hb: nat)
    requires hb > 0 && InRange(t, now) && CaughtUp(t, now, hb) && !w.CompW?
    ensures CaughtUp(WriteReg(t, w, now, hb), now, hb)
  {
    var u := WriteReg(t, w, now, hb);
    if w.HoldW? {
      assert SeenTicks(u, hb) == SeenTicks(t, hb) && RawTicks(u, now, hb) == RawTicks(t, now, hb);
      assert forall k: nat :: EventTick(u, k) <==> EventTick(t, k);
    } else {
      assert RawTicks(u, now, hb) == 0 by { assert Div(0, Prescale(u.mode, hb)) == 0; }
    }
  }

  /** COMP is written without evaluating the timer first, so a running CMPE timer has a compare
      that the next evaluation will report late if and only if the count passed the new COMP
      since the last evaluation. */
  lemma CompWriteCaughtUpIff(t: Timer, v: nat, now: nat, hb: nat)
    requires hb > 0 && InRange(t, now) && CaughtUp(t, now, hb)
    ensures CaughtUp(WriteReg(t, CompW(v), now, hb), now, hb) <==>
            !(Cue(t.mode) && Cmpe(t.mode) && Passed(t, SeenTicks(t, hb), RawTicks(t, now, hb), v % 0x10000))
  {
    var u := WriteReg(t, CompW(v), now, hb);
    assert SeenTicks(u, hb) == SeenTicks(t, hb) && RawTicks(u, now, hb) == RawTicks(t, now, hb);
    assert forall k: nat :: Reaches(u, k, 0) == Reaches(t, k, 0) && Reaches(u, k, u.comp) == Reaches(t, k, v % 0x10000);
    assert forall k: nat :: EventTick(t, k) <== (Ovfe(t.mode) && Reaches(t, k, 0));
    assert forall k: nat ::
        EventTick(u, k) <==> (Cmpe(t.mode) && Reaches(t, k, v % 0x10000)) || (Ovfe(t.mode) && Reaches(t, k, 0));
  }

  /** A running timer at count 200, last evaluated at 100, is told to compare with 150: the next
      evaluation raises its line although no compare with 150 is due at any cycle near. */
  lemma CompWriteRaisesLate()
    ensures var t := Timer(0x180, 5000, 0, 0, 0, false, false, 100);
            var u := WriteReg(t, CompW(150), 200, 9371);
            && CaughtUp(t, 200, 9371) && Advance(u, 200, 9371).raised
            && forall c :: 150 < c < 65686 ==> !FiresAt(u, 9371, c)
  {
    hide CaughtUp, FiresAt, Advance;
    var t := Timer(0x180, 5000, 0, 0, 0, false, false, 100);
    ModeBits180();
    BetweenCompares(t);
    PassedUnseen(t.(comp := 150));
    FiresOnlyAt(t.(comp := 150), 9371);
  }

  lemma ModeBits180()
    ensures var m: bv32 := 0x180; !Hblank(m) && m & 3 == 0 && Cue(m) && Cmpe(m) && !Ovfe(m) && !Zret(m)
  {}

  lemma BetweenCompares(t: Timer)
    requires Prescale(t.mode, 9371) == 1 && Cmpe(t.mode) && !Ovfe(t.mode)
    requires InRange(t, 200) && t.comp == 5000 && t.baseVclk == 0 && t.baseCount == 0
    ensures CaughtUp(t, 200, 9371)
  {
    if Cue(t.mode) { assert Div(200, 1) == 200; }
  }

  lemma PassedUnseen(u: Timer)
    requires Prescale(u.mode, 9371) == 1 && Cue(u.mode) && Cmpe(u.mode)
    requires InRange(u, 200) && u.comp == 150 && u.baseVclk == 0 && u.baseCount == 0 && u.lastCheck == 100
    ensures Advance(u, 200, 9371).raised
  {
    assert Div(100, 1) == 100 && Div(200, 1) == 200;
  }

  /** A fresh BUSCLK timer with CMPE alone fires where the cycle is COMP mod 65536. */
  lemma FiresOnlyAt(u: Timer, hb: nat)
    requires u.baseVclk == 0 && u.baseCount == 0 && Prescale(u.mode, hb) == 1 && Cmpe(u.mode) && !Ovfe(u.mode)
    ensures forall c: nat | FiresAt(u, hb, c) :: Wrap(c) == u.comp
  {
    forall c: nat | FiresAt(u, hb, c) ensures Wrap(c) == u.comp {
      var k: nat :| EventTick(u, k) && TickCycle(u, hb, k) == c;
    }
  }

  /** Nothing later depends on when a timer based at this very cycle was last evaluated. */
  lemma BasedNow(u: Timer, now: nat, later: nat, hb: nat)
    requires hb > 0 && InRange(u, now) && u.baseVclk == now <= later
    ensures InRange(u, later) && Advance(u, later, hb) == Advance(u.(lastCheck := now), later, hb)
  {
    assert SeenTicks(u, hb) == SeenTicks(u.(lastCheck := now), hb) == 0;
    assert RawTicks(u, later, hb) == RawTicks(u.(lastCheck := now), later, hb);
  }

  /** An extra read would set no flag that is not set already. */
  ghost predicate FlagsCurrent(t: Timer, now: nat, hb: nat)
    requires hb > 0 && InRange(t, now)
  {
    Cue(t.mode) ==>
      && (Passed(t, SeenTicks(t, hb), RawTicks(t, now, hb), t.comp) ==> t.equf)
      && (Passed(t, SeenTicks(t, hb), RawTicks(t, now, hb), 0) ==> t.ovff)
  }

  /** Where laziness shows. Writing COUNT or MODE, or a video mode change under an H-blank timer, moves the
      base without evaluating the timer. For a timer without ZRET an extra read just before a COUNT write
      or such a mode change makes no difference to anything later if and only if it would have set no new
      flag; before a MODE write, only the flags that the write does not clear matter. */
  lemma ReadBeforeRebase(t: Timer, w: RegWrite, now: nat, hb: nat, hbNew: nat)
    requires hb > 0 && hbNew > 0 && InRange(t, now) && !Zret(t.mode) && (w.CountW? || w.ModeW?)
    ensures var a := Advance(t, now, hb).timer;
            && InRange(a, now)
            && (w.CountW? ==>
                  (WriteReg(a, w, now, hb) == WriteReg(t, w, now, hb).(lastCheck := now) <==> FlagsCurrent(t, now, hb)))
            && (w.ModeW? ==>
                  (WriteReg(a, w, now, hb) == WriteReg(t, w, now, hb) <==>
                   FlagsCurrent(Cleared(t, w.bits), now, hb)))
            && (Hblank(t.mode) ==>
                  (ModeHook(a, now, hbNew) == ModeHook(t, now, hbNew) <==> FlagsCurrent(t, now, hb)))
  {
    hide Advance, Passed, RawTicks, SeenTicks;
    AdvanceFlags(t, now, hb);
    var a := Advance(t, now, hb).timer;
    if w.ModeW? {
      SameTicks(ModeBits(t, w.bits), ModeBits(a, w.bits), now, hb);
      ClearedFlags(t, w.bits, now, hb);
    }
    if Hblank(t.mode) { SameTicks(t, a, now, hbNew); }
  }

  /** The timer with the flags set that a MODE write of v is about to clear anyway. */
  function Cleared(t: Timer, v: bv32): Timer {
    t.(equf := t.equf || v & 0x400 != 0, ovff := t.ovff || v & 0x800 != 0)
  }

  lemma ClearedFlags(t: Timer, v: bv32, now: nat, hb: nat)
    requires hb > 0 && InRange(t, now)
    ensures FlagsCurrent(Cleared(t, v), now, hb) <==>
            (Cue(t.mode) ==>
               && (Passed(t, SeenTicks(t, hb), RawTicks(t, now, hb), t.comp) ==> t.equf || v & 0x400 != 0)
               && (Passed(t, SeenTicks(t, hb), RawTicks(t, now, hb), 0) ==> t.ovff || v & 0x800 != 0))
  {
    var u := Cleared(t, v);
    assert forall k: nat, x: nat :: Reaches(u, k, x) == Reaches(t, k, x);
  }

  /** Without ZRET, evaluation changes the flags and lastCheck and nothing else. */
  lemma AdvanceFlags(t: Timer, now: nat, hb: nat)
    requires hb > 0 && InRange(t, now) && !Zret(t.mode)
    ensures var a := Advance(t, now, hb).timer;
            && a == t.(lastCheck := now, equf := a.equf, ovff := a.ovff)
            && (a.equf <==> t.equf || (Cue(t.mode) && Passed(t, SeenTicks(t, hb), RawTicks(t, now, hb), t.comp)))
            && (a.ovff <==> t.ovff || (Cue(t.mode) && Passed(t, SeenTicks(t, hb), RawTicks(t, now, hb), 0)))
  {
    if Cue(t.mode) { AdvanceMeaning(t, now, hb); }
  }

  /** A COMP write between two evaluations is not seen by the first: with an extra read just before it, EQUF
      then says whether the old COMP was passed, without it, whether the new one was. */
  lemma ReadBeforeCompWrite(t: Timer, v: nat, now: nat, hb: nat)
    requires hb > 0 && InRange(t, now) && !Zret(t.mode) && Cue(t.mode)
    ensures var a := Advance(t, now, hb).timer;
            var (lo, hi) := (SeenTicks(t, hb), RawTicks(t, now, hb));
            && InRange(a, now)
            && (Advance(WriteReg(a, CompW(v), now, hb), now, hb).timer ==
                Advance(WriteReg(t, CompW(v), now, hb), now, hb).timer <==>
                (t.equf || Passed(t, lo, hi, t.comp) <==> t.equf || Passed(t, lo, hi, v % 0x10000)))
  {
    hide Advance, Reaches, Passed, SeenTicks, RawTicks;
    var a := Advance(t, now, hb).timer;
    AdvanceFlags(t, now, hb);
    AdvanceFlags(WriteReg(a, CompW(v), now, hb), now, hb);
    AdvanceFlags(WriteReg(t, CompW(v), now, hb), now, hb);
    CompWriteSees(t, v, now, hb);
    JustSeen(WriteReg(a, CompW(v), now, hb), now, hb);
  }

  lemma CompWriteSees(t: Timer, v: nat, now: nat, hb: nat)
    requires hb > 0 && InRange(t, now)
    ensures var u := WriteReg(t, CompW(v), now, hb);
            && SeenTicks(u, hb) == SeenTicks(t, hb) && RawTicks(u, now, hb) == RawTicks(t, now, hb)
            && forall lo, hi, x :: Passed(u, lo, hi, x) == Passed(t, lo, hi, x)
  {
    var u := WriteReg(t, CompW(v), now, hb);
    assert forall k: nat, x: nat :: Reaches(u, k, x) == Reaches(t, k, x);
  }

  lemma JustSeen(u: Timer, now: nat, hb: nat)
    requires hb > 0 && InRange(u, now) && u.lastCheck == now && Cue(u.mode)
    ensures forall x :: !Passed(u, SeenTicks(u, hb), RawTicks(u, now, hb), x)
  {
    SeenBeforeNow(u, now, hb);
    if u.baseVclk == now { assert Div(0, Prescale(u.mode, hb)) == 0; }
  }

  lemma ModeHookCaughtUp(t: Timer, now: nat, hb: nat, hbNew: nat)
    requires hb > 0 && hbNew > 0 && InRange(t, now) && CaughtUp(t, now, hb)
    ensures CaughtUp(ModeHook(t, now, hbNew), now, hbNew)
  {
    var u := ModeHook(t, now, hbNew);
    if Hblank(t.mode) {
      assert RawTicks(u, now, hbNew) == 0 by { assert Div(0, hbNew) == 0; }
    } else {
      assert SeenTicks(t, hbNew) == SeenTicks(t, hb) && RawTicks(t, now, hbNew) == RawTicks(t, now, hb);
    }
  }

  // ---- The four timers together ----------------------------------------------

  function AdvanceAll(ts: seq<Timer>, now: nat, hb: nat): (r: seq<Timer>)
    requires hb > 0 && AllInRange(ts, now)
    ensures |r| == |ts| && forall i | 0 <= i < |ts| :: r[i] == Advance(ts[i], now, hb).timer
    ensures AllInRange(r, now)
  {
    if ts == [] then []
    else
      var last := ts[|ts| - 1];
      AdvancedCaughtUp(last, now, hb);
      AdvanceAll(ts[..|ts| - 1], now, hb) + [Advance(last, now, hb).timer]
  }

  /** Indices of the timers whose line the evaluation raises, in scan order. */
  function RaisedLines(ts: seq<Timer>, now: nat, hb: nat): (r: seq<nat>)
    requires hb > 0 && AllInRange(ts, now)
    ensures forall i: nat :: i in r <==> i < |ts| && Advance(ts[i], now, hb).raised
  {
    if ts == [] then []
    else
      var n := |ts| - 1;
      RaisedLines(ts[..n], now, hb) + (if Advance(ts[n], now, hb).raised then [n] else [])
  }

  lemma {:induction false} NextEventIsLeast(ts: seq<Timer>, now: nat, hb: nat, i: nat)
    requires hb > 0 && AllInRange(ts, now) && i < |ts|
    ensures NextEvent(ts, now, hb) <= TimerNext(ts[i], now, hb)
  {
    if i < |ts| - 1 { NextEventIsLeast(ts[..|ts| - 1], now, hb, i); }
  }

  /** ... and is one of theirs. */
  lemma {:induction false} NextEventIsOne(ts: seq<Timer>, now: nat, hb: nat) returns (i: nat)
    requires hb > 0 && AllInRange(ts, now) && NextEvent(ts, now, hb) < NEVER
    ensures i < |ts| && NextEvent(ts, now, hb) == TimerNext(ts[i], now, hb)
  {
    i := |ts| - 1;
    if NextEvent(ts, now, hb) != TimerNext(ts[i], now, hb) { i := NextEventIsOne(ts[..i], now, hb); }
  }

  predicate SameSchedule(t: Timer, u: Timer) {
    u.mode == t.mode && u.comp == t.comp && u.baseVclk == t.baseVclk && u.baseCount == t.baseCount
  }

  lemma TimerNextCong(t: Timer, u: Timer, now: nat, hb: nat)
    requires hb > 0 && InRange(t, now) && InRange(u, now) && SameSchedule(t, u)
    ensures TimerNext(u, now, hb) == TimerNext(t, now, hb)
  {
    assert RawTicks(u, now, hb) == RawTicks(t, now, hb);
    assert forall k: nat :: TickCycle(u, hb, k) == TickCycle(t, hb, k);
  }

  /** The scan reads only MODE, COMP and the base, so flags and evaluation times do not move it. */
  lemma {:induction false} NextEventCong(ts: seq<Timer>, us: seq<Timer>, now: nat, hb: nat)
    requires hb > 0 && AllInRange(ts, now) && AllInRange(us, now) && |ts| == |us|
    requires forall i | 0 <= i < |ts| :: SameSchedule(ts[i], us[i])
    ensures NextEvent(us, now, hb) == NextEvent(ts, now, hb)
  {
    if ts != [] {
      var n := |ts| - 1;
      NextEventCong(ts[..n], us[..n], now, hb);
      TimerNextCong(ts[n], us[n], now, hb);
    }
  }

  /** The word a MODE read returns. */
  function ModeRegister(t: Timer): bv32 {
    (t.mode & 0x3FF) | (if t.equf then 0x400 else 0) | (if t.ovff then 0x800 else 0)
  }

  /** An evaluation that does not move a base does not move the predictor either. */
  lemma QuietAdvance(ts: seq<Timer>, i: nat, now: nat, hb: nat)
    requires hb > 0 && AllInRange(ts, now) && i < |ts| && !Advance(ts[i], now, hb).rebased
    ensures AllInRange(ts[i := Advance(ts[i], now, hb).timer], now)
    ensures NextEvent(ts[i := Advance(ts[i], now, hb).timer], now, hb) == NextEvent(ts, now, hb)
  {
    AdvancedCaughtUp(ts[i], now, hb);
    NextEventCong(ts, ts[i := Advance(ts[i], now, hb).timer], now, hb);
  }

  /** The body of the scan loop, for one timer. */
  method Scan(t: Timer, soFar: nat, now: nat, hb: nat) returns (best: nat)
    requires hb > 0 && InRange(t, now) && soFar <= NEVER
    ensures best == Min(soFar, TimerNext(t, now, hb))
  {
    best := soFar;
    if !Cue(t.mode) { return; }
    if !Cmpe(t.mode) && !Ovfe(t.mode) { return; }
    var ticks := RawTicks(t, now, hb);
    var cnt := (t.baseCount + ticks) % 0x10000;
    if Cmpe(t.mode) {
      var when := TickCycle(t, hb, ticks + ToReach(cnt, t.comp));
      if when < best { best := when; }
    }
    if Ovfe(t.mode) {
      var when := TickCycle(t, hb, ticks + (0x10000 - cnt));
      if when < best { best := when; }
    }
  }

  class TimerBank {
    const t: array<Timer>
    var cache: nat
    var valid: bool

    constructor ()
      ensures fresh(t) && t.Length == 4 && !valid
      ensures forall i | 0 <= i < 4 :: t[i] == Timer(0, 0, 0, 0, 0, false, false, 0)
    {
      t := new Timer[4](_ => Timer(0, 0, 0, 0, 0, false, false, 0));
      cache, valid := 0, false;
    }

    ghost predicate Ready(now: nat, hb: nat)
      reads this, t
    {
      t.Length == 4 && hb > 0 && now < NEVER && AllInRange(t[..], now)
    }

    /** Whenever the memo is marked valid it is what a fresh scan would answer. */
    ghost predicate MemoRight(now: nat, hb: nat)
      requires Ready(now, hb)
      reads this, t
    {
      valid ==> cache == NextEvent(t[..], now, hb)
    }

    method NextEventSlow(now: nat, hb: nat) returns (best: nat)
      requires Ready(now, hb)
      ensures best == NextEvent(t[..], now, hb)
    {
      best := NEVER;
      for i := 0 to t.Length
        invariant best == NextEvent(t[..i], now, hb) <= NEVER
      {
        assert t[..i + 1][..i] == t[..i] && t[..i + 1][i] == t[i];
        best := Scan(t[i], best, now, hb);
      }
      assert t[..t.Length] == t[..];
    }

    method Next(now: nat, hb: nat) returns (r: nat)
      requires Ready(now, hb) && MemoRight(now, hb)
      modifies this`cache, this`valid
      ensures r == NextEvent(t[..], now, hb)
      ensures valid && MemoRight(now, hb)
    {
      if !valid {
        cache := NextEventSlow(now, hb);
        valid := true;
      }
      r := cache;
    }

    /** The passage of time alone never makes a valid memo wrong. */
    lemma MemoSurvives(now: nat, later: nat, hb: nat)
      requires Ready(now, hb) && MemoRight(now, hb) && Ready(later, hb)
      requires now <= later < NextEvent(t[..], now, hb)
      ensures MemoRight(later, hb)
    {
      NextEventStable(t[..], now, later, hb);
    }

    method AdvanceTimer(i: nat, now: nat, hb: nat) returns (raised: bool)
      requires Ready(now, hb) && i < 4
      modifies this`valid, t
      ensures t[..] == old(t[..])[i := Advance(old(t[i]), now, hb).timer]
      ensures raised == Advance(old(t[i]), now, hb).raised
      ensures valid <==> old(valid) && !Advance(old(t[i]), now, hb).rebased
      ensures Ready(now, hb)
    {
      raised := false;
      ghost var was := t[i];
      AdvancedCaughtUp(was, now, hb);
      if !Cue(t[i].mode) { t[i] := t[i].(lastCheck := now); return; }
      var prev := SeenTicks(t[i], hb);
      var cur := RawTicks(t[i], now, hb);
      SeenBeforeNow(was, now, hb);
      t[i] := t[i].(lastCheck := now);
      if cur == prev { return; }
      var span := cur - prev;
      var cnt := (t[i].baseCount + prev) % 0x10000;
      var toComp := ToReach(cnt, t[i].comp);
      if toComp <= span {
        t[i] := t[i].(equf := true);
        if Cmpe(t[i].mode) { raised := true; }
        if Zret(t[i].mode) {
          t[i] := t[i].(baseVclk := ResetBase(t[i], now, hb, span - toComp), baseCount := 0);
          valid := false;
        }
      }
      var toOvf := 0x10000 - cnt;
      if toOvf <= span {
        t[i] := t[i].(ovff := true);
        if Ovfe(t[i].mode) { raised := true; }
      }
    }

    method RunDue(now: nat, hb: nat) returns (lines: seq<nat>)
      requires Ready(now, hb)
      modifies this`valid, t
      ensures t[..] == AdvanceAll(old(t[..]), now, hb) && lines == RaisedLines(old(t[..]), now, hb)
      ensures Ready(now, hb) && !valid
    {
      ghost var was := t[..];
      valid := false;
      lines := [];
      for i := 0 to 4
        invariant Ready(now, hb) && !valid
        invariant forall j | i <= j < 4 :: t[j] == was[j]
        invariant forall j | 0 <= j < i :: t[j] == Advance(was[j], now, hb).timer
        invariant lines == RaisedLines(was[..i], now, hb)
      {
        var r := AdvanceTimer(i, now, hb);
        assert was[..i + 1][..i] == was[..i] && was[..i + 1][i] == was[i];
        if r { lines := lines + [i]; }
      }
      assert was[..4] == was;
    }

    /** A COUNT or MODE register read: evaluates the timer, then samples it. */
    method Read(i: nat, now: nat, hb: nat) returns (count: nat, mode: bv32, raised: bool)
      requires Ready(now, hb) && MemoRight(now, hb) && i < 4
      modifies this`valid, t
      ensures t[..] == old(t[..])[i := Advance(old(t[i]), now, hb).timer]
      ensures raised == Advance(old(t[i]), now, hb).raised
      ensures count == CountNow(t[i], now, hb)
      ensures mode == ModeRegister(t[i])
      ensures Ready(now, hb) && MemoRight(now, hb)
    {
      ghost var was := t[..];
      raised := AdvanceTimer(i, now, hb);
      count := CountNow(t[i], now, hb);
      mode := ModeRegister(t[i]);
      if valid { QuietAdvance(was, i, now, hb); }
    }

    method WriteMode(i: nat, v: bv32, now: nat, hb: nat)
      requires Ready(now, hb) && i < 4
      modifies t
      ensures t[..] == old(t[..])[i := WriteReg(old(t[i]), ModeW(v), now, hb)]
    {
      StoreMode(i, v);
      t[i] := t[i].(baseCount := CountNow(t[i], now, hb));
      t[i] := t[i].(baseVclk := now);
      t[i] := t[i].(lastCheck := now);
    }

    method StoreMode(i: nat, v: bv32)
      requires i < t.Length
      modifies t
      ensures t[..] == old(t[..])[i := ModeBits(old(t[i]), v)]
    {
      if v & 0x400 != 0 { t[i] := t[i].(equf := false); }
      if v & 0x800 != 0 { t[i] := t[i].(ovff := false); }
      t[i] := t[i].(mode := v & 0x3FF);
    }

    method Write(i: nat, w: RegWrite, now: nat, hb: nat)
      requires Ready(now, hb) && i < 4
      modifies this`valid, t
      ensures t[..] == old(t[..])[i := WriteReg(old(t[i]), w, now, hb)]
      ensures Ready(now, hb) && MemoRight(now, hb)
    {
      valid := false;
      match w {
        case CountW(v) => t[i] := t[i].(baseCount := v % 0x10000, baseVclk := now);
        case ModeW(v) => WriteMode(i, v, now, hb);
        case CompW(v) => t[i] := t[i].(comp := v % 0x10000);
        case HoldW(v) => t[i] := t[i].(hold := v % 0x10000);
      }
    }

    method ModeChanged(now: nat, hbNew: nat)
      requires Ready(now, hbNew)
      modifies this`valid, t
      ensures forall i | 0 <= i < 4 :: t[i] == ModeHook(old(t[i]), now, hbNew)
      ensures Ready(now, hbNew) && MemoRight(now, hbNew)
    {
      for i := 0 to 4
        invariant Ready(now, hbNew)
        invariant forall j | i <= j < 4 :: t[j] == old(t[j])
        invariant forall j | 0 <= j < i :: t[j] == ModeHook(old(t[j]), now, hbNew)
      {
        if !Hblank(t[i].mode) { continue; }
        t[i] := t[i].(baseCount := CountNow(t[i], now, hbNew));
        t[i] := t[i].(baseVclk := now, lastCheck := now);
      }
      valid := false;
    }
  }
}
