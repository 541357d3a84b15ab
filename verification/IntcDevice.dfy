/** The interrupt controller as the source keeps it: status and mask words and the in-interrupt flag
    changed in place, and the nested dispatch loops of rt_intc_deliver. Each method is proved to do
    what the function of the same step says. */
module IntcDevice {
  import opened IntcLines
  import opened Intc

  class Controller {
    var istat: set<nat>
    var imask: set<nat>
    var dstat: set<nat>
    var dmask: set<nat>
    var alarms: set<nat>
    var eie: bool
    var inInterrupt: bool
    var n: nat
    var sets: multiset<Source>
    var served: multiset<Source>
    var acked: multiset<Source>
    var stale: multiset<Source>
    const h: Handlers

    ghost function S(): Intc.State
      reads this
    {
      Intc.State(Lines(istat, imask, dstat, dmask, alarms), eie, inInterrupt, n, sets, served, acked, stale)
    }

    constructor (handlers: Handlers)
      ensures h == handlers
      ensures S() ==
              Intc.State(Lines({}, {}, {}, {}, {}), true, false, 0, multiset{}, multiset{}, multiset{}, multiset{})
    {
      istat, imask, dstat, dmask, alarms := {}, {}, {}, {}, {};
      eie, inInterrupt, n := true, false, 0;
      sets, served, acked, stale := multiset{}, multiset{}, multiset{}, multiset{};
      h := handlers;
    }

    method RaiseCause(cause: int)
      modifies this
      ensures S() == Plain(old(S()), Raise(cause))
    {
      if 0 <= cause < CAUSES {
        if cause !in istat { sets := sets + multiset{Cause(cause)}; }
        istat := istat + {cause};
        assert old(cause in istat) ==> istat == old(istat);
      }
    }

    method RaiseChannel(channel: int)
      modifies this
      ensures S() == Plain(old(S()), DmacRaise(channel))
    {
      if 0 <= channel < CHANNELS {
        if channel !in dstat { sets := sets + multiset{Channel(channel)}; }
        dstat := dstat + {channel};
        assert old(channel in dstat) ==> dstat == old(dstat);
      }
    }

    method MarkAlarm(slot: nat)
      modifies this
      ensures S() == Plain(old(S()), AlarmDue(slot))
    {
      if slot < ALARMS {
        if slot !in alarms { sets := sets + multiset{Source.Alarm(slot)}; }
        alarms := alarms + {slot};
        assert old(slot in alarms) ==> alarms == old(alarms);
      }
    }

    method AckWritten(v: set<nat>)
      modifies this`istat, this`acked
      ensures S() == AckCauses(old(S()), v)
    {
      acked := acked + multiset(set c | c in istat * v :: Cause(c));
      istat := istat - v;
    }

    method WriteDmacStat(v: set<nat>)
      modifies this`dstat, this`dmask, this`acked
      ensures S() == Plain(old(S()), WriteDStat(v))
    {
      hide Low, High, Toggle;
      acked := acked + multiset(set c | c in dstat * Low(v) :: Channel(c));
      dstat := dstat - Low(v);
      dmask := Toggle(dmask, High(v));
    }

    /** Writes to I_STAT, I_MASK and D_STAT. */
    method MmioWrite(addr: int, v: set<nat>) returns (handled: bool)
      modifies this
      ensures handled == (addr in {0x1000F000, 0x1000F010, 0x1000E010})
      ensures S() == if addr == 0x1000F000 then Plain(old(S()), WriteIStat(v))
                     else if addr == 0x1000F010 then Plain(old(S()), WriteIMask(v))
                     else if addr == 0x1000E010 then Plain(old(S()), WriteDStat(v)) else old(S())
    {
      hide Toggle, AckCauses, AckChannels;
      if addr == 0x1000F000 {
        AckWritten(v);
        return true;
      }
      if addr == 0x1000F010 {
        imask := Toggle(imask, set b | b in v && b < 15);
        return true;
      }
      if addr == 0x1000E010 {
        WriteDmacStat(v);
        return true;
      }
      return false;
    }

    method Mask(a: Act) returns (ret: int)
      requires a.EnableIntc? || a.DisableIntc? || a.EnableDmac? || a.DisableDmac?
      modifies this
      ensures S() == Plain(old(S()), a)
      ensures a.EnableIntc? ==> ret == if 0 <= a.cause < CAUSES && a.cause !in old(imask) then 1 else 0
      ensures a.DisableIntc? ==> ret == if 0 <= a.cause < CAUSES && a.cause in old(imask) then 1 else 0
    {
      match a
      case EnableIntc(c) =>
        if c < 0 || c >= CAUSES { return 0; }
        ret := if c in imask then 0 else 1;
        imask := imask + {c};
      case DisableIntc(c) =>
        if c < 0 || c >= CAUSES { return 0; }
        ret := if c in imask then 1 else 0;
        imask := imask - {c};
      case EnableDmac(ch) =>
        if ch < 0 || ch >= CHANNELS { return 0; }
        dmask := dmask + {ch};
        return 1;
      case DisableDmac(ch) =>
        if ch < 0 || ch >= CHANNELS { return 0; }
        dmask := dmask - {ch};
        return 1;
    }

    method ReleaseAlarm(slot: nat)
      modifies this
      ensures S() == Plain(old(S()), AlarmGone(slot))
    {
      if slot in alarms {
        acked := acked + multiset{Source.Alarm(slot)};
        alarms := alarms - {slot};
      }
    }

    /** One thing thread or handler code does. */
    method Perform(a: Act)
      modifies this
      ensures S() == Do(old(S()), a, h)
      decreases if inInterrupt then 0 else 1, 1
    {
      hide DeliverAll, Put, AckCauses, AckChannels, Toggle, Low, High;
      match a
      case Raise(c) => RaiseCause(c);
      case DmacRaise(ch) => RaiseChannel(ch);
      case WriteIStat(v) => var _ := MmioWrite(0x1000F000, v);
      case WriteIMask(v) => var _ := MmioWrite(0x1000F010, v);
      case WriteDStat(v) => var _ := MmioWrite(0x1000E010, v);
      case AlarmDue(i) => MarkAlarm(i);
      case AlarmGone(i) => ReleaseAlarm(i);
      case SetEie(on) =>
        eie := on;
        if on { DeliverPending(); }
      case Deliver => DeliverPending();
      case _ => var _ := Mask(a);
    }

    /** The handlers of one line: arbitrary code. */
    method RunHandlers(acts: seq<Act>)
      requires inInterrupt
      modifies this
      ensures S() == DoAll(old(S()), acts, h)
      decreases 0, 2
    {
      var i := 0;
      assert acts[0..] == acts;
      while i < |acts|
        invariant 0 <= i <= |acts| && inInterrupt
        invariant DoAll(S(), acts[i..], h) == DoAll(old(S()), acts, h)
      {
        assert acts[i..][1..] == acts[i + 1..];
        Perform(acts[i]);
        i := i + 1;
      }
    }

    method CountTaken(x: Source)
      modifies this`n, this`served, this`stale
      ensures S() == Counted(old(S()), x)
    {
      hide Up;
      if Up(Lines(istat, imask, dstat, dmask, alarms), x) {
        served := served + multiset{x};
        n := n + 1;
        assert S() == Counted(old(S()), x);
      } else {
        stale := stale + multiset{x};
        n := n + 1;
        assert S() == Counted(old(S()), x);
      }
    }

    /** Clears the status bit. */
    method ClearBit(x: Source)
      modifies this`istat, this`dstat, this`alarms
      ensures S() == old(S()).(l := SetDown(old(S()).l, x))
    {
      match x {
        case Cause(c) => istat := istat - {c};
        case Channel(ch) => dstat := dstat - {ch};
        case Alarm(i) => alarms := alarms - {i};
      }
    }

    /** Clears the status bit, then runs the line's handlers. */
    method DispatchLine(x: Source)
      requires inInterrupt
      modifies this
      ensures S() == Dispatch(old(S()), x, h)
      decreases 0, 3
    {
      hide Counted, SetDown;
      CountTaken(x);
      ClearBit(x);
      RunHandlers(h(n - 1));
    }

    method DispatchAlarms()
      requires inInterrupt
      modifies this
      ensures S() == Alarms(old(S()), ALARMS, h)
      decreases 0, 4
    {
      hide Dispatch;
      for i := 0 to ALARMS
        invariant inInterrupt && S() == Alarms(old(S()), i, h)
      {
        if i !in alarms { continue; }
        DispatchLine(Source.Alarm(i));
      }
    }

    method OnePass()
      requires inInterrupt
      modifies this
      ensures S() == Pass(old(S()), h)
      decreases 0, 5
    {
      hide Dispatch;
      var ipend, dpend, apend := istat * imask, dstat * dmask, alarms != {};
      for c := 0 to CAUSES
        invariant inInterrupt && S() == Causes(old(S()), ipend, c, h)
      {
        if c in ipend { DispatchLine(Cause(c)); }
      }
      ghost var s1 := S();
      for ch := 0 to CHANNELS
        invariant inInterrupt && S() == Channels(s1, dpend, ch, h)
      {
        if ch in dpend { DispatchLine(Channel(ch)); }
      }
      if apend { DispatchAlarms(); }
    }

    /** rt_intc_deliver, up to its preemption check. */
    method DeliverPending()
      modifies this
      ensures S() == DeliverAll(old(S()), h)
      decreases if inInterrupt then 0 else 1, 0
    {
      hide Pass;
      if inInterrupt || !eie { return; }
      if istat * imask == {} && dstat * dmask == {} && alarms == {} { return; }
      inInterrupt := true;
      ghost var s0 := S();
      var guard := 0;
      while guard < PASSES
        invariant guard <= PASSES && inInterrupt
        invariant Passes(S(), guard, h) == Passes(s0, 0, h)
      {
        if istat * imask == {} && dstat * dmask == {} && alarms == {} { break; }
        OnePass();
        guard := guard + 1;
      }
      inInterrupt := false;
    }
  }
}
