/** The log queue as the source keeps it: a fixed ring with head and tail, the writer's drain loop and
    the exit sweep. Each critical section is proved to be the step of the same name. */
module LogDevice {
  import opened LogRing

  class LogQueue {
    const ring: array<Line>
    var head: nat
    var tail: nat
    var dropped: nat
    var stop: bool
    var busy: bool
    var batch: seq<Line>          // the writer's locals
    var echo: seq<Line>
    var batchDropped: nat
    var stopSeen: bool
    var file: seq<Entry>
    var console: seq<Entry>
    const hasConsole: bool
    ghost var writer: Writer
    ghost var offers: seq<Offer>

    ghost predicate Valid()
      reads this, ring
    {
      ring.Length == SLOTS && head < SLOTS && tail < SLOTS && AsQueued(echo) == Echoed(AsQueued(batch))
    }

    ghost function S(): Log
      reads this, ring
    {
      Log(ring[..], head, tail, dropped, stop, busy, writer, batch, batchDropped, stopSeen, file, console,
          hasConsole, offers)
    }

    constructor (sinkOpen: bool)
      ensures Valid() && S() == Boot(sinkOpen, ring[..]) && fresh(ring)
    {
      ring := new Line[SLOTS](_ => Line(FileOnly, ""));
      head, tail, dropped, stop, busy := 0, 0, 0, false, false;
      batch, echo, batchDropped, stopSeen := [], [], 0, false;
      file, console, hasConsole := [], [], sinkOpen;
      writer, offers := Waiting, [];
    }

    /** write_now. */
    method WriteNow(e: Entry)
      modifies this`file, this`console
      ensures S() == Emit(old(S()), [e])
    {
      file := file + [e];
      if hasConsole && (e.Note? || e.l.dest == Both) { console := console + [e]; }
      EchoOne(e);
    }

    /** A producer's line while the writer is up. */
    method Enqueue(dest: Dest, text: string)
      requires Valid()
      modifies this`head, this`dropped, this`offers, ring
      ensures Valid() && S() == Next(old(S()), Step.Enqueue(dest, text))
    {
      if text == "" { return; }
      var cut := if |text| > LINE_MAX then text[..LINE_MAX] else text;
      var next := Slot(head, 1);
      if next == tail {
        dropped := dropped + 1;
        offers := offers + [Offer(Line(dest, cut), false)];
        return;
      }
      ring[head] := Line(dest, cut);
      head := next;
      offers := offers + [Offer(Line(dest, cut), true)];
    }

    /** The writer's drain loop: every queued line, and the echo of those meant for the console. */
    method TakeAll()
      requires Valid()
      modifies this`tail, this`batch, this`echo
      ensures Valid() && batch == old(Queue(S())) && tail == head
    {
      hide Pending, Echoed;
      ghost var all := Pending(ring[..], head, tail);
      batch, echo := [], [];
      EchoNone();
      while tail != head
        invariant Valid() && batch + Pending(ring[..], head, tail) == all
        decreases Used(head, tail)
      {
        PendingStep(ring[..], head, tail);
        var s := ring[tail];
        EchoMore(batch, s);
        batch := batch + [s];
        if s.dest == Both { echo := echo + [s]; }
        tail := Slot(tail, 1);
      }
      PendingNone(ring[..], head);
      assert batch == all;
    }

    /** The writer's critical section. */
    method DrainQueue()
      requires Valid() && CanStep(S(), Drain)
      modifies this`tail, this`dropped, this`busy, this`batch, this`echo, this`batchDropped, this`stopSeen, this`writer
      ensures Valid() && S() == Next(old(S()), Drain)
    {
      hide Queue, AsQueued;
      TakeAll();
      batchDropped := dropped;
      dropped := 0;
      stopSeen := stop;
      busy := true;
      writer := Holding;
    }

    /** The batch to the file, its echo to the console. */
    method WriteLines()
      requires Valid()
      modifies this`file, this`console
      ensures Valid() && S() == Emit(old(S()), AsQueued(batch))
    {
      hide Echoed, AsQueued;
      file := file + AsQueued(batch);
      if hasConsole { console := console + AsQueued(echo); }
    }

    /** The writer's I/O: the drop note, then the batch, then its echo. */
    method WriteOut()
      requires Valid() && writer == Holding
      modifies this`file, this`console, this`batch, this`echo, this`batchDropped, this`writer
      ensures Valid() && S() == Next(old(S()), WriteBatch)
    {
      hide Echoed, AsQueued, Emit;
      ghost var s0 := S();
      var note := if batchDropped > 0 then [Note(batchDropped)] else [];
      if batchDropped > 0 { WriteNow(Note(batchDropped)); } else { EmitNothing(s0); }
      WriteLines();
      EmitTwice(s0, note, AsQueued(batch));
      batch, echo, batchDropped := [], [], 0;
      EchoNone();
      writer := Flushed;
    }

    method ReleaseBatch()
      requires Valid() && writer == Flushed
      modifies this`busy, this`writer
      ensures Valid() && S() == Next(old(S()), Release)
    {
      busy := false;
      writer := if stopSeen then Gone else Waiting;
    }

    /** Writes the oldest queued line. */
    method WriteOldest()
      requires Valid() && tail != head
      modifies this`tail, this`file, this`console
      ensures Valid() && S() == Emit(old(S()), [Queued(old(ring[tail]))]).(tail := Slot(old(tail), 1))
    {
      hide Emit, AsQueued, Echoed;
      WriteNow(Queued(ring[tail]));
      tail := Slot(tail, 1);
    }

    /** The exit sweep, after the writer has been joined. */
    method SweepQueue()
      requires Valid() && writer == Gone
      modifies this`tail, this`file, this`console
      ensures Valid() && S() == Next(old(S()), Sweep)
    {
      hide Pending, Echoed, Emit, AsQueued;
      ghost var all := Queue(S());
      ghost var out: seq<Line> := [];
      ghost var s0 := S();
      EmitNone(s0);
      while tail != head
        invariant Valid() && out + Pending(ring[..], head, tail) == all
        invariant S() == Emit(s0, AsQueued(out)).(tail := tail)
        decreases Used(head, tail)
      {
        PendingStep(ring[..], head, tail);
        ghost var s, t0 := ring[tail], tail;
        WriteOldest();
        SweptMore(s0, out, s, t0);
        out := out + [s];
      }
      PendingNone(ring[..], head);
      assert out == all;
    }

    /** What rt_log_drain waits for. */
    method Idle() returns (idle: bool)
      requires Valid() && Kept(S())
      ensures idle ==> Written(file) == Accepted(offers)
    {
      idle := head == tail && !busy;
      if idle { IdleMeansWritten(S()); }
    }
  }

  lemma EchoOne(e: Entry)
    ensures Echoed([e]) == if e.Note? || e.l.dest == Both then [e] else []
  {
    assert [e][..0] == [];
  }

  lemma EchoNone()
    ensures Echoed(AsQueued([])) == [] && AsQueued([]) == []
  {}

  lemma EchoMore(batch: seq<Line>, s: Line)
    ensures AsQueued(batch + [s]) == AsQueued(batch) + [Queued(s)]
    ensures Echoed(AsQueued(batch + [s])) == Echoed(AsQueued(batch)) + if s.dest == Both then [Queued(s)] else []
  {
    assert AsQueued(batch + [s]) == AsQueued(batch) + [Queued(s)];
    WrittenAppend(AsQueued(batch), [Queued(s)]);
    EchoOne(Queued(s));
  }

  lemma PendingStep(ring: seq<Line>, head: nat, tail: nat)
    requires |ring| == SLOTS && head < SLOTS && tail < SLOTS && head != tail
    ensures Used(head, Slot(tail, 1)) == Used(head, tail) - 1
    ensures Pending(ring, head, tail) == [ring[tail]] + Pending(ring, head, Slot(tail, 1))
  {
    hide Slot, Used;
    UsedSteps(head, tail);
    var p, q, n := Pending(ring, head, tail), Pending(ring, head, Slot(tail, 1)), Used(head, tail);
    forall i | 0 <= i < n - 1 ensures q[i] == p[i + 1] { SlotAfter(tail, i); }
  }

  lemma PendingNone(ring: seq<Line>, head: nat)
    requires |ring| == SLOTS && head < SLOTS
    ensures Pending(ring, head, head) == []
  {}

  lemma EmitNone(s: Log)
    ensures Emit(s, AsQueued([])) == s
  {
    EchoNone();
  }

  lemma EmitNothing(s: Log)
    ensures Emit(s, []) == s
  {}

  lemma EmitTwice(s: Log, a: seq<Entry>, b: seq<Entry>)
    ensures Emit(Emit(s, a), b) == Emit(s, a + b)
  {
    hide Echoed;
    WrittenAppend(a, b);
    assert s.file + a + b == s.file + (a + b);
    assert s.console + Echoed(a) + Echoed(b) == s.console + (Echoed(a) + Echoed(b));
  }

  lemma SweptMore(s: Log, out: seq<Line>, l: Line, t: nat)
    ensures Emit(Emit(s, AsQueued(out)).(tail := t), [Queued(l)]) == Emit(s, AsQueued(out + [l])).(tail := t)
  {
    hide Echoed;
    assert AsQueued(out + [l]) == AsQueued(out) + [Queued(l)];
    EmitTwice(s, AsQueued(out), [Queued(l)]);
  }
}
