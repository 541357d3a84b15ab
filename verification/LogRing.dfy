/** The log queue of src/runtime/log.cpp: any number of producers, one writer thread, and the exit
    sweep, each critical section one atomic step. */
module LogRing {

  const SLOTS: nat := 512
  const LINE_MAX: nat := 4096

  datatype Dest = Both | FileOnly

  datatype Line = Line(dest: Dest, text: string)

  /** What reaches the log file: a queued line, a line written directly by its own thread, or the
      writer's note that lines were dropped. */
  datatype Entry = Queued(l: Line) | Direct(l: Line) | Note(n: nat)

  /** Where the writer thread is: waiting, holding a drained batch, done writing it, or ended. */
  datatype Writer = Waiting | Holding | Flushed | Gone

  /** A line offered to the queue, and whether it found room. */
  datatype Offer = Offer(l: Line, taken: bool)

  datatype Log = Log(
    ring: seq<Line>,
    head: nat,
    tail: nat,
    dropped: nat,
    stop: bool,
    busy: bool,
    writer: Writer,
    batch: seq<Line>,        // the writer's own: drained and not yet written
    batchDropped: nat,
    stopSeen: bool,
    file: seq<Entry>,
    console: seq<Entry>,
    hasConsole: bool,
    offers: seq<Offer>)      // history

  predicate Shaped(s: Log) {
    |s.ring| == SLOTS && s.head < SLOTS && s.tail < SLOTS
  }

  // ---- The queue in the ring ------------------------------------------------------------

  function Used(head: nat, tail: nat): (r: nat)
    requires head < SLOTS && tail < SLOTS
    ensures r < SLOTS
  {
    if head >= tail then head - tail else head + SLOTS - tail
  }

  function Slot(tail: nat, i: nat): (r: nat)
    ensures r < SLOTS
  {
    (tail + i) % SLOTS
  }

  lemma SlotAfter(tail: nat, i: nat)
    ensures Slot(Slot(tail, 1), i) == Slot(tail, i + 1)
  {}

  /** The head is the slot after the last used one, and no used slot is the head. */
  lemma HeadSlot(head: nat, tail: nat, i: nat)
    requires head < SLOTS && tail < SLOTS && i < SLOTS
    ensures Slot(tail, i) == head <==> i == Used(head, tail)
  {}

  lemma UsedSteps(head: nat, tail: nat)
    requires head < SLOTS && tail < SLOTS
    ensures Slot(tail, 0) == tail
    ensures head != tail ==> Used(head, Slot(tail, 1)) == Used(head, tail) - 1
    ensures Slot(head, 1) != tail ==> Used(Slot(head, 1), tail) == Used(head, tail) + 1
    ensures Slot(head, 1) == tail <==> Used(head, tail) == SLOTS - 1
  {}

  /** The queued lines, oldest first. */
  function Pending(ring: seq<Line>, head: nat, tail: nat): (r: seq<Line>)
    requires |ring| == SLOTS && head < SLOTS && tail < SLOTS
    ensures |r| == Used(head, tail)
  {
    seq(Used(head, tail), i requires 0 <= i < Used(head, tail) => ring[Slot(tail, i)])
  }

  function Queue(s: Log): seq<Line>
    requires Shaped(s)
  {
    Pending(s.ring, s.head, s.tail)
  }

  // ---- Steps --------------------------------------------------------------------------------

  datatype Step =
    | Enqueue(dest: Dest, text: string)      // a producer's critical section
    | WriteDirect(dest: Dest, text: string)  // a line while there is no writer
    | Drain                                  // the writer takes everything queued
    | WriteBatch                             // the writer's I/O
    | Release                                // the writer is done with the batch
    | Stop                                   // process exit asks the writer to end
    | Sweep                                  // and, once it has, writes what is left

  predicate CanStep(s: Log, t: Step) {
    Shaped(s) &&
    match t
    case Enqueue(_, _) => true
    case WriteDirect(_, _) => true
    case Drain => s.writer == Waiting && (s.head != s.tail || s.stop)
    case WriteBatch => s.writer == Holding
    case Release => s.writer == Flushed
    case Stop => true
    case Sweep => s.writer == Gone
  }

  function Cut(text: string): string {
    if |text| > LINE_MAX then text[..LINE_MAX] else text
  }

  function Push(s: Log, l: Line): Log
    requires Shaped(s)
  {
    var next := Slot(s.head, 1);
    if next == s.tail then s.(dropped := s.dropped + 1, offers := s.offers + [Offer(l, false)])
    else s.(ring := s.ring[s.head := l], head := next, offers := s.offers + [Offer(l, true)])
  }

  function Echoed(es: seq<Entry>): seq<Entry> {
    if es == [] then []
    else
      var e := es[|es| - 1];
      Echoed(es[..|es| - 1]) + if e.Note? || e.l.dest == Both then [e] else []
  }

  /** Writes to the file, and to the console what is meant for it. */
  function Emit(s: Log, es: seq<Entry>): Log {
    s.(file := s.file + es, console := if s.hasConsole then s.console + Echoed(es) else s.console)
  }

  function AsQueued(ls: seq<Line>): seq<Entry> {
    seq(|ls|, i requires 0 <= i < |ls| => Queued(ls[i]))
  }

  /** The drop note comes first. */
  function BatchEntries(s: Log): seq<Entry> {
    (if s.batchDropped > 0 then [Note(s.batchDropped)] else []) + AsQueued(s.batch)
  }

  function Next(s: Log, t: Step): Log
    requires CanStep(s, t)
  {
    match t
    case Enqueue(dest, text) => if text == "" then s else Push(s, Line(dest, Cut(text)))
    case WriteDirect(dest, text) => if text == "" then s else Emit(s, [Direct(Line(dest, Cut(text)))])
    case Drain => s.(batch := Queue(s), tail := s.head, batchDropped := s.dropped, dropped := 0,
                     stopSeen := s.stop, busy := true, writer := Holding)
    case WriteBatch => Emit(s, BatchEntries(s)).(batch := [], batchDropped := 0, writer := Flushed)
    case Release => s.(busy := false, writer := if s.stopSeen then Gone else Waiting)
    case Stop => s.(stop := true)
    case Sweep => Emit(s, AsQueued(Queue(s))).(tail := s.head)
  }

  predicate Follows(a: Log, t: Step, b: Log) {
    CanStep(a, t) && b == Next(a, t)
  }

  ghost predicate IsRun(ss: seq<Log>, ts: seq<Step>) {
    |ss| == |ts| + 1 && forall i | 0 <= i < |ts| :: Follows(ss[i], ts[i], ss[i + 1])
  }

  // ---- Accounting ------------------------------------------------------------------------------

  function Written(es: seq<Entry>): seq<Line> {
    if es == [] then []
    else
      var e := es[|es| - 1];
      Written(es[..|es| - 1]) + if e.Queued? then [e.l] else []
  }

  function Noted(es: seq<Entry>): nat {
    if es == [] then 0
    else
      var e := es[|es| - 1];
      Noted(es[..|es| - 1]) + if e.Note? then e.n else 0
  }

  function Accepted(os: seq<Offer>): seq<Line> {
    if os == [] then []
    else Accepted(os[..|os| - 1]) + if os[|os| - 1].taken then [os[|os| - 1].l] else []
  }

  function Refused(os: seq<Offer>): nat {
    if os == [] then 0 else Refused(os[..|os| - 1]) + if os[|os| - 1].taken then 0 else 1
  }

  predicate AllRefused(os: seq<Offer>) {
    forall i | 0 <= i < |os| :: !os[i].taken
  }

  /** The refusals not yet drained mean the ring is full, and are the latest offers. */
  predicate FullSince(s: Log)
    requires Shaped(s)
  {
    && (s.dropped > 0 ==> Used(s.head, s.tail) == SLOTS - 1)
    && s.dropped <= |s.offers| && AllRefused(s.offers[|s.offers| - s.dropped..])
  }

  /** Written, then in the writer's hands, then queued: the accepted lines in order. Every refusal is
      in exactly one note, or still to be noted. The writer is busy exactly while it has a batch. */
  ghost predicate Kept(s: Log) {
    && Shaped(s)
    && Accepted(s.offers) == Written(s.file) + s.batch + Queue(s)
    && Refused(s.offers) == Noted(s.file) + s.batchDropped + s.dropped
    && (s.writer != Gone ==> FullSince(s))
    && s.busy == (s.writer == Holding || s.writer == Flushed)
    && (s.writer != Holding ==> s.batch == [] && s.batchDropped == 0)
    && s.console == (if s.hasConsole then Echoed(s.file) else [])
  }

  lemma {:induction false} WrittenAppend(a: seq<Entry>, b: seq<Entry>)
    ensures Written(a + b) == Written(a) + Written(b)
    ensures Noted(a + b) == Noted(a) + Noted(b)
    ensures Echoed(a + b) == Echoed(a) + Echoed(b)
    decreases |b|
  {
    if b == [] {
      assert a + b == a;
    } else {
      assert (a + b)[..|a + b| - 1] == a + b[..|b| - 1];
      WrittenAppend(a, b[..|b| - 1]);
    }
  }

  lemma {:induction false} WrittenQueued(ls: seq<Line>)
    ensures Written(AsQueued(ls)) == ls && Noted(AsQueued(ls)) == 0
    decreases |ls|
  {
    if ls != [] {
      assert AsQueued(ls)[..|ls| - 1] == AsQueued(ls[..|ls| - 1]);
      WrittenQueued(ls[..|ls| - 1]);
      assert ls[..|ls| - 1] + [ls[|ls| - 1]] == ls;
    }
  }

  lemma OneEntry(e: Entry)
    ensures Written([e]) == (if e.Queued? then [e.l] else []) && Noted([e]) == if e.Note? then e.n else 0
  {
    assert [e][..0] == [];
  }

  lemma EmitAccounts(s: Log, es: seq<Entry>)
    requires s.console == if s.hasConsole then Echoed(s.file) else []
    ensures var r := Emit(s, es);
            && Written(r.file) == Written(s.file) + Written(es) && Noted(r.file) == Noted(s.file) + Noted(es)
            && r.console == if r.hasConsole then Echoed(r.file) else []
  {
    WrittenAppend(s.file, es);
  }

  lemma OfferAppend(os: seq<Offer>, o: Offer)
    ensures Accepted(os + [o]) == Accepted(os) + (if o.taken then [o.l] else [])
    ensures Refused(os + [o]) == Refused(os) + if o.taken then 0 else 1
  {
    assert (os + [o])[..|os|] == os;
  }

  /** A slot is free for the line that is pushed, and the queue grows by it at the end. */
  lemma PushQueues(s: Log, l: Line)
    requires Shaped(s) && Slot(s.head, 1) != s.tail
    ensures Shaped(Push(s, l)) && Queue(Push(s, l)) == Queue(s) + [l]
  {
    hide Slot, Used;
    var r, n := Push(s, l), Used(s.head, s.tail);
    UsedSteps(s.head, s.tail);
    HeadSlot(s.head, s.tail, n);
    forall i | 0 <= i < n ensures Slot(s.tail, i) != s.head { HeadSlot(s.head, s.tail, i); }
    assert Queue(r)[n] == l;
    assert Queue(r)[..n] == Queue(s);
  }

  lemma PushKept(s: Log, l: Line)
    requires Kept(s)
    ensures Kept(Push(s, l))
  {
    hide Pending, Accepted, Refused, Written, Noted, Echoed, Slot, Used;
    UsedSteps(s.head, s.tail);
    OfferAppend(s.offers, Offer(l, Slot(s.head, 1) != s.tail));
    if Slot(s.head, 1) != s.tail {
      PushQueues(s, l);
      assert Written(s.file) + s.batch + (Queue(s) + [l]) == Written(s.file) + s.batch + Queue(s) + [l];
    }
  }

  lemma EnqueueKept(s: Log, dest: Dest, text: string)
    requires Kept(s)
    ensures Kept(Next(s, Enqueue(dest, text)))
  {
    hide Kept, Push;
    if text != "" { PushKept(s, Line(dest, Cut(text))); }
  }

  lemma DirectKept(s: Log, dest: Dest, text: string)
    requires Kept(s)
    ensures Kept(Next(s, WriteDirect(dest, text)))
  {
    hide Pending, Accepted, Refused, Written, Noted, Echoed, Emit, Slot, Used;
    if text != "" {
      var e := Direct(Line(dest, Cut(text)));
      OneEntry(e);
      EmitAccounts(s, [e]);
      EmitFrame(s, [e]);
    }
  }

  lemma DrainKept(s: Log)
    requires Kept(s) && CanStep(s, Drain)
    ensures Kept(Next(s, Drain))
  {
    hide Pending, Accepted, Refused, Written, Noted, Echoed, Slot, Used;
    EmptyQueue(Next(s, Drain));
    assert AllRefused(s.offers[|s.offers|..]);
  }

  lemma ReleaseKept(s: Log)
    requires Kept(s) && s.writer == Flushed
    ensures Kept(Next(s, Release))
  {
    hide Pending, Accepted, Refused, Written, Noted, Echoed, Slot, Used;
  }

  lemma StepKept(s: Log, t: Step)
    requires CanStep(s, t) && Kept(s)
    ensures Kept(Next(s, t))
  {
    hide Kept, Next;
    match t
    case Enqueue(dest, text) => EnqueueKept(s, dest, text);
    case WriteDirect(dest, text) => DirectKept(s, dest, text);
    case Drain => DrainKept(s);
    case WriteBatch => BatchKept(s);
    case Release => ReleaseKept(s);
    case Stop => StopKept(s);
    case Sweep => SweepKept(s);
  }

  lemma StopKept(s: Log)
    requires Kept(s)
    ensures Kept(Next(s, Stop))
  {
    hide Pending, Accepted, Refused, Written, Noted, Echoed, Slot, Used;
  }

  lemma EmitFrame(s: Log, es: seq<Entry>)
    ensures Emit(s, es) == s.(file := Emit(s, es).file, console := Emit(s, es).console)
  {}

  lemma EmptyQueue(s: Log)
    requires Shaped(s) && s.head == s.tail
    ensures Queue(s) == []
  {}

  lemma BatchKept(s: Log)
    requires Kept(s) && s.writer == Holding
    ensures Kept(Next(s, WriteBatch))
  {
    hide Pending, Accepted, Refused, Written, Noted, Echoed, Emit, Slot, Used;
    var note := if s.batchDropped > 0 then [Note(s.batchDropped)] else [];
    EmitAccounts(s, BatchEntries(s));
    EmitFrame(s, BatchEntries(s));
    WrittenAppend(note, AsQueued(s.batch));
    WrittenQueued(s.batch);
    if s.batchDropped > 0 { OneEntry(Note(s.batchDropped)); } else { NothingWritten(); }
  }

  lemma NothingWritten()
    ensures Written([]) == [] && Noted([]) == 0
  {}

  lemma SweepKept(s: Log)
    requires Kept(s) && s.writer == Gone
    ensures Kept(Next(s, Sweep))
  {
    hide Pending, Accepted, Refused, Written, Noted, Echoed, Emit, Slot, Used;
    var q := AsQueued(Queue(s));
    EmitAccounts(s, q);
    EmitFrame(s, q);
    WrittenQueued(Queue(s));
    EmptyQueue(Next(s, Sweep));
  }

  function Boot(hasConsole: bool, ring: seq<Line>): Log {
    Log(ring, 0, 0, 0, false, false, Waiting, [], 0, false, [], [], hasConsole, [])
  }

  lemma BootKept(hasConsole: bool, ring: seq<Line>)
    requires |ring| == SLOTS
    ensures Kept(Boot(hasConsole, ring))
  {}

  /** However producers and the writer interleave. */
  lemma {:induction false} RunKept(ss: seq<Log>, ts: seq<Step>, i: nat)
    requires IsRun(ss, ts) && i < |ss| && Kept(ss[0])
    ensures Kept(ss[i])
  {
    hide Kept, CanStep, Next;
    if i > 0 {
      RunKept(ss, ts, i - 1);
      assert Follows(ss[i - 1], ts[i - 1], ss[i - 1 + 1]);
      StepKept(ss[i - 1], ts[i - 1]);
    }
  }

  /** Nothing queued is lost, duplicated or reordered, and every offer is accepted or counted. */
  lemma Accounting(ss: seq<Log>, ts: seq<Step>, i: nat)
    requires IsRun(ss, ts) && i < |ss| && Kept(ss[0])
    ensures Shaped(ss[i]) && Accepted(ss[i].offers) == Written(ss[i].file) + ss[i].batch + Queue(ss[i])
    ensures |ss[i].offers| == |Accepted(ss[i].offers)| + Noted(ss[i].file) + ss[i].batchDropped + ss[i].dropped
  {
    hide CanStep, Next;
    RunKept(ss, ts, i);
    OfferedIsBoth(ss[i].offers);
  }

  /** So from the start of the process, in every state of every interleaving. */
  lemma AccountingFromBoot(ss: seq<Log>, ts: seq<Step>, i: nat, hasConsole: bool, ring: seq<Line>)
    requires |ring| == SLOTS && IsRun(ss, ts) && i < |ss| && ss[0] == Boot(hasConsole, ring)
    ensures Shaped(ss[i]) && Accepted(ss[i].offers) == Written(ss[i].file) + ss[i].batch + Queue(ss[i])
    ensures |ss[i].offers| == |Accepted(ss[i].offers)| + Noted(ss[i].file) + ss[i].batchDropped + ss[i].dropped
    ensures ss[i].head == ss[i].tail && !ss[i].busy ==> Written(ss[i].file) == Accepted(ss[i].offers)
  {
    hide CanStep, Next, Kept, Boot;
    BootKept(hasConsole, ring);
    Accounting(ss, ts, i);
    RunKept(ss, ts, i);
    if ss[i].head == ss[i].tail && !ss[i].busy { IdleMeansWritten(ss[i]); }
  }

  lemma {:induction false} OfferedIsBoth(os: seq<Offer>)
    ensures |os| == |Accepted(os)| + Refused(os)
    decreases |os|
  {
    if os != [] { OfferedIsBoth(os[..|os| - 1]); }
  }

  /** The predicate rt_log_drain waits on means that every accepted line is in the file. */
  lemma IdleMeansWritten(s: Log)
    requires Kept(s) && s.head == s.tail && !s.busy
    ensures Written(s.file) == Accepted(s.offers)
  {
    EmptyQueue(s);
  }

  /** So does the exit sweep, which needs no writer. */
  lemma SweepEmpties(s: Log)
    requires Kept(s) && s.writer == Gone
    ensures Queue(Next(s, Sweep)) == [] && Written(Next(s, Sweep).file) == Accepted(s.offers)
  {
    SweepKept(s);
    EmptyQueue(Next(s, Sweep));
  }

  /** A batch with a drop note is exactly a full ring, and the dropped lines were all offered after
      every line of it: the note is written ahead of the batch, but the gap it reports follows it. */
  lemma NotePrecedesItsBatch(s: Log)
    requires Kept(s) && CanStep(s, Drain) && s.dropped > 0
    ensures var b, r := Next(s, Drain), Next(Next(s, Drain), WriteBatch);
            && |b.batch| == SLOTS - 1
            && r.file == s.file + [Note(s.dropped)] + AsQueued(b.batch)
            && AllRefused(s.offers[|s.offers| - s.dropped..])
            && Accepted(s.offers[..|s.offers| - s.dropped]) == Written(s.file) + b.batch
  {
    hide Written, Noted, Echoed, Pending;
    var os, n := s.offers, |s.offers| - s.dropped;
    RefusedTail(os[..n], os[n..]);
    assert os == os[..n] + os[n..];
  }

  lemma {:induction false} RefusedTail(a: seq<Offer>, b: seq<Offer>)
    requires AllRefused(b)
    ensures Accepted(a + b) == Accepted(a)
    decreases |b|
  {
    if b == [] {
      assert a + b == a;
    } else {
      assert (a + b)[..|a + b| - 1] == a + b[..|b| - 1];
      RefusedTail(a, b[..|b| - 1]);
    }
  }

  /** Refusals after the writer's last drain are never noted: the sweep writes lines, not a note. */
  lemma SweepNotesNothing(s: Log)
    requires Kept(s) && s.writer == Gone
    ensures Noted(Next(s, Sweep).file) == Noted(s.file) && Next(s, Sweep).dropped == s.dropped
  {
    WrittenAppend(s.file, AsQueued(Queue(s)));
    WrittenQueued(Queue(s));
  }
}
