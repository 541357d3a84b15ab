/** What the SIF puts on the timeline: replies queued for deferred delivery into the EE's one receive
    buffer, and the pad's tick once a field. */
module Sif {
  import opened Timers

  const LATENCY: nat := 4096
  const RETRY: nat := 512

  datatype Kind = Packet | FreePacket | BootEnd

  /** `tag` says which reply it is. */
  datatype Delivery = Delivery(kind: Kind, due: nat, tag: nat)

  /** `busy` is whether the EE has yet to take the packet last written into its receive buffer. */
  datatype Link = Link(queue: seq<Delivery>, busy: bool, pad: nat)

  /** What a run of the due deliveries did: the link, and the deliveries that went out, in order. */
  datatype Ran = Ran(link: Link, out: seq<Delivery>)

  /** The delivery that goes next: the earliest due, first among equals. */
  function Earliest(q: seq<Delivery>): (i: nat)
    requires q != []
    ensures i < |q| && forall j | 0 <= j < |q| :: q[i].due <= q[j].due && (j < i ==> q[i].due < q[j].due)
  {
    var n := |q| - 1;
    if n == 0 then 0
    else
      var e := Earliest(q[..n]);
      if q[n].due < q[e].due then n else e
  }

  function Without(q: seq<Delivery>, i: nat): (r: seq<Delivery>)
    requires i < |q|
    ensures |r| == |q| - 1
    ensures forall d | d in r :: d in q
  {
    q[..i] + q[i + 1..]
  }

  function QueueNext(q: seq<Delivery>): (best: nat)
    ensures best <= NEVER
    ensures forall j | 0 <= j < |q| :: best <= q[j].due
  {
    if q == [] then NEVER else Min(NEVER, q[Earliest(q)].due)
  }

  function SifNext(l: Link): nat {
    Min(QueueNext(l.queue), l.pad)
  }

  /** Deliveries that carry no packet all go out; of the packets, at most one, and only into a free
      buffer: one that finds it busy is put off, and everything behind it waits. */
  function RunQueue(l: Link, now: nat): (r: Ran)
    ensures r.link.pad == l.pad
    decreases |l.queue|
  {
    if l.queue == [] || l.queue[Earliest(l.queue)].due > now then Ran(l, [])
    else
      var i := Earliest(l.queue);
      var d := l.queue[i];
      if d.kind != Packet then
        var r := RunQueue(l.(queue := Without(l.queue, i)), now);
        Ran(r.link, [d] + r.out)
      else if l.busy then Ran(l.(queue := l.queue[i := d.(due := now + RETRY)]), [])
      else Ran(l.(queue := Without(l.queue, i), busy := true), [d])
  }

  /** The pad ticks once a field, at the field length in force when it ticks. */
  function PadAfter(pad: nat, now: nat, field: nat): (r: nat)
    requires field > 0
    ensures r > now && r >= pad
    decreases if pad <= now then now - pad + 1 else 0
  {
    if pad <= now then PadAfter(pad + field, now, field) else pad
  }

  function RunDue(l: Link, now: nat, field: nat): Ran
    requires field > 0
  {
    var r := RunQueue(l, now);
    r.(link := r.link.(pad := PadAfter(l.pad, now, field)))
  }

  /** Deliveries due by cycle c. */
  function DueBy(q: seq<Delivery>, c: nat): nat {
    if q == [] then 0
    else DueBy(q[..|q| - 1], c) + (if q[|q| - 1].due <= c then 1 else 0)
  }

  ghost predicate NoneOverdue(l: Link, now: nat) {
    now <= l.pad && forall d | d in l.queue :: now <= d.due
  }

  lemma {:induction false} DueByConcat(a: seq<Delivery>, b: seq<Delivery>, c: nat)
    ensures DueBy(a + b, c) == DueBy(a, c) + DueBy(b, c)
  {
    if b == [] {
      assert a + b == a;
    } else {
      var n := |b| - 1;
      DueByConcat(a, b[..n], c);
      assert (a + b)[..|a| + n] == a + b[..n];
    }
  }

  lemma DueByOne(d: Delivery, c: nat)
    ensures DueBy([d], c) == if d.due <= c then 1 else 0
  {
    assert [d][..0] == [];
  }

  lemma DueByAt(q: seq<Delivery>, i: nat, d: Delivery, c: nat)
    requires i < |q|
    ensures DueBy(q[i := d], c) == DueBy(Without(q, i), c) + if d.due <= c then 1 else 0
  {
    assert q[i := d] == q[..i] + [d] + q[i + 1..];
    DueByConcat(q[..i] + [d], q[i + 1..], c);
    DueByConcat(q[..i], [d], c);
    DueByConcat(q[..i], q[i + 1..], c);
    DueByOne(d, c);
  }

  /** A run of the queue: whatever is then still due stays behind a busy buffer, nothing is overdue,
      and if something was due then less is. */
  lemma {:induction false} RunQueueOk(l: Link, now: nat)
    requires forall d | d in l.queue :: now <= d.due
    ensures var r := RunQueue(l, now);
            && (forall d | d in r.link.queue :: now <= d.due)
            && DueBy(r.link.queue, now) <= DueBy(l.queue, now)
            && (QueueNext(l.queue) <= now < NEVER ==> DueBy(r.link.queue, now) < DueBy(l.queue, now))
    decreases |l.queue|
  {
    if l.queue != [] && l.queue[Earliest(l.queue)].due <= now {
      var i := Earliest(l.queue);
      var d := l.queue[i];
      assert l.queue[i := d] == l.queue;
      DueByAt(l.queue, i, d, now);
      if d.kind != Packet {
        RunQueueOk(l.(queue := Without(l.queue, i)), now);
      } else if l.busy {
        DueByAt(l.queue, i, d.(due := now + RETRY), now);
      }
    }
  }

  /** With nothing due the queue stays as it is. */
  lemma QueueStays(l: Link, now: nat)
    requires QueueNext(l.queue) > now
    ensures RunQueue(l, now) == Ran(l, [])
  {}

  lemma SifNextIsLeast(l: Link, now: nat)
    requires NoneOverdue(l, now) && now <= NEVER
    ensures now <= SifNext(l) && NoneOverdue(l, SifNext(l))
    ensures forall c: nat | c <= SifNext(l) :: NoneOverdue(l, c)
  {}

  /** Every delivery either goes out or stays queued. */
  lemma {:induction false} RunQueueConserves(l: Link, now: nat)
    ensures var r := RunQueue(l, now);
            multiset(Tags(l.queue)) == multiset(Tags(r.link.queue)) + multiset(Tags(r.out))
    decreases |l.queue|
  {
    hide Earliest, Without, Tags;
    if l.queue != [] && l.queue[Earliest(l.queue)].due <= now {
      var i := Earliest(l.queue);
      var d := l.queue[i];
      TagsAt(l.queue, i, d.(due := now + RETRY));
      TagsOne(d);
      if d.kind != Packet {
        var l1 := l.(queue := Without(l.queue, i));
        RunQueueConserves(l1, now);
        TagsConcat([d], RunQueue(l1, now).out);
      }
    }
    TagsNone();
  }

  /** None goes out before it is due; and a packet goes out only into a free buffer, alone, and leaves it
      busy. */
  lemma {:induction false} RunQueueRespects(l: Link, now: nat)
    ensures var r := RunQueue(l, now);
            && (forall d | d in r.out :: d in l.queue && d.due <= now)
            && Packets(r.out) == (if !l.busy && r.link.busy then 1 else 0)
            && (l.busy ==> r.link.busy)
    decreases |l.queue|
  {
    hide Earliest, Without, Packets;
    PacketsNone();
    if l.queue != [] && l.queue[Earliest(l.queue)].due <= now {
      var i := Earliest(l.queue);
      var d := l.queue[i];
      var l1 := l.(queue := Without(l.queue, i));
      if d.kind != Packet {
        RunQueueRespects(l1, now);
        PacketsCons(d, RunQueue(l1, now).out);
      } else {
        PacketsCons(d, []);
        assert [d] + [] == [d];
      }
    }
  }

  function Tags(q: seq<Delivery>): (r: seq<nat>)
    ensures |r| == |q|
  {
    seq(|q|, i requires 0 <= i < |q| => q[i].tag)
  }

  function Packets(q: seq<Delivery>): nat {
    if q == [] then 0 else (if q[0].kind == Packet then 1 else 0) + Packets(q[1..])
  }

  lemma PacketsCons(d: Delivery, q: seq<Delivery>)
    ensures Packets([d] + q) == (if d.kind == Packet then 1 else 0) + Packets(q)
  {
    assert ([d] + q)[1..] == q;
  }

  lemma TagsConcat(a: seq<Delivery>, b: seq<Delivery>)
    ensures Tags(a + b) == Tags(a) + Tags(b)
  {}

  lemma TagsNone()
    ensures Tags([]) == []
  {}

  lemma PacketsNone()
    ensures Packets([]) == 0
  {}

  lemma TagsOne(d: Delivery)
    ensures Tags([d]) == [d.tag]
  {}

  lemma TagsAt(q: seq<Delivery>, i: nat, d: Delivery)
    requires i < |q| && d.tag == q[i].tag
    ensures Tags(q[i := d]) == Tags(q)
    ensures multiset(Tags(q)) == multiset(Tags(Without(q, i))) + multiset{d.tag}
  {
    assert q == q[..i] + [q[i]] + q[i + 1..];
    TagsConcat(q[..i] + [q[i]], q[i + 1..]);
    TagsConcat(q[..i], [q[i]]);
    TagsConcat(q[..i], q[i + 1..]);
    TagsOne(q[i]);
  }

  /** From `start` the run has got to `l`, and `out` has gone. */
  predicate Leads(start: Link, l: Link, out: seq<Delivery>, now: nat) {
    RunQueue(start, now) == Ran(RunQueue(l, now).link, out + RunQueue(l, now).out)
  }

  lemma OnTheWay(start: Link, now: nat)
    ensures Leads(start, start, [], now)
  {
    hide RunQueue;
    assert [] + RunQueue(start, now).out == RunQueue(start, now).out;
  }

  lemma LeadsOn(start: Link, l: Link, l1: Link, out: seq<Delivery>, d: Delivery, now: nat)
    requires Leads(start, l, out, now)
    requires RunQueue(l, now) == Ran(RunQueue(l1, now).link, [d] + RunQueue(l1, now).out)
    ensures Leads(start, l1, out + [d], now)
  {
    hide RunQueue;
    assert out + ([d] + RunQueue(l1, now).out) == out + [d] + RunQueue(l1, now).out;
  }

  /** One turn of the loop. */
  lemma RunTurn(l: Link, now: nat)
    ensures l.queue == [] ==> RunQueue(l, now) == Ran(l, [])
    ensures l.queue != [] ==>
              var i, d := Earliest(l.queue), l.queue[Earliest(l.queue)];
              var l1 := l.(queue := Without(l.queue, i));
              RunQueue(l, now) ==
              if d.due > now then Ran(l, [])
              else if d.kind != Packet then Ran(RunQueue(l1, now).link, [d] + RunQueue(l1, now).out)
              else if l.busy then Ran(l.(queue := l.queue[i := d.(due := now + RETRY)]), [])
              else Ran(l1.(busy := true), [d])
  {
    hide Earliest, Without;
  }

  // ---- In place ----------------------------------------------------------------------

  class SifLink {
    var queue: seq<Delivery>
    var busy: bool
    var pad: nat

    constructor (firstTick: nat)
      ensures State() == Link([], false, firstTick)
    {
      queue, busy, pad := [], false, firstTick;
    }

    ghost function State(): Link
      reads this
    {
      Link(queue, busy, pad)
    }

    /** next_delivery; |queue| stands for the end iterator. */
    method NextDelivery() returns (best: nat)
      ensures queue == [] ==> best == 0
      ensures queue != [] ==> best == Earliest(queue)
    {
      best := |queue|;
      for i := 0 to |queue|
        invariant i == 0 ==> best == |queue|
        invariant i > 0 ==> best == Earliest(queue[..i])
      {
        assert queue[..i + 1][..i] == queue[..i];
        if best == |queue| || queue[i].due < queue[best].due { best := i; }
      }
      assert queue[..|queue|] == queue;
    }

    method NextEvent() returns (t: nat)
      ensures t == SifNext(State())
    {
      var i := NextDelivery();
      t := if i == |queue| then NEVER else Min(NEVER, queue[i].due);
      if pad < t { t := pad; }
    }

    method RunRpc(now: nat) returns (out: seq<Delivery>)
      modifies this`queue, this`busy
      ensures Ran(State(), out) == RunQueue(old(State()), now)
    {
      hide Earliest, Without, RunQueue;
      ghost var start := State();
      out := [];
      OnTheWay(start, now);
      while true
        invariant pad == old(pad) && Leads(start, State(), out, now)
        decreases |queue|
      {
        ghost var l := State();
        RunTurn(l, now);
        var i := NextDelivery();
        if i == |queue| { return; }
        var d := queue[i];
        if d.due > now { return; }
        if d.kind != Packet {
          queue := Without(queue, i);
          LeadsOn(start, l, State(), out, d, now);
          out := out + [d];
          continue;
        }
        if busy {
          queue := queue[i := d.(due := now + RETRY)];
          return;
        }
        busy := true;
        queue := Without(queue, i);
        out := out + [d];
        return;
      }
    }

    method Run(now: nat, field: nat) returns (out: seq<Delivery>)
      requires field > 0
      modifies this
      ensures Ran(State(), out) == RunDue(old(State()), now, field)
    {
      out := RunRpc(now);
      while pad <= now
        invariant PadAfter(pad, now, field) == PadAfter(old(pad), now, field)
        invariant Ran(Link(queue, busy, old(pad)), out) == RunQueue(old(State()), now)
        decreases now + 1 - pad
      {
        pad := pad + field;
      }
    }

    /** queue_packet and the two other places a delivery is queued; `hold` is what the service asked for. */
    method Send(kind: Kind, tag: nat, now: nat, hold: nat)
      modifies this`queue
      ensures queue == old(queue) + [Delivery(kind, now + LATENCY + hold, tag)]
    {
      queue := queue + [Delivery(kind, now + LATENCY + hold, tag)];
    }

    /** The EE's handler has copied the packet out. */
    method Taken()
      modifies this`busy
      ensures !busy
    {
      busy := false;
    }
  }
}
