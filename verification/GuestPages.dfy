/** Guest memory: the 64 KB page table with its five RAM aliases, and the loops that load, clear and
    copy page by page, proved to be flat byte-by-byte memory operations. Host memory is one buffer:
    RAM, then the scratchpad page, then the VU window page. */
module GuestPages {

  type Byte = bv8

  const PAGE: nat := 0x1_0000
  const PAGES: nat := 0x1_0000
  const SPACE: nat := 0x1_0000_0000
  const RAM_PAGES: nat := 512
  const RAM: nat := 0x200_0000
  const HOST_PAGES: nat := 514

  /** Guest address arithmetic wraps at 32 bits. */
  function At(a: nat, k: nat): (r: nat)
    ensures r < SPACE
  {
    (a + k) % SPACE
  }

  lemma AtAt(a: nat, j: nat, k: nat)
    ensures At(At(a, j), k) == At(a, j + k)
  {}

  lemma AtZero(a: nat)
    requires a < SPACE
    ensures At(a, 0) == a
  {}

  /** A page table: for each guest page, a host page, or -1 for none. */
  predicate Table(pages: seq<int>, host: nat) {
    |pages| == PAGES && forall i | 0 <= i < PAGES :: pages[i] < 0 || pages[i] * PAGE + PAGE <= host
  }

  /** Where a guest address is in host memory, or -1. */
  function Phys(pages: seq<int>, a: nat): int
    requires |pages| == PAGES && a < SPACE
  {
    if pages[a / PAGE] < 0 then -1 else pages[a / PAGE] * PAGE + a % PAGE
  }

  // ---- The page table rt_mem_init builds ---------------------------------------------------

  predicate RamPrefix(base: nat) {
    base == 0 || base == 0x2000 || base == 0x3000 || base == 0x8000 || base == 0xA000
  }

  function BootPage(i: nat): int {
    if i < RAM_PAGES then i
    else if 0x2000 <= i < 0x2000 + RAM_PAGES then i - 0x2000
    else if 0x3000 <= i < 0x3000 + RAM_PAGES then i - 0x3000
    else if 0x8000 <= i < 0x8000 + RAM_PAGES then i - 0x8000
    else if 0xA000 <= i < 0xA000 + RAM_PAGES then i - 0xA000
    else if i == 0x7000 then 512
    else if i == 0x1100 then 513
    else -1
  }

  predicate Booted(pages: seq<int>) {
    |pages| == PAGES && forall i | 0 <= i < PAGES :: pages[i] == BootPage(i)
  }

  lemma BootedIsTable(pages: seq<int>)
    requires Booted(pages)
    ensures Table(pages, HOST_PAGES * PAGE)
  {}

  /** Every RAM byte is at all five prefixes. */
  lemma FiveAliases(pages: seq<int>, base: nat, off: nat)
    requires Booted(pages) && RamPrefix(base) && off < RAM
    ensures base * PAGE + off < SPACE && Phys(pages, base * PAGE + off) == off
  {
    PageOf(base, off);
  }

  lemma PageOf(base: nat, off: nat)
    ensures (base * PAGE + off) / PAGE == base + off / PAGE && (base * PAGE + off) % PAGE == off % PAGE
  {}

  // ---- Flat memory ----------------------------------------------------------------------------

  datatype Outcome = Done(mem: seq<Byte>) | Unmapped(a: nat, mem: seq<Byte>)

  /** Writes the bytes one by one, addresses wrapping at 32 bits, up to the first unmapped one. */
  function WriteBytes(mem: seq<Byte>, pages: seq<int>, a: nat, data: seq<Byte>): (r: Outcome)
    requires Table(pages, |mem|) && a < SPACE
    ensures |r.mem| == |mem|
    decreases |data|
  {
    if data == [] then Done(mem)
    else
      var p := Phys(pages, a);
      if p < 0 then Unmapped(a, mem) else WriteBytes(mem[p := data[0]], pages, At(a, 1), data[1..])
  }

  /** The guest range as host positions; a well-formed one is mapped and meets no byte twice. */
  function Place(pages: seq<int>, a: nat, i: nat): int
    requires |pages| == PAGES && a < SPACE
  {
    Phys(pages, At(a, i))
  }

  predicate Mapped(pages: seq<int>, a: nat, n: nat)
    requires |pages| == PAGES && a < SPACE
  {
    forall i | 0 <= i < n :: Place(pages, a, i) >= 0
  }

  predicate Simple(pages: seq<int>, a: nat, n: nat)
    requires |pages| == PAGES && a < SPACE
  {
    Mapped(pages, a, n) && forall i, j | 0 <= i < j < n :: Place(pages, a, i) != Place(pages, a, j)
  }

  /** `after` has the bytes at the range and is otherwise `before`. */
  predicate Holds(before: seq<Byte>, after: seq<Byte>, pages: seq<int>, a: nat, data: seq<Byte>)
    requires Table(pages, |before|) && a < SPACE && Mapped(pages, a, |data|)
  {
    && |after| == |before|
    && (forall i | 0 <= i < |data| :: after[Place(pages, a, i)] == data[i])
    && (forall q | 0 <= q < |before| && Outside(pages, a, |data|, q) :: after[q] == before[q])
  }

  predicate Outside(pages: seq<int>, a: nat, n: nat, q: nat)
    requires |pages| == PAGES && a < SPACE
  {
    forall i | 0 <= i < n :: Place(pages, a, i) != q
  }

  lemma Shift(pages: seq<int>, a: nat, i: nat)
    requires |pages| == PAGES && a < SPACE
    ensures Place(pages, At(a, 1), i) == Place(pages, a, i + 1)
  {
    AtAt(a, 1, i);
  }

  /** Writing a mapped range puts every byte in place and changes nothing else. */
  lemma {:induction false} WriteMeans(mem: seq<Byte>, pages: seq<int>, a: nat, data: seq<Byte>)
    requires Table(pages, |mem|) && a < SPACE && Simple(pages, a, |data|)
    ensures WriteBytes(mem, pages, a, data).Done?
    ensures Holds(mem, WriteBytes(mem, pages, a, data).mem, pages, a, data)
    decreases |data|
  {
    if data != [] {
      assert Place(pages, a, 0) == Phys(pages, a);
      var p, a1, rest := Phys(pages, a), At(a, 1), data[1..];
      var m1 := mem[p := data[0]];
      forall i | 0 <= i < |rest| ensures Place(pages, a1, i) == Place(pages, a, i + 1) { Shift(pages, a, i); }
      WriteMeans(m1, pages, a1, rest);
      var r := WriteBytes(m1, pages, a1, rest).mem;
      forall i | 0 <= i < |data| ensures r[Place(pages, a, i)] == data[i] {
        if i > 0 { assert r[Place(pages, a1, i - 1)] == rest[i - 1]; } else { assert Outside(pages, a1, |rest|, p); }
      }
      forall q | 0 <= q < |mem| && Outside(pages, a, |data|, q) ensures r[q] == mem[q] {
        assert Place(pages, a, 0) != q;
        assert Outside(pages, a1, |rest|, q);
      }
    }
  }

  /** It fails exactly when some byte of the range is unmapped. */
  lemma {:induction false} WriteFailsIff(mem: seq<Byte>, pages: seq<int>, a: nat, data: seq<Byte>)
    requires Table(pages, |mem|) && a < SPACE
    ensures WriteBytes(mem, pages, a, data).Done? <==> Mapped(pages, a, |data|)
    decreases |data|
  {
    if data != [] {
      assert Place(pages, a, 0) == Phys(pages, a);
      var p, a1, rest := Phys(pages, a), At(a, 1), data[1..];
      forall i | 0 <= i < |rest| ensures Place(pages, a1, i) == Place(pages, a, i + 1) { Shift(pages, a, i); }
      if p >= 0 {
        WriteFailsIff(mem[p := data[0]], pages, a1, rest);
        if Mapped(pages, a1, |rest|) {
          forall i | 0 <= i < |data| ensures Place(pages, a, i) >= 0 {
            if i > 0 { assert Place(pages, a1, i - 1) >= 0; }
          }
        }
        if Mapped(pages, a, |data|) {
          forall i | 0 <= i < |rest| ensures Place(pages, a1, i) >= 0 { assert Place(pages, a, i + 1) >= 0; }
        }
      }
    }
  }

  /** A range inside one RAM prefix is mapped without repetition. */
  lemma RamIsSimple(pages: seq<int>, base: nat, off: nat, n: nat, a: nat)
    requires Booted(pages) && RamPrefix(base) && off + n <= RAM && a == base * PAGE + off && a < SPACE
    ensures Simple(pages, a, n)
    ensures forall i | 0 <= i < n :: Place(pages, a, i) == off + i
  {
    hide Phys;
    forall i | 0 <= i < n ensures Place(pages, a, i) == off + i {
      FiveAliases(pages, base, off + i);
      NoWrap(a + i);
    }
  }

  lemma NoWrap(x: nat)
    requires x < SPACE
    ensures x % SPACE == x
  {}

  /** What is written through one RAM prefix is read back through every other. */
  lemma AliasesShareBytes(mem: seq<Byte>, pages: seq<int>, b0: nat, b1: nat, off: nat, data: seq<Byte>, x: nat, y: nat)
    requires Booted(pages) && |mem| == HOST_PAGES * PAGE && RamPrefix(b0) && RamPrefix(b1) && off + |data| <= RAM
    requires x == b0 * PAGE + off && y == b1 * PAGE + off && x < SPACE && y < SPACE
    ensures Table(pages, |mem|) && Mapped(pages, y, |data|)
    ensures Bytes(WriteBytes(mem, pages, x, data).mem, pages, y, |data|) == data
  {
    BootedIsTable(pages);
    RamIsSimple(pages, b0, off, |data|, x);
    RamIsSimple(pages, b1, off, |data|, y);
    WriteMeans(mem, pages, x, data);
    var r := WriteBytes(mem, pages, x, data).mem;
    forall i | 0 <= i < |data| ensures Bytes(r, pages, y, |data|)[i] == data[i] {
      assert Place(pages, y, i) == off + i == Place(pages, x, i);
    }
  }

  // ---- Segments ------------------------------------------------------------------------------------

  datatype Segment = Segment(vaddr: nat, offset: nat, filesz: nat, memsz: nat)

  predicate Words(g: Segment) {
    g.vaddr < SPACE && g.offset < SPACE && g.filesz < SPACE && g.memsz < SPACE
  }

  function Zeros(n: nat): seq<Byte> { seq(n, _ => 0) }

  datatype Load = Loaded(mem: seq<Byte>) | NoData(mem: seq<Byte>) | BadAddress(a: nat, mem: seq<Byte>)

  function FromOutcome(o: Outcome): Load {
    match o
    case Done(m) => Loaded(m)
    case Unmapped(a, m) => BadAddress(a, m)
  }

  function LoadSegment(mem: seq<Byte>, pages: seq<int>, file: seq<Byte>, g: Segment): (r: Load)
    requires Table(pages, |mem|) && Words(g)
    ensures |r.mem| == |mem|
  {
    if g.filesz > 0 && g.offset + g.filesz > |file| then NoData(mem)
    else
      var w := if g.filesz > 0 then WriteBytes(mem, pages, g.vaddr, file[g.offset..g.offset + g.filesz]) else Done(mem);
      if w.Done? && g.memsz > g.filesz
      then FromOutcome(WriteBytes(w.mem, pages, At(g.vaddr, g.filesz), Zeros(g.memsz - g.filesz)))
      else FromOutcome(w)
  }

  /** The file bytes of a segment are all there; a segment without any may have any offset. */
  predicate HasData(file: seq<Byte>, g: Segment) {
    g.filesz > 0 ==> g.offset + g.filesz <= |file|
  }

  /** How much memory the segment takes. */
  function Extent(g: Segment): nat {
    if g.memsz > g.filesz then g.memsz else g.filesz
  }

  function FileBytes(file: seq<Byte>, g: Segment): (r: seq<Byte>)
    requires HasData(file, g)
    ensures |r| == g.filesz
  {
    if g.filesz > 0 then file[g.offset..g.offset + g.filesz] else []
  }

  /** What the segment's memory should hold: its file bytes, then zeros. */
  function Image(file: seq<Byte>, g: Segment): (r: seq<Byte>)
    requires HasData(file, g)
    ensures |r| == Extent(g)
  {
    FileBytes(file, g) + Zeros(Extent(g) - g.filesz)
  }

  lemma {:induction false} WriteAppend(mem: seq<Byte>, pages: seq<int>, a: nat, x: seq<Byte>, y: seq<Byte>)
    requires Table(pages, |mem|) && a < SPACE && WriteBytes(mem, pages, a, x).Done?
    ensures WriteBytes(mem, pages, a, x + y) == WriteBytes(WriteBytes(mem, pages, a, x).mem, pages, At(a, |x|), y)
    decreases |x|
  {
    if x == [] {
      assert x + y == y;
    } else {
      hide Phys;
      var p := Phys(pages, a);
      assert (x + y)[1..] == x[1..] + y && (x + y)[0] == x[0];
      WriteAppend(mem[p := x[0]], pages, At(a, 1), x[1..], y);
      AtAt(a, 1, |x[1..]|);
    }
  }

  /** After a segment is loaded its file bytes and its zeroed tail are in place and no other byte
      has changed. */
  lemma SegmentInPlace(mem: seq<Byte>, pages: seq<int>, file: seq<Byte>, g: Segment)
    requires Table(pages, |mem|) && Words(g) && HasData(file, g) && Simple(pages, g.vaddr, Extent(g))
    ensures LoadSegment(mem, pages, file, g).Loaded?
    ensures Holds(mem, LoadSegment(mem, pages, file, g).mem, pages, g.vaddr, Image(file, g))
  {
    hide WriteBytes, Holds;
    var x, y := FileBytes(file, g), Zeros(Extent(g) - g.filesz);
    WriteMeans(mem, pages, g.vaddr, x + y);
    WriteFailsIff(mem, pages, g.vaddr, x);
    WriteNothing(mem, pages, g.vaddr);
    WriteAppend(mem, pages, g.vaddr, x, y);
    if g.filesz == 0 { assert x == []; }
    if g.memsz <= g.filesz { assert x + y == x; }
  }

  lemma WriteNothing(mem: seq<Byte>, pages: seq<int>, a: nat)
    requires Table(pages, |mem|) && a < SPACE
    ensures WriteBytes(mem, pages, a, []) == Done(mem)
  {}

  predicate AllWords(gs: seq<Segment>) {
    forall k | 0 <= k < |gs| :: Words(gs[k])
  }

  /** The PT_LOAD segments, in order, up to the first that fails. */
  function LoadAll(mem: seq<Byte>, pages: seq<int>, file: seq<Byte>, gs: seq<Segment>): (r: Load)
    requires Table(pages, |mem|) && AllWords(gs)
    ensures |r.mem| == |mem|
  {
    if gs == [] then Loaded(mem)
    else
      var r := LoadAll(mem, pages, file, gs[..|gs| - 1]);
      if r.Loaded? then LoadSegment(r.mem, pages, file, gs[|gs| - 1]) else r
  }

  predicate Sound(pages: seq<int>, file: seq<Byte>, g: Segment)
    requires |pages| == PAGES
  {
    Words(g) && HasData(file, g) && Simple(pages, g.vaddr, Extent(g))
  }

  predicate AllSound(pages: seq<int>, file: seq<Byte>, gs: seq<Segment>)
    requires |pages| == PAGES
  {
    forall k | 0 <= k < |gs| :: Sound(pages, file, gs[k])
  }

  predicate Apart(pages: seq<int>, g: Segment, k: Segment)
    requires |pages| == PAGES && Words(g) && Words(k)
  {
    forall i, j | 0 <= i < Extent(g) && 0 <= j < Extent(k) :: Place(pages, g.vaddr, i) != Place(pages, k.vaddr, j)
  }

  predicate InPlace(mem: seq<Byte>, pages: seq<int>, file: seq<Byte>, g: Segment)
    requires Table(pages, |mem|) && Sound(pages, file, g)
  {
    Bytes(mem, pages, g.vaddr, Extent(g)) == Image(file, g)
  }

  /** Segments that share no byte all end up in place, whatever their order. */
  lemma {:induction false} AllInPlace(mem: seq<Byte>, pages: seq<int>, file: seq<Byte>, gs: seq<Segment>)
    requires Table(pages, |mem|) && AllWords(gs) && AllSound(pages, file, gs)
    requires forall k, l | 0 <= k < l < |gs| :: Apart(pages, gs[k], gs[l])
    ensures LoadAll(mem, pages, file, gs).Loaded?
    ensures forall k | 0 <= k < |gs| :: InPlace(LoadAll(mem, pages, file, gs).mem, pages, file, gs[k])
    decreases |gs|
  {
    hide Simple, Mapped, Place, Bytes, LoadSegment;
    if gs != [] {
      var n := |gs| - 1;
      AllInPlace(mem, pages, file, gs[..n]);
      var m := LoadAll(mem, pages, file, gs[..n]).mem;
      assert Sound(pages, file, gs[n]);
      SegmentInPlace(m, pages, file, gs[n]);
      var r := LoadSegment(m, pages, file, gs[n]).mem;
      forall k | 0 <= k < |gs| ensures InPlace(r, pages, file, gs[k]) {
        if k < n { OthersStay(m, r, pages, file, gs[k], gs[n]); } else { HoldsIsInPlace(m, r, pages, file, gs[n]); }
      }
    }
  }

  lemma HoldsIsInPlace(m: seq<Byte>, r: seq<Byte>, pages: seq<int>, file: seq<Byte>, g: Segment)
    requires Table(pages, |m|) && Sound(pages, file, g) && Holds(m, r, pages, g.vaddr, Image(file, g))
    ensures InPlace(r, pages, file, g)
  {}

  lemma OthersStay(m: seq<Byte>, r: seq<Byte>, pages: seq<int>, file: seq<Byte>, k: Segment, g: Segment)
    requires Table(pages, |m|) && Sound(pages, file, g) && Sound(pages, file, k) && Apart(pages, k, g)
    requires InPlace(m, pages, file, k) && Holds(m, r, pages, g.vaddr, Image(file, g))
    ensures InPlace(r, pages, file, k)
  {
    forall i | 0 <= i < Extent(k)
      ensures Bytes(r, pages, k.vaddr, Extent(k))[i] == Bytes(m, pages, k.vaddr, Extent(k))[i]
    {
      assert Outside(pages, g.vaddr, Extent(g), Place(pages, k.vaddr, i));
    }
  }

  // ---- Copy ------------------------------------------------------------------------------------------

  function CopyBytes(mem: seq<Byte>, pages: seq<int>, dest: nat, src: nat, n: nat): (r: Outcome)
    requires Table(pages, |mem|) && dest < SPACE && src < SPACE
    ensures |r.mem| == |mem|
    decreases n
  {
    if n == 0 then Done(mem)
    else
      var d, s := Phys(pages, dest), Phys(pages, src);
      if d < 0 || s < 0 then Unmapped(if d < 0 then dest else src, mem)
      else CopyBytes(mem[d := mem[s]], pages, At(dest, 1), At(src, 1), n - 1)
  }

  predicate Disjoint(pages: seq<int>, dest: nat, src: nat, n: nat)
    requires |pages| == PAGES && dest < SPACE && src < SPACE
  {
    forall i, j | 0 <= i < n && 0 <= j < n :: Place(pages, dest, i) != Place(pages, src, j)
  }

  function Bytes(mem: seq<Byte>, pages: seq<int>, a: nat, n: nat): (r: seq<Byte>)
    requires Table(pages, |mem|) && a < SPACE && Mapped(pages, a, n)
  {
    seq(n, i requires 0 <= i < n => mem[Place(pages, a, i)])
  }

  /** On physically disjoint ranges the copy is a write of what the source held. */
  lemma {:induction false} CopyIsWrite(mem: seq<Byte>, pages: seq<int>, dest: nat, src: nat, n: nat)
    requires Table(pages, |mem|) && dest < SPACE && src < SPACE
    requires Mapped(pages, dest, n) && Mapped(pages, src, n) && Disjoint(pages, dest, src, n)
    ensures CopyBytes(mem, pages, dest, src, n) == WriteBytes(mem, pages, dest, Bytes(mem, pages, src, n))
    decreases n
  {
    hide At;
    if n > 0 {
      AtZero(dest);
      AtZero(src);
      var d, s := Phys(pages, dest), Phys(pages, src);
      assert Place(pages, dest, 0) == d && Place(pages, src, 0) == s;
      var d1, s1, m1 := At(dest, 1), At(src, 1), mem[d := mem[s]];
      forall i | 0 <= i < n - 1
        ensures Place(pages, d1, i) == Place(pages, dest, i + 1) && Place(pages, s1, i) == Place(pages, src, i + 1)
      {
        Shift(pages, dest, i);
        Shift(pages, src, i);
      }
      CopyIsWrite(m1, pages, d1, s1, n - 1);
      assert Bytes(m1, pages, s1, n - 1) == Bytes(mem, pages, src, n)[1..];
    }
  }

  /** So the destination ends up with the source's bytes and no other byte changes. */
  lemma CopyMeans(mem: seq<Byte>, pages: seq<int>, dest: nat, src: nat, n: nat)
    requires Table(pages, |mem|) && dest < SPACE && src < SPACE
    requires Simple(pages, dest, n) && Mapped(pages, src, n) && Disjoint(pages, dest, src, n)
    ensures var r := CopyBytes(mem, pages, dest, src, n);
            r.Done? && Holds(mem, r.mem, pages, dest, Bytes(mem, pages, src, n))
  {
    CopyIsWrite(mem, pages, dest, src, n);
    WriteMeans(mem, pages, dest, Bytes(mem, pages, src, n));
  }

  // ---- Page by page -------------------------------------------------------------------------------

  class Memory {
    const host: array<Byte>
    const pages: seq<int>   // g_pages, filled once at start

    ghost predicate Valid() {
      Table(pages, host.Length)
    }

    /** rt_mem_init. */
    constructor ()
      ensures Valid() && Booted(pages) && host.Length == HOST_PAGES * PAGE && fresh(host)
    {
      host := new Byte[HOST_PAGES * PAGE](_ => 0);
      var table := new int[PAGES](_ => -1);
      MapRamPrefix(table, 0x0000);
      MapRamPrefix(table, 0x2000);
      MapRamPrefix(table, 0x3000);
      MapRamPrefix(table, 0x8000);
      MapRamPrefix(table, 0xA000);
      table[0x7000] := 512;
      table[0x1100] := 513;
      pages := table[..];
    }

    /** map_ram_prefix. */
    static method MapRamPrefix(table: array<int>, base: nat)
      requires table.Length == PAGES && base + RAM_PAGES <= PAGES
      modifies table
      ensures forall i | 0 <= i < PAGES :: table[i] == if base <= i < base + RAM_PAGES then i - base else old(table[i])
    {
      for i := 0 to RAM_PAGES
        invariant forall j | 0 <= j < PAGES :: table[j] == if base <= j < base + i then j - base else old(table[j])
      {
        table[base + i] := i;
      }
    }

    /** memcpy of bytes that stay inside addr's page; `rest` is what is still to be written. */
    method PutChunk(addr: nat, piece: seq<Byte>, ghost rest: seq<Byte>)
      requires Valid() && addr < SPACE && pages[addr / PAGE] >= 0 && addr % PAGE + |piece| <= PAGE
      modifies host
      ensures WriteBytes(host[..], pages, At(addr, |piece|), rest) ==
              WriteBytes(old(host[..]), pages, addr, piece + rest)
    {
      hide At, Phys;
      AtZero(addr);
      var at := pages[addr / PAGE] * PAGE + addr % PAGE;
      assert piece[0..] + rest == piece + rest;
      for k := 0 to |piece|
        invariant WriteBytes(host[..], pages, At(addr, k), piece[k..] + rest) ==
                  WriteBytes(old(host[..]), pages, addr, piece + rest)
      {
        InPage(pages, addr, k);
        AtAt(addr, k, 1);
        assert (piece[k..] + rest)[1..] == piece[k + 1..] + rest;
        host[at + k] := piece[k];
      }
      assert piece[|piece|..] + rest == rest;
    }

    /** memset to zero inside addr's page. */
    method ClearChunk(addr: nat, count: nat, ghost rest: nat)
      requires Valid() && addr < SPACE && pages[addr / PAGE] >= 0 && addr % PAGE + count <= PAGE
      modifies host
      ensures WriteBytes(host[..], pages, At(addr, count), Zeros(rest)) ==
              WriteBytes(old(host[..]), pages, addr, Zeros(count + rest))
    {
      hide At, Phys;
      AtZero(addr);
      var at := pages[addr / PAGE] * PAGE + addr % PAGE;
      for k := 0 to count
        invariant WriteBytes(host[..], pages, At(addr, k), Zeros(count - k + rest)) ==
                  WriteBytes(old(host[..]), pages, addr, Zeros(count + rest))
      {
        InPage(pages, addr, k);
        AtAt(addr, k, 1);
        assert Zeros(count - k + rest)[1..] == Zeros(count - (k + 1) + rest);
        host[at + k] := 0;
      }
    }

    /** write_guest_bytes: page by page, up to the first page that is not mapped. */
    method WriteGuest(vaddr: nat, data: seq<Byte>) returns (bad: int)
      requires Valid() && vaddr < SPACE
      modifies host
      ensures WriteBytes(old(host[..]), pages, vaddr, data) ==
              if bad < 0 then Done(host[..]) else Unmapped(bad, host[..])
    {
      hide At;
      AtZero(vaddr);
      ghost var goal := WriteBytes(host[..], pages, vaddr, data);
      var off := 0;
      assert data[0..] == data;
      while off < |data|
        invariant off <= |data|
        invariant WriteBytes(host[..], pages, At(vaddr, off), data[off..]) == goal
      {
        var addr := At(vaddr, off);
        if pages[addr / PAGE] < 0 { return addr; }
        var chunk := if |data| - off < PAGE - addr % PAGE then |data| - off else PAGE - addr % PAGE;
        assert data[off..off + chunk] + data[off + chunk..] == data[off..];
        PutChunk(addr, data[off..off + chunk], data[off + chunk..]);
        AtAt(vaddr, off, chunk);
        off := off + chunk;
      }
      return -1;
    }

    /** zero_guest_bytes. */
    method ZeroGuest(vaddr: nat, len: nat) returns (bad: int)
      requires Valid() && vaddr < SPACE
      modifies host
      ensures WriteBytes(old(host[..]), pages, vaddr, Zeros(len)) ==
              if bad < 0 then Done(host[..]) else Unmapped(bad, host[..])
    {
      hide At;
      AtZero(vaddr);
      ghost var goal := WriteBytes(host[..], pages, vaddr, Zeros(len));
      var off := 0;
      while off < len
        invariant off <= len
        invariant WriteBytes(host[..], pages, At(vaddr, off), Zeros(len - off)) == goal
      {
        var addr := At(vaddr, off);
        if pages[addr / PAGE] < 0 { return addr; }
        var chunk := if len - off < PAGE - addr % PAGE then len - off else PAGE - addr % PAGE;
        ClearChunk(addr, chunk, len - off - chunk);
        AtAt(vaddr, off, chunk);
        off := off + chunk;
      }
      return -1;
    }

    /** The PT_LOAD loop: `ok`, or a segment's data is past the end of the file, or an address is
        not mapped. */
    method LoadElf(file: seq<Byte>, gs: seq<Segment>) returns (ok: bool)
      requires Valid() && AllWords(gs)
      modifies host
      ensures LoadAll(old(host[..]), pages, file, gs).mem == host[..]
      ensures ok == LoadAll(old(host[..]), pages, file, gs).Loaded?
    {
      hide WriteBytes;
      for i := 0 to |gs|
        invariant LoadAll(old(host[..]), pages, file, gs[..i]) == Loaded(host[..])
      {
        assert gs[..i + 1][..i] == gs[..i];
        var g := gs[i];
        ghost var m := host[..];
        ghost var step := LoadSegment(m, pages, file, g);
        if g.filesz > 0 {
          if g.offset + g.filesz > |file| {
            FailsFrom(old(host[..]), pages, file, gs, i);
            return false;
          }
          var bad := WriteGuest(g.vaddr, file[g.offset..g.offset + g.filesz]);
          if bad >= 0 {
            FailsFrom(old(host[..]), pages, file, gs, i);
            return false;
          }
        }
        if g.memsz > g.filesz {
          var bad := ZeroGuest(At(g.vaddr, g.filesz), g.memsz - g.filesz);
          if bad >= 0 {
            FailsFrom(old(host[..]), pages, file, gs, i);
            return false;
          }
        }
        assert step == Loaded(host[..]);
      }
      assert gs[..|gs|] == gs;
      return true;
    }

    /** memcpy between two pages. */
    method CopyChunk(d: nat, s: nat, count: nat, ghost rest: nat)
      requires Valid() && d < SPACE && s < SPACE && pages[d / PAGE] >= 0 && pages[s / PAGE] >= 0
      requires d % PAGE + count <= PAGE && s % PAGE + count <= PAGE
      modifies host
      ensures CopyBytes(host[..], pages, At(d, count), At(s, count), rest) ==
              CopyBytes(old(host[..]), pages, d, s, count + rest)
    {
      hide At, Phys;
      AtZero(d);
      AtZero(s);
      var dp, sp := pages[d / PAGE] * PAGE + d % PAGE, pages[s / PAGE] * PAGE + s % PAGE;
      for k := 0 to count
        invariant CopyBytes(host[..], pages, At(d, k), At(s, k), count - k + rest) ==
                  CopyBytes(old(host[..]), pages, d, s, count + rest)
      {
        InPage(pages, d, k);
        InPage(pages, s, k);
        AtAt(d, k, 1);
        AtAt(s, k, 1);
        host[dp + k] := host[sp + k];
      }
    }

    /** h_Copy: chunks that stay inside one page on both sides. memcpy asks that what it reads and
        what it writes do not overlap. */
    method Copy(dest: nat, src: nat, n: nat) returns (bad: int)
      requires Valid() && dest < SPACE && src < SPACE
      requires Mapped(pages, dest, n) && Mapped(pages, src, n) ==> Disjoint(pages, dest, src, n)
      modifies host
      ensures CopyBytes(old(host[..]), pages, dest, src, n) ==
              if bad < 0 then Done(host[..]) else Unmapped(bad, host[..])
    {
      hide At;
      AtZero(dest);
      AtZero(src);
      ghost var goal := CopyBytes(host[..], pages, dest, src, n);
      var i := 0;
      while i < n
        invariant i <= n
        invariant CopyBytes(host[..], pages, At(dest, i), At(src, i), n - i) == goal
      {
        var d, s := At(dest, i), At(src, i);
        if pages[d / PAGE] < 0 { return d; }
        if pages[s / PAGE] < 0 { return s; }
        var longer := if d % PAGE > s % PAGE then d % PAGE else s % PAGE;
        var chunk := if PAGE - longer > n - i then n - i else PAGE - longer;
        CopyChunk(d, s, chunk, n - i - chunk);
        AtAt(dest, i, chunk);
        AtAt(src, i, chunk);
        i := i + chunk;
      }
      return -1;
    }
  }

  /** Inside one page, consecutive guest bytes are consecutive host bytes. */
  lemma InPage(pages: seq<int>, addr: nat, k: nat)
    requires |pages| == PAGES && addr < SPACE && addr % PAGE + k < PAGE && pages[addr / PAGE] >= 0
    ensures Phys(pages, At(addr, k)) == pages[addr / PAGE] * PAGE + addr % PAGE + k
  {}

  /** A segment that fails stops the load. */
  lemma {:induction false} FailsFrom(mem: seq<Byte>, pages: seq<int>, file: seq<Byte>, gs: seq<Segment>, i: nat)
    requires Table(pages, |mem|) && i < |gs| && AllWords(gs)
    requires !LoadAll(mem, pages, file, gs[..i + 1]).Loaded?
    ensures LoadAll(mem, pages, file, gs) == LoadAll(mem, pages, file, gs[..i + 1])
    decreases |gs|
  {
    hide LoadSegment;
    if i + 1 < |gs| {
      var short := gs[..|gs| - 1];
      assert short[..i + 1] == gs[..i + 1];
      FailsFrom(mem, pages, file, short, i);
    } else {
      assert gs[..i + 1] == gs;
    }
  }
}
