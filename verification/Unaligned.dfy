/** Unaligned loads and stores: lwl/lwr/swl/swr and ldl/ldr/sdl/sdr. A word is its bytes, least
    significant first; the masks the source builds are whole bytes and its shifts whole bytes, so `&`,
    `|` and shifts are bytewise. One proof serves both sizes. */
module Unaligned {

  type Byte = bv8

  function Ones(n: nat): seq<Byte> { seq(n, _ => 0xFF) }

  function Shl(w: seq<Byte>, k: nat): seq<Byte> {
    seq(|w|, i requires 0 <= i < |w| => if i < k then 0 else w[i - k])
  }

  function Shr(w: seq<Byte>, k: nat): seq<Byte> {
    seq(|w|, i requires 0 <= i < |w| => if i + k < |w| then w[i + k] else 0)
  }

  function And(a: seq<Byte>, b: seq<Byte>): seq<Byte>
    requires |a| == |b|
  {
    seq(|a|, i requires 0 <= i < |a| => a[i] & b[i])
  }

  function Or(a: seq<Byte>, b: seq<Byte>): seq<Byte>
    requires |a| == |b|
  {
    seq(|a|, i requires 0 <= i < |a| => a[i] | b[i])
  }

  function Not(a: seq<Byte>): seq<Byte> {
    seq(|a|, i requires 0 <= i < |a| => !a[i])
  }

  // ---- Memory: an access of n bytes uses the n bytes its address is aligned down to ------

  function Off(a: nat, n: nat): (r: nat)
    requires n > 0
    ensures r < n && r <= a
  {
    Remainder(a, n);
    a % n
  }

  lemma Remainder(a: nat, n: nat)
    requires n > 0
    ensures a % n <= a
  {
    if a < n { assert a % n == a; }
  }

  function Base(a: nat, n: nat): (r: nat)
    requires n > 0
    ensures r <= a < r + n
  {
    a - Off(a, n)
  }

  predicate Mapped(mem: seq<Byte>, a: nat, n: nat) {
    n > 0 && Base(a, n) + n <= |mem|
  }

  function Read(mem: seq<Byte>, a: nat, n: nat): (r: seq<Byte>)
    requires Mapped(mem, a, n)
    ensures |r| == n
  {
    mem[Base(a, n)..Base(a, n) + n]
  }

  function Write(mem: seq<Byte>, a: nat, w: seq<Byte>): seq<Byte>
    requires Mapped(mem, a, |w|)
  {
    mem[..Base(a, |w|)] + w + mem[Base(a, |w|) + |w|..]
  }

  // ---- The merges, for a word of |w| bytes and byte offset b ---------------------------

  /** lwl and ldl: mask 0x00FF.. shifted right by b bytes, the word shifted left. */
  function LoadLeft(w: seq<Byte>, cur: seq<Byte>, b: nat): (r: seq<Byte>)
    requires |cur| == |w| && b < |w|
    ensures |r| == |w|
  {
    Or(And(cur, Shr(Ones(|w| - 1) + [0], b)), Shl(w, |w| - 1 - b))
  }

  /** lwr and ldr. */
  function LoadRight(w: seq<Byte>, cur: seq<Byte>, b: nat): (r: seq<Byte>)
    requires |cur| == |w| && b < |w|
    ensures |r| == |w|
  {
    if b == 0 then w else Or(And(cur, Not(Shr(Ones(|w|), b))), Shr(w, b))
  }

  /** swl and sdl: mask 0xFF..00 shifted left by b bytes. */
  function StoreLeft(w: seq<Byte>, v: seq<Byte>, b: nat): (r: seq<Byte>)
    requires |v| == |w| && b < |w|
    ensures |r| == |w|
  {
    Or(And(w, Shl([0] + Ones(|w| - 1), b)), Shr(v, |w| - 1 - b))
  }

  /** swr and sdr. */
  function StoreRight(w: seq<Byte>, v: seq<Byte>, b: nat): (r: seq<Byte>)
    requires |v| == |w| && b < |w|
    ensures |r| == |w|
  {
    Or(And(w, Not(Shl(Ones(|w|), b))), Shl(v, b))
  }

  // ---- The instructions ------------------------------------------------------------------

  /** Sign extension of four bytes to eight. */
  function SignExtend(w: seq<Byte>): seq<Byte>
    requires |w| == 4
  {
    w + seq(4, _ => if w[3] & 0x80 != 0 then 0xFF else 0)
  }

  function Lwl(mem: seq<Byte>, a: nat, cur: seq<Byte>): seq<Byte>
    requires Mapped(mem, a, 4) && |cur| == 8
  {
    SignExtend(LoadLeft(Read(mem, a, 4), cur[..4], Off(a, 4)))
  }

  /** Sign-extends only in the aligned case; otherwise the upper half of the register is kept. */
  function Lwr(mem: seq<Byte>, a: nat, cur: seq<Byte>): seq<Byte>
    requires Mapped(mem, a, 4) && |cur| == 8
  {
    if Off(a, 4) == 0 then SignExtend(Read(mem, a, 4))
    else LoadRight(Read(mem, a, 4), cur[..4], Off(a, 4)) + cur[4..]
  }

  function Ldl(mem: seq<Byte>, a: nat, cur: seq<Byte>): seq<Byte>
    requires Mapped(mem, a, 8) && |cur| == 8
  {
    LoadLeft(Read(mem, a, 8), cur, Off(a, 8))
  }

  function Ldr(mem: seq<Byte>, a: nat, cur: seq<Byte>): seq<Byte>
    requires Mapped(mem, a, 8) && |cur| == 8
  {
    LoadRight(Read(mem, a, 8), cur, Off(a, 8))
  }

  /** swl with four bytes, sdl with eight. */
  function Sl(mem: seq<Byte>, a: nat, v: seq<Byte>): (r: seq<Byte>)
    requires Mapped(mem, a, |v|)
    ensures |r| == |mem|
  {
    Write(mem, a, StoreLeft(Read(mem, a, |v|), v, Off(a, |v|)))
  }

  function Sr(mem: seq<Byte>, a: nat, v: seq<Byte>): (r: seq<Byte>)
    requires Mapped(mem, a, |v|)
    ensures |r| == |mem|
  {
    Write(mem, a, StoreRight(Read(mem, a, |v|), v, Off(a, |v|)))
  }

  // ---- What the merges do, byte by byte ----------------------------------------------------

  lemma ByteFacts(x: Byte)
    ensures x & 0xFF == x && x & 0 == 0 && x | 0 == x && 0 | x == x
    ensures !(0xFF as Byte) == 0 && !(0 as Byte) == 0xFF
  {}

  lemma LoadLeftBytes(w: seq<Byte>, cur: seq<Byte>, b: nat)
    requires |cur| == |w| && b < |w|
    ensures LoadLeft(w, cur, b) == cur[..|w| - 1 - b] + w[..b + 1]
  {
    var r := LoadLeft(w, cur, b);
    forall i | 0 <= i < |w| ensures r[i] == (cur[..|w| - 1 - b] + w[..b + 1])[i] {
      ByteFacts(cur[i]);
      if i >= |w| - 1 - b { ByteFacts(w[i - (|w| - 1 - b)]); }
    }
  }

  lemma LoadRightBytes(w: seq<Byte>, cur: seq<Byte>, b: nat)
    requires |cur| == |w| && b < |w|
    ensures LoadRight(w, cur, b) == w[b..] + cur[|w| - b..]
  {
    if b == 0 {
      assert w[0..] + cur[|w|..] == w;
    } else {
      forall i | 0 <= i < |w| ensures LoadRight(w, cur, b)[i] == (w[b..] + cur[|w| - b..])[i] {
        ByteFacts(cur[i]);
        if i + b < |w| { ByteFacts(w[i + b]); }
      }
    }
  }

  lemma StoreLeftBytes(w: seq<Byte>, v: seq<Byte>, b: nat)
    requires |v| == |w| && b < |w|
    ensures StoreLeft(w, v, b) == v[|w| - 1 - b..] + w[b + 1..]
  {
    var r := StoreLeft(w, v, b);
    forall i | 0 <= i < |w| ensures r[i] == (v[|w| - 1 - b..] + w[b + 1..])[i] {
      ByteFacts(w[i]);
      if i <= b { ByteFacts(v[i + (|w| - 1 - b)]); }
    }
  }

  lemma StoreRightBytes(w: seq<Byte>, v: seq<Byte>, b: nat)
    requires |v| == |w| && b < |w|
    ensures StoreRight(w, v, b) == w[..b] + v[..|w| - b]
  {
    var r := StoreRight(w, v, b);
    forall i | 0 <= i < |w| ensures r[i] == (w[..b] + v[..|w| - b])[i] {
      ByteFacts(w[i]);
      if i >= b { ByteFacts(v[i - b]); }
    }
  }

  // ---- Pairs -------------------------------------------------------------------------------

  /** Whether both halves of an unaligned access of n bytes at a are in memory. */
  predicate PairMapped(mem: seq<Byte>, a: nat, n: nat) {
    (n == 4 || n == 8) && Mapped(mem, a, n) && Mapped(mem, a + n - 1, n)
  }

  lemma Mod4(q: nat, r: nat)
    requires r < 4
    ensures (4 * q + r) % 4 == r
  {}

  lemma Mod8(q: nat, r: nat)
    requires r < 8
    ensures (8 * q + r) % 8 == r
  {}

  lemma Span4(a: nat)
    ensures a % 4 == 0 ==> (a + 3) % 4 == 3
    ensures a % 4 != 0 ==> (a + 3) % 4 == a % 4 - 1
  {
    var q, r := a / 4, a % 4;
    if r == 0 { Mod4(q, 3); } else { Mod4(q + 1, r - 1); }
  }

  lemma Span8(a: nat)
    ensures a % 8 == 0 ==> (a + 7) % 8 == 7
    ensures a % 8 != 0 ==> (a + 7) % 8 == a % 8 - 1
  {
    var q, r := a / 8, a % 8;
    if r == 0 { Mod8(q, 7); } else { Mod8(q + 1, r - 1); }
  }

  lemma Span(a: nat, n: nat)
    requires n == 4 || n == 8
    ensures Off(a, n) == 0 ==> Base(a + n - 1, n) == a && Off(a + n - 1, n) == n - 1
    ensures Off(a, n) != 0 ==> Base(a + n - 1, n) == Base(a, n) + n && Off(a + n - 1, n) == Off(a, n) - 1
  {
    if n == 4 { Span4(a); } else { Span8(a); }
  }

  /** The bytes at a: all of one aligned word, or the top of one and the bottom of the next. */
  lemma Halves(mem: seq<Byte>, a: nat, n: nat)
    requires PairMapped(mem, a, n)
    ensures var wl, wr, bl, br := Read(mem, a + n - 1, n), Read(mem, a, n), Off(a + n - 1, n), Off(a, n);
            && bl + 1 == (if br == 0 then n else br) && wr[br..] == mem[a..Base(a, n) + n]
            && (br == 0 ==> wl == wr == mem[a..a + n]) && (br != 0 ==> wr[br..] + wl[..bl + 1] == mem[a..a + n])
  {
    Span(a, n);
    var k, b := Base(a, n), Off(a, n);
    var wl, wr := Read(mem, a + n - 1, n), Read(mem, a, n);
    hide Off;
    assert k + b == a && wr == mem[k..k + n];
    assert wr[b..] == mem[a..k + n];
    if b != 0 {
      assert wl == mem[k + n..k + n + n];
      assert wl[..b] == mem[k + n..a + n];
      assert mem[a..k + n] + mem[k + n..a + n] == mem[a..a + n];
    }
  }

  /** The merged halves are the bytes at a, whichever half is loaded first. */
  lemma LoadPair(mem: seq<Byte>, a: nat, n: nat, cur: seq<Byte>)
    requires PairMapped(mem, a, n) && |cur| == n
    ensures var wl, wr, bl, br := Read(mem, a + n - 1, n), Read(mem, a, n), Off(a + n - 1, n), Off(a, n);
            && LoadLeft(wl, LoadRight(wr, cur, br), bl) == mem[a..a + n]
            && LoadRight(wr, LoadLeft(wl, cur, bl), br) == mem[a..a + n]
  {
    hide LoadLeft, LoadRight, Read, Off;
    Halves(mem, a, n);
    Merge(Read(mem, a + n - 1, n), Read(mem, a, n), cur, Off(a + n - 1, n), Off(a, n));
  }

  lemma Merge(wl: seq<Byte>, wr: seq<Byte>, cur: seq<Byte>, bl: nat, br: nat)
    requires |wl| == |wr| == |cur| && br < |cur| && bl + 1 == (if br == 0 then |cur| else br) && (br == 0 ==> wl == wr)
    ensures LoadLeft(wl, LoadRight(wr, cur, br), bl) == (if br == 0 then wl else wr[br..] + wl[..bl + 1])
    ensures LoadRight(wr, LoadLeft(wl, cur, bl), br) == (if br == 0 then wl else wr[br..] + wl[..bl + 1])
  {
    hide LoadLeft, LoadRight;
    LoadRightBytes(wr, cur, br);
    LoadLeftBytes(wl, LoadRight(wr, cur, br), bl);
    LoadLeftBytes(wl, cur, bl);
    LoadRightBytes(wr, LoadLeft(wl, cur, bl), br);
  }

  /** lwl at a + 3 with lwr at a, in either order, gives the sign-extended little-endian word at a. */
  lemma LwIsUnaligned(mem: seq<Byte>, a: nat, cur: seq<Byte>)
    requires PairMapped(mem, a, 4) && |cur| == 8
    ensures Lwl(mem, a + 3, Lwr(mem, a, cur)) == SignExtend(mem[a..a + 4])
    ensures Lwr(mem, a, Lwl(mem, a + 3, cur)) == SignExtend(mem[a..a + 4])
  {
    LoadPair(mem, a, 4, cur[..4]);
    Span(a, 4);
    RightHalf(mem, a, cur);
    LeftHalf(mem, a, LoadLeft(Read(mem, a + 3, 4), cur[..4], Off(a + 3, 4)));
    hide LoadLeft, LoadRight, Lwr, Read, Off;
  }

  /** lwr leaves the merged word in the low half, whatever it does to the high one. */
  lemma RightHalf(mem: seq<Byte>, a: nat, cur: seq<Byte>)
    requires Mapped(mem, a, 4) && |cur| == 8
    ensures Lwr(mem, a, cur)[..4] == LoadRight(Read(mem, a, 4), cur[..4], Off(a, 4))
  {
    hide LoadRight, Read, Off;
    LoadRightBytes(Read(mem, a, 4), cur[..4], Off(a, 4));
  }

  /** After lwl it keeps the sign that lwl extended. */
  lemma LeftHalf(mem: seq<Byte>, a: nat, l: seq<Byte>)
    requires Mapped(mem, a, 4) && |l| == 4
    ensures |SignExtend(l)| == 8 && Lwr(mem, a, SignExtend(l)) == SignExtend(LoadRight(Read(mem, a, 4), l, Off(a, 4)))
  {
    hide LoadRight, Read, Off;
    LoadRightBytes(Read(mem, a, 4), l, Off(a, 4));
    assert SignExtend(l)[..4] == l;
  }

  /** ldl at a + 7 with ldr at a, in either order, gives the eight bytes at a. */
  lemma LdIsUnaligned(mem: seq<Byte>, a: nat, cur: seq<Byte>)
    requires PairMapped(mem, a, 8) && |cur| == 8
    ensures Ldl(mem, a + 7, Ldr(mem, a, cur)) == mem[a..a + 8]
    ensures Ldr(mem, a, Ldl(mem, a + 7, cur)) == mem[a..a + 8]
  {
    hide LoadLeft, LoadRight;
    LoadPair(mem, a, 8, cur);
  }

  /** swl at a + 3 with swr at a (or sdl at a + 7 with sdr at a), in either order, write exactly the
      bytes of v at a and nothing else. */
  lemma StorePair(mem: seq<Byte>, a: nat, v: seq<Byte>)
    requires PairMapped(mem, a, |v|)
    ensures Sr(Sl(mem, a + |v| - 1, v), a, v) == mem[..a] + v + mem[a + |v|..]
    ensures Sl(Sr(mem, a, v), a + |v| - 1, v) == mem[..a] + v + mem[a + |v|..]
  {
    hide Sl, Sr;
    LeftThenRight(mem, a, v);
    RightThenLeft(mem, a, v);
  }

  lemma LeftThenRight(mem: seq<Byte>, a: nat, v: seq<Byte>)
    requires PairMapped(mem, a, |v|)
    ensures Sr(Sl(mem, a + |v| - 1, v), a, v) == mem[..a] + v + mem[a + |v|..]
  {
    hide Sl, Sr, Off, Read, Base;
    Spanned(mem, a, v);
    var m := Sl(mem, a + |v| - 1, v);
    LeftStores(mem, a + |v| - 1, v);
    RightStores(m, a, v);
    Whole(v);
    if Off(a, |v|) == 0 {
      SpliceAligned(mem, m, a, v);
    } else {
      SpliceRight(mem, m, Base(a, |v|), Off(a, |v|), v);
    }
  }

  lemma RightThenLeft(mem: seq<Byte>, a: nat, v: seq<Byte>)
    requires PairMapped(mem, a, |v|)
    ensures Sl(Sr(mem, a, v), a + |v| - 1, v) == mem[..a] + v + mem[a + |v|..]
  {
    hide Sl, Sr, Off, Read, Base;
    Spanned(mem, a, v);
    var m := Sr(mem, a, v);
    RightStores(mem, a, v);
    LeftStores(m, a + |v| - 1, v);
    Whole(v);
    if Off(a, |v|) == 0 {
      SpliceAligned(mem, m, a, v);
    } else {
      SpliceLeft(mem, m, Base(a, |v|), Off(a, |v|), v);
    }
  }

  /** Where the two aligned words of a pair lie. */
  lemma Spanned(mem: seq<Byte>, a: nat, v: seq<Byte>)
    requires PairMapped(mem, a, |v|)
    ensures var n, k, b := |v|, Base(a, |v|), Off(a, |v|);
            && b < n && a == k + b && k + n <= |mem| && k + b + n <= |mem|
            && (b == 0 ==> Base(a + n - 1, n) == a && Off(a + n - 1, n) == n - 1)
            && (b != 0 ==> Base(a + n - 1, n) == k + n && Off(a + n - 1, n) == b - 1)
  {
    Span(a, |v|);
    hide Off;
  }

  lemma Whole(v: seq<Byte>)
    ensures v[0..] == v && v[..|v|] == v
  {}

  lemma SpliceAligned(mem: seq<Byte>, m: seq<Byte>, a: nat, v: seq<Byte>)
    requires a + |v| <= |mem| && m == mem[..a] + v + mem[a + |v|..]
    ensures m[..a] + v + m[a + |v|..] == mem[..a] + v + mem[a + |v|..]
  {
    assert m[..a] == mem[..a] && m[a + |v|..] == mem[a + |v|..];
  }

  /** The second part store completes the first, whether v spans two aligned words or one. */
  lemma SpliceRight(mem: seq<Byte>, l: seq<Byte>, k: nat, b: nat, v: seq<Byte>)
    requires b < |v| && k + b + |v| <= |mem| && l == mem[..k + |v|] + v[|v| - b..] + mem[k + b + |v|..]
    ensures l[..k + b] + v[..|v| - b] + l[k + |v|..] == mem[..k + b] + v + mem[k + b + |v|..]
  {
    var n, a := |v|, k + b;
    assert v[..n - b] + v[n - b..] == v;
    assert l[..a] == mem[..a] && l[k + n..] == v[n - b..] + mem[a + n..];
  }

  lemma SpliceLeft(mem: seq<Byte>, r: seq<Byte>, k: nat, b: nat, v: seq<Byte>)
    requires b < |v| && k + b + |v| <= |mem| && k + |v| <= |mem| && r == mem[..k + b] + v[..|v| - b] + mem[k + |v|..]
    ensures r[..k + |v|] + v[|v| - b..] + r[k + b + |v|..] == mem[..k + b] + v + mem[k + b + |v|..]
  {
    var n, a := |v|, k + b;
    assert v[..n - b] + v[n - b..] == v;
    assert r[..k + n] == mem[..a] + v[..n - b] && r[a + n..] == mem[a + n..];
  }

  /** swl writes the top bytes of v from the aligned base up to its address. */
  lemma LeftStores(mem: seq<Byte>, a: nat, v: seq<Byte>)
    requires Mapped(mem, a, |v|)
    ensures var k := Base(a, |v|); Sl(mem, a, v) == mem[..k] + v[|v| - 1 - Off(a, |v|)..] + mem[a + 1..]
  {
    StoreLeftBytes(Read(mem, a, |v|), v, Off(a, |v|));
  }

  /** swr writes the bottom bytes of v from its address up to the end of the aligned word. */
  lemma RightStores(mem: seq<Byte>, a: nat, v: seq<Byte>)
    requires Mapped(mem, a, |v|)
    ensures var k := Base(a, |v|); Sr(mem, a, v) == mem[..a] + v[..|v| - Off(a, |v|)] + mem[k + |v|..]
  {
    StoreRightBytes(Read(mem, a, |v|), v, Off(a, |v|));
  }

  /** An unaligned load after an unaligned store returns what was stored. */
  lemma LoadAfterStore(mem: seq<Byte>, a: nat, v: seq<Byte>, cur: seq<Byte>)
    requires PairMapped(mem, a, |v|) && |cur| == 8
    ensures |v| == 4 ==> var m := Sr(Sl(mem, a + 3, v), a, v); Lwl(m, a + 3, Lwr(m, a, cur)) == SignExtend(v)
    ensures |v| == 8 ==> var m := Sr(Sl(mem, a + 7, v), a, v); Ldl(m, a + 7, Ldr(m, a, cur)) == v
  {
    hide Lwl, Lwr, Ldl, Ldr, Sl, Sr;
    StorePair(mem, a, v);
    var m := mem[..a] + v + mem[a + |v|..];
    assert m[a..a + |v|] == v;
    if |v| == 4 { LwIsUnaligned(m, a, cur); }
    if |v| == 8 { LdIsUnaligned(m, a, cur); }
  }

  // ---- In place ------------------------------------------------------------------------------

  /** rc_write32 / rc_write64. */
  method Put(mem: array<Byte>, a: nat, w: seq<Byte>)
    requires Mapped(mem[..], a, |w|)
    modifies mem
    ensures mem[..] == Write(old(mem[..]), a, w)
  {
    hide Splice, Base;
    var k := Base(a, |w|);
    ghost var was := mem[..];
    Spliced(was, k, w, 0);
    for i := 0 to |w|
      invariant mem[..] == Splice(was, k, w, i)
    {
      mem[k + i] := w[i];
      assert mem[..] == Splice(was, k, w, i)[k + i := w[i]];
      Spliced(was, k, w, i);
    }
  }

  /** The first i bytes of w written at k. */
  function Splice(mem: seq<Byte>, k: nat, w: seq<Byte>, i: nat): seq<Byte>
    requires k + |w| <= |mem| && i <= |w|
  {
    mem[..k] + w[..i] + mem[k + i..]
  }

  lemma Spliced(mem: seq<Byte>, k: nat, w: seq<Byte>, i: nat)
    requires k + |w| <= |mem| && i <= |w|
    ensures Splice(mem, k, w, 0) == mem && Splice(mem, k, w, |w|) == mem[..k] + w + mem[k + |w|..]
    ensures i < |w| ==> Splice(mem, k, w, i)[k + i := w[i]] == Splice(mem, k, w, i + 1)
  {
    Whole(w);
  }

  /** rc_swl / rc_sdl. */
  method StoreWordLeft(mem: array<Byte>, a: nat, v: seq<Byte>)
    requires Mapped(mem[..], a, |v|)
    modifies mem
    ensures mem[..] == Sl(old(mem[..]), a, v)
  {
    hide StoreLeft, Write;
    var k := Base(a, |v|);
    Put(mem, a, StoreLeft(mem[k..k + |v|], v, Off(a, |v|)));
  }

  /** rc_swr / rc_sdr. */
  method StoreWordRight(mem: array<Byte>, a: nat, v: seq<Byte>)
    requires Mapped(mem[..], a, |v|)
    modifies mem
    ensures mem[..] == Sr(old(mem[..]), a, v)
  {
    hide StoreRight, Write;
    var k := Base(a, |v|);
    Put(mem, a, StoreRight(mem[k..k + |v|], v, Off(a, |v|)));
  }
}
