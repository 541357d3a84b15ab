/** The VU1 lane helpers: the scalar bodies, the SSE2 forms, and the proof that they agree on every
    bit pattern. Floats are their 32-bit patterns; addition, subtraction and multiplication are
    arbitrary functions on patterns. */
module VuLanes {

  type Word = bv32

  /** Four lanes; x is lane 0. */
  datatype Quad = Quad(x: Word, y: Word, z: Word, w: Word)

  const ZERO := Quad(0, 0, 0, 0)

  function Lane(q: Quad, i: nat): Word
    requires i < 4
  {
    if i == 0 then q.x else if i == 1 then q.y else if i == 2 then q.z else q.w
  }

  function SetLane(q: Quad, i: nat, v: Word): (r: Quad)
    requires i < 4
    ensures Lane(r, i) == v && forall j | 0 <= j < 4 && j != i :: Lane(r, j) == Lane(q, j)
  {
    if i == 0 then q.(x := v) else if i == 1 then q.(y := v) else if i == 2 then q.(z := v) else q.(w := v)
  }

  lemma SameLanes(a: Quad, b: Quad)
    requires forall i | 0 <= i < 4 :: Lane(a, i) == Lane(b, i)
    ensures a == b
  {
    assert Lane(a, 0) == Lane(b, 0) && Lane(a, 1) == Lane(b, 1) && Lane(a, 2) == Lane(b, 2) && Lane(a, 3) == Lane(b, 3);
  }

  /** A four-bit field, most significant bit first. A destination mask and a mac nibble hold lane i at
      the bit of value 8 >> i, so x is b3. */
  datatype Bits4 = Bits4(b3: bool, b2: bool, b1: bool, b0: bool)

  const NONE := Bits4(false, false, false, false)

  function And4(a: Bits4, b: Bits4): Bits4 { Bits4(a.b3 && b.b3, a.b2 && b.b2, a.b1 && b.b1, a.b0 && b.b0) }
  function Or4(a: Bits4, b: Bits4): Bits4 { Bits4(a.b3 || b.b3, a.b2 || b.b2, a.b1 || b.b1, a.b0 || b.b0) }

  /** The bit of value 8 >> i. */
  function LaneBit(i: nat, c: bool): Bits4
    requires i < 4
  {
    if i == 0 then NONE.(b3 := c) else if i == 1 then NONE.(b2 := c)
    else if i == 2 then NONE.(b1 := c) else NONE.(b0 := c)
  }

  predicate Selected(mask: Bits4, i: nat)
    requires i < 4
  {
    if i == 0 then mask.b3 else if i == 1 then mask.b2 else if i == 2 then mask.b1 else mask.b0
  }

  /** The mac word's nibbles: bits 15..12 overflow, 11..8 underflow, 7..4 sign, 3..0 zero. */
  datatype Mac = Mac(o: Bits4, u: Bits4, s: Bits4, z: Bits4)

  function OrMac(a: Mac, b: Mac): Mac { Mac(Or4(a.o, b.o), Or4(a.u, b.u), Or4(a.s, b.s), Or4(a.z, b.z)) }

  const EXP: Word := 0x7F80_0000
  const SGN: Word := 0x8000_0000
  const MANT: Word := 0x007F_FFFF
  const FMAX: Word := 0x7F7F_FFFF
  const ONE: Word := 0x3F80_0000
  const ALL: Word := 0xFFFF_FFFF

  /** Host single-precision arithmetic, uninterpreted. */
  datatype Alu = Alu(add: (Word, Word) -> Word, sub: (Word, Word) -> Word, mul: (Word, Word) -> Word)

  // ---- Scalar bodies, one lane -----------------------------------------------------

  /** rc_vu_in: exponent 0 reads as signed zero, exponent 255 as the largest float. */
  function VuIn(b: Word): Word {
    if b & EXP == 0 then b & SGN
    else if b & EXP == EXP then (b & SGN) | FMAX
    else b
  }

  datatype Flagged = Flagged(b: Word, o: bool, u: bool, s: bool, z: bool)

  /** rc_vu_flagres without the mac word: clamp, flush, and the lane's four flags. */
  function FlagRes(f: Word): Flagged {
    var e := f & EXP;
    var o := e == EXP;
    var u := e == 0 && f & MANT != 0;
    var b := if o then (f & SGN) | FMAX else if u then f & SGN else f;
    Flagged(b, o, u, b & SGN != 0, b & 0x7FFF_FFFF == 0)
  }

  /** The mac word with lane i's flags added. */
  function AddFlags(mac: Mac, i: nat, f: Flagged): Mac
    requires i < 4
  {
    OrMac(mac, Mac(LaneBit(i, f.o), LaneBit(i, f.u), LaneBit(i, f.s), LaneBit(i, f.z)))
  }

  /** 0 add, 1 sub, 2 mul, 3 madd, otherwise msub; the product is rounded first. */
  function FmacOp(alu: Alu, kind: int, x: Word, y: Word, acc: Word): Word {
    if kind == 0 then alu.add(x, y)
    else if kind == 1 then alu.sub(x, y)
    else if kind == 2 then alu.mul(x, y)
    else if kind == 3 then alu.add(acc, alu.mul(x, y))
    else alu.sub(acc, alu.mul(x, y))
  }

  function FmacLane(alu: Alu, kind: int, a: Word, b: Word, acc: Word): Word {
    FmacOp(alu, kind, VuIn(a), VuIn(b), VuIn(acc))
  }

  predicate Negative(a: Word) { a & SGN != 0 }

  predicate Below(a: Word, b: Word) { a < b }

  /** Comparison of the words as signed integers. */
  predicate SignedLess(a: Word, b: Word) {
    if Negative(a) == Negative(b) then Below(a, b) else Negative(a)
  }

  function MaxBits(a: Word, b: Word): Word {
    if Negative(a) && Negative(b) then (if SignedLess(a, b) then a else b)
    else if SignedLess(b, a) then a else b
  }

  function MinBits(a: Word, b: Word): Word {
    if Negative(a) && Negative(b) then (if SignedLess(b, a) then a else b)
    else if SignedLess(a, b) then a else b
  }

  // ---- What the scalar loops compute -----------------------------------------------

  /** Lanes the mask selects from `neu`, the others from `kept`. */
  function Merge(mask: Bits4, neu: Quad, kept: Quad): Quad {
    Quad(if Selected(mask, 0) then neu.x else kept.x, if Selected(mask, 1) then neu.y else kept.y,
         if Selected(mask, 2) then neu.z else kept.z, if Selected(mask, 3) then neu.w else kept.w)
  }

  function FmacFlag(alu: Alu, kind: int, a: Quad, b: Quad, acc: Quad, i: nat): Flagged
    requires i < 4
  {
    FlagRes(FmacLane(alu, kind, Lane(a, i), Lane(b, i), Lane(acc, i)))
  }

  /** The lanes of an FMAC: clamped results where selected, zero elsewhere. */
  function FmacQuad(alu: Alu, kind: int, a: Quad, b: Quad, acc: Quad, mask: Bits4): Quad {
    Merge(mask, Quad(FmacFlag(alu, kind, a, b, acc, 0).b, FmacFlag(alu, kind, a, b, acc, 1).b,
                     FmacFlag(alu, kind, a, b, acc, 2).b, FmacFlag(alu, kind, a, b, acc, 3).b), ZERO)
  }

  /** The mac word after the first n lanes. */
  function FmacMac(alu: Alu, kind: int, a: Quad, b: Quad, acc: Quad, mask: Bits4, mac: Mac, n: nat): Mac
    requires n <= 4
  {
    if n == 0 then mac
    else
      var m := FmacMac(alu, kind, a, b, acc, mask, mac, n - 1);
      if Selected(mask, n - 1) then AddFlags(m, n - 1, FmacFlag(alu, kind, a, b, acc, n - 1)) else m
  }

  function MaxMinQuad(isMin: bool, a: Quad, b: Quad): Quad {
    if isMin then Quad(MinBits(a.x, b.x), MinBits(a.y, b.y), MinBits(a.z, b.z), MinBits(a.w, b.w))
    else Quad(MaxBits(a.x, b.x), MaxBits(a.y, b.y), MaxBits(a.z, b.z), MaxBits(a.w, b.w))
  }

  function AbsWord(a: Word): Word { a & 0x7FFF_FFFF }

  function AbsQuad(a: Quad): Quad {
    Quad(AbsWord(a.x), AbsWord(a.y), AbsWord(a.z), AbsWord(a.w))
  }

  // ---- The SSE2 forms ------------------------------------------------------------------
  // Every intrinsic used but movemask works lane by lane, so each form is written once for a lane.

  /** A lane comparison's result. */
  function Ones(c: bool): Word { if c then ALL else 0 }

  function Map(f: Word -> Word, a: Quad): Quad {
    Quad(f(a.x), f(a.y), f(a.z), f(a.w))
  }

  function Map2(f: (Word, Word) -> Word, a: Quad, b: Quad): Quad {
    Quad(f(a.x, b.x), f(a.y, b.y), f(a.z, b.z), f(a.w, b.w))
  }

  /** _mm_movemask_ps: lane i's top bit at the bit of value 1 << i. */
  function Movemask(x: bool, y: bool, z: bool, w: bool): Bits4 {
    Bits4(w, z, y, x)
  }

  function Rev4(m: Bits4): Bits4 {
    Bits4(m.b0, m.b1, m.b2, m.b3)
  }

  /** A lane set as the mac word and the dest mask order it, selected lanes only. */
  function Gathered(c0: bool, c1: bool, c2: bool, c3: bool, mask: Bits4): Bits4 {
    And4(Rev4(Movemask(c0, c1, c2, c3)), mask)
  }

  /** Lane i's dest mask bit against the constant (8, 4, 2, 1). */
  function LanesPs(mask: Bits4): Quad {
    Quad(Ones(mask.b3), Ones(mask.b2), Ones(mask.b1), Ones(mask.b0))
  }

  function InWord(b: Word): Word {
    var e := b & EXP;
    var isMax := Ones(e == EXP);
    var isZero := Ones(e == 0);
    var special := isMax | isZero;
    (!special & b) | ((b & SGN) | (isMax & FMAX))
  }

  /** One lane of rc_vu_flagres_ps: the result and the top bits of the four flag lanes. */
  function FlagWord(b: Word): Flagged {
    var isO, isU := Ones(b & EXP == EXP), !Ones(b & MANT == 0) & Ones(b & EXP == 0);
    var r := (!(isO | isU) & b) | ((b & SGN) | (isO & FMAX));
    Flagged(r, Negative(isO), Negative(isU), Negative(r), Negative(Ones(!SGN & r == 0)))
  }

  /** The mac bits of the selected lanes. */
  function FlagMacPs(f0: Flagged, f1: Flagged, f2: Flagged, f3: Flagged, mask: Bits4): Mac {
    Mac(Gathered(f0.o, f1.o, f2.o, f3.o, mask), Gathered(f0.u, f1.u, f2.u, f3.u, mask),
        Gathered(f0.s, f1.s, f2.s, f3.s, mask), Gathered(f0.z, f1.z, f2.z, f3.z, mask))
  }

  function FmacOpPs(alu: Alu, kind: int, x: Quad, y: Quad, acc: Quad): Quad {
    Quad(FmacOp(alu, kind, x.x, y.x, acc.x), FmacOp(alu, kind, x.y, y.y, acc.y),
         FmacOp(alu, kind, x.z, y.z, acc.z), FmacOp(alu, kind, x.w, y.w, acc.w))
  }

  datatype Result = Result(r: Quad, mac: Mac)

  function KeepWord(r: Word, lm: Word): Word { r & lm }

  function FmacPs(alu: Alu, kind: int, a: Quad, b: Quad, acc: Quad, mask: Bits4, mac: Mac): Result {
    var v := FmacOpPs(alu, kind, Map(InWord, a), Map(InWord, b), Map(InWord, acc));
    var f0, f1, f2, f3 := FlagWord(v.x), FlagWord(v.y), FlagWord(v.z), FlagWord(v.w);
    Result(Map2(KeepWord, Quad(f0.b, f1.b, f2.b, f3.b), LanesPs(mask)), OrMac(mac, FlagMacPs(f0, f1, f2, f3, mask)))
  }

  function BlendWord(lm: Word, neu: Word, kept: Word): Word {
    (lm & neu) | (!lm & kept)
  }

  function BlendPs(lm: Quad, neu: Quad, kept: Quad): Quad {
    Quad(BlendWord(lm.x, neu.x, kept.x), BlendWord(lm.y, neu.y, kept.y),
         BlendWord(lm.z, neu.z, kept.z), BlendWord(lm.w, neu.w, kept.w))
  }

  /** The sign-magnitude key: an arithmetic shift right by 31 gives all ones for a negative word. */
  function Key(a: Word): Word {
    a ^ (Ones(Negative(a)) & 0x7FFF_FFFF)
  }

  /** Signed greater-than. */
  function GtWord(a: Word, b: Word): Word { Ones(SignedLess(b, a)) }

  function MaxMinPs(isMin: bool, a: Quad, b: Quad): Quad {
    var ka, kb := Map(Key, a), Map(Key, b);
    var takeA := if isMin then Map2(GtWord, kb, ka) else Map2(GtWord, ka, kb);
    BlendPs(takeA, a, b)
  }

  // ---- Lane by lane ---------------------------------------------------------------------

  lemma InBits(b: Word)
    ensures var isMax, isZero := Ones(b & EXP == EXP), Ones(b & EXP == 0);
            (!(isMax | isZero) & b) | ((b & SGN) | (isMax & FMAX)) == VuIn(b)
  {}

  lemma InLane(b: Word)
    ensures InWord(b) == VuIn(b)
  {
    hide VuIn, Ones;
    InBits(b);
  }

  lemma FlagLane(b: Word)
    ensures FlagWord(b) == FlagRes(b)
  {
    hide Ones, Negative, FlagRes;
    FlagAll(b);
  }

  lemma FlagAll(b: Word)
    ensures var isO, isU := Ones(b & EXP == EXP), !Ones(b & MANT == 0) & Ones(b & EXP == 0);
            var r := (!(isO | isU) & b) | ((b & SGN) | (isO & FMAX));
            FlagRes(b) == Flagged(r, Negative(isO), Negative(isU), Negative(r), Negative(Ones(!SGN & r == 0)))
  {
    var isO, isU := Ones(b & EXP == EXP), !Ones(b & MANT == 0) & Ones(b & EXP == 0);
    var r := (!(isO | isU) & b) | ((b & SGN) | (isO & FMAX));
    FlagRaw(b);
    OnesSign(b & EXP == EXP);
    OnesSign(!SGN & r == 0);
    UnderflowSign(b);
    LowBits(r);
  }

  lemma FlagRaw(b: Word)
    ensures var isO, isU := Ones(b & EXP == EXP), !Ones(b & MANT == 0) & Ones(b & EXP == 0);
            FlagRes(b).b == (!(isO | isU) & b) | ((b & SGN) | (isO & FMAX))
  {}

  lemma OnesSign(c: bool)
    ensures Negative(Ones(c)) == c
  {}

  lemma UnderflowSign(b: Word)
    ensures Negative(!Ones(b & MANT == 0) & Ones(b & EXP == 0)) == (b & EXP == 0 && b & MANT != 0)
  {}

  lemma LowBits(r: Word)
    ensures !SGN & r == r & 0x7FFF_FFFF
  {}

  lemma KeyNegative(a: Word)
    requires Negative(a)
    ensures Key(a) == a ^ 0x7FFF_FFFF
  {}

  lemma KeyPositive(a: Word)
    requires !Negative(a)
    ensures Key(a) == a
  {}

  lemma SignStays(a: Word)
    ensures Negative(a ^ 0x7FFF_FFFF) == Negative(a)
  {}

  lemma Twice(a: Word)
    ensures (a ^ 0x7FFF_FFFF) ^ 0x7FFF_FFFF == a
  {}

  lemma Reverses(a: Word, b: Word)
    requires Negative(a) && Negative(b) && Below(a, b)
    ensures Below(b ^ 0x7FFF_FFFF, a ^ 0x7FFF_FFFF)
  {}

  lemma Total(a: Word, b: Word)
    ensures Below(a, b) || a == b || Below(b, a)
  {
    if !Below(a, b) && !Below(b, a) {
      NoDifference(a, b);
      BelowOne(a ^ b);
      NoBits(a, b);
    }
  }

  lemma NoDifference(a: Word, b: Word)
    requires !Below(a, b) && !Below(b, a)
    ensures Below(a ^ b, 1)
  {}

  lemma BelowOne(d: Word)
    requires Below(d, 1)
    ensures d == 0
  {}

  lemma NoBits(a: Word, b: Word)
    requires a ^ b == 0
    ensures a == b
  {}

  lemma Strict(a: Word, b: Word)
    requires Below(a, b)
    ensures a != b && !Below(b, a)
  {}

  /** The key is a bijection. */
  lemma KeyInvolution(a: Word)
    ensures Key(Key(a)) == a
  {
    hide Key, Negative;
    if Negative(a) {
      KeyNegative(a);
      SignStays(a);
      KeyNegative(a ^ 0x7FFF_FFFF);
      Twice(a);
    } else {
      KeyPositive(a);
    }
  }

  /** The key keeps the sign, and orders the negatives backwards. */
  lemma KeyLess(a: Word, b: Word)
    ensures SignedLess(Key(a), Key(b)) ==
            if Negative(a) && Negative(b) then Below(b, a)
            else if Negative(a) || Negative(b) then Negative(a) else Below(a, b)
  {
    hide Key, Negative, Below;
    if Negative(a) { KeyNegative(a); SignStays(a); } else { KeyPositive(a); }
    if Negative(b) { KeyNegative(b); SignStays(b); } else { KeyPositive(b); }
    if Negative(a) && Negative(b) {
      ReversesIff(a, b);
    }
  }

  lemma ReversesIff(a: Word, b: Word)
    requires Negative(a) && Negative(b)
    ensures Below(a ^ 0x7FFF_FFFF, b ^ 0x7FFF_FFFF) <==> Below(b, a)
  {
    hide Negative, Below;
    Total(a, b);
    if Below(a, b) {
      Reverses(a, b);
      Strict(a, b);
      Strict(b ^ 0x7FFF_FFFF, a ^ 0x7FFF_FFFF);
    } else if Below(b, a) {
      Reverses(b, a);
    } else {
      if Below(b, b) { Strict(b, b); }
      if Below(a ^ 0x7FFF_FFFF, b ^ 0x7FFF_FFFF) { Strict(a ^ 0x7FFF_FFFF, b ^ 0x7FFF_FFFF); }
    }
  }

  /** One signed comparison of keys orders words the way MaxBits and MinBits do. */
  lemma KeyOrders(a: Word, b: Word)
    ensures MaxBits(a, b) == if SignedLess(Key(b), Key(a)) then a else b
    ensures MinBits(a, b) == if SignedLess(Key(a), Key(b)) then a else b
  {
    hide Key, Negative, Below;
    KeyLess(a, b);
    KeyLess(b, a);
    Total(a, b);
    if Below(a, b) { Strict(a, b); }
  }

  lemma BlendLane(c: bool, a: Word, b: Word)
    ensures BlendWord(Ones(c), a, b) == if c then a else b
  {
    BlendAll(a, b);
    hide BlendWord;
  }

  lemma BlendAll(a: Word, b: Word)
    ensures BlendWord(ALL, a, b) == a && BlendWord(0, a, b) == b
  {}

  lemma KeepLane(c: bool, a: Word)
    ensures KeepWord(a, Ones(c)) == if c then a else 0
  {
    KeepAll(a);
    hide KeepWord;
  }

  lemma KeepAll(a: Word)
    ensures KeepWord(a, ALL) == a && KeepWord(a, 0) == 0
  {}

  // ---- Four lanes --------------------------------------------------------------------------

  /** The vector masked write and commit keep the lanes the mask does not select. */
  lemma BlendIsMerge(mask: Bits4, neu: Quad, kept: Quad)
    ensures BlendPs(LanesPs(mask), neu, kept) == Merge(mask, neu, kept)
  {
    hide Ones, BlendWord;
    BlendLane(Selected(mask, 0), neu.x, kept.x);
    BlendLane(Selected(mask, 1), neu.y, kept.y);
    BlendLane(Selected(mask, 2), neu.z, kept.z);
    BlendLane(Selected(mask, 3), neu.w, kept.w);
  }

  lemma FullMaskIsAll(neu: Quad, kept: Quad)
    ensures Merge(Bits4(true, true, true, true), neu, kept) == neu
  {}

  lemma KeepIsMerge(mask: Bits4, neu: Quad)
    ensures Map2(KeepWord, neu, LanesPs(mask)) == Merge(mask, neu, ZERO)
  {
    hide Ones, KeepWord;
    KeepLane(Selected(mask, 0), neu.x);
    KeepLane(Selected(mask, 1), neu.y);
    KeepLane(Selected(mask, 2), neu.z);
    KeepLane(Selected(mask, 3), neu.w);
  }

  // ---- Vector equals scalar ---------------------------------------------------------------------

  lemma OpLane(alu: Alu, kind: int, a: Word, b: Word, acc: Word)
    ensures FmacOp(alu, kind, InWord(a), InWord(b), InWord(acc)) == FmacLane(alu, kind, a, b, acc)
  {
    hide VuIn, InWord, FmacOp;
    InLane(a);
    InLane(b);
    InLane(acc);
  }

  lemma MacStep(alu: Alu, kind: int, a: Quad, b: Quad, acc: Quad, mask: Bits4, mac: Mac, n: nat)
    requires n < 4
    ensures FmacMac(alu, kind, a, b, acc, mask, mac, 0) == mac
    ensures FmacMac(alu, kind, a, b, acc, mask, mac, n + 1) ==
            AddSelected(FmacMac(alu, kind, a, b, acc, mask, mac, n), n, FmacFlag(alu, kind, a, b, acc, n), mask)
  {
    hide FmacFlag, AddFlags;
  }

  function AddSelected(m: Mac, n: nat, f: Flagged, mask: Bits4): Mac
    requires n < 4
  {
    if Selected(mask, n) then AddFlags(m, n, f) else m
  }

  function AddBit(n: Bits4, i: nat, c: bool, mask: Bits4): Bits4
    requires i < 4
  {
    if Selected(mask, i) then Or4(n, LaneBit(i, c)) else n
  }

  lemma AddSelectedIs(m: Mac, i: nat, f: Flagged, mask: Bits4)
    requires i < 4
    ensures AddSelected(m, i, f, mask) ==
            Mac(AddBit(m.o, i, f.o, mask), AddBit(m.u, i, f.u, mask),
                AddBit(m.s, i, f.s, mask), AddBit(m.z, i, f.z, mask))
  {
    hide Or4, LaneBit;
  }

  lemma Gather(n: Bits4, c0: bool, c1: bool, c2: bool, c3: bool, mask: Bits4)
    ensures AddBit(AddBit(AddBit(AddBit(n, 0, c0, mask), 1, c1, mask), 2, c2, mask), 3, c3, mask) ==
            Or4(n, Gathered(c0, c1, c2, c3, mask))
  {
    var n0 := AddBit(n, 0, c0, mask);
    var n1 := AddBit(n0, 1, c1, mask);
    var n2 := AddBit(n1, 2, c2, mask);
    OneBit(n, 0, c0, mask);
    OneBit(n0, 1, c1, mask);
    OneBit(n1, 2, c2, mask);
    OneBit(n2, 3, c3, mask);
    hide AddBit;
  }

  /** Adding lane i's bit changes that bit alone. */
  lemma OneBit(n: Bits4, i: nat, c: bool, mask: Bits4)
    requires i < 4
    ensures var r := AddBit(n, i, c, mask);
            && r.b3 == (n.b3 || (i == 0 && c && mask.b3)) && r.b2 == (n.b2 || (i == 1 && c && mask.b2))
            && r.b1 == (n.b1 || (i == 2 && c && mask.b1)) && r.b0 == (n.b0 || (i == 3 && c && mask.b0))
  {
    if i == 0 {} else if i == 1 {} else if i == 2 {} else {}
  }

  /** Adding the lanes' flags one by one is reversing and masking the SSE lane sets. */
  lemma FlagsGather(mac: Mac, f0: Flagged, f1: Flagged, f2: Flagged, f3: Flagged, mask: Bits4)
    ensures var two := AddSelected(AddSelected(mac, 0, f0, mask), 1, f1, mask);
            AddSelected(AddSelected(two, 2, f2, mask), 3, f3, mask) ==
            OrMac(mac, FlagMacPs(f0, f1, f2, f3, mask))
  {
    hide AddSelected, AddBit, Or4, Gathered;
    var m1 := AddSelected(mac, 0, f0, mask);
    var m2 := AddSelected(m1, 1, f1, mask);
    var m3 := AddSelected(m2, 2, f2, mask);
    AddSelectedIs(mac, 0, f0, mask);
    AddSelectedIs(m1, 1, f1, mask);
    AddSelectedIs(m2, 2, f2, mask);
    AddSelectedIs(m3, 3, f3, mask);
    Gather(mac.o, f0.o, f1.o, f2.o, f3.o, mask);
    Gather(mac.u, f0.u, f1.u, f2.u, f3.u, mask);
    Gather(mac.s, f0.s, f1.s, f2.s, f3.s, mask);
    Gather(mac.z, f0.z, f1.z, f2.z, f3.z, mask);
  }

  lemma MacIs(alu: Alu, kind: int, a: Quad, b: Quad, acc: Quad, mask: Bits4, mac: Mac)
    ensures FmacMac(alu, kind, a, b, acc, mask, mac, 4) ==
            OrMac(mac, FlagMacPs(FmacFlag(alu, kind, a, b, acc, 0), FmacFlag(alu, kind, a, b, acc, 1),
                                 FmacFlag(alu, kind, a, b, acc, 2), FmacFlag(alu, kind, a, b, acc, 3), mask))
  {
    hide FmacFlag, FmacMac, AddSelected, OrMac, FlagMacPs;
    MacStep(alu, kind, a, b, acc, mask, mac, 0);
    MacStep(alu, kind, a, b, acc, mask, mac, 1);
    MacStep(alu, kind, a, b, acc, mask, mac, 2);
    MacStep(alu, kind, a, b, acc, mask, mac, 3);
    FlagsGather(mac, FmacFlag(alu, kind, a, b, acc, 0), FmacFlag(alu, kind, a, b, acc, 1),
                FmacFlag(alu, kind, a, b, acc, 2), FmacFlag(alu, kind, a, b, acc, 3), mask);
  }

  /** The SSE2 FMAC: the same four result lanes and the same mac nibbles as the scalar loop, for every
      kind, operand, accumulator, mask and prior mac word. */
  lemma FmacVectorIsScalar(alu: Alu, kind: int, a: Quad, b: Quad, acc: Quad, mask: Bits4, mac: Mac)
    ensures FmacPs(alu, kind, a, b, acc, mask, mac) ==
            Result(FmacQuad(alu, kind, a, b, acc, mask), FmacMac(alu, kind, a, b, acc, mask, mac, 4))
  {
    hide FmacLane, FmacOp, FlagRes, FlagWord, FlagMacPs, LanesPs, Merge, FmacMac, InWord, KeepWord, OrMac;
    var v := FmacOpPs(alu, kind, Map(InWord, a), Map(InWord, b), Map(InWord, acc));
    OpLane(alu, kind, a.x, b.x, acc.x);
    OpLane(alu, kind, a.y, b.y, acc.y);
    OpLane(alu, kind, a.z, b.z, acc.z);
    OpLane(alu, kind, a.w, b.w, acc.w);
    FlagLane(v.x);
    FlagLane(v.y);
    FlagLane(v.z);
    FlagLane(v.w);
    KeepIsMerge(mask, Quad(FlagWord(v.x).b, FlagWord(v.y).b, FlagWord(v.z).b, FlagWord(v.w).b));
    MacIs(alu, kind, a, b, acc, mask, mac);
  }

  /** vmax and vmini: one signed comparison of keys takes the lanes the scalar rules take. */
  lemma MaxMinVectorIsScalar(isMin: bool, a: Quad, b: Quad)
    ensures MaxMinPs(isMin, a, b) == MaxMinQuad(isMin, a, b)
  {
    hide Key, MaxBits, MinBits, SignedLess, Ones, BlendWord;
    TakeLane(isMin, a.x, b.x);
    TakeLane(isMin, a.y, b.y);
    TakeLane(isMin, a.z, b.z);
    TakeLane(isMin, a.w, b.w);
  }

  lemma TakeLane(isMin: bool, a: Word, b: Word)
    ensures BlendWord(if isMin then GtWord(Key(b), Key(a)) else GtWord(Key(a), Key(b)), a, b) ==
            if isMin then MinBits(a, b) else MaxBits(a, b)
  {
    hide Key, MaxBits, MinBits, SignedLess, Ones, BlendWord;
    KeyOrders(a, b);
    BlendLane(SignedLess(Key(b), Key(a)), a, b);
    BlendLane(SignedLess(Key(a), Key(b)), a, b);
  }
}
