/** The mac word as the source packs it, 16 bits set by shifts, and the proof that it is the word whose
    nibbles module VuLanes reasons about, in the scalar body and in the vector form. */
module VuMac {
  import opened VuLanes

  predicate IsOr(r: bv32, a: bv32, b: bv32) { r == a | b }

  function Bit(c: bool, v: bv32): bv32 { if c then v else 0 }

  /** A four-bit field as a number. */
  function Nibble(m: Bits4): bv32 {
    Bit(m.b3, 8) | Bit(m.b2, 4) | Bit(m.b1, 2) | Bit(m.b0, 1)
  }

  /** Overflow in bits 15 to 12, underflow in 11 to 8, sign in 7 to 4, zero in 3 to 0. */
  function Packed(m: Mac): bv32 {
    Fields(Nibble(m.o), Nibble(m.u), Nibble(m.s), Nibble(m.z))
  }

  function Fields(o: bv32, u: bv32, s: bv32, z: bv32): bv32 {
    (o << 12) | (u << 8) | (s << 4) | z
  }

  /** rc_vu_flagres: what one lane ors into the word; sh is 3 - lane. */
  function ScalarOr(w: bv32, i: nat, f: Flagged): bv32
    requires i < 4
  {
    var sh: bv32 := if i == 0 then 3 else if i == 1 then 2 else if i == 2 then 1 else 0;
    w | Bit(f.o, 0x1000 << sh) | Bit(f.u, 0x0100 << sh) | Bit(f.z, 0x0001 << sh) | Bit(f.s, 0x0010 << sh)
  }

  lemma NibbleOrs(a: Bits4, b: Bits4)
    ensures Nibble(Or4(a, b)) == Nibble(a) | Nibble(b)
  {}

  lemma NibbleOr(a: Bits4, b: Bits4)
    ensures IsOr(Nibble(Or4(a, b)), Nibble(a), Nibble(b))
  {
    hide Nibble, Or4;
    NibbleOrs(a, b);
  }

  lemma NibbleLane(i: nat, c: bool)
    requires i < 4
    ensures Nibble(LaneBit(i, c)) == Bit(c, if i == 0 then 8 else if i == 1 then 4 else if i == 2 then 2 else 1)
  {}

  lemma OrFields(o: bv32, u: bv32, s: bv32, z: bv32, a: bv32, b: bv32, c: bv32, d: bv32,
                 o': bv32, u': bv32, s': bv32, z': bv32)
    requires IsOr(o', o, a) && IsOr(u', u, b) && IsOr(s', s, c) && IsOr(z', z, d)
    ensures IsOr(Fields(o', u', s', z'), Fields(o, u, s, z), Fields(a, b, c, d))
  {}

  lemma PackedOr(a: Mac, b: Mac)
    ensures IsOr(Packed(OrMac(a, b)), Packed(a), Packed(b))
  {
    hide Nibble, Or4, Fields, IsOr;
    NibbleOr(a.o, b.o);
    NibbleOr(a.u, b.u);
    NibbleOr(a.s, b.s);
    NibbleOr(a.z, b.z);
    var r := OrMac(a, b);
    OrFields(Nibble(a.o), Nibble(a.u), Nibble(a.s), Nibble(a.z), Nibble(b.o), Nibble(b.u), Nibble(b.s), Nibble(b.z),
             Nibble(r.o), Nibble(r.u), Nibble(r.s), Nibble(r.z));
  }

  lemma PackedLane(i: nat, f: Flagged)
    requires i < 4
    ensures Packed(Mac(LaneBit(i, f.o), LaneBit(i, f.u), LaneBit(i, f.s), LaneBit(i, f.z))) == ScalarOr(0, i, f)
  {
    hide Nibble, LaneBit, Fields, ScalarOr;
    NibbleLane(i, f.o);
    NibbleLane(i, f.u);
    NibbleLane(i, f.s);
    NibbleLane(i, f.z);
    LaneFields(i, f);
  }

  lemma LaneFields(i: nat, f: Flagged)
    requires i < 4
    ensures var v: bv32 := if i == 0 then 8 else if i == 1 then 4 else if i == 2 then 2 else 1;
            Fields(Bit(f.o, v), Bit(f.u, v), Bit(f.s, v), Bit(f.z, v)) == ScalarOr(0, i, f)
  {
    if i == 0 {} else if i == 1 {} else if i == 2 {} else {}
  }

  /** rc_vu_rev4 on the integer. */
  function Rev(m: bv32): bv32 {
    ((m & 1) << 3) | ((m & 2) << 1) | ((m & 4) >> 1) | ((m & 8) >> 3)
  }

  /** The integer movemask: lane i at bit i. */
  function MaskBits(x: bool, y: bool, z: bool, w: bool): bv32 {
    Bit(x, 1) | Bit(y, 2) | Bit(z, 4) | Bit(w, 8)
  }

  function Kept(lanes: bv32, mask: bv32): bv32 { Rev(lanes) & mask }

  lemma GatheredBits(c0: bool, c1: bool, c2: bool, c3: bool, mask: Bits4)
    ensures Kept(MaskBits(c0, c1, c2, c3), Nibble(mask)) == Nibble(Gathered(c0, c1, c2, c3, mask))
  {}

  predicate Small(n: bv32) { n & 0xF == n }

  lemma NibbleBits(m: Bits4)
    ensures Small(Nibble(m))
    ensures m.b3 <==> Nibble(m) & 8 != 0
    ensures m.b2 <==> Nibble(m) & 4 != 0
    ensures m.b1 <==> Nibble(m) & 2 != 0
    ensures m.b0 <==> Nibble(m) & 1 != 0
  {}

  lemma FieldsApart(o: bv32, u: bv32, s: bv32, z: bv32)
    requires Small(o) && Small(u) && Small(s) && Small(z)
    ensures var w := Fields(o, u, s, z);
            w >> 12 == o && (w >> 8) & 0xF == u && (w >> 4) & 0xF == s && w & 0xF == z
  {}

  /** Nothing is lost by packing. */
  lemma PackedIsMac(m: Mac)
    ensures var w := Packed(m);
            && w >> 12 == Nibble(m.o) && (w >> 8) & 0xF == Nibble(m.u)
            && (w >> 4) & 0xF == Nibble(m.s) && w & 0xF == Nibble(m.z)
  {
    NibbleBits(m.o);
    NibbleBits(m.u);
    NibbleBits(m.s);
    NibbleBits(m.z);
    hide Nibble, Small, Fields;
    FieldsApart(Nibble(m.o), Nibble(m.u), Nibble(m.s), Nibble(m.z));
  }

  // ---- One lane of the scalar loop, and the vector form ---------------------------------------

  lemma OrLanes(w: bv32, i: nat, f: Flagged)
    requires i < 4
    ensures ScalarOr(w, i, f) == w | ScalarOr(0, i, f)
  {}

  lemma OrLane(w: bv32, r: bv32, i: nat, f: Flagged)
    requires i < 4 && IsOr(r, w, ScalarOr(0, i, f))
    ensures r == ScalarOr(w, i, f)
  {
    hide ScalarOr;
    OrLanes(w, i, f);
  }

  /** The scalar body's shifts set exactly the lane's bits. */
  lemma ScalarPacks(mac: Mac, i: nat, f: Flagged)
    requires i < 4
    ensures Packed(AddFlags(mac, i, f)) == ScalarOr(Packed(mac), i, f)
  {
    hide Packed, ScalarOr, LaneBit, OrMac, IsOr;
    var g := Mac(LaneBit(i, f.o), LaneBit(i, f.u), LaneBit(i, f.s), LaneBit(i, f.z));
    PackedLane(i, f);
    PackedOr(mac, g);
    OrLane(Packed(mac), Packed(OrMac(mac, g)), i, f);
  }

  /** rc_vu_flagres_ps: the reversed, masked lane sets, shifted into place. */
  function VectorOr(w: bv32, o: bv32, u: bv32, s: bv32, z: bv32, mask: bv32): bv32 {
    w | Fields(Kept(o, mask), Kept(u, mask), Kept(s, mask), Kept(z, mask))
  }

  lemma VectorPacks(mac: Mac, f0: Flagged, f1: Flagged, f2: Flagged, f3: Flagged, mask: Bits4)
    ensures Packed(OrMac(mac, FlagMacPs(f0, f1, f2, f3, mask))) ==
            VectorOr(Packed(mac), MaskBits(f0.o, f1.o, f2.o, f3.o), MaskBits(f0.u, f1.u, f2.u, f3.u),
                     MaskBits(f0.s, f1.s, f2.s, f3.s), MaskBits(f0.z, f1.z, f2.z, f3.z), Nibble(mask))
  {
    hide MaskBits, Kept, Nibble, Gathered, OrMac, Fields, IsOr, VectorOr;
    GatheredBits(f0.o, f1.o, f2.o, f3.o, mask);
    GatheredBits(f0.u, f1.u, f2.u, f3.u, mask);
    GatheredBits(f0.s, f1.s, f2.s, f3.s, mask);
    GatheredBits(f0.z, f1.z, f2.z, f3.z, mask);
    var g := FlagMacPs(f0, f1, f2, f3, mask);
    PackedOr(mac, g);
    OrVector(Packed(mac), Packed(OrMac(mac, g)), MaskBits(f0.o, f1.o, f2.o, f3.o), MaskBits(f0.u, f1.u, f2.u, f3.u),
             MaskBits(f0.s, f1.s, f2.s, f3.s), MaskBits(f0.z, f1.z, f2.z, f3.z), Nibble(mask));
  }

  lemma OrVector(w: bv32, r: bv32, o: bv32, u: bv32, s: bv32, z: bv32, mask: bv32)
    requires IsOr(r, w, Fields(Kept(o, mask), Kept(u, mask), Kept(s, mask), Kept(z, mask)))
    ensures r == VectorOr(w, o, u, s, z, mask)
  {
    hide Kept, Fields;
  }
}
