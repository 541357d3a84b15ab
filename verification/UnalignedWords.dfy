/** The same pairs on machine words, with the source's own masks and shifts. The unaligned word at an
    address whose low bits are b > 0 is the top of the aligned word `lo` that holds its first byte and the
    bottom of the next one, `hi`; with b = 0 it is one aligned word, where both halves of a pair go. */
module UnalignedWords {

  // ---- 32 bits -----------------------------------------------------------------------

  function Lwl(w: bv32, cur: bv32, b: bv32): bv32
    requires b < 4
  {
    (cur & (0x00FF_FFFF >> (b * 8))) | (w << (24 - b * 8))
  }

  function Lwr(w: bv32, cur: bv32, b: bv32): bv32
    requires b < 4
  {
    if b == 0 then w else (cur & !(0xFFFF_FFFF >> (b * 8))) | (w >> (b * 8))
  }

  function Swl(w: bv32, v: bv32, b: bv32): bv32
    requires b < 4
  {
    (w & (0xFFFF_FF00 << (b * 8))) | (v >> (24 - b * 8))
  }

  function Swr(w: bv32, v: bv32, b: bv32): bv32
    requires b < 4
  {
    (w & !(0xFFFF_FFFF << (b * 8))) | (v << (b * 8))
  }

  /** The word that starts b bytes into lo. */
  function Across32(lo: bv32, hi: bv32, b: bv32): bv32
    requires 0 < b < 4
  {
    (lo >> (b * 8)) | (hi << (32 - b * 8))
  }

  lemma LoadPair32(lo: bv32, hi: bv32, cur: bv32, b: bv32)
    requires 0 < b < 4
    ensures Lwl(hi, Lwr(lo, cur, b), b - 1) == Across32(lo, hi, b)
    ensures Lwr(lo, Lwl(hi, cur, b - 1), b) == Across32(lo, hi, b)
  {}

  lemma LoadAligned32(w: bv32, cur: bv32)
    ensures Lwl(w, Lwr(w, cur, 0), 3) == w && Lwr(w, Lwl(w, cur, 3), 0) == w
  {}

  /** The two stores put v there and leave the bytes of lo below it and of hi above it. */
  lemma StorePair32(lo: bv32, hi: bv32, v: bv32, b: bv32)
    requires 0 < b < 4
    ensures Across32(Swr(lo, v, b), Swl(hi, v, b - 1), b) == v
    ensures Swr(lo, v, b) << (32 - b * 8) == lo << (32 - b * 8)
    ensures Swl(hi, v, b - 1) >> (b * 8) == hi >> (b * 8)
  {}

  lemma StoreAligned32(w: bv32, v: bv32)
    ensures Swl(w, v, 3) == v && Swr(w, v, 0) == v
  {}

  // ---- The 64-bit register of lwl and lwr ------------------------------------------------

  predicate Negative(w: bv32) { w & 0x8000_0000 != 0 }

  function Raised(w: bv32): bv64 { 0xFFFF_FFFF_0000_0000 | (w as bv64) }

  function SignExtend(w: bv32): bv64 {
    if Negative(w) then Raised(w) else w as bv64
  }

  function LowWord(r: bv64): bv32 { (r & 0xFFFF_FFFF) as bv32 }

  function WithLow(r: bv64, y: bv32): bv64 { (r & 0xFFFF_FFFF_0000_0000) | (y as bv64) }

  function LwlReg(w: bv32, cur: bv64, b: bv32): bv64
    requires b < 4
  {
    SignExtend(Lwl(w, LowWord(cur), b))
  }

  function LwrReg(w: bv32, cur: bv64, b: bv32): bv64
    requires b < 4
  {
    if b == 0 then SignExtend(w) else WithLow(cur, Lwr(w, LowWord(cur), b))
  }

  lemma LowOfJoin(cur: bv64, r: bv32)
    ensures LowWord(WithLow(cur, r)) == r
  {}

  lemma LowOfRaised(x: bv32)
    ensures LowWord(Raised(x)) == x && LowWord(x as bv64) == x
  {}

  lemma LowOfExtended(x: bv32)
    ensures LowWord(SignExtend(x)) == x
  {
    hide LowWord, Raised, Negative;
    LowOfRaised(x);
  }

  lemma SignStays(w: bv32, x: bv32, b: bv32)
    requires 0 < b < 4
    ensures Negative(Lwr(w, x, b)) == Negative(x)
  {}

  lemma JoinRaised(x: bv32, y: bv32)
    ensures WithLow(Raised(x), y) == Raised(y) && WithLow(x as bv64, y) == y as bv64
  {}

  lemma JoinExtended(x: bv32, y: bv32)
    requires Negative(y) == Negative(x)
    ensures WithLow(SignExtend(x), y) == SignExtend(y)
  {
    hide WithLow, Raised, Negative;
    JoinRaised(x, y);
  }

  /** The register ends up with the sign-extended word in either order: lwr alone leaves its upper half to
      the paired lwl. */
  lemma LoadPairReg(lo: bv32, hi: bv32, cur: bv64, b: bv32)
    requires 0 < b < 4
    ensures LwlReg(hi, LwrReg(lo, cur, b), b - 1) == SignExtend(Across32(lo, hi, b))
    ensures LwrReg(lo, LwlReg(hi, cur, b - 1), b) == SignExtend(Across32(lo, hi, b))
  {
    hide Lwl, Lwr, Across32, SignExtend, LowWord, WithLow, Negative;
    var c := LowWord(cur);
    LoadPair32(lo, hi, c, b);
    LowOfJoin(cur, Lwr(lo, c, b));
    var x := Lwl(hi, c, b - 1);
    LowOfExtended(x);
    SignStays(lo, x, b);
    JoinExtended(x, Lwr(lo, x, b));
  }

  // ---- 64 bits -----------------------------------------------------------------------

  function Ldl(d: bv64, cur: bv64, b: bv64): bv64
    requires b < 8
  {
    (cur & (0x00FF_FFFF_FFFF_FFFF >> (b * 8))) | (d << (56 - b * 8))
  }

  function Ldr(d: bv64, cur: bv64, b: bv64): bv64
    requires b < 8
  {
    if b == 0 then d else (cur & !(0xFFFF_FFFF_FFFF_FFFF >> (b * 8))) | (d >> (b * 8))
  }

  function Sdl(d: bv64, v: bv64, b: bv64): bv64
    requires b < 8
  {
    (d & (0xFFFF_FFFF_FFFF_FF00 << (b * 8))) | (v >> (56 - b * 8))
  }

  function Sdr(d: bv64, v: bv64, b: bv64): bv64
    requires b < 8
  {
    (d & !(0xFFFF_FFFF_FFFF_FFFF << (b * 8))) | (v << (b * 8))
  }

  function Across64(lo: bv64, hi: bv64, b: bv64): bv64
    requires 0 < b < 8
  {
    (lo >> (b * 8)) | (hi << (64 - b * 8))
  }

  lemma LoadPair64(lo: bv64, hi: bv64, cur: bv64, b: bv64)
    requires 0 < b < 8
    ensures Ldl(hi, Ldr(lo, cur, b), b - 1) == Across64(lo, hi, b)
    ensures Ldr(lo, Ldl(hi, cur, b - 1), b) == Across64(lo, hi, b)
  {
    hide Ldl, Ldr, Across64;
    RightThenLeft64(lo, hi, cur, b);
    LeftThenRight64(lo, hi, cur, b);
  }

  lemma RightThenLeft64(lo: bv64, hi: bv64, cur: bv64, b: bv64)
    requires 0 < b < 8
    ensures Ldl(hi, Ldr(lo, cur, b), b - 1) == Across64(lo, hi, b)
  {}

  lemma LeftThenRight64(lo: bv64, hi: bv64, cur: bv64, b: bv64)
    requires 0 < b < 8
    ensures Ldr(lo, Ldl(hi, cur, b - 1), b) == Across64(lo, hi, b)
  {
    hide Ldl, Ldr, Across64;
    hide Ldl, Ldr, Across64, Same;
    NoDifference(lo, hi, cur, b);
    SameIsEqual(Ldr(lo, Ldl(hi, cur, b - 1), b), Across64(lo, hi, b));
  }

  predicate Same(x: bv64, y: bv64) { x ^ y == 0 }

  lemma SameIsEqual(x: bv64, y: bv64)
    requires Same(x, y)
    ensures x == y
  {}

  lemma NoDifference(lo: bv64, hi: bv64, cur: bv64, b: bv64)
    requires 0 < b < 8
    ensures Same(Ldr(lo, Ldl(hi, cur, b - 1), b), Across64(lo, hi, b))
  {}

  lemma LoadAligned64(d: bv64, cur: bv64)
    ensures Ldl(d, Ldr(d, cur, 0), 7) == d && Ldr(d, Ldl(d, cur, 7), 0) == d
  {}

  lemma StorePair64(lo: bv64, hi: bv64, v: bv64, b: bv64)
    requires 0 < b < 8
    ensures Across64(Sdr(lo, v, b), Sdl(hi, v, b - 1), b) == v
    ensures Sdr(lo, v, b) << (64 - b * 8) == lo << (64 - b * 8)
    ensures Sdl(hi, v, b - 1) >> (b * 8) == hi >> (b * 8)
  {
    hide Sdl, Sdr, Across64;
    Stored64(lo, hi, v, b);
    RestOfLo(lo, v, b);
    RestOfHi(hi, v, b);
  }

  lemma Stored64(lo: bv64, hi: bv64, v: bv64, b: bv64)
    requires 0 < b < 8
    ensures Across64(Sdr(lo, v, b), Sdl(hi, v, b - 1), b) == v
  {}

  lemma RestOfLo(lo: bv64, v: bv64, b: bv64)
    requires 0 < b < 8
    ensures Sdr(lo, v, b) << (64 - b * 8) == lo << (64 - b * 8)
  {}

  lemma RestOfHi(hi: bv64, v: bv64, b: bv64)
    requires 0 < b < 8
    ensures Sdl(hi, v, b - 1) >> (b * 8) == hi >> (b * 8)
  {}

  lemma StoreAligned64(d: bv64, v: bv64)
    ensures Sdl(d, v, 7) == v && Sdr(d, v, 0) == v
  {}

  // ---- Little-endian memory ----------------------------------------------------------------

  type Byte = bv8

  /** What lies across the aligned words of bytes a to d and e to h is the word that memory holds there. */
  lemma AcrossBytes(a: Byte, b: Byte, c: Byte, d: Byte, e: Byte, f: Byte, g: Byte, h: Byte)
    ensures var lo := (a as bv32) | ((b as bv32) << 8) | ((c as bv32) << 16) | ((d as bv32) << 24);
            var hi := (e as bv32) | ((f as bv32) << 8) | ((g as bv32) << 16) | ((h as bv32) << 24);
            && (lo >> 8) | (hi << 24) == (b as bv32) | ((c as bv32) << 8) | ((d as bv32) << 16) | ((e as bv32) << 24)
            && (lo >> 16) | (hi << 16) == (c as bv32) | ((d as bv32) << 8) | ((e as bv32) << 16) | ((f as bv32) << 24)
            && (lo >> 24) | (hi << 8) == (d as bv32) | ((e as bv32) << 8) | ((f as bv32) << 16) | ((g as bv32) << 24)
  {}
}
