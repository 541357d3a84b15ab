/** The streaming SHA-1 of src/runtime/sha1.cpp, proved to compute the specification's digest however
    the message is cut into pieces. */
module Sha1 {
  import opened Sha1Spec

  const TWO64: nat := 0x1_0000_0000_0000_0000

  /** rol32 by a constant amount. */
  function Rol(v: Word, bits: nat): Word
    requires 0 < bits < 32
  {
    if bits == 1 then (v << 1) | (v >> 31)
    else if bits == 5 then (v << 5) | (v >> 27)
    else if bits == 30 then (v << 30) | (v >> 2)
    else v.RotateLeft(bits)
  }

  lemma RolIsRotl(v: Word)
    ensures Rol(v, 1) == Rotl1(v)
    ensures Rol(v, 5) == Rotl5(v)
    ensures Rol(v, 30) == Rotl30(v)
  {}

  function ChooseOr(b: Word, c: Word, d: Word): Word { (b & c) | (!b & d) }
  function MajorityOr(b: Word, c: Word, d: Word): Word { (b & c) | (b & d) | (c & d) }

  /** The round function as the source writes it, with inclusive ors. */
  function Mix(t: nat, b: Word, c: Word, d: Word): Word {
    if t < 20 then ChooseOr(b, c, d)
    else if t < 40 then Parity(b, c, d)
    else if t < 60 then MajorityOr(b, c, d)
    else Parity(b, c, d)
  }

  lemma ChooseIsCh(b: Word, c: Word, d: Word)
    ensures ChooseOr(b, c, d) == Ch(b, c, d)
  {
    hide ChooseOr, Ch;
    ChooseDiffers(b, c, d);
    NoDifference(ChooseOr(b, c, d), Ch(b, c, d));
  }

  lemma ChooseDiffers(b: Word, c: Word, d: Word)
    ensures ChooseOr(b, c, d) ^ Ch(b, c, d) == 0
  {}

  lemma MajorityIsMaj(b: Word, c: Word, d: Word)
    ensures MajorityOr(b, c, d) == Maj(b, c, d)
  {
    hide MajorityOr, Maj;
    MajorityDiffers(b, c, d);
    NoDifference(MajorityOr(b, c, d), Maj(b, c, d));
  }

  lemma MajorityDiffers(b: Word, c: Word, d: Word)
    ensures MajorityOr(b, c, d) ^ Maj(b, c, d) == 0
  {}

  lemma NoDifference(x: Word, y: Word)
    requires x ^ y == 0
    ensures x == y
  {}

  /** The source's inclusive ors and the standard's exclusive ors agree. */
  lemma MixIsF(t: nat, b: Word, c: Word, d: Word)
    ensures Mix(t, b, c, d) == F(t, b, c, d)
  {
    hide ChooseOr, MajorityOr, Ch, Maj, Parity;
    ChooseIsCh(b, c, d);
    MajorityIsMaj(b, c, d);
  }

  /** `chain` is the hash of every whole block of `seen`, and `tail` is the rest of it. */
  ghost predicate Stream(chain: Hash, tail: seq<Byte>, seen: seq<Byte>) {
    && |tail| == |seen| % 64 && tail == seen[|seen| - |tail|..]
    && chain == HashBlocks(H0, seen[..|seen| - |tail|])
  }

  lemma Grow(chain: Hash, tail: seq<Byte>, seen: seq<Byte>, piece: seq<Byte>)
    requires Stream(chain, tail, seen) && |tail| + |piece| < 64
    ensures Stream(chain, tail + piece, seen + piece)
  {
    hide HashBlocks;
    var whole := seen[..|seen| - |tail|];
    assert seen == whole + tail && seen + piece == whole + (tail + piece);
  }

  lemma Fill(chain: Hash, tail: seq<Byte>, seen: seq<Byte>, piece: seq<Byte>)
    requires Stream(chain, tail, seen) && |tail| + |piece| == 64
    ensures |seen + piece| % 64 == 0 && HashBlocks(H0, seen + piece) == Compress(chain, tail + piece)
  {
    hide HashBlocks, Compress;
    var whole := seen[..|seen| - |tail|];
    assert seen == whole + tail && seen + piece == whole + (tail + piece);
    OneMoreBlock(H0, whole, tail + piece);
  }

  lemma Whole(chain: Hash, seen: seq<Byte>)
    requires |seen| % 64 == 0 && chain == HashBlocks(H0, seen)
    ensures Stream(chain, [], seen)
  {
    hide HashBlocks;
    assert seen[..|seen|] == seen;
  }

  class Sha1State {
    const h: array<Word>
    var totalLen: nat
    const buf: array<Byte>
    var bufLen: nat
    ghost var seen: seq<Byte>   // everything passed to Update

    ghost predicate Valid()
      reads this, h, buf
    {
      && h.Length == 5 && buf.Length == 64 && bufLen < 64
      && Stream(Chain(), buf[..bufLen], seen) && totalLen == |seen| % TWO64
    }

    function Chain(): Hash
      requires h.Length == 5
      reads h
    {
      Hash(h[0], h[1], h[2], h[3], h[4])
    }

    constructor ()
      ensures Valid() && seen == [] && fresh(h) && fresh(buf)
    {
      h := new Word[5][0x67452301, 0xEFCDAB89, 0x98BADCFE, 0x10325476, 0xC3D2E1F0];
      totalLen, bufLen, seen := 0, 0, [];
      buf := new Byte[64](_ => 0);
    }

    method Schedule() returns (w: array<Word>)
      requires buf.Length == 64
      ensures w.Length == 80 && fresh(w) && forall j | 0 <= j < 80 :: w[j] == W(buf[..], j)
    {
      hide Rotl1, Xor4, Be32, Rol;
      w := new Word[80];
      for i := 0 to 16
        invariant forall j | 0 <= j < i :: w[j] == W(buf[..], j)
      {
        w[i] := Be32(buf[i * 4], buf[i * 4 + 1], buf[i * 4 + 2], buf[i * 4 + 3]);
      }
      for i := 16 to 80
        invariant forall j | 0 <= j < i :: w[j] == W(buf[..], j)
      {
        var x := Xor4(w[i - 3], w[i - 8], w[i - 14], w[i - 16]);
        RolIsRotl(x);
        w[i] := Rol(x, 1);
      }
    }

    method RunRounds(w: array<Word>) returns (v: Hash)
      requires h.Length == 5 && buf.Length == 64 && w.Length == 80 && forall j | 0 <= j < 80 :: w[j] == W(buf[..], j)
      ensures v == Rounds(Chain(), buf[..], 80)
    {
      hide Rotl5, Rotl30, Plus, Rol, F, Mix, K, W;
      var a, b, c, d, e := h[0], h[1], h[2], h[3], h[4];
      for i := 0 to 80
        invariant Hash(a, b, c, d, e) == Rounds(Chain(), buf[..], i)
      {
        RolIsRotl(a);
        RolIsRotl(b);
        MixIsF(i, b, c, d);
        ghost var was := Hash(a, b, c, d, e);
        var temp := Plus(Plus(Plus(Plus(Rol(a, 5), Mix(i, b, c, d)), e), K(i)), w[i]);
        e := d;
        d := c;
        c := Rol(b, 30);
        b := a;
        a := temp;
        assert Hash(a, b, c, d, e) == Round(was, i, w[i]);
        assert w[i] == W(buf[..], i);
      }
      v := Hash(a, b, c, d, e);
    }

    /** sha1_block. */
    method Block()
      requires h.Length == 5 && buf.Length == 64
      modifies h
      ensures Chain() == Compress(old(Chain()), buf[..])
    {
      hide Plus, Rounds;
      var w := Schedule();
      var v := RunRounds(w);
      h[0] := Plus(h[0], v.a);
      h[1] := Plus(h[1], v.b);
      h[2] := Plus(h[2], v.c);
      h[3] := Plus(h[3], v.d);
      h[4] := Plus(h[4], v.e);
    }

    /** The body of the update loop: fills the buffer with one piece and hashes it when full. */
    method Absorb(piece: seq<Byte>)
      requires h.Length == 5 && buf.Length == 64 && bufLen + |piece| <= 64 && bufLen < 64
      requires Stream(Chain(), buf[..bufLen], seen)
      modifies this`bufLen, this`seen, h, buf
      ensures bufLen < 64 && Stream(Chain(), buf[..bufLen], seen) && seen == old(seen) + piece
    {
      hide Compress, Stream;
      ghost var chain, tail := Chain(), buf[..bufLen];
      Append(piece);
      seen := seen + piece;
      if bufLen == 64 {
        assert buf[..] == tail + piece;
        Fill(chain, tail, old(seen), piece);
        Block();
        bufLen := 0;
        Whole(Chain(), seen);
        assert buf[..0] == [];
      } else {
        Grow(chain, tail, old(seen), piece);
      }
    }

    /** sha1_update. */
    method Update(data: seq<Byte>)
      requires Valid()
      modifies this`totalLen, this`bufLen, this`seen, h, buf
      ensures Valid() && seen == old(seen) + data
    {
      hide Stream;
      AddMod(|seen|, |data|);
      totalLen := (totalLen + |data|) % TWO64;
      ghost var total := totalLen;
      var done := 0;
      while done < |data|
        invariant done <= |data| && bufLen < 64 && Stream(Chain(), buf[..bufLen], seen)
        invariant totalLen == total
        invariant seen == old(seen) + data[..done]
      {
        var take := if 64 - bufLen > |data| - done then |data| - done else 64 - bufLen;
        assert data[..done] + data[done..done + take] == data[..done + take];
        Absorb(data[done..done + take]);
        done := done + take;
      }
      assert data[..done] == data;
    }

    /** The copy into the buffer. */
    method Append(piece: seq<Byte>)
      requires buf.Length == 64 && bufLen + |piece| <= 64
      modifies this`bufLen, buf
      ensures bufLen == old(bufLen) + |piece| && buf[..bufLen] == old(buf[..bufLen]) + piece
    {
      for i := 0 to |piece|
        invariant bufLen == old(bufLen)
        invariant buf[..bufLen + i] == old(buf[..bufLen]) + piece[..i]
      {
        buf[bufLen + i] := piece[i];
      }
      bufLen := bufLen + |piece|;
    }

    /** Appends 0x80 and zero bytes up to the length field; ends from every buffer fill. */
    method PadToLength()
      requires Valid()
      modifies this`totalLen, this`bufLen, this`seen, h, buf
      ensures Valid() && bufLen == 56 && seen == old(seen) + [0x80] + Zeros(ZeroBytes(|old(seen)|))
    {
      hide HashBlocks, Stream, Fits, ZeroBytes;
      ghost var m := seen;
      ZeroBytesIsLeast(|m|);
      Update([0x80]);
      ghost var z := 0;
      while bufLen != 56
        invariant Valid() && z <= ZeroBytes(|m|) && seen == m + [0x80] + Zeros(z)
        decreases ZeroBytes(|m|) - z
      {
        FillLevel(m, z);
        Update([0x00]);
        z := z + 1;
      }
      FillLevel(m, z);
    }

    /** The buffer holds 56 bytes exactly when the padding fits. */
    lemma FillLevel(m: seq<Byte>, z: nat)
      requires Valid() && seen == m + [0x80] + Zeros(z)
      ensures bufLen == 56 <==> Fits(|m|, z)
    {
      hide HashBlocks;
      assert |seen| == |m| + 1 + z;
    }

    /** sha1_final. */
    method Final() returns (digest: seq<Byte>)
      requires Valid()
      modifies this`totalLen, this`bufLen, this`seen, h, buf
      ensures |old(seen)| < 0x2000_0000_0000_0000 ==> digest == Digest(old(seen))
    {
      hide Compress, Be64, Stream, HashBlocks, WordBytes, ZeroBytes;
      var bitLen := BitLength();
      PadToLength();
      ghost var chain, tail := Chain(), buf[..bufLen];
      var lenBe := LengthBytes(bitLen);
      Append(lenBe);
      assert buf[..] == tail + lenBe;
      Fill(chain, tail, seen, lenBe);
      Block();
      bufLen := 0;
      digest := WordBytes(h[0]) + WordBytes(h[1]) + WordBytes(h[2]) + WordBytes(h[3]) + WordBytes(h[4]);
    }

    method BitLength() returns (bits: nat)
      requires Valid()
      ensures bits < TWO64 && (|seen| < 0x2000_0000_0000_0000 ==> bits == 8 * |seen|)
    {
      hide Stream;
      bits := totalLen * 8 % TWO64;
    }
  }

  method LengthBytes(bitLen: nat) returns (r: seq<Byte>)
    requires bitLen < TWO64
    ensures r == Be64(bitLen)
  {
    r := [];
    for i := 0 to 8
      invariant r == Be64(bitLen)[..i]
    {
      r := r + [BeByte(bitLen, i)];
    }
  }

  lemma AddMod(a: nat, b: nat)
    ensures (a % TWO64 + b) % TWO64 == (a + b) % TWO64
  {}

  /** rt_sha1_buffer. */
  method HashBuffer(data: seq<Byte>) returns (digest: seq<Byte>)
    ensures |data| < 0x2000_0000_0000_0000 ==> digest == Digest(data)
  {
    hide Digest, Stream;
    var s := new Sha1State();
    s.Update(data);
    assert s.seen == data;
    digest := s.Final();
  }

  /** rt_sha1_file once the file is open: `pieces` are what fread returned, any sizes. */
  method HashFile(pieces: seq<seq<Byte>>) returns (digest: seq<Byte>)
    ensures |Concat(pieces)| < 0x2000_0000_0000_0000 ==> digest == Digest(Concat(pieces))
  {
    hide Digest, Stream;
    var s := new Sha1State();
    var n := 0;
    while n < |pieces|
      invariant n <= |pieces| && s.Valid() && fresh(s) && fresh(s.h) && fresh(s.buf)
      invariant s.seen + Concat(pieces[n..]) == Concat(pieces)
    {
      assert pieces[n..][1..] == pieces[n + 1..];
      s.Update(pieces[n]);
      n := n + 1;
    }
    assert pieces[n..] == [];
    assert s.seen == Concat(pieces);
    digest := s.Final();
  }

  function Concat(pieces: seq<seq<Byte>>): seq<Byte> {
    if pieces == [] then [] else pieces[0] + Concat(pieces[1..])
  }
}
