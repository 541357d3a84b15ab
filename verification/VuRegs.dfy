/** VU1's registers, and the lane helpers as the source runs them: the scalar loops and the SSE2
    forms, each pair proved to have one and the same effect. */
module VuRegs {
  import opened VuLanes

  const SRC_VEC: int := 4
  const SRC_Q: int := 5
  const SRC_I: int := 6

  class Vu1 {
    const vf: array<Quad>
    var acc: Quad
    var q: Word
    var i: Word
    const alu: Alu

    constructor (host: Alu)
      ensures vf.Length == 32 && fresh(vf) && alu == host
    {
      vf := new Quad[32](_ => ZERO);
      acc, q, i, alu := ZERO, 0, 0, host;
    }

    /** vf00 reads as (0, 0, 0, 1). */
    function Vf(n: nat): Quad
      requires n < vf.Length
      reads vf
    {
      if n != 0 then vf[n] else Quad(0, 0, 0, ONE)
    }

    /** The third operand: the whole vector, Q, I, or one lane in all four. */
    function Src(ft: nat, sel: nat): Quad
      requires ft < vf.Length
      reads this, vf
    {
      if sel == SRC_VEC then Vf(ft)
      else
        var f := if sel == SRC_Q then q else if sel == SRC_I then i else Lane(Vf(ft), sel % 4);
        Quad(f, f, f, f)
    }

    // ---- FMAC --------------------------------------------------------------------------

    method FmacScalar(kind: int, fs: nat, ft: nat, sel: nat, mask: Bits4, mac0: Mac) returns (r: Quad, mac: Mac)
      requires fs < vf.Length && ft < vf.Length
      ensures r == FmacQuad(alu, kind, Vf(fs), Src(ft, sel), acc, mask)
      ensures mac == FmacMac(alu, kind, Vf(fs), Src(ft, sel), acc, mask, mac0, 4)
    {
      hide FmacOp, VuIn, FlagRes, AddFlags;
      var a, b := Vf(fs), Src(ft, sel);
      r, mac := ZERO, mac0;
      for lane := 0 to 4
        invariant mac == FmacMac(alu, kind, a, b, acc, mask, mac0, lane)
        invariant forall j | 0 <= j < 4 ::
          (Lane(r, j) == if j < lane && Selected(mask, j) then FmacFlag(alu, kind, a, b, acc, j).b else 0)
      {
        if !Selected(mask, lane) { continue; }
        var x := VuIn(Lane(a, lane));
        var y := VuIn(Lane(b, lane));
        var v := FmacOp(alu, kind, x, y, VuIn(Lane(acc, lane)));
        var f := FlagRes(v);
        mac := AddFlags(mac, lane, f);
        r := SetLane(r, lane, f.b);
      }
      ghost var want := FmacQuad(alu, kind, a, b, acc, mask);
      assert forall j | 0 <= j < 4 ::
          Lane(want, j) == if Selected(mask, j) then FmacFlag(alu, kind, a, b, acc, j).b else 0;
      SameLanes(r, want);
    }

    method Fmac(kind: int, fs: nat, ft: nat, sel: nat, mask: Bits4, mac0: Mac) returns (r: Quad, mac: Mac)
      requires fs < vf.Length && ft < vf.Length
      ensures r == FmacQuad(alu, kind, Vf(fs), Src(ft, sel), acc, mask)
      ensures mac == FmacMac(alu, kind, Vf(fs), Src(ft, sel), acc, mask, mac0, 4)
    {
      hide FmacPs, FmacQuad, FmacMac;
      var a, b := Vf(fs), Src(ft, sel);
      var res := FmacPs(alu, kind, a, b, acc, mask, mac0);
      FmacVectorIsScalar(alu, kind, a, b, acc, mask, mac0);
      r, mac := res.r, res.mac;
    }

    // ---- Masked writes ------------------------------------------------------------------

    method WriteScalar(fd: nat, mask: Bits4, v: Quad)
      requires fd < vf.Length
      modifies vf
      ensures vf[..] == if fd == 0 then old(vf[..]) else old(vf[..])[fd := Merge(mask, v, old(vf[fd]))]
    {
      if fd == 0 { return; }
      ghost var was := vf[fd];
      for lane := 0 to 4
        invariant forall k | 0 <= k < vf.Length && k != fd :: vf[k] == old(vf[k])
        invariant forall j | 0 <= j < 4 ::
                    Lane(vf[fd], j) == if j < lane && Selected(mask, j) then Lane(v, j) else Lane(was, j)
      {
        if Selected(mask, lane) { vf[fd] := SetLane(vf[fd], lane, Lane(v, lane)); }
      }
      MergeLanes(mask, v, was);
      SameLanes(vf[fd], Merge(mask, v, was));
    }

    method Write(fd: nat, mask: Bits4, v: Quad)
      requires fd < vf.Length
      modifies vf
      ensures vf[..] == if fd == 0 then old(vf[..]) else old(vf[..])[fd := Merge(mask, v, old(vf[fd]))]
    {
      if fd == 0 { return; }
      if mask == Bits4(true, true, true, true) {
        FullMaskIsAll(v, vf[fd]);
        vf[fd] := v;
        return;
      }
      BlendIsMerge(mask, v, vf[fd]);
      vf[fd] := BlendPs(LanesPs(mask), v, vf[fd]);
    }

    method CommitAccScalar(mask: Bits4, r: Quad)
      modifies this`acc
      ensures acc == Merge(mask, r, old(acc))
    {
      for lane := 0 to 4
        invariant forall j | 0 <= j < 4 ::
                    Lane(acc, j) == if j < lane && Selected(mask, j) then Lane(r, j) else Lane(old(acc), j)
      {
        if Selected(mask, lane) { acc := SetLane(acc, lane, Lane(r, lane)); }
      }
      MergeLanes(mask, r, old(acc));
      SameLanes(acc, Merge(mask, r, old(acc)));
    }

    method CommitAcc(mask: Bits4, r: Quad)
      modifies this`acc
      ensures acc == Merge(mask, r, old(acc))
    {
      BlendIsMerge(mask, r, acc);
      acc := BlendPs(LanesPs(mask), r, acc);
    }

    // ---- Max, min and absolute value --------------------------------------------------------

    method MaxMinScalar(isMin: bool, fs: nat, ft: nat, sel: nat) returns (r: Quad)
      requires fs < vf.Length && ft < vf.Length
      ensures r == MaxMinQuad(isMin, Vf(fs), Src(ft, sel))
    {
      hide MaxBits, MinBits;
      var a, b := Vf(fs), Src(ft, sel);
      r := ZERO;
      for lane := 0 to 4
        invariant forall j | 0 <= j < lane :: Lane(r, j) == Lane(MaxMinQuad(isMin, a, b), j)
      {
        var x, y := Lane(a, lane), Lane(b, lane);
        r := SetLane(r, lane, if isMin then MinBits(x, y) else MaxBits(x, y));
      }
      SameLanes(r, MaxMinQuad(isMin, a, b));
    }

    method MaxMin(isMin: bool, fs: nat, ft: nat, sel: nat) returns (r: Quad)
      requires fs < vf.Length && ft < vf.Length
      ensures r == MaxMinQuad(isMin, Vf(fs), Src(ft, sel))
    {
      hide MaxMinPs, MaxMinQuad;
      MaxMinVectorIsScalar(isMin, Vf(fs), Src(ft, sel));
      r := MaxMinPs(isMin, Vf(fs), Src(ft, sel));
    }

    method AbsScalar(fs: nat) returns (r: Quad)
      requires fs < vf.Length
      ensures r == AbsQuad(Vf(fs))
    {
      hide AbsWord;
      var a := Vf(fs);
      r := ZERO;
      for lane := 0 to 4
        invariant forall j | 0 <= j < lane :: Lane(r, j) == Lane(AbsQuad(a), j)
      {
        r := SetLane(r, lane, AbsWord(Lane(a, lane)));
      }
      SameLanes(r, AbsQuad(a));
    }

    method Abs(fs: nat) returns (r: Quad)
      requires fs < vf.Length
      ensures r == AbsQuad(Vf(fs))
    {
      r := Map(AbsWord, Vf(fs));
    }
  }

  lemma MergeLanes(mask: Bits4, neu: Quad, kept: Quad)
    ensures forall j | 0 <= j < 4 ::
              Lane(Merge(mask, neu, kept), j) == if Selected(mask, j) then Lane(neu, j) else Lane(kept, j)
  {}
}
