/** The programmed CRT video mode and the cycle counts the timeline is built on. */
module VideoMode {

  datatype Mode = Ntsc | Pal

  const FIELD_NTSC: nat := 2460060
  const FIELD_PAL: nat := 2949120
  const LINES_NTSC: nat := 525
  const LINES_PAL: nat := 625
  const ACTIVE_PAL: nat := 576
  const HBLANK_NTSC: nat := FIELD_NTSC * 2 / LINES_NTSC
  const HBLANK_PAL: nat := FIELD_PAL * 2 / LINES_PAL
  const VBLANK_NTSC: nat := 206184
  const VBLANK_PAL: nat := (LINES_PAL - ACTIVE_PAL) / 2 * HBLANK_PAL

  function CyclesPerField(m: Mode): (r: nat)
    ensures r > 0
  {
    if m.Pal? then FIELD_PAL else FIELD_NTSC
  }

  function CyclesVblank(m: Mode): nat {
    if m.Pal? then VBLANK_PAL else VBLANK_NTSC
  }

  function CyclesPerHblank(m: Mode): (r: nat)
    ensures r > 0
  {
    assert HBLANK_NTSC == 9371 && HBLANK_PAL == 9437;
    if m.Pal? then HBLANK_PAL else HBLANK_NTSC
  }

  /** A line is its share of a frame's two fields, rounded down; the two lengths the source pins. */
  lemma LineLengths(m: Mode)
    ensures var lines := if m.Pal? then LINES_PAL else LINES_NTSC;
            CyclesPerHblank(m) * lines <= 2 * CyclesPerField(m) < (CyclesPerHblank(m) + 1) * lines
    ensures CyclesPerHblank(Ntsc) == 9371 && CyclesPerHblank(Pal) == 9437
  {
    assert HBLANK_NTSC == 9371 && HBLANK_PAL == 9437;
  }

  /** The inequalities the timeline proofs rest on: in either mode a line is not empty, and a
      vertical blank of one mode is shorter than a field of the other. */
  lemma PeriodsNest(m: Mode, m': Mode)
    ensures 0 < CyclesPerHblank(m) < CyclesVblank(m) <= VBLANK_PAL < CyclesPerField(m') <= FIELD_PAL
    ensures 2 * FIELD_PAL < 0x1_0000_0000
  {
    assert HBLANK_NTSC == 9371 && HBLANK_PAL == 9437;
    assert VBLANK_PAL == 226488;
  }
}
