/** Pixel formats and where libav puts the planes of an image of each format: rows padded to 32
    bytes, the chroma planes after the luma plane, chroma sizes rounded up. */
module Layouts {
  import opened Planes
  import opened Sums

  datatype Format = Gray8 | Rgb24 | Rgb32 | Yuv420 | Yuv422
  {
    predicate Planar() { Yuv420? || Yuv422? }

    function Bpp(): nat { if Rgb24? then 3 else if Rgb32? then 4 else 1 }

    function PlaneCount(): nat { if Planar() then 3 else 1 }

    function ShiftW(): (s: nat) { if Planar() then 1 else 0 }

    function ShiftH(): (s: nat) { if Yuv420? then 1 else 0 }
  }

  /** (a + (1 << shift) - 1) >> shift, for the shifts that occur. */
  function CeilRshift(a: nat, shift: nat): nat
  {
    if shift == 0 then a else (a + 1) / 2
  }

  function Rshift(a: nat, shift: nat): nat
  {
    if shift == 0 then a else a / 2
  }

  function Align32(n: nat): nat
  {
    (n + 31) / 32 * 32
  }

  function PlaneShiftW(f: Format, p: nat): nat { if p == 0 then 0 else f.ShiftW() }

  function PlaneShiftH(f: Format, p: nat): nat { if p == 0 then 0 else f.ShiftH() }

  function PlaneWidth(f: Format, w: nat, p: nat): nat { CeilRshift(w, PlaneShiftW(f, p)) }

  function PlaneHeight(f: Format, h: nat, p: nat): nat { CeilRshift(h, PlaneShiftH(f, p)) }

  function SampleBytes(f: Format, p: nat): nat { if p == 0 then f.Bpp() else 1 }

  function Stride(f: Format, w: nat, p: nat): nat
  {
    Align32(TimesNat(PlaneWidth(f, w, p), SampleBytes(f, p)))
  }

  function TimesNat(n: nat, k: nat): nat
  {
    TimesMono(0, n, k);
    Times(n, k)
  }

  /** Where plane p begins; for the plane after the last one, the size of the whole buffer. */
  function Offset(f: Format, w: nat, h: nat, p: nat): nat
  {
    if p == 0 then 0 else Offset(f, w, h, p - 1) + TimesNat(PlaneHeight(f, h, p - 1), Stride(f, w, p - 1))
  }

  function BufferSize(f: Format, w: nat, h: nat): nat
  {
    Offset(f, w, h, f.PlaneCount())
  }

  function Layout(f: Format, w: nat, h: nat, p: nat): Grid
  {
    Grid(Offset(f, w, h, p), Stride(f, w, p), PlaneWidth(f, w, p), PlaneHeight(f, h, p), SampleBytes(f, p))
  }

  lemma AlignUp(n: nat)
    ensures n <= Align32(n) < n + 32 && Align32(n) % 32 == 0
  {
  }

  lemma {:induction false} OffsetMono(f: Format, w: nat, h: nat, p: nat, q: nat)
    requires p <= q
    ensures Offset(f, w, h, p) <= Offset(f, w, h, q)
    decreases q - p
  {
    if p < q { OffsetMono(f, w, h, p, q - 1); }
  }

  /** Every plane fits before the next one begins, so all of them fit in the buffer. */
  lemma PlaneFits(f: Format, w: nat, h: nat, p: nat)
    requires p < f.PlaneCount()
    ensures Layout(f, w, h, p).Fits(BufferSize(f, w, h))
    ensures Layout(f, w, h, p).End() <= Offset(f, w, h, p + 1)
  {
    var g := Layout(f, w, h, p);
    AlignUp(TimesNat(g.w, g.bpp));
    OffsetMono(f, w, h, p + 1, f.PlaneCount());
    if 0 < g.h { TimesMono(g.h - 1, g.h, g.stride); }
  }

  /** Chroma planes of a turned 4:2:0 image have exactly the turned chroma sizes, odd sizes too. */
  lemma TurnedChromaSizes(f: Format, w: nat, h: nat, p: nat)
    requires !f.Yuv422?
    ensures PlaneWidth(f, h, p) == PlaneHeight(f, h, p) && PlaneHeight(f, w, p) == PlaneWidth(f, w, p)
  {
  }
}
