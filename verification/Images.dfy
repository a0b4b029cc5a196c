/** The image object: masking, filling, rotating, flipping and cropping over its strided planes. */
module Images {
  import opened Planes
  import opened Sums
  import opened Pictures
  import opened PlaneTransforms
  import opened Layouts
  import opened Wrappers
  import PolygonEdges
  import PolygonFill
  import RowDeltas

  // ---------------------------------------------------------------- privacy mask

  /** Whether the bitmask covers luma pixel (x, y). */
  predicate MaskSet(mask: seq<uint8>, w: nat, x: int, y: int)
  {
    0 <= y && 0 <= x < w && Times(y, w) + x < |mask| && (TimesMono(0, y, w); mask[Times(y, w) + x] != 0)
  }

  ghost function LumaMask(mask: seq<uint8>, w: nat): (int, int) -> bool
  {
    (x, y) => MaskSet(mask, w, x, y)
  }

  /** The chroma sample that luma pixel (x, y) is drawn with. */
  function ChromaOf(f: Format, x: int, y: int): (int, int)
    requires 0 <= x && 0 <= y
  {
    (Rshift(x, f.ShiftW()), Rshift(y, f.ShiftH()))
  }

  /** Whether some masked luma pixel of the image is drawn with chroma sample (cx, cy). */
  ghost predicate ChromaMasked(f: Format, mask: seq<uint8>, w: nat, h: nat, cx: int, cy: int)
  {
    exists x, y :: 0 <= x < w && 0 <= y < h && ChromaOf(f, x, y) == (cx, cy) && MaskSet(mask, w, x, y)
  }

  ghost function ChromaMask(f: Format, mask: seq<uint8>, w: nat, h: nat): (int, int) -> bool
  {
    (cx, cy) => ChromaMasked(f, mask, w, h, cx, cy)
  }

  const NEUTRAL: seq<uint8> := [128]

  /** What masking does to a buffer: masked luma takes the colour, chroma of any masked pixel
      turns neutral, every other visible sample keeps its value. */
  ghost predicate Masked(f: Format, w: nat, h: nat, luma: Grid, mask: seq<uint8>, colour: seq<uint8>,
                         before: seq<uint8>, after: seq<uint8>)
    requires |colour| == luma.bpp && luma.Fits(|before|)
    requires f.Planar() ==> Layout(f, w, h, 1).Fits(|before|) && Layout(f, w, h, 2).Fits(|before|)
  {
    && |after| == |before|
    && PaintedIn(before, after, luma, colour, LumaMask(mask, w))
    && (f.Planar() ==>
          && PaintedIn(before, after, Layout(f, w, h, 1), NEUTRAL, ChromaMask(f, mask, w, h))
          && PaintedIn(before, after, Layout(f, w, h, 2), NEUTRAL, ChromaMask(f, mask, w, h)))
  }

  /** Two planes agree on the samples a mask leaves alone. */
  ghost predicate AgreeOff(s: seq<uint8>, t: seq<uint8>, g: Grid, p: (int, int) -> bool)
    requires g.Fits(|s|) && g.Fits(|t|)
  {
    forall x, y, b :: g.In(x, y, b) && !p(x, y) ==> Sample(s, g, x, y, b) == Sample(t, g, x, y, b)
  }

  /** Masking is non-interfering: of two images that differ only under the mask, nothing visible
      tells them apart afterwards. */
  lemma MaskHidesEverything(f: Format, w: nat, h: nat, luma: Grid, mask: seq<uint8>, colour: seq<uint8>,
                            s: seq<uint8>, s': seq<uint8>, t: seq<uint8>, t': seq<uint8>)
    requires |colour| == luma.bpp && |s| == |t| && luma.Fits(|s|)
    requires f.Planar() ==> Layout(f, w, h, 1).Fits(|s|) && Layout(f, w, h, 2).Fits(|s|)
    requires Masked(f, w, h, luma, mask, colour, s, s') && Masked(f, w, h, luma, mask, colour, t, t')
    requires AgreeOff(s, t, luma, LumaMask(mask, w))
    requires f.Planar() ==>
      && AgreeOff(s, t, Layout(f, w, h, 1), ChromaMask(f, mask, w, h))
      && AgreeOff(s, t, Layout(f, w, h, 2), ChromaMask(f, mask, w, h))
    ensures RasterOf(s', luma) == RasterOf(t', luma)
    ensures f.Planar() ==>
      && RasterOf(s', Layout(f, w, h, 1)) == RasterOf(t', Layout(f, w, h, 1))
      && RasterOf(s', Layout(f, w, h, 2)) == RasterOf(t', Layout(f, w, h, 2))
  {
    PaintedAlike(luma, colour, LumaMask(mask, w), s, s', t, t');
    if f.Planar() {
      PaintedAlike(Layout(f, w, h, 1), NEUTRAL, ChromaMask(f, mask, w, h), s, s', t, t');
      PaintedAlike(Layout(f, w, h, 2), NEUTRAL, ChromaMask(f, mask, w, h), s, s', t, t');
    }
  }

  lemma MaskSetIsHidden(mask: seq<uint8>, w: nat, x: nat, y: nat)
    requires x < w
    ensures MaskSet(mask, w, x, y) <==> Hidden(mask, w, x, y)
  {
    TimesIsProduct(y, w);
  }

  lemma PaintedPixel(before: seq<uint8>, after: seq<uint8>, g: Grid, colour: seq<uint8>, p: (int, int) -> bool, x: nat, y: nat)
    requires |colour| == g.bpp && |before| == |after| && g.Fits(|before|) && x < g.w && y < g.h
    requires PaintedIn(before, after, g, colour, p)
    ensures RasterOf(after, g).rows[y][x] == if p(x, y) then colour else RasterOf(before, g).rows[y][x]
  {
    forall b | 0 <= b < g.bpp
      ensures PixelOf(after, g, x, y)[b] == if p(x, y) then colour[b] else PixelOf(before, g, x, y)[b]
    {
      assert g.In(x, y, b);
    }
    if p(x, y) {
      assert PixelOf(after, g, x, y) == colour;
    } else {
      assert PixelOf(after, g, x, y) == PixelOf(before, g, x, y);
    }
  }

  /** A masked buffer shows the masked picture: the bytes of the bitmask decide for the luma plane
      pixel by pixel, and for a chroma plane through the pixels drawn with a sample. */
  lemma MaskedLumaShows(before: seq<uint8>, after: seq<uint8>, g: Grid, mask: seq<uint8>, colour: seq<uint8>)
    requires |colour| == g.bpp && |before| == |after| && g.Fits(|before|)
    requires PaintedIn(before, after, g, colour, LumaMask(mask, g.w))
    ensures LumaHidden(RasterOf(before, g), RasterOf(after, g), mask, colour)
  {
    forall x: nat, y: nat | x < g.w && y < g.h
      ensures RasterOf(after, g).rows[y][x] == if Hidden(mask, g.w, x, y) then colour else RasterOf(before, g).rows[y][x]
    {
      PaintedPixel(before, after, g, colour, LumaMask(mask, g.w), x, y);
      MaskSetIsHidden(mask, g.w, x, y);
    }
  }

  lemma ChromaMaskedIsDrawn(f: Format, p: nat, mask: seq<uint8>, w: nat, h: nat, c: nat, l: nat)
    requires f.Planar() && 0 < p
    ensures ChromaMasked(f, mask, w, h, c, l) <==> DrawsHidden(f, p, mask, w, h, c, l)
  {
    forall x: nat, y: nat | x < w ensures MaskSet(mask, w, x, y) <==> Hidden(mask, w, x, y) {
      MaskSetIsHidden(mask, w, x, y);
    }
    if ChromaMasked(f, mask, w, h, c, l) {
      var x, y :| 0 <= x < w && 0 <= y < h && ChromaOf(f, x, y) == (c, l) && MaskSet(mask, w, x, y);
      assert Column(f, p, x) == c && Line(f, p, y) == l && Hidden(mask, w, x, y);
    }
    if DrawsHidden(f, p, mask, w, h, c, l) {
      var x: nat, y: nat :| x < w && y < h && Hidden(mask, w, x, y) && Column(f, p, x) == c && Line(f, p, y) == l;
      assert ChromaOf(f, x, y) == (c, l) && MaskSet(mask, w, x, y);
    }
  }

  lemma MaskedChromaShows(f: Format, p: nat, before: seq<uint8>, after: seq<uint8>, g: Grid, mask: seq<uint8>, w: nat, h: nat)
    requires f.Planar() && 0 < p && g.bpp == 1 && |before| == |after| && g.Fits(|before|)
    requires PaintedIn(before, after, g, NEUTRAL, ChromaMask(f, mask, w, h))
    ensures ChromaHidden(f, p, RasterOf(before, g), RasterOf(after, g), mask, w, h)
  {
    forall c: nat, l: nat | c < g.w && l < g.h
      ensures RasterOf(after, g).rows[l][c]
           == if DrawsHidden(f, p, mask, w, h, c, l) then [128] else RasterOf(before, g).rows[l][c]
    {
      PaintedPixel(before, after, g, NEUTRAL, ChromaMask(f, mask, w, h), c, l);
      ChromaMaskedIsDrawn(f, p, mask, w, h, c, l);
    }
  }

  lemma PaintedAlike(g: Grid, colour: seq<uint8>, p: (int, int) -> bool,
                     s: seq<uint8>, s': seq<uint8>, t: seq<uint8>, t': seq<uint8>)
    requires |colour| == g.bpp && |s| == |s'| == |t| == |t'| && g.Fits(|s|)
    requires PaintedIn(s, s', g, colour, p) && PaintedIn(t, t', g, colour, p) && AgreeOff(s, t, g, p)
    ensures RasterOf(s', g) == RasterOf(t', g)
  {
    RasterBytes(s', g, t', g, RasterOf(t', g), (x, y) => (x, y));
  }

  /** The four-way test of the masking loop, with its bounds checks, finds exactly the chroma
      samples that cover a masked pixel. */
  lemma MaskHitIsChromaMasked(f: Format, mask: seq<uint8>, w: nat, h: nat, cx: nat, cy: nat)
    requires f.Planar() && cx < PlaneWidth(f, w, 1) && cy < PlaneHeight(f, h, 1)
    ensures 2 * cx < w && (if f.Yuv420? then 2 * cy else cy) < h
    ensures MaskHit(f, mask, w, h, cx, cy) <==> ChromaMasked(f, mask, w, h, cx, cy)
  {
    var top := if f.Yuv420? then 2 * cy else cy;
    if MaskHit(f, mask, w, h, cx, cy) {
      var x := if MaskSet(mask, w, 2 * cx, top) || (f.Yuv420? && MaskSet(mask, w, 2 * cx, top + 1) && top + 1 < h)
        then 2 * cx else 2 * cx + 1;
      var y := if MaskSet(mask, w, x, top) then top else top + 1;
      assert ChromaOf(f, x, y) == (cx, cy) && MaskSet(mask, w, x, y);
    }
  }

  predicate MaskHit(f: Format, mask: seq<uint8>, w: nat, h: nat, cx: nat, cy: nat)
  {
    var top := if f.Yuv420? then 2 * cy else cy;
    var hit := MaskSet(mask, w, 2 * cx, top) || (2 * cx + 1 < w && MaskSet(mask, w, 2 * cx + 1, top));
    if f.Yuv420? && !hit && top + 1 < h then
      MaskSet(mask, w, 2 * cx, top + 1) || (2 * cx + 1 < w && MaskSet(mask, w, 2 * cx + 1, top + 1))
    else hit
  }

  /** Masks one sample of both chroma planes. */
  method NeutraliseBoth(buffer: array<uint8>, u: Grid, v: Grid, cx: int, cy: int)
    requires u.Fits(buffer.Length) && v.Fits(buffer.Length) && u.End() <= v.off && u.bpp == v.bpp == 1
    requires u.w == v.w && u.h == v.h && 0 <= cx < u.w && 0 <= cy < u.h
    modifies buffer
    ensures PaintedIn(old(buffer[..]), buffer[..], u, NEUTRAL, (px, py) => px == cx && py == cy)
    ensures PaintedIn(old(buffer[..]), buffer[..], v, NEUTRAL, (px, py) => px == cx && py == cy)
    ensures forall i :: 0 <= i < buffer.Length && !u.Covers(i) && !v.Covers(i) ==> buffer[i] == old(buffer[i])
  {
    PlanesApart(u, v, buffer.Length);
    GridFacts(u, buffer.Length);
    GridFacts(v, buffer.Length);
    PaintPixel(buffer, u, cx, cy, NEUTRAL);
    PaintPixel(buffer, v, cx, cy, NEUTRAL);
  }

  /** A row-order position, as a condition on the samples passed so far. */
  ghost function UpTo(p: (int, int) -> bool, x: int, y: int): (int, int) -> bool
  {
    (px, py) => (py < y || (py == y && px < x)) && p(px, py)
  }

  lemma PaintedInThen(s0: seq<uint8>, s1: seq<uint8>, s2: seq<uint8>, g: Grid, colour: seq<uint8>,
                      p: (int, int) -> bool, q: (int, int) -> bool, r: (int, int) -> bool)
    requires |colour| == g.bpp && |s0| == |s1| == |s2| && g.Fits(|s0|)
    requires PaintedIn(s0, s1, g, colour, p) && PaintedIn(s1, s2, g, colour, q)
    requires forall x, y :: 0 <= x < g.w && 0 <= y < g.h ==> (r(x, y) <==> p(x, y) || q(x, y))
    ensures PaintedIn(s0, s2, g, colour, r)
  {
  }

  lemma UntouchedSamples(before: seq<uint8>, after: seq<uint8>, g: Grid, u: Grid, v: Grid)
    requires |before| == |after| && g.Fits(|before|) && 0 < g.bpp
    requires forall x, y, b :: g.In(x, y, b) ==> !u.Covers(g.At(x, y, b)) && !v.Covers(g.At(x, y, b))
    requires forall i :: 0 <= i < |before| && !u.Covers(i) && !v.Covers(i) ==> after[i] == before[i]
    ensures forall x, y, b :: g.In(x, y, b) ==> Sample(after, g, x, y, b) == Sample(before, g, x, y, b)
  {
    GridFacts(g, |before|);
  }

  /** Both chroma planes are neutral exactly where p holds; nothing else has changed. */
  ghost predicate ChromaDone(start: seq<uint8>, now: seq<uint8>, u: Grid, v: Grid, p: (int, int) -> bool)
    requires u.bpp == v.bpp == 1 && u.Fits(|start|) && v.Fits(|start|)
  {
    && |now| == |start|
    && PaintedIn(start, now, u, NEUTRAL, p) && PaintedIn(start, now, v, NEUTRAL, p)
    && forall i :: 0 <= i < |start| && !u.Covers(i) && !v.Covers(i) ==> now[i] == start[i]
  }

  lemma ChromaDoneSame(start: seq<uint8>, now: seq<uint8>, u: Grid, v: Grid, p: (int, int) -> bool, q: (int, int) -> bool)
    requires u.bpp == v.bpp == 1 && u.Fits(|start|) && v.Fits(|start|) && u.w == v.w && u.h == v.h
    requires ChromaDone(start, now, u, v, p)
    requires forall x, y :: 0 <= x < u.w && 0 <= y < u.h ==> (p(x, y) <==> q(x, y))
    ensures ChromaDone(start, now, u, v, q)
  {
  }

  /** One chroma sample: neutral if any luma pixel it covers is masked. */
  method MaskChromaSample(buffer: array<uint8>, u: Grid, v: Grid, f: Format, w: nat, h: nat, mask: array<uint8>,
                          ghost start: seq<uint8>, cx: nat, cy: nat)
    requires f.Planar() && buffer != mask && |start| == buffer.Length
    requires u.Fits(buffer.Length) && v.Fits(buffer.Length) && u.End() <= v.off && u.bpp == v.bpp == 1
    requires u.w == v.w == PlaneWidth(f, w, 1) && u.h == v.h == PlaneHeight(f, h, 1) && cx < u.w && cy < u.h
    requires ChromaDone(start, buffer[..], u, v, UpTo(ChromaMask(f, mask[..], w, h), cx, cy))
    modifies buffer
    ensures ChromaDone(start, buffer[..], u, v, UpTo(ChromaMask(f, mask[..], w, h), cx + 1, cy))
  {
    ghost var p := ChromaMask(f, mask[..], w, h);
    MaskHitIsChromaMasked(f, mask[..], w, h, cx, cy);
    if MaskHit(f, mask[..], w, h, cx, cy) {
      ghost var before := buffer[..];
      NeutraliseBoth(buffer, u, v, cx, cy);
      PaintedInThen(start, before, buffer[..], u, NEUTRAL, UpTo(p, cx, cy), (px, py) => px == cx && py == cy, UpTo(p, cx + 1, cy));
      PaintedInThen(start, before, buffer[..], v, NEUTRAL, UpTo(p, cx, cy), (px, py) => px == cx && py == cy, UpTo(p, cx + 1, cy));
    } else {
      ChromaDoneSame(start, buffer[..], u, v, UpTo(p, cx, cy), UpTo(p, cx + 1, cy));
    }
  }

  /** The chroma part of the masking loop. */
  method MaskChroma(buffer: array<uint8>, u: Grid, v: Grid, f: Format, w: nat, h: nat, mask: array<uint8>)
    requires f.Planar() && buffer != mask
    requires u.Fits(buffer.Length) && v.Fits(buffer.Length) && u.End() <= v.off && u.bpp == v.bpp == 1
    requires u.w == v.w == PlaneWidth(f, w, 1) && u.h == v.h == PlaneHeight(f, h, 1)
    modifies buffer
    ensures ChromaDone(old(buffer[..]), buffer[..], u, v, ChromaMask(f, mask[..], w, h))
  {
    ghost var p := ChromaMask(f, mask[..], w, h);
    ghost var start := buffer[..];
    for cy := 0 to u.h
      invariant ChromaDone(start, buffer[..], u, v, UpTo(p, 0, cy))
    {
      for cx := 0 to u.w
        invariant ChromaDone(start, buffer[..], u, v, UpTo(p, cx, cy))
      {
        MaskChromaSample(buffer, u, v, f, w, h, mask, start, cx, cy);
      }
      ChromaDoneSame(start, buffer[..], u, v, UpTo(p, u.w, cy), UpTo(p, 0, cy + 1));
    }
    ChromaDoneSame(start, buffer[..], u, v, UpTo(p, 0, u.h), p);
  }

  /** The luma part: a running index into the bitmask, row addresses re-based on every line. */
  method MaskLuma(buffer: array<uint8>, g: Grid, mask: array<uint8>, colour: seq<uint8>)
    requires buffer != mask && g.Fits(buffer.Length) && |colour| == g.bpp
    requires mask.Length == Times(g.h, g.w)
    modifies buffer
    ensures Painted(old(buffer[..]), buffer[..], g, colour, LumaMask(mask[..], g.w))
  {
    ghost var p := LumaMask(mask[..], g.w);
    ghost var start := buffer[..];
    var i := 0;
    PaintedNothing(start, g, colour, UpTo(p, 0, 0));
    for y := 0 to g.h
      invariant i == Times(y, g.w)
      invariant Painted(start, buffer[..], g, colour, UpTo(p, 0, y))
    {
      TimesMono(y + 1, g.h, g.w);
      TimesMono(0, y, g.w);
      for x := 0 to g.w
        invariant i == Times(y, g.w) + x
        invariant Painted(start, buffer[..], g, colour, UpTo(p, x, y))
      {
        assert MaskSet(mask[..], g.w, x, y) <==> mask[i] != 0;
        if mask[i] != 0 {
          ghost var before := buffer[..];
          PaintPixel(buffer, g, x, y, colour);
          PaintedThen(start, before, buffer[..], g, colour, UpTo(p, x, y), (px, py) => px == x && py == y, UpTo(p, x + 1, y));
        } else {
          PaintedSame(start, buffer[..], g, colour, UpTo(p, x, y), UpTo(p, x + 1, y));
        }
        i := i + 1;
      }
      PaintedSame(start, buffer[..], g, colour, UpTo(p, g.w, y), UpTo(p, 0, y + 1));
    }
    PaintedSame(start, buffer[..], g, colour, UpTo(p, 0, g.h), p);
  }

  // ---------------------------------------------------------------- the image object

  /** Planes other than the one being written keep their samples. */
  lemma RasterKept(before: seq<uint8>, after: seq<uint8>, written: Grid, g: Grid)
    requires SameOutside(before, after, written) && g.Fits(|before|)
    requires g.End() <= written.off
    ensures RasterOf(after, g) == RasterOf(before, g)
  {
    GridFacts(g, |before|);
    RasterBytes(after, g, before, g, RasterOf(before, g), (x, y) => (x, y));
  }

  lemma EarlierPlanesKept(f: Format, w: nat, h: nat, p: nat, before: seq<uint8>, after: seq<uint8>)
    requires p < f.PlaneCount() && |before| == BufferSize(f, w, h)
    requires SameOutside(before, after, Layout(f, w, h, p))
    ensures forall q :: 0 <= q < p ==>
      && Layout(f, w, h, q).Fits(|before|)
      && RasterOf(after, Layout(f, w, h, q)) == RasterOf(before, Layout(f, w, h, q))
  {
    forall q | 0 <= q < p
      ensures Layout(f, w, h, q).Fits(|before|)
      ensures RasterOf(after, Layout(f, w, h, q)) == RasterOf(before, Layout(f, w, h, q))
    {
      PlaneFits(f, w, h, q);
      OffsetMono(f, w, h, q + 1, p);
      RasterKept(before, after, Layout(f, w, h, p), Layout(f, w, h, q));
    }
  }

  /** The window of a crop is moved back to the chroma grid. */
  function Snap(a: nat, shift: nat): (s: nat)
    ensures s <= a
  {
    if shift == 0 then a else a - a % 2
  }

  /** The snapped window stays inside every plane, odd sizes included. */
  lemma WindowInPlane(lo: nat, size: nat, total: nat, shift: nat)
    requires lo + size <= total
    ensures Snap(lo, shift) + size <= total
    ensures Rshift(Snap(lo, shift), shift) + CeilRshift(size, shift) <= CeilRshift(total, shift)
  {
  }

  /** After a crop each pixel is still drawn with the chroma sample it was drawn with before. */
  lemma ChromaFollowsPixel(lo: nat, x: nat, shift: nat)
    ensures Rshift(Snap(lo, shift) + x, shift) == Rshift(Snap(lo, shift), shift) + Rshift(x, shift)
  {
  }

  lemma SnapsAdd(lo: nat, lo': nat, shift: nat)
    ensures Snap(Snap(lo, shift) + Snap(lo', shift), shift) == Snap(lo, shift) + Snap(lo', shift)
    ensures Rshift(Snap(lo, shift) + Snap(lo', shift), shift) == Rshift(Snap(lo, shift), shift) + Rshift(Snap(lo', shift), shift)
  {
  }

  lemma CropWindowFits(f: Format, p: nat, x: nat, y: nat, w: nat, h: nat, width: nat, height: nat)
    requires x + w <= width && y + h <= height
    ensures Rshift(Snap(x, f.ShiftW()), PlaneShiftW(f, p)) + PlaneWidth(f, w, p) <= PlaneWidth(f, width, p)
    ensures Rshift(Snap(y, f.ShiftH()), PlaneShiftH(f, p)) + PlaneHeight(f, h, p) <= PlaneHeight(f, height, p)
  {
    WindowInPlane(x, w, width, f.ShiftW());
    WindowInPlane(y, h, height, f.ShiftH());
  }

  /** What plane p of a width x height image looks like after a crop to a w x h window asked for
      at (x, y). */
  ghost function CroppedPlane(f: Format, r: Raster, p: nat, width: nat, height: nat,
                              x: nat, y: nat, w: nat, h: nat): (q: Raster)
    requires r.Valid() && r.w == PlaneWidth(f, width, p) && r.h == PlaneHeight(f, height, p)
    requires x + w <= width && y + h <= height
    ensures q.Valid() && q.w == PlaneWidth(f, w, p) && q.h == PlaneHeight(f, h, p)
  {
    CropWindowFits(f, p, x, y, w, h, width, height);
    Cropped(r, Rshift(Snap(x, f.ShiftW()), PlaneShiftW(f, p)), Rshift(Snap(y, f.ShiftH()), PlaneShiftH(f, p)),
            PlaneWidth(f, w, p), PlaneHeight(f, h, p))
  }

  /** The origin moved back is the last one on the chroma grid. */
  lemma SnapIsGreatest(a: nat)
    ensures Snap(a, 0) == a
    ensures Snap(a, 1) % 2 == 0 && Snap(a, 1) <= a < Snap(a, 1) + 2
  {
  }

  /** The last origin at or before this one that a crop can use. */
  function SnappedLeft(f: Format, x: nat): nat { x - if f.Yuv420? || f.Yuv422? then x % 2 else 0 }

  function SnappedTop(f: Format, y: nat): nat { y - if f.Yuv420? then y % 2 else 0 }

  lemma PixelCropped(f: Format, p: nat, x: nat, y: nat, i: nat, j: nat)
    requires p < f.PlaneCount()
    ensures Column(f, p, SnappedLeft(f, x) + i) == Rshift(Snap(x, f.ShiftW()), PlaneShiftW(f, p)) + Column(f, p, i)
    ensures Line(f, p, SnappedTop(f, y) + j) == Rshift(Snap(y, f.ShiftH()), PlaneShiftH(f, p)) + Line(f, p, j)
  {
    ChromaFollowsPixel(x, i, f.ShiftW());
    ChromaFollowsPixel(y, j, f.ShiftH());
  }

  /** After a crop every pixel is drawn with the samples it was drawn with before, from an origin on
      the chroma grid. */
  lemma CropShowsWindow(f: Format, r: Raster, p: nat, width: nat, height: nat, x: nat, y: nat, w: nat, h: nat)
    requires r.Valid() && r.w == PlaneWidth(f, width, p) && r.h == PlaneHeight(f, height, p)
    requires x + w <= width && y + h <= height && p < f.PlaneCount()
    ensures
      ShowsWindow(f, p, r, CroppedPlane(f, r, p, width, height, x, y, w, h), SnappedLeft(f, x), SnappedTop(f, y), w, h)
  {
    var left, top, q := SnappedLeft(f, x), SnappedTop(f, y), CroppedPlane(f, r, p, width, height, x, y, w, h);
    forall i: nat, j: nat | i < w && j < h ensures DrawnAlike(f, p, r, q, left, top, i, j) {
      PixelInPlane(f, w, h, p, i, j);
      PixelInPlane(f, width, height, p, left + i, top + j);
      PixelCropped(f, p, x, y, i, j);
    }
  }

  lemma WholeShowsWindow(f: Format, p: nat, r: Raster, w: nat, h: nat)
    requires r.Valid() && r.w == PlaneWidth(f, w, p) && r.h == PlaneHeight(f, h, p)
    ensures ShowsWindow(f, p, r, r, 0, 0, w, h)
  {
    forall x: nat, y: nat | x < w && y < h ensures DrawnAlike(f, p, r, r, 0, 0, x, y) {
      PixelInPlane(f, w, h, p, x, y);
    }
  }

  /** Cropping twice is cropping once at the sum of the snapped origins, on every plane. */
  lemma TwoCropsAreOne(f: Format, r: Raster, p: nat, width: nat, height: nat,
                       x: nat, y: nat, w: nat, h: nat, x': nat, y': nat, w': nat, h': nat)
    requires r.Valid() && r.w == PlaneWidth(f, width, p) && r.h == PlaneHeight(f, height, p)
    requires x + w <= width && y + h <= height && x' + w' <= w && y' + h' <= h
    ensures CroppedPlane(f, CroppedPlane(f, r, p, width, height, x, y, w, h), p, w, h, x', y', w', h')
         == CroppedPlane(f, r, p, width, height, Snap(x, f.ShiftW()) + Snap(x', f.ShiftW()),
                         Snap(y, f.ShiftH()) + Snap(y', f.ShiftH()), w', h')
  {
    CropWindowFits(f, p, x, y, w, h, width, height);
    CropWindowFits(f, p, x', y', w', h', w, h);
    SnapsAdd(x, x', f.ShiftW());
    SnapsAdd(y, y', f.ShiftH());
    CropTwice(r, Rshift(Snap(x, f.ShiftW()), PlaneShiftW(f, p)), Rshift(Snap(y, f.ShiftH()), PlaneShiftH(f, p)),
              PlaneWidth(f, w, p), PlaneHeight(f, h, p),
              Rshift(Snap(x', f.ShiftW()), PlaneShiftW(f, p)), Rshift(Snap(y', f.ShiftH()), PlaneShiftH(f, p)),
              PlaneWidth(f, w', p), PlaneHeight(f, h', p));
  }

  // -------------------------------------------------- whole images, plane by plane

  /** Plane p of an image: plane 0 is read at the image's own stride, which a borrowed
      single-plane buffer may choose. */
  function SourceGrid(f: Format, w: nat, h: nat, linesize: nat, p: nat): Grid
  {
    if p == 0 then Grid(0, linesize, w, h, f.Bpp()) else Layout(f, w, h, p)
  }

  /** A buffer that holds an image of this format and size; a planar one is in libav's layout. */
  ghost predicate Holds(f: Format, w: nat, h: nat, linesize: nat, len: nat)
  {
    && 0 < w && 0 < h
    && SourceGrid(f, w, h, linesize, 0).Fits(len)
    && (f.Planar() ==> linesize == Stride(f, w, 0) && BufferSize(f, w, h) <= len)
  }

  lemma HeldPlaneFits(f: Format, w: nat, h: nat, linesize: nat, len: nat, p: nat)
    requires Holds(f, w, h, linesize, len) && p < f.PlaneCount()
    ensures SourceGrid(f, w, h, linesize, p).Fits(len)
    ensures SourceGrid(f, w, h, linesize, p).w == PlaneWidth(f, w, p)
    ensures SourceGrid(f, w, h, linesize, p).h == PlaneHeight(f, h, p)
    ensures SourceGrid(f, w, h, linesize, p).bpp == SampleBytes(f, p)
  {
    PlaneFits(f, w, h, p);
  }

  ghost function PlaneRaster(f: Format, w: nat, h: nat, linesize: nat, s: seq<uint8>, p: nat): (r: Raster)
    requires Holds(f, w, h, linesize, |s|) && p < f.PlaneCount()
    ensures r.Valid() && r.w == PlaneWidth(f, w, p) && r.h == PlaneHeight(f, h, p)
  {
    HeldPlaneFits(f, w, h, linesize, |s|, p);
    RasterOf(s, SourceGrid(f, w, h, linesize, p))
  }

  lemma FreshHolds(f: Format, w: nat, h: nat)
    requires 0 < w && 0 < h
    ensures Holds(f, w, h, Stride(f, w, 0), BufferSize(f, w, h))
    ensures forall p :: 0 <= p < f.PlaneCount() ==> SourceGrid(f, w, h, Stride(f, w, 0), p) == Layout(f, w, h, p)
  {
    PlaneFits(f, w, h, 0);
  }

  lemma RoomyHolds(f: Format, w: nat, h: nat, len: nat)
    requires Holds(f, w, h, Stride(f, w, 0), BufferSize(f, w, h)) && BufferSize(f, w, h) <= len
    ensures Holds(f, w, h, Stride(f, w, 0), len)
  {
  }

  /** What an image operation does to each plane. */
  datatype Op = Turn(t: Angle) | Mirror(leftright: bool) | Window(x: nat, y: nat)

  ghost predicate OpFits(op: Op, f: Format, w: nat, h: nat, w': nat, h': nat)
  {
    match op
    case Turn(t) => w' == TurnedWidth(t, w, h) && h' == TurnedHeight(t, w, h) && (f.Yuv422? ==> t == Deg180)
    case Mirror(_) => w' == w && h' == h
    case Window(x, y) => x + w' <= w && y + h' <= h
  }

  ghost function OpResult(op: Op, f: Format, r: Raster, p: nat, w: nat, h: nat, w': nat, h': nat): (q: Raster)
    requires r.Valid() && r.w == PlaneWidth(f, w, p) && r.h == PlaneHeight(f, h, p)
    requires OpFits(op, f, w, h, w', h')
  {
    match op
    case Turn(t) => Rotated(r, t)
    case Mirror(leftright) => Flipped(r, leftright)
    case Window(x, y) => CroppedPlane(f, r, p, w, h, x, y, w', h')
  }

  method TransformPlane(op: Op, f: Format, w: nat, h: nat, linesize: nat, buffer: array<uint8>,
                        w': nat, h': nat, result: array<uint8>, p: nat)
    requires Holds(f, w, h, linesize, buffer.Length) && p < f.PlaneCount() && result != buffer
    requires OpFits(op, f, w, h, w', h') && 0 < w' && 0 < h' && result.Length == BufferSize(f, w', h')
    modifies result
    ensures SameOutside(old(result[..]), result[..], Layout(f, w', h', p))
    ensures Layout(f, w', h', p).Fits(result.Length)
    ensures RasterOf(result[..], Layout(f, w', h', p))
      == OpResult(op, f, PlaneRaster(f, w, h, linesize, buffer[..], p), p, w, h, w', h')
  {
    HeldPlaneFits(f, w, h, linesize, buffer.Length, p);
    PlaneFits(f, w', h', p);
    match op
    case Turn(t) =>
      RotatePlane(buffer, SourceGrid(f, w, h, linesize, p), result, Layout(f, w', h', p), t);
    case Mirror(leftright) =>
      FlipPlane(buffer, SourceGrid(f, w, h, linesize, p), result, Layout(f, w', h', p), leftright);
    case Window(x, y) =>
      CropWindowFits(f, p, x, y, w', h', w, h);
      CopyPlane(buffer, SourceGrid(f, w, h, linesize, p),
                Rshift(Snap(x, f.ShiftW()), PlaneShiftW(f, p)), Rshift(Snap(y, f.ShiftH()), PlaneShiftH(f, p)),
                result, Layout(f, w', h', p));
  }

  /** The first n planes of the result are in place. */
  ghost predicate PlanesDone(op: Op, f: Format, w: nat, h: nat, linesize: nat, source: seq<uint8>,
                             w': nat, h': nat, result: seq<uint8>, n: nat)
    requires Holds(f, w, h, linesize, |source|) && Holds(f, w', h', Stride(f, w', 0), |result|)
    requires OpFits(op, f, w, h, w', h') && n <= f.PlaneCount()
  {
    forall p :: 0 <= p < n ==>
      PlaneRaster(f, w', h', Stride(f, w', 0), result, p)
      == OpResult(op, f, PlaneRaster(f, w, h, linesize, source, p), p, w, h, w', h')
  }

  lemma PlaneAdded(op: Op, f: Format, w: nat, h: nat, linesize: nat, source: seq<uint8>,
                   w': nat, h': nat, before: seq<uint8>, after: seq<uint8>, p: nat)
    requires Holds(f, w, h, linesize, |source|) && Holds(f, w', h', Stride(f, w', 0), |before|)
    requires OpFits(op, f, w, h, w', h') && p < f.PlaneCount() && |before| == |after| == BufferSize(f, w', h')
    requires PlanesDone(op, f, w, h, linesize, source, w', h', before, p)
    requires SameOutside(before, after, Layout(f, w', h', p)) && Layout(f, w', h', p).Fits(|after|)
    requires RasterOf(after, Layout(f, w', h', p))
          == OpResult(op, f, PlaneRaster(f, w, h, linesize, source, p), p, w, h, w', h')
    ensures PlanesDone(op, f, w, h, linesize, source, w', h', after, p + 1)
  {
    FreshHolds(f, w', h');
    EarlierPlanesKept(f, w', h', p, before, after);
  }

  /** Every plane in turn, into one new buffer in libav's layout. */
  method TransformPlanes(op: Op, f: Format, w: nat, h: nat, linesize: nat, buffer: array<uint8>, w': nat, h': nat)
    returns (result: array<uint8>)
    requires Holds(f, w, h, linesize, buffer.Length)
    requires OpFits(op, f, w, h, w', h') && 0 < w' && 0 < h'
    ensures fresh(result) && result.Length == BufferSize(f, w', h')
    ensures Holds(f, w', h', Stride(f, w', 0), result.Length)
    ensures PlanesDone(op, f, w, h, linesize, buffer[..], w', h', result[..], f.PlaneCount())
  {
    result := new uint8[BufferSize(f, w', h')];
    FreshHolds(f, w', h');
    for p := 0 to f.PlaneCount()
      invariant PlanesDone(op, f, w, h, linesize, buffer[..], w', h', result[..], p)
    {
      ghost var before := result[..];
      TransformPlane(op, f, w, h, linesize, buffer, w', h', result, p);
      PlaneAdded(op, f, w, h, linesize, buffer[..], w', h', before, result[..], p);
    }
  }

  lemma NotCoveredSame(before: seq<uint8>, after: seq<uint8>, g: Grid, q: Grid)
    requires |before| == |after| && q.Fits(|before|) && 0 < q.bpp
    requires forall x, y, b :: q.In(x, y, b) ==> !g.Covers(q.At(x, y, b))
    requires forall i :: 0 <= i < |before| && !g.Covers(i) ==> after[i] == before[i]
    ensures forall x, y, b :: q.In(x, y, b) ==> Sample(after, q, x, y, b) == Sample(before, q, x, y, b)
  {
    GridFacts(q, |before|);
  }

  /** Painting the luma plane and then both chroma planes is masking. */
  lemma MaskedInTurn(f: Format, w: nat, h: nat, mask: seq<uint8>, colour: seq<uint8>,
                     s0: seq<uint8>, s1: seq<uint8>, s2: seq<uint8>)
    requires f.Planar() && BufferSize(f, w, h) <= |s0| && |s0| == |s1| == |s2| && |colour| == f.Bpp()
    requires Layout(f, w, h, 0).Fits(|s0|) && Layout(f, w, h, 1).Fits(|s0|) && Layout(f, w, h, 2).Fits(|s0|)
    requires Painted(s0, s1, Layout(f, w, h, 0), colour, LumaMask(mask, w))
    requires ChromaDone(s1, s2, Layout(f, w, h, 1), Layout(f, w, h, 2), ChromaMask(f, mask, w, h))
    ensures Masked(f, w, h, Layout(f, w, h, 0), mask, colour, s0, s2)
  {
    var g, u, v := Layout(f, w, h, 0), Layout(f, w, h, 1), Layout(f, w, h, 2);
    PlaneFits(f, w, h, 0);
    PlaneFits(f, w, h, 1);
    PlanesApart(g, u, |s0|);
    PlanesApart(g, v, |s0|);
    UntouchedSamples(s1, s2, g, u, v);
    NotCoveredSame(s0, s1, g, u);
    NotCoveredSame(s0, s1, g, v);
  }

  /** Luma first, then both chroma planes of a planar image. */
  method MaskPlanes(f: Format, w: nat, h: nat, linesize: nat, buffer: array<uint8>, mask: array<uint8>, colour: seq<uint8>)
    requires Holds(f, w, h, linesize, buffer.Length)
    requires buffer != mask && |colour| == f.Bpp() && mask.Length == Times(h, w)
    modifies buffer
    ensures f.Planar() ==> Layout(f, w, h, 1).Fits(buffer.Length) && Layout(f, w, h, 2).Fits(buffer.Length)
    ensures Masked(f, w, h, SourceGrid(f, w, h, linesize, 0), mask[..], colour, old(buffer[..]), buffer[..])
    ensures forall i ::
      0 <= i < buffer.Length && !SourceGrid(f, w, h, linesize, 0).Covers(i)
      && (f.Planar() ==> !Layout(f, w, h, 1).Covers(i) && !Layout(f, w, h, 2).Covers(i))
      ==> buffer[i] == old(buffer[i])
  {
    MaskLuma(buffer, SourceGrid(f, w, h, linesize, 0), mask, colour);
    if f.Planar() {
      assert SourceGrid(f, w, h, linesize, 0) == Layout(f, w, h, 0);
      PlaneFits(f, w, h, 1);
      PlaneFits(f, w, h, 2);
      ghost var before := buffer[..];
      MaskChroma(buffer, Layout(f, w, h, 1), Layout(f, w, h, 2), f, w, h, mask);
      MaskedInTurn(f, w, h, mask[..], colour, old(buffer[..]), before, buffer[..]);
    }
  }

  /** The widened plane the unrolled delta helpers work on fits when every row is padded. */
  lemma WidenedFits(o: RowDeltas.Order, g: Grid, len: int, other: nat)
    requires g.Fits(len) && g.bpp == o.Bytes() && Times(g.h, g.stride) <= len && g.off == 0
    requires RowDeltas.OvershootFits(o, g.w, g.stride, other)
    ensures RowDeltas.Widened(o, g, g.w).Fits(len)
  {
    TimesMono(g.h - 1, g.h, g.stride);
  }

  lemma DeltaPlaneFits(o: RowDeltas.Order, r: Grid, len: int)
    requires r.Fits(len) && r.bpp == 1 && Times(r.h, r.stride) <= len && r.off == 0
    requires RowDeltas.RoundUp(r.w, o.Group()) <= r.stride
    ensures RowDeltas.Widened(o, r, r.w).Fits(len)
  {
    TimesIsProduct(RowDeltas.RoundUp(r.w, o.Group()), 1);
    TimesMono(r.h - 1, r.h, r.stride);
  }

  /** Every row of a held image is padded to its stride. */
  ghost predicate FullRows(f: Format, w: nat, h: nat, linesize: nat, len: nat)
  {
    Holds(f, w, h, linesize, len) && linesize % 32 == 0 && Times(h, linesize) <= len
  }

  lemma DeltaWidens(o: RowDeltas.Order, f: Format, w: nat, h: nat, linesize: nat, len: nat)
    requires o.Bytes() == f.Bpp() && !o.Rgb? && !o.Bgr? && FullRows(f, w, h, linesize, len)
    ensures RowDeltas.Widened(o, SourceGrid(f, w, h, linesize, 0), w).Fits(len)
    ensures RowDeltas.Widened(o, SourceGrid(Gray8, w, h, Stride(Gray8, w, 0), 0), w).Fits(BufferSize(Gray8, w, h))
    ensures SourceGrid(Gray8, w, h, Stride(Gray8, w, 0), 0).Fits(BufferSize(Gray8, w, h))
  {
    var stride := Stride(Gray8, w, 0);
    FreshHolds(Gray8, w, h);
    TimesIsProduct(w, 1);
    AlignUp(w);
    RowDeltas.AlignedOvershootFits(o, w, linesize, stride);
    WidenedFits(o, SourceGrid(f, w, h, linesize, 0), len, stride);
    DeltaPlaneFits(o, SourceGrid(Gray8, w, h, stride, 0), BufferSize(Gray8, w, h));
  }

  /** The unrolled helpers are used when the pixel count divides by four; those for the 24-bit orders
      are never selected. */
  predicate Unrolled(o: RowDeltas.Order, w: nat, h: nat)
  {
    w * h % 4 == 0 && !o.Rgb? && !o.Bgr?
  }

  method DeltaPlane(o: RowDeltas.Order, f: Format, w: nat, h: nat, a: array<uint8>, sa: nat, b: array<uint8>, sb: nat)
    returns (pdiff: array<uint8>)
    requires o.Bytes() == f.Bpp()
    requires Holds(f, w, h, sa, a.Length) && Holds(f, w, h, sb, b.Length)
    requires Unrolled(o, w, h) ==> FullRows(f, w, h, sa, a.Length) && FullRows(f, w, h, sb, b.Length)
    ensures fresh(pdiff) && pdiff.Length == BufferSize(Gray8, w, h)
    ensures SourceGrid(Gray8, w, h, Stride(Gray8, w, 0), 0).Fits(pdiff.Length)
    ensures RowDeltas.AllDeltas(o, a[..], SourceGrid(f, w, h, sa, 0), b[..], SourceGrid(f, w, h, sb, 0),
                                pdiff[..], SourceGrid(Gray8, w, h, Stride(Gray8, w, 0), 0))
  {
    pdiff := new uint8[BufferSize(Gray8, w, h)];
    FreshHolds(Gray8, w, h);
    var unrolled := Unrolled(o, w, h);
    if unrolled {
      DeltaWidens(o, f, w, h, sa, a.Length);
      DeltaWidens(o, f, w, h, sb, b.Length);
    }
    var r := SourceGrid(Gray8, w, h, Stride(Gray8, w, 0), 0);
    RowDeltas.DeltaRows(o, unrolled, a, SourceGrid(f, w, h, sa, 0), b, SourceGrid(f, w, h, sb, 0), pdiff, r);
  }

  lemma QuarterAngle(a: nat)
    requires a < 360
    ensures a == 0 || a % 90 != 0 <==> a !in {90, 180, 270}
  {
  }

  class Image {
    var format: Format
    var order: RowDeltas.Order   // of the bytes in a pixel
    var width: nat
    var height: nat
    var linesize: nat
    var buffer: array<uint8>

    ghost predicate Valid()
      reads this
    {
      Holds(format, width, height, linesize, buffer.Length) && order.Bytes() == format.Bpp()
    }

    /** The visible samples of one plane. */
    ghost function Picture(p: nat): (r: Raster)
      requires Valid() && p < format.PlaneCount()
      reads this, buffer
    {
      PlaneRaster(format, width, height, linesize, buffer[..], p)
    }

    constructor (format: Format, order: RowDeltas.Order, width: nat, height: nat)
      requires 0 < width && 0 < height && order.Bytes() == format.Bpp()
      ensures Valid() && fresh(buffer)
      ensures this.format == format && this.order == order && this.width == width && this.height == height
    {
      this.format, this.order, this.width, this.height := format, order, width, height;
      this.linesize := Stride(format, width, 0);
      this.buffer := new uint8[BufferSize(format, width, height)];
      new;
      FreshHolds(format, width, height);
    }

    /** Takes over a buffer in libav's layout, of any sufficient size; one that is missing or too
        small, and an empty size, change nothing. */
    method AssignDirect(f: Format, o: RowDeltas.Order, w: nat, h: nat, newBuffer: array?<uint8>)
      requires Valid() && o.Bytes() == f.Bpp()
      modifies this
      ensures Valid()
      ensures newBuffer == null || w == 0 || h == 0 || newBuffer.Length < BufferSize(f, w, h) ==> unchanged(this)
      ensures newBuffer != null && 0 < w && 0 < h && BufferSize(f, w, h) <= newBuffer.Length ==>
        && format == f && order == o && width == w && height == h && buffer == newBuffer
        && linesize == Stride(f, w, 0)
    {
      if newBuffer == null {
        return;
      }
      if h == 0 || w == 0 {
        return;
      }
      if newBuffer.Length < BufferSize(f, w, h) {
        return;
      }
      FreshHolds(f, w, h);
      RoomyHolds(f, w, h, newBuffer.Length);
      format, order, width, height, buffer := f, o, w, h, newBuffer;
      linesize := Stride(f, w, 0);
    }

    /** Replaces the image by the result of an operation on each of its planes. */
    method Transform(op: Op, newWidth: nat, newHeight: nat)
      requires Valid() && OpFits(op, format, width, height, newWidth, newHeight) && 0 < newWidth && 0 < newHeight
      modifies this
      ensures Valid() && format == old(format) && order == old(order) && width == newWidth && height == newHeight
      ensures forall p :: 0 <= p < format.PlaneCount() ==>
        Picture(p) == OpResult(op, format, old(Picture(p)), p, old(width), old(height), newWidth, newHeight)
    {
      var result := TransformPlanes(op, format, width, height, linesize, buffer, newWidth, newHeight);
      AssignDirect(format, order, newWidth, newHeight, result);
    }

    method TransformTurned(t: Angle, newWidth: nat, newHeight: nat)
      requires Valid() && OpFits(Turn(t), format, width, height, newWidth, newHeight) && 0 < newWidth && 0 < newHeight
      modifies this
      ensures Valid() && format == old(format) && order == old(order) && width == newWidth && height == newHeight
      ensures forall p :: 0 <= p < format.PlaneCount() ==> Turned(old(Picture(p)), Picture(p), t)
    {
      Transform(Turn(t), newWidth, newHeight);
      forall p | 0 <= p < format.PlaneCount() ensures Turned(old(Picture(p)), Picture(p), t) {
        RotatedIsTurned(old(Picture(p)), t);
      }
    }

    /** Turns the image by a multiple of 90 degrees, or leaves it alone. */
    method Rotate(angle: nat)
      requires Valid()
      modifies this
      ensures Valid() && format == old(format) && order == old(order)
      ensures angle % 360 == 90 && !format.Yuv422? ==>
        && width == old(height) && height == old(width)
        && forall p :: 0 <= p < format.PlaneCount() ==> TurnedRight(old(Picture(p)), Picture(p))
      ensures angle % 360 == 270 && !format.Yuv422? ==>
        && width == old(height) && height == old(width)
        && forall p :: 0 <= p < format.PlaneCount() ==> TurnedLeft(old(Picture(p)), Picture(p))
      ensures angle % 360 == 180 ==>
        && width == old(width) && height == old(height)
        && forall p :: 0 <= p < format.PlaneCount() ==> UpsideDown(old(Picture(p)), Picture(p))
      ensures angle % 360 !in {90, 180, 270} || (format.Yuv422? && angle % 360 != 180) ==>
        unchanged(this) && buffer[..] == old(buffer[..])
    {
      var a := angle % 360;
      QuarterAngle(a);
      if a == 0 || a % 90 != 0 {
        return;
      }
      if (a == 90 || a == 270) && format.Yuv422? {
        return;
      }
      var t := if a == 90 then Deg90 else if a == 180 then Deg180 else Deg270;
      var newWidth := if a == 180 then width else height;
      var newHeight := if a == 180 then height else width;
      TransformTurned(t, newWidth, newHeight);
    }

    /** Mirrors the image left to right or top to bottom. */
    method Flip(leftright: bool)
      requires Valid()
      modifies this
      ensures Valid() && format == old(format) && order == old(order) && width == old(width) && height == old(height)
      ensures forall p :: 0 <= p < format.PlaneCount() ==>
        if leftright then MirroredAcross(old(Picture(p)), Picture(p)) else MirroredDown(old(Picture(p)), Picture(p))
    {
      Transform(Mirror(leftright), width, height);
      forall p | 0 <= p < format.PlaneCount()
        ensures if leftright then MirroredAcross(old(Picture(p)), Picture(p)) else MirroredDown(old(Picture(p)), Picture(p))
      {
        MirroredIff(old(Picture(p)), Picture(p));
      }
    }

    method TransformCropped(loX: nat, loY: nat, newWidth: nat, newHeight: nat)
      requires Valid() && loX + newWidth <= width && loY + newHeight <= height && 0 < newWidth && 0 < newHeight
      modifies this
      ensures Valid() && format == old(format) && order == old(order) && width == newWidth && height == newHeight
      ensures forall p :: 0 <= p < format.PlaneCount() ==>
        ShowsWindow(format, p, old(Picture(p)), Picture(p), SnappedLeft(format, loX), SnappedTop(format, loY),
                    width, height)
    {
      ghost var w, h := width, height;
      Transform(Window(loX, loY), newWidth, newHeight);
      forall p | 0 <= p < format.PlaneCount()
        ensures ShowsWindow(format, p, old(Picture(p)), Picture(p), SnappedLeft(format, loX), SnappedTop(format, loY),
                            width, height)
      {
        CropShowsWindow(format, old(Picture(p)), p, w, h, loX, loY, width, height);
      }
    }

    /** Cuts the image down to an inclusive window, moved back to the chroma grid. */
    method Crop(loX: nat, loY: nat, hiX: nat, hiY: nat) returns (ok: bool)
      requires Valid()
      modifies this
      ensures Valid() && format == old(format) && order == old(order)
      ensures ok <==> loX <= hiX < old(width) && loY <= hiY < old(height)
      ensures !ok ==> unchanged(this) && buffer[..] == old(buffer[..])
      ensures ok ==>
        && width == hiX - loX + 1 && height == hiY - loY + 1
        && forall p :: 0 <= p < format.PlaneCount() ==>
             ShowsWindow(format, p, old(Picture(p)), Picture(p), SnappedLeft(format, loX), SnappedTop(format, loY),
                         width, height)
    {
      if loX > hiX || loY > hiY {
        return false;
      }
      if hiX > width - 1 || hiY > height - 1 {
        return false;
      }
      var newWidth, newHeight := hiX - loX + 1, hiY - loY + 1;
      if newWidth == width && newHeight == height {
        forall p | 0 <= p < format.PlaneCount()
          ensures ShowsWindow(format, p, Picture(p), Picture(p), SnappedLeft(format, loX), SnappedTop(format, loY),
                              width, height)
        {
          WholeShowsWindow(format, p, Picture(p), width, height);
        }
        return true;
      }
      TransformCropped(loX, loY, newWidth, newHeight);
      return true;
    }

    /** Paints out the masked pixels, luma and chroma. */
    method MaskPrivacy(mask: array<uint8>, colour: seq<uint8>)
      requires Valid() && buffer != mask && |colour| == format.Bpp() && mask.Length == Times(height, width)
      modifies buffer
      ensures Valid()
      ensures format.Planar() ==>
        && Layout(format, width, height, 1).Fits(buffer.Length)
        && Layout(format, width, height, 2).Fits(buffer.Length)
      ensures Masked(format, width, height, SourceGrid(format, width, height, linesize, 0), mask[..], colour,
                     old(buffer[..]), buffer[..])
      ensures LumaHidden(old(Picture(0)), Picture(0), mask[..], colour)
      ensures format.Planar() ==>
        && ChromaHidden(format, 1, old(Picture(1)), Picture(1), mask[..], width, height)
        && ChromaHidden(format, 2, old(Picture(2)), Picture(2), mask[..], width, height)
      ensures forall i ::
        0 <= i < buffer.Length && !SourceGrid(format, width, height, linesize, 0).Covers(i)
        && (format.Planar() ==>
              !Layout(format, width, height, 1).Covers(i) && !Layout(format, width, height, 2).Covers(i))
        ==> buffer[i] == old(buffer[i])
    {
      MaskPlanes(format, width, height, linesize, buffer, mask, colour);
      MaskedLumaShows(old(buffer[..]), buffer[..], SourceGrid(format, width, height, linesize, 0), mask[..], colour);
      if format.Planar() {
        MaskedChromaShows(format, 1, old(buffer[..]), buffer[..], Layout(format, width, height, 1), mask[..], width, height);
        MaskedChromaShows(format, 2, old(buffer[..]), buffer[..], Layout(format, width, height, 2), mask[..], width, height);
      }
    }

    /** Fills a polygon inside the image (on a planar image, in the luma plane). */
    method Fill(colour: seq<uint8>, density: int, vs: seq<PolygonEdges.Vertex>)
      requires Valid() && |colour| == format.Bpp() && density != 0
      requires forall i :: 0 <= i < |vs| ==> 0 <= vs[i].x < width && 0 <= vs[i].y < height
      modifies buffer
      ensures Valid()
      ensures |vs| < 3 ==> buffer[..] == old(buffer[..])
      ensures |vs| >= 3 ==>
        Painted(old(buffer[..]), buffer[..], SourceGrid(format, width, height, linesize, 0), colour,
                PolygonFill.InsideAll(vs, density))
    {
      PolygonFill.Fill(buffer, SourceGrid(format, width, height, linesize, 0), colour, density, vs);
    }

    /** The absolute difference of two images, as a GRAY8 image, whichever helpers are used. */
    method Delta(image: Image, target: Image) returns (ok: bool)
      requires target != this && target != image
      requires Valid() && image.Valid()
      requires Unrolled(order, width, height) ==>
        && FullRows(format, width, height, linesize, buffer.Length)
        && FullRows(image.format, image.width, image.height, image.linesize, image.buffer.Length)
      modifies target
      ensures ok <==> width == image.width && height == image.height && format == image.format && order == image.order
      ensures !ok ==> unchanged(target)
      ensures ok ==> target.Valid() && target.format == Gray8 && target.width == width && target.height == height
      ensures ok ==>
        RowDeltas.AllDeltas(order, buffer[..], SourceGrid(format, width, height, linesize, 0),
                            image.buffer[..], SourceGrid(format, width, height, image.linesize, 0),
                            target.buffer[..], SourceGrid(Gray8, width, height, target.linesize, 0))
    {
      if !(width == image.width && height == image.height && format == image.format && order == image.order) {
        return false;
      }
      var pdiff := DeltaPlane(order, format, width, height, buffer, linesize, image.buffer, image.linesize);
      FreshHolds(Gray8, width, height);
      var stride := Stride(Gray8, width, 0);
      target.format, target.order, target.width, target.height := Gray8, RowDeltas.Gray, width, height;
      target.linesize, target.buffer := stride, pdiff;
      return true;
    }
  }
}
