/** Rotating, flipping and copying one strided plane into another, and the same operations on
    abstract rasters. */
module PlaneTransforms {
  import opened Planes

  // ---------------------------------------------------------------- rasters

  type Pixel = seq<uint8>

  /** The visible samples of a plane, without stride or padding. */
  datatype Raster = Raster(w: nat, h: nat, rows: seq<seq<Pixel>>)
  {
    ghost predicate Valid()
    {
      |rows| == h && forall y :: 0 <= y < h ==> |rows[y]| == w
    }
  }

  ghost function PixelOf(s: seq<uint8>, g: Grid, x: int, y: int): Pixel
    requires g.Fits(|s|) && 0 <= x < g.w && 0 <= y < g.h
  {
    seq(g.bpp, b requires 0 <= b < g.bpp => Sample(s, g, x, y, b))
  }

  ghost function RowOf(s: seq<uint8>, g: Grid, y: int): seq<Pixel>
    requires g.Fits(|s|) && 0 <= y < g.h
  {
    seq(g.w, x requires 0 <= x < g.w => PixelOf(s, g, x, y))
  }

  ghost function RasterOf(s: seq<uint8>, g: Grid): (r: Raster)
    requires g.Fits(|s|)
    ensures r.Valid()
  {
    Raster(g.w, g.h, seq(g.h, y requires 0 <= y < g.h => RowOf(s, g, y)))
  }

  datatype Angle = Deg90 | Deg180 | Deg270

  function Rotated(r: Raster, angle: Angle): (q: Raster)
    requires r.Valid()
    ensures q.Valid()
  {
    match angle
    case Deg90 =>
      Raster(r.h, r.w, seq(r.w, y requires 0 <= y < r.w => seq(r.h, x requires 0 <= x < r.h => r.rows[r.h - 1 - x][y])))
    case Deg180 =>
      Raster(r.w, r.h, seq(r.h, y requires 0 <= y < r.h =>
        seq(r.w, x requires 0 <= x < r.w => r.rows[r.h - 1 - y][r.w - 1 - x])))
    case Deg270 =>
      Raster(r.h, r.w, seq(r.w, y requires 0 <= y < r.w =>
        seq(r.h, x requires 0 <= x < r.h => r.rows[x][r.w - 1 - y])))
  }

  function Flipped(r: Raster, leftright: bool): (q: Raster)
    requires r.Valid()
    ensures q.Valid()
  {
    if leftright then
      Raster(r.w, r.h, seq(r.h, y requires 0 <= y < r.h =>
        seq(r.w, x requires 0 <= x < r.w => r.rows[y][r.w - 1 - x])))
    else
      Raster(r.w, r.h, seq(r.h, y requires 0 <= y < r.h => r.rows[r.h - 1 - y]))
  }

  function Cropped(r: Raster, x0: nat, y0: nat, w: nat, h: nat): (q: Raster)
    requires r.Valid() && x0 + w <= r.w && y0 + h <= r.h
    ensures q.Valid()
  {
    Raster(w, h, seq(h, y requires 0 <= y < h =>
      seq(w, x requires 0 <= x < w => r.rows[y0 + y][x0 + x])))
  }

  lemma SameRaster(p: Raster, q: Raster)
    requires p.Valid() && q.Valid() && p.w == q.w && p.h == q.h
    requires forall x, y :: 0 <= x < p.w && 0 <= y < p.h ==> p.rows[y][x] == q.rows[y][x]
    ensures p == q
  {
    forall y | 0 <= y < p.h ensures p.rows[y] == q.rows[y] {}
    assert p.rows == q.rows;
  }

  lemma QuarterTurnsUndo(r: Raster)
    requires r.Valid()
    ensures Rotated(Rotated(r, Deg90), Deg270) == r
    ensures Rotated(Rotated(r, Deg270), Deg90) == r
  {
    SameRaster(Rotated(Rotated(r, Deg90), Deg270), r);
    SameRaster(Rotated(Rotated(r, Deg270), Deg90), r);
  }

  lemma TwoQuarterTurns(r: Raster)
    requires r.Valid()
    ensures Rotated(Rotated(r, Deg90), Deg90) == Rotated(r, Deg180)
  {
    SameRaster(Rotated(Rotated(r, Deg90), Deg90), Rotated(r, Deg180));
  }

  lemma HalfTurnUndo(r: Raster)
    requires r.Valid()
    ensures Rotated(Rotated(r, Deg180), Deg180) == r
  {
    SameRaster(Rotated(Rotated(r, Deg180), Deg180), r);
  }

  lemma FourQuarterTurns(r: Raster)
    requires r.Valid()
    ensures Rotated(Rotated(Rotated(Rotated(r, Deg90), Deg90), Deg90), Deg90) == r
  {
    TwoQuarterTurns(r);
    TwoQuarterTurns(Rotated(r, Deg180));
    HalfTurnUndo(r);
  }

  lemma FlipTwice(r: Raster, leftright: bool)
    requires r.Valid()
    ensures Flipped(Flipped(r, leftright), leftright) == r
  {
    SameRaster(Flipped(Flipped(r, leftright), leftright), r);
  }

  lemma HalfTurnIsBothFlips(r: Raster)
    requires r.Valid()
    ensures Rotated(r, Deg180) == Flipped(Flipped(r, true), false) == Flipped(Flipped(r, false), true)
  {
    SameRaster(Rotated(r, Deg180), Flipped(Flipped(r, true), false));
    SameRaster(Rotated(r, Deg180), Flipped(Flipped(r, false), true));
  }

  lemma CropTwice(r: Raster, x0: nat, y0: nat, w: nat, h: nat, x1: nat, y1: nat, w': nat, h': nat)
    requires r.Valid() && x0 + w <= r.w && y0 + h <= r.h && x1 + w' <= w && y1 + h' <= h
    ensures Cropped(Cropped(r, x0, y0, w, h), x1, y1, w', h') == Cropped(r, x0 + x1, y0 + y1, w', h')
  {
    SameRaster(Cropped(Cropped(r, x0, y0, w, h), x1, y1, w', h'), Cropped(r, x0 + x1, y0 + y1, w', h'));
  }

  // ------------------------------------------------- where a rotation puts a sample

  function Target(angle: Angle, w: int, h: int, sx: int, sy: int): (int, int)
  {
    match angle
    case Deg90 => (h - 1 - sy, sx)
    case Deg180 => (w - 1 - sx, h - 1 - sy)
    case Deg270 => (sy, w - 1 - sx)
  }

  /** The source sample that ends up at (dx, dy). */
  function Origin(angle: Angle, w: int, h: int, dx: int, dy: int): (int, int)
  {
    match angle
    case Deg90 => (dy, h - 1 - dx)
    case Deg180 => (w - 1 - dx, h - 1 - dy)
    case Deg270 => (w - 1 - dy, dx)
  }

  function TurnedWidth(angle: Angle, w: nat, h: nat): nat { if angle == Deg180 then w else h }

  function TurnedHeight(angle: Angle, w: nat, h: nat): nat { if angle == Deg180 then h else w }

  /** Every visible destination sample is written, and by one source sample only. */
  lemma TargetsCoverOnce(angle: Angle, w: nat, h: nat, dx: int, dy: int, sx: int, sy: int)
    requires 0 <= dx < TurnedWidth(angle, w, h) && 0 <= dy < TurnedHeight(angle, w, h)
    ensures 0 <= Origin(angle, w, h, dx, dy).0 < w && 0 <= Origin(angle, w, h, dx, dy).1 < h
    ensures Target(angle, w, h, sx, sy) == (dx, dy) <==> Origin(angle, w, h, dx, dy) == (sx, sy)
  {
    match angle {
      case Deg90 =>
      case Deg180 =>
      case Deg270 =>
    }
  }

  // ---------------------------------------------------------------- byte loops

  /** Bytes before the plane and after its last sample are the same. */
  ghost predicate SameOutside(before: seq<uint8>, after: seq<uint8>, g: Grid)
  {
    && |before| == |after|
    && forall i :: 0 <= i < |before| && (i < g.off || g.End() <= i) ==> after[i] == before[i]
  }

  method CopyPixel(dst: array<uint8>, dg: Grid, dx: int, dy: int, src: array<uint8>, sg: Grid, sx: int, sy: int)
    requires dst != src && dg.Fits(dst.Length) && sg.Fits(src.Length) && dg.bpp == sg.bpp
    requires 0 <= dx < dg.w && 0 <= dy < dg.h && 0 <= sx < sg.w && 0 <= sy < sg.h
    modifies dst
    ensures SameOutside(old(dst[..]), dst[..], dg)
    ensures forall x, y, b :: dg.In(x, y, b) ==>
      Sample(dst[..], dg, x, y, b)
      == if x == dx && y == dy then Sample(src[..], sg, sx, sy, b) else Sample(old(dst[..]), dg, x, y, b)
  {
    GridFacts(dg, dst.Length);
    GridFacts(sg, src.Length);
    for b := 0 to dg.bpp
      invariant SameOutside(old(dst[..]), dst[..], dg)
      invariant forall x, y, b' :: dg.In(x, y, b') ==>
        Sample(dst[..], dg, x, y, b')
        == if x == dx && y == dy && b' < b then Sample(src[..], sg, sx, sy, b') else Sample(old(dst[..]), dg, x, y, b')
    {
      assert dg.In(dx, dy, b) && sg.In(sx, sy, b);
      dst[dg.At(dx, dy, b)] := src[sg.At(sx, sy, b)];
    }
  }

  /** memcpy of the sample bytes of one row, from column sx of the source on. */
  method CopyRow(dst: array<uint8>, dg: Grid, dy: int, src: array<uint8>, sg: Grid, sx: int, sy: int)
    requires dst != src && dg.Fits(dst.Length) && sg.Fits(src.Length)
    requires dg.bpp == sg.bpp && 0 <= sx && sx + dg.w <= sg.w && 0 <= dy < dg.h && 0 <= sy < sg.h
    modifies dst
    ensures SameOutside(old(dst[..]), dst[..], dg)
    ensures forall x, y, b :: dg.In(x, y, b) ==>
      Sample(dst[..], dg, x, y, b)
      == if y == dy then Sample(src[..], sg, sx + x, sy, b) else Sample(old(dst[..]), dg, x, y, b)
  {
    for x := 0 to dg.w
      invariant SameOutside(old(dst[..]), dst[..], dg)
      invariant forall px, py, b :: dg.In(px, py, b) ==>
        Sample(dst[..], dg, px, py, b)
        == if py == dy && px < x then Sample(src[..], sg, sx + px, sy, b) else Sample(old(dst[..]), dg, px, py, b)
    {
      CopyPixel(dst, dg, x, dy, src, sg, sx + x, sy);
    }
  }

  lemma RasterBytes(s: seq<uint8>, g: Grid, t: seq<uint8>, q: Grid, r: Raster, from: (int, int) -> (int, int))
    requires g.Fits(|s|) && q.Fits(|t|) && g.bpp == q.bpp
    requires forall x, y :: 0 <= x < g.w && 0 <= y < g.h ==> 0 <= from(x, y).0 < q.w && 0 <= from(x, y).1 < q.h
    requires forall x, y, b :: g.In(x, y, b) ==> Sample(s, g, x, y, b) == Sample(t, q, from(x, y).0, from(x, y).1, b)
    requires r.Valid() && r.w == g.w && r.h == g.h
    requires forall x, y :: 0 <= x < g.w && 0 <= y < g.h ==>
      r.rows[y][x] == RasterOf(t, q).rows[from(x, y).1][from(x, y).0]
    ensures RasterOf(s, g) == r
  {
    forall x, y | 0 <= x < g.w && 0 <= y < g.h ensures RasterOf(s, g).rows[y][x] == r.rows[y][x] {
      var (sx, sy) := from(x, y);
      forall b | 0 <= b < g.bpp ensures PixelOf(s, g, x, y)[b] == PixelOf(t, q, sx, sy)[b] {
        assert g.In(x, y, b);
      }
      assert PixelOf(s, g, x, y) == PixelOf(t, q, sx, sy);
    }
    SameRaster(RasterOf(s, g), r);
  }

  ghost function FromOrigin(s: seq<uint8>, g: Grid, angle: Angle, dx: int, dy: int, b: int): uint8
    requires g.Fits(|s|) && 0 <= b < g.bpp
    requires 0 <= dx < TurnedWidth(angle, g.w, g.h) && 0 <= dy < TurnedHeight(angle, g.w, g.h)
  {
    Sample(s, g, Origin(angle, g.w, g.h, dx, dy).0, Origin(angle, g.w, g.h, dx, dy).1, b)
  }

  /** The destination samples whose source comes before (sx, sy) in row order are in place. */
  ghost predicate RotatedUpTo(dst: seq<uint8>, dg: Grid, src: seq<uint8>, sg: Grid, angle: Angle, sx: int, sy: int)
    requires dg.Fits(|dst|) && sg.Fits(|src|) && dg.bpp == sg.bpp
    requires dg.w == TurnedWidth(angle, sg.w, sg.h) && dg.h == TurnedHeight(angle, sg.w, sg.h)
  {
    forall x, y, b :: dg.In(x, y, b) ==>
      var (ox, oy) := Origin(angle, sg.w, sg.h, x, y);
      oy < sy || (oy == sy && ox < sx) ==> Sample(dst, dg, x, y, b) == FromOrigin(src, sg, angle, x, y, b)
  }

  method RotatePixel(src: array<uint8>, sg: Grid, dst: array<uint8>, dg: Grid, angle: Angle, sx: int, sy: int)
    requires dst != src && dg.Fits(dst.Length) && sg.Fits(src.Length) && dg.bpp == sg.bpp
    requires dg.w == TurnedWidth(angle, sg.w, sg.h) && dg.h == TurnedHeight(angle, sg.w, sg.h)
    requires 0 <= sx < sg.w && 0 <= sy < sg.h
    requires RotatedUpTo(dst[..], dg, src[..], sg, angle, sx, sy)
    modifies dst
    ensures SameOutside(old(dst[..]), dst[..], dg)
    ensures RotatedUpTo(dst[..], dg, src[..], sg, angle, sx + 1, sy)
  {
    var (dx, dy) := Target(angle, sg.w, sg.h, sx, sy);
    CopyPixel(dst, dg, dx, dy, src, sg, sx, sy);
  }

  /** rotate_plane: the source is walked in row order and each sample is put where it belongs. */
  method RotatePlane(src: array<uint8>, sg: Grid, dst: array<uint8>, dg: Grid, angle: Angle)
    requires dst != src && dg.Fits(dst.Length) && sg.Fits(src.Length) && dg.bpp == sg.bpp
    requires dg.w == TurnedWidth(angle, sg.w, sg.h) && dg.h == TurnedHeight(angle, sg.w, sg.h)
    modifies dst
    ensures SameOutside(old(dst[..]), dst[..], dg)
    ensures RasterOf(dst[..], dg) == Rotated(RasterOf(src[..], sg), angle)
  {
    for sy := 0 to sg.h
      invariant SameOutside(old(dst[..]), dst[..], dg)
      invariant RotatedUpTo(dst[..], dg, src[..], sg, angle, 0, sy)
    {
      for sx := 0 to sg.w
        invariant SameOutside(old(dst[..]), dst[..], dg)
        invariant RotatedUpTo(dst[..], dg, src[..], sg, angle, sx, sy)
      {
        RotatePixel(src, sg, dst, dg, angle, sx, sy);
      }
    }
    RotatedRaster(dst[..], dg, src[..], sg, angle);
  }

  lemma RotatedRaster(dst: seq<uint8>, dg: Grid, src: seq<uint8>, sg: Grid, angle: Angle)
    requires dg.Fits(|dst|) && sg.Fits(|src|) && dg.bpp == sg.bpp
    requires dg.w == TurnedWidth(angle, sg.w, sg.h) && dg.h == TurnedHeight(angle, sg.w, sg.h)
    requires RotatedUpTo(dst, dg, src, sg, angle, 0, sg.h)
    ensures RasterOf(dst, dg) == Rotated(RasterOf(src, sg), angle)
  {
    RasterBytes(dst, dg, src, sg, Rotated(RasterOf(src, sg), angle), (x, y) => Origin(angle, sg.w, sg.h, x, y));
  }

  /** flip_plane: horizontally sample by sample, vertically row by row. */
  method FlipPlane(src: array<uint8>, sg: Grid, dst: array<uint8>, dg: Grid, leftright: bool)
    requires dst != src && dg.Fits(dst.Length) && sg.Fits(src.Length) && dg.bpp == sg.bpp
    requires dg.w == sg.w && dg.h == sg.h
    modifies dst
    ensures SameOutside(old(dst[..]), dst[..], dg)
    ensures RasterOf(dst[..], dg) == Flipped(RasterOf(src[..], sg), leftright)
  {
    if leftright {
      for y := 0 to dg.h
        invariant SameOutside(old(dst[..]), dst[..], dg)
        invariant forall px, py, b :: dg.In(px, py, b) && py < y ==>
          Sample(dst[..], dg, px, py, b) == Sample(src[..], sg, sg.w - 1 - px, py, b)
      {
        FlipRow(src, sg, dst, dg, y);
      }
      RasterBytes(dst[..], dg, src[..], sg, Flipped(RasterOf(src[..], sg), true), (x, y) => (sg.w - 1 - x, y));
    } else {
      for y := 0 to dg.h
        invariant SameOutside(old(dst[..]), dst[..], dg)
        invariant forall px, py, b :: dg.In(px, py, b) && dg.h - y <= py ==>
          Sample(dst[..], dg, px, py, b) == Sample(src[..], sg, px, sg.h - 1 - py, b)
      {
        CopyRow(dst, dg, dg.h - 1 - y, src, sg, 0, y);
      }
      RasterBytes(dst[..], dg, src[..], sg, Flipped(RasterOf(src[..], sg), false), (x, y) => (x, sg.h - 1 - y));
    }
  }

  method FlipRow(src: array<uint8>, sg: Grid, dst: array<uint8>, dg: Grid, y: int)
    requires dst != src && dg.Fits(dst.Length) && sg.Fits(src.Length) && dg.bpp == sg.bpp
    requires dg.w == sg.w && dg.h == sg.h && 0 <= y < dg.h
    modifies dst
    ensures SameOutside(old(dst[..]), dst[..], dg)
    ensures forall px, py, b :: dg.In(px, py, b) ==>
      Sample(dst[..], dg, px, py, b)
      == if py == y then Sample(src[..], sg, sg.w - 1 - px, y, b) else Sample(old(dst[..]), dg, px, py, b)
  {
    for x := 0 to sg.w
      invariant SameOutside(old(dst[..]), dst[..], dg)
      invariant forall px, py, b :: dg.In(px, py, b) ==>
        Sample(dst[..], dg, px, py, b)
        == if py == y && dg.w - x <= px then Sample(src[..], sg, sg.w - 1 - px, y, b)
           else Sample(old(dst[..]), dg, px, py, b)
    {
      CopyPixel(dst, dg, dg.w - 1 - x, y, src, sg, x, y);
    }
  }

  /** av_image_copy_plane from a window of the source. */
  method CopyPlane(src: array<uint8>, sg: Grid, x0: nat, y0: nat, dst: array<uint8>, dg: Grid)
    requires dst != src && dg.Fits(dst.Length) && sg.Fits(src.Length) && dg.bpp == sg.bpp
    requires x0 + dg.w <= sg.w && y0 + dg.h <= sg.h
    modifies dst
    ensures SameOutside(old(dst[..]), dst[..], dg)
    ensures RasterOf(dst[..], dg) == Cropped(RasterOf(src[..], sg), x0, y0, dg.w, dg.h)
  {
    for y := 0 to dg.h
      invariant SameOutside(old(dst[..]), dst[..], dg)
      invariant forall px, py, b :: dg.In(px, py, b) && py < y ==>
        Sample(dst[..], dg, px, py, b) == Sample(src[..], sg, x0 + px, y0 + py, b)
    {
      CopyRow(dst, dg, y, src, sg, x0, y0 + y);
    }
    RasterBytes(dst[..], dg, src[..], sg, Cropped(RasterOf(src[..], sg), x0, y0, dg.w, dg.h), (x, y) => (x0 + x, y0 + y));
  }
}
