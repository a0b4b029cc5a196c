/** What turning, mirroring, cropping and masking do to a picture, sample by sample, and what a
    picture is in terms of the bytes of its buffer. */
module Pictures {
  import opened Planes
  import opened PlaneTransforms
  import opened Layouts
  import opened Sums

  /** Byte b of sample (x, y) of a plane is in row y and column x of its picture. */
  lemma PictureBytes(s: seq<uint8>, g: Grid, x: nat, y: nat, b: nat)
    requires g.Fits(|s|) && x < g.w && y < g.h && b < g.bpp
    ensures 0 <= g.off + y * g.stride + x * g.bpp + b < |s|
    ensures RasterOf(s, g).rows[y][x][b] == s[g.off + y * g.stride + x * g.bpp + b]
  {
    AtInBounds(g, |s|, x, y, b);
    TimesIsProduct(y, g.stride);
    TimesIsProduct(x, g.bpp);
  }

  // ---------------------------------------------------------------- turning and mirroring

  /** A quarter turn clockwise: the first row becomes the last column. */
  ghost predicate TurnedRight(before: Raster, after: Raster)
    requires before.Valid() && after.Valid()
  {
    && after.w == before.h && after.h == before.w
    && forall x, y :: 0 <= x < before.w && 0 <= y < before.h ==>
         after.rows[x][before.h - 1 - y] == before.rows[y][x]
  }

  /** A quarter turn anticlockwise: the first row becomes the first column, read upwards. */
  ghost predicate TurnedLeft(before: Raster, after: Raster)
    requires before.Valid() && after.Valid()
  {
    && after.w == before.h && after.h == before.w
    && forall x, y :: 0 <= x < before.w && 0 <= y < before.h ==>
         after.rows[before.w - 1 - x][y] == before.rows[y][x]
  }

  ghost predicate UpsideDown(before: Raster, after: Raster)
    requires before.Valid() && after.Valid()
  {
    && after.w == before.w && after.h == before.h
    && forall x, y :: 0 <= x < before.w && 0 <= y < before.h ==>
         after.rows[before.h - 1 - y][before.w - 1 - x] == before.rows[y][x]
  }

  /** The left side becomes the right side. */
  ghost predicate MirroredAcross(before: Raster, after: Raster)
    requires before.Valid() && after.Valid()
  {
    && after.w == before.w && after.h == before.h
    && forall x, y :: 0 <= x < before.w && 0 <= y < before.h ==>
         after.rows[y][before.w - 1 - x] == before.rows[y][x]
  }

  /** The top becomes the bottom. */
  ghost predicate MirroredDown(before: Raster, after: Raster)
    requires before.Valid() && after.Valid()
  {
    && after.w == before.w && after.h == before.h
    && forall x, y :: 0 <= x < before.w && 0 <= y < before.h ==>
         after.rows[before.h - 1 - y][x] == before.rows[y][x]
  }

  /** What a turn by an angle makes of a picture. */
  ghost predicate Turned(before: Raster, after: Raster, angle: Angle)
    requires before.Valid() && after.Valid()
  {
    match angle
    case Deg90 => TurnedRight(before, after)
    case Deg180 => UpsideDown(before, after)
    case Deg270 => TurnedLeft(before, after)
  }

  lemma RotatedIsTurned(r: Raster, angle: Angle)
    requires r.Valid()
    ensures Turned(r, Rotated(r, angle), angle)
  {
    match angle
    case Deg90 => TurnedRightIff(r, Rotated(r, Deg90));
    case Deg180 => UpsideDownIff(r, Rotated(r, Deg180));
    case Deg270 => TurnedLeftIff(r, Rotated(r, Deg270));
  }

  /** What a flip makes of one. */
  ghost predicate Mirrored(before: Raster, after: Raster, leftright: bool)
    requires before.Valid() && after.Valid()
  {
    if leftright then MirroredAcross(before, after) else MirroredDown(before, after)
  }

  /** Each angle turns the way its name says, and only that picture is turned so. */
  lemma TurnedRightIff(r: Raster, q: Raster)
    requires r.Valid() && q.Valid()
    ensures TurnedRight(r, q) <==> q == Rotated(r, Deg90)
  {
    if TurnedRight(r, q) {
      forall x, y | 0 <= x < q.w && 0 <= y < q.h ensures q.rows[y][x] == Rotated(r, Deg90).rows[y][x] {
        assert q.rows[y][r.h - 1 - (r.h - 1 - x)] == r.rows[r.h - 1 - x][y];
      }
      SameRaster(q, Rotated(r, Deg90));
    }
  }

  lemma TurnedLeftIff(r: Raster, q: Raster)
    requires r.Valid() && q.Valid()
    ensures TurnedLeft(r, q) <==> q == Rotated(r, Deg270)
  {
    if TurnedLeft(r, q) {
      forall x, y | 0 <= x < q.w && 0 <= y < q.h ensures q.rows[y][x] == Rotated(r, Deg270).rows[y][x] {
        assert q.rows[r.w - 1 - (r.w - 1 - y)][x] == r.rows[x][r.w - 1 - y];
      }
      SameRaster(q, Rotated(r, Deg270));
    }
  }

  lemma UpsideDownIff(r: Raster, q: Raster)
    requires r.Valid() && q.Valid()
    ensures UpsideDown(r, q) <==> q == Rotated(r, Deg180)
  {
    if UpsideDown(r, q) {
      forall x, y | 0 <= x < q.w && 0 <= y < q.h ensures q.rows[y][x] == Rotated(r, Deg180).rows[y][x] {
        assert q.rows[r.h - 1 - (r.h - 1 - y)][r.w - 1 - (r.w - 1 - x)] == r.rows[r.h - 1 - y][r.w - 1 - x];
      }
      SameRaster(q, Rotated(r, Deg180));
    }
  }

  lemma MirroredIff(r: Raster, q: Raster)
    requires r.Valid() && q.Valid()
    ensures MirroredAcross(r, q) <==> q == Flipped(r, true)
    ensures MirroredDown(r, q) <==> q == Flipped(r, false)
  {
    if MirroredAcross(r, q) {
      forall x, y | 0 <= x < q.w && 0 <= y < q.h ensures q.rows[y][x] == Flipped(r, true).rows[y][x] {
        assert q.rows[y][r.w - 1 - (r.w - 1 - x)] == r.rows[y][r.w - 1 - x];
      }
      SameRaster(q, Flipped(r, true));
    }
    if MirroredDown(r, q) {
      forall x, y | 0 <= x < q.w && 0 <= y < q.h ensures q.rows[y][x] == Flipped(r, false).rows[y][x] {
        assert q.rows[r.h - 1 - (r.h - 1 - y)][x] == r.rows[r.h - 1 - y][x];
      }
      SameRaster(q, Flipped(r, false));
    }
  }

  // ---------------------------------------------------------------- pixels and chroma samples

  /** The column of plane p that pixels of column x are drawn with. */
  function Column(f: Format, p: nat, x: nat): nat
  {
    if p > 0 && (f.Yuv420? || f.Yuv422?) then x / 2 else x
  }

  function Line(f: Format, p: nat, y: nat): nat
  {
    if p > 0 && f.Yuv420? then y / 2 else y
  }

  /** Every plane has the samples that the pixels are drawn with, and no others, at odd sizes too. */
  lemma PlaneHoldsPixels(f: Format, w: nat, h: nat, p: nat, c: nat)
    ensures c < PlaneWidth(f, w, p) <==> exists x: nat :: x < w && Column(f, p, x) == c
    ensures c < PlaneHeight(f, h, p) <==> exists y: nat :: y < h && Line(f, p, y) == c
  {
    if c < PlaneWidth(f, w, p) {
      var x := if p > 0 && (f.Yuv420? || f.Yuv422?) then 2 * c else c;
      assert x < w && Column(f, p, x) == c;
    }
    if c < PlaneHeight(f, h, p) {
      var y := if p > 0 && f.Yuv420? then 2 * c else c;
      assert y < h && Line(f, p, y) == c;
    }
  }

  lemma PixelInPlane(f: Format, w: nat, h: nat, p: nat, x: nat, y: nat)
    requires x < w && y < h
    ensures Column(f, p, x) < PlaneWidth(f, w, p) && Line(f, p, y) < PlaneHeight(f, h, p)
  {
  }

  /** Pixel (x, y) of one picture is drawn with the sample of plane p with which the pixel that lies
      left and top further on was drawn in another. */
  ghost predicate DrawnAlike(f: Format, p: nat, before: Raster, after: Raster, left: nat, top: nat, x: nat, y: nat)
    requires before.Valid() && after.Valid()
  {
    && Column(f, p, x) < after.w && Line(f, p, y) < after.h
    && Column(f, p, left + x) < before.w && Line(f, p, top + y) < before.h
    && after.rows[Line(f, p, y)][Column(f, p, x)] == before.rows[Line(f, p, top + y)][Column(f, p, left + x)]
  }

  /** Every pixel of a w x h window at (left, top) is drawn as it was before. */
  ghost predicate ShowsWindow(f: Format, p: nat, before: Raster, after: Raster, left: nat, top: nat, w: nat, h: nat)
    requires before.Valid() && after.Valid()
  {
    && after.w == PlaneWidth(f, w, p) && after.h == PlaneHeight(f, h, p)
    && forall x: nat, y: nat :: x < w && y < h ==> DrawnAlike(f, p, before, after, left, top, x, y)
  }

  // ---------------------------------------------------------------- masking

  /** The mask has a byte for each pixel, row by row. */
  predicate Hidden(mask: seq<uint8>, w: nat, x: nat, y: nat)
  {
    0 <= y * w + x < |mask| && mask[y * w + x] != 0
  }

  /** Masked pixels of the first plane have taken the colour and the others are as they were. */
  ghost predicate LumaHidden(before: Raster, after: Raster, mask: seq<uint8>, colour: Pixel)
    requires before.Valid() && after.Valid()
  {
    && after.w == before.w && after.h == before.h
    && forall x: nat, y: nat :: x < before.w && y < before.h ==>
         after.rows[y][x] == if Hidden(mask, before.w, x, y) then colour else before.rows[y][x]
  }

  /** Some masked pixel is drawn with this sample. */
  ghost predicate DrawsHidden(f: Format, p: nat, mask: seq<uint8>, w: nat, h: nat, c: nat, l: nat)
  {
    exists x: nat, y: nat :: x < w && y < h && Hidden(mask, w, x, y) && Column(f, p, x) == c && Line(f, p, y) == l
  }

  /** A chroma plane: samples that a masked pixel is drawn with are neutral, the others as they were. */
  ghost predicate ChromaHidden(f: Format, p: nat, before: Raster, after: Raster, mask: seq<uint8>, w: nat, h: nat)
    requires before.Valid() && after.Valid()
  {
    && after.w == before.w && after.h == before.h
    && forall c: nat, l: nat :: c < before.w && l < before.h ==>
         after.rows[l][c] == if DrawsHidden(f, p, mask, w, h, c, l) then [128] else before.rows[l][c]
  }
}
