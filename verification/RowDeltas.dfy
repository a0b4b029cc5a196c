/** Motion deltas: the unrolled row helpers against the one-pixel-at-a-time helpers, driven row
    by row over strided images. */
module RowDeltas {
  import opened Planes
  import opened Sums
  import opened Layouts

  datatype Order = Gray | Rgb | Bgr | Rgba | Bgra | Argb | Abgr
  {
    function Bytes(): nat { if Gray? then 1 else if Rgb? || Bgr? then 3 else 4 }

    /** Pixels per turn of the unrolled loop. */
    function Group(): nat { if Gray? then 16 else 4 }

    function RedAt(): nat { if Bgr? || Bgra? then 2 else if Argb? then 1 else if Abgr? then 3 else 0 }

    function GreenAt(): nat { if Argb? || Abgr? then 2 else 1 }

    function BlueAt(): nat { if Bgr? || Bgra? then 0 else if Argb? then 3 else if Abgr? then 1 else 2 }
  }

  function AbsDiff(x: uint8, y: uint8): uint8 { if x < y then y - x else x - y }

  /** (r + r + b + g + g + g + g + g) >> 3 */
  function Weighted(r: uint8, g: uint8, b: uint8): uint8
  {
    (2 * r + b + 5 * g) / 8
  }

  /** The delta of the pixels of two planes at (x, y). */
  function PixelDelta(o: Order, s: seq<uint8>, g: Grid, t: seq<uint8>, q: Grid, x: int, y: int): uint8
    requires g.Fits(|s|) && q.Fits(|t|) && g.bpp == q.bpp == o.Bytes()
    requires 0 <= x < g.w && 0 <= x < q.w && 0 <= y < g.h && 0 <= y < q.h
  {
    if o.Gray? then AbsDiff(Sample(s, g, x, y, 0), Sample(t, q, x, y, 0))
    else Weighted(AbsDiff(Sample(s, g, x, y, o.RedAt()), Sample(t, q, x, y, o.RedAt())),
                  AbsDiff(Sample(s, g, x, y, o.GreenAt()), Sample(t, q, x, y, o.GreenAt())),
                  AbsDiff(Sample(s, g, x, y, o.BlueAt()), Sample(t, q, x, y, o.BlueAt())))
  }

  datatype Colour = Colour(alpha: uint8, red: uint8, green: uint8, blue: uint8)

  /** A colour pixel's bytes in memory. */
  function BytesOf(o: Order, p: Colour): seq<uint8>
    requires !o.Gray?
  {
    match o
    case Rgb => [p.red, p.green, p.blue]
    case Bgr => [p.blue, p.green, p.red]
    case Rgba => [p.red, p.green, p.blue, p.alpha]
    case Bgra => [p.blue, p.green, p.red, p.alpha]
    case Argb => [p.alpha, p.red, p.green, p.blue]
    case Abgr => [p.alpha, p.blue, p.green, p.red]
  }

  /** Pixel (x, y) has this colour. */
  ghost predicate Coloured(o: Order, s: seq<uint8>, g: Grid, x: int, y: int, p: Colour)
    requires !o.Gray? && g.Fits(|s|) && g.bpp == |BytesOf(o, p)| && 0 <= x < g.w && 0 <= y < g.h
  {
    forall b :: 0 <= b < g.bpp ==> Sample(s, g, x, y, b) == BytesOf(o, p)[b]
  }

  function Apart(x: int, y: int): nat
  {
    if x <= y then y - x else x - y
  }

  /** In every byte order, a delta is two eighths of how far the reds are apart, five of the greens
      and one of the blues, rounded down; the fourth byte does not count. */
  lemma ColourDelta(o: Order, s: seq<uint8>, g: Grid, t: seq<uint8>, q: Grid, x: int, y: int, c: Colour, e: Colour)
    requires !o.Gray? && g.Fits(|s|) && q.Fits(|t|) && g.bpp == q.bpp == |BytesOf(o, c)|
    requires 0 <= x < g.w && 0 <= x < q.w && 0 <= y < g.h && 0 <= y < q.h
    requires Coloured(o, s, g, x, y, c) && Coloured(o, t, q, x, y, e)
    ensures o.Bytes() == |BytesOf(o, c)|
    ensures
      var sum := 2 * Apart(c.red, e.red) + 5 * Apart(c.green, e.green) + Apart(c.blue, e.blue);
      8 * PixelDelta(o, s, g, t, q, x, y) <= sum < 8 * PixelDelta(o, s, g, t, q, x, y) + 8
  {
    assert Sample(s, g, x, y, o.RedAt()) == c.red && Sample(t, q, x, y, o.RedAt()) == e.red;
    assert Sample(s, g, x, y, o.GreenAt()) == c.green && Sample(t, q, x, y, o.GreenAt()) == e.green;
    assert Sample(s, g, x, y, o.BlueAt()) == c.blue && Sample(t, q, x, y, o.BlueAt()) == e.blue;
  }

  lemma GrayDelta(s: seq<uint8>, g: Grid, t: seq<uint8>, q: Grid, x: int, y: int)
    requires g.Fits(|s|) && q.Fits(|t|) && g.bpp == q.bpp == 1
    requires 0 <= x < g.w && 0 <= x < q.w && 0 <= y < g.h && 0 <= y < q.h
    ensures PixelDelta(Gray, s, g, t, q, x, y) == Apart(Sample(s, g, x, y, 0), Sample(t, q, x, y, 0))
  {
  }

  function RoundUp(n: nat, group: nat): nat
    requires 0 < group
  {
    if n == 0 then 0 else if n <= group then group else group + RoundUp(n - group, group)
  }

  /** Two source planes and a delta plane of the same visible size. */
  ghost predicate Matching(o: Order, s: seq<uint8>, g: Grid, t: seq<uint8>, q: Grid, d: seq<uint8>, r: Grid)
  {
    && g.Fits(|s|) && q.Fits(|t|) && r.Fits(|d|)
    && g.bpp == q.bpp == o.Bytes() && r.bpp == 1
    && g.w == q.w == r.w && g.h == q.h == r.h
  }

  /** The first n deltas of row y are in place. */
  ghost predicate RowDone(o: Order, s: seq<uint8>, g: Grid, t: seq<uint8>, q: Grid, d: seq<uint8>, r: Grid, y: int, n: int)
    requires Matching(o, s, g, t, q, d, r) && 0 <= y < r.h && n <= r.w
  {
    forall x :: 0 <= x < n ==> Sample(d, r, x, y, 0) == PixelDelta(o, s, g, t, q, x, y)
  }

  /** Nothing outside row y, padding included, has changed. */
  ghost predicate SameButRow(before: seq<uint8>, after: seq<uint8>, r: Grid, y: int)
  {
    && |after| == |before|
    && forall i :: 0 <= i < |before| && !(r.At(0, y, 0) <= i < r.At(0, y, 0) + r.stride) ==> after[i] == before[i]
  }

  lemma AtInRow(r: Grid, len: int, x: int, y: int)
    requires r.Fits(len) && r.bpp == 1 && r.In(x, y, 0)
    ensures r.At(0, y, 0) <= r.At(x, y, 0) < r.At(0, y, 0) + r.stride
  {
    TimesMono(0, x, 1);
    TimesMono(x + 1, r.w, 1);
  }

  /** One `result[k] = ...` of a row. */
  method PutDelta(o: Order, a: array<uint8>, g: Grid, b: array<uint8>, q: Grid, dst: array<uint8>, r: Grid, y: int, x: int)
    requires dst != a && dst != b && Matching(o, a[..], g, b[..], q, dst[..], r) && r.In(x, y, 0)
    requires RowDone(o, a[..], g, b[..], q, dst[..], r, y, x)
    modifies dst
    ensures RowDone(o, a[..], g, b[..], q, dst[..], r, y, x + 1)
    ensures SameButRow(old(dst[..]), dst[..], r, y)
  {
    GridFacts(r, dst.Length);
    AtInRow(r, dst.Length, x, y);
    dst[r.At(x, y, 0)] := PixelDelta(o, a[..], g, b[..], q, x, y);
  }

  /** std_delta8_*: one pixel per turn. */
  method StdRow(o: Order, a: array<uint8>, g: Grid, b: array<uint8>, q: Grid, dst: array<uint8>, r: Grid, y: int)
    requires dst != a && dst != b && Matching(o, a[..], g, b[..], q, dst[..], r) && 0 <= y < r.h
    modifies dst
    ensures RowDone(o, a[..], g, b[..], q, dst[..], r, y, r.w)
    ensures SameButRow(old(dst[..]), dst[..], r, y)
  {
    var k := 0;
    while k < r.w
      invariant 0 <= k <= r.w
      invariant RowDone(o, a[..], g, b[..], q, dst[..], r, y, k)
      invariant SameButRow(old(dst[..]), dst[..], r, y)
    {
      PutDelta(o, a, g, b, q, dst, r, y, k);
      k := k + 1;
    }
  }

  /** fast_delta8_*: a whole group per turn, so the last turn may run past the count. The planes
      are as wide as the groups reach. */
  method FastRow(o: Order, a: array<uint8>, g: Grid, b: array<uint8>, q: Grid, dst: array<uint8>, r: Grid, y: int, count: nat)
    requires dst != a && dst != b && Matching(o, a[..], g, b[..], q, dst[..], r) && 0 <= y < r.h
    requires r.w == RoundUp(count, o.Group())
    modifies dst
    ensures RowDone(o, a[..], g, b[..], q, dst[..], r, y, r.w)
    ensures SameButRow(old(dst[..]), dst[..], r, y)
  {
    var k := 0;
    while k < count
      invariant 0 <= k <= r.w && r.w == k + RoundUp(if k < count then count - k else 0, o.Group())
      invariant RowDone(o, a[..], g, b[..], q, dst[..], r, y, k)
      invariant SameButRow(old(dst[..]), dst[..], r, y)
    {
      for u := 0 to o.Group()
        invariant k + o.Group() <= r.w
        invariant RowDone(o, a[..], g, b[..], q, dst[..], r, y, k + u)
        invariant SameButRow(old(dst[..]), dst[..], r, y)
      {
        PutDelta(o, a, g, b, q, dst, r, y, k + u);
      }
      k := k + o.Group();
    }
  }

  // ---------------------------------------------------------------- does the overshoot fit

  /** The plane as the unrolled helper sees it: as wide as its last group reaches. */
  function Widened(o: Order, g: Grid, n: nat): Grid
  {
    g.(w := RoundUp(n, o.Group()))
  }

  /** The last group stays in the row, of the source and of the delta. */
  ghost predicate OvershootFits(o: Order, w: nat, sourceStride: nat, deltaStride: nat)
  {
    Times(RoundUp(w, o.Group()), o.Bytes()) <= sourceStride && RoundUp(w, o.Group()) <= deltaStride
  }

  lemma {:induction false} RoundUpBy4(n: nat)
    ensures n <= RoundUp(n, 4) < n + 4 && RoundUp(n, 4) % 4 == 0
  {
    if n > 4 { RoundUpBy4(n - 4); }
  }

  lemma {:induction false} RoundUpBy16(n: nat)
    ensures n <= RoundUp(n, 16) < n + 16 && RoundUp(n, 16) % 16 == 0
  {
    if n > 16 { RoundUpBy16(n - 16); }
  }

  lemma FoursBelow(m: nat, n: nat, k: nat)
    requires n <= 32 * k && 4 * m < n + 4
    ensures 4 * m <= 32 * k
  {
  }

  lemma SixteensBelow(m: nat, n: nat, k: nat)
    requires n <= 32 * k && 16 * m < n + 16
    ensures 16 * m <= 32 * k
  {
    assert m < 2 * k + 1;
  }

  /** With 32-byte aligned rows the overshoot always fits for GRAY8 and the 32-bit orders. */
  lemma AlignedOvershootFits(o: Order, w: nat, sourceStride: nat, deltaStride: nat)
    requires !o.Rgb? && !o.Bgr?
    requires sourceStride % 32 == 0 && deltaStride % 32 == 0
    requires Times(w, o.Bytes()) <= sourceStride && w <= deltaStride
    ensures OvershootFits(o, w, sourceStride, deltaStride)
  {
    if o.Gray? {
      TimesIsProduct(w, 1);
      TimesIsProduct(RoundUp(w, 16), 1);
      RoundUpBy16(w);
      SixteensBelow(RoundUp(w, 16) / 16, w, sourceStride / 32);
      SixteensBelow(RoundUp(w, 16) / 16, w, deltaStride / 32);
    } else {
      TimesIsProduct(w, 4);
      TimesIsProduct(RoundUp(w, 4), 4);
      RoundUpBy4(w);
      SixteensBelow(RoundUp(w, 4) / 4, 4 * w, sourceStride / 32);
      FoursBelow(RoundUp(w, 4) / 4, w, deltaStride / 32);
    }
  }

  /** For the 24-bit orders it fits the row that libav lays out, except at three residues. */
  lemma Overshoot24(o: Order, w: nat)
    requires o.Rgb? || o.Bgr?
    ensures OvershootFits(o, w, Align32(3 * w), Align32(w)) <==> w % 32 != 9 && w % 32 != 10 && w % 32 != 21
  {
    TimesIsProduct(RoundUp(w, 4), 3);
    RoundUpBy4(w);
    Residues24(w / 32, w % 32, RoundUp(w, 4) - w / 32 * 32);
  }

  lemma Residues24(q: nat, r: nat, up: int)
    requires r < 32 && r <= up < r + 4 && up % 4 == 0
    ensures 3 * (32 * q + up) <= Align32(3 * (32 * q + r)) && 32 * q + up <= Align32(32 * q + r)
       <==> r != 9 && r != 10 && r != 21
  {
    DivShift(3 * q, 3 * r + 31);
    DivShift(q, r + 31);
    assert Align32(3 * (32 * q + r)) == 96 * q + (3 * r + 31) / 32 * 32;
    assert Align32(32 * q + r) == 32 * q + (r + 31) / 32 * 32;
    Residue24(r, up / 4);
  }

  lemma DivShift(q: nat, a: nat)
    ensures (32 * q + a) / 32 == q + a / 32
  {
  }

  lemma Residue24(r: nat, m: nat)
    requires r < 32 && r <= 4 * m < r + 4
    ensures 12 * m <= (3 * r + 31) / 32 * 32 && 4 * m <= (r + 31) / 32 * 32 <==> r != 9 && r != 10 && r != 21
  {
  }

  // ---------------------------------------------------------------- row by row

  /** Rows above `rows` hold their deltas, and no byte outside those rows has changed. */
  ghost predicate DeltaUpTo(o: Order, s: seq<uint8>, g: Grid, t: seq<uint8>, q: Grid,
                            before: seq<uint8>, after: seq<uint8>, r: Grid, rows: int)
    requires Matching(o, s, g, t, q, before, r) && rows <= r.h
  {
    && |after| == |before|
    && (forall y :: 0 <= y < rows ==> RowDone(o, s, g, t, q, after, r, y, r.w))
    && (forall i :: 0 <= i < |before| && (i < r.off || r.At(0, rows, 0) <= i) ==> after[i] == before[i])
  }

  /** Every visible delta is in place. */
  ghost predicate AllDeltas(o: Order, s: seq<uint8>, g: Grid, t: seq<uint8>, q: Grid, d: seq<uint8>, r: Grid)
    requires Matching(o, s, g, t, q, d, r)
  {
    forall x, y :: 0 <= x < r.w && 0 <= y < r.h ==> Sample(d, r, x, y, 0) == PixelDelta(o, s, g, t, q, x, y)
  }

  lemma AllRowsDone(o: Order, s: seq<uint8>, g: Grid, t: seq<uint8>, q: Grid, before: seq<uint8>, d: seq<uint8>, r: Grid)
    requires Matching(o, s, g, t, q, before, r) && DeltaUpTo(o, s, g, t, q, before, d, r, r.h)
    ensures AllDeltas(o, s, g, t, q, d, r)
  {
    forall x, y | 0 <= x < r.w && 0 <= y < r.h ensures Sample(d, r, x, y, 0) == PixelDelta(o, s, g, t, q, x, y) {
      assert RowDone(o, s, g, t, q, d, r, y, r.w);
    }
  }

  /** One helper call per row, each plane at its own stride. The unrolled helper leaves the same
      visible deltas as the plain one, and what it writes past the width stays in its own row. */
  method DeltaRows(o: Order, fast: bool, a: array<uint8>, g: Grid, b: array<uint8>, q: Grid, dst: array<uint8>, r: Grid)
    requires dst != a && dst != b && Matching(o, a[..], g, b[..], q, dst[..], r)
    requires fast ==> Matching(o, a[..], Widened(o, g, g.w), b[..], Widened(o, q, q.w), dst[..], Widened(o, r, r.w))
    modifies dst
    ensures AllDeltas(o, a[..], g, b[..], q, dst[..], r)
    ensures forall i :: 0 <= i < dst.Length && (i < r.off || r.At(0, r.h, 0) <= i) ==> dst[i] == old(dst[i])
  {
    ghost var start := dst[..];
    for y := 0 to r.h
      invariant DeltaUpTo(o, a[..], g, b[..], q, start, dst[..], r, y)
    {
      ghost var before := dst[..];
      if fast {
        FastRow(o, a, Widened(o, g, g.w), b, Widened(o, q, q.w), dst, Widened(o, r, r.w), y, r.w);
        Narrowed(o, a[..], g, b[..], q, before, dst[..], r, y);
      } else {
        StdRow(o, a, g, b, q, dst, r, y);
      }
      RowAdded(o, a[..], g, b[..], q, start, before, dst[..], r, y);
    }
    AllRowsDone(o, a[..], g, b[..], q, start, dst[..], r);
  }

  lemma Narrowed(o: Order, s: seq<uint8>, g: Grid, t: seq<uint8>, q: Grid, before: seq<uint8>, after: seq<uint8>, r: Grid, y: int)
    requires Matching(o, s, g, t, q, after, r) && 0 <= y < r.h
    requires Matching(o, s, Widened(o, g, g.w), t, Widened(o, q, q.w), after, Widened(o, r, r.w))
    requires RowDone(o, s, Widened(o, g, g.w), t, Widened(o, q, q.w), after, Widened(o, r, r.w), y, Widened(o, r, r.w).w)
    requires SameButRow(before, after, Widened(o, r, r.w), y)
    ensures RowDone(o, s, g, t, q, after, r, y, r.w)
    ensures SameButRow(before, after, r, y)
  {
    if o.Gray? { RoundUpBy16(r.w); } else { RoundUpBy4(r.w); }
    forall x | 0 <= x < r.w ensures Sample(after, r, x, y, 0) == PixelDelta(o, s, g, t, q, x, y) {
      assert Sample(after, r, x, y, 0) == Sample(after, Widened(o, r, r.w), x, y, 0);
      SameDelta(o, s, g, t, q, x, y);
    }
  }

  lemma SameDelta(o: Order, s: seq<uint8>, g: Grid, t: seq<uint8>, q: Grid, x: int, y: int)
    requires g.Fits(|s|) && q.Fits(|t|) && g.bpp == q.bpp == o.Bytes() && g.w == q.w && g.h == q.h
    requires Widened(o, g, g.w).Fits(|s|) && Widened(o, q, q.w).Fits(|t|)
    requires 0 <= x < g.w <= RoundUp(g.w, o.Group()) && 0 <= y < g.h
    ensures PixelDelta(o, s, Widened(o, g, g.w), t, Widened(o, q, q.w), x, y) == PixelDelta(o, s, g, t, q, x, y)
  {
  }

  lemma RowAdded(o: Order, s: seq<uint8>, g: Grid, t: seq<uint8>, q: Grid,
                 start: seq<uint8>, before: seq<uint8>, after: seq<uint8>, r: Grid, y: int)
    requires Matching(o, s, g, t, q, start, r) && 0 <= y < r.h
    requires DeltaUpTo(o, s, g, t, q, start, before, r, y)
    requires SameButRow(before, after, r, y) && RowDone(o, s, g, t, q, after, r, y, r.w)
    ensures DeltaUpTo(o, s, g, t, q, start, after, r, y + 1)
  {
    TimesMono(0, y, r.stride);
    forall y' | 0 <= y' < y ensures RowDone(o, s, g, t, q, after, r, y', r.w) {
      EarlierRowKept(before, after, r, y', y);
      assert RowDone(o, s, g, t, q, before, r, y', r.w);
    }
  }

  lemma EarlierRowKept(before: seq<uint8>, after: seq<uint8>, r: Grid, y': int, y: int)
    requires r.Fits(|before|) && r.bpp == 1 && 0 <= y' < y < r.h
    requires SameButRow(before, after, r, y)
    ensures forall x :: 0 <= x < r.w ==> Sample(after, r, x, y', 0) == Sample(before, r, x, y', 0)
  {
    TimesMono(y' + 1, y, r.stride);
    forall x | 0 <= x < r.w ensures Sample(after, r, x, y', 0) == Sample(before, r, x, y', 0) {
      AtInRow(r, |before|, x, y');
      AtInBounds(r, |before|, x, y', 0);
    }
  }
}
