/** Strided byte planes: where a sample lives in a buffer, and what it means for a loop
    to have repainted exactly some of the samples. */
module Planes {
  import opened Sums

  type uint8 = x: int | 0 <= x < 256

  /** A plane of w x h samples of bpp bytes each. Rows are `stride` bytes apart; the bytes of a
      row after the last sample are padding. The last row need not be padded. */
  datatype Grid = Grid(off: nat, stride: nat, w: nat, h: nat, bpp: nat)
  {
    ghost predicate Fits(len: int)
    {
      && 0 < bpp
      && Times(w, bpp) <= stride
      && (0 < h ==> off + Times(h - 1, stride) + Times(w, bpp) <= len)
    }

    predicate In(x: int, y: int, b: int)
    {
      0 <= x < w && 0 <= y < h && 0 <= b < bpp
    }

    /** Address of byte b of sample (x, y). */
    function At(x: int, y: int, b: int): int
    {
      off + Times(y, stride) + Times(x, bpp) + b
    }

    /** One past the last sample byte. */
    function End(): int
    {
      if h == 0 then off else off + Times(h - 1, stride) + Times(w, bpp)
    }

    ghost predicate Covers(i: int)
    {
      exists x, y, b :: In(x, y, b) && At(x, y, b) == i
    }
  }

  lemma AtInBounds(g: Grid, len: int, x: int, y: int, b: int)
    requires g.Fits(len) && g.In(x, y, b)
    ensures g.off <= g.At(x, y, b) < g.End() <= len
  {
    TimesMono(y, g.h - 1, g.stride);
    TimesMono(x + 1, g.w, g.bpp);
    TimesMono(0, x, g.bpp);
  }

  lemma RowApart(g: Grid, x: int, y: int, b: int, x': int, y': int, b': int)
    requires 0 < g.bpp && Times(g.w, g.bpp) <= g.stride
    requires g.In(x, y, b) && g.In(x', y', b') && y < y'
    ensures g.At(x, y, b) < g.At(x', y', b')
  {
    TimesMono(y + 1, y', g.stride);
    TimesMono(x + 1, g.w, g.bpp);
    TimesMono(0, x', g.bpp);
  }

  lemma ColumnApart(g: Grid, x: int, y: int, b: int, x': int, b': int)
    requires 0 < g.bpp
    requires g.In(x, y, b) && g.In(x', y, b') && x < x'
    ensures g.At(x, y, b) < g.At(x', y, b')
  {
    TimesMono(x + 1, x', g.bpp);
  }

  /** No two bytes of a plane share an address, whatever the stride. */
  lemma AtInjective(g: Grid, x: int, y: int, b: int, x': int, y': int, b': int)
    requires 0 < g.bpp && Times(g.w, g.bpp) <= g.stride
    requires g.In(x, y, b) && g.In(x', y', b')
    requires g.At(x, y, b) == g.At(x', y', b')
    ensures x == x' && y == y' && b == b'
  {
    if y < y' {
      RowApart(g, x, y, b, x', y', b');
    } else if y' < y {
      RowApart(g, x', y', b', x, y, b);
    } else if x < x' {
      ColumnApart(g, x, y, b, x', b');
    } else if x' < x {
      ColumnApart(g, x', y, b', x, b);
    }
  }

  lemma GridFacts(g: Grid, len: int)
    requires g.Fits(len)
    ensures forall x, y, b :: g.In(x, y, b) ==> g.off <= g.At(x, y, b) < g.End() <= len
    ensures forall x, y, b, x', y', b' {:trigger g.At(x, y, b), g.At(x', y', b')} ::
      g.In(x, y, b) && g.In(x', y', b') && g.At(x, y, b) == g.At(x', y', b') ==> x == x' && y == y' && b == b'
  {
    forall x, y, b | g.In(x, y, b) ensures g.off <= g.At(x, y, b) < g.End() <= len {
      AtInBounds(g, len, x, y, b);
    }
    forall x, y, b, x', y', b' {:trigger g.At(x, y, b), g.At(x', y', b')}
      | g.In(x, y, b) && g.In(x', y', b') && g.At(x, y, b) == g.At(x', y', b')
      ensures x == x' && y == y' && b == b'
    {
      AtInjective(g, x, y, b, x', y', b');
    }
  }

  /** Byte b of sample (x, y) of the plane g of a buffer. */
  function Sample(s: seq<uint8>, g: Grid, x: int, y: int, b: int): uint8
    requires g.Fits(|s|) && g.In(x, y, b)
  {
    AtInBounds(g, |s|, x, y, b);
    s[g.At(x, y, b)]
  }

  /** On the plane g, after is before with colour put on exactly the samples that satisfy p. */
  ghost predicate PaintedIn(before: seq<uint8>, after: seq<uint8>, g: Grid, colour: seq<uint8>, p: (int, int) -> bool)
    requires |colour| == g.bpp && |before| == |after| && g.Fits(|before|)
  {
    forall x, y, b :: g.In(x, y, b) ==>
      Sample(after, g, x, y, b) == if p(x, y) then colour[b] else Sample(before, g, x, y, b)
  }

  /** Painted as above, and no other byte of the buffer, padding included, has changed. */
  ghost predicate Painted(before: seq<uint8>, after: seq<uint8>, g: Grid, colour: seq<uint8>, p: (int, int) -> bool)
    requires |colour| == g.bpp && g.Fits(|before|)
  {
    && |after| == |before|
    && PaintedIn(before, after, g, colour, p)
    && (forall i :: 0 <= i < |before| && !g.Covers(i) ==> after[i] == before[i])
  }

  /** Planes that follow one another in a buffer share no byte. */
  lemma PlanesApart(g: Grid, q: Grid, len: int)
    requires g.Fits(len) && q.Fits(len) && g.End() <= q.off
    ensures forall x, y, b :: q.In(x, y, b) ==> !g.Covers(q.At(x, y, b))
    ensures forall x, y, b :: g.In(x, y, b) ==> !q.Covers(g.At(x, y, b))
  {
    GridFacts(g, len);
    GridFacts(q, len);
  }

  lemma PaintedNothing(s: seq<uint8>, g: Grid, colour: seq<uint8>, p: (int, int) -> bool)
    requires |colour| == g.bpp && g.Fits(|s|)
    requires forall x, y :: 0 <= x < g.w && 0 <= y < g.h ==> !p(x, y)
    ensures Painted(s, s, g, colour, p)
  {
  }

  /** Painting twice in the same colour paints the union. */
  lemma PaintedThen(s0: seq<uint8>, s1: seq<uint8>, s2: seq<uint8>, g: Grid, colour: seq<uint8>,
                    p: (int, int) -> bool, q: (int, int) -> bool, r: (int, int) -> bool)
    requires |colour| == g.bpp && g.Fits(|s0|) && g.Fits(|s1|)
    requires Painted(s0, s1, g, colour, p) && Painted(s1, s2, g, colour, q)
    requires forall x, y :: 0 <= x < g.w && 0 <= y < g.h ==> (r(x, y) <==> p(x, y) || q(x, y))
    ensures Painted(s0, s2, g, colour, r)
  {
  }

  lemma PaintedSame(s0: seq<uint8>, s1: seq<uint8>, g: Grid, colour: seq<uint8>,
                    p: (int, int) -> bool, q: (int, int) -> bool)
    requires |colour| == g.bpp && g.Fits(|s0|) && Painted(s0, s1, g, colour, p)
    requires forall x, y :: 0 <= x < g.w && 0 <= y < g.h ==> (p(x, y) <==> q(x, y))
    ensures Painted(s0, s1, g, colour, q)
  {
  }

  /** One sample, byte by byte. */
  method PaintPixel(buffer: array<uint8>, g: Grid, x: int, y: int, colour: seq<uint8>)
    requires g.Fits(buffer.Length) && |colour| == g.bpp
    requires 0 <= x < g.w && 0 <= y < g.h
    modifies buffer
    ensures Painted(old(buffer[..]), buffer[..], g, colour, (px, py) => px == x && py == y)
  {
    GridFacts(g, buffer.Length);
    for b := 0 to g.bpp
      invariant forall i :: 0 <= i < buffer.Length && !g.Covers(i) ==> buffer[i] == old(buffer[i])
      invariant forall px, py, pb :: g.In(px, py, pb) ==>
        Sample(buffer[..], g, px, py, pb)
        == if px == x && py == y && pb < b then colour[pb] else Sample(old(buffer[..]), g, px, py, pb)
    {
      assert g.In(x, y, b);
      buffer[g.At(x, y, b)] := colour[b];
    }
  }
}
