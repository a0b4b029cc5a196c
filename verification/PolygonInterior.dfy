/** What the inside of a polygon is, in terms of its vertices alone and in whole numbers, and that
    the edges of the scan-line fill agree with it. */
module PolygonInterior {
  import opened PolygonEdges

  /** The side from p to q meets line y: its lower end does, its upper end does not. */
  predicate Meets(p: Vertex, q: Vertex, y: int)
  {
    p.y <= y < q.y || q.y <= y < p.y
  }

  /** Where it meets the line, the side is left of column x: the straight line through both ends,
      multiplied out. */
  predicate LeftAt(p: Vertex, q: Vertex, y: int, x: int)
  {
    if p.y < q.y then (y - p.y) * (q.x - p.x) < (x - p.x) * (q.y - p.y)
    else (y - q.y) * (p.x - q.x) < (x - q.x) * (p.y - q.y)
  }

  /** The side of a closed polygon that ends at vertex j begins at the one before it. */
  function Previous(vs: seq<Vertex>, j: nat): Vertex
    requires j < |vs|
  {
    vs[if j == 0 then |vs| - 1 else j - 1]
  }

  predicate MeetsLeft(p: Vertex, q: Vertex, y: int, x: int)
  {
    Meets(p, q, y) && LeftAt(p, q, y, x)
  }

  /** How many of the sides that end at the first n vertices meet line y left of column x. */
  function SidesLeft(vs: seq<Vertex>, n: nat, y: int, x: int): nat
    requires n <= |vs|
  {
    if n == 0 then 0
    else if MeetsLeft(Previous(vs, n - 1), vs[n - 1], y, x) then SidesLeft(vs, n - 1, y, x) + 1
    else SidesLeft(vs, n - 1, y, x)
  }

  /** One of them meets line y within pixel column x. */
  predicate SideThrough(vs: seq<Vertex>, n: nat, y: int, x: int)
    requires n <= |vs|
  {
    n > 0 &&
      var (p, q) := (Previous(vs, n - 1), vs[n - 1]);
      SideThrough(vs, n - 1, y, x) || (Meets(p, q, y) && !LeftAt(p, q, y, x) && LeftAt(p, q, y, x + 1))
  }

  /** The even-odd rule on the vertices: an odd number of sides lie left of the pixel, or one goes
      through it. */
  predicate Inside(vs: seq<Vertex>, x: int, y: int)
  {
    SidesLeft(vs, |vs|, y, x) % 2 == 1 || SideThrough(vs, |vs|, y, x)
  }

  // ---------------------------------------------------------------- edges lie on their sides

  /** For non-negative numbers Trunc rounds down. */
  lemma TruncIs(r: real)
    ensures r >= 0.0 ==> Trunc(r) as real <= r < Trunc(r) as real + 1.0
    ensures r <= 0.0 ==> Trunc(r) as real - 1.0 < r <= Trunc(r) as real
  {
  }

  lemma QuotientTimes(a: real, d: real)
    requires d != 0.0
    ensures a / d * d == a
  {
  }

  lemma SlopeTimes(p: Vertex, q: Vertex)
    requires p.y != q.y
    ensures EdgeOf(p, q).slope * (q.y - p.y) as real == (q.x - p.x) as real
  {
    QuotientTimes((q.x - p.x) as real, (q.y - p.y) as real);
  }

  lemma Distribute(n: real, s: real, d: real)
    ensures (n * s) * d == n * (s * d)
  {
  }

  /** Between its ends an edge is on the straight line from p to q. */
  lemma EdgeOnSide(p: Vertex, q: Vertex, y: int)
    requires p.y != q.y && Min(p.y, q.y) <= y <= Max(p.y, q.y)
    ensures (CrossX(EdgeOf(p, q), y) - p.x as real) * (q.y - p.y) as real == (y - p.y) as real * (q.x - p.x) as real
  {
    var e, d := EdgeOf(p, q), (q.y - p.y) as real;
    var n := (y - e.minY) as real;
    CrossXClosedForm(e, y - e.minY);
    SlopeTimes(p, q);
    assert CrossX(e, y) == e.minX + n * e.slope;
    Distribute(n, e.slope, d);
    if p.y < q.y {
      assert CrossX(e, y) - p.x as real == n * e.slope;
    } else {
      assert CrossX(e, y) - p.x as real == (q.x - p.x) as real + n * e.slope;
      assert ((q.x - p.x) as real + n * e.slope) * d == (q.x - p.x) as real * d + (n * e.slope) * d;
      assert (q.x - p.x) as real * d + n * (q.x - p.x) as real == (d + n) * (q.x - p.x) as real;
    }
  }

  /** In particular it goes through both ends. */
  lemma EdgeEnds(p: Vertex, q: Vertex)
    requires p.y != q.y
    ensures CrossX(EdgeOf(p, q), p.y) == p.x as real && CrossX(EdgeOf(p, q), q.y) == q.x as real
  {
    var e := EdgeOf(p, q);
    SlopeTimes(p, q);
    CrossXClosedForm(e, p.y - e.minY);
    CrossXClosedForm(e, q.y - e.minY);
  }

  lemma ScaledLess(a: real, b: real, d: real)
    requires d > 0.0
    ensures a < b <==> a * d < b * d
  {
  }

  lemma IntProduct(a: int, b: int)
    ensures a as real * b as real == (a * b) as real
  {
  }

  /** Left of a column means so for the edge exactly when it does for the vertices. */
  lemma EdgeLeftIff(p: Vertex, q: Vertex, y: int, x: int)
    requires Meets(p, q, y)
    ensures CrossX(EdgeOf(p, q), y) < x as real <==> LeftAt(p, q, y, x)
  {
    if p.y < q.y { UpwardLeftIff(p, q, y, x); } else { EdgeReversed(p, q); UpwardLeftIff(q, p, y, x); }
  }

  lemma UpwardLeftIff(p: Vertex, q: Vertex, y: int, x: int)
    requires p.y <= y < q.y
    ensures CrossX(EdgeOf(p, q), y) < x as real <==> (y - p.y) * (q.x - p.x) < (x - p.x) * (q.y - p.y)
  {
    var c, d := CrossX(EdgeOf(p, q), y), q.y - p.y;
    EdgeOnSide(p, q, y);
    ScaledLess(c - p.x as real, (x - p.x) as real, d as real);
    IntProduct(y - p.y, q.x - p.x);
    IntProduct(x - p.x, d);
  }

  lemma EdgeReversed(p: Vertex, q: Vertex)
    requires p.y != q.y
    ensures EdgeOf(p, q) == EdgeOf(q, p)
  {
    assert (q.x - p.x) as real == -((p.x - q.x) as real) && (q.y - p.y) as real == -((p.y - q.y) as real);
    NegatedQuotient((p.x - q.x) as real, (p.y - q.y) as real);
  }

  lemma NegatedQuotient(a: real, d: real)
    requires d != 0.0
    ensures (-a) / (-d) == a / d
  {
    QuotientTimes(a, d);
    QuotientTimes(-a, -d);
    assert ((-a) / (-d)) * d == a;
    assert ((-a) / (-d) - a / d) * d == 0.0;
  }

  /** The pixel column of an edge's crossing, by the vertices. */
  lemma ColumnIff(p: Vertex, q: Vertex, y: int, x: int)
    requires Meets(p, q, y) && 0 <= p.x && 0 <= q.x
    ensures Trunc(CrossX(EdgeOf(p, q), y)) < x <==> LeftAt(p, q, y, x)
    ensures Trunc(CrossX(EdgeOf(p, q), y)) == x <==> !LeftAt(p, q, y, x) && LeftAt(p, q, y, x + 1)
  {
    var c := CrossX(EdgeOf(p, q), y);
    EdgeOfWithin(p, q, 0, Max(p.x, q.x), Min(p.y, q.y), Max(p.y, q.y));
    CrossXBetween(EdgeOf(p, q), y, 0, Max(p.x, q.x), Min(p.y, q.y), Max(p.y, q.y));
    TruncIs(c);
    EdgeLeftIff(p, q, y, x);
    EdgeLeftIff(p, q, y, x + 1);
  }

  /** One more side, horizontal or not, counts the same among the edges as among the vertices. */
  lemma SideCounts(p: Vertex, q: Vertex, edges: seq<Edge>, y: int, x: int)
    requires 0 <= p.x && 0 <= q.x
    ensures CrossingsLeftOf(WithSide(edges, p, q), y, x)
         == if MeetsLeft(p, q, y, x) then CrossingsLeftOf(edges, y, x) + 1 else CrossingsLeftOf(edges, y, x)
  {
    if Meets(p, q, y) { ColumnIff(p, q, y, x); }
    if p.y != q.y { EdgeAppended(edges, EdgeOf(p, q), y, x); }
  }

  lemma SideGoesThrough(p: Vertex, q: Vertex, edges: seq<Edge>, y: int, x: int)
    requires 0 <= p.x && 0 <= q.x
    ensures OnCrossing(WithSide(edges, p, q), y, x) <==>
      OnCrossing(edges, y, x) || (Meets(p, q, y) && !LeftAt(p, q, y, x) && LeftAt(p, q, y, x + 1))
  {
    if Meets(p, q, y) { ColumnIff(p, q, y, x); }
    if p.y != q.y { EdgeAppended(edges, EdgeOf(p, q), y, x); }
  }

  function WithSide(edges: seq<Edge>, p: Vertex, q: Vertex): seq<Edge>
  {
    if p.y == q.y then edges else edges + [EdgeOf(p, q)]
  }

  lemma NextEdges(vs: seq<Vertex>, n: nat)
    requires n < |vs|
    ensures EdgesUpTo(vs, n + 1) == WithSide(EdgesUpTo(vs, n), Previous(vs, n), vs[n])
  {
  }

  lemma {:induction false} LeftCountsAgree(vs: seq<Vertex>, n: nat, y: int, x: int)
    requires n <= |vs| && forall i :: 0 <= i < |vs| ==> 0 <= vs[i].x
    ensures CrossingsLeftOf(EdgesUpTo(vs, n), y, x) == SidesLeft(vs, n, y, x)
  {
    if n > 0 {
      LeftCountsAgree(vs, n - 1, y, x);
      NextEdges(vs, n - 1);
      SideCounts(Previous(vs, n - 1), vs[n - 1], EdgesUpTo(vs, n - 1), y, x);
    }
  }

  lemma {:induction false} ThroughAgrees(vs: seq<Vertex>, n: nat, y: int, x: int)
    requires n <= |vs| && forall i :: 0 <= i < |vs| ==> 0 <= vs[i].x
    ensures OnCrossing(EdgesUpTo(vs, n), y, x) <==> SideThrough(vs, n, y, x)
  {
    if n > 0 {
      ThroughAgrees(vs, n - 1, y, x);
      NextEdges(vs, n - 1);
      SideGoesThrough(Previous(vs, n - 1), vs[n - 1], EdgesUpTo(vs, n - 1), y, x);
    }
  }

  lemma EdgeAppended(edges: seq<Edge>, e: Edge, y: int, x: int)
    ensures CrossingsLeftOf(edges + [e], y, x)
         == CrossingsLeftOf(edges, y, x) + if Crosses(e, y) && Trunc(CrossX(e, y)) < x then 1 else 0
    ensures OnCrossing(edges + [e], y, x) <==> OnCrossing(edges, y, x) || (Crosses(e, y) && Trunc(CrossX(e, y)) == x)
  {
    var longer := edges + [e];
    assert longer[..|edges|] == edges && longer[|edges|] == e;
    if i :| 0 <= i < |edges| && Crosses(edges[i], y) && Trunc(CrossX(edges[i], y)) == x {
      assert longer[i] == edges[i];
    }
  }

  /** The pixels that the fill covers are those inside the polygon of the vertices. */
  lemma CoveredIsInside(vs: seq<Vertex>, x: int, y: int)
    requires forall i :: 0 <= i < |vs| ==> 0 <= vs[i].x
    ensures Covered(Sides(vs), y, x) <==> Inside(vs, x, y)
  {
    LeftCountsAgree(vs, |vs|, y, x);
    ThroughAgrees(vs, |vs|, y, x);
  }

  /** The triangle with corners (0, 0), (10, 10) and (0, 10): line y goes from column 0 to y. */
  lemma TriangleInside(x: int, y: int)
    ensures
      var vs := [Vertex(0, 0), Vertex(10, 10), Vertex(0, 10)];
      Inside(vs, x, y) <==> 0 <= x <= y < 10
  {
    var vs := [Vertex(0, 0), Vertex(10, 10), Vertex(0, 10)];
    assert Previous(vs, 0) == Vertex(0, 10) && Previous(vs, 1) == Vertex(0, 0) && Previous(vs, 2) == Vertex(10, 10);
    assert SidesLeft(vs, 0, y, x) == 0;
    assert SidesLeft(vs, 1, y, x) == if 0 <= y < 10 && 0 < x then 1 else 0;
    assert SidesLeft(vs, 2, y, x) == SidesLeft(vs, 1, y, x) + if 0 <= y < 10 && y < x then 1 else 0;
    assert SidesLeft(vs, 3, y, x) == SidesLeft(vs, 2, y, x);
    assert !SideThrough(vs, 0, y, x);
    assert SideThrough(vs, 1, y, x) <==> 0 <= y < 10 && x == 0;
    assert SideThrough(vs, 2, y, x) <==> SideThrough(vs, 1, y, x) || (0 <= y < 10 && x == y);
    assert SideThrough(vs, 3, y, x) <==> SideThrough(vs, 2, y, x);
  }
}
