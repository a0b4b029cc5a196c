/** Edges of a polygon, the tables of the scan-line fill as filtered sequences of edges, and the
    combinatorics behind them. Doubles are modelled as exact reals. */
module PolygonEdges {
  import opened Planes
  import opened Wrappers

  datatype Vertex = Vertex(x: int, y: int)

  /** minX is the crossing with the current scan line once the edge is active. */
  datatype Edge = Edge(minY: int, maxY: int, minX: real, slope: real)

  // ---------------------------------------------------------------- geometry

  function Min(a: int, b: int): int { if a < b then a else b }

  function Max(a: int, b: int): int { if a < b then b else a }

  /** C++ conversion of a double to an integer: towards zero. */
  function Trunc(r: real): int
  {
    if r >= 0.0 then r.Floor else -((-r).Floor)
  }

  function EdgeOf(p: Vertex, q: Vertex): Edge
    requires p.y != q.y
  {
    Edge(Min(p.y, q.y), Max(p.y, q.y), if p.y < q.y then (p.x as real) else (q.x as real),
         ((q.x - p.x) as real) / ((q.y - p.y) as real))
  }

  function Before(vs: seq<Vertex>, j: nat): Vertex
    requires j <= |vs| && 0 < |vs|
  {
    if j == 0 then vs[|vs| - 1] else vs[j - 1]
  }

  /** The non-horizontal sides of the closed polygon that end at one of its first j vertices. */
  function EdgesUpTo(vs: seq<Vertex>, j: nat): seq<Edge>
    requires j <= |vs|
  {
    if j == 0 then []
    else if Before(vs, j - 1).y == vs[j - 1].y then EdgesUpTo(vs, j - 1)
    else EdgesUpTo(vs, j - 1) + [EdgeOf(Before(vs, j - 1), vs[j - 1])]
  }

  function Sides(vs: seq<Vertex>): seq<Edge>
  {
    EdgesUpTo(vs, |vs|)
  }

  /** n slopes added up, as the line loop adds them. */
  function Steps(n: int, slope: real): real
  {
    if n <= 0 then 0.0 else Steps(n - 1, slope) + slope
  }

  /** Where the edge crosses line y; CrossXClosedForm gives it as a product. */
  function CrossX(e: Edge, y: int): real
  {
    e.minX + Steps(y - e.minY, e.slope)
  }

  lemma {:induction false} StepsIsProduct(n: nat, slope: real)
    ensures Steps(n, slope) == n as real * slope
  {
    if n > 0 {
      StepsIsProduct(n - 1, slope);
      assert n as real * slope == (n - 1) as real * slope + slope;
    }
  }

  lemma CrossXClosedForm(e: Edge, n: nat)
    ensures CrossX(e, e.minY + n) == e.minX + n as real * e.slope
  {
    StepsIsProduct(n, e.slope);
  }

  predicate Crosses(e: Edge, y: int)
  {
    e.minY <= y < e.maxY
  }

  /** How many sides cross line y in a pixel column strictly left of x. */
  function CrossingsLeftOf(edges: seq<Edge>, y: int, x: int): nat
  {
    if edges == [] then 0
    else
      var e := edges[|edges| - 1];
      CrossingsLeftOf(edges[..|edges| - 1], y, x) + if Crosses(e, y) && Trunc(CrossX(e, y)) < x then 1 else 0
  }

  predicate OnCrossing(edges: seq<Edge>, y: int, x: int)
  {
    exists i :: 0 <= i < |edges| && Crosses(edges[i], y) && Trunc(CrossX(edges[i], y)) == x
  }

  /** The even-odd rule, without any sorting or pairing: a pixel is in the polygon when an odd
      number of sides pass left of it, or when a side passes through it. */
  predicate Covered(edges: seq<Edge>, y: int, x: int)
  {
    CrossingsLeftOf(edges, y, x) % 2 == 1 || OnCrossing(edges, y, x)
  }

  predicate Shaded(vs: seq<Vertex>, density: int, x: int, y: int)
    requires density != 0
  {
    y % density == 0 && x % density == 0 && Covered(Sides(vs), y, x)
  }

  // ------------------------------------------------- tables as filtered sequences

  function Select(s: seq<Edge>, f: Edge -> Option<Edge>): seq<Edge>
  {
    if s == [] then []
    else
      var r := f(s[|s| - 1]);
      Select(s[..|s| - 1], f) + if r.Some? then [r.value] else []
  }

  lemma {:induction false} SelectConcat(a: seq<Edge>, b: seq<Edge>, f: Edge -> Option<Edge>)
    ensures Select(a + b, f) == Select(a, f) + Select(b, f)
  {
    if b == [] {
      assert a + b == a;
    } else {
      assert (a + b)[..|a + b| - 1] == a + b[..|b| - 1];
      SelectConcat(a, b[..|b| - 1], f);
    }
  }

  lemma SelectStep(s: seq<Edge>, k: nat, f: Edge -> Option<Edge>)
    requires k < |s|
    ensures Select(s[..k + 1], f) == Select(s[..k], f) + if f(s[k]).Some? then [f(s[k]).value] else []
  {
    assert s[..k + 1][..k] == s[..k];
  }

  lemma SelectWithout(p: seq<Edge>, e: Edge, q: seq<Edge>, f: Edge -> Option<Edge>)
    ensures multiset(Select(p + [e] + q, f)) == multiset(Select(p + q, f)) + multiset(Select([e], f))
  {
    SelectConcat(p, q, f);
    SelectConcat(p, [e], f);
    SelectConcat(p + [e], q, f);
  }

  lemma MultisetWithout(p: seq<Edge>, e: Edge, q: seq<Edge>)
    ensures multiset(p + q) == multiset(p + [e] + q) - multiset{e}
  {
  }

  lemma FindEdge(s: seq<Edge>, e: Edge) returns (p: seq<Edge>, q: seq<Edge>)
    requires multiset(s)[e] > 0
    ensures s == p + [e] + q && |p| + |q| < |s|
    ensures multiset(p + q) == multiset(s) - multiset{e}
  {
    assert e in s;
    var j :| 0 <= j < |s| && s[j] == e;
    p, q := s[..j], s[j + 1..];
    assert s == p + [e] + q;
    MultisetWithout(p, e, q);
  }

  /** What a filter keeps does not depend on the order of the table. */
  lemma {:induction false} SelectPermuted(a: seq<Edge>, b: seq<Edge>, f: Edge -> Option<Edge>)
    requires multiset(a) == multiset(b)
    ensures multiset(Select(a, f)) == multiset(Select(b, f))
    decreases |a|
  {
    if |a| == 0 {
      assert |b| == |multiset(b)| == |multiset(a)| == 0;
    } else {
      assert a[0] in multiset(a);
      var p, q := FindEdge(a, a[0]);
      var r, t := FindEdge(b, a[0]);
      SelectPermuted(p + q, r + t, f);
      SelectWithout(p, a[0], q, f);
      SelectWithout(r, a[0], t, f);
    }
  }

  lemma SelectPermutedLength(a: seq<Edge>, b: seq<Edge>, f: Edge -> Option<Edge>)
    requires multiset(a) == multiset(b)
    ensures |Select(a, f)| == |Select(b, f)|
  {
    SelectPermuted(a, b, f);
    assert |multiset(Select(a, f))| == |multiset(Select(b, f))|;
  }

  /** The edge as the active table holds it while line y is drawn. */
  function Live(y: int): Edge -> Option<Edge>
  {
    (e: Edge) => if Crosses(e, y) then Some(e.(minX := CrossX(e, y))) else None
  }

  function Advance(y: int): Edge -> Option<Edge>
  {
    (e: Edge) => if y >= e.maxY then None else Some(e.(minX := e.minX + e.slope))
  }

  function Starting(y: int): Edge -> Option<Edge>
  {
    (e: Edge) => if e.minY == y then Some(e) else None
  }

  function NotStarting(y: int): Edge -> Option<Edge>
  {
    (e: Edge) => if e.minY == y then None else Some(e)
  }

  function NotBefore(y: int): Edge -> Option<Edge>
  {
    (e: Edge) => if e.minY >= y then Some(e) else None
  }

  function LeftOf(x: int): Edge -> Option<Edge>
  {
    (e: Edge) => if Trunc(e.minX) < x then Some(e) else None
  }

  ghost predicate Proper(edges: seq<Edge>)
  {
    forall i :: 0 <= i < |edges| ==> edges[i].minY < edges[i].maxY
  }

  lemma SelectSingle(e: Edge, f: Edge -> Option<Edge>)
    ensures Select([e], f) == if f(e).Some? then [f(e).value] else []
  {
    assert [e][..0] == [];
  }

  lemma AdvanceLive(e: Edge, y: int)
    requires Crosses(e, y - 1)
    ensures Advance(y)(e.(minX := CrossX(e, y - 1))) == Live(y)(e)
  {
  }

  lemma LiveStepOne(e: Edge, y: int)
    requires e.minY < e.maxY
    ensures multiset(Select(Select([e], Live(y - 1)), Advance(y))) + multiset(Select([e], Starting(y)))
         == multiset(Select([e], Live(y)))
  {
    var before, now := Select([e], Live(y - 1)), Select([e], Live(y));
    SelectSingle(e, Live(y - 1));
    SelectSingle(e, Live(y));
    SelectSingle(e, Starting(y));
    if Crosses(e, y - 1) {
      var l := e.(minX := CrossX(e, y - 1));
      assert Live(y - 1)(e) == Some(l);
      SelectSingle(l, Advance(y));
      AdvanceLive(e, y);
      assert multiset(Select(before, Advance(y))) == multiset(now);
    } else {
      assert before == [];
      assert Select(before, Advance(y)) == [];
    }
  }

  lemma SumOfParts(a1: seq<Edge>, a2: seq<Edge>, b1: seq<Edge>, b2: seq<Edge>, c1: seq<Edge>, c2: seq<Edge>)
    requires multiset(a1) + multiset(b1) == multiset(c1) && multiset(a2) + multiset(b2) == multiset(c2)
    ensures multiset(a1 + a2) + multiset(b1 + b2) == multiset(c1 + c2)
  {
  }

  /** One turn of the table: erasing finished edges, stepping the others by their slope and
      adding the ones that begin takes the live edges of line y - 1 to those of line y. */
  lemma {:induction false} LiveStep(edges: seq<Edge>, y: int)
    requires Proper(edges)
    ensures multiset(Select(Select(edges, Live(y - 1)), Advance(y))) + multiset(Select(edges, Starting(y)))
         == multiset(Select(edges, Live(y)))
    decreases |edges|
  {
    if edges != [] {
      var e := edges[|edges| - 1];
      var rest := edges[..|edges| - 1];
      assert rest + [e] == edges;
      SelectConcat(rest, [e], Live(y - 1));
      SelectConcat(Select(rest, Live(y - 1)), Select([e], Live(y - 1)), Advance(y));
      SelectConcat(rest, [e], Live(y));
      SelectConcat(rest, [e], Starting(y));
      LiveStep(rest, y);
      LiveStepOne(e, y);
      SumOfParts(Select(Select(rest, Live(y - 1)), Advance(y)), Select(Select([e], Live(y - 1)), Advance(y)),
                 Select(rest, Starting(y)), Select([e], Starting(y)), Select(rest, Live(y)), Select([e], Live(y)));
    }
  }

  lemma {:induction false} PendingStep(edges: seq<Edge>, y: int)
    ensures Select(Select(edges, NotBefore(y)), Starting(y)) == Select(edges, Starting(y))
    ensures Select(Select(edges, NotBefore(y)), NotStarting(y)) == Select(edges, NotBefore(y + 1))
  {
    if edges != [] {
      var e := edges[|edges| - 1];
      var rest := edges[..|edges| - 1];
      PendingStep(rest, y);
      var tail := if e.minY >= y then [e] else [];
      SelectConcat(Select(rest, NotBefore(y)), tail, Starting(y));
      SelectConcat(Select(rest, NotBefore(y)), tail, NotStarting(y));
    }
  }

  lemma {:induction false} SelectAll(s: seq<Edge>, f: Edge -> Option<Edge>)
    requires forall i :: 0 <= i < |s| ==> f(s[i]) == Some(s[i])
    ensures Select(s, f) == s
  {
    if s != [] { SelectAll(s[..|s| - 1], f); }
  }

  lemma {:induction false} SelectNone(s: seq<Edge>, f: Edge -> Option<Edge>)
    requires forall i :: 0 <= i < |s| ==> f(s[i]) == None
    ensures Select(s, f) == []
  {
    if s != [] { SelectNone(s[..|s| - 1], f); }
  }

  lemma {:induction false} SelectMembers(s: seq<Edge>, f: Edge -> Option<Edge>)
    ensures forall r :: r in Select(s, f) ==> exists i :: 0 <= i < |s| && f(s[i]) == Some(r)
    ensures forall i :: 0 <= i < |s| && f(s[i]).Some? ==> f(s[i]).value in Select(s, f)
  {
    if s != [] {
      var s' := s[..|s| - 1];
      SelectMembers(s', f);
      assert f(s[|s| - 1]).Some? ==> f(s[|s| - 1]).value in Select(s, f);
      forall i | 0 <= i < |s| && f(s[i]).Some? ensures f(s[i]).value in Select(s, f) {
        if i < |s'| { assert s'[i] == s[i]; }
      }
      forall r | r in Select(s, f) ensures exists i :: 0 <= i < |s| && f(s[i]) == Some(r) {
        if r in Select(s', f) {
          var i :| 0 <= i < |s'| && f(s'[i]) == Some(r);
          assert f(s[i]) == Some(r);
        }
      }
    }
  }

  // ---------------------------------------------------------------- parity

  ghost predicate BetweenTopAndBottom(edges: seq<Edge>, y: int)
  {
    && (exists i :: 0 <= i < |edges| && edges[i].minY <= y)
    && (exists i :: 0 <= i < |edges| && y < edges[i].maxY)
  }

  predicate AtOrAbove(v: Vertex, y: int) { v.y <= y }

  lemma SideCrosses(p: Vertex, q: Vertex, y: int)
    requires p.y != q.y
    ensures Crosses(EdgeOf(p, q), y) <==> AtOrAbove(p, y) != AtOrAbove(q, y)
  {
  }

  /** The side that ends at vertex j - 1 is live exactly when its ends are on different sides. */
  lemma LiveUpToStep(vs: seq<Vertex>, j: nat, y: int)
    requires 0 < j <= |vs|
    ensures |Select(EdgesUpTo(vs, j), Live(y))| == |Select(EdgesUpTo(vs, j - 1), Live(y))|
      + if AtOrAbove(Before(vs, j - 1), y) != AtOrAbove(Before(vs, j), y) then 1 else 0
  {
    if Before(vs, j - 1).y != vs[j - 1].y {
      var e := EdgeOf(Before(vs, j - 1), vs[j - 1]);
      SelectConcat(EdgesUpTo(vs, j - 1), [e], Live(y));
      SelectSingle(e, Live(y));
      SideCrosses(Before(vs, j - 1), vs[j - 1], y);
    }
  }

  lemma OddAfterOneMore(n: nat)
    ensures (n + 1) % 2 == 1 <==> n % 2 != 1
  {
  }

  /** Walking along the boundary, line y has been crossed an odd number of times exactly when
      the walk ended on the other side of it from where it began. */
  lemma {:induction false} CrossingParity(vs: seq<Vertex>, j: nat, y: int)
    requires j <= |vs| && 0 < |vs|
    ensures |Select(EdgesUpTo(vs, j), Live(y))| % 2 == 1 <==> AtOrAbove(vs[|vs| - 1], y) != AtOrAbove(Before(vs, j), y)
  {
    if j > 0 {
      CrossingParity(vs, j - 1, y);
      LiveUpToStep(vs, j, y);
      OddAfterOneMore(|Select(EdgesUpTo(vs, j - 1), Live(y))|);
    }
  }

  /** All edges lie wholly above line y (ending on it at most), or all wholly below it. */
  ghost predicate OneSided(edges: seq<Edge>, above: bool, y: int)
  {
    forall e :: e in edges ==> if above then e.maxY <= y else y < e.minY
  }

  lemma EdgeOneSided(p: Vertex, q: Vertex, y: int)
    requires p.y != q.y && AtOrAbove(p, y) == AtOrAbove(q, y)
    ensures OneSided([EdgeOf(p, q)], AtOrAbove(p, y), y)
  {
  }

  lemma OneSidedConcat(a: seq<Edge>, b: seq<Edge>, above: bool, y: int)
    requires OneSided(a, above, y) && OneSided(b, above, y)
    ensures OneSided(a + b, above, y)
  {
  }

  lemma {:induction false} UncrossedMeansOneSide(vs: seq<Vertex>, j: nat, y: int)
    requires j <= |vs| && 0 < |vs|
    requires |Select(EdgesUpTo(vs, j), Live(y))| == 0
    ensures AtOrAbove(Before(vs, j), y) == AtOrAbove(vs[|vs| - 1], y)
    ensures OneSided(EdgesUpTo(vs, j), AtOrAbove(vs[|vs| - 1], y), y)
  {
    if j > 0 {
      LiveUpToStep(vs, j, y);
      UncrossedMeansOneSide(vs, j - 1, y);
      if Before(vs, j - 1).y != vs[j - 1].y {
        EdgeOneSided(Before(vs, j - 1), vs[j - 1], y);
        OneSidedConcat(EdgesUpTo(vs, j - 1), [EdgeOf(Before(vs, j - 1), vs[j - 1])], AtOrAbove(vs[|vs| - 1], y), y);
      }
    }
  }

  lemma LiveIsSpanned(edges: seq<Edge>, y: int)
    requires Select(edges, Live(y)) != []
    ensures BetweenTopAndBottom(edges, y)
  {
    SelectMembers(edges, Live(y));
    assert Select(edges, Live(y))[0] in Select(edges, Live(y));
    var i :| 0 <= i < |edges| && Live(y)(edges[i]) == Some(Select(edges, Live(y))[0]);
    assert edges[i].minY <= y < edges[i].maxY;
  }

  lemma OneSidedIsNotSpanned(edges: seq<Edge>, above: bool, y: int)
    requires OneSided(edges, above, y)
    ensures !BetweenTopAndBottom(edges, y)
  {
  }

  lemma SpannedIsLive(vs: seq<Vertex>, y: int)
    requires 0 < |vs| && BetweenTopAndBottom(Sides(vs), y)
    ensures Select(Sides(vs), Live(y)) != []
  {
    if |Select(EdgesUpTo(vs, |vs|), Live(y))| == 0 {
      UncrossedMeansOneSide(vs, |vs|, y);
      OneSidedIsNotSpanned(Sides(vs), AtOrAbove(vs[|vs| - 1], y), y);
    }
  }

  /** The number of sides of a closed polygon that a scan line crosses is even, and it is zero
      only above every side's bottom or below every side's top. */
  lemma CrossingsEvenAndPresent(vs: seq<Vertex>, y: int)
    requires 0 < |vs|
    ensures |Select(Sides(vs), Live(y))| % 2 == 0
    ensures BetweenTopAndBottom(Sides(vs), y) <==> 2 <= |Select(Sides(vs), Live(y))|
  {
    CrossingParity(vs, |vs|, y);
    if BetweenTopAndBottom(Sides(vs), y) {
      SpannedIsLive(vs, y);
    } else if Select(Sides(vs), Live(y)) != [] {
      LiveIsSpanned(Sides(vs), y);
    }
  }

  // ------------------------------------------------------- crossings stay in the box

  ghost predicate EdgeWithin(e: Edge, x0: int, x1: int, y0: int, y1: int)
  {
    && y0 <= e.minY < e.maxY <= y1
    && x0 as real <= e.minX <= x1 as real
    && x0 as real <= CrossX(e, e.maxY) <= x1 as real
  }

  lemma EdgeOfWithin(p: Vertex, q: Vertex, x0: int, x1: int, y0: int, y1: int)
    requires p.y != q.y
    requires x0 <= p.x <= x1 && x0 <= q.x <= x1 && y0 <= p.y <= y1 && y0 <= q.y <= y1
    ensures EdgeWithin(EdgeOf(p, q), x0, x1, y0, y1)
  {
    var dx := (q.x - p.x) as real;
    var dy := (q.y - p.y) as real;
    assert dx / dy * dy == dx;
    var e := EdgeOf(p, q);
    CrossXClosedForm(e, e.maxY - e.minY);
    if p.y < q.y {
      assert (e.maxY - e.minY) as real == dy;
      assert CrossX(e, e.maxY) == q.x as real;
    } else {
      assert (e.maxY - e.minY) as real == -dy;
      assert -dy * (dx / dy) == -dx;
      assert CrossX(e, e.maxY) == p.x as real;
    }
  }

  lemma {:induction false} EdgesWithin(vs: seq<Vertex>, j: nat, x0: int, x1: int, y0: int, y1: int)
    requires j <= |vs| && 0 < |vs|
    requires forall i :: 0 <= i < |vs| ==> x0 <= vs[i].x <= x1 && y0 <= vs[i].y <= y1
    ensures forall i :: 0 <= i < |EdgesUpTo(vs, j)| ==> EdgeWithin(EdgesUpTo(vs, j)[i], x0, x1, y0, y1)
  {
    if j > 0 {
      EdgesWithin(vs, j - 1, x0, x1, y0, y1);
      if Before(vs, j - 1).y != vs[j - 1].y {
        EdgeOfWithin(Before(vs, j - 1), vs[j - 1], x0, x1, y0, y1);
      }
    }
  }

  lemma {:induction false} StepsBetween(n: nat, h: nat, slope: real)
    requires n <= h
    ensures if slope >= 0.0 then 0.0 <= Steps(n, slope) <= Steps(h, slope)
            else Steps(h, slope) <= Steps(n, slope) <= 0.0
    decreases h
  {
    if 0 < h {
      if n < h { StepsBetween(n, h - 1, slope); } else { StepsBetween(n - 1, h - 1, slope); }
    }
  }

  lemma CrossXBetween(e: Edge, y: int, x0: int, x1: int, y0: int, y1: int)
    requires EdgeWithin(e, x0, x1, y0, y1) && e.minY <= y <= e.maxY
    ensures x0 as real <= CrossX(e, y) <= x1 as real
  {
    StepsBetween(y - e.minY, e.maxY - e.minY, e.slope);
  }

  lemma TruncMono(a: real, b: real)
    requires a <= b
    ensures Trunc(a) <= Trunc(b)
  {
  }

  lemma TruncBetween(r: real, x0: int, x1: int)
    requires 0 <= x0 && x0 as real <= r <= x1 as real
    ensures x0 <= Trunc(r) <= x1
  {
  }

  // ---------------------------------------------------------------- spans and parity

  ghost predicate SortedBy(s: seq<Edge>, less: (Edge, Edge) -> bool)
  {
    forall i, j :: 0 <= i < j < |s| ==> !less(s[j], s[i])
  }

  function CompareYX(): (Edge, Edge) -> bool
  {
    (e1: Edge, e2: Edge) => if e1.minY == e2.minY then e1.minX < e2.minX else e1.minY < e2.minY
  }

  function CompareX(): (Edge, Edge) -> bool
  {
    (e1: Edge, e2: Edge) => e1.minX < e2.minX
  }

  /** Pixel column x lies in the k-th pair of neighbouring active edges. */
  ghost predicate InPair(active: seq<Edge>, k: int, x: int)
  {
    0 <= k && 2 * k + 1 < |active| && Trunc(active[2 * k].minX) <= x <= Trunc(active[2 * k + 1].minX)
  }

  lemma {:induction false} LeftOfIsPrefix(s: seq<Edge>, x: int)
    requires SortedBy(s, CompareX())
    ensures |Select(s, LeftOf(x))| <= |s|
    ensures forall i :: 0 <= i < |s| ==> (Trunc(s[i].minX) < x <==> i < |Select(s, LeftOf(x))|)
  {
    if s != [] {
      var s' := s[..|s| - 1];
      LeftOfIsPrefix(s', x);
      var last := s[|s| - 1];
      forall i | 0 <= i < |s'| ensures Trunc(s'[i].minX) <= Trunc(last.minX) {
        assert !CompareX()(last, s[i]);
        TruncMono(s[i].minX, last.minX);
      }
      if |s'| > 0 && Trunc(last.minX) < x { assert Trunc(s'[|s'| - 1].minX) < x; }
    }
  }

  /** Filling between consecutive pairs of the sorted crossings is the even-odd rule. */
  lemma PairsAreEvenOdd(active: seq<Edge>, x: int)
    requires SortedBy(active, CompareX()) && |active| % 2 == 0
    ensures (exists k :: InPair(active, k, x))
       <==> |Select(active, LeftOf(x))| % 2 == 1 || exists i :: 0 <= i < |active| && Trunc(active[i].minX) == x
  {
    LeftOfIsPrefix(active, x);
    LeftOfIsPrefix(active, x + 1);
    var a := |Select(active, LeftOf(x))|;
    if k :| InPair(active, k, x) {
      if a % 2 == 0 {
        // the pair's left edge is not left of x, or its right edge is; both would put an edge on x
        if 2 * k < a { assert false; }
        assert Trunc(active[2 * k].minX) == x;
      }
    }
    if a % 2 == 1 {
      assert InPair(active, (a - 1) / 2, x);
    } else if i :| 0 <= i < |active| && Trunc(active[i].minX) == x {
      assert Trunc(active[a].minX) == x by {
        assert a <= i;
        assert !CompareX()(active[i], active[a]) || a == i;
        if a < i { TruncMono(active[a].minX, active[i].minX); }
      }
      assert InPair(active, a / 2, x) by {
        assert !CompareX()(active[a + 1], active[a]);
        TruncMono(active[a].minX, active[a + 1].minX);
      }
    }
  }

  lemma {:induction false} LeftOfLive(edges: seq<Edge>, y: int, x: int)
    ensures |Select(Select(edges, Live(y)), LeftOf(x))| == CrossingsLeftOf(edges, y, x)
  {
    if edges != [] {
      var e := edges[|edges| - 1];
      var rest := edges[..|edges| - 1];
      LeftOfLive(rest, y, x);
      SelectConcat(Select(rest, Live(y)), if Crosses(e, y) then [e.(minX := CrossX(e, y))] else [], LeftOf(x));
    }
  }

  lemma OnCrossingIsLive(edges: seq<Edge>, y: int, x: int)
    ensures OnCrossing(edges, y, x) <==> exists r :: r in Select(edges, Live(y)) && Trunc(r.minX) == x
  {
    SelectMembers(edges, Live(y));
    if OnCrossing(edges, y, x) {
      var i :| 0 <= i < |edges| && Crosses(edges[i], y) && Trunc(CrossX(edges[i], y)) == x;
      assert Live(y)(edges[i]).value in Select(edges, Live(y));
    }
  }

  lemma SameMembers(a: seq<Edge>, b: seq<Edge>, x: int)
    requires multiset(a) == multiset(b)
    ensures (exists i :: 0 <= i < |a| && Trunc(a[i].minX) == x) <==> (exists r :: r in b && Trunc(r.minX) == x)
  {
    forall e ensures e in a <==> e in b {
      assert e in multiset(a) <==> e in multiset(b);
    }
    if i :| 0 <= i < |a| && Trunc(a[i].minX) == x {
      assert a[i] in b;
    }
    if r :| r in b && Trunc(r.minX) == x {
      assert r in a;
    }
  }

  /** What the active table shades is the even-odd rule on the polygon's own sides. */
  lemma ActiveShadesCovered(sides: seq<Edge>, edges: seq<Edge>, active: seq<Edge>, y: int, x: int)
    requires multiset(edges) == multiset(sides)
    requires multiset(active) == multiset(Select(edges, Live(y)))
    requires SortedBy(active, CompareX()) && |active| % 2 == 0
    ensures (exists k :: InPair(active, k, x)) <==> Covered(sides, y, x)
  {
    PairsAreEvenOdd(active, x);
    SelectPermuted(edges, sides, Live(y));
    SelectPermutedLength(active, Select(sides, Live(y)), LeftOf(x));
    LeftOfLive(sides, y, x);
    SameMembers(active, Select(sides, Live(y)), x);
    OnCrossingIsLive(sides, y, x);
  }

  lemma UncoveredWhenNotLive(edges: seq<Edge>, y: int, x: int)
    requires Select(edges, Live(y)) == []
    ensures !Covered(edges, y, x)
  {
    LeftOfLive(edges, y, x);
    SelectMembers(edges, Live(y));
  }

  lemma LiveInside(vs: seq<Vertex>, y: int, x0: int, x1: int, y0: int, y1: int)
    requires 0 < |vs| && 0 <= x0
    requires forall i :: 0 <= i < |vs| ==> x0 <= vs[i].x <= x1 && y0 <= vs[i].y <= y1
    ensures forall r :: r in Select(Sides(vs), Live(y)) ==> x0 <= Trunc(r.minX) <= x1 && y0 <= y < y1
  {
    EdgesWithin(vs, |vs|, x0, x1, y0, y1);
    SelectMembers(Sides(vs), Live(y));
    forall r | r in Select(Sides(vs), Live(y)) ensures x0 <= Trunc(r.minX) <= x1 && y0 <= y < y1 {
      var k :| 0 <= k < |Sides(vs)| && Live(y)(Sides(vs)[k]) == Some(r);
      CrossXBetween(Sides(vs)[k], y, x0, x1, y0, y1);
      TruncBetween(r.minX, x0, x1);
    }
  }

  lemma LeftOfAllOrNone(live: seq<Edge>, x: int, x0: int, x1: int)
    requires forall r :: r in live ==> x0 <= Trunc(r.minX) <= x1
    ensures x < x0 ==> Select(live, LeftOf(x)) == []
    ensures x1 < x ==> Select(live, LeftOf(x)) == live
  {
    if x < x0 {
      SelectNone(live, LeftOf(x));
    } else if x1 < x {
      SelectAll(live, LeftOf(x));
    }
  }

  /** Nothing is painted outside the polygon's bounding box. */
  lemma CoveredInsideBox(vs: seq<Vertex>, y: int, x: int, x0: int, x1: int, y0: int, y1: int)
    requires 0 < |vs| && 0 <= x0
    requires forall i :: 0 <= i < |vs| ==> x0 <= vs[i].x <= x1 && y0 <= vs[i].y <= y1
    requires Covered(Sides(vs), y, x)
    ensures x0 <= x <= x1 && y0 <= y < y1
  {
    var live := Select(Sides(vs), Live(y));
    LiveInside(vs, y, x0, x1, y0, y1);
    if live == [] {
      UncoveredWhenNotLive(Sides(vs), y, x);
    } else {
      assert live[0] in live;
    }
    if OnCrossing(Sides(vs), y, x) {
      OnCrossingIsLive(Sides(vs), y, x);
    } else {
      CrossingsEvenAndPresent(vs, y);
      LeftOfLive(Sides(vs), y, x);
      LeftOfAllOrNone(live, x, x0, x1);
    }
  }
}
