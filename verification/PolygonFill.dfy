/** The scan-line polygon fill. The edge tables are sequences that the loops erase from and
    append to, in the order the original does. */
module PolygonFill {
  import opened Planes
  import opened Wrappers
  import opened PolygonEdges
  import PolygonInterior

  /** The global edge table before sorting. */
  method BuildEdges(vs: seq<Vertex>) returns (edges: seq<Edge>)
    requires 0 < |vs|
    ensures edges == Sides(vs)
  {
    edges := [];
    var i := |vs| - 1;
    for j := 0 to |vs|
      invariant i == if j == 0 then |vs| - 1 else j - 1
      invariant edges == EdgesUpTo(vs, j)
    {
      if vs[i].y != vs[j].y {
        edges := edges + [EdgeOf(vs[i], vs[j])];
      }
      i := j;
    }
  }

  ghost predicate WeakOrder(less: (Edge, Edge) -> bool)
  {
    && (forall a, b :: less(a, b) ==> !less(b, a))
    && (forall a, b, c {:trigger less(b, a), less(c, b)} :: !less(b, a) && !less(c, b) ==> !less(c, a))
  }

  lemma InsertAt(r: seq<Edge>, e: Edge, k: nat, less: (Edge, Edge) -> bool)
    requires SortedBy(r, less) && k <= |r|
    requires forall i :: 0 <= i < k ==> !less(e, r[i])
    requires forall i :: k <= i < |r| ==> !less(r[i], e)
    ensures SortedBy(r[..k] + [e] + r[k..], less)
    ensures multiset(r[..k] + [e] + r[k..]) == multiset(r) + multiset{e}
  {
    assert r == r[..k] + r[k..];
  }

  method InsertSorted(r: seq<Edge>, e: Edge, less: (Edge, Edge) -> bool) returns (r': seq<Edge>)
    requires WeakOrder(less) && SortedBy(r, less)
    ensures multiset(r') == multiset(r) + multiset{e} && SortedBy(r', less)
  {
    var k := |r|;
    while 0 < k && less(e, r[k - 1])
      invariant 0 <= k <= |r|
      invariant forall i :: k <= i < |r| ==> less(e, r[i])
    {
      k := k - 1;
    }
    forall i | 0 <= i < k ensures !less(e, r[i]) {
      if i < k - 1 { assert !less(r[k - 1], r[i]) && !less(e, r[k - 1]); }
    }
    InsertAt(r, e, k, less);
    r' := r[..k] + [e] + r[k..];
  }

  /** What the fill needs of std::sort: some ordering of the same edges. */
  method Sort(s: seq<Edge>, less: (Edge, Edge) -> bool) returns (r: seq<Edge>)
    requires WeakOrder(less)
    ensures multiset(r) == multiset(s) && SortedBy(r, less)
  {
    r := [];
    for n := 0 to |s|
      invariant multiset(r) == multiset(s[..n]) && SortedBy(r, less)
    {
      assert s[..n + 1] == s[..n] + [s[n]];
      r := InsertSorted(r, s[n], less);
    }
    assert s[..|s|] == s;
  }

  /** The element at the iterator of a table whose first part has been gone through. */
  lemma AtIterator(kept: seq<Edge>, rest: seq<Edge>, e: Edge, e': Edge, table: seq<Edge>)
    requires rest != [] && rest[0] == e && table == kept + rest
    ensures table[|kept|] == e
    ensures table[..|kept|] + table[|kept| + 1..] == kept + rest[1..]
    ensures table[|kept| := e'] == kept + [e'] + rest[1..]
  {
  }

  /** Erases finished edges and steps the others by their slope. */
  method AdvanceActive(active: seq<Edge>, scanLine: int) returns (r: seq<Edge>)
    ensures r == Select(active, Advance(scanLine))
  {
    r := active;
    var it := 0;
    ghost var k, kept := 0, [];
    assert active[..0] == [];
    while it < |r|
      invariant 0 <= k <= |active| && it == |kept|
      invariant kept == Select(active[..k], Advance(scanLine))
      invariant r == kept + active[k..]
      decreases |active| - k
    {
      var stepped := r[it].(minX := r[it].minX + r[it].slope);
      AtIterator(kept, active[k..], active[k], stepped, r);
      SelectStep(active, k, Advance(scanLine));
      assert active[k..][1..] == active[k + 1..];
      if scanLine >= r[it].maxY {
        r := r[..it] + r[it + 1..];
      } else {
        r := r[it := stepped];
        it, kept := it + 1, kept + [stepped];
      }
      k := k + 1;
    }
    assert active[..|active|] == active;
  }

  lemma Append(a: seq<Edge>, b: seq<Edge>, e: Edge)
    ensures a + b + [e] == a + (b + [e])
  {
  }

  /** Splitting a table into kept and moved edges, one edge further. */
  lemma ActivateStep(global: seq<Edge>, k: nat, scanLine: int)
    requires k < |global|
    ensures global[k..][1..] == global[k + 1..] && global[k..] != [] && global[k..][0] == global[k]
    ensures Select(global[..k + 1], NotStarting(scanLine))
         == Select(global[..k], NotStarting(scanLine)) + if global[k].minY == scanLine then [] else [global[k]]
    ensures Select(global[..k + 1], Starting(scanLine))
         == Select(global[..k], Starting(scanLine)) + if global[k].minY == scanLine then [global[k]] else []
  {
    SelectStep(global, k, NotStarting(scanLine));
    SelectStep(global, k, Starting(scanLine));
  }

  /** Moves the edges that begin on this line from the global to the active table. */
  method Activate(global: seq<Edge>, active: seq<Edge>, scanLine: int) returns (global': seq<Edge>, active': seq<Edge>)
    ensures global' == Select(global, NotStarting(scanLine))
    ensures active' == active + Select(global, Starting(scanLine))
  {
    global', active' := global, active;
    var it := 0;
    ghost var k, kept, moved := 0, [], [];
    assert global[..0] == [] && global[0..] == global;
    while it < |global'|
      invariant 0 <= k <= |global| && it == |kept|
      invariant kept == Select(global[..k], NotStarting(scanLine))
      invariant moved == Select(global[..k], Starting(scanLine))
      invariant global' == kept + global[k..]
      invariant active' == active + moved
      decreases |global| - k
    {
      ActivateStep(global, k, scanLine);
      AtIterator(kept, global[k..], global[k], global[k], global');
      if global'[it].minY == scanLine {
        Append(active, moved, global[k]);
        active', moved := active' + [global'[it]], moved + [global'[it]];
        global' := global'[..it] + global'[it + 1..];
      } else {
        it, kept := it + 1, kept + [global'[it]];
      }
      k := k + 1;
    }
    assert global[..|global|] == global;
  }

  ghost function SpanPixels(density: int, y: int, lo: int, hi: int): (int, int) -> bool
    requires density != 0
  {
    (px, py) => py == y && lo <= px <= hi && px % density == 0
  }

  lemma SpanPixelsStep(density: int, y: int, lo: int, x: int)
    requires density != 0 && lo <= x
    ensures forall px, py ::
      (SpanPixels(density, y, lo, x)(px, py)
       <==> SpanPixels(density, y, lo, x - 1)(px, py) || (px == x && py == y && x % density == 0))
  {
  }

  /** One inclusive span of one scan line, every density-th pixel of it. */
  method PaintSpan(buffer: array<uint8>, g: Grid, colour: seq<uint8>, density: int, y: int, lo: int, hi: int)
    requires g.Fits(buffer.Length) && |colour| == g.bpp && density != 0
    requires 0 <= y < g.h && 0 <= lo && hi < g.w
    modifies buffer
    ensures Painted(old(buffer[..]), buffer[..], g, colour, SpanPixels(density, y, lo, hi))
  {
    var x := lo;
    PaintedNothing(buffer[..], g, colour, SpanPixels(density, y, lo, hi - (hi - lo) - 1));
    while x <= hi
      invariant lo <= x && (x <= hi || x == lo || x == hi + 1)
      invariant Painted(old(buffer[..]), buffer[..], g, colour, SpanPixels(density, y, lo, x - 1))
    {
      SpanPixelsStep(density, y, lo, x);
      if x % density == 0 {
        ghost var before := buffer[..];
        PaintPixel(buffer, g, x, y, colour);
        PaintedThen(old(buffer[..]), before, buffer[..], g, colour,
                    SpanPixels(density, y, lo, x - 1), (px, py) => px == x && py == y, SpanPixels(density, y, lo, x));
      } else {
        PaintedSame(old(buffer[..]), buffer[..], g, colour, SpanPixels(density, y, lo, x - 1), SpanPixels(density, y, lo, x));
      }
      x := x + 1;
    }
    PaintedSame(old(buffer[..]), buffer[..], g, colour, SpanPixels(density, y, lo, x - 1), SpanPixels(density, y, lo, hi));
  }

  ghost predicate InPairUpTo(active: seq<Edge>, n: int, x: int)
  {
    exists k :: k < n && InPair(active, k, x)
  }

  ghost function LinePixels(active: seq<Edge>, n: int, density: int, y: int): (int, int) -> bool
    requires density != 0
  {
    (px, py) => py == y && px % density == 0 && InPairUpTo(active, n, px)
  }

  lemma LinePixelsStep(active: seq<Edge>, n: nat, density: int, y: int)
    requires density != 0 && 2 * n + 1 < |active|
    ensures forall px, py :: LinePixels(active, n + 1, density, y)(px, py) <==>
      LinePixels(active, n, density, y)(px, py)
      || SpanPixels(density, y, Trunc(active[2 * n].minX), Trunc(active[2 * n + 1].minX))(px, py)
  {
    forall x
      ensures InPairUpTo(active, n + 1, x)
         <==> InPairUpTo(active, n, x) || Trunc(active[2 * n].minX) <= x <= Trunc(active[2 * n + 1].minX)
    {
      assert InPair(active, n, x) <==> Trunc(active[2 * n].minX) <= x <= Trunc(active[2 * n + 1].minX);
    }
  }

  /** Fills between pairs of active edges. */
  method PaintLine(buffer: array<uint8>, g: Grid, colour: seq<uint8>, density: int, y: int, active: seq<Edge>)
    requires g.Fits(buffer.Length) && |colour| == g.bpp && density != 0
    requires 0 <= y < g.h
    requires forall i :: 0 <= i < |active| ==> 0 <= Trunc(active[i].minX) < g.w
    modifies buffer
    ensures Painted(old(buffer[..]), buffer[..], g, colour, LinePixels(active, |active|, density, y))
  {
    var it := 0;
    PaintedNothing(buffer[..], g, colour, LinePixels(active, 0, density, y));
    while it + 1 < |active|
      invariant it % 2 == 0 && 0 <= it <= |active| + 1
      invariant Painted(old(buffer[..]), buffer[..], g, colour, LinePixels(active, it / 2, density, y))
    {
      var lo := Trunc(active[it].minX);
      var hi := Trunc(active[it + 1].minX);
      ghost var before := buffer[..];
      PaintSpan(buffer, g, colour, density, y, lo, hi);
      LinePixelsStep(active, it / 2, density, y);
      PaintedThen(old(buffer[..]), before, buffer[..], g, colour, LinePixels(active, it / 2, density, y),
                  SpanPixels(density, y, lo, hi), LinePixels(active, it / 2 + 1, density, y));
      it := it + 2;
    }
    forall x ensures InPairUpTo(active, it / 2, x) <==> InPairUpTo(active, |active|, x) {}
    PaintedSame(old(buffer[..]), buffer[..], g, colour,
                LinePixels(active, it / 2, density, y), LinePixels(active, |active|, density, y));
  }

  ghost function ShadedBelow(vs: seq<Vertex>, density: int, scanLine: int): (int, int) -> bool
    requires density != 0
  {
    (x, y) => y < scanLine && Shaded(vs, density, x, y)
  }

  /** After line y the active table, in some order, is the live edges of that line, and the
      global table is the edges that begin further down. */
  ghost predicate Tables(edges: seq<Edge>, global: seq<Edge>, active: seq<Edge>, y: int)
  {
    && multiset(active) == multiset(Select(edges, Live(y)))
    && global == Select(edges, NotBefore(y + 1))
  }

  /** Retires, steps and activates edges for line y. */
  method TurnTables(ghost edges: seq<Edge>, global: seq<Edge>, active: seq<Edge>, y: int)
    returns (global': seq<Edge>, active': seq<Edge>)
    requires Proper(edges) && Tables(edges, global, active, y - 1)
    ensures Tables(edges, global', active', y)
    ensures |active'| == |Select(edges, Live(y))|
  {
    active' := AdvanceActive(active, y);
    SelectPermuted(active, Select(edges, Live(y - 1)), Advance(y));
    LiveStep(edges, y);
    assert y - 1 + 1 == y;
    PendingStep(edges, y);
    global', active' := Activate(global, active', y);
    assert |active'| == |multiset(active')| == |Select(edges, Live(y))|;
  }

  lemma LiveCount(vs: seq<Vertex>, edges: seq<Edge>, y: int)
    requires 0 < |vs| && multiset(edges) == multiset(Sides(vs))
    ensures |Select(edges, Live(y))| % 2 == 0
    ensures BetweenTopAndBottom(edges, y) <==> 2 <= |Select(edges, Live(y))|
    ensures BetweenTopAndBottom(edges, y) || Select(edges, Live(y)) == []
  {
    SelectPermutedLength(edges, Sides(vs), Live(y));
    CrossingsEvenAndPresent(vs, y);
    SameSpan(edges, Sides(vs), y);
  }

  lemma SameSpan(a: seq<Edge>, b: seq<Edge>, y: int)
    requires multiset(a) == multiset(b)
    ensures BetweenTopAndBottom(a, y) <==> BetweenTopAndBottom(b, y)
  {
    forall e ensures e in a <==> e in b {
      assert e in multiset(a) <==> e in multiset(b);
    }
    assert forall i :: 0 <= i < |a| ==> a[i] in b;
    assert forall i :: 0 <= i < |b| ==> b[i] in a;
  }

  lemma OrdersAreWeak()
    ensures WeakOrder(CompareYX()) && WeakOrder(CompareX())
  {
  }

  ghost predicate Finished(edges: seq<Edge>, y: int)
  {
    forall i :: 0 <= i < |edges| ==> edges[i].maxY <= y
  }

  lemma EmptyTablesFinished(edges: seq<Edge>, y: int)
    requires Tables(edges, [], [], y)
    ensures Finished(edges, y + 1)
  {
    SelectMembers(edges, NotBefore(y + 1));
    SelectMembers(edges, Live(y));
    assert |Select(edges, Live(y))| == |multiset(Select(edges, Live(y)))| == 0;
    forall i | 0 <= i < |edges| ensures edges[i].maxY <= y + 1 {
      assert NotBefore(y + 1)(edges[i]) == None;
      assert Live(y)(edges[i]) == None;
    }
  }

  lemma ActiveInside(vs: seq<Vertex>, edges: seq<Edge>, active: seq<Edge>, y: int, w: int, h: int)
    requires 0 < |vs| && multiset(edges) == multiset(Sides(vs))
    requires forall i :: 0 <= i < |vs| ==> 0 <= vs[i].x < w && 0 <= vs[i].y < h
    requires multiset(active) == multiset(Select(edges, Live(y)))
    ensures forall i :: 0 <= i < |active| ==> 0 <= Trunc(active[i].minX) < w
    ensures active != [] ==> 0 <= y < h - 1
  {
    LiveInside(vs, y, 0, w - 1, 0, h - 1);
    SelectPermuted(edges, Sides(vs), Live(y));
    forall i | 0 <= i < |active| ensures active[i] in Select(Sides(vs), Live(y)) {
      assert active[i] in multiset(active);
    }
  }

  ghost function ShadedLine(vs: seq<Vertex>, density: int, y: int): (int, int) -> bool
    requires density != 0
  {
    (px, py) => py == y && Shaded(vs, density, px, py)
  }

  lemma LineIsShaded(vs: seq<Vertex>, edges: seq<Edge>, active: seq<Edge>, density: int, y: int)
    requires 0 < |vs| && density != 0 && multiset(edges) == multiset(Sides(vs))
    requires multiset(active) == multiset(Select(edges, Live(y)))
    requires SortedBy(active, CompareX()) && y % density == 0
    ensures forall px, py ::
      LinePixels(active, |active|, density, y)(px, py) <==> ShadedLine(vs, density, y)(px, py)
  {
    LiveCount(vs, edges, y);
    assert |active| == |multiset(active)| == |Select(edges, Live(y))|;
    forall px ensures InPairUpTo(active, |active|, px) <==> Covered(Sides(vs), y, px) {
      ActiveShadesCovered(Sides(vs), edges, active, y, px);
    }
  }

  lemma NoShadeOutside(vs: seq<Vertex>, edges: seq<Edge>, y: int)
    requires 0 < |vs| && multiset(edges) == multiset(Sides(vs))
    requires !BetweenTopAndBottom(edges, y)
    ensures forall x :: !Covered(Sides(vs), y, x)
  {
    LiveCount(vs, edges, y);
    SelectPermutedLength(edges, Sides(vs), Live(y));
    forall x ensures !Covered(Sides(vs), y, x) {
      UncoveredWhenNotLive(Sides(vs), y, x);
    }
  }

  ghost function ShadedAll(vs: seq<Vertex>, density: int): (int, int) -> bool
    requires density != 0
  {
    (x, y) => Shaded(vs, density, x, y)
  }

  method PaintCoveredLine(buffer: array<uint8>, g: Grid, colour: seq<uint8>, density: int,
                          ghost vs: seq<Vertex>, ghost edges: seq<Edge>, sorted: seq<Edge>, y: int)
    requires g.Fits(buffer.Length) && |colour| == g.bpp && density != 0
    requires 0 < |vs| && multiset(edges) == multiset(Sides(vs))
    requires 0 <= y < g.h && forall i :: 0 <= i < |sorted| ==> 0 <= Trunc(sorted[i].minX) < g.w
    requires multiset(sorted) == multiset(Select(edges, Live(y))) && SortedBy(sorted, CompareX())
    modifies buffer
    ensures Painted(old(buffer[..]), buffer[..], g, colour, ShadedLine(vs, density, y))
  {
    if y % density == 0 {
      PaintLine(buffer, g, colour, density, y, sorted);
      LineIsShaded(vs, edges, sorted, density, y);
      PaintedSame(old(buffer[..]), buffer[..], g, colour,
                  LinePixels(sorted, |sorted|, density, y), ShadedLine(vs, density, y));
    } else {
      PaintedNothing(buffer[..], g, colour, ShadedLine(vs, density, y));
    }
  }

  /** Draws one scan line below the ones drawn so far; the table comes back sorted by crossing. */
  method ShadeLine(buffer: array<uint8>, g: Grid, colour: seq<uint8>, density: int,
                   ghost vs: seq<Vertex>, ghost edges: seq<Edge>, ghost global: seq<Edge>, ghost start: seq<uint8>,
                   active: seq<Edge>, y: int) returns (sorted: seq<Edge>)
    requires g.Fits(buffer.Length) && |colour| == g.bpp && density != 0
    requires 0 < |vs| && forall i :: 0 <= i < |vs| ==> 0 <= vs[i].x < g.w && 0 <= vs[i].y < g.h
    requires multiset(edges) == multiset(Sides(vs))
    requires active != [] && Tables(edges, global, active, y)
    requires |start| == buffer.Length && Painted(start, buffer[..], g, colour, ShadedBelow(vs, density, y))
    modifies buffer
    ensures Tables(edges, global, sorted, y)
    ensures 0 <= y < g.h - 1
    ensures Painted(start, buffer[..], g, colour, ShadedBelow(vs, density, y + 1))
  {
    OrdersAreWeak();
    sorted := Sort(active, CompareX());
    assert |active| == |multiset(active)| == |multiset(sorted)| == |sorted|;
    ActiveInside(vs, edges, sorted, y, g.w, g.h);
    ghost var before := buffer[..];
    PaintCoveredLine(buffer, g, colour, density, vs, edges, sorted, y);
    PaintedThen(start, before, buffer[..], g, colour, ShadedBelow(vs, density, y),
                ShadedLine(vs, density, y), ShadedBelow(vs, density, y + 1));
  }

  lemma NotBetween(edges: seq<Edge>, y: int)
    requires edges != [] && edges[0].minY <= y && !BetweenTopAndBottom(edges, y)
    ensures Finished(edges, y)
  {
  }

  lemma NothingLeft(edges: seq<Edge>, y: int)
    requires Proper(edges) && Finished(edges, y)
    ensures Select(edges, NotBefore(y + 1)) == []
  {
    SelectNone(edges, NotBefore(y + 1));
  }

  /** A turn with fewer than two active edges is the last one. */
  lemma ThinTurnIsLast(vs: seq<Vertex>, edges: seq<Edge>, y: int)
    requires 0 < |vs| && multiset(edges) == multiset(Sides(vs)) && Proper(edges)
    requires edges != [] && edges[0].minY <= y
    requires |Select(edges, Live(y))| < 2
    ensures Select(edges, Live(y)) == [] && Select(edges, NotBefore(y + 1)) == [] && Finished(edges, y)
  {
    LiveCount(vs, edges, y);
    NotBetween(edges, y);
    NothingLeft(edges, y);
  }

  /** Before the first line every edge is still to come. */
  lemma FirstTables(edges: seq<Edge>, last: int)
    requires forall i :: 0 <= i < |edges| ==> last < edges[i].minY
    ensures Tables(edges, edges, [], last)
  {
    SelectNone(edges, Live(last));
    SelectAll(edges, NotBefore(last + 1));
  }

  lemma SortedEdges(vs: seq<Vertex>, edges: seq<Edge>, w: int, h: int)
    requires 0 < |vs| && multiset(edges) == multiset(Sides(vs)) && edges != []
    requires forall i :: 0 <= i < |vs| ==> 0 <= vs[i].x < w && 0 <= vs[i].y < h
    requires SortedBy(edges, CompareYX())
    ensures Proper(edges)
    ensures forall i :: 0 <= i < |edges| ==> edges[0].minY <= edges[i].minY && edges[i].maxY < h
  {
    EdgesWithin(vs, |vs|, 0, w - 1, 0, h - 1);
    forall i | 0 <= i < |edges|
      ensures edges[0].minY <= edges[i].minY < edges[i].maxY < h
    {
      assert edges[i] in multiset(edges);
      assert edges[i] in Sides(vs);
      if i > 0 { assert !CompareYX()(edges[i], edges[0]); }
    }
  }

  lemma ShadedDone(vs: seq<Vertex>, edges: seq<Edge>, density: int, y: int)
    requires 0 < |vs| && density != 0 && multiset(edges) == multiset(Sides(vs)) && Finished(edges, y)
    ensures forall px, py :: (ShadedBelow(vs, density, y)(px, py) <==> ShadedAll(vs, density)(px, py))
  {
    forall px, py | y <= py ensures !Shaded(vs, density, px, py) { NoShadeOutside(vs, edges, py); }
  }

  lemma ShadedNotYet(vs: seq<Vertex>, edges: seq<Edge>, density: int, y: int)
    requires 0 < |vs| && density != 0 && multiset(edges) == multiset(Sides(vs))
    requires forall i :: 0 <= i < |edges| ==> y <= edges[i].minY
    ensures forall px, py :: !ShadedBelow(vs, density, y)(px, py)
  {
    forall px, py | py < y ensures !Shaded(vs, density, px, py) { NoShadeOutside(vs, edges, py); }
  }

  /** The line loop over the sorted edges of the polygon. It always terminates, though the line
      counter stands still on a turn that finds fewer than two active edges. */
  method ScanLines(buffer: array<uint8>, g: Grid, colour: seq<uint8>, density: int,
                   ghost vs: seq<Vertex>, edges: seq<Edge>)
    requires g.Fits(buffer.Length) && |colour| == g.bpp && density != 0
    requires 0 < |vs| && forall i :: 0 <= i < |vs| ==> 0 <= vs[i].x < g.w && 0 <= vs[i].y < g.h
    requires multiset(edges) == multiset(Sides(vs)) && edges != [] && SortedBy(edges, CompareYX())
    modifies buffer
    ensures Painted(old(buffer[..]), buffer[..], g, colour, ShadedAll(vs, density))
  {
    SortedEdges(vs, edges, g.w, g.h);
    var global, active: seq<Edge> := edges, [];
    var scanLine := global[0].minY;
    ghost var done, last := false, scanLine - 1;
    FirstTables(edges, last);
    ghost var start := buffer[..];
    ShadedNotYet(vs, edges, density, scanLine);
    PaintedNothing(buffer[..], g, colour, ShadedBelow(vs, density, scanLine));
    while global != [] || active != []
      invariant edges[0].minY <= scanLine <= g.h
      invariant last == scanLine - 1
      invariant !done ==> Tables(edges, global, active, last)
      invariant done ==> global == [] && active == [] && Finished(edges, scanLine)
      invariant Painted(start, buffer[..], g, colour, ShadedBelow(vs, density, scanLine))
      decreases g.h - scanLine + if global == [] && active == [] then 0 else 1
    {
      global, active := TurnTables(edges, global, active, scanLine);
      // Too few edges to fill between: the line counter is not stepped.
      if |active| < 2 {
        ThinTurnIsLast(vs, edges, scanLine);
        done := true;
        continue;
      }
      active := ShadeLine(buffer, g, colour, density, vs, edges, global, start, active, scanLine);
      last := scanLine;
      scanLine := scanLine + 1;
    }
    if !done { EmptyTablesFinished(edges, last); }
    ShadedDone(vs, edges, density, scanLine);
    PaintedSame(start, buffer[..], g, colour, ShadedBelow(vs, density, scanLine), ShadedAll(vs, density));
  }

  /** The fill, in terms of the edges it works with. */
  method FillEdges(buffer: array<uint8>, g: Grid, colour: seq<uint8>, density: int, vs: seq<Vertex>)
    requires g.Fits(buffer.Length) && |colour| == g.bpp && density != 0
    requires forall i :: 0 <= i < |vs| ==> 0 <= vs[i].x < g.w && 0 <= vs[i].y < g.h
    modifies buffer
    ensures |vs| < 3 ==> buffer[..] == old(buffer[..])
    ensures |vs| >= 3 ==> Painted(old(buffer[..]), buffer[..], g, colour, ShadedAll(vs, density))
  {
    if |vs| < 3 {
      return;
    }
    var edges := BuildEdges(vs);
    if edges == [] {
      forall x, y ensures !Shaded(vs, density, x, y) { UncoveredWhenNotLive(Sides(vs), y, x); }
      PaintedNothing(buffer[..], g, colour, ShadedAll(vs, density));
      return;
    }
    OrdersAreWeak();
    edges := Sort(edges, CompareYX());
    assert |edges| == |multiset(edges)| == |Sides(vs)|;
    ScanLines(buffer, g, colour, density, vs, edges);
  }

  /** Every density-th row and column of the inside of the polygon. */
  ghost function InsideAll(vs: seq<Vertex>, density: int): (int, int) -> bool
    requires density != 0
  {
    (x, y) => y % density == 0 && x % density == 0 && PolygonInterior.Inside(vs, x, y)
  }

  lemma ShadedIsInside(vs: seq<Vertex>, density: int)
    requires density != 0 && forall i :: 0 <= i < |vs| ==> 0 <= vs[i].x
    ensures forall x, y :: ShadedAll(vs, density)(x, y) <==> InsideAll(vs, density)(x, y)
  {
    forall x, y ensures ShadedAll(vs, density)(x, y) <==> InsideAll(vs, density)(x, y) {
      PolygonInterior.CoveredIsInside(vs, x, y);
    }
  }

  /** Fills a polygon that lies inside the plane: exactly what is inside its vertices by the even-odd
      rule changes colour (every density-th row and column of it), and no other byte of the buffer. */
  method Fill(buffer: array<uint8>, g: Grid, colour: seq<uint8>, density: int, vs: seq<Vertex>)
    requires g.Fits(buffer.Length) && |colour| == g.bpp && density != 0
    requires forall i :: 0 <= i < |vs| ==> 0 <= vs[i].x < g.w && 0 <= vs[i].y < g.h
    modifies buffer
    ensures |vs| < 3 ==> buffer[..] == old(buffer[..])
    ensures |vs| >= 3 ==> Painted(old(buffer[..]), buffer[..], g, colour, InsideAll(vs, density))
  {
    FillEdges(buffer, g, colour, density, vs);
    if |vs| >= 3 {
      ShadedIsInside(vs, density);
      PaintedSame(old(buffer[..]), buffer[..], g, colour, ShadedAll(vs, density), InsideAll(vs, density));
    }
  }
}
