/** The two shapes every line of a layout is made of -- the rail a same-band
    edge runs as, and the straight line a gutter edge is -- and exactly when two
    of them cross. Every statement holds for both drawing directions of both
    lines, because the census reads them in From -> To order. */
module Rails {
  import opened Geometry

  /** Down from x1, along at depth d, up to x2. */
  function Rail(x1: real, x2: real, y: real, d: real): seq<Point> {
    [Point(x1, y), Point(x1, y + d), Point(x2, y + d), Point(x2, y)]
  }

  function Straight(p: Point, q: Point): seq<Point> { [p, q] }

  // ---- axis-parallel segments

  lemma ParallelNeverCross(p1: Point, p2: Point, q1: Point, q2: Point)
    requires (p1.x == p2.x && q1.x == q2.x) || (p1.y == p2.y && q1.y == q2.y)
    ensures !SegmentsCross(p1, p2, q1, q2)
  {
  }

  /** A vertical and a horizontal segment, in either argument order. */
  lemma VerticalMeetsRun(v1: Point, v2: Point, h1: Point, h2: Point)
    requires v1.x == v2.x && h1.y == h2.y
    ensures (v1.x < Lo(h1.x, h2.x) || v1.x > Hi(h1.x, h2.x) || h1.y > Hi(v1.y, v2.y) || h1.y < Lo(v1.y, v2.y))
            ==> !SegmentsCross(v1, v2, h1, h2) && !SegmentsCross(h1, h2, v1, v2)
    ensures Lo(h1.x, h2.x) < v1.x < Hi(h1.x, h2.x) && Lo(v1.y, v2.y) < h1.y < Hi(v1.y, v2.y)
            ==> SegmentsCross(v1, v2, h1, h2) && SegmentsCross(h1, h2, v1, v2)
  {
    SignOfProduct(Orient(h1, h2, v1), h2.x - h1.x, v1.y - h1.y);
    SignOfProduct(Orient(h1, h2, v2), h2.x - h1.x, v2.y - h1.y);
    SignOfProduct(Orient(v1, v2, h1), v2.y - v1.y, v1.x - h1.x);
    SignOfProduct(Orient(v1, v2, h2), v2.y - v1.y, v1.x - h2.x);
  }

  // ---- rail against rail, both hanging from the same row

  /** Rails side by side, or one strictly inside and above another, stay apart. */
  lemma RailsApart(a1: real, a2: real, b1: real, b2: real, y: real, d: real, e: real)
    requires d > 0.0 && e > 0.0
    requires || Hi(a1, a2) < Lo(b1, b2)
             || (Lo(b1, b2) < Lo(a1, a2) && Hi(a1, a2) < Hi(b1, b2) && d < e)
    ensures !PolylinesMeet(Rail(a1, a2, y, d), Rail(b1, b2, y, e))
    ensures !PolylinesMeet(Rail(b1, b2, y, e), Rail(a1, a2, y, d))
  {
    var a, b := Rail(a1, a2, y, d), Rail(b1, b2, y, e);
    forall i, j ensures !Hit(a, b, i, j) && !Hit(b, a, j, i) {
      if !(0 < i < 4 && 0 < j < 4) {
      } else if (i == 2) == (j == 2) {
        ParallelNeverCross(a[i - 1], a[i], b[j - 1], b[j]);
        ParallelNeverCross(b[j - 1], b[j], a[i - 1], a[i]);
      } else if i == 2 {
        VerticalMeetsRun(b[j - 1], b[j], a[1], a[2]);
      } else {
        VerticalMeetsRun(a[i - 1], a[i], b[1], b[2]);
      }
    }
  }

  /** Exactly one segment of a crosses exactly one segment of b. */
  ghost predicate MeetOnce(a: seq<Point>, b: seq<Point>) {
    exists i, j :: Hit(a, b, i, j) && forall m, n :: Hit(a, b, m, n) ==> m == i && n == j
  }

  /** Interleaved rails at different depths cross, and only once: the shallower
      one's run is pierced by the one vertical of the deeper that starts inside. */
  lemma RailsInterleaved(a1: real, a2: real, b1: real, b2: real, y: real, d: real, e: real)
    requires d > 0.0 && e > 0.0 && d != e
    requires Lo(a1, a2) < Lo(b1, b2) < Hi(a1, a2) < Hi(b1, b2)
    ensures var a, b := Rail(a1, a2, y, d), Rail(b1, b2, y, e); MeetOnce(a, b) && MeetOnce(b, a)
  {
    hide Hit;
    var a, b := Rail(a1, a2, y, d), Rail(b1, b2, y, e);
    var i := if d < e then 2 else if a1 < a2 then 3 else 1;
    var j := if d > e then 2 else if b1 < b2 then 1 else 3;
    forall m, n ensures Hit(a, b, m, n) <==> m == i && n == j { RailHit(a1, a2, b1, b2, y, d, e, m, n); }
    forall m, n ensures Hit(b, a, n, m) <==> m == i && n == j { RailHit(a1, a2, b1, b2, y, d, e, m, n); }
    assert Hit(a, b, i, j) && Hit(b, a, j, i);
  }

  lemma RailHit(a1: real, a2: real, b1: real, b2: real, y: real, d: real, e: real, m: int, n: int)
    requires d > 0.0 && e > 0.0 && d != e
    requires Lo(a1, a2) < Lo(b1, b2) < Hi(a1, a2) < Hi(b1, b2)
    ensures var a, b := Rail(a1, a2, y, d), Rail(b1, b2, y, e);
            var i, j := if d < e then 2 else if a1 < a2 then 3 else 1, if d > e then 2 else if b1 < b2 then 1 else 3;
            (Hit(a, b, m, n) <==> m == i && n == j) && (Hit(b, a, n, m) <==> m == i && n == j)
  {
    var a, b := Rail(a1, a2, y, d), Rail(b1, b2, y, e);
    if 0 < m < 4 && 0 < n < 4 {
      if (m == 2) == (n == 2) {
        ParallelNeverCross(a[m - 1], a[m], b[n - 1], b[n]);
        ParallelNeverCross(b[n - 1], b[n], a[m - 1], a[m]);
      } else if m == 2 {
        VerticalMeetsRun(b[n - 1], b[n], a[1], a[2]);
      } else {
        VerticalMeetsRun(a[m - 1], a[m], b[1], b[2]);
      }
    }
  }

  lemma MeetOnceMeets(a: seq<Point>, b: seq<Point>)
    requires MeetOnce(a, b)
    ensures PolylinesMeet(a, b)
  {
    var i, j :| Hit(a, b, i, j);
  }

  // ---- gutter line against gutter line, between the same two heights

  predicate IsLine(l: seq<Point>, top: Point, bottom: Point) {
    l == Straight(top, bottom) || l == Straight(bottom, top)
  }

  /** Two lines between the same pair of rows cross exactly on an inversion. */
  lemma GutterLines(l: seq<Point>, m: seq<Point>, u: Point, v: Point, s: Point, t: Point)
    requires IsLine(l, u, v) && IsLine(m, s, t)
    requires u.y == s.y < v.y == t.y && u.x != s.x && v.x != t.x
    ensures PolylinesMeet(l, m) <==> ((u.x < s.x) != (v.x < t.x))
  {
    var h := v.y - u.y;
    SignOfProduct(Orient(s, t, u), h, s.x - u.x);
    SignOfProduct(Orient(s, t, v), h, t.x - v.x);
    SignOfProduct(Orient(u, v, s), h, u.x - s.x);
    SignOfProduct(Orient(u, v, t), h, v.x - t.x);
    Reversed(s, t, u); Reversed(s, t, v); Reversed(u, v, s); Reversed(u, v, t);
    assert Hit(l, m, 1, 1) <==> ((u.x < s.x) != (v.x < t.x));
    assert forall i, j :: Hit(l, m, i, j) ==> i == 1 && j == 1;
  }

  lemma Reversed(a: Point, b: Point, c: Point)
    ensures Orient(b, a, c) == -Orient(a, b, c)
  {
  }

  // ---- a line leaving a row from strictly inside a rail's span

  /** A drop that meets a rail's vertical at or above its corner ends on the far
      side of that vertical. */
  lemma DropPassesVertical(d: Point, e: Point, x: real, depth: real)
    requires 0.0 < depth < e.y - d.y && x != d.x
    requires var f := (e.x - d.x) * depth - (e.y - d.y) * (x - d.x);
             if x < d.x then f <= 0.0 else f >= 0.0
    ensures if x < d.x then e.x < x else e.x > x
  {
    var h := e.y - d.y;
    var f := (e.x - d.x) * depth - h * (x - d.x);
    SignOfProduct(h * (x - d.x), h, x - d.x);
    SignOfProduct((e.x - d.x) * depth, e.x - d.x, depth);
    SignOfProduct((e.x - d.x) * (h - depth), e.x - d.x, h - depth);
    SignOfProduct(h * (e.x - x), h, e.x - x);
    assert h * (e.x - x) == (e.x - d.x) * (h - depth) + f;
  }

  /** A drop leaving strictly inside a rail's span pierces the rail: through the
      run, through a vertical, or exactly through a corner. */
  lemma DropPiercesRail(x1: real, x2: real, depth: real, d: Point, e: Point, line: seq<Point>)
    requires IsLine(line, d, e)
    requires 0.0 < depth < e.y - d.y
    requires Lo(x1, x2) < d.x < Hi(x1, x2)
    ensures PolylinesMeet(Rail(x1, x2, d.y, depth), line)
    ensures PolylinesMeet(line, Rail(x1, x2, d.y, depth))
  {
    var t1, c1, c2, t2 := Point(x1, d.y), Point(x1, d.y + depth), Point(x2, d.y + depth), Point(x2, d.y);
    OppositeSides(x1, x2, d, e, line);
    var s0 := Orient(line[0], line[1], t1) > 0.0;
    var s1 := Orient(line[0], line[1], c1) > 0.0;
    var s2 := Orient(line[0], line[1], c2) > 0.0;
    if s0 != s1 {
      PiercesVertical(d, e, line, t1, c1, depth);
      Meet(Rail(x1, x2, d.y, depth), line, 1, 1);
    } else if s1 != s2 {
      PiercesRun(d, e, line, c1, c2);
      Meet(Rail(x1, x2, d.y, depth), line, 2, 1);
    } else {
      PiercesVertical(d, e, line, t2, c2, depth);
      Meet(Rail(x1, x2, d.y, depth), line, 3, 1);
    }
  }

  lemma OppositeSides(x1: real, x2: real, d: Point, e: Point, line: seq<Point>)
    requires IsLine(line, d, e) && d.y < e.y && Lo(x1, x2) < d.x < Hi(x1, x2)
    ensures (Orient(line[0], line[1], Point(x1, d.y)) > 0.0) != (Orient(line[0], line[1], Point(x2, d.y)) > 0.0)
  {
    SignOfProduct(Orient(d, e, Point(x1, d.y)), e.y - d.y, d.x - x1);
    SignOfProduct(Orient(d, e, Point(x2, d.y)), e.y - d.y, d.x - x2);
    Reversed(d, e, Point(x1, d.y)); Reversed(d, e, Point(x2, d.y));
  }

  lemma Meet(a: seq<Point>, b: seq<Point>, i: int, j: int)
    requires 0 < i < |a| && 0 < j < |b|
    requires SegmentsCross(a[i - 1], a[i], b[j - 1], b[j]) && SegmentsCross(b[j - 1], b[j], a[i - 1], a[i])
    ensures PolylinesMeet(a, b) && PolylinesMeet(b, a)
  {
    assert Hit(a, b, i, j) && Hit(b, a, j, i);
  }

  lemma PiercesVertical(d: Point, e: Point, line: seq<Point>, top: Point, corner: Point, depth: real)
    requires IsLine(line, d, e) && 0.0 < depth < e.y - d.y
    requires top.x == corner.x != d.x && top.y == d.y && corner.y == d.y + depth
    requires (Orient(line[0], line[1], top) > 0.0) != (Orient(line[0], line[1], corner) > 0.0)
    ensures SegmentsCross(top, corner, line[0], line[1]) && SegmentsCross(line[0], line[1], top, corner)
    ensures SegmentsCross(corner, top, line[0], line[1]) && SegmentsCross(line[0], line[1], corner, top)
  {
    Reversed(d, e, top); Reversed(d, e, corner);
    SignOfProduct(Orient(d, e, top), e.y - d.y, d.x - top.x);
    DropPassesVertical(d, e, top.x, depth);
    SignOfProduct(Orient(top, corner, d), depth, top.x - d.x);
    SignOfProduct(Orient(top, corner, e), depth, top.x - e.x);
    Reversed(top, corner, d); Reversed(top, corner, e);
  }

  lemma PiercesRun(d: Point, e: Point, line: seq<Point>, l: Point, r: Point)
    requires IsLine(line, d, e)
    requires l.y == r.y && d.y < l.y < e.y && l.x != r.x
    requires (Orient(line[0], line[1], l) > 0.0) != (Orient(line[0], line[1], r) > 0.0)
    ensures SegmentsCross(l, r, line[0], line[1]) && SegmentsCross(line[0], line[1], l, r)
  {
    SignOfProduct(Orient(l, r, d), r.x - l.x, d.y - l.y);
    SignOfProduct(Orient(l, r, e), r.x - l.x, e.y - l.y);
    Reversed(d, e, l); Reversed(d, e, r);
  }
}
