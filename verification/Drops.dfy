/** A rail and a line leaving its band downwards: exactly when the two are drawn
    crossing. */
module Drops {
  import opened Bands
  import opened Sorting
  import opened Geometry
  import opened Rails
  import opened ArcDepths
  import opened ArcAnchors
  import opened Layouts
  import opened Clearance
  import opened DrawnCrossings

  // ---- one rail and one straight drop

  /** Which side of a drawn segment p is on. */
  predicate Side(line: seq<Point>, p: Point)
    requires |line| == 2
  {
    Orient(line[0], line[1], p) > 0.0
  }

  /** A drop to below a rail meets it exactly when the four corners of the rail are
      not all on one side of it. */
  lemma RailMeetsLineIff(x1: real, x2: real, depth: real, d: Point, e: Point, line: seq<Point>)
    requires IsLine(line, d, e) && 0.0 < depth < e.y - d.y && x1 != d.x && x2 != d.x && x1 != x2
    ensures var r := Rail(x1, x2, d.y, depth);
            var one := Side(line, r[0]) == Side(line, r[1]) == Side(line, r[2]) == Side(line, r[3]);
            && (PolylinesMeet(r, line) <==> !one)
            && (PolylinesMeet(line, r) <==> !one)
  {
    hide Side, IsLine;
    LineHasTwo(line, d, e);
    var r := Rail(x1, x2, d.y, depth);
    forall i | 0 < i < |r|
      ensures SegmentsCross(r[i - 1], r[i], line[0], line[1]) <==> Side(line, r[i - 1]) != Side(line, r[i])
      ensures SegmentsCross(line[0], line[1], r[i - 1], r[i]) <==> Side(line, r[i - 1]) != Side(line, r[i])
    {
      CrossNeedsSides(line, r[i - 1], r[i]);
      if Side(line, r[i - 1]) != Side(line, r[i]) { LegMeets(x1, x2, depth, d, e, line, i); }
    }
    hide Rail, SegmentsCross;
    MeetsOneSegment(r, line);
  }

  lemma LineHasTwo(line: seq<Point>, d: Point, e: Point)
    requires IsLine(line, d, e)
    ensures |line| == 2
  {
  }

  lemma CrossNeedsSides(line: seq<Point>, p: Point, q: Point)
    requires |line| == 2
    ensures SegmentsCross(p, q, line[0], line[1]) ==> Side(line, p) != Side(line, q)
    ensures SegmentsCross(line[0], line[1], p, q) ==> Side(line, p) != Side(line, q)
  {
  }

  lemma LegMeets(x1: real, x2: real, depth: real, d: Point, e: Point, line: seq<Point>, i: nat)
    requires IsLine(line, d, e) && |line| == 2 && 0.0 < depth < e.y - d.y && x1 != d.x && x2 != d.x && x1 != x2 && 0 < i < 4
    requires var r := Rail(x1, x2, d.y, depth); Side(line, r[i - 1]) != Side(line, r[i])
    ensures var r := Rail(x1, x2, d.y, depth);
            SegmentsCross(r[i - 1], r[i], line[0], line[1]) && SegmentsCross(line[0], line[1], r[i - 1], r[i])
  {
    hide SegmentsCross, Orient;
    var r := Rail(x1, x2, d.y, depth);
    if i == 1 { PiercesVertical(d, e, line, r[0], r[1], depth); }
    else if i == 2 { PiercesRun(d, e, line, r[1], r[2]); }
    else { PiercesVertical(d, e, line, r[3], r[2], depth); }
  }

  lemma MeetsOneSegment(r: seq<Point>, l: seq<Point>)
    requires |r| == 4 && |l| == 2
    ensures PolylinesMeet(r, l) <==>
            SegmentsCross(r[0], r[1], l[0], l[1]) || SegmentsCross(r[1], r[2], l[0], l[1]) || SegmentsCross(r[2], r[3], l[0], l[1])
    ensures PolylinesMeet(l, r) <==>
            SegmentsCross(l[0], l[1], r[0], r[1]) || SegmentsCross(l[0], l[1], r[1], r[2]) || SegmentsCross(l[0], l[1], r[2], r[3])
  {
    hide SegmentsCross;
    forall i | 0 < i < 4 ensures Hit(r, l, i, 1) == SegmentsCross(r[i - 1], r[i], l[0], l[1]) && Hit(l, r, 1, i) == SegmentsCross(l[0], l[1], r[i - 1], r[i]) {}
    assert Hit(r, l, 1, 1) == SegmentsCross(r[0], r[1], l[0], l[1]) && Hit(l, r, 1, 1) == SegmentsCross(l[0], l[1], r[0], r[1]);
    assert Hit(r, l, 2, 1) == SegmentsCross(r[1], r[2], l[0], l[1]) && Hit(l, r, 1, 2) == SegmentsCross(l[0], l[1], r[1], r[2]);
    assert Hit(r, l, 3, 1) == SegmentsCross(r[2], r[3], l[0], l[1]) && Hit(l, r, 1, 3) == SegmentsCross(l[0], l[1], r[2], r[3]);
  }

  /** How far right of x a drop from d to e is at the given depth, times its height. */
  function Beyond(d: Point, e: Point, depth: real, x: real): real { (e.x - d.x) * depth - (x - d.x) * (e.y - d.y) }

  /** From outside its span, a drop meets a rail exactly when it is past the rail's
      near leg by the time it is as deep as the rail; when it is just at that leg,
      it depends on which way it is drawn. */
  lemma OutsideMeetsIff(x1: real, x2: real, depth: real, d: Point, e: Point, line: seq<Point>)
    requires IsLine(line, d, e) && 0.0 < depth < e.y - d.y && x1 != x2 && (d.x < Lo(x1, x2) || d.x > Hi(x1, x2))
    ensures var f := Beyond(d, e, depth, if d.x < Lo(x1, x2) then Lo(x1, x2) else Hi(x1, x2));
            var meets := if d.x < Lo(x1, x2) then f > 0.0 || (f == 0.0 && line == [e, d]) else f < 0.0 || (f == 0.0 && line == [d, e]);
            && (PolylinesMeet(Rail(x1, x2, d.y, depth), line) <==> meets)
            && (PolylinesMeet(line, Rail(x1, x2, d.y, depth)) <==> meets)
  {
    hide PolylinesMeet, Side;
    RailMeetsLineIff(x1, x2, depth, d, e, line);
    SideOfTop(d, e, line, x1);
    SideOfTop(d, e, line, x2);
    SideOfCorner(d, e, line, depth, x1);
    SideOfCorner(d, e, line, depth, x2);
    BeyondFalls(d, e, depth, Lo(x1, x2), Hi(x1, x2));
    hide Beyond;
  }

  lemma SideOfTop(d: Point, e: Point, line: seq<Point>, x: real)
    requires IsLine(line, d, e) && d.y < e.y && x != d.x
    ensures |line| == 2 && line[0] != line[1] && (Side(line, Point(x, d.y)) <==> (x < d.x) == (line == [d, e]))
  {
    var p := Point(x, d.y);
    SignOfProduct(Orient(d, e, p), e.y - d.y, d.x - x);
    Reversed(d, e, p);
  }

  lemma SideOfCorner(d: Point, e: Point, line: seq<Point>, depth: real, x: real)
    requires IsLine(line, d, e) && d.y < e.y
    ensures |line| == 2 && (Side(line, Point(x, d.y + depth)) <==> if line == [d, e] then Beyond(d, e, depth, x) > 0.0 else Beyond(d, e, depth, x) < 0.0)
  {
    var p := Point(x, d.y + depth);
    assert p.y - d.y == depth;
    OrientIs(d, e, p, depth);
    Reversed(d, e, p);
    hide Beyond, Orient;
  }

  lemma OrientIs(d: Point, e: Point, p: Point, depth: real)
    requires p.y - d.y == depth
    ensures Orient(d, e, p) == Beyond(d, e, depth, p.x)
  {
    Commute(e.y - d.y, p.x - d.x);
  }

  lemma Commute(a: real, b: real)
    ensures a * b == b * a
  {
  }

  lemma BeyondFalls(d: Point, e: Point, depth: real, a: real, b: real)
    requires a < b && d.y < e.y
    ensures Beyond(d, e, depth, a) > Beyond(d, e, depth, b)
  {
    var h := e.y - d.y;
    SignOfProduct((b - a) * h, b - a, h);
    assert (b - d.x) * h == (a - d.x) * h + (b - a) * h;
  }

  // ---- in a layout

  /** Edge i is a rail and edge j leaves its band downwards, from a box that is
      neither end of i. */
  ghost predicate DropBeside(g: Graph, i: nat, j: nat)
    requires g.Valid() && i < |g.ends| && j < |g.ends|
  {
    && g.SameBand(i) && !g.SameBand(j) && g.bandOf[Upper(g, j)] == g.bandOf[g.ends[i].from]
    && Upper(g, j) != g.ends[i].from && Upper(g, j) != g.ends[i].to
  }

  /** The end of j's first stretch below its upper box. */
  function Bend(l: Layout, j: nat): Point
    requires j < |l.g.ends| == |l.lines| && l.g.ends[j].from < |l.g.bandOf| && l.g.ends[j].to < |l.g.bandOf|
  {
    var w := Polyline(l.lines[j]);
    if l.BandOfEnd(j, 0) < l.BandOfEnd(j, 1) then w[1] else w[|w| - 2]
  }

  /** That stretch, as drawn, and where its first point stands in the line. */
  function StretchAt(l: Layout, j: nat): nat
    requires j < |l.g.ends| == |l.lines| && l.g.ends[j].from < |l.g.bandOf| && l.g.ends[j].to < |l.g.bandOf|
  {
    if l.BandOfEnd(j, 0) < l.BandOfEnd(j, 1) then 0 else |Polyline(l.lines[j])| - 2
  }

  function Stretch(l: Layout, j: nat): seq<Point>
    requires j < |l.g.ends| == |l.lines| && l.g.ends[j].from < |l.g.bandOf| && l.g.ends[j].to < |l.g.bandOf|
  {
    Polyline(l.lines[j])[StretchAt(l, j)..StretchAt(l, j) + 2]
  }

  lemma StretchIs(l: Layout, j: nat)
    requires Placed(l) && j < |l.g.ends| == |l.lines| && !l.g.SameBand(j)
    ensures Stretch(l, j) == if l.BandOfEnd(j, 0) < l.BandOfEnd(j, 1) then [TopPoint(l, j), Bend(l, j)] else [Bend(l, j), TopPoint(l, j)]
  {
    hide Placed, Ordered, Routed;
    Shape(l);
    EdgeShape(l, j);
    BoxShape(l, l.g.ends[j].from);
    BoxShape(l, l.g.ends[j].to);
  }

  /** Every vertex of a line but its end at the upper box lies below the lane there. */
  lemma VerticesBelow(l: Layout, j: nat, m: nat)
    requires Placed(l) && j < |l.g.ends| == |l.lines| && !l.g.SameBand(j) && m < |Polyline(l.lines[j])|
    requires m != if l.BandOfEnd(j, 0) < l.BandOfEnd(j, 1) then 0 else |Polyline(l.lines[j])| - 1
    ensures var b := l.g.bandOf[Upper(l.g, j)];
            b < |l.tops| == |l.lanes| && Polyline(l.lines[j])[m].y > l.Bottom(b) + l.lanes[b]
  {
    hide Placed, Polyline;
    Shape(l);
    var from, to, b := l.BandOfEnd(j, 0), l.BandOfEnd(j, 1), l.g.bandOf[Upper(l.g, j)];
    var k := m / 2;
    LineLength(l, j);
    RoutedVertices(l, j, k);
    var c := if m % 2 == 0 then Passed(from, to, k) else Passed(from, to, k + 1);
    assert b < c < |l.bands|;
    BandsTopDown(l, b, c);
  }

  lemma LineLength(l: Layout, j: nat)
    requires Placed(l) && j < |l.g.ends| == |l.lines| && !l.g.SameBand(j)
    ensures |Polyline(l.lines[j])| == 2 * Distance(l.BandOfEnd(j, 0), l.BandOfEnd(j, 1))
  {
    hide Placed;
    RoutedVertices(l, j, 0);
  }

  /** So only the first stretch can meet a rail of the band. */
  lemma OnlyFirstStretch(r: seq<Point>, w: seq<Point>, k: nat, top: nat, y: real)
    requires k + 1 < |w| && ((k == 0 && top == 0) || (k == |w| - 2 && top == |w| - 1))
    requires (forall i :: 0 <= i < |r| ==> r[i].y <= y) && forall m :: 0 <= m < |w| && m != top ==> w[m].y > y
    ensures PolylinesMeet(r, w) <==> PolylinesMeet(r, w[k..k + 2])
    ensures PolylinesMeet(w, r) <==> PolylinesMeet(w[k..k + 2], r)
  {
    hide SegmentsCross;
    var part := w[k..k + 2];
    forall i, m ensures Hit(r, w, i, m) ==> m == k + 1 && Hit(r, part, i, 1) {
      if Hit(r, w, i, m) && m != k + 1 { SlabsApart(r[i - 1], r[i], w[m - 1], w[m], y); }
    }
    forall i, m ensures Hit(w, r, m, i) ==> m == k + 1 && Hit(part, r, 1, i) {
      if Hit(w, r, m, i) && m != k + 1 { SlabsApart(r[i - 1], r[i], w[m - 1], w[m], y); }
    }
    forall i, m ensures Hit(r, part, i, m) ==> m == 1 && Hit(r, w, i, k + 1) {}
    forall i, m ensures Hit(part, r, m, i) ==> m == 1 && Hit(w, r, k + 1, i) {}
  }

  /** x lies strictly between the centres of the two boxes of rail i. */
  predicate Amid(l: Layout, i: nat, x: real)
    requires i < |l.g.ends| && l.g.ends[i].from < |l.boxes| && l.g.ends[i].to < |l.boxes|
  {
    || l.boxes[l.g.ends[i].from].CenterX() < x < l.boxes[l.g.ends[i].to].CenterX()
    || l.boxes[l.g.ends[i].to].CenterX() < x < l.boxes[l.g.ends[i].from].CenterX()
  }

  /** Line j leaves from beyond one end of rail i and is past the leg of the rail on
      that side by the time it is as deep as the rail -- or just there, and drawn
      upwards on the left, downwards on the right. */
  ghost predicate Clips(l: Layout, i: nat, j: nat) {
    && l.g.Valid() && i < |l.g.ends| == |l.lines| == |l.anchors| == |l.depth| && j < |l.lines| && |l.boxes| == |l.g.bandOf| && DropBeside(l.g, i, j)
    && var a, b, d, e := l.boxes[l.g.ends[i].from].CenterX(), l.boxes[l.g.ends[i].to].CenterX(), TopPoint(l, j), Bend(l, j);
       var left, right, downwards := Lo(l.anchors[i].0, l.anchors[i].1), Hi(l.anchors[i].0, l.anchors[i].1), l.BandOfEnd(j, 0) < l.BandOfEnd(j, 1);
       || (d.x < a && d.x < b && (Beyond(d, e, l.depth[i], left) > 0.0 || (Beyond(d, e, l.depth[i], left) == 0.0 && !downwards)))
       || (d.x > a && d.x > b && (Beyond(d, e, l.depth[i], right) < 0.0 || (Beyond(d, e, l.depth[i], right) == 0.0 && downwards)))
  }

  /** Where the box of a drop stands beside a rail. */
  lemma DropSlots(l: Layout, i: nat, n: nat)
    requires Placed(l) && i < |l.g.ends| == |l.anchors| && l.g.SameBand(i) && n < |l.boxes| == |l.pos| == |l.g.bandOf|
    requires l.g.bandOf[n] == l.BandOfEnd(i, 0) && n != l.g.ends[i].from && n != l.g.ends[i].to
    ensures var a, b, x := l.boxes[l.g.ends[i].from].CenterX(), l.boxes[l.g.ends[i].to].CenterX(), l.boxes[n].CenterX();
            var left, right := Lo(l.anchors[i].0, l.anchors[i].1), Hi(l.anchors[i].0, l.anchors[i].1);
            && (Amid(l, i, x) ==> ArcOf(l.g, l.pos, i).lo < l.pos[n] < ArcOf(l.g, l.pos, i).hi)
            && (!Amid(l, i, x) ==> (x < a && x < b && x < left) || (x > a && x > b && x > right))
            && left < right
  {
    hide Placed, LeftX, RightX, Lo, Hi, SlotsDiffer, DepthsFor;
    Shape(l);
    RailSpan(l, i);
    CentresOrdered(l, l.g.ends[i].from, n);
    CentresOrdered(l, l.g.ends[i].to, n);
    SlotsApart(l, l.g.ends[i].from, l.g.ends[i].to);
  }

  /** Only the first stretch of the drop comes near the rail. */
  lemma DropPart(l: Layout, i: nat, j: nat)
    requires Placed(l) && l.g.Valid() && i < |l.g.ends| == |l.lines| && j < |l.g.ends| && DropBeside(l.g, i, j)
    ensures PolylinesMeet(Polyline(l.lines[i]), Polyline(l.lines[j])) <==> PolylinesMeet(Polyline(l.lines[i]), Stretch(l, j))
    ensures PolylinesMeet(Polyline(l.lines[j]), Polyline(l.lines[i])) <==> PolylinesMeet(Stretch(l, j), Polyline(l.lines[i]))
  {
    hide Placed, PolylinesMeet, Polyline;
    Shape(l);
    RailWithinLane(l, i);
    LineLength(l, j);
    var w, b := Polyline(l.lines[j]), l.g.bandOf[Upper(l.g, j)];
    var top := if l.BandOfEnd(j, 0) < l.BandOfEnd(j, 1) then 0 else |w| - 1;
    forall m | 0 <= m < |w| && m != top ensures w[m].y > l.Bottom(b) + l.lanes[b] { VerticesBelow(l, j, m); }
    OnlyFirstStretch(Polyline(l.lines[i]), w, StretchAt(l, j), top, l.Bottom(b) + l.lanes[b]);
  }

  /** The first stretch runs from the upper box to below the lane. */
  lemma StretchDrops(l: Layout, j: nat)
    requires Placed(l) && j < |l.g.ends| == |l.lines| && !l.g.SameBand(j)
    ensures var d, e, b := TopPoint(l, j), Bend(l, j), l.g.bandOf[Upper(l.g, j)];
            && b < |l.tops| == |l.lanes| && d.x == l.boxes[Upper(l.g, j)].CenterX() && d.y == l.Bottom(b) && e.y > l.Bottom(b) + l.lanes[b]
            && Stretch(l, j) == (if l.BandOfEnd(j, 0) < l.BandOfEnd(j, 1) then [d, e] else [e, d])
  {
    hide Placed, Polyline, Stretch;
    Shape(l);
    StretchIs(l, j);
    LineLength(l, j);
    BoxShape(l, Upper(l.g, j));
    VerticesBelow(l, j, if l.BandOfEnd(j, 0) < l.BandOfEnd(j, 1) then 1 else |Polyline(l.lines[j])| - 2);
  }

  lemma DropOutsideMeets(l: Layout, i: nat, j: nat)
    requires Placed(l) && l.g.Valid() && i < |l.g.ends| == |l.lines| == |l.anchors| == |l.depth| && j < |l.g.ends| && DropBeside(l.g, i, j)
    requires |l.boxes| == |l.pos| == |l.g.bandOf| && !Amid(l, i, l.boxes[Upper(l.g, j)].CenterX())
    ensures PolylinesMeet(Polyline(l.lines[i]), Stretch(l, j)) <==> Clips(l, i, j)
    ensures PolylinesMeet(Stretch(l, j), Polyline(l.lines[i])) <==> Clips(l, i, j)
  {
    hide Placed, PolylinesMeet, Polyline, Beyond, Bend, Stretch, Rail, TopPoint, Amid, ArcOf;
    Shape(l);
    RailWithinLane(l, i);
    StretchDrops(l, j);
    DropSlots(l, i, Upper(l.g, j));
    var d, e := TopPoint(l, j), Bend(l, j);
    OutsideMeetsIff(l.anchors[i].0, l.anchors[i].1, l.depth[i], d, e, Stretch(l, j));
  }

  /** A rail and a line leaving its band are drawn crossing, in either order, exactly
      when the line leaves from between the rail's boxes, or clips it from beyond. */
  lemma DropDrawnIff(l: Layout, i: nat, j: nat)
    requires Placed(l) && l.g.Valid() && i < |l.g.ends| == |l.lines| && j < |l.g.ends| && |l.boxes| == |l.g.bandOf| && DropBeside(l.g, i, j)
    ensures var meets := Amid(l, i, l.boxes[Upper(l.g, j)].CenterX()) || Clips(l, i, j);
            && (PolylinesMeet(Polyline(l.lines[i]), Polyline(l.lines[j])) <==> meets)
            && (PolylinesMeet(Polyline(l.lines[j]), Polyline(l.lines[i])) <==> meets)
  {
    hide Placed, PolylinesMeet, Polyline, Beyond, Bend, Stretch, TopPoint, Lo, Hi, ArcOf;
    Shape(l);
    var x := l.boxes[Upper(l.g, j)].CenterX();
    StretchDrops(l, j);
    DropSlots(l, i, Upper(l.g, j));
    if Amid(l, i, x) {
      DropInsideRailCrosses(l, i, j);
    } else {
      DropPart(l, i, j);
      DropOutsideMeets(l, i, j);
    }
  }
}
