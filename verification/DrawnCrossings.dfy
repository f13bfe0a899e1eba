/** Rails, lines across one gutter and drops beside rails: which pairs of lines
    really cross. */
module DrawnCrossings {
  import opened Bands
  import opened Sorting
  import opened Geometry
  import opened Rails
  import opened ArcDepths
  import opened ArcAnchors
  import opened Layouts
  import opened Clearance

  function LeftX(l: Layout, i: nat): real
    requires i < |l.g.ends| && i < |l.anchors| && l.g.ends[i].from < |l.pos| && l.g.ends[i].to < |l.pos|
  {
    EndOf(l.anchors[i], SideEnd(l.g, l.pos, true, i))
  }

  function RightX(l: Layout, i: nat): real
    requires i < |l.g.ends| && i < |l.anchors| && l.g.ends[i].from < |l.pos| && l.g.ends[i].to < |l.pos|
  {
    EndOf(l.anchors[i], SideEnd(l.g, l.pos, false, i))
  }

  /** The two slot intervals overlap without either containing the other. */
  predicate Interleaved(a: Arc, b: Arc) { a.lo < b.lo < a.hi < b.hi || b.lo < a.lo < b.hi < a.hi }

  lemma DistinctSlots(l: Layout)
    requires Placed(l)
    ensures SlotsDiffer(l.g, l.pos) && Fits(l.g, l.pos) && DepthsFor(l.g, l.pos, l.depth)
  {
    hide Slots, NoDup, FanDone, EdgePlaced, RowSpaced, BandDone;
    SlotsOrdered(l);
  }

  /** A rail spans from its left box to its right box. */
  lemma RailSpan(l: Layout, i: nat)
    requires Placed(l) && i < |l.g.ends| && l.g.SameBand(i)
    ensures var p, q := SideNode(l.g, l.pos, true, i), SideNode(l.g, l.pos, false, i);
            && l.pos[p] == ArcOf(l.g, l.pos, i).lo < ArcOf(l.g, l.pos, i).hi == l.pos[q]
            && l.g.bandOf[p] == l.g.bandOf[q] == l.BandOfEnd(i, 0)
            && l.boxes[p].CenterX() < LeftX(l, i) < l.boxes[p].Right() < l.boxes[q].x < RightX(l, i) < l.boxes[q].CenterX()
            && LeftX(l, i) == Lo(l.anchors[i].0, l.anchors[i].1) && RightX(l, i) == Hi(l.anchors[i].0, l.anchors[i].1)
  {
    hide Placed, SlotsDiffer, DepthsFor;
    Shape(l);
    AnchorOnBox(l, i, true);
    AnchorOnBox(l, i, false);
    SlotsApart(l, l.g.ends[i].from, l.g.ends[i].to);
    var p, q := SideNode(l.g, l.pos, true, i), SideNode(l.g, l.pos, false, i);
    SlotOrderIsXOrder(l, p, q);
  }

  lemma SlotsApart(l: Layout, m: nat, n: nat)
    requires Placed(l) && m < |l.boxes| && n < |l.boxes| && m != n && l.g.bandOf[m] == l.g.bandOf[n]
    ensures l.pos[m] != l.pos[n]
  {
    hide Placed, DepthsFor;
    Shape(l);
    DistinctSlots(l);
  }

  /** Rails hanging from two boxes in slot order hang in x order. */
  lemma LeftEndsOrdered(l: Layout, i: nat, j: nat)
    requires Placed(l) && i < |l.g.ends| && j < |l.g.ends| && i != j && l.g.SameBand(i) && l.g.SameBand(j)
    requires l.BandOfEnd(i, 0) == l.BandOfEnd(j, 0)
    ensures var a, b := ArcOf(l.g, l.pos, i), ArcOf(l.g, l.pos, j);
            && (a.lo < b.lo ==> LeftX(l, i) < LeftX(l, j))
            && (a.lo == b.lo && l.depth[i] > l.depth[j] ==> LeftX(l, i) < LeftX(l, j))
            && (a.hi < b.hi ==> RightX(l, i) < RightX(l, j))
            && (a.hi == b.hi && l.depth[i] < l.depth[j] ==> RightX(l, i) < RightX(l, j))
            && (a.lo < b.hi ==> LeftX(l, i) < RightX(l, j))
            && (a.hi <= b.lo ==> RightX(l, i) < LeftX(l, j))
  {
    hide Placed, LeftX, RightX;
    Shape(l);
    RailSpan(l, i);
    RailSpan(l, j);
    var p, q := SideNode(l.g, l.pos, true, i), SideNode(l.g, l.pos, false, i);
    var s, t := SideNode(l.g, l.pos, true, j), SideNode(l.g, l.pos, false, j);
    BoxOrder(l, p, s);
    BoxOrder(l, q, t);
    BoxOrder(l, p, t);
    BoxOrder(l, q, s);
    FansOrdered(l, i, j);
  }

  /** Same slot, same box; earlier slot, box strictly to the left. */
  lemma BoxOrder(l: Layout, m: nat, n: nat)
    requires Placed(l) && m < |l.boxes| && n < |l.boxes| && l.g.bandOf[m] == l.g.bandOf[n]
    ensures l.pos[m] == l.pos[n] ==> m == n
    ensures l.pos[m] < l.pos[n] ==> l.boxes[m].Right() < l.boxes[n].x
  {
    hide Placed;
    Shape(l);
    if m != n { SlotsApart(l, m, n); }
    if l.pos[m] < l.pos[n] { SlotOrderIsXOrder(l, m, n); }
  }

  lemma FansOrdered(l: Layout, i: nat, j: nat)
    requires Placed(l) && i < |l.g.ends| && j < |l.g.ends| && l.g.SameBand(i) && l.g.SameBand(j)
    ensures SideNode(l.g, l.pos, true, i) == SideNode(l.g, l.pos, true, j) && l.depth[i] > l.depth[j] ==> LeftX(l, i) < LeftX(l, j)
    ensures SideNode(l.g, l.pos, false, i) == SideNode(l.g, l.pos, false, j) && l.depth[i] < l.depth[j] ==> RightX(l, i) < RightX(l, j)
  {
    hide Slots, NoDup, FanDone, EdgePlaced, RowSpaced, BandDone;
    var p, q := SideNode(l.g, l.pos, true, i), SideNode(l.g, l.pos, false, i);
    if p == SideNode(l.g, l.pos, true, j) {
      AnchorRules(l.g, l.pos, l.depth, l.boxes, l.anchors, p, true,
                  Ray(i, SideEnd(l.g, l.pos, true, i)), Ray(j, SideEnd(l.g, l.pos, true, j)));
    }
    if q == SideNode(l.g, l.pos, false, j) {
      AnchorRules(l.g, l.pos, l.depth, l.boxes, l.anchors, q, false,
                  Ray(j, SideEnd(l.g, l.pos, false, j)), Ray(i, SideEnd(l.g, l.pos, false, i)));
    }
  }

  /** Two rails of a band are drawn crossing exactly when their slot intervals
      interleave, and then exactly once -- so rails sharing a box never cross,
      whatever a hub's degree. */
  lemma RailsCrossIffInterleaved(l: Layout, i: nat, j: nat)
    requires Placed(l) && i < |l.g.ends| && j < |l.g.ends| && i != j && l.g.SameBand(i) && l.g.SameBand(j)
    requires l.BandOfEnd(i, 0) == l.BandOfEnd(j, 0)
    ensures PolylinesMeet(Polyline(l.lines[i]), Polyline(l.lines[j]))
            <==> Interleaved(ArcOf(l.g, l.pos, i), ArcOf(l.g, l.pos, j))
    ensures PolylinesMeet(Polyline(l.lines[i]), Polyline(l.lines[j])) ==> MeetOnce(Polyline(l.lines[i]), Polyline(l.lines[j]))
  {
    hide MeetOnce, Placed, SlotsDiffer, DepthsFor, PolylinesMeet, Polyline, Rail, Lo, Hi, ArcOf, LeftX, RightX, SideNode, SideEnd;
    Shape(l);
    DistinctSlots(l);
    RailWithinLane(l, i);
    RailWithinLane(l, j);
    RailSpan(l, i);
    RailSpan(l, j);
    DepthRules(l.g, l.pos, l.depth, i, j);
    DepthRules(l.g, l.pos, l.depth, j, i);
    LeftEndsOrdered(l, i, j);
    LeftEndsOrdered(l, j, i);
    var a, b := ArcOf(l.g, l.pos, i), ArcOf(l.g, l.pos, j);
    var y := l.Bottom(l.BandOfEnd(i, 0));
    var (a1, a2) := l.anchors[i];
    var (b1, b2) := l.anchors[j];
    if a.lo < b.lo < a.hi < b.hi {
      RailsInterleaved(a1, a2, b1, b2, y, l.depth[i], l.depth[j]);
      MeetOnceMeets(Polyline(l.lines[i]), Polyline(l.lines[j]));
    } else if b.lo < a.lo < b.hi < a.hi {
      RailsInterleaved(b1, b2, a1, a2, y, l.depth[j], l.depth[i]);
      MeetOnceMeets(Polyline(l.lines[i]), Polyline(l.lines[j]));
    } else if a.hi <= b.lo || Contained(a, b) || (a.lo == b.lo && a.hi == b.hi && l.depth[i] < l.depth[j]) {
      RailsApart(a1, a2, b1, b2, y, l.depth[i], l.depth[j]);
    } else {
      RailsApart(b1, b2, a1, a2, y, l.depth[j], l.depth[i]);
    }
  }

  // ---- lines between adjacent bands

  /** Every edge stays in its band or joins neighbouring bands. */
  ghost predicate AllAdjacent(g: Graph)
    requires g.Valid()
  {
    forall i :: 0 <= i < |g.ends| ==> Distance(g.bandOf[g.ends[i].from], g.bandOf[g.ends[i].to]) <= 1
  }

  function Upper(g: Graph, i: nat): nat
    requires i < |g.ends| && g.ends[i].from < |g.bandOf| && g.ends[i].to < |g.bandOf|
  {
    UpperLower(g, g.ends[i]).0
  }

  function Lower(g: Graph, i: nat): nat
    requires i < |g.ends| && g.ends[i].from < |g.bandOf| && g.ends[i].to < |g.bandOf|
  {
    UpperLower(g, g.ends[i]).1
  }

  function TopPoint(l: Layout, i: nat): Point
    requires i < |l.g.ends| && l.g.ends[i].from < |l.g.bandOf| && l.g.ends[i].to < |l.g.bandOf| && |l.boxes| == |l.g.bandOf|
  {
    var u := l.boxes[Upper(l.g, i)]; Point(u.CenterX(), u.Bottom())
  }

  function FootPoint(l: Layout, i: nat): Point
    requires i < |l.g.ends| && l.g.ends[i].from < |l.g.bandOf| && l.g.ends[i].to < |l.g.bandOf| && |l.boxes| == |l.g.bandOf|
  {
    var w := l.boxes[Lower(l.g, i)]; Point(w.CenterX(), w.y)
  }

  /** An edge between neighbouring bands is one straight line across the gutter. */
  lemma GutterLine(l: Layout, i: nat)
    requires Placed(l) && i < |l.g.ends| && Distance(l.BandOfEnd(i, 0), l.BandOfEnd(i, 1)) == 1
    ensures IsLine(Polyline(l.lines[i]), TopPoint(l, i), FootPoint(l, i))
    ensures var b := l.g.bandOf[Upper(l.g, i)];
            && b + 1 < |l.bands| && l.g.bandOf[Lower(l.g, i)] == b + 1
            && TopPoint(l, i).y == l.Bottom(b) && FootPoint(l, i).y == l.tops[b + 1] == l.Bottom(b) + l.lanes[b] + BAND_GUTTER
  {
    hide Placed, Ordered, ChannelAt, RowSpaced;
    Shape(l);
    EdgeShape(l, i);
    BoxShape(l, l.g.ends[i].from);
    BoxShape(l, l.g.ends[i].to);
    AdjacentTops(l, l.g.bandOf[Upper(l.g, i)]);
  }

  predicate SharesEndpoint(g: Graph, i: nat, j: nat)
    requires i < |g.ends| && j < |g.ends|
  {
    var a, b := g.ends[i], g.ends[j];
    a.from == b.from || a.from == b.to || a.to == b.from || a.to == b.to
  }

  lemma CentresOrdered(l: Layout, m: nat, n: nat)
    requires Placed(l) && m < |l.boxes| && n < |l.boxes| && m != n && l.g.bandOf[m] == l.g.bandOf[n]
    ensures l.boxes[m].CenterX() != l.boxes[n].CenterX() && l.pos[m] != l.pos[n]
    ensures l.boxes[m].CenterX() < l.boxes[n].CenterX() <==> l.pos[m] < l.pos[n]
  {
    hide Placed;
    Shape(l);
    SlotsApart(l, m, n);
    BoxOrder(l, m, n);
    BoxOrder(l, n, m);
    BoxShape(l, m);
    BoxShape(l, n);
  }

  /** Where an edge leaves its upper box, and its first stretch below it. */
  lemma FirstStretch(l: Layout, i: nat) returns (k: nat, e: Point)
    requires Placed(l) && i < |l.g.ends| && !l.g.SameBand(i)
    ensures k + 1 < |Polyline(l.lines[i])|
    ensures IsLine(Polyline(l.lines[i])[k..k + 2], TopPoint(l, i), e)
    ensures var b := l.g.bandOf[Upper(l.g, i)];
            b < |l.bands| && TopPoint(l, i).y == l.Bottom(b) && e.y >= l.Bottom(b) + l.lanes[b] + BAND_GUTTER - CHANNEL_PAD
  {
    hide Placed, Ordered, Routed;
    Shape(l);
    EdgeShape(l, i);
    BoxShape(l, l.g.ends[i].from);
    BoxShape(l, l.g.ends[i].to);
    var from, to, w := l.BandOfEnd(i, 0), l.BandOfEnd(i, 1), Polyline(l.lines[i]);
    var d := Distance(from, to);
    if from < to {
      k := 0;
      RoutedVertices(l, i, 0);
      AdjacentTops(l, from);
      e := w[1];
    } else {
      k := 2 * d - 2;
      RoutedVertices(l, i, d - 1);
      AdjacentTops(l, to);
      e := w[k];
    }
  }

  lemma PartMeets(a: seq<Point>, w: seq<Point>, k: nat)
    requires k + 1 < |w| && PolylinesMeet(a, w[k..k + 2]) && PolylinesMeet(w[k..k + 2], a)
    ensures PolylinesMeet(a, w) && PolylinesMeet(w, a)
  {
    hide SegmentsCross;
    var part := w[k..k + 2];
    var i, j :| Hit(a, part, i, j);
    assert Hit(a, w, i, k + 1);
    var m, n :| Hit(part, a, m, n);
    assert Hit(w, a, k + 1, n);
  }

  /** A line leaving a box strictly inside a rail's span cannot get out of the
      band without piercing the rail, however far down it goes. */
  lemma DropInsideRailCrosses(l: Layout, i: nat, j: nat)
    requires Placed(l) && i < |l.g.ends| && j < |l.g.ends| && l.g.SameBand(i) && !l.g.SameBand(j)
    requires l.g.bandOf[Upper(l.g, j)] == l.BandOfEnd(i, 0)
    requires ArcOf(l.g, l.pos, i).lo < l.pos[Upper(l.g, j)] < ArcOf(l.g, l.pos, i).hi
    ensures PolylinesMeet(Polyline(l.lines[i]), Polyline(l.lines[j])) && PolylinesMeet(Polyline(l.lines[j]), Polyline(l.lines[i]))
  {
    hide Placed, PolylinesMeet, Polyline, IsLine, Rail, Lo, Hi, LeftX, RightX;
    Shape(l);
    RailWithinLane(l, i);
    RailSpan(l, i);
    var n := Upper(l.g, j);
    var p, q := SideNode(l.g, l.pos, true, i), SideNode(l.g, l.pos, false, i);
    BoxOrder(l, p, n);
    BoxOrder(l, n, q);
    BoxShape(l, n);
    var k, e := FirstStretch(l, j);
    var part := Polyline(l.lines[j])[k..k + 2];
    DropPiercesRail(l.anchors[i].0, l.anchors[i].1, l.depth[i], TopPoint(l, j), e, part);
    PartMeets(Polyline(l.lines[i]), Polyline(l.lines[j]), k);
  }

  // ---- everything else stays in slabs of its own

  /** All of a polyline lies in the slab [lo, hi]. */
  ghost predicate WithinSlab(w: seq<Point>, lo: real, hi: real) {
    forall k :: 0 <= k < |w| ==> lo <= w[k].y <= hi
  }

  lemma SlabsKeepApart(v: seq<Point>, w: seq<Point>, a: real, b: real, c: real, d: real)
    requires WithinSlab(v, a, b) && WithinSlab(w, c, d) && (b < c || d < a)
    ensures !PolylinesMeet(v, w)
  {
    hide SegmentsCross;
    forall i, j ensures !Hit(v, w, i, j) {
      if !(0 < i < |v| && 0 < j < |w|) {
      } else if b < c {
        SlabsApart(v[i - 1], v[i], w[j - 1], w[j], b);
      } else {
        SlabsApart(w[j - 1], w[j], v[i - 1], v[i], d);
      }
    }
  }

  /** Edge i stays in its band or joins neighbouring bands, and hangs below band b. */
  ghost predicate HangsBelow(l: Layout, i: nat, b: nat) {
    && i < |l.g.ends| == |l.lines| && l.g.ends[i].from < |l.g.bandOf| && l.g.ends[i].to < |l.g.bandOf|
    && Distance(l.BandOfEnd(i, 0), l.BandOfEnd(i, 1)) <= 1 && l.g.bandOf[Upper(l.g, i)] == b
  }

  /** An edge to a neighbouring band fills the gutter below its upper band; a
      rail, its lane. */
  lemma EdgeSlab(l: Layout, i: nat, b: nat)
    requires Placed(l) && HangsBelow(l, i, b)
    ensures b < |l.bands| == |l.tops| == |l.lanes|
    ensures WithinSlab(Polyline(l.lines[i]), l.Bottom(b), l.Bottom(b) + l.lanes[b] + BAND_GUTTER)
  {
    hide Placed;
    Shape(l);
    if l.g.SameBand(i) { RailWithinLane(l, i); } else { GutterLine(l, i); }
  }

  lemma DifferentBandsApart(l: Layout, i: nat, j: nat, b: nat, c: nat)
    requires Placed(l) && HangsBelow(l, i, b) && HangsBelow(l, j, c) && b != c
    ensures !PolylinesMeet(Polyline(l.lines[i]), Polyline(l.lines[j]))
  {
    hide Placed, PolylinesMeet, Polyline, WithinSlab;
    EdgeSlab(l, i, b);
    EdgeSlab(l, j, c);
    BandsTopDown(l, if b < c then b else c, if b < c then c else b);
    SlabsKeepApart(Polyline(l.lines[i]), Polyline(l.lines[j]),
                   l.Bottom(b), l.Bottom(b) + l.lanes[b] + BAND_GUTTER, l.Bottom(c), l.Bottom(c) + l.lanes[c] + BAND_GUTTER);
  }
}
