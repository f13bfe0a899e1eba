/** No line of a layout enters a box, boxes never overlap, and the whole drawing
    lies on its canvas -- whatever the graph. */
module Clearance {
  import opened Bands
  import opened Sorting
  import opened Geometry
  import opened Rails
  import opened ArcDepths
  import opened ArcAnchors
  import opened Layouts

  predicate Inside(box: Box, p: Point) { box.x < p.x < box.Right() && box.y < p.y < box.Bottom() }

  /** No point of the segment is inside any box. */
  ghost predicate Clear(l: Layout, p: Point, q: Point) {
    forall t, n {:trigger Inside(l.boxes[n], At(p, q, t))} ::
      0.0 <= t <= 1.0 && 0 <= n < |l.boxes| ==> !Inside(l.boxes[n], At(p, q, t))
  }

  ghost predicate OnCanvas(l: Layout, p: Point) { 0.0 <= p.x <= l.width && 0.0 <= p.y <= l.height }

  // ---- boxes

  lemma PlacedOrdered(l: Layout)
    requires Placed(l)
    ensures Ordered(l)
  {
  }

  lemma BoxesDisjoint(l: Layout, m: nat, n: nat, p: Point)
    requires Placed(l) && m < |l.boxes| && n < |l.boxes| && m != n
    ensures !(Inside(l.boxes[m], p) && Inside(l.boxes[n], p))
  {
    hide Placed, Ordered;
    PlacedOrdered(l);
    SlotsOrdered(l);
    Shape(l);
    BoxShape(l, m);
    BoxShape(l, n);
    var b, c := l.g.bandOf[m], l.g.bandOf[n];
    if b < c { BandsTopDown(l, b, c); }
    else if c < b { BandsTopDown(l, c, b); }
    else if l.pos[m] < l.pos[n] { SlotOrderIsXOrder(l, m, n); }
    else { SlotOrderIsXOrder(l, n, m); }
  }

  lemma CanvasHeight(l: Layout)
    requires Placed(l)
    ensures l.tops != [] ==>
      l.tops[0] == MARGIN_Y && l.height == l.Bottom(|l.tops| - 1) + l.lanes[|l.tops| - 1] + MARGIN_Y
  {
    hide Slots, NoDup, FanDone, EdgePlaced, RowSpaced, BandDone;
  }

  lemma BoxWithinX(l: Layout, n: nat)
    requires Placed(l) && n < |l.boxes|
    ensures MARGIN_X <= l.boxes[n].x && l.boxes[n].Right() <= l.width - MARGIN_X
  {
    hide Placed;
    Shape(l);
    BoxShape(l, n);
    var b, k := l.g.bandOf[n], l.pos[n];
    RowShape(l, b);
    var row := l.bands[b];
    var first, last := row[0], row[|row| - 1];
    BoxShape(l, first);
    BoxShape(l, last);
    if k > 0 { RowLeftToRight(l, b, 0, k); }
    if k < |row| - 1 { RowLeftToRight(l, b, k, |row| - 1); }
  }

  lemma BoxWithinY(l: Layout, n: nat)
    requires Placed(l) && n < |l.boxes|
    ensures MARGIN_Y <= l.boxes[n].y && l.boxes[n].Bottom() + l.lanes[l.g.bandOf[n]] <= l.height - MARGIN_Y
  {
    hide Placed;
    CanvasHeight(l);
    Shape(l);
    BoxShape(l, n);
    var b := l.g.bandOf[n];
    if b > 0 { BandsTopDown(l, 0, b); }
    if b < |l.bands| - 1 { BandsTopDown(l, b, |l.bands| - 1); }
  }

  lemma BoxOnCanvas(l: Layout, n: nat)
    requires Placed(l) && n < |l.boxes|
    ensures MARGIN_X <= l.boxes[n].x && l.boxes[n].Right() <= l.width - MARGIN_X
    ensures MARGIN_Y <= l.boxes[n].y && l.boxes[n].Bottom() + l.lanes[l.g.bandOf[n]] <= l.height - MARGIN_Y
  {
    hide Placed;
    BoxWithinX(l, n);
    BoxWithinY(l, n);
  }

  // ---- segments

  /** A segment between the bottom of row b and the height of the next row's top
      is clear of every box. */
  lemma GutterClear(l: Layout, b: nat, p: Point, q: Point)
    requires Placed(l) && b < |l.bands|
    requires l.Bottom(b) <= p.y <= l.Bottom(b) + l.lanes[b] + BAND_GUTTER
    requires l.Bottom(b) <= q.y <= l.Bottom(b) + l.lanes[b] + BAND_GUTTER
    ensures Clear(l, p, q)
  {
    hide Placed;
    Shape(l);
    forall t, n | 0.0 <= t <= 1.0 && 0 <= n < |l.boxes| ensures !Inside(l.boxes[n], At(p, q, t)) {
      Between(p.y, q.y, t, l.Bottom(b), l.Bottom(b) + l.lanes[b] + BAND_GUTTER);
      BoxAboveOrBelow(l, b, n);
    }
  }

  lemma BoxAboveOrBelow(l: Layout, b: nat, n: nat)
    requires Placed(l) && b < |l.bands| && n < |l.boxes|
    ensures l.boxes[n].Bottom() <= l.Bottom(b) || l.Bottom(b) + l.lanes[b] + BAND_GUTTER <= l.boxes[n].y
    ensures l.g.bandOf[n] != b ==> l.boxes[n].Bottom() + BAND_GUTTER <= l.tops[b] || l.Bottom(b) + BAND_GUTTER <= l.boxes[n].y
  {
    hide Placed;
    Shape(l);
    BoxShape(l, n);
    var c := l.g.bandOf[n];
    if c < b { BandsTopDown(l, c, b); } else if c > b { BandsTopDown(l, b, c); }
  }

  /** The middle of a gap lies beside every box of its row. */
  lemma GapMissesRow(l: Layout, b: nat, j: nat, k: nat)
    requires Placed(l) && b < |l.bands| && j + 1 < |l.bands[b]| && k < |l.bands[b]|
    ensures var row := l.bands[b];
            var x := (l.boxes[row[j]].Right() + l.boxes[row[j + 1]].x) / 2.0;
            && (x < l.boxes[row[k]].x || l.boxes[row[k]].Right() < x) && MARGIN_X <= x <= l.width - MARGIN_X
  {
    hide Placed;
    Shape(l);
    RowShape(l, b);
    var row := l.bands[b];
    RowLeftToRight(l, b, j, j + 1);
    BoxOnCanvas(l, row[j]);
    BoxOnCanvas(l, row[j + 1]);
    BoxShape(l, row[j]);
    BoxShape(l, row[j + 1]);
    BoxShape(l, row[k]);
    if k < j { RowLeftToRight(l, b, k, j); }
    if k > j + 1 { RowLeftToRight(l, b, j + 1, k); }
  }

  /** So do the places just outside its two ends. */
  lemma OutsideMissesRow(l: Layout, b: nat, k: nat)
    requires Placed(l) && b < |l.bands| && k < |l.bands[b]|
    ensures var row := l.bands[b];
            var x, y := l.boxes[row[0]].x - NODE_GAP / 2.0, l.boxes[row[|row| - 1]].Right() + NODE_GAP / 2.0;
            && x < l.boxes[row[k]].x && l.boxes[row[k]].Right() < y
            && MARGIN_X - NODE_GAP / 2.0 <= x < y <= l.width - MARGIN_X + NODE_GAP / 2.0
  {
    hide Placed, RowSpaced;
    Shape(l);
    RowShape(l, b);
    var row := l.bands[b];
    BoxOnCanvas(l, row[0]);
    BoxOnCanvas(l, row[|row| - 1]);
    BoxShape(l, row[0]);
    BoxShape(l, row[k]);
    BoxShape(l, row[|row| - 1]);
    if k > 0 { RowLeftToRight(l, b, 0, k); }
    if k < |row| - 1 { RowLeftToRight(l, b, k, |row| - 1); }
  }

  /** A channel touches no box of its own row. */
  lemma ChannelMissesRow(l: Layout, b: nat, x: real, n: nat)
    requires Placed(l) && b < |l.bands| && n < |l.boxes| && l.g.bandOf[n] == b
    requires x in Channels(l.bands[b], l.boxes)
    ensures x < l.boxes[n].x || l.boxes[n].Right() < x
    ensures MARGIN_X - NODE_GAP / 2.0 <= x <= l.width - MARGIN_X + NODE_GAP / 2.0
  {
    hide Placed, IndexOf, RowSpaced;
    Shape(l);
    BoxShape(l, n);
    RowShape(l, b);
    var row, k := l.bands[b], l.pos[n];
    var c := IndexOf(Channels(row, l.boxes), x);
    if c <= 1 { OutsideMissesRow(l, b, k); } else { GapMissesRow(l, b, c - 2, k); }
  }

  lemma ChannelClear(l: Layout, b: nat, p: Point, q: Point)
    requires Placed(l) && b < |l.bands| && p.x == q.x && p.x in Channels(l.bands[b], l.boxes)
    requires l.tops[b] - CHANNEL_PAD <= p.y <= l.Bottom(b) + CHANNEL_PAD
    requires l.tops[b] - CHANNEL_PAD <= q.y <= l.Bottom(b) + CHANNEL_PAD
    ensures Clear(l, p, q)
  {
    hide Placed, Channels;
    Shape(l);
    forall t, n | 0.0 <= t <= 1.0 && 0 <= n < |l.boxes| ensures !Inside(l.boxes[n], At(p, q, t)) {
      if l.g.bandOf[n] == b {
        ChannelMissesRow(l, b, p.x, n);
      } else {
        Between(p.y, q.y, t, l.tops[b] - CHANNEL_PAD, l.Bottom(b) + CHANNEL_PAD);
        BoxAboveOrBelow(l, b, n);
      }
    }
  }

  // ---- whole edges

  /** Vertices 2j and 2j+1 of a routed edge: where it leaves the j-th band it
      meets, and where it reaches the next one. */
  lemma RoutedVertices(l: Layout, i: nat, j: nat)
    requires Placed(l) && i < |l.g.ends| && !l.g.SameBand(i) && j < Distance(l.BandOfEnd(i, 0), l.BandOfEnd(i, 1))
    ensures var from, to, w := l.BandOfEnd(i, 0), l.BandOfEnd(i, 1), Polyline(l.lines[i]);
            var a, b := Passed(from, to, j), Passed(from, to, j + 1);
            && |w| == 2 * Distance(from, to) && 0 <= a < |l.bands| && 0 <= b < |l.bands|
            && (if from > to
                then l.tops[a] - CHANNEL_PAD <= w[2 * j].y <= l.tops[a] && l.Bottom(b) <= w[2 * j + 1].y <= l.Bottom(b) + CHANNEL_PAD
                else l.Bottom(a) <= w[2 * j].y <= l.Bottom(a) + CHANNEL_PAD && l.tops[b] - CHANNEL_PAD <= w[2 * j + 1].y <= l.tops[b])
  {
    hide Placed, Ordered, RowSpaced, NearestChannel, Aim;
    Shape(l);
    EdgeShape(l, i);
    BoxShape(l, l.g.ends[i].from);
    BoxShape(l, l.g.ends[i].to);
    var from, to := l.BandOfEnd(i, 0), l.BandOfEnd(i, 1);
    var w, way := Polyline(l.lines[i]), l.lines[i].waypoints;
    assert |way| == 2 * (Distance(from, to) - 1);
    if j > 0 { assert ChannelAt(l, i, l.lines[i], j - 1) && w[2 * j] == way[2 * j - 1]; }
    if j < Distance(from, to) - 1 { assert ChannelAt(l, i, l.lines[i], j) && w[2 * j + 1] == way[2 * j]; }
  }

  /** Between them it runs straight through a channel of that band. */
  lemma ChannelVertices(l: Layout, i: nat, j: nat)
    requires Placed(l) && i < |l.g.ends| && !l.g.SameBand(i) && j + 1 < Distance(l.BandOfEnd(i, 0), l.BandOfEnd(i, 1))
    ensures var from, to, w := l.BandOfEnd(i, 0), l.BandOfEnd(i, 1), Polyline(l.lines[i]);
            var b := Passed(from, to, j + 1);
            && |w| == 2 * Distance(from, to) && 0 <= b < |l.bands|
            && w[2 * j + 1].x == w[2 * j + 2].x && w[2 * j + 1].x in Channels(l.bands[b], l.boxes)
            && l.tops[b] - CHANNEL_PAD <= w[2 * j + 1].y <= l.Bottom(b) + CHANNEL_PAD
            && l.tops[b] - CHANNEL_PAD <= w[2 * j + 2].y <= l.Bottom(b) + CHANNEL_PAD
  {
    hide Placed, Ordered, RowSpaced, Aim, Channels, Abs;
    Shape(l);
    EdgeShape(l, i);
    var from, to := l.BandOfEnd(i, 0), l.BandOfEnd(i, 1);
    var w, way := Polyline(l.lines[i]), l.lines[i].waypoints;
    assert |way| == 2 * (Distance(from, to) - 1);
    assert ChannelAt(l, i, l.lines[i], j) && w[2 * j + 1] == way[2 * j] && w[2 * j + 2] == way[2 * j + 1];
  }

  /** A rail hangs from its two boxes and stays inside its band's lane. */
  lemma RailWithinLane(l: Layout, i: nat)
    requires Placed(l) && i < |l.g.ends| && l.g.SameBand(i)
    ensures var b := l.BandOfEnd(i, 0);
            && Polyline(l.lines[i]) == Rail(l.anchors[i].0, l.anchors[i].1, l.Bottom(b), l.depth[i])
            && ARC_DEPTH_BASE <= l.depth[i] <= l.lanes[b] - ARC_PAD
  {
    hide Slots, NoDup, FanDone, EdgePlaced, RowSpaced, BandDone;
    RailDepthPositive(l.g, l.pos, l.depth, i);
    RailPolyline(l, i);
  }

  lemma RailPolyline(l: Layout, i: nat)
    requires Placed(l) && i < |l.g.ends| && l.g.SameBand(i)
    ensures Polyline(l.lines[i]) == Rail(l.anchors[i].0, l.anchors[i].1, l.Bottom(l.BandOfEnd(i, 0)), l.depth[i])
  {
    hide Placed, Ordered, RowSpaced, Rail, Polyline;
    Shape(l);
    EdgeShape(l, i);
    BoxShape(l, l.g.ends[i].from);
  }

  /** No line enters a box: every segment of every edge -- rail, gutter line or
      channel route, in either direction -- is clear of every box. */
  lemma EdgeClear(l: Layout, i: nat, k: nat)
    requires Placed(l) && i < |l.g.ends| && k + 1 < |Polyline(l.lines[i])|
    ensures Clear(l, Polyline(l.lines[i])[k], Polyline(l.lines[i])[k + 1])
  {
    hide Placed, Clear, Polyline, Channels;
    Shape(l);
    var w := Polyline(l.lines[i]);
    if l.g.SameBand(i) {
      RailWithinLane(l, i);
      GutterClear(l, l.BandOfEnd(i, 0), w[k], w[k + 1]);
    } else {
      var from, to, j := l.BandOfEnd(i, 0), l.BandOfEnd(i, 1), k / 2;
      RoutedVertices(l, i, 0);
      RoutedVertices(l, i, j);
      if k == 2 * j {
        var a, b := Passed(from, to, j), Passed(from, to, j + 1);
        BandsTopDown(l, if from > to then b else a, if from > to then a else b);
        AdjacentTops(l, if from > to then b else a);
        GutterClear(l, if from > to then b else a, w[k], w[k + 1]);
      } else {
        ChannelVertices(l, i, j);
        ChannelClear(l, Passed(from, to, j + 1), w[k], w[k + 1]);
      }
    }
  }

  lemma AdjacentTops(l: Layout, b: nat)
    requires Placed(l) && b + 1 < |l.bands|
    ensures l.tops[b + 1] == l.Bottom(b) + l.lanes[b] + BAND_GUTTER
  {
    hide Slots, NoDup, FanDone, EdgePlaced, RowSpaced, BandDone;
  }

  // ---- the canvas

  /** Both ends of a rail are on their boxes. */
  lemma AnchorOnBox(l: Layout, i: nat, right: bool)
    requires Placed(l) && i < |l.g.ends| && l.g.SameBand(i)
    ensures var box := l.boxes[SideNode(l.g, l.pos, right, i)];
            var x := EndOf(l.anchors[i], SideEnd(l.g, l.pos, right, i));
            if right then box.CenterX() < x < box.Right() else box.x < x < box.CenterX()
  {
    hide Slots, NoDup, FanDone, EdgePlaced, RowSpaced, BandDone;
    var n := SideNode(l.g, l.pos, right, i);
    var r := Ray(i, SideEnd(l.g, l.pos, right, i));
    AnchorRules(l.g, l.pos, l.depth, l.boxes, l.anchors, n, right, r, r);
  }

  lemma VertexOnCanvas(l: Layout, i: nat, k: nat)
    requires Placed(l) && i < |l.g.ends| && k < |Polyline(l.lines[i])|
    ensures OnCanvas(l, Polyline(l.lines[i])[k])
  {
    hide Placed, Polyline, Channels;
    Shape(l);
    var w := Polyline(l.lines[i]);
    if l.g.SameBand(i) {
      RailWithinLane(l, i);
      AnchorOnBox(l, i, true);
      AnchorOnBox(l, i, false);
      BoxOnCanvas(l, l.g.ends[i].from);
      BoxOnCanvas(l, l.g.ends[i].to);
      BoxShape(l, l.g.ends[i].from);
    } else {
      RoutedVertices(l, i, 0);
      RoutedVertices(l, i, k / 2);
      if k == 0 || k == |w| - 1 {
        EndOnCanvas(l, i);
      } else {
        ChannelOnCanvas(l, i, (k - 1) / 2);
      }
    }
  }

  lemma EndOnCanvas(l: Layout, i: nat)
    requires Placed(l) && i < |l.g.ends| && !l.g.SameBand(i)
    ensures var w := Polyline(l.lines[i]); OnCanvas(l, w[0]) && OnCanvas(l, w[|w| - 1])
  {
    hide Placed, Ordered, Routed;
    Shape(l);
    EdgeShape(l, i);
    var from, to := l.g.ends[i].from, l.g.ends[i].to;
    BoxOnCanvas(l, from);
    BoxOnCanvas(l, to);
    BoxShape(l, from);
    BoxShape(l, to);
  }

  lemma ChannelOnCanvas(l: Layout, i: nat, j: nat)
    requires Placed(l) && i < |l.g.ends| && !l.g.SameBand(i) && j + 1 < Distance(l.BandOfEnd(i, 0), l.BandOfEnd(i, 1))
    ensures var w := Polyline(l.lines[i]); 2 * j + 2 < |w| && OnCanvas(l, w[2 * j + 1]) && OnCanvas(l, w[2 * j + 2])
  {
    hide Placed, Polyline, Channels;
    Shape(l);
    ChannelVertices(l, i, j);
    var b := Passed(l.BandOfEnd(i, 0), l.BandOfEnd(i, 1), j + 1);
    RowShape(l, b);
    var n := l.bands[b][0];
    ChannelMissesRow(l, b, Polyline(l.lines[i])[2 * j + 1].x, n);
    BoxOnCanvas(l, n);
    BoxShape(l, n);
  }

  /** The whole drawing lies on its canvas. */
  lemma EdgeOnCanvas(l: Layout, i: nat, k: nat, t: real)
    requires Placed(l) && i < |l.g.ends| && k + 1 < |Polyline(l.lines[i])| && 0.0 <= t <= 1.0
    ensures OnCanvas(l, At(Polyline(l.lines[i])[k], Polyline(l.lines[i])[k + 1], t))
  {
    hide Placed, Polyline;
    Shape(l);
    var p, q := Polyline(l.lines[i])[k], Polyline(l.lines[i])[k + 1];
    VertexOnCanvas(l, i, k);
    VertexOnCanvas(l, i, k + 1);
    Between(p.x, q.x, t, 0.0, l.width);
    Between(p.y, q.y, t, 0.0, l.height);
  }
}
