/** A placed layout measured in pixels: box sizes, rows, lanes, gutters, and the
    gaps that edges are led through. */
module Pixels {
  import opened Bands
  import opened Sorting
  import opened Geometry
  import opened Rails
  import opened ArcDepths
  import opened ArcAnchors
  import opened Layouts
  import opened Placement
  import opened Diagram

  function Shorter(a: nat, b: nat): nat { if a < b then a else b }

  /** A box is the first whole pixel count that holds up to 22 characters of label
      at 7.13 pixels and up to 14 of caption at 6.2, with 10 either side; it is at
      least 56 wide and never more than 177. */
  lemma BoxInPixels(n: NodeIn)
    ensures var title, caption, w := Shorter(|n.name|, 22) as real * 7.13 + 20.0, Shorter(|n.kind|, 14) as real * 6.2 + 20.0, WidthOf(n);
            && w.Floor as real == w && 56.0 <= w <= 177.0 && title <= w && caption <= w
            && (w == 56.0 || w < title + 1.0 || w < caption + 1.0)
  {
    hide Truncate;
    var title, caption := Truncate(n.name, MAX_LABEL_RUNES), Truncate(n.kind, MAX_KIND_RUNES);
    TruncatedLength(n.name, 22);
    TruncatedLength(n.kind, 14);
    WidthInPixels(title, caption);
  }

  lemma TruncatedLength(s: string, max: nat)
    requires max > 0
    ensures |Truncate(s, max)| == Shorter(|s|, max)
  {
  }

  lemma WidthInPixels(title: string, caption: string)
    ensures var w, a, b := BoxWidth(title, caption), |title| as real * 7.13 + 20.0, |caption| as real * 6.2 + 20.0;
            a <= w && b <= w && (w == 56.0 || w < a + 1.0 || w < b + 1.0) && w >= 56.0
  {
    hide BoxWidth;
    var x, y := |title| as real, |caption| as real;
    assert x * CHAR_ADVANCE * LABEL_FONT_SIZE == x * 7.13;
    assert y * CHAR_ADVANCE * CAPTION_FONT_SIZE == y * 6.2;
  }

  /** A row of 38-pixel boxes, 20 apart and centred inside margins of 24. */
  lemma RowInPixels(l: Layout, b: nat)
    requires Placed(l) && b < |l.bands|
    ensures |l.tops| == |l.bands| && l.bands[b] != []
    ensures forall k :: 0 <= k < |l.bands[b]| ==> l.bands[b][k] < |l.boxes| && l.boxes[l.bands[b][k]].y == l.tops[b] && l.boxes[l.bands[b][k]].h == 38.0
    ensures forall k :: 0 < k < |l.bands[b]| ==>
              l.boxes[l.bands[b][k]].x == l.boxes[l.bands[b][k - 1]].x + l.boxes[l.bands[b][k - 1]].w + 20.0
    ensures var first, last := l.boxes[l.bands[b][0]], l.boxes[l.bands[b][|l.bands[b]| - 1]];
            24.0 <= first.x && first.x - 24.0 == l.width - 24.0 - (last.x + last.w)
  {
    hide Placed, Ordered, Slots, NoDup;
    Shape(l);
    RowShape(l, b);
    forall k | 0 <= k < |l.bands[b]| ensures l.boxes[l.bands[b][k]].y == l.tops[b] && l.boxes[l.bands[b][k]].h == 38.0 {
      BoxShape(l, l.bands[b][k]);
    }
  }

  /** Edge i runs inside band b. */
  ghost predicate RailIn(g: Graph, b: nat, i: nat) {
    && i < |g.ends| && g.ends[i].from < |g.bandOf| && g.ends[i].to < |g.bandOf|
    && g.bandOf[g.ends[i].from] == b && g.bandOf[g.ends[i].to] == b
  }

  /** Rows, lanes and gutters of 72 stacked between margins of 20. */
  lemma StackInPixels(l: Layout, b: nat)
    requires Placed(l) && b < |l.bands| == |l.tops| == |l.lanes|
    ensures l.tops[b] == if b == 0 then 20.0 else l.tops[b - 1] + 38.0 + l.lanes[b - 1] + 72.0
    ensures b == |l.bands| - 1 ==> l.height == l.tops[b] + 38.0 + l.lanes[b] + 20.0
  {
    hide Placed;
    Stacked(l);
  }

  lemma Stacked(l: Layout)
    requires Placed(l)
    ensures |l.tops| == |l.lanes| == |l.bands| && |l.depth| == |l.g.ends| && l.g.Valid()
    ensures BandsStacked(l.tops, l.lanes, l.height) && LanesFit(l.g, l.depth, l.lanes)
  {
    hide Slots, IsOrdering, BandDone, AnchorsFor, EdgePlaced, RowsPlaced;
    Shape(l);
  }

  /** The lane below a row is 8 pixels deeper than its deepest rail, or nothing. */
  lemma LaneInPixels(l: Layout, b: nat)
    requires Placed(l) && b < |l.lanes| && |l.depth| == |l.g.ends|
    ensures forall i: nat :: RailIn(l.g, b, i) ==> l.depth[i] + 8.0 <= l.lanes[b]
    ensures l.lanes[b] == 0.0 || exists i: nat :: RailIn(l.g, b, i) && l.lanes[b] == l.depth[i] + 8.0
  {
    hide Placed, BandsStacked;
    Stacked(l);
    if l.lanes[b] != 0.0 {
      var i: nat :| i < |l.g.ends| && RailOf(l.g, b, i) && l.lanes[b] == l.depth[i] + ARC_PAD;
      assert RailIn(l.g, b, i);
    }
  }

  /** Some row touches both margins: the canvas is no wider than it has to be. */
  lemma CanvasInPixels(l: Layout)
    requires Placed(l)
    ensures if l.bands == [] then l.width == 48.0 && l.height == 40.0
            else exists b :: 0 <= b < |l.bands| && l.bands[b] != [] && l.bands[b][0] < |l.boxes| && l.boxes[l.bands[b][0]].x == 24.0
  {
    hide Slots, NoDup, DepthsFor, AnchorsFor, EdgePlaced, RowSpaced;
    if l.bands != [] {
      var b :| 0 <= b < |l.bands| && l.boxes[l.bands[b][0]].x == MARGIN_X;
      assert l.bands[b][0] < |l.g.bandOf|;
    }
  }

  /** x is a gap of the row: half a box gap outside either end, or halfway between
      two neighbours. */
  ghost predicate Gap(l: Layout, row: seq<nat>, x: real)
    requires row != [] && forall k :: 0 <= k < |row| ==> row[k] < |l.boxes|
  {
    || x == l.boxes[row[0]].x - 10.0
    || x == l.boxes[row[|row| - 1]].x + l.boxes[row[|row| - 1]].w + 10.0
    || exists k :: 0 < k < |row| && x == Halfway(l.boxes[row[k - 1]], l.boxes[row[k]])
  }

  function Halfway(a: Box, b: Box): real { (a.x + a.w + b.x) / 2.0 }

  lemma GapIsChannel(l: Layout, row: seq<nat>, x: real)
    requires row != [] && forall k :: 0 <= k < |row| ==> row[k] < |l.boxes|
    ensures Gap(l, row, x) <==> x in Channels(row, l.boxes)
  {
    hide Channels, Halfway;
    var c := Channels(row, l.boxes);
    ChannelList(row, l.boxes);
    forall i | 2 <= i < |c| ensures c[i] == Halfway(l.boxes[row[i - 2]], l.boxes[row[i - 1]]) { HalfwayIs(l.boxes[row[i - 2]], l.boxes[row[i - 1]]); }
    if x in c {
      var f :| 0 <= f < |c| && c[f] == x;
      if f >= 2 { assert x == Halfway(l.boxes[row[f - 1 - 1]], l.boxes[row[f - 1]]); }
    }
    if k :| 0 < k < |row| && x == Halfway(l.boxes[row[k - 1]], l.boxes[row[k]]) { assert c[k + 1] == x; }
  }

  lemma HalfwayIs(a: Box, b: Box)
    ensures Halfway(a, b) == (a.Right() + b.x) / 2.0
  {
  }

  /** Where edge i passes its (k+1)-th band it turns 9 pixels outside the row and
      runs straight through a gap, no gap of that row lying nearer to where a
      straight line between its ends would be halfway down the boxes. */
  lemma GapInPixels(l: Layout, i: nat, k: nat, aim: real, other: real)
    requires Placed(l) && i < |l.g.ends| == |l.lines| && !l.g.SameBand(i) && k + 1 < Distance(l.BandOfEnd(i, 0), l.BandOfEnd(i, 1))
    requires var b := Passed(l.BandOfEnd(i, 0), l.BandOfEnd(i, 1), k + 1);
             && 0 <= b < |l.bands| == |l.tops| && l.bands[b] != []
             && (forall j :: 0 <= j < |l.bands[b]| ==> l.bands[b][j] < |l.boxes|) && Gap(l, l.bands[b], other)
    requires var b, p, q := Passed(l.BandOfEnd(i, 0), l.BandOfEnd(i, 1), k + 1), l.lines[i].start, l.lines[i].end;
             (aim - p.x) * (q.y - p.y) == (l.tops[b] + 19.0 - p.y) * (q.x - p.x)
    ensures var b, w := Passed(l.BandOfEnd(i, 0), l.BandOfEnd(i, 1), k + 1), l.lines[i].waypoints;
            && 2 * k + 1 < |w| && w[2 * k].x == w[2 * k + 1].x && Gap(l, l.bands[b], w[2 * k].x)
            && Abs(w[2 * k].x - aim) <= Abs(other - aim)
            && (if l.BandOfEnd(i, 0) < l.BandOfEnd(i, 1)
                then w[2 * k].y == l.tops[b] - 9.0 && w[2 * k + 1].y == l.tops[b] + 47.0
                else w[2 * k].y == l.tops[b] + 47.0 && w[2 * k + 1].y == l.tops[b] - 9.0)
  {
    hide Placed, Ordered, Channels, Slots, IndexOf;
    Shape(l);
    EdgeShape(l, i);
    var b, w := Passed(l.BandOfEnd(i, 0), l.BandOfEnd(i, 1), k + 1), l.lines[i].waypoints;
    RouteShape(l, i, k);
    AnchorHeights(l, i);
    AimIs(l.lines[i].start, l.lines[i].end, l.tops[b] + NODE_HEIGHT / 2.0, aim);
    GapIsChannel(l, l.bands[b], other);
    GapIsChannel(l, l.bands[b], w[2 * k].x);
  }

  lemma RouteShape(l: Layout, i: nat, k: nat)
    requires Placed(l) && i < |l.g.ends| == |l.lines| && !l.g.SameBand(i) && k + 1 < Distance(l.BandOfEnd(i, 0), l.BandOfEnd(i, 1))
    ensures Ordered(l) && |l.tops| == |l.bands| && ChannelAt(l, i, l.lines[i], k)
  {
    hide Placed, Ordered, ChannelAt;
    EdgeShape(l, i);
  }

  lemma AnchorHeights(l: Layout, i: nat)
    requires Placed(l) && i < |l.g.ends| == |l.lines| && !l.g.SameBand(i)
    ensures l.lines[i].start.y != l.lines[i].end.y
  {
    hide Placed, Ordered, Routed;
    Shape(l);
    EdgeShape(l, i);
    BoxShape(l, l.g.ends[i].from);
    BoxShape(l, l.g.ends[i].to);
    var a, b := l.BandOfEnd(i, 0), l.BandOfEnd(i, 1);
    if a < b { BandsTopDown(l, a, b); } else { BandsTopDown(l, b, a); }
  }

  lemma AimIs(p: Point, q: Point, y: real, aim: real)
    requires p.y != q.y && (aim - p.x) * (q.y - p.y) == (y - p.y) * (q.x - p.x)
    ensures Aim(p, q, y) == aim
  {
    var d, e, t := q.y - p.y, q.x - p.x, (y - p.y) / (q.y - p.y);
    assert t * d == y - p.y;
    assert (t * d) * e == (t * e) * d;
    assert (aim - p.x - t * e) * d == 0.0;
    SignOfProduct((aim - p.x - t * e) * d, aim - p.x - t * e, d);
  }
}
