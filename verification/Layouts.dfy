/** A positioned graph: what the placement pass promises about every coordinate. */
module Layouts {
  import opened Sorting
  import opened Bands
  import opened Geometry
  import opened Rails
  import opened ArcDepths
  import opened ArcAnchors

  const NODE_HEIGHT: real := 38.0
  const NODE_GAP: real := 20.0
  const BAND_GUTTER: real := 72.0
  const MARGIN_X: real := 24.0
  const MARGIN_Y: real := 20.0
  const MIN_NODE_WIDTH: real := 56.0
  const ARC_PAD: real := 8.0
  const CHANNEL_PAD: real := 9.0

  /** One edge as drawn: its two anchors, From first, and the points between. */
  datatype Line = Line(start: Point, end: Point, waypoints: seq<Point>)

  function Polyline(l: Line): seq<Point> { [l.start] + l.waypoints + [l.end] }

  datatype Layout = Layout(
    g: Graph, bands: seq<seq<nat>>, pos: seq<nat>, depth: seq<real>, anchors: seq<(real, real)>,
    boxes: seq<Box>, tops: seq<real>, lanes: seq<real>, width: real, height: real, lines: seq<Line>)
  {
    function Bottom(b: nat): real requires b < |tops| { tops[b] + NODE_HEIGHT }

    function BandOfEnd(i: nat, end: nat): nat
      requires i < |g.ends| && g.ends[i].from < |g.bandOf| && g.ends[i].to < |g.bandOf|
    {
      if end == 0 then g.bandOf[g.ends[i].from] else g.bandOf[g.ends[i].to]
    }
  }

  // ---- rows and bands

  ghost predicate Ordered(l: Layout) {
    && l.g.Valid() && IsOrdering(l.g, l.bands) && l.pos == Slots(l.g, l.bands)
    && (forall b :: 0 <= b < |l.bands| ==> l.bands[b] != [])
    && |l.boxes| == |l.g.bandOf|
  }

  ghost predicate RowSpaced(l: Layout, b: nat)
    requires Ordered(l) && b < |l.bands|
  {
    var row := l.bands[b];
    && (forall k :: 0 < k < |row| ==> l.boxes[row[k]].x == l.boxes[row[k - 1]].Right() + NODE_GAP)
    && l.boxes[row[0]].x >= MARGIN_X
    && l.boxes[row[0]].x - MARGIN_X == l.width - MARGIN_X - l.boxes[row[|row| - 1]].Right()
  }

  /** Each row is evenly spaced and centred, and the canvas is as wide as the
      widest row needs. */
  ghost predicate RowsPlaced(l: Layout)
    requires Ordered(l)
  {
    && (forall n :: 0 <= n < |l.boxes| ==> l.boxes[n].w >= MIN_NODE_WIDTH && l.boxes[n].h == NODE_HEIGHT)
    && (forall b :: 0 <= b < |l.bands| ==> RowSpaced(l, b))
    && (if l.bands == [] then l.width == 2.0 * MARGIN_X
        else exists b :: 0 <= b < |l.bands| && l.boxes[l.bands[b][0]].x == MARGIN_X)
  }

  /** Lanes are exactly as deep as their deepest rail needs. */
  ghost predicate LanesFit(g: Graph, depth: seq<real>, lanes: seq<real>)
    requires g.Valid() && |depth| == |g.ends|
  {
    && |lanes| == g.bandCount
    && (forall b :: 0 <= b < |lanes| ==> lanes[b] >= 0.0)
    && (forall i :: 0 <= i < |g.ends| && g.SameBand(i) ==> depth[i] + ARC_PAD <= lanes[g.bandOf[g.ends[i].from]])
    && (forall b :: 0 <= b < |lanes| && lanes[b] != 0.0 ==>
          exists i :: 0 <= i < |g.ends| && RailOf(g, b, i) && lanes[b] == depth[i] + ARC_PAD)
  }

  /** Row, lane and gutter stacked down the page. */
  ghost predicate BandsStacked(tops: seq<real>, lanes: seq<real>, height: real)
    requires |tops| == |lanes|
  {
    && (tops != [] ==> tops[0] == MARGIN_Y)
    && (forall b :: 0 < b < |tops| ==> tops[b] == tops[b - 1] + NODE_HEIGHT + lanes[b - 1] + BAND_GUTTER)
    && height == (if tops == [] then MARGIN_Y else tops[|tops| - 1] + NODE_HEIGHT + lanes[|tops| - 1]) + MARGIN_Y
  }

  // ---- edges

  /** The places a line can cross row b: outside either end, and midway between
      neighbours. */
  function Channels(row: seq<nat>, boxes: seq<Box>): (r: seq<real>)
    requires row != [] && forall k :: 0 <= k < |row| ==> row[k] < |boxes|
    ensures |r| == |row| + 1
  {
    [boxes[row[0]].x - NODE_GAP / 2.0, boxes[row[|row| - 1]].Right() + NODE_GAP / 2.0]
    + seq(|row| - 1, k requires 0 <= k < |row| - 1 => (boxes[row[k]].Right() + boxes[row[k + 1]].x) / 2.0)
  }

  function Abs(x: real): real { if x < 0.0 then -x else x }

  ghost predicate FirstNearest(c: seq<real>, want: real, f: int)
    requires 0 <= f < |c|
  {
    && (forall k :: 0 <= k < |c| ==> Abs(c[f] - want) <= Abs(c[k] - want))
    && (forall k :: 0 <= k < f ==> Abs(c[f] - want) < Abs(c[k] - want))
  }

  /** x is the first of the channels nearest to want. */
  ghost predicate NearestChannel(row: seq<nat>, boxes: seq<Box>, want: real, x: real)
    requires row != [] && forall k :: 0 <= k < |row| ==> row[k] < |boxes|
  {
    var c := Channels(row, boxes);
    exists f :: 0 <= f < |c| && FirstNearest(c, want, f) && x == c[f]
  }

  /** Where the straight line from p to q would be at height y. */
  function Aim(p: Point, q: Point, y: real): real {
    if q.y != p.y then p.x + (y - p.y) / (q.y - p.y) * (q.x - p.x) else q.x
  }

  /** The k-th band an edge passes, counted from From's band. */
  function Passed(from: int, to: int, k: nat): int { if from > to then from - k else from + k }

  /** Waypoints 2k and 2k+1 take an edge through a channel of the (k+1)-th band
      it passes, turning on one side of the row and out on the other. */
  ghost predicate ChannelAt(l: Layout, i: nat, line: Line, k: nat)
    requires Ordered(l) && |l.tops| == |l.bands| && i < |l.g.ends| && !l.g.SameBand(i)
  {
    var from, to := l.BandOfEnd(i, 0), l.BandOfEnd(i, 1);
    var w, b := line.waypoints, Passed(from, to, k + 1);
    && 0 <= b < |l.bands| && 2 * k + 1 < |w|
    && w[2 * k].x == w[2 * k + 1].x
    && NearestChannel(l.bands[b], l.boxes, Aim(line.start, line.end, l.tops[b] + NODE_HEIGHT / 2.0), w[2 * k].x)
    && w[2 * k].y == (if from > to then l.Bottom(b) + CHANNEL_PAD else l.tops[b] - CHANNEL_PAD)
    && w[2 * k + 1].y == (if from > to then l.tops[b] - CHANNEL_PAD else l.Bottom(b) + CHANNEL_PAD)
  }

  /** How many bands apart the ends of an edge are. */
  function Distance(from: nat, to: nat): nat { if from > to then from - to else to - from }

  /** A routed edge crosses every band between its ends through a channel. */
  ghost predicate Routed(l: Layout, i: nat, line: Line)
    requires Ordered(l) && |l.tops| == |l.bands| && i < |l.g.ends| && !l.g.SameBand(i)
  {
    var m := Distance(l.BandOfEnd(i, 0), l.BandOfEnd(i, 1)) - 1;
    |line.waypoints| == 2 * m && forall k :: 0 <= k < m ==> ChannelAt(l, i, line, k)
  }

  /** A same-band edge is a rail between its anchors; any other leaves the upper
      box's bottom edge and meets the lower box's top edge, From's end first. */
  ghost predicate LinePlaced(l: Layout, i: nat, line: Line)
    requires Ordered(l) && |l.tops| == |l.bands| && |l.depth| == |l.anchors| == |l.g.ends| && i < |l.g.ends|
  {
    var from, to := l.boxes[l.g.ends[i].from], l.boxes[l.g.ends[i].to];
    if l.g.SameBand(i) then
      Polyline(line) == Rail(l.anchors[i].0, l.anchors[i].1, from.Bottom(), l.depth[i])
    else
      && (if l.BandOfEnd(i, 0) < l.BandOfEnd(i, 1)
          then line.start == Point(from.CenterX(), from.Bottom()) && line.end == Point(to.CenterX(), to.y)
          else line.start == Point(from.CenterX(), from.y) && line.end == Point(to.CenterX(), to.Bottom()))
      && Routed(l, i, line)
  }

  ghost predicate EdgePlaced(l: Layout, i: nat)
    requires Ordered(l) && |l.tops| == |l.bands| && |l.lines| == |l.depth| == |l.anchors| == |l.g.ends| && i < |l.lines|
  {
    LinePlaced(l, i, l.lines[i])
  }

  ghost predicate Placed(l: Layout) {
    && Ordered(l) && RowsPlaced(l)
    && DepthsFor(l.g, l.pos, l.depth) && LanesFit(l.g, l.depth, l.lanes)
    && |l.tops| == |l.bands| && BandsStacked(l.tops, l.lanes, l.height)
    && (forall n :: 0 <= n < |l.boxes| ==> l.boxes[n].y == l.tops[l.g.bandOf[n]])
    && AnchorsFor(l.g, l.pos, l.depth, l.boxes, l.anchors)
    && |l.lines| == |l.g.ends|
    && (forall i :: 0 <= i < |l.lines| ==> EdgePlaced(l, i))
  }

  /** The shapes every later proof needs, without the quantifiers behind them. */
  lemma Shape(l: Layout)
    requires Placed(l)
    ensures |l.boxes| == |l.g.bandOf| == |l.pos| && |l.tops| == |l.lanes| == |l.bands|
    ensures |l.lines| == |l.depth| == |l.anchors| == |l.g.ends| && l.g.Valid()
    ensures forall n :: 0 <= n < |l.boxes| ==> l.g.bandOf[n] < |l.bands|
    ensures forall b :: 0 <= b < |l.bands| ==> l.bands[b] != [] && l.lanes[b] >= 0.0
  {
    hide Slots, NoDup, FanDone, EdgePlaced, RowSpaced, BandDone;
  }

  lemma BoxShape(l: Layout, n: nat)
    requires Placed(l) && n < |l.boxes|
    ensures var b := l.g.bandOf[n];
            && l.boxes[n].y == l.tops[b] && l.boxes[n].h == NODE_HEIGHT && l.boxes[n].w >= MIN_NODE_WIDTH
            && l.pos[n] < |l.bands[b]| && l.bands[b][l.pos[n]] == n
  {
    hide NoDup, FanDone, EdgePlaced, RowSpaced, BandDone;
  }

  lemma RowShape(l: Layout, b: nat)
    requires Placed(l) && b < |l.bands|
    ensures RowSpaced(l, b)
    ensures forall k :: 0 <= k < |l.bands[b]| ==> l.bands[b][k] < |l.boxes| && l.g.bandOf[l.bands[b][k]] == b
  {
    hide Slots, NoDup, FanDone, EdgePlaced, RowSpaced, BandDone;
  }

  lemma EdgeShape(l: Layout, i: nat)
    requires Placed(l) && i < |l.g.ends|
    ensures Ordered(l) && |l.tops| == |l.bands| && |l.lines| == |l.depth| == |l.anchors| == |l.g.ends| && EdgePlaced(l, i)
  {
    hide Slots, NoDup, FanDone, EdgePlaced, RowSpaced, BandDone;
  }

  // ---- first consequences: slots are x order, bands are y order

  lemma SlotsOrdered(l: Layout)
    requires Ordered(l)
    ensures SlotsDiffer(l.g, l.pos)
    ensures forall b, k :: 0 <= b < |l.bands| && 0 <= k < |l.bands[b]| ==> l.pos[l.bands[b][k]] == k
  {
    hide Slots;
    SlotsInvert(l.g, l.bands, l.pos);
  }

  lemma {:induction false} RowLeftToRight(l: Layout, b: nat, j: nat, k: nat)
    requires Placed(l) && b < |l.bands| && j < k < |l.bands[b]|
    ensures l.boxes[l.bands[b][j]].Right() + NODE_GAP <= l.boxes[l.bands[b][k]].x
  {
    hide Slots, NoDup, DepthsFor, AnchorsFor, EdgePlaced;
    assert RowSpaced(l, b);
    if j < k - 1 { RowLeftToRight(l, b, j, k - 1); }
  }

  /** Within a band, x order is slot order with a full gap between. */
  lemma SlotOrderIsXOrder(l: Layout, m: nat, n: nat)
    requires Placed(l) && m < |l.boxes| && n < |l.boxes| && l.g.bandOf[m] == l.g.bandOf[n] && l.pos[m] < l.pos[n]
    ensures l.boxes[m].Right() + NODE_GAP <= l.boxes[n].x
  {
    hide NoDup, DepthsFor, AnchorsFor, EdgePlaced, RowSpaced;
    RowLeftToRight(l, l.g.bandOf[m], l.pos[m], l.pos[n]);
  }

  lemma {:induction false} BandsTopDown(l: Layout, b: nat, c: nat)
    requires Placed(l) && b < c < |l.bands|
    ensures l.Bottom(b) + l.lanes[b] + BAND_GUTTER <= l.tops[c]
  {
    hide Slots, NoDup, DepthsFor, AnchorsFor, EdgePlaced, RowsPlaced;
    if b < c - 1 { BandsTopDown(l, b, c - 1); }
  }
}
