/** From an ordering to coordinates. */
module Placement {
  import opened Bands
  import opened Sorting
  import opened Geometry
  import opened Rails
  import opened ArcDepths
  import opened ArcAnchors
  import opened Layouts

  // ---- box widths, from what is drawn in them

  const LABEL_FONT_SIZE: real := 11.5
  const CAPTION_FONT_SIZE: real := 10.0
  const CHAR_ADVANCE: real := 0.62
  const LABEL_PAD_X: real := 10.0
  const MAX_LABEL_RUNES: nat := 22
  const MAX_KIND_RUNES: nat := 14
  const ELLIPSIS: char := '\U{2026}'

  function TextWidth(s: string, fontSize: real): real { |s| as real * CHAR_ADVANCE * fontSize }

  /** At most max characters of s, the last an ellipsis when something was cut. */
  function Truncate(s: string, max: nat): (r: string)
    ensures |r| <= max
    ensures |s| <= max ==> r == s
    ensures 0 < max < |s| ==> |r| == max && r[..max - 1] == s[..max - 1] && r[max - 1] == '\U{2026}'
  {
    if max == 0 || s == "" then ""
    else if |s| <= max then s
    else s[..max - 1] + [ELLIPSIS]
  }

  function Ceil(x: real): int { -((-x).Floor) }

  function MaxReal(a: real, b: real): real { if b > a then b else a }

  /** Label and caption both fit their box, padding included, and no whole pixel
      is spent on more than that. */
  function BoxWidth(name: string, kind: string): (w: real)
    ensures w >= MIN_NODE_WIDTH
    ensures w >= TextWidth(name, LABEL_FONT_SIZE) + 2.0 * LABEL_PAD_X
    ensures w >= TextWidth(kind, CAPTION_FONT_SIZE) + 2.0 * LABEL_PAD_X
    ensures w.Floor as real == w
    ensures || w == MIN_NODE_WIDTH || w < TextWidth(name, LABEL_FONT_SIZE) + 2.0 * LABEL_PAD_X + 1.0
            || w < TextWidth(kind, CAPTION_FONT_SIZE) + 2.0 * LABEL_PAD_X + 1.0
  {
    var w := MaxReal(TextWidth(name, LABEL_FONT_SIZE), TextWidth(kind, CAPTION_FONT_SIZE));
    MaxReal(Ceil(w + 2.0 * LABEL_PAD_X) as real, MIN_NODE_WIDTH)
  }

  // ---- x

  /** The width of the first k boxes of a row, gaps between them included. */
  ghost function RowWidth(row: seq<nat>, widths: seq<real>, k: nat): real
    requires k <= |row| && forall j :: 0 <= j < |row| ==> row[j] < |widths|
  {
    if k == 0 then 0.0
    else RowWidth(row, widths, k - 1) + (if k > 1 then NODE_GAP else 0.0) + widths[row[k - 1]]
  }

  method BandWidths(g: Graph, bands: seq<seq<nat>>, widths: seq<real>) returns (bandWidth: seq<real>, content: real)
    requires IsOrdering(g, bands) && |widths| == |g.bandOf|
    ensures |bandWidth| == |bands|
    ensures forall b :: 0 <= b < |bands| ==> bandWidth[b] == RowWidth(bands[b], widths, |bands[b]|) <= content
    ensures content == 0.0 || exists b :: 0 <= b < |bands| && content == bandWidth[b]
  {
    hide NoDup;
    bandWidth, content := [], 0.0;
    for b := 0 to |bands|
      invariant |bandWidth| == b
      invariant forall c :: 0 <= c < b ==> bandWidth[c] == RowWidth(bands[c], widths, |bands[c]|) <= content
      invariant content == 0.0 || exists c :: 0 <= c < b && content == bandWidth[c]
    {
      var total := 0.0;
      for k := 0 to |bands[b]|
        invariant total == RowWidth(bands[b], widths, k)
      {
        if k > 0 {
          total := total + NODE_GAP;
        }
        total := total + widths[bands[b][k]];
      }
      bandWidth := bandWidth + [total];
      if total > content {
        content := total;
      }
    }
  }

  /** Row b starts at x and leaves a gap between neighbours. */
  ghost predicate RowAt(row: seq<nat>, boxes: seq<Box>, x: real, k: nat)
    requires k <= |row| && forall j :: 0 <= j < |row| ==> row[j] < |boxes|
  {
    && (k > 0 ==> boxes[row[0]].x == x)
    && forall j :: 0 < j < k ==> boxes[row[j]].x == boxes[row[j - 1]].Right() + NODE_GAP
  }

  /** A spaced row is exactly as wide as its boxes and gaps. */
  lemma {:induction false} RowAtWidth(row: seq<nat>, boxes: seq<Box>, widths: seq<real>, x: real, k: nat)
    requires 0 < k <= |row| && |widths| == |boxes| && forall j :: 0 <= j < |row| ==> row[j] < |boxes|
    requires RowAt(row, boxes, x, k) && forall n :: 0 <= n < |boxes| ==> boxes[n].w == widths[n]
    ensures boxes[row[k - 1]].Right() == x + RowWidth(row, widths, k)
  {
    if k > 1 { RowAtWidth(row, boxes, widths, x, k - 1); }
  }

  function StartX(content: real, width: real): real { MARGIN_X + (content - width) / 2.0 }

  method PlaceX(g: Graph, bands: seq<seq<nat>>, widths: seq<real>, bandWidth: seq<real>, content: real) returns (boxes: seq<Box>)
    requires g.Valid() && IsOrdering(g, bands) && |widths| == |g.bandOf| && |bandWidth| == |bands|
    ensures |boxes| == |widths|
    ensures forall n :: 0 <= n < |boxes| ==> boxes[n].w == widths[n] && boxes[n].h == NODE_HEIGHT
    ensures forall b :: 0 <= b < |bands| ==> RowAt(bands[b], boxes, StartX(content, bandWidth[b]), |bands[b]|)
  {
    hide StartX;
    boxes := seq(|widths|, n requires 0 <= n < |widths| => Box(0.0, 0.0, widths[n], NODE_HEIGHT));
    for b := 0 to |bands|
      invariant |boxes| == |widths|
      invariant forall n :: 0 <= n < |boxes| ==> boxes[n].w == widths[n] && boxes[n].h == NODE_HEIGHT
      invariant forall c :: 0 <= c < b ==> RowAt(bands[c], boxes, StartX(content, bandWidth[c]), |bands[c]|)
    {
      ghost var before := boxes;
      boxes := PlaceRow(g, bands, b, StartX(content, bandWidth[b]), boxes);
      forall c | 0 <= c < b ensures RowAt(bands[c], boxes, StartX(content, bandWidth[c]), |bands[c]|) {
        assert forall k :: 0 <= k < |bands[c]| ==> g.bandOf[bands[c][k]] == c;
        assert RowAt(bands[c], before, StartX(content, bandWidth[c]), |bands[c]|);
      }
    }
  }

  method PlaceRow(g: Graph, bands: seq<seq<nat>>, b: nat, start: real, boxes0: seq<Box>) returns (boxes: seq<Box>)
    requires |boxes0| == |g.bandOf| && b < |bands| && NoDup(bands[b])
    requires forall k :: 0 <= k < |bands[b]| ==> bands[b][k] < |g.bandOf| && g.bandOf[bands[b][k]] == b
    ensures |boxes| == |boxes0| && RowAt(bands[b], boxes, start, |bands[b]|)
    ensures forall n :: 0 <= n < |boxes| ==> boxes[n].w == boxes0[n].w && boxes[n].h == boxes0[n].h
    ensures forall n :: 0 <= n < |boxes| && g.bandOf[n] != b ==> boxes[n] == boxes0[n]
  {
    boxes := boxes0;
    var x := start;
    var row := bands[b];
    for k := 0 to |row|
      invariant |boxes| == |boxes0| && RowAt(row, boxes, start, k)
      invariant x == if k == 0 then start else boxes[row[k - 1]].Right() + NODE_GAP
      invariant forall n :: 0 <= n < |boxes| ==> boxes[n].w == boxes0[n].w && boxes[n].h == boxes0[n].h
      invariant forall n :: 0 <= n < |boxes| && g.bandOf[n] != b ==> boxes[n] == boxes0[n]
    {
      ghost var before := boxes;
      boxes := boxes[row[k] := boxes[row[k]].(x := x)];
      assert forall j :: 0 <= j < k ==> boxes[row[j]] == before[row[j]];
      x := x + boxes[row[k]].w + NODE_GAP;
    }
  }

  // ---- y

  method Lanes(g: Graph, depth: seq<real>) returns (lanes: seq<real>)
    requires g.Valid() && |depth| == |g.ends|
    requires forall i :: 0 <= i < |g.ends| && g.SameBand(i) ==> depth[i] >= 0.0
    ensures LanesFit(g, depth, lanes)
  {
    lanes := seq(g.bandCount, _ => 0.0);
    for i := 0 to |g.ends|
      invariant |lanes| == g.bandCount && forall b :: 0 <= b < |lanes| ==> lanes[b] >= 0.0
      invariant forall j :: 0 <= j < i && g.SameBand(j) ==> depth[j] + ARC_PAD <= lanes[g.bandOf[g.ends[j].from]]
      invariant forall b :: 0 <= b < |lanes| && lanes[b] != 0.0 ==>
        exists j :: 0 <= j < i && RailOf(g, b, j) && lanes[b] == depth[j] + ARC_PAD
    {
      if g.SameBand(i) {
        var b, d := g.bandOf[g.ends[i].from], depth[i] + ARC_PAD;
        if d > lanes[b] {
          assert RailOf(g, b, i);
          lanes := lanes[b := d];
        }
      }
    }
  }

  method PlaceY(g: Graph, bands: seq<seq<nat>>, lanes: seq<real>, boxes0: seq<Box>)
    returns (boxes: seq<Box>, tops: seq<real>, height: real)
    requires g.Valid() && IsOrdering(g, bands) && |boxes0| == |g.bandOf| && |lanes| == |bands|
    ensures |tops| == |bands| && BandsStacked(tops, lanes, height)
    ensures |boxes| == |boxes0|
    ensures forall n :: 0 <= n < |boxes| ==> boxes[n] == boxes0[n].(y := tops[g.bandOf[n]])
  {
    hide NoDup;
    boxes, tops := boxes0, [];
    var y := MARGIN_Y;
    for b := 0 to |bands|
      invariant |tops| == b && |boxes| == |boxes0|
      invariant b > 0 ==> tops[0] == MARGIN_Y
      invariant forall c :: 0 < c < b ==> tops[c] == tops[c - 1] + NODE_HEIGHT + lanes[c - 1] + BAND_GUTTER
      invariant y == if b == 0 then MARGIN_Y
                     else tops[b - 1] + NODE_HEIGHT + lanes[b - 1] + (if b < |bands| then BAND_GUTTER else 0.0)
      invariant forall n :: 0 <= n < |boxes| ==> boxes[n] == if g.bandOf[n] < b then boxes0[n].(y := tops[g.bandOf[n]]) else boxes0[n]
    {
      boxes := LowerRow(g, bands, b, y, boxes);
      tops := tops + [y];
      y := y + NODE_HEIGHT + lanes[b];
      if b < |bands| - 1 {
        y := y + BAND_GUTTER;
      }
    }
    height := y + MARGIN_Y;
  }

  method LowerRow(g: Graph, bands: seq<seq<nat>>, b: nat, y: real, boxes0: seq<Box>) returns (boxes: seq<Box>)
    requires g.Valid() && IsOrdering(g, bands) && |boxes0| == |g.bandOf| && b < |bands|
    ensures |boxes| == |boxes0|
    ensures forall n :: 0 <= n < |boxes| ==> boxes[n] == if g.bandOf[n] == b then boxes0[n].(y := y) else boxes0[n]
  {
    boxes := boxes0;
    for k := 0 to |bands[b]|
      invariant |boxes| == |boxes0|
      invariant forall n :: 0 <= n < |boxes| ==> boxes[n] == if n in bands[b][..k] then boxes0[n].(y := y) else boxes0[n]
    {
      var n := bands[b][k];
      boxes := boxes[n := boxes[n].(y := y)];
      assert bands[b][..k + 1] == bands[b][..k] + [n];
    }
    assert bands[b][..|bands[b]|] == bands[b];
  }

  // ---- edges

  lemma ChannelList(row: seq<nat>, boxes: seq<Box>)
    requires row != [] && forall k :: 0 <= k < |row| ==> row[k] < |boxes|
    ensures var c := Channels(row, boxes);
            && |c| == |row| + 1
            && c[0] == boxes[row[0]].x - NODE_GAP / 2.0 && c[1] == boxes[row[|row| - 1]].Right() + NODE_GAP / 2.0
            && forall i :: 2 <= i < |c| ==> c[i] == (boxes[row[i - 2]].Right() + boxes[row[i - 1]].x) / 2.0
  {
  }

  /** The channel of a row nearest to want; the first found wins a tie. */
  method ChannelX(row: seq<nat>, boxes: seq<Box>, want: real) returns (best: real)
    requires row != [] && forall k :: 0 <= k < |row| ==> row[k] < |boxes|
    ensures NearestChannel(row, boxes, want, best)
  {
    hide Channels, Abs;
    ghost var c := Channels(row, boxes);
    ChannelList(row, boxes);
    best := boxes[row[0]].x - NODE_GAP / 2.0;
    var dist := Abs(best - want);
    assert best == c[0];
    ghost var at: int := 0;
    var x := boxes[row[|row| - 1]].Right() + NODE_GAP / 2.0;
    assert x == c[1];
    if Abs(x - want) < dist {
      best, dist := x, Abs(x - want);
      at := 1;
    }
    for i := 1 to |row|
      invariant 0 <= at < i + 1 && best == c[at] && dist == Abs(best - want)
      invariant forall k :: 0 <= k < i + 1 ==> dist <= Abs(c[k] - want)
      invariant forall k :: 0 <= k < at ==> dist < Abs(c[k] - want)
    {
      x := (boxes[row[i - 1]].Right() + boxes[row[i]].x) / 2.0;
      assert x == c[i + 1];
      if Abs(x - want) < dist {
        best, dist := x, Abs(x - want);
        at := i + 1;
      }
    }
    assert FirstNearest(c, want, at);
  }

  /** The waypoints of an edge between different bands. */
  method Route(l: Layout, i: nat, start: Point, end: Point) returns (pts: seq<Point>)
    requires Ordered(l) && |l.tops| == |l.bands| && i < |l.g.ends| && !l.g.SameBand(i)
    ensures Routed(l, i, Line(start, end, pts))
  {
    hide Slots, NoDup, NearestChannel, Aim;
    var from, to := l.BandOfEnd(i, 0), l.BandOfEnd(i, 1);
    var step: int := if from > to then -1 else 1;
    var b := from + step;
    pts := [];
    ghost var k := 0;
    while b != to
      invariant b == Passed(from, to, k + 1) && k + 1 <= Distance(from, to) && |pts| == 2 * k
      invariant forall j :: 0 <= j < k ==> ChannelAt(l, i, Line(start, end, pts), j)
      decreases Distance(from, to) - k
    {
      var top, bottom := l.tops[b], l.tops[b] + NODE_HEIGHT;
      var x := ChannelX(l.bands[b], l.boxes, Aim(start, end, l.tops[b] + NODE_HEIGHT / 2.0));
      var enter, exit := Point(x, top - CHANNEL_PAD), Point(x, bottom + CHANNEL_PAD);
      if step < 0 {
        enter, exit := exit, enter;
      }
      ghost var before := Line(start, end, pts);
      pts := pts + [enter, exit];
      forall j | 0 <= j < k ensures ChannelAt(l, i, Line(start, end, pts), j) {
        assert ChannelAt(l, i, before, j);
      }
      assert ChannelAt(l, i, Line(start, end, pts), k);
      b := b + step;
      k := k + 1;
    }
  }

  method PlaceLine(l: Layout, i: nat) returns (line: Line)
    requires Ordered(l) && |l.tops| == |l.bands| && |l.depth| == |l.anchors| == |l.g.ends| && i < |l.g.ends|
    requires forall n :: 0 <= n < |l.boxes| ==> l.boxes[n].y == l.tops[l.g.bandOf[n]] && l.boxes[n].h == NODE_HEIGHT
    ensures LinePlaced(l, i, line)
  {
    hide Slots, NoDup, Routed;
    var from, to := l.boxes[l.g.ends[i].from], l.boxes[l.g.ends[i].to];
    var fromBand, toBand := l.BandOfEnd(i, 0), l.BandOfEnd(i, 1);
    if l.g.SameBand(i) {
      var (x1, x2) := l.anchors[i];
      var rail := from.Bottom() + l.depth[i];
      line := Line(Point(x1, from.Bottom()), Point(x2, to.Bottom()), [Point(x1, rail), Point(x2, rail)]);
      assert Polyline(line) == Rail(x1, x2, from.Bottom(), l.depth[i]);
    } else {
      var start, end;
      if fromBand < toBand {
        start, end := Point(from.CenterX(), from.Bottom()), Point(to.CenterX(), to.y);
      } else {
        start, end := Point(from.CenterX(), from.y), Point(to.CenterX(), to.Bottom());
      }
      var pts := Route(l, i, start, end);
      line := Line(start, end, pts);
    }
  }

  method PlaceLines(l: Layout) returns (lines: seq<Line>)
    requires Ordered(l) && |l.tops| == |l.bands| && |l.depth| == |l.anchors| == |l.g.ends|
    requires forall n :: 0 <= n < |l.boxes| ==> l.boxes[n].y == l.tops[l.g.bandOf[n]] && l.boxes[n].h == NODE_HEIGHT
    ensures |lines| == |l.g.ends| && forall i :: 0 <= i < |lines| ==> LinePlaced(l, i, lines[i])
  {
    hide Ordered, LinePlaced;
    lines := [];
    while |lines| < |l.g.ends|
      invariant |lines| <= |l.g.ends| && forall i :: 0 <= i < |lines| ==> LinePlaced(l, i, lines[i])
    {
      var line := PlaceLine(l, |lines|);
      lines := lines + [line];
    }
  }

  /** Lines are placed against everything but the lines themselves. */
  lemma LineUnaffected(l: Layout, lines: seq<Line>, i: nat)
    requires Ordered(l) && |l.tops| == |l.bands| && |l.depth| == |l.anchors| == |l.g.ends| == |lines| && i < |lines|
    requires LinePlaced(l, i, lines[i])
    ensures Ordered(l.(lines := lines)) && EdgePlaced(l.(lines := lines), i)
  {
    hide Slots, NoDup, NearestChannel, Aim, Polyline, Rail;
    var l' := l.(lines := lines);
    if !l.g.SameBand(i) {
      forall k | 0 <= k < Distance(l.BandOfEnd(i, 0), l.BandOfEnd(i, 1)) - 1 ensures ChannelAt(l', i, lines[i], k) {
        assert ChannelAt(l, i, lines[i], k);
      }
    }
  }

  /** Coordinates for everything. */
  method Place(g: Graph, bands: seq<seq<nat>>, pos: seq<nat>, widths: seq<real>) returns (l: Layout)
    requires g.Valid() && IsOrdering(g, bands) && pos == Slots(g, bands) && |widths| == |g.bandOf|
    requires forall b :: 0 <= b < |bands| ==> bands[b] != []
    requires forall n :: 0 <= n < |widths| ==> widths[n] >= MIN_NODE_WIDTH
    ensures Placed(l) && l.g == g && l.bands == bands && forall n :: 0 <= n < |widths| ==> l.boxes[n].w == widths[n]
  {
    hide Slots, NoDup, DepthsFor, AnchorsFor, LanesFit, BandsStacked, LinePlaced, RowAt;
    var bandWidth, content := BandWidths(g, bands, widths);
    var boxes0 := PlaceX(g, bands, widths, bandWidth, content);
    var depth := Depths(g, pos);
    DepthsNonNegative(g, pos, depth);
    var lanes := Lanes(g, depth);
    LanesCount(g, depth, lanes);
    var boxes, tops, height := PlaceY(g, bands, lanes, boxes0);
    var anchors := Anchors(g, pos, depth, boxes);
    AnchorsCount(g, pos, depth, boxes, anchors);
    var base := Layout(g, bands, pos, depth, anchors, boxes, tops, lanes, content + 2.0 * MARGIN_X, height, []);
    var lines := PlaceLines(base);
    l := base.(lines := lines);
    forall i | 0 <= i < |lines| ensures EdgePlaced(l, i) { LineUnaffected(base, lines, i); }
    forall b | 0 <= b < |bands| ensures RowAt(bands[b], boxes, StartX(content, bandWidth[b]), |bands[b]|) {
      RowAtKept(bands[b], boxes0, boxes, StartX(content, bandWidth[b]));
    }
    RowsAre(l, widths, bandWidth, content);
  }

  lemma RowAtKept(row: seq<nat>, before: seq<Box>, after: seq<Box>, x: real)
    requires |before| == |after| && (forall j :: 0 <= j < |row| ==> row[j] < |before|) && RowAt(row, before, x, |row|)
    requires forall n :: 0 <= n < |before| ==> after[n].x == before[n].x && after[n].w == before[n].w
    ensures RowAt(row, after, x, |row|)
  {
  }

  lemma DepthsNonNegative(g: Graph, pos: seq<nat>, depth: seq<real>)
    requires Fits(g, pos) && DepthsFor(g, pos, depth)
    ensures |depth| == |g.ends| && forall i :: 0 <= i < |g.ends| && g.SameBand(i) ==> depth[i] >= 0.0
  {
    hide BandDone;
    forall i | 0 <= i < |g.ends| && g.SameBand(i) ensures depth[i] >= 0.0 { RailDepthPositive(g, pos, depth, i); }
  }

  lemma LanesCount(g: Graph, depth: seq<real>, lanes: seq<real>)
    requires g.Valid() && |depth| == |g.ends| && LanesFit(g, depth, lanes)
    ensures |lanes| == g.bandCount
  {
  }

  lemma AnchorsCount(g: Graph, pos: seq<nat>, depth: seq<real>, boxes: seq<Box>, anchors: seq<(real, real)>)
    requires Fits(g, pos) && |boxes| == |g.bandOf| && AnchorsFor(g, pos, depth, boxes, anchors)
    ensures |anchors| == |g.ends|
  {
  }

  /** Rows laid out from the centring offsets are the rows the layout promises. */
  lemma RowsAre(l: Layout, widths: seq<real>, bandWidth: seq<real>, content: real)
    requires Ordered(l) && |widths| == |l.boxes| && |bandWidth| == |l.bands| && l.width == content + 2.0 * MARGIN_X
    requires forall n :: 0 <= n < |l.boxes| ==> l.boxes[n].w == widths[n] >= MIN_NODE_WIDTH && l.boxes[n].h == NODE_HEIGHT
    requires forall b :: 0 <= b < |l.bands| ==> bandWidth[b] == RowWidth(l.bands[b], widths, |l.bands[b]|) <= content
    requires content == 0.0 || exists b :: 0 <= b < |l.bands| && content == bandWidth[b]
    requires forall b :: 0 <= b < |l.bands| ==> RowAt(l.bands[b], l.boxes, StartX(content, bandWidth[b]), |l.bands[b]|)
    ensures RowsPlaced(l)
  {
    hide Slots, NoDup, RowWidth, RowSpaced, RowAt;
    forall b | 0 <= b < |l.bands| ensures RowSpaced(l, b) && l.boxes[l.bands[b][0]].x == StartX(content, bandWidth[b]) {
      RowIs(l, b, widths, bandWidth[b], content);
    }
    if l.bands != [] {
      WideEnough(l, 0);
      var b :| 0 <= b < |l.bands| && content == bandWidth[b];
    }
  }

  lemma RowIs(l: Layout, b: nat, widths: seq<real>, width: real, content: real)
    requires Ordered(l) && b < |l.bands| && |widths| == |l.boxes| && l.width == content + 2.0 * MARGIN_X
    requires forall n :: 0 <= n < |l.boxes| ==> l.boxes[n].w == widths[n]
    requires width == RowWidth(l.bands[b], widths, |l.bands[b]|) <= content
    requires RowAt(l.bands[b], l.boxes, StartX(content, width), |l.bands[b]|)
    ensures RowSpaced(l, b) && l.boxes[l.bands[b][0]].x == StartX(content, width)
  {
    hide Slots, NoDup, RowWidth;
    RowAtWidth(l.bands[b], l.boxes, widths, StartX(content, width), |l.bands[b]|);
  }

  lemma {:induction false} RowReaches(l: Layout, b: nat, k: nat)
    requires Ordered(l) && b < |l.bands| && RowSpaced(l, b) && k < |l.bands[b]|
    requires forall n :: 0 <= n < |l.boxes| ==> l.boxes[n].w >= MIN_NODE_WIDTH
    ensures l.boxes[l.bands[b][0]].x < l.boxes[l.bands[b][k]].Right()
  {
    hide Slots, NoDup;
    if k > 0 { RowReaches(l, b, k - 1); }
  }

  lemma WideEnough(l: Layout, b: nat)
    requires Ordered(l) && b < |l.bands| && RowSpaced(l, b)
    requires forall n :: 0 <= n < |l.boxes| ==> l.boxes[n].w >= MIN_NODE_WIDTH
    ensures l.width > 2.0 * MARGIN_X
  {
    hide Slots, NoDup;
    RowReaches(l, b, |l.bands[b]| - 1);
  }
}
