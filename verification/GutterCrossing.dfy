/** A small drawing in which an edge on its way past a band crosses a neighbours'
    edge in the gutter: drawn, and not among what the slot model counts. */
module GutterCrossing {
  import opened Bands
  import opened Sorting
  import opened Geometry
  import opened Meeting
  import opened Layouts
  import opened Placement
  import opened Clearance
  import opened DrawnCrossings
  import opened BandPairs
  import opened Census
  import opened Ordering
  import opened Diagram
  import opened Layered

  /** Two services, a narrow and a wide virtual asset, two physical assets; the
      first service to the wide one, the second past it to the first physical. */
  ghost predicate IsGutter(l: Layout) {
    && l.bands == ThreeBands(2, 2, 2) && l.g.bandOf == [0, 0, 1, 1, 2, 2]
    && l.g.ends == [Ends(0, 3), Ends(1, 4)]
    && |l.boxes| == 6 && forall n :: 0 <= n < 6 ==> l.boxes[n].w == if n == 3 then 177.0 else 56.0
  }

  lemma GutterRow(l: Layout, b: nat)
    requires Placed(l) && IsGutter(l) && b < 3
    ensures var n, w := 2 * b, if b == 1 then 253.0 else 132.0;
            && l.boxes[n].x == (l.width - w) / 2.0 >= MARGIN_X && l.boxes[n + 1].x == l.boxes[n].x + 76.0
  {
    hide Placed, Ordered;
    RowShape(l, b);
    var row, n := l.bands[b], 2 * b;
    assert row[0] == n && row[1] == n + 1;
  }

  lemma GutterX(l: Layout)
    requires Placed(l) && IsGutter(l)
    ensures l.boxes[0].CenterX() == l.boxes[4].CenterX() == 112.5
    ensures l.boxes[1].CenterX() == l.boxes[3].CenterX() == 188.5
    ensures l.boxes[2].x == 24.0 && l.boxes[3].x == 100.0
  {
    hide Placed, Ordered;
    GutterRow(l, 0);
    GutterRow(l, 1);
    GutterRow(l, 2);
    WidestRow(l);
    var b :| 0 <= b < |l.bands| && l.boxes[l.bands[b][0]].x == MARGIN_X;
    assert l.bands[0][0] == 0 && l.bands[1][0] == 2 && l.bands[2][0] == 4;
    assert b == 0 || b == 1 || b == 2;
  }

  lemma GutterChannel(l: Layout, x: real)
    requires IsGutter(l) && l.boxes[2].x == 24.0 && l.boxes[3].x == 100.0
    requires RowKnown(l, 1) && NearestChannel(l.bands[1], l.boxes, 150.5, x)
    ensures x == 90.0
  {
    var c := Channels(l.bands[1], l.boxes);
    assert l.bands[1] == [2, 3];
    assert |c| == 3 && c[0] == 14.0 && c[1] == 287.0 && c[2] == 90.0;
    var f :| 0 <= f < |c| && FirstNearest(c, 150.5, f) && x == c[f];
  }

  /** The two lines, as far as they matter. */
  lemma GutterLinesAre(l: Layout)
    requires Placed(l) && IsGutter(l)
    ensures Joins(l, 0) && Drawing(l, 0) == [Point(112.5, 58.0), Point(188.5, 130.0)]
    ensures Joins(l, 1) && |Drawing(l, 1)| == 4 && Drawing(l, 1)[0] == Point(188.5, 58.0) && Drawing(l, 1)[1] == Point(90.0, 121.0)
  {
    hide Placed, NearestChannel;
    Shape(l);
    GutterX(l);
    PlainTops(l);
    PlainPath(l, 1, 1, 4);
    GutterChannel(l, Drawing(l, 1)[1].x);
    GutterLine(l, 0);
    BoxShape(l, 0);
    BoxShape(l, 3);
    DownLine(l, 0);
  }

  /** An edge down to the next band is drawn from top to foot. */
  lemma DownLine(l: Layout, i: nat)
    requires Placed(l) && Joins(l, i) && Downwards(l, i) && Distance(l.BandOfEnd(i, 0), l.BandOfEnd(i, 1)) == 1
    ensures Drawing(l, i) == [TopPoint(l, i), FootPoint(l, i)]
  {
    hide Placed, Ordered, ChannelAt;
    Shape(l);
    EdgeShape(l, i);
  }

  /** Nothing is counted by the slot model and one crossing by the census; no touch,
      and neither a rail nor a pair that joins the same two bands. */
  lemma NoneCountedOneCrosses(l: Layout)
    requires Placed(l) && IsGutter(l)
    ensures l.g.Valid() && |l.pos| == |l.g.bandOf| && |l.lines| == |l.g.ends| == 2
    ensures SlotCrossings(l.g, l.pos) == 0 && DrawnCount(l) == 1
    ensures !JoinSame(l, 0, 1) && !RailAndDrop(l.g, 0, 1) && Skips(l.g, 1)
  {
    hide Placed, PairCount, Drawing;
    Shape(l);
    GutterLinesAre(l);
    var w, v := Drawing(l, 0), Drawing(l, 1);
    assert Hit(w, v, 1, 1);
    SameDrawing(l, 0);
    SameDrawing(l, 1);
    PairOfTwo(CrossingPair(l.g, l.pos));
    PairOfTwo(Drawn(l));
  }

  // ---- the input itself

  function GutterInput(): Input {
    Input(
      [NodeIn("a", "a", "", LAYER_SERVICE), NodeIn("b", "b", "", LAYER_SERVICE),
       NodeIn("x", "x", "", LAYER_VIRTUAL), NodeIn("y", "twenty-two-characters!", "", LAYER_VIRTUAL),
       NodeIn("c", "c", "", LAYER_PHYSICAL), NodeIn("d", "d", "", LAYER_PHYSICAL)],
      [EdgeIn("a", "y", LAYER_VIRTUAL), EdgeIn("b", "c", LAYER_PHYSICAL)], "")
  }

  lemma GutterAcceptable()
    ensures Acceptable(GutterInput()) && LayerByLayer(GutterInput(), 2, 2, 2)
  {
    var nodes, edges := GutterInput().nodes, GutterInput().edges;
    assert nodes[0].id == "a" && nodes[1].id == "b" && nodes[3].id == "y" && nodes[4].id == "c";
    assert Known(nodes, "a") && Known(nodes, "b") && Known(nodes, "y") && Known(nodes, "c");
    hide Known;
    assert ValidNodes(nodes) by { GutterNodes(); }
    assert forall i :: 0 <= i < 2 ==> ValidEdge(nodes, edges[i]);
  }

  lemma GutterNodes()
    ensures ValidNodes(GutterInput().nodes)
  {
    var nodes := GutterInput().nodes;
    forall i | 0 <= i < 6 ensures |nodes[i].id| == 1 && nodes[i].id[0] == ['a', 'b', 'x', 'y', 'c', 'd'][i] && ValidNode(nodes[i]) {}
  }

  lemma GutterWidths()
    ensures forall n :: 0 <= n < 6 ==> WidthOf(GutterInput().nodes[n]) == if n == 3 then 177.0 else 56.0
  {
    var nodes := GutterInput().nodes;
    assert |nodes[3].name| == 22;
    assert TextWidth(nodes[3].name, LABEL_FONT_SIZE) == 156.86;
    assert TextWidth("a", LABEL_FONT_SIZE) == 7.13;
  }

  lemma GutterStart(s: Start)
    requires Represents(GutterInput(), s)
    ensures s.bands == ThreeBands(2, 2, 2) && s.g.bandOf == [0, 0, 1, 1, 2, 2] && s.g.ends == [Ends(0, 3), Ends(1, 4)]
    ensures s.g.subject < 0 && s.g.Valid() && IsOrdering(s.g, s.bands) && Score(s.g, s.bands) == 0
  {
    hide Score, Slots;
    GutterAcceptable();
    StartBands(GutterInput(), s, 2, 2, 2);
    GutterEnds(s);
    GutterScore(s.g, s.bands);
  }

  lemma GutterEnds(s: Start)
    requires Represents(GutterInput(), s)
    ensures s.g.ends == [Ends(0, 3), Ends(1, 4)]
  {
    hide IsOrdering, Slots, Grouped, Adjacency;
    var nodes, edges := GutterInput().nodes, GutterInput().edges;
    forall k | 0 <= k < 2 ensures s.g.ends[k] == [Ends(0, 3), Ends(1, 4)][k] {
      assert nodes[s.g.ends[k].from].id == edges[k].from && nodes[s.g.ends[k].to].id == edges[k].to;
    }
  }

  lemma GutterScore(g: Graph, bands: seq<seq<nat>>)
    requires g.Valid() && IsOrdering(g, bands) && g.bandOf == [0, 0, 1, 1, 2, 2] && g.ends == [Ends(0, 3), Ends(1, 4)]
    ensures Score(g, bands) == 0
  {
    hide PairCount, Slots, IsOrdering;
    PairOfTwo(CrossingPair(g, Slots(g, bands)));
  }

  lemma GutterIsDrawn(s: Start, l: Layout)
    requires Draws(GutterInput(), s, l) && l.bands == s.bands
    ensures IsGutter(l)
  {
    hide Represents, WidthOf, Score;
    GutterWidths();
    GutterStart(s);
  }

  /** The input, built and counted: no crossing reported, and one in the census. */
  method BuildGutter() returns (c: Crossings, drawn: nat)
    ensures c.before == c.after == 0 && drawn == 1
  {
    hide Placed, Acceptable, Represents, SlotCrossings, Score, DrawnCount, MergedCount, UncountedCount, AllAdjacent, NoDropsBesideRails,
         AllCentred, GutterInput, Candidate, FirstBest, IsGutter, Slots, IsOrdering;
    GutterAcceptable();
    var r; ghost var start;
    r, start := Build(GutterInput());
    var l := r.value.0;
    c := r.value.1;
    GutterStart(start);
    KeepsStart(start, l);
    GutterIsDrawn(start, l);
    NoneCountedOneCrosses(l);
    drawn := CountDrawn(l);
  }
}
