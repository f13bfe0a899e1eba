/** A small drawing in which two lines that keep their order, and only touch, are
    counted as crossing. */
module TouchingLines {
  import opened Bands
  import opened Sorting
  import opened Geometry
  import opened Meeting
  import opened Layouts
  import opened Placement
  import opened Clearance
  import opened DrawnCrossings
  import opened BandPairs
  import opened Census
  import opened Ordering
  import opened Diagram
  import opened Layered

  /** Four services, one wide virtual asset, four physical ones; the third service
      to the third physical asset and the fourth to the fourth. */
  ghost predicate IsTouch(l: Layout) {
    && l.bands == ThreeBands(4, 1, 4) && l.g.bandOf == [0, 0, 0, 0, 1, 2, 2, 2, 2]
    && l.g.ends == [Ends(2, 7), Ends(3, 8)]
    && |l.boxes| == 9 && forall n :: 0 <= n < 9 ==> l.boxes[n].w == if n == 4 then 177.0 else 56.0
  }

  lemma TouchRow(l: Layout, b: nat)
    requires Placed(l) && IsTouch(l) && (b == 0 || b == 2)
    ensures var n := if b == 0 then 0 else 5;
            && l.boxes[n].x == (l.width - 284.0) / 2.0 >= MARGIN_X
            && l.boxes[n + 2].CenterX() == l.boxes[n].x + 180.0 && l.boxes[n + 3].CenterX() == l.boxes[n].x + 256.0
  {
    hide Placed, Ordered;
    RowShape(l, b);
    var row, n := l.bands[b], if b == 0 then 0 else 5;
    assert row[0] == n && row[1] == n + 1 && row[2] == n + 2 && row[3] == n + 3;
  }

  lemma TouchX(l: Layout)
    requires Placed(l) && IsTouch(l)
    ensures l.boxes[2].CenterX() == l.boxes[7].CenterX() == 204.0 && l.boxes[3].CenterX() == l.boxes[8].CenterX() == 280.0
    ensures l.boxes[4].x == 77.5
  {
    hide Placed, Ordered;
    TouchRow(l, 0);
    TouchRow(l, 2);
    RowShape(l, 1);
    WidestRow(l);
    assert |l.bands| == 3 && l.bands[1] == [4] && l.bands[0][0] == 0 && l.bands[2][0] == 5;
    var b :| 0 <= b < |l.bands| && l.boxes[l.bands[b][0]].x == MARGIN_X;
    assert b == 0 || b == 1 || b == 2;
  }

  lemma TouchChannel(l: Layout, want: real, x: real)
    requires IsTouch(l) && l.boxes[4].x == 77.5 && want >= 204.0 && RowKnown(l, 1) && NearestChannel(l.bands[1], l.boxes, want, x)
    ensures x == 264.5
  {
    var c := Channels(l.bands[1], l.boxes);
    assert |c| == 2 && c[0] == 67.5 && c[1] == 264.5;
    var f :| 0 <= f < |c| && FirstNearest(c, want, f) && x == c[f];
  }

  lemma TouchPath(l: Layout, i: nat)
    requires Placed(l) && IsTouch(l) && i < 2
    ensures Joins(l, i) && Downwards(l, i) && Distance(l.BandOfEnd(i, 0), l.BandOfEnd(i, 1)) == 2
    ensures |Drawing(l, i)| == 4 && ChannelOf(l, i) == 264.5
  {
    hide Placed, NearestChannel;
    Shape(l);
    TouchX(l);
    PlainPath(l, i, i + 2, i + 7);
    TouchChannel(l, (l.boxes[i + 2].CenterX() + l.boxes[i + 7].CenterX()) / 2.0, Drawing(l, i)[1].x);
  }

  lemma TouchSlots(l: Layout)
    requires Placed(l) && IsTouch(l)
    ensures |l.pos| == 9 && l.pos[2] == 2 && l.pos[3] == 3 && l.pos[7] == 2 && l.pos[8] == 3
  {
    hide Placed, Ordered;
    Shape(l);
    PlacedOrdered(l);
    SlotsOrdered(l);
    assert l.bands[0][2] == 2 && l.bands[0][3] == 3 && l.bands[2][2] == 7 && l.bands[2][3] == 8;
  }

  /** Nothing is counted by the slot model, and a crossing by the census, though the
      lines only touch: no counted stretch shares an inside point with the other. */
  lemma NoneCountedOneDrawn(l: Layout)
    requires Placed(l) && IsTouch(l)
    ensures l.g.Valid() && |l.pos| == |l.g.bandOf| && |l.lines| == |l.g.ends| && JoinSame(l, 0, 1)
    ensures SlotCrossings(l.g, l.pos) == 0 && DrawnCount(l) == 1
    ensures forall m, n :: Hit(Drawing(l, 0), Drawing(l, 1), m, n) ==>
              !ShareInside(Drawing(l, 0)[m - 1], Drawing(l, 0)[m], Drawing(l, 1)[n - 1], Drawing(l, 1)[n])
  {
    hide Placed, PolylinesMeet, PairCount, Drawing, ShareInside, SegmentsCross;
    Shape(l);
    TouchX(l);
    TouchSlots(l);
    TouchPath(l, 0);
    TouchPath(l, 1);
    SkippingSameOrder(l, 0, 1);
    SameDrawing(l, 0);
    SameDrawing(l, 1);
    forall m, n | Hit(Drawing(l, 0), Drawing(l, 1), m, n)
      ensures !ShareInside(Drawing(l, 0)[m - 1], Drawing(l, 0)[m], Drawing(l, 1)[n - 1], Drawing(l, 1)[n])
    {
      KeptOrderOnlyTouches(l, 0, 1, m, n);
    }
    InvertedIsCounted(l, 0, 1);
    PairOfTwo(CrossingPair(l.g, l.pos));
    PairOfTwo(Drawn(l));
  }

  // ---- the input itself

  function TouchInput(): Input {
    Input(
      [NodeIn("s", "s", "", LAYER_SERVICE), NodeIn("t", "t", "", LAYER_SERVICE),
       NodeIn("a", "a", "", LAYER_SERVICE), NodeIn("b", "b", "", LAYER_SERVICE),
       NodeIn("w", "twenty-two-characters!", "", LAYER_VIRTUAL),
       NodeIn("p", "p", "", LAYER_PHYSICAL), NodeIn("q", "q", "", LAYER_PHYSICAL),
       NodeIn("c", "c", "", LAYER_PHYSICAL), NodeIn("d", "d", "", LAYER_PHYSICAL)],
      [EdgeIn("a", "c", LAYER_PHYSICAL), EdgeIn("b", "d", LAYER_PHYSICAL)], "")
  }

  lemma TouchAcceptable()
    ensures Acceptable(TouchInput()) && LayerByLayer(TouchInput(), 4, 1, 4)
  {
    var nodes, edges := TouchInput().nodes, TouchInput().edges;
    assert nodes[2].id == "a" && nodes[3].id == "b" && nodes[7].id == "c" && nodes[8].id == "d";
    assert Known(nodes, "a") && Known(nodes, "b") && Known(nodes, "c") && Known(nodes, "d");
    hide Known;
    assert ValidNodes(nodes) by { TouchNodes(); }
    assert forall i :: 0 <= i < 2 ==> ValidEdge(nodes, edges[i]);
  }

  lemma TouchNodes()
    ensures ValidNodes(TouchInput().nodes)
  {
    var nodes := TouchInput().nodes;
    forall i | 0 <= i < 9 ensures |nodes[i].id| == 1 && nodes[i].id[0] == Letters()[i] && ValidNode(nodes[i]) {}
    hide TouchInput, Letters;
    LettersDiffer();
  }

  function Letters(): seq<char> { ['s', 't', 'a', 'b', 'w', 'p', 'q', 'c', 'd'] }

  lemma LettersDiffer()
    ensures |Letters()| == 9 && forall i, j :: 0 <= i < j < 9 ==> Letters()[i] != Letters()[j]
  {
  }

  lemma TouchWidths()
    ensures forall n :: 0 <= n < 9 ==> WidthOf(TouchInput().nodes[n]) == if n == 4 then 177.0 else 56.0
  {
    var nodes := TouchInput().nodes;
    assert |nodes[4].name| == 22;
    assert TextWidth(nodes[4].name, LABEL_FONT_SIZE) == 156.86;
    assert TextWidth("a", LABEL_FONT_SIZE) == 7.13;
  }

  lemma TouchEnds(s: Start)
    requires Represents(TouchInput(), s)
    ensures s.g.ends == [Ends(2, 7), Ends(3, 8)]
  {
    hide IsOrdering, Slots, Grouped, Adjacency;
    var nodes, edges := TouchInput().nodes, TouchInput().edges;
    forall k | 0 <= k < 2 ensures s.g.ends[k] == [Ends(2, 7), Ends(3, 8)][k] {
      assert nodes[s.g.ends[k].from].id == edges[k].from && nodes[s.g.ends[k].to].id == edges[k].to;
    }
  }

  lemma TouchStart(s: Start)
    requires Represents(TouchInput(), s)
    ensures s.bands == ThreeBands(4, 1, 4) && s.g.bandOf == [0, 0, 0, 0, 1, 2, 2, 2, 2] && s.g.ends == [Ends(2, 7), Ends(3, 8)]
    ensures s.g.subject < 0 && s.g.Valid() && IsOrdering(s.g, s.bands) && Score(s.g, s.bands) == 0
  {
    hide Score, Slots;
    TouchAcceptable();
    StartBands(TouchInput(), s, 4, 1, 4);
    TouchEnds(s);
    TouchScore(s.g, s.bands);
  }

  lemma TouchScore(g: Graph, bands: seq<seq<nat>>)
    requires g.Valid() && IsOrdering(g, bands) && bands == ThreeBands(4, 1, 4)
    requires g.bandOf == [0, 0, 0, 0, 1, 2, 2, 2, 2] && g.ends == [Ends(2, 7), Ends(3, 8)]
    ensures Score(g, bands) == 0
  {
    hide PairCount, Slots, IsOrdering;
    var pos := Slots(g, bands);
    SlotsInvert(g, bands, pos);
    assert bands[0][2] == 2 && bands[0][3] == 3 && bands[2][2] == 7 && bands[2][3] == 8;
    assert pos[2] == 2 && pos[3] == 3 && pos[7] == 2 && pos[8] == 3;
    PairOfTwo(CrossingPair(g, pos));
  }

  lemma TouchIsDrawn(s: Start, l: Layout)
    requires Draws(TouchInput(), s, l) && l.bands == s.bands
    ensures IsTouch(l)
  {
    hide Represents, WidthOf, Score;
    TouchWidths();
    TouchStart(s);
  }

  /** The input, built and counted: no crossing reported, and one in the census. */
  method BuildTouch() returns (c: Crossings, drawn: nat)
    ensures c.before == c.after == 0 && drawn == 1
  {
    hide Placed, Acceptable, Represents, SlotCrossings, Score, DrawnCount, MergedCount, UncountedCount, AllAdjacent, NoDropsBesideRails,
         AllCentred, TouchInput, Candidate, FirstBest, IsTouch, Slots, IsOrdering;
    TouchAcceptable();
    var r; ghost var start;
    r, start := Build(TouchInput());
    var l := r.value.0;
    c := r.value.1;
    TouchStart(start);
    KeepsStart(start, l);
    TouchIsDrawn(start, l);
    NoneCountedOneDrawn(l);
    drawn := CountDrawn(l);
  }
}
