/** A small drawing in which the slot model counts a crossing that is not drawn:
    four edges past a band of one wide box. */
module WideBand {
  import opened Bands
  import opened Sorting
  import opened Geometry
  import opened Descents
  import opened ArcDepths
  import opened ArcAnchors
  import opened Layouts
  import opened Placement
  import opened Clearance
  import opened DrawnCrossings
  import opened BandPairs
  import opened Census
  import opened Ordering
  import opened Diagram
  import opened Layered

  /** Two services, one virtual asset, two physical ones; every service to every
      physical asset. */
  ghost predicate IsWide(l: Layout) {
    && l.g.bandOf == [0, 0, 1, 2, 2] && l.g.bandCount == 3
    && l.g.ends == [Ends(0, 3), Ends(0, 4), Ends(1, 3), Ends(1, 4)]
    && |l.boxes| == 5 && (forall n :: 0 <= n < 5 ==> l.boxes[n].w == if n == 2 then 177.0 else 56.0)
  }

  lemma RowOfTwo(l: Layout, b: nat, m: nat, n: nat)
    requires Placed(l) && IsWide(l) && ((b == 0 && m == 0 && n == 1) || (b == 2 && m == 3 && n == 4))
    ensures |l.pos| == 5 && |l.bands| == 3
    ensures (l.bands[b] == [m, n] && l.pos[m] == 0 && l.pos[n] == 1) || (l.bands[b] == [n, m] && l.pos[n] == 0 && l.pos[m] == 1)
  {
    hide Placed, Ordered, RowSpaced;
    Shape(l);
    PlacedOrdered(l);
    RowLength(l, b);
    SlotsOrdered(l);
    RowShape(l, b);
    var row := l.bands[b];
    assert row == [row[0], row[1]] && l.pos[row[0]] == 0 && l.pos[row[1]] == 1;
    assert l.g.bandOf[row[0]] == b && l.g.bandOf[row[1]] == b;
  }

  lemma RowLength(l: Layout, b: nat)
    requires Ordered(l) && IsWide(l) && b < 3
    ensures |l.bands| == 3 && |l.bands[b]| == if b == 1 then 1 else 2
    ensures l.bands[1] == [2]
  {
    hide Ordered, IsWide;
    RowMembers(l, b);
    RowMembers(l, 1);
    SameSize(l.bands[b], Row(b));
    SameSize(l.bands[1], Row(1));
    assert l.bands[1][0] in l.bands[1];
  }

  function Row(b: nat): seq<nat> { if b == 0 then [0, 1] else if b == 1 then [2] else [3, 4] }

  lemma RowMembers(l: Layout, b: nat)
    requires Ordered(l) && IsWide(l) && b < 3
    ensures |l.bands| == 3 && NoDup(l.bands[b]) && NoDup(Row(b)) && forall n :: n in l.bands[b] <==> n in Row(b)
  {
    hide Slots, NoDup;
    forall n ensures n in l.bands[b] <==> n in Row(b) {
      if n in l.bands[b] { var k :| 0 <= k < |l.bands[b]| && l.bands[b][k] == n; }
      if n in Row(b) { assert l.g.bandOf[n] == b; }
    }
    MembersOnce(b);
  }

  lemma MembersOnce(b: nat)
    ensures NoDup(Row(b))
  {
  }

  lemma SameSize(a: seq<nat>, b: seq<nat>)
    requires NoDup(a) && NoDup(b) && forall n :: n in a <==> n in b
    ensures |a| == |b|
  {
    NoDupCounts(a);
    NoDupCounts(b);
    forall n ensures multiset(a)[n] == multiset(b)[n] {
      if n in a { assert multiset(a)[n] == 1 == multiset(b)[n]; } else { assert n !in multiset(a) && n !in multiset(b); }
    }
    assert multiset(a) == multiset(b);
    assert |a| == |multiset(a)| == |b|;
  }

  /** Centres of the two pairs of narrow boxes, either side of the wide one's. */
  function Cx(l: Layout, n: nat): real
    requires n < |l.pos|
  {
    if l.pos[n] == 0 then 74.5 else 150.5
  }

  lemma WideX(l: Layout)
    requires Placed(l) && IsWide(l)
    ensures |l.pos| == 5 && |l.bands| == 3 && l.bands[1] == [2]
    ensures forall n :: n == 0 || n == 1 || n == 3 || n == 4 ==> l.boxes[n].CenterX() == Cx(l, n)
    ensures l.boxes[2].x == 24.0
    ensures (l.pos[0] == 0 && l.pos[1] == 1) || (l.pos[0] == 1 && l.pos[1] == 0)
    ensures (l.pos[3] == 0 && l.pos[4] == 1) || (l.pos[3] == 1 && l.pos[4] == 0)
  {
    hide Placed, Ordered;
    Shape(l);
    PlacedOrdered(l);
    RowOfTwo(l, 0, 0, 1);
    RowOfTwo(l, 2, 3, 4);
    RowLength(l, 1);
    RowShape(l, 0);
    RowShape(l, 1);
    RowShape(l, 2);
    WidestRow(l);
  }

  /** An edge from t down to u passes the wide box on the left, unless both its
      ends are on the right. */
  lemma Path(l: Layout, i: nat, t: nat, u: nat)
    requires Placed(l) && IsWide(l) && i < 4 && l.g.ends[i] == Ends(t, u)
    ensures |l.pos| == 5 && Joins(l, i) && Downwards(l, i)
    ensures Distance(l.BandOfEnd(i, 0), l.BandOfEnd(i, 1)) == 2
    ensures var w := Drawing(l, i);
            && |w| == 4 && w[0].x == Cx(l, t) && w[3].x == Cx(l, u)
            && w[1].x == w[2].x == if Cx(l, t) + Cx(l, u) == 301.0 then 211.0 else 14.0
  {
    hide Placed, NearestChannel;
    Shape(l);
    WideX(l);
    PlainPath(l, i, t, u);
    WideChannel(l, (Cx(l, t) + Cx(l, u)) / 2.0, Drawing(l, i)[1].x);
  }

  lemma WideChannel(l: Layout, want: real, x: real)
    requires |l.bands| == 3 && l.bands[1] == [2] && |l.boxes| == 5 && l.boxes[2].x == 24.0 && l.boxes[2].w == 177.0
    requires NearestChannel(l.bands[1], l.boxes, want, x)
    ensures want <= 112.5 ==> x == 14.0
    ensures want > 112.5 ==> x == 211.0
  {
    var c := Channels(l.bands[1], l.boxes);
    assert |c| == 2 && c[0] == 14.0 && c[1] == 211.0;
    var f :| 0 <= f < |c| && FirstNearest(c, want, f) && x == c[f];
  }

  /** Neither of the two pairs of edges without a common node is drawn crossing. */
  lemma PairNotDrawn(l: Layout, i: nat, j: nat)
    requires Placed(l) && IsWide(l) && ((i == 0 && j == 3) || (i == 1 && j == 2))
    ensures JoinSame(l, i, j) && |l.pos| == 5 && !PolylinesMeet(Drawing(l, i), Drawing(l, j))
    ensures Inverted(l, i, j) <==> if i == 0 then l.pos[0] != l.pos[3] else l.pos[0] == l.pos[3]
  {
    hide Placed, PolylinesMeet, Swap, Graze, Falls, Rises, SameHeights, Drawing, Merged;
    WideX(l);
    Path(l, i, l.g.ends[i].from, l.g.ends[i].to);
    Path(l, j, l.g.ends[j].from, l.g.ends[j].to);
    if Inverted(l, i, j) {
      SkippingMergedIff(l, i, j);
      InvertedDrawnIff(l, i, j);
    } else {
      SameWayHeights(l, i, j);
      SameWay(Drawing(l, i), Drawing(l, j));
      KeepApart(Drawing(l, i), Drawing(l, j));
    }
  }

  lemma KeepApart(w: seq<Point>, v: seq<Point>)
    requires |w| == |v| == 4
    requires (forall m :: 0 <= m < 4 ==> w[m].x < v[m].x) || (forall m :: 0 <= m < 4 ==> w[m].x > v[m].x)
    ensures forall m :: !Swap(w, v, m) && !Graze(w, v, m)
  {
    hide Orient;
  }

  lemma PairsOfFour(p: (nat, nat) -> bool)
    ensures PairCount(p, 4, 4) ==
            (if p(0, 1) then 1 else 0) + (if p(0, 2) then 1 else 0) + (if p(0, 3) then 1 else 0)
            + (if p(1, 2) then 1 else 0) + (if p(1, 3) then 1 else 0) + (if p(2, 3) then 1 else 0)
  {
    assert PairCount(p, 4, 4) == RowCount(p, 0, 4) + RowCount(p, 1, 4) + RowCount(p, 2, 4) + RowCount(p, 3, 4);
    RowOfFour(p, 0);
    RowOfFour(p, 1);
    RowOfFour(p, 2);
    RowOfFour(p, 3);
  }

  lemma RowOfFour(p: (nat, nat) -> bool, i: nat)
    requires i < 4
    ensures RowCount(p, i, 4) == (if i < 1 && p(i, 1) then 1 else 0) + (if i < 2 && p(i, 2) then 1 else 0) + (if i < 3 && p(i, 3) then 1 else 0)
  {
    assert RowCount(p, i, 3) == (if i < 1 && p(i, 1) then 1 else 0) + (if i < 2 && p(i, 2) then 1 else 0);
  }

  /** However its bands are ordered, the slot model counts one crossing, and none
      is drawn: both edges of the inverted pair run down the same channel. */
  lemma OneCountedNoneDrawn(l: Layout)
    requires Placed(l) && IsWide(l)
    ensures l.g.Valid() && |l.pos| == |l.g.bandOf| && |l.lines| == |l.g.ends|
    ensures SlotCrossings(l.g, l.pos) == 1 && DrawnCount(l) == 0
  {
    hide Placed, PolylinesMeet, PairCount, Inverted, JoinSame, Polyline;
    Shape(l);
    WideX(l);
    var p, q := CrossingPair(l.g, l.pos), Drawn(l);
    PairsOfFour(p);
    PairsOfFour(q);
    PairNotDrawn(l, 0, 3);
    PairNotDrawn(l, 1, 2);
    assert !q(0, 3) && !q(1, 2);
    assert p(0, 3) != p(1, 2);
  }

  // ---- the input itself

  function WideInput(): Input {
    Input(
      [NodeIn("a", "a", "", LAYER_SERVICE), NodeIn("b", "b", "", LAYER_SERVICE),
       NodeIn("w", "twenty-two-characters!", "", LAYER_VIRTUAL),
       NodeIn("c", "c", "", LAYER_PHYSICAL), NodeIn("d", "d", "", LAYER_PHYSICAL)],
      [EdgeIn("a", "c", LAYER_PHYSICAL), EdgeIn("a", "d", LAYER_PHYSICAL),
       EdgeIn("b", "c", LAYER_PHYSICAL), EdgeIn("b", "d", LAYER_PHYSICAL)], "")
  }

  lemma WideAcceptable()
    ensures Acceptable(WideInput())
  {
    var nodes, edges := WideInput().nodes, WideInput().edges;
    assert nodes[0].id == "a" && nodes[1].id == "b" && nodes[3].id == "c" && nodes[4].id == "d";
    assert Known(nodes, "a") && Known(nodes, "b") && Known(nodes, "c") && Known(nodes, "d");
    hide Known;
    assert ValidNodes(nodes) by { WideNodes(); }
    assert forall i :: 0 <= i < 4 ==> ValidEdge(nodes, edges[i]);
  }

  lemma WideNodes()
    ensures ValidNodes(WideInput().nodes)
  {
    var nodes := WideInput().nodes;
    assert nodes[0].id == "a" && nodes[1].id == "b" && nodes[2].id == "w" && nodes[3].id == "c" && nodes[4].id == "d";
  }

  lemma WideWidths()
    ensures forall n :: 0 <= n < 5 ==> WidthOf(WideInput().nodes[n]) == if n == 2 then 177.0 else 56.0
  {
    var nodes := WideInput().nodes;
    assert |nodes[2].name| == 22;
    assert TextWidth(nodes[2].name, LABEL_FONT_SIZE) == 156.86;
    assert TextWidth("a", LABEL_FONT_SIZE) == 7.13;
  }

  lemma WideEnds(ends: seq<Ends>)
    requires Resolves(WideInput().nodes, WideInput().edges, ends)
    ensures ends == [Ends(0, 3), Ends(0, 4), Ends(1, 3), Ends(1, 4)]
  {
    var nodes, edges := WideInput().nodes, WideInput().edges;
    forall k | 0 <= k < 4 ensures ends[k] == [Ends(0, 3), Ends(0, 4), Ends(1, 3), Ends(1, 4)][k] {
      assert nodes[ends[k].from].id == edges[k].from && nodes[ends[k].to].id == edges[k].to;
    }
  }

  lemma WideBands(s: Start)
    requires Represents(WideInput(), s)
    ensures s.g.bandOf == [0, 0, 1, 2, 2] && s.g.bandCount == 3
  {
    hide Represents, Acceptable;
    WideAcceptable();
    StartBands(WideInput(), s, 2, 1, 2);
  }

  /** The input, built and counted: a crossing reported and none in the drawing. */
  method BuildWide() returns (c: Crossings, drawn: nat)
    ensures c.after == 1 && drawn == 0
  {
    hide Placed, Acceptable, SlotCrossings, DrawnCount, MergedCount, AllAdjacent, NoDropsBesideRails, AllCentred, WideInput, Candidate, IsWide;
    WideAcceptable();
    var r; ghost var start;
    r, start := Build(WideInput());
    var l := r.value.0;
    c := r.value.1;
    WideIsDrawn(start, l);
    OneCountedNoneDrawn(l);
    drawn := CountDrawn(l);
  }

  lemma WideIsDrawn(s: Start, l: Layout)
    requires Placed(l) && Draws(WideInput(), s, l)
    ensures IsWide(l)
  {
    hide Placed, Represents, WidthOf;
    WideWidths();
    RepresentsEnds(s);
    WideBands(s);
  }

  lemma RepresentsEnds(s: Start)
    requires Represents(WideInput(), s)
    ensures s.g.ends == [Ends(0, 3), Ends(0, 4), Ends(1, 3), Ends(1, 4)]
  {
    hide IsOrdering, Slots, Grouped, Adjacency;
    WideEnds(s.g.ends);
  }
}
