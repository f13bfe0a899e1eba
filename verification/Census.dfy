/** The slot model against the census of the drawing. */
module Census {
  import opened Bands
  import opened Sorting
  import opened Geometry
  import opened Descents
  import opened Rails
  import opened ArcDepths
  import opened ArcAnchors
  import opened Layouts
  import opened Clearance
  import opened DrawnCrossings
  import opened BandPairs
  import opened Drops

  /** The census: a pair that shares no node and whose lines cross. */
  ghost predicate DrawnPair(l: Layout, i: nat, j: nat)
    requires i < |l.g.ends| && j < |l.g.ends| && |l.lines| == |l.g.ends|
  {
    !SharesEndpoint(l.g, i, j) && PolylinesMeet(Polyline(l.lines[i]), Polyline(l.lines[j]))
  }

  /** No band holds a rail and also has a line leaving it downwards. */
  ghost predicate NoDropsBesideRails(g: Graph)
    requires g.Valid()
  {
    forall i, j :: 0 <= i < |g.ends| && 0 <= j < |g.ends| && g.SameBand(i) && !g.SameBand(j)
      ==> g.bandOf[g.ends[i].from] != g.bandOf[Upper(g, j)]
  }

  /** A pair the slot model counts is drawn crossing exactly when it is not two
      edges merged on their way past a band. */
  lemma SlotCrossingDrawnIff(l: Layout, i: nat, j: nat)
    requires Placed(l) && i < |l.g.ends| && j < |l.g.ends| && i != j
    requires Crosses(l.g, l.pos, l.g.ends[i], l.g.ends[j])
    ensures DrawnPair(l, i, j) <==> !Merged(l, i, j)
  {
    hide Placed, PolylinesMeet, Polyline, Swap, Graze;
    Shape(l);
    var u, w := Upper(l.g, i), Upper(l.g, j);
    if l.g.SameBand(i) != l.g.SameBand(j) {
      if l.g.SameBand(i) { DropInsideRailCrosses(l, i, j); } else { DropInsideRailCrosses(l, j, i); }
    } else if l.g.SameBand(i) {
      RailsCrossIffInterleaved(l, i, j);
    } else {
      InvertedMeansBoth(l.pos[u], l.pos[w], l.pos[Lower(l.g, i)], l.pos[Lower(l.g, j)]);
      InvertedDrawnIff(l, i, j);
    }
  }

  lemma InvertedMeansBoth(a: int, b: int, c: int, d: int)
    ensures (a - b) * (c - d) < 0 <==> (a < b && c > d) || (a > b && c < d)
  {
    if a < b && c > d { assert (b - a) * (c - d) > 0; }
    else if a > b && c < d { assert (a - b) * (d - c) > 0; }
    else if a < b && c < d { assert (b - a) * (d - c) > 0; }
    else if a > b && c > d { assert (a - b) * (c - d) > 0; }
  }

  /** Edge i goes past a band. */
  ghost predicate Skips(g: Graph, i: nat)
    requires g.Valid() && i < |g.ends|
  {
    Distance(g.bandOf[g.ends[i].from], g.bandOf[g.ends[i].to]) > 1
  }

  /** One of the two is a rail, and the other leaves its band downwards. */
  ghost predicate RailAndDrop(g: Graph, i: nat, j: nat)
    requires g.Valid() && i < |g.ends| && j < |g.ends|
  {
    g.SameBand(i) != g.SameBand(j) && g.bandOf[Upper(g, i)] == g.bandOf[Upper(g, j)]
  }

  /** A line leaving a band beside a rail is counted, whichever comes first, exactly
      when the centre of its box lies strictly between the centres of the two boxes
      of the rail. */
  lemma DropCountedIff(l: Layout, i: nat, j: nat)
    requires Placed(l) && l.g.Valid() && i < |l.g.ends| && j < |l.g.ends| && DropBeside(l.g, i, j)
    ensures |l.boxes| == |l.pos| == |l.g.bandOf|
    ensures var a, b, x := l.boxes[l.g.ends[i].from].CenterX(), l.boxes[l.g.ends[i].to].CenterX(), l.boxes[Upper(l.g, j)].CenterX();
            && (Crosses(l.g, l.pos, l.g.ends[i], l.g.ends[j]) <==> a < x < b || b < x < a)
            && (Crosses(l.g, l.pos, l.g.ends[j], l.g.ends[i]) <==> a < x < b || b < x < a)
  {
    hide Placed;
    Shape(l);
    CentresOrdered(l, l.g.ends[i].from, l.g.ends[i].to);
    CentresOrdered(l, l.g.ends[i].from, Upper(l.g, j));
    CentresOrdered(l, Upper(l.g, j), l.g.ends[i].to);
  }

  /** Of a rail and a line leaving its band from another box, drawn is what is
      counted and what clips the rail from beyond its ends. */
  lemma DropCensus(l: Layout, i: nat, j: nat)
    requires Placed(l) && l.g.Valid() && i < |l.g.ends| == |l.lines| && j < |l.g.ends| && DropBeside(l.g, i, j) && |l.pos| == |l.g.bandOf|
    ensures DrawnPair(l, i, j) <==> Crosses(l.g, l.pos, l.g.ends[i], l.g.ends[j]) || Clips(l, i, j)
    ensures DrawnPair(l, j, i) <==> Crosses(l.g, l.pos, l.g.ends[j], l.g.ends[i]) || Clips(l, i, j)
  {
    hide Placed, Crosses, PolylinesMeet, Clips;
    Shape(l);
    DropCountedIff(l, i, j);
    DropDrawnIff(l, i, j);
  }

  /** A rail and a line leaving its band, without a node in common. */
  lemma DropBesideOne(g: Graph, i: nat, j: nat)
    requires g.Valid() && i < |g.ends| && j < |g.ends| && RailAndDrop(g, i, j) && !SharesEndpoint(g, i, j)
    ensures DropBeside(g, i, j) || DropBeside(g, j, i)
  {
  }

  /** A drawn crossing of two edges that skip no band and are not a rail and a line
      leaving its band is counted. */
  lemma DrawnCrossingIsCounted(l: Layout, i: nat, j: nat)
    requires Placed(l) && l.g.Valid() && i < |l.g.ends| == |l.lines| && j < |l.g.ends| && i != j
    requires !Skips(l.g, i) && !Skips(l.g, j) && !RailAndDrop(l.g, i, j) && DrawnPair(l, i, j)
    ensures |l.pos| == |l.g.bandOf| && Crosses(l.g, l.pos, l.g.ends[i], l.g.ends[j])
  {
    hide Placed, PolylinesMeet, Polyline;
    Shape(l);
    var u, w := Upper(l.g, i), Upper(l.g, j);
    if l.g.bandOf[u] != l.g.bandOf[w] {
      DifferentBandsApart(l, i, j, l.g.bandOf[u], l.g.bandOf[w]);
    } else if l.g.SameBand(i) {
      RailsCrossIffInterleaved(l, i, j);
    } else {
      NeighboursCrossIffInverted(l, i, j);
      InvertedIsCounted(l, i, j);
    }
  }

  /** Of two edges joining the same two bands, the slot model counts the inverted. */
  lemma InvertedIsCounted(l: Layout, i: nat, j: nat)
    requires Placed(l) && JoinSame(l, i, j)
    ensures Inverted(l, i, j) <==> Crosses(l.g, l.pos, l.g.ends[i], l.g.ends[j])
  {
    hide Placed;
    Shape(l);
    CentresOrdered(l, Upper(l.g, i), Upper(l.g, j));
    CentresOrdered(l, Lower(l.g, i), Lower(l.g, j));
    var u, w := Upper(l.g, i), Upper(l.g, j);
    InvertedMeansBoth(l.pos[u], l.pos[w], l.pos[Lower(l.g, i)], l.pos[Lower(l.g, j)]);
  }

  /** i, to the left of j at both ends, only touches it, and the touch is counted. */
  ghost predicate TouchesFromLeft(l: Layout, i: nat, j: nat)
    requires JoinSame(l, i, j)
  {
    && LeftOf(l, i, j) && |Drawing(l, i)| == |Drawing(l, j)|
    && if SameWayRound(l, i, j) then exists m :: Graze(Drawing(l, i), Drawing(l, j), m)
       else Downwards(l, j) && ShareBend(l, i, j)
  }

  /** The two keep their order, and the census counts a touch between them. */
  ghost predicate Touching(l: Layout, i: nat, j: nat) {
    JoinSame(l, i, j) && JoinSame(l, j, i) && (TouchesFromLeft(l, i, j) || TouchesFromLeft(l, j, i))
  }

  /** For every pair joining the same two bands, near or far: the picture is the
      slot model, less the merged pairs, and with the touching ones besides. */
  lemma SameBandsCensus(l: Layout, i: nat, j: nat)
    requires Placed(l) && JoinSame(l, i, j)
    ensures DrawnPair(l, i, j) <==> (Crosses(l.g, l.pos, l.g.ends[i], l.g.ends[j]) && !Merged(l, i, j)) || Touching(l, i, j)
  {
    hide Placed, Drawing, PolylinesMeet, Merged, SharesEndpoint, Crosses, Graze, ShareBend, Downwards;
    OneOrder(l, i, j);
    InvertedIsCounted(l, i, j);
    assert Drawing(l, i) == Polyline(l.lines[i]) && Drawing(l, j) == Polyline(l.lines[j]) by { SameDrawing(l, i); SameDrawing(l, j); }
    if Inverted(l, i, j) {
      InvertedDrawnIff(l, i, j);
    } else if LeftOf(l, i, j) {
      SameOrderDrawnIff(l, i, j);
    } else {
      SameOrderDrawnIff(l, j, i);
      MeetSymmetric(Drawing(l, i), Drawing(l, j));
    }
  }

  lemma SameDrawing(l: Layout, i: nat)
    requires Joins(l, i)
    ensures Drawing(l, i) == Polyline(l.lines[i])
  {
  }

  /** What is drawn and not counted: a line that leaves a band from beyond the ends
      of a rail and clips it, a pair that touches down one channel, or a pair one of
      which skips a band and the other does not join the same two. */
  lemma DrawnUncounted(l: Layout, i: nat, j: nat)
    requires Placed(l) && l.g.Valid() && i < |l.g.ends| == |l.lines| && j < |l.g.ends| && i != j && |l.pos| == |l.boxes| == |l.g.bandOf|
    requires DrawnPair(l, i, j) && !Crosses(l.g, l.pos, l.g.ends[i], l.g.ends[j])
    ensures Clips(l, i, j) || Clips(l, j, i) || Touching(l, i, j) || (!JoinSame(l, i, j) && (Skips(l.g, i) || Skips(l.g, j)))
  {
    hide Placed, Drawing, PolylinesMeet, Merged, Touching, RailAndDrop, Skips, Crosses, Clips, DropBeside, SharesEndpoint;
    if JoinSame(l, i, j) {
      SameBandsCensus(l, i, j);
    } else if RailAndDrop(l.g, i, j) {
      DropBesideOne(l.g, i, j);
      if DropBeside(l.g, i, j) { DropCensus(l, i, j); } else { DropCensus(l, j, i); }
    } else if !Skips(l.g, i) && !Skips(l.g, j) {
      DrawnCrossingIsCounted(l, i, j);
    }
  }

  /** For any two edges that skip no band, whatever they are, the picture is the slot
      model and the clipped rails besides. */
  lemma NearCensus(l: Layout, i: nat, j: nat)
    requires Placed(l) && l.g.Valid() && i < |l.g.ends| == |l.lines| && j < |l.g.ends| && i != j && |l.pos| == |l.g.bandOf|
    requires !Skips(l.g, i) && !Skips(l.g, j)
    ensures DrawnPair(l, i, j) <==> Crosses(l.g, l.pos, l.g.ends[i], l.g.ends[j]) || Clips(l, i, j) || Clips(l, j, i)
  {
    hide Placed, PolylinesMeet, Crosses, Clips, DropBeside, DrawnPair, RailAndDrop, Merged;
    Shape(l);
    ClipsBeside(l, i, j);
    ClipsBeside(l, j, i);
    if DropBeside(l.g, i, j) {
      DropCensus(l, i, j);
    } else if DropBeside(l.g, j, i) {
      DropCensus(l, j, i);
    } else {
      if DrawnPair(l, i, j) { NearDrawn(l, i, j); }
      if Crosses(l.g, l.pos, l.g.ends[i], l.g.ends[j]) {
        SlotCrossingDrawnIff(l, i, j);
        NearNotMerged(l, i, j);
      }
    }
  }

  lemma ClipsBeside(l: Layout, i: nat, j: nat)
    requires l.g.Valid() && i < |l.g.ends| && j < |l.g.ends|
    ensures Clips(l, i, j) ==> DropBeside(l.g, i, j)
    ensures !(DropBeside(l.g, i, j) && DropBeside(l.g, j, i))
  {
  }

  lemma NearDrawn(l: Layout, i: nat, j: nat)
    requires Placed(l) && l.g.Valid() && i < |l.g.ends| == |l.lines| && j < |l.g.ends| && i != j && |l.pos| == |l.g.bandOf|
    requires !Skips(l.g, i) && !Skips(l.g, j) && !DropBeside(l.g, i, j) && !DropBeside(l.g, j, i) && DrawnPair(l, i, j)
    ensures Crosses(l.g, l.pos, l.g.ends[i], l.g.ends[j])
  {
    hide Placed, PolylinesMeet, Crosses, DropBeside, RailAndDrop, Skips, SharesEndpoint;
    if RailAndDrop(l.g, i, j) { DropBesideOne(l.g, i, j); }
    DrawnCrossingIsCounted(l, i, j);
  }

  lemma NearNotMerged(l: Layout, i: nat, j: nat)
    requires Placed(l) && l.g.Valid() && i < |l.g.ends| && !Skips(l.g, i)
    ensures !Merged(l, i, j)
  {
    hide Placed, Inverted, Swap, Graze;
    if JoinSame(l, i, j) { NeighboursNotMerged(l, i, j); }
  }

  ghost function Drawn(l: Layout): (nat, nat) -> bool
    requires |l.lines| == |l.g.ends|
  {
    (i: nat, j: nat) => i < |l.g.ends| && j < |l.g.ends| && DrawnPair(l, i, j)
  }

  ghost function DrawnCount(l: Layout): nat
    requires |l.lines| == |l.g.ends|
  {
    PairCount(Drawn(l), |l.g.ends|, |l.g.ends|)
  }

  /** The pairs that are counted and not drawn. */
  ghost function MergedPair(l: Layout): (nat, nat) -> bool
    requires l.g.Valid() && |l.pos| == |l.g.bandOf|
  {
    (i: nat, j: nat) => CrossingPair(l.g, l.pos)(i, j) && Merged(l, i, j)
  }

  ghost function MergedCount(l: Layout): nat
    requires l.g.Valid() && |l.pos| == |l.g.bandOf|
  {
    PairCount(MergedPair(l), |l.g.ends|, |l.g.ends|)
  }

  lemma PairOfTwo(p: (nat, nat) -> bool)
    ensures PairCount(p, 2, 2) == if p(0, 1) then 1 else 0
  {
    assert PairCount(p, 2, 2) == RowCount(p, 0, 2) + RowCount(p, 1, 2);
  }

  /** The pairs that are drawn and not counted. */
  ghost function UncountedPair(l: Layout): (nat, nat) -> bool
    requires l.g.Valid() && |l.pos| == |l.g.bandOf| && |l.lines| == |l.g.ends|
  {
    (i: nat, j: nat) => Drawn(l)(i, j) && !CrossingPair(l.g, l.pos)(i, j)
  }

  ghost function UncountedCount(l: Layout): nat
    requires l.g.Valid() && |l.pos| == |l.g.bandOf| && |l.lines| == |l.g.ends|
  {
    PairCount(UncountedPair(l), |l.g.ends|, |l.g.ends|)
  }

  lemma {:induction false} RowBalances(p: (nat, nat) -> bool, q: (nat, nat) -> bool, r: (nat, nat) -> bool, s: (nat, nat) -> bool, i: nat, j: nat)
    requires forall y :: i < y < j ==> (r(i, y) <==> p(i, y) && !q(i, y)) && (s(i, y) <==> q(i, y) && !p(i, y))
    ensures RowCount(p, i, j) + RowCount(s, i, j) == RowCount(q, i, j) + RowCount(r, i, j)
  {
    if j > i + 1 { RowBalances(p, q, r, s, i, j - 1); }
  }

  /** r is what p has and q has not, s the other way round. */
  lemma {:induction false} PairsBalance(p: (nat, nat) -> bool, q: (nat, nat) -> bool, r: (nat, nat) -> bool, s: (nat, nat) -> bool, n: nat, i: nat)
    requires i <= n
    requires forall x, y :: 0 <= x < y < n ==> (r(x, y) <==> p(x, y) && !q(x, y)) && (s(x, y) <==> q(x, y) && !p(x, y))
    ensures PairCount(p, n, i) + PairCount(s, n, i) == PairCount(q, n, i) + PairCount(r, n, i)
  {
    if i > 0 {
      PairsBalance(p, q, r, s, n, i - 1);
      RowBalances(p, q, r, s, i - 1, n);
    }
  }

  /** Objective and census, to the pair: counted and uncounted drawn crossings on
      one side, drawn crossings and merged pairs on the other. Without edges that
      skip a band nothing is merged, and when besides no line drops beside a rail
      nothing is drawn uncounted. */
  lemma ObjectiveAgainstCensus(l: Layout)
    requires Placed(l)
    ensures l.g.Valid() && |l.pos| == |l.g.bandOf| && |l.lines| == |l.g.ends|
    ensures SlotCrossings(l.g, l.pos) + UncountedCount(l) == DrawnCount(l) + MergedCount(l)
    ensures AllAdjacent(l.g) ==> MergedCount(l) == 0
    ensures AllAdjacent(l.g) && NoDropsBesideRails(l.g) ==> UncountedCount(l) == 0
  {
    hide Placed, DrawnPair, Crosses, AllAdjacent, NoDropsBesideRails, Merged;
    Shape(l);
    var p, q, r, s, n := CrossingPair(l.g, l.pos), Drawn(l), MergedPair(l), UncountedPair(l), |l.g.ends|;
    forall i, j | 0 <= i < j < n ensures r(i, j) <==> p(i, j) && !q(i, j) {
      if p(i, j) { SlotCrossingDrawnIff(l, i, j); }
    }
    PairsBalance(p, q, r, s, n, n);
    if AllAdjacent(l.g) {
      forall i, j | 0 <= i < j < n ensures !r(i, j) { AdjacentNotMerged(l, i, j); }
      NoPairs(r, n, n);
      if NoDropsBesideRails(l.g) {
        forall i, j | 0 <= i < j < n ensures !s(i, j) {
          if q(i, j) {
            PlainPair(l.g, i, j);
            DrawnCrossingIsCounted(l, i, j);
          }
        }
        NoPairs(s, n, n);
      }
    }
  }

  lemma PlainPair(g: Graph, i: nat, j: nat)
    requires g.Valid() && AllAdjacent(g) && NoDropsBesideRails(g) && i < |g.ends| && j < |g.ends|
    ensures !Skips(g, i) && !Skips(g, j) && !RailAndDrop(g, i, j)
  {
  }

  lemma AdjacentNotMerged(l: Layout, i: nat, j: nat)
    requires Placed(l) && l.g.Valid() && AllAdjacent(l.g)
    ensures !Merged(l, i, j)
  {
    hide Placed, Inverted, Swap, Graze;
    if JoinSame(l, i, j) { NeighboursNotMerged(l, i, j); }
  }

  /** The pairs of a rail and a line that clips it. */
  ghost function ClippedPair(l: Layout): (nat, nat) -> bool { (i: nat, j: nat) => Clips(l, i, j) || Clips(l, j, i) }

  ghost function ClippedCount(l: Layout): nat { PairCount(ClippedPair(l), |l.g.ends|, |l.g.ends|) }

  /** Where every edge stays in its band or joins neighbouring bands, the census is
      the objective and the clipped rails, to the pair. */
  lemma AdjacentCensus(l: Layout)
    requires Placed(l) && l.g.Valid() && AllAdjacent(l.g)
    ensures |l.pos| == |l.g.bandOf| && |l.lines| == |l.g.ends|
    ensures SlotCrossings(l.g, l.pos) + ClippedCount(l) == DrawnCount(l)
  {
    hide Placed, DrawnPair, Crosses, Clips, Merged, Skips;
    Shape(l);
    var r, s, n := UncountedPair(l), ClippedPair(l), |l.g.ends|;
    forall i, j | 0 <= i < j < n ensures r(i, j) <==> s(i, j) {
      NoneSkips(l.g, i, j);
      NearCensus(l, i, j);
      if Clips(l, i, j) { ClipsUncounted(l, i, j); }
      if Clips(l, j, i) { ClipsUncounted(l, j, i); }
      assert Drawn(l)(i, j) == DrawnPair(l, i, j) && CrossingPair(l.g, l.pos)(i, j) == Crosses(l.g, l.pos, l.g.ends[i], l.g.ends[j]);
    }
    PairCountMonotone(r, s, n, n);
    PairCountMonotone(s, r, n, n);
    ObjectiveAgainstCensus(l);
  }

  lemma NoneSkips(g: Graph, i: nat, j: nat)
    requires g.Valid() && AllAdjacent(g) && i < |g.ends| && j < |g.ends|
    ensures !Skips(g, i) && !Skips(g, j)
  {
  }

  /** A clipped rail is not counted. */
  lemma ClipsUncounted(l: Layout, i: nat, j: nat)
    requires Placed(l) && l.g.Valid() && i < |l.g.ends| && j < |l.g.ends| && |l.pos| == |l.g.bandOf| && Clips(l, i, j)
    ensures !Crosses(l.g, l.pos, l.g.ends[i], l.g.ends[j]) && !Crosses(l.g, l.pos, l.g.ends[j], l.g.ends[i])
  {
    hide Placed, Crosses, Bend, Beyond, DropBeside;
    DropCountedIff(l, i, j);
  }

  method CountDrawn(l: Layout) returns (total: nat)
    requires Placed(l)
    ensures total == DrawnCount(l)
  {
    hide Placed, PolylinesMeet, SharesEndpoint;
    Shape(l);
    total := 0;
    ghost var q := Drawn(l);
    for i := 0 to |l.g.ends|
      invariant total == PairCount(q, |l.g.ends|, i)
    {
      for j := i + 1 to |l.g.ends|
        invariant total == PairCount(q, |l.g.ends|, i) + RowCount(q, i, j)
      {
        if !SharesEndpoint(l.g, i, j) {
          var meet := PolylinesCross(Polyline(l.lines[i]), Polyline(l.lines[j]));
          if meet {
            total := total + 1;
          }
        }
      }
    }
  }
}
