/** Two edges joining the same two bands, in the same order at both or inverted:
    exactly when the census counts their lines as crossing. */
module BandPairs {
  import opened Bands
  import opened Sorting
  import opened Geometry
  import opened Meeting
  import opened Descents
  import opened Rails
  import opened ArcDepths
  import opened ArcAnchors
  import opened Layouts
  import opened Clearance
  import opened DrawnCrossings

  /** Edge i runs between two different bands of l. */
  ghost predicate Joins(l: Layout, i: nat) {
    && i < |l.g.ends| && |l.lines| == |l.g.ends| && |l.boxes| == |l.pos| == |l.g.bandOf|
    && l.g.ends[i].from < |l.g.bandOf| && l.g.ends[i].to < |l.g.bandOf| && !l.g.SameBand(i)
  }

  ghost predicate Downwards(l: Layout, i: nat)
    requires Joins(l, i)
  {
    l.BandOfEnd(i, 0) < l.BandOfEnd(i, 1)
  }

  /** Edges i and j join the same two bands and share no node. */
  ghost predicate JoinSame(l: Layout, i: nat, j: nat) {
    && Joins(l, i) && Joins(l, j) && !SharesEndpoint(l.g, i, j)
    && l.g.bandOf[Upper(l.g, i)] == l.g.bandOf[Upper(l.g, j)] && l.g.bandOf[Lower(l.g, i)] == l.g.bandOf[Lower(l.g, j)]
  }

  ghost function Drawing(l: Layout, i: nat): seq<Point>
    requires Joins(l, i)
  {
    Polyline(l.lines[i])
  }

  /** The height of the m-th bend, from the top, of an edge between bands a and c. */
  function Height(l: Layout, a: nat, c: nat, m: nat): real
    requires a < c < |l.tops| && m < 2 * (c - a)
  {
    if m % 2 == 0 then l.Bottom(a + m / 2) + (if m == 0 then 0.0 else CHANNEL_PAD)
    else l.tops[a + m / 2 + 1] - (if m == 2 * (c - a) - 1 then 0.0 else CHANNEL_PAD)
  }

  lemma {:induction false} HeightsFall(l: Layout, a: nat, c: nat, m: nat, n: nat)
    requires Placed(l) && |l.tops| == |l.bands| && a < c < |l.tops| && m < n < 2 * (c - a)
    ensures Height(l, a, c, m) < Height(l, a, c, n)
  {
    hide Placed;
    Shape(l);
    if m < n - 1 { HeightsFall(l, a, c, m, n - 1); }
    if n % 2 == 1 { AdjacentTops(l, a + n / 2); }
  }

  /** An edge between two bands bends at their heights, downwards or upwards. */
  lemma BendHeight(l: Layout, i: nat, m: nat)
    requires Placed(l) && Joins(l, i) && m < |Drawing(l, i)|
    ensures var a, c, w := l.g.bandOf[Upper(l.g, i)], l.g.bandOf[Lower(l.g, i)], Drawing(l, i);
            && a < c < |l.tops| == |l.bands| && |w| == 2 * (c - a)
            && w[if Downwards(l, i) then m else |w| - 1 - m].y == Height(l, a, c, m)
  {
    hide Placed;
    Shape(l);
    EndHeights(l, i);
    var from, to, way := l.BandOfEnd(i, 0), l.BandOfEnd(i, 1), l.lines[i].waypoints;
    var d := Distance(from, to);
    var w := Drawing(l, i);
    var at := if from < to then m else 2 * d - 1 - m;
    hide SharesEndpoint, Passed;
    if 0 < at < 2 * d - 1 {
      BendAt(l, i, at - 1);
      assert w[at] == way[at - 1];
      PassedBand(from, to, m, at);
    }
  }

  lemma EndHeights(l: Layout, i: nat)
    requires Placed(l) && Joins(l, i)
    ensures var from, to := l.BandOfEnd(i, 0), l.BandOfEnd(i, 1);
            && from < |l.tops| && to < |l.tops| && |l.lines[i].waypoints| == 2 * (Distance(from, to) - 1)
            && l.lines[i].start.y == (if from < to then l.Bottom(from) else l.tops[from])
            && l.lines[i].end.y == (if from < to then l.tops[to] else l.Bottom(to))
  {
    hide Placed, Ordered, ChannelAt, Polyline, Rail;
    Shape(l);
    EdgeShape(l, i);
    BoxShape(l, l.g.ends[i].from);
    BoxShape(l, l.g.ends[i].to);
  }

  /** Waypoint k stands over or under the row of the band it passes. */
  ghost predicate BendsAt(l: Layout, i: nat, k: nat)
    requires Joins(l, i)
  {
    var from, to, way := l.BandOfEnd(i, 0), l.BandOfEnd(i, 1), l.lines[i].waypoints;
    var b := Passed(from, to, k / 2 + 1);
    && 0 <= b < |l.tops| && k < |way| == 2 * (Distance(from, to) - 1)
    && way[k].y == (if (k % 2 == 0) == (from < to) then l.tops[b] - CHANNEL_PAD else l.Bottom(b) + CHANNEL_PAD)
  }

  lemma BendAt(l: Layout, i: nat, k: nat)
    requires Placed(l) && Joins(l, i) && k < |l.lines[i].waypoints|
    ensures BendsAt(l, i, k)
  {
    hide Placed, Ordered, RowSpaced, NearestChannel, Aim, Abs, Channels, Polyline, Rail;
    Shape(l);
    EdgeShape(l, i);
    var h := k / 2;
    assert k == 2 * h || k == 2 * h + 1;
    assert ChannelAt(l, i, l.lines[i], h);
  }

  /** The first and last points of an edge are under and over its nodes' centres. */
  lemma EndsShape(l: Layout, i: nat)
    requires Placed(l) && Joins(l, i)
    ensures var w := Drawing(l, i);
            && |w| >= 2 && w[0].x == l.boxes[l.g.ends[i].from].CenterX() && w[|w| - 1].x == l.boxes[l.g.ends[i].to].CenterX()
  {
    hide Placed, Ordered, Routed;
    Shape(l);
    EdgeShape(l, i);
  }

  // ---- the pair

  /** The two edges are in one order at the upper band and the other at the lower. */
  ghost predicate Inverted(l: Layout, i: nat, j: nat)
    requires JoinSame(l, i, j)
  {
    (l.pos[Upper(l.g, i)] < l.pos[Upper(l.g, j)]) != (l.pos[Lower(l.g, i)] < l.pos[Lower(l.g, j)])
  }

  ghost predicate SameWayRound(l: Layout, i: nat, j: nat)
    requires JoinSame(l, i, j)
  {
    Downwards(l, i) == Downwards(l, j)
  }

  /** The two change order without a crossing the census counts: drawn the same
      way, they swap strictly nowhere and no bend they share turns left. */
  ghost predicate Merged(l: Layout, i: nat, j: nat) {
    && JoinSame(l, i, j) && Inverted(l, i, j) && SameWayRound(l, i, j)
    && (forall m :: !Swap(Drawing(l, i), Drawing(l, j), m))
    && (forall m :: !Graze(Drawing(l, i), Drawing(l, j), m))
  }

  /** The bend that is m-th from the top, counted in draw order. */
  lemma PassedBand(from: nat, to: nat, m: nat, at: nat)
    requires from != to && at == (if from < to then m else 2 * Distance(from, to) - 1 - m) && 0 < at < 2 * Distance(from, to) - 1
    ensures var a := if from < to then from else to;
            Passed(from, to, (at - 1) / 2 + 1) == (if m % 2 == 0 then a + m / 2 else a + m / 2 + 1)
    ensures ((at - 1) % 2 == 0) == (from < to) <==> m % 2 == 1
  {
  }

  /** The bends of an edge, in draw order. */
  lemma Bends(l: Layout, i: nat)
    requires Placed(l) && Joins(l, i)
    ensures var a, c, w := l.g.bandOf[Upper(l.g, i)], l.g.bandOf[Lower(l.g, i)], Drawing(l, i);
            && a < c < |l.tops| == |l.bands| && |w| == 2 * (c - a)
            && forall m :: 0 <= m < |w| ==> w[m].y == Height(l, a, c, if Downwards(l, i) then m else |w| - 1 - m)
  {
    hide Placed, Height, Polyline, Downwards;
    EndsShape(l, i);
    BendHeight(l, i, 0);
    var w := Drawing(l, i);
    forall m | 0 <= m < |w|
      ensures w[m].y == Height(l, l.g.bandOf[Upper(l.g, i)], l.g.bandOf[Lower(l.g, i)], if Downwards(l, i) then m else |w| - 1 - m)
    {
      BendHeight(l, i, if Downwards(l, i) then m else |w| - 1 - m);
    }
  }

  /** Drawn the same way, the two bend at the same heights. */
  lemma SameWayHeights(l: Layout, i: nat, j: nat)
    requires Placed(l) && JoinSame(l, i, j) && SameWayRound(l, i, j)
    ensures var w, v := Drawing(l, i), Drawing(l, j); SameHeights(w, v) && (Falls(w) || Rises(w))
  {
    hide Placed, Height, Polyline, Drawing, Downwards;
    Bends(l, i);
    Bends(l, j);
    var a, c, w := l.g.bandOf[Upper(l.g, i)], l.g.bandOf[Lower(l.g, i)], Drawing(l, i);
    if Downwards(l, i) {
      forall m, n | 0 <= m < n < |w| ensures w[m].y < w[n].y { HeightsFall(l, a, c, m, n); }
    } else {
      forall m, n | 0 <= m < n < |w| ensures w[m].y > w[n].y { HeightsFall(l, a, c, |w| - 1 - n, |w| - 1 - m); }
    }
  }

  /** Drawn opposite ways, one meets the heights of the other in reverse. */
  lemma OppositeHeightsOf(l: Layout, i: nat, j: nat)
    requires Placed(l) && JoinSame(l, i, j) && Downwards(l, i) && !Downwards(l, j)
    ensures OppositeHeights(Drawing(l, i), Drawing(l, j)) && Falls(Drawing(l, i))
  {
    hide Placed, Height, Polyline, Drawing, Downwards;
    Bends(l, i);
    Bends(l, j);
    var a, c, w := l.g.bandOf[Upper(l.g, i)], l.g.bandOf[Lower(l.g, i)], Drawing(l, i);
    forall m, n | 0 <= m < n < |w| ensures w[m].y < w[n].y { HeightsFall(l, a, c, m, n); }
  }

  /** Where an inverted pair starts and ends, in draw order. */
  lemma InvertedEnds(l: Layout, i: nat, j: nat)
    requires Placed(l) && JoinSame(l, i, j) && Inverted(l, i, j)
    ensures var w, v := Drawing(l, i), Drawing(l, j); var n, k := |w| - 1, |v| - 1;
            && n >= 1 && k >= 1
            && (SameWayRound(l, i, j) ==> (w[0].x < v[0].x && w[n].x > v[k].x) || (w[0].x > v[0].x && w[n].x < v[k].x))
            && (!SameWayRound(l, i, j) ==> (w[0].x > v[k].x) != (w[n].x > v[0].x))
  {
    hide Placed, Polyline, Drawing;
    EndsShape(l, i);
    EndsShape(l, j);
    CentresOrdered(l, Upper(l.g, i), Upper(l.g, j));
    CentresOrdered(l, Lower(l.g, i), Lower(l.g, j));
  }

  /** An inverted pair is drawn crossing exactly when it is not merged -- always,
      when its edges are drawn opposite ways. */
  lemma InvertedDrawnIff(l: Layout, i: nat, j: nat)
    requires Placed(l) && JoinSame(l, i, j) && Inverted(l, i, j)
    ensures PolylinesMeet(Drawing(l, i), Drawing(l, j)) <==> !Merged(l, i, j)
  {
    hide Placed, Drawing, PolylinesMeet, Swap, Graze, Passes, Falls, Rises, SameHeights, OppositeHeights, Inverted, Joins, Downwards;
    var w, v := Drawing(l, i), Drawing(l, j);
    InvertedEnds(l, i, j);
    if SameWayRound(l, i, j) {
      SameWayHeights(l, i, j);
      SameWay(w, v);
    } else if Downwards(l, i) {
      AgainstDrawn(l, i, j);
    } else {
      JoinTurned(l, i, j);
      AgainstDrawn(l, j, i);
      MeetSymmetric(w, v);
    }
  }

  lemma JoinTurned(l: Layout, i: nat, j: nat)
    requires JoinSame(l, i, j) && Inverted(l, i, j)
    ensures JoinSame(l, j, i)
    ensures Placed(l) ==> Inverted(l, j, i)
  {
    hide Placed;
    if Placed(l) {
      CentresOrdered(l, Upper(l.g, i), Upper(l.g, j));
      CentresOrdered(l, Lower(l.g, i), Lower(l.g, j));
    }
  }

  lemma AgainstDrawn(l: Layout, i: nat, j: nat)
    requires Placed(l) && JoinSame(l, i, j) && Inverted(l, i, j) && Downwards(l, i) && !Downwards(l, j)
    ensures PolylinesMeet(Drawing(l, i), Drawing(l, j))
  {
    hide Placed, Drawing, PolylinesMeet, Passes, Falls, Inverted, Joins, Downwards;
    var w, v := Drawing(l, i), Drawing(l, j);
    InvertedEnds(l, i, j);
    OppositeHeightsOf(l, i, j);
    OppositeWays(w, v);
    var m := InvertedPasses(w, v, |w| - 1);
  }

  /** An inverted pair that shares no channel is drawn crossing. */
  lemma NoSharedChannel(l: Layout, i: nat, j: nat)
    requires Placed(l) && JoinSame(l, i, j) && Inverted(l, i, j)
    requires forall m :: 0 < m < |Drawing(l, i)| - 1 && m < |Drawing(l, j)| ==> Drawing(l, i)[m].x != Drawing(l, j)[m].x
    ensures PolylinesMeet(Drawing(l, i), Drawing(l, j))
  {
    hide Placed, Drawing, PolylinesMeet, Swap, Graze, Falls, Rises, Inverted, Joins, Downwards;
    var w, v := Drawing(l, i), Drawing(l, j);
    InvertedDrawnIff(l, i, j);
    if SameWayRound(l, i, j) {
      InvertedEnds(l, i, j);
      SameWayHeights(l, i, j);
      var m := InvertedSwaps(w, v, |w| - 1);
    }
  }

  // ---- edges that skip one band

  /** All four ends lie at x or to its right (or left). */
  ghost predicate EndsBeyond(l: Layout, i: nat, j: nat, x: real, right: bool)
    requires JoinSame(l, i, j)
  {
    forall n :: n in [l.g.ends[i].from, l.g.ends[i].to, l.g.ends[j].from, l.g.ends[j].to] ==>
      if right then l.boxes[n].CenterX() >= x else l.boxes[n].CenterX() <= x
  }

  /** Coming in from a to a vertical stretch: a left turn from one side. */
  lemma TurnIn(a: Point, s: Point, b: Point)
    requires s.x == b.x && s.y != b.y
    ensures Orient(a, s, b) > 0.0 <==> if s.y < b.y then a.x < s.x else a.x > s.x
  {
    assert (s.y - a.y) * (b.x - a.x) == (s.y - a.y) * (s.x - a.x);
    assert Orient(a, s, b) == (s.x - a.x) * (b.y - s.y);
    SignOfProduct(Orient(a, s, b), s.x - a.x, b.y - s.y);
  }

  /** Going on to b from a vertical stretch. */
  lemma TurnOut(a: Point, s: Point, b: Point)
    requires a.x == s.x && a.y != s.y
    ensures Orient(a, s, b) > 0.0 <==> if a.y < s.y then b.x < a.x else b.x > a.x
  {
    assert (s.x - a.x) * (b.y - a.y) == 0.0;
    assert (s.y - a.y) * (b.x - a.x) == -((s.y - a.y) * (a.x - b.x));
    SignOfProduct(Orient(a, s, b), s.y - a.y, a.x - b.x);
  }

  /** Four bends, through one channel each: both turns at a shared channel are
      left turns exactly on one side of it. */
  lemma GrazeOfFour(w: seq<Point>, v: seq<Point>)
    requires |w| == 4 && SameHeights(w, v) && (Falls(w) || Rises(w))
    requires w[1].x == w[2].x == v[1].x == v[2].x
    ensures (exists m :: Graze(w, v, m)) <==>
            if w[1].y < w[2].y then !(w[0].x >= w[1].x && w[3].x >= w[1].x && v[0].x >= w[1].x && v[3].x >= w[1].x)
            else !(w[0].x <= w[1].x && w[3].x <= w[1].x && v[0].x <= w[1].x && v[3].x <= w[1].x)
  {
    hide Orient;
    assert w[1].y != w[2].y && w[1] == v[1] && w[2] == v[2];
    hide Falls, Rises, SameHeights;
    TurnIn(w[0], w[1], v[2]); TurnIn(v[0], v[1], w[2]);
    TurnOut(w[1], w[2], v[3]); TurnOut(v[1], v[2], w[3]);
    assert forall m :: Graze(w, v, m) ==> m == 1 || m == 2;
    assert Graze(w, v, 1) <==> Orient(w[0], w[1], v[2]) > 0.0 || Orient(v[0], v[1], w[2]) > 0.0;
    assert Graze(w, v, 2) <==> Orient(w[1], w[2], v[3]) > 0.0 || Orient(v[1], v[2], w[3]) > 0.0;
  }

  lemma SwapOfFour(w: seq<Point>, v: seq<Point>)
    requires |w| == |v| == 4 && w[1].x == w[2].x && v[1].x == v[2].x
    requires (w[0].x < v[0].x && w[3].x > v[3].x) || (w[0].x > v[0].x && w[3].x < v[3].x)
    ensures (exists m :: Swap(w, v, m)) <==> w[1].x != v[1].x
  {
    if w[1].x != v[1].x { assert Swap(w, v, 0) || Swap(w, v, 2); }
    assert forall m :: Swap(w, v, m) ==> m == 0 || m == 1 || m == 2;
  }

  /** The channel of an edge that skips one band. */
  ghost function ChannelOf(l: Layout, i: nat): real
    requires Joins(l, i) && |Drawing(l, i)| == 4
  {
    Drawing(l, i)[1].x
  }

  lemma SkipShape(l: Layout, i: nat)
    requires Placed(l) && Joins(l, i) && Distance(l.BandOfEnd(i, 0), l.BandOfEnd(i, 1)) == 2
    ensures var w := Drawing(l, i); |w| == 4 && w[1].x == w[2].x && (Downwards(l, i) <==> w[1].y < w[2].y)
  {
    hide Placed, Ordered, RowSpaced, NearestChannel, Aim, Height, Polyline;
    Shape(l);
    Bends(l, i);
    HeightsFall(l, l.g.bandOf[Upper(l.g, i)], l.g.bandOf[Lower(l.g, i)], 1, 2);
    ChannelVertices(l, i, 0);
  }

  /** Of two inverted edges that skip one band, exactly those are merged that are
      drawn the same way through the same channel, with no end to the left of it
      (going down) or to the right of it (going up). */
  lemma SkippingMergedIff(l: Layout, i: nat, j: nat)
    requires Placed(l) && JoinSame(l, i, j) && Inverted(l, i, j) && Distance(l.BandOfEnd(i, 0), l.BandOfEnd(i, 1)) == 2
    ensures |Drawing(l, i)| == |Drawing(l, j)| == 4
    ensures Merged(l, i, j) <==>
            && SameWayRound(l, i, j) && ChannelOf(l, i) == ChannelOf(l, j)
            && EndsBeyond(l, i, j, ChannelOf(l, i), Downwards(l, i))
  {
    hide Placed, Drawing, Swap, Graze, Falls, Rises, SameHeights, Inverted;
    var w, v := Drawing(l, i), Drawing(l, j);
    SkipShape(l, i);
    SkipShape(l, j);
    EndsShape(l, i);
    EndsShape(l, j);
    InvertedEnds(l, i, j);
    if SameWayRound(l, i, j) {
      SameWayHeights(l, i, j);
      SwapOfFour(w, v);
      if w[1].x == v[1].x { GrazeOfFour(w, v); }
    }
  }

  // ---- pairs in the same order at both bands

  /** i is to the left of j at the upper band and at the lower. */
  ghost predicate LeftOf(l: Layout, i: nat, j: nat)
    requires JoinSame(l, i, j)
  {
    l.pos[Upper(l.g, i)] < l.pos[Upper(l.g, j)] && l.pos[Lower(l.g, i)] < l.pos[Lower(l.g, j)]
  }

  /** Where the m-th bend from the top is. */
  ghost function BendX(l: Layout, i: nat, m: nat): real
    requires Joins(l, i) && m < |Drawing(l, i)|
  {
    Drawing(l, i)[if Downwards(l, i) then m else |Drawing(l, i)| - 1 - m].x
  }

  /** Where the straight line down from the upper box would pass row b. */
  ghost function Want(l: Layout, i: nat, b: nat): real
    requires Joins(l, i) && b < |l.tops|
  {
    Aim(TopPoint(l, i), FootPoint(l, i), l.tops[b] + NODE_HEIGHT / 2.0)
  }

  lemma TimesNegative(t: real, k: real)
    ensures t * -k == -(t * k)
  {
  }

  lemma Distributes(s: real, t: real, x: real)
    ensures (s + t) * x == s * x + t * x
  {
  }

  /** A height divides the way between two others into two parts of one. */
  lemma PartsOfOne(p: real, q: real, y: real) returns (s: real, t: real)
    requires p != q
    ensures s == (y - p) / (q - p) && t == (y - q) / (p - q) && s + t == 1.0
    ensures s * (q - p) == y - p
  {
    var k := q - p;
    s, t := (y - p) / k, (y - q) / (p - q);
    assert s * k == y - p && t * (p - q) == y - q;
    TimesNegative(t, k);
    assert p - q == -k;
    Distributes(s, t, k);
    SignOfProduct((s + t) * k - k, s + t - 1.0, k);
  }

  lemma AimTurned(p: Point, q: Point, y: real)
    requires p.y != q.y
    ensures Aim(p, q, y) == Aim(q, p, y)
  {
    var s, t := PartsOfOne(p.y, q.y, y);
    var x := q.x - p.x;
    Distributes(s, t, x);
    TimesNegative(t, x);
    assert p.x - q.x == -x;
  }

  /** Between two heights, lines keep the order of their ends. */
  lemma AimOrdered(p: Point, q: Point, u: Point, v: Point, y: real)
    requires p.y == u.y < y < q.y == v.y && p.x < u.x && q.x < v.x
    ensures Aim(p, q, y) < Aim(u, v, y)
  {
    hide Aim;
    var s, t := PartsOfOne(p.y, q.y, y);
    AimIs(p, q, y, s);
    AimIs(u, v, y, s);
    InBetween(p.y, q.y, y, s);
    MixOrdered(p.x, q.x, u.x, v.x, s, Aim(p, q, y), Aim(u, v, y));
  }

  lemma AimIs(p: Point, q: Point, y: real, s: real)
    requires p.y != q.y && s == (y - p.y) / (q.y - p.y)
    ensures Aim(p, q, y) == p.x + s * (q.x - p.x)
  {
    var r, x := (y - p.y) / (q.y - p.y), q.x - p.x;
    assert Aim(p, q, y) == p.x + r * x;
    assert r * x == s * x;
  }

  lemma InBetween(p: real, q: real, y: real, s: real)
    requires p < y < q && s * (q - p) == y - p
    ensures 0.0 < s < 1.0
  {
    SignOfProduct(y - p, s, q - p);
    assert (1.0 - s) * (q - p) == q - y;
    SignOfProduct(q - y, 1.0 - s, q - p);
  }

  lemma MixOrdered(p: real, q: real, u: real, v: real, t: real, y: real, z: real)
    requires 0.0 < t < 1.0 && p < u && q < v && y == p + t * (q - p) && z == u + t * (v - u)
    ensures y < z
  {
    var e, f := t * (v - q), (1.0 - t) * (u - p);
    SignOfProduct(e, t, v - q);
    SignOfProduct(f, 1.0 - t, u - p);
    assert z - y == f + e;
  }

  /** The nearest channel moves the way what is wanted moves. */
  lemma NearestOrdered(row: seq<nat>, boxes: seq<Box>, want: real, more: real, x: real, y: real)
    requires row != [] && forall k :: 0 <= k < |row| ==> row[k] < |boxes|
    requires NearestChannel(row, boxes, want, x) && NearestChannel(row, boxes, more, y) && want < more
    ensures x <= y
  {
    hide Channels;
    var c := Channels(row, boxes);
    var f :| 0 <= f < |c| && FirstNearest(c, want, f) && x == c[f];
    var g :| 0 <= g < |c| && FirstNearest(c, more, g) && y == c[g];
  }

  /** A waypoint stands in the channel nearest to where its edge would pass. */
  lemma WayChannel(l: Layout, i: nat, k: nat)
    requires Placed(l) && Joins(l, i) && k < |l.lines[i].waypoints|
    ensures var b := Passed(l.BandOfEnd(i, 0), l.BandOfEnd(i, 1), k / 2 + 1);
            && 0 <= b < |l.bands| == |l.tops| && RowKnown(l, b)
            && NearestChannel(l.bands[b], l.boxes, Aim(l.lines[i].start, l.lines[i].end, l.tops[b] + NODE_HEIGHT / 2.0), l.lines[i].waypoints[k].x)
  {
    hide Placed, Ordered, RowSpaced, NearestChannel, Aim, Polyline, Rail;
    Shape(l);
    EdgeShape(l, i);
    var h := k / 2;
    assert k == 2 * h || k == 2 * h + 1;
    assert ChannelAt(l, i, l.lines[i], h);
    RowNodes(l, Passed(l.BandOfEnd(i, 0), l.BandOfEnd(i, 1), h + 1));
  }

  ghost predicate RowKnown(l: Layout, b: nat)
    requires b < |l.bands|
  {
    l.bands[b] != [] && forall k :: 0 <= k < |l.bands[b]| ==> l.bands[b][k] < |l.boxes|
  }

  lemma RowNodes(l: Layout, b: nat)
    requires Placed(l) && b < |l.bands|
    ensures RowKnown(l, b)
  {
    hide Placed, RowSpaced;
    Shape(l);
    RowShape(l, b);
  }

  /** An edge aims along the straight line between its boxes, either way round. */
  lemma AimIsWant(l: Layout, i: nat, b: nat)
    requires Placed(l) && Joins(l, i) && b < |l.tops|
    ensures Aim(l.lines[i].start, l.lines[i].end, l.tops[b] + NODE_HEIGHT / 2.0) == Want(l, i, b)
  {
    hide Placed, Ordered, Routed, Aim;
    Shape(l);
    EdgeShape(l, i);
    BoxShape(l, l.g.ends[i].from);
    BoxShape(l, l.g.ends[i].to);
    var a, c := l.g.bandOf[Upper(l.g, i)], l.g.bandOf[Lower(l.g, i)];
    BandsTopDown(l, a, c);
    AimTurned(TopPoint(l, i), FootPoint(l, i), l.tops[b] + NODE_HEIGHT / 2.0);
  }

  lemma BendChannel(l: Layout, i: nat, m: nat)
    requires Placed(l) && Joins(l, i) && 0 < m < |Drawing(l, i)| - 1
    ensures var b := l.g.bandOf[Upper(l.g, i)] + (m + 1) / 2;
            && b < |l.bands| == |l.tops| && RowKnown(l, b)
            && NearestChannel(l.bands[b], l.boxes, Want(l, i, b), BendX(l, i, m))
  {
    hide Placed, NearestChannel, Aim, Want, RowKnown;
    var from, to, way := l.BandOfEnd(i, 0), l.BandOfEnd(i, 1), l.lines[i].waypoints;
    EndHeights(l, i);
    var at := if from < to then m else 2 * Distance(from, to) - 1 - m;
    PassedBand(from, to, m, at);
    WayChannel(l, i, at - 1);
    assert Drawing(l, i)[at] == way[at - 1];
    AimIsWant(l, i, l.g.bandOf[Upper(l.g, i)] + (m + 1) / 2);
  }

  /** At every bend the left edge of a pair is at or to the left of the right one. */
  lemma BendsOrdered(l: Layout, i: nat, j: nat, m: nat)
    requires Placed(l) && JoinSame(l, i, j) && LeftOf(l, i, j) && m < |Drawing(l, i)|
    ensures |Drawing(l, i)| == |Drawing(l, j)| && BendX(l, i, m) <= BendX(l, j, m)
    ensures m == 0 || m == |Drawing(l, i)| - 1 ==> BendX(l, i, m) < BendX(l, j, m)
  {
    hide Placed, Height, Polyline, Drawing, LeftOf, Joins, Downwards, BendX;
    BendCount(l, i);
    BendCount(l, j);
    if 0 < m < |Drawing(l, i)| - 1 { InnerOrdered(l, i, j, m); } else { OuterOrdered(l, i, j, m); }
  }

  lemma BendCount(l: Layout, i: nat)
    requires Placed(l) && Joins(l, i)
    ensures var a, c := l.g.bandOf[Upper(l.g, i)], l.g.bandOf[Lower(l.g, i)];
            a < c < |l.bands| == |l.tops| && |Drawing(l, i)| == 2 * (c - a)
  {
    hide Placed, Height, Polyline;
    Bends(l, i);
  }

  lemma OuterOrdered(l: Layout, i: nat, j: nat, m: nat)
    requires Placed(l) && JoinSame(l, i, j) && LeftOf(l, i, j) && |Drawing(l, i)| == |Drawing(l, j)| >= 2
    requires m == 0 || m == |Drawing(l, i)| - 1
    ensures BendX(l, i, m) < BendX(l, j, m)
  {
    hide Placed, Polyline, Drawing;
    EndsShape(l, i);
    EndsShape(l, j);
    CentresOrdered(l, Upper(l.g, i), Upper(l.g, j));
    CentresOrdered(l, Lower(l.g, i), Lower(l.g, j));
  }

  lemma InnerOrdered(l: Layout, i: nat, j: nat, m: nat)
    requires Placed(l) && JoinSame(l, i, j) && LeftOf(l, i, j) && |Drawing(l, i)| == |Drawing(l, j)| && 0 < m < |Drawing(l, i)| - 1
    ensures BendX(l, i, m) <= BendX(l, j, m)
  {
    hide Placed, NearestChannel, Polyline, Drawing, LeftOf, Want, BendX, Downwards;
    BendCount(l, i);
    var b := l.g.bandOf[Upper(l.g, i)] + (m + 1) / 2;
    BendChannel(l, i, m);
    BendChannel(l, j, m);
    WantOrdered(l, i, j, b);
    RowNodes(l, b);
    NearestOrdered(l.bands[b], l.boxes, Want(l, i, b), Want(l, j, b), BendX(l, i, m), BendX(l, j, m));
  }

  lemma WantOrdered(l: Layout, i: nat, j: nat, b: nat)
    requires Placed(l) && JoinSame(l, i, j) && LeftOf(l, i, j)
    requires l.g.bandOf[Upper(l.g, i)] < b < l.g.bandOf[Lower(l.g, i)]
    ensures b < |l.tops| && Want(l, i, b) < Want(l, j, b)
  {
    hide Placed, Aim;
    Shape(l);
    var a, c := l.g.bandOf[Upper(l.g, i)], l.g.bandOf[Lower(l.g, i)];
    BandsTopDown(l, a, b);
    BandsTopDown(l, b, c);
    BoxShape(l, Upper(l.g, i)); BoxShape(l, Lower(l.g, i));
    BoxShape(l, Upper(l.g, j)); BoxShape(l, Lower(l.g, j));
    CentresOrdered(l, Upper(l.g, i), Upper(l.g, j));
    CentresOrdered(l, Lower(l.g, i), Lower(l.g, j));
    AimOrdered(TopPoint(l, i), FootPoint(l, i), TopPoint(l, j), FootPoint(l, j), l.tops[b] + NODE_HEIGHT / 2.0);
  }

  /** A pair in the same order at both bands shares some bend. */
  ghost predicate ShareBend(l: Layout, i: nat, j: nat)
    requires JoinSame(l, i, j) && |Drawing(l, i)| == |Drawing(l, j)|
  {
    exists m: nat :: m < |Drawing(l, i)| && BendX(l, i, m) == BendX(l, j, m)
  }

  /** Two edges that keep their order can only touch, and are counted exactly when
      a bend they share turns left (drawn the same way) or when they share one
      and the right one goes down (drawn opposite ways). */
  lemma SameOrderDrawnIff(l: Layout, i: nat, j: nat)
    requires Placed(l) && JoinSame(l, i, j) && LeftOf(l, i, j)
    ensures |Drawing(l, i)| == |Drawing(l, j)|
    ensures PolylinesMeet(Drawing(l, i), Drawing(l, j)) <==>
            if SameWayRound(l, i, j) then exists m :: Graze(Drawing(l, i), Drawing(l, j), m)
            else Downwards(l, j) && ShareBend(l, i, j)
  {
    hide Placed, Drawing, PolylinesMeet, Graze, Falls, Rises, SameHeights, OppositeHeights, Joins, LeftOf;
    var w, v := Drawing(l, i), Drawing(l, j);
    NonEmpty(l, i);
    BendsOrdered(l, i, j, 0);
    if SameWayRound(l, i, j) {
      SameWayHeights(l, i, j);
      SameWay(w, v);
      forall m ensures !Swap(w, v, m) { KeepsSides(l, i, j, m); }
    } else if Downwards(l, i) {
      OppositeHeightsOf(l, i, j);
      OppositeWays(w, v);
      forall m ensures !Passes(w, v, m) { LeftNeverPasses(l, i, j, m); }
    } else {
      RightPasses(l, i, j);
    }
  }

  lemma NonEmpty(l: Layout, i: nat)
    requires Placed(l) && Joins(l, i)
    ensures |Drawing(l, i)| >= 2
  {
    hide Placed;
    EndsShape(l, i);
  }

  lemma KeepsSides(l: Layout, i: nat, j: nat, m: int)
    requires Placed(l) && JoinSame(l, i, j) && LeftOf(l, i, j) && SameWayRound(l, i, j)
    ensures !Swap(Drawing(l, i), Drawing(l, j), m)
  {
    hide Placed, Drawing, Joins, LeftOf;
    var n := |Drawing(l, i)|;
    if 0 <= m && m + 1 < n {
      BendsOrdered(l, i, j, if Downwards(l, i) then m else n - 1 - m);
      BendsOrdered(l, i, j, if Downwards(l, i) then m + 1 else n - 2 - m);
    }
  }

  lemma LeftNeverPasses(l: Layout, i: nat, j: nat, m: int)
    requires Placed(l) && JoinSame(l, i, j) && LeftOf(l, i, j) && Downwards(l, i) && !Downwards(l, j)
    ensures !Passes(Drawing(l, i), Drawing(l, j), m)
  {
    hide Placed, Drawing, Joins, LeftOf;
    var n := |Drawing(l, i)|;
    if 0 <= m && m + 1 < n {
      BendsOrdered(l, i, j, m);
      BendsOrdered(l, i, j, m + 1);
    }
  }

  lemma RightPasses(l: Layout, i: nat, j: nat)
    requires Placed(l) && JoinSame(l, i, j) && LeftOf(l, i, j) && !Downwards(l, i) && Downwards(l, j)
    ensures |Drawing(l, i)| == |Drawing(l, j)|
    ensures PolylinesMeet(Drawing(l, i), Drawing(l, j)) <==> ShareBend(l, i, j)
  {
    hide Placed, Drawing, PolylinesMeet, Joins, LeftOf, Falls, OppositeHeights;
    var w, v := Drawing(l, j), Drawing(l, i);
    NonEmpty(l, i);
    var n := |w|;
    BendsOrdered(l, i, j, 0);
    JoinSwapped(l, i, j);
    OppositeHeightsOf(l, j, i);
    OppositeWays(w, v);
    if m :| Passes(w, v, m) {
      BendsOrdered(l, i, j, m);
      BendsOrdered(l, i, j, m + 1);
      assert BendX(l, i, m) == BendX(l, j, m) || BendX(l, i, m + 1) == BendX(l, j, m + 1);
    }
    if m: nat :| m < n && BendX(l, i, m) == BendX(l, j, m) {
      BendsOrdered(l, i, j, m);
      var k := InvertedPasses(w, v, m);
    }
  }

  lemma JoinSwapped(l: Layout, i: nat, j: nat)
    requires JoinSame(l, i, j)
    ensures JoinSame(l, j, i)
  {
  }

  /** Where the census counts a pair that keeps its order, the two stretches share
      no point but a common end. */
  lemma KeptOrderOnlyTouches(l: Layout, i: nat, j: nat, m: int, n: int)
    requires Placed(l) && JoinSame(l, i, j) && LeftOf(l, i, j) && Hit(Drawing(l, i), Drawing(l, j), m, n)
    ensures var w, v := Drawing(l, i), Drawing(l, j); !ShareInside(w[m - 1], w[m], v[n - 1], v[n])
  {
    hide Placed, Drawing, Joins, LeftOf, Falls, Rises, SameHeights, OppositeHeights, ShareInside, Orient, Downwards, SegmentsCross;
    var w, v := Drawing(l, i), Drawing(l, j);
    if SameWayRound(l, i, j) {
      SameWayHeights(l, i, j);
      StretchesSameWay(w, v, m, n);
      KeepsSides(l, i, j, m - 1);
      if n == m + 1 { HeadToTailTouches(w[m - 1], w[m], v[n]); } else { HeadToTailTouches(v[n - 1], v[n], w[m]); }
    } else if Downwards(l, i) {
      OppositeHeightsOf(l, i, j);
      StretchesAgainst(w, v, m, n);
      LeftNeverPasses(l, i, j, m - 1);
    } else {
      AgainstTouches(l, i, j, m, n);
    }
  }

  lemma AgainstTouches(l: Layout, i: nat, j: nat, m: int, n: int)
    requires Placed(l) && JoinSame(l, i, j) && LeftOf(l, i, j) && !Downwards(l, i) && Downwards(l, j)
    requires Hit(Drawing(l, i), Drawing(l, j), m, n)
    ensures var w, v := Drawing(l, i), Drawing(l, j); !ShareInside(w[m - 1], w[m], v[n - 1], v[n])
  {
    hide Placed, Drawing, Joins, LeftOf, Falls, ShareInside, Orient, SegmentsCross;
    var w, v := Drawing(l, i), Drawing(l, j);
    JoinSwapped(l, i, j);
    OppositeHeightsOf(l, j, i);
    NonEmpty(l, i);
    BendsOrdered(l, i, j, 0);
    Swapped(w[m - 1], w[m], v[n - 1], v[n]);
    StretchesAgainst(v, w, n, m);
    BendsOrdered(l, i, j, n - 1);
    BendsOrdered(l, i, j, n);
    JoinedAgainst(w[m - 1], w[m], v[n - 1], v[n]);
  }

  /** Two counted stretches between the same heights, drawn opposite ways and not
      swapping sides, join end to start. */
  lemma JoinedAgainst(p1: Point, p2: Point, q1: Point, q2: Point)
    requires p1.y == q2.y && p2.y == q1.y && p1.x <= q2.x && p2.x <= q1.x && (p1.x < q2.x) != (p2.x < q1.x)
    requires SegmentsCross(p1, p2, q1, q2)
    ensures !ShareInside(p1, p2, q1, q2)
  {
    hide ShareInside, SegmentsCross, Orient;
    if p2 == q1 {
      HeadToTail(p1, p2, q2);
      HeadToTailTouches(p1, p2, q2);
    } else {
      HeadToTail(q1, q2, p2);
      HeadToTailTouches(q1, q2, p2);
    }
  }

  lemma SkippingSameOrder(l: Layout, i: nat, j: nat)
    requires Placed(l) && JoinSame(l, i, j) && LeftOf(l, i, j) && Distance(l.BandOfEnd(i, 0), l.BandOfEnd(i, 1)) == 2
    ensures |Drawing(l, i)| == |Drawing(l, j)| == 4
    ensures PolylinesMeet(Drawing(l, i), Drawing(l, j)) <==>
            && ChannelOf(l, i) == ChannelOf(l, j)
            && (if SameWayRound(l, i, j) then !EndsBeyond(l, i, j, ChannelOf(l, i), Downwards(l, i)) else Downwards(l, j))
  {
    hide Placed, Drawing, PolylinesMeet, Graze, Falls, Rises, SameHeights, LeftOf, Downwards, SharesEndpoint;
    var w, v := Drawing(l, i), Drawing(l, j);
    Apart(l, i);
    Apart(l, j);
    SkipShape(l, i);
    SkipShape(l, j);
    SameOrderDrawnIff(l, i, j);
    if SameWayRound(l, i, j) {
      SkippingGraze(l, i, j);
    } else {
      SkippingBend(l, i, j);
    }
  }

  lemma SkippingGraze(l: Layout, i: nat, j: nat)
    requires Placed(l) && JoinSame(l, i, j) && SameWayRound(l, i, j)
    requires |Drawing(l, i)| == |Drawing(l, j)| == 4 && Drawing(l, i)[1].x == Drawing(l, i)[2].x && Drawing(l, j)[1].x == Drawing(l, j)[2].x
    requires Downwards(l, i) <==> Drawing(l, i)[1].y < Drawing(l, i)[2].y
    ensures (exists m :: Graze(Drawing(l, i), Drawing(l, j), m)) <==>
            ChannelOf(l, i) == ChannelOf(l, j) && !EndsBeyond(l, i, j, ChannelOf(l, i), Downwards(l, i))
  {
    hide Placed, Drawing, Falls, Rises, SameHeights, Orient, SharesEndpoint, Downwards;
    var w, v := Drawing(l, i), Drawing(l, j);
    EndsShape(l, i);
    EndsShape(l, j);
    SameWayHeights(l, i, j);
    if w[1].x == v[1].x {
      GrazeOfFour(w, v);
    } else {
      assert forall m :: Graze(w, v, m) ==> m == 1 || m == 2;
    }
  }

  lemma SkippingBend(l: Layout, i: nat, j: nat)
    requires Placed(l) && JoinSame(l, i, j) && LeftOf(l, i, j)
    requires |Drawing(l, i)| == |Drawing(l, j)| == 4 && Drawing(l, i)[1].x == Drawing(l, i)[2].x && Drawing(l, j)[1].x == Drawing(l, j)[2].x
    ensures ShareBend(l, i, j) <==> ChannelOf(l, i) == ChannelOf(l, j)
  {
    hide Placed, Drawing, LeftOf, SharesEndpoint, Downwards;
    BendsOrdered(l, i, j, 0);
    BendsOrdered(l, i, j, 3);
    assert BendX(l, i, 1) == ChannelOf(l, i) && BendX(l, j, 1) == ChannelOf(l, j);
    assert BendX(l, i, 2) == ChannelOf(l, i) && BendX(l, j, 2) == ChannelOf(l, j);
  }

  /** Every pair that joins the same two bands and shares no node, in full. Past
      different channels, or none, the lines cross exactly when the pair is
      inverted. Down one channel the census sees the touches only: drawn the same
      way, whenever an end lies on the counted side of the channel; drawn opposite
      ways, when the pair is inverted or its right edge goes down. */
  lemma SameBandsDrawnIff(l: Layout, i: nat, j: nat)
    requires Placed(l) && JoinSame(l, i, j) && Distance(l.BandOfEnd(i, 0), l.BandOfEnd(i, 1)) <= 2
    ensures Distance(l.BandOfEnd(i, 0), l.BandOfEnd(i, 1)) == 1 ==>
      (PolylinesMeet(Drawing(l, i), Drawing(l, j)) <==> Inverted(l, i, j))
    ensures Distance(l.BandOfEnd(i, 0), l.BandOfEnd(i, 1)) == 2 ==>
      && |Drawing(l, i)| == |Drawing(l, j)| == 4
      && (PolylinesMeet(Drawing(l, i), Drawing(l, j)) <==>
          if ChannelOf(l, i) != ChannelOf(l, j) then Inverted(l, i, j)
          else if SameWayRound(l, i, j) then !EndsBeyond(l, i, j, ChannelOf(l, i), Downwards(l, i))
          else Inverted(l, i, j) || Downwards(l, if LeftOf(l, i, j) then j else i))
  {
    hide Placed, Drawing, PolylinesMeet, Merged, Downwards, SharesEndpoint;
    if Distance(l.BandOfEnd(i, 0), l.BandOfEnd(i, 1)) == 1 {
      NeighboursCrossIffInverted(l, i, j);
    } else {
      Apart(l, i);
      OneOrder(l, i, j);
      if Inverted(l, i, j) {
        InvertedDrawnIff(l, i, j);
        SkippingMergedIff(l, i, j);
      } else if LeftOf(l, i, j) {
        SkippingSameOrder(l, i, j);
      } else {
        JoinSwapped(l, i, j);
        RightOfSameOrder(l, i, j);
      }
    }
  }

  lemma OneOrder(l: Layout, i: nat, j: nat)
    requires Placed(l) && JoinSame(l, i, j)
    ensures JoinSame(l, j, i) && (Inverted(l, i, j) || LeftOf(l, i, j) || LeftOf(l, j, i))
    ensures Inverted(l, i, j) ==> !LeftOf(l, i, j)
  {
    hide Placed;
    CentresOrdered(l, Upper(l.g, i), Upper(l.g, j));
    CentresOrdered(l, Lower(l.g, i), Lower(l.g, j));
  }

  lemma RightOfSameOrder(l: Layout, i: nat, j: nat)
    requires Placed(l) && JoinSame(l, i, j) && JoinSame(l, j, i) && LeftOf(l, j, i) && Distance(l.BandOfEnd(i, 0), l.BandOfEnd(i, 1)) == 2
    ensures |Drawing(l, i)| == |Drawing(l, j)| == 4
    ensures PolylinesMeet(Drawing(l, i), Drawing(l, j)) <==>
            && ChannelOf(l, i) == ChannelOf(l, j)
            && (if SameWayRound(l, i, j) then !EndsBeyond(l, i, j, ChannelOf(l, i), Downwards(l, i)) else Downwards(l, i))
  {
    hide Placed, Drawing, PolylinesMeet, LeftOf, Downwards;
    Apart(l, i);
    Apart(l, j);
    SkippingSameOrder(l, j, i);
    MeetSymmetric(Drawing(l, i), Drawing(l, j));
  }

  lemma Apart(l: Layout, i: nat)
    requires Joins(l, i)
    ensures Distance(l.BandOfEnd(i, 0), l.BandOfEnd(i, 1)) == l.g.bandOf[Lower(l.g, i)] - l.g.bandOf[Upper(l.g, i)]
  {
  }

  /** Edges between the same neighbouring bands are drawn crossing exactly when
      they are inverted. */
  lemma NeighboursCrossIffInverted(l: Layout, i: nat, j: nat)
    requires Placed(l) && JoinSame(l, i, j) && Distance(l.BandOfEnd(i, 0), l.BandOfEnd(i, 1)) == 1
    ensures PolylinesMeet(Drawing(l, i), Drawing(l, j)) <==> Inverted(l, i, j)
  {
    hide Placed, PolylinesMeet, Polyline, IsLine;
    Shape(l);
    Apart(l, i);
    Apart(l, j);
    GutterLine(l, i);
    GutterLine(l, j);
    CentresOrdered(l, Upper(l.g, i), Upper(l.g, j));
    CentresOrdered(l, Lower(l.g, i), Lower(l.g, j));
    GutterLines(Drawing(l, i), Drawing(l, j), TopPoint(l, i), FootPoint(l, i), TopPoint(l, j), FootPoint(l, j));
  }

  /** Edges between neighbouring bands are never merged. */
  lemma NeighboursNotMerged(l: Layout, i: nat, j: nat)
    requires Placed(l) && JoinSame(l, i, j) && Distance(l.BandOfEnd(i, 0), l.BandOfEnd(i, 1)) == 1
    ensures !Merged(l, i, j)
  {
    hide Placed, Drawing, Falls, Rises, Inverted, Graze;
    if Inverted(l, i, j) && SameWayRound(l, i, j) {
      Bends(l, i);
      Bends(l, j);
      InvertedEnds(l, i, j);
      assert Swap(Drawing(l, i), Drawing(l, j), 0);
    }
  }
}
