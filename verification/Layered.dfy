/** Inputs without a subject that list their nodes layer by layer, every layer in
    use: which bands they start from, and when they keep them. */
module Layered {
  import opened Bands
  import opened Sorting
  import opened Geometry
  import opened ArcDepths
  import opened ArcAnchors
  import opened Layouts
  import opened Clearance
  import opened DrawnCrossings
  import opened BandPairs
  import opened Ordering
  import opened Diagram

  /** a services, then b virtual assets, then c physical ones. */
  ghost predicate LayerByLayer(in_: Input, a: nat, b: nat, c: nat) {
    && a > 0 && b > 0 && c > 0 && |in_.nodes| == a + b + c && in_.subject == ""
    && forall i :: 0 <= i < |in_.nodes| ==>
      in_.nodes[i].layer == if i < a then LAYER_SERVICE else if i < a + b then LAYER_VIRTUAL else LAYER_PHYSICAL
  }

  function Range(lo: nat, hi: nat): (r: seq<nat>)
    requires lo <= hi
    ensures |r| == hi - lo && forall k :: 0 <= k < |r| ==> r[k] == lo + k
  {
    seq(hi - lo, k requires 0 <= k < hi - lo => lo + k)
  }

  function ThreeBands(a: nat, b: nat, c: nat): seq<seq<nat>> { [Range(0, a), Range(a, a + b), Range(a + b, a + b + c)] }

  predicate Climbs(s: seq<nat>) { forall j, k :: 0 <= j < k < |s| ==> s[j] < s[k] }

  predicate Lists(s: seq<nat>, lo: nat, hi: nat) {
    (forall k :: 0 <= k < |s| ==> lo <= s[k] < hi) && forall n: nat :: lo <= n < hi ==> n in s
  }

  /** A climbing list of exactly the numbers of a range is the range. */
  lemma {:induction false} ClimbsIsRange(s: seq<nat>, lo: nat, hi: nat)
    requires lo <= hi && Climbs(s) && Lists(s, lo, hi)
    ensures s == Range(lo, hi)
  {
    if lo == hi {
      assert s == [];
    } else {
      assert hi - 1 in s;
      var init, last := s[..|s| - 1], s[|s| - 1];
      assert s == init + [last] && last == hi - 1;
      assert forall k :: 0 <= k < |init| ==> init[k] == s[k] < last;
      forall n: nat | lo <= n < hi - 1 ensures n in init { assert n in s && n != last; }
      ClimbsIsRange(init, lo, hi - 1);
    }
  }

  lemma UsedLayer(in_: Input, s: Start, layers: seq<int>, n: nat)
    requires Represents(in_, s) && Grouped(in_.nodes, s.bands, layers) && n < |in_.nodes|
    ensures |s.g.bandOf| == |in_.nodes| && |layers| == |s.bands| == s.g.bandCount
    ensures s.g.bandOf[n] < |s.bands| && n in s.bands[s.g.bandOf[n]] && layers[s.g.bandOf[n]] == in_.nodes[n].layer
  {
    hide Slots, NoDup, Resolves, Adjacency;
    var b := s.g.bandOf[n];
    var k :| 0 <= k < |s.bands[b]| && s.bands[b][k] == n;
  }

  lemma StartLayers(in_: Input, s: Start, a: nat, b: nat, c: nat, layers: seq<int>)
    requires LayerByLayer(in_, a, b, c) && Acceptable(in_) && Represents(in_, s) && Grouped(in_.nodes, s.bands, layers)
    ensures layers == [LAYER_SERVICE, LAYER_VIRTUAL, LAYER_PHYSICAL] && |s.bands| == s.g.bandCount == 3
  {
    hide Represents, Acceptable, Grouped;
    UsedLayer(in_, s, layers, 0);
    UsedLayer(in_, s, layers, a);
    UsedLayer(in_, s, layers, a + b);
    GroupedFalls(in_.nodes, s.bands, layers);
    AtMostThree(in_, s);
    var f := s.g.bandOf;
    assert layers[f[0]] == LAYER_SERVICE && layers[f[a]] == LAYER_VIRTUAL && layers[f[a + b]] == LAYER_PHYSICAL;
    hide LayerByLayer;
    ThreeFalling(layers, f[0], f[a], f[a + b]);
  }

  lemma ThreeFalling(layers: seq<int>, x: nat, y: nat, z: nat)
    requires |layers| <= 3 && x < |layers| && y < |layers| && z < |layers|
    requires forall c, d :: 0 <= c < d < |layers| ==> layers[c] > layers[d]
    requires layers[x] > layers[y] > layers[z]
    ensures layers == [layers[x], layers[y], layers[z]] && x == 0 && y == 1 && z == 2
  {
    assert x < y < z;
  }

  lemma GroupedFalls(nodes: seq<NodeIn>, bands: seq<seq<nat>>, layers: seq<int>)
    requires Grouped(nodes, bands, layers)
    ensures |layers| == |bands| && forall c, d :: 0 <= c < d < |layers| ==> layers[c] > layers[d]
  {
  }

  /** The bands such an input starts from. */
  lemma StartBands(in_: Input, s: Start, a: nat, b: nat, c: nat)
    requires LayerByLayer(in_, a, b, c) && Acceptable(in_) && Represents(in_, s)
    ensures s.bands == ThreeBands(a, b, c) && s.g.bandCount == 3 && s.g.subject < 0
    ensures |s.g.bandOf| == a + b + c && forall n :: 0 <= n < a + b + c ==> s.g.bandOf[n] == if n < a then 0 else if n < a + b then 1 else 2
  {
    hide Represents, Acceptable, Grouped;
    var layers := Grouping(in_, s);
    StartLayers(in_, s, a, b, c, layers);
    GroupedFalls(in_.nodes, s.bands, layers);
    UsedLayer(in_, s, layers, 0);
    forall n: nat | n < a ensures s.g.bandOf[n] == 0 && n in s.bands[0] { UsedLayer(in_, s, layers, n); }
    forall n: nat | a <= n < a + b ensures s.g.bandOf[n] == 1 && n in s.bands[1] { UsedLayer(in_, s, layers, n); }
    forall n: nat | a + b <= n < a + b + c ensures s.g.bandOf[n] == 2 && n in s.bands[2] { UsedLayer(in_, s, layers, n); }
    StartBand(in_, s, layers, 0, 0, a);
    StartBand(in_, s, layers, 1, a, a + b);
    StartBand(in_, s, layers, 2, a + b, a + b + c);
    NoSubject(in_, s);
  }

  lemma Grouping(in_: Input, s: Start) returns (layers: seq<int>)
    requires Represents(in_, s)
    ensures Grouped(in_.nodes, s.bands, layers)
  {
    hide Slots, NoDup, Resolves, Adjacency, IsOrdering, Grouped;
    layers :| Grouped(in_.nodes, s.bands, layers);
  }

  lemma NoSubject(in_: Input, s: Start)
    requires Represents(in_, s) && in_.subject == ""
    ensures s.g.subject < 0
  {
    hide Slots, NoDup, Resolves, Adjacency, IsOrdering, Grouped;
  }

  lemma StartBand(in_: Input, s: Start, layers: seq<int>, k: nat, lo: nat, hi: nat)
    requires Grouped(in_.nodes, s.bands, layers) && |layers| == |s.bands| && k < |s.bands| && lo <= hi <= |in_.nodes|
    requires forall n :: 0 <= n < |in_.nodes| ==> (in_.nodes[n].layer == layers[k] <==> lo <= n < hi)
    requires forall n: nat :: lo <= n < hi ==> n in s.bands[k]
    ensures s.bands[k] == Range(lo, hi)
  {
    ClimbsIsRange(s.bands[k], lo, hi);
  }

  /** An order that starts without crossings is the one that is drawn. */
  lemma KeepsStart(s: Start, l: Layout)
    requires s.g.Valid() && IsOrdering(s.g, s.bands) && s.g.subject < 0 && Score(s.g, s.bands) == 0
    requires exists k :: FirstBest(s.g, s.bands, k) && l.bands == Candidate(s.g, s.bands, k)
    ensures l.bands == s.bands && Score(s.g, Candidate(s.g, s.bands, 0)) == 0
  {
    hide Score, IsOrdering, Candidate;
    var k :| FirstBest(s.g, s.bands, k) && l.bands == Candidate(s.g, s.bands, k);
    NothingToImprove(s.g, s.bands, k);
  }

  // ---- three bands without rails

  ghost predicate Plain(l: Layout) {
    && |l.bands| == 3
    && forall i :: 0 <= i < |l.g.ends| ==> l.g.ends[i].from < |l.g.bandOf| && l.g.ends[i].to < |l.g.bandOf| && !l.g.SameBand(i)
  }

  lemma PlainTops(l: Layout)
    requires Placed(l) && Plain(l)
    ensures |l.tops| == 3 && l.tops[0] == 20.0 && l.tops[1] == 130.0 && l.tops[2] == 240.0
  {
    hide Placed;
    NoLanes(l);
    CanvasHeight(l);
    AdjacentTops(l, 0);
    AdjacentTops(l, 1);
  }

  lemma NoLanes(l: Layout)
    requires Placed(l) && Plain(l)
    ensures |l.tops| == |l.lanes| == 3 && l.lanes[0] == 0.0 && l.lanes[1] == 0.0
  {
    hide Ordered, DepthsFor, AnchorsFor, EdgePlaced, RowsPlaced, BandsStacked;
    Shape(l);
  }

  lemma WidestRow(l: Layout)
    requires Placed(l)
    ensures Ordered(l) && (l.bands == [] || exists b :: 0 <= b < |l.bands| && l.boxes[l.bands[b][0]].x == MARGIN_X)
  {
    hide Slots, NoDup, DepthsFor, AnchorsFor, EdgePlaced;
  }

  lemma HalfWay(p: Point, q: Point)
    requires p.y == 58.0 && q.y == 240.0
    ensures Aim(p, q, 149.0) == (p.x + q.x) / 2.0
  {
    assert (149.0 - 58.0) / (240.0 - 58.0) == 0.5;
  }

  /** An edge down past the middle band: where it starts and ends, and the channel
      it takes. */
  lemma PlainPath(l: Layout, i: nat, t: nat, u: nat)
    requires Placed(l) && Plain(l) && i < |l.g.ends| && l.g.ends[i] == Ends(t, u)
    requires l.g.bandOf[t] == 0 && l.g.bandOf[u] == 2
    ensures Joins(l, i) && Downwards(l, i) && Distance(l.BandOfEnd(i, 0), l.BandOfEnd(i, 1)) == 2 && RowKnown(l, 1)
    ensures var w := Drawing(l, i);
            && |w| == 4 && w[0] == Point(l.boxes[t].CenterX(), 58.0) && w[3] == Point(l.boxes[u].CenterX(), 240.0)
            && w[1].x == w[2].x && w[1].y == 121.0
            && NearestChannel(l.bands[1], l.boxes, (l.boxes[t].CenterX() + l.boxes[u].CenterX()) / 2.0, w[1].x)
  {
    hide Placed, Ordered, RowSpaced, NearestChannel, Aim;
    Shape(l);
    PlainTops(l);
    EdgeShape(l, i);
    SkipShape(l, i);
    BoxShape(l, t);
    BoxShape(l, u);
    var line := l.lines[i];
    WayChannel(l, i, 0);
    BendAt(l, i, 0);
    HalfWay(line.start, line.end);
    assert Drawing(l, i)[1] == line.waypoints[0];
  }
}
