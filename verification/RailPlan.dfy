/** The rails of a band, read off the edges and the slots: how deep each runs and
    where it hangs, in pixels. */
module RailPlan {
  import opened Basics
  import opened Sorting
  import opened Bands
  import opened Geometry
  import opened ArcDepths
  import opened ArcAnchors

  // ---- depths

  /** The slots edge i runs between. */
  ghost function Near(g: Graph, pos: seq<nat>, i: nat): nat
    requires Fits(g, pos) && i < |g.ends|
  {
    if pos[g.ends[i].from] < pos[g.ends[i].to] then pos[g.ends[i].from] else pos[g.ends[i].to]
  }

  ghost function Far(g: Graph, pos: seq<nat>, i: nat): nat
    requires Fits(g, pos) && i < |g.ends|
  {
    if pos[g.ends[i].from] < pos[g.ends[i].to] then pos[g.ends[i].to] else pos[g.ends[i].from]
  }

  /** j is a rail of i's band that runs under some of the same slots, and was given
      its depth first: it is shorter, or as long and listed earlier. */
  ghost predicate Sooner(g: Graph, pos: seq<nat>, j: nat, i: nat)
    requires Fits(g, pos)
  {
    && i < |g.ends| && j < |g.ends| && i != j && g.SameBand(i) && g.SameBand(j)
    && g.bandOf[g.ends[i].from] == g.bandOf[g.ends[j].from]
    && Near(g, pos, i) < Far(g, pos, j) && Near(g, pos, j) < Far(g, pos, i)
    && var m, n := Far(g, pos, j) - Near(g, pos, j), Far(g, pos, i) - Near(g, pos, i); m < n || (m == n && j < i)
  }

  /** j runs within i's slots and is shorter. */
  ghost predicate Nested(g: Graph, pos: seq<nat>, j: nat, i: nat)
    requires Fits(g, pos) && i < |g.ends| && j < |g.ends|
  {
    && Near(g, pos, i) <= Near(g, pos, j) && Far(g, pos, j) <= Far(g, pos, i)
    && Far(g, pos, j) - Near(g, pos, j) < Far(g, pos, i) - Near(g, pos, i)
  }

  /** A rail that came sooner keeps i from running l steps down. */
  ghost predicate Blocked(g: Graph, pos: seq<nat>, depth: seq<real>, i: nat, l: nat)
    requires Fits(g, pos) && i < |g.ends| == |depth|
  {
    exists j: nat :: Sooner(g, pos, j, i) && (depth[j] == 14.0 + 10.0 * l as real || (Nested(g, pos, j, i) && depth[j] > 14.0 + 10.0 * l as real))
  }

  /** Rails run 14 pixels down, or some multiple of 10 deeper; none at the depth of
      a rail it overlaps, none above a rail nested in it, and none deeper than
      those two rules make it: each shallower depth is taken by a rail that came
      sooner, or lies above one nested in it. */
  lemma DepthInPixels(g: Graph, pos: seq<nat>, depth: seq<real>, i: nat) returns (lv: nat)
    requires Fits(g, pos) && SlotsDiffer(g, pos) && DepthsFor(g, pos, depth) && i < |g.ends| == |depth| && g.SameBand(i)
    ensures depth[i] == 14.0 + 10.0 * lv as real
    ensures forall j: nat :: Sooner(g, pos, j, i) ==> depth[j] != depth[i] && (Nested(g, pos, j, i) ==> depth[j] < depth[i])
    ensures forall l: nat :: l < lv ==> Blocked(g, pos, depth, i, l)
  {
    hide SlotsDiffer, DepthsFor, Nested, Blocked, LevelledAs, SortedArcs, ArcOf;
    var arcs, levels, k := LevelOf(g, pos, depth, i);
    lv := levels[k];
    forall j: nat | Sooner(g, pos, j, i) ensures depth[j] != depth[i] && (Nested(g, pos, j, i) ==> depth[j] < depth[i]) {
      SoonerRules(g, pos, depth, j, i);
    }
    forall l: nat | l < lv ensures Blocked(g, pos, depth, i, l) { BlockedBelow(g, pos, depth, arcs, levels, k, i, l); }
  }

  /** Where rail i stands in the sorted list of its band, and the levels there. */
  lemma LevelOf(g: Graph, pos: seq<nat>, depth: seq<real>, i: nat) returns (arcs: seq<Arc>, levels: seq<nat>, k: nat)
    requires Fits(g, pos) && DepthsFor(g, pos, depth) && i < |g.ends| == |depth| && g.SameBand(i)
    ensures arcs == SortedArcs(g, pos, g.bandOf[g.ends[i].from]) && LevelledAs(arcs, levels, depth)
    ensures |levels| == |arcs| && k < |arcs| && arcs[k] == ArcOf(g, pos, i) && depth[i] == 14.0 + 10.0 * levels[k] as real
  {
    hide LevelledAs, SortedArcs;
    var b := g.bandOf[g.ends[i].from];
    arcs := SortedArcs(g, pos, b);
    assert BandDone(g, pos, b, depth);
    levels :| LevelledAs(arcs, levels, depth);
    SortedArcsExact(g, pos, b);
    assert RailOf(g, b, i);
    k := IndexOf(arcs, ArcOf(g, pos, i));
    LevelPixels(arcs, levels, depth, k);
  }

  lemma LevelPixels(arcs: seq<Arc>, levels: seq<nat>, depth: seq<real>, k: nat)
    requires LevelledAs(arcs, levels, depth) && k < |arcs|
    ensures |levels| == |arcs| && arcs[k].idx < |depth| && depth[arcs[k].idx] == 14.0 + 10.0 * levels[k] as real
  {
    hide Greedy;
  }

  lemma SoonerRules(g: Graph, pos: seq<nat>, depth: seq<real>, j: nat, i: nat)
    requires Fits(g, pos) && SlotsDiffer(g, pos) && DepthsFor(g, pos, depth) && Sooner(g, pos, j, i)
    ensures depth[j] != depth[i] && (Nested(g, pos, j, i) ==> depth[j] < depth[i])
  {
    hide DepthsFor, SlotsDiffer;
    DepthRules(g, pos, depth, j, i);
  }

  lemma BlockedBelow(g: Graph, pos: seq<nat>, depth: seq<real>, arcs: seq<Arc>, levels: seq<nat>, k: nat, i: nat, l: nat)
    requires Fits(g, pos) && i < |g.ends| == |depth| && g.SameBand(i)
    requires arcs == SortedArcs(g, pos, g.bandOf[g.ends[i].from]) && LevelledAs(arcs, levels, depth)
    requires |levels| == |arcs| && k < |arcs| && arcs[k] == ArcOf(g, pos, i) && l < levels[k]
    ensures Blocked(g, pos, depth, i, l)
  {
    hide SortedArcs, Sooner, Nested, ArcOf, LevelledAs;
    var m := Blocker(arcs, levels, depth, k, l);
    SortedArcsExact(g, pos, g.bandOf[g.ends[i].from]);
    LevelPixels(arcs, levels, depth, m);
    ComesSooner(g, pos, arcs, m, k);
    AsIndexed(g, pos, i);
    var j := arcs[m].idx;
    assert Sooner(g, pos, j, i);
    assert depth[j] == 14.0 + 10.0 * l as real || (Nested(g, pos, j, i) && depth[j] > 14.0 + 10.0 * l as real);
  }

  lemma AsIndexed(g: Graph, pos: seq<nat>, i: nat)
    requires Fits(g, pos) && i < |g.ends|
    ensures ArcOf(g, pos, i).idx == i
  {
  }

  lemma Blocker(arcs: seq<Arc>, levels: seq<nat>, depth: seq<real>, k: nat, l: nat) returns (m: nat)
    requires LevelledAs(arcs, levels, depth) && |levels| == |arcs| && k < |arcs| && l < levels[k]
    ensures m < k && Overlap(arcs[k], arcs[m]) && (levels[m] == l || (Contained(arcs[m], arcs[k]) && levels[m] > l))
  {
    hide Overlap, Contained;
    assert !Admissible(arcs, levels[..k], arcs[k], l);
    m :| m < k && Overlap(arcs[k], arcs[m]) && !(levels[m] != l && (Contained(arcs[m], arcs[k]) ==> levels[m] < l));
  }

  lemma ComesSooner(g: Graph, pos: seq<nat>, arcs: seq<Arc>, m: nat, k: nat)
    requires Fits(g, pos) && m < k < |arcs| && Sorted(ShorterFirst(), arcs) && Overlap(arcs[k], arcs[m]) && arcs[m].idx != arcs[k].idx
    requires forall n :: 0 <= n < |arcs| ==> arcs[n].idx < |g.ends| && g.SameBand(arcs[n].idx) && arcs[n] == ArcOf(g, pos, arcs[n].idx)
    requires g.bandOf[g.ends[arcs[m].idx].from] == g.bandOf[g.ends[arcs[k].idx].from]
    ensures Sooner(g, pos, arcs[m].idx, arcs[k].idx) && (Contained(arcs[m], arcs[k]) ==> Nested(g, pos, arcs[m].idx, arcs[k].idx))
  {
    assert !ShorterFirst()(arcs[k], arcs[m]);
  }

  // ---- anchors

  /** Rail i leaves node n to the given side. */
  ghost predicate LeavesTo(g: Graph, pos: seq<nat>, n: nat, right: bool, i: nat)
    requires Fits(g, pos)
  {
    && i < |g.ends| && n < |pos| && g.SameBand(i)
    && ((g.ends[i].from == n && right == (pos[g.ends[i].to] > pos[n])) || (g.ends[i].to == n && right == (pos[g.ends[i].from] > pos[n])))
  }

  ghost function RailsAt(g: Graph, pos: seq<nat>, n: nat, right: bool): set<nat>
    requires Fits(g, pos)
  {
    set i: nat | i < |g.ends| && LeavesTo(g, pos, n, right, i)
  }

  /** Those of them that run deeper than rail i. */
  ghost function DeeperAt(g: Graph, pos: seq<nat>, depth: seq<real>, n: nat, right: bool, i: nat): set<nat>
    requires Fits(g, pos) && i < |depth| == |g.ends|
  {
    set j: nat | j < |g.ends| && LeavesTo(g, pos, n, right, j) && depth[j] > depth[i]
  }

  function EndAt(g: Graph, n: nat, i: nat): nat { if i < |g.ends| && g.ends[i].from == n then 0 else 1 }

  lemma LeavesIsHangs(g: Graph, pos: seq<nat>, n: nat, right: bool, i: nat)
    requires Fits(g, pos) && SlotsDiffer(g, pos) && n < |pos| && i < |g.ends|
    ensures LeavesTo(g, pos, n, right, i) <==> Hangs(g, pos, n, right, Ray(i, EndAt(g, n, i)))
    ensures !Hangs(g, pos, n, right, Ray(i, 1 - EndAt(g, n, i)))
  {
  }

  /** The edges of the first k rays. */
  ghost function EdgesOf(fan: seq<Ray>, k: nat): set<nat>
    requires k <= |fan|
  {
    set m: nat | m < k :: fan[m].edge
  }

  lemma {:induction false} EdgesCount(fan: seq<Ray>, k: nat)
    requires k <= |fan| && forall l, m :: 0 <= l < m < |fan| ==> fan[l].edge != fan[m].edge
    ensures |EdgesOf(fan, k)| == k
  {
    if k == 0 {
      assert EdgesOf(fan, 0) == {};
    } else {
      EdgesCount(fan, k - 1);
      assert EdgesOf(fan, k) == EdgesOf(fan, k - 1) + {fan[k - 1].edge};
      assert fan[k - 1].edge !in EdgesOf(fan, k - 1);
    }
  }

  lemma FanHolds(g: Graph, pos: seq<nat>, depth: seq<real>, n: nat, right: bool, r: Ray)
    requires Fits(g, pos) && SlotsDiffer(g, pos) && n < |pos| && r in Fan(g, pos, depth, n, right)
    ensures r.edge < |g.ends| && LeavesTo(g, pos, n, right, r.edge) && r == Ray(r.edge, EndAt(g, n, r.edge))
  {
    hide LeavesTo, Hangs, SlotsDiffer, Fan;
    assert Hangs(g, pos, n, right, r);
    HangsInRange(g, pos, n, right, r);
    LeavesIsHangs(g, pos, n, right, r.edge);
  }

  lemma FanHas(g: Graph, pos: seq<nat>, depth: seq<real>, n: nat, right: bool, i: nat)
    requires Fits(g, pos) && SlotsDiffer(g, pos) && LeavesTo(g, pos, n, right, i)
    ensures i < |g.ends| && n < |pos| && Ray(i, EndAt(g, n, i)) in Fan(g, pos, depth, n, right)
  {
    hide LeavesTo, Hangs, SlotsDiffer, Fan;
    LeavesInRange(g, pos, n, right, i);
    LeavesIsHangs(g, pos, n, right, i);
  }

  /** A fan holds one ray of every rail leaving to its side, and no other. */
  lemma FanEdges(g: Graph, pos: seq<nat>, depth: seq<real>, n: nat, right: bool)
    requires Fits(g, pos) && SlotsDiffer(g, pos) && n < |pos|
    ensures var fan := Fan(g, pos, depth, n, right);
            && (forall l, m :: 0 <= l < m < |fan| ==> fan[l].edge != fan[m].edge)
            && EdgesOf(fan, |fan|) == RailsAt(g, pos, n, right)
  {
    hide LeavesTo, Hangs, EndAt, SlotsDiffer, Fan, Fits;
    var fan := Fan(g, pos, depth, n, right);
    forall m | 0 <= m < |fan| ensures fan[m].edge in RailsAt(g, pos, n, right) && fan[m] == Ray(fan[m].edge, EndAt(g, n, fan[m].edge)) {
      FanHolds(g, pos, depth, n, right, fan[m]);
    }
    forall i | i in RailsAt(g, pos, n, right) ensures i in EdgesOf(fan, |fan|) {
      FanHas(g, pos, depth, n, right, i);
      var m :| 0 <= m < |fan| && fan[m] == Ray(i, EndAt(g, n, i));
    }
  }

  lemma HangsInRange(g: Graph, pos: seq<nat>, n: nat, right: bool, r: Ray)
    requires Fits(g, pos) && Hangs(g, pos, n, right, r)
    ensures r.edge < |g.ends| && (r.end == 0 || r.end == 1) && EndAt(g, n, r.edge) <= 1
  {
  }

  lemma LeavesInRange(g: Graph, pos: seq<nat>, n: nat, right: bool, i: nat)
    requires Fits(g, pos) && LeavesTo(g, pos, n, right, i)
    ensures i < |g.ends| && n < |pos|
  {
  }

  /** Rails that leave one node to one side are at different depths. */
  lemma SameSideDiffer(g: Graph, pos: seq<nat>, depth: seq<real>, n: nat, right: bool, i: nat, j: nat)
    requires Fits(g, pos) && SlotsDiffer(g, pos) && DepthsFor(g, pos, depth) && i != j
    requires LeavesTo(g, pos, n, right, i) && LeavesTo(g, pos, n, right, j)
    ensures i < |depth| == |g.ends| && j < |depth| && depth[i] != depth[j]
  {
    hide SlotsDiffer, BandDone;
    SideArc(g, pos, n, right, i);
    SideArc(g, pos, n, right, j);
    DepthRules(g, pos, depth, i, j);
  }

  lemma SideArc(g: Graph, pos: seq<nat>, n: nat, right: bool, i: nat)
    requires Fits(g, pos) && SlotsDiffer(g, pos) && LeavesTo(g, pos, n, right, i)
    ensures var a := ArcOf(g, pos, i); a.lo < a.hi && (if right then a.lo == pos[n] else a.hi == pos[n])
    ensures g.bandOf[g.ends[i].from] == g.bandOf[n]
  {
  }

  /** The rays before the k-th are those of the deeper rails. */
  lemma DeeperBefore(g: Graph, pos: seq<nat>, depth: seq<real>, n: nat, right: bool, k: nat)
    requires Fits(g, pos) && SlotsDiffer(g, pos) && DepthsFor(g, pos, depth) && n < |pos| && |depth| == |g.ends|
    requires k < |Fan(g, pos, depth, n, right)|
    ensures var fan := Fan(g, pos, depth, n, right);
            fan[k].edge < |depth| && EdgesOf(fan, k) == DeeperAt(g, pos, depth, n, right, fan[k].edge)
  {
    hide LeavesTo, Hangs, EndAt, SlotsDiffer, DepthsFor, Fits;
    var fan := Fan(g, pos, depth, n, right);
    FanEdges(g, pos, depth, n, right);
    forall m | 0 <= m < |fan| ensures fan[m].edge < |g.ends| && LeavesTo(g, pos, n, right, fan[m].edge) {
      FanHolds(g, pos, depth, n, right, fan[m]);
    }
    var i := fan[k].edge;
    forall m | 0 <= m < |fan| && m != k ensures depth[fan[m].edge] != depth[i] && (m < k <==> depth[fan[m].edge] > depth[i]) {
      SameSideDiffer(g, pos, depth, n, right, fan[m].edge, i);
      if m < k { assert !DeeperFirst(depth)(fan[k], fan[m]); } else { assert !DeeperFirst(depth)(fan[m], fan[k]); }
    }
    hide Fan;
    forall j | j in DeeperAt(g, pos, depth, n, right, i) ensures j in EdgesOf(fan, k) {
      assert j in RailsAt(g, pos, n, right);
      var m :| 0 <= m < |fan| && fan[m].edge == j;
    }
  }

  /** Where a rail leaves its box: the deeper it runs the nearer the centre, each 5
      pixels from the next -- or closer, so that the outermost is 6 pixels short of
      the side, where there are too many for that. */
  lemma AnchorInPixels(g: Graph, pos: seq<nat>, depth: seq<real>, boxes: seq<Box>, anchors: seq<(real, real)>, n: nat, right: bool, i: nat)
    requires Fits(g, pos) && SlotsDiffer(g, pos) && DepthsFor(g, pos, depth) && |boxes| == |g.bandOf| && |depth| == |g.ends|
    requires AnchorsFor(g, pos, depth, boxes, anchors) && LeavesTo(g, pos, n, right, i)
    ensures n < |boxes| && i < |anchors| && |RailsAt(g, pos, n, right)| > 0
    ensures var count, ahead, room := |RailsAt(g, pos, n, right)|, |DeeperAt(g, pos, depth, n, right, i)|, boxes[n].w / 2.0 - 6.0;
            var step := if 5.0 * count as real <= room then 5.0 else room / count as real;
            EndOf(anchors[i], EndAt(g, n, i)) ==
              if right then boxes[n].x + boxes[n].w / 2.0 + step * (ahead + 1) as real
              else boxes[n].x + boxes[n].w / 2.0 - step * (ahead + 1) as real
  {
    hide LeavesTo, Hangs, EndAt, SlotsDiffer, DepthsFor, Fan, AnchorX, DeeperAt, RailsAt, EdgesOf;
    FanHas(g, pos, depth, n, right, i);
    var fan := Fan(g, pos, depth, n, right);
    var k := IndexOf(fan, Ray(i, EndAt(g, n, i)));
    assert FanDone(g, pos, depth, boxes[n], n, right, anchors);
    FanEdges(g, pos, depth, n, right);
    EdgesCount(fan, |fan|);
    EdgesCount(fan, k);
    DeeperBefore(g, pos, depth, n, right, k);
    FormulaOfX(boxes[n], right, |fan|, k);
  }

  lemma FormulaOfX(box: Box, right: bool, count: nat, k: nat)
    requires count > 0
    ensures var room := box.w / 2.0 - 6.0; var step := if 5.0 * count as real <= room then 5.0 else room / count as real;
            AnchorX(box, right, count, k) == if right then box.x + box.w / 2.0 + step * (k + 1) as real else box.x + box.w / 2.0 - step * (k + 1) as real
  {
    var room, c := box.w / 2.0 - 6.0, count as real;
    var even := room / c;
    assert even * c == room;
    SignOfProduct((even - 5.0) * c, even - 5.0, c);
  }
}
