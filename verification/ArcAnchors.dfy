/** Where along a box's bottom edge each same-band rail hangs: one fan to the
    right and one to the left of the centre, deepest rail innermost. */
module ArcAnchors {
  import opened Sorting
  import opened Bands
  import opened Geometry
  import opened ArcDepths

  const ARC_ANCHOR_STEP: real := 5.0
  const ARC_ANCHOR_EDGE_PAD: real := 6.0

  /** One end of a rail; end 0 is the edge's From, end 1 its To. */
  datatype Ray = Ray(edge: nat, end: nat)

  /** Ray r hangs from node n on the given side. */
  predicate Hangs(g: Graph, pos: seq<nat>, n: nat, right: bool, r: Ray)
    requires |pos| == |g.bandOf|
    requires forall i :: 0 <= i < |g.ends| ==> g.ends[i].from < |pos| && g.ends[i].to < |pos|
  {
    && r.edge < |g.ends| && g.SameBand(r.edge) && r.end <= 1
    && n == (if r.end == 0 then g.ends[r.edge].from else g.ends[r.edge].to)
    && right == ((r.end == 0) == (pos[g.ends[r.edge].from] < pos[g.ends[r.edge].to]))
  }

  /** At most one end of an edge hangs from n on one side. */
  lemma OneEnd(g: Graph, pos: seq<nat>, n: nat, right: bool, k: nat)
    requires Fits(g, pos)
    ensures forall r: Ray :: Hangs(g, pos, n, right, r) && r.edge == k ==> r == Ray(k, 0) || r == Ray(k, 1)
    ensures !(Hangs(g, pos, n, right, Ray(k, 0)) && Hangs(g, pos, n, right, Ray(k, 1)))
  {
  }

  /** The rays at n on one side, among the first k edges, in edge order. */
  ghost function Rays(g: Graph, pos: seq<nat>, n: nat, right: bool, k: nat): (rays: seq<Ray>)
    requires Fits(g, pos) && k <= |g.ends|
    ensures forall m :: 0 <= m < |rays| ==> Hangs(g, pos, n, right, rays[m]) && rays[m].edge < k
    ensures forall l, m :: 0 <= l < m < |rays| ==> rays[l].edge < rays[m].edge
    ensures forall r :: Hangs(g, pos, n, right, r) && r.edge < k ==> r in rays
  {
    hide Hangs;
    if k == 0 then []
    else
      OneEnd(g, pos, n, right, k - 1);
      var rays := Rays(g, pos, n, right, k - 1);
      if Hangs(g, pos, n, right, Ray(k - 1, 0)) then rays + [Ray(k - 1, 0)]
      else if Hangs(g, pos, n, right, Ray(k - 1, 1)) then rays + [Ray(k - 1, 1)]
      else rays
  }

  function DepthAt(depth: seq<real>, i: nat): real { if i < |depth| then depth[i] else 0.0 }

  function DeeperFirst(depth: seq<real>): (Ray, Ray) -> bool {
    (a: Ray, b: Ray) =>
      if DepthAt(depth, a.edge) != DepthAt(depth, b.edge) then DepthAt(depth, a.edge) > DepthAt(depth, b.edge)
      else a.edge < b.edge
  }

  lemma DeeperFirstIsOrder(depth: seq<real>)
    ensures IsOrder(DeeperFirst(depth))
  {
  }

  ghost function Fan(g: Graph, pos: seq<nat>, depth: seq<real>, n: nat, right: bool): (fan: seq<Ray>)
    requires Fits(g, pos)
    ensures Sorted(DeeperFirst(depth), fan)
    ensures NoDup(fan)
    ensures forall r :: r in fan <==> Hangs(g, pos, n, right, r)
  {
    DeeperFirstIsOrder(depth);
    var rays := Rays(g, pos, n, right, |g.ends|);
    var fan := SortBy(DeeperFirst(depth), rays);
    Rearranged(rays, fan);
    fan
  }

  function FanStep(box: Box, count: nat): real
    requires count > 0
  {
    var even := (box.w / 2.0 - ARC_ANCHOR_EDGE_PAD) / count as real;
    if even < ARC_ANCHOR_STEP then even else ARC_ANCHOR_STEP
  }

  /** How far from the centre the k-th of count rays hangs, and its x. */
  function Offset(box: Box, count: nat, k: nat): real
    requires count > 0
  {
    FanStep(box, count) * (k + 1) as real
  }

  function AnchorX(box: Box, right: bool, count: nat, k: nat): real
    requires count > 0
  {
    if right then box.CenterX() + Offset(box, count, k) else box.CenterX() - Offset(box, count, k)
  }

  /** The rays of a fan step outwards from the centre and stay on the box. */
  lemma FanSpread(box: Box, count: nat, j: nat, k: nat)
    requires box.w > 2.0 * ARC_ANCHOR_EDGE_PAD && j <= k < count
    ensures 0.0 < Offset(box, count, k) <= box.w / 2.0 - ARC_ANCHOR_EDGE_PAD
    ensures j < k ==> Offset(box, count, j) < Offset(box, count, k)
  {
    hide FanStep;
    var s, x, y, c := FanStep(box, count), (j + 1) as real, (k + 1) as real, count as real;
    StepPositive(box, count);
    assert Offset(box, count, j) == s * x && Offset(box, count, k) == s * y;
    hide Offset;
    SignOfProduct(s * y, s, y);
    Scaled(s, x, y);
    Scaled(s, y, c);
  }

  lemma Scaled(s: real, a: real, b: real)
    requires s > 0.0
    ensures a < b ==> s * a < s * b
    ensures a <= b ==> s * a <= s * b
  {
    SignOfProduct(s * (b - a), s, b - a);
  }

  lemma StepPositive(box: Box, count: nat)
    requires box.w > 2.0 * ARC_ANCHOR_EDGE_PAD && count > 0
    ensures 0.0 < FanStep(box, count) && FanStep(box, count) * count as real <= box.w / 2.0 - ARC_ANCHOR_EDGE_PAD
  {
    var limit, c := box.w / 2.0 - ARC_ANCHOR_EDGE_PAD, count as real;
    assert (limit / c) * c == limit;
    assert limit / c > 0.0;
  }

  function EndOf(a: (real, real), end: nat): real { if end == 0 then a.0 else a.1 }

  /** The rays of n on one side hang where the fan puts them. */
  ghost predicate FanDone(g: Graph, pos: seq<nat>, depth: seq<real>, box: Box, n: nat, right: bool, anchors: seq<(real, real)>)
    requires Fits(g, pos) && |anchors| == |g.ends|
  {
    var fan := Fan(g, pos, depth, n, right);
    forall k :: 0 <= k < |fan| ==> fan[k].edge < |anchors| && EndOf(anchors[fan[k].edge], fan[k].end) == AnchorX(box, right, |fan|, k)
  }

  ghost predicate AnchorsFor(g: Graph, pos: seq<nat>, depth: seq<real>, boxes: seq<Box>, anchors: seq<(real, real)>)
    requires Fits(g, pos) && |boxes| == |g.bandOf|
  {
    |anchors| == |g.ends| && forall n, right :: 0 <= n < |boxes| ==> FanDone(g, pos, depth, boxes[n], n, right, anchors)
  }

  /** Where one ray hangs: outside the centre, on the box, deeper rays further in. */
  lemma AnchorRules(g: Graph, pos: seq<nat>, depth: seq<real>, boxes: seq<Box>, anchors: seq<(real, real)>,
                    n: nat, right: bool, r: Ray, s: Ray)
    requires Fits(g, pos) && |boxes| == |g.bandOf| && |depth| == |g.ends| && AnchorsFor(g, pos, depth, boxes, anchors)
    requires n < |boxes| && boxes[n].w > 2.0 * ARC_ANCHOR_EDGE_PAD
    requires Hangs(g, pos, n, right, r) && Hangs(g, pos, n, right, s)
    ensures var x, y, c := EndOf(anchors[r.edge], r.end), EndOf(anchors[s.edge], s.end), boxes[n].CenterX();
            && (if right then c < x <= boxes[n].Right() - ARC_ANCHOR_EDGE_PAD else boxes[n].x + ARC_ANCHOR_EDGE_PAD <= x < c)
            && (depth[r.edge] > depth[s.edge] ==> if right then x < y else x > y)
  {
    hide Hangs, Offset, IndexOf;
    var fan := Fan(g, pos, depth, n, right);
    assert FanDone(g, pos, depth, boxes[n], n, right, anchors);
    var j, k := IndexOf(fan, r), IndexOf(fan, s);
    FanSpread(boxes[n], |fan|, j, j);
    FanSpread(boxes[n], |fan|, k, k);
    if r.edge < |depth| && s.edge < |depth| && depth[r.edge] > depth[s.edge] {
      assert DeeperFirst(depth)(r, s);
      assert j < k;
      FanSpread(boxes[n], |fan|, j, k);
    }
  }

  // ---- computing the anchors

  function Entry(m: map<nat, seq<Ray>>, n: nat): seq<Ray> { if n in m then m[n] else [] }

  /** rays[n] extended by one ray, creating the entry when there is none. */
  function Append(m: map<nat, seq<Ray>>, n: nat, r: Ray): (m': map<nat, seq<Ray>>)
    ensures Entry(m', n) == Entry(m, n) + [r] && forall k :: k != n ==> Entry(m', k) == Entry(m, k)
    ensures m'.Keys == m.Keys + {n}
  {
    m[n := Entry(m, n) + [r]]
  }

  /** side maps every node of the graph with rays to those rays. */
  ghost predicate Collected(g: Graph, pos: seq<nat>, side: map<nat, seq<Ray>>, right: bool, k: nat)
    requires Fits(g, pos) && k <= |g.ends|
  {
    && (forall n :: 0 <= n < |pos| ==> Entry(side, n) == Rays(g, pos, n, right, k))
    && (forall n :: n in side ==> n < |pos| && side[n] != [])
  }

  /** The node edge k hangs from on the given side, and which of its ends that is. */
  function SideEnd(g: Graph, pos: seq<nat>, right: bool, k: nat): nat
    requires k < |g.ends| && g.ends[k].from < |pos| && g.ends[k].to < |pos|
  {
    if right == (pos[g.ends[k].from] < pos[g.ends[k].to]) then 0 else 1
  }

  function SideNode(g: Graph, pos: seq<nat>, right: bool, k: nat): nat
    requires k < |g.ends| && g.ends[k].from < |pos| && g.ends[k].to < |pos|
  {
    if SideEnd(g, pos, right, k) == 0 then g.ends[k].from else g.ends[k].to
  }

  lemma RaysStep(g: Graph, pos: seq<nat>, n: nat, right: bool, k: nat)
    requires Fits(g, pos) && k < |g.ends| && n < |pos|
    ensures Rays(g, pos, n, right, k + 1) ==
            Rays(g, pos, n, right, k) + if g.SameBand(k) && n == SideNode(g, pos, right, k) then [Ray(k, SideEnd(g, pos, right, k))] else []
  {
  }

  lemma CollectStep(g: Graph, pos: seq<nat>, side: map<nat, seq<Ray>>, right: bool, k: nat)
    requires Fits(g, pos) && k < |g.ends| && Collected(g, pos, side, right, k)
    ensures Collected(g, pos,
              if g.SameBand(k) then Append(side, SideNode(g, pos, right, k), Ray(k, SideEnd(g, pos, right, k))) else side,
              right, k + 1)
  {
    hide Append, Entry, Rays;
    forall n | 0 <= n < |pos|
      ensures Rays(g, pos, n, right, k + 1) ==
              Rays(g, pos, n, right, k) + if g.SameBand(k) && n == SideNode(g, pos, right, k) then [Ray(k, SideEnd(g, pos, right, k))] else []
    {
      RaysStep(g, pos, n, right, k);
    }
    EntryOfKey(side);
    EntryOfKey(Append(side, SideNode(g, pos, right, k), Ray(k, SideEnd(g, pos, right, k))));
  }

  lemma EntryOfKey(m: map<nat, seq<Ray>>)
    ensures forall n :: n in m ==> Entry(m, n) == m[n]
  {
  }

  method Collect(g: Graph, pos: seq<nat>) returns (rights: map<nat, seq<Ray>>, lefts: map<nat, seq<Ray>>)
    requires Fits(g, pos)
    ensures Collected(g, pos, rights, true, |g.ends|) && Collected(g, pos, lefts, false, |g.ends|)
  {
    hide Append, Rays, Collected;
    rights, lefts := map[], map[];
    CollectedNone(g, pos);
    for i := 0 to |g.ends|
      invariant Collected(g, pos, rights, true, i) && Collected(g, pos, lefts, false, i)
    {
      CollectStep(g, pos, rights, true, i);
      CollectStep(g, pos, lefts, false, i);
      if g.SameBand(i) {
        var a, b := g.ends[i].from, g.ends[i].to;
        if pos[a] < pos[b] {
          rights := Append(rights, a, Ray(i, 0));
          lefts := Append(lefts, b, Ray(i, 1));
        } else {
          rights := Append(rights, b, Ray(i, 1));
          lefts := Append(lefts, a, Ray(i, 0));
        }
      }
    }
  }

  lemma CollectedNone(g: Graph, pos: seq<nat>)
    requires Fits(g, pos)
    ensures Collected(g, pos, map[], true, 0) && Collected(g, pos, map[], false, 0)
  {
  }

  /** Only ends hanging from n on the given side differ. */
  ghost predicate OthersKept(g: Graph, pos: seq<nat>, n: nat, right: bool, before: seq<(real, real)>, after: seq<(real, real)>)
    requires Fits(g, pos) && |before| == |after| == |g.ends|
  {
    forall i, end: nat {:trigger EndOf(after[i], end)} :: 0 <= i < |after| && end <= 1 && !Hangs(g, pos, n, right, Ray(i, end))
      ==> EndOf(after[i], end) == EndOf(before[i], end)
  }

  /** One fan written into the anchors; every end outside it is left alone. */
  method Assign(g: Graph, pos: seq<nat>, depth: seq<real>, box: Box, n: nat, right: bool, rays: seq<Ray>,
                anchors0: seq<(real, real)>) returns (anchors: seq<(real, real)>)
    requires Fits(g, pos) && |anchors0| == |g.ends|
    requires rays == Rays(g, pos, n, right, |g.ends|) && rays != []
    ensures |anchors| == |anchors0| && FanDone(g, pos, depth, box, n, right, anchors)
    ensures OthersKept(g, pos, n, right, anchors0, anchors)
  {
    DeeperFirstIsOrder(depth);
    var fan := SortBy(DeeperFirst(depth), rays);
    assert fan == Fan(g, pos, depth, n, right);
    anchors := Write(g, pos, n, right, box, fan, anchors0);
  }

  method Write(g: Graph, pos: seq<nat>, ghost n: nat, right: bool, box: Box, fan: seq<Ray>, anchors0: seq<(real, real)>)
    returns (anchors: seq<(real, real)>)
    requires Fits(g, pos) && |anchors0| == |g.ends| && NoDup(fan) && fan != []
    requires forall r :: r in fan <==> Hangs(g, pos, n, right, r)
    ensures |anchors| == |anchors0|
    ensures forall k :: 0 <= k < |fan| ==> fan[k].edge < |anchors| && EndOf(anchors[fan[k].edge], fan[k].end) == AnchorX(box, right, |fan|, k)
    ensures OthersKept(g, pos, n, right, anchors0, anchors)
  {
    hide AnchorX;
    anchors := anchors0;
    var step := FanStep(box, |fan|);
    for k := 0 to |fan|
      invariant |anchors| == |anchors0|
      invariant forall j :: 0 <= j < k ==> fan[j].edge < |anchors| && EndOf(anchors[fan[j].edge], fan[j].end) == AnchorX(box, right, |fan|, j)
      invariant OthersKept(g, pos, n, right, anchors0, anchors)
    {
      var r := fan[k];
      assert r in fan;
      var x := box.CenterX() + (if right then 1.0 else -1.0) * step * (k + 1) as real;
      AnchorXIs(box, right, |fan|, k, step, x);
      var a := anchors[r.edge];
      ghost var before := anchors;
      anchors := anchors[r.edge := if r.end == 0 then (x, a.1) else (a.0, x)];
      forall i, end: nat | 0 <= i < |anchors| && end <= 1 && !Hangs(g, pos, n, right, Ray(i, end))
        ensures EndOf(anchors[i], end) == EndOf(anchors0[i], end)
      {
        assert Ray(i, end) != r;
        assert EndOf(before[i], end) == EndOf(anchors0[i], end);
      }
      forall j | 0 <= j < k ensures fan[j].edge < |anchors| && EndOf(anchors[fan[j].edge], fan[j].end) == AnchorX(box, right, |fan|, j) {
        assert fan[j] in fan && fan[j] != fan[k];
      }
    }
  }

  lemma AnchorXIs(box: Box, right: bool, count: nat, k: nat, step: real, x: real)
    requires count > 0 && step == FanStep(box, count)
    requires x == box.CenterX() + (if right then 1.0 else -1.0) * step * (k + 1) as real
    ensures x == AnchorX(box, right, count, k)
  {
    hide FanStep;
    assert right ==> x == box.CenterX() + step * (k + 1) as real;
    assert !right ==> x == box.CenterX() - step * (k + 1) as real;
  }

  /** A fan stays as it was when some other fan is written. */
  lemma FanKept(g: Graph, pos: seq<nat>, depth: seq<real>, box: Box, n: nat, right: bool, m: nat, side: bool,
                before: seq<(real, real)>, after: seq<(real, real)>)
    requires Fits(g, pos) && |before| == |after| == |g.ends| && (n != m || right != side)
    requires FanDone(g, pos, depth, box, n, right, before)
    requires OthersKept(g, pos, m, side, before, after)
    ensures FanDone(g, pos, depth, box, n, right, after)
  {
    hide AnchorX, EndOf;
    var fan := Fan(g, pos, depth, n, right);
    forall k | 0 <= k < |fan| ensures EndOf(after[fan[k].edge], fan[k].end) == EndOf(before[fan[k].edge], fan[k].end) {
      assert fan[k] in fan;
      assert !Hangs(g, pos, m, side, fan[k]);
    }
  }

  lemma EmptyFanDone(g: Graph, pos: seq<nat>, depth: seq<real>, box: Box, n: nat, right: bool, anchors: seq<(real, real)>)
    requires Fits(g, pos) && |anchors| == |g.ends| && Rays(g, pos, n, right, |g.ends|) == []
    ensures FanDone(g, pos, depth, box, n, right, anchors)
  {
    hide Hangs, AnchorX;
  }

  /** Every fan of one side, in whatever order the map is ranged over. */
  method AssignSide(g: Graph, pos: seq<nat>, depth: seq<real>, boxes: seq<Box>, side: map<nat, seq<Ray>>, right: bool,
                    anchors0: seq<(real, real)>) returns (anchors: seq<(real, real)>)
    requires Fits(g, pos) && |boxes| == |g.bandOf| && |anchors0| == |g.ends|
    requires Collected(g, pos, side, right, |g.ends|)
    ensures |anchors| == |anchors0|
    ensures forall n :: 0 <= n < |boxes| ==> FanDone(g, pos, depth, boxes[n], n, right, anchors)
    ensures forall n :: 0 <= n < |boxes| && FanDone(g, pos, depth, boxes[n], n, !right, anchors0)
              ==> FanDone(g, pos, depth, boxes[n], n, !right, anchors)
  {
    hide FanDone, OthersKept;
    anchors := anchors0;
    var todo := side.Keys;
    forall n | 0 <= n < |boxes| && n !in todo ensures FanDone(g, pos, depth, boxes[n], n, right, anchors) {
      EmptyFanDone(g, pos, depth, boxes[n], n, right, anchors);
    }
    while todo != {}
      invariant todo <= side.Keys && |anchors| == |anchors0|
      invariant forall n :: 0 <= n < |boxes| && n !in todo ==> FanDone(g, pos, depth, boxes[n], n, right, anchors)
      invariant forall n :: 0 <= n < |boxes| && FanDone(g, pos, depth, boxes[n], n, !right, anchors0)
                  ==> FanDone(g, pos, depth, boxes[n], n, !right, anchors)
      decreases |todo|
    {
      var m :| m in todo;
      todo := todo - {m};
      ghost var before := anchors;
      assert Entry(side, m) == Rays(g, pos, m, right, |g.ends|);
      anchors := Assign(g, pos, depth, boxes[m], m, right, side[m], anchors);
      forall n | 0 <= n < |boxes| && n !in todo && n != m ensures FanDone(g, pos, depth, boxes[n], n, right, anchors) {
        FanKept(g, pos, depth, boxes[n], n, right, m, right, before, anchors);
      }
      forall n | 0 <= n < |boxes| && FanDone(g, pos, depth, boxes[n], n, !right, before)
        ensures FanDone(g, pos, depth, boxes[n], n, !right, anchors)
      {
        FanKept(g, pos, depth, boxes[n], n, !right, m, right, before, anchors);
      }
    }
  }

  method Anchors(g: Graph, pos: seq<nat>, depth: seq<real>, boxes: seq<Box>) returns (anchors: seq<(real, real)>)
    requires Fits(g, pos) && |boxes| == |g.bandOf|
    ensures AnchorsFor(g, pos, depth, boxes, anchors)
  {
    hide FanDone, Collected;
    var rights, lefts := Collect(g, pos);
    anchors := seq(|g.ends|, _ => (0.0, 0.0));
    anchors := AssignSide(g, pos, depth, boxes, rights, true, anchors);
    anchors := AssignSide(g, pos, depth, boxes, lefts, false, anchors);
  }
}
