/** The depth of every same-band rail. Arcs are taken in order of length and given
    levels one by one: each goes as shallow as it can without sharing a level
    with an arc it overlaps or rising to one it encloses. */
module ArcDepths {
  import opened Sorting
  import opened Bands

  const ARC_DEPTH_BASE: real := 14.0
  const ARC_DEPTH_STEP: real := 10.0

  datatype Arc = Arc(idx: nat, lo: int, hi: int)
  {
    function Span(): int { hi - lo }
  }

  predicate Overlap(a: Arc, o: Arc) { !(a.lo >= o.hi || o.lo >= a.hi) }

  /** o lies within a and is strictly shorter. */
  predicate Contained(o: Arc, a: Arc) { o.lo >= a.lo && o.hi <= a.hi && o.Span() < a.Span() }

  function ShorterFirst(): (Arc, Arc) -> bool {
    (a: Arc, b: Arc) => a.Span() < b.Span() || (a.Span() == b.Span() && a.idx < b.idx)
  }

  lemma ShorterFirstIsOrder()
    ensures IsOrder(ShorterFirst())
  {
  }

  // ---- what the greedy pass computes

  /** Level l suits a, given the levels of the arcs decided before it. */
  ghost predicate Admissible(arcs: seq<Arc>, levels: seq<nat>, a: Arc, l: int)
    requires |levels| <= |arcs|
  {
    forall i :: 0 <= i < |levels| && Overlap(a, arcs[i]) ==> levels[i] != l && (Contained(arcs[i], a) ==> levels[i] < l)
  }

  /** Every arc takes the least level that suits it. */
  ghost predicate Greedy(arcs: seq<Arc>, levels: seq<nat>)
    requires |levels| <= |arcs|
  {
    forall k :: 0 <= k < |levels| ==>
      && Admissible(arcs, levels[..k], arcs[k], levels[k])
      && forall l :: 0 <= l < levels[k] ==> !Admissible(arcs, levels[..k], arcs[k], l)
  }

  /** An arc's level never exceeds its place in the order. */
  lemma {:induction false} LevelBound(arcs: seq<Arc>, levels: seq<nat>, k: nat)
    requires |levels| <= |arcs| && Greedy(arcs, levels) && k < |levels|
    ensures levels[k] <= k
  {
    forall i | 0 <= i < k ensures levels[i] <= i { LevelBound(arcs, levels, i); }
    assert Admissible(arcs, levels[..k], arcs[k], k);
  }

  /** Overlapping arcs never share a level. */
  lemma LevelsDistinct(arcs: seq<Arc>, levels: seq<nat>, i: nat, j: nat)
    requires |levels| == |arcs| && Greedy(arcs, levels)
    requires i < |arcs| && j < |arcs| && i != j && Overlap(arcs[i], arcs[j])
    ensures levels[i] != levels[j]
  {
    var k, m := if i < j then j else i, if i < j then i else j;
    assert Admissible(arcs, levels[..k], arcs[k], levels[k]);
    assert levels[..k][m] == levels[m];
  }

  /** A container is strictly deeper than everything it contains. */
  lemma ContainerDeeper(arcs: seq<Arc>, levels: seq<nat>, i: nat, j: nat)
    requires |levels| == |arcs| && Greedy(arcs, levels) && Sorted(ShorterFirst(), arcs)
    requires i < |arcs| && j < |arcs| && arcs[i].lo < arcs[i].hi && Contained(arcs[i], arcs[j])
    ensures levels[i] < levels[j]
  {
    assert i < j;
    assert Admissible(arcs, levels[..j], arcs[j], levels[j]);
    assert levels[..j][i] == levels[i];
  }

  // ---- one band

  /** Some arc among the first m, overlapping a, has level l. */
  ghost predicate Taken(arcs: seq<Arc>, levels: seq<nat>, a: Arc, m: nat, l: nat)
    requires |levels| <= |arcs|
  {
    exists i :: 0 <= i < m && i < |levels| && Overlap(a, arcs[i]) && levels[i] == l
  }

  /** The level of one arc, from the levels assigned so far. */
  method NextLevel(sorted: seq<Arc>, level: map<nat, nat>, k: nat, ghost levels: seq<nat>) returns (lv: nat)
    requires |levels| == k < |sorted| && Greedy(sorted, levels)
    requires forall i :: 0 <= i < |sorted| ==> (sorted[i].idx in level <==> i < k)
    requires forall i :: 0 <= i < k ==> level[sorted[i].idx] == levels[i]
    ensures Greedy(sorted, levels + [lv])
  {
    var a := sorted[k];
    var floor := 0;
    var used: set<nat> := {};
    forall i | 0 <= i < k ensures levels[i] <= i { LevelBound(sorted, levels, i); }
    for m := 0 to |sorted|
      invariant floor <= k
      invariant forall l :: l in used <==> Taken(sorted, levels, a, m, l)
      invariant forall i :: 0 <= i < m && i < k && Overlap(a, sorted[i]) && Contained(sorted[i], a) ==> levels[i] < floor
      invariant floor == 0 || exists i :: 0 <= i < m && i < k && Overlap(a, sorted[i]) && Contained(sorted[i], a) && levels[i] + 1 == floor
    {
      var o := sorted[m];
      if o.idx in level && o.idx != a.idx && Overlap(a, o) {
        var l := level[o.idx];
        used := used + {l};
        if Contained(o, a) && l + 1 > floor {
          floor := l + 1;
        }
      }
    }
    lv := floor;
    while lv in used
      invariant floor <= lv <= k
      invariant forall l :: floor <= l < lv ==> l in used
      decreases k - lv
    {
      lv := lv + 1;
    }
    LeastAdmissible(sorted, levels, k, floor, lv);
  }

  lemma LeastAdmissible(sorted: seq<Arc>, levels: seq<nat>, k: nat, floor: nat, lv: nat)
    requires |levels| == k < |sorted| && Greedy(sorted, levels) && floor <= lv
    requires forall i :: 0 <= i < k && Overlap(sorted[k], sorted[i]) && Contained(sorted[i], sorted[k]) ==> levels[i] < floor
    requires floor == 0 || exists i :: 0 <= i < k && Overlap(sorted[k], sorted[i]) && Contained(sorted[i], sorted[k]) && levels[i] + 1 == floor
    requires !Taken(sorted, levels, sorted[k], |sorted|, lv)
    requires forall l :: floor <= l < lv ==> Taken(sorted, levels, sorted[k], |sorted|, l)
    ensures Greedy(sorted, levels + [lv])
  {
    var next := levels + [lv];
    assert next[..k] == levels;
    assert Admissible(sorted, levels, sorted[k], lv);
    forall l | 0 <= l < lv ensures !Admissible(sorted, levels, sorted[k], l) {
      if l < floor {
        var i :| 0 <= i < k && Overlap(sorted[k], sorted[i]) && Contained(sorted[i], sorted[k]) && levels[i] + 1 == floor;
      } else {
        assert Taken(sorted, levels, sorted[k], |sorted|, l);
      }
    }
    forall j | 0 <= j < k ensures next[..j] == levels[..j] {}
  }

  /** level gives every arc its greedy level. */
  ghost predicate Levelled(sorted: seq<Arc>, levels: seq<nat>, level: map<nat, nat>) {
    && |levels| == |sorted| && Greedy(sorted, levels)
    && forall i :: 0 <= i < |sorted| ==> sorted[i].idx in level && level[sorted[i].idx] == levels[i]
  }

  method BandLevels(sorted: seq<Arc>) returns (level: map<nat, nat>, ghost levels: seq<nat>)
    requires forall i, j :: 0 <= i < j < |sorted| ==> sorted[i].idx != sorted[j].idx
    ensures Levelled(sorted, levels, level)
    ensures exists ls :: Levelled(sorted, ls, level)
  {
    hide Greedy;
    level, levels := map[], [];
    EmptyGreedy(sorted);
    for k := 0 to |sorted|
      invariant |levels| == k && Greedy(sorted, levels)
      invariant forall i :: 0 <= i < |sorted| ==> (sorted[i].idx in level <==> i < k)
      invariant forall i :: 0 <= i < k ==> level[sorted[i].idx] == levels[i]
    {
      var lv := NextLevel(sorted, level, k, levels);
      level := level[sorted[k].idx := lv];
      levels := levels + [lv];
    }
    assert Levelled(sorted, levels, level);
  }

  lemma EmptyGreedy(arcs: seq<Arc>)
    ensures Greedy(arcs, [])
  {
  }

  // ---- the whole picture

  ghost predicate Fits(g: Graph, pos: seq<nat>) { g.Valid() && |pos| == |g.bandOf| }

  /** No two nodes of a band share a slot. */
  ghost predicate SlotsDiffer(g: Graph, pos: seq<nat>)
    requires |pos| == |g.bandOf|
  {
    forall m, n :: 0 <= m < n < |pos| && g.bandOf[m] == g.bandOf[n] ==> pos[m] != pos[n]
  }

  function ArcOf(g: Graph, pos: seq<nat>, i: nat): Arc
    requires i < |g.ends| && g.ends[i].from < |pos| && g.ends[i].to < |pos|
  {
    var (lo, hi) := MinMax(pos[g.ends[i].from], pos[g.ends[i].to]);
    Arc(i, lo, hi)
  }

  /** Edge i runs inside band b. */
  predicate RailOf(g: Graph, b: nat, i: nat)
    requires i < |g.ends| && g.ends[i].from < |g.bandOf| && g.ends[i].to < |g.bandOf|
  {
    g.SameBand(i) && g.bandOf[g.ends[i].from] == b
  }

  /** r lists the rails of band b among the first k edges, each once, in edge order. */
  ghost predicate ListsRails(g: Graph, pos: seq<nat>, b: nat, k: nat, r: seq<Arc>)
    requires Fits(g, pos) && k <= |g.ends|
  {
    && (forall m :: 0 <= m < |r| ==> r[m].idx < k && RailOf(g, b, r[m].idx) && r[m] == ArcOf(g, pos, r[m].idx))
    && (forall m, n :: 0 <= m < n < |r| ==> r[m].idx < r[n].idx)
    && (forall i :: 0 <= i < k && RailOf(g, b, i) ==> ArcOf(g, pos, i) in r)
  }

  lemma ListsNone(g: Graph, pos: seq<nat>, b: nat)
    requires Fits(g, pos)
    ensures ListsRails(g, pos, b, 0, [])
  {
  }

  /** r with edge k, when that is a rail of band b. */
  ghost function WithEdge(g: Graph, pos: seq<nat>, b: nat, k: nat, r: seq<Arc>): seq<Arc>
    requires Fits(g, pos) && k < |g.ends|
  {
    if RailOf(g, b, k) then r + [ArcOf(g, pos, k)] else r
  }

  lemma ListsNext(g: Graph, pos: seq<nat>, b: nat, k: nat, r: seq<Arc>)
    requires Fits(g, pos) && k < |g.ends| && ListsRails(g, pos, b, k, r)
    ensures ListsRails(g, pos, b, k + 1, WithEdge(g, pos, b, k, r))
  {
    hide RailOf;
    if RailOf(g, b, k) {
      var s := r + [ArcOf(g, pos, k)];
      assert s[|r|] == ArcOf(g, pos, k);
      forall i | 0 <= i < k + 1 && RailOf(g, b, i) ensures ArcOf(g, pos, i) in s {
        if i < k {
          var m :| 0 <= m < |r| && r[m] == ArcOf(g, pos, i);
          assert s[m] == r[m];
        }
      }
    }
  }

  ghost function BandArcs(g: Graph, pos: seq<nat>, b: nat, k: nat): (r: seq<Arc>)
    requires Fits(g, pos) && k <= |g.ends|
    ensures ListsRails(g, pos, b, k, r)
  {
    hide ListsRails, WithEdge, Fits;
    ListsNone(g, pos, b);
    if k == 0 then []
    else
      var r := BandArcs(g, pos, b, k - 1);
      ListsNext(g, pos, b, k - 1, r);
      WithEdge(g, pos, b, k - 1, r)
  }

  ghost function SortedArcs(g: Graph, pos: seq<nat>, b: nat): (r: seq<Arc>)
    requires Fits(g, pos)
    ensures Sorted(ShorterFirst(), r) && multiset(r) == multiset(BandArcs(g, pos, b, |g.ends|))
  {
    ShorterFirstIsOrder();
    SortBy(ShorterFirst(), BandArcs(g, pos, b, |g.ends|))
  }

  /** The sorted list holds exactly the rails of the band, each once. */
  lemma SortedArcsExact(g: Graph, pos: seq<nat>, b: nat)
    requires Fits(g, pos)
    ensures var r := SortedArcs(g, pos, b);
            && (forall m :: 0 <= m < |r| ==> r[m].idx < |g.ends| && RailOf(g, b, r[m].idx) && r[m] == ArcOf(g, pos, r[m].idx))
            && (forall m, n :: 0 <= m < n < |r| ==> r[m].idx != r[n].idx)
            && (forall i :: 0 <= i < |g.ends| && RailOf(g, b, i) ==> ArcOf(g, pos, i) in r)
  {
    hide RailOf, ArcOf, SortedArcs;
    var a, r := BandArcs(g, pos, b, |g.ends|), SortedArcs(g, pos, b);
    Rearranged(a, r);
    forall m | 0 <= m < |r| ensures r[m].idx < |g.ends| && RailOf(g, b, r[m].idx) && r[m] == ArcOf(g, pos, r[m].idx) {
      assert r[m] in a;
    }
    forall m, n | 0 <= m < n < |r| ensures r[m].idx != r[n].idx {
      assert r[m] != r[n];
    }
  }

  ghost predicate LevelledAs(arcs: seq<Arc>, levels: seq<nat>, depth: seq<real>) {
    && |levels| == |arcs| && Greedy(arcs, levels)
    && forall k :: 0 <= k < |arcs| ==> arcs[k].idx < |depth| && depth[arcs[k].idx] == ARC_DEPTH_BASE + levels[k] as real * ARC_DEPTH_STEP
  }

  /** The rails of band b are at the depth of their greedy level. */
  ghost predicate BandDone(g: Graph, pos: seq<nat>, b: nat, depth: seq<real>)
    requires Fits(g, pos)
  {
    exists levels :: LevelledAs(SortedArcs(g, pos, b), levels, depth)
  }

  /** Rails at the depth of their greedy level, everything else at 0. */
  ghost predicate DepthsFor(g: Graph, pos: seq<nat>, depth: seq<real>)
    requires Fits(g, pos)
  {
    && |depth| == |g.ends|
    && (forall i :: 0 <= i < |depth| && !g.SameBand(i) ==> depth[i] == 0.0)
    && forall b :: 0 <= b < g.bandCount ==> BandDone(g, pos, b, depth)
  }

  /** The two rules the depths exist for, at the level of edges. */
  lemma DepthRules(g: Graph, pos: seq<nat>, depth: seq<real>, i: nat, j: nat)
    requires Fits(g, pos) && SlotsDiffer(g, pos) && DepthsFor(g, pos, depth)
    requires i < |g.ends| && j < |g.ends| && i != j && g.SameBand(i) && g.SameBand(j)
    requires g.bandOf[g.ends[i].from] == g.bandOf[g.ends[j].from]
    ensures depth[i] >= ARC_DEPTH_BASE
    ensures Overlap(ArcOf(g, pos, i), ArcOf(g, pos, j)) ==> depth[i] != depth[j]
    ensures Contained(ArcOf(g, pos, i), ArcOf(g, pos, j)) ==> depth[i] < depth[j]
  {
    hide Greedy, SortedArcs;
    var b := g.bandOf[g.ends[i].from];
    var arcs := SortedArcs(g, pos, b);
    assert BandDone(g, pos, b, depth);
    var levels :| LevelledAs(arcs, levels, depth);
    SortedArcsExact(g, pos, b);
    assert RailOf(g, b, i) && RailOf(g, b, j);
    var m, n := IndexOf(arcs, ArcOf(g, pos, i)), IndexOf(arcs, ArcOf(g, pos, j));
    assert arcs[m].lo < arcs[m].hi;
    if Overlap(arcs[m], arcs[n]) { LevelsDistinct(arcs, levels, m, n); }
    if Contained(arcs[m], arcs[n]) { ContainerDeeper(arcs, levels, m, n); }
  }

  lemma RailDepthPositive(g: Graph, pos: seq<nat>, depth: seq<real>, i: nat)
    requires Fits(g, pos) && DepthsFor(g, pos, depth) && i < |g.ends| && g.SameBand(i)
    ensures depth[i] >= ARC_DEPTH_BASE
  {
    hide Greedy, SortedArcs;
    var b := g.bandOf[g.ends[i].from];
    assert BandDone(g, pos, b, depth);
    var levels :| LevelledAs(SortedArcs(g, pos, b), levels, depth);
    SortedArcsExact(g, pos, b);
    assert RailOf(g, b, i);
    var m := IndexOf(SortedArcs(g, pos, b), ArcOf(g, pos, i));
  }

  method Depths(g: Graph, pos: seq<nat>) returns (depth: seq<real>)
    requires Fits(g, pos)
    ensures DepthsFor(g, pos, depth)
  {
    hide BandDone;
    depth := seq(|g.ends|, _ => 0.0);
    var byBand: seq<seq<Arc>> := ByBand(g, pos);
    for b := 0 to g.bandCount
      invariant |depth| == |g.ends|
      invariant forall i :: 0 <= i < |depth| && !g.SameBand(i) ==> depth[i] == 0.0
      invariant forall c :: 0 <= c < b ==> BandDone(g, pos, c, depth)
    {
      ghost var before := depth;
      depth := OneBand(g, pos, b, byBand[b], depth);
      forall c | 0 <= c < b ensures BandDone(g, pos, c, depth) {
        OtherBandKept(g, pos, b, c, before, depth);
      }
    }
  }

  method OneBand(g: Graph, pos: seq<nat>, b: nat, arcs: seq<Arc>, depth0: seq<real>) returns (depth: seq<real>)
    requires Fits(g, pos) && |depth0| == |g.ends| && arcs == BandArcs(g, pos, b, |g.ends|)
    ensures |depth| == |depth0| && BandDone(g, pos, b, depth)
    ensures forall i :: 0 <= i < |depth| && !RailOf(g, b, i) ==> depth[i] == depth0[i]
  {
    hide Greedy, LevelledAs;
    ShorterFirstIsOrder();
    var sorted := SortBy(ShorterFirst(), arcs);
    SortedArcsExact(g, pos, b);
    var level; ghost var levels;
    level, levels := BandLevels(sorted);
    depth := WriteDepths(g, sorted, level, levels, depth0, b);
  }

  method ByBand(g: Graph, pos: seq<nat>) returns (byBand: seq<seq<Arc>>)
    requires Fits(g, pos)
    ensures |byBand| == g.bandCount
    ensures forall b :: 0 <= b < g.bandCount ==> byBand[b] == BandArcs(g, pos, b, |g.ends|)
  {
    byBand := seq(g.bandCount, _ => []);
    for i := 0 to |g.ends|
      invariant |byBand| == g.bandCount
      invariant forall b :: 0 <= b < g.bandCount ==> byBand[b] == BandArcs(g, pos, b, i)
    {
      if g.SameBand(i) {
        var b := g.bandOf[g.ends[i].from];
        byBand := byBand[b := byBand[b] + [ArcOf(g, pos, i)]];
      }
    }
  }

  method WriteDepths(g: Graph, sorted: seq<Arc>, level: map<nat, nat>, ghost levels: seq<nat>, depth0: seq<real>, ghost b: nat)
    returns (depth: seq<real>)
    requires g.Valid() && |depth0| == |g.ends| && |levels| == |sorted| && Greedy(sorted, levels)
    requires forall m :: 0 <= m < |sorted| ==> sorted[m].idx < |g.ends| && RailOf(g, b, sorted[m].idx)
    requires forall m, n :: 0 <= m < n < |sorted| ==> sorted[m].idx != sorted[n].idx
    requires forall k :: 0 <= k < |sorted| ==> sorted[k].idx in level && level[sorted[k].idx] == levels[k]
    ensures LevelledAs(sorted, levels, depth) && |depth| == |depth0|
    ensures forall i :: 0 <= i < |depth| && !RailOf(g, b, i) ==> depth[i] == depth0[i]
  {
    hide Greedy;
    depth := depth0;
    for k := 0 to |sorted|
      invariant |depth| == |depth0|
      invariant forall m :: 0 <= m < k ==> depth[sorted[m].idx] == ARC_DEPTH_BASE + levels[m] as real * ARC_DEPTH_STEP
      invariant forall i :: 0 <= i < |depth| && !RailOf(g, b, i) ==> depth[i] == depth0[i]
    {
      depth := depth[sorted[k].idx := ARC_DEPTH_BASE + level[sorted[k].idx] as real * ARC_DEPTH_STEP];
    }
  }

  lemma OtherBandKept(g: Graph, pos: seq<nat>, b: nat, c: nat, before: seq<real>, after: seq<real>)
    requires Fits(g, pos) && b != c && |before| == |after| == |g.ends|
    requires forall i :: 0 <= i < |after| && !RailOf(g, b, i) ==> after[i] == before[i]
    requires BandDone(g, pos, c, before)
    ensures BandDone(g, pos, c, after)
  {
    hide Greedy, SortedArcs;
    var levels :| LevelledAs(SortedArcs(g, pos, c), levels, before);
    SortedArcsExact(g, pos, c);
    assert LevelledAs(SortedArcs(g, pos, c), levels, after);
  }
}
