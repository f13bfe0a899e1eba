/** What one sweep of one band does, read off the edges and the slots: nodes
    settle by the mean place of the neighbours heard. */
module Sweeping {
  import opened Sorting
  import opened Bands
  import opened Ordering
  import opened Diagram
  import opened DrawnCrossings
  import opened Layouts
  import opened Census

  /** A downward sweep hears the bands above b, an upward sweep those below, and
      either may hear b itself. */
  ghost predicate Heard(g: Graph, b: nat, m: nat, down: bool, sameBand: bool) {
    && m < |g.bandOf|
    && ((down && g.bandOf[m] < b) || (!down && g.bandOf[m] > b) || (sameBand && g.bandOf[m] == b))
  }

  /** A slot as a fraction of its row; a lone node is in the middle. */
  function Across(slot: nat, size: nat): real { if size <= 1 then 0.5 else slot as real / (size - 1) as real }

  ghost function PlaceOf(g: Graph, bands: seq<seq<nat>>, pos: seq<nat>, m: nat): real
    requires m < |g.bandOf| == |pos| && g.bandOf[m] < |bands|
  {
    Across(pos[m], |bands[g.bandOf[m]]|)
  }

  ghost predicate Shaped(g: Graph, bands: seq<seq<nat>>, pos: seq<nat>) {
    g.Valid() && |bands| == g.bandCount && |pos| == |g.bandOf|
  }

  /** How many of the first k edges join n to a node that is heard. */
  ghost function HeardCount(g: Graph, b: nat, n: nat, down: bool, sameBand: bool, k: nat): nat
    requires k <= |g.ends|
  {
    if k == 0 then 0
    else
      var e := g.ends[k - 1];
      HeardCount(g, b, n, down, sameBand, k - 1)
      + (if e.from == n && Heard(g, b, e.to, down, sameBand) then 1 else 0)
      + (if e.to == n && Heard(g, b, e.from, down, sameBand) then 1 else 0)
  }

  /** The places of those nodes, added up edge by edge. */
  ghost function HeardSum(g: Graph, bands: seq<seq<nat>>, pos: seq<nat>, b: nat, n: nat, down: bool, sameBand: bool, k: nat): real
    requires Shaped(g, bands, pos) && k <= |g.ends|
  {
    if k == 0 then 0.0
    else
      var e := g.ends[k - 1];
      HeardSum(g, bands, pos, b, n, down, sameBand, k - 1)
      + (if e.from == n && Heard(g, b, e.to, down, sameBand) then PlaceOf(g, bands, pos, e.to) else 0.0)
      + (if e.to == n && Heard(g, b, e.from, down, sameBand) then PlaceOf(g, bands, pos, e.from) else 0.0)
  }

  /** The mean place of the neighbours heard, or n's own where none is. */
  ghost function MeanPlace(g: Graph, bands: seq<seq<nat>>, pos: seq<nat>, b: nat, n: nat, down: bool, sameBand: bool): real
    requires Shaped(g, bands, pos) && n < |g.bandOf|
  {
    var c := HeardCount(g, b, n, down, sameBand, |g.ends|);
    if c == 0 then PlaceOf(g, bands, pos, n) else HeardSum(g, bands, pos, b, n, down, sameBand, |g.ends|) / c as real
  }

  // ---- the mean over the adjacency list is the mean over the edges

  lemma VotersMore(g: Graph, bands: seq<seq<nat>>, pos: seq<nat>, b: nat, ns: seq<nat>, m: nat, down: bool, sameBand: bool)
    requires Shaped(g, bands, pos) && m < |g.bandOf| && forall i :: 0 <= i < |ns| ==> ns[i] < |g.bandOf|
    ensures var vs, vs' := Voters(g, b, ns, down, sameBand), Voters(g, b, ns + [m], down, sameBand);
            if Heard(g, b, m, down, sameBand)
            then |vs'| == |vs| + 1 && SumPos(g, bands, pos, vs') == SumPos(g, bands, pos, vs) + PlaceOf(g, bands, pos, m)
            else vs' == vs
  {
    hide Voters, SumPos;
    VotersStep(g, bands, pos, b, ns + [m], |ns|, down, sameBand);
    assert (ns + [m])[..|ns|] == ns && (ns + [m])[..|ns| + 1] == ns + [m];
  }

  lemma {:induction false} VotersAreHeard(g: Graph, bands: seq<seq<nat>>, pos: seq<nat>, b: nat, n: nat, down: bool, sameBand: bool, k: nat)
    requires Shaped(g, bands, pos) && k <= |g.ends|
    ensures forall i :: 0 <= i < |Neighbours(g.ends, n, k)| ==> Neighbours(g.ends, n, k)[i] < |g.bandOf|
    ensures var vs := Voters(g, b, Neighbours(g.ends, n, k), down, sameBand);
            |vs| == HeardCount(g, b, n, down, sameBand, k) && SumPos(g, bands, pos, vs) == HeardSum(g, bands, pos, b, n, down, sameBand, k)
  {
    hide Voters, SumPos, PlaceOf, Heard;
    if k == 0 {
      VotersNone(g, bands, pos, b, down, sameBand);
    } else {
      VotersAreHeard(g, bands, pos, b, n, down, sameBand, k - 1);
      var e, ns := g.ends[k - 1], Neighbours(g.ends, n, k - 1);
      if e.from == n {
        VotersMore(g, bands, pos, b, ns, e.to, down, sameBand);
        assert Neighbours(g.ends, n, k) == ns + [e.to];
      } else if e.to == n {
        VotersMore(g, bands, pos, b, ns, e.from, down, sameBand);
        assert Neighbours(g.ends, n, k) == ns + [e.from];
      } else {
        assert Neighbours(g.ends, n, k) == ns;
      }
    }
  }

  lemma BarycentreIsMean(g: Graph, bands: seq<seq<nat>>, b: nat, n: nat, down: bool, sameBand: bool)
    requires g.Valid() && IsOrdering(g, bands) && Adjacency(|g.bandOf|, g.ends, g.adj) && n < |g.bandOf|
    ensures Shaped(g, bands, Slots(g, bands))
    ensures Barycentre(g, bands, b, n, down, sameBand) == MeanPlace(g, bands, Slots(g, bands), b, n, down, sameBand)
  {
    hide Voters, SumPos, HeardCount, HeardSum, NoDup, Slots, Neighbours;
    VotersAreHeard(g, bands, Slots(g, bands), b, n, down, sameBand, |g.ends|);
  }

  // ---- a re-ordered band, left to right

  /** Pinning the subject leaves the others in the order they had. */
  lemma PinOrder(nodes: seq<nat>, subject: int, j: nat, k: nat) returns (p: nat, q: nat)
    requires j < k < |nodes| && Pin(nodes, subject)[j] != subject && Pin(nodes, subject)[k] != subject
    ensures p < q < |nodes| && nodes[p] == Pin(nodes, subject)[j] && nodes[q] == Pin(nodes, subject)[k]
  {
    if subject < 0 || subject !in nodes {
      p, q := j, k;
    } else {
      hide Pin;
      var at, want := IndexOf(nodes, subject), |nodes| / 2;
      PinIs(nodes, subject, Without(nodes, at));
      assert Pin(nodes, subject)[want] == subject;
      p := Came(nodes, at, want, j);
      q := Came(nodes, at, want, k);
    }
  }

  /** Where the j-th of the pinned nodes came from. */
  lemma Came(nodes: seq<nat>, at: nat, want: nat, j: nat) returns (p: nat)
    requires at < |nodes| && want < |nodes| && j < |nodes| && j != want
    ensures |Without(nodes, at)| == |nodes| - 1
    ensures var i := if j < want then j else j - 1; p == (if i < at then i else i + 1)
    ensures p < |nodes| && nodes[p] == (Without(nodes, at)[..want] + [nodes[at]] + Without(nodes, at)[want..])[j]
  {
    var i := if j < want then j else j - 1;
    p := if i < at then i else i + 1;
  }

  /** The place a keyed node had before the band was re-ordered. */
  function OldPlace(pos: seq<nat>): Keyed -> int { (q: Keyed) => if q.node < |pos| then pos[q.node] else 0 }

  lemma KeysInPlace(g: Graph, bands: seq<seq<nat>>, b: nat, down: bool, sameBand: bool)
    requires g.Valid() && IsOrdering(g, bands) && b < |bands|
    ensures var keys := Keys(g, bands, b, down, sameBand);
            && (forall i :: 0 <= i < |keys| ==> keys[i].node < |g.bandOf| && keys[i].bary == Barycentre(g, bands, b, keys[i].node, down, sameBand))
            && (forall i, j :: 0 <= i < j < |keys| ==> OldPlace(Slots(g, bands))(keys[i]) < OldPlace(Slots(g, bands))(keys[j]))
  {
    hide Barycentre, Slots, NoDup;
    SlotsInvert(g, bands, Slots(g, bands));
  }

  /** The sorted keys of a band, before the subject is pinned. */
  lemma SortedKeys(g: Graph, bands: seq<seq<nat>>, b: nat, down: bool, sameBand: bool) returns (sorted: seq<Keyed>)
    requires g.Valid() && IsOrdering(g, bands) && b < |bands| && |bands[b]| >= 2
    ensures Step(g, bands, b, down, sameBand)[b] == Pin(Nodes(sorted), g.subject) && |sorted| == |bands[b]|
    ensures forall q :: q in sorted ==> q.node < |g.bandOf| && q.bary == Barycentre(g, bands, b, q.node, down, sameBand)
    ensures forall i, j :: 0 <= i < j < |sorted| ==>
              || sorted[i].bary < sorted[j].bary
              || (sorted[i].bary == sorted[j].bary && OldPlace(Slots(g, bands))(sorted[i]) < OldPlace(Slots(g, bands))(sorted[j]))
  {
    hide Barycentre, Slots, Pin, NoDup;
    var keys := Keys(g, bands, b, down, sameBand);
    LessBaryIsOrder();
    sorted := SortBy(LessBary(), keys);
    KeysInPlace(g, bands, b, down, sameBand);
    SortWithin(LessBary(), OldPlace(Slots(g, bands)), keys);
    Rearranged(sorted, keys);
    hide IsOrdering;
    assert Step(g, bands, b, down, sameBand)[b] == Swept(g, bands, b, down, sameBand);
  }

  /** One step of a sweep: of any two nodes but the subject, the one with the
      smaller mean goes left, and of equal means the one that was left stays left. */
  lemma SweptOrder(g: Graph, bands: seq<seq<nat>>, b: nat, down: bool, sameBand: bool, j: nat, k: nat)
    requires g.Valid() && IsOrdering(g, bands) && Adjacency(|g.bandOf|, g.ends, g.adj) && b < |bands|
    requires j < k < |bands[b]|
    ensures Shaped(g, bands, Slots(g, bands)) && |Step(g, bands, b, down, sameBand)[b]| == |bands[b]|
    ensures var r, pos := Step(g, bands, b, down, sameBand), Slots(g, bands);
            var x, y := r[b][j], r[b][k];
            && x < |pos| && y < |pos|
            && (x != g.subject && y != g.subject ==>
                  var m, n := MeanPlace(g, bands, pos, b, x, down, sameBand), MeanPlace(g, bands, pos, b, y, down, sameBand);
                  m < n || (m == n && pos[x] < pos[y]))
  {
    hide Barycentre, Slots, MeanPlace, Adjacency, Pin, IsOrdering, Step;
    var sorted := SortedKeys(g, bands, b, down, sameBand);
    var r := Step(g, bands, b, down, sameBand)[b];
    SwappedNodes(g, bands, b, down, sameBand, j);
    SwappedNodes(g, bands, b, down, sameBand, k);
    SlotsLength(g, bands);
    if r[j] != g.subject && r[k] != g.subject {
      var p, q := PinOrder(Nodes(sorted), g.subject, j, k);
      assert sorted[p] in sorted && sorted[q] in sorted;
      BarycentreIsMean(g, bands, b, r[j], down, sameBand);
      BarycentreIsMean(g, bands, b, r[k], down, sameBand);
    }
  }

  lemma SwappedNodes(g: Graph, bands: seq<seq<nat>>, b: nat, down: bool, sameBand: bool, j: nat)
    requires g.Valid() && IsOrdering(g, bands) && b < |bands| && j < |bands[b]|
    ensures |Step(g, bands, b, down, sameBand)| == |bands| == g.bandCount && |Step(g, bands, b, down, sameBand)[b]| == |bands[b]|
    ensures Step(g, bands, b, down, sameBand)[b][j] < |g.bandOf|
  {
    hide NoDup, Step;
    var r := Step(g, bands, b, down, sameBand);
    assert |multiset(r[b])| == |multiset(bands[b])|;
  }

  // ---- nodes that hang by a single edge

  predicate Touches(e: Ends, n: nat) { e.from == n || e.to == n }

  function FarEnd(e: Ends, n: nat): nat { if e.from == n then e.to else e.from }

  /** Edge i ties n to a node of band a, and no other edge of n is heard. */
  ghost predicate OnlyTie(g: Graph, b: nat, n: nat, i: nat, a: nat, down: bool) {
    && i < |g.ends| && Touches(g.ends[i], n) && FarEnd(g.ends[i], n) < |g.bandOf| && g.bandOf[FarEnd(g.ends[i], n)] == a
    && forall k :: 0 <= k < |g.ends| && k != i && Touches(g.ends[k], n) ==> !Heard(g, b, FarEnd(g.ends[k], n), down, false)
  }

  lemma {:induction false} TieIsMean(g: Graph, bands: seq<seq<nat>>, pos: seq<nat>, b: nat, n: nat, i: nat, a: nat, down: bool, k: nat)
    requires Shaped(g, bands, pos) && OnlyTie(g, b, n, i, a, down) && k <= |g.ends| && (if down then a < b else a > b)
    ensures HeardCount(g, b, n, down, false, k) == if i < k then 1 else 0
    ensures HeardSum(g, bands, pos, b, n, down, false, k) == if i < k then PlaceOf(g, bands, pos, FarEnd(g.ends[i], n)) else 0.0
  {
    hide PlaceOf;
    if k > 0 {
      TieIsMean(g, bands, pos, b, n, i, a, down, k - 1);
      assert g.ends[k - 1].from != g.ends[k - 1].to;
      assert k - 1 != i && Touches(g.ends[k - 1], n) ==> !Heard(g, b, FarEnd(g.ends[k - 1], n), down, false);
    }
  }

  /** An edge from x, in band b, to u, in band a. */
  ghost predicate Spans(g: Graph, i: nat, x: nat, b: nat, u: nat, a: nat) {
    && i < |g.ends| && x < |g.bandOf| && u < |g.bandOf| && g.bandOf[x] == b && g.bandOf[u] == a
    && (g.ends[i] == Ends(x, u) || g.ends[i] == Ends(u, x))
  }

  /** Of two nodes of a band that each have exactly one edge to one side, both to
      the same band, re-ordering the band by that side leaves the edges in the same
      order at both ends: downward sweeps untangle what hangs from above, upward
      sweeps what stands on something below. */
  lemma SweptUncrossed(g: Graph, bands: seq<seq<nat>>, b: nat, a: nat, down: bool, i: nat, x: nat, u: nat, j: nat, y: nat, v: nat)
    requires g.Valid() && IsOrdering(g, bands) && Adjacency(|g.bandOf|, g.ends, g.adj) && b < |bands|
    requires x != g.subject && y != g.subject && (if down then a < b else a > b)
    requires Spans(g, i, x, b, u, a) && Spans(g, j, y, b, v, a) && OnlyTie(g, b, x, i, a, down) && OnlyTie(g, b, y, j, a, down)
    ensures |Slots(g, Step(g, bands, b, down, false))| == |g.bandOf|
    ensures var pos := Slots(g, Step(g, bands, b, down, false)); pos[x] < pos[y] ==> pos[u] <= pos[v]
  {
    hide Slots, Adjacency, OnlyTie, IsOrdering, Step, HeardCount, HeardSum, PlaceOf;
    var r := Step(g, bands, b, down, false);
    var pos, old_ := Slots(g, r), Slots(g, bands);
    if pos[x] < pos[y] {
      SlotIn(g, bands, x);
      SwappedNodes(g, bands, b, down, false, 0);
      SlotIn(g, r, x);
      SlotIn(g, r, y);
      SweptOrder(g, bands, b, down, false, pos[x], pos[y]);
      TieIsMean(g, bands, old_, b, x, i, a, down, |g.ends|);
      TieIsMean(g, bands, old_, b, y, j, a, down, |g.ends|);
      OtherSlots(g, bands, b, down, u);
      OtherSlots(g, bands, b, down, v);
      SlotIn(g, bands, u);
      SlotIn(g, bands, v);
      PlaceOrder(g, bands, old_, u, v);
    }
  }

  lemma SlotIn(g: Graph, bands: seq<seq<nat>>, n: nat)
    requires IsOrdering(g, bands) && n < |g.bandOf|
    ensures g.bandOf[n] < |bands| && Slots(g, bands)[n] < |bands[g.bandOf[n]]| && bands[g.bandOf[n]][Slots(g, bands)[n]] == n
  {
    hide NoDup;
  }

  /** Nodes outside the band keep their slots. */
  lemma OtherSlots(g: Graph, bands: seq<seq<nat>>, b: nat, down: bool, n: nat)
    requires g.Valid() && IsOrdering(g, bands) && b < |bands| && n < |g.bandOf| && g.bandOf[n] != b
    ensures Slots(g, Step(g, bands, b, down, false))[n] == Slots(g, bands)[n]
  {
    hide NoDup, Swept, IndexOf;
    assert Step(g, bands, b, down, false)[g.bandOf[n]] == bands[g.bandOf[n]];
  }

  lemma PlaceOrder(g: Graph, bands: seq<seq<nat>>, pos: seq<nat>, u: nat, v: nat)
    requires Shaped(g, bands, pos) && u < |g.bandOf| && v < |g.bandOf| && g.bandOf[u] == g.bandOf[v]
    requires pos[u] < |bands[g.bandOf[u]]| && pos[v] < |bands[g.bandOf[u]]|
    requires PlaceOf(g, bands, pos, u) <= PlaceOf(g, bands, pos, v)
    ensures pos[u] <= pos[v]
  {
    var size := |bands[g.bandOf[u]]|;
    if size > 1 && pos[u] > pos[v] { Fractions(pos[v], pos[u], size - 1); }
  }

  lemma Fractions(p: nat, q: nat, d: nat)
    requires p < q && d > 0
    ensures p as real / d as real < q as real / d as real
  {
  }

  // ---- forests

  function Top(g: Graph, i: nat): (n: nat)
    requires g.Valid() && i < |g.ends|
    ensures n < |g.bandOf|
  {
    UpperLower(g, g.ends[i]).0
  }

  function Foot(g: Graph, i: nat): (n: nat)
    requires g.Valid() && i < |g.ends|
    ensures n < |g.bandOf|
  {
    UpperLower(g, g.ends[i]).1
  }

  /** No edge stays in its band, and no node has two edges to bands above it. */
  ghost predicate Forest(g: Graph)
    requires g.Valid()
  {
    && (forall i :: 0 <= i < |g.ends| ==> !g.SameBand(i))
    && (forall i, j :: 0 <= i < j < |g.ends| ==> Foot(g, i) != Foot(g, j))
  }

  lemma FootHangs(g: Graph, i: nat)
    requires g.Valid() && Forest(g) && i < |g.ends|
    ensures var b, a := g.bandOf[Foot(g, i)], g.bandOf[Top(g, i)];
            a < b && Spans(g, i, Foot(g, i), b, Top(g, i), a) && OnlyTie(g, b, Foot(g, i), i, a, true)
  {
    var n, b := Foot(g, i), g.bandOf[Foot(g, i)];
    assert !g.SameBand(i);
    forall k | 0 <= k < |g.ends| && k != i && Touches(g.ends[k], n) ensures !Heard(g, b, FarEnd(g.ends[k], n), true, false) {
      if k < i { assert Foot(g, k) != Foot(g, i); } else { assert Foot(g, i) != Foot(g, k); }
    }
  }

  /** Edges i and j join the same two bands and lie in one order at both ends. */
  ghost predicate Parallel(g: Graph, pos: seq<nat>, i: nat, j: nat)
    requires g.Valid() && i < |g.ends| && j < |g.ends| && |pos| == |g.bandOf|
  {
    g.bandOf[Foot(g, i)] == g.bandOf[Foot(g, j)] && g.bandOf[Top(g, i)] == g.bandOf[Top(g, j)]
    ==> (pos[Foot(g, i)] < pos[Foot(g, j)] ==> pos[Top(g, i)] <= pos[Top(g, j)])
  }

  /** Everything that hangs into the first k bands is untangled. */
  ghost predicate Untangled(g: Graph, pos: seq<nat>, k: nat)
    requires g.Valid() && |pos| == |g.bandOf|
  {
    forall i, j :: 0 <= i < |g.ends| && 0 <= j < |g.ends| && g.bandOf[Foot(g, i)] < k ==> Parallel(g, pos, i, j)
  }

  lemma StepParallel(g: Graph, bands: seq<seq<nat>>, b: nat, i: nat, j: nat)
    requires g.Valid() && IsOrdering(g, bands) && Adjacency(|g.bandOf|, g.ends, g.adj) && Forest(g) && g.subject < 0
    requires b < |bands| && i < |g.ends| && j < |g.ends| && g.bandOf[Foot(g, i)] <= b
    requires |Slots(g, bands)| == |g.bandOf| && (g.bandOf[Foot(g, i)] < b ==> Parallel(g, Slots(g, bands), i, j))
    ensures |Slots(g, Step(g, bands, b, true, false))| == |g.bandOf|
    ensures Parallel(g, Slots(g, Step(g, bands, b, true, false)), i, j)
  {
    hide Slots, Adjacency, Forest, OnlyTie, IsOrdering, Step, Foot, Top, Spans;
    FootHangs(g, i);
    FootHangs(g, j);
    var c, a := g.bandOf[Foot(g, i)], g.bandOf[Top(g, i)];
    if g.bandOf[Foot(g, j)] == c && g.bandOf[Top(g, j)] == a {
      if c == b {
        SweptUncrossed(g, bands, b, a, true, i, Foot(g, i), Top(g, i), j, Foot(g, j), Top(g, j));
      } else {
        OtherSlots(g, bands, b, true, Foot(g, i));
        OtherSlots(g, bands, b, true, Foot(g, j));
        OtherSlots(g, bands, b, true, Top(g, i));
        OtherSlots(g, bands, b, true, Top(g, j));
      }
    }
  }

  lemma {:induction false} SweepUntangles(g: Graph, bands: seq<seq<nat>>, k: nat)
    requires g.Valid() && IsOrdering(g, bands) && Adjacency(|g.bandOf|, g.ends, g.adj) && Forest(g) && g.subject < 0 && k <= |bands|
    ensures |Slots(g, Sweep(g, bands, true, false, k))| == |g.bandOf|
    ensures Untangled(g, Slots(g, Sweep(g, bands, true, false, k)), k)
  {
    hide Slots, Adjacency, Forest, IsOrdering, Step, Foot, Top, Parallel;
    if k > 0 {
      SweepUntangles(g, bands, k - 1);
      var p := Sweep(g, bands, true, false, k - 1);
      assert Sweep(g, bands, true, false, k) == Step(g, p, k - 1, true, false);
      forall i, j | 0 <= i < |g.ends| && 0 <= j < |g.ends| && g.bandOf[Foot(g, i)] < k
        ensures Parallel(g, Slots(g, Sweep(g, bands, true, false, k)), i, j)
      {
        StepParallel(g, p, k - 1, i, j);
      }
    }
  }

  lemma ParallelNotCrossing(g: Graph, pos: seq<nat>, i: nat, j: nat)
    requires g.Valid() && |pos| == |g.bandOf| && i < |g.ends| && j < |g.ends| && !g.SameBand(i) && !g.SameBand(j)
    requires Parallel(g, pos, i, j) && Parallel(g, pos, j, i)
    ensures !Crosses(g, pos, g.ends[i], g.ends[j])
  {
    if g.bandOf[Foot(g, i)] == g.bandOf[Foot(g, j)] && g.bandOf[Top(g, i)] == g.bandOf[Top(g, j)] {
      NotOpposed(pos[Top(g, i)], pos[Top(g, j)], pos[Foot(g, i)], pos[Foot(g, j)]);
    }
  }

  lemma NotOpposed(a: int, b: int, c: int, d: int)
    requires (c < d ==> a <= b) && (d < c ==> b <= a)
    ensures (a - b) * (c - d) >= 0
  {
  }

  /** A forest without a subject is untangled by the first pass, so it is reported,
      and kept, without a crossing. */
  lemma ForestUncrossed(g: Graph, seed: seq<seq<nat>>, k: int)
    requires g.Valid() && IsOrdering(g, seed) && Adjacency(|g.bandOf|, g.ends, g.adj) && Forest(g) && g.subject < 0 && FirstBest(g, seed, k)
    ensures 0 <= k <= 1 && Score(g, Candidate(g, seed, k)) == 0
  {
    hide Slots, Adjacency, IsOrdering, Sweep, Score, Untangled, Forest;
    CandidateSteps(g, seed, 0);
    UnseededStays(g, seed, |seed|);
    SweepUntangles(g, seed, |seed|);
    SlotsLength(g, seed);
    UntangledScore(g, Candidate(g, seed, 1));
  }

  lemma UntangledScore(g: Graph, bands: seq<seq<nat>>)
    requires g.Valid() && IsOrdering(g, bands) && Forest(g) && |Slots(g, bands)| == |g.bandOf| && Untangled(g, Slots(g, bands), |bands|)
    ensures Score(g, bands) == 0
  {
    hide Slots, Foot, Top, Score, Parallel, Crosses;
    var pos := Slots(g, bands);
    forall i, j | 0 <= i < j < |g.ends| ensures !CrossingPair(g, pos)(i, j) {
      SlotsLength(g, bands);
      assert Parallel(g, pos, i, j) && Parallel(g, pos, j, i);
      ParallelNotCrossing(g, pos, i, j);
    }
    NoPairs(CrossingPair(g, pos), |g.ends|, |g.ends|);
    ScoreOf(g, bands);
  }

  lemma ScoreOf(g: Graph, bands: seq<seq<nat>>)
    requires g.Valid() && IsOrdering(g, bands) && |Slots(g, bands)| == |g.bandOf|
    ensures Score(g, bands) == SlotCrossings(g, Slots(g, bands))
  {
  }

  /** Drawn from its best order, such a forest has no crossing counted, and where
      its edges join neighbouring bands none in the picture either. */
  lemma ForestDrawn(l: Layout, seed: seq<seq<nat>>, k: int)
    requires Placed(l) && l.g.Valid() && IsOrdering(l.g, seed) && Adjacency(|l.g.bandOf|, l.g.ends, l.g.adj) && Forest(l.g) && l.g.subject < 0
    requires FirstBest(l.g, seed, k) && 0 <= k && l.bands == Candidate(l.g, seed, k)
    ensures |l.pos| == |l.g.bandOf| && |l.lines| == |l.g.ends|
    ensures SlotCrossings(l.g, l.pos) == 0 && (AllAdjacent(l.g) ==> DrawnCount(l) == 0)
  {
    hide Placed, Adjacency, FirstBest, Candidate, SlotCrossings, AllAdjacent, DrawnCount, MergedCount, UncountedCount, IsOrdering;
    ForestUncrossed(l.g, seed, k);
    ObjectiveAgainstCensus(l);
    PlacedSlots(l);
    ScoreOf(l.g, l.bands);
    hide Score;
  }

  lemma PlacedSlots(l: Layout)
    requires Placed(l)
    ensures l.g.Valid() && IsOrdering(l.g, l.bands) && l.pos == Slots(l.g, l.bands)
  {
    hide Slots, IsOrdering, RowsPlaced, LanesFit, BandsStacked, EdgePlaced;
  }
}
