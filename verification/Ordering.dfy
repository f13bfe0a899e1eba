/** Crossing reduction: the twelve-pass barycentre sweep over the bands. */
module Ordering {
  import opened Sorting
  import opened Bands

  const MAX_PASSES: nat := 12

  datatype Crossings = Crossings(before: nat, after: nat)
  datatype Keyed = Keyed(node: nat, bary: real)

  // ---- one band, as functions of the ordering

  predicate Votes(mb: nat, b: nat, down: bool, sameBand: bool) {
    if mb == b then sameBand else if down then mb < b else mb > b
  }

  function NormPos(g: Graph, bands: seq<seq<nat>>, pos: seq<nat>, n: nat): real
    requires n < |g.bandOf| == |pos| && g.bandOf[n] < |bands|
  {
    var size := |bands[g.bandOf[n]]|;
    if size <= 1 then 0.5 else pos[n] as real / (size - 1) as real
  }

  /** The neighbours of n that vote on band b. */
  function Voters(g: Graph, b: nat, ns: seq<nat>, down: bool, sameBand: bool): (r: seq<nat>)
    requires forall k :: 0 <= k < |ns| ==> ns[k] < |g.bandOf|
    ensures forall k :: 0 <= k < |r| ==> r[k] < |g.bandOf|
  {
    if ns == [] then []
    else
      var rest := Voters(g, b, ns[..|ns| - 1], down, sameBand);
      var m := ns[|ns| - 1];
      if Votes(g.bandOf[m], b, down, sameBand) then rest + [m] else rest
  }

  ghost function SumPos(g: Graph, bands: seq<seq<nat>>, pos: seq<nat>, ns: seq<nat>): real
    requires |pos| == |g.bandOf| && forall k :: 0 <= k < |ns| ==> ns[k] < |g.bandOf| && g.bandOf[ns[k]] < |bands|
  {
    if ns == [] then 0.0 else SumPos(g, bands, pos, ns[..|ns| - 1]) + NormPos(g, bands, pos, ns[|ns| - 1])
  }

  lemma Shapes(g: Graph, bands: seq<seq<nat>>, pos: seq<nat>)
    requires g.Valid() && IsOrdering(g, bands) && pos == Slots(g, bands)
    ensures |pos| == |g.bandOf| && forall n :: 0 <= n < |g.bandOf| ==> g.bandOf[n] < |bands|
  {
    hide Slots, NoDup;
  }

  lemma VotersNone(g: Graph, bands: seq<seq<nat>>, pos: seq<nat>, b: nat, down: bool, sameBand: bool)
    requires |pos| == |g.bandOf|
    ensures Voters(g, b, [], down, sameBand) == [] && SumPos(g, bands, pos, []) == 0.0
  {
  }

  /** One more neighbour looked at. */
  lemma VotersStep(g: Graph, bands: seq<seq<nat>>, pos: seq<nat>, b: nat, ns: seq<nat>, k: nat, down: bool, sameBand: bool)
    requires |pos| == |g.bandOf| && k < |ns|
    requires forall n :: 0 <= n < |g.bandOf| ==> g.bandOf[n] < |bands|
    requires forall i :: 0 <= i < |ns| ==> ns[i] < |g.bandOf|
    ensures var vs, vs' := Voters(g, b, ns[..k], down, sameBand), Voters(g, b, ns[..k + 1], down, sameBand);
            if Votes(g.bandOf[ns[k]], b, down, sameBand)
            then |vs'| == |vs| + 1 && SumPos(g, bands, pos, vs') == SumPos(g, bands, pos, vs) + NormPos(g, bands, pos, ns[k])
            else vs' == vs
  {
    hide NormPos;
    assert ns[..k + 1][..k] == ns[..k];
    var vs := Voters(g, b, ns[..k], down, sameBand);
    assert (vs + [ns[k]])[..|vs|] == vs;
  }

  /** Mean position of the voting neighbours, or the node's own when it has none. */
  ghost function Barycentre(g: Graph, bands: seq<seq<nat>>, b: nat, n: nat, down: bool, sameBand: bool): real
    requires g.Valid() && IsOrdering(g, bands) && n < |g.bandOf|
  {
    var pos := Slots(g, bands);
    var vs := Voters(g, b, g.adj[n], down, sameBand);
    if vs == [] then NormPos(g, bands, pos, n) else SumPos(g, bands, pos, vs) / |vs| as real
  }

  function LessBary(): (Keyed, Keyed) -> bool { (a: Keyed, b: Keyed) => a.bary < b.bary }

  lemma LessBaryIsOrder()
    ensures IsOrder(LessBary())
  {
  }

  /** The subject moved to the middle slot, everything else in the order it had. */
  function Pin(nodes: seq<nat>, subject: int): (r: seq<nat>)
    ensures |r| == |nodes|
  {
    if subject < 0 || subject !in nodes then nodes
    else
      var want := |nodes| / 2;
      var rest := Without(nodes, IndexOf(nodes, subject));
      rest[..want] + [subject] + rest[want..]
  }

  lemma PinKeeps(nodes: seq<nat>, subject: int)
    ensures multiset(Pin(nodes, subject)) == multiset(nodes)
    ensures subject in nodes ==> Pin(nodes, subject)[|nodes| / 2] == subject
  {
    if subject >= 0 && subject in nodes {
      hide Without, IndexOf;
      var at, want := IndexOf(nodes, subject), |nodes| / 2;
      WithoutCounts(nodes, at);
      WithoutShorter(nodes, at);
      PutBack(Without(nodes, at), want, nodes[at]);
      assert nodes[at] in multiset(nodes);
    }
  }

  lemma PinIs(nodes: seq<nat>, subject: nat, rest: seq<nat>)
    requires subject in nodes && rest == Without(nodes, IndexOf(nodes, subject))
    ensures |rest| == |nodes| - 1 && Pin(nodes, subject) == rest[..|nodes| / 2] + [subject] + rest[|nodes| / 2..]
  {
    hide IndexOf, Without;
    WithoutShorter(nodes, IndexOf(nodes, subject));
  }

  lemma PinInPlace(nodes: seq<nat>, subject: nat)
    requires subject in nodes && IndexOf(nodes, subject) == |nodes| / 2
    ensures Pin(nodes, subject) == nodes
  {
    hide IndexOf, Pin;
    InPlace(nodes, |nodes| / 2);
    PinIs(nodes, subject, Without(nodes, |nodes| / 2));
  }

  lemma InPlace(nodes: seq<nat>, k: nat)
    requires k < |nodes|
    ensures var rest := nodes[..k] + nodes[k + 1..]; rest[..k] + [nodes[k]] + rest[k..] == nodes
  {
    var rest := nodes[..k] + nodes[k + 1..];
    assert rest[..k] == nodes[..k] && rest[k..] == nodes[k + 1..];
    assert nodes == nodes[..k] + [nodes[k]] + nodes[k + 1..];
  }

  lemma PinAbsent(nodes: seq<nat>, subject: int)
    requires subject < 0 || subject !in nodes
    ensures Pin(nodes, subject) == nodes
  {
  }

  lemma PutBack(rest: seq<nat>, want: nat, x: nat)
    requires want <= |rest|
    ensures multiset(rest[..want] + [x] + rest[want..]) == multiset(rest) + multiset{x}
    ensures (rest[..want] + [x] + rest[want..])[want] == x
  {
    assert rest == rest[..want] + rest[want..];
  }

  // ---- one band re-ordered

  ghost function Keys(g: Graph, bands: seq<seq<nat>>, b: nat, down: bool, sameBand: bool): (r: seq<Keyed>)
    requires g.Valid() && IsOrdering(g, bands) && b < |bands|
    ensures |r| == |bands[b]| && forall i :: 0 <= i < |r| ==> r[i].node == bands[b][i]
  {
    seq(|bands[b]|, i requires 0 <= i < |bands[b]| =>
      Keyed(bands[b][i], Barycentre(g, bands, b, bands[b][i], down, sameBand)))
  }

  function Nodes(keys: seq<Keyed>): (r: seq<nat>)
    ensures |r| == |keys| && forall i :: 0 <= i < |r| ==> r[i] == keys[i].node
  {
    seq(|keys|, i requires 0 <= i < |keys| => keys[i].node)
  }

  ghost function Swept(g: Graph, bands: seq<seq<nat>>, b: nat, down: bool, sameBand: bool): seq<nat>
    requires g.Valid() && IsOrdering(g, bands) && b < |bands|
  {
    if |bands[b]| < 2 then bands[b]
    else
      LessBaryIsOrder();
      Pin(Nodes(SortBy(LessBary(), Keys(g, bands, b, down, sameBand))), g.subject)
  }

  /** Taking one entry out of a keyed list takes one node out of its nodes. */
  lemma NodesWithout(b: seq<Keyed>, k: nat)
    requires k < |b|
    ensures multiset(Nodes(b)) == multiset{b[k].node} + multiset(Nodes(Without(b, k)))
  {
    var n := Nodes(b);
    assert n == n[..k] + [n[k]] + n[k + 1..];
    assert Nodes(Without(b, k)) == n[..k] + n[k + 1..];
  }

  lemma {:induction false} NodesRearranged(a: seq<Keyed>, b: seq<Keyed>)
    requires multiset(a) == multiset(b)
    ensures multiset(Nodes(a)) == multiset(Nodes(b))
    decreases |a|
  {
    hide Nodes, Without, IndexOf, NoDup;
    Rearranged(a, b);
    if a == [] {
      assert a == b;
    } else {
      assert a[0] in b;
      var k := IndexOf(b, a[0]);
      WithoutCounts(a, 0);
      WithoutCounts(b, k);
      WithoutShorter(a, 0);
      NodesRearranged(Without(a, 0), Without(b, k));
      NodesWithout(a, 0);
      NodesWithout(b, k);
    }
  }

  /** The re-ordered band, before the subject is pinned, is a rearrangement. */
  lemma SweptIs(g: Graph, bands: seq<seq<nat>>, b: nat, down: bool, sameBand: bool) returns (sorted: seq<nat>)
    requires g.Valid() && IsOrdering(g, bands) && b < |bands|
    ensures multiset(sorted) == multiset(bands[b])
    ensures Swept(g, bands, b, down, sameBand) == if |bands[b]| < 2 then bands[b] else Pin(sorted, g.subject)
  {
    hide IsOrdering, Barycentre, Pin;
    sorted := bands[b];
    if |bands[b]| >= 2 {
      var keys := Keys(g, bands, b, down, sameBand);
      LessBaryIsOrder();
      sorted := Nodes(SortBy(LessBary(), keys));
      NodesRearranged(SortBy(LessBary(), keys), keys);
      assert Nodes(keys) == bands[b];
    }
  }

  /** Nodes with equal barycentres keep the order the band had. */
  lemma SweptStable(g: Graph, bands: seq<seq<nat>>, b: nat, down: bool, sameBand: bool, bary: real)
    requires g.Valid() && IsOrdering(g, bands) && b < |bands| && |bands[b]| >= 2
    ensures IsOrder(LessBary())
    ensures var keys := Keys(g, bands, b, down, sameBand); var sorted := SortBy(LessBary(), keys);
            && Swept(g, bands, b, down, sameBand) == Pin(Nodes(sorted), g.subject)
            && WithBary(sorted, bary) == WithBary(keys, bary)
  {
    hide IsOrdering, Barycentre, Pin;
    LessBaryIsOrder();
    var keys := Keys(g, bands, b, down, sameBand);
    SortStable(LessBary(), Keyed(0, bary), keys);
    TiesAreBary(keys, bary);
    TiesAreBary(SortBy(LessBary(), keys), bary);
  }

  /** The nodes of s with the given barycentre, in the order of s. */
  function WithBary(s: seq<Keyed>, bary: real): seq<nat> {
    if s == [] then [] else (if s[0].bary == bary then [s[0].node] else []) + WithBary(s[1..], bary)
  }

  lemma {:induction false} TiesAreBary(s: seq<Keyed>, bary: real)
    ensures WithBary(s, bary) == Nodes(Ties(LessBary(), Keyed(0, bary), s))
  {
    hide Nodes, Ties;
    var x := Keyed(0, bary);
    if s == [] {
      NoTies(LessBary(), x);
      NodesCons(s);
    } else {
      TiesAreBary(s[1..], bary);
      assert s == [s[0]] + s[1..];
      TiesCons(LessBary(), x, s[0], s[1..]);
      var ties := Ties(LessBary(), x, s[1..]);
      assert [s[0]] + ties != [] && ([s[0]] + ties)[1..] == ties && [] + ties == ties;
      NodesCons([s[0]] + ties);
    }
  }

  lemma NodesCons(s: seq<Keyed>)
    ensures Nodes(s) == if s == [] then [] else [s[0].node] + Nodes(s[1..])
  {
  }

  lemma SweptKeeps(g: Graph, bands: seq<seq<nat>>, b: nat, down: bool, sameBand: bool)
    requires g.Valid() && IsOrdering(g, bands) && b < |bands|
    ensures multiset(Swept(g, bands, b, down, sameBand)) == multiset(bands[b])
  {
    hide IsOrdering, Swept, Pin;
    var sorted := SweptIs(g, bands, b, down, sameBand);
    PinKeeps(sorted, g.subject);
  }

  ghost predicate SameNodes(bands: seq<seq<nat>>, seed: seq<seq<nat>>) {
    |bands| == |seed| && forall b :: 0 <= b < |bands| ==> multiset(bands[b]) == multiset(seed[b])
  }

  lemma StillOrdering(g: Graph, seed: seq<seq<nat>>, bands: seq<seq<nat>>)
    requires IsOrdering(g, seed) && SameNodes(bands, seed)
    ensures IsOrdering(g, bands)
  {
    forall b | 0 <= b < |bands| ensures NoDup(bands[b]) && forall n :: n in seed[b] <==> n in bands[b] {
      assert NoDup(seed[b]);
      Rearranged(seed[b], bands[b]);
    }
    forall b, k | 0 <= b < |bands| && 0 <= k < |bands[b]|
      ensures bands[b][k] < |g.bandOf| && g.bandOf[bands[b][k]] == b
    {
      assert bands[b][k] in seed[b];
    }
  }

  /** The subject sits in the middle slot of band b, when it is in b. */
  ghost predicate Centred(g: Graph, bands: seq<seq<nat>>, b: nat)
    requires b < |bands|
  {
    g.subject >= 0 && g.subject in bands[b] ==> bands[b][|bands[b]| / 2] == g.subject
  }

  lemma SweptCentred(g: Graph, bands: seq<seq<nat>>, b: nat, down: bool, sameBand: bool)
    requires g.Valid() && IsOrdering(g, bands) && b < |bands|
    ensures Centred(g, bands[b := Swept(g, bands, b, down, sameBand)], b)
  {
    hide IsOrdering, Swept, Pin;
    var sorted := SweptIs(g, bands, b, down, sameBand);
    Rearranged(sorted, bands[b]);
    PinKeeps(sorted, g.subject);
    Rearranged(Pin(sorted, g.subject), sorted);
  }

  // ---- whole sweeps, and the candidates the passes produce

  /** The bands with band b re-ordered. */
  ghost function Step(g: Graph, bands: seq<seq<nat>>, b: nat, down: bool, sameBand: bool): (r: seq<seq<nat>>)
    requires g.Valid() && IsOrdering(g, bands) && b < |bands|
    ensures SameNodes(r, bands) && IsOrdering(g, r)
  {
    hide IsOrdering, Swept;
    SweptKeeps(g, bands, b, down, sameBand);
    var r := bands[b := Swept(g, bands, b, down, sameBand)];
    StillOrdering(g, bands, r);
    r
  }

  /** The bands after the first k bands of a sweep have been re-ordered. */
  ghost function Sweep(g: Graph, bands: seq<seq<nat>>, down: bool, sameBand: bool, k: nat): (r: seq<seq<nat>>)
    requires g.Valid() && IsOrdering(g, bands) && k <= |bands|
    ensures SameNodes(r, bands) && IsOrdering(g, r)
  {
    hide IsOrdering, Step;
    if k == 0 then bands
    else
      var p := Sweep(g, bands, down, sameBand, k - 1);
      Step(g, p, if down then k - 1 else |bands| - k, down, sameBand)
  }

  /** The seed with the subject pinned in its first k bands. */
  ghost function Seeded(g: Graph, seed: seq<seq<nat>>, k: nat): (r: seq<seq<nat>>)
    requires g.Valid() && IsOrdering(g, seed) && k <= |seed|
    ensures SameNodes(r, seed) && IsOrdering(g, r)
  {
    hide IsOrdering, Pin;
    if k == 0 then seed
    else
      var p := Seeded(g, seed, k - 1);
      PinKeeps(p[k - 1], g.subject);
      var r := p[k - 1 := Pin(p[k - 1], g.subject)];
      StillOrdering(g, p, r);
      r
  }

  lemma SeededStep(g: Graph, seed: seq<seq<nat>>, k: nat)
    requires g.Valid() && IsOrdering(g, seed) && k <= |seed|
    ensures Seeded(g, seed, 0) == seed
    ensures var p := Seeded(g, seed, k);
            |p| == |seed| && (k < |seed| ==> Seeded(g, seed, k + 1) == p[k := Pin(p[k], g.subject)])
  {
    hide IsOrdering, NoDup, Pin;
  }

  /** The ordering that stands after the given number of passes. */
  ghost function Candidate(g: Graph, seed: seq<seq<nat>>, passes: nat): (r: seq<seq<nat>>)
    requires g.Valid() && IsOrdering(g, seed)
    ensures SameNodes(r, seed) && IsOrdering(g, r)
  {
    hide IsOrdering, Seeded, Sweep;
    if passes == 0 then Seeded(g, seed, |seed|)
    else
      var p := Candidate(g, seed, passes - 1);
      var pass := passes - 1;
      Sweep(g, p, pass % 2 == 0, (pass / 2) % 2 == 1, |p|)
  }

  ghost predicate AllCentred(g: Graph, bands: seq<seq<nat>>) {
    forall b :: 0 <= b < |bands| ==> Centred(g, bands, b)
  }

  lemma {:induction false} SeededCentred(g: Graph, seed: seq<seq<nat>>, k: nat)
    requires g.Valid() && IsOrdering(g, seed) && k <= |seed|
    ensures |Seeded(g, seed, k)| == |seed| && forall b :: 0 <= b < k ==> Centred(g, Seeded(g, seed, k), b)
  {
    hide IsOrdering, Seeded, Pin;
    SeededStep(g, seed, k);
    if k > 0 {
      SeededCentred(g, seed, k - 1);
      SeededStep(g, seed, k - 1);
      var p := Seeded(g, seed, k - 1);
      PinKeeps(p[k - 1], g.subject);
      Rearranged(p[k - 1], Pin(p[k - 1], g.subject));
      forall b | 0 <= b < k ensures Centred(g, Seeded(g, seed, k), b) {
        assert b < k - 1 ==> Centred(g, p, b);
      }
    }
  }

  lemma {:induction false} SweepCentred(g: Graph, bands: seq<seq<nat>>, down: bool, sameBand: bool, k: nat)
    requires g.Valid() && IsOrdering(g, bands) && k <= |bands| && AllCentred(g, bands)
    ensures AllCentred(g, Sweep(g, bands, down, sameBand, k))
  {
    hide IsOrdering, Swept;
    if k > 0 {
      SweepCentred(g, bands, down, sameBand, k - 1);
      var p, b := Sweep(g, bands, down, sameBand, k - 1), if down then k - 1 else |bands| - k;
      SweptCentred(g, p, b, down, sameBand);
      var r := p[b := Swept(g, p, b, down, sameBand)];
      assert Step(g, p, b, down, sameBand) == r;
      forall c | 0 <= c < |r| ensures Centred(g, r, c) {
        assert Centred(g, p, c);
      }
    }
  }

  /** Every candidate has the subject in the middle slot of its band. */
  lemma {:induction false} CandidateCentred(g: Graph, seed: seq<seq<nat>>, passes: nat)
    requires g.Valid() && IsOrdering(g, seed)
    ensures AllCentred(g, Candidate(g, seed, passes))
  {
    hide IsOrdering, Seeded, Sweep;
    if passes == 0 {
      SeededCentred(g, seed, |seed|);
      assert Candidate(g, seed, 0) == Seeded(g, seed, |seed|);
    } else {
      CandidateCentred(g, seed, passes - 1);
      var p, pass := Candidate(g, seed, passes - 1), passes - 1;
      SweepCentred(g, p, pass % 2 == 0, (pass / 2) % 2 == 1, |p|);
    }
  }

  lemma CandidateSteps(g: Graph, seed: seq<seq<nat>>, passes: nat)
    requires g.Valid() && IsOrdering(g, seed)
    ensures |Candidate(g, seed, passes)| == |Candidate(g, seed, passes + 1)| == |seed|
    ensures Candidate(g, seed, 0) == Seeded(g, seed, |seed|)
    ensures var p := Candidate(g, seed, passes);
            Candidate(g, seed, passes + 1) == Sweep(g, p, passes % 2 == 0, (passes / 2) % 2 == 1, |p|)
  {
    hide IsOrdering, Sweep, Seeded;
  }

  ghost function Score(g: Graph, bands: seq<seq<nat>>): nat
    requires g.Valid() && IsOrdering(g, bands)
  {
    SlotCrossings(g, Slots(g, bands))
  }

  /** Re-indexing one band is all that changing it calls for. */
  lemma ReindexedBand(g: Graph, bands: seq<seq<nat>>, b: nat, nodes: seq<nat>, pos: seq<nat>)
    requires IsOrdering(g, bands) && b < |bands| && IsOrdering(g, bands[b := nodes])
    requires |pos| == |g.bandOf|
    requires forall k :: 0 <= k < |nodes| ==> nodes[k] < |pos| && pos[nodes[k]] == k
    requires forall n :: 0 <= n < |pos| && g.bandOf[n] != b ==> pos[n] == Slots(g, bands)[n]
    ensures pos == Slots(g, bands[b := nodes])
  {
    var new_ := bands[b := nodes];
    SlotsInvert(g, bands, Slots(g, bands));
    forall c, k | 0 <= c < |new_| && 0 <= k < |new_[c]| ensures new_[c][k] < |pos| && pos[new_[c][k]] == k {
      if c != b { assert g.bandOf[bands[c][k]] == c; }
    }
    SlotsInvert(g, new_, pos);
  }

  lemma SubjectIn(g: Graph, bands: seq<seq<nat>>, b: nat)
    requires g.Valid() && IsOrdering(g, bands) && b < |bands|
    ensures g.subject in bands[b] <==> g.subject >= 0 && g.bandOf[g.subject] == b
  {
    hide NoDup;
  }

  lemma SlotsLength(g: Graph, bands: seq<seq<nat>>)
    requires IsOrdering(g, bands)
    ensures |Slots(g, bands)| == |g.bandOf| && |bands| == g.bandCount
  {
    hide Slots;
  }

  /** A band of one ordering may stand in for the same band of another. */
  lemma BandReplaced(g: Graph, bands: seq<seq<nat>>, snap: seq<seq<nat>>, b: nat)
    requires IsOrdering(g, bands) && IsOrdering(g, snap) && b < |snap|
    ensures |bands| == |snap| && IsOrdering(g, bands[b := snap[b]])
  {
  }

  /** Candidate k is the first of those with the least score. */
  ghost predicate FirstBest(g: Graph, seed: seq<seq<nat>>, k: int)
    requires g.Valid() && IsOrdering(g, seed)
  {
    && 0 <= k <= MAX_PASSES
    && (forall j :: 0 <= j <= MAX_PASSES ==> Score(g, Candidate(g, seed, k)) <= Score(g, Candidate(g, seed, j)))
    && (forall j :: 0 <= j < k ==> Score(g, Candidate(g, seed, k)) < Score(g, Candidate(g, seed, j)))
  }

  /** Without a subject to centre, an order without crossings is kept as it came. */
  lemma NothingToImprove(g: Graph, seed: seq<seq<nat>>, k: int)
    requires g.Valid() && IsOrdering(g, seed) && g.subject < 0 && Score(g, seed) == 0 && FirstBest(g, seed, k)
    ensures k == 0 && Candidate(g, seed, 0) == seed
  {
    hide Score, Sweep, IsOrdering;
    CandidateSteps(g, seed, 0);
    UnseededStays(g, seed, |seed|);
  }

  lemma {:induction false} UnseededStays(g: Graph, seed: seq<seq<nat>>, k: nat)
    requires g.Valid() && IsOrdering(g, seed) && g.subject < 0 && k <= |seed|
    ensures Seeded(g, seed, k) == seed
  {
    hide IsOrdering;
    SeededStep(g, seed, 0);
    if k > 0 {
      UnseededStays(g, seed, k - 1);
      SeededStep(g, seed, k - 1);
      PinAbsent(seed[k - 1], g.subject);
      assert seed[k - 1 := seed[k - 1]] == seed;
    }
  }

  class State {
    const g: Graph
    var bands: seq<seq<nat>>
    var pos: seq<nat>

    ghost predicate Valid()
      reads this
    {
      g.Valid() && IsOrdering(g, bands) && pos == Slots(g, bands)
    }

    constructor (g: Graph, bands: seq<seq<nat>>, pos: seq<nat>)
      requires g.Valid() && IsOrdering(g, bands) && pos == Slots(g, bands)
      ensures Valid() && this.g == g && this.bands == bands
    {
      this.g, this.bands, this.pos := g, bands, pos;
    }

    method PinSubject(b: nat)
      requires g.Valid() && IsOrdering(g, bands) && b < |bands|
      modifies this`bands
      ensures bands == old(bands)[b := Pin(old(bands[b]), g.subject)]
    {
      hide IsOrdering, IndexOf, Pin;
      SubjectIn(g, bands, b);
      if g.subject < 0 || g.bandOf[g.subject] != b {
        PinAbsent(bands[b], g.subject);
        return;
      }
      var nodes := bands[b];
      var want := |nodes| / 2;
      var subject: nat := g.subject;
      var at := IndexOf(nodes, subject);
      if at == want {
        PinInPlace(nodes, subject);
        return;
      }
      PinIs(nodes, subject, Without(nodes, at));
      nodes := nodes[..at] + nodes[at + 1..];
      bands := bands[b := nodes[..want] + [subject] + nodes[want..]];
    }

    method Reindex(b: nat)
      requires |pos| == |g.bandOf| && IsOrdering(g, bands) && b < |bands|
      modifies this`pos
      ensures |pos| == |old(pos)|
      ensures forall k :: 0 <= k < |bands[b]| ==> bands[b][k] < |pos| && pos[bands[b][k]] == k
      ensures forall n :: 0 <= n < |pos| && g.bandOf[n] != b ==> pos[n] == old(pos)[n]
    {
      var slot := 0;
      while slot < |bands[b]|
        invariant slot <= |bands[b]| && |pos| == |old(pos)|
        invariant forall k :: 0 <= k < slot ==> pos[bands[b][k]] == k
        invariant forall n :: 0 <= n < |pos| && g.bandOf[n] != b ==> pos[n] == old(pos)[n]
      {
        assert NoDup(bands[b]);
        pos := pos[bands[b][slot] := slot];
        slot := slot + 1;
      }
    }

    method BarycentreOf(b: nat, n: nat, down: bool, sameBand: bool) returns (bary: real)
      requires Valid() && n < |g.bandOf|
      ensures bary == Barycentre(g, bands, b, n, down, sameBand)
    {
      hide NormPos, NoDup, Votes, Slots, IsOrdering, Voters, SumPos;
      Shapes(g, bands, pos);
      VotersNone(g, bands, pos, b, down, sameBand);
      var ns := g.adj[n];
      var sum, count := 0.0, 0;
      for k := 0 to |ns|
        invariant count == |Voters(g, b, ns[..k], down, sameBand)|
        invariant sum == SumPos(g, bands, pos, Voters(g, b, ns[..k], down, sameBand))
      {
        VotersStep(g, bands, pos, b, ns, k, down, sameBand);
        if Votes(g.bandOf[ns[k]], b, down, sameBand) {
          sum := sum + NormPos(g, bands, pos, ns[k]);
          count := count + 1;
        }
      }
      assert ns[..|ns|] == ns && ns[..0] == [];
      bary := if count == 0 then NormPos(g, bands, pos, n) else sum / count as real;
    }

    method KeysOf(b: nat, down: bool, sameBand: bool) returns (keys: seq<Keyed>)
      requires Valid() && b < |bands|
      ensures keys == Keys(g, bands, b, down, sameBand)
    {
      hide NormPos, NoDup, Slots, Barycentre;
      keys := [];
      while |keys| < |bands[b]|
        invariant |keys| <= |bands[b]|
        invariant forall i :: 0 <= i < |keys| ==> keys[i] == Keys(g, bands, b, down, sameBand)[i]
      {
        var bary := BarycentreOf(b, bands[b][|keys|], down, sameBand);
        keys := keys + [Keyed(bands[b][|keys|], bary)];
      }
    }

    method OrderBand(b: nat, down: bool, sameBand: bool)
      requires Valid() && b < |bands|
      modifies this`bands, this`pos
      ensures Valid()
      ensures bands == old(bands)[b := Swept(g, old(bands), b, down, sameBand)]
    {
      hide NormPos, NoDup, Barycentre, Slots;
      ghost var before := bands;
      SweptKeeps(g, before, b, down, sameBand);
      if |bands[b]| < 2 {
        assert bands == before[b := before[b]];
        return;
      }
      var keys := KeysOf(b, down, sameBand);
      LessBaryIsOrder();
      var sorted := SortBy(LessBary(), keys);
      assert multiset(Nodes(sorted)) == multiset(before[b]) by {
        NodesRearranged(sorted, keys);
        assert Nodes(keys) == before[b];
      }
      Settle(b, Nodes(sorted));
    }

    /** A band's new order takes effect: subject pinned, slots rewritten. */
    method Settle(b: nat, nodes: seq<nat>)
      requires Valid() && b < |bands| && multiset(nodes) == multiset(bands[b])
      modifies this`bands, this`pos
      ensures Valid() && bands == old(bands)[b := Pin(nodes, g.subject)]
    {
      hide NoDup, Slots, Pin;
      ghost var before := bands;
      bands := bands[b := nodes];
      StillOrdering(g, before, bands);
      PinSubject(b);
      PinKeeps(nodes, g.subject);
      StillOrdering(g, before, bands);
      assert bands == before[b := bands[b]];
      Reindex(b);
      ReindexedBand(g, before, b, bands[b], pos);
    }

    method CountCrossings() returns (total: nat)
      requires Valid()
      ensures total == Score(g, bands)
    {
      hide IsOrdering, Crosses, Slots;
      total := 0;
      ghost var p := CrossingPair(g, pos);
      for i := 0 to |g.ends|
        invariant total == PairCount(p, |g.ends|, i)
      {
        for j := i + 1 to |g.ends|
          invariant total == PairCount(p, |g.ends|, i) + RowCount(p, i, j)
        {
          if Crosses(g, pos, g.ends[i], g.ends[j]) {
            total := total + 1;
          }
        }
      }
    }

    /** One pass: every band once, downwards on even passes and upwards on odd. */
    method RunPass(pass: nat)
      requires Valid()
      modifies this`bands, this`pos
      ensures Valid()
      ensures bands == Sweep(g, old(bands), pass % 2 == 0, (pass / 2) % 2 == 1, |old(bands)|)
    {
      hide IsOrdering, Swept, Slots;
      var down := pass % 2 == 0;
      var sameBand := (pass / 2) % 2 == 1;
      ghost var start := bands;
      var k := 0;
      while k < |bands|
        invariant Valid() && k <= |bands| == |start|
        invariant bands == Sweep(g, start, down, sameBand, k)
      {
        OrderBand(if down then k else |bands| - 1 - k, down, sameBand);
        k := k + 1;
      }
    }

    /** After is the least score any of the thirteen candidates reached, and the
        ordering kept is the first that reached it. */
    method Order() returns (c: Crossings)
      requires Valid()
      modifies this`bands, this`pos
      ensures Valid() && SameNodes(bands, old(bands))
      ensures AllCentred(g, bands)
      ensures c.before == Score(g, Candidate(g, old(bands), 0))
      ensures c.after == Score(g, bands) <= c.before
      ensures exists k :: 0 <= k <= 12 && FirstBest(g, old(bands), k) && bands == Candidate(g, old(bands), k)
      ensures forall k :: 0 <= k <= 12 ==> c.after <= Score(g, Candidate(g, old(bands), k))
    {
      hide NoDup, Score, Sweep, Slots, IsOrdering, Candidate, AllCentred, SameNodes, Seeded;
      ghost var seed := bands;
      SeededStep(g, seed, 0);
      for b := 0 to |bands|
        invariant Valid() && |bands| == |seed|
        invariant bands == Seeded(g, seed, b)
      {
        SeededStep(g, seed, b);
        Settle(b, bands[b]);
      }
      CandidateSteps(g, seed, 0);
      var before := CountCrossings();
      var best, bestCount := bands, before;
      ghost var chosen := 0;
      for pass := 0 to MAX_PASSES
        invariant Valid() && |bands| == |seed|
        invariant bands == Candidate(g, seed, pass)
        invariant 0 <= chosen <= pass && best == Candidate(g, seed, chosen) && bestCount == Score(g, best)
        invariant before == Score(g, Candidate(g, seed, 0))
        invariant forall k :: 0 <= k <= pass ==> bestCount <= Score(g, Candidate(g, seed, k))
        invariant forall k :: 0 <= k < chosen ==> bestCount < Score(g, Candidate(g, seed, k))
      {
        CandidateSteps(g, seed, pass);
        RunPass(pass);
        var n := CountCrossings();
        if n < bestCount {
          bestCount, best, chosen := n, bands, pass + 1;
        }
      }
      CandidateCentred(g, seed, chosen);
      assert FirstBest(g, seed, chosen);
      Restore(best);
      c := Crossings(before, bestCount);
    }

    method Restore(snap: seq<seq<nat>>)
      requires Valid() && IsOrdering(g, snap)
      modifies this`bands, this`pos
      ensures Valid() && bands == snap
    {
      hide NoDup, Slots;
      ghost var before := bands;
      SlotsLength(g, bands);
      for i := 0 to |snap|
        invariant IsOrdering(g, bands) && |bands| == |before| == |snap| && |pos| == |g.bandOf|
        invariant forall b :: 0 <= b < i ==> bands[b] == snap[b]
        invariant forall b :: i <= b < |bands| ==> bands[b] == before[b]
        invariant forall b, k :: 0 <= b < i && 0 <= k < |snap[b]| ==> pos[snap[b][k]] == k
      {
        BandReplaced(g, bands, snap, i);
        bands := bands[i := snap[i]];
        Reindex(i);
      }
      assert bands == snap;
      SlotsInvert(g, snap, pos);
    }
  }
}
