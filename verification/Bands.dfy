/** The working representation of a layout -- which band each node is in, which
    nodes each edge joins, and the left-to-right order of every band -- and the
    slot model of a crossing. */
module Bands {
  import opened Sorting

  datatype Ends = Ends(from: nat, to: nat)

  /** The part of the state that never changes once the input is accepted. */
  datatype Graph = Graph(bandOf: seq<nat>, bandCount: nat, ends: seq<Ends>, adj: seq<seq<nat>>, subject: int)
  {
    ghost predicate Valid() {
      && (forall n :: 0 <= n < |bandOf| ==> bandOf[n] < bandCount)
      && (forall i :: 0 <= i < |ends| ==> ends[i].from < |bandOf| && ends[i].to < |bandOf| && ends[i].from != ends[i].to)
      && |adj| == |bandOf|
      && (forall n, k :: 0 <= n < |adj| && 0 <= k < |adj[n]| ==> adj[n][k] < |bandOf|)
      && subject < |bandOf|
    }

    predicate SameBand(i: nat)
      requires i < |ends| && ends[i].from < |bandOf| && ends[i].to < |bandOf|
    {
      bandOf[ends[i].from] == bandOf[ends[i].to]
    }
  }

  /** Every band lists exactly its own nodes, each once. */
  ghost predicate IsOrdering(g: Graph, bands: seq<seq<nat>>) {
    && |bands| == g.bandCount
    && (forall b, k :: 0 <= b < |bands| && 0 <= k < |bands[b]| ==>
          bands[b][k] < |g.bandOf| && g.bandOf[bands[b][k]] == b)
    && (forall n :: 0 <= n < |g.bandOf| ==> g.bandOf[n] < |bands| && n in bands[g.bandOf[n]])
    && (forall b :: 0 <= b < |bands| ==> NoDup(bands[b]))
  }

  function IndexOf<T(==)>(s: seq<T>, x: T): (i: nat)
    requires x in s
    ensures i < |s| && s[i] == x
    ensures x !in s[..i]
  {
    if s[0] == x then 0 else 1 + IndexOf(s[1..], x)
  }

  /** The slot of every node: the inverse of bands. */
  ghost function Slots(g: Graph, bands: seq<seq<nat>>): (pos: seq<nat>)
    requires IsOrdering(g, bands)
    ensures |pos| == |g.bandOf|
    ensures forall n :: 0 <= n < |pos| ==>
      pos[n] < |bands[g.bandOf[n]]| && bands[g.bandOf[n]][pos[n]] == n
  {
    seq(|g.bandOf|, n requires 0 <= n < |g.bandOf| => IndexOf(bands[g.bandOf[n]], n))
  }

  /** pos is the inverse of bands exactly when it gives every listed node the
      place it is listed at. */
  lemma SlotsInvert(g: Graph, bands: seq<seq<nat>>, pos: seq<nat>)
    requires IsOrdering(g, bands) && |pos| == |g.bandOf|
    ensures pos == Slots(g, bands)
            <==> forall b, k :: 0 <= b < |bands| && 0 <= k < |bands[b]| ==> bands[b][k] < |pos| && pos[bands[b][k]] == k
  {
    var slots := Slots(g, bands);
    forall b, k | 0 <= b < |bands| && 0 <= k < |bands[b]| ensures bands[b][k] < |pos| && slots[bands[b][k]] == k {
      var n := bands[b][k];
      assert NoDup(bands[b]);
      assert g.bandOf[n] == b;
      assert slots[n] < |bands[b]| && bands[g.bandOf[n]][slots[n]] == n;
    }
    if forall b, k :: 0 <= b < |bands| && 0 <= k < |bands[b]| ==> bands[b][k] < |pos| && pos[bands[b][k]] == k {
      forall n | 0 <= n < |pos| ensures pos[n] == slots[n] {
        assert bands[g.bandOf[n]][slots[n]] == n;
      }
    }
  }

  // ---- the slot model

  function MinMax(a: int, b: int): (int, int) { if a > b then (b, a) else (a, b) }

  function UpperLower(g: Graph, e: Ends): (nat, nat)
    requires e.from < |g.bandOf| && e.to < |g.bandOf|
  {
    if g.bandOf[e.from] > g.bandOf[e.to] then (e.to, e.from) else (e.from, e.to)
  }

  predicate Crosses(g: Graph, pos: seq<nat>, e1: Ends, e2: Ends)
    requires e1.from < |g.bandOf| && e1.to < |g.bandOf| && e2.from < |g.bandOf| && e2.to < |g.bandOf|
    requires |pos| == |g.bandOf|
  {
    var (u1, l1) := UpperLower(g, e1);
    var (u2, l2) := UpperLower(g, e2);
    var same1, same2 := g.bandOf[u1] == g.bandOf[l1], g.bandOf[u2] == g.bandOf[l2];
    if same1 != same2 then
      var (arcU, arcL, dropU) := if same2 then (u2, l2, u1) else (u1, l1, u2);
      if g.bandOf[arcU] != g.bandOf[dropU] || dropU == arcU || dropU == arcL then false
      else
        var (lo, hi) := MinMax(pos[arcU], pos[arcL]);
        lo < pos[dropU] < hi
    else if g.bandOf[u1] != g.bandOf[u2] || g.bandOf[l1] != g.bandOf[l2] then false
    else if same1 then
      var (lo1, hi1) := MinMax(pos[u1], pos[l1]);
      var (lo2, hi2) := MinMax(pos[u2], pos[l2]);
      lo1 < lo2 < hi1 < hi2 || lo2 < lo1 < hi2 < hi1
    else
      (pos[u1] as int - pos[u2] as int) * (pos[l1] as int - pos[l2] as int) < 0
  }

  // ---- counting pairs

  /** How many y with i < y < j pair with i. */
  ghost function RowCount(p: (nat, nat) -> bool, i: nat, j: nat): nat {
    if j <= i + 1 then 0 else RowCount(p, i, j - 1) + if p(i, j - 1) then 1 else 0
  }

  /** How many pairs x < y < n with x < i. */
  ghost function PairCount(p: (nat, nat) -> bool, n: nat, i: nat): nat {
    if i == 0 then 0 else PairCount(p, n, i - 1) + RowCount(p, i - 1, n)
  }

  lemma {:induction false} RowCountMonotone(p: (nat, nat) -> bool, q: (nat, nat) -> bool, i: nat, j: nat)
    requires forall y :: i < y < j && p(i, y) ==> q(i, y)
    ensures RowCount(p, i, j) <= RowCount(q, i, j)
  {
    if j > i + 1 { RowCountMonotone(p, q, i, j - 1); }
  }

  lemma {:induction false} PairCountMonotone(p: (nat, nat) -> bool, q: (nat, nat) -> bool, n: nat, i: nat)
    requires i <= n
    requires forall x, y :: 0 <= x < y < n && p(x, y) ==> q(x, y)
    ensures PairCount(p, n, i) <= PairCount(q, n, i)
  {
    if i > 0 {
      PairCountMonotone(p, q, n, i - 1);
      RowCountMonotone(p, q, i - 1, n);
    }
  }

  lemma {:induction false} NoPairs(r: (nat, nat) -> bool, n: nat, i: nat)
    requires i <= n && forall x, y :: 0 <= x < y < n ==> !r(x, y)
    ensures PairCount(r, n, i) == 0
  {
    if i > 0 {
      NoPairs(r, n, i - 1);
      NoneInRow(r, i - 1, n);
    }
  }

  lemma {:induction false} NoneInRow(r: (nat, nat) -> bool, i: nat, j: nat)
    requires forall y :: i < y < j ==> !r(i, y)
    ensures RowCount(r, i, j) == 0
  {
    if j > i + 1 { NoneInRow(r, i, j - 1); }
  }

  ghost function CrossingPair(g: Graph, pos: seq<nat>): (nat, nat) -> bool
    requires g.Valid() && |pos| == |g.bandOf|
  {
    (i: nat, j: nat) => i < |g.ends| && j < |g.ends| && Crosses(g, pos, g.ends[i], g.ends[j])
  }

  /** The slot model's objective: the number of crossing pairs. */
  ghost function SlotCrossings(g: Graph, pos: seq<nat>): nat
    requires g.Valid() && |pos| == |g.bandOf|
  {
    PairCount(CrossingPair(g, pos), |g.ends|, |g.ends|)
  }
}
