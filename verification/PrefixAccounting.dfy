/** How full each network is: allocation and direct address counts over the
    prefix tree, against the sets of addresses they stand for. */
module PrefixAccounting {
  import opened Basics
  import opened Sorting
  import opened Addresses
  import opened FreeAddress
  import opened PrefixTree

  datatype PrefixNode = PrefixNode(
    prefix: Prefix, depth: nat, parentID: Option<string>, children: nat, size: nat, addresses: nat, used: nat)

  /** How many addresses a mask covers. */
  function PrefixSize(v: PrefixValue): nat
    requires v.bits <= 8 * Width(v.family)
  {
    Pow2(8 * Width(v.family) - v.bits)
  }

  predicate IsFull(n: PrefixNode) { n.used >= n.size }

  function CountOf(counts: map<string, int>, id: string): int { if id in counts then counts[id] else 0 }

  /** The sum of vals over the direct children of j among the first n entries. */
  ghost function ChildSum(parent: seq<Option<nat>>, j: nat, vals: seq<int>, n: nat): int
    requires n <= |parent| == |vals|
  {
    if n == 0 then 0
    else ChildSum(parent, j, vals, n - 1) + if parent[n - 1] == Some(j) then vals[n - 1] else 0
  }

  ghost predicate DistinctIDs(ps: seq<Prefix>) {
    forall i, j :: 0 <= i < j < |ps| ==> ps[i].id != ps[j].id
  }

  /** Entry i's parent id, if it has a parent. */
  ghost predicate Named(ps: seq<Prefix>, parent: seq<Option<nat>>, parentID: seq<Option<string>>) {
    && |parentID| == |parent| == |ps|
    && forall i :: 0 <= i < |ps| ==>
      && (parent[i].None? <==> parentID[i].None?)
      && (parent[i].Some? ==> parent[i].value < i && parentID[i] == Some(ps[parent[i].value].id))
  }

  /** The nearest entry before i with the given id. */
  method FindBefore(ps: seq<Prefix>, i: nat, id: string, ghost at: nat) returns (j: nat)
    requires DistinctIDs(ps) && i < |ps| && at < i && ps[at].id == id
    ensures j == at
  {
    j := i - 1;
    while ps[j].id != id
      invariant at <= j < i
      decreases j
    {
      j := j - 1;
    }
  }

  /** What the first i entries have handed up. */
  ghost predicate HandedUp(parent: seq<Option<nat>>, sizes: seq<int>, vals: seq<int>, ones: seq<int>, i: nat,
                           used: seq<int>, direct: seq<int>, children: seq<int>)
    requires i <= |parent| == |sizes| == |vals| == |ones|
  {
    && |used| == |direct| == |children| == |parent|
    && forall j :: 0 <= j < |parent| ==>
      && used[j] == ChildSum(parent, j, sizes, i)
      && direct[j] == vals[j] - ChildSum(parent, j, vals, i)
      && children[j] == ChildSum(parent, j, ones, i)
  }

  lemma HandedNone(parent: seq<Option<nat>>, sizes: seq<int>, vals: seq<int>, ones: seq<int>, used: seq<int>, direct: seq<int>, children: seq<int>)
    requires |parent| == |sizes| == |vals| == |ones| == |used| == |direct| == |children|
    requires forall j :: 0 <= j < |parent| ==> used[j] == 0 && direct[j] == vals[j] && children[j] == 0
    ensures HandedUp(parent, sizes, vals, ones, 0, used, direct, children)
  {
  }

  lemma HandedOne(parent: seq<Option<nat>>, sizes: seq<int>, vals: seq<int>, ones: seq<int>, i: nat,
                  used: seq<int>, direct: seq<int>, children: seq<int>)
    requires i < |parent| == |sizes| == |vals| == |ones| && HandedUp(parent, sizes, vals, ones, i, used, direct, children)
    requires parent[i].Some? ==> parent[i].value < |parent|
    ensures |used| == |direct| == |children| == |parent|
    ensures parent[i].None? ==> HandedUp(parent, sizes, vals, ones, i + 1, used, direct, children)
    ensures parent[i].Some? ==>
      var j := parent[i].value;
      HandedUp(parent, sizes, vals, ones, i + 1, used[j := used[j] + sizes[i]], direct[j := direct[j] - vals[i]], children[j := children[j] + ones[i]])
  {
  }

  /** Sizes and counts handed up from each entry to its parent. */
  method HandUp(ps: seq<Prefix>, parentID: seq<Option<string>>, counts: map<string, int>, ghost parent: seq<Option<nat>>,
                ghost sizes: seq<int>, ghost vals: seq<int>, ghost ones: seq<int>)
    returns (used: seq<int>, direct: seq<int>, children: seq<int>)
    requires Stored(ps) && DistinctIDs(ps) && Named(ps, parent, parentID) && |sizes| == |vals| == |ones| == |ps|
    requires forall i :: 0 <= i < |ps| ==> sizes[i] == PrefixSize(ps[i].value) && vals[i] == CountOf(counts, ps[i].id) && ones[i] == 1
    ensures HandedUp(parent, sizes, vals, ones, |ps|, used, direct, children)
  {
    hide DistinctIDs, PrefixSize, ChildSum, HandedUp;
    used, children := seq(|ps|, _ => 0), seq(|ps|, _ => 0);
    direct := seq(|ps|, i requires 0 <= i < |ps| => CountOf(counts, ps[i].id));
    HandedNone(parent, sizes, vals, ones, used, direct, children);
    for i := 0 to |ps|
      invariant HandedUp(parent, sizes, vals, ones, i, used, direct, children)
    {
      HandedOne(parent, sizes, vals, ones, i, used, direct, children);
      if parentID[i].Some? {
        var j := FindBefore(ps, i, parentID[i].value, parent[i].value);
        used := used[j := used[j] + PrefixSize(ps[i].value)];
        direct := direct[j := direct[j] - CountOf(counts, ps[i].id)];
        children := children[j := children[j] + 1];
      }
    }
  }

  /** One row of the tree, from the figures its children handed up. */
  ghost predicate IsRow(ps: seq<Prefix>, parent: seq<Option<nat>>, depth: seq<nat>, counts: map<string, int>, i: nat, n: PrefixNode)
    requires Stored(ps) && |parent| == |depth| == |ps| && i < |ps|
    requires forall k :: 0 <= k < |ps| ==> parent[k].Some? ==> parent[k].value < |ps|
  {
    && n.prefix == ps[i] && n.depth == depth[i] && n.size == PrefixSize(ps[i].value)
    && n.parentID == (if parent[i].None? then None else Some(ps[parent[i].value].id))
    && n.children == ChildSum(parent, i, Ones(ps), |ps|)
    && (var d := CountOf(counts, ps[i].id) - ChildSum(parent, i, Counts(ps, counts), |ps|);
        n.addresses == if d < 0 then 0 else d)
    && n.used == ChildSum(parent, i, Sizes(ps), |ps|) + n.addresses
  }

  ghost function Sizes(ps: seq<Prefix>): seq<int>
    requires Stored(ps)
  {
    seq(|ps|, i requires 0 <= i < |ps| => PrefixSize(ps[i].value))
  }

  ghost function Counts(ps: seq<Prefix>, counts: map<string, int>): seq<int> {
    seq(|ps|, i requires 0 <= i < |ps| => CountOf(counts, ps[i].id))
  }

  ghost function Ones(ps: seq<Prefix>): seq<int> { seq(|ps|, _ => 1) }

  ghost predicate IsTree(ps: seq<Prefix>, parent: seq<Option<nat>>, depth: seq<nat>, counts: map<string, int>, nodes: seq<PrefixNode>) {
    && InTreeOrder(ps) && |parent| == |depth| == |nodes| == |ps| && Resolved(ps, parent, depth, |ps|)
    && (forall k :: 0 <= k < |ps| && parent[k].Some? ==> parent[k].value < k)
    && forall i :: 0 <= i < |ps| ==> IsRow(ps, parent, depth, counts, i, nodes[i])
  }

  /** nodes is the tree of the given prefixes, rearranged into tree order. */
  ghost predicate IsTreeOf(prefixes: seq<Prefix>, counts: map<string, int>, nodes: seq<PrefixNode>) {
    exists ps, parent, depth :: multiset(ps) == multiset(prefixes) && IsTree(ps, parent, depth, counts, nodes)
  }

  method BuildPrefixTree(prefixes: seq<Prefix>, counts: map<string, int>) returns (nodes: seq<PrefixNode>)
    requires Stored(prefixes) && DistinctRanges(prefixes) && DistinctIDs(prefixes)
    ensures IsTreeOf(prefixes, counts, nodes)
  {
    hide InTreeOrder, Resolved, Stored, DistinctRanges, DistinctIDs, IsRow;
    TreeOrderIsOrder();
    var sorted := SortBy(TreeOrder(), prefixes);
    StillTree(prefixes, sorted);
    var parent, depth := Resolve(sorted);
    ParentsBefore(sorted, parent, depth);
    nodes := Rows(sorted, parent, depth, counts);
    assert IsTree(sorted, parent, depth, counts, nodes);
  }

  method Rows(ps: seq<Prefix>, parent: seq<Option<nat>>, depth: seq<nat>, counts: map<string, int>) returns (nodes: seq<PrefixNode>)
    requires Stored(ps) && DistinctIDs(ps) && |parent| == |depth| == |ps|
    requires forall k :: 0 <= k < |ps| && parent[k].Some? ==> parent[k].value < k
    ensures |nodes| == |ps| && forall i :: 0 <= i < |ps| ==> IsRow(ps, parent, depth, counts, i, nodes[i])
  {
    hide PrefixSize, ChildSum, DistinctIDs;
    var parentID := seq(|ps|, i requires 0 <= i < |ps| => if parent[i].None? then None else Some(ps[parent[i].value].id));
    var used, direct, children := HandUp(ps, parentID, counts, parent, Sizes(ps), Counts(ps, counts), Ones(ps));
    SumsNonNegative(ps, parent, counts);
    nodes := [];
    while |nodes| < |ps|
      invariant |nodes| <= |ps|
      invariant forall i :: 0 <= i < |nodes| ==> IsRow(ps, parent, depth, counts, i, nodes[i])
    {
      var i := |nodes|;
      var d := if direct[i] < 0 then 0 else direct[i];
      nodes := nodes + [PrefixNode(ps[i], depth[i], parentID[i], children[i], PrefixSize(ps[i].value), d, used[i] + d)];
    }
  }

  lemma StillTree(prefixes: seq<Prefix>, sorted: seq<Prefix>)
    requires Stored(prefixes) && DistinctRanges(prefixes) && DistinctIDs(prefixes)
    requires multiset(prefixes) == multiset(sorted) && Sorted(TreeOrder(), sorted)
    ensures InTreeOrder(sorted) && Stored(sorted) && DistinctIDs(sorted)
  {
    hide SameSpace, Sorted;
    Rearranged(prefixes, sorted);
    assert NoDup(prefixes);
    forall i | 0 <= i < |sorted| ensures sorted[i].value.Valid() { assert sorted[i] in prefixes; }
    forall i, j | 0 <= i < j < |sorted|
      ensures sorted[i].id != sorted[j].id
      ensures SameSpace(sorted[i], sorted[j]) ==>
        !(sorted[i].value.start == sorted[j].value.start && sorted[i].value.end == sorted[j].value.end)
    {
      assert sorted[i] in prefixes && sorted[j] in prefixes && sorted[i] != sorted[j];
      SpaceSymmetric(sorted[i], sorted[j]);
    }
  }

  lemma SpaceSymmetric(p: Prefix, q: Prefix)
    ensures SameSpace(p, q) <==> SameSpace(q, p)
  {
  }

  lemma ParentsBefore(ps: seq<Prefix>, parent: seq<Option<nat>>, depth: seq<nat>)
    requires InTreeOrder(ps) && |parent| == |depth| == |ps| && Resolved(ps, parent, depth, |ps|)
    ensures forall k :: 0 <= k < |ps| && parent[k].Some? ==> parent[k].value < k
  {
    hide InTreeOrder, Contains;
    forall k | 0 <= k < |ps| && parent[k].Some? ensures parent[k].value < k {
      assert Narrowest(ps, k, parent[k].value);
      ContainerFirst(ps, parent[k].value, k);
    }
  }

  lemma {:induction false} SumNonNegative(parent: seq<Option<nat>>, j: nat, vals: seq<int>, n: nat)
    requires n <= |parent| == |vals| && forall i :: 0 <= i < |vals| ==> vals[i] >= 0
    ensures ChildSum(parent, j, vals, n) >= 0
  {
    if n > 0 { SumNonNegative(parent, j, vals, n - 1); }
  }

  lemma SumsNonNegative(ps: seq<Prefix>, parent: seq<Option<nat>>, counts: map<string, int>)
    requires Stored(ps) && |parent| == |ps|
    ensures forall j :: 0 <= j < |ps| ==> ChildSum(parent, j, Sizes(ps), |ps|) >= 0 && ChildSum(parent, j, Ones(ps), |ps|) >= 0
  {
    hide PrefixSize, ChildSum;
    forall j | 0 <= j < |ps| ensures ChildSum(parent, j, Sizes(ps), |ps|) >= 0 && ChildSum(parent, j, Ones(ps), |ps|) >= 0 {
      SumNonNegative(parent, j, Sizes(ps), |ps|);
      SumNonNegative(parent, j, Ones(ps), |ps|);
    }
  }
}
