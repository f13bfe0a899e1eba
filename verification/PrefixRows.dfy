/** The rows of the prefix tree read off the rows alone: who is above whom, in
    which order they come, and what they add up. */
module PrefixRows {
  import opened Basics
  import opened Sorting
  import opened Addresses
  import opened FreeAddress
  import opened PrefixTree
  import opened PrefixAccounting
  import opened PrefixMeaning

  /** No VRF and an empty one are both the global table. */
  ghost predicate Global(p: Prefix) { p.vrf == None || p.vrf == Some([]) }

  ghost predicate SameTable(p: Prefix, q: Prefix) { Global(p) == Global(q) && (!Global(p) ==> p.vrf == q.vrf) }

  /** p and q are of one table and one family, q's addresses are among p's, and the
      two are not the same range. */
  ghost predicate Holds(p: Prefix, q: Prefix) {
    && SameTable(p, q) && p.value.family == q.value.family
    && Num(p.value.start) <= Num(q.value.start) && Num(q.value.end) <= Num(p.value.end)
    && (Num(p.value.start) < Num(q.value.start) || Num(q.value.end) < Num(p.value.end))
  }

  lemma HoldsIsContains(p: Prefix, q: Prefix)
    requires p.value.Valid() && q.value.Valid()
    ensures Holds(p, q) <==> Contains(p, q)
  {
    hide Num, Contains, AddrBit;
    ContainsIsRange(p, q);
  }

  /** The rows above row j. */
  ghost function Above(nodes: seq<PrefixNode>, j: nat): set<nat>
    requires j < |nodes|
  {
    set k: nat | k < |nodes| && Holds(nodes[k].prefix, nodes[j].prefix)
  }

  /** The rows that name row j as their parent. */
  ghost function Below(nodes: seq<PrefixNode>, j: nat, n: nat): set<nat>
    requires j < |nodes| && n <= |nodes|
  {
    set c: nat | c < n && nodes[c].parentID == Some(nodes[j].prefix.id)
  }

  ghost function CountedIn(counts: map<string, int>, id: string): int { if id in counts then counts[id] else 0 }

  /** What those rows, up to the n-th, count, and how many addresses they cover. */
  ghost function CountBelow(nodes: seq<PrefixNode>, counts: map<string, int>, j: nat, n: nat): int
    requires j < |nodes| && n <= |nodes|
  {
    if n == 0 then 0
    else CountBelow(nodes, counts, j, n - 1) + if nodes[n - 1].parentID == Some(nodes[j].prefix.id) then CountedIn(counts, nodes[n - 1].prefix.id) else 0
  }

  ghost function SizeBelow(nodes: seq<PrefixNode>, j: nat, n: nat): int
    requires j < |nodes| && n <= |nodes|
  {
    if n == 0 then 0
    else SizeBelow(nodes, j, n - 1) + if nodes[n - 1].parentID == Some(nodes[j].prefix.id) then Spread(nodes[n - 1].prefix) else 0
  }

  ghost function Spread(p: Prefix): int { Num(p.value.end) - Num(p.value.start) + 1 }

  // ---- from the tree to its rows

  lemma RowOf(ps: seq<Prefix>, parent: seq<Option<nat>>, depth: seq<nat>, counts: map<string, int>, nodes: seq<PrefixNode>, i: nat)
    requires IsTree(ps, parent, depth, counts, nodes) && i < |ps|
    ensures |parent| == |depth| == |nodes| == |ps| && Stored(ps) && ps[i].value.Valid() && nodes[i].prefix == ps[i]
    ensures parent[i].Some? ==> parent[i].value < i
    ensures nodes[i].parentID == if parent[i].None? then None else Some(ps[parent[i].value].id)
    ensures IsRow(ps, parent, depth, counts, i, nodes[i])
  {
    hide Resolved, Sorted, DistinctRanges, ChildSum, PrefixSize;
  }

  lemma ParentNamed(ps: seq<Prefix>, parent: seq<Option<nat>>, depth: seq<nat>, counts: map<string, int>, nodes: seq<PrefixNode>, c: nat, j: nat)
    requires IsTree(ps, parent, depth, counts, nodes) && DistinctIDs(ps) && c < |ps| && j < |ps|
    ensures |nodes| == |parent| == |ps|
    ensures nodes[c].parentID == Some(nodes[j].prefix.id) <==> parent[c] == Some(j)
  {
    hide IsTree, IsRow;
    RowOf(ps, parent, depth, counts, nodes, c);
    RowOf(ps, parent, depth, counts, nodes, j);
  }

  lemma {:induction false} BelowAgrees(ps: seq<Prefix>, parent: seq<Option<nat>>, depth: seq<nat>, counts: map<string, int>,
                                             nodes: seq<PrefixNode>, j: nat, n: nat)
    requires IsTree(ps, parent, depth, counts, nodes) && DistinctIDs(ps) && j < |ps| && n <= |ps| == |nodes| == |parent|
    ensures ChildSum(parent, j, Ones(ps), n) == |Below(nodes, j, n)|
  {
    hide IsTree, DistinctIDs;
    if n == 0 {
      assert Below(nodes, j, 0) == {};
    } else {
      BelowAgrees(ps, parent, depth, counts, nodes, j, n - 1);
      ParentNamed(ps, parent, depth, counts, nodes, n - 1, j);
      assert Below(nodes, j, n) == Below(nodes, j, n - 1) + if parent[n - 1] == Some(j) then {n - 1} else {};
    }
  }

  lemma {:induction false} SumsAgree(ps: seq<Prefix>, parent: seq<Option<nat>>, depth: seq<nat>, counts: map<string, int>,
                                           nodes: seq<PrefixNode>, j: nat, n: nat)
    requires IsTree(ps, parent, depth, counts, nodes) && DistinctIDs(ps) && Stored(ps) && j < |ps| && n <= |ps| == |nodes| == |parent|
    ensures ChildSum(parent, j, Counts(ps, counts), n) == CountBelow(nodes, counts, j, n)
    ensures ChildSum(parent, j, Sizes(ps), n) == SizeBelow(nodes, j, n)
  {
    hide IsTree, DistinctIDs, PrefixSize, Spread, Stored, IsRow;
    if n > 0 {
      SumsAgree(ps, parent, depth, counts, nodes, j, n - 1);
      ParentNamed(ps, parent, depth, counts, nodes, n - 1, j);
      RowOf(ps, parent, depth, counts, nodes, n - 1);
      SpreadIsSize(ps[n - 1]);
    }
  }

  lemma SpreadIsSize(p: Prefix)
    requires p.value.Valid()
    ensures PrefixSize(p.value) == Spread(p)
  {
    hide Num, AddrBit, Pow2;
    PrefixBounds(p.value.start, p.value.bits, p.value.end);
  }

  /** The tree of distinctly named prefixes, and the list behind its rows. */
  lemma TreeBehind(prefixes: seq<Prefix>, counts: map<string, int>, nodes: seq<PrefixNode>)
      returns (ps: seq<Prefix>, parent: seq<Option<nat>>, depth: seq<nat>)
    requires DistinctIDs(prefixes) && IsTreeOf(prefixes, counts, nodes)
    ensures multiset(ps) == multiset(prefixes) && IsTree(ps, parent, depth, counts, nodes) && DistinctIDs(ps)
  {
    hide IsTree;
    ps, parent, depth :| multiset(ps) == multiset(prefixes) && IsTree(ps, parent, depth, counts, nodes);
    assert NoDup(prefixes);
    Rearranged(prefixes, ps);
    forall i, j | 0 <= i < j < |ps| ensures ps[i].id != ps[j].id { assert ps[i] in prefixes && ps[j] in prefixes && ps[i] != ps[j]; }
  }

  /** Every prefix has one row. */
  lemma RowsArePrefixes(prefixes: seq<Prefix>, counts: map<string, int>, nodes: seq<PrefixNode>)
    requires IsTreeOf(prefixes, counts, nodes)
    ensures multiset(seq(|nodes|, i requires 0 <= i < |nodes| => nodes[i].prefix)) == multiset(prefixes)
  {
    hide IsTree;
    var ps, parent, depth :| multiset(ps) == multiset(prefixes) && IsTree(ps, parent, depth, counts, nodes);
    assert |nodes| == |ps| by { TreeOf(ps, parent, depth, counts, nodes); }
    forall i | 0 <= i < |ps| ensures nodes[i].prefix == ps[i] { RowOf(ps, parent, depth, counts, nodes, i); }
    assert seq(|nodes|, i requires 0 <= i < |nodes| => nodes[i].prefix) == ps;
  }

  /** A row's depth is how many rows hold it; its parent is the one of them that all
      others hold, and comes before it; and a row that none holds has none. */
  lemma RowPlace(prefixes: seq<Prefix>, counts: map<string, int>, nodes: seq<PrefixNode>, j: nat)
    requires DistinctIDs(prefixes) && IsTreeOf(prefixes, counts, nodes) && j < |nodes|
    ensures nodes[j].depth == |Above(nodes, j)|
    ensures nodes[j].parentID.None? <==> Above(nodes, j) == {}
    ensures nodes[j].parentID.Some? ==>
              exists k :: 0 <= k < j && nodes[k].prefix.id == nodes[j].parentID.value && k in Above(nodes, j) &&
                forall m :: m in Above(nodes, j) && m != k ==> Holds(nodes[m].prefix, nodes[k].prefix)
  {
    hide IsTree, IsTreeOf, IsRow, Holds, Contains, Stored, DistinctIDs;
    var ps, parent, depth := TreeBehind(prefixes, counts, nodes);
    TreeOf(ps, parent, depth, counts, nodes);
    forall k | 0 <= k < |ps| ensures nodes[k].prefix == ps[k] && ps[k].value.Valid() { RowOf(ps, parent, depth, counts, nodes, k); }
    forall k, m | 0 <= k < |ps| && 0 <= m < |ps| ensures Holds(nodes[k].prefix, nodes[m].prefix) <==> Contains(ps[k], ps[m]) {
      HoldsIsContains(ps[k], ps[m]);
    }
    assert Above(nodes, j) == Containers(ps, j);
    RowOf(ps, parent, depth, counts, nodes, j);
    DepthOf(ps, parent, depth, j);
    DepthShown(ps, parent, depth, counts, j, nodes[j]);
    if parent[j].Some? {
      var k := parent[j].value;
      assert k in Above(nodes, j) && nodes[k].prefix.id == nodes[j].parentID.value;
    }
  }

  lemma DepthOf(ps: seq<Prefix>, parent: seq<Option<nat>>, depth: seq<nat>, j: nat)
    requires Tree(ps, parent, depth) && j < |ps|
    ensures depth[j] == |Containers(ps, j)| && (parent[j].None? <==> Containers(ps, j) == {})
    ensures parent[j].Some? ==> Narrowest(ps, j, parent[j].value)
  {
    hide InTreeOrder, Narrowest, Containers;
  }

  lemma DepthShown(ps: seq<Prefix>, parent: seq<Option<nat>>, depth: seq<nat>, counts: map<string, int>, i: nat, n: PrefixNode)
    requires Stored(ps) && |parent| == |depth| == |ps| && i < |ps| && (forall k :: 0 <= k < |ps| ==> parent[k].Some? ==> parent[k].value < |ps|)
    requires IsRow(ps, parent, depth, counts, i, n)
    ensures n.depth == depth[i]
  {
    hide ChildSum, PrefixSize, Stored;
  }

  /** What a row says of its network: how many rows name it as their parent, how
      many addresses it spans, how many of them are counted here and in no child,
      and how many are spoken for. */
  lemma RowFigures(prefixes: seq<Prefix>, counts: map<string, int>, nodes: seq<PrefixNode>, j: nat)
    requires DistinctIDs(prefixes) && IsTreeOf(prefixes, counts, nodes) && j < |nodes|
    ensures var p := nodes[j].prefix;
            var own := CountedIn(counts, p.id) - CountBelow(nodes, counts, j, |nodes|);
            && nodes[j].children == |Below(nodes, j, |nodes|)|
            && nodes[j].size == Num(p.value.end) - Num(p.value.start) + 1
            && nodes[j].addresses == (if own < 0 then 0 else own)
            && nodes[j].used == SizeBelow(nodes, j, |nodes|) + nodes[j].addresses
  {
    hide IsTree, IsTreeOf, DistinctIDs, ChildSum, PrefixSize, Below, CountBelow, SizeBelow;
    var ps, parent, depth := TreeBehind(prefixes, counts, nodes);
    TreeOf(ps, parent, depth, counts, nodes);
    RowOf(ps, parent, depth, counts, nodes, j);
    BelowAgrees(ps, parent, depth, counts, nodes, j, |ps|);
    SumsAgree(ps, parent, depth, counts, nodes, j, |ps|);
    SpreadIsSize(ps[j]);
  }

  /** The order of the rows: table by table, IPv4 before IPv6 within one, and within
      a family by first address, the wider range first. */
  lemma RowOrder(prefixes: seq<Prefix>, counts: map<string, int>, nodes: seq<PrefixNode>, i: nat, j: nat)
    requires DistinctIDs(prefixes) && IsTreeOf(prefixes, counts, nodes) && i < j < |nodes|
    ensures var p, q := nodes[i].prefix, nodes[j].prefix;
            if SameTable(p, q) then
              || p.value.family < q.value.family
              || (p.value.family == q.value.family && Num(p.value.start) < Num(q.value.start))
              || (p.value.family == q.value.family && Num(p.value.start) == Num(q.value.start) && Num(p.value.end) > Num(q.value.end))
            else Global(p) || (!Global(q) && Compare(p.vrf.value, q.vrf.value) < 0)
  {
    hide IsTree, IsTreeOf, IsRow, Num, Compare, DistinctIDs;
    var ps, parent, depth := TreeBehind(prefixes, counts, nodes);
    TreeOf(ps, parent, depth, counts, nodes);
    RowOf(ps, parent, depth, counts, nodes, i);
    RowOf(ps, parent, depth, counts, nodes, j);
    OrderOf(ps, i, j);
  }

  lemma OrderOf(ps: seq<Prefix>, i: nat, j: nat)
    requires InTreeOrder(ps) && i < j < |ps|
    ensures var p, q := ps[i], ps[j];
            if SameTable(p, q) then
              || p.value.family < q.value.family
              || (p.value.family == q.value.family && Num(p.value.start) < Num(q.value.start))
              || (p.value.family == q.value.family && Num(p.value.start) == Num(q.value.start) && Num(p.value.end) > Num(q.value.end))
            else Global(p) || (!Global(q) && Compare(p.vrf.value, q.vrf.value) < 0)
  {
    hide Num, Compare, AddrBit;
    var p, q := ps[i], ps[j];
    if SameSpace(p, q) { EarlierThan(ps, i, j); }
    assert !TreeOrder()(q, p);
    var a, b := VrfKey(p.vrf), VrfKey(q.vrf);
    CompareIsOrder(a, b, []);
    CompareIsOrder(b, a, []);
    CompareIsOrder(a, [], []);
    EmptyFirst(a);
    assert Global(p) <==> a == [];
    assert Global(q) <==> b == [];
  }

  lemma EmptyFirst(a: Bytes)
    ensures Compare(a, []) >= 0 && (Compare(a, []) == 0 <==> a == [])
  {
  }
}
