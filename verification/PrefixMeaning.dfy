/** What the figures of the prefix tree mean, as sets of addresses. */
module PrefixMeaning {
  import opened Basics
  import opened Sorting
  import opened Addresses
  import opened FreeAddress
  import opened PrefixTree
  import opened PrefixAccounting

  /** The assigned addresses of every address space (VRF key and family). */
  type Held = map<(Bytes, int), set<nat>>

  function Addrs(held: Held, p: Prefix): set<nat> {
    var space := (VrfKey(p.vrf), p.value.family);
    if space in held then held[space] else {}
  }

  predicate Within(p: Prefix, x: nat) { Lo(p) <= x <= Hi(p) }

  /** The assigned addresses inside a prefix, and all of its addresses. */
  ghost function In(held: Held, p: Prefix): set<nat> { set x | x in Addrs(held, p) && Within(p, x) }
  ghost function Range(p: Prefix): set<nat> { Interval(Lo(p), Hi(p) + 1) }

  /** The numbers from lo up to, not including, end. */
  ghost function Interval(lo: nat, end: nat): (r: set<nat>)
    ensures forall x: nat :: x in r <==> lo <= x < end
    ensures |r| == if lo <= end then end - lo else 0
  {
    if end <= lo then {} else Interval(lo, end - 1) + {end - 1}
  }

  /** The counts handed in are counts of one set of assigned addresses. */
  ghost predicate Consistent(ps: seq<Prefix>, counts: map<string, int>, held: Held) {
    forall i :: 0 <= i < |ps| ==> |In(held, ps[i])| == if ps[i].id in counts then counts[ps[i].id] else 0
  }

  /** The assigned addresses of j in none of its first n children, and the
      addresses of j inside one of them. */
  ghost function Direct(ps: seq<Prefix>, parent: seq<Option<nat>>, held: Held, j: nat, n: nat): set<nat>
    requires j < |ps| && n <= |parent| == |ps|
  {
    set x | x in In(held, ps[j]) && forall c :: 0 <= c < n && parent[c] == Some(j) ==> !Within(ps[c], x)
  }

  ghost function Given(ps: seq<Prefix>, parent: seq<Option<nat>>, j: nat, n: nat): set<nat>
    requires j < |ps| && n <= |parent| == |ps|
  {
    set x | x in Range(ps[j]) && exists c :: 0 <= c < n && parent[c] == Some(j) && Within(ps[c], x)
  }

  ghost predicate Tree(ps: seq<Prefix>, parent: seq<Option<nat>>, depth: seq<nat>) {
    InTreeOrder(ps) && |parent| == |depth| == |ps| && Resolved(ps, parent, depth, |ps|)
  }

  // ---- cardinalities

  lemma SizeIsRange(p: Prefix)
    requires p.value.Valid()
    ensures |Range(p)| == PrefixSize(p.value)
  {
    hide Num, AddrBit, Pow2;
    PrefixBounds(p.value.start, p.value.bits, p.value.end);
  }

  lemma RemoveCard(a: set<nat>, b: set<nat>)
    requires b <= a
    ensures |a - b| == |a| - |b|
  {
    assert a == (a - b) + b;
  }

  // ---- children

  lemma ChildInside(ps: seq<Prefix>, parent: seq<Option<nat>>, depth: seq<nat>, c: nat, j: nat)
    requires Tree(ps, parent, depth) && c < |ps| && parent[c] == Some(j)
    ensures j < c && Contains(ps[j], ps[c]) && SameSpace(ps[j], ps[c])
    ensures forall x: nat :: Within(ps[c], x) ==> Within(ps[j], x)
  {
    hide InTreeOrder, Contains;
    assert Narrowest(ps, c, j);
    ContainerFirst(ps, j, c);
    TreeStored(ps);
    ContainsIsRange(ps[j], ps[c]);
  }

  lemma TreeStored(ps: seq<Prefix>)
    requires InTreeOrder(ps)
    ensures Stored(ps)
  {
  }

  /** Two children of one entry share no address. */
  lemma SiblingsDisjoint(ps: seq<Prefix>, parent: seq<Option<nat>>, depth: seq<nat>, c: nat, d: nat, j: nat, x: nat)
    requires Tree(ps, parent, depth) && c < d < |ps| && parent[c] == Some(j) && parent[d] == Some(j)
    ensures !(Within(ps[c], x) && Within(ps[d], x))
  {
    hide InTreeOrder, Contains, Resolved, Num;
    ChildInside(ps, parent, depth, c, j);
    ChildInside(ps, parent, depth, d, j);
    TreeStored(ps);
    Laminar(ps[c], ps[d]);
    EarlierThan(ps, c, d);
    ContainsIsRange(ps[c], ps[d]);
    if Contains(ps[c], ps[d]) { NotBetween(ps, parent, depth, c, d, j); }
  }

  /** Nothing lies between an entry and its parent. */
  lemma NotBetween(ps: seq<Prefix>, parent: seq<Option<nat>>, depth: seq<nat>, c: nat, d: nat, j: nat)
    requires Tree(ps, parent, depth) && d < |ps| && parent[d] == Some(j) && c < |ps| && Contains(ps[c], ps[d])
    ensures c <= j
  {
    hide InTreeOrder, Contains;
    assert Narrowest(ps, d, j) && c in Containers(ps, d);
    if c != j { ContainerFirst(ps, c, j); }
  }

  // ---- the two sums

  /** Counts handed up by the children are the addresses that left. */
  lemma {:induction false} DirectCount(ps: seq<Prefix>, parent: seq<Option<nat>>, depth: seq<nat>, counts: map<string, int>,
                                       held: Held, j: nat, n: nat)
    requires Tree(ps, parent, depth) && Consistent(ps, counts, held) && j < |ps| && n <= |ps|
    ensures ChildSum(parent, j, Counts(ps, counts), n) == |In(held, ps[j])| - |Direct(ps, parent, held, j, n)|
  {
    hide InTreeOrder, Resolved, Within;
    if n == 0 {
      assert Direct(ps, parent, held, j, 0) == In(held, ps[j]);
    } else {
      DirectCount(ps, parent, depth, counts, held, j, n - 1);
      DirectStep(ps, parent, depth, held, j, n - 1);
    }
  }

  lemma DirectStep(ps: seq<Prefix>, parent: seq<Option<nat>>, depth: seq<nat>, held: Held, j: nat, c: nat)
    requires Tree(ps, parent, depth) && j < |ps| && c < |ps|
    ensures |Direct(ps, parent, held, j, c + 1)| ==
            |Direct(ps, parent, held, j, c)| - if parent[c] == Some(j) then |In(held, ps[c])| else 0
  {
    hide InTreeOrder, Resolved, Within;
    var before, after := Direct(ps, parent, held, j, c), Direct(ps, parent, held, j, c + 1);
    if parent[c] == Some(j) {
      ChildInside(ps, parent, depth, c, j);
      assert Addrs(held, ps[c]) == Addrs(held, ps[j]);
      forall x | x in In(held, ps[c]) ensures x in before {
        forall d | 0 <= d < c && parent[d] == Some(j) ensures !Within(ps[d], x) { SiblingsDisjoint(ps, parent, depth, d, c, j, x); }
      }
      assert after == before - In(held, ps[c]);
      RemoveCard(before, In(held, ps[c]));
    } else {
      assert after == before;
    }
  }

  /** Sizes handed up by the children are the addresses they cover. */
  lemma {:induction false} GivenCount(ps: seq<Prefix>, parent: seq<Option<nat>>, depth: seq<nat>, j: nat, n: nat)
    requires Tree(ps, parent, depth) && Stored(ps) && j < |ps| && n <= |ps|
    ensures ChildSum(parent, j, Sizes(ps), n) == |Given(ps, parent, j, n)|
  {
    hide InTreeOrder, Resolved, Within, PrefixSize;
    if n == 0 {
      assert Given(ps, parent, j, 0) == {};
    } else {
      GivenCount(ps, parent, depth, j, n - 1);
      GivenStep(ps, parent, depth, j, n - 1);
    }
  }

  lemma GivenStep(ps: seq<Prefix>, parent: seq<Option<nat>>, depth: seq<nat>, j: nat, c: nat)
    requires Tree(ps, parent, depth) && Stored(ps) && j < |ps| && c < |ps|
    ensures |Given(ps, parent, j, c + 1)| == |Given(ps, parent, j, c)| + if parent[c] == Some(j) then PrefixSize(ps[c].value) else 0
  {
    hide InTreeOrder, Resolved, Within, PrefixSize, Range, Contains, SameSpace;
    var before, after := Given(ps, parent, j, c), Given(ps, parent, j, c + 1);
    RangeIsWithin(ps[j]);
    if parent[c] == Some(j) {
      ChildInside(ps, parent, depth, c, j);
      RangeIsWithin(ps[c]);
      forall x | x in before ensures x !in Range(ps[c]) {
        var d :| 0 <= d < c && parent[d] == Some(j) && Within(ps[d], x);
        SiblingsDisjoint(ps, parent, depth, d, c, j, x);
      }
      assert after == before + Range(ps[c]);
      SizeIsRange(ps[c]);
    } else {
      assert after == before;
    }
  }

  lemma RangeIsWithin(p: Prefix)
    ensures forall x: nat :: x in Range(p) <==> Within(p, x)
  {
  }

  // ---- what a row says

  /** Every address of entry j that a child covers or that is assigned directly. */
  ghost function SpokenFor(ps: seq<Prefix>, parent: seq<Option<nat>>, held: Held, j: nat): set<nat>
    requires j < |ps| == |parent|
  {
    Given(ps, parent, j, |ps|) + Direct(ps, parent, held, j, |ps|)
  }

  /** Addresses counts exactly the assigned addresses in no child -- the clamp at
      zero never acts -- and Allocated exactly the addresses spoken for. */
  lemma RowCounts(ps: seq<Prefix>, parent: seq<Option<nat>>, depth: seq<nat>, counts: map<string, int>, nodes: seq<PrefixNode>,
                  held: Held, j: nat)
    requires IsTree(ps, parent, depth, counts, nodes) && Consistent(ps, counts, held) && j < |ps|
    ensures ChildSum(parent, j, Counts(ps, counts), |ps|) <= CountOf(counts, ps[j].id)
    ensures nodes[j].addresses == |Direct(ps, parent, held, j, |ps|)|
    ensures nodes[j].used == |SpokenFor(ps, parent, held, j)|
    ensures nodes[j].size == |Range(ps[j])|
    ensures SpokenFor(ps, parent, held, j) <= Range(ps[j])
  {
    hide InTreeOrder, Resolved, Within, PrefixSize, ChildSum;
    TreeStored(ps);
    DirectCount(ps, parent, depth, counts, held, j, |ps|);
    GivenCount(ps, parent, depth, j, |ps|);
    SizeIsRange(ps[j]);
    RangeIsWithin(ps[j]);
    assert IsRow(ps, parent, depth, counts, j, nodes[j]);
    var given, direct := Given(ps, parent, j, |ps|), Direct(ps, parent, held, j, |ps|);
    assert given !! direct;
    assert |given + direct| == |given| + |direct|;
  }

  /** x is an assigned address of j's space or inside a child of j. */
  ghost predicate Spoken(ps: seq<Prefix>, parent: seq<Option<nat>>, held: Held, j: nat, x: nat)
    requires j < |ps| == |parent|
  {
    x in Addrs(held, ps[j]) || exists c :: 0 <= c < |ps| && parent[c] == Some(j) && Within(ps[c], x)
  }

  lemma SpokenForMembers(ps: seq<Prefix>, parent: seq<Option<nat>>, held: Held, j: nat)
    requires j < |ps| == |parent|
    ensures forall x: nat :: x in SpokenFor(ps, parent, held, j) <==> Within(ps[j], x) && Spoken(ps, parent, held, j, x)
  {
    hide Within, Range;
    RangeIsWithin(ps[j]);
  }

  /** Allocated never exceeds Size, and IsFull holds exactly when every address
      is inside a child or assigned. */
  lemma FullMeansFull(ps: seq<Prefix>, parent: seq<Option<nat>>, depth: seq<nat>, counts: map<string, int>, nodes: seq<PrefixNode>,
                      held: Held, j: nat)
    requires IsTree(ps, parent, depth, counts, nodes) && Consistent(ps, counts, held) && j < |ps|
    ensures nodes[j].used <= nodes[j].size
    ensures IsFull(nodes[j]) <==> forall x: nat :: Within(ps[j], x) ==> Spoken(ps, parent, held, j, x)
  {
    hide InTreeOrder, Resolved, Within, IsRow, Consistent, Spoken, SpokenFor, Range;
    RowCounts(ps, parent, depth, counts, nodes, held, j);
    RangeIsWithin(ps[j]);
    SpokenForMembers(ps, parent, held, j);
    var spoken, range := SpokenFor(ps, parent, held, j), Range(ps[j]);
    SubsetCount(spoken, range);
    assert spoken == range <==> forall x :: x in range ==> x in spoken;
  }

  // ---- a subtree accounts for its root

  /** The child of k through which m is reached. */
  lemma {:induction false} ChildOnPath(ps: seq<Prefix>, parent: seq<Option<nat>>, depth: seq<nat>, k: nat, m: nat) returns (c: nat)
    requires Tree(ps, parent, depth) && k < |ps| && m < |ps| && Contains(ps[k], ps[m])
    ensures c < |ps| && parent[c] == Some(k) && (c == m || Contains(ps[c], ps[m]))
    decreases m
  {
    hide InTreeOrder, Contains;
    assert k in Containers(ps, m);
    var p := parent[m].value;
    assert Narrowest(ps, m, p);
    if p == k {
      c := m;
    } else {
      ChildInside(ps, parent, depth, m, p);
      c := ChildOnPath(ps, parent, depth, k, p);
      TreeStored(ps);
      if c != p { ContainsTransitive(ps[c], ps[p], ps[m]); }
    }
  }

  /** Each assigned address is direct in one entry only. */
  lemma DirectOnce(ps: seq<Prefix>, parent: seq<Option<nat>>, depth: seq<nat>, held: Held, k: nat, m: nat, x: nat)
    requires Tree(ps, parent, depth) && k < m < |ps| && SameSpace(ps[k], ps[m])
    ensures !(x in Direct(ps, parent, held, k, |ps|) && x in Direct(ps, parent, held, m, |ps|))
  {
    hide InTreeOrder, Contains, Resolved, Num;
    if x in Direct(ps, parent, held, k, |ps|) && x in Direct(ps, parent, held, m, |ps|) {
      TreeStored(ps);
      Laminar(ps[k], ps[m]);
      EarlierThan(ps, k, m);
      ContainsIsRange(ps[k], ps[m]);
      var c := ChildOnPath(ps, parent, depth, k, m);
      ContainsIsRange(ps[c], ps[m]);
    }
  }

  /** The addresses direct in one of the entries j .. m-1. */
  ghost function DirectUnion(ps: seq<Prefix>, parent: seq<Option<nat>>, held: Held, j: nat, m: nat): (r: set<nat>)
    requires j <= m <= |ps| == |parent|
    ensures forall x :: x in r <==> exists k :: j <= k < m && x in Direct(ps, parent, held, k, |ps|)
  {
    if m == j then {} else DirectUnion(ps, parent, held, j, m - 1) + Direct(ps, parent, held, m - 1, |ps|)
  }

  ghost function SumAddresses(nodes: seq<PrefixNode>, j: nat, m: nat): nat
    requires j <= m <= |nodes|
  {
    if m == j then 0 else SumAddresses(nodes, j, m - 1) + nodes[m - 1].addresses
  }

  lemma {:induction false} UnionCounts(ps: seq<Prefix>, parent: seq<Option<nat>>, depth: seq<nat>, counts: map<string, int>,
                                       nodes: seq<PrefixNode>, held: Held, j: nat, m: nat)
    requires IsTree(ps, parent, depth, counts, nodes) && Consistent(ps, counts, held) && j <= m <= |ps|
    requires forall k, i :: j <= k < i < m ==> SameSpace(ps[k], ps[i])
    ensures |DirectUnion(ps, parent, held, j, m)| == SumAddresses(nodes, j, m)
  {
    hide *;
    TreeOf(ps, parent, depth, counts, nodes);
    UnionUnfolds(ps, parent, held, nodes, j, m);
    if m > j {
      UnionCounts(ps, parent, depth, counts, nodes, held, j, m - 1);
      RowCounts(ps, parent, depth, counts, nodes, held, m - 1);
      var a, b := DirectUnion(ps, parent, held, j, m - 1), Direct(ps, parent, held, m - 1, |ps|);
      forall x | x in a ensures x !in b { NotAgain(ps, parent, depth, held, j, m - 1, x); }
      assert |a + b| == |a| + |b|;
    }
  }

  lemma TreeOf(ps: seq<Prefix>, parent: seq<Option<nat>>, depth: seq<nat>, counts: map<string, int>, nodes: seq<PrefixNode>)
    requires IsTree(ps, parent, depth, counts, nodes)
    ensures Tree(ps, parent, depth) && |nodes| == |ps| == |parent|
  {
    hide InTreeOrder, Resolved, IsRow;
  }

  lemma UnionUnfolds(ps: seq<Prefix>, parent: seq<Option<nat>>, held: Held, nodes: seq<PrefixNode>, j: nat, m: nat)
    requires j <= m <= |ps| == |parent| && |nodes| == |ps|
    ensures if m == j then DirectUnion(ps, parent, held, j, m) == {} && SumAddresses(nodes, j, m) == 0
            else
              && DirectUnion(ps, parent, held, j, m) == DirectUnion(ps, parent, held, j, m - 1) + Direct(ps, parent, held, m - 1, |ps|)
              && SumAddresses(nodes, j, m) == SumAddresses(nodes, j, m - 1) + nodes[m - 1].addresses
  {
    hide Direct;
  }

  lemma NotAgain(ps: seq<Prefix>, parent: seq<Option<nat>>, depth: seq<nat>, held: Held, j: nat, m: nat, x: nat)
    requires Tree(ps, parent, depth) && j <= m < |ps| && (forall k :: j <= k < m ==> SameSpace(ps[k], ps[m]))
    requires x in DirectUnion(ps, parent, held, j, m)
    ensures x !in Direct(ps, parent, held, m, |ps|)
  {
    hide InTreeOrder, Resolved, Direct, SameSpace;
    var k :| j <= k < m && x in Direct(ps, parent, held, k, |ps|);
    DirectOnce(ps, parent, depth, held, k, m, x);
  }

  /** [j, e) is entry j and its descendants. */
  ghost predicate Subtree(ps: seq<Prefix>, j: nat, e: nat) {
    j < e <= |ps| && forall k :: j < k < |ps| ==> (k < e <==> Contains(ps[j], ps[k]))
  }

  lemma {:induction false} LastWithin(ps: seq<Prefix>, j: nat, e: nat, x: nat) returns (k: nat)
    requires j < e <= |ps| && Within(ps[j], x)
    ensures j <= k < e && Within(ps[k], x) && forall i :: k < i < e ==> !Within(ps[i], x)
  {
    hide Within;
    if e == j + 1 || Within(ps[e - 1], x) { k := e - 1; } else { k := LastWithin(ps, j, e - 1, x); }
  }

  lemma SubtreeSpace(ps: seq<Prefix>, j: nat, e: nat, k: nat)
    requires Subtree(ps, j, e) && j <= k < e
    ensures SameSpace(ps[j], ps[k])
  {
    hide Compare;
  }

  /** The union of the direct addresses of a subtree is its root's range scan. */
  lemma SubtreeUnion(ps: seq<Prefix>, parent: seq<Option<nat>>, depth: seq<nat>, held: Held, j: nat, e: nat)
    requires Tree(ps, parent, depth) && Subtree(ps, j, e)
    ensures DirectUnion(ps, parent, held, j, e) == In(held, ps[j])
  {
    hide InTreeOrder, Contains, Resolved, Within, SameSpace;
    TreeStored(ps);
    forall k | j <= k < e ensures Addrs(held, ps[k]) == Addrs(held, ps[j]) && forall x: nat :: Within(ps[k], x) ==> Within(ps[j], x) {
      SubtreeSpace(ps, j, e, k);
      SpaceAddrs(held, ps[j], ps[k]);
      if k > j { RangeInside(ps[j], ps[k]); }
    }
    forall x | x in In(held, ps[j]) ensures x in DirectUnion(ps, parent, held, j, e) {
      var k := LastWithin(ps, j, e, x);
      forall c | 0 <= c < |ps| && parent[c] == Some(k) ensures !Within(ps[c], x) {
        ChildInside(ps, parent, depth, c, k);
        if k > j { ContainsTransitive(ps[j], ps[k], ps[c]); }
      }
      assert x in Direct(ps, parent, held, k, |ps|);
    }
  }

  lemma SpaceAddrs(held: Held, p: Prefix, q: Prefix)
    requires SameSpace(p, q)
    ensures Addrs(held, p) == Addrs(held, q)
  {
  }

  lemma RangeInside(p: Prefix, q: Prefix)
    requires p.value.Valid() && q.value.Valid() && Contains(p, q)
    ensures forall x: nat :: Within(q, x) ==> Within(p, x)
  {
    hide Contains, Num;
    ContainsIsRange(p, q);
  }

  /** Direct counts over a subtree sum to its root's count. */
  lemma SubtreeConserves(ps: seq<Prefix>, parent: seq<Option<nat>>, depth: seq<nat>, counts: map<string, int>,
                         nodes: seq<PrefixNode>, held: Held, j: nat, e: nat)
    requires IsTree(ps, parent, depth, counts, nodes) && Consistent(ps, counts, held) && Subtree(ps, j, e)
    ensures SumAddresses(nodes, j, e) == CountOf(counts, ps[j].id)
  {
    hide InTreeOrder, Resolved, IsRow, Contains;
    forall k, i | j <= k < i < e ensures SameSpace(ps[k], ps[i]) {
      SubtreeSpace(ps, j, e, k);
      SubtreeSpace(ps, j, e, i);
    }
    UnionCounts(ps, parent, depth, counts, nodes, held, j, e);
    SubtreeUnion(ps, parent, depth, held, j, e);
  }

  // ---- a full network offers nothing

  /** s is a child of j, or one assigned address of j. */
  ghost predicate ListedAs(s: Span, ps: seq<Prefix>, parent: seq<Option<nat>>, held: Held, j: nat)
    requires j < |ps| == |parent|
  {
    || (exists c :: 0 <= c < |ps| && parent[c] == Some(j) && s == Span(ps[c].value.start, ps[c].value.end))
    || (s.start == s.end && |s.start| == |ps[j].value.start| && Num(s.start) in In(held, ps[j]))
  }

  /** taken lists the children of j and its assigned addresses, and nothing else. */
  ghost predicate Lists(taken: seq<Span>, ps: seq<Prefix>, parent: seq<Option<nat>>, held: Held, j: nat)
    requires j < |ps| == |parent|
  {
    && (forall c :: 0 <= c < |ps| && parent[c] == Some(j) ==> Span(ps[c].value.start, ps[c].value.end) in taken)
    && (forall x :: x in In(held, ps[j]) ==> exists a: Bytes :: |a| == |ps[j].value.start| && Num(a) == x && Span(a, a) in taken)
    && (forall i :: 0 <= i < |taken| ==> ListedAs(taken[i], ps, parent, held, j))
  }

  lemma SpokenIsCovered(ps: seq<Prefix>, parent: seq<Option<nat>>, depth: seq<nat>, held: Held, j: nat, taken: seq<Span>, x: nat)
    requires Tree(ps, parent, depth) && j < |ps| && Lists(taken, ps, parent, held, j) && Within(ps[j], x)
    requires Spoken(ps, parent, held, j, x)
    ensures Covered(taken, |ps[j].value.start|, x)
  {
    hide InTreeOrder, Resolved, Contains, Num, AddrBit, ListedAs;
    TreeStored(ps);
    if x in Addrs(held, ps[j]) {
      assert x in In(held, ps[j]);
      var a: Bytes :| |a| == |ps[j].value.start| && Num(a) == x && Span(a, a) in taken;
      var i :| 0 <= i < |taken| && taken[i] == Span(a, a);
      assert Covers(taken[i], |ps[j].value.start|, x);
    } else {
      var c :| 0 <= c < |ps| && parent[c] == Some(j) && Within(ps[c], x);
      ChildInside(ps, parent, depth, c, j);
      var i :| 0 <= i < |taken| && taken[i] == Span(ps[c].value.start, ps[c].value.end);
      assert Covers(taken[i], |ps[j].value.start|, x);
    }
  }

  lemma CoveredIsSpoken(ps: seq<Prefix>, parent: seq<Option<nat>>, held: Held, j: nat, taken: seq<Span>, x: nat)
    requires j < |ps| == |parent| && Lists(taken, ps, parent, held, j) && Covered(taken, |ps[j].value.start|, x)
    ensures Spoken(ps, parent, held, j, x)
  {
    hide Num;
    var i :| 0 <= i < |taken| && Covers(taken[i], |ps[j].value.start|, x);
    assert ListedAs(taken[i], ps, parent, held, j);
    if c :| 0 <= c < |ps| && parent[c] == Some(j) && taken[i] == Span(ps[c].value.start, ps[c].value.end) {
      assert Within(ps[c], x);
    }
  }

  /** With a node's children and assigned addresses taken, the search for a free
      address finds none -- every address on offer is covered -- exactly when
      every address on offer is spoken for: always when the node is full, and
      only then where no address is held back. */
  lemma OffersNothingIff(ps: seq<Prefix>, parent: seq<Option<nat>>, depth: seq<nat>, counts: map<string, int>,
                         nodes: seq<PrefixNode>, held: Held, j: nat, taken: seq<Span>)
    requires IsTree(ps, parent, depth, counts, nodes) && Consistent(ps, counts, held) && j < |ps|
    requires Lists(taken, ps, parent, held, j)
    ensures var p := ps[j].value;
            var ends := p.family == 6 || p.bits >= 31;
            var none := forall x: nat :: Num(p.start) <= x <= Num(p.end) && (ends || Num(p.start) < x < Num(p.end)) ==>
                          Covered(taken, |p.start|, x);
            && (none <==> forall x: nat :: Num(p.start) <= x <= Num(p.end) && (ends || Num(p.start) < x < Num(p.end)) ==>
                            Spoken(ps, parent, held, j, x))
            && (IsFull(nodes[j]) ==> none)
            && (ends ==> (IsFull(nodes[j]) <==> none))
  {
    hide InTreeOrder, Resolved, IsRow, Contains, Num, AddrBit, Covered, Spoken, Lists, Consistent;
    FullMeansFull(ps, parent, depth, counts, nodes, held, j);
    TreeStored(ps);
    var p := ps[j].value;
    forall x: nat | Within(ps[j], x) ensures Covered(taken, |p.start|, x) <==> Spoken(ps, parent, held, j, x) {
      if Spoken(ps, parent, held, j, x) { SpokenIsCovered(ps, parent, depth, held, j, taken, x); }
      if Covered(taken, |p.start|, x) { CoveredIsSpoken(ps, parent, held, j, taken, x); }
    }
  }
}
