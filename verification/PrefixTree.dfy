/** The prefix tree: parents and depth from one sort and one stack. */
module PrefixTree {
  import opened Basics
  import opened Sorting
  import opened Addresses
  import opened FreeAddress

  /** A stored network; vrf is absent for the global table. */
  datatype Prefix = Prefix(id: string, vrf: Option<Bytes>, value: PrefixValue)

  function VrfKey(vrf: Option<Bytes>): Bytes { if vrf.None? then [] else vrf.value }

  function Lo(p: Prefix): nat { Num(p.value.start) }
  function Hi(p: Prefix): nat { Num(p.value.end) }

  /** Two prefixes of one address space. */
  predicate SameSpace(p: Prefix, q: Prefix) { VrfKey(p.vrf) == VrfKey(q.vrf) && p.value.family == q.value.family }

  /** outer strictly contains inner, decided on the stored bytes. */
  predicate Contains(outer: Prefix, inner: Prefix) {
    var o, i := outer.value, inner.value;
    && SameSpace(outer, inner)
    && Compare(o.start, i.start) <= 0 && Compare(o.end, i.end) >= 0
    && !(o.start == i.start && o.end == i.end)
  }

  // ---- tree order

  function Sign(x: int): int { if x < 0 then -1 else if x > 0 then 1 else 0 }

  /** VRF, then family, then start ascending, then the wider prefix first. */
  function TreeCompare(p: Prefix, q: Prefix): int {
    var v := Compare(VrfKey(p.vrf), VrfKey(q.vrf));
    if v != 0 then v
    else if p.value.family != q.value.family then Sign(p.value.family - q.value.family)
    else
      var s := Compare(p.value.start, q.value.start);
      if s != 0 then s else Compare(q.value.end, p.value.end)
  }

  function TreeOrder(): (Prefix, Prefix) -> bool { (p: Prefix, q: Prefix) => TreeCompare(p, q) < 0 }

  lemma TreeOrderIsOrder()
    ensures IsOrder(TreeOrder())
  {
    hide TreeCompare;
    forall p: Prefix, q: Prefix ensures TreeOrder()(p, q) ==> !TreeOrder()(q, p) { TreeCompareFlips(p, q); }
    forall p: Prefix, q: Prefix, r: Prefix | !TreeOrder()(p, q) && !TreeOrder()(q, r) ensures !TreeOrder()(p, r) {
      TreeCompareFlips(p, q);
      TreeCompareFlips(q, r);
      TreeCompareFlips(p, r);
      TreeCompareChains(r, q, p);
    }
  }

  lemma TreeCompareFlips(p: Prefix, q: Prefix)
    ensures TreeCompare(p, q) == -TreeCompare(q, p)
  {
    hide Compare;
    CompareIsOrder(VrfKey(p.vrf), VrfKey(q.vrf), []);
    CompareIsOrder(p.value.start, q.value.start, []);
    CompareIsOrder(p.value.end, q.value.end, []);
  }

  lemma TreeCompareChains(p: Prefix, q: Prefix, r: Prefix)
    requires TreeCompare(p, q) <= 0 && TreeCompare(q, r) <= 0
    ensures TreeCompare(p, r) <= 0
  {
    hide Compare;
    CompareChains(VrfKey(p.vrf), VrfKey(q.vrf), VrfKey(r.vrf));
    CompareChains(p.value.start, q.value.start, r.value.start);
    CompareChains(r.value.end, q.value.end, p.value.end);
  }

  lemma CompareChains(a: Bytes, b: Bytes, c: Bytes)
    ensures Compare(a, b) == 0 <==> a == b
    ensures Compare(b, c) == 0 <==> b == c
    ensures Compare(a, c) == 0 <==> a == c
    ensures Compare(a, b) <= 0 && Compare(b, c) <= 0 ==> Compare(a, c) <= 0
    ensures Compare(a, b) <= 0 && Compare(b, c) <= 0 && Compare(a, c) == 0 ==> a == b
  {
    hide Compare;
    CompareIsOrder(a, b, c);
    CompareIsOrder(b, c, a);
    CompareIsOrder(a, c, b);
  }

  // ---- what the numbers say

  ghost predicate Stored(ps: seq<Prefix>) {
    forall i :: 0 <= i < |ps| ==> ps[i].value.Valid()
  }

  /** Containment of the bytes is containment of the address ranges. */
  lemma ContainsIsRange(p: Prefix, q: Prefix)
    requires p.value.Valid() && q.value.Valid()
    ensures Contains(p, q) <==> SameSpace(p, q) && Lo(p) <= Lo(q) && Hi(q) <= Hi(p) && !(Lo(p) == Lo(q) && Hi(p) == Hi(q))
  {
    hide Compare, Num, AddrBit;
    if SameSpace(p, q) {
      CompareIsNumeric(p.value.start, q.value.start);
      CompareIsNumeric(p.value.end, q.value.end);
    }
  }

  /** Two prefixes of one address space are nested or disjoint. */
  lemma Laminar(p: Prefix, q: Prefix)
    requires p.value.Valid() && q.value.Valid() && SameSpace(p, q)
    ensures Hi(p) < Lo(q) || Hi(q) < Lo(p) || (Lo(p) <= Lo(q) && Hi(q) <= Hi(p)) || (Lo(q) <= Lo(p) && Hi(p) <= Hi(q))
    ensures Lo(p) <= Hi(p)
  {
    hide Num, AddrBit, Pow2, BitNum;
    var a, b := p.value, q.value;
    PrefixBounds(a.start, a.bits, a.end);
    PrefixBounds(b.start, b.bits, b.end);
    var w := 8 * |a.start|;
    if w - a.bits <= w - b.bits {
      NestedOrDisjoint(BitNum(a.start, a.bits), w - a.bits, BitNum(b.start, b.bits), w - b.bits);
    } else {
      NestedOrDisjoint(BitNum(b.start, b.bits), w - b.bits, BitNum(a.start, a.bits), w - a.bits);
    }
  }

  /** No address space lists the same range twice. */
  ghost predicate DistinctRanges(ps: seq<Prefix>) {
    forall i, j :: 0 <= i < j < |ps| && SameSpace(ps[i], ps[j]) ==>
      !(ps[i].value.start == ps[j].value.start && ps[i].value.end == ps[j].value.end)
  }

  ghost predicate InTreeOrder(ps: seq<Prefix>) {
    Stored(ps) && DistinctRanges(ps) && Sorted(TreeOrder(), ps)
  }

  /** What tree order says of two entries, in numbers. */
  lemma EarlierThan(ps: seq<Prefix>, i: nat, j: nat)
    requires InTreeOrder(ps) && i < j < |ps| && SameSpace(ps[i], ps[j])
    ensures Lo(ps[i]) < Lo(ps[j]) || (Lo(ps[i]) == Lo(ps[j]) && Hi(ps[j]) < Hi(ps[i]))
  {
    hide Compare, Num, AddrBit;
    var p, q := ps[i], ps[j];
    assert !TreeOrder()(q, p);
    CompareIsOrder(VrfKey(p.vrf), VrfKey(q.vrf), []);
    CompareIsNumeric(q.value.start, p.value.start);
    CompareIsNumeric(p.value.end, q.value.end);
    CompareIsOrder(q.value.end, p.value.end, []);
  }

  /** An address space is contiguous in tree order. */
  lemma SpaceContiguous(ps: seq<Prefix>, i: nat, k: nat, j: nat)
    requires InTreeOrder(ps) && i < k < j < |ps| && SameSpace(ps[i], ps[j])
    ensures SameSpace(ps[i], ps[k])
  {
    hide Compare, Num, AddrBit;
    assert !TreeOrder()(ps[k], ps[i]) && !TreeOrder()(ps[j], ps[k]);
    CompareChains(VrfKey(ps[i].vrf), VrfKey(ps[k].vrf), VrfKey(ps[j].vrf));
    CompareIsOrder(VrfKey(ps[i].vrf), VrfKey(ps[k].vrf), []);
    CompareIsOrder(VrfKey(ps[k].vrf), VrfKey(ps[j].vrf), []);
  }

  /** A container comes first. */
  lemma ContainerFirst(ps: seq<Prefix>, i: nat, j: nat)
    requires InTreeOrder(ps) && i < |ps| && j < |ps| && Contains(ps[i], ps[j])
    ensures i < j
  {
    hide Contains, Num, Compare, AddrBit;
    ContainsIsRange(ps[i], ps[j]);
    if j < i { EarlierThan(ps, j, i); }
  }

  /** Everything between a container and its content is content too, so the
      descendants of an entry are the block right after it. */
  lemma BlockAfter(ps: seq<Prefix>, i: nat, k: nat, j: nat)
    requires InTreeOrder(ps) && i < k < j < |ps| && Contains(ps[i], ps[j])
    ensures Contains(ps[i], ps[k])
  {
    hide Contains, Num, Compare, AddrBit;
    ContainsIsRange(ps[i], ps[j]);
    ContainsIsRange(ps[i], ps[k]);
    SpaceContiguous(ps, i, k, j);
    EarlierThan(ps, i, k);
    EarlierThan(ps, k, j);
    Laminar(ps[i], ps[k]);
    Laminar(ps[j], ps[i]);
  }

  lemma ContainsTransitive(p: Prefix, q: Prefix, r: Prefix)
    requires p.value.Valid() && q.value.Valid() && r.value.Valid() && Contains(p, q) && Contains(q, r)
    ensures Contains(p, r)
  {
    hide Contains, Num, Compare, AddrBit;
    ContainsIsRange(p, q);
    ContainsIsRange(q, r);
    ContainsIsRange(p, r);
  }

  /** Of two containers of one entry, the earlier contains the later. */
  lemma ContainersNest(ps: seq<Prefix>, i: nat, k: nat, j: nat)
    requires InTreeOrder(ps) && i < k < |ps| && j < |ps| && Contains(ps[i], ps[j]) && Contains(ps[k], ps[j])
    ensures Contains(ps[i], ps[k])
  {
    hide Contains, InTreeOrder;
    ContainerFirst(ps, k, j);
    BlockAfter(ps, i, k, j);
  }

  // ---- the stack pass

  /** The strict containers of entry i. */
  ghost function Containers(ps: seq<Prefix>, i: nat): set<nat>
    requires i < |ps|
  {
    set j: nat | j < |ps| && Contains(ps[j], ps[i])
  }

  /** parent is the narrowest strict container: contained in every other. */
  ghost predicate Narrowest(ps: seq<Prefix>, i: nat, parent: nat)
    requires i < |ps|
  {
    && parent in Containers(ps, i)
    && forall j :: j in Containers(ps, i) && j != parent ==> Contains(ps[j], ps[parent])
  }

  /** The open ancestors before entry i is looked at: its predecessor and
      everything that contains it, outermost first. */
  ghost predicate Open(ps: seq<Prefix>, i: nat, stack: seq<nat>)
    requires i <= |ps|
  {
    && (forall k :: 0 <= k < |stack| ==> stack[k] < i)
    && (forall k, m :: 0 <= k < m < |stack| ==> stack[k] < stack[m])
    && (forall k, m :: 0 <= k < m < |stack| ==> Contains(ps[stack[k]], ps[stack[m]]))
    && (i > 0 ==> forall j :: 0 <= j < i && (j == i - 1 || Contains(ps[j], ps[i - 1])) ==> j in stack)
  }

  /** parent and depth are right for the first n entries. */
  ghost predicate Resolved(ps: seq<Prefix>, parent: seq<Option<nat>>, depth: seq<nat>, n: nat)
    requires |parent| == |depth| == n <= |ps|
  {
    forall i :: 0 <= i < n ==>
      && depth[i] == |Containers(ps, i)|
      && (parent[i].None? <==> Containers(ps, i) == {})
      && (parent[i].Some? ==> Narrowest(ps, i, parent[i].value))
  }

  /** Whatever contains entry i is still open when i is reached. */
  lemma AncestorOpen(ps: seq<Prefix>, i: nat, stack: seq<nat>, j: nat)
    requires InTreeOrder(ps) && i < |ps| && Open(ps, i, stack) && j < |ps| && Contains(ps[j], ps[i])
    ensures j in stack
  {
    hide Contains, InTreeOrder;
    ContainerFirst(ps, j, i);
    if j < i - 1 { BlockAfter(ps, j, i - 1, i); }
  }

  /** Everything that contains entry i is on the stack. */
  ghost predicate HoldsContainers(ps: seq<Prefix>, i: nat, stack: seq<nat>)
    requires i < |ps|
  {
    forall j :: 0 <= j < |ps| && Contains(ps[j], ps[i]) ==> j in stack
  }

  lemma PopOne(ps: seq<Prefix>, i: nat, stack: seq<nat>)
    requires i < |ps| && HoldsContainers(ps, i, stack) && stack != []
    requires stack[|stack| - 1] < |ps| ==> !Contains(ps[stack[|stack| - 1]], ps[i])
    ensures HoldsContainers(ps, i, stack[..|stack| - 1])
  {
    hide Contains;
    assert stack == stack[..|stack| - 1] + [stack[|stack| - 1]];
  }

  lemma OpenHolds(ps: seq<Prefix>, i: nat, stack: seq<nat>)
    requires InTreeOrder(ps) && i < |ps| && Open(ps, i, stack)
    ensures HoldsContainers(ps, i, stack)
    ensures forall k :: 0 <= k < |stack| ==> stack[k] < i
    ensures forall k, m :: 0 <= k < m < |stack| ==> stack[k] < stack[m] && Contains(ps[stack[k]], ps[stack[m]])
  {
    hide Contains, InTreeOrder;
    forall j: nat | j < |ps| && Contains(ps[j], ps[i]) ensures j in stack { AncestorOpen(ps, i, stack, j); }
  }

  method PopTo(ps: seq<Prefix>, i: nat, stack0: seq<nat>) returns (stack: seq<nat>)
    requires InTreeOrder(ps) && i < |ps| && Open(ps, i, stack0)
    ensures (forall k :: 0 <= k < |stack| ==> stack[k] < i && Contains(ps[stack[k]], ps[i]))
    ensures (forall k, m :: 0 <= k < m < |stack| ==> stack[k] < stack[m] && Contains(ps[stack[k]], ps[stack[m]]))
    ensures forall j :: j in Containers(ps, i) <==> j in stack
  {
    hide Contains, InTreeOrder, Open, HoldsContainers;
    stack := stack0;
    OpenHolds(ps, i, stack);
    while stack != [] && !Contains(ps[stack[|stack| - 1]], ps[i])
      invariant |stack| <= |stack0| && stack == stack0[..|stack|] && HoldsContainers(ps, i, stack)
      decreases |stack|
    {
      PopOne(ps, i, stack);
      stack := stack[..|stack| - 1];
    }
    AllContain(ps, i, stack);
    HeldAre(ps, i, stack);
  }

  lemma HeldAre(ps: seq<Prefix>, i: nat, stack: seq<nat>)
    requires i < |ps| && HoldsContainers(ps, i, stack) && forall k :: 0 <= k < |stack| ==> stack[k] < |ps| && Contains(ps[stack[k]], ps[i])
    ensures forall j :: j in Containers(ps, i) <==> j in stack
  {
    hide Contains;
  }

  /** When the innermost open entry contains i, all of them do. */
  lemma AllContain(ps: seq<Prefix>, i: nat, stack: seq<nat>)
    requires InTreeOrder(ps) && i < |ps|
    requires forall k :: 0 <= k < |stack| ==> stack[k] < |ps|
    requires forall k, m :: 0 <= k < m < |stack| ==> Contains(ps[stack[k]], ps[stack[m]])
    requires stack == [] || Contains(ps[stack[|stack| - 1]], ps[i])
    ensures forall k :: 0 <= k < |stack| ==> Contains(ps[stack[k]], ps[i])
  {
    hide Contains, Sorted, DistinctRanges;
    forall k | 0 <= k < |stack| - 1 ensures Contains(ps[stack[k]], ps[i]) {
      ContainsTransitive(ps[stack[k]], ps[stack[|stack| - 1]], ps[i]);
    }
  }

  /** The open ancestors once entry i has been pushed. */
  lemma PushedOpen(ps: seq<Prefix>, i: nat, stack: seq<nat>)
    requires InTreeOrder(ps) && i < |ps|
    requires forall k :: 0 <= k < |stack| ==> stack[k] < i && Contains(ps[stack[k]], ps[i])
    requires forall k, m :: 0 <= k < m < |stack| ==> stack[k] < stack[m] && Contains(ps[stack[k]], ps[stack[m]])
    requires forall j :: j in Containers(ps, i) <==> j in stack
    ensures Open(ps, i + 1, stack + [i])
  {
    hide Contains, InTreeOrder;
    forall j | 0 <= j < i + 1 && (j == i || Contains(ps[j], ps[i])) ensures j in stack + [i] {
      assert j != i ==> j in Containers(ps, i);
    }
  }

  /** A list without repeats has as many members as places. */
  lemma {:induction false} ListedSet(s: seq<nat>, members: set<nat>)
    requires forall j :: j in members <==> j in s
    requires forall k, m :: 0 <= k < m < |s| ==> s[k] < s[m]
    ensures |members| == |s|
  {
    if s != [] {
      var last, init := s[|s| - 1], s[..|s| - 1];
      assert s == init + [last];
      forall j ensures j in members - {last} <==> j in init {
        if j in init { var k :| 0 <= k < |init| && init[k] == j; assert s[k] < last; }
      }
      ListedSet(init, members - {last});
    } else {
      assert members == {};
    }
  }

  /** What is left on the stack gives entry i its parent and depth. */
  lemma TopIsParent(ps: seq<Prefix>, i: nat, stack: seq<nat>)
    requires InTreeOrder(ps) && i < |ps|
    requires forall k, m :: 0 <= k < m < |stack| ==> stack[k] < stack[m] && stack[m] < |ps| && Contains(ps[stack[k]], ps[stack[m]])
    requires forall j :: j in Containers(ps, i) <==> j in stack
    ensures |Containers(ps, i)| == |stack|
    ensures stack != [] ==> Narrowest(ps, i, stack[|stack| - 1])
    ensures stack != [] ==> |Containers(ps, stack[|stack| - 1])| == |stack| - 1
  {
    hide Contains, InTreeOrder;
    ListedSet(stack, Containers(ps, i));
    if stack != [] {
      var top, init := stack[|stack| - 1], stack[..|stack| - 1];
      assert top in Containers(ps, i);
      forall j | j in Containers(ps, i) && j != top ensures Contains(ps[j], ps[top]) {
        var k :| 0 <= k < |stack| && stack[k] == j;
      }
      forall j: nat ensures j in Containers(ps, top) <==> j in init {
        if j in init { var k :| 0 <= k < |init| && init[k] == j; assert stack[k] == j; }
        if j in Containers(ps, top) { OuterContainer(ps, i, top, j, stack); }
      }
      ListedSet(init, Containers(ps, top));
    }
  }

  lemma OuterContainer(ps: seq<Prefix>, i: nat, top: nat, j: nat, stack: seq<nat>)
    requires InTreeOrder(ps) && i < |ps| && j < |ps| && top < |ps| && Contains(ps[j], ps[top]) && Contains(ps[top], ps[i])
    requires forall j :: j in Containers(ps, i) <==> j in stack
    requires stack != [] && stack[|stack| - 1] == top
    ensures j in stack[..|stack| - 1]
  {
    hide Contains, Sorted, DistinctRanges;
    ContainsTransitive(ps[j], ps[top], ps[i]);
    ContainerFirst(ps, j, top);
    assert j in Containers(ps, i);
    var k :| 0 <= k < |stack| && stack[k] == j;
    assert stack[..|stack| - 1][k] == j;
  }

  /** Parents and depths of a list in tree order. */
  method Resolve(ps: seq<Prefix>) returns (parent: seq<Option<nat>>, depth: seq<nat>)
    requires InTreeOrder(ps)
    ensures |parent| == |depth| == |ps| && Resolved(ps, parent, depth, |ps|)
  {
    hide InTreeOrder, Contains, Containers, Narrowest, Open;
    parent, depth := [], [];
    var stack: seq<nat> := [];
    EmptyOpen(ps);
    for i := 0 to |ps|
      invariant |parent| == |depth| == i && Open(ps, i, stack) && Resolved(ps, parent, depth, i)
    {
      stack := PopTo(ps, i, stack);
      TopIsParent(ps, i, stack);
      NoContainers(ps, i);
      if stack != [] {
        var top := stack[|stack| - 1];
        parent, depth := parent + [Some(top)], depth + [depth[top] + 1];
      } else {
        parent, depth := parent + [None], depth + [0];
      }
      PushedOpen(ps, i, stack);
      stack := stack + [i];
    }
  }

  lemma EmptyOpen(ps: seq<Prefix>)
    ensures Open(ps, 0, [])
  {
  }

  lemma NoContainers(ps: seq<Prefix>, i: nat)
    requires i < |ps|
    ensures Containers(ps, i) == {} <==> |Containers(ps, i)| == 0
  {
  }
}
