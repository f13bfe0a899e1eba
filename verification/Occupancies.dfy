/** Several tenants in one machine, and a pool's storage claims by project. */
module Occupancies {
  import opened Sorting
  import opened Addresses
  import opened Apportionment
  import opened Attribution

  // ---- totals per key

  function Get(m: map<string, int>, k: string): int { if k in m then m[k] else 0 }

  /** m with v more under k. */
  function Plus(m: map<string, int>, k: string, v: int): map<string, int> { m[k := Get(m, k) + v] }

  ghost function MapSum(m: map<string, int>): int {
    if m == map[] then 0 else var k :| k in m; m[k] + MapSum(m - {k})
  }

  lemma {:induction false} MapSumWithout(m: map<string, int>, k: string)
    requires k in m
    ensures MapSum(m) == m[k] + MapSum(m - {k})
    decreases |m|
  {
    var j :| j in m && MapSum(m) == m[j] + MapSum(m - {j});
    if j != k {
      MapSumWithout(m - {j}, k);
      MapSumWithout(m - {k}, j);
      assert m - {j} - {k} == m - {k} - {j};
    }
  }

  lemma MapSumPlus(m: map<string, int>, k: string, v: int)
    ensures MapSum(Plus(m, k, v)) == MapSum(m) + v
  {
    var m' := Plus(m, k, v);
    MapSumWithout(m', k);
    assert m' - {k} == m - {k};
    if k in m { MapSumWithout(m, k); } else { assert m - {k} == m; }
  }

  lemma PlusGet(m: map<string, int>, k: string, v: int)
    ensures forall id :: Get(Plus(m, k, v), id) == Get(m, id) + if id == k then v else 0
    ensures Plus(m, k, v).Keys == m.Keys + {k}
  {
  }

  lemma GetWithout(m: map<string, int>, k: string)
    ensures forall id :: Get(m - {k}, id) == if id == k then 0 else Get(m, id)
    ensures k in m ==> Get(m, k) == m[k]
  {
  }

  // ---- occupancy

  datatype Occupant = Occupant(projectID: string, percent: nat)
  type Occupancy = seq<Occupant>

  function Percent(): Occupant -> int { (o: Occupant) => o.percent }

  function DeclaredPercent(o: Occupancy): int { SumBy(Percent(), o) }

  function Denominator(o: Occupancy): int { if DeclaredPercent(o) > 100 then DeclaredPercent(o) else 100 }

  /** The occupants' shares, and the undeclared remainder as a last, unnamed one. */
  function Shares(o: Occupancy): (w: seq<nat>)
    ensures |w| == |o| + if DeclaredPercent(o) < 100 then 1 else 0
  {
    var declared := seq(|o|, i requires 0 <= i < |o| => o[i].percent);
    var slack := Denominator(o) - DeclaredPercent(o);
    if slack > 0 then declared + [slack] else declared
  }

  lemma {:induction false} PercentsSum(o: Occupancy)
    ensures Sum(seq(|o|, i requires 0 <= i < |o| => o[i].percent)) == DeclaredPercent(o)
  {
    if o != [] {
      PercentsSum(o[..|o| - 1]);
      var s := seq(|o|, i requires 0 <= i < |o| => o[i].percent);
      assert s[..|o| - 1] == seq(|o| - 1, i requires 0 <= i < |o| - 1 => o[..|o| - 1][i].percent);
    }
  }

  /** Shares and slack always make up the denominator. */
  lemma SharesSum(o: Occupancy)
    ensures Sum(Shares(o)) == Denominator(o)
  {
    hide SumBy;
    PercentsSum(o);
    var declared: seq<nat> := seq(|o|, i requires 0 <= i < |o| => o[i].percent);
    if DeclaredPercent(o) < 100 {
      var slack: nat := Denominator(o) - DeclaredPercent(o);
      SumAppend(Same(), declared, [slack]);
      SumOne(Same(), slack);
    }
  }

  /** The first k parts added up under their projects' ids. */
  ghost function ByProject(o: Occupancy, parts: seq<nat>, k: nat): map<string, int>
    requires k <= |o| <= |parts|
  {
    if k == 0 then map[] else Plus(ByProject(o, parts, k - 1), o[k - 1].projectID, parts[k - 1])
  }

  lemma {:induction false} ByProjectSum(o: Occupancy, parts: seq<nat>, k: nat)
    requires k <= |o| <= |parts|
    ensures MapSum(ByProject(o, parts, k)) == Sum(parts[..k])
    ensures forall id :: id in ByProject(o, parts, k) ==> ByProject(o, parts, k)[id] >= 0
  {
    if k > 0 {
      ByProjectSum(o, parts, k - 1);
      MapSumPlus(ByProject(o, parts, k - 1), o[k - 1].projectID, parts[k - 1]);
      assert parts[..k][..k - 1] == parts[..k - 1];
    }
  }

  /** How a quantity divides between the occupants: the largest-remainder parts,
      with the slack's part going to nobody. */
  ghost predicate SplitAs(o: Occupancy, amount: int, out: map<string, int>, parts: seq<nat>) {
    if amount <= 0 || o == [] then out == map[] && parts == []
    else LargestRemainder(amount, Shares(o), Denominator(o), parts) && out == ByProject(o, parts, |o|)
  }

  method Split(o: Occupancy, amount: int) returns (out: map<string, int>)
    ensures exists parts :: SplitAs(o, amount, out, parts)
  {
    hide LargestRemainder, SumBy;
    out := map[];
    if amount <= 0 || o == [] {
      assert SplitAs(o, amount, out, []);
      return;
    }
    SharesSum(o);
    var parts := Apportion(amount, Shares(o), Denominator(o));
    for i := 0 to |o|
      invariant out == ByProject(o, parts, i)
    {
      out := Plus(out, o[i].projectID, parts[i]);
    }
    assert SplitAs(o, amount, out, parts);
  }

  /** Never more than the whole; all of it when the declared shares reach 100;
      otherwise exactly the slack's part stays with nobody. */
  lemma SplitAccounts(o: Occupancy, amount: int, out: map<string, int>, parts: seq<nat>)
    requires SplitAs(o, amount, out, parts) && amount > 0 && o != []
    ensures MapSum(out) == if DeclaredPercent(o) < 100 then amount - parts[|o|] else amount
    ensures MapSum(out) <= amount && forall id :: id in out ==> out[id] >= 0
  {
    hide SumBy, ByProject;
    ByProjectSum(o, parts, |o|);
    if DeclaredPercent(o) < 100 {
      assert parts == parts[..|o|] + [parts[|o|]];
      SumAppend(Same(), parts[..|o|], [parts[|o|]]);
      SumOne(Same(), parts[|o|]);
    } else {
      assert parts == parts[..|o|];
    }
  }

  // ---- a pool's claims, grouped by project

  datatype StorageClaim = StorageClaim(assetID: string, allocatedGB: nat)

  function Gigabytes(): StorageClaim -> int { (c: StorageClaim) => c.allocatedGB }

  /** Totals per project, and the order the projects were first seen in. */
  class Ledger {
    var byProject: map<string, int>
    var order: seq<string>

    ghost predicate Valid()
      reads this
    {
      NoDup(order) && forall id :: id in order <==> id in byProject
    }

    constructor ()
      ensures Valid() && byProject == map[] && order == []
    {
      byProject, order := map[], [];
    }

    method Add(id: string, gb: int)
      requires Valid()
      modifies this
      ensures Valid() && byProject == Plus(old(byProject), id, gb)
      ensures order == if id in old(byProject) then old(order) else old(order) + [id]
      ensures MapSum(byProject) == old(MapSum(byProject)) + gb
    {
      hide MapSum;
      MapSumPlus(byProject, id, gb);
      if id !in byProject {
        order := order + [id];
      }
      byProject := Plus(byProject, id, gb);
    }

    /** Every part of a split added, in whatever order the map is ranged over;
        what they come to is returned. */
    method AddAll(parts: map<string, int>) returns (total: int)
      requires Valid()
      modifies this
      ensures Valid() && total == MapSum(parts) && MapSum(byProject) == old(MapSum(byProject)) + total
      ensures byProject.Keys == old(byProject).Keys + parts.Keys && old(order) <= order
      ensures forall id :: Get(byProject, id) == old(Get(byProject, id)) + Get(parts, id)
    {
      hide MapSum, NoDup, Get, Plus, Moved;
      total := 0;
      var rest := parts;
      MovedNone(byProject, parts);
      while rest != map[]
        invariant Valid() && total + MapSum(rest) == MapSum(parts)
        invariant MapSum(byProject) == old(MapSum(byProject)) + total && old(order) <= order
        invariant Moved(old(byProject), byProject, parts, rest)
        decreases |rest|
      {
        var id :| id in rest;
        MapSumWithout(rest, id);
        MovedOne(old(byProject), byProject, parts, rest, id);
        Add(id, rest[id]);
        total := total + rest[id];
        rest := rest - {id};
      }
      EmptySum();
      MovedAll(old(byProject), byProject, parts);
    }
  }

  /** Everything of parts but rest has been added to before. */
  ghost predicate Moved(before: map<string, int>, after: map<string, int>, parts: map<string, int>, rest: map<string, int>) {
    && after.Keys + rest.Keys == before.Keys + parts.Keys
    && forall id :: Get(after, id) + Get(rest, id) == Get(before, id) + Get(parts, id)
  }

  lemma MovedNone(before: map<string, int>, parts: map<string, int>)
    ensures Moved(before, before, parts, parts)
  {
  }

  lemma MovedOne(before: map<string, int>, after: map<string, int>, parts: map<string, int>, rest: map<string, int>, id: string)
    requires Moved(before, after, parts, rest) && id in rest
    ensures Moved(before, Plus(after, id, rest[id]), parts, rest - {id})
  {
    hide Get, Plus;
    PlusGet(after, id, rest[id]);
    GetWithout(rest, id);
  }

  lemma MovedAll(before: map<string, int>, after: map<string, int>, parts: map<string, int>)
    requires Moved(before, after, parts, map[])
    ensures after.Keys == before.Keys + parts.Keys && forall id :: Get(after, id) == Get(before, id) + Get(parts, id)
  {
  }

  /** What one claim puts under each project: its whole size under its owner, or
      a split between declared occupants with the rest held by nobody. */
  ghost predicate Spreads(c: StorageClaim, projectOf: map<string, string>, shared: map<string, Occupancy>, out: map<string, int>) {
    if c.assetID in shared && shared[c.assetID] != [] then
      exists split, parts ::
        && SplitAs(shared[c.assetID], c.allocatedGB, split, parts)
        && var rest := c.allocatedGB - MapSum(split);
           out == if rest > 0 then Plus(split, "", rest) else split
    else
      out == map[(if c.assetID in projectOf then projectOf[c.assetID] else "") := c.allocatedGB]
  }

  /** Nothing a claim holds is lost or invented by spreading it. */
  lemma SpreadKeeps(c: StorageClaim, projectOf: map<string, string>, shared: map<string, Occupancy>, out: map<string, int>)
    requires Spreads(c, projectOf, shared, out)
    ensures MapSum(out) == c.allocatedGB
  {
    hide SplitAs, MapSum;
    if c.assetID in shared && shared[c.assetID] != [] {
      var o := shared[c.assetID];
      var split, parts :| && SplitAs(o, c.allocatedGB, split, parts)
        && var rest := c.allocatedGB - MapSum(split);
           out == if rest > 0 then Plus(split, "", rest) else split;
      SplitAtMost(o, c.allocatedGB, split, parts);
      MapSumPlus(split, "", c.allocatedGB - MapSum(split));
    } else {
      var id := if c.assetID in projectOf then projectOf[c.assetID] else "";
      MapSumPlus(map[], id, c.allocatedGB);
      EmptySum();
      assert out == Plus(map[], id, c.allocatedGB);
    }
  }

  lemma EmptySum()
    ensures MapSum(map[]) == 0
  {
  }

  lemma SplitAtMost(o: Occupancy, amount: nat, out: map<string, int>, parts: seq<nat>)
    requires SplitAs(o, amount, out, parts)
    ensures 0 <= MapSum(out) <= amount
  {
    hide SumBy;
    if amount > 0 && o != [] {
      SplitAccounts(o, amount, out, parts);
      NonNegativeSum(out);
    }
  }

  lemma {:induction false} NonNegativeSum(m: map<string, int>)
    requires forall id :: id in m ==> m[id] >= 0
    ensures MapSum(m) >= 0
    decreases |m|
  {
    if m != map[] {
      var k :| k in m && MapSum(m) == m[k] + MapSum(m - {k});
      NonNegativeSum(m - {k});
    }
  }

  /** What the first n claims put under one project. */
  ghost function HeldBy(spreads: seq<map<string, int>>, id: string, n: nat): int
    requires n <= |spreads|
  {
    if n == 0 then 0 else HeldBy(spreads, id, n - 1) + Get(spreads[n - 1], id)
  }

  ghost predicate AllSpread(claims: seq<StorageClaim>, projectOf: map<string, string>, shared: map<string, Occupancy>,
                            spreads: seq<map<string, int>>)
  {
    |spreads| == |claims| && forall i :: 0 <= i < |claims| ==> Spreads(claims[i], projectOf, shared, spreads[i])
  }

  /** "held by no project" */
  const UNATTRIBUTED: Bytes := [104, 101, 108, 100, 32, 98, 121, 32, 110, 111, 32, 112, 114, 111, 106, 101, 99, 116]

  function SubjectOf(nameOf: map<string, Bytes>, id: string): Bytes {
    if id == "" then UNATTRIBUTED else if id in nameOf then nameOf[id] else []
  }

  function Subjects(claims: seq<Claim>): (r: seq<string>)
    ensures |r| == |claims| && forall k :: 0 <= k < |r| ==> r[k] == claims[k].subjectID
  {
    seq(|claims|, k requires 0 <= k < |claims| => claims[k].subjectID)
  }

  /** One claim booked to the ledger. */
  method Book(ledger: Ledger, c: StorageClaim, projectOf: map<string, string>, shared: map<string, Occupancy>)
    returns (ghost spread: map<string, int>)
    requires ledger.Valid()
    modifies ledger
    ensures ledger.Valid() && Spreads(c, projectOf, shared, spread)
    ensures ledger.byProject.Keys == old(ledger.byProject).Keys + spread.Keys && old(ledger.order) <= ledger.order
    ensures forall id :: Get(ledger.byProject, id) == old(Get(ledger.byProject, id)) + Get(spread, id)
    ensures MapSum(ledger.byProject) == old(MapSum(ledger.byProject)) + c.allocatedGB
  {
    hide MapSum, SplitAs, NoDup, Get, Plus, Spreads;
    if c.assetID in shared && shared[c.assetID] != [] {
      var split := Split(shared[c.assetID], c.allocatedGB);
      ghost var parts :| SplitAs(shared[c.assetID], c.allocatedGB, split, parts);
      SplitAtMost(shared[c.assetID], c.allocatedGB, split, parts);
      var attributed := ledger.AddAll(split);
      var rest := c.allocatedGB - attributed;
      spread := split;
      SharedSpreads(c, projectOf, shared, split, parts);
      if rest > 0 {
        PlusGet(ledger.byProject, "", rest);
        PlusGet(split, "", rest);
        ledger.Add("", rest);
        spread := Plus(split, "", rest);
      }
    } else {
      var id := if c.assetID in projectOf then projectOf[c.assetID] else "";
      PlusGet(ledger.byProject, id, c.allocatedGB);
      ledger.Add(id, c.allocatedGB);
      spread := map[id := c.allocatedGB];
      OwnedSpreads(c, projectOf, shared, id, spread);
    }
  }

  lemma SharedSpreads(c: StorageClaim, projectOf: map<string, string>, shared: map<string, Occupancy>, split: map<string, int>, parts: seq<nat>)
    requires c.assetID in shared && shared[c.assetID] != [] && SplitAs(shared[c.assetID], c.allocatedGB, split, parts)
    ensures var rest := c.allocatedGB - MapSum(split); Spreads(c, projectOf, shared, if rest > 0 then Plus(split, "", rest) else split)
  {
    hide SplitAs, MapSum, Plus;
  }

  lemma OwnedSpreads(c: StorageClaim, projectOf: map<string, string>, shared: map<string, Occupancy>, id: string,
                     out: map<string, int>)
    requires out == map[id := c.allocatedGB] && !(c.assetID in shared && shared[c.assetID] != []) && id == if c.assetID in projectOf then projectOf[c.assetID] else ""
    ensures Spreads(c, projectOf, shared, out)
    ensures forall other :: Get(out, other) == if other == id then c.allocatedGB else 0
  {
  }

  /** A project holds exactly what the claims put under it. */
  ghost predicate Booked(byProject: map<string, int>, spreads: seq<map<string, int>>) {
    && (forall id :: Get(byProject, id) == HeldBy(spreads, id, |spreads|))
    && (forall id :: id in byProject <==> exists i :: 0 <= i < |spreads| && id in spreads[i])
  }

  lemma BookedMore(before: map<string, int>, after: map<string, int>, spreads: seq<map<string, int>>, spread: map<string, int>)
    requires Booked(before, spreads) && after.Keys == before.Keys + spread.Keys
    requires forall id :: Get(after, id) == Get(before, id) + Get(spread, id)
    ensures Booked(after, spreads + [spread])
  {
    var all := spreads + [spread];
    forall id ensures HeldBy(all, id, |all|) == Get(after, id) { HeldByPrefix(spreads, spread, id, |spreads|); }
    forall id ensures id in after <==> exists i :: 0 <= i < |all| && id in all[i] {
      if id in before { var i :| 0 <= i < |spreads| && id in spreads[i]; assert id in all[i]; }
      if id in spread { assert id in all[|spreads|]; }
    }
  }

  lemma {:induction false} HeldByPrefix(spreads: seq<map<string, int>>, spread: map<string, int>, id: string, n: nat)
    requires n <= |spreads|
    ensures HeldBy(spreads + [spread], id, n) == HeldBy(spreads, id, n)
  {
    if n > 0 { HeldByPrefix(spreads, spread, id, n - 1); }
  }

  lemma {:induction false} OrderSum(order: seq<string>, m: map<string, int>, out: seq<Claim>)
    requires NoDup(order) && |out| == |order| && forall id :: id in order <==> id in m
    requires forall i :: 0 <= i < |out| ==> out[i].amount == m[order[i]]
    ensures SumBy(Draw(), out) == MapSum(m)
  {
    hide MapSum, SumBy;
    if order == [] {
      assert m == map[] && out == [];
      EmptySum();
      NothingDrawn();
    } else {
      var n := |order| - 1;
      var last, init := order[n], order[..n];
      LastOut(order, m);
      OrderSum(init, m - {last}, out[..n]);
      MapSumWithout(m, last);
      assert out == out[..n] + [out[n]];
      SumAppend(Draw(), out[..n], [out[n]]);
      SumOne(Draw(), out[n]);
    }
  }

  lemma LastOut(order: seq<string>, m: map<string, int>)
    requires NoDup(order) && order != [] && forall id :: id in order <==> id in m
    ensures var n := |order| - 1; NoDup(order[..n]) && order[n] in m && forall id :: id in order[..n] <==> id in m - {order[n]}
  {
    var n := |order| - 1;
    assert order == order[..n] + [order[n]];
  }

  lemma NothingDrawn()
    ensures SumBy(Draw(), []) == 0
  {
  }

  /** names lists exactly the projects of the first n spreads. */
  ghost predicate Names(names: seq<string>, spreads: seq<map<string, int>>, n: nat)
    requires n <= |spreads|
  {
    forall id :: id in names <==> exists i :: 0 <= i < n && id in spreads[i]
  }

  ghost predicate StartNames(names: seq<string>, spreads: seq<map<string, int>>, n: nat)
    requires n <= |spreads|
  {
    exists k :: 0 <= k <= |names| && Names(names[..k], spreads, n)
  }

  /** Projects are listed in the order in which the claims first put anything
      under them. */
  ghost predicate FirstSeen(names: seq<string>, spreads: seq<map<string, int>>) {
    forall n :: 0 <= n <= |spreads| ==> StartNames(names, spreads, n)
  }

  lemma FirstSeenMore(before: seq<string>, after: seq<string>, spreads: seq<map<string, int>>, spread: map<string, int>)
    requires FirstSeen(before, spreads) && before <= after && Names(after, spreads + [spread], |spreads| + 1)
    ensures FirstSeen(after, spreads + [spread])
  {
    var all := spreads + [spread];
    forall n | 0 <= n <= |all| ensures StartNames(after, all, n) {
      if n == |all| {
        assert after[..|after|] == after && Names(after[..|after|], all, n);
      } else {
        assert StartNames(before, spreads, n);
        var k :| 0 <= k <= |before| && Names(before[..k], spreads, n);
        assert after[..k] == before[..k];
        SameNames(before[..k], spreads, spread, n);
      }
    }
  }

  lemma SameNames(names: seq<string>, spreads: seq<map<string, int>>, spread: map<string, int>, n: nat)
    requires n <= |spreads| && Names(names, spreads, n)
    ensures Names(names, spreads + [spread], n)
  {
    assert forall i :: 0 <= i < n ==> (spreads + [spread])[i] == spreads[i];
  }

  lemma BookedNames(order: seq<string>, byProject: map<string, int>, spreads: seq<map<string, int>>)
    requires (forall id :: id in order <==> id in byProject) && Booked(byProject, spreads)
    ensures Names(order, spreads, |spreads|)
  {
    hide HeldBy, Get;
  }

  /** One claim per project, for exactly what the spreads put under it, in
      first-seen order. */
  ghost predicate GroupedBy(spreads: seq<map<string, int>>, nameOf: map<string, Bytes>, out: seq<Claim>) {
    && (forall k :: 0 <= k < |out| ==>
          && out[k].amount == HeldBy(spreads, out[k].subjectID, |spreads|)
          && var id := out[k].subjectID; out[k].subject == if id == "" then UNATTRIBUTED else if id in nameOf then nameOf[id] else [])
    && NoDup(Subjects(out)) && Names(Subjects(out), spreads, |spreads|) && FirstSeen(Subjects(out), spreads)
  }

  /** The claims a division divides, grouped by project. Whatever order the
      splits are ranged over in, every gigabyte ends up under exactly the
      project the claims put it under. */
  method StorageClaims(claims: seq<StorageClaim>, projectOf: map<string, string>, nameOf: map<string, Bytes>,
                       shared: map<string, Occupancy>) returns (out: seq<Claim>, ghost spreads: seq<map<string, int>>)
    ensures AllSpread(claims, projectOf, shared, spreads) && GroupedBy(spreads, nameOf, out)
    ensures SumBy(Draw(), out) == SumBy(Gigabytes(), claims)
  {
    hide MapSum, Spreads, HeldBy, SumBy, Booked, NoDup, Get, Listed, Names, FirstSeen;
    var ledger := new Ledger();
    spreads := [];
    EmptySum();
    NothingBooked();
    NothingSeen();
    NoGigabytes();
    for i := 0 to |claims|
      invariant fresh(ledger) && ledger.Valid() && |spreads| == i && Booked(ledger.byProject, spreads)
      invariant FirstSeen(ledger.order, spreads)
      invariant forall k :: 0 <= k < i ==> Spreads(claims[k], projectOf, shared, spreads[k])
      invariant MapSum(ledger.byProject) == SumBy(Gigabytes(), claims[..i])
    {
      ghost var before, order := ledger.byProject, ledger.order;
      ghost var spread := Book(ledger, claims[i], projectOf, shared);
      BookedMore(before, ledger.byProject, spreads, spread);
      BookedNames(ledger.order, ledger.byProject, spreads + [spread]);
      FirstSeenMore(order, ledger.order, spreads, spread);
      spreads := spreads + [spread];
      assert claims[..i + 1] == claims[..i] + [claims[i]];
      SumAppend(Gigabytes(), claims[..i], [claims[i]]);
      SumOne(Gigabytes(), claims[i]);
    }
    assert claims[..|claims|] == claims;
    ListedSum(ledger.order, ledger.byProject, nameOf);
    ListedAll(ledger.order, ledger.byProject, spreads);
    BookedNames(ledger.order, ledger.byProject, spreads);
    out := Listed(ledger.order, ledger.byProject, nameOf);
    assert Subjects(out) == ledger.order;
  }

  /** The ledger as claims, in first-seen order. */
  function Listed(order: seq<string>, byProject: map<string, int>, nameOf: map<string, Bytes>): (out: seq<Claim>)
    ensures |out| == |order|
    ensures forall k :: 0 <= k < |out| ==> out[k] == Claim(order[k], SubjectOf(nameOf, order[k]), Get(byProject, order[k]))
  {
    seq(|order|, k requires 0 <= k < |order| => Claim(order[k], SubjectOf(nameOf, order[k]), Get(byProject, order[k])))
  }

  lemma ListedSum(order: seq<string>, byProject: map<string, int>, nameOf: map<string, Bytes>)
    requires NoDup(order) && forall id :: id in order <==> id in byProject
    ensures SumBy(Draw(), Listed(order, byProject, nameOf)) == MapSum(byProject)
  {
    hide MapSum, SumBy, SubjectOf, Listed, NoDup;
    var out := Listed(order, byProject, nameOf);
    forall k | 0 <= k < |out| ensures out[k].amount == byProject[order[k]] { assert order[k] in order; }
    OrderSum(order, byProject, out);
  }

  lemma ListedAll(order: seq<string>, byProject: map<string, int>, spreads: seq<map<string, int>>)
    requires (forall id :: id in order <==> id in byProject) && Booked(byProject, spreads)
    ensures forall k :: 0 <= k < |order| ==> Get(byProject, order[k]) == HeldBy(spreads, order[k], |spreads|)
  {
    hide HeldBy, Get;
  }

  lemma NoGigabytes()
    ensures SumBy(Gigabytes(), []) == 0
  {
  }

  lemma NothingSeen()
    ensures FirstSeen([], [])
  {
    assert Names([][..0], [], 0);
    assert StartNames([], [], 0);
  }

  lemma NothingBooked()
    ensures Booked(map[], [])
  {
  }

  // ---- from a pool to money

  lemma {:induction false} DrawingSum(claims: seq<Claim>)
    requires forall i :: 0 <= i < |claims| ==> claims[i].amount >= 0
    ensures SumBy(Draw(), Drawing(claims)) == SumBy(Draw(), claims)
  {
    if claims != [] {
      var init, c := claims[..|claims| - 1], claims[|claims| - 1];
      DrawingSum(init);
      SumAppend(Draw(), Drawing(init), if c.amount > 0 then [c] else []);
      SumOne(Draw(), c);
    }
  }

  /** One pool divided between the projects holding in it. */
  method PoolAttribution(usable: int, claims: seq<StorageClaim>, projectOf: map<string, string>, nameOf: map<string, Bytes>,
                         shared: map<string, Occupancy>)
    returns (d: Division, ghost spreads: seq<map<string, int>>, ghost grouped: seq<Claim>)
    ensures AllSpread(claims, projectOf, shared, spreads) && GroupedBy(spreads, nameOf, grouped)
    ensures IsDivision(d, usable, grouped) && d.claimed == SumBy(Gigabytes(), claims)
  {
    hide Spreads, SumBy, NoDup;
    var out;
    out, spreads := StorageClaims(claims, projectOf, nameOf, shared);
    d := Divide(usable, out);
    grouped := out;
    forall k | 0 <= k < |out| ensures out[k].amount >= 0 {
      HeldNonNegative(claims, projectOf, shared, spreads, out[k].subjectID, |spreads|);
    }
    DrawingSum(out);
  }

  lemma {:induction false} HeldNonNegative(claims: seq<StorageClaim>, projectOf: map<string, string>, shared: map<string, Occupancy>,
                                           spreads: seq<map<string, int>>, id: string, n: nat)
    requires AllSpread(claims, projectOf, shared, spreads) && n <= |spreads|
    ensures HeldBy(spreads, id, n) >= 0
  {
    hide Spreads;
    if n > 0 {
      HeldNonNegative(claims, projectOf, shared, spreads, id, n - 1);
      SpreadNonNegative(claims[n - 1], projectOf, shared, spreads[n - 1], id);
    }
  }

  lemma SpreadNonNegative(c: StorageClaim, projectOf: map<string, string>, shared: map<string, Occupancy>, out: map<string, int>, id: string)
    requires Spreads(c, projectOf, shared, out)
    ensures Get(out, id) >= 0
  {
    hide LargestRemainder, MapSum, SumBy;
    if c.assetID in shared && shared[c.assetID] != [] {
      var o := shared[c.assetID];
      var split, parts :| && SplitAs(o, c.allocatedGB, split, parts)
        && var rest := c.allocatedGB - MapSum(split);
           out == if rest > 0 then Plus(split, "", rest) else split;
      if c.allocatedGB > 0 { SplitAccounts(o, c.allocatedGB, split, parts); }
    }
  }

  /** What the first n slices bill to one subject. */
  ghost function BilledTo(slices: seq<Share>, parts: seq<nat>, id: string, n: nat): int
    requires n <= |slices| == |parts|
  {
    if n == 0 then 0 else BilledTo(slices, parts, id, n - 1) + if slices[n - 1].subjectID == id then parts[n - 1] else 0
  }

  /** The bill for a division, per subject: every slice's part goes to that
      slice's subject, and the whole bill is accounted for. */
  method ApportionTo(d: Division, minor: nat, ghost sellable: int, ghost claims: seq<Claim>)
    returns (out: map<string, int>, ghost billed: seq<nat>)
    requires IsDivision(d, sellable, claims)
    ensures Bills(d, minor, billed)
    ensures forall id :: Get(out, id) == BilledTo(Total(d), billed, id, |billed|)
    ensures d.denominator > 0 ==> MapSum(out) == minor
  {
    hide IsDivision, MapSum, LargestRemainder, SumBy, Get, Plus;
    var parts := ApportionMinor(d, minor, sellable, claims);
    billed := parts;
    var slices := Total(d);
    out := map[];
    EmptySum();
    NothingSummed();
    NothingHeld();
    for i := 0 to |slices|
      invariant MapSum(out) == Sum(parts[..i])
      invariant forall id :: Get(out, id) == BilledTo(slices, parts, id, i)
    {
      MapSumPlus(out, slices[i].subjectID, parts[i]);
      PlusGet(out, slices[i].subjectID, parts[i]);
      assert parts[..i + 1] == parts[..i] + [parts[i]];
      SumAppend(Same(), parts[..i], [parts[i]]);
      SumOne(Same(), parts[i]);
      out := Plus(out, slices[i].subjectID, parts[i]);
    }
    assert parts[..|parts|] == parts;
  }

  lemma NothingHeld()
    ensures forall id :: Get(map[], id) == 0
  {
  }

  lemma NothingSummed()
    ensures Sum([]) == 0
  {
  }
}
