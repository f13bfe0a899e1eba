/** What an apportionment and a division come to for each claimant, without the
    arithmetic that finds them: nobody is a whole unit off, and who is rounded up. */
module FairShares {
  import opened Sorting
  import opened Addresses
  import opened Apportionment
  import opened Attribution
  import opened Occupancies

  // ---- one apportionment

  /** Every part is within one unit of its exact share. */
  lemma PartNearShare(total: nat, amounts: seq<nat>, den: nat, parts: seq<nat>, i: nat)
    requires den > 0 && LargestRemainder(total, amounts, den, parts) && i < |parts|
    ensures |parts| == |amounts| && total * amounts[i] - den < parts[i] * den < total * amounts[i] + den
  {
    hide Sum, Quota, Remainder;
    var q, r := Quota(total, amounts[i], den), Remainder(total, amounts[i], den);
    OneSplit(total, amounts[i], den);
    Distribute(den, q, 1);
    var p := parts[i];
    assert p == q || (p == q + 1 && r > 0);
  }

  lemma AsManyParts(total: nat, amounts: seq<nat>, den: nat, parts: seq<nat>)
    requires den > 0 && LargestRemainder(total, amounts, den, parts)
    ensures |parts| == |amounts|
  {
  }

  /** Of two equal weights the earlier never gets less, and never two units more. */
  lemma EqualWeights(total: nat, amounts: seq<nat>, den: nat, parts: seq<nat>, i: nat, j: nat)
    requires den > 0 && LargestRemainder(total, amounts, den, parts) && i < j < |parts| && amounts[i] == amounts[j]
    ensures parts[j] <= parts[i] <= parts[j] + 1
  {
    hide Sum, Quota, Remainder;
  }

  /** Nobody is rounded down who was closer to the next unit than somebody rounded
      up: what is left of i's exact share above the whole units below it is at
      least what is left of j's. */
  lemma CloserRoundsUp(total: nat, amounts: seq<nat>, den: nat, parts: seq<nat>, i: nat, j: nat)
    requires den > 0 && LargestRemainder(total, amounts, den, parts) && i < |parts| == |amounts| && j < |parts|
    requires parts[i] * den > total * amounts[i] && parts[j] * den <= total * amounts[j]
    ensures total * amounts[i] - (parts[i] - 1) * den >= total * amounts[j] - parts[j] * den
  {
    hide Sum, Quota, Remainder;
    var q, r := Quota(total, amounts[i], den), Remainder(total, amounts[i], den);
    var s, t := Quota(total, amounts[j], den), Remainder(total, amounts[j], den);
    OneSplit(total, amounts[i], den);
    OneSplit(total, amounts[j], den);
    Distribute(den, q, 1);
    Distribute(den, s, 1);
    assert parts[i] == q + 1;
    assert parts[j] == s;
  }

  // ---- one division

  /** The shares as claims again. */
  ghost function AsClaims(shares: seq<Share>): (r: seq<Claim>)
    ensures |r| == |shares|
  {
    seq(|shares|, i requires 0 <= i < |shares| => Claim(shares[i].subjectID, shares[i].subject, shares[i].amount))
  }

  lemma {:induction false} DrawingMembers(claims: seq<Claim>, c: Claim)
    ensures multiset(Drawing(claims))[c] == if c.amount > 0 then multiset(claims)[c] else 0
  {
    if claims != [] {
      var init, last := claims[..|claims| - 1], claims[|claims| - 1];
      DrawingMembers(init, c);
      assert claims == init + [last];
      DrawingMore(claims);
      hide Drawing;
    }
  }

  lemma DrawingMore(claims: seq<Claim>)
    requires claims != []
    ensures var init, last := claims[..|claims| - 1], claims[|claims| - 1];
            multiset(Drawing(claims)) == multiset(Drawing(init)) + if last.amount > 0 then multiset{last} else multiset{}
  {
  }

  lemma SlicedAsClaims(drawing: seq<Claim>, points: seq<nat>)
    requires |points| >= |drawing|
    ensures AsClaims(Sliced(drawing, points)) == drawing
  {
  }

  lemma AsClaimsWithout(shares: seq<Share>, k: nat)
    requires k < |shares|
    ensures AsClaims(Without(shares, k)) == Without(AsClaims(shares), k)
  {
  }

  lemma {:induction false} AsClaimsRearranged(a: seq<Share>, b: seq<Share>)
    requires multiset(a) == multiset(b)
    ensures multiset(AsClaims(a)) == multiset(AsClaims(b))
    decreases |a|
  {
    hide Without, AsClaims, NoDup;
    Rearranged(a, b);
    if a == [] {
      assert a == b;
    } else {
      assert a[0] in b;
      var k := FindIn(b, a[0]);
      WithoutCounts(a, 0);
      WithoutCounts(b, k);
      WithoutShorter(a, 0);
      AsClaimsRearranged(Without(a, 0), Without(b, k));
      OneClaimOut(a, 0);
      OneClaimOut(b, k);
    }
  }

  lemma FindIn(s: seq<Share>, x: Share) returns (k: nat)
    requires x in s
    ensures k < |s| && s[k] == x
  {
    k :| k < |s| && s[k] == x;
  }

  lemma OneClaimOut(shares: seq<Share>, k: nat)
    requires k < |shares|
    ensures multiset(AsClaims(shares)) ==
            multiset(AsClaims(Without(shares, k))) + multiset{Claim(shares[k].subjectID, shares[k].subject, shares[k].amount)}
  {
    AsClaimsWithout(shares, k);
    WithoutCounts(AsClaims(shares), k);
    assert AsClaims(shares)[k] in multiset(AsClaims(shares));
  }

  /** Exactly the claims that draw anything have a share, for what they draw. */
  lemma SharesAreClaims(d: Division, sellable: int, claims: seq<Claim>, c: Claim)
    requires IsDivision(d, sellable, claims) && d.denominator > 0
    ensures multiset(AsClaims(d.shares))[c] == if c.amount > 0 then multiset(claims)[c] else 0
  {
    hide LargestRemainder, AsClaims, Sliced, Weights, SumBy, Sorted;
    var points :| Divides(d, sellable, claims, points);
    PointsSum(Weights(Drawing(claims), d.idle.amount), d.denominator, points);
    AsClaimsRearranged(d.shares, Sliced(Drawing(claims), points));
    SlicedAsClaims(Drawing(claims), points);
    DrawingMembers(claims, c);
  }

  /** Shares come largest first, and by name among equals; the idle slice is what
      nobody claimed; and no slice, idle included, is a whole hundredth of a
      percent off its exact share. */
  lemma SharesRead(d: Division, sellable: int, claims: seq<Claim>)
    requires IsDivision(d, sellable, claims)
    ensures d.idle.amount == if d.claimed > sellable then 0 else sellable - d.claimed
    ensures d.denominator == d.claimed + d.idle.amount
    ensures forall i, j :: 0 <= i < j < |d.shares| ==>
              d.shares[i].amount > d.shares[j].amount || (d.shares[i].amount == d.shares[j].amount && Compare(d.shares[i].subject, d.shares[j].subject) <= 0)
    ensures d.denominator > 0 ==> forall i :: 0 <= i < |d.shares| ==> NearPoints(d.shares[i], d.denominator)
    ensures d.denominator > 0 ==> NearPoints(d.idle, d.denominator)
  {
    hide LargestRemainder, Compare, Drawing, SumBy, NearPoints;
    var points :| Divides(d, sellable, claims, points);
    forall i, j | 0 <= i < j < |d.shares|
      ensures d.shares[i].amount > d.shares[j].amount || (d.shares[i].amount == d.shares[j].amount && Compare(d.shares[i].subject, d.shares[j].subject) <= 0)
    {
      assert !LargestFirst()(d.shares[j], d.shares[i]);
      CompareIsOrder(d.shares[i].subject, d.shares[j].subject, []);
    }
    if d.denominator > 0 {
      AsManyParts(WHOLE, Weights(Drawing(claims), d.idle.amount), d.denominator, points);
      PointsNear(d, Drawing(claims), points);
    }
  }

  ghost predicate NearPoints(s: Share, den: int) { 10000 * s.amount - den < s.basisPoints * den < 10000 * s.amount + den }

  lemma PointsNear(d: Division, drawing: seq<Claim>, points: seq<nat>)
    requires d.denominator > 0 && d.idle.amount >= 0 && forall i :: 0 <= i < |drawing| ==> drawing[i].amount > 0
    requires LargestRemainder(WHOLE, Weights(drawing, d.idle.amount), d.denominator, points)
    requires |points| == |drawing| + 1 && multiset(d.shares) == multiset(Sliced(drawing, points)) && d.idle.basisPoints == points[|drawing|]
    ensures forall i :: 0 <= i < |d.shares| ==> NearPoints(d.shares[i], d.denominator)
    ensures NearPoints(d.idle, d.denominator)
  {
    hide LargestRemainder;
    var w := Weights(drawing, d.idle.amount);
    Rearranged(d.shares, Sliced(drawing, points));
    forall i | 0 <= i < |d.shares| ensures NearPoints(d.shares[i], d.denominator) {
      assert d.shares[i] in Sliced(drawing, points);
      var k :| 0 <= k < |drawing| && Sliced(drawing, points)[k] == d.shares[i];
      PartNearShare(WHOLE, w, d.denominator, points, k);
    }
    PartNearShare(WHOLE, w, d.denominator, points, |drawing|);
  }

  /** Every slice of a bill is within one minor unit of its exact share, and the
      idle slice is billed unless it is empty beside others. */
  lemma BillsNear(d: Division, minor: nat, parts: seq<nat>, i: nat)
    requires Bills(d, minor, parts) && d.denominator > 0 && i < |parts|
    ensures |parts| == if d.idle.amount > 0 || d.shares == [] then |d.shares| + 1 else |d.shares|
    ensures var amount := if i < |d.shares| then d.shares[i].amount else d.idle.amount;
            minor * amount - d.denominator < parts[i] * d.denominator < minor * amount + d.denominator
  {
    hide LargestRemainder, SumBy;
    PartNearShare(minor, AmountsOf(Total(d)), d.denominator, parts, i);
  }

  // ---- tenants of one machine

  /** A project named once gets its declared percentage of the whole -- of what was
      declared where that is more than a hundred -- to within one unit. */
  lemma SplitNear(o: Occupancy, amount: nat, out: map<string, int>, parts: seq<nat>, i: nat)
    requires SplitAs(o, amount, out, parts) && amount > 0 && i < |o|
    requires forall j :: 0 <= j < |o| && j != i ==> o[j].projectID != o[i].projectID
    ensures o[i].projectID in out
    ensures var den := if DeclaredPercent(o) > 100 then DeclaredPercent(o) else 100;
            amount * o[i].percent - den < out[o[i].projectID] * den < amount * o[i].percent + den
  {
    hide LargestRemainder, SumBy, ByProject;
    AsManyParts(amount, Shares(o), Denominator(o), parts);
    PartNearShare(amount, Shares(o), Denominator(o), parts, i);
    OnePart(o, parts, i, |o|);
  }

  lemma {:induction false} OnePart(o: Occupancy, parts: seq<nat>, i: nat, k: nat)
    requires i < |o| <= |parts| && k <= |o| && forall j :: 0 <= j < |o| && j != i ==> o[j].projectID != o[i].projectID
    ensures o[i].projectID in ByProject(o, parts, k) <==> i < k
    ensures i < k ==> ByProject(o, parts, k)[o[i].projectID] == parts[i]
  {
    if k > 0 { OnePart(o, parts, i, k - 1); }
  }

  // ---- storage

  /** The gigabytes of the first n claims whose machine the project owns. */
  ghost function Owned(claims: seq<StorageClaim>, projectOf: map<string, string>, id: string, n: nat): int
    requires n <= |claims|
  {
    if n == 0 then 0
    else
      Owned(claims, projectOf, id, n - 1)
      + (if claims[n - 1].assetID in projectOf && projectOf[claims[n - 1].assetID] == id then claims[n - 1].allocatedGB else 0)
  }

  /** Where no machine is shared, a project is claimed exactly what its own machines
      hold. */
  lemma {:induction false} HeldByOwner(claims: seq<StorageClaim>, projectOf: map<string, string>, shared: map<string, Occupancy>,
                                       spreads: seq<map<string, int>>, id: string, n: nat)
    requires AllSpread(claims, projectOf, shared, spreads) && id != "" && n <= |claims|
    requires forall a :: a in shared ==> shared[a] == []
    ensures HeldBy(spreads, id, n) == Owned(claims, projectOf, id, n)
  {
    if n > 0 {
      HeldByOwner(claims, projectOf, shared, spreads, id, n - 1);
      assert Spreads(claims[n - 1], projectOf, shared, spreads[n - 1]);
    }
  }

  /** What a shared machine holds goes to its occupants, and what they leave to
      nobody: no other project is claimed any of it. */
  lemma SharedMachine(c: StorageClaim, projectOf: map<string, string>, shared: map<string, Occupancy>, out: map<string, int>, id: string)
    requires Spreads(c, projectOf, shared, out) && c.assetID in shared && shared[c.assetID] != [] && id != ""
    ensures var o := shared[c.assetID];
            if forall j :: 0 <= j < |o| ==> o[j].projectID != id then id !in out
            else exists parts, split :: SplitAs(o, c.allocatedGB, split, parts) && Get(out, id) == Get(split, id)
    ensures MapSum(out) == c.allocatedGB
  {
    hide SplitAs, MapSum;
    SpreadKeeps(c, projectOf, shared, out);
    var o := shared[c.assetID];
    var split, parts :| && SplitAs(o, c.allocatedGB, split, parts)
      && var rest := c.allocatedGB - MapSum(split);
         out == if rest > 0 then Plus(split, "", rest) else split;
    if forall j :: 0 <= j < |o| ==> o[j].projectID != id { SplitNames(o, c.allocatedGB, split, parts, id); }
  }

  lemma SplitNames(o: Occupancy, amount: int, out: map<string, int>, parts: seq<nat>, id: string)
    requires SplitAs(o, amount, out, parts) && forall j :: 0 <= j < |o| ==> o[j].projectID != id
    ensures id !in out
  {
    hide LargestRemainder, SumBy, ByProject;
    if amount > 0 && o != [] {
      AsManyParts(amount, Shares(o), Denominator(o), parts);
      NotNamed(o, parts, id, |o|);
    }
  }

  lemma {:induction false} NotNamed(o: Occupancy, parts: seq<nat>, id: string, k: nat)
    requires k <= |o| <= |parts| && forall j :: 0 <= j < |o| ==> o[j].projectID != id
    ensures id !in ByProject(o, parts, k)
  {
    if k > 0 { NotNamed(o, parts, id, k - 1); }
  }
}
