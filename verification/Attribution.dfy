/** Dividing one dimension -- and the bill for it -- between its claimants. */
module Attribution {
  import opened Sorting
  import opened Addresses
  import opened Apportionment

  datatype Claim = Claim(subjectID: string, subject: Bytes, amount: int)
  datatype Share = Share(subjectID: string, subject: Bytes, amount: int, basisPoints: nat)

  datatype Division = Division(sellable: int, claimed: int, denominator: int, shares: seq<Share>, idle: Share)

  const WHOLE: nat := 10000

  /** "idle capacity" */
  const IDLE: Bytes := [105, 100, 108, 101, 32, 99, 97, 112, 97, 99, 105, 116, 121]

  /** Every slice; the idle one is left out when it is empty and not alone. */
  function Total(d: Division): seq<Share> {
    d.shares + if d.idle.amount > 0 || d.shares == [] then [d.idle] else []
  }

  function Points(): Share -> int { (s: Share) => s.basisPoints }
  function Amount(): Share -> int { (s: Share) => s.amount }

  function LargestFirst(): (Share, Share) -> bool {
    (a: Share, b: Share) => if a.amount != b.amount then a.amount > b.amount else Compare(a.subject, b.subject) < 0
  }

  lemma LargestFirstIsOrder()
    ensures IsOrder(LargestFirst())
  {
    hide Compare;
    forall a: Share, b: Share ensures LargestFirst()(a, b) ==> !LargestFirst()(b, a) { CompareIsOrder(a.subject, b.subject, []); }
    forall a: Share, b: Share, c: Share | !LargestFirst()(a, b) && !LargestFirst()(b, c) ensures !LargestFirst()(a, c) {
      CompareIsOrder(c.subject, b.subject, a.subject);
      CompareIsOrder(b.subject, a.subject, c.subject);
      CompareIsOrder(a.subject, c.subject, b.subject);
    }
  }

  /** The claims that draw anything, in the order they came. */
  function Drawing(claims: seq<Claim>): (r: seq<Claim>)
    ensures forall i :: 0 <= i < |r| ==> r[i].amount > 0
  {
    if claims == [] then []
    else
      var c := claims[|claims| - 1];
      Drawing(claims[..|claims| - 1]) + if c.amount > 0 then [c] else []
  }

  function Draw(): Claim -> int { (c: Claim) => c.amount }

  ghost function Weights(drawing: seq<Claim>, idle: nat): (r: seq<nat>)
    requires forall i :: 0 <= i < |drawing| ==> drawing[i].amount > 0
    ensures |r| == |drawing| + 1
  {
    seq(|drawing|, i requires 0 <= i < |drawing| => drawing[i].amount) + [idle]
  }

  ghost function Sliced(drawing: seq<Claim>, points: seq<nat>): (r: seq<Share>)
    requires |points| >= |drawing|
    ensures |r| == |drawing|
  {
    seq(|drawing|, i requires 0 <= i < |drawing| =>
      Share(drawing[i].subjectID, drawing[i].subject, drawing[i].amount, points[i]))
  }

  /** d divides max(sellable, claimed) between the drawing claims and idle, with
      the whole in basis points apportioned by largest remainder. */
  ghost predicate Divides(d: Division, sellable: int, claims: seq<Claim>, points: seq<nat>) {
    var drawing := Drawing(claims);
    && d.sellable == sellable && d.claimed == SumBy(Draw(), drawing)
    && d.denominator == (if d.claimed > sellable then d.claimed else sellable)
    && d.idle.amount == d.denominator - d.claimed && d.idle.subjectID == "" && d.idle.subject == IDLE
    && (d.denominator <= 0 ==> d.shares == [] && d.idle.basisPoints == 0)
    && (d.denominator > 0 ==>
        && LargestRemainder(WHOLE, Weights(drawing, d.idle.amount), d.denominator, points)
        && multiset(d.shares) == multiset(Sliced(drawing, points)) && Sorted(LargestFirst(), d.shares)
        && d.idle.basisPoints == points[|drawing|])
  }

  ghost predicate IsDivision(d: Division, sellable: int, claims: seq<Claim>) {
    exists points :: Divides(d, sellable, claims, points)
  }

  lemma {:induction false} DrawsSum(claims: seq<Claim>, idle: nat)
    requires forall i :: 0 <= i < |claims| ==> claims[i].amount > 0
    ensures Sum(Weights(claims, idle)) == SumBy(Draw(), claims) + idle
    ensures SumBy(Draw(), claims) >= |claims|
  {
    var w := Weights(claims, idle);
    assert w[..|claims|] + [idle] == w;
    if claims == [] {
      assert w == [idle];
      SumOne(Same(), idle);
    } else {
      var init := claims[..|claims| - 1];
      DrawsSum(init, claims[|claims| - 1].amount);
      assert w[..|claims|] == Weights(init, claims[|claims| - 1].amount);
    }
  }

  lemma {:induction false} SlicedSums(drawing: seq<Claim>, points: seq<nat>)
    requires |points| == |drawing| + 1
    ensures SumBy(Points(), Sliced(drawing, points)) + points[|drawing|] == Sum(points)
    ensures SumBy(Amount(), Sliced(drawing, points)) == SumBy(Draw(), drawing)
  {
    var n := |drawing|;
    var s := Sliced(drawing, points);
    if n == 0 {
      assert points == [points[0]];
      SumOne(Same(), points[0]);
    } else {
      SlicedSums(drawing[..n - 1], points[..n]);
      assert s[..n - 1] == Sliced(drawing[..n - 1], points[..n]);
    }
  }

  method Divide(sellable: int, claims: seq<Claim>) returns (d: Division)
    ensures IsDivision(d, sellable, claims)
  {
    hide LargestRemainder, Drawing, SumBy, Weights, Sliced;
    var claimed, drawing := Claimed(claims);
    var denominator := if claimed > sellable then claimed else sellable;
    var idle := Share("", IDLE, denominator - claimed, 0);
    if denominator <= 0 {
      d := Division(sellable, claimed, denominator, [], idle);
      assert Divides(d, sellable, claims, []);
      return;
    }
    var shares, points := Slice(drawing, idle.amount, denominator);
    LargestFirstIsOrder();
    d := Division(sellable, claimed, denominator, SortBy(LargestFirst(), shares), idle.(basisPoints := points[|points| - 1]));
    assert Divides(d, sellable, claims, points);
  }

  /** The drawing claims with their basis points; idle's come last. */
  method Slice(drawing: seq<Claim>, idle: nat, denominator: nat) returns (shares: seq<Share>, points: seq<nat>)
    requires denominator > 0 && SumBy(Draw(), drawing) + idle == denominator
    requires forall i :: 0 <= i < |drawing| ==> drawing[i].amount > 0
    ensures LargestRemainder(WHOLE, Weights(drawing, idle), denominator, points)
    ensures |points| == |drawing| + 1 && shares == Sliced(drawing, points)
  {
    hide LargestRemainder, SumBy;
    var amounts: seq<nat> := seq(|drawing|, i requires 0 <= i < |drawing| => drawing[i].amount) + [idle];
    DrawsSum(drawing, idle);
    points := Apportion(WHOLE, amounts, denominator);
    shares := seq(|drawing|, i requires 0 <= i < |drawing| =>
      Share(drawing[i].subjectID, drawing[i].subject, drawing[i].amount, points[i]));
  }

  /** What is claimed in all, and by whom. */
  method Claimed(claims: seq<Claim>) returns (claimed: int, drawing: seq<Claim>)
    ensures drawing == Drawing(claims) && claimed == SumBy(Draw(), drawing)
  {
    claimed, drawing := 0, [];
    for i := 0 to |claims|
      invariant drawing == Drawing(claims[..i]) && claimed == SumBy(Draw(), drawing)
    {
      assert claims[..i + 1][..i] == claims[..i];
      if claims[i].amount > 0 {
        assert (drawing + [claims[i]])[..|drawing|] == drawing;
        claimed, drawing := claimed + claims[i].amount, drawing + [claims[i]];
      }
    }
    assert claims[..|claims|] == claims;
  }

  // ---- the slices account for everything

  /** Dropping an empty idle slice drops no basis points, and re-sorting loses
      none: every division of something sums to the whole. */
  lemma SlicesSum(d: Division, sellable: int, claims: seq<Claim>)
    requires IsDivision(d, sellable, claims) && d.denominator > 0
    ensures SumBy(Points(), Total(d)) == 10000
    ensures SumBy(Amount(), Total(d)) == d.denominator
    ensures forall i :: 0 <= i < |Total(d)| ==> Total(d)[i].amount >= 0
  {
    hide LargestRemainder, LargestFirst, SumBy, Sorted, NoDup, Drawing;
    var points :| Divides(d, sellable, claims, points);
    var drawing := Drawing(claims);
    PointsSum(Weights(drawing, d.idle.amount), d.denominator, points);
    SlicedSums(drawing, points);
    SumRearranged(Points(), d.shares, Sliced(drawing, points));
    SumRearranged(Amount(), d.shares, Sliced(drawing, points));
    Rearranged(d.shares, Sliced(drawing, points));
    forall i | 0 <= i < |d.shares| ensures d.shares[i].amount > 0 { assert d.shares[i] in Sliced(drawing, points); }
    if d.idle.amount == 0 {
      ZeroGetsNothing(WHOLE, Weights(drawing, 0), d.denominator, points, |drawing|);
    }
    SumAppend(Points(), d.shares, [d.idle]);
    SumAppend(Amount(), d.shares, [d.idle]);
    SumOne(Points(), d.idle);
    SumOne(Amount(), d.idle);
    assert d.shares + [] == d.shares;
  }

  lemma PointsSum(weights: seq<nat>, den: nat, points: seq<nat>)
    requires den > 0 && LargestRemainder(WHOLE, weights, den, points)
    ensures Sum(points) == WHOLE && |points| == |weights|
  {
  }

  // ---- money

  ghost function AmountsOf(shares: seq<Share>): (r: seq<nat>)
    requires forall i :: 0 <= i < |shares| ==> shares[i].amount >= 0
    ensures |r| == |shares|
  {
    seq(|shares|, i requires 0 <= i < |shares| => shares[i].amount)
  }

  lemma {:induction false} AmountsSum(shares: seq<Share>)
    requires forall i :: 0 <= i < |shares| ==> shares[i].amount >= 0
    ensures Sum(AmountsOf(shares)) == SumBy(Amount(), shares)
  {
    if shares != [] {
      AmountsSum(shares[..|shares| - 1]);
      assert AmountsOf(shares)[..|shares| - 1] == AmountsOf(shares[..|shares| - 1]);
    }
  }

  /** parts bills minor slice by slice, parallel to Total: by largest remainder
      over the slices, or not at all when there is nothing to divide. */
  ghost predicate Bills(d: Division, minor: nat, parts: seq<nat>) {
    && |parts| == |Total(d)|
    && if d.denominator <= 0 then forall i :: 0 <= i < |parts| ==> parts[i] == 0
       else
         && Sum(parts) == minor
         && (forall i :: 0 <= i < |Total(d)| ==> Total(d)[i].amount >= 0)
         && LargestRemainder(minor, AmountsOf(Total(d)), d.denominator, parts)
  }

  method ApportionMinor(d: Division, minor: nat, ghost sellable: int, ghost claims: seq<Claim>) returns (parts: seq<nat>)
    requires IsDivision(d, sellable, claims)
    ensures Bills(d, minor, parts)
  {
    hide IsDivision, Sum;
    var slices := Total(d);
    if d.denominator <= 0 {
      return seq(|slices|, _ => 0);
    }
    SlicesSum(d, sellable, claims);
    AmountsSum(slices);
    var amounts: seq<nat> := seq(|slices|, i requires 0 <= i < |slices| => slices[i].amount);
    parts := Apportion(minor, amounts, d.denominator);
  }

  /** Per head rather than by capacity: nothing is left idle. */
  method DivideEqually(consumers: seq<Claim>) returns (d: Division)
    ensures IsDivision(d, SumBy(Draw(), Drawing(consumers)), Drawing(consumers))
    ensures d.idle.amount == 0 && d.claimed == d.sellable
  {
    hide LargestRemainder, Compare;
    var total, heads := Claimed(consumers);
    DrawingTwice(heads);
    d := Divide(total, heads);
  }

  lemma {:induction false} DrawingTwice(claims: seq<Claim>)
    requires forall i :: 0 <= i < |claims| ==> claims[i].amount > 0
    ensures Drawing(claims) == claims
  {
    if claims != [] { DrawingTwice(claims[..|claims| - 1]); }
  }
}
