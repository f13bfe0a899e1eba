/** Largest-remainder apportionment: whole units handed out by weight, summing
    to exactly what was given. */
module Apportionment {
  import opened Sorting

  datatype Rem = Rem(i: nat, remainder: nat)

  function Same(): nat -> int { (x: nat) => x }

  ghost function Sum(s: seq<nat>): int { SumBy(Same(), s) }

  function Quota(total: nat, amount: nat, den: nat): nat
    requires den > 0
  {
    total * amount / den
  }

  function Remainder(total: nat, amount: nat, den: nat): nat
    requires den > 0
  {
    total * amount % den
  }

  /** Each part is its quota rounded down or up; the parts sum to the total; and
      rounding up goes to the larger remainders, ties to the earlier index. */
  ghost predicate LargestRemainder(total: nat, amounts: seq<nat>, den: nat, parts: seq<nat>)
    requires den > 0
  {
    && |parts| == |amounts|
    && (forall i :: 0 <= i < |parts| ==>
          var q := Quota(total, amounts[i], den); parts[i] == q || (parts[i] == q + 1 && Remainder(total, amounts[i], den) > 0))
    && Sum(parts) == total
    && (forall i, j :: 0 <= i < |parts| && 0 <= j < |parts|
          && parts[i] == Quota(total, amounts[i], den) + 1 && parts[j] == Quota(total, amounts[j], den)
          ==> BiggerFirst()(Rem(i, Remainder(total, amounts[i], den)), Rem(j, Remainder(total, amounts[j], den))))
  }

  function BiggerFirst(): (Rem, Rem) -> bool {
    (a: Rem, b: Rem) => if a.remainder != b.remainder then a.remainder > b.remainder else a.i < b.i
  }

  lemma BiggerFirstIsOrder()
    ensures IsOrder(BiggerFirst())
  {
  }

  // ---- consequences

  /** A zero weight gets exactly nothing. */
  lemma ZeroGetsNothing(total: nat, amounts: seq<nat>, den: nat, parts: seq<nat>, i: nat)
    requires den > 0 && LargestRemainder(total, amounts, den, parts) && i < |parts| && amounts[i] == 0
    ensures parts[i] == 0
  {
    hide Sum;
    assert total * amounts[i] == 0;
  }

  /** A larger weight never gets less than a smaller one. */
  lemma LargerGetsNoLess(total: nat, amounts: seq<nat>, den: nat, parts: seq<nat>, i: nat, j: nat)
    requires den > 0 && LargestRemainder(total, amounts, den, parts)
    requires i < |parts| && j < |parts| && amounts[i] > amounts[j]
    ensures parts[i] >= parts[j]
  {
    hide Sum, Quota, Remainder;
    if total > 0 {
      LargerFirst(total, amounts[i], amounts[j], den);
    } else {
      NothingToShare(amounts[j], den);
    }
  }

  lemma NothingToShare(a: nat, den: nat)
    requires den > 0
    ensures Quota(0, a, den) == 0 && Remainder(0, a, den) == 0
  {
    assert 0 * a == 0;
  }

  lemma LargerFirst(total: nat, a: nat, b: nat, den: nat)
    requires den > 0 && total > 0 && a > b
    ensures var q, r := Quota(total, a, den), Quota(total, b, den);
            q > r || (q == r && Remainder(total, a, den) > Remainder(total, b, den))
  {
    hide Quota, Remainder;
    Scales(total, a, b);
    Divided(total, a, den);
    Divided(total, b, den);
    DivModOrder(total * a, total * b, den);
  }

  lemma Divided(total: nat, a: nat, den: nat)
    requires den > 0
    ensures Quota(total, a, den) == total * a / den && Remainder(total, a, den) == total * a % den
  {
  }

  lemma Scales(k: nat, a: nat, b: nat)
    requires k > 0 && a > b
    ensures k * a > k * b
  {
    Distribute(k, b, a - b);
    assert k * (a - b) > 0;
  }

  lemma DivModOrder(a: nat, b: nat, den: nat)
    requires a > b && den > 0
    ensures a / den > b / den || (a / den == b / den && a % den > b % den)
  {
    var q, r, s, t := a / den, a % den, b / den, b % den;
    assert a == q * den + r && b == s * den + t;
    QuotientOrder(q, s, den);
  }

  lemma QuotientOrder(q: nat, s: nat, den: nat)
    ensures q < s ==> q * den + den <= s * den
  {
    if q < s { assert (q + 1) * den <= s * den; }
  }

  // ---- the leftover never outlasts the positive remainders

  ghost function Quotas(total: nat, amounts: seq<nat>, den: nat): (r: seq<nat>)
    requires den > 0
    ensures |r| == |amounts| && forall i :: 0 <= i < |r| ==> r[i] == Quota(total, amounts[i], den)
  {
    seq(|amounts|, i requires 0 <= i < |amounts| => Quota(total, amounts[i], den))
  }

  ghost function Rems(total: nat, amounts: seq<nat>, den: nat): (r: seq<Rem>)
    requires den > 0
    ensures |r| == |amounts| && forall i :: 0 <= i < |r| ==> r[i] == Rem(i, Remainder(total, amounts[i], den))
  {
    seq(|amounts|, i requires 0 <= i < |amounts| => Rem(i, Remainder(total, amounts[i], den)))
  }

  function RemOf(): Rem -> int { (r: Rem) => r.remainder }

  /** Quotas and remainders account for the whole, den at a time. */
  lemma {:induction false} WholeSplits(total: nat, amounts: seq<nat>, den: nat)
    requires den > 0
    ensures total * Sum(amounts) == den * Sum(Quotas(total, amounts, den)) + SumBy(RemOf(), Rems(total, amounts, den))
  {
    hide Quota, Remainder;
    if amounts == [] {
      assert total * Sum(amounts) == 0;
    } else {
      var n := |amounts| - 1;
      var init, a := amounts[..n], amounts[n];
      WholeSplits(total, init, den);
      assert Quotas(total, amounts, den)[..n] == Quotas(total, init, den);
      assert Rems(total, amounts, den)[..n] == Rems(total, init, den);
      OneSplit(total, a, den);
      Distribute(total, Sum(init), a);
      Distribute(den, Sum(Quotas(total, init, den)), Quota(total, a, den));
    }
  }

  lemma OneSplit(total: nat, a: nat, den: nat)
    requires den > 0
    ensures total * a == den * Quota(total, a, den) + Remainder(total, a, den)
    ensures Remainder(total, a, den) < den
  {
  }

  lemma Distribute(k: int, a: int, b: int)
    ensures k * (a + b) == k * a + k * b
  {
  }

  /** A list of remainders below den, zero from place k on, sums to less than k
      times den (or is all zero). */
  lemma {:induction false} RemaindersBelow(rems: seq<Rem>, den: nat, k: nat)
    requires den > 0 && forall i :: 0 <= i < |rems| ==> rems[i].remainder < den
    requires forall i :: k <= i < |rems| ==> rems[i].remainder == 0
    ensures 0 <= SumBy(RemOf(), rems)
    ensures SumBy(RemOf(), rems) <= k * (den - 1)
  {
    if rems == [] {
      assert k * (den - 1) >= 0;
    } else {
      var init := rems[..|rems| - 1];
      if k >= |rems| {
        RemaindersBelow(init, den, k - 1);
        assert k * (den - 1) == (k - 1) * (den - 1) + (den - 1);
      } else {
        RemaindersBelow(init, den, k);
      }
    }
  }

  /** What is left after rounding down, and who may have it: fewer units than
      there are positive remainders, so the sorted list never runs out and never
      reaches a zero. */
  lemma LeftoverFits(total: nat, amounts: seq<nat>, den: nat, sorted: seq<Rem>)
    requires den > 0 && Sum(amounts) == den
    requires multiset(sorted) == multiset(Rems(total, amounts, den)) && Sorted(BiggerFirst(), sorted)
    ensures 0 <= total - Sum(Quotas(total, amounts, den)) <= |amounts| == |sorted|
    ensures forall k :: 0 <= k < total - Sum(Quotas(total, amounts, den)) ==> sorted[k].remainder > 0
  {
    hide Sum, Quota, Remainder;
    var rems := Rems(total, amounts, den);
    var left := total - Sum(Quotas(total, amounts, den));
    WholeSplits(total, amounts, den);
    Distribute(den, total, -Sum(Quotas(total, amounts, den)));
    SumRearranged(RemOf(), sorted, rems);
    Rearranged(sorted, rems);
    assert den * left == SumBy(RemOf(), sorted);
    forall i | 0 <= i < |sorted| ensures sorted[i].remainder < den {
      assert sorted[i] in rems;
      OneSplit(total, amounts[sorted[i].i], den);
    }
    RemaindersBelow(sorted, den, |sorted|);
    FewerThan(den, left, |sorted|);
    forall k | 0 <= k < left ensures sorted[k].remainder > 0 {
      if sorted[k].remainder == 0 {
        assert forall i :: k < i < |sorted| ==> !BiggerFirst()(sorted[i], sorted[k]);
        RemaindersBelow(sorted, den, k);
        FewerThan(den, left, k);
      }
    }
  }

  lemma FewerThan(den: nat, left: int, k: nat)
    requires den > 0 && 0 <= den * left <= k * (den - 1)
    ensures 0 <= left && (left == 0 || left < k) && left <= k
  {
    assert k * (den - 1) == den * k - k;
    ScaleOrder(den, k, left);
    ScaleOrder(den, left, 0);
    ScaleOrder(den, 0, left);
  }

  lemma ScaleOrder(den: nat, a: int, b: int)
    requires den > 0
    ensures a < b ==> den * a < den * b
    ensures a <= b ==> den * a <= den * b
  {
    Distribute(den, b, -a);
    if a < b { assert den * (b - a) > 0; }
  }

  // ---- the computation

  /** Rounded-down parts, their sum, and the remainders still owed. */
  method RoundDown(total: nat, amounts: seq<nat>, den: nat) returns (out: seq<nat>, given: nat, rems: seq<Rem>)
    requires den > 0
    ensures out == Quotas(total, amounts, den) && rems == Rems(total, amounts, den) && given == Sum(out)
  {
    hide Quota, Remainder;
    out, given, rems := [], 0, [];
    for i := 0 to |amounts|
      invariant |out| == |rems| == i && given == Sum(out)
      invariant forall k :: 0 <= k < i ==> out[k] == Quota(total, amounts[k], den)
      invariant forall k :: 0 <= k < i ==> rems[k] == Rem(k, Remainder(total, amounts[k], den))
    {
      var q := Quota(total, amounts[i], den);
      assert (out + [q])[..i] == out;
      out := out + [q];
      given := given + q;
      rems := rems + [Rem(i, Remainder(total, amounts[i], den))];
    }
  }

  /** Who has been given a unit after the first k of the sorted list were. */
  ghost predicate Handed(sorted: seq<Rem>, k: nat, quotas: seq<nat>, out: seq<nat>)
    requires k <= |sorted| && forall m :: 0 <= m < |sorted| ==> sorted[m].i < |quotas|
  {
    && |out| == |quotas|
    && (forall i :: 0 <= i < |out| ==> out[i] == quotas[i] || out[i] == quotas[i] + 1)
    && (forall m :: 0 <= m < |sorted| ==> out[sorted[m].i] == quotas[sorted[m].i] + if m < k then 1 else 0)
  }

  method Apportion(total: nat, amounts: seq<nat>, denominator: int) returns (out: seq<nat>)
    requires denominator <= 0 || Sum(amounts) == denominator
    ensures |out| == |amounts|
    ensures denominator <= 0 ==> forall i :: 0 <= i < |out| ==> out[i] == 0
    ensures denominator > 0 ==> LargestRemainder(total, amounts, denominator, out)
  {
    hide *;
    if denominator <= 0 {
      return seq(|amounts|, _ => 0);
    }
    var rems: seq<Rem>, given: nat;
    out, given, rems := RoundDown(total, amounts, denominator);
    ghost var quotas := out;
    BiggerFirstIsOrder();
    var sorted := SortBy(BiggerFirst(), rems);
    LeftoverFits(total, amounts, denominator, sorted);
    EachOnce(total, amounts, denominator, sorted);
    NoneHanded(sorted, quotas);
    ghost var down := given;
    var k := 0;
    while given < total && k < |sorted|
      invariant k <= |sorted| && given == down + k <= total
      invariant |out| == |quotas| && Sum(out) == given && Handed(sorted, k, quotas, out)
    {
      HandOne(sorted, k, quotas, out);
      out := out[sorted[k].i := out[sorted[k].i] + 1];
      given := given + 1;
      k := k + 1;
    }
    HandedIsLargest(total, amounts, denominator, sorted, k, out);
  }

  lemma EachOnce(total: nat, amounts: seq<nat>, den: nat, sorted: seq<Rem>)
    requires den > 0 && multiset(sorted) == multiset(Rems(total, amounts, den))
    ensures forall m :: 0 <= m < |sorted| ==> sorted[m].i < |amounts| && sorted[m].remainder == Remainder(total, amounts[sorted[m].i], den)
    ensures forall m, n :: 0 <= m < n < |sorted| ==> sorted[m].i != sorted[n].i
    ensures forall i :: 0 <= i < |amounts| ==> Rem(i, Remainder(total, amounts[i], den)) in sorted
  {
    hide Remainder;
    var rems := Rems(total, amounts, den);
    Rearranged(rems, sorted);
    forall m | 0 <= m < |sorted| ensures sorted[m].i < |amounts| && sorted[m].remainder == Remainder(total, amounts[sorted[m].i], den) {
      assert sorted[m] in rems;
    }
    forall m, n | 0 <= m < n < |sorted| ensures sorted[m].i != sorted[n].i { assert sorted[m] != sorted[n]; }
    forall i | 0 <= i < |amounts| ensures Rem(i, Remainder(total, amounts[i], den)) in sorted { assert rems[i] in rems; }
  }

  lemma NoneHanded(sorted: seq<Rem>, quotas: seq<nat>)
    requires forall m :: 0 <= m < |sorted| ==> sorted[m].i < |quotas|
    ensures Handed(sorted, 0, quotas, quotas)
  {
  }

  lemma HandOne(sorted: seq<Rem>, k: nat, quotas: seq<nat>, out: seq<nat>)
    requires k < |sorted| && (forall m :: 0 <= m < |sorted| ==> sorted[m].i < |quotas|) && Handed(sorted, k, quotas, out)
    requires forall m, n :: 0 <= m < n < |sorted| ==> sorted[m].i != sorted[n].i
    ensures Handed(sorted, k + 1, quotas, out[sorted[k].i := out[sorted[k].i] + 1])
    ensures Sum(out[sorted[k].i := out[sorted[k].i] + 1]) == Sum(out) + 1
  {
    SumUpdate(out, sorted[k].i, out[sorted[k].i] + 1);
  }

  lemma SumUpdate(s: seq<nat>, i: nat, v: nat)
    requires i < |s|
    ensures Sum(s[i := v]) == Sum(s) - s[i] + v
  {
    hide SumBy;
    SumWithout(Same(), s, i);
    SumWithout(Same(), s[i := v], i);
    assert Without(s, i) == Without(s[i := v], i);
  }

  /** Each part, placed: which remainder of the sorted list it is, and whether that
      one was handed a unit. */
  lemma HandedAt(total: nat, amounts: seq<nat>, den: nat, sorted: seq<Rem>, k: nat, out: seq<nat>, i: nat) returns (m: nat)
    requires den > 0 && multiset(sorted) == multiset(Rems(total, amounts, den)) && i < |amounts|
    requires k <= |sorted| && (forall m :: 0 <= m < |sorted| ==> sorted[m].i < |amounts|)
    requires Handed(sorted, k, Quotas(total, amounts, den), out)
    ensures |out| == |amounts| && m < |sorted| && sorted[m] == Rem(i, Remainder(total, amounts[i], den))
    ensures out[i] == Quota(total, amounts[i], den) + if m < k then 1 else 0
  {
    hide Quota, Remainder, Rems, Quotas;
    EachOnce(total, amounts, den, sorted);
    assert Rem(i, Remainder(total, amounts[i], den)) in sorted;
    m :| 0 <= m < |sorted| && sorted[m] == Rem(i, Remainder(total, amounts[i], den));
  }

  /** Once exactly the leftover has been handed out, in order, the parts are the
      largest-remainder parts. */
  lemma HandedIsLargest(total: nat, amounts: seq<nat>, den: nat, sorted: seq<Rem>, k: nat, out: seq<nat>)
    requires den > 0 && multiset(sorted) == multiset(Rems(total, amounts, den)) && Sorted(BiggerFirst(), sorted)
    requires k <= |sorted| && (forall m :: 0 <= m < |sorted| ==> sorted[m].i < |amounts|)
    requires Handed(sorted, k, Quotas(total, amounts, den), out) && Sum(out) == total
    requires forall m :: 0 <= m < k ==> sorted[m].remainder > 0
    ensures LargestRemainder(total, amounts, den, out)
  {
    hide Sum, Quota, Remainder, Handed, Rems, Quotas, BiggerFirst;
    HandedLength(sorted, k, Quotas(total, amounts, den), out);
    forall i | 0 <= i < |out|
      ensures var q := Quota(total, amounts[i], den); out[i] == q || (out[i] == q + 1 && Remainder(total, amounts[i], den) > 0)
    {
      var m := HandedAt(total, amounts, den, sorted, k, out, i);
    }
    forall i, j | 0 <= i < |out| && 0 <= j < |out|
        && out[i] == Quota(total, amounts[i], den) + 1 && out[j] == Quota(total, amounts[j], den)
      ensures BiggerFirst()(Rem(i, Remainder(total, amounts[i], den)), Rem(j, Remainder(total, amounts[j], den)))
    {
      var m := HandedAt(total, amounts, den, sorted, k, out, i);
      var n := HandedAt(total, amounts, den, sorted, k, out, j);
      assert !BiggerFirst()(sorted[n], sorted[m]);
      Strict(sorted[m], sorted[n]);
    }
  }

  lemma HandedLength(sorted: seq<Rem>, k: nat, quotas: seq<nat>, out: seq<nat>)
    requires k <= |sorted| && (forall m :: 0 <= m < |sorted| ==> sorted[m].i < |quotas|) && Handed(sorted, k, quotas, out)
    ensures |out| == |quotas|
  {
  }

  /** Different parts are strictly ordered. */
  lemma Strict(a: Rem, b: Rem)
    requires a.i != b.i && !BiggerFirst()(b, a)
    ensures BiggerFirst()(a, b)
  {
  }
}
