/** Stable sorting by a caller-supplied "less", as the source uses it: a
    function, so that specifications can name the sorted sequence. */
module Sorting {

  /** "not less" is transitive and less is asymmetric: what a comparison
      function must satisfy for its sort to mean anything. */
  ghost predicate IsOrder<T(!new)>(less: (T, T) -> bool) {
    && (forall a, b :: less(a, b) ==> !less(b, a))
    && (forall a, b, c :: !less(a, b) && !less(b, c) ==> !less(a, c))
  }

  predicate Sorted<T>(less: (T, T) -> bool, s: seq<T>) {
    forall i, j :: 0 <= i < j < |s| ==> !less(s[j], s[i])
  }

  /** x goes before the first element that is not less than it, so equal
      elements keep the order they had. */
  function Insert<T(!new)>(less: (T, T) -> bool, x: T, s: seq<T>): (r: seq<T>)
    requires IsOrder(less) && Sorted(less, s)
    ensures multiset(r) == multiset([x]) + multiset(s)
    ensures Sorted(less, r)
  {
    if s == [] then [x]
    else if !less(s[0], x) then
      assert [x] + s == [x] + ([s[0]] + s[1..]);
      assert forall j :: 0 < j < |s| ==> !less(s[j], s[0]);
      assert forall j :: 0 <= j < |s| ==> !less(s[j], x);
      [x] + s
    else
      assert s == [s[0]] + s[1..];
      var t := Insert(less, x, s[1..]);
      assert forall k :: 0 <= k < |t| ==> !less(t[k], s[0]) by {
        forall k | 0 <= k < |t| ensures !less(t[k], s[0]) {
          assert t[k] in multiset(t);
          assert t[k] == x || t[k] in s[1..];
        }
      }
      [s[0]] + t
  }

  function SortBy<T(!new)>(less: (T, T) -> bool, s: seq<T>): (r: seq<T>)
    requires IsOrder(less)
    ensures multiset(r) == multiset(s) && |r| == |s|
    ensures Sorted(less, r)
  {
    if s == [] then []
    else
      assert s == [s[0]] + s[1..];
      var r := Insert(less, s[0], SortBy(less, s[1..]));
      assert |r| == |multiset(r)| == |multiset(s)| == |s|;
      r
  }

  /** The members of s that x neither precedes nor follows, in the order of s. */
  function Ties<T>(less: (T, T) -> bool, x: T, s: seq<T>): seq<T> {
    if s == [] then []
    else (if less(s[0], x) || less(x, s[0]) then [] else [s[0]]) + Ties(less, x, s[1..])
  }

  lemma NoTies<T>(less: (T, T) -> bool, x: T)
    ensures Ties(less, x, []) == []
  {
  }

  lemma TiesCons<T>(less: (T, T) -> bool, x: T, h: T, t: seq<T>)
    ensures Ties(less, x, [h] + t) == (if less(h, x) || less(x, h) then [] else [h]) + Ties(less, x, t)
  {
    assert ([h] + t)[1..] == t;
  }

  lemma Insertion<T(!new)>(less: (T, T) -> bool, y: T, s: seq<T>)
    requires IsOrder(less) && Sorted(less, s)
    ensures if s == [] || !less(s[0], y) then Insert(less, y, s) == [y] + s
            else Sorted(less, s[1..]) && Insert(less, y, s) == [s[0]] + Insert(less, y, s[1..])
  {
  }

  /** y goes past h only if it does not tie with what h ties with. */
  lemma NotBothTie<T(!new)>(less: (T, T) -> bool, x: T, h: T, y: T)
    requires IsOrder(less) && less(h, y)
    ensures less(h, x) || less(x, h) || less(y, x) || less(x, y)
  {
  }

  lemma {:induction false} InsertStable<T(!new)>(less: (T, T) -> bool, x: T, y: T, s: seq<T>)
    requires IsOrder(less) && Sorted(less, s)
    ensures Ties(less, x, Insert(less, y, s)) == Ties(less, x, [y] + s)
  {
    hide *;
    Insertion(less, y, s);
    if s != [] && less(s[0], y) {
      var h, t := s[0], s[1..];
      assert s == [h] + t;
      InsertStable(less, x, y, t);
      NotBothTie(less, x, h, y);
      TiesCons(less, x, h, Insert(less, y, t));
      TiesCons(less, x, y, t);
      TiesCons(less, x, y, s);
      TiesCons(less, x, h, t);
    }
  }

  /** The sort is stable: equal members keep the order they had. */
  lemma {:induction false} SortStable<T(!new)>(less: (T, T) -> bool, x: T, s: seq<T>)
    requires IsOrder(less)
    ensures Ties(less, x, SortBy(less, s)) == Ties(less, x, s)
  {
    hide Insert, IsOrder, Sorted, Ties;
    if s != [] {
      var h, t := s[0], SortBy(less, s[1..]);
      assert s == [h] + s[1..];
      InsertStable(less, x, h, t);
      TiesCons(less, x, h, t);
      TiesCons(less, x, h, s[1..]);
      SortStable(less, x, s[1..]);
    }
  }

  /** Sorted, and in the order of the given places where the comparison ties. */
  ghost predicate SortedWithin<T>(less: (T, T) -> bool, place: T -> int, s: seq<T>) {
    forall i, j :: 0 <= i < j < |s| ==> less(s[i], s[j]) || (!less(s[j], s[i]) && place(s[i]) < place(s[j]))
  }

  lemma {:induction false} InsertWithin<T(!new)>(less: (T, T) -> bool, place: T -> int, x: T, s: seq<T>)
    requires IsOrder(less) && Sorted(less, s) && SortedWithin(less, place, s)
    requires forall i :: 0 <= i < |s| ==> place(x) < place(s[i])
    ensures SortedWithin(less, place, Insert(less, x, s))
  {
    hide Insert;
    Insertion(less, x, s);
    if s == [] || !less(s[0], x) {
      var r := [x] + s;
      forall i, j | 0 <= i < j < |r| ensures less(r[i], r[j]) || (!less(r[j], r[i]) && place(r[i]) < place(r[j])) {
        if i > 0 { assert r[i] == s[i - 1] && r[j] == s[j - 1]; } else { NotBefore(less, s, j - 1, x); }
      }
    } else {
      var t := Insert(less, x, s[1..]);
      InsertWithin(less, place, x, s[1..]);
      var r := [s[0]] + t;
      forall i, j | 0 <= i < j < |r| ensures less(r[i], r[j]) || (!less(r[j], r[i]) && place(r[i]) < place(r[j])) {
        if i > 0 {
          assert r[i] == t[i - 1] && r[j] == t[j - 1];
        } else {
          assert t[j - 1] in multiset(t);
          assert t[j - 1] == x || t[j - 1] in s[1..];
          if t[j - 1] != x { var k :| 0 <= k < |s[1..]| && s[1..][k] == t[j - 1]; assert s[k + 1] == t[j - 1]; }
        }
      }
    }
  }

  lemma NotBefore<T(!new)>(less: (T, T) -> bool, s: seq<T>, k: nat, x: T)
    requires IsOrder(less) && Sorted(less, s) && k < |s| && !less(s[0], x)
    ensures !less(s[k], x)
  {
    if k > 0 { assert !less(s[k], s[0]); }
  }

  /** Members listed by place come out sorted, and by place among equals. */
  lemma {:induction false} SortWithin<T(!new)>(less: (T, T) -> bool, place: T -> int, s: seq<T>)
    requires IsOrder(less) && forall i, j :: 0 <= i < j < |s| ==> place(s[i]) < place(s[j])
    ensures SortedWithin(less, place, SortBy(less, s))
  {
    hide Insert, IsOrder, Sorted, SortedWithin;
    if s == [] {
      NoneWithin(less, place);
    } else {
      var rest := s[1..];
      assert forall i, j :: 0 <= i < j < |rest| ==> place(rest[i]) < place(rest[j]) by {
        forall i, j | 0 <= i < j < |rest| ensures place(rest[i]) < place(rest[j]) { assert rest[i] == s[i + 1] && rest[j] == s[j + 1]; }
      }
      SortWithin(less, place, rest);
      var t := SortBy(less, rest);
      forall i | 0 <= i < |t| ensures place(s[0]) < place(t[i]) {
        assert t[i] in multiset(t);
        assert t[i] in rest;
      }
      InsertWithin(less, place, s[0], t);
    }
  }

  lemma NoneWithin<T>(less: (T, T) -> bool, place: T -> int)
    ensures SortedWithin(less, place, [])
  {
  }

  predicate NoDup<T(==)>(s: seq<T>) {
    forall i, j :: 0 <= i < j < |s| ==> s[i] != s[j]
  }

  lemma {:induction false} NoDupCounts<T>(s: seq<T>)
    ensures NoDup(s) <==> (forall x :: x in s ==> multiset(s)[x] == 1)
  {
    if s != [] {
      var t := s[1..];
      assert s == [s[0]] + t;
      NoDupCounts(t);
      if NoDup(s) {
        assert forall k :: 0 <= k < |t| ==> t[k] == s[k + 1];
        assert s[0] !in t;
      }
      if forall x :: x in s ==> multiset(s)[x] == 1 {
        forall x | x in t ensures multiset(t)[x] == 1 { assert x in s; }
        assert multiset(s)[s[0]] == 1 + multiset(t)[s[0]];
        assert s[0] !in t;
      }
    }
  }

  /** A rearrangement has the same members, and repeats one only if the
      original did. */
  lemma Rearranged<T>(s: seq<T>, r: seq<T>)
    requires multiset(s) == multiset(r)
    ensures forall x :: x in s <==> x in r
    ensures NoDup(s) ==> NoDup(r)
    ensures |s| == |r|
  {
    forall x ensures x in s <==> x in r {
      assert x in s <==> x in multiset(s);
      assert x in r <==> x in multiset(r);
    }
    NoDupCounts(s);
    NoDupCounts(r);
    assert |s| == |multiset(s)| && |r| == |multiset(r)|;
  }

  /** The sum of f over a sequence. */
  function SumBy<T>(f: T -> int, s: seq<T>): int {
    if s == [] then 0 else SumBy(f, s[..|s| - 1]) + f(s[|s| - 1])
  }

  lemma {:induction false} SumAppend<T>(f: T -> int, a: seq<T>, b: seq<T>)
    ensures SumBy(f, a + b) == SumBy(f, a) + SumBy(f, b)
  {
    if b == [] {
      assert a + b == a;
    } else {
      assert (a + b)[..|a + b| - 1] == a + b[..|b| - 1];
      SumAppend(f, a, b[..|b| - 1]);
    }
  }

  /** s with the element at k taken out. */
  function Without<T>(s: seq<T>, k: nat): seq<T>
    requires k < |s|
  {
    s[..k] + s[k + 1..]
  }

  lemma WithoutCounts<T>(s: seq<T>, k: nat)
    requires k < |s|
    ensures multiset(Without(s, k)) == multiset(s) - multiset{s[k]}
  {
    assert s == s[..k] + [s[k]] + s[k + 1..];
  }

  lemma SumOne<T>(f: T -> int, x: T)
    ensures SumBy(f, [x]) == f(x)
  {
    assert [x][..0] == [];
  }

  lemma SumWithout<T>(f: T -> int, s: seq<T>, k: nat)
    requires k < |s|
    ensures SumBy(f, s) == f(s[k]) + SumBy(f, Without(s, k))
  {
    hide SumBy;
    assert s == s[..k] + ([s[k]] + s[k + 1..]);
    SumOne(f, s[k]);
    SumAppend(f, s[..k], [s[k]] + s[k + 1..]);
    SumAppend(f, [s[k]], s[k + 1..]);
    SumAppend(f, s[..k], s[k + 1..]);
  }

  /** A sum does not depend on order. */
  lemma {:induction false} SumRearranged<T>(f: T -> int, a: seq<T>, b: seq<T>)
    requires multiset(a) == multiset(b)
    ensures SumBy(f, a) == SumBy(f, b)
    decreases |a|
  {
    hide SumBy, Without, NoDup;
    Rearranged(a, b);
    if a == [] {
      assert a == b;
    } else {
      assert a[0] in b;
      var k :| 0 <= k < |b| && b[k] == a[0];
      WithoutCounts(a, 0);
      WithoutCounts(b, k);
      WithoutShorter(a, 0);
      SumRearranged(f, Without(a, 0), Without(b, k));
      SumWithout(f, a, 0);
      SumWithout(f, b, k);
    }
  }

  lemma WithoutShorter<T>(s: seq<T>, k: nat)
    requires k < |s|
    ensures |Without(s, k)| == |s| - 1
  {
  }
}
