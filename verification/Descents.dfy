/** Two lines that bend only at the same heights -- edges between one pair of
    bands -- and exactly when the census counts them as crossing. */
module Descents {
  import opened Geometry
  import opened Meeting

  predicate Falls(w: seq<Point>) { forall m, n :: 0 <= m < n < |w| ==> w[m].y < w[n].y }
  predicate Rises(w: seq<Point>) { forall m, n :: 0 <= m < n < |w| ==> w[m].y > w[n].y }

  predicate SameHeights(w: seq<Point>, v: seq<Point>) { |w| == |v| && forall m :: 0 <= m < |w| ==> w[m].y == v[m].y }

  /** v meets the heights of w in the opposite order. */
  predicate OppositeHeights(w: seq<Point>, v: seq<Point>) {
    |w| == |v| && forall m :: 0 <= m < |w| ==> v[|w| - 1 - m].y == w[m].y
  }

  /** The two change sides strictly between heights m and m + 1. */
  predicate Swap(w: seq<Point>, v: seq<Point>, m: int) {
    && 0 <= m && m + 1 < |w| && |v| == |w|
    && ((w[m].x < v[m].x && w[m + 1].x > v[m + 1].x) || (w[m].x > v[m].x && w[m + 1].x < v[m + 1].x))
  }

  /** The two share bend m, and coming in by one of them and going on by the other
      is a turn to the left. */
  predicate Graze(w: seq<Point>, v: seq<Point>, m: int) {
    && 0 < m && m + 1 < |w| && |v| == |w| && w[m] == v[m]
    && (Orient(w[m - 1], w[m], v[m + 1]) > 0.0 || Orient(v[m - 1], v[m], w[m + 1]) > 0.0)
  }

  /** w passes from one side of v to the other, v read backwards. */
  predicate Passes(w: seq<Point>, v: seq<Point>, m: int) {
    && 0 <= m && m + 1 < |w| && |v| == |w|
    && (w[m].x > v[|w| - 1 - m].x) != (w[m + 1].x > v[|w| - 2 - m].x)
  }

  // ---- one stretch against one stretch

  lemma TwoHeights(p1: Point, p2: Point, q1: Point, q2: Point)
    requires p1.y == q1.y && p2.y == q2.y && p1.y != p2.y
    ensures SegmentsCross(p1, p2, q1, q2)
            <==> (p1.x < q1.x && p2.x > q2.x) || (p1.x > q1.x && p2.x < q2.x)
  {
    var h := p2.y - p1.y;
    SignOfProduct(Orient(q1, q2, p1), h, q1.x - p1.x);
    SignOfProduct(Orient(q1, q2, p2), h, q2.x - p2.x);
    SignOfProduct(Orient(p1, p2, q1), h, p1.x - q1.x);
    SignOfProduct(Orient(p1, p2, q2), h, p2.x - q2.x);
  }

  lemma TwoHeightsAgainst(p1: Point, p2: Point, q1: Point, q2: Point)
    requires p1.y == q2.y && p2.y == q1.y && p1.y < p2.y
    ensures SegmentsCross(p1, p2, q1, q2) <==> (p1.x > q2.x) != (p2.x > q1.x)
  {
    var h := p2.y - p1.y;
    SignOfProduct(Orient(q1, q2, p1), h, p1.x - q2.x);
    SignOfProduct(Orient(q1, q2, p2), h, p2.x - q1.x);
    SignOfProduct(Orient(p1, p2, q1), h, p2.x - q1.x);
    SignOfProduct(Orient(p1, p2, q2), h, p1.x - q2.x);
  }

  /** Stretches apart in height are never counted. */
  lemma Distant(p1: Point, p2: Point, q1: Point, q2: Point)
    requires || (p1.y < q1.y && p1.y < q2.y && p2.y < q1.y && p2.y < q2.y)
             || (p1.y > q1.y && p1.y > q2.y && p2.y > q1.y && p2.y > q2.y)
    ensures !SegmentsCross(p1, p2, q1, q2)
  {
    hide SegmentsCross;
    if p1.y < q1.y {
      SlabsApart(p1, p2, q1, q2, if p1.y > p2.y then p1.y else p2.y);
    } else {
      SlabsApart(q1, q2, p1, p2, if q1.y > q2.y then q1.y else q2.y);
    }
  }

  lemma Swapped(p1: Point, p2: Point, q1: Point, q2: Point)
    ensures SegmentsCross(p1, p2, q1, q2) <==> SegmentsCross(q1, q2, p1, p2)
  {
  }

  // ---- the same way

  /** Stretch i of w against stretch j of v, both drawn the same way. */
  lemma StretchesSameWay(w: seq<Point>, v: seq<Point>, i: int, j: int)
    requires SameHeights(w, v) && (Falls(w) || Rises(w)) && 0 < i < |w| && 0 < j < |v|
    ensures SegmentsCross(w[i - 1], w[i], v[j - 1], v[j]) <==>
            || (i == j && Swap(w, v, i - 1))
            || (j == i + 1 && w[i] == v[i] && Orient(w[i - 1], w[i], v[j]) > 0.0)
            || (i == j + 1 && w[j] == v[j] && Orient(v[j - 1], v[j], w[i]) > 0.0)
  {
    hide SegmentsCross, Orient;
    if i == j {
      TwoHeights(w[i - 1], w[i], v[i - 1], v[i]);
    } else if j == i + 1 || i == j + 1 {
      var y := if j == i + 1 then w[i].y else w[j].y;
      if w[i].y <= y && w[i - 1].y <= y {
        Touching(w[i - 1], w[i], v[j - 1], v[j], y);
      } else {
        Swapped(w[i - 1], w[i], v[j - 1], v[j]);
        Touching(v[j - 1], v[j], w[i - 1], w[i], y);
      }
    } else {
      Distant(w[i - 1], w[i], v[j - 1], v[j]);
    }
  }

  /** Drawn the same way, they are counted exactly when they swap sides strictly
      somewhere, or share a bend with a turn to the left through it. */
  lemma SameWay(w: seq<Point>, v: seq<Point>)
    requires SameHeights(w, v) && (Falls(w) || Rises(w))
    ensures PolylinesMeet(w, v) <==> (exists m :: Swap(w, v, m)) || (exists m :: Graze(w, v, m))
  {
    hide SegmentsCross, Swap, Graze, Orient, Falls, Rises, SameHeights;
    if i, j :| Hit(w, v, i, j) {
      SameWayHit(w, v, i, j);
    }
    if m :| Swap(w, v, m) { SwapHits(w, v, m); }
    if m :| Graze(w, v, m) { GrazeHits(w, v, m); }
  }

  lemma SameWayHit(w: seq<Point>, v: seq<Point>, i: int, j: int)
    requires SameHeights(w, v) && (Falls(w) || Rises(w)) && 0 < i < |w| && 0 < j < |v|
    requires SegmentsCross(w[i - 1], w[i], v[j - 1], v[j])
    ensures Swap(w, v, i - 1) || Graze(w, v, i) || Graze(w, v, j)
  {
    hide SegmentsCross, Orient, Falls, Rises;
    StretchesSameWay(w, v, i, j);
  }

  lemma SwapHits(w: seq<Point>, v: seq<Point>, m: int)
    requires SameHeights(w, v) && (Falls(w) || Rises(w)) && Swap(w, v, m)
    ensures PolylinesMeet(w, v)
  {
    hide SegmentsCross, Orient, Falls, Rises;
    StretchesSameWay(w, v, m + 1, m + 1);
    assert Hit(w, v, m + 1, m + 1);
  }

  lemma GrazeHits(w: seq<Point>, v: seq<Point>, m: int)
    requires SameHeights(w, v) && (Falls(w) || Rises(w)) && Graze(w, v, m)
    ensures PolylinesMeet(w, v)
  {
    hide SegmentsCross, Orient, Falls, Rises;
    StretchesSameWay(w, v, m, m + 1);
    StretchesSameWay(w, v, m + 1, m);
    assert Hit(w, v, m, m + 1) || Hit(w, v, m + 1, m);
  }

  // ---- opposite ways

  /** Stretch i of w, going down, against stretch j of v, going up. */
  lemma StretchesAgainst(w: seq<Point>, v: seq<Point>, i: int, j: int)
    requires OppositeHeights(w, v) && Falls(w) && 0 < i < |w| && 0 < j < |v|
    ensures SegmentsCross(w[i - 1], w[i], v[j - 1], v[j]) <==> i + j == |w| && Passes(w, v, i - 1)
  {
    hide SegmentsCross, Orient;
    var n := |w|;
    assert v[j - 1].y == w[n - j].y && v[j].y == w[n - 1 - j].y;
    if i + j == n {
      TwoHeightsAgainst(w[i - 1], w[i], v[j - 1], v[j]);
    } else if i + j == n - 1 {
      Touching(w[i - 1], w[i], v[j - 1], v[j], w[i].y);
    } else if i + j == n + 1 {
      Swapped(w[i - 1], w[i], v[j - 1], v[j]);
      Touching(v[j - 1], v[j], w[i - 1], w[i], w[i - 1].y);
    } else {
      Distant(w[i - 1], w[i], v[j - 1], v[j]);
    }
  }

  /** Drawn opposite ways, they are counted exactly when one is to the right of
      the other at some height and not at another. */
  lemma OppositeWays(w: seq<Point>, v: seq<Point>)
    requires OppositeHeights(w, v) && Falls(w)
    ensures PolylinesMeet(w, v) <==> exists m :: Passes(w, v, m)
    ensures PolylinesMeet(v, w) <==> PolylinesMeet(w, v)
  {
    hide SegmentsCross, Passes, Falls, OppositeHeights;
    MeetSymmetric(w, v);
    if i, j :| Hit(w, v, i, j) {
      StretchesAgainst(w, v, i, j);
    }
    if m :| Passes(w, v, m) { PassHits(w, v, m); }
  }

  lemma PassHits(w: seq<Point>, v: seq<Point>, m: int)
    requires OppositeHeights(w, v) && Falls(w) && Passes(w, v, m)
    ensures PolylinesMeet(w, v)
  {
    hide SegmentsCross, Falls;
    var i, j := m + 1, |w| - m - 1;
    StretchesAgainst(w, v, i, j);
    assert Hit(w, v, i, j);
  }

  lemma MeetSymmetric(w: seq<Point>, v: seq<Point>)
    ensures PolylinesMeet(w, v) <==> PolylinesMeet(v, w)
  {
    hide PolylinesMeet;
    if PolylinesMeet(w, v) { MeetTurned(w, v); }
    if PolylinesMeet(v, w) { MeetTurned(v, w); }
  }

  lemma MeetTurned(w: seq<Point>, v: seq<Point>)
    requires PolylinesMeet(w, v)
    ensures PolylinesMeet(v, w)
  {
    hide SegmentsCross;
    var i, j :| Hit(w, v, i, j);
    Swapped(w[i - 1], w[i], v[j - 1], v[j]);
    assert Hit(v, w, j, i);
  }

  // ---- what inverted ends force

  /** Ends on opposite sides, and never side by side in between: a swap. */
  lemma {:induction false} InvertedSwaps(w: seq<Point>, v: seq<Point>, n: nat) returns (m: int)
    requires |w| == |v| && 0 < n < |w|
    requires (w[0].x < v[0].x && w[n].x > v[n].x) || (w[0].x > v[0].x && w[n].x < v[n].x)
    requires forall k :: 0 < k < n ==> w[k].x != v[k].x
    ensures Swap(w, v, m)
  {
    m := n - 1;
    if !Swap(w, v, m) { m := InvertedSwaps(w, v, n - 1); }
  }

  /** Ends on opposite sides of a line drawn the other way: it is passed. */
  lemma {:induction false} InvertedPasses(w: seq<Point>, v: seq<Point>, n: nat) returns (m: int)
    requires |w| == |v| && 0 < n < |w|
    requires (w[0].x > v[|w| - 1].x) != (w[n].x > v[|w| - 1 - n].x)
    ensures Passes(w, v, m)
  {
    m := n - 1;
    if !Passes(w, v, m) { m := InvertedPasses(w, v, n - 1); }
  }
}
