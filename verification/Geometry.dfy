/** Plane geometry of a finished drawing: the proper-crossing test of the
    drawn-crossing census, and the facts about it the layout proofs need. */
module Geometry {

  datatype Point = Point(x: real, y: real)

  /** One node as drawn: its top-left corner and its size. */
  datatype Box = Box(x: real, y: real, w: real, h: real)
  {
    function CenterX(): real { x + w / 2.0 }
    function Bottom(): real { y + h }
    function Right(): real { x + w }
  }

  /** Twice the signed area of a, b, c: positive when c is left of a -> b. */
  function Orient(a: Point, b: Point, c: Point): real {
    (b.x - a.x) * (c.y - a.y) - (b.y - a.y) * (c.x - a.x)
  }

  predicate SegmentsCross(p1: Point, p2: Point, q1: Point, q2: Point) {
    && (Orient(q1, q2, p1) > 0.0) != (Orient(q1, q2, p2) > 0.0)
    && (Orient(p1, p2, q1) > 0.0) != (Orient(p1, p2, q2) > 0.0)
  }

  /** The segment of a ending at a[i] crosses the one of b ending at b[j]. */
  predicate Hit(a: seq<Point>, b: seq<Point>, i: int, j: int) {
    0 < i < |a| && 0 < j < |b| && SegmentsCross(a[i - 1], a[i], b[j - 1], b[j])
  }

  /** Some segment of a crosses some segment of b. */
  ghost predicate PolylinesMeet(a: seq<Point>, b: seq<Point>) {
    exists i, j :: Hit(a, b, i, j)
  }

  method PolylinesCross(a: seq<Point>, b: seq<Point>) returns (r: bool)
    ensures r <==> PolylinesMeet(a, b)
  {
    var i := 1;
    while i < |a|
      invariant 1 <= i
      invariant forall k, j :: k < i ==> !Hit(a, b, k, j)
    {
      var j := 1;
      while j < |b|
        invariant 1 <= j
        invariant forall m :: m < j ==> !Hit(a, b, i, m)
      {
        assert Hit(a, b, i, j) <==> SegmentsCross(a[i - 1], a[i], b[j - 1], b[j]);
        if SegmentsCross(a[i - 1], a[i], b[j - 1], b[j]) {
          return true;
        }
        j := j + 1;
      }
      i := i + 1;
    }
    r := false;
  }

  /** The point a fraction t of the way from p to q. */
  function At(p: Point, q: Point, t: real): Point {
    Point(p.x + t * (q.x - p.x), p.y + t * (q.y - p.y))
  }

  function Lo(a: real, b: real): real { if a > b then b else a }
  function Hi(a: real, b: real): real { if a > b then a else b }

  // ---- arithmetic used below

  lemma Between(a: real, b: real, t: real, lo: real, hi: real)
    requires 0.0 <= t <= 1.0 && lo <= a <= hi && lo <= b <= hi
    ensures lo <= a + t * (b - a) <= hi
  {
    assert (1.0 - t) * (a - lo) >= 0.0 && t * (b - lo) >= 0.0;
    assert (1.0 - t) * (hi - a) >= 0.0 && t * (hi - b) >= 0.0;
    assert a + t * (b - a) - lo == (1.0 - t) * (a - lo) + t * (b - lo);
    assert hi - (a + t * (b - a)) == (1.0 - t) * (hi - a) + t * (hi - b);
  }

  /** The sign of a product, stated of a name for it so that callers keep the
      factors out of sight. */
  lemma SignOfProduct(p: real, a: real, b: real)
    requires p == a * b
    ensures p > 0.0 <==> (a > 0.0 && b > 0.0) || (a < 0.0 && b < 0.0)
    ensures p < 0.0 <==> (a > 0.0 && b < 0.0) || (a < 0.0 && b > 0.0)
  {
    if a > 0.0 && b > 0.0 { assert a * b > 0.0; }
    else if a < 0.0 && b < 0.0 { assert (-a) * (-b) > 0.0; }
    else if a > 0.0 && b < 0.0 { assert a * (-b) > 0.0; }
    else if a < 0.0 && b > 0.0 { assert (-a) * b > 0.0; }
    else { assert a * b == 0.0; }
  }

  // ---- the crossing point

  /** The two lines of a crossing pair meet at one point, written once with p's
      weights and once with q's. */
  lemma CommonPoint(p1: Point, p2: Point, q1: Point, q2: Point)
    ensures var d1, d2, d3, d4 := Orient(q1, q2, p1), Orient(q1, q2, p2), Orient(p1, p2, q1), Orient(p1, p2, q2);
            && d1 - d2 == d4 - d3
            && d1 * p2.y - d2 * p1.y == d4 * q1.y - d3 * q2.y
            && d1 * p2.x - d2 * p1.x == d4 * q1.x - d3 * q2.x
  {
  }

  lemma WeightedBelow(w1: real, w2: real, a: real, b: real, hi: real)
    requires w1 >= 0.0 && w2 >= 0.0 && a <= hi && b <= hi
    ensures w1 * a + w2 * b <= (w1 + w2) * hi
  {
    assert w1 * a <= w1 * hi && w2 * b <= w2 * hi;
  }

  lemma WeightedAbove(w1: real, w2: real, a: real, b: real, lo: real)
    requires w1 >= 0.0 && w2 >= 0.0 && a > lo && b > lo && w1 + w2 > 0.0
    ensures w1 * a + w2 * b > (w1 + w2) * lo
  {
    SignOfProduct(w1 * (a - lo), w1, a - lo);
    SignOfProduct(w2 * (b - lo), w2, b - lo);
    assert w1 * a + w2 * b - (w1 + w2) * lo == w1 * (a - lo) + w2 * (b - lo);
  }

  /** Two segments in strictly separated horizontal slabs do not cross, however
      either is directed. */
  lemma SlabsApart(p1: Point, p2: Point, q1: Point, q2: Point, y: real)
    requires p1.y <= y && p2.y <= y && q1.y > y && q2.y > y
    ensures !SegmentsCross(p1, p2, q1, q2) && !SegmentsCross(q1, q2, p1, p2)
  {
    if SegmentsCross(p1, p2, q1, q2) {
      var d1, d2, d3, d4 := Orient(q1, q2, p1), Orient(q1, q2, p2), Orient(p1, p2, q1), Orient(p1, p2, q2);
      CommonPoint(p1, p2, q1, q2);
      if d1 > 0.0 {
        WeightedBelow(d1, -d2, p2.y, p1.y, y);
        WeightedAbove(d4, -d3, q1.y, q2.y, y);
      } else {
        WeightedBelow(-d1, d2, p2.y, p1.y, y);
        WeightedAbove(-d4, d3, q1.y, q2.y, y);
      }
    }
  }
}
