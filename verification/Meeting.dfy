/** What the crossing test of the census says about two segments: where it means
    that they share a point, and which touches it counts. */
module Meeting {
  import opened Geometry

  /** The segments share a point, their ends included. */
  ghost predicate Share(p1: Point, p2: Point, q1: Point, q2: Point) {
    exists s, t :: 0.0 <= s <= 1.0 && 0.0 <= t <= 1.0 && At(p1, p2, s) == At(q1, q2, t)
  }

  /** They share a point that is an end of neither. */
  ghost predicate ShareInside(p1: Point, p2: Point, q1: Point, q2: Point) {
    exists s, t :: 0.0 < s < 1.0 && 0.0 < t < 1.0 && At(p1, p2, s) == At(q1, q2, t)
  }

  lemma Cancel(x: real, y: real, k: real)
    requires k != 0.0 && x * k == y * k
    ensures x == y
  {
    assert (x - y) * k == 0.0;
  }

  /** How far along a segment a line is met, from the sides its ends are on. */
  lemma Fraction(d: real, e: real) returns (s: real)
    requires (d > 0.0) != (e > 0.0)
    ensures d - e != 0.0 && s * (d - e) == d && 0.0 <= s <= 1.0
    ensures d != 0.0 && e != 0.0 ==> 0.0 < s < 1.0
  {
    var k := d - e;
    s := d / k;
    assert s * k == d && (1.0 - s) * k == -e;
    SignOfProduct(d, s, k);
    SignOfProduct(-e, 1.0 - s, k);
  }

  /** Two segments that pass the test meet where their lines do. */
  lemma MeetingPoint(p1: Point, p2: Point, q1: Point, q2: Point) returns (s: real, t: real)
    requires SegmentsCross(p1, p2, q1, q2)
    ensures At(p1, p2, s) == At(q1, q2, t) && 0.0 <= s <= 1.0 && 0.0 <= t <= 1.0
    ensures Orient(q1, q2, p1) != 0.0 && Orient(q1, q2, p2) != 0.0 ==> 0.0 < s < 1.0
    ensures Orient(p1, p2, q1) != 0.0 && Orient(p1, p2, q2) != 0.0 ==> 0.0 < t < 1.0
  {
    var d1, d2, d3, d4 := Orient(q1, q2, p1), Orient(q1, q2, p2), Orient(p1, p2, q1), Orient(p1, p2, q2);
    CommonPoint(p1, p2, q1, q2);
    hide Orient;
    s := Fraction(d1, d2);
    t := Fraction(d3, d4);
    SameCoordinate(p1.x, p2.x, q1.x, q2.x, d1, d2, d3, d4, s, t);
    SameCoordinate(p1.y, p2.y, q1.y, q2.y, d1, d2, d3, d4, s, t);
  }

  lemma SameCoordinate(a: real, b: real, c: real, d: real, d1: real, d2: real, d3: real, d4: real, s: real, t: real)
    requires d1 - d2 != 0.0 && d1 - d2 == d4 - d3 && d1 * b - d2 * a == d4 * c - d3 * d
    requires s * (d1 - d2) == d1 && t * (d3 - d4) == d3
    ensures a + s * (b - a) == c + t * (d - c)
  {
    var k := d1 - d2;
    Mixed(a, b, s, k, d1, d2);
    Mixed(c, d, t, -k, d3, d4);
    var x, y := a + s * (b - a), c + t * (d - c);
    assert y * -k == -(y * k);
    Cancel(x, y, k);
  }

  lemma Mixed(a: real, b: real, s: real, k: real, d: real, e: real)
    requires s * k == d && k == d - e
    ensures (a + s * (b - a)) * k == d * b - e * a
  {
    assert (s * (b - a)) * k == (s * k) * (b - a);
    assert (a + s * (b - a)) * k == a * k + (s * (b - a)) * k;
  }

  /** Whatever the test counts is at least a touch. */
  lemma CrossShares(p1: Point, p2: Point, q1: Point, q2: Point)
    requires SegmentsCross(p1, p2, q1, q2)
    ensures Share(p1, p2, q1, q2)
  {
    hide At, Orient;
    var s, t := MeetingPoint(p1, p2, q1, q2);
  }

  /** A point of a segment is to the sides of a line as its ends are, weighted. */
  lemma OrientMixes(a: Point, b: Point, p: Point, q: Point, t: real)
    ensures Orient(a, b, At(p, q, t)) == Orient(a, b, p) + t * (Orient(a, b, q) - Orient(a, b, p))
  {
    var z := At(p, q, t);
    var ux, uy := b.x - a.x, b.y - a.y;
    assert Orient(a, b, z) - Orient(a, b, p) == ux * (t * (q.y - p.y)) - uy * (t * (q.x - p.x));
    assert Orient(a, b, q) - Orient(a, b, p) == ux * (q.y - p.y) - uy * (q.x - p.x);
    Scaled(ux, uy, q.y - p.y, q.x - p.x, t);
  }

  lemma Scaled(u: real, v: real, a: real, b: real, t: real)
    ensures u * (t * a) - v * (t * b) == t * (u * a - v * b)
  {
  }

  lemma OnItsOwnLine(a: Point, b: Point, t: real)
    ensures Orient(a, b, At(a, b, t)) == 0.0
  {
    OrientMixes(a, b, a, b, t);
  }

  lemma Opposite(d: real, e: real, t: real)
    requires 0.0 < t < 1.0 && d + t * (e - d) == 0.0 && d != 0.0
    ensures (d > 0.0) != (e > 0.0)
  {
    assert (1.0 - t) * d == -(t * e);
    SignOfProduct((1.0 - t) * d, 1.0 - t, d);
    SignOfProduct(t * e, t, e);
  }

  /** Where no end lies on the line of the other segment, the test is exactly the
      promised one: the open segments share a point. */
  lemma CrossIffShareInside(p1: Point, p2: Point, q1: Point, q2: Point)
    requires Orient(q1, q2, p1) != 0.0 && Orient(q1, q2, p2) != 0.0 && Orient(p1, p2, q1) != 0.0 && Orient(p1, p2, q2) != 0.0
    ensures SegmentsCross(p1, p2, q1, q2) <==> ShareInside(p1, p2, q1, q2)
  {
    hide At, Orient;
    var d1, d2, d3, d4 := Orient(q1, q2, p1), Orient(q1, q2, p2), Orient(p1, p2, q1), Orient(p1, p2, q2);
    if SegmentsCross(p1, p2, q1, q2) {
      var s, t := MeetingPoint(p1, p2, q1, q2);
    }
    if s, t :| 0.0 < s < 1.0 && 0.0 < t < 1.0 && At(p1, p2, s) == At(q1, q2, t) {
      OrientMixes(q1, q2, p1, p2, s);
      OnItsOwnLine(q1, q2, t);
      OrientMixes(p1, p2, q1, q2, t);
      OnItsOwnLine(p1, p2, s);
      Opposite(d1, d2, s);
      Opposite(d3, d4, t);
    }
  }

  // ---- exactly what is counted

  /** An end on the line of the other segment leans the right way: the other end
      of its own segment is to the left of that line. */
  predicate Leans(d: real, e: real) { (d == 0.0 ==> e > 0.0) && (e == 0.0 ==> d > 0.0) }

  lemma SignsOfMix(d: real, e: real, t: real)
    requires 0.0 <= t <= 1.0 && d + t * (e - d) == 0.0
    ensures d > 0.0 ==> e <= 0.0
    ensures d < 0.0 ==> e >= 0.0
  {
    assert (1.0 - t) * d == -(t * e);
    SignOfProduct((1.0 - t) * d, 1.0 - t, d);
    SignOfProduct(t * e, t, e);
  }

  /** The whole of what the test counts: segments that are not parallel, share a
      point, and have no end on the line of the other except one that leans the
      right way. */
  lemma CrossIff(p1: Point, p2: Point, q1: Point, q2: Point)
    ensures var d1, d2, d3, d4 := Orient(q1, q2, p1), Orient(q1, q2, p2), Orient(p1, p2, q1), Orient(p1, p2, q2);
            SegmentsCross(p1, p2, q1, q2) <==> d1 != d2 && Share(p1, p2, q1, q2) && Leans(d1, d2) && Leans(d3, d4)
  {
    var d1, d2, d3, d4 := Orient(q1, q2, p1), Orient(q1, q2, p2), Orient(p1, p2, q1), Orient(p1, p2, q2);
    CommonPoint(p1, p2, q1, q2);
    hide Orient, At;
    if SegmentsCross(p1, p2, q1, q2) { CrossShares(p1, p2, q1, q2); }
    if s, t :| 0.0 <= s <= 1.0 && 0.0 <= t <= 1.0 && At(p1, p2, s) == At(q1, q2, t) {
      OrientMixes(q1, q2, p1, p2, s);
      OnItsOwnLine(q1, q2, t);
      OrientMixes(p1, p2, q1, q2, t);
      OnItsOwnLine(p1, p2, s);
      SignsOfMix(d1, d2, s);
      SignsOfMix(d3, d4, t);
    }
  }

  predicate Within(a: real, b: real, z: real) { a == b == z || Lo(a, b) < z < Hi(a, b) }

  /** The open stretches from a to b and from c to d have a number in common; a
      stretch without length is its one number. */
  predicate Overlap(a: real, b: real, c: real, d: real) {
    if a == b && c == d then a == c else Lo(a, b) < Hi(c, d) && Lo(c, d) < Hi(a, b)
  }

  predicate OverlapBoth(p1: Point, p2: Point, q1: Point, q2: Point) {
    Overlap(p1.x, p2.x, q1.x, q2.x) && Overlap(p1.y, p2.y, q1.y, q2.y)
  }

  predicate Collinear(p1: Point, p2: Point, q1: Point, q2: Point) {
    Orient(q1, q2, p1) == Orient(q1, q2, p2) == Orient(p1, p2, q1) == Orient(p1, p2, q2) == 0.0
  }

  lemma InsideStretch(a: real, b: real, t: real, z: real)
    requires 0.0 < t < 1.0 && z == a + t * (b - a)
    ensures Within(a, b, z)
  {
    var u, v := t * (b - a), (1.0 - t) * (b - a);
    SignOfProduct(u, t, b - a);
    SignOfProduct(v, 1.0 - t, b - a);
    assert z == a + u && b == z + v;
  }

  /** The number between that is as far along. */
  lemma Along(a: real, b: real, z: real) returns (t: real)
    requires a != b && Lo(a, b) < z < Hi(a, b)
    ensures 0.0 < t < 1.0 && a + t * (b - a) == z
  {
    var k := b - a;
    t := (z - a) / k;
    assert t * k == z - a && (1.0 - t) * k == b - z;
    SignOfProduct(z - a, t, k);
    SignOfProduct(b - z, 1.0 - t, k);
  }

  /** Numbers the two stretches have in common. */
  lemma CommonNumber(a: real, b: real, c: real, d: real) returns (z: real)
    requires Overlap(a, b, c, d)
    ensures Within(a, b, z) && Within(c, d, z)
  {
    var lo := if Lo(a, b) > Lo(c, d) then Lo(a, b) else Lo(c, d);
    var hi := if Hi(a, b) < Hi(c, d) then Hi(a, b) else Hi(c, d);
    z := (lo + hi) / 2.0;
  }

  lemma WithinBoth(a: real, b: real, c: real, d: real, z: real)
    requires Within(a, b, z) && Within(c, d, z)
    ensures Overlap(a, b, c, d)
  {
  }

  /** On a line that is not upright, x decides. */
  lemma SameOnLine(a: Point, b: Point, p: Point, q: Point)
    requires Orient(a, b, p) == 0.0 && Orient(a, b, q) == 0.0 && p.x == q.x && a.x != b.x
    ensures p == q
  {
    var k := b.x - a.x;
    assert k * (p.y - a.y) == (b.y - a.y) * (p.x - a.x) == (b.y - a.y) * (q.x - a.x) == k * (q.y - a.y);
    assert k * (p.y - q.y) == k * (p.y - a.y) - k * (q.y - a.y);
    SignOfProduct(k * (p.y - q.y), k, p.y - q.y);
  }

  lemma PartWay(a: real, b: real, z: real) returns (t: real)
    requires Within(a, b, z)
    ensures 0.0 < t < 1.0 && a + t * (b - a) == z
  {
    if a == b { t := 0.5; } else { t := Along(a, b, z); }
  }

  lemma OverlapShares(p1: Point, p2: Point, q1: Point, q2: Point)
    requires Collinear(p1, p2, q1, q2) && (p1.x != p2.x || q1.x != q2.x) && Overlap(p1.x, p2.x, q1.x, q2.x)
    ensures ShareInside(p1, p2, q1, q2)
  {
    hide Orient;
    var z := CommonNumber(p1.x, p2.x, q1.x, q2.x);
    var s := PartWay(p1.x, p2.x, z);
    var t := PartWay(q1.x, q2.x, z);
    var p, q := At(p1, p2, s), At(q1, q2, t);
    OrientMixes(q1, q2, p1, p2, s); OnItsOwnLine(q1, q2, t);
    OrientMixes(p1, p2, q1, q2, t); OnItsOwnLine(p1, p2, s);
    if q1.x != q2.x { SameOnLine(q1, q2, p, q); } else { SameOnLine(p1, p2, p, q); }
  }

  function Flip(p: Point): Point { Point(p.y, p.x) }

  lemma FlipOrients(a: Point, b: Point, c: Point)
    ensures Orient(Flip(a), Flip(b), Flip(c)) == -Orient(a, b, c)
  {
  }

  lemma FlipAt(p: Point, q: Point, t: real)
    ensures At(Flip(p), Flip(q), t) == Flip(At(p, q, t))
  {
  }

  lemma FlipShares(p1: Point, p2: Point, q1: Point, q2: Point)
    requires ShareInside(Flip(p1), Flip(p2), Flip(q1), Flip(q2))
    ensures ShareInside(p1, p2, q1, q2)
  {
    hide At;
    var s, t :| 0.0 < s < 1.0 && 0.0 < t < 1.0 && At(Flip(p1), Flip(p2), s) == At(Flip(q1), Flip(q2), t);
    FlipAt(p1, p2, s);
    FlipAt(q1, q2, t);
  }

  lemma AtInside(p: Point, q: Point, t: real)
    requires 0.0 < t < 1.0
    ensures Within(p.x, q.x, At(p, q, t).x) && Within(p.y, q.y, At(p, q, t).y)
  {
    hide Within;
    var z := At(p, q, t);
    InsideStretch(p.x, q.x, t, z.x);
    InsideStretch(p.y, q.y, t, z.y);
  }

  lemma SharedOverlaps(p1: Point, p2: Point, q1: Point, q2: Point)
    requires ShareInside(p1, p2, q1, q2)
    ensures OverlapBoth(p1, p2, q1, q2)
  {
    hide At, Overlap, Within;
    var s, t :| 0.0 < s < 1.0 && 0.0 < t < 1.0 && At(p1, p2, s) == At(q1, q2, t);
    var z := At(p1, p2, s);
    AtInside(p1, p2, s);
    AtInside(q1, q2, t);
    WithinBoth(p1.x, p2.x, q1.x, q2.x, z.x);
    WithinBoth(p1.y, p2.y, q1.y, q2.y, z.y);
  }

  lemma SamePoint(p: Point)
    ensures ShareInside(p, p, p, p)
  {
    assert At(p, p, 0.5) == p;
  }

  /** On one line, the open segments share a point exactly when they overlap. */
  lemma CollinearShareIff(p1: Point, p2: Point, q1: Point, q2: Point)
    requires Collinear(p1, p2, q1, q2)
    ensures ShareInside(p1, p2, q1, q2) <==> OverlapBoth(p1, p2, q1, q2)
  {
    hide Orient, ShareInside;
    if ShareInside(p1, p2, q1, q2) { SharedOverlaps(p1, p2, q1, q2); }
    if OverlapBoth(p1, p2, q1, q2) {
      if p1.x != p2.x || q1.x != q2.x {
        OverlapShares(p1, p2, q1, q2);
      } else if p1.y != p2.y || q1.y != q2.y {
        FlipOrients(q1, q2, p1); FlipOrients(q1, q2, p2); FlipOrients(p1, p2, q1); FlipOrients(p1, p2, q2);
        OverlapShares(Flip(p1), Flip(p2), Flip(q1), Flip(q2));
        FlipShares(p1, p2, q1, q2);
      } else {
        SamePoint(p1);
      }
    }
  }

  /** Some end of one segment lies on the line of the other. */
  predicate EndOnLine(p1: Point, p2: Point, q1: Point, q2: Point) {
    Orient(q1, q2, p1) == 0.0 || Orient(q1, q2, p2) == 0.0 || Orient(p1, p2, q1) == 0.0 || Orient(p1, p2, q2) == 0.0
  }

  lemma NoneInside(d: real, e: real, t: real)
    requires d != e && (d == 0.0 || e == 0.0) && 0.0 < t < 1.0
    ensures d + t * (e - d) != 0.0
  {
    if d == 0.0 { SignOfProduct(t * e, t, e); }
    else { assert d + t * (0.0 - d) == (1.0 - t) * d; SignOfProduct((1.0 - t) * d, 1.0 - t, d); }
  }

  lemma EndOnLineSharesNothing(p1: Point, p2: Point, q1: Point, q2: Point)
    requires Orient(q1, q2, p1) != Orient(q1, q2, p2) && EndOnLine(p1, p2, q1, q2)
    ensures !ShareInside(p1, p2, q1, q2)
  {
    CommonPoint(p1, p2, q1, q2);
    hide Orient, At;
    if s, t :| 0.0 < s < 1.0 && 0.0 < t < 1.0 && At(p1, p2, s) == At(q1, q2, t) {
      OrientMixes(q1, q2, p1, p2, s); OnItsOwnLine(q1, q2, t);
      OrientMixes(p1, p2, q1, q2, t); OnItsOwnLine(p1, p2, s);
      var d1, d2, d3, d4 := Orient(q1, q2, p1), Orient(q1, q2, p2), Orient(p1, p2, q1), Orient(p1, p2, q2);
      if d1 == 0.0 || d2 == 0.0 { NoneInside(d1, d2, s); } else { NoneInside(d3, d4, t); }
    }
  }

  /** Parallel segments that share an inside point lie on one line. */
  lemma ParallelShareCollinear(p1: Point, p2: Point, q1: Point, q2: Point)
    requires Orient(q1, q2, p1) == Orient(q1, q2, p2) && ShareInside(p1, p2, q1, q2)
    ensures Collinear(p1, p2, q1, q2)
  {
    CommonPoint(p1, p2, q1, q2);
    hide Orient, At;
    var s, t :| 0.0 < s < 1.0 && 0.0 < t < 1.0 && At(p1, p2, s) == At(q1, q2, t);
    OrientMixes(q1, q2, p1, p2, s); OnItsOwnLine(q1, q2, t);
    OrientMixes(p1, p2, q1, q2, t); OnItsOwnLine(p1, p2, s);
  }

  /** The promise -- counted exactly when the open segments share a point -- is
      kept by a pair exactly when it is neither a counted touch nor two segments
      overlapping on one line, which are never counted. */
  lemma PromiseKeptIff(p1: Point, p2: Point, q1: Point, q2: Point)
    ensures var d1, d2, d3, d4 := Orient(q1, q2, p1), Orient(q1, q2, p2), Orient(p1, p2, q1), Orient(p1, p2, q2);
            (SegmentsCross(p1, p2, q1, q2) <==> ShareInside(p1, p2, q1, q2)) <==>
            if d1 != d2 then !(EndOnLine(p1, p2, q1, q2) && Share(p1, p2, q1, q2) && Leans(d1, d2) && Leans(d3, d4))
            else !(Collinear(p1, p2, q1, q2) && OverlapBoth(p1, p2, q1, q2))
  {
    hide Orient, ShareInside, Share, OverlapBoth;
    CrossIff(p1, p2, q1, q2);
    if Orient(q1, q2, p1) != Orient(q1, q2, p2) {
      if EndOnLine(p1, p2, q1, q2) { EndOnLineSharesNothing(p1, p2, q1, q2); } else { CrossIffShareInside(p1, p2, q1, q2); }
    } else {
      if ShareInside(p1, p2, q1, q2) { ParallelShareCollinear(p1, p2, q1, q2); }
      if Collinear(p1, p2, q1, q2) { CollinearShareIff(p1, p2, q1, q2); }
    }
  }

  /** Two segments touching at height y, one on either side of it, are counted
      exactly when one ends where the other starts and the way on turns left. */
  lemma Touching(p1: Point, p2: Point, q1: Point, q2: Point, y: real)
    requires p1.y <= y && p2.y <= y && q1.y >= y && q2.y >= y && p1.y != p2.y && q1.y != q2.y
    ensures SegmentsCross(p1, p2, q1, q2) <==>
            || (p2 == q1 && Orient(p1, p2, q2) > 0.0)
            || (p1 == q2 && Orient(q1, q2, p2) > 0.0)
  {
    var d1, d2, d3, d4 := Orient(q1, q2, p1), Orient(q1, q2, p2), Orient(p1, p2, q1), Orient(p1, p2, q2);
    CommonPoint(p1, p2, q1, q2);
    if SegmentsCross(p1, p2, q1, q2) {
      if d1 > 0.0 {
        TouchAt(d1, -d2, p2.y, p1.y, d4, -d3, q1.y, q2.y, y);
        SamePlace(q1, q2, p2);
        assert p2 == q1;
      } else {
        TouchAt(d2, -d1, p1.y, p2.y, d3, -d4, q2.y, q1.y, y);
        SamePlace(q2, q1, p1);
        Turned(q1, q2, p1);
        assert p1 == q2;
      }
    }
    if p2 == q1 { HeadToTail(p1, p2, q2); }
    if p1 == q2 { HeadToTail(q1, q2, p2); }
  }

  lemma Turned(a: Point, b: Point, c: Point)
    ensures Orient(b, a, c) == -Orient(a, b, c)
  {
  }

  /** One point reached with weights from below y and from above it is at y, and
      nothing away from y weighs anything. */
  lemma TouchAt(u: real, v: real, a: real, b: real, s: real, t: real, c: real, d: real, y: real)
    requires u > 0.0 && v >= 0.0 && t >= 0.0 && u + v == s + t && a <= y && b <= y && c >= y && d >= y && a != b && c != d
    requires u * a + v * b == s * c + t * d && (s > 0.0) != (-t > 0.0)
    ensures a == y && c == y && v == 0.0 && t == 0.0
  {
    var k := u + v;
    assert u * (y - a) == u * y - u * a && v * (y - b) == v * y - v * b && u * y + v * y == k * y;
    assert s * (c - y) == s * c - s * y && t * (d - y) == t * d - t * y && s * y + t * y == k * y;
    SignOfProduct(u * (y - a), u, y - a);
    SignOfProduct(v * (y - b), v, y - b);
    SignOfProduct(s * (c - y), s, c - y);
    SignOfProduct(t * (d - y), t, d - y);
  }

  /** On a line that is not level, a height is met in one place. */
  lemma SamePlace(a: Point, b: Point, c: Point)
    requires Orient(a, b, c) == 0.0 && c.y == a.y && a.y != b.y
    ensures c == a
  {
    var h, x := b.y - a.y, c.x - a.x;
    assert (b.x - a.x) * (c.y - a.y) == 0.0;
    SignOfProduct(h * x, h, x);
  }

  /** Where one segment ends and the other starts, a turn to the left is counted
      as a crossing, and nothing else is. */
  lemma HeadToTail(a: Point, s: Point, b: Point)
    ensures SegmentsCross(a, s, s, b) <==> Orient(a, s, b) > 0.0
    ensures SegmentsCross(s, b, a, s) <==> Orient(a, s, b) > 0.0
  {
  }

  /** Counted there, the two have nothing but that end in common. */
  lemma HeadToTailTouches(a: Point, s: Point, b: Point)
    requires Orient(a, s, b) > 0.0
    ensures !ShareInside(a, s, s, b) && !ShareInside(s, b, a, s)
  {
    assert Orient(s, b, a) == Orient(a, s, b) && Orient(s, b, s) == 0.0 && Orient(a, s, s) == 0.0;
    EndOnLineSharesNothing(a, s, s, b);
    EndOnLineSharesNothing(s, b, a, s);
  }

  /** Two segments that start together or end together are never counted. */
  lemma CommonEnd(a: Point, b: Point, s: Point)
    ensures !SegmentsCross(a, s, b, s) && !SegmentsCross(s, a, s, b)
  {
  }

  /** So touching at an end can be a crossing, and drawing a segment the other
      way round can change the answer. */
  lemma SomeTouchesCount()
    ensures SegmentsCross(Point(0.0, 0.0), Point(1.0, 0.0), Point(1.0, 0.0), Point(1.0, 1.0))
    ensures !SegmentsCross(Point(1.0, 0.0), Point(0.0, 0.0), Point(1.0, 0.0), Point(1.0, 1.0))
  {
  }
}
