/** The lowest address of a prefix that nothing has taken, found by walking the
    exclusions rather than the addresses. */
module FreeAddress {
  import opened Basics
  import opened Sorting
  import opened Addresses

  /** A closed interval of addresses. */
  datatype Span = Span(start: Bytes, end: Bytes)

  datatype PrefixValue = PrefixValue(family: int, bits: nat, start: Bytes, end: Bytes)
  {
    ghost predicate Valid() {
      && (family == 4 || family == 6) && |start| == (if family == 4 then 4 else 16)
      && Masked(start, bits) && HostBitsSet(start, bits, end)
    }

    /** Bounds of what can be handed out: IPv4 spends its first and last address
        except on a /31 (section 2.1 of RFC 3021) and a /32. */
    function Low(): nat { if family == 4 && bits <= 30 then Num(start) + 1 else Num(start) }
    function High(): int { if family == 4 && bits <= 30 then Num(end) - 1 else Num(end) }
  }

  function Width(family: int): nat { if family == 6 then 16 else 4 }

  /** The stored form of a masked network address. */
  method NewPrefixValue(family: int, start: Bytes, bits: nat) returns (p: PrefixValue)
    requires (family == 4 || family == 6) && |start| == (if family == 4 then 4 else 16) && Masked(start, bits)
    ensures p.Valid() && p.family == family && p.start == start && p.bits == bits
    ensures Num(p.end) - Num(p.start) + 1 == Pow2(8 * |start| - bits)
  {
    var end := Broadcast(start, bits);
    PrefixBounds(start, bits, end);
    p := PrefixValue(family, bits, start, end);
  }

  /** Every prefix, however wide, has an address to hand out before any is taken. */
  lemma SomethingToOffer(p: PrefixValue)
    requires p.Valid()
    ensures p.family == 4 && p.bits <= 30 ==> Num(p.start) + 1 < Num(p.end)
    ensures Num(p.start) <= Num(p.end) < Pow2(8 * |p.start|)
  {
    PrefixBounds(p.start, p.bits, p.end);
    NumBound(p.end);
    if p.family == 4 && p.bits <= 30 {
      Pow2Adds(30 - p.bits, 2);
      assert Pow2(2) == 4 && 8 * |p.start| - p.bits == (30 - p.bits) + 2;
    }
  }

  /** Some span of the prefix's own width covers x. */
  ghost predicate Covered(taken: seq<Span>, width: nat, x: nat) {
    exists i :: 0 <= i < |taken| && Covers(taken[i], width, x)
  }

  ghost predicate Covers(s: Span, width: nat, x: nat) {
    |s.start| == width && |s.end| == width && Num(s.start) <= x <= Num(s.end)
  }

  function ByStart(): (Span, Span) -> bool { (a: Span, b: Span) => Compare(a.start, b.start) < 0 }

  lemma ByStartIsOrder()
    ensures IsOrder(ByStart())
  {
    forall a: Span, b: Span ensures ByStart()(a, b) ==> !ByStart()(b, a) { CompareIsOrder(a.start, b.start, a.start); }
    forall a: Span, b: Span, c: Span | !ByStart()(a, b) && !ByStart()(b, c) ensures !ByStart()(a, c) {
      CompareIsOrder(c.start, b.start, a.start);
      CompareIsOrder(b.start, a.start, c.start);
      CompareIsOrder(a.start, c.start, b.start);
    }
  }

  function ByteOf(x: nat): (b: bv8)
    requires x < 256
    ensures Val(b) == x
  {
    hide Val;
    LastByte();
    if x == 0 then 0
    else
      var b := ByteOf(x - 1);
      ValIsOrder(b, 255);
      NextByte(b);
      b + 1
  }

  lemma LastByte()
    ensures Val(255) == 255 && Val(0) == 0
  {
  }

  /** The fixed-width big-endian form of a number. */
  function ToBytes(v: nat, width: nat): (r: Bytes)
    requires v < Pow2(8 * width)
    ensures |r| == width && Num(r) == v
  {
    if width == 0 then []
    else
      Pow2Adds(8 * (width - 1), 8);
      assert Pow2(8) == 256;
      var init := ToBytes(v / 256, width - 1);
      var r := init + [ByteOf(v % 256)];
      assert r[..width - 1] == init;
      r
  }

  lemma NextByte(b: bv8)
    requires b < 255
    ensures Val(b + 1) == Val(b) + 1
  {
  }

  /** The lowest address nothing covers: strictly inside an IPv4 prefix of up to
      30 bits, whose first and last address cannot be configured, and anywhere in
      every other prefix. */
  method FirstFreeAddress(p: PrefixValue, taken: seq<Span>) returns (r: Option<Bytes>)
    requires p.Valid()
    ensures r.Some? ==> |r.value| == |p.start| && !Covered(taken, |p.start|, Num(r.value))
    ensures p.family == 4 && p.bits <= 30 ==>
      && (r.None? <==> forall x: nat :: Num(p.start) < x < Num(p.end) ==> Covered(taken, |p.start|, x))
      && (r.Some? ==>
            && Num(p.start) < Num(r.value) < Num(p.end)
            && forall x: nat :: Num(p.start) < x < Num(r.value) ==> Covered(taken, |p.start|, x))
    ensures p.family == 6 || p.bits >= 31 ==>
      && (r.None? <==> forall x: nat :: Num(p.start) <= x <= Num(p.end) ==> Covered(taken, |p.start|, x))
      && (r.Some? ==>
            && Num(p.start) <= Num(r.value) <= Num(p.end)
            && forall x: nat :: Num(p.start) <= x < Num(r.value) ==> Covered(taken, |p.start|, x))
  {
    hide Num, Compare, Pow2, Covered, Masked, HostBitsSet, ToBytes, SortBy, Width;
    SomethingToOffer(p);
    var width := |p.start|;
    var lo, hi := p.Low(), p.High();
    ByStartIsOrder();
    var spans := SortBy(ByStart(), taken);
    SameCover(taken, spans, width);
    var candidate := lo;
    var i := 0;
    while i < |spans|
      invariant i <= |spans| && lo <= candidate
      invariant forall x: nat :: lo <= x < candidate ==> Covered(spans, width, x)
      invariant forall k :: 0 <= k < i && |spans[k].start| == width && |spans[k].end| == width ==> Num(spans[k].end) < candidate
    {
      var s := spans[i];
      if |s.start| == width && |s.end| == width && Num(s.end) >= candidate {
        if Num(s.start) > candidate {
          GapOpens(spans, width, i, candidate);
          break;
        }
        SpanCovers(spans, width, i);
        candidate := Num(s.end) + 1;
      }
      i := i + 1;
    }
    if candidate > hi {
      return None;
    }
    if i == |spans| { AllBelow(spans, width, candidate); }
    r := Some(ToBytes(candidate, width));
  }

  /** Sorting changes nothing about what is covered. */
  lemma SameCover(taken: seq<Span>, spans: seq<Span>, width: nat)
    requires multiset(taken) == multiset(spans)
    ensures forall x: nat :: Covered(taken, width, x) <==> Covered(spans, width, x)
  {
    hide Covers;
    Rearranged(taken, spans);
    forall x: nat ensures Covered(taken, width, x) <==> Covered(spans, width, x) {
      if Covered(taken, width, x) {
        var k :| 0 <= k < |taken| && Covers(taken[k], width, x);
        assert taken[k] in spans;
      }
      if Covered(spans, width, x) {
        var k :| 0 <= k < |spans| && Covers(spans[k], width, x);
        assert spans[k] in taken;
      }
    }
  }

  lemma SpanCovers(spans: seq<Span>, width: nat, i: nat)
    requires i < |spans| && |spans[i].start| == width && |spans[i].end| == width
    ensures forall x: nat :: Num(spans[i].start) <= x <= Num(spans[i].end) ==> Covered(spans, width, x)
  {
    hide Num;
    forall x: nat | Num(spans[i].start) <= x <= Num(spans[i].end) ensures Covered(spans, width, x) {
      assert Covers(spans[i], width, x);
    }
  }

  lemma AllBelow(spans: seq<Span>, width: nat, candidate: nat)
    requires forall k :: 0 <= k < |spans| && |spans[k].start| == width && |spans[k].end| == width ==> Num(spans[k].end) < candidate
    ensures !Covered(spans, width, candidate)
  {
    hide Num;
  }

  /** When the next span of this width starts past the candidate, none covers it. */
  lemma GapOpens(spans: seq<Span>, width: nat, i: nat, candidate: nat)
    requires Sorted(ByStart(), spans) && i < |spans| && |spans[i].start| == width && Num(spans[i].start) > candidate
    requires forall k :: 0 <= k < i && |spans[k].start| == width && |spans[k].end| == width ==> Num(spans[k].end) < candidate
    ensures !Covered(spans, width, candidate)
  {
    hide Num, Compare;
    forall k | 0 <= k < |spans| ensures !Covers(spans[k], width, candidate) {
      if k > i && |spans[k].start| == width { CompareIsNumeric(spans[k].start, spans[i].start); }
    }
  }
}
