/** Addresses as big-endian byte strings, the numbers they stand for, and the
    bounds of a prefix. */
module Addresses {

  type Bytes = seq<bv8>

  function Pow2(n: nat): (p: nat)
    ensures p > 0
  {
    if n == 0 then 1 else 2 * Pow2(n - 1)
  }

  lemma {:induction false} Pow2Adds(a: nat, b: nat)
    ensures Pow2(a + b) == Pow2(a) * Pow2(b)
  {
    if b > 0 { Pow2Adds(a, b - 1); }
  }

  function Val(b: bv8): (v: nat)
    ensures v < 256
  {
    b as int
  }

  lemma ValIsOrder(b: bv8, c: bv8)
    ensures b < c <==> Val(b) < Val(c)
    ensures b == c <==> Val(b) == Val(c)
  {
  }

  /** The number a big-endian byte string stands for. */
  function Num(a: Bytes): nat {
    if a == [] then 0 else 256 * Num(a[..|a| - 1]) + Val(a[|a| - 1])
  }

  // ---- byte order is numeric order

  /** Bytewise comparison: negative, zero or positive; a proper prefix comes first. */
  function Compare(a: Bytes, b: Bytes): int {
    if a == [] then (if b == [] then 0 else -1)
    else if b == [] then 1
    else if a[0] < b[0] then -1
    else if a[0] > b[0] then 1
    else Compare(a[1..], b[1..])
  }

  lemma {:induction false} NumOfCons(a: Bytes)
    requires a != []
    ensures Num(a) == Val(a[0]) * Pow2(8 * (|a| - 1)) + Num(a[1..])
  {
    hide Val;
    var n := |a|;
    if n == 1 {
      assert a[..0] == [] && Num(a[1..]) == 0;
    } else {
      var init := a[..n - 1];
      NumOfCons(init);
      assert init[1..] == a[1..][..n - 2];
      Pow2Adds(8 * (n - 2), 8);
      assert Pow2(8) == 256;
      Regroup(Val(a[0]), Pow2(8 * (n - 2)));
    }
  }

  lemma Regroup(x: nat, p: nat)
    ensures 256 * (x * p) == x * (p * 256)
  {
  }

  lemma {:induction false} NumBound(a: Bytes)
    ensures Num(a) < Pow2(8 * |a|)
  {
    hide Val;
    if a != [] {
      NumBound(a[..|a| - 1]);
      Pow2Adds(8 * (|a| - 1), 8);
      assert Pow2(8) == 256;
    }
  }

  /** At equal width, byte-lexicographic order is numeric order. */
  lemma {:induction false} CompareIsNumeric(a: Bytes, b: Bytes)
    requires |a| == |b|
    ensures Compare(a, b) < 0 <==> Num(a) < Num(b)
    ensures Compare(a, b) == 0 <==> Num(a) == Num(b)
    ensures Num(a) == Num(b) ==> a == b
  {
    hide Val, Num, Pow2;
    if a == [] {
      assert a == b;
    } else {
      var p := Pow2(8 * (|a| - 1));
      NumOfCons(a);
      NumOfCons(b);
      NumBound(a[1..]);
      NumBound(b[1..]);
      CompareIsNumeric(a[1..], b[1..]);
      ValIsOrder(a[0], b[0]);
      ValIsOrder(b[0], a[0]);
      if a[0] < b[0] { LeadingByte(Val(a[0]), Val(b[0]), p, Num(a[1..]), Num(b[1..])); }
      else if b[0] < a[0] { LeadingByte(Val(b[0]), Val(a[0]), p, Num(b[1..]), Num(a[1..])); }
      else { assert a == [a[0]] + a[1..] && b == [a[0]] + b[1..]; }
    }
  }

  lemma LeadingByte(x: nat, y: nat, p: nat, r: nat, s: nat)
    requires x < y && r < p
    ensures x * p + r < y * p + s
  {
    assert (x + 1) * p <= y * p;
  }

  /** Compare is a total order on byte strings of any lengths. */
  lemma {:induction false} CompareIsOrder(a: Bytes, b: Bytes, c: Bytes)
    ensures Compare(a, b) == -Compare(b, a)
    ensures Compare(a, b) == 0 <==> a == b
    ensures Compare(a, b) <= 0 && Compare(b, c) <= 0 ==> Compare(a, c) <= 0
  {
    if a == [] || b == [] || c == [] {
      if a != [] && b != [] { CompareIsOrder(a[1..], b[1..], []); assert a == [a[0]] + a[1..] && b == [b[0]] + b[1..]; }
    } else {
      CompareIsOrder(a[1..], b[1..], c[1..]);
      assert a == [a[0]] + a[1..] && b == [b[0]] + b[1..];
    }
  }

  // ---- bits

  predicate Bit(b: bv8, j: nat)
    requires j < 8
  {
    (b >> j) & 1 == 1
  }

  /** Bit i of an address, the most significant first. */
  predicate AddrBit(a: Bytes, i: nat)
    requires i < 8 * |a|
  {
    Bit(a[i / 8], 7 - i % 8)
  }

  /** The number the first k bits of an address stand for. */
  ghost function BitNum(a: Bytes, k: nat): nat
    requires k <= 8 * |a|
  {
    if k == 0 then 0 else 2 * BitNum(a, k - 1) + if AddrBit(a, k - 1) then 1 else 0
  }

  function Weight(b: bv8, j: nat, n: nat): nat
    requires j < 8
  {
    if Bit(b, j) then n else 0
  }

  lemma ByteIsItsBits(b: bv8)
    ensures Val(b) == Weight(b, 7, 128) + Weight(b, 6, 64) + Weight(b, 5, 32) + Weight(b, 4, 16)
                        + Weight(b, 3, 8) + Weight(b, 2, 4) + Weight(b, 1, 2) + Weight(b, 0, 1)
  {
  }

  lemma BitNumByte(a: Bytes, m: nat)
    requires m < |a|
    ensures BitNum(a, 8 * m + 8) == 256 * BitNum(a, 8 * m) + Val(a[m])
  {
    hide Val, Bit, BitNum;
    ByteIsItsBits(a[m]);
    BitNumNibble(a, m, 0);
    BitNumNibble(a, m, 4);
  }

  lemma BitNumNibble(a: Bytes, m: nat, o: nat)
    requires m < |a| && (o == 0 || o == 4)
    ensures BitNum(a, 8 * m + o + 4) == 16 * BitNum(a, 8 * m + o)
              + Weight(a[m], 7 - o, 8) + Weight(a[m], 6 - o, 4) + Weight(a[m], 5 - o, 2) + Weight(a[m], 4 - o, 1)
  {
    hide Bit;
    var k := 8 * m + o;
    assert (k + 1) / 8 == m && (k + 2) / 8 == m && (k + 3) / 8 == m && k / 8 == m;
    assert AddrBit(a, k) == Bit(a[m], 7 - o) && AddrBit(a, k + 1) == Bit(a[m], 6 - o);
    assert AddrBit(a, k + 2) == Bit(a[m], 5 - o) && AddrBit(a, k + 3) == Bit(a[m], 4 - o);
    assert BitNum(a, k + 2) == 2 * BitNum(a, k + 1) + if AddrBit(a, k + 1) then 1 else 0;
    assert BitNum(a, k + 4) == 2 * BitNum(a, k + 3) + if AddrBit(a, k + 3) then 1 else 0;
  }

  /** The bits of an address and its bytes stand for the same number. */
  lemma {:induction false} BitNumIsNum(a: Bytes, m: nat)
    requires m <= |a|
    ensures BitNum(a, 8 * m) == Num(a[..m])
  {
    if m > 0 {
      BitNumIsNum(a, m - 1);
      BitNumByte(a, m - 1);
      assert a[..m][..m - 1] == a[..m - 1];
    }
  }

  // ---- prefixes

  /** No host bit is set: section 3.1 of RFC 4632's network address. */
  ghost predicate Masked(start: Bytes, bits: nat)
  {
    bits <= 8 * |start| && forall i :: bits <= i < 8 * |start| ==> !AddrBit(start, i)
  }

  /** end is start with every host bit set. */
  ghost predicate HostBitsSet(start: Bytes, bits: nat, end: Bytes) {
    && |end| == |start| && bits <= 8 * |start|
    && forall i :: 0 <= i < 8 * |start| ==> AddrBit(end, i) == (i >= bits || AddrBit(start, i))
  }

  /** now is start with the host bits before bit i set. */
  ghost predicate SetUpTo(start: Bytes, bits: nat, now: Bytes, i: nat) {
    && |now| == |start| && bits <= i <= 8 * |start|
    && forall k :: 0 <= k < 8 * |start| ==> AddrBit(now, k) == (bits <= k < i || AddrBit(start, k))
  }

  function WithBit(a: Bytes, i: nat): Bytes
    requires i < 8 * |a|
  {
    a[i / 8 := a[i / 8] | ((1 as bv8) << (7 - i % 8))]
  }

  lemma SetNext(start: Bytes, bits: nat, now: Bytes, i: nat)
    requires SetUpTo(start, bits, now, i) && i < 8 * |start|
    ensures SetUpTo(start, bits, WithBit(now, i), i + 1)
  {
    hide AddrBit;
    BitSet(now, i);
  }

  lemma SetAll(start: Bytes, bits: nat, end: Bytes)
    requires bits <= 8 * |start|
    ensures SetUpTo(start, bits, start, bits)
    ensures SetUpTo(start, bits, end, 8 * |start|) ==> HostBitsSet(start, bits, end)
  {
    hide AddrBit;
  }

  /** The highest address of a prefix, by setting one host bit at a time. */
  method Broadcast(start: Bytes, bits: nat) returns (end: Bytes)
    requires bits <= 8 * |start|
    ensures HostBitsSet(start, bits, end)
  {
    hide SetUpTo, HostBitsSet;
    var buf := new bv8[|start|](i requires 0 <= i < |start| => start[i]);
    assert buf[..] == start;
    SetAll(start, bits, start);
    var i := bits;
    while i < |start| * 8
      invariant bits <= i <= 8 * |start| && SetUpTo(start, bits, buf[..], i)
    {
      ghost var before := buf[..];
      SetNext(start, bits, before, i);
      buf[i / 8] := buf[i / 8] | ((1 as bv8) << (7 - i % 8));
      assert buf[..] == WithBit(before, i);
      i := i + 1;
    }
    end := buf[..];
    SetAll(start, bits, end);
  }

  lemma SetOneBit(b: bv8, j: nat, k: nat)
    requires j < 8 && k < 8
    ensures Bit(b | ((1 as bv8) << j), k) == (k == j || Bit(b, k))
  {
  }

  lemma BitSet(a: Bytes, i: nat)
    requires i < 8 * |a|
    ensures |WithBit(a, i)| == |a|
    ensures var a' := WithBit(a, i);
            forall k :: 0 <= k < 8 * |a| ==> AddrBit(a', k) == (k == i || AddrBit(a, k))
  {
    hide Bit;
    forall k: nat | k < 8 * |a|
      ensures AddrBit(WithBit(a, i), k) == (k == i || AddrBit(a, k))
    {
      SetOneBit(a[i / 8], 7 - i % 8, 7 - k % 8);
    }
  }

  /** Past the network bits a masked address only doubles, and its broadcast
      doubles and adds one. */
  lemma {:induction false} HostPart(start: Bytes, bits: nat, end: Bytes, k: nat)
    requires Masked(start, bits) && HostBitsSet(start, bits, end) && bits <= k <= 8 * |start|
    ensures BitNum(start, k) == BitNum(start, bits) * Pow2(k - bits)
    ensures BitNum(end, k) == BitNum(start, k) + Pow2(k - bits) - 1
  {
    hide AddrBit;
    if k == bits {
      SameNetwork(start, bits, end, bits);
    } else {
      HostPart(start, bits, end, k - 1);
      Doubled(BitNum(start, bits), Pow2(k - 1 - bits));
    }
  }

  lemma Doubled(x: nat, p: nat)
    ensures x * (2 * p) == 2 * (x * p)
  {
  }

  lemma {:induction false} SameNetwork(start: Bytes, bits: nat, end: Bytes, k: nat)
    requires HostBitsSet(start, bits, end) && k <= bits
    ensures BitNum(end, k) == BitNum(start, k)
  {
    if k > 0 { SameNetwork(start, bits, end, k - 1); }
  }

  /** A prefix is 2^host addresses, and it starts at a multiple of that. */
  lemma PrefixBounds(start: Bytes, bits: nat, end: Bytes)
    requires Masked(start, bits) && HostBitsSet(start, bits, end)
    ensures var size := Pow2(8 * |start| - bits);
            Num(end) == Num(start) + size - 1 && Num(start) == BitNum(start, bits) * size
  {
    hide AddrBit, Num, BitNum, Pow2;
    HostPart(start, bits, end, 8 * |start|);
    BitNumIsNum(start, |start|);
    BitNumIsNum(end, |end|);
    assert start[..|start|] == start && end[..|end|] == end;
  }

  lemma Multiples(i: nat, n: nat, p: nat)
    ensures i < n ==> i * p + p <= n * p
    ensures i >= n ==> i * p >= n * p
  {
    if i < n { assert (i + 1) * p <= n * p; }
  }

  /** Aligned power-of-two ranges are nested or disjoint. */
  lemma NestedOrDisjoint(i: nat, h: nat, j: nat, k: nat)
    requires h <= k
    ensures var s, t := i * Pow2(h), j * Pow2(k);
            var e, f := s + Pow2(h) - 1, t + Pow2(k) - 1;
            e < t || f < s || (t <= s && e <= f)
  {
    hide Pow2;
    var p, q := Pow2(h), Pow2(k - h);
    Pow2Adds(h, k - h);
    MulRegroup(j, p, q);
    Multiples(i, j * q, p);
    Multiples(i, (j + 1) * q, p);
  }

  lemma MulRegroup(j: nat, p: nat, q: nat)
    ensures j * (p * q) == (j * q) * p && j * (p * q) + p * q == ((j + 1) * q) * p
  {
  }
}
