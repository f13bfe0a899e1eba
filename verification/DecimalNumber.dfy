/** The number scanner against the valid floating-point number grammar in
    section 2.3.4.3 of the HTML Living Standard. */
module DecimalNumber {

  predicate Digit(c: char) { '0' <= c <= '9' }

  // ---- the grammar

  ghost predicate Digits(s: string) { |s| > 0 && forall k :: 0 <= k < |s| ==> Digit(s[k]) }

  ghost predicate Minus(s: string) { s == "" || s == "-" }
  ghost predicate Whole(s: string) { s == "" || Digits(s) }
  ghost predicate Fraction(s: string) { s == "" || (s[0] == '.' && Digits(s[1..])) }

  ghost predicate Exponent(s: string) {
    || s == ""
    || ((s[0] == 'e' || s[0] == 'E') && (Digits(s[1..]) || (|s| > 1 && (s[1] == '-' || s[1] == '+') && Digits(s[2..]))))
  }

  ghost predicate Derives(s: string, minus: string, whole: string, fraction: string, exponent: string) {
    && s == minus + whole + fraction + exponent
    && Minus(minus) && Whole(whole) && Fraction(fraction) && Exponent(exponent)
    && (whole != "" || fraction != "")
  }

  ghost predicate ValidNumber(s: string) { exists m, w, f, e :: Derives(s, m, w, f, e) }

  // ---- where the scanner stops

  /** The first place at or after i that holds no digit. */
  function RunEnd(s: string, i: nat): (j: nat)
    requires i <= |s|
    ensures i <= j <= |s| && (forall k :: i <= k < j ==> Digit(s[k])) && (j < |s| ==> !Digit(s[j]))
    decreases |s| - i
  {
    if i < |s| && Digit(s[i]) then RunEnd(s, i + 1) else i
  }

  lemma {:induction false} RunEndIs(s: string, i: nat, j: nat)
    requires i <= j <= |s| && (forall k :: i <= k < j ==> Digit(s[k])) && (j < |s| ==> !Digit(s[j]))
    ensures RunEnd(s, i) == j
    decreases j - i
  {
    if i < j { RunEndIs(s, i + 1, j); }
  }

  function WholeAt(s: string): (a: nat)
    ensures a <= |s|
  {
    if |s| > 0 && s[0] == '-' then 1 else 0
  }

  function PointAt(s: string): (b: nat)
    ensures WholeAt(s) <= b <= |s|
  {
    RunEnd(s, WholeAt(s))
  }

  function ExponentAt(s: string): (c: nat)
    ensures PointAt(s) <= c <= |s|
  {
    var b := PointAt(s);
    if b < |s| && s[b] == '.' && RunEnd(s, b + 1) > b + 1 then RunEnd(s, b + 1) else b
  }

  predicate Tail(s: string, c: nat)
    requires c <= |s|
  {
    || c == |s|
    || ((s[c] == 'e' || s[c] == 'E')
        && var d := if c + 1 < |s| && (s[c + 1] == '-' || s[c + 1] == '+') then c + 2 else c + 1;
           d < |s| && RunEnd(s, d) == |s|)
  }

  predicate Accepted(s: string) {
    (PointAt(s) > WholeAt(s) || ExponentAt(s) > PointAt(s)) && Tail(s, ExponentAt(s))
  }

  // ---- the two agree

  lemma TailIs(s: string, c: nat)
    requires c <= |s|
    ensures Tail(s, c) <==> Exponent(s[c..])
  {
    hide RunEnd, Digits;
    if c < |s| {
      DigitsToEnd(s, c + 1);
      if c + 1 < |s| { DigitsToEnd(s, c + 2); }
      assert s[c..][1..] == s[c + 1..] && (c + 1 < |s| ==> s[c..][2..] == s[c + 2..]);
      if c + 1 < |s| && (s[c + 1] == '-' || s[c + 1] == '+') { NotDigits(s[c + 1..]); }
    }
  }

  lemma NotDigits(s: string)
    requires |s| > 0 && !Digit(s[0])
    ensures !Digits(s)
  {
  }

  lemma DigitsToEnd(s: string, d: nat)
    requires d <= |s|
    ensures d < |s| && RunEnd(s, d) == |s| <==> Digits(s[d..])
  {
    if Digits(s[d..]) {
      forall k | d <= k < |s| ensures Digit(s[k]) { assert s[d..][k - d] == s[k]; }
      RunEndIs(s, d, |s|);
    }
  }

  lemma MinusCut(s: string, m: string, rest: string)
    requires s == m + rest && Minus(m) && rest != "" && rest[0] != '-'
    ensures WholeAt(s) == |m|
  {
    assert m == "" ==> s[0] == rest[0];
  }

  lemma WholeCut(s: string, m: string, w: string, rest: string)
    requires s == m + w + rest && Whole(w) && WholeAt(s) == |m| && (rest == "" || !Digit(rest[0]))
    ensures PointAt(s) == |m + w|
  {
    hide RunEnd, WholeAt, Digit;
    forall k | |m| <= k < |m + w| ensures Digit(s[k]) { assert s[k] == w[k - |m|]; }
    assert |m + w| < |s| ==> s[|m + w|] == rest[0];
    RunEndIs(s, |m|, |m + w|);
  }

  lemma FractionCut(s: string, p: string, f: string, e: string)
    requires s == p + f + e && PointAt(s) == |p| && Fraction(f) && Exponent(e)
    ensures ExponentAt(s) == |p + f|
  {
    hide RunEnd, PointAt;
    var b, c := |p|, |p + f|;
    assert c < |s| ==> s[c] == e[0];
    if f != "" {
      assert s[b] == f[0];
      forall k | b + 1 <= k < c ensures Digit(s[k]) { assert s[k] == f[1..][k - b - 1]; }
      RunEndIs(s, b + 1, c);
    }
  }

  /** What a fraction or an exponent starts with is neither a digit nor a minus. */
  lemma Starts(w: string, f: string, e: string)
    requires Whole(w) && Fraction(f) && Exponent(e)
    ensures w != "" ==> w[0] != '-'
    ensures f + e != "" ==> !Digit((f + e)[0]) && (f + e)[0] != '-'
  {
    hide RunEnd;
    assert f == "" ==> f + e == e;
    assert f != "" ==> (f + e)[0] == f[0];
  }

  /** Any derivation cuts the string where the scanner does. */
  lemma CutsAgree(s: string, m: string, w: string, f: string, e: string)
    requires Derives(s, m, w, f, e)
    ensures WholeAt(s) == |m| && PointAt(s) == |m + w| && ExponentAt(s) == |m + w + f| && s[|m + w + f|..] == e
  {
    hide Minus, Whole, Fraction, Exponent, WholeAt, PointAt, ExponentAt, Digit;
    Starts(w, f, e);
    var rest := w + (f + e);
    assert s == m + rest && s == m + w + (f + e);
    assert w != "" ==> rest[0] == w[0];
    assert w == "" ==> rest == f + e;
    MinusCut(s, m, rest);
    WholeCut(s, m, w, f + e);
    FractionCut(s, m + w, f, e);
  }

  /** The scanner's cuts are a derivation when it accepts. */
  lemma CutsDerive(s: string)
    requires PointAt(s) > WholeAt(s) || ExponentAt(s) > PointAt(s)
    requires Exponent(s[ExponentAt(s)..])
    ensures var a, b, c := WholeAt(s), PointAt(s), ExponentAt(s); Derives(s, s[..a], s[a..b], s[b..c], s[c..])
  {
    hide RunEnd, Exponent, Digits, Digit;
    var a, b, c := WholeAt(s), PointAt(s), ExponentAt(s);
    assert s == s[..a] + s[a..b] + s[b..c] + s[c..];
    if a < b { RunIsDigits(s, a); }
    if b < c {
      RunIsDigits(s, b + 1);
      assert s[b..c][0] == '.' && s[b..c][1..] == s[b + 1..c];
    }
  }

  lemma RunIsDigits(s: string, i: nat)
    requires i < |s| && RunEnd(s, i) > i
    ensures Digits(s[i..RunEnd(s, i)])
  {
    hide RunEnd, Digit;
    var part := s[i..RunEnd(s, i)];
    forall k | 0 <= k < |part| ensures Digit(part[k]) { assert part[k] == s[i + k]; }
  }

  lemma AcceptedDerives(s: string)
    requires Accepted(s)
    ensures ValidNumber(s)
  {
    hide Exponent, RunEnd, Tail, WholeAt, PointAt, ExponentAt, Derives;
    TailIs(s, ExponentAt(s));
    CutsDerive(s);
  }

  lemma DerivesAccepted(s: string, m: string, w: string, f: string, e: string)
    requires Derives(s, m, w, f, e)
    ensures Accepted(s)
  {
    CutsAgree(s, m, w, f, e);
    hide RunEnd, Tail, WholeAt, PointAt, ExponentAt, Minus, Whole, Fraction;
    TailIs(s, |m + w + f|);
  }

  lemma AcceptedIsValid(s: string)
    ensures Accepted(s) <==> ValidNumber(s)
  {
    hide Accepted, Derives;
    if Accepted(s) { AcceptedDerives(s); }
    if ValidNumber(s) {
      var m, w, f, e :| Derives(s, m, w, f, e);
      DerivesAccepted(s, m, w, f, e);
    }
  }

  /** No string has two derivations. */
  lemma Unambiguous(s: string, m: string, w: string, f: string, e: string, m': string, w': string, f': string, e': string)
    requires Derives(s, m, w, f, e) && Derives(s, m', w', f', e')
    ensures m == m' && w == w' && f == f' && e == e'
  {
    hide WholeAt, PointAt, ExponentAt, Minus, Whole, Fraction, Exponent;
    CutsAgree(s, m, w, f, e);
    CutsAgree(s, m', w', f', e');
    var a, b, c := |m|, |m + w|, |m + w + f|;
    assert m == s[..a] == m' && w == s[a..b] == w' && f == s[b..c] == f';
  }

  /** The strings whose fate the code's own account turns on. */
  lemma AsDocumented()
    ensures ValidNumber(".5") && ValidNumber("1e3") && ValidNumber("-5")
    ensures !ValidNumber("5.") && !ValidNumber("+5") && !ValidNumber("Infinity") && !ValidNumber("0x1p4")
  {
    hide ValidNumber;
    AcceptedIsValid(".5");
    AcceptedIsValid("1e3");
    AcceptedIsValid("-5");
    AcceptedIsValid("5.");
    AcceptedIsValid("+5");
    AcceptedIsValid("Infinity");
    AcceptedIsValid("0x1p4");
    RunEndIs(".5", 0, 0);
    RunEndIs(".5", 1, 2);
    RunEndIs("1e3", 0, 1);
    RunEndIs("1e3", 2, 3);
    RunEndIs("-5", 1, 2);
    RunEndIs("5.", 0, 1);
    RunEndIs("5.", 2, 2);
    RunEndIs("+5", 0, 0);
    RunEndIs("Infinity", 0, 0);
    RunEndIs("0x1p4", 0, 1);
  }

  // ---- the scanner

  /** What is left to decide once the scanner stands at the exponent. */
  lemma TailDecides(s: string, c: nat, digits: bool)
    requires c == ExponentAt(s) && (digits <==> PointAt(s) > WholeAt(s) || c > PointAt(s))
    ensures Accepted(s) <==> digits && Tail(s, c)
    ensures c == |s| || !(s[c] == 'e' || s[c] == 'E') ==> (Tail(s, c) <==> c == |s|)
    ensures c < |s| && (s[c] == 'e' || s[c] == 'E') ==>
      var d := if c + 1 < |s| && (s[c + 1] == '-' || s[c + 1] == '+') then c + 2 else c + 1;
      Tail(s, c) <==> d < |s| && RunEnd(s, d) == |s|
  {
    hide RunEnd, WholeAt, PointAt, ExponentAt;
  }

  method SkipDigits(s: string, start: nat) returns (i: nat)
    requires start <= |s|
    ensures i == RunEnd(s, start)
  {
    i := start;
    while i < |s| && '0' <= s[i] <= '9'
      invariant start <= i <= |s| && RunEnd(s, i) == RunEnd(s, start)
    {
      i := i + 1;
    }
  }

  method IsDecimalNumber(s: string) returns (ok: bool)
    ensures ok <==> ValidNumber(s)
  {
    hide ValidNumber, RunEnd, Digit, Tail, Accepted;
    AcceptedIsValid(s);
    var i := 0;
    if i < |s| && s[i] == '-' {
      i := i + 1;
    }
    var start := i;
    i := SkipDigits(s, i);
    var hasInt, hasFrac := i > start, false;
    if i < |s| && s[i] == '.' {
      var j := SkipDigits(s, i + 1);
      hasFrac := j > i + 1;
      if hasFrac {
        i := j;
      }
    }
    assert i == ExponentAt(s) && (hasInt <==> PointAt(s) > WholeAt(s)) && (hasFrac <==> i > PointAt(s));
    TailDecides(s, i, hasInt || hasFrac);
    if !hasInt && !hasFrac {
      return false;
    }
    if i < |s| && (s[i] == 'e' || s[i] == 'E') {
      var j := i + 1;
      if j < |s| && (s[j] == '-' || s[j] == '+') {
        j := j + 1;
      }
      start := j;
      j := SkipDigits(s, j);
      if j == start {
        return false;
      }
      i := j;
    }
    return i == |s|;
  }
}
