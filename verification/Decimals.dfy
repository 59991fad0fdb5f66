/** Exact decimal arithmetic on strings, as quotations use it. */
module Decimals {
  import opened Numerals

  // ----- Decimal strings -----

  const MAX_DECIMAL_LENGTH := 64

  /** The first point, or the end. */
  function PointAt(s: string): (i: nat)
    ensures i <= |s| && (i < |s| ==> s[i] == '.') && forall j :: 0 <= j < i ==> s[j] != '.'
    decreases |s|
  {
    if s == "" || s[0] == '.' then 0 else 1 + PointAt(s[1..])
  }

  function Whole(s: string): string {
    s[..PointAt(s)]
  }

  function Fraction(s: string): string {
    if PointAt(s) < |s| then s[PointAt(s) + 1..] else ""
  }

  /** Digits without a superfluous zero, then perhaps a point and at least one more digit; at most 64 characters. */
  predicate IsDecimal(s: string) {
    && |s| <= MAX_DECIMAL_LENGTH && Canonical(Whole(s)) && AllDigits(Fraction(s))
    && (PointAt(s) < |s| ==> Fraction(s) != "")
  }

  predicate IsPositive(s: string) {
    IsDecimal(s) && exists i :: 0 <= i < |s| && '1' <= s[i] <= '9'
  }

  /** The number a decimal denotes, read digit by digit. */
  function Denotes(s: string): real
    requires IsDecimal(s)
  {
    Value(Whole(s)) as real + Tenths(Fraction(s))
  }

  function Tenths(f: string): real
    requires AllDigits(f)
    decreases |f|
  {
    if f == "" then 0.0 else (DigitValue(f[0]) as real + Tenths(f[1..])) / 10.0
  }

  /** What the decimal pattern matches, within the length that is allowed. */
  ghost predicate MatchesPattern(s: string) {
    |s| < 65 &&
    exists p :: 0 < p <= |s|
      && (forall i :: 0 <= i < |s| && i != p ==> 0x30 <= s[i] as int <= 0x39)
      && (s[0] == '0' ==> p == 1)
      && (p < |s| ==> s[p] == '.' && p < |s| - 1)
  }

  lemma DecimalsMatch(s: string)
    ensures IsDecimal(s) <==> MatchesPattern(s)
  {
    var p := PointAt(s);
    if IsDecimal(s) {
      forall i | 0 <= i < |s| && i != p ensures 0x30 <= s[i] as int <= 0x39 {
        assert i < p ==> s[i] == Whole(s)[i];
        assert i > p ==> s[i] == Fraction(s)[i - p - 1];
      }
    }
    if MatchesPattern(s) {
      var q :| 0 < q <= |s| && (forall i :: 0 <= i < |s| && i != q ==> 0x30 <= s[i] as int <= 0x39)
               && (s[0] == '0' ==> q == 1) && (q < |s| ==> s[q] == '.' && q < |s| - 1);
      assert p == q;
    }
  }

  predicate Nonzero(s: string) {
    exists i :: 0 <= i < |s| && s[i] != '0'
  }

  lemma {:induction false} ValueNonzero(s: string)
    requires AllDigits(s)
    ensures Value(s) > 0 <==> Nonzero(s)
    decreases |s|
  {
    if s != "" {
      var n := |s| - 1;
      ValueNonzero(s[..n]);
      assert s[n] == '0' <==> DigitValue(s[n]) == 0;
      if Nonzero(s[..n]) {
        var i :| 0 <= i < n && s[..n][i] != '0';
        assert s[i] != '0';
      }
      if Nonzero(s) && s[n] == '0' {
        var i :| 0 <= i < |s| && s[i] != '0';
        assert s[..n][i] != '0';
      }
    }
  }

  lemma {:induction false} TenthsNonzero(f: string)
    requires AllDigits(f)
    ensures Tenths(f) >= 0.0 && (Tenths(f) > 0.0 <==> Nonzero(f))
    decreases |f|
  {
    if f != "" {
      TenthsNonzero(f[1..]);
      assert f[0] == '0' <==> DigitValue(f[0]) == 0;
      if Nonzero(f[1..]) {
        var i :| 0 <= i < |f[1..]| && f[1..][i] != '0';
        assert f[i + 1] != '0';
      }
      if Nonzero(f) && f[0] == '0' {
        var i :| 0 <= i < |f| && f[i] != '0';
        assert f[1..][i - 1] != '0';
      }
    }
  }

  /** A digit other than zero anywhere is what makes a decimal positive. */
  lemma PositiveMeans(s: string)
    requires IsDecimal(s)
    ensures IsPositive(s) <==> Denotes(s) > 0.0
  {
    var p, w, f := PointAt(s), Whole(s), Fraction(s);
    ValueNonzero(w);
    TenthsNonzero(f);
    assert IsPositive(s) <==> Nonzero(w) || Nonzero(f) by {
      if IsPositive(s) {
        var i :| 0 <= i < |s| && '1' <= s[i] <= '9';
        assert i < p ==> w[i] != '0';
        assert i > p ==> f[i - p - 1] != '0';
      }
      if Nonzero(w) {
        var i :| 0 <= i < |w| && w[i] != '0';
        assert '1' <= s[i] <= '9';
      }
      if Nonzero(f) {
        var i :| 0 <= i < |f| && f[i] != '0';
        assert '1' <= s[i + p + 1] <= '9';
      }
    }
  }

  // ----- Scaled integers -----

  datatype Scaled = Scaled(n: nat, scale: nat)

  /** All digits as one integer, and how many of them follow the point. */
  function ToScaled(s: string): Scaled
    requires IsDecimal(s)
  {
    AppendDigits(Whole(s), Fraction(s));
    Scaled(Value(Whole(s) + Fraction(s)), |Fraction(s)|)
  }

  lemma AppendDigits(a: string, b: string)
    requires AllDigits(a) && AllDigits(b)
    ensures AllDigits(a + b)
  {
  }

  function EqualDecimal(a: Scaled, b: Scaled): bool {
    a.n * Pow10(b.scale) == b.n * Pow10(a.scale)
  }

  /** The number a scaled integer stands for. */
  function Ratio(a: Scaled): real {
    a.n as real / Ten(a.scale)
  }

  function Ten(k: nat): (p: real)
    ensures p >= 1.0
  {
    Pow10(k) as real
  }

  /** a is x, scaled up. */
  ghost predicate Stands(a: Scaled, x: real) {
    a.n as real == x * Ten(a.scale)
  }

  // ----- Arithmetic -----

  lemma CastProduct(a: int, b: int)
    ensures (a * b) as real == a as real * b as real
  {
  }

  lemma Quotient(n: real, x: real, p: real)
    requires n == x * p && p >= 1.0
    ensures n / p == x
  {
  }

  lemma CrossMultiply(m: real, n: real, x: real, y: real, p: real, q: real)
    requires m == x * p && n == y * q && p >= 1.0 && q >= 1.0
    ensures m * q == n * p <==> x == y
  {
    var pq := p * q;
    assert m * q == x * pq && n * p == y * pq;
    assert pq >= 1.0;
    if m * q == n * p {
      Quotient(m * q, x, pq);
      Quotient(n * p, y, pq);
    }
  }

  lemma {:induction false} Pow10Add(j: nat, k: nat)
    ensures Pow10(j + k) == Pow10(j) * Pow10(k)
    decreases j
  {
    if j > 0 {
      Pow10Add(j - 1, k);
      TenTimes(Pow10(j - 1), Pow10(k));
    }
  }

  lemma TenTimes(p: int, q: int)
    ensures 10 * (p * q) == (10 * p) * q
  {
  }

  lemma TenAdd(j: nat, k: nat)
    ensures Ten(j + k) == Ten(j) * Ten(k)
  {
    hide Pow10;
    Pow10Add(j, k);
    CastProduct(Pow10(j), Pow10(k));
  }

  // ----- What scaled integers stand for -----

  lemma RatioStands(a: Scaled, x: real)
    requires Stands(a, x)
    ensures Ratio(a) == x
  {
    hide Ten;
    Quotient(a.n as real, x, Ten(a.scale));
  }

  /** `equalDecimal` is equality of the numbers. */
  lemma EqualDecimalIsEquality(a: Scaled, b: Scaled, x: real, y: real)
    requires Stands(a, x) && Stands(b, y)
    ensures EqualDecimal(a, b) <==> x == y
  {
    hide Pow10;
    CastProduct(a.n, Pow10(b.scale));
    CastProduct(b.n, Pow10(a.scale));
    CrossMultiply(a.n as real, b.n as real, x, y, Ten(a.scale), Ten(b.scale));
  }

  function Product(a: Scaled, b: Scaled): Scaled {
    Scaled(a.n * b.n, a.scale + b.scale)
  }

  lemma Products(m: real, n: real, x: real, y: real, p: real, q: real)
    requires m == x * p && n == y * q
    ensures m * n == (x * y) * (p * q)
  {
  }

  lemma ProductStands(a: Scaled, b: Scaled, x: real, y: real)
    requires Stands(a, x) && Stands(b, y)
    ensures Stands(Product(a, b), x * y)
  {
    hide Ten;
    TenAdd(a.scale, b.scale);
    CastProduct(a.n, b.n);
    Products(a.n as real, b.n as real, x, y, Ten(a.scale), Ten(b.scale));
  }

  lemma Distribute(a: int, p: int, b: int, d: int)
    ensures (a * p + b) * 10 + d == a * (10 * p) + (b * 10 + d)
  {
  }

  lemma {:induction false} ValueConcat(a: string, b: string)
    requires AllDigits(a) && AllDigits(b)
    ensures AllDigits(a + b) && Value(a + b) == Value(a) * Pow10(|b|) + Value(b)
    decreases |b|
  {
    if b == "" {
      assert a + b == a;
    } else {
      var n := |b| - 1;
      ValueConcat(a, b[..n]);
      assert a + b == (a + b[..n]) + [b[n]] && b == b[..n] + [b[n]];
      ValueAppend(a + b[..n], b[n]);
      ValueAppend(b[..n], b[n]);
      Distribute(Value(a), Pow10(n), Value(b[..n]), DigitValue(b[n]));
    }
  }

  lemma FirstDigit(c: char, rest: string)
    requires IsDigit(c) && AllDigits(rest)
    ensures AllDigits([c] + rest) && Value([c] + rest) == DigitValue(c) * Pow10(|rest|) + Value(rest)
  {
    hide Value, Pow10;
    NoDigits();
    ValueAppend("", c);
    assert "" + [c] == [c];
    ValueConcat([c], rest);
  }

  lemma TenthsStep(t: real, u: real, d: real, p: real, v: real)
    requires t == (d + u) / 10.0 && u * p == v
    ensures t * (10.0 * p) == d * p + v
  {
    assert t * 10.0 == d + u;
    assert t * (10.0 * p) == (t * 10.0) * p;
  }

  /** Reading digits after the point is dividing by a power of ten. */
  lemma {:induction false} TenthsValue(f: string)
    requires AllDigits(f)
    ensures Tenths(f) * Ten(|f|) == Value(f) as real
    decreases |f|
  {
    hide Value, Pow10, Ten;
    if f == "" {
      NoDigits();
    } else {
      var rest := f[1..];
      TenthsValue(rest);
      assert f == [f[0]] + rest;
      FirstDigit(f[0], rest);
      TenNext(|rest|);
      CastProduct(DigitValue(f[0]), Pow10(|rest|));
      TenIs(|rest|);
      TenthsStep(Tenths(f), Tenths(rest), DigitValue(f[0]) as real, Ten(|rest|), Value(rest) as real);
    }
  }

  lemma NoDigits()
    ensures Value("") == 0
  {
  }

  lemma TenNext(k: nat)
    ensures Ten(k + 1) == 10.0 * Ten(k)
  {
  }

  lemma TenIs(k: nat)
    ensures Ten(k) == Pow10(k) as real
  {
  }

  lemma Shifted(w: real, t: real, p: real, wp: real, tp: real)
    requires wp == w * p && tp == t * p
    ensures wp + tp == (w + t) * p
  {
  }

  /** `scaled` denotes the decimal's value, trailing zeros and all. */
  lemma ScaledDenotes(s: string)
    requires IsDecimal(s)
    ensures Stands(ToScaled(s), Denotes(s)) && Ratio(ToScaled(s)) == Denotes(s)
  {
    hide Value, Pow10, Ten, Tenths;
    var w, f := Whole(s), Fraction(s);
    ValueConcat(w, f);
    TenthsValue(f);
    CastProduct(Value(w), Pow10(|f|));
    TenIs(|f|);
    Shifted(Value(w) as real, Tenths(f), Ten(|f|), (Value(w) * Pow10(|f|)) as real, Value(f) as real);
    RatioStands(ToScaled(s), Denotes(s));
  }

  // ----- Sums -----

  function MaxScale(parts: seq<Scaled>): nat
    decreases |parts|
  {
    if parts == [] then 0
    else if parts[0].scale > MaxScale(parts[1..]) then parts[0].scale
    else MaxScale(parts[1..])
  }

  lemma {:induction false} MaxScaleBounds(parts: seq<Scaled>)
    ensures forall part :: part in parts ==> part.scale <= MaxScale(parts)
    decreases |parts|
  {
    if parts != [] {
      MaxScaleBounds(parts[1..]);
    }
  }

  /** The fold at a common scale. */
  function SumAt(parts: seq<Scaled>, scale: nat): nat
    requires forall part :: part in parts ==> part.scale <= scale
    decreases |parts|
  {
    if parts == [] then 0
    else
      assert parts[0] in parts;
      parts[0].n * Pow10(scale - parts[0].scale) + SumAt(parts[1..], scale)
  }

  function SumOf(parts: seq<Scaled>): Scaled {
    MaxScaleBounds(parts);
    Scaled(SumAt(parts, MaxScale(parts)), MaxScale(parts))
  }

  ghost function Sum(xs: seq<real>): real
    decreases |xs|
  {
    if xs == [] then 0.0 else xs[0] + Sum(xs[1..])
  }

  ghost predicate AllStand(parts: seq<Scaled>, xs: seq<real>) {
    |parts| == |xs| && forall i :: 0 <= i < |xs| ==> Stands(parts[i], xs[i])
  }

  /** A part rescaled to a larger scale. */
  lemma Rescaled(part: Scaled, x: real, scale: nat)
    requires Stands(part, x) && part.scale <= scale
    ensures (part.n * Pow10(scale - part.scale)) as real == x * Ten(scale)
  {
    hide Pow10;
    TenAdd(part.scale, scale - part.scale);
    CastProduct(part.n, Pow10(scale - part.scale));
    var p, d := Ten(part.scale), Ten(scale - part.scale);
    assert (x * p) * d == x * (p * d);
  }

  lemma {:induction false} SumAtStands(parts: seq<Scaled>, xs: seq<real>, scale: nat)
    requires AllStand(parts, xs) && forall part :: part in parts ==> part.scale <= scale
    ensures SumAt(parts, scale) as real == Sum(xs) * Ten(scale)
    decreases |parts|
  {
    hide Pow10, Ten, Stands;
    if parts != [] {
      assert parts[0] in parts;
      SumAtStands(parts[1..], xs[1..], scale);
      Rescaled(parts[0], xs[0], scale);
      Shifted(xs[0], Sum(xs[1..]), Ten(scale), xs[0] * Ten(scale), Sum(xs[1..]) * Ten(scale));
    }
  }

  /** The fold at the largest scale is the sum of the numbers. */
  lemma SumStands(parts: seq<Scaled>, xs: seq<real>)
    requires AllStand(parts, xs)
    ensures Stands(SumOf(parts), Sum(xs))
  {
    hide Ten;
    MaxScaleBounds(parts);
    SumAtStands(parts, xs, MaxScale(parts));
  }

  // ----- Quotation amounts -----

  datatype LineAmounts = LineAmounts(quantity: string, unitPrice: string, lineTotal: string)

  predicate LineWellFormed(line: LineAmounts) {
    IsPositive(line.quantity) && IsDecimal(line.unitPrice) && IsDecimal(line.lineTotal)
  }

  predicate AllWellFormed(lines: seq<LineAmounts>) {
    forall i :: 0 <= i < |lines| ==> LineWellFormed(lines[i])
  }

  predicate LineAdds(line: LineAmounts)
    requires LineWellFormed(line)
  {
    var q, p := ToScaled(line.quantity), ToScaled(line.unitPrice);
    EqualDecimal(Product(q, p), ToScaled(line.lineTotal))
  }

  function LineTotals(lines: seq<LineAmounts>): (parts: seq<Scaled>)
    requires AllWellFormed(lines)
    ensures |parts| == |lines| && forall i :: 0 <= i < |lines| ==> parts[i] == ToScaled(lines[i].lineTotal)
  {
    seq(|lines|, i requires 0 <= i < |lines| => ToScaled(lines[i].lineTotal))
  }

  /** 1 to 100 lines whose totals are products, and a total that is their sum, as the code checks it. */
  predicate AmountsAccepted(lines: seq<LineAmounts>, total: string) {
    && 1 <= |lines| <= 100 && AllWellFormed(lines) && IsDecimal(total)
    && (forall i :: 0 <= i < |lines| ==> LineAdds(lines[i]))
    && EqualDecimal(SumOf(LineTotals(lines)), ToScaled(total))
  }

  /** The numbers the line totals denote. */
  ghost function Amounts(lines: seq<LineAmounts>): (xs: seq<real>)
    requires AllWellFormed(lines)
    ensures |xs| == |lines| && forall i :: 0 <= i < |lines| ==> xs[i] == Denotes(lines[i].lineTotal)
  {
    seq(|lines|, i requires 0 <= i < |lines| => Denotes(lines[i].lineTotal))
  }

  /** As numbers, the line total is quantity times unit price. */
  predicate LineIsProduct(line: LineAmounts)
    requires LineWellFormed(line)
  {
    IsProduct(Denotes(line.quantity), Denotes(line.unitPrice), Denotes(line.lineTotal))
  }

  predicate IsProduct(x: real, y: real, z: real) {
    x * y == z
  }

  lemma LineAddsMeans(line: LineAmounts)
    requires LineWellFormed(line)
    ensures LineAdds(line) <==> LineIsProduct(line)
  {
    hide ToScaled, Denotes, EqualDecimal, Stands, Product, IsDecimal, IsPositive, IsProduct;
    PositiveIsDecimal(line.quantity);
    ScaledDenotes(line.quantity);
    ScaledDenotes(line.unitPrice);
    ScaledDenotes(line.lineTotal);
    ProductEquals(ToScaled(line.quantity), ToScaled(line.unitPrice), ToScaled(line.lineTotal),
                  Denotes(line.quantity), Denotes(line.unitPrice), Denotes(line.lineTotal));
  }

  lemma PositiveIsDecimal(s: string)
    requires IsPositive(s)
    ensures IsDecimal(s)
  {
  }

  lemma ProductEquals(q: Scaled, p: Scaled, t: Scaled, x: real, y: real, z: real)
    requires Stands(q, x) && Stands(p, y) && Stands(t, z)
    ensures EqualDecimal(Product(q, p), t) <==> IsProduct(x, y, z)
  {
    hide Stands, Product, EqualDecimal;
    ProductStands(q, p, x, y);
    EqualDecimalIsEquality(Product(q, p), t, x * y, z);
  }

  /**
   A quotation's amounts are accepted exactly when, as numbers, every line total is
   quantity times unit price and the total is the sum of the line totals.
   */
  lemma AmountsAcceptedIff(lines: seq<LineAmounts>, total: string)
    requires 1 <= |lines| <= 100 && AllWellFormed(lines) && IsDecimal(total)
    ensures AmountsAccepted(lines, total) <==>
            && (forall i :: 0 <= i < |lines| ==> LineIsProduct(lines[i]))
            && Sum(Amounts(lines)) == Denotes(total)
  {
    hide ToScaled, Denotes, EqualDecimal, Stands, LineAdds, LineIsProduct, SumOf, Sum, IsPositive;
    forall i | 0 <= i < |lines|
      ensures LineAdds(lines[i]) <==> LineIsProduct(lines[i])
      ensures Stands(LineTotals(lines)[i], Amounts(lines)[i])
    {
      LineAddsMeans(lines[i]);
      ScaledDenotes(lines[i].lineTotal);
    }
    SumStands(LineTotals(lines), Amounts(lines));
    ScaledDenotes(total);
    EqualDecimalIsEquality(SumOf(LineTotals(lines)), ToScaled(total), Sum(Amounts(lines)), Denotes(total));
  }
}
