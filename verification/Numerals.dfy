/** Decimal numerals: printing and reading back. */
module Numerals {
  import opened Wrappers

  predicate IsDigit(c: char) {
    '0' <= c <= '9'
  }

  predicate AllDigits(s: string) {
    forall i :: 0 <= i < |s| ==> IsDigit(s[i])
  }

  function DigitOf(d: nat): char
    requires d < 10
  {
    ('0' as int + d) as char
  }

  function DigitValue(c: char): nat
    requires IsDigit(c)
  {
    c as int - '0' as int
  }

  /** The number a run of digits denotes; leading zeros count for nothing. */
  function Value(s: string): nat
    requires AllDigits(s)
    decreases |s|
  {
    if s == "" then 0 else Value(s[..|s| - 1]) * 10 + DigitValue(s[|s| - 1])
  }

  function Print(n: nat): string {
    if n < 10 then [DigitOf(n)] else Print(n / 10) + [DigitOf(n % 10)]
  }

  function PrintInt(n: int): string {
    if n < 0 then "-" + Print(-n) else Print(n)
  }

  /** Digits without a superfluous leading zero. */
  predicate Canonical(s: string) {
    s != "" && AllDigits(s) && (s[0] == '0' ==> |s| == 1)
  }

  function Pow10(k: nat): (p: nat)
    ensures p >= 1
  {
    if k == 0 then 1 else 10 * Pow10(k - 1)
  }

  lemma ValueAppend(s: string, c: char)
    requires AllDigits(s) && IsDigit(c)
    ensures AllDigits(s + [c]) && Value(s + [c]) == Value(s) * 10 + DigitValue(c)
  {
    assert (s + [c])[..|s|] == s;
  }

  /** Reading a printed number gives it back, and it is printed canonically. */
  lemma {:induction false} PrintReads(n: nat)
    ensures Canonical(Print(n)) && Value(Print(n)) == n
    ensures Print(n)[0] == '0' <==> n == 0
    decreases n
  {
    if n < 10 {
      ValueAppend("", DigitOf(n));
      assert "" + [DigitOf(n)] == [DigitOf(n)];
    } else {
      PrintReads(n / 10);
      ValueAppend(Print(n / 10), DigitOf(n % 10));
    }
  }

  lemma {:induction false} ValueBounds(s: string)
    requires AllDigits(s)
    ensures Value(s) < Pow10(|s|)
    ensures s != "" && s[0] != '0' ==> Pow10(|s| - 1) <= Value(s)
    decreases |s|
  {
    if s != "" {
      ValueBounds(s[..|s| - 1]);
      if |s| == 1 {
        assert Value(s[..0]) == 0;
      }
    }
  }

  /** Printing what canonical digits denote gives them back. */
  lemma {:induction false} ReadPrints(s: string)
    requires Canonical(s)
    ensures Print(Value(s)) == s
    decreases |s|
  {
    var n := |s| - 1;
    assert s == s[..n] + [s[n]];
    ValueAppend(s[..n], s[n]);
    if n > 0 {
      ReadPrints(s[..n]);
      ValueBounds(s[..n]);
      Pow10Positive(n - 1);
    } else {
      assert Value(s[..0]) == 0;
    }
  }

  lemma Pow10Positive(k: nat)
    ensures Pow10(k) >= 1
  {
  }

  lemma {:induction false} PrintLength(n: nat, k: nat)
    requires k > 0
    ensures |Print(n)| <= k <==> n < Pow10(k)
  {
    PrintReads(n);
    ValueBounds(Print(n));
    if |Print(n)| <= k {
      Pow10Monotone(|Print(n)|, k);
    } else if n > 0 {
      Pow10Monotone(k, |Print(n)| - 1);
    }
  }

  lemma {:induction false} Pow10Monotone(j: nat, k: nat)
    requires j <= k
    ensures Pow10(j) <= Pow10(k)
    decreases k
  {
    if j < k {
      Pow10Monotone(j, k - 1);
    }
  }

  // ----- Minor units -----

  /** Money as a store returns it. */
  datatype Money = NoAmount | Number(safe: Option<int>) | Text(text: string) | BigInteger(value: int) | Wrapped(text: string)

  datatype Minor = Amount(value: int) | NullAmount | Malformed

  const MAX_MINOR_DIGITS := 31

  /** An optional minus sign and at most 31 digits, without superfluous zeros. */
  predicate MinorText(s: string) {
    var digits := if s != "" && s[0] == '-' then s[1..] else s;
    Canonical(digits) && |digits| <= MAX_MINOR_DIGITS
  }

  function ReadMinorText(s: string): Minor {
    if !MinorText(s) then Malformed
    else if s[0] == '-' then Amount(-(Value(s[1..]) as int))
    else Amount(Value(s))
  }

  /** A whole number of minor units, null, or malformed; an unsafe or fractional number is malformed. */
  function ToMinorUnits(m: Money): Minor {
    match m
    case NoAmount => NullAmount
    case BigInteger(value) => Amount(value)
    case Number(safe) => if safe.Some? then ReadMinorText(PrintInt(safe.value)) else Malformed
    case Text(text) => ReadMinorText(text)
    case Wrapped(text) => ReadMinorText(text)
  }

  function Magnitude(n: int): nat {
    if n < 0 then -n else n
  }

  predicate FitsMinor(n: int) {
    Magnitude(n) < Pow10(MAX_MINOR_DIGITS)
  }

  lemma ReadsDigits(digits: string)
    requires Canonical(digits)
    ensures |digits| <= MAX_MINOR_DIGITS <==> FitsMinor(Value(digits))
    ensures digits == Print(Value(digits))
  {
    ReadPrints(digits);
    PrintLength(Value(digits), MAX_MINOR_DIGITS);
  }

  lemma SignedText(text: string)
    requires text != "" && text[0] == '-'
    ensures text == "-" + text[1..]
  {
  }

  /** Exactly the canonical numerals of at most 31 digits are read, each as its number; "-0" is read too. */
  lemma MinorUnitsReadNumerals(text: string, n: int)
    ensures ReadMinorText(text) == Amount(n) <==> (text == PrintInt(n) && FitsMinor(n)) || (text == "-0" && n == 0)
  {
    hide Pow10, Value, Print;
    PrintReads(Magnitude(n));
    PrintLength(Magnitude(n), MAX_MINOR_DIGITS);
    if text != "" && text[0] == '-' {
      SignedText(text);
      if Canonical(text[1..]) {
        ReadsDigits(text[1..]);
      }
      if n < 0 && text == PrintInt(n) {
        assert text[1..] == Print(-n);
      }
      if n == 0 && Canonical(text[1..]) && text[1..] == Print(0) {
        ZeroText();
      }
      ZeroText();
      assert "-0"[1..] == "0";
    } else if Canonical(text) {
      ReadsDigits(text);
    }
  }

  lemma ZeroText()
    ensures Print(0) == "0" && Canonical("0") && Value("0") == 0
  {
    PrintReads(0);
  }

  /** A non-negative whole number, or nothing. */
  function StrictMinorUnits(m: Money): Option<nat> {
    var minor := ToMinorUnits(m);
    if minor.Amount? && minor.value >= 0 then Some(minor.value) else None
  }

  /** A stored amount is read back exactly when it is not negative and has at most 31 digits. */
  lemma StoredAmountsRead(n: int)
    ensures StrictMinorUnits(Wrapped(PrintInt(n))) == if 0 <= n && FitsMinor(n) then Some(n) else None
  {
    MinorUnitsReadNumerals(PrintInt(n), n);
    PrintReads(if n < 0 then -n else n);
    if ReadMinorText(PrintInt(n)).Amount? {
      MinorUnitsReadNumerals(PrintInt(n), ReadMinorText(PrintInt(n)).value);
      PrintIntInjective(n, ReadMinorText(PrintInt(n)).value);
    }
  }

  lemma PrintIntInjective(a: int, b: int)
    ensures PrintInt(a) == PrintInt(b) <==> a == b
    ensures PrintInt(a) != "-0"
  {
    PrintReads(if a < 0 then -a else a);
    PrintReads(if b < 0 then -b else b);
    if PrintInt(a) == PrintInt(b) {
      if a < 0 {
        assert PrintInt(a)[1..] == Print(-a);
      }
      if b < 0 {
        assert PrintInt(b)[1..] == Print(-b);
      }
    }
    if a < 0 {
      assert PrintInt(a)[1] == Print(-a)[0];
    }
  }
}
