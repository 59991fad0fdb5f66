/** The exact code units of the canonical text. */
module CanonicalTexts {
  import opened Text
  import opened Sorting
  import Numerals
  import opened CanonicalJson

  // ----- Characters -----

  /** The code unit of a lower-case hexadecimal digit. */
  function Hex(d: int): CodeUnit
    requires 0 <= d < 16
  {
    if d >= 10 then (d - 10 + 0x61) as CodeUnit else (d + 0x30) as CodeUnit
  }

  /** A unit inside quotes: a short escape, four hexadecimal digits, or itself. */
  function Written(u: CodeUnit): JsString {
    if u == 34 then [92, 34] // a quote
    else if u == 92 then [92, 92] // a backslash
    else if u == 8 then [92, 98]
    else if u == 9 then [92, 116]
    else if u == 10 then [92, 110]
    else if u == 12 then [92, 102]
    else if u == 13 then [92, 114]
    else if u <= 31 || (0xD800 <= u && u <= 0xDFFF) then
      var n := u as int;
      [92, 117, Hex(n / 4096), Hex(n / 256 % 16), Hex(n / 16 % 16), Hex(n % 16)]
    else [u]
  }

  /** A high surrogate before a low one. */
  predicate Paired(s: JsString) {
    |s| >= 2 && 0xD800 <= s[0] < 0xDC00 && 0xDC00 <= s[1] < 0xE000
  }

  function WrittenAll(s: JsString): JsString
    decreases |s|
  {
    if s == [] then [] else if Paired(s) then s[..2] + WrittenAll(s[2..]) else Written(s[0]) + WrittenAll(s[1..])
  }

  lemma UnitWritten(u: CodeUnit)
    ensures EscapeUnit(u) == Written(u)
  {
    hide Hex, HexDigit;
    forall d: nat | d < 16 ensures HexDigit(d) == Hex(d) {
      DigitWritten(d);
    }
  }

  lemma DigitWritten(d: nat)
    requires d < 16
    ensures HexDigit(d) == Hex(d)
  {
  }

  lemma {:induction false} StringWritten(s: JsString)
    ensures Escape(s) == WrittenAll(s)
    decreases |s|
  {
    hide EscapeUnit, Written;
    if s != [] {
      if Paired(s) {
        StringWritten(s[2..]);
        assert s[..2] == [s[0], s[1]];
      } else {
        UnitWritten(s[0]);
        StringWritten(s[1..]);
      }
    }
  }

  // ----- Values -----

  /** Texts with commas between them. */
  function Commas(texts: seq<JsString>): JsString
    decreases |texts|
  {
    if texts == [] then [] else if |texts| == 1 then texts[0] else texts[0] + [44] + Commas(texts[1..])
  }

  function TextOf(members: seq<Member>, key: JsString): JsString
    requires Printable(Obj(members)) && key in KeysOf(members)
  {
    [34] + WrittenAll(key) + [34] + [58] + Print(members[IndexOf(members, key)].value)
  }

  lemma ItemPrinted(v: Js, i: nat)
    requires v.Arr? && Printable(v) && i <= |v.items|
    ensures forall k :: 0 <= k < |v.items| ==> Printable(v.items[k])
    ensures PrintItems(v, i) == if i == |v.items| then [] else [COMMA] + Print(v.items[i]) + PrintItems(v, i + 1)
  {
    hide Print;
  }

  /** The items from the i-th on are printed one by one, with commas between them. */
  lemma {:induction false} ItemsPrinted(v: Js, i: nat) returns (texts: seq<JsString>)
    requires v.Arr? && Printable(v) && i <= |v.items|
    ensures forall k :: 0 <= k < |v.items| ==> Printable(v.items[k])
    ensures |texts| == |v.items| - i && forall k :: 0 <= k < |texts| ==> texts[k] == Print(v.items[i + k])
    ensures Joined(PrintItems(v, i)) == Commas(texts)
    decreases |v.items| - i
  {
    hide Print, PrintItems, Printable;
    texts := [];
    ItemPrinted(v, i);
    if i < |v.items| {
      var rest := ItemsPrinted(v, i + 1);
      texts := [Print(v.items[i])] + rest;
      forall k | 0 <= k < |texts| ensures texts[k] == Print(v.items[i + k]) {
        if k > 0 {
          assert texts[k] == rest[k - 1];
        }
      }
      assert texts[1..] == rest;
      ItemPrinted(v, i + 1);
      JoinedItem(Print(v.items[i]), PrintItems(v, i + 1));
    }
  }

  lemma JoinedItem(text: JsString, rest: JsString)
    ensures Joined([COMMA] + text + rest) == text + rest
    ensures rest != [] && rest[0] == 44 ==> text + rest == text + [44] + Joined(rest)
    ensures rest == [] ==> text + rest == text
  {
    assert [COMMA] + text + rest == [COMMA] + (text + rest);
    assert rest != [] ==> rest == [rest[0]] + rest[1..];
  }

  lemma NoText(v: Js)
    requires v.Obj? && Printable(v)
    ensures PrintMembers(v, []) == []
  {
  }

  lemma MemberPrinted(v: Js, keys: seq<JsString>)
    requires v.Obj? && Printable(v) && keys != [] && forall key :: key in keys ==> key in KeysOf(v.members)
    ensures PrintMembers(v, keys) == [COMMA] + TextOf(v.members, keys[0]) + PrintMembers(v, keys[1..])
  {
    hide Printable, WrittenAll, Escape, Print;
    StringWritten(keys[0]);
  }

  /** The members under some keys are printed in the order of these, with commas between them. */
  lemma {:induction false} MembersPrinted(v: Js, keys: seq<JsString>) returns (texts: seq<JsString>)
    requires v.Obj? && Printable(v) && forall key :: key in keys ==> key in KeysOf(v.members)
    ensures |texts| == |keys| && forall k :: 0 <= k < |keys| ==> texts[k] == TextOf(v.members, keys[k])
    ensures Joined(PrintMembers(v, keys)) == Commas(texts)
    decreases |keys|
  {
    hide Printable, TextOf, PrintMembers;
    texts := [];
    NoText(v);
    if keys != [] {
      var rest := MembersPrinted(v, keys[1..]);
      var others := PrintMembers(v, keys[1..]);
      texts := [TextOf(v.members, keys[0])] + rest;
      forall k | 0 <= k < |keys| ensures texts[k] == TextOf(v.members, keys[k]) {
        if k > 0 {
          assert texts[k] == rest[k - 1] && keys[1..][k - 1] == keys[k];
        }
      }
      assert texts[1..] == rest;
      MemberPrinted(v, keys);
      if |keys| > 1 {
        MemberPrinted(v, keys[1..]);
      } else {
        assert keys[1..] == [];
      }
      JoinedItem(TextOf(v.members, keys[0]), others);
    }
  }

  /** An array is its items, an object its members in code unit order of their keys. */
  ghost predicate Composed(v: Js, text: JsString, texts: seq<JsString>, keys: seq<JsString>)
    requires Printable(v) && (v.Arr? || v.Obj?)
  {
    if v.Arr? then
      && |texts| == |v.items| && (forall k :: 0 <= k < |texts| ==> texts[k] == Print(v.items[k]))
      && text == [91] + Commas(texts) + [93]
    else
      && Ascending(keys, Leq) && (forall key :: key in keys <==> key in KeysOf(v.members))
      && |texts| == |keys| && (forall k :: 0 <= k < |texts| ==> keys[k] in KeysOf(v.members) && texts[k] == TextOf(v.members, keys[k]))
      && text == [123] + Commas(texts) + [125]
  }

  /** The text of every printable value. */
  lemma TextIs(v: Js)
    requires Printable(v)
    ensures match v
            case Null => Print(v) == [110, 117, 108, 108]
            case Bool(b) => Print(v) == if b then [116, 114, 117, 101] else [102, 97, 108, 115, 101]
            case Str(s) => Print(v) == [34] + WrittenAll(s) + [34]
            case Num(n) => Numbered(n, Print(v))
            case _ => exists texts, keys :: Composed(v, Print(v), texts, keys)
  {
    hide WrittenAll;
    match v
    case Str(s) => StringWritten(s);
    case Num(n) => NumberPrinted(n);
    case Arr(items) =>
      var texts := ItemsPrinted(v, 0);
      assert Composed(v, Print(v), texts, []);
    case Obj(members) =>
      var keys := SortedKeys(KeysOf(members));
      var texts := MembersPrinted(v, keys);
      assert Composed(v, Print(v), texts, keys);
    case _ =>
  }

  /** The text is the number's decimal digits, after a minus sign if it is negative. */
  ghost predicate Numbered(n: int, text: JsString) {
    exists digits :: Numerals.Canonical(digits) && |text| == |digits| + (if n < 0 then 1 else 0)
      && Numerals.Value(digits) == (if n < 0 then -n else n) && (n < 0 ==> text[0] == 45)
      && forall i :: 0 <= i < |digits| ==> text[i + if n < 0 then 1 else 0] as int == digits[i] as int
  }

  lemma NumberPrinted(n: int)
    ensures Numbered(n, PrintNumber(n))
  {
    hide Numerals.Print, Numerals.Value, Ascii;
    var m := if n < 0 then -n else n;
    var digits, text := Numerals.Print(m), PrintNumber(n);
    Numerals.PrintReads(m);
    AsciiUnits(Numerals.PrintInt(n));
    if n < 0 {
      assert Numerals.PrintInt(n) == ['-'] + digits;
      forall i | 0 <= i < |digits| ensures text[i + 1] as int == digits[i] as int {
        assert digits[i] == Numerals.PrintInt(n)[i + 1];
      }
    }
  }

  lemma {:induction false} AsciiUnits(s: string)
    requires forall i :: 0 <= i < |s| ==> s[i] as int < 128
    ensures |Ascii(s)| == |s| && forall i :: 0 <= i < |s| ==> Ascii(s)[i] as int == s[i] as int
    decreases |s|
  {
    if s != "" {
      AsciiUnits(s[1..]);
      forall i | 0 <= i < |s| ensures Ascii(s)[i] as int == s[i] as int {
        if i > 0 {
          assert Ascii(s)[i] == Ascii(s[1..])[i - 1];
        }
      }
    }
  }
}
