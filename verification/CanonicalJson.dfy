/** The canonical JSON text that command digests are taken of, and a parser that reads it back. */
module CanonicalJson {
  import opened Wrappers
  import opened Text
  import opened Sorting
  import opened Numerals

  // ----- Values -----

  /** A value as the program holds it: an object lists its members in some order. */
  datatype Js = Null | Bool(b: bool) | Str(s: JsString) | Num(n: int) | Arr(items: seq<Js>) | Obj(members: seq<Member>) | Foreign
  datatype Member = Member(key: JsString, value: Js)

  /** What a value means: the order of an object's members is no part of it. */
  datatype Json = JNull | JBool(b: bool) | JStr(s: JsString) | JNum(n: int) | JArr(items: seq<Json>) | JObj(members: map<JsString, Json>)

  const MAX_SAFE: int := 0x1F_FFFF_FFFF_FFFF

  function KeysOf(members: seq<Member>): set<JsString> {
    set m | m in members :: m.key
  }

  predicate UniqueKeys(members: seq<Member>) {
    forall i, j :: 0 <= i < j < |members| ==> members[i].key != members[j].key
  }

  /** null, booleans, strings, safe integers, and arrays and objects of these. */
  predicate Printable(v: Js)
    decreases v
  {
    match v
    case Null | Bool(_) | Str(_) => true
    case Num(n) => -MAX_SAFE <= n <= MAX_SAFE
    case Arr(items) => forall i :: 0 <= i < |items| ==> Printable(items[i])
    case Obj(members) => UniqueKeys(members) && forall i :: 0 <= i < |members| ==> Printable(members[i].value)
    case Foreign => false
  }

  function IndexOf(members: seq<Member>, key: JsString): (i: nat)
    requires key in KeysOf(members)
    ensures i < |members| && members[i].key == key
    decreases |members|
  {
    if members[0].key == key then 0 else 1 + IndexOf(members[1..], key)
  }

  function MeaningOfAll(v: Js, n: nat): (js: seq<Json>)
    requires v.Arr? && Printable(v) && n <= |v.items|
    ensures |js| == n && forall i :: 0 <= i < n ==> js[i] == Meaning(v.items[i])
    decreases v, n
  {
    if n == 0 then [] else MeaningOfAll(v, n - 1) + [Meaning(v.items[n - 1])]
  }

  function Meaning(v: Js): Json
    requires Printable(v)
    decreases v
  {
    match v
    case Null => JNull
    case Bool(b) => JBool(b)
    case Str(s) => JStr(s)
    case Num(n) => JNum(n)
    case Arr(items) => JArr(MeaningOfAll(v, |items|))
    case Obj(members) =>
      JObj(map key | key in KeysOf(members) :: Meaning(members[IndexOf(members, key)].value))
  }

  // ----- Printing -----

  const QUOTE: CodeUnit := 34
  const BACKSLASH: CodeUnit := 92
  const COMMA: CodeUnit := 44
  const COLON: CodeUnit := 58
  const OPEN_ARRAY: CodeUnit := 91
  const CLOSE_ARRAY: CodeUnit := 93
  const OPEN_OBJECT: CodeUnit := 123
  const CLOSE_OBJECT: CodeUnit := 125
  const MINUS: CodeUnit := 45

  const NULL_TEXT: JsString := [110, 117, 108, 108]
  const TRUE_TEXT: JsString := [116, 114, 117, 101]
  const FALSE_TEXT: JsString := [102, 97, 108, 115, 101]

  function HexDigit(d: nat): CodeUnit
    requires d < 16
  {
    if d < 10 then (48 + d) as CodeUnit else (87 + d) as CodeUnit
  }

  /** Four lower-case hexadecimal digits. */
  function Hex4(u: CodeUnit): JsString {
    var n := u as nat;
    [HexDigit(n / 4096), HexDigit(n / 256 % 16), HexDigit(n / 16 % 16), HexDigit(n % 16)]
  }

  predicate IsHigh(u: CodeUnit) { 0xD800 <= u <= 0xDBFF }
  predicate IsLow(u: CodeUnit) { 0xDC00 <= u <= 0xDFFF }

  /** The letter of a short escape. */
  function ShortEscape(u: CodeUnit): Option<CodeUnit> {
    if u == QUOTE then Some(QUOTE) else if u == BACKSLASH then Some(BACKSLASH)
    else if u == 8 then Some(98) else if u == 12 then Some(102) else if u == 10 then Some(110)
    else if u == 13 then Some(114) else if u == 9 then Some(116) else None
  }

  function EscapeUnit(u: CodeUnit): JsString {
    if ShortEscape(u).Some? then [BACKSLASH, ShortEscape(u).value]
    else if u < 32 || IsHigh(u) || IsLow(u) then [BACKSLASH, 117] + Hex4(u)
    else [u]
  }

  /** Surrogate pairs stand; everything else is escaped unit by unit. */
  function Escape(s: JsString): JsString
    decreases |s|
  {
    if s == [] then []
    else if |s| > 1 && IsHigh(s[0]) && IsLow(s[1]) then [s[0], s[1]] + Escape(s[2..])
    else EscapeUnit(s[0]) + Escape(s[1..])
  }

  function Quoted(s: JsString): JsString {
    [QUOTE] + Escape(s) + [QUOTE]
  }

  function Ascii(s: string): JsString
    requires forall i :: 0 <= i < |s| ==> s[i] as int < 128
    decreases |s|
  {
    if s == "" then [] else
      [s[0] as int as CodeUnit] + Ascii(s[1..])
  }

  function PrintNumber(n: int): JsString {
    PrintReads(if n < 0 then -n else n);
    Ascii(PrintInt(n))
  }

  lemma KeysAreOrdered()
    ensures TotalOrder<JsString>(Leq)
  {
    forall x: JsString { LeqReflexive(x); }
    forall x: JsString, y: JsString ensures Leq(x, y) || Leq(y, x) { LeqTotal(x, y); }
    forall x: JsString, y: JsString | Leq(x, y) && Leq(y, x) ensures x == y { LeqAntisymmetric(x, y); }
    forall x: JsString, y: JsString, z: JsString | Leq(x, y) && Leq(y, z) ensures Leq(x, z) { LeqTransitive(x, y, z); }
  }

  /** The keys in code unit order. */
  function SortedKeys(keys: set<JsString>): (r: seq<JsString>)
    ensures forall x :: x in r <==> x in keys
    ensures Ascending(r, Leq)
  {
    KeysAreOrdered();
    Sort(keys, Leq)
  }

  /** Items from the i-th on, each with the comma before it. */
  function PrintItems(v: Js, i: nat): JsString
    requires v.Arr? && Printable(v) && i <= |v.items|
    decreases v, |v.items| - i
  {
    if i == |v.items| then [] else [COMMA] + Print(v.items[i]) + PrintItems(v, i + 1)
  }

  /** Members under some keys, each with the comma before it. */
  function PrintMembers(v: Js, keys: seq<JsString>): JsString
    requires v.Obj? && Printable(v) && forall key :: key in keys ==> key in KeysOf(v.members)
    decreases v, |keys|
  {
    if keys == [] then
      []
    else
      [COMMA] + Quoted(keys[0]) + [COLON] + Print(v.members[IndexOf(v.members, keys[0])].value) + PrintMembers(v, keys[1..])
  }

  /** What `join(",")` leaves: no comma before the first. */
  function Joined(s: JsString): JsString {
    if s == [] then [] else s[1..]
  }

  function Print(v: Js): JsString
    requires Printable(v)
    decreases v
  {
    match v
    case Null => NULL_TEXT
    case Bool(b) => if b then TRUE_TEXT else FALSE_TEXT
    case Str(s) => Quoted(s)
    case Num(n) => PrintNumber(n)
    case Arr(items) => [OPEN_ARRAY] + Joined(PrintItems(v, 0)) + [CLOSE_ARRAY]
    case Obj(members) => [OPEN_OBJECT] + Joined(PrintMembers(v, SortedKeys(KeysOf(members)))) + [CLOSE_OBJECT]
  }

  /** The text of a printable value; anything else is an invalid request. */
  function Canonical(v: Js): Option<JsString> {
    if Printable(v) then Some(Print(v)) else None
  }

  // ----- Reading back -----

  function HexValue(u: CodeUnit): Option<nat> {
    if 48 <= u <= 57 then Some(u as nat - 48) else if 97 <= u <= 102 then Some(u as nat - 87) else None
  }

  function ReadHex4(s: JsString): Option<CodeUnit>
    requires |s| >= 4
  {
    var a, b, c, d := HexValue(s[0]), HexValue(s[1]), HexValue(s[2]), HexValue(s[3]);
    if a.Some? && b.Some? && c.Some? && d.Some? then
      Some((a.value * 4096 + b.value * 256 + c.value * 16 + d.value) as CodeUnit)
    else
      None
  }

  function Unescaped(letter: CodeUnit): Option<CodeUnit> {
    if letter == QUOTE then Some(QUOTE) else if letter == BACKSLASH then Some(BACKSLASH)
    else if letter == 98 then Some(8) else if letter == 102 then Some(12) else if letter == 110 then Some(10)
    else if letter == 114 then Some(13) else if letter == 116 then Some(9) else None
  }

  /** The characters up to the closing quote, and what follows it. */
  function ReadChars(s: JsString): (r: Option<(JsString, JsString)>)
    ensures r.Some? ==> |r.value.1| < |s|
    decreases |s|
  {
    if s == [] then None
    else if s[0] == QUOTE then Some(([], s[1..]))
    else if s[0] != BACKSLASH then Then(s[0], ReadChars(s[1..]))
    else if |s| < 2 then None
    else if s[1] == 117 then
      if |s| < 6 || ReadHex4(s[2..6]).None? then None else Then(ReadHex4(s[2..6]).value, ReadChars(s[6..]))
    else if Unescaped(s[1]).Some? then Then(Unescaped(s[1]).value, ReadChars(s[2..]))
    else None
  }

  function Then(u: CodeUnit, r: Option<(JsString, JsString)>): Option<(JsString, JsString)> {
    if r.Some? then Some(([u] + r.value.0, r.value.1)) else None
  }

  predicate DigitUnit(u: CodeUnit) { 48 <= u <= 57 }

  function DigitsOf(s: JsString): string
    decreases |s|
  {
    if s == [] || !DigitUnit(s[0]) then "" else [s[0] as int as char] + DigitsOf(s[1..])
  }

  lemma {:induction false} DigitsAreDigits(s: JsString)
    ensures AllDigits(DigitsOf(s)) && |DigitsOf(s)| <= |s|
    decreases |s|
  {
    if s != [] && DigitUnit(s[0]) {
      DigitsAreDigits(s[1..]);
    }
  }

  function ReadNumber(s: JsString): (r: Option<(Json, JsString)>)
    ensures r.Some? ==> |r.value.1| < |s|
  {
    var negative := s != [] && s[0] == MINUS;
    var body := if negative then s[1..] else s;
    DigitsAreDigits(body);
    var digits := DigitsOf(body);
    if !Numerals.Canonical(digits) then None
    else Some((JNum(if negative then -(Numerals.Value(digits) as int) else Numerals.Value(digits)), body[|digits|..]))
  }

  predicate Starts(s: JsString, text: JsString) {
    |text| <= |s| && s[..|text|] == text
  }

  function ReadValue(s: JsString): (r: Option<(Json, JsString)>)
    ensures r.Some? ==> |r.value.1| < |s|
    decreases |s|, 0
  {
    if s == [] then None
    else if Starts(s, NULL_TEXT) then Some((JNull, s[4..]))
    else if Starts(s, TRUE_TEXT) then Some((JBool(true), s[4..]))
    else if Starts(s, FALSE_TEXT) then Some((JBool(false), s[5..]))
    else if s[0] == QUOTE then
      var r := ReadChars(s[1..]);
      if r.None? then None else Some((JStr(r.value.0), r.value.1))
    else if s[0] == OPEN_ARRAY then
      if |s| > 1 && s[1] == CLOSE_ARRAY then Some((JArr([]), s[2..]))
      else
        var r := ReadItems(s[1..]);
        if r.None? then None else Some((JArr(r.value.0), r.value.1))
    else if s[0] == OPEN_OBJECT then
      if |s| > 1 && s[1] == CLOSE_OBJECT then Some((JObj(map[]), s[2..]))
      else
        var r := ReadMembers(s[1..]);
        if r.None? then None else Some((JObj(r.value.0), r.value.1))
    else ReadNumber(s)
  }

  /** One or more items, up to the closing bracket. */
  function ReadItems(s: JsString): (r: Option<(seq<Json>, JsString)>)
    ensures r.Some? ==> |r.value.1| < |s|
    decreases |s|, 1
  {
    var first := ReadValue(s);
    if first.None? || first.value.1 == [] then None
    else if first.value.1[0] == CLOSE_ARRAY then Some(([first.value.0], first.value.1[1..]))
    else if first.value.1[0] != COMMA then None
    else
      var rest := ReadItems(first.value.1[1..]);
      if rest.None? then None else Some(([first.value.0] + rest.value.0, rest.value.1))
  }

  /** One or more members, up to the closing brace. */
  function ReadMembers(s: JsString): (r: Option<(map<JsString, Json>, JsString)>)
    ensures r.Some? ==> |r.value.1| < |s|
    decreases |s|, 1
  {
    if s == [] || s[0] != QUOTE then None
    else
      var key := ReadChars(s[1..]);
      if key.None? || key.value.1 == [] || key.value.1[0] != COLON then None
      else
        var value := ReadValue(key.value.1[1..]);
        if value.None? || value.value.1 == [] then None
        else if value.value.1[0] == CLOSE_OBJECT then Some((map[key.value.0 := value.value.0], value.value.1[1..]))
        else if value.value.1[0] != COMMA then None
        else
          var rest := ReadMembers(value.value.1[1..]);
          if rest.None? then None else Some((rest.value.0[key.value.0 := value.value.0], rest.value.1))
  }

  // ----- Strings read back -----

  lemma Hex4Reads(u: CodeUnit)
    ensures ReadHex4(Hex4(u)) == Some(u)
  {
    var n := u as nat;
    assert n == n / 4096 * 4096 + n / 256 % 16 * 256 + n / 16 % 16 * 16 + n % 16;
  }

  lemma EscapedUnitReads(u: CodeUnit, after: JsString)
    ensures ReadChars(EscapeUnit(u) + after) == Then(u, ReadChars(after))
  {
    var s := EscapeUnit(u) + after;
    if ShortEscape(u).Some? {
      assert s[2..] == after;
    } else if u < 32 || IsHigh(u) || IsLow(u) {
      Hex4Reads(u);
      assert s[2..6] == Hex4(u) && s[6..] == after;
    } else {
      assert s[1..] == after;
    }
  }

  lemma RawUnitReads(u: CodeUnit, after: JsString)
    requires u != QUOTE && u != BACKSLASH
    ensures ReadChars([u] + after) == Then(u, ReadChars(after))
  {
    assert ([u] + after)[1..] == after;
  }

  lemma ClosingQuoteReads(rest: JsString)
    ensures ReadChars([QUOTE] + rest) == Some(([], rest))
  {
    assert ([QUOTE] + rest)[1..] == rest;
  }

  /** An escaped string with its closing quote, and what follows. */
  function Closed(s: JsString, rest: JsString): JsString {
    Escape(s) + [QUOTE] + rest
  }

  predicate PairFirst(s: JsString) {
    |s| > 1 && IsHigh(s[0]) && IsLow(s[1])
  }

  lemma ClosedStep(s: JsString, rest: JsString)
    requires s != []
    ensures if PairFirst(s) then Closed(s, rest) == [s[0]] + ([s[1]] + Closed(s[2..], rest))
            else Closed(s, rest) == EscapeUnit(s[0]) + Closed(s[1..], rest)
  {
    hide EscapeUnit;
    if PairFirst(s) {
      assert [s[0], s[1]] + Escape(s[2..]) + [QUOTE] + rest == [s[0]] + ([s[1]] + (Escape(s[2..]) + [QUOTE] + rest));
    } else {
      assert EscapeUnit(s[0]) + Escape(s[1..]) + [QUOTE] + rest == EscapeUnit(s[0]) + (Escape(s[1..]) + [QUOTE] + rest);
    }
  }

  lemma {:induction false} EscapeReads(s: JsString, rest: JsString)
    ensures ReadChars(Closed(s, rest)) == Some((s, rest))
    decreases |s|
  {
    hide ReadChars, EscapeUnit, Closed;
    if s == [] {
      ClosingQuoteReads(rest);
      NothingEscaped(rest);
    } else {
      ClosedStep(s, rest);
      if PairFirst(s) {
        EscapeReads(s[2..], rest);
        RawUnitReads(s[1], Closed(s[2..], rest));
        RawUnitReads(s[0], [s[1]] + Closed(s[2..], rest));
        assert [s[0]] + ([s[1]] + s[2..]) == s;
      } else {
        EscapeReads(s[1..], rest);
        EscapedUnitReads(s[0], Closed(s[1..], rest));
        assert [s[0]] + s[1..] == s;
      }
    }
  }

  lemma NothingEscaped(rest: JsString)
    ensures Closed([], rest) == [QUOTE] + rest
  {
    assert [] + [QUOTE] + rest == [QUOTE] + rest;
  }

  lemma QuotedReads(s: JsString, rest: JsString)
    ensures ReadChars((Quoted(s) + rest)[1..]) == Some((s, rest))
  {
    EscapeReads(s, rest);
    assert (Quoted(s) + rest)[1..] == Closed(s, rest);
  }

  // ----- Numbers read back -----

  /** A number ends where no digit follows. */
  predicate Ends(rest: JsString) {
    rest == [] || !DigitUnit(rest[0])
  }

  lemma {:induction false} DigitsRead(s: string, rest: JsString)
    requires AllDigits(s) && Ends(rest)
    ensures |Ascii(s)| == |s| && DigitsOf(Ascii(s) + rest) == s && (Ascii(s) + rest)[|s|..] == rest
    decreases |s|
  {
    if s != "" {
      DigitsRead(s[1..], rest);
      assert (Ascii(s) + rest)[1..] == Ascii(s[1..]) + rest;
      assert s == [s[0]] + s[1..];
    } else {
      assert Ascii(s) + rest == rest;
    }
  }

  /** Reading a run of digits, with or without a sign before it. */
  lemma DigitsReadAs(digits: string, rest: JsString, negative: bool)
    requires Numerals.Canonical(digits) && Ends(rest)
    ensures var value: int := Numerals.Value(digits);
            ReadNumber((if negative then [MINUS] else []) + Ascii(digits) + rest) == Some((JNum(if negative then -value else value), rest))
  {
    hide Numerals.Value;
    DigitsRead(digits, rest);
    FirstIsDigit(digits);
    var body := Ascii(digits) + rest;
    if negative {
      assert [MINUS] + Ascii(digits) + rest == [MINUS] + body && ([MINUS] + body)[1..] == body;
    } else {
      assert [] + Ascii(digits) + rest == body && body[0] != MINUS;
    }
  }

  lemma NumberReads(n: int, rest: JsString)
    requires Ends(rest)
    ensures ReadNumber(PrintNumber(n) + rest) == Some((JNum(n), rest))
  {
    hide Numerals.Value, Numerals.Print, ReadNumber;
    var size := if n < 0 then -n else n;
    PrintReads(size);
    DigitsReadAs(Numerals.Print(size), rest, n < 0);
    if n < 0 {
      assert PrintInt(n) == ['-'] + Numerals.Print(size) && PrintInt(n)[1..] == Numerals.Print(size);
      assert PrintNumber(n) + rest == [MINUS] + Ascii(Numerals.Print(size)) + rest;
    } else {
      assert PrintNumber(n) + rest == [] + Ascii(Numerals.Print(size)) + rest;
    }
  }

  lemma FirstIsDigit(s: string)
    requires AllDigits(s) && s != ""
    ensures Ascii(s) != [] && DigitUnit(Ascii(s)[0])
  {
  }

  // ----- Values read back -----

  /** What the value means, and what follows its text. */
  ghost predicate Reads(v: Js, rest: JsString)
    requires Printable(v)
  {
    ReadValue(Print(v) + rest) == Some((Meaning(v), rest))
  }

  lemma Literal(text: JsString, rest: JsString)
    ensures Starts(text + rest, text) && (text + rest)[|text|..] == rest
  {
  }

  /** How each printed value begins. */
  lemma {:induction false} Begins(v: Js)
    requires Printable(v)
    ensures Print(v) != []
    ensures v.Str? ==> Print(v)[0] == QUOTE
    ensures v.Num? ==> Print(v)[0] == MINUS || DigitUnit(Print(v)[0])
    ensures v.Arr? ==> Print(v)[0] == OPEN_ARRAY
    ensures v.Obj? ==> Print(v)[0] == OPEN_OBJECT
    ensures Print(v)[0] != CLOSE_ARRAY && Print(v)[0] != CLOSE_OBJECT
  {
    hide PrintItems, PrintMembers, Escape, Numerals.Print;
    if v.Num? {
      var size := if v.n < 0 then -v.n else v.n;
      PrintReads(size);
      FirstIsDigit(Numerals.Print(size));
    }
  }

  lemma NoLiteral(s: JsString)
    requires s != [] && s[0] != 110 && s[0] != 116 && s[0] != 102
    ensures !Starts(s, NULL_TEXT) && !Starts(s, TRUE_TEXT) && !Starts(s, FALSE_TEXT)
  {
    assert |s| >= 4 ==> s[..4][0] == s[0];
    assert |s| >= 5 ==> s[..5][0] == s[0];
  }

  lemma LeafReads(v: Js, rest: JsString)
    requires Printable(v) && !v.Arr? && !v.Obj? && Ends(rest)
    ensures Reads(v, rest)
  {
    hide ReadNumber, ReadChars, PrintNumber, Escape;
    Begins(v);
    if v.Str? || v.Num? {
      NoLiteral(Print(v) + rest);
    }
    match v
    case Null => Literal(NULL_TEXT, rest);
    case Bool(b) => Literal(if b then TRUE_TEXT else FALSE_TEXT, rest);
    case Str(s) => QuotedReads(s, rest);
    case Num(n) => NumberReads(n, rest);
  }

  /** The items from the i-th on, without a comma before the first, and the closing bracket. */
  function ItemsText(v: Js, i: nat, rest: JsString): JsString
    requires v.Arr? && Printable(v) && i < |v.items|
  {
    Print(v.items[i]) + (PrintItems(v, i + 1) + [CLOSE_ARRAY] + rest)
  }

  lemma Regroup3(a: JsString, b: JsString, c: JsString, d: JsString, e: JsString)
    ensures (a + b + c) + d + e == a + (b + (c + d + e))
  {
    assert (a + b + c) + d + e == a + b + c + d + e;
  }

  lemma ItemsTextIs(v: Js, i: nat, rest: JsString)
    requires v.Arr? && Printable(v) && i < |v.items|
    ensures PrintItems(v, i + 1) + [CLOSE_ARRAY] + rest
         == if i + 1 == |v.items| then [CLOSE_ARRAY] + rest else [COMMA] + ItemsText(v, i + 1, rest)
  {
    hide Print;
    if i + 1 == |v.items| {
      assert PrintItems(v, i + 1) + [CLOSE_ARRAY] + rest == [CLOSE_ARRAY] + rest;
    } else {
      Regroup3([COMMA], Print(v.items[i + 1]), PrintItems(v, i + 2), [CLOSE_ARRAY], rest);
    }
  }

  function MeaningsFrom(v: Js, i: nat): seq<Json>
    requires v.Arr? && Printable(v) && i <= |v.items|
    decreases |v.items| - i
  {
    if i == |v.items| then [] else [Meaning(v.items[i])] + MeaningsFrom(v, i + 1)
  }

  lemma {:induction false} MeaningsAre(v: Js, i: nat)
    requires v.Arr? && Printable(v) && i <= |v.items|
    ensures MeaningOfAll(v, i) + MeaningsFrom(v, i) == MeaningOfAll(v, |v.items|)
    decreases |v.items| - i
  {
    if i == |v.items| {
      assert MeaningOfAll(v, i) + [] == MeaningOfAll(v, i);
    } else {
      MeaningsAre(v, i + 1);
      assert MeaningOfAll(v, i) + ([Meaning(v.items[i])] + MeaningsFrom(v, i + 1))
          == (MeaningOfAll(v, i) + [Meaning(v.items[i])]) + MeaningsFrom(v, i + 1);
    }
  }

  lemma {:induction false} ItemsRead(v: Js, i: nat, rest: JsString)
    requires v.Arr? && Printable(v) && i < |v.items|
    ensures ReadItems(ItemsText(v, i, rest)) == Some((MeaningsFrom(v, i), rest))
    decreases v, |v.items| - i
  {
    hide ReadValue, Print, Meaning;
    var after := PrintItems(v, i + 1) + [CLOSE_ARRAY] + rest;
    ItemsTextIs(v, i, rest);
    PrintReadsBack(v.items[i], after);
    assert Reads(v.items[i], after);
    if i + 1 == |v.items| {
      assert after[1..] == rest;
      assert MeaningsFrom(v, i + 1) == [] && MeaningsFrom(v, i) == [Meaning(v.items[i])];
    } else {
      assert after[1..] == ItemsText(v, i + 1, rest);
      ItemsRead(v, i + 1, rest);
    }
  }

  lemma ArrayText(v: Js, rest: JsString)
    requires v.Arr? && Printable(v)
    ensures Print(v) + rest == if v.items == [] then [OPEN_ARRAY, CLOSE_ARRAY] + rest else [OPEN_ARRAY] + ItemsText(v, 0, rest)
  {
    hide Meaning;
    if v.items != [] {
      var tail := PrintItems(v, 1);
      assert PrintItems(v, 0) == [COMMA] + Print(v.items[0]) + tail;
      assert Joined(PrintItems(v, 0)) == Print(v.items[0]) + tail;
      assert [OPEN_ARRAY] + (Print(v.items[0]) + tail) + [CLOSE_ARRAY] + rest == [OPEN_ARRAY] + (Print(v.items[0]) + (tail + [CLOSE_ARRAY] + rest));
    } else {
      assert [OPEN_ARRAY] + [] + [CLOSE_ARRAY] == [OPEN_ARRAY, CLOSE_ARRAY];
    }
  }

  lemma {:induction false} ArrayReads(v: Js, rest: JsString)
    requires v.Arr? && Printable(v)
    ensures Reads(v, rest)
    decreases v, |v.items| + 1
  {
    hide Print, ReadItems, PrintItems, ItemsText;
    ArrayText(v, rest);
    var text := Print(v) + rest;
    NoLiteral(text);
    if v.items == [] {
      assert text[2..] == rest;
      assert MeaningOfAll(v, 0) == [];
    } else {
      assert text[1..] == ItemsText(v, 0, rest);
      ItemsRead(v, 0, rest);
      ItemsBegin(v, rest);
      MeaningsAre(v, 0);
      assert MeaningOfAll(v, 0) + MeaningsFrom(v, 0) == MeaningsFrom(v, 0);
    }
  }

  lemma ItemsBegin(v: Js, rest: JsString)
    requires v.Arr? && Printable(v) && v.items != []
    ensures ItemsText(v, 0, rest) != [] && ItemsText(v, 0, rest)[0] != CLOSE_ARRAY
  {
    hide Print, PrintItems;
    Begins(v.items[0]);
  }

  // ----- Objects -----

  function MemberOf(v: Js, key: JsString): Js
    requires v.Obj? && key in KeysOf(v.members)
  {
    v.members[IndexOf(v.members, key)].value
  }

  /** The members under some keys, without a comma before the first, and the closing brace. */
  function MembersText(v: Js, keys: seq<JsString>, rest: JsString): JsString
    requires v.Obj? && Printable(v) && keys != [] && forall key :: key in keys ==> key in KeysOf(v.members)
  {
    Quoted(keys[0]) + ([COLON] + (Print(MemberOf(v, keys[0])) + (PrintMembers(v, keys[1..]) + [CLOSE_OBJECT] + rest)))
  }

  lemma MembersTextIs(v: Js, keys: seq<JsString>, rest: JsString)
    requires v.Obj? && Printable(v) && keys != [] && forall key :: key in keys ==> key in KeysOf(v.members)
    ensures PrintMembers(v, keys) + [CLOSE_OBJECT] + rest == [COMMA] + MembersText(v, keys, rest)
  {
    hide Quoted, Print, IndexOf;
    var q, p, m := Quoted(keys[0]), Print(MemberOf(v, keys[0])), PrintMembers(v, keys[1..]);
    assert PrintMembers(v, keys) == [COMMA] + q + [COLON] + p + m;
    Regroup([COMMA], q, [COLON], p, m, [CLOSE_OBJECT] + rest);
    assert (m + [CLOSE_OBJECT]) + rest == m + ([CLOSE_OBJECT] + rest);
    assert (PrintMembers(v, keys) + [CLOSE_OBJECT]) + rest == PrintMembers(v, keys) + ([CLOSE_OBJECT] + rest);
  }

  lemma Regroup(a: JsString, b: JsString, c: JsString, d: JsString, e: JsString, f: JsString)
    ensures (a + b + c + d + e) + f == a + (b + (c + (d + (e + f))))
  {
  }

  function MeaningsUnder(v: Js, keys: seq<JsString>): map<JsString, Json>
    requires v.Obj? && Printable(v) && forall key :: key in keys ==> key in KeysOf(v.members)
  {
    map key | key in keys :: Meaning(MemberOf(v, key))
  }

  lemma KeyReads(key: JsString, after: JsString)
    ensures Quoted(key) + after != [] && (Quoted(key) + after)[0] == QUOTE
    ensures ReadChars((Quoted(key) + after)[1..]) == Some((key, after))
  {
    QuotedReads(key, after);
  }

  lemma {:induction false} MembersRead(v: Js, keys: seq<JsString>, rest: JsString)
    requires v.Obj? && Printable(v) && keys != [] && forall key :: key in keys ==> key in KeysOf(v.members)
    ensures ReadMembers(MembersText(v, keys, rest)) == Some((MeaningsUnder(v, keys), rest))
    decreases v, |keys|
  {
    hide ReadValue, Print, Meaning, ReadChars, Quoted, IndexOf;
    var key, others := keys[0], keys[1..];
    var member := MemberOf(v, key);
    var after := PrintMembers(v, others) + [CLOSE_OBJECT] + rest;
    KeyReads(key, [COLON] + (Print(member) + after));
    assert ([COLON] + (Print(member) + after))[1..] == Print(member) + after;
    MemberSmaller(v, key);
    PrintReadsBack(member, after);
    assert Reads(member, after);
    if others == [] {
      assert after == [CLOSE_OBJECT] + rest && after[1..] == rest;
      assert MeaningsUnder(v, keys) == map[key := Meaning(member)];
    } else {
      MembersTextIs(v, others, rest);
      assert after[1..] == MembersText(v, others, rest);
      MembersRead(v, others, rest);
      assert MeaningsUnder(v, keys) == MeaningsUnder(v, others)[key := Meaning(member)];
    }
  }

  lemma MemberSmaller(v: Js, key: JsString)
    requires v.Obj? && Printable(v) && key in KeysOf(v.members)
    ensures MemberOf(v, key) < v && Printable(MemberOf(v, key))
  {
    assert v.members[IndexOf(v.members, key)] < v;
  }

  lemma WithoutComma(members: JsString, text: JsString, rest: JsString)
    requires members != [] && members + [CLOSE_OBJECT] + rest == [COMMA] + text
    ensures [OPEN_OBJECT] + Joined(members) + [CLOSE_OBJECT] + rest == [OPEN_OBJECT] + text
  {
    var tail := [CLOSE_OBJECT] + rest;
    assert members + [CLOSE_OBJECT] + rest == members + tail;
    assert (members + tail)[1..] == members[1..] + tail;
    assert ([COMMA] + text)[1..] == text;
    assert [OPEN_OBJECT] + members[1..] + [CLOSE_OBJECT] + rest == [OPEN_OBJECT] + (members[1..] + tail);
  }

  lemma ObjectText(v: Js, rest: JsString)
    requires v.Obj? && Printable(v)
    ensures var keys := SortedKeys(KeysOf(v.members));
            Print(v) + rest == if keys == [] then [OPEN_OBJECT, CLOSE_OBJECT] + rest else [OPEN_OBJECT] + MembersText(v, keys, rest)
  {
    hide Meaning, Quoted, Sort, MembersText, PrintMembers;
    var keys := SortedKeys(KeysOf(v.members));
    if keys == [] {
      NoMembers(v);
      assert [OPEN_OBJECT] + [] + [CLOSE_OBJECT] == [OPEN_OBJECT, CLOSE_OBJECT];
    } else {
      MembersTextIs(v, keys, rest);
      StartsWithComma(v, keys);
      WithoutComma(PrintMembers(v, keys), MembersText(v, keys, rest), rest);
    }
  }

  lemma NoMembers(v: Js)
    requires v.Obj? && Printable(v)
    ensures PrintMembers(v, []) == []
  {
  }

  lemma StartsWithComma(v: Js, keys: seq<JsString>)
    requires v.Obj? && Printable(v) && keys != [] && forall key :: key in keys ==> key in KeysOf(v.members)
    ensures PrintMembers(v, keys) != [] && PrintMembers(v, keys)[0] == COMMA
  {
    hide Quoted;
  }

  lemma {:induction false} ObjectReads(v: Js, rest: JsString)
    requires v.Obj? && Printable(v)
    ensures Reads(v, rest)
    decreases v, |SortedKeys(KeysOf(v.members))| + 1
  {
    hide Print, ReadMembers, PrintMembers, MembersText, Sort;
    ObjectText(v, rest);
    var text, keys := Print(v) + rest, SortedKeys(KeysOf(v.members));
    NoLiteral(text);
    if keys == [] {
      assert text[2..] == rest;
      assert Meaning(v).members == map[];
    } else {
      assert text[1..] == MembersText(v, keys, rest);
      MembersRead(v, keys, rest);
      MembersBegin(v, keys, rest);
      assert Meaning(v).members == MeaningsUnder(v, keys);
    }
  }

  lemma MembersBegin(v: Js, keys: seq<JsString>, rest: JsString)
    requires v.Obj? && Printable(v) && keys != [] && forall key :: key in keys ==> key in KeysOf(v.members)
    ensures MembersText(v, keys, rest) != [] && MembersText(v, keys, rest)[0] == QUOTE
  {
    hide Print, PrintMembers, Escape;
  }

  /** The parser is a left inverse of the printer: it recovers what was printed, up to key order. */
  lemma {:induction false} PrintReadsBack(v: Js, rest: JsString)
    requires Printable(v) && Ends(rest)
    ensures ReadValue(Print(v) + rest) == Some((Meaning(v), rest))
    decreases v
  {
    hide Print, ReadValue, Meaning;
    if v.Arr? {
      ArrayReads(v, rest);
    } else if v.Obj? {
      ObjectReads(v, rest);
    } else {
      LeafReads(v, rest);
    }
    assert Reads(v, rest);
  }

  /** Reads a whole text. */
  function Parse(text: JsString): Option<Json> {
    var r := ReadValue(text);
    if r.Some? && r.value.1 == [] then Some(r.value.0) else None
  }

  lemma ParsePrints(v: Js)
    requires Printable(v)
    ensures Parse(Print(v)) == Some(Meaning(v))
  {
    hide ReadValue, Print, Meaning;
    PrintReadsBack(v, []);
    assert Print(v) + [] == Print(v);
  }

  // ----- Identity of texts -----

  lemma {:induction false} SameItems(a: Js, b: Js, i: nat)
    requires a.Arr? && b.Arr? && Printable(a) && Printable(b) && Meaning(a) == Meaning(b) && i <= |a.items|
    ensures |b.items| == |a.items| && PrintItems(a, i) == PrintItems(b, i)
    decreases a, |a.items| - i
  {
    hide Print;
    assert MeaningOfAll(a, |a.items|) == MeaningOfAll(b, |b.items|);
    if i < |a.items| {
      assert MeaningOfAll(a, |a.items|)[i] == MeaningOfAll(b, |b.items|)[i];
      SameMeaningSameText(a.items[i], b.items[i]);
      SameItems(a, b, i + 1);
    }
  }

  lemma SameMember(a: Js, b: Js, key: JsString)
    requires a.Obj? && b.Obj? && Printable(a) && Printable(b) && Meaning(a) == Meaning(b) && key in KeysOf(a.members)
    ensures key in KeysOf(b.members) && Meaning(MemberOf(a, key)) == Meaning(MemberOf(b, key))
  {
    assert key in Meaning(a).members && key in Meaning(b).members;
    assert Meaning(a).members[key] == Meaning(b).members[key];
  }

  lemma {:induction false} SameMembers(a: Js, b: Js, keys: seq<JsString>)
    requires a.Obj? && b.Obj? && Printable(a) && Printable(b) && Meaning(a) == Meaning(b)
    requires forall key :: key in keys ==> key in KeysOf(a.members) && key in KeysOf(b.members)
    ensures PrintMembers(a, keys) == PrintMembers(b, keys)
    decreases a, |keys|
  {
    hide Print, Quoted, Meaning, IndexOf;
    if keys != [] {
      SameMember(a, b, keys[0]);
      MemberSmaller(a, keys[0]);
      MemberSmaller(b, keys[0]);
      SameMeaningSameText(MemberOf(a, keys[0]), MemberOf(b, keys[0]));
      SameMembers(a, b, keys[1..]);
    }
  }

  lemma {:induction false} SameMeaningSameText(a: Js, b: Js)
    requires Printable(a) && Printable(b) && Meaning(a) == Meaning(b)
    ensures Print(a) == Print(b)
    decreases a, if a.Obj? then |SortedKeys(KeysOf(a.members))| + 1 else if a.Arr? then |a.items| + 1 else 0
  {
    hide Quoted, PrintItems, PrintMembers, PrintNumber, Sort;
    match a
    case Arr(_) => SameItems(a, b, 0);
    case Obj(_) =>
      assert KeysOf(a.members) == Meaning(a).members.Keys == Meaning(b).members.Keys == KeysOf(b.members);
      SameMembers(a, b, SortedKeys(KeysOf(a.members)));
    case _ =>
  }

  /** Two values have one canonical text exactly when they are equal up to the order of object keys. */
  lemma TextIdentifies(a: Js, b: Js)
    requires Printable(a) && Printable(b)
    ensures Canonical(a) == Canonical(b) <==> Meaning(a) == Meaning(b)
  {
    hide Print, Meaning, ReadValue;
    ParsePrints(a);
    ParsePrints(b);
    if Meaning(a) == Meaning(b) {
      SameMeaningSameText(a, b);
    }
  }

  /** Listing an object's members in another order does not change what it means. */
  lemma OrderOfKeysIsFree(a: seq<Member>, b: seq<Member>)
    requires Printable(Obj(a)) && Printable(Obj(b)) && forall m :: m in a <==> m in b
    ensures Meaning(Obj(a)) == Meaning(Obj(b))
  {
    var x, y := Meaning(Obj(a)).members, Meaning(Obj(b)).members;
    forall key ensures key in KeysOf(a) <==> key in KeysOf(b) {}
    forall key | key in KeysOf(a) ensures x[key] == y[key] {
      var i, j := IndexOf(a, key), IndexOf(b, key);
      assert a[i] in a && b[j] in b;
      var k :| 0 <= k < |b| && b[k] == a[i];
      assert j == k;
    }
    assert x == y;
  }
}
