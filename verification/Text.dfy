/**
 JavaScript strings as sequences of UTF-16 code units, ordered the way `<` and
 the default `sort` order them.
 */
module Text {

  newtype CodeUnit = x: int | 0 <= x < 0x1_0000

  type JsString = seq<CodeUnit>

  predicate Leq(a: JsString, b: JsString) {
    a == [] || (b != [] && (a[0] < b[0] || (a[0] == b[0] && Leq(a[1..], b[1..]))))
  }

  lemma {:induction false} LeqReflexive(a: JsString)
    ensures Leq(a, a)
  {
    if a != [] {
      LeqReflexive(a[1..]);
    }
  }

  lemma {:induction false} LeqTotal(a: JsString, b: JsString)
    ensures Leq(a, b) || Leq(b, a)
  {
    if a != [] && b != [] && a[0] == b[0] {
      LeqTotal(a[1..], b[1..]);
    }
  }

  lemma {:induction false} LeqAntisymmetric(a: JsString, b: JsString)
    requires Leq(a, b) && Leq(b, a)
    ensures a == b
  {
    if a != [] && b != [] {
      LeqAntisymmetric(a[1..], b[1..]);
      assert a == [a[0]] + a[1..] && b == [b[0]] + b[1..];
    }
  }

  lemma {:induction false} LeqTransitive(a: JsString, b: JsString, c: JsString)
    requires Leq(a, b) && Leq(b, c)
    ensures Leq(a, c)
  {
    if a != [] && a[0] == b[0] && b[0] == c[0] {
      LeqTransitive(a[1..], b[1..], c[1..]);
    }
  }
}

/** Sorting a finite set by a total order: the one ascending listing of its members. */
module Sorting {

  ghost predicate TotalOrder<T(!new)>(leq: (T, T) -> bool) {
    && (forall x :: leq(x, x))
    && (forall x, y :: leq(x, y) || leq(y, x))
    && (forall x, y :: leq(x, y) && leq(y, x) ==> x == y)
    && (forall x, y, z :: leq(x, y) && leq(y, z) ==> leq(x, z))
  }

  /** Strictly ascending, so without repetition. */
  ghost predicate Ascending<T>(s: seq<T>, leq: (T, T) -> bool) {
    forall i, j :: 0 <= i < j < |s| ==> leq(s[i], s[j]) && s[i] != s[j]
  }

  lemma {:induction false} HasLeast<T(!new)>(s: set<T>, leq: (T, T) -> bool) returns (least: T)
    requires s != {} && TotalOrder(leq)
    ensures least in s && forall x :: x in s ==> leq(least, x)
    decreases |s|
  {
    least :| least in s;
    var rest := s - {least};
    if rest != {} {
      var other := HasLeast(rest, leq);
      if !leq(least, other) {
        least := other;
      }
    }
  }

  /** The members of s in ascending order. */
  function Sort<T(!new)>(s: set<T>, leq: (T, T) -> bool): (r: seq<T>)
    requires TotalOrder(leq)
    ensures forall x :: x in r <==> x in s
    ensures Ascending(r, leq)
    ensures |r| == |s|
    decreases |s|
  {
    if s == {} then
      []
    else
      assert exists m :: m in s && forall x :: x in s ==> leq(m, x) by {
        var m := HasLeast(s, leq);
      }
      var m :| m in s && forall x :: x in s ==> leq(m, x);
      [m] + Sort(s - {m}, leq)
  }

  /** There is only one ascending listing of a set. */
  lemma {:induction false} AscendingUnique<T(!new)>(a: seq<T>, b: seq<T>, leq: (T, T) -> bool)
    requires TotalOrder(leq) && Ascending(a, leq) && Ascending(b, leq)
    requires forall x :: x in a <==> x in b
    ensures a == b
  {
    assert forall i :: 0 <= i < |a| ==> a[i] in b;
    assert forall i :: 0 <= i < |b| ==> b[i] in a;
    if a != [] && b != [] {
      assert a[0] in b && b[0] in a;
      assert leq(a[0], b[0]) && leq(b[0], a[0]);
      var a1, b1 := a[1..], b[1..];
      forall x ensures x in a1 <==> x in b1 {
        if x in a1 { assert x in a && x != a[0]; }
        if x in b1 { assert x in b && x != b[0]; }
      }
      AscendingUnique(a1, b1, leq);
      assert a == [a[0]] + a1 && b == [b[0]] + b1;
    }
  }
}
