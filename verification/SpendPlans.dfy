/** The order of one command's ledger entries matters only within a budget. */
module SpendPlans {
  import opened Wrappers
  import opened SpendTypes
  import opened SpendLedger
  import opened SpendCommands

  /** The two states give the trigger the same view of one budget. */
  ghost predicate SameBudget(a: Db, b: Db, policy: PolicyId) {
    && a.policies == b.policies && a.reservations == b.reservations
    && (forall slot: Slot :: slot.policy == policy ==>
          (slot in a.balances <==> slot in b.balances)
          && (slot in a.balances ==> a.balances[slot] == b.balances[slot]))
    && (forall hk: HoldKey :: hk.slot.policy == policy ==>
          (hk in a.holds <==> hk in b.holds) && (hk in a.holds ==> a.holds[hk] == b.holds[hk]))
  }

  lemma JudgeSees(a: Db, b: Db, e: Entry, clk: Clock)
    requires SameBudget(a, b, e.policy)
    ensures Judge(a, e, clk) == Judge(b, e, clk)
    ensures Judge(a, e, clk).Success? ==> Judge(a, e, clk).value.slot.policy == e.policy
  {
  }

  lemma Commute(db: Db, a: Entry, b: Entry, clk: Clock)
    requires a.policy != b.policy
    ensures ApplyAll(db, [a, b], clk).Success? <==> ApplyAll(db, [b, a], clk).Success?
    ensures ApplyAll(db, [a, b], clk).Success? ==> ApplyAll(db, [a, b], clk) == ApplyAll(db, [b, a], clk)
  {
    Pair(db, a, b, clk);
    Pair(db, b, a, clk);
    assert BothAdmitted(db, a, b, clk) <==> BothAdmitted(db, b, a, clk);
    if BothAdmitted(db, a, b, clk) {
      JudgeSees(db, db, a, clk);
      JudgeSees(db, db, b, clk);
      PostsCommute(db, a, b, Judge(db, a, clk).value, Judge(db, b, clk).value);
    }
  }

  lemma PostsCommute(db: Db, a: Entry, b: Entry, ra: Rows, rb: Rows)
    requires ra.slot != rb.slot && a.key != b.key
    ensures Post(Post(db, a, ra), b, rb) == Post(Post(db, b, rb), a, ra)
  {
    UpdatesCommute(db.balances, ra.slot, ra.balance, rb.slot, rb.balance);
    UpdatesCommute(db.holds, HoldKey(a.reservation, ra.slot), ra.hold, HoldKey(b.reservation, rb.slot), rb.hold);
    UpdatesCommute(db.entries, a.key, a.(period := Some(ra.slot.period)), b.key, b.(period := Some(rb.slot.period)));
  }

  lemma UpdatesCommute<K, V>(m: map<K, V>, k1: K, v1: V, k2: K, v2: V)
    requires k1 != k2
    ensures m[k1 := v1][k2 := v2] == m[k2 := v2][k1 := v1]
  {
  }

  /** Both entries are admitted by the state before either. */
  ghost predicate BothAdmitted(db: Db, a: Entry, b: Entry, clk: Clock) {
    && Judge(db, a, clk).Success? && Judge(db, b, clk).Success?
    && ConstraintsHold(db, a, Judge(db, a, clk).value) && ConstraintsHold(db, b, Judge(db, b, clk).value)
    && a.key != b.key
  }

  lemma Pair(db: Db, a: Entry, b: Entry, clk: Clock)
    requires a.policy != b.policy
    ensures ApplyAll(db, [a, b], clk).Success? <==> BothAdmitted(db, a, b, clk)
    ensures BothAdmitted(db, a, b, clk) ==>
              ApplyAll(db, [a, b], clk)
              == Success(Post(Post(db, a, Judge(db, a, clk).value), b, Judge(db, b, clk).value))
  {
    assert [a, b][1..] == [b];
    if ApplyEntry(db, a, clk).Success? {
      var db1 := ApplyEntry(db, a, clk).value;
      JudgeSees(db, db, a, clk);
      JudgeSees(db, db1, b, clk);
      assert ApplyAll(db, [a, b], clk) == ApplyAll(db1, [b], clk);
      match ApplyEntry(db1, b, clk)
      case Failure(_) =>
      case Success(db2) => assert ApplyAll(db2, [b][1..], clk) == Success(db2);
    }
  }

  /** Both refuse, or both end in the same tables. */
  ghost predicate Alike(x: Result<Db, LedgerError>, y: Result<Db, LedgerError>) {
    (x.Success? <==> y.Success?) && (x.Success? ==> x == y)
  }

  lemma Continue(db: Db, a: seq<Entry>, b: seq<Entry>, tail: seq<Entry>, clk: Clock)
    requires Alike(ApplyAll(db, a, clk), ApplyAll(db, b, clk))
    ensures Alike(ApplyAll(db, a + tail, clk), ApplyAll(db, b + tail, clk))
  {
    ApplyAllAppend(db, a, tail, clk);
    ApplyAllAppend(db, b, tail, clk);
  }

  lemma {:induction false} MoveToFront(db: Db, before: seq<Entry>, e: Entry, clk: Clock)
    requires forall x :: x in before ==> x.policy != e.policy
    ensures Alike(ApplyAll(db, before + [e], clk), ApplyAll(db, [e] + before, clk))
    decreases |before|
  {
    hide ApplyEntry;
    if before == [] {
      assert before + [e] == [e] + before;
    } else {
      var a, rest := before[0], before[1..];
      Commute(db, a, e, clk);
      Continue(db, [a, e], [e, a], rest, clk);
      assert [a, e] + rest == [a] + ([e] + rest) && [e, a] + rest == [e] + before;
      assert before + [e] == [a] + (rest + [e]);
      Stepwise(db, a, rest + [e], clk);
      Stepwise(db, a, [e] + rest, clk);
      if ApplyEntry(db, a, clk).Success? {
        MoveToFront(ApplyEntry(db, a, clk).value, rest, e, clk);
      }
    }
  }

  lemma Stepwise(db: Db, e: Entry, rest: seq<Entry>, clk: Clock)
    ensures ApplyAll(db, [e] + rest, clk) == AndThen(ApplyEntry(db, e, clk), rest, clk)
  {
    assert ([e] + rest)[1..] == rest;
  }

  lemma {:induction false} ForPolicyAppend(a: seq<Entry>, b: seq<Entry>, policy: PolicyId)
    ensures ForPolicy(a + b, policy) == ForPolicy(a, policy) + ForPolicy(b, policy)
    decreases |a|
  {
    if a == [] {
      assert a + b == b;
    } else {
      assert (a + b)[1..] == a[1..] + b;
      ForPolicyAppend(a[1..], b, policy);
    }
  }

  lemma {:induction false} ForPolicyNone(a: seq<Entry>, policy: PolicyId)
    requires forall x :: x in a ==> x.policy != policy
    ensures ForPolicy(a, policy) == []
    decreases |a|
  {
    if a != [] {
      ForPolicyNone(a[1..], policy);
    }
  }

  /** The first entry of a budget, with what comes before it. */
  lemma {:induction false} FirstOf(y: seq<Entry>, policy: PolicyId) returns (before: seq<Entry>, after: seq<Entry>)
    requires ForPolicy(y, policy) != []
    ensures y == before + [ForPolicy(y, policy)[0]] + after
    ensures forall x :: x in before ==> x.policy != policy
    ensures ForPolicy(y, policy)[0].policy == policy
    decreases |y|
  {
    if y[0].policy == policy {
      before, after := [], y[1..];
    } else {
      var b, a := FirstOf(y[1..], policy);
      before, after := [y[0]] + b, a;
    }
  }

  lemma RemoveFirst(e: Entry, rest: seq<Entry>, before: seq<Entry>, after: seq<Entry>, policy: PolicyId)
    requires forall x :: x in before ==> x.policy != e.policy
    requires ForPolicy([e] + rest, policy) == ForPolicy(before + [e] + after, policy)
    ensures ForPolicy(rest, policy) == ForPolicy(before + after, policy)
  {
    ForPolicyAppend(before + [e], after, policy);
    ForPolicyAppend(before, [e], policy);
    ForPolicyAppend(before, after, policy);
    ForPolicyAppend([e], rest, policy);
    if policy == e.policy {
      ForPolicyNone(before, policy);
      assert ForPolicy([e], policy) == [e];
      assert ([e] + ForPolicy(rest, policy))[1..] == ForPolicy(rest, policy);
      assert ([e] + ForPolicy(after, policy))[1..] == ForPolicy(after, policy);
    } else {
      assert ForPolicy([e], policy) == [];
      assert [] + ForPolicy(rest, policy) == ForPolicy(rest, policy);
      assert ForPolicy(before, policy) + [] == ForPolicy(before, policy);
    }
  }

  /** x's first entry can be written first in y too, and what remains still agrees. */
  lemma SplitAlike(x: seq<Entry>, y: seq<Entry>) returns (before: seq<Entry>, after: seq<Entry>)
    requires x != [] && forall policy :: ForPolicy(x, policy) == ForPolicy(y, policy)
    ensures y == before + [x[0]] + after
    ensures forall e :: e in before ==> e.policy != x[0].policy
    ensures forall policy :: ForPolicy(x[1..], policy) == ForPolicy(before + after, policy)
  {
    var e, rest := x[0], x[1..];
    assert ForPolicy(y, e.policy) == ForPolicy(x, e.policy) && ForPolicy(x, e.policy)[0] == e;
    before, after := FirstOf(y, e.policy);
    assert x == [e] + rest;
    forall policy ensures ForPolicy(rest, policy) == ForPolicy(before + after, policy) {
      assert ForPolicy(x, policy) == ForPolicy(y, policy);
      RemoveFirst(e, rest, before, after, policy);
    }
  }

  lemma MoveOut(db: Db, before: seq<Entry>, e: Entry, after: seq<Entry>, clk: Clock)
    requires forall x :: x in before ==> x.policy != e.policy
    ensures Alike(ApplyAll(db, before + [e] + after, clk), AndThen(ApplyEntry(db, e, clk), before + after, clk))
  {
    hide ApplyEntry;
    MoveToFront(db, before, e, clk);
    Continue(db, before + [e], [e] + before, after, clk);
    assert [e] + before + after == [e] + (before + after);
    Stepwise(db, e, before + after, clk);
  }

  /**
   Two ways of writing the same entries that keep each budget's own order end in
   the same tables, or both refuse.
   */
  lemma {:induction false} OrderAcrossBudgetsIsFree(db: Db, x: seq<Entry>, y: seq<Entry>, clk: Clock)
    requires forall policy :: ForPolicy(x, policy) == ForPolicy(y, policy)
    ensures Alike(ApplyAll(db, x, clk), ApplyAll(db, y, clk))
    decreases |x|
  {
    hide ApplyEntry;
    if x == [] {
      if y != [] {
        assert ForPolicy(y, y[0].policy) == ForPolicy(x, y[0].policy);
        assert false;
      }
    } else {
      var before, after := SplitAlike(x, y);
      MoveOut(db, before, x[0], after, clk);
      if ApplyEntry(db, x[0], clk).Success? {
        OrderAcrossBudgetsIsFree(ApplyEntry(db, x[0], clk).value, x[1..], before + after, clk);
      }
    }
  }

  lemma {:induction false} InterleaveFor(ids: seq<PolicyId>, releases: seq<Entry>, reserves: seq<Entry>, policy: PolicyId)
    requires forall i, j :: 0 <= i < j < |ids| ==> ids[i] != ids[j]
    ensures ForPolicy(Interleave(ids, releases, reserves), policy) ==
            if policy in ids then ForPolicy(releases, policy) + ForPolicy(reserves, policy) else []
    decreases |ids|
  {
    if ids != [] {
      var id := ids[0];
      var mine := ForPolicy(releases, id) + ForPolicy(reserves, id);
      ForPolicyAppend(mine, Interleave(ids[1..], releases, reserves), policy);
      ForPolicyAppend(ForPolicy(releases, id), ForPolicy(reserves, id), policy);
      InterleaveFor(ids[1..], releases, reserves, policy);
      ForPolicyTwice(releases, id, policy);
      ForPolicyTwice(reserves, id, policy);
      if policy == id {
        assert policy !in ids[1..];
      }
    }
  }

  lemma {:induction false} ForPolicyTwice(es: seq<Entry>, id: PolicyId, policy: PolicyId)
    ensures ForPolicy(ForPolicy(es, id), policy) == if id == policy then ForPolicy(es, policy) else []
    decreases |es|
  {
    if es != [] {
      var head := if es[0].policy == id then [es[0]] else [];
      ForPolicyAppend(head, ForPolicy(es[1..], id), policy);
      ForPolicyTwice(es[1..], id, policy);
    }
  }

  lemma {:induction false} ForPolicyMembers(es: seq<Entry>, policy: PolicyId)
    ensures policy !in BudgetsOf(es) ==> ForPolicy(es, policy) == []
  {
    if policy !in BudgetsOf(es) {
      forall x | x in es ensures x.policy != policy {}
      ForPolicyNone(es, policy);
    }
  }

  lemma InterleavingKeeps(releases: seq<Entry>, reserves: seq<Entry>, policy: PolicyId)
    ensures ForPolicy(InPolicyOrder(releases, reserves), policy) == ForPolicy(releases + reserves, policy)
  {
    var ids := InOrder(BudgetsOf(releases) + BudgetsOf(reserves));
    InterleaveFor(ids, releases, reserves, policy);
    ForPolicyAppend(releases, reserves, policy);
    ForPolicyMembers(releases, policy);
    ForPolicyMembers(reserves, policy);
  }

  /**
   The interleaved loop (per budget, releases and then reservations) ends like
   releasing everything and then reserving everything.
   */
  lemma InterleavingIsBatching(db: Db, releases: seq<Entry>, reserves: seq<Entry>, clk: Clock)
    ensures Alike(ApplyAll(db, InPolicyOrder(releases, reserves), clk), ApplyAll(db, releases + reserves, clk))
  {
    hide ApplyEntry, ApplyAll, Interleave, Alike;
    forall policy
      ensures ForPolicy(InPolicyOrder(releases, reserves), policy) == ForPolicy(releases + reserves, policy)
    {
      InterleavingKeeps(releases, reserves, policy);
    }
    OrderAcrossBudgetsIsFree(db, InPolicyOrder(releases, reserves), releases + reserves, clk);
  }

  // ----- A refusal belongs to one budget -----

  ghost predicate WellKeyed(es: seq<Entry>) {
    forall e :: e in es ==> e.key.policy == e.policy
  }

  /** Entries of one budget see only that budget. */
  lemma {:induction false} BudgetAlone(a: Db, b: Db, es: seq<Entry>, policy: PolicyId, clk: Clock)
    requires SameBudget(a, b, policy)
    requires forall k: EntryKey :: k.policy == policy ==> (k in a.entries <==> k in b.entries)
    requires WellKeyed(es) && forall e :: e in es ==> e.policy == policy
    ensures ApplyAll(a, es, clk).Success? <==> ApplyAll(b, es, clk).Success?
    ensures ApplyAll(a, es, clk).Failure? ==> ApplyAll(a, es, clk) == ApplyAll(b, es, clk)
    decreases |es|
  {
    if es != [] {
      var e := es[0];
      assert e in es;
      JudgeSees(a, b, e, clk);
      if ApplyEntry(a, e, clk).Success? {
        var rows := Judge(a, e, clk).value;
        SameBudgetKept(a, b, e, rows);
        BudgetAlone(Post(a, e, rows), Post(b, e, rows), es[1..], policy, clk);
      }
    }
  }

  lemma SameBudgetKept(a: Db, b: Db, e: Entry, rows: Rows)
    requires SameBudget(a, b, e.policy)
    ensures SameBudget(Post(a, e, rows), Post(b, e, rows), e.policy)
  {
  }

  /** Whatever refuses a whole plan refuses already one budget's own part of it. */
  lemma {:induction false} RefusalIsLocal(db: Db, es: seq<Entry>, clk: Clock) returns (policy: PolicyId)
    requires WellKeyed(es) && ApplyAll(db, es, clk).Failure?
    ensures ApplyAll(db, ForPolicy(es, policy), clk) == ApplyAll(db, es, clk)
    decreases |es|
  {
    var e, rest := es[0], es[1..];
    assert e in es && es == [e] + rest;
    if ApplyEntry(db, e, clk).Failure? {
      policy := e.policy;
      assert ForPolicy(es, policy)[0] == e;
    } else {
      var rows := Judge(db, e, clk).value;
      var db1 := Post(db, e, rows);
      policy := RefusalIsLocal(db1, rest, clk);
      if policy == e.policy {
        Stepwise(db, e, ForPolicy(rest, policy), clk);
      } else {
        assert [] + ForPolicy(rest, policy) == ForPolicy(rest, policy);
        JudgeSees(db, db, e, clk);
        ForPolicyIn(rest, policy);
        BudgetAlone(db1, db, ForPolicy(rest, policy), policy, clk);
      }
    }
  }

  lemma {:induction false} ForPolicyIn(es: seq<Entry>, policy: PolicyId)
    ensures forall e :: e in ForPolicy(es, policy) <==> e in es && e.policy == policy
    decreases |es|
  {
    if es != [] {
      ForPolicyIn(es[1..], policy);
    }
  }

  lemma InterleavingMembers(releases: seq<Entry>, reserves: seq<Entry>)
    ensures forall e :: e in InPolicyOrder(releases, reserves) ==> e in releases + reserves
  {
    var es := InPolicyOrder(releases, reserves);
    forall e | e in es ensures e in releases + reserves {
      ForPolicyIn(es, e.policy);
      ForPolicyIn(releases + reserves, e.policy);
      InterleavingKeeps(releases, reserves, e.policy);
    }
  }
}
