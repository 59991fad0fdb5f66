/** A budget, a calendar and purchases that the examples of runs share. */
module SpendExample {
  import opened Wrappers
  import opened SpendTypes
  import opened SpendCommands
  import opened SpendBooks
  import opened SpendEffects
  import opened SpendInvariants
  import opened SpendKeeps
  import opened SpendRuns
  import opened SpendTruth
  import opened Sums
  import opened SpendDuality
  import opened SpendAdmission

  lemma OnlyOne(ids: set<PolicyId>, p: PolicyId)
    requires ids == {p}
    ensures InOrder(ids) == [p]
  {
    var r := InOrder(ids);
    assert p in r && forall i :: 0 <= i < |r| ==> r[i] in r;
  }

  /** The one budget of the example is a monthly MEMBERSHIP budget. */
  lemma OnlyBudget(db: Db, r: Reservation, now: Instant, p: PolicyId)
    requires db.policies.Keys == {p} && Applies(db.policies[p], r, now) && db.policies[p].scope.MembershipScope?
    ensures ApplicablePolicies(db, r, now) == Success([p])
  {
    var ids := ApplicableIds(db, r, now);
    assert ids == {p};
    var members := set id | id in ids && db.policies[id].scope.MembershipScope?;
    var organisations := set id | id in ids && db.policies[id].scope.OrganisationScope?;
    var agreements := set id | id in ids && db.policies[id].scope.AgreementScope?;
    assert members == {p} && organisations == {} && agreements == {};
    OnlyOne(ids, p);
  }

  const BUDGET: PolicyId := [80]
  const LIMITED := Policy(1, ActivePolicy, MembershipScope("m1"), "t1", "o1", "ZA", "ZAR", "UTC", 100, 0, None)
  const BUYER := Member("o1", "t1", true, None, None)

  /** Periods of 1000 milliseconds, which begin 500 later elsewhere. */
  function Months(zone: Id, t: Instant): Period {
    var start := if zone == "UTC" then t / 1000 * 1000 else (t - 500) / 1000 * 1000 + 500;
    Period(start, start + 1000)
  }

  const BEFORE := Clock(999, Months)
  const AFTER := Clock(1000, Months)

  function Digest64(c: char): Id { "sha256:" + seq(64, _ => c) }

  /** Two purchases of one member, submitted under different keys. */
  function Purchase(c: char): Submission {
    Submission(seq(16, _ => c), [c], "t1", "o1", "m1", "buyer", "ZA", "ZAR", None, Digest64(c), 1, 10, 5000)
  }

  function Reservation1(c: char): ResId { ResId("o1", Purchase(c).key) }

  lemma PurchaseOk(c: char, clk: Clock)
    requires 'a' <= c <= 'f' && (clk == BEFORE || clk == AFTER)
    ensures SubmissionOk(Purchase(c), clk.now)
  {
    var s := Purchase(c);
    assert s.digest[..7] == "sha256:" && forall i :: 7 <= i < |s.digest| ==> s.digest[i] == c;
    assert s.purchase[0] in s.purchase && !IsSpace(c);
    assert forall x :: x in "ZAR" ==> 'A' <= x <= 'Z';
  }

  /** The single-budget tables of the example. */
  ghost predicate OneBudget(db: Db) {
    Inv(db) && db.policies == map[BUDGET := LIMITED] && db.members == map["m1" := BUYER]
  }

  lemma PurchaseApplies(db: Db, c: char, clk: Clock)
    requires OneBudget(db) && (clk == BEFORE || clk == AFTER)
    ensures ApplicablePolicies(db, NewReservation(Purchase(c), None), clk.now) == Success([BUDGET])
  {
    OnlyBudget(db, NewReservation(Purchase(c), None), clk.now, BUDGET);
  }

  /** What an applied submission leaves. */
  ghost predicate Submitted(db: Db, db1: Db, s: Submission, policies: seq<PolicyId>, clk: Clock) {
    var id := ResId(s.organisation, s.key);
    && db1.policies == db.policies && db1.members == db.members && db1.commands.Keys == db.commands.Keys + {s.key}
    && db1.reservations == db.reservations[id := NewReservation(s, None)]
    && (forall slot: Slot :: ReservedBy(db1, id, slot) == Converted(db, policies, s.amount, clk, slot))
    && (forall slot: Slot :: SpentTotal(db1, slot) == SpentTotal(db, slot))
    && OthersKept(db, db1, {id})
  }

  lemma SubmitLeaves(db: Db, s: Submission, clk: Clock) returns (policies: seq<PolicyId>)
    requires Fresh(db, Submit(s), clk) && Run(db, Submit(s), clk).1.AppliedNow?
    ensures ApplicablePolicies(db, NewReservation(s, None), clk.now) == Success(policies)
    ensures Submitted(db, Run(db, Submit(s), clk).0, s, policies, clk)
  {
    hide Books, Boundary, Collides, ApplicablePolicies, Available, SubmissionOk, Fill, Appended, PolicyOk;
    var id := ResId(s.organisation, s.key);
    var db0 := db.(reservations := db.reservations[id := NewReservation(s, None)]);
    policies := SubmitFills(db, db0, s, clk);
    ApplicableReads(db, db0, NewReservation(s, None), NewReservation(s, None), clk.now);
    SubmitKeeps(db, s, clk);
    var done, db1 := ExecuteSubmit(db, s, clk).value.0, Run(db, Submit(s), clk).0;
    forall slot: Slot ensures ReservedBy(db1, id, slot) == Converted(db, policies, s.amount, clk, slot) {
      assert ReservedBy(done, id, slot) == Converted(db0, policies, s.amount, clk, slot);
    }
    forall slot: Slot ensures SpentTotal(db1, slot) == SpentTotal(db, slot) {
      assert SpentTotal(done, slot) == SpentTotal(db0, slot);
    }
    forall hk: HoldKey | hk.reservation !in {id} ensures SameHold(db, db1, hk) {
      assert SameHold(db, done, hk);
    }
  }

  /** A purchase nobody else has submitted is admitted, and holds its amount at the current slot only. */
  lemma Takes(db: Db, c: char, clk: Clock) returns (db1: Db)
    requires OneBudget(db) && 'a' <= c <= 'f' && (clk == BEFORE || clk == AFTER)
    requires Purchase(c).key !in db.commands && !Collides(db, Purchase(c)) && Available(db, BUDGET, clk) >= 10
    ensures db1 == StepDb(db, Do(Submit(Purchase(c)), clk)) && OneBudget(db1)
    ensures Submitted(db, db1, Purchase(c), [BUDGET], clk)
  {
    hide Inv, Collides, ApplicablePolicies, Available, SubmissionOk, PolicyOk, Submitted;
    var s := Purchase(c);
    PurchaseOk(c, clk);
    PurchaseApplies(db, c, clk);
    SubmitAnswered(db, s, clk);
    db1 := StepDb(db, Do(Submit(s), clk));
    StepKeeps(db, Do(Submit(s), clk));
    var policies := SubmitLeaves(db, s, clk);
    SubmittedTables(db, db1, s, clk);
  }

  lemma SubmittedTables(db: Db, db1: Db, s: Submission, clk: Clock)
    requires Submitted(db, db1, s, [BUDGET], clk)
    ensures db1.policies == db.policies && db1.members == db.members
  {
  }

  function Opened(): Db {
    EMPTY.(policies := map[BUDGET := LIMITED], members := map["m1" := BUYER])
  }

  lemma Opens()
    ensures Play(EMPTY, [AddPolicy(BUDGET, LIMITED), SetMembers(map["m1" := BUYER])]) == Opened() && OneBudget(Opened())
  {
    hide Inv;
    EmptyHolds();
    var first, second := AddPolicy(BUDGET, LIMITED), SetMembers(map["m1" := BUYER]);
    var db1 := StepDb(EMPTY, first);
    StepKeeps(EMPTY, first);
    StepKeeps(db1, second);
    assert [first, second][1..] == [second] && [second][1..] == [];
    assert Play(db1, [second]) == StepDb(db1, second);
  }

  /** A period in which no reservation holds anything reserves nothing. */
  lemma NothingReserved(db: Db, slot: Slot)
    requires Books(db) && forall id :: ReservedBy(db, id, slot) == 0
    ensures Reserved(db, slot) == 0
  {
    assert Agrees(db, slot);
    forall hk | hk in HoldColumn(db, slot) ensures HoldColumn(db, slot)[hk] == 0 {
      assert ReservedBy(db, hk.reservation, slot) == 0;
    }
    var none: map<HoldKey, int> := map[];
    ZeroRowsAddNothing(HoldColumn(db, slot), none);
    assert Total(none) == 0;
  }

  /** A period in which one reservation alone holds anything reserves just that. */
  lemma OneReserved(db: Db, id: ResId, slot: Slot)
    requires Books(db) && LiveIn(db, id, slot) && forall other :: other != id ==> ReservedBy(db, other, slot) == 0
    ensures slot in db.balances && Reserved(db, slot) == ReservedBy(db, id, slot)
  {
    var hk := HoldKey(id, slot);
    assert HoldOk(db, hk);
    assert Agrees(db, slot);
    var none, one: map<HoldKey, int> := map[], map[hk := ReservedBy(db, id, slot)];
    TotalUpdate(none, hk, ReservedBy(db, id, slot));
    assert none[hk := ReservedBy(db, id, slot)] == one && Total(none) == 0;
    forall other | other in HoldColumn(db, slot) && other !in one ensures HoldColumn(db, slot)[other] == 0 {
      assert other == HoldKey(other.reservation, slot) && other.reservation != id;
      assert ReservedBy(db, other.reservation, slot) == 0;
    }
    ZeroRowsAddNothing(HoldColumn(db, slot), one);
  }

  predicate LiveIn(db: Db, id: ResId, slot: Slot) {
    ReservedBy(db, id, slot) != 0
  }

  lemma FirstTaken() returns (db: Db)
    ensures db == StepDb(Opened(), Do(Submit(Purchase('a')), AFTER)) && OneBudget(db)
    ensures Submitted(Opened(), db, Purchase('a'), [BUDGET], AFTER)
    ensures Available(db, BUDGET, BEFORE) >= 10
  {
    hide Inv, Submitted, ApplicablePolicies;
    Opens();
    db := Takes(Opened(), 'a', AFTER);
    OtherPeriodFree(db);
  }

  lemma OtherPeriodFree(db: Db)
    requires OneBudget(db) && Submitted(Opened(), db, Purchase('a'), [BUDGET], AFTER)
    ensures Available(db, BUDGET, BEFORE) >= 10
  {
    hide Books, Boundary;
    var slot := CurrentSlot(db, BUDGET, BEFORE);
    forall id ensures ReservedBy(db, id, slot) == 0 {
      assert SameHold(Opened(), db, HoldKey(id, slot)) || id == Reservation1('a');
    }
    NothingReserved(db, slot);
    assert SpentTotal(db, slot) == SpentTotal(Opened(), slot) == 0;
  }

  /** The second purchase collides with nothing: its key, purchase and digest are its own. */
  lemma OtherPurchase(db: Db)
    requires Submitted(Opened(), db, Purchase('a'), [BUDGET], AFTER)
    ensures !Collides(db, Purchase('b')) && Purchase('b').key !in db.commands
  {
    var a, b := Purchase('a'), Purchase('b');
    assert a.key[0] != b.key[0] && a.digest[7] != b.digest[7] && a.purchase[0] != b.purchase[0];
  }
}
