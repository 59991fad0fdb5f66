/** Two runs after which the policy and the ledger answer differently: too strictly after one edit, too freely after another. */
module PolicyExamples {
  import opened Wrappers
  import opened Numerals
  import opened SpendTypes
  import opened SpendCommands
  import opened SpendBooks
  import opened SpendInvariants
  import opened SpendEffects
  import opened SpendKeeps
  import opened SpendRuns
  import opened SpendAdmission
  import opened SpendExample
  import opened BuyerPolicy
  import opened PolicyLedger
  import opened PolicyPeriods
  import opened PolicyDivergence

  // ----- Facts about a purchase -----

  function TransactionOf(s: Submission): Transaction {
    Transaction(s.amount, s.currency, s.digest, PrintInt(s.version), s.agreement)
  }

  /** The facts of an order for the purchase, with its budgets loaded from the tables. */
  function OrderFacts(db: Db, s: Submission, now: Instant): Facts {
    Facts(CommitOrder, now, s.actor, s.organisation, s.membership, true, Interval(None, None), Source.Unavailable,
          Some(s.market), Attested, [], Source.Unavailable, Some(TransactionOf(s)), Source.Unavailable, Source.Unavailable,
          Source.Unavailable, LoadBudgets(db, s.organisation, now), None, None, None)
  }

  lemma FactsAsk(db: Db, s: Submission, clk: Clock)
    requires forall id :: id in db.policies ==> ToBudget(db, id, clk.now).Some? && db.policies[id].tenant == s.tenant
    ensures AsksAbout(OrderFacts(db, s, clk.now), TransactionOf(s), db, NewReservation(s, None), clk)
  {
    hide ToBudget, FactsOf;
  }

  // ----- What a budget's rows hold -----

  lemma SmallAmountsLoad()
    ensures Loaded(100) == Some(100) && Loaded(10) == Some(10) && Loaded(0) == Some(0)
  {
    assert Pow10(3) == 1000;
    Pow10Monotone(3, MAX_MINOR_DIGITS);
    StoredAmountsRead(100);
    StoredAmountsRead(10);
    StoredAmountsRead(0);
  }

  /** After a first submission to empty tables, its budgets' current periods hold it and nothing else does. */
  lemma FirstHolds(db: Db, db1: Db, s: Submission, policies: seq<PolicyId>, clk: Clock, slot: Slot)
    requires Books(db1) && db.holds == map[] && db.balances == map[] && s.amount > 0
    requires Submitted(db, db1, s, policies, clk)
    ensures SpentTotal(db1, slot) == 0 && Reserved(db1, slot) == Converted(db, policies, s.amount, clk, slot)
    ensures Reserved(db1, slot) > 0 ==> slot in db1.balances
  {
    hide Books;
    var id := ResId(s.organisation, s.key);
    assert SpentTotal(db1, slot) == SpentTotal(db, slot);
    forall other | other != id ensures ReservedBy(db1, other, slot) == 0 {
      assert SameHold(db, db1, HoldKey(other, slot));
    }
    assert ReservedBy(db1, id, slot) == Converted(db, policies, s.amount, clk, slot);
    if LiveIn(db1, id, slot) {
      OneReserved(db1, id, slot);
    } else {
      NothingReserved(db1, slot);
    }
  }

  // ----- A time zone is edited -----

  const MOVED := Edit(ActivePolicy, "elsewhere", 100, 0, None)

  /** A second purchase, of nearly the whole budget. */
  function Larger(): Submission {
    Purchase('b').(amount := 95)
  }

  /** A submission, and then an edit of its budget's time zone. */
  function Moving(): seq<Event> {
    [AddPolicy(BUDGET, LIMITED), SetMembers(map["m1" := BUYER]), Do(Submit(Purchase('a')), AFTER), EditPolicy(BUDGET, MOVED)]
  }

  lemma SameThousand(t: int, u: int)
    ensures t / 1000 * 1000 <= t < t / 1000 * 1000 + 1000
    ensures t / 1000 * 1000 <= u < t / 1000 * 1000 + 1000 ==> u / 1000 == t / 1000
  {
  }

  lemma Calendar()
    ensures Partition(Months)
  {
    forall zone, t, u
      ensures Months(zone, t).startsAt <= t < Months(zone, t).endsAt
      ensures Months(zone, t).startsAt <= u < Months(zone, t).endsAt ==> Months(zone, u) == Months(zone, t)
    {
      SameThousand(t, u);
      SameThousand(t - 500, u - 500);
    }
  }

  /** The tables after the submission, before the edit. */
  ghost predicate BeforeMove(db: Db) {
    && OneBudget(db) && Submitted(Opened(), db, Purchase('a'), [BUDGET], AFTER) && RowsTrue(db, Months)
  }

  lemma PurchaseStored() returns (db: Db)
    ensures db == StepDb(Opened(), Do(Submit(Purchase('a')), AFTER)) && BeforeMove(db)
  {
    hide Inv, Submitted;
    Opens();
    Calendar();
    db := FirstTaken();
    StepKeepsRows(Opened(), Do(Submit(Purchase('a')), AFTER), Months);
  }

  lemma MovedTables(db: Db, moved: Db)
    requires db.policies == map[BUDGET := LIMITED] && moved == StepDb(db, EditPolicy(BUDGET, MOVED))
    ensures moved == db.(policies := map[BUDGET := Edited(LIMITED, MOVED)])
  {
    hide Run;
    MoveAllowed();
    assert db.policies[BUDGET := Edited(LIMITED, MOVED)] == map[BUDGET := Edited(LIMITED, MOVED)];
  }

  lemma MoveAllowed()
    ensures LIMITED.status != Retired && PolicyOk(Edited(LIMITED, MOVED))
  {
  }

  /** The row that covers the instant is of the time zone before the edit; the current period has none. */
  lemma MovedRows(db: Db, moved: Db)
    requires BeforeMove(db) && moved == StepDb(db, EditPolicy(BUDGET, MOVED))
    ensures moved == db.(policies := map[BUDGET := Edited(LIMITED, MOVED)])
    ensures ToBudget(moved, BUDGET, 1000).Some?
    ensures Stored(moved, BUDGET, 1000) == 10 && Counted(moved, BUDGET, AFTER) == 0 && Available(moved, BUDGET, AFTER) == 100
  {
    hide StepDb, Inv, Submitted, RowsTrue, Stored;
    MovedTables(db, moved);
    StoredRows(db);
    BooksOf(db);
    FirstHolds(Opened(), db, Purchase('a'), [BUDGET], AFTER, Slot(BUDGET, 1000));
    FirstHolds(Opened(), db, Purchase('a'), [BUDGET], AFTER, Slot(BUDGET, 500));
    assert CurrentRows(moved, BUDGET, 1000) == CurrentRows(db, BUDGET, 1000) == {Slot(BUDGET, 1000)};
    SlotsOne(CurrentRows(moved, BUDGET, 1000), Slot(BUDGET, 1000));
    StoredOne(moved, BUDGET, 1000, Slot(BUDGET, 1000));
    SmallAmountsLoad();
  }

  /** All stored rows are whole periods of the calendar before the edit. */
  lemma StoredRows(db: Db)
    requires BeforeMove(db)
    ensures forall slot :: slot in db.balances ==> slot.policy == BUDGET && db.balances[slot].endsAt == slot.period + 1000
    ensures forall slot :: slot in CurrentRows(db, BUDGET, 1000) <==> slot == Slot(BUDGET, 1000)
  {
    hide Inv, Submitted;
    BooksOf(db);
    FirstHolds(Opened(), db, Purchase('a'), [BUDGET], AFTER, Slot(BUDGET, 1000));
    forall slot | slot in db.balances
      ensures slot.policy == BUDGET && slot.period % 1000 == 0 && db.balances[slot].endsAt == slot.period + 1000
    {
      assert RowTrue(db, Months, slot);
    }
    forall slot ensures slot in CurrentRows(db, BUDGET, 1000) <==> slot == Slot(BUDGET, 1000) {
      if slot in CurrentRows(db, BUDGET, 1000) {
        assert slot == Slot(slot.policy, slot.period) && slot.period == 1000;
      }
    }
  }

  lemma BooksOf(db: Db)
    requires Inv(db)
    ensures Books(db)
  {
  }

  lemma LargerAsks(db: Db, moved: Db)
    requires BeforeMove(db) && moved == StepDb(db, EditPolicy(BUDGET, MOVED))
    ensures AsksAbout(OrderFacts(moved, Larger(), 1000), TransactionOf(Larger()), moved, NewReservation(Larger(), None), AFTER)
  {
    hide BeforeMove, StepDb, ToBudget, AsksAbout;
    MovedRows(db, moved);
    FactsAsk(moved, Larger(), AFTER);
  }

  lemma LargerFresh(db: Db, moved: Db)
    requires BeforeMove(db) && moved == StepDb(db, EditPolicy(BUDGET, MOVED))
    ensures Fresh(moved, Submit(Larger()), AFTER) && !Collides(moved, Larger()) && IsMember(moved, Larger(), 1000)
    ensures ApplicablePolicies(moved, NewReservation(Larger(), None), 1000) == Success([BUDGET])
  {
    hide Inv, ToBudget, CurrentRows, Collides, ApplicablePolicies, Available, SubmissionOk, Submitted, RowsTrue, Run;
    MovedTables(db, moved);
    StepKeeps(db, EditPolicy(BUDGET, MOVED));
    PurchaseOk('b', AFTER);
    LargerOk();
    OtherPurchase(db);
    CollisionReads(db, moved);
    Calendar();
    InMonth(AFTER);
    OnlyBudget(moved, NewReservation(Larger(), None), 1000, BUDGET);
  }

  lemma LargerOk()
    requires SubmissionOk(Purchase('b'), 1000)
    ensures SubmissionOk(Larger(), 1000)
  {
  }

  lemma CollisionReads(a: Db, b: Db)
    requires b.reservations == a.reservations && !Collides(a, Purchase('b'))
    ensures !Collides(b, Larger())
  {
    forall id | id in b.reservations ensures !SamePurchase(b.reservations[id], Larger()) {
      assert !SamePurchase(a.reservations[id], Purchase('b'));
    }
  }

  /**
   After an edit of a budget's time zone the stored row and the current period
   part: a reachable state in which the policy refuses what the ledger admits.
   */
  lemma EditedZoneDisagrees()
    ensures var db, s := Play(EMPTY, Moving()), Larger();
            var f, tx := OrderFacts(db, s, 1000), TransactionOf(s);
            && AsksAbout(f, tx, db, NewReservation(s, None), AFTER)
            && EvaluateBudgets(f, tx, s.market) == Some(Denied(SpendLimitExceeded))
            && Run(db, Submit(s), AFTER).1.AppliedNow?
  {
    hide Inv, BeforeMove, AsksAbout, Run, EvaluateBudgets, Stored, Counted, Available, Fresh, OrderFacts, ToBudget,
         ApplicablePolicies, Collides;
    Opens();
    var db := PurchaseStored();
    var moved := StepDb(db, EditPolicy(BUDGET, MOVED));
    MovingPlays(db, moved);
    MovedRows(db, moved);
    LargerAsks(db, moved);
    LargerFresh(db, moved);
    NoReservation(moved, Larger(), 1000);
    PolicyAnswers(OrderFacts(moved, Larger(), 1000), TransactionOf(Larger()), moved, NewReservation(Larger(), None), AFTER);
    SubmitAnswered(moved, Larger(), AFTER);
  }

  lemma NoReservation(db: Db, s: Submission, now: Instant)
    ensures OrderFacts(db, s, now).reservation == None
  {
  }

  lemma MovingPlays(db: Db, moved: Db)
    requires Play(EMPTY, [AddPolicy(BUDGET, LIMITED), SetMembers(map["m1" := BUYER])]) == Opened()
    requires db == StepDb(Opened(), Do(Submit(Purchase('a')), AFTER)) && moved == StepDb(db, EditPolicy(BUDGET, MOVED))
    ensures Play(EMPTY, Moving()) == moved
  {
    hide StepDb;
    var x, y := [AddPolicy(BUDGET, LIMITED), SetMembers(map["m1" := BUYER])],
                [Do(Submit(Purchase('a')), AFTER), EditPolicy(BUDGET, MOVED)];
    assert Moving() == x + y;
    PlayAppend(EMPTY, x, y);
    assert y[1..] == [EditPolicy(BUDGET, MOVED)] && y[1..][1..] == [];
    assert Play(db, y[1..]) == moved;
  }

  // ----- A term is extended -----

  const TERM: PolicyId := [81]
  const TERMED := Policy(1, ActivePolicy, AgreementScope("g1"), "t1", "o1", "ZA", "ZAR", "UTC", 100, 0, Some(1000))
  const EXTENDED := Edit(ActivePolicy, "UTC", 100, 0, Some(5000))

  /** A purchase under the agreement. */
  function Under(s: Submission): Submission {
    s.(agreement := Some("g1"))
  }

  function First(): Submission {
    Under(Purchase('a'))
  }

  function Second(): Submission {
    Under(Larger())
  }

  function Setup(): seq<Event> {
    [AddPolicy(BUDGET, LIMITED), AddPolicy(TERM, TERMED), SetMembers(map["m1" := BUYER])]
  }

  /** A submission within the agreement's term, and then an extension of the term. */
  function Extending(): seq<Event> {
    Setup() + [Do(Submit(First()), BEFORE), EditPolicy(TERM, EXTENDED)]
  }

  function SetUp(): Db {
    EMPTY.(policies := map[BUDGET := LIMITED, TERM := TERMED], members := map["m1" := BUYER])
  }

  lemma SetsUp()
    ensures Play(EMPTY, Setup()) == SetUp() && Inv(SetUp()) && RowsTrue(SetUp(), Months)
  {
    hide Inv;
    EmptyHolds();
    var first, second, third := AddPolicy(BUDGET, LIMITED), AddPolicy(TERM, TERMED), SetMembers(map["m1" := BUYER]);
    var db1 := StepDb(EMPTY, first);
    var db2 := StepDb(db1, second);
    StepKeeps(EMPTY, first);
    StepKeeps(db1, second);
    StepKeeps(db2, third);
    assert db1.policies == map[BUDGET := LIMITED] && db2.policies == map[BUDGET := LIMITED, TERM := TERMED];
    assert [first, second, third][1..] == [second, third] && [second, third][1..] == [third] && [third][1..] == [];
    assert Play(db2, [third]) == StepDb(db2, third);
    assert Play(db1, [second, third]) == SetUp();
  }

  /** Both budgets apply to a purchase under the agreement, within the term. */
  lemma BothApply(db: Db, s: Submission, now: Instant) returns (policies: seq<PolicyId>)
    requires db.policies.Keys == {BUDGET, TERM} && db.policies[BUDGET] == LIMITED
    requires db.policies[TERM] == TERMED || db.policies[TERM] == Edited(TERMED, EXTENDED)
    requires 0 <= now && InEffect(now, 0, db.policies[TERM].until) && (s == First() || s == Second())
    ensures ApplicablePolicies(db, NewReservation(s, None), now) == Success(policies)
    ensures forall p :: p in policies <==> p == BUDGET || p == TERM
  {
    hide ApplicablePolicies;
    var r := NewReservation(s, None);
    assert Binding(db, r, now, OfMember) == {BUDGET};
    assert Binding(db, r, now, OfOrganisation) == {};
    assert Binding(db, r, now, OfAgreement) == {TERM};
    ApplicableByKind(db, r, now);
    policies := ApplicablePolicies(db, r, now).value;
  }

  /** The tables after the submission, before the extension. */
  ghost predicate BeforeExtension(db: Db, policies: seq<PolicyId>) {
    && Inv(db) && Submitted(SetUp(), db, First(), policies, BEFORE) && RowsTrue(db, Months)
    && forall p :: p in policies <==> p == BUDGET || p == TERM
  }

  lemma UnderOk(s: Submission, now: Instant)
    requires SubmissionOk(s, now)
    ensures SubmissionOk(Under(s), now)
  {
  }

  lemma FirstFresh()
    ensures Fresh(SetUp(), Submit(First()), BEFORE) && !Collides(SetUp(), First()) && IsMember(SetUp(), First(), 999)
    ensures Available(SetUp(), BUDGET, BEFORE) == 100 && Available(SetUp(), TERM, BEFORE) == 100
  {
    hide Inv, SubmissionOk, RowsTrue, Play;
    SetsUp();
    PurchaseOk('a', BEFORE);
    UnderOk(Purchase('a'), 999);
    Calendar();
    InMonth(BEFORE);
  }

  lemma FirstStored() returns (db: Db, policies: seq<PolicyId>)
    ensures db == StepDb(SetUp(), Do(Submit(First()), BEFORE)) && BeforeExtension(db, policies)
  {
    hide Inv, Fresh, Collides, ApplicablePolicies, Available, Submitted, RowsTrue, IsMember, Run;
    SetsUp();
    Calendar();
    FirstFresh();
    var both := BothApply(SetUp(), First(), 999);
    SubmitAnswered(SetUp(), First(), BEFORE);
    db := StepDb(SetUp(), Do(Submit(First()), BEFORE));
    StepKeepsFresh(SetUp(), First(), BEFORE);
    policies := SubmitLeaves(SetUp(), First(), BEFORE);
    StepKeepsRows(SetUp(), Do(Submit(First()), BEFORE), Months);
  }

  lemma StepKeepsFresh(db: Db, s: Submission, clk: Clock)
    requires Fresh(db, Submit(s), clk)
    ensures Inv(StepDb(db, Do(Submit(s), clk)))
  {
    hide Inv, Run;
    StepKeeps(db, Do(Submit(s), clk));
  }

  lemma ExtendedTables(db: Db, policies: seq<PolicyId>, extended: Db)
    requires BeforeExtension(db, policies) && extended == StepDb(db, EditPolicy(TERM, EXTENDED))
    ensures extended == db.(policies := map[BUDGET := LIMITED, TERM := Edited(TERMED, EXTENDED)])
  {
    hide Run, Inv, RowsTrue, OthersKept;
    assert PolicyOk(Edited(TERMED, EXTENDED));
    assert db.policies[TERM := Edited(TERMED, EXTENDED)] == map[BUDGET := LIMITED, TERM := Edited(TERMED, EXTENDED)];
  }

  /** The term's one row ended with the term before, so the policy no longer finds it; the ledger still counts it. */
  lemma TermRows(db: Db, policies: seq<PolicyId>, extended: Db)
    requires BeforeExtension(db, policies) && extended == StepDb(db, EditPolicy(TERM, EXTENDED))
    ensures extended.policies == map[BUDGET := LIMITED, TERM := Edited(TERMED, EXTENDED)]
    ensures Stored(extended, TERM, 1000) == 0 && Available(extended, TERM, AFTER) == 90
    ensures ToBudget(extended, TERM, 1000).Some?
  {
    hide StepDb, Inv, Submitted, RowsTrue, Stored;
    ExtendedTables(db, policies, extended);
    BooksOf(db);
    FirstHolds(SetUp(), db, First(), policies, BEFORE, Slot(TERM, 0));
    forall slot | slot in db.balances && slot.policy == TERM ensures slot.period == 0 && db.balances[slot].endsAt == 1000 {
      TermRow(db, policies, slot);
    }
    assert CurrentRows(extended, TERM, 1000) == {};
    StoredNone(extended, TERM, 1000);
    SmallAmountsLoad();
  }

  lemma TermRow(db: Db, policies: seq<PolicyId>, slot: Slot)
    requires BeforeExtension(db, policies) && slot in db.balances && slot.policy == TERM
    ensures slot.period == 0 && db.balances[slot].endsAt == 1000
  {
    hide Inv, OthersKept;
    assert RowTrue(db, Months, slot);
  }

  /** The monthly budget has nothing in the period after. */
  lemma MonthRows(db: Db, policies: seq<PolicyId>, extended: Db)
    requires BeforeExtension(db, policies) && extended == StepDb(db, EditPolicy(TERM, EXTENDED))
    ensures Stored(extended, BUDGET, 1000) == 0 && ToBudget(extended, BUDGET, 1000).Some?
  {
    hide StepDb, Inv, Submitted, Stored;
    ExtendedTables(db, policies, extended);
    BooksOf(db);
    SmallAmountsLoad();
    forall slot | slot in db.balances && slot.policy == BUDGET
      ensures Months("UTC", slot.period) == Period(slot.period, db.balances[slot].endsAt)
    {
      MonthRow(db, policies, slot);
    }
    var slot := Slot(BUDGET, 1000);
    FirstHolds(SetUp(), db, First(), policies, BEFORE, slot);
    forall other | other in CurrentRows(extended, BUDGET, 1000) ensures other == slot {
      assert other == Slot(other.policy, other.period);
    }
    if slot in db.balances {
      assert CurrentRows(extended, BUDGET, 1000) == {slot};
      StoredOne(extended, BUDGET, 1000, slot);
      SlotsOne(CurrentRows(extended, BUDGET, 1000), slot);
    } else {
      assert CurrentRows(extended, BUDGET, 1000) == {};
      StoredNone(extended, BUDGET, 1000);
    }
  }

  lemma MonthRow(db: Db, policies: seq<PolicyId>, slot: Slot)
    requires BeforeExtension(db, policies) && slot in db.balances && slot.policy == BUDGET
    ensures Months("UTC", slot.period) == Period(slot.period, db.balances[slot].endsAt)
  {
    hide Inv, OthersKept;
    assert RowTrue(db, Months, slot);
  }

  lemma SecondFresh(db: Db, policies: seq<PolicyId>, extended: Db)
    requires BeforeExtension(db, policies) && extended == StepDb(db, EditPolicy(TERM, EXTENDED))
    ensures Fresh(extended, Submit(Second()), AFTER) && !Collides(extended, Second()) && IsMember(extended, Second(), 1000)
  {
    hide Inv, SubmissionOk, RowsTrue, OthersKept, Run;
    ExtendedTables(db, policies, extended);
    StepKeeps(db, EditPolicy(TERM, EXTENDED));
    PurchaseOk('b', AFTER);
    LargerOk();
    UnderOk(Larger(), 1000);
    Calendar();
    InMonth(AFTER);
    var a, b := First(), Second();
    assert a.key[0] != b.key[0] && a.digest[7] != b.digest[7] && a.purchase[0] != b.purchase[0];
  }

  lemma ExtendingPlays(db: Db, extended: Db)
    requires db == StepDb(SetUp(), Do(Submit(First()), BEFORE)) && extended == StepDb(db, EditPolicy(TERM, EXTENDED))
    ensures Play(EMPTY, Extending()) == extended
  {
    hide StepDb, Inv, RowsTrue;
    SetsUp();
    var y := [Do(Submit(First()), BEFORE), EditPolicy(TERM, EXTENDED)];
    PlayAppend(EMPTY, Setup(), y);
    assert y[1..] == [EditPolicy(TERM, EXTENDED)] && y[1..][1..] == [];
    assert Play(db, y[1..]) == extended;
  }

  /**
   After an extension of an agreement's term the row of the term keeps the end it was
   inserted with: a reachable state in which the policy allows what the ledger refuses.
   */
  lemma ExtendedTermDisagrees()
    ensures var db, s := Play(EMPTY, Extending()), Second();
            var f, tx := OrderFacts(db, s, 1000), TransactionOf(s);
            && AsksAbout(f, tx, db, NewReservation(s, None), AFTER)
            && EvaluateBudgets(f, tx, s.market) == None
            && Run(db, Submit(s), AFTER).1 == Refused(SpendLimitExceeded, false)
  {
    hide Inv, BeforeExtension, AsksAbout, Run, EvaluateBudgets, Stored, Counted, Available, Fresh, OrderFacts, ToBudget,
         ApplicablePolicies, Collides, IsMember, Play;
    var db, policies := FirstStored();
    var extended := StepDb(db, EditPolicy(TERM, EXTENDED));
    ExtendingPlays(db, extended);
    TermRows(db, policies, extended);
    MonthRows(db, policies, extended);
    SecondFresh(db, policies, extended);
    var both := BothApply(extended, Second(), 1000);
    FactsAsk(extended, Second(), AFTER);
    NoReservation(extended, Second(), 1000);
    PolicyAnswers(OrderFacts(extended, Second(), 1000), TransactionOf(Second()), extended, NewReservation(Second(), None), AFTER);
    SubmitAnswered(extended, Second(), AFTER);
  }
}
