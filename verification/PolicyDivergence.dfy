/** Exactly when the policy's budgets and the ledger's answer alike, whatever the stored periods are. */
module PolicyDivergence {
  import opened Wrappers
  import opened Numerals
  import opened SpendTypes
  import opened SpendCommands
  import opened SpendBooks
  import opened SpendInvariants
  import opened SpendEffects
  import opened SpendKeeps
  import opened SpendAdmission
  import opened BuyerPolicy
  import opened PolicyMeaning
  import opened PolicyLedger

  // ----- One budget -----

  /** What the ledger counts against a budget: the row of its current period. */
  function Counted(db: Db, id: PolicyId, clk: Clock): int
    requires id in db.policies
  {
    SpentTotal(db, CurrentSlot(db, id, clk)) + Reserved(db, CurrentSlot(db, id, clk))
  }

  /** What the policy counts: the one row whose stored bounds contain the instant. */
  function Stored(db: Db, id: PolicyId, now: Instant): int {
    var rows := SlotsInOrder(CurrentRows(db, id, now));
    if |rows| == 1 then SpentTotal(db, rows[0]) + Reserved(db, rows[0]) else 0
  }

  lemma StoredOne(db: Db, id: PolicyId, now: Instant, slot: Slot)
    requires CurrentRows(db, id, now) == {slot}
    ensures Stored(db, id, now) == SpentTotal(db, slot) + Reserved(db, slot)
  {
    SlotsOne(CurrentRows(db, id, now), slot);
  }

  lemma StoredNone(db: Db, id: PolicyId, now: Instant)
    requires CurrentRows(db, id, now) == {}
    ensures Stored(db, id, now) == 0
  {
    FirstIn(SlotsInOrder(CurrentRows(db, id, now)));
  }

  lemma FirstIn<T>(s: seq<T>)
    ensures s != [] ==> s[0] in s
  {
  }

  lemma CountedRows<T>(s: set<T>)
    ensures |s| == 0 ==> s == {}
    ensures |s| == 1 ==> exists x :: s == {x}
  {
    if |s| == 1 {
      var x :| x in s;
      assert |s - {x}| == 0;
      assert s == {x};
    }
  }

  /** A budget's fact leaves what the ledger has available, off by what the two count differently. */
  lemma FactLeaves(db: Db, id: PolicyId, clk: Clock)
    requires id in db.policies && ToBudget(db, id, clk.now).Some?
    ensures var b := ToBudget(db, id, clk.now).value;
            && b.limit - Consumed(b, clk.now) == Available(db, id, clk) + Counted(db, id, clk) - Stored(db, id, clk.now)
            && b.limit == db.policies[id].limit
  {
    var current := CurrentRows(db, id, clk.now);
    CountedRows(current);
    StoredAmountsRead(db.policies[id].limit);
    if |current| == 0 {
      StoredNone(db, id, clk.now);
    } else {
      var slot :| current == {slot};
      assert slot in current;
      StoredOne(db, id, clk.now, slot);
      SlotsOne(current, slot);
      StoredAmountsRead(db.balances[slot].committed);
      StoredAmountsRead(db.balances[slot].reserved);
    }
  }

  // ----- All budgets of a purchase -----

  /** What the policy finds left of a budget. */
  function Left(db: Db, id: PolicyId, now: Instant): int
    requires id in db.policies
  {
    db.policies[id].limit - Stored(db, id, now)
  }

  /** The policy finds the amount in every budget, or the ledger does. */
  ghost predicate PolicyCovers(db: Db, policies: seq<PolicyId>, amount: int, now: Instant) {
    forall p :: p in policies && p in db.policies ==> amount <= Left(db, p, now)
  }

  ghost predicate LedgerCovers(db: Db, policies: seq<PolicyId>, amount: int, clk: Clock) {
    forall p :: p in policies && p in db.policies ==> amount <= Available(db, p, clk)
  }

  lemma KindLeaves(f: Facts, tx: Transaction, db: Db, r: Reservation, clk: Clock, kind: Kind)
    requires AsksAbout(f, tx, db, r, clk) && f.reservation == None && r.amount > 0 && |Binding(db, r, clk.now, kind)| <= 1
    ensures var found := SingleOf(Filter(f.budgets.value, Binds(f, tx, r.market, kind)));
            && !found.Ambiguous?
            && (Covers(f, tx, found) <==>
                forall id :: id in Binding(db, r, clk.now, kind) && id in db.policies ==> r.amount <= Left(db, id, clk.now))
  {
    hide ToBudget, Filter, Binds, Available, Consumed, Stored, Counted;
    PicksByKind(f, tx, db, r, clk, kind);
    var ids := Binding(db, r, clk.now, kind);
    BoundKnown(db, r, clk.now);
    if ids != {} {
      var id := SingleOf(Filter(f.budgets.value, Binds(f, tx, r.market, kind))).value.policy;
      forall x | x in ids ensures x == id {
        SingletonOnly(ids, x, id);
      }
      FactLeaves(db, id, clk);
      AvailableCounts(db, id, clk);
    }
  }

  lemma AvailableCounts(db: Db, id: PolicyId, clk: Clock)
    requires id in db.policies
    ensures Available(db, id, clk) + Counted(db, id, clk) == db.policies[id].limit
  {
  }

  /** The policy's answer about a new purchase, told by the tables. */
  ghost function PolicyAnswer(db: Db, r: Reservation, clk: Clock): Option<Decision> {
    var policies := ApplicablePolicies(db, r, clk.now);
    if policies == Failure(Refuse(SpendPolicyNotConfigured)) then
      Some(Denied(SpendPolicyNotConfigured))
    else if policies.Failure? then
      Some(Denied(ContextNotUsable))
    else if PolicyCovers(db, policies.value, r.amount, clk.now) then
      None
    else
      Some(Denied(SpendLimitExceeded))
  }

  /** Aligned or not, the policy answers by the rows whose stored bounds contain the instant. */
  lemma PolicyAnswers(f: Facts, tx: Transaction, db: Db, r: Reservation, clk: Clock)
    requires AsksAbout(f, tx, db, r, clk) && f.reservation == None && r.amount > 0
    ensures EvaluateBudgets(f, tx, r.market) == PolicyAnswer(db, r, clk)
  {
    hide Filter, Binding, ApplicablePolicies, Covers, Left, Applicable, MembershipBudget, OrganisationBudget, AgreementBudget,
         MembershipBinds, OrganisationBinds, AgreementBinds, LoadBudgets, ToBudget;
    ApplicableByKind(db, r, clk.now);
    BudgetsAre(f, tx, r.market);
    PicksByKind(f, tx, db, r, clk, OfMember);
    PicksByKind(f, tx, db, r, clk, OfOrganisation);
    PicksByKind(f, tx, db, r, clk, OfAgreement);
    var m, o, a := Binding(db, r, clk.now, OfMember), Binding(db, r, clk.now, OfOrganisation), Binding(db, r, clk.now, OfAgreement);
    if |m| <= 1 && |o| <= 1 && |a| <= 1 {
      KindLeaves(f, tx, db, r, clk, OfMember);
      KindLeaves(f, tx, db, r, clk, OfOrganisation);
      KindLeaves(f, tx, db, r, clk, OfAgreement);
      BoundKnown(db, r, clk.now);
    }
  }

  // ----- One submission -----

  /** Both sides judge the submission's budgets, and both or neither find its amount in all of them. */
  ghost predicate SameVerdict(db: Db, s: Submission, clk: Clock) {
    var policies := ApplicablePolicies(db, NewReservation(s, None), clk.now);
    IsMember(db, s, clk.now) && !Collides(db, s) && policies.Success? ==>
      (PolicyCovers(db, policies.value, s.amount, clk.now) <==> LedgerCovers(db, policies.value, s.amount, clk))
  }

  /** The policy foresees a submission exactly when the stored rows and the current ones cover it alike. */
  lemma ForeseesIff(f: Facts, tx: Transaction, db: Db, s: Submission, clk: Clock)
    requires Fresh(db, Submit(s), clk) && AsksAbout(f, tx, db, NewReservation(s, None), clk) && f.reservation == None
    ensures Run(db, Submit(s), clk).1 == Foreseen(f, tx, db, s, clk) <==> SameVerdict(db, s, clk)
  {
    hide Books, Boundary, ApplicablePolicies, EvaluateBudgets, IsMember, Collides, AsksAbout, Run, Available, Left, Recorded, CalendarOk;
    var r := NewReservation(s, None);
    SubmitAnswered(db, s, clk);
    BudgetRefusals(db, r, clk.now);
    PositiveAmount(s, clk.now);
    PolicyAnswers(f, tx, db, r, clk);
  }

  lemma PositiveAmount(s: Submission, now: Instant)
    requires ArgumentsOk(Submit(s), now)
    ensures s.amount > 0
  {
  }

  // ----- Every amount -----

  /** The least of some amounts, and nothing less than nothing. */
  function Room(amounts: seq<int>): nat
    requires amounts != []
    decreases |amounts|
  {
    var first := if amounts[0] > 0 then amounts[0] else 0;
    if |amounts| == 1 then
      first
    else
      var rest := Room(amounts[1..]);
      if first < rest then first else rest
  }

  predicate AllCover(amounts: seq<int>, amount: int) {
    forall i :: 0 <= i < |amounts| ==> amount <= amounts[i]
  }

  lemma {:induction false} RoomCovers(amounts: seq<int>, amount: int)
    requires amounts != [] && amount > 0
    ensures AllCover(amounts, amount) <==> amount <= Room(amounts)
    decreases |amounts|
  {
    if |amounts| > 1 {
      RoomCovers(amounts[1..], amount);
      assert forall i :: 0 < i < |amounts| ==> amounts[i] == amounts[1..][i - 1];
    }
  }

  function Lefts(db: Db, policies: seq<PolicyId>, now: Instant): (amounts: seq<int>)
    requires Known(db, policies)
    ensures |amounts| == |policies|
  {
    seq(|policies|, i requires 0 <= i < |policies| => Left(db, policies[i], now))
  }

  function Availables(db: Db, policies: seq<PolicyId>, clk: Clock): (amounts: seq<int>)
    requires Known(db, policies)
    ensures |amounts| == |policies|
  {
    seq(|policies|, i requires 0 <= i < |policies| => Available(db, policies[i], clk))
  }

  lemma CoversByRoom(db: Db, policies: seq<PolicyId>, amount: int, clk: Clock)
    requires Known(db, policies) && policies != [] && amount > 0
    ensures PolicyCovers(db, policies, amount, clk.now) <==> amount <= Room(Lefts(db, policies, clk.now))
    ensures LedgerCovers(db, policies, amount, clk) <==> amount <= Room(Availables(db, policies, clk))
  {
    hide Left, Available;
    var lefts, availables := Lefts(db, policies, clk.now), Availables(db, policies, clk);
    assert forall i :: 0 <= i < |policies| ==> policies[i] in policies && lefts[i] == Left(db, policies[i], clk.now);
    assert forall i :: 0 <= i < |policies| ==> policies[i] in policies && availables[i] == Available(db, policies[i], clk);
    RoomCovers(lefts, amount);
    RoomCovers(availables, amount);
  }

  /** The tightest budget leaves the same by the stored rows as by the current ones. */
  ghost predicate SameRoom(db: Db, s: Submission, clk: Clock) {
    var r := NewReservation(s, None);
    IsMember(db, s, clk.now) && !Collides(db, s) && ApplicablePolicies(db, r, clk.now).Success? ==>
      var policies := ApplicablePolicies(db, r, clk.now).value;
      Known(db, policies) && policies != [] && Room(Lefts(db, policies, clk.now)) == Room(Availables(db, policies, clk))
  }

  /** The policy foresees the purchase whatever its amount. */
  ghost predicate ForeseesEvery(f: Facts, tx: Transaction, db: Db, s: Submission, clk: Clock) {
    forall amount :: amount > 0 ==> ForeseesAmount(f, tx, db, s, clk, amount)
  }

  ghost predicate ForeseesAmount(f: Facts, tx: Transaction, db: Db, s: Submission, clk: Clock, amount: int) {
    Run(db, Submit(s.(amount := amount)), clk).1 == Foreseen(f, tx.(amount := amount), db, s.(amount := amount), clk)
  }

  lemma OtherAmount(f: Facts, tx: Transaction, db: Db, s: Submission, clk: Clock, amount: int)
    requires Fresh(db, Submit(s), clk) && AsksAbout(f, tx, db, NewReservation(s, None), clk) && amount > 0
    ensures Fresh(db, Submit(s.(amount := amount)), clk)
    ensures AsksAbout(f, tx.(amount := amount), db, NewReservation(s.(amount := amount), None), clk)
    ensures IsMember(db, s.(amount := amount), clk.now) <==> IsMember(db, s, clk.now)
  {
    hide Inv, LoadBudgets, CalendarOk;
  }

  lemma OtherAmountApplies(db: Db, s: Submission, clk: Clock, amount: int)
    ensures ApplicablePolicies(db, NewReservation(s.(amount := amount), None), clk.now)
         == ApplicablePolicies(db, NewReservation(s, None), clk.now)
    ensures Collides(db, s.(amount := amount)) <==> Collides(db, s)
  {
    var r, q := NewReservation(s, None), NewReservation(s.(amount := amount), None);
    assert ApplicableIds(db, q, clk.now) == ApplicableIds(db, r, clk.now);
    forall id | id in db.reservations
      ensures SamePurchase(db.reservations[id], s.(amount := amount)) <==> SamePurchase(db.reservations[id], s)
    {
    }
  }

  /** A membership budget always applies. */
  lemma SomeBudget(db: Db, r: Reservation, now: Instant)
    requires ApplicablePolicies(db, r, now).Success?
    ensures Known(db, ApplicablePolicies(db, r, now).value) && ApplicablePolicies(db, r, now).value != []
  {
    ApplicableByKind(db, r, now);
    ApplicableListing(db, r, now);
  }

  /**
   The policy foresees a purchase of every amount exactly when the tightest of its
   budgets leaves as much by the stored rows as by the current ones; nobody but members,
   and no purchase in the way of another, gets as far.
   */
  lemma ForeseesEveryIff(f: Facts, tx: Transaction, db: Db, s: Submission, clk: Clock)
    requires Fresh(db, Submit(s), clk) && AsksAbout(f, tx, db, NewReservation(s, None), clk) && f.reservation == None
    ensures ForeseesEvery(f, tx, db, s, clk) <==> SameRoom(db, s, clk)
  {
    hide Fresh, AsksAbout, ApplicablePolicies, IsMember, Collides, Run, Foreseen, Lefts, Availables, PolicyCovers, LedgerCovers;
    var policies := ApplicablePolicies(db, NewReservation(s, None), clk.now);
    forall amount: int | amount > 0
      ensures ForeseesAmount(f, tx, db, s, clk, amount) <==> SameVerdict(db, s.(amount := amount), clk)
      ensures IsMember(db, s.(amount := amount), clk.now) <==> IsMember(db, s, clk.now)
      ensures Collides(db, s.(amount := amount)) <==> Collides(db, s)
      ensures ApplicablePolicies(db, NewReservation(s.(amount := amount), None), clk.now) == policies
    {
      OtherAmount(f, tx, db, s, clk, amount);
      OtherAmountApplies(db, s, clk, amount);
      ForeseesIff(f, tx.(amount := amount), db, s.(amount := amount), clk);
    }
    if IsMember(db, s, clk.now) && !Collides(db, s) && policies.Success? {
      SomeBudget(db, NewReservation(s, None), clk.now);
      var left, available := Room(Lefts(db, policies.value, clk.now)), Room(Availables(db, policies.value, clk));
      forall amount: int | amount > 0
        ensures PolicyCovers(db, policies.value, amount, clk.now) <==> amount <= left
        ensures LedgerCovers(db, policies.value, amount, clk) <==> amount <= available
      {
        CoversByRoom(db, policies.value, amount, clk);
      }
      if left != available {
        var between := if left < available then available else left;
        assert !ForeseesAmount(f, tx, db, s, clk, between);
      }
    }
  }

  /** Counting alike in each applicable budget is enough. */
  lemma SameCountsSameRoom(db: Db, policies: seq<PolicyId>, clk: Clock)
    requires Known(db, policies) && policies != []
    requires forall p :: p in policies ==> Stored(db, p, clk.now) == Counted(db, p, clk)
    ensures Room(Lefts(db, policies, clk.now)) == Room(Availables(db, policies, clk))
  {
    hide Stored, Counted, Available;
    forall i | 0 <= i < |policies| ensures Lefts(db, policies, clk.now)[i] == Availables(db, policies, clk)[i] {
      assert policies[i] in policies;
      AvailableCounts(db, policies[i], clk);
    }
    assert Lefts(db, policies, clk.now) == Availables(db, policies, clk);
  }

  /** With one budget it is necessary too, unless both counts exhaust it. */
  lemma OneBudgetRoom(db: Db, p: PolicyId, clk: Clock)
    requires p in db.policies && Known(db, [p])
    ensures Room(Lefts(db, [p], clk.now)) == Room(Availables(db, [p], clk)) <==>
            Stored(db, p, clk.now) == Counted(db, p, clk)
            || (db.policies[p].limit <= Stored(db, p, clk.now) && db.policies[p].limit <= Counted(db, p, clk))
  {
    hide Stored, Counted, Available;
    AvailableCounts(db, p, clk);
  }

  // ----- Budgets that cannot be read -----

  /** Amounts of at most 31 digits, periods that are not empty, and at most one that contains the instant. */
  predicate Readable(db: Db, id: PolicyId, now: Instant)
    requires id in db.policies
  {
    && FitsMinor(db.policies[id].limit)
    && (forall slot :: slot in RowsOfBudget(db, id) ==> slot.period < db.balances[slot].endsAt)
    && |CurrentRows(db, id, now)| <= 1
    && (forall slot :: slot in CurrentRows(db, id, now) ==>
          FitsMinor(db.balances[slot].committed) && FitsMinor(db.balances[slot].reserved))
  }

  lemma ReadableIff(db: Db, id: PolicyId, now: Instant)
    requires Inv(db) && id in db.policies
    ensures ToBudget(db, id, now).Some? <==> Readable(db, id, now)
  {
    hide Agrees, Boundary, Recorded, FitsMinor, Loaded;
    InvReads(db, id);
    var current := CurrentRows(db, id, now);
    CountedRows(current);
    LoadsIff(db.policies[id].limit);
    if |current| == 1 {
      var slot :| current == {slot};
      assert slot in current && slot in db.balances;
      SlotsOne(current, slot);
      assert BalanceOk(db, slot);
      LoadsIff(db.balances[slot].committed);
      LoadsIff(db.balances[slot].reserved);
    }
  }

  lemma InvReads(db: Db, id: PolicyId)
    requires Inv(db) && id in db.policies
    ensures db.policies[id].limit > 0 && db.policies[id].revision >= 1
    ensures forall slot :: slot in db.balances ==> BalanceOk(db, slot)
  {
  }

  lemma LoadsIff(amount: int)
    requires amount >= 0
    ensures Loaded(amount) == if FitsMinor(amount) then Some(amount) else None
  {
    StoredAmountsRead(amount);
  }

  /**
   The policy answers UNAVAILABLE about a new purchase exactly when some budget of the
   Organisation cannot be read; two rows that contain the instant are such a case.
   */
  lemma UnreadableIff(f: Facts, tx: Transaction, db: Db, organisation: Id, market: Id)
    requires Inv(db) && f.budgets == LoadBudgets(db, organisation, f.now) && f.reservation == None
    ensures EvaluateBudgets(f, tx, market) == Some(UNAVAILABLE) <==>
            exists id :: id in BudgetsOwned(db, organisation) && !Readable(db, id, f.now)
  {
    hide Inv, Readable, ToBudget, FactsOf, Applicable, MembershipBudget, OrganisationBudget, AgreementBudget, Covers;
    forall id | id in BudgetsOwned(db, organisation) ensures ToBudget(db, id, f.now).Some? <==> Readable(db, id, f.now) {
      ReadableIff(db, id, f.now);
    }
  }
}
