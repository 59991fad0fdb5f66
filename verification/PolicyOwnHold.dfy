/** What the policy says of a purchase with its own live reservation, whatever the stored periods are. */
module PolicyOwnHold {
  import opened Wrappers
  import opened SpendTypes
  import opened SpendCommands
  import opened SpendBooks
  import opened SpendEffects
  import opened SpendInvariants
  import opened SpendKeeps
  import opened SpendKeepsMore
  import opened SpendAdmission
  import opened BuyerPolicy
  import opened PolicyMeaning
  import opened PolicyLedger
  import opened PolicyDivergence

  /** The purchase's hold, at the budget's revision, in the one row whose stored bounds contain the instant. */
  function StoredCredit(db: Db, id: ResId, p: PolicyId, now: Instant): int
    requires p in db.policies
  {
    var rows := SlotsInOrder(CurrentRows(db, p, now));
    if |rows| == 1 && HoldKey(id, rows[0]) in db.holds && db.holds[HoldKey(id, rows[0])].revision == db.policies[p].revision then
      db.holds[HoldKey(id, rows[0])].reserved
    else
      0
  }

  lemma NoSlots(slots: set<Slot>)
    ensures slots == {} ==> SlotsInOrder(slots) == []
  {
    var rows := SlotsInOrder(slots);
    assert forall i :: 0 <= i < |rows| ==> rows[i] in rows;
  }

  lemma CreditIsStored(f: Facts, db: Db, id: ResId, p: PolicyId, clk: Clock)
    requires CarriesOwn(f, db, Some(id), clk) && f.now == clk.now && p in db.policies && ToBudget(db, p, clk.now).Some?
    ensures Credited(f, ToBudget(db, p, clk.now).value) == StoredCredit(db, id, p, clk.now)
  {
    hide HeldSlots, Find, Loaded;
    var b, current := ToBudget(db, p, clk.now).value, CurrentRows(db, p, clk.now);
    CountedRows(current);
    HeldListing(db, id);
    if |current| == 1 {
      var slot :| current == {slot};
      assert slot in current;
      SlotsOne(current, slot);
      FindsHold(db, id, HeldSlots(db, id), slot, b.revision);
    } else {
      NoSlots(current);
    }
  }

  /** The budget's covering row holds the purchase, or its limit less what that row counts has the amount. */
  ghost predicate OwnCovered(db: Db, id: ResId, p: PolicyId, amount: int, now: Instant)
    requires p in db.policies
  {
    amount <= StoredCredit(db, id, p, now) || amount - StoredCredit(db, id, p, now) <= Left(db, p, now)
  }

  lemma KindCoversOwn(f: Facts, tx: Transaction, db: Db, r: Reservation, id: ResId, clk: Clock, kind: Kind)
    requires AsksAbout(f, tx, db, r, clk) && CarriesOwn(f, db, Some(id), clk) && |Binding(db, r, clk.now, kind)| <= 1
    ensures var found := SingleOf(Filter(f.budgets.value, Binds(f, tx, r.market, kind)));
            && !found.Ambiguous?
            && (Covers(f, tx, found) <==>
                forall p :: p in Binding(db, r, clk.now, kind) && p in db.policies ==> OwnCovered(db, id, p, r.amount, clk.now))
  {
    hide ToBudget, Filter, Binds, Available, Consumed, Stored, Counted, Credited, StoredCredit, CarriesOwn;
    PicksByKind(f, tx, db, r, clk, kind);
    var ids := Binding(db, r, clk.now, kind);
    BoundKnown(db, r, clk.now);
    if ids != {} {
      var p := SingleOf(Filter(f.budgets.value, Binds(f, tx, r.market, kind))).value.policy;
      forall x | x in ids ensures x == p {
        SingletonOnly(ids, x, p);
      }
      FactLeaves(db, p, clk);
      AvailableCounts(db, p, clk);
      CreditIsStored(f, db, id, p, clk);
    }
  }

  /** Every applicable budget's covering row holds the whole purchase at the budget's revision, or leaves room for it. */
  ghost predicate AllOwnCovered(db: Db, id: ResId, policies: seq<PolicyId>, now: Instant)
    requires id in db.reservations
  {
    forall p :: p in policies && p in db.policies ==>
      StoredCredit(db, id, p, now) == db.reservations[id].amount || db.reservations[id].amount <= Left(db, p, now)
  }

  lemma CreditAllOrNothing(db: Db, id: ResId, p: PolicyId, now: Instant)
    requires id in db.reservations && Settled(db, id) && p in db.policies
    ensures db.reservations[id].amount > 0
    ensures StoredCredit(db, id, p, now) == 0 || StoredCredit(db, id, p, now) == db.reservations[id].amount
  {
    var rows := SlotsInOrder(CurrentRows(db, p, now));
    if |rows| == 1 {
      assert SettledHold(db, id, rows[0]);
    }
  }

  /** Aligned or not, with its own live reservation a purchase passes exactly when each budget is covered so. */
  lemma OwnPolicyAnswers(f: Facts, tx: Transaction, db: Db, id: ResId, policies: seq<PolicyId>, clk: Clock)
    requires Live(db, id, policies, clk) && AsksAboutOwn(f, tx, db, id, clk)
    ensures EvaluateBudgets(f, tx, db.reservations[id].market) ==
            if AllOwnCovered(db, id, policies, clk.now) then None else Some(Denied(SpendLimitExceeded))
  {
    hide Books, Settled, Filter, Binding, ApplicablePolicies, Covers, OwnCovered, Applicable, MembershipBudget, OrganisationBudget,
         AgreementBudget, MembershipBinds, OrganisationBinds, AgreementBinds, LoadBudgets, ToBudget, ToReservation, Mismatched,
         CarriesOwn, Left, StoredCredit, CalendarOk, PolicyOk;
    var r := db.reservations[id];
    OwnMatches(f, tx, db, id, clk);
    ApplicableByKind(db, r, clk.now);
    BudgetsAre(f, tx, r.market);
    PicksByKind(f, tx, db, r, clk, OfMember);
    PicksByKind(f, tx, db, r, clk, OfOrganisation);
    PicksByKind(f, tx, db, r, clk, OfAgreement);
    KindCoversOwn(f, tx, db, r, id, clk, OfMember);
    KindCoversOwn(f, tx, db, r, id, clk, OfOrganisation);
    KindCoversOwn(f, tx, db, r, id, clk, OfAgreement);
    BoundKnown(db, r, clk.now);
    forall p | p in policies && p in db.policies
      ensures OwnCovered(db, id, p, r.amount, clk.now) <==>
              StoredCredit(db, id, p, clk.now) == r.amount || r.amount <= Left(db, p, clk.now)
    {
      CreditAllOrNothing(db, id, p, clk.now);
      CoveredOrRoom(db, id, p, r.amount, clk.now);
    }
  }

  lemma CoveredOrRoom(db: Db, id: ResId, p: PolicyId, amount: int, now: Instant)
    requires p in db.policies && amount > 0 && (StoredCredit(db, id, p, now) == 0 || StoredCredit(db, id, p, now) == amount)
    ensures OwnCovered(db, id, p, amount, now) <==> StoredCredit(db, id, p, now) == amount || amount <= Left(db, p, now)
  {
    hide StoredCredit, Left;
  }

  // ----- Against a rollover -----

  /** The covering rows cover the purchase exactly if its current rows can be renewed. */
  ghost predicate SameRenewal(db: Db, id: ResId, policies: seq<PolicyId>, clk: Clock)
    requires id in db.reservations
  {
    AllOwnCovered(db, id, policies, clk.now) <==> Renewable(db, id, policies, db.reservations[id].amount, clk)
  }

  /** The policy passes a live purchase exactly if its rollover applies, just when covering and current rows agree on that. */
  lemma OwnForeseesIff(f: Facts, tx: Transaction, db: Db, roll: Command, policies: seq<PolicyId>, clk: Clock)
    requires roll.Rollover? && Fresh(db, roll, clk) && Live(db, roll.reservation, policies, clk)
    requires db.reservations[roll.reservation].organisation == roll.organisation && AsksAboutOwn(f, tx, db, roll.reservation, clk)
    ensures (EvaluateBudgets(f, tx, db.reservations[roll.reservation].market).None? <==> Run(db, roll, clk).1.AppliedNow?)
            <==> SameRenewal(db, roll.reservation, policies, clk)
    ensures Run(db, roll, clk).1.AppliedNow? || Run(db, roll, clk).1 == Refused(SpendLimitExceeded, false)
  {
    hide Books, Settled, ApplicablePolicies, EvaluateBudgets, AsksAboutOwn, AllOwnCovered, Renewable, Run, ArgumentsOk, CalendarOk, PolicyOk,
         Boundary, Recorded;
    OwnPolicyAnswers(f, tx, db, roll.reservation, policies, clk);
    RolloverAnswered(db, roll, clk);
  }

  /** A budget that both count alike never passes what its renewal would refuse. */
  lemma CountedAlikeRenews(db: Db, id: ResId, policies: seq<PolicyId>, clk: Clock)
    requires id in db.reservations && Settled(db, id) && Books(db) && AllOwnCovered(db, id, policies, clk.now)
    requires forall p :: p in policies && p in db.policies ==>
      StoredCredit(db, id, p, clk.now) == CurrentlyReserved(db, id, p, clk) && Stored(db, p, clk.now) == Counted(db, p, clk)
    ensures Renewable(db, id, policies, db.reservations[id].amount, clk)
  {
    hide Settled, Books, Stored, Counted, StoredCredit, CurrentlyReserved, Available;
    forall p | p in policies && p in db.policies
      ensures 0 <= ReservedBy(db, id, CurrentSlot(db, p, clk)) && Left(db, p, clk.now) == Available(db, p, clk)
    {
      StaleOrCurrent(db, id, p, clk);
      AvailableCounts(db, p, clk);
    }
  }
}
