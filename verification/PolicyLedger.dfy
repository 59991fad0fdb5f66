/** The operation policy's budget arithmetic against what the ledger will admit. */
module PolicyLedger {
  import opened Wrappers
  import opened Sorting
  import opened Numerals
  import opened SpendTypes
  import opened SpendCommands
  import opened SpendBooks
  import opened SpendEffects
  import opened SpendInvariants
  import opened SpendKeeps
  import opened SpendKeepsMore
  import opened SpendAdmission
  import opened BuyerPolicy
  import opened PolicyMeaning

  // ----- Loading -----

  /** A stored amount as the loader reads it. */
  function Loaded(amount: int): Option<nat> {
    StrictMinorUnits(Wrapped(PrintInt(amount)))
  }

  function RowsOfBudget(db: Db, id: PolicyId): set<Slot> {
    set slot | slot in db.balances && slot.policy == id
  }

  /** The balance rows whose stored bounds contain the instant. */
  function CurrentRows(db: Db, id: PolicyId, now: Instant): set<Slot> {
    set slot | slot in db.balances && slot.policy == id && slot.period <= now < db.balances[slot].endsAt
  }

  /** A budget with its current balance, or nothing when a row is malformed. */
  function ToBudget(db: Db, id: PolicyId, now: Instant): Option<BudgetFact>
    requires id in db.policies
  {
    var p, current := db.policies[id], CurrentRows(db, id, now);
    var limit := Loaded(p.limit);
    if limit.None? || limit.value == 0 || p.revision < 1 then
      None
    else if exists slot :: slot in RowsOfBudget(db, id) && db.balances[slot].endsAt <= slot.period then
      None
    else if |current| > 1 then
      None
    else if |current| == 0 then
      Some(BudgetFact(id, p.revision, p.status, p.scope, p.market, p.currency, limit.value, p.from, p.until, None, 0, 0))
    else
      var slot := SlotsInOrder(current)[0];
      var balance := db.balances[slot];
      var committed, reserved := Loaded(balance.committed), Loaded(balance.reserved);
      if committed.None? || reserved.None? then
        None
      else
        Some(BudgetFact(id, p.revision, p.status, p.scope, p.market, p.currency, limit.value, p.from, p.until,
                        Some(Period(slot.period, balance.endsAt)), committed.value, reserved.value))
  }

  function BudgetsOwned(db: Db, organisation: Id): set<PolicyId> {
    set id | id in db.policies && db.policies[id].organisation == organisation
  }

  function FactsOf(db: Db, ids: seq<PolicyId>, now: Instant): seq<BudgetFact>
    requires forall id :: id in ids ==> id in db.policies && ToBudget(db, id, now).Some?
    decreases |ids|
  {
    if ids == [] then [] else [ToBudget(db, ids[0], now).value] + FactsOf(db, ids[1..], now)
  }

  /** The budgets of an Organisation; one malformed row makes them all unavailable. */
  function LoadBudgets(db: Db, organisation: Id, now: Instant): Source<seq<BudgetFact>> {
    var ids := InOrder(BudgetsOwned(db, organisation));
    if forall id :: id in ids ==> ToBudget(db, id, now).Some? then Read(FactsOf(db, ids, now)) else Source.Unavailable
  }

  function HoldFacts(db: Db, id: ResId, slots: seq<Slot>): seq<HoldFact>
    requires forall slot :: slot in slots ==> HoldKey(id, slot) in db.holds
    decreases |slots|
  {
    if slots == [] then
      []
    else
      var hold := db.holds[HoldKey(id, slots[0])];
      [HoldFact(slots[0].policy, hold.revision, slots[0].period, hold.reserved)] + HoldFacts(db, id, slots[1..])
  }

  function ToReservation(db: Db, id: ResId): ReservationFact
    requires id in db.reservations
  {
    var r := db.reservations[id];
    HeldListing(db, id);
    ReservationFact(r.status, r.membership, r.market, r.currency, r.agreement, r.digest, PrintInt(r.version), r.expiresAt,
                    HoldFacts(db, id, HeldSlots(db, id)))
  }

  // ----- One budget -----

  /**
   The stored bounds and the budget's current period agree: exactly the row of
   the current period, if there is one, covers the instant.
   */
  predicate Aligned(db: Db, id: PolicyId, clk: Clock)
    requires id in db.policies
  {
    forall slot :: slot in db.balances && slot.policy == id ==>
      (slot.period <= clk.now < db.balances[slot].endsAt <==> slot == CurrentSlot(db, id, clk))
  }

  lemma SlotsOne(slots: set<Slot>, slot: Slot)
    requires slots == {slot}
    ensures SlotsInOrder(slots) == [slot]
  {
    var r := SlotsInOrder(slots);
    assert slot in r && forall i :: 0 <= i < |r| ==> r[i] in r;
  }

  lemma AlignedRows(db: Db, id: PolicyId, clk: Clock)
    requires id in db.policies && Aligned(db, id, clk)
    ensures CurrentRows(db, id, clk.now) == if CurrentSlot(db, id, clk) in db.balances then {CurrentSlot(db, id, clk)} else {}
  {
  }

  /** An aligned budget's fact consumes exactly what the ledger counts this period. */
  lemma AlignedFact(db: Db, id: PolicyId, clk: Clock)
    requires id in db.policies && Aligned(db, id, clk) && ToBudget(db, id, clk.now).Some?
    ensures var b := ToBudget(db, id, clk.now).value;
            && b.limit - Consumed(b, clk.now) == Available(db, id, clk)
            && (PeriodCurrent(b, clk.now) <==> CurrentSlot(db, id, clk) in db.balances)
            && (PeriodCurrent(b, clk.now) ==> b.period.value.startsAt == CurrentSlot(db, id, clk).period)
  {
    AlignedRows(db, id, clk);
    var slot := CurrentSlot(db, id, clk);
    StoredAmountsRead(db.policies[id].limit);
    if slot in db.balances {
      SlotsOne(CurrentRows(db, id, clk.now), slot);
      StoredAmountsRead(db.balances[slot].committed);
      StoredAmountsRead(db.balances[slot].reserved);
    }
  }

  // ----- Counting -----

  lemma BudgetNames(db: Db, id: PolicyId, now: Instant)
    requires id in db.policies && ToBudget(db, id, now).Some?
    ensures ToBudget(db, id, now).value.policy == id && ToBudget(db, id, now).value.revision == db.policies[id].revision
  {
  }

  ghost predicate Picks(found: Single<BudgetFact>, db: Db, matching: set<PolicyId>, now: Instant) {
    if matching == {} then found.NoRecord?
    else if |matching| > 1 then found.Ambiguous?
    else found.One? && found.value.policy in matching && found.value.policy in db.policies
         && Some(found.value) == ToBudget(db, found.value.policy, now)
  }

  lemma {:induction false} FilteredCount(db: Db, ids: seq<PolicyId>, now: Instant, p: BudgetFact -> bool, matching: set<PolicyId>)
    requires forall id :: id in ids ==> id in db.policies && ToBudget(db, id, now).Some?
    requires Distinct(ids) && forall id :: id in matching <==> id in ids && p(ToBudget(db, id, now).value)
    ensures |Filter(FactsOf(db, ids, now), p)| == |matching|
    ensures forall b :: b in Filter(FactsOf(db, ids, now), p) ==> b.policy in matching && Some(b) == ToBudget(db, b.policy, now)
    decreases |ids|
  {
    hide ToBudget;
    if ids != [] {
      var id, rest := ids[0], ids[1..];
      assert id in ids && id !in rest && forall x :: x in ids <==> x == id || x in rest;
      FilteredCount(db, rest, now, p, matching - {id});
      assert FactsOf(db, ids, now)[1..] == FactsOf(db, rest, now);
      assert id !in matching ==> matching - {id} == matching;
      BudgetNames(db, id, now);
    } else {
      assert matching == {};
    }
  }

  lemma SinglePicks(db: Db, ids: seq<PolicyId>, now: Instant, p: BudgetFact -> bool, matching: set<PolicyId>)
    requires forall id :: id in ids ==> id in db.policies && ToBudget(db, id, now).Some?
    requires Distinct(ids) && forall id :: id in matching <==> id in ids && p(ToBudget(db, id, now).value)
    ensures Picks(SingleOf(Filter(FactsOf(db, ids, now), p)), db, matching, now)
  {
    hide ToBudget, Filter, FactsOf;
    FilteredCount(db, ids, now, p, matching);
    var found := Filter(FactsOf(db, ids, now), p);
    if |found| == 1 {
      assert found[0] in found;
    }
  }

  // ----- The same budgets bind -----

  datatype Kind = OfMember | OfOrganisation | OfAgreement

  predicate IsKind(scope: Scope, kind: Kind) {
    match kind
    case OfMember => scope.MembershipScope?
    case OfOrganisation => scope.OrganisationScope?
    case OfAgreement => scope.AgreementScope?
  }

  /** The budgets of one kind that the ledger applies to a reservation. */
  function Binding(db: Db, r: Reservation, now: Instant, kind: Kind): set<PolicyId> {
    set id | id in db.policies && Applies(db.policies[id], r, now) && IsKind(db.policies[id].scope, kind)
  }

  lemma ApplicableByKind(db: Db, r: Reservation, now: Instant)
    ensures var m, o, a := Binding(db, r, now, OfMember), Binding(db, r, now, OfOrganisation), Binding(db, r, now, OfAgreement);
            var policies := ApplicablePolicies(db, r, now);
            if m == {} then
              policies == Failure(Refuse(SpendPolicyNotConfigured))
            else if |m| > 1 || |o| > 1 || |a| > 1 then
              policies == Failure(Refuse(ContextNotUsable))
            else
              policies.Success? && forall p :: p in policies.value <==> p in m + o + a
  {
    hide Applies, Sort;
    var ids := ApplicableIds(db, r, now);
    assert Binding(db, r, now, OfMember) == (set id | id in ids && db.policies[id].scope.MembershipScope?);
    assert Binding(db, r, now, OfOrganisation) == (set id | id in ids && db.policies[id].scope.OrganisationScope?);
    assert Binding(db, r, now, OfAgreement) == (set id | id in ids && db.policies[id].scope.AgreementScope?);
  }

  /** All budgets of an Organisation belong to one tenant. */
  predicate OneTenant(db: Db, organisation: Id, tenant: Id) {
    forall id :: id in BudgetsOwned(db, organisation) ==> db.policies[id].tenant == tenant
  }

  /** The facts are about this purchase, and hold the ledger's budgets at this instant. */
  ghost predicate AsksAbout(f: Facts, tx: Transaction, db: Db, r: Reservation, clk: Clock) {
    && f.now == clk.now && f.membershipId == r.membership && tx.currency == r.currency && tx.agreement == r.agreement
    && tx.amount == r.amount && f.budgets == LoadBudgets(db, r.organisation, clk.now) && f.budgets.Read?
    && OneTenant(db, r.organisation, r.tenant)
  }

  function Binds(f: Facts, tx: Transaction, market: Id, kind: Kind): BudgetFact -> bool {
    match kind
    case OfMember => MembershipBinds(f, tx, market)
    case OfOrganisation => OrganisationBinds(f, tx, market)
    case OfAgreement => AgreementBinds(f, tx, market)
  }

  lemma BindsAlike(f: Facts, tx: Transaction, db: Db, r: Reservation, clk: Clock, kind: Kind, id: PolicyId)
    requires AsksAbout(f, tx, db, r, clk) && id in BudgetsOwned(db, r.organisation) && ToBudget(db, id, clk.now).Some?
    ensures Binds(f, tx, r.market, kind)(ToBudget(db, id, clk.now).value) <==> id in Binding(db, r, clk.now, kind)
  {
    hide Loaded, RowsOfBudget, CurrentRows, LoadBudgets;
    StoredAmountsRead(db.policies[id].limit);
  }

  lemma PicksByKind(f: Facts, tx: Transaction, db: Db, r: Reservation, clk: Clock, kind: Kind)
    requires AsksAbout(f, tx, db, r, clk)
    ensures f.budgets.Read?
    ensures Picks(SingleOf(Filter(f.budgets.value, Binds(f, tx, r.market, kind))), db, Binding(db, r, clk.now, kind), clk.now)
  {
    hide ToBudget, Filter, Picks, Binds, FactsOf;
    var ids := InOrder(BudgetsOwned(db, r.organisation));
    forall id ensures id in Binding(db, r, clk.now, kind) <==> id in ids && Binds(f, tx, r.market, kind)(ToBudget(db, id, clk.now).value) {
      if id in ids {
        BindsAlike(f, tx, db, r, clk, kind, id);
      }
    }
    SinglePicks(db, ids, clk.now, Binds(f, tx, r.market, kind), Binding(db, r, clk.now, kind));
  }

  // ----- The purchase's own hold -----

  /** The facts carry the purchase's own live reservation, if it has one. */
  ghost predicate CarriesOwn(f: Facts, db: Db, own: Option<ResId>, clk: Clock) {
    if own.None? then
      f.reservation == None
    else
      && own.value in db.reservations && f.reservation == Some(Read(ToReservation(db, own.value)))
      && db.reservations[own.value].status == Active && clk.now < db.reservations[own.value].expiresAt
  }

  function Credit(db: Db, own: Option<ResId>, id: PolicyId, clk: Clock): int
    requires id in db.policies
  {
    if own.Some? then CurrentlyReserved(db, own.value, id, clk) else 0
  }

  lemma {:induction false} FindsHold(db: Db, id: ResId, slots: seq<Slot>, wanted: Slot, revision: nat)
    requires AllHeld(db, id, slots) && Distinct(slots)
    ensures var found := Find(HoldFacts(db, id, slots),
                              (h: HoldFact) => h.policy == wanted.policy && h.revision == revision && h.periodStartsAt == wanted.period);
            if wanted in slots && db.holds[HoldKey(id, wanted)].revision == revision then
              found.Some? && found.value.reserved == db.holds[HoldKey(id, wanted)].reserved
            else
              found.None?
    decreases |slots|
  {
    if slots != [] {
      assert slots[0] in slots && slots[0] !in slots[1..];
      FindsHold(db, id, slots[1..], wanted, revision);
      assert HoldFacts(db, id, slots)[1..] == HoldFacts(db, id, slots[1..]);
      assert wanted == Slot(wanted.policy, wanted.period);
      assert slots[0] == Slot(slots[0].policy, slots[0].period);
    }
  }

  lemma CreditMatches(f: Facts, db: Db, own: Option<ResId>, id: PolicyId, clk: Clock)
    requires Books(db) && CarriesOwn(f, db, own, clk) && f.now == clk.now
    requires id in db.policies && Aligned(db, id, clk) && ToBudget(db, id, clk.now).Some?
    ensures Credited(f, ToBudget(db, id, clk.now).value) == Credit(db, own, id, clk)
  {
    hide Books, ToBudget, HeldSlots, Find;
    BudgetNames(db, id, clk.now);
    AlignedFact(db, id, clk);
    if own.Some? {
      var b, slot := ToBudget(db, id, clk.now).value, CurrentSlot(db, id, clk);
      HeldListing(db, own.value);
      FindsHold(db, own.value, HeldSlots(db, own.value), slot, b.revision);
      if HoldKey(own.value, slot) in db.holds {
        HoldHasBalance(db, HoldKey(own.value, slot));
      }
    }
  }

  lemma HoldHasBalance(db: Db, hk: HoldKey)
    requires Books(db) && hk in db.holds
    ensures hk.slot in db.balances
  {
    assert HoldOk(db, hk);
  }

  // ----- Refinement -----

  /** A budget covers what the purchase's own current hold in it does not. */
  ghost predicate HasCover(db: Db, own: Option<ResId>, id: PolicyId, amount: int, clk: Clock)
    requires id in db.policies
  {
    amount <= Credit(db, own, id, clk) || amount - Credit(db, own, id, clk) <= Available(db, id, clk)
  }

  ghost predicate AllAligned(db: Db, r: Reservation, clk: Clock) {
    forall id :: id in db.policies && Applies(db.policies[id], r, clk.now) ==> Aligned(db, id, clk)
  }

  lemma KindCovers(f: Facts, tx: Transaction, db: Db, r: Reservation, own: Option<ResId>, clk: Clock, kind: Kind)
    requires AsksAbout(f, tx, db, r, clk) && Books(db) && CarriesOwn(f, db, own, clk) && AllAligned(db, r, clk)
    requires |Binding(db, r, clk.now, kind)| <= 1
    ensures var found := SingleOf(Filter(f.budgets.value, Binds(f, tx, r.market, kind)));
            && !found.Ambiguous?
            && (Covers(f, tx, found) <==>
                forall id :: id in Binding(db, r, clk.now, kind) ==> HasCover(db, own, id, r.amount, clk))
  {
    hide ToBudget, Filter, Binds, Credited, Credit, Books, Available, Consumed, Aligned, CarriesOwn;
    PicksByKind(f, tx, db, r, clk, kind);
    var ids := Binding(db, r, clk.now, kind);
    if ids != {} {
      var found := SingleOf(Filter(f.budgets.value, Binds(f, tx, r.market, kind))).value;
      var id := found.policy;
      forall x | x in ids ensures x == id {
        SingletonOnly(ids, x, id);
      }
      AlignedFact(db, id, clk);
      CreditMatches(f, db, own, id, clk);
    }
  }

  lemma SingletonOnly<T>(s: set<T>, x: T, y: T)
    requires |s| == 1 && x in s && y in s
    ensures x == y
  {
    var rest := s - {x};
    assert |rest| == 0;
    assert y in rest + {x};
  }

  /** What the ledger's own budgets say about the purchase. */
  ghost function LedgerBudgets(db: Db, r: Reservation, own: Option<ResId>, clk: Clock): Option<Decision> {
    var policies := ApplicablePolicies(db, r, clk.now);
    if policies == Failure(Refuse(SpendPolicyNotConfigured)) then
      Some(Denied(SpendPolicyNotConfigured))
    else if policies.Failure? then
      Some(Denied(ContextNotUsable))
    else if forall id :: id in policies.value && id in db.policies ==> HasCover(db, own, id, r.amount, clk) then
      None
    else
      Some(Denied(SpendLimitExceeded))
  }

  /** With aligned periods the policy's budget check and the ledger's budgets give one answer. */
  lemma BudgetsAgree(f: Facts, tx: Transaction, db: Db, r: Reservation, own: Option<ResId>, clk: Clock)
    requires AsksAbout(f, tx, db, r, clk) && Books(db) && CarriesOwn(f, db, own, clk) && AllAligned(db, r, clk)
    requires f.reservation.Some? ==> !Mismatched(f.reservation.value.value, f, tx, r.market)
    ensures EvaluateBudgets(f, tx, r.market) == LedgerBudgets(db, r, own, clk)
  {
    hide Books, Filter, Binding, ApplicablePolicies, Covers, HasCover, Applicable, MembershipBudget, OrganisationBudget, AgreementBudget,
         Mismatched, MembershipBinds, OrganisationBinds, AgreementBinds, LoadBudgets, Aligned, ToReservation, ToBudget;
    ApplicableByKind(db, r, clk.now);
    BudgetsAre(f, tx, r.market);
    PicksByKind(f, tx, db, r, clk, OfMember);
    PicksByKind(f, tx, db, r, clk, OfOrganisation);
    PicksByKind(f, tx, db, r, clk, OfAgreement);
    var m, o, a := Binding(db, r, clk.now, OfMember), Binding(db, r, clk.now, OfOrganisation), Binding(db, r, clk.now, OfAgreement);
    if |m| <= 1 && |o| <= 1 && |a| <= 1 {
      KindCovers(f, tx, db, r, own, clk, OfMember);
      KindCovers(f, tx, db, r, own, clk, OfOrganisation);
      KindCovers(f, tx, db, r, own, clk, OfAgreement);
      BoundKnown(db, r, clk.now);
    }
  }

  lemma BoundKnown(db: Db, r: Reservation, now: Instant)
    ensures forall kind, id :: id in Binding(db, r, now, kind) ==> id in db.policies
  {
  }

  lemma BudgetRefusals(db: Db, r: Reservation, now: Instant)
    ensures ApplicablePolicies(db, r, now).Failure? ==>
      ApplicablePolicies(db, r, now).error in {Refuse(SpendPolicyNotConfigured), Refuse(ContextNotUsable)}
  {
    ApplicableByKind(db, r, now);
  }

  /** The refusal the policy gives, or what else becomes of the submission. */
  ghost function Foreseen(f: Facts, tx: Transaction, db: Db, s: Submission, clk: Clock): Outcome {
    var budgets := EvaluateBudgets(f, tx, s.market);
    if !IsMember(db, s, clk.now) then
      Refused(BuyerNotAuthorised, false)
    else if Collides(db, s) then
      Conflict
    else if budgets == Some(Denied(SpendPolicyNotConfigured)) then
      Refused(SpendPolicyNotConfigured, false)
    else if budgets == Some(Denied(ContextNotUsable)) then
      Refused(ContextNotUsable, false)
    else if budgets == Some(Denied(SpendLimitExceeded)) then
      Refused(SpendLimitExceeded, false)
    else
      AppliedNow(Applied(ResId(s.organisation, s.key), Active, 1, None))
  }

  /**
   With facts loaded from the ledger and no prior reservation, the policy's
   budget check passes exactly when the submission meets no budget refusal, and
   otherwise names the same reason.
   */
  lemma PolicyForeseesSubmission(f: Facts, tx: Transaction, db: Db, s: Submission, clk: Clock)
    requires Fresh(db, Submit(s), clk) && AsksAbout(f, tx, db, NewReservation(s, None), clk) && f.reservation == None
    requires AllAligned(db, NewReservation(s, None), clk)
    ensures Run(db, Submit(s), clk).1 == Foreseen(f, tx, db, s, clk)
    ensures EvaluateBudgets(f, tx, s.market).Some? ==>
      EvaluateBudgets(f, tx, s.market).value in {Denied(SpendPolicyNotConfigured), Denied(ContextNotUsable), Denied(SpendLimitExceeded)}
  {
    hide Books, Boundary, ApplicablePolicies, EvaluateBudgets, IsMember, Collides, AsksAbout, AllAligned, SubmissionOk, Run, Available;
    var r := NewReservation(s, None);
    SubmitAnswered(db, s, clk);
    BudgetRefusals(db, r, clk.now);
    BudgetsAgree(f, tx, db, r, None, clk);
    if ApplicablePolicies(db, r, clk.now).Success? {
      CoverIsRoom(db, s, ApplicablePolicies(db, r, clk.now).value, clk);
    }
  }

  lemma CoverIsRoom(db: Db, s: Submission, policies: seq<PolicyId>, clk: Clock)
    requires SubmissionOk(s, clk.now)
    ensures AllHaveRoom(db, policies, s.amount, None, clk) <==>
            forall id :: id in policies && id in db.policies ==> HasCover(db, None, id, s.amount, clk)
  {
    hide Available;
  }

  // ----- A live reservation -----

  /** The facts name the reservation's own purchase. */
  ghost predicate AsksAboutOwn(f: Facts, tx: Transaction, db: Db, id: ResId, clk: Clock) {
    && id in db.reservations && AsksAbout(f, tx, db, db.reservations[id], clk) && CarriesOwn(f, db, Some(id), clk)
    && tx.digest == db.reservations[id].digest && tx.version == PrintInt(db.reservations[id].version)
  }

  /** The budget's current hold at its current revision covers the purchase, or fresh capacity does. */
  ghost predicate CoveredNow(db: Db, id: ResId, policies: seq<PolicyId>, clk: Clock)
    requires id in db.reservations
  {
    forall p :: p in policies && p in db.policies ==>
      CurrentlyReserved(db, id, p, clk) == db.reservations[id].amount || db.reservations[id].amount <= Available(db, p, clk)
  }

  /** With the purchase's own reservation the policy passes exactly when each budget is covered now. */
  lemma PolicyOfLiveReservation(f: Facts, tx: Transaction, db: Db, id: ResId, policies: seq<PolicyId>, clk: Clock)
    requires Live(db, id, policies, clk) && AsksAboutOwn(f, tx, db, id, clk) && AllAligned(db, db.reservations[id], clk)
    ensures EvaluateBudgets(f, tx, db.reservations[id].market) ==
            if CoveredNow(db, id, policies, clk) then None else Some(Denied(SpendLimitExceeded))
  {
    hide Books, ApplicablePolicies, EvaluateBudgets, AsksAbout, AllAligned, Available, CurrentlyReserved, HeldSlots;
    var r := db.reservations[id];
    OwnMatches(f, tx, db, id, clk);
    BudgetsAgree(f, tx, db, r, Some(id), clk);
    ApplicableListing(db, r, clk.now);
    forall p | p in policies
      ensures HasCover(db, Some(id), p, r.amount, clk) <==>
              CurrentlyReserved(db, id, p, clk) == r.amount || r.amount <= Available(db, p, clk)
    {
      AllOrNothing(db, id, p, clk);
    }
  }

  lemma AllOrNothing(db: Db, id: ResId, p: PolicyId, clk: Clock)
    requires id in db.reservations && Settled(db, id) && p in db.policies
    ensures db.reservations[id].amount > 0
    ensures CurrentlyReserved(db, id, p, clk) == 0 || CurrentlyReserved(db, id, p, clk) == db.reservations[id].amount
  {
    assert SettledHold(db, id, CurrentSlot(db, p, clk));
  }

  lemma OwnMatches(f: Facts, tx: Transaction, db: Db, id: ResId, clk: Clock)
    requires AsksAboutOwn(f, tx, db, id, clk)
    ensures f.reservation.Some? && f.reservation.value.Read?
    ensures !Mismatched(f.reservation.value.value, f, tx, db.reservations[id].market)
  {
    hide LoadBudgets;
  }

  /**
   A purchase whose budgets pass is never refused a rollover for capacity. Not
   conversely: the ledger returns a hold of a superseded revision before it
   reserves again, and the policy does not credit it.
   */
  lemma PassingMayRollOver(f: Facts, tx: Transaction, db: Db, roll: Command, policies: seq<PolicyId>, clk: Clock)
    requires roll.Rollover? && Fresh(db, roll, clk) && Live(db, roll.reservation, policies, clk)
    requires db.reservations[roll.reservation].organisation == roll.organisation
    requires AsksAboutOwn(f, tx, db, roll.reservation, clk) && AllAligned(db, db.reservations[roll.reservation], clk)
    ensures EvaluateBudgets(f, tx, db.reservations[roll.reservation].market).None? ==> Run(db, roll, clk).1.AppliedNow?
    ensures Run(db, roll, clk).1 != Refused(SpendLimitExceeded, false) && EvaluateBudgets(f, tx, db.reservations[roll.reservation].market).Some? ==>
      exists p :: p in policies && StaleHold(db, roll.reservation, p, clk)
  {
    hide Books, ApplicablePolicies, EvaluateBudgets, AsksAboutOwn, AllAligned, Available, CurrentlyReserved, Run, ArgumentsOk, StaleHold;
    var id := roll.reservation;
    PolicyOfLiveReservation(f, tx, db, id, policies, clk);
    RolloverAnswered(db, roll, clk);
    ApplicableListing(db, db.reservations[id], clk.now);
    forall p | p in policies
      ensures 0 <= ReservedBy(db, id, CurrentSlot(db, p, clk))
      ensures CurrentlyReserved(db, id, p, clk) != db.reservations[id].amount && ReservedBy(db, id, CurrentSlot(db, p, clk)) > 0 ==> StaleHold(db, id, p, clk)
    {
      StaleOrCurrent(db, id, p, clk);
    }
  }

  /** The budget's current period holds the purchase at a superseded revision. */
  ghost predicate StaleHold(db: Db, id: ResId, p: PolicyId, clk: Clock) {
    && p in db.policies && HoldKey(id, CurrentSlot(db, p, clk)) in db.holds
    && db.holds[HoldKey(id, CurrentSlot(db, p, clk))].reserved > 0
    && db.holds[HoldKey(id, CurrentSlot(db, p, clk))].revision < db.policies[p].revision
  }

  lemma StaleOrCurrent(db: Db, id: ResId, p: PolicyId, clk: Clock)
    requires Books(db) && id in db.reservations && Settled(db, id) && p in db.policies
    ensures 0 <= ReservedBy(db, id, CurrentSlot(db, p, clk))
    ensures CurrentlyReserved(db, id, p, clk) != db.reservations[id].amount && ReservedBy(db, id, CurrentSlot(db, p, clk)) > 0 ==> StaleHold(db, id, p, clk)
  {
    var hk := HoldKey(id, CurrentSlot(db, p, clk));
    assert SettledHold(db, id, hk.slot);
    if hk in db.holds {
      assert HoldOk(db, hk);
    }
  }
}
