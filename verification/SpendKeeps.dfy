/** Every command keeps the invariants, and is refused for capacity exactly when a budget lacks room. */
module SpendKeeps {
  import opened Wrappers
  import opened SpendTypes
  import opened SpendLedger
  import opened SpendCommands
  import opened SpendBooks
  import opened SpendEffects
  import opened SpendOutcome
  import opened SpendInvariants

  lemma ApplicableListing(db: Db, r: Reservation, now: Instant)
    requires ApplicablePolicies(db, r, now).Success?
    ensures var ps := ApplicablePolicies(db, r, now).value;
            && Distinct(ps) && Known(db, ps)
            && (forall p :: p in ps <==> p in db.policies && Applies(db.policies[p], r, now))
  {
  }

  lemma HeldListing(db: Db, id: ResId)
    ensures Distinct(HeldSlots(db, id)) && AllHeld(db, id, HeldSlots(db, id))
    ensures forall slot: Slot :: slot in HeldSlots(db, id) <==> HoldKey(id, slot) in db.holds
  {
    var slots := set hk | hk in db.holds && hk.reservation == id :: hk.slot;
    forall slot: Slot ensures slot in slots <==> HoldKey(id, slot) in db.holds {
      if HoldKey(id, slot) in db.holds {
        assert HoldKey(id, slot).slot in slots;
      }
    }
  }

  // ----- A new reservation takes its holds -----

  /** The tables a submission fills: its row is in place and holds nothing yet. */
  ghost predicate Fillable(db: Db, s: Submission, clk: Clock) {
    var id := ResId(s.organisation, s.key);
    && Books(db) && CalendarOk(clk) && (forall p :: p in db.policies ==> PolicyOk(db.policies[p]))
    && id in db.reservations && db.reservations[id].status == Active
    && db.reservations[id].expiresAt == s.expiresAt && clk.now < s.expiresAt && s.amount > 0
    && (forall hk :: hk in db.holds ==> hk.reservation != id)
    && (forall k :: k in db.entries ==> k.command != s.key)
  }

  function FillPlan(s: Submission, from: ResId, slots: seq<Slot>, why: Why, policies: seq<PolicyId>, step: Step): Plan {
    Plan(from, slots, why, ResId(s.organisation, s.key), policies, s.amount, false, step, s.key, s.actor)
  }

  lemma FillPlanned(db: Db, s: Submission, from: ResId, slots: seq<Slot>, why: Why, step: Step, clk: Clock)
    requires Fillable(db, s, clk) && Distinct(slots) && AllHeld(db, from, slots) && !step.ReleaseStep?
    requires ApplicablePolicies(db, db.reservations[ResId(s.organisation, s.key)], clk.now).Success?
    ensures Planned(db, FillPlan(s, from, slots, why,
                                 ApplicablePolicies(db, db.reservations[ResId(s.organisation, s.key)], clk.now).value, step), clk)
  {
    hide Books;
    var r := db.reservations[ResId(s.organisation, s.key)];
    ApplicableListing(db, r, clk.now);
    var policies := ApplicablePolicies(db, r, clk.now).value;
    forall p | p in policies ensures Reservable(db, FillPlan(s, from, slots, why, policies, step), p, clk) {
      AppliesInPeriod(db.policies[p], r, clk);
    }
  }

  /** The new reservation holds its full amount in each applicable budget, and `from` keeps what was not returned. */
  ghost predicate Filled(db: Db, done: Db, id: ResId, from: ResId, slots: seq<Slot>, why: Why,
                         policies: seq<PolicyId>, amount: int, clk: Clock)
  {
    && (forall hk: HoldKey :: hk.reservation != id ==> HoldLowered(db, done, hk, Returned(db, from, slots, why, hk)))
    && (forall slot: Slot :: ReservedBy(done, id, slot) == Converted(db, policies, amount, clk, slot))
    && (forall slot: Slot :: CommittedBy(done, id, slot) == 0)
    && (forall slot: Slot :: SpentTotal(done, slot) == SpentTotal(db, slot))
  }

  lemma FilledReads(db: Db, mid: Db, done: Db, plan: Plan, clk: Clock)
    requires plan.from != plan.id && !plan.topUp && plan.amount > 0
    requires forall hk :: hk in db.holds ==> hk.reservation != plan.id
    requires ReleasedAs(db, mid, plan.from, plan.slots, plan.why)
    requires ReservedAs(mid, done, plan.id, plan.policies, plan.amount, plan.topUp, clk)
    ensures Filled(db, done, plan.id, plan.from, plan.slots, plan.why, plan.policies, plan.amount, clk)
  {
    SamePolicies(db, mid, plan);
    forall i: ResId, slot: Slot
      ensures ReservedBy(done, i, slot) ==
              ReservedBy(db, i, slot) - Returned(db, plan.from, plan.slots, plan.why, HoldKey(i, slot))
              + if i == plan.id then Added(mid, plan.id, plan.policies, plan.amount, false, clk, slot) else 0
      ensures CommittedBy(done, i, slot) == CommittedBy(db, i, slot)
      ensures i != plan.id ==> HoldLowered(db, done, HoldKey(i, slot), Returned(db, plan.from, plan.slots, plan.why, HoldKey(i, slot)))
    {
      hide ReleasedAs, ReservedAs, Returned;
      ReadsAfterPlan(db, mid, done, plan, clk, i, slot);
    }
    forall hk: HoldKey | hk.reservation != plan.id
      ensures HoldLowered(db, done, hk, Returned(db, plan.from, plan.slots, plan.why, hk))
    {
      assert hk == HoldKey(hk.reservation, hk.slot);
    }
  }

  function Written(w: Result<Db, LedgerError>, result: Applied): Execution {
    match w
    case Failure(error) => Failure(Refuse(RefusalFor(error)))
    case Success(db) => Success((db, result))
  }

  lemma FillWrites(db: Db, s: Submission, releases: seq<Entry>, step: Step, clk: Clock, policies: seq<PolicyId>)
    requires ResId(s.organisation, s.key) in db.reservations && Known(db, policies)
    requires ApplicablePolicies(db, db.reservations[ResId(s.organisation, s.key)], clk.now) == Success(policies)
    ensures var id := ResId(s.organisation, s.key);
            var reserves := Reserves(db, id, policies, s.amount, false, clk, step, s.key, s.actor);
            Fill(db, s, releases, step, clk)
            == Written(ApplyAll(db, InPolicyOrder(releases, reserves), clk), Applied(id, Active, 1, None))
  {
    hide ApplyAll, InPolicyOrder, Reserves, ApplicablePolicies;
  }

  lemma FillEffect(db: Db, s: Submission, from: ResId, slots: seq<Slot>, why: Why, step: Step, clk: Clock)
    returns (policies: seq<PolicyId>)
    requires Fillable(db, s, clk) && Distinct(slots) && AllHeld(db, from, slots) && !step.ReleaseStep?
    requires from != ResId(s.organisation, s.key)
    requires ApplicablePolicies(db, db.reservations[ResId(s.organisation, s.key)], clk.now).Success?
    ensures ApplicablePolicies(db, db.reservations[ResId(s.organisation, s.key)], clk.now) == Success(policies)
    ensures Known(db, policies)
    ensures var id := ResId(s.organisation, s.key);
            var x := Fill(db, s, Releases(db, from, slots, why, s.key, s.actor), step, clk);
            if HasRoom(db, FillPlan(s, from, slots, why, policies, step), clk) then
              && x.Success? && Books(x.value.0) && Appended(db, x.value.0, s.key) && OnlyLedgerMoved(db, x.value.0)
              && Filled(db, x.value.0, id, from, slots, why, policies, s.amount, clk)
            else
              x == Failure(Refuse(SpendLimitExceeded))
  {
    hide Books, HasRoom, ReleasedAs, ReservedAs, ApplyAll, InPolicyOrder, Filled, Fill, ApplicablePolicies, Releases, Reserves;
    var id := ResId(s.organisation, s.key);
    policies := ApplicablePolicies(db, db.reservations[id], clk.now).value;
    ApplicableListing(db, db.reservations[id], clk.now);
    FillPlanned(db, s, from, slots, why, step, clk);
    var plan := FillPlan(s, from, slots, why, policies, step);
    var mid := PlanOutcome(db, plan, clk);
    FillWrites(db, s, Releases(db, from, slots, why, s.key, s.actor), step, clk, policies);
    if HasRoom(db, plan, clk) {
      var done := ApplyAll(db, InPolicyOrder(PlanReleases(db, plan), PlanReserves(db, plan, clk)), clk).value;
      FilledReads(db, mid, done, plan, clk);
    }
  }

  // ----- What a successful command leaves -----

  /** The reservations a command may move. */
  function Touched(cmd: Command): set<ResId> {
    match cmd
    case Submit(s) => {ResId(s.organisation, s.key)}
    case Resubmit(s, prior) => {prior, ResId(s.organisation, s.key)}
    case _ => {cmd.reservation}
  }

  ghost predicate Kept(db: Db, db1: Db, cmd: Command) {
    && Books(db1) && Boundary(db1) && Appended(db, db1, cmd.IdempotencyKey())
    && db1.policies == db.policies && db1.commands == db.commands && db1.members == db.members
    && (db1.mutations == db.mutations || db1.mutations == db.mutations + [cmd.IdempotencyKey()])
    && OthersKept(db, db1, Touched(cmd))
    && (forall id :: id in db.reservations ==> id in db1.reservations)
    && (forall id :: id in db.reservations && id !in Touched(cmd) ==> db1.reservations[id] == db.reservations[id])
    && (forall id :: id in db1.reservations && id !in db.reservations ==> id.key == cmd.IdempotencyKey())
  }

  /** A command that may run: its key is new and its arguments pass. */
  ghost predicate Fresh(db: Db, cmd: Command, clk: Clock) {
    Inv(db) && CalendarOk(clk) && ArgumentsOk(cmd, clk.now) && cmd.IdempotencyKey() !in db.commands
  }

  lemma NewRowHoldsNothing(db: Db, id: ResId)
    requires Books(db) && id !in db.reservations
    ensures forall hk :: hk in db.holds ==> hk.reservation != id
  {
    forall hk | hk in db.holds ensures hk.reservation != id {
      assert HoldOk(db, hk);
    }
  }

  lemma InsertedFillable(db: Db, s: Submission, supersedes: Option<ResId>, clk: Clock)
    requires Books(db) && CalendarOk(clk) && (forall p :: p in db.policies ==> PolicyOk(db.policies[p]))
    requires !Collides(db, s) && SubmissionOk(s, clk.now)
    requires forall k :: k in db.entries ==> k.command != s.key
    ensures Fillable(db.(reservations := db.reservations[ResId(s.organisation, s.key) := NewReservation(s, supersedes)]), s, clk)
  {
    var id := ResId(s.organisation, s.key);
    NewRowHoldsNothing(db, id);
    BooksUnmoved(db, db.(reservations := db.reservations[id := NewReservation(s, supersedes)]));
  }

  lemma BoundaryKept(db: Db, db1: Db, touched: set<ResId>)
    requires Boundary(db) && OthersKept(db, db1, touched) && db1.policies == db.policies
    requires OneActive(db1.reservations) && Lineage(db1.reservations)
    requires forall id :: id in db1.reservations && id !in touched ==>
      id in db.reservations && db1.reservations[id] == db.reservations[id]
    requires forall id :: id in touched && id in db1.reservations ==> Settled(db1, id)
    ensures Boundary(db1)
  {
    hide OneActive, Lineage, PolicyOk, Settled, OthersKept;
    forall id | id in db1.reservations ensures Settled(db1, id) {
      if id !in touched {
        UntouchedSettled(db, db1, touched, id);
      }
    }
  }

  lemma NothingReturned(db: Db, done: Db, id: ResId, from: ResId, why: Why, policies: seq<PolicyId>, amount: int, clk: Clock)
    requires Filled(db, done, id, from, [], why, policies, amount, clk)
    ensures OthersKept(db, done, {id})
  {
    forall hk: HoldKey | hk.reservation !in {id} ensures SameHold(db, done, hk) {
      assert HoldLowered(db, done, hk, Returned(db, from, [], why, hk));
    }
  }

  lemma FilledSettled(db0: Db, db1: Db, id: ResId, from: ResId, slots: seq<Slot>, why: Why, policies: seq<PolicyId>, amount: int, clk: Clock)
    requires Filled(db0, db1, id, from, slots, why, policies, amount, clk)
    requires id in db1.reservations && id.organisation == db1.reservations[id].organisation
    requires db1.reservations[id].amount == amount > 0 && db1.reservations[id].holdRevision >= 1
    requires db1.reservations[id].status == Active
    ensures Settled(db1, id)
  {
    CurrentHoldsSettled(db1, db0, id, policies, amount, clk);
  }

  lemma SubmitKeeps(db: Db, s: Submission, clk: Clock)
    requires Fresh(db, Submit(s), clk) && ExecuteSubmit(db, s, clk).Success?
    ensures Kept(db, ExecuteSubmit(db, s, clk).value.0, Submit(s))
  {
    hide Books, Fill, ApplicablePolicies, OneActive, Lineage, Settled, Filled, OthersKept, Fillable, PolicyOk, HasRoom, Releases;
    var id := ResId(s.organisation, s.key);
    var db0 := db.(reservations := db.reservations[id := NewReservation(s, None)]);
    var policies := SubmitFills(db, db0, s, clk);
    var db1 := ExecuteSubmit(db, s, clk).value.0;
    InsertedRows(db, s, None);
    FilledSettled(db0, db1, id, Elsewhere(s), [], AllHolds(Cancelled), policies, s.amount, clk);
    NothingReturned(db0, db1, id, Elsewhere(s), AllHolds(Cancelled), policies, s.amount, clk);
    SameHolds(db, db0, db1, {id});
    BoundaryKept(db, db1, {id});
  }

  /** A reservation id a submission does not use. */
  function Elsewhere(s: Submission): ResId {
    ResId(s.organisation, s.key + "+")
  }

  lemma SameHolds(a: Db, b: Db, c: Db, ids: set<ResId>)
    requires a.holds == b.holds && OthersKept(b, c, ids)
    ensures OthersKept(a, c, ids)
  {
    forall hk: HoldKey | hk.reservation !in ids ensures SameHold(a, c, hk) {
      assert SameHold(b, c, hk);
    }
  }

  lemma SubmitFills(db: Db, db0: Db, s: Submission, clk: Clock) returns (policies: seq<PolicyId>)
    requires Fresh(db, Submit(s), clk) && ExecuteSubmit(db, s, clk).Success?
    requires db0 == db.(reservations := db.reservations[ResId(s.organisation, s.key) := NewReservation(s, None)])
    ensures !Collides(db, s) && Known(db0, policies)
    ensures ApplicablePolicies(db0, NewReservation(s, None), clk.now) == Success(policies)
    ensures var db1 := ExecuteSubmit(db, s, clk).value.0;
            && Books(db1) && Appended(db0, db1, s.key) && OnlyLedgerMoved(db0, db1)
            && Filled(db0, db1, ResId(s.organisation, s.key), Elsewhere(s), [], AllHolds(Cancelled), policies, s.amount, clk)
  {
    hide Books, Fill, ApplicablePolicies, OneActive, Lineage, Settled, Filled, Fillable, PolicyOk, Appended, HasRoom, SubmissionOk;
    InsertedFillable(db, s, None, clk);
    policies := FillEffect(db0, s, Elsewhere(s), [], AllHolds(Cancelled), SubmitStep, clk);
  }
}
