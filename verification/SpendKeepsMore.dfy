/** Resubmission, closing, rollover and commit keep the invariants. */
module SpendKeepsMore {
  import opened Wrappers
  import opened SpendTypes
  import opened SpendLedger
  import opened SpendCommands
  import opened SpendBooks
  import opened SpendEffects
  import opened SpendOutcome
  import opened SpendInvariants
  import opened SpendKeeps

  // ----- Resubmit -----

  lemma NotYetSuperseded(rs: map<ResId, Reservation>, id: ResId)
    requires Lineage(rs) && id in rs && rs[id].status == Active
    ensures forall i :: i in rs ==> rs[i].supersedes != Some(id)
  {
    forall i | i in rs ensures rs[i].supersedes != Some(id) {
      assert Succeeds(rs, i);
    }
  }

  /** The tables with the superseded reservation closed and its successor in place. */
  function Replaced(db: Db, s: Submission, prior: ResId): Db
    requires prior in db.reservations
  {
    var closed := SetStatus(db, prior, Released);
    closed.(reservations := closed.reservations[ResId(s.organisation, s.key) := NewReservation(s, Some(prior))])
  }

  function ResubmitReason(db: Db, s: Submission, prior: ResId): Reason
    requires prior in db.reservations
  {
    if s.amount < db.reservations[prior].amount then AmountReduced else Cancelled
  }

  lemma ResubmitGuards(db: Db, s: Submission, prior: ResId, clk: Clock)
    requires ExecuteResubmit(db, s, prior, clk).Success?
    ensures prior in db.reservations && db.reservations[prior].status == Active
    ensures LaterVersion(db.reservations[prior], s) && db.reservations[prior].submittedBy == s.actor
    ensures db.reservations[prior].organisation == s.organisation
    ensures !Collides(SetStatus(db, prior, Released), s) && ResId(s.organisation, s.key) !in db.reservations
    ensures AllHeld(db, prior, HeldSlots(db, prior))
    ensures ExecuteResubmit(db, s, prior, clk) ==
            Fill(Replaced(db, s, prior), s,
                 Releases(db, prior, HeldSlots(db, prior), AllHolds(ResubmitReason(db, s, prior)), s.key, s.actor),
                 ResubmitStep, clk)
  {
    hide Fill, Releases, HeldSlots;
    HeldListing(db, prior);
  }

  lemma ReplacedRows(db: Db, s: Submission, prior: ResId)
    requires OneActive(db.reservations) && Lineage(db.reservations)
    requires prior in db.reservations && db.reservations[prior].status == Active
    requires LaterVersion(db.reservations[prior], s) && db.reservations[prior].submittedBy == s.actor
    requires db.reservations[prior].organisation == s.organisation && !Collides(SetStatus(db, prior, Released), s)
    ensures OneActive(Replaced(db, s, prior).reservations) && Lineage(Replaced(db, s, prior).reservations)
  {
    hide OneActive, Lineage, Competes;
    var closed := SetStatus(db, prior, Released);
    UpdatedRow(db.reservations, prior, closed.reservations[prior]);
    NotYetSuperseded(db.reservations, prior);
    InsertedRows(closed, s, Some(prior));
  }

  lemma ResubmitFills(db: Db, s: Submission, prior: ResId, clk: Clock) returns (policies: seq<PolicyId>)
    requires Fresh(db, Resubmit(s, prior), clk) && ExecuteResubmit(db, s, prior, clk).Success?
    ensures prior in db.reservations
    ensures var db0, db1 := Replaced(db, s, prior), ExecuteResubmit(db, s, prior, clk).value.0;
            && Known(db0, policies)
            && Books(db1) && Appended(db0, db1, s.key) && OnlyLedgerMoved(db0, db1)
            && Filled(db0, db1, ResId(s.organisation, s.key), prior, HeldSlots(db, prior),
                      AllHolds(ResubmitReason(db, s, prior)), policies, s.amount, clk)
  {
    hide Books, Fill, ApplicablePolicies, OneActive, Lineage, Settled, Filled, Fillable, PolicyOk, Appended, HasRoom, SubmissionOk,
         HeldSlots, ExecuteResubmit, Collides, LaterVersion, MustRelease, Releases;
    ResubmitGuards(db, s, prior, clk);
    var closed, db0 := SetStatus(db, prior, Released), Replaced(db, s, prior);
    var why, slots := AllHolds(ResubmitReason(db, s, prior)), HeldSlots(db, prior);
    BooksUnmoved(db, closed);
    InsertedFillable(closed, s, Some(prior), clk);
    HeldListing(db, prior);
    ReleasesSame(db, db0, prior, slots, why, s.key, s.actor);
    FillSucceeds(db0, s, Releases(db, prior, slots, why, s.key, s.actor), ResubmitStep, clk);
    policies := FillEffect(db0, s, prior, slots, why, ResubmitStep, clk);
  }

  lemma FillSucceeds(db: Db, s: Submission, releases: seq<Entry>, step: Step, clk: Clock)
    requires ResId(s.organisation, s.key) in db.reservations && Fill(db, s, releases, step, clk).Success?
    ensures ApplicablePolicies(db, db.reservations[ResId(s.organisation, s.key)], clk.now).Success?
  {
  }

  /** All of a reservation's holds returned: it holds nothing. */
  lemma NothingLeft(db: Db, done: Db, id: ResId, reason: Reason)
    requires forall slot: Slot ::
      HoldLowered(db, done, HoldKey(id, slot), Returned(db, id, HeldSlots(db, id), AllHolds(reason), HoldKey(id, slot)))
    ensures forall slot: Slot :: ReservedBy(done, id, slot) == 0
    ensures forall slot: Slot :: CommittedBy(done, id, slot) == CommittedBy(db, id, slot)
  {
    HeldListing(db, id);
    forall slot: Slot
      ensures ReservedBy(done, id, slot) == 0 && CommittedBy(done, id, slot) == CommittedBy(db, id, slot)
    {
      assert HoldLowered(db, done, HoldKey(id, slot), Returned(db, id, HeldSlots(db, id), AllHolds(reason), HoldKey(id, slot)));
    }
  }

  lemma ClosedSettled(db: Db, done: Db, id: ResId)
    requires id in db.reservations && Settled(db, id) && db.reservations[id].status == Active
    requires id in done.reservations && SameBinding(db.reservations[id], done.reservations[id])
    requires done.reservations[id].status != Active && done.reservations[id].holdRevision == db.reservations[id].holdRevision
    requires forall slot: Slot :: ReservedBy(done, id, slot) == 0
    requires forall slot: Slot :: done.reservations[id].status == Committed || CommittedBy(done, id, slot) == CommittedBy(db, id, slot)
    ensures Settled(done, id)
  {
    forall slot: Slot ensures SettledHold(done, id, slot) {
      assert SettledHold(db, id, slot);
    }
  }

  lemma ResubmitSettled(db: Db, s: Submission, prior: ResId, db1: Db, policies: seq<PolicyId>, clk: Clock)
    requires prior in db.reservations && db.reservations[prior].status == Active && Settled(db, prior)
    requires ResId(s.organisation, s.key) !in db.reservations && s.amount > 0
    requires OnlyLedgerMoved(Replaced(db, s, prior), db1)
    requires Filled(Replaced(db, s, prior), db1, ResId(s.organisation, s.key), prior, HeldSlots(db, prior),
                    AllHolds(ResubmitReason(db, s, prior)), policies, s.amount, clk)
    ensures Settled(db1, prior) && Settled(db1, ResId(s.organisation, s.key))
    ensures OthersKept(db, db1, {prior, ResId(s.organisation, s.key)})
  {
    var id, db0 := ResId(s.organisation, s.key), Replaced(db, s, prior);
    var why, slots := AllHolds(ResubmitReason(db, s, prior)), HeldSlots(db, prior);
    FilledSettled(db0, db1, id, prior, slots, why, policies, s.amount, clk);
    forall hk: HoldKey | hk.reservation != id ensures HoldLowered(db, db1, hk, Returned(db, prior, slots, why, hk)) {
      assert HoldLowered(db0, db1, hk, Returned(db0, prior, slots, why, hk));
    }
    NothingLeft(db, db1, prior, why.reason);
    ClosedSettled(db, db1, prior);
    forall hk: HoldKey | hk.reservation !in {prior, id} ensures SameHold(db, db1, hk) {
      assert HoldLowered(db, db1, hk, Returned(db, prior, slots, why, hk));
    }
  }

  lemma ResubmitKeeps(db: Db, s: Submission, prior: ResId, clk: Clock)
    requires Fresh(db, Resubmit(s, prior), clk) && ExecuteResubmit(db, s, prior, clk).Success?
    ensures Kept(db, ExecuteResubmit(db, s, prior, clk).value.0, Resubmit(s, prior))
  {
    hide Books, Fill, ApplicablePolicies, OneActive, Lineage, Settled, Filled, OthersKept, Fillable, PolicyOk, HasRoom, Releases,
         ExecuteResubmit, Collides, LaterVersion, HeldSlots;
    var id := ResId(s.organisation, s.key);
    ResubmitGuards(db, s, prior, clk);
    var policies := ResubmitFills(db, s, prior, clk);
    var db1 := ExecuteResubmit(db, s, prior, clk).value.0;
    ReplacedRows(db, s, prior);
    ResubmitSettled(db, s, prior, db1, policies, clk);
    BoundaryKept(db, db1, {prior, id});
  }

  // ----- Release and expiry -----

  function ClosePlan(db: Db, id: ResId, reason: Reason, key: Id, actor: Id): Plan {
    Plan(id, HeldSlots(db, id), AllHolds(reason), id, [], 0, true, RolloverStep, key, actor)
  }

  /** Closing returns every hold and is never refused by the trigger. */
  lemma CloseEffect(db: Db, id: ResId, reason: Reason, key: Id, actor: Id, clk: Clock) returns (done: Db)
    requires Books(db) && forall k :: k in db.entries ==> k.command != key
    ensures AllHeld(db, id, HeldSlots(db, id))
    ensures WriteAll(db, InPolicyOrder(Releases(db, id, HeldSlots(db, id), AllHolds(reason), key, actor), []), clk) == Success(done)
    ensures Books(done) && Appended(db, done, key) && OnlyLedgerMoved(db, done)
    ensures forall hk: HoldKey :: HoldLowered(db, done, hk, Returned(db, id, HeldSlots(db, id), AllHolds(reason), hk))
  {
    hide Books, ReleasedAs, ReservedAs, ApplyAll, InPolicyOrder, Releases, HeldSlots, Appended, MustRelease;
    HeldListing(db, id);
    var plan := ClosePlan(db, id, reason, key, actor);
    var mid := PlanOutcome(db, plan, clk);
    done := ApplyAll(db, InPolicyOrder(PlanReleases(db, plan), PlanReserves(db, plan, clk)), clk).value;
    CloseReads(db, mid, done, plan, clk);
  }

  lemma CloseReads(db: Db, mid: Db, done: Db, plan: Plan, clk: Clock)
    requires plan.policies == []
    requires ReleasedAs(db, mid, plan.from, plan.slots, plan.why)
    requires ReservedAs(mid, done, plan.id, plan.policies, plan.amount, plan.topUp, clk)
    ensures forall hk: HoldKey :: HoldLowered(db, done, hk, Returned(db, plan.from, plan.slots, plan.why, hk))
  {
    forall hk: HoldKey ensures HoldLowered(db, done, hk, Returned(db, plan.from, plan.slots, plan.why, hk)) {
      assert HoldGrew(mid, done, hk,
                      if hk.reservation == plan.id then Added(mid, plan.id, plan.policies, plan.amount, plan.topUp, clk, hk.slot) else 0);
    }
  }

  lemma CloseKeeps(db: Db, cmd: Command, clk: Clock)
    requires (cmd.Release? || cmd.Expire?) && Fresh(db, cmd, clk) && Execute(db, cmd, clk).Success?
    ensures Kept(db, Execute(db, cmd, clk).value.0, cmd)
  {
    hide Books, OneActive, Lineage, Settled, OthersKept, PolicyOk, Releases, HeldSlots, Appended, InPolicyOrder, WriteAll, ArgumentsOk;
    var id := cmd.reservation;
    var reason := if cmd.Release? then cmd.reason else ExpiredHold;
    var done := CloseEffect(db, id, reason, cmd.key, cmd.actor, clk);
    var db1 := Execute(db, cmd, clk).value.0;
    CloseIs(db, cmd, clk, done);
    NothingLeft(db, db1, id, reason);
    ClosedSettled(db, db1, id);
    UpdatedRow(db.reservations, id, db1.reservations[id]);
    BooksUnmoved(done, db1);
    LoweredOthers(db, done, db1, id, reason);
    BoundaryKept(db, db1, {id});
    AppendedTo(db, done, db1, cmd.key);
  }

  lemma AppendedTo(db: Db, done: Db, db1: Db, key: Id)
    requires Appended(db, done, key) && db1.entries == done.entries
    ensures Appended(db, db1, key)
  {
  }

  lemma CloseIs(db: Db, cmd: Command, clk: Clock, done: Db)
    requires (cmd.Release? || cmd.Expire?) && Execute(db, cmd, clk).Success?
    requires AllHeld(db, cmd.reservation, HeldSlots(db, cmd.reservation))
    requires var reason := if cmd.Release? then cmd.reason else ExpiredHold;
             WriteAll(db, InPolicyOrder(Releases(db, cmd.reservation, HeldSlots(db, cmd.reservation), AllHolds(reason), cmd.key, cmd.actor), []), clk)
             == Success(done)
    ensures cmd.reservation in db.reservations && db.reservations[cmd.reservation].status == Active
    ensures Execute(db, cmd, clk).value.0 == SetStatus(done, cmd.reservation, if cmd.Release? then Released else Expired)
    ensures Execute(db, cmd, clk).value.1 ==
            Applied(cmd.reservation, if cmd.Release? then Released else Expired, db.reservations[cmd.reservation].holdRevision, None)
  {
    hide Releases, HeldSlots, InPolicyOrder, WriteAll;
  }

  lemma LoweredOthers(db: Db, done: Db, db1: Db, id: ResId, reason: Reason)
    requires forall hk: HoldKey :: HoldLowered(db, done, hk, Returned(db, id, HeldSlots(db, id), AllHolds(reason), hk))
    requires db1.holds == done.holds
    ensures OthersKept(db, db1, {id})
  {
    forall hk: HoldKey | hk.reservation !in {id} ensures SameHold(db, db1, hk) {
      assert HoldLowered(db, done, hk, Returned(db, id, HeldSlots(db, id), AllHolds(reason), hk));
    }
  }

  // ----- Rollover -----

  function RolloverPlan(db: Db, id: ResId, policies: seq<PolicyId>, amount: int, key: Id, actor: Id, clk: Clock): Plan {
    Plan(id, HeldSlots(db, id), StaleHolds(policies, clk), id, policies, amount, true, RolloverStep, key, actor)
  }

  /** A reservation that may be rolled over or committed now. */
  ghost predicate Live(db: Db, id: ResId, policies: seq<PolicyId>, clk: Clock) {
    && Books(db) && CalendarOk(clk) && (forall p :: p in db.policies ==> PolicyOk(db.policies[p]))
    && id in db.reservations && Settled(db, id)
    && db.reservations[id].status == Active && clk.now < db.reservations[id].expiresAt
    && ApplicablePolicies(db, db.reservations[id], clk.now) == Success(policies)
  }

  lemma RolloverPlanned(db: Db, id: ResId, policies: seq<PolicyId>, key: Id, actor: Id, clk: Clock)
    requires Live(db, id, policies, clk) && forall k :: k in db.entries ==> k.command != key
    ensures Planned(db, RolloverPlan(db, id, policies, db.reservations[id].amount, key, actor, clk), clk)
  {
    hide HeldSlots, ApplicablePolicies;
    HeldListing(db, id);
    ApplicableListing(db, db.reservations[id], clk.now);
    var plan := RolloverPlan(db, id, policies, db.reservations[id].amount, key, actor, clk);
    forall p | p in policies ensures Reservable(db, plan, p, clk) {
      AppliesInPeriod(db.policies[p], db.reservations[id], clk);
      var hk := HoldKey(id, CurrentSlot(db, p, clk));
      if hk in db.holds {
        assert HoldOk(db, hk);
        assert SettledHold(db, id, hk.slot);
      }
    }
  }

  /** After a rollover every applicable budget holds the full amount now, and nothing else is held. */
  lemma RolloverReads(db: Db, mid: Db, done: Db, id: ResId, policies: seq<PolicyId>, key: Id, actor: Id, clk: Clock)
    requires Live(db, id, policies, clk)
    requires ReleasedAs(db, mid, id, HeldSlots(db, id), StaleHolds(policies, clk))
    requires ReservedAs(mid, done, id, policies, db.reservations[id].amount, true, clk)
    ensures forall slot: Slot :: ReservedBy(done, id, slot) == Converted(db, policies, db.reservations[id].amount, clk, slot)
    ensures forall slot: Slot :: CommittedBy(done, id, slot) == 0
    ensures OthersKept(db, done, {id})
  {
    hide HeldSlots, ApplicablePolicies;
    var amount := db.reservations[id].amount;
    var plan := RolloverPlan(db, id, policies, amount, key, actor, clk);
    HeldListing(db, id);
    ApplicableListing(db, db.reservations[id], clk.now);
    forall slot: Slot
      ensures ReservedBy(done, id, slot) == Converted(db, policies, amount, clk, slot)
      ensures CommittedBy(done, id, slot) == 0
    {
      hide Books, ReservedAs, ReleasedAs;
      assert SettledHold(db, id, slot);
      ReadsAfterPlan(db, mid, done, plan, clk, id, slot);
      RolloverSlot(db, mid, id, policies, slot, clk);
    }
    forall hk: HoldKey | hk.reservation !in {id} ensures SameHold(db, done, hk) {
      assert hk == HoldKey(hk.reservation, hk.slot);
      ReadsAfterPlan(db, mid, done, plan, clk, hk.reservation, hk.slot);
    }
  }

  lemma RolloverSlot(db: Db, mid: Db, id: ResId, policies: seq<PolicyId>, slot: Slot, clk: Clock)
    requires id in db.reservations && db.reservations[id].amount > 0 && Known(db, policies)
    requires ReleasedAs(db, mid, id, HeldSlots(db, id), StaleHolds(policies, clk))
    requires ReservedBy(db, id, slot) == 0 || ReservedBy(db, id, slot) == db.reservations[id].amount
    ensures ReservedBy(db, id, slot) - Returned(db, id, HeldSlots(db, id), StaleHolds(policies, clk), HoldKey(id, slot))
            + Added(mid, id, policies, db.reservations[id].amount, true, clk, slot)
            == Converted(db, policies, db.reservations[id].amount, clk, slot)
  {
    hide HeldSlots;
    HeldListing(db, id);
    if HoldKey(id, slot) in db.holds {
      assert mid.holds[HoldKey(id, slot)].revision == db.holds[HoldKey(id, slot)].revision;
    }
  }

  /** Whether a rollover has anything to release or to reserve. */
  function Moves(db: Db, id: ResId, policies: seq<PolicyId>, amount: int, key: Id, actor: Id, clk: Clock): bool
    requires forall p :: p in policies ==> p in db.policies
    requires forall slot :: slot in HeldSlots(db, id) ==> HoldKey(id, slot) in db.holds
  {
    RolloverReleases(db, id, policies, key, actor, clk) != [] || RolloverReserves(db, id, policies, amount, key, actor, clk) != []
  }

  lemma RolloverIs(db: Db, organisation: Id, id: ResId, key: Id, actor: Id, clk: Clock, policies: seq<PolicyId>)
    requires id in db.reservations && db.reservations[id].organisation == organisation
    requires db.reservations[id].status == Active && clk.now < db.reservations[id].expiresAt
    requires ApplicablePolicies(db, db.reservations[id], clk.now) == Success(policies) && Known(db, policies)
    requires AllHeld(db, id, HeldSlots(db, id))
    ensures var r := db.reservations[id];
            var revision := if Moves(db, id, policies, r.amount, key, actor, clk) then r.holdRevision + 1 else r.holdRevision;
            var w := ApplyAll(db, InPolicyOrder(RolloverReleases(db, id, policies, key, actor, clk),
                                                RolloverReserves(db, id, policies, r.amount, key, actor, clk)), clk);
            ExecuteRollover(db, organisation, id, key, actor, clk) ==
            (if w.Failure? then Failure(Refuse(RefusalFor(w.error)))
             else Success((SetHoldRevision(w.value, id, revision),
                           Applied(id, Active, revision, Some(Moves(db, id, policies, r.amount, key, actor, clk))))))
  {
    hide ApplyAll, InPolicyOrder, RolloverReleases, RolloverReserves, ApplicablePolicies, HeldSlots;
  }

  /** The tables after an applied rollover. */
  ghost predicate RolledOver(db: Db, done: Db, id: ResId, policies: seq<PolicyId>, key: Id, clk: Clock)
    requires id in db.reservations
  {
    && Books(done) && Appended(db, done, key) && OnlyLedgerMoved(db, done) && OthersKept(db, done, {id})
    && (forall slot: Slot :: ReservedBy(done, id, slot) == Converted(db, policies, db.reservations[id].amount, clk, slot))
    && (forall slot: Slot :: CommittedBy(done, id, slot) == 0)
    && AtCurrentRevision(db, done, id, policies, clk)
  }

  /** Each applicable budget's hold for its current period carries the budget's revision. */
  ghost predicate AtCurrentRevision(db: Db, done: Db, id: ResId, policies: seq<PolicyId>, clk: Clock) {
    forall p :: p in policies && p in db.policies ==>
      var hk := HoldKey(id, CurrentSlot(db, p, clk));
      hk in done.holds && done.holds[hk].revision == db.policies[p].revision
  }

  lemma RolloverRevisions(db: Db, mid: Db, done: Db, id: ResId, policies: seq<PolicyId>, amount: int, clk: Clock)
    requires mid.policies == db.policies && Live(db, id, policies, clk) && amount == db.reservations[id].amount
    requires ReservedAs(mid, done, id, policies, amount, true, clk)
    ensures AtCurrentRevision(db, done, id, policies, clk)
  {
    hide Books, ApplicablePolicies, PolicyOk, CalendarOk, SettledHold, OneHold;
    forall p | p in policies && p in db.policies
      ensures var hk := HoldKey(id, CurrentSlot(db, p, clk));
              hk in done.holds && done.holds[hk].revision == db.policies[p].revision
    {
      var hk := HoldKey(id, CurrentSlot(db, p, clk));
      assert HoldGrew(mid, done, hk, Added(mid, id, policies, amount, true, clk, hk.slot));
    }
  }

  lemma RolloverEffect(db: Db, organisation: Id, id: ResId, key: Id, actor: Id, clk: Clock, policies: seq<PolicyId>)
    returns (done: Db)
    requires Live(db, id, policies, clk) && db.reservations[id].organisation == organisation
    requires forall k :: k in db.entries ==> k.command != key
    ensures AllHeld(db, id, HeldSlots(db, id)) && Known(db, policies)
    ensures var r := db.reservations[id];
            var moved := Moves(db, id, policies, r.amount, key, actor, clk);
            var revision := if moved then r.holdRevision + 1 else r.holdRevision;
            var x := ExecuteRollover(db, organisation, id, key, actor, clk);
            if HasRoom(db, RolloverPlan(db, id, policies, r.amount, key, actor, clk), clk) then
              && RolledOver(db, done, id, policies, key, clk)
              && x == Success((SetHoldRevision(done, id, revision), Applied(id, Active, revision, Some(moved))))
            else
              x == Failure(Refuse(SpendLimitExceeded))
  {
    hide Books, HasRoom, ReleasedAs, ReservedAs, ApplyAll, InPolicyOrder, ApplicablePolicies, HeldSlots, ExecuteRollover, Settled, PolicyOk,
         Moves, Releases, Reserves, Appended, OthersKept;
    HeldListing(db, id);
    ApplicableListing(db, db.reservations[id], clk.now);
    RolloverPlanned(db, id, policies, key, actor, clk);
    var plan := RolloverPlan(db, id, policies, db.reservations[id].amount, key, actor, clk);
    var mid := PlanOutcome(db, plan, clk);
    RolloverIs(db, organisation, id, key, actor, clk, policies);
    done := db;
    if HasRoom(db, plan, clk) {
      done := ApplyAll(db, InPolicyOrder(PlanReleases(db, plan), PlanReserves(db, plan, clk)), clk).value;
      RolloverReads(db, mid, done, id, policies, key, actor, clk);
      SamePolicies(db, mid, plan);
      RolloverRevisions(db, mid, done, id, policies, plan.amount, clk);
    }
  }

  lemma RolloverGuards(db: Db, organisation: Id, id: ResId, key: Id, actor: Id, clk: Clock) returns (policies: seq<PolicyId>)
    requires Inv(db) && CalendarOk(clk) && ExecuteRollover(db, organisation, id, key, actor, clk).Success?
    ensures Live(db, id, policies, clk) && db.reservations[id].organisation == organisation
  {
    hide Books, HeldSlots, ApplicablePolicies, WriteAll, InPolicyOrder, RolloverReleases, RolloverReserves, Settled;
    policies := ApplicablePolicies(db, db.reservations[id], clk.now).value;
  }

  lemma RolloverKeeps(db: Db, cmd: Command, clk: Clock)
    requires cmd.Rollover? && Fresh(db, cmd, clk) && Execute(db, cmd, clk).Success?
    ensures Kept(db, Execute(db, cmd, clk).value.0, cmd)
  {
    hide Books, OneActive, Lineage, Settled, OthersKept, PolicyOk, HeldSlots, Appended, ArgumentsOk, ExecuteRollover, HasRoom, Moves,
         ApplicablePolicies;
    var id := cmd.reservation;
    var policies := RolloverGuards(db, cmd.organisation, id, cmd.key, cmd.actor, clk);
    var done := RolloverEffect(db, cmd.organisation, id, cmd.key, cmd.actor, clk, policies);
    var db1 := Execute(db, cmd, clk).value.0;
    BooksUnmoved(done, db1);
    AppendedTo(db, done, db1, cmd.key);
    RolledSettled(db, done, db1, id, policies, cmd.key, clk);
    UpdatedRow(db.reservations, id, db1.reservations[id]);
    BoundaryKept(db, db1, {id});
  }

  lemma RolledSettled(db: Db, done: Db, db1: Db, id: ResId, policies: seq<PolicyId>, key: Id, clk: Clock)
    requires Live(db, id, policies, clk) && RolledOver(db, done, id, policies, key, clk)
    requires db1.holds == done.holds && id in db1.reservations
    requires SameBinding(db.reservations[id], db1.reservations[id]) && db1.reservations[id].status == Active
    requires db1.reservations[id].holdRevision >= db.reservations[id].holdRevision
    ensures Settled(db1, id) && OthersKept(db, db1, {id})
  {
    hide Books, ApplicablePolicies;
    forall slot: Slot
      ensures ReservedBy(db1, id, slot) == Converted(db, policies, db.reservations[id].amount, clk, slot)
      ensures CommittedBy(db1, id, slot) == 0
    {
      assert ReservedBy(db1, id, slot) == ReservedBy(done, id, slot);
      assert CommittedBy(done, id, slot) == 0;
    }
    CurrentHoldsSettled(db1, db, id, policies, db.reservations[id].amount, clk);
    forall hk: HoldKey | hk.reservation !in {id} ensures SameHold(db, db1, hk) {
      assert SameHold(db, done, hk);
    }
  }

  // ----- Commit -----

  lemma CommitGuards(db: Db, cmd: Command, clk: Clock) returns (policies: seq<PolicyId>)
    requires cmd.Commit? && Inv(db) && CalendarOk(clk) && ExecuteCommit(db, cmd, clk).Success?
    ensures Live(db, cmd.reservation, policies, clk) && Known(db, policies)
    ensures db.reservations[cmd.reservation].organisation == cmd.organisation
    ensures db.reservations[cmd.reservation].amount == cmd.amount && db.reservations[cmd.reservation].holdRevision == cmd.holdRevision
    ensures ReadyToCommit(db, cmd.reservation, policies, db.reservations[cmd.reservation].amount, clk)
  {
    hide Books, HeldSlots, ApplicablePolicies, WriteAll, Commits, Settled, ReadyToCommit;
    policies := ApplicablePolicies(db, db.reservations[cmd.reservation], clk.now).value;
    ApplicableListing(db, db.reservations[cmd.reservation], clk.now);
  }

  /** A commit whose guard holds converts exactly what is held. */
  lemma CommitEffect(db: Db, id: ResId, policies: seq<PolicyId>, reference: Id, key: Id, actor: Id, clk: Clock) returns (done: Db)
    requires Live(db, id, policies, clk) && Known(db, policies)
    requires ReadyToCommit(db, id, policies, db.reservations[id].amount, clk)
    requires forall k :: k in db.entries ==> k.command != key
    ensures WriteAll(db, Commits(db, id, policies, db.reservations[id].amount, reference, key, actor), clk) == Success(done)
    ensures Books(done) && Appended(db, done, key) && OnlyLedgerMoved(db, done)
    ensures CommittedAs(db, done, id, policies, db.reservations[id].amount, clk)
  {
    hide Books, ApplyAll, Commits, ApplicablePolicies, Appended, CommittedAs;
    var r := db.reservations[id];
    ApplicableListing(db, r, clk.now);
    assert r.amount > 0;
    forall p | p in policies ensures MayCommit(db, id, p, r.amount, clk) {
      AppliesInPeriod(db.policies[p], r, clk);
    }
    CommitsApply(db, id, policies, r.amount, reference, key, actor, clk);
    var es := Commits(db, id, policies, r.amount, reference, key, actor);
    done := ApplyAll(db, es, clk).value;
    BooksKeptAll(db, es, clk);
    CommitsShape(db, id, policies, r.amount, reference, key, actor);
    AppliedAppends(db, es, key, clk);
  }

  lemma {:induction false} CommitsShape(db: Db, id: ResId, policies: seq<PolicyId>, amount: int, reference: Id, key: Id, actor: Id)
    requires Known(db, policies)
    ensures forall e :: e in Commits(db, id, policies, amount, reference, key, actor) ==> e.key.command == key
    decreases |policies|
  {
    if policies != [] {
      CommitsShape(db, id, policies[1..], amount, reference, key, actor);
    }
  }

  lemma CommitLeavesNothing(db: Db, done: Db, id: ResId, policies: seq<PolicyId>, clk: Clock)
    requires Live(db, id, policies, clk) && Known(db, policies)
    requires ReadyToCommit(db, id, policies, db.reservations[id].amount, clk)
    requires CommittedAs(db, done, id, policies, db.reservations[id].amount, clk)
    ensures forall slot: Slot :: ReservedBy(db, id, slot) == Converted(db, policies, db.reservations[id].amount, clk, slot)
    ensures forall slot: Slot :: ReservedBy(done, id, slot) == 0
    ensures forall slot: Slot :: CommittedBy(done, id, slot) == ReservedBy(db, id, slot)
    ensures OthersKept(db, done, {id})
  {
    hide Books, ApplicablePolicies, HeldSlots;
    HeldListing(db, id);
    var amount := db.reservations[id].amount;
    forall slot: Slot
      ensures ReservedBy(db, id, slot) == Converted(db, policies, amount, clk, slot)
      ensures ReservedBy(done, id, slot) == 0 && CommittedBy(done, id, slot) == ReservedBy(db, id, slot)
    {
      assert SettledHold(db, id, slot);
      assert HoldConverted(db, done, HoldKey(id, slot), Converted(db, policies, amount, clk, slot));
      if slot.policy in policies {
        assert FullyHeld(db, id, slot.policy, amount, clk);
      }
      if HoldKey(id, slot) in db.holds {
        assert !StrayHold(db, id, slot, policies, clk);
      }
    }
    forall hk: HoldKey | hk.reservation !in {id} ensures SameHold(db, done, hk) {
      assert HoldConverted(db, done, hk, 0);
    }
  }

  lemma CommitIs(db: Db, cmd: Command, clk: Clock, policies: seq<PolicyId>, done: Db)
    requires cmd.Commit? && cmd.reservation in db.reservations && Known(db, policies)
    requires var r := db.reservations[cmd.reservation];
             && r.organisation == cmd.organisation && r.status == Active && clk.now < r.expiresAt
             && r.digest == cmd.digest && r.version == cmd.version && r.amount == cmd.amount && r.holdRevision == cmd.holdRevision
             && ApplicablePolicies(db, r, clk.now) == Success(policies)
             && ReadyToCommit(db, cmd.reservation, policies, r.amount, clk)
             && WriteAll(db, Commits(db, cmd.reservation, policies, r.amount, cmd.reference, cmd.key, cmd.actor), clk) == Success(done)
    ensures var closed := SetStatus(done, cmd.reservation, Committed);
            ExecuteCommit(db, cmd, clk) ==
            Success((if cmd.withMutation then closed.(mutations := closed.mutations + [cmd.key]) else closed,
                     Applied(cmd.reservation, Committed, db.reservations[cmd.reservation].holdRevision, None)))
  {
    hide ApplicablePolicies, WriteAll, Commits, ReadyToCommit;
  }

  lemma CommitMatches(db: Db, cmd: Command, clk: Clock)
    requires cmd.Commit? && ExecuteCommit(db, cmd, clk).Success?
    ensures var r := db.reservations[cmd.reservation];
            r.digest == cmd.digest && r.version == cmd.version && r.amount == cmd.amount && r.holdRevision == cmd.holdRevision
  {
    hide ApplicablePolicies, WriteAll, Commits, ReadyToCommit;
  }

  lemma CommitKeeps(db: Db, cmd: Command, clk: Clock)
    requires cmd.Commit? && Fresh(db, cmd, clk) && ExecuteCommit(db, cmd, clk).Success?
    ensures Kept(db, ExecuteCommit(db, cmd, clk).value.0, cmd)
  {
    hide Books, OneActive, Lineage, Settled, OthersKept, PolicyOk, HeldSlots, Appended, ArgumentsOk, ExecuteCommit, ApplicablePolicies,
         ReadyToCommit, CommittedAs, Commits, WriteAll;
    var id := cmd.reservation;
    var policies := CommitGuards(db, cmd, clk);
    CommitMatches(db, cmd, clk);
    var done := CommitEffect(db, id, policies, cmd.reference, cmd.key, cmd.actor, clk);
    CommitIs(db, cmd, clk, policies, done);
    CommitLeavesNothing(db, done, id, policies, clk);
    var db1 := ExecuteCommit(db, cmd, clk).value.0;
    MovedRowsSettled(db, done, db1, id);
    UpdatedRow(db.reservations, id, db1.reservations[id]);
    BooksUnmoved(done, db1);
    AppendedTo(db, done, db1, cmd.key);
    BoundaryKept(db, db1, {id});
  }

  lemma MovedRowsSettled(db: Db, done: Db, db1: Db, id: ResId)
    requires id in db.reservations && Settled(db, id) && db.reservations[id].status == Active
    requires db1.holds == done.holds && id in db1.reservations
    requires db1.reservations[id] == db.reservations[id].(status := Committed)
    requires forall slot: Slot :: ReservedBy(done, id, slot) == 0
    requires OthersKept(db, done, {id})
    ensures Settled(db1, id) && OthersKept(db, db1, {id})
  {
    forall slot: Slot ensures ReservedBy(db1, id, slot) == 0 {
      assert ReservedBy(done, id, slot) == 0;
    }
    ClosedSettled(db, db1, id);
    forall hk: HoldKey | hk.reservation !in {id} ensures SameHold(db, db1, hk) {
      assert SameHold(db, done, hk);
    }
  }
}
