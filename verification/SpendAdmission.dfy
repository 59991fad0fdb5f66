/** Exactly when submissions, resubmissions and rollovers are admitted, and why they are refused otherwise. */
module SpendAdmission {
  import opened Wrappers
  import opened SpendTypes
  import opened SpendCommands
  import opened SpendBooks
  import opened SpendEffects
  import opened SpendOutcome
  import opened SpendInvariants
  import opened SpendKeeps
  import opened SpendKeepsMore
  import opened SpendDuality

  /** Why a purchase is refused its capacity, if it is: its budgets, or a shortfall in one of them. */
  ghost function Capacity(db: Db, r: Reservation, prior: Option<ResId>, clk: Clock): Option<Stop> {
    var policies := ApplicablePolicies(db, r, clk.now);
    if policies.Failure? then
      Some(policies.error)
    else if AllHaveRoom(db, policies.value, r.amount, prior, clk) then
      None
    else
      Some(Refuse(SpendLimitExceeded))
  }

  /** Every budget covers the amount, counting what the superseded version of the purchase reserves now. */
  ghost predicate AllHaveRoom(db: Db, policies: seq<PolicyId>, amount: int, prior: Option<ResId>, clk: Clock) {
    forall p :: p in policies && p in db.policies ==> amount <= Available(db, p, clk) + HeldBy(db, prior, p, clk)
  }

  ghost function HeldBy(db: Db, prior: Option<ResId>, policy: PolicyId, clk: Clock): int
    requires policy in db.policies
  {
    if prior.Some? then ReservedBy(db, prior.value, CurrentSlot(db, policy, clk)) else 0
  }

  /** What becomes of a submission or resubmission that reaches its row insertion. */
  ghost function NewAnswer(db: Db, s: Submission, prior: Option<ResId>, collides: bool, clk: Clock): Outcome {
    var shortfall := Capacity(db, NewReservation(s, prior), prior, clk);
    if !IsMember(db, s, clk.now) then
      Refused(BuyerNotAuthorised, false)
    else if collides then
      Conflict
    else if shortfall.Some? then
      StopOutcome(shortfall.value)
    else
      AppliedNow(Applied(ResId(s.organisation, s.key), Active, 1, None))
  }

  ghost predicate FillAnswers(x: Execution, db: Db, s: Submission, prior: Option<ResId>, clk: Clock)
    requires ResId(s.organisation, s.key) in db.reservations
  {
    var shortfall := Capacity(db, db.reservations[ResId(s.organisation, s.key)], prior, clk);
    if shortfall.Some? then
      x == Failure(shortfall.value)
    else
      x.Success? && x.value.1 == Applied(ResId(s.organisation, s.key), Active, 1, None)
  }

  /** A submission returns nothing; a resubmission returns all that the superseded version holds. */
  predicate Returns(db: Db, prior: Option<ResId>, from: ResId, slots: seq<Slot>) {
    if prior.Some? then prior.value == from && slots == HeldSlots(db, from) else slots == []
  }

  lemma FillAnswer(db: Db, s: Submission, prior: Option<ResId>, from: ResId, slots: seq<Slot>, reason: Reason, step: Step, clk: Clock)
    requires Fillable(db, s, clk) && !step.ReleaseStep? && from != ResId(s.organisation, s.key)
    requires db.reservations[ResId(s.organisation, s.key)].amount == s.amount && Returns(db, prior, from, slots)
    ensures AllHeld(db, from, slots)
    ensures FillAnswers(Fill(db, s, Releases(db, from, slots, AllHolds(reason), s.key, s.actor), step, clk), db, s, prior, clk)
  {
    hide Books, HasRoom, ApplicablePolicies, Releases, HeldSlots, AllHaveRoom, CalendarOk, PolicyOk;
    var id := ResId(s.organisation, s.key);
    HeldListing(db, from);
    if ApplicablePolicies(db, db.reservations[id], clk.now).Success? {
      var policies := FillEffect(db, s, from, slots, AllHolds(reason), step, clk);
      RoomFor(db, s, prior, from, slots, reason, policies, step, clk);
    } else {
      NoBudgets(db, s, Releases(db, from, slots, AllHolds(reason), s.key, s.actor), step, clk);
    }
  }

  lemma NoBudgets(db: Db, s: Submission, releases: seq<Entry>, step: Step, clk: Clock)
    requires ResId(s.organisation, s.key) in db.reservations
    requires ApplicablePolicies(db, db.reservations[ResId(s.organisation, s.key)], clk.now).Failure?
    ensures Fill(db, s, releases, step, clk)
         == Failure(ApplicablePolicies(db, db.reservations[ResId(s.organisation, s.key)], clk.now).error)
  {
    hide ApplicablePolicies;
  }

  lemma RoomFor(db: Db, s: Submission, prior: Option<ResId>, from: ResId, slots: seq<Slot>, reason: Reason,
                policies: seq<PolicyId>, step: Step, clk: Clock)
    requires Known(db, policies) && s.amount > 0 && Returns(db, prior, from, slots)
    ensures HasRoom(db, FillPlan(s, from, slots, AllHolds(reason), policies, step), clk)
            <==> AllHaveRoom(db, policies, s.amount, prior, clk)
  {
    hide HeldSlots, Available;
    HeldListing(db, from);
    var plan := FillPlan(s, from, slots, AllHolds(reason), policies, step);
    forall p | p in policies
      ensures Room(db, plan, p, clk) == Available(db, p, clk) + HeldBy(db, prior, p, clk)
    {
    }
  }

  /** A submission is admitted exactly when every applicable budget has room for its amount. */
  lemma SubmitAnswered(db: Db, s: Submission, clk: Clock)
    requires Fresh(db, Submit(s), clk)
    ensures Run(db, Submit(s), clk).1 == NewAnswer(db, s, None, Collides(db, s), clk)
  {
    hide Books, Fill, ApplicablePolicies, OneActive, Lineage, Settled, PolicyOk, IsMember, Collides, CalendarOk, Fillable;
    if IsMember(db, s, clk.now) && !Collides(db, s) {
      var id := ResId(s.organisation, s.key);
      var db0 := db.(reservations := db.reservations[id := NewReservation(s, None)]);
      InsertedFillable(db, s, None, clk);
      FillAnswer(db0, s, None, Elsewhere(s), [], Cancelled, SubmitStep, clk);
      CapacityReads(db, db0, db0.reservations[id], None, clk);
    }
  }

  lemma CapacityReads(a: Db, b: Db, r: Reservation, prior: Option<ResId>, clk: Clock)
    requires b.policies == a.policies && b.balances == a.balances && b.holds == a.holds
    ensures Capacity(b, r, prior, clk) == Capacity(a, r, prior, clk)
  {
    ApplicableReads(a, b, r, r, clk.now);
    var policies := ApplicablePolicies(a, r, clk.now);
    if policies.Success? {
      forall p | p in policies.value && p in a.policies
        ensures Available(b, p, clk) + HeldBy(b, prior, p, clk) == Available(a, p, clk) + HeldBy(a, prior, p, clk)
      {
      }
    }
  }

  /**
   A resubmission is admitted exactly when every applicable budget has room for
   the new amount once the superseded version's own hold in it is counted back.
   */
  lemma ResubmitAnswered(db: Db, s: Submission, prior: ResId, clk: Clock)
    requires Fresh(db, Resubmit(s, prior), clk)
    ensures Run(db, Resubmit(s, prior), clk).1 == ResubmitAnswer(db, s, prior, clk)
  {
    hide Books, Fill, ApplicablePolicies, OneActive, Lineage, Settled, PolicyOk, Collides, CalendarOk, Fillable, HeldSlots,
         LaterVersion, Releases;
    if prior in db.reservations && db.reservations[prior].organisation == s.organisation && MaySupersede(db.reservations[prior], s) {
      var closed := SetStatus(db, prior, Released);
      HeldListing(db, prior);
      if IsMember(closed, s, clk.now) && !Collides(closed, s) {
        ReplacedAnswer(db, s, prior, clk);
      }
    }
  }

  predicate MaySupersede(r: Reservation, s: Submission) {
    r.status == Active && r.submittedBy == s.actor && LaterVersion(r, s)
  }

  ghost function ResubmitAnswer(db: Db, s: Submission, prior: ResId, clk: Clock): Outcome {
    if prior !in db.reservations || db.reservations[prior].organisation != s.organisation then
      Refused(BuyerNotAuthorised, false)
    else if db.reservations[prior].status != Active then
      Refused(ContextNotUsable, false)
    else if db.reservations[prior].submittedBy != s.actor then
      Refused(BuyerNotAuthorised, false)
    else if !LaterVersion(db.reservations[prior], s) then
      Refused(TransactionChanged, false)
    else
      NewAnswer(db, s, Some(prior), Collides(SetStatus(db, prior, Released), s), clk)
  }

  lemma ReplacedAnswer(db: Db, s: Submission, prior: ResId, clk: Clock)
    requires Fresh(db, Resubmit(s, prior), clk) && prior in db.reservations && AllHeld(db, prior, HeldSlots(db, prior))
    requires !Collides(SetStatus(db, prior, Released), s)
    ensures FillAnswers(Fill(Replaced(db, s, prior), s,
                             Releases(db, prior, HeldSlots(db, prior), AllHolds(ResubmitReason(db, s, prior)), s.key, s.actor),
                             ResubmitStep, clk),
                        Replaced(db, s, prior), s, Some(prior), clk)
    ensures Capacity(Replaced(db, s, prior), NewReservation(s, Some(prior)), Some(prior), clk)
         == Capacity(db, NewReservation(s, Some(prior)), Some(prior), clk)
  {
    hide Books, Fill, ApplicablePolicies, OneActive, Lineage, Settled, PolicyOk, CalendarOk, Fillable, MustRelease, Releases, Capacity;
    var closed, db0 := SetStatus(db, prior, Released), Replaced(db, s, prior);
    var why, slots := AllHolds(ResubmitReason(db, s, prior)), HeldSlots(db, prior);
    BooksUnmoved(db, closed);
    InsertedFillable(closed, s, Some(prior), clk);
    ReleasesSame(db, db0, prior, slots, why, s.key, s.actor);
    assert HeldSlots(db0, prior) == slots;
    FillAnswer(db0, s, Some(prior), prior, slots, why.reason, ResubmitStep, clk);
    CapacityReads(db, db0, NewReservation(s, Some(prior)), Some(prior), clk);
  }

  // ----- Rollover -----

  /** Each budget already holds the amount now, or has room for it once a stale hold in its period is returned. */
  ghost predicate Renewable(db: Db, id: ResId, policies: seq<PolicyId>, amount: int, clk: Clock) {
    forall p :: p in policies && p in db.policies ==>
      || CurrentlyReserved(db, id, p, clk) == amount
      || amount <= Available(db, p, clk) + ReservedBy(db, id, CurrentSlot(db, p, clk))
  }

  lemma RenewableRoom(db: Db, id: ResId, policies: seq<PolicyId>, key: Id, actor: Id, clk: Clock)
    requires Live(db, id, policies, clk) && Known(db, policies)
    ensures HasRoom(db, RolloverPlan(db, id, policies, db.reservations[id].amount, key, actor, clk), clk)
            <==> Renewable(db, id, policies, db.reservations[id].amount, clk)
  {
    hide Books, HeldSlots, Available, ApplicablePolicies, CalendarOk, PolicyOk, OneHold;
    var amount := db.reservations[id].amount;
    var plan := RolloverPlan(db, id, policies, amount, key, actor, clk);
    HeldListing(db, id);
    forall p | p in policies
      ensures Wanted(db, id, p, amount, true, clk) == 0 <==> CurrentlyReserved(db, id, p, clk) == amount
      ensures Wanted(db, id, p, amount, true, clk) != 0 ==>
        Wanted(db, id, p, amount, true, clk) == amount
        && Room(db, plan, p, clk) == Available(db, p, clk) + ReservedBy(db, id, CurrentSlot(db, p, clk))
    {
      assert SettledHold(db, id, CurrentSlot(db, p, clk));
    }
  }

  ghost predicate RolloverAnswers(answer: Outcome, db: Db, organisation: Id, id: ResId, clk: Clock) {
    if id !in db.reservations || db.reservations[id].organisation != organisation then
      answer == Refused(BuyerNotAuthorised, false)
    else
      var r := db.reservations[id];
      var policies := ApplicablePolicies(db, r, clk.now);
      if r.status != Active || r.expiresAt <= clk.now then
        answer == Refused(ContextNotUsable, false)
      else if policies.Failure? then
        answer == StopOutcome(policies.error)
      else if !Renewable(db, id, policies.value, r.amount, clk) then
        answer == Refused(SpendLimitExceeded, false)
      else
        answer.AppliedNow? && answer.result.status == Active
        && answer.result.holdRevision == (if answer.result.revalidate == Some(true) then r.holdRevision + 1 else r.holdRevision)
  }

  /** A rollover is refused for capacity exactly when some budget it must renew lacks room. */
  lemma RolloverAnswered(db: Db, roll: Command, clk: Clock)
    requires roll.Rollover? && Fresh(db, roll, clk)
    ensures RolloverAnswers(Run(db, roll, clk).1, db, roll.organisation, roll.reservation, clk)
  {
    hide Books, ApplicablePolicies, OneActive, Lineage, PolicyOk, CalendarOk, HeldSlots, Settled, ExecuteRollover, Moves, Renewable, HasRoom, ArgumentsOk;
    var id := roll.reservation;
    RolloverStops(db, roll.organisation, id, roll.key, roll.actor, clk);
    if id in db.reservations && db.reservations[id].organisation == roll.organisation
       && db.reservations[id].status == Active && clk.now < db.reservations[id].expiresAt
       && ApplicablePolicies(db, db.reservations[id], clk.now).Success? {
      var policies := ApplicablePolicies(db, db.reservations[id], clk.now).value;
      ApplicableListing(db, db.reservations[id], clk.now);
      var done := RolloverEffect(db, roll.organisation, id, roll.key, roll.actor, clk, policies);
      RenewableRoom(db, id, policies, roll.key, roll.actor, clk);
    }
  }

  lemma RolloverStops(db: Db, organisation: Id, id: ResId, key: Id, actor: Id, clk: Clock)
    ensures var x := ExecuteRollover(db, organisation, id, key, actor, clk);
            if id !in db.reservations || db.reservations[id].organisation != organisation then
              x == Failure(Refuse(BuyerNotAuthorised))
            else if db.reservations[id].status != Active || db.reservations[id].expiresAt <= clk.now then
              x == Failure(Refuse(ContextNotUsable))
            else
              ApplicablePolicies(db, db.reservations[id], clk.now).Failure? ==>
                x == Failure(ApplicablePolicies(db, db.reservations[id], clk.now).error)
  {
    hide ApplicablePolicies, RolloverReleases, RolloverReserves, WriteAll, InPolicyOrder;
  }
}
