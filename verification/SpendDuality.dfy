/** Commit and rollover: one answers for the other. */
module SpendDuality {
  import opened Wrappers
  import opened SpendTypes
  import opened SpendCommands
  import opened SpendBooks
  import opened SpendEffects
  import opened SpendOutcome
  import opened SpendInvariants
  import opened SpendKeeps
  import opened SpendKeepsMore
  import opened SpendRuns

  lemma {:induction false} ReleasesEmpty(db: Db, id: ResId, slots: seq<Slot>, why: Why, command: Id, actor: Id)
    requires AllHeld(db, id, slots)
    ensures Releases(db, id, slots, why, command, actor) == [] <==> forall slot :: slot in slots ==> !MustRelease(db, id, slot, why)
    decreases |slots|
  {
    if slots != [] {
      assert slots[0] in slots;
      assert forall slot :: slot in slots <==> slot == slots[0] || slot in slots[1..];
      ReleasesEmpty(db, id, slots[1..], why, command, actor);
    }
  }

  lemma {:induction false} TopUpsEmpty(db: Db, id: ResId, policies: seq<PolicyId>, amount: int, clk: Clock, step: Step, command: Id, actor: Id)
    requires Known(db, policies)
    ensures Reserves(db, id, policies, amount, true, clk, step, command, actor) == []
            <==> forall p :: p in policies ==> amount <= CurrentlyReserved(db, id, p, clk)
    decreases |policies|
  {
    hide CurrentlyReserved;
    if policies != [] {
      assert policies[0] in policies;
      assert forall p :: p in policies <==> p == policies[0] || p in policies[1..];
      TopUpsEmpty(db, id, policies[1..], amount, clk, step, command, actor);
    }
  }

  /** A rollover moves a hold exactly when the reservation is not ready to commit. */
  lemma MovesUnlessReady(db: Db, id: ResId, policies: seq<PolicyId>, key: Id, actor: Id, clk: Clock)
    requires Live(db, id, policies, clk) && Known(db, policies) && AllHeld(db, id, HeldSlots(db, id))
    ensures Moves(db, id, policies, db.reservations[id].amount, key, actor, clk)
            <==> !ReadyToCommit(db, id, policies, db.reservations[id].amount, clk)
  {
    hide Books, ApplicablePolicies, HeldSlots, PolicyOk, CalendarOk;
    var amount := db.reservations[id].amount;
    ReleasesEmpty(db, id, HeldSlots(db, id), StaleHolds(policies, clk), key, actor);
    TopUpsEmpty(db, id, policies, amount, clk, RolloverStep, key, actor);
    forall p | p in policies
      ensures amount <= CurrentlyReserved(db, id, p, clk) <==> FullyHeld(db, id, p, amount, clk)
    {
      assert SettledHold(db, id, CurrentSlot(db, p, clk));
    }
    forall slot | slot in HeldSlots(db, id)
      ensures MustRelease(db, id, slot, StaleHolds(policies, clk)) <==> StrayHold(db, id, slot, policies, clk)
    {
      assert SettledHold(db, id, slot) && ReservedBy(db, id, slot) == db.holds[HoldKey(id, slot)].reserved;
    }
  }

  /** The commit names exactly the reservation's purchase and its current hold revision. */
  predicate Names(cmd: Command, r: Reservation) {
    && cmd.Commit? && cmd.organisation == r.organisation && cmd.digest == r.digest && cmd.version == r.version
    && cmd.amount == r.amount && cmd.holdRevision == r.holdRevision
  }

  lemma CommitBlocked(db: Db, cmd: Command, clk: Clock, policies: seq<PolicyId>)
    requires cmd.Commit? && cmd.reservation in db.reservations && Names(cmd, db.reservations[cmd.reservation])
    requires db.reservations[cmd.reservation].status == Active && clk.now < db.reservations[cmd.reservation].expiresAt
    requires ApplicablePolicies(db, db.reservations[cmd.reservation], clk.now) == Success(policies) && Known(db, policies)
    requires !ReadyToCommit(db, cmd.reservation, policies, db.reservations[cmd.reservation].amount, clk)
    ensures ExecuteCommit(db, cmd, clk) == Failure(RolloverRequired)
  {
    hide ApplicablePolicies, ReadyToCommit, WriteAll, Commits;
  }

  lemma CommitUnblocked(db: Db, cmd: Command, clk: Clock, policies: seq<PolicyId>)
    requires cmd.Commit? && Live(db, cmd.reservation, policies, clk) && Known(db, policies)
    requires Names(cmd, db.reservations[cmd.reservation])
    requires ReadyToCommit(db, cmd.reservation, policies, db.reservations[cmd.reservation].amount, clk)
    requires forall k :: k in db.entries ==> k.command != cmd.key
    ensures ExecuteCommit(db, cmd, clk).Success?
    ensures ExecuteCommit(db, cmd, clk).value.1
         == Applied(cmd.reservation, Committed, db.reservations[cmd.reservation].holdRevision, None)
  {
    hide Books, ApplicablePolicies, ReadyToCommit, WriteAll, Commits, Settled, ExecuteCommit, CommittedAs, Appended;
    var done := CommitEffect(db, cmd.reservation, policies, cmd.reference, cmd.key, cmd.actor, clk);
    CommitIs(db, cmd, clk, policies, done);
  }

  /**
   For a commit that names its live reservation correctly: it answers
   "rollover required" exactly when a rollover would move a hold, and is applied otherwise.
   */
  lemma CommitOrRollover(db: Db, cmd: Command, clk: Clock, policies: seq<PolicyId>, key: Id, actor: Id)
    requires cmd.Commit? && Live(db, cmd.reservation, policies, clk) && Names(cmd, db.reservations[cmd.reservation])
    requires forall k :: k in db.entries ==> k.command != cmd.key
    ensures Known(db, policies) && AllHeld(db, cmd.reservation, HeldSlots(db, cmd.reservation))
    ensures if Moves(db, cmd.reservation, policies, db.reservations[cmd.reservation].amount, key, actor, clk) then
              ExecuteCommit(db, cmd, clk) == Failure(RolloverRequired)
            else
              ExecuteCommit(db, cmd, clk).Success?
  {
    hide Books, ApplicablePolicies, ReadyToCommit, Settled, ExecuteCommit, HeldSlots, Moves, PolicyOk;
    var id := cmd.reservation;
    HeldListing(db, id);
    ApplicableListing(db, db.reservations[id], clk.now);
    MovesUnlessReady(db, id, policies, key, actor, clk);
    if ReadyToCommit(db, id, policies, db.reservations[id].amount, clk) {
      CommitUnblocked(db, cmd, clk, policies);
    } else {
      CommitBlocked(db, cmd, clk, policies);
    }
  }

  /** A rollover that has nothing to move has room. */
  lemma NothingToReserve(db: Db, id: ResId, policies: seq<PolicyId>, amount: int, key: Id, actor: Id, clk: Clock)
    requires Known(db, policies) && AllHeld(db, id, HeldSlots(db, id))
    requires !Moves(db, id, policies, amount, key, actor, clk)
    ensures HasRoom(db, RolloverPlan(db, id, policies, amount, key, actor, clk), clk)
  {
    hide HeldSlots, CurrentlyReserved, Room;
    TopUpsEmpty(db, id, policies, amount, clk, RolloverStep, key, actor);
  }

  /**
   The same at the level of answers: of a commit and a rollover of one live
   reservation, exactly one has something to do.
   */
  lemma CommitOrRolloverAnswers(db: Db, cmd: Command, roll: Command, clk: Clock, policies: seq<PolicyId>)
    requires Fresh(db, cmd, clk) && Fresh(db, roll, clk)
    requires cmd.Commit? && roll.Rollover? && roll.reservation == cmd.reservation && roll.organisation == cmd.organisation
    requires Live(db, cmd.reservation, policies, clk) && Names(cmd, db.reservations[cmd.reservation])
    ensures var committing, rolling := Run(db, cmd, clk).1, Run(db, roll, clk).1;
            && (committing == Refused(ContextNotUsable, true)
                <==> rolling == Refused(SpendLimitExceeded, false) || (rolling.AppliedNow? && rolling.result.revalidate == Some(true)))
            && (committing.AppliedNow? <==> rolling.AppliedNow? && rolling.result.revalidate == Some(false))
            && (committing.AppliedNow? || committing == Refused(ContextNotUsable, true))
  {
    hide Books, ApplicablePolicies, ReadyToCommit, Settled, ExecuteCommit, ExecuteRollover, HeldSlots, Moves, PolicyOk, ArgumentsOk,
         OneActive, Lineage, CalendarOk, HasRoom, OthersKept, Appended;
    var id, amount := cmd.reservation, db.reservations[cmd.reservation].amount;
    CommitOrRollover(db, cmd, clk, policies, roll.key, roll.actor);
    var done := RolloverEffect(db, roll.organisation, id, roll.key, roll.actor, clk, policies);
    if !Moves(db, id, policies, amount, roll.key, roll.actor, clk) {
      NothingToReserve(db, id, policies, amount, roll.key, roll.actor, clk);
    }
  }

  // ----- After a rollover -----

  /** The reservation is still unexpired, and the same budgets apply to it in the same periods. */
  predicate SameBudgets(db: Db, r: Reservation, clk: Clock, later: Clock) {
    && later.now < r.expiresAt
    && ApplicablePolicies(db, r, later.now) == ApplicablePolicies(db, r, clk.now)
    && (forall p :: p in db.policies && Applies(db.policies[p], r, clk.now) ==> CurrentSlot(db, p, later) == CurrentSlot(db, p, clk))
  }

  lemma RolloverReady(db: Db, done: Db, id: ResId, policies: seq<PolicyId>, key: Id, clk: Clock, later: Clock)
    requires Live(db, id, policies, clk) && RolledOver(db, done, id, policies, key, clk) && Known(db, policies)
    requires forall p :: p in policies ==> CurrentSlot(db, p, later) == CurrentSlot(db, p, clk)
    ensures ReadyToCommit(done, id, policies, db.reservations[id].amount, later)
  {
    hide Books, ApplicablePolicies, HeldSlots, OthersKept, PolicyOk, Appended;
    var amount := db.reservations[id].amount;
    assert Settled(db, id);
    forall p | p in policies ensures FullyHeld(done, id, p, amount, later) {
      var slot := CurrentSlot(db, p, clk);
      assert ReservedBy(done, id, slot) == Converted(db, policies, amount, clk, slot);
    }
    HeldListing(done, id);
    forall slot | slot in HeldSlots(done, id) ensures !StrayHold(done, id, slot, policies, later) {
      assert ReservedBy(done, id, slot) == Converted(db, policies, amount, clk, slot);
    }
  }

  lemma ReadyReads(a: Db, b: Db, id: ResId, policies: seq<PolicyId>, amount: int, clk: Clock)
    requires b.holds == a.holds && b.policies == a.policies && Known(a, policies)
    requires ReadyToCommit(a, id, policies, amount, clk)
    ensures ReadyToCommit(b, id, policies, amount, clk)
  {
    assert HeldSlots(b, id) == HeldSlots(a, id);
    forall p | p in policies ensures FullyHeld(b, id, p, amount, clk) {
      assert FullyHeld(a, id, p, amount, clk);
    }
    forall slot | slot in HeldSlots(b, id) ensures !StrayHold(b, id, slot, policies, clk) {
      assert !StrayHold(a, id, slot, policies, clk);
    }
  }

  lemma ApplicableReads(a: Db, b: Db, r: Reservation, r1: Reservation, now: Instant)
    requires b.policies == a.policies && SameBinding(r, r1)
    ensures ApplicablePolicies(b, r1, now) == ApplicablePolicies(a, r, now)
  {
    forall p | p in a.policies ensures Applies(b.policies[p], r1, now) <==> Applies(a.policies[p], r, now) {}
    assert ApplicableIds(b, r1, now) == ApplicableIds(a, r, now);
  }

  /** What an applied rollover leaves for a commit at a later instant. */
  lemma RolledLive(db: Db, roll: Command, clk: Clock, later: Clock) returns (policies: seq<PolicyId>)
    requires roll.Rollover? && Fresh(db, roll, clk) && Execute(db, roll, clk).Success? && CalendarOk(later)
    requires roll.reservation in db.reservations && SameBudgets(db, db.reservations[roll.reservation], clk, later)
    ensures var db1 := Execute(db, roll, clk).value.0;
            && Live(db1, roll.reservation, policies, later) && Known(db1, policies)
            && SameBinding(db.reservations[roll.reservation], db1.reservations[roll.reservation])
            && db1.reservations[roll.reservation].holdRevision == Execute(db, roll, clk).value.1.holdRevision
            && ReadyToCommit(db1, roll.reservation, policies, db1.reservations[roll.reservation].amount, later)
  {
    hide Books, ApplicablePolicies, ReadyToCommit, Settled, HeldSlots, Moves, PolicyOk, ExecuteRollover, ArgumentsOk,
         OneActive, Lineage, HasRoom, OthersKept, Appended, CalendarOk, Applies, CurrentSlot, IsCurrent;
    var id := roll.reservation;
    policies := RolloverGuards(db, roll.organisation, id, roll.key, roll.actor, clk);
    ApplicableListing(db, db.reservations[id], clk.now);
    var done := RolloverEffect(db, roll.organisation, id, roll.key, roll.actor, clk, policies);
    RolloverKeeps(db, roll, clk);
    var db1 := Execute(db, roll, clk).value.0;
    ApplicableReads(db, db1, db.reservations[id], db1.reservations[id], later.now);
    RolloverReady(db, done, id, policies, roll.key, clk, later);
    ReadyReads(done, db1, id, policies, db.reservations[id].amount, later);
  }

  /**
   After an applied rollover, a commit bound to the new hold revision is applied,
   as long as the same budgets apply in the same periods and the reservation has not expired.
   */
  lemma RolloverUnblocksCommit(db: Db, roll: Command, clk: Clock, cmd: Command, later: Clock)
    requires Inv(db) && CalendarOk(clk) && CalendarOk(later)
    requires roll.Rollover? && Run(db, roll, clk).1.AppliedNow?
    requires roll.reservation in db.reservations && SameBudgets(db, db.reservations[roll.reservation], clk, later)
    requires cmd.Commit? && cmd.reservation == roll.reservation && ArgumentsOk(cmd, later.now) && cmd.key !in Run(db, roll, clk).0.commands
    requires Names(cmd, db.reservations[roll.reservation].(holdRevision := Run(db, roll, clk).1.result.holdRevision))
    ensures Run(Run(db, roll, clk).0, cmd, later).1 == AppliedNow(Applied(cmd.reservation, Committed, cmd.holdRevision, None))
  {
    hide Books, ApplicablePolicies, ReadyToCommit, Settled, ExecuteCommit, ExecuteRollover, HeldSlots, Moves, PolicyOk, ArgumentsOk,
         OneActive, Lineage, SameBudgets, CalendarOk, Applies;
    var id := roll.reservation;
    var policies := RolledLive(db, roll, clk, later);
    var db1, after := Execute(db, roll, clk).value.0, Run(db, roll, clk).0;
    RunKeeps(db, roll, clk);
    ApplicableReads(db1, after, db1.reservations[id], after.reservations[id], later.now);
    ReadyReads(db1, after, id, policies, db1.reservations[id].amount, later);
    CommitUnblocked(after, cmd, later, policies);
  }
}
