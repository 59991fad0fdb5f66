/** How far a command that moves holds comes through its budgets. */
module SpendReach {
  import opened Wrappers
  import opened SpendTypes
  import opened SpendLedger
  import opened SpendCommands
  import opened SpendBooks
  import opened SpendPlans
  import opened SpendEffects
  import opened SpendOutcome
  import opened SpendInvariants
  import opened SpendKeeps
  import opened SpendKeepsMore
  import opened SpendWrites
  import opened SpendLocks

  // ----- Parts of a plan -----

  /** What applies as a whole applies budget by budget. */
  lemma {:induction false} PartSucceeds(db: Db, es: seq<Entry>, policy: PolicyId, clk: Clock)
    requires WellKeyed(es) && ApplyAll(db, es, clk).Success?
    ensures ApplyAll(db, ForPolicy(es, policy), clk).Success?
    decreases |es|
  {
    if es != [] {
      var e, rest := es[0], es[1..];
      assert e in es && es == [e] + rest;
      var rows := Judge(db, e, clk).value;
      var db1 := Post(db, e, rows);
      PartSucceeds(db1, rest, policy, clk);
      if policy == e.policy {
        Stepwise(db, e, ForPolicy(rest, policy), clk);
      } else {
        assert [] + ForPolicy(rest, policy) == ForPolicy(rest, policy);
        JudgeSees(db, db, e, clk);
        ForPolicyIn(rest, policy);
        BudgetAlone(db1, db, ForPolicy(rest, policy), policy, clk);
      }
    }
  }

  /** The budget has room for what the plan still wants of it. */
  ghost predicate FitsIn(db: Db, plan: Plan, policy: PolicyId, clk: Clock)
    requires policy in db.policies
  {
    var wanted := Wanted(db, plan.id, policy, plan.amount, plan.topUp, clk);
    wanted == 0 || wanted <= Room(db, plan, policy, clk)
  }

  /** A budget's own part of a plan is admitted exactly when it fits, or reserves nothing. */
  lemma PartAdmitted(db: Db, plan: Plan, policy: PolicyId, clk: Clock)
    requires Planned(db, plan, clk)
    ensures ApplyAll(db, ForPolicy(PlanReleases(db, plan) + PlanReserves(db, plan, clk), policy), clk).Success? <==>
            (policy in plan.policies ==> FitsIn(db, plan, policy, clk))
  {
    hide Books, Reservable, ReleasedAs, ReservedAs, ApplyAll, MustRelease;
    PartPlanned(db, plan, policy, clk);
    PartEntries(db, plan, policy, clk);
    var mid := BatchOutcome(db, Part(plan, policy), clk);
    if policy in plan.policies {
      PartRoom(db, plan, policy, clk);
      assert policy in Part(plan, policy).policies;
    }
  }

  lemma PartRoom(db: Db, plan: Plan, policy: PolicyId, clk: Clock)
    requires Distinct(plan.slots) && policy in db.policies
    ensures Room(db, Part(plan, policy), policy, clk) == Room(db, plan, policy, clk)
  {
    SlotsForMembers(plan.slots, policy);
  }

  /** Its releases are always admitted, and so is any first part of them. */
  lemma ReleasesAdmitted(db: Db, plan: Plan, first: seq<Entry>, policy: PolicyId, clk: Clock)
    requires Planned(db, plan, clk) && first <= ForPolicy(PlanReleases(db, plan), policy)
    ensures ApplyAll(db, first, clk).Success?
  {
    hide Books, Reservable, ReleasedAs, ReservedAs, ApplyAll, MustRelease;
    var releases := plan.(policies := []);
    assert PlanReserves(db, releases, clk) == [];
    assert PlanReleases(db, releases) + [] == PlanReleases(db, plan);
    PartAdmitted(db, releases, policy, clk);
    var rest := ForPolicy(PlanReleases(db, plan), policy)[|first|..];
    assert ForPolicy(PlanReleases(db, plan), policy) == first + rest;
    ApplyAllAppend(db, first, rest, clk);
  }

  // ----- The plan of a resubmission or a rollover -----

  /** The budget has room for the amount once what is held in its current period is returned. */
  predicate RoomIn(db: Db, cmd: Command, policy: PolicyId, clk: Clock)
    requires policy in db.policies
  {
    match cmd
    case Resubmit(s, prior) => s.amount <= Available(db, policy, clk) + ReservedBy(db, prior, CurrentSlot(db, policy, clk))
    case Rollover(_, _, id, _) =>
      id in db.reservations
      && db.reservations[id].amount <= Available(db, policy, clk) + ReservedBy(db, id, CurrentSlot(db, policy, clk))
    case _ => true
  }

  /** The plan writes what the command writes, and fits a budget exactly as the tables say. */
  ghost predicate PlanFor(db: Db, cmd: Command, plan: Plan, clk: Clock) {
    && Base(db, cmd).policies == db.policies && Planned(Base(db, cmd), plan, clk) && !cmd.Commit?
    && Planning(db, cmd, clk) == (PlanReleases(Base(db, cmd), plan), PlanReserves(Base(db, cmd), plan, clk))
    && (forall p :: p in plan.policies ==>
          (FitsIn(Base(db, cmd), plan, p, clk) <==> (ReservesAgain(db, cmd, p, clk) ==> RoomIn(db, cmd, p, clk))))
    && (forall p :: ReservesAgain(db, cmd, p, clk) ==> p in plan.policies)
  }

  lemma ResubmitPlan(db: Db, s: Submission, prior: ResId, clk: Clock) returns (plan: Plan)
    requires Inv(db) && CalendarOk(clk) && Started(db, Resubmit(s, prior), clk) && Proceeds(db, Resubmit(s, prior), clk)
    ensures PlanFor(db, Resubmit(s, prior), plan, clk)
  {
    hide Books, ApplicablePolicies, OneActive, Lineage, Settled, PolicyOk, CalendarOk, Fillable, HeldSlots, Collides, LaterVersion,
         MustRelease, Releases, Reserves, SubmissionOk, Room, Wanted;
    var closed, db0 := SetStatus(db, prior, Released), Replaced(db, s, prior);
    var why, slots := AllHolds(ResubmitReason(db, s, prior)), HeldSlots(db, prior);
    BooksUnmoved(db, closed);
    InsertedFillable(closed, s, Some(prior), clk);
    HeldListing(db, prior);
    ReleasesSame(db, db0, prior, slots, why, s.key, s.actor);
    FillPlanned(db0, s, prior, slots, why, ResubmitStep, clk);
    var policies := ApplicablePolicies(db0, NewReservation(s, Some(prior)), clk.now).value;
    plan := FillPlan(s, prior, slots, why, policies, ResubmitStep);
    forall p | p in policies ensures FitsIn(db0, plan, p, clk) <==> RoomIn(db, Resubmit(s, prior), p, clk) {
      FillRoom(db, db0, s, prior, plan, p, clk);
    }
  }

  lemma FillRoom(db: Db, db0: Db, s: Submission, prior: ResId, plan: Plan, policy: PolicyId, clk: Clock)
    requires db0.policies == db.policies && db0.balances == db.balances && db0.holds == db.holds && policy in db.policies && s.amount > 0
    requires plan.from == prior && plan.slots == HeldSlots(db, prior) && plan.why.AllHolds? && plan.amount == s.amount && !plan.topUp
    ensures FitsIn(db0, plan, policy, clk) <==> RoomIn(db, Resubmit(s, prior), policy, clk)
  {
    hide HeldSlots;
    HeldListing(db, prior);
  }

  lemma RolloverPlanFor(db: Db, roll: Command, clk: Clock) returns (plan: Plan)
    requires roll.Rollover? && Inv(db) && CalendarOk(clk) && Started(db, roll, clk) && Proceeds(db, roll, clk)
    ensures PlanFor(db, roll, plan, clk)
  {
    hide Books, ApplicablePolicies, OneActive, Lineage, PolicyOk, CalendarOk, HeldSlots, MustRelease, Releases, Reserves, ArgumentsOk,
         Room, Wanted, SettledHold, OneHold;
    var id := roll.reservation;
    var policies, amount := ApplicablePolicies(db, db.reservations[id], clk.now).value, db.reservations[id].amount;
    HeldListing(db, id);
    ApplicableListing(db, db.reservations[id], clk.now);
    RolloverPlanned(db, id, policies, roll.key, roll.actor, clk);
    plan := RolloverPlan(db, id, policies, amount, roll.key, roll.actor, clk);
    forall p | p in policies
      ensures FitsIn(db, plan, p, clk) <==> (ReservesAgain(db, roll, p, clk) ==> RoomIn(db, roll, p, clk))
    {
      RenewRoom(db, roll, policies, plan, p, clk);
    }
  }

  lemma RenewRoom(db: Db, roll: Command, policies: seq<PolicyId>, plan: Plan, policy: PolicyId, clk: Clock)
    requires roll.Rollover? && Live(db, roll.reservation, policies, clk) && Known(db, policies) && policy in policies
    requires plan == RolloverPlan(db, roll.reservation, policies, db.reservations[roll.reservation].amount, roll.key, roll.actor, clk)
    ensures FitsIn(db, plan, policy, clk) <==> (ReservesAgain(db, roll, policy, clk) ==> RoomIn(db, roll, policy, clk))
  {
    hide Books, HeldSlots, Available, ApplicablePolicies, CalendarOk, PolicyOk, OneHold;
    HeldListing(db, roll.reservation);
    assert SettledHold(db, roll.reservation, CurrentSlot(db, policy, clk));
  }

  lemma PlanOf(db: Db, cmd: Command, clk: Clock) returns (plan: Plan)
    requires Inv(db) && CalendarOk(clk) && Started(db, cmd, clk) && Proceeds(db, cmd, clk) && (cmd.Resubmit? || cmd.Rollover?)
    ensures PlanFor(db, cmd, plan, clk)
  {
    hide Inv, PlanFor, Proceeds, Started;
    match cmd
    case Resubmit(s, prior) => plan := ResubmitPlan(db, s, prior, clk);
    case Rollover(_, _, _, _) => plan := RolloverPlanFor(db, cmd, clk);
  }

  // ----- Reaching a budget -----

  /** Every earlier budget that the command reserves in has room. */
  ghost predicate EarlierRoom(db: Db, cmd: Command, policy: PolicyId, clk: Clock) {
    forall q :: q in db.policies && PolicyBefore(q, policy) && ReservesAgain(db, cmd, q, clk) ==> RoomIn(db, cmd, q, clk)
  }

  /** Its guards pass, and no earlier budget refuses it. */
  ghost predicate Reaches(db: Db, cmd: Command, policy: PolicyId, clk: Clock) {
    Started(db, cmd, clk) && Proceeds(db, cmd, clk) && EarlierRoom(db, cmd, policy, clk)
  }

  /** Releases of what is held and reservations of what applies get as far as their rows. */
  lemma PlanReachesRows(db: Db, plan: Plan, clk: Clock)
    requires Planned(db, plan, clk)
    ensures forall e :: e in PlanReleases(db, plan) + PlanReserves(db, plan, clk) ==> ReachesRow(db, e, clk)
  {
    hide MustRelease;
    ReleasesShape(db, plan.from, plan.slots, plan.why, plan.command, plan.actor);
    ReservesShape(db, plan.id, plan.policies, plan.amount, plan.topUp, clk, plan.step, plan.command, plan.actor);
    forall e | e in PlanReleases(db, plan) ensures ReachesRow(db, e, clk) {
      var slot :| slot in plan.slots && e == ReleaseOf(db, plan.from, slot, plan.why, plan.command, plan.actor);
      assert HoldOk(db, HoldKey(plan.from, slot));
      assert slot == Slot(slot.policy, slot.period);
    }
    forall e | e in PlanReserves(db, plan, clk) ensures ReachesRow(db, e, clk) {
      assert Reservable(db, plan, e.policy, clk);
    }
  }

  lemma WritesReachRows(db: Db, cmd: Command, plan: Plan, clk: Clock)
    requires PlanFor(db, cmd, plan, clk)
    ensures forall e :: e in Writes(db, cmd, clk) ==> ReachesRow(Base(db, cmd), e, clk)
    ensures WellKeyed(Writes(db, cmd, clk))
  {
    hide Books, Reservable, Planning, Base, ReachesRow, InPolicyOrder, WellKeyed, FitsIn, ReservesAgain, RoomIn, Releases, Reserves;
    PlanReachesRows(Base(db, cmd), plan, clk);
    InterleavingMembers(Planning(db, cmd, clk).0, Planning(db, cmd, clk).1);
    PlanKeyed(Base(db, cmd), plan, clk);
  }

  /** A budget's own entries are admitted exactly when it has room, if the command reserves in it. */
  lemma BudgetAdmitted(db: Db, cmd: Command, plan: Plan, policy: PolicyId, clk: Clock)
    requires PlanFor(db, cmd, plan, clk)
    ensures ApplyAll(Base(db, cmd), ForPolicy(Writes(db, cmd, clk), policy), clk).Success? <==>
            (policy in db.policies && ReservesAgain(db, cmd, policy, clk) ==> RoomIn(db, cmd, policy, clk))
  {
    hide Planning, Base, ReservesAgain, Available, FitsIn, Writes, ApplyAll, RoomIn;
    ByBudget(db, cmd, policy, clk);
    ForPolicyAppend(Planning(db, cmd, clk).0, Planning(db, cmd, clk).1, policy);
    PartAdmitted(Base(db, cmd), plan, policy, clk);
  }

  /** A budget reserves at most once in a plan. */
  lemma OneReserve(db: Db, cmd: Command, plan: Plan, policy: PolicyId, clk: Clock)
    requires PlanFor(db, cmd, plan, clk)
    ensures |ForPolicy(Planning(db, cmd, clk).1, policy)| <= 1
  {
    hide Books, Reservable, Base, FitsIn, ReservesAgain, Planning;
    var base := Base(db, cmd);
    ReservesForPolicy(base, plan.id, plan.policies, plan.amount, plan.topUp, clk, plan.step, plan.command, plan.actor, policy);
    ReserveOnly(base, plan, policy, clk);
  }

  lemma ReserveOnly(db: Db, plan: Plan, policy: PolicyId, clk: Clock)
    requires Known(db, Only(plan.policies, policy))
    ensures |Reserves(db, plan.id, Only(plan.policies, policy), plan.amount, plan.topUp, clk, plan.step, plan.command, plan.actor)| <= 1
  {
    hide AmountToReserve;
    assert [policy][1..] == [];
  }

  /** Before a budget's current row is asked for, all of the entries of earlier budgets and only releases of its own are written. */
  lemma BeforeCurrent(db: Db, cmd: Command, plan: Plan, clk: Clock, j: nat, policy: PolicyId)
    requires PlanFor(db, cmd, plan, clk) && j < |Writes(db, cmd, clk)| && Writes(db, cmd, clk)[j].period.None?
    ensures var es, p := Writes(db, cmd, clk), Writes(db, cmd, clk)[j].policy;
            var before := ForPolicy(es[..j], policy);
            if PolicyBefore(policy, p) then before == ForPolicy(es, policy)
            else if policy == p then before <= ForPolicy(Planning(db, cmd, clk).0, p)
            else before == []
  {
    hide Planning, Base, ReservesAgain, FitsIn, Writes, PolicyBefore, ForPolicy;
    var es := Writes(db, cmd, clk);
    var p := es[j].policy;
    assert es == es[..j] + es[j..];
    ForPolicyAppend(es[..j], es[j..], policy);
    forall m | 0 <= m < |es| && m != j
      ensures es[m].policy == p || if m < j then PolicyBefore(es[m].policy, p) else PolicyBefore(p, es[m].policy)
    {
      EntriesByBudget(db, cmd, clk, if m < j then m else j, if m < j then j else m);
    }
    ForPolicyIn(es[..j], policy);
    OrderIsStrict(policy, p);
    if PolicyBefore(policy, p) {
      forall e | e in es[j..] ensures e.policy != policy {
        var m :| 0 <= m < |es[j..]| && es[j..][m] == e;
        assert es[j + m] == e;
      }
      ForPolicyNone(es[j..], policy);
    } else if policy == p {
      OwnBeforeCurrent(db, cmd, plan, clk, j);
    } else {
      forall e | e in es[..j] ensures e.policy != policy {
        var m :| 0 <= m < |es[..j]| && es[..j][m] == e;
      }
      ForPolicyNone(es[..j], policy);
    }
  }

  lemma OrderIsStrict(p: PolicyId, q: PolicyId)
    ensures !(PolicyBefore(p, q) && PolicyBefore(q, p)) && !PolicyBefore(p, p)
  {
    OrdersAreStrict();
  }

  lemma EntriesByBudget(db: Db, cmd: Command, clk: Clock, i: nat, j: nat)
    requires i < j < |Writes(db, cmd, clk)|
    ensures var es := Writes(db, cmd, clk); es[i].policy == es[j].policy || PolicyBefore(es[i].policy, es[j].policy)
  {
    hide Writes, PolicyBefore;
    var es := Writes(db, cmd, clk);
    BudgetsInOrder(db, cmd, clk);
    assert BudgetsIn(es)[i] == es[i].policy && BudgetsIn(es)[j] == es[j].policy;
  }

  lemma OwnBeforeCurrent(db: Db, cmd: Command, plan: Plan, clk: Clock, j: nat)
    requires PlanFor(db, cmd, plan, clk) && j < |Writes(db, cmd, clk)| && Writes(db, cmd, clk)[j].period.None?
    ensures var es, p := Writes(db, cmd, clk), Writes(db, cmd, clk)[j].policy;
            ForPolicy(es[..j], p) <= ForPolicy(Planning(db, cmd, clk).0, p)
  {
    hide Planning, Base, ReservesAgain, FitsIn, Writes, ForPolicy;
    var es := Writes(db, cmd, clk);
    var p := es[j].policy;
    var a, b, before := ForPolicy(Planning(db, cmd, clk).0, p), ForPolicy(Planning(db, cmd, clk).1, p), ForPolicy(es[..j], p);
    assert es == es[..j] + ([es[j]] + es[j + 1..]);
    ForPolicyAppend(es[..j], [es[j]] + es[j + 1..], p);
    ForPolicyAppend([es[j]], es[j + 1..], p);
    ForPolicyIn([es[j]], p);
    assert es[j] in ForPolicy([es[j]], p);
    ByBudget(db, cmd, p, clk);
    OneReserve(db, cmd, plan, p, clk);
    assert |before| < |a + b| && before <= a + b;
  }

  /** The current row of a budget is asked for exactly when the command reaches the budget. */
  lemma AsksNowIff(db: Db, cmd: Command, policy: PolicyId, clk: Clock)
    requires Inv(db) && CalendarOk(clk) && ReservesAgain(db, cmd, policy, clk)
    ensures AsksNow(db, cmd, policy, clk) <==> Reaches(db, cmd, policy, clk)
  {
    hide Inv, Started, Proceeds, EarlierRoom, ReservesAgain, Asked, Writes, Base;
    ReplacesOrRenews(db, cmd, policy, clk);
    if Started(db, cmd, clk) && Proceeds(db, cmd, clk) {
      var plan := PlanOf(db, cmd, clk);
      var at := CurrentAt(db, cmd, policy, clk);
      WritesReachRows(db, cmd, plan, clk);
      forall j | 0 <= j < |Writes(db, cmd, clk)| && Writes(db, cmd, clk)[j].policy == policy && Writes(db, cmd, clk)[j].period.None?
        ensures j < |AskedFor(db, cmd, clk)| <==> EarlierRoom(db, cmd, policy, clk)
      {
        AskedUntilRefused(Base(db, cmd), Writes(db, cmd, clk), clk, j);
        AdmittedBefore(db, cmd, plan, clk, j);
      }
      AsksAt(db, cmd, policy, clk, at);
    }
  }

  lemma ReplacesOrRenews(db: Db, cmd: Command, policy: PolicyId, clk: Clock)
    requires ReservesAgain(db, cmd, policy, clk)
    ensures cmd.Resubmit? || cmd.Rollover?
  {
  }

  lemma CurrentAt(db: Db, cmd: Command, policy: PolicyId, clk: Clock) returns (j: nat)
    requires ReservesAgain(db, cmd, policy, clk)
    ensures j < |Writes(db, cmd, clk)| && Writes(db, cmd, clk)[j].policy == policy && Writes(db, cmd, clk)[j].period.None?
  {
    hide Planning, Writes, ForPolicy, ReservesAgain;
    ReplacesOrRenews(db, cmd, policy, clk);
    PlanOfHolds(db, cmd, policy, clk);
    PlanningShape(db, cmd, clk);
    var y :| y in Planning(db, cmd, clk).1 && y.policy == policy;
    ByBudget(db, cmd, policy, clk);
    ForPolicyIn(Planning(db, cmd, clk).1, policy);
    ForPolicyIn(Writes(db, cmd, clk), policy);
    assert y in ForPolicy(Planning(db, cmd, clk).0, policy) + ForPolicy(Planning(db, cmd, clk).1, policy);
    j :| 0 <= j < |Writes(db, cmd, clk)| && Writes(db, cmd, clk)[j] == y;
  }

  /** If one such entry is asked for exactly when any other is, this one tells. */
  lemma AsksAt(db: Db, cmd: Command, policy: PolicyId, clk: Clock, at: nat)
    requires at < |Writes(db, cmd, clk)| && Writes(db, cmd, clk)[at].policy == policy && Writes(db, cmd, clk)[at].period.None?
    requires forall j | 0 <= j < |Writes(db, cmd, clk)| && Writes(db, cmd, clk)[j].policy == policy && Writes(db, cmd, clk)[j].period.None? ::
      j < |AskedFor(db, cmd, clk)| <==> at < |AskedFor(db, cmd, clk)|
    ensures AsksNow(db, cmd, policy, clk) <==> at < |AskedFor(db, cmd, clk)|
  {
    hide AskedFor, Writes;
    var asked, es := AskedFor(db, cmd, clk), Writes(db, cmd, clk);
    if at < |asked| {
      assert asked[at] == es[at] && asked[at] in asked;
    }
    if AsksNow(db, cmd, policy, clk) {
      var e :| e in asked && e.policy == policy && e.period.None?;
      var j :| 0 <= j < |asked| && asked[j] == e;
      assert es[j] == e;
    }
  }

  /** What is written before a budget's current row is admitted exactly when the earlier budgets have room. */
  lemma AdmittedBefore(db: Db, cmd: Command, plan: Plan, clk: Clock, j: nat)
    requires PlanFor(db, cmd, plan, clk) && j < |Writes(db, cmd, clk)| && Writes(db, cmd, clk)[j].period.None?
    ensures ApplyAll(Base(db, cmd), Writes(db, cmd, clk)[..j], clk).Success? <==> EarlierRoom(db, cmd, Writes(db, cmd, clk)[j].policy, clk)
  {
    hide PlanFor, Writes, Base, ApplyAll, ReservesAgain, RoomIn, PolicyBefore;
    var es, base := Writes(db, cmd, clk), Base(db, cmd);
    var p := es[j].policy;
    if ApplyAll(base, es[..j], clk).Success? {
      WritesReachRows(db, cmd, plan, clk);
      assert WellKeyed(es[..j]);
      forall q | q in db.policies && PolicyBefore(q, p) && ReservesAgain(db, cmd, q, clk) ensures RoomIn(db, cmd, q, clk) {
        PartSucceeds(base, es[..j], q, clk);
        BeforeCurrent(db, cmd, plan, clk, j, q);
        BudgetAdmitted(db, cmd, plan, q, clk);
      }
    } else {
      var q := RefusedEarlier(db, cmd, plan, clk, j);
    }
  }

  /** A refusal before a budget's current row is for want of room in an earlier budget. */
  lemma RefusedEarlier(db: Db, cmd: Command, plan: Plan, clk: Clock, j: nat) returns (q: PolicyId)
    requires PlanFor(db, cmd, plan, clk) && j < |Writes(db, cmd, clk)| && Writes(db, cmd, clk)[j].period.None?
    requires ApplyAll(Base(db, cmd), Writes(db, cmd, clk)[..j], clk).Failure?
    ensures q in db.policies && PolicyBefore(q, Writes(db, cmd, clk)[j].policy)
    ensures ReservesAgain(db, cmd, q, clk) && !RoomIn(db, cmd, q, clk)
  {
    hide PlanFor, Writes, Base, ApplyAll, ReservesAgain, RoomIn, PolicyBefore;
    var es, base := Writes(db, cmd, clk), Base(db, cmd);
    var p := es[j].policy;
    WritesReachRows(db, cmd, plan, clk);
    assert WellKeyed(es[..j]);
    q := RefusalIsLocal(base, es[..j], clk);
    OrderIsStrict(q, p);
    NothingRefused(base, clk);
    BeforeCurrent(db, cmd, plan, clk, j, q);
    if q == p {
      OwnAdmitted(db, cmd, plan, ForPolicy(es[..j], p), p, clk);
    }
    BudgetAdmitted(db, cmd, plan, q, clk);
  }

  lemma NothingRefused(db: Db, clk: Clock)
    ensures ApplyAll(db, [], clk).Success?
  {
  }

  lemma OwnAdmitted(db: Db, cmd: Command, plan: Plan, first: seq<Entry>, policy: PolicyId, clk: Clock)
    requires PlanFor(db, cmd, plan, clk) && first <= ForPolicy(Planning(db, cmd, clk).0, policy)
    ensures ApplyAll(Base(db, cmd), first, clk).Success?
  {
    hide Planned, Planning, Base, FitsIn, ReservesAgain, ApplyAll;
    ReleasesAdmitted(Base(db, cmd), plan, first, policy, clk);
  }
}
