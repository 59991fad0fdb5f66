/** When a whole plan of releases and reservations is admitted, and what it leaves. */
module SpendOutcome {
  import opened Wrappers
  import opened SpendTypes
  import opened SpendLedger
  import opened SpendCommands
  import opened SpendBooks
  import opened SpendPlans
  import opened SpendEffects

  /** Releases of `from` and reservations of `id`, as one command plans them. */
  datatype Plan = Plan(from: ResId, slots: seq<Slot>, why: Why,
                       id: ResId, policies: seq<PolicyId>, amount: int, topUp: bool, step: Step,
                       command: Id, actor: Id)

  function PlanReleases(db: Db, plan: Plan): seq<Entry>
    requires AllHeld(db, plan.from, plan.slots)
  {
    Releases(db, plan.from, plan.slots, plan.why, plan.command, plan.actor)
  }

  function PlanReserves(db: Db, plan: Plan, clk: Clock): seq<Entry>
    requires forall p :: p in plan.policies ==> p in db.policies
  {
    Reserves(db, plan.id, plan.policies, plan.amount, plan.topUp, clk, plan.step, plan.command, plan.actor)
  }

  /** The budget applies, and any hold already in its current period will be reusable. */
  ghost predicate Reservable(db: Db, plan: Plan, policy: PolicyId, clk: Clock) {
    && plan.id in db.reservations && policy in db.policies
    && db.reservations[plan.id].status == Active && clk.now < db.reservations[plan.id].expiresAt
    && Applies(db.policies[policy], db.reservations[plan.id], clk.now)
    && PeriodOf(db.policies[policy], clk).startsAt <= clk.now < PeriodOf(db.policies[policy], clk).endsAt
    && var slot := CurrentSlot(db, policy, clk);
       HoldKey(plan.id, slot) in db.holds ==>
         var hold := db.holds[HoldKey(plan.id, slot)];
         && plan.id == plan.from && slot in plan.slots && hold.committed == 0 && 0 <= hold.reserved
         && if hold.revision == db.policies[policy].revision then
              !MustRelease(db, plan.from, slot, plan.why)
            else
              hold.reserved == 0 || MustRelease(db, plan.from, slot, plan.why)
  }

  ghost predicate Planned(db: Db, plan: Plan, clk: Clock) {
    && Books(db) && Distinct(plan.slots) && AllHeld(db, plan.from, plan.slots)
    && Distinct(plan.policies) && Known(db, plan.policies)
    && (plan.topUp || plan.amount > 0) && !plan.step.ReleaseStep?
    && (forall k :: k in db.entries ==> k.command != plan.command)
    && (forall p :: p in plan.policies ==> Reservable(db, plan, p, clk))
  }

  /** Capacity a budget has for this plan once its own releases are back. */
  ghost function Room(db: Db, plan: Plan, policy: PolicyId, clk: Clock): int
    requires policy in db.policies
  {
    Available(db, policy, clk)
    + Returned(db, plan.from, plan.slots, plan.why, HoldKey(plan.from, CurrentSlot(db, policy, clk)))
  }

  ghost predicate HasRoom(db: Db, plan: Plan, clk: Clock)
    requires Known(db, plan.policies)
  {
    forall p :: p in plan.policies ==>
      Wanted(db, plan.id, p, plan.amount, plan.topUp, clk) == 0
      || Wanted(db, plan.id, p, plan.amount, plan.topUp, clk) <= Room(db, plan, p, clk)
  }

  /** The state between the releases and the reservations of the batched plan. */
  lemma AfterReleases(db: Db, plan: Plan, clk: Clock) returns (mid: Db)
    requires Planned(db, plan, clk)
    ensures ApplyAll(db, PlanReleases(db, plan), clk) == Success(mid) && Books(mid)
    ensures ReleasedAs(db, mid, plan.from, plan.slots, plan.why)
    ensures forall k :: k in mid.entries && k.command == plan.command ==> k.step.ReleaseStep?
  {
    hide ApplyEntry, ReleasedAs, Reservable;
    ReleasesSucceed(db, plan.from, plan.slots, plan.why, plan.command, plan.actor, clk);
    ReleasesEffect(db, plan.from, plan.slots, plan.why, plan.command, plan.actor, clk);
    BooksKeptAll(db, PlanReleases(db, plan), clk);
    mid := ApplyAll(db, PlanReleases(db, plan), clk).value;
    ReleasesShape(db, plan.from, plan.slots, plan.why, plan.command, plan.actor);
    AppliedKeys(db, PlanReleases(db, plan), clk);
  }

  lemma {:induction false} AppliedKeys(db: Db, es: seq<Entry>, clk: Clock)
    requires ApplyAll(db, es, clk).Success?
    ensures forall k :: k in ApplyAll(db, es, clk).value.entries && k !in db.entries ==> exists e :: e in es && e.key == k
    decreases |es|
  {
    if es != [] {
      var db1 := ApplyEntry(db, es[0], clk).value;
      AppliedKeys(db1, es[1..], clk);
      forall k | k in ApplyAll(db, es, clk).value.entries && k !in db.entries ensures exists e :: e in es && e.key == k {
        if k in db1.entries {
          assert es[0] in es && es[0].key == k;
        } else {
          var e :| e in es[1..] && e.key == k;
          assert e in es;
        }
      }
    }
  }

  lemma {:induction false} ReleasesShape(db: Db, id: ResId, slots: seq<Slot>, why: Why, command: Id, actor: Id)
    requires AllHeld(db, id, slots)
    ensures forall e :: e in Releases(db, id, slots, why, command, actor) ==>
      && e.kind.ReleaseEntry? && e.reservation == id && e.key.policy == e.policy
      && e.key.command == command && e.key.step.ReleaseStep?
      && exists slot :: slot in slots && MustRelease(db, id, slot, why) && e == ReleaseOf(db, id, slot, why, command, actor)
    decreases |slots|
  {
    if slots != [] {
      ReleasesShape(db, id, slots[1..], why, command, actor);
      assert slots[0] in slots;
      assert forall slot :: slot in slots[1..] ==> slot in slots;
    }
  }

  lemma {:induction false} ReservesShape(db: Db, id: ResId, policies: seq<PolicyId>, amount: int, topUp: bool, clk: Clock,
                                         step: Step, command: Id, actor: Id)
    requires Known(db, policies)
    ensures forall e :: e in Reserves(db, id, policies, amount, topUp, clk, step, command, actor) ==>
      && e.kind.ReserveEntry? && e.period.None? && e.reservation == id && e.key.policy == e.policy
      && e.key.command == command && e.key.step == step && e.policy in policies
    decreases |policies|
  {
    if policies != [] {
      ReservesShape(db, id, policies[1..], amount, topUp, clk, step, command, actor);
    }
  }

  /** After the releases, each budget may be reserved and needs as much as it did before. */
  lemma ReadyAfterReleases(db: Db, mid: Db, plan: Plan, policy: PolicyId, clk: Clock)
    requires Reservable(db, plan, policy, clk)
    requires ReleasedAs(db, mid, plan.from, plan.slots, plan.why)
    ensures MayReserve(mid, plan.id, policy, clk)
    ensures CurrentlyReserved(mid, plan.id, policy, clk) == CurrentlyReserved(db, plan.id, policy, clk)
  {
    var slot := CurrentSlot(db, policy, clk);
    if HoldKey(plan.id, slot) in db.holds {
      assert mid.holds[HoldKey(plan.id, slot)].revision == db.holds[HoldKey(plan.id, slot)].revision;
    }
  }

  lemma RoomAfterReleases(db: Db, mid: Db, plan: Plan, policy: PolicyId, clk: Clock)
    requires Books(db) && policy in db.policies
    requires ReleasedAs(db, mid, plan.from, plan.slots, plan.why)
    ensures Available(mid, policy, clk) == Room(db, plan, policy, clk)
  {
    var slot := CurrentSlot(db, policy, clk);
    var hk := HoldKey(plan.from, slot);
    if hk in db.holds {
      assert HoldOk(db, hk);
    }
  }

  lemma BatchReserves(db: Db, mid: Db, plan: Plan, clk: Clock)
    requires Planned(db, plan, clk) && Known(mid, plan.policies) && mid.policies == db.policies
    requires ReleasedAs(db, mid, plan.from, plan.slots, plan.why)
    ensures forall p :: p in plan.policies ==> MayReserve(mid, plan.id, p, clk)
    ensures PlanReserves(mid, plan, clk) == PlanReserves(db, plan, clk)
    ensures Fits(mid, plan.id, plan.policies, plan.amount, plan.topUp, clk) <==> HasRoom(db, plan, clk)
  {
    hide Books, Reservable, ReleasedAs, MayReserve, Available, Room, CurrentlyReserved;
    forall p | p in plan.policies
      ensures MayReserve(mid, plan.id, p, clk)
      ensures CurrentlyReserved(mid, plan.id, p, clk) == CurrentlyReserved(db, plan.id, p, clk)
      ensures Available(mid, p, clk) == Room(db, plan, p, clk)
    {
      ReadyAfterReleases(db, mid, plan, p, clk);
      RoomAfterReleases(db, mid, plan, p, clk);
    }
    ReservesSame(db, mid, plan.id, plan.policies, plan.amount, plan.topUp, clk, plan.step, plan.command, plan.actor);
  }

  /** Releasing everything and then reserving everything: the only refusal is a shortfall. */
  lemma BatchOutcome(db: Db, plan: Plan, clk: Clock) returns (mid: Db)
    requires Planned(db, plan, clk)
    ensures ReleasedAs(db, mid, plan.from, plan.slots, plan.why)
    ensures var w := ApplyAll(db, PlanReleases(db, plan) + PlanReserves(db, plan, clk), clk);
            if HasRoom(db, plan, clk) then
              w.Success? && ReservedAs(mid, w.value, plan.id, plan.policies, plan.amount, plan.topUp, clk)
            else
              w == Failure(InsufficientCapacity)
  {
    hide ApplyEntry, Reservable, ReleasedAs, ReservedAs, HasRoom, Fits, MayReserve;
    mid := AfterReleases(db, plan, clk);
    SamePolicies(db, mid, plan);
    BatchReserves(db, mid, plan, clk);
    ApplyAllAppend(db, PlanReleases(db, plan), PlanReserves(db, plan, clk), clk);
    ReservesSucceed(mid, plan.id, plan.policies, plan.amount, plan.topUp, clk, plan.step, plan.command, plan.actor);
    if HasRoom(db, plan, clk) {
      ReservesEffect(mid, plan.id, plan.policies, plan.amount, plan.topUp, clk, plan.step, plan.command, plan.actor);
    }
  }

  lemma SamePolicies(db: Db, mid: Db, plan: Plan)
    requires ReleasedAs(db, mid, plan.from, plan.slots, plan.why)
    ensures mid.policies == db.policies
  {
  }

  // ----- The interleaved plan -----

  function SlotsFor(slots: seq<Slot>, policy: PolicyId): seq<Slot>
    decreases |slots|
  {
    if slots == [] then [] else (if slots[0].policy == policy then [slots[0]] else []) + SlotsFor(slots[1..], policy)
  }

  lemma {:induction false} SlotsForMembers(slots: seq<Slot>, policy: PolicyId)
    requires Distinct(slots)
    ensures forall slot :: slot in SlotsFor(slots, policy) <==> slot in slots && slot.policy == policy
    ensures Distinct(SlotsFor(slots, policy))
    decreases |slots|
  {
    if slots != [] {
      SlotsForMembers(slots[1..], policy);
      assert slots[0] !in slots[1..];
    }
  }

  lemma {:induction false} ReleasesForPolicy(db: Db, id: ResId, slots: seq<Slot>, why: Why, command: Id, actor: Id, policy: PolicyId)
    requires AllHeld(db, id, slots) && AllHeld(db, id, SlotsFor(slots, policy))
    ensures ForPolicy(Releases(db, id, slots, why, command, actor), policy)
         == Releases(db, id, SlotsFor(slots, policy), why, command, actor)
    decreases |slots|
  {
    if slots != [] {
      var slot, rest := slots[0], slots[1..];
      var head := if MustRelease(db, id, slot, why) then [ReleaseOf(db, id, slot, why, command, actor)] else [];
      var later := Releases(db, id, rest, why, command, actor);
      var mine := SlotsFor(rest, policy);
      assert forall s :: s in mine ==> s in SlotsFor(slots, policy);
      ReleasesForPolicy(db, id, rest, why, command, actor, policy);
      ForPolicyAppend(head, later, policy);
      if slot.policy == policy {
        assert ([slot] + mine)[1..] == mine;
        assert ForPolicy(head, policy) == head;
      } else {
        assert ForPolicy(head, policy) == [] && [] + mine == mine;
        assert [] + ForPolicy(later, policy) == ForPolicy(later, policy);
      }
    }
  }

  function Only(policies: seq<PolicyId>, policy: PolicyId): seq<PolicyId> {
    if policy in policies then [policy] else []
  }

  lemma {:induction false} ReservesForPolicy(db: Db, id: ResId, policies: seq<PolicyId>, amount: int, topUp: bool, clk: Clock,
                                             step: Step, command: Id, actor: Id, policy: PolicyId)
    requires Known(db, policies) && Distinct(policies)
    ensures ForPolicy(Reserves(db, id, policies, amount, topUp, clk, step, command, actor), policy)
         == Reserves(db, id, Only(policies, policy), amount, topUp, clk, step, command, actor)
    decreases |policies|
  {
    hide AmountToReserve;
    if policies != [] {
      var p, rest := policies[0], policies[1..];
      var wanted := AmountToReserve(db, id, p, amount, topUp, clk);
      var head := if topUp && wanted <= 0 then [] else [ReserveOf(db, id, p, wanted, step, command, actor)];
      var later := Reserves(db, id, rest, amount, topUp, clk, step, command, actor);
      ReservesForPolicy(db, id, rest, amount, topUp, clk, step, command, actor, policy);
      ForPolicyAppend(head, later, policy);
      assert p !in rest;
      if p == policy {
        assert ForPolicy(head, policy) == head;
        assert [p][1..] == [];
        assert head + [] == head;
      } else {
        assert ForPolicy(head, policy) == [];
        assert [] + ForPolicy(later, policy) == ForPolicy(later, policy);
      }
    }
  }

  /** The part of a plan that concerns one budget. */
  function Part(plan: Plan, policy: PolicyId): Plan {
    plan.(slots := SlotsFor(plan.slots, policy), policies := Only(plan.policies, policy))
  }

  lemma PartReservable(db: Db, plan: Plan, policy: PolicyId, clk: Clock)
    requires Distinct(plan.slots) && Reservable(db, plan, policy, clk)
    ensures Reservable(db, Part(plan, policy), policy, clk)
  {
    SlotsForMembers(plan.slots, policy);
  }

  lemma PartPlanned(db: Db, plan: Plan, policy: PolicyId, clk: Clock)
    requires Planned(db, plan, clk)
    ensures Planned(db, Part(plan, policy), clk)
  {
    hide Books, Reservable, MustRelease;
    SlotsForMembers(plan.slots, policy);
    if policy in plan.policies {
      PartReservable(db, plan, policy, clk);
    }
  }

  lemma PartEntries(db: Db, plan: Plan, policy: PolicyId, clk: Clock)
    requires Planned(db, plan, clk) && Planned(db, Part(plan, policy), clk)
    ensures ForPolicy(PlanReleases(db, plan) + PlanReserves(db, plan, clk), policy)
         == PlanReleases(db, Part(plan, policy)) + PlanReserves(db, Part(plan, policy), clk)
  {
    hide Books, Reservable, MustRelease;
    ReleasesForPolicy(db, plan.from, plan.slots, plan.why, plan.command, plan.actor, policy);
    ReservesForPolicy(db, plan.id, plan.policies, plan.amount, plan.topUp, clk, plan.step, plan.command, plan.actor, policy);
    ForPolicyAppend(PlanReleases(db, plan), PlanReserves(db, plan, clk), policy);
  }

  lemma PlanKeyed(db: Db, plan: Plan, clk: Clock)
    requires Planned(db, plan, clk)
    ensures WellKeyed(InPolicyOrder(PlanReleases(db, plan), PlanReserves(db, plan, clk)))
    ensures forall e :: e in InPolicyOrder(PlanReleases(db, plan), PlanReserves(db, plan, clk)) ==> e.key.command == plan.command
  {
    ReleasesShape(db, plan.from, plan.slots, plan.why, plan.command, plan.actor);
    ReservesShape(db, plan.id, plan.policies, plan.amount, plan.topUp, clk, plan.step, plan.command, plan.actor);
    InterleavingMembers(PlanReleases(db, plan), PlanReserves(db, plan, clk));
  }

  /**
   The interleaved loop succeeds exactly when every budget has room for the new
   amount once this command's own holds in it are returned. The only refusal is
   a shortfall of capacity.
   */
  lemma PlanOutcome(db: Db, plan: Plan, clk: Clock) returns (mid: Db)
    requires Planned(db, plan, clk)
    ensures ReleasedAs(db, mid, plan.from, plan.slots, plan.why)
    ensures var w := ApplyAll(db, InPolicyOrder(PlanReleases(db, plan), PlanReserves(db, plan, clk)), clk);
            if HasRoom(db, plan, clk) then
              && w.Success? && Books(w.value) && Appended(db, w.value, plan.command)
              && ReservedAs(mid, w.value, plan.id, plan.policies, plan.amount, plan.topUp, clk)
            else
              w == Failure(InsufficientCapacity)
  {
    hide ApplyEntry, ReleasedAs, ReservedAs, HasRoom, Books, Interleave, ApplyAll;
    var releases, reserves := PlanReleases(db, plan), PlanReserves(db, plan, clk);
    var es := InPolicyOrder(releases, reserves);
    mid := BatchOutcome(db, plan, clk);
    InterleavingIsBatching(db, releases, reserves, clk);
    PlanKeyed(db, plan, clk);
    if HasRoom(db, plan, clk) {
      BooksKeptAll(db, es, clk);
      AppliedAppends(db, es, plan.command, clk);
    } else {
      var policy := RefusalIsLocal(db, es, clk);
      InterleavingKeeps(releases, reserves, policy);
      PartPlanned(db, plan, policy, clk);
      PartEntries(db, plan, policy, clk);
      var part := BatchOutcome(db, Part(plan, policy), clk);
    }
  }
}
