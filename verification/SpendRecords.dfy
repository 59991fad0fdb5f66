/** What every applied reservation command leaves: its ledger entries, and the rows besides balances and holds. */
module SpendRecords {
  import opened Wrappers
  import opened SpendTypes
  import opened SpendLedger
  import opened SpendCommands
  import opened SpendBooks
  import opened SpendEffects
  import opened SpendPlans
  import opened SpendInvariants
  import opened SpendKeeps
  import opened SpendKeepsMore
  import opened SpendWrites
  import opened SpendTrigger
  import opened SpendAnswers

  // ----- Entries, column by column -----

  /** An entry for a budget's current period, at its revision. */
  predicate ForNow(db: Db, e: Entry, kind: EntryKind, id: ResId, amount: int, step: Step, command: Id, actor: Id, clk: Clock) {
    && e.policy in db.policies
    && e == Entry(kind := kind, reservation := id, policy := e.policy, revision := db.policies[e.policy].revision,
                  period := Some(StartsAt(db.policies[e.policy], clk)), amount := amount,
                  key := EntryKey(command, e.policy, step), actor := actor)
  }

  /** The hold whose return an entry records. */
  function HoldOf(id: ResId, e: Entry): HoldKey
    requires e.period.Some?
  {
    HoldKey(id, Slot(e.policy, e.period.value))
  }

  /** The return of a whole live hold, in its own period and at its own revision. */
  predicate GivesBack(db: Db, e: Entry, id: ResId, reason: Reason, command: Id, actor: Id) {
    && e.period.Some? && HoldOf(id, e) in db.holds && db.holds[HoldOf(id, e)].reserved != 0
    && e == Entry(kind := ReleaseEntry(reason), reservation := id, policy := e.policy, revision := db.holds[HoldOf(id, e)].revision,
                  period := e.period, amount := db.holds[HoldOf(id, e)].reserved,
                  key := EntryKey(command, e.policy, ReleaseStep(id, e.period.value)), actor := actor)
  }

  /** A period went by for a budget that still binds at the hold's revision; otherwise the budget was revised or dropped. */
  function StaleReason(db: Db, id: ResId, e: Entry, now: Instant): Reason
    requires id in db.reservations && e.period.Some? && HoldOf(id, e) in db.holds
  {
    if BindsIn(db, e.policy, db.reservations[id], now) && db.policies[e.policy].revision == db.holds[HoldOf(id, e)].revision then
      PeriodRollover
    else
      PolicyRevised
  }

  /** The entries of each command. */
  predicate Records(db: Db, cmd: Command, e: Entry, clk: Clock) {
    match cmd
    case Submit(s) =>
      BindsIn(db, e.policy, Placed(s, None), clk.now)
      && ForNow(db, e, ReserveEntry, ResId(s.organisation, s.key), s.amount, SubmitStep, s.key, s.actor, clk)
    case Resubmit(s, prior) =>
      prior in db.reservations &&
      (GivesBack(db, e, prior, if s.amount < db.reservations[prior].amount then AmountReduced else Cancelled, s.key, s.actor)
       || (BindsIn(db, e.policy, Placed(s, Some(prior)), clk.now)
           && ForNow(db, e, ReserveEntry, ResId(s.organisation, s.key), s.amount, ResubmitStep, s.key, s.actor, clk)))
    case Commit(key, _, id, actor, _, _, _, _, reference, _) =>
      id in db.reservations && BindsIn(db, e.policy, db.reservations[id], clk.now)
      && ForNow(db, e, CommitEntry(reference), id, db.reservations[id].amount, CommitStep, key, actor, clk)
    case Release(key, _, id, actor, reason) => GivesBack(db, e, id, reason, key, actor)
    case Expire(key, _, id, actor) => GivesBack(db, e, id, ExpiredHold, key, actor)
    case Rollover(key, _, id, actor) =>
      id in db.reservations &&
      ((e.period.Some? && StaleHold(db, id, HoldOf(id, e), clk) && GivesBack(db, e, id, StaleReason(db, id, e, clk.now), key, actor))
       || (BindsIn(db, e.policy, db.reservations[id], clk.now) && !HeldInFull(db, id, e.policy, clk)
           && ForNow(db, e, ReserveEntry, id, db.reservations[id].amount, RolloverStep, key, actor, clk)))
  }

  // ----- From written entries to ledger entries -----

  /** The entry as the trigger completes it. */
  function Dated(db: Db, e: Entry, clk: Clock): Entry
    requires e.policy in db.policies
  {
    e.(period := Some(RowFor(db, e, clk).period))
  }

  /** b is a with exactly these entries. */
  ghost predicate Grew(db: Db, db1: Db, es: seq<Entry>, clk: Clock) {
    && (forall k :: k in db.entries ==> k in db1.entries && db1.entries[k] == db.entries[k])
    && (forall e :: e in es ==>
          e.policy in db.policies && e.key !in db.entries && e.key in db1.entries && db1.entries[e.key] == Dated(db, e, clk))
    && (forall k :: k in db1.entries && k !in db.entries ==> exists e :: e in es && e.key == k)
  }

  lemma EntryGrew(db: Db, e: Entry, clk: Clock)
    requires ApplyEntry(db, e, clk).Success?
    ensures e.policy in db.policies && e.key !in db.entries
    ensures ApplyEntry(db, e, clk).value.entries == db.entries[e.key := Dated(db, e, clk)]
    ensures ApplyEntry(db, e, clk).value.policies == db.policies
  {
  }

  lemma {:induction false} EntriesGrew(db: Db, es: seq<Entry>, clk: Clock)
    requires ApplyAll(db, es, clk).Success?
    ensures Grew(db, ApplyAll(db, es, clk).value, es, clk)
    decreases |es|
  {
    hide ApplyEntry;
    if es != [] {
      var db1, end := ApplyEntry(db, es[0], clk).value, ApplyAll(db, es, clk).value;
      EntryGrew(db, es[0], clk);
      EntriesGrew(db1, es[1..], clk);
      forall e | e in es
        ensures e.policy in db.policies && e.key !in db.entries && e.key in end.entries && end.entries[e.key] == Dated(db, e, clk)
      {
        assert e == es[0] || e in es[1..];
      }
      forall k | k in end.entries && k !in db.entries ensures exists e :: e in es && e.key == k {
        if k == es[0].key {
          assert es[0] in es;
        } else {
          var e :| e in es[1..] && e.key == k;
          assert e in es;
        }
      }
    }
  }

  lemma InterleavesBoth(releases: seq<Entry>, reserves: seq<Entry>)
    ensures forall e :: e in InPolicyOrder(releases, reserves) <==> e in releases || e in reserves
  {
    var es := InPolicyOrder(releases, reserves);
    forall e ensures e in es <==> e in releases || e in reserves {
      ForPolicyIn(es, e.policy);
      ForPolicyIn(releases + reserves, e.policy);
      InterleavingKeeps(releases, reserves, e.policy);
    }
  }

  lemma {:induction false} ReleasesAre(db: Db, id: ResId, slots: seq<Slot>, why: Why, command: Id, actor: Id)
    requires AllHeld(db, id, slots)
    ensures forall e :: e in Releases(db, id, slots, why, command, actor) <==>
              e.period.Some? && Slot(e.policy, e.period.value) in slots && MustRelease(db, id, Slot(e.policy, e.period.value), why)
              && e == ReleaseOf(db, id, Slot(e.policy, e.period.value), why, command, actor)
    decreases |slots|
  {
    hide MustRelease;
    if slots != [] {
      ReleasesAre(db, id, slots[1..], why, command, actor);
      assert forall slot :: slot in slots <==> slot == slots[0] || slot in slots[1..];
    }
  }

  lemma {:induction false} ReservesAre(db: Db, id: ResId, policies: seq<PolicyId>, amount: int, topUp: bool, clk: Clock,
                                       step: Step, command: Id, actor: Id)
    requires Known(db, policies)
    ensures forall e :: e in Reserves(db, id, policies, amount, topUp, clk, step, command, actor) <==>
              e.policy in policies && (topUp ==> AmountToReserve(db, id, e.policy, amount, topUp, clk) > 0)
              && e == ReserveOf(db, id, e.policy, AmountToReserve(db, id, e.policy, amount, topUp, clk), step, command, actor)
    decreases |policies|
  {
    hide AmountToReserve;
    if policies != [] {
      ReservesAre(db, id, policies[1..], amount, topUp, clk, step, command, actor);
      assert forall p :: p in policies <==> p == policies[0] || p in policies[1..];
    }
  }

  lemma {:induction false} CommitsAre(db: Db, id: ResId, policies: seq<PolicyId>, amount: int, reference: Id, command: Id, actor: Id)
    requires Known(db, policies)
    ensures forall e :: e in Commits(db, id, policies, amount, reference, command, actor) <==>
              e.policy in policies && e == CommitOf(db, id, e.policy, amount, reference, command, actor)
    decreases |policies|
  {
    if policies != [] {
      CommitsAre(db, id, policies[1..], amount, reference, command, actor);
      assert forall p :: p in policies <==> p == policies[0] || p in policies[1..];
    }
  }

  // ----- The entries of each command -----

  /** The planned entries, once dated, are the command's. */
  ghost predicate Matches(db: Db, cmd: Command, es: seq<Entry>, clk: Clock) {
    && (forall e :: e in es ==> e.policy in db.policies && Records(db, cmd, Dated(db, e, clk), clk))
    && (forall x :: Records(db, cmd, x, clk) ==> exists e :: e in es && e.policy in db.policies && Dated(db, e, clk) == x)
  }

  /** The budgets of a purchase, as the command lists them. */
  lemma BoundAre(db: Db, base: Db, id: ResId, clk: Clock)
    requires base.policies == db.policies && id in base.reservations
    requires ApplicablePolicies(base, base.reservations[id], clk.now).Success?
    ensures forall p :: p in Bound(base, id, clk) <==> BindsIn(db, p, base.reservations[id], clk.now)
  {
    hide ApplicablePolicies, Binds;
    BudgetsRead(base, base.reservations[id], clk.now);
    forall p ensures BindsIn(base, p, base.reservations[id], clk.now) <==> BindsIn(db, p, base.reservations[id], clk.now) {}
  }

  /** An entry before its period is filled in. */
  function Undated(e: Entry): Entry {
    e.(period := None)
  }

  lemma ReservesMatch(db: Db, base: Db, id: ResId, amount: int, step: Step, command: Id, actor: Id, clk: Clock)
    requires base.policies == db.policies && id in base.reservations
    requires ApplicablePolicies(base, base.reservations[id], clk.now).Success?
    ensures forall e :: e in Reserves(base, id, Bound(base, id, clk), amount, false, clk, step, command, actor) ==>
              && BindsIn(db, e.policy, base.reservations[id], clk.now)
              && ForNow(db, Dated(db, e, clk), ReserveEntry, id, amount, step, command, actor, clk)
    ensures forall x: Entry :: BindsIn(db, x.policy, base.reservations[id], clk.now) && ForNow(db, x, ReserveEntry, id, amount, step, command, actor, clk) ==>
              && Undated(x) in Reserves(base, id, Bound(base, id, clk), amount, false, clk, step, command, actor)
              && Dated(db, Undated(x), clk) == x
  {
    hide Binds, ApplicablePolicies;
    BoundAre(db, base, id, clk);
    ReservesAre(base, id, Bound(base, id, clk), amount, false, clk, step, command, actor);
  }

  lemma ReturnsMatch(db: Db, id: ResId, reason: Reason, command: Id, actor: Id, clk: Clock)
    ensures forall e :: e in AllReleases(db, id, AllHolds(reason), command, actor) <==> GivesBack(db, e, id, reason, command, actor)
    ensures forall e: Entry :: e.policy in db.policies && GivesBack(db, e, id, reason, command, actor) ==> Dated(db, e, clk) == e
  {
    hide HeldSlots;
    HeldListing(db, id);
    ReleasesAre(db, id, HeldSlots(db, id), AllHolds(reason), command, actor);
  }

  lemma SubmitEntries(db: Db, s: Submission, clk: Clock)
    requires ApplicablePolicies(Base(db, Submit(s)), NewReservation(s, None), clk.now).Success?
    ensures Matches(db, Submit(s), Writes(db, Submit(s), clk), clk)
  {
    hide Binds, ApplicablePolicies, Reserves, InPolicyOrder, ForNow, RowFor;
    var base, id := Base(db, Submit(s)), ResId(s.organisation, s.key);
    ReservesMatch(db, base, id, s.amount, SubmitStep, s.key, s.actor, clk);
    InterleavesBoth([], NewReserves(base, s, SubmitStep, clk));
    assert base.reservations[id] == Placed(s, None);
    forall x | Records(db, Submit(s), x, clk) ensures Undated(x) in Writes(db, Submit(s), clk) && Dated(db, Undated(x), clk) == x {}
  }

  lemma ResubmitEntries(db: Db, s: Submission, prior: ResId, clk: Clock)
    requires prior in db.reservations
    requires ApplicablePolicies(Replaced(db, s, prior), NewReservation(s, Some(prior)), clk.now).Success?
    requires forall hk :: hk in db.holds ==> hk.slot.policy in db.policies
    ensures Matches(db, Resubmit(s, prior), Writes(db, Resubmit(s, prior), clk), clk)
  {
    hide Binds, ApplicablePolicies, Reserves, InPolicyOrder, ForNow, RowFor, GivesBack, AllReleases;
    var base, id := Base(db, Resubmit(s, prior)), ResId(s.organisation, s.key);
    ReservesMatch(db, base, id, s.amount, ResubmitStep, s.key, s.actor, clk);
    ReturnsMatch(db, prior, ResubmitReason(db, s, prior), s.key, s.actor, clk);
    GivesBackKnown(db, prior, ResubmitReason(db, s, prior), s.key, s.actor);
    InterleavesBoth(AllReleases(db, prior, AllHolds(ResubmitReason(db, s, prior)), s.key, s.actor), NewReserves(base, s, ResubmitStep, clk));
    assert base.reservations[id] == Placed(s, Some(prior));
    forall x | Records(db, Resubmit(s, prior), x, clk)
      ensures exists e :: e in Writes(db, Resubmit(s, prior), clk) && e.policy in db.policies && Dated(db, e, clk) == x
    {
      if GivesBack(db, x, prior, ResubmitReason(db, s, prior), s.key, s.actor) {
        assert x in Writes(db, Resubmit(s, prior), clk);
      } else {
        assert Undated(x) in Writes(db, Resubmit(s, prior), clk);
      }
    }
  }

  lemma GivesBackKnown(db: Db, id: ResId, reason: Reason, command: Id, actor: Id)
    requires forall hk :: hk in db.holds ==> hk.slot.policy in db.policies
    ensures forall e: Entry :: GivesBack(db, e, id, reason, command, actor) ==> e.policy in db.policies
  {
    forall e: Entry | GivesBack(db, e, id, reason, command, actor) ensures e.policy in db.policies {
      assert HoldOf(id, e).slot.policy == e.policy;
    }
  }

  lemma CloseEntries(db: Db, cmd: Command, clk: Clock)
    requires cmd.Release? || cmd.Expire?
    requires forall hk :: hk in db.holds ==> hk.slot.policy in db.policies
    ensures Matches(db, cmd, Writes(db, cmd, clk), clk)
  {
    hide InPolicyOrder, GivesBack, AllReleases;
    var reason := if cmd.Release? then cmd.reason else ExpiredHold;
    ReturnsMatch(db, cmd.reservation, reason, cmd.key, cmd.actor, clk);
    GivesBackKnown(db, cmd.reservation, reason, cmd.key, cmd.actor);
    InterleavesBoth(AllReleases(db, cmd.reservation, AllHolds(reason), cmd.key, cmd.actor), []);
  }

  lemma CommitEntries(db: Db, cmd: Command, clk: Clock)
    requires cmd.Commit? && cmd.reservation in db.reservations
    requires ApplicablePolicies(db, db.reservations[cmd.reservation], clk.now).Success?
    ensures Matches(db, cmd, Writes(db, cmd, clk), clk)
  {
    hide Binds, ApplicablePolicies;
    var id := cmd.reservation;
    BoundAre(db, db, id, clk);
    CommitsAre(db, id, Bound(db, id, clk), db.reservations[id].amount, cmd.reference, cmd.key, cmd.actor);
    forall x | Records(db, cmd, x, clk) ensures Undated(x) in Writes(db, cmd, clk) && Dated(db, Undated(x), clk) == x {}
  }

  /** A rollover's releases are the stale holds, and its reserves the whole amount where it is not held. */
  lemma RolloverLists(db: Db, roll: Command, clk: Clock)
    requires roll.Rollover? && roll.reservation in db.reservations && Settled(db, roll.reservation)
    requires ApplicablePolicies(db, db.reservations[roll.reservation], clk.now).Success?
    ensures var id := roll.reservation;
            forall e :: e in Planning(db, roll, clk).0 <==>
              e.period.Some? && StaleHold(db, id, HoldOf(id, e), clk)
              && GivesBack(db, e, id, StaleReason(db, id, e, clk.now), roll.key, roll.actor)
    ensures var id := roll.reservation;
            forall e :: e in Planning(db, roll, clk).1 <==>
              BindsIn(db, e.policy, db.reservations[id], clk.now) && !HeldInFull(db, id, e.policy, clk)
              && e == ReserveOf(db, id, e.policy, db.reservations[id].amount, RolloverStep, roll.key, roll.actor)
  {
    hide Binds, ApplicablePolicies, HeldSlots;
    var id := roll.reservation;
    var policies := Bound(db, id, clk);
    BoundAre(db, db, id, clk);
    HeldListing(db, id);
    ReleasesAre(db, id, HeldSlots(db, id), StaleHolds(policies, clk), roll.key, roll.actor);
    ReservesAre(db, id, policies, db.reservations[id].amount, true, clk, RolloverStep, roll.key, roll.actor);
    forall p | p in policies
      ensures HeldInFull(db, id, p, clk) <==> AmountToReserve(db, id, p, db.reservations[id].amount, true, clk) <= 0
      ensures !HeldInFull(db, id, p, clk) ==>
        AmountToReserve(db, id, p, db.reservations[id].amount, true, clk) == db.reservations[id].amount
    {
      assert BindsIn(db, p, db.reservations[id], clk.now) && SettledHold(db, id, CurrentSlot(db, p, clk));
    }
  }

  lemma RolloverEntries(db: Db, roll: Command, clk: Clock)
    requires roll.Rollover? && roll.reservation in db.reservations && Settled(db, roll.reservation)
    requires ApplicablePolicies(db, db.reservations[roll.reservation], clk.now).Success?
    requires forall hk :: hk in db.holds ==> hk.slot.policy in db.policies
    ensures Matches(db, roll, Writes(db, roll, clk), clk)
  {
    hide Binds, ApplicablePolicies, Planning, InPolicyOrder, HeldInFull, StaleHold, Settled;
    RolloverLists(db, roll, clk);
    InterleavesBoth(Planning(db, roll, clk).0, Planning(db, roll, clk).1);
    forall x | Records(db, roll, x, clk)
      ensures exists e :: e in Writes(db, roll, clk) && e.policy in db.policies && Dated(db, e, clk) == x
    {
      if x.kind.ReleaseEntry? {
        assert x in Writes(db, roll, clk) && HoldOf(roll.reservation, x).slot.policy == x.policy;
      } else {
        assert Undated(x) in Writes(db, roll, clk);
      }
    }
    forall e | e in Writes(db, roll, clk) ensures e.policy in db.policies && Records(db, roll, Dated(db, e, clk), clk) {
      assert e.kind.ReleaseEntry? ==> HoldOf(roll.reservation, e).slot.policy == e.policy && Dated(db, e, clk) == e;
    }
  }

  lemma HeldBudgetsKnown(db: Db)
    requires Books(db)
    ensures forall hk :: hk in db.holds ==> hk.slot.policy in db.policies
  {
    forall hk | hk in db.holds ensures hk.slot.policy in db.policies {
      assert HoldOk(db, hk);
    }
  }

  lemma EveryMatches(db: Db, cmd: Command, clk: Clock)
    requires Inv(db) && Proceeds(db, cmd, clk)
    ensures Matches(db, cmd, Writes(db, cmd, clk), clk)
  {
    hide Books, Matches, Settled, OneActive, Lineage, PolicyOk, ApplicablePolicies, Writes, IsMember, Collides, LaterVersion, ReadyToCommit;
    HeldBudgetsKnown(db);
    match cmd
    case Submit(s) => SubmitEntries(db, s, clk);
    case Resubmit(s, prior) => ResubmitEntries(db, s, prior, clk);
    case Commit(_, _, _, _, _, _, _, _, _, _) => CommitEntries(db, cmd, clk);
    case Release(_, _, _, _, _) => CloseEntries(db, cmd, clk);
    case Expire(_, _, _, _) => CloseEntries(db, cmd, clk);
    case Rollover(_, _, _, _) => RolloverEntries(db, cmd, clk);
  }

  /** The ledger grew by the command's entries and no others. */
  ghost predicate LedgerGrew(db: Db, db1: Db, cmd: Command, clk: Clock) {
    && (forall k :: k in db.entries ==> k in db1.entries && db1.entries[k] == db.entries[k])
    && (forall e :: Records(db, cmd, e, clk) ==> e.key !in db.entries && e.key in db1.entries && db1.entries[e.key] == e)
    && (forall k :: k in db1.entries && k !in db.entries ==> Records(db, cmd, db1.entries[k], clk))
  }

  lemma GrewByRecords(db: Db, base: Db, db1: Db, cmd: Command, es: seq<Entry>, clk: Clock)
    requires Matches(db, cmd, es, clk) && Grew(base, db1, es, clk) && base.policies == db.policies && base.entries == db.entries
    ensures LedgerGrew(db, db1, cmd, clk)
  {
    hide Records;
    forall x | Records(db, cmd, x, clk) ensures x.key !in db.entries && x.key in db1.entries && db1.entries[x.key] == x {
      var e :| e in es && e.policy in db.policies && Dated(db, e, clk) == x;
      assert e.key == x.key && Dated(base, e, clk) == Dated(db, e, clk);
    }
    forall k | k in db1.entries && k !in db.entries ensures Records(db, cmd, db1.entries[k], clk) {
      var e :| e in es && e.key == k;
      assert Dated(base, e, clk) == Dated(db, e, clk);
    }
  }

  /** In every reachable state, an applied command writes exactly its entries, each with these columns. */
  lemma EveryEntry(db: Db, cmd: Command, clk: Clock)
    requires Inv(db) && Run(db, cmd, clk).1.AppliedNow?
    ensures LedgerGrew(db, Run(db, cmd, clk).0, cmd, clk)
  {
    hide Inv, Execute, Writes, ApplyAll, Proceeds, Base, LedgerGrew, Matches, Grew, ArgumentsOk;
    GuardsDecide(db, cmd, clk);
    WritesAreWritten(db, cmd, clk);
    EveryMatches(db, cmd, clk);
    var base := Base(db, cmd);
    EntriesGrew(base, Writes(db, cmd, clk), clk);
    BaseKeeps(db, cmd);
    var end := ApplyAll(base, Writes(db, cmd, clk), clk).value;
    GrewByRecords(db, base, end, cmd, Writes(db, cmd, clk), clk);
    SameEntries(db, end, Run(db, cmd, clk).0, cmd, clk);
  }

  lemma SameEntries(db: Db, a: Db, b: Db, cmd: Command, clk: Clock)
    requires LedgerGrew(db, a, cmd, clk) && b.entries == a.entries
    ensures LedgerGrew(db, b, cmd, clk)
  {
    hide Records;
  }

  lemma BaseKeeps(db: Db, cmd: Command)
    ensures Base(db, cmd).policies == db.policies && Base(db, cmd).entries == db.entries
  {
  }

  // ----- The other rows -----

  /** An applied command closes, places or revises just its own reservations, and adds its one record. */
  lemma EveryRow(db: Db, cmd: Command, clk: Clock)
    requires Run(db, cmd, clk).1.AppliedNow?
    ensures var (db1, answer) := Run(db, cmd, clk);
            && db1.policies == db.policies && db1.members == db.members
            && db1.commands == db.commands[cmd.IdempotencyKey() := CommandRecord(cmd, answer.result)]
            && db1.mutations == (if cmd.Commit? && cmd.withMutation then db.mutations + [cmd.key] else db.mutations)
            && match cmd
               case Submit(s) =>
                 db1.reservations == db.reservations[ResId(s.organisation, s.key) := Placed(s, None)]
               case Resubmit(s, prior) =>
                 && prior in db.reservations
                 && db1.reservations == db.reservations[prior := db.reservations[prior].(status := Released)]
                                                       [ResId(s.organisation, s.key) := Placed(s, Some(prior))]
               case Commit(_, _, id, _, _, _, _, _, _, _) =>
                 id in db.reservations && db1.reservations == db.reservations[id := db.reservations[id].(status := Committed)]
               case Release(_, _, id, _, _) =>
                 id in db.reservations && db1.reservations == db.reservations[id := db.reservations[id].(status := Released)]
               case Expire(_, _, id, _) =>
                 id in db.reservations && db1.reservations == db.reservations[id := db.reservations[id].(status := Expired)]
               case Rollover(_, _, id, _) =>
                 && id in db.reservations
                 && db1.reservations == db.reservations[id := db.reservations[id].(holdRevision := answer.result.holdRevision)]
  {
    hide ApplicablePolicies, WriteAll, Commits, ReadyToCommit, Releases, Reserves, HeldSlots, InPolicyOrder, IsMember, Collides, LaterVersion,
         ArgumentsOk;
    if cmd.Resubmit? {
      HeldListing(db, cmd.supersedes);
    }
  }
}
