/** The rows a command locks, in what order, and when concurrent commands cannot deadlock. */
module SpendLocks {
  import opened Wrappers
  import opened Text
  import opened Sorting
  import opened LockOrder
  import opened SpendTypes
  import opened SpendLedger
  import opened SpendCommands
  import opened SpendPlans
  import opened SpendEffects
  import opened SpendOutcome
  import opened SpendKeeps
  import opened SpendKeepsMore
  import opened SpendWrites

  // ----- The rows those entries lock -----

  predicate PolicyBefore(a: PolicyId, b: PolicyId) {
    Leq(a, b) && a != b
  }

  predicate SlotBefore(a: Slot, b: Slot) {
    SlotLeq(a, b) && a != b
  }

  lemma OrdersAreStrict()
    ensures StrictOrder(PolicyBefore) && StrictOrder(SlotBefore)
  {
    PolicyIdsAreOrdered();
    SlotsAreOrdered();
    forall x: PolicyId, y: PolicyId, z: PolicyId | PolicyBefore(x, y) && PolicyBefore(y, z) ensures PolicyBefore(x, z) {
      assert Leq(x, z);
    }
    forall x: Slot, y: Slot, z: Slot | SlotBefore(x, y) && SlotBefore(y, z) ensures SlotBefore(x, z) {
      assert SlotLeq(x, z) && (x == z ==> SlotLeq(y, x));
    }
  }

  /** The balance row an entry locks: the period it names, or the budget's current one. */
  function RowOf(db: Db, e: Entry, clk: Clock): Slot {
    if e.period.Some? then Slot(e.policy, e.period.value)
    else if e.policy in db.policies then CurrentSlot(db, e.policy, clk)
    else Slot(e.policy, 0)
  }

  function RowsOf(db: Db, es: seq<Entry>, clk: Clock): (rows: seq<Slot>)
    ensures |rows| == |es| && forall i :: 0 <= i < |es| ==> rows[i] == RowOf(db, es[i], clk)
    decreases |es|
  {
    if es == [] then [] else [RowOf(db, es[0], clk)] + RowsOf(db, es[1..], clk)
  }

  function BudgetsIn(es: seq<Entry>): (ids: seq<PolicyId>)
    ensures |ids| == |es| && forall i :: 0 <= i < |es| ==> ids[i] == es[i].policy
    decreases |es|
  {
    if es == [] then [] else [es[0].policy] + BudgetsIn(es[1..])
  }

  /** An entry that the trigger accepts moves exactly that balance. */
  lemma EntryLocksItsRow(db: Db, e: Entry, clk: Clock, slot: Slot)
    requires ApplyEntry(db, e, clk).Success? && (e.kind.ReleaseEntry? || e.period.None?)
    ensures ReachesRow(db, e, clk)
    ensures slot != RowOf(db, e, clk) ==> SameBalance(db, ApplyEntry(db, e, clk).value, slot)
  {
    assert Judge(db, e, clk).value.slot == RowOf(db, e, clk);
  }

  predicate SameBalance(a: Db, b: Db, slot: Slot) {
    (slot in a.balances <==> slot in b.balances) && (slot in a.balances ==> a.balances[slot] == b.balances[slot])
  }

  lemma {:induction false} EntriesLockTheirRows(db: Db, es: seq<Entry>, clk: Clock, slot: Slot)
    requires ApplyAll(db, es, clk).Success? && forall e :: e in es ==> (e.kind.ReleaseEntry? || e.period.None?) && RowOf(db, e, clk) != slot
    ensures SameBalance(db, ApplyAll(db, es, clk).value, slot)
    decreases |es|
  {
    hide ApplyEntry;
    if es != [] {
      assert es[0] in es;
      EntryLocksItsRow(db, es[0], clk, slot);
      EntriesLockTheirRows(ApplyEntry(db, es[0], clk).value, es[1..], clk, slot);
    }
  }

  // ----- One global order of budgets -----

  lemma BudgetThenLater(mine: seq<Entry>, later: seq<Entry>, id: PolicyId)
    requires forall e :: e in mine ==> e.policy == id
    requires forall e :: e in later ==> PolicyBefore(id, e.policy)
    requires InLockOrder(BudgetsIn(later), PolicyBefore)
    ensures InLockOrder(BudgetsIn(mine + later), PolicyBefore)
  {
    hide PolicyBefore;
    var all := BudgetsIn(mine + later);
    forall i, j | 0 <= i < j < |all| ensures all[i] == all[j] || PolicyBefore(all[i], all[j]) {
      if i < |mine| {
        assert mine[i] in mine;
        if j < |mine| {
          assert mine[j] in mine;
        } else {
          assert later[j - |mine|] in later;
        }
      } else {
        assert all[i] == BudgetsIn(later)[i - |mine|] && all[j] == BudgetsIn(later)[j - |mine|];
      }
    }
  }

  lemma {:induction false} InterleavedBudgets(ids: seq<PolicyId>, releases: seq<Entry>, reserves: seq<Entry>)
    requires Ascending(ids, Leq)
    ensures InLockOrder(BudgetsIn(Interleave(ids, releases, reserves)), PolicyBefore)
    ensures forall e :: e in Interleave(ids, releases, reserves) ==> e.policy in ids
    decreases |ids|
  {
    hide ForPolicy, BudgetsIn, InLockOrder;
    if ids == [] {
      NoBudgets();
    } else {
      var id, rest := ids[0], ids[1..];
      var mine, later := ForPolicy(releases, id) + ForPolicy(reserves, id), Interleave(rest, releases, reserves);
      InterleavedBudgets(rest, releases, reserves);
      ForPolicyIn(releases, id);
      ForPolicyIn(reserves, id);
      forall e | e in later ensures PolicyBefore(id, e.policy) {
        var k :| 0 <= k < |rest| && rest[k] == e.policy;
        assert Leq(ids[0], ids[k + 1]) && ids[0] != ids[k + 1];
      }
      BudgetThenLater(mine, later, id);
    }
  }

  lemma NoBudgets()
    ensures InLockOrder(BudgetsIn([]), PolicyBefore)
  {
  }

  lemma {:induction false} CommittedBudgets(db: Db, id: ResId, policies: seq<PolicyId>, amount: int, reference: Id, key: Id, actor: Id)
    requires Known(db, policies)
    ensures BudgetsIn(Commits(db, id, policies, amount, reference, key, actor)) == policies
    ensures forall e :: e in Commits(db, id, policies, amount, reference, key, actor) ==> e.kind.CommitEntry? && e.period.None?
    decreases |policies|
  {
    if policies != [] {
      CommittedBudgets(db, id, policies[1..], amount, reference, key, actor);
    }
  }

  /** Every command writes its ledger entries in the one global order of budgets. */
  lemma BudgetsInOrder(db: Db, cmd: Command, clk: Clock)
    ensures InLockOrder(BudgetsIn(Writes(db, cmd, clk)), PolicyBefore)
  {
    hide Reserves, Releases, HeldSlots, InOrder;
    var (releases, reserves) := Planning(db, cmd, clk);
    if cmd.Commit? {
      if cmd.reservation in db.reservations {
        var policies := Bound(db, cmd.reservation, clk);
        CommittedBudgets(db, cmd.reservation, policies, db.reservations[cmd.reservation].amount, cmd.reference, cmd.key, cmd.actor);
      }
    } else {
      InterleavedBudgets(InOrder(BudgetsOf(releases) + BudgetsOf(reserves)), releases, reserves);
    }
  }

  // ----- Row locks -----

  /** A command takes its key first, then at most one reservation that was already there, then balance rows. */
  datatype Lock = KeyLock(key: Id) | ReservationLock(id: ResId) | BalanceLock(slot: Slot)

  predicate LockBefore(a: Lock, b: Lock) {
    match (a, b)
    case (KeyLock(_), KeyLock(_)) => false
    case (KeyLock(_), _) => true
    case (ReservationLock(_), BalanceLock(_)) => true
    case (BalanceLock(x), BalanceLock(y)) => SlotBefore(x, y)
    case _ => false
  }

  function Locked(db: Db, cmd: Command, clk: Clock): seq<Lock> {
    if Started(db, cmd, clk) && Finds(db, cmd) then [ReservationLock(Renewed(cmd).value)] else []
  }

  function BalanceLocks(rows: seq<Slot>): (locks: seq<Lock>)
    ensures |locks| == |rows| && forall i :: 0 <= i < |rows| ==> locks[i] == BalanceLock(rows[i])
    decreases |rows|
  {
    if rows == [] then [] else [BalanceLock(rows[0])] + BalanceLocks(rows[1..])
  }

  /** The balance rows a command asks for, in their order. */
  function RowsAsked(db: Db, cmd: Command, clk: Clock): seq<Slot> {
    RowsOf(db, AskedFor(db, cmd, clk), clk)
  }

  /**
   The locks a command asks for, whatever becomes of it: none if its arguments are malformed,
   its key, the earlier reservation if it is found, and the rows of its entries up to a refusal.
   */
  function LocksOf(db: Db, cmd: Command, clk: Clock): seq<Lock> {
    if !ArgumentsOk(cmd, clk.now) then [] else [KeyLock(cmd.IdempotencyKey())] + Locked(db, cmd, clk) + BalanceLocks(RowsAsked(db, cmd, clk))
  }

  /** The command returns holds and reserves again, in this budget because it binds and lacks the full amount. */
  predicate ReservesAgain(db: Db, cmd: Command, policy: PolicyId, clk: Clock) {
    match cmd
    case Resubmit(s, prior) => prior in db.reservations && policy in Bound(Base(db, cmd), ResId(s.organisation, s.key), clk)
    case Rollover(_, _, id, _) =>
      id in db.reservations && policy in Bound(db, id, clk) && CurrentlyReserved(db, id, policy, clk) < db.reservations[id].amount
    case _ => false
  }

  predicate LiveHold(db: Db, id: ResId, slot: Slot) {
    HoldKey(id, slot) in db.holds && db.holds[HoldKey(id, slot)].reserved != 0
  }

  /** A live hold of the replaced or renewed reservation moves from this period to the budget's current one. */
  predicate MovesHold(db: Db, cmd: Command, slot: Slot, clk: Clock) {
    && Renewed(cmd).Some? && LiveHold(db, Renewed(cmd).value, slot) && ReservesAgain(db, cmd, slot.policy, clk)
    && slot.policy in db.policies && slot != CurrentSlot(db, slot.policy, clk)
  }

  /** It moves back from a later period. */
  predicate LaterHold(db: Db, cmd: Command, slot: Slot, clk: Clock) {
    MovesHold(db, cmd, slot, clk) && CurrentSlot(db, slot.policy, clk).period < slot.period
  }

  /** The command comes to ask for the current row of the budget. */
  predicate AsksNow(db: Db, cmd: Command, policy: PolicyId, clk: Clock) {
    exists e :: e in AskedFor(db, cmd, clk) && e.policy == policy && e.period.None?
  }

  ghost predicate NoLaterHold(db: Db, cmd: Command, clk: Clock) {
    forall slot: Slot :: LaterHold(db, cmd, slot, clk) ==> !AsksNow(db, cmd, slot.policy, clk)
  }

  /** The rows of these entries are asked for in order. */
  ghost predicate InRowOrder(db: Db, es: seq<Entry>, clk: Clock) {
    forall i, j :: 0 <= i < j < |es| ==> RowNotAfter(db, es[i], es[j], clk)
  }

  predicate RowNotAfter(db: Db, a: Entry, b: Entry, clk: Clock) {
    RowOf(db, a, clk) == RowOf(db, b, clk) || SlotBefore(RowOf(db, a, clk), RowOf(db, b, clk))
  }

  /** The order of the first of these in the second. */
  lemma {:induction false} FilteredAt(es: seq<Entry>, policy: PolicyId, k: nat, l: nat) returns (i: nat, j: nat)
    requires k < l < |ForPolicy(es, policy)|
    ensures i < j < |es| && es[i] == ForPolicy(es, policy)[k] && es[j] == ForPolicy(es, policy)[l]
    decreases |es|
  {
    var rest, head := es[1..], if es[0].policy == policy then [es[0]] else [];
    if k < |head| {
      ForPolicyIn(rest, policy);
      assert ForPolicy(rest, policy)[l - 1] in rest;
      var m :| 0 <= m < |rest| && rest[m] == ForPolicy(rest, policy)[l - 1];
      i, j := 0, m + 1;
    } else {
      i, j := FilteredAt(rest, policy, k - |head|, l - |head|);
      i, j := i + 1, j + 1;
    }
  }

  lemma {:induction false} KeptAt(es: seq<Entry>, policy: PolicyId, i: nat, j: nat) returns (k: nat, l: nat)
    requires i < j < |es| && es[i].policy == policy && es[j].policy == policy
    ensures k < l < |ForPolicy(es, policy)| && ForPolicy(es, policy)[k] == es[i] && ForPolicy(es, policy)[l] == es[j]
    decreases |es|
  {
    var rest, head := es[1..], if es[0].policy == policy then [es[0]] else [];
    if i > 0 {
      k, l := KeptAt(rest, policy, i - 1, j - 1);
      k, l := k + |head|, l + |head|;
    } else {
      ForPolicyIn(rest, policy);
      assert rest[j - 1] in rest;
      var m :| 0 <= m < |ForPolicy(rest, policy)| && ForPolicy(rest, policy)[m] == es[j];
      k, l := 0, m + 1;
    }
  }

  lemma BudgetsLeadRows(db: Db, a: Entry, b: Entry, clk: Clock)
    requires PolicyBefore(a.policy, b.policy)
    ensures RowNotAfter(db, a, b, clk)
  {
  }

  lemma {:induction false} ReleasedRows(db: Db, id: ResId, slots: seq<Slot>, why: Why, command: Id, actor: Id, clk: Clock)
    requires AllHeld(db, id, slots) && Ascending(slots, SlotLeq)
    ensures InRowOrder(db, Releases(db, id, slots, why, command, actor), clk)
    decreases |slots|
  {
    hide MustRelease, SlotLeq;
    if slots != [] {
      var rest := Releases(db, id, slots[1..], why, command, actor);
      ReleasesShape(db, id, slots[1..], why, command, actor);
      ReleasedRows(db, id, slots[1..], why, command, actor, clk);
      forall j | 0 <= j < |rest| ensures RowNotAfter(db, ReleaseOf(db, id, slots[0], why, command, actor), rest[j], clk) {
        assert rest[j] in rest;
        var slot :| slot in slots[1..] && MustRelease(db, id, slot, why) && rest[j] == ReleaseOf(db, id, slot, why, command, actor);
        var k :| 0 <= k < |slots[1..]| && slots[1..][k] == slot;
        assert SlotLeq(slots[0], slots[k + 1]) && slots[0] != slots[k + 1];
      }
    }
  }

  /** The releases of a plan are in row order, and the rest names no period. */
  lemma PlanningShape(db: Db, cmd: Command, clk: Clock)
    ensures InRowOrder(db, Planning(db, cmd, clk).0, clk)
    ensures forall e :: e in Planning(db, cmd, clk).1 ==> e.period.None?
  {
    hide Releases, HeldSlots, Commits, Reserves, InRowOrder;
    var base := Base(db, cmd);
    NoRows(db, clk);
    match cmd
    case Submit(s) =>
      var id := ResId(s.organisation, s.key);
      ReservesShape(base, id, Bound(base, id, clk), s.amount, false, clk, SubmitStep, s.key, s.actor);
    case Resubmit(s, prior) =>
      var id := ResId(s.organisation, s.key);
      ReservesShape(base, id, Bound(base, id, clk), s.amount, false, clk, ResubmitStep, s.key, s.actor);
      if prior in db.reservations {
        HeldRows(db, prior, AllHolds(ResubmitReason(db, s, prior)), s.key, s.actor, clk);
      }
    case Commit(key, _, id, actor, _, _, _, _, reference, _) =>
      if id in db.reservations {
        CommittedBudgets(db, id, Bound(db, id, clk), db.reservations[id].amount, reference, key, actor);
      }
    case Release(key, _, id, actor, reason) => HeldRows(db, id, AllHolds(reason), key, actor, clk);
    case Expire(key, _, id, actor) => HeldRows(db, id, AllHolds(ExpiredHold), key, actor, clk);
    case Rollover(key, _, id, actor) =>
      HeldRows(db, id, StaleHolds(Bound(db, id, clk), clk), key, actor, clk);
      if id in db.reservations {
        ReservesShape(db, id, Bound(db, id, clk), db.reservations[id].amount, true, clk, RolloverStep, key, actor);
      }
  }

  lemma NoRows(db: Db, clk: Clock)
    ensures InRowOrder(db, [], clk)
  {
  }

  lemma HeldRows(db: Db, id: ResId, why: Why, key: Id, actor: Id, clk: Clock)
    ensures InRowOrder(db, AllReleases(db, id, why, key, actor), clk)
  {
    HeldListing(db, id);
    ReleasedRows(db, id, HeldSlots(db, id), why, key, actor, clk);
  }

  lemma {:induction false} ReleasesHave(db: Db, id: ResId, slots: seq<Slot>, why: Why, command: Id, actor: Id, slot: Slot)
    requires AllHeld(db, id, slots) && slot in slots && MustRelease(db, id, slot, why)
    ensures ReleaseOf(db, id, slot, why, command, actor) in Releases(db, id, slots, why, command, actor)
    decreases |slots|
  {
    hide MustRelease, ReleaseOf;
    if slot != slots[0] {
      assert slot in slots[1..];
      ReleasesHave(db, id, slots[1..], why, command, actor, slot);
    }
  }

  lemma {:induction false} ReservesHave(db: Db, id: ResId, policies: seq<PolicyId>, amount: int, topUp: bool, clk: Clock,
                                        step: Step, command: Id, actor: Id)
    requires Known(db, policies)
    ensures forall p :: p in policies && (topUp ==> CurrentlyReserved(db, id, p, clk) < amount) ==>
      exists e :: e in Reserves(db, id, policies, amount, topUp, clk, step, command, actor) && e.policy == p
    ensures forall e :: e in Reserves(db, id, policies, amount, topUp, clk, step, command, actor) ==>
      e.policy in policies && (topUp ==> CurrentlyReserved(db, id, e.policy, clk) < amount)
    decreases |policies|
  {
    hide CurrentlyReserved;
    if policies != [] {
      var p, rest := policies[0], Reserves(db, id, policies[1..], amount, topUp, clk, step, command, actor);
      var all := Reserves(db, id, policies, amount, topUp, clk, step, command, actor);
      ReservesHave(db, id, policies[1..], amount, topUp, clk, step, command, actor);
      if topUp ==> CurrentlyReserved(db, id, p, clk) < amount {
        assert all[0].policy == p && all[0] in all && all[1..] == rest;
      } else {
        assert all == [] + rest;
      }
      assert forall e :: e in rest ==> e in all;
      assert forall q :: q in policies <==> q == p || q in policies[1..];
    }
  }

  /** Returned live holds and renewed reservations are what the plan lists. */
  lemma PlanOfHolds(db: Db, cmd: Command, policy: PolicyId, clk: Clock)
    requires cmd.Resubmit? || cmd.Rollover?
    ensures ReservesAgain(db, cmd, policy, clk) ==> exists y :: y in Planning(db, cmd, clk).1 && y.policy == policy
    ensures Renewed(cmd).value in db.reservations ==>
      forall y :: y in Planning(db, cmd, clk).1 ==> ReservesAgain(db, cmd, y.policy, clk)
    ensures Renewed(cmd).value !in db.reservations ==> Planning(db, cmd, clk).0 == [] || Planning(db, cmd, clk).1 == []
  {
    hide Releases, HeldSlots, Reserves, CurrentlyReserved;
    var base := Base(db, cmd);
    match cmd
    case Resubmit(s, prior) =>
      var id := ResId(s.organisation, s.key);
      ReservesHave(base, id, Bound(base, id, clk), s.amount, false, clk, ResubmitStep, s.key, s.actor);
    case Rollover(key, _, id, actor) =>
      if id in db.reservations {
        ReservesHave(db, id, Bound(db, id, clk), db.reservations[id].amount, true, clk, RolloverStep, key, actor);
      }
  }

  lemma ReleasedAreLive(db: Db, cmd: Command, clk: Clock)
    ensures forall x :: x in Planning(db, cmd, clk).0 ==>
      x.period.Some? && Renewed(cmd).Some? && LiveHold(db, Renewed(cmd).value, Slot(x.policy, x.period.value))
  {
    hide HeldSlots, Reserves, Commits, Releases;
    if Renewed(cmd).Some? {
      var id := Renewed(cmd).value;
      HeldListing(db, id);
      forall why: Why, key, actor
        ensures forall x :: x in AllReleases(db, id, why, key, actor) ==> x.period.Some? && LiveHold(db, id, Slot(x.policy, x.period.value))
      {
        ReleasesShape(db, id, HeldSlots(db, id), why, key, actor);
      }
    }
  }

  /** A live hold outside the current period is among the releases. */
  lemma MovedReleased(db: Db, cmd: Command, slot: Slot, clk: Clock) returns (x: Entry)
    requires MovesHold(db, cmd, slot, clk)
    ensures x in Planning(db, cmd, clk).0 && x.policy == slot.policy && x.period == Some(slot.period)
  {
    hide HeldSlots, Reserves, Releases, Bound;
    var id := Renewed(cmd).value;
    HeldListing(db, id);
    match cmd
    case Resubmit(s, prior) =>
      var why := AllHolds(ResubmitReason(db, s, prior));
      ReleasesHave(db, id, HeldSlots(db, id), why, s.key, s.actor, slot);
      x := ReleaseOf(db, id, slot, why, s.key, s.actor);
    case Rollover(key, _, _, actor) =>
      var why := StaleHolds(Bound(db, id, clk), clk);
      ReleasesHave(db, id, HeldSlots(db, id), why, key, actor, slot);
      x := ReleaseOf(db, id, slot, why, key, actor);
  }

  lemma ReservesKnown(db: Db, cmd: Command, policy: PolicyId, clk: Clock)
    requires ReservesAgain(db, cmd, policy, clk)
    ensures policy in db.policies
  {
  }

  lemma NothingReleased(db: Db, cmd: Command, clk: Clock)
    requires cmd.Commit?
    ensures Planning(db, cmd, clk).0 == []
  {
    hide Commits;
  }

  lemma PlansBoth(db: Db, cmd: Command, clk: Clock)
    requires Planning(db, cmd, clk).0 != [] && Planning(db, cmd, clk).1 != []
    ensures cmd.Resubmit? || cmd.Rollover?
  {
    hide Commits, Reserves;
  }

  // ----- Pairs of entries -----

  /** A budget's entries: its releases, then what reserves or commits. */
  lemma ByBudget(db: Db, cmd: Command, policy: PolicyId, clk: Clock)
    ensures ForPolicy(Writes(db, cmd, clk), policy)
         == ForPolicy(Planning(db, cmd, clk).0, policy) + ForPolicy(Planning(db, cmd, clk).1, policy)
  {
    hide Planning, InPolicyOrder;
    var (releases, reserves) := Planning(db, cmd, clk);
    if cmd.Commit? {
      NothingReleased(db, cmd, clk);
      assert [] + ForPolicy(reserves, policy) == ForPolicy(reserves, policy);
    } else {
      InterleavingKeeps(releases, reserves, policy);
      ForPolicyAppend(releases, reserves, policy);
    }
  }

  /** Where two entries of one budget stand: among its releases, among the rest, or one in each. */
  lemma TwoOfBudget(db: Db, cmd: Command, clk: Clock, i: nat, j: nat) returns (k: nat, l: nat)
    requires i < j < |Writes(db, cmd, clk)| && Writes(db, cmd, clk)[i].policy == Writes(db, cmd, clk)[j].policy
    ensures var p := Writes(db, cmd, clk)[i].policy;
            var a, b := ForPolicy(Planning(db, cmd, clk).0, p), ForPolicy(Planning(db, cmd, clk).1, p);
            && k < l < |a + b| && (a + b)[k] == Writes(db, cmd, clk)[i] && (a + b)[l] == Writes(db, cmd, clk)[j]
            && (forall e :: e in a ==> e in Planning(db, cmd, clk).0) && (forall e :: e in b ==> e in Planning(db, cmd, clk).1)
  {
    hide Planning, Writes, ForPolicy;
    var es := Writes(db, cmd, clk);
    k, l := KeptAt(es, es[i].policy, i, j);
    ByBudget(db, cmd, es[i].policy, clk);
    ForPolicyIn(Planning(db, cmd, clk).0, es[i].policy);
    ForPolicyIn(Planning(db, cmd, clk).1, es[i].policy);
  }

  lemma TwoReleases(db: Db, cmd: Command, clk: Clock, policy: PolicyId, k: nat, l: nat)
    requires k < l < |ForPolicy(Planning(db, cmd, clk).0, policy)|
    ensures RowNotAfter(db, ForPolicy(Planning(db, cmd, clk).0, policy)[k], ForPolicy(Planning(db, cmd, clk).0, policy)[l], clk)
  {
    hide Planning, ForPolicy, RowNotAfter;
    PlanningShape(db, cmd, clk);
    var i, j := FilteredAt(Planning(db, cmd, clk).0, policy, k, l);
  }

  /** A release and then a later entry of its budget: out of order only for a hold of a later period. */
  lemma ReleaseThenRest(db: Db, cmd: Command, clk: Clock, x: Entry, y: Entry)
    requires x in Planning(db, cmd, clk).0 && y in Planning(db, cmd, clk).1 && x.policy == y.policy
    ensures y.period.None? && (RowNotAfter(db, x, y, clk) || LaterHold(db, cmd, RowOf(db, x, clk), clk))
  {
    hide Planning, ReservesAgain;
    PlanningShape(db, cmd, clk);
    ReleasedAreLive(db, cmd, clk);
    PlansBoth(db, cmd, clk);
    PlanOfHolds(db, cmd, x.policy, clk);
    ReservesKnown(db, cmd, x.policy, clk);
  }

  /** Two entries of a command are out of row order only if the first returns a later hold of the second's budget. */
  lemma PairInOrder(db: Db, cmd: Command, clk: Clock, i: nat, j: nat)
    requires i < j < |Writes(db, cmd, clk)|
    ensures var x, y := Writes(db, cmd, clk)[i], Writes(db, cmd, clk)[j];
            RowNotAfter(db, x, y, clk)
            || (x.policy == y.policy && y.period.None? && LaterHold(db, cmd, RowOf(db, x, clk), clk))
  {
    hide Planning, Writes, ForPolicy, RowOf, LaterHold, PolicyBefore, RowNotAfter;
    var es := Writes(db, cmd, clk);
    BudgetsInOrder(db, cmd, clk);
    assert BudgetsIn(es)[i] == es[i].policy && BudgetsIn(es)[j] == es[j].policy;
    if es[i].policy != es[j].policy {
      BudgetsLeadRows(db, es[i], es[j], clk);
    } else {
      var k, l := TwoOfBudget(db, cmd, clk, i, j);
      var a, b := ForPolicy(Planning(db, cmd, clk).0, es[i].policy), ForPolicy(Planning(db, cmd, clk).1, es[i].policy);
      if l < |a| {
        TwoReleases(db, cmd, clk, es[i].policy, k, l);
      } else if k < |a| {
        assert a[k] in a && b[l - |a|] in b;
        ReleaseThenRest(db, cmd, clk, es[i], es[j]);
      } else {
        assert b[k - |a|] in b && b[l - |a|] in b;
        PlanningShape(db, cmd, clk);
        SameCurrentRow(db, es[i], es[j], clk);
      }
    }
  }

  lemma SameCurrentRow(db: Db, x: Entry, y: Entry, clk: Clock)
    requires x.policy == y.policy && x.period.None? && y.period.None?
    ensures RowNotAfter(db, x, y, clk)
  {
  }

  /** Within a budget nothing is released after its current row was asked for. */
  lemma NoReleaseAfter(db: Db, cmd: Command, clk: Clock, i: nat, j: nat)
    requires i < j < |Writes(db, cmd, clk)| && Writes(db, cmd, clk)[i].policy == Writes(db, cmd, clk)[j].policy
    requires Writes(db, cmd, clk)[i].period.None?
    ensures Writes(db, cmd, clk)[j].period.None?
  {
    hide Planning, Writes, ForPolicy;
    var k, l := TwoOfBudget(db, cmd, clk, i, j);
    var p := Writes(db, cmd, clk)[i].policy;
    var a, b := ForPolicy(Planning(db, cmd, clk).0, p), ForPolicy(Planning(db, cmd, clk).1, p);
    PlanningShape(db, cmd, clk);
    ReleasedAreLive(db, cmd, clk);
    forall m | 0 <= m < |a| ensures a[m].period.Some? {
      assert a[m] in a;
    }
    forall m | 0 <= m < |b| ensures b[m].period.None? {
      assert b[m] in b;
    }
  }

  /** A hold that moves is released before its budget's current row is asked for. */
  lemma ReleasedBefore(db: Db, cmd: Command, slot: Slot, clk: Clock, j: nat) returns (i: nat)
    requires MovesHold(db, cmd, slot, clk) && j < |Writes(db, cmd, clk)|
    requires Writes(db, cmd, clk)[j].policy == slot.policy && Writes(db, cmd, clk)[j].period.None?
    ensures i < j && RowOf(db, Writes(db, cmd, clk)[i], clk) == slot
  {
    hide Planning, Writes, ForPolicy, MovesHold;
    var x := MovedReleased(db, cmd, slot, clk);
    i := PlannedAt(db, cmd, clk, x);
    if j < i {
      NoReleaseAfter(db, cmd, clk, j, i);
    }
  }

  lemma PlannedAt(db: Db, cmd: Command, clk: Clock, x: Entry) returns (i: nat)
    requires x in Planning(db, cmd, clk).0
    ensures i < |Writes(db, cmd, clk)| && Writes(db, cmd, clk)[i] == x
  {
    hide Planning, Writes, ForPolicy;
    ByBudget(db, cmd, x.policy, clk);
    ForPolicyIn(Planning(db, cmd, clk).0, x.policy);
    ForPolicyIn(Writes(db, cmd, clk), x.policy);
    assert x in ForPolicy(Planning(db, cmd, clk).0, x.policy) + ForPolicy(Planning(db, cmd, clk).1, x.policy);
    i :| 0 <= i < |Writes(db, cmd, clk)| && Writes(db, cmd, clk)[i] == x;
  }

  // ----- Locks in order -----

  /** A command comes to ask for rows out of order exactly when it comes to reserve anew what it holds for a later period. */
  lemma RowsInOrder(db: Db, cmd: Command, clk: Clock)
    ensures InRowOrder(db, AskedFor(db, cmd, clk), clk) <==> NoLaterHold(db, cmd, clk)
  {
    hide Writes, RowOf, LaterHold, RowNotAfter, AskedFor;
    var asked, es := AskedFor(db, cmd, clk), Writes(db, cmd, clk);
    if NoLaterHold(db, cmd, clk) {
      forall i, j | 0 <= i < j < |asked| ensures RowNotAfter(db, asked[i], asked[j], clk) {
        PairInOrder(db, cmd, clk, i, j);
        RowKeepsPolicy(db, asked[i], clk);
        assert asked[j] in asked;
      }
    }
    if slot: Slot :| LaterHold(db, cmd, slot, clk) && AsksNow(db, cmd, slot.policy, clk) {
      var j :| 0 <= j < |asked| && asked[j].policy == slot.policy && asked[j].period.None?;
      var i := LaterBefore(db, cmd, slot, clk, j);
      assert !RowNotAfter(db, asked[i], asked[j], clk);
    }
  }

  lemma LaterBefore(db: Db, cmd: Command, slot: Slot, clk: Clock, j: nat) returns (i: nat)
    requires LaterHold(db, cmd, slot, clk) && j < |Writes(db, cmd, clk)|
    requires Writes(db, cmd, clk)[j].policy == slot.policy && Writes(db, cmd, clk)[j].period.None?
    ensures i < j && !RowNotAfter(db, Writes(db, cmd, clk)[i], Writes(db, cmd, clk)[j], clk)
  {
    hide Writes, ReservesAgain;
    i := ReleasedBefore(db, cmd, slot, clk, j);
  }

  lemma RowKeepsPolicy(db: Db, e: Entry, clk: Clock)
    ensures RowOf(db, e, clk).policy == e.policy
  {
  }

  function Heads(db: Db, cmd: Command, clk: Clock): nat {
    1 + |Locked(db, cmd, clk)|
  }

  /** A command's key, then a reservation it replaces or renews, then rows; a command that asks for rows asks for the others. */
  lemma LocksAre(db: Db, cmd: Command, clk: Clock)
    requires ArgumentsOk(cmd, clk.now)
    ensures 1 <= Heads(db, cmd, clk) <= 2 && |LocksOf(db, cmd, clk)| == Heads(db, cmd, clk) + |RowsAsked(db, cmd, clk)|
    ensures LocksOf(db, cmd, clk)[0] == KeyLock(cmd.IdempotencyKey())
    ensures Heads(db, cmd, clk) == 2 ==> Renewed(cmd).Some? && LocksOf(db, cmd, clk)[1] == ReservationLock(Renewed(cmd).value)
    ensures forall k :: 0 <= k < |RowsAsked(db, cmd, clk)| ==>
      LocksOf(db, cmd, clk)[Heads(db, cmd, clk) + k] == BalanceLock(RowsAsked(db, cmd, clk)[k])
  {
    hide RowsAsked, Started, LockReservation;
  }

  lemma LockIsRow(db: Db, cmd: Command, clk: Clock, j: nat)
    requires ArgumentsOk(cmd, clk.now) && j < |LocksOf(db, cmd, clk)|
    ensures LocksOf(db, cmd, clk)[j].BalanceLock? <==> Heads(db, cmd, clk) <= j
    ensures LocksOf(db, cmd, clk)[j].KeyLock? <==> j == 0
    ensures Heads(db, cmd, clk) <= j ==> LocksOf(db, cmd, clk)[j] == BalanceLock(RowsAsked(db, cmd, clk)[j - Heads(db, cmd, clk)])
  {
    hide LocksOf, RowsAsked, Heads;
    LocksAre(db, cmd, clk);
    var n := Heads(db, cmd, clk);
    if n <= j {
      assert LocksOf(db, cmd, clk)[n + (j - n)] == BalanceLock(RowsAsked(db, cmd, clk)[j - n]);
    }
  }

  /**
   A command takes its locks in the global order exactly when it does not come to reserve
   anew, in a budget's current period, what it holds there for a later one.
   */
  lemma LocksInOrder(db: Db, cmd: Command, clk: Clock)
    ensures InLockOrder(LocksOf(db, cmd, clk), LockBefore) <==> NoLaterHold(db, cmd, clk)
  {
    hide AskedFor, RowOf, NoLaterHold, SlotBefore, Heads, ArgumentsOk;
    RowsInOrder(db, cmd, clk);
    if ArgumentsOk(cmd, clk.now) {
      LocksAreRows(db, cmd, clk);
    } else {
      NothingAsked(db, cmd, clk);
    }
  }

  lemma NothingAsked(db: Db, cmd: Command, clk: Clock)
    requires !ArgumentsOk(cmd, clk.now)
    ensures AskedFor(db, cmd, clk) == [] && InRowOrder(db, AskedFor(db, cmd, clk), clk)
  {
  }

  lemma RowsAreLocks(db: Db, a: Entry, b: Entry, clk: Clock)
    ensures var x, y := BalanceLock(RowOf(db, a, clk)), BalanceLock(RowOf(db, b, clk));
            RowNotAfter(db, a, b, clk) <==> x == y || LockBefore(x, y)
  {
    hide RowOf, SlotBefore;
  }

  lemma RowLocksInOrder(db: Db, es: seq<Entry>, clk: Clock)
    ensures InLockOrder(BalanceLocks(RowsOf(db, es, clk)), LockBefore) <==> InRowOrder(db, es, clk)
  {
    hide RowOf, LockBefore, RowNotAfter;
    var locks := BalanceLocks(RowsOf(db, es, clk));
    forall i, j | 0 <= i < j < |es|
      ensures RowNotAfter(db, es[i], es[j], clk) <==> locks[i] == locks[j] || LockBefore(locks[i], locks[j])
    {
      RowsAreLocks(db, es[i], es[j], clk);
    }
  }

  lemma OrderAfterHeads(locks: seq<Lock>, n: nat)
    requires n <= |locks| && forall i, j :: 0 <= i < n && i < j < |locks| ==> LockBefore(locks[i], locks[j])
    ensures InLockOrder(locks, LockBefore) <==> InLockOrder(locks[n..], LockBefore)
  {
    hide LockBefore;
    var rows := locks[n..];
    if InLockOrder(locks, LockBefore) {
      forall i, j | 0 <= i < j < |rows| ensures rows[i] == rows[j] || LockBefore(rows[i], rows[j]) {
        assert rows[i] == locks[n + i] && rows[j] == locks[n + j];
      }
    }
    if InLockOrder(rows, LockBefore) {
      forall i, j | 0 <= i < j < |locks| ensures locks[i] == locks[j] || LockBefore(locks[i], locks[j]) {
        if n <= i {
          assert rows[i - n] == locks[i] && rows[j - n] == locks[j];
        }
      }
    }
  }

  lemma LocksAreRows(db: Db, cmd: Command, clk: Clock)
    requires ArgumentsOk(cmd, clk.now)
    ensures InLockOrder(LocksOf(db, cmd, clk), LockBefore) <==> InRowOrder(db, AskedFor(db, cmd, clk), clk)
  {
    hide AskedFor, Heads, LocksOf, InLockOrder, InRowOrder, LockBefore;
    var locks, n := LocksOf(db, cmd, clk), Heads(db, cmd, clk);
    LocksAre(db, cmd, clk);
    forall i, j | 0 <= i < n && i < j < |locks| ensures LockBefore(locks[i], locks[j]) {
      HeadsFirst(db, cmd, clk, i, j);
    }
    OrderAfterHeads(locks, n);
    assert locks[n..] == BalanceLocks(RowsAsked(db, cmd, clk));
    RowLocksInOrder(db, AskedFor(db, cmd, clk), clk);
  }

  lemma HeadsFirst(db: Db, cmd: Command, clk: Clock, i: nat, j: nat)
    requires ArgumentsOk(cmd, clk.now) && i < j < |LocksOf(db, cmd, clk)| && i < Heads(db, cmd, clk)
    ensures LockBefore(LocksOf(db, cmd, clk)[i], LocksOf(db, cmd, clk)[j])
  {
    hide LocksOf, Heads, RowsAsked;
    LocksAre(db, cmd, clk);
    LockIsRow(db, cmd, clk, i);
    LockIsRow(db, cmd, clk, j);
  }

  /** A command moves the balances of rows it has asked for, and no others. */
  lemma OnlyAskedRowsMove(db: Db, cmd: Command, clk: Clock, slot: Slot)
    requires slot !in RowsAsked(db, cmd, clk)
    ensures SameBalance(db, Run(db, cmd, clk).0, slot)
  {
    hide Execute, Writes, RowOf, Proceeds, ArgumentsOk, ApplyAll, Base, Asked;
    if Run(db, cmd, clk).1.AppliedNow? {
      GuardsDecide(db, cmd, clk);
      AllAsked(Base(db, cmd), Writes(db, cmd, clk), clk);
      BaseReads(db, cmd);
      WritesShape(db, cmd, clk);
      forall e | e in Writes(db, cmd, clk) ensures RowOf(Base(db, cmd), e, clk) != slot {
        var i :| 0 <= i < |Writes(db, cmd, clk)| && Writes(db, cmd, clk)[i] == e;
        assert RowsAsked(db, cmd, clk)[i] == RowOf(db, e, clk);
        RowReads(db, Base(db, cmd), e, clk);
      }
      EntriesLockTheirRows(Base(db, cmd), Writes(db, cmd, clk), clk, slot);
    }
  }

  lemma BaseReads(db: Db, cmd: Command)
    ensures Base(db, cmd).policies == db.policies && Base(db, cmd).balances == db.balances && Base(db, cmd).holds == db.holds
    ensures Base(db, cmd).entries == db.entries
  {
  }

  lemma RowReads(a: Db, b: Db, e: Entry, clk: Clock)
    requires b.policies == a.policies
    ensures RowOf(b, e, clk) == RowOf(a, e, clk)
  {
  }

  lemma WritesShape(db: Db, cmd: Command, clk: Clock)
    ensures forall e :: e in Writes(db, cmd, clk) ==> e.kind.ReleaseEntry? || e.period.None?
  {
    hide Planning, Writes, ForPolicy;
    PlanningShape(db, cmd, clk);
    ReleasedAreReleases(db, cmd, clk);
    forall e | e in Writes(db, cmd, clk) ensures e.kind.ReleaseEntry? || e.period.None? {
      ByBudget(db, cmd, e.policy, clk);
      ForPolicyIn(Writes(db, cmd, clk), e.policy);
      ForPolicyIn(Planning(db, cmd, clk).0, e.policy);
      ForPolicyIn(Planning(db, cmd, clk).1, e.policy);
      assert e in ForPolicy(Planning(db, cmd, clk).0, e.policy) + ForPolicy(Planning(db, cmd, clk).1, e.policy);
    }
  }

  lemma ReleasedAreReleases(db: Db, cmd: Command, clk: Clock)
    ensures forall x :: x in Planning(db, cmd, clk).0 ==> x.kind.ReleaseEntry?
  {
    hide HeldSlots, Reserves, Commits, Releases;
    if Renewed(cmd).Some? {
      var id := Renewed(cmd).value;
      HeldListing(db, id);
      forall why: Why, key, actor ensures forall x :: x in AllReleases(db, id, why, key, actor) ==> x.kind.ReleaseEntry? {
        ReleasesShape(db, id, HeldSlots(db, id), why, key, actor);
      }
    }
  }

  // ----- Many commands -----

  /** Running commands: each has taken some of its locks. */
  datatype Running = Running(db: Db, cmd: Command, clk: Clock, got: nat)
  {
    function Txn(): Txn<Lock> {
      LockOrder.Txn.Txn(LocksOf(db, cmd, clk), got)
    }
  }

  function Txns(running: seq<Running>): seq<Txn<Lock>> {
    seq(|running|, i requires 0 <= i < |running| => running[i].Txn())
  }

  lemma LockOrderIsStrict()
    ensures StrictOrder(LockBefore)
  {
    OrdersAreStrict();
    forall x: Lock, y: Lock, z: Lock | LockBefore(x, y) && LockBefore(y, z) ensures LockBefore(x, z) {}
  }

  /** Any number of concurrent commands that come to no later hold never deadlock. */
  lemma CommandsDoNotDeadlock(running: seq<Running>)
    requires forall c :: c in running ==> NoLaterHold(c.db, c.cmd, c.clk)
    ensures !Deadlocked(Txns(running))
  {
    hide LocksOf, NoLaterHold;
    LockOrderIsStrict();
    forall t | t in Txns(running) ensures InLockOrder(t.wants, LockBefore) {
      var i :| 0 <= i < |running| && Txns(running)[i] == t;
      assert running[i] in running;
      LocksInOrder(running[i].db, running[i].cmd, running[i].clk);
    }
    OrderPreventsDeadlock(Txns(running), LockBefore);
  }

  /** Submitting, committing, releasing and expiring never reserve anew what they hold. */
  lemma OnlyReplacingMayDisorder(db: Db, cmd: Command, clk: Clock)
    requires !cmd.Resubmit? && !cmd.Rollover?
    ensures NoLaterHold(db, cmd, clk)
  {
    hide AskedFor;
  }
}
