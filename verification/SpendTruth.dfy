/** What the ledger's balances mean, after any run. */
module SpendTruth {
  import opened Wrappers
  import opened Sums
  import opened SpendTypes
  import opened SpendLedger
  import opened SpendCommands
  import opened SpendBooks
  import opened SpendInvariants
  import opened SpendKeeps
  import opened SpendKeepsMore
  import opened SpendRuns

  /** What ACTIVE reservations hold in a budget period. */
  ghost function HeldByActive(db: Db, slot: Slot): int {
    Total(ActiveColumn(db, slot))
  }

  ghost function ActiveColumn(db: Db, slot: Slot): map<HoldKey, int> {
    map hk | hk in db.holds && hk.slot == slot && hk.reservation in db.reservations
             && db.reservations[hk.reservation].status == Active :: db.holds[hk].reserved
  }

  /** Rows worth nothing may be left out of a sum. */
  lemma {:induction false} ZeroRowsAddNothing<K>(all: map<K, int>, some: map<K, int>)
    requires forall k :: k in some ==> k in all && all[k] == some[k]
    requires forall k :: k in all && k !in some ==> all[k] == 0
    ensures Total(all) == Total(some)
    decreases |all|
  {
    if all == map[] {
      assert some == map[];
    } else {
      var k :| k in all;
      TotalRemove(all, k);
      SmallerWithout(all, k);
      if k in some {
        TotalRemove(some, k);
      } else {
        assert some - {k} == some;
      }
      ZeroRowsAddNothing(all - {k}, some - {k});
    }
  }

  lemma OnlyActiveHold(db: Db, slot: Slot)
    requires Inv(db)
    ensures HeldAt(db, slot) == HeldByActive(db, slot)
  {
    forall hk | hk in HoldColumn(db, slot) && hk !in ActiveColumn(db, slot) ensures HoldColumn(db, slot)[hk] == 0 {
      assert HoldOk(db, hk) && Settled(db, hk.reservation);
      assert SettledHold(db, hk.reservation, hk.slot);
    }
    ZeroRowsAddNothing(HoldColumn(db, slot), ActiveColumn(db, slot));
  }

  /** The amounts of a budget period are what ACTIVE reservations hold and what COMMIT entries spent. */
  ghost predicate BalanceTrue(db: Db, slot: Slot) {
    && Reserved(db, slot) == HeldByActive(db, slot)
    && Reserved(db, slot) == LedgerReserved(db, slot)
    && SpentTotal(db, slot) == LedgerCommitted(db, slot)
    && 0 <= Reserved(db, slot) && 0 <= SpentTotal(db, slot)
  }

  /** A reservation that is no longer ACTIVE holds nothing; only a COMMITTED one has spent. */
  ghost predicate ClosedHoldsNothing(db: Db) {
    forall hk :: hk in db.holds ==>
      && hk.reservation in db.reservations
      && (db.reservations[hk.reservation].status != Active ==> db.holds[hk].reserved == 0)
      && (db.reservations[hk.reservation].status != Committed ==> db.holds[hk].committed == 0)
  }

  /** A budget revision under which a reservation was admitted is not overspent. */
  ghost predicate AdmittedWithinLimit(db: Db) {
    forall k :: k in db.entries && db.entries[k].kind.ReserveEntry? ==>
      var e := db.entries[k];
      && e.policy in db.policies && e.period.Some?
      && (e.revision == db.policies[e.policy].revision ==>
            var slot := Slot(e.policy, e.period.value);
            SpentTotal(db, slot) + Reserved(db, slot) <= db.policies[e.policy].limit)
  }

  lemma BalancesTrue(db: Db, slot: Slot)
    requires Inv(db)
    ensures BalanceTrue(db, slot)
  {
    OnlyActiveHold(db, slot);
    assert Agrees(db, slot);
    assert slot in db.balances ==> BalanceOk(db, slot);
  }

  /** After any run of commands and edits, whatever the clock readings of the commands. */
  lemma LedgerTruth(events: seq<Event>)
    requires Timely(events)
    ensures var db := Play(EMPTY, events);
            && (forall slot: Slot :: BalanceTrue(db, slot))
            && ClosedHoldsNothing(db) && AdmittedWithinLimit(db)
  {
    AlwaysInvariant(events);
    var db := Play(EMPTY, events);
    forall slot: Slot ensures BalanceTrue(db, slot) {
      BalancesTrue(db, slot);
    }
    ClosedAndWithin(db);
  }

  lemma ClosedAndWithin(db: Db)
    requires Inv(db)
    ensures ClosedHoldsNothing(db) && AdmittedWithinLimit(db)
  {
    forall hk | hk in db.holds
      ensures hk.reservation in db.reservations
      ensures db.reservations[hk.reservation].status != Active ==> db.holds[hk].reserved == 0
      ensures db.reservations[hk.reservation].status != Committed ==> db.holds[hk].committed == 0
    {
      assert HoldOk(db, hk) && Settled(db, hk.reservation);
      assert SettledHold(db, hk.reservation, hk.slot);
    }
    forall k | k in db.entries && db.entries[k].kind.ReserveEntry?
      ensures db.entries[k].policy in db.policies && db.entries[k].period.Some?
    {
      assert EntryOk(db, k) && WithinLimit(db, db.entries[k]);
    }
  }

  /** Both are ACTIVE for the same purchase. */
  predicate ActiveFor(a: Reservation, b: Reservation) {
    a.status == Active && b.status == Active && a.organisation == b.organisation && a.purchase == b.purchase
  }

  /** A purchase has at most one ACTIVE reservation, and supersession forms chains of rising versions. */
  lemma OnePurchaseOneReservation(events: seq<Event>)
    requires Timely(events)
    ensures var rs := Play(EMPTY, events).reservations;
            && (forall i, j :: i in rs && j in rs && ActiveFor(rs[i], rs[j]) ==> i == j)
            && (forall i, j :: i in rs && j in rs && rs[i].supersedes.Some? && rs[i].supersedes == rs[j].supersedes ==> i == j)
            && (forall i :: i in rs && rs[i].supersedes.Some? ==>
                  && rs[i].supersedes.value in rs
                  && var prior := rs[rs[i].supersedes.value];
                     && prior.status == Released && prior.version < rs[i].version
                     && prior.organisation == rs[i].organisation && prior.purchase == rs[i].purchase
                     && prior.membership == rs[i].membership && prior.submittedBy == rs[i].submittedBy
                     && prior.market == rs[i].market && prior.currency == rs[i].currency
                     && prior.agreement == rs[i].agreement && prior.tenant == rs[i].tenant)
  {
    hide Books, Recorded, Settled, PolicyOk;
    AlwaysInvariant(events);
    var rs := Play(EMPTY, events).reservations;
    forall i, j | i in rs && j in rs && ActiveFor(rs[i], rs[j]) ensures i == j {
      assert i != j ==> !Competes(rs[i], rs[j]);
    }
    forall i | i in rs && rs[i].supersedes.Some? ensures Succeeds(rs, i) {}
  }

  // ----- No command overspends -----

  function Used(db: Db, slot: Slot): int {
    SpentTotal(db, slot) + Reserved(db, slot)
  }

  /** What a budget period uses, or may use. */
  function Ceiling(db: Db, slot: Slot): int {
    if slot.policy in db.policies && db.policies[slot.policy].limit > Used(db, slot) then
      db.policies[slot.policy].limit
    else
      Used(db, slot)
  }

  lemma EntryWithinCeiling(db: Db, e: Entry, clk: Clock, slot: Slot)
    requires ApplyEntry(db, e, clk).Success?
    ensures Used(ApplyEntry(db, e, clk).value, slot) <= Ceiling(db, slot)
  {
    JudgeMoves(db, e, clk);
    JudgeLimits(db, e, clk);
  }

  lemma {:induction false} EntriesWithinCeiling(db: Db, es: seq<Entry>, clk: Clock, slot: Slot)
    requires ApplyAll(db, es, clk).Success?
    ensures Used(ApplyAll(db, es, clk).value, slot) <= Ceiling(db, slot)
    decreases |es|
  {
    hide ApplyEntry;
    if es != [] {
      EntryWithinCeiling(db, es[0], clk, slot);
      EntriesWithinCeiling(ApplyEntry(db, es[0], clk).value, es[1..], clk, slot);
    }
  }

  lemma WrittenWithinCeiling(db: Db, es: seq<Entry>, clk: Clock, slot: Slot)
    ensures WriteAll(db, es, clk).Success? ==> Used(WriteAll(db, es, clk).value, slot) <= Ceiling(db, slot)
  {
    if ApplyAll(db, es, clk).Success? {
      EntriesWithinCeiling(db, es, clk, slot);
    }
  }

  lemma FillWithinCeiling(db: Db, s: Submission, releases: seq<Entry>, step: Step, clk: Clock, slot: Slot)
    requires ResId(s.organisation, s.key) in db.reservations && Fill(db, s, releases, step, clk).Success?
    ensures Used(Fill(db, s, releases, step, clk).value.0, slot) <= Ceiling(db, slot)
  {
    hide WriteAll, InPolicyOrder, Reserves, ApplicablePolicies, Used, Ceiling;
    var id := ResId(s.organisation, s.key);
    ApplicableListing(db, db.reservations[id], clk.now);
    var policies := ApplicablePolicies(db, db.reservations[id], clk.now).value;
    var reserves := Reserves(db, id, policies, s.amount, false, clk, step, s.key, s.actor);
    WrittenWithinCeiling(db, InPolicyOrder(releases, reserves), clk, slot);
  }

  lemma ResubmitWithinCeiling(db: Db, s: Submission, prior: ResId, clk: Clock, slot: Slot)
    requires ExecuteResubmit(db, s, prior, clk).Success?
    ensures Used(ExecuteResubmit(db, s, prior, clk).value.0, slot) <= Ceiling(db, slot)
  {
    hide Fill, Releases, HeldSlots, ExecuteResubmit, LaterVersion, Collides;
    ResubmitGuards(db, s, prior, clk);
    var releases := Releases(db, prior, HeldSlots(db, prior), AllHolds(ResubmitReason(db, s, prior)), s.key, s.actor);
    FillWithinCeiling(Replaced(db, s, prior), s, releases, ResubmitStep, clk, slot);
  }

  lemma CommitWithinCeiling(db: Db, cmd: Command, clk: Clock, slot: Slot)
    requires cmd.Commit? && ExecuteCommit(db, cmd, clk).Success?
    ensures Used(ExecuteCommit(db, cmd, clk).value.0, slot) <= Ceiling(db, slot)
  {
    hide WriteAll, Commits, ApplicablePolicies, ReadyToCommit;
    var id, r := cmd.reservation, db.reservations[cmd.reservation];
    ApplicableListing(db, r, clk.now);
    var policies := ApplicablePolicies(db, r, clk.now).value;
    WrittenWithinCeiling(db, Commits(db, id, policies, r.amount, cmd.reference, cmd.key, cmd.actor), clk, slot);
  }

  lemma CloseWithinCeiling(db: Db, cmd: Command, clk: Clock, slot: Slot)
    requires (cmd.Release? || cmd.Expire?) && Execute(db, cmd, clk).Success?
    ensures Used(Execute(db, cmd, clk).value.0, slot) <= Ceiling(db, slot)
  {
    hide WriteAll, Releases, HeldSlots, InPolicyOrder;
    var id := cmd.reservation;
    HeldListing(db, id);
    var reason := if cmd.Release? then cmd.reason else ExpiredHold;
    WrittenWithinCeiling(db, InPolicyOrder(Releases(db, id, HeldSlots(db, id), AllHolds(reason), cmd.key, cmd.actor), []), clk, slot);
  }

  lemma RolloverWithinCeiling(db: Db, organisation: Id, id: ResId, key: Id, actor: Id, clk: Clock, slot: Slot)
    requires ExecuteRollover(db, organisation, id, key, actor, clk).Success?
    ensures Used(ExecuteRollover(db, organisation, id, key, actor, clk).value.0, slot) <= Ceiling(db, slot)
  {
    hide WriteAll, RolloverReleases, RolloverReserves, ApplicablePolicies, InPolicyOrder;
    var r := db.reservations[id];
    ApplicableListing(db, r, clk.now);
    var policies := ApplicablePolicies(db, r, clk.now).value;
    WrittenWithinCeiling(db, InPolicyOrder(RolloverReleases(db, id, policies, key, actor, clk),
                                           RolloverReserves(db, id, policies, r.amount, key, actor, clk)), clk, slot);
  }

  /** No command, in any state, takes a budget period above its limit, nor further above it. */
  lemma NoOverspend(db: Db, cmd: Command, clk: Clock, slot: Slot)
    ensures Used(Run(db, cmd, clk).0, slot) <= Ceiling(db, slot)
  {
    hide ArgumentsOk, ExecuteResubmit, ExecuteCommit, ExecuteClose, ExecuteRollover, Fill, IsMember, Collides;
    if Execute(db, cmd, clk).Success? {
      match cmd
      case Submit(s) =>
        FillWithinCeiling(InsertReservation(db, s, None, clk.now).value, s, [], SubmitStep, clk, slot);
      case Resubmit(s, prior) => ResubmitWithinCeiling(db, s, prior, clk, slot);
      case Commit(_, _, _, _, _, _, _, _, _, _) => CommitWithinCeiling(db, cmd, clk, slot);
      case Release(_, _, _, _, _) => CloseWithinCeiling(db, cmd, clk, slot);
      case Expire(_, _, _, _) => CloseWithinCeiling(db, cmd, clk, slot);
      case Rollover(key, organisation, id, actor) => RolloverWithinCeiling(db, organisation, id, key, actor, clk, slot);
    }
  }
}
