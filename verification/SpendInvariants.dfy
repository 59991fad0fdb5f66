/** What holds of the tables between transactions. */
module SpendInvariants {
  import opened Wrappers
  import opened SpendTypes
  import opened SpendCommands
  import opened SpendBooks
  import opened SpendEffects
  import opened SpendOutcome

  /** The month of the transaction's instant contains it, in every time zone. */
  ghost predicate CalendarOk(clk: Clock) {
    forall zone :: clk.month(zone, clk.now).startsAt <= clk.now < clk.month(zone, clk.now).endsAt
  }

  /** The check constraints on a budget policy. */
  predicate PolicyOk(p: Policy) {
    && p.limit > 0 && p.revision >= 1
    && (p.until.Some? ==> p.from < p.until.value)
    && (p.scope.AgreementScope? ==> p.until.Some?)
  }

  /** A reservation holds all of its amount or none in any period, and nothing once it is closed. */
  ghost predicate SettledHold(db: Db, id: ResId, slot: Slot)
    requires id in db.reservations
  {
    var r := db.reservations[id];
    && (r.status != Active ==> ReservedBy(db, id, slot) == 0)
    && (r.status != Committed ==> CommittedBy(db, id, slot) == 0)
    && (ReservedBy(db, id, slot) == 0 || ReservedBy(db, id, slot) == r.amount)
  }

  /** At most one live hold per budget. */
  ghost predicate OneHold(db: Db, id: ResId) {
    forall s: Slot, t: Slot ::
      s.policy == t.policy && ReservedBy(db, id, s) != 0 && ReservedBy(db, id, t) != 0 ==> s == t
  }

  ghost predicate Settled(db: Db, id: ResId)
    requires id in db.reservations
  {
    && id.organisation == db.reservations[id].organisation
    && db.reservations[id].amount > 0 && db.reservations[id].holdRevision >= 1
    && (forall slot: Slot :: SettledHold(db, id, slot))
    && OneHold(db, id)
  }

  predicate Competes(a: Reservation, b: Reservation) {
    && a.status == Active && b.status == Active
    && ((a.organisation == b.organisation && a.purchase == b.purchase)
        || (a.membership == b.membership && a.digest == b.digest && a.version == b.version))
  }

  /** A purchase has at most one ACTIVE reservation. */
  ghost predicate OneActive(rs: map<ResId, Reservation>) {
    forall i, j :: i in rs && j in rs && i != j ==> !Competes(rs[i], rs[j])
  }

  /** The superseded reservation is closed and is an earlier version of the same purchase. */
  ghost predicate Succeeds(rs: map<ResId, Reservation>, id: ResId)
    requires id in rs
  {
    rs[id].supersedes.Some? ==>
      && rs[id].supersedes.value in rs
      && var r, prior := rs[id], rs[rs[id].supersedes.value];
         && prior.status == Released && prior.version < r.version
         && prior.purchase == r.purchase && prior.tenant == r.tenant && prior.organisation == r.organisation
         && prior.membership == r.membership && prior.market == r.market && prior.currency == r.currency
         && prior.agreement == r.agreement && prior.submittedBy == r.submittedBy
  }

  /** Supersession forms chains: nothing is superseded twice. */
  ghost predicate Lineage(rs: map<ResId, Reservation>) {
    && (forall id :: id in rs ==> Succeeds(rs, id))
    && (forall i, j :: i in rs && j in rs && i != j && rs[i].supersedes.Some? ==> rs[i].supersedes != rs[j].supersedes)
  }

  /** Every row was written by a recorded command. */
  ghost predicate Recorded(db: Db) {
    && (forall k :: k in db.entries ==> k.command in db.commands)
    && (forall id :: id in db.reservations ==> id.key in db.commands)
    && (forall key :: key in db.commands ==> db.commands[key].request.IdempotencyKey() == key)
    && (forall key :: key in db.mutations ==> key in db.commands)
    && Distinct(db.mutations)
  }

  ghost predicate Boundary(db: Db) {
    && (forall p :: p in db.policies ==> PolicyOk(db.policies[p]))
    && (forall id :: id in db.reservations ==> Settled(db, id))
    && OneActive(db.reservations)
    && Lineage(db.reservations)
  }

  ghost predicate Inv(db: Db) {
    Books(db) && Boundary(db) && Recorded(db)
  }

  // ----- Reading the tables after a plan -----

  lemma ReadsAfterPlan(db: Db, mid: Db, done: Db, plan: Plan, clk: Clock, id: ResId, slot: Slot)
    requires ReleasedAs(db, mid, plan.from, plan.slots, plan.why)
    requires ReservedAs(mid, done, plan.id, plan.policies, plan.amount, plan.topUp, clk)
    ensures ReservedBy(done, id, slot) ==
            ReservedBy(db, id, slot)
            - Returned(db, plan.from, plan.slots, plan.why, HoldKey(id, slot))
            + if id == plan.id then Added(mid, plan.id, plan.policies, plan.amount, plan.topUp, clk, slot) else 0
    ensures CommittedBy(done, id, slot) == CommittedBy(db, id, slot)
    ensures id != plan.id ==> HoldLowered(db, done, HoldKey(id, slot), Returned(db, plan.from, plan.slots, plan.why, HoldKey(id, slot)))
  {
    var hk := HoldKey(id, slot);
    assert HoldGrew(mid, done, hk, if hk.reservation == plan.id then Added(mid, plan.id, plan.policies, plan.amount, plan.topUp, clk, hk.slot) else 0);
  }

  ghost predicate HoldLowered(a: Db, b: Db, hk: HoldKey, returned: int) {
    && (hk in a.holds <==> hk in b.holds)
    && (hk in a.holds ==> b.holds[hk] == a.holds[hk].(reserved := a.holds[hk].reserved - returned))
  }

  ghost predicate SameHold(a: Db, b: Db, hk: HoldKey) {
    (hk in a.holds <==> hk in b.holds) && (hk in a.holds ==> a.holds[hk] == b.holds[hk])
  }

  /** A command leaves the holds of every reservation but its own alone. */
  ghost predicate OthersKept(a: Db, b: Db, ids: set<ResId>) {
    forall hk: HoldKey :: hk.reservation !in ids ==> SameHold(a, b, hk)
  }

  lemma UntouchedSettled(a: Db, b: Db, ids: set<ResId>, id: ResId)
    requires OthersKept(a, b, ids) && id !in ids
    requires id in a.reservations && id in b.reservations && a.reservations[id] == b.reservations[id]
    requires Settled(a, id)
    ensures Settled(b, id)
  {
    forall slot: Slot
      ensures ReservedBy(b, id, slot) == ReservedBy(a, id, slot) && CommittedBy(b, id, slot) == CommittedBy(a, id, slot)
    {
      assert SameHold(a, b, HoldKey(id, slot));
    }
    forall slot: Slot ensures SettledHold(b, id, slot) {
      assert SettledHold(a, id, slot);
    }
  }

  /** Live holds exactly at the current slots of the given budgets are settled. */
  lemma CurrentHoldsSettled(db: Db, budgets: Db, id: ResId, policies: seq<PolicyId>, amount: int, clk: Clock)
    requires id in db.reservations && id.organisation == db.reservations[id].organisation
    requires db.reservations[id].amount == amount > 0 && db.reservations[id].holdRevision >= 1
    requires db.reservations[id].status == Active || policies == []
    requires forall slot: Slot :: ReservedBy(db, id, slot) == Converted(budgets, policies, amount, clk, slot)
    requires db.reservations[id].status == Committed || forall slot: Slot :: CommittedBy(db, id, slot) == 0
    ensures Settled(db, id)
  {
    forall slot: Slot ensures SettledHold(db, id, slot) {
      assert ReservedBy(db, id, slot) == Converted(budgets, policies, amount, clk, slot);
    }
    forall s: Slot, t: Slot | s.policy == t.policy && ReservedBy(db, id, s) != 0 && ReservedBy(db, id, t) != 0
      ensures s == t
    {
      assert Converted(budgets, policies, amount, clk, s) != 0 && Converted(budgets, policies, amount, clk, t) != 0;
    }
  }

  // ----- Reservation rows -----

  predicate Revised(p: Policy, q: Policy) {
    && q.revision == p.revision + 1 && q.scope == p.scope && q.tenant == p.tenant && q.organisation == p.organisation
    && q.market == p.market && q.currency == p.currency
  }

  /**
   The books stay true while holds, balances and entries stay: reservations may
   be added or move their status, and budgets may be added or revised.
   */
  lemma BooksUnmoved(a: Db, b: Db)
    requires Books(a) && b.holds == a.holds && b.balances == a.balances && b.entries == a.entries
    requires forall id :: id in a.reservations ==> id in b.reservations && SameBinding(a.reservations[id], b.reservations[id])
    requires forall p :: p in a.policies ==>
      p in b.policies && (b.policies[p] == a.policies[p] || Revised(a.policies[p], b.policies[p]))
    ensures Books(b)
  {
    forall slot: Slot ensures Agrees(b, slot) {
      assert Agrees(a, slot);
      assert HoldColumn(b, slot) == HoldColumn(a, slot);
    }
    forall k | k in b.entries ensures EntryOk(b, k) && WithinLimit(b, b.entries[k]) {
      assert EntryOk(a, k) && WithinLimit(a, a.entries[k]);
    }
    forall hk | hk in b.holds ensures HoldOk(b, hk) {
      assert HoldOk(a, hk);
    }
    forall slot | slot in b.balances ensures BalanceOk(b, slot) {
      assert BalanceOk(a, slot);
    }
  }

  predicate SameBinding(a: Reservation, b: Reservation) {
    b == a.(status := b.status, holdRevision := b.holdRevision)
  }

  lemma InsertedRows(db: Db, s: Submission, supersedes: Option<ResId>)
    requires OneActive(db.reservations) && Lineage(db.reservations) && !Collides(db, s)
    requires supersedes.Some? ==>
      && supersedes.value in db.reservations
      && var prior := db.reservations[supersedes.value];
         && LaterVersion(prior, s) && prior.organisation == s.organisation && prior.submittedBy == s.actor
         && prior.status == Released
         && forall id :: id in db.reservations ==> db.reservations[id].supersedes != supersedes
    ensures OneActive(db.reservations[ResId(s.organisation, s.key) := NewReservation(s, supersedes)])
    ensures Lineage(db.reservations[ResId(s.organisation, s.key) := NewReservation(s, supersedes)])
  {
    var id := ResId(s.organisation, s.key);
    var rs := db.reservations[id := NewReservation(s, supersedes)];
    forall i, j | i in rs && j in rs && i != j ensures !Competes(rs[i], rs[j]) {
      if i == id {
        assert !SamePurchase(db.reservations[j], s);
      } else if j == id {
        assert !SamePurchase(db.reservations[i], s);
      }
    }
    forall i | i in rs ensures Succeeds(rs, i) {
      if i != id {
        assert Succeeds(db.reservations, i);
      }
    }
  }

  /** Closing an ACTIVE reservation or moving its hold revision. */
  lemma UpdatedRow(rs: map<ResId, Reservation>, id: ResId, r: Reservation)
    requires OneActive(rs) && Lineage(rs)
    requires id in rs && rs[id].status == Active && SameBinding(rs[id], r)
    ensures OneActive(rs[id := r]) && Lineage(rs[id := r])
  {
    var rs1 := rs[id := r];
    forall i, j | i in rs1 && j in rs1 && i != j ensures !Competes(rs1[i], rs1[j]) {
      assert !Competes(rs[i], rs[j]);
    }
    forall i | i in rs1 ensures Succeeds(rs1, i) {
      assert Succeeds(rs, i);
    }
  }

  lemma AppliesInPeriod(p: Policy, r: Reservation, clk: Clock)
    requires CalendarOk(clk) && PolicyOk(p) && Applies(p, r, clk.now)
    ensures PeriodOf(p, clk).startsAt <= clk.now < PeriodOf(p, clk).endsAt
  {
  }
}
