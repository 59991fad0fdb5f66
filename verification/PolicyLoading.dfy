/** What the policy's loader makes of stored rows, column by column. */
module PolicyLoading {
  import opened Wrappers
  import opened Numerals
  import opened SpendTypes
  import opened SpendCommands
  import opened SpendKeeps
  import opened BuyerPolicy
  import opened PolicyLedger
  import opened PolicyDivergence

  // ----- Amounts -----

  /** A stored amount that can be read: not negative, of at most 31 digits. */
  predicate Readable(amount: int) {
    0 <= amount < 10_000_000_000_000_000_000_000_000_000_000
  }

  lemma ThirtyOneDigits()
    ensures Pow10(31) == 10_000_000_000_000_000_000_000_000_000_000
  {
    assert Pow10(8) == 100_000_000;
    assert Pow10(16) == 100_000_000 * 100_000_000;
    assert Pow10(24) == 10_000_000_000_000_000 * 100_000_000;
  }

  lemma LoadedIs(amount: int)
    ensures Loaded(amount) == if Readable(amount) then Some(amount) else None
  {
    hide Pow10;
    ThirtyOneDigits();
    StoredAmountsRead(amount);
  }

  /** Money as any of the forms a store returns: a text is read as a numeral, a number as its text if it is safe. */
  lemma MoneyRead(n: int)
    ensures ToMinorUnits(NoAmount) == NullAmount && ToMinorUnits(BigInteger(n)) == Amount(n) && ToMinorUnits(Number(None)) == Malformed
    ensures -10_000_000_000_000_000_000_000_000_000_000 < n < 10_000_000_000_000_000_000_000_000_000_000 ==>
      ToMinorUnits(Number(Some(n))) == Amount(n) && ToMinorUnits(Text(PrintInt(n))) == Amount(n) && ToMinorUnits(Wrapped(PrintInt(n))) == Amount(n)
    ensures !(-10_000_000_000_000_000_000_000_000_000_000 < n < 10_000_000_000_000_000_000_000_000_000_000) ==>
      ToMinorUnits(Number(Some(n))) == Malformed && ToMinorUnits(Text(PrintInt(n))) == Malformed && ToMinorUnits(Wrapped(PrintInt(n))) == Malformed
  {
    hide Pow10, ReadMinorText, PrintInt;
    ThirtyOneDigits();
    MinorUnitsReadNumerals(PrintInt(n), n);
    var read := ReadMinorText(PrintInt(n));
    PrintIntInjective(n, n);
    if read.Amount? {
      MinorUnitsReadNumerals(PrintInt(n), read.value);
      PrintIntInjective(n, read.value);
    }
    Unnull(PrintInt(n));
  }

  lemma Unnull(text: string)
    ensures !ReadMinorText(text).NullAmount?
  {
  }

  // ----- Budgets -----

  /** A balance row of the budget whose stored bounds contain the instant. */
  predicate Covering(db: Db, id: PolicyId, slot: Slot, now: Instant) {
    slot in db.balances && slot.policy == id && slot.period <= now && now < db.balances[slot].endsAt
  }

  /** The budget or one of its rows cannot be read. */
  ghost predicate Unreadable(db: Db, id: PolicyId, now: Instant)
    requires id in db.policies
  {
    || !Readable(db.policies[id].limit) || db.policies[id].limit < 1 || db.policies[id].revision < 1
    || (exists slot :: slot in db.balances && slot.policy == id && db.balances[slot].endsAt <= slot.period)
    || (exists s, t :: Covering(db, id, s, now) && Covering(db, id, t, now) && s != t)
    || (exists slot :: Covering(db, id, slot, now) && !(Readable(db.balances[slot].committed) && Readable(db.balances[slot].reserved)))
  }

  ghost predicate IsFact(db: Db, id: PolicyId, now: Instant, b: BudgetFact)
    requires id in db.policies
  {
    var p := db.policies[id];
    && (b.policy, b.revision, b.status, b.scope, b.market, b.currency) == (id, p.revision, p.status, p.scope, p.market, p.currency)
    && (b.limit, b.from, b.until) == (p.limit, p.from, p.until)
    && (forall slot :: Covering(db, id, slot, now) ==>
          && b.period == Some(Period(slot.period, db.balances[slot].endsAt))
          && (b.committed, b.reserved) == (db.balances[slot].committed, db.balances[slot].reserved))
    && ((forall slot :: !Covering(db, id, slot, now)) ==> b.period == None && (b.committed, b.reserved) == (0, 0))
  }

  /** The rows that cover the instant: none, one, or two different ones. */
  lemma CoveringRows(db: Db, id: PolicyId, now: Instant)
    ensures var current := CurrentRows(db, id, now);
            && (|current| == 0 <==> forall slot :: !Covering(db, id, slot, now))
            && (|current| == 1 <==> exists slot :: current == {slot} && Covering(db, id, slot, now))
            && (|current| > 1 <==> exists s, t :: Covering(db, id, s, now) && Covering(db, id, t, now) && s != t)
            && forall slot :: slot in current <==> Covering(db, id, slot, now)
  {
    hide Covering;
    var current := CurrentRows(db, id, now);
    forall slot ensures slot in current <==> Covering(db, id, slot, now) {
      RowCovers(db, id, now, slot);
    }
    CountedRows(current);
    if |current| > 1 {
      var s :| s in current;
      assert |current - {s}| >= 1;
      var t :| t in current - {s};
      assert Covering(db, id, s, now) && Covering(db, id, t, now);
    }
    if s, t :| Covering(db, id, s, now) && Covering(db, id, t, now) && s != t {
      assert {s, t} <= current && |{s, t}| == 2;
      assert |current - {s, t}| == |current| - 2;
    }
  }

  lemma RowCovers(db: Db, id: PolicyId, now: Instant, slot: Slot)
    ensures slot in CurrentRows(db, id, now) <==> Covering(db, id, slot, now)
  {
  }

  /** A budget is loaded with exactly these columns, or is unreadable. */
  lemma BudgetLoads(db: Db, id: PolicyId, now: Instant)
    requires id in db.policies
    ensures match ToBudget(db, id, now)
            case None => Unreadable(db, id, now)
            case Some(b) => !Unreadable(db, id, now) && IsFact(db, id, now, b)
  {
    hide Loaded, CurrentRows, Covering, Readable;
    var current := CurrentRows(db, id, now);
    CoveringRows(db, id, now);
    LoadedIs(db.policies[id].limit);
    ReadablePositive(db.policies[id].limit);
    if |current| == 1 {
      var slot :| current == {slot} && Covering(db, id, slot, now);
      SlotsOne(current, slot);
      CoversRow(db, id, slot, now);
      LoadedIs(db.balances[slot].committed);
      LoadedIs(db.balances[slot].reserved);
      assert forall other :: Covering(db, id, other, now) <==> other == slot;
    }
  }

  lemma CoversRow(db: Db, id: PolicyId, slot: Slot, now: Instant)
    requires Covering(db, id, slot, now)
    ensures slot in db.balances
  {
  }

  lemma ReadablePositive(amount: int)
    ensures Readable(amount) ==> amount >= 0
  {
  }

  /** One fact for each budget of the Organisation. */
  ghost predicate FactsFor(db: Db, organisation: Id, now: Instant, facts: seq<BudgetFact>) {
    && (forall b :: b in facts ==> b.policy in db.policies && db.policies[b.policy].organisation == organisation && IsFact(db, b.policy, now, b))
    && (forall id :: id in db.policies && db.policies[id].organisation == organisation ==> exists b :: b in facts && b.policy == id)
    && (forall i, j :: 0 <= i < j < |facts| ==> facts[i].policy != facts[j].policy)
  }

  /** One unreadable budget makes all of its Organisation's unavailable; otherwise they are listed once each. */
  lemma BudgetsLoad(db: Db, organisation: Id, now: Instant)
    ensures match LoadBudgets(db, organisation, now)
            case Unavailable => exists id :: id in db.policies && db.policies[id].organisation == organisation && Unreadable(db, id, now)
            case Read(facts) =>
              && (forall id :: id in db.policies && db.policies[id].organisation == organisation ==> !Unreadable(db, id, now))
              && FactsFor(db, organisation, now, facts)
  {
    hide ToBudget, Unreadable, FactsFor, FactsOf;
    var ids := InOrder(BudgetsOwned(db, organisation));
    forall id | id in db.policies ensures ToBudget(db, id, now).None? <==> Unreadable(db, id, now) {
      BudgetLoads(db, id, now);
    }
    if forall id :: id in ids ==> ToBudget(db, id, now).Some? {
      FactsAre(db, organisation, ids, now);
    }
  }

  lemma FactsAre(db: Db, organisation: Id, ids: seq<PolicyId>, now: Instant)
    requires forall id :: id in ids ==> id in db.policies && ToBudget(db, id, now).Some?
    requires forall id :: id in ids <==> id in BudgetsOwned(db, organisation)
    requires forall i, j :: 0 <= i < j < |ids| ==> ids[i] != ids[j]
    ensures FactsFor(db, organisation, now, FactsOf(db, ids, now))
  {
    hide ToBudget, IsFact, Unreadable, FactsOf;
    FactsListed(db, ids, now);
    var facts := FactsOf(db, ids, now);
    forall i | 0 <= i < |ids| ensures facts[i].policy == ids[i] && IsFact(db, ids[i], now, facts[i]) {
      BudgetNames(db, ids[i], now);
      BudgetLoads(db, ids[i], now);
    }
    forall id | id in db.policies && db.policies[id].organisation == organisation ensures exists b :: b in facts && b.policy == id {
      assert id in ids;
      var i :| 0 <= i < |ids| && ids[i] == id;
      assert facts[i] in facts;
    }
    forall b | b in facts
      ensures b.policy in db.policies && db.policies[b.policy].organisation == organisation && IsFact(db, b.policy, now, b)
    {
      var i :| 0 <= i < |facts| && facts[i] == b;
      assert ids[i] in ids;
    }
  }

  lemma {:induction false} FactsListed(db: Db, ids: seq<PolicyId>, now: Instant)
    requires forall id :: id in ids ==> id in db.policies && ToBudget(db, id, now).Some?
    ensures |FactsOf(db, ids, now)| == |ids|
    ensures forall i :: 0 <= i < |ids| ==> Some(FactsOf(db, ids, now)[i]) == ToBudget(db, ids[i], now)
    decreases |ids|
  {
    hide ToBudget;
    if ids != [] {
      FactsListed(db, ids[1..], now);
    }
  }

  // ----- Reservations -----

  /** A reservation is loaded with its binding and one fact for each of its holds, in their order. */
  lemma ReservationLoads(db: Db, id: ResId)
    requires id in db.reservations
    ensures var r, f := db.reservations[id], ToReservation(db, id);
            && (f.status, f.membership, f.market, f.currency, f.agreement) == (r.status, r.membership, r.market, r.currency, r.agreement)
            && (f.digest, f.version, f.expiresAt) == (r.digest, PrintInt(r.version), r.expiresAt)
            && (forall h :: h in f.holds ==>
                  var hk := HoldKey(id, Slot(h.policy, h.periodStartsAt));
                  hk in db.holds && (h.revision, h.reserved) == (db.holds[hk].revision, db.holds[hk].reserved))
            && (forall hk :: hk in db.holds && hk.reservation == id ==>
                  exists i :: 0 <= i < |f.holds| && (f.holds[i].policy, f.holds[i].periodStartsAt) == (hk.slot.policy, hk.slot.period))
  {
    hide HeldSlots, HoldFacts;
    HeldListing(db, id);
    var slots := HeldSlots(db, id);
    HoldsListed(db, id, slots);
    forall hk | hk in db.holds && hk.reservation == id
      ensures exists i :: 0 <= i < |slots|
                && (HoldFacts(db, id, slots)[i].policy, HoldFacts(db, id, slots)[i].periodStartsAt) == (hk.slot.policy, hk.slot.period)
    {
      assert hk == HoldKey(id, hk.slot) && hk.slot in slots;
      var i :| 0 <= i < |slots| && slots[i] == hk.slot;
    }
  }

  lemma {:induction false} HoldsListed(db: Db, id: ResId, slots: seq<Slot>)
    requires forall slot :: slot in slots ==> HoldKey(id, slot) in db.holds
    ensures |HoldFacts(db, id, slots)| == |slots|
    ensures forall i :: 0 <= i < |slots| ==>
      var hold := db.holds[HoldKey(id, slots[i])];
      HoldFacts(db, id, slots)[i] == HoldFact(slots[i].policy, hold.revision, slots[i].period, hold.reserved)
    decreases |slots|
  {
    if slots != [] {
      HoldsListed(db, id, slots[1..]);
    }
  }
}
