/** The accounting identities every ledger entry keeps. */
module SpendBooks {
  import opened Wrappers
  import opened Sums
  import opened SpendTypes
  import opened SpendLedger

  // ----- Totals -----

  function Reserved(db: Db, slot: Slot): int {
    if slot in db.balances then db.balances[slot].reserved else 0
  }

  function SpentTotal(db: Db, slot: Slot): int {
    if slot in db.balances then db.balances[slot].committed else 0
  }

  function ReservedBy(db: Db, id: ResId, slot: Slot): int {
    if HoldKey(id, slot) in db.holds then db.holds[HoldKey(id, slot)].reserved else 0
  }

  function CommittedBy(db: Db, id: ResId, slot: Slot): int {
    if HoldKey(id, slot) in db.holds then db.holds[HoldKey(id, slot)].committed else 0
  }

  /** What all holds together reserve in one budget period. */
  ghost function HeldAt(db: Db, slot: Slot): int {
    Total(HoldColumn(db, slot))
  }

  ghost function HoldColumn(db: Db, slot: Slot): map<HoldKey, int> {
    map hk | hk in db.holds && hk.slot == slot :: db.holds[hk].reserved
  }

  predicate Concerns(e: Entry, slot: Slot) {
    e.policy == slot.policy && e.period == Some(slot.period)
  }

  /** What an entry does to the reserved total of its budget period. */
  function Signed(e: Entry): int {
    if e.kind.ReserveEntry? then e.amount else -e.amount
  }

  function Spends(e: Entry): int {
    if e.kind.CommitEntry? then e.amount else 0
  }

  /** The reserved total that the append-only ledger alone accounts for. */
  ghost function LedgerReserved(db: Db, slot: Slot): int {
    Total(ReserveColumn(db.entries, slot))
  }

  ghost function ReserveColumn(entries: map<EntryKey, Entry>, slot: Slot): map<EntryKey, int> {
    map k | k in entries && Concerns(entries[k], slot) :: Signed(entries[k])
  }

  /** The sum of the COMMIT entries. */
  ghost function LedgerCommitted(db: Db, slot: Slot): int {
    Total(SpendColumn(db.entries, slot))
  }

  ghost function SpendColumn(entries: map<EntryKey, Entry>, slot: Slot): map<EntryKey, int> {
    map k | k in entries && Concerns(entries[k], slot) :: Spends(entries[k])
  }

  // ----- The identities -----

  /** Balance, holds and ledger tell one story for a budget period. */
  ghost predicate Agrees(db: Db, slot: Slot) {
    && Reserved(db, slot) == HeldAt(db, slot)
    && Reserved(db, slot) == LedgerReserved(db, slot)
    && SpentTotal(db, slot) == LedgerCommitted(db, slot)
  }

  ghost predicate EntryOk(db: Db, k: EntryKey)
    requires k in db.entries
  {
    var e := db.entries[k];
    && e.key == k && e.period.Some? && e.amount > 0
    && e.policy in db.policies && e.reservation in db.reservations
    && (e.kind.ReserveEntry? ==> e.revision <= db.policies[e.policy].revision)
  }

  /** Once a reservation is admitted at a revision, the limit holds until the next revision. */
  ghost predicate WithinLimit(db: Db, e: Entry) {
    e.kind.ReserveEntry? && e.period.Some? && e.policy in db.policies
    && e.revision == db.policies[e.policy].revision ==>
      var slot := Slot(e.policy, e.period.value);
      SpentTotal(db, slot) + Reserved(db, slot) <= db.policies[e.policy].limit
  }

  ghost predicate HoldOk(db: Db, hk: HoldKey)
    requires hk in db.holds
  {
    && hk.reservation in db.reservations && hk.slot.policy in db.policies
    && InScope(db.policies[hk.slot.policy], db.reservations[hk.reservation])
    && hk.slot in db.balances
    && db.holds[hk].revision <= db.policies[hk.slot.policy].revision
    && 0 <= db.holds[hk].reserved && 0 <= db.holds[hk].committed
  }

  ghost predicate BalanceOk(db: Db, slot: Slot)
    requires slot in db.balances
  {
    slot.policy in db.policies && 0 <= db.balances[slot].reserved && 0 <= db.balances[slot].committed
  }

  ghost predicate Books(db: Db) {
    && (forall slot: Slot :: Agrees(db, slot))
    && (forall k :: k in db.entries ==> EntryOk(db, k))
    && (forall k :: k in db.entries ==> WithinLimit(db, db.entries[k]))
    && (forall hk :: hk in db.holds ==> HoldOk(db, hk))
    && (forall slot :: slot in db.balances ==> BalanceOk(db, slot))
  }

  // ----- One entry keeps them -----

  /** The trigger moves balance and hold by the same amounts. */
  lemma JudgeMoves(db: Db, e: Entry, clk: Clock)
    requires Judge(db, e, clk).Success?
    ensures e.policy in db.policies && e.reservation in db.reservations
    ensures InScope(db.policies[e.policy], db.reservations[e.reservation])
    ensures var rows := Judge(db, e, clk).value;
            && rows.slot.policy == e.policy
            && rows.balance.reserved == Reserved(db, rows.slot) + Signed(e)
            && rows.hold.reserved == ReservedBy(db, e.reservation, rows.slot) + Signed(e)
            && rows.balance.committed == SpentTotal(db, rows.slot) + Spends(e)
            && rows.hold.committed == CommittedBy(db, e.reservation, rows.slot) + Spends(e)
  {
  }

  lemma JudgeLimits(db: Db, e: Entry, clk: Clock)
    requires Judge(db, e, clk).Success?
    ensures var rows, p := Judge(db, e, clk).value, db.policies[e.policy];
            && (e.kind.ReserveEntry? ==>
                  e.revision == p.revision && rows.hold.revision == p.revision
                  && rows.balance.committed + rows.balance.reserved <= p.limit)
            && (HoldKey(e.reservation, rows.slot) in db.holds && rows.hold.revision != p.revision ==>
                  rows.hold.revision == db.holds[HoldKey(e.reservation, rows.slot)].revision)
            && (HoldKey(e.reservation, rows.slot) !in db.holds ==> rows.hold.revision == p.revision)
  {
  }

  lemma HeldAfter(db: Db, e: Entry, rows: Rows, slot: Slot)
    ensures HeldAt(Post(db, e, rows), slot) ==
            HeldAt(db, slot)
            + if slot == rows.slot then rows.hold.reserved - ReservedBy(db, e.reservation, slot) else 0
  {
    var hk, after := HoldKey(e.reservation, rows.slot), Post(db, e, rows);
    if slot == rows.slot {
      TotalUpdate(HoldColumn(db, slot), hk, rows.hold.reserved);
      assert HoldColumn(after, slot) == HoldColumn(db, slot)[hk := rows.hold.reserved];
    } else {
      assert HoldColumn(after, slot) == HoldColumn(db, slot);
    }
  }

  lemma LedgerAfter(db: Db, e: Entry, rows: Rows, slot: Slot)
    requires e.key !in db.entries && rows.slot.policy == e.policy
    ensures LedgerReserved(Post(db, e, rows), slot) ==
            LedgerReserved(db, slot) + if slot == rows.slot then Signed(e) else 0
    ensures LedgerCommitted(Post(db, e, rows), slot) ==
            LedgerCommitted(db, slot) + if slot == rows.slot then Spends(e) else 0
  {
    var posted := e.(period := Some(rows.slot.period));
    var entries := db.entries[e.key := posted];
    if slot == rows.slot {
      TotalUpdate(ReserveColumn(db.entries, slot), e.key, Signed(e));
      TotalUpdate(SpendColumn(db.entries, slot), e.key, Spends(e));
      assert ReserveColumn(entries, slot) == ReserveColumn(db.entries, slot)[e.key := Signed(e)];
      assert SpendColumn(entries, slot) == SpendColumn(db.entries, slot)[e.key := Spends(e)];
    } else {
      assert ReserveColumn(entries, slot) == ReserveColumn(db.entries, slot);
      assert SpendColumn(entries, slot) == SpendColumn(db.entries, slot);
    }
  }

  lemma AgreementKept(db: Db, e: Entry, clk: Clock, slot: Slot)
    requires Agrees(db, slot)
    requires Judge(db, e, clk).Success? && e.key !in db.entries
    ensures Agrees(Post(db, e, Judge(db, e, clk).value), slot)
  {
    JudgeMoves(db, e, clk);
    var rows := Judge(db, e, clk).value;
    HeldAfter(db, e, rows, slot);
    LedgerAfter(db, e, rows, slot);
  }

  lemma BooksKept(db: Db, e: Entry, clk: Clock)
    requires Books(db) && ApplyEntry(db, e, clk).Success?
    ensures Books(ApplyEntry(db, e, clk).value)
  {
    var rows, after := Judge(db, e, clk).value, ApplyEntry(db, e, clk).value;
    JudgeMoves(db, e, clk);
    JudgeLimits(db, e, clk);
    forall slot: Slot ensures Agrees(after, slot) {
      AgreementKept(db, e, clk, slot);
    }
    forall k | k in after.entries ensures EntryOk(after, k) && WithinLimit(after, after.entries[k]) {
      if k != e.key {
        assert EntryOk(db, k) && WithinLimit(db, db.entries[k]);
      }
    }
    forall hk | hk in after.holds ensures HoldOk(after, hk) {
      if hk != HoldKey(e.reservation, rows.slot) {
        assert HoldOk(db, hk);
      } else if hk in db.holds {
        assert HoldOk(db, hk);
      }
    }
    forall slot | slot in after.balances ensures BalanceOk(after, slot) {
      if slot != rows.slot {
        assert BalanceOk(db, slot);
      }
    }
  }

  lemma {:induction false} BooksKeptAll(db: Db, es: seq<Entry>, clk: Clock)
    requires Books(db) && ApplyAll(db, es, clk).Success?
    ensures Books(ApplyAll(db, es, clk).value)
    decreases |es|
  {
    if es != [] {
      BooksKept(db, es[0], clk);
      BooksKeptAll(ApplyEntry(db, es[0], clk).value, es[1..], clk);
    }
  }

  /** A hold is never more than the balance that contains it. */
  lemma HoldWithinBalance(db: Db, hk: HoldKey)
    requires Books(db) && hk in db.holds
    ensures db.holds[hk].reserved <= Reserved(db, hk.slot)
  {
    assert Agrees(db, hk.slot);
    forall h | h in HoldColumn(db, hk.slot) ensures HoldColumn(db, hk.slot)[h] >= 0 {
      assert HoldOk(db, h);
    }
    TotalNonNegative(HoldColumn(db, hk.slot));
    assert hk in HoldColumn(db, hk.slot);
  }
}
