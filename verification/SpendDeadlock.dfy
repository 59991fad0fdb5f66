/** A reachable pair of rollovers that deadlock on balance rows, though both go through budgets in order. */
module SpendDeadlock {
  import opened Wrappers
  import opened Sorting
  import opened LockOrder
  import opened SpendTypes
  import opened SpendCommands
  import opened SpendBooks
  import opened SpendEffects
  import opened SpendInvariants
  import opened SpendKeeps
  import opened SpendRuns
  import opened SpendAdmission
  import opened SpendExample
  import opened SpendWrites
  import opened SpendLocks
  import opened SpendReach

  lemma {:induction false} ReleasesOne(db: Db, id: ResId, slots: seq<Slot>, why: Why, command: Id, actor: Id, slot: Slot)
    requires AllHeld(db, id, slots) && Distinct(slots) && HoldKey(id, slot) in db.holds
    requires forall s :: s in slots ==> (MustRelease(db, id, s, why) <==> s == slot)
    ensures Releases(db, id, slots, why, command, actor)
         == if slot in slots then [ReleaseOf(db, id, slot, why, command, actor)] else []
    decreases |slots|
  {
    hide MustRelease;
    if slots != [] {
      assert slots[0] in slots && slots[0] !in slots[1..];
      ReleasesOne(db, id, slots[1..], why, command, actor, slot);
    }
  }

  /** A rollover that passes its guards, of a purchase with one budget whose one live hold is not in the current period. */
  ghost predicate HeldElsewhere(db: Db, roll: Command, clk: Clock, p: PolicyId, held: Slot) {
    && roll.Rollover? && Started(db, roll, clk) && Proceeds(db, roll, clk) && CalendarOk(clk)
    && p in db.policies && db.reservations[roll.reservation].amount > 0
    && ApplicablePolicies(db, db.reservations[roll.reservation], clk.now) == Success([p])
    && held.policy == p && held != CurrentSlot(db, p, clk)
    && (forall slot: Slot :: ReservedBy(db, roll.reservation, slot) != 0 <==> slot == held)
  }

  /** It returns the hold and then reserves. */
  lemma RolloverWrites(db: Db, roll: Command, clk: Clock, p: PolicyId, held: Slot) returns (x: Entry, y: Entry)
    requires HeldElsewhere(db, roll, clk, p, held)
    ensures Writes(db, roll, clk) == [x, y] && x.period.Some? && y.period.None? && y.policy == p
    ensures RowOf(db, x, clk) == held && RowOf(db, y, clk) == CurrentSlot(db, p, clk)
    ensures ReservesAgain(db, roll, p, clk) && forall q :: ReservesAgain(db, roll, q, clk) ==> q == p
  {
    hide ApplicablePolicies, HeldSlots, Releases, Reserves, Sort, ArgumentsOk;
    var id, why, amount := roll.reservation, StaleHolds([p], clk), db.reservations[roll.reservation].amount;
    HeldListing(db, id);
    assert ReservedBy(db, id, held) != 0;
    x := ReleaseOf(db, id, held, why, roll.key, roll.actor);
    y := ReserveOf(db, id, p, amount, RolloverStep, roll.key, roll.actor);
    forall s | s in HeldSlots(db, id) ensures MustRelease(db, id, s, why) <==> s == held {
      assert ReservedBy(db, id, s) != 0 <==> s == held;
    }
    ReleasesOne(db, id, HeldSlots(db, id), why, roll.key, roll.actor, held);
    NotHeldNow(db, roll, clk, p, held);
    ReservesOne(db, id, p, amount, clk, roll.key, roll.actor);
    BothInOrder(x, y);
  }

  /** So it locks the row it releases, and then the current one, whether there is room there or not. */
  lemma RolloverRows(db: Db, roll: Command, clk: Clock, p: PolicyId, held: Slot)
    requires Inv(db) && HeldElsewhere(db, roll, clk, p, held)
    ensures LocksOf(db, roll, clk)
         == [KeyLock(roll.key), ReservationLock(roll.reservation), BalanceLock(held), BalanceLock(CurrentSlot(db, p, clk))]
  {
    hide Inv, Writes, RowOf, ReservesAgain, AskedFor, Proceeds, ArgumentsOk, ApplicablePolicies;
    var x, y := RolloverWrites(db, roll, clk, p, held);
    OneBudgetReached(db, roll, clk, p);
    AsksNowIff(db, roll, p, clk);
    var asked := AskedFor(db, roll, clk);
    var e :| e in asked && e.period.None?;
    assert asked == [x, y];
    RowsOfTwo(db, x, y, clk);
    RollsOwn(db, roll, clk);
  }

  lemma OneBudgetReached(db: Db, roll: Command, clk: Clock, p: PolicyId)
    requires Started(db, roll, clk) && Proceeds(db, roll, clk) && forall q :: ReservesAgain(db, roll, q, clk) ==> q == p
    ensures Reaches(db, roll, p, clk)
  {
    hide Started, Proceeds, ReservesAgain;
    OrderIsStrict(p, p);
  }

  lemma RollsOwn(db: Db, roll: Command, clk: Clock)
    requires roll.Rollover? && Proceeds(db, roll, clk)
    ensures Finds(db, roll)
  {
  }

  lemma NotHeldNow(db: Db, roll: Command, clk: Clock, p: PolicyId, held: Slot)
    requires HeldElsewhere(db, roll, clk, p, held)
    ensures CurrentlyReserved(db, roll.reservation, p, clk) == 0
  {
    hide ArgumentsOk, Proceeds;
    assert ReservedBy(db, roll.reservation, CurrentSlot(db, p, clk)) == 0;
  }

  lemma ReservesOne(db: Db, id: ResId, p: PolicyId, amount: int, clk: Clock, key: Id, actor: Id)
    requires p in db.policies && CurrentlyReserved(db, id, p, clk) == 0 && amount > 0
    ensures RolloverReserves(db, id, [p], amount, key, actor, clk) == [ReserveOf(db, id, p, amount, RolloverStep, key, actor)]
  {
    hide CurrentlyReserved;
    assert [p][1..] == [];
    assert Reserves(db, id, [], amount, true, clk, RolloverStep, key, actor) == [];
    assert AmountToReserve(db, id, p, amount, true, clk) == amount;
  }

  lemma BothInOrder(x: Entry, y: Entry)
    requires x.policy == y.policy
    ensures InPolicyOrder([x], [y]) == [x, y]
  {
    var ids := BudgetsOf([x]) + BudgetsOf([y]);
    assert x in [x];
    assert ids == {x.policy};
    OnlyOne(ids, x.policy);
    assert ForPolicy([x], x.policy) == [x] && ForPolicy([y], x.policy) == [y];
    assert [x.policy][1..] == [];
    assert Interleave([], [x], [y]) == [];
  }

  lemma RowsOfTwo(db: Db, x: Entry, y: Entry, clk: Clock)
    ensures RowsOf(db, [x, y], clk) == [RowOf(db, x, clk), RowOf(db, y, clk)]
  {
    hide RowOf;
  }

  /**
   Two rollovers in one budget that pass their guards deadlock when each releases in the period
   the other reserves in, which takes two transactions on either side of a period's end.
   */
  lemma OppositeRolloversDeadlock(db: Db, a: Command, b: Command, clkA: Clock, clkB: Clock, p: PolicyId, x: Slot, y: Slot)
    requires Inv(db) && HeldElsewhere(db, a, clkA, p, x) && HeldElsewhere(db, b, clkB, p, y)
    requires CurrentSlot(db, p, clkA) == y && CurrentSlot(db, p, clkB) == x && x != y
    ensures Deadlocked(Txns([Running(db, a, clkA, 3), Running(db, b, clkB, 3)]))
    ensures a.key != b.key ==> MayDeadlock(LocksOf(db, a, clkA), LocksOf(db, b, clkB))
  {
    hide Inv, HeldElsewhere, LocksOf, WaitsFor, MayDeadlock;
    RolloverRows(db, a, clkA, p, x);
    RolloverRows(db, b, clkB, p, y);
    var t, u := Running(db, a, clkA, 3), Running(db, b, clkB, 3);
    var ring := Txns([t, u]);
    assert ring[0] == t.Txn() && ring[1] == u.Txn();
    Crossed(t.Txn(), u.Txn(), BalanceLock(x), BalanceLock(y));
    Crossed(u.Txn(), t.Txn(), BalanceLock(y), BalanceLock(x));
    HeldInOne(db, a, clkA, b, clkB, p, x, y);
    if a.key != b.key {
      RowsCross(LocksOf(db, a, clkA), LocksOf(db, b, clkB), x, y);
    }
  }

  lemma HeldInOne(db: Db, a: Command, clkA: Clock, b: Command, clkB: Clock, p: PolicyId, x: Slot, y: Slot)
    requires HeldElsewhere(db, a, clkA, p, x) && HeldElsewhere(db, b, clkB, p, y) && x != y
    ensures a.Rollover? && b.Rollover? && a.reservation != b.reservation
  {
    hide ArgumentsOk, Proceeds;
    assert ReservedBy(db, a.reservation, x) != 0;
  }

  lemma RowsCross(locks: seq<Lock>, others: seq<Lock>, x: Slot, y: Slot)
    requires |locks| == 4 && |others| == 4 && locks[2..] == [BalanceLock(x), BalanceLock(y)] && others[2..] == [BalanceLock(y), BalanceLock(x)]
    requires locks[0].KeyLock? && others[0].KeyLock? && locks[1].ReservationLock? && others[1].ReservationLock?
    requires locks[0] != others[0] && locks[1] != others[1] && x != y
    ensures MayDeadlock(locks, others)
  {
    assert locks[2..][0] == locks[2] && locks[2..][1] == locks[3] && others[2..][0] == others[2] && others[2..][1] == others[3];
    assert locks[..3][2] == BalanceLock(x) && others[..3][2] == BalanceLock(y);
    assert CrossAt(locks, others, 3, 3);
    DeadlockIsCrossing(locks, others);
  }

  lemma Crossed(t: Txn<Lock>, u: Txn<Lock>, x: Lock, y: Lock)
    requires |t.wants| == 4 && t.got == 3 && t.wants[0].KeyLock? && t.wants[1].ReservationLock? && t.wants[2] == x && t.wants[3] == y
    requires |u.wants| == 4 && u.got == 3 && u.wants[2] == y
    requires x.BalanceLock? && y.BalanceLock? && x != y
    ensures WaitsFor(t, u)
  {
    assert u.wants[2] == t.wants[3];
  }

  // ----- Such a pair is reachable -----

  function Renew(c: char): Command {
    Rollover(seq(16, _ => '0') + [c], "o1", Reservation1(c), "buyer")
  }

  /** One purchase was submitted after the period's end and one before it; each transaction reads its own start. */
  function History(): seq<Event> {
    [AddPolicy(BUDGET, LIMITED), SetMembers(map["m1" := BUYER]), Do(Submit(Purchase('a')), AFTER), Do(Submit(Purchase('b')), BEFORE)]
  }

  /** After the two submissions each holds in the period the other's clock calls current. */
  ghost predicate BothHeld(db: Db) {
    && OneBudget(db) && Renew('a').key !in db.commands && Renew('b').key !in db.commands
    && HeldAlone(db, 'a', Slot(BUDGET, 1000)) && HeldAlone(db, 'b', Slot(BUDGET, 0))
    && (forall slot: Slot :: SpentTotal(db, slot) == 0)
  }

  /** The purchase is ACTIVE and is all that the period holds, and holds nothing elsewhere. */
  ghost predicate HeldAlone(db: Db, c: char, held: Slot) {
    var id := Reservation1(c);
    && id in db.reservations && db.reservations[id] == NewReservation(Purchase(c), None)
    && (forall slot: Slot :: ReservedBy(db, id, slot) == if slot == held then 10 else 0)
    && (forall other :: other != id ==> ReservedBy(db, other, held) == 0)
  }

  lemma HistoryHolds() returns (db: Db)
    ensures db == Play(EMPTY, History()) && BothHeld(db)
  {
    hide Inv, Submitted, Collides, Available, BothHeld;
    Opens();
    var db3 := FirstTaken();
    OtherPurchase(db3);
    db := Takes(db3, 'b', BEFORE);
    HistoryPlays(db3, db);
    SecondHeld(db3, db);
  }

  lemma HistoryPlays(db3: Db, db: Db)
    requires Play(EMPTY, [AddPolicy(BUDGET, LIMITED), SetMembers(map["m1" := BUYER])]) == Opened()
    requires db3 == StepDb(Opened(), Do(Submit(Purchase('a')), AFTER)) && db == StepDb(db3, Do(Submit(Purchase('b')), BEFORE))
    ensures Play(EMPTY, History()) == db
  {
    hide StepDb;
    var x, y := [AddPolicy(BUDGET, LIMITED), SetMembers(map["m1" := BUYER])],
                [Do(Submit(Purchase('a')), AFTER), Do(Submit(Purchase('b')), BEFORE)];
    assert History() == x + y;
    PlayAppend(EMPTY, x, y);
    assert y[1..] == [Do(Submit(Purchase('b')), BEFORE)] && y[1..][1..] == [];
    assert Play(db3, y[1..]) == db;
  }

  lemma SecondHeld(db3: Db, db: Db)
    requires OneBudget(db3) && OneBudget(db)
    requires Submitted(Opened(), db3, Purchase('a'), [BUDGET], AFTER) && Submitted(db3, db, Purchase('b'), [BUDGET], BEFORE)
    ensures BothHeld(db)
  {
    hide Inv;
    var a, b := Reservation1('a'), Reservation1('b');
    assert a.key[0] != b.key[0];
    assert |Renew('a').key| == 17 && |Renew('b').key| == 17 && |Purchase('a').key| == 16 && |Purchase('b').key| == 16;
    forall slot: Slot, id
      ensures ReservedBy(db, a, slot) == if slot == Slot(BUDGET, 1000) then 10 else 0
      ensures ReservedBy(db, b, slot) == if slot == Slot(BUDGET, 0) then 10 else 0
      ensures id != a && id != b ==> ReservedBy(db, id, slot) == 0
      ensures SpentTotal(db, slot) == 0
    {
      assert SameHold(db3, db, HoldKey(a, slot));
      assert ReservedBy(db3, a, slot) == Converted(Opened(), [BUDGET], 10, AFTER, slot);
      assert ReservedBy(db, b, slot) == Converted(db3, [BUDGET], 10, BEFORE, slot);
      assert id != b ==> SameHold(db3, db, HoldKey(id, slot));
      assert id != a ==> SameHold(Opened(), db3, HoldKey(id, slot));
      assert SpentTotal(db, slot) == SpentTotal(db3, slot) == SpentTotal(Opened(), slot);
    }
  }

  lemma RenewOk(c: char, clk: Clock)
    requires 'a' <= c <= 'f'
    ensures ArgumentsOk(Renew(c), clk.now)
  {
    var key := Renew(c).key;
    assert forall i :: 0 <= i < |key| ==> key[i] == '0' || key[i] == c;
  }

  /** Each rollover passes its guards and has room, and so applies when it runs alone. */
  lemma RenewsAlone(db: Db, c: char, clk: Clock, held: Slot, current: Slot, other: char)
    requires BothHeld(db) && (c == 'a' || c == 'b') && HeldAlone(db, c, held) && HeldAlone(db, other, current) && held != current
    requires (clk == BEFORE || clk == AFTER) && held.policy == BUDGET && current == CurrentSlot(db, BUDGET, clk)
    ensures HeldElsewhere(db, Renew(c), clk, BUDGET, held)
    ensures Run(db, Renew(c), clk).1.AppliedNow?
  {
    hide Inv, ApplicablePolicies, Run, ArgumentsOk;
    var id := Reservation1(c);
    PurchaseApplies(db, c, clk);
    RenewOk(c, clk);
    BooksOf(db);
    assert ReservedBy(db, Reservation1(other), current) == 10;
    OneReserved(db, Reservation1(other), current);
    assert ReservedBy(db, id, current) == 0 && SpentTotal(db, current) == 0;
    assert Available(db, BUDGET, clk) == 90;
    RolloverAnswered(db, Renew(c), clk);
  }

  lemma BooksOf(db: Db)
    requires Inv(db)
    ensures Books(db)
  {
  }

  /**
   A run after which each of two rollovers would apply alone, and both together deadlock
   on the two balance rows of one budget.
   */
  lemma DeadlockReachable()
    ensures var db := Play(EMPTY, History());
            && Deadlocked(Txns([Running(db, Renew('a'), BEFORE, 3), Running(db, Renew('b'), AFTER, 3)]))
            && MayDeadlock(LocksOf(db, Renew('a'), BEFORE), LocksOf(db, Renew('b'), AFTER))
            && Run(db, Renew('a'), BEFORE).1.AppliedNow? && Run(db, Renew('b'), AFTER).1.AppliedNow?
  {
    hide HeldElsewhere, Play, MayDeadlock, HeldAlone, Run, Inv;
    assert Renew('a').key[16] != Renew('b').key[16];
    var db := HistoryHolds();
    RenewsAlone(db, 'a', BEFORE, Slot(BUDGET, 1000), Slot(BUDGET, 0), 'b');
    RenewsAlone(db, 'b', AFTER, Slot(BUDGET, 0), Slot(BUDGET, 1000), 'a');
    OppositeRolloversDeadlock(db, Renew('a'), Renew('b'), BEFORE, AFTER, BUDGET, Slot(BUDGET, 1000), Slot(BUDGET, 0));
  }
}
