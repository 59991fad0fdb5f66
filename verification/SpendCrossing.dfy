/** Exactly when two commands of one state can deadlock. */
module SpendCrossing {
  import opened Wrappers
  import opened Text
  import opened LockOrder
  import opened SpendTypes
  import opened SpendCommands
  import opened SpendBooks
  import opened SpendInvariants
  import opened SpendWrites
  import opened SpendLocks
  import opened SpendReach

  /** In this budget each command moves a live hold out of the period that the other moves one into. */
  ghost predicate Opposed(db: Db, a: Command, clkA: Clock, b: Command, clkB: Clock, policy: PolicyId) {
    && policy in db.policies
    && MovesHold(db, a, CurrentSlot(db, policy, clkB), clkA) && MovesHold(db, b, CurrentSlot(db, policy, clkA), clkB)
  }

  /** Both lock some row of an earlier budget, so that one waits there for the end of the other. */
  ghost predicate ShareEarlier(db: Db, a: Command, clkA: Clock, b: Command, clkB: Clock, policy: PolicyId) {
    exists slot :: slot in RowsAsked(db, a, clkA) && slot in RowsAsked(db, b, clkB) && PolicyBefore(slot.policy, policy)
  }

  /** Each alone comes as far as this budget. */
  ghost predicate BothReach(db: Db, a: Command, clkA: Clock, b: Command, clkB: Clock, policy: PolicyId) {
    Reaches(db, a, policy, clkA) && Reaches(db, b, policy, clkB)
  }

  ghost predicate MayOppose(db: Db, a: Command, clkA: Clock, b: Command, clkB: Clock) {
    && a.IdempotencyKey() != b.IdempotencyKey()
    && exists policy :: Opposed(db, a, clkA, b, clkB, policy) && BothReach(db, a, clkA, b, clkB, policy)
                        && !ShareEarlier(db, a, clkA, b, clkB, policy)
  }

  /** The same told by the rows they ask for. */
  ghost predicate BothAsk(db: Db, a: Command, clkA: Clock, b: Command, clkB: Clock, policy: PolicyId) {
    AsksNow(db, a, policy, clkA) && AsksNow(db, b, policy, clkB)
  }

  ghost predicate MayCross(db: Db, a: Command, clkA: Clock, b: Command, clkB: Clock) {
    && a.IdempotencyKey() != b.IdempotencyKey()
    && exists policy :: Opposed(db, a, clkA, b, clkB, policy) && BothAsk(db, a, clkA, b, clkB, policy)
                        && !ShareEarlier(db, a, clkA, b, clkB, policy)
  }

  // ----- One command's rows in one budget -----

  lemma OneLive(db: Db, id: ResId, s: Slot, t: Slot)
    requires Inv(db) && LiveHold(db, id, s) && LiveHold(db, id, t) && s.policy == t.policy
    ensures s == t && id in db.reservations
  {
    hide Recorded;
    assert HoldOk(db, HoldKey(id, s));
    assert Settled(db, id);
    assert ReservedBy(db, id, s) != 0 && ReservedBy(db, id, t) != 0;
  }

  /** In one budget all releases are of one row, and all else is of the current one. */
  lemma OneRowEach(db: Db, cmd: Command, clk: Clock, x: Entry, y: Entry)
    requires Inv(db) && x.policy == y.policy
    requires (x in Planning(db, cmd, clk).0 && y in Planning(db, cmd, clk).0)
             || (x in Planning(db, cmd, clk).1 && y in Planning(db, cmd, clk).1)
    ensures RowOf(db, x, clk) == RowOf(db, y, clk)
  {
    hide Planning, Inv;
    if x in Planning(db, cmd, clk).0 && y in Planning(db, cmd, clk).0 {
      ReleasedAreLive(db, cmd, clk);
      OneLive(db, Renewed(cmd).value, RowOf(db, x, clk), RowOf(db, y, clk));
    } else {
      PlanningShape(db, cmd, clk);
    }
  }

  lemma ReleaseThenReserve(db: Db, cmd: Command, clk: Clock, x: Entry, y: Entry)
    requires Inv(db) && x.policy == y.policy && x in Planning(db, cmd, clk).0 && y in Planning(db, cmd, clk).1
    requires RowOf(db, x, clk) != RowOf(db, y, clk)
    ensures MovesHold(db, cmd, RowOf(db, x, clk), clk) && RowOf(db, y, clk) == CurrentSlot(db, x.policy, clk)
  {
    hide Planning, Inv, ReservesAgain;
    PlanningShape(db, cmd, clk);
    ReleasedAreLive(db, cmd, clk);
    PlansBoth(db, cmd, clk);
    OneLive(db, Renewed(cmd).value, RowOf(db, x, clk), RowOf(db, x, clk));
    PlanOfHolds(db, cmd, x.policy, clk);
    ReservesKnown(db, cmd, x.policy, clk);
  }

  /** Of two different rows a command asks for in one budget, the first is of a hold it moves and the second is current. */
  lemma PairMoves(db: Db, cmd: Command, clk: Clock, i: nat, j: nat)
    requires Inv(db) && i < j < |RowsAsked(db, cmd, clk)|
    requires RowsAsked(db, cmd, clk)[i] != RowsAsked(db, cmd, clk)[j]
    requires RowsAsked(db, cmd, clk)[i].policy == RowsAsked(db, cmd, clk)[j].policy
    ensures var r, s := RowsAsked(db, cmd, clk)[i], RowsAsked(db, cmd, clk)[j];
            MovesHold(db, cmd, r, clk) && s == CurrentSlot(db, r.policy, clk) && AsksNow(db, cmd, r.policy, clk)
  {
    hide Planning, Writes, ForPolicy, Inv, MovesHold, RowOf, AskedFor;
    var asked := AskedFor(db, cmd, clk);
    var x, y := asked[i], asked[j];
    RowKeepsPolicy(db, x, clk);
    RowKeepsPolicy(db, y, clk);
    var k, l := TwoOfBudget(db, cmd, clk, i, j);
    var a, b := ForPolicy(Planning(db, cmd, clk).0, x.policy), ForPolicy(Planning(db, cmd, clk).1, x.policy);
    if (x in a && y in a) || (x in b && y in b) {
      OneRowEach(db, cmd, clk, x, y);
      assert false;
    }
    assert (a + b)[k] == x && (a + b)[l] == y;
    assert k >= |a| ==> x in b && y in b;
    ReleaseThenReserve(db, cmd, clk, x, y);
    PlanningShape(db, cmd, clk);
    assert y in asked;
  }

  /** A hold that moves is locked before the current row. */
  lemma MovesInOrder(db: Db, cmd: Command, clk: Clock, slot: Slot) returns (i: nat, j: nat)
    requires MovesHold(db, cmd, slot, clk) && AsksNow(db, cmd, slot.policy, clk)
    ensures i < j < |RowsAsked(db, cmd, clk)|
    ensures RowsAsked(db, cmd, clk)[i] == slot && RowsAsked(db, cmd, clk)[j] == CurrentSlot(db, slot.policy, clk)
  {
    hide Writes, ReservesAgain, AskedFor;
    var asked := AskedFor(db, cmd, clk);
    j :| 0 <= j < |asked| && asked[j].policy == slot.policy && asked[j].period.None?;
    i := ReleasedBefore(db, cmd, slot, clk, j);
  }

  /** The current row is first asked for only after the row of a hold that moves. */
  lemma FirstCurrent(db: Db, cmd: Command, clk: Clock, slot: Slot) returns (j: nat)
    requires Inv(db) && MovesHold(db, cmd, slot, clk) && AsksNow(db, cmd, slot.policy, clk)
    ensures j < |RowsAsked(db, cmd, clk)| && RowsAsked(db, cmd, clk)[j] == CurrentSlot(db, slot.policy, clk)
    ensures slot in RowsAsked(db, cmd, clk)[..j]
    ensures forall m :: 0 <= m < j ==>
      RowsAsked(db, cmd, clk)[m] == slot || PolicyBefore(RowsAsked(db, cmd, clk)[m].policy, slot.policy)
  {
    hide RowsAsked, Inv, MovesHold, AsksNow;
    var rows, current := RowsAsked(db, cmd, clk), Current(db, cmd, clk, slot);
    NotCurrent(db, cmd, clk, slot);
    var i, last := MovesInOrder(db, cmd, clk, slot);
    assert rows[last] == current;
    j := FirstOf(rows, current);
    if j < i {
      PairMoves(db, cmd, clk, j, i);
      assert false;
    }
    assert rows[..j][i] == slot;
    forall m | 0 <= m < j ensures rows[m] == slot || PolicyBefore(rows[m].policy, slot.policy) {
      RowsByBudget(db, cmd, clk, m, j);
      if rows[m].policy == slot.policy && rows[m] != slot {
        if m < i {
          PairMoves(db, cmd, clk, m, i);
        } else {
          PairMoves(db, cmd, clk, i, m);
        }
      }
    }
  }

  function Current(db: Db, cmd: Command, clk: Clock, slot: Slot): Slot
    requires MovesHold(db, cmd, slot, clk)
  {
    CurrentSlot(db, slot.policy, clk)
  }

  lemma NotCurrent(db: Db, cmd: Command, clk: Clock, slot: Slot)
    requires MovesHold(db, cmd, slot, clk)
    ensures slot.policy in db.policies
    ensures slot != CurrentSlot(db, slot.policy, clk) && CurrentSlot(db, slot.policy, clk).policy == slot.policy
  {
  }

  lemma FirstOf(rows: seq<Slot>, slot: Slot) returns (j: nat)
    requires slot in rows
    ensures j < |rows| && rows[j] == slot && slot !in rows[..j]
    ensures forall m :: 0 <= m < j ==> rows[m] != slot
  {
    j := 0;
    while rows[j] != slot
      invariant j < |rows| && forall m :: 0 <= m < j ==> rows[m] != slot
      decreases |rows| - j
    {
      assert exists m :: 0 <= m < |rows| && rows[m] == slot;
      j := j + 1;
    }
  }

  /** Rows follow the order of their budgets. */
  lemma RowsByBudget(db: Db, cmd: Command, clk: Clock, i: nat, j: nat)
    requires i < j < |RowsAsked(db, cmd, clk)|
    ensures var rows := RowsAsked(db, cmd, clk); rows[i].policy == rows[j].policy || PolicyBefore(rows[i].policy, rows[j].policy)
  {
    hide Writes, PolicyBefore, AskedFor;
    EntriesByBudget(db, cmd, clk, i, j);
  }

  // ----- Locks and rows -----

  lemma RowsNeedStart(db: Db, cmd: Command, clk: Clock)
    requires RowsAsked(db, cmd, clk) != []
    ensures ArgumentsOk(cmd, clk.now)
  {
    hide Proceeds, Asked, ArgumentsOk;
  }

  lemma AsksAnything(db: Db, cmd: Command, clk: Clock)
    requires LocksOf(db, cmd, clk) != []
    ensures ArgumentsOk(cmd, clk.now)
  {
    hide RowsAsked, ArgumentsOk;
  }

  /** Commands cross on rows only: before those each takes at most a key and a reservation. */
  lemma CrossOnRows(db: Db, a: Command, clkA: Clock, b: Command, clkB: Clock, j: nat, l: nat) returns (i: nat, k: nat)
    requires CrossAt(LocksOf(db, a, clkA), LocksOf(db, b, clkB), j, l)
    ensures ArgumentsOk(a, clkA.now) && ArgumentsOk(b, clkB.now)
    ensures Heads(db, a, clkA) <= i < j < |LocksOf(db, a, clkA)| && Heads(db, b, clkB) <= k < l < |LocksOf(db, b, clkB)|
    ensures LocksOf(db, a, clkA)[i] == LocksOf(db, b, clkB)[l] && LocksOf(db, b, clkB)[k] == LocksOf(db, a, clkA)[j]
    ensures LocksOf(db, a, clkA)[i] != LocksOf(db, a, clkA)[j]
  {
    hide LocksOf, RowsAsked, Heads;
    var x, y := LocksOf(db, a, clkA), LocksOf(db, b, clkB);
    AsksAnything(db, a, clkA);
    AsksAnything(db, b, clkB);
    LocksAre(db, a, clkA);
    LocksAre(db, b, clkB);
    i :| 0 <= i < |x[..j]| && x[..j][i] == y[l];
    k :| 0 <= k < |y[..l]| && y[..l][k] == x[j];
    LockIsRow(db, a, clkA, i);
    LockIsRow(db, a, clkA, j);
    LockIsRow(db, b, clkB, k);
    LockIsRow(db, b, clkB, l);
  }

  /** Commands whose locks cross are opposed in one budget and share no row of an earlier one. */
  lemma CrossingOpposes(db: Db, a: Command, clkA: Clock, b: Command, clkB: Clock, j: nat, l: nat)
    requires Inv(db) && CrossAt(LocksOf(db, a, clkA), LocksOf(db, b, clkB), j, l)
    ensures MayCross(db, a, clkA, b, clkB)
  {
    hide LocksOf, RowsAsked, Heads, Inv, MovesHold, ArgumentsOk, AsksNow;
    var x, y := LocksOf(db, a, clkA), LocksOf(db, b, clkB);
    var i, k := CrossOnRows(db, a, clkA, b, clkB, j, l);
    LocksAre(db, a, clkA);
    LocksAre(db, b, clkB);
    LockIsRow(db, a, clkA, i);
    LockIsRow(db, a, clkA, j);
    LockIsRow(db, b, clkB, k);
    LockIsRow(db, b, clkB, l);
    var r, s := x[i].slot, x[j].slot;
    var n, m := j - Heads(db, a, clkA), l - Heads(db, b, clkB);
    RowsByBudget(db, a, clkA, i - Heads(db, a, clkA), n);
    RowsByBudget(db, b, clkB, k - Heads(db, b, clkB), m);
    OneWay(r.policy, s.policy);
    PairMoves(db, a, clkA, i - Heads(db, a, clkA), n);
    PairMoves(db, b, clkB, k - Heads(db, b, clkB), m);
    NotCurrent(db, a, clkA, r);
    assert Opposed(db, a, clkA, b, clkB, r.policy);
    assert x[0] != y[0];
    forall slot | slot in RowsAsked(db, a, clkA) && slot in RowsAsked(db, b, clkB) ensures !PolicyBefore(slot.policy, r.policy) {
      NotBoth(x, y, j, l, BalanceLock(slot));
      if PolicyBefore(slot.policy, r.policy) {
        EarlierTaken(db, a, clkA, slot, n);
        EarlierTaken(db, b, clkB, slot, m);
      }
    }
  }

  lemma OneWay(p: PolicyId, q: PolicyId)
    requires (p == q || PolicyBefore(p, q)) && (q == p || PolicyBefore(q, p))
    ensures p == q
  {
    if p != q {
      LeqAntisymmetric(p, q);
    }
  }

  lemma NotBoth(x: seq<Lock>, y: seq<Lock>, j: nat, l: nat, lock: Lock)
    requires Apart(x, y, j, l)
    ensures lock !in x[..j] || lock !in y[..l]
  {
  }

  /** A row of an earlier budget is taken before. */
  lemma EarlierTaken(db: Db, cmd: Command, clk: Clock, slot: Slot, j: nat)
    requires j < |RowsAsked(db, cmd, clk)| && slot in RowsAsked(db, cmd, clk)
    requires PolicyBefore(slot.policy, RowsAsked(db, cmd, clk)[j].policy)
    ensures Heads(db, cmd, clk) + j <= |LocksOf(db, cmd, clk)| && BalanceLock(slot) in LocksOf(db, cmd, clk)[..Heads(db, cmd, clk) + j]
  {
    hide RowsAsked, LocksOf, Heads, ArgumentsOk;
    RowsNeedStart(db, cmd, clk);
    LocksAre(db, cmd, clk);
    var i :| 0 <= i < |RowsAsked(db, cmd, clk)| && RowsAsked(db, cmd, clk)[i] == slot;
    if j < i {
      RowsByBudget(db, cmd, clk, j, i);
      OneWay(slot.policy, RowsAsked(db, cmd, clk)[j].policy);
    }
    assert LocksOf(db, cmd, clk)[..Heads(db, cmd, clk) + j][Heads(db, cmd, clk) + i] == BalanceLock(slot);
  }

  /** Opposed commands that share no row of an earlier budget cross. */
  lemma OpposedCross(db: Db, a: Command, clkA: Clock, b: Command, clkB: Clock, policy: PolicyId) returns (j: nat, l: nat)
    requires Inv(db) && a.IdempotencyKey() != b.IdempotencyKey()
    requires Opposed(db, a, clkA, b, clkB, policy) && BothAsk(db, a, clkA, b, clkB, policy)
    requires !ShareEarlier(db, a, clkA, b, clkB, policy)
    ensures CrossAt(LocksOf(db, a, clkA), LocksOf(db, b, clkB), j, l)
  {
    hide LocksOf, RowsAsked, Heads, Inv, MovesHold, TakesBefore, ShareEarlier, AsksNow, ArgumentsOk;
    var r, s := CurrentSlot(db, policy, clkB), CurrentSlot(db, policy, clkA);
    var x, y := LocksOf(db, a, clkA), LocksOf(db, b, clkB);
    var n := FirstCurrent(db, a, clkA, r);
    var m := FirstCurrent(db, b, clkB, s);
    RowsNeedStart(db, a, clkA);
    RowsNeedStart(db, b, clkB);
    j, l := Heads(db, a, clkA) + n, Heads(db, b, clkB) + m;
    LocksAre(db, a, clkA);
    LocksAre(db, b, clkB);
    NotCurrent(db, a, clkA, r);
    NotCurrent(db, b, clkB, s);
    forall u, v | 0 <= u < j && 0 <= v < l ensures x[u] != y[v] {
      TakenBefore(db, a, clkA, r, n, u);
      TakenBefore(db, b, clkB, s, m, v);
      Separate(db, a, clkA, b, clkB, policy, x[u], y[v]);
    }
    var i :| 0 <= i < n && RowsAsked(db, a, clkA)[..n][i] == r;
    var k :| 0 <= k < m && RowsAsked(db, b, clkB)[..m][k] == s;
    assert x[..j][Heads(db, a, clkA) + i] == BalanceLock(r) && y[..l][Heads(db, b, clkB) + k] == BalanceLock(s);
  }

  /** What a command takes before it asks for the row it crosses on. */
  ghost predicate TakesBefore(db: Db, cmd: Command, clk: Clock, slot: Slot, lock: Lock) {
    match lock
    case KeyLock(key) => key == cmd.IdempotencyKey()
    case ReservationLock(id) => Renewed(cmd) == Some(id)
    case BalanceLock(row) => row == slot || (row in RowsAsked(db, cmd, clk) && PolicyBefore(row.policy, slot.policy))
  }

  lemma TakenBefore(db: Db, cmd: Command, clk: Clock, slot: Slot, n: nat, i: nat)
    requires n < |RowsAsked(db, cmd, clk)| && i < Heads(db, cmd, clk) + n
    requires forall m :: 0 <= m < n ==>
      RowsAsked(db, cmd, clk)[m] == slot || PolicyBefore(RowsAsked(db, cmd, clk)[m].policy, slot.policy)
    ensures i < |LocksOf(db, cmd, clk)| && TakesBefore(db, cmd, clk, slot, LocksOf(db, cmd, clk)[i])
  {
    hide LocksOf, RowsAsked, Heads, PolicyBefore, ArgumentsOk;
    RowsNeedStart(db, cmd, clk);
    LocksAre(db, cmd, clk);
    LockIsRow(db, cmd, clk, i);
    if Heads(db, cmd, clk) <= i {
      assert RowsAsked(db, cmd, clk)[i - Heads(db, cmd, clk)] in RowsAsked(db, cmd, clk);
    }
  }

  /** Up to the rows they cross on they take nothing in common. */
  lemma Separate(db: Db, a: Command, clkA: Clock, b: Command, clkB: Clock, policy: PolicyId, x: Lock, y: Lock)
    requires Inv(db) && a.IdempotencyKey() != b.IdempotencyKey()
    requires Opposed(db, a, clkA, b, clkB, policy) && !ShareEarlier(db, a, clkA, b, clkB, policy)
    requires TakesBefore(db, a, clkA, CurrentSlot(db, policy, clkB), x) && TakesBefore(db, b, clkB, CurrentSlot(db, policy, clkA), y)
    ensures x != y
  {
    hide Inv, RowsAsked;
    DifferentHolds(db, a, clkA, b, clkB, policy);
  }

  /** Opposed commands renew different reservations, and in different periods. */
  lemma DifferentHolds(db: Db, a: Command, clkA: Clock, b: Command, clkB: Clock, policy: PolicyId)
    requires Inv(db) && Opposed(db, a, clkA, b, clkB, policy)
    ensures Renewed(a) != Renewed(b) && CurrentSlot(db, policy, clkA) != CurrentSlot(db, policy, clkB)
    ensures CurrentSlot(db, policy, clkA).policy == policy == CurrentSlot(db, policy, clkB).policy
  {
    hide Inv, ReservesAgain;
    if Renewed(a) == Renewed(b) {
      OneLive(db, Renewed(a).value, CurrentSlot(db, policy, clkA), CurrentSlot(db, policy, clkB));
    }
  }

  lemma DeadlockIsOpposition(db: Db, a: Command, clkA: Clock, b: Command, clkB: Clock)
    requires Inv(db)
    ensures MayDeadlock(LocksOf(db, a, clkA), LocksOf(db, b, clkB)) <==> MayCross(db, a, clkA, b, clkB)
  {
    hide LocksOf, Inv, Opposed, BothAsk, ShareEarlier, MayDeadlock;
    DeadlockIsCrossing(LocksOf(db, a, clkA), LocksOf(db, b, clkB));
    if j: nat, l: nat :| CrossAt(LocksOf(db, a, clkA), LocksOf(db, b, clkB), j, l) {
      CrossingOpposes(db, a, clkA, b, clkB, j, l);
    }
    if MayCross(db, a, clkA, b, clkB) {
      var policy :| Opposed(db, a, clkA, b, clkB, policy) && BothAsk(db, a, clkA, b, clkB, policy)
                    && !ShareEarlier(db, a, clkA, b, clkB, policy);
      var j, l := OpposedCross(db, a, clkA, b, clkB, policy);
    }
  }

  /** Opposed commands ask for a budget's current rows exactly when they come as far. */
  lemma AskingIsReaching(db: Db, a: Command, clkA: Clock, b: Command, clkB: Clock, policy: PolicyId)
    requires Inv(db) && CalendarOk(clkA) && CalendarOk(clkB) && Opposed(db, a, clkA, b, clkB, policy)
    ensures BothAsk(db, a, clkA, b, clkB, policy) <==> BothReach(db, a, clkA, b, clkB, policy)
  {
    hide Inv, AsksNow, Reaches, ReservesAgain, CalendarOk;
    AsksNowIff(db, a, policy, clkA);
    AsksNowIff(db, b, policy, clkB);
  }

  /**
   Two commands of one state can deadlock exactly when, under different new keys, their
   guards pass and they come as far as some budget in which each moves a live hold out of
   the period the other moves one into, and they lock no common row of an earlier budget.
   */
  lemma CommandsDeadlockIff(db: Db, a: Command, clkA: Clock, b: Command, clkB: Clock)
    requires Inv(db) && CalendarOk(clkA) && CalendarOk(clkB)
    ensures MayDeadlock(LocksOf(db, a, clkA), LocksOf(db, b, clkB)) <==> MayOppose(db, a, clkA, b, clkB)
  {
    hide LocksOf, Inv, Opposed, BothAsk, BothReach, ShareEarlier, MayDeadlock, CalendarOk;
    DeadlockIsOpposition(db, a, clkA, b, clkB);
    forall policy | Opposed(db, a, clkA, b, clkB, policy)
      ensures BothAsk(db, a, clkA, b, clkB, policy) <==> BothReach(db, a, clkA, b, clkB, policy)
    {
      AskingIsReaching(db, a, clkA, b, clkB, policy);
    }
  }

  /** Within one period of every budget no two commands deadlock. */
  lemma OnePeriodNeverDeadlocks(db: Db, a: Command, clkA: Clock, b: Command, clkB: Clock)
    requires Inv(db) && forall policy :: policy in db.policies ==> CurrentSlot(db, policy, clkA) == CurrentSlot(db, policy, clkB)
    ensures !MayDeadlock(LocksOf(db, a, clkA), LocksOf(db, b, clkB))
  {
    hide LocksOf, Inv, Opposed, BothAsk, ShareEarlier, MayDeadlock;
    DeadlockIsOpposition(db, a, clkA, b, clkB);
    forall policy ensures !Opposed(db, a, clkA, b, clkB, policy) {
      if Opposed(db, a, clkA, b, clkB, policy) {
        OpposedKnown(db, a, clkA, b, clkB, policy);
        DifferentHolds(db, a, clkA, b, clkB, policy);
      }
    }
  }

  /** A command that is refused by a guard, or whose key is used, deadlocks with nothing. */
  lemma RefusedNeverDeadlocks(db: Db, a: Command, clkA: Clock, b: Command, clkB: Clock)
    requires Inv(db) && !(Started(db, a, clkA) && Proceeds(db, a, clkA))
    ensures !MayDeadlock(LocksOf(db, a, clkA), LocksOf(db, b, clkB))
    ensures !MayDeadlock(LocksOf(db, b, clkB), LocksOf(db, a, clkA))
  {
    hide LocksOf, Inv, Opposed, ShareEarlier, MayDeadlock, Proceeds, Started;
    DeadlockIsOpposition(db, a, clkA, b, clkB);
    DeadlockIsOpposition(db, b, clkB, a, clkA);
  }

  lemma OpposedKnown(db: Db, a: Command, clkA: Clock, b: Command, clkB: Clock, policy: PolicyId)
    requires Opposed(db, a, clkA, b, clkB, policy)
    ensures policy in db.policies
  {
  }
}
