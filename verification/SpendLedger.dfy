/** The capacity trigger on the ledger table, as a function from table state to table state. */
module SpendLedger {
  import opened Wrappers
  import opened SpendTypes

  datatype LedgerError =
    | UnknownRow | OutsideBudget | NoHoldToRelease | ReleaseTooMuch | OutsidePeriod
    | NotActive | NotInEffect | InsufficientCapacity
    | ExpiredOrClosed | BudgetChanged | CommitTooMuch | ConstraintViolated

  /** The closed reason each trigger message maps to. */
  function RefusalFor(error: LedgerError): Refusal {
    match error
    case InsufficientCapacity => SpendLimitExceeded
    case NotInEffect | BudgetChanged | NotActive | ExpiredOrClosed | OutsideBudget | OutsidePeriod =>
      ContextNotUsable
    case _ => SourceUnavailable
  }

  predicate InScope(p: Policy, r: Reservation) {
    && p.tenant == r.tenant && p.organisation == r.organisation
    && p.market == r.market && p.currency == r.currency
    && (p.scope.MembershipScope? ==> p.scope.membership == r.membership)
    && (p.scope.AgreementScope? ==> r.agreement == Some(p.scope.agreement))
  }

  function BalanceAt(db: Db, slot: Slot, endsAt: Instant): Balance {
    if slot in db.balances then db.balances[slot] else Balance(endsAt, 0, 0)
  }

  function HoldAt(db: Db, hk: HoldKey, revision: nat): Hold {
    if hk in db.holds then db.holds[hk] else Hold(revision, 0, 0)
  }

  /** The trigger moves balances, holds and entries; no other table. */
  predicate OnlyLedgerMoved(db: Db, db1: Db) {
    && db1.policies == db.policies && db1.members == db.members && db1.reservations == db.reservations
    && db1.commands == db.commands && db1.mutations == db.mutations
  }

  /** The balance and hold rows an entry leaves in its period. */
  datatype Rows = Rows(slot: Slot, balance: Balance, hold: Hold)

  type Judgement = Result<Rows, LedgerError>

  function Lowered(amount: int, slot: Slot, balance: Balance, hold: Hold): Rows {
    Rows(slot, balance.(reserved := balance.reserved - amount), hold.(reserved := hold.reserved - amount))
  }

  /** A release that names the period of an existing hold. */
  function JudgeNamedRelease(db: Db, e: Entry): Judgement
    requires e.period.Some?
  {
    var slot := Slot(e.policy, e.period.value);
    var hk := HoldKey(e.reservation, slot);
    if hk !in db.holds || slot !in db.balances then
      Failure(NoHoldToRelease)
    else if e.amount > db.holds[hk].reserved then
      Failure(ReleaseTooMuch)
    else
      Success(Lowered(e.amount, slot, db.balances[slot], db.holds[hk]))
  }

  function JudgeReserve(e: Entry, now: Instant, p: Policy, r: Reservation, slot: Slot,
                        balance: Balance, hold: Hold): Judgement
  {
    if r.status != Active || r.expiresAt <= now then
      Failure(NotActive)
    else
      // A fully released hold may be reserved again under a revised policy.
      var revision := if hold.reserved == 0 && hold.committed == 0 then p.revision else hold.revision;
      if p.status != ActivePolicy || !InEffect(now, p.from, p.until)
         || e.revision != p.revision || revision != p.revision then
        Failure(NotInEffect)
      else if e.amount > p.limit - balance.committed - balance.reserved then
        Failure(InsufficientCapacity)
      else
        Success(Rows(slot, balance.(reserved := balance.reserved + e.amount),
                     Hold(revision, hold.reserved + e.amount, hold.committed)))
  }

  function JudgeCommit(e: Entry, now: Instant, p: Policy, r: Reservation, slot: Slot,
                       balance: Balance, hold: Hold): Judgement
  {
    if r.status != Active || r.expiresAt <= now then
      Failure(ExpiredOrClosed)
    else if p.status != ActivePolicy || e.revision != p.revision || hold.revision != p.revision then
      Failure(BudgetChanged)
    else if e.amount > hold.reserved then
      Failure(CommitTooMuch)
    else
      Success(Rows(slot,
                   balance.(reserved := balance.reserved - e.amount, committed := balance.committed + e.amount),
                   hold.(reserved := hold.reserved - e.amount, committed := hold.committed + e.amount)))
  }

  function Judge(db: Db, e: Entry, clk: Clock): Judgement {
    if e.policy !in db.policies || e.reservation !in db.reservations then
      Failure(UnknownRow)
    else
      var p, r := db.policies[e.policy], db.reservations[e.reservation];
      if !InScope(p, r) then
        Failure(OutsideBudget)
      else if e.kind.ReleaseEntry? && e.period.Some? then
        JudgeNamedRelease(db, e)
      else
        var period := PeriodOf(p, clk);
        if clk.now < period.startsAt || period.endsAt <= clk.now then
          Failure(OutsidePeriod)
        else
          var slot := Slot(e.policy, period.startsAt);
          var balance := BalanceAt(db, slot, period.endsAt);
          var hold := HoldAt(db, HoldKey(e.reservation, slot), p.revision);
          match e.kind
          case ReserveEntry => JudgeReserve(e, clk.now, p, r, slot, balance, hold)
          case CommitEntry(_) => JudgeCommit(e, clk.now, p, r, slot, balance, hold)
          case ReleaseEntry(_) =>
            if e.amount > hold.reserved then Failure(ReleaseTooMuch)
            else Success(Lowered(e.amount, slot, balance, hold))
  }

  predicate ConstraintsHold(db: Db, e: Entry, rows: Rows) {
    && e.key !in db.entries && e.amount > 0
    && rows.balance.reserved >= 0 && rows.balance.committed >= 0
    && rows.hold.reserved >= 0 && rows.hold.committed >= 0
  }

  function Post(db: Db, e: Entry, rows: Rows): Db {
    db.(balances := db.balances[rows.slot := rows.balance],
        holds := db.holds[HoldKey(e.reservation, rows.slot) := rows.hold],
        entries := db.entries[e.key := e.(period := Some(rows.slot.period))])
  }

  /** Writes both rows and the entry, unless the trigger or a table constraint refuses. */
  function ApplyEntry(db: Db, e: Entry, clk: Clock): (w: Result<Db, LedgerError>)
    ensures w.Success? ==> OnlyLedgerMoved(db, w.value)
  {
    var rows :- Judge(db, e, clk);
    if ConstraintsHold(db, e, rows) then Success(Post(db, e, rows)) else Failure(ConstraintViolated)
  }

  /** The entries of one command, in order; the first refusal stops it. */
  function ApplyAll(db: Db, es: seq<Entry>, clk: Clock): (w: Result<Db, LedgerError>)
    ensures w.Success? ==> OnlyLedgerMoved(db, w.value)
    decreases |es|
  {
    if es == [] then
      Success(db)
    else
      match ApplyEntry(db, es[0], clk)
      case Failure(error) => Failure(error)
      case Success(db1) => ApplyAll(db1, es[1..], clk)
  }

  function AndThen(done: Result<Db, LedgerError>, rest: seq<Entry>, clk: Clock): Result<Db, LedgerError> {
    if done.Success? then ApplyAll(done.value, rest, clk) else done
  }

  lemma {:induction false} ApplyAllAppend(db: Db, a: seq<Entry>, b: seq<Entry>, clk: Clock)
    ensures ApplyAll(db, a + b, clk) == AndThen(ApplyAll(db, a, clk), b, clk)
    decreases |a|
  {
    if a == [] {
      assert a + b == b;
    } else {
      assert (a + b)[1..] == a[1..] + b;
      if ApplyEntry(db, a[0], clk).Success? {
        ApplyAllAppend(ApplyEntry(db, a[0], clk).value, a[1..], b, clk);
      }
    }
  }
}
