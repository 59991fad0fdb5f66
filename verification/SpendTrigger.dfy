/** The capacity trigger in the columns of its tables: what it refuses, why, and what it writes. */
module SpendTrigger {
  import opened Wrappers
  import opened SpendTypes
  import opened SpendLedger
  import opened SpendCommands
  import opened SpendBooks

  // ----- Budgets and periods -----

  function StartsAt(p: Policy, clk: Clock): Instant {
    match p.scope
    case AgreementScope(_) => p.from
    case _ => clk.month(p.timezone, clk.now).startsAt
  }

  function EndsAt(p: Policy, clk: Clock): Instant {
    match p.scope
    case AgreementScope(_) => if p.until.Some? then p.until.value else p.from
    case _ => clk.month(p.timezone, clk.now).endsAt
  }

  /** The budget's row for the period of the transaction's instant. */
  function Now(db: Db, policy: PolicyId, clk: Clock): Slot
    requires policy in db.policies
  {
    Slot(policy, StartsAt(db.policies[policy], clk))
  }

  /** The budget is for the same tenant, Organisation, Market and currency, and for its membership or agreement if it has one. */
  predicate Serves(p: Policy, r: Reservation) {
    && (p.tenant, p.organisation, p.market, p.currency) == (r.tenant, r.organisation, r.market, r.currency)
    && match p.scope
       case OrganisationScope => true
       case MembershipScope(membership) => r.membership == membership
       case AgreementScope(agreement) => r.agreement == Some(agreement)
  }

  predicate Running(p: Policy, now: Instant) {
    p.status == ActivePolicy && p.from <= now && (p.until == None || now < p.until.value)
  }

  // ----- One entry -----

  /** The row an entry moves: the named one of a release, otherwise the current one. */
  function RowFor(db: Db, e: Entry, clk: Clock): Slot
    requires e.policy in db.policies
  {
    if e.kind.ReleaseEntry? && e.period.Some? then Slot(e.policy, e.period.value) else Now(db, e.policy, clk)
  }

  /** What an entry adds to the reserved and to the committed amount. */
  function Adds(e: Entry): (int, int) {
    match e.kind
    case ReserveEntry => (e.amount, 0)
    case ReleaseEntry(_) => (-e.amount, 0)
    case CommitEntry(_) => (-e.amount, e.amount)
  }

  /** The hold is for another revision and not empty, or for another revision at all if it is to be committed. */
  predicate OtherRevision(db: Db, e: Entry, slot: Slot)
    requires e.policy in db.policies
  {
    var hk := HoldKey(e.reservation, slot);
    && hk in db.holds && db.holds[hk].revision != db.policies[e.policy].revision
    && (e.kind.CommitEntry? || db.holds[hk].reserved != 0 || db.holds[hk].committed != 0)
  }

  /** Reserving needs a running budget and a live reservation; committing an ACTIVE one and a live reservation. */
  predicate Stale(db: Db, e: Entry, slot: Slot, now: Instant)
    requires e.policy in db.policies && e.reservation in db.reservations
  {
    var p, r := db.policies[e.policy], db.reservations[e.reservation];
    !e.kind.ReleaseEntry? &&
    (r.status != Active || now >= r.expiresAt || e.revision != p.revision || OtherRevision(db, e, slot)
     || if e.kind.ReserveEntry? then !Running(p, now) else p.status != ActivePolicy)
  }

  /** The reason a command is refused for, if the trigger or a constraint refuses this entry of it. */
  function Objection(db: Db, e: Entry, clk: Clock): Option<Refusal> {
    if e.policy !in db.policies || e.reservation !in db.reservations then
      Some(SourceUnavailable)
    else
      var p, r, slot := db.policies[e.policy], db.reservations[e.reservation], RowFor(db, e, clk);
      var named := e.kind.ReleaseEntry? && e.period.Some?;
      if !Serves(p, r) || (!named && !(StartsAt(p, clk) <= clk.now < EndsAt(p, clk))) then
        Some(ContextNotUsable)
      else if named && (HoldKey(e.reservation, slot) !in db.holds || slot !in db.balances) then
        Some(SourceUnavailable)
      else if Stale(db, e, slot, clk.now) then
        Some(ContextNotUsable)
      else if e.kind.ReserveEntry? && SpentTotal(db, slot) + Reserved(db, slot) + e.amount > p.limit then
        Some(SpendLimitExceeded)
      else if !e.kind.ReserveEntry? && ReservedBy(db, e.reservation, slot) < e.amount then
        Some(SourceUnavailable)
      else if e.amount < 1 || e.key in db.entries
              || Reserved(db, slot) + Adds(e).0 < 0 || SpentTotal(db, slot) + Adds(e).1 < 0
              || ReservedBy(db, e.reservation, slot) + Adds(e).0 < 0 || CommittedBy(db, e.reservation, slot) + Adds(e).1 < 0 then
        Some(SourceUnavailable)
      else
        None
  }

  /** The tables after an entry: its row of the balances, its hold, and the entry with the period it was written in. */
  function Entered(db: Db, e: Entry, clk: Clock): Db
    requires e.policy in db.policies
  {
    var p, slot := db.policies[e.policy], RowFor(db, e, clk);
    var hk := HoldKey(e.reservation, slot);
    var endsAt := if slot in db.balances then db.balances[slot].endsAt else EndsAt(p, clk);
    var revision := if hk in db.holds && !(e.kind.ReserveEntry? && !OtherRevision(db, e, slot)) then db.holds[hk].revision else p.revision;
    db.(balances := db.balances[slot := Balance(endsAt, SpentTotal(db, slot) + Adds(e).1, Reserved(db, slot) + Adds(e).0)],
        holds := db.holds[hk := Hold(revision, ReservedBy(db, e.reservation, slot) + Adds(e).0, CommittedBy(db, e.reservation, slot) + Adds(e).1)],
        entries := db.entries[e.key := Entry(e.kind, e.reservation, e.policy, e.revision, Some(slot.period), e.amount, e.key, e.actor)])
  }

  lemma OneEntry(db: Db, e: Entry, clk: Clock)
    ensures ApplyAll(db, [e], clk) == ApplyEntry(db, e, clk)
  {
    hide ApplyEntry;
    assert [e][1..] == [];
    if ApplyEntry(db, e, clk).Success? {
      assert ApplyAll(ApplyEntry(db, e, clk).value, [], clk) == ApplyEntry(db, e, clk);
    }
  }

  ghost predicate Said(db: Db, e: Entry, clk: Clock) {
    match Objection(db, e, clk)
    case Some(reason) => ApplyEntry(db, e, clk).Failure? && RefusalFor(ApplyEntry(db, e, clk).error) == reason
    case None => ApplyEntry(db, e, clk) == Success(Entered(db, e, clk))
  }

  lemma ReserveSaid(db: Db, e: Entry, clk: Clock)
    requires e.kind.ReserveEntry?
    ensures Said(db, e, clk)
  {
  }

  lemma CommitSaid(db: Db, e: Entry, clk: Clock)
    requires e.kind.CommitEntry?
    ensures Said(db, e, clk)
  {
  }

  lemma ReleaseSaid(db: Db, e: Entry, clk: Clock)
    requires e.kind.ReleaseEntry?
    ensures Said(db, e, clk)
  {
  }

  /** In any tables whatever, an entry is refused for just these objections and otherwise writes just these rows. */
  lemma TriggerSays(db: Db, e: Entry, clk: Clock)
    ensures WriteAll(db, [e], clk) ==
            match Objection(db, e, clk)
            case Some(reason) => Failure(Refuse(reason))
            case None => Success(Entered(db, e, clk))
  {
    hide ApplyEntry, Objection, Entered;
    OneEntry(db, e, clk);
    match e.kind
    case ReserveEntry => ReserveSaid(db, e, clk);
    case CommitEntry(_) => CommitSaid(db, e, clk);
    case ReleaseEntry(_) => ReleaseSaid(db, e, clk);
  }
}
