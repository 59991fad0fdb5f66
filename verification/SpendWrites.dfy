/** The ledger entries a command writes, and how far it gets with them. */
module SpendWrites {
  import opened Wrappers
  import opened SpendTypes
  import opened SpendLedger
  import opened SpendCommands
  import opened SpendEffects
  import opened SpendKeeps
  import opened SpendKeepsMore
  import opened Text
  import opened Sorting

  // ----- The entries a command writes -----

  /** The tables once the reservation rows of a submission are in place. */
  function Base(db: Db, cmd: Command): Db {
    match cmd
    case Submit(s) => db.(reservations := db.reservations[ResId(s.organisation, s.key) := NewReservation(s, None)])
    case Resubmit(s, prior) => if prior in db.reservations then Replaced(db, s, prior) else db
    case _ => db
  }

  /** The budgets that bind a reservation now, if its command gets that far. */
  function Bound(db: Db, id: ResId, clk: Clock): (policies: seq<PolicyId>)
    ensures Known(db, policies) && Distinct(policies) && Ascending(policies, Leq)
  {
    if id in db.reservations && ApplicablePolicies(db, db.reservations[id], clk.now).Success? then
      ApplicableListing(db, db.reservations[id], clk.now);
      ApplicablePolicies(db, db.reservations[id], clk.now).value
    else
      []
  }

  function AllReleases(db: Db, id: ResId, why: Why, key: Id, actor: Id): seq<Entry> {
    HeldListing(db, id);
    Releases(db, id, HeldSlots(db, id), why, key, actor)
  }

  function NewReserves(db: Db, s: Submission, step: Step, clk: Clock): seq<Entry> {
    var id := ResId(s.organisation, s.key);
    Reserves(db, id, Bound(db, id, clk), s.amount, false, clk, step, s.key, s.actor)
  }

  /** The releases of a command, then what it reserves or commits. */
  function Planning(db: Db, cmd: Command, clk: Clock): (seq<Entry>, seq<Entry>) {
    var base := Base(db, cmd);
    match cmd
    case Submit(s) => ([], NewReserves(base, s, SubmitStep, clk))
    case Resubmit(s, prior) =>
      (if prior in db.reservations then AllReleases(db, prior, AllHolds(ResubmitReason(db, s, prior)), s.key, s.actor) else [],
       NewReserves(base, s, ResubmitStep, clk))
    case Commit(key, _, id, actor, _, _, _, _, reference, _) =>
      ([], if id in db.reservations then Commits(db, id, Bound(db, id, clk), db.reservations[id].amount, reference, key, actor) else [])
    case Release(key, _, id, actor, reason) => (AllReleases(db, id, AllHolds(reason), key, actor), [])
    case Expire(key, _, id, actor) => (AllReleases(db, id, AllHolds(ExpiredHold), key, actor), [])
    case Rollover(key, _, id, actor) =>
      (AllReleases(db, id, StaleHolds(Bound(db, id, clk), clk), key, actor),
       if id in db.reservations then RolloverReserves(db, id, Bound(db, id, clk), db.reservations[id].amount, key, actor, clk) else [])
  }

  function Writes(db: Db, cmd: Command, clk: Clock): seq<Entry> {
    var (releases, reserves) := Planning(db, cmd, clk);
    if cmd.Commit? then reserves else InPolicyOrder(releases, reserves)
  }

  // ----- The guards before the first entry -----

  /** The reservation whose holds a command returns or converts. */
  function Renewed(cmd: Command): Option<ResId> {
    match cmd
    case Submit(_) => None
    case Resubmit(_, prior) => Some(prior)
    case _ => Some(cmd.reservation)
  }

  /** The arguments pass, and the key is new. */
  predicate Started(db: Db, cmd: Command, clk: Clock) {
    ArgumentsOk(cmd, clk.now) && cmd.IdempotencyKey() !in db.commands
  }

  /** The reservation it names is one of its Organisation. */
  predicate Finds(db: Db, cmd: Command) {
    Renewed(cmd).Some? && LockReservation(db, cmd.Organisation(), Renewed(cmd).value).Success?
  }

  /** A live reservation whose budgets are configured. */
  predicate MayMove(db: Db, id: ResId, clk: Clock)
    requires id in db.reservations
  {
    var r := db.reservations[id];
    r.status == Active && clk.now < r.expiresAt && ApplicablePolicies(db, r, clk.now).Success?
  }

  predicate CommitGuard(db: Db, cmd: Command, clk: Clock)
    requires cmd.Commit? && cmd.reservation in db.reservations
  {
    var r := db.reservations[cmd.reservation];
    && MayMove(db, cmd.reservation, clk)
    && r.digest == cmd.digest && r.version == cmd.version && r.amount == cmd.amount && r.holdRevision as int == cmd.holdRevision
    && ReadyToCommit(db, cmd.reservation, Bound(db, cmd.reservation, clk), r.amount, clk)
  }

  predicate ResubmitGuard(db: Db, s: Submission, prior: ResId, clk: Clock)
    requires prior in db.reservations
  {
    var r := db.reservations[prior];
    && r.status == Active && r.submittedBy == s.actor && LaterVersion(r, s)
    && InsertReservation(SetStatus(db, prior, Released), s, Some(prior), clk.now).Success?
    && ApplicablePolicies(Replaced(db, s, prior), NewReservation(s, Some(prior)), clk.now).Success?
  }

  /** Every guard of the command before its first ledger entry passes. */
  predicate Proceeds(db: Db, cmd: Command, clk: Clock) {
    match cmd
    case Submit(s) =>
      && InsertReservation(db, s, None, clk.now).Success?
      && ApplicablePolicies(Base(db, cmd), NewReservation(s, None), clk.now).Success?
    case Resubmit(s, prior) => Finds(db, cmd) && ResubmitGuard(db, s, prior, clk)
    case Commit(_, _, _, _, _, _, _, _, _, _) => Finds(db, cmd) && CommitGuard(db, cmd, clk)
    case Release(_, _, id, _, _) => Finds(db, cmd) && db.reservations[id].status == Active
    case Expire(_, _, id, _) =>
      Finds(db, cmd) && db.reservations[id].status == Active && db.reservations[id].expiresAt <= clk.now
    case Rollover(_, _, id, _) => Finds(db, cmd) && MayMove(db, id, clk)
  }

  /** The command ends as its entries do. */
  ghost predicate EndsAs(x: Execution, w: Result<Db, LedgerError>) {
    match w
    case Failure(error) => x == Failure(Refuse(RefusalFor(error)))
    case Success(db1) =>
      && x.Success? && x.value.0.balances == db1.balances && x.value.0.holds == db1.holds && x.value.0.entries == db1.entries
  }

  ghost predicate Decided(db: Db, cmd: Command, clk: Clock) {
    if Proceeds(db, cmd, clk) then
      EndsAs(Execute(db, cmd, clk), ApplyAll(Base(db, cmd), Writes(db, cmd, clk), clk))
    else
      Execute(db, cmd, clk).Failure?
  }

  lemma SubmitDecides(db: Db, s: Submission, clk: Clock)
    ensures Decided(db, Submit(s), clk)
  {
    hide ApplicablePolicies, ApplyAll, Reserves, InPolicyOrder, IsMember, Collides;
  }

  lemma ResubmitDecides(db: Db, s: Submission, prior: ResId, clk: Clock)
    ensures Decided(db, Resubmit(s, prior), clk)
  {
    hide ApplicablePolicies, ApplyAll, HeldSlots, Releases, Reserves, InPolicyOrder, IsMember, Collides, LaterVersion;
    HeldListing(db, prior);
  }

  lemma CommitDecides(db: Db, cmd: Command, clk: Clock)
    requires cmd.Commit?
    ensures Decided(db, cmd, clk)
  {
    hide ApplicablePolicies, ApplyAll, HeldSlots, Commits, ReadyToCommit;
  }

  lemma CloseDecides(db: Db, cmd: Command, clk: Clock)
    requires cmd.Release? || cmd.Expire?
    ensures Decided(db, cmd, clk)
  {
    hide ApplyAll, HeldSlots, Releases, InPolicyOrder;
  }

  lemma RolloverDecides(db: Db, cmd: Command, clk: Clock)
    requires cmd.Rollover?
    ensures Decided(db, cmd, clk)
  {
    hide ApplicablePolicies, ApplyAll, HeldSlots, Releases, Reserves, InPolicyOrder;
  }

  /** A command whose guard fails is refused before any entry; otherwise its entries alone decide. */
  lemma GuardsDecide(db: Db, cmd: Command, clk: Clock)
    ensures Decided(db, cmd, clk)
  {
    hide Decided;
    match cmd
    case Submit(s) => SubmitDecides(db, s, clk);
    case Resubmit(s, prior) => ResubmitDecides(db, s, prior, clk);
    case Commit(_, _, _, _, _, _, _, _, _, _) => CommitDecides(db, cmd, clk);
    case Release(_, _, _, _, _) => CloseDecides(db, cmd, clk);
    case Expire(_, _, _, _) => CloseDecides(db, cmd, clk);
    case Rollover(_, _, _, _) => RolloverDecides(db, cmd, clk);
  }

  ghost predicate WroteExactly(db: Db, db1: Db, cmd: Command, clk: Clock) {
    var w := ApplyAll(Base(db, cmd), Writes(db, cmd, clk), clk);
    w.Success? && db1.balances == w.value.balances && db1.holds == w.value.holds && db1.entries == w.value.entries
  }

  /** An applied command wrote these entries, in that order. */
  lemma WritesAreWritten(db: Db, cmd: Command, clk: Clock)
    requires Execute(db, cmd, clk).Success?
    ensures WroteExactly(db, Execute(db, cmd, clk).value.0, cmd, clk)
  {
    hide Execute, Writes, ApplyAll, Proceeds;
    GuardsDecide(db, cmd, clk);
  }

  // ----- The entries it comes to -----

  /** The trigger gets as far as the entry's balance row. */
  predicate ReachesRow(db: Db, e: Entry, clk: Clock) {
    && e.policy in db.policies && e.reservation in db.reservations && InScope(db.policies[e.policy], db.reservations[e.reservation])
    && if e.kind.ReleaseEntry? && e.period.Some? then
         Slot(e.policy, e.period.value) in db.balances
       else
         PeriodOf(db.policies[e.policy], clk).startsAt <= clk.now < PeriodOf(db.policies[e.policy], clk).endsAt
  }

  /** The entries up to the first that is refused, and that one too if its row was reached. */
  function Asked(db: Db, es: seq<Entry>, clk: Clock): (asked: seq<Entry>)
    ensures asked <= es
    decreases |es|
  {
    if es == [] then
      []
    else
      match ApplyEntry(db, es[0], clk)
      case Success(db1) => [es[0]] + Asked(db1, es[1..], clk)
      case Failure(_) => if ReachesRow(db, es[0], clk) then [es[0]] else []
  }

  /** The entries whose rows a command asks for, whatever becomes of it. */
  function AskedFor(db: Db, cmd: Command, clk: Clock): (asked: seq<Entry>)
    ensures asked <= Writes(db, cmd, clk)
  {
    if Started(db, cmd, clk) && Proceeds(db, cmd, clk) then Asked(Base(db, cmd), Writes(db, cmd, clk), clk) else []
  }

  /** Writing entries takes no row away. */
  lemma ReachesLater(db: Db, first: Entry, e: Entry, clk: Clock)
    requires ApplyEntry(db, first, clk).Success? && ReachesRow(db, e, clk)
    ensures ReachesRow(ApplyEntry(db, first, clk).value, e, clk)
  {
  }

  /** Entries that can reach their rows are asked for until one before them is refused. */
  lemma {:induction false} AskedUntilRefused(db: Db, es: seq<Entry>, clk: Clock, j: nat)
    requires j < |es| && forall e :: e in es ==> ReachesRow(db, e, clk)
    ensures j < |Asked(db, es, clk)| <==> ApplyAll(db, es[..j], clk).Success?
    decreases |es|
  {
    hide ApplyEntry, ReachesRow;
    assert es[0] in es;
    if j > 0 {
      assert es[..j][0] == es[0] && es[..j][1..] == es[1..][..j - 1];
      if ApplyEntry(db, es[0], clk).Success? {
        var db1 := ApplyEntry(db, es[0], clk).value;
        forall e | e in es[1..] ensures ReachesRow(db1, e, clk) {
          ReachesLater(db, es[0], e, clk);
        }
        AskedUntilRefused(db1, es[1..], clk, j - 1);
      }
    }
  }

  /** An applied command asks for the rows of all its entries. */
  lemma {:induction false} AllAsked(db: Db, es: seq<Entry>, clk: Clock)
    requires ApplyAll(db, es, clk).Success?
    ensures Asked(db, es, clk) == es
    decreases |es|
  {
    hide ApplyEntry;
    if es != [] {
      AllAsked(ApplyEntry(db, es[0], clk).value, es[1..], clk);
    }
  }
}
