/** What each reservation command does to the tables, or why it stops. */
module SpendCommands {
  import opened Wrappers
  import opened Text
  import opened Sorting
  import opened SpendTypes
  import opened SpendLedger

  // ----- Reading -----

  lemma PolicyIdsAreOrdered()
    ensures TotalOrder<PolicyId>(Leq)
  {
    forall x: PolicyId { LeqReflexive(x); }
    forall x: PolicyId, y: PolicyId ensures Leq(x, y) || Leq(y, x) { LeqTotal(x, y); }
    forall x: PolicyId, y: PolicyId | Leq(x, y) && Leq(y, x) ensures x == y { LeqAntisymmetric(x, y); }
    forall x: PolicyId, y: PolicyId, z: PolicyId | Leq(x, y) && Leq(y, z) ensures Leq(x, z) { LeqTransitive(x, y, z); }
  }

  lemma SlotsAreOrdered()
    ensures TotalOrder(SlotLeq)
  {
    PolicyIdsAreOrdered();
  }

  function InOrder(ids: set<PolicyId>): (r: seq<PolicyId>)
    ensures forall x :: x in r <==> x in ids
    ensures Ascending(r, Leq)
  {
    PolicyIdsAreOrdered();
    Sort(ids, Leq)
  }

  function SlotsInOrder(slots: set<Slot>): (r: seq<Slot>)
    ensures forall x :: x in r <==> x in slots
    ensures Ascending(r, SlotLeq)
  {
    SlotsAreOrdered();
    Sort(slots, SlotLeq)
  }

  /** A foreign or unknown reservation is never disclosed. */
  function LockReservation(db: Db, organisation: Id, id: ResId): Result<Reservation, Stop> {
    if id in db.reservations && db.reservations[id].organisation == organisation then
      Success(db.reservations[id])
    else
      Failure(Refuse(BuyerNotAuthorised))
  }

  predicate Applies(p: Policy, r: Reservation, now: Instant) {
    p.status == ActivePolicy && InEffect(now, p.from, p.until) && InScope(p, r)
  }

  function ApplicableIds(db: Db, r: Reservation, now: Instant): set<PolicyId> {
    set id | id in db.policies && Applies(db.policies[id], r, now)
  }

  /** Exactly one MEMBERSHIP budget is mandatory; the others bind when configured. */
  function ApplicablePolicies(db: Db, r: Reservation, now: Instant): Result<seq<PolicyId>, Stop> {
    var ids := ApplicableIds(db, r, now);
    var members := set id | id in ids && db.policies[id].scope.MembershipScope?;
    var organisations := set id | id in ids && db.policies[id].scope.OrganisationScope?;
    var agreements := set id | id in ids && db.policies[id].scope.AgreementScope?;
    if |members| == 0 then
      Failure(Refuse(SpendPolicyNotConfigured))
    else if |members| > 1 || |organisations| > 1 || |agreements| > 1 then
      Failure(Refuse(ContextNotUsable))
    else
      Success(InOrder(ids))
  }

  /** The hold rows of one reservation, by budget and then period. */
  function HeldSlots(db: Db, id: ResId): seq<Slot> {
    SlotsInOrder(set hk | hk in db.holds && hk.reservation == id :: hk.slot)
  }

  function CurrentSlot(db: Db, policy: PolicyId, clk: Clock): Slot
    requires policy in db.policies
  {
    Slot(policy, PeriodOf(db.policies[policy], clk).startsAt)
  }

  /** The hold row is for the budget's current period at its current revision. */
  predicate IsCurrent(db: Db, id: ResId, slot: Slot, clk: Clock) {
    && slot.policy in db.policies && HoldKey(id, slot) in db.holds
    && slot == CurrentSlot(db, slot.policy, clk)
    && db.holds[HoldKey(id, slot)].revision == db.policies[slot.policy].revision
  }

  function CurrentlyReserved(db: Db, id: ResId, policy: PolicyId, clk: Clock): int
    requires policy in db.policies
  {
    var slot := CurrentSlot(db, policy, clk);
    if IsCurrent(db, id, slot, clk) then db.holds[HoldKey(id, slot)].reserved else 0
  }

  // ----- Planning entries -----

  /** Why holds are released, and which of them. */
  datatype Why = AllHolds(reason: Reason) | StaleHolds(applicable: seq<PolicyId>, clk: Clock)

  predicate MustRelease(db: Db, id: ResId, slot: Slot, why: Why)
    requires HoldKey(id, slot) in db.holds
  {
    && db.holds[HoldKey(id, slot)].reserved != 0
    && (why.StaleHolds? ==> !(slot.policy in why.applicable && IsCurrent(db, id, slot, why.clk)))
  }

  function ReasonFor(db: Db, id: ResId, slot: Slot, why: Why): Reason
    requires HoldKey(id, slot) in db.holds
  {
    match why
    case AllHolds(reason) => reason
    case StaleHolds(applicable, _) =>
      if slot.policy in applicable && slot.policy in db.policies
         && db.holds[HoldKey(id, slot)].revision == db.policies[slot.policy].revision then
        PeriodRollover
      else
        PolicyRevised
  }

  function ReleaseOf(db: Db, id: ResId, slot: Slot, why: Why, command: Id, actor: Id): Entry
    requires HoldKey(id, slot) in db.holds
  {
    var hold := db.holds[HoldKey(id, slot)];
    Entry(ReleaseEntry(ReasonFor(db, id, slot, why)), id, slot.policy, hold.revision, Some(slot.period),
          hold.reserved, EntryKey(command, slot.policy, ReleaseStep(id, slot.period)), actor)
  }

  function Releases(db: Db, id: ResId, slots: seq<Slot>, why: Why, command: Id, actor: Id): (es: seq<Entry>)
    requires forall slot :: slot in slots ==> HoldKey(id, slot) in db.holds
    decreases |slots|
  {
    if slots == [] then
      []
    else
      (if MustRelease(db, id, slots[0], why) then [ReleaseOf(db, id, slots[0], why, command, actor)] else [])
      + Releases(db, id, slots[1..], why, command, actor)
  }

  /** The full amount, or for a rollover the part not already held now. */
  function AmountToReserve(db: Db, id: ResId, policy: PolicyId, amount: int, topUp: bool, clk: Clock): int
    requires policy in db.policies
  {
    if topUp then amount - CurrentlyReserved(db, id, policy, clk) else amount
  }

  function ReserveOf(db: Db, id: ResId, policy: PolicyId, amount: int, step: Step, command: Id, actor: Id): Entry
    requires policy in db.policies
  {
    Entry(ReserveEntry, id, policy, db.policies[policy].revision, None, amount,
          EntryKey(command, policy, step), actor)
  }

  function Reserves(db: Db, id: ResId, policies: seq<PolicyId>, amount: int, topUp: bool, clk: Clock,
                    step: Step, command: Id, actor: Id): seq<Entry>
    requires forall p :: p in policies ==> p in db.policies
    decreases |policies|
  {
    if policies == [] then
      []
    else
      var wanted := AmountToReserve(db, id, policies[0], amount, topUp, clk);
      (if topUp && wanted <= 0 then [] else [ReserveOf(db, id, policies[0], wanted, step, command, actor)])
      + Reserves(db, id, policies[1..], amount, topUp, clk, step, command, actor)
  }

  function CommitOf(db: Db, id: ResId, policy: PolicyId, amount: int, reference: Id, command: Id, actor: Id): Entry
    requires policy in db.policies
  {
    Entry(CommitEntry(reference), id, policy, db.policies[policy].revision, None, amount,
          EntryKey(command, policy, CommitStep), actor)
  }

  function Commits(db: Db, id: ResId, policies: seq<PolicyId>, amount: int, reference: Id,
                   command: Id, actor: Id): seq<Entry>
    requires forall p :: p in policies ==> p in db.policies
    decreases |policies|
  {
    if policies == [] then
      []
    else
      [CommitOf(db, id, policies[0], amount, reference, command, actor)]
      + Commits(db, id, policies[1..], amount, reference, command, actor)
  }

  function ForPolicy(es: seq<Entry>, policy: PolicyId): seq<Entry>
    decreases |es|
  {
    if es == [] then [] else (if es[0].policy == policy then [es[0]] else []) + ForPolicy(es[1..], policy)
  }

  /** Per budget, its releases and then its reservations. */
  function Interleave(ids: seq<PolicyId>, releases: seq<Entry>, reserves: seq<Entry>): seq<Entry>
    decreases |ids|
  {
    if ids == [] then
      []
    else
      ForPolicy(releases, ids[0]) + ForPolicy(reserves, ids[0]) + Interleave(ids[1..], releases, reserves)
  }

  function BudgetsOf(es: seq<Entry>): set<PolicyId> {
    set e | e in es :: e.policy
  }

  /** The single global budget order, releases first within a budget. */
  function InPolicyOrder(releases: seq<Entry>, reserves: seq<Entry>): seq<Entry> {
    Interleave(InOrder(BudgetsOf(releases) + BudgetsOf(reserves)), releases, reserves)
  }

  function WriteAll(db: Db, es: seq<Entry>, clk: Clock): (w: Result<Db, Stop>)
    ensures w.Success? ==> OnlyLedgerMoved(db, w.value)
  {
    match ApplyAll(db, es, clk)
    case Failure(error) => Failure(Refuse(RefusalFor(error)))
    case Success(db1) => Success(db1)
  }

  // ----- The commands -----

  type Execution = Result<(Db, Applied), Stop>

  predicate IsMember(db: Db, s: Submission, now: Instant) {
    && s.membership in db.members
    && var m := db.members[s.membership];
       && m.organisation == s.organisation && m.tenant == s.tenant && m.active
       && (m.from.Some? ==> m.from.value <= now) && (m.until.Some? ==> now < m.until.value)
  }

  /** The two unique indexes on ACTIVE reservations, and the primary key. */
  predicate Collides(db: Db, s: Submission) {
    || ResId(s.organisation, s.key) in db.reservations
    || exists id :: id in db.reservations && SamePurchase(db.reservations[id], s)
  }

  predicate SamePurchase(r: Reservation, s: Submission) {
    && r.status == Active
    && (|| (r.organisation == s.organisation && r.purchase == s.purchase)
        || (r.membership == s.membership && r.digest == s.digest && r.version == s.version))
  }

  function NewReservation(s: Submission, supersedes: Option<ResId>): Reservation {
    Reservation(s.tenant, s.organisation, s.membership, s.actor, s.market, s.currency, s.agreement,
                s.digest, s.version, s.amount, s.purchase, supersedes, s.expiresAt, Active, 1)
  }

  function InsertReservation(db: Db, s: Submission, supersedes: Option<ResId>, now: Instant): Result<Db, Stop> {
    if !IsMember(db, s, now) then
      Failure(Refuse(BuyerNotAuthorised))
    else if Collides(db, s) then
      Failure(ConflictStop)
    else
      Success(db.(reservations := db.reservations[ResId(s.organisation, s.key) := NewReservation(s, supersedes)]))
  }

  function ExecuteSubmit(db: Db, s: Submission, clk: Clock): Execution {
    var db1 :- InsertReservation(db, s, None, clk.now);
    Fill(db1, s, [], SubmitStep, clk)
  }

  /** Reserves the full amount of a new reservation, after the given releases within each budget. */
  function Fill(db: Db, s: Submission, releases: seq<Entry>, step: Step, clk: Clock): (x: Execution)
    requires ResId(s.organisation, s.key) in db.reservations
    ensures x.Success? ==>
      && ApplicablePolicies(db, db.reservations[ResId(s.organisation, s.key)], clk.now).Success?
      && x.value.1 == Applied(ResId(s.organisation, s.key), Active, 1, None)
  {
    var id := ResId(s.organisation, s.key);
    var policies :- ApplicablePolicies(db, db.reservations[id], clk.now);
    var reserves := Reserves(db, id, policies, s.amount, false, clk, step, s.key, s.actor);
    var db2 :- WriteAll(db, InPolicyOrder(releases, reserves), clk);
    Success((db2, Applied(id, Active, 1, None)))
  }

  predicate LaterVersion(prior: Reservation, s: Submission) {
    && prior.purchase == s.purchase && prior.tenant == s.tenant && prior.membership == s.membership
    && prior.market == s.market && prior.currency == s.currency && prior.agreement == s.agreement
    && prior.version < s.version
  }

  function ExecuteResubmit(db: Db, s: Submission, supersedes: ResId, clk: Clock): Execution {
    var prior :- LockReservation(db, s.organisation, supersedes);
    if prior.status != Active then
      Failure(Refuse(ContextNotUsable))
    else if prior.submittedBy != s.actor then
      Failure(Refuse(BuyerNotAuthorised))
    else if !LaterVersion(prior, s) then
      Failure(Refuse(TransactionChanged))
    else
      var reason := if s.amount < prior.amount then AmountReduced else Cancelled;
      var releases := Releases(db, supersedes, HeldSlots(db, supersedes), AllHolds(reason), s.key, s.actor);
      var closed := SetStatus(db, supersedes, Released);
      var db1 :- InsertReservation(closed, s, Some(supersedes), clk.now);
      Fill(db1, s, releases, ResubmitStep, clk)
  }

  function SetStatus(db: Db, id: ResId, status: ReservationStatus): Db
    requires id in db.reservations
  {
    db.(reservations := db.reservations[id := db.reservations[id].(status := status)])
  }

  predicate FullyHeld(db: Db, id: ResId, policy: PolicyId, amount: int, clk: Clock)
    requires policy in db.policies
  {
    var slot := CurrentSlot(db, policy, clk);
    IsCurrent(db, id, slot, clk) && db.holds[HoldKey(id, slot)].reserved == amount
  }

  predicate StrayHold(db: Db, id: ResId, slot: Slot, policies: seq<PolicyId>, clk: Clock)
    requires HoldKey(id, slot) in db.holds
  {
    db.holds[HoldKey(id, slot)].reserved > 0 && !(slot.policy in policies && IsCurrent(db, id, slot, clk))
  }

  /** Every applicable budget holds the full amount now, and nothing else is held. */
  predicate ReadyToCommit(db: Db, id: ResId, policies: seq<PolicyId>, amount: int, clk: Clock)
    requires forall p :: p in policies ==> p in db.policies
  {
    && (forall p :: p in policies ==> FullyHeld(db, id, p, amount, clk))
    && (forall slot :: slot in HeldSlots(db, id) ==> !StrayHold(db, id, slot, policies, clk))
  }

  function ExecuteCommit(db: Db, cmd: Command, clk: Clock): Execution
    requires cmd.Commit?
  {
    var id := cmd.reservation;
    var r :- LockReservation(db, cmd.organisation, id);
    if r.status != Active || r.expiresAt <= clk.now then
      Failure(Refuse(ContextNotUsable))
    else if r.digest != cmd.digest || r.version != cmd.version || r.amount != cmd.amount
            || r.holdRevision as int != cmd.holdRevision then
      Failure(Refuse(TransactionChanged))
    else
      var policies :- ApplicablePolicies(db, r, clk.now);
      if !ReadyToCommit(db, id, policies, r.amount, clk) then
        Failure(RolloverRequired)
      else
        var db1 :- WriteAll(db, Commits(db, id, policies, r.amount, cmd.reference, cmd.key, cmd.actor), clk);
        var db2 := SetStatus(db1, id, Committed);
        var db3 := if cmd.withMutation then db2.(mutations := db2.mutations + [cmd.key]) else db2;
        Success((db3, Applied(id, Committed, r.holdRevision, None)))
  }

  function ExecuteClose(db: Db, organisation: Id, id: ResId, reason: Reason, status: ReservationStatus,
                        mustBeExpired: bool, key: Id, actor: Id, clk: Clock): Execution
  {
    var r :- LockReservation(db, organisation, id);
    if r.status != Active || (mustBeExpired && clk.now < r.expiresAt) then
      Failure(Refuse(ContextNotUsable))
    else
      var releases := Releases(db, id, HeldSlots(db, id), AllHolds(reason), key, actor);
      var db1 :- WriteAll(db, InPolicyOrder(releases, []), clk);
      Success((SetStatus(db1, id, status), Applied(id, status, r.holdRevision, None)))
  }

  function RolloverReleases(db: Db, id: ResId, policies: seq<PolicyId>, key: Id, actor: Id, clk: Clock): seq<Entry> {
    Releases(db, id, HeldSlots(db, id), StaleHolds(policies, clk), key, actor)
  }

  function RolloverReserves(db: Db, id: ResId, policies: seq<PolicyId>, amount: int, key: Id, actor: Id,
                            clk: Clock): seq<Entry>
    requires forall p :: p in policies ==> p in db.policies
  {
    Reserves(db, id, policies, amount, true, clk, RolloverStep, key, actor)
  }

  function ExecuteRollover(db: Db, organisation: Id, id: ResId, key: Id, actor: Id, clk: Clock): Execution {
    var r :- LockReservation(db, organisation, id);
    if r.status != Active || r.expiresAt <= clk.now then
      Failure(Refuse(ContextNotUsable))
    else
      var policies :- ApplicablePolicies(db, r, clk.now);
      var releases := RolloverReleases(db, id, policies, key, actor, clk);
      var reserves := RolloverReserves(db, id, policies, r.amount, key, actor, clk);
      var moved := releases != [] || reserves != [];
      var db1 :- WriteAll(db, InPolicyOrder(releases, reserves), clk);
      var revision := if moved then r.holdRevision + 1 else r.holdRevision;
      Success((SetHoldRevision(db1, id, revision), Applied(id, Active, revision, Some(moved))))
  }

  function SetHoldRevision(db: Db, id: ResId, revision: nat): Db
    requires id in db.reservations
  {
    db.(reservations := db.reservations[id := db.reservations[id].(holdRevision := revision)])
  }

  function Execute(db: Db, cmd: Command, clk: Clock): Execution {
    match cmd
    case Submit(s) => ExecuteSubmit(db, s, clk)
    case Resubmit(s, supersedes) => ExecuteResubmit(db, s, supersedes, clk)
    case Commit(_, _, _, _, _, _, _, _, _, _) => ExecuteCommit(db, cmd, clk)
    case Release(key, organisation, id, actor, reason) =>
      ExecuteClose(db, organisation, id, reason, Released, false, key, actor, clk)
    case Expire(key, organisation, id, actor) =>
      ExecuteClose(db, organisation, id, ExpiredHold, Expired, true, key, actor, clk)
    case Rollover(key, organisation, id, actor) => ExecuteRollover(db, organisation, id, key, actor, clk)
  }

  /** One transaction per command; the command record is written last. */
  function Run(db: Db, cmd: Command, clk: Clock): (Db, Outcome) {
    var key := cmd.IdempotencyKey();
    if !ArgumentsOk(cmd, clk.now) then
      (db, Threw)
    else if key in db.commands then
      (db, if db.commands[key].request == cmd then Replayed(db.commands[key].result) else Conflict)
    else
      match Execute(db, cmd, clk)
      case Failure(stop) => (db, StopOutcome(stop))
      case Success((db1, result)) =>
        (db1.(commands := db1.commands[key := CommandRecord(cmd, result)]), AppliedNow(result))
  }
}
