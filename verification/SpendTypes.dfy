/** The tables of the spend reservation ledger and the commands that move them. */
module SpendTypes {
  import opened Wrappers
  import opened Text

  type Id = string
  type Instant = int // milliseconds

  // ----- Budgets -----

  /** Budget ids are compared by the lock order, so they are JavaScript strings. */
  type PolicyId = JsString

  datatype PolicyStatus = ActivePolicy | Suspended | Retired

  /** MEMBERSHIP and ORGANISATION budgets are monthly, an AGREEMENT budget runs for its term. */
  datatype Scope = MembershipScope(membership: Id) | AgreementScope(agreement: Id) | OrganisationScope

  datatype Policy = Policy(
    revision: nat, status: PolicyStatus, scope: Scope,
    tenant: Id, organisation: Id, market: Id, currency: Id,
    timezone: Id, limit: int, from: Instant, until: Option<Instant>)

  datatype Period = Period(startsAt: Instant, endsAt: Instant)

  /** The transaction's instant, and the calendar month that holds an instant in a time zone. */
  datatype Clock = Clock(now: Instant, month: (Id, Instant) -> Period)

  function PeriodOf(p: Policy, clk: Clock): Period {
    if p.scope.AgreementScope? then
      Period(p.from, match p.until case Some(u) => u case None => p.from)
    else
      clk.month(p.timezone, clk.now)
  }

  predicate InEffect(now: Instant, from: Instant, until: Option<Instant>) {
    from <= now && (until.Some? ==> now < until.value)
  }

  // ----- Balances, reservations and holds -----

  datatype Slot = Slot(policy: PolicyId, period: Instant)

  predicate SlotLeq(a: Slot, b: Slot) {
    if a.policy == b.policy then a.period <= b.period else Leq(a.policy, b.policy)
  }

  datatype Balance = Balance(endsAt: Instant, committed: int, reserved: int)

  /** The id a submission derives from its Organisation and idempotency key. */
  datatype ResId = ResId(organisation: Id, key: Id)

  datatype ReservationStatus = Active | Committed | Released | Expired

  datatype Reservation = Reservation(
    tenant: Id, organisation: Id, membership: Id, submittedBy: Id,
    market: Id, currency: Id, agreement: Option<Id>,
    digest: Id, version: int, amount: int, purchase: Id, supersedes: Option<ResId>,
    expiresAt: Instant, status: ReservationStatus, holdRevision: nat)

  /** One hold row per reservation, budget and period; its revision is an attribute. */
  datatype HoldKey = HoldKey(reservation: ResId, slot: Slot)

  datatype Hold = Hold(revision: nat, reserved: int, committed: int)

  datatype Member = Member(
    organisation: Id, tenant: Id, active: bool, from: Option<Instant>, until: Option<Instant>)

  // ----- Ledger entries -----

  datatype Reason = Rejected | Cancelled | ExpiredHold | AmountReduced | PeriodRollover | PolicyRevised

  datatype EntryKind = ReserveEntry | CommitEntry(reference: Id) | ReleaseEntry(reason: Reason)

  datatype Step =
    | SubmitStep | ResubmitStep | RolloverStep | CommitStep
    | ReleaseStep(reservation: ResId, period: Instant)

  /** The ledger idempotency key: a hash of command, budget and step, taken as injective. */
  datatype EntryKey = EntryKey(command: Id, policy: PolicyId, step: Step)

  datatype Entry = Entry(
    kind: EntryKind, reservation: ResId, policy: PolicyId, revision: nat,
    period: Option<Instant>, amount: int, key: EntryKey, actor: Id)

  // ----- Commands -----

  datatype Submission = Submission(
    key: Id, purchase: Id, tenant: Id, organisation: Id, membership: Id, actor: Id,
    market: Id, currency: Id, agreement: Option<Id>,
    digest: Id, version: int, amount: int, expiresAt: Instant)

  datatype Command =
    | Submit(s: Submission)
    | Resubmit(s: Submission, supersedes: ResId)
    | Commit(key: Id, organisation: Id, reservation: ResId, actor: Id, holdRevision: int,
             digest: Id, version: int, amount: int, reference: Id, withMutation: bool)
    | Release(key: Id, organisation: Id, reservation: ResId, actor: Id, reason: Reason)
    | Expire(key: Id, organisation: Id, reservation: ResId, actor: Id)
    | Rollover(key: Id, organisation: Id, reservation: ResId, actor: Id)
  {
    function IdempotencyKey(): Id {
      if Submit? || Resubmit? then s.key else key
    }

    function Organisation(): Id {
      if Submit? || Resubmit? then s.organisation else organisation
    }
  }

  datatype Applied = Applied(
    reservation: ResId, status: ReservationStatus, holdRevision: nat, revalidate: Option<bool>)

  /** The closed decision reasons; the commands use six of them. */
  datatype DecisionReason =
    | BuyerNotAuthorised | RoleNotPermitted | SiteNotPermitted | MarketNotPermitted | PurchaseOrderRequired
    | SpendLimitExceeded | SpendPolicyNotConfigured | ApprovalThresholdExceeded | ApprovalAuthorityNotConfigured
    | SeparationOfDuties | TransactionChanged | ContextNotUsable | OperationNotActivated | SourceUnavailable

  type Refusal = r: DecisionReason | r in {
      BuyerNotAuthorised, SpendPolicyNotConfigured, SpendLimitExceeded, TransactionChanged, ContextNotUsable, SourceUnavailable }
    witness SourceUnavailable

  datatype Outcome =
    | AppliedNow(result: Applied)
    | Replayed(result: Applied)
    | Refused(reason: Refusal, rolloverRequired: bool)
    | Conflict
    | Threw // a TypeError for malformed arguments

  /** Why a command stops; its transaction is rolled back. */
  datatype Stop = Refuse(reason: Refusal) | RolloverRequired | ConflictStop

  function StopOutcome(stop: Stop): Outcome {
    match stop
    case Refuse(reason) => Refused(reason, false)
    case RolloverRequired => Refused(ContextNotUsable, true)
    case ConflictStop => Conflict
  }

  /** The stored request stands for its digest, which also covers its kind and Organisation. */
  datatype CommandRecord = CommandRecord(request: Command, result: Applied)

  datatype Db = Db(
    policies: map<PolicyId, Policy>,
    members: map<Id, Member>,
    reservations: map<ResId, Reservation>,
    holds: map<HoldKey, Hold>,
    balances: map<Slot, Balance>,
    entries: map<EntryKey, Entry>,
    commands: map<Id, CommandRecord>,
    mutations: seq<Id>) // the commands whose composed database mutation was written

  // ----- Argument assertions -----

  const MAX_RESERVATION_HOLD_MS: int := 30 * 24 * 60 * 60 * 1000
  const MAX_SAFE_INTEGER: int := 0x1F_FFFF_FFFF_FFFF

  predicate KeyOk(k: Id) {
    16 <= |k| <= 128 && forall c :: c in k ==>
      'A' <= c <= 'Z' || 'a' <= c <= 'z' || '0' <= c <= '9' || c in "._:-"
  }

  predicate DigestOk(d: Id) {
    |d| == 71 && d[..7] == "sha256:" && forall c :: c in d[7..] ==> '0' <= c <= '9' || 'a' <= c <= 'f'
  }

  predicate CurrencyOk(c: Id) {
    |c| == 3 && forall x :: x in c ==> 'A' <= x <= 'Z'
  }

  /** The characters `trim` removes. */
  predicate IsSpace(c: char) {
    '\U{9}' <= c <= '\U{D}' || '\U{2000}' <= c <= '\U{200A}' ||
    c in " \U{A0}\U{1680}\U{2028}\U{2029}\U{202F}\U{205F}\U{3000}\U{FEFF}"
  }

  predicate SubmissionOk(s: Submission, now: Instant) {
    && KeyOk(s.key)
    && (exists c :: c in s.purchase && !IsSpace(c)) && |s.purchase| <= 200
    && s.tenant != "" && s.organisation != "" && s.membership != "" && s.actor != "" && s.market != ""
    && CurrencyOk(s.currency) && DigestOk(s.digest)
    && 1 <= s.version <= MAX_SAFE_INTEGER
    && 0 < s.amount
    && 0 < s.expiresAt - now <= MAX_RESERVATION_HOLD_MS
  }

  predicate ArgumentsOk(cmd: Command, now: Instant) {
    match cmd
    case Submit(s) => SubmissionOk(s, now)
    case Resubmit(s, _) => SubmissionOk(s, now)
    case Commit(key, organisation, _, actor, holdRevision, digest, _, _, reference, _) =>
      && KeyOk(key) && organisation != "" && actor != ""
      && DigestOk(digest) && reference != "" && 1 <= holdRevision <= MAX_SAFE_INTEGER
    case Release(key, organisation, _, actor, reason) =>
      KeyOk(key) && organisation != "" && actor != "" && (reason == Rejected || reason == Cancelled)
    case Expire(key, organisation, _, actor) => KeyOk(key) && organisation != "" && actor != ""
    case Rollover(key, organisation, _, actor) => KeyOk(key) && organisation != "" && actor != ""
  }
}
