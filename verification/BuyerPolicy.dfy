/** The buyer operation policy: one decision from facts that were loaded elsewhere. */
module BuyerPolicy {
  import opened Wrappers
  import opened SpendTypes

  // ----- Facts -----

  datatype Source<+T> = Read(value: T) | Unavailable

  datatype Operation =
    | ResolveContext | ViewCatalogue | ViewContractPrice | SubmitRfq | ModifyCart
    | AcceptQuotation | CommitOrder | CreateOrder | FinalizeDraftOrder
    | DecideApproval | ManageMember | AcceptInvitation | UnknownOperation(name: Id)

  datatype SiteRule = NoSite | IfReferenced | Required
  datatype OperationKind = ReadOnly | Change | Commitment | Approval | Governed

  datatype Rule = Rule(roles: set<Id>, market: bool, site: SiteRule, kind: OperationKind)

  const ALL_ROLES: set<Id> := {"BUYER", "SENIOR_BUYER", "APPROVER", "PROCUREMENT_MANAGER", "ACCOUNT_ADMIN", "VIEWER"}
  const PURCHASING: set<Id> := {"BUYER", "SENIOR_BUYER", "PROCUREMENT_MANAGER", "ACCOUNT_ADMIN"}
  const APPROVING: set<Id> := {"APPROVER", "PROCUREMENT_MANAGER", "ACCOUNT_ADMIN"}

  function RuleOf(operation: Operation): Option<Rule> {
    match operation
    case ResolveContext => Some(Rule(ALL_ROLES, false, NoSite, ReadOnly))
    case ViewCatalogue | ViewContractPrice => Some(Rule(ALL_ROLES, true, IfReferenced, ReadOnly))
    case SubmitRfq | ModifyCart => Some(Rule(PURCHASING, true, IfReferenced, Change))
    case AcceptQuotation => Some(Rule(PURCHASING, true, IfReferenced, Commitment))
    case CommitOrder | CreateOrder | FinalizeDraftOrder => Some(Rule(PURCHASING, true, Required, Commitment))
    case DecideApproval => Some(Rule(APPROVING, true, IfReferenced, Approval))
    case ManageMember => Some(Rule({"ACCOUNT_ADMIN"}, false, NoSite, Governed))
    case AcceptInvitation => Some(Rule({}, false, NoSite, Governed))
    case UnknownOperation(_) => None
  }

  datatype Interval = Interval(from: Option<Instant>, until: Option<Instant>)
  {
    predicate Contains(now: Instant) {
      (from.Some? ==> from.value <= now) && (until.Some? ==> now < until.value)
    }
  }

  datatype GrantStatus = ActiveGrant | SuspendedGrant | RevokedGrant
  datatype ScopeGrant = ScopeGrant(key: Id, status: GrantStatus, effective: Interval)
  datatype RoleAssignment = RoleAssignment(roleId: Id, role: Id, markets: seq<ScopeGrant>, sites: seq<ScopeGrant>)

  datatype Use = Shipping | Billing
  datatype SiteUse = SiteUse(siteId: Id, use: Use)
  datatype SiteStatus = ActiveSite | SuspendedSite | ClosedSite
  datatype SiteRecord = SiteRecord(id: Id, organisation: Id, market: Id, status: SiteStatus, allowShipping: bool, allowBilling: bool)

  datatype Transaction = Transaction(amount: int, currency: Id, digest: Id, version: Id, agreement: Option<Id>)

  datatype BudgetFact = BudgetFact(
    policy: PolicyId, revision: nat, status: PolicyStatus, scope: Scope, market: Id, currency: Id, limit: int,
    from: Instant, until: Option<Instant>, period: Option<Period>, committed: int, reserved: int)

  datatype HoldFact = HoldFact(policy: PolicyId, revision: nat, periodStartsAt: Instant, reserved: int)

  datatype ReservationFact = ReservationFact(
    status: ReservationStatus, membership: Id, market: Id, currency: Id, agreement: Option<Id>,
    digest: Id, version: Id, expiresAt: Instant, holds: seq<HoldFact>)

  datatype SpendAuthority = SpendAuthority(
    market: Option<Id>, currency: Id, orderLimit: Option<int>, approvalLimit: Option<int>, effective: Interval)

  datatype ApprovalPolicy = ApprovalPolicy(market: Option<Id>, currency: Id, threshold: Option<int>, enabled: bool)

  /** A format pattern compiles to a test of the whole number, or does not compile. */
  datatype Pattern = Uncompilable | Matches(test: string -> bool)
  datatype PurchaseOrderRule = PurchaseOrderRule(required: bool, format: Option<Pattern>)
  datatype PurchaseOrder = PurchaseOrder(rule: Option<PurchaseOrderRule>, number: Option<string>)

  datatype ApprovalStatus = Pending | Approved | RejectedApproval | CancelledApproval
  datatype BoundApproval = BoundApproval(
    status: ApprovalStatus, organisation: Id, initiator: Option<Id>, approver: Option<Id>, market: Option<Id>,
    amount: int, currency: Id, digest: Option<Id>, version: Option<Id>, policyRevision: Option<Id>)

  datatype MarketAuthority = Attested | DeniedMarket | UnknownMarket

  datatype Facts = Facts(
    operation: Operation, now: Instant, principal: Id, organisation: Id, membershipId: Id,
    membershipActive: bool, membershipEffective: Interval,
    roles: Source<seq<RoleAssignment>>, market: Option<Id>, marketAuthority: MarketAuthority,
    sites: seq<SiteUse>, siteRecords: Source<seq<SiteRecord>>, transaction: Option<Transaction>,
    spendAuthorities: Source<seq<SpendAuthority>>, approvalPolicies: Source<seq<ApprovalPolicy>>,
    purchaseOrder: Source<PurchaseOrder>, budgets: Source<seq<BudgetFact>>,
    reservation: Option<Source<ReservationFact>>, approval: Option<BoundApproval>,
    reevaluation: Option<Decision>)

  // ----- Decisions -----

  datatype DecisionOutcome = Allow | Deny | ApprovalRequired | UnavailableOutcome

  datatype Decision = Decision(outcome: DecisionOutcome, reasons: seq<DecisionReason>)

  const ALLOWED := Decision(Allow, [])
  const UNAVAILABLE := Decision(UnavailableOutcome, [SourceUnavailable])

  function Denied(reason: DecisionReason): Decision {
    Decision(Deny, [reason])
  }

  const POLICY_REVISION: Id := "trade.buyer-operation-policy:v1"

  // ----- Reading records -----

  function Filter<T>(s: seq<T>, p: T -> bool): seq<T>
    decreases |s|
  {
    if s == [] then [] else (if p(s[0]) then [s[0]] else []) + Filter(s[1..], p)
  }

  /** Exactly one record applies, or none; two is ambiguous and never resolved by picking one. */
  datatype Single<+T> = One(value: T) | NoRecord | Ambiguous

  function SingleOf<T>(s: seq<T>): Single<T> {
    if |s| == 0 then NoRecord else if |s| == 1 then One(s[0]) else Ambiguous
  }

  function Find<T>(s: seq<T>, p: T -> bool): Option<T>
    decreases |s|
  {
    if s == [] then None else if p(s[0]) then Some(s[0]) else Find(s[1..], p)
  }

  predicate Granted(grants: seq<ScopeGrant>, key: Id, now: Instant) {
    exists g :: g in grants && g.key == key && g.status == ActiveGrant && g.effective.Contains(now)
  }

  predicate GrantedSites(r: RoleAssignment, sites: seq<SiteUse>, now: Instant) {
    forall s :: s in sites ==> Granted(r.sites, s.siteId, now)
  }

  predicate Present(text: Option<Id>) {
    text.Some? && text.value != ""
  }

  /** 1 to 64 printable characters, neither first nor last a space. */
  predicate PurchaseNumberOk(number: string) {
    && 1 <= |number| <= 64 && number[0] != ' ' && number[|number| - 1] != ' '
    && forall c :: c in number ==> ' ' <= c <= '~'
  }

  // ----- The evaluator -----

  function Evaluate(f: Facts): Decision {
    var rule := RuleOf(f.operation);
    if rule.None? then
      Denied(RoleNotPermitted)
    else if f.operation == AcceptInvitation then
      Denied(OperationNotActivated)
    else if !f.membershipActive || !f.membershipEffective.Contains(f.now) then
      Denied(BuyerNotAuthorised)
    else if f.roles.Unavailable? then
      UNAVAILABLE
    else if Permitted(f, rule.value) == [] then
      Denied(RoleNotPermitted)
    else if rule.value.kind == Governed then
      Denied(OperationNotActivated)
    else if rule.value.market && !Present(f.market) then
      Denied(ContextNotUsable)
    else if rule.value.market && f.marketAuthority == UnknownMarket then
      UNAVAILABLE
    else if rule.value.market && f.marketAuthority != Attested then
      Denied(MarketNotPermitted)
    else if SiteRefusal(f, rule.value).Some? then
      SiteRefusal(f, rule.value).value
    else if WithMarket(f, rule.value) == [] then
      Denied(MarketNotPermitted)
    else if Filter(WithMarket(f, rule.value), (r: RoleAssignment) => GrantedSites(r, f.sites, f.now)) == [] then
      Denied(SiteNotPermitted)
    else
      match rule.value.kind
      case Commitment => EvaluateCommitment(f)
      case Approval => EvaluateApprovalDecision(f)
      case _ => ALLOWED
  }

  /** The permitted roles actually held; unknown role values grant nothing. */
  function Permitted(f: Facts, rule: Rule): seq<RoleAssignment>
    requires f.roles.Read?
  {
    Filter(f.roles.value, (r: RoleAssignment) => r.role in ALL_ROLES && r.role in rule.roles)
  }

  function WithMarket(f: Facts, rule: Rule): seq<RoleAssignment>
    requires f.roles.Read?
  {
    if rule.market then
      Filter(Permitted(f, rule), (r: RoleAssignment) => f.market.Some? && Granted(r.markets, f.market.value, f.now))
    else
      Permitted(f, rule)
  }

  function SiteRefusal(f: Facts, rule: Rule): Option<Decision> {
    if rule.site == NoSite && f.sites != [] then
      Some(Denied(ContextNotUsable))
    else if rule.site == Required && !(exists s :: s in f.sites && s.use == Shipping) then
      Some(Denied(ContextNotUsable))
    else if f.sites == [] then
      None
    else if f.siteRecords.Unavailable? then
      Some(UNAVAILABLE)
    else
      FirstSiteRefusal(f, f.sites, f.siteRecords.value)
  }

  function FirstSiteRefusal(f: Facts, uses: seq<SiteUse>, records: seq<SiteRecord>): Option<Decision>
    decreases |uses|
  {
    if uses == [] then
      None
    else
      var site := Find(records, (s: SiteRecord) => s.id == uses[0].siteId);
      if site.None? || site.value.organisation != f.organisation then
        Some(Denied(BuyerNotAuthorised))
      else if !SiteUsable(site.value, uses[0].use, f.market) then
        Some(Denied(SiteNotPermitted))
      else
        FirstSiteRefusal(f, uses[1..], records)
  }

  predicate SiteUsable(site: SiteRecord, use: Use, market: Option<Id>) {
    && site.status == ActiveSite && market == Some(site.market)
    && if use == Shipping then site.allowShipping else site.allowBilling
  }

  function PurchaseOrderRefusal(po: PurchaseOrder): Option<Decision> {
    if po.rule.None? || !po.rule.value.required then
      None
    else if po.number.None? || !PurchaseNumberOk(po.number.value) then
      Some(Denied(PurchaseOrderRequired))
    else if po.rule.value.format.None? then
      None
    else if po.rule.value.format.value.Uncompilable? then
      Some(Denied(ContextNotUsable))
    else if !po.rule.value.format.value.test(po.number.value) then
      Some(Denied(PurchaseOrderRequired))
    else
      None
  }

  /** The spend authorities in effect for this Market and currency. */
  function Limits(f: Facts, currency: Id): Single<SpendAuthority>
    requires f.spendAuthorities.Read?
  {
    SingleOf(Filter(f.spendAuthorities.value,
                    (s: SpendAuthority) => s.market == f.market && s.currency == currency && s.effective.Contains(f.now)))
  }

  function Escalation(f: Facts, currency: Id): Single<ApprovalPolicy>
    requires f.approvalPolicies.Read?
  {
    SingleOf(Filter(f.approvalPolicies.value,
                    (p: ApprovalPolicy) => p.enabled && p.market == f.market && p.currency == currency))
  }

  function EvaluateCommitment(f: Facts): Decision {
    if f.transaction.None? || f.transaction.value.amount <= 0 || !Present(f.market) then
      Denied(ContextNotUsable)
    else
      var tx := f.transaction.value;
      if f.purchaseOrder.Unavailable? then
        UNAVAILABLE
      else if PurchaseOrderRefusal(f.purchaseOrder.value).Some? then
        PurchaseOrderRefusal(f.purchaseOrder.value).value
      else if f.spendAuthorities.Unavailable? then
        UNAVAILABLE
      else
        var limit := Limits(f, tx.currency);
        if limit.Ambiguous? then
          Denied(ContextNotUsable)
        else if limit.NoRecord? || limit.value.orderLimit.None? || limit.value.orderLimit.value <= 0 then
          Denied(SpendPolicyNotConfigured)
        else
          var cumulative := EvaluateBudgets(f, tx, f.market.value);
          if cumulative.Some? then cumulative.value else Escalate(f, tx, limit.value.orderLimit.value)
  }

  /** Escalation exists only under an explicit, enabled approval policy. */
  function Escalate(f: Facts, tx: Transaction, orderLimit: int): Decision
    requires f.market.Some?
  {
    if f.approvalPolicies.Unavailable? then
      UNAVAILABLE
    else
      var policy := Escalation(f, tx.currency);
      var overLimit := tx.amount > orderLimit;
      var overThreshold := policy.One? && policy.value.threshold.Some? && tx.amount > policy.value.threshold.value;
      if policy.Ambiguous? then
        Denied(ContextNotUsable)
      else if overLimit && policy.NoRecord? then
        Denied(SpendLimitExceeded)
      else if !overLimit && !overThreshold then
        ALLOWED
      else
        var reasons := (if overLimit then [SpendLimitExceeded] else []) + (if overThreshold then [ApprovalThresholdExceeded] else []);
        if f.approval.None? || f.approval.value.status != Approved then
          Decision(ApprovalRequired, reasons)
        else
          ApplyApproval(f, tx, f.market.value, f.approval.value, reasons)
  }

  predicate Mismatched(r: ReservationFact, f: Facts, tx: Transaction, market: Id) {
    || r.membership != f.membershipId || r.market != market || r.currency != tx.currency
    || r.agreement != tx.agreement || r.digest != tx.digest || r.version != tx.version
  }

  function Applicable(f: Facts, tx: Transaction, market: Id): seq<BudgetFact>
    requires f.budgets.Read?
  {
    Filter(f.budgets.value,
           (b: BudgetFact) =>
             b.status == ActivePolicy && InEffect(f.now, b.from, b.until) && b.market == market && b.currency == tx.currency)
  }

  function MembershipBudget(f: Facts, applicable: seq<BudgetFact>): Single<BudgetFact> {
    SingleOf(Filter(applicable, (b: BudgetFact) => b.scope == MembershipScope(f.membershipId)))
  }

  function OrganisationBudget(applicable: seq<BudgetFact>): Single<BudgetFact> {
    SingleOf(Filter(applicable, (b: BudgetFact) => b.scope == OrganisationScope))
  }

  function AgreementBudget(applicable: seq<BudgetFact>, agreement: Option<Id>): Single<BudgetFact> {
    SingleOf(Filter(applicable, (b: BudgetFact) => agreement.Some? && b.scope == AgreementScope(agreement.value)))
  }

  /** The purchase's own reservation, while it still may authorise. */
  function UsableReservation(f: Facts): Option<ReservationFact> {
    if f.reservation.Some? && f.reservation.value.Read? && f.reservation.value.value.status == Active
       && f.now < f.reservation.value.value.expiresAt then
      Some(f.reservation.value.value)
    else
      None
  }

  /** Every applicable budget must cover the part of the purchase that its own valid hold does not already cover. */
  function EvaluateBudgets(f: Facts, tx: Transaction, market: Id): Option<Decision> {
    if f.budgets.Unavailable? || (f.reservation.Some? && f.reservation.value.Unavailable?) then
      Some(UNAVAILABLE)
    else if f.reservation.Some? && Mismatched(f.reservation.value.value, f, tx, market) then
      Some(Denied(TransactionChanged))
    else
      var applicable := Applicable(f, tx, market);
      var membership, organisation, agreement :=
        MembershipBudget(f, applicable), OrganisationBudget(applicable), AgreementBudget(applicable, tx.agreement);
      if membership.NoRecord? then
        Some(Denied(SpendPolicyNotConfigured))
      else if membership.Ambiguous? || organisation.Ambiguous? || agreement.Ambiguous? then
        Some(Denied(ContextNotUsable))
      else if Covers(f, tx, membership) && Covers(f, tx, organisation) && Covers(f, tx, agreement) then
        None
      else
        Some(Denied(SpendLimitExceeded))
  }

  predicate PeriodCurrent(b: BudgetFact, now: Instant) {
    b.period.Some? && b.period.value.startsAt <= now < b.period.value.endsAt
  }

  /** What the purchase's own hold in the budget's current period already covers. */
  function Credited(f: Facts, b: BudgetFact): int {
    var usable := UsableReservation(f);
    if !PeriodCurrent(b, f.now) || usable.None? then
      0
    else
      var hold := Find(usable.value.holds,
                       (h: HoldFact) => h.policy == b.policy && h.revision == b.revision && h.periodStartsAt == b.period.value.startsAt);
      if hold.Some? then hold.value.reserved else 0
  }

  function Consumed(b: BudgetFact, now: Instant): int {
    if PeriodCurrent(b, now) then b.committed + b.reserved else 0
  }

  predicate Covers(f: Facts, tx: Transaction, budget: Single<BudgetFact>) {
    budget.One? ==>
      var needed := tx.amount - Credited(f, budget.value);
      needed <= 0 || needed <= budget.value.limit - Consumed(budget.value, f.now)
  }

  /** The approval is for exactly this transaction. */
  predicate BoundTo(approval: BoundApproval, tx: Transaction, market: Id) {
    && approval.digest == Some(tx.digest) && approval.version == Some(tx.version) && approval.amount == tx.amount
    && approval.currency == tx.currency && approval.market == Some(market)
  }

  function ApplyApproval(f: Facts, tx: Transaction, market: Id, approval: BoundApproval, reasons: seq<DecisionReason>): Decision {
    if approval.organisation != f.organisation then
      Denied(BuyerNotAuthorised)
    else if !Present(approval.initiator) || !Present(approval.approver) || approval.policyRevision.None? then
      Denied(ContextNotUsable)
    else if approval.initiator != Some(f.principal) then
      Denied(BuyerNotAuthorised)
    else if approval.approver == approval.initiator then
      Denied(SeparationOfDuties)
    else if !BoundTo(approval, tx, market) || approval.policyRevision != Some(POLICY_REVISION) then
      Denied(TransactionChanged)
    else if f.reevaluation.None? || f.reevaluation.value.outcome == UnavailableOutcome then
      UNAVAILABLE
    else if f.reevaluation.value.outcome != Allow then
      Decision(ApprovalRequired, reasons)
    else
      ALLOWED
  }

  function EvaluateApprovalDecision(f: Facts): Decision {
    if f.transaction.None? || f.approval.None? || f.transaction.value.amount <= 0 || !Present(f.market) then
      Denied(ContextNotUsable)
    else
      var tx, approval := f.transaction.value, f.approval.value;
      if approval.organisation != f.organisation then
        Denied(BuyerNotAuthorised)
      else if !Present(approval.initiator) then
        Denied(ContextNotUsable)
      else if approval.initiator == Some(f.principal) then
        Denied(SeparationOfDuties)
      else if !BoundTo(approval, tx, f.market.value) then
        Denied(TransactionChanged)
      else if approval.status != Pending && !(approval.status == Approved && approval.approver == Some(f.principal)) then
        Denied(ContextNotUsable)
      else if f.spendAuthorities.Unavailable? then
        UNAVAILABLE
      else
        var limit := Limits(f, tx.currency);
        if limit.Ambiguous? then
          Denied(ContextNotUsable)
        else if limit.NoRecord? || limit.value.approvalLimit.None? || limit.value.approvalLimit.value <= 0 then
          Denied(ApprovalAuthorityNotConfigured)
        else if tx.amount > limit.value.approvalLimit.value then
          Denied(ApprovalThresholdExceeded)
        else
          ALLOWED
  }
}
