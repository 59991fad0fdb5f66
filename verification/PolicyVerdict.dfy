/** The decision for all facts, with every table, comparison and reason written out. */
module PolicyVerdict {
  import opened Wrappers
  import opened SpendTypes
  import opened BuyerPolicy
  import opened PolicyMeaning

  // ----- The operations -----

  const READING: set<Operation> := {ResolveContext, ViewCatalogue, ViewContractPrice}
  const CHANGING: set<Operation> := {SubmitRfq, ModifyCart}
  const COMMITTING: set<Operation> := {AcceptQuotation, CommitOrder, CreateOrder, FinalizeDraftOrder}
  const TO_A_SITE: set<Operation> := {CommitOrder, CreateOrder, FinalizeDraftOrder}

  /** Whom an operation is open to. */
  function Serving(operation: Operation): set<Id> {
    if operation in READING then {"BUYER", "SENIOR_BUYER", "APPROVER", "PROCUREMENT_MANAGER", "ACCOUNT_ADMIN", "VIEWER"}
    else if operation in CHANGING + COMMITTING then {"BUYER", "SENIOR_BUYER", "PROCUREMENT_MANAGER", "ACCOUNT_ADMIN"}
    else if operation == DecideApproval then {"APPROVER", "PROCUREMENT_MANAGER", "ACCOUNT_ADMIN"}
    else if operation == ManageMember then {"ACCOUNT_ADMIN"}
    else {}
  }

  predicate Marketed(operation: Operation) {
    operation in READING + CHANGING + COMMITTING + {DecideApproval} && operation != ResolveContext
  }

  /** The rules are this table. */
  lemma RulesAre(operation: Operation)
    ensures RuleOf(operation).None? <==> operation.UnknownOperation?
    ensures RuleOf(operation).Some? ==>
      var rule := RuleOf(operation).value;
      && rule.roles == Serving(operation) && rule.roles <= ALL_ROLES && (rule.market <==> Marketed(operation))
      && (rule.site == NoSite <==> !Marketed(operation)) && (rule.site == Required <==> operation in TO_A_SITE)
      && (rule.kind == ReadOnly <==> operation in READING) && (rule.kind == Change <==> operation in CHANGING)
      && (rule.kind == Commitment <==> operation in COMMITTING) && (rule.kind == Approval <==> operation == DecideApproval)
      && (rule.kind == Governed <==> operation in {ManageMember, AcceptInvitation})
  {
  }

  // ----- Words -----

  const YES := Decision(Allow, [])
  const DARK := Decision(UnavailableOutcome, [SourceUnavailable])

  function No(reason: DecisionReason): Decision {
    Decision(Deny, [reason])
  }

  predicate Within(now: Instant, i: Interval) {
    (i.from.None? || i.from.value <= now) && (i.until.None? || i.until.value > now)
  }

  predicate Named(text: Option<Id>) {
    text.Some? && |text.value| > 0
  }

  /** An ACTIVE grant of this key, in its interval. */
  predicate Grants(grants: seq<ScopeGrant>, key: Id, now: Instant) {
    exists i :: 0 <= i < |grants| && grants[i].key == key && grants[i].status == ActiveGrant && Within(now, grants[i].effective)
  }

  // ----- Roles, Market and Sites -----

  predicate Holds(f: Facts, i: int)
    requires f.roles.Read?
  {
    0 <= i < |f.roles.value| && f.roles.value[i].role in Serving(f.operation)
  }

  predicate HoldsInMarket(f: Facts, i: int)
    requires f.roles.Read?
  {
    Holds(f, i) && (Marketed(f.operation) ==> f.market.Some? && Grants(f.roles.value[i].markets, f.market.value, f.now))
  }

  predicate HoldsEverywhere(f: Facts, i: int)
    requires f.roles.Read?
  {
    HoldsInMarket(f, i) && forall k :: 0 <= k < |f.sites| ==> Grants(f.roles.value[i].sites, f.sites[k].siteId, f.now)
  }

  /** The first record with the Site's id. */
  predicate IsSite(f: Facts, use: SiteUse, k: int)
    requires f.siteRecords.Read?
  {
    var records := f.siteRecords.value;
    0 <= k < |records| && records[k].id == use.siteId && forall l :: 0 <= l < k ==> records[l].id != use.siteId
  }

  ghost predicate OwnSite(f: Facts, use: SiteUse)
    requires f.siteRecords.Read?
  {
    exists k :: IsSite(f, use, k) && f.siteRecords.value[k].organisation == f.organisation
  }

  ghost predicate ServedSite(f: Facts, use: SiteUse)
    requires f.siteRecords.Read?
  {
    exists k :: IsSite(f, use, k)
      && var site := f.siteRecords.value[k];
         && site.organisation == f.organisation && site.status == ActiveSite && Some(site.market) == f.market
         && match use.use
            case Shipping => site.allowShipping
            case Billing => site.allowBilling
  }

  /** The first use that is not served decides. */
  ghost predicate FirstUnserved(f: Facts, i: int)
    requires f.siteRecords.Read?
  {
    0 <= i < |f.sites| && !ServedSite(f, f.sites[i]) && forall j :: 0 <= j < i ==> ServedSite(f, f.sites[j])
  }

  ghost function SiteVerdict(f: Facts): Option<Decision> {
    if !Marketed(f.operation) && f.sites != [] then
      Some(No(ContextNotUsable))
    else if f.operation in TO_A_SITE && (forall i :: 0 <= i < |f.sites| ==> f.sites[i].use != Shipping) then
      Some(No(ContextNotUsable))
    else if f.sites == [] then
      None
    else if !f.siteRecords.Read? then
      Some(DARK)
    else if exists i :: FirstUnserved(f, i) && !OwnSite(f, f.sites[i]) then
      Some(No(BuyerNotAuthorised))
    else if exists i :: FirstUnserved(f, i) then
      Some(No(SiteNotPermitted))
    else
      None
  }

  lemma {:induction false} FindIs<T>(s: seq<T>, p: T -> bool)
    ensures match Find(s, p)
            case None => forall k :: 0 <= k < |s| ==> !p(s[k])
            case Some(x) => exists k :: 0 <= k < |s| && s[k] == x && p(x) && forall l :: 0 <= l < k ==> !p(s[l])
    decreases |s|
  {
    if s != [] && !p(s[0]) {
      FindIs(s[1..], p);
      assert forall k :: 0 < k < |s| ==> s[k] == s[1..][k - 1];
      if Find(s, p).Some? {
        var k :| 0 <= k < |s[1..]| && s[1..][k] == Find(s, p).value && forall l :: 0 <= l < k ==> !p(s[1..][l]);
        assert s[k + 1] == Find(s, p).value;
      }
    }
  }

  lemma UseIs(f: Facts, use: SiteUse)
    requires f.siteRecords.Read?
    ensures var site := SiteOf(f.siteRecords.value, use);
            && (OwnSite(f, use) <==> site.Some? && site.value.organisation == f.organisation)
            && (ServedSite(f, use) <==> OwnSite(f, use) && SiteUsable(site.value, use.use, f.market))
  {
    var records := f.siteRecords.value;
    FindIs(records, (s: SiteRecord) => s.id == use.siteId);
    var site := SiteOf(records, use);
    forall k | IsSite(f, use, k) ensures site == Some(records[k]) {}
    if site.Some? {
      var k :| 0 <= k < |records| && records[k] == site.value && forall l :: 0 <= l < k ==> records[l].id != use.siteId;
      assert IsSite(f, use, k);
    }
  }

  /** The Site check of the uses from i on, all before being served. */
  lemma {:induction false} SitesFrom(f: Facts, i: nat)
    requires f.siteRecords.Read? && i <= |f.sites| && forall j :: 0 <= j < i ==> ServedSite(f, f.sites[j])
    ensures match FirstSiteRefusal(f, f.sites[i..], f.siteRecords.value)
            case None => forall j :: !FirstUnserved(f, j)
            case Some(d) => exists j :: FirstUnserved(f, j) && d == if OwnSite(f, f.sites[j]) then No(SiteNotPermitted) else No(BuyerNotAuthorised)
    decreases |f.sites| - i
  {
    hide OwnSite, ServedSite, SiteUsable, Find;
    if i < |f.sites| {
      UseIs(f, f.sites[i]);
      assert f.sites[i..][0] == f.sites[i] && f.sites[i..][1..] == f.sites[i + 1..];
      if ServedSite(f, f.sites[i]) {
        SitesFrom(f, i + 1);
      } else {
        assert FirstUnserved(f, i);
      }
    }
  }

  lemma SitesAre(f: Facts)
    requires RuleOf(f.operation).Some?
    ensures SiteRefusal(f, RuleOf(f.operation).value) == SiteVerdict(f)
  {
    hide OwnSite, ServedSite, FirstSiteRefusal, RuleOf;
    RulesAre(f.operation);
    if f.siteRecords.Read? {
      SitesFrom(f, 0);
      assert f.sites[0..] == f.sites;
      forall i, j | FirstUnserved(f, i) && FirstUnserved(f, j) ensures i == j {}
    }
    assert (exists s :: s in f.sites && s.use == Shipping) <==> exists i :: 0 <= i < |f.sites| && f.sites[i].use == Shipping;
  }

  // ----- One role for everything -----

  lemma GrantsAlike(grants: seq<ScopeGrant>, key: Id, now: Instant)
    ensures Granted(grants, key, now) <==> Grants(grants, key, now)
  {
  }

  lemma RolesAre(f: Facts, rule: Rule)
    requires f.roles.Read? && RuleOf(f.operation) == Some(rule)
    ensures Permitted(f, rule) != [] <==> exists i :: Holds(f, i)
    ensures WithMarket(f, rule) != [] <==> exists i :: HoldsInMarket(f, i)
    ensures Filter(WithMarket(f, rule), (r: RoleAssignment) => GrantedSites(r, f.sites, f.now)) != [] <==> exists i :: HoldsEverywhere(f, i)
  {
    hide Granted, Grants, RuleOf, Filter, Serving, Marketed;
    RulesAre(f.operation);
    forall grants, key ensures Granted(grants, key, f.now) <==> Grants(grants, key, f.now) {
      GrantsAlike(grants, key, f.now);
    }
    var all := f.roles.value;
    var may := (r: RoleAssignment) => r.role in ALL_ROLES && r.role in rule.roles;
    var market := (r: RoleAssignment) => f.market.Some? && Granted(r.markets, f.market.value, f.now);
    var sites := (r: RoleAssignment) => GrantedSites(r, f.sites, f.now);
    FilterMembers(all, may);
    FilterMembers(Permitted(f, rule), market);
    FilterMembers(WithMarket(f, rule), sites);
    Inhabited(Permitted(f, rule));
    Inhabited(WithMarket(f, rule));
    Inhabited(Filter(WithMarket(f, rule), sites));
    forall i | 0 <= i < |all|
      ensures Holds(f, i) <==> all[i] in Permitted(f, rule)
      ensures HoldsInMarket(f, i) <==> all[i] in WithMarket(f, rule)
      ensures HoldsEverywhere(f, i) <==> all[i] in Filter(WithMarket(f, rule), sites)
    {
      assert GrantedSites(all[i], f.sites, f.now) <==> forall k :: 0 <= k < |f.sites| ==> Granted(all[i].sites, f.sites[k].siteId, f.now);
    }
  }

  lemma Inhabited<T>(s: seq<T>)
    ensures s != [] <==> exists x :: x in s
  {
    if s != [] {
      assert s[0] in s;
    }
  }

  // ----- What a commitment is checked against -----

  /** 1 to 64 printable characters, the first and the last of them visible. */
  predicate NumberOk(number: string) {
    && 0 < |number| < 65
    && 0x21 <= number[0] as int <= 0x7E && 0x21 <= number[|number| - 1] as int <= 0x7E
    && forall i :: 0 <= i < |number| ==> 0x20 <= number[i] as int <= 0x7E
  }

  function OrderNumberVerdict(po: PurchaseOrder): Option<Decision> {
    match po.rule
    case None => None
    case Some(PurchaseOrderRule(false, _)) => None
    case Some(PurchaseOrderRule(true, format)) =>
      if !(po.number.Some? && NumberOk(po.number.value)) then Some(No(PurchaseOrderRequired))
      else if format == Some(Uncompilable) then Some(No(ContextNotUsable))
      else if format.Some? && !format.value.test(po.number.value) then Some(No(PurchaseOrderRequired))
      else None
  }

  /** A limit for this Market and currency, in effect. */
  function LimitCounts(f: Facts, currency: Id): SpendAuthority -> bool {
    (s: SpendAuthority) => (s.market, s.currency) == (f.market, currency) && Within(f.now, s.effective)
  }

  function PolicyCounts(f: Facts, currency: Id): ApprovalPolicy -> bool {
    (p: ApprovalPolicy) => (p.market, p.currency, p.enabled) == (f.market, currency, true)
  }

  /** An ACTIVE budget for this Market and currency, in its term, of this scope. */
  function BudgetCounts(f: Facts, tx: Transaction, scope: Scope): BudgetFact -> bool {
    (b: BudgetFact) =>
      && b.status == ActivePolicy && b.from <= f.now && (b.until.None? || b.until.value > f.now)
      && (Some(b.market), b.currency, b.scope) == (f.market, tx.currency, scope)
  }

  predicate InPeriod(b: BudgetFact, now: Instant) {
    match b.period
    case None => false
    case Some(Period(startsAt, endsAt)) => startsAt <= now < endsAt
  }

  /** The purchase's own hold: the first of its live reservation in this budget's current period and revision. */
  ghost predicate IsOwnHold(f: Facts, b: BudgetFact, k: int) {
    && f.reservation.Some? && f.reservation.value.Read? && InPeriod(b, f.now)
    && f.reservation.value.value.status == Active && f.now < f.reservation.value.value.expiresAt
    && var holds := f.reservation.value.value.holds;
       && 0 <= k < |holds| && OfPeriod(holds[k], b) && forall l :: 0 <= l < k ==> !OfPeriod(holds[l], b)
  }

  predicate OfPeriod(h: HoldFact, b: BudgetFact)
    requires b.period.Some?
  {
    (h.policy, h.revision, h.periodStartsAt) == (b.policy, b.revision, b.period.value.startsAt)
  }

  /** The purchase fits: it is held already, or what is not held is within the limit less what the period consumed. */
  ghost predicate FitsIn(f: Facts, tx: Transaction, b: BudgetFact) {
    var consumed := if InPeriod(b, f.now) then b.committed + b.reserved else 0;
    if exists k :: IsOwnHold(f, b, k) then
      exists k :: IsOwnHold(f, b, k) && Fits(tx.amount - f.reservation.value.value.holds[k].reserved, b.limit - consumed)
    else
      Fits(tx.amount, b.limit - consumed)
  }

  predicate Fits(needed: int, left: int) {
    needed <= 0 || needed <= left
  }

  ghost predicate FitsEach(f: Facts, tx: Transaction, scope: Scope)
    requires f.budgets.Read?
  {
    forall b :: b in f.budgets.value && BudgetCounts(f, tx, scope)(b) ==> FitsIn(f, tx, b)
  }

  predicate OtherPurchase(r: ReservationFact, f: Facts, tx: Transaction) {
    (r.membership, Some(r.market), r.currency, r.agreement, r.digest, r.version)
    != (f.membershipId, f.market, tx.currency, tx.agreement, tx.digest, tx.version)
  }

  /** Two records apply. */
  ghost predicate Twice<T(!new)>(s: seq<T>, p: T -> bool) {
    exists i, j :: 0 <= i < j < |s| && p(s[i]) && p(s[j])
  }

  ghost function BudgetVerdict(f: Facts, tx: Transaction): Option<Decision> {
    if !f.budgets.Read? || f.reservation == Some(Unavailable) then
      Some(DARK)
    else if f.reservation.Some? && OtherPurchase(f.reservation.value.value, f, tx) then
      Some(No(TransactionChanged))
    else
      var all := f.budgets.value;
      if NoneOf(all, BudgetCounts(f, tx, MembershipScope(f.membershipId))) then
        Some(No(SpendPolicyNotConfigured))
      else if Twice(all, BudgetCounts(f, tx, MembershipScope(f.membershipId))) || Twice(all, BudgetCounts(f, tx, OrganisationScope))
              || (tx.agreement.Some? && Twice(all, BudgetCounts(f, tx, AgreementScope(tx.agreement.value)))) then
        Some(No(ContextNotUsable))
      else if FitsEach(f, tx, MembershipScope(f.membershipId)) && FitsEach(f, tx, OrganisationScope)
              && (tx.agreement.Some? ==> FitsEach(f, tx, AgreementScope(tx.agreement.value))) then
        None
      else
        Some(No(SpendLimitExceeded))
  }

  lemma SingleIs<T(!new)>(s: seq<T>, p: T -> bool)
    ensures SingleOf(Filter(s, p)).NoRecord? <==> NoneOf(s, p)
    ensures SingleOf(Filter(s, p)).Ambiguous? <==> Twice(s, p)
    ensures SingleOf(Filter(s, p)).One? ==> forall x :: x in s && p(x) <==> x == SingleOf(Filter(s, p)).value
  {
    SingleMeans(s, p);
    var found := SingleOf(Filter(s, p));
    if found.One? {
      assert Only(s, p, found.value);
    } else if found.Ambiguous? {
      var i :| 0 <= i < |s| && p(s[i]);
      assert !Only(s, p, s[i]);
    }
  }

  lemma HoldIs(f: Facts, b: BudgetFact)
    ensures if exists k :: IsOwnHold(f, b, k) then exists k :: IsOwnHold(f, b, k) && Credited(f, b) == f.reservation.value.value.holds[k].reserved
            else Credited(f, b) == 0
    ensures forall i, j :: IsOwnHold(f, b, i) && IsOwnHold(f, b, j) ==> i == j
  {
    var usable := UsableReservation(f);
    if PeriodCurrent(b, f.now) && usable.Some? {
      var holds := usable.value.holds;
      var p := (h: HoldFact) => h.policy == b.policy && h.revision == b.revision && h.periodStartsAt == b.period.value.startsAt;
      FindIs(holds, p);
      var hold := Find(holds, p);
      if hold.Some? {
        var k :| 0 <= k < |holds| && holds[k] == hold.value && p(hold.value) && forall l :: 0 <= l < k ==> !p(holds[l]);
        assert IsOwnHold(f, b, k);
      }
    }
  }

  lemma FitsAre(f: Facts, tx: Transaction, b: BudgetFact)
    ensures FitsIn(f, tx, b) <==> CoversAmount(f, tx, b)
  {
    hide Credited, IsOwnHold;
    HoldIs(f, b);
  }

  /** One kind of budget: how many bind, and whether the one that binds covers the purchase. */
  lemma KindIs(f: Facts, tx: Transaction, scope: Scope, binds: BudgetFact -> bool)
    requires f.budgets.Read? && forall b :: binds(b) <==> BudgetCounts(f, tx, scope)(b)
    ensures var found := SingleOf(Filter(f.budgets.value, binds));
            && (found.NoRecord? <==> NoneOf(f.budgets.value, BudgetCounts(f, tx, scope)))
            && (found.Ambiguous? <==> Twice(f.budgets.value, BudgetCounts(f, tx, scope)))
            && (!found.Ambiguous? ==> (Covers(f, tx, found) <==> FitsEach(f, tx, scope)))
  {
    hide Credited, FitsIn;
    var found := SingleOf(Filter(f.budgets.value, binds));
    SingleIs(f.budgets.value, binds);
    forall b ensures FitsIn(f, tx, b) <==> CoversAmount(f, tx, b) {
      FitsAre(f, tx, b);
    }
    if found.NoRecord? {
      forall b | b in f.budgets.value ensures !BudgetCounts(f, tx, scope)(b) {}
    }
  }

  lemma NoAgreement(f: Facts, tx: Transaction, market: Id)
    requires f.budgets.Read? && tx.agreement.None?
    ensures SingleOf(Filter(f.budgets.value, AgreementBinds(f, tx, market))).NoRecord?
  {
    SingleMeans(f.budgets.value, AgreementBinds(f, tx, market));
  }

  lemma BudgetsDecide(f: Facts, tx: Transaction, market: Id)
    requires f.market == Some(market)
    ensures EvaluateBudgets(f, tx, market) == BudgetVerdict(f, tx)
  {
    hide Applicable, MembershipBudget, OrganisationBudget, AgreementBudget, Covers, FitsEach, NoneOf, Twice, Filter, BudgetCounts,
         MembershipBinds, OrganisationBinds, AgreementBinds;
    if f.budgets.Read? {
      BudgetsAre(f, tx, market);
      CountsAlike(f, tx, market);
      KindIs(f, tx, MembershipScope(f.membershipId), MembershipBinds(f, tx, market));
      KindIs(f, tx, OrganisationScope, OrganisationBinds(f, tx, market));
      if tx.agreement.Some? {
        KindIs(f, tx, AgreementScope(tx.agreement.value), AgreementBinds(f, tx, market));
      } else {
        NoAgreement(f, tx, market);
        NoneCovered(f, tx);
      }
    }
  }

  lemma CountsAlike(f: Facts, tx: Transaction, market: Id)
    requires f.market == Some(market)
    ensures forall b :: MembershipBinds(f, tx, market)(b) <==> BudgetCounts(f, tx, MembershipScope(f.membershipId))(b)
    ensures forall b :: OrganisationBinds(f, tx, market)(b) <==> BudgetCounts(f, tx, OrganisationScope)(b)
    ensures tx.agreement.Some? ==>
      forall b :: AgreementBinds(f, tx, market)(b) <==> BudgetCounts(f, tx, AgreementScope(tx.agreement.value))(b)
  {
  }

  // ----- Beyond the buyer's own authority -----

  /** The approval as it must be: of the same Organisation, the buyer's own, by another, for exactly this transaction and policy. */
  function ReleaseVerdict(f: Facts, tx: Transaction, a: BoundApproval, reasons: seq<DecisionReason>): Decision {
    if a.organisation != f.organisation then No(BuyerNotAuthorised)
    else if !Named(a.initiator) || !Named(a.approver) || a.policyRevision == None then No(ContextNotUsable)
    else if a.initiator.value != f.principal then No(BuyerNotAuthorised)
    else if a.approver.value == f.principal then No(SeparationOfDuties)
    else if a.digest != Some(tx.digest) || a.version != Some(tx.version) || a.amount != tx.amount || a.currency != tx.currency
            || a.market != f.market || a.policyRevision.value != "trade.buyer-operation-policy:v1" then No(TransactionChanged)
    else
      match f.reevaluation
      case Some(Decision(Allow, _)) => YES
      case Some(Decision(Deny, _)) => Decision(ApprovalRequired, reasons)
      case Some(Decision(ApprovalRequired, _)) => Decision(ApprovalRequired, reasons)
      case _ => DARK
  }

  ghost predicate OverLimit(f: Facts, tx: Transaction)
    requires f.spendAuthorities.Read?
  {
    exists s :: s in f.spendAuthorities.value && LimitCounts(f, tx.currency)(s) && s.orderLimit.Some? && tx.amount > s.orderLimit.value
  }

  ghost predicate OverThreshold(f: Facts, tx: Transaction)
    requires f.approvalPolicies.Read?
  {
    exists p :: p in f.approvalPolicies.value && PolicyCounts(f, tx.currency)(p) && p.threshold.Some? && tx.amount > p.threshold.value
  }

  ghost function EscalationVerdict(f: Facts, tx: Transaction): Decision
    requires f.spendAuthorities.Read?
  {
    if !f.approvalPolicies.Read? then DARK
    else if Twice(f.approvalPolicies.value, PolicyCounts(f, tx.currency)) then No(ContextNotUsable)
    else if OverLimit(f, tx) && NoneOf(f.approvalPolicies.value, PolicyCounts(f, tx.currency)) then No(SpendLimitExceeded)
    else if !OverLimit(f, tx) && !OverThreshold(f, tx) then YES
    else
      var reasons := (if OverLimit(f, tx) then [SpendLimitExceeded] else []) + (if OverThreshold(f, tx) then [ApprovalThresholdExceeded] else []);
      match f.approval
      case None => Decision(ApprovalRequired, reasons)
      case Some(a) => if a.status == Approved then ReleaseVerdict(f, tx, a, reasons) else Decision(ApprovalRequired, reasons)
  }

  /** No limit counts, or one without a positive amount. */
  ghost predicate NoOrderLimit(f: Facts, currency: Id)
    requires f.spendAuthorities.Read?
  {
    forall s :: s in f.spendAuthorities.value && LimitCounts(f, currency)(s) ==> s.orderLimit.None? || s.orderLimit.value < 1
  }

  ghost predicate NoApprovalLimit(f: Facts, currency: Id)
    requires f.spendAuthorities.Read?
  {
    forall s :: s in f.spendAuthorities.value && LimitCounts(f, currency)(s) ==> s.approvalLimit.None? || s.approvalLimit.value < 1
  }

  ghost function CommitVerdict(f: Facts): Decision {
    if f.transaction.None? || f.transaction.value.amount < 1 || !Named(f.market) then No(ContextNotUsable)
    else if !f.purchaseOrder.Read? then DARK
    else if OrderNumberVerdict(f.purchaseOrder.value).Some? then OrderNumberVerdict(f.purchaseOrder.value).value
    else if !f.spendAuthorities.Read? then DARK
    else
      var tx := f.transaction.value;
      if Twice(f.spendAuthorities.value, LimitCounts(f, tx.currency)) then No(ContextNotUsable)
      else if NoOrderLimit(f, tx.currency) then No(SpendPolicyNotConfigured)
      else if BudgetVerdict(f, tx).Some? then BudgetVerdict(f, tx).value
      else EscalationVerdict(f, tx)
  }

  ghost function DecideVerdict(f: Facts): Decision {
    if f.transaction.None? || f.approval.None? || f.transaction.value.amount < 1 || !Named(f.market) then No(ContextNotUsable)
    else
      var tx, a := f.transaction.value, f.approval.value;
      if a.organisation != f.organisation then No(BuyerNotAuthorised)
      else if !Named(a.initiator) then No(ContextNotUsable)
      else if a.initiator.value == f.principal then No(SeparationOfDuties)
      else if a.digest != Some(tx.digest) || a.version != Some(tx.version) || a.amount != tx.amount || a.currency != tx.currency
              || a.market != f.market then No(TransactionChanged)
      else if a.status in {RejectedApproval, CancelledApproval} || (a.status == Approved && a.approver != Some(f.principal)) then No(ContextNotUsable)
      else if !f.spendAuthorities.Read? then DARK
      else if Twice(f.spendAuthorities.value, LimitCounts(f, tx.currency)) then No(ContextNotUsable)
      else if NoApprovalLimit(f, tx.currency) then No(ApprovalAuthorityNotConfigured)
      else if exists s :: s in f.spendAuthorities.value && LimitCounts(f, tx.currency)(s) && s.approvalLimit.Some? && tx.amount > s.approvalLimit.value then
        No(ApprovalThresholdExceeded)
      else YES
  }

  ghost function Verdict(f: Facts): Decision {
    if f.operation.UnknownOperation? then No(RoleNotPermitted)
    else if f.operation == AcceptInvitation then No(OperationNotActivated)
    else if !f.membershipActive || !Within(f.now, f.membershipEffective) then No(BuyerNotAuthorised)
    else if !f.roles.Read? then DARK
    else if !exists i :: Holds(f, i) then No(RoleNotPermitted)
    else if f.operation == ManageMember then No(OperationNotActivated)
    else if Marketed(f.operation) && !Named(f.market) then No(ContextNotUsable)
    else if Marketed(f.operation) && f.marketAuthority == UnknownMarket then DARK
    else if Marketed(f.operation) && f.marketAuthority == DeniedMarket then No(MarketNotPermitted)
    else if SiteVerdict(f).Some? then SiteVerdict(f).value
    else if !exists i :: HoldsInMarket(f, i) then No(MarketNotPermitted)
    else if !exists i :: HoldsEverywhere(f, i) then No(SiteNotPermitted)
    else if f.operation in COMMITTING then CommitVerdict(f)
    else if f.operation == DecideApproval then DecideVerdict(f)
    else YES
  }

  lemma LimitsAre(f: Facts, currency: Id)
    requires f.spendAuthorities.Read?
    ensures var found := Limits(f, currency);
            && (found.NoRecord? <==> NoneOf(f.spendAuthorities.value, LimitCounts(f, currency)))
            && (found.Ambiguous? <==> Twice(f.spendAuthorities.value, LimitCounts(f, currency)))
            && (found.One? ==> forall s :: s in f.spendAuthorities.value && LimitCounts(f, currency)(s) <==> s == found.value)
  {
    var binds := LimitBinds(f, currency);
    SingleIs(f.spendAuthorities.value, binds);
    assert Limits(f, currency) == SingleOf(Filter(f.spendAuthorities.value, binds));
    assert forall s :: binds(s) <==> LimitCounts(f, currency)(s);
  }

  lemma PoliciesAre(f: Facts, currency: Id)
    requires f.approvalPolicies.Read?
    ensures var found := Escalation(f, currency);
            && (found.NoRecord? <==> NoneOf(f.approvalPolicies.value, PolicyCounts(f, currency)))
            && (found.Ambiguous? <==> Twice(f.approvalPolicies.value, PolicyCounts(f, currency)))
            && (found.One? ==> forall p :: p in f.approvalPolicies.value && PolicyCounts(f, currency)(p) <==> p == found.value)
  {
    var binds := PolicyBinds(f, currency);
    SingleIs(f.approvalPolicies.value, binds);
    assert Escalation(f, currency) == SingleOf(Filter(f.approvalPolicies.value, binds));
    assert forall p :: binds(p) <==> PolicyCounts(f, currency)(p);
  }

  lemma ReleaseIs(f: Facts, tx: Transaction, a: BoundApproval, reasons: seq<DecisionReason>)
    requires f.market.Some?
    ensures ApplyApproval(f, tx, f.market.value, a, reasons) == ReleaseVerdict(f, tx, a, reasons)
  {
  }

  lemma EscalationIs(f: Facts, tx: Transaction, limit: SpendAuthority)
    requires f.market.Some? && f.spendAuthorities.Read? && Limits(f, tx.currency) == One(limit) && limit.orderLimit.Some?
    ensures Escalate(f, tx, limit.orderLimit.value) == EscalationVerdict(f, tx)
  {
    hide Limits, Escalation, ApplyApproval, ReleaseVerdict, LimitCounts, PolicyCounts, NoneOf, Twice;
    LimitsAre(f, tx.currency);
    assert OverLimit(f, tx) <==> tx.amount > limit.orderLimit.value;
    if f.approvalPolicies.Read? {
      PoliciesAre(f, tx.currency);
      var policy := Escalation(f, tx.currency);
      if policy.NoRecord? {
        NoneFound(f.approvalPolicies.value, PolicyCounts(f, tx.currency));
      }
      assert !policy.Ambiguous? ==>
        (OverThreshold(f, tx) <==> policy.One? && policy.value.threshold.Some? && tx.amount > policy.value.threshold.value);
      if f.approval.Some? {
        forall reasons ensures ApplyApproval(f, tx, f.market.value, f.approval.value, reasons) == ReleaseVerdict(f, tx, f.approval.value, reasons) {
          ReleaseIs(f, tx, f.approval.value, reasons);
        }
      }
    }
  }

  lemma NoneFound<T(!new)>(s: seq<T>, p: T -> bool)
    requires NoneOf(s, p)
    ensures forall x :: x in s ==> !p(x)
  {
  }

  lemma NumberIs(po: PurchaseOrder)
    ensures PurchaseOrderRefusal(po) == OrderNumberVerdict(po)
  {
    if po.number.Some? {
      NumbersAlike(po.number.value);
    }
  }

  lemma NumbersAlike(number: string)
    ensures PurchaseNumberOk(number) <==> NumberOk(number)
  {
    forall i | 0 <= i < |number| ensures number[i] in number && (number[i] == ' ' <==> number[i] as int == 0x20) {
      assert number[i] == (number[i] as int) as char;
    }
    assert PurchaseNumberOk(number) ==> forall i :: 0 <= i < |number| ==> 0x20 <= number[i] as int <= 0x7E;
    assert NumberOk(number) ==> forall c :: c in number ==> ' ' <= c <= '~';
  }

  lemma CommitIs(f: Facts)
    ensures EvaluateCommitment(f) == CommitVerdict(f)
  {
    hide Limits, Escalate, EvaluateBudgets, EscalationVerdict, BudgetVerdict, PurchaseOrderRefusal, OrderNumberVerdict, LimitCounts, NoneOf, Twice;
    if f.transaction.Some? && f.market.Some? && f.purchaseOrder.Read? {
      var tx := f.transaction.value;
      NumberIs(f.purchaseOrder.value);
      if f.spendAuthorities.Read? {
        LimitsAre(f, tx.currency);
        var limit := Limits(f, tx.currency);
        if limit.NoRecord? {
          NoneFound(f.spendAuthorities.value, LimitCounts(f, tx.currency));
        }
        BudgetsDecide(f, tx, f.market.value);
        if limit.One? && limit.value.orderLimit.Some? {
          EscalationIs(f, tx, limit.value);
        }
      }
    }
  }

  lemma DecideIs(f: Facts)
    ensures EvaluateApprovalDecision(f) == DecideVerdict(f)
  {
    hide Limits, LimitCounts, NoneOf, Twice;
    if f.transaction.Some? && f.spendAuthorities.Read? {
      var tx := f.transaction.value;
      LimitsAre(f, tx.currency);
      if Limits(f, tx.currency).NoRecord? {
        NoneFound(f.spendAuthorities.value, LimitCounts(f, tx.currency));
      }
    }
  }

  /** The evaluator's decision is this one, for every operation and all facts. */
  lemma VerdictIs(f: Facts)
    ensures Evaluate(f) == Verdict(f)
  {
    hide EvaluateCommitment, EvaluateApprovalDecision, CommitVerdict, DecideVerdict, SiteRefusal, SiteVerdict, Permitted, WithMarket, Filter,
         GrantedSites, HoldsInMarket, HoldsEverywhere, Holds;
    RulesAre(f.operation);
    CommitIs(f);
    DecideIs(f);
    if RuleOf(f.operation).Some? {
      SitesAre(f);
      if f.roles.Read? {
        RolesAre(f, RuleOf(f.operation).value);
      }
    }
  }
}
