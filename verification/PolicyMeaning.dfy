/** What an ALLOW of the buyer operation policy means. */
module PolicyMeaning {
  import opened Wrappers
  import opened SpendTypes
  import opened BuyerPolicy

  // ----- Records that apply -----

  /** x is the one record of s that applies. */
  ghost predicate Only<T>(s: seq<T>, p: T -> bool, x: T) {
    exists i :: 0 <= i < |s| && s[i] == x && p(s[i]) && forall j :: 0 <= j < |s| && j != i ==> !p(s[j])
  }

  ghost predicate NoneOf<T>(s: seq<T>, p: T -> bool) {
    forall i :: 0 <= i < |s| ==> !p(s[i])
  }

  lemma {:induction false} FilterMembers<T>(s: seq<T>, p: T -> bool)
    ensures forall x :: x in Filter(s, p) <==> x in s && p(x)
    decreases |s|
  {
    if s != [] {
      FilterMembers(s[1..], p);
    }
  }

  lemma {:induction false} FilterEmpty<T>(s: seq<T>, p: T -> bool)
    ensures Filter(s, p) == [] <==> NoneOf(s, p)
    decreases |s|
  {
    if s != [] {
      FilterEmpty(s[1..], p);
      assert forall i :: 0 < i < |s| ==> s[i] == s[1..][i - 1];
      assert NoneOf(s, p) <==> !p(s[0]) && NoneOf(s[1..], p);
    }
  }

  lemma {:induction false} FilterOne<T>(s: seq<T>, p: T -> bool, x: T)
    ensures Filter(s, p) == [x] <==> Only(s, p, x)
    decreases |s|
  {
    if s != [] {
      var rest := s[1..];
      FilterOne(rest, p, x);
      FilterEmpty(rest, p);
      if p(s[0]) {
        assert Filter(s, p) == [s[0]] + Filter(rest, p);
        if Filter(s, p) == [x] {
          assert Filter(s, p)[0] == s[0] && |Filter(s, p)| == 1 + |Filter(rest, p)|;
          assert forall j :: 0 <= j < |s| && j != 0 ==> s[j] == rest[j - 1];
          assert s[0] == x;
        }
        if Only(s, p, x) {
          var i :| 0 <= i < |s| && s[i] == x && p(s[i]) && forall j :: 0 <= j < |s| && j != i ==> !p(s[j]);
          assert i == 0;
          forall j | 0 <= j < |rest| ensures !p(rest[j]) { assert rest[j] == s[j + 1]; }
        }
      } else {
        if Only(rest, p, x) {
          var i :| 0 <= i < |rest| && rest[i] == x && p(rest[i]) && forall j :: 0 <= j < |rest| && j != i ==> !p(rest[j]);
          forall j | 0 <= j < |s| && j != i + 1 ensures !p(s[j]) { if j > 0 { assert s[j] == rest[j - 1]; } }
          assert s[i + 1] == x;
        }
        if Only(s, p, x) {
          var i :| 0 <= i < |s| && s[i] == x && p(s[i]) && forall j :: 0 <= j < |s| && j != i ==> !p(s[j]);
          forall j | 0 <= j < |rest| && j != i - 1 ensures !p(rest[j]) { assert rest[j] == s[j + 1]; }
          assert rest[i - 1] == x;
        }
      }
    }
  }

  /** `single` picks a record exactly when it is the only one that applies. */
  lemma SingleMeans<T>(s: seq<T>, p: T -> bool)
    ensures SingleOf(Filter(s, p)).NoRecord? <==> NoneOf(s, p)
    ensures forall x :: SingleOf(Filter(s, p)) == One(x) <==> Only(s, p, x)
  {
    FilterEmpty(s, p);
    forall x ensures SingleOf(Filter(s, p)) == One(x) <==> Only(s, p, x) {
      FilterOne(s, p, x);
    }
  }

  // ----- Roles, Market and Sites -----

  /** One assignment carries the role, the Market grant and every Site grant; they never compose across roles. */
  ghost predicate OneRoleSuffices(f: Facts, rule: Rule) {
    f.roles.Read? && exists r :: r in f.roles.value && RoleSuffices(f, rule, r)
  }

  predicate RoleSuffices(f: Facts, rule: Rule, r: RoleAssignment) {
    && r.role in ALL_ROLES && r.role in rule.roles
    && (rule.market ==> f.market.Some? && Granted(r.markets, f.market.value, f.now))
    && GrantedSites(r, f.sites, f.now)
  }

  /** The record a Site use refers to: the first with its id. */
  function SiteOf(records: seq<SiteRecord>, use: SiteUse): Option<SiteRecord> {
    Find(records, (s: SiteRecord) => s.id == use.siteId)
  }

  /** Every referenced Site is this Organisation's, ACTIVE, in this Market and supports its use. */
  ghost predicate SitesUsable(f: Facts, rule: Rule) {
    && (rule.site == NoSite ==> f.sites == [])
    && (rule.site == Required ==> exists s :: s in f.sites && s.use == Shipping)
    && (f.sites != [] ==> f.siteRecords.Read?)
    && (forall use :: use in f.sites ==> UseAllowed(f, use))
  }

  ghost predicate UseAllowed(f: Facts, use: SiteUse) {
    && f.siteRecords.Read? && SiteOf(f.siteRecords.value, use).Some?
    && var site := SiteOf(f.siteRecords.value, use).value;
       site.organisation == f.organisation && SiteUsable(site, use.use, f.market)
  }

  lemma {:induction false} NoSiteRefusal(f: Facts, uses: seq<SiteUse>)
    requires f.siteRecords.Read?
    ensures FirstSiteRefusal(f, uses, f.siteRecords.value).None? <==> forall use :: use in uses ==> UseAllowed(f, use)
    decreases |uses|
  {
    hide SiteUsable, Find;
    if uses != [] {
      assert uses[0] in uses && forall use :: use in uses <==> use == uses[0] || use in uses[1..];
      assert UseAllowed(f, uses[0]) || !UseAllowed(f, uses[0]);
      NoSiteRefusal(f, uses[1..]);
    }
  }

  lemma SitesMean(f: Facts, rule: Rule)
    ensures SiteRefusal(f, rule).None? <==> SitesUsable(f, rule)
  {
    hide SiteUsable, Find;
    if f.siteRecords.Read? {
      NoSiteRefusal(f, f.sites);
    }
  }

  lemma RolesMean(f: Facts, rule: Rule)
    requires f.roles.Read?
    ensures Filter(WithMarket(f, rule), (r: RoleAssignment) => GrantedSites(r, f.sites, f.now)) != [] <==> OneRoleSuffices(f, rule)
    ensures OneRoleSuffices(f, rule) ==> WithMarket(f, rule) != [] && Permitted(f, rule) != []
  {
    hide Granted, GrantedSites;
    FilterMembers(f.roles.value, (r: RoleAssignment) => r.role in ALL_ROLES && r.role in rule.roles);
    FilterMembers(Permitted(f, rule), (r: RoleAssignment) => f.market.Some? && Granted(r.markets, f.market.value, f.now));
    var last := Filter(WithMarket(f, rule), (r: RoleAssignment) => GrantedSites(r, f.sites, f.now));
    FilterMembers(WithMarket(f, rule), (r: RoleAssignment) => GrantedSites(r, f.sites, f.now));
    if last != [] {
      assert last[0] in last && RoleSuffices(f, rule, last[0]);
    }
    if OneRoleSuffices(f, rule) {
      var r :| r in f.roles.value && RoleSuffices(f, rule, r);
      assert r in last && r in WithMarket(f, rule) && r in Permitted(f, rule);
    }
  }

  // ----- Budgets -----

  predicate BudgetApplies(f: Facts, tx: Transaction, market: Id, b: BudgetFact) {
    b.status == ActivePolicy && InEffect(f.now, b.from, b.until) && b.market == market && b.currency == tx.currency
  }

  /** Exactly one MEMBERSHIP budget, at most one of the others, and each covers the amount. */
  ghost predicate BudgetsCover(f: Facts, tx: Transaction, market: Id) {
    && f.budgets.Read?
    && (f.reservation.Some? ==> f.reservation.value.Read? && !Mismatched(f.reservation.value.value, f, tx, market))
    && (exists b :: Only(f.budgets.value, MembershipBinds(f, tx, market), b) && CoversAmount(f, tx, b))
    && (NoneOf(f.budgets.value, OrganisationBinds(f, tx, market))
        || exists b :: Only(f.budgets.value, OrganisationBinds(f, tx, market), b) && CoversAmount(f, tx, b))
    && (NoneOf(f.budgets.value, AgreementBinds(f, tx, market))
        || exists b :: Only(f.budgets.value, AgreementBinds(f, tx, market), b) && CoversAmount(f, tx, b))
  }

  /** The limit less what is consumed this period covers what the purchase's own hold does not. */
  predicate CoversAmount(f: Facts, tx: Transaction, b: BudgetFact) {
    tx.amount <= Credited(f, b) || tx.amount - Credited(f, b) <= b.limit - Consumed(b, f.now)
  }

  function MembershipBinds(f: Facts, tx: Transaction, market: Id): BudgetFact -> bool {
    (b: BudgetFact) => BudgetApplies(f, tx, market, b) && b.scope == MembershipScope(f.membershipId)
  }

  function OrganisationBinds(f: Facts, tx: Transaction, market: Id): BudgetFact -> bool {
    (b: BudgetFact) => BudgetApplies(f, tx, market, b) && b.scope == OrganisationScope
  }

  function AgreementBinds(f: Facts, tx: Transaction, market: Id): BudgetFact -> bool {
    (b: BudgetFact) => BudgetApplies(f, tx, market, b) && tx.agreement.Some? && b.scope == AgreementScope(tx.agreement.value)
  }

  lemma {:induction false} FilterTwice<T>(s: seq<T>, p: T -> bool, q: T -> bool, both: T -> bool)
    requires forall x :: both(x) <==> p(x) && q(x)
    ensures Filter(Filter(s, p), q) == Filter(s, both)
    decreases |s|
  {
    if s != [] {
      FilterTwice(s[1..], p, q, both);
      var some, rest := Filter(s, p), Filter(s[1..], p);
      if p(s[0]) {
        assert some == [s[0]] + rest && some[0] == s[0] && some[1..] == rest;
      } else {
        assert some == [] + rest && [] + rest == rest;
      }
    }
  }

  lemma BudgetsAre(f: Facts, tx: Transaction, market: Id)
    requires f.budgets.Read?
    ensures MembershipBudget(f, Applicable(f, tx, market)) == SingleOf(Filter(f.budgets.value, MembershipBinds(f, tx, market)))
    ensures OrganisationBudget(Applicable(f, tx, market)) == SingleOf(Filter(f.budgets.value, OrganisationBinds(f, tx, market)))
    ensures AgreementBudget(Applicable(f, tx, market), tx.agreement) == SingleOf(Filter(f.budgets.value, AgreementBinds(f, tx, market)))
  {
    var all := f.budgets.value;
    var p := (b: BudgetFact) =>
             b.status == ActivePolicy && InEffect(f.now, b.from, b.until) && b.market == market && b.currency == tx.currency;
    FilterTwice(all, p, (b: BudgetFact) => b.scope == MembershipScope(f.membershipId), MembershipBinds(f, tx, market));
    FilterTwice(all, p, (b: BudgetFact) => b.scope == OrganisationScope, OrganisationBinds(f, tx, market));
    FilterTwice(all, p, (b: BudgetFact) => tx.agreement.Some? && b.scope == AgreementScope(tx.agreement.value), AgreementBinds(f, tx, market));
  }

  lemma CoversMeans(f: Facts, tx: Transaction, p: BudgetFact -> bool)
    requires f.budgets.Read?
    ensures var found := SingleOf(Filter(f.budgets.value, p));
            && (found.NoRecord? <==> NoneOf(f.budgets.value, p))
            && (found.One? && Covers(f, tx, found) <==> exists b :: Only(f.budgets.value, p, b) && CoversAmount(f, tx, b))
  {
    hide Credited, Consumed, Only, NoneOf;
    SingleMeans(f.budgets.value, p);
  }

  /** The budgets pass exactly when they cover the amount. */
  lemma BudgetsMean(f: Facts, tx: Transaction, market: Id)
    ensures EvaluateBudgets(f, tx, market).None? <==> BudgetsCover(f, tx, market)
  {
    hide Applicable, MembershipBudget, OrganisationBudget, AgreementBudget, Covers, CoversAmount, Only, NoneOf, Filter,
         MembershipBinds, OrganisationBinds, AgreementBinds, Mismatched;
    if f.budgets.Read? {
      BudgetsAre(f, tx, market);
      CoversMeans(f, tx, MembershipBinds(f, tx, market));
      CoversMeans(f, tx, OrganisationBinds(f, tx, market));
      CoversMeans(f, tx, AgreementBinds(f, tx, market));
      NoneCovered(f, tx);
    }
  }

  lemma NoneCovered(f: Facts, tx: Transaction)
    ensures Covers(f, tx, NoRecord)
  {
  }

  // ----- Commitments -----

  function LimitBinds(f: Facts, currency: Id): SpendAuthority -> bool {
    (s: SpendAuthority) => s.market == f.market && s.currency == currency && s.effective.Contains(f.now)
  }

  function PolicyBinds(f: Facts, currency: Id): ApprovalPolicy -> bool {
    (p: ApprovalPolicy) => p.enabled && p.market == f.market && p.currency == currency
  }

  /** A required purchase order number is given and matches its format. */
  predicate PurchaseOrderGiven(po: PurchaseOrder) {
    po.rule.Some? && po.rule.value.required ==>
      && po.number.Some? && PurchaseNumberOk(po.number.value)
      && (po.rule.value.format.Some? ==> po.rule.value.format.value.Matches? && po.rule.value.format.value.test(po.number.value))
  }

  /** The approval is this buyer's, for exactly this transaction, by somebody else who still holds the authority. */
  ghost predicate ApprovalReleases(f: Facts, tx: Transaction) {
    && f.approval.Some? && f.market.Some?
    && var a := f.approval.value;
       && a.status == Approved && a.organisation == f.organisation
       && Present(a.initiator) && a.initiator == Some(f.principal) && Present(a.approver) && a.approver != a.initiator
       && a.digest == Some(tx.digest) && a.version == Some(tx.version) && a.amount == tx.amount && a.currency == tx.currency
       && a.market == f.market && a.policyRevision == Some(POLICY_REVISION)
       && f.reevaluation.Some? && f.reevaluation.value.outcome == Allow
  }

  /** Within the order limit and any threshold, or over them with an approval under an enabled policy. */
  ghost predicate WithinAuthority(f: Facts, tx: Transaction, orderLimit: int) {
    && f.approvalPolicies.Read?
    && var binds, all := PolicyBinds(f, tx.currency), f.approvalPolicies.value;
       || (NoneOf(all, binds) && tx.amount <= orderLimit)
       || (exists p :: Only(all, binds, p)
            && ((tx.amount <= orderLimit && (p.threshold.Some? ==> tx.amount <= p.threshold.value))
                || ApprovalReleases(f, tx)))
  }

  ghost predicate CommitmentBacked(f: Facts) {
    && f.transaction.Some? && f.transaction.value.amount > 0 && Present(f.market)
    && var tx := f.transaction.value;
       && f.purchaseOrder.Read? && PurchaseOrderGiven(f.purchaseOrder.value)
       && f.spendAuthorities.Read?
       && (exists limit :: Only(f.spendAuthorities.value, LimitBinds(f, tx.currency), limit)
             && limit.orderLimit.Some? && limit.orderLimit.value > 0
             && WithinAuthority(f, tx, limit.orderLimit.value))
       && BudgetsCover(f, tx, f.market.value)
  }

  predicate Released(f: Facts, tx: Transaction, reasons: seq<DecisionReason>)
    requires f.market.Some?
  {
    f.approval.Some? && f.approval.value.status == Approved && ApplyApproval(f, tx, f.market.value, f.approval.value, reasons) == ALLOWED
  }

  lemma ApprovalMeans(f: Facts, tx: Transaction, reasons: seq<DecisionReason>)
    requires f.market.Some?
    ensures Released(f, tx, reasons) <==> ApprovalReleases(f, tx)
  {
  }

  lemma EscalationMeans(f: Facts, tx: Transaction, orderLimit: int)
    requires f.market.Some?
    ensures Escalate(f, tx, orderLimit) == ALLOWED <==> WithinAuthority(f, tx, orderLimit)
  {
    hide Only, NoneOf, ApplyApproval, ApprovalReleases, Filter;
    if f.approvalPolicies.Read? {
      var policy := Escalation(f, tx.currency);
      SingleMeans(f.approvalPolicies.value, PolicyBinds(f, tx.currency));
      assert policy == SingleOf(Filter(f.approvalPolicies.value, PolicyBinds(f, tx.currency)));
      assert policy.One? ==> Only(f.approvalPolicies.value, PolicyBinds(f, tx.currency), policy.value);
      forall reasons ensures Released(f, tx, reasons) <==> ApprovalReleases(f, tx) {
        ApprovalMeans(f, tx, reasons);
      }
      var overLimit := tx.amount > orderLimit;
      var overThreshold := policy.One? && policy.value.threshold.Some? && tx.amount > policy.value.threshold.value;
      var reasons := (if overLimit then [SpendLimitExceeded] else []) + (if overThreshold then [ApprovalThresholdExceeded] else []);
      assert Released(f, tx, reasons) <==> ApprovalReleases(f, tx);
    }
  }

  lemma PurchaseOrderMeans(po: PurchaseOrder)
    ensures PurchaseOrderRefusal(po).None? <==> PurchaseOrderGiven(po)
  {
  }

  lemma RefusalsRefuse(f: Facts, tx: Transaction, market: Id, po: PurchaseOrder)
    ensures EvaluateBudgets(f, tx, market) != Some(ALLOWED) && PurchaseOrderRefusal(po) != Some(ALLOWED)
  {
    hide Applicable, MembershipBudget, OrganisationBudget, AgreementBudget, Covers, Mismatched;
  }

  lemma CommitmentMeans(f: Facts)
    ensures EvaluateCommitment(f) == ALLOWED <==> CommitmentBacked(f)
  {
    hide PurchaseOrderRefusal, PurchaseOrderGiven, Escalate, WithinAuthority, EvaluateBudgets, BudgetsCover, Only, NoneOf, Filter;
    if f.transaction.Some? && Present(f.market) {
      var tx := f.transaction.value;
      if f.purchaseOrder.Read? {
        PurchaseOrderMeans(f.purchaseOrder.value);
        RefusalsRefuse(f, tx, f.market.value, f.purchaseOrder.value);
        if f.spendAuthorities.Read? {
          var limit := Limits(f, tx.currency);
          SingleMeans(f.spendAuthorities.value, LimitBinds(f, tx.currency));
          assert limit == SingleOf(Filter(f.spendAuthorities.value, LimitBinds(f, tx.currency)));
          assert limit.One? ==> Only(f.spendAuthorities.value, LimitBinds(f, tx.currency), limit.value);
          BudgetsMean(f, tx, f.market.value);
          forall orderLimit ensures Escalate(f, tx, orderLimit) == ALLOWED <==> WithinAuthority(f, tx, orderLimit) {
            EscalationMeans(f, tx, orderLimit);
          }
        }
      }
    }
  }

  /** The conditions that every Market-bound operation shares. */
  ghost predicate MayAct(f: Facts, rule: Rule) {
    && f.membershipActive && f.membershipEffective.Contains(f.now)
    && Present(f.market) && f.marketAuthority == Attested
    && SitesUsable(f, rule) && OneRoleSuffices(f, rule)
  }

  lemma {:induction false} SiteRefusalsRefuse(f: Facts, uses: seq<SiteUse>, records: seq<SiteRecord>)
    ensures FirstSiteRefusal(f, uses, records) != Some(ALLOWED)
    decreases |uses|
  {
    hide SiteUsable, Find;
    if uses != [] {
      SiteRefusalsRefuse(f, uses[1..], records);
    }
  }

  lemma ReachesKind(f: Facts, rule: Rule)
    requires RuleOf(f.operation) == Some(rule) && (rule.kind == Commitment || rule.kind == Approval)
    ensures if MayAct(f, rule) then
              Evaluate(f) == (if rule.kind == Commitment then EvaluateCommitment(f) else EvaluateApprovalDecision(f))
            else
              Evaluate(f) != ALLOWED
  {
    hide EvaluateCommitment, EvaluateApprovalDecision, OneRoleSuffices, SitesUsable, Filter, GrantedSites, FirstSiteRefusal;
    SitesMean(f, rule);
    if f.siteRecords.Read? {
      SiteRefusalsRefuse(f, f.sites, f.siteRecords.value);
    }
    if f.roles.Read? {
      RolesMean(f, rule);
    } else {
      NoRoles(f, rule);
    }
  }

  lemma NoRoles(f: Facts, rule: Rule)
    requires !f.roles.Read?
    ensures !OneRoleSuffices(f, rule)
  {
  }

  /**
   A commitment is allowed exactly when one role assignment carries everything,
   the one order limit and every budget cover the amount, and what exceeds the
   buyer's own authority is released by a bound approval.
   */
  lemma CommitmentAllowedIff(f: Facts)
    requires RuleOf(f.operation).Some? && RuleOf(f.operation).value.kind == Commitment
    ensures Evaluate(f) == ALLOWED <==> MayAct(f, RuleOf(f.operation).value) && CommitmentBacked(f)
  {
    hide Evaluate, EvaluateCommitment, MayAct, CommitmentBacked;
    ReachesKind(f, RuleOf(f.operation).value);
    CommitmentMeans(f);
  }

  /** The approver may decide this approval: not their own, bound to this transaction, within their one approval limit. */
  ghost predicate ApproverMay(f: Facts) {
    && f.transaction.Some? && f.approval.Some? && f.transaction.value.amount > 0 && Present(f.market)
    && var tx, a := f.transaction.value, f.approval.value;
       && a.organisation == f.organisation && Present(a.initiator) && a.initiator != Some(f.principal)
       && a.digest == Some(tx.digest) && a.version == Some(tx.version) && a.amount == tx.amount && a.currency == tx.currency
       && a.market == f.market
       && (a.status == Pending || (a.status == Approved && a.approver == Some(f.principal)))
       && f.spendAuthorities.Read?
       && exists limit :: Only(f.spendAuthorities.value, LimitBinds(f, tx.currency), limit)
            && limit.approvalLimit.Some? && limit.approvalLimit.value > 0 && tx.amount <= limit.approvalLimit.value
  }

  lemma ApprovalDecisionMeans(f: Facts)
    ensures EvaluateApprovalDecision(f) == ALLOWED <==> ApproverMay(f)
  {
    hide Only, NoneOf, Filter;
    if f.transaction.Some? && f.spendAuthorities.Read? {
      var currency := f.transaction.value.currency;
      var limit := Limits(f, currency);
      SingleMeans(f.spendAuthorities.value, LimitBinds(f, currency));
      assert limit == SingleOf(Filter(f.spendAuthorities.value, LimitBinds(f, currency)));
      assert limit.One? ==> Only(f.spendAuthorities.value, LimitBinds(f, currency), limit.value);
    }
  }

  lemma ApprovalAllowedIff(f: Facts)
    requires f.operation == DecideApproval
    ensures Evaluate(f) == ALLOWED <==> MayAct(f, RuleOf(DecideApproval).value) && ApproverMay(f)
  {
    hide Evaluate, EvaluateApprovalDecision, MayAct, ApproverMay;
    ReachesKind(f, RuleOf(DecideApproval).value);
    ApprovalDecisionMeans(f);
  }

  // ----- Approvals -----

  /** g is the approver's own evaluation of the same approval for the same transaction. */
  predicate Reevaluates(g: Facts, f: Facts) {
    && g.operation == DecideApproval && g.transaction == f.transaction && g.approval == f.approval && g.market == f.market
    && f.approval.Some? && f.approval.value.approver == Some(g.principal)
    && f.reevaluation == Some(Evaluate(g))
  }

  /** The amount is beyond what the buyer may commit alone. */
  ghost predicate Escalated(f: Facts) {
    && f.transaction.Some? && f.spendAuthorities.Read? && f.approvalPolicies.Read?
    && var tx := f.transaction.value;
       || (exists limit :: Only(f.spendAuthorities.value, LimitBinds(f, tx.currency), limit)
             && limit.orderLimit.Some? && tx.amount > limit.orderLimit.value)
       || (exists p :: Only(f.approvalPolicies.value, PolicyBinds(f, tx.currency), p)
             && p.threshold.Some? && tx.amount > p.threshold.value)
  }

  lemma OnlyOneOnly<T>(s: seq<T>, p: T -> bool, x: T, y: T)
    requires Only(s, p, x) && Only(s, p, y)
    ensures x == y
  {
  }

  lemma EscalatedNeedsApproval(f: Facts)
    requires CommitmentBacked(f) && Escalated(f)
    ensures f.transaction.Some? && ApprovalReleases(f, f.transaction.value)
  {
    hide ApprovalReleases, BudgetsCover, PurchaseOrderGiven, Only, NoneOf;
    var tx := f.transaction.value;
    forall x, y | Only(f.spendAuthorities.value, LimitBinds(f, tx.currency), x) && Only(f.spendAuthorities.value, LimitBinds(f, tx.currency), y)
      ensures x == y
    {
      OnlyOneOnly(f.spendAuthorities.value, LimitBinds(f, tx.currency), x, y);
    }
    forall x, y | Only(f.approvalPolicies.value, PolicyBinds(f, tx.currency), x) && Only(f.approvalPolicies.value, PolicyBinds(f, tx.currency), y)
      ensures x == y
    {
      OnlyOneOnly(f.approvalPolicies.value, PolicyBinds(f, tx.currency), x, y);
    }
    SingleMeans(f.approvalPolicies.value, PolicyBinds(f, tx.currency));
  }

  /**
   An allowed commitment beyond the buyer's own authority rests on somebody else,
   who may act in the same Market and whose one approval limit covers the amount.
   */
  lemma EscalationRestsOnApprover(f: Facts, g: Facts)
    requires RuleOf(f.operation).Some? && RuleOf(f.operation).value.kind == Commitment
    requires Evaluate(f) == ALLOWED && Escalated(f) && Reevaluates(g, f)
    ensures g.principal != f.principal && g.organisation == f.organisation && g.spendAuthorities.Read?
    ensures MayAct(g, RuleOf(DecideApproval).value)
    ensures exists limit :: Only(g.spendAuthorities.value, LimitBinds(g, f.transaction.value.currency), limit)
              && limit.approvalLimit.Some? && f.transaction.value.amount <= limit.approvalLimit.value
  {
    hide Evaluate, MayAct, CommitmentBacked, Escalated, Only, ApproverMay, RuleOf, LimitBinds;
    CommitmentAllowedIff(f);
    EscalatedNeedsApproval(f);
    ReevaluationAllowed(f, g);
    ApprovalAllowedIff(g);
    ApproverDiffers(f, g);
  }

  lemma ReevaluationAllowed(f: Facts, g: Facts)
    requires Reevaluates(g, f) && f.transaction.Some? && ApprovalReleases(f, f.transaction.value)
    ensures Evaluate(g) == ALLOWED
  {
    hide Evaluate;
    AllowOnlyAllowed(g);
  }

  lemma ApproverDiffers(f: Facts, g: Facts)
    requires Reevaluates(g, f) && f.transaction.Some? && ApprovalReleases(f, f.transaction.value) && ApproverMay(g)
    ensures g.principal != f.principal && g.organisation == f.organisation && g.spendAuthorities.Read?
    ensures exists limit :: Only(g.spendAuthorities.value, LimitBinds(g, f.transaction.value.currency), limit)
              && limit.approvalLimit.Some? && f.transaction.value.amount <= limit.approvalLimit.value
  {
    hide Evaluate, Only, LimitBinds;
  }

  lemma AllowOnlyAllowed(f: Facts)
    requires f.operation == DecideApproval && Evaluate(f).outcome == Allow
    ensures Evaluate(f) == ALLOWED
  {
    hide Filter, GrantedSites, FirstSiteRefusal;
    if f.siteRecords.Read? {
      SiteRefusalOutcome(f, f.sites, f.siteRecords.value);
    }
  }

  lemma {:induction false} SiteRefusalOutcome(f: Facts, uses: seq<SiteUse>, records: seq<SiteRecord>)
    ensures FirstSiteRefusal(f, uses, records).Some? ==> FirstSiteRefusal(f, uses, records).value.outcome == Deny
    decreases |uses|
  {
    hide SiteUsable, Find;
    if uses != [] {
      SiteRefusalOutcome(f, uses[1..], records);
    }
  }
}
