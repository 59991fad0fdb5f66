/** Losing a source never turns a refusal into permission, nor one refusal into another. */
module PolicyFailsClosed {
  import opened Wrappers
  import opened SpendTypes
  import opened BuyerPolicy

  /** g is f with some of its sources unavailable. */
  ghost predicate Dimmed(f: Facts, g: Facts) {
    && g == f.(roles := g.roles, marketAuthority := g.marketAuthority, siteRecords := g.siteRecords,
               spendAuthorities := g.spendAuthorities, approvalPolicies := g.approvalPolicies, purchaseOrder := g.purchaseOrder,
               budgets := g.budgets, reservation := g.reservation, reevaluation := g.reevaluation)
    && (g.roles == f.roles || g.roles.Unavailable?)
    && (g.marketAuthority == f.marketAuthority || g.marketAuthority == UnknownMarket)
    && (g.siteRecords == f.siteRecords || g.siteRecords.Unavailable?)
    && (g.spendAuthorities == f.spendAuthorities || g.spendAuthorities.Unavailable?)
    && (g.approvalPolicies == f.approvalPolicies || g.approvalPolicies.Unavailable?)
    && (g.purchaseOrder == f.purchaseOrder || g.purchaseOrder.Unavailable?)
    && (g.budgets == f.budgets || g.budgets.Unavailable?)
    && (g.reservation == f.reservation || g.reservation == Some(Source.Unavailable))
    && (g.reevaluation == f.reevaluation || g.reevaluation.None? || g.reevaluation.value.outcome == UnavailableOutcome)
  }

  ghost predicate SameOrUnavailable(a: Decision, b: Decision) {
    b == a || b == UNAVAILABLE
  }

  lemma BudgetsDim(f: Facts, g: Facts, tx: Transaction, market: Id)
    requires Dimmed(f, g)
    ensures EvaluateBudgets(g, tx, market) == EvaluateBudgets(f, tx, market) || EvaluateBudgets(g, tx, market) == Some(UNAVAILABLE)
  {
    hide Filter, Find;
    if g.budgets.Read? && (g.reservation.Some? ==> g.reservation.value.Read?) {
      BudgetReads(f, g, tx, market);
    }
  }

  /** Budgets are judged from the clock, the buyer's membership, the budgets and the reservation alone. */
  lemma BudgetReads(f: Facts, g: Facts, tx: Transaction, market: Id)
    requires g.now == f.now && g.membershipId == f.membershipId && g.budgets == f.budgets && g.reservation == f.reservation
    ensures EvaluateBudgets(g, tx, market) == EvaluateBudgets(f, tx, market)
  {
  }

  lemma ReadingLimits(f: Facts, g: Facts, currency: Id)
    requires g.now == f.now && g.market == f.market
    ensures f.spendAuthorities.Read? && g.spendAuthorities == f.spendAuthorities ==> Limits(g, currency) == Limits(f, currency)
    ensures f.approvalPolicies.Read? && g.approvalPolicies == f.approvalPolicies ==> Escalation(g, currency) == Escalation(f, currency)
  {
  }

  lemma EscalationDims(f: Facts, g: Facts, tx: Transaction, orderLimit: int)
    requires Dimmed(f, g) && f.market.Some?
    ensures SameOrUnavailable(Escalate(f, tx, orderLimit), Escalate(g, tx, orderLimit))
  {
    hide Escalation, BoundTo;
    ReadingLimits(f, g, tx.currency);
  }

  lemma CommitmentDims(f: Facts, g: Facts)
    requires Dimmed(f, g)
    ensures SameOrUnavailable(EvaluateCommitment(f), EvaluateCommitment(g))
  {
    hide Limits, Escalate, EvaluateBudgets, PurchaseOrderRefusal;
    if f.transaction.Some? && Present(f.market) {
      var tx := f.transaction.value;
      ReadingLimits(f, g, tx.currency);
      BudgetsDim(f, g, tx, f.market.value);
      forall orderLimit ensures SameOrUnavailable(Escalate(f, tx, orderLimit), Escalate(g, tx, orderLimit)) {
        EscalationDims(f, g, tx, orderLimit);
      }
    }
  }

  lemma ApprovalDims(f: Facts, g: Facts)
    requires Dimmed(f, g)
    ensures SameOrUnavailable(EvaluateApprovalDecision(f), EvaluateApprovalDecision(g))
  {
    hide Limits, BoundTo;
    if f.transaction.Some? {
      ReadingLimits(f, g, f.transaction.value.currency);
    }
  }

  lemma {:induction false} SiteReads(f: Facts, g: Facts, uses: seq<SiteUse>, records: seq<SiteRecord>)
    requires g.organisation == f.organisation && g.market == f.market
    ensures FirstSiteRefusal(g, uses, records) == FirstSiteRefusal(f, uses, records)
    decreases |uses|
  {
    hide Find, SiteUsable;
    if uses != [] {
      SiteReads(f, g, uses[1..], records);
    }
  }

  lemma SitesDim(f: Facts, g: Facts, rule: Rule)
    requires Dimmed(f, g)
    ensures SiteRefusal(g, rule) == SiteRefusal(f, rule) || SiteRefusal(g, rule) == Some(UNAVAILABLE)
  {
    if f.siteRecords.Read? {
      SiteReads(f, g, f.sites, f.siteRecords.value);
    }
  }

  lemma RolesRead(f: Facts, g: Facts, rule: Rule)
    requires f.roles.Read? && g.roles == f.roles && g.market == f.market && g.now == f.now && g.sites == f.sites
    ensures Permitted(g, rule) == Permitted(f, rule) && WithMarket(g, rule) == WithMarket(f, rule)
    ensures Filter(WithMarket(g, rule), (r: RoleAssignment) => GrantedSites(r, g.sites, g.now))
         == Filter(WithMarket(f, rule), (r: RoleAssignment) => GrantedSites(r, f.sites, f.now))
  {
  }

  /**
   With any of its sources unavailable the evaluator answers as before, or that
   a source is unavailable: for every operation and all facts.
   */
  lemma FailsClosed(f: Facts, g: Facts)
    requires Dimmed(f, g)
    ensures SameOrUnavailable(Evaluate(f), Evaluate(g))
  {
    hide Permitted, WithMarket, Filter, EvaluateCommitment, EvaluateApprovalDecision, SiteRefusal, GrantedSites;
    CommitmentDims(f, g);
    ApprovalDims(f, g);
    if RuleOf(f.operation).Some? {
      SitesDim(f, g, RuleOf(f.operation).value);
      if f.roles.Read? && g.roles == f.roles {
        RolesRead(f, g, RuleOf(f.operation).value);
      }
    }
  }
}
