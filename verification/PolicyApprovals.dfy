/** An approval releases, and is decided for, exactly the transaction it is bound to. */
module PolicyApprovals {
  import opened Wrappers
  import opened SpendTypes
  import opened BuyerPolicy
  import opened PolicyMeaning
  import opened PolicyFailsClosed
  import opened PolicyVerdict

  /** A commitment that is allowed although it exceeds the buyer's order limit or an approval threshold. */
  ghost predicate AllowedBeyond(f: Facts) {
    && f.operation in COMMITTING && Evaluate(f) == ALLOWED
    && f.transaction.Some? && f.spendAuthorities.Read? && f.approvalPolicies.Read?
    && (OverLimit(f, f.transaction.value) || OverThreshold(f, f.transaction.value))
  }

  /** It rests on an approval of exactly this transaction, in each of its columns. */
  lemma ReleasedByItsApproval(f: Facts)
    requires AllowedBeyond(f)
    ensures f.approval.Some? && f.market.Some?
    ensures var tx, a := f.transaction.value, f.approval.value;
            && a.digest == Some(tx.digest) && a.version == Some(tx.version)
            && a.amount == tx.amount && a.currency == tx.currency && a.market == f.market
            && a.policyRevision == Some("trade.buyer-operation-policy:v1")
            && a.status == Approved && a.organisation == f.organisation
            && a.initiator == Some(f.principal) && f.principal != "" && a.approver.Some? && a.approver.value !in {f.principal, ""}
            && f.reevaluation.Some? && f.reevaluation.value.outcome == Allow
  {
    hide Evaluate, OverLimit, OverThreshold, SiteVerdict, BudgetVerdict, OrderNumberVerdict, HoldsInMarket, HoldsEverywhere, Holds;
    VerdictIs(f);
    StopsRefuse(f);
  }

  lemma StopsRefuse(f: Facts)
    ensures SiteVerdict(f) != Some(YES)
    ensures f.transaction.Some? ==> BudgetVerdict(f, f.transaction.value) != Some(YES)
    ensures f.purchaseOrder.Read? ==> OrderNumberVerdict(f.purchaseOrder.value) != Some(YES)
  {
    hide FirstUnserved, OwnSite, FitsEach, NoneOf, Twice;
  }

  /** g differs from f in the approval and its re-evaluation only. */
  ghost predicate OtherApproval(f: Facts, g: Facts) {
    g == f.(approval := g.approval, reevaluation := g.reevaluation)
  }

  lemma CommitmentReads(f: Facts, g: Facts)
    requires OtherApproval(f, g) && f.transaction.Some? && f.market.Some?
    ensures EvaluateBudgets(g, f.transaction.value, f.market.value) == EvaluateBudgets(f, f.transaction.value, f.market.value)
    ensures f.spendAuthorities.Read? ==> Limits(g, f.transaction.value.currency) == Limits(f, f.transaction.value.currency)
    ensures f.approvalPolicies.Read? ==> Escalation(g, f.transaction.value.currency) == Escalation(f, f.transaction.value.currency)
  {
    hide EvaluateBudgets, Limits, Escalation;
    BudgetReads(f, g, f.transaction.value, f.market.value);
    ReadingLimits(f, g, f.transaction.value.currency);
  }

  /** Up to its kind's own checks an operation does not look at the approval. */
  lemma KindReads(f: Facts, g: Facts)
    requires OtherApproval(f, g) && Evaluate(f) == ALLOWED
    ensures f.operation in COMMITTING ==> Evaluate(g) == EvaluateCommitment(g) && EvaluateCommitment(f) == ALLOWED
    ensures f.operation == DecideApproval ==> Evaluate(g) == EvaluateApprovalDecision(g) && EvaluateApprovalDecision(f) == ALLOWED
  {
    hide EvaluateCommitment, EvaluateApprovalDecision, Filter, Permitted, WithMarket, SiteRefusal, GrantedSites;
    RulesAre(f.operation);
    if RuleOf(f.operation).Some? {
      RefusalReads(f, g, RuleOf(f.operation).value);
      SitesRefuse(f);
      if f.roles.Read? {
        RolesRead(f, g, RuleOf(f.operation).value);
      }
    }
  }

  lemma RefusalReads(f: Facts, g: Facts, rule: Rule)
    requires OtherApproval(f, g)
    ensures SiteRefusal(g, rule) == SiteRefusal(f, rule)
  {
    if f.siteRecords.Read? {
      SiteReads(f, g, f.sites, f.siteRecords.value);
    }
  }

  lemma SitesRefuse(f: Facts)
    requires RuleOf(f.operation).Some?
    ensures SiteRefusal(f, RuleOf(f.operation).value) != Some(ALLOWED)
  {
    hide SiteVerdict;
    SitesAre(f);
    StopsRefuse(f);
  }

  /** What an escalated commitment comes to under any approval and re-evaluation. */
  lemma ApprovalDecides(f: Facts, g: Facts)
    requires AllowedBeyond(f) && OtherApproval(f, g)
    ensures exists reasons :: Evaluate(g) ==
              if g.approval.None? || g.approval.value.status != Approved then Decision(ApprovalRequired, reasons)
              else ReleaseVerdict(g, f.transaction.value, g.approval.value, reasons)
  {
    hide Evaluate, EvaluateBudgets, Limits, Escalation, ApplyApproval, ReleaseVerdict, PurchaseOrderRefusal, OverLimit, OverThreshold;
    KindReads(f, g);
    var tx := f.transaction.value;
    CommitmentReads(f, g);
    EscalatedOnly(f);
    if g.approval.Some? {
      forall reasons ensures ApplyApproval(g, tx, f.market.value, g.approval.value, reasons) == ReleaseVerdict(g, tx, g.approval.value, reasons) {
        ReleaseIs(g, tx, g.approval.value, reasons);
      }
    }
    var limit := Limits(f, tx.currency).value.orderLimit.value;
    assert EvaluateCommitment(g) == Escalate(g, tx, limit);
    var policy := Escalation(f, tx.currency);
    var reasons := (if tx.amount > limit then [SpendLimitExceeded] else [])
                   + (if policy.One? && policy.value.threshold.Some? && tx.amount > policy.value.threshold.value then [ApprovalThresholdExceeded] else []);
    assert Evaluate(g) ==
           if g.approval.None? || g.approval.value.status != Approved then Decision(ApprovalRequired, reasons)
           else ReleaseVerdict(g, tx, g.approval.value, reasons);
  }

  /** An allowed escalated commitment passed every check of a commitment and has one limit and one policy. */
  lemma EscalatedOnly(f: Facts)
    requires AllowedBeyond(f)
    ensures f.market.Some? && f.transaction.value.amount > 0 && Present(f.market) && f.purchaseOrder.Read?
    ensures PurchaseOrderRefusal(f.purchaseOrder.value).None?
    ensures var tx, limit, policy := f.transaction.value, Limits(f, f.transaction.value.currency), Escalation(f, f.transaction.value.currency);
            && limit.One? && limit.value.orderLimit.Some? && limit.value.orderLimit.value > 0
            && EvaluateBudgets(f, tx, f.market.value).None?
            && policy.One?
            && (tx.amount > limit.value.orderLimit.value || (policy.value.threshold.Some? && tx.amount > policy.value.threshold.value))
  {
    hide Evaluate, EvaluateBudgets, Limits, Escalation, ApplyApproval, PurchaseOrderRefusal, LimitCounts, PolicyCounts, NoneOf, Twice;
    KindReads(f, f);
    var tx := f.transaction.value;
    LimitsAre(f, tx.currency);
    PoliciesAre(f, tx.currency);
    if f.market.Some? && f.purchaseOrder.Read? {
      RefusalsRefuse(f, tx, f.market.value, f.purchaseOrder.value);
    }
    if Escalation(f, tx.currency).NoRecord? {
      NoneFound(f.approvalPolicies.value, PolicyCounts(f, tx.currency));
    }
  }

  /** After every other check, an approval of a transaction that differs in any one column is refused as TRANSACTION_CHANGED. */
  lemma OtherTransactionRefused(f: Facts, g: Facts)
    requires AllowedBeyond(f) && OtherApproval(f, g) && f.approval.Some? && g.approval.Some?
    requires var a, b := f.approval.value, g.approval.value;
             b == a.(digest := b.digest, version := b.version, amount := b.amount, currency := b.currency, market := b.market)
    requires var tx, b := f.transaction.value, g.approval.value;
             || b.digest != Some(tx.digest) || b.version != Some(tx.version)
             || b.amount != tx.amount || b.currency != tx.currency || b.market != f.market
    ensures Evaluate(g) == Decision(Deny, [TransactionChanged])
  {
    hide Evaluate, OverLimit, OverThreshold;
    ReleasedByItsApproval(f);
    ApprovalDecides(f, g);
  }

  /** An approval that may be decided is for exactly this transaction, in each of its columns. */
  lemma DecidedForItsTransaction(f: Facts)
    requires f.operation == DecideApproval && Evaluate(f) == ALLOWED
    ensures f.transaction.Some? && f.approval.Some? && f.market.Some?
    ensures var tx, a := f.transaction.value, f.approval.value;
            && a.digest == Some(tx.digest) && a.version == Some(tx.version)
            && a.amount == tx.amount && a.currency == tx.currency && a.market == f.market
            && a.organisation == f.organisation && a.initiator.Some? && a.initiator.value !in {f.principal, ""}
            && (a.status == Pending || (a.status == Approved && a.approver == Some(f.principal)))
  {
    hide Evaluate, SiteVerdict, HoldsInMarket, HoldsEverywhere, Holds, Twice, LimitCounts;
    VerdictIs(f);
    StopsRefuse(f);
  }

  /** After every other check, deciding an approval of any other transaction is refused as TRANSACTION_CHANGED. */
  lemma OtherTransactionUndecided(f: Facts, g: Facts)
    requires f.operation == DecideApproval && Evaluate(f) == ALLOWED && OtherApproval(f, g) && g.approval.Some?
    requires f.approval.Some? && f.transaction.Some?
    requires var a, b := f.approval.value, g.approval.value;
             b == a.(digest := b.digest, version := b.version, amount := b.amount, currency := b.currency, market := b.market)
    requires var tx, b := f.transaction.value, g.approval.value;
             || b.digest != Some(tx.digest) || b.version != Some(tx.version)
             || b.amount != tx.amount || b.currency != tx.currency || b.market != f.market
    ensures Evaluate(g) == Decision(Deny, [TransactionChanged])
  {
    hide Evaluate, Limits;
    DecidedForItsTransaction(f);
    KindReads(f, g);
  }
}
