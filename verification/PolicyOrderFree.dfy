/** The order in which records were loaded never changes a decision. */
module PolicyOrderFree {
  import opened Wrappers
  import opened SpendTypes
  import opened BuyerPolicy
  import opened PolicyMeaning
  import opened PolicyFailsClosed

  /** A role assignment with its grants in no particular order. */
  datatype RoleView = RoleView(roleId: Id, role: Id, markets: multiset<ScopeGrant>, sites: multiset<ScopeGrant>)

  function ViewOf(r: RoleAssignment): RoleView {
    RoleView(r.roleId, r.role, multiset(r.markets), multiset(r.sites))
  }

  function ViewsOf(rs: seq<RoleAssignment>): seq<RoleView>
    decreases |rs|
  {
    if rs == [] then [] else [ViewOf(rs[0])] + ViewsOf(rs[1..])
  }

  predicate Permuted<T(==)>(a: Source<seq<T>>, b: Source<seq<T>>) {
    (a.Unavailable? && b.Unavailable?) || (a.Read? && b.Read? && multiset(a.value) == multiset(b.value))
  }

  predicate PermutedRoles(a: Source<seq<RoleAssignment>>, b: Source<seq<RoleAssignment>>) {
    (a.Unavailable? && b.Unavailable?) || (a.Read? && b.Read? && multiset(ViewsOf(a.value)) == multiset(ViewsOf(b.value)))
  }

  predicate PermutedHolds(a: Option<Source<ReservationFact>>, b: Option<Source<ReservationFact>>) {
    || a == b
    || (a.Some? && a.value.Read? && b.Some? && b.value.Read?
        && b.value.value == a.value.value.(holds := b.value.value.holds)
        && multiset(a.value.value.holds) == multiset(b.value.value.holds)
        && UniqueHolds(a.value.value.holds))
  }

  predicate UniqueHolds(holds: seq<HoldFact>) {
    forall x, y :: x in holds && y in holds && x.policy == y.policy && x.revision == y.revision && x.periodStartsAt == y.periodStartsAt ==> x == y
  }

  predicate UniqueSites(records: seq<SiteRecord>) {
    forall x, y :: x in records && y in records && x.id == y.id ==> x == y
  }

  /** g holds the records of f in another order. */
  ghost predicate Shuffled(f: Facts, g: Facts) {
    && g == f.(roles := g.roles, siteRecords := g.siteRecords, spendAuthorities := g.spendAuthorities,
               approvalPolicies := g.approvalPolicies, budgets := g.budgets, reservation := g.reservation)
    && PermutedRoles(f.roles, g.roles) && Permuted(f.siteRecords, g.siteRecords)
    && Permuted(f.spendAuthorities, g.spendAuthorities) && Permuted(f.approvalPolicies, g.approvalPolicies)
    && Permuted(f.budgets, g.budgets) && PermutedHolds(f.reservation, g.reservation)
    && (f.siteRecords.Read? ==> UniqueSites(f.siteRecords.value))
  }

  lemma {:induction false} FilterAppend<T>(s: seq<T>, t: seq<T>, p: T -> bool)
    ensures Filter(s + t, p) == Filter(s, p) + Filter(t, p)
    decreases |s|
  {
    if s == [] {
      assert s + t == t;
    } else {
      FilterAppend(s[1..], t, p);
      FilterHead(s[0], s[1..], p);
      FilterHead(s[0], s[1..] + t, p);
      assert s == [s[0]] + s[1..] && s + t == [s[0]] + (s[1..] + t);
    }
  }

  lemma FilterHead<T>(x: T, rest: seq<T>, p: T -> bool)
    ensures Filter([x] + rest, p) == (if p(x) then [x] else []) + Filter(rest, p)
  {
    assert ([x] + rest)[1..] == rest;
  }

  lemma {:induction false} FilterSame<T>(s: seq<T>, p: T -> bool, q: T -> bool)
    requires forall x :: p(x) <==> q(x)
    ensures Filter(s, p) == Filter(s, q)
    decreases |s|
  {
    if s != [] {
      FilterSame(s[1..], p, q);
    }
  }

  lemma FilterAround<T>(before: seq<T>, x: T, after: seq<T>, p: T -> bool)
    ensures multiset(Filter(before + ([x] + after), p)) ==
            multiset(Filter(before + after, p)) + if p(x) then multiset{x} else multiset{}
  {
    FilterAppend(before, after, p);
    FilterAppend(before, [x] + after, p);
    FilterAppend([x], after, p);
    assert Filter([x], p) == if p(x) then [x] else [];
  }

  lemma Without<T>(t: seq<T>, x: T) returns (before: seq<T>, after: seq<T>)
    requires x in t
    ensures t == before + ([x] + after) && multiset(before + after) == multiset(t) - multiset{x}
  {
    var i :| 0 <= i < |t| && t[i] == x;
    before, after := t[..i], t[i + 1..];
    assert t == before + ([x] + after);
  }

  lemma SameRest<T>(x: T, rest: seq<T>, others: seq<T>, t: seq<T>)
    requires multiset([x] + rest) == multiset(t) && multiset(others) == multiset(t) - multiset{x}
    ensures multiset(rest) == multiset(others)
  {
    assert multiset([x] + rest) == multiset{x} + multiset(rest);
  }

  lemma FilterExtends<T>(x: T, rest: seq<T>, before: seq<T>, after: seq<T>, p: T -> bool)
    requires multiset(Filter(rest, p)) == multiset(Filter(before + after, p))
    ensures multiset(Filter([x] + rest, p)) == multiset(Filter(before + ([x] + after), p))
  {
    FilterAround(before, x, after, p);
    FilterHead(x, rest, p);
  }

  lemma NothingLeft<T>(t: seq<T>)
    requires multiset(t) == multiset{}
    ensures t == []
  {
    assert |t| == |multiset(t)|;
  }

  lemma {:induction false} FilterPermuted<T>(s: seq<T>, t: seq<T>, p: T -> bool)
    requires multiset(s) == multiset(t)
    ensures multiset(Filter(s, p)) == multiset(Filter(t, p))
    decreases |s|, 0
  {
    if s == [] {
      NothingLeft(t);
    } else {
      assert s == [s[0]] + s[1..];
      FilterMoved(s[0], s[1..], t, p);
    }
  }

  lemma {:induction false} FilterMoved<T>(x: T, rest: seq<T>, t: seq<T>, p: T -> bool)
    requires multiset([x] + rest) == multiset(t)
    ensures multiset(Filter([x] + rest, p)) == multiset(Filter(t, p))
    decreases |rest|, 1
  {
    hide Filter;
    assert x in multiset([x] + rest);
    var before, after := Without(t, x);
    SameRest(x, rest, before + after, t);
    FilterPermuted(rest, before + after, p);
    FilterExtends(x, rest, before, after, p);
  }

  lemma SingleOfPermuted<T>(s: seq<T>, t: seq<T>, p: T -> bool)
    requires multiset(s) == multiset(t)
    ensures SingleOf(Filter(s, p)) == SingleOf(Filter(t, p))
  {
    FilterPermuted(s, t, p);
    var a, b := Filter(s, p), Filter(t, p);
    assert |a| == |multiset(a)| == |multiset(b)| == |b|;
    if |a| == 1 {
      assert a == [a[0]] && b == [b[0]];
      assert a[0] in multiset(b);
    }
  }

  lemma {:induction false} FindUnique<T>(s: seq<T>, p: T -> bool, x: T)
    requires forall y, z :: y in s && z in s && p(y) && p(z) ==> y == z
    ensures Find(s, p) == Some(x) <==> x in s && p(x)
    decreases |s|
  {
    if s != [] {
      assert s[0] in s && forall y :: y in s[1..] ==> y in s;
      FindUnique(s[1..], p, x);
    }
  }

  lemma FindPermuted<T>(s: seq<T>, t: seq<T>, p: T -> bool)
    requires multiset(s) == multiset(t)
    requires forall y, z :: y in s && z in s && p(y) && p(z) ==> y == z
    ensures Find(s, p) == Find(t, p)
  {
    assert forall y :: y in s <==> y in multiset(s);
    assert forall y :: y in t <==> y in multiset(t);
    if Find(s, p).Some? {
      FindUnique(s, p, Find(s, p).value);
      FindUnique(t, p, Find(s, p).value);
    } else if Find(t, p).Some? {
      FindUnique(t, p, Find(t, p).value);
      FindUnique(s, p, Find(t, p).value);
    }
  }

  // ----- Roles -----

  lemma {:induction false} ViewsAt(rs: seq<RoleAssignment>, v: RoleView)
    ensures v in ViewsOf(rs) <==> exists r :: r in rs && ViewOf(r) == v
    decreases |rs|
  {
    if rs != [] {
      ViewsAt(rs[1..], v);
      assert forall r :: r in rs <==> r == rs[0] || r in rs[1..];
    }
  }

  /** Whoever meets a condition on its view in one order meets it in the other. */
  lemma Counterpart(f: Facts, g: Facts, r: RoleAssignment) returns (q: RoleAssignment)
    requires PermutedRoles(f.roles, g.roles) && f.roles.Read? && r in f.roles.value
    ensures g.roles.Read? && q in g.roles.value && ViewOf(q) == ViewOf(r)
  {
    ViewsAt(f.roles.value, ViewOf(r));
    assert ViewOf(r) in multiset(ViewsOf(f.roles.value)) && ViewOf(r) in multiset(ViewsOf(g.roles.value));
    assert ViewOf(r) in ViewsOf(g.roles.value);
    ViewsAt(g.roles.value, ViewOf(r));
    q :| q in g.roles.value && ViewOf(q) == ViewOf(r);
  }

  /** How far the roles carry: any permitted, any with the Market, any with everything. */
  ghost predicate Carries(f: Facts, rule: Rule, market: bool, sites: bool)
    requires f.roles.Read?
  {
    exists r :: r in f.roles.value && CarriesOne(f, rule, market, sites, r)
  }

  ghost predicate CarriesOne(f: Facts, rule: Rule, market: bool, sites: bool, r: RoleAssignment) {
    && r.role in ALL_ROLES && r.role in rule.roles
    && (market && rule.market ==> f.market.Some? && Granted(r.markets, f.market.value, f.now))
    && (sites ==> GrantedSites(r, f.sites, f.now))
  }

  lemma CarriedOver(f: Facts, g: Facts, rule: Rule, market: bool, sites: bool)
    requires PermutedRoles(f.roles, g.roles) && f.roles.Read? && g.market == f.market && g.now == f.now && g.sites == f.sites
    requires Carries(f, rule, market, sites)
    ensures g.roles.Read? && Carries(g, rule, market, sites)
  {
    var r :| r in f.roles.value && CarriesOne(f, rule, market, sites, r);
    var q := Counterpart(f, g, r);
    GrantsSeen(r, q);
    assert CarriesOne(g, rule, market, sites, q);
  }

  lemma GrantsSeen(r: RoleAssignment, q: RoleAssignment)
    requires ViewOf(r) == ViewOf(q)
    ensures r.role == q.role
    ensures forall key, now :: Granted(r.markets, key, now) <==> Granted(q.markets, key, now)
    ensures forall key, now :: Granted(r.sites, key, now) <==> Granted(q.sites, key, now)
  {
    assert forall x :: x in r.markets <==> x in multiset(r.markets);
    assert forall x :: x in q.markets <==> x in multiset(q.markets);
    assert forall x :: x in r.sites <==> x in multiset(r.sites);
    assert forall x :: x in q.sites <==> x in multiset(q.sites);
  }

  lemma PermittedCarry(f: Facts, rule: Rule)
    requires f.roles.Read?
    ensures forall r :: r in Permitted(f, rule) <==> r in f.roles.value && CarriesOne(f, rule, false, false, r)
  {
    hide Granted, GrantedSites;
    FilterMembers(f.roles.value, (r: RoleAssignment) => r.role in ALL_ROLES && r.role in rule.roles);
  }

  lemma MarketCarry(f: Facts, rule: Rule)
    requires f.roles.Read?
    ensures forall r :: r in WithMarket(f, rule) <==> r in f.roles.value && CarriesOne(f, rule, true, false, r)
  {
    hide Granted, GrantedSites, Permitted;
    PermittedCarry(f, rule);
    FilterMembers(Permitted(f, rule), (r: RoleAssignment) => f.market.Some? && Granted(r.markets, f.market.value, f.now));
  }

  /** The assignments left by the evaluator's last filter. */
  function Scoped(f: Facts, rule: Rule): seq<RoleAssignment>
    requires f.roles.Read?
  {
    Filter(WithMarket(f, rule), (r: RoleAssignment) => GrantedSites(r, f.sites, f.now))
  }

  lemma ScopedCarry(f: Facts, rule: Rule)
    requires f.roles.Read?
    ensures forall r :: r in Scoped(f, rule) <==> r in f.roles.value && CarriesOne(f, rule, true, true, r)
  {
    hide Granted, GrantedSites, WithMarket, Permitted;
    MarketCarry(f, rule);
    FilterMembers(WithMarket(f, rule), (r: RoleAssignment) => GrantedSites(r, f.sites, f.now));
  }

  lemma FiltersCarry(f: Facts, rule: Rule)
    requires f.roles.Read?
    ensures Permitted(f, rule) != [] <==> Carries(f, rule, false, false)
    ensures WithMarket(f, rule) != [] <==> Carries(f, rule, true, false)
    ensures Scoped(f, rule) != [] <==> Carries(f, rule, true, true)
  {
    hide CarriesOne, Permitted, WithMarket, Scoped;
    PermittedCarry(f, rule);
    MarketCarry(f, rule);
    ScopedCarry(f, rule);
    NonEmpty(Permitted(f, rule));
    NonEmpty(WithMarket(f, rule));
    NonEmpty(Scoped(f, rule));
  }

  lemma NonEmpty<T>(s: seq<T>)
    ensures s != [] <==> exists x :: x in s
  {
    if s != [] {
      assert s[0] in s;
    }
  }

  lemma RolesPermuted(f: Facts, g: Facts, rule: Rule, market: bool, sites: bool)
    requires PermutedRoles(f.roles, g.roles) && f.roles.Read? && g.market == f.market && g.now == f.now && g.sites == f.sites
    ensures g.roles.Read? && (Carries(f, rule, market, sites) <==> Carries(g, rule, market, sites))
  {
    if Carries(f, rule, market, sites) {
      CarriedOver(f, g, rule, market, sites);
    }
    if Carries(g, rule, market, sites) {
      CarriedOver(g, f, rule, market, sites);
    }
  }

  // ----- Sites, budgets and limits -----

  lemma {:induction false} SitesPermuted(f: Facts, g: Facts, uses: seq<SiteUse>, a: seq<SiteRecord>, b: seq<SiteRecord>)
    requires g.organisation == f.organisation && g.market == f.market && multiset(a) == multiset(b) && UniqueSites(a)
    ensures FirstSiteRefusal(g, uses, b) == FirstSiteRefusal(f, uses, a)
    decreases |uses|
  {
    hide SiteUsable;
    if uses != [] {
      FindPermuted(a, b, (s: SiteRecord) => s.id == uses[0].siteId);
      SitesPermuted(f, g, uses[1..], a, b);
    }
  }

  lemma HoldsPermuted(f: Facts, g: Facts, b: BudgetFact)
    requires g.now == f.now && PermutedHolds(f.reservation, g.reservation)
    ensures Credited(g, b) == Credited(f, b)
  {
    var x, y := UsableReservation(f), UsableReservation(g);
    if PeriodCurrent(b, f.now) && x.Some? && y.Some? && x != y {
      FindPermuted(x.value.holds, y.value.holds,
                   (h: HoldFact) => h.policy == b.policy && h.revision == b.revision && h.periodStartsAt == b.period.value.startsAt);
    }
  }

  lemma BudgetsPermuted(f: Facts, g: Facts, tx: Transaction, market: Id)
    requires Shuffled(f, g)
    ensures EvaluateBudgets(g, tx, market) == EvaluateBudgets(f, tx, market)
  {
    hide Filter, Credited, Consumed, Applicable, MembershipBudget, OrganisationBudget, AgreementBudget, Carries, UniqueHolds;
    forall b ensures Credited(g, b) == Credited(f, b) {
      HoldsPermuted(f, g, b);
    }
    if f.budgets.Read? {
      BudgetsAre(f, tx, market);
      BudgetsAre(g, tx, market);
      SingleOfPermuted(f.budgets.value, g.budgets.value, MembershipBinds(f, tx, market));
      SingleOfPermuted(f.budgets.value, g.budgets.value, OrganisationBinds(f, tx, market));
      SingleOfPermuted(f.budgets.value, g.budgets.value, AgreementBinds(f, tx, market));
      FilterSame(g.budgets.value, MembershipBinds(f, tx, market), MembershipBinds(g, tx, market));
      FilterSame(g.budgets.value, OrganisationBinds(f, tx, market), OrganisationBinds(g, tx, market));
      FilterSame(g.budgets.value, AgreementBinds(f, tx, market), AgreementBinds(g, tx, market));
    }
  }

  lemma LimitsPermuted(f: Facts, g: Facts, currency: Id)
    requires Shuffled(f, g)
    ensures f.spendAuthorities.Read? ==> Limits(g, currency) == Limits(f, currency)
    ensures f.approvalPolicies.Read? ==> Escalation(g, currency) == Escalation(f, currency)
  {
    hide Filter;
    if f.spendAuthorities.Read? {
      SingleOfPermuted(f.spendAuthorities.value, g.spendAuthorities.value, LimitBinds(f, currency));
    }
    if f.approvalPolicies.Read? {
      SingleOfPermuted(f.approvalPolicies.value, g.approvalPolicies.value, PolicyBinds(f, currency));
    }
  }

  lemma CommitmentPermuted(f: Facts, g: Facts)
    requires Shuffled(f, g)
    ensures EvaluateCommitment(g) == EvaluateCommitment(f) && EvaluateApprovalDecision(g) == EvaluateApprovalDecision(f)
  {
    hide Limits, Escalation, EvaluateBudgets, PurchaseOrderRefusal, ApplyApproval, BoundTo;
    if f.transaction.Some? && Present(f.market) {
      var tx := f.transaction.value;
      LimitsPermuted(f, g, tx.currency);
      BudgetsPermuted(f, g, tx, f.market.value);
      forall a, reasons ensures ApplyApproval(g, tx, f.market.value, a, reasons) == ApplyApproval(f, tx, f.market.value, a, reasons) {
        ApprovalReads(f, g, tx, f.market.value, a, reasons);
      }
    }
  }

  lemma ApprovalReads(f: Facts, g: Facts, tx: Transaction, market: Id, a: BoundApproval, reasons: seq<DecisionReason>)
    requires g.organisation == f.organisation && g.principal == f.principal && g.reevaluation == f.reevaluation
    ensures ApplyApproval(g, tx, market, a, reasons) == ApplyApproval(f, tx, market, a, reasons)
  {
  }

  /** The decision does not depend on the order of any record list. */
  lemma OrderIsIrrelevant(f: Facts, g: Facts)
    requires Shuffled(f, g)
    ensures Evaluate(g) == Evaluate(f)
  {
    hide Permitted, WithMarket, Filter, EvaluateCommitment, EvaluateApprovalDecision, GrantedSites, Carries, SiteRefusal, Shuffled, RuleOf;
    CommitmentPermuted(f, g);
    SameQuestion(f, g);
    if RuleOf(f.operation).Some? {
      var rule := RuleOf(f.operation).value;
      SitesShuffled(f, g, rule);
      if f.roles.Read? {
        RolesShuffled(f, g, rule);
      }
    }
  }

  lemma SameQuestion(f: Facts, g: Facts)
    requires Shuffled(f, g)
    ensures g.operation == f.operation && g.now == f.now && g.membershipActive == f.membershipActive && g.sites == f.sites
    ensures g.membershipEffective == f.membershipEffective && g.market == f.market && g.marketAuthority == f.marketAuthority
    ensures g.roles.Read? <==> f.roles.Read?
  {
  }

  lemma SitesShuffled(f: Facts, g: Facts, rule: Rule)
    requires Shuffled(f, g)
    ensures SiteRefusal(g, rule) == SiteRefusal(f, rule)
  {
    hide UniqueSites, PermutedHolds, FirstSiteRefusal, PermutedRoles;
    if f.siteRecords.Read? {
      SitesPermuted(f, g, f.sites, f.siteRecords.value, g.siteRecords.value);
    }
  }

  lemma RolesShuffled(f: Facts, g: Facts, rule: Rule)
    requires Shuffled(f, g) && f.roles.Read?
    ensures g.roles.Read?
    ensures Permitted(g, rule) == [] <==> Permitted(f, rule) == []
    ensures WithMarket(g, rule) == [] <==> WithMarket(f, rule) == []
    ensures Scoped(g, rule) == [] <==> Scoped(f, rule) == []
  {
    hide UniqueSites, PermutedHolds, Carries, Permitted, WithMarket, Scoped;
    FiltersCarry(f, rule);
    RolesPermuted(f, g, rule, false, false);
    RolesPermuted(f, g, rule, true, false);
    RolesPermuted(f, g, rule, true, true);
    FiltersCarry(g, rule);
  }

  // ----- The order of the Site uses -----

  lemma {:induction false} SiteRefusalKind(f: Facts, rule: Rule)
    ensures SiteRefusal(f, rule) != Some(ALLOWED)
  {
    hide FirstSiteRefusal;
    if f.siteRecords.Read? {
      SiteRefusalsRefuse(f, f.sites, f.siteRecords.value);
    }
  }

  lemma SitesReordered(f: Facts, g: Facts, rule: Rule)
    requires g == f.(sites := g.sites) && multiset(g.sites) == multiset(f.sites)
    ensures SiteRefusal(f, rule).None? <==> SiteRefusal(g, rule).None?
    ensures f.roles.Read? ==> forall market, sites :: Carries(f, rule, market, sites) <==> Carries(g, rule, market, sites)
  {
    hide Find, SiteUsable, Granted;
    assert forall s :: s in f.sites <==> s in multiset(f.sites);
    assert forall s :: s in g.sites <==> s in multiset(g.sites);
    assert |f.sites| == |multiset(f.sites)| == |g.sites|;
    forall s ensures UseAllowed(f, s) <==> UseAllowed(g, s) {}
    SitesMean(f, rule);
    SitesMean(g, rule);
    if f.roles.Read? {
      forall r, market, sites ensures CarriesOne(f, rule, market, sites, r) <==> CarriesOne(g, rule, market, sites, r) {}
    }
  }

  lemma UnreadSites(f: Facts, g: Facts)
    requires g == f.(sites := g.sites)
    ensures EvaluateCommitment(g) == EvaluateCommitment(f) && EvaluateApprovalDecision(g) == EvaluateApprovalDecision(f)
  {
    hide Limits, Escalation, EvaluateBudgets, PurchaseOrderRefusal, ApplyApproval, BoundTo;
    if f.transaction.Some? && f.market.Some? {
      var tx := f.transaction.value;
      ReadingLimits(f, g, tx.currency);
      BudgetReads(f, g, tx, f.market.value);
      forall a, reasons ensures ApplyApproval(g, tx, f.market.value, a, reasons) == ApplyApproval(f, tx, f.market.value, a, reasons) {
        ApprovalReads(f, g, tx, f.market.value, a, reasons);
      }
    }
  }

  /** The order in which an operation names its Sites does not change whether it is allowed. */
  lemma SiteUseOrder(f: Facts, g: Facts)
    requires g == f.(sites := g.sites) && multiset(g.sites) == multiset(f.sites)
    ensures Evaluate(g) == ALLOWED <==> Evaluate(f) == ALLOWED
  {
    hide Permitted, WithMarket, Filter, EvaluateCommitment, EvaluateApprovalDecision, GrantedSites, Carries, SiteRefusal;
    UnreadSites(f, g);
    if RuleOf(f.operation).Some? {
      var rule := RuleOf(f.operation).value;
      SitesReordered(f, g, rule);
      SiteRefusalKind(f, rule);
      SiteRefusalKind(g, rule);
      if f.roles.Read? {
        FiltersCarry(f, rule);
        FiltersCarry(g, rule);
      }
    }
  }
}
