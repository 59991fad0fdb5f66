/** When the order in which an operation names its Sites changes its decision. */
module PolicySiteOrder {
  import opened Wrappers
  import opened SpendTypes
  import opened BuyerPolicy
  import opened PolicyMeaning
  import opened PolicyOrderFree

  /** The use names no known Site, or another Organisation's. */
  predicate Foreign(f: Facts, use: SiteUse)
    requires f.siteRecords.Read?
  {
    var site := SiteOf(f.siteRecords.value, use);
    site.None? || site.value.organisation != f.organisation
  }

  /** The use names a Site of this Organisation that does not serve it here. */
  predicate Unserved(f: Facts, use: SiteUse)
    requires f.siteRecords.Read?
  {
    !Foreign(f, use) && !SiteUsable(SiteOf(f.siteRecords.value, use).value, use.use, f.market)
  }

  /** Some named Site is foreign and some other one is the Organisation's own but unserved. */
  ghost predicate Mixed(f: Facts) {
    && f.siteRecords.Read?
    && (exists use :: use in f.sites && Foreign(f, use)) && (exists use :: use in f.sites && Unserved(f, use))
  }

  /** Nothing decides the operation before its Sites are looked up. */
  ghost predicate LooksUpSites(f: Facts) {
    && RuleOf(f.operation).Some? && f.operation != AcceptInvitation
    && f.membershipActive && f.membershipEffective.Contains(f.now) && f.roles.Read?
    && var rule := RuleOf(f.operation).value;
       && Permitted(f, rule) != [] && rule.kind != Governed
       && (rule.market ==> Present(f.market) && f.marketAuthority == Attested)
       && f.sites != [] && rule.site != NoSite
       && (rule.site == Required ==> exists s :: s in f.sites && s.use == Shipping)
       && f.siteRecords.Read?
  }

  predicate Reordering(f: Facts, sites: seq<SiteUse>) {
    multiset(sites) == multiset(f.sites)
  }

  ghost predicate OrderDecidesNothing(f: Facts) {
    forall sites :: Reordering(f, sites) ==> Evaluate(f.(sites := sites)) == Evaluate(f)
  }

  // ----- What the lookup answers -----

  lemma {:induction false} FirstRefusalOfOneKind(f: Facts, uses: seq<SiteUse>)
    requires f.siteRecords.Read?
    ensures (forall use :: use in uses ==> !Unserved(f, use)) ==>
      FirstSiteRefusal(f, uses, f.siteRecords.value) ==
      if exists use :: use in uses && Foreign(f, use) then Some(Denied(BuyerNotAuthorised)) else None
    ensures (forall use :: use in uses ==> !Foreign(f, use)) ==>
      FirstSiteRefusal(f, uses, f.siteRecords.value) ==
      if exists use :: use in uses && Unserved(f, use) then Some(Denied(SiteNotPermitted)) else None
    decreases |uses|
  {
    hide SiteUsable, Find;
    if uses != [] {
      var head, rest := uses[0], uses[1..];
      assert head in uses && forall use :: use in uses <==> use == head || use in rest;
      FirstRefusalOfOneKind(f, rest);
      assert uses == [head] + rest;
      if Foreign(f, head) || Unserved(f, head) {
        FirstRefusalDecides(f, head, rest);
      } else {
        assert FirstSiteRefusal(f, uses, f.siteRecords.value) == FirstSiteRefusal(f, rest, f.siteRecords.value);
      }
    }
  }

  lemma FirstRefusalDecides(f: Facts, use: SiteUse, rest: seq<SiteUse>)
    requires f.siteRecords.Read?
    ensures Foreign(f, use) ==> FirstSiteRefusal(f, [use] + rest, f.siteRecords.value) == Some(Denied(BuyerNotAuthorised))
    ensures Unserved(f, use) ==> FirstSiteRefusal(f, [use] + rest, f.siteRecords.value) == Some(Denied(SiteNotPermitted))
  {
    hide SiteUsable, Find;
  }

  lemma {:induction false} LookupReads(f: Facts, g: Facts, uses: seq<SiteUse>)
    requires g == f.(sites := g.sites) && f.siteRecords.Read?
    ensures FirstSiteRefusal(g, uses, f.siteRecords.value) == FirstSiteRefusal(f, uses, f.siteRecords.value)
    decreases |uses|
  {
    hide SiteUsable, Find;
    if uses != [] {
      LookupReads(f, g, uses[1..]);
    }
  }

  // ----- The rest of the evaluator -----

  /** Everything but the lookup reads the Sites as a set. */
  lemma SameSites(f: Facts, g: Facts)
    requires g == f.(sites := g.sites) && Reordering(f, g.sites)
    ensures forall s :: s in g.sites <==> s in f.sites
    ensures g.sites == [] <==> f.sites == []
    ensures forall rule :: f.roles.Read? ==> Permitted(g, rule) == Permitted(f, rule)
    ensures LooksUpSites(g) <==> LooksUpSites(f)
  {
    hide Filter;
    assert forall s :: s in f.sites <==> s in multiset(f.sites);
    assert forall s :: s in g.sites <==> s in multiset(g.sites);
    assert |f.sites| == |multiset(f.sites)| == |g.sites|;
  }

  /** A refusal of the lookup is the decision. */
  lemma LookupAnswers(f: Facts)
    requires LooksUpSites(f) && FirstSiteRefusal(f, f.sites, f.siteRecords.value).Some?
    ensures Evaluate(f) == FirstSiteRefusal(f, f.sites, f.siteRecords.value).value
  {
    hide Permitted, FirstSiteRefusal, RuleOf;
  }

  /** With the same answer of the lookup the decision is the same. */
  lemma SameLookup(f: Facts, g: Facts, rule: Rule)
    requires g == f.(sites := g.sites) && Reordering(f, g.sites)
    requires RuleOf(f.operation) == Some(rule) && SiteRefusal(g, rule) == SiteRefusal(f, rule)
    ensures Evaluate(g) == Evaluate(f)
  {
    hide Permitted, WithMarket, Filter, EvaluateCommitment, EvaluateApprovalDecision, GrantedSites, Carries, SiteRefusal, RuleOf;
    UnreadSites(f, g);
    SitesReordered(f, g, rule);
    if f.roles.Read? {
      FiltersCarry(f, rule);
      FiltersCarry(g, rule);
    }
  }

  lemma UnmixedLookup(f: Facts, g: Facts, rule: Rule)
    requires g == f.(sites := g.sites) && Reordering(f, g.sites)
    requires f.siteRecords.Read? ==> !Mixed(f)
    ensures SiteRefusal(g, rule) == SiteRefusal(f, rule)
  {
    hide FirstSiteRefusal, Find, SiteUsable;
    SameSites(f, g);
    if f.siteRecords.Read? {
      FirstRefusalOfOneKind(f, f.sites);
      FirstRefusalOfOneKind(f, g.sites);
      LookupReads(f, g, g.sites);
    }
  }

  /** Where the lookup is not reached, what it would answer does not matter. */
  lemma NoLookup(f: Facts, g: Facts)
    requires g == f.(sites := g.sites) && Reordering(f, g.sites) && !LooksUpSites(f)
    ensures Evaluate(g) == Evaluate(f)
  {
    hide Filter, EvaluateCommitment, EvaluateApprovalDecision, GrantedSites, FirstSiteRefusal, Permitted, WithMarket, RuleOf;
    SameSites(f, g);
    if RuleOf(f.operation).Some? {
      var rule := RuleOf(f.operation).value;
      if f.siteRecords.Unavailable? || f.sites == [] || rule.site == NoSite
         || (rule.site == Required && !exists s :: s in f.sites && s.use == Shipping) {
        SameLookup(f, g, rule);
      }
    }
  }

  lemma MixedShows(f: Facts)
    requires LooksUpSites(f) && Mixed(f)
    ensures exists s :: Reordering(f, s) && Evaluate(f.(sites := s)) == Denied(BuyerNotAuthorised)
    ensures exists s :: Reordering(f, s) && Evaluate(f.(sites := s)) == Denied(SiteNotPermitted)
  {
    hide Evaluate, LooksUpSites, FirstSiteRefusal, SiteUsable, SiteOf;
    SitesRead(f);
    var foreign :| foreign in f.sites && Foreign(f, foreign);
    var s := Leading(f, foreign);
    var unserved :| unserved in f.sites && Unserved(f, unserved);
    var t := Leading(f, unserved);
    assert Evaluate(f.(sites := s)) == Denied(BuyerNotAuthorised);
    assert Evaluate(f.(sites := t)) == Denied(SiteNotPermitted);
  }

  lemma SitesRead(f: Facts)
    requires LooksUpSites(f)
    ensures f.siteRecords.Read?
  {
  }

  /** An order that begins with the given use is answered for that use. */
  lemma Leading(f: Facts, use: SiteUse) returns (s: seq<SiteUse>)
    requires LooksUpSites(f) && f.siteRecords.Read? && use in f.sites
    ensures Reordering(f, s)
    ensures Foreign(f, use) ==> Evaluate(f.(sites := s)) == Denied(BuyerNotAuthorised)
    ensures Unserved(f, use) ==> Evaluate(f.(sites := s)) == Denied(SiteNotPermitted)
  {
    hide Evaluate, LooksUpSites, FirstSiteRefusal, SiteUsable, SiteOf;
    var before, after := Without(f.sites, use);
    s := [use] + (before + after);
    assert multiset(s) == multiset{use} + multiset(before + after);
    var g := f.(sites := s);
    SameSites(f, g);
    FirstRefusalDecides(f, use, before + after);
    LookupReads(f, g, s);
    if Foreign(f, use) || Unserved(f, use) {
      LookupAnswers(g);
    }
  }

  /**
   The order of the named Sites matters exactly when they are looked up and some
   are foreign while others are the Organisation's own but unserved.
   */
  lemma SiteUseOrderMatters(f: Facts)
    ensures OrderDecidesNothing(f) <==> !(LooksUpSites(f) && Mixed(f))
  {
    hide Evaluate, LooksUpSites, Mixed, RuleOf;
    if LooksUpSites(f) && Mixed(f) {
      MixedShows(f);
    } else {
      forall s | Reordering(f, s) ensures Evaluate(f.(sites := s)) == Evaluate(f) {
        if LooksUpSites(f) {
          SitesRead(f);
          var rule := RuleKnown(f);
          UnmixedLookup(f, f.(sites := s), rule);
          SameLookup(f, f.(sites := s), rule);
        } else {
          NoLookup(f, f.(sites := s));
        }
      }
    }
  }

  lemma RuleKnown(f: Facts) returns (rule: Rule)
    requires LooksUpSites(f)
    ensures RuleOf(f.operation) == Some(rule)
  {
    rule := RuleOf(f.operation).value;
  }

  // ----- An order that shows -----

  const ELSEWHERE := SiteUse("s1", Shipping)
  const CLOSED := SiteUse("s2", Shipping)

  /** An order for a closed Site of o1 and a Site of o2. */
  function OrderTo(sites: seq<SiteUse>): Facts {
    Facts(CommitOrder, 0, "buyer", "o1", "m1", true, Interval(None, None),
          Read([RoleAssignment("r1", "BUYER", [], [])]), Some("ZA"), Attested,
          sites, Read([SiteRecord("s1", "o2", "ZA", ActiveSite, true, true), SiteRecord("s2", "o1", "ZA", ClosedSite, true, true)]),
          None, Source.Unavailable, Source.Unavailable, Source.Unavailable, Source.Unavailable, None, None, None)
  }

  /** One order of the same two Sites is refused for the buyer, the other for the Site. */
  lemma SiteUseOrderShows()
    ensures multiset([ELSEWHERE, CLOSED]) == multiset([CLOSED, ELSEWHERE])
    ensures Evaluate(OrderTo([ELSEWHERE, CLOSED])) == Denied(BuyerNotAuthorised)
    ensures Evaluate(OrderTo([CLOSED, ELSEWHERE])) == Denied(SiteNotPermitted)
  {
    hide Evaluate, LooksUpSites, FirstSiteRefusal;
    var f, g := OrderTo([ELSEWHERE, CLOSED]), OrderTo([CLOSED, ELSEWHERE]);
    Looked(f);
    Looked(g);
    SecondRecord(f);
    SecondRecord(g);
    FirstRefusalDecides(f, ELSEWHERE, [CLOSED]);
    FirstRefusalDecides(g, CLOSED, [ELSEWHERE]);
    assert f.sites == [ELSEWHERE] + [CLOSED] && g.sites == [CLOSED] + [ELSEWHERE];
    LookupAnswers(f);
    LookupAnswers(g);
  }

  lemma Looked(f: Facts)
    requires f == OrderTo(f.sites) && ELSEWHERE in f.sites
    ensures LooksUpSites(f)
  {
    assert ELSEWHERE.use == Shipping;
    var role := RoleAssignment("r1", "BUYER", [], []);
    assert f.roles.value == [role];
    assert Permitted(f, RuleOf(f.operation).value) == [role];
  }

  lemma SecondRecord(f: Facts)
    requires f == OrderTo(f.sites)
    ensures Foreign(f, ELSEWHERE) && Unserved(f, CLOSED)
  {
    var rest := [SiteRecord("s2", "o1", "ZA", ClosedSite, true, true)];
    assert f.siteRecords.value[1..] == rest;
    assert SiteOf(rest, CLOSED) == Some(rest[0]);
  }
}
