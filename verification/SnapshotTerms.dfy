/** When a buyer context is given, what it says, and what its revisions count, column by column. */
module SnapshotTerms {
  import opened Wrappers
  import opened BuyerSnapshot

  // ----- Assurance -----

  /** Under the interim policy a session is refused exactly for its issuer or for the class of its authentication. */
  lemma InterimSessions(states: seq<Store>, at: Schedule, a: Attested, issuer: Id, acr: set<Id>)
    requires Follows(states, at) && a.assurance == Interim(issuer, acr)
    ensures Evaluate(states, at, a) == Failure(NotAssured) <==>
            !(a.token.issuer == issuer && a.token.acr.Some? && a.token.acr.value != "" && a.token.acr.value in acr)
    ensures Evaluate(states, at, a) != Failure(NotActivated)
  {
    hide Finish, OrganisationUsable, MembershipUsable, KnownRoles, OrganisationsFound, MembershipsFound;
    AfterAssurance(states, at, a);
  }

  /** Under an approved policy it is refused exactly outside its term, issuer or profiles, or for class, methods or age. */
  lemma ApprovedSessions(states: seq<Store>, at: Schedule, a: Attested, issuer: Id, from: Instant, until: Instant, profile: Option<Profile>)
    requires Follows(states, at) && a.assurance == ApprovedPolicy(issuer, from, until, profile)
    ensures Evaluate(states, at, a) == Failure(NotActivated) <==>
            !(from <= at.startedAt && at.startedAt < until && a.token.issuer == issuer && profile.Some?)
    ensures from <= at.startedAt && at.startedAt < until && a.token.issuer == issuer && profile.Some? ==>
      (Evaluate(states, at, a) == Failure(NotAssured) <==>
       !(&& a.token.acr.Some? && a.token.acr.value != "" && a.token.acr.value in profile.value.acr
         && (forall amr :: amr in profile.value.methods ==> amr in a.token.methods)
         && (profile.value.maxAgeSeconds.Some? ==>
               && a.token.authenticatedAt.Some?
               && 0 <= at.startedAt - a.token.authenticatedAt.value <= 1000 * profile.value.maxAgeSeconds.value <= 9_007_199_254_740_991)))
  {
    hide Finish, OrganisationUsable, MembershipUsable, KnownRoles, OrganisationsFound, MembershipsFound;
    AfterAssurance(states, at, a);
  }

  lemma AfterAssurance(states: seq<Store>, at: Schedule, a: Attested)
    requires Follows(states, at)
    ensures Assurance(a.assurance, a.token, at.startedAt).Some? ==>
      Evaluate(states, at, a) != Failure(NotAssured) && Evaluate(states, at, a) != Failure(NotActivated)
  {
    hide Assurance, OrganisationUsable, MembershipUsable, KnownRoles, OrganisationsFound, MembershipsFound, Expiries, InEffect;
  }

  /** Assurance as the two policies ask for it, and when it ends. */
  predicate Assured(policy: AssurancePolicy, token: Token, now: Instant) {
    match policy
    case NoAssurance => false
    case Interim(issuer, acr) => token.issuer == issuer && HasClass(token, acr)
    case ApprovedPolicy(issuer, from, until, profile) =>
      && from <= now < until && token.issuer == issuer && profile.Some? && HasClass(token, profile.value.acr)
      && profile.value.methods <= token.methods
      && (profile.value.maxAgeSeconds.Some? ==>
            token.authenticatedAt.Some?
            && 0 <= now - token.authenticatedAt.value <= 1000 * profile.value.maxAgeSeconds.value <= 9_007_199_254_740_991)
  }

  /** Without a policy in force for the token's issuer the operation is not activated at all. */
  predicate InForce(policy: AssurancePolicy, token: Token, now: Instant) {
    || policy.Interim?
    || (policy.ApprovedPolicy? && policy.from <= now < policy.until && policy.issuer == token.issuer && policy.profile.Some?)
  }

  predicate HasClass(token: Token, acr: set<Id>) {
    exists c :: token.acr == Some(c) && c in acr - {""}
  }

  /** The instants at which assurance ends. */
  function AssuranceEnds(policy: AssurancePolicy, token: Token): set<Instant> {
    match policy
    case ApprovedPolicy(_, _, until, Some(profile)) =>
      {until} + if profile.maxAgeSeconds.Some? && token.authenticatedAt.Some?
                then {token.authenticatedAt.value + 1000 * profile.maxAgeSeconds.value} else {}
    case _ => {}
  }

  lemma AssuranceIs(policy: AssurancePolicy, token: Token, now: Instant)
    ensures Assurance(policy, token, now).Some? <==> Assured(policy, token, now)
    ensures Assured(policy, token, now) ==>
      match Assurance(policy, token, now).value
      case None => AssuranceEnds(policy, token) == {}
      case Some(end) => end in AssuranceEnds(policy, token) && forall e :: e in AssuranceEnds(policy, token) ==> end <= e
  {
  }

  // ----- The reads -----

  predicate InTerm(from: Option<Instant>, until: Option<Instant>, now: Instant) {
    match (from, until)
    case (None, None) => true
    case (Some(f), None) => f <= now
    case (None, Some(u)) => now < u
    case (Some(f), Some(u)) => f <= now < u
  }

  /** The row of the selected Organisation for the seller's tenant. */
  predicate Selected(s: Store, a: Attested, id: Id) {
    && id in s.organisations && !s.organisations[id].deleted
    && (s.organisations[id].canonical, s.organisations[id].tenant) == (a.organisation, a.tenant)
  }

  ghost predicate OnlySelected(s: Store, a: Attested, id: Id) {
    Selected(s, a, id) && forall other :: Selected(s, a, other) ==> other == id
  }

  predicate Belongs(s: Store, a: Attested, organisation: Id, id: Id) {
    && id in s.memberships && !s.memberships[id].deleted
    && (s.memberships[id].organisation, s.memberships[id].principal) == (organisation, a.principal)
  }

  ghost predicate OnlyMembership(s: Store, a: Attested, organisation: Id, id: Id) {
    Belongs(s, a, organisation, id) && forall other :: Belongs(s, a, organisation, other) ==> other == id
  }

  /** The relationship is ACTIVE, on this engine, linked and revised at least once. */
  ghost predicate Related(states: seq<Store>, at: Schedule, a: Attested, id: Id)
    requires Follows(states, at)
  {
    var s := states[at.organisationAt];
    OnlySelected(s, a, id) && s.organisations[id].active && s.organisations[id].linked && s.organisations[id].engine == a.engine && s.organisations[id].revision > 0
  }

  ghost predicate Enrolled(states: seq<Store>, at: Schedule, a: Attested, organisation: Id, id: Id)
    requires Follows(states, at)
  {
    var s := states[at.membershipAt];
    && OnlyMembership(s, a, organisation, id) && s.memberships[id].active && s.memberships[id].revision > 0
    && InTerm(s.memberships[id].from, s.memberships[id].until, at.membershipReadAt)
  }

  /** The known roles of a membership, from rows that are not deleted. */
  ghost predicate HasRole(s: Store, membership: Id, role: Id) {
    && role in {"BUYER", "SENIOR_BUYER", "APPROVER", "PROCUREMENT_MANAGER", "ACCOUNT_ADMIN", "VIEWER"}
    && exists id :: id in s.roles && s.roles[id].membership == membership && s.roles[id].role == role && !s.roles[id].deleted
  }

  /** Read again, both rows are the only ones, ACTIVE and at the revisions first read. */
  ghost predicate Reread(states: seq<Store>, at: Schedule, a: Attested, organisation: Id, membership: Id)
    requires Follows(states, at)
    requires organisation in states[at.organisationAt].organisations && membership in states[at.membershipAt].memberships
  {
    var s, t := states[at.organisationAgainAt], states[at.membershipAgainAt];
    && OnlySelected(s, a, organisation) && s.organisations[organisation].active
    && s.organisations[organisation].revision == states[at.organisationAt].organisations[organisation].revision
    && OnlyMembership(t, a, organisation, membership) && t.memberships[membership].active
    && t.memberships[membership].revision == states[at.membershipAt].memberships[membership].revision
  }

  /** The instants at which something a context rests on ends; a context lives for a minute at most. */
  function Ends(a: Attested, m: Membership, startedAt: Instant): set<Instant> {
    {startedAt + 60 * 1000, a.token.expiresAt, a.callerExpires, a.principalExpires, a.estateExpires}
    + (if a.contextExpires.Some? then {a.contextExpires.value} else {})
    + (if m.until.Some? then {m.until.value} else {})
    + AssuranceEnds(a.assurance, a.token)
  }

  // ----- The answer -----

  /** Whom the reads find: the one usable relationship and its one usable membership. */
  ghost predicate Finds(states: seq<Store>, at: Schedule, a: Attested, organisation: Id, membership: Id)
    requires Follows(states, at)
  {
    Related(states, at, a, organisation) && Enrolled(states, at, a, organisation, membership)
  }

  /** Why a found membership gets no context. */
  ghost function Obstacle(states: seq<Store>, at: Schedule, a: Attested, organisation: Id, membership: Id): Option<Refusal>
    requires Follows(states, at) && Finds(states, at, a, organisation, membership)
  {
    var m := states[at.membershipAt].memberships[membership];
    if forall role :: !HasRole(states[at.rolesAt], membership, role) then Some(NoRole)
    else if !Reread(states, at, a, organisation, membership) then Some(NotAuthorised)
    else if at.startedAt > at.now then Some(Unavailable)
    else if !InTerm(m.from, m.until, at.now) then Some(NotAuthorised)
    else if a.contextExpires == None then Some(Unavailable)
    else if exists end :: end in Ends(a, m, at.startedAt) && end <= at.now then Some(NotUsable)
    else None
  }

  /** The context of a found membership, expiring with the first thing it rests on. */
  ghost predicate IsContext(states: seq<Store>, at: Schedule, a: Attested, c: Context)
    requires Follows(states, at) && Finds(states, at, a, c.organisation, c.membership)
  {
    var o, m := states[at.organisationAt].organisations[c.organisation], states[at.membershipAt].memberships[c.membership];
    && c.relationshipRevision == o.revision && c.membershipRevision == m.revision
    && (forall role :: role in c.roles <==> HasRole(states[at.rolesAt], c.membership, role))
    && c.expiresAt in Ends(a, m, at.startedAt) && forall end :: end in Ends(a, m, at.startedAt) ==> c.expiresAt <= end
  }

  ghost predicate Answers(states: seq<Store>, at: Schedule, a: Attested, r: Result<Context, Refusal>)
    requires Follows(states, at)
  {
    if !Assured(a.assurance, a.token, at.startedAt) then
      r == Failure(if InForce(a.assurance, a.token, at.startedAt) then NotAssured else NotActivated)
    else if forall o, m :: !Finds(states, at, a, o, m) then
      r == Failure(NotAuthorised)
    else
      exists o, m :: Finds(states, at, a, o, m) &&
        match Obstacle(states, at, a, o, m)
        case Some(refusal) => r == Failure(refusal)
        case None => r.Success? && (r.value.organisation, r.value.membership) == (o, m) && IsContext(states, at, a, r.value)
  }

  lemma OnlyIs(ids: set<Id>)
    ensures match Only(ids)
            case Some(id) => ids == {id}
            case None => forall id :: ids != {id}
  {
    if |ids| != 1 {
      forall id ensures ids != {id} {
        assert |{id}| == 1;
      }
    }
  }

  lemma OrganisationIs(states: seq<Store>, at: Schedule, a: Attested, k: nat)
    requires Follows(states, at) && k < |states|
    ensures forall id :: OnlySelected(states[k], a, id) <==> Only(OrganisationsFound(states[k], a)) == Some(id)
  {
    var found := OrganisationsFound(states[k], a);
    OnlyIs(found);
    forall id ensures id in found <==> Selected(states[k], a, id) {}
    forall id ensures OnlySelected(states[k], a, id) <==> found == {id} {
      if found == {id} {
        assert id in found;
      }
      if OnlySelected(states[k], a, id) {
        forall other ensures other in found <==> other in {id} {}
      }
    }
  }

  lemma MembershipIs(states: seq<Store>, at: Schedule, a: Attested, organisation: Id, k: nat)
    requires Follows(states, at) && k < |states|
    ensures forall id :: OnlyMembership(states[k], a, organisation, id)
                         <==> Only(MembershipsFound(states[k], organisation, a.principal)) == Some(id)
  {
    var found := MembershipsFound(states[k], organisation, a.principal);
    OnlyIs(found);
    forall id ensures id in found <==> Belongs(states[k], a, organisation, id) {}
    forall id ensures OnlyMembership(states[k], a, organisation, id) <==> found == {id} {
      if found == {id} {
        assert id in found;
      }
      if OnlyMembership(states[k], a, organisation, id) {
        forall other ensures other in found <==> other in {id} {}
      }
    }
  }

  lemma RolesAre(s: Store, membership: Id)
    ensures forall role :: role in KnownRoles(s, membership) <==> HasRole(s, membership, role)
  {
  }

  lemma TermsAlike(from: Option<Instant>, until: Option<Instant>, now: Instant)
    ensures InEffect(from, until, now) <==> InTerm(from, until, now)
  {
  }

  lemma EndsAre(a: Attested, m: Membership, startedAt: Instant)
    requires a.contextExpires.Some? && Assurance(a.assurance, a.token, startedAt).Some?
    ensures var least := Least(Expiries(a, m, startedAt));
            least in Ends(a, m, startedAt) && forall end :: end in Ends(a, m, startedAt) ==> least <= end
  {
    hide Assurance, Assured, AssuranceEnds;
    AssuranceIs(a.assurance, a.token, startedAt);
    ExpiryOf(a, m, startedAt);
  }

  lemma FinishIs(states: seq<Store>, at: Schedule, a: Attested, organisation: Id, membership: Id)
    requires Follows(states, at) && Assurance(a.assurance, a.token, at.startedAt).Some? && Finds(states, at, a, organisation, membership)
    requires KnownRoles(states[at.rolesAt], membership) != {}
    ensures var r := Finish(states, at, a, organisation, membership);
            match Obstacle(states, at, a, organisation, membership)
            case Some(refusal) => r == Failure(refusal)
            case None => r.Success? && (r.value.organisation, r.value.membership) == (organisation, membership) && IsContext(states, at, a, r.value)
  {
    hide Assurance, KnownRoles, InEffect, InTerm, Expiries, Ends, OnlySelected, HasRole, OrganisationsFound, MembershipsFound;
    var m := states[at.membershipAt].memberships[membership];
    OrganisationIs(states, at, a, at.organisationAgainAt);
    MembershipIs(states, at, a, organisation, at.membershipAgainAt);
    RolesAre(states[at.rolesAt], membership);
    SomeRole(states[at.rolesAt], membership);
    TermsAlike(m.from, m.until, at.now);
    if a.contextExpires.Some? {
      EndsAre(a, m, at.startedAt);
    }
  }

  lemma SomeRole(s: Store, membership: Id)
    ensures KnownRoles(s, membership) == {} <==> forall role :: !HasRole(s, membership, role)
  {
    hide KnownRoles, HasRole;
    RolesAre(s, membership);
    if KnownRoles(s, membership) != {} {
      var role :| role in KnownRoles(s, membership);
      assert HasRole(s, membership, role);
    }
  }

  /** For any interleaving with writers, the evaluation answers just so. */
  lemma EvaluateIs(states: seq<Store>, at: Schedule, a: Attested)
    requires Follows(states, at)
    ensures Answers(states, at, a, Evaluate(states, at, a))
  {
    hide Assurance, Assured, Finish, KnownRoles, InEffect, InTerm, OnlySelected, OrganisationsFound, MembershipsFound, IsContext, Obstacle;
    AssuranceIs(a.assurance, a.token, at.startedAt);
    OrganisationIs(states, at, a, at.organisationAt);
    var organisation := Only(OrganisationsFound(states[at.organisationAt], a));
    if Assured(a.assurance, a.token, at.startedAt) && organisation.Some? && Related(states, at, a, organisation.value) {
      MembershipIs(states, at, a, organisation.value, at.membershipAt);
      var membership := Only(MembershipsFound(states[at.membershipAt], organisation.value, a.principal));
      if membership.Some? {
        var m := states[at.membershipAt].memberships[membership.value];
        TermsAlike(m.from, m.until, at.membershipReadAt);
        if Finds(states, at, a, organisation.value, membership.value) {
          FoundAnswers(states, at, a, organisation.value, membership.value);
        }
      }
    }
  }

  lemma FoundAnswers(states: seq<Store>, at: Schedule, a: Attested, organisation: Id, membership: Id)
    requires Follows(states, at) && Finds(states, at, a, organisation, membership) && Assured(a.assurance, a.token, at.startedAt)
    ensures Answers(states, at, a, Evaluate(states, at, a))
  {
    hide Assurance, Assured, Finish, KnownRoles, InEffect, InTerm, OnlySelected, OrganisationsFound, MembershipsFound, IsContext;
    AssuranceIs(a.assurance, a.token, at.startedAt);
    OrganisationIs(states, at, a, at.organisationAt);
    MembershipIs(states, at, a, organisation, at.membershipAt);
    var m := states[at.membershipAt].memberships[membership];
    TermsAlike(m.from, m.until, at.membershipReadAt);
    SomeRole(states[at.rolesAt], membership);
    if KnownRoles(states[at.rolesAt], membership) != {} {
      FinishIs(states, at, a, organisation, membership);
    }
  }

  /** From the final reading of the clock until it expires, everything a context rests on stands. */
  lemma ContextStands(states: seq<Store>, at: Schedule, a: Attested, t: Instant)
    requires Follows(states, at) && Evaluate(states, at, a).Success?
    requires at.now <= t < Evaluate(states, at, a).value.expiresAt
    ensures var c := Evaluate(states, at, a).value;
            && Finds(states, at, a, c.organisation, c.membership)
            && var m := states[at.membershipAt].memberships[c.membership];
               && Assured(a.assurance, a.token, t) && InTerm(m.from, m.until, t)
               && forall end :: end in Ends(a, m, at.startedAt) ==> t < end
  {
    hide Evaluate, Assurance, Assured, Obstacle, Finds, Ends;
    EvaluateIs(states, at, a);
    TimeChecksLast(states, at, a, t);
    AssuranceIs(a.assurance, a.token, t);
    var c := Evaluate(states, at, a).value;
    var m := states[at.membershipAt].memberships[c.membership];
    TermsAlike(m.from, m.until, t);
  }

  // ----- What the revision triggers count -----

  /** An edit of a relationship is one step of its revision, any other edit none; the rest of the row is as edited. */
  lemma RelationshipRevised(s: Store, id: Id, o: Organisation)
    requires id in s.organisations
    ensures var before, t := s.organisations[id], Next(s, EditOrganisation(id, o));
            && t.memberships == s.memberships && t.roles == s.roles
            && t.organisations == s.organisations[id := o.(revision := t.organisations[id].revision)]
            && t.organisations[id].revision
               == (if (o.canonical, o.tenant, o.engine, o.active, o.linked, o.deleted)
                      == (before.canonical, before.tenant, before.engine, before.active, before.linked, before.deleted)
                   then before.revision else before.revision + 1)
  {
  }

  /** An edit of a membership is one step of its revision; without an edit only an explicit single step is kept. */
  lemma MembershipRevised(s: Store, id: Id, m: Membership)
    requires id in s.memberships
    ensures var before, t := s.memberships[id], Next(s, EditMembership(id, m));
            && t.organisations == s.organisations && t.roles == s.roles
            && t.memberships == s.memberships[id := m.(revision := t.memberships[id].revision)]
            && t.memberships[id].revision
               == (if (m.organisation, m.principal, m.customer, m.active, m.from, m.until, m.deleted)
                      == (before.organisation, before.principal, before.customer, before.active, before.from, before.until, before.deleted)
                      && m.revision != before.revision + 1
                   then before.revision else before.revision + 1)
  {
  }

  /** The memberships a role write concerns are those of the role before and after it. */
  function Concerned(s: Store, w: Write): set<Id> {
    match w
    case AddRole(id, r) => if id in s.roles then {} else {r.membership}
    case EditRole(id, r) => if id in s.roles then {s.roles[id].membership, r.membership} else {}
    case DropRole(id) => if id in s.roles then {s.roles[id].membership} else {}
    case _ => {}
  }

  /** Every role write is one step of the revision of just the memberships it concerns. */
  lemma RolesRevised(s: Store, w: Write)
    requires w.AddRole? || w.EditRole? || w.DropRole?
    ensures var t := Next(s, w);
            && t.organisations == s.organisations && t.memberships.Keys == s.memberships.Keys
            && (forall id :: id in s.memberships ==>
                  t.memberships[id] == s.memberships[id].(revision := s.memberships[id].revision + if id in Concerned(s, w) then 1 else 0))
            && t.roles == match w
                          case AddRole(id, r) => if id in s.roles then s.roles else s.roles[id := r]
                          case EditRole(id, r) => if id in s.roles then s.roles[id := r] else s.roles
                          case DropRole(id) => s.roles - {id}
                          case _ => s.roles
  {
    assert w.DropRole? && w.id !in s.roles ==> s.roles - {w.id} == s.roles;
  }
}
