/** A buyer context assembled from several reads of a store that others write to in between. */
module BuyerSnapshot {
  import opened Wrappers

  type Id = string
  type Instant = int // milliseconds

  // ----- The store and its revision triggers -----

  datatype Organisation = Organisation(canonical: Id, tenant: Id, engine: Id, active: bool, linked: bool, deleted: bool, revision: nat)

  datatype Membership = Membership(
    organisation: Id, principal: Id, customer: Id, active: bool, from: Option<Instant>, until: Option<Instant>, deleted: bool, revision: nat)

  datatype Role = Role(membership: Id, role: Id, deleted: bool)

  datatype Store = Store(organisations: map<Id, Organisation>, memberships: map<Id, Membership>, roles: map<Id, Role>)

  /** What writers do, each in one transaction with the triggers it fires. */
  datatype Write =
    | AddOrganisation(id: Id, organisation: Organisation)
    | EditOrganisation(id: Id, organisation: Organisation)
    | AddMembership(id: Id, membership: Membership)
    | EditMembership(id: Id, membership: Membership)
    | AddRole(id: Id, role: Role)
    | EditRole(id: Id, role: Role)
    | DropRole(id: Id)

  /** A relationship edit advances the revision; nothing else moves it. */
  function RevisedOrganisation(before: Organisation, after: Organisation): Organisation {
    after.(revision := if after.(revision := before.revision) != before then before.revision + 1 else before.revision)
  }

  /** An authority edit advances the revision; an explicit step by one is kept; nothing else moves it. */
  function RevisedMembership(before: Membership, after: Membership): Membership {
    after.(revision :=
      if after.(revision := before.revision) != before then before.revision + 1
      else if after.revision == before.revision + 1 then after.revision
      else before.revision)
  }

  function Bump(memberships: map<Id, Membership>, id: Id): map<Id, Membership> {
    if id in memberships then
      memberships[id := RevisedMembership(memberships[id], memberships[id].(revision := memberships[id].revision + 1))]
    else
      memberships
  }

  function Next(s: Store, w: Write): Store {
    match w
    case AddOrganisation(id, o) => if id in s.organisations then s else s.(organisations := s.organisations[id := o])
    case EditOrganisation(id, o) =>
      if id in s.organisations then s.(organisations := s.organisations[id := RevisedOrganisation(s.organisations[id], o)]) else s
    case AddMembership(id, m) => if id in s.memberships then s else s.(memberships := s.memberships[id := m])
    case EditMembership(id, m) =>
      if id in s.memberships then s.(memberships := s.memberships[id := RevisedMembership(s.memberships[id], m)]) else s
    case AddRole(id, r) => if id in s.roles then s else s.(roles := s.roles[id := r], memberships := Bump(s.memberships, r.membership))
    case EditRole(id, r) =>
      if id !in s.roles then s
      else
        var before := s.roles[id];
        var bumped := Bump(s.memberships, before.membership);
        s.(roles := s.roles[id := r], memberships := if r.membership != before.membership then Bump(bumped, r.membership) else bumped)
    case DropRole(id) =>
      if id !in s.roles then s else s.(roles := s.roles - {id}, memberships := Bump(s.memberships, s.roles[id].membership))
  }

  ghost predicate Trace(states: seq<Store>, writes: seq<Write>) {
    |states| == |writes| + 1 && forall k :: 0 <= k < |writes| ==> states[k + 1] == Next(states[k], writes[k])
  }

  /** The roles of a membership. */
  function RolesOf(s: Store, membership: Id): map<Id, Role> {
    map id | id in s.roles && s.roles[id].membership == membership :: s.roles[id]
  }

  // ----- Revisions -----

  lemma OrganisationStep(s: Store, w: Write, id: Id)
    requires id in s.organisations
    ensures id in Next(s, w).organisations
    ensures s.organisations[id].revision <= Next(s, w).organisations[id].revision
    ensures s.organisations[id].revision == Next(s, w).organisations[id].revision ==> Next(s, w).organisations[id] == s.organisations[id]
  {
  }

  lemma Bumped(memberships: map<Id, Membership>, at: Id, id: Id)
    requires id in memberships
    ensures id in Bump(memberships, at)
    ensures Bump(memberships, at)[id] == memberships[id].(revision := memberships[id].revision + if id == at then 1 else 0)
  {
  }

  lemma RolesStay(s: Store, t: Store, id: Id)
    requires forall r :: r in s.roles && s.roles[r].membership == id ==> r in t.roles && t.roles[r] == s.roles[r]
    requires forall r :: r in t.roles && t.roles[r].membership == id ==> r in s.roles && t.roles[r] == s.roles[r]
    ensures RolesOf(t, id) == RolesOf(s, id)
  {
  }

  /** A role write moves on every membership it concerns. */
  lemma RoleStep(s: Store, w: Write, id: Id)
    requires id in s.memberships && (w.AddRole? || w.EditRole? || w.DropRole?)
    ensures id in Next(s, w).memberships && s.memberships[id].revision <= Next(s, w).memberships[id].revision
    ensures s.memberships[id].revision == Next(s, w).memberships[id].revision ==>
      Next(s, w).memberships[id] == s.memberships[id] && RolesOf(Next(s, w), id) == RolesOf(s, id)
  {
    hide Bump, RolesOf;
    var t := Next(s, w);
    forall at ensures id in Bump(s.memberships, at) {
      Bumped(s.memberships, at, id);
    }
    match w {
      case AddRole(_, r) => Bumped(s.memberships, r.membership, id);
      case EditRole(role, r) =>
        if role in s.roles {
          Bumped(s.memberships, s.roles[role].membership, id);
          Bumped(Bump(s.memberships, s.roles[role].membership), r.membership, id);
        }
      case DropRole(role) => if role in s.roles { Bumped(s.memberships, s.roles[role].membership, id); }
      case _ =>
    }
    if s.memberships[id].revision == t.memberships[id].revision {
      RolesStay(s, t, id);
    }
  }

  lemma MembershipStep(s: Store, w: Write, id: Id)
    requires id in s.memberships
    ensures id in Next(s, w).memberships
    ensures s.memberships[id].revision <= Next(s, w).memberships[id].revision
    ensures s.memberships[id].revision == Next(s, w).memberships[id].revision ==>
      Next(s, w).memberships[id] == s.memberships[id] && RolesOf(Next(s, w), id) == RolesOf(s, id)
  {
    hide RolesOf, Bump;
    if w.AddRole? || w.EditRole? || w.DropRole? {
      hide Next;
      RoleStep(s, w, id);
    } else {
      RolesStay(s, Next(s, w), id);
    }
  }

  lemma {:induction false} OrganisationStable(states: seq<Store>, writes: seq<Write>, i: nat, j: nat, id: Id)
    requires Trace(states, writes)
    requires i <= j < |states| && id in states[i].organisations
    ensures id in states[j].organisations && states[i].organisations[id].revision <= states[j].organisations[id].revision
    ensures states[i].organisations[id].revision == states[j].organisations[id].revision ==>
      states[j].organisations[id] == states[i].organisations[id]
    decreases j - i
  {
    if i < j {
      OrganisationStable(states, writes, i, j - 1, id);
      OrganisationStep(states[j - 1], writes[j - 1], id);
    }
  }

  lemma {:induction false} MembershipStable(states: seq<Store>, writes: seq<Write>, i: nat, j: nat, id: Id)
    requires Trace(states, writes)
    requires i <= j < |states| && id in states[i].memberships
    ensures id in states[j].memberships && states[i].memberships[id].revision <= states[j].memberships[id].revision
    ensures states[i].memberships[id].revision == states[j].memberships[id].revision ==>
      states[j].memberships[id] == states[i].memberships[id] && RolesOf(states[j], id) == RolesOf(states[i], id)
    decreases j - i
  {
    hide Next, RolesOf;
    if i < j {
      MembershipStable(states, writes, i, j - 1, id);
      MembershipStep(states[j - 1], writes[j - 1], id);
    }
  }

  // ----- Time -----

  /** A non-empty interval that contains the instant. */
  predicate InEffect(from: Option<Instant>, until: Option<Instant>, now: Instant) {
    && (from.Some? && until.Some? ==> from.value < until.value)
    && (from.Some? ==> from.value <= now) && (until.Some? ==> now < until.value)
  }

  datatype Profile = Profile(acr: set<Id>, methods: set<Id>, maxAgeSeconds: Option<int>)

  datatype AssurancePolicy =
    | NoAssurance
    | Interim(issuer: Id, acr: set<Id>)
    | ApprovedPolicy(issuer: Id, from: Instant, until: Instant, profile: Option<Profile>)

  datatype Token = Token(issuer: Id, acr: Option<Id>, methods: set<Id>, authenticatedAt: Option<Instant>, expiresAt: Instant)

  const MAX_SAFE: int := 0x1F_FFFF_FFFF_FFFF

  predicate AcrAccepted(acr: Option<Id>, accepted: set<Id>) {
    acr.Some? && acr.value != "" && acr.value in accepted
  }

  /** The authentication is recent enough for the profile. */
  predicate Recent(p: Profile, token: Token, now: Instant) {
    p.maxAgeSeconds.Some? ==>
      && token.authenticatedAt.Some? && -MAX_SAFE <= p.maxAgeSeconds.value * 1000 <= MAX_SAFE
      && token.authenticatedAt.value <= now && now - token.authenticatedAt.value <= p.maxAgeSeconds.value * 1000
  }

  /** A policy is in force for this issuer and has a profile for the operation. */
  predicate Activated(policy: AssurancePolicy, token: Token, now: Instant) {
    match policy
    case NoAssurance => false
    case Interim(_, _) => true
    case ApprovedPolicy(issuer, from, until, profile) => from <= now && now < until && token.issuer == issuer && profile.Some?
  }

  /** Refused, or passed with an expiry if the policy has one. */
  function Assurance(policy: AssurancePolicy, token: Token, now: Instant): Option<Option<Instant>> {
    match policy
    case NoAssurance => None
    case Interim(issuer, acr) => if token.issuer == issuer && AcrAccepted(token.acr, acr) then Some(None) else None
    case ApprovedPolicy(issuer, from, until, profile) =>
      if !Activated(policy, token, now) then None
      else if !AcrAccepted(token.acr, profile.value.acr) || !(profile.value.methods <= token.methods) || !Recent(profile.value, token, now) then None
      else if profile.value.maxAgeSeconds.Some? then
        Some(Some(Least([until, token.authenticatedAt.value + profile.value.maxAgeSeconds.value * 1000])))
      else
        Some(Some(until))
  }

  function Least(s: seq<Instant>): (m: Instant)
    requires s != []
    ensures m in s && forall x :: x in s ==> m <= x
    decreases |s|
  {
    if |s| == 1 then s[0] else
      var rest := Least(s[1..]);
      assert forall x :: x in s <==> x == s[0] || x in s[1..];
      if s[0] <= rest then s[0] else rest
  }

  /** Assurance passed at one instant lasts until its own expiry. */
  lemma AssuranceLasts(policy: AssurancePolicy, token: Token, start: Instant, t: Instant)
    requires Assurance(policy, token, start).Some? && start <= t
    requires Assurance(policy, token, start).value.Some? ==> t < Assurance(policy, token, start).value.value
    ensures Assurance(policy, token, t).Some?
  {
  }

  // ----- The evaluation -----

  const CONTEXT_LIFETIME_MS: int := 60_000

  /** What other systems attested, with the instants their answers expire. */
  datatype Attested = Attested(
    token: Token, assurance: AssurancePolicy, principal: Id, tenant: Id, engine: Id, organisation: Id,
    callerExpires: Instant, principalExpires: Instant, estateExpires: Instant, contextExpires: Option<Instant>)

  /** Which state each read saw, and what the clock said at the start, at the membership read and at the end. */
  datatype Schedule = Schedule(
    organisationAt: nat, membershipAt: nat, rolesAt: nat, organisationAgainAt: nat, membershipAgainAt: nat,
    startedAt: Instant, membershipReadAt: Instant, now: Instant)

  function OrganisationsFound(s: Store, a: Attested): set<Id> {
    set id | id in s.organisations && !s.organisations[id].deleted && s.organisations[id].canonical == a.organisation
             && s.organisations[id].tenant == a.tenant
  }

  function MembershipsFound(s: Store, organisation: Id, principal: Id): set<Id> {
    set id | id in s.memberships && !s.memberships[id].deleted && s.memberships[id].organisation == organisation
             && s.memberships[id].principal == principal
  }

  const ROLES: set<Id> := {"BUYER", "SENIOR_BUYER", "APPROVER", "PROCUREMENT_MANAGER", "ACCOUNT_ADMIN", "VIEWER"}

  function KnownRoles(s: Store, membership: Id): set<Id> {
    set id | id in s.roles && s.roles[id].membership == membership && !s.roles[id].deleted && s.roles[id].role in ROLES :: s.roles[id].role
  }

  predicate OrganisationUsable(o: Organisation, a: Attested) {
    o.active && o.engine == a.engine && o.revision >= 1 && o.linked
  }

  predicate MembershipUsable(m: Membership, at: Instant) {
    m.active && m.revision >= 1 && InEffect(m.from, m.until, at)
  }

  function Expiries(a: Attested, m: Membership, startedAt: Instant): seq<Instant>
    requires a.contextExpires.Some? && Assurance(a.assurance, a.token, startedAt).Some?
  {
    var assured := Assurance(a.assurance, a.token, startedAt).value;
    [startedAt + CONTEXT_LIFETIME_MS] + (if assured.Some? then [assured.value] else [])
    + [a.token.expiresAt, a.callerExpires, a.principalExpires, a.estateExpires, a.contextExpires.value]
    + (if m.until.Some? then [m.until.value] else [])
  }

  datatype Refusal = NotAuthorised | NoRole | Unavailable | NotUsable | NotActivated | NotAssured

  datatype Context = Context(organisation: Id, membership: Id, membershipRevision: nat, relationshipRevision: nat, roles: set<Id>, expiresAt: Instant)

  predicate Follows(states: seq<Store>, at: Schedule) {
    && at.organisationAt <= at.membershipAt <= at.rolesAt
    && at.rolesAt <= at.organisationAgainAt < |states| && at.rolesAt <= at.membershipAgainAt < |states|
  }

  /** The one id a lookup found, if it found exactly one. */
  function Only(ids: set<Id>): (r: Option<Id>)
    ensures r.Some? ==> ids == {r.value}
  {
    if |ids| == 1 then
      var id :| id in ids;
      assert |ids - {id}| == 0;
      Some(id)
    else
      None
  }

  /** The reads of one evaluation, in order; the first failing check refuses. */
  function Evaluate(states: seq<Store>, at: Schedule, a: Attested): Result<Context, Refusal>
    requires Follows(states, at)
  {
    if Assurance(a.assurance, a.token, at.startedAt).None? then
      Failure(if Activated(a.assurance, a.token, at.startedAt) then NotAssured else NotActivated)
    else
      var org := Only(OrganisationsFound(states[at.organisationAt], a));
      if org.None? || !OrganisationUsable(states[at.organisationAt].organisations[org.value], a) then
        Failure(NotAuthorised)
      else
        var member := Only(MembershipsFound(states[at.membershipAt], org.value, a.principal));
        if member.None? || !MembershipUsable(states[at.membershipAt].memberships[member.value], at.membershipReadAt) then
          Failure(NotAuthorised)
        else if KnownRoles(states[at.rolesAt], member.value) == {} then
          Failure(NoRole)
        else
          Finish(states, at, a, org.value, member.value)
  }

  /** Both rows are read again; any advance of either revision refuses, and so does any expiry that has passed. */
  function Finish(states: seq<Store>, at: Schedule, a: Attested, org: Id, member: Id): Result<Context, Refusal>
    requires Follows(states, at) && Assurance(a.assurance, a.token, at.startedAt).Some?
    requires org in states[at.organisationAt].organisations && member in states[at.membershipAt].memberships
  {
    var o, m := states[at.organisationAt].organisations[org], states[at.membershipAt].memberships[member];
    var orgAgain := Only(OrganisationsFound(states[at.organisationAgainAt], a));
    var memberAgain := Only(MembershipsFound(states[at.membershipAgainAt], org, a.principal));
    if orgAgain != Some(org) || memberAgain != Some(member)
       || states[at.organisationAgainAt].organisations[org].revision != o.revision || !states[at.organisationAgainAt].organisations[org].active
       || states[at.membershipAgainAt].memberships[member].revision != m.revision || !states[at.membershipAgainAt].memberships[member].active then
      Failure(NotAuthorised)
    else if at.now < at.startedAt then
      Failure(Unavailable)
    else if !InEffect(m.from, m.until, at.now) then
      Failure(NotAuthorised)
    else if a.contextExpires.None? then
      Failure(Unavailable)
    else
      var expiresAt := Least(Expiries(a, m, at.startedAt));
      if expiresAt <= at.now then
        Failure(NotUsable)
      else
        Success(Context(org, member, m.revision, o.revision, KnownRoles(states[at.rolesAt], member), expiresAt))
  }

  // ----- Coherence -----

  /** In one state: the relationship, the membership and the roles are those of the context. */
  ghost predicate TrueIn(s: Store, c: Context, a: Attested) {
    && c.organisation in s.organisations && c.membership in s.memberships
    && var o, m := s.organisations[c.organisation], s.memberships[c.membership];
       && OrganisationUsable(o, a) && !o.deleted && o.canonical == a.organisation && o.tenant == a.tenant && o.revision == c.relationshipRevision
       && m.active && !m.deleted && m.organisation == c.organisation && m.principal == a.principal && m.revision == c.membershipRevision
       && KnownRoles(s, c.membership) == c.roles
  }

  lemma RolesKnown(s: Store, t: Store, membership: Id)
    requires RolesOf(t, membership) == RolesOf(s, membership)
    ensures KnownRoles(t, membership) == KnownRoles(s, membership)
  {
    forall x ensures x in KnownRoles(t, membership) <==> x in KnownRoles(s, membership) {
      if x in KnownRoles(t, membership) {
        var id :| id in t.roles && t.roles[id].membership == membership && !t.roles[id].deleted && t.roles[id].role in ROLES && t.roles[id].role == x;
        assert id in RolesOf(t, membership) && id in RolesOf(s, membership);
        assert RolesOf(s, membership)[id] == RolesOf(t, membership)[id];
      }
      if x in KnownRoles(s, membership) {
        var id :| id in s.roles && s.roles[id].membership == membership && !s.roles[id].deleted && s.roles[id].role in ROLES && s.roles[id].role == x;
        assert id in RolesOf(s, membership) && id in RolesOf(t, membership);
        assert RolesOf(s, membership)[id] == RolesOf(t, membership)[id];
      }
    }
  }

  /** A row read twice at one revision did not change in between, nor did a membership's roles. */
  lemma Unchanged(states: seq<Store>, writes: seq<Write>, i: nat, k: nat, j: nat, org: Id, member: Id)
    requires Trace(states, writes) && i <= k <= j < |states|
    ensures org in states[i].organisations && org in states[j].organisations
            && states[i].organisations[org].revision == states[j].organisations[org].revision ==>
      org in states[k].organisations && states[k].organisations[org] == states[i].organisations[org]
    ensures member in states[i].memberships && member in states[j].memberships
            && states[i].memberships[member].revision == states[j].memberships[member].revision ==>
      && member in states[k].memberships && states[k].memberships[member] == states[i].memberships[member]
      && RolesOf(states[k], member) == RolesOf(states[i], member)
  {
    hide Next, RolesOf;
    if org in states[i].organisations {
      OrganisationStable(states, writes, i, k, org);
      OrganisationStable(states, writes, k, j, org);
    }
    if member in states[i].memberships {
      MembershipStable(states, writes, i, k, member);
      MembershipStable(states, writes, k, j, member);
    }
  }

  /** What an evaluation that allowed had read. */
  lemma Observed(states: seq<Store>, at: Schedule, a: Attested)
    requires Follows(states, at) && Evaluate(states, at, a).Success?
    ensures var c := Evaluate(states, at, a).value;
            && c.organisation in OrganisationsFound(states[at.organisationAt], a)
            && c.organisation in OrganisationsFound(states[at.organisationAgainAt], a)
            && c.membership in MembershipsFound(states[at.membershipAt], c.organisation, a.principal)
            && c.membership in MembershipsFound(states[at.membershipAgainAt], c.organisation, a.principal)
            && OrganisationUsable(states[at.organisationAt].organisations[c.organisation], a)
            && states[at.organisationAt].organisations[c.organisation].revision == c.relationshipRevision
            && states[at.organisationAgainAt].organisations[c.organisation].revision == c.relationshipRevision
            && states[at.membershipAt].memberships[c.membership].active
            && states[at.membershipAt].memberships[c.membership].revision == c.membershipRevision
            && states[at.membershipAgainAt].memberships[c.membership].revision == c.membershipRevision
            && c.roles == KnownRoles(states[at.rolesAt], c.membership) && c.roles != {}
  {
    hide Assurance, Expiries, InEffect, KnownRoles, OrganisationUsable;
  }

  /**
   For any interleaving with writers: the relationship, the membership and the roles of
   an allowed context were all true at once, in every state from the membership read to
   the earlier of the two second reads.
   */
  lemma SnapshotCoherent(states: seq<Store>, writes: seq<Write>, at: Schedule, a: Attested, k: nat)
    requires Trace(states, writes) && Follows(states, at) && Evaluate(states, at, a).Success?
    requires at.membershipAt <= k <= at.organisationAgainAt && k <= at.membershipAgainAt
    ensures TrueIn(states[k], Evaluate(states, at, a).value, a)
  {
    hide Evaluate, KnownRoles, RolesOf, OrganisationUsable, Next;
    var c := Evaluate(states, at, a).value;
    Observed(states, at, a);
    Unchanged(states, writes, at.organisationAt, k, at.organisationAgainAt, c.organisation, c.membership);
    Unchanged(states, writes, at.membershipAt, k, at.membershipAgainAt, c.organisation, c.membership);
    Unchanged(states, writes, at.membershipAt, at.rolesAt, at.membershipAgainAt, c.organisation, c.membership);
    RolesKnown(states[at.membershipAt], states[k], c.membership);
    RolesKnown(states[at.membershipAt], states[at.rolesAt], c.membership);
  }

  /** Every check that time can fail still passes. */
  ghost predicate TimelyAt(a: Attested, m: Membership, t: Instant) {
    && InEffect(m.from, m.until, t) && Assurance(a.assurance, a.token, t).Some? && t < a.token.expiresAt
    && t < a.callerExpires && t < a.principalExpires && t < a.estateExpires
    && a.contextExpires.Some? && t < a.contextExpires.value
  }

  /** From the final reading of the clock until the context expires, within a minute of its start, every check still passes. */
  lemma TimeChecksLast(states: seq<Store>, at: Schedule, a: Attested, t: Instant)
    requires Follows(states, at) && Evaluate(states, at, a).Success?
    requires at.now <= t < Evaluate(states, at, a).value.expiresAt
    ensures Evaluate(states, at, a).value.membership in states[at.membershipAt].memberships
    ensures TimelyAt(a, states[at.membershipAt].memberships[Evaluate(states, at, a).value.membership], t)
    ensures t < at.startedAt + CONTEXT_LIFETIME_MS
  {
    hide Assurance, KnownRoles, OrganisationUsable, OrganisationsFound;
    var c := Evaluate(states, at, a).value;
    Observed(states, at, a);
    var m := states[at.membershipAt].memberships[c.membership];
    var all := Expiries(a, m, at.startedAt);
    ExpiryOf(a, m, at.startedAt);
    AssuranceLasts(a.assurance, a.token, at.startedAt, t);
  }

  /** Every expiry is among those the least is taken of. */
  lemma ExpiryOf(a: Attested, m: Membership, startedAt: Instant)
    requires a.contextExpires.Some? && Assurance(a.assurance, a.token, startedAt).Some?
    ensures var all, assured := Expiries(a, m, startedAt), Assurance(a.assurance, a.token, startedAt).value;
            && startedAt + CONTEXT_LIFETIME_MS in all && a.token.expiresAt in all && a.callerExpires in all && a.principalExpires in all
            && a.estateExpires in all && a.contextExpires.value in all
            && (assured.Some? ==> assured.value in all) && (m.until.Some? ==> m.until.value in all)
  {
    hide Assurance;
  }
}
