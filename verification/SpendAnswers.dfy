/** What every reservation command answers, in the columns of the tables. */
module SpendAnswers {
  import opened Wrappers
  import opened SpendTypes
  import opened SpendCommands
  import opened SpendBooks
  import opened SpendEffects
  import opened SpendInvariants
  import opened SpendKeeps
  import opened SpendKeepsMore
  import opened SpendDuality
  import opened SpendAdmission
  import opened SpendTrigger

  // ----- Arguments -----

  /** Characters by their codes, as the formats list them. */
  const CAPITALS := set code: int | 0x41 <= code <= 0x5A
  const SMALL := set code: int | 0x61 <= code <= 0x7A
  const DIGITS := set code: int | 0x30 <= code <= 0x39
  const HEXADECIMAL := DIGITS + {0x61, 0x62, 0x63, 0x64, 0x65, 0x66}
  const KEY_CODES := CAPITALS + SMALL + DIGITS + {0x2D, 0x2E, 0x3A, 0x5F}
  const BLANK_CODES := {0x9, 0xA, 0xB, 0xC, 0xD, 0x20, 0xA0, 0x1680, 0x2028, 0x2029, 0x202F, 0x205F, 0x3000, 0xFEFF}
                       + set code: int | 0x2000 <= code <= 0x200A

  predicate Within(s: string, codes: set<int>) {
    forall c :: c in s ==> c as int in codes
  }

  predicate BadKey(k: Id) {
    |k| < 16 || |k| > 128 || !Within(k, KEY_CODES)
  }

  predicate BadDigest(d: Id) {
    |d| != 7 + 64 || d[..7] != "sha256:" || !Within(d[7..], HEXADECIMAL)
  }

  /** A reservation lives for at most 30 days, in milliseconds. */
  predicate BadSubmission(s: Submission, now: Instant) {
    || BadKey(s.key) || Within(s.purchase, BLANK_CODES) || |s.purchase| > 200
    || "" in {s.tenant, s.organisation, s.membership, s.actor, s.market}
    || |s.currency| != 3 || !Within(s.currency, CAPITALS) || BadDigest(s.digest)
    || s.version <= 0 || s.version > 9_007_199_254_740_991
    || s.amount <= 0 || s.expiresAt <= now || s.expiresAt > now + 2_592_000_000
  }

  predicate Malformed(cmd: Command, now: Instant) {
    match cmd
    case Submit(s) => BadSubmission(s, now)
    case Resubmit(s, _) => BadSubmission(s, now)
    case _ =>
      || BadKey(cmd.key) || cmd.organisation == "" || cmd.actor == ""
      || (cmd.Release? && cmd.reason !in {Rejected, Cancelled})
      || (cmd.Commit? && (BadDigest(cmd.digest) || cmd.reference == "" || cmd.holdRevision <= 0 || cmd.holdRevision > 9_007_199_254_740_991))
  }

  lemma FormatsAlike(k: Id)
    ensures KeyOk(k) <==> !BadKey(k)
    ensures DigestOk(k) <==> !BadDigest(k)
    ensures CurrencyOk(k) <==> |k| == 3 && Within(k, CAPITALS)
    ensures (exists c :: c in k && !IsSpace(c)) <==> !Within(k, BLANK_CODES)
  {
  }

  lemma ArgumentsAlike(cmd: Command, now: Instant)
    ensures ArgumentsOk(cmd, now) <==> !Malformed(cmd, now)
  {
    hide KeyOk, DigestOk, CurrencyOk, IsSpace, BadKey, BadDigest, Within;
    match cmd
    case Submit(s) =>
      FormatsAlike(s.key);
      FormatsAlike(s.digest);
      FormatsAlike(s.currency);
      FormatsAlike(s.purchase);
    case Resubmit(s, _) =>
      FormatsAlike(s.key);
      FormatsAlike(s.digest);
      FormatsAlike(s.currency);
      FormatsAlike(s.purchase);
    case Commit(key, _, _, _, _, digest, _, _, _, _) =>
      FormatsAlike(key);
      FormatsAlike(digest);
    case _ =>
      FormatsAlike(cmd.key);
  }

  // ----- Budgets -----

  predicate Binds(p: Policy, r: Reservation, now: Instant) {
    Running(p, now) && Serves(p, r)
  }

  predicate BindsIn(db: Db, policy: PolicyId, r: Reservation, now: Instant) {
    policy in db.policies && Binds(db.policies[policy], r, now)
  }

  predicate OneKind(a: Scope, b: Scope) {
    (a.MembershipScope? <==> b.MembershipScope?) && (a.AgreementScope? <==> b.AgreementScope?)
  }

  /** No budget for the membership, or two budgets of one kind. */
  ghost function BudgetRefusal(db: Db, r: Reservation, now: Instant): Option<Refusal> {
    if forall p :: BindsIn(db, p, r, now) ==> !db.policies[p].scope.MembershipScope? then
      Some(SpendPolicyNotConfigured)
    else if exists p, q :: BindsIn(db, p, r, now) && BindsIn(db, q, r, now) && p != q && OneKind(db.policies[p].scope, db.policies[q].scope) then
      Some(ContextNotUsable)
    else
      None
  }

  lemma Several<T>(s: set<T>)
    ensures |s| > 1 <==> exists x, y :: x in s && y in s && x != y
  {
    if |s| > 1 {
      var x :| x in s;
      assert |s - {x}| >= 1;
      var y :| y in s - {x};
      assert x in s && y in s && x != y;
    }
    if x, y :| x in s && y in s && x != y {
      assert {x, y} <= s;
      assert |s - {x, y}| == |s| - |{x, y}|;
    }
  }

  lemma BindsAlike(p: Policy, r: Reservation, now: Instant)
    ensures Applies(p, r, now) <==> Binds(p, r, now)
  {
  }

  /** Two budgets of one kind, counted and shown. */
  lemma KindsRead(db: Db, ids: set<PolicyId>)
    requires ids <= db.policies.Keys
    ensures var members := set id | id in ids && db.policies[id].scope.MembershipScope?;
            var organisations := set id | id in ids && db.policies[id].scope.OrganisationScope?;
            var agreements := set id | id in ids && db.policies[id].scope.AgreementScope?;
            && (|members| == 0 <==> forall p :: p in ids ==> !db.policies[p].scope.MembershipScope?)
            && (|members| > 1 || |organisations| > 1 || |agreements| > 1
                <==> exists p, q :: p in ids && q in ids && p != q && OneKind(db.policies[p].scope, db.policies[q].scope))
  {
    var members := set id | id in ids && db.policies[id].scope.MembershipScope?;
    var organisations := set id | id in ids && db.policies[id].scope.OrganisationScope?;
    var agreements := set id | id in ids && db.policies[id].scope.AgreementScope?;
    Several(members);
    Several(organisations);
    Several(agreements);
    assert |members| == 0 <==> members == {};
    forall p | p in ids ensures p in members <==> db.policies[p].scope.MembershipScope? {}
    if p, q :| p in ids && q in ids && p != q && OneKind(db.policies[p].scope, db.policies[q].scope) {
      assert (p in members && q in members) || (p in organisations && q in organisations) || (p in agreements && q in agreements);
    }
  }

  /** The budgets a command selects are those that bind, in this order of refusals. */
  lemma BudgetsRead(db: Db, r: Reservation, now: Instant)
    ensures match ApplicablePolicies(db, r, now)
            case Failure(stop) => BudgetRefusal(db, r, now).Some? && stop == Refuse(BudgetRefusal(db, r, now).value)
            case Success(ids) => BudgetRefusal(db, r, now).None? && forall p :: p in ids <==> BindsIn(db, p, r, now)
  {
    hide Applies, Binds, OneKind;
    var ids := ApplicableIds(db, r, now);
    forall p ensures p in ids <==> BindsIn(db, p, r, now) {
      if p in db.policies {
        BindsAlike(db.policies[p], r, now);
      }
    }
    KindsRead(db, ids);
  }

  /** What a budget has left this period. */
  function Left(db: Db, policy: PolicyId, clk: Clock): int
    requires policy in db.policies
  {
    db.policies[policy].limit - SpentTotal(db, Now(db, policy, clk)) - Reserved(db, Now(db, policy, clk))
  }

  /** This period's hold is the reservation's whole amount, at the budget's revision. */
  predicate HeldInFull(db: Db, id: ResId, policy: PolicyId, clk: Clock)
    requires id in db.reservations && policy in db.policies
  {
    var hk := HoldKey(id, Now(db, policy, clk));
    hk in db.holds && db.holds[hk].revision == db.policies[policy].revision && db.holds[hk].reserved == db.reservations[id].amount
  }

  /** A live hold of a budget that does not bind, of another period or of another revision. */
  predicate StaleHold(db: Db, id: ResId, hk: HoldKey, clk: Clock)
    requires id in db.reservations
  {
    && hk in db.holds && hk.reservation == id && db.holds[hk].reserved != 0
    && !(BindsIn(db, hk.slot.policy, db.reservations[id], clk.now) && hk.slot == Now(db, hk.slot.policy, clk)
         && db.holds[hk].revision == db.policies[hk.slot.policy].revision)
  }

  ghost predicate AllInFull(db: Db, id: ResId, clk: Clock)
    requires id in db.reservations
  {
    && (forall p :: BindsIn(db, p, db.reservations[id], clk.now) ==> HeldInFull(db, id, p, clk))
    && (forall hk :: !StaleHold(db, id, hk, clk))
  }

  // ----- Submission and resubmission -----

  /** The row of a new reservation. */
  function Placed(s: Submission, supersedes: Option<ResId>): Reservation {
    Reservation(
      tenant := s.tenant, organisation := s.organisation, membership := s.membership, submittedBy := s.actor,
      market := s.market, currency := s.currency, agreement := s.agreement,
      digest := s.digest, version := s.version, amount := s.amount, purchase := s.purchase, supersedes := supersedes,
      expiresAt := s.expiresAt, status := Active, holdRevision := 1)
  }

  predicate NotAMember(db: Db, s: Submission, now: Instant) {
    s.membership !in db.members ||
    var m := db.members[s.membership];
    || m.organisation != s.organisation || m.tenant != s.tenant || !m.active
    || (m.from.Some? && now < m.from.value) || (m.until.Some? && m.until.value <= now)
  }

  /** Another ACTIVE reservation of this purchase, or of this version of its content by the same membership. */
  predicate Rivals(r: Reservation, s: Submission) {
    && r.status == Active
    && ((r.organisation, r.purchase) == (s.organisation, s.purchase)
        || (r.membership, r.digest, r.version) == (s.membership, s.digest, s.version))
  }

  ghost predicate Taken(db: Db, s: Submission, prior: Option<ResId>) {
    || ResId(s.organisation, s.key) in db.reservations
    || exists id :: id in db.reservations && Some(id) != prior && Rivals(db.reservations[id], s)
  }

  /** A budget in which the amount does not fit, even with what the superseded reservation holds in it now. */
  ghost predicate Short(db: Db, s: Submission, prior: Option<ResId>, clk: Clock) {
    exists p :: BindsIn(db, p, Placed(s, prior), clk.now)
      && s.amount > Left(db, p, clk) + if prior.Some? then ReservedBy(db, prior.value, Now(db, p, clk)) else 0
  }

  ghost function Placing(db: Db, s: Submission, prior: Option<ResId>, clk: Clock): Outcome {
    var budgets := BudgetRefusal(db, Placed(s, prior), clk.now);
    if NotAMember(db, s, clk.now) then
      Refused(BuyerNotAuthorised, false)
    else if Taken(db, s, prior) then
      Conflict
    else if budgets.Some? then
      Refused(budgets.value, false)
    else if Short(db, s, prior, clk) then
      Refused(SpendLimitExceeded, false)
    else
      AppliedNow(Applied(ResId(s.organisation, s.key), Active, 1, None))
  }

  /** A later version of the same purchase by the same membership, in the same Market, currency and agreement. */
  predicate Follows(prior: Reservation, s: Submission) {
    && prior.version < s.version
    && (prior.purchase, prior.tenant, prior.membership, prior.market, prior.currency, prior.agreement)
       == (s.purchase, s.tenant, s.membership, s.market, s.currency, s.agreement)
  }

  ghost function Resubmitting(db: Db, s: Submission, prior: ResId, clk: Clock): Outcome {
    if prior !in db.reservations || db.reservations[prior].organisation != s.organisation then
      Refused(BuyerNotAuthorised, false)
    else if db.reservations[prior].status in {Committed, Released, Expired} then
      Refused(ContextNotUsable, false)
    else if db.reservations[prior].submittedBy != s.actor then
      Refused(BuyerNotAuthorised, false)
    else if !Follows(db.reservations[prior], s) then
      Refused(TransactionChanged, false)
    else
      Placing(db, s, Some(prior), clk)
  }

  lemma PlacingAlike(db: Db, s: Submission, prior: Option<ResId>, collides: bool, clk: Clock)
    requires collides <==> Taken(db, s, prior)
    ensures NewAnswer(db, s, prior, collides, clk) == Placing(db, s, prior, clk)
  {
    hide ApplicablePolicies, BudgetRefusal, Taken, Collides, Binds;
    var r := Placed(s, prior);
    BudgetsRead(db, r, clk.now);
    if ApplicablePolicies(db, r, clk.now).Success? {
      var ids := ApplicablePolicies(db, r, clk.now).value;
      forall p | p in ids ensures BindsIn(db, p, r, clk.now) {}
      forall p | BindsIn(db, p, r, clk.now)
        ensures p in ids && Left(db, p, clk) + (if prior.Some? then ReservedBy(db, prior.value, Now(db, p, clk)) else 0)
                            == Available(db, p, clk) + HeldBy(db, prior, p, clk)
      {}
    }
  }

  lemma SubmitSays(db: Db, s: Submission, clk: Clock)
    requires Fresh(db, Submit(s), clk)
    ensures Run(db, Submit(s), clk).1 == Placing(db, s, None, clk)
  {
    hide Run, Fresh, Placing, NewAnswer;
    SubmitAnswered(db, s, clk);
    PlacingAlike(db, s, None, Collides(db, s), clk);
  }

  lemma ResubmitSays(db: Db, s: Submission, prior: ResId, clk: Clock)
    requires Fresh(db, Resubmit(s, prior), clk)
    ensures Run(db, Resubmit(s, prior), clk).1 == Resubmitting(db, s, prior, clk)
  {
    hide Run, Fresh, Placing, NewAnswer;
    ResubmitAnswered(db, s, prior, clk);
    if prior in db.reservations {
      TakenAlike(db, s, prior);
      PlacingAlike(db, s, Some(prior), Collides(SetStatus(db, prior, Released), s), clk);
    }
  }

  lemma TakenAlike(db: Db, s: Submission, prior: ResId)
    requires prior in db.reservations
    ensures Collides(SetStatus(db, prior, Released), s) <==> Taken(db, s, Some(prior))
  {
    var closed := SetStatus(db, prior, Released);
    forall id | id in db.reservations
      ensures SamePurchase(closed.reservations[id], s) <==> Some(id) != Some(prior) && Rivals(db.reservations[id], s)
    {}
  }

  /**
   A submission is refused as BUYER_NOT_AUTHORISED exactly for its membership: unknown,
   of another Organisation or tenant, not ACTIVE, not begun or over.
   */
  lemma SubmitterRefused(db: Db, s: Submission, clk: Clock)
    requires Fresh(db, Submit(s), clk)
    ensures Run(db, Submit(s), clk).1 == Refused(BuyerNotAuthorised, false) <==>
            || s.membership !in db.members
            || db.members[s.membership].organisation != s.organisation || db.members[s.membership].tenant != s.tenant
            || !db.members[s.membership].active
            || (db.members[s.membership].from.Some? && db.members[s.membership].from.value > clk.now)
            || (db.members[s.membership].until.Some? && db.members[s.membership].until.value <= clk.now)
  {
    hide Run, Fresh, BudgetRefusal, Taken, Short;
    SubmitSays(db, s, clk);
    BudgetReasons(db, Placed(s, None), clk.now);
  }

  lemma BudgetReasons(db: Db, r: Reservation, now: Instant)
    ensures BudgetRefusal(db, r, now) in {None, Some(SpendPolicyNotConfigured), Some(ContextNotUsable)}
  {
  }

  /** A resubmission that passes its own checks is refused as BUYER_NOT_AUTHORISED exactly for the same. */
  lemma ResubmitterRefused(db: Db, s: Submission, prior: ResId, clk: Clock)
    requires Fresh(db, Resubmit(s, prior), clk)
    requires prior in db.reservations
    requires db.reservations[prior].organisation == s.organisation && db.reservations[prior].status == Active
    requires db.reservations[prior].submittedBy == s.actor && Follows(db.reservations[prior], s)
    ensures Run(db, Resubmit(s, prior), clk).1 == Refused(BuyerNotAuthorised, false) <==>
            || s.membership !in db.members
            || db.members[s.membership].organisation != s.organisation || db.members[s.membership].tenant != s.tenant
            || !db.members[s.membership].active
            || (db.members[s.membership].from.Some? && db.members[s.membership].from.value > clk.now)
            || (db.members[s.membership].until.Some? && db.members[s.membership].until.value <= clk.now)
  {
    hide Run, Fresh, BudgetRefusal, Taken, Short, Follows;
    ResubmitSays(db, s, prior, clk);
    BudgetReasons(db, Placed(s, Some(prior)), clk.now);
  }

  // ----- Commit, closing and rollover -----

  predicate NotFound(db: Db, organisation: Id, id: ResId) {
    id !in db.reservations || db.reservations[id].organisation != organisation
  }

  ghost function Committing(db: Db, cmd: Command, clk: Clock): Outcome
    requires cmd.Commit?
  {
    if NotFound(db, cmd.organisation, cmd.reservation) then
      Refused(BuyerNotAuthorised, false)
    else
      var id, r := cmd.reservation, db.reservations[cmd.reservation];
      var budgets := BudgetRefusal(db, r, clk.now);
      if r.status in {Committed, Released, Expired} || clk.now >= r.expiresAt then
        Refused(ContextNotUsable, false)
      else if (cmd.digest, cmd.version, cmd.amount, cmd.holdRevision) != (r.digest, r.version, r.amount, r.holdRevision as int) then
        Refused(TransactionChanged, false)
      else if budgets.Some? then
        Refused(budgets.value, false)
      else if AllInFull(db, id, clk) then
        AppliedNow(Applied(id, Committed, r.holdRevision, None))
      else
        Refused(ContextNotUsable, true)
  }

  function Closing(db: Db, cmd: Command, clk: Clock): Outcome
    requires cmd.Release? || cmd.Expire?
  {
    if NotFound(db, cmd.organisation, cmd.reservation) then
      Refused(BuyerNotAuthorised, false)
    else
      var id, r := cmd.reservation, db.reservations[cmd.reservation];
      if r.status in {Committed, Released, Expired} || (cmd.Expire? && clk.now < r.expiresAt) then
        Refused(ContextNotUsable, false)
      else
        AppliedNow(Applied(id, if cmd.Release? then Released else Expired, r.holdRevision, None))
  }

  /** A budget without the full hold, in which the amount does not fit once its current hold is returned. */
  ghost predicate Unrenewable(db: Db, id: ResId, clk: Clock)
    requires id in db.reservations
  {
    exists p :: BindsIn(db, p, db.reservations[id], clk.now) && !HeldInFull(db, id, p, clk)
      && db.reservations[id].amount > Left(db, p, clk) + ReservedBy(db, id, Now(db, p, clk))
  }

  ghost function Rolling(db: Db, cmd: Command, clk: Clock): Outcome
    requires cmd.Rollover?
  {
    if NotFound(db, cmd.organisation, cmd.reservation) then
      Refused(BuyerNotAuthorised, false)
    else
      var id, r := cmd.reservation, db.reservations[cmd.reservation];
      var budgets := BudgetRefusal(db, r, clk.now);
      if r.status in {Committed, Released, Expired} || clk.now >= r.expiresAt then
        Refused(ContextNotUsable, false)
      else if budgets.Some? then
        Refused(budgets.value, false)
      else if Unrenewable(db, id, clk) then
        Refused(SpendLimitExceeded, false)
      else if AllInFull(db, id, clk) then
        AppliedNow(Applied(id, Active, r.holdRevision, Some(false)))
      else
        AppliedNow(Applied(id, Active, r.holdRevision + 1, Some(true)))
  }

  lemma ReadyAlike(db: Db, id: ResId, policies: seq<PolicyId>, clk: Clock)
    requires id in db.reservations && forall p :: p in policies <==> BindsIn(db, p, db.reservations[id], clk.now)
    requires forall hk :: hk in db.holds ==> db.holds[hk].reserved >= 0
    ensures Known(db, policies)
    ensures ReadyToCommit(db, id, policies, db.reservations[id].amount, clk) <==> AllInFull(db, id, clk)
  {
    hide Binds, HeldSlots;
    HeldListing(db, id);
    forall p | p in policies ensures BindsIn(db, p, db.reservations[id], clk.now) {}
    forall p | p in policies
      ensures FullyHeld(db, id, p, db.reservations[id].amount, clk) <==> HeldInFull(db, id, p, clk)
    {}
    forall hk | hk in db.holds && hk.reservation == id
      ensures hk.slot in HeldSlots(db, id) && (StrayHold(db, id, hk.slot, policies, clk) <==> StaleHold(db, id, hk, clk))
    {
      assert hk == HoldKey(id, hk.slot);
    }
    if ReadyToCommit(db, id, policies, db.reservations[id].amount, clk) {
      forall hk ensures !StaleHold(db, id, hk, clk) {
        if hk in db.holds && hk.reservation == id {
          assert !StrayHold(db, id, hk.slot, policies, clk);
        }
      }
    }
    if AllInFull(db, id, clk) {
      forall slot | slot in HeldSlots(db, id) ensures !StrayHold(db, id, slot, policies, clk) {
        assert !StaleHold(db, id, HoldKey(id, slot), clk);
      }
    }
  }

  lemma HoldsNotNegative(db: Db)
    requires Books(db)
    ensures forall hk :: hk in db.holds ==> db.holds[hk].reserved >= 0
  {
    forall hk | hk in db.holds ensures db.holds[hk].reserved >= 0 {
      assert HoldOk(db, hk);
    }
  }

  lemma CommitSays(db: Db, cmd: Command, clk: Clock)
    requires cmd.Commit? && Fresh(db, cmd, clk)
    ensures Run(db, cmd, clk).1 == Committing(db, cmd, clk)
  {
    hide Books, ApplicablePolicies, ReadyToCommit, WriteAll, Commits, OneActive, Lineage, Settled, PolicyOk, CalendarOk, Applies, BudgetRefusal,
         AllInFull, ArgumentsOk;
    if !NotFound(db, cmd.organisation, cmd.reservation) {
      var id, r := cmd.reservation, db.reservations[cmd.reservation];
      BudgetsRead(db, r, clk.now);
      HoldsNotNegative(db);
      if r.status == Active && clk.now < r.expiresAt && ApplicablePolicies(db, r, clk.now).Success? {
        var policies := ApplicablePolicies(db, r, clk.now).value;
        ReadyAlike(db, id, policies, clk);
        if Names(cmd, r) && ReadyToCommit(db, id, policies, r.amount, clk) {
          CommitUnblocked(db, cmd, clk, policies);
        }
      }
    }
  }

  lemma CloseSays(db: Db, cmd: Command, clk: Clock)
    requires (cmd.Release? || cmd.Expire?) && Fresh(db, cmd, clk)
    ensures Run(db, cmd, clk).1 == Closing(db, cmd, clk)
  {
    hide Books, Releases, HeldSlots, InPolicyOrder, WriteAll, OneActive, Lineage, Settled, PolicyOk, CalendarOk, ArgumentsOk, Appended;
    if !NotFound(db, cmd.organisation, cmd.reservation) {
      var done := CloseEffect(db, cmd.reservation, if cmd.Release? then cmd.reason else ExpiredHold, cmd.key, cmd.actor, clk);
    }
  }

  lemma RenewableAlike(db: Db, id: ResId, policies: seq<PolicyId>, clk: Clock)
    requires id in db.reservations && Settled(db, id)
    requires forall p :: p in policies <==> BindsIn(db, p, db.reservations[id], clk.now)
    ensures Renewable(db, id, policies, db.reservations[id].amount, clk) <==> !Unrenewable(db, id, clk)
  {
    hide Binds;
    forall p | BindsIn(db, p, db.reservations[id], clk.now)
      ensures p in policies && (CurrentlyReserved(db, id, p, clk) == db.reservations[id].amount <==> HeldInFull(db, id, p, clk))
      ensures Available(db, p, clk) == Left(db, p, clk) && CurrentSlot(db, p, clk) == Now(db, p, clk)
    {}
    forall p | p in policies ensures BindsIn(db, p, db.reservations[id], clk.now) {}
  }

  lemma RolloverSays(db: Db, cmd: Command, clk: Clock)
    requires cmd.Rollover? && Fresh(db, cmd, clk)
    ensures Run(db, cmd, clk).1 == Rolling(db, cmd, clk)
  {
    hide Books, ApplicablePolicies, ReadyToCommit, OneActive, Lineage, Settled, PolicyOk, CalendarOk, Applies, BudgetRefusal, HeldSlots,
         AllInFull, ArgumentsOk, Moves, Renewable, Unrenewable, ExecuteRollover;
    RolloverAnswered(db, cmd, clk);
    if !NotFound(db, cmd.organisation, cmd.reservation) {
      var id, r := cmd.reservation, db.reservations[cmd.reservation];
      BudgetsRead(db, r, clk.now);
      HoldsNotNegative(db);
      if r.status == Active && clk.now < r.expiresAt && ApplicablePolicies(db, r, clk.now).Success? {
        var policies := ApplicablePolicies(db, r, clk.now).value;
        ReadyAlike(db, id, policies, clk);
        RenewableAlike(db, id, policies, clk);
        HeldListing(db, id);
        MovesUnlessReady(db, id, policies, cmd.key, cmd.actor, clk);
        var done := RolloverEffect(db, cmd.organisation, id, cmd.key, cmd.actor, clk, policies);
      }
    }
  }

  // ----- Every command -----

  ghost function Answer(db: Db, cmd: Command, clk: Clock): Outcome {
    var key := if cmd.Submit? || cmd.Resubmit? then cmd.s.key else cmd.key;
    if Malformed(cmd, clk.now) then
      Threw
    else if key in db.commands then
      if db.commands[key].request == cmd then Replayed(db.commands[key].result) else Conflict
    else
      match cmd
      case Submit(s) => Placing(db, s, None, clk)
      case Resubmit(s, prior) => Resubmitting(db, s, prior, clk)
      case Commit(_, _, _, _, _, _, _, _, _, _) => Committing(db, cmd, clk)
      case Release(_, _, _, _, _) => Closing(db, cmd, clk)
      case Expire(_, _, _, _) => Closing(db, cmd, clk)
      case Rollover(_, _, _, _) => Rolling(db, cmd, clk)
  }

  /** In every reachable state, every command is answered just so. */
  lemma EveryAnswer(db: Db, cmd: Command, clk: Clock)
    requires Inv(db) && CalendarOk(clk)
    ensures Run(db, cmd, clk).1 == Answer(db, cmd, clk)
  {
    hide Inv, CalendarOk, Execute, ArgumentsOk, Malformed, Placing, Resubmitting, Committing, Closing, Rolling;
    ArgumentsAlike(cmd, clk.now);
    if !Malformed(cmd, clk.now) && cmd.IdempotencyKey() !in db.commands {
      match cmd
      case Submit(s) => SubmitSays(db, s, clk);
      case Resubmit(s, prior) => ResubmitSays(db, s, prior, clk);
      case Commit(_, _, _, _, _, _, _, _, _, _) => CommitSays(db, cmd, clk);
      case Release(_, _, _, _, _) => CloseSays(db, cmd, clk);
      case Expire(_, _, _, _) => CloseSays(db, cmd, clk);
      case Rollover(_, _, _, _) => RolloverSays(db, cmd, clk);
    }
  }
}
