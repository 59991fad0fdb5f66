/** The reservation commands as they run: one transaction over tables that they update in place. */
module SpendStore {
  import opened Wrappers
  import opened Text
  import opened Sorting
  import opened SpendTypes
  import opened SpendLedger
  import opened SpendCommands
  import opened SpendPlans
  import opened SpendEffects
  import opened SpendOutcome
  import opened SpendKeeps
  import opened SpendRuns

  /** What a series of writes left, against what it should leave. */
  predicate Wrote(w: Result<Db, Stop>, now: Db, stop: Option<Stop>) {
    if w.Success? then stop.None? && now == w.value else stop == Some(w.error)
  }

  /** What a command left and answered; a stopped command's writes are about to be rolled back. */
  predicate Did(x: Execution, now: Db, r: Result<Applied, Stop>) {
    if x.Success? then r == Success(x.value.1) && now == x.value.0 else r == Failure(x.error)
  }

  lemma WriteAllAppend(db: Db, a: seq<Entry>, b: seq<Entry>, clk: Clock)
    ensures WriteAll(db, a + b, clk) == if WriteAll(db, a, clk).Success? then WriteAll(WriteAll(db, a, clk).value, b, clk) else WriteAll(db, a, clk)
  {
    hide ApplyEntry, ApplyAll;
    ApplyAllAppend(db, a, b, clk);
  }

  lemma Single(db: Db, e: Entry, clk: Clock)
    ensures WriteAll(db, [e], clk) ==
            if ApplyEntry(db, e, clk).Success? then Success(ApplyEntry(db, e, clk).value)
            else Failure(Refuse(RefusalFor(ApplyEntry(db, e, clk).error)))
  {
    hide ApplyEntry;
    var rest := [e][1..];
    if ApplyEntry(db, e, clk).Success? {
      assert ApplyAll(ApplyEntry(db, e, clk).value, rest, clk) == Success(ApplyEntry(db, e, clk).value);
    }
    assert ApplyAll(db, [e], clk) == AndThen(ApplyEntry(db, e, clk), rest, clk);
  }

  // ----- Skipping empty holds -----

  predicate Skipped(e: Entry) {
    e.kind.ReleaseEntry? && e.amount == 0
  }

  /** An empty hold has nothing to release. */
  function NonZero(es: seq<Entry>): (r: seq<Entry>)
    decreases |es|
  {
    if es == [] then [] else (if Skipped(es[0]) then [] else [es[0]]) + NonZero(es[1..])
  }

  lemma {:induction false} NonZeroAppend(a: seq<Entry>, b: seq<Entry>)
    ensures NonZero(a + b) == NonZero(a) + NonZero(b)
    decreases |a|
  {
    if a == [] {
      assert a + b == b;
    } else {
      assert (a + b)[1..] == a[1..] + b;
      NonZeroAppend(a[1..], b);
    }
  }

  lemma {:induction false} NonZeroFor(es: seq<Entry>, policy: PolicyId)
    ensures NonZero(ForPolicy(es, policy)) == ForPolicy(NonZero(es), policy)
    decreases |es|
  {
    if es != [] {
      var head := if es[0].policy == policy then [es[0]] else [];
      NonZeroAppend(head, ForPolicy(es[1..], policy));
      ForPolicyAppend(NonZero([es[0]]), NonZero(es[1..]), policy);
      assert NonZero([es[0]]) == if Skipped(es[0]) then [] else [es[0]];
      NonZeroFor(es[1..], policy);
    }
  }

  lemma {:induction false} NonZeroMembers(es: seq<Entry>)
    ensures forall e :: e in NonZero(es) <==> e in es && !Skipped(e)
    decreases |es|
  {
    if es != [] {
      NonZeroMembers(es[1..]);
    }
  }

  /** What one turn of the loop over budgets writes. */
  function Turn(releases: seq<Entry>, reserves: seq<Entry>, policy: PolicyId): seq<Entry> {
    ForPolicy(releases, policy) + ForPolicy(reserves, policy)
  }

  lemma {:induction false} InterleaveSplit(ids: seq<PolicyId>, releases: seq<Entry>, reserves: seq<Entry>, i: nat)
    requires i <= |ids|
    ensures Interleave(ids, releases, reserves) == Interleave(ids[..i], releases, reserves) + Interleave(ids[i..], releases, reserves)
    decreases i
  {
    hide ForPolicy;
    if i > 0 {
      assert ids[..i][1..] == ids[1..][..i - 1] && ids[i..] == ids[1..][i - 1..];
      InterleaveSplit(ids[1..], releases, reserves, i - 1);
    }
  }

  /** Budgets for which there is nothing to write may stand in the list or not. */
  lemma {:induction false} InterleaveOnly(ids: seq<PolicyId>, releases: seq<Entry>, reserves: seq<Entry>, only: set<PolicyId>)
    requires forall id :: id in ids && id !in only ==> Turn(releases, reserves, id) == []
    ensures Interleave(ids, releases, reserves) == Interleave(Within(ids, only), releases, reserves)
    decreases |ids|
  {
    hide ForPolicy;
    if ids != [] {
      assert ids[0] in ids;
      InterleaveOnly(ids[1..], releases, reserves, only);
      var within, later := Within(ids[1..], only), Interleave(ids[1..], releases, reserves);
      assert Interleave(ids, releases, reserves) == Turn(releases, reserves, ids[0]) + later;
      if ids[0] in only {
        assert ([ids[0]] + within)[1..] == within;
      } else {
        assert Turn(releases, reserves, ids[0]) == [] && [] + later == later && [] + within == within;
      }
    }
  }

  function Within(ids: seq<PolicyId>, only: set<PolicyId>): seq<PolicyId>
    decreases |ids|
  {
    if ids == [] then [] else (if ids[0] in only then [ids[0]] else []) + Within(ids[1..], only)
  }

  lemma {:induction false} WithinAscends(ids: seq<PolicyId>, only: set<PolicyId>)
    requires Ascending(ids, Leq)
    ensures Ascending(Within(ids, only), Leq)
    ensures forall id :: id in Within(ids, only) <==> id in ids && id in only
    decreases |ids|
  {
    if ids != [] {
      WithinAscends(ids[1..], only);
      var rest := Within(ids[1..], only);
      forall j | 0 <= j < |rest| ensures Leq(ids[0], rest[j]) && ids[0] != rest[j] {
        assert rest[j] in rest;
        var k :| 0 <= k < |ids[1..]| && ids[1..][k] == rest[j];
        assert Leq(ids[0], ids[k + 1]);
      }
    }
  }

  /** The loop over the budgets of all holds writes what the plan without the empty ones writes. */
  lemma EmptyHoldsDoNotMatter(releases: seq<Entry>, reserves: seq<Entry>)
    requires forall e :: e in reserves ==> !Skipped(e)
    ensures Interleave(InOrder(BudgetsOf(releases) + BudgetsOf(reserves)), NonZero(releases), reserves)
         == InPolicyOrder(NonZero(releases), reserves)
  {
    hide ForPolicy, Interleave;
    var all, only := BudgetsOf(releases) + BudgetsOf(reserves), BudgetsOf(NonZero(releases)) + BudgetsOf(reserves);
    NonZeroMembers(releases);
    assert only <= all;
    forall id | id in InOrder(all) && id !in only ensures Turn(NonZero(releases), reserves, id) == [] {
      ForPolicyMembers(NonZero(releases), id);
      ForPolicyMembers(reserves, id);
    }
    InterleaveOnly(InOrder(all), NonZero(releases), reserves, only);
    WithinAscends(InOrder(all), only);
    PolicyIdsAreOrdered();
    AscendingUnique(Within(InOrder(all), only), InOrder(only), Leq);
  }

  class SpendStore {
    var policies: map<PolicyId, Policy>
    var members: map<Id, Member>
    var reservations: map<ResId, Reservation>
    var holds: map<HoldKey, Hold>
    var balances: map<Slot, Balance>
    var entries: map<EntryKey, Entry>
    var commands: map<Id, CommandRecord>
    var mutations: seq<Id>

    constructor ()
      ensures Snapshot() == EMPTY
    {
      policies, members, reservations, holds := map[], map[], map[], map[];
      balances, entries, commands, mutations := map[], map[], map[], [];
    }

    function Snapshot(): Db
      reads this
    {
      Db(policies, members, reservations, holds, balances, entries, commands, mutations)
    }

    /** The trigger's checks, and the balance and hold rows it would write. */
    method JudgeEntry(e: Entry, clk: Clock) returns (judgement: Judgement)
      ensures judgement == Judge(Snapshot(), e, clk)
    {
      if e.policy !in policies || e.reservation !in reservations {
        return Failure(UnknownRow);
      }
      var p, r := policies[e.policy], reservations[e.reservation];
      if !InScope(p, r) {
        return Failure(OutsideBudget);
      }
      if e.kind.ReleaseEntry? && e.period.Some? {
        var slot := Slot(e.policy, e.period.value);
        if HoldKey(e.reservation, slot) !in holds || slot !in balances {
          return Failure(NoHoldToRelease);
        }
        return JudgeReturn(e, slot, balances[slot], holds[HoldKey(e.reservation, slot)]);
      }
      var period := PeriodOf(p, clk);
      if clk.now < period.startsAt || period.endsAt <= clk.now {
        return Failure(OutsidePeriod);
      }
      var slot := Slot(e.policy, period.startsAt);
      var balance := if slot in balances then balances[slot] else Balance(period.endsAt, 0, 0);
      var hold := if HoldKey(e.reservation, slot) in holds then holds[HoldKey(e.reservation, slot)] else Hold(p.revision, 0, 0);
      match e.kind
      case ReserveEntry => judgement := JudgeTaking(e, clk.now, p, r, slot, balance, hold);
      case CommitEntry(_) => judgement := JudgeConverting(e, clk.now, p, r, slot, balance, hold);
      case ReleaseEntry(_) => judgement := JudgeReturn(e, slot, balance, hold);
    }

    static function JudgeReturn(e: Entry, slot: Slot, balance: Balance, hold: Hold): Judgement {
      if e.amount > hold.reserved then Failure(ReleaseTooMuch) else Success(Lowered(e.amount, slot, balance, hold))
    }

    static method JudgeTaking(e: Entry, now: Instant, p: Policy, r: Reservation, slot: Slot, balance: Balance, hold: Hold)
      returns (judgement: Judgement)
      ensures judgement == JudgeReserve(e, now, p, r, slot, balance, hold)
    {
      if r.status != Active || r.expiresAt <= now {
        return Failure(NotActive);
      }
      var kept := hold;
      if kept.reserved == 0 && kept.committed == 0 && kept.revision != p.revision {
        kept := kept.(revision := p.revision);
      }
      if p.status != ActivePolicy || !InEffect(now, p.from, p.until) || e.revision != p.revision || kept.revision != p.revision {
        return Failure(NotInEffect);
      }
      if e.amount > p.limit - balance.committed - balance.reserved {
        return Failure(InsufficientCapacity);
      }
      return Success(Rows(slot, balance.(reserved := balance.reserved + e.amount), kept.(reserved := kept.reserved + e.amount)));
    }

    static method JudgeConverting(e: Entry, now: Instant, p: Policy, r: Reservation, slot: Slot, balance: Balance, hold: Hold)
      returns (judgement: Judgement)
      ensures judgement == JudgeCommit(e, now, p, r, slot, balance, hold)
    {
      if r.status != Active || r.expiresAt <= now {
        return Failure(ExpiredOrClosed);
      }
      if p.status != ActivePolicy || e.revision != p.revision || hold.revision != p.revision {
        return Failure(BudgetChanged);
      }
      if e.amount > hold.reserved {
        return Failure(CommitTooMuch);
      }
      return Success(Rows(slot,
                          balance.(reserved := balance.reserved - e.amount, committed := balance.committed + e.amount),
                          hold.(reserved := hold.reserved - e.amount, committed := hold.committed + e.amount)));
    }

    /** One insert into the ledger: the trigger moves balance and hold with it, or refuses and nothing moves. */
    method InsertLedgerEntry(e: Entry, clk: Clock) returns (error: Option<LedgerError>)
      modifies `holds, `balances, `entries
      ensures var w := ApplyEntry(old(Snapshot()), e, clk);
              if w.Success? then error.None? && Snapshot() == w.value else error == Some(w.error) && Snapshot() == old(Snapshot())
    {
      hide Judge;
      var judgement := JudgeEntry(e, clk);
      if judgement.Failure? {
        return Some(judgement.error);
      }
      var rows := judgement.value;
      if e.key in entries || e.amount <= 0 || rows.balance.reserved < 0 || rows.balance.committed < 0
         || rows.hold.reserved < 0 || rows.hold.committed < 0 {
        return Some(ConstraintViolated);
      }
      balances := balances[rows.slot := rows.balance];
      holds := holds[HoldKey(e.reservation, rows.slot) := rows.hold];
      entries := entries[e.key := e.(period := Some(rows.slot.period))];
      return None;
    }

    /** Writes entries one after another, skipping empty holds, until one is refused. */
    method WriteEach(es: seq<Entry>, clk: Clock) returns (stop: Option<Stop>)
      modifies `holds, `balances, `entries
      ensures Wrote(WriteAll(old(Snapshot()), NonZero(es), clk), Snapshot(), stop)
    {
      hide ApplyEntry;
      ghost var start := Snapshot();
      var i := 0;
      while i < |es|
        invariant 0 <= i <= |es|
        invariant WriteAll(start, NonZero(es[..i]), clk) == Success(Snapshot())
      {
        var e := es[i];
        ghost var before := Snapshot();
        assert es == es[..i] + [e] + es[i + 1..] && es[..i + 1] == es[..i] + [e];
        NonZeroAppend(es[..i], [e]);
        if Skipped(e) {
          assert NonZero([e]) == [] && NonZero(es[..i]) + [] == NonZero(es[..i]);
        } else {
          assert NonZero([e]) == [e];
          var error := InsertLedgerEntry(e, clk);
          WriteAllAppend(start, NonZero(es[..i]), [e], clk);
          Single(before, e, clk);
          if error.Some? {
            NonZeroAppend(es[..i + 1], es[i + 1..]);
            WriteAllAppend(start, NonZero(es[..i + 1]), NonZero(es[i + 1..]), clk);
            return Some(Refuse(RefusalFor(error.value)));
          }
        }
        i := i + 1;
      }
      assert es[..i] == es;
      return None;
    }

    /** Per budget in the global order: its releases, then its reservations. */
    method WriteInPolicyOrder(releases: seq<Entry>, reserves: seq<Entry>, clk: Clock) returns (stop: Option<Stop>)
      requires forall e :: e in reserves ==> !Skipped(e)
      modifies `holds, `balances, `entries
      ensures Wrote(WriteAll(old(Snapshot()), InPolicyOrder(NonZero(releases), reserves), clk), Snapshot(), stop)
    {
      hide WriteAll, Interleave, ForPolicy;
      ghost var start, moved := Snapshot(), NonZero(releases);
      var ids := InOrder(BudgetsOf(releases) + BudgetsOf(reserves));
      EmptyHoldsDoNotMatter(releases, reserves);
      var i := 0;
      NothingYet(start, moved, reserves, clk);
      while i < |ids|
        invariant 0 <= i <= |ids|
        invariant WriteAll(start, Interleave(ids[..i], moved, reserves), clk) == Success(Snapshot())
      {
        ghost var before := Snapshot();
        stop := WriteEach(ForPolicy(releases, ids[i]), clk);
        if stop.None? {
          stop := WriteEach(ForPolicy(reserves, ids[i]), clk);
        }
        TurnWrites(start, before, ids, releases, reserves, i, clk);
        if stop.Some? {
          return;
        }
        i := i + 1;
      }
      assert ids[..i] == ids;
      return None;
    }

    /** A new ACTIVE reservation of an ACTIVE member; a unique index answers with a conflict. */
    method InsertRow(s: Submission, supersedes: Option<ResId>, now: Instant) returns (stop: Option<Stop>)
      modifies `reservations
      ensures Wrote(InsertReservation(old(Snapshot()), s, supersedes, now), Snapshot(), stop)
    {
      if !IsMember(Snapshot(), s, now) {
        return Some(Refuse(BuyerNotAuthorised));
      }
      if Collides(Snapshot(), s) {
        return Some(ConflictStop);
      }
      reservations := reservations[ResId(s.organisation, s.key) := NewReservation(s, supersedes)];
      return None;
    }

    /** Reserves the full amount of a reservation just inserted. */
    method FillRow(s: Submission, releases: seq<Entry>, step: Step, clk: Clock) returns (r: Result<Applied, Stop>)
      requires ResId(s.organisation, s.key) in reservations
      modifies `holds, `balances, `entries
      ensures Did(Fill(old(Snapshot()), s, NonZero(releases), step, clk), Snapshot(), r)
    {
      hide WriteAll, ApplicablePolicies;
      var id := ResId(s.organisation, s.key);
      var policies := ApplicablePolicies(Snapshot(), reservations[id], clk.now);
      if policies.Failure? {
        return Failure(policies.error);
      }
      ApplicableListing(Snapshot(), reservations[id], clk.now);
      var reserves := Reserves(Snapshot(), id, policies.value, s.amount, false, clk, step, s.key, s.actor);
      ReservesShape(Snapshot(), id, policies.value, s.amount, false, clk, step, s.key, s.actor);
      var stop := WriteInPolicyOrder(releases, reserves, clk);
      if stop.Some? {
        return Failure(stop.value);
      }
      return Success(Applied(id, Active, 1, None));
    }

    method Submit(s: Submission, clk: Clock) returns (r: Result<Applied, Stop>)
      modifies this
      ensures Did(ExecuteSubmit(old(Snapshot()), s, clk), Snapshot(), r)
    {
      hide Fill, IsMember, Collides;
      var stop := InsertRow(s, None, clk.now);
      if stop.Some? {
        return Failure(stop.value);
      }
      assert NonZero([]) == [];
      r := FillRow(s, [], SubmitStep, clk);
    }

    method Resubmit(s: Submission, supersedes: ResId, clk: Clock) returns (r: Result<Applied, Stop>)
      modifies this
      ensures Did(ExecuteResubmit(old(Snapshot()), s, supersedes, clk), Snapshot(), r)
    {
      hide Fill, IsMember, Collides, LaterVersion, HeldSlots, Releases, EveryHold;
      if supersedes !in reservations || reservations[supersedes].organisation != s.organisation {
        return Failure(Refuse(BuyerNotAuthorised));
      }
      var prior := reservations[supersedes];
      if prior.status != Active {
        return Failure(Refuse(ContextNotUsable));
      }
      if prior.submittedBy != s.actor {
        return Failure(Refuse(BuyerNotAuthorised));
      }
      if !LaterVersion(prior, s) {
        return Failure(Refuse(TransactionChanged));
      }
      var reason := if s.amount < prior.amount then AmountReduced else Cancelled;
      var releases := EveryHold(Snapshot(), supersedes, reason, s.key, s.actor);
      EmptyHoldsSkipped(Snapshot(), supersedes, reason, s.key, s.actor);
      reservations := reservations[supersedes := prior.(status := Released)];
      var stop := InsertRow(s, Some(supersedes), clk.now);
      if stop.Some? {
        return Failure(stop.value);
      }
      r := FillRow(s, releases, ResubmitStep, clk);
    }

    method Close(organisation: Id, id: ResId, reason: Reason, status: ReservationStatus, mustBeExpired: bool,
                 key: Id, actor: Id, clk: Clock)
      returns (r: Result<Applied, Stop>)
      modifies this
      ensures Did(ExecuteClose(old(Snapshot()), organisation, id, reason, status, mustBeExpired, key, actor, clk), Snapshot(), r)
    {
      hide WriteAll, HeldSlots, Releases, EveryHold, InPolicyOrder;
      if id !in reservations || reservations[id].organisation != organisation {
        return Failure(Refuse(BuyerNotAuthorised));
      }
      if reservations[id].status != Active {
        return Failure(Refuse(ContextNotUsable));
      }
      if mustBeExpired && !(reservations[id].expiresAt <= clk.now) {
        return Failure(Refuse(ContextNotUsable));
      }
      EmptyHoldsSkipped(Snapshot(), id, reason, key, actor);
      var stop := WriteInPolicyOrder(EveryHold(Snapshot(), id, reason, key, actor), [], clk);
      if stop.Some? {
        return Failure(stop.value);
      }
      reservations := reservations[id := reservations[id].(status := status)];
      return Success(Applied(id, status, reservations[id].holdRevision, None));
    }

    method Rollover(organisation: Id, id: ResId, key: Id, actor: Id, clk: Clock) returns (r: Result<Applied, Stop>)
      modifies this
      ensures Did(ExecuteRollover(old(Snapshot()), organisation, id, key, actor, clk), Snapshot(), r)
    {
      hide WriteAll, ApplicablePolicies, InPolicyOrder, RolloverReleases, RolloverReserves;
      if id !in reservations || reservations[id].organisation != organisation {
        return Failure(Refuse(BuyerNotAuthorised));
      }
      if reservations[id].status != Active || reservations[id].expiresAt <= clk.now {
        return Failure(Refuse(ContextNotUsable));
      }
      var policies := ApplicablePolicies(Snapshot(), reservations[id], clk.now);
      if policies.Failure? {
        return Failure(policies.error);
      }
      ApplicableListing(Snapshot(), reservations[id], clk.now);
      var releases := RolloverReleases(Snapshot(), id, policies.value, key, actor, clk);
      var reserves := RolloverReserves(Snapshot(), id, policies.value, reservations[id].amount, key, actor, clk);
      RolloverKept(Snapshot(), id, policies.value, reservations[id].amount, key, actor, clk);
      var moved := |releases| > 0 || |reserves| > 0;
      var stop := WriteInPolicyOrder(releases, reserves, clk);
      if stop.Some? {
        return Failure(stop.value);
      }
      if moved {
        reservations := reservations[id := reservations[id].(holdRevision := reservations[id].holdRevision + 1)];
      }
      return Success(Applied(id, Active, reservations[id].holdRevision, Some(moved)));
    }

    /** Every applicable budget must hold the full amount now; then each converts it, in order. */
    method Commit(cmd: Command, clk: Clock) returns (r: Result<Applied, Stop>)
      requires cmd.Commit?
      modifies this
      ensures Did(ExecuteCommit(old(Snapshot()), cmd, clk), Snapshot(), r)
    {
      hide WriteAll, ApplicablePolicies, Commits, ReadyToCommit, HeldSlots;
      var id := cmd.reservation;
      if id !in reservations || reservations[id].organisation != cmd.organisation {
        return Failure(Refuse(BuyerNotAuthorised));
      }
      var row := reservations[id];
      if row.status != Active || row.expiresAt <= clk.now {
        return Failure(Refuse(ContextNotUsable));
      }
      if row.digest != cmd.digest || row.version != cmd.version || row.amount != cmd.amount || row.holdRevision as int != cmd.holdRevision {
        return Failure(Refuse(TransactionChanged));
      }
      var policies := ApplicablePolicies(Snapshot(), row, clk.now);
      if policies.Failure? {
        return Failure(policies.error);
      }
      ApplicableListing(Snapshot(), row, clk.now);
      var ready := CheckHolds(id, policies.value, row.amount, clk);
      if !ready {
        return Failure(RolloverRequired);
      }
      var stop := WriteCommits(id, policies.value, row.amount, cmd.reference, cmd.key, cmd.actor, clk);
      if stop.Some? {
        return Failure(stop.value);
      }
      reservations := reservations[id := reservations[id].(status := Committed)];
      if cmd.withMutation {
        mutations := mutations + [cmd.key];
      }
      return Success(Applied(id, Committed, row.holdRevision, None));
    }

    /** No budget short of the amount, and no hold that is stale or of a budget that no longer applies. */
    method CheckHolds(id: ResId, budgets: seq<PolicyId>, amount: int, clk: Clock) returns (ready: bool)
      requires forall p :: p in budgets ==> p in policies
      ensures ready == ReadyToCommit(Snapshot(), id, budgets, amount, clk)
    {
      hide FullyHeld, IsCurrent, HeldSlots;
      HeldListing(Snapshot(), id);
      var i := 0;
      while i < |budgets|
        invariant 0 <= i <= |budgets|
        invariant forall j :: 0 <= j < i ==> FullyHeld(Snapshot(), id, budgets[j], amount, clk)
      {
        if !FullyHeld(Snapshot(), id, budgets[i], amount, clk) {
          return false;
        }
        i := i + 1;
      }
      ready := !exists slot :: slot in HeldSlots(Snapshot(), id) && StrayHold(Snapshot(), id, slot, budgets, clk);
    }

    method WriteCommits(id: ResId, budgets: seq<PolicyId>, amount: int, reference: Id, key: Id, actor: Id, clk: Clock)
      returns (stop: Option<Stop>)
      requires forall p :: p in budgets ==> p in policies
      modifies `holds, `balances, `entries
      ensures Wrote(WriteAll(old(Snapshot()), Commits(old(Snapshot()), id, budgets, amount, reference, key, actor), clk), Snapshot(), stop)
    {
      hide ApplyEntry, WriteAll;
      ghost var start := Snapshot();
      NothingCommitted(start, id, amount, reference, key, actor, clk);
      var i := 0;
      while i < |budgets|
        invariant 0 <= i <= |budgets| && policies == start.policies
        invariant WriteAll(start, Commits(start, id, budgets[..i], amount, reference, key, actor), clk) == Success(Snapshot())
      {
        ghost var before := Snapshot();
        var e := CommitOf(Snapshot(), id, budgets[i], amount, reference, key, actor);
        var error := InsertLedgerEntry(e, clk);
        Single(before, e, clk);
        CommitTurn(start, before, id, budgets, amount, reference, key, actor, i, clk);
        if error.Some? {
          return Some(Refuse(RefusalFor(error.value)));
        }
        i := i + 1;
      }
      assert budgets[..i] == budgets;
      return None;
    }

    /** One transaction per command: a stopped command is rolled back, an applied one is recorded last. */
    method RunCommand(cmd: Command, clk: Clock) returns (answer: Outcome)
      modifies this
      ensures (Snapshot(), answer) == Run(old(Snapshot()), cmd, clk)
    {
      hide ArgumentsOk, ExecuteSubmit, ExecuteResubmit, ExecuteCommit, ExecuteClose, ExecuteRollover;
      var key := cmd.IdempotencyKey();
      if !ArgumentsOk(cmd, clk.now) {
        return Threw;
      }
      if key in commands {
        return if commands[key].request == cmd then Replayed(commands[key].result) else Conflict;
      }
      var begin := Snapshot();
      var r := Perform(cmd, clk);
      if r.Failure? {
        policies, members, reservations, holds := begin.policies, begin.members, begin.reservations, begin.holds;
        balances, entries, commands, mutations := begin.balances, begin.entries, begin.commands, begin.mutations;
        return StopOutcome(r.error);
      }
      commands := commands[key := CommandRecord(cmd, r.value)];
      return AppliedNow(r.value);
    }

    method Perform(cmd: Command, clk: Clock) returns (r: Result<Applied, Stop>)
      modifies this
      ensures Did(Execute(old(Snapshot()), cmd, clk), Snapshot(), r)
    {
      hide ExecuteSubmit, ExecuteResubmit, ExecuteCommit, ExecuteClose, ExecuteRollover;
      match cmd
      case Submit(s) => r := Submit(s, clk);
      case Resubmit(s, supersedes) => r := Resubmit(s, supersedes, clk);
      case Commit(_, _, _, _, _, _, _, _, _, _) => r := Commit(cmd, clk);
      case Release(key, organisation, id, actor, reason) => r := Close(organisation, id, reason, Released, false, key, actor, clk);
      case Expire(key, organisation, id, actor) => r := Close(organisation, id, ExpiredHold, Expired, true, key, actor, clk);
      case Rollover(key, organisation, id, actor) => r := Rollover(organisation, id, key, actor, clk);
    }
  }

  lemma NothingCommitted(db: Db, id: ResId, amount: int, reference: Id, key: Id, actor: Id, clk: Clock)
    ensures WriteAll(db, Commits(db, id, [], amount, reference, key, actor), clk) == Success(db)
  {
  }

  lemma {:induction false} CommitsAppend(db: Db, id: ResId, a: seq<PolicyId>, b: seq<PolicyId>, amount: int, reference: Id, key: Id, actor: Id)
    requires Known(db, a) && Known(db, b)
    ensures Commits(db, id, a + b, amount, reference, key, actor)
         == Commits(db, id, a, amount, reference, key, actor) + Commits(db, id, b, amount, reference, key, actor)
    decreases |a|
  {
    if a == [] {
      assert a + b == b;
    } else {
      assert (a + b)[1..] == a[1..] + b;
      CommitsAppend(db, id, a[1..], b, amount, reference, key, actor);
    }
  }

  /** One turn of the commit loop, and what its refusal means for all of it. */
  lemma CommitTurn(start: Db, before: Db, id: ResId, budgets: seq<PolicyId>, amount: int, reference: Id, key: Id, actor: Id, i: nat, clk: Clock)
    requires i < |budgets| && Known(start, budgets) && before.policies == start.policies
    requires WriteAll(start, Commits(start, id, budgets[..i], amount, reference, key, actor), clk) == Success(before)
    ensures var turn := WriteAll(before, [CommitOf(before, id, budgets[i], amount, reference, key, actor)], clk);
            && WriteAll(start, Commits(start, id, budgets[..i + 1], amount, reference, key, actor), clk) == turn
            && (turn.Failure? ==> WriteAll(start, Commits(start, id, budgets, amount, reference, key, actor), clk) == turn)
  {
    hide WriteAll;
    var done, next, rest := budgets[..i], [budgets[i]], budgets[i + 1..];
    assert budgets[..i + 1] == done + next && budgets == done + next + rest && next[1..] == [];
    assert Commits(start, id, next, amount, reference, key, actor) == [CommitOf(before, id, budgets[i], amount, reference, key, actor)];
    CommitsAppend(start, id, done, next, amount, reference, key, actor);
    CommitsAppend(start, id, done + next, rest, amount, reference, key, actor);
    WriteAllAppend(start, Commits(start, id, done, amount, reference, key, actor), Commits(start, id, next, amount, reference, key, actor), clk);
    WriteAllAppend(start, Commits(start, id, done + next, amount, reference, key, actor), Commits(start, id, rest, amount, reference, key, actor), clk);
  }

  /** A release for every hold row of a reservation, empty or not. */
  function EveryHold(db: Db, id: ResId, reason: Reason, key: Id, actor: Id): seq<Entry> {
    HeldListing(db, id);
    ReleaseEvery(db, id, HeldSlots(db, id), reason, key, actor)
  }

  function ReleaseEvery(db: Db, id: ResId, slots: seq<Slot>, reason: Reason, key: Id, actor: Id): seq<Entry>
    requires AllHeld(db, id, slots)
    decreases |slots|
  {
    if slots == [] then [] else [ReleaseOf(db, id, slots[0], AllHolds(reason), key, actor)] + ReleaseEvery(db, id, slots[1..], reason, key, actor)
  }

  lemma {:induction false} NonZeroReleases(db: Db, id: ResId, slots: seq<Slot>, reason: Reason, key: Id, actor: Id)
    requires AllHeld(db, id, slots)
    ensures NonZero(ReleaseEvery(db, id, slots, reason, key, actor)) == Releases(db, id, slots, AllHolds(reason), key, actor)
    decreases |slots|
  {
    if slots != [] {
      NonZeroReleases(db, id, slots[1..], reason, key, actor);
    }
  }

  lemma EmptyHoldsSkipped(db: Db, id: ResId, reason: Reason, key: Id, actor: Id)
    ensures AllHeld(db, id, HeldSlots(db, id))
    ensures NonZero(EveryHold(db, id, reason, key, actor)) == Releases(db, id, HeldSlots(db, id), AllHolds(reason), key, actor)
  {
    HeldListing(db, id);
    NonZeroReleases(db, id, HeldSlots(db, id), reason, key, actor);
  }

  lemma RolloverKept(db: Db, id: ResId, policies: seq<PolicyId>, amount: int, key: Id, actor: Id, clk: Clock)
    requires Known(db, policies)
    ensures NonZero(RolloverReleases(db, id, policies, key, actor, clk)) == RolloverReleases(db, id, policies, key, actor, clk)
    ensures forall e :: e in RolloverReserves(db, id, policies, amount, key, actor, clk) ==> !Skipped(e)
  {
    HeldListing(db, id);
    ReleasesShape(db, id, HeldSlots(db, id), StaleHolds(policies, clk), key, actor);
    AllKept(RolloverReleases(db, id, policies, key, actor, clk));
    ReservesShape(db, id, policies, amount, true, clk, RolloverStep, key, actor);
  }

  lemma NothingYet(db: Db, releases: seq<Entry>, reserves: seq<Entry>, clk: Clock)
    ensures WriteAll(db, Interleave([], releases, reserves), clk) == Success(db)
  {
  }

  /** One turn of the loop, and what its refusal means for the whole plan. */
  lemma TurnWrites(start: Db, before: Db, ids: seq<PolicyId>, releases: seq<Entry>, reserves: seq<Entry>, i: nat, clk: Clock)
    requires i < |ids| && forall e :: e in reserves ==> !Skipped(e)
    requires WriteAll(start, Interleave(ids[..i], NonZero(releases), reserves), clk) == Success(before)
    ensures var first := WriteAll(before, NonZero(ForPolicy(releases, ids[i])), clk);
            var turn := if first.Success? then WriteAll(first.value, NonZero(ForPolicy(reserves, ids[i])), clk) else first;
            WriteAll(start, Interleave(ids[..i + 1], NonZero(releases), reserves), clk) == turn
            && (turn.Failure? ==> WriteAll(start, Interleave(ids, NonZero(releases), reserves), clk) == turn)
  {
    hide WriteAll, ForPolicy, NonZero;
    var moved, id := NonZero(releases), ids[i];
    NonZeroFor(releases, id);
    NonZeroFor(reserves, id);
    AllKept(reserves);
    var turn := Turn(moved, reserves, id);
    WriteAllAppend(before, ForPolicy(moved, id), ForPolicy(reserves, id), clk);
    InterleaveSplit(ids[..i + 1], moved, reserves, i);
    assert ids[..i + 1][..i] == ids[..i] && ids[..i + 1][i..] == [id] && [id][1..] == [];
    assert Interleave([id], moved, reserves) == turn + Interleave([], moved, reserves);
    assert turn + [] == turn;
    WriteAllAppend(start, Interleave(ids[..i], moved, reserves), turn, clk);
    InterleaveSplit(ids, moved, reserves, i + 1);
    WriteAllAppend(start, Interleave(ids[..i + 1], moved, reserves), Interleave(ids[i + 1..], moved, reserves), clk);
  }

  lemma {:induction false} AllKept(es: seq<Entry>)
    requires forall e :: e in es ==> !Skipped(e)
    ensures NonZero(es) == es
    decreases |es|
  {
    if es != [] {
      assert es[0] in es;
      AllKept(es[1..]);
    }
  }
}
