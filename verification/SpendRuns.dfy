/** Runs of commands, budget edits and membership changes, from empty tables. */
module SpendRuns {
  import opened Wrappers
  import opened SpendTypes
  import opened SpendCommands
  import opened SpendBooks
  import opened SpendInvariants
  import opened SpendKeeps
  import opened SpendKeepsMore

  /** What a policy edit may change; the binding of a budget is immutable. */
  datatype Edit = Edit(status: PolicyStatus, timezone: Id, limit: int, from: Instant, until: Option<Instant>)

  datatype Event =
    | Do(cmd: Command, clk: Clock)
    | AddPolicy(id: PolicyId, policy: Policy)
    | EditPolicy(id: PolicyId, edit: Edit)
    | SetMembers(members: map<Id, Member>)

  /** The policy guard: RETIRED is terminal, and every change advances the revision. */
  function Edited(p: Policy, edit: Edit): Policy {
    var q := p.(status := edit.status, timezone := edit.timezone, limit := edit.limit, from := edit.from, until := edit.until);
    if q == p then p else q.(revision := p.revision + 1)
  }

  function StepDb(db: Db, event: Event): Db {
    match event
    case Do(cmd, clk) => Run(db, cmd, clk).0
    case AddPolicy(id, policy) =>
      var p := policy.(revision := 1);
      if id in db.policies || !PolicyOk(p) then db else db.(policies := db.policies[id := p])
    case EditPolicy(id, edit) =>
      if id !in db.policies || db.policies[id].status == Retired || !PolicyOk(Edited(db.policies[id], edit)) then
        db
      else
        db.(policies := db.policies[id := Edited(db.policies[id], edit)])
    case SetMembers(members) => db.(members := members)
  }

  function Play(db: Db, events: seq<Event>): Db
    decreases |events|
  {
    if events == [] then db else Play(StepDb(db, events[0]), events[1..])
  }

  lemma {:induction false} PlayAppend(db: Db, a: seq<Event>, b: seq<Event>)
    ensures Play(db, a + b) == Play(Play(db, a), b)
    decreases |a|
  {
    hide StepDb;
    if a == [] {
      assert a + b == b;
    } else {
      assert (a + b)[1..] == a[1..] + b;
      PlayAppend(StepDb(db, a[0]), a[1..], b);
    }
  }

  const EMPTY: Db := Db(map[], map[], map[], map[], map[], map[], map[], [])

  ghost predicate Timely(events: seq<Event>) {
    forall e :: e in events && e.Do? ==> CalendarOk(e.clk)
  }

  // ----- Environment steps -----

  lemma BoundaryUnmoved(a: Db, b: Db)
    requires Boundary(a) && b.reservations == a.reservations && b.holds == a.holds
    requires forall p :: p in b.policies ==> (p in a.policies && b.policies[p] == a.policies[p]) || PolicyOk(b.policies[p])
    ensures Boundary(b)
  {
    hide OneActive, Lineage, PolicyOk;
    forall id | id in b.reservations ensures Settled(b, id) {
      forall slot: Slot ensures SettledHold(b, id, slot) && ReservedBy(b, id, slot) == ReservedBy(a, id, slot) {
        assert Settled(a, id) && SettledHold(a, id, slot);
      }
    }
  }

  // ----- Commands -----

  lemma ExecuteKeeps(db: Db, cmd: Command, clk: Clock)
    requires Fresh(db, cmd, clk) && Execute(db, cmd, clk).Success?
    ensures Kept(db, Execute(db, cmd, clk).value.0, cmd)
  {
    hide Inv, Kept, ArgumentsOk, ExecuteSubmit, ExecuteResubmit, ExecuteCommit, ExecuteClose, ExecuteRollover;
    match cmd
    case Submit(s) => SubmitKeeps(db, s, clk);
    case Resubmit(s, prior) => ResubmitKeeps(db, s, prior, clk);
    case Commit(_, _, _, _, _, _, _, _, _, _) => CommitKeeps(db, cmd, clk);
    case Release(_, _, _, _, _) => CloseKeeps(db, cmd, clk);
    case Expire(_, _, _, _) => CloseKeeps(db, cmd, clk);
    case Rollover(_, _, _, _) => RolloverKeeps(db, cmd, clk);
  }

  lemma RecordedKept(db: Db, db1: Db, cmd: Command, result: Applied)
    requires Recorded(db) && Kept(db, db1, cmd) && cmd.IdempotencyKey() !in db.commands
    ensures Recorded(db1.(commands := db1.commands[cmd.IdempotencyKey() := CommandRecord(cmd, result)]))
  {
    hide Books, Boundary, OthersKept;
    var key := cmd.IdempotencyKey();
    assert key !in db.mutations;
  }

  lemma RunKeeps(db: Db, cmd: Command, clk: Clock)
    requires Inv(db) && CalendarOk(clk)
    ensures Inv(Run(db, cmd, clk).0)
  {
    hide Books, Boundary, Recorded, Execute, ArgumentsOk;
    var key := cmd.IdempotencyKey();
    if ArgumentsOk(cmd, clk.now) && key !in db.commands && Execute(db, cmd, clk).Success? {
      ExecuteKeeps(db, cmd, clk);
      var (db1, result) := Execute(db, cmd, clk).value;
      RecordedKept(db, db1, cmd, result);
      BooksUnmoved(db1, Run(db, cmd, clk).0);
      BoundaryUnmoved(db1, Run(db, cmd, clk).0);
    }
  }

  /** What the environment may move: budgets appear or are revised, and memberships change. */
  ghost predicate EnvironmentMoved(db: Db, db1: Db) {
    && db1 == db.(policies := db1.policies, members := db1.members)
    && (forall p :: p in db.policies ==>
          p in db1.policies && (db1.policies[p] == db.policies[p] || Revised(db.policies[p], db1.policies[p])))
    && (forall p :: p in db1.policies ==> (p in db.policies && db1.policies[p] == db.policies[p]) || PolicyOk(db1.policies[p]))
  }

  lemma EnvironmentStep(db: Db, event: Event)
    requires !event.Do?
    ensures EnvironmentMoved(db, StepDb(db, event))
  {
    hide PolicyOk;
    match event
    case AddPolicy(id, policy) =>
    case EditPolicy(id, edit) =>
    case SetMembers(members) =>
  }

  /**
   A budget is edited unless it is RETIRED or the edit is malformed: its limit is positive, its
   term not empty, and for an agreement bounded. Any change is one revision, and none is none.
   */
  lemma EditRevises(db: Db, id: PolicyId, edit: Edit)
    requires Inv(db) && id in db.policies
    ensures var p := db.policies[id];
            StepDb(db, EditPolicy(id, edit)) ==
            if p.status == Retired || edit.limit <= 0 || (edit.until.Some? && edit.until.value <= edit.from)
               || (p.scope.AgreementScope? && edit.until.None?) then
              db
            else
              db.(policies := db.policies[id := Policy(
                revision := if (edit.status, edit.timezone, edit.limit, edit.from, edit.until) == (p.status, p.timezone, p.limit, p.from, p.until)
                            then p.revision else p.revision + 1,
                status := edit.status, scope := p.scope, tenant := p.tenant, organisation := p.organisation, market := p.market,
                currency := p.currency, timezone := edit.timezone, limit := edit.limit, from := edit.from, until := edit.until)])
  {
    hide Books, OneActive, Lineage, Recorded, Settled;
    if Edited(db.policies[id], edit) == db.policies[id] {
      assert db.policies[id := db.policies[id]] == db.policies;
    }
  }

  /** A budget is added under a new id at its first revision, unless it is malformed. */
  lemma AddStarts(db: Db, id: PolicyId, p: Policy)
    ensures StepDb(db, AddPolicy(id, p)) ==
            if id in db.policies || p.limit <= 0 || (p.until.Some? && p.until.value <= p.from) || (p.scope.AgreementScope? && p.until.None?) then
              db
            else
              db.(policies := db.policies[id := p.(revision := 1)])
  {
  }

  lemma EnvironmentKeeps(db: Db, event: Event)
    requires Inv(db) && !event.Do?
    ensures Inv(StepDb(db, event))
  {
    hide Books, Boundary, PolicyOk, StepDb, Revised;
    EnvironmentStep(db, event);
    BooksUnmoved(db, StepDb(db, event));
    BoundaryUnmoved(db, StepDb(db, event));
  }

  lemma StepKeeps(db: Db, event: Event)
    requires Inv(db) && (event.Do? ==> CalendarOk(event.clk))
    ensures Inv(StepDb(db, event))
  {
    hide Inv, Run, CalendarOk;
    if event.Do? {
      RunKeeps(db, event.cmd, event.clk);
    } else {
      EnvironmentKeeps(db, event);
    }
  }

  lemma EmptyHolds()
    ensures Inv(EMPTY)
  {
    forall slot: Slot ensures Agrees(EMPTY, slot) {
      assert HoldColumn(EMPTY, slot) == map[];
      assert ReserveColumn(EMPTY.entries, slot) == map[];
      assert SpendColumn(EMPTY.entries, slot) == map[];
    }
  }

  lemma {:induction false} PlayKeeps(db: Db, events: seq<Event>)
    requires Inv(db) && Timely(events)
    ensures Inv(Play(db, events))
    decreases |events|
  {
    hide Inv, StepDb, CalendarOk;
    if events != [] {
      assert events[0] in events;
      StepKeeps(db, events[0]);
      PlayKeeps(StepDb(db, events[0]), events[1..]);
    }
  }

  /** The invariants hold after every run. */
  lemma AlwaysInvariant(events: seq<Event>)
    requires Timely(events)
    ensures Inv(Play(EMPTY, events))
  {
    EmptyHolds();
    PlayKeeps(EMPTY, events);
  }
}
