/** What a whole run keeps: closed reservations, hold revisions, the ledger's past, and one effect per key. */
module SpendHistory {
  import opened Wrappers
  import opened SpendTypes
  import opened SpendLedger
  import opened SpendCommands
  import opened SpendBooks
  import opened SpendEffects
  import opened SpendInvariants
  import opened SpendKeeps
  import opened SpendKeepsMore
  import opened SpendRuns

  // ----- Hold revisions -----

  ghost predicate HoldsSame(a: Db, b: Db, id: ResId) {
    forall slot: Slot :: SameHold(a, b, HoldKey(id, slot))
  }

  /** A closed reservation never changes again; an ACTIVE one changes its holds only with its hold revision. */
  ghost predicate Advances(a: Db, b: Db, id: ResId)
    requires id in a.reservations
  {
    && id in b.reservations && SameBinding(a.reservations[id], b.reservations[id])
    && (a.reservations[id].status != Active ==> b.reservations[id] == a.reservations[id] && HoldsSame(a, b, id))
    && (b.reservations[id].status == Active ==>
          && a.reservations[id].holdRevision <= b.reservations[id].holdRevision
          && (a.reservations[id].holdRevision == b.reservations[id].holdRevision ==> HoldsSame(a, b, id)))
  }

  lemma UntouchedAdvances(db: Db, db1: Db, cmd: Command, id: ResId)
    requires Kept(db, db1, cmd) && id in db.reservations && id !in Touched(cmd)
    ensures Advances(db, db1, id)
  {
    hide Books, Boundary;
    forall slot: Slot ensures SameHold(db, db1, HoldKey(id, slot)) {}
  }

  lemma SubmittedAdvances(db: Db, s: Submission, clk: Clock)
    requires ExecuteSubmit(db, s, clk).Success?
    ensures ResId(s.organisation, s.key) !in db.reservations
  {
    hide Fill, IsMember;
  }

  lemma ResubmittedAdvances(db: Db, s: Submission, prior: ResId, clk: Clock, id: ResId)
    requires ExecuteResubmit(db, s, prior, clk).Success?
    requires id in db.reservations && id in Touched(Resubmit(s, prior))
    ensures Advances(db, ExecuteResubmit(db, s, prior, clk).value.0, id)
  {
    hide Fill, ExecuteResubmit, LaterVersion, Collides, Releases, HeldSlots;
    ResubmitGuards(db, s, prior, clk);
    FillMoves(Replaced(db, s, prior), s, Releases(db, prior, HeldSlots(db, prior), AllHolds(ResubmitReason(db, s, prior)), s.key, s.actor),
              ResubmitStep, clk);
  }

  lemma FillMoves(db: Db, s: Submission, releases: seq<Entry>, step: Step, clk: Clock)
    requires ResId(s.organisation, s.key) in db.reservations && Fill(db, s, releases, step, clk).Success?
    ensures OnlyLedgerMoved(db, Fill(db, s, releases, step, clk).value.0)
  {
    hide ApplicablePolicies, WriteAll, Reserves, InPolicyOrder;
  }

  lemma CommittedAdvances(db: Db, cmd: Command, clk: Clock)
    requires cmd.Commit? && ExecuteCommit(db, cmd, clk).Success?
    ensures cmd.reservation in db.reservations && Advances(db, ExecuteCommit(db, cmd, clk).value.0, cmd.reservation)
  {
    hide ApplicablePolicies, WriteAll, Commits, ReadyToCommit;
  }

  lemma ClosedAdvances(db: Db, cmd: Command, clk: Clock)
    requires (cmd.Release? || cmd.Expire?) && Execute(db, cmd, clk).Success?
    ensures cmd.reservation in db.reservations && Advances(db, Execute(db, cmd, clk).value.0, cmd.reservation)
  {
    hide WriteAll, Releases, HeldSlots, InPolicyOrder;
  }

  lemma RolledAdvances(db: Db, roll: Command, clk: Clock)
    requires roll.Rollover? && Execute(db, roll, clk).Success?
    ensures roll.reservation in db.reservations && Advances(db, Execute(db, roll, clk).value.0, roll.reservation)
  {
    hide WriteAll, RolloverReleases, RolloverReserves, ApplicablePolicies;
    assert Execute(db, roll, clk) == ExecuteRollover(db, roll.organisation, roll.reservation, roll.key, roll.actor, clk);
    var id := roll.reservation;
    var r := db.reservations[id];
    ApplicableListing(db, r, clk.now);
    HeldListing(db, id);
    var policies := ApplicablePolicies(db, r, clk.now).value;
    var releases := RolloverReleases(db, id, policies, roll.key, roll.actor, clk);
    var reserves := RolloverReserves(db, id, policies, r.amount, roll.key, roll.actor, clk);
    if releases == [] && reserves == [] {
      NothingWritten(db, clk);
    }
  }

  lemma NothingWritten(db: Db, clk: Clock)
    ensures WriteAll(db, InPolicyOrder([], []), clk) == Success(db)
  {
    assert InOrder(BudgetsOf([]) + BudgetsOf([])) == [] by {
      assert BudgetsOf([]) == {};
    }
  }

  lemma CommandAdvances(db: Db, cmd: Command, clk: Clock, id: ResId)
    requires Fresh(db, cmd, clk) && Execute(db, cmd, clk).Success? && id in db.reservations
    ensures Advances(db, Execute(db, cmd, clk).value.0, id)
  {
    hide Inv, ArgumentsOk, ExecuteSubmit, ExecuteResubmit, ExecuteCommit, ExecuteClose, ExecuteRollover, Advances, Kept;
    if id !in Touched(cmd) {
      ExecuteKeeps(db, cmd, clk);
      UntouchedAdvances(db, Execute(db, cmd, clk).value.0, cmd, id);
    } else {
      match cmd
      case Submit(s) => SubmittedAdvances(db, s, clk);
      case Resubmit(s, prior) => ResubmittedAdvances(db, s, prior, clk, id);
      case Commit(_, _, _, _, _, _, _, _, _, _) => CommittedAdvances(db, cmd, clk);
      case Release(_, _, _, _, _) => ClosedAdvances(db, cmd, clk);
      case Expire(_, _, _, _) => ClosedAdvances(db, cmd, clk);
      case Rollover(_, _, _, _) => RolledAdvances(db, cmd, clk);
    }
  }

  lemma StepAdvances(db: Db, event: Event, id: ResId)
    requires Inv(db) && (event.Do? ==> CalendarOk(event.clk)) && id in db.reservations
    ensures Advances(db, StepDb(db, event), id)
  {
    hide Inv, Execute, ArgumentsOk, CalendarOk, PolicyOk;
    if event.Do? {
      var cmd, clk := event.cmd, event.clk;
      if ArgumentsOk(cmd, clk.now) && cmd.IdempotencyKey() !in db.commands && Execute(db, cmd, clk).Success? {
        CommandAdvances(db, cmd, clk, id);
        AdvancesReads(db, Execute(db, cmd, clk).value.0, StepDb(db, event), id);
      }
    }
  }

  lemma AdvancesReads(a: Db, b: Db, c: Db, id: ResId)
    requires id in a.reservations && Advances(a, b, id) && c.reservations == b.reservations && c.holds == b.holds
    ensures Advances(a, c, id)
  {
    if HoldsSame(a, b, id) {
      forall slot: Slot ensures SameHold(a, c, HoldKey(id, slot)) {
        assert SameHold(a, b, HoldKey(id, slot));
      }
    }
  }

  lemma AdvancesOn(a: Db, b: Db, c: Db, id: ResId)
    requires id in a.reservations && Advances(a, b, id) && Advances(b, c, id)
    ensures Advances(a, c, id)
  {
    if HoldsSame(a, b, id) && HoldsSame(b, c, id) {
      forall slot: Slot ensures SameHold(a, c, HoldKey(id, slot)) {
        assert SameHold(a, b, HoldKey(id, slot)) && SameHold(b, c, HoldKey(id, slot));
      }
    }
  }

  /** Over any further run: closed stays closed, and an unchanged hold revision means unchanged holds. */
  lemma {:induction false} HoldRevisionTells(db: Db, events: seq<Event>, id: ResId)
    requires Inv(db) && Timely(events) && id in db.reservations
    ensures Advances(db, Play(db, events), id)
    decreases |events|
  {
    hide Inv, StepDb, CalendarOk, Advances;
    if events == [] {
      StillAdvances(db, id);
    } else {
      assert events[0] in events;
      StepAdvances(db, events[0], id);
      StepKeeps(db, events[0]);
      StillThere(db, StepDb(db, events[0]), id);
      HoldRevisionTells(StepDb(db, events[0]), events[1..], id);
      AdvancesOn(db, StepDb(db, events[0]), Play(db, events), id);
    }
  }

  lemma StillAdvances(db: Db, id: ResId)
    requires id in db.reservations
    ensures Advances(db, db, id)
  {
  }

  lemma StillThere(a: Db, b: Db, id: ResId)
    requires id in a.reservations && Advances(a, b, id)
    ensures id in b.reservations
  {
  }

  /**
   A commit applied with a hold revision converts exactly the holds that existed
   when that revision was current, however much happened in between.
   */
  lemma CommitConvertsThoseHolds(db: Db, events: seq<Event>, cmd: Command, clk: Clock)
    requires Inv(db) && Timely(events) && CalendarOk(clk)
    requires cmd.Commit? && cmd.reservation in db.reservations && db.reservations[cmd.reservation].holdRevision == cmd.holdRevision
    requires Run(Play(db, events), cmd, clk).1.AppliedNow?
    ensures var after := Run(Play(db, events), cmd, clk).0;
            forall slot: Slot ::
              && CommittedBy(after, cmd.reservation, slot) == ReservedBy(db, cmd.reservation, slot)
              && ReservedBy(after, cmd.reservation, slot) == 0
  {
    hide Books, Boundary, ApplicablePolicies, ReadyToCommit, WriteAll, Commits, ExecuteCommit, CommittedAs, Appended, OthersKept,
         ArgumentsOk, HeldSlots, Advances;
    var id, end := cmd.reservation, Play(db, events);
    PlayKeeps(db, events);
    HoldRevisionTells(db, events, id);
    var policies := CommitGuards(end, cmd, clk);
    CommitMatches(end, cmd, clk);
    SameRevisionSameHolds(db, end, id);
    var done := CommitEffect(end, id, policies, cmd.reference, cmd.key, cmd.actor, clk);
    CommitIs(end, cmd, clk, policies, done);
    CommitLeavesNothing(end, done, id, policies, clk);
    var after := Run(end, cmd, clk).0;
    forall slot: Slot
      ensures CommittedBy(after, id, slot) == ReservedBy(db, id, slot) && ReservedBy(after, id, slot) == 0
    {
      assert CommittedBy(done, id, slot) == ReservedBy(end, id, slot) && ReservedBy(done, id, slot) == 0;
      assert SameHold(db, end, HoldKey(id, slot));
    }
  }

  lemma SameRevisionSameHolds(a: Db, b: Db, id: ResId)
    requires id in a.reservations && Advances(a, b, id) && id in b.reservations && b.reservations[id].status == Active
    requires a.reservations[id].holdRevision == b.reservations[id].holdRevision
    ensures HoldsSame(a, b, id)
  {
  }

  // ----- One effect per key -----

  /** The run without the commands that changed nothing. */
  function AppliedOnly(db: Db, events: seq<Event>): seq<Event>
    decreases |events|
  {
    if events == [] then
      []
    else
      var rest := AppliedOnly(StepDb(db, events[0]), events[1..]);
      if events[0].Do? && !Run(db, events[0].cmd, events[0].clk).1.AppliedNow? then rest else [events[0]] + rest
  }

  function Keys(events: seq<Event>): seq<Id>
    decreases |events|
  {
    if events == [] then [] else (if events[0].Do? then [events[0].cmd.IdempotencyKey()] else []) + Keys(events[1..])
  }

  lemma RunRecords(db: Db, cmd: Command, clk: Clock)
    requires Inv(db) && CalendarOk(clk)
    ensures var (db1, answer) := Run(db, cmd, clk);
            if answer.AppliedNow? then
              && cmd.IdempotencyKey() !in db.commands
              && db1.commands == db.commands[cmd.IdempotencyKey() := CommandRecord(cmd, answer.result)]
            else
              db1 == db
  {
    hide Inv, Execute, ArgumentsOk, CalendarOk, Books, Boundary, OthersKept;
    if Run(db, cmd, clk).1.AppliedNow? {
      ExecuteKeeps(db, cmd, clk);
    }
  }

  /** Records are never lost: what a key did, it did for ever. */
  lemma {:induction false} RecordsStay(db: Db, events: seq<Event>, key: Id)
    requires Inv(db) && Timely(events) && key in db.commands
    ensures key in Play(db, events).commands && Play(db, events).commands[key] == db.commands[key]
    decreases |events|
  {
    hide Inv, CalendarOk, Run, PolicyOk;
    if events != [] {
      var event := events[0];
      assert event in events;
      if event.Do? {
        RunRecords(db, event.cmd, event.clk);
      }
      StepKeeps(db, event);
      RecordsStay(StepDb(db, event), events[1..], key);
    }
  }

  /**
   After a command was applied, and whatever ran since, the same request answers
   with the original result, any other request under its key conflicts, and neither changes a table.
   */
  lemma RepeatsAreReplayed(db: Db, cmd: Command, clk: Clock, events: seq<Event>, again: Command, later: Clock)
    requires Inv(db) && CalendarOk(clk) && Timely(events) && Run(db, cmd, clk).1.AppliedNow?
    requires again.IdempotencyKey() == cmd.IdempotencyKey()
    ensures var end := Play(Run(db, cmd, clk).0, events);
            Run(end, again, later) ==
            (end,
             if !ArgumentsOk(again, later.now) then Threw
             else if again == cmd then Replayed(Run(db, cmd, clk).1.result)
             else Conflict)
  {
    hide Inv, CalendarOk, ArgumentsOk, Execute, Play;
    RunRecords(db, cmd, clk);
    RunKeeps(db, cmd, clk);
    RecordsStay(Run(db, cmd, clk).0, events, cmd.IdempotencyKey());
  }

  /**
   A run ends where the run of its applied commands alone ends, and there no key
   occurs twice: each key takes effect at most once.
   */
  lemma {:induction false} RetriesAreInvisible(db: Db, events: seq<Event>)
    requires Inv(db) && Timely(events)
    ensures Play(db, AppliedOnly(db, events)) == Play(db, events)
    ensures Distinct(Keys(AppliedOnly(db, events)))
    ensures forall key :: key in Keys(AppliedOnly(db, events)) ==> key !in db.commands && key in Play(db, events).commands
    decreases |events|
  {
    hide Inv, CalendarOk, Run, PolicyOk;
    if events != [] {
      var event, rest := events[0], events[1..];
      assert event in events;
      if event.Do? {
        RunRecords(db, event.cmd, event.clk);
      }
      StepKeeps(db, event);
      var db1 := StepDb(db, event);
      RetriesAreInvisible(db1, rest);
      if !event.Do? || Run(db, event.cmd, event.clk).1.AppliedNow? {
        assert ([event] + AppliedOnly(db1, rest))[1..] == AppliedOnly(db1, rest);
        if event.Do? {
          RecordsStay(db1, rest, event.cmd.IdempotencyKey());
        }
      }
    }
  }

  // ----- The ledger's past and the composed mutations -----

  ghost predicate LedgerGrows(a: Db, b: Db) {
    && (forall k :: k in a.entries ==> k in b.entries && b.entries[k] == a.entries[k])
    && (forall k :: k in b.entries && k !in a.entries ==> k.command in b.commands && k.command !in a.commands)
    && (forall key :: key in a.commands ==> key in b.commands)
  }

  lemma StepGrows(db: Db, event: Event)
    requires Inv(db) && (event.Do? ==> CalendarOk(event.clk))
    ensures LedgerGrows(db, StepDb(db, event))
  {
    hide Inv, Execute, ArgumentsOk, CalendarOk, PolicyOk, Books, Boundary, OthersKept;
    if event.Do? && Run(db, event.cmd, event.clk).1.AppliedNow? {
      ExecuteKeeps(db, event.cmd, event.clk);
    }
  }

  /** Entries are never rewritten, and every new entry belongs to a command applied since. */
  lemma {:induction false} LedgerIsAppendOnly(db: Db, events: seq<Event>)
    requires Inv(db) && Timely(events)
    ensures LedgerGrows(db, Play(db, events))
    decreases |events|
  {
    hide Inv, StepDb, CalendarOk;
    if events != [] {
      assert events[0] in events;
      StepGrows(db, events[0]);
      StepKeeps(db, events[0]);
      LedgerIsAppendOnly(StepDb(db, events[0]), events[1..]);
    }
  }

  /** The composed mutation of a commit was written once if the commit was applied, and never otherwise. */
  ghost predicate MutationsExact(db: Db) {
    && Distinct(db.mutations)
    && forall key :: key in db.mutations <==>
         key in db.commands && db.commands[key].request.Commit? && db.commands[key].request.withMutation
  }

  lemma ExecuteMutates(db: Db, cmd: Command, clk: Clock)
    requires Execute(db, cmd, clk).Success?
    ensures Execute(db, cmd, clk).value.0.mutations
         == if cmd.Commit? && cmd.withMutation then db.mutations + [cmd.key] else db.mutations
  {
    hide WriteAll, Commits, ApplicablePolicies, ReadyToCommit, Releases, HeldSlots, InPolicyOrder, Fill, RolloverReleases, RolloverReserves;
    match cmd
    case Submit(s) => FillMoves(InsertReservation(db, s, None, clk.now).value, s, [], SubmitStep, clk);
    case Resubmit(s, prior) =>
      ResubmitGuards(db, s, prior, clk);
      FillMoves(Replaced(db, s, prior), s, Releases(db, prior, HeldSlots(db, prior), AllHolds(ResubmitReason(db, s, prior)), s.key, s.actor),
                ResubmitStep, clk);
    case _ =>
  }

  lemma StepMutates(db: Db, event: Event)
    requires Inv(db) && MutationsExact(db) && (event.Do? ==> CalendarOk(event.clk))
    ensures MutationsExact(StepDb(db, event))
  {
    hide Inv, Execute, ArgumentsOk, CalendarOk, PolicyOk;
    if event.Do? {
      RunRecords(db, event.cmd, event.clk);
      if Run(db, event.cmd, event.clk).1.AppliedNow? {
        ExecuteMutates(db, event.cmd, event.clk);
      }
    }
  }

  lemma {:induction false} MutationsWrittenOnce(db: Db, events: seq<Event>)
    requires Inv(db) && MutationsExact(db) && Timely(events)
    ensures MutationsExact(Play(db, events))
    decreases |events|
  {
    hide Inv, StepDb, CalendarOk, MutationsExact;
    if events != [] {
      assert events[0] in events;
      StepMutates(db, events[0]);
      StepKeeps(db, events[0]);
      MutationsWrittenOnce(StepDb(db, events[0]), events[1..]);
    }
  }
}
