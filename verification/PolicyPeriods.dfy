/** While time zones and effective intervals stay, stored balance periods are current periods, over whole runs. */
module PolicyPeriods {
  import opened Wrappers
  import opened SpendTypes
  import opened SpendLedger
  import opened SpendCommands
  import opened SpendBooks
  import opened SpendInvariants
  import opened SpendRuns
  import opened SpendWrites
  import opened BuyerPolicy
  import opened PolicyLedger

  /** A calendar divides time, in every zone, into periods. */
  ghost predicate Partition(cal: (Id, Instant) -> Period) {
    && (forall zone, t :: cal(zone, t).startsAt <= t < cal(zone, t).endsAt)
    && (forall zone, t, u :: cal(zone, t).startsAt <= u < cal(zone, t).endsAt ==> cal(zone, u) == cal(zone, t))
  }

  /** The row is for a period of its budget, as the budget defines periods now. */
  predicate RowTrue(db: Db, cal: (Id, Instant) -> Period, slot: Slot)
    requires slot in db.balances
  {
    && slot.policy in db.policies
    && var p := db.policies[slot.policy];
       if p.scope.AgreementScope? then
         p.until.Some? && slot.period == p.from && db.balances[slot].endsAt == p.until.value
       else
         cal(p.timezone, slot.period) == Period(slot.period, db.balances[slot].endsAt)
  }

  predicate RowsTrue(db: Db, cal: (Id, Instant) -> Period) {
    forall slot :: slot in db.balances ==> RowTrue(db, cal, slot)
  }

  lemma EntryKeepsRows(db: Db, e: Entry, clk: Clock)
    requires Partition(clk.month) && RowsTrue(db, clk.month) && ApplyEntry(db, e, clk).Success?
    requires e.policy in db.policies ==> PolicyOk(db.policies[e.policy])
    ensures RowsTrue(ApplyEntry(db, e, clk).value, clk.month)
  {
    var rows := Judge(db, e, clk).value;
    var after := ApplyEntry(db, e, clk).value;
    forall slot | slot in after.balances ensures RowTrue(after, clk.month, slot) {
      if slot in db.balances {
        assert RowTrue(db, clk.month, slot);
      }
    }
  }

  lemma {:induction false} EntriesKeepRows(db: Db, es: seq<Entry>, clk: Clock)
    requires Partition(clk.month) && RowsTrue(db, clk.month) && ApplyAll(db, es, clk).Success?
    requires forall p :: p in db.policies ==> PolicyOk(db.policies[p])
    ensures RowsTrue(ApplyAll(db, es, clk).value, clk.month)
    decreases |es|
  {
    hide Partition, PolicyOk, ApplyEntry, RowsTrue;
    if es != [] {
      EntryKeepsRows(db, es[0], clk);
      EntriesKeepRows(ApplyEntry(db, es[0], clk).value, es[1..], clk);
    }
  }

  lemma CommandKeepsRows(db: Db, cmd: Command, clk: Clock)
    requires Partition(clk.month) && RowsTrue(db, clk.month) && Execute(db, cmd, clk).Success?
    requires forall p :: p in db.policies ==> PolicyOk(db.policies[p])
    requires Execute(db, cmd, clk).value.0.policies == db.policies
    ensures RowsTrue(Execute(db, cmd, clk).value.0, clk.month)
  {
    hide Partition, PolicyOk, Execute, Writes;
    WritesAreWritten(db, cmd, clk);
    BaseRows(db, cmd, clk.month);
    EntriesKeepRows(Base(db, cmd), Writes(db, cmd, clk), clk);
    RowsRead(ApplyAll(Base(db, cmd), Writes(db, cmd, clk), clk).value, Execute(db, cmd, clk).value.0, clk.month);
  }

  lemma BaseRows(db: Db, cmd: Command, cal: (Id, Instant) -> Period)
    requires RowsTrue(db, cal)
    ensures Base(db, cmd).policies == db.policies && RowsTrue(Base(db, cmd), cal)
  {
    assert Base(db, cmd).policies == db.policies && Base(db, cmd).balances == db.balances;
    RowsRead(db, Base(db, cmd), cal);
  }

  lemma RowsRead(a: Db, b: Db, cal: (Id, Instant) -> Period)
    requires RowsTrue(a, cal) && b.balances == a.balances && SamePeriods(a.policies, b.policies)
    ensures RowsTrue(b, cal)
  {
    forall slot | slot in b.balances ensures RowTrue(b, cal, slot) {
      assert RowTrue(a, cal, slot);
    }
  }

  /** Commands read the one calendar, and edits leave time zones and effective intervals alone. */
  ghost predicate SteadyStep(db: Db, event: Event, cal: (Id, Instant) -> Period) {
    match event
    case Do(_, clk) => clk.month == cal
    case EditPolicy(id, edit) =>
      id in db.policies ==>
        var p := db.policies[id]; edit.timezone == p.timezone && edit.from == p.from && edit.until == p.until
    case _ => true
  }

  ghost predicate Steady(db: Db, events: seq<Event>, cal: (Id, Instant) -> Period)
    decreases |events|
  {
    events != [] ==> SteadyStep(db, events[0], cal) && Steady(StepDb(db, events[0]), events[1..], cal)
  }

  lemma RunKeepsRows(db: Db, cmd: Command, clk: Clock)
    requires Inv(db) && Partition(clk.month) && RowsTrue(db, clk.month)
    ensures RowsTrue(Run(db, cmd, clk).0, clk.month)
  {
    hide Books, Execute, ArgumentsOk, RowsTrue, Settled, OneActive, Lineage, Partition, PolicyOk;
    if Run(db, cmd, clk).1.AppliedNow? {
      InMonth(clk);
      ExecuteKeeps(db, cmd, clk);
      CommandKeepsRows(db, cmd, clk);
      RowsRead(Execute(db, cmd, clk).value.0, Run(db, cmd, clk).0, clk.month);
    }
  }

  /** Every budget stays, and keeps what defines its periods. */
  predicate SamePeriods(ps: map<PolicyId, Policy>, qs: map<PolicyId, Policy>) {
    forall p :: p in ps ==>
      p in qs && qs[p].scope == ps[p].scope && qs[p].timezone == ps[p].timezone && qs[p].from == ps[p].from && qs[p].until == ps[p].until
  }

  lemma EnvironmentKeepsPeriods(db: Db, event: Event, cal: (Id, Instant) -> Period)
    requires !event.Do? && SteadyStep(db, event, cal)
    ensures StepDb(db, event).balances == db.balances && SamePeriods(db.policies, StepDb(db, event).policies)
  {
    hide PolicyOk, Run, Edited;
    if event.EditPolicy? && event.id in db.policies {
      EditKeepsPeriod(db.policies[event.id], event.edit);
    }
  }

  lemma EditKeepsPeriod(p: Policy, edit: Edit)
    requires edit.timezone == p.timezone && edit.from == p.from && edit.until == p.until
    ensures var q := Edited(p, edit);
            q.scope == p.scope && q.timezone == p.timezone && q.from == p.from && q.until == p.until
  {
  }

  lemma StepKeepsRows(db: Db, event: Event, cal: (Id, Instant) -> Period)
    requires Inv(db) && Partition(cal) && RowsTrue(db, cal) && SteadyStep(db, event, cal)
    ensures RowsTrue(StepDb(db, event), cal)
  {
    hide Inv, Run, RowsTrue, Partition;
    if event.Do? {
      RunKeepsRows(db, event.cmd, event.clk);
    } else {
      EnvironmentKeepsPeriods(db, event, cal);
      RowsRead(db, StepDb(db, event), cal);
    }
  }

  lemma InMonth(clk: Clock)
    requires Partition(clk.month)
    ensures CalendarOk(clk)
  {
  }

  lemma {:induction false} PlayKeepsRows(db: Db, events: seq<Event>, cal: (Id, Instant) -> Period)
    requires Inv(db) && Partition(cal) && RowsTrue(db, cal) && Steady(db, events, cal)
    ensures Inv(Play(db, events)) && RowsTrue(Play(db, events), cal)
    decreases |events|
  {
    hide Inv, Partition, RowsTrue, StepDb;
    if events != [] {
      if events[0].Do? {
        InMonth(events[0].clk);
      }
      StepKeeps(db, events[0]);
      StepKeepsRows(db, events[0], cal);
      PlayKeepsRows(StepDb(db, events[0]), events[1..], cal);
    }
  }

  lemma TrueRowsAlign(db: Db, r: Reservation, clk: Clock)
    requires Partition(clk.month) && RowsTrue(db, clk.month)
    ensures AllAligned(db, r, clk)
  {
    forall id | id in db.policies && Applies(db.policies[id], r, clk.now) ensures Aligned(db, id, clk) {
      forall slot | slot in db.balances && slot.policy == id
        ensures slot.period <= clk.now < db.balances[slot].endsAt <==> slot == CurrentSlot(db, id, clk)
      {
        assert RowTrue(db, clk.month, slot);
        assert slot == Slot(slot.policy, slot.period);
      }
    }
  }

  /**
   While budgets keep their time zones and effective intervals, every reachable
   state aligns the stored periods: the policy's budget check and the ledger agree.
   */
  lemma SteadyRunsAlign(events: seq<Event>, r: Reservation, clk: Clock)
    requires Partition(clk.month) && Steady(EMPTY, events, clk.month)
    ensures Inv(Play(EMPTY, events)) && AllAligned(Play(EMPTY, events), r, clk)
  {
    EmptyHolds();
    PlayKeepsRows(EMPTY, events, clk.month);
    TrueRowsAlign(Play(EMPTY, events), r, clk);
  }

  /** In every state such a run reaches, the policy foresees what becomes of a submission. */
  lemma SteadyRunsForesee(events: seq<Event>, f: Facts, tx: Transaction, s: Submission, clk: Clock)
    requires Partition(clk.month) && Steady(EMPTY, events, clk.month)
    requires AsksAbout(f, tx, Play(EMPTY, events), NewReservation(s, None), clk) && f.reservation == None
    requires ArgumentsOk(Submit(s), clk.now) && s.key !in Play(EMPTY, events).commands
    ensures Run(Play(EMPTY, events), Submit(s), clk).1 == Foreseen(f, tx, Play(EMPTY, events), s, clk)
  {
    hide Inv, AsksAbout, AllAligned, Run, Foreseen, ArgumentsOk, Partition, Steady, Play;
    SteadyRunsAlign(events, NewReservation(s, None), clk);
    InMonth(clk);
    PolicyForeseesSubmission(f, tx, Play(EMPTY, events), s, clk);
  }
}
