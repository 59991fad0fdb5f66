/** What every run of commercial commands keeps. */
module CommercialRuns {
  import opened Wrappers
  import opened Commercial

  // ----- Invariants -----

  /** An ISSUED quotation's RFQ is QUOTED; every quotation belongs to an RFQ of its own context. */
  ghost predicate FamilyOk(db: Db, id: Id)
    requires id in db.resources && db.resources[id].AQuotation?
  {
    var q := db.resources[id].quotation;
    && q.rfq in db.resources && db.resources[q.rfq].AnRfq? && q.context == db.resources[q.rfq].rfq.context
    && q.status in {Issued, Rejected, Withdrawn, Expired}
    && (q.status == Issued ==> db.resources[q.rfq].rfq.status == Quoted)
  }

  predicate IssuedIn(db: Db, id: Id, parent: Id) {
    id in db.resources && IsIssued(db.resources[id], parent)
  }

  ghost predicate OneIssued(db: Db) {
    forall i, j, parent :: IssuedIn(db, i, parent) && IssuedIn(db, j, parent) ==> i == j
  }

  /** How many history rows a resource has. */
  function Changes(events: seq<Event>, id: Id): nat
    decreases |events|
  {
    if events == [] then 0 else Changes(events[..|events| - 1], id) + if events[|events| - 1].id == id then 1 else 0
  }

  /** Each version is one history row. */
  ghost predicate HistoryOk(db: Db) {
    && (forall id :: id in db.resources ==> db.resources[id].Version() == Changes(db.events, id) && db.resources[id].Version() >= 1)
    && (forall id :: id !in db.resources ==> Changes(db.events, id) == 0)
  }

  ghost predicate ClockOk(db: Db, clock: Instant) {
    forall id :: id in db.resources ==> db.resources[id].UpdatedAt() <= clock
  }

  ghost predicate Inv(db: Db, clock: Instant) {
    && (forall id :: id in db.resources && db.resources[id].AQuotation? ==> FamilyOk(db, id))
    && OneIssued(db) && HistoryOk(db) && ClockOk(db, clock)
  }

  // ----- Writes -----

  lemma WriteHistory(db: Db, id: Id, r: Resource, at: Instant)
    requires HistoryOk(db) && r.Version() == (if id in db.resources then db.resources[id].Version() + 1 else 1)
    ensures HistoryOk(Write(db, id, r, at))
  {
    var after := Write(db, id, r, at);
    assert after.events[..|after.events| - 1] == db.events;
  }

  /** An RFQ without ISSUED quotations may move anywhere. */
  lemma RfqWriteKeeps(db: Db, id: Id, r: Resource, at: Instant, clock: Instant)
    requires Inv(db, clock) && clock <= at && r.AnRfq?
    requires r.Version() == (if id in db.resources then db.resources[id].Version() + 1 else 1)
    requires if id in db.resources then db.resources[id].AnRfq? && r.rfq.context == db.resources[id].rfq.context && !HasIssued(db, id)
             else true
    ensures Inv(Write(db, id, r, at), at)
  {
    var after := Write(db, id, r, at);
    WriteHistory(db, id, r, at);
    forall i | i in after.resources && after.resources[i].AQuotation? ensures FamilyOk(after, i) {
      assert FamilyOk(db, i);
      assert id in db.resources ==> !IsIssued(db.resources[i], id);
    }
    StillOneIssued(db, after);
  }

  lemma StillOneIssued(db: Db, after: Db)
    requires OneIssued(db) && forall i, parent :: IssuedIn(after, i, parent) ==> IssuedIn(db, i, parent)
    ensures OneIssued(after)
  {
  }

  /** A quotation that closes. */
  lemma QuoteCloses(db: Db, id: Id, r: Resource, at: Instant, clock: Instant)
    requires Inv(db, clock) && clock <= at && id in db.resources && db.resources[id].AQuotation? && r.AQuotation?
    requires r.Version() == db.resources[id].Version() + 1 && r.quotation.status in {Rejected, Withdrawn, Expired}
    requires r.quotation.rfq == db.resources[id].quotation.rfq && r.quotation.context == db.resources[id].quotation.context
    ensures Inv(Write(db, id, r, at), at)
  {
    var after := Write(db, id, r, at);
    WriteHistory(db, id, r, at);
    assert FamilyOk(db, id);
    forall i | i in after.resources && after.resources[i].AQuotation? ensures FamilyOk(after, i) {
      assert FamilyOk(db, i);
    }
    StillOneIssued(db, after);
  }

  /** A quotation is inserted and its RFQ becomes QUOTED. */
  lemma IssueKeeps(db: Db, id: Id, rfq: Resource, quoteId: Id, quote: Resource, first: Instant, second: Instant, clock: Instant)
    requires Inv(db, clock) && clock <= first <= second
    requires MayInsert(db, quoteId, quote, first) && quote.AQuotation? && quote.quotation.rfq == id
    requires rfq.AnRfq? && rfq.rfq.status == Quoted && id in db.resources && db.resources[id].AnRfq?
    requires rfq.rfq.context == db.resources[id].rfq.context && rfq.Version() == db.resources[id].Version() + 1
    ensures Inv(Write(Write(db, quoteId, quote, first), id, rfq, second), second)
  {
    var mid := Write(db, quoteId, quote, first);
    var after := Write(mid, id, rfq, second);
    WriteHistory(db, quoteId, quote, first);
    WriteHistory(mid, id, rfq, second);
    forall i | i in after.resources && after.resources[i].AQuotation? ensures FamilyOk(after, i) {
      if i != quoteId {
        assert FamilyOk(db, i);
      }
    }
    forall i, j, parent | IssuedIn(after, i, parent) && IssuedIn(after, j, parent) ensures i == j {
      NoneIssued(db, id, i);
      NoneIssued(db, id, j);
      assert IssuedIn(db, i, parent) || i == quoteId;
      assert IssuedIn(db, j, parent) || j == quoteId;
    }
  }

  /** No other quotation of an RFQ that may receive one is ISSUED. */
  lemma NoneIssued(db: Db, id: Id, i: Id)
    requires !HasOpen(db, id)
    ensures !IssuedIn(db, i, id)
  {
    assert i in db.resources ==> !OpenQuote(db.resources[i], id);
  }

  // ----- The cascade -----

  /** At most one child can be ISSUED. */
  lemma OneChild(db: Db, id: Id, clock: Instant)
    requires Inv(db, clock)
    ensures |IssuedChildren(db, id)| <= 1
  {
    var ids := IssuedChildren(db, id);
    assert forall i :: 0 <= i < |ids| ==> ids[i] in ids && IssuedIn(db, ids[i], id);
  }

  /** The child's validity runs out between the command's reading of the clock and its write. */
  predicate Straddles(q: Quotation, m: Moment) {
    m.now < q.validUntil <= m.write(0)
  }

  /** The program's own transition never refuses a cascaded child; only the guard's later clock may. */
  lemma ChildCascades(db: Db, child: Id, parent: Id, m: Moment, clock: Instant)
    requires Inv(db, clock) && clock <= m.now && Ticking(m) && child in db.resources && IsIssued(db.resources[child], parent)
    ensures var q := db.resources[child].quotation;
            var closed := TransitionQuotation(q, CascadeStatus(q, m.now), q.version, m.now);
            && closed.Success?
            && Update(db, child, AQuotation(closed.value), m.write(0))
               == if Straddles(q, m) then Failure(Raised) else Success(Write(db, child, AQuotation(closed.value), m.write(0)))
  {
  }

  // ----- Commands -----

  lemma TicksOn(m: Moment, i: nat)
    requires Ticking(m)
    ensures m.now <= m.write(i)
  {
    if i > 0 {
      TicksOn(m, i - 1);
    }
  }

  lemma CreateKeeps(db: Db, cmd: Command, m: Moment, clock: Instant)
    requires Inv(db, clock) && clock <= m.now && Ticking(m) && ApplyCreate(db, cmd, m).Success?
    ensures Inv(ApplyCreate(db, cmd, m).value.0, m.write(0))
  {
    hide Inv, UniqueIds;
    RfqWriteKeeps(db, m.newId, AnRfq(CreateRfq(cmd.payload, cmd.scope, m.now).value), m.write(0), clock);
  }

  /** Issuing moves both: the quotation is ISSUED at version 1 and its RFQ is QUOTED, or nothing changes. */
  lemma IssueMovesBoth(db: Db, cmd: Command, id: Id, m: Moment, clock: Instant)
    requires Inv(db, clock) && clock <= m.now && Ticking(m) && id in db.resources
    requires ApplyIssue(db, cmd, id, db.resources[id], m).Success?
    ensures var after := ApplyIssue(db, cmd, id, db.resources[id], m).value.0;
            && Inv(after, m.write(1)) && m.newId !in db.resources
            && IssuedIn(after, m.newId, id) && after.resources[m.newId].Version() == 1
            && after.resources[id].AnRfq? && after.resources[id].rfq.status == Quoted
            && after.resources[id].Version() == db.resources[id].Version() + 1
            && (forall i :: i in db.resources && i != id ==> i in after.resources && after.resources[i] == db.resources[i])
  {
    hide Inv, HasOpen, HasIssued, HasBlocking;
    var r := db.resources[id];
    var quote := IssueQuotation(cmd.payload, id, r.rfq, m.now).value;
    var quoted := TransitionRfq(r.rfq, Quoted, r.rfq.version, m.now).value;
    IssueKeeps(db, id, AnRfq(quoted), m.newId, AQuotation(quote), m.write(0), m.write(1), clock);
  }

  lemma QuoteKeeps(db: Db, id: Id, next: QuoteStatus, m: Moment, clock: Instant)
    requires Inv(db, clock) && clock <= m.now && Ticking(m) && id in db.resources
    requires ApplyQuote(db, id, db.resources[id], next, m).Success?
    ensures Inv(ApplyQuote(db, id, db.resources[id], next, m).value.0, m.write(0))
  {
    hide Inv, HasIssued, HasBlocking;
    var moved := TransitionQuotation(db.resources[id].quotation, next, db.resources[id].quotation.version, m.now).value;
    QuoteCloses(db, id, AQuotation(moved), m.write(0), clock);
  }

  /** Quotations are never ACCEPTED here, so only an ISSUED one blocks its RFQ. */
  lemma OnlyIssuedBlocks(db: Db, id: Id, clock: Instant)
    requires Inv(db, clock)
    ensures HasBlocking(db, id) <==> HasIssued(db, id)
  {
    forall i | i in db.resources ensures BlocksParent(db.resources[i], id) <==> IsIssued(db.resources[i], id) {
      assert db.resources[i].AQuotation? ==> FamilyOk(db, i);
    }
  }

  lemma IssuedParentQuoted(db: Db, id: Id, clock: Instant)
    requires Inv(db, clock) && HasIssued(db, id)
    ensures id in db.resources && db.resources[id].AnRfq? && db.resources[id].rfq.status == Quoted
  {
    var i :| i in db.resources && IsIssued(db.resources[i], id);
    assert FamilyOk(db, i);
  }

  /** Without ISSUED quotations the RFQ moves exactly as its transitions allow. */
  lemma ChildlessMoves(db: Db, id: Id, next: RfqStatus, m: Moment, at: Instant, clock: Instant)
    requires Inv(db, clock) && clock <= at && id in db.resources && db.resources[id].AnRfq? && next != Quoted && !HasIssued(db, id)
    requires RfqMoves(db.resources[id].rfq.status, next) && db.resources[id].rfq.updatedAt <= m.now
    ensures var moved := TransitionRfq(db.resources[id].rfq, next, db.resources[id].rfq.version, m.now);
            && moved.Success?
            && Update(db, id, AnRfq(moved.value), at) == Success(Write(db, id, AnRfq(moved.value), at))
            && Inv(Write(db, id, AnRfq(moved.value), at), at)
            && !HasIssued(Write(db, id, AnRfq(moved.value), at), id)
  {
    hide Inv;
    var moved := TransitionRfq(db.resources[id].rfq, next, db.resources[id].rfq.version, m.now).value;
    OnlyIssuedBlocks(db, id, clock);
    RfqWriteKeeps(db, id, AnRfq(moved), at, clock);
  }

  /** After the one ISSUED quotation of an RFQ is closed there is none. */
  lemma LastClosed(db: Db, id: Id, child: Id, closed: Resource, at: Instant, clock: Instant)
    requires Inv(db, clock) && IssuedIn(db, child, id) && closed.AQuotation? && closed.quotation.status != Issued
    ensures !HasIssued(Write(db, child, closed, at), id)
  {
    var after := Write(db, child, closed, at);
    forall i | i in after.resources ensures !IsIssued(after.resources[i], id) {
      if i != child {
        assert IssuedIn(db, i, id) ==> i == child;
      }
    }
  }

  /** Whether the program and the guards let an RFQ move. */
  ghost predicate MayMove(db: Db, id: Id, next: RfqStatus, m: Moment)
    requires id in db.resources && db.resources[id].AnRfq?
  {
    && RfqMoves(db.resources[id].rfq.status, next)
    && (next in {UnderReview, Closed} ==> !HasIssued(db, id))
    && (Cascades(next) ==> forall child :: IssuedIn(db, child, id) ==> !Straddles(db.resources[child].quotation, m))
  }

  /** What an applied move leaves: the RFQ moved by one version, its ISSUED quotation closed if it had one, nothing else touched. */
  ghost predicate MovedTo(db: Db, after: Db, id: Id, next: RfqStatus, m: Moment)
    requires id in db.resources && db.resources[id].AnRfq?
  {
    && id in after.resources && after.resources[id].AnRfq? && after.resources[id].rfq.status == next
    && after.resources[id].Version() == db.resources[id].Version() + 1
    && !HasIssued(after, id)
    && (forall i :: i in db.resources && i != id ==>
          && i in after.resources
          && if IssuedIn(db, i, id) then
               after.resources[i].AQuotation? && after.resources[i].Version() == db.resources[i].Version() + 1
               && after.resources[i].quotation.status == CascadeStatus(db.resources[i].quotation, m.now)
             else
               after.resources[i] == db.resources[i])
  }

  lemma RfqMovesChildless(db: Db, id: Id, next: RfqStatus, m: Moment, clock: Instant)
    requires Inv(db, clock) && clock <= m.now && Ticking(m) && id in db.resources && db.resources[id].AnRfq? && next != Quoted
    requires !HasIssued(db, id)
    ensures var x := ApplyRfq(db, id, db.resources[id], next, m);
            if MayMove(db, id, next, m) then x.Success? && Inv(x.value.0, m.write(0)) && MovedTo(db, x.value.0, id, next, m)
            else x == Failure(Conflict)
  {
    hide Inv, HasIssued, HasBlocking, Update;
    NoChildren(db, id);
    ClockRead(db, id, clock);
    if RfqMoves(db.resources[id].rfq.status, next) {
      ChildlessMoves(db, id, next, m, m.write(0), clock);
    }
  }

  lemma NoChildren(db: Db, id: Id)
    requires !HasIssued(db, id)
    ensures IssuedChildren(db, id) == [] && forall i :: !IssuedIn(db, i, id)
  {
    var ids := IssuedChildren(db, id);
  }

  lemma ClockRead(db: Db, id: Id, clock: Instant)
    requires Inv(db, clock) && id in db.resources
    ensures db.resources[id].UpdatedAt() <= clock
  {
  }

  lemma TheChild(db: Db, id: Id, clock: Instant) returns (child: Id)
    requires Inv(db, clock) && HasIssued(db, id)
    ensures IssuedIn(db, child, id) && IssuedChildren(db, id) == [child] && child != id
    ensures forall i :: IssuedIn(db, i, id) <==> i == child
  {
    OneChild(db, id, clock);
    child :| child in db.resources && IsIssued(db.resources[child], id);
    assert child in IssuedChildren(db, id);
    IssuedParentQuoted(db, id, clock);
    forall i ensures IssuedIn(db, i, id) <==> i == child {}
  }

  lemma RfqMovesWithChild(db: Db, id: Id, next: RfqStatus, m: Moment, clock: Instant)
    requires Inv(db, clock) && clock <= m.now && Ticking(m) && id in db.resources && db.resources[id].AnRfq? && next != Quoted
    requires HasIssued(db, id) && Cascades(next)
    ensures var x := ApplyRfq(db, id, db.resources[id], next, m);
            if MayMove(db, id, next, m) then x.Success? && Inv(x.value.0, m.write(1)) && MovedTo(db, x.value.0, id, next, m)
            else x == Failure(Raised)
  {
    hide Inv, HasIssued, HasBlocking, Update;
    var child := TheChild(db, id, clock);
    IssuedParentQuoted(db, id, clock);
    ClockRead(db, id, clock);
    ChildCascades(db, child, id, m, clock);
    var q := db.resources[child].quotation;
    var closed := TransitionQuotation(q, CascadeStatus(q, m.now), q.version, m.now).value;
    assert [child][1..] == [];
    if !Straddles(q, m) {
      QuoteCloses(db, child, AQuotation(closed), m.write(0), clock);
      LastClosed(db, id, child, AQuotation(closed), m.write(0), clock);
      var db1 := Write(db, child, AQuotation(closed), m.write(0));
      assert Cascade(db1, [], m, 1) == Success(db1);
      assert Cascade(db, [child], m, 0) == Success(db1);
      ChildlessMoves(db1, id, next, m, m.write(1), m.write(0));
    } else {
      assert Cascade(db, [child], m, 0) == Failure(Raised);
    }
  }

  /** A move that the guard refuses because the RFQ still has an ISSUED quotation. */
  lemma RfqStaysWithChild(db: Db, id: Id, next: RfqStatus, m: Moment, clock: Instant)
    requires Inv(db, clock) && clock <= m.now && Ticking(m) && id in db.resources && db.resources[id].AnRfq? && next != Quoted
    requires HasIssued(db, id) && !Cascades(next)
    ensures ApplyRfq(db, id, db.resources[id], next, m).Failure? && !MayMove(db, id, next, m)
  {
    hide Inv, HasIssued, HasBlocking;
    IssuedParentQuoted(db, id, clock);
    OnlyIssuedBlocks(db, id, clock);
  }

  /**
   An RFQ command applies exactly when its transition is allowed, no ISSUED quotation
   stands in its way, and a quotation it cascades to does not run out between the
   command's reading of the clock and the write.
   */
  lemma RfqCommandApplies(db: Db, id: Id, next: RfqStatus, m: Moment, clock: Instant)
    requires Inv(db, clock) && clock <= m.now && Ticking(m) && id in db.resources && db.resources[id].AnRfq? && next != Quoted
    ensures var x := ApplyRfq(db, id, db.resources[id], next, m);
            && (x.Success? <==> MayMove(db, id, next, m))
            && (x.Success? ==> MovedTo(db, x.value.0, id, next, m) && Inv(x.value.0, m.write(1)))
  {
    hide Inv, HasIssued, ApplyRfq, MayMove, MovedTo;
    if !HasIssued(db, id) {
      RfqMovesChildless(db, id, next, m, clock);
      if MayMove(db, id, next, m) {
        Widens(ApplyRfq(db, id, db.resources[id], next, m).value.0, m.write(0), m.write(1));
      }
    } else if Cascades(next) {
      RfqMovesWithChild(db, id, next, m, clock);
    } else {
      RfqStaysWithChild(db, id, next, m, clock);
    }
  }

  lemma Widens(db: Db, clock: Instant, later: Instant)
    requires Inv(db, clock) && clock <= later
    ensures Inv(db, later)
  {
  }

  // ----- Runs -----

  lemma ApplyKeeps(db: Db, cmd: Command, locked: Option<Resource>, m: Moment, clock: Instant)
    requires Inv(db, clock) && clock <= m.now && Ticking(m) && EnvelopeOk(cmd)
    requires locked.Some? ==> cmd.resource.Some? && cmd.resource.value in db.resources && locked.value == db.resources[cmd.resource.value]
    requires Apply(db, cmd, locked, m).Success?
    ensures Inv(Apply(db, cmd, locked, m).value.0, m.write(1))
  {
    hide Inv, ApplyCreate, ApplyIssue, ApplyRfq, ApplyQuote;
    TicksOn(m, 1);
    if cmd.action == RfqCreate {
      CreateKeeps(db, cmd, m, clock);
      Widens(ApplyCreate(db, cmd, m).value.0, m.write(0), m.write(1));
    } else if cmd.action == QuotationIssue {
      IssueMovesBoth(db, cmd, cmd.resource.value, m, clock);
    } else if RfqTarget(cmd.action).Some? {
      if locked.value.AnRfq? {
        RfqCommandApplies(db, cmd.resource.value, RfqTarget(cmd.action).value, m, clock);
      } else {
        NotAnRfq(db, cmd.resource.value, RfqTarget(cmd.action).value, m);
      }
    } else {
      QuoteKeeps(db, cmd.resource.value, QuoteTarget(cmd.action).value, m, clock);
      Widens(ApplyQuote(db, cmd.resource.value, locked.value, QuoteTarget(cmd.action).value, m).value.0, m.write(0), m.write(1));
    }
  }

  lemma NotAnRfq(db: Db, id: Id, next: RfqStatus, m: Moment)
    requires id in db.resources && !db.resources[id].AnRfq?
    ensures ApplyRfq(db, id, db.resources[id], next, m) == Failure(Conflict)
  {
  }

  lemma CommandsUnread(db: Db, commands: map<CommandKey, Record>, clock: Instant)
    requires Inv(db, clock)
    ensures Inv(db.(commands := commands), clock)
  {
    var after := db.(commands := commands);
    forall id | id in after.resources && after.resources[id].AQuotation? ensures FamilyOk(after, id) {
      assert FamilyOk(db, id);
    }
    StillOneIssued(db, after);
  }

  lemma ExecuteKeeps(db: Db, cmd: Command, m: Moment, clock: Instant)
    requires Inv(db, clock) && clock <= m.now && Ticking(m)
    ensures Inv(Execute(db, cmd, m).0, m.write(1))
  {
    hide Inv, Apply, EnvelopeOk;
    TicksOn(m, 1);
    var (after, answer) := Execute(db, cmd, m);
    if answer.AppliedNow? {
      var locked := if cmd.resource.Some? then Lock(db, cmd.scope, cmd.resource.value) else Failure(NotFound);
      var found := if locked.Success? then Some(locked.value) else None;
      ApplyKeeps(db, cmd, found, m, clock);
      CommandsUnread(Apply(db, cmd, found, m).value.0, after.commands, m.write(1));
    } else {
      Widens(db, clock, m.write(1));
    }
  }

  datatype Call = Call(cmd: Command, moment: Moment)

  function Play(db: Db, calls: seq<Call>): Db
    decreases |calls|
  {
    if calls == [] then db else Play(Execute(db, calls[0].cmd, calls[0].moment).0, calls[1..])
  }

  /** The database clock does not go back, within a transaction or from one to the next. */
  ghost predicate Monotone(calls: seq<Call>, clock: Instant)
    decreases |calls|
  {
    calls != [] ==>
      && Ticking(calls[0].moment) && clock <= calls[0].moment.now
      && Monotone(calls[1..], calls[0].moment.write(1))
  }

  function End(calls: seq<Call>, clock: Instant): Instant {
    if calls == [] then clock else calls[|calls| - 1].moment.write(1)
  }

  lemma {:induction false} PlayKeeps(db: Db, calls: seq<Call>, clock: Instant)
    requires Inv(db, clock) && Monotone(calls, clock)
    ensures Inv(Play(db, calls), End(calls, clock))
    decreases |calls|
  {
    hide Inv, Execute, Ticking;
    if calls != [] {
      var m := calls[0].moment;
      ExecuteKeeps(db, calls[0].cmd, m, clock);
      PlayKeeps(Execute(db, calls[0].cmd, m).0, calls[1..], m.write(1));
    }
  }

  const EMPTY := Db(map[], map[], [])

  lemma EmptyHolds(clock: Instant)
    ensures Inv(EMPTY, clock)
  {
  }

  /**
   Over every run with a monotone clock: an ISSUED quotation's RFQ is QUOTED, so no
   withdrawn, expired, declined or closed RFQ keeps one; an RFQ has at most one; and
   every version counts the resource's history rows.
   */
  lemma LifecycleSafety(calls: seq<Call>, clock: Instant)
    requires Monotone(calls, clock)
    ensures var db := Play(EMPTY, calls);
            && (forall id, parent :: IssuedIn(db, id, parent) ==>
                  parent in db.resources && db.resources[parent].AnRfq? && db.resources[parent].rfq.status == Quoted)
            && (forall i, j, parent :: IssuedIn(db, i, parent) && IssuedIn(db, j, parent) ==> i == j)
            && (forall id :: id in db.resources ==> db.resources[id].Version() == Changes(db.events, id))
  {
    EmptyHolds(clock);
    PlayKeeps(EMPTY, calls, clock);
    var db := Play(EMPTY, calls);
    forall id, parent | IssuedIn(db, id, parent)
      ensures parent in db.resources && db.resources[parent].AnRfq? && db.resources[parent].rfq.status == Quoted
    {
      assert FamilyOk(db, id);
    }
  }
}
