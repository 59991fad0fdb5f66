/** What commercial commands never undo, and how repeated requests are answered. */
module CommercialHistory {
  import opened Wrappers
  import opened Commercial
  import opened CommercialRuns

  // ----- Terminal states -----

  predicate Terminal(r: Resource) {
    if r.AnRfq? then r.rfq.status in {Declined, WithdrawnRfq, ExpiredRfq, Closed}
    else r.quotation.status in {Rejected, Withdrawn, Expired}
  }

  /** Terminal resources stay as they are, versions only grow, content and history are never rewritten. */
  ghost predicate Advances(a: Db, b: Db) {
    && a.events <= b.events
    && (forall id :: id in a.resources ==> id in b.resources && RowAdvances(a.resources[id], b.resources[id]))
  }

  predicate RowAdvances(r: Resource, s: Resource) {
    && (Terminal(r) ==> s == r)
    && r.Version() <= s.Version() && s.ContextOf() == r.ContextOf() && (r.AnRfq? <==> s.AnRfq?)
    && (r.AnRfq? ==> s.rfq.lines == r.rfq.lines)
    && (r.AQuotation? ==>
          s.quotation.rfq == r.quotation.rfq && s.quotation.lines == r.quotation.lines && s.quotation.total == r.quotation.total
          && s.quotation.validUntil == r.quotation.validUntil)
  }

  lemma InsertAdvances(db: Db, id: Id, r: Resource, at: Instant)
    requires Insert(db, id, r, at).Success?
    ensures Advances(db, Insert(db, id, r, at).value)
  {
  }

  lemma UpdateAdvances(db: Db, id: Id, r: Resource, at: Instant)
    requires Update(db, id, r, at).Success?
    ensures Advances(db, Update(db, id, r, at).value)
  {
    hide HasIssued, HasBlocking;
  }

  lemma AdvancesOn(a: Db, b: Db, c: Db)
    requires Advances(a, b) && Advances(b, c)
    ensures Advances(a, c)
  {
    forall id | id in a.resources ensures id in c.resources && RowAdvances(a.resources[id], c.resources[id]) {
      assert RowAdvances(a.resources[id], b.resources[id]) && RowAdvances(b.resources[id], c.resources[id]);
    }
  }

  lemma {:induction false} CascadeAdvances(db: Db, children: seq<Id>, m: Moment, k: nat)
    requires Cascade(db, children, m, k).Success?
    ensures Advances(db, Cascade(db, children, m, k).value)
    decreases |children|
  {
    hide Advances, Update, TransitionQuotation;
    if children == [] {
      StandsStill(db);
    } else {
      var q := db.resources[children[0]].quotation;
      var closed := TransitionQuotation(q, CascadeStatus(q, m.now), q.version, m.now).value;
      var db1 := Update(db, children[0], AQuotation(closed), m.write(k)).value;
      UpdateAdvances(db, children[0], AQuotation(closed), m.write(k));
      CascadeAdvances(db1, children[1..], m, k + 1);
      AdvancesOn(db, db1, Cascade(db, children, m, k).value);
    }
  }

  lemma StandsStill(db: Db)
    ensures Advances(db, db)
  {
  }

  lemma ApplyAdvances(db: Db, cmd: Command, locked: Option<Resource>, m: Moment)
    requires EnvelopeOk(cmd) && Apply(db, cmd, locked, m).Success?
    ensures Advances(db, Apply(db, cmd, locked, m).value.0)
  {
    hide Advances, Update, Insert, TransitionQuotation, TransitionRfq, IssueQuotation, CreateRfq, Cascade, IssuedChildren;
    if cmd.action == RfqCreate {
      InsertAdvances(db, m.newId, AnRfq(CreateRfq(cmd.payload, cmd.scope, m.now).value), m.write(0));
    } else if cmd.action == QuotationIssue {
      IssueAdvances(db, cmd, cmd.resource.value, locked.value, m);
    } else if RfqTarget(cmd.action).Some? {
      RfqAdvances(db, cmd.resource.value, locked.value, RfqTarget(cmd.action).value, m);
    } else {
      var next := QuoteTarget(cmd.action).value;
      var moved := TransitionQuotation(locked.value.quotation, next, locked.value.quotation.version, m.now).value;
      UpdateAdvances(db, cmd.resource.value, AQuotation(moved), m.write(0));
    }
  }

  lemma IssueAdvances(db: Db, cmd: Command, id: Id, r: Resource, m: Moment)
    requires ApplyIssue(db, cmd, id, r, m).Success?
    ensures Advances(db, ApplyIssue(db, cmd, id, r, m).value.0)
  {
    hide Advances, Update, Insert, TransitionRfq, IssueQuotation;
    var quote := IssueQuotation(cmd.payload, id, r.rfq, m.now).value;
    var db1 := Insert(db, m.newId, AQuotation(quote), m.write(0)).value;
    var quoted := TransitionRfq(r.rfq, Quoted, r.rfq.version, m.now).value;
    InsertAdvances(db, m.newId, AQuotation(quote), m.write(0));
    UpdateAdvances(db1, id, AnRfq(quoted), m.write(1));
    AdvancesOn(db, db1, Update(db1, id, AnRfq(quoted), m.write(1)).value);
  }

  lemma RfqAdvances(db: Db, id: Id, r: Resource, next: RfqStatus, m: Moment)
    requires ApplyRfq(db, id, r, next, m).Success?
    ensures Advances(db, ApplyRfq(db, id, r, next, m).value.0)
  {
    hide Advances, Update, TransitionRfq, Cascade, IssuedChildren;
    var children := if Cascades(next) then IssuedChildren(db, id) else [];
    var db1 := Cascade(db, children, m, 0).value;
    var moved := TransitionRfq(r.rfq, next, r.rfq.version, m.now).value;
    CascadeAdvances(db, children, m, 0);
    UpdateAdvances(db1, id, AnRfq(moved), m.write(|children|));
    AdvancesOn(db, db1, Update(db1, id, AnRfq(moved), m.write(|children|)).value);
  }

  lemma ExecuteAdvances(db: Db, cmd: Command, m: Moment)
    ensures Advances(db, Execute(db, cmd, m).0)
  {
    hide Advances, Apply, EnvelopeOk;
    var (after, answer) := Execute(db, cmd, m);
    StandsStill(db);
    if answer.AppliedNow? {
      var locked := if cmd.resource.Some? then Lock(db, cmd.scope, cmd.resource.value) else Failure(NotFound);
      var found := if locked.Success? then Some(locked.value) else None;
      ApplyAdvances(db, cmd, found, m);
      CommandsIgnored(db, Apply(db, cmd, found, m).value.0, after);
    }
  }

  lemma CommandsIgnored(a: Db, b: Db, c: Db)
    requires Advances(a, b) && c.resources == b.resources && c.events == b.events
    ensures Advances(a, c)
  {
  }

  /** Over every run: terminal states absorb, content is immutable, and history is append-only. */
  lemma {:induction false} PlayAdvances(db: Db, calls: seq<Call>)
    ensures Advances(db, Play(db, calls))
    decreases |calls|
  {
    hide Advances, Execute;
    if calls == [] {
      StandsStill(db);
    } else {
      ExecuteAdvances(db, calls[0].cmd, calls[0].moment);
      PlayAdvances(Execute(db, calls[0].cmd, calls[0].moment).0, calls[1..]);
      AdvancesOn(db, Execute(db, calls[0].cmd, calls[0].moment).0, Play(db, calls));
    }
  }

  // ----- EXPIRED or not -----

  /**
   A quotation command applies exactly when the quotation is ISSUED and, for expiry,
   its validity has ended by the command's reading of the clock, or otherwise has
   not ended by the write.
   */
  lemma QuoteCommandApplies(db: Db, id: Id, next: QuoteStatus, m: Moment, clock: Instant)
    requires Inv(db, clock) && clock <= m.now && Ticking(m) && id in db.resources && db.resources[id].AQuotation?
    requires next in {Rejected, Withdrawn, Expired}
    ensures var q, x := db.resources[id].quotation, ApplyQuote(db, id, db.resources[id], next, m);
            && (x.Success? <==> q.status == Issued && if next == Expired then q.validUntil <= m.now else m.write(0) < q.validUntil)
            && (x.Success? ==> x.value.1 == AQuotation(q.(status := next, version := q.version + 1, updatedAt := m.write(0))))
  {
    assert db.resources[id].UpdatedAt() <= clock;
    assert db.resources[id].Version() >= 1;
  }

  // ----- Idempotent replay -----

  lemma ExecuteRecords(db: Db, cmd: Command, m: Moment)
    ensures var (after, answer) := Execute(db, cmd, m);
            if answer.AppliedNow? then
              && EnvelopeOk(cmd) && !cmd.payload.Unprintable? && !cmd.payload.OtherShape?
              && CommandKey(cmd.scope, cmd.key) !in db.commands
              && after.commands == db.commands[CommandKey(cmd.scope, cmd.key) := Record(cmd, answer.resource)]
              && (cmd.resource.Some? ==> Lock(db, cmd.scope, cmd.resource.value).Success?)
            else
              after == db
  {
    hide Apply, Lock, RfqMoves;
    var locked := if cmd.resource.Some? then Lock(db, cmd.scope, cmd.resource.value) else Failure(NotFound);
    if cmd.payload.OtherShape? && EnvelopeOk(cmd) {
      OddPayloadApplies(db, cmd, if locked.Success? then Some(locked.value) else None, m);
    }
  }

  /** What a payload of another shape is refused as, once it is looked at. */
  ghost function OddRefusal(cmd: Command, locked: Option<Resource>): Refusal
    requires EnvelopeOk(cmd) && cmd.payload.OtherShape?
  {
    if cmd.action == RfqCreate then
      if cmd.payload.context.Some? && cmd.payload.context.value != cmd.scope then AuthorityDenied else InvalidRequest
    else if locked.Some? && locked.value.Version() == cmd.expected.value && locked.value.AnRfq? && locked.value.rfq.status == UnderReview then
      InvalidRequest
    else
      Conflict
  }

  lemma OddPayloadApplies(db: Db, cmd: Command, locked: Option<Resource>, m: Moment)
    requires EnvelopeOk(cmd) && cmd.payload.OtherShape?
    ensures Apply(db, cmd, locked, m) == Failure(OddRefusal(cmd, locked))
  {
    hide Insert, Update, ApplyRfq, ApplyQuote;
    assert cmd.action == RfqCreate || cmd.action == QuotationIssue;
  }

  lemma {:induction false} RecordsStay(db: Db, calls: seq<Call>, key: CommandKey)
    requires key in db.commands
    ensures key in Play(db, calls).commands && Play(db, calls).commands[key] == db.commands[key]
    decreases |calls|
  {
    hide Execute, EnvelopeOk, Lock;
    if calls != [] {
      ExecuteRecords(db, calls[0].cmd, calls[0].moment);
      RecordsStay(Execute(db, calls[0].cmd, calls[0].moment).0, calls[1..], key);
    }
  }

  lemma StillLocks(a: Db, b: Db, scope: Context, id: Id)
    requires Advances(a, b) && Lock(a, scope, id).Success?
    ensures Lock(b, scope, id).Success?
  {
    assert RowAdvances(a.resources[id], b.resources[id]);
  }

  /**
   After a command was applied, and whatever ran since: the same request is authorised
   afresh and then answered with the first result, another request under its key
   conflicts, and neither changes anything.
   */
  lemma RepeatsAreReplayed(db: Db, cmd: Command, m: Moment, calls: seq<Call>, again: Command, later: Moment)
    requires Execute(db, cmd, m).1.AppliedNow? && again.scope == cmd.scope && again.key == cmd.key
    ensures var end := Play(Execute(db, cmd, m).0, calls);
            Execute(end, again, later) ==
            (end,
             if !EnvelopeOk(again) || again.payload.Unprintable? then Refused(InvalidRequest)
             else if again != cmd then Refused(Conflict)
             else if later.authority.Some? then Refused(later.authority.value)
             else if later.recheck.Some? then Refused(later.recheck.value)
             else Replayed(Execute(db, cmd, m).1.resource))
  {
    hide EnvelopeOk, Apply, Lock, Advances, Play;
    var first := Execute(db, cmd, m).0;
    var end := Play(first, calls);
    ExecuteRecords(db, cmd, m);
    RecordsStay(first, calls, CommandKey(cmd.scope, cmd.key));
    ExecuteAdvances(db, cmd, m);
    PlayAdvances(first, calls);
    AdvancesOn(db, first, end);
    if cmd.resource.Some? {
      StillLocks(db, end, cmd.scope, cmd.resource.value);
    }
  }

  // ----- Payloads of another shape -----

  ghost predicate NoOddRecords(db: Db) {
    forall key :: key in db.commands ==> !db.commands[key].request.payload.OtherShape?
  }

  lemma {:induction false} OddNeverRecorded(db: Db, calls: seq<Call>)
    requires NoOddRecords(db)
    ensures NoOddRecords(Play(db, calls))
    decreases |calls|
  {
    hide Execute, EnvelopeOk, Lock;
    if calls != [] {
      ExecuteRecords(db, calls[0].cmd, calls[0].moment);
      OddNeverRecorded(Execute(db, calls[0].cmd, calls[0].moment).0, calls[1..]);
    }
  }

  /**
   In every reachable state a printable payload of another shape changes nothing, and its
   shape is the last thing looked at: first its key, its resource, the authority, and for
   a quotation whether the RFQ may receive one.
   */
  lemma OddPayloadAnswered(calls: seq<Call>, cmd: Command, m: Moment)
    requires EnvelopeOk(cmd) && cmd.payload.OtherShape?
    ensures var db := Play(EMPTY, calls);
            var locked := if cmd.resource.Some? then Lock(db, cmd.scope, cmd.resource.value) else Failure(NotFound);
            Execute(db, cmd, m) ==
            (db,
             if CommandKey(cmd.scope, cmd.key) in db.commands then Refused(Conflict)
             else if cmd.resource.Some? && locked.Failure? then Refused(NotFound)
             else if m.authority.Some? then Refused(m.authority.value)
             else Refused(OddRefusal(cmd, if locked.Success? then Some(locked.value) else None)))
  {
    hide Apply, EnvelopeOk, Play, OddRefusal;
    OddNeverRecorded(EMPTY, calls);
    var db := Play(EMPTY, calls);
    var locked := if cmd.resource.Some? then Lock(db, cmd.scope, cmd.resource.value) else Failure(NotFound);
    OddPayloadApplies(db, cmd, if locked.Success? then Some(locked.value) else None, m);
  }
}
