/** The commercial commands as they run: one transaction over tables updated in place. */
module CommercialStore {
  import opened Wrappers
  import opened Commercial
  import opened CommercialRuns

  predicate Wrote(w: Result<Db, Refusal>, now: Db, refusal: Option<Refusal>) {
    if w.Success? then refusal.None? && now == w.value else refusal == Some(w.error)
  }

  predicate Did(x: Applied, now: Db, r: Result<Resource, Refusal>) {
    if x.Success? then r == Success(x.value.1) && now == x.value.0 else r == Failure(x.error)
  }

  class CommercialStore {
    var resources: map<Id, Resource>
    var commands: map<CommandKey, Record>
    var events: seq<Event>

    constructor ()
      ensures Snapshot() == EMPTY
    {
      resources, commands, events := map[], map[], [];
    }

    function Snapshot(): Db
      reads this
    {
      Db(resources, commands, events)
    }

    /** The guard stamps the row with the database's clock; the event trigger appends it to the history. */
    method StoreRow(id: Id, r: Resource, at: Instant)
      modifies `resources, `events
      ensures Snapshot() == Write(old(Snapshot()), id, r, at)
    {
      var stamped := r.Stamped(at);
      resources := resources[id := stamped];
      events := events + [Event(id, stamped.Version(), stamped)];
    }

    method InsertRow(id: Id, r: Resource, at: Instant) returns (refusal: Option<Refusal>)
      modifies `resources, `events
      ensures Wrote(Insert(old(Snapshot()), id, r, at), Snapshot(), refusal)
      ensures refusal.Some? ==> Snapshot() == old(Snapshot())
    {
      if !MayInsert(Snapshot(), id, r, at) {
        return Some(Raised);
      }
      StoreRow(id, r, at);
      return None;
    }

    /** Optimistic: only the version before may be updated. */
    method UpdateRow(id: Id, r: Resource, at: Instant) returns (refusal: Option<Refusal>)
      modifies `resources, `events
      ensures Wrote(Update(old(Snapshot()), id, r, at), Snapshot(), refusal)
      ensures refusal.None? ==> id in resources
    {
      if id !in resources || r.Version() < 1 || resources[id].Version() != r.Version() - 1 {
        return Some(Conflict);
      }
      if !MayUpdate(Snapshot(), id, r, at) {
        return Some(Raised);
      }
      StoreRow(id, r, at);
      return None;
    }

    /** Closes the ISSUED quotations of an RFQ, one after another. */
    method CascadeTo(children: seq<Id>, m: Moment) returns (refusal: Option<Refusal>)
      modifies `resources, `events
      ensures Wrote(Cascade(old(Snapshot()), children, m, 0), Snapshot(), refusal)
    {
      hide Update, TransitionQuotation;
      ghost var start := Snapshot();
      var k := 0;
      assert children[0..] == children;
      while k < |children|
        invariant 0 <= k <= |children|
        invariant Cascade(start, children, m, 0) == Cascade(Snapshot(), children[k..], m, k)
      {
        assert children[k..][1..] == children[k + 1..];
        var child := children[k];
        if child !in resources || !resources[child].AQuotation? {
          return Some(Conflict);
        }
        var quote := resources[child].quotation;
        var closed := TransitionQuotation(quote, if m.now >= quote.validUntil then Expired else Withdrawn, quote.version, m.now);
        if closed.Failure? {
          return Some(closed.error);
        }
        refusal := UpdateRow(child, AQuotation(closed.value), m.write(k));
        if refusal.Some? {
          return;
        }
        k := k + 1;
      }
      return None;
    }

    method CreateCommand(cmd: Command, m: Moment) returns (r: Result<Resource, Refusal>)
      modifies this
      ensures Did(ApplyCreate(old(Snapshot()), cmd, m), Snapshot(), r)
    {
      hide CreateRfq, MayInsert;
      var rfq := CreateRfq(cmd.payload, cmd.scope, m.now);
      if rfq.Failure? {
        return Failure(rfq.error);
      }
      var refusal := InsertRow(m.newId, AnRfq(rfq.value), m.write(0));
      if refusal.Some? {
        return Failure(refusal.value);
      }
      return Success(resources[m.newId]);
    }

    /** The quotation goes in first, and then its RFQ becomes QUOTED. */
    method IssueCommand(cmd: Command, id: Id, locked: Resource, m: Moment) returns (r: Result<Resource, Refusal>)
      modifies this
      ensures Did(ApplyIssue(old(Snapshot()), cmd, id, locked, m), Snapshot(), r)
    {
      hide IssueQuotation, TransitionRfq, MayInsert, Update;
      if !locked.AnRfq? {
        return Failure(Conflict);
      }
      var quote := IssueQuotation(cmd.payload, id, locked.rfq, m.now);
      if quote.Failure? {
        return Failure(quote.error);
      }
      var refusal := InsertRow(m.newId, AQuotation(quote.value), m.write(0));
      if refusal.Some? {
        return Failure(refusal.value);
      }
      var issued := resources[m.newId];
      var quoted := TransitionRfq(locked.rfq, Quoted, locked.rfq.version, m.now);
      if quoted.Failure? {
        return Failure(quoted.error);
      }
      refusal := UpdateRow(id, AnRfq(quoted.value), m.write(1));
      if refusal.Some? {
        return Failure(refusal.value);
      }
      return Success(issued);
    }

    method RfqCommand(id: Id, locked: Resource, next: RfqStatus, m: Moment) returns (r: Result<Resource, Refusal>)
      modifies this
      ensures Did(ApplyRfq(old(Snapshot()), id, locked, next, m), Snapshot(), r)
    {
      hide TransitionRfq, Update, Cascade, IssuedChildren;
      if !locked.AnRfq? {
        return Failure(Conflict);
      }
      var children: seq<Id> := [];
      if next == WithdrawnRfq || next == ExpiredRfq {
        children := IssuedChildren(Snapshot(), id);
      }
      var refusal := CascadeTo(children, m);
      if refusal.Some? {
        return Failure(refusal.value);
      }
      var moved := TransitionRfq(locked.rfq, next, locked.rfq.version, m.now);
      if moved.Failure? {
        return Failure(moved.error);
      }
      refusal := UpdateRow(id, AnRfq(moved.value), m.write(|children|));
      if refusal.Some? {
        return Failure(refusal.value);
      }
      return Success(resources[id]);
    }

    method QuoteCommand(id: Id, locked: Resource, next: QuoteStatus, m: Moment) returns (r: Result<Resource, Refusal>)
      modifies this
      ensures Did(ApplyQuote(old(Snapshot()), id, locked, next, m), Snapshot(), r)
    {
      hide TransitionQuotation, MayUpdate;
      if !locked.AQuotation? {
        return Failure(Conflict);
      }
      var moved := TransitionQuotation(locked.quotation, next, locked.quotation.version, m.now);
      if moved.Failure? {
        return Failure(moved.error);
      }
      var refusal := UpdateRow(id, AQuotation(moved.value), m.write(0));
      if refusal.Some? {
        return Failure(refusal.value);
      }
      return Success(resources[id]);
    }

    method Perform(cmd: Command, locked: Option<Resource>, m: Moment) returns (r: Result<Resource, Refusal>)
      requires EnvelopeOk(cmd)
      modifies this
      ensures Did(Apply(old(Snapshot()), cmd, locked, m), Snapshot(), r)
    {
      hide ApplyCreate, ApplyIssue, ApplyRfq, ApplyQuote;
      if cmd.action == RfqCreate {
        r := CreateCommand(cmd, m);
      } else if locked.None? || locked.value.Version() != cmd.expected.value {
        r := Failure(Conflict);
      } else if cmd.action == QuotationIssue {
        r := IssueCommand(cmd, cmd.resource.value, locked.value, m);
      } else if RfqTarget(cmd.action).Some? {
        r := RfqCommand(cmd.resource.value, locked.value, RfqTarget(cmd.action).value, m);
      } else if QuoteTarget(cmd.action).Some? {
        r := QuoteCommand(cmd.resource.value, locked.value, QuoteTarget(cmd.action).value, m);
      } else {
        r := Failure(InvalidRequest);
      }
    }

    /** One transaction: a refusal rolls everything back, an applied command is recorded last. */
    method ExecuteCommand(cmd: Command, m: Moment) returns (answer: Answer)
      modifies this
      ensures (Snapshot(), answer) == Execute(old(Snapshot()), cmd, m)
    {
      hide EnvelopeOk, Apply, Lock;
      var key := CommandKey(cmd.scope, cmd.key);
      if !EnvelopeOk(cmd) || cmd.payload.Unprintable? {
        return Refused(InvalidRequest);
      }
      if key in commands && commands[key].request != cmd {
        return Refused(Conflict);
      }
      var locked: Option<Resource> := None;
      if cmd.resource.Some? {
        var found := Lock(Snapshot(), cmd.scope, cmd.resource.value);
        if found.Failure? {
          return Refused(found.error);
        }
        locked := Some(found.value);
      }
      if m.authority.Some? {
        return Refused(m.authority.value);
      }
      if key in commands {
        return if m.recheck.Some? then Refused(m.recheck.value) else Replayed(commands[key].response);
      }
      var begin := Snapshot();
      var r := Perform(cmd, locked, m);
      if r.Failure? || m.recheck.Some? {
        resources, commands, events := begin.resources, begin.commands, begin.events;
        return Refused(if r.Failure? then r.error else m.recheck.value);
      }
      commands := begin.commands[key := Record(cmd, r.value)];
      return AppliedNow(r.value);
    }
  }
}
