/** What RFQs and quotations contain, from the command that wrote them on. */
module CommercialContents {
  import opened Decimals
  import opened Commercial
  import opened CommercialRuns
  import opened CommercialHistory
  import opened CommercialTerms

  /** An applied QUOTATION_ISSUE stores and answers exactly the offer, for the RFQ it names, and the offer adds up. */
  lemma IssuedAsOffered(db: Db, cmd: Command, m: Moment)
    requires cmd.action == QuotationIssue && Execute(db, cmd, m).1.AppliedNow?
    ensures cmd.payload.ForQuote? && cmd.resource.Some? && cmd.resource.value in db.resources && db.resources[cmd.resource.value].AnRfq?
    ensures var (after, answer) := Execute(db, cmd, m);
            var offer, rfq := cmd.payload.quote, db.resources[cmd.resource.value].rfq;
            && m.newId !in db.resources && m.newId in after.resources
            && after.resources[m.newId] == answer.resource && answer.resource.AQuotation?
            && var q := answer.resource.quotation;
               && q.lines == offer.lines && q.total == offer.total && q.validUntil == offer.validUntil
               && q.rfq == cmd.resource.value && q.context == rfq.context && q.status == Issued && q.version == 1
               && AddsUp(q.lines, q.total) && AnswersLines(q.lines, rfq.lines)
  {
    hide AddsUp, AnswersLines, ApplyIssue;
    OfferStored(db, cmd, cmd.resource.value, db.resources[cmd.resource.value], m);
  }

  lemma OfferStored(db: Db, cmd: Command, id: Id, r: Resource, m: Moment)
    requires ApplyIssue(db, cmd, id, r, m).Success?
    ensures cmd.payload.ForQuote? && r.AnRfq? && m.newId !in db.resources
    ensures var (after, row) := ApplyIssue(db, cmd, id, r, m).value;
            && m.newId in after.resources && (id in db.resources ==> after.resources[m.newId] == row)
            && row == AQuotation(Quotation(r.rfq.context, id, cmd.payload.quote.lines, cmd.payload.quote.total, cmd.payload.quote.validUntil,
                                           Issued, 1, m.write(0)))
            && AddsUp(cmd.payload.quote.lines, cmd.payload.quote.total) && AnswersLines(cmd.payload.quote.lines, r.rfq.lines)
  {
    hide AddsUp, AnswersLines, Offered, UniqueIds, HasOpen, HasIssued, HasBlocking, RfqMoves, AmountsAccepted;
    if cmd.payload.ForQuote? && r.AnRfq? {
      AddsUpIs(cmd.payload.quote.lines, cmd.payload.quote.total);
      AnswersAre(cmd.payload.quote.lines, r.rfq);
    }
  }

  /** An applied RFQ_CREATE stores and answers exactly the lines and the context asked for. */
  lemma CreatedAsAsked(db: Db, cmd: Command, m: Moment)
    requires cmd.action == RfqCreate && Execute(db, cmd, m).1.AppliedNow?
    ensures cmd.payload.ForRfq?
    ensures var (after, answer) := Execute(db, cmd, m);
            && m.newId !in db.resources && m.newId in after.resources
            && after.resources[m.newId] == answer.resource && answer.resource.AnRfq?
            && var rfq := answer.resource.rfq;
               && rfq.lines == cmd.payload.input.lines && rfq.context == cmd.payload.input.context && rfq.context == cmd.scope
               && rfq.status == DraftRfq && rfq.version == 1
  {
    hide UniqueIds;
  }

  // ----- Over every run -----

  /** The quotation adds up, and answers lines of the RFQ it belongs to, in that RFQ's context. */
  ghost predicate FaithfulQuote(db: Db, id: Id)
    requires id in db.resources && db.resources[id].AQuotation?
  {
    var q := db.resources[id].quotation;
    && AddsUp(q.lines, q.total)
    && q.rfq in db.resources && db.resources[q.rfq].AnRfq?
    && AnswersLines(q.lines, db.resources[q.rfq].rfq.lines) && q.context == db.resources[q.rfq].rfq.context
  }

  ghost predicate FaithfulQuotes(db: Db) {
    forall id :: id in db.resources && db.resources[id].AQuotation? ==> FaithfulQuote(db, id)
  }

  lemma {:induction false} CascadeKeys(db: Db, children: seq<Id>, m: Moment, k: nat)
    requires Cascade(db, children, m, k).Success?
    ensures Cascade(db, children, m, k).value.resources.Keys == db.resources.Keys
    decreases |children|
  {
    hide MayUpdate, TransitionQuotation;
    if children != [] {
      var q := db.resources[children[0]].quotation;
      var closed := TransitionQuotation(q, CascadeStatus(q, m.now), q.version, m.now).value;
      CascadeKeys(Update(db, children[0], AQuotation(closed), m.write(k)).value, children[1..], m, k + 1);
    }
  }

  /** Only creating and issuing add a row, and only the new one. */
  lemma RowsAdded(db: Db, cmd: Command, m: Moment)
    ensures var (after, answer) := Execute(db, cmd, m);
            forall id :: id in after.resources && id !in db.resources ==>
              answer.AppliedNow? && cmd.action in {RfqCreate, QuotationIssue} && id == m.newId
  {
    hide MayInsert, MayUpdate, CreateRfq, IssueQuotation, TransitionRfq, TransitionQuotation, Cascade, IssuedChildren, EnvelopeOk, Lock;
    var (after, answer) := Execute(db, cmd, m);
    if answer.AppliedNow? && RfqTarget(cmd.action).Some? {
      var id, next := cmd.resource.value, RfqTarget(cmd.action).value;
      CascadeKeys(db, if Cascades(next) then IssuedChildren(db, id) else [], m, 0);
    }
  }

  lemma ExecuteFaithful(db: Db, cmd: Command, m: Moment)
    requires FaithfulQuotes(db)
    ensures FaithfulQuotes(Execute(db, cmd, m).0)
  {
    hide Execute, AddsUp, AnswersLines, RfqMoves;
    var (after, answer) := Execute(db, cmd, m);
    ExecuteAdvances(db, cmd, m);
    RowsAdded(db, cmd, m);
    forall id | id in after.resources && after.resources[id].AQuotation? ensures FaithfulQuote(after, id) {
      if id in db.resources {
        assert RowAdvances(db.resources[id], after.resources[id]) && FaithfulQuote(db, id);
        var parent := db.resources[id].quotation.rfq;
        assert RowAdvances(db.resources[parent], after.resources[parent]);
      } else if cmd.action == QuotationIssue {
        IssuedAsOffered(db, cmd, m);
        assert RowAdvances(db.resources[cmd.resource.value], after.resources[cmd.resource.value]);
      } else {
        CreatedAsAsked(db, cmd, m);
      }
    }
  }

  lemma {:induction false} PlayFaithful(db: Db, calls: seq<Call>)
    requires FaithfulQuotes(db)
    ensures FaithfulQuotes(Play(db, calls))
    decreases |calls|
  {
    hide Execute, FaithfulQuotes;
    if calls != [] {
      ExecuteFaithful(db, calls[0].cmd, calls[0].moment);
      PlayFaithful(Execute(db, calls[0].cmd, calls[0].moment).0, calls[1..]);
    }
  }

  /** In every reachable state, whatever the clocks said, every quotation adds up and answers lines of its own RFQ. */
  lemma QuotationsAddUp(calls: seq<Call>, id: Id)
    requires id in Play(EMPTY, calls).resources && Play(EMPTY, calls).resources[id].AQuotation?
    ensures FaithfulQuote(Play(EMPTY, calls), id)
  {
    PlayFaithful(EMPTY, calls);
  }
}
