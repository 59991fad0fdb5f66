/** What every commercial command answers and leaves, field by field. */
module CommercialTerms {
  import opened Wrappers
  import opened Decimals
  import opened Commercial
  import opened CommercialRuns

  // ----- The request -----

  /** Not one of the eleven commands, or with fields its action does not take or lacks ones it needs. */
  predicate BadRequest(cmd: Command) {
    || cmd.action in {RfqRead, QuotationRead} || |cmd.key| < 16 || |cmd.key| > 128 || cmd.payload.Unprintable?
    || if cmd.action == RfqCreate then cmd.resource != None || cmd.expected != None
       else
         || (cmd.action == QuotationIssue <==> cmd.payload.NoPayload?)
         || cmd.resource == None || cmd.resource.value == [] || cmd.expected == None
         || cmd.expected.value < 1 || cmd.expected.value > 9_007_199_254_740_991
  }

  /** The resource is of the scope's tenant, legal entity, estate, Market and Organisation; its principal may be another. */
  predicate Visible(db: Db, scope: Context, id: Id) {
    id in db.resources &&
    var c := db.resources[id].ContextOf();
    (c.tenant, c.entity, c.estate, c.market, c.organisation) == (scope.tenant, scope.entity, scope.estate, scope.market, scope.organisation)
  }

  // ----- What each action does -----

  /** Where an RFQ may go from where. */
  const MOVES: set<(RfqStatus, RfqStatus)> := {
    (DraftRfq, Submitted), (DraftRfq, WithdrawnRfq),
    (Submitted, UnderReview), (Submitted, Declined), (Submitted, WithdrawnRfq), (Submitted, ExpiredRfq),
    (UnderReview, Quoted), (UnderReview, Declined), (UnderReview, WithdrawnRfq), (UnderReview, ExpiredRfq),
    (Quoted, UnderReview), (Quoted, Closed), (Quoted, WithdrawnRfq), (Quoted, ExpiredRfq)}

  /** What a command comes to: the tables without its record and the resource it answers, or the refusal. */
  type Effect = Result<(Db, Resource), Refusal>

  /** The row as written at an instant, the next version of its history. */
  function Put(db: Db, id: Id, r: Resource): Db {
    Db(db.resources[id := r], db.commands, db.events + [Event(id, r.Version(), r)])
  }

  predicate LinesOk(lines: seq<RfqLine>) {
    && 0 < |lines| < 101 && (forall line :: line in lines ==> IsPositive(line.quantity))
    && forall i, j :: 0 <= i < |lines| && 0 <= j < |lines| && lines[i].lineId == lines[j].lineId ==> i == j
  }

  function Creating(db: Db, cmd: Command, m: Moment): Effect {
    match cmd.payload
    case ForRfq(RfqInput(context, lines)) =>
      if context != cmd.scope then Failure(AuthorityDenied)
      else if !LinesOk(lines) then Failure(InvalidRequest)
      else if m.newId in db.resources then Failure(Raised)
      else
        var row := AnRfq(Rfq(context := context, lines := lines, status := DraftRfq, version := 1, updatedAt := m.write(0)));
        Success((Put(db, m.newId, row), row))
    case OtherShape(_, Some(context)) => if context == cmd.scope then Failure(InvalidRequest) else Failure(AuthorityDenied)
    case _ => Failure(InvalidRequest)
  }

  /** What the offered lines come to: quantities times unit prices. */
  ghost function Worth(lines: seq<QuoteLine>): real
    requires forall line :: line in lines ==> IsDecimal(line.amounts.quantity) && IsDecimal(line.amounts.unitPrice)
    decreases |lines|
  {
    if lines == [] then 0.0
    else
      assert lines[0] in lines;
      Denotes(lines[0].amounts.quantity) * Denotes(lines[0].amounts.unitPrice) + Worth(lines[1..])
  }

  /** Decimals throughout; each line's total is its quantity times its unit price, and the total is what the lines come to. */
  ghost predicate AddsUp(lines: seq<QuoteLine>, total: string) {
    && 0 < |lines| < 101 && IsDecimal(total)
    && (forall line :: line in lines ==>
          IsPositive(line.amounts.quantity) && IsDecimal(line.amounts.unitPrice) && IsDecimal(line.amounts.lineTotal))
    && (forall line :: line in lines ==>
          Denotes(line.amounts.lineTotal) == Denotes(line.amounts.quantity) * Denotes(line.amounts.unitPrice))
    && Denotes(total) == Worth(lines)
  }

  /** Every line is for a variant the RFQ asks for, in the unit it asks for, and no line is named twice. */
  predicate AnswersLines(lines: seq<QuoteLine>, asked: seq<RfqLine>) {
    && (forall line :: line in lines ==> exists a :: a in asked && (a.variant, a.quantityUnit) == (line.variant, line.quantityUnit))
    && forall i, j :: 0 <= i < |lines| && 0 <= j < |lines| && lines[i].lineId == lines[j].lineId ==> i == j
  }

  ghost function Issuing(db: Db, id: Id, r: Resource, payload: Payload, m: Moment): Effect {
    match (r, payload)
    case (AnRfq(Rfq(context, asked, UnderReview, version, _)), ForQuote(QuoteInput(lines, total, validUntil))) =>
      if !AddsUp(lines, total) || !AnswersLines(lines, asked) || validUntil <= m.now then Failure(InvalidRequest)
      else if m.newId in db.resources || validUntil <= m.write(0) then Failure(Raised)
      else
        var row := AQuotation(Quotation(context := context, rfq := id, lines := lines, total := total, validUntil := validUntil,
                                        status := Issued, version := 1, updatedAt := m.write(0)));
        Success((Put(Put(db, m.newId, row), id, AnRfq(Rfq(context, asked, Quoted, version + 1, m.write(1)))), row))
    case (AnRfq(Rfq(_, _, UnderReview, _, _)), _) => Failure(InvalidRequest)
    case _ => Failure(Conflict)
  }

  /** The quotation of the RFQ that is ISSUED. */
  predicate IssuedFor(db: Db, child: Id, id: Id) {
    child in db.resources && db.resources[child].AQuotation?
    && db.resources[child].quotation.rfq == id && db.resources[child].quotation.status == Issued
  }

  ghost function ChildOf(db: Db, id: Id): (child: Option<Id>)
    ensures match child
            case Some(c) => IssuedFor(db, c, id)
            case None => forall c :: !IssuedFor(db, c, id)
  {
    if exists c :: IssuedFor(db, c, id) then
      var c :| IssuedFor(db, c, id);
      Some(c)
    else
      None
  }

  function MovingRfq(db: Db, id: Id, r: Resource, next: RfqStatus, child: Option<Id>, m: Moment): Effect
    requires child.Some? ==> child.value in db.resources && db.resources[child.value].AQuotation?
  {
    match r
    case AQuotation(_) => Failure(Conflict)
    case AnRfq(Rfq(context, lines, status, version, _)) =>
      if child == None then
        if (status, next) !in MOVES then Failure(Conflict)
        else Success((Put(db, id, AnRfq(Rfq(context, lines, next, version + 1, m.write(0)))), AnRfq(Rfq(context, lines, next, version + 1, m.write(0)))))
      else
        var q := db.resources[child.value].quotation;
        if next in {WithdrawnRfq, ExpiredRfq} then
          if m.now < q.validUntil && q.validUntil <= m.write(0) then Failure(Raised)
          else
            var closed := q.(status := if q.validUntil <= m.now then Expired else Withdrawn, version := q.version + 1, updatedAt := m.write(0));
            var row := AnRfq(Rfq(context, lines, next, version + 1, m.write(1)));
            Success((Put(Put(db, child.value, AQuotation(closed)), id, row), row))
        else
          Failure(if (status, next) in MOVES then Raised else Conflict)
  }

  function MovingQuote(db: Db, id: Id, r: Resource, next: QuoteStatus, m: Moment): Effect {
    match r
    case AnRfq(_) => Failure(Conflict)
    case AQuotation(q) =>
      var over := q.validUntil <= m.now;
      if q.status in {DraftQuote, Accepted, Rejected, Withdrawn, Expired, Converted} || (next == Expired) != over then Failure(Conflict)
      else if next != Expired && q.validUntil <= m.write(0) then Failure(Raised)
      else
        var row := AQuotation(q.(status := next, version := q.version + 1, updatedAt := m.write(0)));
        Success((Put(db, id, row), row))
  }

  /** The effect of each action on the resource its command names; at most one quotation of an RFQ is ISSUED. */
  ghost function Doing(db: Db, cmd: Command, m: Moment): Effect
    requires cmd.action != RfqCreate ==> cmd.resource.Some? && cmd.resource.value in db.resources && cmd.expected.Some?
  {
    if cmd.action == RfqCreate then
      Creating(db, cmd, m)
    else
      var id, r := cmd.resource.value, db.resources[cmd.resource.value];
      if r.Version() != cmd.expected.value then
        Failure(Conflict)
      else
        var child := ChildOf(db, id);
        match cmd.action
        case QuotationIssue => Issuing(db, id, r, cmd.payload, m)
        case RfqSubmit => MovingRfq(db, id, r, Submitted, child, m)
        case RfqReview => MovingRfq(db, id, r, UnderReview, child, m)
        case RfqDecline => MovingRfq(db, id, r, Declined, child, m)
        case RfqWithdraw => MovingRfq(db, id, r, WithdrawnRfq, child, m)
        case RfqExpire => MovingRfq(db, id, r, ExpiredRfq, child, m)
        case RfqClose => MovingRfq(db, id, r, Closed, child, m)
        case QuotationReject => MovingQuote(db, id, r, Rejected, m)
        case QuotationWithdraw => MovingQuote(db, id, r, Withdrawn, m)
        case QuotationExpire => MovingQuote(db, id, r, Expired, m)
        case _ => Failure(InvalidRequest)
  }

  /** One command: what it leaves and what it answers. */
  ghost function Outcome(db: Db, cmd: Command, m: Moment): (Db, Answer) {
    var key := CommandKey(cmd.scope, cmd.key);
    if BadRequest(cmd) then (db, Refused(InvalidRequest))
    else if key in db.commands && db.commands[key].request != cmd then (db, Refused(Conflict))
    else if cmd.action != RfqCreate && !Visible(db, cmd.scope, cmd.resource.value) then (db, Refused(NotFound))
    else if m.authority.Some? then (db, Refused(m.authority.value))
    else if key in db.commands then (db, if m.recheck.Some? then Refused(m.recheck.value) else Replayed(db.commands[key].response))
    else
      match Doing(db, cmd, m)
      case Failure(refusal) => (db, Refused(refusal))
      case Success((after, row)) =>
        if m.recheck.Some? then (db, Refused(m.recheck.value))
        else (Db(after.resources, db.commands[key := Record(cmd, row)], after.events), AppliedNow(row))
  }

  // ----- The program does just that -----

  lemma RequestsAlike(cmd: Command)
    ensures BadRequest(cmd) <==> !EnvelopeOk(cmd) || cmd.payload.Unprintable?
  {
  }

  lemma MovesAre(from: RfqStatus, to: RfqStatus)
    ensures RfqMoves(from, to) <==> (from, to) in MOVES
  {
  }

  lemma IdsAre<T>(lines: seq<T>, ids: seq<Id>, idOf: T -> Id)
    requires |ids| == |lines| && forall i :: 0 <= i < |lines| ==> ids[i] == idOf(lines[i])
    ensures UniqueIds(ids) <==> forall i, j :: 0 <= i < |lines| && 0 <= j < |lines| && idOf(lines[i]) == idOf(lines[j]) ==> i == j
  {
    if UniqueIds(ids) {
      forall i, j | 0 <= i < |lines| && 0 <= j < |lines| && idOf(lines[i]) == idOf(lines[j]) ensures i == j {
        assert ids[i] == ids[j];
      }
    }
  }

  lemma CreateIs(db: Db, cmd: Command, m: Moment)
    ensures ApplyCreate(db, cmd, m) == Creating(db, cmd, m)
  {
    hide IsPositive, UniqueIds;
    match cmd.payload {
      case ForRfq(RfqInput(context, lines)) => IdsAre(lines, RfqLineIds(lines), (line: RfqLine) => line.lineId);
      case _ =>
    }
  }

  /** What quotation lines come to is the sum of their totals, when each is the product. */
  lemma {:induction false} WorthIsSum(lines: seq<QuoteLine>, amounts: seq<LineAmounts>)
    requires |amounts| == |lines| && forall i :: 0 <= i < |lines| ==> amounts[i] == lines[i].amounts
    requires AllWellFormed(amounts) && forall i :: 0 <= i < |amounts| ==> LineIsProduct(amounts[i])
    requires forall line :: line in lines ==> IsDecimal(line.amounts.quantity) && IsDecimal(line.amounts.unitPrice)
    ensures Worth(lines) == Sum(Amounts(amounts))
    decreases |lines|
  {
    hide IsDecimal, IsPositive, Denotes;
    if lines != [] {
      WorthIsSum(lines[1..], amounts[1..]);
      assert Amounts(amounts)[1..] == Amounts(amounts[1..]);
      assert LineIsProduct(amounts[0]) && amounts[0] == lines[0].amounts;
    }
  }

  lemma WellFormedLines(lines: seq<QuoteLine>)
    ensures AllWellFormed(AmountsOf(lines)) <==>
            forall line :: line in lines ==>
              IsPositive(line.amounts.quantity) && IsDecimal(line.amounts.unitPrice) && IsDecimal(line.amounts.lineTotal)
  {
    hide IsPositive, IsDecimal;
    var amounts := AmountsOf(lines);
    if AllWellFormed(amounts) {
      forall line | line in lines
        ensures IsPositive(line.amounts.quantity) && IsDecimal(line.amounts.unitPrice) && IsDecimal(line.amounts.lineTotal)
      {
        var i :| 0 <= i < |lines| && lines[i] == line;
        assert LineWellFormed(amounts[i]);
      }
    }
  }

  lemma PricedLines(lines: seq<QuoteLine>)
    requires AllWellFormed(AmountsOf(lines))
    ensures forall line :: line in lines ==> LineWellFormed(line.amounts) && IsDecimal(line.amounts.quantity)
    ensures (forall i :: 0 <= i < |lines| ==> LineIsProduct(AmountsOf(lines)[i])) <==>
            forall line :: line in lines ==>
              Denotes(line.amounts.lineTotal) == Denotes(line.amounts.quantity) * Denotes(line.amounts.unitPrice)
  {
    hide IsPositive, IsDecimal, Denotes;
    var amounts := AmountsOf(lines);
    forall line | line in lines ensures LineWellFormed(line.amounts) && IsDecimal(line.amounts.quantity) {
      var i :| 0 <= i < |lines| && lines[i] == line;
      assert LineWellFormed(amounts[i]);
      PositiveIsDecimal(line.amounts.quantity);
    }
    if forall i :: 0 <= i < |lines| ==> LineIsProduct(amounts[i]) {
      forall line | line in lines
        ensures Denotes(line.amounts.lineTotal) == Denotes(line.amounts.quantity) * Denotes(line.amounts.unitPrice)
      {
        var i :| 0 <= i < |lines| && lines[i] == line;
        assert LineIsProduct(amounts[i]);
      }
    }
  }

  lemma AddsUpIs(lines: seq<QuoteLine>, total: string)
    ensures AddsUp(lines, total) <==> AmountsAccepted(AmountsOf(lines), total)
  {
    hide IsDecimal, IsPositive, Denotes, EqualDecimal, LineAdds, SumOf, LineIsProduct, LineWellFormed, AllWellFormed, Worth;
    WellFormedLines(lines);
    if 1 <= |lines| <= 100 && AllWellFormed(AmountsOf(lines)) && IsDecimal(total) {
      AmountsAcceptedIff(AmountsOf(lines), total);
      PricedLines(lines);
      if forall i :: 0 <= i < |lines| ==> LineIsProduct(AmountsOf(lines)[i]) {
        WorthIsSum(lines, AmountsOf(lines));
      }
    }
  }

  lemma AnswersAre(lines: seq<QuoteLine>, rfq: Rfq)
    ensures AnswersLines(lines, rfq.lines) <==>
            (forall i :: 0 <= i < |lines| ==> Offered(lines[i], rfq)) && UniqueIds(QuoteLineIds(lines))
  {
    hide UniqueIds;
    IdsAre(lines, QuoteLineIds(lines), (line: QuoteLine) => line.lineId);
    forall line | line in lines
      ensures Offered(line, rfq) <==> exists a :: a in rfq.lines && (a.variant, a.quantityUnit) == (line.variant, line.quantityUnit)
    {
      if a :| a in rfq.lines && (a.variant, a.quantityUnit) == (line.variant, line.quantityUnit) {
        var i :| 0 <= i < |rfq.lines| && rfq.lines[i] == a;
        assert rfq.lines[i].variant == line.variant;
      }
    }
  }

  lemma IssueIs(db: Db, cmd: Command, id: Id, m: Moment, clock: Instant)
    requires Inv(db, clock) && clock <= m.now && Ticking(m) && id in db.resources
    ensures ApplyIssue(db, cmd, id, db.resources[id], m) == Issuing(db, id, db.resources[id], cmd.payload, m)
  {
    hide AmountsAccepted, AddsUp, AnswersLines, Offered, UniqueIds, HistoryOk, FamilyOk, OneIssued, HasOpen, HasIssued, HasBlocking;
    var r := db.resources[id];
    if r.AnRfq? && cmd.payload.ForQuote? {
      AddsUpIs(cmd.payload.quote.lines, cmd.payload.quote.total);
      AnswersAre(cmd.payload.quote.lines, r.rfq);
      ClockRead(db, id, clock);
      if r.rfq.status == UnderReview {
        NoneOpen(db, id, clock);
        if IssueQuotation(cmd.payload, id, r.rfq, m.now).Success? && m.newId !in db.resources {
          NowIssued(db, id, m.newId, AQuotation(IssueQuotation(cmd.payload, id, r.rfq, m.now).value), m.write(0));
        }
      }
    }
  }

  /** An RFQ under review has no quotation that is open. */
  lemma NoneOpen(db: Db, id: Id, clock: Instant)
    requires Inv(db, clock) && id in db.resources && db.resources[id].AnRfq? && db.resources[id].rfq.status == UnderReview
    ensures !HasOpen(db, id)
  {
    forall i | i in db.resources ensures !OpenQuote(db.resources[i], id) {
      if db.resources[i].AQuotation? {
        assert FamilyOk(db, i);
      }
    }
  }

  lemma NowIssued(db: Db, id: Id, quoteId: Id, quote: Resource, at: Instant)
    requires quote.AQuotation? && quote.quotation.rfq == id && quote.quotation.status == Issued
    ensures HasIssued(Write(db, quoteId, quote, at), id)
  {
    assert IsIssued(Write(db, quoteId, quote, at).resources[quoteId], id);
  }

  lemma QuoteIs(db: Db, id: Id, next: QuoteStatus, m: Moment, clock: Instant)
    requires Inv(db, clock) && clock <= m.now && Ticking(m) && id in db.resources && next in {Rejected, Withdrawn, Expired}
    ensures ApplyQuote(db, id, db.resources[id], next, m) == MovingQuote(db, id, db.resources[id], next, m)
  {
    ClockRead(db, id, clock);
    assert db.resources[id].Version() >= 1;
  }

  lemma ChildlessIs(db: Db, id: Id, next: RfqStatus, m: Moment, clock: Instant)
    requires Inv(db, clock) && clock <= m.now && Ticking(m) && id in db.resources && next != Quoted && !HasIssued(db, id)
    ensures ApplyRfq(db, id, db.resources[id], next, m) == MovingRfq(db, id, db.resources[id], next, None, m)
  {
    hide Inv, HasIssued, HasBlocking, Update, IssuedChildren;
    if db.resources[id].AnRfq? {
      NoChildren(db, id);
      ClockRead(db, id, clock);
      MovesAre(db.resources[id].rfq.status, next);
      if RfqMoves(db.resources[id].rfq.status, next) {
        ChildlessMoves(db, id, next, m, m.write(0), clock);
      }
    }
  }

  lemma HasOne(db: Db, child: Id, id: Id)
    requires IssuedFor(db, child, id)
    ensures HasIssued(db, id)
  {
    assert IsIssued(db.resources[child], id);
  }

  lemma WithChildIs(db: Db, id: Id, child: Id, next: RfqStatus, m: Moment, clock: Instant)
    requires Inv(db, clock) && clock <= m.now && Ticking(m) && id in db.resources && next != Quoted
    requires IssuedFor(db, child, id)
    ensures ApplyRfq(db, id, db.resources[id], next, m) == MovingRfq(db, id, db.resources[id], next, Some(child), m)
  {
    hide Inv, HasIssued, HasBlocking, Update, IssuedChildren;
    HasOne(db, child, id);
    IssuedParentQuoted(db, id, clock);
    ClockRead(db, id, clock);
    MovesAre(Quoted, next);
    if Cascades(next) {
      CascadeIs(db, id, child, next, m, clock);
    } else {
      OnlyIssuedBlocks(db, id, clock);
      Blocked(db, id, next, m);
    }
  }

  lemma Blocked(db: Db, id: Id, next: RfqStatus, m: Moment)
    requires id in db.resources && db.resources[id].AnRfq? && db.resources[id].rfq.status == Quoted && HasBlocking(db, id)
    requires !Cascades(next) && next != Quoted && db.resources[id].rfq.updatedAt <= m.now
    ensures ApplyRfq(db, id, db.resources[id], next, m) == Failure(if RfqMoves(Quoted, next) then Raised else Conflict)
  {
    hide HasBlocking, HasIssued;
  }

  lemma CascadeIs(db: Db, id: Id, child: Id, next: RfqStatus, m: Moment, clock: Instant)
    requires Inv(db, clock) && clock <= m.now && Ticking(m) && id in db.resources && db.resources[id].AnRfq? && db.resources[id].rfq.status == Quoted
    requires IssuedFor(db, child, id) && Cascades(next)
    ensures ApplyRfq(db, id, db.resources[id], next, m) == MovingRfq(db, id, db.resources[id], next, Some(child), m)
  {
    hide Inv, HasIssued, HasBlocking, Update, IssuedChildren;
    HasOne(db, child, id);
    var only := TheChild(db, id, clock);
    assert IssuedIn(db, child, id);
    ClockRead(db, id, clock);
    ChildCascades(db, child, id, m, clock);
    var q := db.resources[child].quotation;
    var closed := TransitionQuotation(q, CascadeStatus(q, m.now), q.version, m.now).value;
    assert [child][1..] == [];
    if Straddles(q, m) {
      assert Cascade(db, [child], m, 0) == Failure(Raised);
    } else {
      QuoteCloses(db, child, AQuotation(closed), m.write(0), clock);
      LastClosed(db, id, child, AQuotation(closed), m.write(0), clock);
      var db1 := Write(db, child, AQuotation(closed), m.write(0));
      assert Cascade(db1, [], m, 1) == Success(db1);
      assert Cascade(db, [child], m, 0) == Success(db1);
      ChildlessMoves(db1, id, next, m, m.write(1), m.write(0));
    }
  }

  lemma RfqIs(db: Db, id: Id, next: RfqStatus, child: Option<Id>, m: Moment, clock: Instant)
    requires Inv(db, clock) && clock <= m.now && Ticking(m) && id in db.resources && next != Quoted
    requires match child case Some(c) => IssuedFor(db, c, id) case None => forall c :: !IssuedFor(db, c, id)
    ensures ApplyRfq(db, id, db.resources[id], next, m) == MovingRfq(db, id, db.resources[id], next, child, m)
  {
    hide Inv, ApplyRfq, MovingRfq;
    match child
    case Some(c) => WithChildIs(db, id, c, next, m, clock);
    case None =>
      forall c | c in db.resources ensures !IsIssued(db.resources[c], id) {
        assert !IssuedFor(db, c, id);
      }
      ChildlessIs(db, id, next, m, clock);
  }

  lemma DoingIs(db: Db, cmd: Command, m: Moment, clock: Instant)
    requires Inv(db, clock) && clock <= m.now && Ticking(m) && EnvelopeOk(cmd)
    requires cmd.action != RfqCreate ==> cmd.resource.value in db.resources
    ensures Apply(db, cmd, if cmd.action == RfqCreate then None else Some(db.resources[cmd.resource.value]), m) == Doing(db, cmd, m)
  {
    hide Inv, ApplyCreate, ApplyIssue, ApplyRfq, ApplyQuote, Creating, Issuing, MovingRfq, MovingQuote, Ticking;
    if cmd.action == RfqCreate {
      CreateIs(db, cmd, m);
    } else {
      var id := cmd.resource.value;
      if cmd.action == QuotationIssue {
        IssueIs(db, cmd, id, m, clock);
      } else if QuoteTarget(cmd.action).Some? {
        QuoteIs(db, id, QuoteTarget(cmd.action).value, m, clock);
      } else {
        var child := ChildOf(db, id);
        assert child.Some? ==> IssuedFor(db, child.value, id);
        forall next | next != Quoted ensures ApplyRfq(db, id, db.resources[id], next, m) == MovingRfq(db, id, db.resources[id], next, child, m) {
          RfqIs(db, id, next, child, m, clock);
        }
      }
    }
  }

  /** In every reachable state, under a clock that does not go back, every command leaves and answers just that. */
  lemma OutcomeIs(db: Db, cmd: Command, m: Moment, clock: Instant)
    requires Inv(db, clock) && clock <= m.now && Ticking(m)
    ensures Execute(db, cmd, m) == Outcome(db, cmd, m)
  {
    hide Inv, Apply, Doing, EnvelopeOk, BadRequest, Ticking;
    RequestsAlike(cmd);
    if !BadRequest(cmd) {
      EnvelopeHas(cmd);
      if cmd.action == RfqCreate || Visible(db, cmd.scope, cmd.resource.value) {
        DoingIs(db, cmd, m, clock);
      }
    }
  }

  lemma EnvelopeHas(cmd: Command)
    requires EnvelopeOk(cmd)
    ensures cmd.action == RfqCreate <==> cmd.resource.None?
    ensures cmd.resource.Some? ==> cmd.expected.Some?
  {
  }
}
