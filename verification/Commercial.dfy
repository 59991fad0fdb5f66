/** RFQs and quotations: what each command does to them, and what the tables' own guards refuse. */
module Commercial {
  import opened Wrappers
  import opened Text
  import opened Sorting
  import opened Decimals

  type Id = JsString
  type Instant = int // milliseconds

  // ----- Resources -----

  datatype Context = Context(principal: Id, tenant: Id, entity: Id, estate: Id, market: Id, organisation: Id)

  /** The principal starts a command; it does not own the company's resources. */
  predicate SameScope(a: Context, b: Context) {
    a.(principal := b.principal) == b
  }

  datatype RfqStatus = DraftRfq | Submitted | UnderReview | Quoted | Declined | WithdrawnRfq | ExpiredRfq | Closed
  datatype QuoteStatus = DraftQuote | Issued | Accepted | Rejected | Withdrawn | Expired | Converted

  datatype RfqLine = RfqLine(lineId: Id, variant: Id, quantity: string, quantityUnit: string)
  datatype QuoteLine = QuoteLine(lineId: Id, variant: Id, quantityUnit: string, amounts: LineAmounts)

  datatype Rfq = Rfq(context: Context, lines: seq<RfqLine>, status: RfqStatus, version: nat, updatedAt: Instant)

  datatype Quotation = Quotation(
    context: Context, rfq: Id, lines: seq<QuoteLine>, total: string, validUntil: Instant,
    status: QuoteStatus, version: nat, updatedAt: Instant)

  datatype Resource = AnRfq(rfq: Rfq) | AQuotation(quotation: Quotation)
  {
    function Version(): nat {
      if AnRfq? then rfq.version else quotation.version
    }

    function ContextOf(): Context {
      if AnRfq? then rfq.context else quotation.context
    }

    function UpdatedAt(): Instant {
      if AnRfq? then rfq.updatedAt else quotation.updatedAt
    }

    /** The resource as the database stamps it. */
    function Stamped(at: Instant): Resource {
      if AnRfq? then AnRfq(rfq.(updatedAt := at)) else AQuotation(quotation.(updatedAt := at))
    }
  }

  datatype Refusal =
    | InvalidRequest | NotFound | Conflict | AuthorityUnavailable | AuthorityDenied | CommitmentNotQualified
    | Raised // an error of the database, not a refusal of the program

  // ----- Transitions -----

  predicate RfqMoves(from: RfqStatus, to: RfqStatus) {
    match from
    case DraftRfq => to in {Submitted, WithdrawnRfq}
    case Submitted => to in {UnderReview, Declined, WithdrawnRfq, ExpiredRfq}
    case UnderReview => to in {Quoted, Declined, WithdrawnRfq, ExpiredRfq}
    case Quoted => to in {UnderReview, Closed, WithdrawnRfq, ExpiredRfq}
    case _ => false
  }

  function TransitionRfq(current: Rfq, next: RfqStatus, version: int, now: Instant): Result<Rfq, Refusal> {
    if version != current.version || !RfqMoves(current.status, next) || now < current.updatedAt then
      Failure(Conflict)
    else
      Success(current.(status := next, version := current.version + 1, updatedAt := now))
  }

  function TransitionQuotation(current: Quotation, next: QuoteStatus, version: int, now: Instant): Result<Quotation, Refusal> {
    if next == Accepted || next == Converted then
      Failure(CommitmentNotQualified)
    else if current.version != version || current.status != Issued || next !in {Rejected, Withdrawn, Expired} || now < current.updatedAt then
      Failure(Conflict)
    else if if next == Expired then now < current.validUntil else now >= current.validUntil then
      Failure(Conflict)
    else
      Success(current.(status := next, version := current.version + 1, updatedAt := now))
  }

  // ----- Creating and issuing -----

  /** A request for quotation as given; its texts are checked elsewhere. */
  datatype RfqInput = RfqInput(context: Context, lines: seq<RfqLine>)

  datatype QuoteInput = QuoteInput(lines: seq<QuoteLine>, total: string, validUntil: Instant)

  /**
   A payload of another shape is known by its canonical text, and by its context if an
   RFQ can be read that far; what the canonical printer cannot print has no digest.
   */
  datatype Payload =
    | NoPayload | ForRfq(input: RfqInput) | ForQuote(quote: QuoteInput)
    | OtherShape(text: string, context: Option<Context>)
    | Unprintable

  predicate UniqueIds(ids: seq<Id>) {
    forall i, j :: 0 <= i < j < |ids| ==> ids[i] != ids[j]
  }

  function RfqLineIds(lines: seq<RfqLine>): seq<Id> {
    seq(|lines|, i requires 0 <= i < |lines| => lines[i].lineId)
  }

  function QuoteLineIds(lines: seq<QuoteLine>): seq<Id> {
    seq(|lines|, i requires 0 <= i < |lines| => lines[i].lineId)
  }

  /** Of an RFQ the context is read before the rest. */
  function CreateRfq(payload: Payload, resolved: Context, now: Instant): Result<Rfq, Refusal> {
    match payload
    case ForRfq(RfqInput(context, lines)) =>
      if context != resolved then
        Failure(AuthorityDenied)
      else if !(1 <= |lines| <= 100) || !(forall i :: 0 <= i < |lines| ==> IsPositive(lines[i].quantity))
              || !UniqueIds(RfqLineIds(lines)) then
        Failure(InvalidRequest)
      else
        Success(Rfq(context, lines, DraftRfq, 1, now))
    case OtherShape(_, Some(context)) => Failure(if context != resolved then AuthorityDenied else InvalidRequest)
    case _ => Failure(InvalidRequest)
  }

  function AmountsOf(lines: seq<QuoteLine>): (amounts: seq<LineAmounts>)
    ensures |amounts| == |lines| && forall i :: 0 <= i < |lines| ==> amounts[i] == lines[i].amounts
  {
    seq(|lines|, i requires 0 <= i < |lines| => lines[i].amounts)
  }

  predicate Offered(line: QuoteLine, rfq: Rfq) {
    exists i :: 0 <= i < |rfq.lines| && rfq.lines[i].variant == line.variant && rfq.lines[i].quantityUnit == line.quantityUnit
  }

  /** Whether the RFQ may receive a quotation is asked before the payload is read. */
  function IssueQuotation(payload: Payload, rfqId: Id, rfq: Rfq, now: Instant): Result<Quotation, Refusal> {
    if rfq.status != UnderReview then
      Failure(Conflict)
    else
      match payload
      case ForQuote(QuoteInput(lines, total, validUntil)) =>
        if !AmountsAccepted(AmountsOf(lines), total) || !(forall i :: 0 <= i < |lines| ==> Offered(lines[i], rfq))
           || !UniqueIds(QuoteLineIds(lines)) || validUntil <= now then
          Failure(InvalidRequest)
        else
          Success(Quotation(rfq.context, rfqId, lines, total, validUntil, Issued, 1, now))
      case _ => Failure(InvalidRequest)
  }

  // ----- Commands -----

  datatype Action =
    | RfqCreate | RfqSubmit | RfqReview | RfqDecline | RfqWithdraw | RfqExpire | RfqClose
    | QuotationIssue | QuotationReject | QuotationWithdraw | QuotationExpire
    | RfqRead | QuotationRead

  datatype Command = Command(
    action: Action, scope: Context, key: Id, resource: Option<Id>, expected: Option<int>, payload: Payload)

  const MAX_SAFE: int := 0x1F_FFFF_FFFF_FFFF

  /** The closed envelope: create names no resource, and only create and issue carry a payload. */
  predicate EnvelopeOk(cmd: Command) {
    && cmd.action != RfqRead && cmd.action != QuotationRead
    && (cmd.action == RfqCreate ==> cmd.resource.None? && cmd.expected.None?)
    && (cmd.action != RfqCreate && cmd.action != QuotationIssue ==> cmd.payload == NoPayload)
    && (cmd.action == QuotationIssue ==> cmd.payload != NoPayload)
    && 16 <= |cmd.key| <= 128
    && (cmd.action != RfqCreate ==>
          && cmd.resource.Some? && cmd.resource.value != []
          && cmd.expected.Some? && 1 <= cmd.expected.value <= MAX_SAFE)
  }

  function RfqTarget(action: Action): Option<RfqStatus> {
    match action
    case RfqSubmit => Some(Submitted)
    case RfqReview => Some(UnderReview)
    case RfqDecline => Some(Declined)
    case RfqWithdraw => Some(WithdrawnRfq)
    case RfqExpire => Some(ExpiredRfq)
    case RfqClose => Some(Closed)
    case _ => None
  }

  function QuoteTarget(action: Action): Option<QuoteStatus> {
    match action
    case QuotationReject => Some(Rejected)
    case QuotationWithdraw => Some(Withdrawn)
    case QuotationExpire => Some(Expired)
    case _ => None
  }

  // ----- The tables and their guards -----

  datatype Event = Event(id: Id, version: nat, document: Resource)
  datatype CommandKey = CommandKey(scope: Context, key: Id)
  datatype Record = Record(request: Command, response: Resource)

  datatype Db = Db(resources: map<Id, Resource>, commands: map<CommandKey, Record>, events: seq<Event>)

  predicate OpenQuote(r: Resource, parent: Id) {
    r.AQuotation? && r.quotation.rfq == parent && r.quotation.status in {DraftQuote, Issued, Accepted}
  }

  predicate HasOpen(db: Db, parent: Id) {
    exists id :: id in db.resources && OpenQuote(db.resources[id], parent)
  }

  predicate IsIssued(r: Resource, parent: Id) {
    r.AQuotation? && r.quotation.rfq == parent && r.quotation.status == Issued
  }

  predicate HasIssued(db: Db, parent: Id) {
    exists id :: id in db.resources && IsIssued(db.resources[id], parent)
  }

  predicate BlocksParent(r: Resource, parent: Id) {
    r.AQuotation? && r.quotation.rfq == parent && r.quotation.status in {Issued, Accepted}
  }

  predicate HasBlocking(db: Db, parent: Id) {
    exists id :: id in db.resources && BlocksParent(db.resources[id], parent)
  }

  /** The insert guard, the primary key and the one-open-quotation index. */
  predicate MayInsert(db: Db, id: Id, r: Resource, at: Instant) {
    && id !in db.resources && r.Version() == 1
    && if r.AnRfq? then r.rfq.status == DraftRfq
       else
         var q := r.quotation;
         && q.status == Issued && q.rfq in db.resources && db.resources[q.rfq].AnRfq?
         && db.resources[q.rfq].rfq.status == UnderReview && q.context == db.resources[q.rfq].rfq.context
         && at < q.validUntil && !HasOpen(db, q.rfq)
  }

  /** The update guard: immutable content, one version on, and an allowed transition at the database's own clock. */
  predicate MayUpdate(db: Db, id: Id, r: Resource, at: Instant)
    requires id in db.resources
  {
    var before := db.resources[id];
    && r.Version() == before.Version() + 1
    && match (before, r)
       case (AnRfq(a), AnRfq(b)) =>
         && b == a.(status := b.status, version := b.version, updatedAt := b.updatedAt)
         && RfqMoves(a.status, b.status)
         && (b.status == Quoted ==> HasIssued(db, id))
         && (b.status in {UnderReview, Closed, WithdrawnRfq, ExpiredRfq} ==> !HasBlocking(db, id))
       case (AQuotation(a), AQuotation(b)) =>
         && b == a.(status := b.status, version := b.version, updatedAt := b.updatedAt)
         && a.status == Issued && b.status in {Rejected, Withdrawn, Expired}
         && (if b.status == Expired then a.validUntil <= at else at < a.validUntil)
       case _ => false
  }

  /** Writes a row as the database stamps it, and its history with it. */
  function Write(db: Db, id: Id, r: Resource, at: Instant): Db {
    var stamped := r.Stamped(at);
    db.(resources := db.resources[id := stamped], events := db.events + [Event(id, r.Version(), stamped)])
  }

  function Insert(db: Db, id: Id, r: Resource, at: Instant): Result<Db, Refusal> {
    if MayInsert(db, id, r, at) then Success(Write(db, id, r, at)) else Failure(Raised)
  }

  function Update(db: Db, id: Id, r: Resource, at: Instant): Result<Db, Refusal> {
    if id !in db.resources || r.Version() < 1 || db.resources[id].Version() != r.Version() - 1 then
      Failure(Conflict)
    else if MayUpdate(db, id, r, at) then
      Success(Write(db, id, r, at))
    else
      Failure(Raised)
  }

  // ----- One transaction -----

  /**
   What a transaction meets: the instant it reads, the instants of its writes, a new
   identifier, and the answers of the authority when asked and when checked again.
   */
  datatype Moment = Moment(now: Instant, write: nat -> Instant, newId: Id, authority: Option<Refusal>, recheck: Option<Refusal>)

  /** Clock readings within a transaction do not go back. */
  ghost predicate Ticking(m: Moment) {
    m.now <= m.write(0) && forall i: nat :: m.write(i) <= m.write(i + 1)
  }

  /** A resource of another scope is not found. */
  function Lock(db: Db, scope: Context, id: Id): Result<Resource, Refusal> {
    if id in db.resources && SameScope(db.resources[id].ContextOf(), scope) then Success(db.resources[id]) else Failure(NotFound)
  }

  lemma IdsAreOrdered()
    ensures TotalOrder<Id>(Leq)
  {
    forall x: Id { LeqReflexive(x); }
    forall x: Id, y: Id ensures Leq(x, y) || Leq(y, x) { LeqTotal(x, y); }
    forall x: Id, y: Id | Leq(x, y) && Leq(y, x) ensures x == y { LeqAntisymmetric(x, y); }
    forall x: Id, y: Id, z: Id | Leq(x, y) && Leq(y, z) ensures Leq(x, z) { LeqTransitive(x, y, z); }
  }

  /** The ISSUED quotations of an RFQ, by id. */
  function IssuedChildren(db: Db, parent: Id): (ids: seq<Id>)
    ensures forall id :: id in ids <==> id in db.resources && IsIssued(db.resources[id], parent)
    ensures Ascending(ids, Leq)
    ensures ids == [] <==> !HasIssued(db, parent)
  {
    IdsAreOrdered();
    var ids := set id | id in db.resources && IsIssued(db.resources[id], parent);
    var sorted := Sort(ids, Leq);
    assert sorted != [] ==> sorted[0] in sorted;
    sorted
  }

  /** How a child follows its parent, by the instant the command read. */
  function CascadeStatus(q: Quotation, now: Instant): QuoteStatus {
    if now >= q.validUntil then Expired else Withdrawn
  }

  /** Closes the children one after another; k counts the writes. */
  function Cascade(db: Db, children: seq<Id>, m: Moment, k: nat): Result<Db, Refusal>
    decreases |children|
  {
    if children == [] then
      Success(db)
    else if children[0] !in db.resources || !db.resources[children[0]].AQuotation? then
      Failure(Conflict)
    else
      var q := db.resources[children[0]].quotation;
      var closed :- TransitionQuotation(q, CascadeStatus(q, m.now), q.version, m.now);
      var db1 :- Update(db, children[0], AQuotation(closed), m.write(k));
      Cascade(db1, children[1..], m, k + 1)
  }

  function Cascades(next: RfqStatus): bool {
    next == WithdrawnRfq || next == ExpiredRfq
  }

  type Applied = Result<(Db, Resource), Refusal>

  function ApplyCreate(db: Db, cmd: Command, m: Moment): Applied {
    var rfq :- CreateRfq(cmd.payload, cmd.scope, m.now);
    var db1 :- Insert(db, m.newId, AnRfq(rfq), m.write(0));
    Success((db1, db1.resources[m.newId]))
  }

  function ApplyIssue(db: Db, cmd: Command, id: Id, r: Resource, m: Moment): Applied {
    if !r.AnRfq? then
      Failure(Conflict)
    else
      var quote :- IssueQuotation(cmd.payload, id, r.rfq, m.now);
      var db1 :- Insert(db, m.newId, AQuotation(quote), m.write(0));
      var quoted :- TransitionRfq(r.rfq, Quoted, r.rfq.version, m.now);
      var db2 :- Update(db1, id, AnRfq(quoted), m.write(1));
      Success((db2, db1.resources[m.newId]))
  }

  function ApplyRfq(db: Db, id: Id, r: Resource, next: RfqStatus, m: Moment): Applied {
    if !r.AnRfq? then
      Failure(Conflict)
    else
      var children := if Cascades(next) then IssuedChildren(db, id) else [];
      var db1 :- Cascade(db, children, m, 0);
      var moved :- TransitionRfq(r.rfq, next, r.rfq.version, m.now);
      var db2 :- Update(db1, id, AnRfq(moved), m.write(|children|));
      Success((db2, db2.resources[id]))
  }

  function ApplyQuote(db: Db, id: Id, r: Resource, next: QuoteStatus, m: Moment): Applied {
    if !r.AQuotation? then
      Failure(Conflict)
    else
      var moved :- TransitionQuotation(r.quotation, next, r.quotation.version, m.now);
      var db1 :- Update(db, id, AQuotation(moved), m.write(0));
      Success((db1, db1.resources[id]))
  }

  function Apply(db: Db, cmd: Command, locked: Option<Resource>, m: Moment): Applied
    requires EnvelopeOk(cmd)
  {
    if cmd.action == RfqCreate then
      ApplyCreate(db, cmd, m)
    else if locked.None? || locked.value.Version() != cmd.expected.value then
      Failure(Conflict)
    else if cmd.action == QuotationIssue then
      ApplyIssue(db, cmd, cmd.resource.value, locked.value, m)
    else if RfqTarget(cmd.action).Some? then
      ApplyRfq(db, cmd.resource.value, locked.value, RfqTarget(cmd.action).value, m)
    else if QuoteTarget(cmd.action).Some? then
      ApplyQuote(db, cmd.resource.value, locked.value, QuoteTarget(cmd.action).value, m)
    else
      Failure(InvalidRequest)
  }

  datatype Answer = AppliedNow(resource: Resource) | Replayed(resource: Resource) | Refused(reason: Refusal)

  /** One command, whole or not at all. */
  function Execute(db: Db, cmd: Command, m: Moment): (Db, Answer) {
    var key := CommandKey(cmd.scope, cmd.key);
    if !EnvelopeOk(cmd) || cmd.payload.Unprintable? then
      (db, Refused(InvalidRequest))
    else if key in db.commands && db.commands[key].request != cmd then
      (db, Refused(Conflict))
    else
      var locked := if cmd.resource.Some? then Lock(db, cmd.scope, cmd.resource.value) else Failure(NotFound);
      if cmd.resource.Some? && locked.Failure? then
        (db, Refused(locked.error))
      else if m.authority.Some? then
        (db, Refused(m.authority.value))
      else if key in db.commands then
        (db, if m.recheck.Some? then Refused(m.recheck.value) else Replayed(db.commands[key].response))
      else
        var applied := Apply(db, cmd, if locked.Success? then Some(locked.value) else None, m);
        if applied.Failure? then
          (db, Refused(applied.error))
        else if m.recheck.Some? then
          (db, Refused(m.recheck.value))
        else
          (applied.value.0.(commands := db.commands[key := Record(cmd, applied.value.1)]), AppliedNow(applied.value.1))
  }
}
