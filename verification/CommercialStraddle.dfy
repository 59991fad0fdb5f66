/** A run whose last command is refused because a quotation's validity ends between two clock readings. */
module CommercialStraddle {
  import opened Wrappers
  import opened Text
  import opened Numerals
  import opened Decimals
  import opened Commercial
  import opened CommercialRuns

  const SCOPE := Context([1], [2], [3], [4], [5], [6])
  const RFQ: Id := [7]
  const QUOTE: Id := [8]
  const LINES := [RfqLine([9], [10], "1", "KG")]
  const OFFER := QuoteInput([QuoteLine([11], [10], "KG", LineAmounts("1", "1", "1"))], "1", 1000)

  function Key(k: CodeUnit): Id {
    seq(16, _ => k)
  }

  /** A transaction that reads and writes at one instant, or writes one millisecond later. */
  function At(now: Instant, newId: Id, late: nat): Moment {
    Moment(now, _ => now + late, newId, None, None)
  }

  function Ask(action: Action, k: CodeUnit, version: int): Command {
    Command(action, SCOPE, Key(k), Some(RFQ), Some(version), NoPayload)
  }

  const CREATE := Command(RfqCreate, SCOPE, Key(20), None, None, ForRfq(RfqInput(SCOPE, LINES)))
  const ISSUE := Command(QuotationIssue, SCOPE, Key(23), Some(RFQ), Some(3), ForQuote(OFFER))
  const WITHDRAW := Ask(RfqWithdraw, 24, 4)

  /** An RFQ is created, submitted, reviewed and quoted. */
  function Quoting(): seq<Call> {
    [Call(CREATE, At(0, RFQ, 0)), Call(Ask(RfqSubmit, 21, 1), At(1, QUOTE, 0)),
     Call(Ask(RfqReview, 22, 2), At(2, QUOTE, 0)), Call(ISSUE, At(3, QUOTE, 0))]
  }

  lemma KeysDiffer(j: CodeUnit, k: CodeUnit)
    ensures j != k ==> Key(j) != Key(k)
  {
    assert Key(j)[0] == j && Key(k)[0] == k;
  }

  /** The one RFQ, and no command under a later key. */
  ghost predicate OneRfq(db: Db, status: RfqStatus, version: nat, last: CodeUnit) {
    && db.resources == map[RFQ := AnRfq(Rfq(SCOPE, LINES, status, version, version - 1))]
    && forall k: CodeUnit :: k > last ==> CommandKey(SCOPE, Key(k)) !in db.commands
  }

  /** A new command that finds its resource and applies is recorded. */
  lemma Executes(db: Db, cmd: Command, r: Resource, m: Moment)
    requires EnvelopeOk(cmd) && !cmd.payload.Unprintable? && cmd.resource.Some? && CommandKey(cmd.scope, cmd.key) !in db.commands
    requires Lock(db, cmd.scope, cmd.resource.value) == Success(r) && m.authority.None? && m.recheck.None?
    ensures var x := Apply(db, cmd, Some(r), m);
            Execute(db, cmd, m) ==
            if x.Success? then
              (x.value.0.(commands := db.commands[CommandKey(cmd.scope, cmd.key) := Record(cmd, x.value.1)]), AppliedNow(x.value.1))
            else
              (db, Refused(x.error))
  {
    hide EnvelopeOk, Lock, Apply;
  }

  lemma AskOk(action: Action, k: CodeUnit, version: int)
    requires RfqTarget(action).Some? && 1 <= version <= 10
    ensures EnvelopeOk(Ask(action, k, version))
  {
  }

  lemma AskApplies(db: Db, action: Action, k: CodeUnit, version: int, r: Resource, m: Moment)
    requires RfqTarget(action).Some? && 1 <= version <= 10 && r.Version() == version
    ensures EnvelopeOk(Ask(action, k, version))
    ensures Apply(db, Ask(action, k, version), Some(r), m) == ApplyRfq(db, RFQ, r, RfqTarget(action).value, m)
  {
    hide ApplyRfq, EnvelopeOk;
    AskOk(action, k, version);
  }

  lemma LaterKeys(db: Db, db1: Db, k: CodeUnit, cmd: Command, r: Resource)
    requires forall j: CodeUnit :: j >= k ==> CommandKey(SCOPE, Key(j)) !in db.commands
    requires db1.commands == db.commands[CommandKey(SCOPE, Key(k)) := Record(cmd, r)]
    ensures forall j: CodeUnit :: j > k ==> CommandKey(SCOPE, Key(j)) !in db1.commands
  {
    forall j: CodeUnit | j > k ensures CommandKey(SCOPE, Key(j)) !in db1.commands {
      KeysDiffer(k, j);
    }
  }

  lemma Creates() returns (db: Db)
    ensures db == Execute(EMPTY, CREATE, At(0, RFQ, 0)).0 && OneRfq(db, DraftRfq, 1, 20)
  {
    db := Execute(EMPTY, CREATE, At(0, RFQ, 0)).0;
    var line := LINES[0];
    assert "1"[0] == '1' && IsPositive(line.quantity);
    LaterKeys(EMPTY, db, 20, CREATE, db.resources[RFQ]);
  }

  lemma RfqGoesOn(db: Db, status: RfqStatus, next: RfqStatus, version: nat, last: CodeUnit)
    requires version >= 1 && next in {Submitted, UnderReview} && RfqMoves(status, next) && OneRfq(db, status, version, last)
    ensures var m, x := At(version, QUOTE, 0), ApplyRfq(db, RFQ, db.resources[RFQ], next, At(version, QUOTE, 0));
            x.Success? && x.value.0.resources == map[RFQ := AnRfq(Rfq(SCOPE, LINES, next, version + 1, version))]
  {
    hide RfqMoves;
    var m, r := At(version, QUOTE, 0), db.resources[RFQ].rfq;
    assert !HasBlocking(db, RFQ);
    assert Cascade(db, [], m, 0) == Success(db);
    var moved := AnRfq(Rfq(SCOPE, LINES, next, version + 1, version));
    assert TransitionRfq(r, next, version, m.now) == Success(moved.rfq);
    assert Update(db, RFQ, moved, version) == Success(Write(db, RFQ, moved, version));
    assert db.resources[RFQ := moved] == map[RFQ := moved];
  }

  lemma MovesOn(db: Db, action: Action, status: RfqStatus, next: RfqStatus, k: CodeUnit, version: nat) returns (db1: Db)
    requires 1 <= version <= 10 && k > 0 && RfqTarget(action) == Some(next) && next in {Submitted, UnderReview}
    requires RfqMoves(status, next) && OneRfq(db, status, version, k - 1)
    ensures db1 == Execute(db, Ask(action, k, version), At(version, QUOTE, 0)).0 && OneRfq(db1, next, version + 1, k)
  {
    hide Execute, Apply, ApplyRfq, RfqMoves, EnvelopeOk;
    var cmd, m := Ask(action, k, version), At(version, QUOTE, 0);
    db1 := Execute(db, cmd, m).0;
    AskApplies(db, action, k, version, db.resources[RFQ], m);
    RfqGoesOn(db, status, next, version, k - 1);
    Executes(db, cmd, db.resources[RFQ], m);
    LaterKeys(db, db1, k, cmd, Apply(db, cmd, Some(db.resources[RFQ]), m).value.1);
  }

  // ----- The quotation -----

  lemma OneIsOne()
    ensures IsPositive("1") && IsDecimal("1") && ToScaled("1") == Scaled(1, 0)
  {
    var s := "1";
    assert s[0] == '1';
    assert Whole(s) == s && Fraction(s) == "";
    ValueAppend("", '1');
    assert "" + ['1'] == s && s + "" == s;
  }

  lemma OneSums()
    ensures SumOf([Scaled(1, 0)]) == Scaled(1, 0) && Product(Scaled(1, 0), Scaled(1, 0)) == Scaled(1, 0)
  {
    var parts := [Scaled(1, 0)];
    assert parts[1..] == [] && MaxScale([]) == 0 && SumAt([], 0) == 0 && Pow10(0) == 1;
  }

  lemma OfferAccepted()
    ensures AmountsAccepted(AmountsOf(OFFER.lines), OFFER.total)
  {
    hide IsPositive, IsDecimal, ToScaled, SumOf, Product;
    OneIsOne();
    OneSums();
    var amounts := AmountsOf(OFFER.lines);
    assert amounts[0] == LineAmounts("1", "1", "1");
    assert LineTotals(amounts) == [Scaled(1, 0)];
  }

  const ISSUED := Quotation(SCOPE, RFQ, OFFER.lines, "1", 1000, Issued, 1, 3)

  lemma OfferIssued(rfq: Rfq)
    requires rfq == Rfq(SCOPE, LINES, UnderReview, 3, 2)
    ensures IssueQuotation(ISSUE.payload, RFQ, rfq, 3) == Success(ISSUED)
  {
    hide AmountsAccepted;
    OfferAccepted();
    assert rfq.lines[0].variant == OFFER.lines[0].variant && Offered(OFFER.lines[0], rfq);
  }

  /** The QUOTED RFQ and its one quotation, valid until 1000. */
  ghost predicate QuotedOnce(db: Db) {
    && db.resources == map[RFQ := AnRfq(Rfq(SCOPE, LINES, Quoted, 4, 3)), QUOTE := AQuotation(ISSUED)]
    && CommandKey(SCOPE, Key(24)) !in db.commands
  }

  lemma IssueGoesOn(db: Db)
    requires OneRfq(db, UnderReview, 3, 22)
    ensures var x := ApplyIssue(db, ISSUE, RFQ, db.resources[RFQ], At(3, QUOTE, 0));
            x.Success? && x.value.0.resources == map[RFQ := AnRfq(Rfq(SCOPE, LINES, Quoted, 4, 3)), QUOTE := AQuotation(ISSUED)]
  {
    hide IssueQuotation;
    var m, r, quote := At(3, QUOTE, 0), db.resources[RFQ].rfq, AQuotation(ISSUED);
    OfferIssued(r);
    assert !HasOpen(db, RFQ);
    var db1 := Write(db, QUOTE, quote, 3);
    assert Insert(db, QUOTE, quote, m.write(0)) == Success(db1);
    assert IsIssued(db1.resources[QUOTE], RFQ) && HasIssued(db1, RFQ);
    var quoted := AnRfq(Rfq(SCOPE, LINES, Quoted, 4, 3));
    assert TransitionRfq(r, Quoted, 3, 3) == Success(quoted.rfq);
    assert Update(db1, RFQ, quoted, m.write(1)) == Success(Write(db1, RFQ, quoted, 3));
  }

  lemma Issues(db: Db) returns (db1: Db)
    requires OneRfq(db, UnderReview, 3, 22)
    ensures db1 == Execute(db, ISSUE, At(3, QUOTE, 0)).0 && QuotedOnce(db1)
  {
    hide Execute, ApplyIssue;
    var m := At(3, QUOTE, 0);
    db1 := Execute(db, ISSUE, m).0;
    IssueGoesOn(db);
    assert Apply(db, ISSUE, Some(db.resources[RFQ]), m) == ApplyIssue(db, ISSUE, RFQ, db.resources[RFQ], m);
    Executes(db, ISSUE, db.resources[RFQ], m);
    LaterKeys(db, db1, 23, ISSUE, Apply(db, ISSUE, Some(db.resources[RFQ]), m).value.1);
  }

  // ----- The run -----

  lemma QuotingPlays() returns (db: Db)
    ensures db == Play(EMPTY, Quoting()) && QuotedOnce(db) && Inv(db, 3) && Monotone(Quoting(), 0)
  {
    hide Execute, OneRfq, QuotedOnce, Inv, RfqMoves;
    var calls := Quoting();
    var db1 := Creates();
    Transitions();
    var db2 := MovesOn(db1, RfqSubmit, DraftRfq, Submitted, 21, 1);
    var db3 := MovesOn(db2, RfqReview, Submitted, UnderReview, 22, 2);
    db := Issues(db3);
    assert calls[1..][1..][1..][1..] == [];
    assert Play(db, []) == db;
    assert Play(db3, calls[1..][1..][1..]) == db;
    assert Play(db2, calls[1..][1..]) == db;
    assert Play(db1, calls[1..]) == db;
    Ticks(calls);
    EmptyHolds(0);
    PlayKeeps(EMPTY, calls, 0);
  }

  lemma Transitions()
    ensures RfqMoves(DraftRfq, Submitted) && RfqMoves(Submitted, UnderReview)
  {
  }

  lemma Ticks(calls: seq<Call>)
    requires calls == Quoting()
    ensures Monotone(calls, 0)
  {
    assert calls[1..][1..][1..][1..] == [];
    assert Monotone(calls[1..][1..][1..], 2);
    assert Monotone(calls[1..][1..], 1);
    assert Monotone(calls[1..], 0);
  }

  /** One clock reading before the quotation's validity ends, and a write when it ends. */
  const STRADDLING := At(999, QUOTE, 1)

  /** The same reading with a write at once. */
  const PROMPT := At(999, QUOTE, 0)

  /**
   A reachable state in which a withdrawal is allowed by the program and refused by the
   guard: its cascade withdraws a quotation that has expired by the time of the write.
   */
  lemma CascadeRefused()
    ensures var db := Play(EMPTY, Quoting());
            && Monotone(Quoting() + [Call(WITHDRAW, STRADDLING)], 0)
            && IssuedIn(db, QUOTE, RFQ) && Straddles(db.resources[QUOTE].quotation, STRADDLING)
            && Execute(db, WITHDRAW, STRADDLING) == (db, Refused(Raised))
            && Execute(db, WITHDRAW, PROMPT).1.AppliedNow?
  {
    hide Execute, Apply, ApplyRfq, Inv, EnvelopeOk, Monotone, Play;
    var db := QuotingPlays();
    var r := db.resources[RFQ];
    assert IssuedIn(db, QUOTE, RFQ);
    forall m | m == STRADDLING || m == PROMPT
      ensures Execute(db, WITHDRAW, m).1.AppliedNow? <==> MayMove(db, RFQ, WithdrawnRfq, m)
      ensures !Execute(db, WITHDRAW, m).1.AppliedNow? ==> Execute(db, WITHDRAW, m) == (db, Refused(Raised))
    {
      AskApplies(db, RfqWithdraw, 24, 4, r, m);
      Executes(db, WITHDRAW, r, m);
      RfqMovesWithChild(db, RFQ, WithdrawnRfq, m, 3);
    }
    OnlyChild(db);
    TicksAppend(Quoting(), STRADDLING);
  }

  lemma OnlyChild(db: Db)
    requires QuotedOnce(db)
    ensures forall child :: IssuedIn(db, child, RFQ) ==> child == QUOTE
  {
  }

  lemma TicksAppend(calls: seq<Call>, m: Moment)
    requires calls == Quoting() && m == STRADDLING
    ensures Monotone(calls + [Call(WITHDRAW, m)], 0)
  {
    var all := calls + [Call(WITHDRAW, m)];
    assert all[1..][1..][1..][1..] == [Call(WITHDRAW, m)];
    assert all[1..][1..][1..][1..][1..] == [];
    assert Monotone(all[1..][1..][1..][1..], 3);
    assert Monotone(all[1..][1..][1..], 2);
    assert Monotone(all[1..][1..], 1);
    assert Monotone(all[1..], 0);
  }
}
