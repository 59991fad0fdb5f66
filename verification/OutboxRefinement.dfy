/** Every turn of the dispatcher, for every reply, and as a run of the protocol's steps. */
module OutboxRefinement {
  import opened Wrappers
  import opened Text
  import opened Outbox
  import opened OutboxProtocol
  import D = OutboxDispatcher

  // ----- One turn, column by column -----

  /** The row may be claimed: due for an attempt, or abandoned by a worker whose lease is over. */
  predicate Waiting(row: Row, only: Option<string>, now: Instant) {
    && !row.deleted && row.subscribed && (only == None || only == Some(row.event))
    && match row.status
       case Pending => row.nextAt <= now
       case Retry => row.nextAt <= now
       case Publishing => row.lease.Some? && row.lease.value < now
       case Published => false
       case DeadLetter => false
  }

  /** The row that a turn claims: of those waiting the one longest due, then the one first by id. */
  ghost predicate First(rows: D.Rows, only: Option<string>, now: Instant, id: RowId) {
    && id in rows && Waiting(rows[id], only, now)
    && forall other :: other in rows && Waiting(rows[other], only, now) ==>
         rows[id].nextAt < rows[other].nextAt || (rows[id].nextAt == rows[other].nextAt && Leq(id, other))
  }

  /** With what a turn ends: no failure only if the broker confirmed an event that may be sent. */
  function FailureIn(envelope: Envelope, reply: D.Reply): Option<Cause> {
    if envelope == InvalidEnvelope then Some(EventInvalid)
    else if envelope == Oversized then Some(EventSizeInvalid)
    else if reply == D.Nacked then Some(BrokerNack)
    else if reply == D.Unroutable then Some(BrokerUnroutable)
    else if reply == D.NoAnswer(true) || reply == D.NoAnswer(false) then Some(BrokerUnknownOutcome)
    else None
  }

  /** The row after its turn: claimed for its next attempt, and settled while its minute lasts. */
  function After(row: Row, turn: D.Turn): Row {
    var attempt, failure := row.attempts + 1, FailureIn(row.envelope, turn.reply);
    if turn.settleAt >= turn.claimAt + 60 then
      row.(status := Publishing, attempts := attempt, lease := Some(turn.claimAt + 60))
    else if failure == None then
      row.(status := Published, attempts := attempt, lease := None, error := None)
    else
      row.(status := if attempt < 8 && failure.value !in {EventInvalid, EventSizeInvalid} then Retry else DeadLetter,
           attempts := attempt, lease := None, error := failure,
           nextAt := turn.settleAt + Pow2(if attempt <= 9 then attempt - 1 else 8))
  }

  /** What the broker persisted of a turn. */
  predicate Kept(envelope: Envelope, reply: D.Reply) {
    envelope == Valid && reply in {D.Confirmed, D.NoAnswer(true)}
  }

  /** What a turn with this row leaves and answers; no other row is touched. */
  predicate Took(t: D.Table, turn: D.Turn, id: RowId, next: D.Table, outcome: Result<D.Outcome, D.Failure>) {
    && id in t.rows && next.rows == t.rows[id := After(t.rows[id], turn)]
    && next.accepted == t.accepted + (if Kept(t.rows[id].envelope, turn.reply) then [Claim(id, t.rows[id].attempts + 1)] else [])
    && outcome == (if turn.settleAt >= turn.claimAt + 60 then Result.Failure(D.LeaseFenceLost)
                   else Success(D.Ended(After(t.rows[id], turn).status)))
  }

  lemma WaitingAlike(row: Row, only: Option<string>, now: Instant)
    ensures Eligible(row, only, now) <==> Waiting(row, only, now)
    ensures Eligible(row, only, now) ==> !row.deleted
  {
  }

  /**
   For every table, selection and reply: the turn takes the first waiting row, or finds none
   and leaves everything.
   */
  lemma TurnEnds(t: D.Table, only: Option<string>, turn: D.Turn)
    ensures var (next, outcome) := D.OneTurn(t, only, turn);
            if forall id :: id in t.rows ==> !Waiting(t.rows[id], only, turn.claimAt) then
              next == t && outcome == Success(D.NoDue)
            else
              exists id :: First(t.rows, only, turn.claimAt, id) && Took(t, turn, id, next, outcome)
  {
    hide D.NextDue, Eligible, Waiting, D.OneTurn, Took;
    var next := D.NextDue(t.rows, only, turn.claimAt);
    FirstIs(t.rows, only, turn.claimAt);
    if next.Some? {
      TurnOf(t, only, turn, next.value);
    } else {
      NoTurn(t, only, turn);
    }
  }

  lemma FirstIs(rows: D.Rows, only: Option<string>, now: Instant)
    ensures match D.NextDue(rows, only, now)
            case None => forall id :: id in rows ==> !Waiting(rows[id], only, now)
            case Some(id) => First(rows, only, now, id) && !rows[id].deleted
  {
    hide D.NextDue, Eligible, Waiting;
    var next := D.NextDue(rows, only, now);
    forall id | id in rows
      ensures Eligible(rows[id], only, now) <==> Waiting(rows[id], only, now)
      ensures Eligible(rows[id], only, now) ==> !rows[id].deleted
    {
      WaitingAlike(rows[id], only, now);
    }
    if next.Some? {
      forall other | other in rows && Waiting(rows[other], only, now)
        ensures rows[next.value].nextAt < rows[other].nextAt || (rows[next.value].nextAt == rows[other].nextAt && Leq(next.value, other))
      {
        assert Eligible(rows[other], only, now);
      }
    }
  }

  lemma NoTurn(t: D.Table, only: Option<string>, turn: D.Turn)
    requires D.NextDue(t.rows, only, turn.claimAt).None?
    ensures D.OneTurn(t, only, turn) == (t, Success(D.NoDue))
  {
    hide D.NextDue;
  }

  /** The claimed row, settled or left to its lease. */
  lemma AfterIs(row: Row, turn: D.Turn)
    requires !row.deleted
    ensures var attempt, failure := row.attempts + 1, D.FailureOf(row.envelope, turn.reply);
            var claimed := ClaimRow(row, turn.claimAt, LEASE_SECONDS);
            && failure == FailureIn(row.envelope, turn.reply) && (failure.Some? ==> !failure.value.OtherCause?)
            && (Fenced(claimed, attempt, turn.settleAt) <==> turn.settleAt < turn.claimAt + 60)
            && After(row, turn) == (if !Fenced(claimed, attempt, turn.settleAt) then claimed
                                    else if failure.None? then PublishRow(claimed)
                                    else FailRow(claimed, attempt, failure.value, turn.settleAt))
  {
    hide Delay, Pow2;
    DelayDoubles(row.attempts + 1);
  }

  lemma TurnOf(t: D.Table, only: Option<string>, turn: D.Turn, id: RowId)
    requires D.NextDue(t.rows, only, turn.claimAt) == Some(id) && id in t.rows && !t.rows[id].deleted
    ensures Took(t, turn, id, D.OneTurn(t, only, turn).0, D.OneTurn(t, only, turn).1)
  {
    hide D.NextDue, After, D.FailureOf, FailureIn, Fenced, PublishRow, FailRow, ClaimRow;
    var row := t.rows[id];
    var claimed := ClaimRow(row, turn.claimAt, LEASE_SECONDS);
    AfterIs(row, turn);
    assert t.rows[id := claimed][id := After(row, turn)] == t.rows[id := After(row, turn)];
    assert t.accepted + [] == t.accepted;
  }

  /** A row ends PUBLISHED only if its event may be sent, the broker confirmed it, and its claim is in the broker's log. */
  lemma PublishedIfConfirmed(t: D.Table, only: Option<string>, turn: D.Turn, id: RowId)
    requires id in t.rows && t.rows[id].status != Published
    requires id in D.OneTurn(t, only, turn).0.rows && D.OneTurn(t, only, turn).0.rows[id].status == Published
    ensures t.rows[id].envelope == Valid && turn.reply == D.Confirmed
    ensures Claim(id, t.rows[id].attempts + 1) in D.OneTurn(t, only, turn).0.accepted
  {
    hide D.OneTurn, Waiting;
    TurnEnds(t, only, turn);
  }

  // ----- Turns are runs of the protocol -----

  /** The protocol's state shows this table, and no worker is at it. */
  ghost predicate Shows(s: Sys, t: D.Table) {
    Inv(s) && s.rows == t.rows && s.accepted == t.accepted && s.workers == map[]
  }

  /** The worker's and the broker's steps between claim and settlement. */
  function Between(envelope: Envelope, reply: D.Reply, claim: Claim): seq<Step> {
    if envelope != Valid then [Refuse(0)]
    else
      match reply
      case Confirmed => [Send(0), Accept(claim), ConfirmSeen(0)]
      case Nacked => [Send(0), ConfirmLost(0, BrokerNack)]
      case Unroutable => [Send(0), ConfirmLost(0, BrokerUnroutable)]
      case NoAnswer(true) => [Send(0), Accept(claim), ConfirmLost(0, BrokerUnknownOutcome)]
      case NoAnswer(false) => [Send(0), ConfirmLost(0, BrokerUnknownOutcome)]
  }

  lemma Runs(s: Sys, a: Step, b: Step, c: Step)
    ensures Run(s, [a]) == Next(s, a)
    ensures Run(s, [a, b]) == Next(Next(s, a), b)
    ensures Run(s, [a, b, c]) == Next(Next(Next(s, a), b), c)
  {
    forall t ensures Run(t, [c]) == Next(t, c) { RunsOne(t, c); }
    forall t ensures Run(t, [b]) == Next(t, b) { RunsOne(t, b); }
    RunsOne(s, a);
    hide Next;
    assert [a, b][1..] == [b] && [b, c][1..] == [c] && [a, b, c][1..] == [b, c];
  }

  lemma RunsOne(s: Sys, a: Step)
    ensures Run(s, [a]) == Next(s, a)
  {
    hide Next;
    assert [a][1..] == [];
    assert Run(Next(s, a), []) == Next(s, a);
  }

  /** The state of one worker with its claim. */
  function Working(s: Sys, sent: seq<Claim>, accepted: seq<Claim>, claim: Claim, stage: Stage): Sys {
    Sys(s.now, s.rows, sent, accepted, map[0 := Work(claim, stage)])
  }

  lemma Steps(s: Sys, claim: Claim, cause: Cause)
    requires claim.id in s.rows && s == Working(s, s.sent, s.accepted, claim, Holding) && BrokerCause(cause)
    requires Times(s.sent, claim) == 0 && Times(s.accepted, claim) == 0
    ensures s.rows[claim.id].envelope != Valid ==>
      Next(s, Refuse(0)) == Working(s, s.sent, s.accepted, claim, Failed(if s.rows[claim.id].envelope == Oversized then EventSizeInvalid else EventInvalid))
    ensures s.rows[claim.id].envelope == Valid ==>
      var sent := Working(s, s.sent + [claim], s.accepted, claim, Stage.Sent);
      var kept := Working(s, s.sent + [claim], s.accepted + [claim], claim, Stage.Sent);
      && Next(s, Send(0)) == sent && Next(sent, Accept(claim)) == kept
      && Next(sent, ConfirmLost(0, cause)) == Working(s, s.sent + [claim], s.accepted, claim, Failed(cause))
      && Next(kept, ConfirmLost(0, cause)) == Working(s, s.sent + [claim], s.accepted + [claim], claim, Failed(cause))
      && Next(kept, ConfirmSeen(0)) == Working(s, s.sent + [claim], s.accepted + [claim], claim, Acked)
  {
    TimesAdds(s.sent, claim, claim);
  }

  /** The state after the claim and the steps up to the settlement. */
  lemma Worked(s: Sys, claim: Claim, reply: D.Reply)
    requires Inv(s) && s.workers == map[0 := Work(claim, Holding)] && claim.id in s.rows
    ensures var envelope := s.rows[claim.id].envelope;
            Run(s, Between(envelope, reply, claim)) ==
            Working(s, s.sent + (if envelope == Valid then [claim] else []), s.accepted + (if Kept(envelope, reply) then [claim] else []), claim,
                    match FailureIn(envelope, reply) case None => Acked case Some(cause) => Failed(cause))
  {
    hide Inv, Next, Run, Times;
    var envelope := s.rows[claim.id].envelope;
    assert s.sent + [] == s.sent && s.accepted + [] == s.accepted;
    NotYetSent(s, claim);
    var cause := if envelope == Valid && FailureIn(envelope, reply).Some? then FailureIn(envelope, reply).value else BrokerNack;
    Steps(s, claim, cause);
    Runs(s, Refuse(0), Crash(0), Crash(0));
    Runs(s, Send(0), ConfirmLost(0, cause), Crash(0));
    Runs(s, Send(0), Accept(claim), ConfirmSeen(0));
    Runs(s, Send(0), Accept(claim), ConfirmLost(0, cause));
  }

  lemma NotYetSent(s: Sys, claim: Claim)
    requires Inv(s) && s.workers == map[0 := Work(claim, Holding)]
    ensures claim !in s.sent && Times(s.sent, claim) == 0 && Times(s.accepted, claim) == 0
  {
    assert WorkOk(s, s.workers[0]);
    TimesAdds(s.sent, claim, claim);
    TimesAdds(s.accepted, claim, claim);
  }

  /** The steps of one turn with a row, from a state of the same table. */
  function StepsOf(s: Sys, turn: D.Turn, id: RowId): seq<Step>
    requires id in s.rows && s.now <= turn.claimAt <= turn.settleAt
  {
    [Tick(turn.claimAt - s.now), ClaimNext(0, id, 60)]
    + Between(s.rows[id].envelope, turn.reply, Claim(id, s.rows[id].attempts + 1))
    + [Tick(turn.settleAt - turn.claimAt), Settle(0)]
  }

  /** One turn of the dispatcher is a run of the protocol. */
  lemma TurnIsRun(s: Sys, t: D.Table, only: Option<string>, turn: D.Turn, id: RowId)
    requires Shows(s, t) && s.now <= turn.claimAt <= turn.settleAt
    requires First(t.rows, only, turn.claimAt, id)
    ensures var next, u := D.OneTurn(t, only, turn).0, Run(s, StepsOf(s, turn, id));
            Shows(u, next) && u.now == turn.settleAt
  {
    hide D.OneTurn, Waiting, Inv, Next, Run, After, Between;
    var claim := Claim(id, t.rows[id].attempts + 1);
    WaitingForAny(t.rows[id], only, turn.claimAt);
    var claimed := Claimed(s, turn, id);
    FirstIs(t.rows, only, turn.claimAt);
    Chosen(t.rows, only, turn.claimAt, id);
    TurnOf(t, only, turn, id);
    Worked(claimed, claim, turn.reply);
    var worked := Run(claimed, Between(s.rows[id].envelope, turn.reply, claim));
    SettledAs(s, worked, t, turn, id);
    Runs(s, Tick(turn.claimAt - s.now), ClaimNext(0, id, 60), Crash(0));
    Runs(worked, Tick(turn.settleAt - turn.claimAt), Settle(0), Crash(0));
    RunAppend(s, [Tick(turn.claimAt - s.now), ClaimNext(0, id, 60)], Between(s.rows[id].envelope, turn.reply, claim));
    RunAppend(s, [Tick(turn.claimAt - s.now), ClaimNext(0, id, 60)] + Between(s.rows[id].envelope, turn.reply, claim),
              [Tick(turn.settleAt - turn.claimAt), Settle(0)]);
    RunKeeps(s, StepsOf(s, turn, id));
  }

  lemma WaitingForAny(row: Row, only: Option<string>, now: Instant)
    requires Waiting(row, only, now)
    ensures Waiting(row, None, now)
  {
  }

  /** There is only one first row. */
  lemma Chosen(rows: D.Rows, only: Option<string>, now: Instant, id: RowId)
    requires First(rows, only, now, id)
    ensures D.NextDue(rows, only, now) == Some(id)
  {
    hide Waiting, D.NextDue;
    FirstIs(rows, only, now);
    var next := D.NextDue(rows, only, now);
    if next.Some? {
      LeqAntisymmetric(id, next.value);
    }
  }

  lemma Claimed(s: Sys, turn: D.Turn, id: RowId) returns (claimed: Sys)
    requires Inv(s) && s.workers == map[] && id in s.rows && s.now <= turn.claimAt && Waiting(s.rows[id], None, turn.claimAt)
    ensures claimed == Next(Next(s, Tick(turn.claimAt - s.now)), ClaimNext(0, id, 60)) && Inv(claimed)
    ensures claimed == Sys(turn.claimAt, s.rows[id := ClaimRow(s.rows[id], turn.claimAt, 60)], s.sent, s.accepted,
                           map[0 := Work(Claim(id, s.rows[id].attempts + 1), Holding)])
  {
    hide Inv;
    claimed := Next(Next(s, Tick(turn.claimAt - s.now)), ClaimNext(0, id, 60));
    NextKeeps(s, Tick(turn.claimAt - s.now));
    NextKeeps(Next(s, Tick(turn.claimAt - s.now)), ClaimNext(0, id, 60));
  }

  lemma SettledAs(s: Sys, worked: Sys, t: D.Table, turn: D.Turn, id: RowId)
    requires t.rows == s.rows && id in s.rows && !s.rows[id].deleted && turn.claimAt <= turn.settleAt
    requires worked.now == turn.claimAt && worked.rows == s.rows[id := ClaimRow(s.rows[id], turn.claimAt, 60)]
    requires worked.workers == map[0 := Work(Claim(id, s.rows[id].attempts + 1),
                                             match FailureIn(s.rows[id].envelope, turn.reply) case None => Acked case Some(cause) => Failed(cause))]
    ensures Next(Next(worked, Tick(turn.settleAt - turn.claimAt)), Settle(0))
         == Sys(turn.settleAt, s.rows[id := After(s.rows[id], turn)], worked.sent, worked.accepted, map[])
  {
    hide After, Fenced, FailRow, PublishRow, ClaimRow, FailureIn, D.FailureOf;
    AfterIs(s.rows[id], turn);
    var claimed := ClaimRow(s.rows[id], turn.claimAt, 60);
    assert s.rows[id := claimed][id := After(s.rows[id], turn)] == s.rows[id := After(s.rows[id], turn)];
    assert worked.workers - {0} == map[];
  }

  /** The clock does not go back within a turn or from one to the next. */
  predicate Timed(turns: seq<D.Turn>, now: Instant)
    decreases |turns|
  {
    turns != [] ==> now <= turns[0].claimAt <= turns[0].settleAt && Timed(turns[1..], turns[0].settleAt)
  }

  /** A whole dispatch, whatever the broker replies and wherever it stops, is a run of the protocol. */
  lemma {:induction false} DispatchIsRun(s: Sys, t: D.Table, turns: seq<D.Turn>) returns (steps: seq<Step>)
    requires Shows(s, t) && Timed(turns, s.now)
    ensures Shows(Run(s, steps), D.DispatchTurns(t, turns).0)
    decreases |turns|
  {
    hide Shows, D.OneTurn, Waiting, Next, StepsOf, Took;
    steps := [];
    if turns != [] {
      TurnEnds(t, None, turns[0]);
      var (next, outcome) := D.OneTurn(t, None, turns[0]);
      if id :| First(t.rows, None, turns[0].claimAt, id) {
        NotNothing(t, turns[0], id);
        ShownRows(s, t);
        TurnIsRun(s, t, None, turns[0], id);
        steps := StepsOf(s, turns[0], id);
        if outcome.Success? {
          var rest := DispatchIsRun(Run(s, steps), next, turns[1..]);
          RunAppend(s, steps, rest);
          steps := steps + rest;
        }
      }
    }
  }

  lemma ShownRows(s: Sys, t: D.Table)
    requires Shows(s, t)
    ensures s.rows == t.rows
  {
  }

  lemma NotNothing(t: D.Table, turn: D.Turn, id: RowId)
    requires First(t.rows, None, turn.claimAt, id)
    ensures D.OneTurn(t, None, turn).1 != Success(D.NoDue)
  {
    hide D.OneTurn, Waiting, After;
    TurnEnds(t, None, turn);
  }

  /**
   After any run of the protocol and any dispatch of its table: a PUBLISHED row's event is in
   the broker's log, no claim is there twice, nor a row more often than it was attempted,
   and a row to be retried has attempts left.
   */
  lemma DispatchSafety(before: seq<Step>, turns: seq<D.Turn>, id: RowId)
    requires Run(EMPTY, before).workers == map[] && Timed(turns, Run(EMPTY, before).now)
    requires id in D.DispatchTurns(D.Table(Run(EMPTY, before).rows, Run(EMPTY, before).accepted), turns).0.rows
    ensures var end := D.DispatchTurns(D.Table(Run(EMPTY, before).rows, Run(EMPTY, before).accepted), turns).0;
            && (end.rows[id].status == Published ==> Copies(end.accepted, id) >= 1)
            && Copies(end.accepted, id) <= end.rows[id].attempts
            && (forall claim :: Times(end.accepted, claim) <= 1)
            && (end.rows[id].status == Retry ==> end.rows[id].attempts < 8)
  {
    hide Next, D.DispatchTurns;
    var s := Run(EMPTY, before);
    Starts();
    RunKeeps(EMPTY, before);
    var steps := DispatchIsRun(s, D.Table(s.rows, s.accepted), turns);
    CopiesBounded(Run(s, steps), id);
  }

  // ----- Settlement and counting -----

  /** A settlement is refused for a cause of no approved code, and changes no row unless the lease is still this attempt's. */
  lemma SettlementSays(rows: D.Rows, claim: Claim, failure: Option<Cause>, now: Instant)
    ensures D.SettleIn(rows, claim, failure, now) ==
            if exists text :: failure == Some(OtherCause(text)) then
              (rows, Result.Failure(D.FailureCodeUnapproved))
            else if claim.id !in rows || claim.attempt < 1 || rows[claim.id].status != Publishing || rows[claim.id].attempts != claim.attempt
                    || rows[claim.id].lease.None? || rows[claim.id].lease.value <= now || rows[claim.id].deleted then
              (rows, Result.Failure(D.LeaseFenceLost))
            else
              var row := rows[claim.id];
              var settled :=
                if failure == None then
                  Row(row.event, row.subscribed, row.envelope, false, Published, row.attempts, row.nextAt, None, None)
                else
                  Row(row.event, row.subscribed, row.envelope, false,
                      if claim.attempt < 8 && failure.value !in {EventInvalid, EventSizeInvalid} then Retry else DeadLetter,
                      row.attempts, now + Pow2(if claim.attempt <= 9 then claim.attempt - 1 else 8), None, failure);
              (rows[claim.id := settled], Success(settled.status))
  {
    hide Delay, Pow2;
    if claim.attempt >= 1 {
      DelayDoubles(claim.attempt);
    }
  }

  /** The report counts how often each outcome occurred. */
  lemma {:induction false} TallyCounts(outcomes: seq<D.Outcome>, o: D.Outcome)
    ensures o in D.Tally(outcomes) <==> o in outcomes
    ensures o in outcomes ==> D.Tally(outcomes)[o] == multiset(outcomes)[o]
    decreases |outcomes|
  {
    if outcomes != [] {
      var n := |outcomes| - 1;
      var last := outcomes[n];
      assert outcomes == outcomes[..n] + [last];
      TallyCounts(outcomes[..n], o);
      TallyCounts(outcomes[..n], last);
    }
  }
}
