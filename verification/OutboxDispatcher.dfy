/** One dispatcher run: claim, publish, settle, until nothing is due or the limit is reached. */
module OutboxDispatcher {
  import opened Wrappers
  import opened Text
  import opened Sorting
  import opened Outbox

  // ----- The next due row -----

  datatype DueKey = DueKey(at: Instant, id: RowId)

  predicate KeyLeq(a: DueKey, b: DueKey) {
    a.at < b.at || (a.at == b.at && Leq(a.id, b.id))
  }

  lemma KeysAreOrdered()
    ensures TotalOrder(KeyLeq)
  {
    forall x: DueKey { LeqReflexive(x.id); }
    forall x: DueKey, y: DueKey ensures KeyLeq(x, y) || KeyLeq(y, x) { LeqTotal(x.id, y.id); }
    forall x: DueKey, y: DueKey | KeyLeq(x, y) && KeyLeq(y, x) ensures x == y { LeqAntisymmetric(x.id, y.id); }
    forall x: DueKey, y: DueKey, z: DueKey | KeyLeq(x, y) && KeyLeq(y, z) ensures KeyLeq(x, z) {
      if x.at == y.at && y.at == z.at {
        LeqTransitive(x.id, y.id, z.id);
      }
    }
  }

  type Rows = map<RowId, Row>

  function EligibleKeys(rows: Rows, only: Option<string>, now: Instant): set<DueKey> {
    set id | id in rows && Eligible(rows[id], only, now) :: DueKey(rows[id].nextAt, id)
  }

  /** The earliest due row, by its next attempt and then its id. */
  function NextDue(rows: Rows, only: Option<string>, now: Instant): (next: Option<RowId>)
    ensures next.None? <==> forall id :: id in rows ==> !Eligible(rows[id], only, now)
    ensures next.Some? ==>
      && next.value in rows && Eligible(rows[next.value], only, now)
      && forall id :: id in rows && Eligible(rows[id], only, now) ==>
           rows[next.value].nextAt < rows[id].nextAt || (rows[next.value].nextAt == rows[id].nextAt && Leq(next.value, id))
  {
    KeysAreOrdered();
    var keys := EligibleKeys(rows, only, now);
    assert forall id :: id in rows && Eligible(rows[id], only, now) ==> DueKey(rows[id].nextAt, id) in keys;
    var sorted := Sort(keys, KeyLeq);
    if sorted == [] then
      assert keys == {} by { assert |keys| == 0; }
      None
    else
      assert sorted[0] in sorted;
      assert forall k :: k in keys ==> KeyLeq(sorted[0], k) by {
        forall k | k in keys ensures KeyLeq(sorted[0], k) {
          assert k in sorted;
          var i :| 0 <= i < |sorted| && sorted[i] == k;
        }
      }
      Some(sorted[0].id)
  }

  // ----- Replies, turns and outcomes -----

  /** What publishing a message met; without an answer the broker may have persisted it or not. */
  datatype Reply = Confirmed | Nacked | Unroutable | NoAnswer(persisted: bool)

  /** When one turn claims and settles, and what the broker replies. */
  datatype Turn = Turn(claimAt: Instant, settleAt: Instant, reply: Reply)

  datatype Outcome = NoDue | Ended(status: Status)

  datatype Failure = LeasePolicyUnapproved | FailureCodeUnapproved | LeaseFenceLost

  /** The table, and the broker's log of what it persisted. */
  datatype Table = Table(rows: Rows, accepted: seq<Claim>)

  function ClaimFrom(rows: Rows, only: Option<string>, now: Instant, lease: nat): (Rows, Option<Claim>) {
    match NextDue(rows, only, now)
    case None => (rows, None)
    case Some(id) => (rows[id := ClaimRow(rows[id], now, lease)], Some(Claim(id, rows[id].attempts + 1)))
  }

  function SettleIn(rows: Rows, claim: Claim, failure: Option<Cause>, now: Instant): (Rows, Result<Status, Failure>) {
    if failure.Some? && failure.value.OtherCause? then
      (rows, Result.Failure(FailureCodeUnapproved))
    else if claim.attempt >= 1 && claim.id in rows && Fenced(rows[claim.id], claim.attempt, now) then
      var row := if failure.None? then PublishRow(rows[claim.id]) else FailRow(rows[claim.id], claim.attempt, failure.value, now);
      (rows[claim.id := row], Success(row.status))
    else
      (rows, Result.Failure(LeaseFenceLost))
  }

  /** The failure a turn settles with, if any. */
  function FailureOf(envelope: Envelope, reply: Reply): Option<Cause> {
    match envelope
    case InvalidEnvelope => Some(EventInvalid)
    case Oversized => Some(EventSizeInvalid)
    case Valid =>
      match reply
      case Confirmed => None
      case Nacked => Some(BrokerNack)
      case Unroutable => Some(BrokerUnroutable)
      case NoAnswer(_) => Some(BrokerUnknownOutcome)
  }

  predicate Persisted(envelope: Envelope, reply: Reply) {
    envelope == Valid && (reply == Confirmed || reply == NoAnswer(true))
  }

  function OneTurn(t: Table, only: Option<string>, turn: Turn): (Table, Result<Outcome, Failure>) {
    var (rows, claim) := ClaimFrom(t.rows, only, turn.claimAt, LEASE_SECONDS);
    if claim.None? then
      (t, Success(NoDue))
    else
      var envelope := t.rows[claim.value.id].envelope;
      var accepted := if Persisted(envelope, turn.reply) then t.accepted + [claim.value] else t.accepted;
      var (settled, r) := SettleIn(rows, claim.value, FailureOf(envelope, turn.reply), turn.settleAt);
      (Table(settled, accepted), if r.Success? then Success(Ended(r.value)) else Result.Failure(r.error))
  }

  /** The outcomes of the turns taken, and what they leave; a raised error ends the run. */
  function DispatchTurns(t: Table, turns: seq<Turn>): (Table, Result<seq<Outcome>, Failure>)
    decreases |turns|
  {
    if turns == [] then
      (t, Success([]))
    else
      var (next, outcome) := OneTurn(t, None, turns[0]);
      if outcome.Failure? then
        (next, Result.Failure(outcome.error))
      else if outcome.value == NoDue then
        (next, Success([NoDue]))
      else
        var (end, rest) := DispatchTurns(next, turns[1..]);
        (end, if rest.Success? then Success([outcome.value] + rest.value) else rest)
  }

  // ----- Draining -----

  function DueBy(rows: Rows, now: Instant): set<RowId> {
    set id | id in rows && Due(rows[id], now)
  }

  /** The broker confirms everything, leases last, and the clock does not go back. */
  predicate Confirming(turns: seq<Turn>) {
    && (forall i :: 0 <= i < |turns| ==>
          turns[i].reply == Confirmed && turns[i].claimAt <= turns[i].settleAt < turns[i].claimAt + LEASE_SECONDS)
    && (forall i :: 0 < i < |turns| ==> turns[i - 1].settleAt <= turns[i].claimAt)
  }

  lemma DueStays(row: Row, now: Instant, later: Instant)
    requires Due(row, now) && now <= later
    ensures Due(row, later)
  {
  }

  /** A row after its turn: published with its next attempt, or a dead letter if its envelope cannot be sent. */
  function Handled(row: Row, at: Instant): Row {
    var next := row.attempts + 1;
    match row.envelope
    case Valid => row.(status := Published, attempts := next, lease := None, error := None)
    case InvalidEnvelope =>
      row.(status := DeadLetter, attempts := next, lease := None, error := Some(EventInvalid), nextAt := at + Delay(next))
    case Oversized =>
      row.(status := DeadLetter, attempts := next, lease := None, error := Some(EventSizeInvalid), nextAt := at + Delay(next))
  }

  function EndOf(row: Row): Outcome {
    Ended(if row.envelope == Valid then Published else DeadLetter)
  }

  /** The outcomes of turns that handled these rows. */
  function EndsOf(rows: Rows, ids: seq<RowId>): seq<Outcome>
    requires forall id :: id in ids ==> id in rows
  {
    seq(|ids|, i requires 0 <= i < |ids| => EndOf(rows[ids[i]]))
  }

  /** The next claims of those of the rows that can be sent, in their order. */
  function ClaimsOf(rows: Rows, ids: seq<RowId>): seq<Claim>
    requires forall id :: id in ids ==> id in rows
    decreases |ids|
  {
    if ids == [] then
      []
    else
      (if rows[ids[0]].envelope == Valid then [Claim(ids[0], rows[ids[0]].attempts + 1)] else []) + ClaimsOf(rows, ids[1..])
  }

  predicate AllDifferent(ids: seq<RowId>) {
    forall i, j :: 0 <= i < j < |ids| ==> ids[i] != ids[j]
  }

  /** Turn by turn these rows were handled; the broker got each sendable one once, and no other row was touched. */
  ghost predicate HandledInTurn(t: Table, end: Table, turns: seq<Turn>, ids: seq<RowId>) {
    && |ids| <= |turns| && AllDifferent(ids) && end.rows.Keys == t.rows.Keys
    && (forall i :: 0 <= i < |ids| ==> ids[i] in t.rows && end.rows[ids[i]] == Handled(t.rows[ids[i]], turns[i].settleAt))
    && (forall id :: id in t.rows && id !in ids ==> end.rows[id] == t.rows[id])
    && (forall id :: id in ids ==> id in t.rows) && end.accepted == t.accepted + ClaimsOf(t.rows, ids)
  }

  /** One turn of a confirming broker handles one due row, or nothing is due. */
  lemma TurnHandles(t: Table, turn: Turn)
    requires turn.reply == Confirmed && turn.claimAt <= turn.settleAt < turn.claimAt + LEASE_SECONDS
    ensures var (next, outcome) := OneTurn(t, None, turn);
            if forall id :: id in t.rows ==> !Due(t.rows[id], turn.claimAt) then
              next == t && outcome == Success(NoDue)
            else
              exists id :: id in t.rows && Due(t.rows[id], turn.claimAt)
                && outcome == Success(EndOf(t.rows[id])) && HandledInTurn(t, next, [turn], [id])
  {
    hide Handled, Delay, HandledInTurn, NextDue, EndOf;
    var next := NextDue(t.rows, None, turn.claimAt);
    if next.Some? {
      TurnTakes(t, turn, next.value);
      OneHandled(t, OneTurn(t, None, turn).0, turn, next.value);
    } else {
      assert forall id :: id in t.rows ==> !Eligible(t.rows[id], None, turn.claimAt);
    }
  }

  lemma TurnTakes(t: Table, turn: Turn, id: RowId)
    requires turn.reply == Confirmed && turn.claimAt <= turn.settleAt < turn.claimAt + LEASE_SECONDS
    requires NextDue(t.rows, None, turn.claimAt) == Some(id)
    ensures id in t.rows && Due(t.rows[id], turn.claimAt)
    ensures OneTurn(t, None, turn) == (Table(t.rows[id := Handled(t.rows[id], turn.settleAt)], t.accepted + ClaimsOf(t.rows, [id])),
                                       Success(EndOf(t.rows[id])))
  {
    hide NextDue, Delay, ClaimsOf;
    assert Eligible(t.rows[id], None, turn.claimAt);
    ClaimsOfOne(t.rows, id);
    var row := ClaimRow(t.rows[id], turn.claimAt, LEASE_SECONDS);
    assert Fenced(row, row.attempts, turn.settleAt) && t.accepted + [] == t.accepted;
    assert t.rows[id := row][id := Handled(t.rows[id], turn.settleAt)] == t.rows[id := Handled(t.rows[id], turn.settleAt)];
  }

  lemma OneHandled(t: Table, next: Table, turn: Turn, id: RowId)
    requires id in t.rows
    requires next == Table(t.rows[id := Handled(t.rows[id], turn.settleAt)], t.accepted + ClaimsOf(t.rows, [id]))
    ensures HandledInTurn(t, next, [turn], [id])
  {
    hide Handled, ClaimsOf;
    assert [turn][0] == turn && [id][0] == id;
  }

  lemma ClaimsOfOne(rows: Rows, id: RowId)
    requires id in rows
    ensures ClaimsOf(rows, [id]) == if rows[id].envelope == Valid then [Claim(id, rows[id].attempts + 1)] else []
  {
    assert [id][1..] == [];
  }

  lemma HandledChain(t: Table, mid: Table, end: Table, turns: seq<Turn>, id: RowId, rest: seq<RowId>)
    requires turns != [] && HandledInTurn(t, mid, turns[..1], [id]) && HandledInTurn(mid, end, turns[1..], rest) && id !in rest
    ensures HandledInTurn(t, end, turns, [id] + rest)
  {
    hide Handled, ClaimsOf, AllDifferent;
    assert [id][0] == id && turns[..1][0] == turns[0];
    assert forall x :: x in [id] + rest <==> x == id || x in rest;
    RowsChain(t, mid, end, turns, id, rest);
    DifferentChain(id, rest);
    ClaimsChain(t, mid, id, rest);
  }

  lemma RowsChain(t: Table, mid: Table, end: Table, turns: seq<Turn>, id: RowId, rest: seq<RowId>)
    requires |rest| < |turns| && id in t.rows && mid.rows.Keys == t.rows.Keys && end.rows.Keys == t.rows.Keys && id !in rest
    requires mid.rows[id] == Handled(t.rows[id], turns[0].settleAt) && end.rows[id] == mid.rows[id]
    requires forall x :: x in t.rows && x != id ==> mid.rows[x] == t.rows[x]
    requires forall i :: 0 <= i < |rest| ==> rest[i] in mid.rows && end.rows[rest[i]] == Handled(mid.rows[rest[i]], turns[1..][i].settleAt)
    ensures var ids := [id] + rest;
            forall i :: 0 <= i < |ids| ==> ids[i] in t.rows && end.rows[ids[i]] == Handled(t.rows[ids[i]], turns[i].settleAt)
  {
    hide Handled;
    var ids := [id] + rest;
    forall i | 0 <= i < |ids| ensures ids[i] in t.rows && end.rows[ids[i]] == Handled(t.rows[ids[i]], turns[i].settleAt) {
      if i > 0 {
        assert ids[i] == rest[i - 1] && rest[i - 1] in rest && turns[1..][i - 1] == turns[i];
      }
    }
  }

  lemma DifferentChain(id: RowId, rest: seq<RowId>)
    requires AllDifferent(rest) && id !in rest
    ensures AllDifferent([id] + rest)
  {
    var ids := [id] + rest;
    forall i, j | 0 <= i < j < |ids| ensures ids[i] != ids[j] {
      assert ids[j] == rest[j - 1] && rest[j - 1] in rest;
      assert i > 0 ==> ids[i] == rest[i - 1];
    }
  }

  lemma ClaimsChain(t: Table, mid: Table, id: RowId, rest: seq<RowId>)
    requires id in t.rows && id !in rest && mid.rows.Keys == t.rows.Keys && forall x :: x in rest ==> x in t.rows
    requires forall x :: x in t.rows && x != id ==> mid.rows[x] == t.rows[x]
    ensures forall x :: x in [id] + rest ==> x in t.rows
    ensures ClaimsOf(t.rows, [id] + rest) == ClaimsOf(t.rows, [id]) + ClaimsOf(mid.rows, rest)
  {
    ClaimsOfOne(t.rows, id);
    SameClaims(t.rows, mid.rows, id, rest);
    assert ([id] + rest)[1..] == rest;
  }

  lemma {:induction false} SameClaims(a: Rows, b: Rows, id: RowId, rest: seq<RowId>)
    requires id !in rest && b.Keys == a.Keys && forall x :: x in rest ==> x in a
    requires forall x :: x in a && x != id ==> b[x] == a[x]
    ensures ClaimsOf(b, rest) == ClaimsOf(a, rest)
    decreases |rest|
  {
    if rest != [] {
      assert rest[0] in rest;
      SameClaims(a, b, id, rest[1..]);
    }
  }

  /** Handling one row takes just it out of what is due. */
  lemma OneLessDue(t: Table, mid: Table, turn: Turn, id: RowId, last: Instant)
    requires HandledInTurn(t, mid, [turn], [id]) && id in t.rows && Due(t.rows[id], last)
    ensures DueBy(mid.rows, last) == DueBy(t.rows, last) - {id}
    ensures |DueBy(mid.rows, last)| == |DueBy(t.rows, last)| - 1
  {
    assert mid.rows[[id][0]] == Handled(t.rows[[id][0]], [turn][0].settleAt);
    forall x ensures x in DueBy(mid.rows, last) <==> x in DueBy(t.rows, last) - {id} {
      if x in t.rows && x != id {
        assert mid.rows[x] == t.rows[x];
      }
    }
  }

  /** What a drained run answered and left: turn by turn it handled these rows, and then nothing was due. */
  ghost predicate Drains(t: Table, turns: seq<Turn>, last: Instant, handled: seq<RowId>) {
    var (end, r) := DispatchTurns(t, turns);
    && |handled| < |turns| && (forall id :: id in handled ==> id in t.rows && Due(t.rows[id], last))
    && r == Success(EndsOf(t.rows, handled) + [NoDue])
    && HandledInTurn(t, end, turns, handled)
    && (forall id :: id in end.rows ==> !Due(end.rows[id], turns[|handled|].claimAt))
    && (forall id :: id in t.rows && Due(t.rows[id], turns[0].claimAt) ==> id in handled)
  }

  /**
   With a broker that confirms and leases that last, more turns than rows that may
   become due end with nothing due: each handled row was published once or, if it
   cannot be sent, became a dead letter, and no other row was touched.
   */
  lemma {:induction false} DispatchDrains(t: Table, turns: seq<Turn>, last: Instant) returns (handled: seq<RowId>)
    requires Confirming(turns) && turns != [] && (forall i :: 0 <= i < |turns| ==> turns[i].claimAt <= last)
    requires |DueBy(t.rows, last)| < |turns|
    ensures Drains(t, turns, last, handled)
    decreases |turns|
  {
    hide OneTurn, HandledInTurn, DueBy;
    var turn, rest := turns[0], turns[1..];
    TurnHandles(t, turn);
    if forall id :: id in t.rows ==> !Due(t.rows[id], turn.claimAt) {
      handled := [];
      NothingDue(t, turns, last);
    } else {
      var (mid, outcome) := OneTurn(t, None, turn);
      var id :| id in t.rows && Due(t.rows[id], turn.claimAt)
                && outcome == Success(EndOf(t.rows[id])) && HandledInTurn(t, mid, [turn], [id]);
      DueStays(t.rows[id], turn.claimAt, last);
      OneLessDue(t, mid, turn, id, last);
      SomeDue(t, id, last);
      assert Confirming(rest) && forall i :: 0 <= i < |rest| ==> rest[i] == turns[i + 1];
      var others := DispatchDrains(mid, rest, last);
      handled := [id] + others;
      DrainsFrom(t, turns, mid, id, others, last);
    }
  }

  lemma SomeDue(t: Table, id: RowId, last: Instant)
    requires id in t.rows && Due(t.rows[id], last)
    ensures |DueBy(t.rows, last)| >= 1
  {
    assert id in DueBy(t.rows, last);
  }

  lemma NothingDue(t: Table, turns: seq<Turn>, last: Instant)
    requires turns != [] && OneTurn(t, None, turns[0]) == (t, Success(NoDue))
    requires forall id :: id in t.rows ==> !Due(t.rows[id], turns[0].claimAt)
    ensures Drains(t, turns, last, [])
  {
    hide OneTurn;
    assert EndsOf(t.rows, []) + [NoDue] == [NoDue];
    assert ClaimsOf(t.rows, []) == [];
  }

  lemma EndsChain(t: Table, mid: Table, id: RowId, others: seq<RowId>)
    requires id in t.rows && id !in others && mid.rows.Keys == t.rows.Keys && forall x :: x in others ==> x in t.rows
    requires forall x :: x in t.rows && x != id ==> mid.rows[x] == t.rows[x]
    ensures [EndOf(t.rows[id])] + (EndsOf(mid.rows, others) + [NoDue]) == EndsOf(t.rows, [id] + others) + [NoDue]
  {
    assert forall x :: x in [id] + others ==> x == id || x in others;
    forall i | 0 <= i < |others| ensures mid.rows[others[i]] == t.rows[others[i]] {
      assert others[i] in others;
    }
    assert EndsOf(t.rows, [id] + others) == [EndOf(t.rows[id])] + EndsOf(mid.rows, others);
  }

  lemma DrainsFrom(t: Table, turns: seq<Turn>, mid: Table, id: RowId, others: seq<RowId>, last: Instant)
    requires Confirming(turns) && |turns| > 1 && id in t.rows && OneTurn(t, None, turns[0]) == (mid, Success(EndOf(t.rows[id])))
    requires Due(t.rows[id], turns[0].claimAt) && Due(t.rows[id], last) && HandledInTurn(t, mid, [turns[0]], [id])
    requires DueBy(mid.rows, last) == DueBy(t.rows, last) - {id}
    requires Drains(mid, turns[1..], last, others)
    ensures Drains(t, turns, last, [id] + others)
  {
    hide OneTurn, Due, HandledInTurn, EndsOf;
    var (end, r) := DispatchTurns(mid, turns[1..]);
    var ids := [id] + others;
    assert id !in DueBy(mid.rows, last);
    assert turns[..1] == [turns[0]];
    OthersStay(t, mid, turns[0], id);
    HandledChain(t, mid, end, turns, id, others);
    EndsChain(t, mid, id, others);
    assert |ids| == |others| + 1 && turns[1..][|others|] == turns[|ids|];
    assert turns[1..][0] == turns[1];
    forall x | x in ids ensures x in t.rows && Due(t.rows[x], last) {
      assert x == id || x in others;
    }
    forall x | x in t.rows && Due(t.rows[x], turns[0].claimAt) ensures x in ids {
      if x != id {
        DueStays(t.rows[x], turns[0].claimAt, turns[1].claimAt);
      }
    }
  }

  lemma OthersStay(t: Table, mid: Table, turn: Turn, id: RowId)
    requires HandledInTurn(t, mid, [turn], [id])
    ensures mid.rows.Keys == t.rows.Keys && id in t.rows
    ensures forall x :: x in t.rows && x != id ==> mid.rows[x] == t.rows[x]
  {
    assert id == [id][0];
  }

  // ----- The dispatcher -----

  /** How often each outcome occurred. */
  function Tally(outcomes: seq<Outcome>): map<Outcome, nat>
    decreases |outcomes|
  {
    if outcomes == [] then
      map[]
    else
      var last, counts := outcomes[|outcomes| - 1], Tally(outcomes[..|outcomes| - 1]);
      counts[last := (if last in counts then counts[last] else 0) + 1]
  }

  class Dispatcher {
    var rows: Rows
    var accepted: seq<Claim>

    constructor (rows: Rows)
      ensures Snapshot() == Table(rows, [])
    {
      this.rows, this.accepted := rows, [];
    }

    function Snapshot(): Table
      reads this
    {
      Table(rows, accepted)
    }

    /** Claims the earliest due row; a lease other than the standard one needs the crash-injection switch. */
    method ClaimNext(only: Option<string>, lease: nat, crashInjection: bool, now: Instant) returns (r: Result<Option<Claim>, Failure>)
      modifies `rows
      ensures if 3 <= lease <= LEASE_SECONDS && (lease == LEASE_SECONDS || crashInjection) then
                rows == ClaimFrom(old(rows), only, now, lease).0 && r == Success(ClaimFrom(old(rows), only, now, lease).1)
              else
                rows == old(rows) && r == Result.Failure(LeasePolicyUnapproved)
    {
      if !(3 <= lease <= LEASE_SECONDS) || (lease != LEASE_SECONDS && !crashInjection) {
        return Result.Failure(LeasePolicyUnapproved);
      }
      var next := NextDue(rows, only, now);
      if next.None? {
        return Success(None);
      }
      var row := rows[next.value];
      rows := rows[next.value := row.(status := Publishing, attempts := row.attempts + 1, lease := Some(now + lease))];
      return Success(Some(Claim(next.value, row.attempts + 1)));
    }

    /** The fenced completion of one claim; a lost lease changes nothing and is an error. */
    method Settle(claim: Claim, confirmed: bool, cause: Cause, now: Instant) returns (r: Result<Status, Failure>)
      modifies `rows
      ensures (rows, r) == SettleIn(old(rows), claim, if confirmed then None else Some(cause), now)
    {
      if !confirmed && cause.OtherCause? {
        return Result.Failure(FailureCodeUnapproved);
      }
      if claim.id !in rows || claim.attempt < 1 {
        return Result.Failure(LeaseFenceLost);
      }
      var row := rows[claim.id];
      if row.status != Publishing || row.attempts != claim.attempt || row.lease.None? || row.lease.value <= now || row.deleted {
        return Result.Failure(LeaseFenceLost);
      }
      if confirmed {
        rows := rows[claim.id := row.(status := Published, lease := None, error := None)];
        return Success(Published);
      }
      var status := if claim.attempt >= MAX_ATTEMPTS || cause == EventInvalid || cause == EventSizeInvalid then DeadLetter else Retry;
      rows := rows[claim.id := row.(status := status, error := Some(cause), lease := None, nextAt := now + Delay(claim.attempt))];
      return Success(status);
    }

    /** One claim, one publication, one settlement. */
    method One(only: Option<string>, turn: Turn) returns (r: Result<Outcome, Failure>)
      modifies this
      ensures (Snapshot(), r) == OneTurn(old(Snapshot()), only, turn)
    {
      var envelopes := rows;
      var claimed := ClaimNext(only, LEASE_SECONDS, false, turn.claimAt);
      if claimed.value.None? {
        return Success(NoDue);
      }
      var claim := claimed.value.value;
      var settled: Result<Status, Failure>;
      match envelopes[claim.id].envelope {
      case InvalidEnvelope => settled := Settle(claim, false, EventInvalid, turn.settleAt);
      case Oversized => settled := Settle(claim, false, EventSizeInvalid, turn.settleAt);
      case Valid =>
        match turn.reply
        case Confirmed =>
          accepted := accepted + [claim];
          settled := Settle(claim, true, BrokerUnknownOutcome, turn.settleAt);
        case Nacked => settled := Settle(claim, false, BrokerNack, turn.settleAt);
        case Unroutable => settled := Settle(claim, false, BrokerUnroutable, turn.settleAt);
        case NoAnswer(persisted) =>
          if persisted {
            accepted := accepted + [claim];
          }
          settled := Settle(claim, false, BrokerUnknownOutcome, turn.settleAt);
      }
      return if settled.Success? then Success(Ended(settled.value)) else Result.Failure(settled.error);
    }

    /** At most `limit` turns, stopping when nothing is due; counts every outcome. */
    method Dispatch(limit: nat, turns: seq<Turn>) returns (r: Result<map<Outcome, nat>, Failure>)
      requires |turns| == limit
      modifies this
      ensures var (end, outcomes) := DispatchTurns(old(Snapshot()), turns);
              && Snapshot() == end
              && r == if outcomes.Success? then Success(Tally(outcomes.value)) else Result.Failure(outcomes.error)
    {
      hide OneTurn;
      ghost var start, done := Snapshot(), [];
      var counts: map<Outcome, nat> := map[];
      var i := 0;
      ContinueNothing(DispatchTurns(start, turns));
      assert turns[0..] == turns;
      while i < limit
        invariant 0 <= i <= limit
        invariant counts == Tally(done)
        invariant DispatchTurns(start, turns) == Continue(done, DispatchTurns(Snapshot(), turns[i..]))
      {
        assert turns[i..][1..] == turns[i + 1..];
        ghost var before := Snapshot();
        var outcome := One(None, turns[i]);
        if outcome.Failure? {
          return Result.Failure(outcome.error);
        }
        counts := counts[outcome.value := (if outcome.value in counts then counts[outcome.value] else 0) + 1];
        assert (done + [outcome.value])[..|done|] == done;
        if outcome.value == NoDue {
          return Success(counts);
        }
        ContinueOn(done, outcome.value, DispatchTurns(Snapshot(), turns[i + 1..]));
        done := done + [outcome.value];
        i := i + 1;
      }
      assert turns[i..] == [] && done + [] == done;
      return Success(counts);
    }
  }

  /** The outcomes so far, and then those of the rest of the run. */
  function Continue(done: seq<Outcome>, rest: (Table, Result<seq<Outcome>, Failure>)): (Table, Result<seq<Outcome>, Failure>) {
    (rest.0, if rest.1.Success? then Success(done + rest.1.value) else rest.1)
  }

  lemma ContinueNothing(rest: (Table, Result<seq<Outcome>, Failure>))
    ensures Continue([], rest) == rest
  {
    if rest.1.Success? {
      assert [] + rest.1.value == rest.1.value;
    }
  }

  lemma ContinueOn(done: seq<Outcome>, outcome: Outcome, rest: (Table, Result<seq<Outcome>, Failure>))
    ensures Continue(done, Continue([outcome], rest)) == Continue(done + [outcome], rest)
  {
    if rest.1.Success? {
      assert done + ([outcome] + rest.1.value) == (done + [outcome]) + rest.1.value;
    }
  }
}
