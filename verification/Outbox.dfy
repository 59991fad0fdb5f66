/** The outbox table, its leases, and the dispatcher that works through it. */
module Outbox {
  import opened Wrappers
  import opened Text

  type RowId = JsString
  type Instant = int // seconds

  datatype Status = Pending | Retry | Publishing | Published | DeadLetter

  datatype Cause = BrokerNack | BrokerUnroutable | BrokerUnknownOutcome | EventInvalid | EventSizeInvalid | OtherCause(text: string)

  /** Whether an event may be sent at all: its envelope names it, and it is not too large. */
  datatype Envelope = Valid | InvalidEnvelope | Oversized

  datatype Row = Row(
    event: string, subscribed: bool, envelope: Envelope, deleted: bool,
    status: Status, attempts: nat, nextAt: Instant, lease: Option<Instant>, error: Option<Cause>)

  /** A claim names the row and the attempt it was made with. */
  datatype Claim = Claim(id: RowId, attempt: nat)

  const MAX_ATTEMPTS: nat := 8
  const LEASE_SECONDS: nat := 60

  // ----- Claiming -----

  predicate Due(row: Row, now: Instant) {
    && !row.deleted && row.subscribed
    && (((row.status == Pending || row.status == Retry) && row.nextAt <= now)
        || (row.status == Publishing && row.lease.Some? && row.lease.value < now))
  }

  predicate Eligible(row: Row, only: Option<string>, now: Instant) {
    Due(row, now) && (only.Some? ==> row.event == only.value)
  }

  function ClaimRow(row: Row, now: Instant, lease: nat): Row {
    row.(status := Publishing, attempts := row.attempts + 1, lease := Some(now + lease))
  }

  // ----- Settling -----

  /** The fence: the row is still leased to this attempt. */
  predicate Fenced(row: Row, attempt: nat, now: Instant) {
    row.status == Publishing && row.attempts == attempt && row.lease.Some? && now < row.lease.value && !row.deleted
  }

  function PublishRow(row: Row): Row {
    row.(status := Published, lease := None, error := None)
  }

  function Min(a: nat, b: nat): nat {
    if a < b then a else b
  }

  function Pow2(k: nat): (p: nat)
    ensures p >= 1
  {
    if k == 0 then 1 else 2 * Pow2(k - 1)
  }

  function Delay(attempt: nat): nat
    requires attempt >= 1
  {
    Min(300, Pow2(Min(attempt - 1, 8)))
  }

  function FailureStatus(attempt: nat, cause: Cause): Status {
    if attempt >= MAX_ATTEMPTS || cause == EventInvalid || cause == EventSizeInvalid then DeadLetter else Retry
  }

  function FailRow(row: Row, attempt: nat, cause: Cause, now: Instant): Row
    requires attempt >= 1
  {
    row.(status := FailureStatus(attempt, cause), error := Some(cause), lease := None, nextAt := now + Delay(attempt))
  }

  /** The 300-second cap never binds: the delay doubles from 1 to 256 seconds. */
  lemma {:induction false} DelayDoubles(attempt: nat)
    requires attempt >= 1
    ensures Delay(attempt) == Pow2(Min(attempt - 1, 8)) && 1 <= Delay(attempt) <= 256
    ensures 2 <= attempt <= 9 ==> Delay(attempt) == 2 * Delay(attempt - 1)
  {
    PowersTo8();
    PowMonotone(Min(attempt - 1, 8), 8);
    if 2 <= attempt <= 9 {
      PowMonotone(attempt - 2, 8);
    }
  }

  lemma PowersTo8()
    ensures Pow2(8) == 256
  {
    assert Pow2(4) == 16;
  }

  lemma {:induction false} PowMonotone(j: nat, k: nat)
    requires j <= k
    ensures Pow2(j) <= Pow2(k)
    decreases k
  {
    if j < k {
      PowMonotone(j, k - 1);
    }
  }

  /** No instant lets a row be settled by its holder and reclaimed by another; when the lease is just over, neither may. */
  lemma SettleOrReclaim(row: Row, attempt: nat, now: Instant)
    ensures !(Fenced(row, attempt, now) && Due(row, now))
    ensures row.lease == Some(now) && row.status == Publishing ==> !Fenced(row, attempt, now) && !Due(row, now)
  {
  }
}
