/** Any number of workers, a broker, crashes between any two steps, lost confirms and expiring leases. */
module OutboxProtocol {
  import opened Wrappers
  import opened Outbox

  type WorkerId = nat

  /** How far a worker got with its claim. */
  datatype Stage = Holding | Sent | Acked | Failed(cause: Cause)

  datatype Work = Work(claim: Claim, stage: Stage)

  /**
   `sent` is the log of publications, each of which may still reach the broker after its worker
   is gone; `accepted` is the log of copies that the broker persisted.
   */
  datatype Sys = Sys(now: Instant, rows: map<RowId, Row>, sent: seq<Claim>, accepted: seq<Claim>, workers: map<WorkerId, Work>)

  function Times(log: seq<Claim>, claim: Claim): nat {
    multiset(log)[claim]
  }

  datatype Step =
    | Insert(id: RowId, event: string, subscribed: bool, envelope: Envelope, nextAt: Instant)
    | Delete(id: RowId)
    | Tick(seconds: nat)
    | ClaimNext(w: WorkerId, id: RowId, lease: nat)
    | Refuse(w: WorkerId)
    | Send(w: WorkerId)
    | Accept(claim: Claim)
    | ConfirmSeen(w: WorkerId)
    | ConfirmLost(w: WorkerId, cause: Cause)
    | Settle(w: WorkerId)
    | Crash(w: WorkerId)

  predicate At(s: Sys, w: WorkerId, stage: Stage) {
    w in s.workers && s.workers[w].stage == stage
  }

  function Move(s: Sys, w: WorkerId, stage: Stage): Sys
    requires w in s.workers
  {
    s.(workers := s.workers[w := s.workers[w].(stage := stage)])
  }

  function Gone(s: Sys, w: WorkerId): Sys {
    s.(workers := s.workers - {w})
  }

  predicate BrokerCause(cause: Cause) {
    cause == BrokerNack || cause == BrokerUnroutable || cause == BrokerUnknownOutcome
  }

  /** A step that is not enabled leaves everything as it is. */
  function Next(s: Sys, step: Step): Sys {
    match step
    case Insert(id, event, subscribed, envelope, nextAt) =>
      if id in s.rows then s else s.(rows := s.rows[id := Row(event, subscribed, envelope, false, Pending, 0, nextAt, None, None)])
    case Delete(id) => if id in s.rows then s.(rows := s.rows[id := s.rows[id].(deleted := true)]) else s
    case Tick(seconds) => s.(now := s.now + seconds)
    case ClaimNext(w, id, lease) =>
      if w in s.workers || id !in s.rows || !Due(s.rows[id], s.now) || !(3 <= lease <= LEASE_SECONDS) then
        s
      else
        var row := ClaimRow(s.rows[id], s.now, lease);
        s.(rows := s.rows[id := row], workers := s.workers[w := Work(Claim(id, row.attempts), Holding)])
    case Refuse(w) =>
      if At(s, w, Holding) && s.workers[w].claim.id in s.rows && s.rows[s.workers[w].claim.id].envelope != Valid then
        Move(s, w, Failed(if s.rows[s.workers[w].claim.id].envelope == Oversized then EventSizeInvalid else EventInvalid))
      else
        s
    case Send(w) =>
      if At(s, w, Holding) && s.workers[w].claim.id in s.rows && s.rows[s.workers[w].claim.id].envelope == Valid then
        Move(s, w, Stage.Sent).(sent := s.sent + [s.workers[w].claim])
      else
        s
    case Accept(claim) =>
      if Times(s.accepted, claim) < Times(s.sent, claim) then s.(accepted := s.accepted + [claim]) else s
    case ConfirmSeen(w) => if At(s, w, Stage.Sent) && s.workers[w].claim in s.accepted then Move(s, w, Acked) else s
    case ConfirmLost(w, cause) =>
      if (At(s, w, Holding) || At(s, w, Stage.Sent)) && BrokerCause(cause) then Move(s, w, Failed(cause)) else s
    case Settle(w) =>
      if w in s.workers && (s.workers[w].stage.Acked? || s.workers[w].stage.Failed?) then Settled(s, w) else s
    case Crash(w) => Gone(s, w)
  }

  /** The fenced update; a lost fence raises in the worker and changes no row. */
  function Settled(s: Sys, w: WorkerId): Sys
    requires w in s.workers && (s.workers[w].stage.Acked? || s.workers[w].stage.Failed?)
  {
    var claim, stage := s.workers[w].claim, s.workers[w].stage;
    if claim.id in s.rows && claim.attempt >= 1 && Fenced(s.rows[claim.id], claim.attempt, s.now) then
      var row := if stage.Acked? then PublishRow(s.rows[claim.id]) else FailRow(s.rows[claim.id], claim.attempt, stage.cause, s.now);
      Gone(s, w).(rows := s.rows[claim.id := row])
    else
      Gone(s, w)
  }

  function Run(s: Sys, steps: seq<Step>): Sys
    decreases |steps|
  {
    if steps == [] then s else Run(Next(s, steps[0]), steps[1..])
  }

  const EMPTY := Sys(0, map[], [], [], map[])

  // ----- Invariants -----

  predicate ClaimKnown(s: Sys, claim: Claim) {
    claim.id in s.rows && 1 <= claim.attempt <= s.rows[claim.id].attempts
  }

  predicate RowOk(row: Row) {
    && (row.status == Publishing <==> row.lease.Some?)
    && (row.status != Pending ==> row.attempts >= 1)
    && (row.status == Retry ==> row.attempts < MAX_ATTEMPTS)
  }

  predicate WorkOk(s: Sys, work: Work) {
    && ClaimKnown(s, work.claim)
    && (work.stage.Holding? ==> work.claim !in s.sent)
    && (work.stage.Acked? ==> work.claim in s.accepted)
  }

  ghost predicate Inv(s: Sys) {
    && (forall claim :: Times(s.accepted, claim) <= Times(s.sent, claim) <= 1)
    && (forall claim :: claim in s.sent ==> ClaimKnown(s, claim))
    && (forall id :: id in s.rows ==> RowOk(s.rows[id]))
    && (forall w :: w in s.workers ==> WorkOk(s, s.workers[w]))
    && (forall v, w :: v in s.workers && w in s.workers && v != w ==> s.workers[v].claim != s.workers[w].claim)
    && (forall id :: id in s.rows && s.rows[id].status == Published ==> Claim(id, s.rows[id].attempts) in s.accepted)
  }

  lemma TimesAdds(log: seq<Claim>, claim: Claim, other: Claim)
    ensures Times(log + [claim], other) == Times(log, other) + if other == claim then 1 else 0
    ensures other in log <==> Times(log, other) > 0
  {
  }

  lemma TableStepKeeps(s: Sys, step: Step)
    requires Inv(s) && (step.Insert? || step.Delete? || step.Tick? || step.Crash?)
    ensures Inv(Next(s, step))
  {
    hide Due, Fenced, Times;
  }

  /** The broker persists each publication at most once. */
  lemma AcceptKeeps(s: Sys, claim: Claim)
    requires Inv(s)
    ensures Inv(Next(s, Accept(claim)))
  {
    hide Due, Fenced, Times, RowOk;
    forall other
      ensures Times(s.accepted + [claim], other) == Times(s.accepted, other) + if other == claim then 1 else 0
    {
      TimesAdds(s.accepted, claim, other);
    }
  }

  lemma MoveKeeps(s: Sys, w: WorkerId, stage: Stage)
    requires Inv(s) && w in s.workers && !stage.Holding? && (stage.Acked? ==> s.workers[w].claim in s.accepted)
    ensures Inv(Move(s, w, stage))
  {
  }

  /** A worker publishes its claim only once: it holds it until then, and never again. */
  lemma SendKeeps(s: Sys, w: WorkerId)
    requires Inv(s) && At(s, w, Holding)
    ensures Inv(Move(s, w, Stage.Sent).(sent := s.sent + [s.workers[w].claim]))
  {
    hide Due, Fenced, Times, RowOk;
    var claim := s.workers[w].claim;
    assert WorkOk(s, s.workers[w]);
    forall other
      ensures Times(s.sent + [claim], other) == Times(s.sent, other) + if other == claim then 1 else 0
      ensures other in s.sent <==> Times(s.sent, other) > 0
    {
      TimesAdds(s.sent, claim, other);
    }
  }

  lemma ClaimKeeps(s: Sys, w: WorkerId, id: RowId, lease: nat)
    requires Inv(s) && w !in s.workers && id in s.rows && Due(s.rows[id], s.now)
    ensures var row := ClaimRow(s.rows[id], s.now, lease);
            Inv(s.(rows := s.rows[id := row], workers := s.workers[w := Work(Claim(id, row.attempts), Holding)]))
  {
    hide Fenced;
    assert RowOk(s.rows[id]);
  }

  lemma SettleKeeps(s: Sys, w: WorkerId)
    requires Inv(s) && w in s.workers && (s.workers[w].stage.Acked? || s.workers[w].stage.Failed?)
    ensures Inv(Settled(s, w))
  {
    hide Delay, Due;
    assert WorkOk(s, s.workers[w]);
  }

  lemma NextKeeps(s: Sys, step: Step)
    requires Inv(s)
    ensures Inv(Next(s, step))
  {
    hide Inv, Due, Settled;
    match step
    case ClaimNext(w, id, lease) => if Next(s, step) != s { ClaimKeeps(s, w, id, lease); }
    case Settle(w) => if w in s.workers && (s.workers[w].stage.Acked? || s.workers[w].stage.Failed?) { SettleKeeps(s, w); }
    case Refuse(w) => if Next(s, step) != s { MoveKeeps(s, w, Next(s, step).workers[w].stage); }
    case Send(w) => if Next(s, step) != s { SendKeeps(s, w); }
    case Accept(claim) => AcceptKeeps(s, claim);
    case ConfirmSeen(w) => if Next(s, step) != s { MoveKeeps(s, w, Acked); }
    case ConfirmLost(w, cause) => if Next(s, step) != s { MoveKeeps(s, w, Failed(cause)); }
    case _ => TableStepKeeps(s, step);
  }

  lemma {:induction false} RunKeeps(s: Sys, steps: seq<Step>)
    requires Inv(s)
    ensures Inv(Run(s, steps))
    decreases |steps|
  {
    hide Inv, Next;
    if steps != [] {
      NextKeeps(s, steps[0]);
      RunKeeps(Next(s, steps[0]), steps[1..]);
    }
  }

  lemma Starts()
    ensures Inv(EMPTY)
  {
  }

  // ----- Safety over every run -----

  /** How often a log has a row's event. */
  function Copies(log: seq<Claim>, id: RowId): nat
    decreases |log|
  {
    if log == [] then 0 else Copies(log[..|log| - 1], id) + if log[|log| - 1].id == id then 1 else 0
  }

  function CopySet(log: seq<Claim>, id: RowId): set<Claim> {
    set claim | claim in log && claim.id == id
  }

  /** Of a log without repetitions the copies are as many as their claims. */
  lemma {:induction false} CopiesAreClaims(log: seq<Claim>, id: RowId)
    requires forall claim :: Times(log, claim) <= 1
    ensures Copies(log, id) == |CopySet(log, id)|
    decreases |log|
  {
    if log == [] {
      assert CopySet(log, id) == {};
    } else {
      var before, last := log[..|log| - 1], log[|log| - 1];
      assert log == before + [last];
      forall claim ensures Times(before, claim) <= 1 && last !in before {
        TimesAdds(before, last, claim);
        TimesAdds(before, last, last);
      }
      CopiesAreClaims(before, id);
      assert CopySet(log, id) == CopySet(before, id) + if last.id == id then {last} else {};
    }
  }

  function Claims(id: RowId, attempts: nat): set<Claim>
  {
    set a | 1 <= a <= attempts :: Claim(id, a)
  }

  lemma {:induction false} ClaimsCount(id: RowId, attempts: nat)
    ensures |Claims(id, attempts)| == attempts
  {
    if attempts > 0 {
      ClaimsCount(id, attempts - 1);
      assert Claims(id, attempts) == Claims(id, attempts - 1) + {Claim(id, attempts)};
    } else {
      assert Claims(id, 0) == {};
    }
  }

  lemma {:induction false} SubsetCount<T>(a: set<T>, b: set<T>)
    requires a <= b
    ensures |a| <= |b|
    decreases |b|
  {
    if a != {} {
      var x :| x in a;
      SubsetCount(a - {x}, b - {x});
    }
  }

  /**
   After any run: a PUBLISHED row's event was persisted by the broker, each claim was published
   at most once and persisted at most as often, so there are never more copies than attempts,
   and a row waiting to be retried has attempts left.
   */
  lemma OutboxSafety(steps: seq<Step>, id: RowId)
    requires id in Run(EMPTY, steps).rows
    ensures var s := Run(EMPTY, steps);
            && (s.rows[id].status == Published ==> Copies(s.accepted, id) >= 1)
            && Copies(s.accepted, id) <= Copies(s.sent, id) <= s.rows[id].attempts
            && (forall claim :: Times(s.accepted, claim) <= Times(s.sent, claim) <= 1)
            && (s.rows[id].status == Retry ==> s.rows[id].attempts < MAX_ATTEMPTS)
  {
    Starts();
    RunKeeps(EMPTY, steps);
    CopiesBounded(Run(EMPTY, steps), id);
  }

  lemma CopiesBounded(s: Sys, id: RowId)
    requires Inv(s) && id in s.rows
    ensures s.rows[id].status == Published ==> Copies(s.accepted, id) >= 1
    ensures Copies(s.accepted, id) <= Copies(s.sent, id) <= s.rows[id].attempts
    ensures s.rows[id].status == Retry ==> s.rows[id].attempts < MAX_ATTEMPTS
  {
    hide Times, Copies;
    assert RowOk(s.rows[id]);
    CopiesAreClaims(s.accepted, id);
    CopiesAreClaims(s.sent, id);
    if s.rows[id].status == Published {
      assert Claim(id, s.rows[id].attempts) in CopySet(s.accepted, id);
    }
    forall claim | claim in CopySet(s.accepted, id) ensures claim in CopySet(s.sent, id) {
      TimesAdds(s.accepted, claim, claim);
      TimesAdds(s.sent, claim, claim);
    }
    forall claim | claim in CopySet(s.sent, id) ensures claim in Claims(id, s.rows[id].attempts) {
      assert ClaimKnown(s, claim) && claim == Claim(claim.id, claim.attempt);
    }
    SubsetCount(CopySet(s.accepted, id), CopySet(s.sent, id));
    SubsetCount(CopySet(s.sent, id), Claims(id, s.rows[id].attempts));
    ClaimsCount(id, s.rows[id].attempts);
  }

  // ----- Who may settle -----

  /**
   A row leaves PUBLISHING by settlement only through the one worker that holds its
   current attempt, while the lease lasts and nobody may reclaim it; anybody else's
   settlement changes no row.
   */
  lemma OnlyTheHolderSettles(s: Sys, w: WorkerId)
    requires Inv(s) && w in s.workers && (s.workers[w].stage.Acked? || s.workers[w].stage.Failed?)
    ensures var claim, after := s.workers[w].claim, Settled(s, w);
            if Fenced(s.rows[claim.id], claim.attempt, s.now) then
              && after.rows[claim.id].status in {Published, Retry, DeadLetter}
              && after.rows == s.rows[claim.id := after.rows[claim.id]]
              && (after.rows[claim.id].status == Published ==> claim in s.accepted)
              && !Due(s.rows[claim.id], s.now)
              && (forall v :: v in s.workers && v != w ==> s.workers[v].claim != claim)
            else
              after.rows == s.rows
  {
    hide Delay;
    assert WorkOk(s, s.workers[w]);
  }

  predicate Final(row: Row) {
    row.status == Published || row.status == DeadLetter
  }

  /** Attempts only grow, and a settled row is never claimed or settled again. */
  ghost predicate RowsAdvance(s: Sys, t: Sys) {
    forall id :: id in s.rows ==>
      && id in t.rows && s.rows[id].attempts <= t.rows[id].attempts
      && (Final(s.rows[id]) ==> t.rows[id] == s.rows[id].(deleted := t.rows[id].deleted))
  }

  lemma SettledAdvances(s: Sys, w: WorkerId)
    requires w in s.workers && (s.workers[w].stage.Acked? || s.workers[w].stage.Failed?)
    ensures RowsAdvance(s, Settled(s, w))
  {
    hide Delay;
  }

  lemma NextAdvances(s: Sys, step: Step)
    ensures RowsAdvance(s, Next(s, step))
  {
    hide Settled;
    match step
    case ClaimNext(w, id, lease) =>
    case Settle(w) => if w in s.workers && (s.workers[w].stage.Acked? || s.workers[w].stage.Failed?) { SettledAdvances(s, w); }
    case _ => hide Due;
  }

  lemma {:induction false} RunAdvances(s: Sys, steps: seq<Step>)
    ensures RowsAdvance(s, Run(s, steps))
    decreases |steps|
  {
    hide Next;
    if steps != [] {
      NextAdvances(s, steps[0]);
      RunAdvances(Next(s, steps[0]), steps[1..]);
    }
  }

  // ----- Attempts -----

  /** A failure settled at the eighth attempt or later dead-letters, whatever the cause; so does an unsendable event. */
  lemma LateFailuresDeadLetter(s: Sys, w: WorkerId)
    requires w in s.workers && s.workers[w].stage.Failed? && s.workers[w].claim.id in s.rows && s.workers[w].claim.attempt >= 1
    requires Fenced(s.rows[s.workers[w].claim.id], s.workers[w].claim.attempt, s.now)
    ensures var claim, row := s.workers[w].claim, Settled(s, w).rows[s.workers[w].claim.id];
            && (row.status == DeadLetter <==>
                claim.attempt >= MAX_ATTEMPTS || s.workers[w].stage.cause in {EventInvalid, EventSizeInvalid})
            && (row.status == Retry ==> row.nextAt == s.now + Pow2(Min(claim.attempt - 1, 8)) && row.attempts < MAX_ATTEMPTS)
  {
    DelayDoubles(s.workers[w].claim.attempt);
  }

  /** A worker that claims, crashes, and leaves the lease to expire. */
  function Lapse(w: WorkerId, id: RowId): seq<Step> {
    [ClaimNext(w, id, LEASE_SECONDS), Crash(w), Tick(LEASE_SECONDS + 1)]
  }

  /** Crashes alone take a row to any number of attempts: only settled failures are counted against the limit. */
  lemma {:induction false} CrashesPassAnyBound(s: Sys, w: WorkerId, id: RowId, n: nat) returns (steps: seq<Step>)
    requires w !in s.workers && id in s.rows && Due(s.rows[id], s.now)
    ensures var t := Run(s, steps);
            && w !in t.workers && id in t.rows && Due(t.rows[id], t.now) && t.rows[id].attempts == s.rows[id].attempts + n
    decreases n
  {
    if n == 0 {
      steps := [];
    } else {
      var t := LapseStep(s, w, id);
      var rest := CrashesPassAnyBound(t, w, id, n - 1);
      steps := Lapse(w, id) + rest;
      RunAppend(s, Lapse(w, id), rest);
    }
  }

  lemma LapseStep(s: Sys, w: WorkerId, id: RowId) returns (t: Sys)
    requires w !in s.workers && id in s.rows && Due(s.rows[id], s.now)
    ensures t == Run(s, Lapse(w, id))
    ensures w !in t.workers && id in t.rows && Due(t.rows[id], t.now) && t.rows[id].attempts == s.rows[id].attempts + 1
  {
    var steps := Lapse(w, id);
    var s1 := Next(s, steps[0]);
    var s2 := Next(s1, steps[1]);
    t := Next(s2, steps[2]);
    assert steps[1..][1..][1..] == [];
    assert Run(t, []) == t;
    assert Run(s2, steps[1..][1..]) == t;
    assert Run(s1, steps[1..]) == t;
  }

  lemma {:induction false} RunAppend(s: Sys, a: seq<Step>, b: seq<Step>)
    ensures Run(s, a + b) == Run(Run(s, a), b)
    decreases |a|
  {
    hide Next;
    if a == [] {
      assert a + b == b;
    } else {
      assert (a + b)[1..] == a[1..] + b;
      RunAppend(Next(s, a[0]), a[1..], b);
    }
  }

  // ----- Only what may be sent is sent, and only what failed is given up -----

  /** The cause is an approved code, and one of the two about the event only if it is true of it. */
  predicate Truthful(cause: Cause, envelope: Envelope) {
    match cause
    case EventInvalid => envelope == InvalidEnvelope
    case EventSizeInvalid => envelope == Oversized
    case OtherCause(_) => false
    case _ => true
  }

  predicate RowTruthful(row: Row, now: Instant) {
    && (row.error.Some? ==> Truthful(row.error.value, row.envelope))
    && (row.status == DeadLetter ==> row.error.Some? && (row.attempts >= 8 || row.envelope != Valid))
    && (row.lease.Some? ==> row.lease.value <= now + 60)
  }

  ghost predicate Honest(s: Sys) {
    && (forall claim :: claim in s.sent ==> claim.id in s.rows && s.rows[claim.id].envelope == Valid)
    && (forall id :: id in s.rows ==> RowTruthful(s.rows[id], s.now))
    && (forall w :: w in s.workers ==>
          && s.workers[w].claim.id in s.rows && s.workers[w].claim.attempt >= 1
          && (s.workers[w].stage.Failed? ==> Truthful(s.workers[w].stage.cause, s.rows[s.workers[w].claim.id].envelope))
          && (s.workers[w].stage.Sent? || s.workers[w].stage.Acked? ==> s.workers[w].claim in s.sent))
  }

  lemma TableStepHonest(s: Sys, step: Step)
    requires Honest(s) && (step.Insert? || step.Delete? || step.Tick? || step.Crash? || step.Accept?)
    ensures Honest(Next(s, step))
  {
    hide Due, Truthful, Times;
  }

  lemma MoveHonest(s: Sys, w: WorkerId, stage: Stage)
    requires Honest(s) && w in s.workers && (stage.Acked? ==> s.workers[w].stage.Sent?) && !stage.Sent?
    requires stage.Failed? ==> Truthful(stage.cause, s.rows[s.workers[w].claim.id].envelope)
    ensures Honest(Move(s, w, stage))
  {
    hide Truthful, RowTruthful;
  }

  lemma SendHonest(s: Sys, w: WorkerId)
    requires Honest(s) && w in s.workers && s.rows[s.workers[w].claim.id].envelope == Valid
    ensures Honest(Move(s, w, Stage.Sent).(sent := s.sent + [s.workers[w].claim]))
  {
    hide Truthful, RowTruthful;
  }

  lemma ClaimHonest(s: Sys, w: WorkerId, id: RowId, lease: nat)
    requires Honest(s) && id in s.rows && lease <= 60
    ensures var row := ClaimRow(s.rows[id], s.now, lease);
            Honest(s.(rows := s.rows[id := row], workers := s.workers[w := Work(Claim(id, row.attempts), Holding)]))
  {
    hide Truthful;
  }

  lemma NextHonest(s: Sys, step: Step)
    requires Honest(s)
    ensures Honest(Next(s, step))
  {
    hide Honest, Due, Settled, ClaimRow, Times;
    HonestWorkers(s);
    match step
    case Settle(w) => if w in s.workers && (s.workers[w].stage.Acked? || s.workers[w].stage.Failed?) { SettleHonest(s, w); }
    case ClaimNext(w, id, lease) => if Next(s, step) != s { ClaimHonest(s, w, id, lease); }
    case Send(w) => if Next(s, step) != s { SendHonest(s, w); }
    case Refuse(w) => if Next(s, step) != s { MoveHonest(s, w, Next(s, step).workers[w].stage); }
    case ConfirmSeen(w) => if Next(s, step) != s { MoveHonest(s, w, Acked); }
    case ConfirmLost(w, cause) => if Next(s, step) != s { MoveHonest(s, w, Failed(cause)); }
    case _ => TableStepHonest(s, step);
  }

  lemma HonestWorkers(s: Sys)
    requires Honest(s)
    ensures forall w :: w in s.workers ==> s.workers[w].claim.id in s.rows
  {
  }

  lemma SettleHonest(s: Sys, w: WorkerId)
    requires Honest(s) && w in s.workers && (s.workers[w].stage.Acked? || s.workers[w].stage.Failed?)
    ensures Honest(Settled(s, w))
  {
    hide Delay;
  }

  lemma {:induction false} RunHonest(s: Sys, steps: seq<Step>)
    requires Honest(s)
    ensures Honest(Run(s, steps))
    decreases |steps|
  {
    hide Honest, Next;
    if steps != [] {
      NextHonest(s, steps[0]);
      RunHonest(Next(s, steps[0]), steps[1..]);
    }
  }

  /**
   After any run: only events that may be sent were published, a DEAD_LETTER row had eight
   attempts or an event that may not be sent, its error code is true of it, and no lease
   runs for more than a minute.
   */
  lemma DeadLettersDeserved(steps: seq<Step>, id: RowId)
    requires id in Run(EMPTY, steps).rows
    ensures var s := Run(EMPTY, steps);
            var row := s.rows[id];
            && (forall claim :: claim in s.sent && claim.id == id ==> row.envelope == Valid)
            && (row.status == Published ==> row.envelope == Valid)
            && (row.status == DeadLetter ==> row.attempts >= 8 || row.envelope != Valid)
            && (row.error == Some(EventInvalid) ==> row.envelope == InvalidEnvelope)
            && (row.error == Some(EventSizeInvalid) ==> row.envelope == Oversized)
            && (row.lease.Some? ==> row.lease.value <= s.now + 60)
  {
    hide Times;
    RunHonest(EMPTY, steps);
    Starts();
    RunKeeps(EMPTY, steps);
    var s := Run(EMPTY, steps);
    assert RowTruthful(s.rows[id], s.now);
    if s.rows[id].status == Published {
      var claim := Claim(id, s.rows[id].attempts);
      TimesAdds(s.accepted, claim, claim);
      TimesAdds(s.sent, claim, claim);
    }
  }

  /** From any reachable state a new event can be inserted and published. */
  lemma NewEventPublished(s: Sys, w: WorkerId, id: RowId, event: string) returns (steps: seq<Step>)
    requires Inv(s) && w !in s.workers && id !in s.rows
    ensures var t := Run(s, steps);
            && id in t.rows && t.rows == s.rows[id := t.rows[id]] && t.rows[id].event == event && t.rows[id].status == Published
            && t.accepted == s.accepted + [Claim(id, 1)] && t.sent == s.sent + [Claim(id, 1)] && t.workers == s.workers
  {
    var claim := Claim(id, 1);
    steps := [Insert(id, event, true, Valid, s.now), ClaimNext(w, id, 60), Send(w), Accept(claim), ConfirmSeen(w), Settle(w)];
    var claimed := NewEventClaimed(s, w, id, event);
    NeverSent(s, claim);
    hide Inv, Next, Run, Times, Fenced;
    var acked := NewEventAcked(s, claimed, w, claim);
    NewEventSettled(s, acked, w, id);
    SixSteps(s, steps);
  }

  lemma NewEventClaimed(s: Sys, w: WorkerId, id: RowId, event: string) returns (claimed: Sys)
    requires w !in s.workers && id !in s.rows
    ensures claimed == Next(Next(s, Insert(id, event, true, Valid, s.now)), ClaimNext(w, id, 60))
    ensures claimed == Sys(s.now, s.rows[id := Row(event, true, Valid, false, Publishing, 1, s.now, Some(s.now + 60), None)], s.sent, s.accepted,
                           s.workers[w := Work(Claim(id, 1), Holding)])
  {
    claimed := Next(Next(s, Insert(id, event, true, Valid, s.now)), ClaimNext(w, id, 60));
    assert claimed.rows == s.rows[id := Row(event, true, Valid, false, Publishing, 1, s.now, Some(s.now + 60), None)];
  }

  lemma NewEventAcked(s: Sys, claimed: Sys, w: WorkerId, claim: Claim) returns (acked: Sys)
    requires Times(s.sent, claim) == 0 && Times(s.accepted, claim) == 0
    requires claimed == Sys(s.now, claimed.rows, s.sent, s.accepted, s.workers[w := Work(claim, Holding)])
    requires claim.id in claimed.rows && claimed.rows[claim.id].envelope == Valid
    ensures acked == Next(Next(Next(claimed, Send(w)), Accept(claim)), ConfirmSeen(w))
    ensures acked == Sys(s.now, claimed.rows, s.sent + [claim], s.accepted + [claim], s.workers[w := Work(claim, Acked)])
  {
    TimesAdds(s.sent, claim, claim);
    acked := Next(Next(Next(claimed, Send(w)), Accept(claim)), ConfirmSeen(w));
  }

  lemma NewEventSettled(s: Sys, acked: Sys, w: WorkerId, id: RowId)
    requires w !in s.workers && id !in s.rows && acked.now == s.now && acked.workers == s.workers[w := Work(Claim(id, 1), Acked)]
    requires id in acked.rows && acked.rows == s.rows[id := acked.rows[id]] && Fenced(acked.rows[id], 1, s.now)
    ensures Next(acked, Settle(w)) == Sys(s.now, s.rows[id := PublishRow(acked.rows[id])], acked.sent, acked.accepted, s.workers)
  {
    assert acked.rows[id := PublishRow(acked.rows[id])] == s.rows[id := PublishRow(acked.rows[id])];
    assert acked.workers - {w} == s.workers;
  }

  lemma SixSteps(s: Sys, steps: seq<Step>)
    requires |steps| == 6
    ensures Run(s, steps) == Next(Next(Next(Next(Next(Next(s, steps[0]), steps[1]), steps[2]), steps[3]), steps[4]), steps[5])
  {
    hide Next;
    var t := Next(Next(Next(s, steps[0]), steps[1]), steps[2]);
    assert steps[1..][1..][1..] == steps[3..] && steps[3..][1..][1..][1..] == [];
    assert Run(Next(Next(Next(t, steps[3]), steps[4]), steps[5]), []) == Next(Next(Next(t, steps[3]), steps[4]), steps[5]);
    assert Run(Next(Next(t, steps[3]), steps[4]), steps[3..][1..][1..]) == Next(Next(Next(t, steps[3]), steps[4]), steps[5]);
    assert Run(Next(t, steps[3]), steps[3..][1..]) == Next(Next(Next(t, steps[3]), steps[4]), steps[5]);
    assert Run(t, steps[3..]) == Next(Next(Next(t, steps[3]), steps[4]), steps[5]);
    assert Run(Next(Next(s, steps[0]), steps[1]), steps[1..][1..]) == Run(t, steps[3..]);
    assert Run(Next(s, steps[0]), steps[1..]) == Run(t, steps[3..]);
  }

  lemma NeverSent(s: Sys, claim: Claim)
    requires Inv(s) && claim.id !in s.rows
    ensures claim !in s.sent && Times(s.sent, claim) == 0 && Times(s.accepted, claim) == 0
  {
    TimesAdds(s.sent, claim, claim);
    TimesAdds(s.accepted, claim, claim);
    assert claim in s.sent ==> ClaimKnown(s, claim);
  }

  /** A deleted row is never claimed or settled again, by whatever worker holds it. */
  lemma DeletedStays(s: Sys, id: RowId, steps: seq<Step>)
    requires id in s.rows
    ensures var t := Run(Next(s, Delete(id)), steps);
            id in t.rows && t.rows[id] == s.rows[id].(deleted := true)
  {
    DeletedRun(Next(s, Delete(id)), id, steps);
  }

  lemma {:induction false} DeletedRun(s: Sys, id: RowId, steps: seq<Step>)
    requires id in s.rows && s.rows[id].deleted
    ensures id in Run(s, steps).rows && Run(s, steps).rows[id] == s.rows[id]
    decreases |steps|
  {
    hide Next;
    if steps != [] {
      DeletedStep(s, id, steps[0]);
      DeletedRun(Next(s, steps[0]), id, steps[1..]);
    }
  }

  lemma DeletedStep(s: Sys, id: RowId, step: Step)
    requires id in s.rows && s.rows[id].deleted
    ensures id in Next(s, step).rows && Next(s, step).rows[id] == s.rows[id]
  {
    hide Delay, PublishRow, FailRow;
  }
}
