/** Transactions that take locks one after another and keep them to their end. */
module LockOrder {

  /** The first `got` of the wanted locks are held; asking again for a held lock is granted at once. */
  datatype Txn<R(==)> = Txn(wants: seq<R>, got: nat)
  {
    predicate Holds(r: R) {
      exists i :: 0 <= i < got && i < |wants| && wants[i] == r
    }

    predicate Blocked() {
      got < |wants| && !Holds(wants[got])
    }
  }

  predicate WaitsFor<R>(t: Txn<R>, u: Txn<R>) {
    t.Blocked() && u.Holds(t.wants[t.got])
  }

  /** A deadlock: a ring of transactions, each waiting for the next. */
  ghost predicate Deadlocked<R(!new)>(ring: seq<Txn<R>>) {
    && ring != []
    && (forall i :: 0 <= i < |ring| - 1 ==> WaitsFor(ring[i], ring[i + 1]))
    && WaitsFor(ring[|ring| - 1], ring[0])
  }

  ghost predicate StrictOrder<R(!new)>(less: (R, R) -> bool) {
    && (forall x :: !less(x, x))
    && (forall x, y, z :: less(x, y) && less(y, z) ==> less(x, z))
  }

  /** Each lock is asked for after the lower ones, though possibly more than once. */
  ghost predicate InLockOrder<R>(wants: seq<R>, less: (R, R) -> bool) {
    forall i, j :: 0 <= i < j < |wants| ==> wants[i] == wants[j] || less(wants[i], wants[j])
  }

  lemma WaitingRises<R(!new)>(t: Txn<R>, u: Txn<R>, less: (R, R) -> bool)
    requires InLockOrder(u.wants, less) && WaitsFor(t, u) && u.Blocked()
    ensures less(t.wants[t.got], u.wants[u.got])
  {
    var i :| 0 <= i < u.got && i < |u.wants| && u.wants[i] == t.wants[t.got];
    assert u.wants[i] != u.wants[u.got];
  }

  lemma {:induction false} WaitingRisesAlong<R(!new)>(ring: seq<Txn<R>>, i: nat, less: (R, R) -> bool)
    requires StrictOrder(less) && Deadlocked(ring) && 0 < i < |ring|
    requires forall t :: t in ring ==> InLockOrder(t.wants, less)
    ensures ring[0].Blocked() && ring[i].Blocked()
    ensures less(ring[0].wants[ring[0].got], ring[i].wants[ring[i].got])
  {
    assert ring[i - 1] in ring && ring[i] in ring;
    assert WaitsFor(ring[i - 1], ring[i]);
    assert i + 1 < |ring| ==> WaitsFor(ring[i], ring[i + 1]);
    WaitingRises(ring[i - 1], ring[i], less);
    if i > 1 {
      WaitingRisesAlong(ring, i - 1, less);
    }
  }

  /** Transactions that take their locks in one global order never deadlock, however many run. */
  lemma OrderPreventsDeadlock<R(!new)>(ring: seq<Txn<R>>, less: (R, R) -> bool)
    requires StrictOrder(less) && forall t :: t in ring ==> InLockOrder(t.wants, less)
    ensures !Deadlocked(ring)
  {
    if Deadlocked(ring) {
      var n := |ring| - 1;
      assert ring[n] in ring && ring[0] in ring;
      if n > 0 {
        WaitingRisesAlong(ring, n, less);
      }
      WaitingRises(ring[n], ring[0], less);
    }
  }

  // ----- Two transactions -----

  /**
   The schedule brings the first transaction to its first j locks and the second to
   its first l; neither takes what the other holds.
   */
  predicate Leads<R(==)>(x: seq<R>, y: seq<R>, schedule: seq<bool>, j: nat, l: nat)
    decreases |schedule|
  {
    if schedule == [] then
      j == 0 && l == 0
    else
      var n := |schedule| - 1;
      if schedule[n] then
        0 < j <= |x| && l <= |y| && x[j - 1] !in y[..l] && Leads(x, y, schedule[..n], j - 1, l)
      else
        0 < l <= |y| && j <= |x| && y[l - 1] !in x[..j] && Leads(x, y, schedule[..n], j, l - 1)
  }

  /** Some schedule ends with each waiting for the other. */
  ghost predicate MayDeadlock<R(!new)>(x: seq<R>, y: seq<R>) {
    exists schedule, j, l :: Leads(x, y, schedule, j, l) && Deadlocked([Txn(x, j), Txn(y, l)])
  }

  ghost predicate Apart<R>(x: seq<R>, y: seq<R>, j: nat, l: nat) {
    j <= |x| && l <= |y| && forall i, k :: 0 <= i < j && 0 <= k < l ==> x[i] != y[k]
  }

  /** Having taken nothing in common, each next asks for what the other has. */
  ghost predicate CrossAt<R>(x: seq<R>, y: seq<R>, j: nat, l: nat) {
    Apart(x, y, j, l) && j < |x| && l < |y| && x[j] in y[..l] && y[l] in x[..j]
  }

  lemma {:induction false} LeadsApart<R>(x: seq<R>, y: seq<R>, schedule: seq<bool>, j: nat, l: nat)
    requires Leads(x, y, schedule, j, l)
    ensures Apart(x, y, j, l)
    decreases |schedule|
  {
    if schedule != [] {
      var n := |schedule| - 1;
      if schedule[n] {
        LeadsApart(x, y, schedule[..n], j - 1, l);
        assert forall k :: 0 <= k < l ==> y[k] in y[..l];
      } else {
        LeadsApart(x, y, schedule[..n], j, l - 1);
        assert forall i :: 0 <= i < j ==> x[i] in x[..j];
      }
    }
  }

  lemma {:induction false} ApartLeads<R>(x: seq<R>, y: seq<R>, j: nat, l: nat) returns (schedule: seq<bool>)
    requires Apart(x, y, j, l)
    ensures Leads(x, y, schedule, j, l)
    decreases j + l
  {
    if j > 0 {
      var before := ApartLeads(x, y, j - 1, l);
      schedule := before + [true];
      assert schedule[..|schedule| - 1] == before;
    } else if l > 0 {
      var before := ApartLeads(x, y, j, l - 1);
      schedule := before + [false];
      assert schedule[..|schedule| - 1] == before;
    } else {
      schedule := [];
    }
  }

  lemma CrossingWaits<R(!new)>(x: seq<R>, y: seq<R>, j: nat, l: nat)
    requires Apart(x, y, j, l)
    ensures CrossAt(x, y, j, l) <==> Deadlocked([Txn(x, j), Txn(y, l)])
  {
    var t, u := Txn(x, j), Txn(y, l);
    var ring := [t, u];
    assert ring[0] == t && ring[1] == u;
    HeldPrefix(x, j);
    HeldPrefix(y, l);
    assert Deadlocked(ring) <==> WaitsFor(t, u) && WaitsFor(u, t);
  }

  lemma HeldPrefix<R(!new)>(x: seq<R>, j: nat)
    requires j <= |x|
    ensures forall r :: Txn(x, j).Holds(r) <==> r in x[..j]
  {
    assert forall i :: 0 <= i < j ==> x[..j][i] == x[i];
  }

  /** Two transactions can come to wait for each other exactly when their lock sequences cross before they share a lock. */
  lemma DeadlockIsCrossing<R(!new)>(x: seq<R>, y: seq<R>)
    ensures MayDeadlock(x, y) <==> exists j: nat, l: nat :: CrossAt(x, y, j, l)
  {
    hide Leads, Deadlocked, CrossAt;
    if MayDeadlock(x, y) {
      var schedule, j: nat, l: nat :| Leads(x, y, schedule, j, l) && Deadlocked([Txn(x, j), Txn(y, l)]);
      LeadsApart(x, y, schedule, j, l);
      CrossingWaits(x, y, j, l);
    }
    if j: nat, l: nat :| CrossAt(x, y, j, l) {
      CrossIsApart(x, y, j, l);
      var schedule := ApartLeads(x, y, j, l);
      CrossingWaits(x, y, j, l);
    }
  }

  lemma CrossIsApart<R>(x: seq<R>, y: seq<R>, j: nat, l: nat)
    requires CrossAt(x, y, j, l)
    ensures Apart(x, y, j, l)
  {
  }
}
