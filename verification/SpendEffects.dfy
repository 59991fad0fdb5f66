/** What a command's releases, reservations and commits do to holds and balances, row by row. */
module SpendEffects {
  import opened Wrappers
  import opened SpendTypes
  import opened SpendLedger
  import opened SpendCommands
  import opened SpendBooks
  import opened SpendPlans

  ghost predicate Distinct<T>(s: seq<T>) {
    forall i, j :: 0 <= i < j < |s| ==> s[i] != s[j]
  }

  // ----- The entry table only grows -----

  ghost predicate Appended(db: Db, db1: Db, command: Id) {
    && (forall k :: k in db.entries ==> k in db1.entries && db1.entries[k] == db.entries[k])
    && (forall k :: k in db1.entries && k !in db.entries ==> k.command == command)
  }

  lemma {:induction false} AppliedAppends(db: Db, es: seq<Entry>, command: Id, clk: Clock)
    requires ApplyAll(db, es, clk).Success?
    requires forall e :: e in es ==> e.key.command == command
    ensures Appended(db, ApplyAll(db, es, clk).value, command)
    decreases |es|
  {
    if es != [] {
      AppliedAppends(ApplyEntry(db, es[0], clk).value, es[1..], command, clk);
    }
  }

  // ----- Releasing -----

  /** The part of a hold that the releases of a command return. */
  ghost function Returned(db: Db, id: ResId, slots: seq<Slot>, why: Why, hk: HoldKey): int {
    if hk.reservation == id && hk.slot in slots && hk in db.holds && MustRelease(db, id, hk.slot, why) then
      db.holds[hk].reserved
    else
      0
  }

  ghost predicate ReleasedAs(db: Db, db1: Db, id: ResId, slots: seq<Slot>, why: Why) {
    && OnlyLedgerMoved(db, db1)
    && db1.holds.Keys == db.holds.Keys && db1.balances.Keys == db.balances.Keys
    && (forall hk :: hk in db.holds ==>
          db1.holds[hk] == db.holds[hk].(reserved := db.holds[hk].reserved - Returned(db, id, slots, why, hk)))
    && (forall slot :: slot in db.balances ==>
          db1.balances[slot]
          == db.balances[slot].(reserved := db.balances[slot].reserved - Returned(db, id, slots, why, HoldKey(id, slot))))
  }

  predicate AllHeld(db: Db, id: ResId, slots: seq<Slot>) {
    forall slot :: slot in slots ==> HoldKey(id, slot) in db.holds
  }

  function ReleaseKey(command: Id, id: ResId, slot: Slot): EntryKey {
    EntryKey(command, slot.policy, ReleaseStep(id, slot.period))
  }

  lemma {:induction false} ReleasesSame(a: Db, b: Db, id: ResId, slots: seq<Slot>, why: Why, command: Id, actor: Id)
    requires a.policies == b.policies && AllHeld(a, id, slots) && AllHeld(b, id, slots)
    requires forall slot :: slot in slots ==> a.holds[HoldKey(id, slot)] == b.holds[HoldKey(id, slot)]
    ensures Releases(a, id, slots, why, command, actor) == Releases(b, id, slots, why, command, actor)
    decreases |slots|
  {
    if slots != [] {
      assert slots[0] in slots;
      ReleasesSame(a, b, id, slots[1..], why, command, actor);
    }
  }

  lemma ReleaseOne(db: Db, id: ResId, slot: Slot, why: Why, command: Id, actor: Id, clk: Clock)
    requires HoldKey(id, slot) in db.holds && MustRelease(db, id, slot, why)
    requires ApplyEntry(db, ReleaseOf(db, id, slot, why, command, actor), clk).Success?
    ensures var db1 := ApplyEntry(db, ReleaseOf(db, id, slot, why, command, actor), clk).value;
            && ReleasedAs(db, db1, id, [slot], why)
            && db1.entries.Keys == db.entries.Keys + {ReleaseKey(command, id, slot)}
  {
  }

  /** Exactly the chosen holds are returned to their balances. */
  lemma {:induction false} ReleasesEffect(db: Db, id: ResId, slots: seq<Slot>, why: Why, command: Id, actor: Id, clk: Clock)
    requires Distinct(slots) && AllHeld(db, id, slots)
    requires ApplyAll(db, Releases(db, id, slots, why, command, actor), clk).Success?
    ensures ReleasedAs(db, ApplyAll(db, Releases(db, id, slots, why, command, actor), clk).value, id, slots, why)
    decreases |slots|
  {
    if slots != [] {
      var slot, rest := slots[0], slots[1..];
      assert slot in slots && slot !in rest && [slot] + rest == slots;
      var later := Releases(db, id, rest, why, command, actor);
      if MustRelease(db, id, slot, why) {
        var e := ReleaseOf(db, id, slot, why, command, actor);
        Stepwise(db, e, later, clk);
        ReleaseOne(db, id, slot, why, command, actor, clk);
        var db1 := ApplyEntry(db, e, clk).value;
        ReleasesSame(db, db1, id, rest, why, command, actor);
        ReleasesEffect(db1, id, rest, why, command, actor, clk);
        ReleasedChain(db, db1, ApplyAll(db1, later, clk).value, id, slot, rest, why);
      } else {
        assert [] + later == later;
        ReleasesEffect(db, id, rest, why, command, actor, clk);
        ReleasedSkip(db, ApplyAll(db, later, clk).value, id, slot, rest, why);
      }
    }
  }

  lemma ReleasedChain(db: Db, db1: Db, db2: Db, id: ResId, slot: Slot, rest: seq<Slot>, why: Why)
    requires slot !in rest
    requires ReleasedAs(db, db1, id, [slot], why) && ReleasedAs(db1, db2, id, rest, why)
    ensures ReleasedAs(db, db2, id, [slot] + rest, why)
  {
    forall hk ensures Returned(db, id, [slot] + rest, why, hk) ==
                      Returned(db, id, [slot], why, hk) + Returned(db1, id, rest, why, hk)
    {
      if hk in db.holds && hk.slot != slot {
        assert db1.holds[hk] == db.holds[hk];
      }
    }
  }

  lemma ReleasedSkip(db: Db, db2: Db, id: ResId, slot: Slot, rest: seq<Slot>, why: Why)
    requires HoldKey(id, slot) in db.holds && !MustRelease(db, id, slot, why)
    requires ReleasedAs(db, db2, id, rest, why)
    ensures ReleasedAs(db, db2, id, [slot] + rest, why)
  {
    forall hk ensures Returned(db, id, [slot] + rest, why, hk) == Returned(db, id, rest, why, hk) {}
  }

  lemma ReleaseAdmitted(db: Db, id: ResId, slot: Slot, why: Why, command: Id, actor: Id, clk: Clock)
    requires Books(db) && HoldKey(id, slot) in db.holds && MustRelease(db, id, slot, why)
    requires ReleaseKey(command, id, slot) !in db.entries
    ensures ApplyEntry(db, ReleaseOf(db, id, slot, why, command, actor), clk).Success?
  {
    assert HoldOk(db, HoldKey(id, slot));
    HoldWithinBalance(db, HoldKey(id, slot));
    assert BalanceOk(db, slot);
  }

  lemma ReleaseLeaves(db: Db, id: ResId, slot: Slot, rest: seq<Slot>, why: Why, command: Id, actor: Id, clk: Clock)
    returns (db1: Db)
    requires Books(db) && HoldKey(id, slot) in db.holds && MustRelease(db, id, slot, why)
    requires ReleaseKey(command, id, slot) !in db.entries && slot !in rest && AllHeld(db, id, rest)
    ensures ApplyEntry(db, ReleaseOf(db, id, slot, why, command, actor), clk) == Success(db1)
    ensures AllHeld(db1, id, rest) && db1.entries.Keys == db.entries.Keys + {ReleaseKey(command, id, slot)}
    ensures Releases(db1, id, rest, why, command, actor) == Releases(db, id, rest, why, command, actor)
  {
    ReleaseAdmitted(db, id, slot, why, command, actor, clk);
    ReleaseOne(db, id, slot, why, command, actor, clk);
    db1 := ApplyEntry(db, ReleaseOf(db, id, slot, why, command, actor), clk).value;
    ReleasesSame(db, db1, id, rest, why, command, actor);
  }

  /** A release of what is held is never refused. */
  lemma {:induction false} ReleasesSucceed(db: Db, id: ResId, slots: seq<Slot>, why: Why, command: Id, actor: Id, clk: Clock)
    requires Books(db) && Distinct(slots) && AllHeld(db, id, slots)
    requires forall slot :: slot in slots ==> ReleaseKey(command, id, slot) !in db.entries
    ensures ApplyAll(db, Releases(db, id, slots, why, command, actor), clk).Success?
    decreases |slots|
  {
    hide Books, ApplyEntry, MustRelease;
    if slots != [] {
      var slot, rest := slots[0], slots[1..];
      assert slot in slots && slot !in rest;
      var later := Releases(db, id, rest, why, command, actor);
      if MustRelease(db, id, slot, why) {
        var e := ReleaseOf(db, id, slot, why, command, actor);
        var db1 := ReleaseLeaves(db, id, slot, rest, why, command, actor, clk);
        BooksKept(db, e, clk);
        ReleasesSucceed(db1, id, rest, why, command, actor, clk);
        Stepwise(db, e, later, clk);
      } else {
        assert [] + later == later;
        ReleasesSucceed(db, id, rest, why, command, actor, clk);
      }
    }
  }

  // ----- Reserving -----

  /** What the plan adds to one hold and its balance: nothing when a rollover already holds it. */
  function Added(db: Db, id: ResId, policies: seq<PolicyId>, amount: int, topUp: bool, clk: Clock, slot: Slot): int {
    if slot.policy in policies && slot.policy in db.policies && slot == CurrentSlot(db, slot.policy, clk) then
      Wanted(db, id, slot.policy, amount, topUp, clk)
    else
      0
  }

  function Wanted(db: Db, id: ResId, policy: PolicyId, amount: int, topUp: bool, clk: Clock): int
    requires policy in db.policies
  {
    var wanted := AmountToReserve(db, id, policy, amount, topUp, clk);
    if wanted <= 0 then 0 else wanted
  }

  /** The hold after a reservation, at the budget's revision; otherwise unchanged. */
  ghost predicate HoldGrew(db: Db, db1: Db, hk: HoldKey, added: int) {
    if added > 0 then
      && hk in db1.holds && hk.slot.policy in db.policies
      && db1.holds[hk] == Hold(db.policies[hk.slot.policy].revision,
                               ReservedBy(db, hk.reservation, hk.slot) + added,
                               CommittedBy(db, hk.reservation, hk.slot))
    else
      (hk in db1.holds <==> hk in db.holds) && (hk in db.holds ==> db1.holds[hk] == db.holds[hk])
  }

  ghost predicate ReservedAs(db: Db, db1: Db, id: ResId, policies: seq<PolicyId>, amount: int, topUp: bool, clk: Clock) {
    && OnlyLedgerMoved(db, db1)
    && (forall hk: HoldKey ::
          HoldGrew(db, db1, hk, if hk.reservation == id then Added(db, id, policies, amount, topUp, clk, hk.slot) else 0))
    && (forall slot: Slot ::
          Reserved(db1, slot) == Reserved(db, slot) + Added(db, id, policies, amount, topUp, clk, slot))
    && (forall slot: Slot :: SpentTotal(db1, slot) == SpentTotal(db, slot))
  }

  ghost predicate Known(db: Db, policies: seq<PolicyId>) {
    forall p :: p in policies ==> p in db.policies
  }

  lemma ReserveOne(db: Db, id: ResId, policy: PolicyId, amount: int, topUp: bool, clk: Clock,
                   step: Step, command: Id, actor: Id)
    requires policy in db.policies && Wanted(db, id, policy, amount, topUp, clk) > 0
    requires ApplyEntry(db, ReserveOf(db, id, policy, Wanted(db, id, policy, amount, topUp, clk), step, command, actor), clk).Success?
    ensures var e := ReserveOf(db, id, policy, Wanted(db, id, policy, amount, topUp, clk), step, command, actor);
            var db1 := ApplyEntry(db, e, clk).value;
            && ReservedAs(db, db1, id, [policy], amount, topUp, clk)
            && db1.entries.Keys == db.entries.Keys + {e.key}
  {
  }

  lemma {:induction false} ReservesSame(a: Db, b: Db, id: ResId, policies: seq<PolicyId>, amount: int, topUp: bool, clk: Clock,
                                        step: Step, command: Id, actor: Id)
    requires a.policies == b.policies && Known(a, policies)
    requires forall p :: p in policies ==> CurrentlyReserved(a, id, p, clk) == CurrentlyReserved(b, id, p, clk)
    ensures Reserves(a, id, policies, amount, topUp, clk, step, command, actor)
         == Reserves(b, id, policies, amount, topUp, clk, step, command, actor)
    decreases |policies|
  {
    if policies != [] {
      assert policies[0] in policies;
      ReservesSame(a, b, id, policies[1..], amount, topUp, clk, step, command, actor);
    }
  }

  lemma OthersStillReserved(db: Db, db1: Db, id: ResId, policy: PolicyId, other: PolicyId, amount: int, topUp: bool, clk: Clock)
    requires ReservedAs(db, db1, id, [policy], amount, topUp, clk)
    requires other != policy && other in db.policies
    ensures CurrentlyReserved(db1, id, other, clk) == CurrentlyReserved(db, id, other, clk)
  {
    var hk := HoldKey(id, CurrentSlot(db, other, clk));
    assert HoldGrew(db, db1, hk, 0);
  }

  lemma ReservedChain(db: Db, db1: Db, db2: Db, id: ResId, policy: PolicyId, rest: seq<PolicyId>,
                      amount: int, topUp: bool, clk: Clock)
    requires policy !in rest && Known(db, [policy] + rest)
    requires ReservedAs(db, db1, id, [policy], amount, topUp, clk)
    requires ReservedAs(db1, db2, id, rest, amount, topUp, clk)
    ensures ReservedAs(db, db2, id, [policy] + rest, amount, topUp, clk)
  {
    forall slot: Slot
      ensures Added(db, id, [policy] + rest, amount, topUp, clk, slot)
           == Added(db, id, [policy], amount, topUp, clk, slot) + Added(db1, id, rest, amount, topUp, clk, slot)
      ensures Added(db, id, [policy], amount, topUp, clk, slot) == 0 || Added(db1, id, rest, amount, topUp, clk, slot) == 0
    {
      if slot.policy in rest {
        OthersStillReserved(db, db1, id, policy, slot.policy, amount, topUp, clk);
      }
    }
    forall hk: HoldKey
      ensures HoldGrew(db, db2, hk, if hk.reservation == id then Added(db, id, [policy] + rest, amount, topUp, clk, hk.slot) else 0)
    {
      assert HoldGrew(db, db1, hk, if hk.reservation == id then Added(db, id, [policy], amount, topUp, clk, hk.slot) else 0);
      assert HoldGrew(db1, db2, hk, if hk.reservation == id then Added(db1, id, rest, amount, topUp, clk, hk.slot) else 0);
    }
  }

  lemma ReservedSkip(db: Db, db2: Db, id: ResId, policy: PolicyId, rest: seq<PolicyId>, amount: int, topUp: bool, clk: Clock)
    requires Known(db, [policy] + rest) && policy !in rest
    requires Wanted(db, id, policy, amount, topUp, clk) == 0
    requires ReservedAs(db, db2, id, rest, amount, topUp, clk)
    ensures ReservedAs(db, db2, id, [policy] + rest, amount, topUp, clk)
  {
    forall slot: Slot
      ensures Added(db, id, [policy] + rest, amount, topUp, clk, slot) == Added(db, id, rest, amount, topUp, clk, slot)
    {}
    forall hk: HoldKey
      ensures HoldGrew(db, db2, hk, if hk.reservation == id then Added(db, id, [policy] + rest, amount, topUp, clk, hk.slot) else 0)
    {
      assert HoldGrew(db, db2, hk, if hk.reservation == id then Added(db, id, rest, amount, topUp, clk, hk.slot) else 0);
    }
  }

  /** Exactly the wanted amounts are added at the current slots. */
  lemma {:induction false} ReservesEffect(db: Db, id: ResId, policies: seq<PolicyId>, amount: int, topUp: bool, clk: Clock,
                                          step: Step, command: Id, actor: Id)
    requires Distinct(policies) && Known(db, policies) && (topUp || amount > 0)
    requires ApplyAll(db, Reserves(db, id, policies, amount, topUp, clk, step, command, actor), clk).Success?
    ensures ReservedAs(db, ApplyAll(db, Reserves(db, id, policies, amount, topUp, clk, step, command, actor), clk).value,
                       id, policies, amount, topUp, clk)
    decreases |policies|
  {
    hide ApplyEntry;
    if policies != [] {
      var policy, rest := policies[0], policies[1..];
      assert policy in policies && policy !in rest && [policy] + rest == policies;
      var later := Reserves(db, id, rest, amount, topUp, clk, step, command, actor);
      if Wanted(db, id, policy, amount, topUp, clk) > 0 {
        var e := ReserveOf(db, id, policy, Wanted(db, id, policy, amount, topUp, clk), step, command, actor);
        Stepwise(db, e, later, clk);
        var db1 := ReserveLeaves(db, id, policy, rest, amount, topUp, clk, step, command, actor);
        ReservesEffect(db1, id, rest, amount, topUp, clk, step, command, actor);
        ReservedChain(db, db1, ApplyAll(db1, later, clk).value, id, policy, rest, amount, topUp, clk);
      } else {
        assert [] + later == later;
        ReservesEffect(db, id, rest, amount, topUp, clk, step, command, actor);
        ReservedSkip(db, ApplyAll(db, later, clk).value, id, policy, rest, amount, topUp, clk);
      }
    }
  }

  lemma ReserveLeaves(db: Db, id: ResId, policy: PolicyId, rest: seq<PolicyId>, amount: int, topUp: bool, clk: Clock,
                      step: Step, command: Id, actor: Id)
    returns (db1: Db)
    requires policy !in rest && Known(db, [policy] + rest) && Wanted(db, id, policy, amount, topUp, clk) > 0
    requires ApplyEntry(db, ReserveOf(db, id, policy, Wanted(db, id, policy, amount, topUp, clk), step, command, actor), clk).Success?
    ensures ApplyEntry(db, ReserveOf(db, id, policy, Wanted(db, id, policy, amount, topUp, clk), step, command, actor), clk)
         == Success(db1)
    ensures ReservedAs(db, db1, id, [policy], amount, topUp, clk)
    ensures db1.entries.Keys == db.entries.Keys + {EntryKey(command, policy, step)}
    ensures forall p :: p in rest ==> CurrentlyReserved(db1, id, p, clk) == CurrentlyReserved(db, id, p, clk)
    ensures Reserves(db1, id, rest, amount, topUp, clk, step, command, actor)
         == Reserves(db, id, rest, amount, topUp, clk, step, command, actor)
  {
    ReserveOne(db, id, policy, amount, topUp, clk, step, command, actor);
    var e := ReserveOf(db, id, policy, Wanted(db, id, policy, amount, topUp, clk), step, command, actor);
    db1 := ApplyEntry(db, e, clk).value;
    forall p | p in rest ensures CurrentlyReserved(db1, id, p, clk) == CurrentlyReserved(db, id, p, clk) {
      OthersStillReserved(db, db1, id, policy, p, amount, topUp, clk);
    }
    ReservesSame(db, db1, id, rest, amount, topUp, clk, step, command, actor);
  }

  // ----- When reserving is admitted -----

  /** Everything the trigger asks of a reservation besides capacity. */
  ghost predicate MayReserve(db: Db, id: ResId, policy: PolicyId, clk: Clock) {
    && id in db.reservations && policy in db.policies
    && db.reservations[id].status == Active && clk.now < db.reservations[id].expiresAt
    && Applies(db.policies[policy], db.reservations[id], clk.now)
    && PeriodOf(db.policies[policy], clk).startsAt <= clk.now < PeriodOf(db.policies[policy], clk).endsAt
    && var hk := HoldKey(id, CurrentSlot(db, policy, clk));
       hk in db.holds ==>
         && 0 <= db.holds[hk].reserved && 0 <= db.holds[hk].committed
         && (db.holds[hk].revision == db.policies[policy].revision
             || (db.holds[hk].reserved == 0 && db.holds[hk].committed == 0))
  }

  /** The part of the budget that is neither committed nor reserved this period. */
  function Available(db: Db, policy: PolicyId, clk: Clock): int
    requires policy in db.policies
  {
    var slot := CurrentSlot(db, policy, clk);
    db.policies[policy].limit - SpentTotal(db, slot) - Reserved(db, slot)
  }

  lemma ReserveAdmitted(db: Db, id: ResId, policy: PolicyId, wanted: int, step: Step, command: Id, actor: Id, clk: Clock)
    requires MayReserve(db, id, policy, clk) && wanted > 0
    requires forall slot :: slot in db.balances ==> BalanceOk(db, slot)
    requires EntryKey(command, policy, step) !in db.entries
    ensures var w := ApplyEntry(db, ReserveOf(db, id, policy, wanted, step, command, actor), clk);
            if wanted <= Available(db, policy, clk) then w.Success? else w == Failure(InsufficientCapacity)
  {
    var slot := CurrentSlot(db, policy, clk);
    assert slot in db.balances ==> BalanceOk(db, slot);
  }

  predicate Fits(db: Db, id: ResId, policies: seq<PolicyId>, amount: int, topUp: bool, clk: Clock)
    requires forall p :: p in policies ==> p in db.policies
  {
    forall p :: p in policies ==> Wanted(db, id, p, amount, topUp, clk) == 0
                                  || Wanted(db, id, p, amount, topUp, clk) <= Available(db, p, clk)
  }

  /** Reservations are admitted exactly when every budget has room; the only refusal is capacity. */
  lemma {:induction false} ReservesSucceed(db: Db, id: ResId, policies: seq<PolicyId>, amount: int, topUp: bool, clk: Clock,
                                           step: Step, command: Id, actor: Id)
    requires Books(db) && Distinct(policies) && Known(db, policies) && (topUp || amount > 0)
    requires forall p :: p in policies ==> MayReserve(db, id, p, clk) && EntryKey(command, p, step) !in db.entries
    ensures var w := ApplyAll(db, Reserves(db, id, policies, amount, topUp, clk, step, command, actor), clk);
            if Fits(db, id, policies, amount, topUp, clk) then w.Success? else w == Failure(InsufficientCapacity)
    decreases |policies|
  {
    hide ApplyEntry, MayReserve, Books, ReservedAs, Available;
    if policies != [] {
      var policy, rest := policies[0], policies[1..];
      assert policy in policies && policy !in rest && [policy] + rest == policies;
      assert MayReserve(db, id, policy, clk);
      var later := Reserves(db, id, rest, amount, topUp, clk, step, command, actor);
      var wanted := Wanted(db, id, policy, amount, topUp, clk);
      if wanted > 0 {
        var e := ReserveOf(db, id, policy, wanted, step, command, actor);
        Stepwise(db, e, later, clk);
        assert forall slot :: slot in db.balances ==> BalanceOk(db, slot) by { BalancesAreOk(db); }
        ReserveAdmitted(db, id, policy, wanted, step, command, actor, clk);
        if wanted <= Available(db, policy, clk) {
          var db1 := ReserveLeaves(db, id, policy, rest, amount, topUp, clk, step, command, actor);
          BooksKept(db, e, clk);
          OthersMayReserve(db, db1, id, policy, rest, amount, topUp, clk);
          ReservesSucceed(db1, id, rest, amount, topUp, clk, step, command, actor);
        }
      } else {
        assert [] + later == later;
        ReservesSucceed(db, id, rest, amount, topUp, clk, step, command, actor);
      }
    }
  }

  lemma BalancesAreOk(db: Db)
    requires Books(db)
    ensures forall slot :: slot in db.balances ==> BalanceOk(db, slot)
  {
  }

  lemma OthersMayReserve(db: Db, db1: Db, id: ResId, policy: PolicyId, rest: seq<PolicyId>, amount: int, topUp: bool, clk: Clock)
    requires ReservedAs(db, db1, id, [policy], amount, topUp, clk)
    requires policy !in rest && Known(db, rest) && forall p :: p in rest ==> MayReserve(db, id, p, clk)
    ensures forall p :: p in rest ==> MayReserve(db1, id, p, clk)
    ensures Fits(db1, id, rest, amount, topUp, clk) <==> Fits(db, id, rest, amount, topUp, clk)
  {
    forall p | p in rest
      ensures MayReserve(db1, id, p, clk) && Available(db1, p, clk) == Available(db, p, clk)
      ensures Wanted(db1, id, p, amount, topUp, clk) == Wanted(db, id, p, amount, topUp, clk)
    {
      assert MayReserve(db, id, p, clk);
      var slot := CurrentSlot(db, p, clk);
      assert HoldGrew(db, db1, HoldKey(id, slot), 0);
    }
  }

  // ----- Committing -----

  /** What a commit moves from reserved to committed in one budget period. */
  function Converted(db: Db, policies: seq<PolicyId>, amount: int, clk: Clock, slot: Slot): int {
    if slot.policy in policies && slot.policy in db.policies && slot == CurrentSlot(db, slot.policy, clk) then amount else 0
  }

  ghost predicate HoldConverted(db: Db, db1: Db, hk: HoldKey, moved: int) {
    && (hk in db1.holds <==> hk in db.holds)
    && (hk in db.holds ==>
          db1.holds[hk] == db.holds[hk].(reserved := db.holds[hk].reserved - moved, committed := db.holds[hk].committed + moved))
  }

  ghost predicate CommittedAs(db: Db, db1: Db, id: ResId, policies: seq<PolicyId>, amount: int, clk: Clock) {
    && OnlyLedgerMoved(db, db1)
    && (forall hk: HoldKey ::
          HoldConverted(db, db1, hk, if hk.reservation == id then Converted(db, policies, amount, clk, hk.slot) else 0))
    && (forall slot: Slot :: Reserved(db1, slot) == Reserved(db, slot) - Converted(db, policies, amount, clk, slot))
    && (forall slot: Slot :: SpentTotal(db1, slot) == SpentTotal(db, slot) + Converted(db, policies, amount, clk, slot))
  }

  ghost predicate MayCommit(db: Db, id: ResId, policy: PolicyId, amount: int, clk: Clock) {
    && id in db.reservations && policy in db.policies && amount > 0
    && db.reservations[id].status == Active && clk.now < db.reservations[id].expiresAt
    && Applies(db.policies[policy], db.reservations[id], clk.now)
    && PeriodOf(db.policies[policy], clk).startsAt <= clk.now < PeriodOf(db.policies[policy], clk).endsAt
    && FullyHeld(db, id, policy, amount, clk)
  }

  lemma CommitOne(db: Db, id: ResId, policy: PolicyId, amount: int, reference: Id, command: Id, actor: Id, clk: Clock)
    returns (db1: Db)
    requires Books(db) && MayCommit(db, id, policy, amount, clk)
    requires EntryKey(command, policy, CommitStep) !in db.entries
    ensures ApplyEntry(db, CommitOf(db, id, policy, amount, reference, command, actor), clk) == Success(db1)
    ensures CommittedAs(db, db1, id, [policy], amount, clk)
    ensures db1.entries.Keys == db.entries.Keys + {EntryKey(command, policy, CommitStep)}
  {
    var slot := CurrentSlot(db, policy, clk);
    var hk, e := HoldKey(id, slot), CommitOf(db, id, policy, amount, reference, command, actor);
    assert HoldOk(db, hk);
    HoldWithinBalance(db, hk);
    assert BalanceOk(db, slot);
    var rows := Rows(slot,
                     db.balances[slot].(reserved := db.balances[slot].reserved - amount, committed := db.balances[slot].committed + amount),
                     db.holds[hk].(reserved := db.holds[hk].reserved - amount, committed := db.holds[hk].committed + amount));
    assert Judge(db, e, clk) == Success(rows);
    db1 := Post(db, e, rows);
    CommitPosted(db, e, rows, id, policy, amount, clk);
  }

  lemma CommitPosted(db: Db, e: Entry, rows: Rows, id: ResId, policy: PolicyId, amount: int, clk: Clock)
    requires policy in db.policies && rows.slot == CurrentSlot(db, policy, clk) && e.reservation == id
    requires HoldKey(id, rows.slot) in db.holds && rows.slot in db.balances
    requires var h, b := db.holds[HoldKey(id, rows.slot)], db.balances[rows.slot];
             && rows.hold == h.(reserved := h.reserved - amount, committed := h.committed + amount)
             && rows.balance == b.(reserved := b.reserved - amount, committed := b.committed + amount)
    ensures CommittedAs(db, Post(db, e, rows), id, [policy], amount, clk)
  {
  }

  lemma CommittedChain(db: Db, db1: Db, db2: Db, id: ResId, policy: PolicyId, rest: seq<PolicyId>, amount: int, clk: Clock)
    requires policy !in rest
    requires CommittedAs(db, db1, id, [policy], amount, clk) && CommittedAs(db1, db2, id, rest, amount, clk)
    ensures CommittedAs(db, db2, id, [policy] + rest, amount, clk)
  {
    forall slot: Slot
      ensures Converted(db, [policy] + rest, amount, clk, slot)
           == Converted(db, [policy], amount, clk, slot) + Converted(db1, rest, amount, clk, slot)
    {}
    forall hk: HoldKey
      ensures HoldConverted(db, db2, hk, if hk.reservation == id then Converted(db, [policy] + rest, amount, clk, hk.slot) else 0)
    {
      assert HoldConverted(db, db1, hk, if hk.reservation == id then Converted(db, [policy], amount, clk, hk.slot) else 0);
      assert HoldConverted(db1, db2, hk, if hk.reservation == id then Converted(db1, rest, amount, clk, hk.slot) else 0);
    }
  }

  lemma OthersMayCommit(db: Db, db1: Db, id: ResId, policy: PolicyId, rest: seq<PolicyId>, amount: int, clk: Clock)
    requires CommittedAs(db, db1, id, [policy], amount, clk)
    requires policy !in rest && forall p :: p in rest ==> MayCommit(db, id, p, amount, clk)
    ensures forall p :: p in rest ==> MayCommit(db1, id, p, amount, clk)
  {
    forall p | p in rest ensures MayCommit(db1, id, p, amount, clk) {
      assert MayCommit(db, id, p, amount, clk);
      assert HoldConverted(db, db1, HoldKey(id, CurrentSlot(db, p, clk)), 0);
    }
  }

  lemma {:induction false} CommitsSame(a: Db, b: Db, id: ResId, policies: seq<PolicyId>, amount: int, reference: Id,
                                       command: Id, actor: Id)
    requires a.policies == b.policies && Known(a, policies)
    ensures Commits(a, id, policies, amount, reference, command, actor) == Commits(b, id, policies, amount, reference, command, actor)
    decreases |policies|
  {
    if policies != [] {
      CommitsSame(a, b, id, policies[1..], amount, reference, command, actor);
    }
  }

  /** A commit whose guard holds is never refused by the trigger, and converts exactly what is held. */
  lemma {:induction false} CommitsApply(db: Db, id: ResId, policies: seq<PolicyId>, amount: int, reference: Id,
                                        command: Id, actor: Id, clk: Clock)
    requires Books(db) && Distinct(policies) && Known(db, policies)
    requires forall p :: p in policies ==> MayCommit(db, id, p, amount, clk) && EntryKey(command, p, CommitStep) !in db.entries
    ensures var w := ApplyAll(db, Commits(db, id, policies, amount, reference, command, actor), clk);
            w.Success? && CommittedAs(db, w.value, id, policies, amount, clk)
    decreases |policies|
  {
    hide ApplyEntry, MayCommit, Books;
    if policies != [] {
      var policy, rest := policies[0], policies[1..];
      assert policy in policies && policy !in rest && [policy] + rest == policies;
      var db1 := CommitOne(db, id, policy, amount, reference, command, actor, clk);
      BooksKept(db, CommitOf(db, id, policy, amount, reference, command, actor), clk);
      OthersMayCommit(db, db1, id, policy, rest, amount, clk);
      CommitsSame(db, db1, id, rest, amount, reference, command, actor);
      CommitsApply(db1, id, rest, amount, reference, command, actor, clk);
      var later := Commits(db, id, rest, amount, reference, command, actor);
      Stepwise(db, CommitOf(db, id, policy, amount, reference, command, actor), later, clk);
      CommittedChain(db, db1, ApplyAll(db1, later, clk).value, id, policy, rest, amount, clk);
    }
  }
}
