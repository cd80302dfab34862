/** The off-chain deadline settlement does what the contract would have done:
    same ledger records in the same order, same settled cycles, same state. */
module Refinement {
  import opened Domain
  import opened Sums
  import opened Rotation
  import opened RotationProofs
  import opened RotationTheorems
  import opened DeadlineTheorems
  import opened StepLaws
  import opened Contract
  import opened ContractTheorems

  const NANOS := 1_000_000_000

  /** A time stamp as the chain sees it: whole seconds. */
  function Seconds(t: Time): int {
    t / NANOS
  }

  /** The contract knows the same members, terms and payments as the group. */
  ghost predicate SamePayments(r: Rota, k: Storage) {
    && k.self == r.group.id && k.organizer == r.group.organizer && k.amount == r.group.amount
    && k.members == r.group.members && k.payoutOrder == r.group.payoutOrder
    && (forall c: nat, u :: (c, u) in k.contributions <==> Paid(r, u, c))
  }

  /** The contract's storage mirrors the group. */
  ghost predicate Mirrors(r: Rota, k: Storage) {
    && SamePayments(r, k)
    && r.group.cycleLength == NANOS * k.cycleLength && k.state == r.group.state
    && r.group.activatedAt.Some? && k.activatedAt == Seconds(r.group.activatedAt.value)
    && (forall c: nat :: c in k.settled <==> Settled(r, c))
    && k.ledger == r.events
  }

  // ----- activation -----

  /** The contract deployed with the members a group has when it is activated. */
  function Deployed(g: Group, cycleLength: nat): Storage {
    Storage(g.id, g.organizer, g.amount, cycleLength, g.members, Created, 0, [], map[], {}, [])
  }

  /** A contract deployed when the group is created knows the organizer only, so it
      rejects every order the service can activate the group with. */
  lemma DeployedTooEarly(r: Rota, g: Group, order: seq<Id>, length: nat)
    requires Reachable(r) && CanActivate(r, order)
    requires g.members == [g.organizer]
    ensures |if order == [] then r.group.members else order| != |Deployed(g, length).members|
  {
    ReachableInv(r);
  }

  /** Activating the contract deployed with the current members mirrors the activation. */
  lemma ActivationMirrors(r: Rota, order: seq<Id>, now: Time, length: nat)
    requires Reachable(r) && CanActivate(r, order)
    requires r.group.cycleLength == NANOS * length && 0 <= Seconds(now) < U64
    ensures var chosen := if order == [] then r.group.members else order;
            && |chosen| == |Deployed(r.group, length).members|
            && Activated(Deployed(r.group, length), chosen, Seconds(now)) ==
               Storage(r.group.id, r.group.organizer, r.group.amount, length, r.group.members, Active,
                       Seconds(now), chosen, map[], {}, [])
            && Mirrors(Activate(r, order, now), Activated(Deployed(r.group, length), chosen, Seconds(now)))
  {
    ReachableInv(r);
    var s := Activate(r, order, now);
    ScheduledContents(r.cycles, s.group, now, |s.group.payoutOrder|);
  }

  // ----- contribution -----

  /** While the contract mirrors the group, it accepts whatever contribution the service
      accepts. What it accepts beyond that is exactly a contribution to a cycle that is
      not in the schedule, which the service refuses and the contract does not check.
      Lagging.LaggingAcceptance is the statement for a contract that lags behind. */
  lemma ContractAcceptsMore(r: Rota, k: Storage, u: Id, c: nat)
    requires Reachable(r) && r.group.state != Created && Mirrors(r, k)
    ensures MayContribute(k, u, c) <==>
            || CanContribute(r, u, c)
            || (r.group.state == Active && u in r.group.members && !InSchedule(r, c) && !Paid(r, u, c))
  {
    hide RosterOk, BooksOk;
    ReachableInv(r);
    assert HasCycle(r, c) <==> InSchedule(r, c);
  }

  lemma ContributionMirrors(r: Rota, k: Storage, u: Id, c: nat, now: Time)
    requires Mirrors(r, k) && CanContribute(r, u, c)
    ensures Mirrors(Post(r, u, c, now), Revealed(k, u, c))
  {
  }

  // ----- settlement -----

  /** The service's guard (strictly after the deadline, in nanoseconds) implies the
      contract's (not before the deadline, in truncated seconds). */
  lemma GuardImpliesContractGuard(k: Storage, start: Time, length: Time, c: nat, now: Time)
    requires k.activatedAt == Seconds(start) && length == NANOS * k.cycleLength
    requires now > Deadline(start, length, c) && Seconds(now) < U64
    ensures Seconds(now) >= k.activatedAt + (c + 1) * k.cycleLength
    ensures c + 1 < U256 ==> CycleDeadline(k, c).Some? && Seconds(now) >= CycleDeadline(k, c).value
  {
    var span := (c + 1) * k.cycleLength;
    assert (c + 1) * length == NANOS * span by {
      assert (c + 1) * (NANOS * k.cycleLength) == NANOS * ((c + 1) * k.cycleLength);
    }
    assert now > NANOS * (k.activatedAt + span);
    assert span < U64;
  }

  /** The two guards compared exactly. With D the second in which cycle c falls due
      on-chain, the service holds it overdue after that second, and within it once the
      fraction of the second in which the group was activated has passed; the contract
      accepts from that second on. */
  lemma GuardsCompared(start: Time, length: nat, c: nat, now: Time)
    ensures var due := start / 1_000_000_000 + (c + 1) * length;
            now > start + (c + 1) * (1_000_000_000 * length) <==>
            || now / 1_000_000_000 > due
            || (now / 1_000_000_000 == due && now % 1_000_000_000 > start % 1_000_000_000)
  {
    var span := (c + 1) * length;
    assert (c + 1) * (1_000_000_000 * length) == 1_000_000_000 * span;
  }

  /** The same for a group and the contract that mirrors it: what the service's rows call
      overdue, in the contract's terms. */
  lemma OverdueOnChain(r: Rota, k: Storage, c: nat, now: Time)
    requires Reachable(r) && Mirrors(r, k) && CycleKey(r.group.id, c) in r.cycles
    ensures var due := k.activatedAt + (c + 1) * k.cycleLength;
            now > r.cycles[CycleKey(r.group.id, c)].deadline <==>
            || now / 1_000_000_000 > due
            || (now / 1_000_000_000 == due && now % 1_000_000_000 > r.group.activatedAt.value % 1_000_000_000)
  {
    hide RosterOk, BooksOk, Reachable;
    ReachableInv(r);
    ScheduledRow(r, c);
    RowsOfSchedule(r);
    GuardsCompared(r.group.activatedAt.value, k.cycleLength, c, now);
  }

  lemma ScheduledRow(r: Rota, c: int)
    requires Inv(r) && HasCycle(r, c)
    ensures r.group.state != Created && InSchedule(r, c)
  {
    hide RosterOk, BooksOk;
  }

  lemma {:induction false} RecordsAreMisses(r: Rota, k: Storage, c: nat, paid: set<Id>, n: nat)
    requires SamePayments(r, k) && n <= |k.members|
    requires forall u :: u in paid <==> Paid(r, u, c)
    ensures MissedRecords(k, c, n) == Misses(r.group, c, paid, n)
  {
    if n > 0 {
      RecordsAreMisses(r, k, c, paid, n - 1);
    }
  }

  lemma CollectedIsPot(r: Rota, k: Storage, c: nat)
    requires Inv(r) && r.group.state != Created && SamePayments(r, k)
    ensures MissedRecords(k, c, |k.members|) == DefaultEvents(r, c, true)
    ensures Collected(k, c, |k.members|) == Pot(r, c)
  {
    hide Inv;
    InvBasics(r);
    var paid := PaidUsers(r, c);
    PaidCount(r, c);
    RecordsAreMisses(r, k, c, paid, |k.members|);
    CollectedIsCensus(k, c, paid, |k.members|);
    Census(r.group.members, paid);
  }

  lemma OverdueSettlementAccepted(r: Rota, k: Storage, c: nat, now: Time)
    requires Inv(r) && Mirrors(r, k) && r.group.state == Active
    requires CanSettle(r, c) && Overdue(r, c, now) && Seconds(now) < U64 && |r.group.members| < U64
    ensures 0 <= Seconds(now) && c < |k.payoutOrder| && MaySettle(k, k.organizer, c, Seconds(now))
  {
    hide Inv;
    OverdueFacts(r, c);
    GuardImpliesContractGuard(k, r.group.activatedAt.value, r.group.cycleLength, c, now);
  }

  lemma SettlementMirrors(r: Rota, k: Storage, c: nat)
    requires Inv(r) && Mirrors(r, k) && r.group.state == Active && CanSettle(r, c) && c < |k.payoutOrder|
    ensures Mirrors(SettleOverdue(r, c), SettledStorage(k, c))
  {
    hide Inv, Gross, Misses, MissedRecords, Collected, PaidUsers, PaidKeys;
    OverdueFacts(r, c);
    InvBasics(r);
    CollectedIsPot(r, k, c);
    SettleShape(r, c, true);
    SettleFrame(r, c, true);
  }

  lemma OverdueFacts(r: Rota, c: nat)
    requires Inv(r) && r.group.state == Active && CanSettle(r, c)
    ensures c < |r.group.payoutOrder| == |r.group.members| && r.group.activatedAt.Some?
    ensures r.cycles[Slot(r, c)].payee == r.group.payoutOrder[c]
    ensures r.group.totalCycles == |r.group.payoutOrder|
    ensures r.cycles[Slot(r, c)].deadline == Deadline(r.group.activatedAt.value, r.group.cycleLength, c)
  {
    hide RosterOk, BooksOk;
    assert InSchedule(r, c);
    DeadlineOf(r, c);
  }

  // ----- a whole tick -----

  /** The organizer settling a list of cycles on-chain at one moment, all of them accepted. */
  ghost predicate Accepts(k: Storage, cycles: seq<nat>, timestamp: nat, after: Storage)
    decreases |cycles|
  {
    if cycles == [] then after == k else
      && MaySettle(k, k.organizer, cycles[0], timestamp)
      && Accepts(SettledStorage(k, cycles[0]), cycles[1..], timestamp, after)
  }

  /** A scheduler tick on an ACTIVE group is a run of on-chain settlements: the
      contract accepts each of them, one per cycle the tick settles, and ends in a
      state that mirrors the group, ledger included. */
  lemma {:induction false} TickMirrors(r: Rota, k: Storage, now: Time) returns (cycles: seq<nat>, after: Storage)
    requires Inv(r) && Mirrors(r, k) && 0 <= Seconds(now) < U64 && |r.group.members| < U64
    ensures Accepts(k, cycles, Seconds(now), after)
    ensures Mirrors(Drain(r, now).0, after)
    ensures |cycles| == Drain(r, now).1
    decreases |OpenCycles(r)|
  {
    hide Inv, Drain, SettleOverdue, Mirrors, MaySettle, SettledStorage;
    if c: int :| Due(r, c, now) {
      DrainUnfold(r, now, c);
      ScheduledIndex(r, c);
      OverdueKeepsInv(r, c);
      MirroredMembers(r, k);
      OverdueSettlementAccepted(r, k, c, now);
      SettlementMirrors(r, k, c);
      var rest, last := TickMirrors(SettleOverdue(r, c), SettledStorage(k, c), now);
      cycles, after := [c] + rest, last;
      assert cycles[1..] == rest;
    } else {
      DrainStops(r, now);
      cycles, after := [], k;
    }
  }

  lemma ScheduledIndex(r: Rota, c: int)
    requires Inv(r) && HasCycle(r, c)
    ensures c >= 0
  {
    hide RosterOk, BooksOk;
  }

  lemma MirroredMembers(r: Rota, k: Storage)
    requires Mirrors(r, k)
    ensures k.members == r.group.members
  {
  }

  /** An overdue cycle that the service settles is one the contract lets the
      organizer settle at the same moment, and the two settlements agree on the
      settled flag, the state and every ledger record. */
  lemma OverdueSettlementRefines(r: Rota, k: Storage, c: nat, now: Time)
    requires Reachable(r) && Mirrors(r, k) && r.group.state == Active
    requires CanSettle(r, c) && Overdue(r, c, now) && Seconds(now) < U64 && |r.group.members| < U64
    ensures 0 <= Seconds(now) && c < |k.payoutOrder| && MaySettle(k, k.organizer, c, Seconds(now))
    ensures Mirrors(SettleOverdue(r, c), SettledStorage(k, c))
  {
    hide Inv, Mirrors;
    ReachableInv(r);
    OverdueSettlementAccepted(r, k, c, now);
    SettlementMirrors(r, k, c);
  }

  /** The scheduler, seen from the chain. */
  lemma SchedulerRefinesContract(r: Rota, k: Storage, now: Time)
    requires Reachable(r) && Mirrors(r, k) && 0 <= Seconds(now) < U64 && |r.group.members| < U64
    ensures exists cycles, after ::
              && Accepts(k, cycles, Seconds(now), after)
              && Mirrors(Drain(r, now).0, after)
              && |cycles| == Drain(r, now).1
  {
    hide Inv, Mirrors, Accepts, Drain;
    ReachableInv(r);
    var cycles, after := TickMirrors(r, k, now);
  }
}
