/** The promise of a rotating-savings group: over a full rotation everybody pays
    in the same and everybody is paid the same. */
module Fairness {
  import opened Domain
  import opened Sums
  import opened Rotation
  import opened RotationProofs
  import opened RotationTheorems
  import opened DeadlineTheorems

  // ----- a member's totals, read off the event log -----

  /** How many payouts u has received. */
  function Payouts(r: Rota, u: Id): int {
    Sum(r.events, CountOf(PayoutReceived, u))
  }

  /** How much u has received. */
  function Received(r: Rota, u: Id): Money {
    Sum(r.events, AmountOf(PayoutReceived, u))
  }

  /** How much u has paid in. */
  function Contributed(r: Rota, u: Id): Money {
    Sum(r.events, AmountOf(ContributionMade, u))
  }

  /** The number of cycles whose payee is u. */
  function Turns(r: Rota, u: Id): int {
    Range(|r.group.payoutOrder|, Marks(r.group.payoutOrder, {u}))
  }

  /** Every cycle is settled and every member paid every one of them. */
  ghost predicate FullRotation(r: Rota) {
    && r.group.state != Created
    && forall c :: InSchedule(r, c) ==> Settled(r, c) && Full(r, c)
  }

  function TalliesOf(kind: EventKind, u: Id): int -> Event -> int {
    c => EventsOf(kind, u, c)
  }

  lemma TotalByCycle(r: Rota, kind: EventKind, u: Id)
    requires forall e :: e in r.events ==> InSchedule(r, e.cycle)
    ensures Sum(r.events, CountOf(kind, u)) == Range(|r.group.payoutOrder|, Column(TalliesOf(kind, u), r.events))
    ensures forall c :: Column(TalliesOf(kind, u), r.events)(c) == Tally(r, kind, u, c)
  {
    var n := |r.group.payoutOrder|;
    forall e | e in r.events ensures Range(n, Row(TalliesOf(kind, u), e)) == CountOf(kind, u)(e) {
      assert InSchedule(r, e.cycle);
      forall c ensures Row(TalliesOf(kind, u), e)(c) == EventsOf(kind, u, c)(e) {}
      RangeSingle(n, Row(TalliesOf(kind, u), e), e.cycle);
    }
    RangeOfSums(n, r.events, TalliesOf(kind, u), CountOf(kind, u));
  }

  lemma EventsScheduled(r: Rota)
    requires BooksOk(r)
    ensures forall e :: e in r.events ==> InSchedule(r, e.cycle)
  {
    forall e | e in r.events ensures InSchedule(r, e.cycle) {
      assert EventOk(r, e);
    }
  }

  /** A settled cycle has paid its scheduled payee once, and nobody else. */
  lemma PayoutTally(r: Rota, u: Id, c: int)
    requires BooksOk(r) && InSchedule(r, c) && Settled(r, c)
    ensures Tally(r, PayoutReceived, u, c) == if r.group.payoutOrder[c] == u then 1 else 0
  {
    var mine := if r.group.payoutOrder[c] == u then 1 else 0;
    forall e | e in r.events ensures EventsOf(PayoutReceived, u, c)(e) == mine * PayoutEventsOf(c)(e) {
      assert EventOk(r, e);
    }
    SumScale(r.events, EventsOf(PayoutReceived, u, c), PayoutEventsOf(c), mine);
    assert CycleOk(r, c);
  }

  /** Once every cycle is settled, a member has been paid once per turn in the order. */
  lemma PayoutsAreTurns(r: Rota, u: Id)
    requires BooksOk(r) && AllSettled(r)
    ensures Payouts(r, u) == Turns(r, u)
  {
    EventsScheduled(r);
    TotalByCycle(r, PayoutReceived, u);
    var n, column := |r.group.payoutOrder|, Column(TalliesOf(PayoutReceived, u), r.events);
    forall c | 0 <= c < n ensures column(c) == Marks(r.group.payoutOrder, {u})(c) {
      assert InSchedule(r, c);
      PayoutTally(r, u, c);
    }
    RangeAgree(n, column, Marks(r.group.payoutOrder, {u}));
  }

  lemma FullPot(r: Rota, c: int)
    requires BooksOk(r) && Distinct(r.group.members) && Full(r, c)
    ensures Pot(r, c) == Expected(r.group)
  {
    CountTestExact(r, c);
  }

  lemma ReceivedTotal(r: Rota, u: Id)
    requires BooksOk(r) && Distinct(r.group.members)
    requires forall c :: InSchedule(r, c) ==> Settled(r, c) && Full(r, c)
    ensures Received(r, u) == Expected(r.group) * Turns(r, u)
  {
    PayoutsAreTurns(r, u);
    forall e | e in r.events
      ensures AmountOf(PayoutReceived, u)(e) == Expected(r.group) * CountOf(PayoutReceived, u)(e)
    {
      assert EventOk(r, e);
      FullPot(r, e.cycle);
    }
    SumScale(r.events, AmountOf(PayoutReceived, u), CountOf(PayoutReceived, u), Expected(r.group));
  }

  lemma MadeOncePerCycle(r: Rota, u: Id)
    requires BooksOk(r)
    requires forall c :: InSchedule(r, c) ==> Paid(r, u, c)
    ensures Sum(r.events, CountOf(ContributionMade, u)) == |r.group.payoutOrder|
  {
    EventsScheduled(r);
    TotalByCycle(r, ContributionMade, u);
    var n, column := |r.group.payoutOrder|, Column(TalliesOf(ContributionMade, u), r.events);
    forall c | 0 <= c < n ensures column(c) == 1 {
      assert InSchedule(r, c);
      assert CycleOk(r, c);
    }
    RangeConstant(n, column, 1);
  }

  lemma ContributedTotal(r: Rota, u: Id)
    requires BooksOk(r) && u in r.group.members
    requires forall c :: InSchedule(r, c) ==> Full(r, c)
    ensures Contributed(r, u) == r.group.amount * |r.group.payoutOrder|
  {
    MadeOncePerCycle(r, u);
    forall e | e in r.events
      ensures AmountOf(ContributionMade, u)(e) == r.group.amount * CountOf(ContributionMade, u)(e)
    {
      assert EventOk(r, e);
    }
    SumScale(r.events, AmountOf(ContributionMade, u), CountOf(ContributionMade, u), r.group.amount);
  }

  /** Everybody has exactly one turn if and only if the order has no repeats. */
  lemma OneTurnEach(r: Rota)
    requires WellFormed(r.group)
    ensures (forall m :: m in r.group.members ==> Turns(r, m) == 1) <==> Distinct(r.group.payoutOrder)
  {
    var order, ms := r.group.payoutOrder, r.group.members;
    Pigeonhole(order, ms);
    if Distinct(order) {
      forall m | m in ms ensures Turns(r, m) == 1 {
        assert m in order;
        Census(order, {m});
      }
    } else {
      var m :| m in ms && m !in order;
      RangeConstant(|order|, Marks(order, {m}), 0);
      assert Turns(r, m) == 0;
    }
  }

  /** After a full rotation every member has paid in n times the contribution and
      has been paid n times the contribution for each of their turns. */
  lemma FullRotationTotals(r: Rota, m: Id)
    requires Reachable(r) && FullRotation(r) && m in r.group.members
    ensures Contributed(r, m) == r.group.amount * |r.group.members|
    ensures Payouts(r, m) == Turns(r, m)
    ensures Received(r, m) == r.group.amount * |r.group.members| * Turns(r, m)
  {
    hide RosterOk, BooksOk;
    ReachableInv(r);
    ContributedTotal(r, m);
    PayoutsAreTurns(r, m);
    ReceivedTotal(r, m);
  }

  /** A full rotation is fair exactly when the payout order has no repeats: every
      member receives one payout, and gets back precisely what they put in. */
  lemma FullRotationIsFair(r: Rota)
    requires Reachable(r) && FullRotation(r)
    ensures (forall m :: m in r.group.members ==> Payouts(r, m) == 1) <==> Distinct(r.group.payoutOrder)
    ensures (forall m :: m in r.group.members ==> Received(r, m) == Contributed(r, m)) <==>
            Distinct(r.group.payoutOrder)
  {
    hide RosterOk, BooksOk, Payouts, Received, Contributed, Turns;
    ReachableInv(r);
    var pool := r.group.amount * |r.group.members|;
    assert pool > 0;
    forall m | m in r.group.members
      ensures Payouts(r, m) == Turns(r, m)
      ensures Received(r, m) == Contributed(r, m) <==> Turns(r, m) == 1
    {
      FullRotationTotals(r, m);
      assert pool * Turns(r, m) - pool == pool * (Turns(r, m) - 1);
    }
    OneTurnEach(r);
  }

  /** A group activated without an explicit order pays in join order, and keeps a
      repeat-free order for the rest of its life. */
  lemma {:induction false} DefaultOrderIsFair(r: Rota, now: Time, steps: seq<Step>)
    requires Reachable(r) && CanActivate(r, [])
    ensures var g := Run(Apply(r, ActivateStep([], now)), steps).group;
            g.payoutOrder == r.group.members && Distinct(g.payoutOrder) && g.state != Created
  {
    var active := Apply(r, ActivateStep([], now));
    ReachableStep(r, ActivateStep([], now));
    if steps != [] {
      DefaultOrderIsFair(r, now, steps[..|steps| - 1]);
      ReachableRun(active, steps[..|steps| - 1]);
      LifecycleIsOneWay(Run(active, steps[..|steps| - 1]), steps[|steps| - 1]);
    }
  }

  // ----- an unfair rotation -----

  /** A two-member group about to collect cycle c. */
  ghost predicate PairReady(r: Rota, a: Id, b: Id, c: int) {
    && r.group.state == Active && r.group.members == [a, b] && a != b && r.group.totalCycles == 2
    && CanSettle(r, c) && !Paid(r, a, c) && !Paid(r, b, c)
  }

  /** Cycles other than c are scheduled, settled and paid in s as they are in r. */
  ghost predicate SameCycles(r: Rota, s: Rota, c: int) {
    && (forall d :: HasCycle(s, d) <==> HasCycle(r, d))
    && (forall d :: d != c ==> (Settled(s, d) <==> Settled(r, d)))
    && (forall v, d :: d != c ==> (Paid(s, v, d) <==> Paid(r, v, d)))
  }

  /** Both members pay a cycle: the second payment settles it, and the other cycle is
      as it was. */
  lemma PairPays(r: Rota, a: Id, b: Id, c: int, now: Time)
    requires PairReady(r, a, b, c)
    ensures var s := Apply(Apply(r, ContributeStep(a, c, now)), ContributeStep(b, c, now));
            && s.group == Advance(r.group, c)
            && Settled(s, c) && Full(s, c)
            && SameCycles(r, s, c)
  {
    hide Settle;
    var half := Post(r, a, c, now);
    assert b in half.group.members && !Paid(half, b, c);
    assert Apply(r, ContributeStep(a, c, now)) == half;
    var full := Post(half, b, c, now);
    assert Full(full, c);
    SettleFrame(full, c, false);
    SettleGroup(full, c);
    var s := Settle(full, c);
    assert Apply(half, ContributeStep(b, c, now)) == s;
    forall d ensures (HasCycle(full, d) <==> HasCycle(r, d)) && (Settled(full, d) <==> Settled(r, d)) {}
    forall v, d | d != c ensures Paid(full, v, d) <==> Paid(r, v, d) {}
  }

  lemma SettleGroup(r: Rota, c: int)
    requires CanSettle(r, c)
    ensures Settle(r, c).group == Advance(r.group, c)
    ensures forall d :: HasCycle(Settle(r, c), d) <==> HasCycle(r, d)
  {
  }

  /** The group of the example below, once it is active: ann is its payee twice. */
  lemma TwiceAnn(g: Group, u: Id, now: Time) returns (r: Rota)
    requires g == NewGroup("g", "name", "ann", 100, 10, 2, 0) && u != "ann"
    ensures r == Run(NewRota(g), [JoinStep(u), ActivateStep(["ann", "ann"], now)])
    ensures PairReady(r, "ann", u, 0) && PairReady(r, "ann", u, 1) && r.group.amount == 100
    ensures r.group.payoutOrder == ["ann", "ann"]
  {
    var start := NewRota(g);
    RunSnoc(start, [], JoinStep(u));
    assert [] + [JoinStep(u)] == [JoinStep(u)];
    var joined := Join(start, u);
    RunSnoc(start, [JoinStep(u)], ActivateStep(["ann", "ann"], now));
    assert [JoinStep(u)] + [ActivateStep(["ann", "ann"], now)] == [JoinStep(u), ActivateStep(["ann", "ann"], now)];
    assert joined.group.members == ["ann", u];
    assert WellFormed(Planned(joined.group, ["ann", "ann"]));
    r := Activate(joined, ["ann", "ann"], now);
    ScheduledContents(joined.cycles, r.group, now, 2);
  }

  /** The whole run: both members pay both cycles of a validated order that names one
      of them twice. */
  lemma UnfairRun(g: Group, u: Id, now: Time) returns (r: Rota)
    requires g == NewGroup("g", "name", "ann", 100, 10, 2, 0) && u != "ann"
    ensures r == Run(NewRota(g),
                     [JoinStep(u), ActivateStep(["ann", "ann"], now),
                      ContributeStep("ann", 0, now), ContributeStep(u, 0, now),
                      ContributeStep("ann", 1, now), ContributeStep(u, 1, now)])
    ensures FullRotation(r) && r.group.members == ["ann", u] && r.group.amount == 100
    ensures r.group.payoutOrder == ["ann", "ann"]
  {
    hide Apply, Run, Settle;
    var start := NewRota(g);
    var s0, s1 := [JoinStep(u), ActivateStep(["ann", "ann"], now)], ContributeStep("ann", 0, now);
    var s2, s3, s4 := ContributeStep(u, 0, now), ContributeStep("ann", 1, now), ContributeStep(u, 1, now);
    var active := TwiceAnn(g, u, now);
    RunSnoc(start, s0, s1);
    RunSnoc(start, s0 + [s1], s2);
    RunSnoc(start, s0 + [s1] + [s2], s3);
    RunSnoc(start, s0 + [s1] + [s2] + [s3], s4);
    PairPays(active, "ann", u, 0, now);
    var once := Apply(Apply(active, s1), s2);
    PairPays(once, "ann", u, 1, now);
    r := Apply(Apply(once, s3), s4);
    assert s0 + [s1] + [s2] + [s3] + [s4] ==
           [JoinStep(u), ActivateStep(["ann", "ann"], now), s1, s2, s3, s4];
  }

  /** A rotation everybody pays in full can be unfair: the order names ann twice, so
      she is paid both pots and the other member, who paid as much, nothing. */
  lemma UnfairRotation(g: Group, u: Id, now: Time)
    requires g == NewGroup("g", "name", "ann", 100, 10, 2, 0) && u != "ann"
    ensures var r := Run(NewRota(g),
                         [JoinStep(u), ActivateStep(["ann", "ann"], now),
                          ContributeStep("ann", 0, now), ContributeStep(u, 0, now),
                          ContributeStep("ann", 1, now), ContributeStep(u, 1, now)]);
            && Reachable(r) && FullRotation(r)
            && Contributed(r, u) == 200 && Received(r, u) == 0
            && Contributed(r, "ann") == 200 && Received(r, "ann") == 400
  {
    hide Run, FullRotation, Received, Contributed, Payouts;
    var r := UnfairRun(g, u, now);
    ReachableNew(g);
    ReachableRun(NewRota(g), [JoinStep(u), ActivateStep(["ann", "ann"], now),
                              ContributeStep("ann", 0, now), ContributeStep(u, 0, now),
                              ContributeStep("ann", 1, now), ContributeStep(u, 1, now)]);
    FullRotationTotals(r, u);
    FullRotationTotals(r, "ann");
    RangeConstant(2, Marks(r.group.payoutOrder, {u}), 0);
    RangeConstant(2, Marks(r.group.payoutOrder, {"ann"}), 1);
  }
}
