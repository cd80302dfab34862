/** What a savings group guarantees: money conservation, frozen history, complete
    deadline enforcement, exact obligation records and fair rotation. */
module RotationTheorems {
  import opened Domain
  import opened Sums
  import opened Rotation
  import opened RotationProofs

  ghost predicate Reachable(r: Rota) {
    exists g: Group, steps ::
      && ValidConfig(g.name, g.amount, g.cycleLength, g.maxMembers)
      && g == NewGroup(g.id, g.name, g.organizer, g.amount, g.cycleLength, g.maxMembers, g.createdAt)
      && r == Run(NewRota(g), steps)
  }

  /** The invariant holds at every point of every run of a group from its creation. */
  lemma ReachableInv(r: Rota)
    requires Reachable(r)
    ensures Inv(r)
  {
    var g: Group, steps :|
      && ValidConfig(g.name, g.amount, g.cycleLength, g.maxMembers)
      && g == NewGroup(g.id, g.name, g.organizer, g.amount, g.cycleLength, g.maxMembers, g.createdAt)
      && r == Run(NewRota(g), steps);
    NewRotaInv(g);
    RunKeepsInv(NewRota(g), steps);
  }

  lemma ReachableNew(g: Group)
    requires ValidConfig(g.name, g.amount, g.cycleLength, g.maxMembers)
    requires g == NewGroup(g.id, g.name, g.organizer, g.amount, g.cycleLength, g.maxMembers, g.createdAt)
    ensures Reachable(NewRota(g))
  {
    assert NewRota(g) == Run(NewRota(g), []);
  }

  lemma ReachableStep(r: Rota, s: Step)
    requires Reachable(r)
    ensures Reachable(Apply(r, s))
  {
    var g: Group, steps :|
      && ValidConfig(g.name, g.amount, g.cycleLength, g.maxMembers)
      && g == NewGroup(g.id, g.name, g.organizer, g.amount, g.cycleLength, g.maxMembers, g.createdAt)
      && r == Run(NewRota(g), steps);
    var longer := steps + [s];
    assert longer[..|steps|] == steps;
    assert Apply(r, s) == Run(NewRota(g), longer);
  }

  lemma {:induction false} ReachableRun(r: Rota, steps: seq<Step>)
    requires Reachable(r)
    ensures Reachable(Run(r, steps))
  {
    if steps != [] {
      ReachableRun(r, steps[..|steps| - 1]);
      ReachableStep(Run(r, steps[..|steps| - 1]), steps[|steps| - 1]);
    }
  }

  // ----- escrow conservation -----

  function GrossPaid(): Payout -> int {
    (p: Payout) => p.gross
  }

  function GrossPaidIn(c: int): Payout -> int {
    (p: Payout) => if p.cycle == c then p.gross else 0
  }

  function Balance(r: Rota): Money {
    Sum(r.escrow, Credited()) - Sum(r.escrow, Debited())
  }

  /** What cycle c still holds: its contributions until it is settled. */
  ghost function Held(r: Rota): int -> int {
    c => if Settled(r, c) then 0 else Gross(r, c)
  }

  /** The pots that have been paid out. */
  function PaidOut(r: Rota): int -> int {
    c => if Settled(r, c) then Pot(r, c) else 0
  }

  lemma EscrowByCycle(r: Rota)
    requires BooksOk(r)
    ensures Sum(r.escrow, Credited()) == Range(|r.group.payoutOrder|, Column(CreditsTo, r.escrow))
    ensures Sum(r.escrow, Debited()) == Range(|r.group.payoutOrder|, Column(DebitsFrom, r.escrow))
  {
    var n := |r.group.payoutOrder|;
    forall e | e in r.escrow
      ensures Range(n, Row(CreditsTo, e)) == Credited()(e)
      ensures Range(n, Row(DebitsFrom, e)) == Debited()(e)
    {
      assert EntryOk(r, e);
      forall i ensures Row(CreditsTo, e)(i) == CreditsTo(i)(e) && Row(DebitsFrom, e)(i) == DebitsFrom(i)(e) {}
      RangeSingle(n, Row(CreditsTo, e), e.cycle);
      RangeSingle(n, Row(DebitsFrom, e), e.cycle);
    }
    RangeOfSums(n, r.escrow, CreditsTo, Credited());
    RangeOfSums(n, r.escrow, DebitsFrom, Debited());
  }

  lemma PayoutsOfCycle(r: Rota, c: int)
    requires BooksOk(r) && InSchedule(r, c)
    ensures Sum(r.payouts, GrossPaidIn(c)) == PaidOut(r)(c)
  {
    assert CycleOk(r, c);
    forall p | p in r.payouts ensures GrossPaidIn(c)(p) == Pot(r, c) * PayoutsOf(c)(p) {
      assert PayoutOk(r, p);
    }
    SumScale(r.payouts, GrossPaidIn(c), PayoutsOf(c), Pot(r, c));
  }

  lemma PayoutsByCycle(r: Rota)
    requires BooksOk(r)
    ensures Sum(r.payouts, GrossPaid()) == Range(|r.group.payoutOrder|, PaidOut(r))
  {
    var n := |r.group.payoutOrder|;
    forall p | p in r.payouts ensures Range(n, Row(GrossPaidIn, p)) == GrossPaid()(p) {
      assert PayoutOk(r, p);
      forall i ensures Row(GrossPaidIn, p)(i) == GrossPaidIn(i)(p) {}
      RangeSingle(n, Row(GrossPaidIn, p), p.cycle);
    }
    RangeOfSums(n, r.payouts, GrossPaidIn, GrossPaid());
    forall c | 0 <= c < n ensures Column(GrossPaidIn, r.payouts)(c) == PaidOut(r)(c) {
      PayoutsOfCycle(r, c);
    }
    RangeAgree(n, Column(GrossPaidIn, r.payouts), PaidOut(r));
  }

  lemma CycleColumns(r: Rota, c: int)
    requires BooksOk(r) && InSchedule(r, c) && r.group.amount > 0
    ensures Column(CreditsTo, r.escrow)(c) == PaidOut(r)(c) + Held(r)(c)
    ensures Column(DebitsFrom, r.escrow)(c) == PaidOut(r)(c)
    ensures Held(r)(c) >= 0
  {
    assert CycleOk(r, c);
    GrossIsPot(r, c);
  }

  /** The escrow holds exactly the contributions to unsettled cycles, and all
      money ever credited has either been paid out or is still held. */
  lemma EscrowConserved(r: Rota)
    requires Reachable(r)
    ensures Balance(r) == Range(|r.group.payoutOrder|, Held(r))
    ensures Balance(r) >= 0
    ensures Sum(r.escrow, Credited()) == Sum(r.payouts, GrossPaid()) + Balance(r)
  {
    hide RosterOk, ScheduleOk, BooksOk;
    ReachableInv(r);
    InvBasics(r);
    if r.group.state != Created {
      var n := |r.group.payoutOrder|;
      EscrowByCycle(r);
      PayoutsByCycle(r);
      forall c | 0 <= c < n
        ensures Column(CreditsTo, r.escrow)(c) == PaidOut(r)(c) + Held(r)(c)
        ensures Column(DebitsFrom, r.escrow)(c) == PaidOut(r)(c)
        ensures Held(r)(c) >= 0
      {
        assert InSchedule(r, c);
        CycleColumns(r, c);
      }
      RangeAgree(n, Column(DebitsFrom, r.escrow), PaidOut(r));
      RangeAdd(n, Column(CreditsTo, r.escrow), PaidOut(r), Held(r));
      RangeNonNegative(n, Held(r));
    }
  }

  // ----- obligations -----

  /** Nobody is ever both credited with a cycle and charged with missing it, nor either one twice. */
  lemma AtMostOneObligationEvent(r: Rota, u: Id, c: int)
    requires Reachable(r) && InSchedule(r, c)
    ensures Tally(r, ContributionMade, u, c) + Tally(r, ContributionMissed, u, c) <= 1
  {
    ReachableInv(r);
    assert CycleOk(r, c);
  }

  /** A cycle that everybody paid, or whose defaults were recorded, has exactly
      one obligation event per member. */
  lemma ExactlyOneObligationEvent(r: Rota, u: Id, c: int)
    requires Reachable(r) && InSchedule(r, c) && u in r.group.members
    requires Full(r, c) || DefaultsRecorded(r, c)
    ensures Tally(r, ContributionMade, u, c) + Tally(r, ContributionMissed, u, c) == 1
  {
    ReachableInv(r);
    assert CycleOk(r, c);
  }

  /** Settling an overdue cycle records the defaults of everyone who did not pay. */
  lemma OverdueSettlementRecordsDefaults(r: Rota, c: int)
    requires Inv(r) && CanSettle(r, c)
    ensures DefaultsRecorded(SettleOverdue(r, c), c)
  {
    var s := SettleOverdue(r, c);
    assert InSchedule(r, c) && CycleOk(r, c);
    SettleFrame(r, c, true);
    forall u ensures Tally(s, ContributionMissed, u, c) == if u in s.group.members && !Paid(s, u, c) then 1 else 0 {
      SettleTally(r, c, true, ContributionMissed, u, c);
    }
  }

  function MissedIn(c: int): Event -> int {
    (e: Event) => if e.kind == ContributionMissed && e.cycle == c then 1 else 0
  }

  function MissedAmountIn(c: int): Event -> int {
    (e: Event) => if e.kind == ContributionMissed && e.cycle == c then e.amount else 0
  }

  /** How many members of the group did not pay cycle c. */
  function Unpaid(r: Rota, c: int): int {
    |r.group.members| - |PaidKeys(r, c)|
  }

  /** The Missed events of cycle c, by the seat of the member they name. */
  function SeatMissed(members: seq<Id>, c: int): int -> Event -> int {
    i => MissedAt(members, c, i)
  }

  function MissedAt(members: seq<Id>, c: int, i: int): Event -> int {
    if 0 <= i < |members| then EventsOf(ContributionMissed, members[i], c) else MissedIn(c)
  }

  lemma MissedBySeat(r: Rota, c: int)
    requires forall e :: e in r.events ==> EventOk(r, e)
    requires Distinct(r.group.members)
    ensures Sum(r.events, MissedIn(c)) == Range(|r.group.members|, Column(SeatMissed(r.group.members, c), r.events))
  {
    var ms := r.group.members;
    forall e | e in r.events ensures Range(|ms|, Row(SeatMissed(ms, c), e)) == MissedIn(c)(e) {
      assert EventOk(r, e);
      if e.kind == ContributionMissed && e.cycle == c {
        var at :| 0 <= at < |ms| && ms[at] == e.user;
        RangeSingle(|ms|, Row(SeatMissed(ms, c), e), at);
      } else {
        RangeConstant(|ms|, Row(SeatMissed(ms, c), e), 0);
      }
    }
    RangeOfSums(|ms|, r.events, SeatMissed(ms, c), MissedIn(c));
  }

  function One(): int -> int {
    i => 1
  }

  lemma MissedCount(r: Rota, c: int)
    requires BooksOk(r) && Distinct(r.group.members)
    ensures NoneMissed(r, c) ==> Sum(r.events, MissedIn(c)) == 0
    ensures DefaultsRecorded(r, c) ==> Sum(r.events, MissedIn(c)) == Unpaid(r, c)
  {
    var ms, paid := r.group.members, PaidUsers(r, c);
    var column := Column(SeatMissed(ms, c), r.events);
    MissedBySeat(r, c);
    if NoneMissed(r, c) {
      forall i | 0 <= i < |ms| ensures column(i) == 0 {
        assert Tally(r, ContributionMissed, ms[i], c) == 0;
      }
      RangeConstant(|ms|, column, 0);
    }
    if DefaultsRecorded(r, c) {
      PaidCount(r, c);
      forall i | 0 <= i < |ms| ensures One()(i) == column(i) + Marks(ms, paid)(i) {
        assert Tally(r, ContributionMissed, ms[i], c) == if Paid(r, ms[i], c) then 0 else 1;
      }
      RangeAdd(|ms|, One(), column, Marks(ms, paid));
      RangeConstant(|ms|, One(), 1);
      Census(ms, paid);
    }
  }

  lemma MissedTotal(r: Rota, c: int)
    requires BooksOk(r) && Distinct(r.group.members)
    ensures NoneMissed(r, c) ==> Sum(r.events, MissedAmountIn(c)) == 0
    ensures DefaultsRecorded(r, c) ==> Sum(r.events, MissedAmountIn(c)) == r.group.amount * Unpaid(r, c)
  {
    forall e | e in r.events ensures MissedAmountIn(c)(e) == r.group.amount * MissedIn(c)(e) {
      assert EventOk(r, e);
    }
    SumScale(r.events, MissedAmountIn(c), MissedIn(c), r.group.amount);
    MissedCount(r, c);
  }

  lemma UnrecordedDefault(r: Rota, c: int)
    requires NoneMissed(r, c) && !DefaultsRecorded(r, c)
    ensures !Full(r, c)
  {
    var u :| Tally(r, ContributionMissed, u, c) != if u in r.group.members && !Paid(r, u, c) then 1 else 0;
    assert Tally(r, ContributionMissed, u, c) == 0;
  }

  lemma ShortfallSize(r: Rota, c: int)
    requires forall k :: k in r.contributions ==> ContributionOk(r, k)
    requires Distinct(r.group.members) && r.group.amount > 0
    ensures Expected(r.group) - Pot(r, c) == r.group.amount * Unpaid(r, c) >= 0
    ensures !Full(r, c) ==> r.group.amount * Unpaid(r, c) > 0
  {
    var a := r.group.amount;
    CountTestExact(r, c);
    assert a * |r.group.members| - a * |PaidKeys(r, c)| == a * Unpaid(r, c);
  }

  lemma ShortfallMissed(r: Rota, c: int)
    requires BooksOk(r) && Distinct(r.group.members) && r.group.amount > 0 && InSchedule(r, c)
    ensures Expected(r.group) - Pot(r, c) == Sum(r.events, MissedAmountIn(c)) <==> DefaultsRecorded(r, c)
  {
    ShortfallSize(r, c);
    MissedTotal(r, c);
    if !DefaultsRecorded(r, c) {
      assert NoneMissed(r, c) by { assert CycleOk(r, c); }
      UnrecordedDefault(r, c);
    }
  }

  /** A payout and its shortfall make up the whole expected pot; and the
      shortfall is accounted for, amount by amount, by Missed events exactly when
      the defaults of the cycle were recorded (a deadline settlement, or nobody
      missing). An early organizer settlement with someone missing is the other case. */
  lemma ShortfallAccounted(r: Rota, p: Payout)
    requires Reachable(r) && p in r.payouts
    ensures p.gross == Gross(r, p.cycle)
    ensures p.gross + p.shortfall == r.group.amount * |r.group.members|
    ensures p.shortfall == r.group.amount * Unpaid(r, p.cycle) >= 0
    ensures p.shortfall == Sum(r.events, MissedAmountIn(p.cycle)) <==> DefaultsRecorded(r, p.cycle)
  {
    ReachableInv(r);
    assert PayoutOk(r, p);
    GrossIsPot(r, p.cycle);
    ShortfallSize(r, p.cycle);
    ShortfallMissed(r, p.cycle);
  }

  // ----- frozen history -----

  function EventInCycle(c: int): Event -> bool {
    (e: Event) => e.cycle == c
  }

  function EntryInCycle(c: int): EscrowEntry -> bool {
    (e: EscrowEntry) => e.cycle == c
  }

  function PayoutInCycle(c: int): Payout -> bool {
    (p: Payout) => p.cycle == c
  }

  /** Everything on record about cycle c is the same in r and s. */
  ghost predicate SameRecord(r: Rota, s: Rota, c: int) {
    && (HasCycle(r, c) ==> HasCycle(s, c) && s.cycles[Slot(s, c)] == r.cycles[Slot(r, c)])
    && (forall u :: Paid(r, u, c) <==> Paid(s, u, c))
    && (forall k :: k in PaidKeys(r, c) <==> k in PaidKeys(s, c))
    && (forall k :: k in PaidKeys(r, c) ==> k in PaidKeys(s, c) && s.contributions[k] == r.contributions[k])
    && Pot(s, c) == Pot(r, c)
    && Filter(s.events, EventInCycle(c)) == Filter(r.events, EventInCycle(c))
    && Filter(s.escrow, EntryInCycle(c)) == Filter(r.escrow, EntryInCycle(c))
    && Filter(s.payouts, PayoutInCycle(c)) == Filter(r.payouts, PayoutInCycle(c))
  }

  /** The logs of a group only ever grow at the end. */
  ghost predicate Extends(s: Rota, r: Rota) {
    r.events <= s.events && r.escrow <= s.escrow && r.payouts <= s.payouts
  }

  lemma PostLeavesOthers(r: Rota, u: Id, c: int, now: Time, d: int)
    requires !Paid(r, u, c) && d != c
    ensures SameRecord(r, Post(r, u, c, now), d) && Extends(Post(r, u, c, now), r)
  {
    PostPaid(r, u, c, now);
    FilterSnoc(r.events, Event(ContributionMade, u, r.group.id, c, r.group.amount), EventInCycle(d));
    FilterSnoc(r.escrow, EscrowEntry(r.group.id, c, u, Credit, r.group.amount), EntryInCycle(d));
  }

  lemma SettleLeavesEvents(r: Rota, c: int, defaults: bool, last: Event, d: int)
    requires d != c && last.cycle == c
    ensures Filter(r.events + DefaultEvents(r, c, defaults) + [last], EventInCycle(d)) ==
            Filter(r.events, EventInCycle(d))
  {
    var extra := DefaultEvents(r, c, defaults);
    MissesContents(r.group, c, PaidUsers(r, c), |r.group.members|);
    FilterNone(extra, EventInCycle(d));
    FilterConcat(r.events, extra, EventInCycle(d));
    FilterSnoc(r.events + extra, last, EventInCycle(d));
  }

  lemma SettleLeavesOthers(r: Rota, c: int, defaults: bool, d: int)
    requires Inv(r) && CanSettle(r, c) && d != c
    ensures SameRecord(r, SettleWith(r, c, defaults), d) && Extends(SettleWith(r, c, defaults), r)
  {
    hide Inv, RosterOk, ScheduleOk, BooksOk, Filter, Gross, DefaultEvents, Amounts;
    InvBasics(r);
    SettleShape(r, c, defaults);
    SettleFrame(r, c, defaults);
    var payee, pot := r.cycles[Slot(r, c)].payee, Pot(r, c);
    SettleLeavesEvents(r, c, defaults, Event(PayoutReceived, payee, r.group.id, c, pot), d);
    FilterSnoc(r.escrow, EscrowEntry(r.group.id, c, payee, Debit, pot), EntryInCycle(d));
    FilterSnoc(r.payouts,
               Payout(r.group.id, c, payee, pot, Expected(r.group), Expected(r.group) - pot), PayoutInCycle(d));
  }

  /** What settling cycle d means for the flag and the record of cycle c. */
  lemma OverdueFrame(r: Rota, d: int, c: int)
    requires CanSettle(r, d)
    ensures var s := SettleOverdue(r, d);
            && (d == c || Settled(r, c) ==> Settled(s, c))
            && (d != c && CanSettle(r, c) ==> CanSettle(s, c) && s.cycles[Slot(s, c)] == r.cycles[Slot(r, c)])
  {
  }

  lemma {:induction false} DrainLeavesSettled(r: Rota, now: Time, d: int)
    requires Inv(r) && Settled(r, d)
    ensures SameRecord(r, Drain(r, now).0, d) && Extends(Drain(r, now).0, r)
    decreases |OpenCycles(r)|
  {
    hide Inv, SameRecord;
    SameRecordRefl(r, d);
    if exists c :: Due(r, c, now) {
      var c :| Due(r, c, now) && Drain(r, now).0 == Drain(SettleOverdue(r, c), now).0;
      SettleKeepsInv(r, c, true);
      SettleShrinksOpen(RecordDefaults(r, c), c);
      SettleLeavesOthers(r, c, true, d);
      OverdueFrame(r, c, d);
      DrainLeavesSettled(SettleOverdue(r, c), now, d);
      SameRecordChain(r, SettleOverdue(r, c), Drain(r, now).0, d);
    }
  }

  /** Once a cycle is settled, no later call can touch its record: not its
      contributions, its events, its ledger lines, its payout or its flag. */
  lemma SettledCycleIsFrozen(r: Rota, s: Step, c: int)
    requires Reachable(r) && Settled(r, c)
    ensures SameRecord(r, Apply(r, s), c) && Extends(Apply(r, s), r)
  {
    hide Inv, Drain, SettleWith, SameRecord;
    ReachableInv(r);
    SettledMeansStarted(r, c);
    if Allowed(r, s) {
      match s {
        case ContributeStep(u, d, now) =>
          PostLeavesOthers(r, u, d, now, c);
          PostKeepsInv(r, u, d, now);
          if Full(Post(r, u, d, now), d) {
            HandSettleLeavesOthers(Post(r, u, d, now), d, c);
            SameRecordChain(r, Post(r, u, d, now), Settle(Post(r, u, d, now), d), c);
          }
        case SettleStep(d) => HandSettleLeavesOthers(r, d, c);
        case DeadlineStep(now) => DrainLeavesSettled(r, now, c);
        case JoinStep(_) =>
        case DropStep(_, _) =>
        case ActivateStep(_, _) =>
      }
    } else {
      SameRecordRefl(r, c);
    }
  }

  lemma SettledMeansStarted(r: Rota, c: int)
    requires Inv(r) && Settled(r, c)
    ensures r.group.state in {Active, Closed}
  {
    hide RosterOk, BooksOk;
  }

  lemma HandSettleLeavesOthers(r: Rota, c: int, d: int)
    requires Inv(r) && CanSettle(r, c) && d != c
    ensures SameRecord(r, Settle(r, c), d) && Extends(Settle(r, c), r)
  {
    hide RosterOk, SameRecord, Settle;
    SettleLeavesOthers(r, c, false, d);
  }

  lemma SameRecordRefl(r: Rota, c: int)
    ensures SameRecord(r, r, c)
  {
  }

  lemma SameRecordChain(r: Rota, s: Rota, t: Rota, c: int)
    requires SameRecord(r, s, c) && SameRecord(s, t, c)
    ensures SameRecord(r, t, c)
  {
  }

  lemma {:induction false} SettledCycleIsFrozenForever(r: Rota, steps: seq<Step>, c: int)
    requires Reachable(r) && Settled(r, c)
    ensures SameRecord(r, Run(r, steps), c) && Extends(Run(r, steps), r) && Settled(Run(r, steps), c)
  {
    if steps != [] {
      var before := Run(r, steps[..|steps| - 1]);
      SettledCycleIsFrozenForever(r, steps[..|steps| - 1], c);
      ReachableRun(r, steps[..|steps| - 1]);
      SettledCycleIsFrozen(before, steps[|steps| - 1], c);
      assert r.events <= before.events <= Run(r, steps).events;
      assert r.escrow <= before.escrow <= Run(r, steps).escrow;
      assert r.payouts <= before.payouts <= Run(r, steps).payouts;
    }
  }
}
