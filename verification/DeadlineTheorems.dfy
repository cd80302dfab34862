/** Deadline enforcement and the lifecycle it drives. */
module DeadlineTheorems {
  import opened Domain
  import opened Sums
  import opened Rotation
  import opened RotationProofs
  import opened RotationTheorems

  ghost predicate AllSettled(r: Rota) {
    forall c :: InSchedule(r, c) ==> Settled(r, c)
  }

  predicate Overdue(r: Rota, c: int, now: Time) {
    HasCycle(r, c) && r.cycles[Slot(r, c)].IsOverdue(now)
  }

  // ----- the current cycle -----

  /** If any cycle up to c is open, some cycle up to c is current. */
  lemma CurrentExists(r: Rota, c: int) returns (d: int)
    requires CanSettle(r, c)
    requires forall k :: k in r.cycles ==> k.group == r.group.id
    ensures d <= c && IsCurrent(r, d)
  {
    var rank := (k: CycleKey) => k.index;
    LeastExists(OpenCycles(r), rank);
    var k :| k in OpenCycles(r) && forall j :: j in OpenCycles(r) ==> rank(k) <= rank(j);
    d := k.index;
    assert k == Slot(r, d);
    assert Slot(r, c) in OpenCycles(r);
    assert rank(k) == d && rank(Slot(r, c)) == c;
    forall e | e < d && HasCycle(r, e) ensures Settled(r, e) {
      assert Slot(r, e) in OpenCycles(r) ==> rank(Slot(r, e)) == e;
    }
  }

  lemma DeadlineOf(r: Rota, c: int)
    requires ScheduleOk(r) && InSchedule(r, c)
    ensures HasCycle(r, c)
    ensures r.cycles[Slot(r, c)].deadline == Deadline(r.group.activatedAt.value, r.group.cycleLength, c)
  {
    assert Slot(r, c) in r.cycles;
    assert r.cycles[Slot(r, c)] ==
           ScheduledCycle(r.group, r.group.activatedAt.value, c).(settled := Settled(r, c));
  }

  /** If the group is ACTIVE and any open cycle is overdue, the current one is due. */
  lemma OverdueMeansDue(r: Rota, c: int, now: Time)
    requires ScheduleOk(r) && r.group.state == Active && CanSettle(r, c) && Overdue(r, c, now)
    ensures exists d :: Due(r, d, now)
  {
    assert InSchedule(r, c);
    var d := CurrentExists(r, c);
    assert InSchedule(r, d);
    DeadlineOf(r, c);
    DeadlineOf(r, d);
    if d < c {
      DeadlinesIncrease(r.group.activatedAt.value, r.group.cycleLength, d, c);
    }
    assert Due(r, d, now);
  }

  // ----- one tick -----

  lemma DueUnique(r: Rota, now: Time, c: int, d: int)
    requires Due(r, c, now) && Due(r, d, now)
    ensures c == d
  {
    assert CanSettle(r, c) && CanSettle(r, d);
    assert d < c ==> Settled(r, d);
    assert c < d ==> Settled(r, c);
  }

  /** A tick that has a cycle due settles it, which cycle it is being no choice. */
  lemma DrainUnfold(r: Rota, now: Time, c: int)
    requires Due(r, c, now)
    ensures var s := SettleOverdue(r, c);
            && CanSettle(r, c) && r.group.state == Active && Overdue(r, c, now)
            && Drain(r, now) == (Drain(s, now).0, Drain(s, now).1 + 1)
            && Slot(r, c) in OpenCycles(r)
            && OpenCycles(s) == OpenCycles(r) - {Slot(r, c)}
            && |OpenCycles(s)| == |OpenCycles(r)| - 1
            && s.group == r.group.(state := s.group.state)
  {
    var d :| Due(r, d, now) &&
             Drain(r, now) == (Drain(SettleOverdue(r, d), now).0, Drain(SettleOverdue(r, d), now).1 + 1);
    DueUnique(r, now, c, d);
    SettleShrinksOpen(RecordDefaults(r, c), c);
    SettleFrame(r, c, true);
  }

  lemma DrainStops(r: Rota, now: Time)
    requires forall c :: !Due(r, c, now)
    ensures Drain(r, now) == (r, 0)
  {
  }

  lemma OverdueKeepsInv(r: Rota, c: int)
    requires Inv(r) && CanSettle(r, c)
    ensures Inv(SettleOverdue(r, c))
  {
    hide Inv;
    SettleKeepsInv(r, c, true);
  }

  /** A tick ends with nothing overdue in a group that is still ACTIVE. */
  lemma {:induction false} DrainComplete(r: Rota, now: Time)
    requires Inv(r)
    ensures var s := Drain(r, now).0;
            s.group.state == Active ==> forall c :: CanSettle(s, c) ==> !Overdue(s, c, now)
    decreases |OpenCycles(r)|
  {
    hide RosterOk, BooksOk, Drain;
    if c :| Due(r, c, now) {
      DrainUnfold(r, now, c);
      OverdueKeepsInv(r, c);
      DrainComplete(SettleOverdue(r, c), now);
    } else {
      DrainStops(r, now);
      forall c | r.group.state == Active && CanSettle(r, c) ensures !Overdue(r, c, now) {
        if Overdue(r, c, now) {
          OverdueMeansDue(r, c, now);
        }
      }
    }
  }

  /** The reported count is the number of cycles that became settled, and the
      loop bound of TotalCycles + 1 rounds is never what ends the drain. */
  lemma {:induction false} DrainCount(r: Rota, now: Time)
    requires Inv(r)
    ensures var (s, n) := Drain(r, now);
            && n == |OpenCycles(r)| - |OpenCycles(s)| == |OpenCycles(r) - OpenCycles(s)|
            && OpenCycles(s) <= OpenCycles(r)
            && n <= r.group.totalCycles
            && s.group == r.group.(state := s.group.state)
    decreases |OpenCycles(r)|
  {
    hide Inv, RosterOk, ScheduleOk, BooksOk, Drain, SettleOverdue, Due, OpenCycles;
    OpenBound(r);
    if c :| Due(r, c, now) {
      DrainUnfold(r, now, c);
      var s := SettleOverdue(r, c);
      OverdueKeepsInv(r, c);
      DrainCount(s, now);
      var left := OpenCycles(Drain(s, now).0);
      assert OpenCycles(r) == (OpenCycles(r) - left) + left;
    } else {
      DrainStops(r, now);
      assert OpenCycles(r) - OpenCycles(r) == {};
    }
  }

  lemma {:induction false} SlotsSize(g: Id, n: nat) returns (slots: set<CycleKey>)
    ensures |slots| == n
    ensures forall k :: k in slots <==> k.group == g && 0 <= k.index < n
  {
    slots := {};
    if n > 0 {
      var fewer := SlotsSize(g, n - 1);
      slots := fewer + {CycleKey(g, n - 1)};
    }
  }

  lemma OpenBound(r: Rota)
    requires Inv(r)
    ensures |OpenCycles(r)| <= r.group.totalCycles
  {
    hide RosterOk, BooksOk;
    if r.group.state == Created {
      assert OpenCycles(r) == {};
    } else {
      var slots := SlotsSize(r.group.id, |r.group.payoutOrder|);
      SubsetSize(OpenCycles(r), slots);
    }
  }

  /** A second tick at the same time settles nothing and changes nothing. */
  lemma {:induction false} DrainIdempotent(r: Rota, now: Time)
    ensures Drain(Drain(r, now).0, now) == (Drain(r, now).0, 0)
    decreases |OpenCycles(r)|
  {
    hide Drain, SettleOverdue, Due;
    if c :| Due(r, c, now) {
      DrainUnfold(r, now, c);
      DrainIdempotent(SettleOverdue(r, c), now);
    } else {
      DrainStops(r, now);
    }
  }

  /** A tick that takes a group out of ACTIVE leaves it CLOSED with every cycle settled. */
  lemma {:induction false} DrainClosesClean(r: Rota, now: Time)
    requires Inv(r) && r.group.state == Active
    ensures var s := Drain(r, now).0;
            s.group.state != Active ==> s.group.state == Closed && AllSettled(s)
    decreases |OpenCycles(r)|
  {
    hide Inv, Drain, SettleOverdue, AllSettled;
    if c :| Due(r, c, now) {
      DrainUnfold(r, now, c);
      var s := SettleOverdue(r, c);
      OverdueKeepsInv(r, c);
      if s.group.state == Active {
        DrainClosesClean(s, now);
      } else {
        LastCurrentClosesAll(r, c);
        DrainStops(s, now);
      }
    } else {
      DrainStops(r, now);
    }
  }

  lemma LastCurrentClosesAll(r: Rota, c: int)
    requires Inv(r) && IsCurrent(r, c) && r.group.state == Active
    requires SettleOverdue(r, c).group.state != Active
    ensures SettleOverdue(r, c).group.state == Closed && AllSettled(SettleOverdue(r, c))
  {
    hide RosterOk, BooksOk;
    var s := SettleOverdue(r, c);
    SettleFrame(r, c, true);
    assert c == |r.group.payoutOrder| - 1;
    forall d | InSchedule(s, d) ensures Settled(s, d) {
      assert InSchedule(r, d);
      assert HasCycle(r, d) by { DeadlineOf(r, d); }
    }
  }

  /** A tick settles no cycle before its deadline, and none without recording its defaults. */
  lemma {:induction false} DrainSettlesOnlyOverdue(r: Rota, now: Time, c: int)
    requires Inv(r) && CanSettle(r, c) && Settled(Drain(r, now).0, c)
    ensures Overdue(r, c, now)
    ensures DefaultsRecorded(Drain(r, now).0, c)
    decreases |OpenCycles(r)|
  {
    hide Inv, Drain, SettleOverdue, Due, DefaultsRecorded;
    if d :| Due(r, d, now) {
      DrainUnfold(r, now, d);
      var s := SettleOverdue(r, d);
      OverdueKeepsInv(r, d);
      OverdueFrame(r, d, c);
      if d == c {
        OverdueSettlementRecordsDefaults(r, c);
        DrainLeavesSettled(s, now, c);
        DrainCount(s, now);
        RecordedFollowsRecord(s, Drain(s, now).0, c);
      } else {
        DrainSettlesOnlyOverdue(s, now, c);
      }
    } else {
      DrainStops(r, now);
    }
  }

  /** On a reachable group: every cycle a tick settles was overdue, and its defaults are
      on record afterwards. */
  lemma TickSettlesOnlyOverdue(r: Rota, now: Time, c: int)
    requires Reachable(r) && CanSettle(r, c) && Settled(Drain(r, now).0, c)
    ensures Overdue(r, c, now) && DefaultsRecorded(Drain(r, now).0, c)
  {
    hide Inv, Drain, DefaultsRecorded;
    ReachableInv(r);
    DrainSettlesOnlyOverdue(r, now, c);
  }

  /** Tallies of a cycle are read off the part of the log that belongs to it. */
  lemma TallyFollowsRecord(r: Rota, s: Rota, c: int)
    requires SameRecord(r, s, c)
    ensures forall kind, u :: Tally(r, kind, u, c) == Tally(s, kind, u, c)
  {
    forall kind, u ensures Tally(r, kind, u, c) == Tally(s, kind, u, c) {
      SumFiltered(r.events, EventInCycle(c), EventsOf(kind, u, c), EventsOf(kind, u, c));
      SumFiltered(s.events, EventInCycle(c), EventsOf(kind, u, c), EventsOf(kind, u, c));
    }
  }

  lemma RecordedFollowsRecord(r: Rota, s: Rota, c: int)
    requires SameRecord(r, s, c) && DefaultsRecorded(r, c) && s.group.members == r.group.members
    ensures DefaultsRecorded(s, c)
  {
    TallyFollowsRecord(r, s, c);
  }

  /** What one tick does to an ACTIVE group, exactly: a cycle is settled
      afterwards if and only if it was before or its deadline has passed. */
  lemma TickExact(r: Rota, now: Time, c: int)
    requires Reachable(r) && r.group.state == Active && InSchedule(r, c)
    ensures Settled(Drain(r, now).0, c) <==> Settled(r, c) || Overdue(r, c, now)
  {
    hide Inv, Drain, AllSettled;
    var s := Drain(r, now).0;
    ReachableInv(r);
    DrainKeepsInv(r, now);
    DrainCount(r, now);
    DrainClosesClean(r, now);
    SameDeadline(r, s, c, now);
    if Settled(r, c) {
      DrainLeavesSettled(r, now, c);
    } else if Settled(s, c) {
      DrainSettlesOnlyOverdue(r, now, c);
    } else if s.group.state == Active {
      DrainComplete(r, now);
    } else {
      AllSettledAt(s, c);
    }
  }

  lemma SameDeadline(r: Rota, s: Rota, c: int, now: Time)
    requires Inv(r) && Inv(s) && s.group == r.group.(state := s.group.state)
    requires r.group.state == Active && s.group.state != Created && InSchedule(r, c)
    ensures HasCycle(r, c) && HasCycle(s, c)
    ensures Overdue(r, c, now) <==> Overdue(s, c, now)
  {
    hide RosterOk, BooksOk;
    DeadlineOf(r, c);
    DeadlineOf(s, c);
  }

  lemma AllSettledAt(s: Rota, c: int)
    requires AllSettled(s) && InSchedule(s, c)
    ensures Settled(s, c)
  {
  }

  /** The scheduler's tick on a reachable group: nothing that is open and overdue
      is left in an ACTIVE group, the count is the number of cycles newly settled
      and stays within the loop bound, and repeating the tick does nothing. */
  lemma TickCompleteAndIdempotent(r: Rota, now: Time)
    requires Reachable(r)
    ensures var (s, n) := Drain(r, now);
            && (s.group.state == Active ==> forall c :: CanSettle(s, c) ==> !Overdue(s, c, now))
            && OpenCycles(s) <= OpenCycles(r)
            && n == |OpenCycles(r) - OpenCycles(s)| <= r.group.totalCycles
            && Drain(s, now) == (s, 0)
  {
    hide Inv, Drain;
    ReachableInv(r);
    DrainComplete(r, now);
    DrainCount(r, now);
    DrainIdempotent(r, now);
  }

  // ----- lifecycle -----

  function Rank(s: GroupState): nat {
    match s
    case Created => 0
    case Active => 1
    case Settlement => 2
    case Closed => 3
  }

  /** The two transitions whose errors settlement throws away never fail. */
  lemma DiscardedTransitionsSucceed(r: Rota, c: int)
    requires Reachable(r) && CanSettle(r, c) && c == r.group.totalCycles - 1
    ensures CanTransition(r.group.state, Settlement)
    ensures CanTransition(TryTransition(r.group, Settlement).state, Closed)
    ensures Settle(r, c).group.state == Closed
  {
    ReachableInv(r);
  }

  /** After activation the group is ACTIVE exactly while its last cycle is open. */
  lemma ActiveUntilLastSettled(r: Rota)
    requires Reachable(r) && r.group.state != Created
    ensures r.group.state == Active <==> !Settled(r, r.group.totalCycles - 1)
    ensures r.group.state == Closed <==> Settled(r, r.group.totalCycles - 1)
  {
    hide RosterOk, BooksOk;
    ReachableInv(r);
  }

  /** No call moves a group backwards, and none rewrites its identity or its rules. */
  lemma LifecycleIsOneWay(r: Rota, s: Step)
    requires Reachable(r)
    ensures Rank(r.group.state) <= Rank(Apply(r, s).group.state)
    ensures var g, h := r.group, Apply(r, s).group;
            && (h.id, h.name, h.organizer, h.amount, h.cycleLength, h.maxMembers, h.createdAt)
               == (g.id, g.name, g.organizer, g.amount, g.cycleLength, g.maxMembers, g.createdAt)
            && (g.state != Created ==>
                  && h.members == g.members && h.payoutOrder == g.payoutOrder
                  && h.totalCycles == g.totalCycles && h.activatedAt == g.activatedAt)
  {
    hide Inv, RosterOk, ScheduleOk, BooksOk, Drain, AllSettled, OpenCycles, Gross, Amounts, Misses, Scheduled, Without;
    ReachableInv(r);
    if Allowed(r, s) {
      match s {
        case DeadlineStep(now) =>
          DrainCount(r, now);
          if r.group.state == Active {
            DrainClosesClean(r, now);
          } else {
            DrainStops(r, now);
          }
        case JoinStep(_) =>
        case DropStep(_, _) =>
        case ActivateStep(_, _) =>
        case ContributeStep(_, _, _) =>
        case SettleStep(_) =>
      }
    }
  }

  lemma HeldSign(r: Rota, c: int)
    requires Inv(r)
    ensures Held(r)(c) >= 0
    ensures Held(r)(c) == 0 <==> Settled(r, c) || PaidKeys(r, c) == {}
  {
    hide Inv;
    InvBasics(r);
    GrossIsPot(r, c);
    var a, k := r.group.amount, |PaidKeys(r, c)|;
    assert k > 0 ==> a * k > 0;
  }

  /** A CLOSED group may still hold money: it is empty exactly when nobody paid
      into a cycle that is still open. */
  lemma ClosedBalance(r: Rota)
    requires Reachable(r) && r.group.state == Closed
    ensures Balance(r) == 0 <==> forall c :: InSchedule(r, c) && !Settled(r, c) ==> PaidKeys(r, c) == {}
  {
    hide Inv;
    ReachableInv(r);
    EscrowConserved(r);
    forall c ensures Held(r)(c) >= 0 && (Held(r)(c) == 0 <==> Settled(r, c) || PaidKeys(r, c) == {}) {
      HeldSign(r, c);
    }
    RangeNonNegative(|r.group.payoutOrder|, Held(r));
    if forall c :: InSchedule(r, c) && !Settled(r, c) ==> PaidKeys(r, c) == {} {
      forall c | 0 <= c < |r.group.payoutOrder| ensures Held(r)(c) == 0 {
        assert InSchedule(r, c);
      }
      RangeConstant(|r.group.payoutOrder|, Held(r), 0);
    }
  }

  /** A tick that closes a group leaves nothing in its escrow. */
  lemma DrainedClosureIsEmpty(r: Rota, now: Time)
    requires Reachable(r) && r.group.state == Active && Drain(r, now).0.group.state != Active
    ensures AllSettled(Drain(r, now).0) && Balance(Drain(r, now).0) == 0
  {
    hide Inv, Drain;
    ReachableInv(r);
    ReachableStep(r, DeadlineStep(now));
    DrainClosesClean(r, now);
    ClosedBalance(Drain(r, now).0);
  }

  lemma ClosesInOrder(r: Rota, c: int)
    requires Inv(r) && CanSettle(r, c) && Settle(r, c).group.state == Closed && r.group.state == Active
    ensures AllSettled(Settle(r, c)) <==> IsCurrent(r, c)
  {
    var s := Settle(r, c);
    SettleFrame(r, c, false);
    assert InSchedule(r, c);
    assert c == |r.group.payoutOrder| - 1;
    if IsCurrent(r, c) {
      forall d | InSchedule(s, d) ensures Settled(s, d) {
        DeadlineOf(r, d);
      }
    }
    if AllSettled(s) {
      forall d | d < c && HasCycle(r, d) ensures Settled(r, d) {
        assert InSchedule(s, d);
      }
    }
  }

  /** The cycle a call settles, if it settles one, is the current one. */
  ghost predicate InOrder(r: Rota, s: Step) {
    match s
    case SettleStep(c) => IsCurrent(r, c)
    case ContributeStep(_, c, _) => IsCurrent(r, c)
    case _ => true
  }

  /** The call that closes a group leaves every cycle settled exactly when the cycle it
      settles was the current one. The scheduler only ever settles the current cycle;
      by hand, or by the last missing contribution, the last cycle can be settled
      before earlier ones. */
  lemma ClosureIsCleanExactly(r: Rota, s: Step)
    requires Reachable(r) && r.group.state == Active && Apply(r, s).group.state == Closed
    ensures AllSettled(Apply(r, s)) <==> InOrder(r, s)
  {
    hide Inv, Drain, AllSettled, Settle, Post, IsCurrent;
    ReachableInv(r);
    match s {
      case DeadlineStep(now) => DrainClosesClean(r, now);
      case SettleStep(c) => ClosesInOrder(r, c);
      case ContributeStep(u, c, now) =>
        PostKeepsInv(r, u, c, now);
        PostKeepsCurrent(r, u, c, now);
        ClosesInOrder(Post(r, u, c, now), c);
      case JoinStep(_) =>
      case DropStep(_, _) =>
      case ActivateStep(_, _) =>
    }
  }

  lemma PostKeepsCurrent(r: Rota, u: Id, c: int, now: Time)
    ensures var p := Post(r, u, c, now);
            && (IsCurrent(p, c) <==> IsCurrent(r, c)) && (CanSettle(p, c) <==> CanSettle(r, c))
            && p.group == r.group
  {
    var p := Post(r, u, c, now);
    assert forall d :: HasCycle(p, d) <==> HasCycle(r, d);
    assert forall d :: Settled(p, d) <==> Settled(r, d);
  }

  lemma RunSnoc(r: Rota, steps: seq<Step>, s: Step)
    ensures Run(r, steps + [s]) == Apply(Run(r, steps), s)
  {
    assert (steps + [s])[..|steps|] == steps;
  }

  /** The group of the counterexample below, once it is active. */
  lemma PairActivated(g: Group, u: Id, now: Time) returns (r: Rota)
    requires g == NewGroup("g", "name", "ann", 100, 10, 2, 0) && u != "ann"
    ensures r == Run(NewRota(g), [JoinStep(u), ActivateStep([], now)])
    ensures r.group.id == "g" && r.group.members == ["ann", u] && r.group.state == Active
    ensures r.group.amount == 100 && r.group.totalCycles == 2
    ensures r.contributions == map[] && r.escrow == []
    ensures CanSettle(r, 0) && CanSettle(r, 1)
  {
    var start := NewRota(g);
    RunSnoc(start, [], JoinStep(u));
    assert [] + [JoinStep(u)] == [JoinStep(u)];
    var joined := Run(start, [JoinStep(u)]);
    assert joined == Join(start, u);
    RunSnoc(start, [JoinStep(u)], ActivateStep([], now));
    assert [JoinStep(u)] + [ActivateStep([], now)] == [JoinStep(u), ActivateStep([], now)];
    assert joined.group.members == ["ann", u];
    assert WellFormed(Planned(joined.group, []));
    r := Activate(joined, [], now);
    ScheduledContents(joined.cycles, r.group, now, 2);
  }

  /** Closure does not imply that every cycle is settled: a two-member group whose
      organizer settles the second cycle first is CLOSED with its first cycle open
      and a contribution to it still in escrow. */
  lemma ClosedWithOpenCycle(g: Group, u: Id, now: Time)
    requires g == NewGroup("g", "name", "ann", 100, 10, 2, 0) && u != "ann"
    ensures var r := Run(NewRota(g),
                         [JoinStep(u), ActivateStep([], now), ContributeStep("ann", 0, now), SettleStep(1)]);
            r.group.state == Closed && !Settled(r, 0) && Balance(r) == 100
  {
    var start, steps := NewRota(g), [JoinStep(u), ActivateStep([], now)];
    var active := PairActivated(g, u, now);
    RunSnoc(start, steps, ContributeStep("ann", 0, now));
    RunSnoc(start, steps + [ContributeStep("ann", 0, now)], SettleStep(1));
    assert steps + [ContributeStep("ann", 0, now)] + [SettleStep(1)] ==
           [JoinStep(u), ActivateStep([], now), ContributeStep("ann", 0, now), SettleStep(1)];
    var posted := Post(active, "ann", 0, now);
    assert Contribute(active, "ann", 0, now) == posted by {
      assert u in posted.group.members && !Paid(posted, u, 0);
    }
    HandSettlement(posted);
  }

  lemma HandSettlement(r: Rota)
    requires r.group.state == Active && r.group.totalCycles == 2 && CanSettle(r, 0) && CanSettle(r, 1)
    requires PaidKeys(r, 1) == {}
    requires r.escrow == [EscrowEntry("g", 0, "ann", Credit, 100)]
    ensures Settle(r, 1).group.state == Closed && !Settled(Settle(r, 1), 0) && Balance(Settle(r, 1)) == 100
  {
    var debit := EscrowEntry(r.group.id, 1, r.cycles[Slot(r, 1)].payee, Debit, 0);
    assert Settle(r, 1).escrow == r.escrow + [debit];
    SumSnoc(r.escrow, debit, Credited());
    SumSnoc(r.escrow, debit, Debited());
  }
}
