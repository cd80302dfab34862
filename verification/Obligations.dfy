/** Which settlements leave a complete obligation record behind: over any run, all
    but the organizer's early settlement of a cycle somebody had not paid. */
module Obligations {
  import opened Domain
  import opened Rotation
  import opened RotationProofs
  import opened RotationTheorems
  import opened DeadlineTheorems

  /** A settlement by hand of a cycle that somebody has not paid. */
  ghost predicate ShortSettlement(r: Rota, s: Step, c: int) {
    s == SettleStep(c) && CanSettle(r, c) && !Full(r, c)
  }

  /** An open cycle has no Missed events yet. */
  lemma OpenMeansNoneMissed(r: Rota, c: int)
    requires Inv(r) && r.group.state != Created && CanSettle(r, c)
    ensures NoneMissed(r, c)
  {
    assert InSchedule(r, c) && CycleOk(r, c);
  }

  /** Settling by hand records the defaults exactly when there are none. */
  lemma HandRecords(r: Rota, c: int)
    requires Inv(r) && r.group.state != Created && CanSettle(r, c)
    ensures DefaultsRecorded(Settle(r, c), c) <==> Full(r, c)
  {
    hide Inv, RosterOk, ScheduleOk, BooksOk, Settle, Gross;
    OpenMeansNoneMissed(r, c);
    InvBasics(r);
    SettleFrame(r, c, false);
    var s := Settle(r, c);
    forall u ensures Tally(s, ContributionMissed, u, c) == 0 {
      SettleTally(r, c, false, ContributionMissed, u, c);
    }
    if !Full(r, c) {
      var m :| m in r.group.members && !Paid(r, m, c);
      assert Tally(s, ContributionMissed, m, c) == 0;
    }
  }

  /** The step that settles a cycle leaves exactly one obligation event per member
      behind, unless it is a settlement by hand with somebody missing. */
  lemma SettlingStepRecords(r: Rota, s: Step, c: int)
    requires Reachable(r) && !Settled(r, c) && Settled(Apply(r, s), c)
    ensures DefaultsRecorded(Apply(r, s), c) <==> !ShortSettlement(r, s, c)
  {
    hide Inv, Drain, DefaultsRecorded, Reachable, Settle;
    ReachableInv(r);
    match s {
      case ContributeStep(u, d, now) =>
        FullySettled(r, u, d, now, c);
      case SettleStep(d) =>
        HandSettles(r, d, c);
        StartedByCycle(r, c);
        HandRecords(r, c);
      case DeadlineStep(now) =>
        TickedCycleExists(r, now, c);
        DrainSettlesOnlyOverdue(r, now, c);
      case ActivateStep(order, now) =>
        ActivationSettlesNothing(r, order, now, c);
      case JoinStep(_) =>
      case DropStep(_, _) =>
    }
  }

  lemma FullySettled(r: Rota, u: Id, d: int, now: Time, c: int)
    requires Inv(r) && !Settled(r, c) && Settled(Apply(r, ContributeStep(u, d, now)), c)
    ensures DefaultsRecorded(Apply(r, ContributeStep(u, d, now)), c)
  {
    hide Inv, DefaultsRecorded, Full;
    var posted := Post(r, u, d, now);
    PostKeepsInv(r, u, d, now);
    SettleFrame(posted, d, false);
    HandRecords(posted, c);
  }

  lemma HandSettles(r: Rota, d: int, c: int)
    requires !Settled(r, c) && Settled(Apply(r, SettleStep(d)), c)
    ensures d == c && CanSettle(r, c) && Apply(r, SettleStep(d)) == Settle(r, c)
  {
  }

  lemma StartedByCycle(r: Rota, c: int)
    requires Inv(r) && HasCycle(r, c)
    ensures r.group.state != Created
  {
    hide RosterOk, BooksOk;
  }

  lemma {:induction false} TickedCycleExists(r: Rota, now: Time, c: int)
    requires !Settled(r, c) && Settled(Drain(r, now).0, c)
    ensures CanSettle(r, c)
    decreases |OpenCycles(r)|
  {
    hide Drain, SettleOverdue, Due;
    if d :| Due(r, d, now) {
      DrainUnfold(r, now, d);
      OverdueShape(r, d, c);
      if d != c {
        TickedCycleExists(SettleOverdue(r, d), now, c);
      }
    } else {
      DrainStops(r, now);
    }
  }

  lemma OverdueShape(r: Rota, d: int, c: int)
    requires CanSettle(r, d)
    ensures HasCycle(SettleOverdue(r, d), c) <==> HasCycle(r, c)
    ensures Settled(SettleOverdue(r, d), c) <==> Settled(r, c) || d == c
  {
  }

  lemma ActivationSettlesNothing(r: Rota, order: seq<Id>, now: Time, c: int)
    requires Inv(r) && !Settled(r, c)
    ensures !Settled(Apply(r, ActivateStep(order, now)), c)
  {
    if CanActivate(r, order) {
      var s := Activate(r, order, now);
      ScheduledContents(r.cycles, s.group, now, |s.group.payoutOrder|);
    }
  }

  lemma RecordedThroughout(r: Rota, s: Step, c: int)
    requires Reachable(r) && Settled(r, c)
    ensures Settled(Apply(r, s), c)
    ensures DefaultsRecorded(Apply(r, s), c) <==> DefaultsRecorded(r, c)
  {
    hide Inv, Drain, DefaultsRecorded, Reachable, Apply, SameRecord;
    SettledCycleIsFrozen(r, s, c);
    ReachableInv(r);
    SettledMeansStarted(r, c);
    LifecycleIsOneWay(r, s);
    StillSettled(r, Apply(r, s), c);
    SameRecordBack(r, Apply(r, s), c);
    if DefaultsRecorded(r, c) {
      RecordedFollowsRecord(r, Apply(r, s), c);
    }
    if DefaultsRecorded(Apply(r, s), c) {
      RecordedFollowsRecord(Apply(r, s), r, c);
    }
  }

  lemma StillSettled(r: Rota, s: Rota, c: int)
    requires SameRecord(r, s, c) && Settled(r, c)
    ensures Settled(s, c)
  {
  }

  lemma SameRecordBack(r: Rota, s: Rota, c: int)
    requires SameRecord(r, s, c) && Settled(r, c) && s.group.id == r.group.id
    ensures SameRecord(s, r, c)
  {
  }

  /** Over every run, a settled cycle has exactly one obligation event per member
      unless at some point it was settled by hand with somebody missing. */
  lemma {:induction false} SettledCyclesRecorded(r: Rota, steps: seq<Step>, c: int)
    requires Reachable(r) && !Settled(r, c) && Settled(Run(r, steps), c)
    ensures DefaultsRecorded(Run(r, steps), c) <==>
            forall n :: 0 <= n < |steps| ==> !ShortSettlement(Run(r, steps[..n]), steps[n], c)
  {
    hide Inv, Drain, DefaultsRecorded, Reachable, Apply, ShortSettlement;
    if steps != [] {
      var last := |steps| - 1;
      var init := steps[..last];
      var before := Run(r, init);
      ReachableRun(r, init);
      forall n | 0 <= n < last ensures init[..n] == steps[..n] && init[n] == steps[n] {}
      if Settled(before, c) {
        SettledCyclesRecorded(r, init, c);
        RecordedThroughout(before, steps[last], c);
        NotShort(before, steps[last], c);
      } else {
        SettlingStepRecords(before, steps[last], c);
        forall n | 0 <= n < last ensures !ShortSettlement(Run(r, steps[..n]), steps[n], c) {
          if ShortSettlement(Run(r, steps[..n]), steps[n], c) {
            StaysSettled(r, init, n, c);
          }
        }
      }
    }
  }

  lemma NotShort(r: Rota, s: Step, c: int)
    requires Settled(r, c)
    ensures !ShortSettlement(r, s, c)
  {
  }

  /** A cycle settled during a run is settled at its end. */
  lemma {:induction false} StaysSettled(r: Rota, steps: seq<Step>, n: nat, c: int)
    requires Reachable(r) && n < |steps| && ShortSettlement(Run(r, steps[..n]), steps[n], c)
    ensures Settled(Run(r, steps), c)
  {
    hide Inv, Drain, Reachable, SameRecord;
    var last := |steps| - 1;
    var init := steps[..last];
    ReachableRun(r, init);
    if n < last {
      assert init[..n] == steps[..n];
      StaysSettled(r, init, n, c);
      RecordedThroughout(Run(r, init), steps[last], c);
    } else {
      SettleFrame(Run(r, init), c, false);
    }
  }

  /** Every member has exactly one obligation event for cycle c. */
  ghost predicate OneEventEach(r: Rota, c: int) {
    forall u :: u in r.group.members ==>
      Tally(r, ContributionMade, u, c) + Tally(r, ContributionMissed, u, c) == 1
  }

  lemma SettledTallies(r: Rota, c: int)
    requires Inv(r) && r.group.state != Created && Settled(r, c)
    ensures forall u :: Tally(r, ContributionMade, u, c) == if Paid(r, u, c) then 1 else 0
    ensures NoneMissed(r, c) || DefaultsRecorded(r, c)
  {
    assert InSchedule(r, c) && CycleOk(r, c);
  }

  lemma OneEventEachMeansRecorded(r: Rota, c: int)
    requires Inv(r) && r.group.state != Created && Settled(r, c)
    ensures OneEventEach(r, c) <==> DefaultsRecorded(r, c)
  {
    hide Inv, Tally, Paid;
    SettledTallies(r, c);
    if OneEventEach(r, c) && NoneMissed(r, c) {
      forall u ensures Tally(r, ContributionMissed, u, c) == if u in r.group.members && !Paid(r, u, c) then 1 else 0 {
        assert Tally(r, ContributionMissed, u, c) == 0;
      }
    }
  }

  /** Over every run: a settled cycle has exactly one of made and missed for every
      member unless at some point it was settled by hand with somebody missing. */
  lemma ObligationsCompleteExactly(r: Rota, steps: seq<Step>, c: int)
    requires Reachable(r) && !Settled(r, c) && Settled(Run(r, steps), c)
    ensures OneEventEach(Run(r, steps), c) <==>
            forall n :: 0 <= n < |steps| ==> !ShortSettlement(Run(r, steps[..n]), steps[n], c)
  {
    hide Inv, Reachable, OneEventEach, DefaultsRecorded, Run, ShortSettlement;
    var s := Run(r, steps);
    ReachableRun(r, steps);
    ReachableInv(s);
    SettledMeansStarted(s, c);
    OneEventEachMeansRecorded(s, c);
    SettledCyclesRecorded(r, steps, c);
  }
}
