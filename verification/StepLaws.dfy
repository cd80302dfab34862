/** What each call does to a group, field by field, and what a schedule means over every
    run: statements about the state alone, in which no guard or effect of the group
    machine is mentioned by name. */
module StepLaws {
  import opened Domain
  import opened Sums
  import opened Rotation
  import opened RotationProofs
  import opened RotationTheorems
  import opened DeadlineTheorems
  import opened Assembly

  // ----- assembly -----

  function Other(u: Id): Id -> bool {
    (v: Id) => v != u
  }

  lemma {:induction false} WithoutIsFilter(xs: seq<Id>, u: Id)
    ensures Without(xs, u) == Filter(xs, Other(u))
  {
    if xs != [] {
      WithoutIsFilter(xs[..|xs| - 1], u);
    }
  }

  /** Joining appends the user and files an active membership, in a CREATED group with
      room and for anybody but the organizer; otherwise nothing happens. */
  lemma JoinInFields(r: Rota, u: Id)
    ensures var s, g := Apply(r, JoinStep(u)), r.group;
            if g.state == Created && |g.members| < g.maxMembers && u != g.organizer then
              s == r.(group := g.(members := g.members + [u]),
                      memberships := r.memberships[MemberKey(g.id, u) := Membership(g.id, u, false, ActiveMember)])
            else s == r
  {
  }

  /** Leaving and being removed take every copy of the user off the list, keep the order
      of the others, and mark the membership with which of the two it was. */
  lemma DropInFields(r: Rota, u: Id, status: MembershipStatus)
    requires status != ActiveMember
    ensures var s, g, k := Apply(r, DropStep(u, status)), r.group, MemberKey(r.group.id, u);
            if g.state == Created && u != g.organizer && k in r.memberships then
              s == r.(group := g.(members := Filter(g.members, Other(u))),
                      memberships := r.memberships[k := r.memberships[k].(status := status)])
            else s == r
  {
    WithoutIsFilter(r.group.members, u);
  }

  // ----- activation -----

  /** Activation takes two or more members, none of them twice, and an order of the same
      length made of members; it fixes that order and lays out one open cycle per
      position, paid to whoever stands there, due one cycle length after the other. */
  lemma ActivateInFields(r: Rota, order: seq<Id>, now: Time)
    requires Reachable(r)
    ensures var s, g := Apply(r, ActivateStep(order, now)), r.group;
            var chosen := if order == [] then g.members else order;
            if && g.state == Created && |g.members| >= 2 && |chosen| == |g.members|
               && (forall i, j :: 0 <= i < j < |g.members| ==> g.members[i] != g.members[j])
               && (forall p :: p in chosen ==> p in g.members) then
              && s.group == g.(payoutOrder := chosen, totalCycles := |chosen|,
                               activatedAt := Some(now), state := Active)
              && (forall k :: k in s.cycles <==> k.group == g.id && 0 <= k.index < |chosen|)
              && (forall c :: 0 <= c < |chosen| ==>
                    CycleKey(g.id, c) in s.cycles &&
                    s.cycles[CycleKey(g.id, c)] == Cycle(g.id, c, now + (c + 1) * g.cycleLength, chosen[c], false))
              && (s.memberships, s.contributions, s.payouts, s.escrow, s.events)
                 == (r.memberships, r.contributions, r.payouts, r.escrow, r.events)
            else s == r
  {
    hide Reachable, ScheduleOk, BooksOk;
    ReachableInv(r);
    if CanActivate(r, order) {
      var s := Activate(r, order, now);
      assert r.cycles == map[];
      ScheduledContents(r.cycles, s.group, now, |s.group.payoutOrder|);
    }
  }

  // ----- contribution -----

  /** Whoever contributes is charged the group's amount for that cycle, once, while it is
      open: one row, one escrow credit, one event. The cycle is settled on the spot
      exactly when every member has now paid it, and then it pays out the whole pot. */
  lemma ContributeInFields(r: Rota, u: Id, c: int, now: Time)
    requires Reachable(r)
    ensures var s, g := Apply(r, ContributeStep(u, c, now)), r.group;
            var k, x := CycleKey(g.id, c), ContribKey(g.id, u, c);
            if g.state == Active && u in g.members
               && k in r.cycles && !r.cycles[k].settled && x !in r.contributions then
              var all := forall m :: m in g.members ==> m == u || ContribKey(g.id, m, c) in r.contributions;
              var owed, payee := g.amount * |g.members|, r.cycles[k].payee;
              && s.contributions == r.contributions[x := Contribution(g.id, u, c, g.amount, now)]
              && s.cycles == r.cycles[k := r.cycles[k].(settled := all)]
              && s.escrow == r.escrow + [EscrowEntry(g.id, c, u, Credit, g.amount)]
                             + (if all then [EscrowEntry(g.id, c, payee, Debit, owed)] else [])
              && s.events == r.events + [Event(ContributionMade, u, g.id, c, g.amount)]
                             + (if all then [Event(PayoutReceived, payee, g.id, c, owed)] else [])
              && s.payouts == r.payouts + (if all then [Payout(g.id, c, payee, owed, owed, 0)] else [])
              && s.group == g.(state := if all && c + 1 == |g.payoutOrder| then Closed else Active)
              && s.memberships == r.memberships
            else s == r
  {
    hide Inv, Reachable, Settle, Full;
    if CanContribute(r, u, c) {
      ReachableInv(r);
      PostKeepsInv(r, u, c, now);
      var p := Post(r, u, c, now);
      FullAfterPost(r, u, c, now);
      var k := CycleKey(r.group.id, c);
      if Full(p, c) {
        FullSettlement(p, c);
      } else {
        assert p.cycles == r.cycles[k := r.cycles[k].(settled := false)];
      }
    }
  }

  lemma FullAfterPost(r: Rota, u: Id, c: int, now: Time)
    ensures Full(Post(r, u, c, now), c) <==>
            forall m :: m in r.group.members ==> m == u || ContribKey(r.group.id, m, c) in r.contributions
  {
    var p := Post(r, u, c, now);
    assert forall m :: Paid(p, m, c) <==> m == u || ContribKey(r.group.id, m, c) in r.contributions;
  }

  lemma FullSettlement(r: Rota, c: int)
    requires Inv(r) && r.group.state == Active && CanSettle(r, c) && Full(r, c)
    ensures var k, owed := CycleKey(r.group.id, c), r.group.amount * |r.group.members|;
            var payee := r.cycles[k].payee;
            Settle(r, c) == r.(
              group := r.group.(state := if c + 1 == |r.group.payoutOrder| then Closed else Active),
              cycles := r.cycles[k := r.cycles[k].(settled := true)],
              payouts := r.payouts + [Payout(r.group.id, c, payee, owed, owed, 0)],
              escrow := r.escrow + [EscrowEntry(r.group.id, c, payee, Debit, owed)],
              events := r.events + [Event(PayoutReceived, payee, r.group.id, c, owed)])
  {
    hide Inv;
    InvBasics(r);
    CountTestExact(r, c);
    SettlementShape(r, c);
  }

  // ----- settlement by hand -----

  /** Settling by hand pays the scheduled payee the contribution times the number of
      payments there are, notes what is missing, and closes the group after its last
      cycle; a cycle that is settled already, or does not exist, is left alone. */
  lemma SettleInFields(r: Rota, c: int)
    requires Reachable(r)
    ensures var s, g, k := Apply(r, SettleStep(c)), r.group, CycleKey(r.group.id, c);
            if k in r.cycles && !r.cycles[k].settled then
              var pot := g.amount * |set x | x in r.contributions && x.cycle == c|;
              var owed, payee := g.amount * |g.members|, r.cycles[k].payee;
              s == r.(group := g.(state := if c + 1 == |g.payoutOrder| then Closed else g.state),
                      cycles := r.cycles[k := r.cycles[k].(settled := true)],
                      payouts := r.payouts + [Payout(g.id, c, payee, pot, owed, owed - pot)],
                      escrow := r.escrow + [EscrowEntry(g.id, c, payee, Debit, pot)],
                      events := r.events + [Event(PayoutReceived, payee, g.id, c, pot)])
            else s == r
  {
    hide Inv, Reachable, Settle;
    ReachableInv(r);
    if CanSettle(r, c) {
      SettlementShape(r, c);
    }
  }

  lemma SettlementShape(r: Rota, c: int)
    requires Inv(r) && CanSettle(r, c)
    ensures var g, k := r.group, CycleKey(r.group.id, c);
            var pot := g.amount * |set x | x in r.contributions && x.cycle == c|;
            var owed, payee := g.amount * |g.members|, r.cycles[k].payee;
            Settle(r, c) == r.(
              group := g.(state := if c + 1 == |g.payoutOrder| then Closed else g.state),
              cycles := r.cycles[k := r.cycles[k].(settled := true)],
              payouts := r.payouts + [Payout(g.id, c, payee, pot, owed, owed - pot)],
              escrow := r.escrow + [EscrowEntry(g.id, c, payee, Debit, pot)],
              events := r.events + [Event(PayoutReceived, payee, g.id, c, pot)])
  {
    hide RosterOk, BooksOk, Gross;
    BooksFromInv(r, c);
    GrossIsPot(r, c);
    assert PaidKeys(r, c) == set x | x in r.contributions && x.cycle == c;
  }

  lemma BooksFromInv(r: Rota, c: int)
    requires Inv(r) && CanSettle(r, c)
    ensures forall x :: x in r.contributions ==> ContributionOk(r, x)
    ensures r.group.state == Active || c + 1 != |r.group.payoutOrder|
  {
  }

  // ----- deadline settlement -----

  /** The members without a payment for a cycle. */
  function MissingFrom(r: Rota, c: int): Id -> bool {
    (u: Id) => ContribKey(r.group.id, u, c) !in r.contributions
  }

  /** One Missed event for each of some users. */
  function MissedBy(users: seq<Id>, g: Group, c: int): seq<Event> {
    seq(|users|, i requires 0 <= i < |users| => Event(ContributionMissed, users[i], g.id, c, g.amount))
  }

  lemma {:induction false} MissesAreFilter(r: Rota, c: int, n: nat)
    requires n <= |r.group.members| && forall u :: u in PaidUsers(r, c) <==> Paid(r, u, c)
    ensures Misses(r.group, c, PaidUsers(r, c), n)
            == MissedBy(Filter(r.group.members[..n], MissingFrom(r, c)), r.group, c)
  {
    hide PaidUsers;
    if n > 0 {
      var ms := r.group.members;
      MissesAreFilter(r, c, n - 1);
      assert ms[..n] == ms[..n - 1] + [ms[n - 1]];
      FilterSnoc(ms[..n - 1], ms[n - 1], MissingFrom(r, c));
    }
  }

  /** When the first open cycle of an ACTIVE group is past its deadline, a tick first
      records one default, of the group's amount, for each member without a payment, in
      member order, and then pays out what was paid; what else it records comes after,
      and nothing but logs, settled flags and the state is touched. */
  lemma TickInFields(r: Rota, c: int, t: Time)
    requires Reachable(r) && r.group.state == Active
    requires CycleKey(r.group.id, c) in r.cycles
    requires var cycle := r.cycles[CycleKey(r.group.id, c)]; !cycle.settled && t > cycle.deadline
    requires forall d :: d < c && CycleKey(r.group.id, d) in r.cycles ==> r.cycles[CycleKey(r.group.id, d)].settled
    ensures var g, s := r.group, Drain(r, t).0;
            var pot := g.amount * |set x | x in r.contributions && x.cycle == c|;
            var payee := r.cycles[CycleKey(g.id, c)].payee;
            var owed := g.amount * |g.members|;
            && r.events + MissedBy(Filter(g.members, MissingFrom(r, c)), g, c)
               + [Event(PayoutReceived, payee, g.id, c, pot)] <= s.events
            && r.payouts + [Payout(g.id, c, payee, pot, owed, owed - pot)] <= s.payouts
            && r.escrow + [EscrowEntry(g.id, c, payee, Debit, pot)] <= s.escrow
            && s.contributions == r.contributions && s.memberships == r.memberships
            && s.group == g.(state := s.group.state)
  {
    hide Inv, Drain, Reachable, Misses, MissedBy, Gross;
    ReachableInv(r);
    InvBasics(r);
    assert Due(r, c, t);
    DrainUnfold(r, t, c);
    PaidCount(r, c);
    MissesAreFilter(r, c, |r.group.members|);
    PrefixWhole(r.group.members);
    SettleShape(r, c, true);
    assert PaidKeys(r, c) == set x | x in r.contributions && x.cycle == c;
    OverdueKeepsInv(r, c);
    DrainExtends(SettleOverdue(r, c), t);
  }

  lemma {:induction false} DrainExtends(r: Rota, t: Time)
    ensures var s := Drain(r, t).0;
            && r.events <= s.events && r.payouts <= s.payouts && r.escrow <= s.escrow
            && s.contributions == r.contributions && s.memberships == r.memberships
            && s.group == r.group.(state := s.group.state)
    decreases |OpenCycles(r)|
  {
    hide Drain, SettleOverdue, Due;
    if c :| Due(r, c, t) {
      DrainUnfold(r, t, c);
      OverdueExtends(r, c);
      DrainExtends(SettleOverdue(r, c), t);
    } else {
      DrainStops(r, t);
    }
  }

  lemma OverdueExtends(r: Rota, c: int)
    requires CanSettle(r, c)
    ensures var s := SettleOverdue(r, c);
            && r.events <= s.events && r.payouts <= s.payouts && r.escrow <= s.escrow
            && s.contributions == r.contributions && s.memberships == r.memberships
            && s.group == r.group.(state := s.group.state)
  {
  }

  // ----- the schedule, over every run -----

  /** The rows of the schedule in every state after an activation. */
  lemma ScheduleOverRuns(r: Rota, order: seq<Id>, now: Time, steps: seq<Step>)
    requires Reachable(r) && CanActivate(r, order)
    ensures var s := Run(Apply(r, ActivateStep(order, now)), steps);
            var chosen := if order == [] then r.group.members else order;
            && Reachable(s) && s.group.id == r.group.id && s.group.payoutOrder == chosen
            && s.group.members == r.group.members && s.group.amount == r.group.amount
            && (forall c :: InSchedule(s, c) <==> 0 <= c < |chosen|)
            && forall c :: 0 <= c < |chosen| ==>
                 && HasCycle(s, c)
                 && s.cycles[CycleKey(r.group.id, c)].deadline == now + (c + 1) * r.group.cycleLength
                 && s.cycles[CycleKey(r.group.id, c)].payee == chosen[c]
                 && s.cycles[CycleKey(r.group.id, c)].index == c
  {
    hide Inv, Reachable, Apply, Run;
    var start := Apply(r, ActivateStep(order, now));
    ActivateMeans(r, order, now);
    ActivateInFields(r, order, now);
    ReachableStep(r, ActivateStep(order, now));
    ReachableRun(start, steps);
    RosterFrozenForever(start, steps);
    IdentityFrozen(start, steps);
    RowsOfSchedule(Run(start, steps));
  }

  lemma ActivateMeans(r: Rota, order: seq<Id>, now: Time)
    requires CanActivate(r, order)
    ensures Planned(r.group, order).payoutOrder == if order == [] then r.group.members else order
    ensures r.group.state == Created && WellFormed(Planned(r.group, order))
  {
  }

  lemma {:induction false} IdentityFrozen(r: Rota, steps: seq<Step>)
    requires Reachable(r)
    ensures var g, h := r.group, Run(r, steps).group; h.id == g.id && h.cycleLength == g.cycleLength
  {
    hide Reachable, Apply;
    if steps != [] {
      IdentityFrozen(r, steps[..|steps| - 1]);
      ReachableRun(r, steps[..|steps| - 1]);
      LifecycleIsOneWay(Run(r, steps[..|steps| - 1]), steps[|steps| - 1]);
    }
  }

  lemma RowsOfSchedule(s: Rota)
    requires Reachable(s) && s.group.state != Created
    ensures s.group.activatedAt.Some?
    ensures forall c :: InSchedule(s, c) ==>
              && HasCycle(s, c)
              && s.cycles[CycleKey(s.group.id, c)].deadline
                 == s.group.activatedAt.value + (c + 1) * s.group.cycleLength
              && s.cycles[CycleKey(s.group.id, c)].payee == s.group.payoutOrder[c]
              && s.cycles[CycleKey(s.group.id, c)].index == c
  {
    hide RosterOk, BooksOk, Reachable;
    ReachableInv(s);
    forall c | InSchedule(s, c)
      ensures HasCycle(s, c)
      ensures s.cycles[Slot(s, c)] == ScheduledCycle(s.group, s.group.activatedAt.value, c).(settled := Settled(s, c))
    {
      assert Slot(s, c) in s.cycles;
    }
  }

  /** Deadlines, from the activation on and whatever has happened since: while the group
      is ACTIVE a tick at t settles cycle c, counting from zero, exactly if it was settled
      already or t lies more than c + 1 cycle lengths after the activation. */
  lemma DeadlinesOverRuns(r: Rota, order: seq<Id>, now: Time, steps: seq<Step>, t: Time, c: int)
    requires Reachable(r) && CanActivate(r, order) && 0 <= c < |if order == [] then r.group.members else order|
    ensures var s := Run(Apply(r, ActivateStep(order, now)), steps);
            var k := CycleKey(r.group.id, c);
            && k in s.cycles && k in Drain(s, t).0.cycles
            && (s.group.state == Active ==>
                  (Drain(s, t).0.cycles[k].settled <==>
                   s.cycles[k].settled || t > now + (c + 1) * r.group.cycleLength))
            && (s.group.state != Active ==> Drain(s, t) == (s, 0))
  {
    hide Reachable, Apply, Run, Drain;
    ScheduleOverRuns(r, order, now, steps);
    var s := Run(Apply(r, ActivateStep(order, now)), steps);
    if s.group.state == Active {
      TickExact(s, t, c);
      TickKeepsRow(s, t, c);
    } else {
      NothingDrained(s, t);
    }
  }

  lemma TickKeepsRow(s: Rota, t: Time, c: int)
    requires Reachable(s) && s.group.state == Active && InSchedule(s, c)
    ensures Drain(s, t).0.group.id == s.group.id && HasCycle(Drain(s, t).0, c)
  {
    hide Reachable, Apply, Drain;
    ReachableStep(s, DeadlineStep(t));
    LifecycleIsOneWay(s, DeadlineStep(t));
    DrainIsStep(s, t);
    RowsOfSchedule(Drain(s, t).0);
  }

  lemma DrainIsStep(s: Rota, t: Time)
    ensures Apply(s, DeadlineStep(t)) == Drain(s, t).0
  {
  }

  lemma NothingDrained(s: Rota, t: Time)
    requires s.group.state != Active
    ensures Drain(s, t) == (s, 0)
  {
  }

  /** The first tick after an activation: cycle c is settled by it exactly if it comes
      more than c + 1 cycle lengths later. */
  lemma FirstTick(r: Rota, order: seq<Id>, now: Time, t: Time, c: int)
    requires Reachable(r) && CanActivate(r, order) && 0 <= c < |if order == [] then r.group.members else order|
    ensures var k, s := CycleKey(r.group.id, c), Drain(Apply(r, ActivateStep(order, now)), t).0;
            k in s.cycles && (s.cycles[k].settled <==> t > now + (c + 1) * r.group.cycleLength)
  {
    hide Reachable, Drain, Apply;
    var start := Apply(r, ActivateStep(order, now));
    assert Run(start, []) == start;
    DeadlinesOverRuns(r, order, now, [], t, c);
    ActivateMeans(r, order, now);
    ActivateInFields(r, order, now);
  }

  /** Payouts, over every run: cycle c is paid to whoever stands at position c of the
      order the group was activated with, the contribution times the number of payments,
      with the rest of the full pot noted as missing. */
  lemma PayoutsOverRuns(r: Rota, order: seq<Id>, now: Time, steps: seq<Step>, p: Payout)
    requires Reachable(r) && CanActivate(r, order)
    requires p in Run(Apply(r, ActivateStep(order, now)), steps).payouts
    ensures var s := Run(Apply(r, ActivateStep(order, now)), steps);
            var pot := r.group.amount * |set x | x in s.contributions && x.cycle == p.cycle|;
            var chosen := if order == [] then r.group.members else order;
            && 0 <= p.cycle < |chosen| && p.payee == chosen[p.cycle]
            && p.group == r.group.id && p.gross == pot
            && p.expected == r.group.amount * |r.group.members| && p.shortfall == p.expected - pot
  {
    hide Reachable, Apply, Run;
    ScheduleOverRuns(r, order, now, steps);
    var s := Run(Apply(r, ActivateStep(order, now)), steps);
    PayoutFields(s, p);
  }

  lemma PayoutFields(s: Rota, p: Payout)
    requires Reachable(s) && p in s.payouts
    ensures InSchedule(s, p.cycle)
    ensures var pot, owed := s.group.amount * |set x | x in s.contributions && x.cycle == p.cycle|,
                             s.group.amount * |s.group.members|;
            p == Payout(s.group.id, p.cycle, s.group.payoutOrder[p.cycle], pot, owed, owed - pot)
  {
    ReachableInv(s);
    assert PayoutOk(s, p);
    assert PaidKeys(s, p.cycle) == set x | x in s.contributions && x.cycle == p.cycle;
  }

  /** A cycle is paid out once when it has been settled and never before. */
  lemma OnePayoutPerCycle(r: Rota, c: int)
    requires Reachable(r) && CycleKey(r.group.id, c) in r.cycles
    ensures Sum(r.payouts, PayoutsOf(c)) == if r.cycles[CycleKey(r.group.id, c)].settled then 1 else 0
  {
    ReachableInv(r);
    assert InSchedule(r, c) && CycleOk(r, c);
  }
}
