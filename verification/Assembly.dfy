/** What holds while a group is assembled, what activation demands of the roster,
    and what is frozen from then on. */
module Assembly {
  import opened Domain
  import opened Sums
  import opened Rotation
  import opened RotationProofs
  import opened RotationTheorems
  import DeadlineTheorems

  /** In every reachable state the member list holds exactly the users with an active
      membership, the organizer among them, within the group's limit; once the group
      has been activated nobody is listed twice and every payee is a member. */
  lemma AssemblyInvariant(r: Rota)
    requires Reachable(r)
    ensures forall u :: u in r.group.members <==> ActiveMembership(r, u)
    ensures r.group.organizer in r.group.members && |r.group.members| <= r.group.maxMembers
    ensures r.group.state != Created ==>
              && Distinct(r.group.members) && |r.group.members| >= 2
              && |r.group.payoutOrder| == |r.group.members|
              && forall p :: p in r.group.payoutOrder ==> p in r.group.members
  {
    ReachableInv(r);
  }

  /** Activation fixes the roster, the order and the schedule for the rest of time. */
  lemma {:induction false} RosterFrozenForever(r: Rota, steps: seq<Step>)
    requires Reachable(r) && r.group.state != Created
    ensures var g, h := r.group, Run(r, steps).group;
            && h.members == g.members && h.payoutOrder == g.payoutOrder
            && h.totalCycles == g.totalCycles && h.activatedAt == g.activatedAt
            && h.amount == g.amount && h.state != Created
  {
    hide Reachable, Apply;
    if steps != [] {
      var before := Run(r, steps[..|steps| - 1]);
      RosterFrozenForever(r, steps[..|steps| - 1]);
      ReachableRun(r, steps[..|steps| - 1]);
      DeadlineTheorems.LifecycleIsOneWay(before, steps[|steps| - 1]);
    }
  }

  /** The number of payments of a cycle reaches the number of members exactly when
      every member has paid it. */
  lemma PaymentCountIsExact(r: Rota, c: int)
    requires Reachable(r) && r.group.state != Created
    ensures |PaidKeys(r, c)| >= |r.group.members| <==> Full(r, c)
    ensures |PaidKeys(r, c)| <= |r.group.members|
  {
    ReachableInv(r);
    CountTestExact(r, c);
  }

  /** Which orders a CREATED group can be activated with: its members must be two or
      more and listed once each; then every order of the right length made of members
      will do, and join order, the default, always does. */
  lemma ActivationExact(r: Rota, order: seq<Id>)
    requires Reachable(r) && r.group.state == Created
    ensures CanActivate(r, order) <==>
              && |r.group.members| >= 2 && Distinct(r.group.members)
              && (order == [] || (|order| == |r.group.members| && forall p :: p in order ==> p in r.group.members))
  {
    ReachableInv(r);
  }

  /** A join keeps the roster free of repeats exactly when the newcomer is new. */
  lemma JoinRepeats(r: Rota, u: Id)
    requires Distinct(r.group.members)
    ensures Distinct(Join(r, u).group.members) <==> u !in r.group.members
  {
    DistinctSnoc(r.group.members, u);
  }

  lemma DistinctSnoc(xs: seq<Id>, x: Id)
    requires Distinct(xs)
    ensures Distinct(xs + [x]) <==> x !in xs
  {
    var ys := xs + [x];
    assert ys[|xs|] == x && forall i :: 0 <= i < |xs| ==> ys[i] == xs[i];
    if x in xs {
      var i :| 0 <= i < |xs| && xs[i] == x;
      assert ys[i] == ys[|xs|];
    }
  }

  /** A member who was not in the group and leaves again leaves no trace in the roster. */
  lemma LeavingUndoesJoining(r: Rota, u: Id, status: MembershipStatus)
    requires u !in r.group.members
    ensures Drop(Join(r, u), u, status).group == r.group
    ensures !ActiveMembership(Drop(Join(r, u), u, status), u) <==> status != ActiveMember
  {
    WithoutNothing(r.group.members, u);
    assert (r.group.members + [u])[..|r.group.members|] == r.group.members;
  }

  lemma {:induction false} WithoutNothing(xs: seq<Id>, x: Id)
    requires x !in xs
    ensures Without(xs, x) == xs
  {
    if xs != [] {
      WithoutNothing(xs[..|xs| - 1], x);
    }
  }

  lemma {:induction false} WithoutRepeats(xs: seq<Id>, x: Id)
    requires Distinct(xs)
    ensures Distinct(Without(xs, x))
    ensures |Without(xs, x)| == |xs| - if x in xs then 1 else 0
  {
    if xs != [] {
      var init, last := xs[..|xs| - 1], xs[|xs| - 1];
      WithoutRepeats(init, x);
      assert xs == init + [last];
      DistinctSnoc(init, last);
      DistinctSnoc(Without(init, x), last);
    }
  }

  /** Two approvals for one user list that user twice, and the group cannot be
      activated, in any order, until the user leaves: then every copy is gone. */
  lemma ApprovedTwice(r: Rota, u: Id, order: seq<Id>, status: MembershipStatus)
    requires Reachable(r) && r.group.state == Created && u != r.group.organizer
    requires Distinct(r.group.members) && u !in r.group.members && |r.group.members| + 2 <= r.group.maxMembers
    requires status != ActiveMember
    ensures var s := Run(r, [JoinStep(u), JoinStep(u)]);
            && Reachable(s) && !Distinct(s.group.members) && !CanActivate(s, order)
            && Apply(s, DropStep(u, status)).group == r.group
  {
    hide Reachable, Distinct, CanActivate;
    var s := Join(Join(r, u), u);
    TwoJoins(r, u);
    ReachableRun(r, [JoinStep(u), JoinStep(u)]);
    TwiceListed(r.group.members, u);
    ReachableInv(s);
    ActivationExact(s, order);
  }

  lemma TwoJoins(r: Rota, u: Id)
    requires CanJoin(r, u) && CanJoin(Join(r, u), u)
    ensures Run(r, [JoinStep(u), JoinStep(u)]) == Join(Join(r, u), u)
  {
    assert [JoinStep(u), JoinStep(u)][..1] == [JoinStep(u)] && [JoinStep(u)][..0] == [];
    assert Run(r, [JoinStep(u)]) == Join(r, u);
  }

  lemma TwiceListed(ms: seq<Id>, u: Id)
    requires u !in ms
    ensures !Distinct(ms + [u] + [u]) && Without(ms + [u] + [u], u) == ms
  {
    var twice := ms + [u] + [u];
    assert twice[|ms|] == twice[|ms| + 1];
    assert twice[..|ms| + 1] == ms + [u] && (ms + [u])[..|ms|] == ms;
    assert Without(ms + [u], u) == Without(ms, u);
    WithoutNothing(ms, u);
  }

  // ----- runs without double approval -----

  /** Nobody is let in who is in already. */
  predicate Fresh(r: Rota, s: Step) {
    s.JoinStep? && CanJoin(r, s.user) ==> s.user !in r.group.members
  }

  ghost predicate FreshRun(r: Rota, steps: seq<Step>) {
    steps == [] || (FreshRun(r, steps[..|steps| - 1]) && Fresh(Run(r, steps[..|steps| - 1]), steps[|steps| - 1]))
  }

  /** The roster stays free of repeats over a whole run when no join lets in a member. */
  lemma {:induction false} RosterDistinct(r: Rota, steps: seq<Step>)
    requires Reachable(r) && Distinct(r.group.members) && FreshRun(r, steps)
    ensures Distinct(Run(r, steps).group.members)
  {
    hide Reachable, Drain;
    if steps != [] {
      var init, s := steps[..|steps| - 1], steps[|steps| - 1];
      var before := Run(r, init);
      RosterDistinct(r, init);
      ReachableRun(r, init);
      StepDistinct(before, s);
    }
  }

  /** One step keeps a repeat-free roster so exactly when it is not a join of a member. */
  lemma StepDistinct(r: Rota, s: Step)
    requires Reachable(r) && Distinct(r.group.members)
    ensures Distinct(Apply(r, s).group.members) <==> Fresh(r, s)
  {
    hide Reachable, Drain, Distinct;
    if r.group.state != Created {
      DeadlineTheorems.LifecycleIsOneWay(r, s);
    } else if Allowed(r, s) {
      match s {
        case JoinStep(u) => JoinRepeats(r, u);
        case DropStep(u, _) => WithoutRepeats(r.group.members, u);
        case ActivateStep(_, _) =>
        case ContributeStep(_, _, _) =>
        case SettleStep(c) => NothingToSettle(r, c);
        case DeadlineStep(now) => NothingDue(r, now);
      }
    }
  }

  lemma NothingToSettle(r: Rota, c: int)
    requires Reachable(r) && r.group.state == Created
    ensures !CanSettle(r, c)
  {
    ReachableInv(r);
  }

  lemma NothingDue(r: Rota, now: Time)
    requires r.group.state == Created
    ensures Drain(r, now) == (r, 0)
  {
  }
}
