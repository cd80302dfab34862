/** The contract behind the service. The service may settle a cycle before its deadline,
    by the last contribution or by hand, and the contract may not: between the two the
    contract lags. Here is what it accepts meanwhile, that it can always follow, and
    exactly when both end up with the same ledger. */
module Lagging {
  import opened Domain
  import opened Sums
  import opened Rotation
  import opened RotationProofs
  import opened RotationTheorems
  import opened DeadlineTheorems
  import opened Obligations
  import opened Fairness
  import opened Contract
  import opened ContractTheorems
  import opened Refinement

  /** The contract knows the group's terms, roster, order and start. */
  ghost predicate SameTerms(r: Rota, k: Storage) {
    && k.self == r.group.id && k.organizer == r.group.organizer && k.amount == r.group.amount
    && k.members == r.group.members && k.payoutOrder == r.group.payoutOrder
    && r.group.cycleLength == NANOS * k.cycleLength
    && r.group.activatedAt.Some? && k.activatedAt == Seconds(r.group.activatedAt.value)
  }

  /** Every payment has been revealed on-chain, and every cycle settled on-chain has
      been settled by the service. Members may have revealed more than they paid
      through the service. */
  ghost predicate Behind(r: Rota, k: Storage) {
    && SameTerms(r, k) && OnChainOk(k)
    && (forall u, c :: Paid(r, u, c) ==> OnChainPaid(k, u, c))
    && (forall c :: OnChainSettled(k, c) ==> Settled(r, c))
  }

  /** Member u revealed on-chain a contribution to cycle c that never went through the service. */
  predicate Unserved(r: Rota, k: Storage, u: Id, c: int) {
    OnChainPaid(k, u, c) && !Paid(r, u, c)
  }

  /** Everything revealed on-chain went through the service. */
  ghost predicate AllServed(r: Rota, k: Storage) {
    forall u, c :: !Unserved(r, k, u, c)
  }

  /** Whatever the service has settled has been settled on-chain. */
  ghost predicate CaughtUp(r: Rota, k: Storage) {
    forall c :: Settled(r, c) ==> OnChainSettled(k, c)
  }

  // ----- what a lagging contract accepts -----

  lemma ActiveContract(r: Rota, k: Storage)
    requires Reachable(r) && Behind(r, k) && r.group.state == Active
    ensures k.state == Active
  {
    hide LedgerOk, Reachable;
    ActiveUntilLastSettled(r);
    ReachablePlan(r);
  }

  lemma ReachablePlan(r: Rota)
    requires Reachable(r) && r.group.activatedAt.Some?
    ensures r.group.state != Created
    ensures r.group.totalCycles == |r.group.payoutOrder| == |r.group.members| >= 2
    ensures Distinct(r.group.members) && r.group.amount > 0 && r.group.cycleLength > 0
    ensures forall c :: HasCycle(r, c) <==> InSchedule(r, c)
  {
    ReachableInv(r);
  }

  /** What the service would refuse and the contract does not know. */
  predicate Unheard(r: Rota, k: Storage, u: Id, c: int) {
    k.state == Active && u in r.group.members &&
    (!InSchedule(r, c) || (Settled(r, c) && !OnChainSettled(k, c)) || (r.group.state == Closed && !Settled(r, c)))
  }

  /** The contract accepts a contribution that has not been revealed yet exactly when
      the service would, or when it has not heard that it should not: the cycle is not
      in the schedule, or the service has settled it and the contract has not, or the
      service has closed the group over it and the contract has not. */
  lemma LaggingAcceptance(r: Rota, k: Storage, u: Id, c: nat)
    requires Reachable(r) && Behind(r, k)
    ensures MayContribute(k, u, c) <==>
            !OnChainPaid(k, u, c) && (CanContribute(r, u, c) || Unheard(r, k, u, c))
  {
    hide LedgerOk, Reachable;
    ReachablePlan(r);
    ActiveUntilLastSettled(r);
    if r.group.state == Active {
      ActiveContract(r, k);
    }
  }

  // ----- settling a cycle late -----

  /** Some member's contribution to cycle c reached the contract only. */
  ghost predicate RevealedLate(r: Rota, k: Storage, c: int) {
    exists u :: Unserved(r, k, u, c)
  }

  /** Every member has revealed a contribution to cycle c. */
  ghost predicate FullOnChain(k: Storage, c: int) {
    forall u :: u in k.members ==> OnChainPaid(k, u, c)
  }

  /** The contract's settlement would record for every user what the service recorded. */
  ghost predicate SameDefaults(r: Rota, k: Storage, c: nat) {
    forall u :: Sum(MissedRecords(k, c, |k.members|), EventsOf(ContributionMissed, u, c))
                == Tally(r, ContributionMissed, u, c)
  }

  function MembersPaid(k: Storage, c: nat): set<Id> {
    set u | u in k.members && (c, u) in k.contributions
  }

  /** What the contract has collected for a cycle is what the service holds for it, or
      more, and more exactly when somebody revealed on-chain only. */
  lemma CollectedAtLeast(r: Rota, k: Storage, c: nat)
    requires Reachable(r) && Behind(r, k)
    ensures Gross(r, c) <= Collected(k, c, |k.members|)
    ensures Gross(r, c) == Collected(k, c, |k.members|) <==> !RevealedLate(r, k, c)
  {
    hide Inv, Reachable, LedgerOk, Gross, Collected, PaidUsers, PaidKeys;
    ReachablePlan(r);
    ReachableInv(r);
    InvBasics(r);
    GrossIsPot(r, c);
    PaidCount(r, c);
    Census(k.members, PaidUsers(r, c));
    CollectedIsCensus(k, c, MembersPaid(k, c), |k.members|);
    MarksCompare(r, k, c);
    var a, x, y := k.amount, |PaidKeys(r, c)|, Range(|k.members|, Marks(k.members, MembersPaid(k, c)));
    PotCompare(a, x, y);
  }

  lemma PotCompare(a: int, x: int, y: int)
    requires a > 0 && x <= y
    ensures a * x <= a * y && (a * x == a * y <==> x == y)
  {
    assert a * y - a * x == a * (y - x);
  }

  lemma MarksCompare(r: Rota, k: Storage, c: nat)
    requires Behind(r, k)
    requires forall u :: u in PaidUsers(r, c) <==> Paid(r, u, c)
    ensures var n, f, g := |k.members|, Marks(k.members, PaidUsers(r, c)), Marks(k.members, MembersPaid(k, c));
            Range(n, f) <= Range(n, g) && (Range(n, f) == Range(n, g) <==> !RevealedLate(r, k, c))
  {
    hide LedgerOk, PaidUsers;
    var n, f, g := |k.members|, Marks(k.members, PaidUsers(r, c)), Marks(k.members, MembersPaid(k, c));
    RangeCompare(n, f, g);
    if RevealedLate(r, k, c) {
      var u :| Unserved(r, k, u, c);
      assert u in k.members;
      var i :| 0 <= i < n && k.members[i] == u;
      assert f(i) == 0 && g(i) == 1;
    } else {
      forall i | 0 <= i < n ensures f(i) == g(i) {
        assert !Unserved(r, k, k.members[i], c);
      }
    }
  }

  lemma OnChainMisses(k: Storage, c: nat, u: Id)
    requires Distinct(k.members)
    ensures Sum(MissedRecords(k, c, |k.members|), EventsOf(ContributionMissed, u, c))
            == if u in k.members && !OnChainPaid(k, u, c) then 1 else 0
  {
    MissedRecordsTally(k, c, |k.members|, ContributionMissed, u, c);
    PrefixWhole(k.members);
  }

  /** Settling on-chain, later, a cycle the service settled before its deadline. The
      payee is the same. The amount is the same exactly when nobody revealed a
      contribution on-chain only. The defaults recorded are the same exactly when the
      service recorded its own and nobody revealed on-chain only, or the service
      recorded none and everybody who was missing has revealed since. So amount and
      defaults both agree exactly when there was no short settlement and no reveal
      behind the service's back. */
  lemma LateSettlementExact(r: Rota, k: Storage, c: nat)
    requires Reachable(r) && Behind(r, k) && Settled(r, c)
    ensures c < |k.payoutOrder|
    ensures forall p :: p in r.payouts && p.cycle == c ==> p.payee == k.payoutOrder[c] && p.gross == Gross(r, c)
    ensures Gross(r, c) == Collected(k, c, |k.members|) <==> !RevealedLate(r, k, c)
    ensures SameDefaults(r, k, c) <==>
            if DefaultsRecorded(r, c) then !RevealedLate(r, k, c) else FullOnChain(k, c)
    ensures Gross(r, c) == Collected(k, c, |k.members|) && SameDefaults(r, k, c) <==>
            DefaultsRecorded(r, c) && !RevealedLate(r, k, c)
  {
    hide Inv, Reachable, LedgerOk, Gross, Collected, MissedRecords, SameDefaults, DefaultsRecorded, RevealedLate,
      FullOnChain, OnChainOk;
    ReachablePlan(r);
    ReachableInv(r);
    PayoutFacts(r, c);
    CollectedAtLeast(r, k, c);
    DefaultsCompare(r, k, c);
    NotBoth(r, k, c);
  }

  lemma PayoutFacts(r: Rota, c: nat)
    requires Inv(r) && r.group.state != Created && Settled(r, c)
    ensures InSchedule(r, c)
    ensures forall p :: p in r.payouts && p.cycle == c ==> p.payee == r.group.payoutOrder[c] && p.gross == Gross(r, c)
  {
    GrossIsPot(r, c);
    forall p | p in r.payouts && p.cycle == c ensures p.payee == r.group.payoutOrder[c] && p.gross == Gross(r, c) {
      assert PayoutOk(r, p);
    }
  }

  lemma SettledMisses(r: Rota, c: nat)
    requires Inv(r) && r.group.state != Created && Settled(r, c)
    ensures NoneMissed(r, c) || DefaultsRecorded(r, c)
  {
    assert InSchedule(r, c) && CycleOk(r, c);
  }

  lemma DefaultsCompare(r: Rota, k: Storage, c: nat)
    requires Inv(r) && r.group.state != Created && Behind(r, k) && Settled(r, c)
    ensures SameDefaults(r, k, c) <==>
            if DefaultsRecorded(r, c) then !RevealedLate(r, k, c) else FullOnChain(k, c)
  {
    hide Inv, LedgerOk, MissedRecords, Tally, NoneMissed, DefaultsRecorded, SameDefaults;
    SettledMisses(r, c);
    OnChainDefaults(r, k, c);
    if DefaultsRecorded(r, c) {
      RecordedTallies(r, c);
      if RevealedLate(r, k, c) {
        var u :| Unserved(r, k, u, c);
        assert u in k.members;
        assert Tally(r, ContributionMissed, u, c) == 1 && OnChainPaid(k, u, c);
      } else {
        forall u
          ensures Tally(r, ContributionMissed, u, c) == if u in k.members && !OnChainPaid(k, u, c) then 1 else 0
        {
          assert !Unserved(r, k, u, c);
        }
      }
    } else {
      MissedTallies(r, c);
    }
  }

  lemma OnChainDefaults(r: Rota, k: Storage, c: nat)
    requires Distinct(k.members)
    ensures SameDefaults(r, k, c) <==>
            forall u :: Tally(r, ContributionMissed, u, c) == if u in k.members && !OnChainPaid(k, u, c) then 1 else 0
  {
    hide MissedRecords, Tally, Sum;
    forall u ensures Sum(MissedRecords(k, c, |k.members|), EventsOf(ContributionMissed, u, c))
                     == if u in k.members && !OnChainPaid(k, u, c) then 1 else 0 {
      OnChainMisses(k, c, u);
    }
  }

  lemma RecordedTallies(r: Rota, c: int)
    requires DefaultsRecorded(r, c)
    ensures forall u :: Tally(r, ContributionMissed, u, c) == if u in r.group.members && !Paid(r, u, c) then 1 else 0
  {
    hide Tally;
  }

  lemma MissedTallies(r: Rota, c: int)
    requires NoneMissed(r, c)
    ensures forall u :: Tally(r, ContributionMissed, u, c) == 0
  {
    hide Tally;
  }

  lemma NotBoth(r: Rota, k: Storage, c: nat)
    requires Inv(r) && r.group.state != Created && Behind(r, k) && Settled(r, c)
    ensures !DefaultsRecorded(r, c) && FullOnChain(k, c) ==> RevealedLate(r, k, c)
  {
    SettledMisses(r, c);
    hide Inv, LedgerOk;
    if !DefaultsRecorded(r, c) && FullOnChain(k, c) {
      UnrecordedDefault(r, c);
      var m :| m in r.group.members && !Paid(r, m, c);
      assert Unserved(r, k, m, c);
    }
  }

  // ----- following the service -----

  /** Nothing settled in between, on the same schedule. */
  predicate SamePlan(k: Storage, after: Storage) {
    && after.settled == k.settled && after.payoutOrder == k.payoutOrder
    && after.cycleLength == k.cycleLength && after.activatedAt == k.activatedAt
  }

  /** What the contract does while the service takes a step: it takes a contribution, if
      it does not have it already, and leaves every settlement for later. */
  function Follow(r: Rota, k: Storage, s: Step): seq<Call> {
    if s.ContributeStep? && s.cycle >= 0 && Allowed(r, s) && !OnChainPaid(k, s.user, s.cycle)
    then [Reveal(s.user, s.cycle)] else []
  }

  lemma {:induction false} DrainPays(r: Rota, now: Time)
    ensures Drain(r, now).0.contributions == r.contributions && Drain(r, now).0.group.id == r.group.id
    decreases |OpenCycles(r)|
  {
    hide Drain, SettleOverdue, Due;
    if c :| Due(r, c, now) {
      DrainUnfold(r, now, c);
      OverduePays(r, c);
      DrainPays(SettleOverdue(r, c), now);
    } else {
      DrainStops(r, now);
    }
  }

  lemma OverduePays(r: Rota, c: int)
    requires CanSettle(r, c)
    ensures SettleOverdue(r, c).contributions == r.contributions && SettleOverdue(r, c).group.id == r.group.id
  {
  }

  /** Who has paid what after a step. */
  lemma StepPays(r: Rota, s: Step, u: Id, c: int)
    requires r.group.state != Created
    ensures Paid(Apply(r, s), u, c) <==>
            Paid(r, u, c) || (s.ContributeStep? && Allowed(r, s) && s.user == u && s.cycle == c)
  {
    hide Drain;
    if s.DeadlineStep? {
      DrainPays(r, s.now);
    }
  }

  /** Every step of the service can be followed at once, and keeps the contract behind it. */
  lemma StepFollowed(r: Rota, k: Storage, s: Step) returns (after: Storage)
    requires Reachable(r) && Behind(r, k)
    ensures AcceptedRun(k, Follow(r, k, s), after)
    ensures Behind(Apply(r, s), after)
    ensures SamePlan(k, after) && (AllServed(r, k) ==> AllServed(Apply(r, s), after))
  {
    hide Reachable, LedgerOk, Apply;
    ReachablePlan(r);
    after := k;
    if Follow(r, k, s) != [] {
      var c: nat := s.cycle;
      LaggingAcceptance(r, k, s.user, c);
      after := Revealed(k, s.user, c);
      OneCall(k, Reveal(s.user, c));
      CallKeepsBooks(k, Reveal(s.user, c));
    }
    LifecycleIsOneWay(r, s);
    SettledStays(r, s);
    forall u, c ensures Paid(Apply(r, s), u, c) <==>
                        Paid(r, u, c) || (s.ContributeStep? && Allowed(r, s) && s.user == u && s.cycle == c) {
      StepPays(r, s, u, c);
    }
    AllowedCycle(r, s);
    FollowedState(r, k, s, after);
  }

  lemma AllowedCycle(r: Rota, s: Step)
    requires forall c :: HasCycle(r, c) <==> InSchedule(r, c)
    ensures s.ContributeStep? && Allowed(r, s) ==> s.cycle >= 0
  {
  }

  lemma SettledStays(r: Rota, s: Step)
    requires Reachable(r)
    ensures forall c :: Settled(r, c) ==> Settled(Apply(r, s), c)
  {
    hide Reachable, Apply, DefaultsRecorded;
    forall c | Settled(r, c) ensures Settled(Apply(r, s), c) {
      RecordedThroughout(r, s, c);
    }
  }

  lemma FollowedState(r: Rota, k: Storage, s: Step, after: Storage)
    requires Behind(r, k) && OnChainOk(after)
    requires after == if Follow(r, k, s) == [] then k else Revealed(k, s.user, s.cycle)
    requires s.ContributeStep? && Allowed(r, s) ==> s.cycle >= 0
    requires var g, h := r.group, Apply(r, s).group;
             && (h.id, h.organizer, h.amount, h.cycleLength) == (g.id, g.organizer, g.amount, g.cycleLength)
             && h.members == g.members && h.payoutOrder == g.payoutOrder && h.activatedAt == g.activatedAt
    requires forall c :: Settled(r, c) ==> Settled(Apply(r, s), c)
    requires forall u, c :: Paid(Apply(r, s), u, c) <==>
                            Paid(r, u, c) || (s.ContributeStep? && Allowed(r, s) && s.user == u && s.cycle == c)
    ensures Behind(Apply(r, s), after)
    ensures SamePlan(k, after) && (AllServed(r, k) ==> AllServed(Apply(r, s), after))
  {
    hide OnChainOk, Apply, Allowed;
    var t := Apply(r, s);
    forall u, c ensures OnChainPaid(after, u, c) <==>
                        OnChainPaid(k, u, c) || (Follow(r, k, s) != [] && s.user == u && s.cycle == c) {}
    if AllServed(r, k) {
      forall u, c ensures !Unserved(t, after, u, c) {
        assert !Unserved(r, k, u, c);
      }
    }
  }

  /** How the contract comes to accept what the service refuses: the organizer settles a
      cycle by hand, and a member who was missing reveals afterwards. */
  lemma RevealAfterSettlement(r: Rota, k: Storage, u: Id, c: nat)
    requires Reachable(r) && Behind(r, k) && r.group.state == Active && CanSettle(r, c)
    requires u in r.group.members && !OnChainPaid(k, u, c)
    ensures var s := Apply(r, SettleStep(c));
            && Behind(s, k) && InSchedule(s, c) && !CanContribute(s, u, c)
            && MayContribute(k, u, c) && Behind(s, Revealed(k, u, c)) && RevealedLate(s, Revealed(k, u, c), c)
            && Gross(s, c) < Collected(Revealed(k, u, c), c, |k.members|)
  {
    hide Reachable, LedgerOk, Gross, Collected;
    ReachablePlan(r);
    ActiveContract(r, k);
    var s := Apply(r, SettleStep(c));
    ReachableStep(r, SettleStep(c));
    var same := StepFollowed(r, k, SettleStep(c));
    assert same == k;
    StepPays(r, SettleStep(c), u, c);
    CallStaysBehind(s, k, Reveal(u, c));
    assert Unserved(s, Revealed(k, u, c), u, c);
    CollectedAtLeast(s, Revealed(k, u, c), c);
  }

  /** Every run of the service can be followed by a run of accepted reveals. */
  lemma {:induction false} RunFollowed(r: Rota, k: Storage, steps: seq<Step>) returns (calls: seq<Call>, after: Storage)
    requires Reachable(r) && Behind(r, k)
    ensures AcceptedRun(k, calls, after) && Behind(Run(r, steps), after)
    ensures SamePlan(k, after) && (AllServed(r, k) ==> AllServed(Run(r, steps), after))
  {
    hide Reachable, Behind, AllServed, Apply, Follow;
    if steps == [] {
      calls, after := [], k;
    } else {
      var init, last := steps[..|steps| - 1], steps[|steps| - 1];
      var before, middle := RunFollowed(r, k, init);
      ReachableRun(r, init);
      after := StepFollowed(Run(r, init), middle, last);
      calls := before + Follow(Run(r, init), middle, last);
      RunsConcat(k, before, middle, Follow(Run(r, init), middle, last), after);
    }
  }

  // ----- catching up -----

  /** All deadlines of the schedule have passed by then, in a time stamp of 64 bits. */
  predicate AllDue(k: Storage, timestamp: nat) {
    k.activatedAt + |k.payoutOrder| * k.cycleLength <= timestamp < U64
  }

  lemma DueByThen(k: Storage, c: nat, timestamp: nat)
    requires AllDue(k, timestamp) && c < |k.payoutOrder| && k.cycleLength > 0
    ensures CycleDeadline(k, c).Some? && CycleDeadline(k, c).value <= timestamp
  {
    SpanBounds(|k.payoutOrder|, c + 1, k.cycleLength);
    assert U64 < U256;
  }

  lemma SpanBounds(n: nat, c: nat, length: nat)
    requires c <= n && length > 0
    ensures c <= c * length <= n * length
  {
    TimesGrows(n - c, length);
    assert n * length == c * length + (n - c) * length;
    TimesGrows(c, length - 1);
    assert c * length == c + c * (length - 1);
  }

  lemma TimesGrows(a: nat, b: nat)
    ensures a * b >= 0
  {
  }

  /** Whoever calls it: the contract stays behind the service as long as it settles only
      what the service has settled. */
  lemma CallStaysBehind(r: Rota, k: Storage, call: Call)
    requires Behind(r, k) && MayCall(k, call)
    requires call.SettleAt? ==> Settled(r, call.cycle)
    ensures Behind(r, AfterCall(k, call))
  {
    hide OnChainOk;
    CallKeepsBooks(k, call);
    var after := AfterCall(k, call);
    assert forall u, c :: OnChainPaid(k, u, c) ==> OnChainPaid(after, u, c);
  }

  /** The contract may settle whatever the service has settled, and stays behind it. */
  lemma SettleFollows(r: Rota, k: Storage, c: nat, timestamp: nat)
    requires Reachable(r) && Behind(r, k) && k.state == Active
    requires Settled(r, c) && !OnChainSettled(k, c) && AllDue(k, timestamp)
    ensures MayCall(k, SettleAt(c, timestamp))
    ensures var after := AfterCall(k, SettleAt(c, timestamp));
            && Behind(r, after) && after.settled == k.settled + {c} && after.contributions == k.contributions
            && AllDue(after, timestamp)
  {
    hide Reachable, LedgerOk;
    ReachablePlan(r);
    assert k.cycleLength > 0;
    DueByThen(k, c, timestamp);
    CallStaysBehind(r, k, SettleAt(c, timestamp));
  }

  /** Settling in index order from cycle i on. */
  lemma {:induction false} CatchUpFrom(r: Rota, k: Storage, i: nat, timestamp: nat)
      returns (calls: seq<Call>, after: Storage)
    requires Reachable(r) && Behind(r, k) && AllDue(k, timestamp)
    requires k.state == Active || CaughtUp(r, k)
    requires i <= |k.payoutOrder| && forall c :: c < i && Settled(r, c) ==> OnChainSettled(k, c)
    ensures AcceptedRun(k, calls, after) && Behind(r, after) && CaughtUp(r, after)
    ensures after.contributions == k.contributions
    decreases |k.payoutOrder| - i
  {
    hide Reachable, LedgerOk, MayCall, AfterCall, AllDue;
    ReachablePlan(r);
    if i == |k.payoutOrder| || CaughtUp(r, k) {
      calls, after := [], k;
    } else if Settled(r, i) && !OnChainSettled(k, i) {
      var call := SettleAt(i, timestamp);
      SettleFollows(r, k, i, timestamp);
      var rest;
      rest, after := CatchUpFrom(r, AfterCall(k, call), i + 1, timestamp);
      calls := [call] + rest;
      assert calls[1..] == rest;
    } else {
      calls, after := CatchUpFrom(r, k, i + 1, timestamp);
    }
  }

  /** Once every deadline has passed the contract can catch up with the service exactly
      when it is still ACTIVE or has nothing to catch up with. */
  lemma CatchUpExactly(r: Rota, k: Storage, timestamp: nat)
    requires Reachable(r) && Behind(r, k) && AllDue(k, timestamp)
    ensures (exists calls, after :: AcceptedRun(k, calls, after) && Behind(r, after) && CaughtUp(r, after))
            <==> k.state == Active || CaughtUp(r, k)
  {
    hide Reachable, Behind, CaughtUp, AllDue;
    if k.state == Active || CaughtUp(r, k) {
      StartOfSchedule(r, k);
      var calls, after := CatchUpFrom(r, k, 0, timestamp);
    }
    if calls, after :| AcceptedRun(k, calls, after) && Behind(r, after) && CaughtUp(r, after) {
      if k.state != Active {
        ClosedAcceptsNothing(k, calls, after);
      }
    }
  }

  lemma StartOfSchedule(r: Rota, k: Storage)
    requires Reachable(r) && Behind(r, k)
    ensures forall c :: c < 0 && Settled(r, c) ==> OnChainSettled(k, c)
  {
    hide Reachable;
    ReachablePlan(r);
  }

  lemma ClosedAcceptsNothing(k: Storage, calls: seq<Call>, after: Storage)
    requires k.state != Active && AcceptedRun(k, calls, after)
    ensures after == k
  {
  }

  // ----- the ledgers -----

  /** The two logs agree, kind by kind, user by user, cycle by cycle. */
  ghost predicate TalliesAgree(r: Rota, k: Storage) {
    forall kind, u, c :: Tally(r, kind, u, c) == Recorded(k, kind, u, c)
  }

  /** The defaults of every settled cycle are on record. */
  ghost predicate AllRecorded(r: Rota) {
    forall c :: Settled(r, c) ==> DefaultsRecorded(r, c)
  }

  lemma UnscheduledTally(r: Rota, kind: EventKind, u: Id, c: int)
    requires Inv(r) && r.group.state != Created
    requires !InSchedule(r, c) || kind == GroupExit || kind == GroupExpulsion
    ensures Tally(r, kind, u, c) == 0
  {
    forall e | e in r.events ensures EventsOf(kind, u, c)(e) == 0 * EventsOf(kind, u, c)(e) {
      assert EventOk(r, e);
    }
    SumScale(r.events, EventsOf(kind, u, c), EventsOf(kind, u, c), 0);
  }

  lemma OpenPayoutTally(r: Rota, u: Id, c: int)
    requires Inv(r) && r.group.state != Created && InSchedule(r, c) && !Settled(r, c)
    ensures Tally(r, PayoutReceived, u, c) == 0
  {
    forall e | e in r.events ensures EventsOf(PayoutReceived, u, c)(e) == 0 * EventsOf(PayoutReceived, u, c)(e) {
      assert EventOk(r, e);
    }
    SumScale(r.events, EventsOf(PayoutReceived, u, c), EventsOf(PayoutReceived, u, c), 0);
  }

  /** What the service's log holds of each kind. */
  lemma ServiceTallies(r: Rota, u: Id, c: int)
    requires Inv(r) && r.group.state != Created
    ensures Tally(r, ContributionMade, u, c) == if Paid(r, u, c) && InSchedule(r, c) then 1 else 0
    ensures Tally(r, PayoutReceived, u, c) ==
            if InSchedule(r, c) && Settled(r, c) && r.group.payoutOrder[c] == u then 1 else 0
    ensures Tally(r, GroupExit, u, c) == Tally(r, GroupExpulsion, u, c) == 0
    ensures !(InSchedule(r, c) && Settled(r, c)) ==> Tally(r, ContributionMissed, u, c) == 0
  {
    UnscheduledTally(r, GroupExit, u, c);
    UnscheduledTally(r, GroupExpulsion, u, c);
    if InSchedule(r, c) {
      assert CycleOk(r, c);
      if Settled(r, c) {
        PayoutTally(r, u, c);
      } else {
        OpenPayoutTally(r, u, c);
      }
    } else {
      UnscheduledTally(r, ContributionMade, u, c);
      UnscheduledTally(r, ContributionMissed, u, c);
      UnscheduledTally(r, PayoutReceived, u, c);
    }
  }

  lemma PaidInSchedule(r: Rota, u: Id, c: int)
    requires Inv(r) && Paid(r, u, c)
    ensures InSchedule(r, c)
  {
  }

  /** The logs of a contract that has caught up agree with the service's exactly when
      every default was recorded and nothing was revealed on-chain only. */
  lemma TalliesAgreeExactly(r: Rota, k: Storage)
    requires Reachable(r) && Behind(r, k) && CaughtUp(r, k)
    ensures TalliesAgree(r, k) <==> AllRecorded(r) && AllServed(r, k)
  {
    hide Inv, Reachable, LedgerOk, DefaultsRecorded;
    ReachablePlan(r);
    ReachableInv(r);
    forall u, c ensures KindsAgree(r, k, u, c) <==>
                        !Unserved(r, k, u, c) && (Settled(r, c) ==> DefaultOk(r, u, c)) {
      UserCycleAgrees(r, k, u, c);
    }
    hide Behind, CaughtUp;
    forall c ensures DefaultsRecorded(r, c) <==> forall u :: DefaultOk(r, u, c) {
      DefaultsByUser(r, c);
    }
    forall u, c ensures KindsAgree(r, k, u, c) <==> forall kind :: Tally(r, kind, u, c) == Recorded(k, kind, u, c) {
      KindByKind(r, k, u, c);
    }
    AgreeByUserAndCycle(r, k);
  }

  /** The service's record of u's default on cycle c is right. */
  predicate DefaultOk(r: Rota, u: Id, c: int) {
    Tally(r, ContributionMissed, u, c) == if u in r.group.members && !Paid(r, u, c) then 1 else 0
  }

  lemma DefaultsByUser(r: Rota, c: int)
    ensures DefaultsRecorded(r, c) <==> forall u :: DefaultOk(r, u, c)
  {
    if forall u :: DefaultOk(r, u, c) {
      forall u ensures Tally(r, ContributionMissed, u, c) == if u in r.group.members && !Paid(r, u, c) then 1 else 0 {
        assert DefaultOk(r, u, c);
      }
    }
    if DefaultsRecorded(r, c) {
      forall u ensures DefaultOk(r, u, c) {
        assert Tally(r, ContributionMissed, u, c) == if u in r.group.members && !Paid(r, u, c) then 1 else 0;
      }
    }
  }

  ghost predicate KindsAgree(r: Rota, k: Storage, u: Id, c: int) {
    && Tally(r, ContributionMade, u, c) == Recorded(k, ContributionMade, u, c)
    && Tally(r, ContributionMissed, u, c) == Recorded(k, ContributionMissed, u, c)
    && Tally(r, PayoutReceived, u, c) == Recorded(k, PayoutReceived, u, c)
    && Tally(r, GroupExit, u, c) == Recorded(k, GroupExit, u, c)
    && Tally(r, GroupExpulsion, u, c) == Recorded(k, GroupExpulsion, u, c)
  }

  lemma KindByKind(r: Rota, k: Storage, u: Id, c: int)
    ensures KindsAgree(r, k, u, c) <==> forall kind :: Tally(r, kind, u, c) == Recorded(k, kind, u, c)
  {
    hide Tally, Recorded;
    if KindsAgree(r, k, u, c) {
      forall kind ensures Tally(r, kind, u, c) == Recorded(k, kind, u, c) {
        match kind {
          case ContributionMade =>
          case ContributionMissed =>
          case PayoutReceived =>
          case GroupExit =>
          case GroupExpulsion =>
        }
      }
    }
  }

  lemma UserCycleAgrees(r: Rota, k: Storage, u: Id, c: int)
    requires Inv(r) && r.group.state != Created && Behind(r, k) && CaughtUp(r, k)
    requires forall d :: HasCycle(r, d) <==> InSchedule(r, d)
    ensures KindsAgree(r, k, u, c) <==> !Unserved(r, k, u, c) && (Settled(r, c) ==> DefaultOk(r, u, c))
  {
    hide Inv, LedgerOk;
    ServiceTallies(r, u, c);
    if Paid(r, u, c) {
      PaidInSchedule(r, u, c);
    }
    assert OnChainSettled(k, c) <==> Settled(r, c);
    assert Settled(r, c) ==> InSchedule(r, c);
  }

  lemma AgreeByUserAndCycle(r: Rota, k: Storage)
    requires forall u, c :: KindsAgree(r, k, u, c) <==>
                            !Unserved(r, k, u, c) && (Settled(r, c) ==> DefaultOk(r, u, c))
    requires forall c :: DefaultsRecorded(r, c) <==> forall u :: DefaultOk(r, u, c)
    requires forall u, c :: KindsAgree(r, k, u, c) <==> forall kind :: Tally(r, kind, u, c) == Recorded(k, kind, u, c)
    ensures TalliesAgree(r, k) <==> AllRecorded(r) && AllServed(r, k)
  {
    hide KindsAgree, Tally, Recorded, Unserved, DefaultOk, DefaultsRecorded, Settled;
    if TalliesAgree(r, k) {
      forall u, c ensures KindsAgree(r, k, u, c) {
        assert forall kind :: Tally(r, kind, u, c) == Recorded(k, kind, u, c);
      }
      forall c | Settled(r, c) ensures DefaultsRecorded(r, c) {
        assert forall u :: KindsAgree(r, k, u, c);
      }
      forall u, c ensures !Unserved(r, k, u, c) {
        assert KindsAgree(r, k, u, c);
      }
    }
    if AllRecorded(r) && AllServed(r, k) {
      forall kind, u, c ensures Tally(r, kind, u, c) == Recorded(k, kind, u, c) {
        assert KindsAgree(r, k, u, c);
      }
    }
  }

  // ----- from tallies to the ledgers themselves -----

  /** A log all of whose records of one kind, user and cycle are alike. */
  lemma CopiesOf(log: seq<Event>, e: Event, like: bool)
    requires forall x :: x in log && EventsOf(e.kind, e.user, e.cycle)(x) == 1 ==> (x == e <==> like)
    ensures multiset(log)[e] == if like then Sum(log, EventsOf(e.kind, e.user, e.cycle)) else 0
  {
    CountIsSum(log, e);
    var w, one := EventsOf(e.kind, e.user, e.cycle), if like then 1 else 0;
    forall x | x in log ensures Is(e)(x) == one * w(x) {
      if x == e {
        assert w(x) == 1;
      }
    }
    SumScale(log, Is(e), w, one);
  }

  /** The event the contract's books allow of a kind, user and cycle. */
  predicate Genuine(k: Storage, e: Event) {
    e.group == k.self && e.amount == RecordedAmount(k, e.kind, e.cycle)
  }

  lemma OnChainCopies(k: Storage, e: Event)
    requires OnChainOk(k)
    ensures multiset(k.ledger)[e] == if Genuine(k, e) then Recorded(k, e.kind, e.user, e.cycle) else 0
  {
    hide RecordedAmount, Recorded;
    forall x | x in k.ledger && EventsOf(e.kind, e.user, e.cycle)(x) == 1 ensures x == e <==> Genuine(k, e) {
      assert RecordOk(k, x);
    }
    CopiesOf(k.ledger, e, Genuine(k, e));
  }

  lemma ServiceCopies(r: Rota, k: Storage, e: Event)
    requires Reachable(r) && Behind(r, k) && AllServed(r, k)
    ensures multiset(r.events)[e] == if Genuine(k, e) then Tally(r, e.kind, e.user, e.cycle) else 0
  {
    hide Inv, Reachable, LedgerOk, RecordedAmount, BooksOk, RosterOk, ScheduleOk;
    ReachablePlan(r);
    ReachableInv(r);
    forall x | x in r.events && EventsOf(e.kind, e.user, e.cycle)(x) == 1 ensures x == e <==> Genuine(k, e) {
      EventGenuine(r, k, x);
    }
    CopiesOf(r.events, e, Genuine(k, e));
  }

  lemma EventGenuine(r: Rota, k: Storage, x: Event)
    requires Reachable(r) && Inv(r) && r.group.state != Created && Behind(r, k) && AllServed(r, k) && x in r.events
    ensures Genuine(k, x)
  {
    hide LedgerOk, Reachable, Collected, Gross;
    assert EventOk(r, x);
    if x.kind == PayoutReceived {
      CollectedAtLeast(r, k, x.cycle);
      GrossIsPot(r, x.cycle);
      assert !RevealedLate(r, k, x.cycle);
    }
  }

  /** A contract that has caught up holds the very records of the service's log, each as
      often, exactly when every default was recorded and nothing was revealed on-chain
      only. */
  lemma LedgersAgreeExactly(r: Rota, k: Storage)
    requires Reachable(r) && Behind(r, k) && CaughtUp(r, k)
    ensures multiset(k.ledger) == multiset(r.events) <==> AllRecorded(r) && AllServed(r, k)
  {
    hide Reachable, Behind, CaughtUp, AllRecorded, AllServed, Tally, Recorded, Genuine;
    TalliesAgreeExactly(r, k);
    if multiset(k.ledger) == multiset(r.events) {
      forall kind, u, c ensures Tally(r, kind, u, c) == Recorded(k, kind, u, c) {
        TallyFromBag(r, k, kind, u, c);
      }
    }
    if AllRecorded(r) && AllServed(r, k) {
      forall e ensures multiset(k.ledger)[e] == multiset(r.events)[e] {
        BehindIsOk(r, k);
        OnChainCopies(k, e);
        ServiceCopies(r, k, e);
        assert Tally(r, e.kind, e.user, e.cycle) == Recorded(k, e.kind, e.user, e.cycle);
      }
    }
  }

  lemma BehindIsOk(r: Rota, k: Storage)
    requires Behind(r, k)
    ensures OnChainOk(k)
  {
  }

  lemma TallyFromBag(r: Rota, k: Storage, kind: EventKind, u: Id, c: int)
    requires Behind(r, k) && multiset(k.ledger) == multiset(r.events)
    ensures Tally(r, kind, u, c) == Recorded(k, kind, u, c)
  {
    hide Recorded;
    SumPermuted(k.ledger, r.events, EventsOf(kind, u, c));
    assert Sum(k.ledger, EventsOf(kind, u, c)) == Recorded(k, kind, u, c);
  }

  // ----- whole runs -----

  /** No settlement by hand with somebody missing anywhere in the run. */
  ghost predicate NoShortSettlement(r: Rota, steps: seq<Step>) {
    forall c, n :: 0 <= n < |steps| ==> !ShortSettlement(Run(r, steps[..n]), steps[n], c)
  }

  lemma RecordedOverRun(r: Rota, steps: seq<Step>)
    requires Reachable(r) && forall c :: !Settled(r, c)
    ensures AllRecorded(Run(r, steps)) <==> NoShortSettlement(r, steps)
  {
    hide Reachable, Run, DefaultsRecorded, ShortSettlement, Settled;
    forall c | Settled(Run(r, steps), c)
      ensures DefaultsRecorded(Run(r, steps), c) <==>
              forall n :: 0 <= n < |steps| ==> !ShortSettlement(Run(r, steps[..n]), steps[n], c)
    {
      SettledCyclesRecorded(r, steps, c);
    }
    forall c, n | 0 <= n < |steps| && ShortSettlement(Run(r, steps[..n]), steps[n], c)
      ensures Settled(Run(r, steps), c)
    {
      StaysSettled(r, steps, n, c);
    }
    if AllRecorded(Run(r, steps)) {
      forall c, n | 0 <= n < |steps| ensures !ShortSettlement(Run(r, steps[..n]), steps[n], c) {
        assert Settled(Run(r, steps), c) ==> DefaultsRecorded(Run(r, steps), c);
      }
    }
  }

  /** The contract activated together with the group starts behind it, with nothing to
      catch up with. */
  lemma ActivationFollowed(r: Rota, order: seq<Id>, now: Time, length: nat)
    requires Reachable(r) && CanActivate(r, order)
    requires r.group.cycleLength == NANOS * length && 0 <= Seconds(now) < U64
    ensures var s := Apply(r, ActivateStep(order, now));
            var chosen := if order == [] then r.group.members else order;
            var k := Activated(Deployed(r.group, length), chosen, Seconds(now));
            && Reachable(s) && Behind(s, k) && AllServed(s, k)
            && (forall c :: !Settled(s, c))
  {
    hide Reachable, LedgerOk;
    var s := Apply(r, ActivateStep(order, now));
    var d := Deployed(r.group, length);
    ReachableStep(r, ActivateStep(order, now));
    ActivationMirrors(r, order, now, length);
    ReachableInv(r);
    FreshBooks(d, if order == [] then r.group.members else order, Seconds(now));
    forall c ensures !Settled(s, c) {
      ActivationSettlesNothing(r, order, now, c);
    }
  }

  /** Any run of the service from an activation on, early settlements included, has a run
      of accepted contract calls that reveals every contribution when it is made and
      settles, once all deadlines have passed, what the service has settled. The two
      end with the same settled cycles and the same state, and with the same ledger
      records exactly when the run has no short settlement. */
  lemma WholeRunFollowed(r: Rota, k: Storage, steps: seq<Step>, timestamp: nat)
      returns (calls: seq<Call>, after: Storage)
    requires Reachable(r) && Behind(r, k) && AllServed(r, k) && (forall c :: !Settled(r, c))
    requires AllDue(k, timestamp)
    ensures AcceptedRun(k, calls, after)
    ensures var end := Run(r, steps);
            && (forall c :: OnChainSettled(after, c) <==> Settled(end, c))
            && after.state == end.group.state
            && (multiset(after.ledger) == multiset(end.events) <==> NoShortSettlement(r, steps))
  {
    hide Reachable, Behind, CaughtUp, AllServed, AllDue, Run, NoShortSettlement;
    var shown, middle := RunFollowed(r, k, steps);
    var end := Run(r, steps);
    ReachableRun(r, steps);
    ReadyToSettle(r, k, end, middle, timestamp);
    StartOfSchedule(end, middle);
    var settles;
    settles, after := CatchUpFrom(end, middle, 0, timestamp);
    calls := shown + settles;
    RunsConcat(k, shown, middle, settles, after);
    StillServed(end, middle, after);
    SettledAlike(end, after);
    LedgersAgreeExactly(end, after);
    RecordedOverRun(r, steps);
  }

  /** The same cycles settled and the same state. */
  ghost predicate SameOutcome(r: Rota, k: Storage) {
    (forall c :: OnChainSettled(k, c) <==> Settled(r, c)) && k.state == r.group.state
  }

  /** From activation: whatever the service does with a group, its contract can be made
      to do too, and the ledgers come out the same if and only if nobody was settled by
      hand short of a contribution. */
  lemma EveryRunSettlesOnChain(r: Rota, order: seq<Id>, now: Time, length: nat, steps: seq<Step>, timestamp: nat)
    requires Reachable(r) && CanActivate(r, order) && r.group.cycleLength == NANOS * length
    requires 0 <= Seconds(now) && Seconds(now) + |r.group.members| * length <= timestamp < U64
    ensures var chosen := if order == [] then r.group.members else order;
            var k := Storage(r.group.id, r.group.organizer, r.group.amount, length, r.group.members, Active,
                             now / 1_000_000_000, chosen, map[], {}, []);
            var start := Apply(r, ActivateStep(order, now));
            var end := Run(start, steps);
            exists calls, after ::
              && AcceptedRun(k, calls, after) && SameOutcome(end, after)
              && (multiset(after.ledger) == multiset(end.events) <==> NoShortSettlement(start, steps))
  {
    hide Reachable, Behind, AllServed, Run, NoShortSettlement, AcceptedRun, Apply;
    ClockFits(|r.group.members|, length);
    ActivationFollowed(r, order, now, length);
    var chosen := if order == [] then r.group.members else order;
    var k := Activated(Deployed(r.group, length), chosen, Seconds(now));
    ActivationMirrors(r, order, now, length);
    var start := Apply(r, ActivateStep(order, now));
    var calls, after := WholeRunFollowed(start, k, steps, timestamp);
  }

  lemma ClockFits(n: nat, length: nat)
    ensures n * length >= 0
  {
  }

  lemma ReadyToSettle(r: Rota, k: Storage, end: Rota, middle: Storage, timestamp: nat)
    requires Behind(r, k) && (forall c :: !Settled(r, c)) && AllDue(k, timestamp)
    requires Behind(end, middle) && SamePlan(k, middle)
    ensures middle.state == Active && AllDue(middle, timestamp)
  {
    hide LedgerOk;
    assert forall c :: c in k.settled ==> OnChainSettled(k, c);
  }

  lemma StillServed(r: Rota, k: Storage, after: Storage)
    requires AllServed(r, k) && after.contributions == k.contributions
    ensures AllServed(r, after)
  {
    forall u, c ensures !Unserved(r, after, u, c) {
      assert !Unserved(r, k, u, c);
    }
  }

  lemma SettledAlike(r: Rota, k: Storage)
    requires Reachable(r) && Behind(r, k) && CaughtUp(r, k)
    ensures forall c :: OnChainSettled(k, c) <==> Settled(r, c)
    ensures k.state == r.group.state
  {
    hide Reachable, LedgerOk;
    ReachablePlan(r);
    ActiveUntilLastSettled(r);
    StateIsTwoValued(r);
  }

  lemma StateIsTwoValued(r: Rota)
    requires Reachable(r) && r.group.activatedAt.Some?
    ensures r.group.state == Active || r.group.state == Closed
  {
    ReachableInv(r);
  }
}
