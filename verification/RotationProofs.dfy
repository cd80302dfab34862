/** Every step of a group keeps its invariant. */
module RotationProofs {
  import opened Domain
  import opened Sums
  import opened Rotation

  // ----- facts about observations -----

  lemma {:induction false} AmountsPick(cs: map<ContribKey, Contribution>, ks: set<ContribKey>, k: ContribKey)
    requires ks <= cs.Keys && k in ks
    ensures Amounts(cs, ks) == cs[k].amount + Amounts(cs, ks - {k})
    decreases |ks|
  {
    var j :| j in ks && Amounts(cs, ks) == cs[j].amount + Amounts(cs, ks - {j});
    if j != k {
      AmountsPick(cs, ks - {j}, k);
      AmountsPick(cs, ks - {k}, j);
      assert ks - {j} - {k} == ks - {k} - {j};
    }
  }

  lemma {:induction false} AmountsUniform(cs: map<ContribKey, Contribution>, ks: set<ContribKey>, a: Money)
    requires ks <= cs.Keys
    requires forall k :: k in ks ==> cs[k].amount == a
    ensures Amounts(cs, ks) == a * |ks|
    decreases |ks|
  {
    if ks != {} {
      var k :| k in ks;
      AmountsPick(cs, ks, k);
      AmountsUniform(cs, ks - {k}, a);
    }
  }

  /** In a reachable group what a cycle holds is its pot. */
  lemma GrossIsPot(r: Rota, c: int)
    requires forall k :: k in r.contributions ==> ContributionOk(r, k)
    ensures Gross(r, c) == Pot(r, c)
  {
    AmountsUniform(r.contributions, PaidKeys(r, c), r.group.amount);
  }

  /** Counting the contributions of a cycle counts the people who paid it. */
  lemma PaidCount(r: Rota, c: int)
    requires forall k :: k in r.contributions ==> ContributionOk(r, k)
    ensures |PaidUsers(r, c)| == |PaidKeys(r, c)|
    ensures PaidUsers(r, c) <= SetOf(r.group.members)
    ensures forall u :: u in PaidUsers(r, c) <==> Paid(r, u, c)
  {
    forall u | Paid(r, u, c) ensures u in PaidUsers(r, c) {
      assert ContribKey(r.group.id, u, c) in PaidKeys(r, c);
    }
    UsersOfKeys(PaidKeys(r, c), r.group.id, c);
  }

  lemma {:induction false} UsersOfKeys(ks: set<ContribKey>, g: Id, c: int)
    requires forall k :: k in ks ==> k.group == g && k.cycle == c
    ensures |set k | k in ks :: k.user| == |ks|
    decreases |ks|
  {
    if ks != {} {
      var k :| k in ks;
      UsersOfKeys(ks - {k}, g, c);
      var users, fewer := set j | j in ks :: j.user, set j | j in ks - {k} :: j.user;
      assert k.user !in fewer;
      assert users == fewer + {k.user} by {
        forall u | u in users ensures u in fewer + {k.user} {
          var j :| j in ks && j.user == u;
          assert j == k || j in ks - {k};
        }
      }
    }
  }

  /** The length test that triggers early settlement says exactly that everybody has paid. */
  lemma CountTestExact(r: Rota, c: int)
    requires Distinct(r.group.members)
    requires forall k :: k in r.contributions ==> ContributionOk(r, k)
    ensures |PaidKeys(r, c)| >= |r.group.members| <==> Full(r, c)
    ensures |PaidKeys(r, c)| <= |r.group.members|
  {
    PaidCount(r, c);
    SetOfSize(r.group.members);
    SubsetSize(PaidUsers(r, c), SetOf(r.group.members));
    if Full(r, c) {
      assert SetOf(r.group.members) <= PaidUsers(r, c);
    } else {
      var m :| m in r.group.members && !Paid(r, m, c);
      assert m in SetOf(r.group.members) && m !in PaidUsers(r, c);
    }
  }

  // ----- assembly -----

  lemma JoinKeepsInv(r: Rota, u: Id)
    requires Inv(r) && CanJoin(r, u)
    ensures Inv(Join(r, u))
  {
    var s := Join(r, u);
    forall v ensures v in s.group.members <==> ActiveMembership(s, v) {
      assert v in r.group.members <==> ActiveMembership(r, v);
    }
  }

  lemma DropKeepsInv(r: Rota, u: Id, status: MembershipStatus)
    requires Inv(r) && CanDrop(r, u) && status != ActiveMember
    ensures Inv(Drop(r, u, status))
  {
    var s := Drop(r, u, status);
    forall v ensures v in s.group.members <==> ActiveMembership(s, v) {
      assert v in r.group.members <==> ActiveMembership(r, v);
    }
  }

  // ----- activation -----

  lemma {:induction false} ScheduledContents(cycles: map<CycleKey, Cycle>, g: Group, start: Time, n: nat)
    requires n <= |g.payoutOrder|
    ensures forall k :: k in Scheduled(cycles, g, start, n) <==>
                        k in cycles || (k.group == g.id && 0 <= k.index < n)
    ensures forall i :: 0 <= i < n ==>
              Scheduled(cycles, g, start, n)[CycleKey(g.id, i)] == ScheduledCycle(g, start, i)
  {
    if n > 0 {
      ScheduledContents(cycles, g, start, n - 1);
    }
  }

  lemma ActivateKeepsInv(r: Rota, order: seq<Id>, now: Time)
    requires Inv(r) && CanActivate(r, order)
    ensures Inv(Activate(r, order, now))
  {
    var s := Activate(r, order, now);
    ScheduledContents(r.cycles, s.group, now, |s.group.payoutOrder|);
    assert RosterOk(s) by {
      forall v ensures v in s.group.members <==> ActiveMembership(s, v) {
        assert v in r.group.members <==> ActiveMembership(r, v);
      }
    }
    forall c | InSchedule(s, c) ensures CycleOk(s, c) {
      assert PaidKeys(s, c) == {};
    }
  }

  // ----- contribution -----

  lemma PostPaid(r: Rota, u: Id, c: int, now: Time)
    requires !Paid(r, u, c)
    ensures var s := Post(r, u, c, now);
            && Pot(s, c) == Pot(r, c) + r.group.amount
            && (forall d :: d != c ==> Pot(s, d) == Pot(r, d))
            && (forall v, d :: Paid(s, v, d) <==> Paid(r, v, d) || (v == u && d == c))
  {
    var s := Post(r, u, c, now);
    var key := ContribKey(r.group.id, u, c);
    assert PaidKeys(s, c) == PaidKeys(r, c) + {key};
    assert |PaidKeys(s, c)| == |PaidKeys(r, c)| + 1;
    forall d | d != c ensures Pot(s, d) == Pot(r, d) {
      assert PaidKeys(s, d) == PaidKeys(r, d);
    }
  }

  lemma PostCycleOk(r: Rota, u: Id, c: int, now: Time, d: int)
    requires CycleOk(r, d) && CanSettle(r, c) && !Paid(r, u, c)
    ensures CycleOk(Post(r, u, c, now), d)
  {
    var s := Post(r, u, c, now);
    PostPaid(r, u, c, now);
    var entry := EscrowEntry(r.group.id, c, u, Credit, r.group.amount);
    var event := Event(ContributionMade, u, r.group.id, c, r.group.amount);
    SumSnoc(r.escrow, entry, CreditsTo(d));
    SumSnoc(r.escrow, entry, DebitsFrom(d));
    SumSnoc(r.events, event, PayoutEventsOf(d));
    forall v ensures Tally(s, ContributionMade, v, d) == if Paid(s, v, d) then 1 else 0 {
      SumSnoc(r.events, event, EventsOf(ContributionMade, v, d));
    }
    forall v ensures Tally(s, ContributionMissed, v, d) == Tally(r, ContributionMissed, v, d) {
      SumSnoc(r.events, event, EventsOf(ContributionMissed, v, d));
    }
  }

  lemma PostBooksOk(r: Rota, u: Id, c: int, now: Time)
    requires BooksOk(r) && CanContribute(r, u, c) && InSchedule(r, c)
    ensures BooksOk(Post(r, u, c, now))
  {
    var s := Post(r, u, c, now);
    PostPaid(r, u, c, now);
    forall e | e in s.escrow ensures EntryOk(s, e) {
      assert e in r.escrow ==> EntryOk(r, e);
    }
    forall p | p in s.payouts ensures PayoutOk(s, p) {
      assert PayoutOk(r, p);
    }
    forall e | e in s.events ensures EventOk(s, e) {
      assert e in r.events ==> EventOk(r, e);
    }
    forall d | InSchedule(s, d) ensures CycleOk(s, d) {
      assert InSchedule(r, d);
      PostCycleOk(r, u, c, now, d);
    }
    forall k | k in s.contributions ensures ContributionOk(s, k) {
      assert k in r.contributions ==> ContributionOk(r, k);
    }
  }

  lemma RosterFrame(r: Rota, s: Rota)
    requires RosterOk(r)
    requires s.memberships == r.memberships && s.group == r.group.(state := s.group.state)
    ensures RosterOk(s)
  {
    forall v ensures v in s.group.members <==> ActiveMembership(s, v) {
      assert v in r.group.members <==> ActiveMembership(r, v);
    }
  }

  lemma ScheduleFrame(r: Rota, s: Rota)
    requires ScheduleOk(r) && s.group == r.group && s.cycles == r.cycles
    ensures ScheduleOk(s)
  {
    forall c | InSchedule(s, c)
      ensures s.cycles[Slot(s, c)] == ScheduledCycle(s.group, s.group.activatedAt.value, c).(settled := Settled(s, c)) {
      assert InSchedule(r, c);
    }
    assert Settled(r, |r.group.payoutOrder| - 1) <==> Settled(s, |r.group.payoutOrder| - 1);
    assert forall k :: k in s.cycles ==> InSchedule(r, k.index);
  }

  lemma PostKeepsInv(r: Rota, u: Id, c: int, now: Time)
    requires Inv(r) && CanContribute(r, u, c)
    ensures Inv(Post(r, u, c, now))
  {
    assert InSchedule(r, c);
    RosterFrame(r, Post(r, u, c, now));
    ScheduleFrame(r, Post(r, u, c, now));
    PostBooksOk(r, u, c, now);
  }

  // ----- settlement -----

  /** What recording defaults adds to the event log. */
  lemma {:induction false} MissesTally(g: Group, c: int, paid: set<Id>, n: nat, kind: EventKind, u: Id, d: int)
    requires n <= |g.members| && Distinct(g.members)
    ensures Sum(Misses(g, c, paid, n), EventsOf(kind, u, d)) ==
            if kind == ContributionMissed && d == c && u in g.members[..n] && u !in paid then 1 else 0
  {
    if n > 0 {
      MissesTally(g, c, paid, n - 1, kind, u, d);
      assert g.members[..n] == g.members[..n - 1] + [g.members[n - 1]];
      if g.members[n - 1] !in paid {
        SumSnoc(Misses(g, c, paid, n - 1),
                Event(ContributionMissed, g.members[n - 1], g.id, c, g.amount), EventsOf(kind, u, d));
      }
    }
  }

  lemma {:induction false} MissesContents(g: Group, c: int, paid: set<Id>, n: nat)
    requires n <= |g.members|
    ensures forall e :: e in Misses(g, c, paid, n) ==>
              e == Event(ContributionMissed, e.user, g.id, c, g.amount) && e.user in g.members && e.user !in paid
  {
    if n > 0 {
      MissesContents(g, c, paid, n - 1);
    }
  }

  lemma {:induction false} MissesPayNobody(g: Group, c: int, paid: set<Id>, n: nat, d: int)
    requires n <= |g.members|
    ensures Sum(Misses(g, c, paid, n), PayoutEventsOf(d)) == 0
  {
    if n > 0 {
      MissesPayNobody(g, c, paid, n - 1, d);
      SumSnoc(Misses(g, c, paid, n - 1),
              Event(ContributionMissed, g.members[n - 1], g.id, c, g.amount), PayoutEventsOf(d));
    }
  }

  /** Settling cycle c with its defaults recorded first, or not. */
  ghost function SettleWith(r: Rota, c: int, defaults: bool): Rota
    requires HasCycle(r, c)
  {
    Settle(if defaults then RecordDefaults(r, c) else r, c)
  }

  function DefaultEvents(r: Rota, c: int, defaults: bool): seq<Event> {
    if defaults then Misses(r.group, c, PaidUsers(r, c), |r.group.members|) else []
  }

  /** SettleWith spelled out on a group whose contributions are in order. */
  lemma SettleShape(r: Rota, c: int, defaults: bool)
    requires CanSettle(r, c)
    requires forall k :: k in r.contributions ==> ContributionOk(r, k)
    ensures var s, payee, pot := SettleWith(r, c, defaults), r.cycles[Slot(r, c)].payee, Pot(r, c);
            s == Rota(
              Advance(r.group, c), r.memberships,
              r.cycles[Slot(r, c) := r.cycles[Slot(r, c)].(settled := true)], r.contributions,
              r.payouts + [Payout(r.group.id, c, payee, pot, Expected(r.group), Expected(r.group) - pot)],
              r.escrow + [EscrowEntry(r.group.id, c, payee, Debit, pot)],
              r.events + DefaultEvents(r, c, defaults) + [Event(PayoutReceived, payee, r.group.id, c, pot)])
  {
    GrossIsPot(r, c);
    assert PaidKeys(RecordDefaults(r, c), c) == PaidKeys(r, c);
    assert r.events + [] == r.events;
  }

  lemma SettleFrame(r: Rota, c: int, defaults: bool)
    requires CanSettle(r, c)
    ensures var s := SettleWith(r, c, defaults);
            && (forall d :: Pot(s, d) == Pot(r, d))
            && (forall v, d :: Paid(s, v, d) <==> Paid(r, v, d))
            && (forall d :: Settled(s, d) <==> Settled(r, d) || d == c)
            && s.group == r.group.(state := s.group.state)
  {
    var s := SettleWith(r, c, defaults);
    forall d ensures Pot(s, d) == Pot(r, d) {
      assert PaidKeys(s, d) == PaidKeys(r, d);
    }
  }

  lemma SettleTally(r: Rota, c: int, defaults: bool, kind: EventKind, u: Id, d: int)
    requires CanSettle(r, c) && kind != PayoutReceived && Distinct(r.group.members)
    requires forall k :: k in r.contributions ==> ContributionOk(r, k)
    ensures Tally(SettleWith(r, c, defaults), kind, u, d) ==
            Tally(r, kind, u, d) +
            if defaults && kind == ContributionMissed && d == c && u in r.group.members && !Paid(r, u, c) then 1 else 0
  {
    SettleShape(r, c, defaults);
    PaidCount(r, c);
    var extra := DefaultEvents(r, c, defaults);
    var last := Event(PayoutReceived, r.cycles[Slot(r, c)].payee, r.group.id, c, Pot(r, c));
    SumSnoc(r.events + extra, last, EventsOf(kind, u, d));
    SumConcat(r.events, extra, EventsOf(kind, u, d));
    if defaults {
      MissesTally(r.group, c, PaidUsers(r, c), |r.group.members|, kind, u, d);
      assert r.group.members[..|r.group.members|] == r.group.members;
    }
  }

  /** The money columns of cycle d after cycle c is settled. */
  lemma SettleMoney(r: Rota, c: int, defaults: bool, d: int)
    requires CanSettle(r, c)
    requires forall k :: k in r.contributions ==> ContributionOk(r, k)
    ensures var s := SettleWith(r, c, defaults);
            && Sum(s.escrow, CreditsTo(d)) == Sum(r.escrow, CreditsTo(d))
            && Sum(s.escrow, DebitsFrom(d)) == Sum(r.escrow, DebitsFrom(d)) + (if d == c then Pot(r, c) else 0)
            && Sum(s.payouts, PayoutsOf(d)) == Sum(r.payouts, PayoutsOf(d)) + (if d == c then 1 else 0)
  {
    SettleShape(r, c, defaults);
    var payee, pot := r.cycles[Slot(r, c)].payee, Pot(r, c);
    var entry := EscrowEntry(r.group.id, c, payee, Debit, pot);
    SumSnoc(r.escrow, entry, CreditsTo(d));
    SumSnoc(r.escrow, entry, DebitsFrom(d));
    SumSnoc(r.payouts, Payout(r.group.id, c, payee, pot, Expected(r.group), Expected(r.group) - pot), PayoutsOf(d));
  }

  lemma SettlePayoutEvents(r: Rota, c: int, defaults: bool, d: int)
    requires CanSettle(r, c)
    requires forall k :: k in r.contributions ==> ContributionOk(r, k)
    ensures Sum(SettleWith(r, c, defaults).events, PayoutEventsOf(d)) ==
            Sum(r.events, PayoutEventsOf(d)) + (if d == c then 1 else 0)
  {
    SettleShape(r, c, defaults);
    var extra := DefaultEvents(r, c, defaults);
    MissesPayNobody(r.group, c, PaidUsers(r, c), |r.group.members|, d);
    SumConcat(r.events, extra, PayoutEventsOf(d));
    var last := Event(PayoutReceived, r.cycles[Slot(r, c)].payee, r.group.id, c, Pot(r, c));
    SumSnoc(r.events + extra, last, PayoutEventsOf(d));
  }

  lemma SettleCycleOk(r: Rota, c: int, defaults: bool, d: int)
    requires CanSettle(r, c) && Distinct(r.group.members) && CycleOk(r, d)
    requires forall k :: k in r.contributions ==> ContributionOk(r, k)
    ensures CycleOk(SettleWith(r, c, defaults), d)
  {
    hide SettleWith, Gross, Misses, PaidUsers;
    var s := SettleWith(r, c, defaults);
    SettleFrame(r, c, defaults);
    SettleMoney(r, c, defaults, d);
    SettlePayoutEvents(r, c, defaults, d);
    forall u ensures Tally(s, ContributionMade, u, d) == Tally(r, ContributionMade, u, d) {
      SettleTally(r, c, defaults, ContributionMade, u, d);
    }
    forall u ensures Tally(s, ContributionMissed, u, d) == Tally(r, ContributionMissed, u, d) +
                       if defaults && d == c && u in r.group.members && !Paid(r, u, c) then 1 else 0 {
      SettleTally(r, c, defaults, ContributionMissed, u, d);
    }
    if d == c && defaults {
      assert DefaultsRecorded(s, d);
    } else if NoneMissed(r, d) {
      assert NoneMissed(s, d);
    } else {
      assert DefaultsRecorded(s, d);
    }
  }

  lemma SettleBooksOk(r: Rota, c: int, defaults: bool)
    requires BooksOk(r) && CanSettle(r, c) && InSchedule(r, c) && Distinct(r.group.members)
    requires r.cycles[Slot(r, c)].payee == r.group.payoutOrder[c]
    ensures BooksOk(SettleWith(r, c, defaults))
  {
    hide SettleWith, Gross, Pot, CycleOk, Misses, PaidUsers;
    var s := SettleWith(r, c, defaults);
    SettleShape(r, c, defaults);
    SettleFrame(r, c, defaults);
    forall e | e in s.escrow ensures EntryOk(s, e) {
      assert e in r.escrow ==> EntryOk(r, e);
    }
    forall p | p in s.payouts ensures PayoutOk(s, p) {
      assert p in r.payouts ==> PayoutOk(r, p);
    }
    PaidCount(r, c);
    MissesContents(r.group, c, PaidUsers(r, c), |r.group.members|);
    forall e | e in s.events ensures EventOk(s, e) {
      assert e in r.events ==> EventOk(r, e);
    }
    forall d | InSchedule(s, d) ensures CycleOk(s, d) {
      assert InSchedule(r, d);
      SettleCycleOk(r, c, defaults, d);
    }
    forall k | k in s.contributions ensures ContributionOk(s, k) {
      assert ContributionOk(r, k);
    }
  }

  lemma SettleScheduleOk(r: Rota, c: int, defaults: bool)
    requires ScheduleOk(r) && CanSettle(r, c)
    ensures ScheduleOk(SettleWith(r, c, defaults))
  {
    hide Gross, Misses, PaidUsers;
    var s := SettleWith(r, c, defaults);
    SettleFrame(r, c, defaults);
    assert InSchedule(r, c);
    forall d | InSchedule(s, d)
      ensures s.cycles[Slot(s, d)] == ScheduledCycle(s.group, s.group.activatedAt.value, d).(settled := Settled(s, d)) {
      assert InSchedule(r, d);
    }
  }

  lemma SettleKeepsInv(r: Rota, c: int, defaults: bool)
    requires Inv(r) && CanSettle(r, c)
    ensures Inv(SettleWith(r, c, defaults))
  {
    hide RosterOk, BooksOk;
    assert InSchedule(r, c);
    RosterFrame(r, SettleWith(r, c, defaults));
    SettleScheduleOk(r, c, defaults);
    SettleBooksOk(r, c, defaults);
  }

  /** The parts of the invariant that most accounting arguments start from. */
  lemma InvBasics(r: Rota)
    requires Inv(r)
    ensures r.group.amount > 0
    ensures forall k :: k in r.contributions ==> ContributionOk(r, k)
    ensures r.group.state != Created ==> Distinct(r.group.members)
  {
  }

  lemma ContributeKeepsInv(r: Rota, u: Id, c: int, now: Time)
    requires Inv(r) && CanContribute(r, u, c)
    ensures Inv(Contribute(r, u, c, now))
  {
    PostKeepsInv(r, u, c, now);
    var posted := Post(r, u, c, now);
    if Full(posted, c) {
      SettleKeepsInv(posted, c, false);
    }
  }

  lemma {:induction false} DrainKeepsInv(r: Rota, now: Time)
    requires Inv(r)
    ensures Inv(Drain(r, now).0)
    decreases |OpenCycles(r)|
  {
    if exists c :: Due(r, c, now) {
      var c :| Due(r, c, now) && Drain(r, now).0 == Drain(SettleOverdue(r, c), now).0;
      SettleKeepsInv(r, c, true);
      SettleShrinksOpen(RecordDefaults(r, c), c);
      DrainKeepsInv(SettleOverdue(r, c), now);
    }
  }

  // ----- every step, every run -----

  lemma NewRotaInv(g: Group)
    requires ValidConfig(g.name, g.amount, g.cycleLength, g.maxMembers)
    requires g == NewGroup(g.id, g.name, g.organizer, g.amount, g.cycleLength, g.maxMembers, g.createdAt)
    ensures Inv(NewRota(g))
  {
  }

  lemma StepKeepsInv(r: Rota, s: Step)
    requires Inv(r)
    ensures Inv(Apply(r, s))
  {
    hide Inv, RosterOk, ScheduleOk, BooksOk, Drain, Settle, Activate, Join, Drop, Contribute;
    if Allowed(r, s) {
      match s {
        case JoinStep(u) => JoinKeepsInv(r, u);
        case DropStep(u, status) => DropKeepsInv(r, u, status);
        case ActivateStep(order, now) => ActivateKeepsInv(r, order, now);
        case ContributeStep(u, c, now) => ContributeKeepsInv(r, u, c, now);
        case SettleStep(c) => SettleKeepsInv(r, c, false);
        case DeadlineStep(now) => DrainKeepsInv(r, now);
      }
    }
  }

  lemma {:induction false} RunKeepsInv(r: Rota, steps: seq<Step>)
    requires Inv(r)
    ensures Inv(Run(r, steps))
  {
    if steps != [] {
      RunKeepsInv(r, steps[..|steps| - 1]);
      StepKeepsInv(Run(r, steps[..|steps| - 1]), steps[|steps| - 1]);
    }
  }
}
