/** The reputation fold: what a log says about one user, and what it does not
    depend on. Ratios are exact reals. */
module Reputation {
  import opened Domain
  import opened Sums
  import opened Rotation
  import opened RotationTheorems
  import opened Fairness

  datatype Summary = Summary(
    user: Id,
    made: int,
    missed: int,
    payouts: int,
    exits: int,
    expulsions: int,
    totalContributed: Money,
    totalMissed: Money,
    ratio: real)

  function Ratio(made: int, missed: int): real {
    if made + missed > 0 then made as real / (made + missed) as real else 1.0
  }

  /** The summary as seven independent totals over the log. */
  function SummaryOf(user: Id, events: seq<Event>): Summary {
    var made, missed := Sum(events, CountOf(ContributionMade, user)), Sum(events, CountOf(ContributionMissed, user));
    Summary(user, made, missed,
            Sum(events, CountOf(PayoutReceived, user)),
            Sum(events, CountOf(GroupExit, user)),
            Sum(events, CountOf(GroupExpulsion, user)),
            Sum(events, AmountOf(ContributionMade, user)),
            Sum(events, AmountOf(ContributionMissed, user)),
            Ratio(made, missed))
  }

  /** SummaryOf with the ratio of a user without obligations, which is what the loop
      carries before its last line. */
  function Counters(user: Id, events: seq<Event>): Summary {
    SummaryOf(user, events).(ratio := 1.0)
  }

  lemma CountersSnoc(user: Id, events: seq<Event>, e: Event)
    ensures var s := Counters(user, events);
            Counters(user, events + [e]) ==
              if e.user != user then s else
              match e.kind
              case ContributionMade => s.(made := s.made + 1, totalContributed := s.totalContributed + e.amount)
              case ContributionMissed => s.(missed := s.missed + 1, totalMissed := s.totalMissed + e.amount)
              case PayoutReceived => s.(payouts := s.payouts + 1)
              case GroupExit => s.(exits := s.exits + 1)
              case GroupExpulsion => s.(expulsions := s.expulsions + 1)
  {
    SumSnoc(events, e, CountOf(ContributionMade, user));
    SumSnoc(events, e, CountOf(ContributionMissed, user));
    SumSnoc(events, e, CountOf(PayoutReceived, user));
    SumSnoc(events, e, CountOf(GroupExit, user));
    SumSnoc(events, e, CountOf(GroupExpulsion, user));
    SumSnoc(events, e, AmountOf(ContributionMade, user));
    SumSnoc(events, e, AmountOf(ContributionMissed, user));
  }

  method Summarise(user: Id, events: seq<Event>) returns (s: Summary)
    ensures s == SummaryOf(user, events)
  {
    s := Summary(user, 0, 0, 0, 0, 0, 0, 0, 1.0);
    for i := 0 to |events|
      invariant s == Counters(user, events[..i])
    {
      hide Counters;
      var e := events[i];
      assert events[..i + 1] == events[..i] + [e];
      CountersSnoc(user, events[..i], e);
      if e.user != user {
        continue;
      }
      match e.kind {
        case ContributionMade =>
          s := s.(made := s.made + 1, totalContributed := s.totalContributed + e.amount);
        case ContributionMissed =>
          s := s.(missed := s.missed + 1, totalMissed := s.totalMissed + e.amount);
        case PayoutReceived => s := s.(payouts := s.payouts + 1);
        case GroupExit => s := s.(exits := s.exits + 1);
        case GroupExpulsion => s := s.(expulsions := s.expulsions + 1);
      }
    }
    PrefixWhole(events);
    var obligations := s.made + s.missed;
    if obligations > 0 {
      s := s.(ratio := s.made as real / obligations as real);
    }
  }

  // ----- what the summary does not depend on -----

  /** The order in which the events are folded does not matter. */
  lemma SummaryPermuted(user: Id, xs: seq<Event>, ys: seq<Event>)
    requires multiset(xs) == multiset(ys)
    ensures SummaryOf(user, xs) == SummaryOf(user, ys)
  {
    SumPermuted(xs, ys, CountOf(ContributionMade, user));
    SumPermuted(xs, ys, CountOf(ContributionMissed, user));
    SumPermuted(xs, ys, CountOf(PayoutReceived, user));
    SumPermuted(xs, ys, CountOf(GroupExit, user));
    SumPermuted(xs, ys, CountOf(GroupExpulsion, user));
    SumPermuted(xs, ys, AmountOf(ContributionMade, user));
    SumPermuted(xs, ys, AmountOf(ContributionMissed, user));
  }

  function IsOf(user: Id): Event -> bool {
    (e: Event) => e.user == user
  }

  /** Nobody else's events count: a user's own log gives the same summary as the whole log. */
  lemma SummaryOfOwnLog(user: Id, events: seq<Event>)
    ensures SummaryOf(user, Filter(events, IsOf(user))) == SummaryOf(user, events)
  {
    SumFiltered(events, IsOf(user), CountOf(ContributionMade, user), CountOf(ContributionMade, user));
    SumFiltered(events, IsOf(user), CountOf(ContributionMissed, user), CountOf(ContributionMissed, user));
    SumFiltered(events, IsOf(user), CountOf(PayoutReceived, user), CountOf(PayoutReceived, user));
    SumFiltered(events, IsOf(user), CountOf(GroupExit, user), CountOf(GroupExit, user));
    SumFiltered(events, IsOf(user), CountOf(GroupExpulsion, user), CountOf(GroupExpulsion, user));
    SumFiltered(events, IsOf(user), AmountOf(ContributionMade, user), AmountOf(ContributionMade, user));
    SumFiltered(events, IsOf(user), AmountOf(ContributionMissed, user), AmountOf(ContributionMissed, user));
  }

  /** What one event contributes: with SummaryConcat and SummaryPermuted this fixes the
      summary of every log. */
  lemma OneEvent(user: Id, e: Event)
    ensures var s := SummaryOf(user, [e]);
            s == if e.user != user then Summary(user, 0, 0, 0, 0, 0, 0, 0, 1.0) else
                 match e.kind
                 case ContributionMade => Summary(user, 1, 0, 0, 0, 0, e.amount, 0, 1.0)
                 case ContributionMissed => Summary(user, 0, 1, 0, 0, 0, 0, e.amount, 0.0)
                 case PayoutReceived => Summary(user, 0, 0, 1, 0, 0, 0, 0, 1.0)
                 case GroupExit => Summary(user, 0, 0, 0, 1, 0, 0, 0, 1.0)
                 case GroupExpulsion => Summary(user, 0, 0, 0, 0, 1, 0, 0, 1.0)
  {
    CountersSnoc(user, [], e);
    assert [] + [e] == [e];
  }

  // ----- the ratio -----

  lemma CountsNonNegative(user: Id, events: seq<Event>)
    ensures var s := SummaryOf(user, events); s.made >= 0 && s.missed >= 0
  {
    SumNonNegative(events, CountOf(ContributionMade, user));
    SumNonNegative(events, CountOf(ContributionMissed, user));
  }

  lemma ProductSign(d: real, x: real)
    requires x >= 0.0
    ensures x == 0.0 ==> d * x == 0.0
    ensures x > 0.0 ==> (d * x > 0.0 <==> d > 0.0) && (d * x < 0.0 <==> d < 0.0)
  {
  }

  lemma RatioRange(made: int, missed: int)
    requires made >= 0 && missed >= 0
    ensures 0.0 <= Ratio(made, missed) <= 1.0
    ensures Ratio(made, missed) == 1.0 <==> missed == 0
    ensures Ratio(made, missed) == 0.0 <==> made == 0 && missed > 0
    ensures Ratio(made, missed) * (made + missed) as real == made as real
  {
    if made + missed > 0 {
      var q, n := Ratio(made, missed), (made + missed) as real;
      assert q * n == made as real;
      assert (1.0 - q) * n == missed as real;
      ProductSign(q, n);
      ProductSign(1.0 - q, n);
    }
  }

  /** The ratio is a fraction, perfect exactly when nothing was missed and zero exactly
      when everything was. */
  lemma RatioMeaning(user: Id, events: seq<Event>)
    ensures var s := SummaryOf(user, events);
            && 0.0 <= s.ratio <= 1.0 && s.ratio * (s.made + s.missed) as real == s.made as real
            && (s.ratio == 1.0 <==> forall e :: e in events ==> e.user != user || e.kind != ContributionMissed)
            && (s.ratio == 0.0 <==> s.made == 0 && s.missed > 0)
  {
    hide Ratio, SummaryOf;
    CountsNonNegative(user, events);
    SummaryShape(user, events);
    var s := SummaryOf(user, events);
    RatioRange(s.made, s.missed);
    NothingMissed(user, events);
  }

  lemma NothingMissed(user: Id, events: seq<Event>)
    ensures Sum(events, CountOf(ContributionMissed, user)) == 0
            <==> forall e :: e in events ==> e.user != user || e.kind != ContributionMissed
  {
    var w := CountOf(ContributionMissed, user);
    SumNonNegative(events, w);
    if forall e :: e in events ==> w(e) == 0 {
      SumScale(events, w, w, 0);
    } else {
      var e :| e in events && w(e) != 0;
    }
    assert forall e :: w(e) == 0 <==> e.user != user || e.kind != ContributionMissed;
  }

  /** The summary of two logs put together: totals add, and the ratio lies between the
      two ratios. */
  lemma SummaryConcat(user: Id, xs: seq<Event>, ys: seq<Event>)
    ensures var a, b, s := SummaryOf(user, xs), SummaryOf(user, ys), SummaryOf(user, xs + ys);
            && s.made == a.made + b.made && s.missed == a.missed + b.missed
            && s.payouts == a.payouts + b.payouts
            && s.exits == a.exits + b.exits && s.expulsions == a.expulsions + b.expulsions
            && s.totalContributed == a.totalContributed + b.totalContributed
            && s.totalMissed == a.totalMissed + b.totalMissed
            && (a.ratio <= s.ratio <= b.ratio || b.ratio <= s.ratio <= a.ratio)
  {
    SumConcat(xs, ys, CountOf(ContributionMade, user));
    SumConcat(xs, ys, CountOf(ContributionMissed, user));
    SumConcat(xs, ys, CountOf(PayoutReceived, user));
    SumConcat(xs, ys, CountOf(GroupExit, user));
    SumConcat(xs, ys, CountOf(GroupExpulsion, user));
    SumConcat(xs, ys, AmountOf(ContributionMade, user));
    SumConcat(xs, ys, AmountOf(ContributionMissed, user));
    CountsNonNegative(user, xs);
    CountsNonNegative(user, ys);
    var a, b := SummaryOf(user, xs), SummaryOf(user, ys);
    Mediant(a.made, a.missed, b.made, b.missed);
  }

  lemma Mediant(m: int, n: int, p: int, q: int)
    requires m >= 0 && n >= 0 && p >= 0 && q >= 0
    ensures var a, b, s := Ratio(m, n), Ratio(p, q), Ratio(m + p, n + q);
            a <= s <= b || b <= s <= a
  {
    hide Ratio;
    RatioRange(m, n);
    RatioRange(p, q);
    RatioRange(m + p, n + q);
    if m + n > 0 || p + q > 0 {
      Weighted(Ratio(m, n), Ratio(p, q), Ratio(m + p, n + q), (m + n) as real, (p + q) as real);
    }
  }

  /** A weighted mean lies between its parts. */
  lemma Weighted(a: real, b: real, s: real, x: real, y: real)
    requires x >= 0.0 && y >= 0.0 && x + y > 0.0
    requires s * (x + y) == a * x + b * y
    ensures a <= s <= b || b <= s <= a
  {
    assert (s - a) * x == (b - s) * y;
    ProductSign(s - a, x);
    ProductSign(b - s, y);
  }

  // ----- what the summary of a member means for their group -----

  /** When the group has run its course with every default recorded, a member's summary
      has one obligation per cycle and its money is the contribution times the counts;
      the ratio is perfect exactly when the member paid every cycle. */
  lemma SummaryOfMember(r: Rota, u: Id)
    requires Reachable(r) && r.group.state != Created && u in r.group.members
    requires forall c :: InSchedule(r, c) ==> Full(r, c) || DefaultsRecorded(r, c)
    ensures var s := SummaryOf(u, r.events);
            && s.made + s.missed == r.group.totalCycles
            && s.totalContributed == r.group.amount * s.made
            && s.totalMissed == r.group.amount * s.missed
            && (s.ratio == 1.0 <==> forall c :: InSchedule(r, c) ==> Paid(r, u, c))
  {
    hide Inv, RosterOk, ScheduleOk, BooksOk, CycleOk, EventOk, SummaryOf, Full, DefaultsRecorded, Reachable;
    ReachableBooks(r);
    ObligationsAddUp(r, u);
    AmountsAreCounts(r, u);
    CountsNonNegative(u, r.events);
    SummaryShape(u, r.events);
    var s := SummaryOf(u, r.events);
    RatioRange(s.made, s.missed);
    MadeIsPaid(r, u);
  }

  lemma ReachableBooks(r: Rota)
    requires Reachable(r) && r.group.state != Created
    ensures BooksOk(r) && r.group.totalCycles == |r.group.payoutOrder|
  {
    ReachableInv(r);
  }

  lemma SummaryShape(u: Id, events: seq<Event>)
    ensures var s := SummaryOf(u, events);
            && s.made == Sum(events, CountOf(ContributionMade, u))
            && s.missed == Sum(events, CountOf(ContributionMissed, u))
            && s.totalContributed == Sum(events, AmountOf(ContributionMade, u))
            && s.totalMissed == Sum(events, AmountOf(ContributionMissed, u))
            && s.ratio == Ratio(s.made, s.missed)
  {
  }

  lemma ObligationsAddUp(r: Rota, u: Id)
    requires Reachable(r) && BooksOk(r) && u in r.group.members
    requires forall c :: InSchedule(r, c) ==> Full(r, c) || DefaultsRecorded(r, c)
    ensures Sum(r.events, CountOf(ContributionMade, u)) + Sum(r.events, CountOf(ContributionMissed, u))
            == |r.group.payoutOrder|
  {
    EventsScheduled(r);
    TotalByCycle(r, ContributionMade, u);
    TotalByCycle(r, ContributionMissed, u);
    var n := |r.group.payoutOrder|;
    var made := Column(TalliesOf(ContributionMade, u), r.events);
    var missed := Column(TalliesOf(ContributionMissed, u), r.events);
    forall c | 0 <= c < n ensures One()(c) == made(c) + missed(c) {
      hide BooksOk, Reachable;
      assert InSchedule(r, c);
      ExactlyOneObligationEvent(r, u, c);
    }
    RangeAdd(n, One(), made, missed);
    RangeConstant(n, One(), 1);
  }

  lemma AmountsAreCounts(r: Rota, u: Id)
    requires BooksOk(r)
    ensures Sum(r.events, AmountOf(ContributionMade, u)) == r.group.amount * Sum(r.events, CountOf(ContributionMade, u))
    ensures Sum(r.events, AmountOf(ContributionMissed, u))
            == r.group.amount * Sum(r.events, CountOf(ContributionMissed, u))
  {
    forall e | e in r.events
      ensures AmountOf(ContributionMade, u)(e) == r.group.amount * CountOf(ContributionMade, u)(e)
      ensures AmountOf(ContributionMissed, u)(e) == r.group.amount * CountOf(ContributionMissed, u)(e)
    {
      assert EventOk(r, e);
    }
    SumScale(r.events, AmountOf(ContributionMade, u), CountOf(ContributionMade, u), r.group.amount);
    SumScale(r.events, AmountOf(ContributionMissed, u), CountOf(ContributionMissed, u), r.group.amount);
  }

  /** The number of contributions made reaches the number of cycles only by paying them all. */
  lemma MadeIsPaid(r: Rota, u: Id)
    requires BooksOk(r)
    ensures Sum(r.events, CountOf(ContributionMade, u)) <= |r.group.payoutOrder|
    ensures Sum(r.events, CountOf(ContributionMade, u)) == |r.group.payoutOrder|
            <==> forall c :: InSchedule(r, c) ==> Paid(r, u, c)
  {
    EventsScheduled(r);
    TotalByCycle(r, ContributionMade, u);
    var n, made := |r.group.payoutOrder|, Column(TalliesOf(ContributionMade, u), r.events);
    forall c | 0 <= c < n ensures made(c) == if Paid(r, u, c) then 1 else 0 {
      assert InSchedule(r, c);
      assert CycleOk(r, c);
    }
    RangeOfBits(n, made);
    assert forall c :: InSchedule(r, c) <==> 0 <= c < n;
  }
}
