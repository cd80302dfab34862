/** One savings group as a state machine. A Rota is everything the store holds
    about a single group; its steps are the service calls, stripped of who may
    make them. Inv is what every reachable Rota satisfies. */
module Rotation {
  import opened Domain
  import opened Sums

  datatype Rota = Rota(
    group: Group,
    memberships: map<MemberKey, Membership>,
    cycles: map<CycleKey, Cycle>,
    contributions: map<ContribKey, Contribution>,
    payouts: seq<Payout>,
    escrow: seq<EscrowEntry>,
    events: seq<Event>)

  // ----- observations -----

  function Slot(r: Rota, c: int): CycleKey {
    CycleKey(r.group.id, c)
  }

  predicate HasCycle(r: Rota, c: int) {
    Slot(r, c) in r.cycles
  }

  predicate Settled(r: Rota, c: int) {
    HasCycle(r, c) && r.cycles[Slot(r, c)].settled
  }

  predicate Paid(r: Rota, u: Id, c: int) {
    ContribKey(r.group.id, u, c) in r.contributions
  }

  predicate ActiveMembership(r: Rota, u: Id) {
    var k := MemberKey(r.group.id, u);
    k in r.memberships && r.memberships[k].status == ActiveMember
  }

  function PaidKeys(r: Rota, c: int): set<ContribKey> {
    set k | k in r.contributions && k.cycle == c
  }

  function PaidUsers(r: Rota, c: int): set<Id> {
    set k | k in PaidKeys(r, c) :: k.user
  }

  predicate Full(r: Rota, c: int) {
    forall m :: m in r.group.members ==> Paid(r, m, c)
  }

  function OpenCycles(r: Rota): set<CycleKey> {
    set k | k in r.cycles && !r.cycles[k].settled
  }

  /** The sum of the amounts of a set of contributions, in whatever order they are listed. */
  ghost function Amounts(cs: map<ContribKey, Contribution>, ks: set<ContribKey>): Money
    requires ks <= cs.Keys
  {
    if ks == {} then 0 else
      var k :| k in ks;
      cs[k].amount + Amounts(cs, ks - {k})
  }

  /** What has been paid into cycle c. */
  ghost function Gross(r: Rota, c: int): Money {
    Amounts(r.contributions, PaidKeys(r, c))
  }

  /** The amount cycle c owes its payee if every member pays. */
  function Expected(g: Group): Money {
    g.amount * |g.members|
  }

  // ----- assembly -----

  predicate CanJoin(r: Rota, u: Id) {
    r.group.state == Created && |r.group.members| < r.group.maxMembers && u != r.group.organizer
  }

  function Join(r: Rota, u: Id): Rota {
    r.(group := r.group.(members := r.group.members + [u]),
       memberships := r.memberships[MemberKey(r.group.id, u) := Membership(r.group.id, u, false, ActiveMember)])
  }

  predicate CanDrop(r: Rota, u: Id) {
    r.group.state == Created && u != r.group.organizer && MemberKey(r.group.id, u) in r.memberships
  }

  /** xs with every occurrence of x taken out. */
  function Without(xs: seq<Id>, x: Id): (ys: seq<Id>)
    ensures |ys| <= |xs|
    ensures forall y :: y in ys <==> y in xs && y != x
  {
    if xs == [] then [] else
      var rest := Without(xs[..|xs| - 1], x);
      if xs[|xs| - 1] == x then rest else rest + [xs[|xs| - 1]]
  }

  function Drop(r: Rota, u: Id, status: MembershipStatus): Rota
    requires MemberKey(r.group.id, u) in r.memberships
  {
    var k := MemberKey(r.group.id, u);
    r.(group := r.group.(members := Without(r.group.members, u)),
       memberships := r.memberships[k := r.memberships[k].(status := status)])
  }

  // ----- activation -----

  /** The group as activation would fix it: an empty order means join order. */
  function Planned(g: Group, order: seq<Id>): Group {
    var payoutOrder := if order == [] then g.members else order;
    g.(payoutOrder := payoutOrder, totalCycles := |payoutOrder|)
  }

  predicate CanActivate(r: Rota, order: seq<Id>) {
    CanTransition(r.group.state, Active) && WellFormed(Planned(r.group, order))
  }

  /** The cycle schedule laid over whatever cycle records already exist. */
  function Scheduled(cycles: map<CycleKey, Cycle>, g: Group, start: Time, n: nat): map<CycleKey, Cycle>
    requires n <= |g.payoutOrder|
  {
    if n == 0 then cycles else
      Scheduled(cycles, g, start, n - 1)[CycleKey(g.id, n - 1) := ScheduledCycle(g, start, n - 1)]
  }

  function Activate(r: Rota, order: seq<Id>, now: Time): Rota {
    var g := Planned(r.group, order).(activatedAt := Some(now), state := Active);
    r.(group := g, cycles := Scheduled(r.cycles, g, now, |g.payoutOrder|))
  }

  // ----- settlement -----

  /** The group after cycle c is settled: the last cycle walks it to CLOSED. */
  function Advance(g: Group, c: int): Group {
    if c == g.totalCycles - 1 then TryTransition(TryTransition(g, Settlement), Closed) else g
  }

  ghost function Settle(r: Rota, c: int): Rota
    requires HasCycle(r, c)
  {
    var cycle, gross := r.cycles[Slot(r, c)], Gross(r, c);
    r.(group := Advance(r.group, c),
       cycles := r.cycles[Slot(r, c) := cycle.(settled := true)],
       payouts := r.payouts +
         [Payout(r.group.id, c, cycle.payee, gross, Expected(r.group), Expected(r.group) - gross)],
       escrow := r.escrow + [EscrowEntry(r.group.id, c, cycle.payee, Debit, gross)],
       events := r.events + [Event(PayoutReceived, cycle.payee, r.group.id, c, gross)])
  }

  predicate CanSettle(r: Rota, c: int) {
    HasCycle(r, c) && !Settled(r, c)
  }

  /** One Missed event for each of the first n members who is not in paid, in member order. */
  function Misses(g: Group, c: int, paid: set<Id>, n: nat): seq<Event>
    requires n <= |g.members|
  {
    if n == 0 then []
    else if g.members[n - 1] in paid then Misses(g, c, paid, n - 1)
    else Misses(g, c, paid, n - 1) + [Event(ContributionMissed, g.members[n - 1], g.id, c, g.amount)]
  }

  function RecordDefaults(r: Rota, c: int): Rota {
    r.(events := r.events + Misses(r.group, c, PaidUsers(r, c), |r.group.members|))
  }

  ghost function SettleOverdue(r: Rota, c: int): Rota
    requires HasCycle(r, c)
  {
    Settle(RecordDefaults(r, c), c)
  }

  // ----- contribution -----

  predicate CanContribute(r: Rota, u: Id, c: int) {
    && r.group.state == Active
    && u in r.group.members
    && HasCycle(r, c)
    && !Settled(r, c)
    && !Paid(r, u, c)
  }

  /** The contribution itself: event, record and escrow credit. */
  function Post(r: Rota, u: Id, c: int, now: Time): Rota {
    var g := r.group;
    r.(contributions := r.contributions[ContribKey(g.id, u, c) := Contribution(g.id, u, c, g.amount, now)],
       escrow := r.escrow + [EscrowEntry(g.id, c, u, Credit, g.amount)],
       events := r.events + [Event(ContributionMade, u, g.id, c, g.amount)])
  }

  /** A contribution settles its cycle early when it is the last one missing. */
  ghost function Contribute(r: Rota, u: Id, c: int, now: Time): Rota
    requires HasCycle(r, c)
  {
    var posted := Post(r, u, c, now);
    if Full(posted, c) then Settle(posted, c) else posted
  }

  // ----- deadlines -----

  /** c is the first unsettled cycle. */
  ghost predicate IsCurrent(r: Rota, c: int) {
    CanSettle(r, c) && forall d :: d < c && HasCycle(r, d) ==> Settled(r, d)
  }

  ghost predicate Due(r: Rota, c: int, now: Time) {
    r.group.state == Active && IsCurrent(r, c) && r.cycles[Slot(r, c)].IsOverdue(now)
  }

  /** Settle the current cycle for as long as the group is ACTIVE and it is overdue. */
  ghost function Drain(r: Rota, now: Time): (Rota, nat)
    decreases |OpenCycles(r)|
  {
    if exists c :: Due(r, c, now) then
      var c :| Due(r, c, now);
      SettleShrinksOpen(RecordDefaults(r, c), c);
      var (rest, n) := Drain(SettleOverdue(r, c), now);
      (rest, n + 1)
    else (r, 0)
  }

  lemma SettleShrinksOpen(r: Rota, c: int)
    requires CanSettle(r, c)
    ensures OpenCycles(Settle(r, c)) == OpenCycles(r) - {Slot(r, c)}
    ensures |OpenCycles(Settle(r, c))| == |OpenCycles(r)| - 1
  {
    assert Slot(r, c) in OpenCycles(r);
  }

  // ----- steps -----

  datatype Step =
    | JoinStep(user: Id)
    | DropStep(user: Id, status: MembershipStatus)
    | ActivateStep(order: seq<Id>, now: Time)
    | ContributeStep(user: Id, cycle: int, now: Time)
    | SettleStep(cycle: int)
    | DeadlineStep(now: Time)

  predicate Allowed(r: Rota, s: Step) {
    match s
    case JoinStep(u) => CanJoin(r, u)
    case DropStep(u, status) => CanDrop(r, u) && status != ActiveMember
    case ActivateStep(order, _) => CanActivate(r, order)
    case ContributeStep(u, c, _) => CanContribute(r, u, c)
    case SettleStep(c) => CanSettle(r, c)
    case DeadlineStep(_) => true
  }

  /** A call whose guard fails returns an error and changes nothing. */
  ghost function Apply(r: Rota, s: Step): Rota {
    if !Allowed(r, s) then r else
      match s
      case JoinStep(u) => Join(r, u)
      case DropStep(u, status) => Drop(r, u, status)
      case ActivateStep(order, now) => Activate(r, order, now)
      case ContributeStep(u, c, now) => Contribute(r, u, c, now)
      case SettleStep(c) => Settle(r, c)
      case DeadlineStep(now) => Drain(r, now).0
  }

  ghost function Run(r: Rota, steps: seq<Step>): Rota {
    if steps == [] then r else Apply(Run(r, steps[..|steps| - 1]), steps[|steps| - 1])
  }

  /** A group as it is created: its organizer is its only member. */
  function NewGroup(id: Id, name: string, organizer: Id, amount: Money, cycleLength: Time,
                    maxMembers: int, now: Time): Group {
    Group(id, name, organizer, amount, cycleLength, maxMembers, 0, [organizer], [], Created, now, None)
  }

  function NewRota(g: Group): Rota {
    Rota(g, map[MemberKey(g.id, g.organizer) := Membership(g.id, g.organizer, true, ActiveMember)],
         map[], map[], [], [], [])
  }

  // ----- weights for the logs -----

  function CreditsTo(c: int): EscrowEntry -> int {
    (e: EscrowEntry) => if e.cycle == c && e.direction == Credit then e.amount else 0
  }

  function DebitsFrom(c: int): EscrowEntry -> int {
    (e: EscrowEntry) => if e.cycle == c && e.direction == Debit then e.amount else 0
  }

  function PayoutsOf(c: int): Payout -> int {
    (p: Payout) => if p.cycle == c then 1 else 0
  }

  /** Counts the events of one kind, for one user, in one cycle. */
  function EventsOf(kind: EventKind, u: Id, c: int): Event -> int {
    (e: Event) => if e.kind == kind && e.user == u && e.cycle == c then 1 else 0
  }

  /** Counts the payout events of a cycle, whoever received them. */
  function PayoutEventsOf(c: int): Event -> int {
    (e: Event) => if e.kind == PayoutReceived && e.cycle == c then 1 else 0
  }

  function Tally(r: Rota, kind: EventKind, u: Id, c: int): int {
    Sum(r.events, EventsOf(kind, u, c))
  }

  // ----- the invariant -----

  /** The member list and the membership records tell the same story. */
  ghost predicate RosterOk(r: Rota) {
    var g := r.group;
    && ValidConfig(g.name, g.amount, g.cycleLength, g.maxMembers)
    && g.organizer in g.members
    && |g.members| <= g.maxMembers
    && (forall k :: k in r.memberships ==>
          && k.group == g.id
          && r.memberships[k] == Membership(g.id, k.user, k.user == g.organizer, r.memberships[k].status))
    && (forall u :: u in g.members <==> ActiveMembership(r, u))
  }

  /** Before activation nothing has been scheduled, paid or recorded. */
  ghost predicate Blank(r: Rota) {
    && r.group.payoutOrder == [] && r.group.totalCycles == 0 && r.group.activatedAt == None
    && r.cycles == map[] && r.contributions == map[]
    && r.payouts == [] && r.escrow == [] && r.events == []
  }

  predicate InSchedule(r: Rota, c: int) {
    0 <= c < |r.group.payoutOrder|
  }

  /** From activation on the schedule is fixed and the last cycle decides the state. */
  ghost predicate ScheduleOk(r: Rota) {
    var g := r.group;
    && WellFormed(g)
    && g.totalCycles == |g.payoutOrder|
    && g.activatedAt.Some?
    && (forall k :: k in r.cycles <==> k.group == g.id && InSchedule(r, k.index))
    && (forall c :: InSchedule(r, c) ==>
          r.cycles[Slot(r, c)] == ScheduledCycle(g, g.activatedAt.value, c).(settled := Settled(r, c)))
    && g.state in {Active, Closed}
    && (g.state == Closed <==> Settled(r, |g.payoutOrder| - 1))
  }

  /** The pot of cycle c: one contribution per member who has paid. */
  function Pot(r: Rota, c: int): Money {
    r.group.amount * |PaidKeys(r, c)|
  }

  ghost predicate ContributionOk(r: Rota, k: ContribKey) {
    && k in r.contributions
    && k.group == r.group.id && k.user in r.group.members && InSchedule(r, k.cycle)
    && r.contributions[k] ==
         Contribution(k.group, k.user, k.cycle, r.group.amount, r.contributions[k].paidAt)
  }

  ghost predicate EntryOk(r: Rota, e: EscrowEntry) {
    && e.group == r.group.id && InSchedule(r, e.cycle)
    && match e.direction
       case Credit => Paid(r, e.user, e.cycle) && e.amount == r.group.amount
       case Debit => Settled(r, e.cycle) && e.user == r.group.payoutOrder[e.cycle] && e.amount == Pot(r, e.cycle)
  }

  ghost predicate PayoutOk(r: Rota, p: Payout) {
    && InSchedule(r, p.cycle) && Settled(r, p.cycle)
    && var pot := Pot(r, p.cycle);
       p == Payout(r.group.id, p.cycle, r.group.payoutOrder[p.cycle], pot, Expected(r.group), Expected(r.group) - pot)
  }

  ghost predicate EventOk(r: Rota, e: Event) {
    && e.group == r.group.id && InSchedule(r, e.cycle)
    && match e.kind
       case ContributionMade => Paid(r, e.user, e.cycle) && e.amount == r.group.amount
       case ContributionMissed =>
         e.user in r.group.members && !Paid(r, e.user, e.cycle) && Settled(r, e.cycle) && e.amount == r.group.amount
       case PayoutReceived =>
         Settled(r, e.cycle) && e.user == r.group.payoutOrder[e.cycle] && e.amount == Pot(r, e.cycle)
       case _ => false
  }

  ghost predicate NoneMissed(r: Rota, c: int) {
    forall u :: Tally(r, ContributionMissed, u, c) == 0
  }

  /** Every member who did not pay cycle c has exactly one Missed event for it, and nobody else has any. */
  ghost predicate DefaultsRecorded(r: Rota, c: int) {
    forall u :: Tally(r, ContributionMissed, u, c) == if u in r.group.members && !Paid(r, u, c) then 1 else 0
  }

  /** The books of one cycle. */
  ghost predicate CycleOk(r: Rota, c: int) {
    && Sum(r.escrow, CreditsTo(c)) == Pot(r, c)
    && Sum(r.escrow, DebitsFrom(c)) == (if Settled(r, c) then Pot(r, c) else 0)
    && Sum(r.payouts, PayoutsOf(c)) == (if Settled(r, c) then 1 else 0)
    && Sum(r.events, PayoutEventsOf(c)) == (if Settled(r, c) then 1 else 0)
    && (forall u :: Tally(r, ContributionMade, u, c) == if Paid(r, u, c) then 1 else 0)
    && (NoneMissed(r, c) || (Settled(r, c) && DefaultsRecorded(r, c)))
  }

  ghost predicate BooksOk(r: Rota) {
    && (forall k :: k in r.contributions ==> ContributionOk(r, k))
    && (forall e :: e in r.escrow ==> EntryOk(r, e))
    && (forall p :: p in r.payouts ==> PayoutOk(r, p))
    && (forall e :: e in r.events ==> EventOk(r, e))
    && (forall c :: InSchedule(r, c) ==> CycleOk(r, c))
  }

  ghost predicate Inv(r: Rota) {
    RosterOk(r) && if r.group.state == Created then Blank(r) else ScheduleOk(r) && BooksOk(r)
  }
}
