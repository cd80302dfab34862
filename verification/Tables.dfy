/** The store's flat tables, and the one group seen through them. */
module Tables {
  import opened Domain
  import opened Sums
  import opened Rotation
  import opened RotationProofs
  import opened RotationTheorems
  import opened DeadlineTheorems
  import opened StepLaws

  // ----- one group's rows -----

  function MembershipsOf(ms: map<MemberKey, Membership>, g: Id): map<MemberKey, Membership> {
    map k | k in ms && k.group == g :: ms[k]
  }

  function CyclesOf(cs: map<CycleKey, Cycle>, g: Id): map<CycleKey, Cycle> {
    map k | k in cs && k.group == g :: cs[k]
  }

  function ContributionsOf(cs: map<ContribKey, Contribution>, g: Id): map<ContribKey, Contribution> {
    map k | k in cs && k.group == g :: cs[k]
  }

  function PayoutFor(g: Id): Payout -> bool {
    (p: Payout) => p.group == g
  }

  function EntryFor(g: Id): EscrowEntry -> bool {
    (e: EscrowEntry) => e.group == g
  }

  function EventFor(g: Id): Event -> bool {
    (e: Event) => e.group == g
  }

  datatype Tables = Tables(
    groups: map<Id, Group>,
    memberships: map<MemberKey, Membership>,
    cycles: map<CycleKey, Cycle>,
    contributions: map<ContribKey, Contribution>,
    payouts: seq<Payout>,
    escrow: seq<EscrowEntry>,
    events: seq<Event>)

  /** Everything the tables hold about group g. */
  function ViewOf(t: Tables, g: Id): Rota
    requires g in t.groups
  {
    Rota(t.groups[g], MembershipsOf(t.memberships, g), CyclesOf(t.cycles, g), ContributionsOf(t.contributions, g),
         Filter(t.payouts, PayoutFor(g)), Filter(t.escrow, EntryFor(g)), Filter(t.events, EventFor(g)))
  }

  /** Every row belongs to a known group and is filed under its own key. */
  predicate RowsOk(t: Tables) {
    && (forall g :: g in t.groups ==> t.groups[g].id == g)
    && (forall k :: k in t.memberships ==> k.group in t.groups)
    && (forall k :: k in t.cycles ==>
          k.group in t.groups && t.cycles[k].group == k.group && t.cycles[k].index == k.index)
    && (forall k :: k in t.contributions ==>
          k.group in t.groups
          && t.contributions[k].group == k.group && t.contributions[k].user == k.user
          && t.contributions[k].cycle == k.cycle)
    && (forall p :: p in t.payouts ==> p.group in t.groups)
    && (forall e :: e in t.escrow ==> e.group in t.groups)
    && (forall e :: e in t.events ==> e.group in t.groups)
  }

  // ----- what one write does to every view -----

  /** From t to u group g became r and every other group stayed as it was. */
  ghost predicate Changed(t: Tables, u: Tables, g: Id, r: Rota) {
    && u.groups.Keys == t.groups.Keys && g in u.groups
    && ViewOf(u, g) == r
    && forall h :: h in t.groups && h != g ==> ViewOf(u, h) == ViewOf(t, h)
  }

  lemma ChangedView(t: Tables, u: Tables, g: Id, r: Rota)
    requires Changed(t, u, g, r)
    ensures g in u.groups && g in t.groups && ViewOf(u, g) == r
  {
  }

  lemma ChangedNot(t: Tables, g: Id)
    requires g in t.groups
    ensures Changed(t, t, g, ViewOf(t, g))
  {
  }

  lemma ChangedTwice(t: Tables, u: Tables, v: Tables, g: Id, r: Rota, s: Rota)
    requires Changed(t, u, g, r) && Changed(u, v, g, s)
    ensures Changed(t, v, g, s)
  {
  }

  lemma PutMembership(t: Tables, m: Membership)
    requires m.group in t.groups
    ensures var r, k := ViewOf(t, m.group), MemberKey(m.group, m.user);
            Changed(t, t.(memberships := t.memberships[k := m]), m.group, r.(memberships := r.memberships[k := m]))
  {
    var k := MemberKey(m.group, m.user);
    forall g ensures MembershipsOf(t.memberships[k := m], g) ==
      if m.group == g then MembershipsOf(t.memberships, g)[k := m] else MembershipsOf(t.memberships, g) {}
  }

  lemma PutCycle(t: Tables, c: Cycle)
    requires c.group in t.groups
    ensures var r, k := ViewOf(t, c.group), CycleKey(c.group, c.index);
            Changed(t, t.(cycles := t.cycles[k := c]), c.group, r.(cycles := r.cycles[k := c]))
  {
    var k := CycleKey(c.group, c.index);
    forall g ensures CyclesOf(t.cycles[k := c], g) ==
      if c.group == g then CyclesOf(t.cycles, g)[k := c] else CyclesOf(t.cycles, g) {}
  }

  lemma PutContribution(t: Tables, c: Contribution)
    requires c.group in t.groups
    ensures var r, k := ViewOf(t, c.group), ContribKey(c.group, c.user, c.cycle);
            Changed(t, t.(contributions := t.contributions[k := c]), c.group,
                    r.(contributions := r.contributions[k := c]))
  {
    var k := ContribKey(c.group, c.user, c.cycle);
    forall g ensures ContributionsOf(t.contributions[k := c], g) ==
      if c.group == g then ContributionsOf(t.contributions, g)[k := c] else ContributionsOf(t.contributions, g) {}
  }

  lemma AddEntry(t: Tables, e: EscrowEntry)
    requires e.group in t.groups
    ensures var r := ViewOf(t, e.group);
            Changed(t, t.(escrow := t.escrow + [e]), e.group, r.(escrow := r.escrow + [e]))
  {
    forall g ensures Filter(t.escrow + [e], EntryFor(g)) ==
      if e.group == g then Filter(t.escrow, EntryFor(g)) + [e] else Filter(t.escrow, EntryFor(g)) {
      FilterSnoc(t.escrow, e, EntryFor(g));
    }
    hide Filter;
  }

  lemma AddPayout(t: Tables, p: Payout)
    requires p.group in t.groups
    ensures var r := ViewOf(t, p.group);
            Changed(t, t.(payouts := t.payouts + [p]), p.group, r.(payouts := r.payouts + [p]))
  {
    forall g ensures Filter(t.payouts + [p], PayoutFor(g)) ==
      if p.group == g then Filter(t.payouts, PayoutFor(g)) + [p] else Filter(t.payouts, PayoutFor(g)) {
      FilterSnoc(t.payouts, p, PayoutFor(g));
    }
    hide Filter;
  }

  lemma AddEvent(t: Tables, e: Event)
    requires e.group in t.groups
    ensures var r := ViewOf(t, e.group);
            Changed(t, t.(events := t.events + [e]), e.group, r.(events := r.events + [e]))
  {
    forall g ensures Filter(t.events + [e], EventFor(g)) ==
      if e.group == g then Filter(t.events, EventFor(g)) + [e] else Filter(t.events, EventFor(g)) {
      FilterSnoc(t.events, e, EventFor(g));
    }
    hide Filter;
  }

  /** From t to u the group g appeared, as it is created, and nothing else happened. */
  ghost predicate CreatedFrom(t: Tables, u: Tables, g: Group) {
    && g.id !in t.groups && u.groups == t.groups[g.id := g]
    && ViewOf(u, g.id) == NewRota(g)
    && forall h :: h in t.groups ==> ViewOf(u, h) == ViewOf(t, h)
  }

  /** A group nobody has written about yet starts with an empty view. */
  lemma CreationIsolated(t: Tables, g: Group, m: Membership)
    requires RowsOk(t) && g.id !in t.groups && m == Membership(g.id, g.organizer, true, ActiveMember)
    ensures var u := t.(groups := t.groups[g.id := g],
                        memberships := t.memberships[MemberKey(g.id, g.organizer) := m]);
            RowsOk(u) && CreatedFrom(t, u, g)
  {
    var listed := t.(groups := t.groups[g.id := g]);
    FilterNone(t.payouts, PayoutFor(g.id));
    FilterNone(t.escrow, EntryFor(g.id));
    FilterNone(t.events, EventFor(g.id));
    assert ViewOf(listed, g.id) == Rota(g, map[], map[], map[], [], [], []);
    PutMembership(listed, m);
  }

  // ----- the platform-wide invariant, on values -----

  /** Every group is at some point of a run of the group machine, and its members are known users. */
  ghost predicate GroupsOk(t: Tables, users: set<Id>) {
    forall g :: g in t.groups ==>
      Reachable(ViewOf(t, g)) && forall m :: m in ViewOf(t, g).group.members ==> m in users
  }

  /** Nobody is asked to join a group they organize. */
  predicate RequestsOk(qs: map<Id, Request>, groups: map<Id, Group>, users: set<Id>) {
    forall q :: q in qs ==>
      qs[q].group in groups && qs[q].user in users && qs[q].user != groups[qs[q].group].organizer
  }

  lemma StepMembers(r: Rota, s: Step)
    requires Reachable(r)
    ensures Apply(r, s).group.organizer == r.group.organizer
    ensures forall m :: m in Apply(r, s).group.members ==> m in r.group.members || (s.JoinStep? && m == s.user)
  {
    LifecycleIsOneWay(r, s);
    if s.DeadlineStep? && r.group.state == Created {
      DrainStops(r, s.now);
    }
  }

  lemma StepKeepsGroupsOk(t: Tables, u: Tables, users: set<Id>, g: Id, s: Step)
    requires GroupsOk(t, users) && g in t.groups && Changed(t, u, g, Apply(ViewOf(t, g), s))
    requires s.JoinStep? ==> s.user in users
    ensures GroupsOk(u, users)
    ensures forall h :: h in t.groups ==> u.groups[h].organizer == t.groups[h].organizer
  {
    hide Reachable, Apply;
    var r := ViewOf(t, g);
    assert forall h :: h in t.groups ==> ViewOf(t, h).group == t.groups[h] && ViewOf(u, h).group == u.groups[h];
    hide ViewOf;
    ReachableStep(r, s);
    StepMembers(r, s);
  }

  lemma RequestsFrame(qs: map<Id, Request>, groups: map<Id, Group>, later: map<Id, Group>, users: set<Id>)
    requires RequestsOk(qs, groups, users) && groups.Keys <= later.Keys
    requires forall h :: h in groups ==> later[h].organizer == groups[h].organizer
    ensures RequestsOk(qs, later, users)
  {
  }

  lemma CreationKeepsGroupsOk(t: Tables, u: Tables, users: set<Id>, g: Group)
    requires GroupsOk(t, users) && CreatedFrom(t, u, g) && g.organizer in users
    requires ValidConfig(g.name, g.amount, g.cycleLength, g.maxMembers)
    requires g == NewGroup(g.id, g.name, g.organizer, g.amount, g.cycleLength, g.maxMembers, g.createdAt)
    ensures GroupsOk(u, users)
  {
    ReachableNew(g);
    hide ViewOf, Reachable;
  }

  // ----- single rows -----

  lemma GroupRow(t: Tables, g: Id)
    requires RowsOk(t) && g in t.groups
    ensures ViewOf(t, g).group == t.groups[g] && t.groups[g].id == g
  {
  }

  lemma MembershipRow(t: Tables, g: Id, user: Id)
    requires g in t.groups && Reachable(ViewOf(t, g))
    ensures var k, r := MemberKey(g, user), ViewOf(t, g);
            && (k in t.memberships <==> k in r.memberships)
            && (k in t.memberships && r.group.id == g ==>
                  && r.memberships[k] == t.memberships[k]
                  && t.memberships[k].group == g && t.memberships[k].user == user)
  {
    ReachableInv(ViewOf(t, g));
    hide ScheduleOk, BooksOk;
  }

  lemma RequestRow(qs: map<Id, Request>, groups: map<Id, Group>, users: set<Id>, id: Id)
    requires RequestsOk(qs, groups, users) && id in qs
    ensures qs[id].group in groups && qs[id].user in users && qs[id].user != groups[qs[id].group].organizer
  {
  }

  lemma RequestAdded(qs: map<Id, Request>, groups: map<Id, Group>, users: set<Id>, id: Id, q: Request)
    requires RequestsOk(qs, groups, users)
    requires q.group in groups && q.user in users && q.user != groups[q.group].organizer
    ensures RequestsOk(qs[id := q], groups, users)
  {
  }

  /** Whoever is not a member is not the organizer. */
  lemma OrganizerIsMember(t: Tables, users: set<Id>, g: Id)
    requires RowsOk(t) && GroupsOk(t, users) && g in t.groups
    ensures t.groups[g].organizer in t.groups[g].members
  {
    ReachableInv(ViewOf(t, g));
    hide ScheduleOk, BooksOk;
  }

  lemma RequestDecided(qs: map<Id, Request>, groups: map<Id, Group>, users: set<Id>, id: Id, status: RequestStatus)
    requires RequestsOk(qs, groups, users) && id in qs
    ensures RequestsOk(qs[id := qs[id].(status := status)], groups, users)
  {
  }

  lemma CycleRow(t: Tables, users: set<Id>, g: Id, c: int)
    requires RowsOk(t) && GroupsOk(t, users) && g in t.groups
    ensures var k, r := CycleKey(g, c), ViewOf(t, g);
            && (k in t.cycles <==> HasCycle(r, c))
            && (k in t.cycles ==>
                  && r.cycles[Slot(r, c)] == t.cycles[k]
                  && t.cycles[k].group == g && t.cycles[k].index == c && t.cycles[k].payee in users)
  {
    var r := ViewOf(t, g);
    if CycleKey(g, c) in t.cycles {
      assert HasCycle(r, c);
      PayeeIsMember(r, c);
    }
  }

  lemma PayeeIsMember(r: Rota, c: int)
    requires Reachable(r) && HasCycle(r, c)
    ensures r.cycles[Slot(r, c)].payee in r.group.members
  {
    ReachableInv(r);
    hide BooksOk, RosterOk;
    assert InSchedule(r, c);
  }

  lemma ContributionRow(t: Tables, g: Id, user: Id, c: int)
    requires RowsOk(t) && g in t.groups
    ensures ContribKey(g, user, c) in t.contributions <==> Paid(ViewOf(t, g), user, c)
  {
  }

  lemma GroupReachable(t: Tables, users: set<Id>, g: Id)
    requires GroupsOk(t, users) && g in t.groups
    ensures Reachable(ViewOf(t, g))
    ensures forall m :: m in ViewOf(t, g).group.members ==> m in users
  {
  }

  /** The state between a contribution and the settlement it may trigger. */
  lemma PostReachable(r: Rota, u: Id, c: int, now: Time)
    requires Reachable(r) && CanContribute(r, u, c)
    ensures Inv(Post(r, u, c, now))
  {
    hide Inv;
    ReachableInv(r);
    PostKeepsInv(r, u, c, now);
  }

  /** The state after a contribution has been recorded, before anything is settled. */
  lemma PostFrame(r: Rota, u: Id, c: int, now: Time)
    requires CanContribute(r, u, c)
    ensures var s := Post(r, u, c, now);
            && s.group == r.group && s.cycles == r.cycles && HasCycle(s, c)
            && Apply(r, ContributeStep(u, c, now)) == if Full(s, c) then Settle(s, c) else s
  {
  }

  lemma ApplyDeadline(r: Rota, now: Time)
    ensures Apply(r, DeadlineStep(now)) == Drain(r, now).0
  {
  }

  lemma ApplySettle(r: Rota, c: int)
    ensures Apply(r, SettleStep(c)) == if CanSettle(r, c) then Settle(r, c) else r
  {
  }

  lemma CurrentRow(t: Tables, users: set<Id>, g: Id, c: int)
    requires RowsOk(t) && g in t.groups && Inv(ViewOf(t, g)) && HasCycle(ViewOf(t, g), c)
    requires forall m :: m in ViewOf(t, g).group.members ==> m in users
    ensures ViewOf(t, g).cycles[Slot(ViewOf(t, g), c)].payee in users
  {
    hide BooksOk, RosterOk;
    assert InSchedule(ViewOf(t, g), c);
  }

  lemma NothingDue(r: Rota, now: Time, c: int)
    requires IsCurrent(r, c) && !Overdue(r, c, now)
    ensures forall d :: !Due(r, d, now)
  {
    forall d ensures !Due(r, d, now) {
      assert d < c && HasCycle(r, d) ==> Settled(r, d);
      assert c < d && IsCurrent(r, d) ==> Settled(r, c);
    }
  }

  // ----- the whole platform under one tick -----

  /** The views of a set of groups, kept for comparison. */
  ghost function ViewsOf(t: Tables): map<Id, Rota> {
    map g | g in t.groups :: ViewOf(t, g)
  }

  /** How many cycles a tick settles in each group. */
  ghost function TickCount(views: map<Id, Rota>, now: Time): Id -> int {
    g => if g in views then Drain(views[g], now).1 else 0
  }

  function CreationRank(groups: map<Id, Group>): Id -> int {
    g => if g in groups then groups[g].createdAt else 0
  }

  /** The groups of a page: oldest first, no repeats, and all of them if they fit. */
  ghost predicate IsPage(page: seq<Id>, groups: map<Id, Group>, limit: nat) {
    && Distinct(page)
    && (forall g :: g in page ==> g in groups)
    && |page| == (if |groups| <= limit then |groups| else limit)
    && (forall i, j :: 0 <= i < j < |page| ==> groups[page[i]].createdAt <= groups[page[j]].createdAt)
    && (forall g, h :: g in groups && g !in page && h in page ==> groups[h].createdAt <= groups[g].createdAt)
  }

  lemma PageCovers(page: seq<Id>, groups: map<Id, Group>, limit: nat)
    requires IsPage(page, groups, limit) && |groups| <= limit
    ensures forall g :: g in groups ==> g in page
  {
    SetOfSize(page);
    SubsetSize(SetOf(page), groups.Keys);
    assert forall g :: g in groups ==> g in SetOf(page);
  }

  lemma PageFacts(page: seq<Id>, groups: map<Id, Group>, limit: nat)
    requires IsPage(page, groups, limit)
    ensures Distinct(page) && forall g :: g in page ==> g in groups
  {
  }

  lemma PageSize(page: seq<Id>, groups: map<Id, Group>, limit: nat)
    requires IsPage(page, groups, limit)
    ensures |page| == if |groups| <= limit then |groups| else limit
  {
  }

  /** page lists the groups outside todo, none younger than any group in todo. */
  ghost predicate Paged(page: seq<Id>, groups: map<Id, Group>, todo: set<Id>) {
    && todo <= groups.Keys
    && Distinct(page)
    && (forall g :: g in page <==> g in groups && g !in todo)
    && |page| + |todo| == |groups|
    && (forall i, j :: 0 <= i < j < |page| ==> groups[page[i]].createdAt <= groups[page[j]].createdAt)
    && (forall g, h :: g in todo && h in page ==> groups[h].createdAt <= groups[g].createdAt)
  }

  lemma PageNext(page: seq<Id>, groups: map<Id, Group>, todo: set<Id>, g: Id)
    requires Paged(page, groups, todo) && g in todo
    requires forall h :: h in todo ==> CreationRank(groups)(g) <= CreationRank(groups)(h)
    ensures Paged(page + [g], groups, todo - {g})
  {
    forall h | h in todo ensures groups[g].createdAt <= groups[h].createdAt {
      assert CreationRank(groups)(g) <= CreationRank(groups)(h);
    }
  }

  lemma PageDone(page: seq<Id>, groups: map<Id, Group>, todo: set<Id>)
    requires Paged(page, groups, todo)
    ensures forall limit: nat :: |page| <= limit && (todo == {} || |page| == limit) ==> IsPage(page, groups, limit)
  {
    assert |groups| == |groups.Keys|;
  }

  /** u is t with the groups of page drained. */
  ghost predicate Ticked(t: Tables, u: Tables, page: seq<Id>, now: Time) {
    && u.groups.Keys == t.groups.Keys
    && forall g :: g in t.groups ==>
         ViewOf(u, g) == if g in page then Drain(ViewOf(t, g), now).0 else ViewOf(t, g)
  }

  lemma TickedNext(t: Tables, u: Tables, v: Tables, page: seq<Id>, g: Id, now: Time)
    requires Ticked(t, u, page, now) && g in t.groups && g !in page
    requires Changed(u, v, g, Drain(ViewOf(u, g), now).0)
    ensures Ticked(t, v, page + [g], now)
  {
    hide ViewOf, Drain;
  }

  lemma CountOne(t: Tables, g: Id, now: Time)
    requires g in t.groups
    ensures TickCount(ViewsOf(t), now)(g) == Drain(ViewOf(t, g), now).1
  {
  }

  lemma TickedComplete(t: Tables, u: Tables, page: seq<Id>, now: Time, users: set<Id>)
    requires Ticked(t, u, page, now) && RowsOk(u) && GroupsOk(t, users)
    requires forall g :: g in page ==> g in t.groups
    ensures forall g, c :: g in page && u.groups[g].state == Active && CanSettle(ViewOf(u, g), c) ==>
                      !Overdue(ViewOf(u, g), c, now)
  {
    forall g | g in page
      ensures u.groups[g].state == Active ==>
                forall c :: CanSettle(ViewOf(u, g), c) ==> !Overdue(ViewOf(u, g), c, now)
    {
      GroupRow(u, g);
      hide ViewOf, RowsOk, Drain, Reachable;
      TickCompleteAndIdempotent(ViewOf(t, g), now);
    }
  }

  /** A tick, row by row: a cycle of an ACTIVE group on the page is settled afterwards
      exactly if it was before or the time is past its deadline. */
  lemma TickedRowExactly(t: Tables, u: Tables, page: seq<Id>, now: Time, users: set<Id>, k: CycleKey)
    requires Ticked(t, u, page, now) && RowsOk(t) && GroupsOk(t, users)
    requires k in t.cycles && k.group in page && t.groups[k.group].state == Active
    ensures k in u.cycles
    ensures u.cycles[k].settled <==> t.cycles[k].settled || now > t.cycles[k].deadline
  {
    var r := ViewOf(t, k.group);
    GroupReachable(t, users, k.group);
    GroupRow(t, k.group);
    CycleOfView(t, k);
    CycleInSchedule(r, k.index);
    TickExact(r, now, k.index);
    TickKeepsRow(r, now, k.index);
    hide Drain, Reachable;
    ViewedCycle(u, k, Drain(r, now).0);
  }

  lemma CycleInSchedule(r: Rota, c: int)
    requires Reachable(r) && HasCycle(r, c)
    ensures InSchedule(r, c)
  {
    hide RosterOk, BooksOk;
    ReachableInv(r);
  }

  lemma CycleOfView(t: Tables, k: CycleKey)
    requires RowsOk(t) && k in t.cycles
    ensures var r := ViewOf(t, k.group);
            r.group.id == k.group && HasCycle(r, k.index) && r.cycles[Slot(r, k.index)] == t.cycles[k]
  {
  }

  lemma ViewedCycle(u: Tables, k: CycleKey, s: Rota)
    requires k.group in u.groups && ViewOf(u, k.group) == s && s.group.id == k.group && HasCycle(s, k.index)
    ensures k in u.cycles && s.cycles[Slot(s, k.index)] == u.cycles[k]
  {
  }

  /** The cycle rows that were open in t and are settled in u. */
  function SettledRows(t: Tables, u: Tables): set<CycleKey> {
    set k | k in t.cycles && !t.cycles[k].settled && k in u.cycles && u.cycles[k].settled
  }

  /** The same within some of the groups. */
  function SettledRowsOf(t: Tables, u: Tables, page: seq<Id>): set<CycleKey> {
    set k | k in SettledRows(t, u) && k.group in page
  }

  /** What a drain settles in one group, read off its cycle rows. */
  lemma DrainedRows(r: Rota, now: Time)
    requires Reachable(r)
    ensures var s := Drain(r, now).0;
            && Drain(r, now).1 == |OpenCycles(r) - OpenCycles(s)|
            && OpenCycles(s) <= OpenCycles(r)
            && forall k :: k in OpenCycles(r) ==> k in s.cycles
  {
    hide Inv, Drain, OpenCycles;
    ReachableInv(r);
    DrainCount(r, now);
    ReachableStep(r, DeadlineStep(now));
    ReachableInv(Drain(r, now).0);
    SameKeys(r, Drain(r, now).0);
  }

  lemma SameKeys(r: Rota, s: Rota)
    requires Inv(r) && Inv(s) && s.group == r.group.(state := s.group.state)
    requires OpenCycles(s) <= OpenCycles(r)
    ensures forall k :: k in OpenCycles(r) ==> k in s.cycles
  {
    hide RosterOk, BooksOk;
  }

  lemma GroupRows(t: Tables, u: Tables, g: Id, now: Time, users: set<Id>)
    requires RowsOk(t) && RowsOk(u) && GroupsOk(t, users) && g in t.groups && g in u.groups
    requires ViewOf(u, g) == Drain(ViewOf(t, g), now).0
    ensures |SettledRowsOf(t, u, [g])| == Drain(ViewOf(t, g), now).1
  {
    hide ViewOf, RowsOk, GroupsOk, Drain, Reachable, OpenCycles, SettledRowsOf;
    GroupReachable(t, users, g);
    DrainedRows(ViewOf(t, g), now);
    RowsAreOpen(t, u, g);
  }

  lemma RowsAreOpen(t: Tables, u: Tables, g: Id)
    requires g in t.groups && g in u.groups
    requires forall k :: k in OpenCycles(ViewOf(t, g)) ==> k in ViewOf(u, g).cycles
    ensures SettledRowsOf(t, u, [g]) == OpenCycles(ViewOf(t, g)) - OpenCycles(ViewOf(u, g))
  {
    var open, still := OpenCycles(ViewOf(t, g)), OpenCycles(ViewOf(u, g));
    hide Filter;
    forall k ensures k in SettledRowsOf(t, u, [g]) <==> k in open && k !in still {
      assert k in open <==> k in t.cycles && k.group == g && !t.cycles[k].settled;
      assert k in still <==> k in u.cycles && k.group == g && !u.cycles[k].settled;
    }
  }

  /** The count of a tick is the number of cycle rows it turned from open to settled. */
  lemma TickedRows(t: Tables, u: Tables, page: seq<Id>, now: Time, users: set<Id>)
    requires Ticked(t, u, page, now) && RowsOk(t) && RowsOk(u) && GroupsOk(t, users)
    requires Distinct(page) && forall g :: g in page ==> g in t.groups
    ensures Sum(page, TickCount(ViewsOf(t), now)) == |SettledRows(t, u)|
  {
    hide ViewOf, RowsOk, GroupsOk, Drain, Sum, SettledRows, TickCount, ViewsOf, Ticked, Distinct;
    TickedRowsUpTo(t, u, page, |page|, now, users);
    PrefixWhole(page);
    forall k | k in SettledRows(t, u) ensures k.group in page {
      UndrainedRow(t, u, page, now, k);
    }
    assert SettledRowsOf(t, u, page) == SettledRows(t, u);
  }

  lemma UndrainedRow(t: Tables, u: Tables, page: seq<Id>, now: Time, k: CycleKey)
    requires Ticked(t, u, page, now) && RowsOk(t) && k in SettledRows(t, u)
    ensures k.group in page
  {
    hide Drain, ViewOf;
    if ViewOf(u, k.group) == ViewOf(t, k.group) {
      SameRow(t, u, k);
    }
  }

  lemma SameRow(t: Tables, u: Tables, k: CycleKey)
    requires k.group in t.groups && k.group in u.groups && k in t.cycles && k in u.cycles
    requires ViewOf(u, k.group) == ViewOf(t, k.group)
    ensures u.cycles[k] == t.cycles[k]
  {
    assert CyclesOf(t.cycles, k.group)[k] == t.cycles[k] && CyclesOf(u.cycles, k.group)[k] == u.cycles[k];
  }

  lemma {:induction false} TickedRowsUpTo(t: Tables, u: Tables, page: seq<Id>, n: nat, now: Time, users: set<Id>)
    requires Ticked(t, u, page, now) && RowsOk(t) && RowsOk(u) && GroupsOk(t, users)
    requires n <= |page| && Distinct(page) && forall g :: g in page ==> g in t.groups
    ensures Sum(page[..n], TickCount(ViewsOf(t), now)) == |SettledRowsOf(t, u, page[..n])|
  {
    hide ViewOf, RowsOk, GroupsOk, Drain, Sum, SettledRows, TickCount, ViewsOf;
    if n == 0 {
      EmptyCount(TickCount(ViewsOf(t), now));
      assert SettledRowsOf(t, u, page[..0]) == {};
    } else {
      var g := page[n - 1];
      TickedRowsUpTo(t, u, page, n - 1, now, users);
      PrefixNext(page, n - 1);
      SumSnoc(page[..n - 1], g, TickCount(ViewsOf(t), now));
      CountOne(t, g, now);
      GroupRows(t, u, g, now, users);
      assert SettledRowsOf(t, u, page[..n]) == SettledRowsOf(t, u, page[..n - 1]) + SettledRowsOf(t, u, [g]);
      assert SettledRowsOf(t, u, page[..n - 1]) !! SettledRowsOf(t, u, [g]);
    }
  }

  lemma EmptyCount(w: Id -> int)
    ensures Sum([], w) == 0
  {
  }

  lemma {:induction false} NothingToCount(t: Tables, page: seq<Id>, now: Time)
    requires forall g :: g in page ==> g in t.groups
    requires forall g :: g in t.groups ==> Drain(ViewOf(t, g), now) == (ViewOf(t, g), 0)
    ensures Sum(page, TickCount(ViewsOf(t), now)) == 0
  {
    if page != [] {
      var last := |page| - 1;
      NothingToCount(t, page[..last], now);
      CountOne(t, page[last], now);
    }
  }
}
