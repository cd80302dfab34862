/** The orchestration service over its in-memory store and chain. Each call is
    proved to be one step of the group machine on the group it names, and to
    leave every other group alone. */
module Platform {
  import opened Domain
  import opened Sums
  import opened Rotation
  import opened RotationProofs
  import opened RotationTheorems
  import opened DeadlineTheorems
  import opened Tables

  const PAGE_LIMIT := 100000

  class Service {
    var users: map<Id, User>
    var joinRequests: map<Id, Request>
    var invitations: map<Id, Request>
    var groups: map<Id, Group>
    var memberships: map<MemberKey, Membership>
    var cycles: map<CycleKey, Cycle>
    var contributions: map<ContribKey, Contribution>
    var payouts: seq<Payout>
    var escrow: seq<EscrowEntry>
    /** Everything the chain has emitted, oldest first. */
    var events: seq<Event>

    /** The users who have at some moment been active with their identity approved. */
    ghost var cleared: set<Id>

    // ----- the abstract state -----

    function AllTables(): Tables
      reads this
    {
      Tables(groups, memberships, cycles, contributions, payouts, escrow, events)
    }

    function View(g: Id): Rota
      requires g in groups
      reads this
    {
      ViewOf(AllTables(), g)
    }

    /** Every group is at some point of a run of the group machine, its members have
        been active and approved at some moment, so has everybody who asks to join, and
        nobody is asked to join a group they organize. */
    ghost predicate Valid()
      reads this
    {
      && RowsOk(AllTables())
      && GroupsOk(AllTables(), cleared)
      && RequestsOk(joinRequests, groups, cleared)
      && RequestsOk(invitations, groups, users.Keys)
      && ClearedOk()
    }

    /** Whoever is active and approved now has been so at some moment, and only known
        users ever have. */
    ghost predicate ClearedOk()
      reads this
    {
      cleared <= users.Keys && forall u :: u in users && users[u].active && users[u].kycApproved ==> u in cleared
    }

    twostate predicate SameUsers()
      reads this
    {
      users == old(users) && cleared == old(cleared)
    }

    /** Group g is now r; every other group, and every user, is as before. */
    twostate predicate Became(g: Id, r: Rota)
      reads this
    {
      Changed(old(AllTables()), AllTables(), g, r) && users == old(users) && cleared == old(cleared)
    }

    twostate predicate SameRequests()
      reads this
    {
      joinRequests == old(joinRequests) && invitations == old(invitations)
    }

    constructor ()
      ensures Valid() && groups == map[] && users == map[] && cleared == {}
    {
      users, joinRequests, invitations, groups := map[], map[], map[], map[];
      memberships, cycles, contributions := map[], map[], map[];
      payouts, escrow, events, cleared := [], [], [], {};
    }

    // ----- the store and the chain -----

    method SaveGroup(g: Group)
      requires RowsOk(AllTables()) && g.id in groups
      modifies this
      ensures RowsOk(AllTables()) && SameRequests()
      ensures Became(g.id, old(View(g.id)).(group := g))
    {
      groups := groups[g.id := g];
    }

    method SaveMembership(m: Membership)
      requires RowsOk(AllTables()) && m.group in groups
      modifies this
      ensures RowsOk(AllTables()) && SameRequests()
      ensures Became(m.group, old(View(m.group)).(memberships :=
                       old(View(m.group)).memberships[MemberKey(m.group, m.user) := m]))
    {
      hide ViewOf;
      PutMembership(AllTables(), m);
      memberships := memberships[MemberKey(m.group, m.user) := m];
    }

    method SaveCycle(c: Cycle)
      requires RowsOk(AllTables()) && c.group in groups
      modifies this
      ensures RowsOk(AllTables()) && SameRequests()
      ensures Became(c.group, old(View(c.group)).(cycles :=
                       old(View(c.group)).cycles[CycleKey(c.group, c.index) := c]))
    {
      hide ViewOf;
      PutCycle(AllTables(), c);
      cycles := cycles[CycleKey(c.group, c.index) := c];
    }

    method SaveContribution(c: Contribution)
      requires RowsOk(AllTables()) && c.group in groups
      modifies this
      ensures RowsOk(AllTables()) && SameRequests()
      ensures Became(c.group, old(View(c.group)).(contributions :=
                       old(View(c.group)).contributions[ContribKey(c.group, c.user, c.cycle) := c]))
    {
      hide ViewOf;
      PutContribution(AllTables(), c);
      contributions := contributions[ContribKey(c.group, c.user, c.cycle) := c];
    }

    method AppendEscrowEntry(e: EscrowEntry)
      requires RowsOk(AllTables()) && e.group in groups
      modifies this
      ensures RowsOk(AllTables()) && SameRequests()
      ensures Became(e.group, old(View(e.group)).(escrow := old(View(e.group)).escrow + [e]))
    {
      hide ViewOf;
      AddEntry(AllTables(), e);
      escrow := escrow + [e];
    }

    method SavePayout(p: Payout)
      requires RowsOk(AllTables()) && p.group in groups
      modifies this
      ensures RowsOk(AllTables()) && SameRequests()
      ensures Became(p.group, old(View(p.group)).(payouts := old(View(p.group)).payouts + [p]))
    {
      hide ViewOf;
      AddPayout(AllTables(), p);
      payouts := payouts + [p];
    }

    /** The chain's emit, reached through SubmitContribution, RecordDefault and RecordPayout. */
    method Emit(e: Event)
      requires RowsOk(AllTables()) && e.group in groups
      modifies this
      ensures RowsOk(AllTables()) && SameRequests()
      ensures Became(e.group, old(View(e.group)).(events := old(View(e.group)).events + [e]))
      ensures events == old(events) + [e]
    {
      hide ViewOf;
      AddEvent(AllTables(), e);
      events := events + [e];
    }

    /** The contributions to a cycle, in whatever order the map yields them. */
    method ListContributionsByCycle(g: Id, c: int) returns (out: seq<Contribution>)
      requires RowsOk(AllTables()) && g in groups
      ensures |out| == |PaidKeys(View(g), c)|
      ensures Sum(out, ContributionAmount()) == Gross(View(g), c)
      ensures UsersOf(out) == PaidUsers(View(g), c)
    {
      var rows := ContributionsOf(contributions, g);
      var keys := set k | k in rows && k.cycle == c;
      assert keys == PaidKeys(View(g), c);
      out := ListRows(rows, keys);
    }

    /** The cycles of a group in index order. */
    method ListCyclesByGroup(g: Id) returns (out: seq<Cycle>)
      requires RowsOk(AllTables()) && g in groups
      ensures InIndexOrder(out)
      ensures forall c :: c in out ==> HasCycle(View(g), c.index) && View(g).cycles[Slot(View(g), c.index)] == c
      ensures forall i :: HasCycle(View(g), i) ==> View(g).cycles[Slot(View(g), i)] in out
    {
      out := SortByIndex(CyclesOf(cycles, g));
    }

    /** The first unsettled cycle of a group. */
    method CurrentCycle(g: Id) returns (res: Result<Cycle>)
      requires RowsOk(AllTables()) && g in groups
      ensures res.Ok? ==> IsCurrent(View(g), res.value.index) &&
                          res.value == View(g).cycles[Slot(View(g), res.value.index)]
      ensures res.Err? ==> res.error == NotFound && forall c :: !CanSettle(View(g), c)
    {
      var list := ListCyclesByGroup(g);
      for i := 0 to |list|
        invariant forall j :: 0 <= j < i ==> list[j].settled
      {
        if !list[i].settled {
          forall d | d < list[i].index && HasCycle(View(g), d) ensures Settled(View(g), d) {
            var j :| 0 <= j < |list| && list[j] == View(g).cycles[Slot(View(g), d)];
            assert j < i;
          }
          return Ok(list[i]);
        }
      }
      return Err(NotFound);
    }

    /** The test for early settlement: as many contributions as members. */
    method AllContributed(g: Group, c: int) returns (full: bool)
      requires RowsOk(AllTables()) && g.id in groups && View(g.id).group == g
      requires Inv(View(g.id)) && g.state == Active
      ensures full <==> Full(View(g.id), c)
    {
      var list := ListContributionsByCycle(g.id, c);
      full := |list| >= |g.members|;
      CountTestExact(View(g.id), c);
    }

    // ----- settlement -----

    /** Disburses a cycle's pool, records the payout, debits the escrow, marks the
        cycle settled and closes the group after its last cycle. */
    method SettleGroupCycle(g0: Group, cycle: Cycle) returns (res: Result<Payout>)
      requires RowsOk(AllTables()) && g0.id in groups && View(g0.id).group == g0
      requires HasCycle(View(g0.id), cycle.index) && View(g0.id).cycles[Slot(View(g0.id), cycle.index)] == cycle
      modifies this
      ensures RowsOk(AllTables()) && SameRequests()
      ensures res.Ok? <==> !cycle.settled && cycle.payee in users
      ensures res.Err? ==> res.error == (if cycle.settled then Conflict else NotFound)
      ensures res.Err? ==> Untouched()
      ensures res.Ok? ==> Became(g0.id, Settle(old(View(g0.id)), cycle.index))
      ensures res.Ok? ==> View(g0.id).payouts == old(View(g0.id).payouts) + [res.value]
    {
      assert cycle.group == g0.id;
      hide ViewOf, RowsOk, Settle;
      if cycle.settled {
        return Err(Conflict);
      }
      var contribs := ListContributionsByCycle(g0.id, cycle.index);
      var gross := 0;
      for i := 0 to |contribs|
        modifies {}
        invariant gross == Sum(contribs[..i], ContributionAmount())
      {
        assert contribs[..i + 1] == contribs[..i] + [contribs[i]];
        SumSnoc(contribs[..i], contribs[i], ContributionAmount());
        gross := gross + contribs[i].amount;
      }
      assert contribs[..|contribs|] == contribs;
      if cycle.payee !in users {
        return Err(NotFound);
      }
      var payout := PayOut(g0, cycle, gross);
      return Ok(payout);
    }

    /** The writes of a settlement, once the pool is known and the payee found. */
    method PayOut(g0: Group, cycle: Cycle, gross: Money) returns (payout: Payout)
      requires RowsOk(AllTables()) && g0.id in groups && View(g0.id).group == g0 && cycle.group == g0.id
      requires HasCycle(View(g0.id), cycle.index) && View(g0.id).cycles[Slot(View(g0.id), cycle.index)] == cycle
      requires gross == Gross(View(g0.id), cycle.index)
      modifies this
      ensures RowsOk(AllTables()) && SameRequests()
      ensures Became(g0.id, Settle(old(View(g0.id)), cycle.index))
      ensures View(g0.id).payouts == old(View(g0.id).payouts) + [payout]
    {
      hide ViewOf, RowsOk, Changed, Gross, Settle, WithPayout, WithMark, Expected;
      ghost var t, r := AllTables(), View(g0.id);
      SettleParts(r, cycle.index);
      payout := RecordPayout(g0, cycle, gross);
      ghost var u, s := AllTables(), WithPayout(r, cycle, gross);
      ChangedView(t, u, g0.id, s);
      MarkSettled(g0, cycle);
      ChangedTwice(t, u, AllTables(), g0.id, s, Settle(r, cycle.index));
      ChangedView(t, AllTables(), g0.id, Settle(r, cycle.index));
    }

    /** Event, escrow debit and payout row of a settlement. */
    method RecordPayout(g0: Group, cycle: Cycle, gross: Money) returns (payout: Payout)
      requires RowsOk(AllTables()) && g0.id in groups && View(g0.id).group == g0 && cycle.group == g0.id
      modifies this
      ensures RowsOk(AllTables()) && SameRequests()
      ensures payout == Payout(g0.id, cycle.index, cycle.payee, gross, Expected(g0), Expected(g0) - gross)
      ensures Became(g0.id, WithPayout(old(View(g0.id)), cycle, gross))
    {
      hide ViewOf, RowsOk, Expected;
      var expected := Expected(g0);
      payout := Payout(g0.id, cycle.index, cycle.payee, gross, expected, expected - gross);
      Emit(Event(PayoutReceived, cycle.payee, g0.id, cycle.index, gross));
      AppendEscrowEntry(EscrowEntry(g0.id, cycle.index, cycle.payee, Debit, gross));
      SavePayout(payout);
    }

    /** Marks a cycle settled and walks the group to CLOSED after its last one. */
    method MarkSettled(g0: Group, cycle: Cycle)
      requires RowsOk(AllTables()) && g0.id in groups && View(g0.id).group == g0 && cycle.group == g0.id
      modifies this
      ensures RowsOk(AllTables()) && SameRequests()
      ensures Became(g0.id, WithMark(old(View(g0.id)), cycle))
    {
      hide ViewOf, RowsOk;
      SaveCycle(cycle.(settled := true));
      if cycle.index == g0.totalCycles - 1 {
        var g := TryTransition(g0, Settlement);
        g := TryTransition(g, Closed);
        SaveGroup(g);
      }
    }

    /** Records a default for every member who has not paid, in member order, then settles. */
    method SettleOverdueCycle(g: Group, cycle: Cycle) returns (res: Result<Payout>)
      requires RowsOk(AllTables()) && g.id in groups && View(g.id).group == g
      requires HasCycle(View(g.id), cycle.index) && View(g.id).cycles[Slot(View(g.id), cycle.index)] == cycle
      requires !cycle.settled && cycle.payee in users
      modifies this
      ensures RowsOk(AllTables()) && SameRequests()
      ensures res.Ok? && Became(g.id, SettleOverdue(old(View(g.id)), cycle.index))
    {
      hide ViewOf, RowsOk, Settle;
      var contribs := ListContributionsByCycle(g.id, cycle.index);
      var paid := UsersOf(contribs);
      ghost var before := View(g.id);
      for i := 0 to |g.members|
        invariant RowsOk(AllTables()) && SameRequests()
        invariant Became(g.id, before.(events := before.events + Misses(g, cycle.index, paid, i)))
      {
        if g.members[i] !in paid {
          Emit(Event(ContributionMissed, g.members[i], g.id, cycle.index, g.amount));
        }
      }
      assert View(g.id) == RecordDefaults(before, cycle.index);
      res := SettleGroupCycle(g, cycle);
    }

    /** A step of one group, with its new member (if any) a known user, keeps the platform valid. */
    lemma StepKeepsValid(before: Tables, g: Id, s: Step)
      requires GroupsOk(before, cleared)
      requires RequestsOk(joinRequests, before.groups, cleared) && RequestsOk(invitations, before.groups, users.Keys)
      requires RowsOk(AllTables())
      requires g in before.groups && Changed(before, AllTables(), g, Apply(ViewOf(before, g), s))
      requires ClearedOk() && (s.JoinStep? ==> s.user in cleared)
      ensures Valid()
    {
      hide RowsOk, GroupsOk, ViewOf, Apply, RequestsOk;
      StepKeepsGroupsOk(before, AllTables(), cleared, g, s);
      RequestsFrame(joinRequests, before.groups, groups, cleared);
      RequestsFrame(invitations, before.groups, groups, users.Keys);
    }

    twostate predicate Untouched()
      reads this
    {
      AllTables() == old(AllTables()) && SameUsers() && SameRequests()
    }

    /** The two rows of a creation, and no other. */
    twostate predicate Founded(g: Group)
      reads this
    {
      && groups == old(groups)[g.id := g]
      && memberships == old(memberships)[MemberKey(g.id, g.organizer) :=
                                           Membership(g.id, g.organizer, true, ActiveMember)]
      && cycles == old(cycles) && contributions == old(contributions)
      && payouts == old(payouts) && escrow == old(escrow) && events == old(events)
    }

    // ----- users -----

    /** Registration, KYC decisions, suspension: a user record is written, never deleted. */
    method SaveUser(id: Id, user: User)
      requires Valid()
      modifies this
      ensures Valid() && AllTables() == old(AllTables()) && SameRequests()
      ensures users == old(users)[id := user]
      ensures cleared == old(cleared) + if user.active && user.kycApproved then {id} else {}
    {
      users := users[id := user];
      cleared := cleared + if user.active && user.kycApproved then {id} else {};
    }

    /** Everybody in every group has at some moment been active with their identity
        approved: when they founded it, asked to join it or accepted to. */
    lemma MembersWereCleared(g: Id, m: Id)
      requires Valid() && g in groups && m in groups[g].members
      ensures m in cleared && m in users
    {
      hide Reachable;
      GroupReachable(AllTables(), cleared, g);
    }

    // ----- assembly -----

    method CreateGroup(id: Id, creator: Id, name: string, amount: Money, cycleLength: Time, maxMembers: int, now: Time)
      returns (res: Result<Group>)
      requires Valid() && id !in groups
      modifies this
      ensures Valid() && SameRequests() && SameUsers()
      ensures res.Ok? <==> && creator in users && users[creator].active && users[creator].kycApproved
                           && name != "" && amount > 0 && cycleLength > 0 && maxMembers >= 2
      ensures res.Err? ==> Untouched()
      ensures res.Err? ==> res.error == if creator !in users then NotFound
                                        else if !(users[creator].active && users[creator].kycApproved) then Forbidden
                                        else Validation
      ensures res.Ok? ==> res.value == Group(id, name, creator, amount, cycleLength, maxMembers, 0, [creator], [],
                                             Created, now, None)
                          && CreatedFrom(old(AllTables()), AllTables(), res.value)
                          && Founded(res.value)
    {
      if creator !in users {
        return Err(NotFound);
      }
      if !users[creator].CanParticipate() {
        return Err(Forbidden);
      }
      var g := Group(id, name, creator, amount, cycleLength, maxMembers, 0, [creator], [], Created, now, None);
      if !ValidConfig(g.name, g.amount, g.cycleLength, g.maxMembers) {
        return Err(Validation);
      }
      InstallGroup(g);
      return Ok(g);
    }

    /** The writes of a creation: the group and its organizer's membership. */
    method InstallGroup(g: Group)
      requires Valid() && g.id !in groups && g.organizer in cleared
      requires ValidConfig(g.name, g.amount, g.cycleLength, g.maxMembers)
      requires g == NewGroup(g.id, g.name, g.organizer, g.amount, g.cycleLength, g.maxMembers, g.createdAt)
      modifies this
      ensures Valid() && SameRequests() && SameUsers()
      ensures CreatedFrom(old(AllTables()), AllTables(), g) && Founded(g)
    {
      ghost var t := AllTables();
      var m := Membership(g.id, g.organizer, true, ActiveMember);
      CreationIsolated(t, g, m);
      hide ViewOf, RowsOk, GroupsOk, RequestsOk;
      groups := groups[g.id := g];
      assert AllTables() == t.(groups := t.groups[g.id := g]);
      memberships := memberships[MemberKey(g.id, g.organizer) := m];
      CreationKeepsGroupsOk(t, AllTables(), cleared, g);
      RequestsFrame(joinRequests, t.groups, groups, cleared);
      RequestsFrame(invitations, t.groups, groups, users.Keys);
    }

    method RequestToJoin(id: Id, user: Id, g: Id) returns (res: Result<Request>)
      requires Valid() && id !in joinRequests
      modifies this
      ensures Valid() && AllTables() == old(AllTables()) && SameUsers() && invitations == old(invitations)
      ensures res.Ok? <==> && user in users && users[user].active && users[user].kycApproved
                           && g in groups && groups[g].state == Created && user !in groups[g].members
                           && |groups[g].members| < groups[g].maxMembers
      ensures res.Err? ==> res.error == if user !in users then NotFound
                                        else if !(users[user].active && users[user].kycApproved) then Forbidden
                                        else if g !in groups then NotFound
                                        else Conflict
      ensures joinRequests == if res.Ok? then old(joinRequests)[id := Request(g, user, Pending)] else old(joinRequests)
    {
      hide ViewOf, RowsOk, GroupsOk, RequestsOk;
      if user !in users {
        return Err(NotFound);
      }
      if !users[user].CanParticipate() {
        return Err(Forbidden);
      }
      if g !in groups {
        return Err(NotFound);
      }
      GroupRow(AllTables(), g);
      OrganizerIsMember(AllTables(), cleared, g);
      if groups[g].state != Created {
        return Err(Conflict);
      }
      var member := HasMember(groups[g], user);
      if member || |groups[g].members| >= groups[g].maxMembers {
        return Err(Conflict);
      }
      RequestAdded(joinRequests, groups, cleared, id, Request(g, user, Pending));
      joinRequests := joinRequests[id := Request(g, user, Pending)];
      return Ok(joinRequests[id]);
    }

    method Invite(id: Id, actor: Id, g: Id, invitee: Id) returns (res: Result<Request>)
      requires Valid() && id !in invitations
      modifies this
      ensures Valid() && AllTables() == old(AllTables()) && SameUsers() && joinRequests == old(joinRequests)
      ensures res.Ok? <==> && g in groups && groups[g].organizer == actor && groups[g].state == Created
                           && invitee in users && invitee !in groups[g].members
      ensures res.Err? ==> res.error == if g !in groups then NotFound
                                        else if groups[g].organizer != actor then Forbidden
                                        else if groups[g].state != Created then Conflict
                                        else if invitee !in users then NotFound
                                        else Conflict
      ensures invitations == if res.Ok? then old(invitations)[id := Request(g, invitee, Pending)] else old(invitations)
    {
      hide ViewOf, RowsOk, GroupsOk, RequestsOk;
      if g !in groups {
        return Err(NotFound);
      }
      if groups[g].organizer != actor {
        return Err(Forbidden);
      }
      if groups[g].state != Created {
        return Err(Conflict);
      }
      if invitee !in users {
        return Err(NotFound);
      }
      var member := HasMember(groups[g], invitee);
      if member {
        return Err(Conflict);
      }
      OrganizerIsMember(AllTables(), cleared, g);
      RequestAdded(invitations, groups, users.Keys, id, Request(g, invitee, Pending));
      invitations := invitations[id := Request(g, invitee, Pending)];
      return Ok(invitations[id]);
    }

    method AddMember(g0: Group, user: Id)
      requires Valid() && g0.id in groups && groups[g0.id] == g0
      requires CanJoin(View(g0.id), user) && user in cleared
      modifies this
      ensures Valid() && SameRequests()
      ensures Became(g0.id, Apply(old(View(g0.id)), JoinStep(user)))
    {
      ghost var before := View(g0.id);
      assert Apply(before, JoinStep(user)) == Join(before, user) && before.group == g0;
      hide ViewOf, RowsOk, GroupsOk, RequestsOk, Apply;
      SaveGroup(g0.(members := g0.members + [user]));
      SaveMembership(Membership(g0.id, user, false, ActiveMember));
      StepKeepsValid(old(AllTables()), g0.id, JoinStep(user));
    }

    /** Room for a newcomer in a group that is still being assembled. */
    predicate HasRoom(g: Id)
      requires g in groups
      reads this
    {
      groups[g].state == Created && |groups[g].members| < groups[g].maxMembers
    }

    method DecideJoinRequest(actor: Id, id: Id, approve: bool) returns (res: Result<Request>)
      requires Valid()
      modifies this
      ensures Valid() && SameUsers() && invitations == old(invitations)
      ensures res.Err? ==> res.error == if id !in joinRequests then NotFound
                                        else if groups[joinRequests[id].group].organizer != actor then Forbidden
                                        else Conflict
      ensures res.Ok? <==> old(id in joinRequests && groups[joinRequests[id].group].organizer == actor
                               && joinRequests[id].status == Pending
                               && (approve ==> HasRoom(joinRequests[id].group)))
      ensures res.Ok? ==> res.value == old(joinRequests)[id].(status := if approve then Accepted else Declined)
                          && joinRequests == old(joinRequests)[id := res.value]
      ensures res.Ok? ==> res.value.group in old(groups)
      ensures res.Ok? ==> var q, r := res.value, old(View(res.value.group));
                          Became(q.group, if approve then Apply(r, JoinStep(q.user)) else r)
      ensures res.Err? ==> Untouched()
    {
      hide ViewOf, RowsOk, GroupsOk, RequestsOk, Apply;
      if id !in joinRequests {
        return Err(NotFound);
      }
      RequestRow(joinRequests, groups, cleared, id);
      GroupRow(AllTables(), joinRequests[id].group);
      var q := joinRequests[id];
      var g := groups[q.group];
      if g.organizer != actor {
        return Err(Forbidden);
      }
      if q.status != Pending {
        return Err(Conflict);
      }
      if approve {
        if g.state != Created || |g.members| >= g.maxMembers {
          return Err(Conflict);
        }
        AddMember(g, q.user);
        q := q.(status := Accepted);
      } else {
        q := q.(status := Declined);
      }
      RequestDecided(joinRequests, groups, cleared, id, q.status);
      joinRequests := joinRequests[id := q];
      return Ok(q);
    }

    method RespondInvitation(user: Id, id: Id, accept: bool) returns (res: Result<Request>)
      requires Valid()
      modifies this
      ensures Valid() && SameUsers() && joinRequests == old(joinRequests)
      ensures res.Err? ==> res.error == if id !in invitations then NotFound
                                        else if invitations[id].user != user then Forbidden
                                        else if invitations[id].status != Pending then Conflict
                                        else if accept && !(users[user].active && users[user].kycApproved)
                                        then Forbidden
                                        else Conflict
      ensures res.Ok? <==> old(id in invitations && invitations[id].user == user && invitations[id].status == Pending
                               && (accept ==> users[user].active && users[user].kycApproved
                                              && HasRoom(invitations[id].group)))
      ensures res.Ok? ==> res.value == old(invitations)[id].(status := if accept then Accepted else Declined)
                          && invitations == old(invitations)[id := res.value]
      ensures res.Ok? ==> res.value.group in old(groups)
      ensures res.Ok? ==> var q, r := res.value, old(View(res.value.group));
                          Became(q.group, if accept then Apply(r, JoinStep(q.user)) else r)
      ensures res.Err? ==> Untouched()
    {
      hide ViewOf, RowsOk, GroupsOk, RequestsOk, Apply;
      if id !in invitations {
        return Err(NotFound);
      }
      RequestRow(invitations, groups, users.Keys, id);
      GroupRow(AllTables(), invitations[id].group);
      var q := invitations[id];
      if q.user != user {
        return Err(Forbidden);
      }
      if q.status != Pending {
        return Err(Conflict);
      }
      var g := groups[q.group];
      if accept {
        if !users[user].CanParticipate() {
          return Err(Forbidden);
        }
        if g.state != Created || |g.members| >= g.maxMembers {
          return Err(Conflict);
        }
        AddMember(g, user);
        q := q.(status := Accepted);
      } else {
        q := q.(status := Declined);
      }
      RequestDecided(invitations, groups, users.Keys, id, q.status);
      invitations := invitations[id := q];
      return Ok(q);
    }

    method DropMember(g0: Group, user: Id, status: MembershipStatus) returns (res: Result<()>)
      requires Valid() && g0.id in groups && groups[g0.id] == g0
      requires g0.state == Created && user != g0.organizer && status != ActiveMember
      modifies this
      ensures Valid() && SameRequests()
      ensures Became(g0.id, Apply(old(View(g0.id)), DropStep(user, status)))
      ensures res.Ok? <==> CanDrop(old(View(g0.id)), user)
      ensures res.Err? ==> res.error == NotFound && Untouched()
    {
      GroupRow(AllTables(), g0.id);
      MembershipRow(AllTables(), g0.id, user);
      hide ViewOf, RowsOk, GroupsOk, RequestsOk;
      var k := MemberKey(g0.id, user);
      if k !in memberships {
        return Err(NotFound);
      }
      WithdrawMember(g0, memberships[k], status);
      return Ok(());
    }

    /** The writes of a departure. */
    method WithdrawMember(g0: Group, member: Membership, status: MembershipStatus)
      requires Valid() && g0.id in groups && View(g0.id).group == g0 && member.group == g0.id
      requires CanDrop(View(g0.id), member.user) && status != ActiveMember
      requires View(g0.id).memberships[MemberKey(g0.id, member.user)] == member
      modifies this
      ensures Valid() && SameRequests()
      ensures Became(g0.id, Apply(old(View(g0.id)), DropStep(member.user, status)))
    {
      ghost var before := View(g0.id);
      assert Apply(before, DropStep(member.user, status)) == Drop(before, member.user, status);
      hide ViewOf, RowsOk, GroupsOk, RequestsOk, Apply;
      var out := FilterMembers(g0.members, member.user);
      SaveGroup(g0.(members := out));
      SaveMembership(member.(status := status));
      StepKeepsValid(old(AllTables()), g0.id, DropStep(member.user, status));
    }

    method LeaveGroup(user: Id, g: Id) returns (res: Result<()>)
      requires Valid()
      modifies this
      ensures Valid() && SameRequests()
      ensures res.Ok? <==> old(g in groups && groups[g].state == Created && groups[g].organizer != user
                               && MemberKey(g, user) in memberships)
      ensures g in old(groups) ==> Became(g, Apply(old(View(g)), DropStep(user, Left)))
      ensures res.Err? ==> Untouched()
      ensures res.Err? ==> res.error == if g !in groups then NotFound
                                        else if groups[g].state != Created then Conflict
                                        else if groups[g].organizer == user then Forbidden
                                        else NotFound
    {
      if g !in groups {
        return Err(NotFound);
      }
      if groups[g].state != Created {
        return Err(Conflict);
      }
      if groups[g].organizer == user {
        return Err(Forbidden);
      }
      res := DropMember(groups[g], user, Left);
    }

    method RemoveMember(actor: Id, g: Id, user: Id) returns (res: Result<()>)
      requires Valid()
      modifies this
      ensures Valid() && SameRequests()
      ensures res.Ok? <==> old(g in groups && groups[g].organizer == actor && groups[g].state == Created
                               && groups[g].organizer != user && MemberKey(g, user) in memberships)
      ensures g in old(groups) && old(groups)[g].organizer == actor ==>
                Became(g, Apply(old(View(g)), DropStep(user, Removed)))
      ensures res.Err? ==> Untouched()
      ensures res.Err? ==> res.error == if g !in groups then NotFound
                                        else if groups[g].organizer != actor then Forbidden
                                        else if groups[g].state != Created then Conflict
                                        else if groups[g].organizer == user then Forbidden
                                        else NotFound
    {
      if g !in groups {
        return Err(NotFound);
      }
      if groups[g].organizer != actor {
        return Err(Forbidden);
      }
      if groups[g].state != Created {
        return Err(Conflict);
      }
      if groups[g].organizer == user {
        return Err(Forbidden);
      }
      res := DropMember(groups[g], user, Removed);
    }

    // ----- activation -----

    method ActivateGroup(actor: Id, g: Id, order: seq<Id>, now: Time) returns (res: Result<Group>)
      requires Valid()
      modifies this
      ensures Valid() && SameRequests()
      ensures res.Ok? <==> g in old(groups) && old(groups)[g].organizer == actor && CanActivate(old(View(g)), order)
      ensures g in old(groups) && old(groups)[g].organizer == actor ==>
                Became(g, Apply(old(View(g)), ActivateStep(order, now)))
      ensures res.Err? ==> Untouched()
      ensures res.Err? ==> res.error == if g !in groups then NotFound
                                        else if groups[g].organizer != actor then Forbidden
                                        else if groups[g].state != Created then InvalidTransition
                                        else Validation
      ensures res.Ok? ==> res.value == groups[g]
    {
      hide ViewOf, RowsOk, GroupsOk, RequestsOk;
      if g !in groups {
        return Err(NotFound);
      }
      GroupRow(AllTables(), g);
      var group := groups[g];
      if group.organizer != actor {
        return Err(Forbidden);
      }
      if !CanTransition(group.state, Active) {
        return Err(InvalidTransition);
      }
      var payoutOrder := order;
      if |payoutOrder| == 0 {
        payoutOrder := group.members;
      }
      group := group.(payoutOrder := payoutOrder, totalCycles := |payoutOrder|);
      assert group == Planned(groups[g], order);
      var ok := Validate(group);
      if !ok {
        return Err(Validation);
      }
      group := group.(activatedAt := Some(now));
      group := TryTransition(group, Active);
      InstallSchedule(group, order, now);
      GroupRow(AllTables(), g);
      return Ok(group);
    }

    /** An activated group installed with its schedule is one activation step. */
    method InstallSchedule(group: Group, order: seq<Id>, now: Time)
      requires Valid() && group.id in groups && CanActivate(View(group.id), order)
      requires group == Activate(View(group.id), order, now).group
      modifies this
      ensures Valid() && SameRequests()
      ensures Became(group.id, Apply(old(View(group.id)), ActivateStep(order, now)))
      ensures View(group.id).group == group
    {
      ghost var before := View(group.id);
      hide ViewOf, RowsOk, GroupsOk, RequestsOk, ClearedOk, CanActivate;
      assert Apply(before, ActivateStep(order, now)) == Activate(before, order, now);
      hide Apply;
      SaveGroup(group);
      SaveSchedule(group, now);
      StepKeepsValid(old(AllTables()), group.id, ActivateStep(order, now));
    }

    /** One cycle of the schedule saved after the ones before it. */
    method SaveNext(ghost t: Tables, ghost before: Rota, group: Group, now: Time, i: nat, c: Cycle)
      requires RowsOk(AllTables()) && group.id in groups && i < |group.payoutOrder|
      requires c == ScheduledCycle(group, now, i)
      requires Changed(t, AllTables(), group.id, WithSchedule(before, group, now, i))
      modifies this
      ensures RowsOk(AllTables()) && SameRequests() && SameUsers()
      ensures Changed(t, AllTables(), group.id, WithSchedule(before, group, now, i + 1))
    {
      hide ViewOf, RowsOk, Changed, WithSchedule, Scheduled, ScheduledCycle, Deadline;
      ghost var u := AllTables();
      ChangedView(t, u, group.id, WithSchedule(before, group, now, i));
      NextScheduled(before, group, now, i);
      SaveCycle(c);
      ChangedTwice(t, u, AllTables(), group.id, WithSchedule(before, group, now, i),
                   WithSchedule(before, group, now, i + 1));
    }

    /** The cycles of an activated group, saved one by one. */
    method SaveSchedule(group: Group, now: Time)
      requires RowsOk(AllTables()) && group.id in groups
      modifies this
      ensures RowsOk(AllTables()) && SameRequests()
      ensures Became(group.id, WithSchedule(old(View(group.id)), group, now, |group.payoutOrder|))
    {
      hide ViewOf, RowsOk, Changed, WithSchedule, Scheduled, ScheduledCycle, Deadline;
      ghost var t, before := AllTables(), View(group.id);
      var schedule := Cycles(group, now);
      NoScheduleYet(before, group, now);
      ChangedNot(t, group.id);
      for i := 0 to |schedule|
        invariant RowsOk(AllTables()) && SameRequests() && SameUsers() && group.id in groups
        invariant Changed(t, AllTables(), group.id, WithSchedule(before, group, now, i))
      {
        SaveNext(t, before, group, now, i, schedule[i]);
        ChangedView(t, AllTables(), group.id, WithSchedule(before, group, now, i + 1));
      }
    }

    // ----- contribution -----

    method SubmitContribution(user: Id, g: Id, c: int, now: Time) returns (res: Result<Contribution>)
      requires Valid()
      modifies this
      ensures Valid() && SameRequests()
      ensures res.Ok? <==> g in old(groups) && CanContribute(old(View(g)), user, c)
      ensures g in old(groups) ==> Became(g, Apply(old(View(g)), ContributeStep(user, c, now)))
      ensures res.Err? ==> Untouched()
      ensures res.Err? ==> res.error == if g !in groups then NotFound
                                        else if groups[g].state != Active then Conflict
                                        else if user !in groups[g].members then Forbidden
                                        else if !HasCycle(View(g), c) then NotFound
                                        else Conflict
      ensures res.Ok? ==> res.value == Contribution(g, user, c, old(groups)[g].amount, now)
    {
      hide ViewOf, GroupsOk, RequestsOk;
      if g !in groups {
        return Err(NotFound);
      }
      GroupRow(AllTables(), g);
      CycleRow(AllTables(), cleared, g, c);
      ContributionRow(AllTables(), g, user, c);
      hide RowsOk;
      var group := groups[g];
      if group.state != Active {
        return Err(Conflict);
      }
      var member := HasMember(group, user);
      if !member {
        return Err(Forbidden);
      }
      if CycleKey(g, c) !in cycles {
        return Err(NotFound);
      }
      var cycle := cycles[CycleKey(g, c)];
      if cycle.settled || ContribKey(g, user, c) in contributions {
        return Err(Conflict);
      }
      var contribution := AcceptContribution(group, cycle, user, now);
      return Ok(contribution);
    }

    /** The writes of a contribution, with the early settlement it may trigger. */
    method AcceptContribution(group: Group, cycle: Cycle, user: Id, now: Time) returns (x: Contribution)
      requires Valid() && group.id in groups && View(group.id).group == group
      requires CanContribute(View(group.id), user, cycle.index) && cycle.payee in users && cycle.group == group.id
      requires View(group.id).cycles[Slot(View(group.id), cycle.index)] == cycle
      modifies this
      ensures Valid() && SameRequests()
      ensures Became(group.id, Apply(old(View(group.id)), ContributeStep(user, cycle.index, now)))
      ensures x == Contribution(group.id, user, cycle.index, group.amount, now)
    {
      ghost var before := View(group.id);
      ghost var step := ContributeStep(user, cycle.index, now);
      GroupReachable(AllTables(), cleared, group.id);
      hide ViewOf, RowsOk, GroupsOk, RequestsOk, Reachable, Apply, Settle, Inv;
      PostReachable(before, user, cycle.index, now);
      PostFrame(before, user, cycle.index, now);
      hide Post;
      x := Contribution(group.id, user, cycle.index, group.amount, now);
      RecordContribution(group, x);
      EarlySettlement(group, cycle);
      StepKeepsValid(old(AllTables()), group.id, step);
    }

    /** If everyone has now paid, settle early. */
    method EarlySettlement(group: Group, cycle: Cycle)
      requires RowsOk(AllTables()) && group.id in groups && View(group.id).group == group
      requires Inv(View(group.id)) && group.state == Active
      requires HasCycle(View(group.id), cycle.index)
      requires View(group.id).cycles[Slot(View(group.id), cycle.index)] == cycle
      requires !cycle.settled && cycle.payee in users
      modifies this
      ensures RowsOk(AllTables()) && SameRequests()
      ensures var r := old(View(group.id));
              Became(group.id, if Full(r, cycle.index) then Settle(r, cycle.index) else r)
    {
      hide ViewOf, RowsOk, Inv, Settle;
      var full := AllContributed(group, cycle.index);
      if full {
        var _ := SettleGroupCycle(group, cycle);
      }
    }

    method RecordContribution(group: Group, x: Contribution)
      requires RowsOk(AllTables()) && group.id in groups && View(group.id).group == group
      requires x == Contribution(group.id, x.user, x.cycle, group.amount, x.paidAt)
      modifies this
      ensures RowsOk(AllTables()) && SameRequests()
      ensures Became(group.id, Post(old(View(group.id)), x.user, x.cycle, x.paidAt))
    {
      hide ViewOf, RowsOk;
      Emit(Event(ContributionMade, x.user, group.id, x.cycle, group.amount));
      SaveContribution(x);
      AppendEscrowEntry(EscrowEntry(group.id, x.cycle, x.user, Credit, group.amount));
    }

    // ----- settlement by hand -----

    method SettleByHand(g: Id, c: int) returns (res: Result<Payout>)
      requires Valid() && g in groups
      modifies this
      ensures Valid() && SameRequests()
      ensures res.Ok? <==> CanSettle(old(View(g)), c)
      ensures Became(g, Apply(old(View(g)), SettleStep(c)))
      ensures res.Ok? ==> View(g).payouts == old(View(g).payouts) + [res.value]
      ensures res.Err? ==> Untouched()
      ensures res.Err? ==> res.error == if HasCycle(View(g), c) then Conflict else NotFound
    {
      GroupRow(AllTables(), g);
      CycleRow(AllTables(), cleared, g, c);
      ApplySettle(View(g), c);
      hide ViewOf, RowsOk, GroupsOk, RequestsOk, Settle, Apply;
      if CycleKey(g, c) !in cycles {
        return Err(NotFound);
      }
      res := SettleGroupCycle(groups[g], cycles[CycleKey(g, c)]);
      if res.Ok? {
        StepKeepsValid(old(AllTables()), g, SettleStep(c));
      }
    }

    method SettleCycle(actor: Id, g: Id, c: int) returns (res: Result<Payout>)
      requires Valid()
      modifies this
      ensures Valid() && SameRequests()
      ensures res.Ok? <==> g in old(groups) && old(groups)[g].organizer == actor && CanSettle(old(View(g)), c)
      ensures g in old(groups) && old(groups)[g].organizer == actor ==> Became(g, Apply(old(View(g)), SettleStep(c)))
      ensures res.Ok? ==> View(g).payouts == old(View(g).payouts) + [res.value]
      ensures res.Err? ==> Untouched()
      ensures res.Err? ==> res.error == if g !in groups then NotFound
                                        else if groups[g].organizer != actor then Forbidden
                                        else if HasCycle(View(g), c) then Conflict else NotFound
    {
      hide ViewOf, RowsOk, GroupsOk, RequestsOk, Apply;
      if g !in groups {
        return Err(NotFound);
      }
      if groups[g].organizer != actor {
        return Err(Forbidden);
      }
      res := SettleByHand(g, c);
    }

    /** The operator's settlement: the same, without the organizer check. */
    method AdminSettleCycle(g: Id, c: int) returns (res: Result<Payout>)
      requires Valid()
      modifies this
      ensures Valid() && SameRequests()
      ensures res.Ok? <==> g in old(groups) && CanSettle(old(View(g)), c)
      ensures g in old(groups) ==> Became(g, Apply(old(View(g)), SettleStep(c)))
      ensures res.Ok? ==> View(g).payouts == old(View(g).payouts) + [res.value]
      ensures res.Err? ==> Untouched()
      ensures res.Err? ==> res.error == if g in groups && HasCycle(View(g), c) then Conflict else NotFound
    {
      hide ViewOf, RowsOk, GroupsOk, RequestsOk, Apply;
      if g !in groups {
        return Err(NotFound);
      }
      res := SettleByHand(g, c);
    }

    // ----- deadlines -----

    /** One round of the loop below: the current cycle is overdue and gets settled. */
    method EnforceDeadline(g: Group, cycle: Cycle, now: Time)
      requires RowsOk(AllTables()) && g.id in groups && View(g.id).group == g && Inv(View(g.id))
      requires Due(View(g.id), cycle.index, now) && View(g.id).cycles[Slot(View(g.id), cycle.index)] == cycle
      requires forall m :: m in g.members ==> m in users
      modifies this
      ensures RowsOk(AllTables()) && SameRequests()
      ensures Became(g.id, SettleOverdue(old(View(g.id)), cycle.index)) && Inv(View(g.id))
      ensures Drain(old(View(g.id)), now) == (Drain(View(g.id), now).0, Drain(View(g.id), now).1 + 1)
      ensures |OpenCycles(View(g.id))| == |OpenCycles(old(View(g.id)))| - 1
      ensures View(g.id).group == g.(state := View(g.id).group.state)
    {
      hide ViewOf, RowsOk, Inv, Drain, SettleOverdue;
      DrainUnfold(View(g.id), now, cycle.index);
      OverdueKeepsInv(View(g.id), cycle.index);
      CurrentRow(AllTables(), users.Keys, g.id, cycle.index);
      var _ := SettleOverdueCycle(g, cycle);
    }

    /** The scheduler's loop over one ACTIVE group: look up the current cycle,
        settle it if it is overdue, reload the group, and give up after
        TotalCycles + 1 rounds. */
    method DrainActive(id: Id, now: Time) returns (settled: nat)
      requires RowsOk(AllTables()) && id in groups && groups[id].id == id && View(id).group == groups[id]
      requires Inv(View(id)) && groups[id].state == Active
      requires forall m :: m in groups[id].members ==> m in users
      requires |OpenCycles(View(id))| <= groups[id].totalCycles
      modifies this
      ensures RowsOk(AllTables()) && SameRequests()
      ensures Became(id, Drain(old(View(id)), now).0)
      ensures settled == Drain(old(View(id)), now).1
      ensures settled == 0 ==> Untouched()
    {
      hide ViewOf, RowsOk, Inv, Drain, SettleOverdue, OpenCycles;
      settled := 0;
      ghost var start := View(id);
      var g := groups[id];
      var guard := 0;
      while guard <= g.totalCycles
        invariant RowsOk(AllTables()) && SameRequests()
        invariant id in groups && Became(id, View(id)) && Inv(View(id))
        invariant View(id).group == g == start.group
        invariant Drain(start, now) == (Drain(View(id), now).0, settled + Drain(View(id), now).1)
        invariant |OpenCycles(View(id))| + guard <= g.totalCycles
        invariant settled == 0 ==> Untouched()
      {
        var current := CurrentCycle(id);
        if current.Err? {
          break;
        }
        var cycle := current.value;
        if !cycle.IsOverdue(now) {
          NothingDue(View(id), now, cycle.index);
          break;
        }
        EnforceDeadline(g, cycle, now);
        settled := settled + 1;
        GroupRow(AllTables(), id);
        g := groups[id];
        if g.state != Active {
          break;
        }
        guard := guard + 1;
      }
      DrainStops(View(id), now);
    }

    method DrainGroup(id: Id, now: Time) returns (settled: nat)
      requires Valid() && id in groups
      modifies this
      ensures Valid() && SameRequests()
      ensures Became(id, Drain(old(View(id)), now).0)
      ensures settled == Drain(old(View(id)), now).1
      ensures settled == 0 ==> Untouched()
    {
      hide ViewOf, RowsOk, GroupsOk, RequestsOk, Inv, Drain, Reachable, Apply, OpenCycles;
      ghost var start := View(id);
      GroupReachable(AllTables(), cleared, id);
      GroupRow(AllTables(), id);
      ApplyDeadline(start, now);
      ReachableInv(start);
      OpenBound(start);
      settled := 0;
      if groups[id].state == Active {
        settled := DrainActive(id, now);
      } else {
        DrainStops(start, now);
      }
      StepKeepsValid(old(AllTables()), id, DeadlineStep(now));
    }

    method ListGroups(limit: nat) returns (page: seq<Id>)
      ensures IsPage(page, groups, limit)
    {
      page := OldestFirst(groups, limit);
    }

    /** One tick of the scheduler over the first page of groups. Every group of the
        page is drained, every other one is left alone, the result counts the cycles
        settled, and no ACTIVE group of the page keeps an overdue open cycle. */
    method ProcessDeadlines(now: Time) returns (settled: int, ghost page: seq<Id>)
      requires Valid()
      modifies this
      ensures Valid() && SameRequests() && SameUsers() && groups.Keys == old(groups.Keys)
      ensures IsPage(page, old(groups), PAGE_LIMIT)
      ensures |page| == if |old(groups)| <= 100000 then |old(groups)| else 100000
      ensures forall k :: k in old(cycles) && k.group in page && old(groups)[k.group].state == Active ==>
                k in cycles && (cycles[k].settled <==> old(cycles)[k].settled || now > old(cycles)[k].deadline)
      ensures forall g :: g in groups ==>
                View(g) == if g in page then Drain(old(View(g)), now).0 else old(View(g))
      ensures settled == |SettledRows(old(AllTables()), AllTables())|
      ensures settled == Sum(page, TickCount(ViewsOf(old(AllTables())), now))
      ensures settled == 0 ==> Untouched()
      ensures forall g, c :: g in page && groups[g].state == Active && CanSettle(View(g), c) ==>
                !Overdue(View(g), c, now)
    {
      hide ViewOf, RowsOk, GroupsOk, RequestsOk, Drain, Reachable, IsPage, Distinct;
      ghost var before := AllTables();
      var order := ListGroups(PAGE_LIMIT);
      page := order;
      PageFacts(order, groups, PAGE_LIMIT);
      settled := DrainPage(order, now);
      TickedComplete(before, AllTables(), order, now, cleared);
      TickedRows(before, AllTables(), order, now, cleared);
      PageSize(order, before.groups, PAGE_LIMIT);
      forall k | k in before.cycles && k.group in page && before.groups[k.group].state == Active
        ensures k in cycles && (cycles[k].settled <==> before.cycles[k].settled || now > before.cycles[k].deadline)
      {
        TickedRowExactly(before, AllTables(), order, now, cleared, k);
      }
    }

    method DrainPage(order: seq<Id>, now: Time) returns (settled: int)
      requires Valid() && Distinct(order) && forall g :: g in order ==> g in groups
      modifies this
      ensures Valid() && SameRequests() && SameUsers()
      ensures Ticked(old(AllTables()), AllTables(), order, now)
      ensures settled == Sum(order, TickCount(ViewsOf(old(AllTables())), now))
      ensures settled >= 0 && (settled == 0 ==> Untouched())
    {
      hide ViewOf, RowsOk, GroupsOk, RequestsOk, Drain, Distinct, ViewsOf, TickCount;
      ghost var before := AllTables();
      ghost var count := TickCount(ViewsOf(before), now);
      settled := 0;
      for i := 0 to |order|
        invariant Valid() && SameRequests() && SameUsers()
        invariant Ticked(before, AllTables(), order[..i], now)
        invariant settled == Sum(order[..i], count)
        invariant settled >= 0 && (settled == 0 ==> Untouched())
      {
        PrefixNext(order, i);
        ghost var middle := AllTables();
        var n := DrainGroup(order[i], now);
        settled := settled + n;
        SumSnoc(order[..i], order[i], count);
        CountOne(before, order[i], now);
        TickedNext(before, middle, AllTables(), order[..i], order[i], now);
      }
      PrefixWhole(order);
    }

    /** With all groups on one page: the first tick drains every group and counts the
        rows it settled, the second, at the same time, settles nothing and leaves the
        tables, the users and the requests exactly as the first one left them. */
    method ProcessDeadlinesTwice(now: Time) returns (first: int, second: int, ghost middle: Tables)
      requires Valid() && |groups| <= 100000
      modifies this
      ensures Valid() && SameRequests() && SameUsers() && groups.Keys == old(groups.Keys)
      ensures forall g :: g in groups ==> View(g) == Drain(old(View(g)), now).0
      ensures first == |SettledRows(old(AllTables()), middle)|
      ensures second == 0 && AllTables() == middle
    {
      hide ViewOf, RowsOk, GroupsOk, RequestsOk, Drain, Reachable, IsPage, SettledRows;
      ghost var page1, page2;
      first, page1 := ProcessDeadlines(now);
      PageCovers(page1, old(groups), PAGE_LIMIT);
      middle := AllTables();
      assert |groups| == |groups.Keys| == |old(groups.Keys)| == |old(groups)|;
      label Between:
      second, page2 := ProcessDeadlines(now);
      PageFacts(page2, middle.groups, PAGE_LIMIT);
      forall g | g in middle.groups
        ensures Drain(ViewOf(middle, g), now) == (ViewOf(middle, g), 0)
      {
        DrainIdempotent(old(View(g)), now);
      }
      NothingToCount(middle, page2, now);
    }
  }

  // ----- settlements -----

  /** A group's rows with event, escrow debit and payout row of a settlement added. */
  function WithPayout(r: Rota, cycle: Cycle, gross: Money): Rota {
    var g, owed := r.group, Expected(r.group);
    r.(payouts := r.payouts + [Payout(g.id, cycle.index, cycle.payee, gross, owed, owed - gross)],
       escrow := r.escrow + [EscrowEntry(g.id, cycle.index, cycle.payee, Debit, gross)],
       events := r.events + [Event(PayoutReceived, cycle.payee, g.id, cycle.index, gross)])
  }

  /** A group's rows with a cycle marked settled and the group moved on. */
  function WithMark(r: Rota, cycle: Cycle): Rota {
    r.(group := Advance(r.group, cycle.index),
       cycles := r.cycles[CycleKey(r.group.id, cycle.index) := cycle.(settled := true)])
  }

  lemma SettleParts(r: Rota, c: int)
    requires HasCycle(r, c) && r.cycles[Slot(r, c)].index == c
    ensures var cycle, gross := r.cycles[Slot(r, c)], Gross(r, c);
            var s := WithPayout(r, cycle, gross);
            && s.group == r.group && WithMark(s, cycle) == Settle(r, c)
            && Settle(r, c).payouts == r.payouts +
                 [Payout(r.group.id, c, cycle.payee, gross, Expected(r.group), Expected(r.group) - gross)]
  {
  }

  // ----- schedules -----

  /** A group's rows with the first n cycles of a schedule laid over them. */
  function WithSchedule(r: Rota, g: Group, now: Time, n: nat): Rota {
    if n <= |g.payoutOrder| then r.(cycles := Scheduled(r.cycles, g, now, n)) else r
  }

  lemma NoScheduleYet(r: Rota, g: Group, now: Time)
    ensures WithSchedule(r, g, now, 0) == r
  {
  }

  lemma NextScheduled(r: Rota, g: Group, now: Time, i: nat)
    requires i < |g.payoutOrder|
    ensures var s := WithSchedule(r, g, now, i);
            WithSchedule(r, g, now, i + 1) == s.(cycles := s.cycles[CycleKey(g.id, i) := ScheduledCycle(g, now, i)])
    ensures ScheduledCycle(g, now, i).group == g.id && ScheduledCycle(g, now, i).index == i
  {
  }

  // ----- listings -----

  /** The oldest groups of a store, at most limit of them, in creation order. */
  method OldestFirst(groups: map<Id, Group>, limit: nat) returns (page: seq<Id>)
    ensures IsPage(page, groups, limit)
  {
    var todo := groups.Keys;
    page := [];
    while todo != {} && |page| < limit
      invariant |page| <= limit && Paged(page, groups, todo)
      decreases |todo|
    {
      LeastExists(todo, CreationRank(groups));
      var g :| g in todo && forall h :: h in todo ==> CreationRank(groups)(g) <= CreationRank(groups)(h);
      PageNext(page, groups, todo, g);
      page, todo := page + [g], todo - {g};
    }
    PageDone(page, groups, todo);
  }

  method FilterMembers(members: seq<Id>, user: Id) returns (out: seq<Id>)
    ensures out == Without(members, user)
  {
    out := [];
    for i := 0 to |members|
      invariant out == Without(members[..i], user)
    {
      assert members[..i + 1][..i] == members[..i];
      if members[i] != user {
        out := out + [members[i]];
      }
    }
    assert members[..|members|] == members;
  }

  function ContributionAmount(): Contribution -> int {
    (c: Contribution) => c.amount
  }

  function UsersOf(cs: seq<Contribution>): set<Id> {
    set c | c in cs :: c.user
  }

  function UserSet(ks: set<ContribKey>): set<Id> {
    set k | k in ks :: k.user
  }

  lemma UsersGrow(out: seq<Contribution>, x: Contribution, done: set<ContribKey>, k: ContribKey)
    requires UsersOf(out) == UserSet(done) && x.user == k.user
    ensures UsersOf(out + [x]) == UserSet(done + {k})
  {
    assert UsersOf(out + [x]) == UsersOf(out) + {x.user};
    assert UserSet(done + {k}) == UserSet(done) + {k.user};
  }

  lemma MoveOver(keys: set<ContribKey>, todo: set<ContribKey>, done: set<ContribKey>, k: ContribKey)
    requires todo == keys - done && done <= keys && k in todo
    ensures todo - {k} == keys - (done + {k}) && done + {k} <= keys
    ensures |done + {k}| == |done| + 1 && |todo - {k}| == |todo| - 1
  {
  }

  method ListRows(rows: map<ContribKey, Contribution>, keys: set<ContribKey>) returns (out: seq<Contribution>)
    requires keys <= rows.Keys && forall k :: k in keys ==> rows[k].user == k.user
    ensures |out| == |keys|
    ensures Sum(out, ContributionAmount()) == Amounts(rows, keys)
    ensures UsersOf(out) == UserSet(keys)
  {
    assert UsersOf([]) == UserSet({});
    assert Sum<Contribution>([], ContributionAmount()) == 0 == Amounts(rows, {});
    hide Sum, Amounts, UsersOf, UserSet;
    var todo, done: set<ContribKey> := keys, {};
    out := [];
    assert keys == keys - done;
    while todo != {}
      invariant todo == keys - done && done <= keys
      invariant |out| == |done|
      invariant Sum(out, ContributionAmount()) + Amounts(rows, todo) == Amounts(rows, keys)
      invariant UsersOf(out) == UserSet(done)
      decreases |todo|
    {
      var k :| k in todo;
      AmountsPick(rows, todo, k);
      SumSnoc(out, rows[k], ContributionAmount());
      UsersGrow(out, rows[k], done, k);
      MoveOver(keys, todo, done, k);
      out, todo, done := out + [rows[k]], todo - {k}, done + {k};
    }
    assert done == keys;
  }

  predicate InIndexOrder(cs: seq<Cycle>) {
    forall i, j :: 0 <= i < j < |cs| ==> cs[i].index < cs[j].index
  }

  function IndexRank(): CycleKey -> int {
    (k: CycleKey) => k.index
  }

  /** The listing of some of the rows, all before the rest. */
  ghost predicate ListedFirst(rows: map<CycleKey, Cycle>, out: seq<Cycle>, todo: set<CycleKey>) {
    && todo <= rows.Keys
    && InIndexOrder(out)
    && (forall c, k :: c in out && k in todo ==> c.index < k.index)
    && (forall c :: c in out ==> exists k :: k in rows && rows[k] == c)
    && (forall k :: k in rows && k !in todo ==> rows[k] in out)
  }

  lemma ListNext(rows: map<CycleKey, Cycle>, out: seq<Cycle>, todo: set<CycleKey>, k: CycleKey)
    requires forall k :: k in rows ==> rows[k].index == k.index
    requires forall j, k :: j in rows && k in rows && j.index == k.index ==> j == k
    requires ListedFirst(rows, out, todo) && k in todo
    requires forall j :: j in todo ==> IndexRank()(k) <= IndexRank()(j)
    ensures ListedFirst(rows, out + [rows[k]], todo - {k})
  {
    forall c, j | c in out + [rows[k]] && j in todo - {k} ensures c.index < j.index {
      assert IndexRank()(k) <= IndexRank()(j);
    }
  }

  method SortByIndex(rows: map<CycleKey, Cycle>) returns (out: seq<Cycle>)
    requires forall k :: k in rows ==> rows[k].index == k.index
    requires forall j, k :: j in rows && k in rows && j.index == k.index ==> j == k
    ensures InIndexOrder(out)
    ensures forall c :: c in out <==> exists k :: k in rows && rows[k] == c
  {
    var todo := rows.Keys;
    out := [];
    while todo != {}
      invariant ListedFirst(rows, out, todo)
      decreases |todo|
    {
      LeastExists(todo, IndexRank());
      var k :| k in todo && forall j :: j in todo ==> IndexRank()(k) <= IndexRank()(j);
      ListNext(rows, out, todo, k);
      out, todo := out + [rows[k]], todo - {k};
    }
  }
}
