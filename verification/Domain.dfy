/** The entities of the rotating-savings platform and the rules that belong to
    one entity alone: lifecycle transitions, validation, the cycle schedule and
    the escrow fold. Money is an unbounded integer and time an integer count of
    nanoseconds. */
module Domain {
  import opened Sums

  type Id = string
  type Money = int
  type Time = int

  datatype Error = NotFound | InvalidTransition | Validation | Forbidden | Conflict

  datatype Option<+T> = None | Some(value: T)

  datatype Result<+T> = Ok(value: T) | Err(error: Error)

  datatype User = User(active: bool, kycApproved: bool) {
    predicate CanParticipate() {
      active && kycApproved
    }
  }

  datatype GroupState = Created | Active | Settlement | Closed

  datatype Group = Group(
    id: Id,
    name: string,
    organizer: Id,
    amount: Money,
    cycleLength: Time,
    maxMembers: int,
    totalCycles: nat,
    members: seq<Id>,
    payoutOrder: seq<Id>,
    state: GroupState,
    createdAt: Time,
    activatedAt: Option<Time>)

  datatype Cycle = Cycle(group: Id, index: int, deadline: Time, payee: Id, settled: bool) {
    predicate IsOverdue(now: Time) {
      now > deadline
    }
  }

  datatype Contribution = Contribution(group: Id, user: Id, cycle: int, amount: Money, paidAt: Time)

  datatype Direction = Credit | Debit

  datatype EscrowEntry = EscrowEntry(group: Id, cycle: int, user: Id, direction: Direction, amount: Money)

  datatype Payout = Payout(group: Id, cycle: int, payee: Id, gross: Money, expected: Money, shortfall: Money)

  datatype EventKind = ContributionMade | ContributionMissed | PayoutReceived | GroupExit | GroupExpulsion

  datatype Event = Event(kind: EventKind, user: Id, group: Id, cycle: int, amount: Money)

  datatype MembershipStatus = ActiveMember | Left | Removed

  datatype Membership = Membership(group: Id, user: Id, organizer: bool, status: MembershipStatus)

  datatype RequestStatus = Pending | Accepted | Declined

  /** A join request or an invitation: a user, a group and a decision. */
  datatype Request = Request(group: Id, user: Id, status: RequestStatus)

  // ----- keys of the store -----

  datatype MemberKey = MemberKey(group: Id, user: Id)

  datatype CycleKey = CycleKey(group: Id, index: int)

  datatype ContribKey = ContribKey(group: Id, user: Id, cycle: int)

  // ----- lifecycle -----

  predicate CanTransition(from: GroupState, to: GroupState) {
    || (from == Created && to == Active)
    || (from == Active && to == Settlement)
    || (from == Settlement && to == Closed)
  }

  /** Transition with its error discarded, which is how settlement calls it. */
  function TryTransition(g: Group, to: GroupState): Group {
    if CanTransition(g.state, to) then g.(state := to) else g
  }

  // ----- validation -----

  predicate ValidConfig(name: string, amount: Money, cycleLength: Time, maxMembers: int) {
    name != "" && amount > 0 && cycleLength > 0 && maxMembers >= 2
  }

  /** What a group must satisfy to be activated. */
  predicate WellFormed(g: Group) {
    && g.name != ""
    && g.amount > 0
    && |g.members| >= 2
    && g.cycleLength > 0
    && |g.payoutOrder| == |g.members|
    && Distinct(g.members)
    && forall p :: p in g.payoutOrder ==> p in g.members
  }

  /** The structural check before activation: one pass that collects the members
      seen so far, one pass that looks every payee up among them. */
  method Validate(g: Group) returns (ok: bool)
    ensures ok <==> WellFormed(g)
  {
    if g.name == "" || g.amount <= 0 || |g.members| < 2 || g.cycleLength <= 0 {
      return false;
    }
    if |g.payoutOrder| != |g.members| {
      return false;
    }
    var seen: set<Id> := {};
    for i := 0 to |g.members|
      invariant seen == SetOf(g.members[..i])
      invariant forall j, k :: 0 <= j < k < i ==> g.members[j] != g.members[k]
    {
      if g.members[i] in seen {
        assert exists j :: 0 <= j < i && g.members[j] == g.members[i];
        return false;
      }
      assert g.members[..i + 1] == g.members[..i] + [g.members[i]];
      seen := seen + {g.members[i]};
    }
    assert g.members[..|g.members|] == g.members;
    for i := 0 to |g.payoutOrder|
      invariant forall j :: 0 <= j < i ==> g.payoutOrder[j] in g.members
    {
      if g.payoutOrder[i] !in seen {
        return false;
      }
    }
    return true;
  }

  method HasMember(g: Group, user: Id) returns (found: bool)
    ensures found <==> user in g.members
  {
    for i := 0 to |g.members|
      invariant user !in g.members[..i]
    {
      if g.members[i] == user {
        return true;
      }
    }
    assert g.members[..|g.members|] == g.members;
    return false;
  }

  // ----- the cycle schedule -----

  function Deadline(start: Time, length: Time, index: int): Time {
    start + (index + 1) * length
  }

  /** Cycle i of a schedule, as it stands before anything has been settled. */
  function ScheduledCycle(g: Group, start: Time, i: nat): Cycle
    requires i < |g.payoutOrder|
  {
    Cycle(g.id, i, Deadline(start, g.cycleLength, i), g.payoutOrder[i], false)
  }

  method Cycles(g: Group, start: Time) returns (out: seq<Cycle>)
    ensures |out| == |g.payoutOrder|
    ensures forall i :: 0 <= i < |out| ==> out[i] == ScheduledCycle(g, start, i)
  {
    out := [];
    for i := 0 to |g.payoutOrder|
      invariant |out| == i
      invariant forall j :: 0 <= j < i ==> out[j] == ScheduledCycle(g, start, j)
    {
      out := out + [Cycle(g.id, i, start + (i + 1) * g.cycleLength, g.payoutOrder[i], false)];
    }
  }

  /** Deadlines strictly increase, so an open cycle shields every later one. */
  lemma {:induction false} DeadlinesIncrease(start: Time, length: Time, i: int, j: int)
    requires length > 0 && i < j
    ensures Deadline(start, length, i) + length <= Deadline(start, length, j)
  {
    var gap := j - i - 1;
    assert (j + 1) * length == (i + 1) * length + length + gap * length;
    assert gap * length >= 0;
  }

  // ----- the escrow ledger -----

  function Credited(): EscrowEntry -> int {
    (e: EscrowEntry) => if e.direction == Credit then e.amount else 0
  }

  function Debited(): EscrowEntry -> int {
    (e: EscrowEntry) => if e.direction == Debit then e.amount else 0
  }

  method EscrowBalance(entries: seq<EscrowEntry>) returns (balance: Money)
    ensures balance == Sum(entries, Credited()) - Sum(entries, Debited())
  {
    balance := 0;
    for i := 0 to |entries|
      invariant balance == Sum(entries[..i], Credited()) - Sum(entries[..i], Debited())
    {
      assert entries[..i + 1] == entries[..i] + [entries[i]];
      SumSnoc(entries[..i], entries[i], Credited());
      SumSnoc(entries[..i], entries[i], Debited());
      match entries[i].direction {
        case Credit => balance := balance + entries[i].amount;
        case Debit => balance := balance - entries[i].amount;
      }
    }
    assert entries[..|entries|] == entries;
  }

  // ----- weights for reading a user's events -----

  /** Counts a user's events of one kind. */
  function CountOf(kind: EventKind, user: Id): Event -> int {
    (e: Event) => if e.user == user && e.kind == kind then 1 else 0
  }

  /** Adds up the amounts of a user's events of one kind. */
  function AmountOf(kind: EventKind, user: Id): Event -> int {
    (e: Event) => if e.user == user && e.kind == kind then e.amount else 0
  }
}
