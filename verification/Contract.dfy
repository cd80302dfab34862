/** The on-chain twin of a group: the RotasavingsGroup contract. A commitment
    hash is represented by what it commits to, the zero hash by absence; a
    revert leaves the contract as it was. */
module Contract {
  import opened Domain
  import opened Sums

  const U64 := 0x1_0000_0000_0000_0000
  const U256 := U64 * U64 * U64 * U64

  datatype Commitment = Commitment(user: Id, group: Id, cycle: nat, amount: Money)

  datatype Revert =
    | NotOrganizer | BadState | NotMember | CycleSettled | AlreadyContributed | BadCommitment
    | BadOrder | NotDue | Panic

  datatype Outcome = Success | Reverted(why: Revert)

  /** The contract's storage, with the reputation ledger it writes to. */
  datatype Storage = Storage(
    self: Id,
    organizer: Id,
    amount: Money,
    cycleLength: nat,
    members: seq<Id>,
    state: GroupState,
    activatedAt: nat,
    payoutOrder: seq<Id>,
    contributions: map<(nat, Id), Commitment>,
    settled: set<nat>,
    ledger: seq<Event>)

  // ----- what each call does to the storage -----

  /** The deadline in seconds. The product is checked 256-bit arithmetic, its cast
      to 64 bits truncates, and the 64-bit sum is checked again. */
  function CycleDeadline(k: Storage, cycle: nat): Option<nat> {
    var span := (cycle + 1) * k.cycleLength;
    if cycle + 1 >= U256 || span >= U256 then None
    else if k.activatedAt + span % U64 >= U64 then None
    else Some(k.activatedAt + span % U64)
  }

  function Activated(k: Storage, order: seq<Id>, timestamp: nat): Storage {
    k.(payoutOrder := order, activatedAt := timestamp % U64, state := Active)
  }

  function Revealed(k: Storage, sender: Id, cycle: nat): Storage {
    k.(contributions := k.contributions[(cycle, sender) := Commitment(sender, k.self, cycle, k.amount)],
       ledger := k.ledger + [Event(ContributionMade, sender, k.self, cycle, k.amount)])
  }

  /** The ledger records of the settlement loop for the first n members. */
  function MissedRecords(k: Storage, cycle: nat, n: nat): seq<Event>
    requires n <= |k.members|
  {
    if n == 0 then []
    else if (cycle, k.members[n - 1]) in k.contributions then MissedRecords(k, cycle, n - 1)
    else MissedRecords(k, cycle, n - 1) + [Event(ContributionMissed, k.members[n - 1], k.self, cycle, k.amount)]
  }

  /** What the settlement loop has collected after n members. */
  function Collected(k: Storage, cycle: nat, n: nat): Money
    requires n <= |k.members|
  {
    if n == 0 then 0
    else Collected(k, cycle, n - 1) + if (cycle, k.members[n - 1]) in k.contributions then k.amount else 0
  }

  function SettledStorage(k: Storage, cycle: nat): Storage
    requires cycle < |k.payoutOrder|
  {
    var n := |k.members|;
    k.(settled := k.settled + {cycle},
       ledger := k.ledger + MissedRecords(k, cycle, n)
                 + [Event(PayoutReceived, k.payoutOrder[cycle], k.self, cycle, Collected(k, cycle, n))],
       state := if cycle + 1 == |k.payoutOrder| then Closed else k.state)
  }

  predicate MayContribute(k: Storage, sender: Id, cycle: nat) {
    && k.state == Active && sender in k.members
    && cycle !in k.settled && (cycle, sender) !in k.contributions
  }

  predicate MaySettle(k: Storage, sender: Id, cycle: nat, timestamp: nat) {
    && sender == k.organizer && k.state == Active && cycle !in k.settled
    && CycleDeadline(k, cycle).Some? && timestamp >= CycleDeadline(k, cycle).value
    && cycle < |k.payoutOrder|
  }

  class RotasavingsGroup {
    const self: Id
    const organizer: Id
    const amount: Money
    const cycleLength: nat
    var state: GroupState
    var activatedAt: nat
    var members: seq<Id>
    var payoutOrder: seq<Id>
    var isMember: set<Id>
    var contributions: map<(nat, Id), Commitment>
    var settled: set<nat>
    var ledger: seq<Event>

    function Contents(): Storage
      reads this
    {
      Storage(self, organizer, amount, cycleLength, members, state, activatedAt, payoutOrder,
              contributions, settled, ledger)
    }

    /** The membership mapping lists exactly the members. */
    ghost predicate Valid()
      reads this
    {
      isMember == SetOf(members)
    }

    constructor (self: Id, organizer: Id, amount: Money, cycleLength: nat, members: seq<Id>, ledger: seq<Event>)
      ensures Valid()
      ensures Contents() ==
              Storage(self, organizer, amount, cycleLength, members, Created, 0, [], map[], {}, ledger)
    {
      this.self, this.organizer, this.amount, this.cycleLength := self, organizer, amount, cycleLength;
      this.members, this.ledger := members, ledger;
      state, activatedAt, payoutOrder := Created, 0, [];
      contributions, settled, isMember := map[], {}, {};
      new;
      for i := 0 to |members|
        invariant isMember == SetOf(members[..i])
        invariant Contents() ==
                  Storage(self, organizer, amount, cycleLength, members, Created, 0, [], map[], {}, ledger)
      {
        assert members[..i + 1] == members[..i] + [members[i]];
        isMember := isMember + {members[i]};
      }
      assert members[..|members|] == members;
    }

    method Activate(sender: Id, order: seq<Id>, timestamp: nat) returns (o: Outcome)
      requires Valid()
      modifies this
      ensures Valid()
      ensures o.Success? <==> sender == organizer && old(state) == Created && |order| == |members|
      ensures Contents() == if o.Success? then Activated(old(Contents()), order, timestamp) else old(Contents())
      ensures o.Success? ==> state == Active && payoutOrder == order && activatedAt == timestamp % U64
      ensures o.Reverted? ==> o.why == if sender != organizer then NotOrganizer
                                       else if old(state) != Created then BadState else BadOrder
    {
      if sender != organizer {
        return Reverted(NotOrganizer);
      }
      if state != Created {
        return Reverted(BadState);
      }
      if |order| != |members| {
        return Reverted(BadOrder);
      }
      payoutOrder := order;
      activatedAt := timestamp % U64;
      state := Active;
      return Success;
    }

    method Contribute(sender: Id, cycle: nat, expected: Commitment) returns (o: Outcome)
      requires Valid()
      modifies this
      ensures Valid()
      ensures o.Success? <==> && old(state) == Active && sender in members
                              && cycle !in old(settled) && (cycle, sender) !in old(contributions)
                              && expected == Commitment(sender, self, cycle, amount)
      ensures Contents() == if o.Success? then Revealed(old(Contents()), sender, cycle) else old(Contents())
      ensures o.Reverted? ==> o.why == if old(state) != Active then BadState
                                       else if sender !in members then NotMember
                                       else if cycle in old(settled) then CycleSettled
                                       else if (cycle, sender) in old(contributions) then AlreadyContributed
                                       else BadCommitment
    {
      if state != Active {
        return Reverted(BadState);
      }
      if sender !in isMember {
        return Reverted(NotMember);
      }
      if cycle in settled {
        return Reverted(CycleSettled);
      }
      if (cycle, sender) in contributions {
        return Reverted(AlreadyContributed);
      }
      var commitment := Commitment(sender, self, cycle, amount);
      if commitment != expected {
        return Reverted(BadCommitment);
      }
      contributions := contributions[(cycle, sender) := commitment];
      ledger := ledger + [Event(ContributionMade, sender, self, cycle, amount)];
      return Success;
    }

    method Settle(sender: Id, cycle: nat, timestamp: nat) returns (o: Outcome)
      requires Valid()
      modifies this
      ensures Valid()
      ensures o.Success? <==> MaySettle(old(Contents()), sender, cycle, timestamp)
      ensures o.Success? ==> Contents() == SettledStorage(old(Contents()), cycle)
      ensures o.Success? ==> sender == organizer && old(state) == Active && cycle !in old(settled)
      ensures o.Reverted? ==> Contents() == old(Contents())
      ensures o.Reverted? ==> o.why == if sender != organizer then NotOrganizer
                                       else if old(state) != Active then BadState
                                       else if cycle in old(settled) then CycleSettled
                                       else match CycleDeadline(old(Contents()), cycle)
                                            case None => Panic
                                            case Some(due) => if timestamp < due then NotDue else Panic
    {
      if sender != organizer {
        return Reverted(NotOrganizer);
      }
      if state != Active {
        return Reverted(BadState);
      }
      if cycle in settled {
        return Reverted(CycleSettled);
      }
      var due := CycleDeadline(Contents(), cycle);
      if due.None? {
        return Reverted(Panic);
      }
      if timestamp < due.value {
        return Reverted(NotDue);
      }
      var collected, records := 0, [];
      for i := 0 to |members|
        modifies {}
        invariant collected == Collected(Contents(), cycle, i)
        invariant records == MissedRecords(Contents(), cycle, i)
      {
        if (cycle, members[i]) !in contributions {
          records := records + [Event(ContributionMissed, members[i], self, cycle, amount)];
        } else {
          collected := collected + amount;
        }
      }
      if cycle >= |payoutOrder| {
        return Reverted(Panic);
      }
      settled := settled + {cycle};
      ledger := ledger + records + [Event(PayoutReceived, payoutOrder[cycle], self, cycle, collected)];
      if cycle + 1 == |payoutOrder| {
        state := Closed;
      }
      return Success;
    }
  }
}
