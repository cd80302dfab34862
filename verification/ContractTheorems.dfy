/** What every run of the contract keeps, whoever calls it: its books, as its own
    calls write them, and its state. */
module ContractTheorems {
  import opened Domain
  import opened Sums
  import opened Rotation
  import opened Contract

  // ----- runs -----

  /** The calls that change an activated contract: a member reveals a contribution, the
      organizer settles a cycle. */
  datatype Call = Reveal(user: Id, cycle: nat) | SettleAt(cycle: nat, timestamp: nat)

  predicate MayCall(k: Storage, call: Call) {
    match call
    case Reveal(u, c) => MayContribute(k, u, c)
    case SettleAt(c, timestamp) => MaySettle(k, k.organizer, c, timestamp)
  }

  function AfterCall(k: Storage, call: Call): Storage
    requires MayCall(k, call)
  {
    match call
    case Reveal(u, c) => Revealed(k, u, c)
    case SettleAt(c, _) => SettledStorage(k, c)
  }

  /** A run of calls, each of them accepted, from k to after. */
  ghost predicate AcceptedRun(k: Storage, calls: seq<Call>, after: Storage)
    decreases |calls|
  {
    if calls == [] then after == k
    else MayCall(k, calls[0]) && AcceptedRun(AfterCall(k, calls[0]), calls[1..], after)
  }

  lemma {:induction false} RunsConcat(k: Storage, a: seq<Call>, m: Storage, b: seq<Call>, after: Storage)
    requires AcceptedRun(k, a, m) && AcceptedRun(m, b, after)
    ensures AcceptedRun(k, a + b, after)
    decreases |a|
  {
    hide MayCall, AfterCall;
    if a == [] {
      assert a + b == b;
    } else {
      assert (a + b)[0] == a[0] && (a + b)[1..] == a[1..] + b;
      RunsConcat(AfterCall(k, a[0]), a[1..], m, b, after);
    }
  }

  lemma OneCall(k: Storage, call: Call)
    requires MayCall(k, call)
    ensures AcceptedRun(k, [call], AfterCall(k, call))
  {
    assert [call][1..] == [];
  }

  // ----- the books -----

  predicate OnChainSettled(k: Storage, c: int) {
    c >= 0 && c in k.settled
  }

  predicate OnChainPaid(k: Storage, u: Id, c: int) {
    c >= 0 && (c, u) in k.contributions
  }

  /** How many records of one kind, for one user and cycle, the ledger must hold. */
  function Recorded(k: Storage, kind: EventKind, u: Id, c: int): int {
    match kind
    case ContributionMade => if OnChainPaid(k, u, c) then 1 else 0
    case ContributionMissed => if OnChainSettled(k, c) && u in k.members && !OnChainPaid(k, u, c) then 1 else 0
    case PayoutReceived =>
      if OnChainSettled(k, c) && c < |k.payoutOrder| && k.payoutOrder[c] == u then 1 else 0
    case _ => 0
  }

  /** The amount every record of a kind and cycle carries. */
  function RecordedAmount(k: Storage, kind: EventKind, c: int): Money {
    if kind == PayoutReceived && c >= 0 then Collected(k, c, |k.members|) else k.amount
  }

  ghost predicate RecordOk(k: Storage, e: Event) {
    && e.group == k.self && e.cycle >= 0
    && e.amount == RecordedAmount(k, e.kind, e.cycle)
    && (e.kind == PayoutReceived ==> OnChainSettled(k, e.cycle))
  }

  ghost predicate LedgerOk(k: Storage) {
    && (forall e :: e in k.ledger ==> RecordOk(k, e))
    && (forall kind, u, c :: Sum(k.ledger, EventsOf(kind, u, c)) == Recorded(k, kind, u, c))
  }

  /** What every state of an activated contract with distinct members satisfies. */
  ghost predicate OnChainOk(k: Storage) {
    && Distinct(k.members)
    && k.payoutOrder != []
    && k.state == (if |k.payoutOrder| - 1 in k.settled then Closed else Active)
    && (forall c :: c in k.settled ==> c < |k.payoutOrder|)
    && (forall c, u :: (c, u) in k.contributions ==> u in k.members)
    && LedgerOk(k)
  }

  // ----- revealing -----

  lemma {:induction false} CollectedUnchanged(k: Storage, l: Storage, c: nat, n: nat)
    requires n <= |k.members| && l.members == k.members && l.amount == k.amount
    requires forall u :: (c, u) in l.contributions <==> (c, u) in k.contributions
    ensures Collected(l, c, n) == Collected(k, c, n)
  {
    if n > 0 {
      CollectedUnchanged(k, l, c, n - 1);
    }
  }

  lemma RevealKeepsLedger(k: Storage, u: Id, c: nat)
    requires OnChainOk(k) && MayContribute(k, u, c)
    ensures LedgerOk(Revealed(k, u, c))
  {
    hide Collected;
    var l, e := Revealed(k, u, c), Event(ContributionMade, u, k.self, c, k.amount);
    forall x | x in l.ledger ensures RecordOk(l, x) {
      if x in k.ledger {
        assert RecordOk(k, x);
        if x.cycle != c {
          CollectedUnchanged(k, l, x.cycle, |k.members|);
        }
      } else {
        assert x == e;
      }
    }
    forall kind, v, d ensures Sum(l.ledger, EventsOf(kind, v, d)) == Recorded(l, kind, v, d) {
      SumSnoc(k.ledger, e, EventsOf(kind, v, d));
      assert Sum(k.ledger, EventsOf(kind, v, d)) == Recorded(k, kind, v, d);
    }
  }

  // ----- settling -----

  lemma NoRecordsYet(k: Storage, c: nat, w: Event -> int)
    ensures Sum(MissedRecords(k, c, 0), w) == 0
  {
  }

  lemma NextRecord(k: Storage, c: nat, n: nat, w: Event -> int)
    requires 0 < n <= |k.members|
    ensures var m := k.members[n - 1];
            Sum(MissedRecords(k, c, n), w) == Sum(MissedRecords(k, c, n - 1), w) +
              if (c, m) in k.contributions then 0 else w(Event(ContributionMissed, m, k.self, c, k.amount))
  {
    SumSnoc(MissedRecords(k, c, n - 1), Event(ContributionMissed, k.members[n - 1], k.self, c, k.amount), w);
  }

  lemma {:induction false} MissedRecordsTally(k: Storage, c: nat, n: nat, kind: EventKind, u: Id, d: int)
    requires n <= |k.members| && Distinct(k.members)
    ensures Sum(MissedRecords(k, c, n), EventsOf(kind, u, d)) ==
            if kind == ContributionMissed && d == c && u in k.members[..n] && (c, u) !in k.contributions then 1 else 0
  {
    hide Distinct, Sum, MissedRecords;
    if n == 0 {
      NoRecordsYet(k, c, EventsOf(kind, u, d));
    } else {
      MissedRecordsTally(k, c, n - 1, kind, u, d);
      NextRecord(k, c, n, EventsOf(kind, u, d));
      PrefixNext(k.members, n - 1);
      assert u in k.members[..n] <==> u in k.members[..n - 1] || u == k.members[n - 1];
    }
  }

  lemma {:induction false} MissedRecordsShape(k: Storage, c: nat, n: nat)
    requires n <= |k.members|
    ensures forall e :: e in MissedRecords(k, c, n) ==>
              e == Event(ContributionMissed, e.user, k.self, c, k.amount)
  {
    if n > 0 {
      MissedRecordsShape(k, c, n - 1);
    }
  }

  lemma SettleTallies(k: Storage, c: nat, kind: EventKind, u: Id, d: int)
    requires OnChainOk(k) && c < |k.payoutOrder| && c !in k.settled
    ensures Sum(SettledStorage(k, c).ledger, EventsOf(kind, u, d)) == Recorded(SettledStorage(k, c), kind, u, d)
  {
    hide Collected, MissedRecords;
    var missed := MissedRecords(k, c, |k.members|);
    var last := Event(PayoutReceived, k.payoutOrder[c], k.self, c, Collected(k, c, |k.members|));
    MissedRecordsTally(k, c, |k.members|, kind, u, d);
    PrefixWhole(k.members);
    SumConcat(k.ledger, missed, EventsOf(kind, u, d));
    SumSnoc(k.ledger + missed, last, EventsOf(kind, u, d));
    assert Sum(k.ledger, EventsOf(kind, u, d)) == Recorded(k, kind, u, d);
  }

  lemma SettleKeepsLedger(k: Storage, c: nat)
    requires OnChainOk(k) && c < |k.payoutOrder| && c !in k.settled
    ensures LedgerOk(SettledStorage(k, c))
  {
    hide Collected, MissedRecords, Recorded;
    var l := SettledStorage(k, c);
    MissedRecordsShape(k, c, |k.members|);
    forall x | x in l.ledger ensures RecordOk(l, x) {
      if x in k.ledger {
        assert RecordOk(k, x);
      }
      if x.cycle >= 0 {
        CollectedUnchanged(k, l, x.cycle, |k.members|);
      }
    }
    forall kind, u, d ensures Sum(l.ledger, EventsOf(kind, u, d)) == Recorded(l, kind, u, d) {
      SettleTallies(k, c, kind, u, d);
    }
  }

  // ----- every run -----

  /** An accepted call keeps the books: one Made record per reveal, one Missed per
      member missing from a settled cycle, one payout per settled cycle of exactly what
      was collected for it; and the contract is CLOSED exactly when its last cycle is
      settled. */
  lemma CallKeepsBooks(k: Storage, call: Call)
    requires OnChainOk(k) && MayCall(k, call)
    ensures OnChainOk(AfterCall(k, call))
  {
    hide LedgerOk;
    match call {
      case Reveal(u, c) => RevealKeepsLedger(k, u, c);
      case SettleAt(c, _) => SettleKeepsLedger(k, c);
    }
  }

  lemma {:induction false} RunKeepsBooks(k: Storage, calls: seq<Call>, after: Storage)
    requires OnChainOk(k) && AcceptedRun(k, calls, after)
    ensures OnChainOk(after)
    decreases |calls|
  {
    hide OnChainOk, MayCall, AfterCall;
    if calls != [] {
      CallKeepsBooks(k, calls[0]);
      RunKeepsBooks(AfterCall(k, calls[0]), calls[1..], after);
    }
  }

  /** From activation on: over every run of accepted calls. */
  lemma ActivatedBooks(k: Storage, order: seq<Id>, timestamp: nat, calls: seq<Call>, after: Storage)
    requires Distinct(k.members) && order != []
    requires k.contributions == map[] && k.settled == {} && k.ledger == []
    requires AcceptedRun(Activated(k, order, timestamp), calls, after)
    ensures OnChainOk(after)
  {
    FreshBooks(k, order, timestamp);
    RunKeepsBooks(Activated(k, order, timestamp), calls, after);
  }

  lemma FreshBooks(k: Storage, order: seq<Id>, timestamp: nat)
    requires Distinct(k.members) && order != []
    requires k.contributions == map[] && k.settled == {} && k.ledger == []
    ensures OnChainOk(Activated(k, order, timestamp))
  {
    var a := Activated(k, order, timestamp);
    forall kind, u, c ensures Sum(a.ledger, EventsOf(kind, u, c)) == Recorded(a, kind, u, c) {
      assert Sum(a.ledger, EventsOf(kind, u, c)) == 0;
    }
  }

  // ----- what has been collected -----

  /** Collected money is the contribution times the members that have revealed. */
  lemma {:induction false} CollectedIsCensus(k: Storage, c: nat, paid: set<Id>, n: nat)
    requires n <= |k.members|
    requires forall u :: u in k.members ==> (u in paid <==> (c, u) in k.contributions)
    ensures Collected(k, c, n) == k.amount * Range(n, Marks(k.members, paid))
  {
    if n > 0 {
      CollectedIsCensus(k, c, paid, n - 1);
      assert Marks(k.members, paid)(n - 1) == if k.members[n - 1] in paid then 1 else 0;
    }
  }

  // ----- the calls, field by field -----

  /** A reveal is accepted from a member of an ACTIVE group who has not revealed for the
      cycle, as long as the cycle is not settled; it stores the commitment and records
      the contribution. */
  lemma RevealInFields(k: Storage, u: Id, c: nat)
    ensures MayCall(k, Reveal(u, c)) <==>
            k.state == Active && u in k.members && c !in k.settled && (c, u) !in k.contributions
    ensures MayCall(k, Reveal(u, c)) ==>
              AfterCall(k, Reveal(u, c)) ==
              k.(contributions := k.contributions[(c, u) := Commitment(u, k.self, c, k.amount)],
                 ledger := k.ledger + [Event(ContributionMade, u, k.self, c, k.amount)])
  {
  }

  function Silent(k: Storage, c: nat): Id -> bool {
    (u: Id) => (c, u) !in k.contributions
  }

  lemma {:induction false} MissedRecordsAreFilter(k: Storage, c: nat, n: nat)
    requires n <= |k.members|
    ensures var absent := Filter(k.members[..n], Silent(k, c));
            && |MissedRecords(k, c, n)| == |absent|
            && forall i :: 0 <= i < |absent| ==>
                 MissedRecords(k, c, n)[i] == Event(ContributionMissed, absent[i], k.self, c, k.amount)
  {
    if n > 0 {
      MissedRecordsAreFilter(k, c, n - 1);
      assert k.members[..n] == k.members[..n - 1] + [k.members[n - 1]];
      FilterSnoc(k.members[..n - 1], k.members[n - 1], Silent(k, c));
    }
  }

  /** An accepted settlement marks the cycle, records one default of the group's amount
      for every member who has not revealed, in member order, then the payout of the
      amount times the members who have, to whoever stands at the cycle's position of
      the order, and closes the contract after the last cycle. */
  lemma SettleInFields(k: Storage, c: nat, timestamp: nat)
    requires Distinct(k.members) && MayCall(k, SettleAt(c, timestamp))
    ensures c < |k.payoutOrder|
    ensures var absent := Filter(k.members, Silent(k, c));
            var missed := seq(|absent|, i requires 0 <= i < |absent| =>
                                Event(ContributionMissed, absent[i], k.self, c, k.amount));
            var paid := set u | u in k.members && (c, u) in k.contributions;
            AfterCall(k, SettleAt(c, timestamp)) ==
            k.(settled := k.settled + {c},
               ledger := k.ledger + missed
                         + [Event(PayoutReceived, k.payoutOrder[c], k.self, c, k.amount * |paid|)],
               state := if c + 1 == |k.payoutOrder| then Closed else k.state)
  {
    hide CycleDeadline, MissedRecords, Collected;
    var n := |k.members|;
    var paid := set u | u in k.members && (c, u) in k.contributions;
    MissedRecordsAreFilter(k, c, n);
    PrefixWhole(k.members);
    CollectedIsCensus(k, c, paid, n);
    Census(k.members, paid);
    var absent := Filter(k.members, Silent(k, c));
    assert MissedRecords(k, c, n) == seq(|absent|, i requires 0 <= i < |absent| =>
                                           Event(ContributionMissed, absent[i], k.self, c, k.amount));
  }

  // ----- when a cycle falls due -----

  const TWO_64: nat := 0x1_0000_0000_0000_0000
  const TWO_256: nat := TWO_64 * TWO_64 * TWO_64 * TWO_64

  lemma Widths()
    ensures TWO_64 == U64 && TWO_256 == U256
  {
  }

  /** The organizer may settle cycle c, counting from zero, from the moment c + 1 cycle
      lengths after the activation on, and not earlier, as long as that moment fits the
      contract's 64 bits. */
  lemma DueExactly(k: Storage, c: nat, t: nat)
    requires c + 1 < TWO_256 && k.activatedAt + (c + 1) * k.cycleLength < TWO_64
    ensures MayCall(k, SettleAt(c, t)) <==>
            && k.state == Active && c !in k.settled && c < |k.payoutOrder|
            && t >= k.activatedAt + (c + 1) * k.cycleLength
  {
    Widths();
    assert U64 < U256;
  }

  /** The contract never lets cycle c be settled before c + 1 cycle lengths have passed. */
  ghost predicate NeverEarly(k: Storage, c: nat) {
    forall t: nat :: MayCall(k, SettleAt(c, t)) ==> t >= k.activatedAt + (c + 1) * k.cycleLength
  }

  /** That holds for an open cycle of the order exactly when its span fits 64 bits, or the
      arithmetic overflows and the cycle can never be settled; a longer span is cut to
      its low 64 bits and the cycle can be settled too early. */
  lemma NeverEarlyExactly(k: Storage, c: nat)
    requires k.state == Active && c !in k.settled && c < |k.payoutOrder| && c + 1 < TWO_256
    ensures var span := (c + 1) * k.cycleLength;
            NeverEarly(k, c) <==>
            span < TWO_64 || span >= TWO_256 || k.activatedAt + span % TWO_64 >= TWO_64
  {
    Widths();
    var span := (c + 1) * k.cycleLength;
    if span < U64 || span >= U256 || k.activatedAt + span % U64 >= U64 {
      CutExactly(span);
    } else {
      CutExactly(span);
      var t := k.activatedAt + span % U64;
      assert MayCall(k, SettleAt(c, t));
    }
  }

  lemma CutExactly(span: nat)
    ensures 0 <= span % U64 <= span && (span < U64 ==> span % U64 == span) && (span >= U64 ==> span % U64 < span)
  {
  }

  /** Over every run of accepted calls on a schedule that fits 64 bits, no cycle is ever
      settled by a call stamped earlier than its deadline. */
  lemma {:induction false} NothingSettledEarly(k: Storage, calls: seq<Call>, after: Storage, i: nat)
    requires AcceptedRun(k, calls, after) && i < |calls| && calls[i].SettleAt?
    requires |k.payoutOrder| < TWO_256 && k.activatedAt + |k.payoutOrder| * k.cycleLength < TWO_64
    ensures calls[i].cycle < |k.payoutOrder|
    ensures calls[i].timestamp >= k.activatedAt + (calls[i].cycle + 1) * k.cycleLength
    decreases |calls|
  {
    hide MayCall, AfterCall;
    PlanKept(k, calls[0]);
    if i == 0 {
      InOrderCall(k, calls[0].cycle, calls[0].timestamp);
      ShorterSpan(calls[0].cycle + 1, |k.payoutOrder|, k.cycleLength);
      DueExactly(k, calls[0].cycle, calls[0].timestamp);
    } else {
      NothingSettledEarly(AfterCall(k, calls[0]), calls[1..], after, i - 1);
    }
  }

  lemma PlanKept(k: Storage, call: Call)
    requires MayCall(k, call)
    ensures var l := AfterCall(k, call);
            (l.payoutOrder, l.activatedAt, l.cycleLength) == (k.payoutOrder, k.activatedAt, k.cycleLength)
  {
  }

  lemma InOrderCall(k: Storage, c: nat, t: nat)
    requires MayCall(k, SettleAt(c, t))
    ensures c < |k.payoutOrder|
  {
  }

  lemma ShorterSpan(c: nat, n: nat, length: nat)
    requires c <= n
    ensures c * length <= n * length
  {
  }
}
