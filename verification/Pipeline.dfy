/** From chain to cache: every subscriber has a buffered channel of 64 slots, the
    chain drops an event rather than wait for a full one, and the indexer moves
    events one by one from its channel into per-user logs. Any interleaving of the
    two sides is a sequence of actions; the classes implement the single actions. */
module Pipeline {
  import opened Domain
  import opened Sums
  import opened Reputation

  const SLOTS: nat := 64

  /** A send that never blocks: a full buffer stays as it is. */
  function Offer(buffer: seq<Event>, e: Event): seq<Event> {
    if |buffer| < SLOTS then buffer + [e] else buffer
  }

  class Channel {
    var buffer: seq<Event>
    var open: bool
    /** Everything the chain has emitted while this channel was subscribed. */
    ghost var offered: seq<Event>

    /** The subscription as a value, for a reader that has projected what is given. */
    ghost function View(projected: seq<Event>): Pipe
      reads this
    {
      Pipe(offered, buffer, projected)
    }

    constructor ()
      ensures open && buffer == [] && offered == []
    {
      buffer, open, offered := [], true, [];
    }
  }

  class MemChain {
    var subscribers: seq<Channel>

    /** Subscribers are distinct and open: nothing is ever sent on a closed channel. */
    ghost predicate Valid()
      reads this, subscribers
    {
      && (forall i, j :: 0 <= i < j < |subscribers| ==> subscribers[i] != subscribers[j])
      && forall ch :: ch in subscribers ==> ch.open
    }

    constructor ()
      ensures Valid() && subscribers == []
    {
      subscribers := [];
    }

    method Subscribe() returns (ch: Channel)
      requires Valid()
      modifies this
      ensures Valid() && fresh(ch) && subscribers == old(subscribers) + [ch]
      ensures ch.buffer == [] && ch.offered == []
    {
      ch := new Channel();
      subscribers := subscribers + [ch];
    }

    /** Each subscriber is offered the event once, whatever the others' buffers hold: for
        whoever reads it, its subscription takes one emit step. */
    method Emit(e: Event)
      requires Valid()
      modifies subscribers
      ensures Valid()
      ensures forall ch :: ch in subscribers ==>
                ch.buffer == Offer(old(ch.buffer), e) && ch.offered == old(ch.offered) + [e]
      ensures forall ch, projected :: ch in subscribers ==>
                ch.View(projected) == Step(old(ch.View(projected)), Action.Emit(e))
    {
      for i := 0 to |subscribers|
        invariant forall j :: 0 <= j < i ==>
                    subscribers[j].buffer == Offer(old(subscribers[j].buffer), e)
                    && subscribers[j].offered == old(subscribers[j].offered) + [e]
        invariant forall j :: i <= j < |subscribers| ==> unchanged(subscribers[j])
        invariant forall ch :: ch in subscribers ==> ch.open
      {
        var sub := subscribers[i];
        assert sub.open;
        if |sub.buffer| < SLOTS {
          sub.buffer := sub.buffer + [e];
        }
        sub.offered := sub.offered + [e];
      }
    }

    /** Cancelling takes a subscriber off the list before its channel is closed; what
        it had buffered stays there to be read. Cancelling again does nothing. */
    method Cancel(ch: Channel)
      requires Valid()
      modifies this, ch
      ensures Valid() && ch !in subscribers
      ensures ch.buffer == old(ch.buffer) && ch.offered == old(ch.offered)
      ensures ch.open <==> old(ch.open) && ch !in old(subscribers)
      ensures forall other :: other != ch ==> (other in subscribers <==> other in old(subscribers))
      ensures |subscribers| == |old(subscribers)| - if ch in old(subscribers) then 1 else 0
    {
      for i := 0 to |subscribers|
        invariant ch !in subscribers[..i] && unchanged(this) && unchanged(ch)
      {
        if subscribers[i] == ch {
          var rest := subscribers[..i] + subscribers[i + 1..];
          assert subscribers == subscribers[..i] + [ch] + subscribers[i + 1..];
          subscribers := rest;
          ch.open := false;
          return;
        }
      }
      assert subscribers[..|subscribers|] == subscribers;
    }
  }

  /** The cache: one append-only log per user. */
  class ReputationCache {
    var logs: map<Id, seq<Event>>

    function Events(user: Id): seq<Event>
      reads this
    {
      if user in logs then logs[user] else []
    }

    constructor ()
      ensures logs == map[]
    {
      logs := map[];
    }

    method Append(e: Event)
      modifies this
      ensures forall u :: Events(u) == old(Events(u)) + if u == e.user then [e] else []
    {
      logs := logs[e.user := Events(e.user) + [e]];
    }

    method Reputation(user: Id) returns (s: Summary)
      ensures s == SummaryOf(user, Events(user))
    {
      s := Summarise(user, Events(user));
    }
  }

  class Indexer {
    const source: Channel
    const cache: ReputationCache
    ghost var projected: seq<Event>

    /** The cache holds, user by user, exactly what has been projected. */
    ghost predicate Valid()
      reads this, cache
    {
      forall u :: cache.Events(u) == Filter(projected, IsOf(u))
    }

    /** The pipeline this indexer ends, as a value. */
    ghost function View(): Pipe
      reads this, source
    {
      source.View(projected)
    }

    constructor (source: Channel, cache: ReputationCache)
      requires cache.logs == map[]
      ensures Valid() && this.source == source && this.cache == cache && projected == []
    {
      this.source, this.cache, projected := source, cache, [];
    }

    /** One turn of the receive loop: take the oldest event if there is one. */
    method Receive() returns (received: bool)
      requires Valid()
      modifies this, source`buffer, cache
      ensures Valid()
      ensures received <==> old(source.buffer) != []
      ensures View() == Step(old(View()), Consume)
    {
      if source.buffer == [] {
        return false;
      }
      var e := source.buffer[0];
      source.buffer := source.buffer[1..];
      cache.Append(e);
      forall u
        ensures Filter(projected + [e], IsOf(u)) == Filter(projected, IsOf(u)) + if u == e.user then [e] else []
      {
        FilterSnoc(projected, e, IsOf(u));
      }
      projected := projected + [e];
      return true;
    }

    /** The receive loop until it would block. */
    method CatchUp()
      requires Valid()
      modifies this, source`buffer, cache
      ensures Valid() && source.buffer == []
      ensures projected == old(projected) + old(source.buffer)
    {
      var more := true;
      while more
        invariant Valid() && source.offered == old(source.offered)
        invariant projected + source.buffer == old(projected) + old(source.buffer)
        invariant !more ==> source.buffer == []
        decreases |source.buffer|, more
      {
        ghost var before := View();
        more := Receive();
        ConsumeDelivers(before);
      }
    }

    /** What the service answers about a user is the fold of all that was projected. */
    method Answer(user: Id) returns (s: Summary)
      requires Valid()
      ensures s == SummaryOf(user, projected)
    {
      s := cache.Reputation(user);
      SummaryOfOwnLog(user, projected);
    }
  }

  // ----- one subscription as a value -----

  /** Everything emitted since subscribing, what is buffered, what has been projected. */
  datatype Pipe = Pipe(emitted: seq<Event>, buffer: seq<Event>, projected: seq<Event>)

  const START := Pipe([], [], [])

  datatype Action = Emit(event: Event) | Consume

  function Step(p: Pipe, a: Action): Pipe {
    match a
    case Emit(e) => p.(emitted := p.emitted + [e], buffer := Offer(p.buffer, e))
    case Consume =>
      if p.buffer == [] then p
      else p.(buffer := p.buffer[1..], projected := p.projected + [p.buffer[0]])
  }

  function Run(p: Pipe, actions: seq<Action>): Pipe {
    if actions == [] then p else Step(Run(p, actions[..|actions| - 1]), actions[|actions| - 1])
  }

  /** What has got through: the projected events and then the buffered ones. */
  function Delivered(p: Pipe): seq<Event> {
    p.projected + p.buffer
  }

  /** How many emits of a run met a full buffer. */
  function Losses(p: Pipe, actions: seq<Action>): nat {
    if actions == [] then 0 else
      var init, last := actions[..|actions| - 1], actions[|actions| - 1];
      Losses(p, init) + if last.Emit? && |Run(p, init).buffer| >= SLOTS then 1 else 0
  }

  /** xs is ys with some entries left out. */
  predicate Subsequence<T(==)>(xs: seq<T>, ys: seq<T>) {
    if xs == [] then true
    else if ys == [] then false
    else
      var (x, y) := (xs[|xs| - 1], ys[|ys| - 1]);
      || (x == y && Subsequence(xs[..|xs| - 1], ys[..|ys| - 1]))
      || Subsequence(xs, ys[..|ys| - 1])
  }

  lemma SubsequenceSnoc<T>(xs: seq<T>, ys: seq<T>, y: T)
    requires Subsequence(xs, ys)
    ensures Subsequence(xs, ys + [y]) && Subsequence(xs + [y], ys + [y])
  {
    assert (ys + [y])[..|ys|] == ys && (xs + [y])[..|xs|] == xs;
  }

  lemma {:induction false} SubsequenceLength<T>(xs: seq<T>, ys: seq<T>)
    requires Subsequence(xs, ys)
    ensures |xs| <= |ys|
    ensures |xs| == |ys| ==> xs == ys
  {
    if xs != [] {
      var x, y := xs[..|xs| - 1], ys[..|ys| - 1];
      if xs[|xs| - 1] == ys[|ys| - 1] && Subsequence(x, y) {
        SubsequenceLength(x, y);
        assert xs == x + [xs[|xs| - 1]] && ys == y + [ys[|ys| - 1]];
      } else {
        SubsequenceLength(xs, y);
      }
    }
  }

  /** A non-negative total over a part is at most the total over the whole. */
  lemma {:induction false} SubsequenceSum<T>(xs: seq<T>, ys: seq<T>, w: T -> int)
    requires Subsequence(xs, ys) && forall y :: w(y) >= 0
    ensures Sum(xs, w) <= Sum(ys, w)
  {
    if xs == [] {
      SumNonNegative(ys, w);
    } else {
      var x, y := xs[..|xs| - 1], ys[..|ys| - 1];
      if xs[|xs| - 1] == ys[|ys| - 1] && Subsequence(x, y) {
        SubsequenceSum(x, y, w);
      } else {
        SubsequenceSum(xs, y, w);
      }
    }
  }

  lemma ConsumeDelivers(p: Pipe)
    ensures Delivered(Step(p, Consume)) == Delivered(p)
  {
    if p.buffer != [] {
      assert p.buffer == [p.buffer[0]] + p.buffer[1..];
    }
  }

  lemma EmitDelivers(p: Pipe, e: Event)
    ensures Delivered(Step(p, Emit(e))) == if |p.buffer| < SLOTS then Delivered(p) + [e] else Delivered(p)
  {
  }

  /** Under every interleaving, what gets through is what was emitted, in order, minus
      exactly the events that met a full buffer; and the buffer never overflows. */
  lemma {:induction false} DeliveryInOrder(actions: seq<Action>)
    ensures var p := Run(START, actions);
            && |p.buffer| <= 64
            && Subsequence(Delivered(p), p.emitted)
            && |Delivered(p)| + Losses(START, actions) == |p.emitted|
  {
    hide Subsequence;
    if actions == [] {
      NothingYet();
    } else {
      var init, last := actions[..|actions| - 1], actions[|actions| - 1];
      DeliveryInOrder(init);
      var p := Run(START, init);
      match last {
        case Emit(e) =>
          EmitDelivers(p, e);
          SubsequenceSnoc(Delivered(p), p.emitted, e);
        case Consume =>
          ConsumeDelivers(p);
      }
    }
  }

  lemma NothingYet()
    ensures Subsequence(Delivered(START), START.emitted)
  {
  }

  /** The pipeline is complete exactly when no emit met a full buffer. */
  lemma DeliveryComplete(actions: seq<Action>)
    ensures var p := Run(START, actions); Delivered(p) == p.emitted <==> Losses(START, actions) == 0
  {
    DeliveryInOrder(actions);
    SubsequenceLength(Delivered(Run(START, actions)), Run(START, actions).emitted);
  }

  /** How far the indexer is behind the chain. */
  function Lag(p: Pipe): int {
    |p.emitted| - |p.projected|
  }

  lemma {:induction false} LossesGrow(actions: seq<Action>, n: nat)
    requires n <= |actions|
    ensures Losses(START, actions[..n]) <= Losses(START, actions)
  {
    if n == |actions| {
      assert actions[..n] == actions;
    } else {
      var init := actions[..|actions| - 1];
      LossesGrow(init, n);
      assert init[..n] == actions[..n];
    }
  }

  /** Nothing is lost exactly when the indexer is never more than 64 events behind. */
  lemma {:induction false} LosslessMeansClose(actions: seq<Action>)
    ensures Losses(START, actions) == 0
            <==> forall n :: 0 <= n <= |actions| ==> Lag(Run(START, actions[..n])) <= 64
  {
    hide Losses, Run, Lag, Subsequence;
    if Losses(START, actions) == 0 {
      forall n | 0 <= n <= |actions| ensures Lag(Run(START, actions[..n])) <= SLOTS {
        LossesGrow(actions, n);
        LagBounded(actions[..n]);
      }
    } else {
      var n := FirstLoss(actions);
      assert Lag(Run(START, actions[..n])) > SLOTS;
    }
  }

  lemma LagBounded(actions: seq<Action>)
    ensures Losses(START, actions) == 0 ==> Lag(Run(START, actions)) <= SLOTS
  {
    DeliveryInOrder(actions);
  }

  /** The first loss happens with the indexer 65 events behind. */
  lemma {:induction false} FirstLoss(actions: seq<Action>) returns (n: nat)
    requires Losses(START, actions) > 0
    ensures n <= |actions| && Lag(Run(START, actions[..n])) == SLOTS + 1
  {
    var init, last := actions[..|actions| - 1], actions[|actions| - 1];
    if Losses(START, init) > 0 {
      n := FirstLoss(init);
      assert init[..n] == actions[..n];
    } else {
      n := |actions|;
      DeliveryInOrder(init);
      assert actions[..n] == actions;
    }
  }

  /** Once the indexer has caught up after a run without losses, what the cache
      answers about a user is the fold over the whole emitted log. */
  lemma CacheAgrees(actions: seq<Action>, user: Id)
    requires Losses(START, actions) == 0 && Run(START, actions).buffer == []
    ensures SummaryOf(user, Run(START, actions).projected) == SummaryOf(user, Run(START, actions).emitted)
  {
    DeliveryComplete(actions);
    var p := Run(START, actions);
    assert Delivered(p) == p.projected;
  }

  /** In every state of every run the cache may lag or miss events but never invents
      any: no counter exceeds the one folded from the emitted log. */
  lemma CacheNeverOverstates(actions: seq<Action>, user: Id)
    ensures var p := Run(START, actions);
            var cached, truth := SummaryOf(user, p.projected), SummaryOf(user, p.emitted);
            && cached.made <= truth.made && cached.missed <= truth.missed && cached.payouts <= truth.payouts
            && cached.exits <= truth.exits && cached.expulsions <= truth.expulsions
  {
    var p := Run(START, actions);
    NeverInvented(actions, CountOf(ContributionMade, user));
    NeverInvented(actions, CountOf(ContributionMissed, user));
    NeverInvented(actions, CountOf(PayoutReceived, user));
    NeverInvented(actions, CountOf(GroupExit, user));
    NeverInvented(actions, CountOf(GroupExpulsion, user));
  }

  lemma NeverInvented(actions: seq<Action>, w: Event -> int)
    requires forall e :: w(e) >= 0
    ensures Sum(Run(START, actions).projected, w) <= Sum(Run(START, actions).emitted, w)
  {
    var p := Run(START, actions);
    DeliveryInOrder(actions);
    SubsequenceSum(Delivered(p), p.emitted, w);
    SumConcat(p.projected, p.buffer, w);
    SumNonNegative(p.buffer, w);
  }

  // ----- bursts -----

  /** A run of emits with the indexer asleep. */
  function Burst(events: seq<Event>): seq<Action> {
    seq(|events|, i requires 0 <= i < |events| => Emit(events[i]))
  }

  function Room(p: Pipe): nat {
    if |p.buffer| < SLOTS then SLOTS - |p.buffer| else 0
  }

  /** A burst of any length into an empty pipeline: the first 64 events get through, in
      order, and every later one is lost. */
  lemma BurstFromEmpty(events: seq<Event>)
    ensures var p := Run(START, Burst(events));
            && Delivered(p) == (if |events| <= 64 then events else events[..64])
            && Losses(START, Burst(events)) == if |events| <= 64 then 0 else |events| - 64
  {
    BurstKeepsPrefix(START, events);
  }

  /** A burst fills the free slots with its first events and loses all the others:
      from an empty buffer, every event after the first 64. */
  lemma {:induction false} BurstKeepsPrefix(p: Pipe, events: seq<Event>)
    ensures var q, kept := Run(p, Burst(events)), if |events| <= Room(p) then events else events[..Room(p)];
            && q.emitted == p.emitted + events && q.projected == p.projected
            && q.buffer == p.buffer + kept
            && Losses(p, Burst(events)) == |events| - |kept|
  {
    if events != [] {
      var init, last := events[..|events| - 1], events[|events| - 1];
      BurstKeepsPrefix(p, init);
      assert Burst(events)[..|events| - 1] == Burst(init);
      assert events == init + [last];
      assert Run(p, Burst(events)) == Step(Run(p, Burst(init)), Emit(last));
      if |events| > Room(p) {
        assert init[..Room(p)] == events[..Room(p)];
      }
    }
  }
}
