/** The per-client token-bucket limiter. Time is real seconds, tokens are real. */
module RateLimit {

  datatype Bucket = Bucket(tokens: real, last: real)

  type Buckets = map<string, Bucket>

  /** The limiter's two parameters: tokens per second and bucket depth. */
  datatype Limits = Limits(rate: real, burst: real)

  /** Buckets idle for longer than this many seconds are swept away. */
  const IDLE := 300.0

  function Min(a: real, b: real): real {
    if a <= b then a else b
  }

  /** The tokens that flow in between two moments. */
  function Inflow(rate: real, from: real, to: real): real {
    (to - from) * rate
  }

  /** A bucket refilled up to now. */
  function Refilled(l: Limits, b: Bucket, now: real): real {
    Min(l.burst, b.tokens + Inflow(l.rate, b.last, now))
  }

  /** One request: what it does to the buckets, and whether it passes. */
  function Request(l: Limits, bs: Buckets, key: string, now: real): (Buckets, bool) {
    if key !in bs then (bs[key := Bucket(l.burst - 1.0, now)], true)
    else
      var tokens := Refilled(l, bs[key], now);
      if tokens < 1.0 then (bs[key := Bucket(tokens, now)], false)
      else (bs[key := Bucket(tokens - 1.0, now)], true)
  }

  /** One sweep: buckets last used before the cutoff are dropped. */
  function Swept(bs: Buckets, now: real): Buckets {
    map k | k in bs && bs[k].last >= now - IDLE :: bs[k]
  }

  class RateLimiter {
    const limits: Limits
    var buckets: Buckets

    constructor (rate: real, burst: real)
      ensures limits == Limits(rate, burst) && buckets == map[]
    {
      limits, buckets := Limits(rate, burst), map[];
    }

    method Allow(key: string, now: real) returns (ok: bool)
      modifies this
      ensures (buckets, ok) == Request(limits, old(buckets), key, now)
      ensures if key !in old(buckets) then ok && buckets == old(buckets)[key := Bucket(limits.burst - 1.0, now)]
              else
                var b := old(buckets)[key];
                var refilled := b.tokens + (now - b.last) * limits.rate;
                var tokens := if refilled > limits.burst then limits.burst else refilled;
                && (ok <==> tokens >= 1.0)
                && buckets == old(buckets)[key := Bucket(if ok then tokens - 1.0 else tokens, now)]
    {
      if key !in buckets {
        buckets := buckets[key := Bucket(limits.burst - 1.0, now)];
        return true;
      }
      var tokens := buckets[key].tokens + (now - buckets[key].last) * limits.rate;
      if tokens > limits.burst {
        tokens := limits.burst;
      }
      assert tokens == Refilled(limits, old(buckets)[key], now);
      buckets := buckets[key := Bucket(tokens, now)];
      if tokens < 1.0 {
        return false;
      }
      ghost var refilled := buckets;
      buckets := buckets[key := Bucket(tokens - 1.0, now)];
      assert refilled[key := Bucket(tokens - 1.0, now)] == old(buckets)[key := Bucket(tokens - 1.0, now)];
      return true;
    }

    method Gc(now: real)
      modifies this
      ensures buckets == Swept(old(buckets), now)
      ensures forall k :: k in buckets <==> k in old(buckets) && old(buckets)[k].last >= now - 300.0
      ensures forall k :: k in buckets ==> buckets[k] == old(buckets)[k]
    {
      var cutoff := now - IDLE;
      var todo := buckets.Keys;
      while todo != {}
        invariant todo <= buckets.Keys <= old(buckets).Keys
        invariant forall k :: k in buckets ==> buckets[k] == old(buckets)[k]
        invariant forall k :: k in old(buckets) && k !in todo ==> (k in buckets <==> old(buckets)[k].last >= cutoff)
        decreases |todo|
      {
        var k :| k in todo;
        if buckets[k].last < cutoff {
          buckets := buckets - {k};
        }
        todo := todo - {k};
      }
    }
  }

  // ----- runs -----

  datatype Op = Call(key: string, at: real) | Sweep(at: real)

  function Step(l: Limits, bs: Buckets, op: Op): Buckets {
    match op
    case Call(key, now) => Request(l, bs, key, now).0
    case Sweep(now) => Swept(bs, now)
  }

  function Run(l: Limits, bs: Buckets, ops: seq<Op>): Buckets
    decreases |ops|
  {
    if ops == [] then bs else Run(l, Step(l, bs, ops[0]), ops[1..])
  }

  /** The answers given to the requests of a run, in order. */
  function Answers(l: Limits, bs: Buckets, ops: seq<Op>): seq<bool>
    decreases |ops|
  {
    if ops == [] then [] else
      (match ops[0]
       case Call(key, now) => [Request(l, bs, key, now).1]
       case Sweep(_) => [])
      + Answers(l, Step(l, bs, ops[0]), ops[1..])
  }

  /** How many requests of one client a run lets through. */
  function Passed(l: Limits, bs: Buckets, ops: seq<Op>, key: string): nat
    decreases |ops|
  {
    if ops == [] then 0 else
      (if ops[0].Call? && ops[0].key == key && Request(l, bs, key, ops[0].at).1 then 1 else 0)
      + Passed(l, Step(l, bs, ops[0]), ops[1..], key)
  }

  function WithoutSweeps(ops: seq<Op>): seq<Op>
    decreases |ops|
  {
    if ops == [] then []
    else if ops[0].Sweep? then WithoutSweeps(ops[1..])
    else [ops[0]] + WithoutSweeps(ops[1..])
  }

  /** The clock never runs backwards from start on, and has not passed end. */
  predicate Ordered(start: real, ops: seq<Op>, end: real)
    decreases |ops|
  {
    if ops == [] then start <= end else start <= ops[0].at && Ordered(ops[0].at, ops[1..], end)
  }

  predicate Sweepless(ops: seq<Op>) {
    forall op :: op in ops ==> op.Call?
  }

  // ----- the invariant -----

  /** Every bucket holds between 0 and burst tokens and was last used in the past. */
  predicate Sound(l: Limits, bs: Buckets, now: real) {
    forall k :: k in bs ==> 0.0 <= bs[k].tokens <= l.burst && bs[k].last <= now
  }

  predicate Sane(l: Limits) {
    l.rate >= 0.0 && l.burst >= 1.0
  }

  /** The tokens a client could spend at a moment; a client without a bucket has them all. */
  function Available(l: Limits, bs: Buckets, key: string, now: real): real {
    if key in bs then Refilled(l, bs[key], now) else l.burst
  }

  lemma InflowNone(rate: real, at: real)
    ensures Inflow(rate, at, at) == 0.0
  {
  }

  lemma InflowStill(from: real, to: real)
    ensures Inflow(0.0, from, to) == 0.0
  {
  }

  lemma InflowGrows(rate: real, from: real, to: real)
    requires rate >= 0.0 && from <= to
    ensures Inflow(rate, from, to) >= 0.0
  {
  }

  lemma InflowSplit(rate: real, from: real, at: real, to: real)
    ensures Inflow(rate, from, to) == Inflow(rate, from, at) + Inflow(rate, at, to)
  {
  }

  lemma InflowOver(rate: real, from: real, length: real)
    ensures Inflow(rate, from, from + length) == length * rate
  {
  }

  /** For any limits and any buckets: a request passes exactly when its client is new
      or has a whole token available, costs exactly one token when it does, and leaves
      every other client's bucket untouched. With sound buckets and a burst of at least
      one, a new client is one with a full bucket and the buckets stay sound. */
  lemma RequestSpends(l: Limits, bs: Buckets, key: string, now: real)
    ensures var (after, ok) := Request(l, bs, key, now);
            && (ok <==> key !in bs || Available(l, bs, key, now) >= 1.0)
            && Available(l, after, key, now) == Available(l, bs, key, now) - (if ok then 1.0 else 0.0)
            && (forall k :: k != key ==> (k in after <==> k in bs) && (k in bs ==> after[k] == bs[k]))
            && (Sane(l) && Sound(l, bs, now) ==>
                  Sound(l, after, now) && (ok <==> Available(l, bs, key, now) >= 1.0))
  {
    hide Inflow;
    var after := Request(l, bs, key, now).0;
    InflowNone(l.rate, now);
    assert Available(l, after, key, now) == Min(l.burst, after[key].tokens);
    if Sane(l) && Sound(l, bs, now) {
      if key in bs {
        InflowGrows(l.rate, bs[key].last, now);
        assert 0.0 <= Refilled(l, bs[key], now) <= l.burst;
      }
      assert 0.0 <= after[key].tokens <= l.burst;
    }
  }

  /** Waiting refills at the given rate, up to the burst. */
  lemma WaitingRefills(l: Limits, bs: Buckets, key: string, now: real, later: real)
    requires Sane(l) && Sound(l, bs, now) && now <= later
    ensures Available(l, bs, key, later) == Min(l.burst, Available(l, bs, key, now) + Inflow(l.rate, now, later))
    ensures 0.0 <= Available(l, bs, key, now) <= l.burst
  {
    hide Inflow;
    InflowGrows(l.rate, now, later);
    if key in bs {
      InflowGrows(l.rate, bs[key].last, now);
      InflowSplit(l.rate, bs[key].last, now, later);
    }
  }

  lemma AvailableBounds(l: Limits, bs: Buckets, key: string, now: real)
    requires Sane(l) && Sound(l, bs, now)
    ensures 0.0 <= Available(l, bs, key, now) <= l.burst
  {
    WaitingRefills(l, bs, key, now, now);
  }

  lemma SoundLater(l: Limits, bs: Buckets, now: real, later: real)
    requires Sound(l, bs, now) && now <= later
    ensures Sound(l, bs, later)
  {
  }

  /** If an idle bucket refills before it is swept, sweeping takes nothing away
      from anybody and gives nothing to anybody. */
  lemma SweepIsNeutral(l: Limits, bs: Buckets, now: real, key: string)
    requires Sane(l) && Sound(l, bs, now) && IDLE * l.rate >= l.burst
    ensures Sound(l, Swept(bs, now), now)
    ensures Available(l, Swept(bs, now), key, now) == Available(l, bs, key, now)
  {
    hide Inflow;
    if key in bs && bs[key].last < now - IDLE {
      var last := bs[key].last;
      InflowOver(l.rate, last, IDLE);
      InflowGrows(l.rate, last + IDLE, now);
      InflowSplit(l.rate, last, last + IDLE, now);
    }
  }

  lemma StepSound(l: Limits, bs: Buckets, op: Op)
    requires Sane(l) && Sound(l, bs, op.at)
    ensures Sound(l, Step(l, bs, op), op.at)
  {
    if op.Call? {
      RequestSpends(l, bs, op.key, op.at);
    }
  }

  // ----- the rate bound -----

  /** From any sound state over any stretch of time, a client gets at most what it had
      available plus what flowed in: at most burst + rate * length. This is for runs
      without sweeps, or with sweeps that come after a full refill; WindowBoundExactly
      says that it cannot be had otherwise, and AnyWindowBound what can. */
  lemma {:induction false} RateBound(l: Limits, bs: Buckets, key: string, start: real, ops: seq<Op>, end: real)
    requires Sane(l) && Sound(l, bs, start) && Ordered(start, ops, end)
    requires Sweepless(ops) || IDLE * l.rate >= l.burst
    ensures start <= end
    ensures Passed(l, bs, ops, key) as real <= Available(l, bs, key, start) + Inflow(l.rate, start, end)
    ensures Passed(l, bs, ops, key) as real <= l.burst + Inflow(l.rate, start, end)
    decreases |ops|
  {
    hide Inflow, Available, Sound, Request;
    AvailableBounds(l, bs, key, start);
    if ops == [] {
      InflowGrows(l.rate, start, end);
    } else {
      var op := ops[0];
      var at, after := op.at, Step(l, bs, op);
      SoundLater(l, bs, start, at);
      WaitingRefills(l, bs, key, start, at);
      StepSound(l, bs, op);
      assert Sweepless(ops) ==> Sweepless(ops[1..]);
      RateBound(l, after, key, at, ops[1..], end);
      StepSpends(l, bs, op, key);
      InflowSplit(l.rate, start, at, end);
    }
  }

  lemma StepSpends(l: Limits, bs: Buckets, op: Op, key: string)
    requires Sane(l) && Sound(l, bs, op.at)
    requires op.Call? || IDLE * l.rate >= l.burst
    ensures Available(l, Step(l, bs, op), key, op.at) == Available(l, bs, key, op.at)
            - if op.Call? && op.key == key && Request(l, bs, key, op.at).1 then 1.0 else 0.0
  {
    if op.Call? {
      RequestSpends(l, bs, op.key, op.at);
    } else {
      SweepIsNeutral(l, bs, op.at, key);
    }
  }

  /** Every state of every run from the empty limiter is sound, so the bound holds
      in every window of every run. */
  lemma {:induction false} RunSound(l: Limits, bs: Buckets, start: real, ops: seq<Op>, end: real)
    requires Sane(l) && Sound(l, bs, start) && Ordered(start, ops, end)
    ensures Sound(l, Run(l, bs, ops), end)
    decreases |ops|
  {
    if ops != [] {
      SoundLater(l, bs, start, ops[0].at);
      StepSound(l, bs, ops[0]);
      RunSound(l, Step(l, bs, ops[0]), ops[0].at, ops[1..], end);
    } else {
      SoundLater(l, bs, start, end);
    }
  }

  lemma EmptyIsSound(l: Limits)
    ensures Sound(l, map[], 0.0)
  {
  }

  /** The bound a token bucket promises: over any window of any run, sweeps included,
      a client gets at most burst + rate * length requests through. */
  ghost predicate WindowBounded(l: Limits) {
    forall key, before, middle, window, end ::
      Ordered(0.0, before, middle) && Ordered(middle, window, end) ==>
        Passed(l, Run(l, map[], before), window, key) as real <= l.burst + (end - middle) * l.rate
  }

  lemma WindowBound(l: Limits, key: string, before: seq<Op>, middle: real, window: seq<Op>, end: real)
    requires Sane(l) && Ordered(0.0, before, middle) && Ordered(middle, window, end)
    requires Sweepless(window) || IDLE * l.rate >= l.burst
    ensures Passed(l, Run(l, map[], before), window, key) as real <= l.burst + (end - middle) * l.rate
  {
    hide Run, Passed, Sound, Request, Ordered, Available;
    EmptyIsSound(l);
    RunSound(l, map[], 0.0, before, middle);
    RateBound(l, Run(l, map[], before), key, middle, window, end);
  }

  // ----- a bound for all limits and all sweeps -----

  /** What a client who has just been swept, or has never been seen, can get at once:
      a first request passes whatever the burst. */
  function Depth(l: Limits): real {
    if l.burst < 1.0 then 1.0 else l.burst
  }

  /** The pace that sweeping allows: a bucket comes back full after IDLE seconds even
      when it has not refilled by then. */
  function Pace(l: Limits): real {
    if l.rate < Depth(l) / IDLE then Depth(l) / IDLE else l.rate
  }

  /** What a client could get out of a limiter that refills at that pace. */
  function Credit(l: Limits, bs: Buckets, key: string, now: real): real {
    if key !in bs then Depth(l)
    else Min(Depth(l), (if bs[key].tokens < 0.0 then 0.0 else bs[key].tokens) + Inflow(Pace(l), bs[key].last, now))
  }

  predicate Past(bs: Buckets, now: real) {
    forall k :: k in bs ==> bs[k].last <= now
  }

  lemma PaceBounds(l: Limits)
    ensures Pace(l) >= l.rate && Pace(l) > 0.0 && Inflow(Pace(l), 0.0, IDLE) >= Depth(l) >= 1.0
  {
    assert Depth(l) / IDLE * IDLE == Depth(l);
    assert (Pace(l) - Depth(l) / IDLE) * IDLE >= 0.0;
  }

  lemma InflowFaster(rate: real, pace: real, from: real, to: real)
    requires rate <= pace && from <= to
    ensures Inflow(rate, from, to) <= Inflow(pace, from, to)
  {
    assert (to - from) * pace - (to - from) * rate == (to - from) * (pace - rate);
    TimesSign(to - from, pace - rate);
  }

  lemma TimesSign(a: real, b: real)
    requires a >= 0.0 && b >= 0.0
    ensures a * b >= 0.0
  {
  }

  lemma InflowShift(rate: real, from: real, length: real)
    ensures Inflow(rate, from, from + length) == Inflow(rate, 0.0, length)
  {
  }

  lemma CreditLater(l: Limits, bs: Buckets, key: string, now: real, later: real)
    requires Past(bs, now) && now <= later
    ensures Past(bs, later)
    ensures 0.0 <= Credit(l, bs, key, now) <= Depth(l)
    ensures Credit(l, bs, key, later) <= Credit(l, bs, key, now) + Inflow(Pace(l), now, later)
  {
    PaceBounds(l);
    hide Inflow, Pace;
    InflowGrows(Pace(l), now, later);
    if key in bs {
      InflowGrows(Pace(l), bs[key].last, now);
      InflowSplit(Pace(l), bs[key].last, now, later);
    }
  }

  /** No step creates credit, and a request that passes uses one up. */
  lemma CreditStep(l: Limits, bs: Buckets, op: Op, key: string)
    requires l.rate >= 0.0 && Past(bs, op.at)
    ensures Past(Step(l, bs, op), op.at)
    ensures Credit(l, Step(l, bs, op), key, op.at) <= Credit(l, bs, key, op.at)
            - if op.Call? && op.key == key && Request(l, bs, key, op.at).1 then 1.0 else 0.0
  {
    PaceBounds(l);
    hide Inflow, Pace;
    var at := op.at;
    InflowNone(Pace(l), at);
    if key in bs {
      var last := bs[key].last;
      InflowFaster(l.rate, Pace(l), last, at);
      InflowGrows(Pace(l), last, at);
      InflowGrows(l.rate, last, at);
      if last < at - IDLE {
        InflowShift(Pace(l), last, IDLE);
        InflowGrows(Pace(l), last + IDLE, at);
        InflowSplit(Pace(l), last, last + IDLE, at);
      }
    }
  }

  lemma {:induction false} CreditBound(l: Limits, bs: Buckets, key: string, start: real, ops: seq<Op>, end: real)
    requires l.rate >= 0.0 && Past(bs, start) && Ordered(start, ops, end)
    ensures Past(Run(l, bs, ops), end)
    ensures Passed(l, bs, ops, key) as real <= Credit(l, bs, key, start) + Inflow(Pace(l), start, end)
    decreases |ops|
  {
    hide Inflow, Credit, Pace, Request, Past, Swept;
    if ops == [] {
      CreditLater(l, bs, key, start, end);
      PaceBounds(l);
      InflowGrows(Pace(l), start, end);
    } else {
      var op := ops[0];
      CreditLater(l, bs, key, start, op.at);
      CreditStep(l, bs, op, key);
      CreditBound(l, Step(l, bs, op), key, op.at, ops[1..], end);
      InflowSplit(Pace(l), start, op.at, end);
    }
  }

  /** Whatever the burst and however the sweeps fall: over any window of any run a
      client gets at most depth + pace * length requests through. */
  lemma AnyWindowBound(l: Limits, key: string, before: seq<Op>, middle: real, window: seq<Op>, end: real)
    requires l.rate >= 0.0 && Ordered(0.0, before, middle) && Ordered(middle, window, end)
    ensures var depth := if l.burst < 1.0 then 1.0 else l.burst;
            var pace := if l.rate < depth / 300.0 then depth / 300.0 else l.rate;
            Passed(l, Run(l, map[], before), window, key) as real <= depth + (end - middle) * pace
  {
    hide Run, Passed, Request, Ordered, Credit;
    CreditBound(l, map[], key, 0.0, before, middle);
    CreditBound(l, Run(l, map[], before), key, middle, window, end);
    CreditLater(l, Run(l, map[], before), key, middle, middle);
  }

  // ----- when sweeping cannot be noticed -----

  /** Two limiters nobody can tell apart at this moment. */
  ghost predicate Alike(l: Limits, bs: Buckets, cs: Buckets, now: real) {
    forall k :: Available(l, bs, k, now) == Available(l, cs, k, now)
  }

  lemma AlikeLater(l: Limits, bs: Buckets, cs: Buckets, now: real, later: real)
    requires Sane(l) && Sound(l, bs, now) && Sound(l, cs, now) && Alike(l, bs, cs, now) && now <= later
    ensures Alike(l, bs, cs, later)
  {
    forall k ensures Available(l, bs, k, later) == Available(l, cs, k, later) {
      WaitingRefills(l, bs, k, now, later);
      WaitingRefills(l, cs, k, now, later);
    }
  }

  lemma AlikeRequest(l: Limits, bs: Buckets, cs: Buckets, key: string, now: real)
    requires Sane(l) && Sound(l, bs, now) && Sound(l, cs, now) && Alike(l, bs, cs, now)
    ensures Request(l, bs, key, now).1 == Request(l, cs, key, now).1
    ensures Alike(l, Request(l, bs, key, now).0, Request(l, cs, key, now).0, now)
  {
    RequestSpends(l, bs, key, now);
    RequestSpends(l, cs, key, now);
    var b, c := Request(l, bs, key, now).0, Request(l, cs, key, now).0;
    forall k ensures Available(l, b, k, now) == Available(l, c, k, now) {
      assert Available(l, bs, k, now) == Available(l, cs, k, now);
    }
  }

  lemma {:induction false} SweepsUnnoticed(l: Limits, bs: Buckets, cs: Buckets, start: real, ops: seq<Op>, end: real)
    requires Sane(l) && IDLE * l.rate >= l.burst
    requires Sound(l, bs, start) && Sound(l, cs, start) && Alike(l, bs, cs, start) && Ordered(start, ops, end)
    ensures Answers(l, bs, ops) == Answers(l, cs, WithoutSweeps(ops))
    decreases |ops|
  {
    if ops != [] {
      var at := ops[0].at;
      SoundLater(l, bs, start, at);
      SoundLater(l, cs, start, at);
      AlikeLater(l, bs, cs, start, at);
      StepSound(l, bs, ops[0]);
      match ops[0] {
        case Call(key, _) =>
          StepSound(l, cs, ops[0]);
          AlikeRequest(l, bs, cs, key, at);
          var rest := WithoutSweeps(ops[1..]);
          assert WithoutSweeps(ops) == [ops[0]] + rest && ([ops[0]] + rest)[1..] == rest;
          SweepsUnnoticed(l, Step(l, bs, ops[0]), Step(l, cs, ops[0]), at, ops[1..], end);
        case Sweep(_) =>
          forall k ensures Available(l, Swept(bs, at), k, at) == Available(l, cs, k, at) {
            SweepIsNeutral(l, bs, at, k);
          }
          SweepsUnnoticed(l, Swept(bs, at), cs, at, ops[1..], end);
      }
    }
  }

  /** No run from the empty limiter answers differently because of its sweeps. */
  ghost predicate SweepingInvisible(l: Limits) {
    forall ops, end :: Ordered(0.0, ops, end) ==>
      Answers(l, map[], ops) == Answers(l, map[], WithoutSweeps(ops))
  }

  lemma {:induction false} StateConcat(l: Limits, bs: Buckets, a: seq<Op>, b: seq<Op>)
    ensures Run(l, bs, a + b) == Run(l, Run(l, bs, a), b)
    decreases |a|
  {
    hide Request, Swept, Step;
    if a == [] {
      assert a + b == b;
    } else {
      assert (a + b)[0] == a[0] && (a + b)[1..] == a[1..] + b;
      StateConcat(l, Step(l, bs, a[0]), a[1..], b);
    }
  }

  lemma {:induction false} AnswersConcat(l: Limits, bs: Buckets, a: seq<Op>, b: seq<Op>)
    ensures Answers(l, bs, a + b) == Answers(l, bs, a) + Answers(l, Run(l, bs, a), b)
    decreases |a|
  {
    hide Request, Swept, Step;
    if a == [] {
      assert a + b == b;
    } else {
      assert (a + b)[0] == a[0] && (a + b)[1..] == a[1..] + b;
      AnswersConcat(l, Step(l, bs, a[0]), a[1..], b);
    }
  }

  lemma {:induction false} SweeplessConcat(a: seq<Op>, b: seq<Op>)
    ensures WithoutSweeps(a + b) == WithoutSweeps(a) + WithoutSweeps(b)
    decreases |a|
  {
    if a == [] {
      assert a + b == b;
    } else {
      assert (a + b)[0] == a[0] && (a + b)[1..] == a[1..] + b;
      SweeplessConcat(a[1..], b);
    }
  }

  lemma RunConcat(l: Limits, bs: Buckets, a: seq<Op>, b: seq<Op>)
    ensures Run(l, bs, a + b) == Run(l, Run(l, bs, a), b)
    ensures Answers(l, bs, a + b) == Answers(l, bs, a) + Answers(l, Run(l, bs, a), b)
    ensures WithoutSweeps(a + b) == WithoutSweeps(a) + WithoutSweeps(b)
  {
    StateConcat(l, bs, a, b);
    AnswersConcat(l, bs, a, b);
    SweeplessConcat(a, b);
  }

  lemma {:induction false} OrderedConcat(start: real, a: seq<Op>, middle: real, b: seq<Op>, end: real)
    requires Ordered(start, a, middle) && Ordered(middle, b, end)
    ensures Ordered(start, a + b, end)
    decreases |a|
  {
    if a == [] {
      assert a + b == b;
      OrderedEarlier(start, middle, b, end);
    } else {
      assert (a + b)[0] == a[0] && (a + b)[1..] == a[1..] + b;
      OrderedConcat(a[0].at, a[1..], middle, b, end);
    }
  }

  lemma OrderedEarlier(start: real, middle: real, b: seq<Op>, end: real)
    requires start <= middle && Ordered(middle, b, end)
    ensures Ordered(start, b, end)
  {
  }

  lemma {:induction false} SweeplessKept(ops: seq<Op>)
    requires Sweepless(ops)
    ensures WithoutSweeps(ops) == ops
    decreases |ops|
  {
    if ops != [] {
      assert ops[0].Call?;
      SweeplessKept(ops[1..]);
    }
  }

  /** The client is left with nothing at all, or, when nothing ever flows in, with
      less than one token. */
  predicate Drained(l: Limits, bs: Buckets, key: string, now: real) {
    key in bs && bs[key].last == now && bs[key].tokens < 1.0 && (l.rate > 0.0 ==> bs[key].tokens == 0.0)
  }

  /** A client can always drain its bucket to exactly nothing. */
  lemma {:induction false} Drain(l: Limits, bs: Buckets, key: string, now: real) returns (ops: seq<Op>, end: real)
    requires Sane(l) && Sound(l, bs, now) && key in bs && bs[key].last == now
    ensures Sweepless(ops) && Ordered(now, ops, end)
    ensures Sound(l, Run(l, bs, ops), end) && Drained(l, Run(l, bs, ops), key, end)
    ensures Passed(l, bs, ops, key) as real
            == bs[key].tokens + Inflow(l.rate, now, end) - Run(l, bs, ops)[key].tokens
    decreases bs[key].tokens.Floor
  {
    hide Request, Sound, Inflow;
    if bs[key].tokens < 1.0 {
      if l.rate == 0.0 {
        ops, end := [], now;
        InflowNone(l.rate, now);
      } else {
        end := DrainLast(l, bs, key, now);
        ops := [Call(key, end)];
        assert ops[1..] == [];
      }
    } else {
      DrainOne(l, bs, key, now);
      var rest;
      rest, end := Drain(l, Request(l, bs, key, now).0, key, now);
      ops := [Call(key, now)] + rest;
      assert ops[1..] == rest;
    }
  }

  lemma DrainOne(l: Limits, bs: Buckets, key: string, now: real)
    requires Sane(l) && Sound(l, bs, now) && key in bs && bs[key].last == now && bs[key].tokens >= 1.0
    ensures var after := Request(l, bs, key, now).0;
            && Request(l, bs, key, now).1
            && Sound(l, after, now) && key in after && after[key] == Bucket(bs[key].tokens - 1.0, now)
  {
    hide Inflow;
    RequestSpends(l, bs, key, now);
    InflowNone(l.rate, now);
    assert Refilled(l, bs[key], now) == bs[key].tokens;
  }

  lemma DrainLast(l: Limits, bs: Buckets, key: string, now: real) returns (end: real)
    requires Sane(l) && l.rate > 0.0 && Sound(l, bs, now)
    requires key in bs && bs[key].last == now && bs[key].tokens < 1.0
    ensures now <= end
    ensures Inflow(l.rate, now, end) == 1.0 - bs[key].tokens && Request(l, bs, key, end).1
    ensures Sound(l, Request(l, bs, key, end).0, end) && Drained(l, Request(l, bs, key, end).0, key, end)
  {
    hide Inflow;
    end := RefillTime(l.rate, now, 1.0 - bs[key].tokens);
    SoundLater(l, bs, now, end);
    RequestSpends(l, bs, key, end);
    assert Refilled(l, bs[key], end) == 1.0;
  }

  /** The moment by which a given amount has flowed in. */
  lemma RefillTime(rate: real, now: real, amount: real) returns (end: real)
    requires rate > 0.0 && amount >= 0.0
    ensures now <= end && Inflow(rate, now, end) == amount
  {
    end := now + amount / rate;
  }

  /** Two limiters that disagree on what a client has can be told apart by requests. */
  lemma {:induction false} Distinguish(l: Limits, bs: Buckets, cs: Buckets, key: string, now: real)
      returns (ops: seq<Op>, end: real)
    requires Sane(l) && Sound(l, bs, now) && Sound(l, cs, now)
    requires Available(l, bs, key, now) < Available(l, cs, key, now)
    requires l.rate > 0.0 || Available(l, bs, key, now) < 1.0 <= Available(l, cs, key, now)
    ensures Sweepless(ops) && Ordered(now, ops, end)
    ensures Answers(l, bs, ops) != Answers(l, cs, ops)
    decreases Available(l, cs, key, now).Floor
  {
    hide Inflow, Request, Sound, Available, Answers, Step;
    var a, c := Available(l, bs, key, now), Available(l, cs, key, now);
    AvailableBounds(l, bs, key, now);
    AvailableBounds(l, cs, key, now);
    if a < 1.0 <= c {
      ops, end := [Call(key, now)], now;
      Differ(l, bs, cs, key, now);
    } else if c < 1.0 {
      end := RefillTime(l.rate, now, 1.0 - c);
      ops := [Call(key, end)];
      WaitingRefills(l, bs, key, now, end);
      WaitingRefills(l, cs, key, now, end);
      SoundLater(l, bs, now, end);
      SoundLater(l, cs, now, end);
      Differ(l, bs, cs, key, end);
    } else {
      RequestSpends(l, bs, key, now);
      RequestSpends(l, cs, key, now);
      var rest;
      rest, end := Distinguish(l, Request(l, bs, key, now).0, Request(l, cs, key, now).0, key, now);
      ops := [Call(key, now)] + rest;
      assert ops[1..] == rest;
      AnswersHead(l, bs, key, now, rest);
      AnswersHead(l, cs, key, now, rest);
      PrefixCancels([true], Answers(l, Request(l, bs, key, now).0, rest), Answers(l, Request(l, cs, key, now).0, rest));
    }
  }

  lemma AnswersHead(l: Limits, bs: Buckets, key: string, now: real, rest: seq<Op>)
    ensures Answers(l, bs, [Call(key, now)] + rest)
            == [Request(l, bs, key, now).1] + Answers(l, Request(l, bs, key, now).0, rest)
  {
    var ops := [Call(key, now)] + rest;
    assert ops[0] == Call(key, now) && ops[1..] == rest;
  }

  lemma Differ(l: Limits, bs: Buckets, cs: Buckets, key: string, now: real)
    requires Sane(l) && Sound(l, bs, now) && Sound(l, cs, now)
    requires Available(l, bs, key, now) < 1.0 <= Available(l, cs, key, now)
    ensures Answers(l, bs, [Call(key, now)]) != Answers(l, cs, [Call(key, now)])
  {
    RequestSpends(l, bs, key, now);
    RequestSpends(l, cs, key, now);
    AnswersHead(l, bs, key, now, []);
    AnswersHead(l, cs, key, now, []);
    assert [Call(key, now)] + [] == [Call(key, now)];
    assert Answers(l, bs, [Call(key, now)])[0] != Answers(l, cs, [Call(key, now)])[0];
  }

  /** The run of a client that has no bucket up to the moment it has nothing left: it
      gets through exactly the burst and what flows in meanwhile, less what is left. */
  lemma DrainNewcomer(l: Limits, bs: Buckets, key: string, start: real) returns (ops: seq<Op>, end: real)
    requires Sane(l) && Sound(l, bs, start) && key !in bs
    ensures Sweepless(ops) && Ordered(start, ops, end)
    ensures Sound(l, Run(l, bs, ops), end) && Drained(l, Run(l, bs, ops), key, end)
    ensures Passed(l, bs, ops, key) as real
            == l.burst + Inflow(l.rate, start, end) - Run(l, bs, ops)[key].tokens
  {
    hide Request, Sound, Drained, Inflow;
    FirstRequest(l, bs, key, start);
    var more;
    more, end := Drain(l, Request(l, bs, key, start).0, key, start);
    ops := [Call(key, start)] + more;
    assert ops[1..] == more;
  }

  lemma FirstRequest(l: Limits, bs: Buckets, key: string, start: real)
    requires Sane(l) && Sound(l, bs, start) && key !in bs
    ensures var (after, ok) := Request(l, bs, key, start);
            ok && Sound(l, after, start) && key in after && after[key] == Bucket(l.burst - 1.0, start)
  {
  }

  /** A drained client that is idle long enough to be swept, but not to refill, has
      more after the sweep than without it. */
  lemma SweepGives(l: Limits, bs: Buckets, key: string, t: real, at: real)
    requires Sane(l) && Sound(l, bs, t) && Drained(l, bs, key, t)
    requires at - t > IDLE && Inflow(l.rate, t, at) < l.burst
    ensures Sound(l, bs, at) && Sound(l, Swept(bs, at), at)
    ensures Available(l, bs, key, at) < Available(l, Swept(bs, at), key, at) == l.burst
    ensures l.rate == 0.0 ==> Available(l, bs, key, at) < 1.0
  {
    SoundLater(l, bs, t, at);
    if l.rate == 0.0 {
      assert Inflow(l.rate, t, at) == 0.0;
    }
    hide Inflow;
    assert key !in Swept(bs, at);
  }

  /** When a bucket is swept before it has refilled, some client can notice. */
  lemma SweepNoticed(l: Limits)
    requires Sane(l) && IDLE * l.rate < l.burst
    ensures !SweepingInvisible(l)
  {
    hide Inflow, Request, Sound, Available, Answers, Step, Run, WithoutSweeps, Swept, Ordered, Drained;
    var key := "client";
    EmptyIsSound(l);
    var drain, t := DrainNewcomer(l, map[], key, 0.0);
    var bs := Run(l, map[], drain);
    var idle := IdleTime(l);
    var at := t + idle;
    InflowOver(l.rate, t, idle);
    SweepGives(l, bs, key, t, at);
    var probe, end := Distinguish(l, bs, Swept(bs, at), key, at);
    SweepAlone(l, bs, at);
    SweepOrdered(t, at, probe, end);
    OrderedConcat(0.0, drain, t, [Sweep(at)] + probe, end);
    RunConcat(l, map[], drain, [Sweep(at)] + probe);
    RunConcat(l, bs, [Sweep(at)], probe);
    RunConcat(l, map[], drain, probe);
    SweeplessKept(drain);
    SweeplessKept(probe);
    PrefixCancels(Answers(l, map[], drain), Answers(l, Swept(bs, at), probe), Answers(l, bs, probe));
    var ops := drain + ([Sweep(at)] + probe);
    assert [] + probe == probe && [] + Answers(l, Swept(bs, at), probe) == Answers(l, Swept(bs, at), probe);
    assert WithoutSweeps(ops) == drain + probe;
    assert Answers(l, map[], ops) == Answers(l, map[], drain) + Answers(l, Swept(bs, at), probe);
    assert Answers(l, map[], drain + probe) == Answers(l, map[], drain) + Answers(l, bs, probe);
  }

  lemma SweepOrdered(t: real, at: real, probe: seq<Op>, end: real)
    requires t <= at && Ordered(at, probe, end)
    ensures Ordered(t, [Sweep(at)] + probe, end)
  {
    assert ([Sweep(at)] + probe)[1..] == probe;
  }

  /** A pause long enough to be swept but too short to refill. */
  lemma IdleTime(l: Limits) returns (idle: real)
    requires Sane(l) && IDLE * l.rate < l.burst
    ensures idle > IDLE && idle * l.rate < l.burst
  {
    if l.rate == 0.0 {
      idle := IDLE + 1.0;
    } else {
      var full := l.burst / l.rate;
      assert full * l.rate == l.burst;
      assert full > IDLE by {
        if full <= IDLE {
          InflowGrows(l.rate, full, IDLE);
        }
      }
      idle := (IDLE + full) / 2.0;
      assert (full - idle) * l.rate == l.burst - idle * l.rate;
    }
  }

  lemma SweepAlone(l: Limits, bs: Buckets, at: real)
    ensures Answers(l, bs, [Sweep(at)]) == [] && Run(l, bs, [Sweep(at)]) == Swept(bs, at)
    ensures WithoutSweeps([Sweep(at)]) == []
  {
    assert [Sweep(at)][1..] == [];
  }

  lemma PrefixCancels<T>(p: seq<T>, a: seq<T>, b: seq<T>)
    requires a != b
    ensures p + a != p + b
  {
    assert (p + a)[|p|..] == a && (p + b)[|p|..] == b;
  }

  /** With a burst below one a client's second request shows whether it was swept. */
  lemma SmallBurstNoticed(l: Limits)
    requires l.rate >= 0.0 && l.burst < 1.0
    ensures !SweepingInvisible(l)
  {
    hide Request, Available, Answers, Step, Run, WithoutSweeps, Swept, Ordered;
    var key, end := "client", IDLE + 1.0;
    var first, sweep, second := [Call(key, 0.0)], [Sweep(end)], [Call(key, end)];
    var bs := Run(l, map[], first);
    SmallBurstAnswers(l, key, end);
    SmallBurstOrdered(key, end);
    SweepAlone(l, bs, end);
    RunConcat(l, map[], first + sweep, second);
    RunConcat(l, map[], first, sweep);
    RunConcat(l, map[], first, second);
    assert WithoutSweeps(first + sweep + second) == first + second by {
      SweeplessKept(first);
      SweeplessKept(second);
    }
    PrefixCancels(Answers(l, map[], first), [true], [false]);
    assert Answers(l, map[], first + sweep + second) == Answers(l, map[], first) + [true];
    assert Answers(l, map[], first + second) == Answers(l, map[], first) + [false];
  }

  lemma SmallBurstAnswers(l: Limits, key: string, end: real)
    requires l.rate >= 0.0 && l.burst < 1.0 && end == IDLE + 1.0
    ensures var bs := Run(l, map[], [Call(key, 0.0)]);
            && Answers(l, bs, [Call(key, end)]) == [false]
            && Answers(l, Swept(bs, end), [Call(key, end)]) == [true]
  {
    var bs := Request(l, map[], key, 0.0).0;
    assert Run(l, map[], [Call(key, 0.0)]) == bs by {
      assert [Call(key, 0.0)][1..] == [];
    }
    assert [Call(key, end)] + [] == [Call(key, end)];
    AnswersHead(l, bs, key, end, []);
    AnswersHead(l, Swept(bs, end), key, end, []);
  }

  lemma SmallBurstOrdered(key: string, end: real)
    requires end > 0.0
    ensures Ordered(0.0, [Call(key, 0.0)] + [Sweep(end)] + [Call(key, end)], end)
  {
    var ops := [Call(key, 0.0)] + [Sweep(end)] + [Call(key, end)];
    var last, rest := [Call(key, end)], [Sweep(end)] + [Call(key, end)];
    assert last[1..] == [] && rest[1..] == last && ops[1..] == rest;
    assert Ordered(end, last, end) && Ordered(end, rest, end) && rest[0] == Sweep(end);
    assert ops[0] == Call(key, 0.0) && Ordered(0.0, rest, end);
  }

  /** Sweeping is unobservable exactly when the burst is at least one token and an
      idle bucket refills completely before it is swept. */
  lemma SweepingIsInvisibleExactly(l: Limits)
    requires l.rate >= 0.0
    ensures SweepingInvisible(l) <==> l.burst >= 1.0 && 300.0 * l.rate >= l.burst
  {
    if l.burst < 1.0 {
      SmallBurstNoticed(l);
    } else if IDLE * l.rate < l.burst {
      SweepNoticed(l);
    } else {
      forall ops, end | Ordered(0.0, ops, end)
        ensures Answers(l, map[], ops) == Answers(l, map[], WithoutSweeps(ops))
      {
        SweepsUnnoticed(l, map[], map[], 0.0, ops, end);
      }
    }
  }

  // ----- when the window bound holds -----

  lemma {:induction false} PassedConcat(l: Limits, bs: Buckets, a: seq<Op>, b: seq<Op>, key: string)
    ensures Passed(l, bs, a + b, key) == Passed(l, bs, a, key) + Passed(l, Run(l, bs, a), b, key)
    decreases |a|
  {
    hide Request, Swept, Step;
    if a == [] {
      assert a + b == b;
    } else {
      assert (a + b)[0] == a[0] && (a + b)[1..] == a[1..] + b;
      PassedConcat(l, Step(l, bs, a[0]), a[1..], b, key);
    }
  }

  /** Draining, being swept before the refill and draining again gets more through than
      the bound allows. */
  lemma WindowExceeded(l: Limits)
    requires Sane(l) && IDLE * l.rate < l.burst
    ensures !WindowBounded(l)
  {
    hide Inflow, Request, Sound, Available, Passed, Run, Swept, Ordered, Drained;
    var key := "client";
    EmptyIsSound(l);
    var first, t := DrainNewcomer(l, map[], key, 0.0);
    var bs := Run(l, map[], first);
    var idle := IdleTime(l);
    var at := t + idle;
    InflowOver(l.rate, t, idle);
    DrainedIsSwept(l, bs, key, t, at);
    var second, end := DrainNewcomer(l, Swept(bs, at), key, at);
    var ops := first + ([Sweep(at)] + second);
    SweepAlone(l, bs, at);
    SweepOrdered(t, at, second, end);
    OrderedConcat(0.0, first, t, [Sweep(at)] + second, end);
    PassedConcat(l, map[], first, [Sweep(at)] + second, key);
    PassedConcat(l, bs, [Sweep(at)], second, key);
    SweepPassesNobody(l, bs, at, key);
    InflowSplit(l.rate, 0.0, t, end);
    InflowSplit(l.rate, t, at, end);
    LeftOver(l, bs, key, t);
    LeftOver(l, Run(l, Swept(bs, at), second), key, end);
    var n, m := Passed(l, map[], first, key), Passed(l, Swept(bs, at), second, key);
    assert Passed(l, map[], ops, key) == n + m;
    InflowTotal(l.rate, end);
    InflowStill(0.0, t);
    InflowStill(t, at);
    InflowStill(at, end);
    TwoDrains(l, n, m, Inflow(l.rate, 0.0, t), Inflow(l.rate, t, at), Inflow(l.rate, at, end),
              bs[key].tokens, Run(l, Swept(bs, at), second)[key].tokens);
    NothingBefore(l);
    assert Ordered(0.0, [], 0.0) && Ordered(0.0, ops, end);
    assert (end - 0.0) * l.rate == Inflow(l.rate, 0.0, end);
  }

  lemma NothingBefore(l: Limits)
    ensures Ordered(0.0, [], 0.0) && Run(l, map[], []) == map[]
  {
  }

  lemma InflowTotal(rate: real, end: real)
    ensures (end - 0.0) * rate == Inflow(rate, 0.0, end)
  {
  }

  lemma SweepPassesNobody(l: Limits, bs: Buckets, at: real, key: string)
    ensures Passed(l, bs, [Sweep(at)], key) == 0
  {
    assert [Sweep(at)][1..] == [];
  }

  lemma DrainedIsSwept(l: Limits, bs: Buckets, key: string, t: real, at: real)
    requires Sound(l, bs, t) && Drained(l, bs, key, t) && at - t > IDLE
    ensures Sound(l, Swept(bs, at), at) && key !in Swept(bs, at)
  {
  }

  lemma LeftOver(l: Limits, bs: Buckets, key: string, t: real)
    requires Sound(l, bs, t) && Drained(l, bs, key, t)
    ensures key in bs && 0.0 <= bs[key].tokens < 1.0 && (l.rate > 0.0 ==> bs[key].tokens == 0.0)
  {
  }

  /** Two drains with an idle stretch between them that brings in less than the burst. */
  lemma TwoDrains(l: Limits, n: nat, m: nat, before: real, idle: real, after: real, f: real, g: real)
    requires Sane(l) && idle < l.burst
    requires n as real == l.burst + before - f && m as real == l.burst + after - g
    requires 0.0 <= f < 1.0 && 0.0 <= g < 1.0
    requires if l.rate > 0.0 then f == g == 0.0 else before == idle == after == 0.0
    ensures (n + m) as real > l.burst + (before + idle + after)
  {
    if l.rate == 0.0 {
      assert n as real > 0.0 && m as real > 0.0;
      assert n >= 1 && m >= 1;
    }
  }

  /** The promised window bound holds for every run exactly under the conditions that
      make sweeping unobservable. */
  lemma WindowBoundExactly(l: Limits)
    requires l.rate >= 0.0
    ensures WindowBounded(l) <==> l.burst >= 1.0 && 300.0 * l.rate >= l.burst
  {
    hide Ordered, Passed, Run;
    if l.burst < 1.0 {
      TinyBurstExceeds(l, "client");
      NothingBefore(l);
    } else if IDLE * l.rate < l.burst {
      WindowExceeded(l);
    } else {
      forall key, before, middle, window, end | Ordered(0.0, before, middle) && Ordered(middle, window, end)
        ensures Passed(l, Run(l, map[], before), window, key) as real <= l.burst + (end - middle) * l.rate
      {
        WindowBound(l, key, before, middle, window, end);
      }
    }
  }

  /** A first request passes although the burst is below one. */
  lemma TinyBurstExceeds(l: Limits, key: string)
    requires l.burst < 1.0
    ensures Ordered(0.0, [Call(key, 0.0)], 0.0) && Passed(l, map[], [Call(key, 0.0)], key) == 1
    ensures 1.0 > l.burst + (0.0 - 0.0) * l.rate
  {
    assert [Call(key, 0.0)][1..] == [];
  }

  /** The smallest windows that break the bound: two requests with a sweep between them
      on a bucket of one that never refills, and one request on a bucket of a half. */
  lemma WindowBoundFails(key: string)
    ensures Passed(Limits(0.0, 1.0), map[], [Call(key, 0.0), Sweep(301.0), Call(key, 301.0)], key) == 2
    ensures Passed(Limits(0.0, 0.5), map[], [Call(key, 0.0)], key) == 1
  {
    var l := Limits(0.0, 1.0);
    var ops := [Call(key, 0.0), Sweep(301.0), Call(key, 301.0)];
    var rest, last := [Sweep(301.0), Call(key, 301.0)], [Call(key, 301.0)];
    assert ops[1..] == rest && rest[1..] == last && last[1..] == [];
    var bs := Step(l, map[], ops[0]);
    assert bs == map[key := Bucket(0.0, 0.0)];
    assert Swept(bs, 301.0) == map[];
    assert Passed(l, map[], last, key) == 1;
    assert Passed(l, bs, rest, key) == 1;
    TinyBurstExceeds(Limits(0.0, 0.5), key);
  }
}
