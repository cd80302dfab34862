/** The liquidity stress predictor of one cycle: how much of the pot is expected to
    be missing, how likely a default is, and how alarming that makes the group.
    Risks and probabilities are exact reals, money is truncated as the code does. */
module Liquidity {
  import opened Domain
  import opened Sums

  datatype MemberRisk = MemberRisk(user: Id, risk: real)

  datatype Level = Good | Stressed | Critical

  datatype Assessment = Assessment(
    group: Id,
    cycle: int,
    expected: Money,
    shortfall: Money,
    escrow: Money,
    collapse: real,
    level: Level)

  function Clamp(x: real): real {
    if x < 0.0 then 0.0 else if x > 1.0 then 1.0 else x
  }

  /** Converting a float to an integer drops the fraction, on either side of zero. */
  function Truncate(x: real): int {
    if x >= 0.0 then x.Floor else -((-x).Floor)
  }

  /** Integer division drops the fraction, on either side of zero. */
  function Quotient(a: int, d: int): int
    requires d > 0
  {
    if a >= 0 then a / d else -(-a / d)
  }

  /** The product, named so that proofs can reason about it through its lemmas only. */
  function Times(a: real, b: real): real {
    a * b
  }

  /** What a member is expected to leave unpaid. */
  function Hit(contribution: Money): MemberRisk -> int {
    (m: MemberRisk) => Truncate(Times(contribution as real, Clamp(m.risk)))
  }

  /** The probability that nobody defaults. */
  function NoDefault(ms: seq<MemberRisk>): real {
    if ms == [] then 1.0 else Times(NoDefault(ms[..|ms| - 1]), 1.0 - Clamp(ms[|ms| - 1].risk))
  }

  function Collapse(ms: seq<MemberRisk>): real {
    1.0 - NoDefault(ms)
  }

  function Shortfall(contribution: Money, ms: seq<MemberRisk>): Money {
    Sum(ms, Hit(contribution))
  }

  function LevelOf(contribution: Money, escrow: Money, ms: seq<MemberRisk>): Level {
    var expected := contribution * |ms|;
    var available := escrow + expected - Shortfall(contribution, ms);
    if available >= expected && Collapse(ms) < 0.25 then Good
    else if available >= Quotient(expected * 8, 10) && Collapse(ms) < 0.5 then Stressed
    else Critical
  }

  method Assess(group: Id, cycle: int, contribution: Money, escrow: Money, members: seq<MemberRisk>)
      returns (a: Assessment)
    ensures a == Assessment(group, cycle, contribution * |members|, Shortfall(contribution, members), escrow,
                            Collapse(members), LevelOf(contribution, escrow, members))
  {
    var expected := contribution * |members|;
    var shortfall, noDefault := 0, 1.0;
    for i := 0 to |members|
      invariant shortfall == Shortfall(contribution, members[..i])
      invariant noDefault == NoDefault(members[..i])
    {
      hide Times, Truncate, Sum, NoDefault;
      var risk := Clamp(members[i].risk);
      assert members[..i + 1] == members[..i] + [members[i]];
      SumSnoc(members[..i], members[i], Hit(contribution));
      NoDefaultSnoc(members[..i], members[i]);
      shortfall := shortfall + Truncate(Times(contribution as real, risk));
      noDefault := Times(noDefault, 1.0 - risk);
    }
    PrefixWhole(members);
    var collapse := 1.0 - noDefault;
    var available := escrow + expected - shortfall;
    var level;
    if available >= expected && collapse < 0.25 {
      level := Good;
    } else if available >= Quotient(expected * 8, 10) && collapse < 0.5 {
      level := Stressed;
    } else {
      level := Critical;
    }
    a := Assessment(group, cycle, expected, shortfall, escrow, collapse, level);
  }

  lemma NoDefaultSnoc(ms: seq<MemberRisk>, m: MemberRisk)
    ensures NoDefault(ms + [m]) == Times(NoDefault(ms), 1.0 - Clamp(m.risk))
  {
    assert (ms + [m])[..|ms|] == ms;
  }

  // ----- the probability of a collapse -----

  lemma TimesMono(a: real, b: real, x: real, y: real)
    requires 0.0 <= a <= b && 0.0 <= x <= y
    ensures 0.0 <= Times(a, x) <= Times(b, y)
  {
    assert b * y - a * x == (b - a) * y + a * (y - x);
  }

  lemma TimesOne(a: real)
    ensures Times(a, 1.0) == a && Times(1.0, a) == a
  {
  }

  lemma TimesSign(a: real, b: real)
    requires a >= 0.0 && b >= 0.0
    ensures a * b >= 0.0 && (a * b == 0.0 <==> a == 0.0 || b == 0.0)
  {
  }

  /** The product of two probabilities. */
  lemma TimesChance(p: real, q: real)
    requires 0.0 <= p <= 1.0 && 0.0 <= q <= 1.0
    ensures 0.0 <= Times(p, q) <= p && Times(p, q) <= q
    ensures Times(p, q) >= p - (1.0 - q)
    ensures Times(p, q) == 0.0 <==> p == 0.0 || q == 0.0
    ensures Times(p, q) == 1.0 <==> p == 1.0 && q == 1.0
  {
    assert p - p * q == p * (1.0 - q);
    assert q - p * q == (1.0 - p) * q;
    assert p * q - p + (1.0 - q) == (1.0 - p) * (1.0 - q);
    TimesSign(p, q);
    TimesSign(p, 1.0 - q);
    TimesSign(1.0 - p, q);
    TimesSign(1.0 - p, 1.0 - q);
  }

  function TotalRisk(ms: seq<MemberRisk>): real {
    if ms == [] then 0.0 else TotalRisk(ms[..|ms| - 1]) + Clamp(ms[|ms| - 1].risk)
  }

  /** The collapse probability is at least every single member's risk and at most
      all of them together: it is zero exactly when nobody carries any risk and
      certain exactly when somebody is certain to default. */
  lemma {:induction false} CollapseBounds(ms: seq<MemberRisk>)
    ensures 0.0 <= Collapse(ms) <= 1.0
    ensures forall m :: m in ms ==> Clamp(m.risk) <= Collapse(ms)
    ensures Collapse(ms) <= TotalRisk(ms)
    ensures Collapse(ms) == 0.0 <==> forall m :: m in ms ==> m.risk <= 0.0
    ensures Collapse(ms) == 1.0 <==> exists m :: m in ms && m.risk >= 1.0
  {
    hide Times;
    if ms != [] {
      var init, last := ms[..|ms| - 1], ms[|ms| - 1];
      CollapseBounds(init);
      assert forall m :: m in ms <==> m in init || m == last;
      TimesChance(NoDefault(init), 1.0 - Clamp(last.risk));
    }
  }

  // ----- the shortfall -----

  lemma HitBounds(contribution: Money, m: MemberRisk)
    requires contribution >= 0
    ensures 0 <= Hit(contribution)(m) <= contribution
    ensures contribution > 0 ==> (Hit(contribution)(m) == contribution <==> m.risk >= 1.0)
  {
    hide Times;
    var c, r := contribution as real, Clamp(m.risk);
    TimesOne(c);
    TimesMono(c, c, r, 1.0);
    if contribution > 0 && r < 1.0 {
      TimesLess(c, r);
    }
  }

  lemma TimesLess(c: real, r: real)
    requires c > 0.0 && r < 1.0
    ensures Times(c, r) < c
  {
    assert c - c * r == c * (1.0 - r);
  }

  /** The shortfall lies between nothing and the whole pot, and is the whole pot
      exactly when every member is certain to default. */
  lemma {:induction false} ShortfallBounds(contribution: Money, ms: seq<MemberRisk>)
    requires contribution > 0
    ensures 0 <= Shortfall(contribution, ms) <= contribution * |ms|
    ensures Shortfall(contribution, ms) == contribution * |ms| <==> forall m :: m in ms ==> m.risk >= 1.0
  {
    hide Hit;
    if ms != [] {
      var init, last := ms[..|ms| - 1], ms[|ms| - 1];
      ShortfallBounds(contribution, init);
      HitBounds(contribution, last);
      assert contribution * |ms| == contribution * |init| + contribution;
      assert forall m :: m in ms <==> m in init || m == last;
    }
  }

  // ----- the alarm level -----

  function Severity(level: Level): nat {
    match level
    case Good => 0
    case Stressed => 1
    case Critical => 2
  }

  /** The same members, each at least as risky in worse as in better. */
  predicate Riskier(better: seq<MemberRisk>, worse: seq<MemberRisk>) {
    |better| == |worse| && forall i :: 0 <= i < |better| ==> better[i].risk <= worse[i].risk
  }

  lemma HitMono(contribution: Money, a: MemberRisk, b: MemberRisk)
    requires contribution >= 0 && a.risk <= b.risk
    ensures Hit(contribution)(a) <= Hit(contribution)(b)
  {
    hide Times;
    TimesMono(contribution as real, contribution as real, Clamp(a.risk), Clamp(b.risk));
  }

  lemma {:induction false} RiskierIsWorse(contribution: Money, better: seq<MemberRisk>, worse: seq<MemberRisk>)
    requires contribution >= 0 && Riskier(better, worse)
    ensures Shortfall(contribution, better) <= Shortfall(contribution, worse)
    ensures Collapse(better) <= Collapse(worse)
  {
    hide Hit, Times;
    if better != [] {
      var n := |better| - 1;
      RiskierIsWorse(contribution, better[..n], worse[..n]);
      HitMono(contribution, better[n], worse[n]);
      CollapseBounds(worse[..n]);
      TimesMono(NoDefault(worse[..n]), NoDefault(better[..n]), 1.0 - Clamp(worse[n].risk), 1.0 - Clamp(better[n].risk));
    }
  }

  /** Raising any member's risk or lowering the escrow never improves the level. */
  lemma LevelMonotone(contribution: Money, richer: Money, poorer: Money,
                      better: seq<MemberRisk>, worse: seq<MemberRisk>)
    requires contribution >= 0 && poorer <= richer && Riskier(better, worse)
    ensures Severity(LevelOf(contribution, richer, better)) <= Severity(LevelOf(contribution, poorer, worse))
  {
    hide Shortfall, Collapse;
    RiskierIsWorse(contribution, better, worse);
  }

  /** What the level says about the members: one at even odds of defaulting makes the
      group critical whatever the escrow, one at a quarter stops it being good; and
      if all risks together stay under a quarter the level is a question of money. */
  lemma LevelFromRisks(contribution: Money, escrow: Money, ms: seq<MemberRisk>)
    requires contribution > 0
    ensures var level, shortfall, expected :=
              LevelOf(contribution, escrow, ms), Shortfall(contribution, ms), contribution * |ms|;
            && ((exists m :: m in ms && m.risk >= 0.5) ==> level == Critical)
            && ((exists m :: m in ms && m.risk >= 0.25) ==> level != Good)
            && (TotalRisk(ms) < 0.25 ==>
                  && (level == Good <==> escrow >= shortfall)
                  && (level != Critical <==> 10 * (shortfall - escrow) < 2 * expected + 10))
  {
    hide Shortfall, Collapse;
    CollapseBounds(ms);
    ShortfallBounds(contribution, ms);
    var expected := contribution * |ms|;
    assert expected * 8 >= 0;
    assert forall m :: m in ms && m.risk >= 0.25 ==> Clamp(m.risk) >= 0.25;
    assert forall m :: m in ms && m.risk >= 0.5 ==> Clamp(m.risk) >= 0.5;
  }

  // ----- the figures themselves -----

  /** What a single member of a group with a non-negative contribution is expected to
      leave unpaid: nothing without risk, everything when certain to default, and
      otherwise the whole part of contribution times risk; for a negative contribution
      the same with the sign changed. */
  lemma HitExactly(contribution: Money, m: MemberRisk)
    requires contribution >= 0
    ensures var h, exact := Shortfall(contribution, [m]), contribution as real * m.risk;
            && (m.risk <= 0.0 ==> h == 0)
            && (m.risk >= 1.0 ==> h == contribution)
            && (0.0 <= m.risk <= 1.0 ==> h as real <= exact < h as real + 1.0)
    ensures Shortfall(-contribution, [m]) == -Shortfall(contribution, [m])
  {
    OneMember(contribution, m);
    OneMember(-contribution, m);
    var c, r := contribution as real, Clamp(m.risk);
    assert (-contribution) as real * r == -(c * r);
    ClampedProduct(c, r);
  }

  lemma ClampedProduct(c: real, r: real)
    requires c >= 0.0 && 0.0 <= r <= 1.0
    ensures c * r >= 0.0 && (r == 0.0 ==> c * r == 0.0) && (r == 1.0 ==> c * r == c)
  {
  }

  lemma OneMember(contribution: Money, m: MemberRisk)
    ensures Shortfall(contribution, [m]) == Hit(contribution)(m)
    ensures NoDefault([m]) == Times(1.0, 1.0 - Clamp(m.risk))
  {
    hide Hit, Times;
    assert [m][..0] == [] && [m][0] == m;
    NobodyYet(contribution);
  }

  lemma NobodyYet(contribution: Money)
    ensures Sum([], Hit(contribution)) == 0 && NoDefault([]) == 1.0
  {
  }

  /** Members default independently: put together, groups survive with the product of
      their chances, and their shortfalls add up. */
  lemma GroupsCombine(contribution: Money, xs: seq<MemberRisk>, ys: seq<MemberRisk>)
    ensures Shortfall(contribution, xs + ys) == Shortfall(contribution, xs) + Shortfall(contribution, ys)
    ensures 1.0 - Collapse(xs + ys) == (1.0 - Collapse(xs)) * (1.0 - Collapse(ys))
  {
    hide NoDefault, Hit, Sum;
    SumConcat(xs, ys, Hit(contribution));
    ChancesMultiply(xs, ys);
    ChanceOf(xs);
    ChanceOf(ys);
    ChanceOf(xs + ys);
    hide Collapse;
  }

  lemma ChanceOf(xs: seq<MemberRisk>)
    ensures 1.0 - Collapse(xs) == NoDefault(xs)
  {
  }

  lemma {:induction false} ChancesMultiply(xs: seq<MemberRisk>, ys: seq<MemberRisk>)
    ensures NoDefault(xs + ys) == Times(NoDefault(xs), NoDefault(ys))
    decreases |ys|
  {
    hide Times;
    if ys == [] {
      assert xs + ys == xs;
      TimesOne(NoDefault(xs));
    } else {
      var n := |ys| - 1;
      ChancesMultiply(xs, ys[..n]);
      assert (xs + ys)[..|xs| + n] == xs + ys[..n];
      TimesAssociates(NoDefault(xs), NoDefault(ys[..n]), 1.0 - Clamp(ys[n].risk));
    }
  }

  lemma TimesAssociates(a: real, b: real, c: real)
    ensures Times(Times(a, b), c) == Times(a, Times(b, c))
  {
  }

  /** A single member collapses the group exactly as often as they default. */
  lemma OneMemberCollapses(m: MemberRisk)
    ensures Collapse([m]) == if m.risk < 0.0 then 0.0 else if m.risk > 1.0 then 1.0 else m.risk
  {
    OneMember(0, m);
    TimesOne(1.0 - Clamp(m.risk));
  }

  /** The level, from the figures of the assessment: good when the escrow covers the
      shortfall and a collapse is less likely than one in four; critical when a collapse
      is at least as likely as not or the gap reaches a fifth of the pot plus one; stressed
      otherwise. */
  lemma LevelExactly(contribution: Money, escrow: Money, ms: seq<MemberRisk>)
    requires contribution >= 0
    ensures var level, collapse := LevelOf(contribution, escrow, ms), Collapse(ms);
            var expected, gap := contribution * |ms|, Shortfall(contribution, ms) - escrow;
            && (level == Good <==> gap <= 0 && collapse < 0.25)
            && (level == Critical <==> collapse >= 0.5 || 10 * gap >= 2 * expected + 10)
            && (level == Stressed <==> level != Good && level != Critical)
  {
    hide Shortfall, Collapse;
    PotGrows(contribution, |ms|);
  }

  lemma PotGrows(contribution: Money, n: nat)
    requires contribution >= 0
    ensures contribution * n * 8 >= 0 && 0 <= contribution * n
  {
  }
}
