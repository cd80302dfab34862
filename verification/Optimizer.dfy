/** The group-formation optimizer: a stable sort by risk and a snake draft.
    Risks are real numbers. */
module Optimizer {
  import opened Domain
  import Liquidity

  datatype Candidate = Candidate(user: Id, risk: real)

  datatype ProposedGroup = ProposedGroup(members: seq<Id>, avgRisk: real, survival: real)

  // ----- the stable sort -----

  function Insert(xs: seq<Candidate>, c: Candidate): (ys: seq<Candidate>)
    ensures |ys| == |xs| + 1
  {
    if xs == [] || xs[|xs| - 1].risk <= c.risk then xs + [c]
    else Insert(xs[..|xs| - 1], c) + [xs[|xs| - 1]]
  }

  /** Candidates from lowest to highest risk, equal risks in their original order. */
  function ByRisk(cs: seq<Candidate>): (ys: seq<Candidate>)
    ensures |ys| == |cs|
  {
    if cs == [] then [] else Insert(ByRisk(cs[..|cs| - 1]), cs[|cs| - 1])
  }

  predicate Ascending(xs: seq<Candidate>) {
    forall i, j :: 0 <= i < j < |xs| ==> xs[i].risk <= xs[j].risk
  }

  /** The candidates of one risk, in order. */
  function OfRisk(xs: seq<Candidate>, x: real): seq<Candidate> {
    if xs == [] then []
    else OfRisk(xs[..|xs| - 1], x) + if xs[|xs| - 1].risk == x then [xs[|xs| - 1]] else []
  }

  lemma OfRiskSnoc(xs: seq<Candidate>, c: Candidate, x: real)
    ensures OfRisk(xs + [c], x) == OfRisk(xs, x) + if c.risk == x then [c] else []
  {
    assert (xs + [c])[..|xs|] == xs;
  }

  lemma {:induction false} InsertContents(xs: seq<Candidate>, c: Candidate)
    ensures multiset(Insert(xs, c)) == multiset(xs) + multiset{c}
  {
    if xs != [] && xs[|xs| - 1].risk > c.risk {
      assert xs == xs[..|xs| - 1] + [xs[|xs| - 1]];
      InsertContents(xs[..|xs| - 1], c);
    }
  }

  lemma {:induction false} InsertAscending(xs: seq<Candidate>, c: Candidate)
    requires Ascending(xs)
    ensures Ascending(Insert(xs, c))
    ensures forall y :: y in Insert(xs, c) ==> y in xs || y == c
  {
    if xs != [] && xs[|xs| - 1].risk > c.risk {
      var ys := Insert(xs[..|xs| - 1], c);
      InsertAscending(xs[..|xs| - 1], c);
      forall y | y in ys ensures y.risk <= xs[|xs| - 1].risk {
        assert y in xs[..|xs| - 1] || y == c;
      }
    }
  }

  lemma {:induction false} InsertStable(xs: seq<Candidate>, c: Candidate, x: real)
    requires Ascending(xs)
    ensures OfRisk(Insert(xs, c), x) == OfRisk(xs + [c], x)
  {
    OfRiskSnoc(xs, c, x);
    if xs != [] && xs[|xs| - 1].risk > c.risk {
      var rest, last := xs[..|xs| - 1], xs[|xs| - 1];
      InsertStable(rest, c, x);
      OfRiskSnoc(rest, c, x);
      OfRiskSnoc(Insert(rest, c), last, x);
    }
  }

  /** The sort puts the candidates in risk order, loses and invents nobody, and
      keeps candidates of equal risk in the order they came. */
  lemma {:induction false} ByRiskIsStableSort(cs: seq<Candidate>, x: real)
    ensures Ascending(ByRisk(cs))
    ensures multiset(ByRisk(cs)) == multiset(cs)
    ensures OfRisk(ByRisk(cs), x) == OfRisk(cs, x)
  {
    if cs != [] {
      var rest, last := cs[..|cs| - 1], cs[|cs| - 1];
      assert cs == rest + [last];
      ByRiskIsStableSort(rest, x);
      InsertContents(ByRisk(rest), last);
      InsertAscending(ByRisk(rest), last);
      InsertStable(ByRisk(rest), last, x);
      OfRiskSnoc(ByRisk(rest), last, x);
    }
  }

  // ----- the snake draft -----

  /** The group that candidate i of the sorted list goes to, out of n: left to
      right on even rounds, right to left on odd ones. */
  function Seat(i: nat, n: nat): nat
    requires n > 0
  {
    if i / n % 2 == 0 then i % n else n - 1 - i % n
  }

  /** Group j of n after the first m candidates have been placed. */
  function Drafted(sorted: seq<Candidate>, n: nat, j: nat, m: nat): seq<Candidate>
    requires n > 0 && m <= |sorted|
  {
    if m == 0 then []
    else if Seat(m - 1, n) == j then Drafted(sorted, n, j, m - 1) + [sorted[m - 1]]
    else Drafted(sorted, n, j, m - 1)
  }

  /** The position within round k of the candidate that group j gets. */
  function Pick(k: nat, n: nat, j: nat): nat
    requires j < n
  {
    if k % 2 == 0 then j else n - 1 - j
  }

  /** The number of candidates dealt to n groups in k rounds. */
  function Dealt(k: nat, n: nat): nat {
    if k == 0 then 0 else Dealt(k - 1, n) + n
  }

  lemma {:induction false} DealtProduct(k: nat, n: nat)
    ensures Dealt(k, n) == k * n
  {
    if k > 0 {
      DealtProduct(k - 1, n);
    }
  }

  /** What group j gets in k rounds: exactly one candidate per round. */
  function Picks(sorted: seq<Candidate>, n: nat, j: nat, k: nat): (picks: seq<Candidate>)
    requires j < n && Dealt(k, n) <= |sorted|
    ensures |picks| == k
  {
    if k == 0 then [] else
      Picks(sorted, n, j, k - 1) + [sorted[Dealt(k - 1, n) + Pick(k - 1, n, j)]]
  }

  lemma SeatInRound(k: nat, n: nat, p: nat)
    requires p < n
    ensures Seat(Dealt(k, n) + p, n) == if k % 2 == 0 then p else n - 1 - p
  {
    DealtProduct(k, n);
    DivMod(k, n, p);
  }

  lemma MulMonotone(a: int, b: int, n: nat)
    requires a <= b
    ensures a * n <= b * n
  {
  }

  lemma DivMod(k: nat, n: nat, p: nat)
    requires p < n
    ensures (k * n + p) / n == k && (k * n + p) % n == p
  {
    var x := k * n + p;
    var q := x / n;
    assert q * n <= x < q * n + n;
    if q < k {
      MulMonotone(q + 1, k, n);
      assert false;
    }
    if q > k {
      MulMonotone(k + 1, q, n);
      assert false;
    }
  }

  lemma {:induction false} DraftedWithinRound(sorted: seq<Candidate>, n: nat, j: nat, k: nat, p: nat)
    requires j < n && p <= n && Dealt(k, n) + p <= |sorted|
    ensures Drafted(sorted, n, j, Dealt(k, n) + p) ==
            Drafted(sorted, n, j, Dealt(k, n)) +
            if Pick(k, n, j) < p then [sorted[Dealt(k, n) + Pick(k, n, j)]] else []
  {
    if p > 0 {
      DraftedWithinRound(sorted, n, j, k, p - 1);
      SeatInRound(k, n, p - 1);
    }
  }

  /** The bouncing loop deals every group one candidate per round. */
  lemma {:induction false} DraftedIsPicks(sorted: seq<Candidate>, n: nat, j: nat, k: nat)
    requires j < n && Dealt(k, n) <= |sorted|
    ensures Drafted(sorted, n, j, Dealt(k, n)) == Picks(sorted, n, j, k)
  {
    if k > 0 {
      DraftedIsPicks(sorted, n, j, k - 1);
      DraftedWithinRound(sorted, n, j, k - 1, n);
    }
  }

  // ----- balance -----

  function Risk(xs: seq<Candidate>): real {
    if xs == [] then 0.0 else Risk(xs[..|xs| - 1]) + xs[|xs| - 1].risk
  }

  lemma RiskSnoc(xs: seq<Candidate>, c: Candidate)
    ensures Risk(xs + [c]) == Risk(xs) + c.risk
  {
    assert (xs + [c])[..|xs|] == xs;
  }

  /** The spread of the risks dealt in the rounds before k of the given parity. */
  function Spread(sorted: seq<Candidate>, n: nat, k: nat, parity: nat): real
    requires n > 0 && Dealt(k, n) <= |sorted|
  {
    if k == 0 then 0.0 else
      Spread(sorted, n, k - 1, parity) +
      if (k - 1) % 2 == parity then sorted[Dealt(k, n) - 1].risk - sorted[Dealt(k - 1, n)].risk else 0.0
  }

  /** The spreads of all rounds telescope over the sorted list. */
  lemma {:induction false} SpreadsTelescope(sorted: seq<Candidate>, n: nat, k: nat)
    requires n > 0 && k > 0 && Dealt(k, n) <= |sorted| && Ascending(sorted)
    ensures 0 <= Dealt(k, n) - 1 < |sorted|
    ensures Spread(sorted, n, k, 0) >= 0.0 && Spread(sorted, n, k, 1) >= 0.0
    ensures Spread(sorted, n, k, 0) + Spread(sorted, n, k, 1) <= sorted[Dealt(k, n) - 1].risk - sorted[0].risk
  {
    if k > 1 {
      SpreadsTelescope(sorted, n, k - 1);
      assert sorted[Dealt(k - 1, n) - 1].risk <= sorted[Dealt(k - 1, n)].risk;
    }
  }

  lemma NextPick(sorted: seq<Candidate>, n: nat, j: nat, k: nat)
    requires j < n && k > 0 && Dealt(k, n) <= |sorted|
    ensures 0 <= Dealt(k - 1, n) + Pick(k - 1, n, j) < |sorted| && 0 <= Dealt(k - 1, n) <= |sorted|
    ensures Risk(Picks(sorted, n, j, k)) ==
            Risk(Picks(sorted, n, j, k - 1)) + sorted[Dealt(k - 1, n) + Pick(k - 1, n, j)].risk
  {
    RiskSnoc(Picks(sorted, n, j, k - 1), sorted[Dealt(k - 1, n) + Pick(k - 1, n, j)]);
  }

  lemma NextSpread(sorted: seq<Candidate>, n: nat, k: nat, parity: nat) returns (base: nat)
    requires n > 0 && k > 0 && Dealt(k, n) <= |sorted|
    ensures base == Dealt(k - 1, n) && base + n <= |sorted|
    ensures Spread(sorted, n, k, parity) ==
            Spread(sorted, n, k - 1, parity) +
            if (k - 1) % 2 == parity then sorted[base + n - 1].risk - sorted[base].risk else 0.0
  {
    base := Dealt(k - 1, n);
    assert base + n == Dealt(k, n);
  }

  /** How round k moves the difference between two groups: by at most the spread of
      the round, and in favour of the group on the left exactly when the round is even. */
  lemma RoundGain(sorted: seq<Candidate>, n: nat, i: nat, j: nat, k: nat) returns (step: real, range: real)
    requires i < j < n && k > 0 && Dealt(k, n) <= |sorted| && Ascending(sorted)
    ensures 0 <= Dealt(k - 1, n) <= |sorted|
    ensures Risk(Picks(sorted, n, i, k)) - Risk(Picks(sorted, n, j, k))
            == Risk(Picks(sorted, n, i, k - 1)) - Risk(Picks(sorted, n, j, k - 1)) + step
    ensures Spread(sorted, n, k, 0) == Spread(sorted, n, k - 1, 0) + if (k - 1) % 2 == 0 then range else 0.0
    ensures Spread(sorted, n, k, 1) == Spread(sorted, n, k - 1, 1) + if (k - 1) % 2 == 0 then 0.0 else range
    ensures -range <= step <= range
    ensures if (k - 1) % 2 == 0 then step <= 0.0 else step >= 0.0
  {
    NextPick(sorted, n, i, k);
    NextPick(sorted, n, j, k);
    var base := NextSpread(sorted, n, k, 0);
    var odd := NextSpread(sorted, n, k, 1);
    hide Picks, Risk, Ascending, Spread;
    var p, q := Pick(k - 1, n, i), Pick(k - 1, n, j);
    RoundSpread(sorted, base, n, p, q);
    RoundSpread(sorted, base, n, q, p);
    step := sorted[base + p].risk - sorted[base + q].risk;
    range := sorted[base + n - 1].risk - sorted[base].risk;
  }

  /** The group on the left never gains on the group to its right in an even
      round, nor loses in an odd one: their difference is held between the spreads. */
  lemma {:induction false} PicksBalanced(sorted: seq<Candidate>, n: nat, i: nat, j: nat, k: nat)
    requires i < j < n && Dealt(k, n) <= |sorted| && Ascending(sorted)
    ensures -Spread(sorted, n, k, 0) <=
            Risk(Picks(sorted, n, i, k)) - Risk(Picks(sorted, n, j, k)) <= Spread(sorted, n, k, 1)
  {
    hide Picks, Risk, Ascending, Spread;
    if k == 0 {
      NothingDealt(sorted, n, i);
      NothingDealt(sorted, n, j);
    } else {
      var step, range := RoundGain(sorted, n, i, j, k);
      PicksBalanced(sorted, n, i, j, k - 1);
    }
  }

  lemma NothingDealt(sorted: seq<Candidate>, n: nat, j: nat)
    requires j < n
    ensures Risk(Picks(sorted, n, j, 0)) == Spread(sorted, n, 0, 0) == Spread(sorted, n, 0, 1) == 0.0
  {
  }

  lemma RoundSpread(sorted: seq<Candidate>, base: nat, n: nat, p: nat, q: nat)
    requires p < n && q < n && base + n <= |sorted| && Ascending(sorted)
    ensures sorted[base + p].risk - sorted[base + q].risk <= sorted[base + n - 1].risk - sorted[base].risk
    ensures p <= q ==> sorted[base + p].risk <= sorted[base + q].risk
    ensures q <= p ==> sorted[base + q].risk <= sorted[base + p].risk
  {
    assert sorted[base].risk <= sorted[base + q].risk;
    assert sorted[base + p].risk <= sorted[base + n - 1].risk;
  }

  function AllPlaced(cs: seq<Candidate>, size: nat): (placed: seq<Candidate>)
    requires size > 0
  {
    ByRisk(cs)[..Placed(|cs|, size)]
  }

  /** How many of total candidates fill whole groups. */
  function Placed(total: nat, size: nat): (n: nat)
    requires size > 0
    ensures n <= total < n + size && n == size * (total / size)
  {
    total / size * size
  }

  lemma DealtPlaced(total: nat, size: nat)
    requires size > 0
    ensures Dealt(size, total / size) == Placed(total, size)
  {
    DealtProduct(size, total / size);
  }

  /** Group j of the draft of cs into groups of the given size. */
  function DraftGroup(cs: seq<Candidate>, size: nat, j: nat): seq<Candidate>
    requires size > 0 && j < |cs| / size
  {
    DealtPlaced(|cs|, size);
    Picks(ByRisk(cs), |cs| / size, j, size)
  }

  lemma DraftShape(cs: seq<Candidate>, size: nat, j: nat)
    requires size > 0 && j < |cs| / size
    ensures Dealt(size, |cs| / size) == Placed(|cs|, size) <= |ByRisk(cs)|
    ensures DraftGroup(cs, size, j) == Picks(ByRisk(cs), |cs| / size, j, size)
  {
    DealtPlaced(|cs|, size);
  }

  lemma PicksWithinRange(sorted: seq<Candidate>, n: nat, i: nat, j: nat, k: nat)
    requires i < n && j < n && k > 0 && Dealt(k, n) <= |sorted| && Ascending(sorted)
    ensures 0 <= Dealt(k, n) - 1 < |sorted|
    ensures Risk(Picks(sorted, n, i, k)) - Risk(Picks(sorted, n, j, k)) <= sorted[Dealt(k, n) - 1].risk - sorted[0].risk
  {
    SpreadsTelescope(sorted, n, k);
    hide Picks, Risk, Spread;
    if i < j {
      PicksBalanced(sorted, n, i, j, k);
    } else if j < i {
      PicksBalanced(sorted, n, j, i, k);
    }
  }

  lemma DraftSumsWithinRange(cs: seq<Candidate>, size: nat, i: nat, j: nat)
    requires size > 0 && i < |cs| / size && j < |cs| / size
    ensures var placed := AllPlaced(cs, size);
            placed != [] && Risk(DraftGroup(cs, size, i)) - Risk(DraftGroup(cs, size, j)) <=
                            placed[|placed| - 1].risk - placed[0].risk
  {
    hide Picks, Risk, ByRisk, Placed, AllPlaced, Dealt, DraftGroup, Ascending;
    PlacedEnds(cs, size);
    ByRiskIsStableSort(cs, 0.0);
    DraftShape(cs, size, i);
    DraftShape(cs, size, j);
    PicksWithinRange(ByRisk(cs), |cs| / size, i, j, size);
  }

  /** Any two proposed groups have risk sums within the range of the placed risks,
      so their average risks differ by at most that range over the group size. */
  lemma DraftIsBalanced(cs: seq<Candidate>, size: nat, i: nat, j: nat)
    requires size > 0 && i < |cs| / size && j < |cs| / size
    ensures var placed := AllPlaced(cs, size);
            && placed != []
            && Risk(DraftGroup(cs, size, i)) - Risk(DraftGroup(cs, size, j)) <=
               placed[|placed| - 1].risk - placed[0].risk
            && Risk(DraftGroup(cs, size, i)) / size as real - Risk(DraftGroup(cs, size, j)) / size as real <=
               (placed[|placed| - 1].risk - placed[0].risk) / size as real
  {
    hide DraftGroup, AllPlaced, Risk;
    DraftSumsWithinRange(cs, size, i, j);
    var placed := AllPlaced(cs, size);
    DivideBoth(Risk(DraftGroup(cs, size, i)), Risk(DraftGroup(cs, size, j)),
               placed[|placed| - 1].risk - placed[0].risk, size as real);
  }

  lemma PlacedEnds(cs: seq<Candidate>, size: nat)
    requires size > 0 && |cs| / size > 0
    ensures var last, placed := Placed(|cs|, size) - 1, AllPlaced(cs, size);
            && 0 <= last < |cs| && |placed| == last + 1
            && placed[0] == ByRisk(cs)[0] && placed[last] == ByRisk(cs)[last]
  {
    assert size * (|cs| / size) > 0;
  }

  lemma DivideBoth(a: real, b: real, range: real, d: real)
    requires d > 0.0 && a - b <= range
    ensures a / d - b / d <= range / d
  {
    assert a / d - b / d == (a - b) / d;
    assert (range - (a - b)) / d >= 0.0;
    assert range / d - (a - b) / d == (range - (a - b)) / d;
  }

  /** Fewer than a group's worth of candidates are left out, and each is at least
      as risky as everybody placed. */
  lemma LeftOutAreRiskiest(cs: seq<Candidate>, size: nat, i: nat, j: nat)
    requires size > 0 && i < Placed(|cs|, size) <= j < |cs|
    ensures |cs| - Placed(|cs|, size) < size
    ensures ByRisk(cs)[i].risk <= ByRisk(cs)[j].risk
  {
    ByRiskIsStableSort(cs, 0.0);
  }

  // ----- the algorithm -----

  /** Everybody in a list of groups. */
  function Pool(groups: seq<seq<Candidate>>): multiset<Candidate> {
    if groups == [] then multiset{} else Pool(groups[..|groups| - 1]) + multiset(groups[|groups| - 1])
  }

  lemma {:induction false} PoolEmpty(groups: seq<seq<Candidate>>)
    requires forall i :: 0 <= i < |groups| ==> groups[i] == []
    ensures Pool(groups) == multiset{}
  {
    if groups != [] {
      PoolEmpty(groups[..|groups| - 1]);
    }
  }

  lemma {:induction false} PoolAdd(groups: seq<seq<Candidate>>, g: nat, c: Candidate)
    requires g < |groups|
    ensures Pool(groups[g := groups[g] + [c]]) == Pool(groups) + multiset{c}
  {
    var last := |groups| - 1;
    if g == last {
      assert groups[g := groups[g] + [c]][..last] == groups[..last];
    } else {
      PoolAdd(groups[..last], g, c);
      assert groups[g := groups[g] + [c]][..last] == groups[..last][g := groups[g] + [c]];
    }
  }

  function Survival(xs: seq<Candidate>): real {
    if xs == [] then 1.0 else Survival(xs[..|xs| - 1]) * (1.0 - xs[|xs| - 1].risk)
  }

  function UserIds(xs: seq<Candidate>): (ids: seq<Id>)
    ensures |ids| == |xs| && forall i :: 0 <= i < |xs| ==> ids[i] == xs[i].user
  {
    if xs == [] then [] else UserIds(xs[..|xs| - 1]) + [xs[|xs| - 1].user]
  }

  /** The risks of a proposed group as the liquidity predictor takes them. */
  function Risks(xs: seq<Candidate>): (ms: seq<Liquidity.MemberRisk>)
    ensures |ms| == |xs| && forall i :: 0 <= i < |xs| ==> ms[i].risk == xs[i].risk
  {
    if xs == [] then [] else
      Risks(xs[..|xs| - 1]) + [Liquidity.MemberRisk(xs[|xs| - 1].user, xs[|xs| - 1].risk)]
  }

  predicate Probabilities(xs: seq<Candidate>) {
    forall c :: c in xs ==> 0.0 <= c.risk <= 1.0
  }

  /** A group survives exactly as often as the liquidity predictor says it does not collapse. */
  lemma {:induction false} SurvivalIsNoCollapse(xs: seq<Candidate>)
    requires Probabilities(xs)
    ensures Survival(xs) == 1.0 - Liquidity.Collapse(Risks(xs))
    ensures Risk(xs) == Liquidity.TotalRisk(Risks(xs))
  {
    hide Survival, Risk, Liquidity.Times;
    if xs == [] {
      NobodyDefaults();
    } else {
      var n := |xs| - 1;
      SurvivalIsNoCollapse(xs[..n]);
      SurvivalUnfold(xs);
      assert Risks(xs)[..n] == Risks(xs[..n]) && Risks(xs)[n].risk == xs[n].risk;
      assert Liquidity.Clamp(xs[n].risk) == xs[n].risk;
    }
  }

  lemma NobodyDefaults()
    ensures Survival([]) == 1.0 && Risk([]) == 0.0
  {
  }

  /** Survival is at most every member's own chance of not defaulting and at least one
      minus all risks together; it is certain exactly when nobody carries a risk and
      impossible exactly when somebody is certain to default. */
  lemma {:induction false} SurvivalBounds(xs: seq<Candidate>)
    requires Probabilities(xs)
    ensures 0.0 <= Survival(xs) <= 1.0 && Survival(xs) >= 1.0 - Risk(xs)
    ensures forall c :: c in xs ==> Survival(xs) <= 1.0 - c.risk
    ensures Survival(xs) == 1.0 <==> forall c :: c in xs ==> c.risk == 0.0
    ensures Survival(xs) == 0.0 <==> exists c :: c in xs && c.risk == 1.0
  {
    if xs != [] {
      var init, last := xs[..|xs| - 1], xs[|xs| - 1];
      SurvivalBounds(init);
      SurvivalUnfold(xs);
      hide Survival, Risk, Liquidity.Times;
      Liquidity.TimesChance(Survival(init), 1.0 - last.risk);
      assert forall c :: c in xs <==> c in init || c == last;
    }
  }

  lemma SurvivalUnfold(xs: seq<Candidate>)
    requires xs != []
    ensures var init, last := xs[..|xs| - 1], xs[|xs| - 1];
            && Survival(xs) == Liquidity.Times(Survival(init), 1.0 - last.risk)
            && Risk(xs) == Risk(init) + last.risk
  {
  }

  /** Survival multiplies and risk adds up member by member, whatever the risks are. */
  lemma {:induction false} GroupsCombine(xs: seq<Candidate>, ys: seq<Candidate>)
    ensures Survival(xs + ys) == Liquidity.Times(Survival(xs), Survival(ys))
    ensures Risk(xs + ys) == Risk(xs) + Risk(ys)
    decreases |ys|
  {
    hide Liquidity.Times, Survival, Risk;
    NobodyDefaults();
    if ys == [] {
      assert xs + ys == xs;
      Liquidity.TimesOne(Survival(xs));
    } else {
      var n := |ys| - 1;
      GroupsCombine(xs, ys[..n]);
      SurvivalUnfold(ys);
      SurvivalUnfold(xs + ys);
      assert (xs + ys)[..|xs + ys| - 1] == xs + ys[..n];
      Liquidity.TimesAssociates(Survival(xs), Survival(ys[..n]), 1.0 - ys[n].risk);
    }
  }

  lemma OneCandidate(c: Candidate)
    ensures Survival([c]) == 1.0 - c.risk && Risk([c]) == c.risk
  {
    NobodyDefaults();
    SurvivalUnfold([c]);
    assert [c][..0] == [];
  }

  /** What a proposal says of the group it proposes: its users in order, their mean risk,
      and how likely it is that nobody defaults. */
  ghost predicate Describes(p: ProposedGroup, g: seq<Candidate>) {
    && |p.members| == |g| && (forall m :: 0 <= m < |g| ==> p.members[m] == g[m].user)
    && p.avgRisk * |g| as real == Risk(g) && (g == [] ==> p.avgRisk == 0.0)
    && p.survival == Survival(g)
    && (Probabilities(g) ==> p.survival == 1.0 - Liquidity.Collapse(Risks(g)))
  }

  lemma SummaryDescribes(g: seq<Candidate>)
    ensures Describes(Summary(g), g)
  {
    NobodyDefaults();
    hide Risk, Survival, Risks, Liquidity.Collapse;
    MeanTimes(Risk(g), |g|);
    if Probabilities(g) {
      SurvivalIsNoCollapse(g);
    }
  }

  lemma MeanTimes(total: real, n: nat)
    ensures n > 0 ==> total / n as real * n as real == total
  {
  }

  method SummariseGroup(members: seq<Candidate>) returns (p: ProposedGroup)
    ensures p == Summary(members)
    ensures Describes(p, members)
  {
    var ids, sum, survival := [], 0.0, 1.0;
    for i := 0 to |members|
      invariant ids == UserIds(members[..i]) && sum == Risk(members[..i]) && survival == Survival(members[..i])
    {
      assert members[..i + 1][..i] == members[..i];
      ids, sum, survival := ids + [members[i].user], sum + members[i].risk, survival * (1.0 - members[i].risk);
    }
    assert members[..|members|] == members;
    var avg := 0.0;
    if |members| > 0 {
      avg := sum / |members| as real;
    }
    p := ProposedGroup(ids, avg, survival);
    SummaryDescribes(members);
  }

  /** The groups after i candidates of the sorted list have been dealt. */
  function DraftState(sorted: seq<Candidate>, n: nat, i: nat): seq<seq<Candidate>>
    requires n > 0 && i <= |sorted|
  {
    seq(n, j requires 0 <= j < n => Drafted(sorted, n, j, i))
  }

  lemma DraftStep(sorted: seq<Candidate>, n: nat, i: nat)
    requires n > 0 && i < |sorted|
    ensures Seat(i, n) < n == |DraftState(sorted, n, i)|
    ensures var groups := DraftState(sorted, n, i);
            DraftState(sorted, n, i + 1) == groups[Seat(i, n) := groups[Seat(i, n)] + [sorted[i]]]
  {
    Bounce(i, n);
    var g := DraftState(sorted, n, i);
    var seat := Seat(i, n);
    assert forall j :: 0 <= j < n ==>
      DraftState(sorted, n, i + 1)[j] == if j == seat then g[j] + [sorted[i]] else g[j];
  }

  /** Nobody is lost and nobody is dealt twice: after every step the groups together
      hold exactly the candidates dealt so far. */
  lemma {:induction false} DraftPartitions(sorted: seq<Candidate>, n: nat, i: nat)
    requires n > 0 && i <= |sorted|
    ensures Pool(DraftState(sorted, n, i)) == multiset(sorted[..i])
  {
    hide Seat, Pool;
    if i == 0 {
      PoolEmpty(DraftState(sorted, n, 0));
    } else {
      DraftPartitions(sorted, n, i - 1);
      DraftStep(sorted, n, i - 1);
      PoolAdd(DraftState(sorted, n, i - 1), Seat(i - 1, n), sorted[i - 1]);
      assert sorted[..i] == sorted[..i - 1] + [sorted[i - 1]];
    }
  }

  function Direction(i: nat, n: nat): int
    requires n > 0
  {
    if i / n % 2 == 0 then 1 else -1
  }

  lemma NextRound(i: nat, n: nat)
    requires n > 0
    ensures i % n == n - 1 ==> (i + 1) / n == i / n + 1 && (i + 1) % n == 0
    ensures i % n != n - 1 ==> (i + 1) / n == i / n && (i + 1) % n == i % n + 1
  {
    if i % n == n - 1 {
      assert i + 1 == (i / n + 1) * n + 0;
      DivMod(i / n + 1, n, 0);
    } else {
      assert i + 1 == i / n * n + (i % n + 1);
      DivMod(i / n, n, i % n + 1);
    }
  }

  lemma ParityFlips(q: nat)
    ensures q % 2 == 0 <==> (q + 1) % 2 == 1
    ensures q % 2 == 1 <==> (q + 1) % 2 == 0
  {
  }

  /** The bounce at either end is what makes the next round run the other way. */
  lemma Bounce(i: nat, n: nat)
    requires n > 0
    ensures var s, d := Seat(i, n), Direction(i, n);
            && s < n
            && (if s + d == n then (n - 1, -1) else if s + d < 0 then (0, 1) else (s + d, d))
               == (Seat(i + 1, n) as int, Direction(i + 1, n))
  {
    NextRound(i, n);
    ParityFlips(i / n);
    var q, p, q', p' := i / n, i % n, (i + 1) / n, (i + 1) % n;
    assert Seat(i, n) == if q % 2 == 0 then p else n - 1 - p;
    assert Seat(i + 1, n) == if q' % 2 == 0 then p' else n - 1 - p';
  }

  /** The bouncing draft over a sorted list into n groups. */
  method SnakeDraft(sorted: seq<Candidate>, n: nat, m: nat) returns (out: seq<seq<Candidate>>)
    requires n > 0 && m <= |sorted|
    ensures out == DraftState(sorted, n, m)
  {
    var groups := new seq<Candidate>[n](_ => []);
    var dir, g := 1, 0;
    assert groups[..] == DraftState(sorted, n, 0);
    hide DraftState, Seat, Direction;
    Start(n);
    for i := 0 to m
      invariant 0 <= g < n && g == Seat(i, n) && dir == Direction(i, n)
      invariant groups[..] == DraftState(sorted, n, i)
    {
      ghost var before := groups[..];
      DraftStep(sorted, n, i);
      groups[g] := groups[g] + [sorted[i]];
      assert groups[..] == before[g := before[g] + [sorted[i]]];
      Bounce(i, n);
      g := g + dir;
      if g == n {
        g, dir := n - 1, -1;
      } else if g < 0 {
        g, dir := 0, 1;
      }
    }
    out := groups[..];
  }

  lemma Start(n: nat)
    requires n > 0
    ensures Seat(0, n) == 0 && Direction(0, n) == 1
  {
  }

  /** The groups proposed for a list of candidates. */
  function Draft(cs: seq<Candidate>, size: nat): seq<seq<Candidate>>
    requires size > 0
  {
    seq(|cs| / size, j requires 0 <= j < |cs| / size => DraftGroup(cs, size, j))
  }

  /** Every proposed group has exactly the requested size, and together they are a
      permutation of the lowest-risk candidates that fill whole groups. */
  lemma DraftIsPartition(cs: seq<Candidate>, size: nat)
    requires 0 < size <= |cs|
    ensures |Draft(cs, size)| == |cs| / size
    ensures forall j :: 0 <= j < |cs| / size ==> |Draft(cs, size)[j]| == size
    ensures Pool(Draft(cs, size)) == multiset(AllPlaced(cs, size))
  {
    WholeGroups(|cs|, size);
    DraftComplete(cs, size);
    DraftPartitions(ByRisk(cs), |cs| / size, Placed(|cs|, size));
  }

  /** Who is where: with n groups, candidate k * n + j of the sorted list is round k's pick
      of group j when k is even and of group n - 1 - j when it is odd. */
  lemma DraftSeats(cs: seq<Candidate>, size: nat, j: nat, k: nat)
    requires 0 < size <= |cs| && j < |cs| / size && k < size
    ensures var n := |cs| / size;
            var at := k * n + if k % 2 == 0 then j else n - 1 - j;
            0 <= at < |cs| && k < |DraftGroup(cs, size, j)| && DraftGroup(cs, size, j)[k] == ByRisk(cs)[at]
  {
    hide Picks, DraftGroup, ByRisk, Dealt, Placed;
    DraftShape(cs, size, j);
    SeatOf(ByRisk(cs), |cs| / size, j, size, k);
  }

  lemma SeatOf(sorted: seq<Candidate>, n: nat, j: nat, m: nat, k: nat)
    requires j < n && Dealt(m, n) <= |sorted| && k < m
    ensures var at := k * n + if k % 2 == 0 then j else n - 1 - j;
            0 <= at < |sorted| && Picks(sorted, n, j, m)[k] == sorted[at]
  {
    PickAt(sorted, n, j, m, k);
    hide Picks, Dealt;
    DealtProduct(k, n);
  }

  lemma {:induction false} PickAt(sorted: seq<Candidate>, n: nat, j: nat, m: nat, k: nat)
    requires j < n && Dealt(m, n) <= |sorted| && k < m
    ensures Dealt(k, n) + Pick(k, n, j) < |sorted|
    ensures Picks(sorted, n, j, m)[k] == sorted[Dealt(k, n) + Pick(k, n, j)]
    decreases m
  {
    if k < m - 1 {
      PickAt(sorted, n, j, m - 1, k);
    }
  }

  /** Two mean risks differ by at most the range of the placed risks over the group size. */
  ghost predicate CloseMeans(a: ProposedGroup, b: ProposedGroup, placed: seq<Candidate>, size: nat)
    requires size > 0
  {
    placed != [] && a.avgRisk - b.avgRisk <= (placed[|placed| - 1].risk - placed[0].risk) / size as real
  }

  lemma MeansClose(cs: seq<Candidate>, size: nat, i: nat, j: nat)
    requires 0 < size <= |cs| && i < |cs| / size && j < |cs| / size
    ensures CloseMeans(Summary(DraftGroup(cs, size, i)), Summary(DraftGroup(cs, size, j)), AllPlaced(cs, size), size)
  {
    hide Risk, Survival, AllPlaced, DraftGroup, Risks, UserIds;
    DraftSizes(cs, size, i);
    DraftSizes(cs, size, j);
    DraftIsBalanced(cs, size, i, j);
  }

  lemma DraftSizes(cs: seq<Candidate>, size: nat, i: nat)
    requires 0 < size <= |cs| && i < |cs| / size
    ensures |DraftGroup(cs, size, i)| == size
  {
  }

  /** The proposal: for each drafted group its users in draft order, mean risk and
      survival, or nothing when there are too few candidates for one group; and no two
      proposed groups are further apart in mean risk than the placed risks allow. */
  method OptimizeGroups(candidates: seq<Candidate>, groupSize: int) returns (out: seq<ProposedGroup>)
    ensures groupSize <= 0 || |candidates| < groupSize ==> out == []
    ensures 0 < groupSize <= |candidates| ==>
              && |out| == |candidates| / groupSize > 0
              && (forall i :: 0 <= i < |out| ==>
                    |out[i].members| == groupSize && Describes(out[i], DraftGroup(candidates, groupSize, i)))
              && forall i, j :: 0 <= i < |out| && 0 <= j < |out| ==>
                   CloseMeans(out[i], out[j], AllPlaced(candidates, groupSize), groupSize)
  {
    if groupSize <= 0 || |candidates| < groupSize {
      return [];
    }
    var sorted := ByRisk(candidates);
    var n := |sorted| / groupSize;
    WholeGroups(|candidates|, groupSize);
    var groups := SnakeDraft(sorted, n, n * groupSize);
    DraftComplete(candidates, groupSize);
    out := SummariseAll(groups);
    ProposalMeaning(candidates, groupSize, out);
  }

  lemma ProposalMeaning(cs: seq<Candidate>, size: nat, out: seq<ProposedGroup>)
    requires 0 < size <= |cs| && |out| == |cs| / size
    requires forall i :: 0 <= i < |out| ==> out[i] == Summary(Draft(cs, size)[i])
    ensures forall i :: 0 <= i < |out| ==> |out[i].members| == size && Describes(out[i], DraftGroup(cs, size, i))
    ensures forall i, j :: 0 <= i < |out| && 0 <= j < |out| ==> CloseMeans(out[i], out[j], AllPlaced(cs, size), size)
  {
    hide Summary, DraftGroup, AllPlaced;
    forall i | 0 <= i < |out| ensures |out[i].members| == size && Describes(out[i], DraftGroup(cs, size, i)) {
      SummaryDescribes(DraftGroup(cs, size, i));
      DraftSizes(cs, size, i);
    }
    hide Describes, CloseMeans;
    forall i, j | 0 <= i < |out| && 0 <= j < |out| ensures CloseMeans(out[i], out[j], AllPlaced(cs, size), size) {
      MeansClose(cs, size, i, j);
    }
  }

  function Summary(members: seq<Candidate>): ProposedGroup {
    ProposedGroup(UserIds(members), if members == [] then 0.0 else Risk(members) / |members| as real, Survival(members))
  }

  method SummariseAll(groups: seq<seq<Candidate>>) returns (out: seq<ProposedGroup>)
    ensures |out| == |groups| && forall j :: 0 <= j < |out| ==> out[j] == Summary(groups[j])
  {
    hide Summary;
    out := [];
    for i := 0 to |groups|
      invariant |out| == i && forall j :: 0 <= j < i ==> out[j] == Summary(groups[j])
    {
      var p := SummariseGroup(groups[i]);
      out := out + [p];
    }
  }

  lemma WholeGroups(total: nat, size: nat)
    requires 0 < size <= total
    ensures total / size > 0 && 0 <= total / size * size == size * (total / size) == Placed(total, size) <= total
  {
  }

  lemma DraftComplete(cs: seq<Candidate>, size: nat)
    requires 0 < size <= |cs| && |cs| / size > 0
    ensures Placed(|cs|, size) <= |ByRisk(cs)|
    ensures DraftState(ByRisk(cs), |cs| / size, Placed(|cs|, size)) == Draft(cs, size)
    ensures forall j :: 0 <= j < |cs| / size ==> |Draft(cs, size)[j]| == size
  {
    DealtPlaced(|cs|, size);
    forall j | 0 <= j < |cs| / size
      ensures Drafted(ByRisk(cs), |cs| / size, j, Placed(|cs|, size)) == DraftGroup(cs, size, j)
      ensures |DraftGroup(cs, size, j)| == size
    {
      DraftedIsPicks(ByRisk(cs), |cs| / size, j, size);
    }
  }
}
