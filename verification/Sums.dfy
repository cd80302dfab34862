/** Weighted sums over append-only logs, sums over cycle ranges, and the
    counting facts about finite sets that the accounting proofs rest on. */
module Sums {

  /** The total weight of a log, folded from its end because logs only grow there. */
  function Sum<T>(xs: seq<T>, w: T -> int): int {
    if xs == [] then 0 else Sum(xs[..|xs| - 1], w) + w(xs[|xs| - 1])
  }

  lemma SumSnoc<T>(xs: seq<T>, x: T, w: T -> int)
    ensures Sum(xs + [x], w) == Sum(xs, w) + w(x)
  {
    assert (xs + [x])[..|xs|] == xs;
  }

  lemma {:induction false} SumConcat<T>(xs: seq<T>, ys: seq<T>, w: T -> int)
    ensures Sum(xs + ys, w) == Sum(xs, w) + Sum(ys, w)
  {
    if ys == [] {
      assert xs + ys == xs;
    } else {
      var last := |ys| - 1;
      SumConcat(xs, ys[..last], w);
      SumSnoc(xs + ys[..last], ys[last], w);
      assert xs + ys == xs + ys[..last] + [ys[last]];
    }
  }

  lemma {:induction false} SumNonNegative<T>(xs: seq<T>, w: T -> int)
    requires forall x :: x in xs ==> w(x) >= 0
    ensures Sum(xs, w) >= 0
    ensures forall x :: x in xs ==> w(x) <= Sum(xs, w)
  {
    if xs != [] {
      SumNonNegative(xs[..|xs| - 1], w);
      assert forall x :: x in xs ==> x in xs[..|xs| - 1] || x == xs[|xs| - 1];
    }
  }

  lemma {:induction false} SumScale<T>(xs: seq<T>, w: T -> int, v: T -> int, k: int)
    requires forall x :: x in xs ==> w(x) == k * v(x)
    ensures Sum(xs, w) == k * Sum(xs, v)
  {
    if xs != [] {
      SumScale(xs[..|xs| - 1], w, v, k);
    }
  }

  lemma SumMiddle<T>(a: seq<T>, x: T, b: seq<T>, w: T -> int)
    ensures Sum(a + [x] + b, w) == Sum(a + b, w) + w(x)
  {
    hide Sum;
    SumSnoc(a, x, w);
    SumConcat(a + [x], b, w);
    SumConcat(a, b, w);
  }

  lemma SumWithout<T>(xs: seq<T>, i: nat, w: T -> int)
    requires i < |xs|
    ensures Sum(xs, w) == Sum(xs[..i] + xs[i + 1..], w) + w(xs[i])
  {
    hide Sum;
    SumMiddle(xs[..i], xs[i], xs[i + 1..], w);
    assert xs == xs[..i] + [xs[i]] + xs[i + 1..];
  }

  lemma BagWithout<T>(xs: seq<T>, i: nat)
    requires i < |xs|
    ensures multiset(xs[..i] + xs[i + 1..]) == multiset(xs) - multiset{xs[i]}
  {
    assert xs == xs[..i] + [xs[i]] + xs[i + 1..];
  }

  /** The order of a log does not change its total. */
  lemma {:induction false} SumPermuted<T>(xs: seq<T>, ys: seq<T>, w: T -> int)
    requires multiset(xs) == multiset(ys)
    ensures Sum(xs, w) == Sum(ys, w)
    decreases |xs|
  {
    hide Sum;
    if xs == [] {
      assert |ys| == |multiset(ys)| == |multiset(xs)| == 0;
      assert ys == xs;
    } else {
      var i := Occurrence(xs[0], ys, multiset(xs));
      BagWithout(xs, 0);
      BagWithout(ys, i);
      SumWithout(xs, 0, w);
      SumWithout(ys, i, w);
      SumPermuted(xs[..0] + xs[1..], ys[..i] + ys[i + 1..], w);
    }
  }

  lemma Occurrence<T>(x: T, ys: seq<T>, bag: multiset<T>) returns (i: nat)
    requires x in bag && bag == multiset(ys)
    ensures i < |ys| && ys[i] == x
  {
    assert x in ys;
    i :| 0 <= i < |ys| && ys[i] == x;
  }

  /** Counts the occurrences of one entry. */
  function Is<T(==)>(x: T): T -> int {
    y => if y == x then 1 else 0
  }

  lemma {:induction false} CountIsSum<T>(xs: seq<T>, x: T)
    ensures multiset(xs)[x] == Sum(xs, Is(x))
  {
    if xs != [] {
      var init, last := xs[..|xs| - 1], xs[|xs| - 1];
      CountIsSum(init, x);
      assert xs == init + [last];
    }
  }

  /** f(0) + ... + f(n - 1) */
  function Range(n: nat, f: int -> int): int {
    if n == 0 then 0 else Range(n - 1, f) + f(n - 1)
  }

  lemma {:induction false} RangeAgree(n: nat, f: int -> int, g: int -> int)
    requires forall i :: 0 <= i < n ==> f(i) == g(i)
    ensures Range(n, f) == Range(n, g)
  {
    if n > 0 {
      RangeAgree(n - 1, f, g);
    }
  }

  lemma {:induction false} RangeAdd(n: nat, f: int -> int, g: int -> int, h: int -> int)
    requires forall i :: 0 <= i < n ==> f(i) == g(i) + h(i)
    ensures Range(n, f) == Range(n, g) + Range(n, h)
  {
    if n > 0 {
      RangeAdd(n - 1, f, g, h);
    }
  }

  lemma {:induction false} RangeNonNegative(n: nat, f: int -> int)
    requires forall i :: 0 <= i < n ==> f(i) >= 0
    ensures Range(n, f) >= 0
    ensures forall i :: 0 <= i < n ==> f(i) <= Range(n, f)
  {
    if n > 0 {
      RangeNonNegative(n - 1, f);
    }
  }

  lemma {:induction false} RangeConstant(n: nat, f: int -> int, k: int)
    requires forall i :: 0 <= i < n ==> f(i) == k
    ensures Range(n, f) == k * n
  {
    if n > 0 {
      RangeConstant(n - 1, f, k);
    }
  }

  /** Of two ranges, one nowhere above the other, the totals agree only when they agree
      everywhere. */
  lemma {:induction false} RangeCompare(n: nat, f: int -> int, g: int -> int)
    requires forall i :: 0 <= i < n ==> f(i) <= g(i)
    ensures Range(n, f) <= Range(n, g)
    ensures Range(n, f) == Range(n, g) <==> forall i :: 0 <= i < n ==> f(i) == g(i)
  {
    if n > 0 {
      RangeCompare(n - 1, f, g);
    }
  }

  /** A range of zeros and ones reaches its length only when it is all ones. */
  lemma {:induction false} RangeOfBits(n: nat, f: int -> int)
    requires forall i :: 0 <= i < n ==> f(i) == 0 || f(i) == 1
    ensures Range(n, f) <= n
    ensures Range(n, f) == n <==> forall i :: 0 <= i < n ==> f(i) == 1
  {
    if n > 0 {
      RangeOfBits(n - 1, f);
    }
  }

  /** A range with one non-zero position sums to what stands there. */
  lemma {:induction false} RangeSingle(n: nat, f: int -> int, at: int)
    requires forall i :: 0 <= i < n && i != at ==> f(i) == 0
    ensures Range(n, f) == if 0 <= at < n then f(at) else 0
  {
    if n > 0 {
      RangeSingle(n - 1, f, at);
    }
  }

  /** The weight of one entry, position by position. */
  function Row<T>(w: int -> T -> int, x: T): int -> int {
    i => w(i)(x)
  }

  /** The total of a log, position by position. */
  function Column<T>(w: int -> T -> int, xs: seq<T>): int -> int {
    i => Sum(xs, w(i))
  }

  /** Double counting: adding up a log position by position is adding up the log. */
  lemma {:induction false} RangeOfSums<T>(n: nat, xs: seq<T>, w: int -> T -> int, total: T -> int)
    requires forall x :: x in xs ==> Range(n, Row(w, x)) == total(x)
    ensures Range(n, Column(w, xs)) == Sum(xs, total)
  {
    if xs == [] {
      forall i ensures Column(w, xs)(i) == 0 {
        assert Sum(xs, w(i)) == 0;
      }
      RangeConstant(n, Column(w, xs), 0);
    } else {
      var rest, x := xs[..|xs| - 1], xs[|xs| - 1];
      RangeOfSums(n, rest, w, total);
      RangeAdd(n, Column(w, xs), Column(w, rest), Row(w, x));
    }
  }

  function SetOf<T>(xs: seq<T>): set<T> {
    set x | x in xs
  }

  predicate Distinct<T(==)>(xs: seq<T>) {
    forall i, j :: 0 <= i < j < |xs| ==> xs[i] != xs[j]
  }

  lemma {:induction false} SetOfSize<T>(xs: seq<T>)
    ensures |SetOf(xs)| <= |xs|
    ensures Distinct(xs) <==> |SetOf(xs)| == |xs|
  {
    if xs == [] {
      assert SetOf(xs) == {};
    } else {
      var rest, x := xs[..|xs| - 1], xs[|xs| - 1];
      SetOfSize(rest);
      assert xs == rest + [x];
      assert SetOf(xs) == SetOf(rest) + {x};
      if x in rest {
        var i :| 0 <= i < |rest| && rest[i] == x;
        assert xs[i] == xs[|xs| - 1];
        assert SetOf(rest) + {x} == SetOf(rest);
      } else if Distinct(rest) {
        assert Distinct(xs);
      } else {
        var i, j :| 0 <= i < j < |rest| && rest[i] == rest[j];
        assert xs[i] == xs[j];
      }
    }
  }

  lemma SubsetSize<T>(a: set<T>, b: set<T>)
    requires a <= b
    ensures |a| <= |b|
    ensures |a| == |b| <==> a == b
  {
    assert b == a + (b - a);
    if |a| == |b| {
      assert b - a == {};
    }
  }

  /** Pigeonhole: as many distinct slots as there are people fill everybody in. */
  lemma Pigeonhole<T>(slots: seq<T>, people: seq<T>)
    requires |slots| == |people|
    requires Distinct(people)
    requires forall x :: x in slots ==> x in people
    ensures Distinct(slots) <==> (forall x :: x in people ==> x in slots)
  {
    SetOfSize(slots);
    SetOfSize(people);
    SubsetSize(SetOf(slots), SetOf(people));
    if forall x :: x in people ==> x in slots {
      assert SetOf(people) <= SetOf(slots);
    } else {
      var x :| x in people && x !in slots;
      assert x in SetOf(people) && x !in SetOf(slots);
    }
  }

  /** A non-empty finite set has an element of least rank. */
  lemma {:induction false} LeastExists<T>(s: set<T>, rank: T -> int)
    requires s != {}
    ensures exists x :: x in s && forall y :: y in s ==> rank(x) <= rank(y)
  {
    var x :| x in s;
    if s != {x} {
      assert s == {x} + (s - {x});
      LeastExists(s - {x}, rank);
      var m :| m in s - {x} && forall y :: y in s - {x} ==> rank(m) <= rank(y);
      var least := if rank(x) <= rank(m) then x else m;
      assert forall y :: y in s ==> y == x || y in s - {x};
      assert least in s && forall y :: y in s ==> rank(least) <= rank(y);
    }
  }

  /** The entries of a log that satisfy p, in log order. */
  function Filter<T>(xs: seq<T>, p: T -> bool): seq<T> {
    if xs == [] then []
    else if p(xs[|xs| - 1]) then Filter(xs[..|xs| - 1], p) + [xs[|xs| - 1]]
    else Filter(xs[..|xs| - 1], p)
  }

  lemma FilterSnoc<T>(xs: seq<T>, x: T, p: T -> bool)
    ensures Filter(xs + [x], p) == if p(x) then Filter(xs, p) + [x] else Filter(xs, p)
  {
    assert (xs + [x])[..|xs|] == xs;
  }

  lemma {:induction false} FilterConcat<T>(xs: seq<T>, ys: seq<T>, p: T -> bool)
    ensures Filter(xs + ys, p) == Filter(xs, p) + Filter(ys, p)
  {
    if ys == [] {
      assert xs + ys == xs;
    } else {
      var last := |ys| - 1;
      FilterConcat(xs, ys[..last], p);
      FilterSnoc(xs + ys[..last], ys[last], p);
      assert xs + ys == xs + ys[..last] + [ys[last]];
    }
  }

  lemma {:induction false} FilterNone<T>(xs: seq<T>, p: T -> bool)
    requires forall x :: x in xs ==> !p(x)
    ensures Filter(xs, p) == []
  {
    if xs != [] {
      FilterNone(xs[..|xs| - 1], p);
    }
  }

  lemma {:induction false} SumFiltered<T>(xs: seq<T>, p: T -> bool, w: T -> int, v: T -> int)
    requires forall x :: x in xs ==> v(x) == if p(x) then w(x) else 0
    ensures Sum(Filter(xs, p), w) == Sum(xs, v)
  {
    if xs != [] {
      SumFiltered(xs[..|xs| - 1], p, w, v);
      if p(xs[|xs| - 1]) {
        SumSnoc(Filter(xs[..|xs| - 1], p), xs[|xs| - 1], w);
      }
    }
  }

  /** 1 at the positions of xs whose element is in s, 0 elsewhere. */
  function Marks<T(==)>(xs: seq<T>, s: set<T>): int -> int {
    i => if 0 <= i < |xs| && xs[i] in s then 1 else 0
  }

  lemma MarksBeforeLast<T>(xs: seq<T>, s: set<T>)
    requires xs != [] && xs[|xs| - 1] !in xs[..|xs| - 1]
    ensures var last := |xs| - 1;
            Range(last, Marks(xs, s)) == Range(last, Marks(xs[..last], s - {xs[last]}))
  {
    var last := |xs| - 1;
    forall i | 0 <= i < last ensures Marks(xs, s)(i) == Marks(xs[..last], s - {xs[last]})(i) {
      assert xs[..last][i] == xs[i];
    }
    RangeAgree(last, Marks(xs, s), Marks(xs[..last], s - {xs[last]}));
  }

  /** Walking a list without repeats: each next element is new. */
  lemma PrefixNext<T>(xs: seq<T>, i: nat)
    requires i < |xs| && Distinct(xs)
    ensures xs[..i + 1] == xs[..i] + [xs[i]]
    ensures xs[i] !in xs[..i]
  {
  }

  lemma PrefixWhole<T>(xs: seq<T>)
    ensures xs[..|xs|] == xs
  {
  }

  lemma DistinctInit<T>(xs: seq<T>)
    requires Distinct(xs) && xs != []
    ensures Distinct(xs[..|xs| - 1]) && xs[|xs| - 1] !in xs[..|xs| - 1]
    ensures SetOf(xs) == SetOf(xs[..|xs| - 1]) + {xs[|xs| - 1]}
  {
    assert xs == xs[..|xs| - 1] + [xs[|xs| - 1]];
  }

  /** Distinct names are counted once each: a census of a set is its size. */
  lemma {:induction false} Census<T>(xs: seq<T>, s: set<T>)
    requires Distinct(xs) && s <= SetOf(xs)
    ensures Range(|xs|, Marks(xs, s)) == |s|
  {
    if xs == [] {
      assert s == {};
    } else {
      var last := |xs| - 1;
      var x := xs[last];
      DistinctInit(xs);
      MarksBeforeLast(xs, s);
      hide Distinct;
      Census(xs[..last], s - {x});
      if x in s {
        assert Marks(xs, s)(last) == 1;
        assert |s| == |s - {x}| + 1;
      } else {
        assert Marks(xs, s)(last) == 0;
        assert s == s - {x};
      }
    }
  }
}
