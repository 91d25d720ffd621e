// services/behaviour-analysis/app/stats.py: Welford's online mean and variance.
//
// Moments is the value a bucket stores (to_dict / from_dict); BucketStats is the
// object the service updates in place. The lemmas relate both to the batch
// statistics of the readings that were folded in.
module Stats {

  datatype Moments = Moments(n: nat, mean: real, m2: real)

  const EMPTY := Moments(0, 0.0, 0.0)

  // A square root handed in from outside; only its defining property is used.
  ghost predicate IsRoot(root: real -> real) {
    forall x: real :: x >= 0.0 ==> root(x) >= 0.0 && root(x) * root(x) == x
  }

  function Learn(s: Moments, value: real): Moments {
    var n := s.n + 1;
    var delta := value - s.mean;
    var mean := s.mean + delta / n as real;
    Moments(n, mean, s.m2 + delta * (value - mean))
  }

  function StdDev(root: real -> real, s: Moments): real {
    if s.n < 2 then 0.0 else root(s.m2 / (s.n - 1) as real)
  }

  function ZScore(root: real -> real, s: Moments, value: real): real {
    var sd := StdDev(root, s);
    if sd == 0.0 then 0.0 else (value - s.mean) / sd
  }

  // The mutable accumulator.
  class BucketStats {
    var n: nat
    var mean: real
    var m2: real

    function ToDict(): Moments
      reads this
    {
      Moments(n, mean, m2)
    }

    constructor FromDict(data: Moments)
      ensures ToDict() == data
    {
      n, mean, m2 := data.n, data.mean, data.m2;
    }

    method Update(value: real)
      modifies this
      ensures ToDict() == Learn(old(ToDict()), value)
    {
      n := n + 1;
      var delta := value - mean;
      mean := mean + delta / n as real;
      var delta2 := value - mean;
      m2 := m2 + delta * delta2;
    }

    function Deviation(root: real -> real): real
      reads this
    {
      StdDev(root, ToDict())
    }

    method Score(root: real -> real, value: real) returns (z: real)
      ensures z == ZScore(root, ToDict(), value)
    {
      var sd := Deviation(root);
      if sd == 0.0 {
        return 0.0;
      }
      z := (value - mean) / sd;
    }
  }

  // ---------------------------------------------------------------- batch statistics

  function Sum(xs: seq<real>): real {
    if xs == [] then 0.0 else Sum(xs[..|xs| - 1]) + xs[|xs| - 1]
  }

  function Square(x: real): (r: real)
    ensures r >= 0.0
  {
    x * x
  }

  // Sum of squared deviations from c.
  function SquaredDeviation(xs: seq<real>, c: real): real {
    if xs == [] then 0.0
    else SquaredDeviation(xs[..|xs| - 1], c) + Square(xs[|xs| - 1] - c)
  }

  function Mean(xs: seq<real>): real {
    if xs == [] then 0.0 else Sum(xs) / |xs| as real
  }

  // Two-pass statistics: the independent reference for Learn.
  function Batch(xs: seq<real>): Moments {
    Moments(|xs|, Mean(xs), SquaredDeviation(xs, Mean(xs)))
  }

  function LearnAll(s: Moments, xs: seq<real>): Moments {
    if xs == [] then s else Learn(LearnAll(s, xs[..|xs| - 1]), xs[|xs| - 1])
  }

  function SumOfSquares(xs: seq<real>): real {
    if xs == [] then 0.0 else SumOfSquares(xs[..|xs| - 1]) + Square(xs[|xs| - 1])
  }

  // The squared deviation from c as a quadratic in c: q is the sum of squares, s the sum.
  function Quadratic(q: real, s: real, n: real, c: real): real {
    q - 2.0 * c * s + n * (c * c)
  }

  lemma QuadraticStep(q: real, s: real, n: real, x: real, c: real)
    ensures Quadratic(q + Square(x), s + x, n + 1.0, c) == Quadratic(q, s, n, c) + Square(x - c)
  {
  }

  lemma {:induction false} ExpandDeviation(xs: seq<real>, c: real)
    ensures SquaredDeviation(xs, c) == Quadratic(SumOfSquares(xs), Sum(xs), |xs| as real, c)
  {
    if xs != [] {
      hide Square;
      hide Quadratic;
      var init, x := xs[..|xs| - 1], xs[|xs| - 1];
      ExpandDeviation(init, c);
      QuadraticStep(SumOfSquares(init), Sum(init), |init| as real, x, c);
      assert |xs| as real == |init| as real + 1.0;
    }
  }

  lemma MeanTimesCount(xs: seq<real>)
    ensures |xs| as real * Mean(xs) == Sum(xs)
  {
  }

  lemma {:induction false} SquaredDeviationNonNegative(xs: seq<real>, c: real)
    ensures SquaredDeviation(xs, c) >= 0.0
  {
    hide Square;
    if xs != [] {
      SquaredDeviationNonNegative(xs[..|xs| - 1], c);
    }
  }

  // The Welford recurrence in closed form, with e the amount the mean moves.
  lemma QuadraticLearn(q: real, s: real, n: real, mu: real, e: real, v: real)
    requires s == n * mu && v == mu + (n + 1.0) * e
    ensures Quadratic(q + Square(v), s + v, n + 1.0, mu + e) == Quadratic(q, s, n, mu) + (v - mu) * (v - (mu + e))
  {
    assert s + v == (n + 1.0) * (mu + e);
    assert v - (mu + e) == n * e;
  }

  lemma QuotientIs(x: real, d: real, q: real)
    requires d > 0.0 && x == d * q
    ensures x / d == q
  {
  }

  // One step, with e the amount the mean moves.
  lemma LearnByStep(s: Moments, value: real) returns (e: real)
    ensures value == s.mean + (s.n as real + 1.0) * e
    ensures Learn(s, value) == Moments(s.n + 1, s.mean + e, s.m2 + (value - s.mean) * (value - (s.mean + e)))
  {
    var n, delta := (s.n + 1) as real, value - s.mean;
    e := delta / n;
    QuotientTimes(delta, n);
    assert n == s.n as real + 1.0;
    assert n * e == delta;
    var t := Learn(s, value);
    assert t.n == s.n + 1;
    assert t.mean == s.mean + e;
    assert t.m2 == s.m2 + delta * (value - t.mean);
  }

  lemma QuotientTimes(x: real, d: real)
    requires d > 0.0
    ensures d * (x / d) == x
  {
  }

  lemma AppendedMean(s: real, n: real, mu: real, e: real, v: real)
    requires n >= 0.0 && s == n * mu && v == mu + (n + 1.0) * e
    ensures (s + v) / (n + 1.0) == mu + e
  {
    assert s + v == (n + 1.0) * (mu + e);
    QuotientIs(s + v, n + 1.0, mu + e);
  }

  // One step on moments given by their sums: q of squares, s of values, n of them.
  lemma LearnSums(q: real, s: real, n: nat, mu: real, value: real)
    requires s == n as real * mu
    ensures
      var mean := (s + value) / (n as real + 1.0);
      Learn(Moments(n, mu, Quadratic(q, s, n as real, mu)), value)
      == Moments(n + 1, mean, Quadratic(q + Square(value), s + value, n as real + 1.0, mean))
  {
    hide Square;
    hide Quadratic;
    hide Learn;
    var e := LearnByStep(Moments(n, mu, Quadratic(q, s, n as real, mu)), value);
    AppendedMean(s, n as real, mu, e, value);
    QuadraticLearn(q, s, n as real, mu, e, value);
  }

  // One in-place update is one more element of the batch.
  lemma LearnExtendsBatch(xs: seq<real>, value: real)
    ensures Learn(Batch(xs), value) == Batch(xs + [value])
  {
    hide Square;
    hide Quadratic;
    hide Learn;
    var ys := xs + [value];
    assert ys[..|ys| - 1] == xs;
    assert |ys| as real == |xs| as real + 1.0;
    MeanTimesCount(xs);
    LearnSums(SumOfSquares(xs), Sum(xs), |xs|, Mean(xs), value);
    ExpandDeviation(xs, Mean(xs));
    ExpandDeviation(ys, Mean(ys));
  }

  // After any sequence of updates the stored moments are the batch count, mean and
  // squared deviation of exactly the values seen.
  lemma {:induction false} WelfordIsBatch(xs: seq<real>)
    ensures LearnAll(EMPTY, xs) == Batch(xs)
    ensures LearnAll(EMPTY, xs).m2 >= 0.0
  {
    if xs != [] {
      WelfordIsBatch(xs[..|xs| - 1]);
      LearnExtendsBatch(xs[..|xs| - 1], xs[|xs| - 1]);
      assert xs[..|xs| - 1] + [xs[|xs| - 1]] == xs;
    }
    SquaredDeviationNonNegative(xs, Mean(xs));
  }

  lemma {:induction false} SumsRemove(xs: seq<real>, i: nat, c: real)
    requires i < |xs|
    ensures Sum(xs) == Sum(xs[..i] + xs[i + 1..]) + xs[i]
    ensures SquaredDeviation(xs, c) == SquaredDeviation(xs[..i] + xs[i + 1..], c) + Square(xs[i] - c)
  {
    hide Square;
    var last := |xs| - 1;
    if i == last {
      assert xs[..i] + xs[i + 1..] == xs[..last];
    } else {
      var init := xs[..last];
      SumsRemove(init, i, c);
      var ys := xs[..i] + xs[i + 1..];
      assert ys[..|ys| - 1] == init[..i] + init[i + 1..];
      assert ys[|ys| - 1] == xs[last];
    }
  }

  lemma FindLast(xs: seq<real>, ys: seq<real>) returns (i: nat)
    requires xs != [] && multiset(xs) == multiset(ys)
    ensures i < |ys| && ys[i] == xs[|xs| - 1]
    ensures multiset(xs[..|xs| - 1]) == multiset(ys[..i] + ys[i + 1..])
  {
    var last := |xs| - 1;
    assert xs[last] in multiset(ys);
    i :| 0 <= i < |ys| && ys[i] == xs[last];
    assert xs == xs[..last] + [xs[last]];
    assert multiset(xs) == multiset(xs[..last]) + multiset{xs[last]};
    assert ys == ys[..i] + [ys[i]] + ys[i + 1..];
    assert multiset(ys) == multiset(ys[..i] + ys[i + 1..]) + multiset{ys[i]};
    assert multiset(xs[..last]) == multiset(xs) - multiset{xs[last]};
    assert multiset(ys[..i] + ys[i + 1..]) == multiset(ys) - multiset{ys[i]};
  }

  lemma {:induction false} SumsIgnoreOrder(xs: seq<real>, ys: seq<real>, c: real)
    requires multiset(xs) == multiset(ys)
    ensures |xs| == |ys| && Sum(xs) == Sum(ys) && SquaredDeviation(xs, c) == SquaredDeviation(ys, c)
    decreases |xs|
  {
    hide Square;
    assert |xs| == |multiset(xs)| == |multiset(ys)| == |ys|;
    if xs != [] {
      var i := FindLast(xs, ys);
      SumsIgnoreOrder(xs[..|xs| - 1], ys[..i] + ys[i + 1..], c);
      SumsRemove(ys, i, c);
    }
  }

  // The stored state does not depend on the order the readings arrived in.
  lemma WelfordIgnoresOrder(xs: seq<real>, ys: seq<real>)
    requires multiset(xs) == multiset(ys)
    ensures LearnAll(EMPTY, xs) == LearnAll(EMPTY, ys)
  {
    WelfordIsBatch(xs);
    WelfordIsBatch(ys);
    SumsIgnoreOrder(xs, ys, 0.0);
    SumsIgnoreOrder(xs, ys, Mean(xs));
  }
}
