// What learning does to a score: one learned copy of a value strictly pulls its z-score
// in, and k learned copies bound it by n / k, whatever the n samples before them were.
module Rebaselining {
  import opened Stats

  function Abs(x: real): real {
    if x < 0.0 then -x else x
  }

  // The root-free form of a z-score: z * z * m2 == (v - mean)^2 * (n - 1), with the sign of v - mean.
  lemma ZScoreSquared(root: real -> real, s: Moments, v: real)
    requires IsRoot(root) && s.m2 >= 0.0
    ensures s.n < 2 || s.m2 == 0.0 ==> ZScore(root, s, v) == 0.0
    ensures s.n >= 2 && s.m2 > 0.0 ==>
              var z := ZScore(root, s, v);
              && Square(z) * s.m2 == Square(v - s.mean) * (s.n - 1) as real
              && (z > 0.0 <==> v > s.mean)
              && (z < 0.0 <==> v < s.mean)
  {
    if s.n >= 2 {
      var m := (s.n - 1) as real;
      var q := s.m2 / m;
      var sd := root(q);
      assert q >= 0.0 && sd * sd == q && q * m == s.m2;
      if s.m2 == 0.0 {
        assert q == 0.0;
        RootOfZero(sd);
      } else {
        assert q > 0.0;
        RootOfPositive(sd);
        QuotientSquared(v - s.mean, sd, m);
        assert sd * sd * m == s.m2;
      }
    }
  }

  lemma RootOfZero(sd: real)
    requires sd >= 0.0 && Square(sd) == 0.0
    ensures sd == 0.0
  {
    if sd > 0.0 {
      SquareGrows(0.0, sd);
    }
  }

  lemma ProductPositive(a: real, b: real)
    requires a > 0.0 && b > 0.0
    ensures a * b > 0.0
  {
  }

  lemma RootOfPositive(sd: real)
    requires sd >= 0.0 && sd * sd > 0.0
    ensures sd > 0.0
  {
  }

  lemma QuotientSquared(d: real, sd: real, m: real)
    requires sd > 0.0
    ensures Square(d / sd) * (sd * sd * m) == Square(d) * m
    ensures d / sd > 0.0 <==> d > 0.0
    ensures d / sd < 0.0 <==> d < 0.0
  {
    var z := d / sd;
    assert z * sd == d;
    assert (z * z) * (sd * sd * m) == (z * sd) * (z * sd) * m;
  }

  lemma SquareGrows(a: real, b: real)
    requires 0.0 <= a < b
    ensures Square(a) < Square(b)
  {
    var x, y := b - a, b + a;
    ProductPositive(x, y);
    assert Square(b) == Square(a) + x * y;
  }

  lemma SquaresOrder(a: real, b: real)
    requires a >= 0.0 && b >= 0.0
    ensures Square(a) < Square(b) <==> a < b
  {
    if a < b {
      SquareGrows(a, b);
    } else if b < a {
      SquareGrows(b, a);
    }
  }

  lemma SquareOfAbs(a: real)
    ensures Square(Abs(a)) == Square(a) && Abs(a) >= 0.0
  {
  }

  // ---------------------------------------------------------------- one learned copy

  // With n samples in place, a step e of the mean adds n * (n + 1) * e^2 to the spread.
  function Spread(n: real, m2: real, e2: real): real {
    m2 + n * (n + 1.0) * e2
  }

  lemma SpreadGrows(n: real, m2: real, e2: real)
    requires n >= 0.0 && e2 >= 0.0
    ensures Spread(n, m2, e2) >= m2
  {
    assert n * (n + 1.0) >= 0.0;
    ScaleMonotone(0.0, n * (n + 1.0), e2);
  }

  // How far value v pulls the moments, with e the step the mean takes.
  lemma LearnStep(s: Moments, v: real) returns (e: real)
    ensures v - s.mean == (s.n as real + 1.0) * e
    ensures Learn(s, v).n == s.n + 1
    ensures v - Learn(s, v).mean == s.n as real * e
    ensures Learn(s, v).m2 == Spread(s.n as real, s.m2, Square(e))
    ensures Learn(s, v).m2 >= s.m2
  {
    var n, d := s.n as real, v - s.mean;
    e := d / (n + 1.0);
    assert d == (n + 1.0) * e;
    assert v - Learn(s, v).mean == d - e == n * e;
    assert Learn(s, v).m2 == s.m2 + d * (n * e);
    assert d * (n * e) == n * (n + 1.0) * (e * e);
    SpreadGrows(n, s.m2, Square(e));
  }

  // (n - 1) * d^2 before and n * d'^2 after, where d = (n + 1) * e and d' = n * e.
  function Before(n: real, e2: real): real {
    (n + 1.0) * (n + 1.0) * e2 * (n - 1.0)
  }

  function After(n: real, e2: real): real {
    n * n * e2 * n
  }

  // n^3 < (n - 1)(n + 1)^2 for n >= 2, scaled by the quantities it is used with.
  lemma ShrinkIdentity(n: real, m2: real, e2: real)
    ensures Before(n, e2) * Spread(n, m2, e2) - After(n, e2) * m2
         == e2 * (m2 * (n * n - n - 1.0) + (n - 1.0) * n * (n + 1.0) * (n + 1.0) * (n + 1.0) * e2)
  {
  }

  lemma ShrinkStrict(n: real, m2: real, e2: real)
    requires n >= 2.0 && m2 > 0.0 && e2 > 0.0
    ensures After(n, e2) * m2 < Before(n, e2) * Spread(n, m2, e2)
  {
    ShrinkIdentity(n, m2, e2);
    var k := n * n - n - 1.0;
    assert k > 0.0 by {
      assert k == n * (n - 2.0) + (n - 1.0);
      assert n * (n - 2.0) >= 0.0;
    }
    ProductPositive(m2, k);
    ProductPositive(n - 1.0, n);
    ProductPositive((n - 1.0) * n, n + 1.0);
    ProductPositive((n - 1.0) * n * (n + 1.0), n + 1.0);
    ProductPositive((n - 1.0) * n * (n + 1.0) * (n + 1.0), n + 1.0);
    ProductPositive((n - 1.0) * n * (n + 1.0) * (n + 1.0) * (n + 1.0), e2);
    ProductPositive(e2, m2 * k + (n - 1.0) * n * (n + 1.0) * (n + 1.0) * (n + 1.0) * e2);
  }

  // Two scores compared through their numerators, without dividing.
  lemma CompareScaled(z2: real, z2': real, m2: real, m2': real, u: real, u': real)
    requires m2 > 0.0 && m2' > 0.0
    requires z2 * m2 == u && z2' * m2' == u'
    requires u' * m2 < u * m2'
    ensures z2' < z2
  {
    assert u' * m2 == z2' * (m2 * m2');
    assert u * m2' == z2 * (m2 * m2');
    ProductPositive(m2, m2');
    if z2' >= z2 {
      ScaleMonotone(z2, z2', m2 * m2');
    }
  }

  lemma ScaleMonotone(a: real, b: real, c: real)
    requires a <= b && c >= 0.0
    ensures a * c <= b * c
  {
  }

  lemma Numerators(n: real, e: real, d: real, d': real)
    requires d == (n + 1.0) * e && d' == n * e
    ensures Square(d) * (n - 1.0) == Before(n, Square(e))
    ensures Square(d') * n == After(n, Square(e))
  {
  }

  lemma SquarePositive(e: real)
    requires e != 0.0
    ensures Square(e) > 0.0
  {
    SquareGrows(0.0, Abs(e));
    SquareOfAbs(e);
  }

  // Folding an off-mean value into a baseline strictly shrinks the score that very value
  // gets next time: the reason readings that qualify are withheld.
  lemma LearningShrinksScore(root: real -> real, s: Moments, v: real)
    requires IsRoot(root) && s.n >= 2 && s.m2 > 0.0 && v != s.mean
    ensures Abs(ZScore(root, Learn(s, v), v)) < Abs(ZScore(root, s, v))
  {
    var n, t := s.n as real, Learn(s, v);
    var e := LearnStep(s, v);
    ZScoreSquared(root, s, v);
    ZScoreSquared(root, t, v);
    Numerators(n, e, v - s.mean, v - t.mean);
    SquarePositive(e);
    ShrinkStrict(n, s.m2, Square(e));
    hide *;
    var z, z' := ZScore(root, s, v), ZScore(root, t, v);
    assert (t.n - 1) as real == n && (s.n - 1) as real == n - 1.0;
    CompareScaled(Square(z), Square(z'), s.m2, t.m2, Before(n, Square(e)), After(n, Square(e)));
    SquareOfAbs(z);
    SquareOfAbs(z');
    SquaresOrder(Abs(z'), Abs(z));
  }

  // ---------------------------------------------------------------- k learned copies

  function LearnCopies(s: Moments, v: real, k: nat): Moments {
    if k == 0 then s else Learn(LearnCopies(s, v, k - 1), v)
  }

  // n samples that left v - mean at d and the spread at m2, then k copies of v: the
  // deviation is n / (n + k) of what it was and n * k / (n + k) of its square joined the spread.
  predicate Diluted(n: real, k: real, d: real, m2: real, dk: real, m2k: real) {
    && (n + k) * dk == n * d
    && (n + k) * (m2k - m2) == Square(d) * n * k
  }

  lemma {:induction false} CopiesClosedForm(s: Moments, v: real, k: nat)
    ensures
      var t := LearnCopies(s, v, k);
      && t.n == s.n + k
      && Diluted(s.n as real, k as real, v - s.mean, s.m2, v - t.mean, t.m2)
      && t.m2 >= s.m2
  {
    hide Learn;
    hide Square;
    hide Spread;
    hide Diluted;
    if k == 0 {
      DilutedNone(s.n as real, v - s.mean, s.m2);
    } else {
      CopiesClosedForm(s, v, k - 1);
      var p := LearnCopies(s, v, k - 1);
      var e := LearnStep(p, v);
      var t := LearnCopies(s, v, k);
      assert t == Learn(p, v);
      assert k as real == (k - 1) as real + 1.0;
      assert p.n as real == s.n as real + (k - 1) as real;
      DilutedOnce(s.n as real, (k - 1) as real, p.n as real, v - s.mean, e, v - p.mean, v - t.mean, s.m2, p.m2, t.m2);
    }
  }

  lemma DilutedNone(n: real, d: real, m2: real)
    ensures Diluted(n, 0.0, d, m2, d, m2)
  {
  }

  lemma DilutedOnce(n: real, j: real, N: real, d: real, e: real, pd: real, td: real, m2: real, p2: real, t2: real)
    requires n >= 0.0 && j >= 0.0 && N == n + j
    requires pd == (N + 1.0) * e && td == N * e
    requires Diluted(n, j, d, m2, pd, p2)
    requires t2 == Spread(N, p2, Square(e))
    requires N == 0.0 ==> p2 == m2
    ensures Diluted(n, j + 1.0, d, m2, td, t2)
  {
    hide Square;
    hide Spread;
    assert (N + 1.0) * td == N * pd;
    if N == 0.0 {
      DilutedEmpty(d, m2, td, t2, p2, Square(e));
    } else {
      DilutedSpread(n, j, N, d, e, pd, m2, p2);
    }
  }

  lemma DilutedEmpty(d: real, m2: real, td: real, t2: real, p2: real, q: real)
    requires p2 == m2 && t2 == Spread(0.0, p2, q) && td == 0.0
    ensures Diluted(0.0, 1.0, d, m2, td, t2)
  {
  }

  lemma DilutedSpread(n: real, j: real, N: real, d: real, e: real, pd: real, m2: real, p2: real)
    requires N == n + j && N != 0.0 && pd == (N + 1.0) * e
    requires N * pd == n * d && N * (p2 - m2) == Square(d) * n * j
    ensures (N + 1.0) * (Spread(N, p2, Square(e)) - m2) == Square(d) * n * (j + 1.0)
  {
    var q, D := Square(e), Square(d);
    SpreadScaled(N, p2, m2, q);
    EqualSquares(N, pd, n, d);
    SquareOfMultiple(N + 1.0, e);
    hide Square;
    hide Spread;
    DilutedSum(n, j, N, D, N * (p2 - m2), (N + 1.0) * (N + 1.0) * q, Square(pd), (N + 1.0) * (Spread(N, p2, q) - m2));
  }

  lemma SquareOfMultiple(a: real, e: real)
    ensures Square(a * e) == a * a * Square(e)
  {
  }

  lemma EqualSquares(a: real, x: real, b: real, y: real)
    requires a * x == b * y
    ensures a * a * Square(x) == b * b * Square(y)
  {
    SquareOfMultiple(a, x);
    SquareOfMultiple(b, y);
  }

  lemma SpreadScaled(N: real, p2: real, m2: real, q: real)
    ensures N * ((N + 1.0) * (Spread(N, p2, q) - m2))
         == (N + 1.0) * (N * (p2 - m2)) + N * N * ((N + 1.0) * (N + 1.0) * q)
  {
  }

  lemma DilutedSum(n: real, j: real, N: real, D: real, A: real, R: real, P: real, X: real)
    requires N == n + j && N != 0.0
    requires N * X == (N + 1.0) * A + N * N * R
    requires A == D * n * j && R == P && N * N * P == n * n * D
    ensures X == D * n * (j + 1.0)
  {
    Regroup(n, j, N, D, A);
    CancelFactor(N, X, D * n * (j + 1.0));
  }

  lemma Regroup(n: real, j: real, N: real, D: real, A: real)
    requires N == n + j && A == D * n * j
    ensures (N + 1.0) * A + n * n * D == N * (D * n * (j + 1.0))
  {
  }

  lemma CancelFactor(c: real, x: real, y: real)
    requires c != 0.0 && c * x == c * y
    ensures x == y
  {
  }

  // The re-baselining bound: k learned copies of v push its squared score below n / k,
  // whatever the n samples before them were.
  lemma CopiesBoundScore(root: real -> real, s: Moments, v: real, k: nat)
    requires IsRoot(root) && s.n >= 1 && s.m2 >= 0.0 && k >= 1
    ensures Square(ZScore(root, LearnCopies(s, v, k), v)) * k as real < s.n as real
  {
    hide *;
    var t := LearnCopies(s, v, k);
    CopiesClosedForm(s, v, k);
    ZScoreSquared(root, t, v);
    SquareOfZero();
    var n, kr, N, d, dk := s.n as real, k as real, t.n as real, v - s.mean, v - t.mean;
    if t.m2 == 0.0 {
      assert Square(ZScore(root, t, v)) == 0.0;
    } else if d == 0.0 {
      OnMean(n, kr, d, s.m2, dk, t.m2);
      assert ZScore(root, t, v) == 0.0;
    } else {
      SquarePositive(d);
      DilutedFacts(n, kr, N, d, s.m2, dk, t.m2);
      assert (t.n - 1) as real == N - 1.0;
      BoundScore(n, kr, N, Square(d), Square(dk), t.m2, Square(ZScore(root, t, v)));
    }
  }

  lemma SquareOfZero()
    ensures Square(0.0) == 0.0
  {
  }

  lemma OnMean(n: real, k: real, d: real, m2: real, dk: real, m2k: real)
    requires n >= 1.0 && k >= 1.0 && d == 0.0 && Diluted(n, k, d, m2, dk, m2k)
    ensures dk == 0.0
  {
    CancelFactor(n + k, dk, 0.0);
  }

  predicate Comparable(n: real, k: real, N: real, D: real, DK: real, m2: real) {
    N * N * DK == n * n * D && N * m2 >= D * n * k
  }

  lemma DilutedFacts(n: real, k: real, N: real, d: real, m2: real, dk: real, m2k: real)
    requires N == n + k && N >= 0.0 && m2 >= 0.0 && Diluted(n, k, d, m2, dk, m2k)
    ensures Comparable(n, k, N, Square(d), Square(dk), m2k)
  {
    EqualSquares(N, dk, n, d);
    hide Square;
    assert N * (m2k - m2) == N * m2k - N * m2;
    assert N * m2 >= 0.0;
  }

  lemma BoundScore(n: real, k: real, N: real, D: real, DK: real, m2: real, z2: real)
    requires n >= 1.0 && k >= 1.0 && N == n + k && D > 0.0 && m2 > 0.0
    requires Comparable(n, k, N, D, DK, m2) && z2 * m2 == DK * (N - 1.0)
    ensures z2 * k < n
  {
    var W := n * n * D * k;
    ProductPositive(n, n);
    ProductPositive(n * n, D);
    ProductPositive(n * n * D, k);
    ScoreSide(n, k, N, D, DK, m2, z2, W);
    CountSide(n, k, N, D, m2, W);
    ProductPositive(N, N);
    ProductPositive(N * N, m2);
    if z2 * k >= n {
      ScaleMonotone(n, z2 * k, N * N * m2);
    }
  }

  lemma ScoreSide(n: real, k: real, N: real, D: real, DK: real, m2: real, z2: real, W: real)
    requires N * N * DK == n * n * D && z2 * m2 == DK * (N - 1.0) && W == n * n * D * k
    ensures (z2 * k) * (N * N * m2) == (N - 1.0) * W
  {
    calc {
      (z2 * k) * (N * N * m2);
    ==
      k * (N * N) * (z2 * m2);
    ==
      k * (N - 1.0) * (N * N * DK);
    ==
      (N - 1.0) * W;
    }
  }

  lemma CountSide(n: real, k: real, N: real, D: real, m2: real, W: real)
    requires n >= 1.0 && N >= 1.0 && N * m2 >= D * n * k && W == n * n * D * k
    ensures n * (N * N * m2) >= N * W
  {
    ScaleMonotone(D * n * k, N * m2, n * N);
    assert (D * n * k) * (n * N) == N * W;
    assert (N * m2) * (n * N) == n * (N * N * m2);
  }

  // With a ninth as many copies learned as there were samples, v no longer scores 3.
  lemma CopiesEndDetection(root: real -> real, s: Moments, v: real, k: nat)
    requires IsRoot(root) && s.m2 >= 0.0 && (s.n == 0 ==> s.m2 == 0.0) && 9 * k >= s.n
    ensures ZScore(root, LearnCopies(s, v, k), v) < 3.0
  {
    hide *;
    if s.n == 0 {
      var t := LearnCopies(s, v, k);
      CopiesClosedForm(s, v, k);
      if k >= 1 {
        NoSpread(k as real, v - s.mean, v - t.mean, t.m2);
      }
      ZScoreSquared(root, t, v);
      return;
    }
    CopiesBoundScore(root, s, v, k);
    BelowThree(ZScore(root, LearnCopies(s, v, k), v), k as real, s.n as real);
  }

  lemma NoSpread(k: real, d: real, dk: real, m2k: real)
    requires k >= 1.0 && Diluted(0.0, k, d, 0.0, dk, m2k)
    ensures m2k == 0.0
  {
    CancelFactor(k, m2k, 0.0);
  }

  lemma BelowThree(z: real, k: real, n: real)
    requires Square(z) * k < n && 9.0 * k >= n && k >= 0.0
    ensures z < 3.0
  {
    if z >= 3.0 {
      if z > 3.0 {
        SquareGrows(3.0, z);
      }
      ScaleMonotone(9.0, Square(z), k);
    }
  }
}
