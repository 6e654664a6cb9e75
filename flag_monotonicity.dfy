/** Raising one day's failures can only add that day to the flagged set.
    The mean and the variance move with the raised coefficient, so the proof
    rewrites the threshold test without division: for n days, A the sum of
    the other days' coefficients and B the sum of their squares, day i is
    flagged exactly when (n - 1) * c > A and Growth(n, A, B, c) > 0, where c
    is its coefficient. Both sides only grow with c once the first holds. */
module FlagMonotonicity {
  import opened AnomalyDetector

  function Sq(x: real): real
  {
    x * x
  }

  function SumSq(xs: seq<real>): real
  {
    if xs == [] then 0.0 else Sq(xs[0]) + SumSq(xs[1..])
  }

  /** n^2 times (squared deviation minus variance), written in the other
      days' sum `a` and sum of squares `b`. */
  function Growth(n: real, a: real, b: real, c: real): real
  {
    (n - 1.0) * (n - 2.0) * c * c - 2.0 * (n - 2.0) * a * c + 2.0 * a * a - n * b
  }

  lemma {:induction false} SumUpdate(cs: seq<real>, i: nat, x: real)
    requires i < |cs|
    ensures Sum(cs[i := x]) == Sum(cs) - cs[i] + x
  {
    if i == 0 {
      assert cs[i := x][1..] == cs[1..];
    } else {
      assert cs[i := x][1..] == cs[1..][i - 1 := x];
      SumUpdate(cs[1..], i - 1, x);
    }
  }

  lemma {:induction false} SumSqUpdate(cs: seq<real>, i: nat, x: real)
    requires i < |cs|
    ensures SumSq(cs[i := x]) == SumSq(cs) - Sq(cs[i]) + Sq(x)
  {
    if i == 0 {
      assert cs[i := x][1..] == cs[1..];
    } else {
      assert cs[i := x][1..] == cs[1..][i - 1 := x];
      SumSqUpdate(cs[1..], i - 1, x);
    }
  }

  /** The sum of the squared deviations from m of k values with sum s and
      sum of squares q. */
  function ClosedForm(q: real, s: real, k: real, m: real): real
  {
    q - 2.0 * m * s + k * m * m
  }

  /** The sum of squared deviations in closed form. */
  lemma {:induction false} SquaredDeviationsExpanded(cs: seq<real>, m: real)
    ensures SquaredDeviations(cs, m) == ClosedForm(SumSq(cs), Sum(cs), |cs| as real, m)
  {
    if cs == [] {
      assert |cs| as real * m == 0.0;
    } else {
      var x, rest := cs[0], cs[1..];
      SquaredDeviationsExpanded(rest, m);
      assert SquaredDeviations(cs, m) == Sq(x - m) + SquaredDeviations(rest, m);
      ExpansionStep(x, m, SumSq(rest), Sum(rest), |rest| as real);
      assert SumSq(cs) == Sq(x) + SumSq(rest) && Sum(cs) == x + Sum(rest);
      assert |cs| as real == |rest| as real + 1.0;
    }
  }

  /** One more value in the closed form of the squared deviations. */
  lemma ExpansionStep(x: real, m: real, q: real, s: real, k: real)
    ensures Sq(x - m) + ClosedForm(q, s, k, m) == ClosedForm(Sq(x) + q, x + s, k + 1.0, m)
  {
  }

  /** n^2 times the variance of n values with sum s and sum of squares q. */
  lemma ScaledVariance(n: real, s: real, q: real)
    requires n > 0.0
    ensures n * n * ((q - 2.0 * (s / n) * s + n * (s / n) * (s / n)) / n) == n * q - s * s
  {
  }

  /** n^2 times the squared deviation of c from the mean s / n. */
  lemma ScaledDeviation(n: real, s: real, c: real)
    requires n > 0.0
    ensures n * n * ((c - s / n) * (c - s / n)) == (n * c - s) * (n * c - s)
    ensures c - s / n > 0.0 <==> n * c - s > 0.0
  {
  }

  lemma GrowthIdentity(n: real, s: real, q: real, c: real)
    ensures (n * c - s) * (n * c - s) - (n * q - s * s) == Growth(n, s - c, q - Sq(c), c)
  {
  }

  /** Multiplying by a positive factor keeps a strict comparison. */
  lemma ScaleGt(k: real, x: real, y: real)
    requires k > 0.0
    ensures x > y <==> k * x > k * y
  {
  }

  /** Multiplying by the square of a positive factor keeps a strict
      comparison. */
  lemma ScaleBySquare(n: real, x: real, y: real, x': real, y': real)
    requires n > 0.0 && x' == n * n * x && y' == n * n * y
    ensures x > y <==> x' > y'
  {
    ScaleGt(n, x, y);
    ScaleGt(n, n * x, n * y);
    assert n * (n * x) == x' && n * (n * y) == y';
  }

  /** The division-free threshold test for a coefficient c among n days
      whose other coefficients sum to a, with squares summing to b. */
  ghost predicate FlagTest(n: real, a: real, b: real, c: real)
  {
    (n - 1.0) * c > a && Growth(n, a, b, c) > 0.0
  }

  /** The mean of n values with sum s. */
  function MeanOf(n: real, s: real): real
    requires n > 0.0
  {
    s / n
  }

  /** The population variance of n values with sum s and sum of squares q. */
  function VarianceOf(n: real, s: real, q: real): real
    requires n > 0.0
  {
    (q - 2.0 * MeanOf(n, s) * s + n * MeanOf(n, s) * MeanOf(n, s)) / n
  }

  /** The mean and the variance of a non-empty list depend only on its
      length, its sum and its sum of squares. */
  lemma MeanAndVariance(cs: seq<real>)
    requires |cs| > 0
    ensures Mean(cs) == MeanOf(|cs| as real, Sum(cs))
    ensures Variance(cs) == VarianceOf(|cs| as real, Sum(cs), SumSq(cs))
  {
    SquaredDeviationsExpanded(cs, Mean(cs));
    VarianceFromExpansion(|cs| as real, Sum(cs), SumSq(cs), Mean(cs), SquaredDeviations(cs, Mean(cs)), Variance(cs));
  }

  lemma VarianceFromExpansion(n: real, s: real, q: real, m: real, sd: real, v: real)
    requires n > 0.0 && m == s / n && sd == ClosedForm(q, s, n, m) && v == sd / n
    ensures v == VarianceOf(n, s, q)
  {
  }

  /** The threshold test over n values with sum s and sum of squares q,
      rewritten without division. */
  lemma ThresholdWithoutDivision(n: real, s: real, q: real, c: real)
    requires n > 0.0
    ensures Exceeds(c, MeanOf(n, s), VarianceOf(n, s, q)) <==> FlagTest(n, s - c, q - Sq(c), c)
  {
    var m, v := MeanOf(n, s), VarianceOf(n, s, q);
    var d := c - m;
    var scaled, spread := (n * c - s) * (n * c - s), n * q - s * s;
    ScaledVariance(n, s, q);
    ScaledDeviation(n, s, c);
    ScaleBySquare(n, d * d, v, scaled, spread);
    GrowthIdentity(n, s, q, c);
    assert scaled > spread <==> Growth(n, s - c, q - Sq(c), c) > 0.0;
    assert d > 0.0 <==> (n - 1.0) * c > s - c;
  }

  /** Day i is flagged exactly when the division-free test holds. */
  lemma FlaggedWithoutDivision(cs: seq<real>, i: nat)
    requires i < |cs|
    ensures AboveThreshold(cs, i) <==> FlagTest(|cs| as real, Sum(cs) - cs[i], SumSq(cs) - Sq(cs[i]), cs[i])
  {
    var n := |cs| as real;
    MeanAndVariance(cs);
    assert AboveThreshold(cs, i) == Exceeds(cs[i], MeanOf(n, Sum(cs)), VarianceOf(n, Sum(cs), SumSq(cs)));
    ThresholdWithoutDivision(n, Sum(cs), SumSq(cs), cs[i]);
  }

  lemma NonNegativeProduct(x: real, y: real)
    requires x >= 0.0 && y >= 0.0
    ensures x * y >= 0.0
  {
  }

  lemma GrowthDifference(n: real, a: real, b: real, c: real, c': real)
    ensures Growth(n, a, b, c') - Growth(n, a, b, c) == (n - 2.0) * ((c' - c) * ((n - 1.0) * (c' + c) - 2.0 * a))
  {
  }

  /** Once (n - 1) * c > a, raising c keeps that and does not lower Growth. */
  lemma {:induction false} GrowthMonotone(n: real, a: real, b: real, c: real, c': real)
    requires n >= 2.0 && (n - 1.0) * c > a && c <= c'
    ensures (n - 1.0) * c' > a
    ensures Growth(n, a, b, c) <= Growth(n, a, b, c')
  {
    assert (n - 1.0) * c <= (n - 1.0) * c' by {
      NonNegativeProduct(n - 1.0, c' - c);
    }
    assert (n - 1.0) * (c' + c) - 2.0 * a > 0.0;
    NonNegativeProduct(c' - c, (n - 1.0) * (c' + c) - 2.0 * a);
    NonNegativeProduct(n - 2.0, (c' - c) * ((n - 1.0) * (c' + c) - 2.0 * a));
    GrowthDifference(n, a, b, c, c');
  }

  /** Raising the coefficient keeps the division-free test passing. */
  lemma FlagTestMonotone(n: real, a: real, b: real, c: real, c': real)
    requires n >= 2.0 && c <= c' && FlagTest(n, a, b, c)
    ensures FlagTest(n, a, b, c')
  {
    GrowthMonotone(n, a, b, c, c');
  }

  /** A lone day equals the mean and is never flagged. */
  lemma SingleDayNotFlagged(c: real)
    ensures !AboveThreshold([c], 0)
  {
    assert Sum([c]) == c;
  }

  /** Raising one coefficient never unflags its day, whatever it does to the
      mean and the variance. */
  lemma {:induction false} RaisingKeepsFlag(cs: seq<real>, i: nat, x: real)
    requires i < |cs| && cs[i] <= x && AboveThreshold(cs, i)
    ensures AboveThreshold(cs[i := x], i)
  {
    var cs' := cs[i := x];
    var n := |cs| as real;
    FlaggedWithoutDivision(cs, i);
    FlaggedWithoutDivision(cs', i);
    SumUpdate(cs, i, x);
    SumSqUpdate(cs, i, x);
    var a, b := Sum(cs) - cs[i], SumSq(cs) - Sq(cs[i]);
    assert Sum(cs') - x == a && SumSq(cs') - Sq(x) == b;
    assert |cs| == 1 ==> cs == [cs[i]];
    SingleDayNotFlagged(cs[i]);
    FlagTestMonotone(n, a, b, cs[i], x);
  }

  /** More failed builds on a flagged day keep it flagged, although the mean
      and the deviation of all the days move with it. */
  lemma FlagMonotoneInFailed(passed: seq<nat>, failed: seq<nat>, i: nat, f: nat)
    requires |passed| == |failed| && i < |failed| && failed[i] <= f
    requires AboveThreshold(Coefficients(passed, failed), i)
    ensures AboveThreshold(Coefficients(passed, failed[i := f]), i)
  {
    var cs := Coefficients(passed, failed);
    var x := Coefficient(passed[i], f);
    CoefficientMonotoneInFailed(passed[i], failed[i], f);
    assert Coefficients(passed, failed[i := f]) == cs[i := x];
    RaisingKeepsFlag(cs, i, x);
  }
}
