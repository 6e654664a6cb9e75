/** The anomaly detector: flags the days whose abnormality coefficient is
    strictly above the mean plus one population standard deviation of all
    the days' coefficients.

    Coefficients are exact rationals (`real`). The standard deviation is
    never taken: with d = c - mean, the test `c > mean + sd` is the same as
    `d > 0 && d * d > variance` because sd >= 0 and sd * sd == variance
    (lemma ThresholdBySquares). */
module AnomalyDetector {

  /** The abnormality coefficient of one day. With at least one passed build
      it is the failure rate; with none it is 0.2 per failed build up to five
      of them, and 1 beyond. The branch is on `passed` alone, not on the day's
      total. */
  function Coefficient(passed: nat, failed: nat): (c: real)
    ensures 0.0 <= c <= 1.0
    ensures c == 0.0 <==> failed == 0
    ensures c == 1.0 <==> (passed == 0 && failed >= 5)
  {
    if passed != 0 then
      FractionBounds(failed, passed + failed);
      failed as real / (passed + failed) as real
    else if failed <= 5 then 0.2 * failed as real
    else 1.0
  }

  /** a / b lies in [0, 1], and reaches 0 and 1 only at a == 0 and a == b. */
  lemma FractionBounds(a: nat, b: nat)
    requires a <= b && b > 0
    ensures 0.0 <= a as real / b as real <= 1.0
    ensures a as real / b as real == 0.0 <==> a == 0
    ensures a as real / b as real == 1.0 <==> a == b
  {
  }

  /** The coefficient of every day, aligned with the input arrays. */
  function Coefficients(passed: seq<nat>, failed: seq<nat>): (cs: seq<real>)
    requires |passed| == |failed|
    ensures |cs| == |passed|
    ensures forall i :: 0 <= i < |cs| ==> cs[i] == Coefficient(passed[i], failed[i])
    ensures forall i :: 0 <= i < |cs| ==> 0.0 <= cs[i] <= 1.0 && (cs[i] == 0.0 <==> failed[i] == 0)
  {
    seq(|passed|, i requires 0 <= i < |passed| => Coefficient(passed[i], failed[i]))
  }

  function Sum(xs: seq<real>): real
  {
    if xs == [] then 0.0 else xs[0] + Sum(xs[1..])
  }

  /** The arithmetic mean; 0 for no days, a case in which nothing is flagged
      whatever its value. */
  function Mean(cs: seq<real>): (m: real)
    ensures |cs| > 0 ==> m * |cs| as real == Sum(cs)
  {
    if |cs| == 0 then 0.0 else Sum(cs) / |cs| as real
  }

  /** The sum of the squared deviations from `mean`. */
  function SquaredDeviations(cs: seq<real>, mean: real): (s: real)
    ensures s >= 0.0
  {
    if cs == [] then 0.0
    else
      SquareNonNegative(cs[0] - mean);
      (cs[0] - mean) * (cs[0] - mean) + SquaredDeviations(cs[1..], mean)
  }

  lemma SquareNonNegative(x: real)
    ensures x * x >= 0.0
  {
  }

  /** The population variance: divisor N, not N - 1. */
  function Variance(cs: seq<real>): (v: real)
    ensures v >= 0.0
  {
    if |cs| == 0 then 0.0 else SquaredDeviations(cs, Mean(cs)) / |cs| as real
  }

  /** Day i is abnormal: its coefficient exceeds the mean by more than one
      standard deviation, written without the square root. */
  ghost predicate AboveThreshold(cs: seq<real>, i: int): (above: bool)
    requires 0 <= i < |cs|
    ensures above ==> cs[i] > Mean(cs)
  {
    Exceeds(cs[i], Mean(cs), Variance(cs))
  }

  /** c lies above mean + sd, for sd the square root of `variance`. */
  predicate Exceeds(c: real, mean: real, variance: real): (above: bool)
    ensures above ==> c > mean
  {
    var d := c - mean;
    d > 0.0 && d * d > variance
  }

  /** Strictly increasing, so each index appears once. */
  ghost predicate Increasing(a: seq<nat>)
  {
    forall k, l :: 0 <= k < l < |a| ==> a[k] < a[l]
  }

  /** `r` lists, in increasing order and each once, exactly the abnormal days. */
  ghost predicate AbnormalDays(cs: seq<real>, r: seq<nat>)
  {
    && (forall k :: 0 <= k < |r| ==> r[k] < |cs|)
    && Increasing(r)
    && (forall i :: 0 <= i < |cs| ==> (i in r <==> AboveThreshold(cs, i)))
  }

  /** The squared form of the threshold is the source's `c > mean + sd` for
      the non-negative square root sd of the variance. */
  lemma ThresholdBySquares(c: real, mean: real, variance: real, sd: real)
    requires sd >= 0.0 && sd * sd == variance
    ensures c > mean + sd <==> Exceeds(c, mean, variance)
  {
    var d := c - mean;
    if d > sd {
      assert d * d - sd * sd == (d - sd) * (d + sd);
      assert d - sd > 0.0 && d + sd > 0.0;
      PositiveProduct(d - sd, d + sd);
    }
    if d > 0.0 && d <= sd {
      assert d * d <= d * sd;
      assert d * sd <= sd * sd;
    }
  }

  lemma PositiveProduct(x: real, y: real)
    requires x > 0.0 && y > 0.0
    ensures x * y > 0.0
  {
  }

  /** findAbnormal: the coefficients, their mean and variance, then one pass
      collecting the indices above the threshold. */
  method FindAbnormal(passed: seq<nat>, failed: seq<nat>) returns (abnormal: seq<nat>)
    requires |passed| == |failed|
    ensures AbnormalDays(Coefficients(passed, failed), abnormal)
    ensures forall k :: 0 <= k < |abnormal| ==>
              Coefficients(passed, failed)[abnormal[k]] > Mean(Coefficients(passed, failed))
    ensures |abnormal| <= |passed|
    ensures |passed| > 0 ==> |abnormal| < |passed|
  {
    var cs := Coefficients(passed, failed);
    var mean := Mean(cs);
    var variance := Variance(cs);
    abnormal := [];
    ghost var skipped := false;
    var i := 0;
    while i < |cs|
      invariant 0 <= i <= |cs|
      invariant forall k :: 0 <= k < |abnormal| ==> abnormal[k] < i
      invariant Increasing(abnormal)
      invariant forall j :: 0 <= j < i ==> (j in abnormal <==> Exceeds(cs[j], mean, variance))
      invariant |abnormal| <= i
      invariant skipped ==> |abnormal| < i
      invariant !skipped ==> forall j :: 0 <= j < i ==> Exceeds(cs[j], mean, variance)
    {
      if Exceeds(cs[i], mean, variance) {
        abnormal := abnormal + [i];
      } else {
        skipped := true;
      }
      i := i + 1;
    }
    if !skipped && |cs| > 0 {
      NotAllAbnormal(cs);
    }
  }

  lemma {:induction false} SumOfConstant(cs: seq<real>, c: real)
    requires forall i :: 0 <= i < |cs| ==> cs[i] == c
    ensures Sum(cs) == |cs| as real * c
  {
    if cs != [] {
      SumOfConstant(cs[1..], c);
    }
  }

  lemma {:induction false} SumAbove(cs: seq<real>, m: real)
    requires |cs| > 0
    requires forall i :: 0 <= i < |cs| ==> cs[i] > m
    ensures Sum(cs) > |cs| as real * m
  {
    if |cs| > 1 {
      SumAbove(cs[1..], m);
    }
  }

  /** Not every day can lie above the mean, so some day is never flagged. */
  lemma NotAllAbnormal(cs: seq<real>)
    requires |cs| > 0
    ensures exists i :: 0 <= i < |cs| && !AboveThreshold(cs, i)
  {
    var n := |cs| as real;
    assert Mean(cs) * n == Sum(cs);
    if forall i :: 0 <= i < |cs| ==> cs[i] > Mean(cs) {
      SumAbove(cs, Mean(cs));
      assert false;
    }
    var i :| 0 <= i < |cs| && cs[i] <= Mean(cs);
    assert !AboveThreshold(cs, i);
  }

  /** When every day has the same coefficient (a single day in particular)
      the deviation is 0 and no day is flagged. */
  lemma ConstantNotAbnormal(cs: seq<real>)
    requires forall i :: 0 <= i < |cs| ==> cs[i] == cs[0]
    ensures AbnormalDays(cs, [])
  {
    if |cs| > 0 {
      SumOfConstant(cs, cs[0]);
      assert Mean(cs) == cs[0];
    }
  }

  /** The list of abnormal days is determined by the coefficients: any two
      lists meeting AbnormalDays are the same list. */
  lemma {:induction false} AbnormalDaysUnique(cs: seq<real>, a: seq<nat>, b: seq<nat>)
    requires AbnormalDays(cs, a) && AbnormalDays(cs, b)
    ensures a == b
  {
    assert forall x :: x in a <==> x in b by {
      forall x ensures x in a <==> x in b {
        if x in a {
          var k :| 0 <= k < |a| && a[k] == x;
          assert x < |cs|;
        }
        if x in b {
          var k :| 0 <= k < |b| && b[k] == x;
          assert x < |cs|;
        }
      }
    }
    IncreasingUnique(a, b);
  }

  lemma {:induction false} IncreasingUnique(a: seq<nat>, b: seq<nat>)
    requires Increasing(a) && Increasing(b)
    requires forall x :: x in a <==> x in b
    ensures a == b
  {
    assert (a != [] ==> a[0] in b) && (b != [] ==> b[0] in a);
    if a != [] && b != [] {
      IncreasingSameHead(a, b);
      forall x ensures x in a[1..] ==> x in b[1..] {
        if x in a[1..] { IncreasingSameTail(a, b, x); }
      }
      forall x ensures x in b[1..] ==> x in a[1..] {
        if x in b[1..] { IncreasingSameTail(b, a, x); }
      }
      IncreasingUnique(a[1..], b[1..]);
      assert a == [a[0]] + a[1..] && b == [b[0]] + b[1..];
    }
  }

  /** Both lists start with their least element, which they share. */
  lemma IncreasingSameHead(a: seq<nat>, b: seq<nat>)
    requires Increasing(a) && Increasing(b) && |a| > 0 && |b| > 0
    requires forall x :: x in a <==> x in b
    ensures a[0] == b[0]
  {
    assert a[0] in b && b[0] in a;
    var i :| 0 <= i < |a| && a[i] == b[0];
    var j :| 0 <= j < |b| && b[j] == a[0];
    assert a[0] <= a[i] && b[0] <= b[j];
  }

  lemma IncreasingSameTail(a: seq<nat>, b: seq<nat>, x: nat)
    requires Increasing(a) && |a| > 0 && |b| > 0 && a[0] == b[0]
    requires forall y :: y in a <==> y in b
    requires x in a[1..]
    ensures x in b[1..]
  {
    var i :| 1 <= i < |a| && a[i] == x;
    assert x > a[0] && x in a;
    var k :| 0 <= k < |b| && b[k] == x;
    assert k != 0 && b[1..][k - 1] == x;
  }

  /** Cross-multiplication: a / b <= c / d for positive denominators when
      a * d <= c * b. */
  lemma FractionLe(a: real, b: real, c: real, d: real)
    requires b > 0.0 && d > 0.0 && a * d <= c * b
    ensures a / b <= c / d
  {
  }

  /** More failures never lower a day's coefficient, in either branch. */
  lemma CoefficientMonotoneInFailed(passed: nat, failed: nat, failed': nat)
    requires failed <= failed'
    ensures Coefficient(passed, failed) <= Coefficient(passed, failed')
  {
    if passed != 0 {
      var cross := failed * (passed + failed') - failed' * (passed + failed);
      assert cross == passed * (failed - failed');
      assert cross <= 0;
      FractionLe(failed as real, (passed + failed) as real, failed' as real, (passed + failed') as real);
    }
  }

  /** With at least one passed build, more passed builds never raise the
      coefficient. */
  lemma CoefficientAntitoneInPassed(passed: nat, passed': nat, failed: nat)
    requires 0 < passed <= passed'
    ensures Coefficient(passed', failed) <= Coefficient(passed, failed)
  {
    var cross := failed * (passed + failed) - failed * (passed' + failed);
    assert cross == failed * (passed - passed');
    assert cross <= 0;
    FractionLe(failed as real, (passed' + failed) as real, failed as real, (passed + failed) as real);
  }

  /** Going from zero passed builds to one can raise the coefficient: one
      failed build scores 0.2 with no passes and 0.5 with one. */
  lemma FirstPassRaisesCoefficient()
    ensures Coefficient(0, 1) == 0.2 && Coefficient(1, 1) == 0.5
    ensures Coefficient(0, 1) < Coefficient(1, 1)
  {
  }

  /** Zero passed and three failed builds take the fallback branch: 0.6. */
  lemma ZeroPassedFallback()
    ensures Coefficient(0, 3) == 0.6 && Coefficient(0, 6) == 1.0 && Coefficient(0, 0) == 0.0
  {
  }

  /** The strict inequality: coefficients 0 and 1 give mean 0.5 and standard
      deviation 0.5, so the second day sits exactly at the threshold and is
      not flagged. */
  lemma AtThresholdNotFlagged()
    ensures Coefficients([10, 0], [0, 10]) == [0.0, 1.0]
    ensures Mean([0.0, 1.0]) == 0.5 && Variance([0.0, 1.0]) == 0.25
    ensures 1.0 == Mean([0.0, 1.0]) + 0.5 && 0.5 * 0.5 == Variance([0.0, 1.0])
    ensures AbnormalDays(Coefficients([10, 0], [0, 10]), [])
  {
  }

  /** Failure rates 0, 0 and 0.9 give mean 0.3 and variance 0.18: only the
      third day is flagged. */
  lemma ClearOutlierFlagged()
    ensures Coefficients([10, 10, 1], [0, 0, 9]) == [0.0, 0.0, 0.9]
    ensures Mean([0.0, 0.0, 0.9]) == 0.3 && Variance([0.0, 0.0, 0.9]) == 0.18
    ensures AbnormalDays(Coefficients([10, 10, 1], [0, 0, 9]), [2])
  {
  }
}
