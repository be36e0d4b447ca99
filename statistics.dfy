/**
 * measure_results of dlsoo/util.py: each objective is sampled min_counts
 * times; the population mean and standard deviation are computed; one pass
 * over the samples drops those further than two standard deviations from the
 * mean; and the statistics are recomputed over what is left. The samples are
 * supplied as input. Over the reals the standard deviation is replaced by the
 * variance: |m - x| > 2 * sqrt(v) holds exactly when (m - x)^2 > 4 * v.
 */
module Statistics {
  import opened Wrappers
  import Measurements

  datatype StatsError = ZeroDivisionError

  /** mean, counts, variance (the square of dev) and variance / counts (the square of err) of one objective. */
  datatype Summary = Summary(mean: real, counts: nat, variance: real, errSquared: real)

  function Sum(s: seq<real>): real
  {
    if |s| == 0 then 0.0 else Sum(s[..|s| - 1]) + s[|s| - 1]
  }

  /** The std list: every sample squared. */
  function Squares(s: seq<real>): (q: seq<real>)
    ensures |q| == |s|
    ensures forall i :: 0 <= i < |s| ==> q[i] == s[i] * s[i]
  {
    seq(|s|, i requires 0 <= i < |s| => s[i] * s[i])
  }

  function Mean(s: seq<real>): real
    requires |s| > 0
  {
    Sum(s) / (|s| as real)
  }

  /** The population variance, computed as the source does: mean of squares minus squared mean. */
  function Variance(s: seq<real>): real
    requires |s| > 0
  {
    PopulationVariance(|s| as real, Sum(s), Sum(Squares(s)))
  }

  /** squares / n - (total / n)^2 for n samples adding up to total whose squares add up to squares. */
  function PopulationVariance(n: real, total: real, squares: real): real
    requires n > 0.0
  {
    squares / n - (total / n) * (total / n)
  }

  lemma {:induction false} SquaresAppend(s: seq<real>, x: real)
    ensures Squares(s + [x]) == Squares(s) + [x * x]
  {
    var l := Squares(s + [x]);
    var r := Squares(s) + [x * x];
    forall i | 0 <= i < |l|
      ensures l[i] == r[i]
    {
      if i == |s| {
        assert (s + [x])[i] == x;
      } else {
        assert (s + [x])[i] == s[i];
      }
    }
  }

  /** abs(mean - x) > 2 * standard_deviation, with the standard deviation given by its square v. */
  predicate Outlier(x: real, m: real, v: real)
  {
    (m - x) * (m - x) > 4.0 * v
  }

  /** The list with the element at index k deleted (list.remove / del at that index). */
  function Remove(s: seq<real>, k: nat): (r: seq<real>)
    requires k < |s|
    ensures |r| == |s| - 1
  {
    s[..k] + s[k + 1..]
  }

  /** list.index: the first position holding x. */
  function FirstIndex(s: seq<real>, x: real): (k: nat)
    requires x in s
    ensures k < |s| && s[k] == x
    ensures forall i :: 0 <= i < k ==> s[i] != x
  {
    if s[0] == x then 0 else 1 + FirstIndex(s[1..], x)
  }

  /**
   * The outlier pass, `for j in result` while removing from result: Python's
   * list iterator keeps a position i into the list it walks, so after a
   * removal the element that slides into position i - 1 is never looked at.
   * The removal itself deletes the first element equal to the tested one.
   */
  function Pass(s: seq<real>, i: nat, m: real, v: real): seq<real>
    decreases |s| - i
  {
    if i >= |s| then s
    else if Outlier(s[i], m, v) then Pass(Remove(s, FirstIndex(s, s[i])), i + 1, m, v)
    else Pass(s, i + 1, m, v)
  }

  /** What the pass keeps of the raw samples, tested against the raw mean and variance. */
  function Kept(samples: seq<real>): seq<real>
    requires |samples| > 0
  {
    Pass(samples, 0, Mean(samples), Variance(samples))
  }

  /** The samples that are not outliers of (m, v), in order. */
  function Inliers(s: seq<real>, m: real, v: real): (r: seq<real>)
    ensures |r| <= |s|
  {
    if |s| == 0 then [] else Inliers(s[..|s| - 1], m, v) + (if Outlier(s[|s| - 1], m, v) then [] else [s[|s| - 1]])
  }

  // ---------------------------------------------------------------------
  // The outlier pass

  lemma {:induction false} InliersAppend(a: seq<real>, b: seq<real>, m: real, v: real)
    ensures Inliers(a + b, m, v) == Inliers(a, m, v) + Inliers(b, m, v)
    decreases |b|
  {
    if |b| > 0 {
      assert (a + b)[..|a + b| - 1] == a + b[..|b| - 1];
      InliersAppend(a, b[..|b| - 1], m, v);
    } else {
      assert a + b == a;
    }
  }

  /** Deleting an outlier leaves the inliers as they were. */
  lemma {:induction false} RemoveOutlier(s: seq<real>, k: nat, m: real, v: real)
    requires k < |s| && Outlier(s[k], m, v)
    ensures Inliers(Remove(s, k), m, v) == Inliers(s, m, v)
    ensures multiset(Remove(s, k)) + multiset{s[k]} == multiset(s)
  {
    assert s == s[..k] + [s[k]] + s[k + 1..];
    InliersAppend(s[..k] + [s[k]], s[k + 1..], m, v);
    InliersAppend(s[..k], [s[k]], m, v);
    InliersAppend(s[..k], s[k + 1..], m, v);
    assert Inliers([s[k]], m, v) == [] by {
      assert [s[k]][..0] == [];
    }
  }

  /**
   * The pass only ever deletes outliers: every inlier survives, in order,
   * the survivors are drawn from the input, and there are at least as many
   * survivors as inliers.
   */
  lemma {:induction false} PassKeepsInliers(s: seq<real>, i: nat, m: real, v: real)
    ensures Inliers(Pass(s, i, m, v), m, v) == Inliers(s, m, v)
    ensures multiset(Pass(s, i, m, v)) <= multiset(s)
    ensures |Pass(s, i, m, v)| >= |Inliers(s, m, v)|
    decreases |s| - i
  {
    if i < |s| {
      if Outlier(s[i], m, v) {
        var k := FirstIndex(s, s[i]);
        RemoveOutlier(s, k, m, v);
        PassKeepsInliers(Remove(s, k), i + 1, m, v);
      } else {
        PassKeepsInliers(s, i + 1, m, v);
      }
    }
  }

  /** Without outliers the pass keeps everything. */
  lemma {:induction false} PassWithoutOutliers(s: seq<real>, i: nat, m: real, v: real)
    requires forall x :: x in s ==> !Outlier(x, m, v)
    ensures Pass(s, i, m, v) == s
    decreases |s| - i
  {
    if i < |s| {
      assert s[i] in s;
      PassWithoutOutliers(s, i + 1, m, v);
    }
  }

  // ---------------------------------------------------------------------
  // Fewer than a quarter of the samples lie beyond two standard deviations

  /** The sum of squared distances from m. */
  function Spread(s: seq<real>, m: real): real
  {
    if |s| == 0 then 0.0 else Spread(s[..|s| - 1], m) + (s[|s| - 1] - m) * (s[|s| - 1] - m)
  }

  lemma {:induction false} SpreadExpanded(s: seq<real>, m: real)
    ensures Spread(s, m) == Sum(Squares(s)) - 2.0 * m * Sum(s) + (|s| as real) * m * m
  {
    if |s| > 0 {
      var p := s[..|s| - 1];
      SpreadExpanded(p, m);
      ExpandedLast(s, m);
    }
  }

  /** The expansion carries over from all samples but the last to all samples. */
  lemma ExpandedLast(s: seq<real>, m: real)
    requires |s| > 0
    requires var p := s[..|s| - 1];
             Spread(p, m) == Sum(Squares(p)) - 2.0 * m * Sum(p) + (|p| as real) * m * m
    ensures Spread(s, m) == Sum(Squares(s)) - 2.0 * m * Sum(s) + (|s| as real) * m * m
  {
    var p := s[..|s| - 1];
    LastStep(s, m);
    SpreadStep(Spread(p, m), Sum(Squares(p)), Sum(p), |p| as real, s[|s| - 1], m,
               Spread(s, m), Sum(Squares(s)), Sum(s), |s| as real);
  }

  /** Spread, Sum and Sum of Squares each add the last sample's term to the prefix's. */
  lemma LastStep(s: seq<real>, m: real)
    requires |s| > 0
    ensures var p, x := s[..|s| - 1], s[|s| - 1];
            && Spread(s, m) == Spread(p, m) + (x - m) * (x - m)
            && Sum(Squares(s)) == Sum(Squares(p)) + x * x
            && Sum(s) == Sum(p) + x
            && (|s| as real) == (|p| as real) + 1.0
  {
    SquaresPrefix(s);
  }

  lemma {:induction false} SquaresPrefix(s: seq<real>)
    requires |s| > 0
    ensures Squares(s)[..|s| - 1] == Squares(s[..|s| - 1])
  {
    var p := s[..|s| - 1];
    forall i | 0 <= i < |p|
      ensures Squares(s)[i] == Squares(p)[i]
    {
    }
  }

  lemma SpreadStep(spread: real, squares: real, total: real, k: real, x: real, m: real,
                   spread': real, squares': real, total': real, k': real)
    requires spread == squares - 2.0 * m * total + k * m * m
    requires spread' == spread + (x - m) * (x - m) && squares' == squares + x * x
    requires total' == total + x && k' == k + 1.0
    ensures spread' == squares' - 2.0 * m * total' + k' * m * m
  {
    assert (x - m) * (x - m) == x * x - 2.0 * m * x + m * m;
    assert k' * m * m == k * m * m + m * m;
    assert 2.0 * m * total' == 2.0 * m * total + 2.0 * m * x;
  }

  /** Around the mean the squared distances add up to n times the variance. */
  lemma {:induction false} SpreadIsVariance(s: seq<real>)
    requires |s| > 0
    ensures Spread(s, Mean(s)) == (|s| as real) * Variance(s)
  {
    SpreadExpanded(s, Mean(s));
    MeanAlgebra(|s| as real, Sum(s), Sum(Squares(s)), Mean(s), Spread(s, Mean(s)));
  }

  lemma MeanAlgebra(n: real, total: real, squares: real, m: real, spread: real)
    requires n > 0.0 && m == total / n
    requires spread == squares - 2.0 * m * total + n * m * m
    ensures spread == n * PopulationVariance(n, total, squares)
  {
    assert total == n * m;
    assert squares == n * (squares / n);
    assert 2.0 * m * total == 2.0 * n * m * m;
  }

  lemma {:induction false} SpreadNonNegative(s: seq<real>, m: real)
    ensures Spread(s, m) >= 0.0
  {
    if |s| > 0 {
      SpreadNonNegative(s[..|s| - 1], m);
      SquareNonNegative(s[|s| - 1] - m);
    }
  }

  lemma SquareNonNegative(x: real)
    ensures x * x >= 0.0
  {
    if x < 0.0 {
      assert x * x == (-x) * (-x);
    }
  }

  /** The variance of a non-empty sample is never negative, so its square root exists. */
  lemma {:induction false} VarianceNonNegative(s: seq<real>)
    requires |s| > 0
    ensures Variance(s) >= 0.0
  {
    SpreadIsVariance(s);
    SpreadNonNegative(s, Mean(s));
    FactorNonNegative(|s| as real, Variance(s));
  }

  lemma FactorNonNegative(n: real, x: real)
    requires n > 0.0 && n * x >= 0.0
    ensures x >= 0.0
  {
  }

  /** Each outlier adds more than 4v to the spread, each inlier at least nothing. */
  lemma {:induction false} SpreadCoversOutliers(s: seq<real>, m: real, v: real)
    ensures Spread(s, m) >= 4.0 * v * ((|s| - |Inliers(s, m, v)|) as real)
    ensures |Inliers(s, m, v)| < |s| ==> Spread(s, m) > 4.0 * v * ((|s| - |Inliers(s, m, v)|) as real)
  {
    if |s| > 0 {
      var p := s[..|s| - 1];
      var x := s[|s| - 1];
      SpreadCoversOutliers(p, m, v);
      SquareNonNegative(x - m);
      var c := (|p| - |Inliers(p, m, v)|) as real;
      if Outlier(x, m, v) {
        assert (|s| - |Inliers(s, m, v)|) as real == c + 1.0;
        assert 4.0 * v * (c + 1.0) == 4.0 * v * c + 4.0 * v;
      } else {
        assert (|s| - |Inliers(s, m, v)|) as real == c;
      }
    }
  }

  /**
   * Chebyshev's bound for two standard deviations: more than three quarters
   * of the samples lie within two standard deviations of the mean.
   */
  lemma {:induction false} MostAreInliers(s: seq<real>)
    requires |s| > 0
    ensures |Inliers(s, Mean(s), Variance(s))| * 4 > |s| * 3
  {
    var m := Mean(s);
    var v := Variance(s);
    SpreadIsVariance(s);
    SpreadCoversOutliers(s, m, v);
    VarianceNonNegative(s);
    CountAlgebra(|s|, |Inliers(s, m, v)|, v, Spread(s, m));
  }

  /** Chebyshev's counting step on plain numbers: total * v covers four v per outlier. */
  lemma CountAlgebra(total: nat, inliers: nat, v: real, spread: real)
    requires total > 0 && v >= 0.0 && spread == (total as real) * v
    requires inliers < total ==> spread > 4.0 * v * ((total - inliers) as real)
    ensures inliers * 4 > total * 3
  {
    if inliers < total {
      var n := total as real;
      var c := (total - inliers) as real;
      assert v * (n - 4.0 * c) > 0.0;
      FactorPositive(v, n - 4.0 * c);
    }
  }

  lemma FactorPositive(v: real, d: real)
    requires v >= 0.0 && v * d > 0.0
    ensures d > 0.0
  {
  }

  /** The pass keeps more than three quarters of the samples, so at least one. */
  lemma {:induction false} KeptMostSamples(samples: seq<real>)
    requires |samples| > 0
    ensures |Kept(samples)| * 4 > |samples| * 3
    ensures |Kept(samples)| >= 1
    ensures multiset(Kept(samples)) <= multiset(samples)
    ensures Inliers(Kept(samples), Mean(samples), Variance(samples)) == Inliers(samples, Mean(samples), Variance(samples))
  {
    PassKeepsInliers(samples, 0, Mean(samples), Variance(samples));
    MostAreInliers(samples);
  }

  // ---------------------------------------------------------------------
  // One objective

  /** The summary measure_results reports for one objective's samples: the statistics of the kept samples. */
  function Summarise(samples: seq<real>): (r: Summary)
    requires |samples| > 0
    ensures r.counts == |Kept(samples)| >= 1
  {
    var kept := Kept(samples);
    KeptMostSamples(samples);
    Summary(Mean(kept), |kept|, Variance(kept), Variance(kept) / (|kept| as real))
  }

  /** The sampling loop: the samples in order, and their squares. */
  method Collect(samples: seq<real>) returns (result: seq<real>, std: seq<real>)
    ensures result == samples && std == Squares(samples)
  {
    result, std := [], [];
    var j := 0;
    while j < |samples|
      invariant 0 <= j <= |samples|
      invariant result == samples[..j] && std == Squares(result)
    {
      var value := samples[j];
      assert samples[..j + 1] == samples[..j] + [value];
      SquaresAppend(result, value);
      result := result + [value];
      std := std + [value * value];
      j := j + 1;
    }
    assert result == samples;
  }

  /**
   * The outlier loop: walks result with Python's list-iterator position,
   * deleting each outlier's first copy from result and the matching square
   * from std; anomaly records whether anything was deleted.
   */
  method DropOutliers(samples: seq<real>, mean: real, variance: real)
    returns (result: seq<real>, std: seq<real>, anomaly: bool)
    ensures result == Pass(samples, 0, mean, variance) && std == Squares(result)
    ensures anomaly <==> |result| < |samples|
    ensures !anomaly ==> result == samples
  {
    result, std := samples, Squares(samples);
    anomaly := false;
    var i: nat := 0;
    while i < |result|
      invariant std == Squares(result)
      invariant Pass(result, i, mean, variance) == Pass(samples, 0, mean, variance)
      invariant anomaly <==> |result| < |samples|
      invariant !anomaly ==> result == samples
      decreases |result| - i
    {
      var x := result[i];
      PassStep(result, i, mean, variance);
      i := i + 1;
      if Outlier(x, mean, variance) {
        anomaly := true;
        var index := FirstIndex(result, x);
        RemoveSquares(result, index);
        result := Remove(result, index);
        std := Remove(std, index);
      }
    }
  }

  /** One step of the pass. */
  lemma PassStep(s: seq<real>, i: nat, m: real, v: real)
    requires i < |s|
    ensures Outlier(s[i], m, v) ==> Pass(s, i, m, v) == Pass(Remove(s, FirstIndex(s, s[i])), i + 1, m, v)
    ensures !Outlier(s[i], m, v) ==> Pass(s, i, m, v) == Pass(s, i + 1, m, v)
  {
  }

  lemma {:induction false} RemoveSquares(s: seq<real>, k: nat)
    requires k < |s|
    ensures Squares(Remove(s, k)) == Remove(Squares(s), k)
  {
    var l := Squares(Remove(s, k));
    var r := Remove(Squares(s), k);
    forall i | 0 <= i < |l|
      ensures l[i] == r[i]
    {
      if i < k {
        assert Remove(s, k)[i] == s[i];
      } else {
        assert Remove(s, k)[i] == s[i + 1];
      }
    }
  }

  /** The mean and the variance (mean of the squares minus the squared mean) of the values, given their squares. */
  method Moments(values: seq<real>, squares: seq<real>) returns (mean: real, variance: real)
    requires |values| > 0 && squares == Squares(values)
    ensures mean == Mean(values) && variance == Variance(values)
  {
    var n := |values| as real;
    mean := Sum(values) / n;
    variance := Sum(squares) / n - mean * mean;
  }

  /**
   * One objective of measure_results: collect the samples and their squares,
   * take the raw mean and variance, run the outlier pass and, when something
   * was dropped, recompute both over what is left. No samples at all divides
   * by min_counts = 0.
   */
  method MeasureOne(samples: seq<real>) returns (r: Result<Summary, StatsError>)
    ensures |samples| == 0 <==> r.Err?
    ensures r.Ok? ==> r.value == Summarise(samples)
  {
    var result, std := Collect(samples);
    if |samples| == 0 {
      return Err(ZeroDivisionError);
    }
    var mean, variance := Moments(result, std);
    var anomaly;
    result, std, anomaly := DropOutliers(result, mean, variance);
    KeptMostSamples(samples);
    if anomaly {
      mean, variance := Moments(result, std);
    }
    return Ok(Summary(mean, |result|, variance, variance / (|result| as real)));
  }

  /** Samples with no outlier are reported with their raw statistics and count. */
  lemma {:induction false} SummaryWithoutOutliers(samples: seq<real>)
    requires |samples| > 0
    requires forall x :: x in samples ==> !Outlier(x, Mean(samples), Variance(samples))
    ensures Summarise(samples).counts == |samples|
    ensures Summarise(samples).mean == Mean(samples)
    ensures Summarise(samples).variance == Variance(samples)
  {
    PassWithoutOutliers(samples, 0, Mean(samples), Variance(samples));
  }

  /**
   * measure_results: one summary per objective, in order, built into a
   * measurement; an objective with no samples raises ZeroDivisionError.
   */
  method MeasureResults(samples: seq<seq<real>>) returns (r: Result<seq<Measurements.Measurement>, StatsError>)
    ensures r.Err? <==> exists i :: 0 <= i < |samples| && |samples[i]| == 0
    ensures r.Ok? ==> |r.value| == |samples|
    ensures r.Ok? ==> forall i :: 0 <= i < |samples| ==>
              var s := Summarise(samples[i]);
              fresh(r.value[i]) && r.value[i].name.None? && r.value[i].mean == s.mean
              && r.value[i].counts == Some(s.counts) && r.value[i].dev == Some(s.variance)
              && r.value[i].err == Some(s.errSquared)
  {
    var summaries: seq<Summary> := [];
    var i := 0;
    while i < |samples|
      invariant 0 <= i <= |samples|
      invariant |summaries| == i
      invariant forall k :: 0 <= k < i ==> |samples[k]| > 0 && summaries[k] == Summarise(samples[k])
    {
      var one := MeasureOne(samples[i]);
      if one.Err? {
        return Err(one.error);
      }
      summaries := summaries + [one.value];
      i := i + 1;
    }
    var results: seq<Measurements.Measurement> := [];
    i := 0;
    while i < |summaries|
      invariant 0 <= i <= |summaries|
      invariant |results| == i
      invariant forall k :: 0 <= k < i ==>
                  var s := summaries[k];
                  fresh(results[k]) && results[k].name.None? && results[k].mean == s.mean
                  && results[k].counts == Some(s.counts) && results[k].dev == Some(s.variance)
                  && results[k].err == Some(s.errSquared)
    {
      var s := summaries[i];
      var m := new Measurements.Measurement(None, s.mean, Some(s.variance), Some(s.counts), Some(s.errSquared));
      results := results + [m];
      i := i + 1;
    }
    return Ok(results);
  }

  // ---------------------------------------------------------------------
  // Worked examples

  /** k copies of c. */
  function Copies(c: real, k: nat): (r: seq<real>)
    ensures |r| == k && forall i :: 0 <= i < k ==> r[i] == c
  {
    seq(k, i => c)
  }

  lemma {:induction false} SumCopies(c: real, k: nat)
    ensures Sum(Copies(c, k)) == (k as real) * c
  {
    if k > 0 {
      assert Copies(c, k)[..k - 1] == Copies(c, k - 1);
      SumCopies(c, k - 1);
    }
  }

  lemma {:induction false} SumAppend(a: seq<real>, b: seq<real>)
    ensures Sum(a + b) == Sum(a) + Sum(b)
    decreases |b|
  {
    if |b| > 0 {
      assert (a + b)[..|a + b| - 1] == a + b[..|b| - 1];
      SumAppend(a, b[..|b| - 1]);
    } else {
      assert a + b == a;
    }
  }

  /** Sum and sum of squares of k copies of c followed by the values in tail. */
  lemma {:induction false} CopiesThen(c: real, k: nat, tail: seq<real>)
    ensures Sum(Copies(c, k) + tail) == (k as real) * c + Sum(tail)
    ensures Sum(Squares(Copies(c, k) + tail)) == (k as real) * (c * c) + Sum(Squares(tail))
  {
    assert Sum(Copies(c, k) + tail) == (k as real) * c + Sum(tail) by {
      SumCopies(c, k);
      SumAppend(Copies(c, k), tail);
    }
    assert Squares(Copies(c, k) + tail) == Copies(c * c, k) + Squares(tail) by {
      SquaresOfCopies(c, k, tail);
    }
    SumCopies(c * c, k);
    SumAppend(Copies(c * c, k), Squares(tail));
  }

  lemma {:induction false} SquaresOfCopies(c: real, k: nat, tail: seq<real>)
    ensures Squares(Copies(c, k) + tail) == Copies(c * c, k) + Squares(tail)
  {
    var s := Copies(c, k) + tail;
    var l := Squares(s);
    var r := Copies(c * c, k) + Squares(tail);
    forall i | 0 <= i < |l|
      ensures l[i] == r[i]
    {
      if i >= k {
        assert s[i] == tail[i - k];
      } else {
        assert s[i] == c;
      }
    }
  }

  /** Five tens and a thirty: the thirty is dropped and the rest reports mean 10, variance 0. */
  lemma FiveTensAndThirty()
    ensures Summarise([10.0, 10.0, 10.0, 10.0, 10.0, 30.0]) == Summary(10.0, 5, 0.0, 0.0)
  {
    var s := [10.0, 10.0, 10.0, 10.0, 10.0, 30.0];
    var tens := Copies(10.0, 5);
    FiveTensMoments();
    FiveTensPass(Mean(s), Variance(s));
    assert Kept(s) == tens;
    CopiesThen(10.0, 5, []);
    assert tens + [] == tens;
    assert Sum(tens) == 50.0;
    assert Sum(Squares(tens)) == 500.0;
  }

  /** The raw mean and variance of five tens and a thirty. */
  lemma FiveTensMoments()
    ensures Mean([10.0, 10.0, 10.0, 10.0, 10.0, 30.0]) == 40.0 / 3.0
    ensures Variance([10.0, 10.0, 10.0, 10.0, 10.0, 30.0]) == 500.0 / 9.0
  {
    var s := [10.0, 10.0, 10.0, 10.0, 10.0, 30.0];
    assert s == Copies(10.0, 5) + [30.0];
    CopiesThen(10.0, 5, [30.0]);
    assert Sum([30.0]) == 30.0;
    assert Sum(Squares([30.0])) == 900.0;
  }

  /** Against those moments the pass drops the thirty and keeps the tens. */
  lemma FiveTensPass(m: real, v: real)
    requires m == 40.0 / 3.0 && v == 500.0 / 9.0
    ensures Pass([10.0, 10.0, 10.0, 10.0, 10.0, 30.0], 0, m, v) == Copies(10.0, 5)
  {
    var s := [10.0, 10.0, 10.0, 10.0, 10.0, 30.0];
    var tens := Copies(10.0, 5);
    assert s == tens + [30.0];
    assert !Outlier(10.0, m, v);
    assert Outlier(30.0, m, v);
    assert FirstIndex(s, 30.0) == 5;
    assert Remove(s, 5) == tens;
    assert Pass(tens, 6, m, v) == tens;
    assert Pass(s, 5, m, v) == tens;
    assert Pass(s, 4, m, v) == tens;
    assert Pass(s, 3, m, v) == tens;
    assert Pass(s, 2, m, v) == tens;
    assert Pass(s, 1, m, v) == tens;
  }

  /**
   * Nine zeros and two tens: both tens are outliers, but deleting the first
   * slides the second into the position the loop has already passed, so it
   * is never tested and stays.
   */
  lemma SecondOutlierSkipped()
    ensures Kept(Copies(0.0, 9) + [10.0, 10.0]) == Copies(0.0, 9) + [10.0]
    ensures Outlier(10.0, Mean(Copies(0.0, 9) + [10.0, 10.0]), Variance(Copies(0.0, 9) + [10.0, 10.0]))
  {
    TwoTensMoments();
    TwoTensPass(Mean(Copies(0.0, 9) + [10.0, 10.0]), Variance(Copies(0.0, 9) + [10.0, 10.0]));
  }

  /** The raw mean and variance of nine zeros and two tens. */
  lemma TwoTensMoments()
    ensures Mean(Copies(0.0, 9) + [10.0, 10.0]) == 20.0 / 11.0
    ensures Variance(Copies(0.0, 9) + [10.0, 10.0]) == 1800.0 / 121.0
  {
    CopiesThen(0.0, 9, [10.0, 10.0]);
    assert Sum([10.0, 10.0]) == 20.0;
    assert Sum(Squares([10.0, 10.0])) == 200.0;
  }

  /** Against those moments the pass drops the first ten only. */
  lemma TwoTensPass(m: real, v: real)
    requires m == 20.0 / 11.0 && v == 1800.0 / 121.0
    ensures Pass(Copies(0.0, 9) + [10.0, 10.0], 0, m, v) == Copies(0.0, 9) + [10.0]
    ensures Outlier(10.0, m, v)
  {
    var zeros := Copies(0.0, 9);
    var s := zeros + [10.0, 10.0];
    assert !Outlier(0.0, m, v);
    assert Outlier(10.0, m, v);
    assert s[9] == 10.0 && forall i :: 0 <= i < 9 ==> s[i] == zeros[i] == 0.0;
    assert FirstIndex(s, 10.0) == 9;
    var t := zeros + [10.0];
    assert Remove(s, 9) == t;
    assert Pass(t, 10, m, v) == t;
    assert Pass(s, 9, m, v) == t;
    PassInliersFrom(s, 0, 9, m, v);
  }

  /** Inliers in positions i .. k - 1 are stepped over. */
  lemma {:induction false} PassInliersFrom(s: seq<real>, i: nat, k: nat, m: real, v: real)
    requires i <= k <= |s|
    requires forall j :: i <= j < k ==> !Outlier(s[j], m, v)
    ensures Pass(s, i, m, v) == Pass(s, k, m, v)
    decreases k - i
  {
    if i < k {
      PassInliersFrom(s, i + 1, k, m, v);
    }
  }
}
