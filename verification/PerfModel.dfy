/** The performance model: measurements of an implementation and a polynomial fitted to them. */
module PerfModels {
  import opened Regression

  function Pow(x: real, j: nat): real {
    if j == 0 then 1.0 else x * Pow(x, j - 1)
  }

  /** The powers of `x` up to the given order, as a row of features. */
  function Powers(x: real, order: nat): (row: Vector)
    ensures |row| == order + 1
    ensures forall j :: 0 <= j <= order ==> row[j] == Pow(x, j)
  {
    seq(order + 1, j requires 0 <= j <= order => Pow(x, j))
  }

  /** The polynomial with the first `n` weights as coefficients. */
  function Polynomial(w: Vector, x: real, n: nat): real
    requires n <= |w|
  {
    if n == 0 then 0.0 else Polynomial(w, x, n - 1) + w[n - 1] * Pow(x, n - 1)
  }

  /** The hypothesis on a row of powers is the polynomial. */
  lemma {:induction false} HypothesisIsPolynomial(w: Vector, x: real, order: nat, n: nat)
    requires n <= |w| && n <= order + 1
    ensures Dot(w, Powers(x, order), n) == Polynomial(w, x, n)
  {
    if n > 0 {
      HypothesisIsPolynomial(w, x, order, n - 1);
    }
  }

  /** Exponents add up. */
  lemma {:induction false} PowAdds(x: real, i: nat, j: nat)
    ensures Pow(x, i + j) == Pow(x, i) * Pow(x, j)
    ensures Pow(x, 0) == 1.0 && Pow(x, 1) == x
  {
    assert Pow(x, 1) == x * Pow(x, 0);
    if i > 0 {
      PowAdds(x, i - 1, j);
      assert Pow(x, i + j) == x * Pow(x, i - 1 + j);
      assert x * (Pow(x, i - 1) * Pow(x, j)) == (x * Pow(x, i - 1)) * Pow(x, j);
    }
  }

  lemma {:induction false} PowOne(j: nat)
    ensures Pow(1.0, j) == 1.0
  {
    if j > 0 {
      PowOne(j - 1);
    }
  }

  lemma OnesArePowers(order: nat, ones: Vector)
    requires |ones| == order + 1 && forall j :: 0 <= j <= order ==> ones[j] == 1.0
    ensures ones == Powers(1.0, order)
  {
    forall j | 0 <= j <= order ensures ones[j] == Powers(1.0, order)[j] {
      PowOne(j);
    }
  }

  /** The size behind the k-th row: the first row of ones counts as size one. */
  function SizeOf(k: nat, step: nat): real {
    if k == 0 then 1.0 else (k * step) as real
  }

  /** The sizes a model can be measured up to; in between the step would be zero and the loop would not end. */
  predicate Measurable(maxsize: nat) {
    maxsize == 0 || maxsize >= 100
  }

  /** How many rows are measured: the row of ones and one for each positive multiple of the step below the size. */
  function RowCount(maxsize: nat): nat
    requires Measurable(maxsize)
  {
    if maxsize == 0 then 1
    else
      var step := maxsize / 100;
      (maxsize + step - 1) / step
  }

  /** The rows of features that are measured. */
  function RowsFor(maxsize: nat, order: nat): (rows: seq<Vector>)
    requires Measurable(maxsize)
    ensures |rows| == RowCount(maxsize)
    ensures forall k :: 0 <= k < |rows| ==> rows[k] == Powers(SizeOf(k, maxsize / 100), order)
  {
    seq(RowCount(maxsize), k requires 0 <= k < RowCount(maxsize) => Powers(SizeOf(k, maxsize / 100), order))
  }

  /** The mean of the three runs at a size, without the one that warms up the cache. */
  function MeanTime(f: (nat, nat) -> real, size: nat): real {
    (f(size, 1) + f(size, 2) + f(size, 3)) / 3.0
  }

  /** The times that go with the rows: one for the row of ones, and means of three runs. */
  function TimesFor(maxsize: nat, f: (nat, nat) -> real): (times: seq<real>)
    requires Measurable(maxsize)
    ensures |times| == RowCount(maxsize)
    ensures forall k :: 0 <= k < |times| ==> times[k] == if k == 0 then 1.0 else MeanTime(f, k * (maxsize / 100))
  {
    seq(RowCount(maxsize),
        k requires 0 <= k < RowCount(maxsize) => if k == 0 then 1.0 else MeanTime(f, k * (maxsize / 100)))
  }

  /** The time of a row is the mean of the last three of the four runs at its size. */
  lemma MeasuredTimes(maxsize: nat, f: (nat, nat) -> real, k: nat)
    requires maxsize >= 100 && 0 < k < RowCount(maxsize)
    ensures 0 < k * (maxsize / 100) < maxsize
    ensures var size := k * (maxsize / 100); 3.0 * TimesFor(maxsize, f)[k] == f(size, 1) + f(size, 2) + f(size, 3)
    ensures TimesFor(maxsize, f)[0] == 1.0
  {
    hide RowCount;
    RowCountBounds(maxsize);
    Below(1, k, maxsize / 100);
    Below(k, RowCount(maxsize) - 1, maxsize / 100);
  }

  /** Whatever happens in the run that warms up the cache, the measurements are the same. */
  lemma WarmUpDoesNotCount(maxsize: nat, f: (nat, nat) -> real, g: (nat, nat) -> real)
    requires Measurable(maxsize) && forall size: nat, run: nat :: 1 <= run <= 3 ==> f(size, run) == g(size, run)
    ensures TimesFor(maxsize, f) == TimesFor(maxsize, g)
  {
    hide RowCount, TimesFor;
    forall k | 0 <= k < RowCount(maxsize) ensures TimesFor(maxsize, f)[k] == TimesFor(maxsize, g)[k] {}
  }

  /** Between a hundred and a hundred and ninety-nine rows: as many as there are steps below the size. */
  lemma RowCountBounds(maxsize: nat)
    requires maxsize >= 100
    ensures 100 <= RowCount(maxsize) <= 199
    ensures (RowCount(maxsize) - 1) * (maxsize / 100) < maxsize <= RowCount(maxsize) * (maxsize / 100)
  {
    var step := maxsize / 100;
    var n := maxsize + step - 1;
    assert 100 * step <= maxsize < 100 * step + 100;
    var q := n / step;
    assert q * step <= n < q * step + step;
    if q < 100 {
      Below(q + 1, 100, step);
    } else if q > 199 {
      Below(200, q, step);
    }
  }

  lemma Below(a: nat, b: nat, step: nat)
    requires a <= b
    ensures a * step <= b * step
  {
    assert (b - a) * step >= 0;
  }

  class PerfModel {
    var alpha: real
    var iterations: nat
    var numberOfFeatures: nat
    var order: nat
    var features: seq<Vector>
    var weights: Vector
    var milliseconds: seq<real>

    constructor (alpha: real, iterations: nat, numberOfFeatures: nat, order: nat)
      ensures this.alpha == alpha && this.iterations == iterations && this.numberOfFeatures == numberOfFeatures
              && this.order == order
      ensures features == [] && weights == [] && milliseconds == []
    {
      this.alpha, this.iterations, this.numberOfFeatures, this.order := alpha, iterations, numberOfFeatures, order;
      features, weights, milliseconds := [], [], [];
    }

    ghost function Measured(): Data
      reads this
    {
      Data(features, milliseconds)
    }

    method PowersOf(x: real) returns (row: Vector)
      ensures row == Powers(x, order)
    {
      row := [];
      for j := 0 to order + 1
        invariant |row| == j && forall k :: 0 <= k < j ==> row[k] == Pow(x, k)
      {
        row := row + [Pow(x, j)];
      }
    }

    /**
     * Measures an implementation at regular sizes and adds the rows to those there are. `f(i, run)` is the
     * time of one of the four runs at size i, of which the first only warms up the cache.
     */
    method GenerateTestData(maxsize: nat, f: (nat, nat) -> real)
      requires Measurable(maxsize)
      modifies this`features, this`milliseconds
      ensures features == old(features) + RowsFor(maxsize, order)
      ensures milliseconds == old(milliseconds) + TimesFor(maxsize, f)
    {
      hide RowCount, RowsFor, TimesFor, Powers;
      var step := maxsize / 100;
      var ones := seq(order + 1, _ => 1.0);
      OnesArePowers(order, ones);
      features := features + [ones];
      milliseconds := milliseconds + [1.0];
      ghost var rows, times := [ones], [1.0];
      var i: nat := 0;
      ghost var k: nat := 0;
      while i < maxsize
        invariant i == k * step && (k > 0 ==> (k - 1) * step < maxsize) && (maxsize == 0 ==> k == 0)
        invariant features == old(features) + rows && milliseconds == old(milliseconds) + times
        invariant |rows| == |times| == if k == 0 then 1 else k
        invariant forall r :: 0 <= r < |rows| ==> rows[r] == Powers(SizeOf(r, step), order)
        invariant forall r :: 0 <= r < |times| ==> times[r] == if r == 0 then 1.0 else MeanTime(f, r * step)
        decreases maxsize - i
      {
        if i > 0 {
          assert k > 0 by { assert 0 * step == 0; }
          var row := PowersOf(i as real);
          features := features + [row];
          var test1, test2, test3 := f(i, 1), f(i, 2), f(i, 3);
          milliseconds := milliseconds + [(test1 + test2 + test3) / 3.0];
          rows, times := rows + [row], times + [MeanTime(f, i)];
        } else {
          assert k == 0 by { FirstIsZero(k, step); }
        }
        assert (k + 1) * step == k * step + step;
        i := i + step;
        k := k + 1;
      }
      CountIs(maxsize, step, k);
      assert rows == RowsFor(maxsize, order) && times == TimesFor(maxsize, f);
    }

    /** Fits the weights, starting from zero, by the given number of iterations. */
    method LinearRegression()
      requires Measured().Fits(numberOfFeatures) && (iterations == 0 || iterations >= 10)
      modifies this`weights
      ensures weights == Descend(Measured(), Zeros(numberOfFeatures), numberOfFeatures, alpha, iterations)
    {
      ghost var d := Measured();
      weights := Zeros(numberOfFeatures);
      for iter := 0 to iterations
        invariant |weights| == numberOfFeatures
        invariant weights == Descend(d, Zeros(numberOfFeatures), numberOfFeatures, alpha, iter)
      {
        weights := NewWeights();
      }
    }

    /** All new weights, computed from the old ones. */
    method NewWeights() returns (newWeights: Vector)
      requires Measured().Fits(numberOfFeatures) && |weights| == numberOfFeatures
      ensures newWeights == Step(Measured(), weights, numberOfFeatures, alpha)
    {
      newWeights := [];
      for f := 0 to numberOfFeatures
        invariant |newWeights| == f
        invariant forall g :: 0 <= g < f ==>
          newWeights[g] == weights[g] - alpha * Derivative(Measured(), weights, numberOfFeatures, |milliseconds|, g)
      {
        var slope := CostDerivative(f);
        newWeights := newWeights + [weights[f] - alpha * slope];
      }
      SameVector(newWeights, Step(Measured(), weights, numberOfFeatures, alpha));
    }

    /** The two inner loops: the derivative of the cost with respect to one weight. */
    method CostDerivative(f: nat) returns (slope: real)
      requires Measured().Fits(numberOfFeatures) && |weights| == numberOfFeatures && f < numberOfFeatures
      ensures slope == Derivative(Measured(), weights, numberOfFeatures, |milliseconds|, f)
    {
      slope := 0.0;
      for m := 0 to |milliseconds|
        invariant slope == Derivative(Measured(), weights, numberOfFeatures, m, f)
      {
        var h := 0.0;
        for i := 0 to numberOfFeatures
          invariant h == Dot(weights, features[m], i)
        {
          h := h + weights[i] * features[m][i];
        }
        slope := slope + (h - milliseconds[m]) * features[m][f];
      }
    }

    /** The predicted cost of an input is the fitted polynomial at that input. */
    method QueryModel(input: real) returns (cost: real)
      requires numberOfFeatures <= |weights| && numberOfFeatures <= order + 1
      ensures cost == Polynomial(weights, input, numberOfFeatures)
    {
      var row := PowersOf(input);
      cost := 0.0;
      for i := 0 to numberOfFeatures
        invariant cost == Polynomial(weights, input, i)
      {
        cost := cost + weights[i] * row[i];
      }
    }

    /**
     * Measures and fits a fresh model. On every measured row the hypothesis of the regression is what
     * a query at that size answers; and if the step is small enough, the fit is no worse than no fit.
     */
    method CreateModel(maxsize: nat, f: (nat, nat) -> real)
      requires maxsize >= 100 && features == [] && milliseconds == []
      requires numberOfFeatures <= order + 1 && (iterations == 0 || iterations >= 10)
      modifies this`features, this`milliseconds, this`weights
      ensures 100 <= |features| == |milliseconds| <= 199 && |weights| == numberOfFeatures
              && Measured().Fits(numberOfFeatures)
      ensures Dot(weights, features[0], numberOfFeatures) == Polynomial(weights, 1.0, numberOfFeatures)
      ensures forall k :: 0 < k < |features| ==>
        Dot(weights, features[k], numberOfFeatures)
        == Polynomial(weights, (k * (maxsize / 100)) as real, numberOfFeatures)
      ensures alpha >= 0.0 && alpha * FeatureNorm(Measured(), numberOfFeatures, |milliseconds|) <= 2.0 ==>
        SquaredError(Measured(), weights, numberOfFeatures, |milliseconds|)
        <= SquaredError(Measured(), Zeros(numberOfFeatures), numberOfFeatures, |milliseconds|)
    {
      hide SquaredError, FeatureNorm, Dot, Polynomial, Descend, RowCount, Zeros, RowsFor, TimesFor, Data.Fits, Powers;
      GenerateTestData(maxsize, f);
      RowCountBounds(maxsize);
      ghost var rows, d, n := RowsFor(maxsize, order), Measured(), numberOfFeatures;
      assert features == rows && milliseconds == TimesFor(maxsize, f);
      RowsFit(rows, milliseconds, maxsize, order, n);
      LinearRegression();
      RowsAnswer(weights, maxsize, order, n);
      if alpha >= 0.0 && alpha * FeatureNorm(d, n, |milliseconds|) <= 2.0 {
        FitIsNoWorse(d, n, alpha, iterations);
      }
    }
  }

  /** On each row the hypothesis is the polynomial at the size of the row. */
  lemma RowsAnswer(w: Vector, maxsize: nat, order: nat, n: nat)
    requires maxsize >= 100 && n <= |w| && n <= order + 1
    ensures var rows := RowsFor(maxsize, order);
            && |rows| > 0 && Dot(w, rows[0], n) == Polynomial(w, 1.0, n)
            && forall k :: 0 < k < |rows| ==> Dot(w, rows[k], n) == Polynomial(w, (k * (maxsize / 100)) as real, n)
  {
    hide RowCount, RowsFor, Dot, Polynomial, Powers;
    RowCountBounds(maxsize);
    forall k | 0 <= k < RowCount(maxsize)
      ensures Dot(w, RowsFor(maxsize, order)[k], n) == Polynomial(w, SizeOf(k, maxsize / 100), n)
    {
      HypothesisIsPolynomial(w, SizeOf(k, maxsize / 100), order, n);
    }
  }

  lemma RowsFit(rows: seq<Vector>, times: seq<real>, maxsize: nat, order: nat, n: nat)
    requires Measurable(maxsize) && rows == RowsFor(maxsize, order) && |times| == |rows| && n <= order + 1
    ensures Data(rows, times).Fits(n)
  {
  }

  function Zeros(n: nat): (w: Vector)
    ensures |w| == n && forall i :: 0 <= i < n ==> w[i] == 0.0
  {
    seq(n, _ => 0.0)
  }

  /** The fit is never worse than predicting zero for everything. */
  lemma FitIsNoWorse(d: Data, n: nat, alpha: real, iterations: nat)
    requires d.Fits(n) && alpha >= 0.0 && alpha * FeatureNorm(d, n, |d.times|) <= 2.0
    ensures SquaredError(d, Descend(d, Zeros(n), n, alpha, iterations), n, |d.times|)
            <= SquaredError(d, Zeros(n), n, |d.times|)
  {
    DescentIsMonotone(d, Zeros(n), n, alpha, 0, iterations);
  }

  lemma FirstIsZero(k: nat, step: nat)
    requires k * step == 0 && step > 0
    ensures k == 0
  {
    if k > 0 {
      Below(1, k, step);
    }
  }

  lemma CountIs(maxsize: nat, step: nat, k: nat)
    requires Measurable(maxsize) && step == maxsize / 100
    requires maxsize == 0 ==> k == 0
    requires maxsize > 0 ==> k > 0 && (k - 1) * step < maxsize <= k * step
    ensures RowCount(maxsize) == if k == 0 then 1 else k
  {
    if maxsize > 0 {
      CountOfSteps(maxsize, step, k);
    }
  }

  lemma CountOfSteps(maxsize: nat, step: nat, k: nat)
    requires maxsize >= 100 && step == maxsize / 100 && k > 0
    requires (k - 1) * step < maxsize <= k * step
    ensures k == RowCount(maxsize)
  {
    var n := maxsize + step - 1;
    var q := n / step;
    assert q * step <= n < q * step + step;
    assert k * step == (k - 1) * step + step && (q + 1) * step == q * step + step && (k + 1) * step == k * step + step;
    if q < k {
      Below(q + 1, k, step);
    } else if q > k {
      Below(k + 1, q, step);
    }
  }
}
