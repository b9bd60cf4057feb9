/**
 * Least squares by batch gradient descent, over exact reals: the squared error of a linear
 * hypothesis, its derivative, and why a small enough step never makes it worse.
 */
module Regression {
  type Vector = seq<real>

  /** The sum of the first `n` products. */
  function Dot(a: Vector, b: Vector, n: nat): real
    requires n <= |a| && n <= |b|
  {
    if n == 0 then 0.0 else Dot(a, b, n - 1) + a[n - 1] * b[n - 1]
  }

  /** Measurements: a row of features and a time for each. */
  datatype Data = Data(rows: seq<Vector>, times: seq<real>) {
    ghost predicate Fits(n: nat) {
      |times| <= |rows| && forall k :: 0 <= k < |times| ==> n <= |rows[k]|
    }
  }

  /** How far off the hypothesis with weights `w` is on the k-th row. */
  ghost function Error(d: Data, w: Vector, n: nat, k: nat): real
    requires d.Fits(n) && n <= |w| && k < |d.times|
  {
    Dot(w, d.rows[k], n) - d.times[k]
  }

  /** The squared error over the first `m` rows. */
  ghost function SquaredError(d: Data, w: Vector, n: nat, m: nat): real
    requires d.Fits(n) && n <= |w| && m <= |d.times|
  {
    if m == 0 then 0.0 else SquaredError(d, w, n, m - 1) + Error(d, w, n, m - 1) * Error(d, w, n, m - 1)
  }

  /** Half the derivative of the squared error with respect to the f-th weight. */
  ghost function Derivative(d: Data, w: Vector, n: nat, m: nat, f: nat): real
    requires d.Fits(n) && n <= |w| && m <= |d.times| && f < n
  {
    if m == 0 then 0.0 else Derivative(d, w, n, m - 1, f) + Error(d, w, n, m - 1) * d.rows[m - 1][f]
  }

  ghost function Gradient(d: Data, w: Vector, n: nat, m: nat): Vector
    requires d.Fits(n) && n <= |w| && m <= |d.times|
  {
    seq(n, f requires 0 <= f < n => Derivative(d, w, n, m, f))
  }

  /** One iteration: all weights move at once, against the gradient. */
  ghost function Step(d: Data, w: Vector, n: nat, alpha: real): (w': Vector)
    requires d.Fits(n) && |w| == n
    ensures |w'| == n
    ensures forall f :: 0 <= f < n ==> w'[f] == w[f] - alpha * Derivative(d, w, n, |d.times|, f)
  {
    seq(n, f requires 0 <= f < n => w[f] - alpha * Derivative(d, w, n, |d.times|, f))
  }

  ghost function Descend(d: Data, w: Vector, n: nat, alpha: real, iterations: nat): (w': Vector)
    requires d.Fits(n) && |w| == n
    ensures |w'| == n
  {
    if iterations == 0 then w else Step(d, Descend(d, w, n, alpha, iterations - 1), n, alpha)
  }

  /** The sum of the squares of all features. */
  ghost function FeatureNorm(d: Data, n: nat, m: nat): real
    requires d.Fits(n) && m <= |d.times|
  {
    if m == 0 then 0.0 else FeatureNorm(d, n, m - 1) + Dot(d.rows[m - 1], d.rows[m - 1], n)
  }

  lemma SameVector(a: Vector, b: Vector)
    requires |a| == |b| && forall i :: 0 <= i < |a| ==> a[i] == b[i]
    ensures a == b
  {
  }

  // ---------- inner products ----------

  lemma {:induction false} DotSelf(a: Vector, n: nat)
    requires n <= |a|
    ensures Dot(a, a, n) >= 0.0
  {
    if n > 0 {
      DotSelf(a, n - 1);
      Square(a[n - 1]);
    }
  }

  lemma Square(x: real)
    ensures x * x >= 0.0
  {
    if x > 0.0 {
      ProductPositive(x, x);
    } else if x < 0.0 {
      var y := -x;
      ProductPositive(y, y);
      assert x * x == y * y;
    }
  }

  lemma ProductPositive(x: real, y: real)
    requires x > 0.0 && y > 0.0
    ensures x * y > 0.0
  {
  }

  /** The square of `l * a - b` is not negative. */
  lemma {:induction false} Quadratic(a: Vector, b: Vector, n: nat, l: real)
    requires n <= |a| && n <= |b|
    ensures l * l * Dot(a, a, n) - 2.0 * l * Dot(a, b, n) + Dot(b, b, n) >= 0.0
  {
    if n > 0 {
      Quadratic(a, b, n - 1, l);
      var x, y := a[n - 1], b[n - 1];
      QuadraticTerm(l, x, y);
      Distribute(l, Dot(a, a, n - 1), Dot(a, b, n - 1), x * x, x * y);
    }
  }

  lemma QuadraticTerm(l: real, x: real, y: real)
    ensures l * l * (x * x) - 2.0 * l * (x * y) + y * y >= 0.0
  {
    Square(l * x - y);
    assert (l * x - y) * (l * x - y) == l * l * (x * x) - 2.0 * l * (x * y) + y * y;
  }

  lemma Distribute(l: real, a: real, b: real, u: real, v: real)
    ensures l * l * (a + u) - 2.0 * l * (b + v) == (l * l * a - 2.0 * l * b) + (l * l * u - 2.0 * l * v)
  {
  }

  /** The Cauchy-Schwarz inequality. */
  lemma CauchySchwarz(a: Vector, b: Vector, n: nat)
    requires n <= |a| && n <= |b|
    ensures Dot(a, b, n) * Dot(a, b, n) <= Dot(a, a, n) * Dot(b, b, n)
  {
    hide Dot;
    var A, B, D := Dot(a, a, n), Dot(b, b, n), Dot(a, b, n);
    DotSelf(a, n);
    DotSelf(b, n);
    if A > 0.0 {
      var l := D / A;
      Quadratic(a, b, n, l);
      DiscriminantBound(A, B, D, l);
    } else if D != 0.0 {
      var l := (B + 1.0) / (2.0 * D);
      Quadratic(a, b, n, l);
      TooSteep(B, D, l);
    }
  }

  lemma TooSteep(B: real, D: real, l: real)
    requires 2.0 * D * l == B + 1.0
    ensures l * l * 0.0 - 2.0 * l * D + B < 0.0
  {
    assert 2.0 * l * D == 2.0 * D * l;
  }

  lemma DiscriminantBound(A: real, B: real, D: real, l: real)
    requires A > 0.0 && l * A == D && l * l * A - 2.0 * l * D + B >= 0.0
    ensures D * D <= A * B
  {
    assert l * l * A == l * (l * A);
    assert l * D <= B;
    MulLe(l * D, B, A);
    assert (l * D) * A == (l * A) * D;
  }

  lemma MulLe(x: real, y: real, a: real)
    requires x <= y && a >= 0.0
    ensures x * a <= y * a
  {
    assert (y - x) * a >= 0.0;
  }

  // ---------- what error and derivative are ----------

  /** A single weight counts as much as its feature says. */
  lemma {:induction false} DotUpdate(w: Vector, row: Vector, n: nat, f: nat, x: real)
    requires n <= |w| && n <= |row| && f < |w|
    ensures Dot(w[f := w[f] + x], row, n) == Dot(w, row, n) + if f < n then x * row[f] else 0.0
  {
    if n > 0 {
      DotUpdate(w, row, n - 1, f, x);
      assert f == n - 1 ==> (w[f] + x) * row[f] == w[f] * row[f] + x * row[f];
    }
  }

  lemma {:induction false} DotZero(w: Vector, row: Vector, n: nat)
    requires n <= |w| && n <= |row| && forall f :: 0 <= f < n ==> w[f] == 0.0
    ensures Dot(w, row, n) == 0.0
  {
    if n > 0 {
      DotZero(w, row, n - 1);
    }
  }

  /** The error is affine in each weight, with the feature as its slope, and without weights it is the time. */
  lemma ErrorIsAffine(d: Data, w: Vector, n: nat, k: nat, f: nat, x: real)
    requires d.Fits(n) && n <= |w| && k < |d.times| && f < n
    ensures Error(d, w[f := w[f] + x], n, k) == Error(d, w, n, k) + x * d.rows[k][f]
    ensures (forall i :: 0 <= i < n ==> w[i] == 0.0) ==> Error(d, w, n, k) == -d.times[k]
  {
    DotUpdate(w, d.rows[k], n, f, x);
    if forall i :: 0 <= i < n ==> w[i] == 0.0 {
      DotZero(w, d.rows[k], n);
    }
  }

  /** The squared error is zero exactly when every measurement is met. */
  lemma {:induction false} NoErrorIff(d: Data, w: Vector, n: nat, m: nat)
    requires d.Fits(n) && n <= |w| && m <= |d.times|
    ensures SquaredError(d, w, n, m) >= 0.0
    ensures SquaredError(d, w, n, m) == 0.0 <==> forall k :: 0 <= k < m ==> Dot(w, d.rows[k], n) == d.times[k]
  {
    if m > 0 {
      NoErrorIff(d, w, n, m - 1);
      var e := Error(d, w, n, m - 1);
      Square(e);
      if e != 0.0 {
        var q := SquareOf(e);
      }
      hide Dot;
      assert e == 0.0 <==> Dot(w, d.rows[m - 1], n) == d.times[m - 1];
    }
  }

  /** The sum of the squares of one feature. */
  ghost function ColumnNorm(d: Data, n: nat, m: nat, f: nat): real
    requires d.Fits(n) && m <= |d.times| && f < n
  {
    if m == 0 then 0.0 else ColumnNorm(d, n, m - 1, f) + d.rows[m - 1][f] * d.rows[m - 1][f]
  }

  /** A square of a difference, multiplied out and summed up. */
  ghost function Expansion(s: real, a: real, c: real, r: real): real {
    s - 2.0 * a * c + a * a * r
  }

  lemma {:induction false} ErrorAlong(d: Data, w: Vector, n: nat, m: nat, f: nat, x: real)
    requires d.Fits(n) && n <= |w| && m <= |d.times| && f < n
    ensures SquaredError(d, w[f := w[f] - x], n, m)
            == Expansion(SquaredError(d, w, n, m), x, Derivative(d, w, n, m, f), ColumnNorm(d, n, m, f))
  {
    hide Error, Expansion;
    NoExpansion(x);
    if m > 0 {
      var k, w' := m - 1, w[f := w[f] - x];
      ErrorAlong(d, w, n, k, f, x);
      assert w' == w[f := w[f] + -x];
      ErrorIsAffine(d, w, n, k, f, -x);
      var e, e', y := Error(d, w, n, k), Error(d, w', n, k), d.rows[k][f];
      assert e' == e - x * y;
      Collect(SquaredError(d, w', n, k), SquaredError(d, w, n, k), x, Derivative(d, w, n, k, f), ColumnNorm(d, n, k, f),
              e, e', y);
      assert SquaredError(d, w', n, m) == SquaredError(d, w', n, k) + e' * e';
      assert SquaredError(d, w, n, m) == SquaredError(d, w, n, k) + e * e;
      assert Derivative(d, w, n, m, f) == Derivative(d, w, n, k, f) + e * y;
      assert ColumnNorm(d, n, m, f) == ColumnNorm(d, n, k, f) + y * y;
    }
  }

  /** `Derivative` is half the derivative: the squared error as a polynomial in the change of one weight. */
  lemma DerivativeIs(d: Data, w: Vector, n: nat, m: nat, f: nat, x: real)
    requires d.Fits(n) && n <= |w| && m <= |d.times| && f < n
    ensures SquaredError(d, w[f := w[f] - x], n, m)
            == SquaredError(d, w, n, m) - 2.0 * x * Derivative(d, w, n, m, f) + x * x * ColumnNorm(d, n, m, f)
  {
    hide SquaredError, Derivative, ColumnNorm;
    ErrorAlong(d, w, n, m, f, x);
  }

  /** Weights that meet every measurement stay as they are. */
  lemma ExactFitStays(d: Data, w: Vector, n: nat, alpha: real)
    requires d.Fits(n) && |w| == n && forall k :: 0 <= k < |d.times| ==> Dot(w, d.rows[k], n) == d.times[k]
    ensures Step(d, w, n, alpha) == w
  {
    forall f | 0 <= f < n ensures Derivative(d, w, n, |d.times|, f) == 0.0 {
      NoSlope(d, w, n, |d.times|, f);
    }
    SameVector(Step(d, w, n, alpha), w);
  }

  lemma {:induction false} NoSlope(d: Data, w: Vector, n: nat, m: nat, f: nat)
    requires d.Fits(n) && n <= |w| && m <= |d.times| && f < n
    requires forall k :: 0 <= k < m ==> Dot(w, d.rows[k], n) == d.times[k]
    ensures Derivative(d, w, n, m, f) == 0.0
  {
    if m > 0 {
      NoSlope(d, w, n, m - 1, f);
    }
  }

  // ---------- one step ----------

  ghost predicate Moves(w: Vector, w': Vector, g: Vector, n: nat, alpha: real)
    requires n <= |w| && n <= |w'| && n <= |g|
  {
    forall f :: 0 <= f < n ==> w'[f] == w[f] - alpha * g[f]
  }

  /** Moving the weights by `-alpha * g` moves the hypothesis on a row by as much. */
  lemma {:induction false} DotStep(w: Vector, w': Vector, g: Vector, row: Vector, n: nat, alpha: real)
    requires n <= |w| && n <= |w'| && n <= |g| && n <= |row|
    requires Moves(w, w', g, n, alpha)
    ensures Dot(w', row, n) == Dot(w, row, n) - alpha * Dot(g, row, n)
  {
    if n > 0 {
      DotStep(w, w', g, row, n - 1, alpha);
      var f := n - 1;
      assert w'[f] * row[f] == w[f] * row[f] - alpha * (g[f] * row[f]);
      assert alpha * (Dot(g, row, f) + g[f] * row[f]) == alpha * Dot(g, row, f) + alpha * (g[f] * row[f]);
    }
  }

  /** The sum of error times response to `g`, over the rows. */
  ghost function Cross(d: Data, w: Vector, g: Vector, n: nat, m: nat): real
    requires d.Fits(n) && n <= |w| && n <= |g| && m <= |d.times|
  {
    if m == 0 then 0.0 else Cross(d, w, g, n, m - 1) + Error(d, w, n, m - 1) * Dot(g, d.rows[m - 1], n)
  }

  /** The sum of the squared responses to `g`, over the rows. */
  ghost function Response(d: Data, g: Vector, n: nat, m: nat): real
    requires d.Fits(n) && n <= |g| && m <= |d.times|
  {
    if m == 0 then 0.0 else Response(d, g, n, m - 1) + Dot(g, d.rows[m - 1], n) * Dot(g, d.rows[m - 1], n)
  }

  lemma NoExpansion(a: real)
    ensures Expansion(0.0, a, 0.0, 0.0) == 0.0
  {
  }

  lemma {:induction false} ErrorExpands(d: Data, w: Vector, w': Vector, g: Vector, n: nat, m: nat, alpha: real)
    requires d.Fits(n) && n <= |w| && n <= |w'| && n <= |g| && m <= |d.times|
    requires Moves(w, w', g, n, alpha)
    ensures SquaredError(d, w', n, m)
            == Expansion(SquaredError(d, w, n, m), alpha, Cross(d, w, g, n, m), Response(d, g, n, m))
  {
    hide Error, Dot, Moves, Expansion;
    NoExpansion(alpha);
    if m > 0 {
      ErrorExpands(d, w, w', g, n, m - 1, alpha);
      var k := m - 1;
      ErrorMoves(d, w, w', g, n, k, alpha);
      var s, c, r := SquaredError(d, w, n, k), Cross(d, w, g, n, k), Response(d, g, n, k);
      var e, e', q := Error(d, w, n, k), Error(d, w', n, k), Dot(g, d.rows[k], n);
      Collect(SquaredError(d, w', n, k), s, alpha, c, r, e, e', q);
      assert SquaredError(d, w', n, m) == SquaredError(d, w', n, k) + e' * e';
      assert SquaredError(d, w, n, m) == s + e * e;
      assert Cross(d, w, g, n, m) == c + e * q;
      assert Response(d, g, n, m) == r + q * q;
    }
  }

  lemma ErrorMoves(d: Data, w: Vector, w': Vector, g: Vector, n: nat, k: nat, alpha: real)
    requires d.Fits(n) && n <= |w| && n <= |w'| && n <= |g| && k < |d.times|
    requires Moves(w, w', g, n, alpha)
    ensures Error(d, w', n, k) == Error(d, w, n, k) - alpha * Dot(g, d.rows[k], n)
  {
    hide Moves, Dot;
    DotStep(w, w', g, d.rows[k], n, alpha);
  }

  lemma Collect(s': real, s: real, a: real, c: real, r: real, e: real, e': real, q: real)
    requires s' == Expansion(s, a, c, r) && e' == e - a * q
    ensures s' + e' * e' == Expansion(s + e * e, a, c + e * q, r + q * q)
  {
    assert e' * e' == e * e - 2.0 * a * (e * q) + a * a * (q * q);
    assert 2.0 * a * (c + e * q) == 2.0 * a * c + 2.0 * a * (e * q);
    assert a * a * (r + q * q) == a * a * r + a * a * (q * q);
  }

  /** The sum of `g` times the derivative, over the features. */
  ghost function Slope(d: Data, w: Vector, g: Vector, n: nat, m: nat, p: nat): real
    requires d.Fits(n) && n <= |w| && p <= n && p <= |g| && m <= |d.times|
  {
    if p == 0 then 0.0 else Slope(d, w, g, n, m, p - 1) + g[p - 1] * Derivative(d, w, n, m, p - 1)
  }

  lemma {:induction false} SlopeRow(d: Data, w: Vector, g: Vector, n: nat, m: nat, p: nat)
    requires d.Fits(n) && n <= |w| && p <= n && p <= |g| && 0 < m <= |d.times|
    ensures Slope(d, w, g, n, m, p) == Slope(d, w, g, n, m - 1, p) + Error(d, w, n, m - 1) * Dot(g, d.rows[m - 1], p)
  {
    if p > 0 {
      SlopeRow(d, w, g, n, m, p - 1);
      var e, x, y, a := Error(d, w, n, m - 1), g[p - 1], d.rows[m - 1][p - 1], Derivative(d, w, n, m - 1, p - 1);
      assert x * (a + e * y) == x * a + e * (x * y);
      assert e * (Dot(g, d.rows[m - 1], p - 1) + x * y) == e * Dot(g, d.rows[m - 1], p - 1) + e * (x * y);
    }
  }

  lemma {:induction false} SlopeNone(d: Data, w: Vector, g: Vector, n: nat, p: nat)
    requires d.Fits(n) && n <= |w| && p <= n && p <= |g|
    ensures Slope(d, w, g, n, 0, p) == 0.0
  {
    if p > 0 {
      SlopeNone(d, w, g, n, p - 1);
    }
  }

  /** Summing by rows or by features is the same. */
  lemma {:induction false} Exchange(d: Data, w: Vector, g: Vector, n: nat, m: nat)
    requires d.Fits(n) && n <= |w| && n <= |g| && m <= |d.times|
    ensures Cross(d, w, g, n, m) == Slope(d, w, g, n, m, n)
  {
    if m == 0 {
      SlopeNone(d, w, g, n, n);
    } else {
      Exchange(d, w, g, n, m - 1);
      SlopeRow(d, w, g, n, m, n);
    }
  }

  lemma {:induction false} SlopeOfGradient(d: Data, w: Vector, g: Vector, n: nat, m: nat, p: nat)
    requires d.Fits(n) && n <= |w| && p <= n && p <= |g| && m <= |d.times|
    requires forall f :: 0 <= f < p ==> g[f] == Derivative(d, w, n, m, f)
    ensures Slope(d, w, g, n, m, p) == Dot(g, g, p)
  {
    if p > 0 {
      SlopeOfGradient(d, w, g, n, m, p - 1);
    }
  }

  lemma {:induction false} ResponseBound(d: Data, g: Vector, n: nat, m: nat)
    requires d.Fits(n) && n <= |g| && m <= |d.times|
    ensures Response(d, g, n, m) <= FeatureNorm(d, n, m) * Dot(g, g, n)
    ensures FeatureNorm(d, n, m) >= 0.0
  {
    if m > 0 {
      ResponseBound(d, g, n, m - 1);
      CauchySchwarz(g, d.rows[m - 1], n);
      DotSelf(d.rows[m - 1], n);
      var a, b, q := FeatureNorm(d, n, m - 1), Dot(d.rows[m - 1], d.rows[m - 1], n), Dot(g, g, n);
      assert (a + b) * q == a * q + b * q;
    }
  }

  /** The arithmetic of one step. */
  lemma StepArithmetic(alpha: real, g: real, f: real, r: real)
    requires alpha >= 0.0 && g >= 0.0 && f >= 0.0 && r <= f * g && alpha * f <= 2.0
    ensures alpha * alpha * r <= 2.0 * alpha * g
  {
    Square(alpha);
    MulLe(r, f * g, alpha * alpha);
    assert alpha * g >= 0.0;
    MulLe(alpha * f, 2.0, alpha * g);
    assert f * g * (alpha * alpha) == alpha * f * (alpha * g);
  }

  /**
   * If the step size is not negative and, multiplied by the sum of the squared features, at most
   * two, an iteration never increases the squared error.
   */
  lemma StepDescends(d: Data, w: Vector, n: nat, alpha: real)
    requires d.Fits(n) && |w| == n && alpha >= 0.0 && alpha * FeatureNorm(d, n, |d.times|) <= 2.0
    ensures SquaredError(d, Step(d, w, n, alpha), n, |d.times|) <= SquaredError(d, w, n, |d.times|)
  {
    hide Moves, Dot, Derivative, Error, SquaredError, Step, Gradient, Cross, Response, FeatureNorm;
    var m, w', g := |d.times|, Step(d, w, n, alpha), Gradient(d, w, n, |d.times|);
    GradientMoves(d, w, n, alpha);
    ErrorExpands(d, w, w', g, n, m, alpha);
    ResponseBound(d, g, n, m);
    DotSelf(g, n);
    StepArithmetic(alpha, Dot(g, g, n), FeatureNorm(d, n, m), Response(d, g, n, m));
  }

  /** A step moves the weights against the gradient, and the error falls off along it as its square. */
  lemma GradientMoves(d: Data, w: Vector, n: nat, alpha: real)
    requires d.Fits(n) && |w| == n
    ensures var m := |d.times|;
            var g := Gradient(d, w, n, m);
            |g| == n && Moves(w, Step(d, w, n, alpha), g, n, alpha) && Cross(d, w, g, n, m) == Dot(g, g, n)
  {
    hide Dot, Derivative, Error, Cross;
    var g := Gradient(d, w, n, |d.times|);
    Exchange(d, w, g, n, |d.times|);
    SlopeOfGradient(d, w, g, n, |d.times|, n);
  }

  /**
   * For a given point the exact condition: an iteration does not increase the squared error if and only
   * if the step size times the squared response to the gradient is at most twice the squared gradient.
   */
  lemma StepDescendsExactly(d: Data, w: Vector, n: nat, alpha: real)
    requires d.Fits(n) && |w| == n && alpha > 0.0
    ensures var m := |d.times|;
            var g := Gradient(d, w, n, m);
            |g| == n
            && (SquaredError(d, Step(d, w, n, alpha), n, m) <= SquaredError(d, w, n, m)
                <==> alpha * Response(d, g, n, m) <= 2.0 * Dot(g, g, n))
  {
    hide Moves, Dot, Derivative, Error, SquaredError, Step, Gradient, Cross, Response;
    var m, w', g := |d.times|, Step(d, w, n, alpha), Gradient(d, w, n, |d.times|);
    GradientMoves(d, w, n, alpha);
    ErrorExpands(d, w, w', g, n, m, alpha);
    SignOfExpansion(alpha, Dot(g, g, n), Response(d, g, n, m));
  }

  lemma SignOfExpansion(alpha: real, g: real, r: real)
    requires alpha > 0.0
    ensures alpha * alpha * r <= 2.0 * alpha * g <==> alpha * r <= 2.0 * g
  {
    var k := 2.0 * g - alpha * r;
    assert k * alpha == 2.0 * alpha * g - alpha * alpha * r;
    SignOfProduct(k, alpha);
  }

  /** The error never rises from one iteration to any later one. */
  lemma {:induction false} DescentIsMonotone(d: Data, w: Vector, n: nat, alpha: real, i: nat, k: nat)
    requires d.Fits(n) && |w| == n && alpha >= 0.0 && alpha * FeatureNorm(d, n, |d.times|) <= 2.0 && i <= k
    ensures SquaredError(d, Descend(d, w, n, alpha, k), n, |d.times|)
            <= SquaredError(d, Descend(d, w, n, alpha, i), n, |d.times|)
  {
    if i < k {
      DescentIsMonotone(d, w, n, alpha, i, k - 1);
      StepDescends(d, Descend(d, w, n, alpha, k - 1), n, alpha);
    }
  }

  // ---------- the bound on the step size is sharp ----------

  /** With a single feature, how the rows respond to a step is the sum of the squared features. */
  lemma {:induction false} OneFeatureResponse(d: Data, g: Vector, m: nat)
    requires d.Fits(1) && |g| == 1 && m <= |d.times|
    ensures Response(d, g, 1, m) == Dot(g, g, 1) * FeatureNorm(d, 1, m)
  {
    OneProduct(g, g);
    if m > 0 {
      OneFeatureResponse(d, g, m - 1);
      var row := d.rows[m - 1];
      OneProduct(g, row);
      OneProduct(row, row);
      SquareOfProduct(g[0], row[0]);
      assert (g[0] * g[0]) * (FeatureNorm(d, 1, m - 1) + row[0] * row[0])
          == (g[0] * g[0]) * FeatureNorm(d, 1, m - 1) + (g[0] * g[0]) * (row[0] * row[0]);
    }
  }

  lemma OneProduct(a: Vector, b: Vector)
    requires |a| >= 1 && |b| >= 1
    ensures Dot(a, b, 1) == a[0] * b[0]
  {
    assert Dot(a, b, 0) == 0.0;
  }

  lemma SquareOfProduct(x: real, y: real)
    ensures (x * y) * (x * y) == (x * x) * (y * y)
  {
  }

  /**
   * With one feature and any number of measurements the condition on the step size is necessary, unless the
   * derivative is zero already.
   */
  lemma SharpForOneFeature(d: Data, w: Vector, alpha: real)
    requires d.Fits(1) && |w| == 1 && alpha > 0.0 && Derivative(d, w, 1, |d.times|, 0) != 0.0
    ensures SquaredError(d, Step(d, w, 1, alpha), 1, |d.times|) <= SquaredError(d, w, 1, |d.times|)
            <==> alpha * FeatureNorm(d, 1, |d.times|) <= 2.0
  {
    var m := |d.times|;
    var g := Gradient(d, w, 1, m);
    OneProduct(g, g);
    var q := SquareOf(g[0]);
    hide Dot, Derivative, SquaredError, Step, Gradient, Response, FeatureNorm;
    StepDescendsExactly(d, w, 1, alpha);
    OneFeatureResponse(d, g, m);
    SignOfScaled(alpha, q, FeatureNorm(d, 1, m));
  }

  lemma SignOfScaled(alpha: real, q: real, f: real)
    requires q > 0.0
    ensures alpha * (q * f) <= 2.0 * q <==> alpha * f <= 2.0
  {
    var k := 2.0 - alpha * f;
    assert k * q == 2.0 * q - alpha * (q * f);
    SignOfProduct(k, q);
  }

  lemma {:induction false} DotScaled(e: real, g: Vector, row: Vector, b: Vector, n: nat)
    requires n <= |g| && n <= |row| && n <= |b| && forall f :: 0 <= f < n ==> g[f] == e * row[f]
    ensures Dot(g, b, n) == e * Dot(row, b, n)
  {
    if n > 0 {
      DotScaled(e, g, row, b, n - 1);
      assert g[n - 1] * b[n - 1] == e * (row[n - 1] * b[n - 1]);
      assert e * (Dot(row, b, n - 1) + row[n - 1] * b[n - 1]) == e * Dot(row, b, n - 1) + e * (row[n - 1] * b[n - 1]);
    }
  }

  lemma {:induction false} DotCommutes(a: Vector, b: Vector, n: nat)
    requires n <= |a| && n <= |b|
    ensures Dot(a, b, n) == Dot(b, a, n)
  {
    if n > 0 {
      DotCommutes(a, b, n - 1);
    }
  }

  lemma OneRowGradient(d: Data, w: Vector, n: nat)
    requires d.Fits(n) && |w| == n && |d.times| == 1
    ensures var e, g, f := Error(d, w, n, 0), Gradient(d, w, n, 1), FeatureNorm(d, n, 1);
            |g| == n && f >= 0.0 && Dot(g, g, n) == e * (e * f) && Response(d, g, n, 1) == (e * f) * (e * f)
  {
    var e, g, row := Error(d, w, n, 0), Gradient(d, w, n, 1), d.rows[0];
    OneRowSums(d, w, g, n);
    hide Gradient, Derivative, Error, FeatureNorm, Response, Dot;
    DotSelf(row, n);
    DotScaled(e, g, row, row, n);
    DotScaled(e, g, row, g, n);
    DotCommutes(row, g, n);
  }

  lemma OneRowSums(d: Data, w: Vector, g: Vector, n: nat)
    requires d.Fits(n) && |w| == n && |d.times| == 1 && g == Gradient(d, w, n, 1)
    ensures |g| == n && forall f :: 0 <= f < n ==> g[f] == Error(d, w, n, 0) * d.rows[0][f]
    ensures FeatureNorm(d, n, 1) == Dot(d.rows[0], d.rows[0], n)
    ensures Response(d, g, n, 1) == Dot(g, d.rows[0], n) * Dot(g, d.rows[0], n)
  {
    hide Dot, Error;
    forall f | 0 <= f < n ensures g[f] == Error(d, w, n, 0) * d.rows[0][f] {
      assert Derivative(d, w, n, 0, f) == 0.0;
    }
    assert FeatureNorm(d, n, 0) == 0.0 && Response(d, g, n, 0) == 0.0;
  }

  /** So it is with one measurement and any number of features, unless the measurement is met already. */
  lemma SharpForOneMeasurement(d: Data, w: Vector, n: nat, alpha: real)
    requires d.Fits(n) && |w| == n && |d.times| == 1 && alpha > 0.0 && Dot(w, d.rows[0], n) != d.times[0]
    ensures SquaredError(d, Step(d, w, n, alpha), n, 1) <= SquaredError(d, w, n, 1)
            <==> alpha * FeatureNorm(d, n, 1) <= 2.0
  {
    hide Dot, Derivative, SquaredError, Step, Gradient, Response, FeatureNorm;
    var e, f := Error(d, w, n, 0), FeatureNorm(d, n, 1);
    StepDescendsExactly(d, w, n, alpha);
    OneRowGradient(d, w, n);
    var g := Gradient(d, w, n, 1);
    ScaledTwice(alpha, e, f, Response(d, g, n, 1), Dot(g, g, n));
  }

  lemma ScaledTwice(alpha: real, e: real, f: real, r: real, s: real)
    requires e != 0.0 && f >= 0.0 && r == (e * f) * (e * f) && s == e * (e * f)
    ensures alpha * r <= 2.0 * s <==> alpha * f <= 2.0
  {
    var q := SquareOf(e);
    assert s == q * f;
    SquareOfProduct(e, f);
    if f == 0.0 {
      assert e * f == 0.0 && alpha * f == 0.0;
    } else {
      var p := Product(q, f);
      assert r == q * (f * f) == p * f;
      SignOfScaled(alpha, p, f);
    }
  }

  lemma SquareOf(x: real) returns (q: real)
    requires x != 0.0
    ensures q == x * x && q > 0.0
  {
    var y := if x > 0.0 then x else -x;
    q := Product(y, y);
  }

  lemma Product(x: real, y: real) returns (p: real)
    requires x > 0.0 && y > 0.0
    ensures p == x * y && p > 0.0
  {
    p := x * y;
  }

  lemma SignOfProduct(k: real, q: real)
    requires q > 0.0
    ensures k >= 0.0 ==> k * q >= 0.0
    ensures k < 0.0 ==> k * q < 0.0
  {
    if k < 0.0 {
      var m := -k;
      ProductPositive(m, q);
      assert k * q == -(m * q);
    }
  }
}
