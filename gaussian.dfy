/** The front end of `NewMultiVariateGaussian` (gaussian.go): the sample mean and
    covariance of a set of vectors, the two descent loops that fit A with
    A*A ~ covariance and AI with A*AI ~ identity, their gradient clipping and
    their moment updates, and the assembly of the returned matrices.
    The gradient comes from an automatic-differentiation library and is a
    function parameter here; floats are reals, and "the cost is NaN or
    infinite" is a boolean the gradient reports. */
module Gaussian {
  import opened Common
  import opened Matrices
  import opened Vector

  // ---------------------------------------------------------------------
  // Mean and covariance (gaussian.go:27-57)
  // ---------------------------------------------------------------------

  /** Coordinate i of a measurement, or nothing when the vector is shorter. */
  function Coord(v: seq<real>, i: int): real
  {
    if 0 <= i < |v| then v[i] else 0.0
  }

  /** Sum over the vectors of coordinate i. */
  function Total(vs: seq<seq<real>>, i: int): real
  {
    if |vs| == 0 then 0.0 else Total(vs[..|vs| - 1], i) + Coord(vs[|vs| - 1], i)
  }

  /** avg[i] after the guarded division. */
  function Mean(vs: seq<seq<real>>, i: int): real
  {
    if |vs| == 0 then Total(vs, i) else Total(vs, i) / (|vs| as real)
  }

  /** The `avg` slice: the arithmetic mean of every coordinate, all zero without vectors. */
  function Average(vs: seq<seq<real>>, size: nat): (avg: seq<real>)
    ensures |avg| == size
    ensures |vs| > 0 ==> forall i :: 0 <= i < size ==> avg[i] * (|vs| as real) == Total(vs, i)
    ensures |vs| == 0 ==> avg == Zeros(size)
  {
    seq(size, i requires 0 <= i < size => Mean(vs, i))
  }

  /** The contribution of one measurement to cov[i][ii]; a vector shorter than
      i or ii contributes nothing, since the Go loops range over its own length. */
  function Product(v: seq<real>, avg: seq<real>, i: int, ii: int): real
    requires 0 <= i < |avg| && 0 <= ii < |avg|
  {
    if i < |v| && ii < |v| then (avg[i] - v[i]) * (avg[ii] - v[ii]) else 0.0
  }

  /** Sum over the vectors of their products of deviations. */
  function Scatter(vs: seq<seq<real>>, avg: seq<real>, i: int, ii: int): real
    requires 0 <= i < |avg| && 0 <= ii < |avg|
  {
    if |vs| == 0 then 0.0 else Scatter(vs[..|vs| - 1], avg, i, ii) + Product(vs[|vs| - 1], avg, i, ii)
  }

  /** cov[i][ii] after the guarded division. */
  function Covariance(vs: seq<seq<real>>, avg: seq<real>, i: int, ii: int): real
    requires 0 <= i < |avg| && 0 <= ii < |avg|
  {
    if |vs| == 0 then Scatter(vs, avg, i, ii) else Scatter(vs, avg, i, ii) / (|vs| as real)
  }

  /** Every measurement must fit into `size` coordinates, or `avg[i]` goes out of range. */
  predicate Fits(vs: seq<seq<real>>, size: nat)
  {
    forall k :: 0 <= k < |vs| ==> |vs[k]| <= size
  }

  predicate Square(cov: seq<seq<real>>, size: nat)
  {
    |cov| == size && forall i :: 0 <= i < size ==> |cov[i]| == size
  }

  /** The loops of gaussian.go:27-57: accumulate the coordinate totals, divide
      them when there is at least one vector, then accumulate the products of
      deviations from that mean and divide them in the same way. */
  method MeanAndCovariance(vectors: seq<seq<real>>, size: nat) returns (avg: seq<real>, cov: seq<seq<real>>)
    requires Fits(vectors, size)
    ensures avg == Average(vectors, size)
    ensures Square(cov, size)
    ensures forall i, ii :: 0 <= i < size && 0 <= ii < size ==> cov[i][ii] == Covariance(vectors, avg, i, ii)
  {
    avg := Zeros(size);
    for k := 0 to |vectors|
      invariant |avg| == size
      invariant forall j :: 0 <= j < size ==> avg[j] == Total(vectors[..k], j)
    {
      avg := AddMeasures(avg, vectors[k]);
      assert vectors[..k + 1][..k] == vectors[..k];
    }
    assert vectors[..|vectors|] == vectors;
    if |vectors| > 0 {
      var n := |vectors| as real;
      for i := 0 to size
        invariant |avg| == size
        invariant forall j :: 0 <= j < size ==> avg[j] == (if j < i then Total(vectors, j) / n else Total(vectors, j))
      {
        avg := avg[i := avg[i] / n];
      }
    }
    assert avg == Average(vectors, size);

    cov := seq(size, _ => Zeros(size));
    for k := 0 to |vectors|
      invariant Square(cov, size)
      invariant forall i, ii :: 0 <= i < size && 0 <= ii < size ==> cov[i][ii] == Scatter(vectors[..k], avg, i, ii)
    {
      cov := AddDeviations(cov, avg, vectors[k]);
      assert vectors[..k + 1][..k] == vectors[..k];
    }
    assert vectors[..|vectors|] == vectors;
    if |vectors| > 0 {
      cov := DivideAll(cov, |vectors| as real);
    }
  }

  /** `for i, v := range measures { avg[i] += v }` */
  method AddMeasures(avg: seq<real>, measures: seq<real>) returns (r: seq<real>)
    requires |measures| <= |avg|
    ensures |r| == |avg|
    ensures forall j :: 0 <= j < |avg| ==> r[j] == avg[j] + Coord(measures, j)
  {
    r := avg;
    for i := 0 to |measures|
      invariant |r| == |avg|
      invariant forall j :: 0 <= j < |avg| ==> r[j] == avg[j] + (if j < i then measures[j] else 0.0)
    {
      r := r[i := r[i] + measures[i]];
    }
  }

  /** The two inner loops of gaussian.go:43-49 for one measurement. */
  method AddDeviations(cov: seq<seq<real>>, avg: seq<real>, measures: seq<real>) returns (r: seq<seq<real>>)
    requires Square(cov, |avg|) && |measures| <= |avg|
    ensures Square(r, |avg|)
    ensures forall i, ii :: 0 <= i < |avg| && 0 <= ii < |avg| ==>
              r[i][ii] == cov[i][ii] + Product(measures, avg, i, ii)
  {
    r := cov;
    for i := 0 to |measures|
      invariant Square(r, |avg|)
      invariant forall p, q :: 0 <= p < |avg| && 0 <= q < |avg| ==>
                  r[p][q] == cov[p][q] + (if p < i then Product(measures, avg, p, q) else 0.0)
    {
      var v := measures[i];
      var row := r[i];
      for ii := 0 to |measures|
        invariant |row| == |avg|
        invariant forall q :: 0 <= q < |avg| ==>
                    row[q] == cov[i][q] + (if q < ii then Product(measures, avg, i, q) else 0.0)
      {
        var vv := measures[ii];
        var diff1 := avg[i] - v;
        var diff2 := avg[ii] - vv;
        row := row[ii := row[ii] + diff1 * diff2];
      }
      r := r[i := row];
    }
  }

  /** `cov[i][ii] = cov[i][ii] / T(len(vectors))` for every entry. */
  method DivideAll(cov: seq<seq<real>>, n: real) returns (r: seq<seq<real>>)
    requires n != 0.0 && Square(cov, |cov|)
    ensures Square(r, |cov|)
    ensures forall i, ii :: 0 <= i < |cov| && 0 <= ii < |cov| ==> r[i][ii] == cov[i][ii] / n
  {
    r := cov;
    for i := 0 to |cov|
      invariant Square(r, |cov|)
      invariant forall p, q :: 0 <= p < |cov| && 0 <= q < |cov| ==>
                  r[p][q] == (if p < i then cov[p][q] / n else cov[p][q])
    {
      var row := r[i];
      for ii := 0 to |row|
        invariant |row| == |cov|
        invariant forall q :: 0 <= q < |cov| ==> row[q] == (if q < ii then cov[i][q] / n else cov[i][q])
      {
        row := row[ii := row[ii] / n];
      }
      r := r[i := row];
    }
  }

  /** Vectors that all equal v total |vs| times v. */
  lemma {:induction false} TotalOfCopies(vs: seq<seq<real>>, v: seq<real>, i: int)
    requires forall j :: 0 <= j < |vs| ==> vs[j] == v
    ensures Total(vs, i) == (|vs| as real) * Coord(v, i)
  {
    if |vs| > 0 {
      TotalOfCopies(vs[..|vs| - 1], v, i);
    }
  }

  /** Deviations of copies of v from v itself are zero. */
  lemma {:induction false} ScatterOfCopies(vs: seq<seq<real>>, v: seq<real>, i: int, ii: int)
    requires forall j :: 0 <= j < |vs| ==> vs[j] == v
    requires 0 <= i < |v| && 0 <= ii < |v|
    ensures Scatter(vs, v, i, ii) == 0.0
  {
    if |vs| > 0 {
      ScatterOfCopies(vs[..|vs| - 1], v, i, ii);
      var last := vs[|vs| - 1];
      assert last == v;
      ZeroFactor(v[i] - last[i], v[ii] - last[ii]);
    }
  }

  lemma ZeroFactor(a: real, b: real)
    requires a == 0.0
    ensures a * b == 0.0
  {
  }

  /** One or more identical copies of v: the mean is v and the covariance is zero. */
  lemma IdenticalCopies(vs: seq<seq<real>>, v: seq<real>)
    requires |vs| > 0 && forall j :: 0 <= j < |vs| ==> vs[j] == v
    ensures Average(vs, |v|) == v
    ensures forall i, ii :: 0 <= i < |v| && 0 <= ii < |v| ==> Covariance(vs, v, i, ii) == 0.0
  {
    forall i | 0 <= i < |v| ensures Average(vs, |v|)[i] == v[i] {
      TotalOfCopies(vs, v, i);
    }
    forall i, ii | 0 <= i < |v| && 0 <= ii < |v| ensures Covariance(vs, v, i, ii) == 0.0 {
      ScatterOfCopies(vs, v, i, ii);
    }
  }

  /** Every product of deviations is symmetric in its two coordinates. */
  lemma {:induction false} ScatterSymmetric(vs: seq<seq<real>>, avg: seq<real>, i: int, ii: int)
    requires 0 <= i < |avg| && 0 <= ii < |avg|
    ensures Scatter(vs, avg, i, ii) == Scatter(vs, avg, ii, i)
  {
    if |vs| > 0 {
      ScatterSymmetric(vs[..|vs| - 1], avg, i, ii);
    }
  }

  /** A sum of squares is never negative. */
  lemma {:induction false} ScatterDiagonal(vs: seq<seq<real>>, avg: seq<real>, i: int)
    requires 0 <= i < |avg|
    ensures Scatter(vs, avg, i, i) >= 0.0
  {
    if |vs| > 0 {
      ScatterDiagonal(vs[..|vs| - 1], avg, i);
      var v := vs[|vs| - 1];
      if i < |v| {
        var d := avg[i] - v[i];
        assert d * d >= 0.0;
      }
    }
  }

  /** The covariance is symmetric and its diagonal is not negative. */
  lemma CovarianceShape(vs: seq<seq<real>>, avg: seq<real>, i: int, ii: int)
    requires 0 <= i < |avg| && 0 <= ii < |avg|
    ensures Covariance(vs, avg, i, ii) == Covariance(vs, avg, ii, i)
    ensures Covariance(vs, avg, i, i) >= 0.0
  {
    ScatterSymmetric(vs, avg, i, ii);
    ScatterDiagonal(vs, avg, i);
  }

  // ---------------------------------------------------------------------
  // Descent (gaussian.go:74-92, 114-170, 194-249)
  // ---------------------------------------------------------------------

  /** Decay of the first moment estimate (main.go:38). */
  const B1: real := 0.8
  /** Decay of the second moment estimate (main.go:40). */
  const B2: real := 0.89
  /** The package learning rate used by the first loop (main.go:42). */
  const Eta: real := 0.001
  /** The constant added under the moment quotient. */
  const Epsilon: real := 0.00000001

  /** A square root on the non-negative reals, standing in for `math.Sqrt`. */
  ghost predicate Root(sqrt: real -> real)
  {
    forall y: real :: 0.0 <= y ==> 0.0 <= sqrt(y) && sqrt(y) * sqrt(y) == y
  }

  /** x raised to the n-th power, as `math.Pow` with an integral exponent. */
  function Power(x: real, n: nat): real
  {
    if n == 0 then 1.0 else x * Power(x, n - 1)
  }

  /** For a decay rate strictly between 0 and 1, every positive power is too,
      so the bias corrections `1 - b1` and `1 - b2` never divide by zero. */
  lemma {:induction false} PowerInUnit(x: real, n: nat)
    requires 0.0 < x < 1.0 && n >= 1
    ensures 0.0 < Power(x, n) < 1.0
  {
    if n > 1 {
      PowerInUnit(x, n - 1);
      var p := Power(x, n - 1);
      assert x * p < 1.0 * p;
    }
  }

  /** The weight values X with their two moment states States[StateM], States[StateV]. */
  datatype Moments = Moments(x: seq<real>, m: seq<real>, v: seq<real>)

  /** All three slices have one entry per weight and the second moment is never negative. */
  predicate Sound(w: Moments)
  {
    |w.m| == |w.x| && |w.v| == |w.x| && forall k :: 0 <= k < |w.v| ==> w.v[k] >= 0.0
  }

  function FirstMoment(m: real, g: real): real
  {
    B1 * m + (1.0 - B1) * g
  }

  function SecondMoment(v: real, g: real): real
  {
    B2 * v + (1.0 - B2) * g * g
  }

  /** A new second moment from a non-negative one is non-negative. */
  lemma SecondMomentNonNegative(v: real, g: real)
    requires v >= 0.0
    ensures SecondMoment(v, g) >= 0.0
  {
    assert g * g >= 0.0;
  }

  /** vhat: the bias-corrected second moment, clamped at zero. */
  function Corrected(v: real, b2: real): (vhat: real)
    requires b2 != 1.0
    ensures vhat >= 0.0
    ensures v / (1.0 - b2) >= 0.0 ==> vhat == v / (1.0 - b2)
  {
    var vhat := v / (1.0 - b2);
    if vhat < 0.0 then 0.0 else vhat
  }

  /** The amount subtracted from one weight: rate * mhat / (sqrt(vhat) + 1e-8). */
  function Delta(m: real, v: real, b1: real, b2: real, rate: real, sqrt: real -> real): real
    requires b1 != 1.0 && b2 != 1.0 && Root(sqrt)
  {
    var mhat := m / (1.0 - b1);
    var root := sqrt(Corrected(v, b2));
    rate * mhat / (root + Epsilon)
  }

  /** The gradient multiplied by the clipping factor. */
  function Scaled(d: seq<real>, s: real): (r: seq<real>)
    ensures |r| == |d| && forall k :: 0 <= k < |d| ==> r[k] == d[k] * s
  {
    seq(|d|, k requires 0 <= k < |d| => d[k] * s)
  }

  /** The new first moments of a whole weight from its clipped gradient g. */
  function FirstMoments(m: seq<real>, g: seq<real>): (r: seq<real>)
    requires |g| == |m|
    ensures |r| == |m| && forall k :: 0 <= k < |m| ==> r[k] == FirstMoment(m[k], g[k])
  {
    seq(|m|, k requires 0 <= k < |m| => FirstMoment(m[k], g[k]))
  }

  /** The new second moments of a whole weight; they stay non-negative. */
  function SecondMoments(v: seq<real>, g: seq<real>): (r: seq<real>)
    requires |g| == |v|
    ensures |r| == |v| && forall k :: 0 <= k < |v| ==> r[k] == SecondMoment(v[k], g[k])
    ensures (forall k :: 0 <= k < |v| ==> v[k] >= 0.0) ==> forall k :: 0 <= k < |v| ==> r[k] >= 0.0
  {
    var r := seq(|v|, k requires 0 <= k < |v| => SecondMoment(v[k], g[k]));
    if forall k :: 0 <= k < |v| ==> v[k] >= 0.0 then
      forall k | 0 <= k < |v| ensures r[k] >= 0.0 {
        SecondMomentNonNegative(v[k], g[k]);
      }
      r
    else r
  }

  /** The weights after the moments have moved: each weight goes against its
      corrected moment ratio. */
  function Moved(x: seq<real>, m: seq<real>, v: seq<real>, b1: real, b2: real, rate: real, sqrt: real -> real): (r: seq<real>)
    requires |m| == |x| && |v| == |x| && b1 != 1.0 && b2 != 1.0 && Root(sqrt)
    ensures |r| == |x| && forall k :: 0 <= k < |x| ==> r[k] == x[k] - Delta(m[k], v[k], b1, b2, rate, sqrt)
  {
    seq(|x|, k requires 0 <= k < |x| => x[k] - Delta(m[k], v[k], b1, b2, rate, sqrt))
  }

  /** One update of every weight from its gradient d, scaled by the clipping factor:
      first the two moments, then the weight moves against the corrected ratio. */
  function AdamStep(w: Moments, d: seq<real>, scaling: real, b1: real, b2: real, rate: real, sqrt: real -> real): (r: Moments)
    requires Sound(w) && |d| == |w.x| && b1 != 1.0 && b2 != 1.0 && Root(sqrt)
    ensures Sound(r) && |r.x| == |w.x|
    ensures forall k :: 0 <= k < |w.x| ==>
              r.m[k] == FirstMoment(w.m[k], Scaled(d, scaling)[k]) &&
              r.v[k] == SecondMoment(w.v[k], Scaled(d, scaling)[k]) &&
              r.x[k] == w.x[k] - Delta(r.m[k], r.v[k], b1, b2, rate, sqrt)
  {
    var g := Scaled(d, scaling);
    var m := FirstMoments(w.m, g);
    var v := SecondMoments(w.v, g);
    Moments(Moved(w.x, m, v, b1, b2, rate, sqrt), m, v)
  }

  /** Sum of the squares of a gradient slice: its dot product with itself. */
  function SquaredNorm(d: seq<real>): real
  {
    DotSum(d, d)
  }

  /** Every prefix sum of squares is non-negative, so the whole sum is too. */
  lemma {:induction false} SquaresNonNegative(d: seq<real>, n: nat)
    requires n <= |d|
    ensures DotSum(d[..n], d) >= 0.0
  {
    if n > 0 {
      assert d[..n][..n - 1] == d[..n - 1];
      SquaresNonNegative(d, n - 1);
      assert d[n - 1] * d[n - 1] >= 0.0;
    }
  }

  lemma SquaredNormNonNegative(d: seq<real>)
    ensures SquaredNorm(d) >= 0.0
  {
    SquaresNonNegative(d, |d|);
    assert d[..|d|] == d;
  }

  /** Gradients above unit norm are scaled down to unit norm. */
  function Scaling(norm: real): (s: real)
    requires norm >= 0.0
    ensures 0.0 < s <= 1.0
    ensures norm <= 1.0 ==> s == 1.0
  {
    if norm > 1.0 then 1.0 / norm else 1.0
  }

  /** Scaling a gradient by s scales its squared norm by s * s. */
  lemma SquaredNormScaled(d: seq<real>, s: real)
    ensures SquaredNorm(Scaled(d, s)) == (s * s) * SquaredNorm(d)
  {
    var scaled := Scaled(d, s);
    DotScale(scaled, d, s, scaled);
    DotSymmetric(scaled, d);
    DotScale(d, d, s, scaled);
  }

  /** Above unit norm the clipping factor is the reciprocal of the norm. */
  lemma ScalingInverse(norm: real)
    requires norm > 1.0
    ensures Scaling(norm) * norm == 1.0
  {
  }

  /** A factor that is 1 up to unit norm and the norm's reciprocal above it
      leaves a squared norm of at most one. */
  lemma ClipBound(total: real, norm: real, s: real)
    requires 0.0 <= norm && norm * norm == total
    requires norm > 1.0 ==> s * norm == 1.0
    requires norm <= 1.0 ==> s == 1.0
    ensures (s * s) * total <= 1.0
  {
    if norm > 1.0 {
      Regroup(s, norm);
    } else {
      assert norm * norm <= 1.0 * norm;
    }
  }

  lemma Regroup(s: real, n: real)
    ensures (s * s) * (n * n) == (s * n) * (s * n)
  {
  }

  /** Scaling by the clipping factor of a norm leaves a squared norm of at most one. */
  lemma ClipArithmetic(total: real, norm: real)
    requires 0.0 <= norm && norm * norm == total
    ensures (Scaling(norm) * Scaling(norm)) * total <= 1.0
  {
    if norm > 1.0 {
      ScalingInverse(norm);
    }
    ClipBound(total, norm, Scaling(norm));
  }

  /** After clipping by the norm of both weights' gradients together (`norm` is
      the square root of their summed squares), the scaled gradients have
      squared norm at most one. */
  lemma ClippedGradient(da: seq<real>, dai: seq<real>, norm: real)
    requires 0.0 <= norm && norm * norm == SquaredNorm(da) + SquaredNorm(dai)
    ensures SquaredNorm(Scaled(da, Scaling(norm))) + SquaredNorm(Scaled(dai, Scaling(norm))) <= 1.0
  {
    if norm > 1.0 {
      ScalingInverse(norm);
    }
    ClippedBy(da, dai, norm, Scaling(norm));
  }

  /** The same bound for any factor with the clipping factor's two defining properties. */
  lemma ClippedBy(da: seq<real>, dai: seq<real>, norm: real, s: real)
    requires 0.0 <= norm && norm * norm == SquaredNorm(da) + SquaredNorm(dai)
    requires norm > 1.0 ==> s * norm == 1.0
    requires norm <= 1.0 ==> s == 1.0
    ensures SquaredNorm(Scaled(da, s)) + SquaredNorm(Scaled(dai, s)) <= 1.0
  {
    ClipBound(SquaredNorm(da) + SquaredNorm(dai), norm, s);
    ScaledPair(da, dai, s);
  }

  /** Scaling two gradients by s scales their summed squares by s * s. */
  lemma ScaledPair(da: seq<real>, dai: seq<real>, s: real)
    requires (s * s) * (SquaredNorm(da) + SquaredNorm(dai)) <= 1.0
    ensures SquaredNorm(Scaled(da, s)) + SquaredNorm(Scaled(dai, s)) <= 1.0
  {
    SquaredNormScaled(da, s);
    SquaredNormScaled(dai, s);
  }

  /** What `tf64.Gradient` reports for the current weights: the cost, whether it is
      a finite number, and the partial derivatives for A and for AI. */
  datatype Gradient = Gradient(cost: real, finite: bool, da: seq<real>, dai: seq<real>)

  /** The loss as a function of its target (E or I) and the weights A and AI. */
  type Oracle = (seq<real>, seq<real>, seq<real>) -> Gradient

  /** The library fills one derivative per weight. */
  ghost predicate Shaped(grad: Oracle, n: nat)
  {
    forall t, a, ai :: |a| == n && |ai| == n ==> |grad(t, a, ai).da| == n && |grad(t, a, ai).dai| == n
  }

  /** Why a descent loop stopped. */
  datatype Exit = Capped | Converged | Diverged | OutOfFuel

  /** The clipping factor of one iteration. */
  function ClipFactor(g: Gradient, sqrt: real -> real): real
    requires Root(sqrt)
  {
    SquaredNormNonNegative(g.da);
    SquaredNormNonNegative(g.dai);
    Scaling(sqrt(SquaredNorm(g.da) + SquaredNorm(g.dai)))
  }

  /** One moment update with bias exponent i + 1 and the given rate. */
  function Update(w: Moments, d: seq<real>, g: Gradient, i: nat, rate: real, sqrt: real -> real): (r: Moments)
    requires Sound(w) && |d| == |w.x| && Root(sqrt)
    ensures Sound(r) && |r.x| == |w.x|
  {
    PowerInUnit(B1, i + 1);
    PowerInUnit(B2, i + 1);
    AdamStep(w, d, ClipFactor(g, sqrt), Power(B1, i + 1), Power(B2, i + 1), rate, sqrt)
  }

  /** The first loop from iteration i on: A moves with the package rate Eta and bias
      exponent i + 1, AI never changes. It stops before the update when the cost is
      not finite, and after it once 1024 updates are done or, with cutoff != -1,
      once the cost is below cutoff. Returns the new A, the number of updates and the exit. */
  function FitA(e: seq<real>, a: Moments, ai: seq<real>, grad: Oracle, cutoff: real, sqrt: real -> real, i: nat): (Moments, nat, Exit)
    requires Sound(a) && |ai| == |a.x| && Shaped(grad, |a.x|) && Root(sqrt) && i < 1024
    decreases 1024 - i
  {
    var g := grad(e, a.x, ai);
    if !g.finite then (a, i, Diverged)
    else
      var a' := Update(a, g.da, g, i, Eta, sqrt);
      if i + 1 >= 1024 then (a', i + 1, Capped)
      else if cutoff != -1.0 && g.cost < cutoff then (a', i + 1, Converged)
      else FitA(e, a', ai, grad, cutoff, sqrt, i + 1)
  }

  /** The first loop makes at most 1024 updates, keeps the weights sound, reaches
      its cap only after exactly 1024 updates, and never converges early when
      cutoff is -1. */
  lemma {:induction false} FitABounds(e: seq<real>, a: Moments, ai: seq<real>, grad: Oracle, cutoff: real, sqrt: real -> real, i: nat)
    requires Sound(a) && |ai| == |a.x| && Shaped(grad, |a.x|) && Root(sqrt) && i < 1024
    ensures var (a', steps, exit) := FitA(e, a, ai, grad, cutoff, sqrt, i);
            Sound(a') && |a'.x| == |a.x| && i <= steps <= 1024 &&
            (exit == Capped <==> steps == 1024) && exit != OutOfFuel &&
            (exit == Converged ==> cutoff != -1.0)
    decreases 1024 - i
  {
    var g := grad(e, a.x, ai);
    if g.finite {
      var a' := Update(a, g.da, g, i, Eta, sqrt);
      if i + 1 < 1024 && !(cutoff != -1.0 && g.cost < cutoff) {
        FitABounds(e, a', ai, grad, cutoff, sqrt, i + 1);
      }
    }
  }

  /** The inverse loop as written: its counter i is never advanced, so every
      update uses bias exponent i + 1 with the same i, and the 16*1024 cap is
      tested against that same i. It moves only AI, with the `eta` argument.
      Because nothing bounds it, the model runs it for at most `fuel` iterations. */
  function FitAI(id: seq<real>, a: seq<real>, ai: Moments, grad: Oracle, cutoff: real, eta: real, sqrt: real -> real, i: nat, fuel: nat): (Moments, Exit)
    requires Sound(ai) && |a| == |ai.x| && Shaped(grad, |a|) && Root(sqrt)
    decreases fuel
  {
    if fuel == 0 then (ai, OutOfFuel)
    else
      var g := grad(id, a, ai.x);
      if !g.finite then (ai, Diverged)
      else
        var ai' := Update(ai, g.dai, g, i, eta, sqrt);
        if i >= 16 * 1024 then (ai', Capped)
        else if cutoff != -1.0 && g.cost < cutoff then (ai', Converged)
        else FitAI(id, a, ai', grad, cutoff, eta, sqrt, i, fuel - 1)
  }

  /** Started from i = 0 the cap is never reached: the loop stops only when the
      cost is not finite or, with cutoff != -1, below cutoff; with cutoff == -1 it
      can only diverge or run for ever. The weights stay sound throughout. */
  lemma {:induction false} FitAIExits(id: seq<real>, a: seq<real>, ai: Moments, grad: Oracle, cutoff: real, eta: real, sqrt: real -> real, fuel: nat)
    requires Sound(ai) && |a| == |ai.x| && Shaped(grad, |a|) && Root(sqrt)
    ensures var (ai', exit) := FitAI(id, a, ai, grad, cutoff, eta, sqrt, 0, fuel);
            Sound(ai') && |ai'.x| == |ai.x| && exit != Capped &&
            (cutoff == -1.0 ==> exit == Diverged || exit == OutOfFuel)
    decreases fuel
  {
    if fuel > 0 {
      var g := grad(id, a, ai.x);
      if g.finite {
        var ai' := Update(ai, g.dai, g, 0, eta, sqrt);
        if !(cutoff != -1.0 && g.cost < cutoff) {
          FitAIExits(id, a, ai', grad, cutoff, eta, sqrt, fuel - 1);
        }
      }
    }
  }

  /** The clipping bound for the factor the loops compute from their gradient. */
  lemma ClipFactorBound(g: Gradient, sqrt: real -> real)
    requires Root(sqrt)
    ensures SquaredNorm(Scaled(g.da, ClipFactor(g, sqrt))) + SquaredNorm(Scaled(g.dai, ClipFactor(g, sqrt))) <= 1.0
  {
    SquaredNormNonNegative(g.da);
    SquaredNormNonNegative(g.dai);
    var total := SquaredNorm(g.da) + SquaredNorm(g.dai);
    var norm := sqrt(total);
    assert 0.0 <= norm && norm * norm == total;
    ClippedGradient(g.da, g.dai, norm);
  }

  // ---------------------------------------------------------------------
  // The imperative loops
  // ---------------------------------------------------------------------

  /** A tf64 weight: its values X and its two moment states, updated in place. */
  class Weight {
    var x: seq<real>
    var m: seq<real>
    var v: seq<real>

    function State(): Moments
      reads this
    {
      Moments(x, m, v)
    }

    /** Initialised values with both moment states zero (gaussian.go:84-91). */
    constructor (init: seq<real>)
      ensures x == init && m == Zeros(|init|) && v == Zeros(|init|)
      ensures Sound(State())
    {
      x := init;
      m := Zeros(|init|);
      v := Zeros(|init|);
    }

    /** The update loop of gaussian.go:151-163 (and 231-243) over every entry of d. */
    method Step(d: seq<real>, scaling: real, b1: real, b2: real, rate: real, sqrt: real -> real)
      requires Sound(State()) && |d| == |x| && b1 != 1.0 && b2 != 1.0 && Root(sqrt)
      modifies this
      ensures State() == AdamStep(old(State()), d, scaling, b1, b2, rate, sqrt)
      ensures Sound(State())
    {
      ghost var w := State();
      ghost var r := AdamStep(w, d, scaling, b1, b2, rate, sqrt);
      var n := |d|;
      for ii := 0 to n
        invariant |x| == n && |m| == n && |v| == n
        invariant forall k :: 0 <= k < ii ==> x[k] == r.x[k] && m[k] == r.m[k] && v[k] == r.v[k]
        invariant forall k :: ii <= k < n ==> x[k] == w.x[k] && m[k] == w.m[k] && v[k] == w.v[k]
      {
        var g := d[ii] * scaling;
        assert g == Scaled(d, scaling)[ii];
        var m', v' := FirstMoment(m[ii], g), SecondMoment(v[ii], g);
        m := m[ii := m'];
        v := v[ii := v'];
        x := x[ii := x[ii] - Delta(m', v', b1, b2, rate, sqrt)];
      }
      assert x == r.x && m == r.m && v == r.v;
    }
  }

  /** `for _, d := range p.D { norm += d * d }` */
  method SumSquares(d: seq<real>, norm0: real) returns (norm: real)
    ensures norm == norm0 + SquaredNorm(d)
  {
    norm := norm0;
    for k := 0 to |d|
      invariant norm == norm0 + DotSum(d[..k], d)
    {
      assert d[..k + 1][..k] == d[..k];
      norm := norm + d[k] * d[k];
    }
    assert d[..|d|] == d;
  }

  /** The gradient norm and clipping factor of gaussian.go:135-146: the norm runs
      over the derivatives of both weights, and a norm above one is scaled to one. */
  method Clip(g: Gradient, sqrt: real -> real) returns (scaling: real)
    requires Root(sqrt)
    ensures scaling == ClipFactor(g, sqrt)
  {
    var norm := SumSquares(g.da, 0.0);
    norm := SumSquares(g.dai, norm);
    norm := sqrt(norm);
    scaling := 1.0;
    if norm > 1.0 {
      scaling := 1.0 / norm;
    }
  }

  /** One unfolding of FitA after a finite cost. */
  lemma FitANext(e: seq<real>, a: Moments, ai: seq<real>, grad: Oracle, cutoff: real, sqrt: real -> real, i: nat)
    requires Sound(a) && |ai| == |a.x| && Shaped(grad, |a.x|) && Root(sqrt) && i < 1024
    requires grad(e, a.x, ai).finite
    ensures var g := grad(e, a.x, ai);
            var a' := Update(a, g.da, g, i, Eta, sqrt);
            FitA(e, a, ai, grad, cutoff, sqrt, i) ==
              if i + 1 >= 1024 then (a', i + 1, Capped)
              else if cutoff != -1.0 && g.cost < cutoff then (a', i + 1, Converged)
              else FitA(e, a', ai, grad, cutoff, sqrt, i + 1)
  {
  }

  /** One unfolding of FitAI after a finite cost. */
  lemma FitAINext(id: seq<real>, a: seq<real>, ai: Moments, grad: Oracle, cutoff: real, eta: real, sqrt: real -> real, i: nat, fuel: nat)
    requires Sound(ai) && |a| == |ai.x| && Shaped(grad, |a|) && Root(sqrt) && fuel > 0
    requires grad(id, a, ai.x).finite
    ensures var g := grad(id, a, ai.x);
            var ai' := Update(ai, g.dai, g, i, eta, sqrt);
            FitAI(id, a, ai, grad, cutoff, eta, sqrt, i, fuel) ==
              if i >= 16 * 1024 then (ai', Capped)
              else if cutoff != -1.0 && g.cost < cutoff then (ai', Converged)
              else FitAI(id, a, ai', grad, cutoff, eta, sqrt, i, fuel - 1)
  {
  }

  /** The first descent loop (gaussian.go:117-170): only A is updated, with the
      package rate Eta; AI is read but not written. */
  method DescendA(e: seq<real>, a: Weight, ai: Weight, grad: Oracle, cutoff: real, sqrt: real -> real) returns (steps: nat, exit: Exit)
    requires a != ai && Sound(a.State()) && |ai.x| == |a.x| && Shaped(grad, |a.x|) && Root(sqrt)
    modifies a
    ensures (a.State(), steps, exit) == FitA(e, old(a.State()), ai.x, grad, cutoff, sqrt, 0)
  {
    var i := 0;
    while true
      invariant 0 <= i < 1024
      invariant Sound(a.State()) && |a.x| == |ai.x|
      invariant FitA(e, a.State(), ai.x, grad, cutoff, sqrt, i) == FitA(e, old(a.State()), ai.x, grad, cutoff, sqrt, 0)
      decreases 1024 - i
    {
      var g := grad(e, a.x, ai.x);
      if !g.finite {
        steps, exit := i, Diverged;
        break;
      }
      var scaling := Clip(g, sqrt);
      PowerInUnit(B1, i + 1);
      PowerInUnit(B2, i + 1);
      var b1, b2 := Power(B1, i + 1), Power(B2, i + 1);
      ghost var before := a.State();
      a.Step(g.da, scaling, b1, b2, Eta, sqrt);
      assert a.State() == Update(before, g.da, g, i, Eta, sqrt);
      FitANext(e, before, ai.x, grad, cutoff, sqrt, i);
      i := i + 1;
      if i >= 1024 || (cutoff != -1.0 && g.cost < cutoff) {
        steps := i;
        exit := if i >= 1024 then Capped else Converged;
        break;
      }
    }
  }

  /** The inverse loop (gaussian.go:197-249) as written: `i` starts at 0 and is
      never advanced, so the cap test `i >= 16*1024` never succeeds. Only AI is
      updated, with the `eta` argument. At most `fuel` iterations are modelled. */
  method DescendAI(id: seq<real>, a: Weight, ai: Weight, grad: Oracle, cutoff: real, eta: real, sqrt: real -> real, fuel: nat) returns (exit: Exit)
    requires a != ai && Sound(ai.State()) && |ai.x| == |a.x| && Shaped(grad, |a.x|) && Root(sqrt)
    modifies ai
    ensures (ai.State(), exit) == FitAI(id, a.x, old(ai.State()), grad, cutoff, eta, sqrt, 0, fuel)
  {
    var i := 0;
    var left := fuel;
    while true
      invariant i == 0
      invariant Sound(ai.State()) && |a.x| == |ai.x|
      invariant FitAI(id, a.x, ai.State(), grad, cutoff, eta, sqrt, i, left) == FitAI(id, a.x, old(ai.State()), grad, cutoff, eta, sqrt, 0, fuel)
      decreases left
    {
      if left == 0 {
        exit := OutOfFuel;
        break;
      }
      var g := grad(id, a.x, ai.x);
      if !g.finite {
        exit := Diverged;
        break;
      }
      var scaling := Clip(g, sqrt);
      PowerInUnit(B1, i + 1);
      PowerInUnit(B2, i + 1);
      var b1, b2 := Power(B1, i + 1), Power(B2, i + 1);
      ghost var before := ai.State();
      ai.Step(g.dai, scaling, b1, b2, eta, sqrt);
      assert ai.State() == Update(before, g.dai, g, i, eta, sqrt);
      FitAINext(id, a.x, before, grad, cutoff, eta, sqrt, i, left);
      if i >= 16 * 1024 || (cutoff != -1.0 && g.cost < cutoff) {
        exit := if i >= 16 * 1024 then Capped else Converged;
        break;
      }
      left := left - 1;
    }
  }

  /** The covariance laid out row by row, as E.X is filled (gaussian.go:97-102). */
  function Flat(cov: seq<seq<real>>, size: nat): (e: seq<real>)
    requires Square(cov, size)
    ensures |e| == size * size
    ensures forall i, ii :: 0 <= i < size && 0 <= ii < size ==> At(Matrix(size, size, e), i, ii) == cov[i][ii]
  {
    Stacked(cov, size);
    Flatten(cov)
  }

  /** The identity I (gaussian.go:103-112). */
  function Identity(size: nat): (id: seq<real>)
    ensures |id| == size * size
    ensures forall i, ii :: 0 <= i < size && 0 <= ii < size ==>
              At(Matrix(size, size, id), i, ii) == (if i == ii then 1.0 else 0.0)
  {
    var rows := seq(size, i requires 0 <= i < size => seq(size, ii requires 0 <= ii < size => if i == ii then 1.0 else 0.0));
    Stacked(rows, size);
    Flatten(rows)
  }

  /** `NewMultiVariateGaussian`: the mean and covariance, the fit of A to the
      covariance, the optional fit of AI to the inverse, and the three returned
      matrices. The random initial weights are parameters. */
  method NewMultiVariateGaussian(cutoff: real, eta: real, invert: bool, size: nat, vectors: seq<seq<real>>,
                                 initA: seq<real>, initAI: seq<real>, fitGrad: Oracle, invGrad: Oracle,
                                 sqrt: real -> real, fuel: nat)
      returns (A: Matrix, AI: Matrix, u: Matrix)
    requires Fits(vectors, size)
    requires |initA| == size * size && |initAI| == size * size
    requires Shaped(fitGrad, size * size) && Shaped(invGrad, size * size) && Root(sqrt)
    ensures A.cols == size && A.rows == size && WellFormed(A)
    ensures AI.cols == size && AI.rows == size && WellFormed(AI)
    ensures u == Matrix(size, 1, Average(vectors, size))
    ensures var start := Moments(initA, Zeros(size * size), Zeros(size * size));
            var (fitted, _, _) := FitA(Flat(Covariances(vectors, size), size), start, initAI, fitGrad, cutoff, sqrt, 0);
            A.data == fitted.x &&
            AI.data == (if invert
                        then FitAI(Identity(size), fitted.x, Moments(initAI, Zeros(size * size), Zeros(size * size)),
                                   invGrad, cutoff, eta, sqrt, 0, fuel).0.x
                        else initAI)
  {
    var avg, cov := MeanAndCovariance(vectors, size);
    var a := new Weight(initA);
    var ai := new Weight(initAI);
    var e := Flat(cov, size);
    ghost var expected := Covariances(vectors, size);
    forall i | 0 <= i < size ensures cov[i] == expected[i] {
      assert forall ii :: 0 <= ii < size ==> cov[i][ii] == expected[i][ii];
    }
    assert cov == expected;
    FitABounds(e, a.State(), ai.x, fitGrad, cutoff, sqrt, 0);
    var _, _ := DescendA(e, a, ai, fitGrad, cutoff, sqrt);
    if invert {
      FitAIExits(Identity(size), a.x, ai.State(), invGrad, cutoff, eta, sqrt, fuel);
      var _ := DescendAI(Identity(size), a, ai, invGrad, cutoff, eta, sqrt, fuel);
    }
    A := Matrix(size, size, a.x);
    AI := Matrix(size, size, ai.x);
    u := Matrix(size, 1, avg);
  }

  /** The covariance matrix as a value: entry (i, ii) is Covariance about the mean. */
  function Covariances(vs: seq<seq<real>>, size: nat): (cov: seq<seq<real>>)
    ensures Square(cov, size)
    ensures forall i, ii :: 0 <= i < size && 0 <= ii < size ==> cov[i][ii] == Covariance(vs, Average(vs, size), i, ii)
  {
    var avg := Average(vs, size);
    seq(size, i requires 0 <= i < size => seq(size, ii requires 0 <= ii < size => Covariance(vs, avg, i, ii)))
  }
}
