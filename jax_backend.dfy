/** The JAX backend's experimental activations, reduced to their selection
    rules over exact reals: the NaN mask and the clamp in front of `logit`,
    the strict threshold of `thresholded_relu`, the pass-through threshold of
    `softplus`, the custom gradient of `relu6`, and the axis permutations
    `batch_norm` transposes with. The `jax.nn` kernels themselves are
    parameters (`softplus`) or closed-form clips (`relu6`). */
module JaxBackend {
  import opened Common

  // ---------------------------------------------------------------------
  // logit

  /** The value `logit` takes the log-odds of. Without `eps`, inputs outside
      [0, 1] become NaN and the rest pass unchanged; with `eps`, inputs are
      clipped to [eps, 1 - eps]. */
  function LogitInput(x: real, eps: Option<real>): (r: Num)
    ensures eps.None? ==> (r == NaN <==> x < 0.0 || x > 1.0)
    ensures eps.None? && 0.0 <= x <= 1.0 ==> r == Fin(x)
    ensures eps.Some? ==> r.Fin? && r.v <= 1.0 - eps.value
    ensures eps.Some? && eps.value <= 1.0 - eps.value ==> eps.value <= r.v
    ensures eps.Some? && eps.value <= x <= 1.0 - eps.value ==> r == Fin(x)
    ensures eps.Some? && x < eps.value <= 1.0 - eps.value ==> r == Fin(eps.value)
    ensures eps.Some? && x > 1.0 - eps.value ==> r == Fin(1.0 - eps.value)
  {
    match eps
    case None => if x > 1.0 || x < 0.0 then NaN else Fin(x)
    case Some(e) => Fin(Clip(x, e, 1.0 - e))
  }

  /** The odds `x / (1 - x)` of the masked or clipped input: the argument of
      the final `log`, which is not part of this model. */
  function LogitOdds(x: real, eps: Option<real>): (r: Num)
    ensures eps.None? ==> (r == NaN <==> x < 0.0 || x > 1.0)
    ensures eps.None? && x == 1.0 ==> r == PosInf
    ensures eps.Some? && 0.0 < eps.value < 1.0 ==> r.Fin? && r.v > 0.0
  {
    match LogitInput(x, eps)
    case Fin(p) =>
      if 0.0 < p < 1.0 then QuotientPositive(p, 1.0 - p); Div(p, 1.0 - p)
      else Div(p, 1.0 - p)
    case other => other
  }

  /** Backend `logit`, element by element (up to the final `log`). */
  function Logit(x: seq<real>, eps: Option<real>): (r: seq<Num>)
    ensures |r| == |x|
    ensures eps.None? ==> forall i :: 0 <= i < |x| ==> (r[i] == NaN <==> x[i] < 0.0 || x[i] > 1.0)
    ensures eps.None? ==> forall i :: 0 <= i < |x| && x[i] == 1.0 ==> r[i] == PosInf
    ensures eps.Some? && 0.0 < eps.value < 1.0 ==> forall i :: 0 <= i < |x| ==> r[i].Fin? && r[i].v > 0.0
  {
    seq(|x|, i requires 0 <= i < |x| => LogitOdds(x[i], eps))
  }

  /** Without `eps`: NaN outside [0, 1], +inf odds at 1 (log gives +inf),
      zero odds at 0 (log gives -inf), finite non-negative odds in between. */
  lemma LogitUnclamped(x: real)
    ensures x < 0.0 || x > 1.0 ==> LogitOdds(x, None) == NaN
    ensures x == 1.0 ==> LogitOdds(x, None) == PosInf
    ensures 0.0 <= x < 1.0 ==> LogitOdds(x, None).Fin? && LogitOdds(x, None).v >= 0.0
    ensures 0.0 <= x < 1.0 ==> (LogitOdds(x, None) == Fin(0.0) <==> x == 0.0)
  {
    if 0.0 <= x < 1.0 {
      var d := 1.0 - x;
      assert LogitOdds(x, None) == Fin(x / d);
      assert d > 0.0;
      var q := x / d;
      assert q * d == x;
    }
  }

  /** With 0 < eps < 1, the clipped input lies strictly between 0 and 1, so
      the odds are always finite and positive: no NaN and no infinity. */
  lemma LogitClampedFinite(x: real, e: real)
    requires 0.0 < e < 1.0
    ensures LogitOdds(x, Some(e)).Fin? && LogitOdds(x, Some(e)).v > 0.0
  {
  }

  /** The two documented examples of `logit`, up to the final `log`:
      log 4 = 1.3863 and log(1/4) = -1.3863, and +inf, -inf, log 9 = 2.1972. */
  lemma LogitExamples()
    ensures Logit([1.0, 2.0, -0.9], Some(0.2)) == [Fin(4.0), Fin(4.0), Fin(0.25)]
    ensures Logit([1.0, 0.0, 0.9], None) == [PosInf, Fin(0.0), Fin(9.0)]
  {
    assert LogitOdds(1.0, Some(0.2)) == Fin(4.0);
    assert LogitOdds(2.0, Some(0.2)) == Fin(4.0);
    assert LogitOdds(-0.9, Some(0.2)) == Fin(0.25);
    assert LogitOdds(1.0, None) == PosInf;
    assert LogitOdds(0.0, None) == Fin(0.0);
    assert LogitOdds(0.9, None) == Fin(9.0);
  }

  // ---------------------------------------------------------------------
  // thresholded_relu

  /** `where(x > threshold, x, 0)` on one element. */
  function ThresholdedReluAt(x: real, threshold: real): real
  {
    if x > threshold then x else 0.0
  }

  function ThresholdedRelu(x: seq<real>, threshold: real): (r: seq<real>)
    ensures |r| == |x|
    ensures forall i :: 0 <= i < |x| ==>
      (x[i] > threshold ==> r[i] == x[i]) && (x[i] <= threshold ==> r[i] == 0.0)
  {
    seq(|x|, i requires 0 <= i < |x| => ThresholdedReluAt(x[i], threshold))
  }

  /** The selection is strict: an element equal to the threshold is zeroed.
      Every output is the input or zero, and with threshold 0 the rule is
      the plain ReLU max(x, 0). */
  lemma ThresholdedReluSelects(x: real, t: real)
    ensures ThresholdedReluAt(t, t) == 0.0
    ensures ThresholdedReluAt(x, t) == x || ThresholdedReluAt(x, t) == 0.0
    ensures ThresholdedReluAt(x, 0.0) == Max(x, 0.0)
    ensures t >= 0.0 ==> ThresholdedReluAt(x, t) >= 0.0
  {
  }

  /** Applying the rule twice changes nothing, for every threshold. */
  lemma ThresholdedReluIdempotent(x: seq<real>, t: real)
    ensures ThresholdedRelu(ThresholdedRelu(x, t), t) == ThresholdedRelu(x, t)
  {
  }

  /** For a non-negative threshold the rule is monotone; for a negative one
      it is not (an element at the threshold drops to 0, above the elements
      just over it). */
  lemma ThresholdedReluMonotone(x: real, y: real, t: real)
    requires t >= 0.0 && x <= y
    ensures ThresholdedReluAt(x, t) <= ThresholdedReluAt(y, t)
  {
  }

  lemma ThresholdedReluNotMonotoneBelowZero(t: real)
    requires t < 0.0
    ensures ThresholdedReluAt(t, t) > ThresholdedReluAt(t / 2.0, t)
  {
  }

  // ---------------------------------------------------------------------
  // relu6

  /** `jax.nn.relu6`: clip into [0, 6]. */
  function Relu6At(x: real): (r: real)
    ensures 0.0 <= r <= 6.0
    ensures 0.0 <= x <= 6.0 ==> r == x
    ensures x < 0.0 ==> r == 0.0
    ensures x > 6.0 ==> r == 6.0
  {
    Clip(x, 0.0, 6.0)
  }

  function Relu6(x: seq<real>): (r: seq<real>)
    ensures |r| == |x|
    ensures forall i :: 0 <= i < |x| ==> 0.0 <= r[i] <= 6.0 && (0.0 <= x[i] <= 6.0 ==> r[i] == x[i])
    ensures forall i :: 0 <= i < |x| ==> (x[i] < 0.0 ==> r[i] == 0.0) && (x[i] > 6.0 ==> r[i] == 6.0)
  {
    seq(|x|, i requires 0 <= i < |x| => Relu6At(x[i]))
  }

  /** The custom gradient bound to `relu6`: the incoming gradient strictly
      inside (0, 6), zero elsewhere, including at 0 and at 6. */
  function Relu6Grad(x: real, grad: real): (r: real)
    ensures r == grad || r == 0.0
    ensures x <= 0.0 || x >= 6.0 ==> r == 0.0
    ensures 0.0 < x < 6.0 ==> r == grad
  {
    if 6.0 > x && x > 0.0 then grad else 0.0
  }

  /** Inside (0, 6) relu6 is the identity on a neighbourhood of x, and the
      gradient passes through unchanged. */
  lemma Relu6GradInside(x: real, y: real, grad: real)
    requires 0.0 < x < 6.0
    requires x - Min(x, 6.0 - x) < y < x + Min(x, 6.0 - x)
    ensures Relu6Grad(x, grad) == grad
    ensures Relu6At(y) == y
  {
  }

  /** Where relu6 is saturated it is constant on a neighbourhood and the
      gradient is zero; at the kinks 0 and 6 the gradient is zero too. */
  lemma Relu6GradOutside(x: real, y: real, grad: real)
    requires (x <= 0.0 && y <= 0.0) || (x >= 6.0 && y >= 6.0)
    ensures Relu6Grad(x, grad) == 0.0
    ensures Relu6At(y) == Relu6At(x)
  {
  }

  // ---------------------------------------------------------------------
  // softplus

  /** The value compared with the threshold: x itself without `beta`,
      x * beta with it. */
  function XBeta(x: real, beta: Option<real>): real
  {
    if beta.None? then x else x * beta.value
  }

  /** Backend `softplus` on one element; `kernel` stands for
      `jax.nn.softplus`. With `beta`, the kernel's value is divided by beta
      (IEEE division, so beta = 0 gives an infinity or NaN). With a
      threshold, x passes through wherever x_beta exceeds it. */
  function SoftplusAt(x: real, beta: Option<real>, threshold: Option<real>, kernel: real -> real): (r: Num)
    ensures threshold.Some? && XBeta(x, beta) > threshold.value ==> r == Fin(x)
    ensures beta.None? && (threshold.None? || x <= threshold.value) ==> r == Fin(kernel(x))
    ensures beta.Some? && beta.value != 0.0 && (threshold.None? || XBeta(x, beta) <= threshold.value) ==>
      r == Fin(kernel(x * beta.value) / beta.value)
  {
    var xb := XBeta(x, beta);
    var res := if beta.None? then Fin(kernel(xb)) else Div(kernel(xb), beta.value);
    if threshold.Some? && xb > threshold.value then Fin(x) else res
  }

  function Softplus(x: seq<real>, beta: Option<real>, threshold: Option<real>, kernel: real -> real): (r: seq<Num>)
    ensures |r| == |x|
    ensures threshold.Some? ==> forall i :: 0 <= i < |x| && XBeta(x[i], beta) > threshold.value ==> r[i] == Fin(x[i])
  {
    seq(|x|, i requires 0 <= i < |x| => SoftplusAt(x[i], beta, threshold, kernel))
  }

  /** Above the threshold the input passes through exactly; at or below it
      the thresholded result is the unthresholded one. */
  lemma SoftplusThreshold(x: real, beta: Option<real>, t: real, kernel: real -> real)
    ensures XBeta(x, beta) > t ==> SoftplusAt(x, beta, Some(t), kernel) == Fin(x)
    ensures XBeta(x, beta) <= t ==> SoftplusAt(x, beta, Some(t), kernel) == SoftplusAt(x, beta, None, kernel)
  {
  }

  /** beta = 1 is the same as no beta. */
  lemma SoftplusUnitBeta(x: real, threshold: Option<real>, kernel: real -> real)
    ensures SoftplusAt(x, Some(1.0), threshold, kernel) == SoftplusAt(x, None, threshold, kernel)
  {
  }

  /** The documented `softplus([1, 2, 3], threshold=2)`: 3 exceeds the
      threshold and is returned as is; 1 and 2 (2 is not above 2) go through
      the kernel. */
  lemma SoftplusExample(kernel: real -> real)
    ensures Softplus([1.0, 2.0, 3.0], None, Some(2.0), kernel) ==
      [Fin(kernel(1.0)), Fin(kernel(2.0)), Fin(3.0)]
  {
  }

  // ---------------------------------------------------------------------
  // batch_norm axes

  /** The axes reduced over in training mode: `(0, *range(2, ndims))`. */
  function TrainingDims(ndims: nat): (r: seq<int>)
    ensures |r| >= 1 && r[0] == 0 && 1 !in r
    ensures ndims >= 2 ==> |r| == ndims - 1 && forall i :: 0 <= i < |r| ==> 0 <= r[i] < ndims
  {
    [0] + Range(2, ndims)
  }

  /** `(0, *range(2, ndims), 1)`: moves the channel axis last. */
  function ForwardPerm(ndims: nat): (r: seq<int>)
    ensures |r| >= 2 && r[0] == 0 && r[|r| - 1] == 1
    ensures ndims >= 2 ==> |r| == ndims
  {
    [0] + Range(2, ndims) + [1]
  }

  /** `(0, ndims - 1, *range(1, ndims - 1))`: moves the last axis back to
      position 1. */
  function BackwardPerm(ndims: nat): (r: seq<int>)
    ensures |r| >= 2 && r[0] == 0 && r[1] == ndims - 1
    ensures ndims >= 2 ==> |r| == ndims
  {
    [0, ndims - 1] + Range(1, ndims - 1)
  }

  predicate IsPermutation(p: seq<int>, n: nat)
  {
    |p| == n && (forall i :: 0 <= i < |p| ==> 0 <= p[i] < n) && Distinct(p)
  }

  datatype TransposeError = NotAPermutation(axes: seq<int>, ndim: nat)

  /** `jnp.transpose` on the axis list of an array (its shape, or any
      per-axis labels): output axis i is input axis p[i]; the axes must be a
      permutation of the input's axes. */
  function Transpose<T>(s: seq<T>, p: seq<int>): (r: Result<seq<T>, TransposeError>)
    ensures r.Ok? <==> IsPermutation(p, |s|)
    ensures r.Ok? ==> |r.value| == |s| && forall i :: 0 <= i < |s| ==> r.value[i] == s[p[i]]
  {
    if IsPermutation(p, |s|) then Ok(seq(|p|, i requires 0 <= i < |p| => s[p[i]]))
    else Err(NotAPermutation(p, |s|))
  }

  /** Training mode reduces over every axis except the channel axis 1, in
      increasing order. */
  lemma TrainingDimsSkipChannel(ndims: nat)
    requires ndims >= 2
    ensures |TrainingDims(ndims)| == ndims - 1
    ensures forall a :: a in TrainingDims(ndims) <==> 0 <= a < ndims && a != 1
    ensures forall i, j :: 0 <= i < j < ndims - 1 ==> TrainingDims(ndims)[i] < TrainingDims(ndims)[j]
  {
    var d := TrainingDims(ndims);
    forall a | 0 <= a < ndims && a != 1 ensures a in d {
      if a == 0 { assert d[0] == a; } else { assert d[a - 1] == a; }
    }
  }

  /** Both permutations are valid exactly when the array has at least two
      axes; the forward one lists the training axes and ends with the
      channel. */
  lemma PermsValid(ndims: nat)
    ensures IsPermutation(ForwardPerm(ndims), ndims) <==> ndims >= 2
    ensures IsPermutation(BackwardPerm(ndims), ndims) <==> ndims >= 2
    ensures ndims >= 2 ==> ForwardPerm(ndims) == TrainingDims(ndims) + [1]
  {
    var f, b := ForwardPerm(ndims), BackwardPerm(ndims);
    if ndims >= 2 {
      assert f[ndims - 1] == 1;
      forall i, j | 0 <= i < j < ndims ensures f[i] != f[j] {
        if j == ndims - 1 && i > 0 { assert f[i] == i + 1; }
      }
      assert b[1] == ndims - 1;
      forall i, j | 0 <= i < j < ndims ensures b[i] != b[j] {
        if i >= 2 { assert b[i] == i - 1 && b[j] == j - 1; }
        else if i == 1 && j >= 2 { assert b[j] == j - 1; }
      }
    } else {
      assert |f| == 2 && f[1] == 1;
    }
  }

  /** Forward after backward is the identity permutation. */
  lemma PermsCompose(ndims: nat)
    requires ndims >= 2
    ensures forall i :: 0 <= i < ndims ==> 0 <= BackwardPerm(ndims)[i] < ndims && ForwardPerm(ndims)[BackwardPerm(ndims)[i]] == i
  {
    var f, b := ForwardPerm(ndims), BackwardPerm(ndims);
    forall i | 0 <= i < ndims ensures 0 <= b[i] < ndims && f[b[i]] == i {
      if i == 0 {
      } else if i == 1 {
        assert b[1] == ndims - 1;
      } else {
        assert b[i] == i - 1;
        assert f[i - 1] == i;
      }
    }
  }

  /** The two transposes of `batch_norm` cancel: whatever per-axis data the
      input carries (its shape, its axis order) comes back unchanged, and in
      between the channel axis sits last. */
  lemma {:induction false} TransposeRoundTrip<T>(s: seq<T>)
    requires |s| >= 2
    ensures Transpose(s, ForwardPerm(|s|)).Ok?
    ensures Transpose(s, ForwardPerm(|s|)).value[|s| - 1] == s[1]
    ensures Transpose(Transpose(s, ForwardPerm(|s|)).value, BackwardPerm(|s|)) == Ok(s)
  {
    var n := |s|;
    PermsValid(n);
    PermsCompose(n);
    var t := Transpose(s, ForwardPerm(n)).value;
    assert ForwardPerm(n)[n - 1] == 1;
    assert |t| == n;
    assert Transpose(t, BackwardPerm(n)).Ok?;
    var u := Transpose(t, BackwardPerm(n)).value;
    forall i | 0 <= i < n ensures u[i] == s[i] {
      assert u[i] == t[BackwardPerm(n)[i]];
    }
    assert u == s;
  }

  /** The axis layout of `batch_norm`'s output: transpose forward, combine
      elementwise, transpose back. The combination is taken to keep the
      transposed shape, which holds when `mean` and `variance` (and `scale`
      and `offset`) are per-channel vectors of shape (C,), as they always
      are in training mode. Statistics passed in inference mode that
      broadcast to more axes would change the output shape; that case is
      not modelled. */
  function BatchNormShape(shape: seq<nat>): (r: Result<seq<nat>, TransposeError>)
    ensures r.Ok? ==> |r.value| == |shape|
    ensures |shape| < 2 ==> r.Err?
  {
    match Transpose(shape, ForwardPerm(|shape|))
    case Err(e) => Err(e)
    case Ok(moved) => Transpose(moved, BackwardPerm(|shape|))
  }

  /** The output has the input's shape whenever the input has at least two
      axes; with fewer, the first transpose is rejected. */
  lemma BatchNormKeepsShape(shape: seq<nat>)
    ensures |shape| >= 2 ==> BatchNormShape(shape) == Ok(shape)
    ensures |shape| < 2 ==> BatchNormShape(shape).Err?
  {
    PermsValid(|shape|);
    if |shape| >= 2 {
      TransposeRoundTrip(shape);
    }
  }
}
