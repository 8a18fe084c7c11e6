/** The unified experimental-activation surface: every operation hands its
    arguments, keyword for keyword, to the routine of the same name in the
    active backend, except `prelu`, which computes its element rule itself
    and falls back to reshaping a 1-D slope when broadcasting fails. The
    active backend is a parameter: a table of routines by name. */
module ExperimentalActivations {
  import opened Common
  import JaxBackend

  // ---------------------------------------------------------------------
  // Backends and delegation

  /** The experimental-activation routines a backend supplies; each takes
      the `out` slot last. */
  datatype Backend = Backend(
    logit: (seq<real>, Option<real>, Option<seq<real>>) -> seq<Num>,
    thresholdedRelu: (seq<real>, real, Option<seq<real>>) -> seq<real>,
    relu6: (seq<real>, Option<seq<real>>) -> seq<real>,
    leakyRelu: (seq<real>, real, Option<seq<real>>) -> seq<real>,
    glu: (seq<real>, int, Option<seq<real>>) -> seq<real>,
    softplus: (seq<real>, Option<real>, Option<real>, Option<seq<real>>) -> seq<Num>
  )

  /** The `jax.nn` kernels the JAX backend calls and that are not part of
      this model. */
  datatype JaxNn = JaxNn(
    softplus: real -> real,
    leakyRelu: (seq<real>, real) -> seq<real>,
    glu: (seq<real>, int) -> seq<real>
  )

  /** The JAX backend as a table; JAX arrays are immutable, so every routine
      ignores `out`. */
  function JaxTable(nn: JaxNn): Backend
  {
    Backend(
      (x, eps, out) => JaxBackend.Logit(x, eps),
      (x, threshold, out) => JaxBackend.ThresholdedRelu(x, threshold),
      (x, out) => JaxBackend.Relu6(x),
      (x, alpha, out) => nn.leakyRelu(x, alpha),
      (x, axis, out) => nn.glu(x, axis),
      (x, beta, threshold, out) => JaxBackend.Softplus(x, beta, threshold, nn.softplus))
  }

  function Logit(be: Backend, x: seq<real>, eps: Option<real> := None, out: Option<seq<real>> := None): seq<Num>
  {
    be.logit(x, eps, out)
  }

  function ThresholdedRelu(be: Backend, x: seq<real>, threshold: real := 0.0, out: Option<seq<real>> := None): seq<real>
  {
    be.thresholdedRelu(x, threshold, out)
  }

  function Relu6(be: Backend, x: seq<real>, out: Option<seq<real>> := None): seq<real>
  {
    be.relu6(x, out)
  }

  function LeakyRelu(be: Backend, x: seq<real>, alpha: real := 0.2, out: Option<seq<real>> := None): seq<real>
  {
    be.leakyRelu(x, alpha, out)
  }

  function Glu(be: Backend, x: seq<real>, axis: int := -1, out: Option<seq<real>> := None): seq<real>
  {
    be.glu(x, axis, out)
  }

  function Softplus(be: Backend, x: seq<real>, beta: Option<real> := None, threshold: Option<real> := None,
                    out: Option<seq<real>> := None): seq<Num>
  {
    be.softplus(x, beta, threshold, out)
  }

  // Through the JAX backend each surface operation computes the JAX rule
  // with the caller's `eps`, `threshold`, `alpha`, `axis` and `beta`
  // unchanged, whatever `out` holds.

  lemma LogitDelegates(nn: JaxNn, x: seq<real>, eps: Option<real>, out: Option<seq<real>>)
    ensures Logit(JaxTable(nn), x, eps, out) == JaxBackend.Logit(x, eps)
  {
  }

  lemma ThresholdedReluDelegates(nn: JaxNn, x: seq<real>, threshold: real, out: Option<seq<real>>)
    ensures ThresholdedRelu(JaxTable(nn), x, threshold, out) == JaxBackend.ThresholdedRelu(x, threshold)
  {
  }

  lemma Relu6Delegates(nn: JaxNn, x: seq<real>, out: Option<seq<real>>)
    ensures Relu6(JaxTable(nn), x, out) == JaxBackend.Relu6(x)
  {
  }

  lemma SoftplusDelegates(nn: JaxNn, x: seq<real>, beta: Option<real>, threshold: Option<real>, out: Option<seq<real>>)
    ensures Softplus(JaxTable(nn), x, beta, threshold, out) == JaxBackend.Softplus(x, beta, threshold, nn.softplus)
  {
  }

  lemma LeakyReluDelegates(nn: JaxNn, x: seq<real>, alpha: real, out: Option<seq<real>>)
    ensures LeakyRelu(JaxTable(nn), x, alpha, out) == nn.leakyRelu(x, alpha)
    ensures LeakyRelu(JaxTable(nn), x) == nn.leakyRelu(x, 0.2)
  {
  }

  lemma GluDelegates(nn: JaxNn, x: seq<real>, axis: int, out: Option<seq<real>>)
    ensures Glu(JaxTable(nn), x, axis, out) == nn.glu(x, axis)
    ensures Glu(JaxTable(nn), x) == nn.glu(x, -1)
  {
  }

  /** The documented `relu6` example: values clip into [0, 6]. */
  lemma Relu6Example(nn: JaxNn)
    ensures Relu6(JaxTable(nn), [-1.0, 0.0, 1.0, 2.0, 3.0, 4.0, 5.0, 6.0, 7.0]) ==
      [0.0, 0.0, 1.0, 2.0, 3.0, 4.0, 5.0, 6.0, 6.0]
  {
  }

  /** The documented `thresholded_relu` examples, on arrays. */
  lemma ThresholdedReluExamples(nn: JaxNn)
    ensures ThresholdedRelu(JaxTable(nn), [-1.0, 0.0, 1.0], 0.5) == [0.0, 0.0, 1.0]
    ensures ThresholdedRelu(JaxTable(nn), [1.5, 0.7, -2.4], 1.0) == [1.5, 0.0, 0.0]
  {
  }

  // ---------------------------------------------------------------------
  // Nestable containers

  /** A container of arrays by key, processed leaf by leaf. */
  type Container = map<string, seq<real>>

  function MapLeaves(c: Container, f: seq<real> -> seq<real>): (r: Container)
    ensures r.Keys == c.Keys
    ensures forall k :: k in c ==> r[k] == f(c[k])
  {
    map k | k in c :: f(c[k])
  }

  /** `thresholded_relu` on a container: the same keys, each leaf
      thresholded by the backend on its own. */
  function ThresholdedReluContainer(be: Backend, c: Container, threshold: real := 0.0): (r: Container)
    ensures r.Keys == c.Keys
    ensures forall k :: k in c ==> r[k] == ThresholdedRelu(be, c[k], threshold)
  {
    MapLeaves(c, x => ThresholdedRelu(be, x, threshold))
  }

  /** The documented container example: keys a and b survive and each leaf
      is thresholded on its own. */
  lemma ThresholdedReluContainerExample(nn: JaxNn)
    ensures ThresholdedReluContainer(JaxTable(nn), map["a" := [1.0, -1.2], "b" := [0.2, 0.6]], 0.5) ==
      map["a" := [1.0, 0.0], "b" := [0.0, 0.6]]
  {
    var r := ThresholdedReluContainer(JaxTable(nn), map["a" := [1.0, -1.2], "b" := [0.2, 0.6]], 0.5);
    assert r["a"] == [1.0, 0.0];
    assert r["b"] == [0.0, 0.6];
  }

  // ---------------------------------------------------------------------
  // prelu: element rule

  /** `where(x > 0, x, x * slope)` on one element; it agrees with the
      documented rule, slope * x below zero and x from zero up. */
  function PreluAt(x: real, slope: real): (r: real)
    ensures r == (if x >= 0.0 then x else slope * x)
  {
    if x > 0.0 then x else x * slope
  }

  /** The code's strict `x > 0` agrees with the documented `x >= 0` (at 0
      both give 0), and PReLU is the ReLU part plus the slope times the
      negative part; slope 0 is ReLU, slope 1 the identity. */
  lemma PreluRule(x: real, slope: real)
    ensures PreluAt(x, slope) == (if x >= 0.0 then x else slope * x)
    ensures PreluAt(x, slope) == JaxBackend.ThresholdedReluAt(x, 0.0) + slope * Min(x, 0.0)
    ensures PreluAt(x, 0.0) == Max(x, 0.0)
    ensures PreluAt(x, 1.0) == x
  {
  }

  /** The slope argument of `prelu`: a Python float or an array. */
  datatype Slope = ScalarSlope(s: real) | ArraySlope(values: seq<real>)

  /** The slope that meets element i of the broadcast result. */
  function SlopeAt(slope: Slope, i: nat): real
    requires slope.ArraySlope? ==> |slope.values| == 1 || i < |slope.values|
  {
    if slope.ScalarSlope? then slope.s
    else if |slope.values| == 1 then slope.values[0]
    else slope.values[i]
  }

  /** The element of x that meets element i of the broadcast result. */
  function XAt(x: seq<real>, i: nat): real
    requires |x| == 1 || i < |x|
  {
    if |x| == 1 then x[0] else x[i]
  }

  /** Length of the broadcast of two 1-D arrays of lengths n and m that
      broadcast: m when n is 1, n otherwise. */
  function BroadcastLen(n: nat, m: nat): nat
  {
    if n == 1 then m else n
  }

  datatype PreluError = NotBroadcastable(xShape: seq<nat>, slopeShape: seq<nat>)

  /** `prelu` on a 1-D input, main path: `x * slope` broadcasts a scalar
      slope, and two 1-D arrays when one has length 1 or both have the same
      length. */
  function Prelu(x: seq<real>, slope: Slope): (r: Result<seq<real>, PreluError>)
    ensures r.Ok? <==> slope.ScalarSlope? || Broadcastable([|x|], [|slope.values|])
    ensures r.Ok? && slope.ScalarSlope? ==> |r.value| == |x|
    ensures r.Ok? && slope.ArraySlope? ==> |r.value| == BroadcastLen(|x|, |slope.values|)
    ensures r.Ok? ==> forall i :: 0 <= i < |r.value| ==>
      (XAt(x, i) > 0.0 ==> r.value[i] == XAt(x, i)) &&
      (XAt(x, i) <= 0.0 ==> r.value[i] == XAt(x, i) * SlopeAt(slope, i))
  {
    if slope.ScalarSlope? then
      Ok(seq(|x|, i requires 0 <= i < |x| => PreluAt(x[i], slope.s)))
    else
      assert Broadcastable([|x|], [|slope.values|]) <==>
        (|x| == 1 || |slope.values| == 1 || |slope.values| == |x|) by {
        assert [|x|][..0] == [];
      }
      if |x| == 1 || |slope.values| == 1 || |slope.values| == |x| then
      var n := BroadcastLen(|x|, |slope.values|);
      Ok(seq(n, i requires 0 <= i < n => PreluAt(XAt(x, i), SlopeAt(slope, i))))
    else
      Err(NotBroadcastable([|x|], [|slope.values|]))
  }

  /** The documented rule holds on the broadcast: x = [-1] against the slope
      [1, 2, 3] gives [-1, -2, -3]. */
  lemma PreluBroadcastExample()
    ensures Prelu([-1.0], ArraySlope([1.0, 2.0, 3.0])) == Ok([-1.0, -2.0, -3.0])
  {
    var r := Prelu([-1.0], ArraySlope([1.0, 2.0, 3.0]));
    assert r.Ok? && |r.value| == 3;
    assert r.value[0] == -1.0 && r.value[1] == -2.0 && r.value[2] == -3.0;
    assert r.value == [-1.0, -2.0, -3.0];
  }

  // ---------------------------------------------------------------------
  // prelu: shapes of the broadcast and of the fallback

  /** Standard broadcasting of two shapes, aligned at their last axes. */
  predicate Broadcastable(a: seq<nat>, b: seq<nat>)
    decreases |a|
  {
    |a| == 0 || |b| == 0 ||
    ((a[|a| - 1] == b[|b| - 1] || a[|a| - 1] == 1 || b[|b| - 1] == 1) &&
     Broadcastable(a[..|a| - 1], b[..|b| - 1]))
  }

  /** Unidirectional broadcasting of `s` to `target`: every axis of s,
      aligned at the end, is 1 or equals the target's. */
  predicate UnidirectionallyBroadcastable(s: seq<nat>, target: seq<nat>)
  {
    |s| <= |target| &&
    forall i :: 0 <= i < |s| ==> s[i] == 1 || s[i] == target[|target| - |s| + i]
  }

  function Product(s: seq<nat>): nat
  {
    if s == [] then 1 else s[0] * Product(s[1..])
  }

  datatype ReshapeError = SizeMismatch(size: nat, shape: seq<nat>)

  /** Reshaping an array of `size` elements succeeds exactly when the new
      shape holds that many elements. */
  function Reshape(size: nat, shape: seq<nat>): (r: Result<seq<nat>, ReshapeError>)
    ensures r.Ok? <==> Product(shape) == size
    ensures r.Ok? ==> r.value == shape
    ensures r.Err? ==> r.error == SizeMismatch(size, shape)
  {
    if Product(shape) == size then Ok(shape) else Err(SizeMismatch(size, shape))
  }

  datatype FallbackError = SlopeNotOneDimensional(slopeShape: seq<nat>) | MatchingAxes(count: nat)

  /** The fallback loop as written: when the slope is 1-D, walk the axes of
      x, append every length to `new_shape` (in both branches) and count the
      axes whose length equals the slope's; proceed only with exactly one
      such axis. Both errors stand for re-raising the broadcast error. */
  method FallbackShape(xShape: seq<nat>, slopeShape: seq<nat>) returns (r: Result<seq<nat>, FallbackError>)
    ensures r.Ok? <==> |slopeShape| == 1 && multiset(xShape)[slopeShape[0]] == 1
    ensures r.Ok? ==> r.value == xShape
    ensures |slopeShape| != 1 ==> r == Err(SlopeNotOneDimensional(slopeShape))
    ensures |slopeShape| == 1 && r.Err? ==> r == Err(MatchingAxes(multiset(xShape)[slopeShape[0]]))
  {
    if |slopeShape| != 1 {
      return Err(SlopeNotOneDimensional(slopeShape));
    }
    var dim := slopeShape[0];
    var newShape: seq<nat> := [];
    var n: nat := 0;
    for i := 0 to |xShape|
      invariant newShape == xShape[..i]
      invariant n == multiset(xShape[..i])[dim]
    {
      var d := xShape[i];
      assert xShape[..i + 1] == xShape[..i] + [d];
      if d == dim {
        newShape := newShape + [d];
        n := n + 1;
      } else {
        newShape := newShape + [d];
      }
    }
    assert xShape[..|xShape|] == xShape;
    if n == 1 {
      return Ok(newShape);
    }
    return Err(MatchingAxes(n));
  }

  /** x of shape (3, 2) and a slope of shape (3,): direct broadcasting fails
      (2 against 3), the fallback finds exactly one matching axis, and then
      cannot reshape the slope's 3 elements to x's shape (3, 2). */
  method FallbackAsWrittenFails() returns (direct: bool, shape: Result<seq<nat>, FallbackError>,
                                           reshaped: Result<seq<nat>, ReshapeError>)
    ensures !direct
    ensures shape == Ok([3, 2])
    ensures reshaped == Err(SizeMismatch(3, [3, 2]))
  {
    direct := Broadcastable([3, 2], [3]);
    assert [3, 2][..1] == [3];
    assert multiset([3, 2])[3] == 1;
    shape := FallbackShape([3, 2], [3]);
    reshaped := Reshape(3, shape.value);
  }

  /** The slope shape the fallback evidently means: the slope's length on the
      one matching axis, 1 on every other axis. */
  function SlopeShapeFor(xShape: seq<nat>, dim: nat): (r: seq<nat>)
    ensures |r| == |xShape|
  {
    seq(|xShape|, i requires 0 <= i < |xShape| => if xShape[i] == dim then dim else 1)
  }

  function Pow(b: nat, e: nat): nat
  {
    if e == 0 then 1 else b * Pow(b, e - 1)
  }

  lemma {:induction false} ProductSlopeShape(xShape: seq<nat>, dim: nat)
    ensures Product(SlopeShapeFor(xShape, dim)) == Pow(dim, multiset(xShape)[dim])
  {
    if xShape != [] {
      var t := xShape[1..];
      ProductSlopeShape(t, dim);
      assert xShape == [xShape[0]] + t;
      assert SlopeShapeFor(xShape, dim)[1..] == SlopeShapeFor(t, dim);
      assert multiset(xShape) == multiset{xShape[0]} + multiset(t);
    }
  }

  /** With exactly one matching axis, the corrected shape holds exactly the
      slope's elements and broadcasts unidirectionally to x. */
  lemma CorrectedShapeWorks(xShape: seq<nat>, dim: nat)
    requires multiset(xShape)[dim] == 1
    ensures Reshape(dim, SlopeShapeFor(xShape, dim)) == Ok(SlopeShapeFor(xShape, dim))
    ensures UnidirectionallyBroadcastable(SlopeShapeFor(xShape, dim), xShape)
  {
    ProductSlopeShape(xShape, dim);
  }

  /** The fallback loop with its evident intent: the matching axis keeps the
      slope's length and every other axis gets 1. */
  method FallbackShapeCorrected(xShape: seq<nat>, slopeShape: seq<nat>) returns (r: Result<seq<nat>, FallbackError>)
    ensures r.Ok? <==> |slopeShape| == 1 && multiset(xShape)[slopeShape[0]] == 1
    ensures r.Ok? ==> r.value == SlopeShapeFor(xShape, slopeShape[0])
    ensures |slopeShape| != 1 ==> r == Err(SlopeNotOneDimensional(slopeShape))
    ensures |slopeShape| == 1 && r.Err? ==> r == Err(MatchingAxes(multiset(xShape)[slopeShape[0]]))
  {
    if |slopeShape| != 1 {
      return Err(SlopeNotOneDimensional(slopeShape));
    }
    var dim := slopeShape[0];
    var newShape: seq<nat> := [];
    var n: nat := 0;
    for i := 0 to |xShape|
      invariant newShape == SlopeShapeFor(xShape[..i], dim)
      invariant n == multiset(xShape[..i])[dim]
    {
      var d := xShape[i];
      assert xShape[..i + 1] == xShape[..i] + [d];
      if d == dim {
        newShape := newShape + [d];
        n := n + 1;
      } else {
        newShape := newShape + [1];
      }
    }
    assert xShape[..|xShape|] == xShape;
    if n == 1 {
      return Ok(newShape);
    }
    return Err(MatchingAxes(n));
  }

  /** How `prelu` applies its slope: directly when the shapes broadcast,
      otherwise through the slope reshaped by the corrected fallback. */
  datatype SlopePlan = Direct | Reshaped(shape: seq<nat>)

  method PreluSlopePlan(xShape: seq<nat>, slopeShape: seq<nat>) returns (r: Result<SlopePlan, FallbackError>)
    ensures Broadcastable(xShape, slopeShape) ==> r == Ok(Direct)
    ensures !Broadcastable(xShape, slopeShape) ==>
      (r.Ok? <==> |slopeShape| == 1 && multiset(xShape)[slopeShape[0]] == 1)
    ensures r.Ok? && r.value.Reshaped? ==>
      Reshape(slopeShape[0], r.value.shape).Ok? && UnidirectionallyBroadcastable(r.value.shape, xShape)
  {
    if Broadcastable(xShape, slopeShape) {
      return Ok(Direct);
    }
    var s := FallbackShapeCorrected(xShape, slopeShape);
    match s
    case Err(e) => r := Err(e);
    case Ok(shape) =>
      CorrectedShapeWorks(xShape, slopeShape[0]);
      r := Ok(Reshaped(shape));
  }
}
