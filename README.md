# ivy experimental activations and creation methods: a Dafny model

This project models the discrete logic inside ivy's experimental
activation functions and two array-creation methods:

- **JAX `nn` frontend helpers**. `_type_conversion` and `_type_conversion_64`
  map a dtype name to a float dtype name. `_batch_promotion` picks one dtype
  for several arguments by a priority rule. `_canonicalize_axis` and
  `_reduction_dims` turn negative axes into positive ones and reject axes
  that are out of bounds or repeated. The frontend `leaky_relu` and `relu6`
  also convert dtypes.
- **JAX backend selection rules**, over exact reals:
  - the NaN mask and the `eps` clamp in front of `logit`;
  - the strict threshold of `thresholded_relu`;
  - the pass-through threshold of `softplus`;
  - the custom gradient of `relu6`;
  - the axis permutations that `batch_norm` transposes with.
- **The unified activation surface**. Each operation hands its arguments,
  unchanged, to the active backend's routine of the same name. `prelu`
  computes its element rule itself and has a fallback for a 1-D slope.
- **The documented contracts of `eye_like` and `trilu`** on integer matrices.
  `trilu` also works on a batch of matrices.

Files: `common.dfy` (optional values, results, IEEE-style numbers, ranges),
`jax_frontend.dfy`, `jax_backend.dfy`, `activations.dfy`, `creation.dfy`.
The active backend is a parameter: a table of routines by name. The JAX
kernels of `jax.nn` that this model cannot see are parameters too
(`JaxNn`).

`_batch_promotion` of float32 and int64 gives float32, not float64: the
float32 test (non_linear_activations.py:49) comes before the 64-bit integer
rule (non_linear_activations.py:61). The model follows the code
(`JaxNnFrontend.PromotionExamples`).

## Model

| member | source | states |
|---|---|---|
| `JaxNnFrontend.TypeConversion` | ivy/functional/frontends/jax/nn/non_linear_activations.py:9-20 | the result always names a float dtype, and a dtype name that already contains "float" is returned unchanged |
| `JaxNnFrontend.TypeConversion64` | ivy/functional/frontends/jax/nn/non_linear_activations.py:23-31 | the result always names a float dtype, and a float name is kept |
| `JaxNnFrontend.TypeConversionByDtype` | ivy/functional/frontends/jax/nn/non_linear_activations.py:9-31 | for every ivy dtype, `_type_conversion` keeps floats, sends 64-bit non-floats (int64, uint64, complex64) to float64 and every other dtype to float32; `_type_conversion_64` sends every non-float to float64 |
| `JaxNnFrontend.TypeConversionIdempotent` | ivy/functional/frontends/jax/nn/non_linear_activations.py:9-31 | converting a converted dtype again changes nothing, and `_type_conversion_64` keeps whatever `_type_conversion` produced |
| `JaxNnFrontend.Ends64` | ivy/functional/frontends/jax/nn/non_linear_activations.py:15 | `"64" in dtype[-2:]` holds exactly when the name ends in "64" |
| `JaxNnFrontend.FloatNames` | ivy/functional/frontends/jax/nn/non_linear_activations.py:14 | among ivy's dtype names, exactly the four float dtypes contain "float" |
| `JaxNnFrontend.Promote` | ivy/functional/frontends/jax/nn/non_linear_activations.py:46-68 | the priority rule returns either the default dtype or a float dtype |
| `JaxNnFrontend.BatchPromotion` | ivy/functional/frontends/jax/nn/non_linear_activations.py:34-68 | the loop collects exactly the dtypes of the array arguments (scalars skipped), and the result is the priority rule on that set |
| `JaxNnFrontend.PromoteDominatesFloats` | ivy/functional/frontends/jax/nn/non_linear_activations.py:46-59 | the result ranks at least as high as every float dtype among the arguments (float16/bfloat16 < float32 < float64) |
| `JaxNnFrontend.PromoteFloatPair` | ivy/functional/frontends/jax/nn/non_linear_activations.py:52-59 | float16 with bfloat16 gives float32; every other pair of floats gives one of the two |
| `JaxNnFrontend.ArrayDtypesPermutation` | ivy/functional/frontends/jax/nn/non_linear_activations.py:37-44 | the collected set, and so the result, is the same for any reordering of the arguments |
| `JaxNnFrontend.ScalarIgnored` | ivy/functional/frontends/jax/nn/non_linear_activations.py:42-43 | a Python int or float anywhere among the arguments does not change the collected set |
| `JaxNnFrontend.PromotionExamples` | ivy/functional/frontends/jax/nn/non_linear_activations.py:34-68 | (float16, bfloat16) and (bfloat16, float16) both give float32; float32 with int64 gives float32 |
| `JaxNnFrontend.CanonicalizeAxis` | ivy/functional/frontends/jax/nn/non_linear_activations.py:71-78 | an error naming the axis exactly when the axis is outside [-ndim, ndim); otherwise the axis modulo ndim, in [0, ndim) |
| `JaxNnFrontend.CanonicalizeIdempotent` | ivy/functional/frontends/jax/nn/non_linear_activations.py:71-78 | a canonical axis is its own canonical form |
| `JaxNnFrontend.CanonicalCollision` | ivy/functional/frontends/jax/nn/non_linear_activations.py:76-77 | two valid axes name the same dimension exactly when they are equal or differ by ndim |
| `JaxNnFrontend.CanonicalizeAll` | ivy/functional/frontends/jax/nn/non_linear_activations.py:87 | succeeds exactly when every axis is in bounds and then canonicalises each in order; otherwise the error names the first out-of-bounds axis |
| `Common.ElementsCardinality` | ivy/functional/frontends/jax/nn/non_linear_activations.py:88-92 | `len(set(s)) == len(s)` holds exactly when s has no repeated element |
| `JaxNnFrontend.ReductionDims` | ivy/functional/frontends/jax/nn/non_linear_activations.py:81-101 | with no axis, both tuples are `range(ndims)`; on success both tuples are the same, distinct and within [0, ndims) |
| `JaxNnFrontend.ReductionDimsAccepts` | ivy/functional/frontends/jax/nn/non_linear_activations.py:87-92 | an axis list is accepted exactly when every axis is in bounds and no two canonicalise alike; then the result holds their canonical forms in order |
| `JaxNnFrontend.ReductionDimsSingle` | ivy/functional/frontends/jax/nn/non_linear_activations.py:85-86 | a scalar axis behaves as a one-element tuple |
| `JaxNnFrontend.ReductionDimsRejectsAliases` | ivy/functional/frontends/jax/nn/non_linear_activations.py:87-92 | axes -1 and ndim-1 together are a duplicate-axis error |
| `JaxNnFrontend.LeakyRelu` | ivy/functional/frontends/jax/nn/non_linear_activations.py:158-161 | the result dtype is always a float, and a float input keeps its dtype |
| `JaxNnFrontend.Relu6` | ivy/functional/frontends/jax/nn/non_linear_activations.py:257-260 | the result dtype is always a float, and a float input keeps its dtype |
| `JaxNnFrontend.FrontendOnJax` | ivy/functional/frontends/jax/nn/non_linear_activations.py:158-161 | on the JAX backend, integer inputs come back as float64 and float inputs keep their dtype; `negative_slope` reaches `jax.nn.leaky_relu` unchanged; relu6 values lie in [0, 6] |
| `Common.Clip` | ivy/functional/backends/jax/experimental/activations.py:15 | `clip(x, lo, hi)`: inputs in [lo, hi] are unchanged, inputs at or below lo become lo and inputs at or above hi become hi; the result never exceeds hi, and with lo > hi every value becomes hi |
| `JaxBackend.LogitInput` | ivy/functional/backends/jax/experimental/activations.py:11-15 | without eps: NaN exactly for inputs outside [0, 1], others unchanged; with eps: inputs in [eps, 1-eps] are unchanged, inputs below eps become eps (when eps <= 1-eps), inputs above 1-eps become 1-eps, and the result always lies in [eps, 1-eps] when eps <= 1-eps |
| `JaxBackend.Logit` | ivy/functional/backends/jax/experimental/activations.py:11-16 | one result per input element; without eps, an element is NaN exactly when its input lies outside [0, 1], and an input of 1 gives +inf; with 0 < eps < 1, every element is finite and positive |
| `JaxBackend.LogitOdds` | ivy/functional/backends/jax/experimental/activations.py:16 | the odds `x / (1 - x)` of the masked or clipped input: without eps, NaN exactly outside [0, 1] and +inf at 1; with 0 < eps < 1, always finite |
| `JaxBackend.LogitUnclamped` | ivy/functional/backends/jax/experimental/activations.py:12-16 | without eps the odds are NaN outside [0, 1], +inf at 1, zero exactly at 0 (so the log is -inf there), and finite and non-negative on [0, 1) |
| `JaxBackend.LogitClampedFinite` | ivy/functional/backends/jax/experimental/activations.py:14-16 | with 0 < eps < 1 the odds are always finite and positive |
| `JaxBackend.LogitExamples` | ivy/functional/ivy/experimental/activations.py:51-59 | the documented examples up to the log: odds 4, 4, 1/4 with eps=0.2, and +inf, 0, 9 without eps |
| `JaxBackend.ThresholdedRelu` | ivy/functional/backends/jax/experimental/activations.py:35-42 | one result per input element: the input where it is strictly above the threshold, 0 elsewhere |
| `JaxBackend.ThresholdedReluSelects` | ivy/functional/backends/jax/experimental/activations.py:42 | an element equal to the threshold becomes 0; each output is the input or 0; threshold 0 is max(x, 0); a non-negative threshold gives non-negative outputs |
| `JaxBackend.ThresholdedReluIdempotent` | ivy/functional/backends/jax/experimental/activations.py:42 | applying the operation twice equals applying it once, for every threshold |
| `JaxBackend.ThresholdedReluMonotone` | ivy/functional/backends/jax/experimental/activations.py:42 | monotone in x for a non-negative threshold |
| `JaxBackend.ThresholdedReluNotMonotoneBelowZero` | ivy/functional/backends/jax/experimental/activations.py:42 | for a negative threshold t, t maps above t/2: not monotone |
| `JaxBackend.Relu6At` | ivy/functional/backends/jax/experimental/activations.py:19-32 | relu6 values lie in [0, 6]: inputs in [0, 6] are unchanged, negative inputs give 0 and inputs above 6 give 6 |
| `JaxBackend.Relu6` | ivy/functional/backends/jax/experimental/activations.py:19-32 | one result per input element, each in [0, 6]: equal to its input when that is in [0, 6], 0 for a negative input, 6 for an input above 6 |
| `JaxBackend.Relu6Grad` | ivy/functional/backends/jax/experimental/activations.py:25-28 | the custom gradient is the incoming gradient strictly inside (0, 6) and 0 elsewhere, including at 0 and 6 |
| `JaxBackend.Relu6GradInside` | ivy/functional/backends/jax/experimental/activations.py:22-28 | strictly inside (0, 6) the incoming gradient passes and relu6 is the identity near x |
| `JaxBackend.Relu6GradOutside` | ivy/functional/backends/jax/experimental/activations.py:22-28 | at or beyond 0 and 6 the gradient is 0, and relu6 is constant there |
| `JaxBackend.SoftplusAt` | ivy/functional/backends/jax/experimental/activations.py:89-96 | x itself where x_beta exceeds the threshold; otherwise the kernel at x without beta, and the kernel at x * beta divided by beta with a non-zero beta |
| `JaxBackend.Softplus` | ivy/functional/backends/jax/experimental/activations.py:81-97 | one result per input element; with a threshold, every element whose x_beta exceeds it is returned unchanged |
| `JaxBackend.SoftplusThreshold` | ivy/functional/backends/jax/experimental/activations.py:89-96 | x passes through exactly where x_beta exceeds the threshold; elsewhere the result is the unthresholded softplus |
| `JaxBackend.SoftplusUnitBeta` | ivy/functional/backends/jax/experimental/activations.py:89-94 | beta = 1 behaves as no beta |
| `JaxBackend.SoftplusExample` | ivy/functional/ivy/experimental/activations.py:588-591 | `softplus([1, 2, 3], threshold=2)` returns 3 itself and the kernel's values for 1 and 2 |
| `JaxBackend.Transpose` | ivy/functional/backends/jax/experimental/activations.py:61 | accepted exactly when the axes are a permutation; output axis i is input axis p[i] |
| `JaxBackend.TrainingDims` | ivy/functional/backends/jax/experimental/activations.py:58 | starts at axis 0 and never holds the channel axis 1; with ndims >= 2 it holds ndims - 1 axes, all in range |
| `JaxBackend.ForwardPerm` | ivy/functional/backends/jax/experimental/activations.py:61 | starts with axis 0 and ends with the channel axis 1; with ndims >= 2 it lists ndims axes |
| `JaxBackend.BackwardPerm` | ivy/functional/backends/jax/experimental/activations.py:70 | axis 0 first, then the last axis ndims - 1; with ndims >= 2 it lists ndims axes |
| `JaxBackend.BatchNormShape` | ivy/functional/backends/jax/experimental/activations.py:56-70 | on success the output has as many axes as the input; fewer than 2 axes are rejected |
| `JaxBackend.TrainingDimsSkipChannel` | ivy/functional/backends/jax/experimental/activations.py:57-60 | training mode reduces over every axis except 1, in increasing order, `ndims - 1` axes |
| `JaxBackend.PermsValid` | ivy/functional/backends/jax/experimental/activations.py:56-70 | both permutations are valid exactly when ndims >= 2; the forward one is the training axes followed by 1 |
| `JaxBackend.PermsCompose` | ivy/functional/backends/jax/experimental/activations.py:61-70 | forward composed with backward is the identity permutation |
| `JaxBackend.TransposeRoundTrip` | ivy/functional/backends/jax/experimental/activations.py:61-70 | the two transposes cancel on any per-axis data, and in between the channel axis is last |
| `JaxBackend.BatchNormKeepsShape` | ivy/functional/backends/jax/experimental/activations.py:56-70 | the output has the input's shape when there are at least 2 axes; with fewer the transpose is rejected |
| `ExperimentalActivations.Logit` | ivy/functional/ivy/experimental/activations.py:62 | hands x, eps and out to the active backend's logit; no contract of its own, `LogitDelegates` states the result on JAX |
| `ExperimentalActivations.ThresholdedRelu` | ivy/functional/ivy/experimental/activations.py:177 | hands x, threshold (default 0) and out to the backend; `ThresholdedReluDelegates` states the result on JAX |
| `ExperimentalActivations.Relu6` | ivy/functional/ivy/experimental/activations.py:233 | hands x and out to the backend; `Relu6Delegates` states the result on JAX |
| `ExperimentalActivations.LeakyRelu` | ivy/functional/ivy/experimental/activations.py:812 | hands x, alpha (default 0.2) and out to the backend; `LeakyReluDelegates` states the result on JAX |
| `ExperimentalActivations.Glu` | ivy/functional/ivy/experimental/activations.py:973 | hands x, axis (default -1) and out to the backend; `GluDelegates` states the result on JAX |
| `ExperimentalActivations.Softplus` | ivy/functional/ivy/experimental/activations.py:594 | hands x, beta, threshold and out to the backend; `SoftplusDelegates` states the result on JAX |
| `ExperimentalActivations.LogitDelegates` | ivy/functional/ivy/experimental/activations.py:62 | on JAX, surface `logit` is the backend rule with `eps` unchanged, whatever `out` is |
| `ExperimentalActivations.ThresholdedReluDelegates` | ivy/functional/ivy/experimental/activations.py:177 | on JAX, surface `thresholded_relu` is the backend rule with `threshold` unchanged |
| `ExperimentalActivations.Relu6Delegates` | ivy/functional/ivy/experimental/activations.py:233 | on JAX, surface `relu6` is the backend rule |
| `ExperimentalActivations.SoftplusDelegates` | ivy/functional/ivy/experimental/activations.py:594 | on JAX, surface `softplus` is the backend rule with `beta` and `threshold` unchanged |
| `ExperimentalActivations.LeakyReluDelegates` | ivy/functional/ivy/experimental/activations.py:756-812 | on JAX, `alpha` (default 0.2) reaches `jax.nn.leaky_relu` unchanged |
| `ExperimentalActivations.GluDelegates` | ivy/functional/ivy/experimental/activations.py:950-973 | on JAX, `axis` (default -1) reaches `jax.nn.glu` unchanged |
| `ExperimentalActivations.Relu6Example` | ivy/functional/ivy/experimental/activations.py:209-212 | [-1..7] maps to [0, 0, 1, 2, 3, 4, 5, 6, 6] |
| `ExperimentalActivations.ThresholdedReluExamples` | ivy/functional/ivy/experimental/activations.py:156-165 | the two documented array examples |
| `ExperimentalActivations.MapLeaves` | ivy/functional/ivy/experimental/activations.py:167-175 | a container keeps its keys and each leaf is processed on its own |
| `ExperimentalActivations.ThresholdedReluContainer` | ivy/functional/ivy/experimental/activations.py:167-177 | a container keeps its keys, and each leaf is thresholded by the backend on its own |
| `ExperimentalActivations.ThresholdedReluContainerExample` | ivy/functional/ivy/experimental/activations.py:169-175 | the documented container example with keys a and b |
| `ExperimentalActivations.PreluAt` | ivy/functional/ivy/experimental/activations.py:78-101 | the coded `where(x > 0, x, x * slope)` on one element equals the documented slope * x below zero and x from zero up |
| `ExperimentalActivations.PreluRule` | ivy/functional/ivy/experimental/activations.py:78-101 | the coded `x > 0` agrees with the documented `x >= 0`; prelu is relu plus slope times the negative part; slope 0 is relu, slope 1 the identity |
| `ExperimentalActivations.Prelu` | ivy/functional/ivy/experimental/activations.py:100-101 | on 1-D input: defined exactly when the slope is a scalar or the two lengths broadcast (one of them 1, or equal); the result has the broadcast length, positive entries of x pass unchanged and the others are multiplied by the slope they meet |
| `ExperimentalActivations.PreluBroadcastExample` | ivy/functional/ivy/experimental/activations.py:101 | x = [-1] against the slope [1, 2, 3] broadcasts to [-1, -2, -3] |
| `ExperimentalActivations.Broadcastable` | ivy/functional/ivy/experimental/activations.py:101 | the broadcast inside `x * slope`: aligned at the last axis, each pair of lengths is equal or holds a 1 (a predicate, stated by its definition) |
| `ExperimentalActivations.Reshape` | ivy/functional/ivy/experimental/activations.py:117 | `slope.reshape(new_shape)` succeeds exactly when the new shape holds as many elements as the slope, and then yields that shape; otherwise the error names both |
| `ExperimentalActivations.FallbackShape` | ivy/functional/ivy/experimental/activations.py:106-119 | the loop as written: succeeds exactly for a 1-D slope whose length occurs once among x's axes; `new_shape` is then x's shape; otherwise the error is re-raised |
| `ExperimentalActivations.FallbackAsWrittenFails` | ivy/functional/ivy/experimental/activations.py:106-117 | x of shape (3, 2) and slope (3,): no direct broadcast, the fallback accepts, and the reshape of 3 elements to (3, 2) fails |
| `ExperimentalActivations.FallbackShapeCorrected` | ivy/functional/ivy/experimental/activations.py:106-119 | the same acceptance condition; the shape holds the slope's length on the matching axis and 1 elsewhere |
| `ExperimentalActivations.ProductSlopeShape` | ivy/functional/ivy/experimental/activations.py:108-117 | the corrected shape holds dim to the power of the number of matching axes elements |
| `ExperimentalActivations.CorrectedShapeWorks` | ivy/functional/ivy/experimental/activations.py:116-117 | with one matching axis, the corrected shape holds exactly the slope's elements and broadcasts to x |
| `ExperimentalActivations.PreluSlopePlan` | ivy/functional/ivy/experimental/activations.py:100-119 | the intended plan, with the corrected fallback in place of the loop as written: direct when the shapes broadcast; otherwise the fallback succeeds exactly for one matching axis, and the reshape of the slope then succeeds and broadcasts to x. As written the reshape fails (`FallbackAsWrittenFails`) and the fallback is unreachable (see Findings) |
| `ArrayCreation.EyeLike` | ivy/data_classes/array/experimental/creation.py:44-46 | same shape as self; entry (i, j) is 1 exactly when j - i == k and 0 otherwise |
| `ArrayCreation.EyeLikeIgnoresValues` | ivy/data_classes/array/experimental/creation.py:26-27 | only the shape of self matters |
| `ArrayCreation.EyeLikeExample` | ivy/data_classes/array/experimental/creation.py:50-54 | a 2x3 input gives ones at (0,0) and (1,1) |
| `ArrayCreation.Trilu` | ivy/data_classes/array/experimental/creation.py:79-82 | same shape as self; entries with j - i < k are zero, the others equal the input |
| `ArrayCreation.TriluCompose` | ivy/data_classes/array/experimental/creation.py:69-72 | two cuts leave the higher diagonal |
| `ArrayCreation.TriluIdempotent` | ivy/data_classes/array/experimental/creation.py:69-72 | cutting again at the same diagonal changes nothing |
| `ArrayCreation.TriluExtremes` | ivy/data_classes/array/experimental/creation.py:69-72 | k <= 1 - rows keeps everything; k at or beyond the longest row zeroes everything |
| `ArrayCreation.TriluOfEyeLike` | ivy/data_classes/array/experimental/creation.py:69-82 | trilu at k keeps diagonal k of eye_like whole and trilu at k + 1 erases it |
| `ArrayCreation.TriluBatch` | ivy/data_classes/array/experimental/creation.py:66-68 | one result per matrix in the batch, each shaped like its input |
| `ArrayCreation.TriluBatchIndependent` | ivy/data_classes/array/experimental/creation.py:66-68 | each matrix is cut on its own, and splitting the batch commutes with the cut |

## Findings

| source | as written | input that shows it | evidently intended | confidence | as-written member | corrected member |
|---|---|---|---|---|---|---|
| ivy/functional/ivy/experimental/activations.py:110-115 | both branches of the fallback loop append `d`, so `new_shape` equals `x.shape`, and `slope.reshape(new_shape)` needs `prod(x.shape)` slope elements. The failure is latent: the `except` at lines 102-105 evaluates an exception instance rather than naming a class, so the fallback loop is never reached as written | x of shape (3, 2), slope of shape (3,): the shapes do not broadcast, the loop finds one matching axis, and 3 elements cannot be reshaped to (3, 2) | the non-matching branch appends 1. The slope then has shape (3, 1), which holds 3 elements and broadcasts to (3, 2) | medium, not executed | `ExperimentalActivations.FallbackAsWrittenFails` | `ExperimentalActivations.FallbackShapeCorrected` |

## Left out

- The floating-point kernels are not modelled: sigmoid, log_sigmoid, selu, elu, celu, gelu, silu, softsign, hard_sigmoid, hard_tanh, hard_silu, glu, softplus and leaky_relu. They are IEEE computations or calls into `jax.nn`. Softplus, leaky_relu and glu stay abstract parameters (`JaxNn`).
- `JaxBackend.LogitOdds`: the final `log` of `logit` is not modelled. The model stops at the odds `x / (1 - x)`.
- Inputs that are NaN or infinite are not modelled, because array values are exact reals.
- The arithmetic of `batch_norm`, `logsumexp`, `normalize` and `_mean` is not modelled. Only `batch_norm`'s axis permutations and training reduction axes are.
- `JaxBackend.BatchNormShape`: the elementwise combination is taken to keep the transposed shape. That holds for per-channel statistics of shape (C,), as in training mode. Statistics passed in inference mode that broadcast to more axes would change the output shape; that case is not modelled.
- `JaxBackend.Transpose`: negative entries in a `transpose` permutation are rejected instead of being normalised. The permutations of `batch_norm` hold none once it has 2 or more axes.
- `JaxBackend.Softplus`: the final `astype(x.dtype)` is not modelled. Values are exact reals, so an integer input is not truncated: `softplus` of the integers [1, 2, 3] with threshold 2 gives [1, 2, 3] in the source, but the kernel's unrounded values for 1 and 2 in the model.
- The decorator stack is not modelled (out-argument writeback, nestable dispatch, array conversion, exception handling). Neither are `current_backend` and `bind_custom_gradient_function`; the backend is a parameter and `out` is only forwarded.
- `ExperimentalActivations.MapLeaves`: containers are one level deep; nested containers are not modelled.
- `ExperimentalActivations.Prelu`: the main path is modelled for a 1-D input and a scalar or 1-D slope only. Broadcasting with more axes is modelled at the shape level (`PreluSlopePlan`).
- prelu's try/except is not modelled. Its `except` clause names an exception instance rather than a class, so it could not catch anything. The fallback is modelled as its own operation.
- `_batch_promotion`'s `args is None` guard can never fire, so it is not modelled. Arguments are dtype names or Python scalars.
- `_reduction_dims`' filter on `isinstance(x, int)` is not modelled, because named axes are not modelled. Both returned tuples are therefore always the same.
- The frontend helpers are modelled on dtype names only. The `astype` value conversion does not change exact reals.
- The dtype and device arguments of `eye_like` are not modelled; only values are. Neither is the `out` argument of either array method.
- `ArrayCreation.TriluBatch`: one batch dimension is modelled, not arbitrarily many.
- The frontend dtype handling of `sigmoid`, `silu`, `hard_sigmoid`, `softplus` and `normalize` is not modelled. Those functions call the same `_type_conversion`, which is modelled.
