/** The dtype and axis helpers of the JAX `nn` frontend: float conversion of a
    dtype name, batch promotion over the dtypes of several arguments, and the
    canonicalisation of (possibly negative, possibly repeated) reduction axes.
    Dtypes are handled by name, as the source does, with `Dtype` as the
    reference list of names ivy knows. */
module JaxNnFrontend {
  import opened Common
  import Activations = ExperimentalActivations

  // ---------------------------------------------------------------------
  // Dtype names

  datatype Dtype =
    | Bool | Int8 | Int16 | Int32 | Int64 | UInt8 | UInt16 | UInt32 | UInt64
    | BFloat16 | Float16 | Float32 | Float64 | Complex64 | Complex128

  function Name(d: Dtype): string
  {
    match d
    case Bool => "bool"
    case Int8 => "int8"
    case Int16 => "int16"
    case Int32 => "int32"
    case Int64 => "int64"
    case UInt8 => "uint8"
    case UInt16 => "uint16"
    case UInt32 => "uint32"
    case UInt64 => "uint64"
    case BFloat16 => "bfloat16"
    case Float16 => "float16"
    case Float32 => "float32"
    case Float64 => "float64"
    case Complex64 => "complex64"
    case Complex128 => "complex128"
  }

  predicate IsFloat(d: Dtype)
  {
    d.BFloat16? || d.Float16? || d.Float32? || d.Float64?
  }

  /** Storage width of one element, in bits. */
  function Bits(d: Dtype): nat
  {
    match d
    case Bool => 8
    case Int8 => 8
    case UInt8 => 8
    case Int16 => 16
    case UInt16 => 16
    case BFloat16 => 16
    case Float16 => 16
    case Int32 => 32
    case UInt32 => 32
    case Float32 => 32
    case Int64 => 64
    case UInt64 => 64
    case Float64 => 64
    case Complex64 => 64
    case Complex128 => 128
  }

  predicate StartsWith(s: string, prefix: string)
  {
    |prefix| <= |s| && s[..|prefix|] == prefix
  }

  /** Python's `sub in s` on strings. */
  predicate Contains(s: string, sub: string)
    decreases |s|
  {
    StartsWith(s, sub) || (|s| > 0 && Contains(s[1..], sub))
  }

  /** Python's `s[-2:]`. */
  function LastTwo(s: string): string
  {
    if |s| >= 2 then s[|s| - 2..] else s
  }

  lemma {:induction false} ContainsNeedsFirstChar(s: string, sub: string)
    requires |sub| > 0 && sub[0] !in s
    ensures !Contains(s, sub)
    decreases |s|
  {
    if |s| > 0 {
      forall c | c in s[1..] ensures c in s { }
      ContainsNeedsFirstChar(s[1..], sub);
    }
  }

  lemma FloatNames(d: Dtype)
    ensures Contains(Name(d), "float") <==> IsFloat(d)
  {
    if IsFloat(d) {
      if d.BFloat16? {
        assert Name(d)[1..] == "float16";
        assert StartsWith(Name(d)[1..], "float");
      } else {
        assert StartsWith(Name(d), "float");
      }
    } else {
      ContainsNeedsFirstChar(Name(d), "float");
    }
  }

  lemma {:induction false} ShortNoContains(s: string, sub: string)
    requires |s| < |sub|
    ensures !Contains(s, sub)
    decreases |s|
  {
    if |s| > 0 {
      ShortNoContains(s[1..], sub);
    }
  }

  /** `"64" in s[-2:]` holds exactly when s ends in "64". */
  lemma Ends64(s: string)
    ensures Contains(LastTwo(s), "64") <==> |s| >= 2 && s[|s| - 2..] == "64"
  {
    var t := LastTwo(s);
    if |s| >= 2 {
      ShortNoContains(t[1..], "64");
    } else {
      ShortNoContains(t, "64");
    }
  }

  /** `_type_conversion`: the float dtype a value is converted to before a
      float-only kernel. Float names are kept; other names ending in "64"
      become float64, all others float32. */
  function TypeConversion(dtype: string): (r: string)
    ensures Contains(r, "float")
    ensures Contains(dtype, "float") ==> r == dtype
  {
    assert StartsWith("float64", "float") && StartsWith("float32", "float");
    if !Contains(dtype, "float") then
      if Contains(LastTwo(dtype), "64") then "float64" else "float32"
    else dtype
  }

  /** `_type_conversion_64`: float names are kept, every other name becomes
      float64. */
  function TypeConversion64(dtype: string): (r: string)
    ensures Contains(r, "float")
    ensures Contains(dtype, "float") ==> r == dtype
  {
    assert StartsWith("float64", "float");
    if Contains(dtype, "float") then dtype else "float64"
  }

  /** The intended target of `_type_conversion`, stated on the dtype itself:
      floats stay, 64-bit non-floats widen to float64, the rest to float32. */
  function FloatFor(d: Dtype): Dtype
  {
    if IsFloat(d) then d else if Bits(d) == 64 then Float64 else Float32
  }

  lemma TypeConversionByDtype(d: Dtype)
    ensures TypeConversion(Name(d)) == Name(FloatFor(d))
    ensures TypeConversion64(Name(d)) == Name(if IsFloat(d) then d else Float64)
  {
    FloatNames(d);
    Ends64(Name(d));
  }

  /** Every conversion result is a fixed point of the conversion. */
  lemma TypeConversionIdempotent(dtype: string)
    ensures TypeConversion(TypeConversion(dtype)) == TypeConversion(dtype)
    ensures TypeConversion64(TypeConversion64(dtype)) == TypeConversion64(dtype)
    ensures TypeConversion64(TypeConversion(dtype)) == TypeConversion(dtype)
  {
  }

  // ---------------------------------------------------------------------
  // Batch promotion

  /** One positional argument of `_batch_promotion`: a Python scalar or an
      array, of which only the dtype name matters. */
  datatype Arg = PyInt(i: int) | PyFloat(f: real) | Array(dtype: string)

  /** The dtypes of the array arguments; scalars contribute nothing. */
  function ArrayDtypes(args: seq<Arg>): set<string>
  {
    set a | a in args && a.Array? :: a.dtype
  }

  /** Precision rank of the float dtypes; 0 for every other name. */
  function FloatRank(dtype: string): nat
  {
    if dtype == "float64" then 3
    else if dtype == "float32" then 2
    else if dtype == "float16" || dtype == "bfloat16" then 1
    else 0
  }

  /** The priority-ordered promotion rule applied to the collected set. */
  function Promote(types: set<string>, defaultDtype: string): (r: string)
    ensures r == defaultDtype || FloatRank(r) > 0
  {
    if "float64" in types then "float64"
    else if "float32" in types then "float32"
    else if "float16" in types && "bfloat16" in types then "float32"
    else if "float16" in types then "float16"
    else if "bfloat16" in types then "bfloat16"
    else if "int64" in types || "uint64" in types then "float64"
    else if "uint32" in types && ("int8" in types || "int16" in types || "int32" in types) then "float64"
    else defaultDtype
  }

  /** `_batch_promotion`: collect the dtypes of the array arguments in a set,
      skipping Python ints and floats, then apply the priority rule. */
  method BatchPromotion(args: seq<Arg>, defaultDtype: string) returns (r: string)
    ensures r == Promote(ArrayDtypes(args), defaultDtype)
  {
    var promoteTypes: set<string> := {};
    for i := 0 to |args|
      invariant promoteTypes == ArrayDtypes(args[..i])
    {
      assert args[..i + 1] == args[..i] + [args[i]];
      if args[i].PyInt? || args[i].PyFloat? {
        continue;
      }
      promoteTypes := promoteTypes + {args[i].dtype};
    }
    assert args[..|args|] == args;
    r := Promote(promoteTypes, defaultDtype);
  }

  /** No float among the array dtypes is demoted: the result ranks at least
      as high as every float dtype present. */
  lemma PromoteDominatesFloats(types: set<string>, defaultDtype: string, f: string)
    requires f in types && FloatRank(f) > 0
    ensures FloatRank(f) <= FloatRank(Promote(types, defaultDtype))
  {
  }

  /** Two half-precision formats meet at float32; no other pair of distinct
      floats yields a dtype that is not one of them. */
  lemma PromoteFloatPair(a: string, b: string, defaultDtype: string)
    requires FloatRank(a) > 0 && FloatRank(b) > 0
    ensures var r := Promote({a, b}, defaultDtype);
      if {a, b} == {"float16", "bfloat16"} then r == "float32" else r == a || r == b
  {
  }

  /** The result depends on the arguments only through the multiset of them:
      reordering the arguments never changes it. */
  lemma ArrayDtypesPermutation(args: seq<Arg>, other: seq<Arg>)
    requires multiset(args) == multiset(other)
    ensures ArrayDtypes(args) == ArrayDtypes(other)
  {
    forall a | a in args ensures a in other {
      assert a in multiset(args);
    }
    forall a | a in other ensures a in args {
      assert a in multiset(other);
    }
  }

  /** Python scalars are skipped wherever they occur. */
  lemma ScalarIgnored(before: seq<Arg>, x: Arg, after: seq<Arg>)
    requires !x.Array?
    ensures ArrayDtypes(before + [x] + after) == ArrayDtypes(before + after)
  {
    var l, s := before + [x] + after, before + after;
    forall a | a in l && a.Array? ensures a in s {
      var i :| 0 <= i < |l| && l[i] == a;
      if i < |before| { assert s[i] == a; } else { assert i > |before|; assert s[i - 1] == a; }
    }
    forall a | a in s ensures a in l {
      var i :| 0 <= i < |s| && s[i] == a;
      if i < |before| { assert l[i] == a; } else { assert l[i + 1] == a; }
    }
  }

  /** Promotion is commutative for two array arguments, and a float32 array
      with an int64 array promotes to float32 (float32 outranks the int64 rule). */
  method PromotionExamples(defaultDtype: string) returns (ab: string, ba: string, mixed: string)
    ensures ab == ba == "float32"
    ensures mixed == "float32"
  {
    ab := BatchPromotion([Array("float16"), Array("bfloat16")], defaultDtype);
    ba := BatchPromotion([Array("bfloat16"), Array("float16")], defaultDtype);
    assert ArrayDtypes([Array("float16"), Array("bfloat16")]) == {"float16", "bfloat16"};
    assert ArrayDtypes([Array("bfloat16"), Array("float16")]) == {"float16", "bfloat16"};
    mixed := BatchPromotion([Array("float32"), PyInt(3), Array("int64")], defaultDtype);
    assert ArrayDtypes([Array("float32"), PyInt(3), Array("int64")]) == {"float32", "int64"};
  }

  // ---------------------------------------------------------------------
  // Axes

  datatype AxisError = AxisOutOfBounds(axis: int, ndim: nat) | DuplicateAxis(axes: seq<int>)

  predicate InBounds(axis: int, ndim: nat)
  {
    -(ndim as int) <= axis < ndim
  }

  /** `_canonicalize_axis`: an axis in [-ndim, ndim) becomes its residue
      modulo ndim; any other axis is an error naming it. */
  function CanonicalizeAxis(axis: int, ndim: nat): (r: Result<int, AxisError>)
    ensures r.Ok? <==> InBounds(axis, ndim)
    ensures r.Ok? ==> 0 <= r.value < ndim && r.value == axis % ndim
    ensures r.Err? ==> r.error == AxisOutOfBounds(axis, ndim)
  {
    if !(-(ndim as int) <= axis < ndim) then Err(AxisOutOfBounds(axis, ndim))
    else if axis < 0 then Ok(axis + ndim)
    else Ok(axis)
  }

  /** A canonical axis is its own canonical form. */
  lemma CanonicalizeIdempotent(axis: int, ndim: nat)
    requires InBounds(axis, ndim)
    ensures CanonicalizeAxis(CanonicalizeAxis(axis, ndim).value, ndim) == CanonicalizeAxis(axis, ndim)
  {
  }

  /** Two valid axes name the same dimension exactly when they are equal or
      differ by ndim (such as -1 and ndim - 1). */
  lemma CanonicalCollision(a: int, b: int, ndim: nat)
    requires InBounds(a, ndim) && InBounds(b, ndim)
    ensures CanonicalizeAxis(a, ndim) == CanonicalizeAxis(b, ndim) <==> a == b || a - b == ndim || b - a == ndim
  {
  }

  /** The tuple comprehension over `_canonicalize_axis`: the first axis out of
      bounds raises; otherwise every axis is canonicalised in order. */
  function CanonicalizeAll(axes: seq<int>, ndim: nat): (r: Result<seq<int>, AxisError>)
    ensures r.Ok? <==> forall i :: 0 <= i < |axes| ==> InBounds(axes[i], ndim)
    ensures r.Ok? ==> (|r.value| == |axes| &&
      forall i :: 0 <= i < |axes| ==> CanonicalizeAxis(axes[i], ndim) == Ok(r.value[i]))
    ensures r.Err? ==> exists j :: (0 <= j < |axes| && !InBounds(axes[j], ndim) &&
      r.error == AxisOutOfBounds(axes[j], ndim) && forall i :: 0 <= i < j ==> InBounds(axes[i], ndim))
  {
    if axes == [] then Ok([])
    else
      match CanonicalizeAxis(axes[0], ndim)
      case Err(e) => Err(e)
      case Ok(c) =>
        match CanonicalizeAll(axes[1..], ndim)
        case Err(e) =>
          var j :| 0 <= j < |axes| - 1 && !InBounds(axes[1..][j], ndim) &&
            e == AxisOutOfBounds(axes[1..][j], ndim) && forall i :: 0 <= i < j ==> InBounds(axes[1..][i], ndim);
          assert forall i :: 0 <= i < j + 1 ==> InBounds(axes[i], ndim) by {
            forall i | 0 <= i < j + 1 ensures InBounds(axes[i], ndim) {
              if i > 0 { assert axes[i] == axes[1..][i - 1]; }
            }
          }
          Err(e)
        case Ok(cs) => Ok([c] + cs)
  }

  /** The `axis` argument of `_reduction_dims`: None, one axis, or a
      tuple/list of axes. */
  datatype AxisArg = NoAxis | Single(axis: int) | Many(axes: seq<int>)

  function AxisList(axis: AxisArg): seq<int>
    requires !axis.NoAxis?
  {
    if axis.Single? then [axis.axis] else axis.axes
  }

  /** `_reduction_dims` for an array of `ndims` dimensions: all axes for None,
      otherwise the canonical axes, rejected when two of them coincide. The
      returned pair holds the same tuple twice. */
  function ReductionDims(ndims: nat, axis: AxisArg): (r: Result<(seq<int>, seq<int>), AxisError>)
    ensures r.Ok? ==> (r.value.0 == r.value.1 && Distinct(r.value.1) &&
      forall i :: 0 <= i < |r.value.1| ==> 0 <= r.value.1[i] < ndims)
    ensures axis.NoAxis? ==> r == Ok((Range(0, ndims), Range(0, ndims)))
  {
    match axis
    case NoAxis => Ok((Range(0, ndims), Range(0, ndims)))
    case _ =>
      var axes := AxisList(axis);
      match CanonicalizeAll(axes, ndims)
      case Err(e) => Err(e)
      case Ok(canon) =>
        ElementsCardinality(canon);
        if |Elements(canon)| != |canon| then Err(DuplicateAxis(axes))
        else Ok((canon, canon))
  }

  /** An explicit axis list is accepted exactly when every axis is in bounds
      and no two of them name the same dimension; then the result is the
      list of their canonical forms. */
  lemma ReductionDimsAccepts(ndims: nat, axes: seq<int>)
    ensures var r := ReductionDims(ndims, Many(axes));
      r.Ok? <==> ((forall i :: 0 <= i < |axes| ==> InBounds(axes[i], ndims)) &&
        forall i, j :: 0 <= i < j < |axes| ==> CanonicalizeAxis(axes[i], ndims) != CanonicalizeAxis(axes[j], ndims))
    ensures var r := ReductionDims(ndims, Many(axes));
      r.Ok? ==> |r.value.0| == |axes| && forall i :: 0 <= i < |axes| ==> Ok(r.value.0[i]) == CanonicalizeAxis(axes[i], ndims)
  {
    var c := CanonicalizeAll(axes, ndims);
    if c.Ok? {
      ElementsCardinality(c.value);
    }
  }

  /** A scalar axis behaves as the one-element tuple holding it. */
  lemma ReductionDimsSingle(ndims: nat, axis: int)
    ensures ReductionDims(ndims, Single(axis)) == ReductionDims(ndims, Many([axis]))
  {
  }

  /** -1 and ndim - 1 name the same dimension, so asking for both is a
      duplicate-axis error. */
  lemma ReductionDimsRejectsAliases(ndims: nat)
    requires ndims >= 1
    ensures ReductionDims(ndims, Many([-1, ndims - 1])) == Err(DuplicateAxis([-1, ndims - 1]))
  {
    var c := CanonicalizeAll([-1, ndims - 1], ndims);
    assert c.Ok?;
    ElementsCardinality(c.value);
  }

  // ---------------------------------------------------------------------
  // Frontend activations that convert dtypes

  /** An array as the frontend sees it: a dtype name and its values. */
  datatype Tensor = Tensor(dtype: string, data: seq<real>)

  /** `leaky_relu(x, negative_slope=0.01)`: convert x with
      `_type_conversion_64`, then call the unified `leaky_relu` with
      `alpha=negative_slope`. */
  function LeakyRelu(be: Activations.Backend, x: Tensor, negativeSlope: real := 0.01): (r: Tensor)
    ensures Contains(r.dtype, "float")
    ensures Contains(x.dtype, "float") ==> r.dtype == x.dtype
  {
    Tensor(TypeConversion64(x.dtype), Activations.LeakyRelu(be, x.data, negativeSlope))
  }

  /** `relu6(x)`: the unified `relu6`, then `_type_conversion_64` on the
      result. The result of the unified `relu6` is taken to have x's dtype,
      which holds for the JAX backend (it casts back with `astype(x.dtype)`)
      but is not a promise of the unified function for every backend. */
  function Relu6(be: Activations.Backend, x: Tensor): (r: Tensor)
    ensures Contains(r.dtype, "float")
    ensures Contains(x.dtype, "float") ==> r.dtype == x.dtype
  {
    Tensor(TypeConversion64(x.dtype), Activations.Relu6(be, x.data))
  }

  /** On the JAX backend: an integer input comes back as float64 and a float
      input keeps its dtype; `negative_slope` reaches `jax.nn.leaky_relu`
      unchanged, and relu6's values lie in [0, 6]. */
  lemma FrontendOnJax(nn: Activations.JaxNn, d: Dtype, data: seq<real>, negativeSlope: real)
    ensures LeakyRelu(Activations.JaxTable(nn), Tensor(Name(d), data), negativeSlope) ==
      Tensor(Name(if IsFloat(d) then d else Float64), nn.leakyRelu(data, negativeSlope))
    ensures Relu6(Activations.JaxTable(nn), Tensor(Name(d), data)).dtype == Name(if IsFloat(d) then d else Float64)
    ensures forall i :: 0 <= i < |data| ==>
      0.0 <= Relu6(Activations.JaxTable(nn), Tensor(Name(d), data)).data[i] <= 6.0
  {
    TypeConversionByDtype(d);
  }
}
