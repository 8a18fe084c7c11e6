/** The documented contracts of the array methods `eye_like` and `trilu`,
    which forward the wrapped array to the functional forms: values of a
    2-D array as rows of integers, and a batch of such matrices for the
    `(..., M, N)` form of `trilu`. */
module ArrayCreation {

  type Matrix = seq<seq<int>>

  predicate SameShape(a: Matrix, b: Matrix)
  {
    |a| == |b| && forall i :: 0 <= i < |a| ==> |a[i]| == |b[i]|
  }

  predicate IsZero(m: Matrix)
  {
    forall i, j :: 0 <= i < |m| && 0 <= j < |m[i]| ==> m[i][j] == 0
  }

  // ---------------------------------------------------------------------
  // eye_like

  /** `x.eye_like(k=k)`: an array shaped like x with ones on diagonal k
      (above the main diagonal for k > 0, below for k < 0) and zeros
      elsewhere. */
  function EyeLike(x: Matrix, k: int := 0): (r: Matrix)
    ensures SameShape(r, x)
    ensures forall i, j :: 0 <= i < |r| && 0 <= j < |r[i]| ==>
      (r[i][j] == 1 <==> j - i == k) && (r[i][j] == 0 <==> j - i != k)
  {
    seq(|x|, i requires 0 <= i < |x| => seq(|x[i]|, j => if j - i == k then 1 else 0))
  }

  /** Only the shape of x matters, never its values. */
  lemma EyeLikeIgnoresValues(x: Matrix, y: Matrix, k: int)
    requires SameShape(x, y)
    ensures EyeLike(x, k) == EyeLike(y, k)
  {
  }

  /** The documented example: a 2x3 input gives ones at (0,0) and (1,1). */
  lemma EyeLikeExample()
    ensures EyeLike([[2, 3, 8], [1, 2, 1]]) == [[1, 0, 0], [0, 1, 0]]
  {
    var r := EyeLike([[2, 3, 8], [1, 2, 1]]);
    assert r[0] == [1, 0, 0];
    assert r[1] == [0, 1, 0];
  }

  // ---------------------------------------------------------------------
  // trilu

  /** `x.trilu(k=k)`: the upper-triangular part of x, zeroing every element
      strictly below diagonal k. */
  function Trilu(x: Matrix, k: int := 0): (r: Matrix)
    ensures SameShape(r, x)
    ensures forall i, j :: 0 <= i < |r| && 0 <= j < |r[i]| ==>
      (j - i < k ==> r[i][j] == 0) && (j - i >= k ==> r[i][j] == x[i][j])
  {
    seq(|x|, i requires 0 <= i < |x| => seq(|x[i]|, j requires 0 <= j < |x[i]| => if j - i >= k then x[i][j] else 0))
  }

  /** Two triangular cuts leave the tighter one. */
  lemma TriluCompose(x: Matrix, k1: int, k2: int)
    ensures Trilu(Trilu(x, k1), k2) == Trilu(x, if k1 >= k2 then k1 else k2)
  {
    var l, r := Trilu(Trilu(x, k1), k2), Trilu(x, if k1 >= k2 then k1 else k2);
    forall i | 0 <= i < |x| ensures l[i] == r[i] {
    }
  }

  /** Cutting again at the same diagonal changes nothing. */
  lemma TriluIdempotent(x: Matrix, k: int)
    ensures Trilu(Trilu(x, k), k) == Trilu(x, k)
  {
    TriluCompose(x, k, k);
  }

  /** The extreme diagonals: at or below -(rows - 1) everything is kept;
      at or beyond the longest row everything is zeroed. */
  lemma TriluExtremes(x: Matrix, k: int)
    ensures k <= 1 - |x| ==> Trilu(x, k) == x
    ensures (forall i :: 0 <= i < |x| ==> |x[i]| <= k) ==> IsZero(Trilu(x, k))
  {
    if k <= 1 - |x| {
      var r := Trilu(x, k);
      forall i | 0 <= i < |x| ensures r[i] == x[i] {
      }
    }
  }

  /** Diagonal k of eye_like lies on or above diagonal k and strictly below
      diagonal k + 1, so trilu keeps it whole at k and erases it at k + 1. */
  lemma TriluOfEyeLike(x: Matrix, k: int)
    ensures Trilu(EyeLike(x, k), k) == EyeLike(x, k)
    ensures IsZero(Trilu(EyeLike(x, k), k + 1))
  {
    var e := EyeLike(x, k);
    var t := Trilu(e, k);
    forall i | 0 <= i < |e| ensures t[i] == e[i] {
    }
  }

  /** `trilu` on a `(B, M, N)` input: each innermost matrix on its own. */
  function TriluBatch(xs: seq<Matrix>, k: int := 0): (r: seq<Matrix>)
    ensures |r| == |xs|
    ensures forall b :: 0 <= b < |xs| ==> SameShape(r[b], xs[b])
  {
    seq(|xs|, b requires 0 <= b < |xs| => Trilu(xs[b], k))
  }

  /** Each matrix of the batch is cut independently of the others: the batch
      result is the per-matrix result, and splitting the batch commutes with
      the cut. */
  lemma TriluBatchIndependent(xs: seq<Matrix>, ys: seq<Matrix>, k: int)
    ensures forall b :: 0 <= b < |xs| ==> TriluBatch(xs, k)[b] == Trilu(xs[b], k)
    ensures TriluBatch(xs + ys, k) == TriluBatch(xs, k) + TriluBatch(ys, k)
  {
  }
}
