/** Shared vocabulary: optional values, results with an error, IEEE-style
    numbers for the places where a division by zero or a NaN mask matters,
    and small sequence helpers (ranges, distinctness, element sets). */
module Common {

  datatype Option<+T> = None | Some(value: T)

  datatype Result<+T, +E> = Ok(value: T) | Err(error: E)

  /** A floating-point value seen through exact arithmetic: a finite real,
      NaN, or one of the two infinities. */
  datatype Num = Fin(v: real) | NaN | PosInf | NegInf

  /** IEEE division of two finite values: a zero divisor yields a signed
      infinity, or NaN for 0/0. The sign of a zero divisor is taken as +0. */
  function Div(a: real, b: real): (r: Num)
    ensures b != 0.0 ==> r == Fin(a / b)
    ensures b == 0.0 ==> (r == PosInf <==> a > 0.0) && (r == NegInf <==> a < 0.0) && (r == NaN <==> a == 0.0)
  {
    if b != 0.0 then Fin(a / b)
    else if a > 0.0 then PosInf
    else if a < 0.0 then NegInf
    else NaN
  }

  /** The quotient of two positive reals is positive. */
  lemma QuotientPositive(a: real, b: real)
    requires a > 0.0 && b > 0.0
    ensures a / b > 0.0
  {
    var q := a / b;
    assert q * b == a;
  }

  function Max(a: real, b: real): real { if a >= b then a else b }

  function Min(a: real, b: real): real { if a <= b then a else b }

  /** `clip(x, lo, hi)`: the lower bound is applied first, then the upper,
      so with lo > hi every value becomes hi. */
  function Clip(x: real, lo: real, hi: real): (r: real)
    ensures r <= hi
    ensures lo <= hi ==> lo <= r
    ensures lo <= x <= hi ==> r == x
    ensures lo > hi ==> r == hi
    ensures x <= lo <= hi ==> r == lo
    ensures x >= hi ==> r == hi
  {
    Min(Max(x, lo), hi)
  }

  /** Python's `range(lo, hi)`: empty when hi <= lo. */
  function Range(lo: int, hi: int): (r: seq<int>)
    ensures |r| == if hi > lo then hi - lo else 0
    ensures forall i :: 0 <= i < |r| ==> r[i] == lo + i
  {
    if hi > lo then seq(hi - lo, i => lo + i) else []
  }

  predicate Distinct<T(==)>(s: seq<T>)
  {
    forall i, j :: 0 <= i < j < |s| ==> s[i] != s[j]
  }

  /** The set of the elements of s (Python's `set(s)`). */
  function Elements<T(==,!new)>(s: seq<T>): (r: set<T>)
    ensures forall x :: x in r <==> x in s
  {
    if s == [] then {} else {s[0]} + Elements(s[1..])
  }

  /** A non-empty sequence is distinct exactly when its head does not recur
      and its tail is distinct. */
  lemma DistinctCons<T>(s: seq<T>)
    requires s != []
    ensures Distinct(s) <==> s[0] !in s[1..] && Distinct(s[1..])
  {
    var t := s[1..];
    if s[0] in t {
      var j :| 0 <= j < |t| && t[j] == s[0];
      assert s[0] == s[j + 1];
    } else if Distinct(t) {
      forall i, j | 0 <= i < j < |s| ensures s[i] != s[j] {
        assert s[j] == t[j - 1];
        if i > 0 { assert s[i] == t[i - 1]; }
      }
    } else {
      var i, j :| 0 <= i < j < |t| && t[i] == t[j];
      assert s[i + 1] == s[j + 1];
    }
  }

  /** `len(set(s)) == len(s)` holds exactly when s has no repeated element. */
  lemma {:induction false} ElementsCardinality<T(!new)>(s: seq<T>)
    ensures |Elements(s)| <= |s|
    ensures |Elements(s)| == |s| <==> Distinct(s)
  {
    if s != [] {
      var t := s[1..];
      ElementsCardinality(t);
      DistinctCons(s);
      if s[0] in t {
        assert Elements(s) == Elements(t);
      } else {
        assert Elements(s) == {s[0]} + Elements(t);
        assert |Elements(s)| == 1 + |Elements(t)|;
      }
    }
  }
}
