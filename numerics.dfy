/** Scalar and small linear-algebra primitives shared by the odometry model.
    Floating-point values are modelled as reals; the one place where the engine
    tests for non-finite values (the solver update) uses `Num`. */
module Numerics {

  /** A floating-point value as the engine sees it after a solve: a finite value
      or NaN/infinity (`NonFinite`). */
  datatype Num = Fin(val: real) | NonFinite

  function Abs(x: real): (r: real)
    ensures r >= 0.0 && (r == x || r == -x)
  {
    if x < 0.0 then -x else x
  }

  /** C++ `int(x)` for a float: truncation toward zero. */
  function Trunc(x: real): (r: int)
    ensures 0.0 <= x ==> r >= 0 && r as real <= x < r as real + 1.0
    ensures x < 0.0 ==> r <= 0 && r as real - 1.0 < x <= r as real
  {
    if x >= 0.0 then x.Floor else -((-x).Floor)
  }

  /** `x - int(x)`: the fractional part left by truncation. */
  function Frac(x: real): (r: real)
    ensures 0.0 <= x ==> 0.0 <= r < 1.0
    ensures x == Trunc(x) as real + r
  {
    x - Trunc(x) as real
  }

  lemma {:induction false} TruncOfInteger(n: int)
    ensures Trunc(n as real) == n
  {
    if n < 0 {
      assert (-(n as real)).Floor == -n;
    }
  }

  const Pi: real := 3.14159265358979323846

  /** Radians to degrees, as `rad2deg` does. */
  function Rad2Deg(x: real): real
  {
    x * 180.0 / Pi
  }

  /** `sqrt(sq) < t` for a non-negative `sq`, stated without a square root. */
  predicate SqrtBelow(sq: real, t: real)
  {
    0.0 < t && sq < t * t
  }

  /** SqrtBelow agrees with comparing the square root itself. */
  lemma {:induction false} SqrtBelowIsSqrtLess(sq: real, root: real, t: real)
    requires 0.0 <= root && root * root == sq
    ensures SqrtBelow(sq, t) <==> root < t
  {
    if root < t {
      RootBelowGivesSquareBelow(root, t);
    } else if 0.0 < t {
      var d := root - t;
      assert root * root - t * t == d * (root + t);
      assert d * (root + t) >= 0.0;
    }
  }

  lemma RootBelowGivesSquareBelow(root: real, t: real)
    requires 0.0 <= root < t
    ensures root * root < t * t
  {
    var d := t - root;
    assert t * t - root * root == d * (t + root);
    assert d * (t + root) > 0.0;
  }

  /** A 6-vector and a 6x6 matrix (row major), the shapes of the normal equations. */
  type Vec6 = v: seq<real> | |v| == 6 witness [0.0, 0.0, 0.0, 0.0, 0.0, 0.0]

  type Mat6 = m: seq<seq<real>> | |m| == 6 && forall i | 0 <= i < 6 :: |m[i]| == 6
    witness seq(6, i => [0.0, 0.0, 0.0, 0.0, 0.0, 0.0])

  function Dot(u: seq<real>, v: seq<real>): real
    requires |u| == |v|
    decreases |u|
  {
    if |u| == 0 then 0.0 else u[0] * v[0] + Dot(u[1..], v[1..])
  }

  function Column(m: seq<seq<real>>, j: nat): (c: seq<real>)
    requires forall i | 0 <= i < |m| :: j < |m[i]|
    ensures |c| == |m| && forall i | 0 <= i < |m| :: c[i] == m[i][j]
  {
    seq(|m|, i requires 0 <= i < |m| => m[i][j])
  }

  /** Row `a` times the matrix `b` whose rows have width m. */
  function RowTimes(a: seq<real>, b: seq<seq<real>>, m: nat): (r: seq<real>)
    requires |a| == |b| && forall k | 0 <= k < |b| :: |b[k]| == m
    ensures |r| == m && forall j | 0 <= j < m :: r[j] == Dot(a, Column(b, j))
  {
    seq(m, j requires 0 <= j < m => Dot(a, Column(b, j)))
  }

  /** The matrix `b` applied to the vector x. */
  function Apply(b: seq<seq<real>>, x: seq<real>): (r: seq<real>)
    requires forall k | 0 <= k < |b| :: |b[k]| == |x|
    ensures |r| == |b| && forall k | 0 <= k < |b| :: r[k] == Dot(b[k], x)
  {
    seq(|b|, k requires 0 <= k < |b| => Dot(b[k], x))
  }

  function MatVec(m: Mat6, x: Vec6): (r: Vec6)
  {
    Apply(m, x)
  }

  function MatMul(a: Mat6, b: Mat6): (r: Mat6)
  {
    seq(6, i requires 0 <= i < 6 => RowTimes(a[i], b, 6))
  }

  lemma {:induction false} DotZeroLeft(u: seq<real>, v: seq<real>)
    requires |u| == |v| && forall k | 0 <= k < |u| :: u[k] == 0.0
    ensures Dot(u, v) == 0.0
    decreases |u|
  {
    if |u| > 0 {
      DotZeroLeft(u[1..], v[1..]);
    }
  }

  lemma {:induction false} DotAdd(u: seq<real>, w: seq<real>, v: seq<real>)
    requires |u| == |w| == |v|
    ensures Dot(seq(|u|, k requires 0 <= k < |u| => u[k] + w[k]), v) == Dot(u, v) + Dot(w, v)
    decreases |u|
  {
    var s := seq(|u|, k requires 0 <= k < |u| => u[k] + w[k]);
    if |u| > 0 {
      var s' := seq(|u| - 1, k requires 0 <= k < |u| - 1 => u[1..][k] + w[1..][k]);
      assert s[1..] == s';
      DotAdd(u[1..], w[1..], v[1..]);
    }
  }

  lemma {:induction false} DotScale(c: real, u: seq<real>, v: seq<real>)
    requires |u| == |v|
    ensures Dot(seq(|u|, k requires 0 <= k < |u| => c * u[k]), v) == c * Dot(u, v)
    decreases |u|
  {
    var s := seq(|u|, k requires 0 <= k < |u| => c * u[k]);
    if |u| > 0 {
      var s' := seq(|u| - 1, k requires 0 <= k < |u| - 1 => c * u[1..][k]);
      assert forall k | 0 <= k < |u| - 1 :: s[1..][k] == s'[k];
      assert s[1..] == s';
      DotScale(c, u[1..], v[1..]);
    }
  }

  /** The first row of `b` splits off a row-times-matrix product. */
  lemma {:induction false} RowTimesSplit(a: seq<real>, b: seq<seq<real>>, x: seq<real>)
    requires |a| == |b| > 0 && forall k | 0 <= k < |b| :: |b[k]| == |x|
    ensures Dot(RowTimes(a, b, |x|), x) == a[0] * Dot(b[0], x) + Dot(RowTimes(a[1..], b[1..], |x|), x)
  {
    var m := |x|;
    var head := seq(m, j requires 0 <= j < m => a[0] * b[0][j]);
    var tail := RowTimes(a[1..], b[1..], m);
    forall j | 0 <= j < m
      ensures RowTimes(a, b, m)[j] == head[j] + tail[j]
    {
      assert Column(b, j)[1..] == Column(b[1..], j);
    }
    assert RowTimes(a, b, m) == seq(m, j requires 0 <= j < m => head[j] + tail[j]);
    DotAdd(head, tail, x);
    assert b[0] == seq(m, j requires 0 <= j < m => b[0][j]);
    DotScale(a[0], b[0], x);
  }

  /** Sum exchange behind matrix associativity: for a row `a` and a matrix `b`
      with |a| rows of width |x|, (a b) . x == a . (b x). */
  lemma {:induction false} DotExchange(a: seq<real>, b: seq<seq<real>>, x: seq<real>)
    requires |a| == |b| && forall k | 0 <= k < |b| :: |b[k]| == |x|
    ensures Dot(RowTimes(a, b, |x|), x) == Dot(a, Apply(b, x))
    decreases |a|
  {
    if |a| == 0 {
      DotZeroLeft(RowTimes(a, b, |x|), x);
    } else {
      RowTimesSplit(a, b, x);
      DotExchange(a[1..], b[1..], x);
      var r := Apply(b, x);
      assert r[1..] == Apply(b[1..], x);
      assert Dot(a, r) == a[0] * r[0] + Dot(a[1..], r[1..]);
    }
  }

  /** Applying a product of matrices is applying one after the other. */
  lemma MatMulApplies(a: Mat6, b: Mat6, x: Vec6)
    ensures MatVec(MatMul(a, b), x) == MatVec(a, MatVec(b, x))
  {
    forall i | 0 <= i < 6
      ensures MatVec(MatMul(a, b), x)[i] == MatVec(a, MatVec(b, x))[i]
    {
      DotExchange(a[i], b, x);
    }
  }
}
