/** The parts of one Gauss-Newton step of LaserOdometry::process that the engine
    decides itself: the degeneracy mask of iteration 0, the projection of the
    solution, the update of the pose with its non-finite reset, and the
    convergence test.  The QR solve, the eigen-decomposition and the matrix
    inverse are inputs. */
module Solver {
  import opened Numerics
  import opened Points

  /** `eignThre[i]`, the same for all six directions. */
  const EigenThreshold: real := 10.0

  const ZeroRow: seq<real> := [0.0, 0.0, 0.0, 0.0, 0.0, 0.0]

  const Identity: Mat6 :=
    seq(6, i requires 0 <= i < 6 => seq(6, j requires 0 <= j < 6 => if i == j then 1.0 else 0.0))

  /** Row `i` is zeroed by the mask loop: it runs from index 5 down and stops at
      the first eigenvalue of at least 10, so row `i` is reached and zeroed
      exactly when every eigenvalue from `i` to 5 is below 10. */
  predicate Masked(e: Vec6, i: int)
    requires 0 <= i < 6
  {
    forall k | i <= k < 6 :: e[k] < EigenThreshold
  }

  /** The matrix `matV2` the mask loop leaves behind. */
  function MaskRows(v: Mat6, e: Vec6): (v2: Mat6)
  {
    seq(6, i requires 0 <= i < 6 => if Masked(e, i) then ZeroRow else v[i])
  }

  /** The mask loop of iteration 0 (lines 693-704). */
  method ZeroWeakRows(v: Mat6, e: Vec6) returns (v2: Mat6, isDegenerate: bool)
    ensures v2 == MaskRows(v, e)
    ensures isDegenerate <==> exists i | 0 <= i < 6 :: Masked(e, i)
    ensures isDegenerate <==> e[5] < EigenThreshold
  {
    v2 := v;
    isDegenerate := false;
    var i := 5;
    while i >= 0 && e[i] < EigenThreshold
      invariant -1 <= i <= 5
      invariant forall k | i < k < 6 :: e[k] < EigenThreshold
      invariant forall k | i < k < 6 :: Masked(e, k) && v2[k] == ZeroRow
      invariant forall k | 0 <= k <= i :: v2[k] == v[k]
      invariant isDegenerate <==> i < 5
    {
      assert Masked(e, i);
      v2 := v2[i := ZeroRow];
      isDegenerate := true;
      i := i - 1;
    }
    forall k | 0 <= k <= i
      ensures !Masked(e, k)
    {
      assert e[i] >= EigenThreshold;
    }
    assert forall k | 0 <= k < 6 :: v2[k] == MaskRows(v, e)[k];
    if isDegenerate {
      assert Masked(e, 5);
    }
  }

  /** A mask zeroes a contiguous block of top rows: a masked row has every
      higher row masked too. */
  lemma MaskIsSuffix(e: Vec6, i: int, j: int)
    requires 0 <= i <= j < 6 && Masked(e, i)
    ensures Masked(e, j)
  {
  }

  /** When the eigenvalues come in ascending order, the mask is all or nothing:
      either the largest is at least 10 and no row is zeroed, or all six are. */
  lemma {:induction false} AscendingMaskAllOrNothing(v: Mat6, e: Vec6)
    requires forall i, j | 0 <= i <= j < 6 :: e[i] <= e[j]
    ensures MaskRows(v, e) == v || MaskRows(v, e) == seq(6, i requires 0 <= i < 6 => ZeroRow)
  {
    if e[5] < EigenThreshold {
      assert forall i | 0 <= i < 6 :: Masked(e, i);
      assert MaskRows(v, e) == seq(6, i requires 0 <= i < 6 => ZeroRow);
    } else {
      assert forall i | 0 <= i < 6 :: !Masked(e, i);
      assert MaskRows(v, e) == v;
    }
  }

  /** Ascending eigenvalues whose smallest one is below the threshold: the
      loop stops at once at the largest one, so nothing is zeroed and the weak
      direction survives. */
  lemma WeakSmallestEigenvalueNotMasked(v: Mat6)
    ensures MaskRows(v, [1.0, 20.0, 30.0, 40.0, 50.0, 60.0]) == v
  {
    var e: Vec6 := [1.0, 20.0, 30.0, 40.0, 50.0, 60.0];
    forall i | 0 <= i < 6
      ensures !Masked(e, i)
    {
      assert e[5] >= EigenThreshold;
    }
    assert forall i | 0 <= i < 6 :: MaskRows(v, e)[i] == v[i];
  }

  /** `matP = matV.inverse() * matV2` (line 705). */
  function ProjectionMatrix(vInv: Mat6, v2: Mat6): Mat6
  {
    MatMul(vInv, v2)
  }

  lemma {:induction false} DotUnit(u: seq<real>, y: seq<real>, i: nat)
    requires |u| == |y| && i < |u|
    requires forall k | 0 <= k < |u| :: u[k] == (if k == i then 1.0 else 0.0)
    ensures Dot(u, y) == y[i]
    decreases |u|
  {
    if i == 0 {
      DotZeroLeft(u[1..], y[1..]);
    } else {
      DotUnit(u[1..], y[1..], i - 1);
    }
  }

  lemma IdentityApplies(y: Vec6)
    ensures MatVec(Identity, y) == y
  {
    forall i | 0 <= i < 6
      ensures MatVec(Identity, y)[i] == y[i]
    {
      DotUnit(Identity[i], y, i);
    }
  }

  /** The degeneracy guarantee: when `vInv` inverts the eigenvector matrix `v`,
      the projected update has no component along a masked direction and keeps
      every other component of the solution, in the coordinates of `v`. */
  lemma {:induction false} MaskedDirectionsVanish(v: Mat6, vInv: Mat6, e: Vec6, x: Vec6)
    requires MatMul(v, vInv) == Identity
    ensures forall i | 0 <= i < 6 ::
      MatVec(v, MatVec(ProjectionMatrix(vInv, MaskRows(v, e)), x))[i]
        == if Masked(e, i) then 0.0 else MatVec(v, x)[i]
  {
    var v2 := MaskRows(v, e);
    var y := MatVec(v2, x);
    MatMulApplies(vInv, v2, x);
    MatMulApplies(v, vInv, y);
    IdentityApplies(y);
    assert MatVec(v, MatVec(ProjectionMatrix(vInv, v2), x)) == y;
    forall i | 0 <= i < 6
      ensures y[i] == if Masked(e, i) then 0.0 else MatVec(v, x)[i]
    {
      if Masked(e, i) {
        DotZeroLeft(v2[i], x);
      }
    }
  }

  /** A solution vector `matX` as the engine sees it: six floats, each possibly
      NaN or infinite. */
  type Update = u: seq<Num> | |u| == 6 witness [NonFinite, NonFinite, NonFinite, NonFinite, NonFinite, NonFinite]

  predicate AllFinite(x: Update)
  {
    forall i | 0 <= i < 6 :: x[i].Fin?
  }

  function Vals(x: Update): (r: Vec6)
    requires AllFinite(x)
    ensures forall i | 0 <= i < 6 :: r[i] == x[i].val
  {
    seq(6, i requires 0 <= i < 6 => x[i].val)
  }

  /** `matX = matP * matX2` (lines 708-712).  A NaN or an infinity in the
      solution reaches every row of the product. */
  function Project(p: Mat6, x: Update): (r: Update)
  {
    if AllFinite(x) then seq(6, i requires 0 <= i < 6 => Fin(MatVec(p, Vals(x))[i]))
    else seq(6, i requires 0 <= i < 6 => NonFinite)
  }

  /** The projection of a finite solution is finite and is `p` applied to it;
      a non-finite solution stays non-finite in every component. */
  lemma ProjectKeepsFiniteness(p: Mat6, x: Update)
    ensures AllFinite(Project(p, x)) <==> AllFinite(x)
    ensures AllFinite(x) ==> Vals(Project(p, x)) == MatVec(p, Vals(x))
    ensures !AllFinite(x) ==> forall i | 0 <= i < 6 :: !Project(p, x)[i].Fin?
  {
    if AllFinite(x) {
      assert Vals(Project(p, x)) == MatVec(p, Vals(x));
    } else {
      assert !Project(p, x)[0].Fin?;
    }
  }

  /** Pose parameter `k`, in matX's order: rot_x, rot_y, rot_z, pos.x, pos.y, pos.z. */
  function Component(p: Pose, k: nat): real
    requires k < 6
  {
    match k
    case 0 => p.rx
    case 1 => p.ry
    case 2 => p.rz
    case 3 => p.tx
    case 4 => p.ty
    case _ => p.tz
  }

  /** Adding one solution component and resetting a non-finite result to the
      identity value (lines 714-727). */
  function Step(c: real, dx: Num): real
  {
    if dx.Fin? then c + dx.val else 0.0
  }

  /** The new `_transform` after one solve. */
  function ApplyUpdate(pose: Pose, x: Update): (r: Pose)
    ensures forall k | 0 <= k < 6 :: Component(r, k) == Step(Component(pose, k), x[k])
  {
    Pose(Step(pose.rx, x[0]), Step(pose.ry, x[1]), Step(pose.rz, x[2]),
         Step(pose.tx, x[3]), Step(pose.ty, x[4]), Step(pose.tz, x[5]))
  }

  function Negate(x: Update): (r: Update)
    ensures forall i | 0 <= i < 6 :: r[i] == (if x[i].Fin? then Fin(-x[i].val) else NonFinite)
  {
    seq(6, i requires 0 <= i < 6 => if x[i].Fin? then Fin(-x[i].val) else NonFinite)
  }

  /** A finite update is undone by its negation: the pose moves by exactly the
      solution vector. */
  lemma {:induction false} ApplyUpdateUndone(pose: Pose, x: Update)
    requires AllFinite(x)
    ensures ApplyUpdate(ApplyUpdate(pose, x), Negate(x)) == pose
  {
  }

  /** A non-finite solution component resets that pose parameter to zero and
      leaves the others as a finite solution would. */
  lemma {:induction false} NonFiniteComponentResets(pose: Pose, x: Update, k: nat)
    requires k < 6 && !x[k].Fin?
    ensures Component(ApplyUpdate(pose, x), k) == 0.0
    ensures forall j | 0 <= j < 6 && j != k && x[j].Fin? ::
      Component(ApplyUpdate(pose, x), j) == Component(pose, j) + x[j].val
  {
  }

  function Sq(a: real): real
  {
    a * a
  }

  /** deltaR squared: the rotation step in degrees. */
  function RotationStepSq(x: Update): real
    requires AllFinite(x)
  {
    Sq(Rad2Deg(x[0].val)) + Sq(Rad2Deg(x[1].val)) + Sq(Rad2Deg(x[2].val))
  }

  /** deltaT squared: the translation step in centimetres. */
  function TranslationStepSq(x: Update): real
    requires AllFinite(x)
  {
    Sq(x[3].val * 100.0) + Sq(x[4].val * 100.0) + Sq(x[5].val * 100.0)
  }

  /** `deltaR < deltaRAbort && deltaT < deltaTAbort` (lines 729-741); with a NaN
      or an infinity in the step both square roots are non-finite and the test fails. */
  predicate Converged(x: Update, deltaRAbort: real, deltaTAbort: real)
  {
    AllFinite(x)
    && SqrtBelow(RotationStepSq(x), deltaRAbort)
    && SqrtBelow(TranslationStepSq(x), deltaTAbort)
  }

  lemma {:induction false} SquareBelowGivesAbsBelow(a: real, rest: real, t: real)
    requires rest >= 0.0 && SqrtBelow(Sq(a) + rest, t)
    ensures Abs(a) < t
  {
  }

  lemma {:induction false} AbsBelowGivesSquareBelow(a: real, t: real)
    requires Abs(a) < t
    ensures Sq(a) < t * t
  {
    assert Sq(a) == Abs(a) * Abs(a);
    RootBelowGivesSquareBelow(Abs(a), t);
  }

  lemma SquareNonNegative(a: real)
    ensures Sq(a) >= 0.0
  {
    if a < 0.0 {
      assert Sq(a) == (-a) * (-a);
    }
  }

  /** A converged step moves each angle by less than deltaRAbort degrees and each
      coordinate by less than deltaTAbort centimetres. */
  lemma {:induction false} ConvergedBoundsEachComponent(x: Update, deltaRAbort: real, deltaTAbort: real)
    requires Converged(x, deltaRAbort, deltaTAbort)
    ensures forall k | 0 <= k < 3 :: Abs(Rad2Deg(x[k].val)) < deltaRAbort
    ensures forall k | 3 <= k < 6 :: Abs(x[k].val * 100.0) < deltaTAbort
  {
    var r0, r1, r2 := Rad2Deg(x[0].val), Rad2Deg(x[1].val), Rad2Deg(x[2].val);
    var t0, t1, t2 := x[3].val * 100.0, x[4].val * 100.0, x[5].val * 100.0;
    SquareNonNegative(r0); SquareNonNegative(r1); SquareNonNegative(r2);
    SquareNonNegative(t0); SquareNonNegative(t1); SquareNonNegative(t2);
    SquareBelowGivesAbsBelow(r0, Sq(r1) + Sq(r2), deltaRAbort);
    SquareBelowGivesAbsBelow(r1, Sq(r0) + Sq(r2), deltaRAbort);
    SquareBelowGivesAbsBelow(r2, Sq(r0) + Sq(r1), deltaRAbort);
    SquareBelowGivesAbsBelow(t0, Sq(t1) + Sq(t2), deltaTAbort);
    SquareBelowGivesAbsBelow(t1, Sq(t0) + Sq(t2), deltaTAbort);
    SquareBelowGivesAbsBelow(t2, Sq(t0) + Sq(t1), deltaTAbort);
  }

  /** Three values each below h in magnitude have a root sum of squares below 2h. */
  lemma {:induction false} ThreeSmallSquares(a: real, b: real, c: real, h: real)
    requires Abs(a) < h && Abs(b) < h && Abs(c) < h
    ensures SqrtBelow(Sq(a) + Sq(b) + Sq(c), 2.0 * h)
  {
    AbsBelowGivesSquareBelow(a, h);
    AbsBelowGivesSquareBelow(b, h);
    AbsBelowGivesSquareBelow(c, h);
    assert (2.0 * h) * (2.0 * h) == 4.0 * (h * h);
  }

  /** Conversely, a finite step whose every angle is below half of deltaRAbort
      degrees and every coordinate below half of deltaTAbort centimetres converges. */
  lemma {:induction false} SmallStepConverges(x: Update, deltaRAbort: real, deltaTAbort: real)
    requires AllFinite(x)
    requires forall k | 0 <= k < 3 :: Abs(Rad2Deg(x[k].val)) < deltaRAbort / 2.0
    requires forall k | 3 <= k < 6 :: Abs(x[k].val * 100.0) < deltaTAbort / 2.0
    ensures Converged(x, deltaRAbort, deltaTAbort)
  {
    ThreeSmallSquares(Rad2Deg(x[0].val), Rad2Deg(x[1].val), Rad2Deg(x[2].val), deltaRAbort / 2.0);
    ThreeSmallSquares(x[3].val * 100.0, x[4].val * 100.0, x[5].val * 100.0, deltaTAbort / 2.0);
  }
}
