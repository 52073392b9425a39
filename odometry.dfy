/** The laser odometry engine: the input synchronizer, the cycle state machine
    of LaserOdometry::process with its optimisation loop, the per-cloud deskew
    and the decimated output of the registered cloud. */
module Odometry {
  import opened Numerics
  import opened Points
  import opened Correspondence
  import opened Residuals
  import opened Solver

  /** The LaserOdometryParams fields the engine reads. */
  datatype Params = Params(scanPeriod: real, ioRatio: int, maxIterations: nat,
                           deltaTAbort: real, deltaRAbort: real)

  /** Two streams belong to the same sweep when their stamps differ by less than this. */
  const SyncTolerance: real := 0.005

  /** An iteration with fewer accepted correspondences makes no update. */
  const MinCorrespondences: nat := 10

  /** The engine optimises only against reference clouds larger than these. */
  const MinReferenceCorners: nat := 10
  const MinReferenceSurfaces: nat := 100

  /** Correspondences are searched again every this many iterations. */
  const SearchPeriod: nat := 5

  /** `fabs(t - reference) < 0.005` on two `Time` stamps, which are integers. */
  predicate Aligned(t: int, reference: int)
  {
    Abs((t - reference) as real) < SyncTolerance
  }

  /** Integer stamps differ by at least 1 unless equal, so the tolerance test
      is an equality test. */
  lemma {:induction false} AlignedMeansEqual(t: int, reference: int)
    ensures Aligned(t, reference) <==> t == reference
  {
    if t != reference {
      assert t - reference >= 1 || reference - t >= 1;
      assert Abs((t - reference) as real) >= 1.0;
    }
  }

  /** The decimation test of generateRegisteredCloud (line 798). */
  predicate Emits(ioRatio: int, frameCount: nat)
  {
    ioRatio < 2 || frameCount % ioRatio == 1
  }

  /** With an ioRatio below 2 every cycle emits. */
  lemma EveryCycleEmitsBelowRatioTwo(ioRatio: int, frameCount: nat)
    requires ioRatio < 2
    ensures Emits(ioRatio, frameCount)
  {
  }

  lemma {:induction false} MulAtLeast(k: int, r: int)
    requires k >= 1 && r > 0
    ensures k * r >= r
  {
    assert k * r == (k - 1) * r + r;
  }

  /** Euclidean division is unique. */
  lemma {:induction false} DivModUnique(a: int, r: int, q: int, m: int)
    requires r > 0 && 0 <= m < r && a == q * r + m
    ensures a % r == m && a / r == q
  {
    var q', m' := a / r, a % r;
    assert (q - q') * r == m' - m;
    if q > q' {
      MulAtLeast(q - q', r);
    } else if q < q' {
      MulAtLeast(q' - q, r);
    }
  }

  /** Emission is periodic in the frame count with period ioRatio. */
  lemma {:induction false} EmitsPeriodic(ioRatio: int, frameCount: nat)
    ensures Emits(ioRatio, frameCount + (if ioRatio < 2 then 1 else ioRatio)) == Emits(ioRatio, frameCount)
  {
    if ioRatio >= 2 {
      DivModUnique(frameCount + ioRatio, ioRatio, frameCount / ioRatio + 1, frameCount % ioRatio);
    }
  }

  lemma {:induction false} MulAtMost(k: int, r: int)
    requires k <= 0 && r > 0
    ensures k * r <= 0
  {
  }

  lemma {:induction false} MulDistributes(a: int, b: int, r: int)
    ensures a * r - b * r == (a - b) * r && (a + 1) * r == a * r + r
  {
  }

  /** Two emitting frame counts are a whole number of periods apart, so no
      window shorter than the period holds two. */
  lemma {:induction false} EmitsAtMostOncePerWindow(ioRatio: int, c: nat, d: nat)
    requires ioRatio >= 2 && c < d < c + ioRatio
    ensures !(Emits(ioRatio, c) && Emits(ioRatio, d))
  {
    if Emits(ioRatio, c) && Emits(ioRatio, d) {
      var qc, qd := c / ioRatio, d / ioRatio;
      assert c == qc * ioRatio + 1 && d == qd * ioRatio + 1;
      MulDistributes(qd, qc, ioRatio);
      var k := qd - qc;
      assert d - c == k * ioRatio;
      if k >= 1 {
        MulAtLeast(k, ioRatio);
      } else {
        MulAtMost(k, ioRatio);
      }
    }
  }

  /** From ioRatio 2 on, every window of ioRatio consecutive frame counts holds
      exactly one emitting count. */
  lemma {:induction false} EmitsOncePerWindow(ioRatio: int, start: nat)
    requires ioRatio >= 2
    ensures exists c | start <= c < start + ioRatio :: Emits(ioRatio, c)
    ensures forall c, d | start <= c < d < start + ioRatio :: !(Emits(ioRatio, c) && Emits(ioRatio, d))
  {
    var q, m := start / ioRatio, start % ioRatio;
    assert start == q * ioRatio + m;
    MulDistributes(q, q, ioRatio);
    var c: nat;
    if m <= 1 {
      c := q * ioRatio + 1;
      DivModUnique(c, ioRatio, q, 1);
    } else {
      c := (q + 1) * ioRatio + 1;
      DivModUnique(c, ioRatio, q + 1, 1);
    }
    assert start <= c < start + ioRatio;
    assert Emits(ioRatio, c);
    forall c, d | start <= c < d < start + ioRatio
      ensures !(Emits(ioRatio, c) && Emits(ioRatio, d))
    {
      EmitsAtMostOncePerWindow(ioRatio, c, d);
    }
  }

  /** `_transform.pos -= _imuVeloFromStart * _params.scanPeriod` (line 318). */
  function Shifted(pose: Pose, imu: ImuState, scanPeriod: real): Pose
  {
    pose.(tx := pose.tx - imu.veloFromStart.x * scanPeriod,
          ty := pose.ty - imu.veloFromStart.y * scanPeriod,
          tz := pose.tz - imu.veloFromStart.z * scanPeriod)
  }

  /** `std::vector<int>::resize`: keeps the first entries, pads with zeros. */
  function Resize(s: seq<int>, n: nat): (r: seq<int>)
    ensures |r| == n
    ensures forall i | 0 <= i < n :: r[i] == if i < |s| then s[i] else 0
  {
    if n <= |s| then s[..n] else s + seq(n - |s|, _ => 0)
  }

  /** The eigen-decomposition of the normal matrix and the inverse of its
      eigenvector matrix. */
  datatype Eigen = Eigen(values: Vec6, vectors: Mat6, inverse: Mat6)

  /** Everything the engine obtains from code outside this model, indexed by the
      iteration and the current-frame point index where it varies per point:
      the k-d tree answers and squared distances for the query point, the
      distance geometry of an edge or a plane correspondence, the query point's
      range, the QR solve, the eigensolver, and the trigonometric composition of
      the accumulated pose. */
  datatype Externals = Externals(
    cornerQuery: (nat, nat) -> Query,
    surfaceQuery: (nat, nat) -> Query,
    edgeResidual: (nat, nat, Point, Point) -> Residual,
    planeResidual: (nat, nat, Point, Point, Point) -> Residual,
    queryRange: (nat, nat) -> real,
    solve: (Pose, seq<Point>, seq<Point>) -> Update,
    eigen: (Pose, seq<Point>, seq<Point>) -> Eigen,
    compose: (Pose, Pose, ImuState) -> Pose)

  /** The k-d trees over the two reference clouds answer with one of their
      indices and one squared distance per reference point, and the query
      range, a square root, is never negative. */
  ghost predicate TreesAnswer(o: Externals, corners: seq<Point>, surfaces: seq<Point>)
  {
    (forall k: nat, i: nat :: WellFormed(corners, o.cornerQuery(k, i))) &&
    (forall k: nat, i: nat :: WellFormed(surfaces, o.surfaceQuery(k, i))) &&
    (forall k: nat, i: nat :: o.queryRange(k, i) >= 0.0)
  }

  /** The stored edge indices of the first n points can be dereferenced
      wherever line 392 dereferences them. */
  predicate EdgeIndicesValid(ref: seq<Point>, ind1: seq<int>, ind2: seq<int>, n: nat)
  {
    n <= |ind1| && n <= |ind2| &&
    forall i | 0 <= i < n :: ind2[i] >= 0 ==> 0 <= ind1[i] < |ref| && ind2[i] < |ref|
  }

  /** The same for the plane indices (line 505). */
  predicate PlaneIndicesValid(ref: seq<Point>, ind1: seq<int>, ind2: seq<int>, ind3: seq<int>, n: nat)
  {
    n <= |ind1| && n <= |ind2| && n <= |ind3| &&
    forall i | 0 <= i < n :: ind2[i] >= 0 && ind3[i] >= 0 ==>
      0 <= ind1[i] < |ref| && ind2[i] < |ref| && ind3[i] < |ref|
  }

  lemma EdgeCorrespondenceIndices(ref: seq<Point>, q: Query, bound: int, ind1: int, ind2: int)
    requires WellFormed(ref, q) && EdgeCorrespondence(ref, q, bound, ind1, ind2)
    ensures ind2 >= 0 ==> 0 <= ind1 < |ref| && ind2 < |ref|
  {
  }

  lemma PlaneCorrespondenceIndices(ref: seq<Point>, q: Query, bound: int, ind1: int, ind2: int, ind3: int)
    requires WellFormed(ref, q) && PlaneCorrespondence(ref, q, bound, ind1, ind2, ind3)
    ensures ind2 >= 0 && ind3 >= 0 ==> 0 <= ind1 < |ref| && ind2 < |ref| && ind3 < |ref|
  {
  }

  /** Sharp point i has the edge correspondence of lines 348-390 for its query of
      iteration j, stored at its own index. */
  ghost predicate EdgeFound(j: nat, ref: seq<Point>, o: Externals, bound: int,
                            ind1: seq<int>, ind2: seq<int>, i: nat)
  {
    i < |ind1| && i < |ind2| &&
    WellFormed(ref, o.cornerQuery(j, i)) &&
    EdgeCorrespondence(ref, o.cornerQuery(j, i), bound, ind1[i], ind2[i])
  }

  /** Flat point i has the plane correspondence of lines 452-503. */
  ghost predicate PlaneFound(j: nat, ref: seq<Point>, o: Externals, bound: int,
                             ind1: seq<int>, ind2: seq<int>, ind3: seq<int>, i: nat)
  {
    i < |ind1| && i < |ind2| && i < |ind3| &&
    WellFormed(ref, o.surfaceQuery(j, i)) &&
    PlaneCorrespondence(ref, o.surfaceQuery(j, i), bound, ind1[i], ind2[i], ind3[i])
  }

  /** Each of the first n sharp points has its edge correspondence. */
  ghost predicate EdgeSearched(j: nat, ref: seq<Point>, o: Externals, bound: int,
                               ind1: seq<int>, ind2: seq<int>, n: nat)
  {
    n <= |ind1| && n <= |ind2| &&
    forall i: nat | i < n :: EdgeFound(j, ref, o, bound, ind1, ind2, i)
  }

  /** Each of the first n flat points has its plane correspondence. */
  ghost predicate PlaneSearched(j: nat, ref: seq<Point>, o: Externals, bound: int,
                                ind1: seq<int>, ind2: seq<int>, ind3: seq<int>, n: nat)
  {
    n <= |ind1| && n <= |ind2| && n <= |ind3| &&
    forall i: nat | i < n :: PlaneFound(j, ref, o, bound, ind1, ind2, ind3, i)
  }

  /** Whether a prefix is searched depends only on the indices of that prefix. */
  lemma EdgeSearchedFrame(j: nat, ref: seq<Point>, o: Externals, bound: int,
                          ind1: seq<int>, ind2: seq<int>, ind1': seq<int>, ind2': seq<int>, n: nat)
    requires EdgeSearched(j, ref, o, bound, ind1, ind2, n) && n <= |ind1'| && n <= |ind2'|
    requires forall k | 0 <= k < n :: ind1'[k] == ind1[k] && ind2'[k] == ind2[k]
    ensures EdgeSearched(j, ref, o, bound, ind1', ind2', n)
  {
    forall k: nat | k < n
      ensures EdgeFound(j, ref, o, bound, ind1', ind2', k)
    {
      assert EdgeFound(j, ref, o, bound, ind1, ind2, k);
    }
  }

  lemma PlaneSearchedFrame(j: nat, ref: seq<Point>, o: Externals, bound: int,
                           ind1: seq<int>, ind2: seq<int>, ind3: seq<int>,
                           ind1': seq<int>, ind2': seq<int>, ind3': seq<int>, n: nat)
    requires PlaneSearched(j, ref, o, bound, ind1, ind2, ind3, n)
    requires n <= |ind1'| && n <= |ind2'| && n <= |ind3'|
    requires forall k | 0 <= k < n :: ind1'[k] == ind1[k] && ind2'[k] == ind2[k] && ind3'[k] == ind3[k]
    ensures PlaneSearched(j, ref, o, bound, ind1', ind2', ind3', n)
  {
    forall k: nat | k < n
      ensures PlaneFound(j, ref, o, bound, ind1', ind2', ind3', k)
    {
      assert PlaneFound(j, ref, o, bound, ind1, ind2, ind3, k);
    }
  }

  /** The entries the edge loop of lines 392-446 pushes, for the first n sharp points. */
  function EdgeSelection(iter: nat, sharp: seq<Point>, ref: seq<Point>, ind1: seq<int>, ind2: seq<int>,
                         o: Externals, n: nat): seq<Match>
    requires n <= |sharp| && EdgeIndicesValid(ref, ind1, ind2, n)
    decreases n
  {
    if n == 0 then []
    else
      var i := n - 1;
      EdgeSelection(iter, sharp, ref, ind1, ind2, o, i) +
      (if ind2[i] >= 0 then EdgeEntry(iter, sharp[i], o.edgeResidual(iter, i, ref[ind1[i]], ref[ind2[i]]))
       else [])
  }

  /** The entries the plane loop of lines 505-546 pushes, for the first n flat points. */
  function PlaneSelection(iter: nat, flat: seq<Point>, ref: seq<Point>,
                          ind1: seq<int>, ind2: seq<int>, ind3: seq<int>, o: Externals, n: nat): seq<Match>
    requires n <= |flat| && PlaneIndicesValid(ref, ind1, ind2, ind3, n)
    decreases n
  {
    if n == 0 then []
    else
      var i := n - 1;
      PlaneSelection(iter, flat, ref, ind1, ind2, ind3, o, i) +
      (if ind2[i] >= 0 && ind3[i] >= 0 then
         PlaneEntry(iter, flat[i], o.planeResidual(iter, i, ref[ind1[i]], ref[ind2[i]], ref[ind3[i]]),
                    o.queryRange(iter, i))
       else [])
  }

  /** The edge selection only depends on the indices of the points it covers. */
  lemma {:induction false} EdgeSelectionFrame(iter: nat, sharp: seq<Point>, ref: seq<Point>,
                                              ind1: seq<int>, ind2: seq<int>, ind1': seq<int>, ind2': seq<int>,
                                              o: Externals, n: nat)
    requires n <= |sharp| && EdgeIndicesValid(ref, ind1, ind2, n) && n <= |ind1'| && n <= |ind2'|
    requires forall k | 0 <= k < n :: ind1'[k] == ind1[k] && ind2'[k] == ind2[k]
    ensures EdgeIndicesValid(ref, ind1', ind2', n)
    ensures EdgeSelection(iter, sharp, ref, ind1', ind2', o, n) == EdgeSelection(iter, sharp, ref, ind1, ind2, o, n)
    decreases n
  {
    if n > 0 {
      EdgeSelectionFrame(iter, sharp, ref, ind1, ind2, ind1', ind2', o, n - 1);
    }
  }

  /** The plane selection only depends on the indices of the points it covers. */
  lemma {:induction false} PlaneSelectionFrame(iter: nat, flat: seq<Point>, ref: seq<Point>,
                                               ind1: seq<int>, ind2: seq<int>, ind3: seq<int>,
                                               ind1': seq<int>, ind2': seq<int>, ind3': seq<int>,
                                               o: Externals, n: nat)
    requires n <= |flat| && PlaneIndicesValid(ref, ind1, ind2, ind3, n)
    requires n <= |ind1'| && n <= |ind2'| && n <= |ind3'|
    requires forall k | 0 <= k < n :: ind1'[k] == ind1[k] && ind2'[k] == ind2[k] && ind3'[k] == ind3[k]
    ensures PlaneIndicesValid(ref, ind1', ind2', ind3', n)
    ensures PlaneSelection(iter, flat, ref, ind1', ind2', ind3', o, n)
         == PlaneSelection(iter, flat, ref, ind1, ind2, ind3, o, n)
    decreases n
  {
    if n > 0 {
      PlaneSelectionFrame(iter, flat, ref, ind1, ind2, ind3, ind1', ind2', ind3', o, n - 1);
    }
  }

  lemma {:induction false} WeightedBelow(s: real, d: real, b: real)
    requires 0.0 <= s <= 1.0 && Abs(d) < b
    ensures Abs(s * d) < b
  {
    assert Abs(s * d) == s * Abs(d);
    assert Abs(d) - s * Abs(d) == (1.0 - s) * Abs(d);
    assert (1.0 - s) * Abs(d) >= 0.0;
  }

  /** A weight in (0.1, 1] scales a non-zero distance to between a tenth of it and all of it. */
  lemma {:induction false} WeightedRange(s: real, d: real)
    requires MinWeight < s <= 1.0 && d != 0.0
    ensures MinWeight * Abs(d) < Abs(s * d) <= Abs(d)
  {
    calc {
      MinWeight * Abs(d);
    < { ScaleBetween(s, Abs(d)); }
      s * Abs(d);
    == { AbsScale(s, d); }
      Abs(s * d);
    }
    calc {
      Abs(s * d);
    == { AbsScale(s, d); }
      s * Abs(d);
    <= { ScaleBetween(s, Abs(d)); }
      Abs(d);
    }
  }

  /** A non-negative factor comes out of the absolute value. */
  lemma AbsScale(s: real, d: real)
    requires s >= 0.0
    ensures Abs(s * d) == s * Abs(d)
  {
    if d >= 0.0 {
      assert s * d >= 0.0;
    } else {
      assert s * -d >= 0.0;
      assert s * -d == -(s * d);
    }
  }

  /** A weight in (0.1, 1] scales a positive length to between a tenth of it and all of it. */
  lemma ScaleBetween(s: real, a: real)
    requires MinWeight < s <= 1.0 && a > 0.0
    ensures 0.0 < MinWeight * a < s * a <= a
  {
    assert s * a - MinWeight * a == (s - MinWeight) * a;
    assert a - s * a == (1.0 - s) * a;
  }

  /** The indices are listed in strictly increasing order, so none twice. */
  predicate Increasing(ix: seq<nat>)
  {
    forall k, l | 0 <= k < l < |ix| :: ix[k] < ix[l]
  }

  /** Appending an index above all listed ones keeps the order. */
  lemma IncreasingAppend(ix: seq<nat>, i: nat)
    requires Increasing(ix) && forall k | 0 <= k < |ix| :: ix[k] < i
    ensures Increasing(ix + [i])
  {
  }

  /** Entry m was pushed by sharp point i, which has both indices: its
      weighted distance lies between a tenth of the point's distance and all of it. */
  ghost predicate EdgeFrom(iter: nat, sharp: seq<Point>, ref: seq<Point>, ind1: seq<int>, ind2: seq<int>,
                           o: Externals, m: Match, i: nat)
  {
    i < |sharp| && i < |ind1| && i < |ind2| && 0 <= ind1[i] < |ref| && 0 <= ind2[i] < |ref| &&
    m.point == sharp[i] &&
    var r := o.edgeResidual(iter, i, ref[ind1[i]], ref[ind2[i]]);
    MinWeight * Abs(r.d) < Abs(m.coeff.intensity) <= Abs(r.d)
  }

  /** Entry m was pushed by flat point i, which has all three indices; where
      the point's query range is non-negative the weighted distance lies between a
      tenth of the distance and all of it, and from iteration 5 below half the range. */
  ghost predicate PlaneFrom(iter: nat, flat: seq<Point>, ref: seq<Point>,
                            ind1: seq<int>, ind2: seq<int>, ind3: seq<int>, o: Externals, m: Match, i: nat)
  {
    i < |flat| && i < |ind1| && i < |ind2| && i < |ind3| &&
    0 <= ind1[i] < |ref| && 0 <= ind2[i] < |ref| && 0 <= ind3[i] < |ref| &&
    m.point == flat[i] &&
    var r := o.planeResidual(iter, i, ref[ind1[i]], ref[ind2[i]], ref[ind3[i]]);
    var range := o.queryRange(iter, i);
    (range >= 0.0 ==> MinWeight * Abs(r.d) < Abs(m.coeff.intensity) <= Abs(r.d)) &&
    (range >= 0.0 && iter >= ReweightFrom ==> Abs(m.coeff.intensity) < 0.5 * range)
  }

  /** A kept edge entry carries its point and a weighted distance between a
      tenth of the distance and all of it, below 0.5 from iteration 5. */
  lemma KeptEdgeEntry(iter: nat, p: Point, r: Residual)
    ensures var e := EdgeEntry(iter, p, r);
      |e| == 1 ==>
        e[0].point == p && MinWeight * Abs(r.d) < Abs(e[0].coeff.intensity) <= Abs(r.d) &&
        (iter >= ReweightFrom ==> Abs(e[0].coeff.intensity) < 0.5)
  {
    var e := EdgeEntry(iter, p, r);
    if |e| == 1 {
      var s := EdgeWeight(iter, r.d);
      assert e[0].coeff.intensity == s * r.d;
      WeightedRange(s, r.d);
      if iter >= ReweightFrom {
        WeightedBelow(s, r.d, 0.5);
      }
    }
  }

  /** The edge selection of n points extends that of n - 1 by what point n - 1 pushes. */
  lemma EdgeSelectionStep(iter: nat, sharp: seq<Point>, ref: seq<Point>, ind1: seq<int>, ind2: seq<int>,
                          o: Externals, n: nat)
    returns (e: seq<Match>)
    requires 0 < n <= |sharp| && EdgeIndicesValid(ref, ind1, ind2, n)
    ensures EdgeSelection(iter, sharp, ref, ind1, ind2, o, n) == EdgeSelection(iter, sharp, ref, ind1, ind2, o, n - 1) + e
    ensures |e| <= 1
    ensures |e| == 1 ==>
      EdgeFrom(iter, sharp, ref, ind1, ind2, o, e[0], n - 1) && e[0].coeff.intensity != 0.0 &&
      (iter >= ReweightFrom ==> Abs(e[0].coeff.intensity) < 0.5)
  {
    var i := n - 1;
    if ind2[i] >= 0 {
      var r := o.edgeResidual(iter, i, ref[ind1[i]], ref[ind2[i]]);
      e := EdgeEntry(iter, sharp[i], r);
      KeptEdgeEntry(iter, sharp[i], r);
    } else {
      e := [];
    }
  }

  /** Appending the at most one entry of point n - 1 to a selection whose
      entries come, in increasing order, from points below n - 1. */
  lemma EdgeSourcesExtend(iter: nat, sharp: seq<Point>, ref: seq<Point>, ind1: seq<int>, ind2: seq<int>,
                          o: Externals, sel: seq<Match>, prev: seq<Match>, ix: seq<nat>, e: seq<Match>, n: nat)
    returns (ix': seq<nat>)
    requires 0 < n && sel == prev + e && |ix| == |prev| && |e| <= 1
    requires forall k | 0 <= k < |ix| :: ix[k] < n - 1 && EdgeFrom(iter, sharp, ref, ind1, ind2, o, prev[k], ix[k])
    requires Increasing(ix)
    requires |e| == 1 ==> EdgeFrom(iter, sharp, ref, ind1, ind2, o, e[0], n - 1)
    ensures |ix'| == |sel|
    ensures forall k | 0 <= k < |ix'| :: ix'[k] < n && EdgeFrom(iter, sharp, ref, ind1, ind2, o, sel[k], ix'[k])
    ensures Increasing(ix')
  {
    if |e| == 0 {
      assert sel == prev;
      ix' := ix;
    } else {
      ix' := ix + [n - 1];
      IncreasingAppend(ix, n - 1);
      forall k | 0 <= k < |ix'|
        ensures ix'[k] < n && EdgeFrom(iter, sharp, ref, ind1, ind2, o, sel[k], ix'[k])
      {
        if k < |ix| {
          assert sel[k] == prev[k] && ix'[k] == ix[k];
        } else {
          assert sel[k] == e[0] && ix'[k] == n - 1;
        }
      }
    }
  }

  /** Every pushed edge entry is one of the covered sharp points with a
      non-zero weighted distance, at most n of them; from iteration 5 the
      weighted distance is below 0.5. */
  lemma {:induction false} EdgeSelectionSound(iter: nat, sharp: seq<Point>, ref: seq<Point>,
                                              ind1: seq<int>, ind2: seq<int>, o: Externals, n: nat)
    requires n <= |sharp| && EdgeIndicesValid(ref, ind1, ind2, n)
    ensures var sel := EdgeSelection(iter, sharp, ref, ind1, ind2, o, n);
      |sel| <= n &&
      (forall k | 0 <= k < |sel| :: sel[k].point in sharp[..n] && sel[k].coeff.intensity != 0.0) &&
      (iter >= ReweightFrom ==> forall k | 0 <= k < |sel| :: Abs(sel[k].coeff.intensity) < 0.5)
    decreases n
  {
    if n > 0 {
      var i := n - 1;
      EdgeSelectionSound(iter, sharp, ref, ind1, ind2, o, i);
      var prev := EdgeSelection(iter, sharp, ref, ind1, ind2, o, i);
      var sel := EdgeSelection(iter, sharp, ref, ind1, ind2, o, n);
      assert sharp[..n] == sharp[..i] + [sharp[i]];
      if ind2[i] >= 0 {
        var r := o.edgeResidual(iter, i, ref[ind1[i]], ref[ind2[i]]);
        var e := EdgeEntry(iter, sharp[i], r);
        assert sel == prev + e;
        if |e| == 1 {
          var s := EdgeWeight(iter, r.d);
          KeptCoefficientNonZero(Fin(s), r);
          KeptWeightInRange(iter, r.d, 0.0);
          if iter >= ReweightFrom {
            LateEdgeAcceptance(iter, r.d);
            WeightedBelow(s, r.d, 0.5);
          }
          assert sel[|sel| - 1] == e[0];
        }
      } else {
        assert sel == prev;
      }
    }
  }

  /** Every pushed edge entry comes from its own sharp point: `ix` lists, in
      increasing order, the index of the point behind each entry, a point with
      a second index (line 392), so no point pushes twice; the weighted
      distance lies between a tenth of the point's distance and all of it. */
  lemma {:induction false} EdgeSelectionSources(iter: nat, sharp: seq<Point>, ref: seq<Point>,
                                                ind1: seq<int>, ind2: seq<int>, o: Externals, n: nat)
    returns (ix: seq<nat>)
    requires n <= |sharp| && EdgeIndicesValid(ref, ind1, ind2, n)
    ensures var sel := EdgeSelection(iter, sharp, ref, ind1, ind2, o, n);
      |ix| == |sel| &&
      (forall k | 0 <= k < |ix| :: ix[k] < n && EdgeFrom(iter, sharp, ref, ind1, ind2, o, sel[k], ix[k])) &&
      Increasing(ix)
    decreases n
  {
    if n == 0 {
      return [];
    }
    var ix' := EdgeSelectionSources(iter, sharp, ref, ind1, ind2, o, n - 1);
    var e := EdgeSelectionStep(iter, sharp, ref, ind1, ind2, o, n);
    ix := EdgeSourcesExtend(iter, sharp, ref, ind1, ind2, o, EdgeSelection(iter, sharp, ref, ind1, ind2, o, n),
                            EdgeSelection(iter, sharp, ref, ind1, ind2, o, n - 1), ix', e, n);
  }

  /** A kept plane entry carries its point; with a non-negative range its
      weighted distance lies between a tenth of the distance and all of it, and
      from iteration 5 below half the range. */
  lemma KeptPlaneEntry(iter: nat, p: Point, r: Residual, range: real)
    ensures var e := PlaneEntry(iter, p, r, range);
      |e| == 1 ==>
        e[0].point == p &&
        (range >= 0.0 ==> MinWeight * Abs(r.d) < Abs(e[0].coeff.intensity) <= Abs(r.d)) &&
        (range >= 0.0 && iter >= ReweightFrom ==> Abs(e[0].coeff.intensity) < 0.5 * range)
  {
    var e := PlaneEntry(iter, p, r, range);
    if |e| == 1 && range >= 0.0 {
      var w := PlaneWeight(iter, r.d, range).val;
      assert e[0].coeff.intensity == w * r.d;
      WeightedRange(w, r.d);
      if iter >= ReweightFrom {
        WeightedBelow(w, r.d, 0.5 * range);
      }
    }
  }

  /** The plane selection of n points extends that of n - 1 by what point n - 1 pushes. */
  lemma PlaneSelectionStep(iter: nat, flat: seq<Point>, ref: seq<Point>,
                           ind1: seq<int>, ind2: seq<int>, ind3: seq<int>, o: Externals, n: nat)
    returns (e: seq<Match>)
    requires 0 < n <= |flat| && PlaneIndicesValid(ref, ind1, ind2, ind3, n)
    ensures PlaneSelection(iter, flat, ref, ind1, ind2, ind3, o, n) ==
            PlaneSelection(iter, flat, ref, ind1, ind2, ind3, o, n - 1) + e
    ensures |e| <= 1
    ensures |e| == 1 ==> PlaneFrom(iter, flat, ref, ind1, ind2, ind3, o, e[0], n - 1) && e[0].coeff.intensity != 0.0
  {
    var i := n - 1;
    if ind2[i] >= 0 && ind3[i] >= 0 {
      var r := o.planeResidual(iter, i, ref[ind1[i]], ref[ind2[i]], ref[ind3[i]]);
      e := PlaneEntry(iter, flat[i], r, o.queryRange(iter, i));
      KeptPlaneEntry(iter, flat[i], r, o.queryRange(iter, i));
    } else {
      e := [];
    }
  }

  /** Appending the at most one entry of flat point n - 1. */
  lemma PlaneSourcesExtend(iter: nat, flat: seq<Point>, ref: seq<Point>,
                           ind1: seq<int>, ind2: seq<int>, ind3: seq<int>, o: Externals,
                           sel: seq<Match>, prev: seq<Match>, ix: seq<nat>, e: seq<Match>, n: nat)
    returns (ix': seq<nat>)
    requires 0 < n && sel == prev + e && |ix| == |prev| && |e| <= 1
    requires forall k | 0 <= k < |ix| :: ix[k] < n - 1 && PlaneFrom(iter, flat, ref, ind1, ind2, ind3, o, prev[k], ix[k])
    requires Increasing(ix)
    requires |e| == 1 ==> PlaneFrom(iter, flat, ref, ind1, ind2, ind3, o, e[0], n - 1)
    ensures |ix'| == |sel|
    ensures forall k | 0 <= k < |ix'| :: ix'[k] < n && PlaneFrom(iter, flat, ref, ind1, ind2, ind3, o, sel[k], ix'[k])
    ensures Increasing(ix')
  {
    if |e| == 0 {
      assert sel == prev;
      ix' := ix;
    } else {
      ix' := ix + [n - 1];
      IncreasingAppend(ix, n - 1);
      forall k | 0 <= k < |ix'|
        ensures ix'[k] < n && PlaneFrom(iter, flat, ref, ind1, ind2, ind3, o, sel[k], ix'[k])
      {
        if k < |ix| {
          assert sel[k] == prev[k] && ix'[k] == ix[k];
        } else {
          assert sel[k] == e[0] && ix'[k] == n - 1;
        }
      }
    }
  }

  /** Every pushed plane entry is one of the covered flat points with a
      non-zero weighted distance, at most n of them. */
  lemma {:induction false} PlaneSelectionSound(iter: nat, flat: seq<Point>, ref: seq<Point>,
                                               ind1: seq<int>, ind2: seq<int>, ind3: seq<int>,
                                               o: Externals, n: nat)
    requires n <= |flat| && PlaneIndicesValid(ref, ind1, ind2, ind3, n)
    ensures var sel := PlaneSelection(iter, flat, ref, ind1, ind2, ind3, o, n);
      |sel| <= n &&
      forall k | 0 <= k < |sel| :: sel[k].point in flat[..n] && sel[k].coeff.intensity != 0.0
    decreases n
  {
    if n > 0 {
      var i := n - 1;
      PlaneSelectionSound(iter, flat, ref, ind1, ind2, ind3, o, i);
      var prev := PlaneSelection(iter, flat, ref, ind1, ind2, ind3, o, i);
      var sel := PlaneSelection(iter, flat, ref, ind1, ind2, ind3, o, n);
      assert flat[..n] == flat[..i] + [flat[i]];
      if ind2[i] >= 0 && ind3[i] >= 0 {
        var r := o.planeResidual(iter, i, ref[ind1[i]], ref[ind2[i]], ref[ind3[i]]);
        var range := o.queryRange(iter, i);
        var e := PlaneEntry(iter, flat[i], r, range);
        assert sel == prev + e;
        if |e| == 1 {
          assert sel[|sel| - 1] == e[0];
        }
      } else {
        assert sel == prev;
      }
    }
  }

  /** Every pushed plane entry comes from its own flat point: `ix` lists, in
      increasing order, the index of the point behind each entry, a point with
      a second and a third index (line 505), so no point pushes twice.  Where
      the point's query range is non-negative, as the square root at line 534
      makes it, the weighted distance lies between a tenth of the distance and
      all of it, and from iteration 5 below half the range. */
  lemma {:induction false} PlaneSelectionSources(iter: nat, flat: seq<Point>, ref: seq<Point>,
                                                 ind1: seq<int>, ind2: seq<int>, ind3: seq<int>,
                                                 o: Externals, n: nat)
    returns (ix: seq<nat>)
    requires n <= |flat| && PlaneIndicesValid(ref, ind1, ind2, ind3, n)
    ensures var sel := PlaneSelection(iter, flat, ref, ind1, ind2, ind3, o, n);
      |ix| == |sel| &&
      (forall k | 0 <= k < |ix| :: ix[k] < n && PlaneFrom(iter, flat, ref, ind1, ind2, ind3, o, sel[k], ix[k])) &&
      Increasing(ix)
    decreases n
  {
    if n == 0 {
      return [];
    }
    var ix' := PlaneSelectionSources(iter, flat, ref, ind1, ind2, ind3, o, n - 1);
    var e := PlaneSelectionStep(iter, flat, ref, ind1, ind2, ind3, o, n);
    ix := PlaneSourcesExtend(iter, flat, ref, ind1, ind2, ind3, o,
                             PlaneSelection(iter, flat, ref, ind1, ind2, ind3, o, n),
                             PlaneSelection(iter, flat, ref, ind1, ind2, ind3, o, n - 1), ix', e, n);
  }

  /** Whether an iteration updated the transform: skipped with fewer than 10
      entries, or solved for `solution` and applied `applied`. */
  datatype Solve = Skipped | Solved(solution: Update, applied: Update)

  /** What one iteration of the optimisation loop collected: the
      correspondence indices it used and the entries it pushed. */
  datatype Collected = Collected(cornerInd1: seq<int>, cornerInd2: seq<int>,
                                 surfInd1: seq<int>, surfInd2: seq<int>, surfInd3: seq<int>,
                                 ori: seq<Point>, coeff: seq<Point>)

  /** What one iteration of the optimisation loop did. */
  datatype Outcome = Outcome(found: Collected, solve: Solve)

  /** The iteration ended the loop by meeting both abort thresholds (lines 729-741). */
  predicate Stops(e: Outcome, params: Params)
  {
    e.solve.Solved? && Converged(e.solve.applied, params.deltaRAbort, params.deltaTAbort)
  }

  /** The transform after replaying the updates of a sequence of iterations. */
  function Replay(pose: Pose, trace: seq<Outcome>): Pose
    decreases |trace|
  {
    if |trace| == 0 then pose
    else
      var before := Replay(pose, trace[..|trace| - 1]);
      match trace[|trace| - 1].solve
      case Skipped => before
      case Solved(_, applied) => ApplyUpdate(before, applied)
  }

  /** An optimisation whose every iteration was skipped leaves the transform alone. */
  lemma {:induction false} SkippedIterationsKeepPose(pose: Pose, trace: seq<Outcome>)
    requires forall k | 0 <= k < |trace| :: trace[k].solve.Skipped?
    ensures Replay(pose, trace) == pose
    decreases |trace|
  {
    if |trace| > 0 {
      SkippedIterationsKeepPose(pose, trace[..|trace| - 1]);
    }
  }

  /** The clouds one optimisation works on: the sharp and flat points of the
      current sweep and the two reference clouds of the previous one. */
  datatype Frame = Frame(sharp: seq<Point>, corners: seq<Point>, flat: seq<Point>, surfaces: seq<Point>)

  /** The degeneracy decision of iteration 0 (lines 682-705), which holds for the
      rest of the optimisation; an iteration 0 without an update leaves it false. */
  predicate Degenerate(trace: seq<Outcome>, eig: Eigen)
  {
    |trace| > 0 && trace[0].solve.Solved? && eig.values[5] < EigenThreshold
  }

  /** matP = V^-1 * V2 (line 705). */
  function DegenerateProjection(eig: Eigen): Mat6
  {
    ProjectionMatrix(eig.inverse, MaskRows(eig.vectors, eig.values))
  }

  /** The edge indices of iteration j: a fresh search of lines 348-390 for every
      sharp point when j % 5 == 0, the previous indices otherwise; either way
      dereferenceable. */
  ghost predicate EdgeRecord(j: nat, sharp: seq<Point>, ref: seq<Point>, o: Externals,
                             ind1: seq<int>, ind2: seq<int>, prev1: seq<int>, prev2: seq<int>)
  {
    |ind1| == |sharp| && |ind2| == |sharp| &&
    EdgeIndicesValid(ref, ind1, ind2, |sharp|) &&
    (j % SearchPeriod == 0 ==> EdgeSearched(j, ref, o, |sharp|, ind1, ind2, |sharp|)) &&
    (j % SearchPeriod != 0 ==> ind1 == prev1 && ind2 == prev2)
  }

  /** The plane indices of iteration j (the search of lines 452-503). */
  ghost predicate PlaneRecord(j: nat, flat: seq<Point>, ref: seq<Point>, o: Externals,
                              ind1: seq<int>, ind2: seq<int>, ind3: seq<int>,
                              prev1: seq<int>, prev2: seq<int>, prev3: seq<int>)
  {
    |ind1| == |flat| && |ind2| == |flat| && |ind3| == |flat| &&
    PlaneIndicesValid(ref, ind1, ind2, ind3, |flat|) &&
    (j % SearchPeriod == 0 ==> PlaneSearched(j, ref, o, |flat|, ind1, ind2, ind3, |flat|)) &&
    (j % SearchPeriod != 0 ==> ind1 == prev1 && ind2 == prev2 && ind3 == prev3)
  }

  /** Iteration j collected what lines 341-547 prescribe: its indices are a fresh
      search when j % 5 == 0 and those of the previous iteration otherwise, and
      its entries are the edge selection followed by the plane selection under
      those indices. */
  ghost predicate SearchRecord(j: nat, f: Frame, o: Externals, c: Collected, prev: Collected)
  {
    EdgeRecord(j, f.sharp, f.corners, o, c.cornerInd1, c.cornerInd2, prev.cornerInd1, prev.cornerInd2) &&
    PlaneRecord(j, f.flat, f.surfaces, o, c.surfInd1, c.surfInd2, c.surfInd3,
                prev.surfInd1, prev.surfInd2, prev.surfInd3) &&
    (var edges := EdgeSelection(j, f.sharp, f.corners, c.cornerInd1, c.cornerInd2, o, |f.sharp|);
     var planes := PlaneSelection(j, f.flat, f.surfaces, c.surfInd1, c.surfInd2, c.surfInd3, o, |f.flat|);
     c.ori == Oris(edges) + Oris(planes) && c.coeff == Coeffs(edges) + Coeffs(planes))
  }

  lemma SearchRecordOf(j: nat, f: Frame, o: Externals, c: Collected, prev: Collected,
                       edges: seq<Match>, planes: seq<Match>)
    requires EdgeRecord(j, f.sharp, f.corners, o, c.cornerInd1, c.cornerInd2, prev.cornerInd1, prev.cornerInd2)
    requires PlaneRecord(j, f.flat, f.surfaces, o, c.surfInd1, c.surfInd2, c.surfInd3,
                         prev.surfInd1, prev.surfInd2, prev.surfInd3)
    requires edges == EdgeSelection(j, f.sharp, f.corners, c.cornerInd1, c.cornerInd2, o, |f.sharp|)
    requires planes == PlaneSelection(j, f.flat, f.surfaces, c.surfInd1, c.surfInd2, c.surfInd3, o, |f.flat|)
    requires c.ori == Oris(edges) + Oris(planes) && c.coeff == Coeffs(edges) + Coeffs(planes)
    ensures SearchRecord(j, f, o, c, prev)
  {
  }

  /** In a search iteration the record does not depend on the previous iteration. */
  lemma SearchRecordAtSearch(j: nat, f: Frame, o: Externals, c: Collected, prev: Collected, prev': Collected)
    requires j % SearchPeriod == 0 && SearchRecord(j, f, o, c, prev)
    ensures SearchRecord(j, f, o, c, prev')
  {
  }

  /** An iteration with the entries of c updated as lines 549-727 prescribe: it
      skips with fewer than 10 entries, and otherwise solves from the transform
      `before` and projects the solution when the problem is degenerate. */
  predicate SolveRecord(o: Externals, c: Collected, s: Solve, before: Pose, degenerate: bool, p: Mat6)
  {
    (s.Skipped? <==> |c.ori| < MinCorrespondences) &&
    (s.Solved? ==>
       s.solution == o.solve(before, c.ori, c.coeff) &&
       s.applied == if degenerate then Project(p, s.solution) else s.solution)
  }

  /** Iteration j did what lines 340-741 prescribe. */
  ghost predicate IterationRecord(j: nat, f: Frame, o: Externals, e: Outcome, prev: Outcome,
                                  before: Pose, degenerate: bool, p: Mat6)
  {
    SearchRecord(j, f, o, e.found, prev.found) && SolveRecord(o, e.found, e.solve, before, degenerate, p)
  }

  /** Iteration k of `trace`, started from the transform t0, did what
      IterationRecord prescribes, with the degeneracy decision of the first
      iteration and its eigen-decomposition eig. */
  ghost predicate IterationRecorded(f: Frame, o: Externals, t0: Pose, trace: seq<Outcome>, eig: Eigen, k: nat)
  {
    k < |trace| &&
    (k == 0 && trace[0].solve.Solved? ==> eig == o.eigen(t0, trace[0].found.ori, trace[0].found.coeff)) &&
    IterationRecord(k, f, o, trace[k], trace[if k == 0 then 0 else k - 1], Replay(t0, trace[..k]),
                    Degenerate(trace, eig), DegenerateProjection(eig))
  }

  /** Every iteration of `trace` did what it should. */
  ghost predicate TraceRecords(f: Frame, o: Externals, t0: Pose, trace: seq<Outcome>, eig: Eigen)
  {
    forall k: nat | k < |trace| :: IterationRecorded(f, o, t0, trace, eig, k)
  }

  /** A trace extended by an iteration that did what it should still records the optimisation. */
  lemma TraceExtends(f: Frame, o: Externals, t0: Pose, trace: seq<Outcome>, eig: Eigen,
                     e: Outcome, eig': Eigen)
    requires TraceRecords(f, o, t0, trace, eig)
    requires |trace| > 0 ==> eig' == eig
    requires |trace| == 0 && e.solve.Solved? ==> eig' == o.eigen(t0, e.found.ori, e.found.coeff)
    requires IterationRecord(|trace|, f, o, e, if |trace| == 0 then e else trace[|trace| - 1], Replay(t0, trace),
                             Degenerate(trace + [e], eig'), DegenerateProjection(eig'))
    ensures TraceRecords(f, o, t0, trace + [e], eig')
  {
    var t := trace + [e];
    forall k: nat | k < |t|
      ensures IterationRecorded(f, o, t0, t, eig', k)
    {
      if k < |trace| {
        assert IterationRecorded(f, o, t0, trace, eig, k);
        assert t[..k] == trace[..k];
        assert t[0] == trace[0];
      } else {
        assert t[..k] == trace;
      }
    }
  }

  /** An iteration with fewer than 10 entries (lines 549-552) leaves the
      transform alone and cannot end the loop. */
  lemma FewEntriesSkip(f: Frame, o: Externals, params: Params, t0: Pose, trace: seq<Outcome>, eig: Eigen, k: nat)
    requires TraceRecords(f, o, t0, trace, eig) && k < |trace|
    requires |trace[k].found.ori| < MinCorrespondences
    ensures trace[k].solve.Skipped? && !Stops(trace[k], params)
    ensures Replay(t0, trace[..k + 1]) == Replay(t0, trace[..k])
  {
    assert IterationRecorded(f, o, t0, trace, eig, k);
    assert trace[..k + 1][..k] == trace[..k];
  }

  /** Every update of an optimisation is the solution, projected by the matrix
      of iteration 0 exactly when iteration 0 found the problem degenerate; that
      decision was taken on the eigen-decomposition of iteration 0's entries. */
  lemma ProjectionOnEveryUpdate(f: Frame, o: Externals, t0: Pose, trace: seq<Outcome>, eig: Eigen, k: nat)
    requires TraceRecords(f, o, t0, trace, eig) && k < |trace| && trace[k].solve.Solved?
    ensures trace[k].solve.applied ==
      if Degenerate(trace, eig) then Project(DegenerateProjection(eig), trace[k].solve.solution)
      else trace[k].solve.solution
    ensures Degenerate(trace, eig) ==>
      eig == o.eigen(t0, trace[0].found.ori, trace[0].found.coeff) &&
      |trace[0].found.ori| >= MinCorrespondences &&
      MaskRows(eig.vectors, eig.values)[5] == ZeroRow
  {
    assert IterationRecorded(f, o, t0, trace, eig, k);
    assert IterationRecorded(f, o, t0, trace, eig, 0);
  }

  /** Outside every fifth iteration (lines 348 and 452) the correspondence
      indices are those of the previous iteration; in every fifth one each
      current point has the correspondence the search prescribes. */
  lemma IndicesSearchedEveryFifth(f: Frame, o: Externals, t0: Pose, trace: seq<Outcome>, eig: Eigen, k: nat)
    requires TraceRecords(f, o, t0, trace, eig) && 0 < k < |trace|
    ensures k % SearchPeriod != 0 ==>
      trace[k].found.cornerInd1 == trace[k - 1].found.cornerInd1 &&
      trace[k].found.cornerInd2 == trace[k - 1].found.cornerInd2 &&
      trace[k].found.surfInd1 == trace[k - 1].found.surfInd1 &&
      trace[k].found.surfInd2 == trace[k - 1].found.surfInd2 &&
      trace[k].found.surfInd3 == trace[k - 1].found.surfInd3
    ensures k % SearchPeriod == 0 ==>
      (forall i: nat | i < |f.sharp| :: EdgeFound(k, f.corners, o, |f.sharp|,
                                                  trace[k].found.cornerInd1, trace[k].found.cornerInd2, i)) &&
      (forall i: nat | i < |f.flat| :: PlaneFound(k, f.surfaces, o, |f.flat|, trace[k].found.surfInd1,
                                                  trace[k].found.surfInd2, trace[k].found.surfInd3, i))
  {
    assert IterationRecorded(f, o, t0, trace, eig, k);
  }

  /** The state of the optimisation loop (lines 340-745) after the iterations of
      `trace`, started from the transform t0: every iteration is recorded, the
      transform is their replay, the degeneracy decision is that of the first
      iteration, and `cur` (the indices and entries held now) is what the last
      iteration collected. */
  ghost predicate OptimizeState(f: Frame, o: Externals, t0: Pose, trace: seq<Outcome>, eig: Eigen,
                                isDegenerate: bool, matP: Mat6, transform: Pose, cur: Collected)
  {
    |cur.cornerInd1| == |f.sharp| && |cur.cornerInd2| == |f.sharp| &&
    |cur.surfInd1| == |f.flat| && |cur.surfInd2| == |f.flat| && |cur.surfInd3| == |f.flat| &&
    TraceRecords(f, o, t0, trace, eig) &&
    transform == Replay(t0, trace) &&
    isDegenerate == Degenerate(trace, eig) &&
    (isDegenerate ==> matP == DegenerateProjection(eig)) &&
    (|trace| > 0 ==> cur == trace[|trace| - 1].found)
  }

  /** The indices an iteration inherits from the previous one can be dereferenced. */
  lemma OptimizeStateIndices(f: Frame, o: Externals, t0: Pose, trace: seq<Outcome>, eig: Eigen,
                             isDegenerate: bool, matP: Mat6, transform: Pose, cur: Collected)
    requires OptimizeState(f, o, t0, trace, eig, isDegenerate, matP, transform, cur) && |trace| > 0
    ensures EdgeIndicesValid(f.corners, cur.cornerInd1, cur.cornerInd2, |f.sharp|)
    ensures PlaneIndicesValid(f.surfaces, cur.surfInd1, cur.surfInd2, cur.surfInd3, |f.flat|)
  {
    assert IterationRecorded(f, o, t0, trace, eig, |trace| - 1);
  }

  /** One iteration of the optimisation loop: collecting c as SearchRecord
      prescribes and updating as SolveRecord prescribes extends the trace by
      Outcome(c, solve). */
  lemma OptimizeStateStep(f: Frame, o: Externals, t0: Pose, trace: seq<Outcome>, eig: Eigen,
                          isDegenerate: bool, matP: Mat6, transform: Pose, cur: Collected,
                          c: Collected, solve: Solve, degenerate: bool, p: Mat6, eig': Eigen, transform': Pose)
    requires OptimizeState(f, o, t0, trace, eig, isDegenerate, matP, transform, cur)
    requires SearchRecord(|trace|, f, o, c, cur)
    requires SolveRecord(o, c, solve, transform, degenerate, p)
    requires transform' == match solve
                           case Skipped => transform
                           case Solved(_, applied) => ApplyUpdate(transform, applied)
    requires |trace| == 0 ==>
      (degenerate <==> solve.Solved? && eig'.values[5] < EigenThreshold) &&
      (solve.Solved? ==> eig' == o.eigen(transform, c.ori, c.coeff)) &&
      (degenerate ==> p == DegenerateProjection(eig'))
    requires |trace| != 0 ==> degenerate == isDegenerate && p == matP && eig' == eig
    ensures OptimizeState(f, o, t0, trace + [Outcome(c, solve)], eig', degenerate, p, transform', c)
  {
    var e := Outcome(c, solve);
    if |trace| == 0 {
      SearchRecordAtSearch(0, f, o, c, cur, c);
    } else {
      assert (trace + [e])[0] == trace[0];
    }
    TraceExtends(f, o, t0, trace, eig, e, eig');
    assert (trace + [e])[..|trace|] == trace;
  }

  /** The state of the edge loop (lines 392-446) after its first i sharp points,
      started with the indices ind1, ind2 and the entries ori, coeff, now holding
      the indices cur1, cur2 and the entries curOri, curCoeff. */
  ghost predicate EdgeLoopState(iter: nat, o: Externals, sharp: seq<Point>, ref: seq<Point>,
                                ind1: seq<int>, ind2: seq<int>, ori: seq<Point>, coeff: seq<Point>, i: nat,
                                cur1: seq<int>, cur2: seq<int>, curOri: seq<Point>, curCoeff: seq<Point>)
  {
    i <= |sharp| && |cur1| == |sharp| && |cur2| == |sharp| &&
    (iter % SearchPeriod != 0 ==> cur1 == ind1 && cur2 == ind2 && EdgeIndicesValid(ref, ind1, ind2, |sharp|)) &&
    EdgeIndicesValid(ref, cur1, cur2, i) &&
    (iter % SearchPeriod == 0 ==> EdgeSearched(iter, ref, o, |sharp|, cur1, cur2, i)) &&
    curOri == ori + Oris(EdgeSelection(iter, sharp, ref, cur1, cur2, o, i)) &&
    curCoeff == coeff + Coeffs(EdgeSelection(iter, sharp, ref, cur1, cur2, o, i))
  }

  /** One pass of the edge loop body: the indices of point i are replaced (or
      kept, outside a search iteration) and its entry is appended. */
  lemma {:induction false} EdgeLoopStep(iter: nat, o: Externals, sharp: seq<Point>, ref: seq<Point>,
                                        ind1: seq<int>, ind2: seq<int>, ori: seq<Point>, coeff: seq<Point>, i: nat,
                                        cur1: seq<int>, cur2: seq<int>, curOri: seq<Point>, curCoeff: seq<Point>,
                                        new1: seq<int>, new2: seq<int>, entry: seq<Match>)
    requires i < |sharp|
    requires EdgeLoopState(iter, o, sharp, ref, ind1, ind2, ori, coeff, i, cur1, cur2, curOri, curCoeff)
    requires |new1| == |sharp| && |new2| == |sharp|
    requires forall k | 0 <= k < |sharp| && k != i :: new1[k] == cur1[k] && new2[k] == cur2[k]
    requires iter % SearchPeriod != 0 ==> new1 == cur1 && new2 == cur2
    requires iter % SearchPeriod == 0 ==>
      WellFormed(ref, o.cornerQuery(iter, i)) &&
      EdgeCorrespondence(ref, o.cornerQuery(iter, i), |sharp|, new1[i], new2[i])
    requires new2[i] >= 0 ==> 0 <= new1[i] < |ref| && new2[i] < |ref|
    requires entry == if new2[i] >= 0 then EdgeEntry(iter, sharp[i], o.edgeResidual(iter, i, ref[new1[i]], ref[new2[i]]))
                      else []
    ensures EdgeLoopState(iter, o, sharp, ref, ind1, ind2, ori, coeff, i + 1,
                          new1, new2, curOri + Oris(entry), curCoeff + Coeffs(entry))
  {
    EdgeSelectionFrame(iter, sharp, ref, cur1, cur2, new1, new2, o, i);
    if iter % SearchPeriod == 0 {
      EdgeSearchedFrame(iter, ref, o, |sharp|, cur1, cur2, new1, new2, i);
    }
    var before := EdgeSelection(iter, sharp, ref, cur1, cur2, o, i);
    assert EdgeSelection(iter, sharp, ref, new1, new2, o, i + 1) == before + entry;
    OrisAppend(before, entry);
    AppendAssociates(ori, Oris(before), Oris(entry));
    AppendAssociates(coeff, Coeffs(before), Coeffs(entry));
  }

  /** The state of the plane loop (lines 505-546) after its first i flat points,
      started with the indices ind1..ind3 and the entries ori, coeff, now holding
      the indices cur1..cur3 and the entries curOri, curCoeff. */
  ghost predicate PlaneLoopState(iter: nat, o: Externals, flat: seq<Point>, ref: seq<Point>,
                                 ind1: seq<int>, ind2: seq<int>, ind3: seq<int>,
                                 ori: seq<Point>, coeff: seq<Point>, i: nat,
                                 cur1: seq<int>, cur2: seq<int>, cur3: seq<int>,
                                 curOri: seq<Point>, curCoeff: seq<Point>)
  {
    i <= |flat| && |cur1| == |flat| && |cur2| == |flat| && |cur3| == |flat| &&
    (iter % SearchPeriod != 0 ==>
       cur1 == ind1 && cur2 == ind2 && cur3 == ind3 && PlaneIndicesValid(ref, ind1, ind2, ind3, |flat|)) &&
    PlaneIndicesValid(ref, cur1, cur2, cur3, i) &&
    (iter % SearchPeriod == 0 ==> PlaneSearched(iter, ref, o, |flat|, cur1, cur2, cur3, i)) &&
    curOri == ori + Oris(PlaneSelection(iter, flat, ref, cur1, cur2, cur3, o, i)) &&
    curCoeff == coeff + Coeffs(PlaneSelection(iter, flat, ref, cur1, cur2, cur3, o, i))
  }

  /** One pass of the plane loop body: the indices of point i are replaced
      (or kept, outside a search iteration) and its entry is appended. */
  lemma {:induction false} PlaneLoopStep(iter: nat, o: Externals, flat: seq<Point>, ref: seq<Point>,
                                         ind1: seq<int>, ind2: seq<int>, ind3: seq<int>,
                                         ori: seq<Point>, coeff: seq<Point>, i: nat,
                                         cur1: seq<int>, cur2: seq<int>, cur3: seq<int>,
                                         curOri: seq<Point>, curCoeff: seq<Point>,
                                         new1: seq<int>, new2: seq<int>, new3: seq<int>, entry: seq<Match>)
    requires i < |flat|
    requires PlaneLoopState(iter, o, flat, ref, ind1, ind2, ind3, ori, coeff, i, cur1, cur2, cur3, curOri, curCoeff)
    requires |new1| == |flat| && |new2| == |flat| && |new3| == |flat|
    requires forall k | 0 <= k < |flat| && k != i :: new1[k] == cur1[k] && new2[k] == cur2[k] && new3[k] == cur3[k]
    requires iter % SearchPeriod != 0 ==> new1 == cur1 && new2 == cur2 && new3 == cur3
    requires iter % SearchPeriod == 0 ==>
      WellFormed(ref, o.surfaceQuery(iter, i)) &&
      PlaneCorrespondence(ref, o.surfaceQuery(iter, i), |flat|, new1[i], new2[i], new3[i])
    requires new2[i] >= 0 && new3[i] >= 0 ==> 0 <= new1[i] < |ref| && new2[i] < |ref| && new3[i] < |ref|
    requires entry == if new2[i] >= 0 && new3[i] >= 0 then
      PlaneEntry(iter, flat[i], o.planeResidual(iter, i, ref[new1[i]], ref[new2[i]], ref[new3[i]]), o.queryRange(iter, i))
      else []
    ensures PlaneLoopState(iter, o, flat, ref, ind1, ind2, ind3, ori, coeff, i + 1,
                           new1, new2, new3, curOri + Oris(entry), curCoeff + Coeffs(entry))
  {
    PlaneSelectionFrame(iter, flat, ref, cur1, cur2, cur3, new1, new2, new3, o, i);
    if iter % SearchPeriod == 0 {
      PlaneSearchedFrame(iter, ref, o, |flat|, cur1, cur2, cur3, new1, new2, new3, i);
    }
    var before := PlaneSelection(iter, flat, ref, cur1, cur2, cur3, o, i);
    assert PlaneSelection(iter, flat, ref, new1, new2, new3, o, i + 1) == before + entry;
    OrisAppend(before, entry);
    AppendAssociates(ori, Oris(before), Oris(entry));
    AppendAssociates(coeff, Coeffs(before), Coeffs(entry));
  }

  /** One pass of the edge loop body (lines 348-446) for sharp point i: search
      its correspondence when iter % 5 == 0, then push its weighted residual
      when it has a second point and the weight passes. */
  method MatchCorner(iter: nat, o: Externals, sharp: seq<Point>, ref: seq<Point>,
                     ghost ind1: seq<int>, ghost ind2: seq<int>, ghost ori: seq<Point>, ghost coeff: seq<Point>,
                     i: nat, cur1: seq<int>, cur2: seq<int>, curOri: seq<Point>, curCoeff: seq<Point>)
    returns (new1: seq<int>, new2: seq<int>, newOri: seq<Point>, newCoeff: seq<Point>)
    requires i < |sharp| && WellFormed(ref, o.cornerQuery(iter, i))
    requires EdgeLoopState(iter, o, sharp, ref, ind1, ind2, ori, coeff, i, cur1, cur2, curOri, curCoeff)
    ensures EdgeLoopState(iter, o, sharp, ref, ind1, ind2, ori, coeff, i + 1, new1, new2, newOri, newCoeff)
  {
    new1, new2, newOri, newCoeff := cur1, cur2, curOri, curCoeff;
    if iter % SearchPeriod == 0 {
      var q := o.cornerQuery(iter, i);
      var closest, second := EdgeSearch(ref, q, |sharp|);
      EdgeCorrespondenceIndices(ref, q, |sharp|, closest, second);
      new1, new2 := new1[i := closest], new2[i := second];
    }
    ghost var entry: seq<Match> := [];
    if new2[i] >= 0 {
      var r := o.edgeResidual(iter, i, ref[new1[i]], ref[new2[i]]);
      var s := EdgeWeight(iter, r.d);
      entry := EdgeEntry(iter, sharp[i], r);
      if s > MinWeight && r.d != 0.0 {
        newOri, newCoeff := newOri + [sharp[i]], newCoeff + [Coefficient(s, r)];
      }
      assert newOri == curOri + Oris(entry) && newCoeff == curCoeff + Coeffs(entry);
    }
    EdgeLoopStep(iter, o, sharp, ref, ind1, ind2, ori, coeff, i, cur1, cur2, curOri, curCoeff, new1, new2, entry);
  }

  /** The edge half of one optimisation iteration (lines 345-447), started with
      the indices ind1, ind2 held from the previous iteration and the entries
      ori, coeff: every sharp point gets its correspondence (searched again when
      iter % 5 == 0) and its entry appended. */
  method MatchCorners(iter: nat, o: Externals, sharp: seq<Point>, ref: seq<Point>,
                      ind1: seq<int>, ind2: seq<int>, ori: seq<Point>, coeff: seq<Point>)
    returns (cur1: seq<int>, cur2: seq<int>, curOri: seq<Point>, curCoeff: seq<Point>, ghost sel: seq<Match>)
    requires forall i: nat :: WellFormed(ref, o.cornerQuery(iter, i))
    requires |ind1| == |sharp| && |ind2| == |sharp|
    requires iter % SearchPeriod != 0 ==> EdgeIndicesValid(ref, ind1, ind2, |sharp|)
    ensures EdgeRecord(iter, sharp, ref, o, cur1, cur2, ind1, ind2)
    ensures sel == EdgeSelection(iter, sharp, ref, cur1, cur2, o, |sharp|)
    ensures curOri == ori + Oris(sel) && curCoeff == coeff + Coeffs(sel)
  {
    cur1, cur2, curOri, curCoeff := ind1, ind2, ori, coeff;
    var i := 0;
    while i < |sharp|
      invariant i <= |sharp|
      invariant EdgeLoopState(iter, o, sharp, ref, ind1, ind2, ori, coeff, i, cur1, cur2, curOri, curCoeff)
    {
      cur1, cur2, curOri, curCoeff := MatchCorner(iter, o, sharp, ref, ind1, ind2, ori, coeff, i,
                                                  cur1, cur2, curOri, curCoeff);
      i := i + 1;
    }
    sel := EdgeSelection(iter, sharp, ref, cur1, cur2, o, |sharp|);
  }

  /** One pass of the plane loop body (lines 452-546) for flat point i. */
  method MatchSurface(iter: nat, o: Externals, flat: seq<Point>, ref: seq<Point>,
                      ghost ind1: seq<int>, ghost ind2: seq<int>, ghost ind3: seq<int>,
                      ghost ori: seq<Point>, ghost coeff: seq<Point>, i: nat,
                      cur1: seq<int>, cur2: seq<int>, cur3: seq<int>, curOri: seq<Point>, curCoeff: seq<Point>)
    returns (new1: seq<int>, new2: seq<int>, new3: seq<int>, newOri: seq<Point>, newCoeff: seq<Point>)
    requires i < |flat| && WellFormed(ref, o.surfaceQuery(iter, i))
    requires PlaneLoopState(iter, o, flat, ref, ind1, ind2, ind3, ori, coeff, i, cur1, cur2, cur3, curOri, curCoeff)
    ensures PlaneLoopState(iter, o, flat, ref, ind1, ind2, ind3, ori, coeff, i + 1,
                           new1, new2, new3, newOri, newCoeff)
  {
    new1, new2, new3, newOri, newCoeff := cur1, cur2, cur3, curOri, curCoeff;
    if iter % SearchPeriod == 0 {
      var q := o.surfaceQuery(iter, i);
      var closest, second, third := PlaneSearch(ref, q, |flat|);
      PlaneCorrespondenceIndices(ref, q, |flat|, closest, second, third);
      new1, new2, new3 := new1[i := closest], new2[i := second], new3[i := third];
    }
    ghost var entry: seq<Match> := [];
    if new2[i] >= 0 && new3[i] >= 0 {
      var r := o.planeResidual(iter, i, ref[new1[i]], ref[new2[i]], ref[new3[i]]);
      var s := PlaneWeight(iter, r.d, o.queryRange(iter, i));
      entry := PlaneEntry(iter, flat[i], r, o.queryRange(iter, i));
      if s.Fin? && s.val > MinWeight && r.d != 0.0 {
        newOri, newCoeff := newOri + [flat[i]], newCoeff + [Coefficient(s.val, r)];
      }
      assert newOri == curOri + Oris(entry) && newCoeff == curCoeff + Coeffs(entry);
    }
    PlaneLoopStep(iter, o, flat, ref, ind1, ind2, ind3, ori, coeff, i, cur1, cur2, cur3, curOri, curCoeff,
                  new1, new2, new3, entry);
  }

  /** The plane half of one optimisation iteration (lines 449-547). */
  method MatchSurfaces(iter: nat, o: Externals, flat: seq<Point>, ref: seq<Point>,
                       ind1: seq<int>, ind2: seq<int>, ind3: seq<int>, ori: seq<Point>, coeff: seq<Point>)
    returns (cur1: seq<int>, cur2: seq<int>, cur3: seq<int>, curOri: seq<Point>, curCoeff: seq<Point>,
             ghost sel: seq<Match>)
    requires forall i: nat :: WellFormed(ref, o.surfaceQuery(iter, i))
    requires |ind1| == |flat| && |ind2| == |flat| && |ind3| == |flat|
    requires iter % SearchPeriod != 0 ==> PlaneIndicesValid(ref, ind1, ind2, ind3, |flat|)
    ensures PlaneRecord(iter, flat, ref, o, cur1, cur2, cur3, ind1, ind2, ind3)
    ensures sel == PlaneSelection(iter, flat, ref, cur1, cur2, cur3, o, |flat|)
    ensures curOri == ori + Oris(sel) && curCoeff == coeff + Coeffs(sel)
  {
    cur1, cur2, cur3, curOri, curCoeff := ind1, ind2, ind3, ori, coeff;
    var i := 0;
    while i < |flat|
      invariant i <= |flat|
      invariant PlaneLoopState(iter, o, flat, ref, ind1, ind2, ind3, ori, coeff, i, cur1, cur2, cur3, curOri, curCoeff)
    {
      cur1, cur2, cur3, curOri, curCoeff := MatchSurface(iter, o, flat, ref, ind1, ind2, ind3, ori, coeff, i,
                                                         cur1, cur2, cur3, curOri, curCoeff);
      i := i + 1;
    }
    sel := PlaneSelection(iter, flat, ref, cur1, cur2, cur3, o, |flat|);
  }

  /** Lines 341-547 of one iteration, from the indices `held` over from the
      previous iteration: clear the entries, then match the sharp and the flat
      points. */
  method Collect(iter: nat, o: Externals, f: Frame, held: Collected) returns (c: Collected)
    requires TreesAnswer(o, f.corners, f.surfaces)
    requires |held.cornerInd1| == |f.sharp| && |held.cornerInd2| == |f.sharp|
    requires |held.surfInd1| == |f.flat| && |held.surfInd2| == |f.flat| && |held.surfInd3| == |f.flat|
    requires iter % SearchPeriod != 0 ==>
      EdgeIndicesValid(f.corners, held.cornerInd1, held.cornerInd2, |f.sharp|) &&
      PlaneIndicesValid(f.surfaces, held.surfInd1, held.surfInd2, held.surfInd3, |f.flat|)
    ensures SearchRecord(iter, f, o, c, held)
  {
    var c1, c2, ori, coeff, edges := MatchCorners(iter, o, f.sharp, f.corners, held.cornerInd1, held.cornerInd2, [], []);
    var s1, s2, s3, ori', coeff', planes := MatchSurfaces(iter, o, f.flat, f.surfaces,
                                                          held.surfInd1, held.surfInd2, held.surfInd3, ori, coeff);
    c := Collected(c1, c2, s1, s2, s3, ori', coeff');
    SearchRecordOf(iter, f, o, c, held, edges, planes);
  }

  /** Lines 549-733 of one iteration from the transform `before`: with at least
      10 entries solve, decide degeneracy in iteration 0, project a degenerate
      solution and apply it. */
  method SolveStep(iter: nat, o: Externals, c: Collected, before: Pose, isDegenerate: bool, matP: Mat6,
                   ghost eig: Eigen)
    returns (solve: Solve, degenerate: bool, p: Mat6, ghost eig': Eigen, after: Pose)
    requires iter == 0 ==> !isDegenerate
    ensures SolveRecord(o, c, solve, before, degenerate, p)
    ensures after == match solve
                     case Skipped => before
                     case Solved(_, applied) => ApplyUpdate(before, applied)
    ensures iter == 0 ==>
      (degenerate <==> solve.Solved? && eig'.values[5] < EigenThreshold) &&
      (solve.Solved? ==> eig' == o.eigen(before, c.ori, c.coeff)) &&
      (degenerate ==> p == DegenerateProjection(eig'))
    ensures iter != 0 ==> degenerate == isDegenerate && p == matP && eig' == eig
  {
    solve, after := Skipped, before;
    degenerate, p, eig' := isDegenerate, matP, eig;
    if |c.ori| >= MinCorrespondences {
      var solution := o.solve(before, c.ori, c.coeff);
      if iter == 0 {
        var eigen := o.eigen(before, c.ori, c.coeff);
        var v2;
        v2, degenerate := ZeroWeakRows(eigen.vectors, eigen.values);
        p := ProjectionMatrix(eigen.inverse, v2);
        eig' := eigen;
      }
      var x := solution;
      if degenerate {
        x := Project(p, solution);
      }
      after := ApplyUpdate(before, x);
      solve := Solved(solution, x);
    }
  }

  /** `_transformSum.rot_x += _imuPitchStart; _transformSum.rot_z += _imuRollStart`
      (lines 306-307), the bootstrap cycle's only change to the cumulative pose. */
  function SeededSum(sum: Pose, imu: ImuState): Pose
  {
    sum.(rx := sum.rx + imu.pitchStart, rz := sum.rz + imu.rollStart)
  }

  /** What the optimisation loop (lines 340-745) did, started from the
      transform t0 against the clouds of f: at most maxIterations recorded
      iterations that end at the first converged one (`converged`) or when the
      budget is spent. */
  ghost predicate LoopRan(f: Frame, o: Externals, params: Params, t0: Pose,
                          trace: seq<Outcome>, eig: Eigen, converged: bool)
  {
    TraceRecords(f, o, t0, trace, eig) &&
    |trace| <= params.maxIterations &&
    (converged <==> |trace| > 0 && Stops(trace[|trace| - 1], params)) &&
    (forall j | 0 <= j < |trace| - 1 :: !Stops(trace[j], params)) &&
    (!converged ==> |trace| == params.maxIterations)
  }

  /** The reference clouds are large enough to optimise against (line 325). */
  predicate ReferenceLargeEnough(f: Frame)
  {
    |f.corners| > MinReferenceCorners && |f.surfaces| > MinReferenceSurfaces
  }

  /** What the optimisation of one cycle did: the loop, when the reference
      clouds are large enough, and nothing otherwise. */
  ghost predicate OptimizationRan(f: Frame, o: Externals, params: Params, t0: Pose,
                                  trace: seq<Outcome>, eig: Eigen, converged: bool)
  {
    if ReferenceLargeEnough(f) then LoopRan(f, o, params, t0, trace, eig, converged)
    else trace == [] && !converged
  }

  lemma LoopRanIsOptimization(f: Frame, o: Externals, params: Params, t0: Pose,
                              trace: seq<Outcome>, eig: Eigen, converged: bool)
    requires ReferenceLargeEnough(f) && LoopRan(f, o, params, t0, trace, eig, converged)
    ensures OptimizationRan(f, o, params, t0, trace, eig, converged)
  {
  }

  lemma NoOptimization(f: Frame, o: Externals, params: Params, t0: Pose)
    requires !ReferenceLargeEnough(f)
    ensures OptimizationRan(f, o, params, t0, [], Eigen(ZeroRow, Identity, Identity), false)
  {
  }

  /** One iteration of the optimisation loop (lines 340-741) on the state
      `before`, `held` reached after the iterations of `trace`: collect the
      correspondences, solve, and test for convergence. */
  method Iterate(iter: nat, o: Externals, params: Params, f: Frame, ghost t0: Pose, ghost trace: seq<Outcome>,
                 ghost eig: Eigen, isDegenerate: bool, matP: Mat6, before: Pose, held: Collected)
    returns (c: Collected, stop: bool, degenerate: bool, p: Mat6, after: Pose, ghost e: Outcome, ghost eig': Eigen)
    requires |trace| == iter
    requires TreesAnswer(o, f.corners, f.surfaces)
    requires OptimizeState(f, o, t0, trace, eig, isDegenerate, matP, before, held)
    ensures OptimizeState(f, o, t0, trace + [e], eig', degenerate, p, after, c)
    ensures stop == Stops(e, params)
  {
    if iter > 0 {
      OptimizeStateIndices(f, o, t0, trace, eig, isDegenerate, matP, before, held);
    }
    c := Collect(iter, o, f, held);
    var solve;
    solve, degenerate, p, eig', after := SolveStep(iter, o, c, before, isDegenerate, matP, eig);
    e := Outcome(c, solve);
    stop := solve.Solved? && Converged(solve.applied, params.deltaRAbort, params.deltaTAbort);
    OptimizeStateStep(f, o, t0, trace, eig, isDegenerate, matP, before, held, c, solve, degenerate, p, eig', after);
  }

  class LaserOdometry {
    const params: Params
    const rot: Rotations

    var systemInited: bool
    var frameCount: nat

    var timeCornerPointsSharp: int
    var timeCornerPointsLessSharp: int
    var timeSurfPointsFlat: int
    var timeSurfPointsLessFlat: int
    var timeLaserCloudFullRes: int
    var timeImuTrans: int

    var newCornerPointsSharp: bool
    var newCornerPointsLessSharp: bool
    var newSurfPointsFlat: bool
    var newSurfPointsLessFlat: bool
    var newLaserCloudFullRes: bool
    var newImuTrans: bool

    var cornerPointsSharp: array<Point>
    var cornerPointsLessSharp: array<Point>
    var surfPointsFlat: array<Point>
    var surfPointsLessFlat: array<Point>
    var laserCloudFullRes: array<Point>
    var lastCornerCloud: array<Point>
    var lastSurfaceCloud: array<Point>

    var laserCloudOri: seq<Point>
    var coeffSel: seq<Point>

    var pointSearchCornerInd1: seq<int>
    var pointSearchCornerInd2: seq<int>
    var pointSearchSurfInd1: seq<int>
    var pointSearchSurfInd2: seq<int>
    var pointSearchSurfInd3: seq<int>

    var transform: Pose
    var transformSum: Pose
    var imu: ImuState

    /** The seven point clouds are seven distinct buffers. */
    ghost predicate Valid()
      reads this
    {
      cornerPointsSharp != cornerPointsLessSharp && cornerPointsSharp != surfPointsFlat &&
      cornerPointsSharp != surfPointsLessFlat && cornerPointsSharp != laserCloudFullRes &&
      cornerPointsSharp != lastCornerCloud && cornerPointsSharp != lastSurfaceCloud &&
      cornerPointsLessSharp != surfPointsFlat && cornerPointsLessSharp != surfPointsLessFlat &&
      cornerPointsLessSharp != laserCloudFullRes && cornerPointsLessSharp != lastCornerCloud &&
      cornerPointsLessSharp != lastSurfaceCloud &&
      surfPointsFlat != surfPointsLessFlat && surfPointsFlat != laserCloudFullRes &&
      surfPointsFlat != lastCornerCloud && surfPointsFlat != lastSurfaceCloud &&
      surfPointsLessFlat != laserCloudFullRes && surfPointsLessFlat != lastCornerCloud &&
      surfPointsLessFlat != lastSurfaceCloud &&
      laserCloudFullRes != lastCornerCloud && laserCloudFullRes != lastSurfaceCloud &&
      lastCornerCloud != lastSurfaceCloud
    }

    /** The constructor of lines 53-80: nothing received, nothing initialised. */
    constructor (params: Params, rot: Rotations)
      ensures Valid() && this.params == params && this.rot == rot
      ensures !systemInited && frameCount == 0
      ensures timeCornerPointsSharp == 0 && timeCornerPointsLessSharp == 0 && timeSurfPointsFlat == 0
      ensures timeSurfPointsLessFlat == 0 && timeLaserCloudFullRes == 0 && timeImuTrans == 0
      ensures NoneFresh()
      ensures cornerPointsSharp.Length == 0 && cornerPointsLessSharp.Length == 0 && surfPointsFlat.Length == 0
      ensures surfPointsLessFlat.Length == 0 && laserCloudFullRes.Length == 0
      ensures lastCornerCloud.Length == 0 && lastSurfaceCloud.Length == 0
      ensures laserCloudOri == [] && coeffSel == []
      ensures transform == ZeroPose && transformSum == ZeroPose && imu == NoImuMotion
    {
      this.params := params;
      this.rot := rot;
      systemInited := false;
      frameCount := 0;
      timeCornerPointsSharp, timeCornerPointsLessSharp, timeSurfPointsFlat := 0, 0, 0;
      timeSurfPointsLessFlat, timeLaserCloudFullRes, timeImuTrans := 0, 0, 0;
      newCornerPointsSharp, newCornerPointsLessSharp, newSurfPointsFlat := false, false, false;
      newSurfPointsLessFlat, newLaserCloudFullRes, newImuTrans := false, false, false;
      cornerPointsSharp := new Point[0];
      cornerPointsLessSharp := new Point[0];
      surfPointsFlat := new Point[0];
      surfPointsLessFlat := new Point[0];
      laserCloudFullRes := new Point[0];
      lastCornerCloud := new Point[0];
      lastSurfaceCloud := new Point[0];
      laserCloudOri, coeffSel := [], [];
      pointSearchCornerInd1, pointSearchCornerInd2 := [], [];
      pointSearchSurfInd1, pointSearchSurfInd2, pointSearchSurfInd3 := [], [], [];
      transform, transformSum, imu := ZeroPose, ZeroPose, NoImuMotion;
    }

    /** The six freshness flags, in declaration order. */
    function Flags(): (f: seq<bool>)
      reads this`newCornerPointsSharp, this`newCornerPointsLessSharp, this`newSurfPointsFlat
      reads this`newSurfPointsLessFlat, this`newLaserCloudFullRes, this`newImuTrans
      ensures |f| == 6
    {
      [newCornerPointsSharp, newCornerPointsLessSharp, newSurfPointsFlat,
       newSurfPointsLessFlat, newLaserCloudFullRes, newImuTrans]
    }

    /** The six stream stamps, in the same order. */
    function Stamps(): (t: seq<int>)
      reads this`timeCornerPointsSharp, this`timeCornerPointsLessSharp, this`timeSurfPointsFlat
      reads this`timeSurfPointsLessFlat, this`timeLaserCloudFullRes, this`timeImuTrans
      ensures |t| == 6
    {
      [timeCornerPointsSharp, timeCornerPointsLessSharp, timeSurfPointsFlat,
       timeSurfPointsLessFlat, timeLaserCloudFullRes, timeImuTrans]
    }

    predicate NoneFresh()
      reads this`newCornerPointsSharp, this`newCornerPointsLessSharp, this`newSurfPointsFlat
      reads this`newSurfPointsLessFlat, this`newLaserCloudFullRes, this`newImuTrans
    {
      forall i | 0 <= i < 6 :: !Flags()[i]
    }

    /** hasNewData (lines 274-283): all six streams fresh and every stamp within
        the tolerance of the less-flat stamp, which for integer stamps means all
        six stamps are equal. */
    predicate HasNewData(): (ready: bool)
      reads this`newCornerPointsSharp, this`newCornerPointsLessSharp, this`newSurfPointsFlat
      reads this`newSurfPointsLessFlat, this`newLaserCloudFullRes, this`newImuTrans
      reads this`timeCornerPointsSharp, this`timeCornerPointsLessSharp, this`timeSurfPointsFlat
      reads this`timeSurfPointsLessFlat, this`timeLaserCloudFullRes, this`timeImuTrans
      ensures ready ==> forall i, j | 0 <= i < 6 && 0 <= j < 6 :: Stamps()[i] == Stamps()[j]
    {
      AlignedMeansEqual(timeCornerPointsSharp, timeSurfPointsLessFlat);
      AlignedMeansEqual(timeCornerPointsLessSharp, timeSurfPointsLessFlat);
      AlignedMeansEqual(timeSurfPointsFlat, timeSurfPointsLessFlat);
      AlignedMeansEqual(timeLaserCloudFullRes, timeSurfPointsLessFlat);
      AlignedMeansEqual(timeImuTrans, timeSurfPointsLessFlat);
      newCornerPointsSharp && newCornerPointsLessSharp && newSurfPointsFlat &&
      newSurfPointsLessFlat && newLaserCloudFullRes && newImuTrans &&
      Aligned(timeCornerPointsSharp, timeSurfPointsLessFlat) &&
      Aligned(timeCornerPointsLessSharp, timeSurfPointsLessFlat) &&
      Aligned(timeSurfPointsFlat, timeSurfPointsLessFlat) &&
      Aligned(timeLaserCloudFullRes, timeSurfPointsLessFlat) &&
      Aligned(timeImuTrans, timeSurfPointsLessFlat)
    }

    /** The converse of hasNewData's guarantee: six fresh streams with one
        common stamp are ready. */
    lemma FreshAndEqualIsReady()
      requires forall i | 0 <= i < 6 :: Flags()[i]
      requires forall i | 0 <= i < 6 :: Stamps()[i] == timeSurfPointsLessFlat
      ensures HasNewData()
    {
      assert Flags()[0] && Flags()[1] && Flags()[2] && Flags()[3] && Flags()[4] && Flags()[5];
      assert Stamps()[0] == Stamps()[1] == Stamps()[2] == Stamps()[4] == Stamps()[5] == timeSurfPointsLessFlat;
    }

    /** reset (lines 262-270): mark every stream as consumed. */
    method Reset()
      modifies `newCornerPointsSharp, `newCornerPointsLessSharp, `newSurfPointsFlat,
               `newSurfPointsLessFlat, `newLaserCloudFullRes, `newImuTrans
      ensures NoneFresh()
    {
      newCornerPointsSharp := false;
      newCornerPointsLessSharp := false;
      newSurfPointsFlat := false;
      newSurfPointsLessFlat := false;
      newLaserCloudFullRes := false;
      newImuTrans := false;
    }

    /** transformToEnd (lines 101-138): deskew every point of `cloud` in place
        and return the point count. */
    method TransformToEnd(cloud: array<Point>) returns (size: nat)
      modifies cloud
      ensures size == cloud.Length
      ensures cloud[..] == CloudToEnd(old(cloud[..]), transform, imu, rot)
    {
      size := cloud.Length;
      var i := 0;
      while i < size
        invariant 0 <= i <= size
        invariant forall k | 0 <= k < i :: cloud[k] == ToEnd(old(cloud[k]), transform, imu, rot)
        invariant forall k | i <= k < size :: cloud[k] == old(cloud[k])
      {
        cloud[i] := ToEnd(cloud[i], transform, imu, rot);
        i := i + 1;
      }
    }

    /** generateRegisteredCloud (lines 796-807). */
    method GenerateRegisteredCloud() returns (emitted: bool)
      modifies laserCloudFullRes
      ensures emitted == Emits(params.ioRatio, frameCount)
      ensures laserCloudFullRes[..] ==
        if emitted then CloudToEnd(old(laserCloudFullRes[..]), transform, imu, rot)
        else old(laserCloudFullRes[..])
    {
      if params.ioRatio < 2 || frameCount % params.ioRatio == 1 {
        var size := TransformToEnd(laserCloudFullRes);
        return true;
      }
      return false;
    }

    /** The clouds the optimisation works on. */
    function CurrentFrame(): Frame
      reads this`cornerPointsSharp, this`lastCornerCloud, this`surfPointsFlat, this`lastSurfaceCloud
      reads cornerPointsSharp, lastCornerCloud, surfPointsFlat, lastSurfaceCloud
    {
      Frame(cornerPointsSharp[..], lastCornerCloud[..], surfPointsFlat[..], lastSurfaceCloud[..])
    }

    /** The indices and entries held now. */
    function Current(): Collected
      reads this`pointSearchCornerInd1, this`pointSearchCornerInd2
      reads this`pointSearchSurfInd1, this`pointSearchSurfInd2, this`pointSearchSurfInd3
      reads this`laserCloudOri, this`coeffSel
    {
      Collected(pointSearchCornerInd1, pointSearchCornerInd2,
                pointSearchSurfInd1, pointSearchSurfInd2, pointSearchSurfInd3, laserCloudOri, coeffSel)
    }

    /** The state of the optimisation loop after the iterations of `trace`,
        started from the transform t0. */
    ghost predicate OptimizeLoop(o: Externals, t0: Pose, trace: seq<Outcome>, eig: Eigen,
                                 isDegenerate: bool, matP: Mat6)
      reads this, cornerPointsSharp, lastCornerCloud, surfPointsFlat, lastSurfaceCloud
    {
      OptimizeState(CurrentFrame(), o, t0, trace, eig, isDegenerate, matP, transform, Current())
    }

    /** One iteration of the optimisation loop (lines 340-741). */
    method OptimizeStep(iter: nat, o: Externals, ghost t0: Pose, ghost trace: seq<Outcome>, ghost eig: Eigen,
                        isDegenerate: bool, matP: Mat6)
      returns (stop: bool, degenerate: bool, p: Mat6, ghost e: Outcome, ghost eig': Eigen)
      requires |trace| == iter
      requires TreesAnswer(o, lastCornerCloud[..], lastSurfaceCloud[..])
      requires OptimizeLoop(o, t0, trace, eig, isDegenerate, matP)
      modifies `transform, `pointSearchCornerInd1, `pointSearchCornerInd2,
               `pointSearchSurfInd1, `pointSearchSurfInd2, `pointSearchSurfInd3, `laserCloudOri, `coeffSel
      ensures OptimizeLoop(o, t0, trace + [e], eig', degenerate, p)
      ensures stop == Stops(e, params)
    {
      var c, after;
      c, stop, degenerate, p, after, e, eig' :=
        Iterate(iter, o, params, CurrentFrame(), t0, trace, eig, isDegenerate, matP, transform, Current());
      pointSearchCornerInd1, pointSearchCornerInd2 := c.cornerInd1, c.cornerInd2;
      pointSearchSurfInd1, pointSearchSurfInd2, pointSearchSurfInd3 := c.surfInd1, c.surfInd2, c.surfInd3;
      laserCloudOri, coeffSel, transform := c.ori, c.coeff, after;
      assert Current() == c;
    }

    /** The optimisation loop of lines 340-745: at most maxIterations
        iterations, each doing what TraceRecords prescribes, ending early at the
        first iteration that meets both abort thresholds. */
    method Optimize(o: Externals) returns (iterations: nat, converged: bool, isDegenerate: bool,
                                           ghost trace: seq<Outcome>, ghost eig: Eigen)
      requires TreesAnswer(o, lastCornerCloud[..], lastSurfaceCloud[..])
      requires |pointSearchCornerInd1| == cornerPointsSharp.Length && |pointSearchCornerInd2| == cornerPointsSharp.Length
      requires |pointSearchSurfInd1| == surfPointsFlat.Length && |pointSearchSurfInd2| == surfPointsFlat.Length
      requires |pointSearchSurfInd3| == surfPointsFlat.Length
      modifies `transform, `pointSearchCornerInd1, `pointSearchCornerInd2,
               `pointSearchSurfInd1, `pointSearchSurfInd2, `pointSearchSurfInd3, `laserCloudOri, `coeffSel
      ensures iterations == |trace|
      ensures LoopRan(CurrentFrame(), o, params, old(transform), trace, eig, converged)
      ensures transform == Replay(old(transform), trace)
      ensures isDegenerate == Degenerate(trace, eig)
      ensures iterations > 0 ==>
        var last := trace[iterations - 1].found;
        pointSearchCornerInd1 == last.cornerInd1 && pointSearchCornerInd2 == last.cornerInd2 &&
        pointSearchSurfInd1 == last.surfInd1 && pointSearchSurfInd2 == last.surfInd2 &&
        pointSearchSurfInd3 == last.surfInd3 && laserCloudOri == last.ori && coeffSel == last.coeff
      ensures iterations == 0 ==>
        pointSearchCornerInd1 == old(pointSearchCornerInd1) && pointSearchCornerInd2 == old(pointSearchCornerInd2) &&
        pointSearchSurfInd1 == old(pointSearchSurfInd1) && pointSearchSurfInd2 == old(pointSearchSurfInd2) &&
        pointSearchSurfInd3 == old(pointSearchSurfInd3) &&
        laserCloudOri == old(laserCloudOri) && coeffSel == old(coeffSel)
    {
      ghost var t0 := transform;
      iterations, converged, isDegenerate := 0, false, false;
      var matP: Mat6 := Identity;
      trace := [];
      eig := Eigen(ZeroRow, Identity, Identity);
      while iterations < params.maxIterations
        invariant iterations == |trace| <= params.maxIterations
        invariant OptimizeLoop(o, t0, trace, eig, isDegenerate, matP)
        invariant forall j | 0 <= j < iterations :: !Stops(trace[j], params)
        invariant iterations == 0 ==>
          pointSearchCornerInd1 == old(pointSearchCornerInd1) && pointSearchCornerInd2 == old(pointSearchCornerInd2) &&
          pointSearchSurfInd1 == old(pointSearchSurfInd1) && pointSearchSurfInd2 == old(pointSearchSurfInd2) &&
          pointSearchSurfInd3 == old(pointSearchSurfInd3) &&
          laserCloudOri == old(laserCloudOri) && coeffSel == old(coeffSel)
      {
        var stop;
        ghost var e;
        stop, isDegenerate, matP, e, eig := OptimizeStep(iterations, o, t0, trace, eig, isDegenerate, matP);
        trace := trace + [e];
        iterations := iterations + 1;
        if stop {
          converged := true;
          break;
        }
      }
    }

    /** The bootstrap cycle (lines 300-311): the less sharp and less flat clouds
        become the reference clouds, the cumulative pose takes the imu start
        pitch and roll, and the engine is initialised. */
    method Bootstrap()
      requires Valid()
      modifies this`cornerPointsLessSharp, this`lastCornerCloud, this`surfPointsLessFlat,
               this`lastSurfaceCloud, this`transformSum, this`systemInited
      ensures Valid() && systemInited
      ensures lastCornerCloud == old(cornerPointsLessSharp) && cornerPointsLessSharp == old(lastCornerCloud)
      ensures lastSurfaceCloud == old(surfPointsLessFlat) && surfPointsLessFlat == old(lastSurfaceCloud)
      ensures transformSum == SeededSum(old(transformSum), imu)
      ensures Flags() == old(Flags())
    {
      cornerPointsLessSharp, lastCornerCloud := lastCornerCloud, cornerPointsLessSharp;
      surfPointsLessFlat, lastSurfaceCloud := lastSurfaceCloud, surfPointsLessFlat;
      transformSum := SeededSum(transformSum, imu);
      systemInited := true;
    }

    /** `resize` of the five index vectors to the current feature counts
        (lines 334-338). */
    method ResizeIndices()
      modifies this`pointSearchCornerInd1, this`pointSearchCornerInd2,
               this`pointSearchSurfInd1, this`pointSearchSurfInd2, this`pointSearchSurfInd3
      ensures pointSearchCornerInd1 == Resize(old(pointSearchCornerInd1), cornerPointsSharp.Length)
      ensures pointSearchCornerInd2 == Resize(old(pointSearchCornerInd2), cornerPointsSharp.Length)
      ensures pointSearchSurfInd1 == Resize(old(pointSearchSurfInd1), surfPointsFlat.Length)
      ensures pointSearchSurfInd2 == Resize(old(pointSearchSurfInd2), surfPointsFlat.Length)
      ensures pointSearchSurfInd3 == Resize(old(pointSearchSurfInd3), surfPointsFlat.Length)
    {
      pointSearchCornerInd1 := Resize(pointSearchCornerInd1, cornerPointsSharp.Length);
      pointSearchCornerInd2 := Resize(pointSearchCornerInd2, cornerPointsSharp.Length);
      pointSearchSurfInd1 := Resize(pointSearchSurfInd1, surfPointsFlat.Length);
      pointSearchSurfInd2 := Resize(pointSearchSurfInd2, surfPointsFlat.Length);
      pointSearchSurfInd3 := Resize(pointSearchSurfInd3, surfPointsFlat.Length);
    }

    /** Lines 325-747: optimise when the reference clouds are large enough. */
    method OptimizeIfLargeEnough(o: Externals, ghost f: Frame)
      returns (ghost trace: seq<Outcome>, ghost eig: Eigen, ghost converged: bool)
      requires f == CurrentFrame()
      requires TreesAnswer(o, lastCornerCloud[..], lastSurfaceCloud[..])
      modifies this`transform,
               this`pointSearchCornerInd1, this`pointSearchCornerInd2,
               this`pointSearchSurfInd1, this`pointSearchSurfInd2, this`pointSearchSurfInd3,
               this`laserCloudOri, this`coeffSel
      ensures CurrentFrame() == f
      ensures OptimizationRan(f, o, params, old(transform), trace, eig, converged)
      ensures transform == Replay(old(transform), trace)
    {
      trace, eig, converged := [], Eigen(ZeroRow, Identity, Identity), false;
      ghost var t0 := transform;
      if lastCornerCloud.Length > MinReferenceCorners && lastSurfaceCloud.Length > MinReferenceSurfaces {
        assert ReferenceLargeEnough(f);
        ResizeIndices();
        var iterations, isDegenerate;
        iterations, converged, isDegenerate, trace, eig := Optimize(o);
        assert CurrentFrame() == f;
        LoopRanIsOptimization(f, o, params, t0, trace, eig, converged);
      } else {
        NoOptimization(f, o, params, t0);
      }
    }

    /** The estimation part of a cycle after the bootstrap (lines 313-745):
        count the frame, shift the transform by the imu velocity, and optimise
        against the reference clouds when they are large enough. */
    method Estimate(o: Externals, ghost f: Frame) returns (ghost trace: seq<Outcome>, ghost eig: Eigen, ghost converged: bool)
      requires f == CurrentFrame()
      requires TreesAnswer(o, lastCornerCloud[..], lastSurfaceCloud[..])
      modifies this`frameCount, this`transform,
               this`pointSearchCornerInd1, this`pointSearchCornerInd2,
               this`pointSearchSurfInd1, this`pointSearchSurfInd2, this`pointSearchSurfInd3,
               this`laserCloudOri, this`coeffSel
      ensures frameCount == old(frameCount) + 1
      ensures CurrentFrame() == f
      ensures OptimizationRan(f, o, params, Shifted(old(transform), imu, params.scanPeriod), trace, eig, converged)
      ensures transform == Replay(Shifted(old(transform), imu, params.scanPeriod), trace)
    {
      frameCount := frameCount + 1;
      transform := Shifted(transform, imu, params.scanPeriod);
      trace, eig, converged := OptimizeIfLargeEnough(o, f);
    }

    /** The hand-over part of a cycle (lines 755-783): compose the cumulative
        pose, deskew the less sharp and less flat clouds to the sweep end and
        swap them in as the new reference clouds. */
    method Handover(o: Externals)
      requires Valid()
      modifies this`transformSum,
               this`cornerPointsLessSharp, this`lastCornerCloud, this`surfPointsLessFlat, this`lastSurfaceCloud,
               cornerPointsLessSharp, surfPointsLessFlat
      ensures Valid()
      ensures transformSum == o.compose(old(transformSum), transform, imu)
      ensures lastCornerCloud == old(cornerPointsLessSharp) && cornerPointsLessSharp == old(lastCornerCloud)
      ensures lastSurfaceCloud == old(surfPointsLessFlat) && surfPointsLessFlat == old(lastSurfaceCloud)
      ensures lastCornerCloud[..] == CloudToEnd(old(cornerPointsLessSharp[..]), transform, imu, rot)
      ensures lastSurfaceCloud[..] == CloudToEnd(old(surfPointsLessFlat[..]), transform, imu, rot)
      ensures cornerPointsLessSharp[..] == old(lastCornerCloud[..])
      ensures surfPointsLessFlat[..] == old(lastSurfaceCloud[..])
    {
      transformSum := o.compose(transformSum, transform, imu);
      var cornerCount := TransformToEnd(cornerPointsLessSharp);
      var surfaceCount := TransformToEnd(surfPointsLessFlat);
      cornerPointsLessSharp, lastCornerCloud := lastCornerCloud, cornerPointsLessSharp;
      surfPointsLessFlat, lastSurfaceCloud := lastSurfaceCloud, surfPointsLessFlat;
    }

    /** A cycle after the bootstrap (lines 313-793): estimate the motion, then
        hand the deskewed less sharp and less flat clouds over as the new
        reference clouds. */
    method Cycle(o: Externals) returns (ghost trace: seq<Outcome>, ghost eig: Eigen, ghost converged: bool)
      requires Valid()
      requires TreesAnswer(o, lastCornerCloud[..], lastSurfaceCloud[..])
      modifies this`frameCount, this`transform, this`transformSum,
               this`pointSearchCornerInd1, this`pointSearchCornerInd2,
               this`pointSearchSurfInd1, this`pointSearchSurfInd2, this`pointSearchSurfInd3,
               this`laserCloudOri, this`coeffSel,
               this`cornerPointsLessSharp, this`lastCornerCloud, this`surfPointsLessFlat, this`lastSurfaceCloud,
               cornerPointsLessSharp, surfPointsLessFlat
      ensures Valid()
      ensures frameCount == old(frameCount) + 1
      ensures OptimizationRan(old(CurrentFrame()), o, params, Shifted(old(transform), imu, params.scanPeriod),
                              trace, eig, converged)
      ensures transform == Replay(Shifted(old(transform), imu, params.scanPeriod), trace)
      ensures transformSum == o.compose(old(transformSum), transform, imu)
      ensures lastCornerCloud == old(cornerPointsLessSharp) && cornerPointsLessSharp == old(lastCornerCloud)
      ensures lastSurfaceCloud == old(surfPointsLessFlat) && surfPointsLessFlat == old(lastSurfaceCloud)
      ensures lastCornerCloud[..] == CloudToEnd(old(cornerPointsLessSharp[..]), transform, imu, rot)
      ensures lastSurfaceCloud[..] == CloudToEnd(old(surfPointsLessFlat[..]), transform, imu, rot)
      ensures cornerPointsLessSharp[..] == old(lastCornerCloud[..])
      ensures surfPointsLessFlat[..] == old(lastSurfaceCloud[..])
    {
      ghost var f := CurrentFrame();
      trace, eig, converged := Estimate(o, f);
      Handover(o);
    }

    /** The first cycle with complete inputs (lines 290-314): consume the
        inputs and bootstrap the reference clouds and the accumulated transform. */
    method Start()
      requires Valid() && !systemInited
      modifies this`newCornerPointsSharp, this`newCornerPointsLessSharp, this`newSurfPointsFlat,
               this`newSurfPointsLessFlat, this`newLaserCloudFullRes, this`newImuTrans,
               this`cornerPointsLessSharp, this`lastCornerCloud, this`surfPointsLessFlat,
               this`lastSurfaceCloud, this`transformSum, this`systemInited
      ensures Valid() && NoneFresh() && systemInited
      ensures transformSum == SeededSum(old(transformSum), imu)
      ensures lastCornerCloud == old(cornerPointsLessSharp) && cornerPointsLessSharp == old(lastCornerCloud)
      ensures lastSurfaceCloud == old(surfPointsLessFlat) && surfPointsLessFlat == old(lastSurfaceCloud)
    {
      Reset();
      Bootstrap();
    }

    /** A later cycle with complete inputs (lines 290-794): consume the inputs
        and run the odometry. */
    method Run(o: Externals) returns (ghost trace: seq<Outcome>, ghost eig: Eigen, ghost converged: bool)
      requires Valid() && systemInited && TreesAnswer(o, lastCornerCloud[..], lastSurfaceCloud[..])
      modifies this`newCornerPointsSharp, this`newCornerPointsLessSharp, this`newSurfPointsFlat,
               this`newSurfPointsLessFlat, this`newLaserCloudFullRes, this`newImuTrans,
               this`frameCount, this`transform, this`transformSum,
               this`pointSearchCornerInd1, this`pointSearchCornerInd2,
               this`pointSearchSurfInd1, this`pointSearchSurfInd2, this`pointSearchSurfInd3,
               this`laserCloudOri, this`coeffSel,
               this`cornerPointsLessSharp, this`lastCornerCloud, this`surfPointsLessFlat, this`lastSurfaceCloud,
               cornerPointsLessSharp, surfPointsLessFlat
      ensures Valid() && NoneFresh() && systemInited
      ensures frameCount == old(frameCount) + 1
      ensures OptimizationRan(old(CurrentFrame()), o, params, Shifted(old(transform), imu, params.scanPeriod),
                              trace, eig, converged)
      ensures transform == Replay(Shifted(old(transform), imu, params.scanPeriod), trace)
      ensures transformSum == o.compose(old(transformSum), transform, imu)
      ensures lastCornerCloud == old(cornerPointsLessSharp) && cornerPointsLessSharp == old(lastCornerCloud)
      ensures lastSurfaceCloud == old(surfPointsLessFlat) && surfPointsLessFlat == old(lastSurfaceCloud)
      ensures lastCornerCloud[..] == CloudToEnd(old(cornerPointsLessSharp[..]), transform, imu, rot)
      ensures lastSurfaceCloud[..] == CloudToEnd(old(surfPointsLessFlat[..]), transform, imu, rot)
      ensures cornerPointsLessSharp[..] == old(lastCornerCloud[..])
      ensures surfPointsLessFlat[..] == old(lastSurfaceCloud[..])
    {
      Reset();
      trace, eig, converged := Cycle(o);
    }

    /** process (lines 287-794): without a complete, aligned set of inputs nothing
        happens; otherwise the inputs are consumed, and the first such cycle
        bootstraps the reference clouds while every later one runs the
        odometry.  The result says whether the odometry ran. */
    method Process(o: Externals) returns (ran: bool, ghost trace: seq<Outcome>, ghost eig: Eigen,
                                          ghost converged: bool)
      requires Valid()
      requires systemInited ==> TreesAnswer(o, lastCornerCloud[..], lastSurfaceCloud[..])
      modifies this`newCornerPointsSharp, this`newCornerPointsLessSharp, this`newSurfPointsFlat,
               this`newSurfPointsLessFlat, this`newLaserCloudFullRes, this`newImuTrans,
               this`systemInited, this`frameCount, this`transform, this`transformSum,
               this`pointSearchCornerInd1, this`pointSearchCornerInd2,
               this`pointSearchSurfInd1, this`pointSearchSurfInd2, this`pointSearchSurfInd3,
               this`laserCloudOri, this`coeffSel,
               this`cornerPointsLessSharp, this`lastCornerCloud, this`surfPointsLessFlat, this`lastSurfaceCloud,
               cornerPointsLessSharp, surfPointsLessFlat
      ensures Valid()
      ensures ran <==> old(HasNewData()) && old(systemInited)
      ensures !old(HasNewData()) ==> unchanged(this) && unchanged(cornerPointsLessSharp, surfPointsLessFlat)
      ensures old(HasNewData()) ==> NoneFresh() && systemInited
      ensures old(HasNewData()) && !old(systemInited) ==>
        frameCount == old(frameCount) && transform == old(transform) &&
        pointSearchCornerInd1 == old(pointSearchCornerInd1) && pointSearchCornerInd2 == old(pointSearchCornerInd2) &&
        pointSearchSurfInd1 == old(pointSearchSurfInd1) && pointSearchSurfInd2 == old(pointSearchSurfInd2) &&
        pointSearchSurfInd3 == old(pointSearchSurfInd3) && laserCloudOri == old(laserCloudOri) && coeffSel == old(coeffSel) &&
        transformSum == SeededSum(old(transformSum), imu) &&
        lastCornerCloud == old(cornerPointsLessSharp) && cornerPointsLessSharp == old(lastCornerCloud) &&
        lastSurfaceCloud == old(surfPointsLessFlat) && surfPointsLessFlat == old(lastSurfaceCloud) &&
        unchanged(old(cornerPointsLessSharp), old(surfPointsLessFlat))
      ensures ran ==>
        frameCount == old(frameCount) + 1 &&
        OptimizationRan(old(CurrentFrame()), o, params, Shifted(old(transform), imu, params.scanPeriod),
                        trace, eig, converged) &&
        transform == Replay(Shifted(old(transform), imu, params.scanPeriod), trace) &&
        transformSum == o.compose(old(transformSum), transform, imu) &&
        lastCornerCloud == old(cornerPointsLessSharp) && cornerPointsLessSharp == old(lastCornerCloud) &&
        lastSurfaceCloud == old(surfPointsLessFlat) && surfPointsLessFlat == old(lastSurfaceCloud) &&
        lastCornerCloud[..] == CloudToEnd(old(cornerPointsLessSharp[..]), transform, imu, rot) &&
        lastSurfaceCloud[..] == CloudToEnd(old(surfPointsLessFlat[..]), transform, imu, rot) &&
        cornerPointsLessSharp[..] == old(lastCornerCloud[..]) &&
        surfPointsLessFlat[..] == old(lastSurfaceCloud[..])
    {
      trace, eig, converged := [], Eigen(ZeroRow, Identity, Identity), false;
      if !HasNewData() {
        return false, trace, eig, converged;
      }
      if !systemInited {
        Start();
        return false, trace, eig, converged;
      }
      trace, eig, converged := Run(o);
      ran := true;
    }
  }
}
