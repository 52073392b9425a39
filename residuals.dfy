/** Weighting and acceptance of one correspondence residual (the tail of the
    edge and plane branches of LaserOdometry::process). */
module Residuals {
  import opened Numerics
  import opened Points

  /** The direction of the distance gradient and the distance of one
      correspondence: (la, lb, lc, ld2) for an edge, (pa, pb, pc, pd2) for a plane. */
  datatype Residual = Residual(a: real, b: real, c: real, d: real)

  /** An entry pushed to _laserCloudOri and _coeffSel: the current-frame point and
      its weighted coefficient. */
  datatype Match = Match(point: Point, coeff: Point)

  /** Iterations before this one weigh every residual with 1. */
  const ReweightFrom: nat := 5
  const WeightSlope: real := 1.8
  /** A residual is kept only with a weight above this. */
  const MinWeight: real := 0.1

  /** The weight `s` of an edge residual (lines 432-435). */
  function EdgeWeight(iter: nat, d: real): real
  {
    if iter < ReweightFrom then 1.0 else 1.0 - WeightSlope * Abs(d)
  }

  /** The weight `s` of a plane residual (lines 532-535).  `sqrtRange` is
      sqrt(calcPointDistance(pointSel)); dividing by a zero range yields an
      infinity or a NaN. */
  function PlaneWeight(iter: nat, d: real, sqrtRange: real): Num
  {
    if iter < ReweightFrom then Fin(1.0)
    else if sqrtRange == 0.0 then NonFinite
    else Fin(1.0 - WeightSlope * Abs(d) / sqrtRange)
  }

  /** `s > 0.1 && d != 0` (lines 442 and 542); a NaN or an infinite weight fails `s > 0.1`
      or is -infinity. */
  predicate Accepted(s: Num, d: real)
  {
    s.Fin? && s.val > MinWeight && d != 0.0
  }

  /** `coeff = s * (a, b, c, d)`. */
  function Coefficient(s: real, r: Residual): Point
  {
    Point(s * r.a, s * r.b, s * r.c, s * r.d)
  }

  /** What one edge correspondence contributes: nothing, or its point and
      coefficient.  Before iteration 5 exactly the residuals with a non-zero
      distance are kept, from then on exactly those with 0 < |d| < 0.5; a kept
      entry carries a weight in (0.1, 1] and a non-zero weighted distance. */
  function EdgeEntry(iter: nat, p: Point, r: Residual): (e: seq<Match>)
    ensures |e| <= 1
    ensures |e| == 1 <==> Accepted(Fin(EdgeWeight(iter, r.d)), r.d)
    ensures iter < ReweightFrom ==> (|e| == 1 <==> r.d != 0.0)
    ensures iter >= ReweightFrom ==> (|e| == 1 <==> 0.0 < Abs(r.d) < 0.5)
    ensures |e| == 1 ==> e[0] == Match(p, Coefficient(EdgeWeight(iter, r.d), r))
    ensures |e| == 1 ==> MinWeight < EdgeWeight(iter, r.d) <= 1.0 && e[0].coeff.intensity != 0.0
  {
    var s := EdgeWeight(iter, r.d);
    assert iter >= ReweightFrom ==> (Accepted(Fin(s), r.d) <==> 0.0 < Abs(r.d) < 0.5) by {
      if iter >= ReweightFrom {
        LateEdgeAcceptance(iter, r.d);
      }
    }
    KeptWeightInRange(iter, r.d, 0.0);
    if Accepted(Fin(s), r.d) then
      KeptCoefficientNonZero(Fin(s), r);
      [Match(p, Coefficient(s, r))]
    else
      []
  }

  /** What one plane correspondence contributes.  Before iteration 5 exactly the
      residuals with a non-zero distance are kept; from then on, for the
      non-negative `sqrtRange` that sqrt gives, exactly those with
      0 < |d| < sqrtRange / 2, and a kept entry carries a weight in (0.1, 1]; a
      kept entry always has a non-zero weighted distance. */
  function PlaneEntry(iter: nat, p: Point, r: Residual, sqrtRange: real): (e: seq<Match>)
    ensures |e| <= 1
    ensures |e| == 1 <==> Accepted(PlaneWeight(iter, r.d, sqrtRange), r.d)
    ensures iter < ReweightFrom ==> (|e| == 1 <==> r.d != 0.0)
    ensures iter >= ReweightFrom && sqrtRange >= 0.0 ==> (|e| == 1 <==> 0.0 < Abs(r.d) < 0.5 * sqrtRange)
    ensures |e| == 1 ==> e[0] == Match(p, Coefficient(PlaneWeight(iter, r.d, sqrtRange).val, r))
    ensures |e| == 1 ==> e[0].coeff.intensity != 0.0
    ensures |e| == 1 && sqrtRange >= 0.0 ==> MinWeight < PlaneWeight(iter, r.d, sqrtRange).val <= 1.0
  {
    var s := PlaneWeight(iter, r.d, sqrtRange);
    assert iter >= ReweightFrom && sqrtRange >= 0.0 ==>
      (Accepted(s, r.d) <==> 0.0 < Abs(r.d) < 0.5 * sqrtRange) by {
      if iter >= ReweightFrom && sqrtRange >= 0.0 {
        LatePlaneAcceptance(iter, r.d, sqrtRange);
      }
    }
    assert sqrtRange >= 0.0 ==> (Accepted(s, r.d) ==> MinWeight < s.val <= 1.0) by {
      if sqrtRange >= 0.0 {
        KeptWeightInRange(iter, r.d, sqrtRange);
      }
    }
    if Accepted(s, r.d) then
      KeptCoefficientNonZero(s, r);
      [Match(p, Coefficient(s.val, r))]
    else
      []
  }

  /** In the first five iterations every residual with a non-zero distance is kept,
      for edges and for planes alike. */
  lemma EarlyIterationsKeepNonZero(iter: nat, d: real, sqrtRange: real)
    requires iter < ReweightFrom
    ensures Accepted(Fin(EdgeWeight(iter, d)), d) <==> d != 0.0
    ensures Accepted(PlaneWeight(iter, d, sqrtRange), d) <==> d != 0.0
  {
  }

  /** From iteration 5 an edge residual is kept exactly when 0 < |d| < 0.5. */
  lemma {:induction false} LateEdgeAcceptance(iter: nat, d: real)
    requires iter >= ReweightFrom
    ensures Accepted(Fin(EdgeWeight(iter, d)), d) <==> 0.0 < Abs(d) < 0.5
  {
  }

  /** From iteration 5 a plane residual is kept exactly when 0 < |d| < sqrtRange / 2,
      with sqrtRange the square root of the query point's distance from the
      origin; a zero sqrtRange keeps nothing. */
  lemma {:induction false} LatePlaneAcceptance(iter: nat, d: real, sqrtRange: real)
    requires iter >= ReweightFrom && sqrtRange >= 0.0
    ensures Accepted(PlaneWeight(iter, d, sqrtRange), d) <==> 0.0 < Abs(d) < 0.5 * sqrtRange
  {
    if sqrtRange > 0.0 {
      QuotientBelow(WeightSlope * Abs(d), sqrtRange, 0.9);
    }
  }

  lemma {:induction false} QuotientBelow(a: real, r: real, b: real)
    requires r > 0.0
    ensures a / r < b <==> a < b * r
  {
    var x := a / r;
    assert x * r == a;
    assert a - b * r == (x - b) * r;
  }

  /** A kept residual has a weight in (0.1, 1]: late reweighting only shrinks. */
  lemma KeptWeightInRange(iter: nat, d: real, sqrtRange: real)
    requires sqrtRange >= 0.0
    ensures Accepted(Fin(EdgeWeight(iter, d)), d) ==> MinWeight < EdgeWeight(iter, d) <= 1.0
    ensures Accepted(PlaneWeight(iter, d, sqrtRange), d) ==>
      MinWeight < PlaneWeight(iter, d, sqrtRange).val <= 1.0
  {
    if iter >= ReweightFrom && sqrtRange > 0.0 {
      assert Abs(d) / sqrtRange >= 0.0;
    }
  }

  /** A kept residual stores a non-zero weighted distance. */
  lemma {:induction false} KeptCoefficientNonZero(s: Num, r: Residual)
    requires Accepted(s, r.d)
    ensures Coefficient(s.val, r).intensity != 0.0
  {
    assert s.val != 0.0;
  }

  /** The point of every entry, in order (_laserCloudOri). */
  function Oris(m: seq<Match>): (r: seq<Point>)
    ensures |r| == |m|
    decreases |m|
  {
    if |m| == 0 then [] else Oris(m[..|m| - 1]) + [m[|m| - 1].point]
  }

  /** The coefficient of every entry, in order (_coeffSel). */
  function Coeffs(m: seq<Match>): (r: seq<Point>)
    ensures |r| == |m|
    decreases |m|
  {
    if |m| == 0 then [] else Coeffs(m[..|m| - 1]) + [m[|m| - 1].coeff]
  }

  /** Entry i of the two clouds is the point and the coefficient of entry i. */
  lemma {:induction false} OrisAt(m: seq<Match>, i: nat)
    requires i < |m|
    ensures Oris(m)[i] == m[i].point && Coeffs(m)[i] == m[i].coeff
    decreases |m|
  {
    if i < |m| - 1 {
      OrisAt(m[..|m| - 1], i);
    }
  }

  lemma AppendAssociates(a: seq<Point>, b: seq<Point>, c: seq<Point>)
    ensures a + (b + c) == (a + b) + c
  {
  }

  /** Pushing entries one after another pushes their points and coefficients in order. */
  lemma {:induction false} OrisAppend(a: seq<Match>, b: seq<Match>)
    ensures Oris(a + b) == Oris(a) + Oris(b)
    ensures Coeffs(a + b) == Coeffs(a) + Coeffs(b)
    decreases |b|
  {
    if |b| == 0 {
      assert a + b == a;
    } else {
      var b' := b[..|b| - 1];
      assert (a + b)[..|a + b| - 1] == a + b';
      OrisAppend(a, b');
    }
  }
}
