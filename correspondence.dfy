/** The ring-constrained correspondence search of LaserOdometry::process:
    for one current-frame feature point, given the nearest reference point that
    the k-d tree found, scan the reference cloud forward and backward from it,
    within a band of scan rings, for the closest further points. */
module Correspondence {
  import opened Points

  /** Squared-distance cutoff for every selected reference point. */
  const MaxSqDis: real := 25.0
  /** A scan stops at the first point more than this many rings away. */
  const RingBand: real := 2.5

  /** What the k-d tree and calcSquaredDiff report for one query point: the
      nearest reference index, its squared distance, and the squared distance
      to every reference point. */
  datatype Query = Query(nearest: int, nearestSqDis: real, sqDis: seq<real>)

  /** The k-d tree returns an index into the reference cloud, and there is one
      squared distance per reference point. */
  predicate WellFormed(ref: seq<Point>, q: Query)
  {
    0 <= q.nearest < |ref| && |q.sqDis| == |ref|
  }

  /** Reference point k lies above the ring band around ring `scan` (forward break). */
  predicate AboveBand(ref: seq<Point>, scan: int, k: int)
  {
    0 <= k < |ref| && Ring(ref[k]) as real > scan as real + RingBand
  }

  /** Reference point k lies below the ring band around ring `scan` (backward break). */
  predicate BelowBand(ref: seq<Point>, scan: int, k: int)
  {
    0 <= k < |ref| && Ring(ref[k]) as real < scan as real - RingBand
  }

  /** The forward scan from `nearest` reaches position j: j is inside the
      loop bound and the reference cloud, and no point from nearest + 1 up to j
      made the loop break. */
  predicate Forward(ref: seq<Point>, nearest: int, bound: int, j: int)
  {
    0 <= nearest < j && j < bound && j < |ref| &&
    forall k | nearest < k <= j :: !AboveBand(ref, Ring(ref[nearest]), k)
  }

  /** The backward scan from `nearest` reaches position j. */
  predicate Backward(ref: seq<Point>, nearest: int, j: int)
  {
    0 <= j < nearest < |ref| &&
    forall k | j <= k < nearest :: !BelowBand(ref, Ring(ref[nearest]), k)
  }

  /** Which further point a scan is looking for. */
  datatype Role = EdgeSecond | PlaneSecond | PlaneThird

  /** The ring test of each role at position j: the second point of an edge
      and the third point of a plane take a strictly higher ring forward and a
      strictly lower one backward; the second point of a plane a ring not above
      the nearest one's forward and not below it backward. */
  predicate RingFits(ref: seq<Point>, nearest: int, role: Role, j: int, forward: bool)
    requires 0 <= nearest < |ref| && 0 <= j < |ref|
  {
    if role == PlaneSecond then
      (if forward then Ring(ref[j]) <= Ring(ref[nearest]) else Ring(ref[j]) >= Ring(ref[nearest]))
    else
      (if forward then Ring(ref[j]) > Ring(ref[nearest]) else Ring(ref[j]) < Ring(ref[nearest]))
  }

  /** Position j is reached by one of the two scans and passes its role's ring test there. */
  predicate Candidate(ref: seq<Point>, nearest: int, bound: int, role: Role, j: int)
  {
    (Forward(ref, nearest, bound, j) && RingFits(ref, nearest, role, j, true)) ||
    (Backward(ref, nearest, j) && RingFits(ref, nearest, role, j, false))
  }

  /** The squared distance a selection stands for: the cutoff when nothing was selected. */
  function Best(q: Query, ind: int): real
    requires ind == -1 || 0 <= ind < |q.sqDis|
  {
    if ind == -1 then MaxSqDis else q.sqDis[ind]
  }

  /** How the scans settle a tie between the kept selection `ind` and an
      equally close candidate k: they replace a selection only by a strictly
      closer point, so of forward ties the first is kept, a backward candidate
      never displaces an equally close forward one, and of backward ties the one
      next to `nearest` is kept. */
  predicate TieSettled(nearest: int, ind: int, k: int)
  {
    (nearest < k ==> nearest < ind <= k) && (k < nearest ==> nearest < ind || k <= ind)
  }

  /** `ind` settles every tie with a candidate above `lo`. */
  predicate KeptAmongTies(ref: seq<Point>, q: Query, bound: int, role: Role, ind: int, lo: int)
    requires WellFormed(ref, q)
  {
    ind == -1 ||
    (0 <= ind < |ref| && lo < ind &&
     forall k | lo < k < |ref| && Candidate(ref, q.nearest, bound, role, k) && q.sqDis[k] == q.sqDis[ind] ::
       TieSettled(q.nearest, ind, k))
  }

  /** The selection `ind` is the closest candidate of its role among those
      with an index above `lo`: the forward candidates and the backward ones
      scanned so far. Ties are settled as the scans settle them. */
  predicate BestSoFar(ref: seq<Point>, q: Query, bound: int, role: Role, ind: int, lo: int)
    requires WellFormed(ref, q)
  {
    (ind == -1 || (Candidate(ref, q.nearest, bound, role, ind) && q.sqDis[ind] < MaxSqDis)) &&
    (forall k | lo < k < |ref| && Candidate(ref, q.nearest, bound, role, k) :: Best(q, ind) <= q.sqDis[k]) &&
    KeptAmongTies(ref, q, bound, role, ind, lo)
  }

  /** `ind` is -1 or a candidate of its role closer than the cutoff, no
      candidate of that role is strictly closer, and among equally close ones it
      is the one the scans keep. */
  predicate ClosestOf(ref: seq<Point>, q: Query, bound: int, role: Role, ind: int)
    requires WellFormed(ref, q)
  {
    BestSoFar(ref, q, bound, role, ind, -1)
  }

  /** The forward scan has looked at the positions from nearest + 1 up to
      j - 1: `ind` is -1 or the first of the closest candidates among them. */
  predicate ScannedUpTo(ref: seq<Point>, q: Query, bound: int, role: Role, ind: int, j: int)
    requires WellFormed(ref, q)
  {
    (ind == -1 ||
     (Candidate(ref, q.nearest, bound, role, ind) && q.nearest < ind < j && q.sqDis[ind] < MaxSqDis)) &&
    forall k | q.nearest < k < j && k < |ref| && Candidate(ref, q.nearest, bound, role, k) ::
      Best(q, ind) <= q.sqDis[k] && (ind != -1 && q.sqDis[k] == q.sqDis[ind] ==> ind <= k)
  }

  /** One forward position j: keeping j exactly when it passes its role's ring
      test and is strictly closer extends the scanned range to j. */
  lemma ForwardStep(ref: seq<Point>, q: Query, bound: int, role: Role, ind: int, ind': int, j: int)
    requires WellFormed(ref, q) && Forward(ref, q.nearest, bound, j)
    requires ScannedUpTo(ref, q, bound, role, ind, j)
    requires ind' == if RingFits(ref, q.nearest, role, j, true) && q.sqDis[j] < Best(q, ind) then j else ind
    ensures ScannedUpTo(ref, q, bound, role, ind', j + 1)
  {
    forall k | q.nearest < k < j + 1 && k < |ref| && Candidate(ref, q.nearest, bound, role, k)
      ensures Best(q, ind') <= q.sqDis[k] && (ind' != -1 && q.sqDis[k] == q.sqDis[ind'] ==> ind' <= k)
    {
      if k < j {
        assert Best(q, ind) <= q.sqDis[k];
      }
    }
  }

  /** A forward scan that stopped at j has seen every forward candidate. */
  lemma ForwardDone(ref: seq<Point>, q: Query, bound: int, role: Role, ind: int, j: int)
    requires WellFormed(ref, q) && ScannedUpTo(ref, q, bound, role, ind, j)
    requires forall k | Forward(ref, q.nearest, bound, k) :: k < j
    ensures BestSoFar(ref, q, bound, role, ind, q.nearest - 1)
  {
    forall k | q.nearest - 1 < k < |ref| && Candidate(ref, q.nearest, bound, role, k)
      ensures Best(q, ind) <= q.sqDis[k]
      ensures ind != -1 && q.sqDis[k] == q.sqDis[ind] ==> TieSettled(q.nearest, ind, k)
    {
      assert Forward(ref, q.nearest, bound, k);
    }
  }

  /** What lines 352-389 leave in _pointSearchCornerInd1/2 for one point. */
  predicate EdgeCorrespondence(ref: seq<Point>, q: Query, bound: int, ind1: int, ind2: int)
    requires WellFormed(ref, q)
  {
    if q.nearestSqDis < MaxSqDis then
      ind1 == q.nearest && ClosestOf(ref, q, bound, EdgeSecond, ind2)
    else
      ind1 == -1 && ind2 == -1
  }

  /** What lines 454-502 leave in _pointSearchSurfInd1/2/3 for one point. */
  predicate PlaneCorrespondence(ref: seq<Point>, q: Query, bound: int, ind1: int, ind2: int, ind3: int)
    requires WellFormed(ref, q)
  {
    if q.nearestSqDis < MaxSqDis then
      ind1 == q.nearest &&
      ClosestOf(ref, q, bound, PlaneSecond, ind2) &&
      ClosestOf(ref, q, bound, PlaneThird, ind3)
    else
      ind1 == -1 && ind2 == -1 && ind3 == -1
  }

  /** Edge search for one current-frame point.  `bound` is the loop bound of the
      forward scan (the number of current sharp points); the scan also stops at
      the end of the reference cloud. */
  method EdgeSearch(ref: seq<Point>, q: Query, bound: int) returns (ind1: int, ind2: int)
    requires WellFormed(ref, q)
    ensures EdgeCorrespondence(ref, q, bound, ind1, ind2)
  {
    ind1, ind2 := -1, -1;
    if q.nearestSqDis < MaxSqDis {
      var nearest := q.nearest;
      ind1 := nearest;
      var scan := Ring(ref[nearest]);
      var minSqDis2 := MaxSqDis;
      var j := nearest + 1;
      while j < bound && j < |ref|
        invariant nearest < j <= |ref|
        invariant forall k | nearest < k < j :: !AboveBand(ref, scan, k)
        invariant ScannedUpTo(ref, q, bound, EdgeSecond, ind2, j)
        invariant minSqDis2 == Best(q, ind2)
      {
        if AboveBand(ref, scan, j) {
          break;
        }
        assert Forward(ref, nearest, bound, j);
        ghost var prev := ind2;
        if Ring(ref[j]) > scan && q.sqDis[j] < minSqDis2 {
          minSqDis2 := q.sqDis[j];
          ind2 := j;
        }
        ForwardStep(ref, q, bound, EdgeSecond, prev, ind2, j);
        j := j + 1;
      }
      assert forall k | Forward(ref, nearest, bound, k) :: k < j;
      ForwardDone(ref, q, bound, EdgeSecond, ind2, j);
      var b := nearest - 1;
      while b >= 0
        invariant -1 <= b < nearest
        invariant forall k | b < k < nearest :: !BelowBand(ref, scan, k)
        invariant BestSoFar(ref, q, bound, EdgeSecond, ind2, b)
        invariant minSqDis2 == Best(q, ind2)
      {
        if BelowBand(ref, scan, b) {
          break;
        }
        assert Backward(ref, nearest, b);
        ghost var prev := ind2;
        if Ring(ref[b]) < scan && q.sqDis[b] < minSqDis2 {
          minSqDis2 := q.sqDis[b];
          ind2 := b;
        }
        BackwardStep(ref, q, bound, EdgeSecond, prev, ind2, b);
        b := b - 1;
      }
      assert forall k | Backward(ref, nearest, k) :: b < k;
    }
  }

  /** Plane search for one current-frame point, with the same bounds as EdgeSearch. */
  method PlaneSearch(ref: seq<Point>, q: Query, bound: int) returns (ind1: int, ind2: int, ind3: int)
    requires WellFormed(ref, q)
    ensures PlaneCorrespondence(ref, q, bound, ind1, ind2, ind3)
  {
    ind1, ind2, ind3 := -1, -1, -1;
    if q.nearestSqDis < MaxSqDis {
      ind1 := q.nearest;
      ind2, ind3 := PlaneForward(ref, q, bound);
      ind2, ind3 := PlaneBackward(ref, q, bound, ind2, ind3);
    }
  }

  /** The forward scan of the plane search (lines 460-478). */
  method PlaneForward(ref: seq<Point>, q: Query, bound: int) returns (ind2: int, ind3: int)
    requires WellFormed(ref, q)
    ensures BestSoFar(ref, q, bound, PlaneSecond, ind2, q.nearest - 1)
    ensures BestSoFar(ref, q, bound, PlaneThird, ind3, q.nearest - 1)
  {
    var nearest := q.nearest;
    var scan := Ring(ref[nearest]);
    ind2, ind3 := -1, -1;
    var minSqDis2, minSqDis3 := MaxSqDis, MaxSqDis;
    var j := nearest + 1;
    while j < bound && j < |ref|
      invariant nearest < j <= |ref|
      invariant forall k | nearest < k < j :: !AboveBand(ref, scan, k)
      invariant ScannedUpTo(ref, q, bound, PlaneSecond, ind2, j)
      invariant ScannedUpTo(ref, q, bound, PlaneThird, ind3, j)
      invariant minSqDis2 == Best(q, ind2) && minSqDis3 == Best(q, ind3)
    {
      if AboveBand(ref, scan, j) {
        break;
      }
      assert Forward(ref, nearest, bound, j);
      ghost var prev2, prev3 := ind2, ind3;
      if Ring(ref[j]) <= scan {
        if q.sqDis[j] < minSqDis2 {
          minSqDis2 := q.sqDis[j];
          ind2 := j;
        }
      } else {
        if q.sqDis[j] < minSqDis3 {
          minSqDis3 := q.sqDis[j];
          ind3 := j;
        }
      }
      ForwardStep(ref, q, bound, PlaneSecond, prev2, ind2, j);
      ForwardStep(ref, q, bound, PlaneThird, prev3, ind3, j);
      j := j + 1;
    }
    assert forall k | Forward(ref, nearest, bound, k) :: k < j;
    ForwardDone(ref, q, bound, PlaneSecond, ind2, j);
    ForwardDone(ref, q, bound, PlaneThird, ind3, j);
  }

  /** The backward scan of the plane search (lines 479-497), continuing from
      the forward scan's selections. */
  method PlaneBackward(ref: seq<Point>, q: Query, bound: int, fwd2: int, fwd3: int) returns (ind2: int, ind3: int)
    requires WellFormed(ref, q)
    requires BestSoFar(ref, q, bound, PlaneSecond, fwd2, q.nearest - 1)
    requires BestSoFar(ref, q, bound, PlaneThird, fwd3, q.nearest - 1)
    ensures BestSoFar(ref, q, bound, PlaneSecond, ind2, -1)
    ensures BestSoFar(ref, q, bound, PlaneThird, ind3, -1)
  {
    var nearest := q.nearest;
    var scan := Ring(ref[nearest]);
    ind2, ind3 := fwd2, fwd3;
    var minSqDis2, minSqDis3 := Best(q, ind2), Best(q, ind3);
    var b := nearest - 1;
    while b >= 0
      invariant -1 <= b < nearest
      invariant forall k | b < k < nearest :: !BelowBand(ref, scan, k)
      invariant BestSoFar(ref, q, bound, PlaneSecond, ind2, b)
      invariant BestSoFar(ref, q, bound, PlaneThird, ind3, b)
      invariant minSqDis2 == Best(q, ind2) && minSqDis3 == Best(q, ind3)
    {
      if BelowBand(ref, scan, b) {
        break;
      }
      assert Backward(ref, nearest, b);
      ghost var prev2, prev3 := ind2, ind3;
      if Ring(ref[b]) >= scan {
        if q.sqDis[b] < minSqDis2 {
          minSqDis2 := q.sqDis[b];
          ind2 := b;
        }
      } else {
        if q.sqDis[b] < minSqDis3 {
          minSqDis3 := q.sqDis[b];
          ind3 := b;
        }
      }
      BackwardStep(ref, q, bound, PlaneSecond, prev2, ind2, b);
      BackwardStep(ref, q, bound, PlaneThird, prev3, ind3, b);
      b := b - 1;
    }
    assert forall k | Backward(ref, nearest, k) :: b < k;
  }

  /** One backward position b: keeping b exactly when it passes its role's ring
      test and is strictly closer extends the closest selection to b. */
  lemma BackwardStep(ref: seq<Point>, q: Query, bound: int, role: Role, ind: int, ind': int, b: int)
    requires WellFormed(ref, q) && Backward(ref, q.nearest, b)
    requires BestSoFar(ref, q, bound, role, ind, b)
    requires ind' == if RingFits(ref, q.nearest, role, b, false) && q.sqDis[b] < Best(q, ind) then b else ind
    ensures BestSoFar(ref, q, bound, role, ind', b - 1)
  {
    forall k | b - 1 < k < |ref| && Candidate(ref, q.nearest, bound, role, k)
      ensures Best(q, ind') <= q.sqDis[k]
      ensures ind' != -1 && q.sqDis[k] == q.sqDis[ind'] ==> TieSettled(q.nearest, ind', k)
    {
      if k != b {
        assert Best(q, ind) <= q.sqDis[k];
        if ind != -1 && q.sqDis[k] == q.sqDis[ind] {
          assert TieSettled(q.nearest, ind, k);
        }
      }
    }
  }

  /** An edge's second point lies on a different ring within two rings of the
      nearest point's: above it when found forward, below it when found backward. */
  lemma EdgeSecondOnNeighbourRing(ref: seq<Point>, q: Query, bound: int, ind1: int, ind2: int)
    requires WellFormed(ref, q) && EdgeCorrespondence(ref, q, bound, ind1, ind2)
    requires ind2 != -1
    ensures 0 <= ind1 < |ref| && 0 <= ind2 < |ref| && ind1 != ind2
    ensures ind2 > ind1 ==> Ring(ref[ind1]) < Ring(ref[ind2]) <= Ring(ref[ind1]) + 2
    ensures ind2 < ind1 ==> Ring(ref[ind1]) - 2 <= Ring(ref[ind2]) < Ring(ref[ind1])
    ensures q.sqDis[ind2] < MaxSqDis
  {
    if ind2 > ind1 {
      assert !AboveBand(ref, Ring(ref[ind1]), ind2);
    } else {
      assert !BelowBand(ref, Ring(ref[ind1]), ind2);
    }
  }

  /** A plane's third point never shares the nearest point's ring, and its
      second point is not above it forward and not below it backward. */
  lemma PlaneRingsSeparate(ref: seq<Point>, q: Query, bound: int, ind1: int, ind2: int, ind3: int)
    requires WellFormed(ref, q) && PlaneCorrespondence(ref, q, bound, ind1, ind2, ind3)
    ensures ind3 != -1 ==> 0 <= ind3 < |ref| && Ring(ref[ind3]) != Ring(ref[q.nearest])
    ensures ind3 > q.nearest ==> Ring(ref[q.nearest]) < Ring(ref[ind3]) <= Ring(ref[q.nearest]) + 2
    ensures 0 <= ind3 < q.nearest ==> Ring(ref[q.nearest]) - 2 <= Ring(ref[ind3]) < Ring(ref[q.nearest])
    ensures ind2 > q.nearest ==> Ring(ref[ind2]) <= Ring(ref[q.nearest])
    ensures 0 <= ind2 < q.nearest ==> Ring(ref[ind2]) >= Ring(ref[q.nearest])
    ensures ind2 != -1 && ind3 != -1 ==> ind2 != ind3 && ind1 != ind2 && ind1 != ind3
  {
    if ind3 > q.nearest && q.nearestSqDis < MaxSqDis {
      assert !AboveBand(ref, Ring(ref[q.nearest]), ind3);
    } else if 0 <= ind3 < q.nearest && q.nearestSqDis < MaxSqDis {
      assert !BelowBand(ref, Ring(ref[q.nearest]), ind3);
    }
  }

  /** The scans' tie rule leaves exactly one possible selection per role. */
  lemma SelectionUnique(ref: seq<Point>, q: Query, bound: int, role: Role, a: int, b: int)
    requires WellFormed(ref, q)
    requires ClosestOf(ref, q, bound, role, a) && ClosestOf(ref, q, bound, role, b)
    ensures a == b
  {
    if a != -1 && b != -1 {
      assert q.sqDis[a] == q.sqDis[b];
      assert TieSettled(q.nearest, a, b) && TieSettled(q.nearest, b, a);
    }
  }

  /** Two reference points on ring 1 at the same distance after a nearest
      point on ring 0: the forward scan keeps the first of them. */
  lemma FirstOfForwardTiesKept(ind1: int, ind2: int)
    requires EdgeCorrespondence([Point(0.0, 0.0, 0.0, 0.0), Point(0.0, 0.0, 0.0, 1.0), Point(0.0, 0.0, 0.0, 1.0)],
                                Query(0, 1.0, [1.0, 4.0, 4.0]), 3, ind1, ind2)
    ensures ind1 == 0 && ind2 == 1
  {
    var ref := [Point(0.0, 0.0, 0.0, 0.0), Point(0.0, 0.0, 0.0, 1.0), Point(0.0, 0.0, 0.0, 1.0)];
    var q := Query(0, 1.0, [1.0, 4.0, 4.0]);
    assert Ring(ref[1]) == 1 && Ring(ref[2]) == 1 && Ring(ref[0]) == 0;
    assert Candidate(ref, 0, 3, EdgeSecond, 1) by {
      assert Forward(ref, 0, 3, 1);
    }
    assert ind2 != -1;
    assert Candidate(ref, 0, 3, EdgeSecond, 2) by {
      assert Forward(ref, 0, 3, 2);
    }
  }

  /** No selection (-1) exactly when no candidate of the role is closer than the cutoff. */
  lemma NoneSelectedIffNoneClose(ref: seq<Point>, q: Query, bound: int, role: Role, ind: int)
    requires WellFormed(ref, q) && ClosestOf(ref, q, bound, role, ind)
    ensures ind == -1 <==>
      forall k | 0 <= k < |ref| && Candidate(ref, q.nearest, bound, role, k) :: q.sqDis[k] >= MaxSqDis
  {
  }

  /** The forward loop of lines 358 and 460 as written: it runs j from
      nearest + 1 while j < bound, the number of CURRENT feature points, and reads
      the reference cloud at j unless an earlier position made it break.  It
      reads position j when this holds. */
  predicate AsWrittenForwardReads(ref: seq<Point>, nearest: int, bound: int, j: int)
    requires 0 <= nearest < |ref|
  {
    nearest < j < bound &&
    forall k | nearest < k < j :: k < |ref| && !AboveBand(ref, Ring(ref[nearest]), k)
  }

  /** The as-written forward loop reads a position past the end of the reference cloud. */
  predicate ReadsPastReference(ref: seq<Point>, nearest: int, bound: int)
    requires 0 <= nearest < |ref|
  {
    exists j | |ref| <= j < bound :: AsWrittenForwardReads(ref, nearest, bound, j)
  }

  /** The as-written loop overruns exactly when the current frame has more
      points than the reference cloud and no reference point after the nearest
      one leaves the ring band. */
  lemma {:induction false} OverrunExactly(ref: seq<Point>, nearest: int, bound: int)
    requires 0 <= nearest < |ref|
    ensures ReadsPastReference(ref, nearest, bound) <==>
      bound > |ref| && forall k | nearest < k < |ref| :: !AboveBand(ref, Ring(ref[nearest]), k)
  {
    if bound > |ref| && forall k | nearest < k < |ref| :: !AboveBand(ref, Ring(ref[nearest]), k) {
      assert AsWrittenForwardReads(ref, nearest, bound, |ref|);
    }
  }

  /** Eleven reference corners on one ring (enough to pass the "more than 10"
      test of line 325), the nearest one the last, and twelve current sharp
      points: the forward loop reads reference position 11, which does not exist. */
  lemma ForwardScanOverrun()
    ensures ReadsPastReference(seq(11, _ => Point(0.0, 0.0, 0.0, 0.0)), 10, 12)
  {
    assert AsWrittenForwardReads(seq(11, _ => Point(0.0, 0.0, 0.0, 0.0)), 10, 12, 11);
  }

  /** Wherever the as-written loop stays inside the reference cloud, the
      corrected forward scan reaches exactly the positions it reads. */
  lemma {:induction false} CorrectedScanAgrees(ref: seq<Point>, nearest: int, bound: int, j: int)
    requires 0 <= nearest < |ref| && !ReadsPastReference(ref, nearest, bound)
    ensures AsWrittenForwardReads(ref, nearest, bound, j) && !AboveBand(ref, Ring(ref[nearest]), j)
            <==> Forward(ref, nearest, bound, j)
  {
  }
}
